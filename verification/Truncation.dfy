// A stream that ends too early: what the handler is told when only a proper prefix of a message has arrived.
module Truncation {
  import opened Wrappers
  import opened Text
  import opened Numbers
  import opened Http
  import opened HttpPrinters
  import opened HttpRoundTrip

  /** The error of the stream goes to the handler, with this reply. */
  predicate BrokenOff(env: Env, o: Outcome, reply: Reply) {
    o.error == StreamError(env.streamEnd) && o.reply == reply
  }

  /** Where a text stops before the first match is complete, there is none yet. */
  lemma NoMatchYet(s: string, t: string, d: string, i: nat)
    requires Find(s + t, d, 0) == Some(i) && |s| < i + |d|
    ensures Find(s, d, 0).None?
  {
    if Find(s, d, 0).Some? {
      FindInPrefix(s, t, d, 0);
    }
  }

  lemma PrefixSplits(s: string, n: nat)
    requires n <= |s|
    ensures s[..n] + s[n..] == s
  {
  }

  lemma LaterCut(a: string, b: string, n: nat)
    requires |a| <= n <= |a| + |b|
    ensures (a + b)[..n] == a + b[..n - |a|]
  {
  }

  // ------------------------------------------------------------- a head

  /** Within the header block nothing is known: the handler gets an empty reply. */
  lemma HeadCut(env: Env, lines: seq<string>, rest: string, n: nat)
    requires Separable(lines) && n < |Joined(lines, CRLF)| + 4
    ensures var s := (Joined(lines, CRLF) + BLANK_LINE + rest)[..n];
            BrokenOff(env, Run(env, Headers, s).0, NO_REPLY) && Run(env, Headers, s).1 == s
  {
    hide Find, At, Joined;
    var text := Joined(lines, CRLF) + BLANK_LINE + rest;
    HeadEnds(lines, rest);
    PrefixSplits(text, n);
    NoMatchYet(text[..n], text[n..], BLANK_LINE, |Joined(lines, CRLF)|);
  }

  /** Behind the head of a message the parser goes on with what the head announces. */
  lemma HeadRead(env: Env, lines: seq<string>, rest: string, phase: Phase)
    requires Separable(lines) && AfterHeaders(Joined(lines, CRLF)) == Wait(phase)
    ensures Run(env, Headers, Joined(lines, CRLF) + BLANK_LINE + rest) == Run(env, phase, rest)
  {
    hide AfterHeaders, Joined, Find, At, Cut;
    HeadersFire(env, lines, rest);
    RunStep(env, Headers, Joined(lines, CRLF) + BLANK_LINE + rest);
  }

  lemma BodyCut(env: Env, reply: Reply, length: nat, s: string)
    requires |s| < length
    ensures BrokenOff(env, Run(env, Body(reply, length), s).0, reply) && Run(env, Body(reply, length), s).1 == s
  {
  }

  /** Of a printed message only a proper prefix has arrived: never a success. Within the header block the reply is
      empty; behind it, it is the message's head with no body. What was not taken stays in the buffer. */
  lemma MessageCut(env: Env, m: Message, n: nat)
    requires m.Printable() && n < |m.Text()|
    ensures var s := m.Text()[..n];
            var head := |Joined(m.Lines(), CRLF)| + 4;
            var (o, left) := Run(env, Headers, s);
            if n < head then BrokenOff(env, o, NO_REPLY) && left == s
            else BrokenOff(env, o, HeadReply(m)) && left == s[head..]
  {
    hide AfterHeaders, AfterHeaderLines, HeaderMap, ToString, Joined, Cut, Find, At, Apart, Separable, Run, BrokenOff;
    hide Announces, CONTENT_TYPE, APPLICATION_JSON;
    PrintedSeparable(m);
    var top := Joined(m.Lines(), CRLF) + BLANK_LINE;
    if n < |top| {
      HeadCut(env, m.Lines(), m.body, n);
    } else {
      LaterCut(top, m.body, n);
      var part := m.body[..n - |top|];
      assert (top + part)[|top|..] == part;
      PrintedHead(m);
      PrintedHeaders(m);
      BodyRead(env, HeadReply(m), if m.Request? then Trimmed(m.contentType) else APPLICATION_JSON, m.body, "");
      HeadRead(env, m.Lines(), part, Body(HeadReply(m), |m.body|));
      BodyCut(env, HeadReply(m), |m.body|, part);
    }
  }

  /** The same over any segments in which the prefix arrives. */
  lemma MessageCutOverSegments(env: Env, m: Message, n: nat, net: seq<string>)
    requires m.Printable() && n < |m.Text()| && Flatten(net) == m.Text()[..n]
    ensures BrokenOff(env, Stream(env, Headers, "", net).0,
                 if n < |Joined(m.Lines(), CRLF)| + 4 then NO_REPLY else HeadReply(m))
  {
    hide Run, Stream, Message.Text, Joined, BrokenOff;
    MessageCut(env, m, n);
    StreamRefinesRun(env, Headers, "", net);
    assert "" + Flatten(net) == Flatten(net);
  }

  // ----------------------------------------------------------- chunks

  /** What goes along with the error: nothing while a size line is awaited, the data of all earlier chunks
      within a chunk. */
  function Along(reply: Reply, pieces: seq<Piece>, last: string, n: nat): Reply
    decreases |pieces|
  {
    if pieces == [] then
      if n < |last| + 2 then NO_REPLY else reply
    else
      var line, chunk := |pieces[0].size| + 2, |pieces[0].data| + 2;
      if n < line then NO_REPLY
      else if n < line + chunk then reply
      else Along(reply.(body := reply.body + pieces[0].data), pieces[1..], last, n - line - chunk)
  }

  lemma SizeCutOff(env: Env, reply: Reply, size: string, k: nat, behind: string, n: nat)
    requires Sizes(size, k) && n < |size| + 2
    ensures BrokenOff(env, Run(env, ChunkSize(reply), (size + CRLF + behind)[..n]).0, NO_REPLY)
  {
    hide Find, At, Apart, Sizes;
    var text := size + CRLF + behind;
    SizeApart(size, k);
    FindAfterApart(size, CRLF, behind);
    PrefixSplits(text, n);
    NoMatchYet(text[..n], text[n..], CRLF, |size|);
  }

  lemma DataCutOff(env: Env, reply: Reply, size: nat, s: string)
    requires |s| < size + 2 < TWO_64
    ensures BrokenOff(env, Run(env, Chunk(reply, size), s).0, reply)
  {
  }

  /** One round of the chunk loop, ended anywhere. */
  lemma RoundCut(env: Env, reply: Reply, size: string, data: string, tail: string, n: nat)
    requires Sizes(size, |data|) && |data| < TWO_64 - 2 && n < |size| + 2 + |data| + 2
    ensures BrokenOff(env, Run(env, ChunkSize(reply), (size + CRLF + data + CRLF + tail)[..n]).0,
                 if n < |size| + 2 then NO_REPLY else reply)
  {
    hide Run, Sizes, BrokenOff;
    var behind := data + CRLF + tail;
    assert size + CRLF + data + CRLF + tail == size + CRLF + behind;
    if n < |size| + 2 {
      SizeCutOff(env, reply, size, |data|, behind, n);
    } else {
      LaterCut(size + CRLF, behind, n);
      var part := behind[..n - |size| - 2];
      SizeLine(env, reply, size, |data|, part);
      DataCutOff(env, reply, |data|, part);
    }
  }

  /** Of a chunked body only a proper prefix has arrived: never a success. */
  lemma {:induction false} ChunksCut(env: Env, reply: Reply, pieces: seq<Piece>, last: string, n: nat)
    requires forall i :: 0 <= i < |pieces| ==> pieces[i].Valid()
    requires Sizes(last, 0) && n < |Encoded(pieces, last)|
    ensures BrokenOff(env, Run(env, ChunkSize(reply), Encoded(pieces, last)[..n]).0, Along(reply, pieces, last, n))
    decreases |pieces|
  {
    hide Run, Sizes, BrokenOff;
    if pieces == [] {
      assert Encoded(pieces, last) == last + CRLF + "" + CRLF + "";
      RoundCut(env, reply, last, "", "", n);
    } else {
      var p := pieces[0];
      var tail := Encoded(pieces[1..], last);
      var round := p.size + CRLF + p.data + CRLF;
      assert p.Valid();
      if n < |round| {
        RoundCut(env, reply, p.size, p.data, tail, n);
      } else {
        LaterCut(round, tail, n);
        ChunkRound(env, reply, p.size, p.data, tail[..n - |round|]);
        ChunksCut(env, reply.(body := reply.body + p.data), pieces[1..], last, n - |round|);
      }
    }
  }

  /** And of a whole chunked message, whatever its head besides: any segments, any cut. */
  lemma ChunkedMessageCut(env: Env, lines: seq<string>, first: Reply, pieces: seq<Piece>, last: string, n: nat,
                          net: seq<string>)
    requires Separable(lines)
    requires WithFirstLine(NO_REPLY.(headers := Joined(lines, CRLF)), lines[0]) == Some(first)
    requires var h := first.(parsed := HeaderMap(lines[1..]));
             !h.HasHeader("Content-Length") && h.GetHeader("Transfer-Encoding") == "chunked"
    requires forall i :: 0 <= i < |pieces| ==> pieces[i].Valid()
    requires Sizes(last, 0)
    requires var text := Joined(lines, CRLF) + BLANK_LINE + Encoded(pieces, last);
             n < |text| && Flatten(net) == text[..n]
    ensures var head := |Joined(lines, CRLF)| + 4;
            BrokenOff(env, Stream(env, Headers, "", net).0,
                 if n < head then NO_REPLY
                 else Along(first.(parsed := HeaderMap(lines[1..])), pieces, last, n - head))
  {
    hide HeaderMap, WithFirstLine, Joined, Cut, Find, At, Canon, Sizes, Apart, Run, Stream, BrokenOff;
    var top := Joined(lines, CRLF) + BLANK_LINE;
    StreamRefinesRun(env, Headers, "", net);
    assert "" + Flatten(net) == Flatten(net);
    if n < |top| {
      HeadCut(env, lines, Encoded(pieces, last), n);
    } else {
      LaterCut(top, Encoded(pieces, last), n);
      var part := Encoded(pieces, last)[..n - |top|];
      var reply := first.(parsed := HeaderMap(lines[1..]));
      HeadersFire(env, lines, part);
      assert AfterHeaders(Joined(lines, CRLF)) == Wait(ChunkSize(reply));
      HeadRead(env, lines, part, ChunkSize(reply));
      ChunksCut(env, reply, pieces, last, n - |top|);
    }
  }
}
