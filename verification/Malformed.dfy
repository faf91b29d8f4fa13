// Messages that the printers do not print: what is refused, what is read leniently, and bodies that come zipped.
module Malformed {
  import opened Wrappers
  import opened Text
  import opened Numbers
  import opened NumberTexts
  import opened Letters
  import opened Http
  import opened HttpRoundTrip

  // ---------------------------------------------------------------- first lines

  predicate StatusWord(word: string) {
    |word| >= 5 && SameButCase(word[..5], "http/")
  }

  lemma StatusWordExactly(word: string)
    ensures StartsWith(Lowercased(word), "http/") <==> StatusWord(word)
  {
    if |word| >= 5 {
      SameExactly(word[..5], "http/");
      assert Lowercased(word)[..5] == Lowercased(word[..5]);
      assert Lowercased("http/") == "http/";
    }
  }

  lemma FirstTwoWords(first: string, second: string, tail: string)
    requires Apart(first, " ") && Apart(second, " ") && (tail == "" || tail[0] == ' ')
    ensures var words := Cut(first + " " + second + tail, " ", 0, -1);
            |words| >= 2 && words[0] == first && words[1] == second
  {
    hide Cut, Apart;
    assert first + " " + second + tail == first + " " + (second + tail);
    CutFirst(first, " ", second + tail);
    if tail == "" {
      assert second + tail == second;
      NoCut(second);
    } else {
      assert second + tail == second + " " + tail[1..];
      CutFirst(second, " ", tail[1..]);
    }
  }

  lemma NoCut(word: string)
    requires Apart(word, " ")
    ensures Cut(word, " ", 0, -1) == [word]
  {
    NotFoundApart(word, " ");
    assert word[0..] == word;
  }

  /** A status line, or a request line, by its first two words. */
  lemma TwoWords(reply: Reply, first: string, second: string, tail: string)
    requires Apart(first, " ") && Apart(second, " ") && (tail == "" || tail[0] == ' ')
    ensures WithFirstLine(reply, first + " " + second + tail)
         == if !StatusWord(first) then Some(reply.(verb := Lowercased(first), resource := second))
            else match Stoi(second) case None => None case Some(code) => Some(reply.(status := code))
  {
    hide Cut, Stoi, Lowercased, StatusWord, Apart;
    FirstTwoWords(first, second, tail);
    StatusWordExactly(first);
  }

  lemma OneWord(reply: Reply, line: string)
    requires Apart(line, " ")
    ensures WithFirstLine(reply, line) == None
  {
    hide Cut;
    NoCut(line);
  }

  // ------------------------------------------------------------- what is refused

  /** The message is refused: a protocol error, and the bytes behind the refused line are not taken. */
  predicate Refused(r: (Outcome, string), reply: Reply, rest: string) {
    r.0.error == ProtocolError && r.0.reply == reply && r.1 == rest
  }

  lemma HeadOutcome(env: Env, lines: seq<string>, rest: string)
    requires Separable(lines)
    ensures var s := Joined(lines, CRLF) + BLANK_LINE + rest;
            var next := AfterHeaders(Joined(lines, CRLF));
            Run(env, Headers, s) == if next.Deliver? then (next.outcome, rest) else Run(env, next.phase, rest)
  {
    hide AfterHeaders, Joined, Find, At, Cut;
    HeadersFire(env, lines, rest);
    RunStep(env, Headers, Joined(lines, CRLF) + BLANK_LINE + rest);
  }

  lemma HeadLines(lines: seq<string>)
    requires Separable(lines)
    ensures var head := NO_REPLY.(headers := Joined(lines, CRLF));
            AfterHeaders(Joined(lines, CRLF))
            == match WithFirstLine(head, lines[0])
               case None => Deliver(Outcome(ProtocolError, head))
               case Some(first) => AfterHeaderLines(first.(parsed := HeaderMap(lines[1..])))
  {
    assert lines != [];
    hide WithFirstLine, AfterHeaderLines, HeaderMap, Joined, Cut, Separable;
    HeadersFire(Env(_ => None, 0), lines, "");
  }

  /** A first line of one word, or a status line whose second word is no number of 32 bits. */
  lemma FirstLineRefused(env: Env, lines: seq<string>, rest: string, first: string, x: NumberText, tail: string)
    requires Separable(lines)
    requires Apart(lines[0], " ")
             || (lines[0] == first + " " + x.Text() + tail && StatusWord(first)
                 && Apart(first, " ") && Apart(x.Text(), " ") && (tail == "" || tail[0] == ' ')
                 && Unreadable(x))
    ensures var head := Joined(lines, CRLF);
            Refused(Run(env, Headers, head + BLANK_LINE + rest), NO_REPLY.(headers := head), rest)
  {
    var head := NO_REPLY.(headers := Joined(lines, CRLF));
    if Apart(lines[0], " ") {
      OneWord(head, lines[0]);
    } else {
      hide Apart, NumberText.Text, Stoi, StatusWord;
      TwoWords(head, first, x.Text(), tail);
      StoiFails(x);
    }
    hide Run, AfterHeaders, WithFirstLine, Joined, HeaderMap, Separable, AfterHeaderLines;
    HeadLines(lines);
    HeadOutcome(env, lines, rest);
  }

  /** No number, or none that 32 bits hold. */
  ghost predicate Unreadable(x: NumberText) {
    x.NoNumeral(10)
    || exists n: nat :: x.Numeral(n, 10) && !(-TWO_31 <= (if x.sign == "-" then -(n as int) else n) < TWO_31)
  }

  lemma StoiFails(x: NumberText)
    requires Unreadable(x)
    ensures Stoi(x.Text()) == None
  {
    if x.NoNumeral(10) {
      StoiRefuses(x);
    } else {
      var n: nat :| x.Numeral(n, 10) && !(-TWO_31 <= (if x.sign == "-" then -(n as int) else n) < TWO_31);
      StoiReads(x, n);
    }
  }

  /** No number below 2^64. */
  ghost predicate TooLongOrNone(x: NumberText, base: nat) {
    x.NoNumeral(base) || exists n: nat :: x.Numeral(n, base) && n >= TWO_64
  }

  lemma StoulFails(x: NumberText, base: nat)
    requires TooLongOrNone(x, base)
    ensures Stoul(x.Text(), base) == None
  {
    if x.NoNumeral(base) {
      StoulRefuses(x, base);
    } else {
      var n: nat :| x.Numeral(n, base) && n >= TWO_64;
      StoulReads(x, n, base);
    }
  }

  /** The head of a message whose first line is accepted. */
  function Head(lines: seq<string>, first: Reply): Reply
    requires lines != []
  {
    first.(parsed := HeaderMap(lines[1..]))
  }

  predicate Accepts(lines: seq<string>, first: Reply)
    requires lines != []
  {
    WithFirstLine(NO_REPLY.(headers := Joined(lines, CRLF)), lines[0]) == Some(first)
  }

  /** A length that is no number below 2^64 refuses the message. */
  lemma LengthRefused(env: Env, lines: seq<string>, first: Reply, x: NumberText, rest: string)
    requires Separable(lines) && Accepts(lines, first)
    requires Head(lines, first).HasHeader("Content-Length")
    requires Head(lines, first).GetHeader("Content-Length") == x.Text()
    requires TooLongOrNone(x, 10)
    ensures Refused(Run(env, Headers, Joined(lines, CRLF) + BLANK_LINE + rest), Head(lines, first), rest)
  {
    hide Run, AfterHeaders, WithFirstLine, Joined, HeaderMap, Stoul, NumberText.Text, TooLongOrNone, Canon;
    StoulFails(x, 10);
    HeadLines(lines);
    HeadOutcome(env, lines, rest);
  }

  /** What stands behind the digits of a length is not looked at; a negative length is what is missing to 2^64. */
  lemma LengthRead(env: Env, lines: seq<string>, first: Reply, x: NumberText, n: nat, rest: string)
    requires Separable(lines) && Accepts(lines, first)
    requires Head(lines, first).HasHeader("Content-Length")
    requires Head(lines, first).GetHeader("Content-Length") == x.Text()
    requires x.Numeral(n, 10) && n < TWO_64
    ensures var length := if x.sign == "-" && n > 0 then TWO_64 - n else n;
            Run(env, Headers, Joined(lines, CRLF) + BLANK_LINE + rest)
            == Run(env, Body(Head(lines, first), length), rest)
  {
    hide Run, AfterHeaders, WithFirstLine, Joined, HeaderMap, Stoul, NumberText.Text, NumberText.Numeral, Canon;
    StoulReads(x, n, 10);
    HeadLines(lines);
    HeadOutcome(env, lines, rest);
  }

  /** Neither a length nor chunks: the message ends with its head, and every byte behind it is left. */
  lemma NoBody(env: Env, lines: seq<string>, first: Reply, rest: string)
    requires Separable(lines) && Accepts(lines, first)
    requires !Head(lines, first).HasHeader("Content-Length")
    requires Head(lines, first).GetHeader("Transfer-Encoding") != "chunked"
    ensures Run(env, Headers, Joined(lines, CRLF) + BLANK_LINE + rest) == (Outcome(Success, Head(lines, first)), rest)
  {
    hide Run, AfterHeaders, WithFirstLine, Joined, HeaderMap, Canon;
    HeadLines(lines);
    HeadOutcome(env, lines, rest);
  }

  /** An empty header block is refused at once. */
  lemma EmptyHead(env: Env, rest: string)
    ensures Refused(Run(env, Headers, BLANK_LINE + rest), NO_REPLY, rest)
  {
    var s := BLANK_LINE + rest;
    assert s[0..4] == BLANK_LINE;
    assert At(s, BLANK_LINE, 0);
    assert s[..0] == "" && s[4..] == rest;
    assert Apart("", CRLF) && [""] == Cut("", CRLF, 0, -1);
  }

  // -------------------------------------------------------------------- chunks

  lemma SizeTaken(env: Env, reply: Reply, text: string, behind: string)
    requires Apart(text, CRLF)
    ensures var s := text + CRLF + behind;
            var next := AfterChunkSize(reply, text);
            Run(env, ChunkSize(reply), s)
            == if next.Deliver? then (next.outcome, behind) else Run(env, next.phase, behind)
  {
    FindAfterApart(text, CRLF, behind);
    hide Find, At, Apart, AfterChunkSize, Run;
    var s := text + CRLF + behind;
    SizeCut(text, CRLF, behind);
    assert Taken(ChunkSize(reply), s) == |text| + 2;
    hide CRLF;
    RunStep(env, ChunkSize(reply), s);
  }

  /** A size line that is not a number and nothing else refuses the message, with the data read so far. */
  lemma SizeRefused(env: Env, reply: Reply, x: NumberText, n: nat, behind: string)
    requires Apart(x.Text(), CRLF)
    requires TooLongOrNone(x, 16) || (x.Numeral(n, 16) && x.tail != "")
    ensures Refused(Run(env, ChunkSize(reply), x.Text() + CRLF + behind), reply, behind)
  {
    hide Run, Stoul, TooLongOrNone, NumberText.Numeral, Apart;
    if TooLongOrNone(x, 16) {
      StoulFails(x, 16);
    } else {
      StoulReads(x, n, 16);
    }
    SizeTaken(env, reply, x.Text(), behind);
  }

  /** A size may bear white space before it, a sign and a hexadecimal mark. */
  lemma SizeAccepted(env: Env, reply: Reply, x: NumberText, n: nat, behind: string)
    requires Apart(x.Text(), CRLF) && x.Numeral(n, 16) && x.tail == "" && n < TWO_64
    ensures var size := if x.sign == "-" && n > 0 then TWO_64 - n else n;
            Run(env, ChunkSize(reply), x.Text() + CRLF + behind) == Run(env, Chunk(reply, size), behind)
  {
    hide Run, Stoul, NumberText.Numeral, Apart;
    StoulReads(x, n, 16);
    SizeTaken(env, reply, x.Text(), behind);
  }

  /** From 2^64-2 on the size wraps around when the CRLF is added: of such a chunk no byte is taken, or one. */
  lemma SizeWrapsAround(env: Env, reply: Reply, s: string)
    ensures Run(env, Chunk(reply, TWO_64 - 2), s) == Run(env, ChunkSize(reply), s)
    ensures s != "" ==>
              Run(env, Chunk(reply, TWO_64 - 1), s) == Run(env, ChunkSize(reply.(body := reply.body + s[..1])), s[1..])
  {
    assert s[0..] == s && reply.body + "" == reply.body;
    assert reply.(body := reply.body) == reply;
    NothingTaken(env, reply, s);
    if s != "" {
      OneTaken(env, reply, s);
    }
  }

  lemma NothingTaken(env: Env, reply: Reply, s: string)
    ensures Holds(WaitsFor(Chunk(reply, TWO_64 - 2)), s) && Taken(Chunk(reply, TWO_64 - 2), s) == 0
    ensures Fire(env, Chunk(reply, TWO_64 - 2), s) == Wait(ChunkSize(reply))
  {
    assert s[..0] == "" && reply.body + "" == reply.body;
  }

  lemma OneTaken(env: Env, reply: Reply, s: string)
    requires s != ""
    ensures Holds(WaitsFor(Chunk(reply, TWO_64 - 1)), s) && Taken(Chunk(reply, TWO_64 - 1), s) == 1
    ensures Fire(env, Chunk(reply, TWO_64 - 1), s) == Wait(ChunkSize(reply.(body := reply.body + s[..1])))
  {
    assert s[..1][..1] == s[..1];
  }

  // -------------------------------------------------------------------- zipped

  /** The coding is named by the header, among others perhaps. */
  predicate Zipped(reply: Reply) {
    reply.HasHeader("Content-Encoding")
    && exists i :: 0 <= i <= |reply.GetHeader("Content-Encoding")| - 4
                   && GzipAt(reply.GetHeader("Content-Encoding"), i)
  }

  predicate GzipAt(value: string, i: nat) {
    i + 4 <= |value| && value[i..i + 4] == "gzip"
  }

  lemma ZippedExactly(reply: Reply)
    requires reply.HasHeader(CONTENT_ENCODING)
    ensures Find(reply.GetHeader(CONTENT_ENCODING), "gzip", 0).Some? <==> Zipped(reply)
  {
    var value := reply.GetHeader(CONTENT_ENCODING);
    FindLeast(value, "gzip", 0);
    forall i: nat
      ensures At(value, "gzip", i) <==> GzipAt(value, i)
    {
      if i + 4 <= |value| {
        assert value[i] == value[i..i + 4][0] && value[i + 1] == value[i..i + 4][1];
        assert value[i + 2] == value[i..i + 4][2] && value[i + 3] == value[i..i + 4][3];
      }
    }
    hide Canon;
  }

  /** What the handler gets for a body that has arrived whole. */
  predicate Handed(env: Env, o: Outcome, reply: Reply, body: string) {
    if !Zipped(reply) || body == "" then o.error == Success && o.reply == reply.(body := body)
    else match env.inflate(body)
         case None => o.error == ProtocolError && o.reply == reply.(body := body)
         case Some(plain) => o.error == Success && o.reply == reply.(body := plain)
  }

  lemma FinishedHands(env: Env, reply: Reply, body: string)
    ensures Handed(env, Finished(env, reply.(body := body)), reply, body)
  {
    var whole := reply.(body := body);
    assert whole.HasHeader(CONTENT_ENCODING) == reply.HasHeader(CONTENT_ENCODING);
    assert whole.GetHeader(CONTENT_ENCODING) == reply.GetHeader(CONTENT_ENCODING);
    if reply.HasHeader(CONTENT_ENCODING) {
      ZippedExactly(reply);
    }
    hide Find, Canon, GzipAt;
  }

  /** A body of announced length: as it came, or inflated when the header says so. */
  lemma BodyHanded(env: Env, reply: Reply, body: string, rest: string)
    ensures var (o, left) := Run(env, Body(reply, |body|), body + rest); Handed(env, o, reply, body) && left == rest
  {
    hide Finished, Handed;
    FinishedHands(env, reply, body);
    assert (body + rest)[..|body|] == body && (body + rest)[|body|..] == rest;
  }

  /** And a chunked one, behind its last chunk. */
  lemma ChunksHanded(env: Env, reply: Reply, pieces: seq<Piece>, last: string, rest: string)
    requires forall i :: 0 <= i < |pieces| ==> pieces[i].Valid()
    requires Sizes(last, 0) && reply.body == ""
    ensures var (o, left) := Run(env, ChunkSize(reply), Encoded(pieces, last) + rest);
            Handed(env, o, reply, Data(pieces)) && left == rest
  {
    hide Run, Finished, Handed, Sizes;
    FinishedHands(env, reply, Data(pieces));
    assert reply.body + Data(pieces) == Data(pieces);
    ChunkedRoundTrip(env, reply, pieces, last, rest);
  }
}
