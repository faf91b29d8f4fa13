// Parsing undoes printing: pipelined messages with a length, and messages sent in chunks.
module HttpRoundTrip {
  import opened Wrappers
  import opened Text
  import opened Numbers
  import opened NumberTexts
  import opened Http
  import opened HttpPrinters

  /** Header lines that CRLF can separate and an empty line can end. */
  predicate Separable(lines: seq<string>) {
    lines != [] && forall i :: 0 <= i < |lines| ==> lines[i] != "" && Apart(lines[i], CRLF)
  }

  lemma NotAtOffset(s: string, d: string, j: nat, k: nat)
    requires k < |d| && j + k < |s| && s[j + k] != d[k]
    ensures !At(s, d, j)
  {
  }

  /** The first empty line is the one behind the last header line. */
  lemma {:induction false} HeadEnds(lines: seq<string>, rest: string)
    requires Separable(lines)
    ensures Find(Joined(lines, CRLF) + BLANK_LINE + rest, BLANK_LINE, 0) == Some(|Joined(lines, CRLF)|)
  {
    hide Find, At, Apart;
    var first := lines[0];
    if |lines| == 1 {
      ApartFromBlankLine(first);
      FindAfterApart(first, BLANK_LINE, rest);
    } else {
      HeadEnds(lines[1..], rest);
      StartsLike(lines[1..], rest);
      var behind := Joined(lines[1..], CRLF);
      BlankLineLater(first, behind + BLANK_LINE + rest, |behind|);
      Regroup(first, CRLF, behind, BLANK_LINE, rest);
    }
  }

  lemma Regroup(a: string, b: string, c: string, d: string, e: string)
    ensures a + b + (c + d + e) == a + b + c + d + e
  {
  }

  lemma ApartFromBlankLine(line: string)
    requires Apart(line, CRLF)
    ensures Apart(line, BLANK_LINE)
  {
    forall i | 0 <= i < |line|
      ensures line[i] !in BLANK_LINE
    {
      assert '\r' in CRLF && '\n' in CRLF;
    }
  }

  lemma StartsLike(lines: seq<string>, rest: string)
    requires Separable(lines)
    ensures var s := Joined(lines, CRLF) + BLANK_LINE + rest; s != "" && s[0] == lines[0][0] && s[0] != '\r'
  {
    assert lines[0][0] !in CRLF && '\r' in CRLF;
  }

  lemma NoBlankLineIn(line: string, tail: string, j: nat)
    requires Apart(line, CRLF) && tail != "" && tail[0] != '\r'
    requires j < |line| + 2
    ensures !At(line + CRLF + tail, BLANK_LINE, j)
  {
    hide At;
    var s := line + CRLF + tail;
    if j < |line| {
      assert s[j] == line[j] && '\r' in CRLF;
      NotAtOffset(s, BLANK_LINE, j, 0);
    } else if j == |line| {
      assert s[j + 2] == tail[0];
      NotAtOffset(s, BLANK_LINE, j, 2);
    } else {
      assert s[j] == '\n';
      NotAtOffset(s, BLANK_LINE, j, 0);
    }
  }

  lemma BlankLineLater(line: string, tail: string, n: nat)
    requires Apart(line, CRLF) && tail != "" && tail[0] != '\r'
    requires Find(tail, BLANK_LINE, 0) == Some(n)
    ensures Find(line + CRLF + tail, BLANK_LINE, 0) == Some(|line| + 2 + n)
  {
    hide At, Find, Apart;
    var s := line + CRLF + tail;
    var k := |line| + 2;
    assert s[k..] == tail;
    FindLeast(tail, BLANK_LINE, 0);
    forall j: nat | j < k + n
      ensures !At(s, BLANK_LINE, j)
    {
      if j < k {
        NoBlankLineIn(line, tail, j);
      } else {
        AtShift(s, BLANK_LINE, k, j - k);
      }
    }
    AtShift(s, BLANK_LINE, k, n);
    FindIs(s, BLANK_LINE, 0, k + n);
  }

  /** The header callback on a separable head: exactly its lines, and what stands behind it left over. */
  lemma HeadersFire(env: Env, lines: seq<string>, rest: string)
    requires Separable(lines)
    ensures var s := Joined(lines, CRLF) + BLANK_LINE + rest;
            && Holds(WaitsFor(Headers), s)
            && Fire(env, Headers, s) == AfterHeaders(Joined(lines, CRLF))
            && s[Taken(Headers, s)..] == rest
            && Cut(Joined(lines, CRLF), CRLF, 0, -1) == lines
  {
    hide AfterHeaders, Cut, Find, At;
    var head := Joined(lines, CRLF);
    HeadEnds(lines, rest);
    assert (head + BLANK_LINE + rest)[..|head|] == head;
    assert (head + BLANK_LINE + rest)[|head| + 4..] == rest;
    SplitInvertsJoin(lines, CRLF);
  }

  // ------------------------------------------------------------ header lines

  function Trimmed(value: string): string {
    value[BlanksEnd(value, 0)..]
  }

  /** A name that its colon ends and that C strings carry whole. */
  predicate HeaderName(name: string) {
    name != "" && Apart(name, ":") && Apart(name, "\0")
  }

  lemma CanonName(name: string)
    requires HeaderName(name)
    ensures Canon(name) == Lowercased(name)
  {
    NotFoundApart(name, "\0");
  }

  lemma {:induction false} BlanksShift(line: string, k: nat, from: nat)
    requires k + from <= |line|
    ensures BlanksEnd(line, k + from) == k + BlanksEnd(line[k..], from)
    decreases |line| - from
  {
    if k + from < |line| && IsSpace(line[k + from]) {
      BlanksShift(line, k, from + 1);
    }
  }

  lemma ColonAt(name: string, value: string)
    requires HeaderName(name)
    ensures Find(name + ": " + value, ":", 0) == Some(|name|)
  {
    assert name + ": " + value == name + ":" + (" " + value);
    FindAfterApart(name, ":", " " + value);
  }

  lemma BlankSkipped(line: string, from: nat)
    requires from < |line| && line[from] == ' '
    ensures BlanksEnd(line, from) == BlanksEnd(line, from + 1)
  {
  }

  lemma ValueOf(name: string, value: string)
    ensures var line := name + ": " + value;
            line[BlanksEnd(line, |name| + 1)..] == value[BlanksEnd(value, 0)..]
  {
    var line := name + ": " + value;
    var k := |name| + 2;
    assert line[k - 1] == ' ';
    BlankSkipped(line, k - 1);
    hide BlanksEnd, IsSpace;
    assert line[k..] == value;
    BlanksShift(line, k, 0);
  }

  lemma NamedLine(parsed: map<string, string>, name: string, value: string)
    requires HeaderName(name)
    ensures WithHeaderLine(parsed, Header(name, value))
         == parsed[Lowercased(name) := Trimmed(value)]
  {
    CanonName(name);
    ColonAt(name, value);
    hide Find, At, BlanksEnd, Canon, Lowercased, HeaderName;
    var line := name + ": " + value;
    ValueOf(name, value);
    assert line[..|name|] == name;
  }

  lemma Names()
    ensures HeaderName(CONTENT_LENGTH) && HeaderName(CONTENT_TYPE) && HeaderName(ALLOW_ORIGIN)
    ensures |CONTENT_LENGTH| == 14 && |CONTENT_TYPE| == 12 && |CONTENT_ENCODING| == 16 && |ALLOW_ORIGIN| == 27
    ensures Trimmed(APPLICATION_JSON) == APPLICATION_JSON
  {
  }

  lemma DigitsNotBlank(n: nat)
    ensures Trimmed(ToString(n)) == ToString(n)
  {
    ReadBack(n);
    var v := ToString(n);
    assert DigitValue(v[0]) < 10;
  }

  lemma HeaderMapSnoc(lines: seq<string>, line: string)
    ensures HeaderMap(lines + [line]) == WithHeaderLine(HeaderMap(lines), line)
  {
    assert (lines + [line])[..|lines|] == lines;
  }

  lemma TwoHeaders(name: string, value: string, name': string, value': string)
    requires HeaderName(name) && HeaderName(name')
    ensures HeaderMap([Header(name, value), Header(name', value')])
         == map[Lowercased(name) := Trimmed(value)][Lowercased(name') := Trimmed(value')]
  {
    hide WithHeaderLine, Lowercased, HeaderName, Header, Trimmed;
    var a, b := Header(name, value), Header(name', value');
    HeaderMapSnoc([], a);
    HeaderMapSnoc([a], b);
    assert [] + [a] == [a] && [a] + [b] == [a, b];
    NamedLine(map[], name, value);
    NamedLine(map[Lowercased(name) := Trimmed(value)], name', value');
  }

  lemma ThreeHeaders(name: string, value: string, name': string, value': string, name'': string, value'': string)
    requires HeaderName(name) && HeaderName(name') && HeaderName(name'')
    ensures HeaderMap([Header(name, value), Header(name', value'), Header(name'', value'')])
         == map[Lowercased(name) := Trimmed(value)][Lowercased(name') := Trimmed(value')]
               [Lowercased(name'') := Trimmed(value'')]
  {
    hide WithHeaderLine, Lowercased, HeaderName, Header, Trimmed, HeaderMap;
    var a, b, c := Header(name, value), Header(name', value'), Header(name'', value'');
    TwoHeaders(name, value, name', value');
    HeaderMapSnoc([a, b], c);
    assert [a, b] + [c] == [a, b, c];
    NamedLine(HeaderMap([a, b]), name'', value'');
  }

  /** What the receiver looks up in the header map of a printed message. */
  predicate Announces(h: map<string, string>, length: string, contentType: string) {
    && Lowercased(CONTENT_ENCODING) !in h
    && Lowercased(CONTENT_LENGTH) in h && h[Lowercased(CONTENT_LENGTH)] == length
    && Lowercased(CONTENT_TYPE) in h && h[Lowercased(CONTENT_TYPE)] == contentType
  }

  lemma RequestHeaders(n: string, contentType: string)
    requires Trimmed(n) == n
    ensures Announces(HeaderMap([Header(CONTENT_LENGTH, n), Header(CONTENT_TYPE, contentType)]),
                      n, Trimmed(contentType))
  {
    hide HeaderMap, Header, HeaderName, Lowercased, Trimmed;
    hide CONTENT_LENGTH, CONTENT_TYPE, CONTENT_ENCODING, ALLOW_ORIGIN, APPLICATION_JSON;
    Names();
    TwoHeaders(CONTENT_LENGTH, n, CONTENT_TYPE, contentType);
  }

  lemma OkHeaders(n: string, any: string)
    requires Trimmed(n) == n
    ensures Announces(HeaderMap([Header(CONTENT_LENGTH, n), JSON, Header(ALLOW_ORIGIN, any)]), n, APPLICATION_JSON)
  {
    hide HeaderMap, Header, HeaderName, Lowercased, Trimmed;
    hide CONTENT_LENGTH, CONTENT_TYPE, CONTENT_ENCODING, ALLOW_ORIGIN, APPLICATION_JSON;
    Names();
    ThreeHeaders(CONTENT_LENGTH, n, CONTENT_TYPE, APPLICATION_JSON, ALLOW_ORIGIN, any);
  }

  lemma ErrorHeaders(n: string, any: string)
    requires Trimmed(n) == n
    ensures Announces(HeaderMap([Header(CONTENT_LENGTH, n), Header(ALLOW_ORIGIN, any), JSON]), n, APPLICATION_JSON)
  {
    hide HeaderMap, Header, HeaderName, Lowercased, Trimmed;
    hide CONTENT_LENGTH, CONTENT_TYPE, CONTENT_ENCODING, ALLOW_ORIGIN, APPLICATION_JSON;
    Names();
    ThreeHeaders(CONTENT_LENGTH, n, ALLOW_ORIGIN, any, CONTENT_TYPE, APPLICATION_JSON);
  }

  lemma PrintedHeaders(m: Message)
    ensures Announces(HeaderMap(m.HeaderLines()), ToString(|m.body|),
                      if m.Request? then Trimmed(m.contentType) else APPLICATION_JSON)
  {
    hide HeaderMap, ToString, Trimmed, Header, Announces;
    hide CONTENT_LENGTH, CONTENT_TYPE, ALLOW_ORIGIN, APPLICATION_JSON;
    var n := ToString(|m.body|);
    DigitsNotBlank(|m.body|);
    match m
    case Request(_, contentType, _) => RequestHeaders(n, contentType);
    case OkResponse(_) => OkHeaders(n, "*");
    case ErrorResponse(_, _) => ErrorHeaders(n, "*");
  }

  // --------------------------------------------------------------- first line

  lemma RequestLineParts(resource: string)
    ensures "POST " + resource + " HTTP/1.1" == "POST" + " " + (resource + " " + "HTTP/1.1")
    ensures Apart("POST", " ")
  {
    assert "POST " == "POST" + " " && " HTTP/1.1" == " " + "HTTP/1.1";
  }

  lemma Verb()
    ensures Lowercased("POST") == "post"
  {
    var r := Lowercased("POST");
    assert r[0] == 'p' && r[1] == 'o' && r[2] == 's' && r[3] == 't';
  }

  lemma RequestLine(reply: Reply, resource: string)
    requires Apart(resource, " ")
    ensures WithFirstLine(reply, "POST " + resource + " HTTP/1.1")
         == Some(reply.(verb := "post", resource := resource))
  {
    hide Cut, Lowercased, Apart, Stoi;
    Verb();
    RequestLineParts(resource);
    CutFirst("POST", " ", resource + " " + "HTTP/1.1");
    CutFirst(resource, " ", "HTTP/1.1");
  }

  /** The second word of a request line is the resource exactly when the resource holds no space. */
  lemma SecondWord(resource: string)
    ensures var words := Cut(resource + " HTTP/1.1", " ", 0, -1);
            words != [] && (words[0] == resource <==> Apart(resource, " "))
  {
    var t := resource + " HTTP/1.1";
    assert At(t, " ", |resource|);
    FindLeast(t, " ", 0);
    var i := Find(t, " ", 0).value;
    assert t[i + 0] == " "[0];
    if i < |resource| {
      assert resource[i] == ' ';
    } else {
      forall j | 0 <= j < |resource|
        ensures resource[j] != ' '
      {
        assert !At(t, " ", j);
        assert t[j] == resource[j];
      }
    }
    hide Find, At;
    assert t[0..i] == resource <==> i == |resource|;
  }

  lemma ResourceExactly(reply: Reply, resource: string)
    ensures var r := WithFirstLine(reply, "POST " + resource + " HTTP/1.1");
            r.Some? && r.value.verb == "post" && (r.value.resource == resource <==> Apart(resource, " "))
  {
    hide Cut, Lowercased, Apart, Stoi;
    Verb();
    RequestLineParts(resource);
    var t := resource + " HTTP/1.1";
    assert "POST " + resource + " HTTP/1.1" == "POST" + " " + t;
    CutFirst("POST", " ", t);
    SecondWord(resource);
  }

  lemma StatusLine(reply: Reply, code: string, reason: string)
    requires Apart(code, " ")
    ensures WithFirstLine(reply, "HTTP/1.1 " + (code + " " + reason))
         == match Stoi(code) case None => None case Some(n) => Some(reply.(status := n))
  {
    var line := "HTTP/1.1 " + (code + " " + reason);
    assert Apart("HTTP/1.1", " ");
    assert StartsWith(Lowercased("HTTP/1.1"), "http/");
    assert line == "HTTP/1.1" + " " + (code + " " + reason);
    hide Cut, Lowercased, Apart, Stoi;
    CutFirst("HTTP/1.1", " ", code + " " + reason);
    CutFirst(code, " ", reason);
  }

  lemma ThreeDigits(n: nat)
    requires 100 <= n < 1000
    ensures ToString(n) == [DigitChar(n / 100), DigitChar(n / 10 % 10), DigitChar(n % 10)]
  {
    assert ToString(n / 10) == ToString(n / 10 / 10) + [DigitChar(n / 10 % 10)];
  }

  lemma CodeInRange(code: int)
    ensures 100 <= ErrorResponse(code, "").Status() < 1000
  {
  }

  lemma CodeDigits(code: int)
    ensures var (c, t) := (ErrorResponse(code, "").Status(), HttpCodeToString(code));
            |t| >= 4 && t[3] == ' ' && t[0] == DigitChar(c / 100) && t[1] == DigitChar(c / 10 % 10)
            && t[2] == DigitChar(c % 10)
  {
  }

  lemma CodeText(code: int)
    ensures var (c, t) := (ErrorResponse(code, "").Status(), HttpCodeToString(code));
            |t| >= 4 && t == ToString(c) + " " + t[4..]
  {
    hide HttpCodeToString, ToString, Message.Status;
    var c, t := ErrorResponse(code, "").Status(), HttpCodeToString(code);
    CodeInRange(code);
    CodeDigits(code);
    ThreeDigits(c);
    assert t[..3] == ToString(c);
    assert t == t[..3] + [t[3]] + t[4..];
  }

  // ---------------------------------------------------------------- one message

  lemma ApartConcat(a: string, b: string, d: string)
    requires Apart(a, d) && Apart(b, d)
    ensures Apart(a + b, d)
  {
  }

  lemma FixedTextsApart()
    ensures Apart("POST ", CRLF) && Apart(" HTTP/1.1", CRLF)
    ensures Apart("HTTP/1.1 ", CRLF) && Apart("HTTP/1.1 200 OK", CRLF)
  {
  }

  lemma FixedHeadersApart()
    ensures Apart(CONTENT_LENGTH, CRLF) && Apart(CONTENT_TYPE, CRLF) && Apart(ALLOW_ORIGIN, CRLF)
    ensures Apart(APPLICATION_JSON, CRLF) && Apart(": ", CRLF) && Apart("*", CRLF)
  {
  }

  lemma FourHundredsApart(code: int)
    requires code in {400, 403, 404}
    ensures Apart(HttpCodeToString(code), CRLF)
  {
  }

  lemma BusyCodesApart(code: int)
    requires code in {409, 503}
    ensures Apart(HttpCodeToString(code), CRLF)
  {
  }

  lemma LongCodesApart(code: int)
    requires code in {429, 500}
    ensures Apart(HttpCodeToString(code), CRLF)
  {
  }

  lemma CodesApart(code: int)
    ensures Apart(HttpCodeToString(code), CRLF)
  {
    if code in {400, 403, 404} {
      FourHundredsApart(code);
    } else if code in {409, 503} {
      BusyCodesApart(code);
    } else if code in {429, 500} {
      LongCodesApart(code);
    } else {
      assert HttpCodeToString(code) == "200 OK";
      hide HttpCodeToString;
    }
  }

  lemma HeaderApart(name: string, value: string)
    requires Apart(name, CRLF) && Apart(value, CRLF)
    ensures Apart(Header(name, value), CRLF) && Header(name, value) != ""
  {
    FixedHeadersApart();
    hide Apart;
    ApartConcat(name, ": ", CRLF);
    ApartConcat(name + ": ", value, CRLF);
  }

  lemma FirstLineApart(m: Message)
    requires m.Printable()
    ensures Apart(m.FirstLine(), CRLF) && m.FirstLine() != ""
  {
    assert m.Request? ==> Apart(m.resource, CRLF) by {
      if m.Request? {
        forall i | 0 <= i < |m.resource| ensures m.resource[i] !in CRLF {
          assert '\r' in " \r\n" && '\n' in " \r\n";
        }
      }
    }
    hide Apart, HttpCodeToString;
    FixedTextsApart();
    match m
    case Request(resource, _, _) =>
      ApartConcat("POST ", resource, CRLF);
      ApartConcat("POST " + resource, " HTTP/1.1", CRLF);
    case OkResponse(_) =>
    case ErrorResponse(code, _) =>
      CodesApart(code);
      ApartConcat("HTTP/1.1 ", HttpCodeToString(code), CRLF);
  }

  lemma PrintedSeparable(m: Message)
    requires m.Printable()
    ensures Separable(m.Lines())
  {
    FirstLineApart(m);
    ReadBack(|m.body|);
    FixedHeadersApart();
    hide Apart, ToString, Header, CONTENT_LENGTH, CONTENT_TYPE, ALLOW_ORIGIN, APPLICATION_JSON;
    HeaderApart(CONTENT_LENGTH, ToString(|m.body|));
    HeaderApart(CONTENT_TYPE, APPLICATION_JSON);
    HeaderApart(ALLOW_ORIGIN, "*");
    if m.Request? {
      HeaderApart(CONTENT_TYPE, m.contentType);
    }
  }

  lemma OkLine()
    ensures "HTTP/1.1 200 OK" == "HTTP/1.1 " + HttpCodeToString(200)
  {
    assert "HTTP/1.1 200 OK" == "HTTP/1.1 " + "200 OK";
  }

  lemma NoSpace(resource: string)
    requires Apart(resource, " \r\n")
    ensures Apart(resource, " ")
  {
    assert ' ' in " \r\n";
  }

  lemma PrintedFirstLine(m: Message, reply: Reply)
    requires m.Printable()
    ensures WithFirstLine(reply, m.FirstLine())
         == if m.Request? then Some(reply.(verb := "post", resource := m.resource))
            else Some(reply.(status := m.Status()))
  {
    hide WithFirstLine, HttpCodeToString, Apart;
    match m
    case Request(resource, _, _) =>
      NoSpace(resource);
      RequestLine(reply, resource);
    case OkResponse(_) =>
      OkLine();
      StatusRead(reply, 200);
    case ErrorResponse(code, _) =>
      StatusRead(reply, code);
  }

  lemma StatusRead(reply: Reply, code: int)
    ensures WithFirstLine(reply, "HTTP/1.1 " + HttpCodeToString(code))
         == Some(reply.(status := ErrorResponse(code, "").Status()))
  {
    hide WithFirstLine, HttpCodeToString, ToString, Stoi;
    var c, t := ErrorResponse(code, "").Status(), HttpCodeToString(code);
    CodeText(code);
    StoiReadsToString(c);
    ReadBack(c);
    StatusLine(reply, ToString(c), t[4..]);
  }

  lemma NamesCanon()
    ensures Canon(CONTENT_LENGTH) == Lowercased(CONTENT_LENGTH)
    ensures Canon(CONTENT_TYPE) == Lowercased(CONTENT_TYPE)
    ensures Canon(CONTENT_ENCODING) == Lowercased(CONTENT_ENCODING)
  {
    Names();
    assert HeaderName(CONTENT_ENCODING);
    hide Canon, Lowercased, HeaderName;
    CanonName(CONTENT_LENGTH);
    CanonName(CONTENT_TYPE);
    CanonName(CONTENT_ENCODING);
  }

  /** Behind the header block: the announced length, then exactly that many bytes. */
  lemma BodyRead(env: Env, reply: Reply, contentType: string, body: string, rest: string)
    requires |body| < TWO_64
    requires Announces(reply.parsed, ToString(|body|), contentType)
    ensures AfterHeaderLines(reply) == Wait(Body(reply, |body|))
    ensures Run(env, Body(reply, |body|), body + rest) == (Outcome(Success, reply.(body := body)), rest)
    ensures reply.GetHeader(CONTENT_TYPE) == contentType
  {
    hide Canon, Lowercased, ToString, Stoul, Find, At;
    hide CONTENT_LENGTH, CONTENT_TYPE, CONTENT_ENCODING;
    NamesCanon();
    StoulReadsToString(|body|);
    var s := body + rest;
    assert s[..|body|] == body && s[|body|..] == rest;
  }

  /** The reply that a printed message becomes once its headers are read. */
  function HeadReply(m: Message): Reply {
    NO_REPLY.(
      headers := Joined(m.Lines(), CRLF),
      status := m.Status(),
      verb := if m.Request? then "post" else "",
      resource := if m.Request? then m.resource else "",
      parsed := HeaderMap(m.HeaderLines()))
  }

  lemma PrintedHead(m: Message)
    requires m.Printable()
    ensures Cut(Joined(m.Lines(), CRLF), CRLF, 0, -1) == m.Lines()
    ensures AfterHeaders(Joined(m.Lines(), CRLF)) == AfterHeaderLines(HeadReply(m))
  {
    hide AfterHeaderLines, HeaderMap, WithFirstLine, Joined, Cut, Apart, Separable;
    PrintedSeparable(m);
    HeadersFire(Env(_ => None, 0), m.Lines(), "");
    PrintedFirstLine(m, NO_REPLY.(headers := Joined(m.Lines(), CRLF)));
    assert m.Lines()[0] == m.FirstLine() && m.Lines()[1..] == m.HeaderLines();
  }

  /** A printed message is read back whole, and the bytes behind it are left for the next call. */
  lemma MessageRoundTrip(env: Env, m: Message, rest: string)
    requires m.Printable()
    ensures var (o, left) := Run(env, Headers, m.Text() + rest);
            m.ReadAs(o) && left == rest
  {
    hide AfterHeaders, AfterHeaderLines, HeaderMap, ToString, Joined, Cut, Find, At, Apart, Separable, BlanksEnd;
    hide Announces, CONTENT_TYPE, APPLICATION_JSON;
    PrintedSeparable(m);
    Regroup3(Joined(m.Lines(), CRLF), BLANK_LINE, m.body, rest);
    HeadersFire(env, m.Lines(), m.body + rest);
    PrintedHead(m);
    PrintedHeaders(m);
    BodyRead(env, HeadReply(m), if m.Request? then Trimmed(m.contentType) else APPLICATION_JSON, m.body, rest);
  }

  lemma Regroup3(a: string, b: string, c: string, d: string)
    ensures a + b + c + d == a + b + (c + d)
  {
  }

  // ----------------------------------------------------------- n messages

  function Texts(ms: seq<Message>): seq<string> {
    seq(|ms|, i requires 0 <= i < |ms| => ms[i].Text())
  }

  /** Pipelining: n printed messages one behind the other are n outcomes in the same order. */
  lemma {:induction false} PipelinedRoundTrip(env: Env, ms: seq<Message>, rest: string)
    requires forall i :: 0 <= i < |ms| ==> ms[i].Printable()
    ensures var (os, left) := RunMany(env, |ms|, Flatten(Texts(ms)) + rest);
            && |os| == |ms| && left == rest
            && forall i :: 0 <= i < |ms| ==> ms[i].ReadAs(os[i])
  {
    hide Run, Message.Text, Message.ReadAs, Message.Printable;
    if ms == [] {
      assert Flatten(Texts(ms)) + rest == rest;
    } else {
      var behind := Flatten(Texts(ms[1..]));
      assert Texts(ms)[1..] == Texts(ms[1..]);
      assert Flatten(Texts(ms)) + rest == ms[0].Text() + (behind + rest);
      MessageRoundTrip(env, ms[0], behind + rest);
      PipelinedRoundTrip(env, ms[1..], rest);
      var (os, left) := RunMany(env, |ms[1..]|, behind + rest);
      forall i | 0 < i < |ms|
        ensures ms[i].ReadAs(os[i - 1])
      {
        assert ms[1..][i - 1] == ms[i];
      }
    }
  }

  /** The same over any segmentation of the bytes, with nothing left over. */
  lemma PipelinedOverSegments(env: Env, ms: seq<Message>, net: seq<string>)
    requires forall i :: 0 <= i < |ms| ==> ms[i].Printable()
    requires Flatten(net) == Flatten(Texts(ms))
    ensures var (os, b, g) := StreamMany(env, |ms|, "", net);
            && |os| == |ms| && b == "" && Flatten(g) == ""
            && forall i :: 0 <= i < |ms| ==> ms[i].ReadAs(os[i])
  {
    StreamManyRefinesRunMany(env, |ms|, "", net);
    PipelinedRoundTrip(env, ms, "");
    assert "" + Flatten(net) == Flatten(Texts(ms)) + "";
  }

  // ------------------------------------------------------------------ chunks

  /** A hexadecimal spelling of the number. */
  predicate Sizes(size: string, n: nat) {
    size != "" && Spells(size, n, 16)
  }

  /** One chunk of section 4.1 of RFC 7230, without extensions: any hexadecimal text of its size. */
  datatype Piece = Piece(size: string, data: string) {
    predicate Valid() {
      data != "" && |data| < TWO_64 - 2 && Sizes(size, |data|)
    }
  }

  /** The chunks, the last chunk and the empty trailer. */
  function Encoded(pieces: seq<Piece>, last: string): string {
    if pieces == [] then last + CRLF + CRLF
    else pieces[0].size + CRLF + pieces[0].data + CRLF + Encoded(pieces[1..], last)
  }

  function Data(pieces: seq<Piece>): string {
    if pieces == [] then "" else pieces[0].data + Data(pieces[1..])
  }

  lemma SizeApart(size: string, n: nat)
    requires Sizes(size, n)
    ensures Apart(size, CRLF)
  {
    SpelledValue(size, n, 16);
    forall i | 0 <= i < |size|
      ensures size[i] !in CRLF
    {
      assert DigitValue(size[i]) < 16;
    }
  }

  lemma SizeCut(size: string, crlf: string, behind: string)
    ensures var s := size + crlf + behind; s[..|size|] == size && s[|size| + |crlf|..] == behind
  {
  }

  lemma SizeLine(env: Env, reply: Reply, size: string, n: nat, behind: string)
    requires Sizes(size, n) && n < TWO_64
    ensures Run(env, ChunkSize(reply), size + CRLF + behind) == Run(env, Chunk(reply, n), behind)
  {
    SizeApart(size, n);
    StoulReadsHex(size, n);
    FindAfterApart(size, CRLF, behind);
    hide Find, At, Apart, Sizes, Spells, Stoul, Run;
    var s := size + CRLF + behind;
    SizeCut(size, CRLF, behind);
    assert Taken(ChunkSize(reply), s) == |size| + 2;
    hide CRLF;
    assert Fire(env, ChunkSize(reply), s) == Wait(Chunk(reply, n));
    RunStep(env, ChunkSize(reply), s);
  }

  lemma DataRead(env: Env, reply: Reply, data: string, tail: string)
    requires |data| < TWO_64 - 2
    ensures Run(env, Chunk(reply, |data|), data + CRLF + tail)
         == if data == "" then (Finished(env, reply), tail)
            else Run(env, ChunkSize(reply.(body := reply.body + data)), tail)
  {
    hide Find, At, Finished;
    var s := data + CRLF + tail;
    var q := Chunk(reply, |data|);
    assert Taken(q, s) == |data| + 2;
    assert s[..|data| + 2] == data + CRLF && s[|data| + 2..] == tail;
    assert (data + CRLF)[..|data|] == data;
    assert reply.body + "" == reply.body;
    assert Fire(env, q, s) == AfterChunk(env, reply, |data|, data + CRLF);
  }

  /** One round of the chunk loop: its size line, its data and the CRLF behind the data. */
  lemma ChunkRound(env: Env, reply: Reply, size: string, data: string, tail: string)
    requires Sizes(size, |data|) && |data| < TWO_64 - 2
    ensures Run(env, ChunkSize(reply), size + CRLF + data + CRLF + tail)
         == if data == "" then (Finished(env, reply), tail)
            else Run(env, ChunkSize(reply.(body := reply.body + data)), tail)
  {
    hide Run, Sizes, Finished;
    var behind := data + CRLF + tail;
    assert size + CRLF + data + CRLF + tail == size + CRLF + behind;
    SizeLine(env, reply, size, |data|, behind);
    DataRead(env, reply, data, tail);
  }

  /** Decoding inverts encoding, for every list of chunks and every hexadecimal spelling of their sizes. */
  lemma {:induction false} ChunkedRoundTrip(env: Env, reply: Reply, pieces: seq<Piece>, last: string, rest: string)
    requires forall i :: 0 <= i < |pieces| ==> pieces[i].Valid()
    requires Sizes(last, 0)
    ensures Run(env, ChunkSize(reply), Encoded(pieces, last) + rest)
         == (Finished(env, reply.(body := reply.body + Data(pieces))), rest)
    decreases |pieces|
  {
    hide Run, Sizes, Finished;
    if pieces == [] {
      ChunkRound(env, reply, last, "", rest);
      assert last + CRLF + "" + CRLF + rest == Encoded(pieces, last) + rest;
      assert reply.body + "" == reply.body;
    } else {
      var p := pieces[0];
      var tail := Encoded(pieces[1..], last);
      assert p.Valid();
      ChunkRound(env, reply, p.size, p.data, tail + rest);
      assert p.size + CRLF + p.data + CRLF + (tail + rest) == Encoded(pieces, last) + rest;
      ChunkedRoundTrip(env, reply.(body := reply.body + p.data), pieces[1..], last, rest);
      assert reply.body + p.data + Data(pieces[1..]) == reply.body + Data(pieces);
    }
  }

  /** A whole chunked message: any head that announces chunks and no length. */
  lemma ChunkedMessageRoundTrip(env: Env, lines: seq<string>, first: Reply, pieces: seq<Piece>, last: string,
                                rest: string)
    requires Separable(lines)
    requires WithFirstLine(NO_REPLY.(headers := Joined(lines, CRLF)), lines[0]) == Some(first)
    requires var h := first.(parsed := HeaderMap(lines[1..]));
             !h.HasHeader("Content-Length") && h.GetHeader("Transfer-Encoding") == "chunked"
    requires forall i :: 0 <= i < |pieces| ==> pieces[i].Valid()
    requires Sizes(last, 0)
    ensures Run(env, Headers, Joined(lines, CRLF) + BLANK_LINE + Encoded(pieces, last) + rest)
         == (Finished(env, first.(parsed := HeaderMap(lines[1..]), body := Data(pieces))), rest)
  {
    BodyStartsEmpty(NO_REPLY.(headers := Joined(lines, CRLF)), lines[0]);
    hide HeaderMap, WithFirstLine, Joined, Cut, Find, At, Canon, Finished, Sizes, Apart;
    var head := Joined(lines, CRLF);
    Regroup3(head, BLANK_LINE, Encoded(pieces, last), rest);
    HeadersFire(env, lines, Encoded(pieces, last) + rest);
    var reply := first.(parsed := HeaderMap(lines[1..]));
    assert AfterHeaders(head) == Wait(ChunkSize(reply));
    ChunkedRoundTrip(env, reply, pieces, last, rest);
    assert "" + Data(pieces) == Data(pieces);
  }

  /** A head that announces both a length and chunks is read by its length: the chunks are not decoded. */
  lemma LengthBeforeChunks(env: Env, lines: seq<string>, first: Reply, body: string, rest: string)
    requires Separable(lines) && |body| < TWO_64
    requires WithFirstLine(NO_REPLY.(headers := Joined(lines, CRLF)), lines[0]) == Some(first)
    requires var h := first.(parsed := HeaderMap(lines[1..]));
             && h.HasHeader("Content-Length") && h.GetHeader("Content-Length") == ToString(|body|)
             && h.GetHeader("Transfer-Encoding") == "chunked"
    ensures Run(env, Headers, Joined(lines, CRLF) + BLANK_LINE + body + rest)
         == (Finished(env, first.(parsed := HeaderMap(lines[1..]), body := body)), rest)
  {
    hide HeaderMap, WithFirstLine, Joined, Cut, Find, At, Canon, Finished, Apart, ToString, Stoul;
    var head := Joined(lines, CRLF);
    Regroup3(head, BLANK_LINE, body, rest);
    HeadersFire(env, lines, body + rest);
    StoulReadsToString(|body|);
    var reply := first.(parsed := HeaderMap(lines[1..]));
    assert AfterHeaders(head) == Wait(Body(reply, |body|));
    assert (body + rest)[..|body|] == body && (body + rest)[|body|..] == rest;
    assert Run(env, Body(reply, |body|), body + rest) == (Finished(env, reply.(body := body)), rest);
  }

  lemma BodyStartsEmpty(reply: Reply, line: string)
    requires WithFirstLine(reply, line).Some?
    ensures WithFirstLine(reply, line).value.body == reply.body
  {
    hide Cut, Lowercased, Stoi;
  }
}
