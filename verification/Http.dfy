// HTTP framing of net/client.cpp: what one asyncResponse request makes of the bytes of a connection.
//
// A request waits in phases. Each phase is one pending asyncRead; when its condition holds of the
// buffer its callback fires, takes a prefix, and either waits again or invokes the user's handler.
module Http {
  import opened Wrappers
  import opened Text
  import opened Numbers

  const CRLF := "\r\n"
  const BLANK_LINE := "\r\n\r\n"
  const CONTENT_LENGTH := "Content-Length"
  const CONTENT_TYPE := "Content-Type"
  const CONTENT_ENCODING := "Content-Encoding"
  const TRANSFER_ENCODING := "Transfer-Encoding"
  const ALLOW_ORIGIN := "Access-Control-Allow-Origin"

  datatype ErrorCode = Success | ProtocolError | StreamError(code: int)

  /** HttpReply. Header names are kept in the form under which strcasecmp tells them apart. */
  datatype Reply = Reply(status: int, headers: string, body: string, verb: string, resource: string,
                         parsed: map<string, string>)
  {
    predicate HasHeader(name: string) {
      Canon(name) in parsed
    }

    function GetHeader(name: string): string {
      if HasHeader(name) then parsed[Canon(name)] else ""
    }
  }

  const NO_REPLY := Reply(0, "", "", "", "", map[])

  /** What reaches the handler. */
  datatype Outcome = Outcome(error: ErrorCode, reply: Reply)

  /** The world around the parser: zlib, and how the byte stream ends. */
  datatype Env = Env(inflate: string -> Option<string>, streamEnd: int)

  // ----------------------------------------------------------------- headers

  /** A C string ends at its first NUL. */
  function CString(s: string): string {
    match Find(s, "\0", 0)
    case None => s
    case Some(i) => s[..i]
  }

  function Canon(name: string): string {
    Lowercased(CString(name))
  }

  function WithHeaderLine(parsed: map<string, string>, line: string): map<string, string> {
    match Find(line, ":", 0)
    case None => parsed
    case Some(pos) => if pos == 0 then parsed else parsed[Canon(line[..pos]) := line[BlanksEnd(line, pos + 1)..]]
  }

  function HeaderMap(lines: seq<string>): map<string, string> {
    if lines == [] then map[]
    else WithHeaderLine(HeaderMap(lines[..|lines| - 1]), lines[|lines| - 1])
  }

  // ------------------------------------------------------------------ phases

  datatype Phase =
    | Headers
    | Body(reply: Reply, length: nat)
    | ChunkSize(reply: Reply)
    | Chunk(reply: Reply, size: nat)

  datatype Condition = Contains(delimiter: string) | AtLeast(bytes: nat)

  predicate Holds(c: Condition, buf: string) {
    match c
    case Contains(d) => Find(buf, d, 0).Some?
    case AtLeast(n) => |buf| >= n
  }

  /** size_t arithmetic: chunk_size + 2 wraps around. */
  function WithCrlf(size: nat): nat {
    (size + 2) % TWO_64
  }

  function WaitsFor(p: Phase): Condition {
    match p
    case Headers => Contains(BLANK_LINE)
    case Body(_, n) => AtLeast(n)
    case ChunkSize(_) => Contains(CRLF)
    case Chunk(_, n) => AtLeast(WithCrlf(n))
  }

  datatype Next = Wait(phase: Phase) | Deliver(outcome: Outcome)

  function Refuse(reply: Reply): Next {
    Deliver(Outcome(ProtocolError, reply))
  }

  /** processReply. */
  function Finished(env: Env, reply: Reply): Outcome {
    var coding := Find(reply.GetHeader(CONTENT_ENCODING), "gzip", 0);
    if !reply.HasHeader(CONTENT_ENCODING) || coding.None? || reply.body == "" then Outcome(Success, reply)
    else
      match env.inflate(reply.body)
      case None => Outcome(ProtocolError, reply)
      case Some(plain) => Outcome(Success, reply.(body := plain))
  }

  /** The first line: a status line when it opens with HTTP/, else a request line. None refuses the message. */
  function WithFirstLine(reply: Reply, line: string): Option<Reply> {
    var params := Cut(line, " ", 0, -1);
    if line == "" || |params| < 2 then None
    else
      var lc := Lowercased(params[0]);
      if StartsWith(lc, "http/") then
        match Stoi(params[1])
        case None => None
        case Some(code) => Some(reply.(status := code))
      else Some(reply.(verb := lc, resource := params[1]))
  }

  function AfterHeaders(block: string): Next {
    var reply := NO_REPLY.(headers := block);
    var lines := Cut(block, CRLF, 0, -1);
    if lines == [] then Refuse(reply) else
      match WithFirstLine(reply, lines[0])
      case None => Refuse(reply)
      case Some(first) => AfterHeaderLines(first.(parsed := HeaderMap(lines[1..])))
  }

  function AfterHeaderLines(reply: Reply): Next {
    if reply.HasHeader(CONTENT_LENGTH) then
      match Stoul(reply.GetHeader(CONTENT_LENGTH), 10)
      case None => Refuse(reply)
      case Some(number) => Wait(Body(reply, number.0))
    else if reply.GetHeader(TRANSFER_ENCODING) == "chunked" then Wait(ChunkSize(reply))
    else Deliver(Outcome(Success, reply))
  }

  function AfterChunkSize(reply: Reply, text: string): Next {
    match Stoul(text, 16)
    case None => Refuse(reply)
    case Some(number) => if number.1 != |text| then Refuse(reply) else Wait(Chunk(reply, number.0))
  }

  /** data is what read(chunk_size + 2) left in the response buffer. */
  function AfterChunk(env: Env, reply: Reply, size: nat, data: string): Next {
    var grown := reply.(body := reply.body + data[..Min(size, |data|)]);
    if size == 0 then Deliver(Finished(env, grown)) else Wait(ChunkSize(grown))
  }

  /** How many bytes of the buffer the callback of the phase takes. */
  function Taken(p: Phase, buf: string): (n: nat)
    requires Holds(WaitsFor(p), buf)
    ensures n <= |buf|
    ensures p.Headers? ==> n >= 4
    ensures p.ChunkSize? ==> n >= 2
  {
    match p
    case Headers => Find(buf, BLANK_LINE, 0).value + 4
    case Body(_, n) => n
    case ChunkSize(_) => Find(buf, CRLF, 0).value + 2
    case Chunk(_, n) => WithCrlf(n)
  }

  function Fire(env: Env, p: Phase, buf: string): (next: Next)
    requires Holds(WaitsFor(p), buf)
    ensures next.Wait? ==> !p.Body? && (next.phase.Chunk? <==> p.ChunkSize?)
  {
    var n := Taken(p, buf);
    match p
    case Headers => AfterHeaders(buf[..n - 4])
    case Body(reply, _) => Deliver(Finished(env, reply.(body := buf[..n])))
    case ChunkSize(reply) => AfterChunkSize(reply, buf[..n - 2])
    case Chunk(reply, size) => AfterChunk(env, reply, size, buf[..n])
  }

  /** The stream ends before the condition holds; the two handlers that read a line drop the reply. */
  function Broken(env: Env, p: Phase): Outcome {
    Outcome(StreamError(env.streamEnd), if p.Body? || p.Chunk? then p.reply else NO_REPLY)
  }

  // -------------------------------------------------------------- one message

  /** The one-shot parser: all the bytes there will ever be lie in s. */
  function Run(env: Env, p: Phase, s: string): (r: (Outcome, string))
    ensures |r.1| <= |s|
    decreases |s|, p.Chunk?
  {
    if !Holds(WaitsFor(p), s) then (Broken(env, p), s) else
      var rest := s[Taken(p, s)..];
      match Fire(env, p, s)
      case Deliver(o) => (o, rest)
      case Wait(q) => Run(env, q, rest)
  }

  lemma RunStep(env: Env, p: Phase, s: string)
    requires Holds(WaitsFor(p), s)
    ensures Fire(env, p, s).Wait? ==> Run(env, p, s) == Run(env, Fire(env, p, s).phase, s[Taken(p, s)..])
    ensures Fire(env, p, s).Deliver? ==> Run(env, p, s) == (Fire(env, p, s).outcome, s[Taken(p, s)..])
  {
  }

  /** async_read_until: segments arrive until the condition holds or none is left. */
  function Await(c: Condition, buf: string, net: seq<string>): (r: (bool, string, seq<string>))
    ensures r.0 <==> Holds(c, r.1)
    ensures !r.0 ==> r.2 == []
    ensures |r.2| <= |net| && (|r.2| == |net| ==> r.1 == buf)
    decreases |net|
  {
    if Holds(c, buf) then (true, buf, net)
    else if net == [] then (false, buf, net)
    else Await(c, buf + net[0], net[1..])
  }

  /** The streaming parser: buf has arrived, net is still on its way. */
  function Stream(env: Env, p: Phase, buf: string, net: seq<string>): (Outcome, string, seq<string>)
    decreases |net|, |buf|, p.Chunk?, 1
  {
    var (ok, b, g) := Await(WaitsFor(p), buf, net);
    Resume(env, p, ok, b, g)
  }

  /** The callback of a phase and everything it sets going. */
  function Resume(env: Env, p: Phase, ok: bool, buf: string, net: seq<string>): (Outcome, string, seq<string>)
    requires ok ==> Holds(WaitsFor(p), buf)
    decreases |net|, |buf|, p.Chunk?, 0
  {
    if !ok then (Broken(env, p), buf, net) else
      var rest := buf[Taken(p, buf)..];
      match Fire(env, p, buf)
      case Deliver(o) => (o, rest, net)
      case Wait(q) => Stream(env, q, rest, net)
  }

  // ------------------------------------------------------------- n messages

  function RunMany(env: Env, n: nat, s: string): (seq<Outcome>, string) {
    if n == 0 then ([], s) else
      var (o, rest) := Run(env, Headers, s);
      var (os, end) := RunMany(env, n - 1, rest);
      ([o] + os, end)
  }

  function StreamMany(env: Env, n: nat, buf: string, net: seq<string>): (seq<Outcome>, string, seq<string>) {
    if n == 0 then ([], buf, net) else
      var (o, b, g) := Stream(env, Headers, buf, net);
      var (os, b', g') := StreamMany(env, n - 1, b, g);
      ([o] + os, b', g')
  }

  // ------------------------------------- segmentation does not matter

  lemma HoldsMore(c: Condition, s: string, t: string)
    requires Holds(c, s)
    ensures Holds(c, s + t)
  {
    if c.Contains? {
      FindInPrefix(s, t, c.delimiter, 0);
    }
  }

  /** Bytes behind what a callback takes change nothing of what it does. */
  lemma FireSeesPrefix(env: Env, p: Phase, s: string, t: string)
    requires Holds(WaitsFor(p), s)
    ensures Holds(WaitsFor(p), s + t)
    ensures Fire(env, p, s + t) == Fire(env, p, s)
    ensures (s + t)[Taken(p, s + t)..] == s[Taken(p, s)..] + t
  {
    HoldsMore(WaitsFor(p), s, t);
    if WaitsFor(p).Contains? {
      FindInPrefix(s, t, WaitsFor(p).delimiter, 0);
    }
    var n := Taken(p, s);
    assert Taken(p, s + t) == n;
    PrefixOfSum(s, t, n);
    if p.Headers? { PrefixOfSum(s, t, n - 4); }
    if p.ChunkSize? { PrefixOfSum(s, t, n - 2); }
  }

  lemma PrefixOfSum(s: string, t: string, n: nat)
    requires n <= |s|
    ensures (s + t)[..n] == s[..n] && (s + t)[n..] == s[n..] + t
  {
  }

  lemma {:induction false} AwaitKeepsBytes(c: Condition, buf: string, net: seq<string>)
    ensures var (ok, b, g) := Await(c, buf, net); b + Flatten(g) == buf + Flatten(net)
    decreases |net|
  {
    if !Holds(c, buf) && net != [] {
      AwaitKeepsBytes(c, buf + net[0], net[1..]);
      assert buf + net[0] + Flatten(net[1..]) == buf + Flatten(net);
    }
  }

  /** One response request sees the bytes, never the cuts between them. */
  lemma {:induction false} StreamRefinesRun(env: Env, p: Phase, buf: string, net: seq<string>)
    ensures var (o, b, g) := Stream(env, p, buf, net);
            Run(env, p, buf + Flatten(net)) == (o, b + Flatten(g))
    decreases |net|, |buf|, p.Chunk?
  {
    var (ok, b, g) := Await(WaitsFor(p), buf, net);
    AwaitKeepsBytes(WaitsFor(p), buf, net);
    var t := Flatten(g);
    if ok {
      FireSeesPrefix(env, p, b, t);
      var next := Fire(env, p, b);
      if next.Wait? {
        StreamRefinesRun(env, next.phase, b[Taken(p, b)..], g);
      }
    } else {
      assert t == "" && b + t == b;
    }
  }

  lemma {:induction false} StreamManyRefinesRunMany(env: Env, n: nat, buf: string, net: seq<string>)
    ensures var (os, b, g) := StreamMany(env, n, buf, net);
            RunMany(env, n, buf + Flatten(net)) == (os, b + Flatten(g))
  {
    hide Stream, Run;
    if n > 0 {
      StreamRefinesRun(env, Headers, buf, net);
      var (o, b, g) := Stream(env, Headers, buf, net);
      StreamManyRefinesRunMany(env, n - 1, b, g);
    }
  }

  /** However the same bytes are cut, the same outcomes in the same order and the same bytes left over. */
  lemma SegmentationIndependence(env: Env, n: nat, cut: seq<string>, other: seq<string>)
    requires Flatten(cut) == Flatten(other)
    ensures var (os, b, g) := StreamMany(env, n, "", cut);
            var (os', b', g') := StreamMany(env, n, "", other);
            os == os' && b + Flatten(g) == b' + Flatten(g')
  {
    StreamManyRefinesRunMany(env, n, "", cut);
    StreamManyRefinesRunMany(env, n, "", other);
  }
}
