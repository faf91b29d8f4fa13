// The buffer and the callbacks of net/client.cpp as they run, proved against the functions of Http.
module HttpClient {
  import opened Wrappers
  import opened Text
  import opened Numbers
  import opened Http

  /** The read half of BasicTcpClient. `network` holds the segments still on their way. */
  class TcpClient {
    var streambuf: string
    var response: string
    var network: seq<string>
    var blockingReads: nat  // how often read or read_until fell back to a blocking socket read

    constructor (segments: seq<string>)
      ensures streambuf == "" && response == "" && network == segments && blockingReads == 0
    {
      streambuf, response, network, blockingReads := "", "", segments, 0;
    }

    method AsyncRead(condition: Condition) returns (ok: bool)
      modifies this
      ensures (ok, streambuf, network) == Await(condition, old(streambuf), old(network))
      ensures response == old(response) && blockingReads == old(blockingReads)
    {
      ghost var was := Await(condition, streambuf, network);
      while !Holds(condition, streambuf) && network != []
        invariant Await(condition, streambuf, network) == was
        invariant response == old(response) && blockingReads == old(blockingReads)
        decreases |network|
      {
        streambuf, network := streambuf + network[0], network[1..];
      }
      ok := Holds(condition, streambuf);
    }

    method ReadUntil(delimiter: string) returns (bytes: nat)
      requires delimiter != ""
      modifies this
      ensures network == old(network)
      ensures match Find(old(streambuf), delimiter, 0)
              case Some(pos) =>
                && response == old(streambuf)[..pos] && bytes == pos
                && streambuf == old(streambuf)[pos + |delimiter|..]
                && blockingReads == old(blockingReads)
              case None => response == "" && streambuf == old(streambuf) && blockingReads == old(blockingReads) + 1
    {
      bytes := 0;
      response := "";
      if |streambuf| > 0 {
        var pos := Find(streambuf, delimiter, 0);
        if pos.Some? {
          response := streambuf[..pos.value];
          streambuf := streambuf[pos.value + |delimiter|..];
          return |response|;
        }
      }
      blockingReads := blockingReads + 1;
    }

    method Read(needBytes: nat) returns (bytes: nat)
      modifies this
      ensures network == old(network)
      ensures var n := Min(needBytes, |old(streambuf)|);
              response == old(streambuf)[..n] && streambuf == old(streambuf)[n..]
      ensures blockingReads == if needBytes <= |old(streambuf)| then old(blockingReads) else old(blockingReads) + 1
    {
      response := "";
      var alreadyInStream := Min(needBytes, |streambuf|);
      if alreadyInStream > 0 {
        response := streambuf[..alreadyInStream];
        streambuf := streambuf[alreadyInStream..];
      }
      if alreadyInStream != needBytes {
        blockingReads := blockingReads + 1;
      }
      bytes := needBytes;
    }
  }

  method SkipBlanks(line: string, from: nat) returns (at: nat)
    requires from <= |line|
    ensures at == BlanksEnd(line, from)
  {
    at := from;
    while at < |line| && IsSpace(line[at])
      invariant from <= at <= |line|
      invariant BlanksEnd(line, at) == BlanksEnd(line, from)
    {
      at := at + 1;
    }
  }

  method ParseHeaderLine(line: string, parsed: map<string, string>) returns (ok: bool, headers: map<string, string>)
    ensures headers == WithHeaderLine(parsed, line)
    ensures !ok ==> headers == parsed
  {
    hide Find, At, Canon, BlanksEnd;
    headers := parsed;
    var pos := Find(line, ":", 0);
    if pos.None? || pos.value == 0 {
      return false, headers;
    }
    var key := line[..pos.value];
    if pos.value == |line| - 1 {
      assert line[BlanksEnd(line, |line|)..] == "";
      headers := headers[Canon(key) := ""];
      return true, headers;
    }
    var at := SkipBlanks(line, pos.value + 1);
    var value := line[at..];
    headers := headers[Canon(key) := value];
    return true, headers;
  }

  method ParseHeaderLines(lines: seq<string>) returns (parsed: map<string, string>)
    requires lines != []
    ensures parsed == HeaderMap(lines[1..])
  {
    hide WithHeaderLine;
    parsed := map[];
    var i := 1;
    while i < |lines|
      invariant 1 <= i <= |lines|
      invariant parsed == HeaderMap(lines[1..i])
    {
      assert lines[1..i + 1][..i - 1] == lines[1..i];
      var _, headers := ParseHeaderLine(lines[i], parsed);
      parsed := headers;
      i := i + 1;
    }
    assert lines[1..i] == lines[1..];
  }

  /** The request line or the status line; None where the handler is given a protocol error. */
  method ParseFirstLine(line: string, reply: Reply) returns (r: Option<Reply>)
    ensures r == WithFirstLine(reply, line)
  {
    hide Cut, Scan;
    if line == "" {
      return None;
    }
    var params := Split(line, " ", -1);
    if |params| < 2 {
      return None;
    }
    var lc := ToLower(params[0]);
    if StartsWith(lc, "http/") {
      var code := Stoi(params[1]);
      if code.None? {
        return None;
      }
      return Some(reply.(status := code.value));
    }
    return Some(reply.(verb := lc, resource := params[1]));
  }

  /** The whole head; None where the handler is given a protocol error. */
  method ParseHead(reply: Reply) returns (r: Option<Reply>)
    requires reply == NO_REPLY.(headers := reply.headers)
    ensures AfterHeaders(reply.headers) == if r.None? then Refuse(reply) else AfterHeaderLines(r.value)
  {
    assert CRLF != "";
    hide Cut, HeaderMap, WithFirstLine, AfterHeaderLines, CRLF;
    EmptyFirstLine(reply);
    var lines := Split(reply.headers, CRLF, -1);
    if lines == [] || lines[0] == "" {
      return None;
    }
    var first := ParseFirstLine(lines[0], reply);
    if first.None? {
      return None;
    }
    var parsed := ParseHeaderLines(lines);
    return Some(first.value.(parsed := parsed));
  }

  lemma EmptyFirstLine(reply: Reply)
    ensures WithFirstLine(reply, "") == None
  {
  }

  /** AsyncHttpClient; `delivered` records each call of the user's handler. */
  class AsyncHttpClient {
    const socket: TcpClient
    const env: Env
    var delivered: seq<Outcome>

    constructor (socket: TcpClient, env: Env)
      ensures this.socket == socket && this.env == env && delivered == []
    {
      this.socket, this.env, delivered := socket, env, [];
    }

    /** One handler call is added, and it and the socket are as the parser says; nothing blocked. */
    twostate predicate Hears(new result: (Outcome, string, seq<string>))
      reads this, socket
    {
      && delivered == old(delivered) + [result.0]
      && socket.streambuf == result.1
      && socket.network == result.2
      && socket.blockingReads == old(socket.blockingReads)
    }

    method Handler(error: ErrorCode, reply: Reply)
      modifies this
      ensures delivered == old(delivered) + [Outcome(error, reply)]
    {
      delivered := delivered + [Outcome(error, reply)];
    }

    method AsyncResponse()
      modifies this, socket
      ensures Hears(Stream(env, Headers, old(socket.streambuf), old(socket.network)))
    {
      var ok := socket.AsyncRead(Contains(BLANK_LINE));
      HandleHeaders(ok);
    }

    method HandleHeaders(ok: bool)
      requires ok ==> Holds(Contains(BLANK_LINE), socket.streambuf)
      modifies this, socket
      ensures Hears(Resume(env, Headers, ok, old(socket.streambuf), old(socket.network)))
      ensures !ok ==> delivered == old(delivered) + [Outcome(StreamError(env.streamEnd), NO_REPLY)]
    {
      if !ok {
        Handler(StreamError(env.streamEnd), NO_REPLY);
        return;
      }
      hide Find, At, AfterHeaders, AfterHeaderLines, Stream;
      var n := socket.ReadUntil(BLANK_LINE);
      var reply := NO_REPLY.(headers := socket.response);
      var parsed := ParseHead(reply);
      if parsed.None? {
        Handler(ProtocolError, reply);
        return;
      }
      AwaitBody(parsed.value);
    }

    method AwaitBody(reply: Reply)
      modifies this, socket
      ensures match AfterHeaderLines(reply)
              case Deliver(o) => Hears((o, old(socket.streambuf), old(socket.network)))
              case Wait(p) => Hears(Stream(env, p, old(socket.streambuf), old(socket.network)))
      ensures var arriving := old(socket.streambuf) + Flatten(old(socket.network));
              reply.HasHeader(CONTENT_LENGTH) && Stoul(reply.GetHeader(CONTENT_LENGTH), 10).Some?
              && |arriving| < Stoul(reply.GetHeader(CONTENT_LENGTH), 10).value.0
              ==> delivered == old(delivered) + [Outcome(StreamError(env.streamEnd), reply)]
    {
      if reply.HasHeader(CONTENT_LENGTH) {
        var length := Stoul(reply.GetHeader(CONTENT_LENGTH), 10);
        if length.None? {
          Handler(ProtocolError, reply);
          return;
        }
        var bodyLen := length.value.0;
        AwaitKeepsBytes(AtLeast(bodyLen), socket.streambuf, socket.network);
        var ok := socket.AsyncRead(AtLeast(bodyLen));
        if !ok {
          Handler(StreamError(env.streamEnd), reply);
        } else {
          var n := socket.Read(bodyLen);
          ProcessReply(reply.(body := socket.response));
        }
      } else if reply.GetHeader(TRANSFER_ENCODING) == "chunked" {
        var ok := socket.AsyncRead(Contains(CRLF));
        StartProcessChunk(ok, reply);
      } else {
        Handler(Success, reply);
      }
    }

    method ProcessReply(reply: Reply)
      modifies this
      ensures delivered == old(delivered) + [Finished(env, reply)]
    {
      var coding := Find(reply.GetHeader(CONTENT_ENCODING), "gzip", 0);
      var contentZipped := reply.HasHeader(CONTENT_ENCODING) && coding.Some?;
      var plain := reply;
      if contentZipped && reply.body != "" {
        var r := env.inflate(reply.body);
        if r.None? {
          Handler(ProtocolError, reply);
          return;
        }
        plain := plain.(body := r.value);
      }
      Handler(Success, plain);
    }

    method StartProcessChunk(ok: bool, reply: Reply)
      requires ok ==> Holds(Contains(CRLF), socket.streambuf)
      modifies this, socket
      ensures Hears(Resume(env, ChunkSize(reply), ok, old(socket.streambuf), old(socket.network)))
      ensures !ok ==> delivered == old(delivered) + [Outcome(StreamError(env.streamEnd), NO_REPLY)]
      decreases |socket.network|, |socket.streambuf|, 0
    {
      if !ok {
        Handler(StreamError(env.streamEnd), NO_REPLY);
        return;
      }
      hide Find, At, Scan, Stoul;
      var n := socket.ReadUntil(CRLF);
      var text := socket.response;
      var number := Stoul(text, 16);
      if number.None? {
        Handler(ProtocolError, reply);
        return;
      }
      var (chunkSize, parsed) := number.value;
      if parsed != |text| {
        Handler(ProtocolError, reply);
        return;
      }
      var more := socket.AsyncRead(AtLeast(WithCrlf(chunkSize)));
      ProcessChunk(more, chunkSize, reply);
    }

    method ProcessChunk(ok: bool, chunkSize: nat, reply: Reply)
      requires ok ==> Holds(AtLeast(WithCrlf(chunkSize)), socket.streambuf)
      modifies this, socket
      ensures Hears(Resume(env, Chunk(reply, chunkSize), ok, old(socket.streambuf), old(socket.network)))
      ensures !ok ==> delivered == old(delivered) + [Outcome(StreamError(env.streamEnd), reply)]
      decreases |socket.network|, |socket.streambuf|, 1
    {
      if !ok {
        Handler(StreamError(env.streamEnd), reply);
        return;
      }
      var n := socket.Read(WithCrlf(chunkSize));
      var data := socket.response[..Min(chunkSize, |socket.response|)];
      var grown := reply.(body := reply.body + data);
      if chunkSize == 0 {
        ProcessReply(grown);
      } else {
        var more := socket.AsyncRead(Contains(CRLF));
        StartProcessChunk(more, grown);
      }
    }

    /** n response requests one after the other. */
    method AsyncResponses(n: nat) returns (outcomes: seq<Outcome>)
      modifies this, socket
      ensures (outcomes, socket.streambuf, socket.network)
           == StreamMany(env, n, old(socket.streambuf), old(socket.network))
      ensures delivered == old(delivered) + outcomes && |outcomes| == n
      ensures socket.blockingReads == old(socket.blockingReads)
    {
      outcomes := [];
      if n > 0 {
        AsyncResponse();
        var first := delivered[|delivered| - 1];
        var others := AsyncResponses(n - 1);
        outcomes := [first] + others;
      }
    }
  }
}
