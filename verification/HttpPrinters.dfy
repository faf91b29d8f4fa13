// The three message printers of client and server, and what parsing makes of what they print.
module HttpPrinters {
  import opened Text
  import opened Numbers
  import opened Http

  function Header(name: string, value: string): string {
    name + ": " + value
  }

  const APPLICATION_JSON := "application/json"
  const JSON := Header(CONTENT_TYPE, APPLICATION_JSON)
  const ANY_ORIGIN := Header(ALLOW_ORIGIN, "*")

  datatype Message =
    | Request(resource: string, contentType: string, body: string)
    | OkResponse(body: string)
    | ErrorResponse(code: int, body: string)
  {
    /** What the printers' callers provide; std::string cannot hold 2^64 bytes. */
    predicate Printable() {
      && |body| < TWO_64
      && (Request? ==> Apart(resource, " \r\n") && Apart(contentType, CRLF))
    }

    function FirstLine(): string {
      match this
      case Request(resource, _, _) => "POST " + resource + " HTTP/1.1"
      case OkResponse(_) => "HTTP/1.1 200 OK"
      case ErrorResponse(code, _) => "HTTP/1.1 " + HttpCodeToString(code)
    }

    function HeaderLines(): seq<string> {
      var length := Header(CONTENT_LENGTH, ToString(|body|));
      match this
      case Request(_, contentType, _) => [length, Header(CONTENT_TYPE, contentType)]
      case OkResponse(_) => [length, JSON, ANY_ORIGIN]
      case ErrorResponse(_, _) => [length, ANY_ORIGIN, JSON]
    }

    function Lines(): seq<string> {
      [FirstLine()] + HeaderLines()
    }

    function Text(): string {
      Joined(Lines(), CRLF) + BLANK_LINE + body
    }

    /** The status the receiver sees: codes outside the table are sent as 200. */
    function Status(): int {
      match this
      case Request(_, _, _) => 0
      case OkResponse(_) => 200
      case ErrorResponse(code, _) => if code in {200, 400, 403, 404, 409, 429, 500, 503} then code else 200
    }

    /** The reply says what the message said. */
    ghost predicate ReadAs(o: Outcome) {
      && o.error == Success
      && o.reply.headers == Joined(Lines(), CRLF)
      && o.reply.body == body
      && o.reply.status == Status()
      && o.reply.verb == (if Request? then "post" else "")
      && o.reply.resource == (if Request? then resource else "")
      && o.reply.GetHeader(CONTENT_TYPE)
      == (if Request? then contentType[BlanksEnd(contentType, 0)..] else APPLICATION_JSON)
    }
  }

  function HttpCodeToString(code: int): string {
    match code
    case 200 => "200 OK"
    case 400 => "400 Bad Request"
    case 403 => "403 Forbidden"
    case 404 => "404 Not Found"
    case 409 => "409 Conflict"
    case 429 => "429 Too Many Requests"
    case 500 => "500 Internal Server Error"
    case 503 => "503 Service Unavailable"
    case _ => "200 OK"
  }

  /** Codes and reason phrases as section 6.1 of RFC 7231 and section 4 of RFC 6585 give them. */
  const REASONS: seq<(int, string)> := [
    (200, "200 OK"), (400, "400 Bad Request"), (403, "403 Forbidden"), (404, "404 Not Found"), (409, "409 Conflict"),
    (429, "429 Too Many Requests"), (500, "500 Internal Server Error"), (503, "503 Service Unavailable")]

  /** The server knows these eight, and sends every other code as 200. */
  lemma ReasonPhrases(code: int)
    ensures forall i :: 0 <= i < |REASONS| && REASONS[i].0 == code ==> HttpCodeToString(code) == REASONS[i].1
    ensures (forall i :: 0 <= i < |REASONS| ==> REASONS[i].0 != code) ==> HttpCodeToString(code) == "200 OK"
  {
    assert |REASONS| == 8;
    assert REASONS[0].0 == 200 && REASONS[1].0 == 400 && REASONS[2].0 == 403 && REASONS[3].0 == 404;
    assert REASONS[4].0 == 409 && REASONS[5].0 == 429 && REASONS[6].0 == 500 && REASONS[7].0 == 503;
  }

  method BuildRequest(resource: string, contentType: string, body: string) returns (request: string)
    ensures request == Request(resource, contentType, body).Text()
  {
    request := "POST " + resource + " HTTP/1.1\r\n";
    request := request + ("Content-Length: " + ToString(|body|) + "\r\n");
    request := request + ("Content-Type: " + contentType + "\r\n");
    request := request + "\r\n";
    request := request + body;
    hide ToString;
    ghost var line := "POST " + resource + " HTTP/1.1";
    LengthLine(|body|);
    RequestLines(resource, contentType);
    hide Header;
    ThreeLines(line, Header(CONTENT_LENGTH, ToString(|body|)), Header(CONTENT_TYPE, contentType), body);
  }

  method BuildApiOkResponse(body: string) returns (response: string)
    ensures response == OkResponse(body).Text()
  {
    response := "HTTP/1.1 200 OK\r\n";
    response := response + ("Content-Length: " + ToString(|body|) + "\r\n");
    response := response + "Content-Type: application/json\r\n";
    response := response + "Access-Control-Allow-Origin: *\r\n";
    response := response + "\r\n";
    response := response + body;
    FixedLines();
    hide Header, ToString;
    LengthLine(|body|);
    FourLines("HTTP/1.1 200 OK", Header(CONTENT_LENGTH, ToString(|body|)), JSON, ANY_ORIGIN, body);
  }

  /** apiResponse is the JSON that make_api_error writes. */
  method BuildApiErrorResponse(httpCode: int, apiResponse: string) returns (response: string)
    ensures response == ErrorResponse(httpCode, apiResponse).Text()
  {
    response := "HTTP/1.1 " + HttpCodeToString(httpCode) + "\r\n";
    response := response + ("Content-Length: " + ToString(|apiResponse|) + "\r\n");
    response := response + "Access-Control-Allow-Origin: *\r\n";
    response := response + "Content-Type: application/json\r\n";
    response := response + "\r\n";
    response := response + apiResponse;
    FixedLines();
    hide Header, ToString, HttpCodeToString;
    LengthLine(|apiResponse|);
    FourLines("HTTP/1.1 " + HttpCodeToString(httpCode), Header(CONTENT_LENGTH, ToString(|apiResponse|)),
              ANY_ORIGIN, JSON, apiResponse);
  }

  lemma RequestLines(resource: string, contentType: string)
    ensures "POST " + resource + " HTTP/1.1" + CRLF == "POST " + resource + " HTTP/1.1\r\n"
    ensures Header(CONTENT_TYPE, contentType) + CRLF == "Content-Type: " + contentType + "\r\n"
    ensures CRLF == "\r\n"
  {
    assert " HTTP/1.1" + CRLF == " HTTP/1.1\r\n";
    assert CONTENT_TYPE + ": " == "Content-Type: ";
  }

  lemma LengthLine(n: nat)
    ensures Header(CONTENT_LENGTH, ToString(n)) + CRLF == "Content-Length: " + ToString(n) + "\r\n"
  {
  }

  lemma FixedLines()
    ensures JSON + CRLF == "Content-Type: application/json\r\n"
    ensures ANY_ORIGIN + CRLF == "Access-Control-Allow-Origin: *\r\n"
    ensures "HTTP/1.1 200 OK" + CRLF == "HTTP/1.1 200 OK\r\n"
    ensures CRLF + CRLF == BLANK_LINE
  {
  }

  lemma ThreeLines(a: string, b: string, c: string, body: string)
    ensures Joined([a, b, c], CRLF) + BLANK_LINE + body == (a + CRLF) + (b + CRLF) + (c + CRLF) + CRLF + body
  {
    assert [a, b, c][1..] == [b, c] && [b, c][1..] == [c];
    assert Joined([b, c], CRLF) == b + CRLF + c;
    assert BLANK_LINE == CRLF + CRLF;
    assert a + CRLF + (b + CRLF + c) + (CRLF + CRLF) + body
        == (a + CRLF) + (b + CRLF) + (c + CRLF) + CRLF + body;
  }

  lemma FourLines(a: string, b: string, c: string, d: string, body: string)
    ensures Joined([a, b, c, d], CRLF) + BLANK_LINE + body
         == (a + CRLF) + (b + CRLF) + (c + CRLF) + (d + CRLF) + CRLF + body
  {
    assert [a, b, c, d][1..] == [b, c, d];
    ThreeLines(b, c, d, body);
    assert a + CRLF + Joined([b, c, d], CRLF) + BLANK_LINE + body
        == a + CRLF + (Joined([b, c, d], CRLF) + BLANK_LINE + body);
    assert a + CRLF + ((b + CRLF) + (c + CRLF) + (d + CRLF) + CRLF + body)
        == (a + CRLF) + (b + CRLF) + (c + CRLF) + (d + CRLF) + CRLF + body;
  }
}
