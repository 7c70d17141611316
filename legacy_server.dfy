/**
  The earlier server (src/server.rs). It recognises the same methods and paths
  and answers with the same framing, but its decoder keeps only the content
  length, it dispatches every parsed request without any key check, and it wraps
  the agent's text as `{"response": "..."}` with each '"' preceded by '\'.
 */
module LegacyServer {
  import opened Wrappers
  import opened Text
  import opened Numbers
  import opened HttpWire
  import opened HttpTypes
  import opened ChatHandling
  import HttpServer

  /** The earlier request record: no API key. */
  datatype LegacyRequest = LegacyRequest(httpMethod: Method, path: Path, body: Option<string>)

  /** One turn of the earlier header loop: only a content-length line changes anything. */
  function LengthAfter(length: int, line: string): int {
    var field := SecondField(line);
    if LowercaseStartsWith(line, CONTENT_LENGTH_HEADER) && field.Some?
    then ParseI32(Trim(field.value)).GetOr(0)
    else length
  }

  /** The content length after scanning `lines` in order, starting from 0. */
  function ScanLength(lines: seq<string>): int {
    if lines == [] then 0 else LengthAfter(ScanLength(lines[..|lines| - 1]), lines[|lines| - 1])
  }

  /**
    What the earlier `Request::parse` returns: the same request line and the
    same header section as the current decoder, with a body exactly when the
    scanned content length is positive.
   */
  function LegacyParsed(s: string): (r: Option<LegacyRequest>)
    ensures r.None? <==> Lines(s) == [] || RequestLine(Lines(s)[0]).None?
    ensures r.Some? ==>
              var lines := Lines(s);
              var end := BlankLine(lines, 1);
              && (r.value.body.Some? <==> ScanLength(lines[1..end]) > 0)
              && (r.value.body.Some? ==> r.value.body.value == Join(LinesAfter(lines, end), "\n"))
  {
    var lines := Lines(s);
    if lines == [] then None
    else
      match RequestLine(lines[0])
      case None => None
      case Some((m, path)) =>
        var end := BlankLine(lines, 1);
        var body := if ScanLength(lines[1..end]) > 0 then Some(Join(LinesAfter(lines, end), "\n")) else None;
        Some(LegacyRequest(m, path, body))
  }

  /** The earlier `Request::parse`: the line loop that updates only the content length. */
  method LegacyParse(requestStr: string) returns (r: Option<LegacyRequest>)
    ensures r == LegacyParsed(requestStr)
  {
    var lines := Lines(requestStr);
    if |lines| == 0 {
      return None;
    }
    var parts := SplitWhitespace(lines[0]);
    if |parts| == 0 {
      return None;
    }
    var m := ParseMethod(parts[0]);
    if m.None? {
      return None;
    }
    if |parts| == 1 {
      return None;
    }
    var path := ParsePath(parts[1]);
    if path.None? {
      return None;
    }

    var contentLength := 0;
    var i := 1;
    while i < |lines|
      invariant 1 <= i <= |lines|
      invariant BlankLine(lines, 1) == BlankLine(lines, i)
      invariant contentLength == ScanLength(lines[1..i])
    {
      var line := lines[i];
      if line == "" {
        break;
      }
      ScanLengthStep(lines, i);
      if LowercaseStartsWith(line, CONTENT_LENGTH_HEADER) {
        var field := SecondField(line);
        if field.Some? {
          contentLength := ParseI32(Trim(field.value)).GetOr(0);
        }
      }
      i := i + 1;
    }
    assert BlankLine(lines, 1) == i;
    var body: Option<string> := None;
    if contentLength > 0 {
      body := Some(Join(LinesAfter(lines, i), "\n"));
    }
    return Some(LegacyRequest(m.value, path.value, body));
  }

  /** Scanning one more header line is one more turn of the loop. */
  lemma ScanLengthStep(lines: seq<string>, i: nat)
    requires 1 <= i < |lines|
    ensures ScanLength(lines[1..i + 1]) == LengthAfter(ScanLength(lines[1..i]), lines[i])
  {
    assert lines[1..i + 1][..i - 1] == lines[1..i];
  }

  /** Both header loops arrive at the same content length. */
  lemma {:induction false} ScanLengthAgrees(lines: seq<string>)
    ensures ScanLength(lines) == ScanHeaders(lines).contentLength
    decreases |lines|
  {
    if lines != [] {
      ScanLengthAgrees(lines[..|lines| - 1]);
    }
  }

  /** The earlier decoder is the current one with the API key dropped. */
  lemma LegacyParseAgrees(s: string)
    ensures LegacyParsed(s) == match ParsedRequest(s)
                               case None => None
                               case Some(r) => Some(LegacyRequest(r.httpMethod, r.path, r.body))
  {
    var lines := Lines(s);
    if lines != [] && RequestLine(lines[0]).Some? {
      ScanLengthAgrees(lines[1..BlankLine(lines, 1)]);
    }
  }

  // ---------------------------------------------------------------- the response envelope

  /** `resp.replace('"', "\\\"")`: every '"' gets a '\' in front; nothing else changes. */
  function EscapeQuotes(s: string): (t: string)
    ensures |t| >= |s|
    ensures forall i :: 0 <= i < |t| && t[i] == '"' ==> i > 0 && t[i - 1] == '\\'
    ensures t == [] ==> s == []
    ensures s != [] && s[0] == '"' ==> t[0] == '\\'
  {
    if s == [] then []
    else
      var rest := EscapeQuotes(s[1..]);
      if s[0] == '"' then "\\\"" + rest else [s[0]] + rest
  }

  /**
    The reader that undoes `EscapeQuotes`: `\"` becomes `"`, every other
    character is kept. It is not a JSON string decoder, which would also treat
    `\\` and `\n` as escapes and would reject a raw line break.
   */
  function UnescapeQuotes(t: string): string {
    if t == [] then []
    else if |t| >= 2 && t[0] == '\\' && t[1] == '"' then "\"" + UnescapeQuotes(t[2..])
    else [t[0]] + UnescapeQuotes(t[1..])
  }

  /** Escaping loses nothing: the escaped text unescapes to the original, backslashes included. */
  lemma {:induction false} UnescapeEscapeQuotes(s: string)
    ensures UnescapeQuotes(EscapeQuotes(s)) == s
    decreases |s|
  {
    if s != [] {
      var rest := EscapeQuotes(s[1..]);
      UnescapeEscapeQuotes(s[1..]);
      if s[0] == '"' {
        var t := "\\\"" + rest;
        assert t[2..] == rest;
      } else {
        var t := [s[0]] + rest;
        assert t[1..] == rest;
        assert !(|t| >= 2 && t[0] == '\\' && t[1] == '"');
      }
    }
  }

  const ENVELOPE_PREFIX := "{\"response\": \""
  const ENVELOPE_SUFFIX := "\"}"

  /** The 200 body of the earlier `chat_handler`. */
  function ResponseEnvelope(text: string): string {
    ENVELOPE_PREFIX + EscapeQuotes(text) + ENVELOPE_SUFFIX
  }

  /**
    What the quote-only reader recovers from an envelope: the text between the
    fixed prefix and suffix, passed through `UnescapeQuotes`. A JSON reader may
    recover something else, or nothing (see `BackslashQuoteEscape`).
   */
  function EnvelopeText(body: string): Option<string> {
    if |body| >= |ENVELOPE_PREFIX| + |ENVELOPE_SUFFIX|
       && body[..|ENVELOPE_PREFIX|] == ENVELOPE_PREFIX
       && body[|body| - |ENVELOPE_SUFFIX|..] == ENVELOPE_SUFFIX
    then Some(UnescapeQuotes(body[|ENVELOPE_PREFIX|..|body| - |ENVELOPE_SUFFIX|]))
    else None
  }

  /** The quote-only reader gets the agent's text back exactly from the envelope. */
  lemma EnvelopeRoundTrip(text: string)
    ensures EnvelopeText(ResponseEnvelope(text)) == Some(text)
  {
    var e := EscapeQuotes(text);
    var body := ResponseEnvelope(text);
    assert body[..|ENVELOPE_PREFIX|] == ENVELOPE_PREFIX;
    assert body[|body| - |ENVELOPE_SUFFIX|..] == ENVELOPE_SUFFIX;
    assert body[|ENVELOPE_PREFIX|..|body| - |ENVELOPE_SUFFIX|] == e;
    UnescapeEscapeQuotes(text);
  }

  /**
    Only '"' is escaped, so a backslash in the text stays single: `a\"b`
    becomes `a\\"b`, in which a JSON reader takes `\\` for one backslash and
    the next '"' for the end of the string.
   */
  lemma BackslashQuoteEscape()
    ensures EscapeQuotes("a\\\"b") == "a\\\\\"b"
  {
    assert EscapeQuotes("b") == "b";
    assert EscapeQuotes("\"b") == "\\\"b";
    assert EscapeQuotes("\\\"b") == "\\\\\"b";
  }

  // ---------------------------------------------------------------- routing

  /** The earlier `handle_client`: a malformed request is refused, every other one dispatched on its path. */
  function Route(parsed: Option<LegacyRequest>, decode: Decoder): (d: Decision)
    ensures parsed.None? ==> d == Reply(Response(BAD_REQUEST, INVALID_REQUEST_MESSAGE))
    ensures d.AskAgent? <==> parsed.Some? && parsed.value.path == Chat
                             && ChatDecision(parsed.value.httpMethod, parsed.value.body, decode).AskAgent?
    ensures parsed.Some? && parsed.value.path == Chat
            ==> d == ChatDecision(parsed.value.httpMethod, parsed.value.body, decode)
  {
    match parsed
    case None => Reply(Response(BAD_REQUEST, INVALID_REQUEST_MESSAGE))
    case Some(r) =>
      match r.path
      case Chat => ChatDecision(r.httpMethod, r.body, decode)
      case Root => Reply(Response(OK, HEALTHY_BODY))
      case Favicon => Reply(Response(NOT_FOUND, FAVICON_MESSAGE))
  }

  /** The response once the agent, if asked, has answered: its text in the envelope, or a 500. */
  function Answer(d: Decision, agent: Agent): (r: Response)
    ensures d.Reply? ==> r == d.response
    ensures d.AskAgent? ==> (r.status == OK <==> agent(d.prompt, d.history).Success?)
    ensures d.AskAgent? && r.status == OK ==> r.body == ResponseEnvelope(agent(d.prompt, d.history).value)
    ensures d.AskAgent? && r.status == OK ==> EnvelopeText(r.body) == Some(agent(d.prompt, d.history).value)
  {
    match d
    case Reply(response) => response
    case AskAgent(prompt, history) =>
      match agent(prompt, history)
      case Success(text) =>
        EnvelopeRoundTrip(text);
        Response(OK, ResponseEnvelope(text))
      case Failure(_) => Response(INTERNAL_SERVER_ERROR, AGENT_FAILED_MESSAGE)
  }

  /** The response the earlier server sends for the text of a request. */
  function Serve(requestStr: string, decode: Decoder, agent: Agent): Response {
    Answer(Route(LegacyParsed(requestStr), decode), agent)
  }

  // ---------------------------------------------------------------- the handlers

  method RootHandler(stream: Stream)
    modifies stream
    ensures stream.sent == old(stream.sent) + Wire(Response(OK, HEALTHY_BODY))
  {
    SendResponse(stream, OK, HEALTHY_BODY);
  }

  /** The earlier `chat_handler`: the shared checks, one call to the agent, the envelope. */
  method ChatHandler(stream: Stream, m: Method, body: Option<string>, decode: Decoder, agent: Agent)
    modifies stream
    ensures stream.sent == old(stream.sent) + Wire(Answer(ChatDecision(m, body, decode), agent))
  {
    ghost var expected := Answer(ChatDecision(m, body, decode), agent);
    if m != POST {
      assert expected == Response(METHOD_NOT_ALLOWED, CHAT_METHOD_MESSAGE);
      SendResponse(stream, METHOD_NOT_ALLOWED, CHAT_METHOD_MESSAGE);
      return;
    }
    if body.None? {
      assert expected == Response(BAD_REQUEST, MISSING_BODY_MESSAGE);
      SendResponse(stream, BAD_REQUEST, MISSING_BODY_MESSAGE);
      return;
    }
    var chatRequest := decode(body.value);
    if chatRequest.None? {
      assert expected == Response(BAD_REQUEST, INVALID_JSON_MESSAGE);
      SendResponse(stream, BAD_REQUEST, INVALID_JSON_MESSAGE);
      return;
    }
    var history: seq<Message> := [];
    if chatRequest.value.chatHistory.Some? {
      var converted := ConvertHistory(chatRequest.value.chatHistory.value);
      if converted.Failure? {
        assert expected == Response(BAD_REQUEST, INVALID_ROLE_MESSAGE);
        SendResponse(stream, BAD_REQUEST, INVALID_ROLE_MESSAGE);
        return;
      }
      history := converted.value;
    }
    assert ChatDecision(m, body, decode) == AskAgent(chatRequest.value.prompt, history);
    var response := agent(chatRequest.value.prompt, history);
    if response.Success? {
      SendResponse(stream, OK, ResponseEnvelope(response.value));
    } else {
      SendResponse(stream, INTERNAL_SERVER_ERROR, AGENT_FAILED_MESSAGE);
    }
  }

  /** The earlier `handle_client` after the read: decode, dispatch, write exactly one response. */
  method HandleClient(stream: Stream, requestStr: string, decode: Decoder, agent: Agent)
    modifies stream
    ensures stream.sent == old(stream.sent) + Wire(Serve(requestStr, decode, agent))
  {
    var request := LegacyParse(requestStr);
    if request.None? {
      SendResponse(stream, BAD_REQUEST, INVALID_REQUEST_MESSAGE);
      return;
    }
    var r := request.value;
    match r.path {
      case Chat => ChatHandler(stream, r.httpMethod, r.body, decode, agent);
      case Root => RootHandler(stream);
      case Favicon => SendResponse(stream, NOT_FOUND, FAVICON_MESSAGE);
    }
  }

  // ---------------------------------------------------------------- against the current server

  /** The earlier server never looks at a key: requests that differ only in their key header get the same response. */
  lemma KeyIgnored(m: Method, p: Path, key1: Option<string>, key2: Option<string>, length: nat, body: string,
                   decode: Decoder, agent: Agent)
    requires key1.Some? ==> IsPlainHeaderValue(key1.value)
    requires key2.Some? ==> IsPlainHeaderValue(key2.value)
    requires '\r' !in body && (body == [] || body[|body| - 1] != '\n')
    ensures Serve(RequestText(m, p, key1, length, body), decode, agent)
            == Serve(RequestText(m, p, key2, length, body), decode, agent)
  {
    ParseRequestText(m, p, key1, length, body);
    ParseRequestText(m, p, key2, length, body);
    LegacyParseAgrees(RequestText(m, p, key1, length, body));
    LegacyParseAgrees(RequestText(m, p, key2, length, body));
  }

  /**
    Given the right key, the current server decides exactly as the earlier one
    did: the same replies, and the agent asked with the same prompt and history.
   */
  lemma SameDecisionWhenAuthorized(requestStr: string, serverKey: string, decode: Decoder)
    requires ParsedRequest(requestStr).Some? && ParsedRequest(requestStr).value.apiKey == Some(serverKey)
    ensures HttpServer.Route(ParsedRequest(requestStr), serverKey, decode) == Route(LegacyParsed(requestStr), decode)
  {
    LegacyParseAgrees(requestStr);
  }
}
