/**
  The current server (src/server/mod.rs): every parsed request must carry the
  configured API key before it is dispatched on its path; `/chat` goes through
  the shared chat checks and then the agent, whose text is sent back verbatim.
  The server's configuration (its key, the JSON decoder and the agent) is passed
  to each operation.
 */
module HttpServer {
  import opened Wrappers
  import opened Numbers
  import opened HttpWire
  import opened HttpTypes
  import opened ChatHandling

  const MISSING_KEY_MESSAGE := "Missing API key"
  const INVALID_KEY_MESSAGE := "Invalid API key"

  /** True for a parsed request whose key is exactly the server's. */
  predicate Authorized(r: Request, serverKey: string) {
    r.apiKey == Some(serverKey)
  }

  /**
    The decision of `handle_client`: a malformed request is refused, then the
    key is checked (missing before wrong), and only then is the path dispatched.
   */
  function Route(parsed: Option<Request>, serverKey: string, decode: Decoder): (d: Decision)
    ensures parsed.None? ==> d == Reply(Response(BAD_REQUEST, INVALID_REQUEST_MESSAGE))
    ensures parsed.Some? && parsed.value.apiKey.None? ==> d == Reply(Response(UNAUTHORIZED, MISSING_KEY_MESSAGE))
    ensures parsed.Some? && parsed.value.apiKey.Some? && parsed.value.apiKey.value != serverKey
            ==> d == Reply(Response(FORBIDDEN, INVALID_KEY_MESSAGE))
    ensures d.AskAgent? ==> parsed.Some? && Authorized(parsed.value, serverKey) && parsed.value.path == Chat
    ensures parsed.Some? && Authorized(parsed.value, serverKey) && parsed.value.path == Chat
            ==> d == ChatDecision(parsed.value.httpMethod, parsed.value.body, decode)
  {
    match parsed
    case None => Reply(Response(BAD_REQUEST, INVALID_REQUEST_MESSAGE))
    case Some(r) =>
      if r.apiKey.None? then Reply(Response(UNAUTHORIZED, MISSING_KEY_MESSAGE))
      else if r.apiKey.value != serverKey then Reply(Response(FORBIDDEN, INVALID_KEY_MESSAGE))
      else
        match r.path
        case Chat => ChatDecision(r.httpMethod, r.body, decode)
        case Root => Reply(Response(OK, HEALTHY_BODY))
        case Favicon => Reply(Response(NOT_FOUND, FAVICON_MESSAGE))
  }

  /** The response once the agent, if asked, has answered: its text verbatim, or a 500. */
  function Answer(d: Decision, agent: Agent): (r: Response)
    ensures d.Reply? ==> r == d.response
    ensures d.AskAgent? ==> (r.status == OK <==> agent(d.prompt, d.history).Success?)
    ensures d.AskAgent? && r.status == OK ==> r.body == agent(d.prompt, d.history).value
  {
    match d
    case Reply(response) => response
    case AskAgent(prompt, history) =>
      match agent(prompt, history)
      case Success(text) => Response(OK, text)
      case Failure(_) => Response(INTERNAL_SERVER_ERROR, AGENT_FAILED_MESSAGE)
  }

  /** The response the server sends for the text of a request. */
  function Serve(requestStr: string, serverKey: string, decode: Decoder, agent: Agent): Response {
    Answer(Route(ParsedRequest(requestStr), serverKey, decode), agent)
  }

  // ---------------------------------------------------------------- the handlers

  /** `root_handler`: the health check. */
  method RootHandler(stream: Stream)
    modifies stream
    ensures stream.sent == old(stream.sent) + Wire(Response(OK, HEALTHY_BODY))
  {
    SendResponse(stream, OK, HEALTHY_BODY);
  }

  /** `chat_handler`: the shared checks, then one call to the agent. */
  method ChatHandler(stream: Stream, m: Method, body: Option<string>, decode: Decoder, agent: Agent)
    modifies stream
    ensures stream.sent == old(stream.sent) + Wire(Answer(ChatDecision(m, body, decode), agent))
  {
    ghost var expected := Answer(ChatDecision(m, body, decode), agent);
    if m != POST {
      assert expected == Response(METHOD_NOT_ALLOWED, CHAT_METHOD_MESSAGE);
      SendResponse(stream, METHOD_NOT_ALLOWED, CHAT_METHOD_MESSAGE);
      return;
    }
    if body.None? {
      assert expected == Response(BAD_REQUEST, MISSING_BODY_MESSAGE);
      SendResponse(stream, BAD_REQUEST, MISSING_BODY_MESSAGE);
      return;
    }
    var chatRequest := decode(body.value);
    if chatRequest.None? {
      assert expected == Response(BAD_REQUEST, INVALID_JSON_MESSAGE);
      SendResponse(stream, BAD_REQUEST, INVALID_JSON_MESSAGE);
      return;
    }
    var history: seq<Message> := [];
    if chatRequest.value.chatHistory.Some? {
      var converted := ConvertHistory(chatRequest.value.chatHistory.value);
      if converted.Failure? {
        assert expected == Response(BAD_REQUEST, INVALID_ROLE_MESSAGE);
        SendResponse(stream, BAD_REQUEST, INVALID_ROLE_MESSAGE);
        return;
      }
      history := converted.value;
    }
    assert ChatDecision(m, body, decode) == AskAgent(chatRequest.value.prompt, history);
    var response := agent(chatRequest.value.prompt, history);
    if response.Success? {
      SendResponse(stream, OK, response.value);
    } else {
      SendResponse(stream, INTERNAL_SERVER_ERROR, AGENT_FAILED_MESSAGE);
    }
  }

  /** `handle_client` after the read: decode, authenticate, dispatch, and write exactly one response. */
  method HandleClient(stream: Stream, requestStr: string, serverKey: string, decode: Decoder, agent: Agent)
    modifies stream
    ensures stream.sent == old(stream.sent) + Wire(Serve(requestStr, serverKey, decode, agent))
  {
    var request := Parse(requestStr);
    if request.None? {
      SendResponse(stream, BAD_REQUEST, INVALID_REQUEST_MESSAGE);
      return;
    }
    var r := request.value;
    if r.apiKey.None? {
      SendResponse(stream, UNAUTHORIZED, MISSING_KEY_MESSAGE);
      return;
    }
    if r.apiKey.value != serverKey {
      SendResponse(stream, FORBIDDEN, INVALID_KEY_MESSAGE);
      return;
    }
    match r.path {
      case Chat => ChatHandler(stream, r.httpMethod, r.body, decode, agent);
      case Root => RootHandler(stream);
      case Favicon => SendResponse(stream, NOT_FOUND, FAVICON_MESSAGE);
    }
  }

  // ---------------------------------------------------------------- properties of the router

  /**
    The agent is consulted only for an authorized POST to /chat whose body
    decodes and whose history roles are all valid: for every other request the
    response is the same whatever the agent would have said.
   */
  lemma AgentOnlyForValidChat(requestStr: string, serverKey: string, decode: Decoder, agent1: Agent, agent2: Agent)
    ensures Route(ParsedRequest(requestStr), serverKey, decode).AskAgent? <==>
              var parsed := ParsedRequest(requestStr);
              && parsed.Some? && Authorized(parsed.value, serverKey) && parsed.value.path == Chat
              && ChatDecision(parsed.value.httpMethod, parsed.value.body, decode).AskAgent?
    ensures Route(ParsedRequest(requestStr), serverKey, decode).Reply? ==>
              Serve(requestStr, serverKey, decode, agent1) == Serve(requestStr, serverKey, decode, agent2)
  {
  }

  /**
    The JSON decoder only ever sees the body of an authorized request to /chat:
    for any other request two decoders give the same response.
   */
  lemma DecoderOnlyForAuthorizedChat(requestStr: string, serverKey: string, decode1: Decoder, decode2: Decoder, agent: Agent)
    requires var parsed := ParsedRequest(requestStr);
             !(parsed.Some? && Authorized(parsed.value, serverKey) && parsed.value.path == Chat
               && parsed.value.httpMethod == POST && parsed.value.body.Some?)
    ensures Serve(requestStr, serverKey, decode1, agent) == Serve(requestStr, serverKey, decode2, agent)
  {
  }

  /** With the right key the health check answers 200 whatever the method and the body. */
  lemma RootIgnoresMethod(r: Request, serverKey: string, decode: Decoder)
    requires Authorized(r, serverKey) && r.path == Root
    ensures Route(Some(r), serverKey, decode) == Reply(Response(OK, HEALTHY_BODY))
  {
  }

  /** With the right key the favicon is always 404. */
  lemma FaviconNotFound(r: Request, serverKey: string, decode: Decoder)
    requires Authorized(r, serverKey) && r.path == Favicon
    ensures Route(Some(r), serverKey, decode) == Reply(Response(NOT_FOUND, FAVICON_MESSAGE))
  {
  }

  // ---------------------------------------------------------------- requests as a client writes them

  /** A request without the key header is refused with 401, whatever its path. */
  lemma MissingKeyIs401(m: Method, p: Path, length: nat, body: string, serverKey: string, decode: Decoder, agent: Agent)
    requires '\r' !in body && (body == [] || body[|body| - 1] != '\n')
    ensures Serve(RequestText(m, p, None, length, body), serverKey, decode, agent)
            == Response(UNAUTHORIZED, MISSING_KEY_MESSAGE)
  {
    ParseRequestText(m, p, None, length, body);
  }

  /** A request with a key other than the server's is refused with 403, whatever its path. */
  lemma WrongKeyIs403(m: Method, p: Path, key: string, length: nat, body: string, serverKey: string, decode: Decoder, agent: Agent)
    requires IsPlainHeaderValue(key) && key != serverKey
    requires '\r' !in body && (body == [] || body[|body| - 1] != '\n')
    ensures Serve(RequestText(m, p, Some(key), length, body), serverKey, decode, agent)
            == Response(FORBIDDEN, INVALID_KEY_MESSAGE)
  {
    ParseRequestText(m, p, Some(key), length, body);
  }

  /** GET /chat with the right key reaches the chat handler and is refused there with 405, not 400. */
  lemma GetChatIs405(length: nat, body: string, serverKey: string, decode: Decoder, agent: Agent)
    requires IsPlainHeaderValue(serverKey)
    requires '\r' !in body && (body == [] || body[|body| - 1] != '\n')
    ensures Serve(RequestText(GET, Chat, Some(serverKey), length, body), serverKey, decode, agent)
            == Response(METHOD_NOT_ALLOWED, CHAT_METHOD_MESSAGE)
  {
    ParseRequestText(GET, Chat, Some(serverKey), length, body);
  }

  /** GET / with the right key returns exactly the health body. */
  lemma HealthCheck(length: nat, body: string, serverKey: string, decode: Decoder, agent: Agent)
    requires IsPlainHeaderValue(serverKey)
    requires '\r' !in body && (body == [] || body[|body| - 1] != '\n')
    ensures Serve(RequestText(GET, Root, Some(serverKey), length, body), serverKey, decode, agent)
            == Response(OK, HEALTHY_BODY)
  {
    ParseRequestText(GET, Root, Some(serverKey), length, body);
  }

  /**
    An authorized POST /chat whose history holds a role other than "user" or
    "assistant" is refused with 400, and the agent's answer plays no part.
   */
  lemma InvalidRoleIs400(length: nat, body: string, serverKey: string, decode: Decoder, agent: Agent, j: nat)
    requires IsPlainHeaderValue(serverKey)
    requires '\r' !in body && (body == [] || body[|body| - 1] != '\n')
    requires 0 < length <= I32_MAX
    requires decode(body).Some? && decode(body).value.chatHistory.Some?
    requires var h := decode(body).value.chatHistory.value; j < |h| && h[j].role != "user" && h[j].role != "assistant"
    ensures Serve(RequestText(POST, Chat, Some(serverKey), length, body), serverKey, decode, agent)
            == Response(BAD_REQUEST, INVALID_ROLE_MESSAGE)
  {
    ParseRequestText(POST, Chat, Some(serverKey), length, body);
    OneBadRoleRefuses(body, decode, j);
  }

  /**
    An authorized POST /chat whose body decodes with valid roles gets the
    agent's text verbatim with 200, or 500 when the agent fails.
   */
  lemma ValidChatAsksAgent(length: nat, body: string, serverKey: string, decode: Decoder, agent: Agent)
    requires IsPlainHeaderValue(serverKey)
    requires '\r' !in body && (body == [] || body[|body| - 1] != '\n')
    requires 0 < length <= I32_MAX
    requires decode(body).Some?
    requires decode(body).value.chatHistory.Some? ==> AllRolesValid(decode(body).value.chatHistory.value)
    ensures var d := Route(ParsedRequest(RequestText(POST, Chat, Some(serverKey), length, body)), serverKey, decode);
            && d.AskAgent? && d.prompt == decode(body).value.prompt
            && d == ChatDecision(POST, Some(body), decode)
            && Serve(RequestText(POST, Chat, Some(serverKey), length, body), serverKey, decode, agent)
               == if agent(d.prompt, d.history).Success? then Response(OK, agent(d.prompt, d.history).value)
                  else Response(INTERNAL_SERVER_ERROR, AGENT_FAILED_MESSAGE)
  {
    ParseRequestText(POST, Chat, Some(serverKey), length, body);
  }
}
