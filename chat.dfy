/**
  The part of `chat_handler` that both server iterations share: checking the
  method and the body, decoding the JSON envelope, and converting the chat
  history entry by entry before anything is handed to the agent. The JSON
  decoder and the agent are supplied from outside as functions.
 */
module ChatHandling {
  import opened Wrappers
  import opened HttpWire
  import opened HttpTypes

  /** `serde_json::from_str::<ChatRequest>`: `None` for a body that does not decode. */
  type Decoder = string -> Option<ChatRequest>

  /** `agent.chat(prompt, history)`: the reply text, or an error whose text is only logged. */
  type Agent = (string, seq<Message>) -> Result<string, string>

  const CHAT_METHOD_MESSAGE := "Invalid method for /chat"
  const MISSING_BODY_MESSAGE := "Missing request body"
  const INVALID_JSON_MESSAGE := "Invalid JSON body"
  const INVALID_ROLE_MESSAGE := "Invalid message role in chat history"
  const AGENT_FAILED_MESSAGE := "Failed to generate response"

  /** True when every entry of `history` has a role the server accepts. */
  predicate AllRolesValid(history: seq<HttpMessage>) {
    forall i :: 0 <= i < |history| ==> ToMessage(history[i]).Success?
  }

  /**
    The converted history: every entry converted, in the original order, or the
    error of the first entry whose role is refused.
   */
  function ConvertAll(history: seq<HttpMessage>): (r: Result<seq<Message>, string>)
    ensures r.Success? <==> AllRolesValid(history)
    ensures r.Success? ==> |r.value| == |history|
    ensures r.Success? ==> forall i :: 0 <= i < |history| ==> AsHttpMessage(r.value[i]) == history[i]
    ensures r.Failure? ==> r.error == INVALID_ROLE
  {
    if history == [] then Success([])
    else
      var init := history[..|history| - 1];
      assert forall i :: 0 <= i < |init| ==> init[i] == history[i];
      match ConvertAll(init)
      case Failure(e) => Failure(e)
      case Success(ms) =>
        match ToMessage(history[|history| - 1])
        case Failure(e) => Failure(e)
        case Success(m) => Success(ms + [m])
  }

  /** The conversion loop of `chat_handler`: push each converted entry, return at the first refused one. */
  method ConvertHistory(history: seq<HttpMessage>) returns (r: Result<seq<Message>, string>)
    ensures r == ConvertAll(history)
  {
    var converted: seq<Message> := [];
    var i := 0;
    while i < |history|
      invariant 0 <= i <= |history|
      invariant ConvertAll(history[..i]) == Success(converted)
    {
      var m := ToMessage(history[i]);
      if m.Failure? {
        assert !AllRolesValid(history);
        return Failure(m.error);
      }
      assert history[..i + 1][..i] == history[..i];
      converted := converted + [m.value];
      i := i + 1;
    }
    assert history[..i] == history;
    return Success(converted);
  }

  /**
    What `chat_handler` does before it may call the agent: either it already has
    the response, or it asks the agent with this prompt and converted history.
   */
  datatype Decision = Reply(response: Response) | AskAgent(prompt: string, history: seq<Message>)

  /** The history the agent receives: none given means an empty one. */
  function HistoryOf(req: ChatRequest): Result<seq<Message>, string> {
    if req.chatHistory.Some? then ConvertAll(req.chatHistory.value) else Success([])
  }

  /**
    The checks of `chat_handler`, in order: POST only, a body present, a body
    that decodes, every history role valid. Only when all pass is the agent
    asked, with the decoded prompt and the whole history converted in order.
   */
  function ChatDecision(m: Method, body: Option<string>, decode: Decoder): (d: Decision)
    ensures d.AskAgent? <==>
              && m == POST && body.Some? && decode(body.value).Some?
              && (decode(body.value).value.chatHistory.Some? ==> AllRolesValid(decode(body.value).value.chatHistory.value))
    ensures d.AskAgent? ==>
              var req := decode(body.value).value;
              var given := if req.chatHistory.Some? then req.chatHistory.value else [];
              && d.prompt == req.prompt
              && |d.history| == |given|
              && forall i :: 0 <= i < |given| ==> AsHttpMessage(d.history[i]) == given[i]
    ensures m == GET ==> d == Reply(Response(METHOD_NOT_ALLOWED, CHAT_METHOD_MESSAGE))
    ensures m == POST && body.None? ==> d == Reply(Response(BAD_REQUEST, MISSING_BODY_MESSAGE))
    ensures m == POST && body.Some? && decode(body.value).None? ==> d == Reply(Response(BAD_REQUEST, INVALID_JSON_MESSAGE))
    ensures d.Reply? && m == POST ==> d.response.status == BAD_REQUEST
  {
    match m
    case GET => Reply(Response(METHOD_NOT_ALLOWED, CHAT_METHOD_MESSAGE))
    case POST =>
      match body
      case None => Reply(Response(BAD_REQUEST, MISSING_BODY_MESSAGE))
      case Some(text) =>
        match decode(text)
        case None => Reply(Response(BAD_REQUEST, INVALID_JSON_MESSAGE))
        case Some(req) =>
          match HistoryOf(req)
          case Failure(_) => Reply(Response(BAD_REQUEST, INVALID_ROLE_MESSAGE))
          case Success(ms) => AskAgent(req.prompt, ms)
  }

  /** Converting messages to JSON entries and back gives the messages again, in order. */
  lemma {:induction false} ConvertAllOfMessages(ms: seq<Message>)
    ensures ConvertAll(seq(|ms|, i requires 0 <= i < |ms| => AsHttpMessage(ms[i]))) == Success(ms)
  {
    var entries := seq(|ms|, i requires 0 <= i < |ms| => AsHttpMessage(ms[i]));
    forall i | 0 <= i < |entries| ensures ToMessage(entries[i]).Success? {
      ToMessageOfMessage(ms[i]);
    }
    var r := ConvertAll(entries);
    forall i | 0 <= i < |ms| ensures r.value[i] == ms[i] {
      AsHttpMessageInjective(r.value[i], ms[i]);
    }
    assert r.value == ms;
  }

  /** A single refused role anywhere in the history refuses the whole request before the agent is asked. */
  lemma OneBadRoleRefuses(body: string, decode: Decoder, j: nat)
    requires decode(body).Some? && decode(body).value.chatHistory.Some?
    requires var h := decode(body).value.chatHistory.value; j < |h| && ToMessage(h[j]).Failure?
    ensures ChatDecision(POST, Some(body), decode) == Reply(Response(BAD_REQUEST, INVALID_ROLE_MESSAGE))
  {
  }
}
