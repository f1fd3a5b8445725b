/**
 * The request handler of netlify/functions/concierge.js: the checks that end a request early
 * (lines 5-26), the pipeline from guide to prompt (lines 28-94) and the reply built from the
 * completion API's answer (lines 113-129). The API call itself is not made here: the handler
 * returns the call it would make, and the API's response is a parameter.
 */
module Handler {
  import opened Wrappers
  import opened Text
  import opened Guide
  import opened Ranking
  import opened Prompt

  /** The fields of the parsed JSON body; `None` is a field that is absent. */
  datatype Payload = Payload(
    question: Option<string>,
    lang: Option<string>,
    suite: Option<string>,
    content: Option<Document>)

  /** The request body: missing or empty, not JSON, or a parsed object. */
  datatype Body = Absent | Malformed | Parsed(payload: Payload)

  datatype Request = Request(httpMethod: string, body: Body)

  /** The reply bodies: plain text, or the JSON objects the handler serialises. */
  datatype ReplyBody =
    | Plain(text: string)
    | Error(error: string)
    | UpstreamError(error: string, status: int, details: string)
    | Answer(answer: string, matched: nat)
    | Crash(error: string, details: string)

  datatype Reply = Reply(statusCode: nat, body: ReplyBody)

  /** The chat-completion call: its authorization header and its two messages. */
  datatype Call = Call(authorization: string, prompt: Messages)

  /**
   * What the completion API sent back: a response that is not ok, with its status and raw
   * text; an ok response and the string content of its first choice's message (`None` when
   * that content is missing or falsy); or an exception on the way (the request failed, its text
   * could not be read, the reply was not JSON, or the message content was a truthy non-string),
   * with the exception's message.
   */
  datatype Upstream =
    | Rejected(status: int, raw: string)
    | Accepted(content: Option<string>)
    | Threw(message: string)

  const MethodNotAllowed := "Method Not Allowed"
  const MissingKey := "Missing OPENAI_API_KEY in Netlify env vars"
  const InvalidJson := "Invalid JSON body"
  const MissingQuestion := "Missing question"
  const RequestFailed := "OpenAI request failed"
  const ServerError := "Server error"

  /** A missing body parses as `{}`; `None` when the body is not JSON. */
  function PayloadOf(body: Body): (r: Option<Payload>)
    ensures r.None? <==> body.Malformed?
    ensures body.Absent? ==> r == Some(Payload(None, None, None, None))
  {
    match body
    case Absent => Some(Payload(None, None, None, None))
    case Malformed => None
    case Parsed(p) => Some(p)
  }

  /** `!apiKey` fails: the key is neither unset nor the empty string, its two falsy values. */
  predicate HasKey(apiKey: Option<string>): (r: bool)
    ensures !r <==> apiKey == None || apiKey == Some("")
  {
    apiKey.Some? && apiKey.value != ""
  }

  /** The requested language: the one given, or "he" when the field is absent. */
  function Lang(p: Payload): (r: string)
    ensures p.lang.Some? ==> r == p.lang.value
    ensures p.lang.None? ==> r == DefaultLang
  {
    p.lang.GetOr(DefaultLang)
  }

  /** The trimmed question: empty exactly when it is absent or blank. */
  function Question(p: Payload): (r: string)
    ensures r == [] <==> p.question.None? || AllSpace(p.question.value)
  {
    Trim(p.question.GetOr(""))
  }

  /** The snippets sent as context, best first. */
  function Ranked(p: Payload): seq<Scored> {
    Rank(QueryWords(Question(p)), Flatten(p.content.GetOr(map[]), Lang(p), p.suite))
  }

  /** The messages sent for a payload that passed the checks. */
  function PromptFor(p: Payload): Messages {
    BuildPrompt(Lang(p), Question(p), ContextText(Ranked(p)))
  }

  /**
   * The request reaches the completion API: every check of lines 5-26 passed. Its body was
   * therefore JSON and carried a question that is not blank.
   */
  predicate Admitted(req: Request, apiKey: Option<string>): (r: bool)
    ensures r ==> req.body.Parsed? && req.body.payload.question.Some?
    ensures r ==> !AllSpace(req.body.payload.question.value)
  {
    && req.httpMethod == "POST"
    && HasKey(apiKey)
    && !req.body.Malformed?
    && Question(PayloadOf(req.body).value) != []
  }

  /**
   * The handler. The checks run in order and the first that fails decides the reply: 405 for a
   * method other than POST, then 500 when the key is missing (before the body is looked at),
   * then 400 for a body that is not JSON, then 400 for a blank question. A request that passes
   * them all makes exactly one call, whose messages are built from the ranked snippets; the
   * reply is then 500 with the API's status and text when the API refused, 500 "Server error"
   * with the exception's message when the exchange threw, and otherwise 200 with the trimmed
   * answer and the number of snippets sent.
   */
  method Handle(req: Request, apiKey: Option<string>, upstream: Upstream) returns (reply: Reply, call: Option<Call>)
    ensures req.httpMethod != "POST" ==>
      reply == Reply(405, Plain(MethodNotAllowed))
    ensures req.httpMethod == "POST" && !HasKey(apiKey) ==>
      reply == Reply(500, Error(MissingKey))
    ensures req.httpMethod == "POST" && HasKey(apiKey) && req.body.Malformed? ==>
      reply == Reply(400, Error(InvalidJson))
    ensures req.httpMethod == "POST" && HasKey(apiKey) && !req.body.Malformed? &&
            Question(PayloadOf(req.body).value) == [] ==>
      reply == Reply(400, Error(MissingQuestion))
    ensures call.Some? <==> Admitted(req, apiKey)
    ensures call.Some? ==>
      call.value == Call("Bearer " + apiKey.value, PromptFor(PayloadOf(req.body).value))
    ensures call.Some? && upstream.Rejected? ==>
      reply == Reply(500, UpstreamError(RequestFailed, upstream.status, upstream.raw))
    ensures call.Some? && upstream.Accepted? ==>
      reply == Reply(200, Answer(Trim(upstream.content.GetOr("")), |Ranked(PayloadOf(req.body).value)|))
    ensures call.Some? && upstream.Threw? ==>
      reply == Reply(500, Crash(ServerError, upstream.message))
    ensures reply.body.Answer? ==> reply.body.matched <= MaxRanked
  {
    if req.httpMethod != "POST" {
      return Reply(405, Plain(MethodNotAllowed)), None;
    }
    if !HasKey(apiKey) {
      return Reply(500, Error(MissingKey)), None;
    }
    var payload := PayloadOf(req.body);
    if payload.None? {
      return Reply(400, Error(InvalidJson)), None;
    }
    var p := payload.value;
    var lang := Lang(p);
    var q := Question(p);
    if q == [] {
      return Reply(400, Error(MissingQuestion)), None;
    }

    var snippets := CollectSnippets(p.content.GetOr(map[]), lang, p.suite);
    var words := QueryWords(q);
    var scored := ScoreSnippets(words, snippets);
    var ranked := RankScored(scored);
    var context := ContextText(ranked);
    var prompt := BuildPrompt(lang, q, context);
    call := Some(Call("Bearer " + apiKey.value, prompt));

    match upstream
    case Rejected(status, raw) =>
      reply := Reply(500, UpstreamError(RequestFailed, status, raw));
    case Accepted(content) =>
      reply := Reply(200, Answer(Trim(content.GetOr("")), |ranked|));
    case Threw(message) =>
      reply := Reply(500, Crash(ServerError, message));
  }
}
