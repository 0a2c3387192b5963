/** `OpenAILLM.chat`: one blocking completion request, and the classification of its
    response into an answer or one of the error texts the chat window shows. */
module SyncChat {
  import opened PyJson
  import Strings
  import Client

  const NonJsonPrefix := "\U{26A0}\U{FE0F} Non-JSON response: "
  const ApiErrorPrefix := "API Error: "
  const UnexpectedPrefix := "Unexpected response: "
  /** How much of a non-JSON body the error text quotes. */
  const PreviewLength := 500

  /** What the HTTP library hands back: the status code, the body text, and the JSON
      decoder's verdict on that body (`resp.json()`). */
  datatype Response = Response(status: int, text: string, body: Parse)

  /** Every way `chat` can end, in the order it checks for them. `Crashed` is an
      exception the method does not catch. */
  datatype Outcome =
    | NoKey(message: string)
    | NonJson(preview: string)
    | ApiError(detail: Json)
    | Unexpected(data: Json)
    | Answer(content: Json)
    | Crashed(exc: Exc)

  /** The `(text, docs)` pair `chat` returns. The text is the answer's JSON content as
      found in the body, or an error string. */
  datatype Reply = Reply(text: Json, docs: seq<string>)

  /** `resp.status_code >= 400 or "error" in data`, with Python's short circuit: an
      error status decides it without looking at the body, and otherwise `in` raises
      on a body that is not a container. */
  function ErrorFlagged(status: int, data: Json): (r: PyResult<bool>)
    ensures status >= 400 ==> r == Ok(true)
    ensures r.Ok? <==> status >= 400 || data.JObj? || data.JArr? || data.JStr?
    ensures status < 400 && data.JObj? ==> r == Ok("error" in data.fields)
  {
    if status >= 400 then Ok(true) else Contains(data, "error")
  }

  /** `data.get("error", {}).get("message", data)`: the error's message, or the whole
      body when there is none; it raises unless the body is an object whose `error`, if
      any, is an object. */
  function ErrorDetail(data: Json): (r: PyResult<Json>)
    ensures r.Ok? <==> data.JObj? && ("error" in data.fields ==> data.fields["error"].JObj?)
    ensures r.Ok? && "error" in data.fields && "message" in data.fields["error"].fields ==>
      r.value == data.fields["error"].fields["message"]
    ensures r.Ok? && ("error" !in data.fields || "message" !in data.fields["error"].fields) ==>
      r.value == data
  {
    var err :- Get(data, "error", JObj(map[]));
    Get(err, "message", data)
  }

  /** `data["choices"][0]["message"]["content"]`: it succeeds exactly on the success
      shape, with that shape's content. */
  function Content(data: Json): (r: PyResult<Json>)
    ensures r.Ok? ==> ChoiceContentAt(data, "message", r.value)
    ensures forall c :: ChoiceContentAt(data, "message", c) ==> r == Ok(c)
  {
    var choices :- Subscript(data, "choices");
    var first :- Index0(choices);
    var message :- Subscript(first, "message");
    Subscript(message, "content")
  }

  /** The body shapes `chat` handles without raising: an object whose `error`, if
      present, is an object, and whose `choices`, if present, lead to a content. */
  ghost predicate Handled(data: Json) {
    && data.JObj?
    && ("error" in data.fields ==> data.fields["error"].JObj?)
    && ("choices" in data.fields ==> exists c :: ChoiceContentAt(data, "message", c))
  }

  /** The classification after the POST: a non-JSON body first, then an error status or
      an `error` key, then a missing `choices`, and only then the content. */
  function Classify(resp: Response): (o: Outcome)
    ensures !o.NoKey?
    ensures o.NonJson? <==> resp.body.Malformed?
  {
    match resp.body
    case Malformed => NonJson(Strings.Take(resp.text, PreviewLength))
    case Parsed(data) =>
      match ErrorFlagged(resp.status, data)
      case Raise(e) => Crashed(e)
      case Ok(flagged) =>
        if flagged then
          match ErrorDetail(data)
          case Ok(detail) => ApiError(detail)
          case Raise(e) => Crashed(e)
        else
          match Contains(data, "choices")
          case Raise(e) => Crashed(e)
          case Ok(hasChoices) =>
            if !hasChoices then Unexpected(data)
            else
              match Content(data)
              case Ok(c) => Answer(c)
              case Raise(e) => Crashed(e)
  }

  /** A `chat` call: what it ended with and the requests it put on the wire. */
  datatype Run = Run(outcome: Outcome, sent: seq<Client.Request>)

  /** `chat(query)`: without a key nothing is sent; otherwise exactly one request is,
      and its response decides the outcome. */
  function Chat(key: Client.ApiKey, model: string, query: string,
                transport: Client.Request -> Response): (run: Run)
    ensures run.sent == [] <==> Client.Missing(key)
    ensures run.outcome.NoKey? <==> Client.Missing(key)
    ensures |run.sent| <= 1
  {
    match Client.Headers(key)
    case Refused(message) => Run(NoKey(message), [])
    case Authorized(headers) =>
      var req := Client.CompletionRequest(headers, model, query, false);
      Run(Classify(transport(req)), [req])
  }

  /** The value `chat` returns, or the exception it raises. Every returned pair carries
      an empty reference list, and only an uncaught exception yields no pair. */
  function ReplyOf(o: Outcome, render: Json -> string): (r: PyResult<Reply>)
    ensures r.Ok? <==> !o.Crashed?
    ensures r.Ok? ==> r.value.docs == []
    ensures r.Ok? && !o.Answer? ==> r.value.text.JStr?
  {
    match o
    case NoKey(message) => Ok(Reply(JStr(message), []))
    case NonJson(preview) => Ok(Reply(JStr(NonJsonPrefix + preview), []))
    case ApiError(detail) => Ok(Reply(JStr(ApiErrorPrefix + Str(detail, render)), []))
    case Unexpected(data) => Ok(Reply(JStr(UnexpectedPrefix + Str(data, render)), []))
    case Answer(content) => Ok(Reply(content, []))
    case Crashed(e) => Raise(e)
  }

  /** Without a key `chat` returns the one error pair naming the missing variable, sends
      nothing, and so gives the same reply whatever the network would have done. */
  lemma MissingKeyReply(key: Client.ApiKey, model: string, query: string,
                        t1: Client.Request -> Response, t2: Client.Request -> Response,
                        render: Json -> string)
    requires Client.Missing(key)
    ensures Chat(key, model, query, t1).sent == []
    ensures Chat(key, model, query, t1) == Chat(key, model, query, t2)
    ensures ReplyOf(Chat(key, model, query, t1).outcome, render)
            == Ok(Reply(JStr(Client.MissingKeyMessage), []))
    ensures Strings.IsInfix("OPENAI_API_KEY", Client.MissingKeyMessage)
  {
    var g := Client.Headers(key);
  }

  /** With a key, the one request sent is a non-streaming user-message POST with the
      60-second timeout, and its response alone decides the outcome. */
  lemma KeyedChatSendsOne(key: Client.ApiKey, model: string, query: string,
                          transport: Client.Request -> Response)
    requires !Client.Missing(key)
    ensures var run := Chat(key, model, query, transport);
      && |run.sent| == 1
      && run.sent[0].url == Client.OpenAiUrl
      && run.sent[0].messages == [Client.Message("user", query)]
      && !run.sent[0].stream
      && run.sent[0].timeout == Client.Seconds(60)
      && run.outcome == Classify(transport(run.sent[0]))
  {
  }

  /** A body that does not decode as JSON is quoted, up to its first 500 characters,
      after the warning prefix. */
  lemma NonJsonReply(resp: Response, render: Json -> string)
    requires resp.body.Malformed?
    ensures var n := if |resp.text| <= 500 then |resp.text| else 500;
      ReplyOf(Classify(resp), render) == Ok(Reply(JStr(NonJsonPrefix + resp.text[..n]), []))
  {
    assert resp.text[..|resp.text|] == resp.text;
  }

  /** An error status or an `error` key takes precedence over everything in the rest of
      the body: such a response is never answered and never reported as mis-shaped. */
  lemma ErrorTakesPrecedence(resp: Response)
    requires resp.body.Parsed? && resp.body.value.JObj?
    requires resp.status >= 400 || "error" in resp.body.value.fields
    ensures Classify(resp).ApiError? || Classify(resp).Crashed?
  {
  }

  /** An `error` object carrying a `message` is reported as that message, whatever the
      status code and whatever else the body holds. */
  lemma ApiErrorMessage(resp: Response, render: Json -> string)
    requires resp.body.Parsed? && resp.body.value.JObj?
    requires "error" in resp.body.value.fields
    requires resp.body.value.fields["error"].JObj?
    requires "message" in resp.body.value.fields["error"].fields
    ensures var m := resp.body.value.fields["error"].fields["message"];
      ReplyOf(Classify(resp), render) == Ok(Reply(JStr(ApiErrorPrefix + Str(m, render)), []))
  {
  }

  /** A flagged object body whose `error` carries no message (there is no `error` key and
      the status is an error one, or `error` is an object without `message`) is reported
      with the whole body. */
  lemma ApiErrorWholeBody(resp: Response, render: Json -> string)
    requires resp.body.Parsed? && resp.body.value.JObj?
    requires resp.status >= 400 || "error" in resp.body.value.fields
    requires "error" !in resp.body.value.fields
      || (resp.body.value.fields["error"].JObj? && "message" !in resp.body.value.fields["error"].fields)
    ensures Classify(resp) == ApiError(resp.body.value)
    ensures ReplyOf(Classify(resp), render)
            == Ok(Reply(JStr(ApiErrorPrefix + Str(resp.body.value, render)), []))
  {
  }

  /** A successful status on an object body with neither `error` nor `choices` is an
      unexpected shape, reported with the whole body. */
  lemma UnexpectedShape(resp: Response, render: Json -> string)
    requires resp.body.Parsed? && resp.body.value.JObj?
    requires resp.status < 400
    requires "error" !in resp.body.value.fields && "choices" !in resp.body.value.fields
    ensures Classify(resp) == Unexpected(resp.body.value)
    ensures ReplyOf(Classify(resp), render)
            == Ok(Reply(JStr(UnexpectedPrefix + Str(resp.body.value, render)), []))
  {
  }

  /** The Python subscription chain finds `c` exactly when the body has the promised
      success shape with content `c`. */
  lemma ContentIff(data: Json, c: Json)
    ensures Content(data) == Ok(c) <==> ChoiceContentAt(data, "message", c)
  {
  }

  /** `chat` answers with `c` exactly when the status is below 400 and the body is an
      object without `error` whose first choice's message content is `c`. */
  lemma AnswerIff(resp: Response, c: Json)
    ensures Classify(resp) == Answer(c) <==>
      && resp.status < 400
      && resp.body.Parsed?
      && resp.body.value.JObj?
      && "error" !in resp.body.value.fields
      && ChoiceContentAt(resp.body.value, "message", c)
  {
    if resp.body.Parsed? {
      ContentIff(resp.body.value, c);
      if Classify(resp) == Answer(c) {
        var data := resp.body.value;
        assert Content(data) == Ok(c);
      }
    }
  }

  /** A decoded body of the handled shapes never makes `chat` raise; only the shapes
      `chat` does not guard against escape as exceptions. */
  lemma HandledNeverCrashes(resp: Response)
    requires resp.body.Parsed? && Handled(resp.body.value)
    ensures !Classify(resp).Crashed?
  {
    var data := resp.body.value;
    if "choices" in data.fields {
      var c :| ChoiceContentAt(data, "message", c);
      ContentIff(data, c);
    }
  }

  /** `{"choices":[{"message":{"content":"hello"}}]}` with a successful status is
      answered with `hello` and no references. */
  lemma HelloAnswer(status: int, text: string, render: Json -> string)
    requires status < 400
    ensures var body := JObj(map["choices" := JArr([JObj(map["message" := JObj(map["content" := JStr("hello")])])])]);
      ReplyOf(Classify(Response(status, text, Parsed(body))), render) == Ok(Reply(JStr("hello"), []))
  {
  }

  /** `{"error":{"message":"bad key"}}` reads `API Error: bad key`, whatever the status. */
  lemma BadKeyError(status: int, text: string, render: Json -> string)
    ensures var body := JObj(map["error" := JObj(map["message" := JStr("bad key")])]);
      ReplyOf(Classify(Response(status, text, Parsed(body))), render)
        == Ok(Reply(JStr("API Error: bad key"), []))
  {
    assert ApiErrorPrefix + "bad key" == "API Error: bad key";
  }
}
