/** The request side of `OpenAILLM`: the credential gate (`_headers`) and the request
    each completion call would send. */
module Client {
  import Strings

  const OpenAiUrl := "https://api.openai.com/v1/chat/completions"
  const KeyName := "OPENAI_API_KEY"
  const MissingKeyMessage := "Missing " + KeyName + " (set it in Environment or st.secrets)."
  /** Seconds the blocking call waits; the streaming call sets no timeout. */
  const SyncTimeout := 60

  /** The process-wide credential as resolved at start-up. */
  datatype ApiKey = NoKey | Key(token: string)

  /** Python's `not OPENAI_API_KEY`: the key is absent or the empty string. */
  predicate Missing(key: ApiKey) {
    key.NoKey? || key.token == ""
  }

  type Header = (string, string)

  /** The pair `_headers` returns: headers to send, or an error message and no headers. */
  datatype Gate = Authorized(headers: seq<Header>) | Refused(message: string)

  datatype Message = Message(role: string, content: string)

  /** One POST to the completion endpoint. `stream` false means the payload carries no
      `stream` field; `timeout` is absent when the call sets none. */
  datatype Request = Request(
    url: string,
    headers: seq<Header>,
    model: string,
    messages: seq<Message>,
    stream: bool,
    timeout: PyTimeout)

  datatype PyTimeout = NoTimeout | Seconds(n: nat)

  /** `_headers`: refuses exactly when the key is missing, with a message naming the
      variable to set; otherwise sends the key as a bearer token. */
  function Headers(key: ApiKey): (g: Gate)
    ensures g.Refused? <==> Missing(key)
    ensures g.Refused? ==> Strings.IsInfix("OPENAI_API_KEY", g.message)
    ensures g.Authorized? ==>
      && ("Authorization", "Bearer " + key.token) in g.headers
      && ("Content-Type", "application/json") in g.headers
  {
    if Missing(key) then
      assert MissingKeyMessage[8..][..|KeyName|] == KeyName;
      Strings.InfixAt("OPENAI_API_KEY", MissingKeyMessage, 8);
      Refused(MissingKeyMessage)
    else
      Authorized([("Authorization", "Bearer " + key.token), ("Content-Type", "application/json")])
  }

  /** The request `chat` (stream false) or `chat_stream` (stream true) sends for `query`:
      one user message, the streaming call without a timeout. */
  function CompletionRequest(headers: seq<Header>, model: string, query: string, stream: bool): (r: Request)
    ensures r.url == OpenAiUrl && r.headers == headers && r.model == model
    ensures r.messages == [Message("user", query)] && r.stream == stream
    ensures r.timeout == NoTimeout <==> stream
    ensures r.timeout.Seconds? ==> r.timeout.n == SyncTimeout
  {
    Request(OpenAiUrl, headers, model, [Message("user", query)], stream,
            if stream then NoTimeout else Seconds(SyncTimeout))
  }
}
