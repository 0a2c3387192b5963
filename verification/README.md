# Streamlit OpenAI chat client — Dafny model

The application is a single Streamlit page that sends the user's question to the
OpenAI chat-completions endpoint and shows the answer. Apart from UI calls, it holds
three pieces of logic, all in `app.py`, and this project models all three:

- **The credential gate and the blocking call** (`OpenAILLM._headers`, `OpenAILLM.chat`).
  Without an API key the call returns one error pair and sends nothing. With a key it
  sends one POST with a 60-second timeout. The response is then classified in a fixed
  order: a body that is not JSON, then an error status or an `error` key, then a
  missing `choices`, and only then the answer at `choices[0].message.content`.
- **The streaming generator** (`OpenAILLM.chat_stream`). It reads the Server-Sent-Events
  lines of a streaming response. It skips blank lines and strips one `data: ` prefix.
  It stops at `[DONE]`. It swallows any per-line failure. It yields the non-empty
  `choices[0].delta.content` strings in arrival order, each paired with an empty
  reference list.
- **The consuming loop on the page** (app.py:147-152). It appends each yielded text to
  a running string and shows every snapshot. It then marks the answer complete and
  joins the references into the second element.

Modules, one per concern:

| file | module | what it holds |
|---|---|---|
| `pyjson.dfy` | `PyJson` | decoded JSON values and the Python operations the client applies to them (`x[k]`, `x[0]`, `.get`, `in`, truthiness, `str`), each returning a value or the exception it raises |
| `strings.dfy` | `Strings` | concatenation, `join`, slicing, `startswith`, substring `in`, and `str.strip` with Python's white-space set |
| `client.dfy` | `Client` | the key, `_headers`, and the request each call sends |
| `sync.dfy` | `SyncChat` | `chat`: the response classifier and the reply it returns |
| `stream.dfy` | `StreamChat` | `chat_stream`: the per-line step, the fragment sequence, the generator loop |
| `aggregator.dfy` | `Aggregator` | the page's streaming loop and what it displays |

Abstractions:
- The network is a function parameter (`transport`). A call's run records the requests
  it sent, so "nothing is sent" means that list is empty.
- JSON decoding and UTF-8 decoding are parameters as well. For the blocking call they
  are the `body` field of `Response`; for the stream they are the `Codec` record.
- Python's `repr` of a non-string value is a `render` parameter.
- An exception raised while handling the decoded JSON, which `chat` does not catch,
  is an explicit outcome (`Crashed` in `SyncChat`). So is the `NameError` of the page's
  streaming branch (`Raised` in `Aggregator`). Neither is excluded by a precondition.
  Exceptions from the transport itself are not modelled; see "Left out".

## Model

| member | source | states |
|---|---|---|
| `Client.Headers` | app.py:22-28 | refuses exactly when the key is absent or empty, with a message that names `OPENAI_API_KEY`; otherwise sends the key as a bearer token with a JSON content type |
| `PyJson.Subscript` | app.py:52 | `x[key]` succeeds exactly on a dictionary holding the key, and gives that key's value |
| `PyJson.Index0` | app.py:52 | `x[0]` on a non-empty list is its first element; it succeeds only on lists and strings |
| `PyJson.Get` | app.py:46 | `.get` succeeds exactly on dictionaries; it gives a present key's value, and the default for a missing key |
| `PyJson.Truthy` | app.py:81 | among strings only the empty one is false, so the `""` default of a missing delta reads as no content |
| `PyJson.Contains` | app.py:45 | `in` is defined exactly on dictionaries, lists and strings, and on a dictionary tests the keys |
| `PyJson.Str` | app.py:47 | an f-string shows a string value as itself |
| `Strings.Take` | app.py:43 | `s[:n]` is a prefix of `s` of length `min(n, len(s))` |
| `Strings.TrimLeft` | app.py:77 | leading white space is cut, and only white space; the rest does not start with white space |
| `Strings.TrimRight` | app.py:77 | trailing white space is cut, and only white space; the rest does not end with white space |
| `Strings.StripPadded` | app.py:77 | stripping white-space padding from both sides gives back the padded text |
| `Strings.LeadingSpace` | app.py:77 | the count of leading characters cut is all white space and stops at the first non-space |
| `Strings.TrailingSpace` | app.py:77 | the count of trailing characters cut is all white space and stops at the last non-space |
| `Strings.Strip` | app.py:77 | `s.strip()` is no longer than `s`, has no white space at either end, and is empty exactly when `s` is all white space; `StripIsCore` characterises it completely |
| `Strings.TrimLeftPadding` | app.py:77 | white space before a text starting with a non-space is exactly what `lstrip` cuts |
| `Strings.TrimRightPadding` | app.py:77 | white space after a text ending with a non-space is exactly what `rstrip` cuts |
| `Strings.Join` | app.py:152 | `sep.join` of no parts is empty and of one part is that part |
| `Strings.JoinAppend` | app.py:152 | `sep.join` puts the separator between consecutive parts: joining one more part appends the separator and that part |
| `Strings.JoinEmptySeparator` | app.py:152 | joining with an empty separator is plain concatenation |
| `Strings.TrimmedEnds` | app.py:77 | what `lstrip` then `rstrip` leave is no longer than the input, has no white space at either end, and is empty exactly when the input is all white space |
| `Strings.StripIsCore` | app.py:77 | `s.strip()` equals a text with non-space ends exactly when `s` is that text padded with white space |
| `Client.CompletionRequest` | app.py:35-39 | the request carries the endpoint, the headers, the model and one user message; it streams when asked, and only the non-streaming request has the 60-second timeout |
| `SyncChat.ErrorFlagged` | app.py:45 | an error status flags the response without looking at the body; otherwise the flag is whether an object body has an `error` key, and `in` raises on a body that is not a container |
| `SyncChat.ErrorDetail` | app.py:46 | it succeeds exactly on an object body whose `error`, if present, is an object; it gives the error's `message` when there is one and the whole body otherwise |
| `SyncChat.Content` | app.py:52 | the lookup chain succeeds only on the success shape `ChoiceContentAt(data, "message", c)` and gives that shape's content; `ContentIff` states both directions |
| `SyncChat.Classify` | app.py:40-53 | a body that fails to decode, and only such a body, gives the non-JSON outcome; the classifier never gives the missing-key outcome |
| `SyncChat.Chat` | app.py:30-39 | nothing is sent exactly when the key is missing, and then the outcome is the missing-key one; at most one request is sent, with no retry |
| `SyncChat.ReplyOf` | app.py:30-53 | `chat` returns a pair unless an exception escapes; every pair has an empty reference list; every non-answer text is a string |
| `SyncChat.MissingKeyReply` | app.py:30-33 | without a key the reply is the missing-key message with no references, no request is sent, and the reply does not depend on the network |
| `SyncChat.KeyedChatSendsOne` | app.py:35-39 | with a key exactly one non-streaming POST of one user message goes to the endpoint with a 60-second timeout, and its response decides the outcome |
| `SyncChat.NonJsonReply` | app.py:40-43 | a body that is not JSON gives the warning prefix followed by the first `min(500, len(body))` characters of the body |
| `SyncChat.ErrorTakesPrecedence` | app.py:45-47 | on an object body, an error status or an `error` key rules out both the answer and the unexpected-shape outcome |
| `SyncChat.ApiErrorMessage` | app.py:45-47 | an `error` object with a `message` is shown as `API Error: ` plus that message, whatever the status |
| `SyncChat.ApiErrorWholeBody` | app.py:45-47 | a flagged object body whose `error` has no message (no `error` key under an error status, or an `error` object without `message`) is shown as `API Error: ` plus the whole body |
| `SyncChat.UnexpectedShape` | app.py:49-50 | a successful status on an object body with neither `error` nor `choices` is shown as `Unexpected response: ` plus the whole body |
| `SyncChat.ContentIff` | app.py:52 | the subscription chain finds content `c` exactly when the body has the success shape with content `c` |
| `SyncChat.AnswerIff` | app.py:45-53 | the answer is `c` exactly when the status is below 400 and the body is an object without `error` whose first choice's message content is `c` |
| `SyncChat.HandledNeverCrashes` | app.py:45-53 | an object body whose `error`, if present, is an object and whose `choices`, if present, lead to a content never makes `chat` raise |
| `SyncChat.HelloAnswer` | app.py:52-53 | a `choices[0].message.content` of `hello` with a successful status is answered `hello` with no references |
| `SyncChat.BadKeyError` | app.py:45-47 | an error message `bad key` is shown as `API Error: bad key` |
| `StreamChat.Payload` | app.py:75-76 | a line starting with `data: ` is that prefix followed by the payload; any other line is its own payload |
| `StreamChat.Delta` | app.py:80 | a chunk with a first-choice delta content gives that content; any other value it gives is the `""` default |
| `StreamChat.IsDone` | app.py:77 | a payload that strips to the marker is at least as long as the marker; `DoneIff` characterises it completely |
| `StreamChat.DataStep` | app.py:79-85 | a payload that is not the marker never ends the stream, and emits only non-empty text |
| `StreamChat.TextStep` | app.py:74-85 | a decoded line ends the stream exactly when its payload strips to `[DONE]` |
| `StreamChat.Step` | app.py:70-85 | a line is skipped as blank exactly when it is empty, and emits only non-empty text |
| `StreamChat.Collect` | app.py:70-83 | the loop yields at most one fragment per line |
| `StreamChat.CollectNonEmpty` | app.py:81-83 | when every emitting line carries non-empty text, every yielded fragment is non-empty |
| `StreamChat.Fragments` | app.py:69-85 | no yielded fragment is empty |
| `StreamChat.Drain` | app.py:69-83 | the loop yields the fragments before the first marker, in order, and its running `text` is always the concatenation of what it has yielded |
| `StreamChat.Generate` | app.py:68-85 | the generator over the response lines yields exactly `Fragments`, and its `text` is their concatenation |
| `StreamChat.CollectAppend` | app.py:70-83 | the fragments of two runs of lines are those of the first, followed by those of the second unless the first held the marker |
| `StreamChat.FragmentsAppend` | app.py:70-85 | the same decomposition, stated over raw lines |
| `StreamChat.FragmentsPrefixClosed` | app.py:70-83 | what has been yielded after any number of lines is a prefix of what the whole stream yields |
| `StreamChat.QuietLineSkipped` | app.py:71-85 | a blank line, a line without content, or a line whose decoding, parsing or lookup raised leaves the fragments as if it had never arrived |
| `StreamChat.BlankLineSkipped` | app.py:71-72 | an empty raw line neither emits nor ends the stream |
| `StreamChat.DoneEndsStream` | app.py:77-78 | nothing after the marker is ever yielded |
| `StreamChat.EmitInOrder` | app.py:80-83 | a content line before any marker yields its fragment after all earlier fragments and before all later ones |
| `StreamChat.DataEmitIff` | app.py:79-83 | a payload emits `f` exactly when it parses and its first choice's delta content is the non-empty string `f` |
| `StreamChat.EmitIff` | app.py:73-83 | a raw line emits `f` exactly when it decodes, is not the marker, parses, and carries the non-empty delta content `f` |
| `StreamChat.DoneIff` | app.py:73-78 | a raw line ends the stream exactly when it decodes to `[DONE]` padded with white space, after at most one `data: ` prefix |
| `StreamChat.PrefixRemovedOnce` | app.py:75-76 | the `data: ` prefix is removed once and not repeatedly |
| `StreamChat.DataDoneIsDone` | app.py:75-78 | the payload of `data: [DONE]` is the marker |
| `StreamChat.DataDoneLine` | app.py:73-78 | a raw line decoding to `data: [DONE]` ends the stream |
| `StreamChat.MarkerFirstYieldsNothing` | app.py:77-78 | a stream whose first line is the marker yields nothing |
| `StreamChat.TwoFragmentLines` | app.py:77-83 | lines emitting `f1`, then `f2`, then the marker yield exactly `f1` and `f2` |
| `StreamChat.Paired` | app.py:83 | each fragment is yielded unchanged, paired with an empty reference list |
| `StreamChat.ChatStream` | app.py:55-68 | nothing is sent exactly when the key is missing; at most one request is sent; every item has an empty reference list |
| `StreamChat.MissingKeyStream` | app.py:57-61 | without a key the generator yields only the missing-key message with no references, and sends nothing |
| `StreamChat.KeyedStreamSendsOne` | app.py:63-68 | with a key exactly one streaming request without a timeout is sent, and the items are the fragments of its response lines |
| `Aggregator.Fold` | app.py:147-150 | one in-progress answer update per item, and the text left is the concatenation of all item texts |
| `Aggregator.Consume` | app.py:147-152 | the final complete answer shows the concatenation of all item texts; the references are the last item's list joined; the page raises `NameError` exactly when nothing was yielded |
| `Aggregator.ConsumeFixed` | app.py:147-152 | the corrected loop always finishes and joins the references of every item |
| `Aggregator.FoldSnapshots` | app.py:147-150 | after the `i`-th item the answer shows the in-order concatenation of the first `i + 1` texts |
| `Aggregator.ConsumeSnapshots` | app.py:147-150 | each in-progress snapshot is the running concatenation, the same in the loop as written and in the corrected one |
| `Aggregator.SnapshotsGrow` | app.py:147-151 | each snapshot is a prefix of every later snapshot and of the complete answer |
| `Aggregator.StreamedAnswer` | app.py:139-152 | on the page as written, with a key, snapshot `i` is the concatenation of the first `i + 1` fragments of the response and the complete answer is all of them; the page finishes, with empty references, exactly when at least one fragment arrived |
| `Aggregator.TwoFragmentStream` | app.py:147-152 | lines emitting `A`, `B`, then the marker show `A`, then `AB`, then `AB` complete, and empty references |
| `Aggregator.MissingKeyDisplay` | app.py:147-152 | without a key the page shows the missing-key message in progress, then complete, with empty references, and does not raise |
| `Aggregator.SilentStreamRaises` | app.py:148-152 | a keyed stream that yields nothing shows an empty complete answer and then raises `NameError` |
| `Aggregator.SilentStreamFinishes` | app.py:147-152 | under the corrected loop the same stream finishes with an empty answer and empty references |
| `Aggregator.FixedAgrees` | app.py:147-152 | when every reference list is empty, the corrected loop shows exactly what the original shows whenever the original does not raise |

## Left out

- Streamlit UI and the chat-box widget (app.py:16, app.py:89-200): sidebar, sessions, feedback, media, export and import. These are third-party calls whose behaviour is not visible here. So the history JSON round-trip is not modelled.
- Network I/O: `requests.post`, `iter_lines`, timeouts as clock behaviour, and connection errors. The transport is a function parameter and always returns. A timeout or connection error is raised outside any `try`, in `chat` (app.py:39) and in `chat_stream` (app.py:68), and the page does not catch it. Neither escape is modelled.
- JSON and UTF-8 decoding: they are parameters (`Response.body`, `Codec`). A decode or parse failure is only a verdict value.
- Python `repr` of dictionaries, lists, numbers and `None` in the f-strings of app.py:47 and app.py:50: it is the `render` parameter.
- `print("Stream error:", e)` (app.py:85): the model records that a line was skipped with a fault (`Logged`), but not the printed text.
- The module-level key lookup from the environment or secrets (app.py:12): the key is an input (`Client.ApiKey`).
- `time.sleep` and the placeholder `"thinking"` message before streaming (app.py:140-146): these are UI only.
- The model name: `Chat` and `ChatStream` take it as a parameter. The page always calls them on `OpenAILLM()`, whose default is `gpt-4o-mini` (app.py:14, app.py:19, app.py:87). The model name only travels in the request, and no contract depends on it.
- `SyncChat.Classify`: its own contract states only the non-JSON case. The rest of the order is stated by the lemmas listed below it in the table: `ErrorTakesPrecedence`, `ApiErrorMessage`, `ApiErrorWholeBody`, `UnexpectedShape` and `AnswerIff`.
- The answer text of `chat` is the JSON value found at `choices[0].message.content`, which need not be a string. For example, the endpoint can send `null`. The model keeps it as a JSON value rather than assuming a string.

## Findings

| source | as written | input that shows it | evidently intended | confidence | as-written member | corrected member |
|---|---|---|---|---|---|---|
| app.py:152 | after the loop, `docs` is the loop variable of `for x, docs in generator`. Only the last item's references are joined, and when the generator yields nothing, `docs` is unbound and the page raises `NameError` | a keyed streaming call whose response has no content line. Examples: a stream whose only line is `data: [DONE]`, or a JSON error body sent in answer to a streaming request, whose lines all fail to parse | references gathered from every yielded item and joined at the end; an empty stream completes with an empty answer and empty references | high; not executed | `Aggregator.Consume`, `Aggregator.SilentStreamRaises` | `Aggregator.ConsumeFixed`, `Aggregator.SilentStreamFinishes` |
