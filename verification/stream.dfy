/** `OpenAILLM.chat_stream`: the streaming completion request and the Server-Sent-Events
    line loop that turns the response lines into text fragments. */
module StreamChat {
  import opened PyJson
  import Strings
  import Client

  const DataPrefix := "data: "
  const DoneMarker := "[DONE]"

  /** What UTF-8 decoding makes of a raw line. */
  datatype Decoding = NotUtf8 | Text(line: string)

  /** The library services the loop calls: `raw.decode("utf-8")` and `json.loads`. */
  datatype Codec = Codec(decode: seq<bv8> -> Decoding, parse: string -> Parse)

  /** Why a line was skipped with a diagnostic: the exception the loop caught. */
  datatype LineFault = BadUtf8 | BadJson | Python(exc: Exc)

  /** What one raw line does to the stream. `Silent` is a well-formed line whose delta
      content is absent or empty; `Logged` is a line whose processing raised. */
  datatype LineStep = Blank | Done | Emit(fragment: string) | Silent | Logged(fault: LineFault)

  /** `line[len("data: "):]` when the line starts with the prefix; the line otherwise. */
  function Payload(line: string): (p: string)
    ensures Strings.StartsWith(line, DataPrefix) ==> line == DataPrefix + p
    ensures !Strings.StartsWith(line, DataPrefix) ==> p == line
  {
    if Strings.StartsWith(line, DataPrefix) then line[|DataPrefix|..] else line
  }

  /** `data["choices"][0]["delta"].get("content", "")`: the delta content when the
      chunk has one, and otherwise the empty string or an exception. */
  function Delta(data: Json): (r: PyResult<Json>)
    ensures forall c :: ChoiceContentAt(data, "delta", c) ==> r == Ok(c)
    ensures r.Ok? && r.value != JStr("") ==> ChoiceContentAt(data, "delta", r.value)
  {
    var choices :- Subscript(data, "choices");
    var first :- Index0(choices);
    var delta :- Subscript(first, "delta");
    Get(delta, "content", JStr(""))
  }

  /** `line.strip() == "[DONE]"`: the payload is the terminal marker, so it is at least
      as long as the marker. */
  predicate IsDone(payload: string)
    ensures IsDone(payload) ==> |DoneMarker| <= |payload|
  {
    Strings.Strip(payload) == DoneMarker
  }

  /** What a payload that is not the marker does, given the decoder's verdict on it. */
  function DataStep(parsed: Parse): (s: LineStep)
    ensures !s.Blank? && !s.Done?
    ensures s.Emit? ==> |s.fragment| > 0
  {
    match parsed
    case Malformed => Logged(BadJson)
    case Parsed(data) =>
      match Delta(data)
      case Raise(e) => Logged(Python(e))
      case Ok(delta) =>
        if !Truthy(delta) then Silent
        else if delta.JStr? then Emit(delta.s)
        // `text += delta` with a non-string delta raises
        else Logged(Python(TypeError))
  }

  /** What a line that decoded to `line` does: the marker ends the stream, anything
      else is parsed as JSON. */
  function TextStep(parse: string -> Parse, line: string): (s: LineStep)
    ensures !s.Blank?
    ensures s.Done? <==> IsDone(Payload(line))
    ensures s.Emit? ==> |s.fragment| > 0
  {
    var payload := Payload(line);
    if IsDone(payload) then Done else DataStep(parse(payload))
  }

  /** The body of the `for raw in r.iter_lines()` loop for one line. */
  function Step(codec: Codec, raw: seq<bv8>): (s: LineStep)
    ensures s.Blank? <==> |raw| == 0
    ensures s.Emit? ==> |s.fragment| > 0
  {
    if |raw| == 0 then Blank
    else
      match codec.decode(raw)
      case NotUtf8 => Logged(BadUtf8)
      case Text(line) => TextStep(codec.parse, line)
  }

  /** Each line's effect, line by line. */
  function Steps(codec: Codec, lines: seq<seq<bv8>>): seq<LineStep> {
    seq(|lines|, i requires 0 <= i < |lines| => Step(codec, lines[i]))
  }

  /** The fragments the loop yields for a run of line effects: those emitted before the
      first terminal marker, in order, at most one per line. */
  function Collect(steps: seq<LineStep>): (frags: seq<string>)
    ensures |frags| <= |steps|
    decreases |steps|
  {
    if |steps| == 0 then []
    else
      match steps[0]
      case Done => []
      case Emit(f) => [f] + Collect(steps[1..])
      case _ => Collect(steps[1..])
  }

  /** Effects that only ever emit non-empty text collect into non-empty fragments. */
  lemma {:induction false} CollectNonEmpty(steps: seq<LineStep>)
    requires forall i :: 0 <= i < |steps| && steps[i].Emit? ==> |steps[i].fragment| > 0
    ensures forall i :: 0 <= i < |Collect(steps)| ==> |Collect(steps)[i]| > 0
    decreases |steps|
  {
    if |steps| > 0 {
      CollectNonEmpty(steps[1..]);
    }
  }

  /** The fragments `chat_stream` yields for the response lines; none is empty. */
  function Fragments(codec: Codec, lines: seq<seq<bv8>>): (frags: seq<string>)
    ensures forall i :: 0 <= i < |frags| ==> |frags[i]| > 0
  {
    CollectNonEmpty(Steps(codec, lines));
    Collect(Steps(codec, lines))
  }

  /** Some line of `lines` is the terminal marker. */
  predicate HasDone(codec: Codec, lines: seq<seq<bv8>>) {
    Done in Steps(codec, lines)
  }

  /** The `for` loop of the generator over the lines' effects, with its running
      `text`: it yields the fragments before the first marker, and `text` is always
      their concatenation. */
  method Drain(steps: seq<LineStep>) returns (yielded: seq<string>, text: string)
    ensures yielded == Collect(steps)
    ensures text == Strings.Concat(yielded)
  {
    yielded := [];
    text := "";
    var i := 0;
    while i < |steps|
      invariant 0 <= i <= |steps|
      invariant Collect(steps) == yielded + Collect(steps[i..])
      invariant text == Strings.Concat(yielded)
    {
      var step := steps[i];
      CollectFrom(steps, i);
      if step.Done? {
        break;
      }
      if step.Emit? {
        Strings.ConcatAppend(yielded, [step.fragment]);
        text := text + step.fragment;
        yielded := yielded + [step.fragment];
      }
      i := i + 1;
    }
  }

  /** The generator body over the response lines: it yields exactly `Fragments`. */
  method Generate(codec: Codec, lines: seq<seq<bv8>>) returns (yielded: seq<string>, text: string)
    ensures yielded == Fragments(codec, lines)
    ensures text == Strings.Concat(yielded)
  {
    yielded, text := Drain(Steps(codec, lines));
  }

  /** One more line of effects: the unfolding of `Collect` at position `i`. */
  lemma CollectFrom(steps: seq<LineStep>, i: nat)
    requires i < |steps|
    ensures Collect(steps[i..]) ==
      match steps[i]
      case Done => []
      case Emit(f) => [f] + Collect(steps[i + 1..])
      case _ => Collect(steps[i + 1..])
  {
    assert steps[i..][0] == steps[i];
    assert steps[i..][1..] == steps[i + 1..];
  }

  /** The effects of `a + b` are those of `a` followed by those of `b`. */
  lemma StepsAppend(codec: Codec, a: seq<seq<bv8>>, b: seq<seq<bv8>>)
    ensures Steps(codec, a + b) == Steps(codec, a) + Steps(codec, b)
  {
    var whole, parts := Steps(codec, a + b), Steps(codec, a) + Steps(codec, b);
    assert |whole| == |parts|;
    forall k | 0 <= k < |whole|
      ensures whole[k] == parts[k]
    {
      if k < |a| {
        assert (a + b)[k] == a[k];
      } else {
        assert (a + b)[k] == b[k - |a|];
      }
    }
  }

  /** Effects before and after: the fragments of `a + b` are those of `a`, followed by
      those of `b` unless `a` already held the terminal marker. */
  lemma {:induction false} CollectAppend(a: seq<LineStep>, b: seq<LineStep>)
    ensures Collect(a + b) == if Done in a then Collect(a) else Collect(a) + Collect(b)
    decreases |a|
  {
    if |a| == 0 {
      assert a + b == b;
    } else {
      assert (a + b)[0] == a[0];
      assert (a + b)[1..] == a[1..] + b;
      assert Done in a <==> a[0] == Done || Done in a[1..] by {
        assert a == [a[0]] + a[1..];
      }
      CollectAppend(a[1..], b);
    }
  }

  /** Lines before and after: the fragments of `a + b` are those of `a`, followed by
      those of `b` unless `a` already held the terminal marker. */
  lemma FragmentsAppend(codec: Codec, a: seq<seq<bv8>>, b: seq<seq<bv8>>)
    ensures Fragments(codec, a + b) ==
      if HasDone(codec, a) then Fragments(codec, a) else Fragments(codec, a) + Fragments(codec, b)
  {
    StepsAppend(codec, a, b);
    CollectAppend(Steps(codec, a), Steps(codec, b));
  }

  /** The generator is lazy and single-pass: what it has yielded after reading the first
      `k` lines is a prefix of what it yields over the whole stream. */
  lemma FragmentsPrefixClosed(codec: Codec, lines: seq<seq<bv8>>, k: nat)
    requires k <= |lines|
    ensures Fragments(codec, lines[..k]) <= Fragments(codec, lines)
  {
    assert lines == lines[..k] + lines[k..];
    FragmentsAppend(codec, lines[..k], lines[k..]);
  }

  /** The effects of `a + [x] + b`, split around `x`. */
  lemma StepsAround(codec: Codec, a: seq<seq<bv8>>, x: seq<bv8>, b: seq<seq<bv8>>)
    ensures Steps(codec, a + [x] + b) == Steps(codec, a) + ([Step(codec, x)] + Steps(codec, b))
  {
  }

  /** A line that emits nothing and is not the marker (a blank keep-alive line, a line
      without content, or one whose decoding, parsing or lookup raised) is skipped: the
      stream goes on and the fragments are as if the line had never arrived. */
  lemma QuietLineSkipped(codec: Codec, a: seq<seq<bv8>>, x: seq<bv8>, b: seq<seq<bv8>>)
    requires Step(codec, x).Blank? || Step(codec, x).Silent? || Step(codec, x).Logged?
    ensures Fragments(codec, a + [x] + b) == Fragments(codec, a + b)
  {
    var sa, sx, sb := Steps(codec, a), Step(codec, x), Steps(codec, b);
    StepsAround(codec, a, x, b);
    StepsAppend(codec, a, b);
    CollectAppend(sa, [sx] + sb);
    CollectAppend(sa, sb);
    assert ([sx] + sb)[1..] == sb;
  }

  /** Blank lines in particular never emit and never end the stream. */
  lemma BlankLineSkipped(codec: Codec, a: seq<seq<bv8>>, b: seq<seq<bv8>>)
    ensures Fragments(codec, a + [[]] + b) == Fragments(codec, a + b)
  {
    QuietLineSkipped(codec, a, [], b);
  }

  /** The terminal marker ends the stream: nothing after it is ever yielded. */
  lemma DoneEndsStream(codec: Codec, a: seq<seq<bv8>>, x: seq<bv8>, b: seq<seq<bv8>>)
    requires Step(codec, x).Done?
    ensures Fragments(codec, a + [x] + b) == Fragments(codec, a)
  {
    var sa, sx, sb := Steps(codec, a), Step(codec, x), Steps(codec, b);
    StepsAround(codec, a, x, b);
    CollectAppend(sa, [sx] + sb);
  }

  /** A content line before any marker yields its fragment after everything earlier and
      before everything later. */
  lemma EmitInOrder(codec: Codec, a: seq<seq<bv8>>, x: seq<bv8>, b: seq<seq<bv8>>)
    requires Step(codec, x).Emit? && !HasDone(codec, a)
    ensures Fragments(codec, a + [x] + b) ==
      Fragments(codec, a) + [Step(codec, x).fragment] + Fragments(codec, b)
  {
    var sa, sx, sb := Steps(codec, a), Step(codec, x), Steps(codec, b);
    StepsAround(codec, a, x, b);
    CollectAppend(sa, [sx] + sb);
    assert ([sx] + sb)[1..] == sb;
  }

  /** A payload emits `f` exactly when it parses and carries the non-empty string `f`
      as its first choice's delta content. */
  lemma DataEmitIff(parsed: Parse, f: string)
    ensures DataStep(parsed) == Emit(f) <==>
      parsed.Parsed? && ChoiceContentAt(parsed.value, "delta", JStr(f)) && |f| > 0
  {
  }

  /** A line emits `f` exactly when it decodes, is not the marker, parses, and carries
      the non-empty string `f` as its first choice's delta content. */
  lemma EmitIff(codec: Codec, raw: seq<bv8>, f: string)
    ensures Step(codec, raw) == Emit(f) <==>
      && |raw| > 0
      && codec.decode(raw).Text?
      && !IsDone(Payload(codec.decode(raw).line))
      && codec.parse(Payload(codec.decode(raw).line)).Parsed?
      && ChoiceContentAt(codec.parse(Payload(codec.decode(raw).line)).value, "delta", JStr(f))
      && |f| > 0
  {
    if |raw| > 0 && codec.decode(raw).Text? {
      var payload := Payload(codec.decode(raw).line);
      DataEmitIff(codec.parse(payload), f);
    }
  }

  /** A line is the terminal marker exactly when it decodes to `[DONE]`, after at most
      one `data: ` prefix, with only white space around it. */
  lemma DoneIff(codec: Codec, raw: seq<bv8>)
    ensures Step(codec, raw).Done? <==>
      && |raw| > 0
      && codec.decode(raw).Text?
      && exists i, j :: Strings.PaddedAt(Payload(codec.decode(raw).line), DoneMarker, i, j)
  {
    if |raw| > 0 && codec.decode(raw).Text? {
      Strings.StripIsCore(Payload(codec.decode(raw).line), DoneMarker);
    }
  }

  /** The `data: ` prefix is removed once, not repeatedly. */
  lemma PrefixRemovedOnce(rest: string)
    ensures Payload(DataPrefix + rest) == rest
    ensures Payload(DataPrefix + DataPrefix + rest) == DataPrefix + rest
  {
    assert (DataPrefix + rest)[..|DataPrefix|] == DataPrefix;
    assert (DataPrefix + DataPrefix + rest)[..|DataPrefix|] == DataPrefix;
    assert (DataPrefix + DataPrefix + rest)[|DataPrefix|..] == DataPrefix + rest;
  }

  /** `data: [DONE]` is the terminal marker. */
  lemma DataDoneIsDone()
    ensures IsDone(Payload(DataPrefix + DoneMarker))
  {
    PrefixRemovedOnce(DoneMarker);
    assert DoneMarker[0] == '[' && DoneMarker[|DoneMarker| - 1] == ']';
    assert "" + DoneMarker + "" == DoneMarker;
    Strings.StripPadded("", DoneMarker, "");
  }

  /** A line that decodes to `data: [DONE]` is the terminal marker. */
  lemma DataDoneLine(codec: Codec, line: seq<bv8>)
    requires |line| > 0 && codec.decode(line) == Text(DataPrefix + DoneMarker)
    ensures Step(codec, line) == Done
  {
    DataDoneIsDone();
  }

  /** A stream whose first line is the marker yields nothing at all. */
  lemma MarkerFirstYieldsNothing(codec: Codec, line: seq<bv8>, rest: seq<seq<bv8>>)
    requires Step(codec, line).Done?
    ensures Fragments(codec, [line] + rest) == []
  {
    var steps := Steps(codec, [line] + rest);
    assert steps[0] == Done;
  }

  /** Lines emitting `f1`, then `f2`, then the marker yield `f1` and `f2`, whatever
      follows. */
  lemma TwoFragmentLines(f1: string, f2: string, more: seq<LineStep>)
    ensures Collect([Emit(f1), Emit(f2), Done] + more) == [f1, f2]
  {
    var steps := [Emit(f1), Emit(f2), Done] + more;
    assert steps[1..] == [Emit(f2), Done] + more;
    assert steps[1..][1..] == [Done] + more;
    assert Collect([Done] + more) == [];
    assert Collect([Emit(f2), Done] + more) == [f2];
  }

  /** One item `chat_stream` yields: a text and its reference list. */
  datatype Yield = Yield(text: string, docs: seq<string>)

  /** A `chat_stream` call run to exhaustion: the items yielded and the requests sent. */
  datatype StreamRun = StreamRun(items: seq<Yield>, sent: seq<Client.Request>)

  /** The texts of the yielded items, in order. */
  function Texts(ys: seq<Yield>): seq<string> {
    seq(|ys|, i requires 0 <= i < |ys| => ys[i].text)
  }

  /** Each fragment paired with an empty reference list. */
  function Paired(frags: seq<string>): (ys: seq<Yield>)
    ensures Texts(ys) == frags
    ensures forall i :: 0 <= i < |ys| ==> ys[i].docs == []
  {
    seq(|frags|, i requires 0 <= i < |frags| => Yield(frags[i], []))
  }

  /** `chat_stream(query)` consumed to the end: without a key, one error item and no
      request; otherwise one streaming request whose response lines are turned into
      fragments. Every item carries an empty reference list. */
  function ChatStream(key: Client.ApiKey, model: string, query: string,
                      transport: Client.Request -> seq<seq<bv8>>, codec: Codec): (run: StreamRun)
    ensures run.sent == [] <==> Client.Missing(key)
    ensures |run.sent| <= 1
    ensures forall i :: 0 <= i < |run.items| ==> run.items[i].docs == []
  {
    match Client.Headers(key)
    case Refused(message) => StreamRun([Yield(message, [])], [])
    case Authorized(headers) =>
      var req := Client.CompletionRequest(headers, model, query, true);
      StreamRun(Paired(Fragments(codec, transport(req))), [req])
  }

  /** Without a key the stream is the single missing-key item, and nothing is sent. */
  lemma MissingKeyStream(key: Client.ApiKey, model: string, query: string,
                         transport: Client.Request -> seq<seq<bv8>>, codec: Codec)
    requires Client.Missing(key)
    ensures ChatStream(key, model, query, transport, codec)
            == StreamRun([Yield(Client.MissingKeyMessage, [])], [])
  {
  }

  /** With a key, the one request sent asks for a stream, sets no timeout, and the items
      yielded are the fragments of its response lines. */
  lemma KeyedStreamSendsOne(key: Client.ApiKey, model: string, query: string,
                            transport: Client.Request -> seq<seq<bv8>>, codec: Codec)
    requires !Client.Missing(key)
    ensures var run := ChatStream(key, model, query, transport, codec);
      && |run.sent| == 1
      && run.sent[0].stream
      && run.sent[0].timeout == Client.NoTimeout
      && run.sent[0].messages == [Client.Message("user", query)]
      && Texts(run.items) == Fragments(codec, transport(run.sent[0]))
  {
  }
}
