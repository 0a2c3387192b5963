/** The page's streaming branch: it folds the items `chat_stream` yields into the text
    shown in the answer element, then marks the answer and the references complete. */
module Aggregator {
  import Strings
  import Client
  import opened PyJson
  import opened StreamChat

  /** The `streaming=True` update or the final `state="complete"` one. */
  datatype UpdateState = Streaming | Complete

  /** One `chat_box.update_msg(text, element_index=element, ...)` call. Element 0 is the
      answer, element 1 the references. */
  datatype Update = Update(element: nat, text: string, state: UpdateState)

  /** How the streaming branch ends: normally, or with an exception. */
  datatype Ending = Finished | Raised(exc: Exc)

  /** Everything the branch shows, and how it ends. */
  datatype Display = Display(updates: seq<Update>, ending: Ending)

  const ReferenceSeparator := "\n\n"

  /** The `for x, docs in generator: text += x; update_msg(text, streaming=True)` loop
      from an accumulated `text`: one answer update per item, and the text it leaves. */
  function Fold(text: string, ys: seq<Yield>): (r: (string, seq<Update>))
    ensures r.0 == text + Strings.Concat(Texts(ys))
    ensures |r.1| == |ys|
    ensures forall i :: 0 <= i < |ys| ==> r.1[i].element == 0 && r.1[i].state == Streaming
    decreases |ys|
  {
    if |ys| == 0 then (text, [])
    else
      var next := text + ys[0].text;
      var rest := Fold(next, ys[1..]);
      assert Texts(ys) == [ys[0].text] + Texts(ys[1..]);
      (rest.0, [Update(0, next, Streaming)] + rest.1)
  }

  /** The streaming branch as written: after the loop the final text is shown as
      complete, then the last item's `docs` (the loop variable) is joined into the
      references. When nothing was yielded, `docs` was never bound and the page raises. */
  function Consume(ys: seq<Yield>): (d: Display)
    ensures d.ending == Finished <==> |ys| > 0
    ensures d.ending.Raised? ==> d.ending.exc == NameError
    ensures |d.updates| == |ys| + (if |ys| == 0 then 1 else 2)
    ensures d.updates[|ys|] == Update(0, Strings.Concat(Texts(ys)), Complete)
    ensures |ys| > 0 ==>
      d.updates[|ys| + 1] == Update(1, Strings.Join(ReferenceSeparator, ys[|ys| - 1].docs), Complete)
  {
    var (text, streamed) := Fold("", ys);
    var answered := streamed + [Update(0, text, Complete)];
    if |ys| == 0 then Display(answered, Raised(NameError))
    else Display(answered + [Update(1, Strings.Join(ReferenceSeparator, ys[|ys| - 1].docs), Complete)], Finished)
  }

  /** All reference lists, in order. */
  function AllDocs(ys: seq<Yield>): (docs: seq<string>)
    ensures (forall i :: 0 <= i < |ys| ==> ys[i].docs == []) ==> docs == []
    decreases |ys|
  {
    if |ys| == 0 then [] else ys[0].docs + AllDocs(ys[1..])
  }

  /** The streaming branch with the references gathered from every item rather than
      read from the leaked loop variable: it never raises, and with no items it shows
      an empty answer and empty references. */
  function ConsumeFixed(ys: seq<Yield>): (d: Display)
    ensures d.ending == Finished
    ensures |d.updates| == |ys| + 2
    ensures d.updates[|ys|] == Update(0, Strings.Concat(Texts(ys)), Complete)
    ensures d.updates[|ys| + 1] == Update(1, Strings.Join(ReferenceSeparator, AllDocs(ys)), Complete)
  {
    var (text, streamed) := Fold("", ys);
    Display(streamed + [Update(0, text, Complete), Update(1, Strings.Join(ReferenceSeparator, AllDocs(ys)), Complete)], Finished)
  }

  /** After the `i`-th item the answer shows the concatenation, in order, of the texts of
      the items so far. */
  lemma {:induction false} FoldSnapshots(text: string, ys: seq<Yield>, i: nat)
    requires i < |ys|
    ensures Fold(text, ys).1[i] == Update(0, text + Strings.Concat(Texts(ys)[..i + 1]), Streaming)
    decreases |ys|
  {
    var ts := Texts(ys);
    assert ts[..i + 1] == [ys[0].text] + Texts(ys[1..])[..i] by {
      assert Texts(ys) == [ys[0].text] + Texts(ys[1..]);
    }
    if i > 0 {
      FoldSnapshots(text + ys[0].text, ys[1..], i - 1);
      assert Texts(ys[1..])[..i] == Texts(ys[1..])[..(i - 1) + 1];
    } else {
      assert Texts(ys[1..])[..0] == [];
    }
  }

  /** Every in-progress snapshot is the running concatenation of the item texts, in the
      branch as written and in the corrected one alike. */
  lemma ConsumeSnapshots(ys: seq<Yield>, i: nat)
    requires i < |ys|
    ensures Consume(ys).updates[i] == Update(0, Strings.Concat(Texts(ys)[..i + 1]), Streaming)
    ensures ConsumeFixed(ys).updates[i] == Consume(ys).updates[i]
  {
    FoldSnapshots("", ys, i);
  }

  /** Each snapshot is a prefix of every later one and of the final complete text: the
      displayed answer only grows. */
  lemma SnapshotsGrow(ys: seq<Yield>, i: nat, j: nat)
    requires i <= j < |ys|
    ensures Consume(ys).updates[i].text <= Consume(ys).updates[j].text
    ensures Consume(ys).updates[i].text <= Consume(ys).updates[|ys|].text
  {
    ConsumeSnapshots(ys, i);
    ConsumeSnapshots(ys, j);
    Strings.ConcatPrefix(Texts(ys), i + 1, j + 1);
    Strings.ConcatPrefix(Texts(ys), i + 1, |ys|);
    assert Texts(ys)[..|ys|] == Texts(ys);
  }

  /** Streaming a response end to end on the page as written: with a key, the `i`-th
      answer snapshot is the concatenation of the first `i + 1` fragments of the response
      lines and the complete answer is all of them; the page finishes, with empty
      references, exactly when at least one fragment arrived. */
  lemma StreamedAnswer(key: Client.ApiKey, model: string, query: string,
                       transport: Client.Request -> seq<seq<bv8>>, codec: Codec, i: nat)
    requires !Client.Missing(key)
    ensures var run := ChatStream(key, model, query, transport, codec);
      var frags := Fragments(codec, transport(run.sent[0]));
      var d := Consume(run.items);
      && (i < |frags| ==> d.updates[i] == Update(0, Strings.Concat(frags[..i + 1]), Streaming))
      && d.updates[|frags|] == Update(0, Strings.Concat(frags), Complete)
      && (d.ending == Finished <==> |frags| > 0)
      && (|frags| > 0 ==> d.updates[|frags| + 1] == Update(1, "", Complete))
  {
    var run := ChatStream(key, model, query, transport, codec);
    KeyedStreamSendsOne(key, model, query, transport, codec);
    if i < |run.items| {
      ConsumeSnapshots(run.items, i);
    }
  }

  /** The two-fragment stream: lines emitting `A`, then `B`, then the marker show `A`,
      then `AB`, then `AB` complete, and nothing after the marker. */
  lemma TwoFragmentStream(more: seq<LineStep>)
    ensures Consume(Paired(Collect([Emit("A"), Emit("B"), Done] + more))) == Display(
      [ Update(0, "A", Streaming),
        Update(0, "AB", Streaming),
        Update(0, "AB", Complete),
        Update(1, "", Complete) ],
      Finished)
  {
    TwoFragmentLines("A", "B", more);
    var frags := Collect([Emit("A"), Emit("B"), Done] + more);
    var ys := Paired(frags);
    ConsumeSnapshots(ys, 0);
    ConsumeSnapshots(ys, 1);
    assert Texts(ys)[..1] == ["A"];
    assert Texts(ys)[..2] == Texts(ys) == ["A", "B"];
    assert Strings.Concat(["A"]) == "A";
    assert Strings.Concat(["A", "B"]) == "AB";
    var d := Consume(ys);
    assert |d.updates| == 4;
  }

  /** Without a key the answer shows the missing-key message, once in progress and once
      complete, with empty references, and the page does not raise. */
  lemma MissingKeyDisplay(key: Client.ApiKey, model: string, query: string,
                          transport: Client.Request -> seq<seq<bv8>>, codec: Codec)
    requires Client.Missing(key)
    ensures Consume(ChatStream(key, model, query, transport, codec).items) == Display(
      [ Update(0, Client.MissingKeyMessage, Streaming),
        Update(0, Client.MissingKeyMessage, Complete),
        Update(1, "", Complete) ],
      Finished)
  {
    MissingKeyStream(key, model, query, transport, codec);
    var ys := [Yield(Client.MissingKeyMessage, [])];
    ConsumeSnapshots(ys, 0);
    assert Texts(ys)[..1] == Texts(ys) == [Client.MissingKeyMessage];
    assert Strings.Concat([Client.MissingKeyMessage]) == Client.MissingKeyMessage + "";
    var d := Consume(ys);
    assert |d.updates| == 3;
    assert d.updates[0] == Update(0, Client.MissingKeyMessage, Streaming);
    assert d.updates[1] == Update(0, Client.MissingKeyMessage, Complete);
    assert d.updates[2] == Update(1, "", Complete);
    assert d.ending == Finished;
  }

  /** The defect as written: a keyed stream that yields no fragment (one whose only line
      is `data: [DONE]`, say, or one that closes with no content line) shows an empty
      complete answer and then raises `NameError` on the unbound `docs`. */
  lemma SilentStreamRaises(key: Client.ApiKey, model: string, query: string,
                           transport: Client.Request -> seq<seq<bv8>>, codec: Codec)
    requires !Client.Missing(key)
    requires forall r :: Fragments(codec, transport(r)) == []
    ensures Consume(ChatStream(key, model, query, transport, codec).items)
            == Display([Update(0, "", Complete)], Raised(NameError))
  {
    KeyedStreamSendsOne(key, model, query, transport, codec);
  }

  /** The corrected branch on the same streams finishes, with an empty answer and empty
      references. */
  lemma SilentStreamFinishes(key: Client.ApiKey, model: string, query: string,
                             transport: Client.Request -> seq<seq<bv8>>, codec: Codec)
    requires !Client.Missing(key)
    requires forall r :: Fragments(codec, transport(r)) == []
    ensures ConsumeFixed(ChatStream(key, model, query, transport, codec).items)
            == Display([Update(0, "", Complete), Update(1, "", Complete)], Finished)
  {
    KeyedStreamSendsOne(key, model, query, transport, codec);
  }

  /** The corrected branch never raises, and wherever the branch as written does not
      raise the two show exactly the same updates. */
  lemma FixedAgrees(ys: seq<Yield>)
    requires forall i :: 0 <= i < |ys| ==> ys[i].docs == []
    ensures ConsumeFixed(ys).ending == Finished
    ensures |ys| > 0 ==> ConsumeFixed(ys) == Consume(ys)
    ensures |ys| == 0 ==> ConsumeFixed(ys).updates == Consume(ys).updates + [Update(1, "", Complete)]
  {
  }
}
