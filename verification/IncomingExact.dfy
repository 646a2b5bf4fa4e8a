/**
 Exactly when the kept index of an arriving document may be trusted: after pulls that did not stop right
 after an element of an array. Below, the retry of a single pull in which it may not.
 */
module IncomingExact {
  import opened Units
  import opened JsonGrammar
  import opened JsonLexer
  import opened IncomingScan
  import opened BlankStability
  import opened IncomingStability
  import opened IncomingSelect
  import opened IncomingResume
  import opened IncomingRuns
  import opened IncomingStops
  import S = JsonScanner
  import F = IncomingFinal
  import V = JsonValue
  import T = RelaxedRoundTrip
  import R = JsonReading

  // ---------- one pull ----------

  /** A pull of the path now shows what a fresh scan shows. */
  predicate Answers(d: Doc, path: seq<Segment>) {
    var ended := d.end == Finished;
    Shown(Kept(d.text, path, ended, d.root).0, ended) == Shown(Fresh(d.text, path, ended), ended)
  }

  /** A pull of the path now returns a complete value, and not what a fresh scan finds. */
  predicate TakesAnother(d: Doc, path: seq<Segment>) {
    Mistaken(Kept(d.text, path, d.end == Finished, d.root).0, Fresh(d.text, path, d.end == Finished), d.end == Finished)
  }

  lemma MistakenShows(p: Probe, q: Probe, ended: bool)
    requires Mistaken(p, q, ended)
    ensures Shown(p, ended) == p && Shown(p, ended) != Shown(q, ended)
  {
  }

  function WrongPull(d: Doc, path: seq<Segment>): seq<Segment>
    requires PullStops(d, path)
  {
    WrongPath(SkipInsignificant(d.text), path, d.end == Finished, 0)
  }

  lemma StoppedDoc(d: Doc, base: Text, ended: bool, path: seq<Segment>)
    requires IndexedAt(d, base, ended) && PullStops(d, path)
    ensures var next := Step(d, Pull(path));
      next.root.child.Some?
      && Misled(d.text, SkipInsignificant(d.text), next.root.child.value, WrongPull(d, path), d.end == Finished, 0)
  {
    var t := SkipInsignificant(d.text);
    SkipIsSuffix(d.text);
    OffsetOf(d.text, t);
    if d.root.child.Some? {
      CatchUp(d, base, ended);
    }
    StopMisleads(d.text, Offset(d.text, t), path, d.end == Finished, 0, d.root);
  }

  lemma MisledDoc(d: Doc, path: seq<Segment>)
    requires d.root.child.Some?
    requires Misled(d.text, SkipInsignificant(d.text), d.root.child.value, path, d.end == Finished, 0)
    ensures TakesAnother(d, path) && !Answers(d, path)
  {
    var t := SkipInsignificant(d.text);
    SkipIsSuffix(d.text);
    OffsetOf(d.text, t);
    MisledIsWrong(d.text, Offset(d.text, t), path, d.end == Finished, 0, d.root);
    MistakenShows(Kept(d.text, path, d.end == Finished, d.root).0, Fresh(d.text, path, d.end == Finished), d.end == Finished);
  }

  /** After a pull through a right index every probe is right if and only if the pull did not stop at an element's end. */
  lemma PullExact(d: Doc, base: Text, ended: bool, path: seq<Segment>)
    requires IndexedAt(d, base, ended)
    ensures (forall p :: Answers(Step(d, Pull(path)), p)) <==> !PullStops(d, path)
  {
    var next := Step(d, Pull(path));
    if PullStops(d, path) {
      StoppedDoc(d, base, ended, path);
      MisledDoc(next, WrongPull(d, path));
    } else {
      if d.root.child.Some? {
        CatchUp(d, base, ended);
      }
      KeptAgrees(d.text, path, d.end == Finished, d.root);
      forall p ensures Answers(next, p) {
        KeptAgrees(d.text, p, d.end == Finished, next.root);
      }
    }
  }

  // ---------- and every continuation of the feed ----------

  /** Events that are no pulls leave the index alone, and nothing happens to a closed feed. */
  lemma {:induction false} OnlyFed(d: Doc, feed: seq<Event>)
    requires !HasPull(feed)
    ensures Final(d, feed).root == d.root && d.text <= Final(d, feed).text
    ensures d.end != OpenFeed ==> Final(d, feed) == d
    decreases |feed|
  {
    if feed != [] {
      assert !feed[0].Pull?;
      forall k | 0 <= k < |feed[1..]| ensures !feed[1..][k].Pull? {
        assert feed[1..][k] == feed[k + 1];
      }
      OnlyFed(Step(d, feed[0]), feed[1..]);
    }
  }

  /** A pull that stops at an element's end makes a later pull take a wrong value, however the feed goes on in between. */
  lemma WrongForever(d: Doc, base: Text, ended: bool, path: seq<Segment>, feed: seq<Event>)
    requires IndexedAt(d, base, ended) && PullStops(d, path) && (d.end == Finished || Steady(d.text)) && !HasPull(feed)
    ensures var later := Final(Step(d, Pull(path)), feed);
      TakesAnother(later, WrongPull(d, path)) && !Answers(later, WrongPull(d, path))
  {
    var next := Step(d, Pull(path));
    var later := Final(next, feed);
    StoppedDoc(d, base, ended, path);
    OnlyFed(next, feed);
    if d.end == OpenFeed {
      var t, u := SkipInsignificant(d.text), later.text[|d.text|..];
      assert later.text == d.text + u;
      SteadyRoot(d.text);
      NoLoneSlash(S.Start, t);
      SkipIsSuffix(d.text);
      SkipGrows(d.text, u);
      MisledGrows(S.Start, d.text, t, u, next.root.child.value, WrongPull(d, path), later.end == Finished, 0);
    }
    MisledDoc(later, WrongPull(d, path));
  }

  // ---------- whole runs ----------

  /** No pull of the run stops at an element's end. */
  predicate NeverStops(d: Doc, events: seq<Event>)
    decreases |events|
  {
    events != [] ==>
      && (events[0].Pull? ==> !PullStops(d, events[0].path))
      && NeverStops(Step(d, events[0]), events[1..])
  }

  /** Every pull of the run shows what a fresh scan of the same buffer shows. */
  predicate AllAnswer(d: Doc, events: seq<Event>)
    decreases |events|
  {
    events != [] ==> (events[0].Pull? ==> Answers(d, events[0].path)) && AllAnswer(Step(d, events[0]), events[1..])
  }

  lemma {:induction false} TransparentAnswers(d: Doc, events: seq<Event>)
    requires Transparent(d, events)
    ensures AllAnswer(d, events)
    decreases |events|
  {
    if events != [] {
      TransparentAnswers(Step(d, events[0]), events[1..]);
    }
  }

  lemma {:induction false} FedThenPulled(d: Doc, base: Text, ended: bool, feed: seq<Event>, p: seq<Segment>)
    requires IndexedAt(d, base, ended) && !HasPull(feed)
    ensures Transparent(d, feed + [Pull(p)])
    decreases |feed|
  {
    var all := feed + [Pull(p)];
    if feed == [] {
      PullAgrees(d, base, ended, p);
      assert all[1..] == [];
    } else {
      assert !feed[0].Pull?;
      forall k | 0 <= k < |feed[1..]| ensures !feed[1..][k].Pull? {
        assert feed[1..][k] == feed[k + 1];
      }
      assert all[1..] == feed[1..] + [Pull(p)];
      FedThenPulled(Step(d, feed[0]), base, ended, feed[1..], p);
    }
  }

  lemma {:induction false} SafeAt(d: Doc, base: Text, ended: bool, events: seq<Event>, k: nat, feed: seq<Event>, p: seq<Segment>)
    requires IndexedAt(d, base, ended) && CarefulRun(d, events) && NeverStops(d, events) && k <= |events| && !HasPull(feed)
    ensures Transparent(d, events[..k] + feed + [Pull(p)])
    decreases |events|
  {
    var all := events[..k] + feed + [Pull(p)];
    if k == 0 {
      assert all == feed + [Pull(p)];
      FedThenPulled(d, base, ended, feed, p);
    } else {
      assert all[0] == events[0] && all[1..] == events[1..][..k - 1] + feed + [Pull(p)];
      if events[0].Pull? {
        PullAgrees(d, base, ended, events[0].path);
        SafeAt(Step(d, events[0]), d.text, d.end == Finished, events[1..], k - 1, feed, p);
      } else {
        SafeAt(Step(d, events[0]), base, ended, events[1..], k - 1, feed, p);
      }
    }
  }

  /** An event that is no pull leaves the index as right as it was. */
  lemma IndexStays(d: Doc, base: Text, ended: bool, e: Event)
    requires IndexedAt(d, base, ended) && !e.Pull?
    ensures IndexedAt(Step(d, e), base, ended)
  {
  }

  /** A run with a pull that stops is wrong when it is broken off there and the right path is pulled, whatever is fed before. */
  lemma {:induction false} UnsafeAt(d: Doc, base: Text, ended: bool, events: seq<Event>, feed: seq<Event>) returns (k: nat, p: seq<Segment>)
    requires IndexedAt(d, base, ended) && CarefulRun(d, events) && !NeverStops(d, events) && !HasPull(feed)
    ensures k <= |events| && !AllAnswer(d, events[..k] + feed + [Pull(p)])
    decreases |events|
  {
    hide Kept, PullStops, IndexedAt, Answers, Fresh;
    if events[0].Pull? && PullStops(d, events[0].path) {
      k, p := 1, WrongPull(d, events[0].path);
      var all := events[..1] + feed + [Pull(p)];
      assert all[0] == events[0] && all[1..] == feed + [Pull(p)];
      WrongForever(d, base, ended, events[0].path, feed);
      WrongAtEnd(Step(d, events[0]), feed, p);
    } else {
      var d1 := Step(d, events[0]);
      if events[0].Pull? {
        PullAgrees(d, base, ended, events[0].path);
        k, p := UnsafeAt(d1, d.text, d.end == Finished, events[1..], feed);
      } else {
        IndexStays(d, base, ended, events[0]);
        k, p := UnsafeAt(d1, base, ended, events[1..], feed);
      }
      k := k + 1;
      var all := events[..k] + feed + [Pull(p)];
      assert all[0] == events[0] && all[1..] == events[1..][..k - 1] + feed + [Pull(p)];
    }
  }

  lemma {:induction false} WrongAtEnd(d: Doc, feed: seq<Event>, p: seq<Segment>)
    requires !HasPull(feed) && !Answers(Final(d, feed), p)
    ensures !AllAnswer(d, feed + [Pull(p)])
    decreases |feed|
  {
    var all := feed + [Pull(p)];
    if feed != [] {
      assert all[0] == feed[0] && all[1..] == feed[1..] + [Pull(p)];
      forall k | 0 <= k < |feed[1..]| ensures !feed[1..][k].Pull? {
        assert feed[1..][k] == feed[k + 1];
      }
      WrongAtEnd(Step(d, feed[0]), feed[1..], p);
    }
  }

  /** The run may be broken off anywhere, fed on, and probed on any path: every pull shows what a fresh scan shows. */
  ghost predicate AnswersAnywhere(events: seq<Event>) {
    forall k: nat, feed, p :: k <= |events| && !HasPull(feed) ==> AllAnswer(Empty, events[..k] + feed + [Pull(p)])
  }

  /**
   Exactly when resuming is transparent: a run on steady buffers can be broken off anywhere, fed on and
   probed on any path with the verdict of a fresh scan, if and only if none of its pulls stops at an
   element's end.
   */
  lemma TransparentExactly(events: seq<Event>)
    requires CarefulRun(Empty, events)
    ensures NeverStops(Empty, events) <==> AnswersAnywhere(events)
  {
    if NeverStops(Empty, events) {
      forall k: nat, feed, p | k <= |events| && !HasPull(feed) ensures AllAnswer(Empty, events[..k] + feed + [Pull(p)]) {
        SafeAt(Empty, [], false, events, k, feed, p);
        TransparentAnswers(Empty, events[..k] + feed + [Pull(p)]);
      }
    } else {
      var k, p := UnsafeAt(Empty, [], false, events, []);
      assert !HasPull([]);
    }
  }

  // ---------- the retry of one pull ----------

  /** The buffer `[` and a value, on which nothing has been pulled. */
  function OneElement(v: Value): Doc {
    Empty.(text := [LBRACKET] + Print(v))
  }

  /** The scan of the array's first element ends with the buffer, right after the element's last bracket. */
  lemma FirstElementScanned(v: Value)
    requires ValueOk(v) && F.IsContainer(v) && V.NumbersFinite(v) && F.Nesting(v) < MAX_DEPTH
    ensures StartsElement(Print(v)) && SkipInsignificant([LBRACKET] + Print(v)) == [LBRACKET] + Print(v)
    ensures Done(ScanValue(Print(v), false, 1)) && SkipValue(Print(v), false, 1, RBRACKET) == Open
  {
    T.ValueStart(v, []);
    assert Print(v) + [] == Print(v);
    T.BlankThen([], Print(v));
    T.BlankThen([], [LBRACKET] + Print(v));
    assert [] + Print(v) == Print(v) && [] + ([LBRACKET] + Print(v)) == [LBRACKET] + Print(v);
    F.ContainerScanned(v, [], false, 1);
  }

  /** Such a pull waits, and stops right after the element. */
  lemma RetryStops(v: Value)
    requires ValueOk(v) && F.IsContainer(v) && V.NumbersFinite(v) && F.Nesting(v) < MAX_DEPTH
    ensures PullStops(OneElement(v), [At(1)]) && WrongPull(OneElement(v), [At(1)]) == [At(1)]
    ensures Fresh(OneElement(v).text, [At(1)], false) == Waiting
  {
    FirstElementScanned(v);
    var text, t := OneElement(v).text, Print(v);
    R.One(LBRACKET, t);
    assert [At(1)][1..] == [];
    ElementFresh(t, 0, 1, [], false, 0);
    LastPath(t, 0, 1, [], false, 0);
  }

  predicate EndsInBracket(t: Text) {
    t != [] && (t[|t| - 1] == RBRACE || t[|t| - 1] == RBRACKET)
  }

  lemma {:induction false} ElementsEnd(es: Elements)
    ensures EndsInBracket(PrintElements(es))
    decreases es
  {
    if es.MoreElements? {
      ElementsEnd(es.rest);
    }
  }

  lemma {:induction false} MembersEnd(ms: Members)
    ensures EndsInBracket(PrintMembers(ms))
    decreases ms
  {
    if ms.MoreMembers? {
      MembersEnd(ms.rest);
    }
  }

  lemma OneElementIsSteady(v: Value)
    requires F.IsContainer(v)
    ensures Steady(OneElement(v).text)
  {
    match v
    case Array(elements) => ElementsEnd(elements);
    case Object(members) => MembersEnd(members);
    case _ =>
  }

  /** An array index that misleads at number 1 takes the first element for the second. */
  lemma TakesFirst(text: Text, index: Index, ended: bool, place: Text)
    requires text != [] && place == SkipInsignificant(text[1..]) && StartsElement(place)
    requires Misled(text, text, index, [At(1)], ended, 0) && text[0] == LBRACKET
    ensures KeptValue(text, 0, [At(1)], ended, 0, Slot(0, Some(index))).0 == Found(place, 1)
  {
    var r := text[index.frontier..];
    SkipTwice(text[1..]);
    SameElement(text[1..], place, r, 0, ended, 0);
    KeptTakesFrontier(text, index, ended, 0);
    assert [At(1)][1..] == [] && text[0..] == text;
  }

  lemma RetryText(v: Value, more: Text)
    requires ValueOk(v)
    ensures var text := [LBRACKET] + Print(v) + more;
      && text[0] == LBRACKET && text[1..] == Print(v) + more
      && SkipInsignificant(text) == text && SkipInsignificant(text[1..]) == text[1..] && StartsElement(text[1..])
  {
    var text := [LBRACKET] + Print(v) + more;
    T.ValueStart(v, more);
    R.Regroup([LBRACKET], Print(v), more);
    R.One(LBRACKET, Print(v) + more);
    T.BlankThen([], text[1..]);
    T.BlankThen([], text);
    assert [] + text == text && [] + text[1..] == text[1..];
  }

  /** After the pull and whatever arrives next, the kept index misleads at number 1. */
  lemma RetryMisleads(v: Value, more: Text)
    requires ValueOk(v) && F.IsContainer(v) && V.NumbersFinite(v) && F.Nesting(v) < MAX_DEPTH
    ensures var root := Step(OneElement(v), Pull([At(1)])).root;
      var text := OneElement(v).text + more;
      root.child.Some? && Misled(text, text, root.child.value, [At(1)], false, 0)
  {
    var d := OneElement(v);
    RetryStops(v);
    StoppedDoc(d, [], false, [At(1)]);
    FirstElementScanned(v);
    OneElementIsSteady(v);
    SteadyRoot(d.text);
    MisledGrows(S.Start, d.text, d.text, more, Step(d, Pull([At(1)])).root.child.value, [At(1)], false, 0);
  }

  /**
   The retry of a single pull goes wrong unaided. Element 1 is asked for while the buffer ends with
   element 0, an object or an array, and the pull waits; whatever arrives next, the same pull then
   returns element 0, complete, which a fresh scan does not.
   */
  lemma RetryGoesWrong(v: Value, more: Text)
    requires ValueOk(v) && F.IsContainer(v) && V.NumbersFinite(v) && F.Nesting(v) < MAX_DEPTH
    ensures Kept(OneElement(v).text, [At(1)], false, Empty.root).0 == Waiting
    ensures var later := Step(Step(OneElement(v), Pull([At(1)])), Push(more));
      && Kept(later.text, [At(1)], false, later.root).0 == Found(Print(v) + more, 1)
      && Done(ScanValue(Print(v) + more, false, 1))
      && Fresh(later.text, [At(1)], false) != Found(Print(v) + more, 1)
  {
    var d := OneElement(v);
    var later := Step(Step(d, Pull([At(1)])), Push(more));
    RetryStops(v);
    PullAgrees(d, [], false, [At(1)]);
    RetryMisleads(v, more);
    RetryText(v, more);
    hide Misled, Print, SkipInsignificant, StartsElement, FreshValue;
    RootOffset(later.text, later.root);
    TakesFirst(later.text, later.root.child.value, false, Print(v) + more);
    MisledDoc(later, [At(1)]);
  }

  /** A probe of a text that begins with its value. */
  lemma RootOffset(text: Text, root: Slot)
    requires SkipInsignificant(text) == text && root.child.Some?
    ensures Kept(text, [At(1)], false, root).0 == KeptValue(text, 0, [At(1)], false, 0, Slot(0, root.child)).0
  {
    assert Offset(text, text) == 0 && From(text, 0) == text;
  }
}
