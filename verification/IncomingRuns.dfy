/**
 Whole runs over an arriving document: any cutting of the text into pushes, any order of probes.
 */
module IncomingRuns {
  import opened Units
  import opened JsonGrammar
  import opened JsonLexer
  import opened JsonValue
  import opened JsonScanner
  import opened IncomingScan
  import opened BlankStability
  import opened IncomingStability
  import opened IncomingSelect
  import opened IncomingResume
  import R = JsonReading
  import C = JsonClassifier

  // ---------- an index stays right while text arrives ----------

  lemma {:induction false} CoversGrows(s: State, outer: seq<bool>, t: Text, f: Text, u: Text, keys: set<Text>, ended: bool, depth: nat)
    requires AtKey(s) && s.stack == outer + [true] && Settled(s, t) && Covers(t, f, keys, false, depth)
    ensures Covers(t + u, f + u, keys, ended, depth)
    decreases |t|
  {
    MemberAtStart(t);
    if t == f {
    } else if SkipInsignificant(t) == f && ReadMember(f).Keyed? {
      LoneSlashNoMember(t);
      SkipGrows(t, u);
      BlankSettled(s, t);
      MemberGrows(s, f, u);
    } else {
      MemberGrows(s, t, u);
      var rest := NextPass(s, outer, t, u, ended, depth);
      CoversGrows(if ReadMember(t).Keyed? then State(Expecting(ObjKey), s.stack) else s, outer, rest, f, u, keys, ended, depth);
    }
  }

  /** One pass over a stray comma or a member that is skipped whole: the same pass on the longer text. */
  lemma NextPass(s: State, outer: seq<bool>, t: Text, u: Text, ended: bool, depth: nat) returns (rest: Text)
    requires AtKey(s) && s.stack == outer + [true] && Settled(s, t)
    requires ReadMember(t).StrayComma? || (ReadMember(t).Keyed? && ReadMember(t).value != []
             && SkipValue(ReadMember(t).value, false, depth + 1, RBRACE).Next?)
    ensures rest == if ReadMember(t).StrayComma? then ReadMember(t).rest
                    else SkipValue(ReadMember(t).value, false, depth + 1, RBRACE).rest
    ensures |rest| < |t| && Settled(if ReadMember(t).Keyed? then State(Expecting(ObjKey), s.stack) else s, rest)
    ensures Alive(s, t) ==> ReadMember(t).Keyed? && Alive(State(Expecting(ObjKey), s.stack), rest)
    ensures ReadMember(t).StrayComma? ==> ReadMember(t + u) == StrayComma(rest + u)
    ensures ReadMember(t).Keyed? ==> var g := ReadMember(t + u);
      g.Keyed? && g.key == ReadMember(t).key && g.at == ReadMember(t).at + u && g.value == ReadMember(t).value + u && g.value != []
      && SkipValue(g.value, ended, depth + 1, RBRACE) == Next(rest + u)
  {
    MemberGrows(s, t, u);
    MemberSuffix(t);
    SuffixEdge(Beyond(ReadMember(t)), t);
    if Alive(s, t) {
      MemberAlive(s, t);
    }
    if ReadMember(t).StrayComma? {
      rest := ReadMember(t).rest;
    } else {
      var value := ReadMember(t).value;
      LoneSlashOpen(depth + 1, RBRACE);
      MemberValueSignificant(t);
      TailGrows(State(Expecting(ExpValue), s.stack), outer, value, u, ended, depth + 1, true);
      rest := SkipValue(value, false, depth + 1, RBRACE).rest;
    }
  }

  lemma {:induction false} FirstGrows(s: State, outer: seq<bool>, t: Text, key: Text, at: Text, u: Text, ended: bool, depth: nat)
    requires AtKey(s) && s.stack == outer + [true] && Settled(s, t) && FirstAt(t, key, at, false, depth)
    ensures FirstAt(t + u, key, at + u, ended, depth)
    ensures ReadMember(at).Keyed? && Grown(ReadMember(at), ReadMember(at + u), u)
    ensures Alive(s, t) ==> Alive(State(Expecting(ExpValue), s.stack), ReadMember(at).value)
    decreases |t|
  {
    MemberAtStart(t);
    MemberGrows(s, t, u);
    if Alive(s, t) {
      MemberAlive(s, t);
    }
    if ReadMember(t).Keyed? && ReadMember(t).key == key {
      BlankSettled(s, t);
      MemberGrows(s, at, u);
    } else {
      var rest := NextPass(s, outer, t, u, ended, depth);
      FirstGrows(if ReadMember(t).Keyed? then State(Expecting(ObjKey), s.stack) else s, outer, rest, key, at, u, ended, depth);
    }
  }

  lemma NoLoneSlash(s: State, t: Text)
    requires R.AtValue(s) && Settled(s, t)
    ensures t != [SLASH]
  {
  }

  /** A place in an array stays where it is, and the scan may go on from there. */
  lemma {:induction false} PlaceGrows(s: State, outer: seq<bool>, t: Text, f: Text, u: Text, n: nat, ended: bool, depth: nat)
    returns (s1: State)
    requires R.AtValue(s) && s.stack == outer + [false] && Settled(s, t) && CoversElements(t, f, n, false, depth)
    ensures CoversElements(t + u, f + u, n, ended, depth)
    ensures R.AtValue(s1) && s1.stack == s.stack && Settled(s1, f)
    ensures StartsElement(f) ==> StartsElement(f + u)
    decreases |t|
  {
    hide SkipInsignificant, SkipValue, Alive;
    s1 := s;
    var t1 := SkipInsignificant(t);
    BlankSettled(s, t);
    NoLoneSlash(s, t1);
    SkipTwice(t);
    if StartsElement(f) && (t == f || t1 == f) {
      SkipGrows(t, u);
      SkipGrows(f, u);
      FirstUnit(f, u);
    } else if t != f {
      SkipGrows(t, u);
      FirstUnit(t1, u);
      if t1[0] == COMMA {
        DropSuffix(t1, 1);
        SuffixEdge(t1[1..], t1);
        CommaSettled(s, t1);
        ElementsLater(t1[1..], f, n, false, depth);
        s1 := PlaceGrows(s, outer, t1[1..], f, u, n, ended, depth);
      } else {
        s1 := State(Expecting(ExpValue), s.stack);
        var rest := ElementTailGrows(s, outer, t1, u, ended, depth);
        ElementsLater(rest, f, n - 1, false, depth);
        s1 := PlaceGrows(s1, outer, rest, f, u, n - 1, ended, depth);
      }
    }
  }

  lemma ElementTailGrows(s: State, outer: seq<bool>, t: Text, u: Text, ended: bool, depth: nat) returns (rest: Text)
    requires R.AtValue(s) && s.stack == outer + [false] && Settled(s, t) && t != [] && SkipInsignificant(t) == t
    requires t[0] != RBRACKET && SkipValue(t, false, depth + 1, RBRACKET).Next?
    ensures SkipValue(t, false, depth + 1, RBRACKET) == Next(rest) && |rest| < |t|
    ensures SkipValue(t + u, ended, depth + 1, RBRACKET) == Next(rest + u)
    ensures Settled(State(Expecting(ExpValue), s.stack), rest)
  {
    TailGrows(s, outer, t, u, ended, depth + 1, false);
    rest := SkipValue(t, false, depth + 1, RBRACKET).rest;
  }

  /** The index of a container stays right. */
  lemma {:induction false} IndexGrows(s: State, text: Text, t: Text, u: Text, index: Index, ended: bool, depth: nat)
    requires R.AtValue(s) && Settled(s, t) && IndexOk(text, t, index, false, depth)
    ensures IndexOk(text + u, t + u, index, ended, depth)
    decreases index, 1
  {
    hide ReadMember, SkipValue, FirstAt, SkipInsignificant;
    SuffixGrows(t, text, u);
    DropSuffix(t, 1);
    SuffixEdge(t[1..], t);
    PieceGrows(text, u, index.frontier);
    var inner := State(Expecting(if t[0] == LBRACE then ObjKeyOrEnd else ArrValueOrEnd), s.stack + [t[0] == LBRACE]);
    if t[0] == LBRACE {
      var keys := index.keys.Keys;
      CoversGrows(inner, s.stack, t[1..], text[index.frontier..], u, keys, ended, depth);
      forall key | key in index.keys ensures SlotOk(text + u, t[1..] + u, key, index.keys[key], keys, ended, depth) {
        SlotGrows(inner, s.stack, text, t, u, key, index.keys[key], keys, ended, depth);
      }
    } else {
      var s1 := PlaceGrows(inner, s.stack, t[1..], text[index.frontier..], u, |index.elements|, ended, depth);
      PlacesGrow(inner, s.stack, text, t, u, index, ended, depth);
    }
  }

  lemma {:induction false} PlacesGrow(s: State, outer: seq<bool>, text: Text, t: Text, u: Text, index: Index, ended: bool, depth: nat)
    requires R.AtValue(s) && s.stack == outer + [false] && t != [] && IsSuffix(t, text) && Settled(s, t[1..])
    requires PlacesOk(text, t[1..], index, false, depth)
    ensures PlacesOk(text + u, t[1..] + u, index, ended, depth)
    decreases index, 0
  {
    forall i: nat | i < |index.elements| ensures PlaceOk(text + u, t[1..] + u, i, index.elements[i], ended, depth) {
      ElementGrows(s, outer, text, t, u, i, index.elements[i], ended, depth);
    }
    if index.tail.Some? {
      ElementGrows(s, outer, text, t, u, |index.elements|, index.tail.value, ended, depth);
    }
  }

  lemma {:induction false} ElementGrows(s: State, outer: seq<bool>, text: Text, t: Text, u: Text, i: nat, slot: Slot, ended: bool, depth: nat)
    requires R.AtValue(s) && s.stack == outer + [false] && t != [] && IsSuffix(t, text) && Settled(s, t[1..])
    requires PlaceOk(text, t[1..], i, slot, false, depth)
    ensures PlaceOk(text + u, t[1..] + u, i, slot, ended, depth)
    decreases slot, 0
  {
    hide SkipInsignificant, SkipValue;
    var at := text[slot.offset..];
    PieceGrows(text, u, slot.offset);
    var s1 := PlaceGrows(s, outer, t[1..], at, u, i, ended, depth);
    if slot.child.Some? {
      IndexGrows(s1, text, at, u, slot.child.value, ended, depth + 1);
    }
  }

  lemma SuffixGrows(t: Text, text: Text, u: Text)
    requires IsSuffix(t, text) && t != []
    ensures IsSuffix(t + u, text + u)
    ensures (t + u)[0] == t[0] && (t + u)[1..] == t[1..] + u
  {
  }

  lemma {:induction false} SlotGrows(s: State, outer: seq<bool>, text: Text, t: Text, u: Text, key: Text, slot: Slot, keys: set<Text>, ended: bool, depth: nat)
    requires AtKey(s) && s.stack == outer + [true] && t != [] && IsSuffix(t, text) && Settled(s, t[1..])
    requires NoEdgeSlash(t) || Alive(s, t[1..])
    requires SlotOk(text, t[1..], key, slot, keys, false, depth)
    ensures SlotOk(text + u, t[1..] + u, key, slot, keys, ended, depth)
    decreases slot, 0
  {
    var at := text[slot.offset..];
    PieceGrows(text, u, slot.offset);
    FirstGrows(s, outer, t[1..], key, at, u, ended, depth);
    CoversGrows(s, outer, t[1..], at, u, keys, ended, depth);
    if slot.child.Some? {
      var value := ReadMember(at).value;
      SuffixEdge(t, text);
      SuffixEdge(value, text);
      assert value != [];
      IndexGrows(State(Expecting(ExpValue), s.stack), text, value, u, slot.child.value, ended, depth + 1);
    }
  }

  // ---------- verdicts are never withdrawn ----------

  /** q, probed on the text with u added, does not contradict what is shown of p. */
  predicate Stands(p: Probe, q: Probe, u: Text, ended: bool) {
    match Shown(p, false)
    case Waiting => true
    case Missing => q == Missing
    case Mismatch(_, _) => q == p
    case Found(v, d) =>
      && v != [] && q == Found(v + u, d)
      && var scan := ScanValue(v, false, d);
         Done(scan) ==> ScanValue(v + u, ended, d) == Located(scan.shape, Some(scan.end.value + u))
  }

  predicate AtValueStart(s: State, t: Text) {
    R.AtValue(s) && t != [] && !IsWhitespace(t[0]) && (s.mode == Expecting(ArrValueOrEnd) ==> t[0] != RBRACKET)
  }

  lemma {:induction false} ValueStands(s: State, t: Text, u: Text, path: seq<Segment>, ended: bool, depth: nat)
    requires AtValueStart(s, t) && Settled(s, t)
    ensures Stands(FreshValue(t, path, false, depth), FreshValue(t + u, path, ended, depth), u, ended)
    decreases |t|, 1, 0
  {
    assert (t + u)[0] == t[0] && (t + u)[1..] == t[1..] + u;
    if path == [] {
      if Done(ScanValue(t, false, depth)) {
        ValueGrows(s, t, u, ended, depth);
      }
    } else if t[0] == (if path[0].Key? then LBRACE else LBRACKET) && depth < MAX_DEPTH {
      DropSuffix(t, 1);
      SuffixEdge(t[1..], t);
      var isObject := t[0] == LBRACE;
      var inner := State(Expecting(if isObject then ObjKeyOrEnd else ArrValueOrEnd), s.stack + [isObject]);
      match path[0]
      case Key(name) => KeyStands(inner, s.stack, t[1..], u, name, path[1..], ended, depth);
      case At(i) => ElementStands(inner, s.stack, t[1..], u, 0, i, path[1..], ended, depth);
    }
  }

  lemma {:induction false} KeyStands(s: State, outer: seq<bool>, t: Text, u: Text, wanted: Text, path: seq<Segment>, ended: bool, depth: nat)
    requires AtKey(s) && s.stack == outer + [true] && Settled(s, t)
    ensures Stands(FreshKey(t, wanted, path, false, depth), FreshKey(t + u, wanted, path, ended, depth), u, ended)
    decreases |t|, 0
  {
    hide ReadMember, SkipValue, FreshKey;
    FreshHead(t, wanted, path, false, depth);
    FreshHead(t + u, wanted, path, ended, depth);
    if ReadMember(t).NoMember? {
      return;
    }
    MemberGrows(s, t, u);
    MemberSuffix(t);
    SuffixEdge(Beyond(ReadMember(t)), t);
    if Alive(s, t) {
      MemberAlive(s, t);
    }
    if ReadMember(t).StrayComma? {
      KeyStands(s, outer, ReadMember(t).rest, u, wanted, path, ended, depth);
    } else if ReadMember(t).Keyed? && ReadMember(t).value != [] {
      MemberValueSignificant(t);
      MemberStands(s, outer, t, u, wanted, path, ended, depth);
    }
  }

  /** A scan from scratch where no member with a value stands. */
  lemma FreshHead(t: Text, wanted: Text, path: seq<Segment>, ended: bool, depth: nat)
    ensures ReadMember(t).NoMember? ==> FreshKey(t, wanted, path, ended, depth) == Waiting
    ensures ReadMember(t).ClosingBrace? ==> FreshKey(t, wanted, path, ended, depth) == Missing
    ensures ReadMember(t).StrayComma? ==>
      FreshKey(t, wanted, path, ended, depth) == FreshKey(ReadMember(t).rest, wanted, path, ended, depth)
    ensures ReadMember(t).Keyed? && ReadMember(t).value == [] ==> FreshKey(t, wanted, path, ended, depth) == Waiting
  {
  }

  /** One pass of a scan from scratch over a member whose value has started. */
  lemma FreshPass(t: Text, wanted: Text, path: seq<Segment>, ended: bool, depth: nat)
    requires ReadMember(t).Keyed? && ReadMember(t).value != []
    ensures var m := ReadMember(t);
      var v := SkipValue(m.value, ended, depth + 1, RBRACE);
      FreshKey(t, wanted, path, ended, depth) ==
        if m.key == wanted then FreshValue(m.value, path, ended, depth + 1)
        else if v.Next? then FreshKey(v.rest, wanted, path, ended, depth)
        else if v.Closed? then Missing else Waiting
  {
  }

  lemma {:induction false} MemberStands(s: State, outer: seq<bool>, t: Text, u: Text, wanted: Text, path: seq<Segment>, ended: bool, depth: nat)
    requires AtKey(s) && s.stack == outer + [true]
    requires ReadMember(t).Keyed? && ReadMember(t).value != [] && !IsWhitespace(ReadMember(t).value[0])
    requires Settled(State(Expecting(ExpValue), s.stack), ReadMember(t).value)
    requires ReadMember(t + u).Keyed? && ReadMember(t + u).key == ReadMember(t).key && ReadMember(t + u).value == ReadMember(t).value + u
    ensures Stands(FreshKey(t, wanted, path, false, depth), FreshKey(t + u, wanted, path, ended, depth), u, ended)
    decreases |ReadMember(t).value|, 3
  {
    var value := ReadMember(t).value;
    var at := State(Expecting(ExpValue), s.stack);
    FreshPass(t, wanted, path, false, depth);
    FreshPass(t + u, wanted, path, ended, depth);
    if ReadMember(t).key == wanted {
      ValueStands(at, value, u, path, ended, depth + 1);
    } else if !SkipValue(value, false, depth + 1, RBRACE).Open? {
      TailGrows(at, outer, value, u, ended, depth + 1, true);
      var v := SkipValue(value, false, depth + 1, RBRACE);
      if v.Next? {
        KeyStands(State(Expecting(ObjKey), s.stack), outer, v.rest, u, wanted, path, ended, depth);
      }
    }
  }

  lemma {:induction false} ElementStands(s: State, outer: seq<bool>, t: Text, u: Text, element: nat, wanted: nat, path: seq<Segment>, ended: bool, depth: nat)
    requires R.AtValue(s) && s.stack == outer + [false] && Settled(s, t)
    ensures Stands(FreshElement(t, element, wanted, path, false, depth), FreshElement(t + u, element, wanted, path, ended, depth), u, ended)
    decreases |t|, 2
  {
    var t1 := SkipInsignificant(t);
    if t1 == [] {
      return;
    }
    BlankSettled(s, t);
    SkipGrows(t, u);
    SkipTwice(t);
    SkipTwice(t + u);
    assert (t1 + u)[0] == t1[0] && (t1 + u)[1..] == t1[1..] + u;
    if t1[0] == COMMA {
      DropSuffix(t1, 1);
      SuffixEdge(t1[1..], t1);
      ElementStands(s, outer, t1[1..], u, element, wanted, path, ended, depth);
    } else if t1[0] != RBRACKET {
      OneElementStands(s, outer, t1, u, element, wanted, path, ended, depth);
      FreshAtStart(t, element, wanted, path, false, depth);
      FreshAtStart(t + u, element, wanted, path, ended, depth);
    }
  }

  /** A scan for an element starts at the significant text. */
  lemma FreshAtStart(t: Text, element: nat, wanted: nat, path: seq<Segment>, ended: bool, depth: nat)
    ensures FreshElement(SkipInsignificant(t), element, wanted, path, ended, depth)
         == FreshElement(t, element, wanted, path, ended, depth)
  {
    SkipTwice(t);
  }

  lemma {:induction false} OneElementStands(s: State, outer: seq<bool>, t: Text, u: Text, element: nat, wanted: nat, path: seq<Segment>, ended: bool, depth: nat)
    requires AtValueStart(s, t) && s.stack == outer + [false] && Settled(s, t)
    requires SkipInsignificant(t) == t && SkipInsignificant(t + u) == t + u && t[0] != COMMA && t[0] != RBRACKET
    ensures Stands(FreshElement(t, element, wanted, path, false, depth), FreshElement(t + u, element, wanted, path, ended, depth), u, ended)
    decreases |t|, 1, 1
  {
    assert Stands(Missing, Missing, u, ended);
    assert forall q :: Stands(Waiting, q, u, ended);
    hide Stands, ScanValue;
    assert (t + u)[0] == t[0];
    if element == wanted {
      ValueStands(s, t, u, path, ended, depth + 1);
    } else if !SkipValue(t, false, depth + 1, RBRACKET).Open? {
      TailGrows(s, outer, t, u, ended, depth + 1, false);
      var v := SkipValue(t, false, depth + 1, RBRACKET);
      if v.Next? {
        ElementStands(State(Expecting(ExpValue), s.stack), outer, v.rest, u, element + 1, wanted, path, ended, depth);
      }
    }
  }

  /**
   The buffer may be probed without regret: it does not end in a slash, or it is the beginning of
   some strict JSON text. A caller can check either before it probes.
   */
  predicate Steady(text: Text) {
    NoEdgeSlash(text) || Verdict(Start, text) != Invalid
  }

  lemma SteadyRoot(text: Text)
    requires Steady(text)
    ensures Settled(Start, SkipInsignificant(text))
  {
    BlankSettled(Start, text);
  }

  /** No complete, missing or mismatch verdict reached on a steady buffer is contradicted later. */
  lemma VerdictsStand(text: Text, u: Text, path: seq<Segment>, ended: bool)
    requires Steady(text)
    ensures Stands(Fresh(text, path, false), Fresh(text + u, path, ended), u, ended)
  {
    SteadyRoot(text);
    var t := SkipInsignificant(text);
    if t != [] {
      SkipGrows(text, u);
      ValueStands(Start, t, u, path, ended, 0);
    }
  }

  // ---------- runs ----------

  datatype FeedEnd = OpenFeed | Finished | Aborted

  datatype Doc = Doc(text: Text, end: FeedEnd, root: Slot)

  datatype Event = Push(fragment: Text) | Finish | Abort | Pull(path: seq<Segment>)

  const Empty := Doc([], OpenFeed, Slot(0, None))

  /** One event; a push after the feed is closed throws and changes nothing. */
  function Step(d: Doc, e: Event): Doc {
    match e
    case Push(fragment) => if d.end == OpenFeed then d.(text := d.text + fragment) else d
    case Finish => if d.end == OpenFeed then d.(end := Finished) else d
    case Abort => if d.end == OpenFeed then d.(end := Aborted) else d
    case Pull(path) => d.(root := Kept(d.text, path, d.end == Finished, d.root).1)
  }

  /** The kept index is right for the buffer `base` of the last probe. */
  ghost predicate IndexedAt(d: Doc, base: Text, ended: bool) {
    && base <= d.text
    && (ended ==> d.end == Finished && base == d.text)
    && (d.root.child.Some? ==>
         IndexOk(base, SkipInsignificant(base), d.root.child.value, ended, 0) && (ended || Steady(base)))
  }

  /** The index brought up to the buffer at hand. */
  lemma CatchUp(d: Doc, base: Text, ended: bool)
    requires IndexedAt(d, base, ended) && d.root.child.Some?
    ensures IndexOk(d.text, SkipInsignificant(d.text), d.root.child.value, d.end == Finished, 0)
  {
    if !ended {
      var u := d.text[|base|..];
      assert d.text == base + u;
      SteadyRoot(base);
      SkipGrows(base, u);
      IndexGrows(Start, base, SkipInsignificant(base), u, d.root.child.value, d.end == Finished, 0);
    }
  }

  /** The pull of this path would stop right after an element of an array. */
  predicate PullStops(d: Doc, path: seq<Segment>) {
    StopsShort(SkipInsignificant(d.text), path, d.end == Finished, 0)
  }

  /** A probe through the kept index gives the verdict of a scan from scratch. */
  lemma PullAgrees(d: Doc, base: Text, ended: bool, path: seq<Segment>)
    requires IndexedAt(d, base, ended)
    ensures Kept(d.text, path, d.end == Finished, d.root).0 == Fresh(d.text, path, d.end == Finished)
    ensures (d.end == Finished || Steady(d.text)) && !PullStops(d, path) ==>
      IndexedAt(Step(d, Pull(path)), d.text, d.end == Finished)
  {
    if d.root.child.Some? {
      CatchUp(d, base, ended);
    }
    KeptAgrees(d.text, path, d.end == Finished, d.root);
  }

  lemma KeptAgrees(text: Text, path: seq<Segment>, ended: bool, root: Slot)
    requires root.child.Some? ==> IndexOk(text, SkipInsignificant(text), root.child.value, ended, 0)
    ensures Kept(text, path, ended, root).0 == Fresh(text, path, ended)
    ensures var next := Kept(text, path, ended, root).1;
      next.child.Some? && !StopsShort(SkipInsignificant(text), path, ended, 0) ==>
        IndexOk(text, SkipInsignificant(text), next.child.value, ended, 0)
  {
    var t := SkipInsignificant(text);
    SkipIsSuffix(text);
    OffsetOf(text, t);
    KeptValueAgrees(text, Offset(text, t), path, ended, 0, root);
  }

  predicate HasPull(events: seq<Event>) {
    exists k :: 0 <= k < |events| && events[k].Pull?
  }

  /** Every pull of the run but its last goes on from a place that is no element's end. */
  predicate MovesOn(d: Doc, events: seq<Event>)
    decreases |events|
  {
    events != [] ==>
      && (events[0].Pull? ==> !PullStops(d, events[0].path) || !HasPull(events[1..]))
      && MovesOn(Step(d, events[0]), events[1..])
  }

  /** Every pull of the run finds the feed finished or the buffer steady. */
  predicate CarefulRun(d: Doc, events: seq<Event>)
    decreases |events|
  {
    events != [] ==>
      && (events[0].Pull? ==> d.end == Finished || Steady(d.text))
      && CarefulRun(Step(d, events[0]), events[1..])
  }

  /** Every pull of the run gives the verdict a fresh scan of the same buffer gives. */
  predicate Transparent(d: Doc, events: seq<Event>)
    decreases |events|
  {
    events != [] ==>
      && (events[0].Pull? ==>
           Kept(d.text, events[0].path, d.end == Finished, d.root).0 == Fresh(d.text, events[0].path, d.end == Finished))
      && Transparent(Step(d, events[0]), events[1..])
  }

  lemma {:induction false} NothingPulled(d: Doc, events: seq<Event>)
    requires !HasPull(events)
    ensures Transparent(d, events)
    decreases |events|
  {
    if events != [] {
      assert !events[0].Pull?;
      forall k | 0 <= k < |events[1..]| ensures !events[1..][k].Pull? {
        assert events[1..][k] == events[k + 1];
      }
      NothingPulled(Step(d, events[0]), events[1..]);
    }
  }

  lemma {:induction false} RunTransparent(d: Doc, base: Text, ended: bool, events: seq<Event>)
    requires IndexedAt(d, base, ended) && CarefulRun(d, events) && MovesOn(d, events)
    ensures Transparent(d, events)
    decreases |events|
  {
    if events != [] {
      if events[0].Pull? {
        PullAgrees(d, base, ended, events[0].path);
        if PullStops(d, events[0].path) {
          NothingPulled(Step(d, events[0]), events[1..]);
        } else {
          RunTransparent(Step(d, events[0]), d.text, d.end == Finished, events[1..]);
        }
      } else {
        RunTransparent(Step(d, events[0]), base, ended, events[1..]);
      }
    }
  }

  /**
   Resuming is transparent from the start, for every cutting of the text and every order of pulls, on
   paths of keys and indices, as long as each buffer is steady and only the last pull stops at an
   element's end.
   */
  lemma ResumeTransparent(events: seq<Event>)
    requires CarefulRun(Empty, events) && MovesOn(Empty, events)
    ensures Transparent(Empty, events)
  {
    RunTransparent(Empty, [], false, events);
  }

  // ---------- runs over strict JSON ----------

  function Final(d: Doc, events: seq<Event>): Doc
    decreases |events|
  {
    if events == [] then d else Final(Step(d, events[0]), events[1..])
  }

  predicate KeyPulls(events: seq<Event>) {
    forall k :: 0 <= k < |events| && events[k].Pull? ==> KeysOnly(events[k].path)
  }

  lemma {:induction false} TextOnlyGrows(d: Doc, events: seq<Event>)
    ensures d.text <= Final(d, events).text
    decreases |events|
  {
    if events != [] {
      TextOnlyGrows(Step(d, events[0]), events[1..]);
    }
  }

  lemma {:induction false} StrictRunCareful(d: Doc, events: seq<Event>)
    requires Verdict(Start, Final(d, events).text) != Invalid
    ensures CarefulRun(d, events)
    decreases |events|
  {
    if events != [] {
      TextOnlyGrows(d, events);
      var final := Final(d, events).text;
      assert final == d.text + final[|d.text|..];
      C.Continue(Start, d.text, final[|d.text|..]);
      StrictRunCareful(Step(d, events[0]), events[1..]);
    }
  }

  lemma {:induction false} KeysMoveOn(d: Doc, events: seq<Event>)
    requires KeyPulls(events)
    ensures MovesOn(d, events)
    decreases |events|
  {
    if events != [] {
      if events[0].Pull? {
        KeysNeverStop(SkipInsignificant(d.text), events[0].path, d.end == Finished, 0);
      }
      assert KeyPulls(events[1..]);
      KeysMoveOn(Step(d, events[0]), events[1..]);
    }
  }

  /**
   For every cutting of a text that can still become strict JSON, in particular of every JSON text,
   and every order of pulls on object-key paths, each pull gives the verdict of a fresh scan.
   */
  lemma StrictJsonTransparent(events: seq<Event>)
    requires KeyPulls(events) && (exists u :: IsJsonText(Final(Empty, events).text + u))
    ensures Transparent(Empty, events)
  {
    C.ClassifierExact(Final(Empty, events).text);
    StrictRunCareful(Empty, events);
    KeysMoveOn(Empty, events);
    ResumeTransparent(events);
  }

  /** Likewise on all paths, while no pull but the last stops at an element's end. */
  lemma StrictJsonMixedPaths(events: seq<Event>)
    requires MovesOn(Empty, events) && (exists u :: IsJsonText(Final(Empty, events).text + u))
    ensures Transparent(Empty, events)
  {
    C.ClassifierExact(Final(Empty, events).text);
    StrictRunCareful(Empty, events);
    ResumeTransparent(events);
  }

  // ---------- arrays ----------

  /** What a kept scan finds depends only on where it starts and on the number it starts counting from. */
  lemma {:induction false} KeptElementScan(text: Text, r: Text, element: nat, wanted: nat, ended: bool, depth: nat, index: Index)
    requires IsSuffix(r, text)
    ensures KeptElement(text, Offset(text, r), element, wanted, [], ended, depth, index).0
         == FreshElement(r, element, wanted, [], ended, depth)
    decreases |r|, 1
  {
    OffsetOf(text, r);
    var t := SkipInsignificant(r);
    SkipIsSuffix(r);
    SuffixTrans(t, r, text);
    OffsetOf(text, t);
    if t != [] && t[0] == COMMA {
      DropSuffix(t, 1);
      SuffixTrans(t[1..], t, text);
      KeptElementScan(text, t[1..], element, wanted, ended, depth, index.Advance(Offset(text, r)));
    } else if t != [] && t[0] != RBRACKET && element != wanted {
      ElementPass(text, r, element, wanted, ended, depth, index);
    }
  }

  /** One pass of each scan over such an element. */
  lemma ElementPasses(text: Text, r: Text, element: nat, wanted: nat, ended: bool, depth: nat, index: Index)
    requires From(text, Offset(text, r)) == r && element != wanted
    requires SkipInsignificant(r) != [] && SkipInsignificant(r)[0] != RBRACKET && SkipInsignificant(r)[0] != COMMA
    ensures var v := SkipValue(SkipInsignificant(r), ended, depth + 1, RBRACKET);
      && KeptElement(text, Offset(text, r), element, wanted, [], ended, depth, index).0
         == (if v.Next? then
               KeptElement(text, Offset(text, v.rest), element + 1, wanted, [], ended, depth,
                           Passed(text, SkipInsignificant(r), element, index.Advance(Offset(text, r)))).0
             else if v.Closed? then Missing else Waiting)
      && FreshElement(r, element, wanted, [], ended, depth)
         == (if v.Next? then FreshElement(v.rest, element + 1, wanted, [], ended, depth)
             else if v.Closed? then Missing else Waiting)
  {
  }

  lemma {:induction false} ElementPass(text: Text, r: Text, element: nat, wanted: nat, ended: bool, depth: nat, index: Index)
    requires IsSuffix(r, text) && element != wanted
    requires var t := SkipInsignificant(r); t != [] && t[0] != RBRACKET && t[0] != COMMA && IsSuffix(t, text)
    ensures KeptElement(text, Offset(text, r), element, wanted, [], ended, depth, index).0
         == FreshElement(r, element, wanted, [], ended, depth)
    decreases |SkipInsignificant(r)|, 0
  {
    OffsetOf(text, r);
    ElementPasses(text, r, element, wanted, ended, depth, index);
    var t := SkipInsignificant(r);
    var v := SkipValue(t, ended, depth + 1, RBRACKET);
    if v.Next? {
      TailSuffix(t, ended, depth + 1, RBRACKET);
      SuffixTrans(v.rest, t, text);
      KeptElementScan(text, v.rest, element + 1, wanted, ended, depth, Passed(text, t, element, index.Advance(Offset(text, r))));
    }
  }

  /** Counting from different numbers, the element at the scan's start is found by one count only. */
  lemma {:induction false} LaterElement(t: Text, element: nat, wanted: nat, ended: bool, depth: nat)
    ensures var p := FreshElement(t, element, wanted, [], ended, depth); p.Found? ==> |p.t| <= |t|
    decreases |t|
  {
    var t1 := SkipInsignificant(t);
    if t1 != [] && t1[0] != RBRACKET {
      if t1[0] == COMMA {
        LaterElement(t1[1..], element, wanted, ended, depth);
      } else if element != wanted && SkipValue(t1, ended, depth + 1, RBRACKET).Next? {
        LaterElement(SkipValue(t1, ended, depth + 1, RBRACKET).rest, element + 1, wanted, ended, depth);
      }
    }
  }

  lemma {:induction false} CountsDiffer(t: Text, count: nat, wanted: nat, ended: bool, depth: nat)
    requires count < wanted && FreshElement(t, wanted, wanted, [], ended, depth).Found?
    ensures FreshElement(t, count, wanted, [], ended, depth) != FreshElement(t, wanted, wanted, [], ended, depth)
    decreases |t|
  {
    var t1 := SkipInsignificant(t);
    if t1[0] == COMMA {
      CountsDiffer(t1[1..], count, wanted, ended, depth);
    } else if SkipValue(t1, ended, depth + 1, RBRACKET).Next? {
      LaterElement(SkipValue(t1, ended, depth + 1, RBRACKET).rest, count + 1, wanted, ended, depth);
    }
  }

  /**
   Exactly when array resume is right. The index keeps |elements| elements and resumes after m of
   them; the next element is found where a fresh scan finds it if and only if the two counts agree.
   They disagree when a probe stopped right after an element, before its separator.
   */
  lemma ArrayResumeExact(text: Text, pos: nat, m: nat, offset: nat, index: Index, ended: bool, depth: nat)
    requires pos < |text| && text[pos] == LBRACKET && depth < MAX_DEPTH && index.frontier <= |text|
    requires CoversElements(text[pos + 1..], text[index.frontier..], m, ended, depth) && m <= |index.elements|
    requires m < |index.elements| ==> FreshElement(text[index.frontier..], 0, 0, [], ended, depth).Found?
    ensures KeptValue(text, pos, [At(|index.elements|)], ended, depth, Slot(offset, Some(index))).0
         == FreshValue(text[pos..], [At(|index.elements|)], ended, depth)
       <==> |index.elements| == m
  {
    hide SkipInsignificant, SkipValue, FreshElement, KeptElement, CoversElements;
    var n := |index.elements|;
    var f := text[index.frontier..];
    DropSuffix(text, index.frontier);
    KeptElementScan(text, f, n, n, ended, depth, index);
    ElementsSkip(text[pos + 1..], f, m, 0, n, [], ended, depth);
    assert text[pos..][1..] == text[pos + 1..] && [At(n)][1..] == [];
    assert Offset(text, f) == index.frontier;
    if m < n {
      SameStart(f, 0, n, ended, depth);
      CountsDiffer(f, m, n, ended, depth);
    }
  }

  lemma {:induction false} SameStart(t: Text, a: nat, b: nat, ended: bool, depth: nat)
    ensures FreshElement(t, a, a, [], ended, depth) == FreshElement(t, b, b, [], ended, depth)
    decreases |t|
  {
    var t1 := SkipInsignificant(t);
    if t1 != [] && t1[0] == COMMA {
      SameStart(t1[1..], a, b, ended, depth);
    }
  }

  const ONE_ELEMENT: Text := [LBRACKET, 0x31, RBRACKET]

  /**
   Array resume counts an element twice. On the finished text `[1]`, asking for element 1 answers
   missing, as a fresh scan does; asking again finds element 0.
   */
  lemma ArrayResumeCountsTwice()
    ensures IsJsonText(ONE_ELEMENT)
    ensures var path := [At(1)];
      var first := Kept(ONE_ELEMENT, path, true, Empty.root);
      && Fresh(ONE_ELEMENT, path, true) == Missing
      && first.0 == Missing
      && Kept(ONE_ELEMENT, path, true, first.1).0 == Found(ONE_ELEMENT[1..], 1)
  {
    OneElementIsJson();
    var text := ONE_ELEMENT;
    var t := text[1..];
    assert t == [0x31, RBRACKET] && t[1..] == [RBRACKET] && t[..1] == [0x31] && t[2..] == [];
    assert NumberRun(t) == 1;
    OneIsANumber();
    assert ScanValue(t, true, 1) == Located(NumberShape(JsNumber([0x31]).value), Some([RBRACKET]));
    assert SkipValue(t, true, 1, RBRACKET) == Closed([]);
    assert SkipInsignificant(text) == text && SkipInsignificant(t) == t;
    var index := Index(1, map[], [], None);
    var pushed := Index(1, map[], [Slot(1, None)], None);
    assert From(text, 1) == t;
    assert TailOf(ScanValue(t, true, 1), RBRACKET) == Closed([]);
    assert Offset(text, t) == 1 && Passed(text, t, 0, index) == pushed;
    assert KeptElement(text, 1, 0, 1, [], true, 0, index) == (Missing, pushed);
    assert [At(1)][1..] == [];
    assert FreshElement(t, 0, 1, [], true, 0) == Missing;
    assert Kept(text, [At(1)], true, Empty.root) == (Missing, Slot(0, Some(pushed)));
    assert Offset(text, text) == 0 && From(text, 0) == text;
    assert |pushed.elements| == 1;
    assert KeptValue(text, 0, [At(1)], true, 0, Slot(0, Some(pushed))).0 == KeptElement(text, 1, 1, 1, [], true, 0, pushed).0;
    assert KeptElement(text, 1, 1, 1, [], true, 0, pushed).0 == Found(t, 1);
  }

  lemma OneIsANumber()
    ensures JsNumber([0x31]).Some?
  {
    var one: Text := [0x31];
    assert one[1..] == [] && one[..1] == one && one[..0] == [];
    assert DigitRun(one) == 1;
    assert DecimalValue(false, one) == Some(Decimal(false, one, 0));
    assert DigitsValue(one, 10) == 1;
  }

  lemma OneElementIsJson()
    ensures IsJsonText(ONE_ELEMENT)
  {
    var one := Number(false, [0x31], None, None);
    var v := Array(LastElement([], Num(one), []));
    assert PrintNumber(one) == [0x31];
    assert Print(v) == ONE_ELEMENT;
    assert [] + Print(v) + [] == ONE_ELEMENT;
    assert ValueOk(v) && AllWhitespace([]);
  }
}
