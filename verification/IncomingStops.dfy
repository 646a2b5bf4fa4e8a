/**
 What a pull leaves behind that stops right after an element of an array: an index that answers a later
 pull wrongly, on this buffer and on every longer one.
 */
module IncomingStops {
  import opened Units
  import opened JsonGrammar
  import opened JsonLexer
  import opened JsonScanner
  import opened IncomingScan
  import opened BlankStability
  import opened IncomingStability
  import opened IncomingSelect
  import opened IncomingResume
  import opened IncomingRuns
  import R = JsonReading

  // ---------- the path that goes wrong ----------

  /** The path of the array in which the probe stops, and the number after that of the element it stops at. */
  function WrongPath(t: Text, path: seq<Segment>, ended: bool, depth: nat): seq<Segment>
    requires StopsShort(t, path, ended, depth)
    decreases |t|, 1
  {
    match path[0]
    case Key(name) => [Key(name)] + WrongInKey(t[1..], name, path[1..], ended, depth)
    case At(i) => WrongInElement(t[1..], 0, i, path[1..], ended, depth)
  }

  function WrongInKey(t: Text, wanted: Text, path: seq<Segment>, ended: bool, depth: nat): seq<Segment>
    requires StopsInKey(t, wanted, path, ended, depth)
    decreases |t|, 0
  {
    var m := ReadMember(t);
    if m.StrayComma? then WrongInKey(m.rest, wanted, path, ended, depth)
    else if m.key == wanted then WrongPath(m.value, path, ended, depth + 1)
    else WrongInKey(SkipValue(m.value, ended, depth + 1, RBRACE).rest, wanted, path, ended, depth)
  }

  function WrongInElement(t: Text, element: nat, wanted: nat, path: seq<Segment>, ended: bool, depth: nat): seq<Segment>
    requires StopsInElement(t, element, wanted, path, ended, depth)
    decreases |t|, 2
  {
    var t1 := SkipInsignificant(t);
    if t1[0] == COMMA then WrongInElement(t1[1..], element, wanted, path, ended, depth)
    else if element == wanted then [At(wanted)] + WrongPath(t1, path, ended, depth + 1)
    else
      var v := SkipValue(t1, ended, depth + 1, RBRACKET);
      if v.Next? then WrongInElement(v.rest, element + 1, wanted, path, ended, depth)
      else [At(element + 1)]
  }

  // ---------- an index that misleads ----------

  /** The slot of the member or element that a longer path goes through. */
  predicate Through(text: Text, t: Text, index: Index, segment: Segment, slot: Slot, ended: bool, depth: nat)
    requires t != []
  {
    && slot.offset <= |text|
    && match segment
       case Key(name) =>
         && name in index.keys && slot == index.keys[name]
         && FirstAt(t[1..], name, text[slot.offset..], ended, depth)
         && ReadMember(text[slot.offset..]).Keyed? && ReadMember(text[slot.offset..]).value != []
       case At(i) =>
         && CoversElements(t[1..], text[slot.offset..], i, ended, depth) && StartsElement(text[slot.offset..])
         && if i < |index.elements| then slot == index.elements[i]
            else
              && i == |index.elements| && index.tail == Some(slot) && index.frontier <= |text|
              && CoversElements(t[1..], text[index.frontier..], i, ended, depth)
              && SkipInsignificant(text[index.frontier..]) == text[slot.offset..]
  }

  /** The text of the value behind such a slot. */
  function Behind(text: Text, segment: Segment, slot: Slot): Text
    requires slot.offset <= |text|
  {
    var at := text[slot.offset..];
    if segment.At? then at else if ReadMember(at).Keyed? then ReadMember(at).value else []
  }

  /**
   Following the path through the index leads to an array that has one element more on record than lie
   before its frontier, and asks for the next.
   */
  ghost predicate Misled(text: Text, t: Text, index: Index, path: seq<Segment>, ended: bool, depth: nat)
    decreases |path|, 1
  {
    && path != [] && t != [] && depth < MAX_DEPTH && t[0] == (if path[0].Key? then LBRACE else LBRACKET)
    && if path[0].At? && |path| == 1 then path[0].i == |index.elements| && CountsTwice(text, t, index, ended, depth)
       else exists slot: Slot :: MisledBehind(text, t, index, path, slot, ended, depth)
  }

  /** An array index with one element more on record than lie before its frontier, where a complete element stands. */
  predicate CountsTwice(text: Text, t: Text, index: Index, ended: bool, depth: nat)
    requires t != []
  {
    && |index.elements| > 0 && index.frontier <= |text|
    && CoversElements(t[1..], text[index.frontier..], |index.elements| - 1, ended, depth)
    && var place := SkipInsignificant(text[index.frontier..]);
       StartsElement(place) && Done(ScanValue(place, ended, depth + 1))
  }

  ghost predicate MisledBehind(text: Text, t: Text, index: Index, path: seq<Segment>, slot: Slot, ended: bool, depth: nat)
    requires path != [] && t != []
    decreases |path|, 0
  {
    && Through(text, t, index, path[0], slot, ended, depth) && slot.child.Some?
    && IsSuffix(Behind(text, path[0], slot), text)
    && Misled(text, Behind(text, path[0], slot), slot.child.value, path[1..], ended, depth + 1)
  }

  // ---------- a misled probe is wrong ----------

  /** At the array itself: the kept scan takes the element at the frontier for the one after it. */
  lemma KeptTakesFrontier(text: Text, index: Index, ended: bool, depth: nat)
    requires index.frontier <= |text| && StartsElement(SkipInsignificant(text[index.frontier..]))
    ensures var n := |index.elements|;
      KeptElement(text, index.frontier, n, n, [], ended, depth, index).0
      == Found(SkipInsignificant(text[index.frontier..]), depth + 1)
  {
    var n, r := |index.elements|, text[index.frontier..];
    var place := SkipInsignificant(r);
    DropSuffix(text, index.frontier);
    SkipIsSuffix(r);
    SuffixTrans(place, r, text);
    OffsetOf(text, place);
    assert Offset(text, r) == index.frontier && From(text, index.frontier) == r;
    ElementKept(text, r, n, n, [], ended, depth, index);
    hide KeptElement, SkipInsignificant, SkipValue;
  }

  /** A fresh scan that is one element short of the wanted one goes past it. */
  lemma FreshGoesPast(t: Text, r: Text, n: nat, ended: bool, depth: nat)
    requires n > 0 && CoversElements(t, r, n - 1, ended, depth) && StartsElement(SkipInsignificant(r))
    ensures FreshElement(t, 0, n, [], ended, depth) != Found(SkipInsignificant(r), depth + 1)
  {
    hide FreshElement, SkipInsignificant, SkipValue, CoversElements, StopsInElement, StartsElement;
    var place := SkipInsignificant(r);
    ElementsSkip(t, r, n - 1, 0, n, [], ended, depth);
    ElementFresh(r, n - 1, n, [], ended, depth);
    var v := SkipValue(place, ended, depth + 1, RBRACKET);
    if v.Next? {
      LaterElement(v.rest, n, n, ended, depth);
    }
  }

  /** Through a key: both probes go on at the member's value. */
  lemma KeyLeadsOn(text: Text, t: Text, index: Index, name: Text, slot: Slot, path: seq<Segment>, ended: bool, depth: nat)
    requires t != [] && Through(text, t, index, Key(name), slot, ended, depth)
    requires IsSuffix(Behind(text, Key(name), slot), text)
    ensures var value := Behind(text, Key(name), slot);
      && KeptKey(text, slot.offset, name, path, ended, depth, index).0
         == KeptValue(text, Offset(text, value), path, ended, depth + 1, slot).0
      && FreshKey(t[1..], name, path, ended, depth) == FreshValue(value, path, ended, depth + 1)
  {
    var at := text[slot.offset..];
    FirstDecides(t[1..], name, at, path, ended, depth);
    KeyedPass(text, slot.offset, name, path, ended, depth, index);
  }

  /** Through an element likewise. */
  lemma ElementLeadsOn(text: Text, t: Text, index: Index, i: nat, slot: Slot, path: seq<Segment>, ended: bool, depth: nat)
    requires t != [] && Through(text, t, index, At(i), slot, ended, depth)
    ensures var known := i < |index.elements|;
      var start := if known then slot.offset else index.frontier;
      && KeptElement(text, start, i, i, path, ended, depth, index).0 == KeptValue(text, slot.offset, path, ended, depth + 1, slot).0
      && FreshElement(t[1..], 0, i, path, ended, depth) == FreshValue(text[slot.offset..], path, ended, depth + 1)
  {
    var at := text[slot.offset..];
    DropSuffix(text, slot.offset);
    OffsetOf(text, at);
    assert Offset(text, at) == slot.offset;
    var r := if i < |index.elements| then at else text[index.frontier..];
    var start := if i < |index.elements| then slot.offset else index.frontier;
    DropSuffix(text, start);
    OffsetOf(text, r);
    assert Offset(text, r) == start && SkipInsignificant(r) == at;
    ElementKept(text, r, i, i, path, ended, depth, index);
    ElementsSkip(t[1..], at, i, 0, i, path, ended, depth);
    ElementFresh(at, i, i, path, ended, depth);
  }

  /** p is a complete value, and not what q is. */
  predicate Mistaken(p: Probe, q: Probe, ended: bool) {
    p.Found? && Done(ScanValue(p.t, ended, p.depth)) && p != q
  }

  /** A probe along the path is answered, with a complete value, and wrongly. */
  lemma {:induction false} MisledIsWrong(text: Text, pos: nat, path: seq<Segment>, ended: bool, depth: nat, slot: Slot)
    requires pos <= |text| && slot.child.Some? && Misled(text, text[pos..], slot.child.value, path, ended, depth)
    ensures Mistaken(KeptValue(text, pos, path, ended, depth, slot).0, FreshValue(text[pos..], path, ended, depth), ended)
    decreases |path|, 1
  {
    var t, index := text[pos..], slot.child.value;
    if path[0].At? && |path| == 1 {
      KeptTakesFrontier(text, index, ended, depth);
      FreshGoesPast(t[1..], text[index.frontier..], |index.elements|, ended, depth);
      assert path[1..] == [];
    } else {
      var s: Slot :| MisledBehind(text, t, index, path, s, ended, depth);
      hide MisledBehind, KeptKey, KeptElement, FreshKey, FreshElement, Mistaken;
      BehindIsWrong(text, t, index, path, s, ended, depth);
    }
  }

  lemma {:induction false} BehindIsWrong(text: Text, t: Text, index: Index, path: seq<Segment>, slot: Slot, ended: bool, depth: nat)
    requires path != [] && t != [] && MisledBehind(text, t, index, path, slot, ended, depth)
    ensures path[0].Key? ==>
      path[0].name in index.keys
      && Mistaken(KeptKey(text, index.keys[path[0].name].offset, path[0].name, path[1..], ended, depth, index).0,
                  FreshKey(t[1..], path[0].name, path[1..], ended, depth), ended)
    ensures path[0].At? ==> var known := path[0].i < |index.elements|;
      (!known ==> path[0].i == |index.elements|)
      && Mistaken(KeptElement(text, if known then index.elements[path[0].i].offset else index.frontier, path[0].i, path[0].i,
                              path[1..], ended, depth, index).0,
                  FreshElement(t[1..], 0, path[0].i, path[1..], ended, depth), ended)
    decreases |path|, 0
  {
    var value := Behind(text, path[0], slot);
    OffsetOf(text, value);
    hide Misled, KeptValue, FreshValue, KeptKey, FreshKey, KeptElement, FreshElement, FirstAt, CoversElements, Mistaken;
    MisledIsWrong(text, Offset(text, value), path[1..], ended, depth + 1, slot);
    if path[0].Key? {
      KeyLeadsOn(text, t, index, path[0].name, slot, path[1..], ended, depth);
    } else {
      ElementLeadsOn(text, t, index, path[0].i, slot, path[1..], ended, depth);
      assert Offset(text, value) == slot.offset;
    }
  }

  // ---------- and stays wrong while text arrives ----------

  lemma FoundPlaceGrows(s: State, r: Text, u: Text)
    requires R.AtValue(s) && Settled(s, r) && StartsElement(SkipInsignificant(r))
    ensures SkipInsignificant(r + u) == SkipInsignificant(r) + u && StartsElement(SkipInsignificant(r + u))
    ensures Settled(s, SkipInsignificant(r)) && !IsWhitespace(SkipInsignificant(r)[0])
  {
    var f := SkipInsignificant(r);
    BlankSettled(s, r);
    NoLoneSlash(s, f);
    SkipGrows(r, u);
    SkipGrows(f, u);
    FirstUnit(f, u);
  }

  lemma SuffixOfGrown(r: Text, text: Text, u: Text)
    requires IsSuffix(r, text)
    ensures IsSuffix(r + u, text + u)
  {
  }

  lemma MemberSettled(s: State, text: Text, t: Text, at: Text)
    requires t != [] && IsSuffix(t, text) && IsSuffix(at, text) && ReadMember(at).Keyed? && s.mode.Expecting?
    requires NoEdgeSlash(t) || Alive(State(Expecting(ExpValue), s.stack), ReadMember(at).value)
    ensures Settled(State(Expecting(ExpValue), s.stack), ReadMember(at).value)
    ensures ReadMember(at).value != [SLASH]
  {
    var value := ReadMember(at).value;
    MemberSuffix(at);
    SuffixTrans(value, at, text);
    SuffixEdge(value, text);
    SuffixEdge(t, text);
    NoLoneSlash(State(Expecting(ExpValue), s.stack), value);
  }

  /** What stands behind a key's slot grows with the text; the state is that before the member's value. */
  lemma KeyGrowsOn(s: State, outer: seq<bool>, text: Text, t: Text, u: Text, index: Index, name: Text, slot: Slot, ended: bool, depth: nat)
    requires t != [] && IsSuffix(t, text) && AtKey(s) && s.stack == outer + [true] && Settled(s, t[1..])
    requires NoEdgeSlash(t) || Alive(s, t[1..])
    requires Through(text, t, index, Key(name), slot, false, depth)
    ensures Through(text + u, t + u, index, Key(name), slot, ended, depth)
    ensures Behind(text + u, Key(name), slot) == Behind(text, Key(name), slot) + u
    ensures Settled(State(Expecting(ExpValue), s.stack), Behind(text, Key(name), slot))
  {
    hide SkipInsignificant, SkipValue, ReadMember, FirstAt, Verdict, Settled, Alive;
    var at := text[slot.offset..];
    PieceGrows(text, u, slot.offset);
    FirstUnit(t, u);
    FirstGrows(s, outer, t[1..], name, at, u, ended, depth);
    DropSuffix(text, slot.offset);
    MemberSettled(s, text, t, at);
  }

  lemma ElementGrowsOn(s: State, outer: seq<bool>, text: Text, t: Text, u: Text, index: Index, i: nat, slot: Slot, ended: bool, depth: nat)
    returns (s1: State)
    requires t != [] && R.AtValue(s) && s.stack == outer + [false] && Settled(s, t[1..])
    requires Through(text, t, index, At(i), slot, false, depth)
    ensures Through(text + u, t + u, index, At(i), slot, ended, depth)
    ensures Behind(text + u, At(i), slot) == Behind(text, At(i), slot) + u
    ensures R.AtValue(s1) && Settled(s1, Behind(text, At(i), slot))
  {
    hide SkipInsignificant, SkipValue;
    var at := text[slot.offset..];
    PieceGrows(text, u, slot.offset);
    FirstUnit(t, u);
    s1 := PlaceGrows(s, outer, t[1..], at, u, i, ended, depth);
    if i >= |index.elements| {
      PieceGrows(text, u, index.frontier);
      var s2 := PlaceGrows(s, outer, t[1..], text[index.frontier..], u, i, ended, depth);
      FoundPlaceGrows(s2, text[index.frontier..], u);
    }
  }

  /** The state inside a container. */
  function Inner(s: State, t: Text): State
    requires t != []
  {
    State(Expecting(if t[0] == LBRACE then ObjKeyOrEnd else ArrValueOrEnd), s.stack + [t[0] == LBRACE])
  }

  lemma InnerSettled(s: State, t: Text)
    requires R.AtValue(s) && Settled(s, t) && t != [] && (t[0] == LBRACE || t[0] == LBRACKET)
    ensures Settled(Inner(s, t), t[1..]) && (NoEdgeSlash(t) || Alive(Inner(s, t), t[1..]))
  {
    DropSuffix(t, 1);
    SuffixEdge(t[1..], t);
  }

  /** A misled probe stays misled while text arrives. */
  lemma {:induction false} MisledGrows(s: State, text: Text, t: Text, u: Text, index: Index, path: seq<Segment>, ended: bool, depth: nat)
    requires R.AtValue(s) && Settled(s, t) && IsSuffix(t, text) && Misled(text, t, index, path, false, depth)
    ensures Misled(text + u, t + u, index, path, ended, depth)
    decreases |path|, 1
  {
    FirstUnit(t, u);
    if path[0].At? && |path| == 1 {
      InnerSettled(s, t);
      BaseGrows(Inner(s, t), s.stack, text, t, u, index, ended, depth);
    } else {
      var slot: Slot :| MisledBehind(text, t, index, path, slot, false, depth);
      hide MisledBehind;
      BehindGrows(s, text, t, u, index, path, slot, ended, depth);
    }
  }

  lemma {:induction false} BehindGrows(s: State, text: Text, t: Text, u: Text, index: Index, path: seq<Segment>, slot: Slot, ended: bool, depth: nat)
    requires R.AtValue(s) && IsSuffix(t, text) && t != [] && path != [] && Settled(s, t)
    requires t[0] == (if path[0].Key? then LBRACE else LBRACKET)
    requires MisledBehind(text, t, index, path, slot, false, depth)
    ensures MisledBehind(text + u, t + u, index, path, slot, ended, depth)
    decreases |path|, 0
  {
    var inner, value := Inner(s, t), Behind(text, path[0], slot);
    assert slot.offset <= |text + u|;
    hide Through, Behind, SkipInsignificant, SkipValue, Settled, CoversElements, StartsElement;
    InnerSettled(s, t);
    var s1 := State(Expecting(ExpValue), inner.stack);
    if path[0].Key? {
      KeyGrowsOn(inner, s.stack, text, t, u, index, path[0].name, slot, ended, depth);
    } else {
      s1 := ElementGrowsOn(inner, s.stack, text, t, u, index, path[0].i, slot, ended, depth);
    }
    hide Misled;
    MisledGrows(s1, text, value, u, slot.child.value, path[1..], ended, depth + 1);
    SuffixOfGrown(value, text, u);
  }

  lemma BaseGrows(s: State, outer: seq<bool>, text: Text, t: Text, u: Text, index: Index, ended: bool, depth: nat)
    requires t != [] && R.AtValue(s) && s.stack == outer + [false] && Settled(s, t[1..])
    requires CountsTwice(text, t, index, false, depth)
    ensures CountsTwice(text + u, t + u, index, ended, depth)
  {
    hide SkipInsignificant, SkipValue;
    PieceGrows(text, u, index.frontier);
    FirstUnit(t, u);
    var s1 := PlaceGrows(s, outer, t[1..], text[index.frontier..], u, |index.elements| - 1, ended, depth);
    FoundPlaceGrows(s1, text[index.frontier..], u);
    ValueGrows(s1, SkipInsignificant(text[index.frontier..]), u, ended, depth + 1);
  }

  // ---------- a pull that stops leaves such an index ----------

  lemma {:induction false} CoversWrong(t: Text, f: Text, wanted: Text, path: seq<Segment>, keys: set<Text>, ended: bool, depth: nat)
    requires Covers(t, f, keys, ended, depth) && wanted !in keys && StopsInKey(t, wanted, path, ended, depth)
    ensures StopsInKey(f, wanted, path, ended, depth)
    ensures WrongInKey(t, wanted, path, ended, depth) == WrongInKey(f, wanted, path, ended, depth)
    decreases |t|
  {
    MemberAtStart(t);
    MemberAtStart(f);
    if t == f || (SkipInsignificant(t) == f && ReadMember(f).Keyed?) {
      assert ReadMember(t) == ReadMember(f);
    } else if ReadMember(t).StrayComma? {
      CoversWrong(ReadMember(t).rest, f, wanted, path, keys, ended, depth);
    } else {
      CoversWrong(SkipValue(ReadMember(t).value, ended, depth + 1, RBRACE).rest, f, wanted, path, keys, ended, depth);
    }
  }

  lemma {:induction false} FirstWrong(t: Text, key: Text, at: Text, path: seq<Segment>, ended: bool, depth: nat)
    requires FirstAt(t, key, at, ended, depth) && StopsInKey(t, key, path, ended, depth)
    ensures ReadMember(at).Keyed? && StopsShort(ReadMember(at).value, path, ended, depth + 1)
    ensures WrongInKey(t, key, path, ended, depth) == WrongPath(ReadMember(at).value, path, ended, depth + 1)
    decreases |t|
  {
    MemberAtStart(t);
    var m := ReadMember(t);
    if m.StrayComma? {
      FirstWrong(m.rest, key, at, path, ended, depth);
    } else if m.key != key {
      FirstWrong(SkipValue(m.value, ended, depth + 1, RBRACE).rest, key, at, path, ended, depth);
    }
  }

  lemma {:induction false} ElementsWrong(t: Text, f: Text, n: nat, first: nat, wanted: nat, path: seq<Segment>, ended: bool, depth: nat)
    requires CoversElements(t, f, n, ended, depth) && first + n <= wanted && StopsInElement(t, first, wanted, path, ended, depth)
    ensures StopsInElement(f, first + n, wanted, path, ended, depth)
    ensures WrongInElement(t, first, wanted, path, ended, depth) == WrongInElement(f, first + n, wanted, path, ended, depth)
    decreases |t|
  {
    SkipTwice(t);
    hide SkipInsignificant, SkipValue, StopsShort, ScanValue;
    if !(t == f || (SkipInsignificant(t) == f && StartsElement(f))) {
      var t1 := SkipInsignificant(t);
      if t1[0] == COMMA {
        ElementsWrong(t1[1..], f, n, first, wanted, path, ended, depth);
      } else {
        ElementsWrong(SkipValue(t1, ended, depth + 1, RBRACKET).rest, f, n - 1, first + 1, wanted, path, ended, depth);
      }
    }
  }

  lemma MisledThrough(text: Text, t: Text, index: Index, segment: Segment, path: seq<Segment>, slot: Slot, ended: bool, depth: nat)
    requires t != [] && depth < MAX_DEPTH && t[0] == (if segment.Key? then LBRACE else LBRACKET)
    requires Through(text, t, index, segment, slot, ended, depth) && slot.child.Some?
    requires IsSuffix(Behind(text, segment, slot), text)
    requires Misled(text, Behind(text, segment, slot), slot.child.value, path, ended, depth + 1)
    ensures Misled(text, t, index, [segment] + path, ended, depth)
  {
    var all := [segment] + path;
    assert all[0] == segment && all[1..] == path && |all| > 1;
    assert MisledBehind(text, t, index, all, slot, ended, depth);
  }

  /** A pull through a right index that stops right after an element leaves an index that misleads. */
  lemma {:induction false} StopMisleads(text: Text, pos: nat, path: seq<Segment>, ended: bool, depth: nat, slot: Slot)
    requires pos <= |text| && StopsShort(text[pos..], path, ended, depth)
    requires slot.child.Some? ==> IndexOk(text, text[pos..], slot.child.value, ended, depth)
    ensures var next := KeptValue(text, pos, path, ended, depth, slot).1;
      next.child.Some? && Misled(text, text[pos..], next.child.value, WrongPath(text[pos..], path, ended, depth), ended, depth)
    decreases |path|, 0, 0, 0
  {
    var t := text[pos..];
    var index := if slot.child.Some? then slot.child.value else Index(pos + 1, map[], [], None);
    assert text[pos + 1..] == t[1..];
    DropSuffix(text, pos);
    assert IndexOk(text, t, index, ended, depth);
    if path[0].Key? {
      StopInKeyMisleads(text, t, path[0].name, path[1..], ended, depth, index);
    } else {
      StopInElementMisleads(text, t, path[0].i, path[1..], ended, depth, index);
    }
  }

  lemma {:induction false} StopInKeyMisleads(text: Text, body: Text, name: Text, path: seq<Segment>, ended: bool, depth: nat, index: Index)
    requires IndexOk(text, body, index, ended, depth) && body[0] == LBRACE && depth < MAX_DEPTH
    requires StopsInKey(body[1..], name, path, ended, depth)
    ensures var start := if name in index.keys then index.keys[name].offset else index.frontier;
      var next := KeptKey(text, start, name, path, ended, depth, index).1;
      Misled(text, body, next, [Key(name)] + WrongInKey(body[1..], name, path, ended, depth), ended, depth)
    decreases |path|, 3, 0, 0
  {
    if name in index.keys {
      KnownKeyMisleads(text, body, name, path, ended, depth, index);
    } else {
      var f := text[index.frontier..];
      DropSuffix(text, index.frontier);
      assert Offset(text, f) == index.frontier;
      CoversWrong(body[1..], f, name, path, index.keys.Keys, ended, depth);
      NewKeyMisleads(text, body, f, name, path, ended, depth, index);
    }
  }

  lemma {:induction false} KnownKeyMisleads(text: Text, body: Text, wanted: Text, path: seq<Segment>, ended: bool, depth: nat, index: Index)
    requires IndexOk(text, body, index, ended, depth) && body[0] == LBRACE && wanted in index.keys && depth < MAX_DEPTH
    requires StopsInKey(body[1..], wanted, path, ended, depth)
    ensures var next := KeptKey(text, index.keys[wanted].offset, wanted, path, ended, depth, index).1;
      Misled(text, body, next, [Key(wanted)] + WrongInKey(body[1..], wanted, path, ended, depth), ended, depth)
    decreases |path|, 1, 0, 0
  {
    var slot := index.keys[wanted];
    var at := text[slot.offset..];
    assert SlotOk(text, body[1..], wanted, slot, index.keys.Keys, ended, depth);
    FirstWrong(body[1..], wanted, at, path, ended, depth);
    FirstDecides(body[1..], wanted, at, path, ended, depth);
    DropSuffix(text, slot.offset);
    OffsetOf(text, at);
    assert Offset(text, at) == slot.offset;
    hide IndexOk, SlotOk, Covers, StopsInKey, FreshKey, StopsShort, FreshValue, WrongInKey;
    MemberMisleads(text, body, at, path, ended, depth, index.Advance(slot.offset), slot);
    KeyedPass(text, slot.offset, wanted, path, ended, depth, index);
  }

  /** The wanted member's value has been probed, and the probe stopped there. */
  lemma {:induction false} MemberMisleads(text: Text, body: Text, r: Text, path: seq<Segment>, ended: bool, depth: nat, index: Index, slot: Slot)
    requires body != [] && body[0] == LBRACE && depth < MAX_DEPTH && IsSuffix(r, text) && ReadMember(r).Keyed?
    requires StopsShort(ReadMember(r).value, path, ended, depth + 1)
    requires slot.offset <= |text| && text[slot.offset..] == ReadMember(r).at
    requires slot.child.Some? ==> IndexOk(text, ReadMember(r).value, slot.child.value, ended, depth + 1)
    requires FirstAt(body[1..], ReadMember(r).key, ReadMember(r).at, ended, depth)
    requires Entered(text, index, r).keys[ReadMember(r).key] == slot
    ensures var m := ReadMember(r);
      var next := KeptValue(text, Offset(text, m.value), path, ended, depth + 1, slot).1;
      var known := Entered(text, index, r);
      Misled(text, body, known.(keys := known.keys[m.key := next]), [Key(m.key)] + WrongPath(m.value, path, ended, depth + 1), ended, depth)
    decreases |path|, 0, 1, 0
  {
    var m, known := ReadMember(r), Entered(text, index, r);
    MemberSuffix(r);
    SuffixTrans(m.value, r, text);
    OffsetOf(text, m.value);
    MemberAtStart(r);
    SkipTwice(r);
    MemberAtStart(m.at);
    var next := KeptValue(text, Offset(text, m.value), path, ended, depth + 1, slot).1;
    StopMisleads(text, Offset(text, m.value), path, ended, depth + 1, slot);
    KeptValueAgrees(text, Offset(text, m.value), path, ended, depth + 1, slot);
    hide Misled, IndexOk, FirstAt, WrongPath, StopsShort, KeptValue, FreshValue;
    MisledThrough(text, body, known.(keys := known.keys[m.key := next]), Key(m.key), WrongPath(m.value, path, ended, depth + 1), next, ended, depth);
  }

  lemma {:induction false} NewKeyMisleads(text: Text, body: Text, r: Text, wanted: Text, path: seq<Segment>, ended: bool, depth: nat, index0: Index)
    requires IndexOk(text, body, index0, ended, depth) && body[0] == LBRACE && wanted !in index0.keys && depth < MAX_DEPTH
    requires IsSuffix(r, text) && Covers(body[1..], r, index0.keys.Keys, ended, depth)
    requires StopsInKey(r, wanted, path, ended, depth)
    ensures var next := KeptKey(text, Offset(text, r), wanted, path, ended, depth, index0).1;
      Misled(text, body, next, [Key(wanted)] + WrongInKey(r, wanted, path, ended, depth), ended, depth)
    decreases |path|, 1, |r|, 0
  {
    OffsetOf(text, r);
    AdvanceKeeps(text, body, index0, Offset(text, r), ended, depth);
    var index := index0.Advance(Offset(text, r));
    hide Misled;
    if ReadMember(r).StrayComma? {
      var rest := ReadMember(r).rest;
      MemberSuffix(r);
      SuffixTrans(rest, r, text);
      CoversOn(body[1..], r, rest, index.keys.Keys, ended, depth);
      NewKeyMisleads(text, body, rest, wanted, path, ended, depth, index);
    } else {
      KeyedPass(text, Offset(text, r), wanted, path, ended, depth, index0);
      EnteredOk(text, body, index, r, ended, depth);
      if ReadMember(r).key == wanted {
        WantedMisleads(text, body, r, path, ended, depth, index);
      } else {
        var rest := SkippedTo(text, body, r, ended, depth, Entered(text, index, r));
        NewKeyMisleads(text, body, rest, wanted, path, ended, depth, Entered(text, index, r));
      }
    }
  }

  lemma {:induction false} WantedMisleads(text: Text, body: Text, r: Text, path: seq<Segment>, ended: bool, depth: nat, index: Index)
    requires IndexOk(text, body, index, ended, depth) && body[0] == LBRACE && depth < MAX_DEPTH
    requires IsSuffix(r, text) && Covers(body[1..], r, index.keys.Keys, ended, depth)
    requires ReadMember(r).Keyed? && ReadMember(r).key !in index.keys
    requires StopsShort(ReadMember(r).value, path, ended, depth + 1)
    ensures var m := ReadMember(r);
      var known := Entered(text, index, r);
      var next := KeptValue(text, Offset(text, m.value), path, ended, depth + 1, known.keys[m.key]).1;
      Misled(text, body, known.(keys := known.keys[m.key := next]), [Key(m.key)] + WrongPath(m.value, path, ended, depth + 1), ended, depth)
    decreases |path|, 1, 0, 0
  {
    var m, known := ReadMember(r), Entered(text, index, r);
    EnteredOk(text, body, index, r, ended, depth);
    MemberSuffix(r);
    SuffixTrans(m.at, r, text);
    OffsetOf(text, m.at);
    MemberAtStart(r);
    CoversFirst(body[1..], r, m.key, index.keys.Keys, ended, depth);
    hide Misled, IndexOk, Covers, WrongPath, StopsShort;
    MemberMisleads(text, body, r, path, ended, depth, index, known.keys[m.key]);
  }

  // ---------- in arrays ----------

  lemma {:induction false} StopInElementMisleads(text: Text, body: Text, wanted: nat, path: seq<Segment>, ended: bool, depth: nat, index: Index)
    requires IndexOk(text, body, index, ended, depth) && body[0] == LBRACKET && depth < MAX_DEPTH
    requires StopsInElement(body[1..], 0, wanted, path, ended, depth)
    ensures var known := wanted < |index.elements|;
      var start := if known then index.elements[wanted].offset else index.frontier;
      var next := KeptElement(text, start, if known then wanted else |index.elements|, wanted, path, ended, depth, index).1;
      Misled(text, body, next, WrongInElement(body[1..], 0, wanted, path, ended, depth), ended, depth)
    decreases |path|, 4, 0, 0
  {
    hide KeptElement, Misled, PlacesOk;
    if wanted < |index.elements| {
      KnownElementMisleads(text, body, wanted, path, ended, depth, index);
    } else {
      var f := text[index.frontier..];
      DropSuffix(text, index.frontier);
      assert Offset(text, f) == index.frontier;
      ElementsWrong(body[1..], f, |index.elements|, 0, wanted, path, ended, depth);
      NewElementMisleads(text, body, f, wanted, path, ended, depth, index);
    }
  }

  lemma {:induction false} KnownElementMisleads(text: Text, body: Text, i: nat, path: seq<Segment>, ended: bool, depth: nat, index: Index)
    requires IndexOk(text, body, index, ended, depth) && body[0] == LBRACKET && i < |index.elements| && depth < MAX_DEPTH
    requires StopsInElement(body[1..], 0, i, path, ended, depth)
    ensures var next := KeptElement(text, index.elements[i].offset, i, i, path, ended, depth, index).1;
      Misled(text, body, next, WrongInElement(body[1..], 0, i, path, ended, depth), ended, depth)
    decreases |path|, 1, 0, 0
  {
    var slot := index.elements[i];
    assert PlacesOk(text, body[1..], index, ended, depth);
    assert PlaceOk(text, body[1..], i, slot, ended, depth);
    var at := text[slot.offset..];
    DropSuffix(text, slot.offset);
    OffsetOf(text, at);
    assert Offset(text, at) == slot.offset && From(text, slot.offset) == at;
    ElementKept(text, at, i, i, path, ended, depth, index);
    ElementsWrong(body[1..], at, i, 0, i, path, ended, depth);
    ElementFresh(at, i, i, path, ended, depth);
    AtWantedPath(at, i, path, ended, depth);
    hide *;
    RecordedMisleads(text, body, i, path, ended, depth, index);
  }

  lemma {:induction false} RecordedMisleads(text: Text, body: Text, i: nat, path: seq<Segment>, ended: bool, depth: nat, index: Index)
    requires body != [] && body[0] == LBRACKET && i < |index.elements| && depth < MAX_DEPTH
    requires PlaceOk(text, body[1..], i, index.elements[i], ended, depth)
    requires StopsShort(text[index.elements[i].offset..], path, ended, depth + 1)
    ensures var slot := index.elements[i];
      var at := text[slot.offset..];
      var next := KeptValue(text, slot.offset, path, ended, depth + 1, slot).1;
      Misled(text, body, WithSlot(WithSlot(index.Advance(slot.offset), i, slot), i, next), [At(i)] + WrongPath(at, path, ended, depth + 1), ended, depth)
    decreases |path|, 0, 1, 0
  {
    var slot := index.elements[i];
    var at := text[slot.offset..];
    DropSuffix(text, slot.offset);
    hide Misled, StopsShort, WrongPath, IndexOk, KeptValue, FreshValue, CoversElements, SkipInsignificant;
    StopMisleads(text, slot.offset, path, ended, depth + 1, slot);
    KeptValueAgrees(text, slot.offset, path, ended, depth + 1, slot);
    var next := KeptValue(text, slot.offset, path, ended, depth + 1, slot).1;
    var after := WithSlot(WithSlot(index.Advance(slot.offset), i, slot), i, next);
    MisledThrough(text, body, after, At(i), WrongPath(at, path, ended, depth + 1), next, ended, depth);
  }

  lemma AtWantedPath(r: Text, i: nat, path: seq<Segment>, ended: bool, depth: nat)
    requires StartsElement(SkipInsignificant(r)) && StopsInElement(r, i, i, path, ended, depth)
    ensures StopsShort(SkipInsignificant(r), path, ended, depth + 1)
    ensures WrongInElement(r, i, i, path, ended, depth) == [At(i)] + WrongPath(SkipInsignificant(r), path, ended, depth + 1)
  {
  }

  /** An element not recorded: the probe scans on from a covered place and stops. */
  lemma {:induction false} NewElementMisleads(text: Text, body: Text, r: Text, wanted: nat, path: seq<Segment>, ended: bool, depth: nat, index0: Index)
    requires body != [] && body[0] == LBRACKET && IsSuffix(body, text) && IsSuffix(r, text) && depth < MAX_DEPTH
    requires PlacesOk(text, body[1..], index0, ended, depth) && index0.frontier <= Offset(text, r)
    requires CoversElements(body[1..], r, |index0.elements|, ended, depth) && |index0.elements| <= wanted
    requires StopsInElement(r, |index0.elements|, wanted, path, ended, depth)
    ensures var next := KeptElement(text, Offset(text, r), |index0.elements|, wanted, path, ended, depth, index0).1;
      Misled(text, body, next, WrongInElement(r, |index0.elements|, wanted, path, ended, depth), ended, depth)
    decreases |path|, 1, |r|, 3
  {
    SkipTwice(r);
    hide IndexOk, PlacesOk, CoversElements, SkipInsignificant, SkipValue, Misled;
    var t := SkipInsignificant(r);
    if t[0] == COMMA {
      PastCommaMisleads(text, body, r, wanted, path, ended, depth, index0);
    } else if |index0.elements| == wanted {
      AtWantedMisleads(text, body, r, path, ended, depth, index0);
    } else if SkipValue(t, ended, depth + 1, RBRACKET).Next? {
      PastElementMisleads(text, body, r, wanted, path, ended, depth, index0);
    } else {
      AtLastMisleads(text, body, r, wanted, path, ended, depth, index0);
    }
  }

  lemma {:induction false} PastCommaMisleads(text: Text, body: Text, r: Text, wanted: nat, path: seq<Segment>, ended: bool, depth: nat, index0: Index)
    requires body != [] && body[0] == LBRACKET && IsSuffix(body, text) && IsSuffix(r, text) && depth < MAX_DEPTH
    requires PlacesOk(text, body[1..], index0, ended, depth) && index0.frontier <= Offset(text, r)
    requires CoversElements(body[1..], r, |index0.elements|, ended, depth) && |index0.elements| <= wanted
    requires StopsInElement(r, |index0.elements|, wanted, path, ended, depth)
    requires SkipInsignificant(r) != [] && SkipInsignificant(r)[0] == COMMA
    ensures var next := KeptElement(text, Offset(text, r), |index0.elements|, wanted, path, ended, depth, index0).1;
      Misled(text, body, next, WrongInElement(r, |index0.elements|, wanted, path, ended, depth), ended, depth)
    decreases |path|, 1, |r|, 2
  {
    OffsetOf(text, r);
    var index, n, t := index0.Advance(Offset(text, r)), |index0.elements|, SkipInsignificant(r);
    AdvancedOk(text, body, r, index0, ended, depth);
    SkipIsSuffix(r);
    SuffixTrans(t, r, text);
    DropSuffix(t, 1);
    SuffixTrans(t[1..], t, text);
    OffsetOf(text, t[1..]);
    ElementsOn(body[1..], r, t[1..], n, n, ended, depth);
    assert PlacesOk(text, body[1..], index, ended, depth);
    hide IndexOk, PlacesOk, CoversElements, SkipInsignificant, Misled;
    NewElementMisleads(text, body, t[1..], wanted, path, ended, depth, index);
  }

  lemma {:induction false} PastElementMisleads(text: Text, body: Text, r: Text, wanted: nat, path: seq<Segment>, ended: bool, depth: nat, index0: Index)
    requires body != [] && body[0] == LBRACKET && IsSuffix(body, text) && IsSuffix(r, text) && depth < MAX_DEPTH
    requires PlacesOk(text, body[1..], index0, ended, depth) && index0.frontier <= Offset(text, r)
    requires CoversElements(body[1..], r, |index0.elements|, ended, depth) && |index0.elements| <= wanted
    requires StopsInElement(r, |index0.elements|, wanted, path, ended, depth)
    requires StartsElement(SkipInsignificant(r)) && |index0.elements| != wanted
    requires SkipValue(SkipInsignificant(r), ended, depth + 1, RBRACKET).Next?
    ensures var next := KeptElement(text, Offset(text, r), |index0.elements|, wanted, path, ended, depth, index0).1;
      Misled(text, body, next, WrongInElement(r, |index0.elements|, wanted, path, ended, depth), ended, depth)
    decreases |path|, 1, |r|, 1
  {
    hide IndexOk, PlacesOk, CoversElements, KeptElement, FreshElement, SkipInsignificant, StartsElement, Misled;
    hide KeptValue, FreshValue, StopsShort, ScanValue, Passed, WithSlot, ElementSlot, ScanItems;
    OffsetOf(text, r);
    var index, n, t := index0.Advance(Offset(text, r)), |index0.elements|, SkipInsignificant(r);
    AdvancedOk(text, body, r, index0, ended, depth);
    SkipIsSuffix(r);
    SuffixTrans(t, r, text);
    ElementKept(text, r, n, wanted, path, ended, depth, index0);
    NextPath(r, n, wanted, path, ended, depth);
    var rest := SkipValue(t, ended, depth + 1, RBRACKET).rest;
    TailSuffix(t, ended, depth + 1, RBRACKET);
    SuffixTrans(rest, t, text);
    PassedOk(text, body, index, r, rest, ended, depth);
    OffsetOf(text, rest);
    AfterIsFarther(text, r, rest);
    hide *;
    NewElementMisleads(text, body, rest, wanted, path, ended, depth, Passed(text, t, n, index));
  }

  lemma NextPath(r: Text, n: nat, wanted: nat, path: seq<Segment>, ended: bool, depth: nat)
    requires StartsElement(SkipInsignificant(r)) && n != wanted && StopsInElement(r, n, wanted, path, ended, depth)
    requires SkipValue(SkipInsignificant(r), ended, depth + 1, RBRACKET).Next?
    ensures var rest := SkipValue(SkipInsignificant(r), ended, depth + 1, RBRACKET).rest;
      && StopsInElement(rest, n + 1, wanted, path, ended, depth)
      && WrongInElement(r, n, wanted, path, ended, depth) == WrongInElement(rest, n + 1, wanted, path, ended, depth)
  {
  }

  lemma {:induction false} AtWantedMisleads(text: Text, body: Text, r: Text, path: seq<Segment>, ended: bool, depth: nat, index0: Index)
    requires body != [] && body[0] == LBRACKET && IsSuffix(body, text) && IsSuffix(r, text) && depth < MAX_DEPTH
    requires PlacesOk(text, body[1..], index0, ended, depth) && index0.frontier <= Offset(text, r)
    requires CoversElements(body[1..], r, |index0.elements|, ended, depth) && StartsElement(SkipInsignificant(r))
    requires StopsInElement(r, |index0.elements|, |index0.elements|, path, ended, depth)
    ensures var n := |index0.elements|;
      var next := KeptElement(text, Offset(text, r), n, n, path, ended, depth, index0).1;
      Misled(text, body, next, WrongInElement(r, n, n, path, ended, depth), ended, depth)
    decreases |path|, 1, |r|, 1
  {
    OffsetOf(text, r);
    var index, n, t := index0.Advance(Offset(text, r)), |index0.elements|, SkipInsignificant(r);
    AdvancedOk(text, body, r, index0, ended, depth);
    SkipIsSuffix(r);
    SuffixTrans(t, r, text);
    ElementKept(text, r, n, n, path, ended, depth, index0);
    AtWantedPath(r, n, path, ended, depth);
    hide *;
    WantedElementMisleads(text, body, r, path, ended, depth, index);
  }

  lemma {:induction false} WantedElementMisleads(text: Text, body: Text, r: Text, path: seq<Segment>, ended: bool, depth: nat, index: Index)
    requires IndexOk(text, body, index, ended, depth) && body[0] == LBRACKET && text[index.frontier..] == r && depth < MAX_DEPTH
    requires StartsElement(SkipInsignificant(r)) && IsSuffix(SkipInsignificant(r), text)
    requires StopsShort(SkipInsignificant(r), path, ended, depth + 1)
    ensures var t, n := SkipInsignificant(r), |index.elements|;
      var slot := ElementSlot(index, n, Offset(text, t));
      var next := KeptValue(text, Offset(text, t), path, ended, depth + 1, slot).1;
      Misled(text, body, WithSlot(WithSlot(index, n, slot), n, next), [At(n)] + WrongPath(t, path, ended, depth + 1), ended, depth)
    decreases |path|, 0, 1, 0
  {
    var t, n := SkipInsignificant(r), |index.elements|;
    var slot := ElementSlot(index, n, Offset(text, t));
    EnterElement(text, body, index, r, ended, depth);
    OffsetOf(text, t);
    StopMisleads(text, Offset(text, t), path, ended, depth + 1, slot);
    KeptValueAgrees(text, Offset(text, t), path, ended, depth + 1, slot);
    var next := KeptValue(text, Offset(text, t), path, ended, depth + 1, slot).1;
    var after := WithSlot(WithSlot(index, n, slot), n, next);
    assert PlaceOk(text, body[1..], n, slot, ended, depth);
    hide Misled, WrongPath, StopsShort, KeptValue, FreshValue, PlacesOk, SkipInsignificant;
    MisledThrough(text, body, after, At(n), WrongPath(t, path, ended, depth + 1), next, ended, depth);
  }

  /** The probe stops here: the element is on record, the frontier still before it. */
  lemma AtLastMisleads(text: Text, body: Text, r: Text, wanted: nat, path: seq<Segment>, ended: bool, depth: nat, index0: Index)
    requires body != [] && body[0] == LBRACKET && IsSuffix(body, text) && IsSuffix(r, text) && depth < MAX_DEPTH
    requires PlacesOk(text, body[1..], index0, ended, depth) && index0.frontier <= Offset(text, r)
    requires CoversElements(body[1..], r, |index0.elements|, ended, depth) && |index0.elements| <= wanted
    requires StopsInElement(r, |index0.elements|, wanted, path, ended, depth)
    requires StartsElement(SkipInsignificant(r)) && |index0.elements| != wanted
    requires !SkipValue(SkipInsignificant(r), ended, depth + 1, RBRACKET).Next?
    ensures var next := KeptElement(text, Offset(text, r), |index0.elements|, wanted, path, ended, depth, index0).1;
      Misled(text, body, next, WrongInElement(r, |index0.elements|, wanted, path, ended, depth), ended, depth)
  {
    OffsetOf(text, r);
    var index, n, t := index0.Advance(Offset(text, r)), |index0.elements|, SkipInsignificant(r);
    AdvancedOk(text, body, r, index0, ended, depth);
    SkipIsSuffix(r);
    SuffixTrans(t, r, text);
    ElementKept(text, r, n, wanted, path, ended, depth, index0);
    LastPath(r, n, wanted, path, ended, depth);
    PassedCounts(text, body, r, index, ended, depth);
    hide StopsInElement, WrongInElement, PlacesOk, IndexOk, KeptElement, SkipInsignificant, SkipValue;
    hide Passed, CountsTwice, CoversElements, StartsElement, ElementSlot, WithSlot, ScanValue;
  }

  lemma PassedCounts(text: Text, body: Text, r: Text, index: Index, ended: bool, depth: nat)
    requires body != [] && index.frontier <= |text| && text[index.frontier..] == r
    requires CoversElements(body[1..], r, |index.elements|, ended, depth) && StartsElement(SkipInsignificant(r))
    requires Done(ScanValue(SkipInsignificant(r), ended, depth + 1))
    ensures var next := Passed(text, SkipInsignificant(r), |index.elements|, index);
      |next.elements| == |index.elements| + 1 && CountsTwice(text, body, next, ended, depth)
  {
    hide SkipInsignificant, CoversElements;
  }

  lemma LastPath(r: Text, n: nat, wanted: nat, path: seq<Segment>, ended: bool, depth: nat)
    requires StartsElement(SkipInsignificant(r)) && n != wanted && StopsInElement(r, n, wanted, path, ended, depth)
    requires !SkipValue(SkipInsignificant(r), ended, depth + 1, RBRACKET).Next?
    ensures Done(ScanValue(SkipInsignificant(r), ended, depth + 1))
    ensures WrongInElement(r, n, wanted, path, ended, depth) == [At(n + 1)]
  {
  }
}
