/**
 Resuming a member scan from a kept index is transparent: a probe gives the verdict of a scan from
 scratch, however the text is cut into fragments and whatever was probed before, as long as no earlier
 probe stopped right after an element of an array. ArrayResumeCountsTwice shows what happens when one did.
 */
module IncomingResume {
  import opened Units
  import opened JsonGrammar
  import opened JsonLexer
  import opened JsonScanner
  import opened IncomingScan
  import opened BlankStability
  import opened IncomingStability
  import opened IncomingSelect
  import R = JsonReading

  predicate KeysOnly(path: seq<Segment>) {
    forall k :: 0 <= k < |path| ==> path[k].Key?
  }

  // ---------- the invariant of an index ----------

  /** The scan from t reaches f through members that are skipped whole and whose keys are recorded. */
  predicate Covers(t: Text, f: Text, keys: set<Text>, ended: bool, depth: nat)
    decreases |t|
  {
    if t == f || (SkipInsignificant(t) == f && ReadMember(f).Keyed?) then true
    else match ReadMember(t)
      case StrayComma(rest) => Covers(rest, f, keys, ended, depth)
      case Keyed(key, _, value) =>
        key in keys && value != [] && SkipValue(value, ended, depth + 1, RBRACE).Next?
        && Covers(SkipValue(value, ended, depth + 1, RBRACE).rest, f, keys, ended, depth)
      case _ => false
  }

  /** The first member with this key that the scan from t meets stands at `at`. */
  predicate FirstAt(t: Text, key: Text, at: Text, ended: bool, depth: nat)
    decreases |t|
  {
    match ReadMember(t)
    case StrayComma(rest) => FirstAt(rest, key, at, ended, depth)
    case Keyed(k, a, value) =>
      if k == key then a == at
      else value != [] && SkipValue(value, ended, depth + 1, RBRACE).Next?
           && FirstAt(SkipValue(value, ended, depth + 1, RBRACE).rest, key, at, ended, depth)
    case _ => false
  }

  /** A key's slot: its first member, which the scan reaches; and the index of its value, if any. */
  ghost predicate SlotOk(text: Text, body: Text, key: Text, slot: Slot, keys: set<Text>, ended: bool, depth: nat)
    decreases slot, 0
  {
    && slot.offset <= |text|
    && FirstAt(body, key, text[slot.offset..], ended, depth)
    && Covers(body, text[slot.offset..], keys, ended, depth)
    && ReadMember(text[slot.offset..]).Keyed?
    && (slot.child.Some? ==> IndexOk(text, ReadMember(text[slot.offset..]).value, slot.child.value, ended, depth + 1))
  }

  /** An element begins at t. */
  predicate StartsElement(t: Text) {
    t != [] && SkipInsignificant(t) == t && t[0] != RBRACKET && t[0] != COMMA
  }

  /** The scan from t reaches f past exactly n elements, all skipped whole. */
  predicate CoversElements(t: Text, f: Text, n: nat, ended: bool, depth: nat)
    decreases |t|
  {
    if t == f || (SkipInsignificant(t) == f && StartsElement(f)) then n == 0
    else
      var t1 := SkipInsignificant(t);
      if t1 == [] || t1[0] == RBRACKET then false
      else if t1[0] == COMMA then CoversElements(t1[1..], f, n, ended, depth)
      else
        n > 0 && SkipValue(t1, ended, depth + 1, RBRACKET).Next?
        && CoversElements(SkipValue(t1, ended, depth + 1, RBRACKET).rest, f, n - 1, ended, depth)
  }

  /** Element number i stands at the slot's offset; and the index of its value, if any. */
  ghost predicate PlaceOk(text: Text, body: Text, i: nat, slot: Slot, ended: bool, depth: nat)
    decreases slot, 0
  {
    && slot.offset <= |text|
    && StartsElement(text[slot.offset..])
    && CoversElements(body, text[slot.offset..], i, ended, depth)
    && (slot.child.Some? ==> IndexOk(text, text[slot.offset..], slot.child.value, ended, depth + 1))
  }

  /** The recorded elements, and the one after them, are where the slots say. */
  ghost predicate PlacesOk(text: Text, body: Text, index: Index, ended: bool, depth: nat)
    decreases index, 0
  {
    && (forall i: nat :: i < |index.elements| ==> PlaceOk(text, body, i, index.elements[i], ended, depth))
    && (index.tail.Some? ==> PlaceOk(text, body, |index.elements|, index.tail.value, ended, depth))
  }

  /** The index agrees with the container whose text from its opening delimiter on is t. */
  ghost predicate IndexOk(text: Text, t: Text, index: Index, ended: bool, depth: nat)
    decreases index, 1
  {
    && t != [] && IsSuffix(t, text)
    && index.frontier <= |text|
    && (t[0] == LBRACE ==>
          && Covers(t[1..], text[index.frontier..], index.keys.Keys, ended, depth)
          && forall key :: key in index.keys ==> SlotOk(text, t[1..], key, index.keys[key], index.keys.Keys, ended, depth))
    && (t[0] == LBRACKET ==>
          && CoversElements(t[1..], text[index.frontier..], |index.elements|, ended, depth)
          && PlacesOk(text, t[1..], index, ended, depth))
    && (t[0] == LBRACE || t[0] == LBRACKET)
  }

  // ---------- probes that stop right after an element ----------

  /** The probe ends, in some array on its path, right after a complete element that is not followed by another. */
  predicate StopsShort(t: Text, path: seq<Segment>, ended: bool, depth: nat)
    decreases |t|, 1
  {
    && t != [] && path != [] && t[0] == (if path[0].Key? then LBRACE else LBRACKET) && depth < MAX_DEPTH
    && match path[0]
       case Key(name) => StopsInKey(t[1..], name, path[1..], ended, depth)
       case At(i) => StopsInElement(t[1..], 0, i, path[1..], ended, depth)
  }

  predicate StopsInKey(t: Text, wanted: Text, path: seq<Segment>, ended: bool, depth: nat)
    decreases |t|, 0
  {
    match ReadMember(t)
    case StrayComma(rest) => StopsInKey(rest, wanted, path, ended, depth)
    case Keyed(key, _, value) =>
      value != [] &&
      if key == wanted then StopsShort(value, path, ended, depth + 1)
      else
        var v := SkipValue(value, ended, depth + 1, RBRACE);
        v.Next? && StopsInKey(v.rest, wanted, path, ended, depth)
    case _ => false
  }

  predicate StopsInElement(t: Text, element: nat, wanted: nat, path: seq<Segment>, ended: bool, depth: nat)
    decreases |t|, 2
  {
    var t1 := SkipInsignificant(t);
    if t1 == [] || t1[0] == RBRACKET then false
    else if t1[0] == COMMA then StopsInElement(t1[1..], element, wanted, path, ended, depth)
    else if element == wanted then StopsShort(t1, path, ended, depth + 1)
    else
      var v := SkipValue(t1, ended, depth + 1, RBRACKET);
      if v.Next? then StopsInElement(v.rest, element + 1, wanted, path, ended, depth)
      else Done(ScanValue(t1, ended, depth + 1))
  }

  /** A path of object keys meets no array. */
  lemma {:induction false} KeysNeverStop(t: Text, path: seq<Segment>, ended: bool, depth: nat)
    requires KeysOnly(path)
    ensures !StopsShort(t, path, ended, depth)
    decreases |t|, 1
  {
    if path != [] && t != [] && path[0].Key? {
      KeysNeverStopIn(t[1..], path[0].name, path[1..], ended, depth);
    }
  }

  lemma {:induction false} KeysNeverStopIn(t: Text, wanted: Text, path: seq<Segment>, ended: bool, depth: nat)
    requires KeysOnly(path)
    ensures !StopsInKey(t, wanted, path, ended, depth)
    decreases |t|, 0
  {
    match ReadMember(t)
    case StrayComma(rest) => KeysNeverStopIn(rest, wanted, path, ended, depth);
    case Keyed(key, _, value) =>
      if value != [] {
        if key == wanted {
          KeysNeverStop(value, path, ended, depth + 1);
        } else if SkipValue(value, ended, depth + 1, RBRACE).Next? {
          KeysNeverStopIn(SkipValue(value, ended, depth + 1, RBRACE).rest, wanted, path, ended, depth);
        }
      }
    case _ =>
  }

  // ---------- scanning on from a covered place ----------

  lemma {:induction false} SkipTwice(t: Text)
    ensures SkipInsignificant(SkipInsignificant(t)) == SkipInsignificant(t)
    decreases |t|
  {
    if t != [] {
      if IsWhitespace(t[0]) {
        SkipTwice(t[1..]);
      } else if |t| >= 2 && t[0] == SLASH && (t[1] == SLASH || t[1] == STAR) {
        SkipTwice(AfterComment(t));
      }
    }
  }

  /** A member reads the same from its own start. */
  lemma MemberAtStart(t: Text)
    ensures ReadMember(SkipInsignificant(t)) == ReadMember(t)
    ensures ReadMember(t).Keyed? ==> ReadMember(t).at == SkipInsignificant(t)
  {
    SkipTwice(t);
  }

  lemma {:induction false} CoversMore(t: Text, f: Text, keys: set<Text>, more: set<Text>, ended: bool, depth: nat)
    requires Covers(t, f, keys, ended, depth) && keys <= more
    ensures Covers(t, f, more, ended, depth)
    decreases |t|
  {
    if !(t == f || (SkipInsignificant(t) == f && ReadMember(f).Keyed?)) {
      match ReadMember(t)
      case StrayComma(rest) => CoversMore(rest, f, keys, more, ended, depth);
      case Keyed(_, _, value) =>
        CoversMore(SkipValue(value, ended, depth + 1, RBRACE).rest, f, keys, more, ended, depth);
    }
  }

  /** From a covered place the scan covers what its next pass reaches. */
  lemma {:induction false} CoversOn(t: Text, f: Text, g: Text, keys: set<Text>, ended: bool, depth: nat)
    requires Covers(t, f, keys, ended, depth)
    requires ReadMember(f) == StrayComma(g)
      || (ReadMember(f).Keyed? && g == ReadMember(f).at)
      || (ReadMember(f).Keyed? && ReadMember(f).key in keys && ReadMember(f).value != []
          && SkipValue(ReadMember(f).value, ended, depth + 1, RBRACE) == Next(g))
    ensures Covers(t, g, keys, ended, depth)
    decreases |t|
  {
    MemberAtStart(t);
    MemberAtStart(f);
    if t == f || (SkipInsignificant(t) == f && ReadMember(f).Keyed?) {
      assert ReadMember(t) == ReadMember(f);
    } else {
      match ReadMember(t)
      case StrayComma(rest) => CoversOn(rest, f, g, keys, ended, depth);
      case Keyed(_, _, value) =>
        CoversOn(SkipValue(value, ended, depth + 1, RBRACE).rest, f, g, keys, ended, depth);
    }
  }

  /** A key met after a covered place, and not recorded before it, is met there first. */
  lemma {:induction false} CoversFirst(t: Text, f: Text, key: Text, keys: set<Text>, ended: bool, depth: nat)
    requires Covers(t, f, keys, ended, depth) && key !in keys
    requires ReadMember(f).Keyed? && ReadMember(f).key == key
    ensures FirstAt(t, key, ReadMember(f).at, ended, depth)
    decreases |t|
  {
    MemberAtStart(t);
    MemberAtStart(f);
    if t == f || SkipInsignificant(t) == f {
      assert ReadMember(t) == ReadMember(f);
    } else {
      match ReadMember(t)
      case StrayComma(rest) => CoversFirst(rest, f, key, keys, ended, depth);
      case Keyed(_, _, value) =>
        CoversFirst(SkipValue(value, ended, depth + 1, RBRACE).rest, f, key, keys, ended, depth);
    }
  }

  /** For a key that is not recorded, scanning may start at a covered place. */
  lemma {:induction false} CoversSkips(t: Text, f: Text, wanted: Text, path: seq<Segment>, keys: set<Text>, ended: bool, depth: nat)
    requires Covers(t, f, keys, ended, depth) && wanted !in keys
    ensures FreshKey(t, wanted, path, ended, depth) == FreshKey(f, wanted, path, ended, depth)
    decreases |t|
  {
    MemberAtStart(t);
    if t == f || (SkipInsignificant(t) == f && ReadMember(f).Keyed?) {
      assert ReadMember(t) == ReadMember(f);
    } else {
      match ReadMember(t)
      case StrayComma(rest) => CoversSkips(rest, f, wanted, path, keys, ended, depth);
      case Keyed(_, _, value) =>
        CoversSkips(SkipValue(value, ended, depth + 1, RBRACE).rest, f, wanted, path, keys, ended, depth);
    }
  }

  /** For a recorded key, the scan from scratch ends at the recorded member. */
  lemma {:induction false} FirstDecides(t: Text, key: Text, at: Text, path: seq<Segment>, ended: bool, depth: nat)
    requires FirstAt(t, key, at, ended, depth)
    ensures ReadMember(at).Keyed? && ReadMember(at).key == key && ReadMember(at).at == at
    ensures FreshKey(t, key, path, ended, depth)
         == if ReadMember(at).value == [] then Waiting else FreshValue(ReadMember(at).value, path, ended, depth + 1)
    decreases |t|
  {
    MemberAtStart(t);
    match ReadMember(t)
    case StrayComma(rest) => FirstDecides(rest, key, at, path, ended, depth);
    case Keyed(k, a, value) =>
      if k != key {
        FirstDecides(SkipValue(value, ended, depth + 1, RBRACE).rest, key, at, path, ended, depth);
      }
  }

  lemma OffsetOf(text: Text, r: Text)
    requires IsSuffix(r, text)
    ensures From(text, Offset(text, r)) == r && Offset(text, r) <= |text| && text[Offset(text, r)..] == r
  {
  }

  // ---------- one probe ----------

  /** Recording a newly met member keeps the index right. */
  lemma RecordMember(text: Text, body: Text, index: Index, r: Text, ended: bool, depth: nat)
    requires IndexOk(text, body, index, ended, depth) && body[0] == LBRACE && IsSuffix(r, text)
    requires Covers(body[1..], r, index.keys.Keys, ended, depth)
    requires ReadMember(r).Keyed? && ReadMember(r).key !in index.keys
    ensures var m := ReadMember(r);
      IsSuffix(m.at, text) && IndexOk(text, body, index.(keys := index.keys[m.key := Slot(Offset(text, m.at), None)]), ended, depth)
  {
    hide SkipValue, SkipInsignificant;
    var m := ReadMember(r);
    var slot := Slot(Offset(text, m.at), None);
    var known := index.(keys := index.keys[m.key := slot]);
    var before, after := index.keys.Keys, known.keys.Keys;
    MemberSuffix(r);
    SuffixTrans(m.at, r, text);
    OffsetOf(text, m.at);
    MemberAtStart(r);
    CoversOn(body[1..], r, m.at, before, ended, depth);
    CoversFirst(body[1..], r, m.key, before, ended, depth);
    CoversMore(body[1..], m.at, before, after, ended, depth);
    CoversMore(body[1..], text[index.frontier..], before, after, ended, depth);
    forall key | key in known.keys ensures SlotOk(text, body[1..], key, known.keys[key], after, ended, depth) {
      if key != m.key {
        assert SlotOk(text, body[1..], key, index.keys[key], before, ended, depth);
        CoversMore(body[1..], text[index.keys[key].offset..], before, after, ended, depth);
      }
    }
  }

  /** Moving the frontier to a covered place keeps the index right. */
  lemma AdvanceKeeps(text: Text, body: Text, index: Index, pos: nat, ended: bool, depth: nat)
    requires IndexOk(text, body, index, ended, depth) && body[0] == LBRACE && pos <= |text|
    requires Covers(body[1..], text[pos..], index.keys.Keys, ended, depth)
    ensures IndexOk(text, body, index.Advance(pos), ended, depth)
  {
    var next := index.Advance(pos);
    forall key | key in next.keys ensures SlotOk(text, body[1..], key, next.keys[key], next.keys.Keys, ended, depth) {
      assert SlotOk(text, body[1..], key, index.keys[key], index.keys.Keys, ended, depth);
    }
  }

  /** Replacing the index below a recorded key keeps the index right. */
  lemma ReplaceChild(text: Text, body: Text, index: Index, key: Text, slot: Slot, ended: bool, depth: nat)
    requires IndexOk(text, body, index, ended, depth) && body[0] == LBRACE && key in index.keys && slot.offset == index.keys[key].offset
    requires slot.offset <= |text| && ReadMember(text[slot.offset..]).Keyed?
    requires slot.child.Some? ==> IndexOk(text, ReadMember(text[slot.offset..]).value, slot.child.value, ended, depth + 1)
    ensures IndexOk(text, body, index.(keys := index.keys[key := slot]), ended, depth)
  {
    hide Covers, FirstAt, ReadMember, CoversElements;
    var next := index.(keys := index.keys[key := slot]);
    assert SlotOk(text, body[1..], key, index.keys[key], index.keys.Keys, ended, depth);
    assert next.keys.Keys == index.keys.Keys;
    forall k | k in next.keys ensures SlotOk(text, body[1..], k, next.keys[k], next.keys.Keys, ended, depth) {
      assert SlotOk(text, body[1..], k, index.keys[k], index.keys.Keys, ended, depth);
    }
  }

  /**
   The value at offset `pos`: the kept probe gives the fresh verdict, and leaves the slot right unless
   it stopped right after an element.
   */
  lemma {:induction false} KeptValueAgrees(text: Text, pos: nat, path: seq<Segment>, ended: bool, depth: nat, slot: Slot)
    requires pos <= |text|
    requires slot.child.Some? ==> IndexOk(text, text[pos..], slot.child.value, ended, depth)
    ensures var (probe, next) := KeptValue(text, pos, path, ended, depth, slot);
      && probe == FreshValue(text[pos..], path, ended, depth)
      && next.offset == slot.offset
      && (next.child.Some? && !StopsShort(text[pos..], path, ended, depth) ==> IndexOk(text, text[pos..], next.child.value, ended, depth))
    decreases |path|, 0, 0
  {
    var t := text[pos..];
    if t != [] && path != [] && t[0] == (if path[0].Key? then LBRACE else LBRACKET) && depth < MAX_DEPTH {
      var index := if slot.child.Some? then slot.child.value else Index(pos + 1, map[], [], None);
      assert text[pos + 1..] == t[1..];
      DropSuffix(text, pos);
      assert IndexOk(text, t, index, ended, depth);
      if path[0].Key? {
        KeyAgrees(text, t, path[0].name, path[1..], ended, depth, index);
      } else {
        ElementAgrees(text, t, path[0].i, path[1..], ended, depth, index);
      }
    }
  }

  lemma {:induction false} KeyAgrees(text: Text, body: Text, name: Text, path: seq<Segment>, ended: bool, depth: nat, index: Index)
    requires IndexOk(text, body, index, ended, depth) && body[0] == LBRACE
    ensures var start := if name in index.keys then index.keys[name].offset else index.frontier;
      var (probe, next) := KeptKey(text, start, name, path, ended, depth, index);
      && probe == FreshKey(body[1..], name, path, ended, depth)
      && (!StopsInKey(body[1..], name, path, ended, depth) ==> IndexOk(text, body, next, ended, depth))
    decreases |path|, 3, 0
  {
    if name in index.keys {
      KnownKeyAgrees(text, body, name, path, ended, depth, index);
    } else {
      var f := text[index.frontier..];
      DropSuffix(text, index.frontier);
      assert Offset(text, f) == index.frontier;
      CoversSkips(body[1..], f, name, path, index.keys.Keys, ended, depth);
      CoversStops(body[1..], f, name, path, index.keys.Keys, ended, depth);
      NewKeyAgrees(text, body, f, name, path, ended, depth, index);
    }
  }

  /** For a key that is not recorded, the scan from a covered place stops where the whole scan stops. */
  lemma {:induction false} CoversStops(t: Text, f: Text, wanted: Text, path: seq<Segment>, keys: set<Text>, ended: bool, depth: nat)
    requires Covers(t, f, keys, ended, depth) && wanted !in keys
    ensures StopsInKey(t, wanted, path, ended, depth) == StopsInKey(f, wanted, path, ended, depth)
    decreases |t|
  {
    MemberAtStart(t);
    if t == f || (SkipInsignificant(t) == f && ReadMember(f).Keyed?) {
      assert ReadMember(t) == ReadMember(f);
    } else {
      match ReadMember(t)
      case StrayComma(rest) => CoversStops(rest, f, wanted, path, keys, ended, depth);
      case Keyed(_, _, value) =>
        CoversStops(SkipValue(value, ended, depth + 1, RBRACE).rest, f, wanted, path, keys, ended, depth);
    }
  }

  lemma {:induction false} FirstStops(t: Text, key: Text, at: Text, path: seq<Segment>, ended: bool, depth: nat)
    requires FirstAt(t, key, at, ended, depth)
    ensures ReadMember(at).Keyed?
    ensures StopsInKey(t, key, path, ended, depth)
        <==> ReadMember(at).value != [] && StopsShort(ReadMember(at).value, path, ended, depth + 1)
    decreases |t|
  {
    MemberAtStart(t);
    match ReadMember(t)
    case StrayComma(rest) => FirstStops(rest, key, at, path, ended, depth);
    case Keyed(k, a, value) =>
      if k != key {
        FirstStops(SkipValue(value, ended, depth + 1, RBRACE).rest, key, at, path, ended, depth);
      }
  }

  lemma RecordedKey(text: Text, body: Text, key: Text, ended: bool, depth: nat, index: Index)
    requires IndexOk(text, body, index, ended, depth) && body[0] == LBRACE && key in index.keys
    ensures index.keys[key].offset <= |text|
    ensures var slot := index.keys[key];
      var at := text[slot.offset..];
      && FirstAt(body[1..], key, at, ended, depth) && Covers(body[1..], at, index.keys.Keys, ended, depth)
      && ReadMember(at).Keyed? && From(text, slot.offset) == at
      && (slot.child.Some? ==> IndexOk(text, ReadMember(at).value, slot.child.value, ended, depth + 1))
  {
    assert SlotOk(text, body[1..], key, index.keys[key], index.keys.Keys, ended, depth);
  }

  /** A recorded key: the probe jumps to its member. */
  lemma {:induction false} KnownKeyAgrees(text: Text, body: Text, wanted: Text, path: seq<Segment>, ended: bool, depth: nat, index: Index)
    requires IndexOk(text, body, index, ended, depth) && body[0] == LBRACE && wanted in index.keys
    ensures var (probe, next) := KeptKey(text, index.keys[wanted].offset, wanted, path, ended, depth, index);
      && probe == FreshKey(body[1..], wanted, path, ended, depth)
      && (!StopsInKey(body[1..], wanted, path, ended, depth) ==> IndexOk(text, body, next, ended, depth))
    decreases |path|, 1, 0
  {
    assert body != [];
    hide FirstAt, Covers, IndexOk, StopsInKey, FreshKey, KeptKey, ReadMember;
    RecordedKey(text, body, wanted, ended, depth, index);
    var slot := index.keys[wanted];
    var at := text[slot.offset..];
    FirstDecides(body[1..], wanted, at, path, ended, depth);
    FirstStops(body[1..], wanted, at, path, ended, depth);
    AdvanceKeeps(text, body, index, slot.offset, ended, depth);
    var next := index.Advance(slot.offset);
    assert next.keys[wanted := slot] == next.keys;
    KeyedPass(text, slot.offset, wanted, path, ended, depth, index);
    hide *;
    if ReadMember(at).value != [] {
      KnownValueAgrees(text, body, wanted, at, path, ended, depth, next);
    }
  }

  /** The probe goes on in the value of a recorded member. */
  lemma {:induction false} KnownValueAgrees(text: Text, body: Text, key: Text, at: Text, path: seq<Segment>, ended: bool, depth: nat, index: Index)
    requires IndexOk(text, body, index, ended, depth) && body[0] == LBRACE && key in index.keys
    requires index.keys[key].offset <= |text| && at == text[index.keys[key].offset..]
    requires ReadMember(at).Keyed? && ReadMember(at).value != []
    requires index.keys[key].child.Some? ==> IndexOk(text, ReadMember(at).value, index.keys[key].child.value, ended, depth + 1)
    ensures var value := ReadMember(at).value;
      var (probe, next) := KeptValue(text, Offset(text, value), path, ended, depth + 1, index.keys[key]);
      && probe == FreshValue(value, path, ended, depth + 1)
      && (!StopsShort(value, path, ended, depth + 1) ==> IndexOk(text, body, index.(keys := index.keys[key := next]), ended, depth))
    decreases |path|, 0, 1
  {
    var value := ReadMember(at).value;
    hide StopsShort, FreshValue, KeptValue, IndexOk;
    MemberSuffix(at);
    DropSuffix(text, index.keys[key].offset);
    SuffixTrans(value, at, text);
    OffsetOf(text, value);
    KeptValueAgrees(text, Offset(text, value), path, ended, depth + 1, index.keys[key]);
    if !StopsShort(value, path, ended, depth + 1) {
      var next := KeptValue(text, Offset(text, value), path, ended, depth + 1, index.keys[key]).1;
      ReplaceChild(text, body, index, key, next, ended, depth);
    }
  }

  /** The index after the member at r has been entered. */
  function Entered(text: Text, index: Index, r: Text): Index
    requires ReadMember(r).Keyed?
  {
    var m := ReadMember(r);
    var slot := if m.key in index.keys then index.keys[m.key] else Slot(Offset(text, m.at), None);
    index.(keys := index.keys[m.key := slot])
  }

  lemma EnteredOk(text: Text, body: Text, index: Index, r: Text, ended: bool, depth: nat)
    requires IndexOk(text, body, index, ended, depth) && body[0] == LBRACE && IsSuffix(r, text)
    requires Covers(body[1..], r, index.keys.Keys, ended, depth) && ReadMember(r).Keyed?
    ensures IndexOk(text, body, Entered(text, index, r), ended, depth)
    ensures Covers(body[1..], r, Entered(text, index, r).keys.Keys, ended, depth)
    ensures ReadMember(r).key !in index.keys ==>
      var m := ReadMember(r); IsSuffix(m.at, text) && Entered(text, index, r).keys[m.key] == Slot(Offset(text, m.at), None)
  {
    var m := ReadMember(r);
    if m.key in index.keys {
      assert index.keys[m.key := index.keys[m.key]] == index.keys;
    } else {
      RecordMember(text, body, index, r, ended, depth);
    }
    CoversMore(body[1..], r, index.keys.Keys, Entered(text, index, r).keys.Keys, ended, depth);
  }

  /** An unrecorded key: the probe scans on from a covered place. */
  lemma {:induction false} NewKeyAgrees(text: Text, body: Text, r: Text, wanted: Text, path: seq<Segment>, ended: bool, depth: nat, index0: Index)
    requires IndexOk(text, body, index0, ended, depth) && body[0] == LBRACE && wanted !in index0.keys
    requires IsSuffix(r, text) && Covers(body[1..], r, index0.keys.Keys, ended, depth)
    ensures var (probe, next) := KeptKey(text, Offset(text, r), wanted, path, ended, depth, index0);
      && probe == FreshKey(r, wanted, path, ended, depth)
      && (!StopsInKey(r, wanted, path, ended, depth) ==> IndexOk(text, body, next, ended, depth))
    decreases |path|, 1, |r|
  {
    OffsetOf(text, r);
    AdvanceKeeps(text, body, index0, Offset(text, r), ended, depth);
    var index := index0.Advance(Offset(text, r));
    hide ReadMember, SkipValue, FreshValue, StopsShort, KeptValue, Covers, IndexOk;
    if ReadMember(r).StrayComma? {
      var rest := ReadMember(r).rest;
      MemberSuffix(r);
      SuffixTrans(rest, r, text);
      CoversOn(body[1..], r, rest, index.keys.Keys, ended, depth);
      NewKeyAgrees(text, body, rest, wanted, path, ended, depth, index);
    } else if ReadMember(r).Keyed? {
      KeyedPass(text, Offset(text, r), wanted, path, ended, depth, index0);
      EnteredOk(text, body, index, r, ended, depth);
      if ReadMember(r).value != [] {
        if ReadMember(r).key == wanted {
          WantedAgrees(text, body, r, path, ended, depth, index);
        } else if SkipValue(ReadMember(r).value, ended, depth + 1, RBRACE).Next? {
          var rest := SkippedTo(text, body, r, ended, depth, Entered(text, index, r));
          NewKeyAgrees(text, body, rest, wanted, path, ended, depth, Entered(text, index, r));
        }
      }
    }
  }

  /** One pass of the kept scan over a member. */
  lemma KeyedPass(text: Text, pos: nat, wanted: Text, path: seq<Segment>, ended: bool, depth: nat, index0: Index)
    requires ReadMember(From(text, pos)).Keyed?
    ensures var m := ReadMember(From(text, pos));
      var known := Entered(text, index0.Advance(pos), From(text, pos));
      KeptKey(text, pos, wanted, path, ended, depth, index0) ==
        if m.value == [] then (Waiting, known)
        else if m.key == wanted then
          var (probe, next) := KeptValue(text, Offset(text, m.value), path, ended, depth + 1, known.keys[m.key]);
          (probe, known.(keys := known.keys[m.key := next]))
        else if SkipValue(m.value, ended, depth + 1, RBRACE).Next? then
          KeptKey(text, Offset(text, SkipValue(m.value, ended, depth + 1, RBRACE).rest), wanted, path, ended, depth, known)
        else (if SkipValue(m.value, ended, depth + 1, RBRACE).Open? then Waiting else Missing, known)
  {
  }

  /** The place after a member that is entered and skipped whole is covered. */
  lemma SkippedTo(text: Text, body: Text, r: Text, ended: bool, depth: nat, index: Index) returns (rest: Text)
    requires body != [] && IsSuffix(r, text) && Covers(body[1..], r, index.keys.Keys, ended, depth)
    requires ReadMember(r).Keyed? && ReadMember(r).value != [] && ReadMember(r).key in index.keys
    requires SkipValue(ReadMember(r).value, ended, depth + 1, RBRACE).Next?
    ensures SkipValue(ReadMember(r).value, ended, depth + 1, RBRACE) == Next(rest) && |rest| < |r|
    ensures IsSuffix(rest, text) && Covers(body[1..], rest, index.keys.Keys, ended, depth)
  {
    var value := ReadMember(r).value;
    rest := SkipValue(value, ended, depth + 1, RBRACE).rest;
    MemberSuffix(r);
    SuffixTrans(value, r, text);
    TailSuffix(value, ended, depth + 1, RBRACE);
    SuffixTrans(rest, value, text);
    CoversOn(body[1..], r, rest, index.keys.Keys, ended, depth);
  }

  /** The wanted member has just been entered: descend into its value. */
  lemma {:induction false} WantedAgrees(text: Text, body: Text, r: Text, path: seq<Segment>, ended: bool, depth: nat, index: Index)
    requires IndexOk(text, body, index, ended, depth) && body[0] == LBRACE
    requires IsSuffix(r, text) && Covers(body[1..], r, index.keys.Keys, ended, depth)
    requires ReadMember(r).Keyed? && ReadMember(r).value != [] && ReadMember(r).key !in index.keys
    ensures var m := ReadMember(r);
      var known := Entered(text, index, r);
      var (probe, next) := KeptValue(text, Offset(text, m.value), path, ended, depth + 1, known.keys[m.key]);
      && probe == FreshValue(m.value, path, ended, depth + 1)
      && (!StopsShort(m.value, path, ended, depth + 1) ==> IndexOk(text, body, known.(keys := known.keys[m.key := next]), ended, depth))
    decreases |path|, 1, 0
  {
    var m := ReadMember(r);
    var known := Entered(text, index, r);
    EnteredOk(text, body, index, r, ended, depth);
    MemberSuffix(r);
    SuffixTrans(m.value, r, text);
    OffsetOf(text, m.value);
    OffsetOf(text, m.at);
    MemberAtStart(r);
    KeptValueAgrees(text, Offset(text, m.value), path, ended, depth + 1, known.keys[m.key]);
    var next := KeptValue(text, Offset(text, m.value), path, ended, depth + 1, known.keys[m.key]).1;
    if !StopsShort(m.value, path, ended, depth + 1) {
      ReplaceChild(text, body, known, m.key, next, ended, depth);
    }
  }

  // ---------- arrays ----------

  lemma {:induction false} ElementsLater(t: Text, f: Text, n: nat, ended: bool, depth: nat)
    requires CoversElements(t, f, n, ended, depth)
    ensures |f| <= |t|
    ensures t == f || SkipInsignificant(t) == f || |f| < |SkipInsignificant(t)|
    decreases |t|
  {
    if !(t == f || (SkipInsignificant(t) == f && StartsElement(f))) {
      var t1 := SkipInsignificant(t);
      if t1[0] == COMMA {
        ElementsLater(t1[1..], f, n, ended, depth);
      } else {
        ElementsLater(SkipValue(t1, ended, depth + 1, RBRACKET).rest, f, n - 1, ended, depth);
      }
    }
  }

  /** From a covered place the scan covers what its next pass reaches. */
  lemma {:induction false} ElementsOn(t: Text, f: Text, g: Text, n: nat, m: nat, ended: bool, depth: nat)
    requires CoversElements(t, f, n, ended, depth)
    requires var f1 := SkipInsignificant(f);
      || (f1 != [] && f1[0] == COMMA && g == f1[1..] && m == n)
      || (StartsElement(f1) && g == f1 && m == n)
      || (StartsElement(f1) && SkipValue(f1, ended, depth + 1, RBRACKET) == Next(g) && m == n + 1)
    ensures CoversElements(t, g, m, ended, depth)
    decreases |t|
  {
    SkipTwice(t);
    SkipTwice(f);
    hide SkipInsignificant, SkipValue;
    if !(t == f || (SkipInsignificant(t) == f && StartsElement(f))) {
      var t1 := SkipInsignificant(t);
      ElementsLater(t, f, n, ended, depth);
      if t1[0] == COMMA {
        ElementsLater(t1[1..], f, n, ended, depth);
        ElementsOn(t1[1..], f, g, n, m, ended, depth);
      } else {
        ElementsLater(SkipValue(t1, ended, depth + 1, RBRACKET).rest, f, n - 1, ended, depth);
        ElementsOn(SkipValue(t1, ended, depth + 1, RBRACKET).rest, f, g, n - 1, m - 1, ended, depth);
      }
    }
  }

  /** An element number stands for one place. */
  lemma {:induction false} SameElement(t: Text, a: Text, r: Text, n: nat, ended: bool, depth: nat)
    requires CoversElements(t, a, n, ended, depth) && CoversElements(t, r, n, ended, depth)
    requires StartsElement(a) && StartsElement(SkipInsignificant(r))
    ensures a == SkipInsignificant(r)
    decreases |t|
  {
    hide SkipInsignificant, SkipValue, ScanValue;
    SkipTwice(t);
    SkipTwice(r);
    var t1 := SkipInsignificant(t);
    if !(t == a || t1 == a) && !(t == r || (t1 == r && StartsElement(r))) {
      if t1[0] == COMMA {
        SameElement(t1[1..], a, r, n, ended, depth);
      } else {
        SameElement(SkipValue(t1, ended, depth + 1, RBRACKET).rest, a, r, n - 1, ended, depth);
      }
    }
  }

  /** Elements stand in the order of their numbers. */
  lemma {:induction false} EarlierElement(t: Text, a: Text, f: Text, i: nat, n: nat, ended: bool, depth: nat)
    requires CoversElements(t, a, i, ended, depth) && CoversElements(t, f, n, ended, depth) && StartsElement(a) && i < n
    ensures |f| < |a|
    decreases |t|
  {
    SkipTwice(t);
    hide SkipInsignificant, SkipValue;
    var t1 := SkipInsignificant(t);
    if t == a || t1 == a {
      ElementsLater(SkipValue(t1, ended, depth + 1, RBRACKET).rest, f, n - 1, ended, depth);
    } else if t1[0] == COMMA {
      EarlierElement(t1[1..], a, f, i, n, ended, depth);
    } else {
      EarlierElement(SkipValue(t1, ended, depth + 1, RBRACKET).rest, a, f, i - 1, n - 1, ended, depth);
    }
  }

  /** A scan for a later element may start at a covered place. */
  lemma {:induction false} ElementsSkip(t: Text, f: Text, n: nat, first: nat, wanted: nat, path: seq<Segment>, ended: bool, depth: nat)
    requires CoversElements(t, f, n, ended, depth) && first + n <= wanted
    ensures FreshElement(t, first, wanted, path, ended, depth) == FreshElement(f, first + n, wanted, path, ended, depth)
    ensures StopsInElement(t, first, wanted, path, ended, depth) == StopsInElement(f, first + n, wanted, path, ended, depth)
    decreases |t|
  {
    SkipTwice(t);
    hide SkipInsignificant, SkipValue, FreshValue, StopsShort, ScanValue;
    if !(t == f || (SkipInsignificant(t) == f && StartsElement(f))) {
      var t1 := SkipInsignificant(t);
      if t1[0] == COMMA {
        ElementsSkip(t1[1..], f, n, first, wanted, path, ended, depth);
      } else {
        ElementsSkip(SkipValue(t1, ended, depth + 1, RBRACKET).rest, f, n - 1, first + 1, wanted, path, ended, depth);
      }
    }
  }

  /** Replacing the index below a recorded element keeps the index right. */
  lemma ReplaceElement(text: Text, body: Text, index: Index, i: nat, slot: Slot, ended: bool, depth: nat)
    requires IndexOk(text, body, index, ended, depth) && body[0] == LBRACKET && i < |index.elements|
    requires PlaceOk(text, body[1..], i, slot, ended, depth)
    ensures IndexOk(text, body, index.(elements := index.elements[i := slot]), ended, depth)
  {
    var next := index.(elements := index.elements[i := slot]);
    assert PlacesOk(text, body[1..], index, ended, depth);
    forall k: nat | k < |next.elements| ensures PlaceOk(text, body[1..], k, next.elements[k], ended, depth) {
      if k != i {
        assert PlaceOk(text, body[1..], k, index.elements[k], ended, depth);
      }
    }
    assert PlacesOk(text, body[1..], next, ended, depth);
  }

  /** Likewise for the element after them. */
  lemma ReplaceTail(text: Text, body: Text, index: Index, slot: Slot, ended: bool, depth: nat)
    requires IndexOk(text, body, index, ended, depth) && body[0] == LBRACKET
    requires PlaceOk(text, body[1..], |index.elements|, slot, ended, depth)
    ensures IndexOk(text, body, index.(tail := Some(slot)), ended, depth)
  {
    var next := index.(tail := Some(slot));
    assert PlacesOk(text, body[1..], index, ended, depth);
    forall k: nat | k < |next.elements| ensures PlaceOk(text, body[1..], k, next.elements[k], ended, depth) {
      assert PlaceOk(text, body[1..], k, index.elements[k], ended, depth);
    }
  }

  lemma SlotReplaced(text: Text, body: Text, i: nat, slot: Slot, next: Slot, ended: bool, depth: nat)
    requires PlaceOk(text, body, i, slot, ended, depth) && next.offset == slot.offset
    requires next.child.Some? ==> IndexOk(text, text[slot.offset..], next.child.value, ended, depth + 1)
    ensures PlaceOk(text, body, i, next, ended, depth)
  {
  }

  lemma {:induction false} ElementAgrees(text: Text, body: Text, wanted: nat, path: seq<Segment>, ended: bool, depth: nat, index: Index)
    requires IndexOk(text, body, index, ended, depth) && body[0] == LBRACKET
    ensures var known := wanted < |index.elements|;
      var start := if known then index.elements[wanted].offset else index.frontier;
      var (probe, next) := KeptElement(text, start, if known then wanted else |index.elements|, wanted, path, ended, depth, index);
      && probe == FreshElement(body[1..], 0, wanted, path, ended, depth)
      && (!StopsInElement(body[1..], 0, wanted, path, ended, depth) ==> IndexOk(text, body, next, ended, depth))
    decreases |path|, 3, 0
  {
    hide KeptElement, FreshElement, StopsInElement, CoversElements, PlacesOk;
    if wanted < |index.elements| {
      KnownElementAgrees(text, body, wanted, path, ended, depth, index);
    } else {
      var f := text[index.frontier..];
      DropSuffix(text, index.frontier);
      assert Offset(text, f) == index.frontier;
      ElementsSkip(body[1..], f, |index.elements|, 0, wanted, path, ended, depth);
      NewElementAgrees(text, body, f, wanted, path, ended, depth, index);
    }
  }

  /** A recorded element: the probe jumps to it. */
  lemma {:induction false} KnownElementAgrees(text: Text, body: Text, i: nat, path: seq<Segment>, ended: bool, depth: nat, index: Index)
    requires IndexOk(text, body, index, ended, depth) && body[0] == LBRACKET && i < |index.elements|
    ensures var (probe, next) := KeptElement(text, index.elements[i].offset, i, i, path, ended, depth, index);
      && probe == FreshElement(body[1..], 0, i, path, ended, depth)
      && (!StopsInElement(body[1..], 0, i, path, ended, depth) ==> IndexOk(text, body, next, ended, depth))
    decreases |path|, 1, 0
  {
    var slot := index.elements[i];
    assert PlacesOk(text, body[1..], index, ended, depth);
    assert PlaceOk(text, body[1..], i, slot, ended, depth);
    var at := text[slot.offset..];
    DropSuffix(text, slot.offset);
    assert Offset(text, at) == slot.offset && From(text, slot.offset) == at;
    EarlierElement(body[1..], at, text[index.frontier..], i, |index.elements|, ended, depth);
    assert index.Advance(slot.offset) == index;
    assert index.elements[i := slot] == index.elements;
    ElementsSkip(body[1..], at, i, 0, i, path, ended, depth);
    KeptValueAgrees(text, slot.offset, path, ended, depth + 1, slot);
    var next := KeptValue(text, slot.offset, path, ended, depth + 1, slot).1;
    if !StopsShort(at, path, ended, depth + 1) {
      SlotReplaced(text, body[1..], i, slot, next, ended, depth);
      ReplaceElement(text, body, index, i, next, ended, depth);
    }
  }

  /** The element at the frontier is entered as the tail. */
  lemma EnterElement(text: Text, body: Text, index: Index, r: Text, ended: bool, depth: nat)
    requires IndexOk(text, body, index, ended, depth) && body[0] == LBRACKET && text[index.frontier..] == r
    requires StartsElement(SkipInsignificant(r)) && IsSuffix(SkipInsignificant(r), text)
    ensures var t, n := SkipInsignificant(r), |index.elements|;
      var slot := ElementSlot(index, n, Offset(text, t));
      && slot.offset == Offset(text, t)
      && PlaceOk(text, body[1..], n, slot, ended, depth)
      && IndexOk(text, body, WithSlot(index, n, slot), ended, depth)
  {
    var t, n := SkipInsignificant(r), |index.elements|;
    var slot := ElementSlot(index, n, Offset(text, t));
    OffsetOf(text, t);
    SkipTwice(r);
    assert PlacesOk(text, body[1..], index, ended, depth);
    if index.tail.Some? {
      assert PlaceOk(text, body[1..], n, index.tail.value, ended, depth);
      SameElement(body[1..], text[slot.offset..], r, n, ended, depth);
    } else {
      ElementsOn(body[1..], r, t, n, n, ended, depth);
    }
    ReplaceTail(text, body, index, slot, ended, depth);
  }

  /** The index after the element has been passed. */
  function Passed(text: Text, t: Text, element: nat, index: Index): Index {
    var slot := ElementSlot(index, element, Offset(text, t));
    var entered := WithSlot(index, element, slot);
    if element == |entered.elements| then entered.(elements := entered.elements + [slot], tail := None) else entered
  }

  lemma PassedOk(text: Text, body: Text, index: Index, r: Text, rest: Text, ended: bool, depth: nat)
    requires IndexOk(text, body, index, ended, depth) && body[0] == LBRACKET && text[index.frontier..] == r
    requires StartsElement(SkipInsignificant(r)) && IsSuffix(SkipInsignificant(r), text)
    requires SkipValue(SkipInsignificant(r), ended, depth + 1, RBRACKET) == Next(rest)
    ensures var next := Passed(text, SkipInsignificant(r), |index.elements|, index);
      && |next.elements| == |index.elements| + 1 && next.frontier == index.frontier
      && PlacesOk(text, body[1..], next, ended, depth)
      && CoversElements(body[1..], rest, |next.elements|, ended, depth)
  {
    var n := |index.elements|;
    EnterElement(text, body, index, r, ended, depth);
    ElementsOn(body[1..], r, rest, n, n + 1, ended, depth);
    assert PlacesOk(text, body[1..], index, ended, depth);
    var slot := ElementSlot(index, n, Offset(text, SkipInsignificant(r)));
    hide CoversElements, SkipInsignificant, SkipValue, IndexOk;
    PushedOk(text, body[1..], index, slot, ended, depth);
  }

  lemma PushedOk(text: Text, body: Text, index: Index, slot: Slot, ended: bool, depth: nat)
    requires PlacesOk(text, body, index, ended, depth) && PlaceOk(text, body, |index.elements|, slot, ended, depth)
    ensures PlacesOk(text, body, index.(elements := index.elements + [slot], tail := None), ended, depth)
  {
    hide CoversElements, SkipInsignificant, StartsElement;
    var next := index.(elements := index.elements + [slot], tail := None);
    forall k: nat | k < |next.elements| ensures PlaceOk(text, body, k, next.elements[k], ended, depth) {
      if k < |index.elements| {
        assert PlaceOk(text, body, k, index.elements[k], ended, depth);
      }
    }
  }

  /** One pass of the kept scan over an element. */
  lemma ElementKept(text: Text, r: Text, element: nat, wanted: nat, path: seq<Segment>, ended: bool, depth: nat, index0: Index)
    requires From(text, Offset(text, r)) == r && StartsElement(SkipInsignificant(r))
    ensures var t, index := SkipInsignificant(r), index0.Advance(Offset(text, r));
      var slot := ElementSlot(index, element, Offset(text, t));
      var entered := WithSlot(index, element, slot);
      var v := SkipValue(t, ended, depth + 1, RBRACKET);
      KeptElement(text, Offset(text, r), element, wanted, path, ended, depth, index0) ==
        if element == wanted then
          var (probe, next) := KeptValue(text, Offset(text, t), path, ended, depth + 1, slot);
          (probe, WithSlot(entered, element, next))
        else if v.Next? then
          KeptElement(text, Offset(text, v.rest), element + 1, wanted, path, ended, depth, Passed(text, t, element, index))
        else
          (if v.Closed? then Missing else Waiting,
           if Done(ScanValue(t, ended, depth + 1)) then Passed(text, t, element, index) else entered)
  {
  }

  lemma ElementFresh(r: Text, element: nat, wanted: nat, path: seq<Segment>, ended: bool, depth: nat)
    requires StartsElement(SkipInsignificant(r))
    ensures var t := SkipInsignificant(r);
      var v := SkipValue(t, ended, depth + 1, RBRACKET);
      FreshElement(r, element, wanted, path, ended, depth) ==
        if element == wanted then FreshValue(t, path, ended, depth + 1)
        else if v.Next? then FreshElement(v.rest, element + 1, wanted, path, ended, depth)
        else if v.Closed? then Missing else Waiting
    ensures var t := SkipInsignificant(r);
      var v := SkipValue(t, ended, depth + 1, RBRACKET);
      StopsInElement(r, element, wanted, path, ended, depth) ==
        if element == wanted then StopsShort(t, path, ended, depth + 1)
        else if v.Next? then StopsInElement(v.rest, element + 1, wanted, path, ended, depth)
        else Done(ScanValue(t, ended, depth + 1))
  {
  }

  /** An element not recorded: the probe scans on from a covered place. */
  lemma {:induction false} NewElementAgrees(text: Text, body: Text, r: Text, wanted: nat, path: seq<Segment>, ended: bool, depth: nat, index0: Index)
    requires body != [] && body[0] == LBRACKET && IsSuffix(body, text) && IsSuffix(r, text)
    requires PlacesOk(text, body[1..], index0, ended, depth) && index0.frontier <= Offset(text, r)
    requires CoversElements(body[1..], r, |index0.elements|, ended, depth) && |index0.elements| <= wanted
    ensures var (probe, next) := KeptElement(text, Offset(text, r), |index0.elements|, wanted, path, ended, depth, index0);
      && probe == FreshElement(r, |index0.elements|, wanted, path, ended, depth)
      && (!StopsInElement(r, |index0.elements|, wanted, path, ended, depth) ==> IndexOk(text, body, next, ended, depth))
    decreases |path|, 1, |r|, 3
  {
    OffsetOf(text, r);
    AdvancedOk(text, body, r, index0, ended, depth);
    var t := SkipInsignificant(r);
    SkipIsSuffix(r);
    SuffixTrans(t, r, text);
    SkipTwice(r);
    hide IndexOk, PlacesOk, CoversElements, SkipInsignificant;
    if t != [] && t[0] == COMMA {
      PastComma(text, body, r, wanted, path, ended, depth, index0);
    } else if t != [] && t[0] != RBRACKET {
      AtElement(text, body, r, wanted, path, ended, depth, index0);
    }
  }

  lemma {:induction false} PastComma(text: Text, body: Text, r: Text, wanted: nat, path: seq<Segment>, ended: bool, depth: nat, index0: Index)
    requires body != [] && body[0] == LBRACKET && IsSuffix(body, text) && IsSuffix(r, text)
    requires PlacesOk(text, body[1..], index0, ended, depth) && index0.frontier <= Offset(text, r)
    requires CoversElements(body[1..], r, |index0.elements|, ended, depth) && |index0.elements| <= wanted
    requires SkipInsignificant(r) != [] && SkipInsignificant(r)[0] == COMMA
    ensures var (probe, next) := KeptElement(text, Offset(text, r), |index0.elements|, wanted, path, ended, depth, index0);
      && probe == FreshElement(r, |index0.elements|, wanted, path, ended, depth)
      && (!StopsInElement(r, |index0.elements|, wanted, path, ended, depth) ==> IndexOk(text, body, next, ended, depth))
    decreases |path|, 1, |r|, 2
  {
    OffsetOf(text, r);
    var index, n, t := index0.Advance(Offset(text, r)), |index0.elements|, SkipInsignificant(r);
    AdvancedOk(text, body, r, index0, ended, depth);
    SkipIsSuffix(r);
    SuffixTrans(t, r, text);
    DropSuffix(t, 1);
    SuffixTrans(t[1..], t, text);
    OffsetOf(text, t[1..]);
    ElementsOn(body[1..], r, t[1..], n, n, ended, depth);
    assert PlacesOk(text, body[1..], index, ended, depth);
    hide IndexOk, PlacesOk, CoversElements, SkipInsignificant;
    NewElementAgrees(text, body, t[1..], wanted, path, ended, depth, index);
  }

  lemma {:induction false} AtElement(text: Text, body: Text, r: Text, wanted: nat, path: seq<Segment>, ended: bool, depth: nat, index0: Index)
    requires body != [] && body[0] == LBRACKET && IsSuffix(body, text) && IsSuffix(r, text)
    requires PlacesOk(text, body[1..], index0, ended, depth) && index0.frontier <= Offset(text, r)
    requires CoversElements(body[1..], r, |index0.elements|, ended, depth) && |index0.elements| <= wanted
    requires StartsElement(SkipInsignificant(r))
    ensures var (probe, next) := KeptElement(text, Offset(text, r), |index0.elements|, wanted, path, ended, depth, index0);
      && probe == FreshElement(r, |index0.elements|, wanted, path, ended, depth)
      && (!StopsInElement(r, |index0.elements|, wanted, path, ended, depth) ==> IndexOk(text, body, next, ended, depth))
    decreases |path|, 1, |r|, 2
  {
    var n, t := |index0.elements|, SkipInsignificant(r);
    hide IndexOk, PlacesOk, CoversElements, SkipInsignificant;
    if n == wanted {
      AtWanted(text, body, r, path, ended, depth, index0);
    } else if SkipValue(t, ended, depth + 1, RBRACKET).Next? {
      PastElement(text, body, r, wanted, path, ended, depth, index0);
    } else {
      AtLast(text, body, r, wanted, path, ended, depth, index0);
    }
  }

  lemma {:induction false} AtWanted(text: Text, body: Text, r: Text, path: seq<Segment>, ended: bool, depth: nat, index0: Index)
    requires body != [] && body[0] == LBRACKET && IsSuffix(body, text) && IsSuffix(r, text)
    requires PlacesOk(text, body[1..], index0, ended, depth) && index0.frontier <= Offset(text, r)
    requires CoversElements(body[1..], r, |index0.elements|, ended, depth) && StartsElement(SkipInsignificant(r))
    ensures var n := |index0.elements|;
      var (probe, next) := KeptElement(text, Offset(text, r), n, n, path, ended, depth, index0);
      && probe == FreshElement(r, n, n, path, ended, depth)
      && (!StopsInElement(r, n, n, path, ended, depth) ==> IndexOk(text, body, next, ended, depth))
    decreases |path|, 1, |r|, 1
  {
    OffsetOf(text, r);
    AdvancedOk(text, body, r, index0, ended, depth);
    SkipIsSuffix(r);
    SuffixTrans(SkipInsignificant(r), r, text);
    ElementKept(text, r, |index0.elements|, |index0.elements|, path, ended, depth, index0);
    ElementFresh(r, |index0.elements|, |index0.elements|, path, ended, depth);
    hide *;
    WantedElementAgrees(text, body, r, path, ended, depth, index0.Advance(Offset(text, r)));
  }

  /** The probe ends at an element that no other follows. */
  lemma AtLast(text: Text, body: Text, r: Text, wanted: nat, path: seq<Segment>, ended: bool, depth: nat, index0: Index)
    requires body != [] && body[0] == LBRACKET && IsSuffix(body, text) && IsSuffix(r, text)
    requires PlacesOk(text, body[1..], index0, ended, depth) && index0.frontier <= Offset(text, r)
    requires CoversElements(body[1..], r, |index0.elements|, ended, depth) && |index0.elements| <= wanted
    requires StartsElement(SkipInsignificant(r))
    requires |index0.elements| != wanted && !SkipValue(SkipInsignificant(r), ended, depth + 1, RBRACKET).Next?
    ensures var (probe, next) := KeptElement(text, Offset(text, r), |index0.elements|, wanted, path, ended, depth, index0);
      && probe == FreshElement(r, |index0.elements|, wanted, path, ended, depth)
      && (!StopsInElement(r, |index0.elements|, wanted, path, ended, depth) ==> IndexOk(text, body, next, ended, depth))
  {
    OffsetOf(text, r);
    AdvancedOk(text, body, r, index0, ended, depth);
    SkipIsSuffix(r);
    SuffixTrans(SkipInsignificant(r), r, text);
    ElementKept(text, r, |index0.elements|, wanted, path, ended, depth, index0);
    ElementFresh(r, |index0.elements|, wanted, path, ended, depth);
    hide *;
    EnterElement(text, body, index0.Advance(Offset(text, r)), r, ended, depth);
  }

  lemma {:induction false} PastElement(text: Text, body: Text, r: Text, wanted: nat, path: seq<Segment>, ended: bool, depth: nat, index0: Index)
    requires body != [] && body[0] == LBRACKET && IsSuffix(body, text) && IsSuffix(r, text)
    requires PlacesOk(text, body[1..], index0, ended, depth) && index0.frontier <= Offset(text, r)
    requires CoversElements(body[1..], r, |index0.elements|, ended, depth) && |index0.elements| <= wanted
    requires StartsElement(SkipInsignificant(r))
    requires |index0.elements| != wanted && SkipValue(SkipInsignificant(r), ended, depth + 1, RBRACKET).Next?
    ensures var (probe, next) := KeptElement(text, Offset(text, r), |index0.elements|, wanted, path, ended, depth, index0);
      && probe == FreshElement(r, |index0.elements|, wanted, path, ended, depth)
      && (!StopsInElement(r, |index0.elements|, wanted, path, ended, depth) ==> IndexOk(text, body, next, ended, depth))
    decreases |path|, 1, |r|, 1
  {
    hide IndexOk, PlacesOk, CoversElements, KeptElement, FreshElement, StopsInElement, SkipInsignificant, StartsElement;
    hide KeptValue, FreshValue, StopsShort, ScanValue, Passed, WithSlot, ElementSlot, ScanItems;
    OffsetOf(text, r);
    var index, n, t := index0.Advance(Offset(text, r)), |index0.elements|, SkipInsignificant(r);
    AdvancedOk(text, body, r, index0, ended, depth);
    SkipIsSuffix(r);
    SuffixTrans(t, r, text);
    ElementKept(text, r, n, wanted, path, ended, depth, index0);
    ElementFresh(r, n, wanted, path, ended, depth);
    var rest := SkipValue(t, ended, depth + 1, RBRACKET).rest;
    TailSuffix(t, ended, depth + 1, RBRACKET);
    SuffixTrans(rest, t, text);
    PassedOk(text, body, index, r, rest, ended, depth);
    OffsetOf(text, rest);
    AfterIsFarther(text, r, rest);
    hide *;
    NewElementAgrees(text, body, rest, wanted, path, ended, depth, Passed(text, t, n, index));
  }

  lemma AfterIsFarther(text: Text, r: Text, rest: Text)
    requires IsSuffix(r, text) && |rest| < |r|
    ensures Offset(text, r) < Offset(text, rest) && From(text, Offset(text, r)) == r
  {
    OffsetOf(text, r);
  }

  lemma AdvancedOk(text: Text, body: Text, r: Text, index0: Index, ended: bool, depth: nat)
    requires body != [] && body[0] == LBRACKET && IsSuffix(body, text) && IsSuffix(r, text)
    requires PlacesOk(text, body[1..], index0, ended, depth) && index0.frontier <= Offset(text, r)
    requires CoversElements(body[1..], r, |index0.elements|, ended, depth)
    ensures IndexOk(text, body, index0.Advance(Offset(text, r)), ended, depth)
    ensures text[index0.Advance(Offset(text, r)).frontier..] == r
  {
    OffsetOf(text, r);
    var index := index0.Advance(Offset(text, r));
    forall k: nat | k < |index.elements| ensures PlaceOk(text, body[1..], k, index.elements[k], ended, depth) {
      assert PlaceOk(text, body[1..], k, index0.elements[k], ended, depth);
    }
  }

  /** The wanted element is the one just entered: descend into it. */
  lemma {:induction false} WantedElementAgrees(text: Text, body: Text, r: Text, path: seq<Segment>, ended: bool, depth: nat, index: Index)
    requires IndexOk(text, body, index, ended, depth) && body[0] == LBRACKET && text[index.frontier..] == r
    requires StartsElement(SkipInsignificant(r)) && IsSuffix(SkipInsignificant(r), text)
    ensures var t, n := SkipInsignificant(r), |index.elements|;
      var slot := ElementSlot(index, n, Offset(text, t));
      var (probe, next) := KeptValue(text, Offset(text, t), path, ended, depth + 1, slot);
      && probe == FreshValue(t, path, ended, depth + 1)
      && (!StopsShort(t, path, ended, depth + 1) ==> IndexOk(text, body, WithSlot(WithSlot(index, n, slot), n, next), ended, depth))
    decreases |path|, 1, 0
  {
    var t, n := SkipInsignificant(r), |index.elements|;
    var slot := ElementSlot(index, n, Offset(text, t));
    EnterElement(text, body, index, r, ended, depth);
    OffsetOf(text, t);
    KeptValueAgrees(text, Offset(text, t), path, ended, depth + 1, slot);
    var next := KeptValue(text, Offset(text, t), path, ended, depth + 1, slot).1;
    if !StopsShort(t, path, ended, depth + 1) {
      SlotReplaced(text, body[1..], n, slot, next, ended, depth);
      ReplaceTail(text, body, WithSlot(index, n, slot), next, ended, depth);
    }
  }
}
