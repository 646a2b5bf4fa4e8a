/**
 A finished document: what a pull at a path returns is what the final parser builds there.
 */
module IncomingFinal {
  import opened Units
  import opened JsonGrammar
  import opened JsonLexer
  import opened JsonValue
  import opened RelaxedJson
  import opened RelaxedRoundTrip
  import opened IncomingScan
  import opened IncomingSelect
  import R = JsonReading
  import T = RelaxedTruncation

  // ---------- values in whole ----------

  function ShapeOf(v: Value): Shape
    requires ValueOk(v)
  {
    match v
    case Str(chars) => StringShape(DecodeChars(chars), |DecodeChars(chars)|)
    case Num(num) => NumberShape(NumberValue(num))
    case Lit(word) => WordShape(word)
    case EmptyArray(_) => ArrayShape
    case Array(_) => ArrayShape
    case EmptyObject(_) => ObjectShape
    case Object(_) => ObjectShape
  }

  function Max(a: nat, b: nat): nat {
    if a < b then b else a
  }

  function Nesting(v: Value): nat {
    match v
    case Str(_) => 0
    case Num(_) => 0
    case Lit(_) => 0
    case EmptyArray(_) => 1
    case EmptyObject(_) => 1
    case Array(elements) => 1 + ElementsNesting(elements)
    case Object(members) => 1 + MembersNesting(members)
  }

  function ElementsNesting(es: Elements): nat {
    if es.MoreElements? then Max(Nesting(es.value), ElementsNesting(es.rest)) else Nesting(es.value)
  }

  function MembersNesting(ms: Members): nat {
    if ms.MoreMembers? then Max(Nesting(ms.value), MembersNesting(ms.rest)) else Nesting(ms.value)
  }

  /** What follows a value shows that it is complete. */
  predicate Followed(rest: Text, ended: bool) {
    Bounded(rest) && ScalarComplete(rest, ended)
  }

  lemma BlankFollowed(ws: Text, rest: Text, ended: bool)
    requires AllWhitespace(ws)
    requires if rest == [] then ended else rest[0] == COMMA || rest[0] == RBRACE || rest[0] == RBRACKET
    ensures Followed(ws + rest, ended)
  {
    BlankBounded(ws, rest);
    BlankThen(ws, rest);
  }

  /** A printed value is located as complete, and its closing token is found. */
  lemma {:induction false} ValueScanned(v: Value, rest: Text, ended: bool, depth: nat)
    requires ValueOk(v) && NumbersFinite(v) && Followed(rest, ended) && Nesting(v) + depth <= MAX_DEPTH
    ensures ScanValue(Print(v) + rest, ended, depth) == Located(ShapeOf(v), Some(rest))
    decreases v, 1
  {
    match v
    case Str(chars) => StringScanned(chars, rest, ended);
    case Num(num) => NumberScanned(num, rest, ended);
    case Lit(word) =>
      WordParsed(word, rest);
    case _ => ContainerScanned(v, rest, ended, depth);
  }

  predicate IsContainer(v: Value) {
    v.Array? || v.Object? || v.EmptyArray? || v.EmptyObject?
  }

  lemma {:induction false} ContainerScanned(v: Value, rest: Text, ended: bool, depth: nat)
    requires IsContainer(v) && ValueOk(v) && NumbersFinite(v) && Nesting(v) + depth <= MAX_DEPTH
    ensures ScanValue(Print(v) + rest, ended, depth) == Located(ShapeOf(v), Some(rest))
    decreases v, 0
  {
    hide ScanItems, PrintElements, PrintMembers;
    match v
    case EmptyArray(blank) => EmptyScanned(false, blank, rest, ended, depth);
    case EmptyObject(blank) => EmptyScanned(true, blank, rest, ended, depth);
    case Array(elements) =>
      R.Regroup([LBRACKET], PrintElements(elements), rest);
      R.One(LBRACKET, PrintElements(elements) + rest);
      ElementsScanned(elements, rest, ended, depth);
    case Object(members) =>
      R.Regroup([LBRACE], PrintMembers(members), rest);
      R.One(LBRACE, PrintMembers(members) + rest);
      MembersScanned(members, rest, ended, depth);
  }

  lemma StringScanned(chars: seq<StrChar>, rest: Text, ended: bool)
    requires StrOk(chars) && Followed(rest, ended)
    ensures (PrintString(chars) + rest)[0] == QUOTE
    ensures ScanString(PrintString(chars) + rest, ended) == Located(StringShape(DecodeChars(chars), |DecodeChars(chars)|), Some(rest))
  {
    StringText(chars, rest);
    BodyRead(Incoming, chars, rest);
  }

  lemma NumberScanned(n: Number, rest: Text, ended: bool)
    requires NumberOk(n) && IsFinite(NumberValue(n)) && Followed(rest, ended)
    ensures var t := PrintNumber(n) + rest;
      t != [] && IsNumberStart(t[0]) && ScanAtom(t, ended) == Located(NumberShape(NumberValue(n)), Some(rest))
  {
    var token := PrintNumber(n);
    NumberChars(n);
    RunOf(token, rest);
    assert (token + rest)[0] == token[0];
    assert (token + rest)[..|token|] == token && (token + rest)[|token|..] == rest;
    NumberTokenValue(n);
  }

  lemma EmptyScanned(isObject: bool, blank: Text, rest: Text, ended: bool, depth: nat)
    requires AllWhitespace(blank) && depth < MAX_DEPTH
    ensures var t := [if isObject then LBRACE else LBRACKET] + blank + [if isObject then RBRACE else RBRACKET] + rest;
      && t[0] == (if isObject then LBRACE else LBRACKET)
      && SkipInsignificant(t[1..]) == [if isObject then RBRACE else RBRACKET] + rest
      && ScanItems(t[1..], ended, depth, isObject) == Some(rest)
  {
    var open := if isObject then LBRACE else LBRACKET;
    var close := if isObject then RBRACE else RBRACKET;
    R.Assoc([open], blank, [close], rest);
    R.One(open, blank + ([close] + rest));
    BlankThen(blank, [close] + rest);
    R.One(close, rest);
  }

  // ---------- elements ----------

  /** The text of the first element of the list, and what comes after it. */
  function ElementAt(es: Elements, rest: Text): Text {
    Print(es.value) + (es.post + R.ElementTail(es, rest))
  }

  lemma ElementStart(es: Elements, rest: Text)
    requires ElementsOk(es)
    ensures SkipInsignificant(PrintElements(es) + rest) == ElementAt(es, rest)
    ensures ElementAt(es, rest) != [] && !IsDelimiter(ElementAt(es, rest)[0])
    ensures Followed(es.post + R.ElementTail(es, rest), true) && Followed(es.post + R.ElementTail(es, rest), false)
  {
    var close := R.ElementTail(es, rest);
    R.ElementText(es, rest);
    ValueStart(es.value, es.post + close);
    BlankThen(es.pre, Print(es.value) + (es.post + close));
    BlankFollowed(es.post, close, true);
    BlankFollowed(es.post, close, false);
  }

  lemma {:induction false} ElementSkipped(es: Elements, rest: Text, ended: bool, depth: nat)
    requires ElementsOk(es) && NumbersFinite(es.value) && Nesting(es.value) + depth <= MAX_DEPTH
    ensures SkipValue(ElementAt(es, rest), ended, depth, RBRACKET)
         == if es.MoreElements? then Next(PrintElements(es.rest) + rest) else Closed(rest)
    decreases es, 0
  {
    var close := R.ElementTail(es, rest);
    ElementStart(es, rest);
    ValueScanned(es.value, es.post + close, ended, depth);
    BlankThen(es.post, close);
    if es.MoreElements? {
      R.One(COMMA, PrintElements(es.rest) + rest);
    } else {
      R.One(RBRACKET, rest);
    }
  }

  lemma {:induction false} ElementsScanned(es: Elements, rest: Text, ended: bool, depth: nat)
    requires ElementsOk(es) && ElementsFinite(es) && ElementsNesting(es) + depth + 1 <= MAX_DEPTH
    ensures ScanItems(PrintElements(es) + rest, ended, depth, false) == Some(rest)
    decreases es, 1
  {
    ElementStart(es, rest);
    ElementSkipped(es, rest, ended, depth + 1);
    if es.MoreElements? {
      ElementsScanned(es.rest, rest, ended, depth);
    }
  }

  // ---------- members ----------

  function MemberAt(ms: Members, rest: Text): Text {
    Print(ms.value) + (ms.post + R.MemberTail(ms, rest))
  }

  lemma MemberStart(ms: Members, rest: Text)
    requires MembersOk(ms)
    ensures var m := ReadMember(PrintMembers(ms) + rest);
      m.Keyed? && m.key == DecodeChars(ms.key) && m.value == MemberAt(ms, rest) && m.value != []
    ensures Followed(ms.post + R.MemberTail(ms, rest), true) && Followed(ms.post + R.MemberTail(ms, rest), false)
  {
    var close := R.MemberTail(ms, rest);
    var value := Print(ms.value) + (ms.post + close);
    var colon := ms.beforeColon + ([COLON] + (ms.afterColon + value));
    MemberPieces(ms, rest);
    StringText(ms.key, colon);
    BlankThen(ms.pre, PrintString(ms.key) + colon);
    BodyRead(Incoming, ms.key, colon);
    BlankThen(ms.beforeColon, [COLON] + (ms.afterColon + value));
    R.One(COLON, ms.afterColon + value);
    ValueStart(ms.value, ms.post + close);
    BlankThen(ms.afterColon, value);
    BlankFollowed(ms.post, close, true);
    BlankFollowed(ms.post, close, false);
  }

  lemma {:induction false} MemberSkipped(ms: Members, rest: Text, ended: bool, depth: nat)
    requires MembersOk(ms) && NumbersFinite(ms.value) && Nesting(ms.value) + depth <= MAX_DEPTH
    ensures SkipValue(MemberAt(ms, rest), ended, depth, RBRACE)
         == if ms.MoreMembers? then Next(PrintMembers(ms.rest) + rest) else Closed(rest)
    decreases ms, 0
  {
    var close := R.MemberTail(ms, rest);
    MemberStart(ms, rest);
    ValueScanned(ms.value, ms.post + close, ended, depth);
    BlankThen(ms.post, close);
    if ms.MoreMembers? {
      R.One(COMMA, PrintMembers(ms.rest) + rest);
    } else {
      R.One(RBRACE, rest);
    }
  }

  lemma {:induction false} MembersScanned(ms: Members, rest: Text, ended: bool, depth: nat)
    requires MembersOk(ms) && MembersFinite(ms) && MembersNesting(ms) + depth + 1 <= MAX_DEPTH
    ensures ScanItems(PrintMembers(ms) + rest, ended, depth, true) == Some(rest)
    decreases ms, 1
  {
    MemberStart(ms, rest);
    MemberSkipped(ms, rest, ended, depth + 1);
    if ms.MoreMembers? {
      MembersScanned(ms.rest, rest, ended, depth);
    }
  }

  // ---------- following a path in the tree ----------

  datatype Target = Absent | Wrong(expected: Name, found: Name) | Subtree(v: Value)

  function NameOf(v: Value): Name {
    match v
    case Str(_) => StringName
    case Num(_) => NumberName
    case Lit(word) => if word == Null then NullName else BooleanName
    case EmptyArray(_) => ArrayName
    case Array(_) => ArrayName
    case EmptyObject(_) => ObjectName
    case Object(_) => ObjectName
  }

  /** The first member with this key. */
  function MemberNamed(ms: Members, name: Text): Option<Value>
    requires MembersOk(ms)
  {
    if DecodeChars(ms.key) == name then Some(ms.value)
    else if ms.MoreMembers? then MemberNamed(ms.rest, name) else None
  }

  function Element(es: Elements, i: nat): Option<Value> {
    if i == 0 then Some(es.value) else if es.MoreElements? then Element(es.rest, i - 1) else None
  }

  /** The child a segment leads to, in a container of its kind. */
  function Child(v: Value, segment: Segment): Option<Value>
    requires ValueOk(v)
  {
    if segment.Key? then if v.Object? then MemberNamed(v.members, segment.name) else None
    else if v.Array? then Element(v.elements, segment.i) else None
  }

  predicate Suits(v: Value, segment: Segment) {
    if segment.Key? then v.Object? || v.EmptyObject? else v.Array? || v.EmptyArray?
  }

  lemma {:induction false} MemberIsOk(ms: Members, name: Text)
    requires MembersOk(ms) && MemberNamed(ms, name).Some?
    ensures ValueOk(MemberNamed(ms, name).value) && MemberNamed(ms, name).value < ms
    ensures Nesting(MemberNamed(ms, name).value) <= MembersNesting(ms)
    ensures MembersFinite(ms) ==> NumbersFinite(MemberNamed(ms, name).value)
    ensures T.MembersDistinct(ms) ==> T.DistinctKeys(MemberNamed(ms, name).value)
  {
    if DecodeChars(ms.key) != name {
      MemberIsOk(ms.rest, name);
    }
  }

  lemma {:induction false} ElementIsOk(es: Elements, i: nat)
    requires ElementsOk(es) && Element(es, i).Some?
    ensures ValueOk(Element(es, i).value) && Element(es, i).value < es
    ensures Nesting(Element(es, i).value) <= ElementsNesting(es)
    ensures ElementsFinite(es) ==> NumbersFinite(Element(es, i).value)
    ensures T.ElementsDistinct(es) ==> T.DistinctKeys(Element(es, i).value)
  {
    if i > 0 {
      ElementIsOk(es.rest, i - 1);
    }
  }

  lemma ChildIsOk(v: Value, segment: Segment)
    requires ValueOk(v) && Child(v, segment).Some?
    ensures ValueOk(Child(v, segment).value) && Nesting(Child(v, segment).value) < Nesting(v)
    ensures NumbersFinite(v) ==> NumbersFinite(Child(v, segment).value)
    ensures T.DistinctKeys(v) ==> T.DistinctKeys(Child(v, segment).value)
  {
    if segment.Key? {
      MemberIsOk(v.members, segment.name);
    } else {
      ElementIsOk(v.elements, segment.i);
    }
  }

  function Resolve(v: Value, path: seq<Segment>): Target
    requires ValueOk(v)
    decreases |path|
  {
    if path == [] then Subtree(v)
    else if !Suits(v, path[0]) then Wrong(Expected(path[0]), NameOf(v))
    else
      var child := Child(v, path[0]);
      if child.None? then Absent else
        ChildIsOk(v, path[0]);
        Resolve(child.value, path[1..])
  }

  /** A probe that leads to the whole text of the target, complete. */
  ghost predicate Leads(p: Probe, target: Target, ended: bool, depth: nat) {
    match target
    case Absent => p.Missing?
    case Wrong(expected, found) => p == Mismatch(expected, found)
    case Subtree(v) =>
      p.Found? && p.depth == depth && ValueOk(v)
      && exists rest :: p.t == Print(v) + rest && ScanValue(p.t, ended, depth) == Located(ShapeOf(v), Some(rest))
  }

  lemma StartName(v: Value, rest: Text)
    requires ValueOk(v)
    ensures Print(v) + rest != [] && CharName((Print(v) + rest)[0]) == NameOf(v)
    ensures (Print(v) + rest)[0] == LBRACE <==> NameOf(v) == ObjectName
    ensures (Print(v) + rest)[0] == LBRACKET <==> NameOf(v) == ArrayName
  {
    ValueStart(v, rest);
    if v.Num? {
      NumberChars(v.num);
    }
  }

  lemma LeadsNowhere(ended: bool, depth: nat)
    ensures Leads(Missing, Absent, ended, depth)
  {
  }

  lemma LeadsHere(v: Value, rest: Text, ended: bool, depth: nat)
    requires ValueOk(v) && NumbersFinite(v) && Followed(rest, ended) && Nesting(v) + depth <= MAX_DEPTH
    ensures Leads(Found(Print(v) + rest, depth), Subtree(v), ended, depth)
  {
    ValueScanned(v, rest, ended, depth);
  }

  lemma {:induction false} ValueSelected(v: Value, rest: Text, path: seq<Segment>, ended: bool, depth: nat)
    requires ValueOk(v) && NumbersFinite(v) && Followed(rest, ended) && Nesting(v) + depth <= MAX_DEPTH
    ensures Leads(FreshValue(Print(v) + rest, path, ended, depth), Resolve(v, path), ended, depth + |path|)
    decreases |path|, v, 1
  {
    if path == [] {
      StartName(v, rest);
      LeadsHere(v, rest, ended, depth);
    } else if !Suits(v, path[0]) {
      Astray(v, rest, path, ended, depth);
    } else if v.Object? {
      ObjectSelected(v, rest, path, ended, depth);
    } else if v.Array? {
      ArraySelected(v, rest, path, ended, depth);
    } else {
      InEmpty(v, rest, path, ended, depth);
    }
  }

  lemma ObjectParts(v: Value)
    requires v.Object? && ValueOk(v) && NumbersFinite(v)
    ensures v == Object(v.members) && MembersOk(v.members) && MembersFinite(v.members)
    ensures Nesting(v) == MembersNesting(v.members) + 1
  {
  }

  lemma {:induction false} ObjectSelected(v: Value, rest: Text, path: seq<Segment>, ended: bool, depth: nat)
    requires ValueOk(v) && NumbersFinite(v) && Nesting(v) + depth <= MAX_DEPTH
    requires v.Object? && path != [] && path[0].Key?
    ensures Leads(FreshValue(Print(v) + rest, path, ended, depth), Resolve(v, path), ended, depth + |path|)
    decreases |path|, v, 0
  {
    ObjectParts(v);
    ThroughKey(v, path);
    hide *;
    KeyTaken(v.members, rest, path, ended, depth);
  }

  /** The descent into an object, in terms of its members. */
  lemma {:induction false} KeyTaken(ms: Members, rest: Text, path: seq<Segment>, ended: bool, depth: nat)
    requires MembersOk(ms) && MembersFinite(ms) && MembersNesting(ms) + depth + 1 <= MAX_DEPTH
    requires path != [] && path[0].Key?
    ensures Leads(FreshValue(Print(Object(ms)) + rest, path, ended, depth), AfterKey(ms, path[0].name, path[1..]), ended, depth + |path|)
    decreases |path|, ms, 1
  {
    hide *;
    InObject(ms, rest, path, ended, depth);
    KeySelected(ms, rest, path[0].name, path[1..], ended, depth);
    assert depth + 1 + |path[1..]| == depth + |path|;
  }

  lemma {:induction false} ArraySelected(v: Value, rest: Text, path: seq<Segment>, ended: bool, depth: nat)
    requires ValueOk(v) && NumbersFinite(v) && Nesting(v) + depth <= MAX_DEPTH
    requires v.Array? && path != [] && path[0].At?
    ensures Leads(FreshValue(Print(v) + rest, path, ended, depth), Resolve(v, path), ended, depth + |path|)
    decreases |path|, v, 0
  {
    assert ElementsOk(v.elements) && ElementsFinite(v.elements) && ElementsNesting(v.elements) + depth + 1 <= MAX_DEPTH;
    hide Print, PrintElements, FreshElement, FreshValue, Element, Resolve, Leads;
    InArray(v.elements, rest, path, ended, depth);
    ElementSelected(v.elements, rest, 0, path[0].i, path[1..], ended, depth);
    ThroughIndex(v, path);
  }

  lemma Astray(v: Value, rest: Text, path: seq<Segment>, ended: bool, depth: nat)
    requires ValueOk(v) && path != [] && !Suits(v, path[0])
    ensures Leads(FreshValue(Print(v) + rest, path, ended, depth), Resolve(v, path), ended, depth + |path|)
  {
    StartName(v, rest);
    StartSuits(v, path[0]);
    hide Print, NameOf, Child;
  }

  lemma InEmpty(v: Value, rest: Text, path: seq<Segment>, ended: bool, depth: nat)
    requires ValueOk(v) && (v.EmptyObject? || v.EmptyArray?) && path != [] && Suits(v, path[0]) && depth < MAX_DEPTH
    ensures Leads(FreshValue(Print(v) + rest, path, ended, depth), Resolve(v, path), ended, depth + |path|)
  {
    StartName(v, rest);
    EmptySelected(v.EmptyObject?, v.blank, rest, path[0], path[1..], ended, depth);
    hide FreshKey, FreshElement;
  }

  lemma ThroughKey(v: Value, path: seq<Segment>)
    requires ValueOk(v) && v.Object? && path != [] && path[0].Key?
    ensures Resolve(v, path) == AfterKey(v.members, path[0].name, path[1..])
  {
  }

  lemma ThroughIndex(v: Value, path: seq<Segment>)
    requires ValueOk(v) && v.Array? && path != [] && path[0].At?
    ensures Resolve(v, path) == AfterIndex(v.elements, path[0].i, path[1..])
  {
  }

  lemma InObject(ms: Members, rest: Text, path: seq<Segment>, ended: bool, depth: nat)
    requires path != [] && path[0].Key? && depth < MAX_DEPTH
    ensures FreshValue(Print(Object(ms)) + rest, path, ended, depth)
         == FreshKey(PrintMembers(ms) + rest, path[0].name, path[1..], ended, depth)
  {
    R.Regroup([LBRACE], PrintMembers(ms), rest);
    R.One(LBRACE, PrintMembers(ms) + rest);
    hide PrintMembers, FreshKey;
  }

  lemma InArray(es: Elements, rest: Text, path: seq<Segment>, ended: bool, depth: nat)
    requires path != [] && path[0].At? && depth < MAX_DEPTH
    ensures FreshValue(Print(Array(es)) + rest, path, ended, depth)
         == FreshElement(PrintElements(es) + rest, 0, path[0].i, path[1..], ended, depth)
  {
    R.Regroup([LBRACKET], PrintElements(es), rest);
    R.One(LBRACKET, PrintElements(es) + rest);
    hide PrintElements, FreshElement;
  }

  lemma StartSuits(v: Value, segment: Segment)
    ensures Suits(v, segment) <==> NameOf(v) == Expected(segment)
  {
  }

  lemma EmptySelected(isObject: bool, blank: Text, rest: Text, segment: Segment, path: seq<Segment>, ended: bool, depth: nat)
    requires AllWhitespace(blank) && depth < MAX_DEPTH && segment.Key? == isObject
    ensures var t := [if isObject then LBRACE else LBRACKET] + blank + [if isObject then RBRACE else RBRACKET] + rest;
      if isObject then FreshKey(t[1..], segment.name, path, ended, depth).Missing?
      else FreshElement(t[1..], 0, segment.i, path, ended, depth).Missing?
  {
    EmptyScanned(isObject, blank, rest, ended, depth);
  }

  /** Where the path goes on from the first member with the key. */
  function AfterKey(ms: Members, wanted: Text, path: seq<Segment>): Target
    requires MembersOk(ms)
  {
    var m := MemberNamed(ms, wanted);
    if m.None? then Absent else
      MemberIsOk(ms, wanted);
      Resolve(m.value, path)
  }

  function AfterIndex(es: Elements, i: nat, path: seq<Segment>): Target
    requires ElementsOk(es)
  {
    var e := Element(es, i);
    if e.None? then Absent else
      ElementIsOk(es, i);
      Resolve(e.value, path)
  }

  lemma {:induction false} KeySelected(ms: Members, rest: Text, wanted: Text, path: seq<Segment>, ended: bool, depth: nat)
    requires MembersOk(ms) && MembersFinite(ms) && MembersNesting(ms) + depth + 1 <= MAX_DEPTH
    ensures Leads(FreshKey(PrintMembers(ms) + rest, wanted, path, ended, depth), AfterKey(ms, wanted, path), ended, depth + 1 + |path|)
    decreases |path| + 1, ms, 0
  {
    hide Leads, Resolve, ReadMember, SkipValue, Print, PrintMembers, PrintString, Followed, DecodeChars, FreshValue;
    MemberStart(ms, rest);
    if DecodeChars(ms.key) == wanted {
      ValueSelected(ms.value, ms.post + R.MemberTail(ms, rest), path, ended, depth + 1);
    } else {
      MemberSkipped(ms, rest, ended, depth + 1);
      if ms.MoreMembers? {
        KeySelected(ms.rest, rest, wanted, path, ended, depth);
      } else {
        LeadsNowhere(ended, depth + 1 + |path|);
      }
    }
  }

  lemma {:induction false} ElementSelected(es: Elements, rest: Text, element: nat, wanted: nat, path: seq<Segment>, ended: bool, depth: nat)
    requires ElementsOk(es) && ElementsFinite(es) && ElementsNesting(es) + depth + 1 <= MAX_DEPTH && element <= wanted
    ensures Leads(FreshElement(PrintElements(es) + rest, element, wanted, path, ended, depth), AfterIndex(es, wanted - element, path), ended, depth + 1 + |path|)
    decreases |path| + 1, es, 0
  {
    hide Leads, Resolve, SkipValue, SkipInsignificant, Print, PrintElements, Followed, FreshValue;
    ElementStart(es, rest);
    if element == wanted {
      ValueSelected(es.value, es.post + R.ElementTail(es, rest), path, ended, depth + 1);
    } else {
      ElementSkipped(es, rest, ended, depth + 1);
      if es.MoreElements? {
        ElementSelected(es.rest, rest, element + 1, wanted, path, ended, depth);
      } else {
        LeadsNowhere(ended, depth + 1 + |path|);
      }
    }
  }

  /** A pull on a finished text leads to the subtree at its path. */
  lemma FinishedPull(pre: Text, v: Value, post: Text, path: seq<Segment>)
    requires AllWhitespace(pre) && ValueOk(v) && AllWhitespace(post) && NumbersFinite(v) && Nesting(v) <= MAX_DEPTH
    ensures Leads(Fresh(pre + Print(v) + post, path, true), Resolve(v, path), true, |path|)
  {
    R.Regroup(pre, Print(v), post);
    ValueStart(v, post);
    BlankThen(pre, Print(v) + post);
    assert post + [] == post;
    BlankFollowed(post, [], true);
    ValueSelected(v, post, path, true, 0);
  }

  // ---------- the final parser's tree ----------

  function Get(members: seq<(Text, Json)>, name: Text): Option<Json> {
    if members == [] then None
    else if members[0].0 == name then Some(members[0].1)
    else Get(members[1..], name)
  }

  /** The value at a path of a parsed tree. */
  function JsonAt(j: Json, path: seq<Segment>): Option<Json>
    decreases |path|
  {
    if path == [] then Some(j)
    else
      var child := JsonChild(j, path[0]);
      if child.None? then None else JsonAt(child.value, path[1..])
  }

  lemma {:induction false} GetAssign(out: seq<(Text, Json)>, key: Text, value: Json, name: Text)
    ensures Get(Assign(out, key, value), name) == if name == key then Some(value) else Get(out, name)
  {
    if out != [] {
      if out[0].0 == key {
        assert ([(key, value)] + out[1..])[1..] == out[1..];
      } else {
        assert ([out[0]] + Assign(out[1..], key, value))[1..] == Assign(out[1..], key, value);
        GetAssign(out[1..], key, value, name);
      }
    }
  }

  lemma {:induction false} GetMember(out: seq<(Text, Json)>, ms: Members, name: Text)
    requires MembersOk(ms) && T.MembersDistinct(ms)
    ensures MemberNamed(ms, name).Some? ==>
      ValueOk(MemberNamed(ms, name).value) && Get(DecodeMembers(out, ms), name) == Some(Decode(MemberNamed(ms, name).value))
    ensures MemberNamed(ms, name).None? ==> Get(DecodeMembers(out, ms), name) == Get(out, name)
    decreases ms
  {
    var key := DecodeChars(ms.key);
    GetAssign(out, key, Decode(ms.value), name);
    if ms.MoreMembers? {
      GetMember(Assign(out, key, Decode(ms.value)), ms.rest, name);
      if key == name {
        NotNamed(ms.rest, name);
      }
    }
  }

  lemma {:induction false} NotNamed(ms: Members, name: Text)
    requires MembersOk(ms) && !T.KeyIn(name, ms)
    ensures MemberNamed(ms, name).None?
  {
    if ms.MoreMembers? {
      NotNamed(ms.rest, name);
    }
  }

  lemma {:induction false} ItemElement(out: seq<Json>, es: Elements, i: nat)
    requires ElementsOk(es)
    ensures |out| <= |DecodeElements(out, es)| && DecodeElements(out, es)[..|out|] == out
    ensures Element(es, i).Some? <==> |out| + i < |DecodeElements(out, es)|
    ensures Element(es, i).Some? ==> ValueOk(Element(es, i).value) && DecodeElements(out, es)[|out| + i] == Decode(Element(es, i).value)
    decreases es
  {
    var next := out + [Decode(es.value)];
    if es.MoreElements? {
      ItemElement(next, es.rest, if i > 0 then i - 1 else 0);
      var all := DecodeElements(next, es.rest);
      assert all[..|out|] == all[..|next|][..|out|] == out;
      assert all[|out|] == all[..|next|][|out|] == Decode(es.value);
    }
  }

  function JsonChild(j: Json, segment: Segment): Option<Json> {
    if segment.Key? then if j.JObject? then Get(j.members, segment.name) else None
    else if j.JArray? && segment.i < |j.items| then Some(j.items[segment.i]) else None
  }

  lemma ChildrenAgree(v: Value, segment: Segment)
    requires ValueOk(v) && T.DistinctKeys(v)
    ensures Child(v, segment).Some? ==>
      Suits(v, segment) && ValueOk(Child(v, segment).value) && JsonChild(Decode(v), segment) == Some(Decode(Child(v, segment).value))
    ensures Child(v, segment).None? ==> JsonChild(Decode(v), segment) == None
  {
    if v.Object? && segment.Key? {
      GetMember([], v.members, segment.name);
    } else if v.Array? && segment.At? {
      ItemElement([], v.elements, segment.i);
    }
    hide MemberNamed, Element, DecodeMembers, DecodeElements;
  }

  /** The tree the final parser builds and the syntax tree agree on every path. */
  lemma {:induction false} TreesAgree(v: Value, path: seq<Segment>)
    requires ValueOk(v) && T.DistinctKeys(v)
    ensures Resolve(v, path).Subtree? ==> ValueOk(Resolve(v, path).v) && JsonAt(Decode(v), path) == Some(Decode(Resolve(v, path).v))
    ensures !Resolve(v, path).Subtree? ==> JsonAt(Decode(v), path) == None
    decreases |path|
  {
    if path != [] {
      ChildrenAgree(v, path[0]);
      if Child(v, path[0]).Some? {
        ChildIsOk(v, path[0]);
        TreesAgree(Child(v, path[0]).value, path[1..]);
      }
      hide Decode, ValueOk, T.DistinctKeys, Child, JsonChild, Suits;
    }
  }

  /** `materialize`: a scalar is in the shape, a container goes through the final parser. */
  function Materialized(t: Text, s: Scan): Option<Json>
    requires Done(s) && |s.end.value| <= |t|
  {
    match s.shape
    case NullShape => Some(JNull)
    case BoolShape(b) => Some(JBool(b))
    case NumberShape(r) => Some(JNumber(r))
    case StringShape(value, _) => Some(JString(value))
    case _ =>
      var o := Parse(false, t[..|t| - |s.end.value|]);
      if o.Got? then Some(o.value) else None
  }

  lemma SubtreeMaterialized(v: Value, rest: Text)
    requires ValueOk(v) && NumbersFinite(v)
    ensures Materialized(Print(v) + rest, Located(ShapeOf(v), Some(rest))) == Some(Decode(v))
  {
    var t := Print(v) + rest;
    assert t[..|t| - |rest|] == Print(v);
    StrictRoundTrip([], v, []);
    assert [] + Print(v) + [] == Print(v);
  }

  lemma {:induction false} ResolvedIsFinite(v: Value, path: seq<Segment>)
    requires ValueOk(v) && NumbersFinite(v) && Resolve(v, path).Subtree?
    ensures ValueOk(Resolve(v, path).v) && NumbersFinite(Resolve(v, path).v)
    decreases |path|
  {
    if path != [] {
      ChildIsOk(v, path[0]);
      ResolvedIsFinite(Child(v, path[0]).value, path[1..]);
    }
  }

  /**
   On a finished JSON text without duplicate keys, nested no deeper than the limit, a pull at any path
   of keys and indices is complete and materializes to what the final parser has there, and it is
   missing or a mismatch exactly when the final parser has nothing there.
   */
  lemma PullIsFinalParse(pre: Text, v: Value, post: Text, path: seq<Segment>)
    requires AllWhitespace(pre) && ValueOk(v) && AllWhitespace(post)
    requires NumbersFinite(v) && T.DistinctKeys(v) && Nesting(v) <= MAX_DEPTH
    ensures var t := pre + Print(v) + post;
      var whole, p := Parse(false, t), Fresh(t, path, true);
      && whole.Got?
      && (JsonAt(whole.value, path).None? <==> p.Missing? || p.Mismatch?)
      && (JsonAt(whole.value, path).Some? ==>
            && p.Found? && Done(ScanValue(p.t, true, p.depth))
            && Materialized(p.t, ScanValue(p.t, true, p.depth)) == JsonAt(whole.value, path))
  {
    StrictRoundTrip(pre, v, post);
    FinishedPull(pre, v, post, path);
    TreesAgree(v, path);
    var p := Fresh(pre + Print(v) + post, path, true);
    if Resolve(v, path).Subtree? {
      var s := Resolve(v, path).v;
      ResolvedIsFinite(v, path);
      var rest :| p.t == Print(s) + rest && ScanValue(p.t, true, |path|) == Located(ShapeOf(s), Some(rest));
      SubtreeMaterialized(s, rest);
    }
  }
}
