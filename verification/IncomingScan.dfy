/**
 Scanning a JSON document whose text is still arriving: locating the value at a path and deciding
 whether it is complete, without any memory of earlier scans.
 */
module IncomingScan {
  import opened Units
  import opened JsonGrammar
  import opened JsonLexer
  import opened JsonValue

  /** Container nesting at which a scan reports the value as pending. */
  const MAX_DEPTH: nat := 128

  datatype Shape =
    | NullShape
    | ArrayShape
    | ObjectShape
    | BoolShape(b: bool)
    | NumberShape(r: real)
    | StringShape(value: Text, stableLen: nat)

  /** `scanValue`: no value yet, or a value and, once it is complete, the text after its closing token. */
  datatype Scan = Pending | Located(shape: Shape, end: Option<Text>)

  predicate Done(s: Scan) {
    s.Located? && s.end.Some?
  }

  predicate Fits(s: Scan, n: nat) {
    Done(s) ==> |s.end.value| <= n
  }

  /** `scalarComplete`, from after the scalar. */
  predicate ScalarComplete(t: Text, ended: bool) {
    var k := SkipInsignificant(t);
    if k == [] then ended else k[0] == COMMA || k[0] == RBRACE || k[0] == RBRACKET
  }

  function Scalar(shape: Shape, t: Text, ended: bool): Scan {
    Located(shape, if ScalarComplete(t, ended) then Some(t) else None)
  }

  function ScanString(t: Text, ended: bool): (s: Scan)
    requires t != []
    ensures Fits(s, |t|)
  {
    var b := ReadString(Incoming, t[0], t[1..]);
    var shape := StringShape(b.value, b.StableLen());
    if b.complete then Scalar(shape, b.rest, ended) else Located(shape, None)
  }

  function WordShape(w: Word): Shape {
    match w
    case True => BoolShape(true)
    case False => BoolShape(false)
    case Null => NullShape
  }

  /** A scalar that is no string token: number, keyword or bareword. */
  function ScanAtom(t: Text, ended: bool): (s: Scan)
    requires t != []
    ensures Fits(s, |t|)
  {
    if IsNumberStart(t[0]) then
      var k := NumberRun(t);
      var n := JsNumber(t[..k]);
      if n.None? then Pending else Scalar(NumberShape(n.value), t[k..], ended)
    else
      var word := ReadKeyword(t);
      if word.Some? then Scalar(WordShape(word.value.0), t[word.value.1..], ended)
      else
        var bare := ReadBareword(t);
        if bare.None? then Pending
        else Scalar(StringShape(bare.value.0, |bare.value.0|), t[bare.value.1..], ended)
  }

  /** `scanValue`. */
  function ScanValue(t: Text, ended: bool, depth: nat): (s: Scan)
    ensures Fits(s, |t|)
    decreases |t|, 2
  {
    if t == [] then Pending
    else if t[0] == LBRACE || t[0] == LBRACKET then ScanContainer(t, ended, depth)
    else if t[0] == QUOTE || t[0] == SQUOTE then ScanString(t, ended)
    else ScanAtom(t, ended)
  }

  function CloserOf(open: Unit): Unit {
    if open == LBRACE then RBRACE else RBRACKET
  }

  /** `scanContainer`, at the opening delimiter. */
  function ScanContainer(t: Text, ended: bool, depth: nat): (s: Scan)
    requires t != []
    ensures Fits(s, |t|)
    decreases |t|, 1
  {
    if depth >= MAX_DEPTH then Pending
    else Located(if t[0] == LBRACE then ObjectShape else ArrayShape, ScanItems(t[1..], ended, depth, t[0] == LBRACE))
  }

  /** What stands at a member start of an object. */
  datatype MemberHead =
    | NoMember                                  // the buffer ends before the member's colon
    | ClosingBrace(rest: Text)
    | StrayComma(rest: Text)
    | Keyed(key: Text, at: Text, value: Text)   // the key, the member, and the text of its value (may be empty)

  /** The key at the cursor with the text after it; None when it is cut. */
  function ScanKey(t: Text): (r: Option<(Text, Text)>)
    requires t != []
    ensures r.Some? ==> |r.value.1| < |t|
  {
    if t[0] == QUOTE || t[0] == SQUOTE then
      var b := ReadString(Incoming, t[0], t[1..]);
      if b.complete then Some((b.value, b.rest)) else None
    else if KeyRun(t) == 0 then None
    else Some((t[..KeyRun(t)], t[KeyRun(t)..]))
  }

  function ReadMember(t: Text): (m: MemberHead)
    ensures m.ClosingBrace? ==> |m.rest| < |t|
    ensures m.StrayComma? ==> |m.rest| < |t|
    ensures m.Keyed? ==> |m.value| < |m.at| <= |t|
  {
    var t1 := SkipInsignificant(t);
    if t1 == [] then NoMember
    else if t1[0] == RBRACE then ClosingBrace(t1[1..])
    else if t1[0] == COMMA then StrayComma(t1[1..])
    else
      var key := ScanKey(t1);
      if key.None? then NoMember
      else
        var t2 := SkipInsignificant(key.value.1);
        if t2 == [] || t2[0] != COLON then NoMember
        else Keyed(key.value.0, t1, SkipInsignificant(t2[1..]))
  }

  /** What follows a value inside a container. */
  datatype ValueTail = Open | Closed(rest: Text) | Next(rest: Text)

  /** What follows a scanned value, in a container that ends with `close`. */
  function TailOf(s: Scan, close: Unit): (v: ValueTail)
    ensures v.Closed? ==> Done(s) && |v.rest| < |s.end.value|
    ensures v.Next? ==> Done(s) && |v.rest| < |s.end.value|
  {
    if !Done(s) then Open
    else
      var d := SkipInsignificant(s.end.value);
      if d != [] && d[0] == COMMA then Next(d[1..])
      else if d != [] && d[0] == close then Closed(d[1..])
      else Open
  }

  /** Skip the value at the cursor and its separator. */
  function SkipValue(t: Text, ended: bool, depth: nat, close: Unit): (v: ValueTail)
    ensures v.Closed? ==> |v.rest| < |t|
    ensures v.Next? ==> |v.rest| < |t|
    decreases |t|, 3
  {
    TailOf(ScanValue(t, ended, depth), close)
  }

  /** The loop of `scanContainer`: the text after the closing delimiter, or None while it is open. */
  function ScanItems(t: Text, ended: bool, depth: nat, isObject: bool): (r: Option<Text>)
    ensures r.Some? ==> |r.value| < |t|
    decreases |t|, 4
  {
    if isObject then
      match ReadMember(t)
      case NoMember => None
      case ClosingBrace(rest) => Some(rest)
      case StrayComma(rest) => ScanItems(rest, ended, depth, true)
      case Keyed(_, _, value) =>
        var v := SkipValue(value, ended, depth + 1, RBRACE);
        if v.Next? then ScanItems(v.rest, ended, depth, true)
        else if v.Closed? then Some(v.rest)
        else None
    else
      var t1 := SkipInsignificant(t);
      if t1 == [] then None
      else if t1[0] == RBRACKET then Some(t1[1..])
      else if t1[0] == COMMA then ScanItems(t1[1..], ended, depth, false)
      else
        var v := SkipValue(t1, ended, depth + 1, RBRACKET);
        if v.Next? then ScanItems(v.rest, ended, depth, false)
        else if v.Closed? then Some(v.rest)
        else None
  }
}
