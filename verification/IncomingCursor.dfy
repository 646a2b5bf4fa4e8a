/**
 `scanValue` and `scanContainer` as the source has them: loops that move the lexer's cursor. They are
 proved to find what the functions of IncomingScan say, and to leave the cursor where the callers go on.
 */
module IncomingCursor {
  import opened Units
  import opened JsonGrammar
  import opened JsonLexer
  import opened JsonValue
  import opened LexerCursor
  import opened IncomingScan
  import I = IncomingResume

  /** A located value with the offset after it once it is complete. */
  datatype Spot = NoSpot | Spot(shape: Shape, end: Option<nat>)

  /** The spot is the scan's; past a complete value the cursor stands where the next token is looked for. */
  predicate Marks(p: Spot, src: Text, rest: Text, s: Scan) {
    match s
    case Pending => p == NoSpot
    case Located(shape, end) =>
      && p.Spot? && p.shape == shape && (end.None? <==> p.end.None?)
      && (end.Some? ==>
            p.end.value <= |src| && src[p.end.value..] == end.value
            && SkipInsignificant(rest) == SkipInsignificant(end.value))
  }

  // ---------- one pass of the container's loop ----------

  /** What follows a scanned value decides how the container goes on. */
  function ItemsAfter(s: Scan, ended: bool, depth: nat, isObject: bool): Option<Text> {
    var v := TailOf(s, CloserOf(if isObject then LBRACE else LBRACKET));
    if v.Next? then ScanItems(v.rest, ended, depth, isObject)
    else if v.Closed? then Some(v.rest)
    else None
  }

  lemma ArrayPass(t: Text, ended: bool, depth: nat)
    ensures var t1 := SkipInsignificant(t);
      ScanItems(t, ended, depth, false) ==
        if t1 == [] then None
        else if t1[0] == RBRACKET then Some(t1[1..])
        else if t1[0] == COMMA then ScanItems(t1[1..], ended, depth, false)
        else ItemsAfter(ScanValue(t1, ended, depth + 1), ended, depth, false)
  {
  }

  /** A member from its key on. */
  function MemberFrom(t: Text, ended: bool, depth: nat): Option<Text>
    requires t != []
  {
    var key := ScanKey(t);
    if key.None? then None
    else
      var t2 := SkipInsignificant(key.value.1);
      if t2 == [] || t2[0] != COLON then None
      else ItemsAfter(ScanValue(SkipInsignificant(t2[1..]), ended, depth + 1), ended, depth, true)
  }

  lemma ObjectPass(t: Text, ended: bool, depth: nat)
    ensures var t1 := SkipInsignificant(t);
      ScanItems(t, ended, depth, true) ==
        if t1 == [] then None
        else if t1[0] == RBRACE then Some(t1[1..])
        else if t1[0] == COMMA then ScanItems(t1[1..], ended, depth, true)
        else MemberFrom(t1, ended, depth)
  {
  }

  // ---------- scanning ----------

  /** `scalarComplete`: the cursor is left before the next token. */
  method ScalarCompleteAt(lex: Lexer, ended: bool) returns (complete: bool)
    requires lex.Valid()
    modifies lex
    ensures lex.Valid() && complete == ScalarComplete(old(lex.Rest()), ended)
    ensures lex.Rest() == SkipInsignificant(old(lex.Rest()))
  {
    hide SkipInsignificant;
    lex.Ws();
    if lex.pos >= |lex.src| {
      return ended;
    }
    var c := lex.src[lex.pos];
    Ahead(lex.src, lex.pos);
    return c == COMMA || c == RBRACE || c == RBRACKET;
  }

  /** A scalar of this shape ends at the cursor. */
  method ScalarAt(lex: Lexer, shape: Shape, ended: bool) returns (p: Spot)
    requires lex.Valid()
    modifies lex
    ensures lex.Valid() && Marks(p, lex.src, lex.Rest(), Scalar(shape, old(lex.Rest()), ended))
  {
    hide ScalarComplete, SkipInsignificant;
    var end := lex.pos;
    I.SkipTwice(lex.Rest());
    var complete := ScalarCompleteAt(lex, ended);
    return Spot(shape, if complete then Some(end) else None);
  }

  /** `scanValue`. */
  method ScanValueAt(lex: Lexer, ended: bool, depth: nat) returns (p: Spot)
    requires lex.Valid() && lex.mode == Incoming
    modifies lex
    ensures lex.Valid() && Marks(p, lex.src, lex.Rest(), ScanValue(old(lex.Rest()), ended, depth))
    decreases |lex.Rest()|, 1
  {
    if lex.pos >= |lex.src| {
      return NoSpot;
    }
    var c := lex.src[lex.pos];
    Ahead(lex.src, lex.pos);
    hide ReadString, ScanItems, ScanAtom, Scalar, Marks;
    if c == LBRACE || c == LBRACKET {
      p := ScanContainerAt(lex, ended, depth);
    } else if c == QUOTE || c == SQUOTE {
      p := ScanStringAt(lex, ended);
    } else {
      p := ScanAtomAt(lex, ended);
    }
  }

  method ScanStringAt(lex: Lexer, ended: bool) returns (p: Spot)
    requires lex.Valid() && lex.mode == Incoming && lex.pos < |lex.src|
    modifies lex
    ensures lex.Valid() && Marks(p, lex.src, lex.Rest(), ScanString(old(lex.Rest()), ended))
  {
    Ahead(lex.src, lex.pos);
    hide ReadString, ScalarComplete, SkipInsignificant;
    var progress := lex.String(lex.src[lex.pos]);
    var shape := StringShape(progress.value.value, progress.value.stableLen);
    if !progress.value.complete {
      return Spot(shape, None);
    }
    p := ScalarAt(lex, shape, ended);
  }

  method ScanAtomAt(lex: Lexer, ended: bool) returns (p: Spot)
    requires lex.Valid() && lex.mode == Incoming && lex.pos < |lex.src|
    modifies lex
    ensures lex.Valid() && Marks(p, lex.src, lex.Rest(), ScanAtom(old(lex.Rest()), ended))
  {
    Ahead(lex.src, lex.pos);
    hide NumberRun, JsNumber, ReadKeyword, ReadBareword, Scalar, Marks;
    if IsNumberStart(lex.src[lex.pos]) {
      var n := lex.Number();
      if n.Ok? {
        p := ScalarAt(lex, NumberShape(n.value), ended);
      } else {
        NoMark(lex.src, lex.Rest());
        p := NoSpot;
      }
      return;
    }
    var keyword := lex.Keyword();
    if keyword.Some? {
      p := ScalarAt(lex, WordShape(keyword.value), ended);
      return;
    }
    var word := lex.Bareword();
    if word.Ok? {
      p := ScalarAt(lex, StringShape(word.value, |word.value|), ended);
    } else {
      NoMark(lex.src, lex.Rest());
      p := NoSpot;
    }
  }

  lemma NoMark(src: Text, rest: Text)
    ensures Marks(NoSpot, src, rest, Pending)
  {
  }

  /** `scanContainer`, at the opening delimiter. */
  method ScanContainerAt(lex: Lexer, ended: bool, depth: nat) returns (p: Spot)
    requires lex.Valid() && lex.mode == Incoming && lex.pos < |lex.src|
    requires lex.src[lex.pos] == LBRACE || lex.src[lex.pos] == LBRACKET
    modifies lex
    ensures lex.Valid() && Marks(p, lex.src, lex.Rest(), ScanContainer(old(lex.Rest()), ended, depth))
    decreases |lex.Rest()|, 0
  {
    if depth >= MAX_DEPTH {
      return NoSpot;
    }
    Ahead(lex.src, lex.pos);
    var isObject := lex.src[lex.pos] == LBRACE;
    lex.pos := lex.pos + 1;
    hide ScanItems;
    var end := ScanItemsAt(lex, ended, depth, isObject);
    return Spot(if isObject then ObjectShape else ArrayShape, end);
  }

  /** The loop of `scanContainer`: the offset after the closing delimiter, where the cursor is then, or None. */
  method ScanItemsAt(lex: Lexer, ended: bool, depth: nat, isObject: bool) returns (end: Option<nat>)
    requires lex.Valid() && lex.mode == Incoming
    modifies lex
    ensures lex.Valid()
    ensures var r := ScanItems(old(lex.Rest()), ended, depth, isObject);
      if r.Some? then end == Some(lex.pos) && lex.Rest() == r.value else end == None
    decreases |lex.Rest()|, 3
  {
    hide ScanItems, SkipInsignificant, MemberFrom, ItemsAfter;
    var close := if isObject then RBRACE else RBRACKET;
    ghost var start := lex.Rest();
    while true
      invariant lex.Valid() && lex.pos >= old(lex.pos)
      invariant ScanItems(lex.Rest(), ended, depth, isObject) == ScanItems(start, ended, depth, isObject)
      decreases |lex.Rest()|
    {
      if isObject {
        ObjectPass(lex.Rest(), ended, depth);
      } else {
        ArrayPass(lex.Rest(), ended, depth);
      }
      lex.Ws();
      if lex.pos >= |lex.src| {
        return None;
      }
      var c := lex.src[lex.pos];
      Ahead(lex.src, lex.pos);
      if c == close {
        lex.pos := lex.pos + 1;
        return Some(lex.pos);
      }
      if c == COMMA {
        lex.pos := lex.pos + 1;
        continue;
      }
      var goesOn;
      if isObject {
        goesOn, end := ScanMemberAt(lex, ended, depth);
      } else {
        goesOn, end := ScanItemAt(lex, ended, depth, false);
      }
      if !goesOn {
        return;
      }
    }
  }

  /** A value in a container and its separator: the loop goes on, or the container ends, or it is open. */
  method ScanItemAt(lex: Lexer, ended: bool, depth: nat, isObject: bool) returns (goesOn: bool, end: Option<nat>)
    requires lex.Valid() && lex.mode == Incoming
    modifies lex
    ensures lex.Valid()
    ensures var r := ItemsAfter(ScanValue(old(lex.Rest()), ended, depth + 1), ended, depth, isObject);
      if goesOn then lex.pos > old(lex.pos) && ScanItems(lex.Rest(), ended, depth, isObject) == r
      else if r.Some? then end == Some(lex.pos) && lex.Rest() == r.value else end == None
    decreases |lex.Rest()|, 2
  {
    hide ScanItems, ScanValue, SkipInsignificant;
    var close := if isObject then RBRACE else RBRACKET;
    var value := ScanValueAt(lex, ended, depth + 1);
    if value.NoSpot? || value.end.None? {
      return false, None;
    }
    lex.Ws();
    if lex.pos >= |lex.src| {
      return false, None;
    }
    Ahead(lex.src, lex.pos);
    var d := lex.src[lex.pos];
    if d == COMMA {
      lex.pos := lex.pos + 1;
      return true, None;
    }
    if d == close {
      lex.pos := lex.pos + 1;
      return false, Some(lex.pos);
    }
    return false, None;
  }

  /** A member of an object: its key, the colon, and the rest as above. */
  method ScanMemberAt(lex: Lexer, ended: bool, depth: nat) returns (goesOn: bool, end: Option<nat>)
    requires lex.Valid() && lex.mode == Incoming && lex.pos < |lex.src|
    modifies lex
    ensures lex.Valid()
    ensures var r := MemberFrom(old(lex.Rest()), ended, depth);
      if goesOn then lex.pos > old(lex.pos) && ScanItems(lex.Rest(), ended, depth, true) == r
      else if r.Some? then end == Some(lex.pos) && lex.Rest() == r.value else end == None
    decreases |lex.Rest()|, 2
  {
    hide ScanItems, ScanValue, SkipInsignificant, ScanKey, ItemsAfter;
    var key := ScanKeyAt(lex);
    if key.None? {
      return false, None;
    }
    lex.Ws();
    if lex.pos >= |lex.src| {
      return false, None;
    }
    Ahead(lex.src, lex.pos);
    if lex.src[lex.pos] != COLON {
      return false, None;
    }
    lex.pos := lex.pos + 1;
    lex.Ws();
    goesOn, end := ScanItemAt(lex, ended, depth, true);
  }

  method ScanKeyAt(lex: Lexer) returns (key: Option<Text>)
    requires lex.Valid() && lex.mode == Incoming && lex.pos < |lex.src|
    modifies lex
    ensures lex.Valid()
    ensures var k := ScanKey(old(lex.Rest()));
      if k.Some? then key == Some(k.value.0) && lex.Rest() == k.value.1 else key == None
  {
    hide ReadString, KeyRun;
    var c := lex.src[lex.pos];
    Ahead(lex.src, lex.pos);
    if c == QUOTE || c == SQUOTE {
      var s := lex.String(c);
      return if s.value.complete then Some(s.value.value) else None;
    }
    var k := lex.UnquotedKey();
    return if |k| == 0 then None else Some(k);
  }
}
