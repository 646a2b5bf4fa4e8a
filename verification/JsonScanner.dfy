/**
 The strict-JSON prefix scanner read one code unit at a time: a pushdown machine whose states are the
 scanner's expectations plus the places inside a token. `Verdict` is the specification that the
 classifier's loop refines, and the machine is related to the grammar in JsonClassifier.
 */
module JsonScanner {
  import opened Units
  import G = JsonGrammar

  datatype JsonPrefixState = Complete | Prefix | Invalid

  /** What the scanner expects at the current position. */
  datatype JsonExpect =
    | ExpValue | ObjKeyOrEnd | ObjKey | ObjColon | ObjCommaOrEnd | ArrValueOrEnd | ArrCommaOrEnd | End

  datatype StringPlace = Body | Escaped | Digits(left: nat)

  datatype NumberPlace = AfterMinus | Zero | Whole | AfterDot | Frac | AfterMarker | AfterSign | Exp

  datatype Mode =
    | Expecting(want: JsonExpect)
    | InString(isKey: bool, place: StringPlace)
    | InNumber(at: NumberPlace)
    | InWord(left: Text)

  /** `stack`: true for an open object, false for an open array, innermost last. */
  datatype State = State(mode: Mode, stack: seq<bool>)

  const Start := State(Expecting(ExpValue), [])

  /** What follows a finished value inside the given containers. */
  function ValueDone(stack: seq<bool>): JsonExpect {
    if stack == [] then End else if stack[|stack| - 1] then ObjCommaOrEnd else ArrCommaOrEnd
  }

  function After(stack: seq<bool>): State {
    State(Expecting(ValueDone(stack)), stack)
  }

  function Popped(stack: seq<bool>): State
    requires stack != []
  {
    After(stack[..|stack| - 1])
  }

  predicate NumberDone(at: NumberPlace) {
    at.Zero? || at.Whole? || at.Frac? || at.Exp?
  }

  function NumberStep(at: NumberPlace, c: Unit): G.Option<NumberPlace> {
    match at
    case AfterMinus => if c == 0x30 then G.Some(Zero) else if IsDigit(c) then G.Some(Whole) else G.None
    case Zero => if c == DOT then G.Some(AfterDot) else if IsMarker(c) then G.Some(AfterMarker) else G.None
    case Whole =>
      if IsDigit(c) then G.Some(Whole) else if c == DOT then G.Some(AfterDot)
      else if IsMarker(c) then G.Some(AfterMarker) else G.None
    case AfterDot => if IsDigit(c) then G.Some(Frac) else G.None
    case Frac => if IsDigit(c) then G.Some(Frac) else if IsMarker(c) then G.Some(AfterMarker) else G.None
    case AfterMarker => if IsDigit(c) then G.Some(Exp) else if c == PLUS || c == MINUS then G.Some(AfterSign) else G.None
    case AfterSign => if IsDigit(c) then G.Some(Exp) else G.None
    case Exp => if IsDigit(c) then G.Some(Exp) else G.None
  }

  predicate IsMarker(c: Unit) {
    c == LOWER_E || c == UPPER_E
  }

  function StringStep(isKey: bool, place: StringPlace, stack: seq<bool>, c: Unit): G.Option<State> {
    match place
    case Body =>
      if c == QUOTE then G.Some(if isKey then State(Expecting(ObjColon), stack) else After(stack))
      else if c == BACKSLASH then G.Some(State(InString(isKey, Escaped), stack))
      else if c < 0x20 then G.None
      else G.Some(State(InString(isKey, Body), stack))
    case Escaped =>
      if !IsEscapeChar(c) then G.None
      else G.Some(State(InString(isKey, if c == LOWER_U then Digits(4) else Body), stack))
    case Digits(left) =>
      if !IsHexDigit(c) then G.None
      else G.Some(State(InString(isKey, if left <= 1 then Body else Digits(left - 1)), stack))
  }

  /** Start of a value, or the end of an empty array. */
  function ValueStep(stack: seq<bool>, c: Unit): G.Option<State> {
    if c == LBRACE then G.Some(State(Expecting(ObjKeyOrEnd), stack + [true]))
    else if c == LBRACKET then G.Some(State(Expecting(ArrValueOrEnd), stack + [false]))
    else if c == QUOTE then G.Some(State(InString(false, Body), stack))
    else if c == MINUS then G.Some(State(InNumber(AfterMinus), stack))
    else if c == 0x30 then G.Some(State(InNumber(Zero), stack))
    else if IsDigit(c) then G.Some(State(InNumber(Whole), stack))
    else if c == LOWER_T then G.Some(State(InWord(TRUE_WORD[1..]), stack))
    else if c == LOWER_F then G.Some(State(InWord(FALSE_WORD[1..]), stack))
    else if c == LOWER_N then G.Some(State(InWord(NULL_WORD[1..]), stack))
    else G.None
  }

  function ExpectStep(want: JsonExpect, stack: seq<bool>, c: Unit): G.Option<State> {
    if IsWhitespace(c) then G.Some(State(Expecting(want), stack))
    else match want
      case ExpValue => ValueStep(stack, c)
      case ArrValueOrEnd =>
        if c == RBRACKET && stack != [] then G.Some(Popped(stack)) else ValueStep(stack, c)
      case ObjKeyOrEnd =>
        if c == RBRACE && stack != [] then G.Some(Popped(stack))
        else if c == QUOTE then G.Some(State(InString(true, Body), stack)) else G.None
      case ObjKey => if c == QUOTE then G.Some(State(InString(true, Body), stack)) else G.None
      case ObjColon => if c == COLON then G.Some(State(Expecting(ExpValue), stack)) else G.None
      case ObjCommaOrEnd =>
        if c == RBRACE && stack != [] then G.Some(Popped(stack))
        else if c == COMMA then G.Some(State(Expecting(ObjKey), stack)) else G.None
      case ArrCommaOrEnd =>
        if c == RBRACKET && stack != [] then G.Some(Popped(stack))
        else if c == COMMA then G.Some(State(Expecting(ExpValue), stack)) else G.None
      case End => G.None
  }

  function Step(s: State, c: Unit): G.Option<State> {
    match s.mode
    case Expecting(want) => ExpectStep(want, s.stack, c)
    case InString(isKey, place) => StringStep(isKey, place, s.stack, c)
    case InNumber(at) =>
      var next := NumberStep(at, c);
      if next.Some? then G.Some(State(InNumber(next.value), s.stack))
      else if NumberDone(at) then ExpectStep(ValueDone(s.stack), s.stack, c)
      else G.None
    case InWord(left) =>
      if left == [] || left[0] != c then G.None
      else if |left| == 1 then G.Some(After(s.stack))
      else G.Some(State(InWord(left[1..]), s.stack))
  }

  /** Whether the text may end here: one whole value has been read. */
  predicate Accepts(s: State) {
    s.stack == [] && (s.mode == Expecting(End) || (s.mode.InNumber? && NumberDone(s.mode.at)))
  }

  /** The classification of t when scanning continues from s. */
  function Verdict(s: State, t: Text): JsonPrefixState
    decreases |t|
  {
    if t == [] then if Accepts(s) then Complete else Prefix
    else
      var next := Step(s, t[0]);
      if next.None? then Invalid else Verdict(next.value, t[1..])
  }

  // ---------- reachable states ----------

  predicate TopIs(stack: seq<bool>, isObject: bool) {
    stack != [] && stack[|stack| - 1] == isObject
  }

  /** The expectation agrees with the innermost container. Holds of every state reached from Start. */
  predicate Coherent(s: State) {
    match s.mode
    case Expecting(want) => (
      match want
      case ExpValue => true
      case ObjKeyOrEnd | ObjKey | ObjColon | ObjCommaOrEnd => TopIs(s.stack, true)
      case ArrValueOrEnd | ArrCommaOrEnd => TopIs(s.stack, false)
      case End => s.stack == [])
    case InString(isKey, place) => (isKey ==> TopIs(s.stack, true)) && (place.Digits? ==> 1 <= place.left <= 4)
    case InNumber(at) => true
    case InWord(left) => left != []
  }

  lemma StepCoherent(s: State, c: Unit)
    requires Coherent(s) && Step(s, c).Some?
    ensures Coherent(Step(s, c).value)
  {
  }
}
