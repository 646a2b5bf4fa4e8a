/**
 `classifyJsonPrefix`: the loop refines the scanner, and the three verdicts are exact for RFC 8259.
 */
module JsonClassifier {
  import opened Units
  import opened JsonGrammar
  import opened JsonScanner
  import opened JsonReading
  import opened JsonSoundness

  // ---------- complete: the text is a JSON text ----------

  lemma JsonTextRead(pre: Text, v: Value, post: Text)
    requires AllWhitespace(pre) && ValueOk(v) && AllWhitespace(post)
    ensures Verdict(Start, pre + Print(v) + post) == Complete
  {
    Regroup(pre, Print(v), post);
    Blank(Start, pre, Print(v) + post);
    ValueRead(Start, v, post);
    Blank(After([]), post, []);
    assert post + [] == post;
  }

  lemma JsonTextTaken(t: Text) returns (pre: Text, v: Value, post: Text)
    requires Verdict(Start, t) == Complete
    ensures AllWhitespace(pre) && ValueOk(v) && AllWhitespace(post) && t == pre + Print(v) + post
  {
    var tail, rest, end;
    pre, tail := TakeBlank(Start, t);
    v, rest := TakeValue(Start, tail);
    post, end := TakeBlank(After([]), rest);
    assert end == [];
    Regroup(pre, Print(v), post);
  }

  lemma CompleteIffJsonText(t: Text)
    ensures Verdict(Start, t) == Complete <==> IsJsonText(t)
  {
    if IsJsonText(t) {
      var pre, v, post :| AllWhitespace(pre) && ValueOk(v) && AllWhitespace(post) && t == pre + Print(v) + post;
      JsonTextRead(pre, v, post);
    }
    if Verdict(Start, t) == Complete {
      var pre, v, post := JsonTextTaken(t);
    }
  }

  // ---------- invalid: no suffix helps ----------

  lemma {:induction false} Continue(s: State, t: Text, u: Text)
    ensures Verdict(s, t) == Invalid ==> Verdict(s, t + u) == Invalid
    decreases |t|
  {
    if t != [] {
      Split(t, u);
      if Step(s, t[0]).Some? {
        Continue(Step(s, t[0]).value, t[1..], u);
      }
    }
  }

  // ---------- prefix: some suffix completes ----------

  /** Closes every open container, innermost first. */
  function CloseAll(stack: seq<bool>): Text {
    if stack == [] then []
    else [if stack[|stack| - 1] then RBRACE else RBRACKET] + CloseAll(stack[..|stack| - 1])
  }

  lemma {:induction false} CloseAllCloses(stack: seq<bool>)
    ensures Verdict(After(stack), CloseAll(stack)) == Complete
    decreases |stack|
  {
    if stack != [] {
      var inner := stack[..|stack| - 1];
      One(if stack[|stack| - 1] then RBRACE else RBRACKET, CloseAll(inner));
      CloseAllCloses(inner);
    }
  }

  const ZERO: Text := [0x30]

  /** What finishes the current token and reaches the end of a value. */
  function FinishToken(m: Mode): Text {
    match m
    case Expecting(want) => (
      match want
      case ExpValue => ZERO
      case ObjKeyOrEnd | ArrValueOrEnd => []
      case ObjKey => [QUOTE] + ([QUOTE] + ([COLON] + ZERO))
      case ObjColon => [COLON] + ZERO
      case ObjCommaOrEnd | ArrCommaOrEnd | End => [])
    case InString(isKey, place) =>
      (match place
       case Body => []
       case Escaped => [LOWER_N]
       case Digits(left) => seq(left, _ => 0x30))
      + ([QUOTE] + (if isKey then [COLON] + ZERO else []))
    case InNumber(at) => if NumberDone(at) then [] else ZERO
    case InWord(left) => left
  }

  function Completion(s: State): Text {
    FinishToken(s.mode) + CloseAll(s.stack)
  }

  lemma CloseAllDelimited(stack: seq<bool>)
    ensures Delimited(CloseAll(stack))
  {
  }

  lemma ZeroThenClose(s: State)
    requires s.mode == Expecting(ExpValue) || (s.mode.InNumber? && !NumberDone(s.mode.at))
    ensures Verdict(s, ZERO + CloseAll(s.stack)) == Complete
  {
    One(0x30, CloseAll(s.stack));
    CloseAllDelimited(s.stack);
    CloseAllCloses(s.stack);
    NumberEnds(if s.mode == InNumber(AfterDot) then Frac
               else if s.mode == InNumber(AfterMarker) || s.mode == InNumber(AfterSign) then Exp else Zero,
               s.stack, CloseAll(s.stack));
  }

  lemma ColonThenClose(stack: seq<bool>)
    ensures Verdict(State(Expecting(ObjColon), stack), [COLON] + ZERO + CloseAll(stack)) == Complete
  {
    Regroup([COLON], ZERO, CloseAll(stack));
    One(COLON, ZERO + CloseAll(stack));
    ZeroThenClose(State(Expecting(ExpValue), stack));
  }

  lemma QuoteThenClose(isKey: bool, stack: seq<bool>)
    ensures Verdict(State(InString(isKey, Body), stack),
                    [QUOTE] + (if isKey then [COLON] + ZERO else []) + CloseAll(stack)) == Complete
  {
    var tail := if isKey then [COLON] + ZERO else [];
    Regroup([QUOTE], tail, CloseAll(stack));
    One(QUOTE, tail + CloseAll(stack));
    if isKey {
      ColonThenClose(stack);
    } else {
      assert tail + CloseAll(stack) == CloseAll(stack);
      CloseAllCloses(stack);
    }
  }

  lemma StringCompletes(s: State)
    requires Coherent(s) && s.mode.InString?
    ensures Verdict(s, Completion(s)) == Complete
  {
    var tail := [QUOTE] + (if s.mode.isKey then [COLON] + ZERO else []);
    QuoteThenClose(s.mode.isKey, s.stack);
    match s.mode.place
    case Body =>
      assert [] + tail == tail;
    case Escaped =>
      Regroup([LOWER_N], tail, CloseAll(s.stack));
      One(LOWER_N, tail + CloseAll(s.stack));
    case Digits(left) =>
      var zeros: Text := seq(left, _ => 0x30);
      Regroup(zeros, tail, CloseAll(s.stack));
      HexRead(s, zeros, tail + CloseAll(s.stack));
  }

  lemma KeyCompletes(s: State)
    requires s.mode == Expecting(ObjKey)
    ensures Verdict(s, Completion(s)) == Complete
  {
    var colon := [COLON] + ZERO;
    Regroup([QUOTE], [QUOTE] + colon, CloseAll(s.stack));
    One(QUOTE, [QUOTE] + colon + CloseAll(s.stack));
    QuoteThenClose(true, s.stack);
  }

  /** Every reachable scanner state can still be completed. */
  lemma CompletionCompletes(s: State)
    requires Coherent(s)
    ensures Verdict(s, Completion(s)) == Complete
  {
    var close := CloseAll(s.stack);
    match s.mode
    case Expecting(want) =>
      if want == ExpValue {
        ZeroThenClose(s);
      } else if want == ObjKey {
        KeyCompletes(s);
      } else if want == ObjColon {
        ColonThenClose(s.stack);
      } else {
        assert [] + close == close;
        CloseAllCloses(s.stack);
      }
    case InString(_, _) => StringCompletes(s);
    case InNumber(at) =>
      if NumberDone(at) {
        assert [] + close == close;
        CloseAllDelimited(s.stack);
        NumberEnds(at, s.stack, close);
        CloseAllCloses(s.stack);
      } else {
        ZeroThenClose(s);
      }
    case InWord(left) =>
      LettersRead(s.stack, left, close);
      CloseAllCloses(s.stack);
  }

  /** The suffix that completes t, found by running to the end of t. */
  lemma {:induction false} Completable(s: State, t: Text) returns (u: Text)
    requires Coherent(s) && Verdict(s, t) == Prefix
    ensures Verdict(s, t + u) == Complete
    decreases |t|
  {
    if t == [] {
      u := Completion(s);
      CompletionCompletes(s);
      assert t + u == u;
    } else {
      StepCoherent(s, t[0]);
      u := Completable(Step(s, t[0]).value, t[1..]);
      Split(t, u);
    }
  }

  /** The three verdicts are exact, for every text. */
  lemma ClassifierExact(t: Text)
    ensures Verdict(Start, t) == Complete <==> IsJsonText(t)
    ensures Verdict(Start, t) == Prefix <==> !IsJsonText(t) && exists u :: IsJsonText(t + u)
    ensures Verdict(Start, t) == Invalid <==> forall u :: !IsJsonText(t + u)
  {
    CompleteIffJsonText(t);
    assert t + [] == t;
    match Verdict(Start, t)
    case Complete =>
      assert IsJsonText(t + []);
    case Prefix =>
      var u := Completable(Start, t);
      CompleteIffJsonText(t + u);
    case Invalid =>
      forall u ensures !IsJsonText(t + u) {
        Continue(Start, t, u);
        CompleteIffJsonText(t + u);
      }
  }

  // ---------- the source's loop ----------

  /** Outcome of a token reader: finished, cut by the end of input, or malformed. */
  datatype TokenScan = TokenDone | TokenCut | TokenBad

  /** One unit of the text, as the scanner sees it. */
  lemma At(s: State, text: Text, i: nat)
    requires i < |text|
    ensures Step(s, text[i]).None? ==> Verdict(s, text[i..]) == Invalid
    ensures Step(s, text[i]).Some? ==> Verdict(s, text[i..]) == Verdict(Step(s, text[i]).value, text[i + 1..])
  {
    assert text[i..][1..] == text[i + 1..];
  }

  lemma AtEnd(s: State, text: Text)
    ensures Verdict(s, text[|text|..]) == if Accepts(s) then Complete else Prefix
  {
  }

  /** How a token ended decides the verdict at its start, given the verdict after it. */
  predicate Settles(r: TokenScan, before: JsonPrefixState, after: JsonPrefixState) {
    match r
    case TokenDone => before == after
    case TokenCut => before == Prefix
    case TokenBad => before == Invalid
  }

  /** The four digits of a `\u` escape. */
  method ScanHex(text: Text, start: nat, ghost isKey: bool, ghost stack: seq<bool>) returns (r: TokenScan, i: nat)
    requires start <= |text|
    ensures i <= |text| && (r.TokenDone? ==> start < i)
    ensures Settles(r, Verdict(State(InString(isKey, Digits(4)), stack), text[start..]),
                    Verdict(State(InString(isKey, Body), stack), text[i..]))
  {
    ghost var before := Verdict(State(InString(isKey, Digits(4)), stack), text[start..]);
    i := start;
    for k := 0 to 4
      invariant i == start + k && i <= |text|
      invariant before == Verdict(State(InString(isKey, if k == 4 then Body else Digits(4 - k)), stack), text[i..])
    {
      ghost var s := State(InString(isKey, Digits(4 - k)), stack);
      if i >= |text| {
        AtEnd(s, text);
        return TokenCut, i;
      }
      At(s, text, i);
      if !IsHexDigit(text[i]) {
        return TokenBad, i;
      }
      i := i + 1;
    }
    return TokenDone, i;
  }

  /** An escape, from the unit after its backslash. */
  method ScanEscape(text: Text, start: nat, ghost isKey: bool, ghost stack: seq<bool>) returns (r: TokenScan, i: nat)
    requires start <= |text|
    ensures i <= |text| && (r.TokenDone? ==> start < i)
    ensures Settles(r, Verdict(State(InString(isKey, Escaped), stack), text[start..]),
                    Verdict(State(InString(isKey, Body), stack), text[i..]))
  {
    i := start;
    if i >= |text| {
      AtEnd(State(InString(isKey, Escaped), stack), text);
      return TokenCut, i;
    }
    var e := text[i];
    At(State(InString(isKey, Escaped), stack), text, i);
    if !IsEscapeChar(e) {
      return TokenBad, i;
    }
    i := i + 1;
    if e == LOWER_U {
      r, i := ScanHex(text, i, isKey, stack);
      return r, i;
    }
    return TokenDone, i;
  }

  /** `scanString`, from the opening quote. */
  method ScanString(text: Text, start: nat, ghost isKey: bool, ghost stack: seq<bool>) returns (r: TokenScan, i: nat)
    requires start < |text|
    ensures i <= |text| && (r.TokenDone? ==> start < i)
    ensures Settles(r, Verdict(State(InString(isKey, Body), stack), text[start + 1..]),
                    Verdict(if isKey then State(Expecting(ObjColon), stack) else After(stack), text[i..]))
  {
    ghost var body := State(InString(isKey, Body), stack);
    ghost var before := Verdict(body, text[start + 1..]);
    i := start + 1;
    while i < |text|
      invariant start + 1 <= i <= |text|
      invariant before == Verdict(body, text[i..])
      decreases |text| - i
    {
      var c := text[i];
      At(body, text, i);
      if c == QUOTE {
        return TokenDone, i + 1;
      } else if c == BACKSLASH {
        var esc, j := ScanEscape(text, i + 1, isKey, stack);
        if !esc.TokenDone? {
          return esc, j;
        }
        i := j;
      } else if c < 0x20 {
        return TokenBad, i;
      } else {
        i := i + 1;
      }
    }
    AtEnd(body, text);
    return TokenCut, i;
  }

  /** The run of digits at `start`. */
  method SkipDigits(text: Text, start: nat, ghost at: NumberPlace, ghost stack: seq<bool>) returns (i: nat)
    requires start <= |text| && (at.Whole? || at.Frac? || at.Exp?)
    ensures start <= i <= |text| && (i < |text| ==> !IsDigit(text[i]))
    ensures Verdict(State(InNumber(at), stack), text[start..]) == Verdict(State(InNumber(at), stack), text[i..])
  {
    i := start;
    while i < |text| && IsDigit(text[i])
      invariant start <= i <= |text|
      invariant Verdict(State(InNumber(at), stack), text[start..]) == Verdict(State(InNumber(at), stack), text[i..])
    {
      At(State(InNumber(at), stack), text, i);
      i := i + 1;
    }
  }

  /** Digits of which the first is mandatory: a fraction's or an exponent's. */
  method ScanSomeDigits(text: Text, start: nat, ghost before: NumberPlace, ghost at: NumberPlace, ghost stack: seq<bool>)
    returns (r: TokenScan, i: nat)
    requires start <= |text|
    requires (before.AfterDot? && at.Frac?) || ((before.AfterSign? || before.AfterMarker?) && at.Exp?)
    requires before.AfterMarker? && start < |text| ==> text[start] != PLUS && text[start] != MINUS
    ensures i <= |text| && (r.TokenDone? && i < |text| ==> !IsDigit(text[i]))
    ensures r.TokenDone? ==> start < i
    ensures Settles(r, Verdict(State(InNumber(before), stack), text[start..]), Verdict(State(InNumber(at), stack), text[i..]))
  {
    if start >= |text| {
      AtEnd(State(InNumber(before), stack), text);
      return TokenCut, start;
    }
    At(State(InNumber(before), stack), text, start);
    if !IsDigit(text[start]) {
      return TokenBad, start;
    }
    i := SkipDigits(text, start + 1, at, stack);
    return TokenDone, i;
  }

  /** `scanNumber`, from `-` or a digit. */
  method ScanNumber(text: Text, start: nat, ghost s: State) returns (r: TokenScan, i: nat)
    requires start < |text| && (text[start] == MINUS || IsDigit(text[start])) && AtValue(s)
    ensures i <= |text| && (r.TokenDone? ==> start < i)
    ensures Settles(r, Verdict(s, text[start..]), Verdict(After(s.stack), text[i..]))
  {
    ghost var before := Verdict(s, text[start..]);
    ghost var at := s;
    i := start;
    if text[i] == MINUS {
      At(s, text, i);
      at := State(InNumber(AfterMinus), s.stack);
      i := i + 1;
    }
    if i >= |text| {
      AtEnd(at, text);
      return TokenCut, i;
    }
    assert before == Verdict(at, text[i..]);
    At(at, text, i);
    ghost var place := Zero;
    if text[i] == 0x30 {
      i := i + 1;
    } else if IsDigit(text[i]) {
      place := Whole;
      i := SkipDigits(text, i + 1, Whole, s.stack);
    } else {
      return TokenBad, i;
    }
    r, i := ScanFraction(text, i, place, s.stack);
  }

  /** `scanNumber` after the integer digits. */
  method ScanFraction(text: Text, start: nat, ghost place: NumberPlace, ghost stack: seq<bool>) returns (r: TokenScan, i: nat)
    requires start <= |text| && (place.Zero? || place.Whole?)
    requires place.Whole? && start < |text| ==> !IsDigit(text[start])
    ensures i <= |text| && (r.TokenDone? ==> start <= i)
    ensures Settles(r, Verdict(State(InNumber(place), stack), text[start..]), Verdict(After(stack), text[i..]))
  {
    if start < |text| && text[start] == DOT {
      At(State(InNumber(place), stack), text, start);
      r, i := ScanSomeDigits(text, start + 1, AfterDot, Frac, stack);
      if r.TokenDone? {
        r, i := ScanExponent(text, i, Frac, stack);
      }
    } else {
      r, i := ScanExponent(text, start, place, stack);
    }
  }

  /** `scanNumber` after the fraction. */
  method ScanExponent(text: Text, start: nat, ghost place: NumberPlace, ghost stack: seq<bool>) returns (r: TokenScan, i: nat)
    requires start <= |text| && (place.Zero? || place.Whole? || place.Frac?)
    requires start < |text| ==> (place.Zero? || !IsDigit(text[start])) && (place.Frac? || text[start] != DOT)
    ensures i <= |text| && (r.TokenDone? ==> start <= i)
    ensures Settles(r, Verdict(State(InNumber(place), stack), text[start..]), Verdict(After(stack), text[i..]))
  {
    if start < |text| && IsMarker(text[start]) {
      At(State(InNumber(place), stack), text, start);
      i := start + 1;
      ghost var before := AfterMarker;
      if i < |text| && (text[i] == PLUS || text[i] == MINUS) {
        At(State(InNumber(AfterMarker), stack), text, i);
        before := AfterSign;
        i := i + 1;
      }
      r, i := ScanSomeDigits(text, i, before, Exp, stack);
      if r.TokenDone? {
        NumberClosed(Exp, stack, text[i..]);
      }
    } else {
      NumberClosed(place, stack, text[start..]);
      return TokenDone, start;
    }
  }

  /** A number that cannot go on leaves the verdict of its value being done. */
  lemma NumberClosed(at: NumberPlace, stack: seq<bool>, t: Text)
    requires NumberDone(at) && (t != [] ==> NumberStep(at, t[0]).None?)
    ensures Verdict(State(InNumber(at), stack), t) == Verdict(After(stack), t)
  {
  }

  /** `scanKeyword`: the first of the three words that starts with the unit at `start`. */
  method ScanKeyword(text: Text, start: nat, ghost s: State) returns (r: TokenScan, i: nat)
    requires start < |text| && AtValue(s)
    requires text[start] == LOWER_T || text[start] == LOWER_F || text[start] == LOWER_N
    ensures i <= |text| && (r.TokenDone? ==> start < i)
    ensures Settles(r, Verdict(s, text[start..]), Verdict(After(s.stack), text[i..]))
  {
    var word := if text[start] == LOWER_T then TRUE_WORD else if text[start] == LOWER_F then FALSE_WORD else NULL_WORD;
    var available := if |word| <= |text| - start then |word| else |text| - start;
    At(s, text, start);
    hide Verdict;
    assert text[start..][1..] == text[start + 1..] && text[start..][..available] == text[start..start + available];
    assert text[start..][available..] == text[start + available..];
    WordMatch(s.stack, word, text[start..], 1);
    if text[start..start + available] != word[..available] {
      return TokenBad, start;
    }
    i := start + available;
    return if available == |word| then TokenDone else TokenCut, i;
  }

  /** Comparing the letters at once is reading them one by one. */
  lemma {:induction false} WordMatch(stack: seq<bool>, word: Text, t: Text, k: nat)
    requires 1 <= k < |word|
    requires |t| >= k && t[..k] == word[..k]
    ensures var n := if |word| <= |t| then |word| else |t|;
      Verdict(State(InWord(word[k..]), stack), t[k..]) ==
        if t[..n] != word[..n] then Invalid
        else if n == |word| then Verdict(After(stack), t[n..]) else Prefix
    decreases |word| - k
  {
    var n := if |word| <= |t| then |word| else |t|;
    if |t| == k {
    } else if t[k] != word[k] {
      assert t[..n][k] != word[..n][k];
    } else if k + 1 < |word| {
      assert t[..k + 1] == t[..k] + [t[k]];
      assert word[..k + 1] == word[..k] + [word[k]];
      WordMatch(stack, word, t, k + 1);
      assert t[k..][1..] == t[k + 1..];
      assert word[k..][1..] == word[k + 1..];
    } else {
      assert n == k + 1;
      assert t[..n] == t[..k] + [t[k]];
      assert word[..n] == word[..k] + [word[k]];
      assert t[k..][1..] == t[n..];
    }
  }

  /**
   The classifier. Its loop keeps the verdict of the whole text equal to the scanner's verdict on
   the rest of it, so its answer is the scanner's.
   */
  method ClassifyJsonPrefix(text: Text) returns (r: JsonPrefixState)
    ensures r == Complete <==> IsJsonText(text)
    ensures r == Prefix <==> !IsJsonText(text) && exists u :: IsJsonText(text + u)
    ensures r == Invalid <==> forall u :: !IsJsonText(text + u)
  {
    r := ScanText(text);
    ClassifierExact(text);
  }

  method ScanText(text: Text) returns (r: JsonPrefixState)
    ensures r == Verdict(Start, text)
  {
    var i := 0;
    var stack: seq<bool> := [];
    var want := ExpValue;
    assert text[0..] == text;
    while i < |text|
      invariant 0 <= i <= |text|
      invariant Coherent(State(Expecting(want), stack))
      invariant Verdict(Start, text) == Verdict(State(Expecting(want), stack), text[i..])
      decreases |text| - i
    {
      var c := text[i];
      ghost var s := State(Expecting(want), stack);
      At(s, text, i);
      if IsWhitespace(c) {
        i := i + 1;
        continue;
      }
      if want == ExpValue || want == ArrValueOrEnd {
        if c == RBRACKET && want == ArrValueOrEnd {
          stack := stack[..|stack| - 1];
          i := i + 1;
          want := ValueDone(stack);
        } else if c == LBRACE {
          stack := stack + [true];
          i := i + 1;
          want := ObjKeyOrEnd;
        } else if c == LBRACKET {
          stack := stack + [false];
          i := i + 1;
          want := ArrValueOrEnd;
        } else {
          var token, j;
          if c == QUOTE {
            token, j := ScanString(text, i, false, stack);
          } else if c == MINUS || IsDigit(c) {
            token, j := ScanNumber(text, i, s);
          } else if c == LOWER_T || c == LOWER_F || c == LOWER_N {
            token, j := ScanKeyword(text, i, s);
          } else {
            return Invalid;
          }
          if token.TokenBad? {
            return Invalid;
          }
          if token.TokenCut? {
            return Prefix;
          }
          i := j;
          want := ValueDone(stack);
        }
      } else if want == ObjKeyOrEnd || want == ObjKey {
        if c == RBRACE && want == ObjKeyOrEnd {
          stack := stack[..|stack| - 1];
          i := i + 1;
          want := ValueDone(stack);
        } else if c != QUOTE {
          return Invalid;
        } else {
          var token, j := ScanString(text, i, true, stack);
          if token.TokenBad? {
            return Invalid;
          }
          if token.TokenCut? {
            return Prefix;
          }
          i := j;
          want := ObjColon;
        }
      } else if want == ObjColon {
        if c != COLON {
          return Invalid;
        }
        i := i + 1;
        want := ExpValue;
      } else if want == ObjCommaOrEnd {
        if c == RBRACE {
          stack := stack[..|stack| - 1];
          i := i + 1;
          want := ValueDone(stack);
        } else if c != COMMA {
          return Invalid;
        } else {
          i := i + 1;
          want := ObjKey;
        }
      } else if want == ArrCommaOrEnd {
        if c == RBRACKET {
          stack := stack[..|stack| - 1];
          i := i + 1;
          want := ValueDone(stack);
        } else if c != COMMA {
          return Invalid;
        } else {
          i := i + 1;
          want := ExpValue;
        }
      } else {
        return Invalid;
      }
    }
    AtEnd(State(Expecting(want), stack), text);
    return if want == End then Complete else Prefix;
  }
}
