/**
 A printed syntax tree is read by the scanner as exactly one value.
 */
module JsonReading {
  import opened Units
  import opened JsonGrammar
  import opened JsonScanner

  // ---------- running the machine over pieces of text ----------

  lemma Split(a: Text, b: Text)
    requires a != []
    ensures (a + b)[0] == a[0] && (a + b)[1..] == a[1..] + b
  {
  }

  lemma One(c: Unit, b: Text)
    ensures ([c] + b)[0] == c && ([c] + b)[1..] == b
  {
  }

  /** One unit read. */
  lemma Move(s: State, c: Unit, rest: Text)
    ensures Step(s, c).None? ==> Verdict(s, [c] + rest) == Invalid
    ensures Step(s, c).Some? ==> Verdict(s, [c] + rest) == Verdict(Step(s, c).value, rest)
  {
    One(c, rest);
  }

  lemma {:induction false} Blank(s: State, ws: Text, rest: Text)
    requires s.mode.Expecting? && AllWhitespace(ws)
    ensures Verdict(s, ws + rest) == Verdict(s, rest)
  {
    if ws == [] {
      assert ws + rest == rest;
    } else {
      Split(ws, rest);
      Blank(s, ws[1..], rest);
    }
  }

  // ---------- a printed value is read as one value ----------

  lemma {:induction false} StringBodyRead(s: State, chars: seq<StrChar>, rest: Text)
    requires s.mode.InString? && s.mode.place == Body && StrOk(chars)
    ensures Verdict(s, PrintChars(chars) + rest) == Verdict(s, rest)
  {
    if chars == [] {
      assert PrintChars(chars) + rest == rest;
    } else {
      var tail := PrintChars(chars[1..]) + rest;
      assert PrintChars(chars) + rest == PrintChar(chars[0]) + tail;
      assert StrCharOk(chars[0]);
      StringCharRead(s, chars[0], tail);
      StringBodyRead(s, chars[1..], rest);
    }
  }

  lemma StringCharRead(s: State, c: StrChar, rest: Text)
    requires s.mode.InString? && s.mode.place == Body && StrCharOk(c)
    ensures Verdict(s, PrintChar(c) + rest) == Verdict(s, rest)
  {
    match c
    case Raw(u) => One(u, rest);
    case Short(e) =>
      assert [BACKSLASH, e] + rest == [BACKSLASH] + ([e] + rest);
      One(BACKSLASH, [e] + rest);
      One(e, rest);
    case Hex(h0, h1, h2, h3) =>
      assert PrintChar(c) + rest == [BACKSLASH] + ([LOWER_U] + ([h0, h1, h2, h3] + rest));
      One(BACKSLASH, [LOWER_U] + ([h0, h1, h2, h3] + rest));
      One(LOWER_U, [h0, h1, h2, h3] + rest);
      HexRead(State(InString(s.mode.isKey, Digits(4)), s.stack), [h0, h1, h2, h3], rest);
  }

  lemma {:induction false} HexRead(s: State, digits: Text, rest: Text)
    requires s.mode.InString? && s.mode.place == Digits(|digits|) && digits != []
    requires forall k :: 0 <= k < |digits| ==> IsHexDigit(digits[k])
    ensures Verdict(s, digits + rest) == Verdict(State(InString(s.mode.isKey, Body), s.stack), rest)
    decreases |digits|
  {
    Split(digits, rest);
    if |digits| == 1 {
      assert digits[1..] + rest == rest;
    } else {
      HexRead(State(InString(s.mode.isKey, Digits(|digits| - 1)), s.stack), digits[1..], rest);
    }
  }

  lemma StringRead(isKey: bool, stack: seq<bool>, chars: seq<StrChar>, rest: Text)
    requires StrOk(chars)
    ensures Verdict(State(InString(isKey, Body), stack), PrintChars(chars) + [QUOTE] + rest)
         == Verdict(if isKey then State(Expecting(ObjColon), stack) else After(stack), rest)
  {
    assert PrintChars(chars) + [QUOTE] + rest == PrintChars(chars) + ([QUOTE] + rest);
    StringBodyRead(State(InString(isKey, Body), stack), chars, [QUOTE] + rest);
    One(QUOTE, rest);
  }

  /** No number can go on into `rest`. */
  predicate Delimited(rest: Text) {
    rest == [] || IsWhitespace(rest[0]) || rest[0] == COMMA || rest[0] == RBRACKET || rest[0] == RBRACE
  }

  lemma {:induction false} DigitsRead(at: NumberPlace, stack: seq<bool>, digits: Text, rest: Text)
    requires at.Whole? || at.Frac? || at.Exp?
    requires AllDigits(digits)
    ensures Verdict(State(InNumber(at), stack), digits + rest) == Verdict(State(InNumber(at), stack), rest)
  {
    if digits == [] {
      assert digits + rest == rest;
    } else {
      Split(digits, rest);
      DigitsRead(at, stack, digits[1..], rest);
    }
  }

  lemma NumberEnds(at: NumberPlace, stack: seq<bool>, rest: Text)
    requires NumberDone(at) && Delimited(rest)
    ensures Verdict(State(InNumber(at), stack), rest) == Verdict(After(stack), rest)
  {
  }

  lemma ExpDigitsRead(at: NumberPlace, stack: seq<bool>, digits: Text, rest: Text)
    requires at.AfterMarker? || at.AfterSign?
    requires digits != [] && AllDigits(digits) && Delimited(rest)
    ensures Verdict(State(InNumber(at), stack), digits + rest) == Verdict(After(stack), rest)
  {
    Split(digits, rest);
    DigitsRead(Exp, stack, digits[1..], rest);
    NumberEnds(Exp, stack, rest);
  }

  lemma Assoc(a: Text, b: Text, c: Text, d: Text)
    ensures a + b + c + d == a + (b + (c + d))
  {
  }

  lemma ExpRead(at: NumberPlace, stack: seq<bool>, e: Option<Exponent>, rest: Text)
    requires at.Zero? || at.Whole? || at.Frac?
    requires e.Some? ==> ExponentOk(e.value)
    requires Delimited(rest)
    ensures Verdict(State(InNumber(at), stack), PrintExp(e) + rest) == Verdict(After(stack), rest)
  {
    if e.None? {
      assert PrintExp(e) + rest == rest;
      NumberEnds(at, stack, rest);
    } else {
      var x := e.value;
      Assoc([x.marker], x.sign, x.digits, rest);
      One(x.marker, x.sign + (x.digits + rest));
      ExpDigitsRead(AfterMarker, stack, x.digits, rest);
      if x.sign == [] {
        assert x.sign + (x.digits + rest) == x.digits + rest;
      } else {
        One(x.sign[0], x.digits + rest);
        ExpDigitsRead(AfterSign, stack, x.digits, rest);
      }
    }
  }

  lemma FracRead(at: NumberPlace, stack: seq<bool>, f: Option<Text>, e: Option<Exponent>, rest: Text)
    requires at.Zero? || at.Whole?
    requires f.Some? ==> f.value != [] && AllDigits(f.value)
    requires e.Some? ==> ExponentOk(e.value)
    requires Delimited(rest)
    ensures Verdict(State(InNumber(at), stack), PrintFrac(f) + (PrintExp(e) + rest)) == Verdict(After(stack), rest)
  {
    var tail := PrintExp(e) + rest;
    if f.None? {
      assert PrintFrac(f) + tail == tail;
      ExpRead(at, stack, e, rest);
    } else {
      var more := f.value[1..] + tail;
      assert PrintFrac(f) + tail == [DOT] + ([f.value[0]] + more);
      One(DOT, [f.value[0]] + more);
      One(f.value[0], more);
      DigitsRead(Frac, stack, f.value[1..], tail);
      ExpRead(Frac, stack, e, rest);
    }
  }

  lemma WholeRead(s: State, n: Number, rest: Text)
    requires NumberOk(n) && Delimited(rest)
    requires s.mode == InNumber(AfterMinus) || s.mode == Expecting(ExpValue) || s.mode == Expecting(ArrValueOrEnd)
    ensures Verdict(s, n.whole + (PrintFrac(n.frac) + (PrintExp(n.exp) + rest))) == Verdict(After(s.stack), rest)
  {
    var tail := PrintFrac(n.frac) + (PrintExp(n.exp) + rest);
    Split(n.whole, tail);
    assert IsDigit(n.whole[0]);
    if n.whole == [0x30] {
      assert n.whole[1..] + tail == tail;
      FracRead(Zero, s.stack, n.frac, n.exp, rest);
    } else {
      DigitsRead(Whole, s.stack, n.whole[1..], tail);
      FracRead(Whole, s.stack, n.frac, n.exp, rest);
    }
  }

  predicate AtValue(s: State) {
    s.mode == Expecting(ExpValue) || s.mode == Expecting(ArrValueOrEnd)
  }

  lemma NumberText(n: Number, rest: Text)
    ensures PrintNumber(n) + rest
         == (if n.minus then [MINUS] else []) + (n.whole + (PrintFrac(n.frac) + (PrintExp(n.exp) + rest)))
  {
  }

  lemma NumberRead(s: State, n: Number, rest: Text)
    requires AtValue(s) && NumberOk(n) && Delimited(rest)
    ensures Verdict(s, PrintNumber(n) + rest) == Verdict(After(s.stack), rest)
  {
    var body := n.whole + (PrintFrac(n.frac) + (PrintExp(n.exp) + rest));
    NumberText(n, rest);
    if n.minus {
      One(MINUS, body);
      WholeRead(State(InNumber(AfterMinus), s.stack), n, rest);
    } else {
      assert [] + body == body;
      WholeRead(s, n, rest);
    }
  }

  lemma {:induction false} LettersRead(stack: seq<bool>, left: Text, rest: Text)
    requires left != []
    ensures Verdict(State(InWord(left), stack), left + rest) == Verdict(After(stack), rest)
  {
    Split(left, rest);
    if |left| == 1 {
      assert left[1..] + rest == rest;
    } else {
      LettersRead(stack, left[1..], rest);
    }
  }

  lemma WordRead(s: State, w: Word, rest: Text)
    requires AtValue(s)
    ensures Verdict(s, PrintWord(w) + rest) == Verdict(After(s.stack), rest)
  {
    Split(PrintWord(w), rest);
    LettersRead(s.stack, PrintWord(w)[1..], rest);
  }

  lemma EmptyRead(s: State, isObject: bool, blank: Text, rest: Text)
    requires AtValue(s) && AllWhitespace(blank)
    ensures Verdict(s, [if isObject then LBRACE else LBRACKET] + blank + [if isObject then RBRACE else RBRACKET] + rest)
         == Verdict(After(s.stack), rest)
  {
    var open := if isObject then LBRACE else LBRACKET;
    var close := if isObject then RBRACE else RBRACKET;
    var inner := State(Expecting(if isObject then ObjKeyOrEnd else ArrValueOrEnd), s.stack + [isObject]);
    Assoc([open], blank, [close], rest);
    One(open, blank + ([close] + rest));
    Blank(inner, blank, [close] + rest);
    One(close, rest);
    assert inner.stack[..|inner.stack| - 1] == s.stack;
  }

  lemma {:induction false} ValueRead(s: State, v: Value, rest: Text)
    requires AtValue(s) && ValueOk(v) && Delimited(rest)
    ensures Verdict(s, Print(v) + rest) == Verdict(After(s.stack), rest)
    decreases v, 1
  {
    hide Verdict;
    match v
    case Str(chars) =>
      QuotedRead(s, chars, rest);
    case Num(num) => NumberRead(s, num, rest);
    case Lit(word) => WordRead(s, word, rest);
    case EmptyArray(blank) =>
      EmptyRead(s, false, blank, rest);
    case Array(elements) =>
      OpenRead(s, false, PrintElements(elements), rest);
      ElementsRead(State(Expecting(ArrValueOrEnd), s.stack + [false]), s.stack, elements, rest);
    case EmptyObject(blank) =>
      EmptyRead(s, true, blank, rest);
    case Object(members) =>
      OpenRead(s, true, PrintMembers(members), rest);
      MembersRead(State(Expecting(ObjKeyOrEnd), s.stack + [true]), s.stack, members, rest);
  }

  lemma QuotedRead(s: State, chars: seq<StrChar>, rest: Text)
    requires AtValue(s) && StrOk(chars)
    ensures Verdict(s, PrintString(chars) + rest) == Verdict(After(s.stack), rest)
  {
    Assoc([QUOTE], PrintChars(chars), [QUOTE], rest);
    Regroup(PrintChars(chars), [QUOTE], rest);
    One(QUOTE, PrintChars(chars) + [QUOTE] + rest);
    StringRead(false, s.stack, chars, rest);
  }

  lemma OpenRead(s: State, isObject: bool, body: Text, rest: Text)
    requires AtValue(s)
    ensures Verdict(s, [if isObject then LBRACE else LBRACKET] + body + rest)
         == Verdict(State(Expecting(if isObject then ObjKeyOrEnd else ArrValueOrEnd), s.stack + [isObject]), body + rest)
  {
    hide Verdict, Step;
    var open := if isObject then LBRACE else LBRACKET;
    OpenStep(s, isObject);
    Regroup([open], body, rest);
    Move(s, open, body + rest);
  }

  lemma OpenStep(s: State, isObject: bool)
    requires AtValue(s)
    ensures Step(s, if isObject then LBRACE else LBRACKET)
         == Some(State(Expecting(if isObject then ObjKeyOrEnd else ArrValueOrEnd), s.stack + [isObject]))
  {
  }

  /** After an element or member: the comma, or the closing delimiter. */
  lemma SeparatorRead(outer: seq<bool>, isObject: bool, rest: Text)
    ensures Verdict(After(outer + [isObject]), [COMMA] + rest)
         == Verdict(State(Expecting(if isObject then ObjKey else ExpValue), outer + [isObject]), rest)
    ensures Verdict(After(outer + [isObject]), [if isObject then RBRACE else RBRACKET] + rest) == Verdict(After(outer), rest)
  {
    One(COMMA, rest);
    One(if isObject then RBRACE else RBRACKET, rest);
    assert (outer + [isObject])[..|outer|] == outer;
  }

  lemma ElementText(es: Elements, rest: Text)
    ensures PrintElements(es) + rest == es.pre + (Print(es.value) + (es.post + ElementTail(es, rest)))
  {
    hide Print;
  }

  function ElementTail(es: Elements, rest: Text): Text {
    if es.MoreElements? then [COMMA] + (PrintElements(es.rest) + rest) else [RBRACKET] + rest
  }

  function MemberTail(ms: Members, rest: Text): Text {
    if ms.MoreMembers? then [COMMA] + (PrintMembers(ms.rest) + rest) else [RBRACE] + rest
  }

  lemma {:induction false} ElementsRead(s: State, outer: seq<bool>, es: Elements, rest: Text)
    requires AtValue(s) && s.stack == outer + [false] && ElementsOk(es)
    ensures Verdict(s, PrintElements(es) + rest) == Verdict(After(outer), rest)
    decreases es, 0
  {
    var close := ElementTail(es, rest);
    ElementText(es, rest);
    Blank(s, es.pre, Print(es.value) + (es.post + close));
    ValueRead(s, es.value, es.post + close);
    Blank(After(s.stack), es.post, close);
    if es.MoreElements? {
      SeparatorRead(outer, false, PrintElements(es.rest) + rest);
      ElementsRead(State(Expecting(ExpValue), s.stack), outer, es.rest, rest);
    } else {
      SeparatorRead(outer, false, rest);
    }
  }

  lemma {:induction false} MembersRead(s: State, outer: seq<bool>, ms: Members, rest: Text)
    requires s.mode == Expecting(ObjKeyOrEnd) || s.mode == Expecting(ObjKey)
    requires s.stack == outer + [true] && MembersOk(ms)
    ensures Verdict(s, PrintMembers(ms) + rest) == Verdict(After(outer), rest)
    decreases ms, 0
  {
    var close := MemberTail(ms, rest);
    var value := ms.afterColon + (Print(ms.value) + (ms.post + close));
    var colon := ms.beforeColon + ([COLON] + value);
    MemberText(ms, rest);
    Blank(s, ms.pre, [QUOTE] + (PrintChars(ms.key) + [QUOTE] + colon));
    KeyRead(s, ms.key, colon);
    ColonRead(s.stack, ms.beforeColon, ms.afterColon, Print(ms.value) + (ms.post + close));
    ValueRead(State(Expecting(ExpValue), s.stack), ms.value, ms.post + close);
    Blank(After(s.stack), ms.post, close);
    if ms.MoreMembers? {
      SeparatorRead(outer, true, PrintMembers(ms.rest) + rest);
      MembersRead(State(Expecting(ObjKey), s.stack), outer, ms.rest, rest);
    } else {
      SeparatorRead(outer, true, rest);
    }
  }

  lemma KeyRead(s: State, key: seq<StrChar>, rest: Text)
    requires s.mode == Expecting(ObjKeyOrEnd) || s.mode == Expecting(ObjKey)
    requires StrOk(key)
    ensures Verdict(s, [QUOTE] + (PrintChars(key) + [QUOTE] + rest)) == Verdict(State(Expecting(ObjColon), s.stack), rest)
  {
    One(QUOTE, PrintChars(key) + [QUOTE] + rest);
    StringRead(true, s.stack, key, rest);
  }

  lemma ColonRead(stack: seq<bool>, before: Text, after: Text, rest: Text)
    requires AllWhitespace(before) && AllWhitespace(after)
    ensures Verdict(State(Expecting(ObjColon), stack), before + ([COLON] + (after + rest)))
         == Verdict(State(Expecting(ExpValue), stack), rest)
  {
    Blank(State(Expecting(ObjColon), stack), before, [COLON] + (after + rest));
    One(COLON, after + rest);
    Blank(State(Expecting(ExpValue), stack), after, rest);
  }

  /** The pieces of a printed member list, associated to the right. */
  lemma MemberText(ms: Members, rest: Text)
    ensures PrintMembers(ms) + rest ==
      ms.pre + ([QUOTE] + (PrintChars(ms.key) + [QUOTE] + (ms.beforeColon + ([COLON] +
      (ms.afterColon + (Print(ms.value) + (ms.post + MemberTail(ms, rest))))))))
  {
    var close := if ms.MoreMembers? then [COMMA] + PrintMembers(ms.rest) else [RBRACE];
    RightNested(ms.pre, PrintString(ms.key), ms.beforeColon, [COLON], ms.afterColon, Print(ms.value), ms.post, close, rest);
    Assoc([QUOTE], PrintChars(ms.key), [QUOTE],
          ms.beforeColon + ([COLON] + (ms.afterColon + (Print(ms.value) + (ms.post + (close + rest))))));
    Regroup(PrintChars(ms.key), [QUOTE],
            ms.beforeColon + ([COLON] + (ms.afterColon + (Print(ms.value) + (ms.post + (close + rest))))));
    if ms.MoreMembers? {
      Regroup([COMMA], PrintMembers(ms.rest), rest);
    }
  }

  lemma Regroup(a: Text, b: Text, c: Text)
    ensures (a + b) + c == a + (b + c)
  {
  }

  lemma RightNested(a: Text, b: Text, c: Text, d: Text, e: Text, f: Text, g: Text, h: Text, i: Text)
    ensures a + b + c + d + e + f + g + h + i == a + (b + (c + (d + (e + (f + (g + (h + i)))))))
  {
    Regroup(a + b + c + d + e + f + g, h, i);
    Regroup(a + b + c + d + e + f, g, h + i);
    Regroup(a + b + c + d + e, f, g + (h + i));
    Regroup(a + b + c + d, e, f + (g + (h + i)));
    Regroup(a + b + c, d, e + (f + (g + (h + i))));
    Regroup(a + b, c, d + (e + (f + (g + (h + i)))));
    Regroup(a, b, c + (d + (e + (f + (g + (h + i))))));
  }
}
