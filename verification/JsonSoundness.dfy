/**
 Accepted text has a derivation: the syntax tree is read back from an accepting run of the scanner.
 */
module JsonSoundness {
  import opened Units
  import opened JsonGrammar
  import opened JsonScanner
  import opened JsonReading

  lemma {:induction false} TakeBlank(s: State, t: Text) returns (ws: Text, rest: Text)
    requires s.mode.Expecting?
    ensures t == ws + rest && AllWhitespace(ws)
    ensures rest != [] ==> !IsWhitespace(rest[0])
    ensures Verdict(s, t) == Verdict(s, rest)
    decreases |t|
  {
    if t == [] || !IsWhitespace(t[0]) {
      ws, rest := [], t;
    } else {
      ws, rest := TakeBlank(s, t[1..]);
      ws := [t[0]] + ws;
      assert t == [t[0]] + t[1..];
    }
  }

  /** The string body up to and including its closing quote. */
  lemma {:induction false} TakeString(isKey: bool, stack: seq<bool>, t: Text) returns (chars: seq<StrChar>, rest: Text)
    requires Verdict(State(InString(isKey, Body), stack), t) == Complete
    ensures StrOk(chars) && t == PrintChars(chars) + [QUOTE] + rest && |rest| < |t|
    ensures Verdict(if isKey then State(Expecting(ObjColon), stack) else After(stack), rest) == Complete
    decreases |t|
  {
    if t[0] == QUOTE {
      chars, rest := [], t[1..];
      assert t == PrintChars(chars) + [QUOTE] + rest;
    } else {
      var c, tail := TakeChar(isKey, stack, t);
      chars, rest := TakeString(isKey, stack, tail);
      chars := ConsChar(c, chars, t, tail, rest);
    }
  }

  lemma ConsChar(c: StrChar, chars: seq<StrChar>, t: Text, tail: Text, rest: Text) returns (all: seq<StrChar>)
    requires t == PrintChar(c) + tail && tail == PrintChars(chars) + [QUOTE] + rest && StrOk(chars) && StrCharOk(c)
    ensures StrOk(all) && t == PrintChars(all) + [QUOTE] + rest
  {
    all := [c] + chars;
    assert all[1..] == chars;
    Assoc(PrintChar(c), PrintChars(chars), [QUOTE], rest);
    Regroup(PrintChars(chars), [QUOTE], rest);
  }

  lemma TakeChar(isKey: bool, stack: seq<bool>, t: Text) returns (c: StrChar, tail: Text)
    requires Verdict(State(InString(isKey, Body), stack), t) == Complete && t != [] && t[0] != QUOTE
    ensures StrCharOk(c) && t == PrintChar(c) + tail && |tail| < |t|
    ensures Verdict(State(InString(isKey, Body), stack), tail) == Complete
  {
    if t[0] != BACKSLASH {
      c, tail := Raw(t[0]), t[1..];
    } else if t[1] != LOWER_U {
      c, tail := Short(t[1]), t[2..];
      assert t[1..][1..] == tail;
    } else {
      var d := t[1..][1..];
      TakeHex(State(InString(isKey, Digits(4)), stack), d);
      TakeHex(State(InString(isKey, Digits(3)), stack), d[1..]);
      TakeHex(State(InString(isKey, Digits(2)), stack), d[1..][1..]);
      TakeHex(State(InString(isKey, Digits(1)), stack), d[1..][1..][1..]);
      c, tail := Hex(t[2], t[3], t[4], t[5]), t[6..];
      assert d[1..][1..][1..][1..] == tail;
    }
  }

  lemma TakeHex(s: State, t: Text)
    requires s.mode.InString? && s.mode.place.Digits? && s.mode.place.left >= 1 && Verdict(s, t) == Complete
    ensures t != [] && IsHexDigit(t[0])
    ensures Verdict(State(InString(s.mode.isKey, if s.mode.place.left == 1 then Body else Digits(s.mode.place.left - 1)), s.stack), t[1..]) == Complete
  {
  }

  lemma {:induction false} TakeDigits(at: NumberPlace, stack: seq<bool>, t: Text) returns (digits: Text, rest: Text)
    requires at.Whole? || at.Frac? || at.Exp?
    ensures t == digits + rest && AllDigits(digits) && (rest != [] ==> !IsDigit(rest[0]))
    ensures Verdict(State(InNumber(at), stack), t) == Verdict(State(InNumber(at), stack), rest)
    decreases |t|
  {
    if t == [] || !IsDigit(t[0]) {
      digits, rest := [], t;
    } else {
      digits, rest := TakeDigits(at, stack, t[1..]);
      digits := [t[0]] + digits;
      assert t == [t[0]] + t[1..];
    }
  }

  /** One mandatory digit and then more of them, entered from the place before. */
  lemma TakeSomeDigits(before: NumberPlace, at: NumberPlace, stack: seq<bool>, t: Text) returns (digits: Text, rest: Text)
    requires before.AfterDot? || before.AfterSign? || before.AfterMarker?
    requires at == if before.AfterDot? then Frac else Exp
    requires before.AfterMarker? ==> t != [] && t[0] != PLUS && t[0] != MINUS
    requires Verdict(State(InNumber(before), stack), t) == Complete
    ensures t == digits + rest && digits != [] && AllDigits(digits) && (rest != [] ==> !IsDigit(rest[0]))
    ensures Verdict(State(InNumber(at), stack), rest) == Complete
  {
    digits, rest := TakeDigits(at, stack, t[1..]);
    digits := [t[0]] + digits;
    assert t == [t[0]] + t[1..];
  }

  lemma TakeExp(at: NumberPlace, stack: seq<bool>, t: Text) returns (e: Option<Exponent>, rest: Text)
    requires at.Zero? || at.Whole? || at.Frac?
    requires at.Zero? || (t != [] ==> !IsDigit(t[0]))
    requires t != [] ==> t[0] != DOT || at.Frac?
    requires Verdict(State(InNumber(at), stack), t) == Complete
    ensures (e.Some? ==> ExponentOk(e.value)) && t == PrintExp(e) + rest
    ensures Verdict(After(stack), rest) == Complete
  {
    if t == [] || !IsMarker(t[0]) {
      e, rest := None, t;
    } else {
      var sign, tail := [], t[1..];
      var before := AfterMarker;
      if t[1] == PLUS || t[1] == MINUS {
        sign, tail, before := [t[1]], t[1..][1..], AfterSign;
      }
      var digits, end := TakeSomeDigits(before, Exp, stack, tail);
      e, rest := Some(Exponent(t[0], sign, digits)), end;
      NumberEndsHere(Exp, stack, end);
      assert t[1..] == sign + tail;
      assert t == [t[0]] + t[1..];
      Assoc([t[0]], sign, digits, end);
    }
  }

  lemma NumberEndsHere(at: NumberPlace, stack: seq<bool>, rest: Text)
    requires at.Exp? && (rest != [] ==> !IsDigit(rest[0]))
    requires Verdict(State(InNumber(at), stack), rest) == Complete
    ensures Verdict(After(stack), rest) == Complete
  {
  }

  lemma TakeFrac(at: NumberPlace, stack: seq<bool>, t: Text) returns (f: Option<Text>, e: Option<Exponent>, rest: Text)
    requires at.Zero? || at.Whole?
    requires at.Whole? ==> t != [] ==> !IsDigit(t[0])
    requires Verdict(State(InNumber(at), stack), t) == Complete
    ensures f.Some? ==> f.value != [] && AllDigits(f.value)
    ensures e.Some? ==> ExponentOk(e.value)
    ensures t == PrintFrac(f) + (PrintExp(e) + rest)
    ensures Verdict(After(stack), rest) == Complete
  {
    if t == [] || t[0] != DOT {
      f := None;
      e, rest := TakeExp(at, stack, t);
      assert t == PrintFrac(f) + (PrintExp(e) + rest);
    } else {
      var digits, tail := TakeSomeDigits(AfterDot, Frac, stack, t[1..]);
      f := Some(digits);
      e, rest := TakeExp(Frac, stack, tail);
      assert t == [DOT] + t[1..];
      Regroup([DOT], digits, tail);
    }
  }

  lemma TakeInteger(s: State, t: Text) returns (whole: Text, tail: Text)
    requires s.mode == InNumber(AfterMinus) || (AtValue(s) && t != [] && IsDigit(t[0]))
    requires Verdict(s, t) == Complete
    ensures t != [] && WholeOk(whole) && t == whole + tail && |tail| < |t|
    ensures t[0] != 0x30 && tail != [] ==> !IsDigit(tail[0])
    ensures Verdict(State(InNumber(if t[0] == 0x30 then Zero else Whole), s.stack), tail) == Complete
  {
    assert t == [t[0]] + t[1..];
    if t[0] == 0x30 {
      whole, tail := [t[0]], t[1..];
    } else {
      assert Verdict(State(InNumber(Whole), s.stack), t[1..]) == Complete;
      var digits;
      digits, tail := TakeDigits(Whole, s.stack, t[1..]);
      whole := [t[0]] + digits;
      Regroup([t[0]], digits, tail);
    }
  }

  lemma TakeWhole(s: State, t: Text) returns (n: Number, rest: Text)
    requires s.mode == InNumber(AfterMinus) || (AtValue(s) && t != [] && IsDigit(t[0]))
    requires Verdict(s, t) == Complete
    ensures NumberOk(n) && !n.minus && t == PrintNumber(n) + rest && |rest| < |t|
    ensures Verdict(After(s.stack), rest) == Complete
  {
    var whole, tail := TakeInteger(s, t);
    var f, e, end := TakeFrac(if t[0] == 0x30 then Zero else Whole, s.stack, tail);
    n, rest := Number(false, whole, f, e), end;
    NumberText(n, rest);
    assert [] + t == t;
  }

  lemma Signed(n: Number, rest: Text)
    requires !n.minus
    ensures NumberOk(n) ==> NumberOk(n.(minus := true))
    ensures PrintNumber(n.(minus := true)) + rest == [MINUS] + (PrintNumber(n) + rest)
  {
    var body := n.whole + (PrintFrac(n.frac) + (PrintExp(n.exp) + rest));
    NumberText(n, rest);
    NumberText(n.(minus := true), rest);
    assert [] + body == body;
  }

  lemma TakeNumber(s: State, t: Text) returns (n: Number, rest: Text)
    requires AtValue(s) && t != [] && (t[0] == MINUS || IsDigit(t[0]))
    requires Verdict(s, t) == Complete
    ensures NumberOk(n) && t == PrintNumber(n) + rest && |rest| < |t|
    ensures Verdict(After(s.stack), rest) == Complete
  {
    hide Verdict, PrintNumber;
    if t[0] == MINUS {
      HeadTail(t);
      Move(s, MINUS, t[1..]);
      n, rest := TakeWhole(State(InNumber(AfterMinus), s.stack), t[1..]);
      Signed(n, rest);
      n := n.(minus := true);
    } else {
      n, rest := TakeWhole(s, t);
    }
  }

  lemma HeadTail(t: Text)
    requires t != []
    ensures t == [t[0]] + t[1..]
  {
  }

  lemma {:induction false} TakeLetters(stack: seq<bool>, left: Text, t: Text) returns (rest: Text)
    requires left != [] && Verdict(State(InWord(left), stack), t) == Complete
    ensures t == left + rest && Verdict(After(stack), rest) == Complete
    decreases |left|
  {
    assert t != [] && t[0] == left[0];
    HeadTail(t);
    HeadTail(left);
    if |left| == 1 {
      rest := t[1..];
    } else {
      rest := TakeLetters(stack, left[1..], t[1..]);
      Regroup([t[0]], left[1..], rest);
    }
  }

  lemma TakeWord(s: State, t: Text) returns (w: Word, rest: Text)
    requires AtValue(s) && t != [] && (t[0] == LOWER_T || t[0] == LOWER_F || t[0] == LOWER_N)
    requires Verdict(s, t) == Complete
    ensures t == PrintWord(w) + rest && |rest| < |t|
    ensures Verdict(After(s.stack), rest) == Complete
  {
    w := if t[0] == LOWER_T then True else if t[0] == LOWER_F then False else Null;
    rest := TakeLetters(s.stack, PrintWord(w)[1..], t[1..]);
    HeadTail(t);
    HeadTail(PrintWord(w));
    Regroup([t[0]], PrintWord(w)[1..], rest);
  }

  lemma {:induction false} TakeValue(s: State, t: Text) returns (v: Value, rest: Text)
    requires AtValue(s) && t != [] && !IsWhitespace(t[0])
    requires s.mode == Expecting(ArrValueOrEnd) ==> t[0] != RBRACKET
    requires Verdict(s, t) == Complete
    ensures ValueOk(v) && t == Print(v) + rest && |rest| < |t|
    ensures Verdict(After(s.stack), rest) == Complete
    decreases |t|, 0
  {
    var c := t[0];
    assert t == [c] + t[1..];
    if c == QUOTE {
      var chars;
      chars, rest := TakeString(false, s.stack, t[1..]);
      v := Str(chars);
      Assoc([QUOTE], PrintChars(chars), [QUOTE], rest);
      Regroup(PrintChars(chars), [QUOTE], rest);
    } else if c == MINUS || IsDigit(c) {
      var n;
      n, rest := TakeNumber(s, t);
      v := Num(n);
    } else if c == LOWER_T || c == LOWER_F || c == LOWER_N {
      var w;
      w, rest := TakeWord(s, t);
      v := Lit(w);
    } else if c == LBRACKET {
      v, rest := TakeArray(s.stack, t[1..]);
    } else {
      assert c == LBRACE;
      v, rest := TakeObject(s.stack, t[1..]);
    }
  }

  lemma {:induction false} TakeArray(outer: seq<bool>, t: Text) returns (v: Value, rest: Text)
    requires Verdict(State(Expecting(ArrValueOrEnd), outer + [false]), t) == Complete
    ensures ValueOk(v) && [LBRACKET] + t == Print(v) + rest && |rest| < |t|
    ensures Verdict(After(outer), rest) == Complete
    decreases |t|, 2
  {
    var s := State(Expecting(ArrValueOrEnd), outer + [false]);
    var ws, tail := TakeBlank(s, t);
    if tail[0] == RBRACKET {
      v, rest := EmptyArray(ws), tail[1..];
      assert tail == [RBRACKET] + rest;
      assert s.stack[..|s.stack| - 1] == outer;
      Assoc([LBRACKET], ws, [RBRACKET], rest);
    } else {
      var es;
      es, rest := TakeElements(s, outer, ws, tail);
      v := Array(es);
      Regroup([LBRACKET], PrintElements(es), rest);
    }
  }

  lemma {:induction false} TakeElements(s: State, outer: seq<bool>, ws: Text, t: Text) returns (es: Elements, rest: Text)
    requires AtValue(s) && s.stack == outer + [false] && AllWhitespace(ws)
    requires t != [] && !IsWhitespace(t[0]) && (s.mode == Expecting(ArrValueOrEnd) ==> t[0] != RBRACKET)
    requires Verdict(s, t) == Complete
    ensures ElementsOk(es) && ws + t == PrintElements(es) + rest && |rest| < |t|
    ensures Verdict(After(outer), rest) == Complete
    decreases |t|, 1
  {
    var v, r := TakeValue(s, t);
    var post, tail := TakeBlank(After(s.stack), r);
    if tail[0] == RBRACKET {
      es, rest := LastElement(ws, v, post), tail[1..];
      assert tail == [RBRACKET] + rest;
      assert s.stack[..|s.stack| - 1] == outer;
    } else {
      assert tail == [COMMA] + tail[1..];
      var pre, next := TakeBlank(State(Expecting(ExpValue), s.stack), tail[1..]);
      var more;
      more, rest := TakeElements(State(Expecting(ExpValue), s.stack), outer, pre, next);
      es := MoreElements(ws, v, post, more);
    }
    ElementText(es, rest);
  }

  lemma {:induction false} TakeObject(outer: seq<bool>, t: Text) returns (v: Value, rest: Text)
    requires Verdict(State(Expecting(ObjKeyOrEnd), outer + [true]), t) == Complete
    ensures ValueOk(v) && [LBRACE] + t == Print(v) + rest && |rest| < |t|
    ensures Verdict(After(outer), rest) == Complete
    decreases |t|, 2
  {
    var s := State(Expecting(ObjKeyOrEnd), outer + [true]);
    var ws, tail := TakeBlank(s, t);
    if tail[0] == RBRACE {
      v, rest := EmptyObject(ws), tail[1..];
      assert tail == [RBRACE] + rest;
      assert s.stack[..|s.stack| - 1] == outer;
      Assoc([LBRACE], ws, [RBRACE], rest);
    } else {
      var ms;
      ms, rest := TakeMembers(s, outer, ws, tail);
      v := Object(ms);
      Regroup([LBRACE], PrintMembers(ms), rest);
    }
  }

  lemma {:induction false} TakeMembers(s: State, outer: seq<bool>, ws: Text, t: Text) returns (ms: Members, rest: Text)
    requires s.mode == Expecting(ObjKeyOrEnd) || s.mode == Expecting(ObjKey)
    requires s.stack == outer + [true] && AllWhitespace(ws)
    requires t != [] && !IsWhitespace(t[0]) && (s.mode == Expecting(ObjKeyOrEnd) ==> t[0] != RBRACE)
    requires Verdict(s, t) == Complete
    ensures MembersOk(ms) && ws + t == PrintMembers(ms) + rest && |rest| < |t|
    ensures Verdict(After(outer), rest) == Complete
    decreases |t|, 1
  {
    var key, before, after, v, post, tail := TakeMember(s, t);
    if tail[0] == RBRACE {
      ms, rest := LastMember(ws, key, before, after, v, post), tail[1..];
      assert tail == [RBRACE] + rest;
      assert s.stack[..|s.stack| - 1] == outer;
    } else {
      assert tail == [COMMA] + tail[1..];
      var pre, next := TakeBlank(State(Expecting(ObjKey), s.stack), tail[1..]);
      var more;
      more, rest := TakeMembers(State(Expecting(ObjKey), s.stack), outer, pre, next);
      ms := MoreMembers(ws, key, before, after, v, post, more);
    }
    MemberText(ms, rest);
  }

  lemma {:induction false} TakeMember(s: State, t: Text)
    returns (key: seq<StrChar>, before: Text, after: Text, v: Value, post: Text, tail: Text)
    requires s.mode == Expecting(ObjKeyOrEnd) || s.mode == Expecting(ObjKey)
    requires TopIs(s.stack, true)
    requires t != [] && !IsWhitespace(t[0]) && (s.mode == Expecting(ObjKeyOrEnd) ==> t[0] != RBRACE)
    requires Verdict(s, t) == Complete
    ensures StrOk(key) && AllWhitespace(before) && AllWhitespace(after) && ValueOk(v) && AllWhitespace(post)
    ensures t == [QUOTE] + (PrintChars(key) + [QUOTE] + (before + ([COLON] + (after + (Print(v) + (post + tail))))))
    ensures |tail| < |t| && tail != [] && !IsWhitespace(tail[0])
    ensures Verdict(After(s.stack), tail) == Complete
    decreases |t|, 0
  {
    assert t == [QUOTE] + t[1..];
    var r;
    key, r := TakeString(true, s.stack, t[1..]);
    before, r := TakeBlank(State(Expecting(ObjColon), s.stack), r);
    assert r == [COLON] + r[1..];
    after, r := TakeBlank(State(Expecting(ExpValue), s.stack), r[1..]);
    v, r := TakeValue(State(Expecting(ExpValue), s.stack), r);
    post, tail := TakeBlank(After(s.stack), r);
  }
}
