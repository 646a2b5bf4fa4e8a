/**
 JSON values, what a syntax tree denotes, and the numeric reading of number tokens.
 Numbers are exact reals; a magnitude that rounds to an infinite double is not a number.
 */
module JsonValue {
  import opened Units
  import opened JsonGrammar
  import opened JsonLexer

  /** Object members are in insertion order with distinct keys. */
  datatype Json =
    | JNull
    | JBool(b: bool)
    | JNumber(r: real)
    | JInfinity(minus: bool)   // what `JSON.parse` makes of a number beyond the range of a double
    | JString(s: Text)
    | JArray(items: seq<Json>)
    | JObject(members: seq<(Text, Json)>)

  // ---------- objects ----------

  /** `out[key] = value`: the last write wins, in the place of the first. */
  function Assign(out: seq<(Text, Json)>, key: Text, value: Json): seq<(Text, Json)> {
    if out == [] then [(key, value)]
    else if out[0].0 == key then [(key, value)] + out[1..]
    else [out[0]] + Assign(out[1..], key, value)
  }

  predicate HasKey(out: seq<(Text, Json)>, key: Text) {
    exists k :: 0 <= k < |out| && out[k].0 == key
  }

  lemma {:induction false} AssignFresh(out: seq<(Text, Json)>, key: Text, value: Json)
    requires !HasKey(out, key)
    ensures Assign(out, key, value) == out + [(key, value)]
  {
    if out != [] {
      assert out[0].0 != key;
      assert !HasKey(out[1..], key) by {
        forall k | 0 <= k < |out[1..]| ensures out[1..][k].0 != key {
          assert out[k + 1].0 != key;
        }
      }
      AssignFresh(out[1..], key, value);
      assert out == [out[0]] + out[1..];
    } else {
      assert out + [(key, value)] == [(key, value)];
    }
  }

  // ---------- numbers ----------

  /** The integer written with these digits. */
  function DigitsValue(t: Text, base: nat): int {
    if t == [] then 0
    else DigitsValue(t[..|t| - 1], base) * base + (if IsHexDigit(t[|t| - 1]) then HexValue(t[|t| - 1]) else 0)
  }

  function Power(base: real, e: nat): real {
    if e == 0 then 1.0 else base * Power(base, e - 1)
  }

  function Pow10(e: int): real {
    if e >= 0 then Power(10.0, e) else Power(0.1, -e)
  }

  /** A numeric literal: digits * 10^e with a sign, or digits in another base. */
  datatype Numeral = Decimal(minus: bool, digits: Text, e: int) | Radix(base: nat, digits: Text)

  function RealOf(n: Numeral): real {
    match n
    case Decimal(minus, digits, e) =>
      var v := DigitsValue(digits, 10) as real * Pow10(e);
      if minus then -v else v
    case Radix(base, digits) => DigitsValue(digits, base) as real
  }

  /** 2^1024 - 2^970: magnitudes from here on round to an infinite double. */
  const DOUBLE_LIMIT: int :=
    0xFFFFFFFFFFFFFC00000000000000000000000000000000000000000000000000000000000000000000000000000000000000000000000000000000000000000000000000000000000000000000000000000000000000000000000000000000000000000000000000000000000000000000000000000000000000000000000000

  predicate IsFinite(r: real) {
    -(DOUBLE_LIMIT as real) < r < DOUBLE_LIMIT as real
  }

  function FiniteOnly(r: real): Option<real> {
    if IsFinite(r) then Some(r) else None
  }

  function DigitRun(t: Text): (k: nat)
    ensures k <= |t| && AllDigits(t[..k])
    ensures k < |t| ==> !IsDigit(t[k])
  {
    if t == [] || !IsDigit(t[0]) then 0 else 1 + DigitRun(t[1..])
  }

  /** The exponent part that makes up all of t. */
  function ExponentValue(t: Text): Option<int> {
    if t == [] then Some(0)
    else if t[0] != LOWER_E && t[0] != UPPER_E then None
    else
      var signed := |t| >= 2 && (t[1] == PLUS || t[1] == MINUS);
      var digits := if signed then t[2..] else t[1..];
      if digits == [] || !AllDigits(digits) then None
      else Some(if signed && t[1] == MINUS then -DigitsValue(digits, 10) else DigitsValue(digits, 10))
  }

  /** What follows the integer digits: optional dot and digits, optional exponent. */
  function FractionValue(minus: bool, whole: Text, t: Text): Option<Numeral> {
    if t != [] && t[0] == DOT then
      var f := DigitRun(t[1..]);
      var e := ExponentValue(t[1..][f..]);
      if (whole == [] && f == 0) || e.None? then None
      else Some(Decimal(minus, whole + t[1..][..f], e.value - f))
    else
      var e := ExponentValue(t);
      if whole == [] || e.None? then None else Some(Decimal(minus, whole, e.value))
  }

  /** An unsigned decimal literal. */
  function DecimalValue(minus: bool, t: Text): Option<Numeral> {
    FractionValue(minus, t[..DigitRun(t)], t[DigitRun(t)..])
  }

  predicate HasRadix(t: Text, letter: Unit) {
    |t| > 2 && t[0] == 0x30 && LowerBit(t[1]) == letter
  }

  predicate AllHexDigits(t: Text) {
    forall k :: 0 <= k < |t| ==> IsHexDigit(t[k])
  }

  predicate AllBits(t: Text) {
    forall k :: 0 <= k < |t| ==> t[k] == 0x30 || t[k] == 0x31
  }

  /** The literal a token spells: a decimal with optional sign, `0x` hex, or `0b` binary. */
  function ReadNumeral(t: Text): Option<Numeral> {
    if HasRadix(t, 0x78) && AllHexDigits(t[2..]) then Some(Radix(16, t[2..]))
    else if HasRadix(t, 0x62) && AllBits(t[2..]) then Some(Radix(2, t[2..]))
    else if t != [] && (t[0] == MINUS || t[0] == PLUS) then DecimalValue(t[0] == MINUS, t[1..])
    else DecimalValue(false, t)
  }

  /** `Number(token)` when it is finite. */
  function JsNumber(t: Text): Option<real> {
    var n := ReadNumeral(t);
    if n.None? then None else FiniteOnly(RealOf(n.value))
  }

  // ---------- what a syntax tree denotes (RFC 8259, sections 3 to 7) ----------

  function DecodeChar(c: StrChar): Unit
    requires StrCharOk(c)
  {
    match c
    case Raw(u) => u
    case Short(e) =>
      if e == LOWER_B then 0x08 else if e == LOWER_F then 0x0c else if e == LOWER_N then NEWLINE
      else if e == LOWER_R then RETURN else if e == LOWER_T then 0x09 else e
    case Hex(h0, h1, h2, h3) => Hex4(h0, h1, h2, h3)
  }

  function DecodeChars(s: seq<StrChar>): (r: Text)
    requires StrOk(s)
    ensures |r| == |s|
  {
    if s == [] then [] else [DecodeChar(s[0])] + DecodeChars(s[1..])
  }

  function ExponentOf(n: Number): int
    requires NumberOk(n)
  {
    if n.exp.None? then 0
    else if n.exp.value.sign == [MINUS] then -DigitsValue(n.exp.value.digits, 10)
    else DigitsValue(n.exp.value.digits, 10)
  }

  function FracOf(n: Number): (f: Text)
    requires NumberOk(n)
    ensures AllDigits(f)
  {
    if n.frac.Some? then n.frac.value else []
  }

  function NumeralOf(n: Number): Numeral
    requires NumberOk(n)
  {
    Decimal(n.minus, n.whole + FracOf(n), ExponentOf(n) - |FracOf(n)|)
  }

  function NumberValue(n: Number): real
    requires NumberOk(n)
  {
    RealOf(NumeralOf(n))
  }

  function WordValue(w: Word): Json {
    match w
    case True => JBool(true)
    case False => JBool(false)
    case Null => JNull
  }

  function Decode(v: Value): Json
    requires ValueOk(v)
  {
    match v
    case Str(chars) => JString(DecodeChars(chars))
    case Num(num) => JNumber(NumberValue(num))
    case Lit(word) => WordValue(word)
    case EmptyArray(_) => JArray([])
    case Array(elements) => JArray(DecodeElements([], elements))
    case EmptyObject(_) => JObject([])
    case Object(members) => JObject(DecodeMembers([], members))
  }

  /** The elements pushed onto `out`. */
  function DecodeElements(out: seq<Json>, es: Elements): seq<Json>
    requires ElementsOk(es)
    decreases es
  {
    var next := out + [Decode(es.value)];
    if es.MoreElements? then DecodeElements(next, es.rest) else next
  }

  /** The members assigned into `out`. */
  function DecodeMembers(out: seq<(Text, Json)>, ms: Members): seq<(Text, Json)>
    requires MembersOk(ms)
    decreases ms
  {
    var next := Assign(out, DecodeChars(ms.key), Decode(ms.value));
    if ms.MoreMembers? then DecodeMembers(next, ms.rest) else next
  }

  /** Every number in the tree is a finite double. */
  predicate NumbersFinite(v: Value)
    requires ValueOk(v)
  {
    match v
    case Num(num) => IsFinite(NumberValue(num))
    case Array(elements) => ElementsFinite(elements)
    case Object(members) => MembersFinite(members)
    case _ => true
  }

  predicate ElementsFinite(es: Elements)
    requires ElementsOk(es)
  {
    NumbersFinite(es.value) && (es.MoreElements? ==> ElementsFinite(es.rest))
  }

  predicate MembersFinite(ms: Members)
    requires MembersOk(ms)
  {
    NumbersFinite(ms.value) && (ms.MoreMembers? ==> MembersFinite(ms.rest))
  }

  // ---------- the numeric reading of an RFC 8259 number ----------

  lemma {:induction false} DigitRunOf(digits: Text, rest: Text)
    requires AllDigits(digits) && (rest != [] ==> !IsDigit(rest[0]))
    ensures DigitRun(digits + rest) == |digits|
  {
    if digits == [] {
      assert digits + rest == rest;
    } else {
      assert (digits + rest)[1..] == digits[1..] + rest;
      DigitRunOf(digits[1..], rest);
    }
  }

  lemma ExponentRead(e: Option<Exponent>)
    requires e.Some? ==> ExponentOk(e.value)
    ensures ExponentValue(PrintExp(e)) == Some(
      if e.None? then 0
      else if e.value.sign == [MINUS] then -DigitsValue(e.value.digits, 10) else DigitsValue(e.value.digits, 10))
  {
    if e.Some? {
      var x := e.value;
      var t := PrintExp(e);
      if x.sign == [] {
        assert t[1..] == x.digits;
      } else {
        assert t[1] == x.sign[0] && t[2..] == x.digits;
      }
    }
  }

  lemma DottedRead(minus: bool, whole: Text, frac: Text, exp: Text)
    requires whole != [] && AllDigits(frac) && (exp != [] ==> !IsDigit(exp[0]))
    requires ExponentValue(exp).Some?
    ensures FractionValue(minus, whole, [DOT] + frac + exp)
         == Some(Decimal(minus, whole + frac, ExponentValue(exp).value - |frac|))
  {
    var t := [DOT] + frac + exp;
    assert t[1..] == frac + exp;
    DigitRunOf(frac, exp);
    assert t[1..][..|frac|] == frac;
    assert t[1..][|frac|..] == exp;
  }

  lemma UndottedRead(minus: bool, whole: Text, exp: Text)
    requires whole != [] && (exp != [] ==> exp[0] != DOT)
    requires ExponentValue(exp).Some?
    ensures FractionValue(minus, whole, exp) == Some(Decimal(minus, whole, ExponentValue(exp).value))
  {
  }

  lemma ExpStart(e: Option<Exponent>)
    requires e.Some? ==> ExponentOk(e.value)
    ensures PrintExp(e) != [] ==> PrintExp(e)[0] == LOWER_E || PrintExp(e)[0] == UPPER_E
  {
  }

  lemma FractionRead(n: Number)
    requires NumberOk(n)
    ensures FractionValue(n.minus, n.whole, PrintFrac(n.frac) + PrintExp(n.exp)) == Some(NumeralOf(n))
  {
    hide ExponentValue, FractionValue;
    var exp := PrintExp(n.exp);
    ExponentRead(n.exp);
    ExpStart(n.exp);
    if n.frac.Some? {
      DottedRead(n.minus, n.whole, n.frac.value, exp);
      assert PrintFrac(n.frac) == [DOT] + n.frac.value;
    } else {
      UndottedRead(n.minus, n.whole, exp);
      assert [] + exp == exp;
      assert n.whole + [] == n.whole;
    }
  }

  lemma DecimalRead(n: Number)
    requires NumberOk(n)
    ensures DecimalValue(n.minus, n.whole + (PrintFrac(n.frac) + PrintExp(n.exp))) == Some(NumeralOf(n))
  {
    var tail := PrintFrac(n.frac) + PrintExp(n.exp);
    DigitRunOf(n.whole, tail);
    assert (n.whole + tail)[..|n.whole|] == n.whole && (n.whole + tail)[|n.whole|..] == tail;
    FractionRead(n);
  }

  lemma NoRadix(whole: Text, tail: Text)
    requires WholeOk(whole)
    requires tail != [] ==> tail[0] == DOT || tail[0] == LOWER_E || tail[0] == UPPER_E
    ensures !HasRadix(whole + tail, 0x78) && !HasRadix(whole + tail, 0x62)
  {
    if whole == [0x30] && tail != [] {
      assert (whole + tail)[1] == tail[0];
    }
  }

  /** A number token of RFC 8259 spells the number it denotes. */
  lemma NumeralRead(n: Number)
    requires NumberOk(n)
    ensures ReadNumeral(PrintNumber(n)) == Some(NumeralOf(n))
  {
    var tail := PrintFrac(n.frac) + PrintExp(n.exp);
    DecimalRead(n);
    NumberPieces(n);
    if n.minus {
      MinusRead(n.whole + tail);
    } else {
      NoRadix(n.whole, tail);
    }
  }

  lemma NumberPieces(n: Number)
    ensures PrintNumber(n) == (if n.minus then [MINUS] else []) + (n.whole + (PrintFrac(n.frac) + PrintExp(n.exp)))
    ensures !n.minus ==> PrintNumber(n) == n.whole + (PrintFrac(n.frac) + PrintExp(n.exp))
  {
  }

  lemma MinusRead(body: Text)
    ensures ReadNumeral([MINUS] + body) == DecimalValue(true, body)
  {
    assert ([MINUS] + body)[1..] == body;
  }

  lemma NumberTokenValue(n: Number)
    requires NumberOk(n)
    ensures JsNumber(PrintNumber(n)) == FiniteOnly(NumberValue(n))
  {
    NumeralRead(n);
  }
}
