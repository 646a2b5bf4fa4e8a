/** Numbers within and beyond the range of a double, in the shape in which they matter to the parsers. */
module NumberRange {
  import opened Units
  import opened JsonGrammar
  import opened JsonLexer
  import opened JsonValue

  // ---------- powers ----------

  lemma {:induction false} PowerSum(base: real, a: nat, b: nat)
    ensures Power(base, a + b) == Power(base, a) * Power(base, b)
    decreases a
  {
    if a > 0 {
      PowerSum(base, a - 1, b);
    }
  }

  lemma {:induction false} PowerInverse(k: nat)
    ensures Power(10.0, k) * Power(0.1, k) == 1.0 && Power(10.0, k) >= 1.0
  {
    if k > 0 {
      PowerInverse(k - 1);
      var a, b := Power(10.0, k - 1), Power(0.1, k - 1);
      assert (10.0 * a) * (0.1 * b) == a * b;
    }
  }

  lemma Squared(k: nat, p: real)
    requires Power(10.0, k) == p
    ensures Power(10.0, 2 * k) == p * p
  {
    PowerSum(10.0, k, k);
    assert k + k == 2 * k;
  }

  /** The sixty-fourth power, by squaring. */
  lemma SixtyFour(k: nat)
    requires k == 1
    ensures Power(10.0, 4 * k) == 10000.0
    ensures Power(10.0, 32 * k) == 100000000000000000000000000000000.0
    ensures Power(10.0, 64 * k) == 10000000000000000000000000000000000000000000000000000000000000000.0
  {
    assert Power(10.0, k - 1) == 1.0;
    assert Power(10.0, k) == 10.0;
    Squared(k, 10.0);
    Squared(2 * k, 100.0);
    Squared(4 * k, 10000.0);
    Squared(8 * k, 100000000.0);
    Squared(16 * k, 10000000000000000.0);
    Squared(32 * k, 100000000000000000000000000000000.0);
  }

  lemma HundredIsFinite(k: nat)
    requires k == 100
    ensures IsFinite(Power(10.0, k))
  {
    var one: nat := 1;
    SixtyFour(one);
    PowerSum(10.0, 64 * one, 32 * one);
    PowerSum(10.0, 96 * one, 4 * one);
    assert 96 * one == 64 * one + 32 * one;
    assert k == 96 * one + 4 * one;
  }

  lemma FourHundredIsNot(k: nat)
    requires k == 400
    ensures !IsFinite(Power(10.0, k))
  {
    var one: nat := 1;
    SixtyFour(one);
    var p := Power(10.0, 64 * one);
    Squared(64 * one, p);
    Squared(128 * one, p * p);
    PowerSum(10.0, 256 * one, 128 * one);
    PowerSum(10.0, 384 * one, k - 384 * one);
    PowerInverse(k - 384 * one);
  }

  // ---------- 1e400 ----------

  const HUGE := Number(false, [0x31], None, Some(Exponent(LOWER_E, [], [0x34, 0x30, 0x30])))

  lemma ThreeDigits(a: Unit, b: Unit, c: Unit)
    requires IsDigit(a) && IsDigit(b) && IsDigit(c)
    ensures DigitsValue([a, b, c], 10) == (a - 0x30) * 100 + (b - 0x30) * 10 + (c - 0x30)
  {
    var t, two, one: Text := [a, b, c], [a, b], [a];
    assert t[..2] == two && two[..1] == one && one[..0] == [];
    assert DigitsValue(one, 10) == a - 0x30;
    assert DigitsValue(two, 10) == (a - 0x30) * 10 + (b - 0x30);
  }

  lemma OneDigit()
    ensures DigitsValue([0x31], 10) == 1
  {
    var t: Text := [0x31];
    assert t[..0] == [];
  }

  /** `1e400` is a JSON number beyond the range of a double. */
  lemma HugeIsNotFinite()
    ensures NumberOk(HUGE) && PrintNumber(HUGE) == [0x31, LOWER_E, 0x34, 0x30, 0x30]
    ensures !IsFinite(NumberValue(HUGE))
  {
    ThreeDigits(0x34, 0x30, 0x30);
    OneDigit();
    assert HUGE.whole + FracOf(HUGE) == [0x31];
    var k: nat := ExponentOf(HUGE);
    FourHundredIsNot(k);
  }

  // ---------- a finite number that begins with one that is not ----------

  function Zeros(k: nat): (t: Text)
    ensures |t| == k
  {
    if k == 0 then [] else Zeros(k - 1) + [0x30]
  }

  lemma {:induction false} ZerosAreDigits(k: nat)
    ensures AllDigits(Zeros(k))
  {
    if k > 0 {
      ZerosAreDigits(k - 1);
    }
  }

  /** A one and k zeros. */
  function Long(k: nat): Text {
    [0x31] + Zeros(k)
  }

  lemma {:induction false} LongValue(k: nat)
    ensures DigitsValue(Long(k), 10) as real == Power(10.0, k)
    ensures WholeOk(Long(k))
  {
    ZerosAreDigits(k);
    if k == 0 {
      assert Long(0) == [0x31];
      OneDigit();
    } else {
      LongValue(k - 1);
      assert Long(k)[..k] == Long(k - 1) && Long(k)[k] == 0x30;
    }
  }

  function Plain(k: nat): Number {
    Number(false, Long(k), None, None)
  }

  /** A one, k zeros and `e-300`. */
  function Scaled(k: nat): Number {
    Number(false, Long(k), None, Some(Exponent(LOWER_E, [MINUS], [0x33, 0x30, 0x30])))
  }

  /** A one and 400 zeros is beyond the range of a double; with `e-300` after it, it is not. */
  lemma LongThenScaled(k: nat)
    requires k == 400
    ensures NumberOk(Plain(k)) && !IsFinite(NumberValue(Plain(k)))
    ensures NumberOk(Scaled(k)) && IsFinite(NumberValue(Scaled(k)))
    ensures PrintNumber(Plain(k)) <= PrintNumber(Scaled(k))
  {
    LongValue(k);
    FourHundredIsNot(k);
    assert Long(k) + [] == Long(k);
    PlainValue(k);
    ScaledValue(k);
    HundredIsFinite(k - 300);
    assert PrintNumber(Plain(k)) == Long(k);
    assert PrintNumber(Scaled(k)) == Long(k) + [LOWER_E, MINUS, 0x33, 0x30, 0x30];
  }

  lemma PlainValue(k: nat)
    requires WholeOk(Long(k)) && DigitsValue(Long(k), 10) as real == Power(10.0, k)
    ensures NumberValue(Plain(k)) == Power(10.0, k)
  {
    assert Long(k) + [] == Long(k);
    var zero := 0;
    assert Pow10(zero) == 1.0;
  }

  lemma ScaledValue(k: nat)
    requires k >= 300 && WholeOk(Long(k)) && DigitsValue(Long(k), 10) as real == Power(10.0, k)
    ensures NumberOk(Scaled(k)) && NumberValue(Scaled(k)) == Power(10.0, k - 300)
  {
    assert Long(k) + [] == Long(k);
    ThreeDigits(0x33, 0x30, 0x30);
    var m: nat := 300;
    var e := ExponentOf(Scaled(k)) - |FracOf(Scaled(k))|;
    PowerSum(10.0, k - m, m);
    PowerInverse(m);
    hide Power;
    assert e == 0 - m;
    assert NumberValue(Scaled(k)) == Power(10.0, k) * Pow10(e);
    assert Pow10(e) == Power(0.1, m);
    var a, b, c := Power(10.0, k - m), Power(10.0, m), Power(0.1, m);
    assert (a * b) * c == a * (b * c);
  }
}
