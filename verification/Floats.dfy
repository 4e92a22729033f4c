/**
 * Coordinates: the six-decimal text that the comparison and the push command
 * both print (runtime/node.go, runtime/node_ssh.go), and what is left of a
 * coordinate after it was printed, stored as text and parsed again.
 */
module Floats {
  import opened Common

  type Magnitude = r: real | r >= 0.0

  /** A floating-point number; zero keeps its sign. Rounding to a bounded mantissa is not modelled. */
  datatype Float = Finite(negative: bool, magnitude: Magnitude) | Infinite(negative: bool) | NaN

  /** The == of the source language on floats. */
  predicate IeeeEqual(a: Float, b: Float) {
    match (a, b)
    case (Finite(s, x), Finite(t, y)) => x == y && (s == t || x == 0.0)
    case (Infinite(s), Infinite(t)) => s == t
    case _ => false
  }

  /** Equality of numbers: zeros are equal whatever their sign, NaN equals nothing, all else is equal to itself only. */
  lemma IeeeEqualMeans(a: Float, b: Float)
    ensures IeeeEqual(a, b) <==>
            !a.NaN? && !b.NaN? && (a == b || (a.Finite? && b.Finite? && a.magnitude == 0.0 && b.magnitude == 0.0))
  {
  }

  const MICRO := 1000000

  /** Nearest number of millionths, ties to even. */
  function RoundMicro(m: Magnitude): nat {
    var scaled := m * 1000000.0;
    var low := scaled.Floor;
    var rest := scaled - low as real;
    if rest < 0.5 then low
    else if rest > 0.5 then low + 1
    else if low % 2 == 0 then low else low + 1
  }

  predicate IsDigits(s: string) {
    forall i | 0 <= i < |s| :: '0' <= s[i] <= '9'
  }

  /** Decimal digits of n, at least `width` of them. */
  function Digits(n: nat, width: nat): (s: string)
    ensures |s| >= width && IsDigits(s)
    decreases n, width
  {
    if n == 0 && width == 0 then ""
    else Digits(n / 10, if width == 0 then 0 else width - 1) + [(n % 10) as char + '0']
  }

  function DigitsValue(s: string): nat
    requires IsDigits(s)
  {
    if s == "" then 0
    else DigitsValue(s[..|s| - 1]) * 10 + (s[|s| - 1] as nat - '0' as nat)
  }

  /** Millionths as text: the whole part, a point, six decimals. */
  function MicroText(micro: nat): string {
    Digits(micro / MICRO, 1) + "." + Digits(micro % MICRO, 6)
  }

  function MicroOf(body: string): Option<nat> {
    if |body| < 8 then None
    else
      var whole, part := body[..|body| - 7], body[|body| - 6..];
      if body[|body| - 7] == '.' && IsDigits(whole) && IsDigits(part)
      then Some(DigitsValue(whole) * MICRO + DigitsValue(part)) else None
  }

  /** Formatting with exactly six decimals. */
  function Format6(f: Float): string {
    match f
    case NaN => "NaN"
    case Infinite(negative) => if negative then "-Inf" else "+Inf"
    case Finite(negative, m) => (if negative then "-" else "") + MicroText(RoundMicro(m))
  }

  /** The number a six-decimal text stands for. */
  function Denoted(text: string): Float {
    if text == "+Inf" then Infinite(false)
    else if text == "-Inf" then Infinite(true)
    else
      var negative := text != "" && text[0] == '-';
      match MicroOf(if negative then text[1..] else text)
      case None => NaN
      case Some(micro) => Finite(negative, micro as real / 1000000.0)
  }

  /** A float moved to the nearest millionth. */
  function Quantised(f: Float): Float {
    if f.Finite? then f.(magnitude := RoundMicro(f.magnitude) as real / 1000000.0) else f
  }

  lemma {:induction false} DigitsRoundTrip(n: nat, width: nat)
    ensures DigitsValue(Digits(n, width)) == n
    decreases n, width
  {
    if n == 0 && width == 0 {
    } else {
      var rest := if width == 0 then 0 else width - 1;
      DigitsRoundTrip(n / 10, rest);
      var s := Digits(n, width);
      assert s[..|s| - 1] == Digits(n / 10, rest);
    }
  }

  lemma {:induction false} DigitsLength(n: nat, width: nat, bound: nat)
    requires n < bound && bound == Pow10(width)
    ensures |Digits(n, width)| == width
    decreases width
  {
    if width == 0 {
    } else {
      assert n / 10 < Pow10(width - 1);
      DigitsLength(n / 10, width - 1, Pow10(width - 1));
    }
  }

  function Pow10(k: nat): nat {
    if k == 0 then 1 else 10 * Pow10(k - 1)
  }

  lemma MicroTextRoundTrip(micro: nat)
    ensures MicroOf(MicroText(micro)) == Some(micro)
    ensures '0' <= MicroText(micro)[0] <= '9'
  {
    var whole, part := Digits(micro / MICRO, 1), Digits(micro % MICRO, 6);
    assert MICRO == Pow10(6) by {
      assert Pow10(3) == 1000;
    }
    DigitsLength(micro % MICRO, 6, MICRO);
    DigitsRoundTrip(micro / MICRO, 1);
    DigitsRoundTrip(micro % MICRO, 6);
    var body := MicroText(micro);
    assert body[..|body| - 7] == whole && body[|body| - 6..] == part;
    assert body[0] == whole[0];
  }

  /** Reading back the printed text gives the float moved to the nearest millionth. */
  lemma TextDenotesQuantised(f: Float)
    ensures Denoted(Format6(f)) == Quantised(f)
  {
    if f.Finite? {
      var body := MicroText(RoundMicro(f.magnitude));
      MicroTextRoundTrip(RoundMicro(f.magnitude));
      var text := Format6(f);
      if f.negative {
        assert text[1..] == body;
        assert text[1] == body[0];
      } else {
        assert text == body;
      }
    }
  }

  /**
   * Two floats print the same text exactly when they are the same millionth
   * with the same sign; so the latitude and longitude comparison is an
   * equivalence that keeps -0 and +0 apart.
   */
  lemma SameTextIffSameMillionth(a: Float, b: Float)
    ensures Format6(a) == Format6(b) <==> Quantised(a) == Quantised(b)
  {
    TextDenotesQuantised(a);
    TextDenotesQuantised(b);
    if Quantised(a) == Quantised(b) && a.Finite? {
      var x, y := RoundMicro(a.magnitude), RoundMicro(b.magnitude);
      assert x as real / 1000000.0 * 1000000.0 == y as real / 1000000.0 * 1000000.0;
      assert x == y;
    }
  }

  /** y is within half a millionth of q, on the same side of zero when q is zero. */
  ghost predicate CloseTo(y: Float, q: Float) {
    match q
    case Finite(negative, m) =>
      && y.Finite?
      && -0.0000005 < Signed(y) - Signed(q) < 0.0000005
      && (m == 0.0 ==> y.negative == negative)
    case _ => y == q
  }

  ghost function Signed(f: Float): real
    requires f.Finite?
  {
    if f.negative then 0.0 - f.magnitude else f.magnitude
  }

  /** What is asked of the parser at the far end: its error on the printed text of f stays under half a millionth. */
  ghost predicate ReadsBack(parse: string -> Float, f: Float) {
    CloseTo(parse(Format6(f)), Quantised(f))
  }

  lemma ExactParseReadsBack(f: Float)
    ensures ReadsBack(Denoted, f)
  {
    TextDenotesQuantised(f);
  }

  /** Below this magnitude half a unit in the 53rd bit is less than half a millionth. */
  const SAFE_MAGNITUDE := 4503599627.0

  /** y is q rounded to 53 bits at worst: the sign stays, and the error is at most one part in 2^53. */
  ghost predicate RoundedToDouble(y: Float, q: Float) {
    if q.Finite? then
      && y.Finite? && y.negative == q.negative
      && 0.0 - q.magnitude <= (y.magnitude - q.magnitude) * 9007199254740992.0 <= q.magnitude
    else y == q
  }

  /** A parser that rounds to double precision is good enough for every coordinate below that magnitude. */
  lemma DoubleReadsBack(parse: string -> Float, f: Float)
    requires RoundedToDouble(parse(Format6(f)), Denoted(Format6(f)))
    requires f.Finite? ==> f.magnitude <= SAFE_MAGNITUDE - 1.0
    ensures ReadsBack(parse, f)
  {
    TextDenotesQuantised(f);
    if f.Finite? {
      assert Quantised(f).magnitude <= SAFE_MAGNITUDE;
    }
  }

  /** Rounding goes to the nearest millionth, and halfway to the even one. */
  lemma RoundMicroToEven(m: Magnitude)
    ensures var n := RoundMicro(m);
            && -0.5 <= m * 1000000.0 - n as real <= 0.5
            && ((m * 1000000.0 - n as real == 0.5 || m * 1000000.0 - n as real == -0.5) ==> n % 2 == 0)
  {
  }

  /** The text of a finite float: a sign exactly if it is negative, zero included, a whole part, a point, six decimals. */
  lemma Format6Shape(f: Float)
    requires f.Finite?
    ensures var text := Format6(f);
            && |text| >= 8 && text[|text| - 7] == '.' && IsDigits(text[|text| - 6..])
            && (f.negative <==> text[0] == '-')
            && IsDigits(text[if f.negative then 1 else 0..|text| - 7])
  {
    var micro := RoundMicro(f.magnitude);
    var whole, part := Digits(micro / MICRO, 1), Digits(micro % MICRO, 6);
    assert MICRO == Pow10(6) by {
      assert Pow10(3) == 1000;
    }
    DigitsLength(micro % MICRO, 6, MICRO);
    var sign := if f.negative then "-" else "";
    var text := Format6(f);
    assert text == sign + (whole + "." + part);
    assert text[|text| - 6..] == part && text[|sign|..|text| - 7] == whole;
    assert text[0] == if f.negative then '-' else whole[0];
  }

  lemma RoundMicroNearest(m: Magnitude, n: nat)
    requires -0.5 < m * 1000000.0 - n as real < 0.5
    ensures RoundMicro(m) == n
  {
  }

  /** Print, store, parse with a small error, print again: the same text. */
  lemma LocationRoundTrip(parse: string -> Float, f: Float)
    requires ReadsBack(parse, f)
    ensures Format6(parse(Format6(f))) == Format6(f)
  {
    var q, y := Quantised(f), parse(Format6(f));
    if f.Finite? {
      var n := RoundMicro(f.magnitude);
      assert q.magnitude * 1000000.0 == n as real;
      if n != 0 {
        assert q.magnitude >= 0.000001;
        assert y.negative == f.negative;
      }
      RoundMicroNearest(y.magnitude, n);
    }
  }
}
