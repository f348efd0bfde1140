/**
 * Runtime values of the language and their textual forms.
 * Numbers are exact reals rather than IEEE doubles.
 */
module LoxValues {
  import opened Strings

  /** A runtime value; `Nil` is the Java `null` the interpreter uses for nil. */
  datatype Value = Nil | Bool(b: bool) | Num(n: real) | Str(s: string)

  predicate IsDigit(c: char) { '0' <= c <= '9' }

  function DigitChar(d: nat): (c: char)
    requires d < 10
    ensures IsDigit(c)
  {
    "0123456789"[d]
  }

  /** Decimal digits of a natural number, most significant first. */
  function NatText(n: nat): (s: string)
    ensures |s| > 0
    ensures forall i :: 0 <= i < |s| ==> IsDigit(s[i])
  {
    if n < 10 then [DigitChar(n)] else NatText(n / 10) + [DigitChar(n % 10)]
  }

  /** At most `k` decimal digits of a fraction `0 <= f < 1`, stopping once the rest is zero. */
  function FractionDigits(f: real, k: nat): (s: string)
    requires 0.0 <= f < 1.0
    ensures |s| <= k
    ensures forall i :: 0 <= i < |s| ==> IsDigit(s[i])
    decreases k
  {
    if k == 0 || f == 0.0 then ""
    else
      var d := (f * 10.0).Floor;
      [DigitChar(d)] + FractionDigits(f * 10.0 - d as real, k - 1)
  }

  /**
   * The text Java's Double.toString gives a number, in the plain notation only:
   * a whole number keeps a trailing ".0" and a fraction shows at most 16 digits.
   */
  function DoubleText(x: real): (s: string)
    ensures |s| >= 3
  {
    if x < 0.0 then "-" + UnsignedText(-x) else UnsignedText(x)
  }

  function UnsignedText(m: real): (s: string)
    requires m >= 0.0
    ensures |s| >= 3
  {
    var w := m.Floor;
    if m == w as real then NatText(w) + ".0"
    else
      var frac := FractionDigits(m - w as real, 16);
      NatText(w) + "." + (if frac == "" then "0" else frac)
  }

  /** Java's toString of a non-null value. */
  function JavaText(v: Value): string
    requires !v.Nil?
  {
    match v
    case Bool(b) => if b then "true" else "false"
    case Num(x) => DoubleText(x)
    case Str(s) => s
  }

  /** Display form of a value: "nil" for nil and whole numbers without their ".0". */
  function Stringify(v: Value): (s: string)
    ensures v.Nil? ==> s == "nil"
    ensures v.Str? ==> s == v.s
  {
    if v.Nil? then "nil"
    else
      var text := JavaText(v);
      if v.Num? && EndsWith(text, ".0") then text[..|text| - 2] else text
  }

  lemma StripPointZero(p: string)
    ensures EndsWith(p + ".0", ".0") && (p + ".0")[..|p + ".0"| - 2] == p
  {
    var t := p + ".0";
    assert t[|t| - 2..] == ".0";
    assert t[..|t| - 2] == p;
  }

  lemma UnsignedWholeText(n: nat)
    ensures UnsignedText(n as real) == NatText(n) + ".0"
  {
    assert (n as real).Floor == n;
  }

  /** Java's text of a whole number: its integer digits, a sign when negative, and ".0". */
  lemma DoubleWholeText(k: int)
    ensures DoubleText(k as real) == (if k < 0 then "-" + NatText(-k) else NatText(k)) + ".0"
  {
    if k < 0 {
      assert -(k as real) == (-k) as real;
      UnsignedWholeText(-k);
      assert "-" + (NatText(-k) + ".0") == ("-" + NatText(-k)) + ".0";
    } else {
      UnsignedWholeText(k);
    }
  }

  /** A whole number is displayed as its integer digits, with no ".0". */
  lemma WholeNumberText(k: int)
    ensures Stringify(Num(k as real)) == if k < 0 then "-" + NatText(-k) else NatText(k)
  {
    var p := if k < 0 then "-" + NatText(-k) else NatText(k);
    DoubleWholeText(k);
    assert JavaText(Num(k as real)) == p + ".0";
    StripPointZero(p);
  }
}
