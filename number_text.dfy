/** Decimal text of numbers as JavaScript writes it: `toString` of an integral
    Number, `toFixed(2)` (section 21.1.3.3 of ECMA-262) and the replacement
    `/\.?0+$/ -> ''` that the quantity formatters apply to its result. Each is
    paired with a reader that takes the text back to its value. */
module NumberText {
  import opened Options

  predicate IsDigit(c: char)
  {
    '0' <= c <= '9'
  }

  predicate AllDigits(s: string)
  {
    forall i :: 0 <= i < |s| ==> IsDigit(s[i])
  }

  /** Number.isInteger, for a finite Number. */
  predicate IsInteger(x: real)
  {
    x.Floor as real == x
  }

  function Digit(d: nat): (c: char)
    requires d < 10
    ensures IsDigit(c) && c as int - '0' as int == d
  {
    ('0' as int + d) as char
  }

  /** The decimal digits of n, most significant first, without leading zeros. */
  function NatText(n: nat): (s: string)
    ensures |s| >= 1 && AllDigits(s)
    ensures (s[0] == '0') == (n == 0)
    ensures n == 0 ==> s == "0"
    decreases n
  {
    if n < 10 then [Digit(n)] else NatText(n / 10) + [Digit(n % 10)]
  }

  /** `toString` of an integral Number (below 1e21, where no exponent is used). */
  function IntText(n: int): (s: string)
    ensures |s| >= 1
    ensures forall i :: 0 <= i < |s| ==> IsDigit(s[i]) || (i == 0 && s[i] == '-')
    ensures (s[0] == '-') == (n < 0)
  {
    if n < 0 then "-" + NatText(-n) else NatText(n)
  }

  /** The value of a string of decimal digits. */
  function DigitsValue(s: string): nat
    requires AllDigits(s)
  {
    if s == [] then 0 else 10 * DigitsValue(s[..|s| - 1]) + (s[|s| - 1] as int - '0' as int)
  }

  function ReadNat(s: string): Option<nat>
  {
    if |s| > 0 && AllDigits(s) then Some(DigitsValue(s)) else None
  }

  function ReadInt(s: string): Option<int>
  {
    if |s| > 0 && s[0] == '-' then
      match ReadNat(s[1..])
      case Some(v) => var n: int := v; Some(-n)
      case None => None
    else
      match ReadNat(s)
      case Some(v) => Some(v)
      case None => None
  }

  lemma {:induction false} NatTextValue(n: nat)
    ensures ReadNat(NatText(n)) == Some(n)
    decreases n
  {
    var s := NatText(n);
    if n >= 10 {
      NatTextValue(n / 10);
      assert s[..|s| - 1] == NatText(n / 10);
      assert DigitsValue(s) == 10 * (n / 10) + n % 10;
    } else {
      assert s[..0] == [];
      assert DigitsValue(s) == n;
    }
  }

  /** The text of an integer reads back as that integer. */
  lemma IntTextRoundTrip(n: int)
    ensures ReadInt(IntText(n)) == Some(n)
  {
    if n < 0 {
      NatTextValue(-n);
      assert IntText(n)[1..] == NatText(-n);
    } else {
      NatTextValue(n);
    }
  }

  /** The number of leading decimal digits of s. */
  function DigitRun(s: string): (p: nat)
    ensures p <= |s| && AllDigits(s[..p])
    ensures p < |s| ==> !IsDigit(s[p])
  {
    if |s| > 0 && IsDigit(s[0]) then
      var p := 1 + DigitRun(s[1..]);
      assert s[..p] == [s[0]] + s[1..][..p - 1];
      p
    else 0
  }

  lemma {:induction false} DigitRunConcat(a: string, b: string)
    requires AllDigits(a)
    requires b == [] || !IsDigit(b[0])
    ensures DigitRun(a + b) == |a|
    decreases |a|
  {
    if a != [] {
      assert (a + b)[1..] == a[1..] + b;
      DigitRunConcat(a[1..], b);
    }
  }

  // ---------------------------------------------------------------------
  // toFixed(2) followed by replace(/\.?0+$/, '')
  // ---------------------------------------------------------------------

  /** The integer k that toFixed(2) chooses for x >= 0: k / 100 is the
      hundredth closest to x, and the larger one when two are equally close. */
  function Hundredths(x: real): (k: nat)
    requires x >= 0.0
    ensures -0.5 < k as real - 100.0 * x <= 0.5
  {
    (100.0 * x + 0.5).Floor
  }

  function Magnitude(x: real): real
  {
    if x < 0.0 then -x else x
  }

  /** x.toFixed(2): a minus sign for negative x, then the digits of the
      closest hundredth of |x| with exactly two after the point. */
  function ToFixed2(x: real): string
  {
    var k := Hundredths(Magnitude(x));
    (if x < 0.0 then "-" else "") + NatText(k / 100) + "." + [Digit(k % 100 / 10), Digit(k % 10)]
  }

  /** Length of the run of '0' characters that ends s. */
  function TrailingZeros(s: string): (z: nat)
    ensures z <= |s|
  {
    if |s| > 0 && s[|s| - 1] == '0' then 1 + TrailingZeros(s[..|s| - 1]) else 0
  }

  /** s.replace(/\.?0+$/, ''): the leftmost match of an optional point followed
      by zeros up to the end is the whole trailing run of zeros, together with
      the point just before it when there is one. */
  function StripZeros(s: string): string
  {
    var z := TrailingZeros(s);
    var start := |s| - z;
    if z == 0 then s
    else if start > 0 && s[start - 1] == '.' then s[..start - 1]
    else s[..start]
  }

  /** Reference text of k / 100 with no redundant zero: the whole part, then
      one or two decimals when the hundredths are not zero. */
  function HundredthsText(k: nat): string
  {
    var c := k % 100;
    NatText(k / 100)
      + (if c == 0 then ""
         else if c % 10 == 0 then "." + [Digit(c / 10)]
         else "." + [Digit(c / 10), Digit(c % 10)])
  }

  /** What the formatters print when no fraction glyph applies. */
  function DecimalText(x: real): string
  {
    StripZeros(ToFixed2(x))
  }

  /** The regular expression removes exactly the redundant zeros of toFixed(2). */
  lemma DecimalTextCanonical(x: real)
    ensures DecimalText(x) == (if x < 0.0 then "-" else "") + HundredthsText(Hundredths(Magnitude(x)))
  {
    var k := Hundredths(Magnitude(x));
    var c := k % 100;
    var p := (if x < 0.0 then "-" else "") + NatText(k / 100);
    assert ToFixed2(x) == p + "." + [Digit(c / 10), Digit(k % 10)];
    assert k % 10 == c % 10;
    StripTwoDigits(p, Digit(c / 10), Digit(k % 10));
  }

  /** The regular expression on a text ending in a point and two digits. */
  lemma StripTwoDigits(p: string, d1: char, d2: char)
    requires IsDigit(d1) && IsDigit(d2)
    ensures StripZeros(p + "." + [d1, d2]) ==
      if d2 != '0' then p + "." + [d1, d2] else if d1 != '0' then p + "." + [d1] else p
  {
    var s := p + "." + [d1, d2];
    if d2 == '0' {
      assert s[..|s| - 1] == p + "." + [d1];
      if d1 == '0' {
        var s1 := s[..|s| - 1];
        assert s1[..|s1| - 1] == p + ".";
        assert TrailingZeros(s1[..|s1| - 1]) == 0;
        assert TrailingZeros(s) == 2;
        assert s[..|s| - 3] == p;
      } else {
        assert TrailingZeros(s[..|s| - 1]) == 0;
      }
    }
  }

  function Pow10(n: nat): (p: nat)
    ensures p >= 1
  {
    if n == 0 then 1 else 10 * Pow10(n - 1)
  }

  /** m / 10^d */
  function Scaled(m: nat, d: nat): real
  {
    m as real / Pow10(d) as real
  }

  /** Reads "digits" or "digits.digits", optionally after a minus sign. */
  function ReadDecimal(s: string): Option<real>
  {
    if |s| > 0 && s[0] == '-' then
      match ReadUnsignedDecimal(s[1..])
      case Some(v) => Some(-v)
      case None => None
    else ReadUnsignedDecimal(s)
  }

  function ReadUnsignedDecimal(s: string): Option<real>
  {
    var p := DigitRun(s);
    if p == 0 then None
    else if p == |s| then Some(DigitsValue(s) as real)
    else ReadFraction(s[..p], s[p..])
  }

  /** The value of whole digits followed by ".digits". */
  function ReadFraction(whole: string, rest: string): Option<real>
    requires AllDigits(whole)
  {
    if |rest| >= 2 && rest[0] == '.' && AllDigits(rest[1..]) then
      Some(DigitsValue(whole) as real + Scaled(DigitsValue(rest[1..]), |rest| - 1))
    else None
  }

  lemma ReadPointed(ws: string, f: string)
    requires |ws| >= 1 && AllDigits(ws)
    requires |f| >= 1 && AllDigits(f)
    ensures ReadUnsignedDecimal(ws + "." + f) == Some(DigitsValue(ws) as real + Scaled(DigitsValue(f), |f|))
  {
    assert ws + "." + f == ws + ("." + f);
    ReadSplit(ws, "." + f);
    ReadFractionValue(ws, f);
  }

  /** Digits followed by a non-digit: the digits are the whole part and the
      rest is read as the fraction. */
  lemma ReadSplit(ws: string, rest: string)
    requires |ws| >= 1 && AllDigits(ws)
    requires |rest| >= 1 && !IsDigit(rest[0])
    ensures ReadUnsignedDecimal(ws + rest) == ReadFraction(ws, rest)
  {
    var s := ws + rest;
    DigitRunConcat(ws, rest);
    assert s[..|ws|] == ws;
    assert s[|ws|..] == rest;
  }

  lemma ReadFractionValue(ws: string, f: string)
    requires AllDigits(ws)
    requires |f| >= 1 && AllDigits(f)
    ensures ReadFraction(ws, "." + f) == Some(DigitsValue(ws) as real + Scaled(DigitsValue(f), |f|))
  {
    assert ("." + f)[1..] == f;
  }

  lemma HundredthsTextValue(k: nat)
    ensures ReadUnsignedDecimal(HundredthsText(k)) == Some(k as real / 100.0)
  {
    var w, c := k / 100, k % 100;
    var ws := NatText(w);
    NatTextValue(w);
    assert DigitsValue(ws) == w;
    assert k == 100 * w + c;
    if c == 0 {
      WholeHundredthsValue(k);
    } else if c % 10 == 0 {
      var f := [Digit(c / 10)];
      assert HundredthsText(k) == ws + "." + f;
      ReadPointed(ws, f);
      OneDecimalValue(w, c);
    } else {
      var f := [Digit(c / 10), Digit(c % 10)];
      assert HundredthsText(k) == ws + "." + f;
      ReadPointed(ws, f);
      TwoDecimalsValue(w, c);
    }
  }

  lemma WholeHundredthsValue(k: nat)
    requires k % 100 == 0
    ensures ReadUnsignedDecimal(HundredthsText(k)) == Some(k as real / 100.0)
  {
    WholeHundredthsText(k);
    NatTextValue(k / 100);
    ReadWhole(NatText(k / 100));
  }

  lemma WholeHundredthsText(k: nat)
    requires k % 100 == 0
    ensures HundredthsText(k) == NatText(k / 100)
    ensures k as real / 100.0 == (k / 100) as real
  {
    assert k == 100 * (k / 100);
  }

  /** Digits with no point read as their value. */
  lemma ReadWhole(s: string)
    requires |s| >= 1 && AllDigits(s)
    ensures ReadUnsignedDecimal(s) == Some(DigitsValue(s) as real)
  {
    DigitRunConcat(s, []);
    assert s + [] == s;
  }

  lemma OneDecimalValue(w: nat, c: nat)
    requires 0 < c < 100 && c % 10 == 0
    ensures DigitsValue(NatText(w)) as real + Scaled(DigitsValue([Digit(c / 10)]), 1) == (100 * w + c) as real / 100.0
  {
    NatTextValue(w);
    var f := [Digit(c / 10)];
    assert f[..0] == [];
    assert DigitsValue(f) == c / 10;
    assert c == 10 * (c / 10);
    assert Pow10(1) == 10;
  }

  lemma TwoDecimalsValue(w: nat, c: nat)
    requires 0 < c < 100
    ensures DigitsValue(NatText(w)) as real + Scaled(DigitsValue([Digit(c / 10), Digit(c % 10)]), 2) == (100 * w + c) as real / 100.0
  {
    NatTextValue(w);
    var f := [Digit(c / 10), Digit(c % 10)];
    assert f[..1] == [Digit(c / 10)];
    assert f[..1][..0] == [];
    assert DigitsValue(f[..1]) == c / 10;
    assert DigitsValue(f) == 10 * (c / 10) + c % 10 == c;
    assert Pow10(2) == 100;
  }

  lemma HundredthsTextShape(k: nat)
    ensures var h := HundredthsText(k); |h| >= 1 && h[|h| - 1] != '.' && ('.' in h ==> h[|h| - 1] != '0')
  {
    var c := k % 100;
    var ws := NatText(k / 100);
    if c == 0 {
      assert HundredthsText(k) == ws;
      assert !IsDigit('.');
    }
  }

  /** The fallback text reads back as x rounded to hundredths (half away
      from zero). */
  lemma DecimalTextValue(x: real)
    ensures var k := Hundredths(Magnitude(x));
            ReadDecimal(DecimalText(x)) == Some(if x < 0.0 then -(k as real / 100.0) else k as real / 100.0)
  {
    DecimalTextCanonical(x);
    SignedHundredthsValue(x < 0.0, Hundredths(Magnitude(x)));
  }

  lemma SignedHundredthsValue(negative: bool, k: nat)
    ensures ReadDecimal((if negative then "-" else "") + HundredthsText(k)) ==
      Some(if negative then -(k as real / 100.0) else k as real / 100.0)
  {
    var h := HundredthsText(k);
    HundredthsTextValue(k);
    HundredthsTextLead(k);
    ReadSigned(h);
    if !negative {
      assert "" + h == h;
    }
  }

  lemma HundredthsTextLead(k: nat)
    ensures |HundredthsText(k)| >= 1 && IsDigit(HundredthsText(k)[0])
  {
    assert HundredthsText(k)[0] == NatText(k / 100)[0];
  }

  /** A leading minus sign negates what follows; without one, the text is
      read unsigned. */
  lemma ReadSigned(h: string)
    requires |h| >= 1 && IsDigit(h[0])
    ensures ReadDecimal(h) == ReadUnsignedDecimal(h)
    ensures ReadUnsignedDecimal(h).Some? ==> ReadDecimal("-" + h) == Some(-ReadUnsignedDecimal(h).value)
  {
    assert ("-" + h)[1..] == h;
  }

  /** The fallback text never ends in a point, and once it has a point it
      never ends in a zero. */
  lemma DecimalTextShape(x: real)
    ensures var s := DecimalText(x); |s| >= 1 && s[|s| - 1] != '.' && ('.' in s ==> s[|s| - 1] != '0')
  {
    var k := Hundredths(Magnitude(x));
    var h := HundredthsText(k);
    DecimalTextCanonical(x);
    HundredthsTextShape(k);
    if x < 0.0 {
      var s := "-" + h;
      assert s[|s| - 1] == h[|h| - 1];
      assert '.' in s ==> '.' in h;
    }
  }
}
