/** js/utils.js: the shared quantity formatter with its fraction table,
    the duration formatter and the tag colour hash. */
module Utils {
  import opened Options
  import opened NumberText

  // ---------------------------------------------------------------------
  // Fraction glyphs
  // ---------------------------------------------------------------------

  /** Decimal keys with their Unicode vulgar-fraction glyphs, in the order
      Object.entries enumerates them (the keys are not array indices, so
      this is the order in which they are written). */
  type FractionTable = seq<(real, string)>

  const FRACTIONS: FractionTable := [
    (0.125, "\U{215B}"),
    (0.25, "\U{00BC}"),
    (0.333, "\U{2153}"),
    (0.375, "\U{215C}"),
    (0.5, "\U{00BD}"),
    (0.625, "\U{215D}"),
    (0.666, "\U{2154}"),
    (0.75, "\U{00BE}"),
    (0.875, "\U{215E}")
  ]

  /** A glyph is used only when the fractional part is strictly closer than this. */
  const TOLERANCE: real := 0.05

  /** The distance scanned for: Math.abs(frac - key). */
  function Distance(a: real, b: real): real
  {
    if a >= b then a - b else b - a
  }

  /** The scan of the fraction table from entry i on, where minDiff and
      chosen are the values the loop variables minDiff and closestFrac have
      reached before entry i: an entry replaces the current choice only when
      it is strictly closer, so on equal distance the earlier entry stays. */
  function ScanFrom(table: FractionTable, frac: real, i: nat, minDiff: real, chosen: Option<nat>): (r: Option<nat>)
    requires i <= |table|
    requires chosen.Some? ==> chosen.value < i
    ensures r.Some? ==> r.value < |table|
    decreases |table| - i
  {
    if i == |table| then chosen
    else
      var diff := Distance(frac, table[i].0);
      if diff < minDiff && diff < TOLERANCE then ScanFrom(table, frac, i + 1, diff, Some(i))
      else ScanFrom(table, frac, i + 1, minDiff, chosen)
  }

  /** The entry the scan settles on, starting from minDiff = 1 and no choice. */
  function Nearest(table: FractionTable, frac: real): (r: Option<nat>)
    ensures r.Some? ==> r.value < |table|
  {
    ScanFrom(table, frac, 0, 1.0, None)
  }

  /** r is the earliest entry at the smallest distance, that distance being
      below the tolerance; None when no entry is within the tolerance. */
  ghost predicate IsNearest(table: FractionTable, frac: real, r: Option<nat>)
  {
    match r
    case None =>
      forall j :: 0 <= j < |table| ==> Distance(frac, table[j].0) >= TOLERANCE
    case Some(k) =>
      && k < |table|
      && Distance(frac, table[k].0) < TOLERANCE
      && (forall j :: 0 <= j < |table| ==> Distance(frac, table[k].0) <= Distance(frac, table[j].0))
      && (forall j :: 0 <= j < k ==> Distance(frac, table[k].0) < Distance(frac, table[j].0))
  }

  /** What the scan knows about the entries before i. */
  ghost predicate ScanState(table: FractionTable, frac: real, i: nat, minDiff: real, chosen: Option<nat>)
    requires i <= |table|
  {
    match chosen
    case None =>
      minDiff >= TOLERANCE && forall j :: 0 <= j < i ==> Distance(frac, table[j].0) >= TOLERANCE
    case Some(k) =>
      && k < i
      && minDiff == Distance(frac, table[k].0) < TOLERANCE
      && (forall j :: 0 <= j < i ==> Distance(frac, table[k].0) <= Distance(frac, table[j].0))
      && (forall j :: 0 <= j < k ==> Distance(frac, table[k].0) < Distance(frac, table[j].0))
  }

  lemma {:induction false} ScanFromIsNearest(table: FractionTable, frac: real, i: nat, minDiff: real, chosen: Option<nat>)
    requires i <= |table|
    requires chosen.Some? ==> chosen.value < i
    requires ScanState(table, frac, i, minDiff, chosen)
    ensures IsNearest(table, frac, ScanFrom(table, frac, i, minDiff, chosen))
    decreases |table| - i
  {
    if i < |table| {
      var diff := Distance(frac, table[i].0);
      if diff < minDiff && diff < TOLERANCE {
        ScanFromIsNearest(table, frac, i + 1, diff, Some(i));
      } else {
        ScanFromIsNearest(table, frac, i + 1, minDiff, chosen);
      }
    }
  }

  /** The scan finds the nearest entry within the tolerance, the earliest one
      on a tie, and nothing when every entry is at least the tolerance away. */
  lemma NearestIsNearest(table: FractionTable, frac: real)
    ensures IsNearest(table, frac, Nearest(table, frac))
  {
    ScanFromIsNearest(table, frac, 0, 1.0, None);
  }

  /** At most one answer meets IsNearest: the tie-break makes it determined. */
  lemma NearestIsUnique(table: FractionTable, frac: real, r1: Option<nat>, r2: Option<nat>)
    requires IsNearest(table, frac, r1) && IsNearest(table, frac, r2)
    ensures r1 == r2
  {
  }

  /** The loop of formatSingle over the table, updating minDiff and the choice. */
  method ClosestFraction(table: FractionTable, frac: real) returns (chosen: Option<nat>)
    ensures chosen == Nearest(table, frac)
    ensures IsNearest(table, frac, chosen)
  {
    var minDiff := 1.0;
    chosen := None;
    var i: nat := 0;
    while i < |table|
      invariant i <= |table|
      invariant chosen.Some? ==> chosen.value < i
      invariant ScanFrom(table, frac, i, minDiff, chosen) == Nearest(table, frac)
    {
      var diff := Distance(frac, table[i].0);
      if diff < minDiff && diff < TOLERANCE {
        minDiff := diff;
        chosen := Some(i);
      }
      i := i + 1;
    }
    NearestIsNearest(table, frac);
  }

  // ---------------------------------------------------------------------
  // formatQuantity
  // ---------------------------------------------------------------------

  /** The text of a whole part w followed by a glyph: `${whole}${glyph}`
      when whole > 0, else the glyph alone. */
  function GlyphText(whole: int, glyph: string): string
  {
    if whole > 0 then IntText(whole) + glyph else glyph
  }

  /** formatSingle(n), the inner arrow function of formatQuantity. */
  function SingleText(n: real): string
  {
    if IsInteger(n) then IntText(n.Floor)
    else
      var whole := n.Floor;
      match Nearest(FRACTIONS, n - whole as real)
      case Some(k) => GlyphText(whole, FRACTIONS[k].1)
      case None => DecimalText(n)
  }

  /** formatQuantity(num, unit, numMax). */
  function QuantityText(num: Option<real>, unit: Option<string>, numMax: Option<real>): string
  {
    if num.None? then ""
    else
      var result :=
        if numMax.Some? && numMax.value != num.value then SingleText(num.value) + "\U{2013}" + SingleText(numMax.value)
        else SingleText(num.value);
      if IsTruthy(unit) then result + " " + unit.value else result
  }

  method FormatSingle(n: real) returns (s: string)
    ensures s == SingleText(n)
  {
    if IsInteger(n) {
      return IntText(n.Floor);
    }
    var whole := n.Floor;
    var frac := n - whole as real;
    var closest := ClosestFraction(FRACTIONS, frac);
    if closest.Some? {
      s := if whole > 0 then IntText(whole) + FRACTIONS[closest.value].1 else FRACTIONS[closest.value].1;
    } else {
      s := StripZeros(ToFixed2(n));
    }
  }

  method FormatQuantity(num: Option<real>, unit: Option<string>, numMax: Option<real>) returns (s: string)
    ensures s == QuantityText(num, unit, numMax)
  {
    if num.None? {
      return "";
    }
    var result;
    if numMax.Some? && numMax.value != num.value {
      var lo := FormatSingle(num.value);
      var hi := FormatSingle(numMax.value);
      result := lo + "\U{2013}" + hi;
    } else {
      result := FormatSingle(num.value);
    }
    s := if IsTruthy(unit) then result + " " + unit.value else result;
  }

  /** An integer quantity prints as its decimal digits, possibly after a
      minus sign, and reads back as itself: no glyph and no decimal point. */
  lemma IntegerQuantityText(n: real)
    requires IsInteger(n)
    ensures var s := SingleText(n);
            && s == IntText(n.Floor)
            && ReadInt(s) == Some(n.Floor) && n.Floor as real == n
            && forall i :: 0 <= i < |s| ==> IsDigit(s[i]) || (i == 0 && s[i] == '-')
  {
    IntTextRoundTrip(n.Floor);
  }

  /** When the k-th key is the nearest one within the tolerance (the
      earliest such on a tie), the quantity prints as its whole part, when
      positive, followed by the k-th glyph. */
  lemma GlyphQuantityText(n: real, k: nat)
    requires !IsInteger(n) && k < |FRACTIONS|
    requires var frac := n - n.Floor as real;
             && Distance(frac, FRACTIONS[k].0) < TOLERANCE
             && (forall j :: 0 <= j < |FRACTIONS| ==> Distance(frac, FRACTIONS[k].0) <= Distance(frac, FRACTIONS[j].0))
             && (forall j :: 0 <= j < k ==> Distance(frac, FRACTIONS[k].0) < Distance(frac, FRACTIONS[j].0))
    ensures SingleText(n) == GlyphText(n.Floor, FRACTIONS[k].1)
    ensures n.Floor > 0 ==> SingleText(n) == IntText(n.Floor) + FRACTIONS[k].1
    ensures n.Floor <= 0 ==> SingleText(n) == FRACTIONS[k].1
  {
    var frac := n - n.Floor as real;
    NearestIsNearest(FRACTIONS, frac);
    assert IsNearest(FRACTIONS, frac, Some(k));
    NearestIsUnique(FRACTIONS, frac, Nearest(FRACTIONS, frac), Some(k));
  }

  /** When no key is within the tolerance, the quantity prints as the nearest
      hundredth with trailing zeros and a trailing point removed. */
  lemma DecimalQuantityText(n: real)
    requires !IsInteger(n)
    requires forall j :: 0 <= j < |FRACTIONS| ==> Distance(n - n.Floor as real, FRACTIONS[j].0) >= TOLERANCE
    ensures SingleText(n) == DecimalText(n)
    ensures var k := Hundredths(Magnitude(n));
            ReadDecimal(SingleText(n)) == Some(if n < 0.0 then -(k as real / 100.0) else k as real / 100.0)
    ensures var s := SingleText(n); |s| >= 1 && s[|s| - 1] != '.' && ('.' in s ==> s[|s| - 1] != '0')
  {
    var frac := n - n.Floor as real;
    NearestIsNearest(FRACTIONS, frac);
    NearestIsUnique(FRACTIONS, frac, Nearest(FRACTIONS, frac), None);
    DecimalTextValue(n);
    DecimalTextShape(n);
  }

  predicate NoSeparator(s: string)
  {
    ' ' !in s && '\U{2013}' !in s
  }

  lemma DigitsHaveNoSeparator(s: string)
    requires forall i :: 0 <= i < |s| ==> IsDigit(s[i]) || s[i] == '-' || s[i] == '.'
    ensures NoSeparator(s)
  {
  }

  lemma HundredthsTextChars(k: nat)
    ensures var s := HundredthsText(k); forall i :: 0 <= i < |s| ==> IsDigit(s[i]) || s[i] == '.'
  {
  }

  lemma GlyphHasNoSeparator(k: nat)
    requires k < |FRACTIONS|
    ensures NoSeparator(FRACTIONS[k].1)
  {
    var g := FRACTIONS[k].1;
    assert |g| == 1 && g[0] > '\U{00BB}';
    assert g == [g[0]];
  }

  /** A single quantity never contains a space or an en dash, so both mark
      the boundaries of the range and of the unit in the full text. */
  lemma SingleTextHasNoSeparator(n: real)
    ensures NoSeparator(SingleText(n))
  {
    if IsInteger(n) {
      DigitsHaveNoSeparator(IntText(n.Floor));
    } else {
      var r := Nearest(FRACTIONS, n - n.Floor as real);
      if r.Some? {
        GlyphHasNoSeparator(r.value);
        GlyphTextHasNoSeparator(n.Floor, FRACTIONS[r.value].1);
      } else {
        DecimalTextHasNoSeparator(n);
      }
    }
  }

  lemma GlyphTextHasNoSeparator(whole: int, glyph: string)
    requires NoSeparator(glyph)
    ensures NoSeparator(GlyphText(whole, glyph))
  {
    if whole > 0 {
      DigitsHaveNoSeparator(IntText(whole));
    }
  }

  lemma DecimalTextHasNoSeparator(x: real)
    ensures NoSeparator(DecimalText(x))
  {
    DecimalTextCanonical(x);
    HundredthsTextChars(Hundredths(Magnitude(x)));
    DigitsHaveNoSeparator((if x < 0.0 then "-" else "") + HundredthsText(Hundredths(Magnitude(x))));
  }

  /** The shape of formatQuantity's text: the empty string for a missing
      quantity; otherwise the single value, or the two values of a range
      joined by an en dash exactly when a distinct maximum is given,
      followed by one space and the unit exactly when the unit is truthy. */
  lemma QuantityTextShape(num: Option<real>, unit: Option<string>, numMax: Option<real>)
    ensures num.None? ==> QuantityText(num, unit, numMax) == ""
    ensures num.Some? ==>
      var isRange := numMax.Some? && numMax.value != num.value;
      var body := if isRange then SingleText(num.value) + "\U{2013}" + SingleText(numMax.value) else SingleText(num.value);
      var r := QuantityText(num, unit, numMax);
      && ' ' !in body
      && ('\U{2013}' in body <==> isRange)
      && r[..|body|] == body
      && (IsTruthy(unit) ==> r[|body|..] == " " + unit.value)
      && (!IsTruthy(unit) ==> r == body)
  {
    if num.Some? {
      var n := num.value;
      SingleTextHasNoSeparator(n);
      if numMax.Some? && numMax.value != n {
        SingleTextHasNoSeparator(numMax.value);
        RangeSeparators(SingleText(n), SingleText(numMax.value));
      }
    }
  }

  lemma RangeSeparators(a: string, b: string)
    requires NoSeparator(a) && NoSeparator(b)
    ensures ' ' !in a + "\U{2013}" + b
    ensures '\U{2013}' in a + "\U{2013}" + b
  {
    assert (a + "\U{2013}" + b)[|a|] == '\U{2013}';
  }

  // ---------------------------------------------------------------------
  // formatTime
  // ---------------------------------------------------------------------

  /** formatTime(minutes), for a whole number of minutes. */
  function FormatTime(minutes: int): string
  {
    if minutes < 60 then IntText(minutes) + " min"
    else
      var hours := minutes / 60;
      var mins := minutes % 60;
      if mins == 0 then IntText(hours) + "h" else IntText(hours) + "h " + IntText(mins) + "m"
  }

  /** Reads "M min", "Hh" or "Hh Mm" back as a number of minutes. */
  function ReadTime(s: string): Option<int>
  {
    if |s| >= 4 && s[|s| - 4..] == " min" then ReadInt(s[..|s| - 4])
    else if |s| >= 1 && s[|s| - 1] == 'h' then
      match ReadNat(s[..|s| - 1])
      case Some(h) => Some(60 * h)
      case None => None
    else if |s| >= 1 && s[|s| - 1] == 'm' then ReadHoursMinutes(s[..|s| - 1])
    else None
  }

  /** Reads "Hh M". */
  function ReadHoursMinutes(t: string): Option<int>
  {
    var p := DigitRun(t);
    if p + 2 <= |t| && t[p..p + 2] == "h " then
      match (ReadNat(t[..p]), ReadNat(t[p + 2..]))
      case (Some(h), Some(m)) => Some(60 * h + m)
      case _ => None
    else None
  }

  /** Minutes below an hour print as "M min"; otherwise as whole hours "Hh",
      or "Hh Mm" with 0 < M < 60 when minutes remain, and H * 60 + M is the
      input. */
  lemma FormatTimeShape(minutes: int)
    ensures minutes < 60 ==> FormatTime(minutes) == IntText(minutes) + " min"
    ensures minutes >= 60 ==>
      exists h: nat, m: nat :: h >= 1 && m < 60 && h * 60 + m == minutes
        && FormatTime(minutes) == (if m == 0 then NatText(h) + "h" else NatText(h) + "h " + NatText(m) + "m")
  {
    if minutes >= 60 {
      var h: nat, m: nat := minutes / 60, minutes % 60;
      assert IntText(h) == NatText(h) && IntText(m) == NatText(m);
      assert h >= 1 && m < 60 && h * 60 + m == minutes
        && FormatTime(minutes) == (if m == 0 then NatText(h) + "h" else NatText(h) + "h " + NatText(m) + "m");
    }
  }

  /** Every duration text reads back as its number of minutes, so distinct
      durations never print alike. */
  lemma FormatTimeRoundTrip(minutes: int)
    ensures ReadTime(FormatTime(minutes)) == Some(minutes)
  {
    if minutes < 60 {
      ReadMinutesText(minutes);
    } else {
      var h: nat, m: nat := minutes / 60, minutes % 60;
      assert IntText(h) == NatText(h) && IntText(m) == NatText(m);
      if m == 0 {
        ReadHoursText(h);
      } else {
        ReadHoursMinutesText(h, m);
      }
    }
  }

  lemma ReadMinutesText(m: int)
    ensures ReadTime(IntText(m) + " min") == Some(m)
  {
    var t := IntText(m);
    var s := t + " min";
    assert s[..|s| - 4] == t && s[|s| - 4..] == " min";
    IntTextRoundTrip(m);
  }

  lemma ReadHoursText(h: nat)
    ensures ReadTime(NatText(h) + "h") == Some(60 * h)
  {
    var hs := NatText(h);
    var s := hs + "h";
    NatTextValue(h);
    assert s[|s| - 1] == 'h';
    assert !(|s| >= 4 && s[|s| - 4..] == " min") by {
      if |s| >= 4 { assert s[|s| - 4..][3] == s[|s| - 1]; }
    }
    assert s[..|s| - 1] == hs;
  }

  lemma ReadHoursMinutesText(h: nat, m: nat)
    requires m > 0
    ensures ReadTime(NatText(h) + "h " + NatText(m) + "m") == Some(60 * h + m)
  {
    var hs, ms := NatText(h), NatText(m);
    var s := hs + "h " + ms + "m";
    assert s[|s| - 2] == ms[|ms| - 1];
    assert !(|s| >= 4 && s[|s| - 4..] == " min") by {
      if |s| >= 4 { assert s[|s| - 4..][2] == s[|s| - 2]; }
    }
    assert s[|s| - 1] == 'm' && s[|s| - 1] != 'h';
    assert s[..|s| - 1] == hs + "h " + ms;
    ReadHoursMinutesValue(h, m);
  }

  lemma ReadHoursMinutesValue(h: nat, m: nat)
    ensures ReadHoursMinutes(NatText(h) + "h " + NatText(m)) == Some(60 * h + m)
  {
    NatTextValue(h);
    NatTextValue(m);
    ReadHoursMinutesOf(NatText(h), NatText(m), h, m);
  }

  lemma ReadHoursMinutesOf(hs: string, ms: string, h: nat, m: nat)
    requires AllDigits(hs) && ReadNat(hs) == Some(h) && ReadNat(ms) == Some(m)
    ensures ReadHoursMinutes(hs + "h " + ms) == Some(60 * h + m)
  {
    var t := hs + "h " + ms;
    assert t == hs + ("h " + ms);
    DigitRunConcat(hs, "h " + ms);
    var p := |hs|;
    assert t[..p] == hs;
    assert t[p..p + 2] == "h ";
    assert t[p + 2..] == ms;
  }

  // ---------------------------------------------------------------------
  // getTagColor
  // ---------------------------------------------------------------------

  const TAG_COLORS: seq<string> := [
    "#B0C4DE", "#DEB887", "#B0E0E6", "#D2B48C",
    "#C8D8C8", "#E6D5B8", "#C4AEAD", "#B8C4D0",
    "#D4C5A9", "#C0C0C0"
  ]

  const TWO_TO_32: int := 0x1_0000_0000
  const TWO_TO_31: int := 0x8000_0000

  /** Every character of s is in the Basic Multilingual Plane. */
  predicate BasicPlane(s: string)
  {
    forall i :: 0 <= i < |s| ==> (s[i] as int) < 0x1_0000
  }

  /** The UTF-16 code units of a string, as charCodeAt sees them: a character
      outside the Basic Multilingual Plane is a surrogate pair. */
  function CodeUnits(s: string): (u: seq<int>)
    ensures forall i :: 0 <= i < |u| ==> 0 <= u[i] < 0x1_0000
    ensures BasicPlane(s) ==> |u| == |s| && forall i :: 0 <= i < |s| ==> u[i] == s[i] as int
  {
    if s == [] then []
    else
      var c := s[|s| - 1] as int;
      CodeUnits(s[..|s| - 1])
        + (if c < 0x1_0000 then [c] else [0xD800 + (c - 0x1_0000) / 0x400, 0xDC00 + (c - 0x1_0000) % 0x400])
  }

  /** ToInt32 (section 7.1.6 of ECMA-262) of an integral Number. */
  function ToInt32(x: int): (r: int)
    ensures -TWO_TO_31 <= r < TWO_TO_31
    ensures (x - r) % TWO_TO_32 == 0
  {
    var m := x % TWO_TO_32;
    if m >= TWO_TO_31 then m - TWO_TO_32 else m
  }

  /** x << 5: ToInt32 of the left operand, shifted within 32 bits. */
  function ShiftLeft5(x: int): int
  {
    ToInt32(ToInt32(x) * 32)
  }

  /** One step of the loop: hash = tag.charCodeAt(i) + ((hash << 5) - hash).
      Only the shift wraps; the sum and the difference are exact. */
  function HashStep(hash: int, unit: int): int
  {
    unit + (ShiftLeft5(hash) - hash)
  }

  function TagHash(units: seq<int>): int
  {
    if units == [] then 0 else HashStep(TagHash(units[..|units| - 1]), units[|units| - 1])
  }

  function Abs(x: int): nat
  {
    if x < 0 then -x else x
  }

  /** Math.abs(hash) % TAG_COLORS.length. */
  function TagColorIndex(tag: string): (i: nat)
    ensures i < |TAG_COLORS|
  {
    Abs(TagHash(CodeUnits(tag))) % |TAG_COLORS|
  }

  method GetTagColor(tag: string) returns (color: string)
    ensures color == TAG_COLORS[TagColorIndex(tag)]
    ensures color in TAG_COLORS
  {
    var units := CodeUnits(tag);
    var hash := 0;
    var i: nat := 0;
    while i < |units|
      invariant i <= |units|
      invariant hash == TagHash(units[..i])
    {
      assert units[..i + 1][..i] == units[..i];
      hash := units[i] + (ShiftLeft5(hash) - hash);
      i := i + 1;
    }
    assert units[..i] == units;
    color := TAG_COLORS[Abs(hash) % |TAG_COLORS|];
  }

  /** The usual 31-multiplier polynomial string hash. */
  function PolynomialHash(units: seq<int>): int
  {
    if units == [] then 0 else 31 * PolynomialHash(units[..|units| - 1]) + units[|units| - 1]
  }

  predicate Congruent32(a: int, b: int)
  {
    (a - b) % TWO_TO_32 == 0
  }

  lemma CongruentScale(a: int, b: int, c: int)
    requires Congruent32(a, b)
    ensures Congruent32(c * a, c * b)
  {
    var q := (a - b) / TWO_TO_32;
    assert a - b == TWO_TO_32 * q;
    assert c * a - c * b == TWO_TO_32 * (c * q);
  }

  lemma CongruentSum(a: int, b: int, c: int, d: int)
    requires Congruent32(a, b) && Congruent32(c, d)
    ensures Congruent32(a + c, b + d)
  {
    var q, r := (a - b) / TWO_TO_32, (c - d) / TWO_TO_32;
    assert a - b == TWO_TO_32 * q;
    assert c - d == TWO_TO_32 * r;
    assert (a + c) - (b + d) == TWO_TO_32 * (q + r);
  }

  /** Although only the shift wraps, the hash agrees with the polynomial hash
      31 * h + c modulo 2^32 at every step. */
  lemma {:induction false} TagHashIsPolynomial(units: seq<int>)
    ensures Congruent32(TagHash(units), PolynomialHash(units))
    decreases |units|
  {
    if units != [] {
      var prefix, c := units[..|units| - 1], units[|units| - 1];
      var h, p := TagHash(prefix), PolynomialHash(prefix);
      TagHashIsPolynomial(prefix);
      // (h << 5) - h + c agrees with 32 * h - h + c = 31 * h + c
      var s := ToInt32(h);
      assert Congruent32(s, h);
      CongruentScale(s, h, 32);
      assert Congruent32(ShiftLeft5(h), 32 * s);
      CongruentSum(ShiftLeft5(h), 32 * s, 0, 0);
      CongruentTransitive(ShiftLeft5(h), 32 * s, 32 * h);
      CongruentSum(ShiftLeft5(h), 32 * h, c - h, c - h);
      CongruentScale(h, p, 31);
      CongruentSum(31 * h, 31 * p, c, c);
      CongruentTransitive(HashStep(h, c), 31 * h + c, 31 * p + c);
    }
  }

  lemma CongruentTransitive(a: int, b: int, c: int)
    requires Congruent32(a, b) && Congruent32(b, c)
    ensures Congruent32(a, c)
  {
    CongruentSum(a, b, b, c);
    assert (a + b) - (b + c) == a - c;
  }
}
