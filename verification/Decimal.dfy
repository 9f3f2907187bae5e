/**
 Amounts as text.  Atomic amounts are canonical unsigned integers, decimal amounts are
 canonical decimal fractions; both are parsed into unbounded integers, computed on, and
 printed again.  The theorems say that the text arithmetic is exact and that canonical
 text is unique for its value.
 */
module Decimal {
  import opened Text

  function Pow10(k: nat): (r: nat)
    ensures r >= 1
  {
    if k == 0 then 1 else 10 * Pow10(k - 1)
  }

  lemma {:induction false} Pow10Add(a: nat, b: nat)
    ensures Pow10(a + b) == Pow10(a) * Pow10(b)
  {
    if a > 0 {
      Pow10Add(a - 1, b);
      assert Pow10(a + b) == 10 * Pow10(a - 1 + b);
      assert (10 * Pow10(a - 1)) * Pow10(b) == 10 * (Pow10(a - 1) * Pow10(b));
    }
  }

  lemma {:induction false} Pow10Monotone(a: nat, b: nat)
    requires a <= b
    ensures Pow10(a) <= Pow10(b)
    decreases b
  {
    if a < b { Pow10Monotone(a, b - 1); }
  }

  // ---------- integers ----------

  predicate IsDigit(c: char) { '0' <= c <= '9' }

  predicate AllDigits(s: string) { forall i | 0 <= i < |s| :: IsDigit(s[i]) }

  function DigitValue(c: char): (r: nat)
    requires IsDigit(c)
    ensures r < 10
  {
    c as int - '0' as int
  }

  function DigitChar(d: nat): (c: char)
    requires d < 10
    ensures IsDigit(c) && DigitValue(c) == d
  {
    ('0' as int + d) as char
  }

  /** The number a digit string denotes. */
  function Number(s: string): nat
    requires AllDigits(s)
  {
    if s == "" then 0 else 10 * Number(s[..|s| - 1]) + DigitValue(s[|s| - 1])
  }

  /** `(*big.Int).String` on naturals. */
  function NatText(n: nat): (s: string)
    ensures s != "" && AllDigits(s)
  {
    if n < 10 then [DigitChar(n)] else NatText(n / 10) + [DigitChar(n % 10)]
  }

  function IntText(n: int): (s: string)
    ensures s != ""
  {
    if n < 0 then "-" + NatText(-n) else NatText(n)
  }

  /** `(*big.Int).SetString(s, 10)`: an optional sign and at least one digit. */
  function ParseInt(s: string): (r: Option<int>) {
    if s != "" && AllDigits(s) then Some(Number(s))
    else if |s| > 1 && s[0] == '+' && AllDigits(s[1..]) then Some(Number(s[1..]))
    else if |s| > 1 && s[0] == '-' && AllDigits(s[1..]) then Some(0 - Number(s[1..]) as int)
    else None
  }

  /** Digits without a superfluous leading zero: the one spelling of a natural number. */
  predicate Plain(s: string) {
    s != "" && AllDigits(s) && (s[0] == '0' ==> s == "0")
  }

  /** `canonicalUnsignedDecimal`. */
  predicate CanonicalUnsigned(s: string) {
    s == "0" || (0 < |s| <= 78 && s[0] != '0' && AllDigits(s))
  }

  lemma {:induction false} CanonicalIsPlain(s: string)
    ensures CanonicalUnsigned(s) <==> Plain(s) && |s| <= 78
  {
  }

  /** Printing and reading back. */
  lemma {:induction false} NumberOfText(n: nat)
    ensures Number(NatText(n)) == n && Plain(NatText(n))
    ensures n > 0 ==> NatText(n)[0] != '0'
  {
    if n >= 10 {
      NumberOfText(n / 10);
      var s := NatText(n);
      assert s[..|s| - 1] == NatText(n / 10);
      assert s[0] == NatText(n / 10)[0];
    }
  }

  lemma {:induction false} TextOfNumber(s: string)
    requires Plain(s)
    ensures NatText(Number(s)) == s
  {
    var init, last := s[..|s| - 1], s[|s| - 1];
    assert s == init + [last];
    if init == "" {
      assert Number(init) == 0;
      assert s == [DigitChar(DigitValue(last))];
    } else {
      assert Plain(init);
      TextOfNumber(init);
      PlainPositive(init);
      assert Number(s) / 10 == Number(init) && Number(s) % 10 == DigitValue(last);
      assert DigitChar(DigitValue(last)) == last;
    }
  }

  lemma {:induction false} PlainPositive(s: string)
    requires s != "" && AllDigits(s) && s[0] != '0'
    ensures Number(s) >= Pow10(|s| - 1)
  {
    if |s| > 1 {
      PlainPositive(s[..|s| - 1]);
    }
  }

  lemma {:induction false} NumberBound(s: string)
    requires AllDigits(s)
    ensures Number(s) < Pow10(|s|)
  {
    if s != "" { NumberBound(s[..|s| - 1]); }
  }

  lemma {:induction false} ShiftDigit(a: nat, p: nat, b: nat, digit: nat)
    ensures 10 * (a * p + b) + digit == a * (10 * p) + (10 * b + digit)
  {
  }

  lemma {:induction false} NumberConcat(a: string, b: string)
    requires AllDigits(a) && AllDigits(b)
    ensures AllDigits(a + b) && Number(a + b) == Number(a) * Pow10(|b|) + Number(b)
  {
    if b == "" {
      assert a + b == a;
    } else {
      var init := b[..|b| - 1];
      NumberConcat(a, init);
      assert (a + b)[..|a + b| - 1] == a + init && (a + b)[|a + b| - 1] == b[|b| - 1];
      ShiftDigit(Number(a), Pow10(|init|), Number(init), DigitValue(b[|b| - 1]));
    }
  }

  function Sign(n: int): int { if n < 0 then -1 else if n == 0 then 0 else 1 }

  /** `compareCanonicalUnsigned`, and the length-then-bytes comparison of `compareAmount`. */
  function CompareCanonicalUnsigned(left: string, right: string): int {
    if |left| < |right| then -1 else if |left| > |right| then 1 else Text.Compare(left, right)
  }

  lemma {:induction false} LeadDigit(s: string)
    requires s != "" && AllDigits(s)
    ensures Number(s) == DigitValue(s[0]) * Pow10(|s| - 1) + Number(s[1..]) && Number(s[1..]) < Pow10(|s| - 1)
  {
    assert s == [s[0]] + s[1..];
    SingleDigit(s[0]);
    NumberConcat([s[0]], s[1..]);
    NumberBound(s[1..]);
  }

  lemma {:induction false} LeadOrder(x: nat, y: nat, n: nat, p: nat, q: nat)
    requires x < y && p < n
    ensures x * n + p < y * n + q
  {
    assert (x + 1) * n <= y * n;
  }

  lemma {:induction false} CompareSameLength(a: string, b: string)
    requires AllDigits(a) && AllDigits(b) && |a| == |b|
    ensures Text.Compare(a, b) == Sign(Number(a) - Number(b))
  {
    if a != "" {
      LeadDigit(a);
      LeadDigit(b);
      var x, y, n := DigitValue(a[0]), DigitValue(b[0]), Pow10(|a| - 1);
      if x < y {
        LeadOrder(x, y, n, Number(a[1..]), Number(b[1..]));
      } else if y < x {
        LeadOrder(y, x, n, Number(b[1..]), Number(a[1..]));
      } else {
        CompareSameLength(a[1..], b[1..]);
      }
    }
  }

  lemma {:induction false} SingleDigit(c: char)
    requires IsDigit(c)
    ensures AllDigits([c]) && Number([c]) == DigitValue(c)
  {
    assert [c][..0] == "";
  }

  /** Shorter is smaller, equal lengths compare as bytes: exactly the numeric order. */
  lemma {:induction false} ShortlexIsNumeric(left: string, right: string)
    requires Plain(left) && Plain(right)
    ensures CompareCanonicalUnsigned(left, right) == Sign(Number(left) - Number(right))
  {
    if |left| == |right| {
      CompareSameLength(left, right);
    } else if |left| < |right| {
      LongerIsLarger(left, right);
    } else {
      LongerIsLarger(right, left);
    }
  }

  lemma {:induction false} LongerIsLarger(a: string, b: string)
    requires Plain(a) && Plain(b) && |a| < |b|
    ensures Number(a) < Number(b)
  {
    NumberBound(a);
    PlainPositive(b);
    Pow10Monotone(|a|, |b| - 1);
  }

  // ---------- decimal fractions ----------

  /** `strings.Split(s, ".")`. */
  function SplitDot(s: string): (r: seq<string>)
    ensures |r| >= 1
  {
    if s == "" then [""]
    else
      var rest := SplitDot(s[1..]);
      if s[0] == '.' then [""] + rest else [[s[0]] + rest[0]] + rest[1..]
  }

  lemma {:induction false} SplitNoDot(s: string)
    requires '.' !in s
    ensures SplitDot(s) == [s]
  {
    if s != "" {
      SplitNoDot(s[1..]);
      assert s == [s[0]] + s[1..];
    }
  }

  lemma {:induction false} SplitOneDot(a: string, b: string)
    requires '.' !in a && '.' !in b
    ensures SplitDot(a + "." + b) == [a, b]
  {
    var s := a + "." + b;
    if a == "" {
      assert s == "." + b && s[1..] == b;
      SplitNoDot(b);
    } else {
      assert s[1..] == a[1..] + "." + b;
      SplitOneDot(a[1..], b);
      assert a == [a[0]] + a[1..];
      assert SplitDot(s) == [[s[0]] + a[1..]] + [b];
    }
  }

  lemma {:induction false} SplitJoin(s: string)
    ensures |SplitDot(s)| == 1 ==> s == SplitDot(s)[0]
    ensures |SplitDot(s)| == 2 ==> s == SplitDot(s)[0] + "." + SplitDot(s)[1]
  {
    if s != "" {
      var rest := SplitDot(s[1..]);
      SplitJoin(s[1..]);
      assert s == [s[0]] + s[1..];
      if s[0] == '.' {
        assert SplitDot(s) == [""] + rest;
        assert |rest| == 1 ==> "" + "." + rest[0] == s;
      } else {
        assert SplitDot(s) == [[s[0]] + rest[0]] + rest[1..];
        assert |rest| == 2 ==> ([s[0]] + rest[0]) + "." + rest[1] == [s[0]] + (rest[0] + "." + rest[1]);
      }
    }
  }

  /** `canonicalDecimal`. */
  predicate CanonicalDecimal(s: string) {
    && 0 < |s| <= 96 && s[0] != '+' && s[0] != '-' && 'e' !in s && 'E' !in s
    && var parts := SplitDot(s);
       && |parts| <= 2 && CanonicalUnsigned(parts[0])
       && (|parts| == 2 ==> Fraction(parts[1]))
  }

  predicate Fraction(f: string) {
    f != "" && f[|f| - 1] != '0' && AllDigits(f)
  }

  /** A decimal in canonical form, without the two length limits. */
  predicate DecimalShape(s: string) {
    var parts := SplitDot(s);
    |parts| <= 2 && Plain(parts[0]) && (|parts| == 2 ==> Fraction(parts[1]))
  }

  function Whole(s: string): string { SplitDot(s)[0] }

  function Fractional(s: string): string { if |SplitDot(s)| == 2 then SplitDot(s)[1] else "" }

  lemma {:induction false} CanonicalDecimalShape(s: string)
    ensures CanonicalDecimal(s) <==> DecimalShape(s) && |s| <= 96 && |Whole(s)| <= 78
  {
    CanonicalIsPlain(Whole(s));
    SplitJoin(s);
  }

  function Compose(whole: string, fraction: string): string {
    if fraction == "" then whole else whole + "." + fraction
  }

  lemma {:induction false} ComposeParts(whole: string, fraction: string)
    requires AllDigits(whole) && AllDigits(fraction)
    ensures Whole(Compose(whole, fraction)) == whole && Fractional(Compose(whole, fraction)) == fraction
    ensures |SplitDot(Compose(whole, fraction))| == if fraction == "" then 1 else 2
  {
    SplitNoDot(whole);
    SplitOneDot(whole, fraction);
  }

  lemma {:induction false} DecimalParts(s: string)
    requires DecimalShape(s)
    ensures AllDigits(Whole(s)) && AllDigits(Fractional(s)) && s == Compose(Whole(s), Fractional(s))
    ensures Fractional(s) == "" || Fraction(Fractional(s))
  {
    SplitJoin(s);
  }

  /** `decimalCoefficient`: an integer and a scale, or failure when the text is not canonical. */
  function DecimalCoefficient(s: string): (r: Option<(int, nat)>)
    ensures r.Some? ==> r.value.0 >= 0
  {
    if !CanonicalDecimal(s) then None
    else
      var digits := Whole(s) + Fractional(s);
      if ParseInt(digits).None? || ParseInt(digits).value < 0 then None
      else Some((ParseInt(digits).value, |Fractional(s)|))
  }

  /** The number a decimal text denotes: its digits over a power of ten. */
  function Coefficient(s: string): nat
    requires DecimalShape(s)
  {
    DecimalParts(s);
    Number(Whole(s) + Fractional(s))
  }

  /** Parsing succeeds on exactly the canonical texts. */
  lemma {:induction false} CoefficientOfCanonical(s: string)
    ensures DecimalCoefficient(s).Some? <==> CanonicalDecimal(s)
    ensures CanonicalDecimal(s) ==>
            DecimalShape(s) && DecimalCoefficient(s) == Some((Coefficient(s), |Fractional(s)|))
  {
    CanonicalDecimalShape(s);
    if CanonicalDecimal(s) {
      DecimalParts(s);
      assert AllDigits(Whole(s) + Fractional(s)) && Whole(s) + Fractional(s) != "";
    }
  }

  /** `strings.TrimRight(s, "0")`. */
  function TrimZeros(s: string): (r: string)
    ensures r <= s
  {
    if s != "" && s[|s| - 1] == '0' then TrimZeros(s[..|s| - 1]) else s
  }

  function Zeros(n: nat): (s: string)
    ensures |s| == n && AllDigits(s) && forall i | 0 <= i < n :: s[i] == '0'
  {
    seq(n, _ => '0')
  }

  /** `formatDecimal`. */
  function FormatDecimal(coefficient: int, scale: nat): string {
    if coefficient == 0 then "0"
    else
      var raw := IntText(coefficient);
      if scale == 0 then raw
      else CutAt(Pad(raw, scale), scale)
  }

  /** Zero-padded so that at least one digit remains before the point. */
  function Pad(raw: string, scale: nat): (d: string)
    requires raw != ""
    ensures |d| > scale
  {
    if |raw| <= scale then Zeros(scale - |raw| + 1) + raw else raw
  }

  /** The point inserted before the last `scale` digits, then trailing zeros and a trailing point removed. */
  function CutAt(digits: string, scale: nat): string
    requires scale <= |digits|
  {
    var cut := |digits| - scale;
    TrimDot(TrimZeros(digits[..cut] + "." + digits[cut..]))
  }

  /** `strings.TrimSuffix(s, ".")`. */
  function TrimDot(s: string): string {
    if s != "" && s[|s| - 1] == '.' then s[..|s| - 1] else s
  }

  /** `alignDecimals`: both coefficients brought to the larger scale. */
  function AlignDecimals(a: int, scaleA: nat, b: int, scaleB: nat): (int, int, nat) {
    if scaleA < scaleB then (a * Pow10(scaleB - scaleA), b, scaleB)
    else if scaleB < scaleA then (a, b * Pow10(scaleA - scaleB), scaleA)
    else (a, b, scaleA)
  }

  // ---------- printing is exact ----------

  lemma {:induction false} TrimZerosFraction(f: string)
    requires AllDigits(f)
    ensures AllDigits(TrimZeros(f)) && f == TrimZeros(f) + Zeros(|f| - |TrimZeros(f)|)
    ensures TrimZeros(f) == "" || Fraction(TrimZeros(f))
  {
    if f != "" && f[|f| - 1] == '0' {
      var init := f[..|f| - 1];
      TrimZerosFraction(init);
      assert f == init + "0";
      assert Zeros(|f| - |TrimZeros(f)|) == Zeros(|init| - |TrimZeros(f)|) + "0";
    }
  }

  lemma {:induction false} TrimZerosAfterDot(whole: string, f: string)
    ensures TrimZeros(whole + "." + f) == whole + "." + TrimZeros(f)
  {
    var s := whole + "." + f;
    if f == "" {
      assert s == whole + ".";
    } else {
      assert s[|s| - 1] == f[|f| - 1];
      assert s[..|s| - 1] == whole + "." + f[..|f| - 1];
      TrimZerosAfterDot(whole, f[..|f| - 1]);
    }
  }

  lemma {:induction false} NumberZeros(n: nat)
    ensures Number(Zeros(n)) == 0
  {
    if n > 0 {
      NumberZeros(n - 1);
      assert Zeros(n)[..n - 1] == Zeros(n - 1);
    }
  }

  lemma {:induction false} PadZeros(raw: string, scale: nat)
    requires AllDigits(raw) && raw != "" && |raw| <= scale
    ensures var d := Pad(raw, scale);
            AllDigits(d) && Number(d) == Number(raw) && |d| == scale + 1 && d[..|d| - scale] == "0"
  {
    var zeros := Zeros(scale - |raw| + 1);
    NumberZeros(|zeros|);
    NumberConcat(zeros, raw);
    assert Pad(raw, scale) == zeros + raw;
    assert (zeros + raw)[..1] == "0";
  }

  lemma {:induction false} PadNumber(c: nat, scale: nat)
    ensures var d := Pad(NatText(c), scale);
            AllDigits(d) && Number(d) == c && Plain(d[..|d| - scale])
  {
    var raw := NatText(c);
    NumberOfText(c);
    if |raw| <= scale {
      PadZeros(raw, scale);
    } else {
      assert Plain(raw[..|raw| - scale]);
    }
  }

  lemma {:induction false} TrimDotCompose(whole: string, t: string)
    requires t == "" || Fraction(t)
    ensures TrimDot(whole + "." + t) == Compose(whole, t)
  {
    var s := whole + "." + t;
    if t == "" {
      assert s == whole + "." && s[..|s| - 1] == whole;
    } else {
      assert s[|s| - 1] == t[|t| - 1];
    }
  }

  lemma {:induction false} CutCompose(d: string, scale: nat)
    requires AllDigits(d) && scale < |d|
    ensures CutAt(d, scale) == Compose(d[..|d| - scale], TrimZeros(d[|d| - scale..]))
  {
    var whole, f := d[..|d| - scale], d[|d| - scale..];
    TrimZerosFraction(f);
    TrimZerosAfterDot(whole, f);
    TrimDotCompose(whole, TrimZeros(f));
  }

  lemma {:induction false} FormatUnfold(c: nat, scale: nat)
    requires c > 0
    ensures FormatDecimal(c, scale) == CutOrKeep(NatText(c), scale)
  {
  }

  function CutOrKeep(raw: string, scale: nat): string
    requires raw != ""
  {
    if scale == 0 then raw else CutAt(Pad(raw, scale), scale)
  }

  lemma {:induction false} CutOrKeepParts(raw: string, scale: nat)
    requires raw != "" && AllDigits(raw)
    ensures var d := Pad(raw, scale);
            CutOrKeep(raw, scale) == Compose(d[..|d| - scale], TrimZeros(d[|d| - scale..]))
  {
    if scale == 0 {
      NothingToCut(raw);
    } else {
      CutCompose(Pad(raw, scale), scale);
    }
  }

  lemma {:induction false} NothingToCut(d: string)
    ensures Compose(d[..|d| - 0], TrimZeros(d[|d| - 0..])) == d
  {
    assert d[..|d| - 0] == d && d[|d| - 0..] == "";
  }

  /** A canonical text that denotes c / 10^scale. */
  ghost predicate Denotes(s: string, c: nat, scale: nat) {
    DecimalShape(s) && |Fractional(s)| <= scale && Coefficient(s) * Pow10(scale - |Fractional(s)|) == c
  }

  /** Whole and fractional digits of a canonical text. */
  predicate PartsOf(whole: string, fraction: string) {
    Plain(whole) && AllDigits(fraction) && (fraction == "" || fraction[|fraction| - 1] != '0')
  }

  lemma {:induction false} TrimmedParts(d: string, scale: nat) returns (whole: string, t: string)
    requires AllDigits(d) && scale < |d| && Plain(d[..|d| - scale])
    ensures PartsOf(whole, t) && |t| <= scale && Number(whole + t) * Pow10(scale - |t|) == Number(d)
    ensures whole == d[..|d| - scale] && t == TrimZeros(d[|d| - scale..])
  {
    whole := d[..|d| - scale];
    var f := d[|d| - scale..];
    t := TrimZeros(f);
    TrimZerosFraction(f);
    var n := |f| - |t|;
    assert d == (whole + t) + Zeros(n);
    NumberConcat(whole + t, Zeros(n));
    NumberZeros(n);
  }

  lemma {:induction false} FormatParts(c: nat, scale: nat) returns (whole: string, t: string)
    requires c > 0
    ensures PartsOf(whole, t) && |t| <= scale && Number(whole + t) * Pow10(scale - |t|) == c
    ensures FormatDecimal(c, scale) == Compose(whole, t)
  {
    var raw := NatText(c);
    FormatUnfold(c, scale);
    PadNumber(c, scale);
    whole, t := RawParts(raw, scale);
  }

  lemma {:induction false} RawParts(raw: string, scale: nat) returns (whole: string, t: string)
    requires raw != "" && AllDigits(raw) && AllDigits(Pad(raw, scale))
    requires Plain(Pad(raw, scale)[..|Pad(raw, scale)| - scale])
    ensures PartsOf(whole, t) && |t| <= scale && Number(whole + t) * Pow10(scale - |t|) == Number(Pad(raw, scale))
    ensures CutOrKeep(raw, scale) == Compose(whole, t)
  {
    CutOrKeepParts(raw, scale);
    whole, t := TrimmedParts(Pad(raw, scale), scale);
  }

  lemma {:induction false} ComposeDenotes(whole: string, t: string, c: nat, scale: nat)
    requires PartsOf(whole, t) && |t| <= scale && Number(whole + t) * Pow10(scale - |t|) == c
    ensures Denotes(Compose(whole, t), c, scale)
  {
    ComposeParts(whole, t);
  }

  /** The printed text is in canonical form and denotes coefficient / 10^scale. */
  lemma {:induction false} FormatExact(c: nat, scale: nat)
    ensures Denotes(FormatDecimal(c, scale), c, scale) && (FormatDecimal(c, scale) == "0" <==> c == 0)
  {
    if c == 0 {
      ZeroDecimal();
    } else {
      var whole, t := FormatParts(c, scale);
      ComposeDenotes(whole, t, c, scale);
      NonZeroText(FormatDecimal(c, scale), c, scale);
    }
  }

  lemma {:induction false} NonZeroText(s: string, c: nat, scale: nat)
    requires c > 0 && Denotes(s, c, scale)
    ensures s != "0"
  {
    ZeroDecimal();
  }

  lemma {:induction false} ZeroDecimal()
    ensures DecimalShape("0") && Fractional("0") == "" && Coefficient("0") == 0
  {
    SplitNoDot("0");
    SingleDigit('0');
    assert "0" + "" == "0";
  }

  lemma {:induction false} SameNumberSameText(a: string, b: string)
    requires AllDigits(a) && AllDigits(b) && |a| == |b| && Number(a) == Number(b)
    ensures a == b
  {
    CompareSameLength(a, b);
    CompareZero(a, b);
  }

  lemma {:induction false} LastDigit(s: string)
    requires s != "" && AllDigits(s)
    ensures Number(s) % 10 == DigitValue(s[|s| - 1])
  {
  }

  /** `formatDecimal` undoes `decimalCoefficient`. */
  lemma {:induction false} FormatUndoesCoefficient(s: string)
    requires DecimalShape(s)
    ensures FormatDecimal(Coefficient(s), |Fractional(s)|) == s
  {
    DecimalParts(s);
    var w, f, c := Whole(s), Fractional(s), Coefficient(s);
    if f == "" {
      assert w + f == w;
      TextOfNumber(w);
      if c > 0 { NumberOfText(c); } else { assert NatText(0) == "0"; }
    } else {
      LastDigit(w + f);
      assert c > 0;
      var d := Pad(NatText(c), |f|);
      PadNumber(c, |f|);
      PaddedLength(w, f);
      SameNumberSameText(d, w + f);
      FormatUnfold(c, |f|);
      CutOrKeepParts(NatText(c), |f|);
      assert TrimZeros(f) == f;
      assert d[..|d| - |f|] == w && d[|d| - |f|..] == f;
    }
  }

  lemma {:induction false} PaddedLength(w: string, f: string)
    requires Plain(w) && AllDigits(f)
    ensures AllDigits(w + f) && |Pad(NatText(Number(w + f)), |f|)| == |w + f|
  {
    var c := Number(w + f);
    NumberOfText(c);
    if w == "0" {
      assert w + f == "0" + f;
      SingleDigit('0');
      NumberConcat("0", f);
      NumberBound(f);
      ShortText(c, |f|);
    } else {
      TextOfNumber(w + f);
    }
  }

  lemma {:induction false} ShortText(c: nat, k: nat)
    requires c < Pow10(k)
    ensures c > 0 ==> |NatText(c)| <= k
  {
    NumberOfText(c);
    if c > 0 {
      PlainPositive(NatText(c));
      Pow10Reflects(|NatText(c)| - 1, k);
    }
  }

  lemma {:induction false} Pow10Reflects(a: nat, b: nat)
    ensures Pow10(a) < Pow10(b) ==> a < b
  {
    if b <= a { Pow10Monotone(b, a); }
  }

  /** Canonical text is unique: equal values are equal texts. */
  lemma {:induction false} DecimalUnique(s: string, t: string)
    requires DecimalShape(s) && DecimalShape(t)
    requires Coefficient(s) * Pow10(|Fractional(t)|) == Coefficient(t) * Pow10(|Fractional(s)|)
    ensures s == t
  {
    if |Fractional(s)| < |Fractional(t)| {
      NotDivisible(t, s);
    } else if |Fractional(t)| < |Fractional(s)| {
      NotDivisible(s, t);
    } else {
      var p := Pow10(|Fractional(s)|);
      MulCancel(Coefficient(s), Coefficient(t), p);
      FormatUndoesCoefficient(s);
      FormatUndoesCoefficient(t);
    }
  }

  lemma {:induction false} MulCancel(a: int, b: int, p: nat)
    requires p > 0 && a * p == b * p
    ensures a == b
  {
    if a < b { MulLess(a, b, p); } else if b < a { MulLess(b, a, p); }
  }

  lemma {:induction false} MulLess(a: int, b: int, p: nat)
    requires p > 0 && a < b
    ensures a * p < b * p
  {
    var d := b - a;
    assert d * p >= p by { assert (d - 1) * p >= 0; }
    assert b * p == a * p + d * p;
  }

  /** The longer of two canonical fractions cannot denote the same number: its last digit is not zero. */
  lemma {:induction false} NotDivisible(long: string, short: string)
    requires DecimalShape(long) && DecimalShape(short) && |Fractional(short)| < |Fractional(long)|
    ensures Coefficient(short) * Pow10(|Fractional(long)|) != Coefficient(long) * Pow10(|Fractional(short)|)
  {
    var a, b := |Fractional(long)|, |Fractional(short)|;
    DecimalParts(long);
    LastDigit(Whole(long) + Fractional(long));
    PowerOfTenMultiple(Coefficient(short), Coefficient(long), a, b);
  }

  lemma {:induction false} PowerOfTenMultiple(x: nat, y: nat, a: nat, b: nat)
    requires b < a && y % 10 != 0
    ensures x * Pow10(a) != y * Pow10(b)
  {
    Pow10Add(a - b, b);
    var p, q := Pow10(a - b - 1), Pow10(b);
    TenMultiple(x * p, y, q);
    Rearrange(x, p, q);
  }

  lemma {:induction false} Rearrange(x: nat, p: nat, q: nat)
    ensures x * ((10 * p) * q) == (10 * (x * p)) * q
  {
    var r := 10 * p;
    assert x * (r * q) == (x * r) * q;
    assert x * r == 10 * (x * p);
  }

  lemma {:induction false} TenMultiple(z: nat, y: nat, q: nat)
    requires q > 0 && y % 10 != 0
    ensures (10 * z) * q != y * q
  {
    if (10 * z) * q == y * q {
      MulCancel(10 * z, y, q);
    }
  }
}
