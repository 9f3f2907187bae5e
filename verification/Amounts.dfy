/**
 Agreement amounts: an asset, a unit and exactly one of an atomic integer or a decimal
 text.  Addition, subtraction and comparison work on the text; the lemmas tie each of them
 to exact rational arithmetic on the denoted values, at any mix of scales.
 */
module Amounts {
  import opened Text
  import opened Decimal

  datatype AgreementAmount = AgreementAmount(
    assetNamespace: string, assetIdentifier: string, atomic: string, decimal: string, unit: string)

  /** A Go call that may return an error or dereference a nil `*big.Int`. */
  datatype Attempt<+T> = Done(value: T) | Failed | Panicked

  predicate SameAsset(a: AgreementAmount, b: AgreementAmount) {
    a.assetNamespace == b.assetNamespace && a.assetIdentifier == b.assetIdentifier && a.unit == b.unit
  }

  predicate SameProfile(a: AgreementAmount, b: AgreementAmount) {
    SameAsset(a, b) && (a.atomic == "" <==> b.atomic == "")
  }

  /** `validateAgreementAmount`. */
  predicate ValidAmount(a: AgreementAmount) {
    && BoundedIdentifier(a.assetNamespace, 128) && BoundedIdentifier(a.assetIdentifier, 256)
       && BoundedIdentifier(a.unit, 128)
    && (a.atomic == "") != (a.decimal == "")
    && (a.atomic != "" ==> CanonicalUnsigned(a.atomic))
    && (a.decimal != "" ==> CanonicalDecimal(a.decimal))
  }

  // ---------- operations ----------

  function AddAmounts(first: AgreementAmount, second: AgreementAmount): Attempt<AgreementAmount> {
    if !SameProfile(first, second) then Failed
    else if first.atomic != "" then
      var a, b := ParseInt(first.atomic), ParseInt(second.atomic);
      if a.None? || b.None? then Panicked else Done(first.(atomic := IntText(a.value + b.value)))
    else
      var a, b := DecimalCoefficient(first.decimal), DecimalCoefficient(second.decimal);
      if a.None? || b.None? then Failed
      else
        var (x, y, scale) := AlignDecimals(a.value.0, a.value.1, b.value.0, b.value.1);
        Done(first.(decimal := FormatDecimal(x + y, scale)))
  }

  /** 2 stands for "not comparable". */
  function CompareAmounts(first: AgreementAmount, second: AgreementAmount): int {
    if !SameProfile(first, second) then 2
    else if first.atomic != "" then
      var a, b := ParseInt(first.atomic), ParseInt(second.atomic);
      if a.None? || b.None? then 2 else Sign(a.value - b.value)
    else
      var a, b := DecimalCoefficient(first.decimal), DecimalCoefficient(second.decimal);
      if a.None? || b.None? then 2
      else
        var (x, y, _) := AlignDecimals(a.value.0, a.value.1, b.value.0, b.value.1);
        Sign(x - y)
  }

  function SubtractAmounts(first: AgreementAmount, second: AgreementAmount): Attempt<AgreementAmount> {
    if CompareAmounts(first, second) < 0 || (first.atomic == "") != (second.atomic == "") then Failed
    else if first.atomic != "" then
      var a, b := ParseInt(first.atomic), ParseInt(second.atomic);
      if a.None? || b.None? then Panicked else Done(first.(atomic := IntText(a.value - b.value)))
    else
      var a, b := DecimalCoefficient(first.decimal), DecimalCoefficient(second.decimal);
      if a.None? || b.None? then Failed
      else
        var (x, y, scale) := AlignDecimals(a.value.0, a.value.1, b.value.0, b.value.1);
        Done(first.(decimal := FormatDecimal(x - y, scale)))
  }

  predicate AmountIsZero(a: AgreementAmount) {
    a.atomic == "0" || a.decimal == "0"
  }

  function AmountCoefficient(a: AgreementAmount): Option<(int, nat)> {
    if a.atomic != "" then (if ParseInt(a.atomic).None? then None else Some((ParseInt(a.atomic).value, 0)))
    else DecimalCoefficient(a.decimal)
  }

  /** `exceedsAggregate`: true when count instances would pass the cap, or the two cannot be compared. */
  predicate ExceedsAggregate(amount: AgreementAmount, count: nat, maximum: AgreementAmount) {
    !SameProfile(amount, maximum) ||
    var per, limit := AmountCoefficient(amount), AmountCoefficient(maximum);
    per.None? || limit.None? ||
    var (x, y, _) := AlignDecimals(per.value.0, per.value.1, limit.value.0, limit.value.1);
    x * count > y
  }

  // ---------- values ----------

  function Ratio(c: int, k: nat): real {
    c as real / Pow10(k) as real
  }

  lemma {:induction false} RatioScale(c: int, k: nat, d: nat)
    ensures Ratio(c * Pow10(d), k + d) == Ratio(c, k)
  {
    Pow10Add(k, d);
    RealProduct(c, Pow10(d));
    RealProduct(Pow10(k), Pow10(d));
    CancelReal(c as real, Pow10(k) as real, Pow10(d) as real);
  }

  lemma {:induction false} RealProduct(a: int, b: nat)
    ensures (a * b) as real == a as real * b as real
  {
    if b > 0 {
      RealProduct(a, b - 1);
      assert a * b == a * (b - 1) + a;
      assert a as real * b as real == a as real * (b - 1) as real + a as real;
    }
  }

  lemma {:induction false} CancelReal(c: real, p: real, q: real)
    requires p > 0.0 && q > 0.0
    ensures p * q > 0.0 && (c * q) / (p * q) == c / p
  {
  }

  lemma {:induction false} RatioSum(a: int, b: int, k: nat)
    ensures Ratio(a + b, k) == Ratio(a, k) + Ratio(b, k) && Ratio(a - b, k) == Ratio(a, k) - Ratio(b, k)
  {
  }

  lemma {:induction false} RatioOrder(a: int, b: int, k: nat)
    ensures a < b <==> Ratio(a, k) < Ratio(b, k)
    ensures a == b <==> Ratio(a, k) == Ratio(b, k)
  {
    var p := Pow10(k) as real;
    assert Ratio(a, k) * p == a as real && Ratio(b, k) * p == b as real;
    DivideOrder(a as real, b as real, p);
  }

  lemma {:induction false} DivideOrder(a: real, b: real, p: real)
    requires p > 0.0
    ensures a < b <==> a / p < b / p
    ensures a == b <==> a / p == b / p
  {
    var x, y := a / p, b / p;
    assert x * p == a && y * p == b;
    if x < y { assert (y - x) * p > 0.0; }
    if y < x { assert (x - y) * p > 0.0; }
  }

  /** An amount whose text is in canonical form, of any length. */
  predicate Readable(a: AgreementAmount) {
    if a.atomic != "" then Plain(a.atomic) && a.decimal == "" else DecimalShape(a.decimal)
  }

  /** An amount the arithmetic can read back: decimals are held to the length limits. */
  predicate Parseable(a: AgreementAmount) {
    Readable(a) && (a.atomic == "" ==> CanonicalDecimal(a.decimal))
  }

  /** The exact number an amount denotes. */
  function Value(a: AgreementAmount): real
    requires Readable(a)
  {
    if a.atomic != "" then Number(a.atomic) as real else Ratio(Coefficient(a.decimal), |Fractional(a.decimal)|)
  }

  lemma {:induction false} ValidParseable(a: AgreementAmount)
    requires ValidAmount(a)
    ensures Parseable(a) && Value(a) >= 0.0
  {
    CanonicalIsPlain(a.atomic);
    if a.atomic == "" { CoefficientOfCanonical(a.decimal); }
  }

  lemma {:induction false} DenotesValue(s: string, c: nat, scale: nat)
    requires Denotes(s, c, scale)
    ensures Ratio(Coefficient(s), |Fractional(s)|) == Ratio(c, scale)
  {
    RatioScale(Coefficient(s), |Fractional(s)|, scale - |Fractional(s)|);
  }

  lemma {:induction false} AlignExact(a: int, scaleA: nat, b: int, scaleB: nat)
    ensures var (x, y, scale) := AlignDecimals(a, scaleA, b, scaleB);
            && Ratio(x, scale) == Ratio(a, scaleA) && Ratio(y, scale) == Ratio(b, scaleB)
            && (a >= 0 ==> x >= 0) && (b >= 0 ==> y >= 0)
  {
    if scaleA < scaleB { RatioScale(a, scaleA, scaleB - scaleA); }
    if scaleB < scaleA { RatioScale(b, scaleB, scaleA - scaleB); }
  }

  lemma {:induction false} PlainParse(s: string)
    requires Plain(s)
    ensures ParseInt(s) == Some(Number(s))
  {
  }

  lemma {:induction false} TextPlain(n: nat)
    ensures Plain(IntText(n)) && Number(IntText(n)) == n && (IntText(n) == "0" <==> n == 0)
  {
    NumberOfText(n);
    SingleDigit('0');
  }

  /** Both decimals brought to one scale, with their values. */
  lemma {:induction false} DecimalOperands(s: string, t: string) returns (x: nat, y: nat, scale: nat)
    requires CanonicalDecimal(s) && CanonicalDecimal(t)
    ensures DecimalShape(s) && DecimalShape(t)
    ensures DecimalCoefficient(s).Some? && DecimalCoefficient(t).Some?
    ensures var a, b := DecimalCoefficient(s).value, DecimalCoefficient(t).value;
            AlignDecimals(a.0, a.1, b.0, b.1) == (x, y, scale)
    ensures Ratio(x, scale) == Ratio(Coefficient(s), |Fractional(s)|)
    ensures Ratio(y, scale) == Ratio(Coefficient(t), |Fractional(t)|)
  {
    CoefficientOfCanonical(s);
    CoefficientOfCanonical(t);
    var a, b := DecimalCoefficient(s).value, DecimalCoefficient(t).value;
    AlignExact(a.0, a.1, b.0, b.1);
    var (x', y', scale') := AlignDecimals(a.0, a.1, b.0, b.1);
    x, y, scale := x', y', scale';
  }

  /** Addition is exact. */
  lemma {:induction false} AddExact(a: AgreementAmount, b: AgreementAmount)
    requires Parseable(a) && Parseable(b) && SameProfile(a, b)
    ensures var r := AddAmounts(a, b);
            r.Done? && Readable(r.value) && SameProfile(r.value, a) && Value(r.value) == Value(a) + Value(b)
  {
    if a.atomic != "" {
      PlainParse(a.atomic);
      PlainParse(b.atomic);
      TextPlain(Number(a.atomic) + Number(b.atomic));
    } else {
      var x, y, scale := DecimalOperands(a.decimal, b.decimal);
      FormatExact(x + y, scale);
      DenotesValue(FormatDecimal(x + y, scale), x + y, scale);
      RatioSum(x, y, scale);
    }
  }

  function RealSign(x: real): int { if x < 0.0 then -1 else if x == 0.0 then 0 else 1 }

  /** Comparison is the order of values. */
  lemma {:induction false} CompareExact(a: AgreementAmount, b: AgreementAmount)
    requires Parseable(a) && Parseable(b) && SameProfile(a, b)
    ensures CompareAmounts(a, b) == RealSign(Value(a) - Value(b))
  {
    if a.atomic != "" {
      PlainParse(a.atomic);
      PlainParse(b.atomic);
    } else {
      var x, y, scale := DecimalOperands(a.decimal, b.decimal);
      RatioOrder(x, y, scale);
    }
  }

  lemma {:induction false} SubtractAtomic(a: AgreementAmount, b: AgreementAmount)
    requires Parseable(a) && Parseable(b) && SameProfile(a, b) && a.atomic != "" && Value(a) >= Value(b)
    requires CompareAmounts(a, b) >= 0
    ensures var r := SubtractAmounts(a, b);
            r.Done? && Readable(r.value) && SameProfile(r.value, a) && Value(r.value) == Value(a) - Value(b)
  {
    PlainParse(a.atomic);
    PlainParse(b.atomic);
    TextPlain(Number(a.atomic) - Number(b.atomic));
  }

  lemma {:induction false} SubtractDecimal(a: AgreementAmount, b: AgreementAmount)
    requires Parseable(a) && Parseable(b) && SameProfile(a, b) && a.atomic == "" && Value(a) >= Value(b)
    requires CompareAmounts(a, b) >= 0
    ensures var r := SubtractAmounts(a, b);
            r.Done? && Readable(r.value) && SameProfile(r.value, a) && Value(r.value) == Value(a) - Value(b)
  {
    var x, y, scale := DecimalOperands(a.decimal, b.decimal);
    RatioOrder(x, y, scale);
    var text := FormatDecimal(x - y, scale);
    assert SubtractAmounts(a, b) == Done(a.(decimal := text));
    FormatExact(x - y, scale);
    DenotesValue(text, x - y, scale);
    RatioSum(x, y, scale);
  }

  /** Subtraction is exact, and fails exactly when the result would be negative. */
  lemma {:induction false} SubtractExact(a: AgreementAmount, b: AgreementAmount)
    requires Parseable(a) && Parseable(b) && SameProfile(a, b)
    ensures var r := SubtractAmounts(a, b);
            if Value(a) < Value(b) then r.Failed?
            else r.Done? && Readable(r.value) && SameProfile(r.value, a) && Value(r.value) == Value(a) - Value(b)
  {
    CompareExact(a, b);
    if Value(a) >= Value(b) {
      if a.atomic != "" { SubtractAtomic(a, b); } else { SubtractDecimal(a, b); }
    }
  }

  /** Both sides of the aggregate test at one scale. */
  lemma {:induction false} CapOperands(amount: AgreementAmount, count: nat, maximum: AgreementAmount)
      returns (x: nat, y: nat, scale: nat)
    requires Parseable(amount) && Parseable(maximum) && SameProfile(amount, maximum)
    ensures ExceedsAggregate(amount, count, maximum) <==> x * count > y
    ensures Ratio(x, scale) == Value(amount) && Ratio(y, scale) == Value(maximum)
  {
    if amount.atomic != "" {
      PlainParse(amount.atomic);
      PlainParse(maximum.atomic);
      x, y, scale := Number(amount.atomic), Number(maximum.atomic), 0;
      assert Pow10(0) as real == 1.0;
    } else {
      x, y, scale := DecimalOperands(amount.decimal, maximum.decimal);
    }
  }

  /** The aggregate test: refused exactly when count instances are worth more than the cap. */
  lemma {:induction false} ExceedsExact(amount: AgreementAmount, count: nat, maximum: AgreementAmount)
    requires Parseable(amount) && Parseable(maximum) && SameProfile(amount, maximum)
    ensures ExceedsAggregate(amount, count, maximum) <==> Repeated(count, Value(amount)) > Value(maximum)
  {
    var x, y, scale := CapOperands(amount, count, maximum);
    RatioCap(x, count, y, scale);
  }

  lemma {:induction false} RatioCap(x: nat, count: nat, y: nat, scale: nat)
    ensures x * count > y <==> Repeated(count, Ratio(x, scale)) > Ratio(y, scale)
  {
    RatioOrder(y, x * count, scale);
    RatioTimes(x, count, scale);
    RepeatedIsProduct(count, Ratio(x, scale));
  }

  lemma {:induction false} RatioTimes(x: nat, count: nat, scale: nat)
    ensures Ratio(x * count, scale) == count as real * Ratio(x, scale)
  {
    RealProduct(x, count);
    var p := Pow10(scale) as real;
    assert (x as real * count as real) / p == count as real * (x as real / p);
  }

  /** A value has one text: amounts of one profile with equal values are equal. */
  lemma {:induction false} AmountUnique(a: AgreementAmount, b: AgreementAmount)
    requires Readable(a) && Readable(b) && SameProfile(a, b) && Value(a) == Value(b)
    ensures a.atomic == b.atomic && (a.atomic == "" ==> a.decimal == b.decimal)
  {
    if a.atomic != "" {
      TextOfNumber(a.atomic);
      TextOfNumber(b.atomic);
    } else {
      var s, t := a.decimal, b.decimal;
      var k, m := |Fractional(s)|, |Fractional(t)|;
      RatioScale(Coefficient(s), k, m);
      RatioScale(Coefficient(t), m, k);
      RatioOrder(Coefficient(s) * Pow10(m), Coefficient(t) * Pow10(k), k + m);
      DecimalUnique(s, t);
    }
  }

  /** The zero test reads the value. */
  lemma {:induction false} ZeroExact(a: AgreementAmount)
    requires Readable(a)
    ensures AmountIsZero(a) <==> Value(a) == 0.0
  {
    SingleDigit('0');
    ZeroDecimal();
    if a.atomic != "" {
      TextOfNumber(a.atomic);
    } else {
      RatioOrder(Coefficient(a.decimal), 0, |Fractional(a.decimal)|);
      FormatUndoesCoefficient(a.decimal);
    }
  }

  /** n times x, added up one by one. */
  ghost function Repeated(n: nat, x: real): real {
    if n == 0 then 0.0 else x + Repeated(n - 1, x)
  }

  lemma {:induction false} RepeatedIsProduct(n: nat, x: real)
    ensures Repeated(n, x) == n as real * x
  {
    if n > 0 {
      RepeatedIsProduct(n - 1, x);
      assert n as real * x == (n - 1) as real * x + x;
    }
  }
}
