/**
 Where the text limits make the order of payments matter: three decimal payments that an
 obligation accepts in one order and refuses in another.
 */
module ConfluenceLimits {
  import opened Text
  import opened Decimal
  import opened Amounts
  import opened Settlement
  import opened SettlementRuns
  import opened Confluence

  function Decimals(s: string): AgreementAmount { AgreementAmount("n", "i", "", s, "u") }

  /** A hundred, to be paid in decimals. */
  function Hundred(): SettlementObligation {
    ExampleObligation().(amount := Decimals("100"), maximumAggregate := Decimals("100"))
  }

  /** A fraction of k digits, all zero but the last. */
  function Fine(k: nat, last: char): string { Zeros(k) + [last] }

  lemma {:induction false} FineNumber(k: nat, last: char)
    requires IsDigit(last) && last != '0'
    ensures Fraction(Fine(k, last)) && Number(Fine(k, last)) == DigitValue(last) && |Fine(k, last)| == k + 1
  {
    NumberZeros(k);
    SingleDigit(last);
    NumberConcat(Zeros(k), [last]);
  }

  lemma {:induction false} ComposedCoefficient(w: string, f: string)
    requires Plain(w) && (f == "" || Fraction(f))
    ensures var s := Compose(w, f);
            && DecimalShape(s) && |Fractional(s)| == |f| && Coefficient(s) == Number(w) * Pow10(|f|) + Number(f)
  {
    ComposeParts(w, f);
    NumberConcat(w, f);
  }

  lemma {:induction false} MixedRatio(n: nat, m: nat, k: nat)
    ensures Ratio(n * Pow10(k) + m, k) == n as real + Ratio(m, k)
  {
    RatioWhole(n, k);
    RatioSum(n * Pow10(k), m, k);
  }

  /** The value of a text is its whole part plus its fraction. */
  lemma {:induction false} ComposedValue(w: string, f: string)
    requires Plain(w) && (f == "" || Fraction(f))
    ensures var a := Decimals(Compose(w, f));
            Readable(a) && Value(a) == Number(w) as real + Ratio(Number(f), |f|)
  {
    ComposedCoefficient(w, f);
    MixedRatio(Number(w), Number(f), |f|);
  }

  lemma {:induction false} ComposedParseable(w: string, f: string)
    requires Plain(w) && (f == "" || Fraction(f)) && |w| <= 78
    ensures Parseable(Decimals(Compose(w, f))) <==> |Compose(w, f)| <= 96
  {
    ComposeParts(w, f);
    CanonicalDecimalShape(Compose(w, f));
  }

  /** Five units in the decimal place after the k-th; k is 93 below. */
  ghost function Tiny(k: nat): real { Ratio(5, k + 1) }

  lemma {:induction false} TinyTwice(k: nat)
    ensures Tiny(k) + Tiny(k) == Ratio(1, k) && 0.0 < Tiny(k) < 1.0
  {
    RatioSum(5, 5, k + 1);
    RatioScale(1, k, 1);
    TenOnce();
    RatioOrder(0, 5, k + 1);
    ZeroRatio(k + 1);
    Pow10Monotone(1, k + 1);
    FractionBelowOne(5, k + 1);
  }

  lemma {:induction false} TenOnce()
    ensures Pow10(1) == 10
  {
  }

  lemma {:induction false} ZeroRatio(k: nat)
    ensures Ratio(0, k) == 0.0
  {
  }

  function TinyText(k: nat): string { Compose("0", Fine(k, '5')) }

  lemma {:induction false} DigitsPlain()
    ensures Plain("0") && Number("0") == 0 && Plain("50") && Number("50") == 50 && Plain("100") && Number("100") == 100
  {
    SingleDigit('0');
    SingleDigit('1');
    SingleDigit('5');
    NumberConcat("5", "0");
    assert "5" + "0" == "50";
    NumberConcat("1", "0");
    assert "1" + "0" == "10";
    NumberConcat("10", "0");
    assert "10" + "0" == "100";
    TenOnce();
  }

  lemma {:induction false} ComposedLength(w: string, f: string)
    requires f != ""
    ensures |Compose(w, f)| == |w| + 1 + |f|
  {
  }

  /** A whole part and a fine fraction: its value, and whether it keeps within the limit. */
  lemma {:induction false} FineValue(w: string, k: nat, last: char)
    requires Plain(w) && |w| <= 78 && IsDigit(last) && last != '0'
    ensures var a := Decimals(Compose(w, Fine(k, last)));
            && Readable(a) && Value(a) == Number(w) as real + Ratio(DigitValue(last), k + 1)
            && (Parseable(a) <==> |w| + k + 2 <= 96)
  {
    FineNumber(k, last);
    ComposedValue(w, Fine(k, last));
    ComposedParseable(w, Fine(k, last));
    ComposedLength(w, Fine(k, last));
  }

  lemma {:induction false} TinyValue(k: nat)
    requires k == 93
    ensures Parseable(Decimals(TinyText(k))) && Value(Decimals(TinyText(k))) == Tiny(k)
  {
    DigitsPlain();
    FineValue("0", k, '5');
  }

  lemma {:induction false} WholeValue(w: string)
    requires Plain(w) && |w| <= 78
    ensures Parseable(Decimals(w)) && Value(Decimals(w)) == Number(w) as real
  {
    assert Compose(w, "") == w;
    ComposedValue(w, "");
    ComposedParseable(w, "");
    assert Number("") == 0 && Ratio(0, 0) == 0.0;
  }

  // ---------- which totals can be spelled ----------

  lemma {:induction false} SpelledBy(o: SettlementObligation, a: AgreementAmount, v: real)
    requires Parseable(a) && SameProfile(a, o.amount) && Value(a) == v
    ensures Spellable(o, v)
  {
    assert Spells(o, a, v);
  }

  lemma {:induction false} NotSpelledBy(o: SettlementObligation, a: AgreementAmount, v: real)
    requires Readable(a) && !Parseable(a) && SameProfile(a, o.amount) && Value(a) == v
    ensures !Spellable(o, v)
  {
    SpellsItself(o, a, v);
  }

  lemma {:induction false} FineSpelled(w: string, k: nat, last: char, v: real)
    requires Plain(w) && |w| <= 78 && IsDigit(last) && last != '0'
    requires v == Number(w) as real + Ratio(DigitValue(last), k + 1)
    ensures Spellable(Hundred(), v) <==> |w| + k + 2 <= 96
  {
    var a := Decimals(Compose(w, Fine(k, last)));
    FineValue(w, k, last);
    if Parseable(a) {
      SpelledBy(Hundred(), a, v);
    } else {
      NotSpelledBy(Hundred(), a, v);
    }
  }

  /** Only fifty and one of the two is too long: it would take ninety-seven characters. */
  lemma {:induction false} TotalsSpelled(k: nat)
    requires k == 93
    ensures Spellings(Tiny(k))
  {
    var t := Tiny(k);
    TinyTwice(k);
    DigitsPlain();
    FineSpelled("0", k, '5', t);
    FineSpelled("0", k - 1, '1', t + t);
    FineSpelled("50", k - 1, '1', t + t + 50.0);
    FineSpelled("50", k, '5', 50.0 + t);
  }

  // ---------- the two orders ----------

  function Always(): Instant { (u: nat) => true }

  function TinyPayment(c: char, k: nat): Payment
    requires LowerHex(c)
  {
    Payment(UniformDigest(c), Decimals(TinyText(k)))
  }

  function Fifty(): Payment { Payment(UniformDigest('3'), Decimals("50")) }

  lemma {:induction false} DecimalValid(s: string)
    requires Parseable(Decimals(s))
    ensures ValidAmount(Decimals(s))
  {
    LetterIdentifies('n', 128);
    LetterIdentifies('i', 256);
    LetterIdentifies('u', 128);
  }

  lemma {:induction false} HundredOpens()
    ensures NewState(ExampleDigester(), Hundred()).Ok?
  {
    ExampleObligationValid();
    DigitsPlain();
    WholeValue("100");
    DecimalValid("100");
  }

  lemma {:induction false} TinyFits(c: char, k: nat)
    requires k == 93 && LowerHex(c)
    ensures Fitting(Hundred(), TinyPayment(c, k)) && Value(TinyPayment(c, k).amount) == Tiny(k)
  {
    TinyValue(k);
    TinyTwice(k);
    DecimalValid(TinyText(k));
  }

  lemma {:induction false} FiftyFits()
    ensures Fitting(Hundred(), Fifty()) && Value(Fifty().amount) == 50.0
  {
    DigitsPlain();
    WholeValue("50");
    DecimalValid("50");
  }

  // ---------- three deliveries in a row ----------

  lemma {:induction false} Tails<T>(a: T, b: T, c: T)
    ensures [a, b, c][1..] == [b, c] && [b, c][1..] == [c] && [c][1..] == []
  {
  }

  lemma {:induction false} SumThree(a: Payment, b: Payment, c: Payment)
    requires Readable(a.amount) && Readable(b.amount) && Readable(c.amount)
    ensures AllReadable([a, b, c]) && Sum([a, b, c]) == Value(a.amount) + Value(b.amount) + Value(c.amount)
  {
    Tails(a, b, c);
    assert Sum([c]) == Value(c.amount) + Sum([]);
    assert Sum([b, c]) == Value(b.amount) + Sum([c]);
    assert Sum([a, b, c]) == Value(a.amount) + Sum([b, c]);
  }

  /** The running totals of three payments. */
  ghost predicate Totals(a: Payment, b: Payment, c: Payment, x: real, y: real, z: real) {
    && Readable(a.amount) && Readable(b.amount) && Readable(c.amount)
    && x == Value(a.amount) && y == x + Value(b.amount) && z == y + Value(c.amount)
  }

  lemma {:induction false} SpelledThree(o: SettlementObligation, a: Payment, b: Payment, c: Payment, x: real, y: real,
                                        z: real)
    requires Totals(a, b, c, x, y, z)
    ensures AllReadable([a, b, c])
    ensures Spelled(o, 0.0, [a, b, c]) <==> Spellable(o, x) && Spellable(o, y) && Spellable(o, z)
  {
    Tails(a, b, c);
    assert Spelled(o, y, [c]) <==> Spellable(o, z) && Spelled(o, z, []);
    assert Spelled(o, x, [b, c]) <==> Spellable(o, y) && Spelled(o, y, [c]);
    assert Spelled(o, 0.0, [a, b, c]) <==> Spellable(o, 0.0 + x) && Spelled(o, 0.0 + x, [b, c]);
  }

  ghost predicate Apart(a: Payment, b: Payment, c: Payment) {
    a.evidence != b.evidence && a.evidence != c.evidence && b.evidence != c.evidence
  }

  lemma {:induction false} FreshThree(a: Payment, b: Payment, c: Payment)
    requires Apart(a, b, c)
    ensures Fresh([a, b, c], {}) == [a, b, c]
  {
    Tails(a, b, c);
    var e: set<string> := {};
    assert Fresh([c], e + {a.evidence} + {b.evidence}) == [c];
    assert Fresh([b, c], e + {a.evidence}) == [b] + [c];
  }

  function Ordered(a: Payment, b: Payment, c: Payment): seq<Delivery> {
    [Delivery(a, Always()), Delivery(b, Always()), Delivery(c, Always())]
  }

  lemma {:induction false} AlwaysTimely(o: SettlementObligation, ds: seq<Delivery>, known: set<string>)
    requires forall i | 0 <= i < |ds| :: ds[i].before == Always()
    ensures Timely(o, ds, known)
    decreases |ds|
  {
    if ds != [] {
      AlwaysTimely(o, ds[1..], known);
      AlwaysTimely(o, ds[1..], known + {ds[0].payment.evidence});
    }
  }

  lemma {:induction false} OrderedPayments(a: Payment, b: Payment, c: Payment)
    ensures Payments(Ordered(a, b, c)) == [a, b, c]
  {
  }

  /** All the deliveries are accepted. */
  ghost predicate Succeed(st: LedgerState, ds: seq<Delivery>) { PayAll(ExampleDigester(), Hundred(), st, ds).Done? }

  /** Three fitting payments within the hundred. */
  ghost predicate Three(a: Payment, b: Payment, c: Payment) {
    && Apart(a, b, c) && Fitting(Hundred(), a) && Fitting(Hundred(), b) && Fitting(Hundred(), c)
    && Value(a.amount) + Value(b.amount) + Value(c.amount) <= 100.0
  }

  lemma {:induction false} FreshHundred(st: LedgerState)
    requires NewState(ExampleDigester(), Hundred()) == Ok(st)
    ensures Inv(ExampleDigester(), Hundred(), st) && Known(st) == {} && Value(st.paidToDate) == 0.0
    ensures st.revision == 1 && !Terminal(st.status) && Value(st.outstanding) == 100.0
  {
    NewStateInv(ExampleDigester(), Hundred());
    DigitsPlain();
    WholeValue("100");
    assert Known(st) == {};
  }

  lemma {:induction false} DeliverableThree(a: Payment, b: Payment, c: Payment, st: LedgerState)
    requires NewState(ExampleDigester(), Hundred()) == Ok(st) && Three(a, b, c)
    ensures Deliverable(ExampleDigester(), Hundred(), st, [a, b, c])
  {
    FreshHundred(st);
    FreshThree(a, b, c);
    SumThree(a, b, c);
  }

  lemma {:induction false} SmoothThree(a: Payment, b: Payment, c: Payment, st: LedgerState, x: real, y: real, z: real)
    requires NewState(ExampleDigester(), Hundred()) == Ok(st) && Three(a, b, c)
    requires Totals(a, b, c, x, y, z)
    ensures Readable(st.paidToDate) && AllReadable(Fresh(Payments(Ordered(a, b, c)), Known(st)))
    ensures var o := Hundred();
            Smooth(o, st, Ordered(a, b, c)) <==> Spellable(o, x) && Spellable(o, y) && Spellable(o, z)
  {
    FreshHundred(st);
    OrderedPayments(a, b, c);
    FreshThree(a, b, c);
    AlwaysTimely(Hundred(), Ordered(a, b, c), {});
    SpelledThree(Hundred(), a, b, c, x, y, z);
  }

  lemma {:induction false} ThreeSucceed(a: Payment, b: Payment, c: Payment, st: LedgerState, x: real, y: real, z: real)
    requires NewState(ExampleDigester(), Hundred()) == Ok(st) && Three(a, b, c)
    requires Totals(a, b, c, x, y, z)
    ensures var o := Hundred();
            Succeed(st, Ordered(a, b, c)) <==>
              Spellable(o, x) && Spellable(o, y) && Spellable(o, z)
  {
    DeliverableThree(a, b, c, st);
    OrderedPayments(a, b, c);
    DeliverAll(ExampleDigester(), Hundred(), st, Ordered(a, b, c));
    SmoothThree(a, b, c, st, x, y, z);
  }

  lemma {:induction false} TotalsUp(a: Payment, b: Payment, c: Payment, t: real)
    requires Readable(a.amount) && Value(a.amount) == t && Readable(b.amount) && Value(b.amount) == t
    requires Readable(c.amount) && Value(c.amount) == 50.0
    ensures Totals(a, b, c, t, t + t, t + t + 50.0) && Totals(c, a, b, 50.0, 50.0 + t, 50.0 + t + t)
  {
  }

  /** The running totals of the first order can all be spelled, and one of the second cannot. */
  ghost predicate Spellings(t: real) {
    && Spellable(Hundred(), t) && Spellable(Hundred(), t + t) && Spellable(Hundred(), t + t + 50.0)
    && !Spellable(Hundred(), 50.0 + t)
  }

  lemma {:induction false} TotalsDecide(a: Payment, b: Payment, c: Payment, st: LedgerState, x: real, y: real, z: real,
                                        u: real, v: real, w: real)
    requires NewState(ExampleDigester(), Hundred()) == Ok(st) && Three(a, b, c) && Three(c, a, b)
    requires Totals(a, b, c, x, y, z) && Totals(c, a, b, u, v, w)
    requires Spellable(Hundred(), x) && Spellable(Hundred(), y) && Spellable(Hundred(), z) && !Spellable(Hundred(), v)
    ensures Succeed(st, Ordered(a, b, c)) && !Succeed(st, Ordered(c, a, b))
  {
    ThreeSucceed(a, b, c, st, x, y, z);
    ThreeSucceed(c, a, b, st, u, v, w);
  }

  lemma {:induction false} OrdersDiffer(a: Payment, b: Payment, c: Payment, st: LedgerState, t: real)
    requires NewState(ExampleDigester(), Hundred()) == Ok(st) && Three(a, b, c) && Three(c, a, b) && Spellings(t)
    requires Value(a.amount) == t && Value(b.amount) == t && Value(c.amount) == 50.0
    ensures Succeed(st, Ordered(a, b, c)) && !Succeed(st, Ordered(c, a, b))
  {
    TotalsUp(a, b, c, t);
    TotalsDecide(a, b, c, st, t, t + t, t + t + 50.0, 50.0, 50.0 + t, 50.0 + t + t);
  }

  lemma {:induction false} PaymentsMeetHundred(k: nat)
    requires k == 93
    ensures var a, b, c := TinyPayment('1', k), TinyPayment('2', k), Fifty();
            && Three(a, b, c) && Three(c, a, b)
            && Value(a.amount) == Tiny(k) && Value(b.amount) == Tiny(k) && Value(c.amount) == 50.0
  {
    TinyFits('1', k);
    TinyFits('2', k);
    FiftyFits();
    TinyTwice(k);
  }

  /** The same three payments on the same fresh obligation: accepted in one order, refused in the other. */
  lemma {:induction false} OrderMatters() returns (k: nat)
    ensures k == 93 && NewState(ExampleDigester(), Hundred()).Ok?
    ensures var st := NewState(ExampleDigester(), Hundred()).value;
            var a, b, c := TinyPayment('1', k), TinyPayment('2', k), Fifty();
            && Succeed(st, Ordered(a, b, c))
            && !Succeed(st, Ordered(c, a, b))
  {
    k := 93;
    HundredOpens();
    PaymentsMeetHundred(k);
    TotalsSpelled(k);
    OrdersDiffer(TinyPayment('1', k), TinyPayment('2', k), Fifty(), NewState(ExampleDigester(), Hundred()).value,
                 Tiny(k));
  }
}
