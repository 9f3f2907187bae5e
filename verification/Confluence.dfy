/**
 Payments commute and replay: a set of positive payments that fits the open obligation ends
 in one state, in whatever order and however often each payment is delivered, as long as
 every running total can be spelled within the text limits.
 */
module Confluence {
  import opened Text
  import opened Decimal
  import opened Amounts
  import opened Settlement
  import opened SettlementRuns

  // ---------- totals stay printable ----------

  /** At most `scale` fractional digits. */
  predicate FractionWithin(a: AgreementAmount, scale: nat) { a.atomic != "" || |Fractional(a.decimal)| <= scale }

  /** Anything up to the amount with at most `scale` fractional digits prints within the 96-character limit. */
  predicate RoomFor(amount: AgreementAmount, scale: nat) {
    amount.atomic != "" || |Whole(amount.decimal)| + 1 + scale <= 96
  }

  /** The whole part is the integer part of the value. */
  lemma {:induction false} WholeIsFloor(s: string)
    requires DecimalShape(s)
    ensures AllDigits(Whole(s))
    ensures var v := Ratio(Coefficient(s), |Fractional(s)|); var n := Number(Whole(s)) as real; n <= v < n + 1.0
  {
    DecimalParts(s);
    var w, f := Whole(s), Fractional(s);
    var p := Pow10(|f|);
    NumberConcat(w, f);
    NumberBound(f);
    RatioWhole(Number(w), |f|);
    RatioSum(Number(w) * p, Number(f), |f|);
    FractionBelowOne(Number(f), |f|);
  }

  lemma {:induction false} RatioWhole(n: nat, k: nat)
    ensures Ratio(n * Pow10(k), k) == n as real
  {
    RatioScale(n, 0, k);
    assert Ratio(n, 0) == n as real / 1.0;
  }

  lemma {:induction false} FractionBelowOne(f: nat, k: nat)
    requires f < Pow10(k)
    ensures 0.0 <= Ratio(f, k) < 1.0
  {
    RatioOrder(f, Pow10(k), k);
    RatioOrder(0, f, k);
    RatioWhole(1, k);
    assert Ratio(0, k) == 0.0;
    assert 1 * Pow10(k) == Pow10(k);
  }

  lemma {:induction false} WholeMonotone(s: string, t: string)
    requires DecimalShape(s) && DecimalShape(t)
    requires Ratio(Coefficient(s), |Fractional(s)|) <= Ratio(Coefficient(t), |Fractional(t)|)
    ensures |Whole(s)| <= |Whole(t)|
  {
    WholeIsFloor(s);
    WholeIsFloor(t);
    if |Whole(t)| < |Whole(s)| {
      LongerIsLarger(Whole(t), Whole(s));
    }
  }

  lemma {:induction false} PrintableTotal(total: string, amount: string, scale: nat)
    requires DecimalShape(total) && CanonicalDecimal(amount) && DecimalShape(amount)
    requires Ratio(Coefficient(total), |Fractional(total)|) <= Ratio(Coefficient(amount), |Fractional(amount)|)
    requires |Whole(amount)| + 1 + scale <= 96 && |Fractional(total)| <= scale
    ensures CanonicalDecimal(total)
  {
    WholeMonotone(total, amount);
    CanonicalDecimalShape(amount);
    CanonicalDecimalShape(total);
    DecimalParts(total);
  }

  lemma {:induction false} AddFraction(a: AgreementAmount, b: AgreementAmount, scale: nat)
    requires Parseable(a) && Parseable(b) && SameProfile(a, b) && FractionWithin(a, scale) && FractionWithin(b, scale)
    ensures AddAmounts(a, b).Done? && FractionWithin(AddAmounts(a, b).value, scale)
  {
    AddExact(a, b);
    if a.atomic == "" {
      CoefficientOfCanonical(a.decimal);
      CoefficientOfCanonical(b.decimal);
      var x, y, k := DecimalOperands(a.decimal, b.decimal);
      FormatExact(x + y, k);
    }
  }

  /** A value that an amount of the obligation's asset and form can spell. */
  ghost predicate Spellable(o: SettlementObligation, v: real) {
    exists a :: Spells(o, a, v)
  }

  ghost predicate Spells(o: SettlementObligation, a: AgreementAmount, v: real) {
    Parseable(a) && SameProfile(a, o.amount) && Value(a) == v
  }

  lemma {:induction false} SameAmount(a: AgreementAmount, b: AgreementAmount, o: AgreementAmount)
    requires Readable(a) && Readable(b) && SameProfile(a, o) && SameProfile(b, o) && Value(a) == Value(b)
    ensures a == b
  {
    AmountUnique(a, b);
  }

  lemma {:induction false} SpellsItself(o: SettlementObligation, total: AgreementAmount, v: real)
    requires Readable(total) && SameProfile(total, o.amount) && Value(total) == v
    ensures Parseable(total) <==> Spellable(o, v)
  {
    if Parseable(total) {
      assert Spells(o, total, v);
    }
    if a :| Spells(o, a, v) {
      SameAmount(a, total, o.amount);
    }
  }

  /** The total a payment would lead to can be spelled. */
  ghost predicate Reaches(o: SettlementObligation, st: LedgerState, paid: AgreementAmount)
    requires Readable(st.paidToDate) && Readable(paid)
  {
    Spellable(o, Value(st.paidToDate) + Value(paid))
  }

  lemma {:induction false} AcceptsTotal(o: SettlementObligation, st: LedgerState, paid: AgreementAmount,
                                        total: AgreementAmount)
    requires Balanced(o, st) && ValidAmount(paid) && SameAsset(paid, o.amount)
    requires AddAmounts(st.paidToDate, paid) == Done(total) && SameProfile(total, o.amount)
    requires Readable(total) && Value(total) <= Value(o.amount)
    ensures Accepts(o, st, paid) <==> Parseable(total)
  {
  }

  lemma {:induction false} TotalOf(o: SettlementObligation, st: LedgerState, paid: AgreementAmount)
      returns (total: AgreementAmount)
    requires Balanced(o, st) && ValidAmount(paid) && SameProfile(paid, o.amount)
    ensures AddAmounts(st.paidToDate, paid) == Done(total) && Readable(total) && SameProfile(total, o.amount)
    ensures Readable(paid) && Value(total) == Value(st.paidToDate) + Value(paid)
  {
    PaymentArithmetic(o, st, paid);
    total := AddAmounts(st.paidToDate, paid).value;
  }

  lemma {:induction false} ReachesTotal(o: SettlementObligation, st: LedgerState, paid: AgreementAmount,
                                        total: AgreementAmount)
    requires Readable(st.paidToDate) && Readable(paid) && Readable(total) && SameProfile(total, o.amount)
    requires Value(total) == Value(st.paidToDate) + Value(paid)
    ensures Parseable(total) <==> Reaches(o, st, paid)
  {
    SpellsItself(o, total, Value(total));
  }

  lemma {:induction false} NoMore(a: real, b: real, c: real, total: real)
    requires a + b <= c && total == a + b
    ensures total <= c
  {
  }

  /** A payment whose value fits is accepted exactly when the new total can be spelled. */
  lemma {:induction false} FittingPaymentAccepted(o: SettlementObligation, st: LedgerState, paid: AgreementAmount)
    requires Balanced(o, st) && ValidAmount(paid) && SameProfile(paid, o.amount) && Readable(paid)
    requires Value(st.paidToDate) + Value(paid) <= Value(o.amount)
    ensures Accepts(o, st, paid) <==> Reaches(o, st, paid)
  {
    var total := TotalOf(o, st, paid);
    NoMore(Value(st.paidToDate), Value(paid), Value(o.amount), Value(total));
    AcceptsTotal(o, st, paid, total);
    ReachesTotal(o, st, paid, total);
  }

  /** Integers can always be spelled. */
  lemma {:induction false} AtomicSpellable(o: SettlementObligation, v: real, n: nat)
    requires o.amount.atomic != "" && v == n as real
    ensures Spellable(o, v)
  {
    NumberOfText(n);
    var a := o.amount.(atomic := NatText(n), decimal := "");
    assert Spells(o, a, v);
  }

  // ---------- delivering a sequence of payments ----------

  /** A payment, delivered at some moment. */
  datatype Delivery = Delivery(payment: Payment, before: Instant)

  ghost function Payments(ds: seq<Delivery>): (ps: seq<Payment>)
    ensures |ps| == |ds|
  {
    seq(|ds|, i requires 0 <= i < |ds| => ds[i].payment)
  }

  type Pay = (LedgerState, Delivery) -> Attempt<LedgerState>

  ghost function Payer(digest: Digester, o: SettlementObligation): Pay {
    (st: LedgerState, d: Delivery) => ApplyPayment(digest, st, o, d.payment.evidence, d.payment.amount, d.before)
  }

  /** One call after the other, up to the first that fails. */
  ghost function PayEach(pay: Pay, st: LedgerState, ds: seq<Delivery>): Attempt<LedgerState>
    decreases |ds|
  {
    if ds == [] then Done(st)
    else
      var r := pay(st, ds[0]);
      if r.Done? then PayEach(pay, r.value, ds[1..]) else r
  }

  ghost function PayAll(digest: Digester, o: SettlementObligation, st: LedgerState,
                        ds: seq<Delivery>): Attempt<LedgerState>
  {
    PayEach(Payer(digest, o), st, ds)
  }

  ghost function Known(st: LedgerState): set<string> { set e | e in st.applied }

  /** The first delivery of every payment whose evidence is not yet known. */
  ghost function Fresh(ps: seq<Payment>, known: set<string>): seq<Payment>
    decreases |ps|
  {
    if ps == [] then []
    else if ps[0].evidence in known then Fresh(ps[1..], known)
    else [ps[0]] + Fresh(ps[1..], known + {ps[0].evidence})
  }

  /** The first delivery of every new payment comes before the obligation expires; replays may come at any time. */
  ghost predicate Timely(o: SettlementObligation, ds: seq<Delivery>, known: set<string>)
    decreases |ds|
  {
    ds == [] ||
    if ds[0].payment.evidence in known then Timely(o, ds[1..], known)
    else (o.expiresAt == 0 || ds[0].before(o.expiresAt)) && Timely(o, ds[1..], known + {ds[0].payment.evidence})
  }

  /** Every running total of the new payments can be spelled. */
  ghost predicate Spelled(o: SettlementObligation, paid: real, ns: seq<Payment>)
    requires AllReadable(ns)
    decreases |ns|
  {
    ns == [] ||
    var total := paid + Value(ns[0].amount);
    Spellable(o, total) && Spelled(o, total, ns[1..])
  }

  /** A positive payment in the obligation's asset and form. */
  ghost predicate Fitting(o: SettlementObligation, p: Payment) {
    && IsDigest(p.evidence) && ValidAmount(p.amount) && SameProfile(p.amount, o.amount)
    && Readable(p.amount) && Value(p.amount) > 0.0
  }

  ghost predicate AllFitting(o: SettlementObligation, ps: seq<Payment>) {
    forall k | 0 <= k < |ps| :: Fitting(o, ps[k])
  }

  lemma {:induction false} FreshFitting(o: SettlementObligation, ps: seq<Payment>, known: set<string>)
    requires AllFitting(o, ps)
    ensures AllFitting(o, Fresh(ps, known)) && AllReadable(Fresh(ps, known))
    decreases |ps|
  {
    if ps != [] {
      FreshFitting(o, ps[1..], known);
      FreshFitting(o, ps[1..], known + {ps[0].evidence});
    }
  }

  /** The new payments fit: their sum within what is outstanding, their number within the revision counter. */
  ghost predicate Fits(o: SettlementObligation, st: LedgerState, ns: seq<Payment>)
    requires Balanced(o, st)
  {
    && AllReadable(ns) && Sum(ns) <= Value(st.outstanding)
    && 0 < st.revision && st.revision + |ns| < TWO64
    && (ns != [] ==> !Terminal(st.status))
  }

  ghost predicate Deliverable(digest: Digester, o: SettlementObligation, st: LedgerState, ps: seq<Payment>) {
    Inv(digest, o, st) && AllFitting(o, ps) && Fits(o, st, Fresh(ps, Known(st)))
  }

  ghost predicate BooksAfter(st: LedgerState, ns: seq<Payment>, fin: LedgerState) {
    && fin.obligationDigest == st.obligationDigest
    && fin.applied == Sort(st.applied + Evidences(ns)) && fin.evidence == Sort(st.evidence + Evidences(ns))
    && fin.revision == st.revision + |ns|
  }

  ghost predicate MoneyAfter(o: SettlementObligation, paidBefore: real, added: real, fin: LedgerState) {
    && Readable(o.amount)
    && Readable(fin.paidToDate) && SameProfile(fin.paidToDate, o.amount) && Value(fin.paidToDate) == paidBefore + added
    && Readable(fin.outstanding) && SameProfile(fin.outstanding, o.amount)
    && Value(fin.outstanding) == Value(o.amount) - Value(fin.paidToDate)
    && fin.status == (if Value(fin.outstanding) == 0.0 then Paid else PartiallyPaid)
  }

  /** The state a group of new payments leads to, told without their order. */
  ghost predicate After(o: SettlementObligation, st: LedgerState, ns: seq<Payment>, fin: LedgerState) {
    && AllReadable(ns) && Readable(st.paidToDate)
    && if ns == [] then fin == st else BooksAfter(st, ns, fin) && MoneyAfter(o, Value(st.paidToDate), Sum(ns), fin)
  }

  lemma {:induction false} SumOfOne(p: Payment)
    requires Readable(p.amount)
    ensures AllReadable([p]) && Sum([p]) == Value(p.amount) && Evidences([p]) == [p.evidence]
  {
    assert Sum([p][1..]) == 0.0;
  }

  /** The result of an accepted new payment. */
  ghost function CreditOf(o: SettlementObligation, st: LedgerState, p: Payment): LedgerState
    requires AddAmounts(st.paidToDate, p.amount).Done?
    requires SubtractAmounts(o.amount, AddAmounts(st.paidToDate, p.amount).value).Done?
  {
    var total := AddAmounts(st.paidToDate, p.amount).value;
    Credited(st, p.evidence, total, SubtractAmounts(o.amount, total).value)
  }

  lemma {:induction false} NewPaymentResult(digest: Digester, o: SettlementObligation, st: LedgerState, p: Payment,
                                            before: Instant)
    requires Inv(digest, o, st) && IsDigest(p.evidence) && ValidAmount(p.amount) && SameProfile(p.amount, o.amount)
    requires p.evidence !in st.applied && !Terminal(st.status) && 0 < st.revision
        && (o.expiresAt == 0 || before(o.expiresAt))
    requires Accepts(o, st, p.amount)
    ensures AddAmounts(st.paidToDate, p.amount).Done?
    ensures SubtractAmounts(o.amount, AddAmounts(st.paidToDate, p.amount).value).Done?
    ensures ApplyPayment(digest, st, o, p.evidence, p.amount, before) == Done(CreditOf(o, st, p))
  {
    PaymentOutcome(o, st, p.amount);
  }

  lemma {:induction false} CreditedBooks(st: LedgerState, p: Payment, total: AgreementAmount, rest: AgreementAmount)
    requires st.revision + 1 < TWO64
    ensures BooksAfter(st, [p], Credited(st, p.evidence, total, rest))
  {
    assert Evidences([p]) == [p.evidence];
    SmallModulus(st.revision + 1);
  }

  lemma {:induction false} SmallModulus(n: nat)
    requires n < TWO64
    ensures n % TWO64 == n
  {
  }

  lemma {:induction false} CreditedMoney(o: SettlementObligation, st: LedgerState, p: Payment, total: AgreementAmount,
                                         rest: AgreementAmount)
    requires Readable(st.paidToDate) && Readable(o.amount) && Readable(p.amount) && Readable(total) && Readable(rest)
    requires SameProfile(total, o.amount) && SameProfile(rest, o.amount)
    requires Value(total) == Value(st.paidToDate) + Value(p.amount) && Value(rest) == Value(o.amount) - Value(total)
    ensures MoneyAfter(o, Value(st.paidToDate), Value(p.amount), Credited(st, p.evidence, total, rest))
  {
    ZeroExact(rest);
  }

  lemma {:induction false} CreditAfter(o: SettlementObligation, st: LedgerState, p: Payment)
    requires Balanced(o, st) && ValidAmount(p.amount) && SameAsset(p.amount, o.amount) && Accepts(o, st, p.amount)
    requires st.revision + 1 < TWO64
    requires SubtractAmounts(o.amount, AddAmounts(st.paidToDate, p.amount).value).Done?
    ensures After(o, st, [p], CreditOf(o, st, p))
  {
    PaymentOutcome(o, st, p.amount);
    var total := AddAmounts(st.paidToDate, p.amount).value;
    var rest := SubtractAmounts(o.amount, total).value;
    SumOfOne(p);
    CreditedBooks(st, p, total, rest);
    CreditedMoney(o, st, p, total, rest);
  }

  /** A payment that is new, fits and is in time. */
  ghost predicate Due(digest: Digester, o: SettlementObligation, st: LedgerState, p: Payment) {
    && Inv(digest, o, st) && Fitting(o, p) && p.evidence !in st.applied && !Terminal(st.status)
    && Value(p.amount) <= Value(st.outstanding) && 0 < st.revision && st.revision + 1 < TWO64
  }

  lemma {:induction false} PostedExact(o: SettlementObligation, st: LedgerState, evidence: string,
                                       paid: AgreementAmount)
    requires Balanced(o, st) && ValidAmount(paid) && SameAsset(paid, o.amount)
    ensures Posted(st, o, evidence, paid).Done? <==> Accepts(o, st, paid)
  {
    PaymentOutcome(o, st, paid);
  }

  lemma {:induction false} DueIsPosted(digest: Digester, o: SettlementObligation, st: LedgerState, p: Payment,
                                       before: Instant)
    requires Due(digest, o, st, p)
    ensures ApplyPayment(digest, st, o, p.evidence, p.amount, before)
         == if o.expiresAt == 0 || before(o.expiresAt) then Posted(st, o, p.evidence, p.amount) else Failed
  {
  }

  lemma {:induction false} DueAccepted(digest: Digester, o: SettlementObligation, st: LedgerState, p: Payment)
    requires Due(digest, o, st, p)
    ensures Accepts(o, st, p.amount) <==> Reaches(o, st, p.amount)
  {
    FittingPaymentAccepted(o, st, p.amount);
  }

  /** A single new payment that fits is booked when it is in time and its total can be spelled, and fails otherwise. */
  lemma {:induction false} OnePayment(digest: Digester, o: SettlementObligation, st: LedgerState, p: Payment,
                                      before: Instant)
    requires Due(digest, o, st, p)
    ensures ApplyPayment(digest, st, o, p.evidence, p.amount, before).Done? <==>
            (o.expiresAt == 0 || before(o.expiresAt)) && Reaches(o, st, p.amount)
  {
    DueIsPosted(digest, o, st, p, before);
    PostedExact(o, st, p.evidence, p.amount);
    DueAccepted(digest, o, st, p);
  }

  lemma {:induction false} OnePaymentAfter(digest: Digester, o: SettlementObligation, st: LedgerState, p: Payment,
                                           before: Instant, mid: LedgerState)
    requires Due(digest, o, st, p) && ApplyPayment(digest, st, o, p.evidence, p.amount, before) == Done(mid)
    ensures Inv(digest, o, mid) && After(o, st, [p], mid)
  {
    DueIsPosted(digest, o, st, p, before);
    PostedExact(o, st, p.evidence, p.amount);
    NewPaymentResult(digest, o, st, p, before);
    CreditedInv(digest, o, st, p.evidence, p.amount);
    CreditAfter(o, st, p);
  }

  lemma {:induction false} SortTwice(s: seq<string>, x: seq<string>, y: seq<string>)
    ensures Sort(Sort(s + x) + y) == Sort(s + (x + y))
  {
    assert multiset(Sort(s + x) + y) == multiset(s + x) + multiset(y);
    assert multiset(s + (x + y)) == multiset(s) + multiset(x) + multiset(y);
    SortPermutation(Sort(s + x) + y, s + (x + y));
  }

  lemma {:induction false} AfterCompose(o: SettlementObligation, st: LedgerState, p: Payment, mid: LedgerState,
                                        ns: seq<Payment>, fin: LedgerState)
    requires After(o, st, [p], mid) && After(o, mid, ns, fin)
    ensures After(o, st, [p] + ns, fin)
  {
    if ns == [] {
      assert [p] + ns == [p];
    } else {
      SumConcat([p], ns);
      assert Evidences([p] + ns) == Evidences([p]) + Evidences(ns);
      SortTwice(st.applied, Evidences([p]), Evidences(ns));
      SortTwice(st.evidence, Evidences([p]), Evidences(ns));
    }
  }

  lemma {:induction false} KnownAfter(st: LedgerState, mid: LedgerState, e: string)
    requires mid.applied == Sort(st.applied + [e])
    ensures Known(mid) == Known(st) + {e}
  {
    forall x: string
      ensures x in mid.applied <==> x in st.applied || x == e
    {
      assert x in mid.applied <==> x in multiset(Sort(st.applied + [e]));
    }
  }

  /** After the first new payment the rest still fits. */
  lemma {:induction false} RestFits(digest: Digester, o: SettlementObligation, st: LedgerState, p: Payment,
                                    rest: seq<Payment>, mid: LedgerState)
    requires Inv(digest, o, st) && Inv(digest, o, mid) && After(o, st, [p], mid)
    requires AllReadable(rest) && (forall k | 0 <= k < |rest| :: Value(rest[k].amount) > 0.0)
    requires Fits(o, st, [p] + rest)
    ensures Fits(o, mid, rest)
  {
    SumConcat([p], rest);
    if rest != [] {
      SumPositive(rest);
    }
  }

  lemma {:induction false} SumPositive(ps: seq<Payment>)
    requires ps != [] && AllReadable(ps) && forall k | 0 <= k < |ps| :: Value(ps[k].amount) > 0.0
    ensures Sum(ps) > 0.0
  {
    if |ps| > 1 { SumPositive(ps[1..]); }
  }

  lemma {:induction false} HeadFits(o: SettlementObligation, st: LedgerState, p: Payment, rest: seq<Payment>)
    requires Balanced(o, st) && Readable(p.amount) && AllReadable(rest)
        && (forall k | 0 <= k < |rest| :: Value(rest[k].amount) > 0.0)
    requires Fits(o, st, [p] + rest)
    ensures Value(p.amount) <= Value(st.outstanding) && 0 < st.revision && st.revision + 1 < TWO64
        && !Terminal(st.status)
  {
    SumOfOne(p);
    SumConcat([p], rest);
    if rest != [] { SumPositive(rest); }
  }

  lemma {:induction false} FreshHead(ps: seq<Payment>, st: LedgerState, mid: LedgerState)
    requires ps != [] && ps[0].evidence !in st.applied && mid.applied == Sort(st.applied + [ps[0].evidence])
    ensures Fresh(ps, Known(st)) == [ps[0]] + Fresh(ps[1..], Known(mid))
  {
    KnownAfter(st, mid, ps[0].evidence);
  }

  lemma {:induction false} AppliedAfterOne(o: SettlementObligation, st: LedgerState, p: Payment, mid: LedgerState)
    requires After(o, st, [p], mid)
    ensures mid.applied == Sort(st.applied + [p.evidence])
  {
    assert Evidences([p]) == [p.evidence];
  }

  lemma {:induction false} NewIsDue(digest: Digester, o: SettlementObligation, st: LedgerState, ps: seq<Payment>)
    requires ps != [] && Deliverable(digest, o, st, ps) && ps[0].evidence !in st.applied
    ensures Due(digest, o, st, ps[0])
  {
    var rest := Fresh(ps[1..], Known(st) + {ps[0].evidence});
    FreshFitting(o, ps[1..], Known(st) + {ps[0].evidence});
    HeadFits(o, st, ps[0], rest);
  }

  /** What remains after a new payment is still deliverable. */
  lemma {:induction false} StillDeliverable(digest: Digester, o: SettlementObligation, st: LedgerState,
                                            ps: seq<Payment>, mid: LedgerState)
    requires ps != [] && Deliverable(digest, o, st, ps) && ps[0].evidence !in st.applied
    requires After(o, st, [ps[0]], mid) && Inv(digest, o, mid)
    ensures Known(mid) == Known(st) + {ps[0].evidence}
    ensures Fresh(ps, Known(st)) == [ps[0]] + Fresh(ps[1..], Known(mid))
    ensures Deliverable(digest, o, mid, ps[1..])
    ensures Value(mid.paidToDate) == Value(st.paidToDate) + Value(ps[0].amount)
  {
    AppliedAfterOne(o, st, ps[0], mid);
    KnownAfter(st, mid, ps[0].evidence);
    FreshHead(ps, st, mid);
    FreshFitting(o, ps[1..], Known(mid));
    RestFits(digest, o, st, ps[0], Fresh(ps[1..], Known(mid)), mid);
    SumOfOne(ps[0]);
  }

  lemma {:induction false} PaymentsTail(ds: seq<Delivery>)
    requires ds != []
    ensures Payments(ds)[0] == ds[0].payment && Payments(ds)[1..] == Payments(ds[1..])
  {
  }

  lemma {:induction false} Replay(digest: Digester, o: SettlementObligation, st: LedgerState, p: Payment,
                                  before: Instant)
    requires Inv(digest, o, st) && Fitting(o, p) && p.evidence in st.applied && st.revision != 0
    ensures ApplyPayment(digest, st, o, p.evidence, p.amount, before) == Done(st)
  {
  }

  /** The two things that can still go wrong when the payments fit. */
  ghost predicate Smooth(o: SettlementObligation, st: LedgerState, ds: seq<Delivery>)
    requires Readable(st.paidToDate) && AllReadable(Fresh(Payments(ds), Known(st)))
  {
    Timely(o, ds, Known(st)) && Spelled(o, Value(st.paidToDate), Fresh(Payments(ds), Known(st)))
  }

  /** A new payment is in time and its total can be spelled. */
  ghost predicate Passes(o: SettlementObligation, st: LedgerState, d: Delivery)
    requires Readable(st.paidToDate)
  {
    Readable(d.payment.amount) && (o.expiresAt == 0 || d.before(o.expiresAt)) && Reaches(o, st, d.payment.amount)
  }

  lemma {:induction false} FreshSplit(ds: seq<Delivery>, known: set<string>)
    requires ds != [] && ds[0].payment.evidence !in known
    ensures var rest := Fresh(Payments(ds[1..]), known + {ds[0].payment.evidence});
            Fresh(Payments(ds), known) == [ds[0].payment] + rest && Fresh(Payments(ds), known)[1..] == rest
  {
    PaymentsTail(ds);
  }

  lemma {:induction false} SmoothHead(o: SettlementObligation, st: LedgerState, ds: seq<Delivery>, mid: LedgerState)
    requires ds != [] && ds[0].payment.evidence !in Known(st) && Known(mid) == Known(st) + {ds[0].payment.evidence}
    requires Readable(st.paidToDate) && Readable(mid.paidToDate) && Readable(ds[0].payment.amount)
    requires Value(mid.paidToDate) == Value(st.paidToDate) + Value(ds[0].payment.amount)
    requires AllReadable(Fresh(Payments(ds[1..]), Known(mid))) && AllReadable(Fresh(Payments(ds), Known(st)))
    ensures Smooth(o, st, ds) <==> Passes(o, st, ds[0]) && Smooth(o, mid, ds[1..])
  {
    FreshSplit(ds, Known(st));
  }

  lemma {:induction false} SmoothPasses(o: SettlementObligation, st: LedgerState, ds: seq<Delivery>)
    requires ds != [] && ds[0].payment.evidence !in Known(st)
    requires Readable(st.paidToDate) && AllReadable(Fresh(Payments(ds), Known(st))) && Smooth(o, st, ds)
    ensures Passes(o, st, ds[0])
  {
    FreshSplit(ds, Known(st));
    var ns := Fresh(Payments(ds), Known(st));
    assert ns[0] == ds[0].payment;
  }

  lemma {:induction false} FirstDelivery(digest: Digester, o: SettlementObligation, st: LedgerState, d: Delivery)
    requires Due(digest, o, st, d.payment)
    ensures Payer(digest, o)(st, d).Done? <==> Passes(o, st, d)
  {
    OnePayment(digest, o, st, d.payment, d.before);
  }

  lemma {:induction false} FirstDeliveryAfter(digest: Digester, o: SettlementObligation, st: LedgerState, d: Delivery,
                                              mid: LedgerState)
    requires Due(digest, o, st, d.payment) && Payer(digest, o)(st, d) == Done(mid)
    ensures Inv(digest, o, mid) && After(o, st, [d.payment], mid)
  {
    OnePaymentAfter(digest, o, st, d.payment, d.before, mid);
  }

  lemma {:induction false} DeliverReplay(digest: Digester, o: SettlementObligation, st: LedgerState, ds: seq<Delivery>)
    requires ds != [] && Deliverable(digest, o, st, Payments(ds)) && ds[0].payment.evidence in st.applied
    ensures Payer(digest, o)(st, ds[0]) == Done(st)
    ensures Fresh(Payments(ds), Known(st)) == Fresh(Payments(ds[1..]), Known(st))
    ensures Deliverable(digest, o, st, Payments(ds[1..]))
        && (Timely(o, ds, Known(st)) <==> Timely(o, ds[1..], Known(st)))
  {
    PaymentsTail(ds);
    assert Fitting(o, Payments(ds)[0]);
    Replay(digest, o, st, ds[0].payment, ds[0].before);
    FittingTail(o, Payments(ds));
  }

  lemma {:induction false} FittingTail(o: SettlementObligation, ps: seq<Payment>)
    requires AllFitting(o, ps) && ps != []
    ensures AllFitting(o, ps[1..])
  {
  }

  /** What is claimed of a delivery. */
  ghost predicate Outcomes(o: SettlementObligation, st: LedgerState, ds: seq<Delivery>, r: Attempt<LedgerState>) {
    && Readable(st.paidToDate) && AllReadable(Fresh(Payments(ds), Known(st)))
    && (r.Done? <==> Smooth(o, st, ds))
    && (r.Done? ==> After(o, st, Fresh(Payments(ds), Known(st)), r.value))
  }

  /**
   Payments that fit are all delivered exactly when each new one comes in time and every running
   total can be spelled; the end state is then that of the new payments, each counted once.
   */
  lemma {:induction false} DeliverAll(digest: Digester, o: SettlementObligation, st: LedgerState, ds: seq<Delivery>)
    requires Deliverable(digest, o, st, Payments(ds))
    ensures Outcomes(o, st, ds, PayAll(digest, o, st, ds))
    decreases |ds|
  {
    FreshFitting(o, Payments(ds), Known(st));
    if ds != [] {
      if ds[0].payment.evidence in st.applied {
        DeliverReplay(digest, o, st, ds);
        DeliverAll(digest, o, st, ds[1..]);
      } else {
        PaymentsTail(ds);
        NewIsDue(digest, o, st, Payments(ds));
        FirstDelivery(digest, o, st, ds[0]);
        var r := Payer(digest, o)(st, ds[0]);
        if r.Done? {
          FirstDeliveryAfter(digest, o, st, ds[0], r.value);
          StillDeliverable(digest, o, st, Payments(ds), r.value);
          DeliverAll(digest, o, r.value, ds[1..]);
          DeliverOn(Payer(digest, o), o, st, ds, r.value);
        } else if Smooth(o, st, ds) {
          SmoothPasses(o, st, ds);
        }
      }
    }
  }

  lemma {:induction false} AfterHead(o: SettlementObligation, st: LedgerState, ds: seq<Delivery>, mid: LedgerState,
                                     fin: LedgerState)
    requires ds != [] && ds[0].payment.evidence !in Known(st) && Known(mid) == Known(st) + {ds[0].payment.evidence}
    requires After(o, st, [ds[0].payment], mid) && After(o, mid, Fresh(Payments(ds[1..]), Known(mid)), fin)
    ensures After(o, st, Fresh(Payments(ds), Known(st)), fin)
  {
    FreshSplit(ds, Known(st));
    AfterCompose(o, st, ds[0].payment, mid, Fresh(Payments(ds[1..]), Known(mid)), fin);
  }

  lemma {:induction false} PayEachHead(pay: Pay, st: LedgerState, ds: seq<Delivery>, mid: LedgerState)
    requires ds != [] && pay(st, ds[0]) == Done(mid)
    ensures PayEach(pay, st, ds) == PayEach(pay, mid, ds[1..])
  {
  }

  lemma {:induction false} DeliverOn(pay: Pay, o: SettlementObligation, st: LedgerState, ds: seq<Delivery>,
                                     mid: LedgerState)
    requires ds != [] && ds[0].payment.evidence !in st.applied && Known(mid) == Known(st) + {ds[0].payment.evidence}
    requires pay(st, ds[0]) == Done(mid) && AllReadable(Fresh(Payments(ds), Known(st)))
    requires Outcomes(o, mid, ds[1..], PayEach(pay, mid, ds[1..]))
    requires After(o, st, [ds[0].payment], mid) && Passes(o, st, ds[0])
    requires Value(mid.paidToDate) == Value(st.paidToDate) + Value(ds[0].payment.amount)
    ensures Outcomes(o, st, ds, PayEach(pay, st, ds))
  {
    PayEachHead(pay, st, ds, mid);
    SmoothHead(o, st, ds, mid);
    var r := PayEach(pay, mid, ds[1..]);
    if r.Done? {
      AfterHead(o, st, ds, mid, r.value);
    }
  }

  // ---------- order and repetition do not matter ----------

  /** Evidence names one payment. */
  ghost predicate Consistent(ps: seq<Payment>) {
    forall i, j | 0 <= i < |ps| && 0 <= j < |ps| && ps[i].evidence == ps[j].evidence :: ps[i] == ps[j]
  }

  ghost predicate SamePayments(ps: seq<Payment>, qs: seq<Payment>) {
    forall p: Payment :: p in ps <==> p in qs
  }

  /** The new payments are exactly those delivered whose evidence is unknown, each once. */
  lemma {:induction false} FreshMembers(ps: seq<Payment>, known: set<string>)
    requires Consistent(ps)
    ensures Distinct(Fresh(ps, known))
    ensures forall p :: p in Fresh(ps, known) <==> p in ps && p.evidence !in known
    decreases |ps|
  {
    if ps != [] {
      var tail := ps[1..];
      assert Consistent(tail);
      assert forall p :: p in ps <==> p == ps[0] || p in tail;
      if ps[0].evidence in known {
        FreshMembers(tail, known);
      } else {
        FreshMembers(tail, known + {ps[0].evidence});
        var rest := Fresh(tail, known + {ps[0].evidence});
        assert Fresh(ps, known) == [ps[0]] + rest;
        forall p: Payment
          ensures p in Fresh(ps, known) <==> p in ps && p.evidence !in known
        {
          assert p in Fresh(ps, known) <==> p == ps[0] || p in rest;
        }
      }
    }
  }

  lemma {:induction false} FreshSame(ps: seq<Payment>, qs: seq<Payment>, known: set<string>)
    requires Consistent(ps) && Consistent(qs) && SamePayments(ps, qs)
    ensures multiset(Fresh(ps, known)) == multiset(Fresh(qs, known))
  {
    var a, b := Fresh(ps, known), Fresh(qs, known);
    FreshMembers(ps, known);
    FreshMembers(qs, known);
    DistinctMultiset(a);
    DistinctMultiset(b);
    forall p: Payment
      ensures multiset(a)[p] == multiset(b)[p]
    {
      assert p in multiset(a) <==> p in a;
      assert p in multiset(b) <==> p in b;
    }
  }

  lemma {:induction false} SplitAt(ps: seq<Payment>, k: nat)
    requires k < |ps|
    ensures ps == ps[..k] + ([ps[k]] + ps[k + 1..])
  {
  }

  lemma {:induction false} SumWithout(ps: seq<Payment>, k: nat)
    requires AllReadable(ps) && k < |ps|
    ensures AllReadable(Without(ps, k)) && Sum(ps) == Sum(Without(ps, k)) + Value(ps[k].amount)
  {
    var a, b, m := ps[..k], ps[k + 1..], [ps[k]];
    SplitAt(ps, k);
    assert AllReadable(a) && AllReadable(b) && AllReadable(m);
    SumConcat(m, b);
    SumOfOne(ps[k]);
    SumConcat(a, m + b);
    SumConcat(a, b);
  }

  lemma {:induction false} EvidencesWithout(ps: seq<Payment>, k: nat)
    requires k < |ps|
    ensures multiset(Evidences(ps)) == multiset(Evidences(Without(ps, k))) + multiset{ps[k].evidence}
  {
    var a, b, m := ps[..k], ps[k + 1..], [ps[k]];
    SplitAt(ps, k);
    assert Evidences(m) == [ps[k].evidence];
    EvidencesConcat(m, b);
    EvidencesConcat(a, m + b);
    EvidencesConcat(a, b);
  }

  /** Sums and evidence do not depend on the order of the payments. */
  lemma {:induction false} OrderIrrelevant(a: seq<Payment>, b: seq<Payment>)
    requires multiset(a) == multiset(b) && AllReadable(a) && AllReadable(b)
    ensures |a| == |b| && Sum(a) == Sum(b) && multiset(Evidences(a)) == multiset(Evidences(b))
    decreases |a|
  {
    assert |multiset(a)| == |a| && |multiset(b)| == |b|;
    if a == [] {
      assert b == [];
    } else {
      assert a[0] in multiset(b);
      var k :| 0 <= k < |b| && b[k] == a[0];
      WithoutMultiset(a, 0);
      WithoutMultiset(b, k);
      SumWithout(a, 0);
      SumWithout(b, k);
      EvidencesWithout(a, 0);
      EvidencesWithout(b, k);
      OrderIrrelevant(Without(a, 0), Without(b, k));
    }
  }

  lemma {:induction false} AfterUnique(o: SettlementObligation, st: LedgerState, ms: seq<Payment>, ns: seq<Payment>,
                                       x: LedgerState, y: LedgerState)
    requires After(o, st, ms, x) && After(o, st, ns, y) && multiset(ms) == multiset(ns)
    ensures x == y
  {
    OrderIrrelevant(ms, ns);
    if ms != [] {
      assert multiset(st.applied + Evidences(ms)) == multiset(st.applied + Evidences(ns));
      SortPermutation(st.applied + Evidences(ms), st.applied + Evidences(ns));
      assert multiset(st.evidence + Evidences(ms)) == multiset(st.evidence + Evidences(ns));
      SortPermutation(st.evidence + Evidences(ms), st.evidence + Evidences(ns));
      SameAmount(x.paidToDate, y.paidToDate, o.amount);
      SameAmount(x.outstanding, y.outstanding, o.amount);
    }
  }

  lemma {:induction false} SameDeliverable(digest: Digester, o: SettlementObligation, st: LedgerState, ps: seq<Payment>,
                                           qs: seq<Payment>)
    requires Deliverable(digest, o, st, ps) && AllFitting(o, qs) && Consistent(ps) && Consistent(qs)
        && SamePayments(ps, qs)
    ensures Deliverable(digest, o, st, qs)
  {
    FreshSame(ps, qs, Known(st));
    FreshFitting(o, ps, Known(st));
    FreshFitting(o, qs, Known(st));
    OrderIrrelevant(Fresh(ps, Known(st)), Fresh(qs, Known(st)));
  }

  /**
   Confluence: two deliveries of the same payments, in any order and with any repetition, that
   both succeed end in the identical state, evidence lists and revision included.  Each of them
   succeeds exactly when it is smooth.
   */
  lemma {:induction false} PaymentsConfluent(digest: Digester, o: SettlementObligation, st: LedgerState,
                                             ds: seq<Delivery>, es: seq<Delivery>)
    requires Deliverable(digest, o, st, Payments(ds)) && AllFitting(o, Payments(es))
    requires Consistent(Payments(ds)) && Consistent(Payments(es)) && SamePayments(Payments(ds), Payments(es))
    ensures AllReadable(Fresh(Payments(ds), Known(st))) && AllReadable(Fresh(Payments(es), Known(st)))
    ensures PayAll(digest, o, st, ds).Done? <==> Smooth(o, st, ds)
    ensures PayAll(digest, o, st, es).Done? <==> Smooth(o, st, es)
    ensures PayAll(digest, o, st, ds).Done? && PayAll(digest, o, st, es).Done? ==>
              PayAll(digest, o, st, ds) == PayAll(digest, o, st, es)
  {
    var a, b := Fresh(Payments(ds), Known(st)), Fresh(Payments(es), Known(st));
    FreshSame(Payments(ds), Payments(es), Known(st));
    FreshFitting(o, Payments(ds), Known(st));
    FreshFitting(o, Payments(es), Known(st));
    OrderIrrelevant(a, b);
    DeliverAll(digest, o, st, ds);
    SameDeliverable(digest, o, st, Payments(ds), Payments(es));
    DeliverAll(digest, o, st, es);
    if PayAll(digest, o, st, ds).Done? && PayAll(digest, o, st, es).Done? {
      AfterUnique(o, st, a, b, PayAll(digest, o, st, ds).value, PayAll(digest, o, st, es).value);
    }
  }

  /** Atomic amounts are always spelled: timely deliveries of fitting payments all succeed, in every order. */
  lemma {:induction false} AtomicConfluent(digest: Digester, o: SettlementObligation, st: LedgerState,
                                           ds: seq<Delivery>, es: seq<Delivery>)
    requires Deliverable(digest, o, st, Payments(ds)) && AllFitting(o, Payments(es)) && o.amount.atomic != ""
    requires Consistent(Payments(ds)) && Consistent(Payments(es)) && SamePayments(Payments(ds), Payments(es))
    requires Timely(o, ds, Known(st)) && Timely(o, es, Known(st))
    ensures PayAll(digest, o, st, ds).Done? && PayAll(digest, o, st, ds) == PayAll(digest, o, st, es)
  {
    PaymentsConfluent(digest, o, st, ds, es);
    FreshFitting(o, Payments(ds), Known(st));
    FreshFitting(o, Payments(es), Known(st));
    AtomicSpelled(o, Number(st.paidToDate.atomic), Fresh(Payments(ds), Known(st)));
    AtomicSpelled(o, Number(st.paidToDate.atomic), Fresh(Payments(es), Known(st)));
  }

  lemma {:induction false} AtomicSpelled(o: SettlementObligation, paid: nat, ns: seq<Payment>)
    requires o.amount.atomic != "" && AllFitting(o, ns) && AllReadable(ns)
    ensures Spelled(o, paid as real, ns)
    decreases |ns|
  {
    if ns != [] {
      assert Fitting(o, ns[0]);
      var total := paid + Number(ns[0].amount.atomic);
      AtomicSpellable(o, paid as real + Value(ns[0].amount), total);
      AtomicSpelled(o, total, ns[1..]);
    }
  }

  /** Decimal payments with few enough fractional digits are always spelled. */
  lemma {:induction false} DecimalSpelled(o: SettlementObligation, paid: AgreementAmount, ns: seq<Payment>, scale: nat)
    requires AllFitting(o, ns) && AllReadable(ns) && forall k | 0 <= k < |ns| :: FractionWithin(ns[k].amount, scale)
    requires Parseable(o.amount) && RoomFor(o.amount, scale)
    requires Parseable(paid) && SameProfile(paid, o.amount) && FractionWithin(paid, scale)
    requires Value(paid) + Sum(ns) <= Value(o.amount)
    ensures Spelled(o, Value(paid), ns)
    decreases |ns|
  {
    if ns != [] {
      var next := ns[0].amount;
      FirstFits(o, paid, ns);
      var total := NextSpelled(o, paid, next, scale);
      RestWithin(Value(paid), Value(next), Value(total), Sum(ns[1..]), Value(o.amount));
      DecimalSpelled(o, total, ns[1..], scale);
      SpelledStep(o, Value(paid), ns, Value(total));
    }
  }

  lemma {:induction false} RestWithin(paid: real, next: real, total: real, rest: real, limit: real)
    requires paid + (next + rest) <= limit && total == paid + next
    ensures total + rest <= limit
  {
  }

  lemma {:induction false} SpelledStep(o: SettlementObligation, paid: real, ns: seq<Payment>, total: real)
    requires ns != [] && AllReadable(ns) && total == paid + Value(ns[0].amount)
    requires Spellable(o, total) && Spelled(o, total, ns[1..])
    ensures Spelled(o, paid, ns)
  {
  }

  lemma {:induction false} FirstFits(o: SettlementObligation, paid: AgreementAmount, ns: seq<Payment>)
    requires ns != [] && AllFitting(o, ns) && AllReadable(ns) && Readable(paid) && Readable(o.amount)
    requires Value(paid) + Sum(ns) <= Value(o.amount)
    ensures Parseable(ns[0].amount) && Value(paid) + Value(ns[0].amount) <= Value(o.amount)
  {
    assert Fitting(o, ns[0]);
    ValidParseable(ns[0].amount);
    if |ns| > 1 { SumPositive(ns[1..]); }
  }

  lemma {:induction false} NextSpelled(o: SettlementObligation, paid: AgreementAmount, next: AgreementAmount,
                                       scale: nat)
      returns (total: AgreementAmount)
    requires Parseable(o.amount) && RoomFor(o.amount, scale) && Parseable(next) && SameProfile(next, o.amount)
    requires Parseable(paid) && SameProfile(paid, o.amount) && FractionWithin(paid, scale)
        && FractionWithin(next, scale)
    requires Value(paid) + Value(next) <= Value(o.amount)
    ensures Parseable(total) && SameProfile(total, o.amount) && Value(total) == Value(paid) + Value(next)
    ensures FractionWithin(total, scale) && Spellable(o, Value(total))
  {
    AddExact(paid, next);
    AddFraction(paid, next, scale);
    total := AddAmounts(paid, next).value;
    if total.atomic == "" {
      PrintableTotal(total.decimal, o.amount.decimal, scale);
    }
    assert Spells(o, total, Value(total));
  }
}
