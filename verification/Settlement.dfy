/**
 Billing: materialised settlement obligations and the ledger state of each one.  Payments
 are replayable by evidence digest; resolutions move an obligation to a risk or terminal
 state.  Times enter through `before`, which says whether the moment of the call precedes
 a given Unix time.
 */
module Settlement {
  import opened Text
  import opened Decimal
  import opened Amounts
  import opened AgreementTypes

  datatype SettlementObligation = SettlementObligation(
    agreementBodyDigest: string, agreementObligationId: string, instanceId: string, sequence: nat,
    predecessorInstanceId: string, payerAgentId: string, payeeAgentId: string, amount: AgreementAmount,
    notBefore: nat, dueAt: nat, expiresAt: nat, maximumAggregate: AgreementAmount, settlementAdapterUri: string,
    settlementParametersDigest: string, mandateDigest: string, stableActionId: string)

  datatype Status = Pending | PartiallyPaid | Paid | Overdue | Cancelled | Disputed | WrittenOff

  datatype LedgerState = LedgerState(
    obligationDigest: string, status: Status, applied: seq<string>, paidToDate: AgreementAmount,
    outstanding: AgreementAmount, revision: nat, evidence: seq<string>)

  /** The canonical digest of an obligation. */
  type Digester = SettlementObligation -> Result<string>

  type Instant = nat -> bool

  predicate Terminal(s: Status) { s == Paid || s == Cancelled || s == WrittenOff }

  /** `ValidateSettlementObligation`. */
  predicate ValidObligation(o: SettlementObligation) {
    && IsDigest(o.agreementBodyDigest) && BoundedIdentifier(o.agreementObligationId, 128) && IsDigest(o.instanceId)
    && o.sequence != 0 && (o.predecessorInstanceId == "" || IsDigest(o.predecessorInstanceId))
    && BoundedIdentifier(o.payerAgentId, 256) && BoundedIdentifier(o.payeeAgentId, 256)
    && ValidAmount(o.amount) && ValidAmount(o.maximumAggregate)
    && BoundedIdentifier(o.settlementAdapterUri, 256) && IsDigest(o.settlementParametersDigest)
    && (o.mandateDigest == "" || IsDigest(o.mandateDigest)) && IsDigest(o.stableActionId)
    && (o.notBefore == 0 || o.expiresAt == 0 || o.notBefore < o.expiresAt)
    && (o.dueAt == 0 || o.expiresAt == 0 || o.dueAt <= o.expiresAt)
  }

  function ZeroOf(a: AgreementAmount): AgreementAmount {
    if a.atomic != "" then a.(atomic := "0", decimal := "") else a.(atomic := "", decimal := "0")
  }

  /** `NewSettlementState`. */
  function NewState(digest: Digester, o: SettlementObligation): Result<LedgerState> {
    if !ValidObligation(o) || digest(o).Err? then Err
    else Ok(LedgerState(digest(o).value, Pending, [], ZeroOf(o.amount), o.amount, 1, []))
  }

  /** A payment call: the new ledger state, the same one for known evidence, or a refusal. */
  function ApplyPayment(digest: Digester, st: LedgerState, o: SettlementObligation, evidence: string,
                        paid: AgreementAmount, before: Instant): Attempt<LedgerState> {
    if !ValidObligation(o) || !IsDigest(evidence) || !ValidAmount(paid) || !SameAsset(paid, o.amount) then Failed
    else if digest(o) != Ok(st.obligationDigest) || st.revision == 0 then Failed
    else if evidence in st.applied then Done(st)
    else if Terminal(st.status) then Failed
    else if o.expiresAt != 0 && !before(o.expiresAt) then Failed
    else Posted(st, o, evidence, paid)
  }

  /** The state after a new payment, unless it exceeds the amount. */
  function Posted(st: LedgerState, o: SettlementObligation, evidence: string,
                  paid: AgreementAmount): Attempt<LedgerState>
  {
    var total := AddAmounts(st.paidToDate, paid);
    if total.Panicked? then Panicked
    else if total.Failed? || CompareAmounts(total.value, o.amount) > 0 then Failed
    else
      var rest := SubtractAmounts(o.amount, total.value);
      if rest.Panicked? then Panicked
      else if rest.Failed? then Failed
      else Done(Credited(st, evidence, total.value, rest.value))
  }

  function Credited(st: LedgerState, evidence: string, total: AgreementAmount, rest: AgreementAmount): LedgerState {
    st.(applied := Sort(st.applied + [evidence]), evidence := Sort(st.evidence + [evidence]),
        paidToDate := total, outstanding := rest, revision := (st.revision + 1) % TWO64,
        status := if AmountIsZero(rest) then Paid else PartiallyPaid)
  }

  predicate Allowed(from: Status, target: Status, o: SettlementObligation, before: Instant) {
    match target
    case Overdue => (from == Pending || from == PartiallyPaid) && o.dueAt != 0 && !before(o.dueAt)
    case Cancelled => from == Pending || from == PartiallyPaid || from == Overdue || from == Disputed
    case Disputed => from == Pending || from == PartiallyPaid || from == Overdue
    case WrittenOff => from == Overdue || from == Disputed
    case _ => false
  }

  /** A call that moves an obligation to a risk or terminal state. */
  ghost function Resolve(digest: Digester, st: LedgerState, o: SettlementObligation, target: Status, evidence: string,
                   before: Instant): Result<LedgerState> {
    if !ValidObligation(o) || !IsDigest(evidence) || st.revision == 0 then Err
    else if digest(o) != Ok(st.obligationDigest) then Err
    else if evidence in st.evidence && st.status == target then Ok(st)
    else if !Allowed(st.status, target, o, before) then Err
    else
      var refs := Sort(st.evidence + [evidence]);
      if !NeighboursDiffer(refs) then Err
      else Ok(st.(status := target, revision := (st.revision + 1) % TWO64, evidence := refs))
  }

  // ---------- the calls, step by step ----------

  /** A search of a list of digests. */
  method Holds(digests: seq<string>, wanted: string) returns (found: bool)
    ensures found <==> wanted in digests
  {
    for i := 0 to |digests|
      invariant wanted !in digests[..i]
    {
      if digests[i] == wanted {
        return true;
      }
      assert digests[..i + 1] == digests[..i] + [digests[i]];
    }
    assert digests[..|digests|] == digests;
    return false;
  }

  /** `ApplyPayment`, on a copy of the state. */
  method PayObligation(digest: Digester, st: LedgerState, o: SettlementObligation, evidence: string,
                       paid: AgreementAmount, before: Instant) returns (r: Attempt<LedgerState>)
    ensures r == ApplyPayment(digest, st, o, evidence, paid, before)
  {
    if !ValidObligation(o) || !IsDigest(evidence) || !ValidAmount(paid) || !SameAsset(paid, o.amount) {
      return Failed;
    }
    if digest(o) != Ok(st.obligationDigest) || st.revision == 0 {
      return Failed;
    }
    var replay := Holds(st.applied, evidence);
    if replay {
      return Done(st);
    }
    if Terminal(st.status) || (o.expiresAt != 0 && !before(o.expiresAt)) {
      return Failed;
    }
    r := Credit(st, o, evidence, paid);
  }

  method Credit(st: LedgerState, o: SettlementObligation, evidence: string, paid: AgreementAmount)
      returns (r: Attempt<LedgerState>)
    ensures r == Posted(st, o, evidence, paid)
  {
    var total := AddAmounts(st.paidToDate, paid);
    if total.Panicked? {
      return Panicked;
    }
    if total.Failed? || CompareAmounts(total.value, o.amount) > 0 {
      return Failed;
    }
    var outstanding := SubtractAmounts(o.amount, total.value);
    if !outstanding.Done? {
      return if outstanding.Panicked? then Panicked else Failed;
    }
    var updated := st;
    updated := updated.(applied := Sort(st.applied + [evidence]), evidence := Sort(st.evidence + [evidence]));
    updated := updated.(paidToDate := total.value, outstanding := outstanding.value);
    updated := updated.(revision := (updated.revision + 1) % TWO64);
    updated := updated.(status := if AmountIsZero(outstanding.value) then Paid else PartiallyPaid);
    return Done(updated);
  }

  /** The scan for equal neighbours. */
  method AnyRepeated(sorted: seq<string>) returns (found: bool)
    ensures found <==> !NeighboursDiffer(sorted)
  {
    var i := 1;
    while i < |sorted|
      invariant 1 <= i
      invariant forall j | 0 < j < i && j < |sorted| :: sorted[j - 1] != sorted[j]
    {
      if sorted[i - 1] == sorted[i] {
        return true;
      }
      i := i + 1;
    }
    return false;
  }

  /** `ResolveSettlementState`, on a copy of the state. */
  method ResolveObligation(digest: Digester, st: LedgerState, o: SettlementObligation, target: Status, evidence: string,
                           before: Instant) returns (r: Result<LedgerState>)
    ensures r == Resolve(digest, st, o, target, evidence, before)
  {
    if !ValidObligation(o) || !IsDigest(evidence) || st.revision == 0 || digest(o) != Ok(st.obligationDigest) {
      return Err;
    }
    var known := Holds(st.evidence, evidence);
    if known && st.status == target {
      return Ok(st);
    }
    if !Allowed(st.status, target, o, before) {
      return Err;
    }
    var updated := st.(status := target, revision := (st.revision + 1) % TWO64);
    updated := updated.(evidence := Sort(st.evidence + [evidence]));
    var repeated := AnyRepeated(updated.evidence);
    return if repeated then Err else Ok(updated);
  }

  // ---------- what every reachable state satisfies ----------

  ghost predicate Balanced(o: SettlementObligation, st: LedgerState) {
    && Parseable(st.paidToDate) && Readable(st.outstanding) && Parseable(o.amount)
    && SameProfile(st.paidToDate, o.amount) && SameProfile(st.outstanding, o.amount)
    && Value(st.paidToDate) + Value(st.outstanding) == Value(o.amount)
  }

  /** Paid and outstanding are exact complements of the amount; no payment evidence counts twice. */
  ghost predicate Inv(digest: Digester, o: SettlementObligation, st: LedgerState) {
    && ValidObligation(o) && digest(o) == Ok(st.obligationDigest)
    && Balanced(o, st) && Value(st.outstanding) >= 0.0 && Value(st.paidToDate) >= 0.0
    && (st.status == Paid ==> Value(st.outstanding) == 0.0)
    && Distinct(st.applied)
  }

  lemma {:induction false} ValueNonNegative(a: AgreementAmount)
    requires Readable(a)
    ensures Value(a) >= 0.0
  {
    if a.atomic == "" {
      RatioOrder(Coefficient(a.decimal), 0, |Fractional(a.decimal)|);
    }
  }

  lemma {:induction false} ZeroAmount(a: AgreementAmount)
    requires ValidAmount(a)
    ensures Parseable(ZeroOf(a)) && Value(ZeroOf(a)) == 0.0 && SameProfile(ZeroOf(a), a)
  {
    SingleDigit('0');
    ZeroDecimal();
    CanonicalDecimalShape("0");
    SplitNoDot("0");
  }

  /** A fresh state owes the whole amount: pending, nothing paid, no evidence, at revision one. */
  lemma {:induction false} NewStateInv(digest: Digester, o: SettlementObligation)
    requires NewState(digest, o).Ok?
    ensures var st := NewState(digest, o).value;
            && Inv(digest, o, st) && Value(st.paidToDate) == 0.0 && Value(st.outstanding) == Value(o.amount)
            && st.status == Pending && st.revision == 1 && st.applied == [] && st.evidence == []
  {
    ValidParseable(o.amount);
    ZeroAmount(o.amount);
  }

  /** The arithmetic of one payment: exact, and never a panic. */
  lemma {:induction false} PaymentArithmetic(o: SettlementObligation, st: LedgerState, paid: AgreementAmount)
    requires Balanced(o, st) && ValidAmount(paid) && SameAsset(paid, o.amount)
    ensures var total := AddAmounts(st.paidToDate, paid);
            && !total.Panicked?
            && (total.Done? <==> SameProfile(paid, o.amount))
            && (total.Done? ==> && Parseable(paid) && Readable(total.value) && SameProfile(total.value, o.amount)
                                && Value(total.value) == Value(st.paidToDate) + Value(paid))
  {
    ValidParseable(paid);
    if SameProfile(paid, o.amount) {
      AddExact(st.paidToDate, paid);
    }
  }

  /** Comparing with the amount also establishes that the new total can be read back. */
  lemma {:induction false} TotalComparable(total: AgreementAmount, amount: AgreementAmount)
    requires Readable(total) && Parseable(amount) && SameProfile(total, amount)
    ensures CompareAmounts(total, amount) <= 0 <==> Parseable(total) && Value(total) <= Value(amount)
  {
    if Parseable(total) {
      CompareExact(total, amount);
    } else {
      CoefficientOfCanonical(total.decimal);
    }
  }

  /** A payment that is new and accepted: when, and what it does to the balance. */
  ghost predicate Accepts(o: SettlementObligation, st: LedgerState, paid: AgreementAmount)
    requires Balanced(o, st) && ValidAmount(paid) && SameAsset(paid, o.amount)
  {
    var total := AddAmounts(st.paidToDate, paid);
    total.Done? && Parseable(total.value) && SameProfile(total.value, o.amount) && Value(total.value) <= Value(o.amount)
  }

  lemma {:induction false} PaymentOutcome(o: SettlementObligation, st: LedgerState, paid: AgreementAmount)
    requires Balanced(o, st) && ValidAmount(paid) && SameAsset(paid, o.amount)
    ensures var total := AddAmounts(st.paidToDate, paid);
            && !total.Panicked?
            && (Accepts(o, st, paid) <==> total.Done? && CompareAmounts(total.value, o.amount) <= 0)
            && (Accepts(o, st, paid) ==>
                  && Readable(paid) && Value(total.value) == Value(st.paidToDate) + Value(paid)
                  && var rest := SubtractAmounts(o.amount, total.value);
                     && rest.Done? && Readable(rest.value) && SameProfile(rest.value, o.amount)
                     && Value(rest.value) == Value(o.amount) - Value(total.value))
  {
    PaymentArithmetic(o, st, paid);
    var total := AddAmounts(st.paidToDate, paid);
    if total.Done? {
      TotalComparable(total.value, o.amount);
      if Parseable(total.value) {
        SubtractExact(o.amount, total.value);
      }
    }
  }

  lemma {:induction false} DistinctAppend(s: seq<string>, x: string)
    requires Distinct(s) && x !in s
    ensures Distinct(Sort(s + [x])) && multiset(Sort(s + [x])) == multiset(s) + multiset{x}
  {
    DistinctMultiset(s + [x]);
    DistinctMultiset(Sort(s + [x]));
  }

  lemma {:induction false} CreditedInv(digest: Digester, o: SettlementObligation, st: LedgerState, evidence: string,
                                       paid: AgreementAmount)
    requires Inv(digest, o, st) && ValidAmount(paid) && SameAsset(paid, o.amount) && evidence !in st.applied
    requires Accepts(o, st, paid)
    ensures var total := AddAmounts(st.paidToDate, paid).value;
            SubtractAmounts(o.amount, total).Done? &&
            Inv(digest, o, Credited(st, evidence, total, SubtractAmounts(o.amount, total).value))
  {
    PaymentOutcome(o, st, paid);
    var total := AddAmounts(st.paidToDate, paid).value;
    var rest := SubtractAmounts(o.amount, total).value;
    DistinctAppend(st.applied, evidence);
    ZeroExact(rest);
    ValueNonNegative(total);
  }

  /** What a payment call does to a state in the invariant. */
  lemma {:induction false} ApplyPaymentStep(digest: Digester, o: SettlementObligation, st: LedgerState,
                                            evidence: string, paid: AgreementAmount, before: Instant)
    requires Inv(digest, o, st)
    ensures var r := ApplyPayment(digest, st, o, evidence, paid, before);
            && !r.Panicked?
            && (r.Done? ==> Inv(digest, o, r.value))
            && (r.Done? && evidence in st.applied ==> r.value == st)
            && (r.Done? && evidence !in st.applied ==>
                  && !Terminal(st.status) && Readable(paid)
                  && Value(r.value.paidToDate) == Value(st.paidToDate) + Value(paid)
                  && multiset(r.value.applied) == multiset(st.applied) + multiset{evidence})
  {
    if ValidAmount(paid) && SameAsset(paid, o.amount) {
      PaymentOutcome(o, st, paid);
      if evidence !in st.applied && Accepts(o, st, paid) {
        CreditedInv(digest, o, st, evidence, paid);
        DistinctAppend(st.applied, evidence);
      }
    }
  }

  lemma {:induction false} NewPayment(digest: Digester, o: SettlementObligation, st: LedgerState, evidence: string,
                                      paid: AgreementAmount, before: Instant)
    requires ValidObligation(o) && digest(o) == Ok(st.obligationDigest) && evidence !in st.applied
    ensures ApplyPayment(digest, st, o, evidence, paid, before)
         == if IsDigest(evidence) && ValidAmount(paid) && SameAsset(paid, o.amount) && st.revision != 0
               && st.status !in {Paid, Cancelled, WrittenOff} && (o.expiresAt == 0 || before(o.expiresAt))
            then Posted(st, o, evidence, paid) else Failed
  {
  }

  /**
   A payment with new evidence is accepted exactly when the evidence, the amount and the revision
   are in order, the obligation is neither settled nor expired, and the total can be spelled and
   stays within the amount.  It is then paid in full exactly when nothing is outstanding.
   */
  lemma {:induction false} PaymentExactly(digest: Digester, o: SettlementObligation, st: LedgerState, evidence: string,
                                          paid: AgreementAmount, before: Instant)
    requires Inv(digest, o, st) && evidence !in st.applied
    ensures var r := ApplyPayment(digest, st, o, evidence, paid, before);
            && (r.Done? <==> && IsDigest(evidence) && ValidAmount(paid) && SameAsset(paid, o.amount)
                             && st.revision != 0 && st.status !in {Paid, Cancelled, WrittenOff}
                             && (o.expiresAt == 0 || before(o.expiresAt)) && Accepts(o, st, paid))
            && (r.Done? ==> Records(st, evidence, r.value))
  {
    NewPayment(digest, o, st, evidence, paid, before);
    if ValidAmount(paid) && SameAsset(paid, o.amount) {
      PostedExactly(o, st, evidence, paid);
    }
  }

  /** What crediting records, beside the two amounts. */
  ghost predicate Records(st: LedgerState, evidence: string, r: LedgerState) {
    && Readable(r.outstanding)
    && r.status == (if Value(r.outstanding) == 0.0 then Paid else PartiallyPaid)
    && r.revision == (st.revision + 1) % TWO64 && r.obligationDigest == st.obligationDigest
    && multiset(r.evidence) == multiset(st.evidence) + multiset{evidence}
  }

  lemma {:induction false} CreditedRecords(st: LedgerState, evidence: string, total: AgreementAmount,
                                           rest: AgreementAmount)
    requires Readable(rest)
    ensures Records(st, evidence, Credited(st, evidence, total, rest))
  {
    ZeroExact(rest);
    assert multiset(st.evidence + [evidence]) == multiset(st.evidence) + multiset{evidence};
  }

  lemma {:induction false} PostedExactly(o: SettlementObligation, st: LedgerState, evidence: string,
                                         paid: AgreementAmount)
    requires Balanced(o, st) && ValidAmount(paid) && SameAsset(paid, o.amount)
    ensures var r := Posted(st, o, evidence, paid);
            (r.Done? <==> Accepts(o, st, paid)) && (r.Done? ==> Records(st, evidence, r.value))
  {
    PaymentOutcome(o, st, paid);
    if Accepts(o, st, paid) {
      var total := AddAmounts(st.paidToDate, paid).value;
      CreditedRecords(st, evidence, total, SubtractAmounts(o.amount, total).value);
    }
  }

  /** Resolutions move no money and no payment evidence. */
  lemma {:induction false} ResolveStep(digest: Digester, o: SettlementObligation, st: LedgerState, target: Status,
                                       evidence: string, before: Instant)
    requires Inv(digest, o, st)
    ensures var r := Resolve(digest, st, o, target, evidence, before);
            r.Ok? ==> && Inv(digest, o, r.value) && r.value.applied == st.applied
                      && r.value.paidToDate == st.paidToDate && r.value.outstanding == st.outstanding
  {
  }

  // ---------- exactly which resolutions succeed ----------

  /** The moves a resolution may make; an obligation becomes overdue only at or after its due time. */
  ghost predicate Moves(from: Status, target: Status, o: SettlementObligation, before: Instant) {
    && (from, target) in {(Pending, Overdue), (PartiallyPaid, Overdue),
                          (Pending, Cancelled), (PartiallyPaid, Cancelled), (Overdue, Cancelled), (Disputed, Cancelled),
                          (Pending, Disputed), (PartiallyPaid, Disputed), (Overdue, Disputed),
                          (Overdue, WrittenOff), (Disputed, WrittenOff)}
    && (target == Overdue ==> o.dueAt != 0 && !before(o.dueAt))
  }

  lemma {:induction false} AllowedExactly(from: Status, target: Status, o: SettlementObligation, before: Instant)
    ensures Allowed(from, target, o, before) <==> Moves(from, target, o, before)
  {
  }

  lemma {:induction false} NewEvidence(s: seq<string>, e: string)
    ensures NeighboursDiffer(Sort(s + [e])) <==> Distinct(s) && e !in s
  {
    AdjacentDuplicates(s + [e]);
    var t := s + [e];
    assert forall i | 0 <= i < |s| :: t[i] == s[i];
    assert t[|s|] == e;
    if Distinct(t) {
      assert forall i, j | 0 <= i < j < |s| :: t[i] != t[j];
    }
  }

  /**
   A resolution that is no replay succeeds exactly when its obligation, evidence, revision and
   digest are in order, the move is a listed one, and the digest is new to a duplicate-free list.
   It then changes the status, the revision and the evidence, and nothing else.
   */
  lemma {:induction false} ResolveExactly(digest: Digester, st: LedgerState, o: SettlementObligation, target: Status,
                                          evidence: string, before: Instant)
    requires !(evidence in st.evidence && st.status == target)
    ensures var r := Resolve(digest, st, o, target, evidence, before);
            && (r.Ok? <==> && ValidObligation(o) && IsDigest(evidence) && st.revision != 0
                           && digest(o) == Ok(st.obligationDigest) && Moves(st.status, target, o, before)
                           && Distinct(st.evidence) && evidence !in st.evidence)
            && (r.Ok? ==> && r.value == st.(status := target, revision := (st.revision + 1) % TWO64,
                                            evidence := r.value.evidence)
                          && Sorted(r.value.evidence)
                          && multiset(r.value.evidence) == multiset(st.evidence) + multiset{evidence})
  {
    AllowedExactly(st.status, target, o, before);
    NewEvidence(st.evidence, evidence);
    SortSorted(st.evidence + [evidence]);
  }

  /** A replayed resolution succeeds without a change, whatever the moment, exactly when the four checks pass. */
  lemma {:induction false} ResolveReplayed(digest: Digester, st: LedgerState, o: SettlementObligation, target: Status,
                                           evidence: string, before: Instant)
    requires evidence in st.evidence && st.status == target
    ensures Resolve(digest, st, o, target, evidence, before)
         == if ValidObligation(o) && IsDigest(evidence) && st.revision != 0 && digest(o) == Ok(st.obligationDigest)
            then Ok(st) else Err
  {
  }

  /** Terminal states are absorbing: no call changes anything, only replays of known evidence succeed. */
  lemma {:induction false} TerminalAbsorbing(digest: Digester, o: SettlementObligation, st: LedgerState,
                                             evidence: string, paid: AgreementAmount, target: Status, before: Instant)
    requires st.status == Paid || st.status == Cancelled || st.status == WrittenOff
    ensures var p := ApplyPayment(digest, st, o, evidence, paid, before); p == Failed || p == Done(st)
    ensures var r := Resolve(digest, st, o, target, evidence, before); r == Err || r == Ok(st)
  {
  }

  // ---------- the evidence list ----------

  /** `ValidateSettlementState`. */
  predicate ValidState(st: LedgerState) {
    && IsDigest(st.obligationDigest) && st.revision != 0
    && SortedDigests(st.applied, 10_000) && SortedDigests(st.evidence, 10_000)
    && ValidAmount(st.paidToDate) && ValidAmount(st.outstanding)
  }

  lemma {:induction false} AppendDistinct(s: seq<string>, e: string)
    requires Distinct(s)
    ensures Distinct(Sort(s + [e])) <==> e !in s
  {
    DistinctMultiset(s + [e]);
    DistinctMultiset(Sort(s + [e]));
    if e in s {
      var i :| 0 <= i < |s| && s[i] == e;
      assert (s + [e])[i] == (s + [e])[|s|];
    }
  }

  /**
   A payment does not look at the evidence list: a new, accepted one keeps it duplicate-free
   exactly when its digest is not on it yet.
   */
  lemma {:induction false} EvidenceStaysDistinct(digest: Digester, st: LedgerState, o: SettlementObligation,
                                                 evidence: string, paid: AgreementAmount, before: Instant)
    requires Distinct(st.evidence) && evidence !in st.applied
    requires ApplyPayment(digest, st, o, evidence, paid, before).Done?
    ensures Distinct(ApplyPayment(digest, st, o, evidence, paid, before).value.evidence) <==> evidence !in st.evidence
  {
    AppendDistinct(st.evidence, evidence);
  }

  /** A state whose evidence list repeats a digest is not a valid state. */
  lemma {:induction false} RepeatedEvidenceInvalid(st: LedgerState)
    requires !Distinct(st.evidence)
    ensures !ValidState(st)
  {
    if SortedDigests(st.evidence, 10_000) {
      NeighboursStrict(st.evidence);
    }
  }

  /** Once the evidence list repeats a digest, no resolution can change the state any more. */
  lemma {:induction false} RepeatedEvidenceBlocksResolution(digest: Digester, st: LedgerState, o: SettlementObligation,
                                                            target: Status, evidence: string, before: Instant)
    requires !Distinct(st.evidence)
    ensures var r := Resolve(digest, st, o, target, evidence, before); r == Err || r == Ok(st)
  {
    AdjacentDuplicates(st.evidence + [evidence]);
    var i, j :| 0 <= i < j < |st.evidence| && st.evidence[i] == st.evidence[j];
    assert (st.evidence + [evidence])[i] == (st.evidence + [evidence])[j];
  }

  lemma {:induction false} AddToZeroAtomic(a: AgreementAmount)
    requires ValidAmount(a) && a.atomic != ""
    ensures AddAmounts(ZeroOf(a), a) == Done(a)
  {
    SingleDigit('0');
    CanonicalIsPlain(a.atomic);
    PlainParse(a.atomic);
    TextOfNumber(a.atomic);
  }

  lemma {:induction false} AddToZeroDecimal(a: AgreementAmount)
    requires ValidAmount(a) && a.atomic == ""
    ensures AddAmounts(ZeroOf(a), a) == Done(a)
  {
    ZeroCoefficient();
    CoefficientOfCanonical(a.decimal);
    CanonicalDecimalShape(a.decimal);
    FormatUndoesCoefficient(a.decimal);
    ZeroAligned(Coefficient(a.decimal), |Fractional(a.decimal)|);
  }

  lemma {:induction false} ZeroAligned(c: nat, scale: nat)
    ensures AlignDecimals(0, 0, c, scale) == (0, c, scale)
  {
  }

  /** Adding to nothing gives the amount back, text and all. */
  lemma {:induction false} AddToZero(a: AgreementAmount)
    requires ValidAmount(a)
    ensures AddAmounts(ZeroOf(a), a) == Done(a)
  {
    if a.atomic != "" {
      AddToZeroAtomic(a);
    } else {
      AddToZeroDecimal(a);
    }
  }

  lemma {:induction false} ZeroCoefficient()
    ensures DecimalCoefficient("0") == Some((0, 0))
  {
    ZeroDecimal();
    SplitNoDot("0");
    SingleDigit('0');
  }

  lemma {:induction false} DisputeFresh(digest: Digester, o: SettlementObligation, st: LedgerState, e: string,
                                        before: Instant)
    requires NewState(digest, o) == Ok(st) && IsDigest(e)
    ensures Resolve(digest, st, o, Disputed, e, before) == Ok(st.(status := Disputed, revision := 2, evidence := [e]))
  {
    assert st.evidence + [e] == [e] && [e][1..] == [];
    assert Sort([e]) == [e];
  }

  /** A first payment of the whole amount fits. */
  lemma {:induction false} FullPaymentPosts(st: LedgerState, o: SettlementObligation, e: string)
    requires ValidAmount(o.amount) && st.paidToDate == ZeroOf(o.amount)
    ensures Posted(st, o, e, o.amount).Done?
  {
    AddToZero(o.amount);
    ValidParseable(o.amount);
    CompareExact(o.amount, o.amount);
    SubtractExact(o.amount, o.amount);
  }

  lemma {:induction false} PayDisputed(digest: Digester, o: SettlementObligation, st: LedgerState, e: string,
                                       before: Instant)
    requires NewState(digest, o) == Ok(st) && IsDigest(e) && (o.expiresAt == 0 || before(o.expiresAt))
    ensures var disputed := st.(status := Disputed, revision := 2, evidence := [e]);
            ApplyPayment(digest, disputed, o, e, o.amount, before).Done?
  {
    FullPaymentPosts(st.(status := Disputed, revision := 2, evidence := [e]), o, e);
  }

  /**
   Every obligation can get there in three calls: open it, dispute it with some evidence, and
   pay it in full with the same evidence.  The state that results is not a valid one.
   */
  lemma {:induction false} EvidenceCanRepeat(digest: Digester, o: SettlementObligation, e: string, before: Instant)
    requires NewState(digest, o).Ok? && IsDigest(e) && (o.expiresAt == 0 || before(o.expiresAt))
    ensures var disputed := Resolve(digest, NewState(digest, o).value, o, Disputed, e, before);
            disputed.Ok? &&
            var paid := ApplyPayment(digest, disputed.value, o, e, o.amount, before);
            paid.Done? && !Distinct(paid.value.evidence) && !ValidState(paid.value)
  {
    var st := NewState(digest, o).value;
    var disputed := st.(status := Disputed, revision := 2, evidence := [e]);
    DisputeFresh(digest, o, st, e, before);
    PayDisputed(digest, o, st, e, before);
    EvidenceStaysDistinct(digest, disputed, o, e, o.amount, before);
    RepeatedEvidenceInvalid(ApplyPayment(digest, disputed, o, e, o.amount, before).value);
  }

  // ---------- the revision ----------

  predicate Payable(o: SettlementObligation, evidence: string, paid: AgreementAmount) {
    ValidObligation(o) && IsDigest(evidence) && ValidAmount(paid) && SameAsset(paid, o.amount)
  }

  lemma {:induction false} ReplayedPayment(digest: Digester, st: LedgerState, o: SettlementObligation, evidence: string,
                                           paid: AgreementAmount, before: Instant)
    requires Payable(o, evidence, paid) && digest(o) == Ok(st.obligationDigest) && evidence in st.applied
    ensures ApplyPayment(digest, st, o, evidence, paid, before) == (if st.revision == 0 then Failed else Done(st))
  {
  }

  lemma {:induction false} PostedShape(st: LedgerState, o: SettlementObligation, evidence: string,
                                       paid: AgreementAmount, mid: LedgerState)
    requires Posted(st, o, evidence, paid) == Done(mid)
    ensures mid == Credited(st, evidence, mid.paidToDate, mid.outstanding)
  {
  }

  lemma {:induction false} NewIsPosted(digest: Digester, st: LedgerState, o: SettlementObligation, evidence: string,
                                       paid: AgreementAmount, before: Instant, mid: LedgerState)
    requires ApplyPayment(digest, st, o, evidence, paid, before) == Done(mid) && evidence !in st.applied
    ensures Payable(o, evidence, paid) && digest(o) == Ok(st.obligationDigest)
    ensures Posted(st, o, evidence, paid) == Done(mid)
  {
  }

  lemma {:induction false} CreditedShape(st: LedgerState, evidence: string, total: AgreementAmount,
                                         rest: AgreementAmount)
    ensures var mid := Credited(st, evidence, total, rest);
            && mid.obligationDigest == st.obligationDigest && mid.revision == (st.revision + 1) % TWO64
            && evidence in mid.applied && mid.evidence == Sort(st.evidence + [evidence])
  {
    var mid := Credited(st, evidence, total, rest);
    assert evidence in multiset(st.applied + [evidence]);
    assert evidence in multiset(mid.applied);
  }

  lemma {:induction false} Successor64(n: nat)
    requires n < TWO64
    ensures (n + 1) % TWO64 == 0 <==> n == TWO64 - 1
  {
  }

  lemma {:induction false} PostedState(st: LedgerState, o: SettlementObligation, evidence: string,
                                       paid: AgreementAmount, mid: LedgerState)
    requires Posted(st, o, evidence, paid) == Done(mid) && st.revision < TWO64
    ensures mid.obligationDigest == st.obligationDigest && evidence in mid.applied
    ensures mid.revision == 0 <==> st.revision == TWO64 - 1
  {
    PostedShape(st, o, evidence, paid, mid);
    CreditedShape(st, evidence, mid.paidToDate, mid.outstanding);
    Successor64(st.revision);
  }

  /** Repeating an accepted new payment is a replay, unless the payment made the 64-bit revision wrap. */
  lemma {:induction false} PaymentReplayExact(digest: Digester, st: LedgerState, o: SettlementObligation,
                                              evidence: string, paid: AgreementAmount, before: Instant, later: Instant,
                                              mid: LedgerState)
    requires st.revision < TWO64 && evidence !in st.applied
    requires ApplyPayment(digest, st, o, evidence, paid, before) == Done(mid)
    ensures ApplyPayment(digest, mid, o, evidence, paid, later) == Done(mid) <==> st.revision != TWO64 - 1
    ensures ApplyPayment(digest, mid, o, evidence, paid, later) == Failed <==> st.revision == TWO64 - 1
  {
    NewIsPosted(digest, st, o, evidence, paid, before, mid);
    PostedState(st, o, evidence, paid, mid);
    ReplayedPayment(digest, mid, o, evidence, paid, later);
  }

  /** The same for a resolution that changed the state. */
  lemma {:induction false} ResolutionReplayExact(digest: Digester, st: LedgerState, o: SettlementObligation,
                                                 target: Status, evidence: string, before: Instant, later: Instant)
    requires st.revision < TWO64 && !(evidence in st.evidence && st.status == target)
    requires Resolve(digest, st, o, target, evidence, before).Ok?
    ensures var mid := Resolve(digest, st, o, target, evidence, before).value;
            Resolve(digest, mid, o, target, evidence, later) == (if st.revision == TWO64 - 1 then Err else Ok(mid))
  {
    var mid := Resolve(digest, st, o, target, evidence, before).value;
    assert evidence in multiset(st.evidence + [evidence]);
    assert evidence in mid.evidence;
  }

  /** At revision zero every call fails. */
  lemma {:induction false} WrappedIsDead(digest: Digester, st: LedgerState, o: SettlementObligation, evidence: string,
                                         paid: AgreementAmount, target: Status, before: Instant)
    requires st.revision == 0
    ensures ApplyPayment(digest, st, o, evidence, paid, before) == Failed
    ensures Resolve(digest, st, o, target, evidence, before) == Err
  {
  }

  // ---------- a concrete obligation ----------

  /** Five units, with no due time and no expiry. */
  function ExampleObligation(): SettlementObligation {
    var five := AgreementAmount("n", "i", "5", "", "u");
    var d := UniformDigest('0');
    SettlementObligation(d, "o", d, 1, "", "p", "q", five, 0, 0, 0, five, "s", d, "", d)
  }

  lemma {:induction false} ExampleObligationValid()
    ensures ValidObligation(ExampleObligation())
  {
    LetterIdentifies('n', 128);
    LetterIdentifies('i', 256);
    LetterIdentifies('u', 128);
    LetterIdentifies('o', 128);
    LetterIdentifies('p', 256);
    LetterIdentifies('q', 256);
    LetterIdentifies('s', 256);
  }

  function ExampleDigester(): Digester { (o: SettlementObligation) => Ok(UniformDigest('1')) }

  /** On this obligation the three calls end in an invalid state. */
  lemma {:induction false} EvidenceRepeats()
    ensures var digest, o, e, always := ExampleDigester(), ExampleObligation(), UniformDigest('2'), (u: nat) => true;
            NewState(digest, o).Ok? &&
            var disputed := Resolve(digest, NewState(digest, o).value, o, Disputed, e, always);
            disputed.Ok? &&
            var paid := ApplyPayment(digest, disputed.value, o, e, o.amount, always);
            paid.Done? && !Distinct(paid.value.evidence) && !ValidState(paid.value)
  {
    ExampleObligationValid();
    EvidenceCanRepeat(ExampleDigester(), ExampleObligation(), UniformDigest('2'), (u: nat) => true);
  }

  /** Its fresh state at the last revision: payment and dispute are accepted, and neither can be repeated. */
  lemma {:induction false} RevisionWraps()
    ensures var digest, o, e, always := ExampleDigester(), ExampleObligation(), UniformDigest('2'), (u: nat) => true;
            NewState(digest, o).Ok? &&
            var last := NewState(digest, o).value.(revision := TWO64 - 1);
            var paid := ApplyPayment(digest, last, o, e, o.amount, always);
            var disputed := Resolve(digest, last, o, Disputed, e, always);
            && paid.Done? && ApplyPayment(digest, paid.value, o, e, o.amount, always) == Failed
            && disputed.Ok? && Resolve(digest, disputed.value, o, Disputed, e, always) == Err
  {
    var digest, o, e, always := ExampleDigester(), ExampleObligation(), UniformDigest('2'), (u: nat) => true;
    ExampleObligationValid();
    var last := NewState(digest, o).value.(revision := TWO64 - 1);
    PayLast(digest, o, last, e, always);
    DisputeLast(digest, o, last, e, always);
    PaymentReplayExact(digest, last, o, e, o.amount, always, always,
                       ApplyPayment(digest, last, o, e, o.amount, always).value);
    ResolutionReplayExact(digest, last, o, Disputed, e, always, always);
  }

  lemma {:induction false} PayLast(digest: Digester, o: SettlementObligation, last: LedgerState, e: string,
                                   before: Instant)
    requires NewState(digest, o) == Ok(last.(revision := 1)) && last.revision != 0 && IsDigest(e)
    requires o.expiresAt == 0 || before(o.expiresAt)
    ensures ApplyPayment(digest, last, o, e, o.amount, before).Done?
  {
    FullPaymentPosts(last, o, e);
  }

  lemma {:induction false} DisputeLast(digest: Digester, o: SettlementObligation, last: LedgerState, e: string,
                                       before: Instant)
    requires NewState(digest, o) == Ok(last.(revision := 1)) && last.revision != 0 && IsDigest(e)
    ensures Resolve(digest, last, o, Disputed, e, before).Ok?
  {
    assert last.evidence + [e] == [e] && [e][1..] == [];
    assert Sort([e]) == [e];
  }
}
