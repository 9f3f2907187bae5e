/**
 Whole runs over all instances of one obligation: any interleaving of payments and
 resolutions, failed calls included.
 */
module SettlementRuns {
  import opened Text
  import opened Amounts
  import opened Settlement
  import Billing

  datatype Step =
    | Pay(index: nat, evidence: string, paid: AgreementAmount, before: Instant)
    | Settle(index: nat, target: Status, evidence: string, before: Instant)

  type World = seq<LedgerState>

  datatype Payment = Payment(evidence: string, amount: AgreementAmount)

  /** A failed call leaves the ledger as it was. */
  ghost function Outcome(digest: Digester, o: SettlementObligation, st: LedgerState, step: Step): LedgerState {
    match step
    case Pay(_, evidence, paid, before) =>
      var r := ApplyPayment(digest, st, o, evidence, paid, before);
      if r.Done? then r.value else st
    case Settle(_, target, evidence, before) =>
      var r := Resolve(digest, st, o, target, evidence, before);
      if r.Ok? then r.value else st
  }

  ghost function Next(digest: Digester, os: seq<SettlementObligation>, w: World, step: Step): (r: World)
    requires |os| == |w|
    ensures |r| == |w|
  {
    if step.index < |w| then w[step.index := Outcome(digest, os[step.index], w[step.index], step)] else w
  }

  ghost function Run(digest: Digester, os: seq<SettlementObligation>, w: World, steps: seq<Step>): (r: World)
    requires |os| == |w|
    ensures |r| == |w|
    decreases |steps|
  {
    if steps == [] then w else Run(digest, os, Next(digest, os, w, steps[0]), steps[1..])
  }

  /** The payment a step books on a state, if it is new and accepted. */
  ghost function Booked(digest: Digester, o: SettlementObligation, st: LedgerState, step: Step): seq<Payment> {
    if step.Pay? && step.evidence !in st.applied
        && ApplyPayment(digest, st, o, step.evidence, step.paid, step.before).Done?
    then [Payment(step.evidence, step.paid)] else []
  }

  /** What a step books on instance i. */
  ghost function Head(digest: Digester, os: seq<SettlementObligation>, w: World, step: Step, i: nat): seq<Payment>
    requires |os| == |w| && i < |w|
  {
    if step.index == i then Booked(digest, os[i], w[i], step) else []
  }

  /** All payments a run books on instance i, in order. */
  ghost function Bookings(digest: Digester, os: seq<SettlementObligation>, w: World, steps: seq<Step>,
                          i: nat): seq<Payment>
    requires |os| == |w| && i < |w|
    decreases |steps|
  {
    if steps == [] then []
    else Head(digest, os, w, steps[0], i)
         + Bookings(digest, os, Next(digest, os, w, steps[0]), steps[1..], i)
  }

  ghost predicate AllReadable(ps: seq<Payment>) { forall k | 0 <= k < |ps| :: Readable(ps[k].amount) }

  ghost function Sum(ps: seq<Payment>): real
    requires AllReadable(ps)
  {
    if ps == [] then 0.0 else Value(ps[0].amount) + Sum(ps[1..])
  }

  function Evidences(ps: seq<Payment>): (r: seq<string>)
    ensures |r| == |ps|
  {
    seq(|ps|, k requires 0 <= k < |ps| => ps[k].evidence)
  }

  ghost predicate Books(digest: Digester, o: SettlementObligation, st: LedgerState, r: LedgerState, ps: seq<Payment>) {
    && Inv(digest, o, st) && Inv(digest, o, r) && AllReadable(ps)
    && Value(r.paidToDate) == Value(st.paidToDate) + Sum(ps)
    && multiset(r.applied) == multiset(st.applied) + multiset(Evidences(ps))
  }

  lemma {:induction false} BooksOne(digest: Digester, o: SettlementObligation, st: LedgerState, r: LedgerState,
                                    evidence: string, paid: AgreementAmount)
    requires Inv(digest, o, st) && Inv(digest, o, r) && Readable(paid)
    requires Value(r.paidToDate) == Value(st.paidToDate) + Value(paid)
    requires multiset(r.applied) == multiset(st.applied) + multiset{evidence}
    ensures Books(digest, o, st, r, [Payment(evidence, paid)])
  {
    var ps := [Payment(evidence, paid)];
    assert Evidences(ps) == [evidence];
    assert Sum(ps[1..]) == 0.0;
  }

  lemma {:induction false} BooksNothing(digest: Digester, o: SettlementObligation, st: LedgerState, r: LedgerState)
    requires Inv(digest, o, st) && Inv(digest, o, r) && r.paidToDate == st.paidToDate && r.applied == st.applied
    ensures Books(digest, o, st, r, [])
  {
    assert Evidences([]) == [];
  }

  /** One step keeps the invariant and books exactly what it adds. */
  lemma {:induction false} OutcomeInv(digest: Digester, o: SettlementObligation, st: LedgerState, step: Step)
    requires Inv(digest, o, st)
    ensures Books(digest, o, st, Outcome(digest, o, st, step), Booked(digest, o, st, step))
  {
    match step
    case Pay(_, evidence, paid, before) =>
      ApplyPaymentStep(digest, o, st, evidence, paid, before);
      var r := ApplyPayment(digest, st, o, evidence, paid, before);
      if r.Done? && evidence !in st.applied {
        BooksOne(digest, o, st, r.value, evidence, paid);
      } else {
        BooksNothing(digest, o, st, st);
      }
    case Settle(_, target, evidence, before) =>
      ResolveStep(digest, o, st, target, evidence, before);
      BooksNothing(digest, o, st, Outcome(digest, o, st, step));
  }

  ghost predicate AllInv(digest: Digester, os: seq<SettlementObligation>, w: World) {
    |os| == |w| && forall i | 0 <= i < |w| :: Inv(digest, os[i], w[i])
  }

  lemma {:induction false} NextInv(digest: Digester, os: seq<SettlementObligation>, w: World, step: Step)
    requires AllInv(digest, os, w)
    ensures AllInv(digest, os, Next(digest, os, w, step))
  {
    var r := Next(digest, os, w, step);
    forall i | 0 <= i < |r|
      ensures Inv(digest, os[i], r[i])
    {
      if i == step.index {
        OutcomeInv(digest, os[i], w[i], step);
      } else {
        assert r[i] == w[i];
      }
    }
  }

  lemma {:induction false} SumConcat(a: seq<Payment>, b: seq<Payment>)
    requires AllReadable(a) && AllReadable(b)
    ensures AllReadable(a + b) && Sum(a + b) == Sum(a) + Sum(b)
  {
    if a == [] {
      assert a + b == b;
    } else {
      SumConcat(a[1..], b);
      assert (a + b)[1..] == a[1..] + b;
    }
  }

  /** Every reachable ledger satisfies the invariant. */
  lemma {:induction false} RunKeepsInv(digest: Digester, os: seq<SettlementObligation>, w: World, steps: seq<Step>)
    requires AllInv(digest, os, w)
    ensures AllInv(digest, os, Run(digest, os, w, steps))
    decreases |steps|
  {
    if steps != [] {
      NextInv(digest, os, w, steps[0]);
      RunKeepsInv(digest, os, Next(digest, os, w, steps[0]), steps[1..]);
    }
  }

  lemma {:induction false} HeadEffect(digest: Digester, os: seq<SettlementObligation>, w: World, step: Step, i: nat)
    requires AllInv(digest, os, w) && i < |w|
    ensures var ps := Head(digest, os, w, step, i); var st := Next(digest, os, w, step)[i];
            && AllReadable(ps) && Readable(st.paidToDate) && Readable(w[i].paidToDate)
            && Value(st.paidToDate) == Value(w[i].paidToDate) + Sum(ps)
            && multiset(st.applied) == multiset(w[i].applied) + multiset(Evidences(ps))
  {
    if step.index == i {
      OutcomeInv(digest, os[i], w[i], step);
    }
  }

  /** Over a run, what instance i has paid grows by exactly its bookings. */
  lemma {:induction false} RunSum(digest: Digester, os: seq<SettlementObligation>, w: World, steps: seq<Step>, i: nat)
    requires AllInv(digest, os, w) && i < |w|
    ensures var r := Run(digest, os, w, steps)[i]; var ps := Bookings(digest, os, w, steps, i);
            && Readable(r.paidToDate) && Readable(w[i].paidToDate) && AllReadable(ps)
            && Value(r.paidToDate) == Value(w[i].paidToDate) + Sum(ps)
    decreases |steps|
  {
    if steps != [] {
      var w' := Next(digest, os, w, steps[0]);
      NextInv(digest, os, w, steps[0]);
      HeadEffect(digest, os, w, steps[0], i);
      RunSum(digest, os, w', steps[1..], i);
      SumConcat(Head(digest, os, w, steps[0], i), Bookings(digest, os, w', steps[1..], i));
    }
  }

  lemma {:induction false} EvidencesConcat(a: seq<Payment>, b: seq<Payment>)
    ensures multiset(Evidences(a + b)) == multiset(Evidences(a)) + multiset(Evidences(b))
  {
    assert Evidences(a + b) == Evidences(a) + Evidences(b);
  }

  /** Over a run, the applied evidence of instance i grows by exactly the evidence of its bookings. */
  lemma {:induction false} RunEvidence(digest: Digester, os: seq<SettlementObligation>, w: World, steps: seq<Step>,
                                       i: nat)
    requires AllInv(digest, os, w) && i < |w|
    ensures var r := Run(digest, os, w, steps)[i];
            multiset(r.applied) == multiset(w[i].applied) + multiset(Evidences(Bookings(digest, os, w, steps, i)))
    decreases |steps|
  {
    if steps != [] {
      var w' := Next(digest, os, w, steps[0]);
      NextInv(digest, os, w, steps[0]);
      HeadEffect(digest, os, w, steps[0], i);
      RunEvidence(digest, os, w', steps[1..], i);
      EvidencesConcat(Head(digest, os, w, steps[0], i), Bookings(digest, os, w', steps[1..], i));
    }
  }

  ghost predicate Initial(digest: Digester, os: seq<SettlementObligation>, w: World) {
    |os| == |w| && forall i | 0 <= i < |w| :: NewState(digest, os[i]) == Ok(w[i])
  }

  lemma {:induction false} InitialInv(digest: Digester, os: seq<SettlementObligation>, w: World)
    requires Initial(digest, os, w)
    ensures AllInv(digest, os, w)
    ensures forall i | 0 <= i < |w| :: Value(w[i].paidToDate) == 0.0 && w[i].applied == []
  {
    forall i | 0 <= i < |w|
      ensures Inv(digest, os[i], w[i]) && Value(w[i].paidToDate) == 0.0 && w[i].applied == []
    {
      NewStateInv(digest, os[i]);
    }
  }

  /**
   From fresh states, after any run, PaidToDate is the sum of the booked payments and with
   Outstanding makes the amount.
   */
  lemma {:induction false} PaidIsSumOfBookings(digest: Digester, os: seq<SettlementObligation>, w: World,
                                               steps: seq<Step>, i: nat)
    requires Initial(digest, os, w) && i < |w|
    ensures var r := Run(digest, os, w, steps)[i]; var ps := Bookings(digest, os, w, steps, i);
            Balanced(os[i], r) && AllReadable(ps) && Value(r.paidToDate) == Sum(ps)
  {
    InitialInv(digest, os, w);
    RunKeepsInv(digest, os, w, steps);
    RunSum(digest, os, w, steps, i);
  }

  /** The booked payments carry pairwise distinct evidence, and it is exactly the applied evidence. */
  lemma {:induction false} BookingsDistinct(digest: Digester, os: seq<SettlementObligation>, w: World, steps: seq<Step>,
                                            i: nat)
    requires Initial(digest, os, w) && i < |w|
    ensures var r := Run(digest, os, w, steps)[i]; var evidence := Evidences(Bookings(digest, os, w, steps, i));
            Distinct(evidence) && multiset(r.applied) == multiset(evidence)
  {
    InitialInv(digest, os, w);
    RunKeepsInv(digest, os, w, steps);
    RunEvidence(digest, os, w, steps, i);
    SameDistinct(Run(digest, os, w, steps)[i].applied, Evidences(Bookings(digest, os, w, steps, i)));
  }

  lemma {:induction false} SameDistinct(a: seq<string>, b: seq<string>)
    requires Distinct(a) && multiset(a) == multiset(b)
    ensures Distinct(b)
  {
    DistinctMultiset(a);
    DistinctMultiset(b);
  }

  // ---------- the evidence list over a run ----------

  /** The digest a resolution adds to a state, if it changes the state. */
  ghost function Recorded(digest: Digester, o: SettlementObligation, st: LedgerState, step: Step): seq<string> {
    if step.Settle? && !(step.evidence in st.evidence && st.status == step.target)
       && Resolve(digest, st, o, step.target, step.evidence, step.before).Ok?
    then [step.evidence] else []
  }

  ghost function RecordedAt(digest: Digester, os: seq<SettlementObligation>, w: World, step: Step, i: nat): seq<string>
    requires |os| == |w| && i < |w|
  {
    if step.index == i then Recorded(digest, os[i], w[i], step) else []
  }

  /** The digests that the changing resolutions of a run add to instance i, in order. */
  ghost function Resolutions(digest: Digester, os: seq<SettlementObligation>, w: World, steps: seq<Step>,
                             i: nat): seq<string>
    requires |os| == |w| && i < |w|
    decreases |steps|
  {
    if steps == [] then []
    else RecordedAt(digest, os, w, steps[0], i)
         + Resolutions(digest, os, Next(digest, os, w, steps[0]), steps[1..], i)
  }

  lemma {:induction false} PaymentEvidence(digest: Digester, o: SettlementObligation, st: LedgerState, step: Step)
    requires step.Pay?
    ensures multiset(Outcome(digest, o, st, step).evidence)
         == multiset(st.evidence) + multiset(Evidences(Booked(digest, o, st, step)))
  {
    var r := ApplyPayment(digest, st, o, step.evidence, step.paid, step.before);
    if r.Done? && step.evidence !in st.applied {
      NewIsPosted(digest, st, o, step.evidence, step.paid, step.before, r.value);
      PostedShape(st, o, step.evidence, step.paid, r.value);
      CreditedShape(st, step.evidence, r.value.paidToDate, r.value.outstanding);
      assert Evidences(Booked(digest, o, st, step)) == [step.evidence];
    } else {
      assert Evidences([]) == [];
    }
  }

  lemma {:induction false} ResolvedEvidence(digest: Digester, st: LedgerState, o: SettlementObligation, target: Status,
                                            e: string, before: Instant, r: LedgerState)
    requires Resolve(digest, st, o, target, e, before) == Ok(r) && !(e in st.evidence && st.status == target)
    ensures r.evidence == Sort(st.evidence + [e]) && NeighboursDiffer(r.evidence)
  {
  }

  lemma {:induction false} UnlistedBefore(s: seq<string>, e: string)
    requires NeighboursDiffer(Sort(s + [e]))
    ensures e !in s
  {
    var t := s + [e];
    AdjacentDuplicates(t);
    forall i | 0 <= i < |s|
      ensures s[i] != e
    {
      assert t[i] == s[i] && t[|s|] == e;
    }
  }

  lemma {:induction false} ResolutionEvidence(digest: Digester, o: SettlementObligation, st: LedgerState, step: Step)
    requires step.Settle?
    ensures var r := Outcome(digest, o, st, step); var ds := Recorded(digest, o, st, step);
            && multiset(r.evidence) == multiset(st.evidence) + multiset(ds)
            && forall e | e in ds :: e !in st.evidence
  {
    var ds, e := Recorded(digest, o, st, step), step.evidence;
    if ds != [] {
      var r := Resolve(digest, st, o, step.target, e, step.before).value;
      ResolvedEvidence(digest, st, o, step.target, e, step.before, r);
      UnlistedBefore(st.evidence, e);
    }
  }

  lemma {:induction false} EvidenceStep(digest: Digester, os: seq<SettlementObligation>, w: World, step: Step, i: nat)
    requires |os| == |w| && i < |w|
    ensures var r := Next(digest, os, w, step)[i]; var ds := RecordedAt(digest, os, w, step, i);
            && multiset(r.evidence)
               == multiset(w[i].evidence) + multiset(Evidences(Head(digest, os, w, step, i))) + multiset(ds)
            && |ds| <= 1 && forall e | e in ds :: e !in w[i].evidence
  {
    if step.index == i {
      if step.Pay? {
        PaymentEvidence(digest, os[i], w[i], step);
      } else {
        ResolutionEvidence(digest, os[i], w[i], step);
        assert Evidences([]) == [];
      }
    } else {
      assert Evidences([]) == [];
    }
  }

  /** The evidence of a state is that of its payments and that of its resolutions. */
  lemma {:induction false} RunEvidenceList(digest: Digester, os: seq<SettlementObligation>, w: World, steps: seq<Step>,
                                           i: nat)
    requires |os| == |w| && i < |w|
    ensures multiset(Run(digest, os, w, steps)[i].evidence)
         == multiset(w[i].evidence) + multiset(Evidences(Bookings(digest, os, w, steps, i)))
            + multiset(Resolutions(digest, os, w, steps, i))
    decreases |steps|
  {
    if steps == [] {
      assert Evidences([]) == [];
    } else {
      var w' := Next(digest, os, w, steps[0]);
      EvidenceStep(digest, os, w, steps[0], i);
      RunEvidenceList(digest, os, w', steps[1..], i);
      EvidencesConcat(Head(digest, os, w, steps[0], i), Bookings(digest, os, w', steps[1..], i));
    }
  }

  /** No digest is recorded by two resolutions, nor by one when it is already on the list. */
  lemma {:induction false} ResolvedOnce(digest: Digester, os: seq<SettlementObligation>, w: World, steps: seq<Step>,
                                        i: nat, e: string)
    requires |os| == |w| && i < |w|
    ensures multiset(Resolutions(digest, os, w, steps, i))[e] <= (if e in w[i].evidence then 0 else 1)
    decreases |steps|
  {
    if steps != [] {
      var w', ds := Next(digest, os, w, steps[0]), RecordedAt(digest, os, w, steps[0], i);
      EvidenceStep(digest, os, w, steps[0], i);
      ResolvedOnce(digest, os, w', steps[1..], i, e);
      StillListed(w[i].evidence, w'[i].evidence, Evidences(Head(digest, os, w, steps[0], i)), ds, e);
      CountOne(ds, e);
    }
  }

  lemma {:induction false} StillListed(a: seq<string>, b: seq<string>, booked: seq<string>, ds: seq<string>, e: string)
    requires multiset(b) == multiset(a) + multiset(booked) + multiset(ds)
    ensures e in a || e in ds ==> e in b
  {
    assert e in a <==> e in multiset(a);
    assert e in b <==> e in multiset(b);
    assert e in ds <==> e in multiset(ds);
  }

  lemma {:induction false} CountOne(ds: seq<string>, e: string)
    requires |ds| <= 1
    ensures multiset(ds)[e] == if e in ds then 1 else 0
  {
    if ds != [] { assert ds == [ds[0]]; }
  }

  /**
   From fresh states, after any run, the evidence list is duplicate-free exactly when no digest
   was used both for a payment and for a resolution.
   */
  lemma {:induction false} EvidenceDistinctExactly(digest: Digester, os: seq<SettlementObligation>, w: World,
                                                   steps: seq<Step>, i: nat)
    requires Initial(digest, os, w) && i < |w|
    ensures Distinct(Run(digest, os, w, steps)[i].evidence) <==>
            forall e | e in Evidences(Bookings(digest, os, w, steps, i)) :: e !in Resolutions(digest, os, w, steps, i)
  {
    var paid, resolved := Evidences(Bookings(digest, os, w, steps, i)), Resolutions(digest, os, w, steps, i);
    assert w[i].evidence == [];
    RunEvidenceList(digest, os, w, steps, i);
    BookingsDistinct(digest, os, w, steps, i);
    forall e
      ensures multiset(resolved)[e] <= 1
    {
      ResolvedOnce(digest, os, w, steps, i, e);
    }
    UnionDistinct(Run(digest, os, w, steps)[i].evidence, paid, resolved);
  }

  lemma {:induction false} UnionDistinct(all: seq<string>, a: seq<string>, b: seq<string>)
    requires multiset(all) == multiset(a) + multiset(b) && Distinct(a) && forall e :: multiset(b)[e] <= 1
    ensures Distinct(all) <==> forall e | e in a :: e !in b
  {
    DistinctMultiset(all);
    DistinctMultiset(a);
    forall e
      ensures e in a <==> multiset(a)[e] == 1
      ensures e in b <==> multiset(b)[e] == 1
    {
      assert e in a <==> e in multiset(a);
      assert e in b <==> e in multiset(b);
    }
    if Distinct(all) {
      forall e | e in a
        ensures e !in b
      {
        assert e in multiset(all);
      }
    }
  }

  /** Once terminal, always the same state. */
  lemma {:induction false} TerminalForever(digest: Digester, os: seq<SettlementObligation>, w: World, steps: seq<Step>,
                                           i: nat)
    requires |os| == |w| && i < |w|
    requires w[i].status == Paid || w[i].status == Cancelled || w[i].status == WrittenOff
    ensures Run(digest, os, w, steps)[i] == w[i]
    decreases |steps|
  {
    if steps != [] {
      TerminalOutcome(digest, os[i], w[i], steps[0]);
      TerminalForever(digest, os, Next(digest, os, w, steps[0]), steps[1..], i);
    }
  }

  lemma {:induction false} TerminalOutcome(digest: Digester, o: SettlementObligation, st: LedgerState, step: Step)
    requires st.status == Paid || st.status == Cancelled || st.status == WrittenOff
    ensures Outcome(digest, o, st, step) == st
  {
    match step
    case Pay(_, evidence, paid, before) => TerminalAbsorbing(digest, o, st, evidence, paid, Paid, before);
    case Settle(_, target, evidence, before) => TerminalAbsorbing(digest, o, st, evidence, o.amount, target, before);
  }

  /** A state whose revision has wrapped to zero is never written again, and nothing more is booked on it. */
  lemma {:induction false} WrappedForever(digest: Digester, os: seq<SettlementObligation>, w: World, steps: seq<Step>,
                                          i: nat)
    requires |os| == |w| && i < |w| && w[i].revision == 0
    ensures Run(digest, os, w, steps)[i] == w[i] && Bookings(digest, os, w, steps, i) == []
    decreases |steps|
  {
    if steps != [] {
      WrappedOutcome(digest, os[i], w[i], steps[0]);
      WrappedForever(digest, os, Next(digest, os, w, steps[0]), steps[1..], i);
    }
  }

  lemma {:induction false} WrappedOutcome(digest: Digester, o: SettlementObligation, st: LedgerState, step: Step)
    requires st.revision == 0
    ensures Outcome(digest, o, st, step) == st
    ensures step.Pay? ==> ApplyPayment(digest, st, o, step.evidence, step.paid, step.before) == Failed
  {
    match step
    case Pay(_, evidence, paid, before) => WrappedIsDead(digest, st, o, evidence, paid, Paid, before);
    case Settle(_, target, evidence, before) => WrappedIsDead(digest, st, o, evidence, o.amount, target, before);
  }

  // ---------- how a status is reached ----------

  lemma {:induction false} RunSnoc(digest: Digester, os: seq<SettlementObligation>, w: World, steps: seq<Step>,
                                   step: Step)
    requires |os| == |w|
    ensures Run(digest, os, w, steps + [step]) == Next(digest, os, Run(digest, os, w, steps), step)
    decreases |steps|
  {
    var all := steps + [step];
    if steps == [] {
      assert all[1..] == [];
    } else {
      assert all[0] == steps[0] && all[1..] == steps[1..] + [step];
      RunSnoc(digest, os, Next(digest, os, w, steps[0]), steps[1..], step);
    }
  }

  /** A payment leaves only the four open statuses and leads to one of two. */
  lemma {:induction false} PaymentMoves(digest: Digester, st: LedgerState, o: SettlementObligation, evidence: string,
                                        paid: AgreementAmount, before: Instant, r: LedgerState)
    requires ApplyPayment(digest, st, o, evidence, paid, before) == Done(r) && r != st
    ensures st.status in {Pending, PartiallyPaid, Overdue, Disputed} && r.status in {Paid, PartiallyPaid}
  {
    NewIsPosted(digest, st, o, evidence, paid, before, r);
    PostedShape(st, o, evidence, paid, r);
  }

  /** Every change of status is a payment on an open obligation or one of the listed moves. */
  lemma {:induction false} StepMoves(digest: Digester, o: SettlementObligation, st: LedgerState, step: Step)
    ensures var r := Outcome(digest, o, st, step);
            r.status != st.status ==>
              || (step.Pay? && st.status in {Pending, PartiallyPaid, Overdue, Disputed}
                  && r.status in {Paid, PartiallyPaid})
              || (step.Settle? && Moves(st.status, r.status, o, step.before))
  {
    var r := Outcome(digest, o, st, step);
    if r.status != st.status {
      match step
      case Pay(_, evidence, paid, before) => PaymentMoves(digest, st, o, evidence, paid, before, r);
      case Settle(_, target, evidence, before) =>
        if !(evidence in st.evidence && st.status == target) {
          ResolveExactly(digest, st, o, target, evidence, before);
        }
    }
  }

  lemma {:induction false} LastMove(digest: Digester, os: seq<SettlementObligation>, w: World, steps: seq<Step>,
                                    i: nat, target: Status) returns (k: nat)
    requires |os| == |w| && i < |w| && w[i].status != target && Run(digest, os, w, steps)[i].status == target
    ensures k < |steps| && steps[k].index == i && Run(digest, os, w, steps[..k])[i].status != target
    ensures Outcome(digest, os[i], Run(digest, os, w, steps[..k])[i], steps[k]).status == target
  {
    var n := |steps| - 1;
    assert steps == steps[..n] + [steps[n]];
    RunSnoc(digest, os, w, steps[..n], steps[n]);
    if Run(digest, os, w, steps[..n])[i].status == target {
      k := LastMove(digest, os, w, steps[..n], i, target);
      assert steps[..n][..k] == steps[..k];
    } else {
      k := n;
    }
  }

  /** A debt is only written off after it was overdue or disputed. */
  lemma {:induction false} WrittenOffHistory(digest: Digester, os: seq<SettlementObligation>, w: World,
                                             steps: seq<Step>, i: nat) returns (k: nat)
    requires Initial(digest, os, w) && i < |w| && Run(digest, os, w, steps)[i].status == WrittenOff
    ensures k < |steps|
    ensures var earlier := Run(digest, os, w, steps[..k])[i].status; earlier == Overdue || earlier == Disputed
  {
    k := LastMove(digest, os, w, steps, i, WrittenOff);
    StepMoves(digest, os[i], Run(digest, os, w, steps[..k])[i], steps[k]);
  }

  /** An obligation is only overdue if it has a due time and some step came at or after it. */
  lemma {:induction false} OverdueHistory(digest: Digester, os: seq<SettlementObligation>, w: World, steps: seq<Step>,
                                          i: nat) returns (k: nat)
    requires Initial(digest, os, w) && i < |w| && Run(digest, os, w, steps)[i].status == Overdue
    ensures k < |steps| && steps[k].Settle? && steps[k].index == i
    ensures os[i].dueAt != 0 && !steps[k].before(os[i].dueAt)
  {
    k := LastMove(digest, os, w, steps, i, Overdue);
    StepMoves(digest, os[i], Run(digest, os, w, steps[..k])[i], steps[k]);
  }

  // ---------- the aggregate cap ----------

  ghost predicate Counted(w: World) { forall i | 0 <= i < |w| :: Readable(w[i].paidToDate) }

  ghost function TotalPaid(w: World): real
    requires Counted(w)
  {
    if w == [] then 0.0 else Value(w[0].paidToDate) + TotalPaid(w[1..])
  }

  lemma {:induction false} TotalBound(w: World, limit: real)
    requires Counted(w) && forall i | 0 <= i < |w| :: Value(w[i].paidToDate) <= limit
    ensures TotalPaid(w) <= Repeated(|w|, limit)
  {
    if w != [] {
      TotalBound(w[1..], limit);
    }
  }

  lemma {:induction false} PaidWithinAmount(digest: Digester, o: SettlementObligation, st: LedgerState)
    requires Inv(digest, o, st)
    ensures Readable(st.paidToDate) && Readable(o.amount) && Value(st.paidToDate) <= Value(o.amount)
  {
  }

  /** Instances of equal amount whose total stays within a maximum are never paid beyond it. */
  lemma {:induction false} CapForEqualInstances(digest: Digester, os: seq<SettlementObligation>, w: World,
                                                steps: seq<Step>, amount: AgreementAmount, maximum: AgreementAmount)
    requires Initial(digest, os, w) && Readable(amount) && Readable(maximum)
    requires forall i | 0 <= i < |os| :: os[i].amount == amount
    requires Repeated(|os|, Value(amount)) <= Value(maximum)
    ensures Counted(Run(digest, os, w, steps)) && TotalPaid(Run(digest, os, w, steps)) <= Value(maximum)
  {
    InitialInv(digest, os, w);
    RunKeepsInv(digest, os, w, steps);
    var r := Run(digest, os, w, steps);
    AllWithin(digest, os, r, amount);
    TotalBound(r, Value(amount));
  }

  /** Some of the obligations, by increasing position. */
  ghost predicate Positions(at: seq<nat>, n: nat) {
    (forall i | 0 <= i < |at| :: at[i] < n) && forall i, j | 0 <= i < j < |at| :: at[i] < at[j]
  }

  ghost function Chosen(os: seq<SettlementObligation>, at: seq<nat>): (r: seq<SettlementObligation>)
    requires Positions(at, |os|)
    ensures |r| == |at| && forall i | 0 <= i < |r| :: r[i] == os[at[i]]
  {
    seq(|at|, i requires 0 <= i < |at| => os[at[i]])
  }

  lemma {:induction false} PositionsBound(at: seq<nat>, n: nat)
    requires Positions(at, n)
    ensures |at| <= n
  {
    if at != [] {
      PositionsBound(at[..|at| - 1], at[|at| - 1]);
    }
  }

  lemma {:induction false} RepeatedMonotone(m: nat, n: nat, x: real)
    requires m <= n && x >= 0.0
    ensures Repeated(m, x) <= Repeated(n, x)
  {
    if m < n { RepeatedMonotone(m, n - 1, x); }
  }

  /**
   Over every run, the instances of one obligation are together never paid beyond the agreed
   maximum, whichever of them have been opened.
   */
  lemma {:induction false} CapOverAllRuns(digest: Digester, d: Billing.Digests, q: Billing.Request, at: seq<nat>,
                                          w: World, steps: seq<Step>)
    requires Billing.Materialized(d, q).Ok? && Positions(at, |Billing.Materialized(d, q).value|)
    requires Initial(digest, Chosen(Billing.Materialized(d, q).value, at), w)
    ensures var r := Run(digest, Chosen(Billing.Materialized(d, q).value, at), w, steps);
            && Counted(r) && Readable(Billing.Maximum(q.obligation))
            && TotalPaid(r) <= Value(Billing.Maximum(q.obligation))
  {
    var os, amount := Billing.Materialized(d, q).value, q.obligation.amount.value;
    Billing.AggregateCap(q);
    SameParties(d, q);
    ValueNonNegative(amount);
    PositionsBound(at, |os|);
    RepeatedMonotone(|at|, |os|, Value(amount));
    CapForEqualInstances(digest, Chosen(os, at), w, steps, amount, Billing.Maximum(q.obligation));
  }

  /** What the instances between two parties have been paid. */
  ghost function PaidBetween(os: seq<SettlementObligation>, w: World, payer: string, payee: string): real
    requires |os| == |w| && Counted(w)
  {
    if w == [] then 0.0
    else (if os[0].payerAgentId == payer && os[0].payeeAgentId == payee then Value(w[0].paidToDate) else 0.0)
         + PaidBetween(os[1..], w[1..], payer, payee)
  }

  lemma {:induction false} OneDebtor(os: seq<SettlementObligation>, w: World, debtor: string, creditor: string,
                                     payer: string, payee: string)
    requires |os| == |w| && Counted(w)
    requires forall i | 0 <= i < |os| :: os[i].payerAgentId == debtor && os[i].payeeAgentId == creditor
    ensures PaidBetween(os, w, payer, payee)
         == if payer == debtor && payee == creditor then TotalPaid(w) else 0.0
  {
    if w != [] {
      OneDebtor(os[1..], w[1..], debtor, creditor, payer, payee);
    }
  }

  /**
   Over every run, all that the instances of an obligation are paid is paid by its obligor to its
   beneficiary, and it stays within the agreed maximum; between any other two nothing is paid.
   */
  lemma {:induction false} CapBetweenParties(digest: Digester, d: Billing.Digests, q: Billing.Request, at: seq<nat>,
                                             w: World, steps: seq<Step>, payer: string, payee: string)
    requires Billing.Materialized(d, q).Ok? && Positions(at, |Billing.Materialized(d, q).value|)
    requires Initial(digest, Chosen(Billing.Materialized(d, q).value, at), w)
    ensures var os := Chosen(Billing.Materialized(d, q).value, at); var r := Run(digest, os, w, steps);
            && Counted(r) && Readable(Billing.Maximum(q.obligation))
            && PaidBetween(os, r, payer, payee) <= Value(Billing.Maximum(q.obligation))
            && PaidBetween(os, r, payer, payee)
               == if payer == q.obligation.obligorAgentId && payee == q.obligation.beneficiaryAgentId
                  then TotalPaid(r) else 0.0
  {
    var os := Chosen(Billing.Materialized(d, q).value, at);
    CapOverAllRuns(digest, d, q, at, w, steps);
    SameParties(d, q);
    OneDebtor(os, Run(digest, os, w, steps), q.obligation.obligorAgentId, q.obligation.beneficiaryAgentId, payer,
              payee);
    ValueNonNegative(Billing.Maximum(q.obligation));
  }

  lemma {:induction false} SameParties(d: Billing.Digests, q: Billing.Request)
    requires Billing.Materialized(d, q).Ok?
    ensures var os := Billing.Materialized(d, q).value;
            && q.obligation.amount.Some?
            && (forall i | 0 <= i < |os| :: os[i].amount == q.obligation.amount.value)
            && (forall i | 0 <= i < |os| :: os[i].payerAgentId == q.obligation.obligorAgentId)
            && (forall i | 0 <= i < |os| :: os[i].payeeAgentId == q.obligation.beneficiaryAgentId)
  {
    var os := Billing.Materialized(d, q).value;
    forall i | 0 <= i < |os|
      ensures os[i].amount == q.obligation.amount.value && os[i].payerAgentId == q.obligation.obligorAgentId
      ensures os[i].payeeAgentId == q.obligation.beneficiaryAgentId
    {
      Billing.MaterializedInstance(d, q, i);
    }
  }

  lemma {:induction false} AllWithin(digest: Digester, os: seq<SettlementObligation>, w: World, amount: AgreementAmount)
    requires AllInv(digest, os, w) && Readable(amount) && forall i | 0 <= i < |os| :: os[i].amount == amount
    ensures Counted(w) && forall i | 0 <= i < |w| :: Value(w[i].paidToDate) <= Value(amount)
  {
    forall i | 0 <= i < |w|
      ensures Readable(w[i].paidToDate) && Value(w[i].paidToDate) <= Value(amount)
    {
      PaidWithinAmount(digest, os[i], w[i]);
    }
  }
}
