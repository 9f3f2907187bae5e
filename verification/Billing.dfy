/**
 Materialisation of an obligation into one or more settlement instances under an
 aggregate cap.  Sequence numbers and start times are 64-bit and wrap, as in the source.
 */
module Billing {
  import opened Text
  import opened Decimal
  import opened Amounts
  import opened AgreementTypes
  import opened Settlement
  import SemanticAction

  datatype InstanceIdentity = InstanceIdentity(
    agreementBodyDigest: string, agreementObligationId: string, sequence: nat, predecessorInstanceId: string)

  /** The digests billing asks for: adapter parameters, instance identities, and the "billing.materialize" action. */
  datatype Digests = Digests(
    parameters: string -> Result<string>, instance: InstanceIdentity -> Result<string>,
    action: SemanticAction.Values -> Result<string>)

  datatype Request = Request(
    ownerId: string, agentId: string, agreementDigest: string, obligationId: string, mandateDigest: string,
    obligation: Obligation)

  predicate ValidRequest(q: Request) {
    var o := q.obligation;
    && BoundedIdentifier(q.ownerId, 256) && BoundedIdentifier(q.agentId, 256) && IsDigest(q.agreementDigest)
    && BoundedIdentifier(q.obligationId, 128) && o.obligationId == q.obligationId && o.amount.Some?
    && IsDigest(q.mandateDigest) && ValidAmount(o.amount.value)
    && BoundedIdentifier(o.beneficiaryAgentId, 256) && BoundedIdentifier(o.settlementAdapterUri, 256)
    && o.settlementParameters != ""
    && (o.billing.Some? ==> ValidBillingTerms(o.billing.value, o.amount.value))
  }

  predicate Periodic(o: Obligation) { o.billing.Some? && o.billing.value.billingKind == "periodic" }

  function Count(o: Obligation): nat { if Periodic(o) then o.billing.value.recurrenceCount else 1 }

  function FirstSequence(o: Obligation): nat { if o.billing.Some? then o.billing.value.firstSequence else 1 }

  function Maximum(o: Obligation): AgreementAmount
    requires o.amount.Some?
  {
    if o.billing.Some? then o.billing.value.maximumAggregate else o.amount.value
  }

  /** Start, due and expiry of the instance at an offset; None when it falls outside the recurrence. */
  function Times(o: Obligation, offset: nat): Option<(nat, nat, nat)> {
    if !Periodic(o) then Some((o.notBefore, o.dueAt, o.expiresAt))
    else
      var t := o.billing.value;
      var start := (t.recurrenceStart + offset * t.recurrenceInterval % TWO64) % TWO64;
      var due := if o.dueAt == 0 || o.dueAt < start then start else o.dueAt;
      var expires := if o.expiresAt == 0 || o.expiresAt > t.recurrenceEnd then t.recurrenceEnd else o.expiresAt;
      if start >= expires then None else Some((start, due, expires))
  }

  function ActionValues(q: Request, sequence: nat): SemanticAction.Values {
    map["owner_id" := SemanticAction.SemanticValue(SemanticAction.Id, q.ownerId),
        "agent_id" := SemanticAction.SemanticValue(SemanticAction.Id, q.agentId),
        "agreement_body_digest" := SemanticAction.SemanticValue(SemanticAction.Digest32, q.agreementDigest),
        "agreement_obligation_id" := SemanticAction.SemanticValue(SemanticAction.Id, q.obligationId),
        "sequence" := SemanticAction.U64Value(sequence)]
  }

  function Identity(q: Request, offset: nat, predecessor: string): InstanceIdentity {
    InstanceIdentity(q.agreementDigest, q.obligationId, (FirstSequence(q.obligation) + offset) % TWO64, predecessor)
  }

  /** One turn of the loop. */
  function Instance(d: Digests, q: Request, parametersDigest: string, offset: nat,
                    predecessor: string): Result<SettlementObligation>
    requires q.obligation.amount.Some?
  {
    var o := q.obligation;
    var times := Times(o, offset);
    if times.None? then Err
    else
      var identity := Identity(q, offset, predecessor);
      var id, action := d.instance(identity), d.action(ActionValues(q, identity.sequence));
      if id.Err? || action.Err? then Err
      else Ok(SettlementObligation(
        q.agreementDigest, q.obligationId, id.value, identity.sequence, predecessor, o.obligorAgentId,
        o.beneficiaryAgentId, o.amount.value, times.value.0, times.value.1, times.value.2, Maximum(o),
        o.settlementAdapterUri, parametersDigest, q.mandateDigest, action.value))
  }

  function LastId(instances: seq<SettlementObligation>): string {
    if instances == [] then "" else instances[|instances| - 1].instanceId
  }

  type Turn = (nat, string) -> Result<SettlementObligation>

  /** The first n results of a turn function, each given the identity of the one before it. */
  function Chain(turn: Turn, n: nat): (r: Result<seq<SettlementObligation>>)
    ensures r.Ok? ==> |r.value| == n
  {
    if n == 0 then Ok([])
    else
      var earlier := Chain(turn, n - 1);
      if earlier.Err? then Err
      else
        var next := turn(n - 1, LastId(earlier.value));
        if next.Err? then Err else Ok(earlier.value + [next.value])
  }

  lemma {:induction false} ChainStop(turn: Turn, m: nat, n: nat)
    requires m <= n && Chain(turn, m).Err?
    ensures Chain(turn, n).Err?
    decreases n
  {
    if m < n { ChainStop(turn, m, n - 1); }
  }

  function PreviousId(s: seq<SettlementObligation>, i: nat): string
    requires i <= |s|
  {
    if i == 0 then "" else s[i - 1].instanceId
  }

  /** Every element is the turn at its offset, chained to its predecessor. */
  lemma {:induction false} ChainShape(turn: Turn, n: nat, i: nat)
    requires Chain(turn, n).Ok? && i < n
    ensures var s := Chain(turn, n).value; turn(i, PreviousId(s, i)) == Ok(s[i])
  {
    if i < n - 1 {
      ChainShape(turn, n - 1, i);
    }
  }

  function TurnOf(d: Digests, q: Request, parametersDigest: string): Turn
    requires q.obligation.amount.Some?
  {
    (offset: nat, predecessor: string) => Instance(d, q, parametersDigest, offset, predecessor)
  }

  predicate Admissible(q: Request) {
    ValidRequest(q) && !ExceedsAggregate(q.obligation.amount.value, Count(q.obligation), Maximum(q.obligation))
  }

  function Materialized(d: Digests, q: Request): (r: Result<seq<SettlementObligation>>)
    ensures r.Ok? ==> Admissible(q) && |r.value| == Count(q.obligation) <= 10_000
  {
    if !Admissible(q) then Err
    else
      var parameters := d.parameters(q.obligation.settlementParameters);
      if parameters.Err? then Err else Chain(TurnOf(d, q, parameters.value), Count(q.obligation))
  }

  /** `MaterializeSettlementObligations`. */
  method MaterializeSettlementObligations(d: Digests, q: Request) returns (r: Result<seq<SettlementObligation>>)
    ensures r == Materialized(d, q)
  {
    if !ValidRequest(q) {
      return Err;
    }
    var o := q.obligation;
    var count, maximum := 1, o.amount.value;
    if o.billing.Some? {
      maximum := o.billing.value.maximumAggregate;
      if o.billing.value.billingKind == "periodic" {
        count := o.billing.value.recurrenceCount;
      }
    }
    if ExceedsAggregate(o.amount.value, count, maximum) {
      return Err;
    }
    var parameters := d.parameters(o.settlementParameters);
    if parameters.Err? {
      return Err;
    }
    r := RunChain(TurnOf(d, q, parameters.value), count);
  }

  /** The loop: each result is appended and becomes the predecessor of the next. */
  method RunChain(turn: Turn, count: nat) returns (r: Result<seq<SettlementObligation>>)
    ensures r == Chain(turn, count)
  {
    var result: seq<SettlementObligation> := [];
    var predecessor := "";
    for offset := 0 to count
      invariant Chain(turn, offset) == Ok(result)
      invariant predecessor == LastId(result)
    {
      var next := turn(offset, predecessor);
      if next.Err? {
        ChainStop(turn, offset + 1, count);
        return Err;
      }
      result := result + [next.value];
      predecessor := next.value.instanceId;
    }
    return Ok(result);
  }

  /** What the agreement fixes about every instance: who owes whom, what, and under which terms. */
  ghost predicate Carries(d: Digests, q: Request, x: SettlementObligation) {
    var o := q.obligation;
    && x.payerAgentId == o.obligorAgentId && x.payeeAgentId == o.beneficiaryAgentId
    && Some(x.amount) == o.amount
    && x.maximumAggregate == (if o.billing.Some? then o.billing.value.maximumAggregate else x.amount)
    && x.agreementBodyDigest == q.agreementDigest && x.agreementObligationId == q.obligationId
    && x.settlementAdapterUri == o.settlementAdapterUri
    && d.parameters(o.settlementParameters) == Ok(x.settlementParametersDigest)
    && x.mandateDigest == q.mandateDigest
  }

  /** When the instance at offset i runs: from its turn of the recurrence to the earlier of the two ends. */
  ghost predicate Scheduled(o: Obligation, i: nat, x: SettlementObligation) {
    if o.billing.Some? && o.billing.value.billingKind == "periodic" then
      var t := o.billing.value;
      && x.notBefore == (t.recurrenceStart + i * t.recurrenceInterval) % TWO64 < x.expiresAt <= t.recurrenceEnd
      && x.dueAt == (if o.dueAt > x.notBefore then o.dueAt else x.notBefore)
      && (x.expiresAt == t.recurrenceEnd || x.expiresAt == o.expiresAt)
      && (o.expiresAt != 0 ==> x.expiresAt <= o.expiresAt)
    else x.notBefore == o.notBefore && x.dueAt == o.dueAt && x.expiresAt == o.expiresAt
  }

  /** What the instance at offset i is, given the ones before it. */
  ghost predicate IsInstance(d: Digests, q: Request, s: seq<SettlementObligation>, i: nat)
    requires i < |s|
  {
    var x, before := s[i], if i == 0 then "" else s[i - 1].instanceId;
    var first := if q.obligation.billing.Some? then q.obligation.billing.value.firstSequence else 1;
    && Carries(d, q, x) && Scheduled(q.obligation, i, x)
    && x.sequence == (first + i) % TWO64 && x.predecessorInstanceId == before
    && d.instance(InstanceIdentity(q.agreementDigest, q.obligationId, x.sequence, before)) == Ok(x.instanceId)
    && d.action(map["owner_id" := SemanticAction.SemanticValue(SemanticAction.Id, q.ownerId),
                    "agent_id" := SemanticAction.SemanticValue(SemanticAction.Id, q.agentId),
                    "agreement_body_digest" :=
                      SemanticAction.SemanticValue(SemanticAction.Digest32, q.agreementDigest),
                    "agreement_obligation_id" := SemanticAction.SemanticValue(SemanticAction.Id, q.obligationId),
                    "sequence" := SemanticAction.U64Value(x.sequence)]) == Ok(x.stableActionId)
  }

  lemma {:induction false} WrapSum(a: nat, b: nat)
    ensures (a + b % TWO64) % TWO64 == (a + b) % TWO64
  {
    assert a + b == (a + b % TWO64) + (b / TWO64) * TWO64;
  }

  lemma {:induction false} TimesScheduled(o: Obligation, i: nat, x: SettlementObligation)
    requires Times(o, i) == Some((x.notBefore, x.dueAt, x.expiresAt))
    ensures Scheduled(o, i, x)
  {
    if Periodic(o) {
      WrapSum(o.billing.value.recurrenceStart, i * o.billing.value.recurrenceInterval);
    }
  }

  lemma {:induction false} InstanceCarries(d: Digests, q: Request, p: string, i: nat, predecessor: string)
    requires ValidRequest(q) && d.parameters(q.obligation.settlementParameters) == Ok(p)
    requires Instance(d, q, p, i, predecessor).Ok?
    ensures var x := Instance(d, q, p, i, predecessor).value;
            && Carries(d, q, x) && Times(q.obligation, i) == Some((x.notBefore, x.dueAt, x.expiresAt))
            && x.sequence == (FirstSequence(q.obligation) + i) % TWO64 && x.predecessorInstanceId == predecessor
            && d.instance(InstanceIdentity(q.agreementDigest, q.obligationId, x.sequence, predecessor))
               == Ok(x.instanceId)
            && d.action(ActionValues(q, x.sequence)) == Ok(x.stableActionId)
  {
  }

  lemma {:induction false} InstanceIsTurn(d: Digests, q: Request, i: nat)
    requires Materialized(d, q).Ok? && i < |Materialized(d, q).value|
    ensures d.parameters(q.obligation.settlementParameters).Ok?
    ensures var s, p := Materialized(d, q).value, d.parameters(q.obligation.settlementParameters).value;
            Instance(d, q, p, i, PreviousId(s, i)) == Ok(s[i])
  {
    ChainShape(TurnOf(d, q, d.parameters(q.obligation.settlementParameters).value), Count(q.obligation), i);
  }

  /** Every instance of a materialised obligation, field by field. */
  lemma {:induction false} MaterializedInstance(d: Digests, q: Request, i: nat)
    requires Materialized(d, q).Ok? && i < |Materialized(d, q).value|
    ensures IsInstance(d, q, Materialized(d, q).value, i)
    ensures var billing := q.obligation.billing;
            |Materialized(d, q).value|
            == if billing.Some? && billing.value.billingKind == "periodic" then billing.value.recurrenceCount else 1
  {
    var s, p := Materialized(d, q).value, d.parameters(q.obligation.settlementParameters).value;
    InstanceIsTurn(d, q, i);
    InstanceCarries(d, q, p, i, PreviousId(s, i));
    TimesScheduled(q.obligation, i, s[i]);
  }

  lemma {:induction false} ValidCap(amount: AgreementAmount, count: nat, maximum: AgreementAmount)
    requires ValidAmount(amount) && ValidAmount(maximum) && !ExceedsAggregate(amount, count, maximum)
    ensures Parseable(amount) && Parseable(maximum) && Repeated(count, Value(amount)) <= Value(maximum)
  {
    ValidParseable(amount);
    ValidParseable(maximum);
    ExceedsExact(amount, count, maximum);
  }

  /** All instances of an admissible request together are worth no more than the agreed maximum. */
  lemma {:induction false} AggregateCap(q: Request)
    requires Admissible(q)
    ensures var o := q.obligation;
            && Parseable(o.amount.value) && Parseable(Maximum(o))
            && Repeated(Count(o), Value(o.amount.value)) <= Value(Maximum(o))
  {
    ValidCap(q.obligation.amount.value, Count(q.obligation), Maximum(q.obligation));
  }

  ghost function Identities(d: Digests, q: Request): set<InstanceIdentity>
    requires Materialized(d, q).Ok?
  {
    var s := Materialized(d, q).value;
    set i | 0 <= i < |s| :: Identity(q, i, s[i].predecessorInstanceId)
  }

  lemma {:induction false} IdentityOf(d: Digests, q: Request, i: nat)
    requires Materialized(d, q).Ok? && i < |Materialized(d, q).value|
    ensures var s := Materialized(d, q).value; var identity := Identity(q, i, s[i].predecessorInstanceId);
            identity in Identities(d, q) && d.instance(identity) == Ok(s[i].instanceId)
  {
    IdentityDigest(d, q, i);
  }

  lemma {:induction false} IdentityDigest(d: Digests, q: Request, i: nat)
    requires Materialized(d, q).Ok? && i < |Materialized(d, q).value|
    ensures var x := Materialized(d, q).value[i];
            d.instance(Identity(q, i, x.predecessorInstanceId)) == Ok(x.instanceId)
  {
    InstanceIsTurn(d, q, i);
  }

  lemma {:induction false} IdentitiesDiffer(q: Request, i: nat, j: nat, before: string, after: string)
    requires i < j < i + TWO64
    ensures Identity(q, i, before) != Identity(q, j, after)
  {
    WrapDistinct(FirstSequence(q.obligation), i, j);
  }

  /** Instances never share an identity, even when the 64-bit sequence wraps. */
  lemma {:induction false} InstancesDistinct(d: Digests, q: Request, i: nat, j: nat)
    requires Materialized(d, q).Ok? && i < j < |Materialized(d, q).value|
    requires forall a, b :: a in Identities(d, q) && b in Identities(d, q) && d.instance(a) == d.instance(b) ==> a == b
    ensures Materialized(d, q).value[i].instanceId != Materialized(d, q).value[j].instanceId
  {
    var s := Materialized(d, q).value;
    IdentityOf(d, q, i);
    IdentityOf(d, q, j);
    IdentitiesDiffer(q, i, j, s[i].predecessorInstanceId, s[j].predecessorInstanceId);
  }

  lemma {:induction false} WrapDistinct(first: nat, i: nat, j: nat)
    requires i < j < i + TWO64
    ensures (first + i) % TWO64 != (first + j) % TWO64
  {
  }

  // ---------- which instances can be opened ----------

  ghost predicate DigestForm(d: Digests) {
    && (forall x :: d.parameters(x).Ok? ==> IsDigest(d.parameters(x).value))
    && (forall x :: d.instance(x).Ok? ==> IsDigest(d.instance(x).value))
    && forall x :: d.action(x).Ok? ==> IsDigest(d.action(x).value)
  }

  /** The times `ValidateSettlementObligation` accepts. */
  predicate OrderedTimes(notBefore: nat, due: nat, expires: nat) {
    (notBefore == 0 || expires == 0 || notBefore < expires) && (due == 0 || expires == 0 || due <= expires)
  }

  lemma {:induction false} InstanceFields(d: Digests, q: Request, p: string, i: nat, predecessor: string)
    requires DigestForm(d) && ValidRequest(q) && Instance(d, q, p, i, predecessor).Ok? && IsDigest(p)
    requires predecessor == "" || IsDigest(predecessor)
    ensures var o := Instance(d, q, p, i, predecessor).value;
            && IsDigest(o.instanceId)
            && (ValidObligation(o) <==> o.sequence != 0 && BoundedIdentifier(q.obligation.obligorAgentId, 256)
                                        && OrderedTimes(o.notBefore, o.dueAt, o.expiresAt))
  {
  }

  lemma {:induction false} PreviousDigest(d: Digests, q: Request, i: nat)
    requires DigestForm(d) && Materialized(d, q).Ok? && i <= |Materialized(d, q).value|
    ensures var id := PreviousId(Materialized(d, q).value, i); id == "" || IsDigest(id)
  {
    if i > 0 {
      IdentityDigest(d, q, i - 1);
    }
  }

  /** The expiry of every instance of a recurrence. */
  function End(o: Obligation): nat
    requires Periodic(o)
  {
    var end := o.billing.value.recurrenceEnd;
    if o.expiresAt == 0 || o.expiresAt > end then end else o.expiresAt
  }

  /** What materialisation leaves unchecked about the agreed times, which is the same for every instance. */
  predicate OpenTimes(o: Obligation) {
    if Periodic(o) then o.dueAt <= End(o) else OrderedTimes(o.notBefore, o.dueAt, o.expiresAt)
  }

  lemma {:induction false} TimesOrdered(o: Obligation, offset: nat)
    requires Times(o, offset).Some?
    ensures var t := Times(o, offset).value; OrderedTimes(t.0, t.1, t.2) <==> OpenTimes(o)
  {
  }

  /** The i-th sequence number has not wrapped to zero. */
  predicate Numbered(first: nat, i: nat) { (first + i) % TWO64 != 0 }

  /** What materialisation does not check before an instance of the request is opened. */
  predicate Opens(q: Request, i: nat) {
    && Numbered(FirstSequence(q.obligation), i) && BoundedIdentifier(q.obligation.obligorAgentId, 256)
    && OpenTimes(q.obligation)
  }

  lemma {:induction false} InstanceTimes(d: Digests, q: Request, p: string, i: nat, predecessor: string)
    requires q.obligation.amount.Some? && Instance(d, q, p, i, predecessor).Ok?
    ensures var o := Instance(d, q, p, i, predecessor).value;
            && o.sequence == (FirstSequence(q.obligation) + i) % TWO64
            && Times(q.obligation, i) == Some((o.notBefore, o.dueAt, o.expiresAt))
  {
  }

  lemma {:induction false} TurnOpens(d: Digests, q: Request, p: string, i: nat, predecessor: string)
    requires DigestForm(d) && ValidRequest(q) && Instance(d, q, p, i, predecessor).Ok? && IsDigest(p)
    requires predecessor == "" || IsDigest(predecessor)
    ensures ValidObligation(Instance(d, q, p, i, predecessor).value) <==> Opens(q, i)
  {
    InstanceFields(d, q, p, i, predecessor);
    InstanceTimes(d, q, p, i, predecessor);
    TimesOrdered(q.obligation, i);
  }

  /**
   A materialised instance can be opened exactly when its sequence has not wrapped to zero, the
   obligor's identifier is acceptable and the agreed times are in order; materialisation checks
   none of the three.
   */
  lemma {:induction false} InstanceOpens(d: Digests, q: Request, i: nat)
    requires DigestForm(d) && Materialized(d, q).Ok? && i < |Materialized(d, q).value|
    ensures ValidObligation(Materialized(d, q).value[i]) <==> Opens(q, i)
  {
    InstanceIsTurn(d, q, i);
    PreviousDigest(d, q, i);
    TurnOpens(d, q, d.parameters(q.obligation.settlementParameters).value, i, PreviousId(Materialized(d, q).value, i));
  }

  lemma {:induction false} NumberedBelow(first: nat, i: nat)
    requires 0 < first && first + i < TWO64
    ensures Numbered(first, i)
  {
  }

  /** A run of sequence numbers avoids zero exactly when it ends before the 64-bit wrap. */
  lemma {:induction false} NumberedRun(first: nat, n: nat)
    requires 0 < first < TWO64
    ensures (forall i: nat | i < n :: Numbered(first, i)) <==> first + n <= TWO64
  {
    if first + n <= TWO64 {
      forall i: nat | i < n
        ensures Numbered(first, i)
      {
        NumberedBelow(first, i);
      }
    } else {
      assert !Numbered(first, TWO64 - first);
    }
  }

  ghost predicate AllOpen(s: seq<SettlementObligation>) { forall i: nat | i < |s| :: ValidObligation(s[i]) }

  lemma {:induction false} AllOpenExactly(s: seq<SettlementObligation>, first: nat, rest: bool)
    requires 0 < first < TWO64 && s != []
    requires forall i: nat | i < |s| :: ValidObligation(s[i]) <==> Numbered(first, i) && rest
    ensures AllOpen(s) <==> first + |s| <= TWO64 && rest
  {
    NumberedRun(first, |s|);
    if AllOpen(s) {
      assert ValidObligation(s[0]);
    }
  }

  /** Every materialised instance can be opened exactly when the request meets three conditions of its own. */
  lemma {:induction false} AllInstancesOpen(d: Digests, q: Request)
    requires DigestForm(d) && Materialized(d, q).Ok? && FirstSequence(q.obligation) < TWO64
    ensures AllOpen(Materialized(d, q).value) <==>
              && FirstSequence(q.obligation) + Count(q.obligation) <= TWO64
              && BoundedIdentifier(q.obligation.obligorAgentId, 256) && OpenTimes(q.obligation)
  {
    var first, s := FirstSequence(q.obligation), Materialized(d, q).value;
    var rest := BoundedIdentifier(q.obligation.obligorAgentId, 256) && OpenTimes(q.obligation);
    forall i: nat | i < |s|
      ensures ValidObligation(s[i]) <==> Numbered(first, i) && rest
    {
      InstanceOpens(d, q, i);
    }
    AllOpenExactly(s, first, rest);
  }

  // ---------- which requests materialise ----------

  /** The request's own records have digests: its parameters, the identities of its instances and their actions. */
  ghost predicate DigestsDefined(d: Digests, q: Request) {
    && d.parameters(q.obligation.settlementParameters).Ok?
    && (forall i: nat, id | i < Count(q.obligation) && (id == "" || IsDigest(id)) :: d.instance(Identity(q, i, id)).Ok?)
    && forall i: nat | i < Count(q.obligation) :: d.action(ActionValues(q, Identity(q, i, "").sequence)).Ok?
  }

  /** The turn at offset i starts before the recurrence ends. */
  predicate InRecurrence(o: Obligation, i: nat) {
    Periodic(o) ==>
      (o.billing.value.recurrenceStart + i * o.billing.value.recurrenceInterval) % TWO64 < End(o)
  }

  lemma {:induction false} TimesDefined(o: Obligation, i: nat)
    ensures Times(o, i).Some? <==> InRecurrence(o, i)
  {
    if Periodic(o) {
      WrapSum(o.billing.value.recurrenceStart, i * o.billing.value.recurrenceInterval);
    }
  }

  ghost predicate Succeeds(turn: Turn, n: nat) {
    forall i: nat, id | i < n && (id == "" || IsDigest(id)) ::
      turn(i, id).Ok? && IsDigest(turn(i, id).value.instanceId)
  }

  lemma {:induction false} ChainDefined(turn: Turn, n: nat)
    requires Succeeds(turn, n)
    ensures Chain(turn, n).Ok? && (LastId(Chain(turn, n).value) == "" || IsDigest(LastId(Chain(turn, n).value)))
  {
    if n > 0 {
      ChainDefined(turn, n - 1);
    }
  }

  lemma {:induction false} TurnDefined(d: Digests, q: Request, p: string, i: nat, id: string)
    requires q.obligation.amount.Some? && DigestForm(d) && DigestsDefined(d, q) && i < Count(q.obligation)
    requires InRecurrence(q.obligation, i) && (id == "" || IsDigest(id))
    ensures Instance(d, q, p, i, id).Ok? && IsDigest(Instance(d, q, p, i, id).value.instanceId)
  {
    TimesDefined(q.obligation, i);
    assert d.instance(Identity(q, i, id)).Ok?;
    assert d.action(ActionValues(q, Identity(q, i, "").sequence)).Ok?;
  }

  lemma {:induction false} ChainOfRequest(d: Digests, q: Request, p: string)
    requires q.obligation.amount.Some? && DigestForm(d) && DigestsDefined(d, q)
    requires forall i: nat | i < Count(q.obligation) :: InRecurrence(q.obligation, i)
    ensures Chain(TurnOf(d, q, p), Count(q.obligation)).Ok?
  {
    var turn := TurnOf(d, q, p);
    forall i: nat, id | i < Count(q.obligation) && (id == "" || IsDigest(id))
      ensures turn(i, id).Ok? && IsDigest(turn(i, id).value.instanceId)
    {
      TurnDefined(d, q, p, i, id);
    }
    ChainDefined(turn, Count(q.obligation));
  }

  /**
   A request whose records have digests materialises exactly when it is well formed, its instances
   together stay within the maximum, and every turn starts before the recurrence ends.
   */
  lemma {:induction false} MaterializedExactly(d: Digests, q: Request)
    requires DigestForm(d) && DigestsDefined(d, q)
    ensures Materialized(d, q).Ok? <==>
              Admissible(q) && forall i: nat | i < Count(q.obligation) :: InRecurrence(q.obligation, i)
  {
    if Materialized(d, q).Ok? {
      forall i: nat | i < Count(q.obligation)
        ensures InRecurrence(q.obligation, i)
      {
        InstanceIsTurn(d, q, i);
        TimesDefined(q.obligation, i);
      }
    }
    if Admissible(q) && forall i: nat | i < Count(q.obligation) :: InRecurrence(q.obligation, i) {
      ChainOfRequest(d, q, d.parameters(q.obligation.settlementParameters).value);
    }
  }

  // ---------- an instance that cannot be opened ----------

  function Units(atomic: string): AgreementAmount { AgreementAmount("n", "i", atomic, "", "u") }

  /** Four units twice, starting at the last 64-bit sequence number. */
  function ExampleObligation(): Obligation {
    var terms := BillingTerms("periodic", TWO64 - 1, 1, 100, 2, 10, Units("9"), "c");
    Obligation("o", "k", "p", "q", [], "t", "s", [], Some(Units("4")), 0, 0, 0, [], "", "", "", Some(terms), "a", "x",
               [], [], [])
  }

  function ExampleRequest(): Request {
    Request("w", "a", UniformDigest('0'), "o", UniformDigest('0'), ExampleObligation())
  }

  lemma {:induction false} UnitsValid(c: char)
    requires IsDigit(c)
    ensures ValidAmount(Units([c])) && ParseInt([c]) == Some(DigitValue(c))
  {
    LetterIdentifies('n', 128);
    LetterIdentifies('i', 256);
    LetterIdentifies('u', 128);
    SingleDigit(c);
  }

  lemma {:induction false} ExampleValid()
    ensures ValidRequest(ExampleRequest())
  {
    LetterIdentifies('w', 256);
    LetterIdentifies('a', 256);
    LetterIdentifies('o', 128);
    LetterIdentifies('p', 256);
    LetterIdentifies('q', 256);
    LetterIdentifies('c', 256);
    UnitsValid('4');
    UnitsValid('9');
  }

  lemma {:induction false} ExampleAdmissible()
    ensures Admissible(ExampleRequest())
  {
    ExampleValid();
    UnitsValid('4');
    UnitsValid('9');
  }

  lemma {:induction false} ExampleTimes(i: nat)
    requires i < 2
    ensures InRecurrence(ExampleObligation(), i)
  {
  }

  lemma {:induction false} ExampleMaterialized(d: Digests, q: Request)
    requires q == ExampleRequest() && DigestForm(d) && DigestsDefined(d, q)
    ensures Materialized(d, q).Ok? && |Materialized(d, q).value| == 2
  {
    ExampleAdmissible();
    forall i: nat | i < 2
      ensures InRecurrence(q.obligation, i)
    {
      ExampleTimes(i);
    }
    MaterializedExactly(d, q);
  }

  lemma {:induction false} WrappedUnopenable(d: Digests, q: Request, i: nat)
    requires DigestForm(d) && Materialized(d, q).Ok? && i < |Materialized(d, q).value|
    requires FirstSequence(q.obligation) + i == TWO64
    ensures !ValidObligation(Materialized(d, q).value[i])
  {
    InstanceOpens(d, q, i);
  }

  /** The second of the two is materialised with sequence zero and cannot be opened. */
  lemma {:induction false} UnopenableInstance(d: Digests, q: Request)
    requires q == ExampleRequest() && DigestForm(d) && DigestsDefined(d, q)
    ensures Materialized(d, q).Ok? && |Materialized(d, q).value| == 2 && !ValidObligation(Materialized(d, q).value[1])
  {
    ExampleMaterialized(d, q);
    WrappedUnopenable(d, q, 1);
  }
}
