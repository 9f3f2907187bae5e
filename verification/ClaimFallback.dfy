/**
 The deterministic fallback that closes a claim nobody decided in time: what it awards, that
 it leaves no choice, and exactly when the whole validation lets it close a claim.
 */
module ClaimFallback {
  import opened Text
  import opened Decimal
  import opened ClaimDecision

  // ---------- acceptance ----------

  function Select(rules: seq<ReasonRule>, outcomeCase: string): Option<ReasonRule> {
    if rules == [] then None
    else if rules[0].outcomeCase == outcomeCase then Some(rules[0])
    else Select(rules[1..], outcomeCase)
  }

  datatype Operands = Operands(gross: int, cumulative: int, pending: int, reclaimable: int, remaining: int,
                               approved: int)

  function Operand(a: AtomicAmount, asset: Asset): Option<int> {
    if a.asset != asset then None else ParseInt(a.atomic)
  }

  function ReadOperands(p: Projection, asset: Asset): Option<Operands> {
    var g, c, q := Operand(p.gross, asset), Operand(p.cumulative, asset), Operand(p.pending, asset);
    var k, m, a := Operand(p.reclaimable, asset), Operand(p.remaining, asset), Operand(p.approved, asset);
    if g.None? || c.None? || q.None? || k.None? || m.None? || a.None? then None
    else Some(Operands(g.value, c.value, q.value, k.value, m.value, a.value))
  }

  predicate Projected(o: Operands, maximum: int) {
    && o.reclaimable <= o.pending
    && maximum - o.cumulative - o.pending + o.reclaimable >= 0
    && o.remaining == maximum - o.cumulative - o.pending + o.reclaimable
    && o.approved == (if o.gross > o.remaining then o.remaining else o.gross)
  }

  function OutcomeCase(o: Operands): string {
    if o.gross == 0 then "no_eligible_benefit"
    else if o.remaining == 0 then "aggregate_exhausted"
    else if o.approved < o.gross then "aggregate_limited"
    else "full_benefit"
  }

  /** The case a fallback decision falls under, None when its amounts are refused. */
  function CaseOf(fallbackDigest: string, d: Decision, t: Terms): Option<string> {
    var zero := AtomicAmount(t.asset, "0");
    if t.fallback.outcomeRule == "deny_zero" then
      if d.body.result != DENIED || d.body.approved != zero || d.policy.fullEligible != zero
         || d.policy.projection.Some? || d.policy.input != "" || d.body.lines != []
      then None else Some("deny_zero")
    else if d.policy.projection.None? || d.policy.projection.value.fallbackDigest != fallbackDigest
        || d.policy.input == "" then None
    else
      var p := d.policy.projection.value;
      var o, maximum := ReadOperands(p, t.asset), ParseInt(t.maximumAggregate.atomic);
      if o.None? || maximum.None? || !Projected(o.value, maximum.value)
         || d.body.approved != p.approved || d.policy.fullEligible != p.gross
      then None else Some(OutcomeCase(o.value))
  }

  /** Acceptance of a fallback decision, given the fallback's digest and the admitted evidence predicates. */
  predicate FallbackAccepts(fallbackDigest: Result<string>, d: Decision, predicates: seq<string>, t: Terms) {
    ValidFallback(t.fallback) && fallbackDigest.Ok? &&
    var outcomeCase := CaseOf(fallbackDigest.value, d, t);
    outcomeCase.Some? &&
    var rule := Select(t.fallback.rules, outcomeCase.value);
    && rule.Some? && d.reason.code == rule.value.code && d.body.result == rule.value.result
    && d.reason.clauses == rule.value.clauses && d.policy.clauses == rule.value.clauses
    && d.reason.predicates == predicates
  }

  method ParseOperands(amounts: seq<AtomicAmount>, asset: Asset) returns (r: Option<seq<int>>)
    ensures r.Some? <==> forall i | 0 <= i < |amounts| :: Operand(amounts[i], asset).Some?
    ensures r.Some? ==> |r.value| == |amounts|
    ensures r.Some? ==> forall i | 0 <= i < |amounts| :: Operand(amounts[i], asset) == Some(r.value[i])
  {
    var values := [];
    for k := 0 to |amounts|
      invariant |values| == k && forall i | 0 <= i < k :: Operand(amounts[i], asset) == Some(values[i])
    {
      var parsed := ParseInt(amounts[k].atomic);
      if parsed.None? || amounts[k].asset != asset {
        return None;
      }
      values := values + [parsed.value];
    }
    return Some(values);
  }

  method ReadProjectionOperands(p: Projection, asset: Asset) returns (r: Option<Operands>)
    ensures r == ReadOperands(p, asset)
  {
    var amounts := [p.gross, p.cumulative, p.pending, p.reclaimable, p.remaining, p.approved];
    var v := ParseOperands(amounts, asset);
    assert amounts[0] == p.gross && amounts[1] == p.cumulative && amounts[2] == p.pending;
    assert amounts[3] == p.reclaimable && amounts[4] == p.remaining && amounts[5] == p.approved;
    if v.None? {
      return None;
    }
    return Some(Operands(v.value[0], v.value[1], v.value[2], v.value[3], v.value[4], v.value[5]));
  }

  /** The first rule for a case. */
  method FindRule(rules: seq<ReasonRule>, outcomeCase: string) returns (r: Option<ReasonRule>)
    ensures r == Select(rules, outcomeCase)
  {
    for k := 0 to |rules|
      invariant Select(rules, outcomeCase) == Select(rules[k..], outcomeCase)
    {
      assert rules[k..][0] == rules[k] && rules[k..][1..] == rules[k + 1..];
      if rules[k].outcomeCase == outcomeCase {
        return Some(rules[k]);
      }
    }
    return None;
  }

  method FindCase(fallbackDigest: string, d: Decision, t: Terms) returns (r: Option<string>)
    ensures r == CaseOf(fallbackDigest, d, t)
  {
    var zero := AtomicAmount(t.asset, "0");
    if t.fallback.outcomeRule == "deny_zero" {
      if d.body.result != DENIED || d.body.approved != zero || d.policy.fullEligible != zero
         || d.policy.projection.Some? || d.policy.input != "" || d.body.lines != [] {
        return None;
      }
      return Some("deny_zero");
    }
    if d.policy.projection.None? || d.policy.projection.value.fallbackDigest != fallbackDigest || d.policy.input == "" {
      return None;
    }
    var p := d.policy.projection.value;
    var operands := ReadProjectionOperands(p, t.asset);
    var maximum := ParseInt(t.maximumAggregate.atomic);
    if operands.None? || maximum.None? || operands.value.reclaimable > operands.value.pending {
      return None;
    }
    var o := operands.value;
    var wantRemaining := maximum.value - o.cumulative - o.pending + o.reclaimable;
    if wantRemaining < 0 || o.remaining != wantRemaining {
      return None;
    }
    var wantApproved := o.gross;
    if wantApproved > o.remaining {
      wantApproved := o.remaining;
    }
    if o.approved != wantApproved || d.body.approved != p.approved || d.policy.fullEligible != p.gross {
      return None;
    }
    return Some(OutcomeCase(o));
  }

  /** `validateDeterministicFallbackDecisionV1`. */
  method ValidateDeterministicFallbackDecision(fallbackDigest: Result<string>, d: Decision, predicates: seq<string>,
                                               t: Terms)
    returns (ok: bool)
    ensures ok <==> FallbackAccepts(fallbackDigest, d, predicates, t)
  {
    if !ValidFallback(t.fallback) || fallbackDigest.Err? {
      return false;
    }
    var outcomeCase := FindCase(fallbackDigest.value, d, t);
    if outcomeCase.None? {
      return false;
    }
    var selected := FindRule(t.fallback.rules, outcomeCase.value);
    if selected.None? || d.reason.code != selected.value.code || d.body.result != selected.value.result
       || d.reason.clauses != selected.value.clauses || d.policy.clauses != selected.value.clauses {
      return false;
    }
    return d.reason.predicates == predicates;
  }

  // ---------- the checks around it ----------

  /** The amounts `validateClaimDecisionPolicyApplicationV1` admits. */
  predicate ValidPolicyAmounts(p: Policy) {
    && ValidAtomic(p.fullEligible, false)
    && (p.projection.Some? ==>
          var q := p.projection.value;
          && q.schemaVersion == 1 && IsDigest(q.fallbackDigest)
          && forall a | a in [q.gross, q.cumulative, q.pending, q.reclaimable, q.remaining, q.approved] ::
            ValidAtomic(a, false) && a.asset == p.fullEligible.asset)
  }

  /** A policy application on a fallback path. */
  predicate ValidPolicy(p: Policy) {
    && ValidPolicyAmounts(p) && SortedTokens(p.clauses, 256) && |p.input| <= 0x1_0000
    && (if p.projection.None? then p.input == "" && p.fullEligible.atomic == "0" else p.input != "")
  }

  predicate ValidReason(r: Reason) {
    Token(r.code, 128) && SortedTokens(r.clauses, 256) && SortedTokens(r.predicates, 256)
  }

  /** The comparison of approved and eligible benefit in `ValidateClaimDecision`. */
  predicate FollowsBenefit(d: Decision) {
    var c := CompareAtomic(d.body.approved, d.policy.fullEligible);
    && c.Ok?
    && (d.body.result == APPROVED ==> c.value == 0)
    && (d.body.result == PARTIALLY_APPROVED ==> c.value < 0 && d.body.approved.atomic != "0")
    && (d.body.result == DENIED && d.policy.projection.None? ==> d.policy.fullEligible.atomic == "0")
  }

  predicate FallbackPath(path: string) {
    path == "initial_terminal_fallback" || path == "terminal_fallback" || path == "late_recovery_terminal_fallback"
  }

  /** The canonical digests a decision is bound by. */
  datatype Codec = Codec(
    encode: Encoder, policy: Policy -> Result<string>, reason: Reason -> Result<string>,
    fallback: Fallback -> Result<string>)

  /** What `ValidateClaimDecision` asks of a fallback decision: body, policy, reason, benefit and the agreed rule. */
  predicate Closes(c: Codec, d: Decision, predicates: seq<string>, t: Terms) {
    && FallbackPath(d.body.path) && ValidBody(c.encode, d.body, t) && ValidPolicy(d.policy) && ValidReason(d.reason)
    && c.policy(d.policy) == Ok(d.body.policyDigest) && c.reason(d.reason) == Ok(d.body.reasonDigest)
    && FollowsBenefit(d)
    && (forall x | x in d.reason.clauses :: x in d.policy.clauses)
    && (forall x | x in d.reason.predicates :: x in predicates)
    && FallbackAccepts(c.fallback(t.fallback), d, predicates, t)
  }

  // ---------- what the rule awards ----------

  /** The award, as a function of the benefit and the room left under the aggregate maximum. */
  function Award(gross: nat, remaining: nat): nat { if gross <= remaining then gross else remaining }

  function Verdict(gross: nat, remaining: nat): string {
    if gross == 0 || remaining == 0 then DENIED else if gross <= remaining then APPROVED else PARTIALLY_APPROVED
  }

  /** The rule each numeric outcome selects. */
  function CaseIndex(gross: nat, remaining: nat): (k: nat)
    ensures k < |OUTCOME_CASES| && OUTCOME_CASES[k].1 == Verdict(gross, remaining)
  {
    if gross == 0 then 1 else if remaining == 0 then 2 else if remaining < gross then 3 else 4
  }

  lemma {:induction false} ReadAtomic(a: AtomicAmount, asset: Asset)
    requires ValidAtomic(a, false) && a.asset == asset
    ensures Operand(a, asset) == Some(Units(a))
  {
    CanonicalIsPlain(a.atomic);
  }

  lemma {:induction false} ReadProjection(p: Policy, asset: Asset)
    requires ValidPolicyAmounts(p) && p.projection.Some? && p.fullEligible.asset == asset
    ensures var q := p.projection.value;
            ReadOperands(q, asset) == Some(Operands(Units(q.gross), Units(q.cumulative), Units(q.pending),
                                                    Units(q.reclaimable), Units(q.remaining), Units(q.approved)))
  {
    var q := p.projection.value;
    var all := [q.gross, q.cumulative, q.pending, q.reclaimable, q.remaining, q.approved];
    forall i | 0 <= i < |all|
      ensures Operand(all[i], asset) == Some(Units(all[i]))
    {
      assert all[i] in all;
      ReadAtomic(all[i], asset);
    }
    assert all[0] == q.gross && all[1] == q.cumulative && all[2] == q.pending;
    assert all[3] == q.reclaimable && all[4] == q.remaining && all[5] == q.approved;
  }

  lemma {:induction false} SelectRule(f: Fallback, k: nat)
    requires ValidFallback(f) && k < |OUTCOME_CASES|
    ensures Select(f.rules, OUTCOME_CASES[k].0) == Some(f.rules[k]) && ValidRule(f.rules[k], k)
  {
    assert forall i | 0 <= i < 5 :: ValidRule(f.rules[i], i);
    SelectFrom(f.rules, 0, k);
  }

  lemma {:induction false} SelectFrom(rules: seq<ReasonRule>, from: nat, k: nat)
    requires |rules| == |OUTCOME_CASES| && from <= k < |OUTCOME_CASES|
    requires forall i | 0 <= i < |OUTCOME_CASES| :: rules[i].outcomeCase == OUTCOME_CASES[i].0
    ensures Select(rules[from..], OUTCOME_CASES[k].0) == Some(rules[k])
    decreases k - from
  {
    assert rules[from..][0] == rules[from] && rules[from..][1..] == rules[from + 1..];
    if from < k {
      assert OUTCOME_CASES[from].0 != OUTCOME_CASES[k].0;
      SelectFrom(rules, from + 1, k);
    }
  }

  /** A decision is the k-th rule of a fallback applied to the admitted evidence. */
  predicate ByRule(d: Decision, rule: ReasonRule, predicates: seq<string>) {
    d.body.result == rule.result && d.policy.clauses == rule.clauses
        && d.reason == RuleReason(rule, predicates)
  }

  lemma {:induction false} AcceptsByRule(fallbackDigest: string, d: Decision, predicates: seq<string>, t: Terms, k: nat)
    requires ValidFallback(t.fallback) && k < |OUTCOME_CASES|
        && CaseOf(fallbackDigest, d, t) == Some(OUTCOME_CASES[k].0)
    ensures FallbackAccepts(Ok(fallbackDigest), d, predicates, t) <==> ByRule(d, t.fallback.rules[k], predicates)
  {
    SelectRule(t.fallback, k);
  }

  /** The room a projection starts from. */
  function RoomOf(p: Projection, t: Terms): int {
    Units(t.maximumAggregate) - Units(p.cumulative) - Units(p.pending) + Units(p.reclaimable)
  }

  /** The numbers of an accepted projection. */
  predicate Adds(p: Projection, t: Terms) {
    && Units(p.reclaimable) <= Units(p.pending) && RoomOf(p, t) >= 0
    && Units(p.remaining) == RoomOf(p, t) && Units(p.approved) == Award(Units(p.gross), RoomOf(p, t))
  }

  /** A decision whose policy application, amounts and digest belong together. */
  predicate Bound(fallbackDigest: string, d: Decision, t: Terms) {
    && d.policy.projection.Some? && d.policy.input != ""
    && var p := d.policy.projection.value;
       && d.policy.fullEligible == p.gross && p.gross.asset == t.asset && d.body.approved == p.approved
       && p.fallbackDigest == fallbackDigest
  }

  lemma {:induction false} CaseOfOperands(fallbackDigest: string, d: Decision, t: Terms, o: Operands, maximum: int)
    requires t.fallback.outcomeRule != "deny_zero" && Bound(fallbackDigest, d, t)
    requires ReadOperands(d.policy.projection.value, t.asset) == Some(o)
    requires ParseInt(t.maximumAggregate.atomic) == Some(maximum)
    ensures CaseOf(fallbackDigest, d, t) == if Projected(o, maximum) then Some(OutcomeCase(o)) else None
  {
  }

  lemma {:induction false} OutcomeIndex(o: Operands, maximum: int)
    requires o.gross >= 0 && o.remaining >= 0 && Projected(o, maximum)
    ensures OutcomeCase(o) == OUTCOME_CASES[CaseIndex(o.gross, o.remaining)].0
  {
  }

  lemma {:induction false} BenefitCase(fallbackDigest: string, d: Decision, other: Terms -> bool, t: Terms)
    requires ValidTerms(other, t) && ValidPolicyAmounts(d.policy) && t.fallback.outcomeRule != "deny_zero"
    requires Bound(fallbackDigest, d, t)
    ensures var p := d.policy.projection.value;
            && (CaseOf(fallbackDigest, d, t).Some? <==> Adds(p, t))
            && (Adds(p, t) ==>
                  CaseOf(fallbackDigest, d, t) == Some(OUTCOME_CASES[CaseIndex(Units(p.gross), RoomOf(p, t))].0))
  {
    var p := d.policy.projection.value;
    var o := Operands(Units(p.gross), Units(p.cumulative), Units(p.pending), Units(p.reclaimable),
                      Units(p.remaining), Units(p.approved));
    ReadProjection(d.policy, t.asset);
    ReadAtomic(t.maximumAggregate, t.asset);
    CaseOfOperands(fallbackDigest, d, t, o, Units(t.maximumAggregate));
    assert Projected(o, Units(t.maximumAggregate)) <==> Adds(p, t);
    if Adds(p, t) {
      OutcomeIndex(o, Units(t.maximumAggregate));
    }
  }

  lemma {:induction false} CaseBinds(fallbackDigest: string, d: Decision, t: Terms)
    requires CaseOf(fallbackDigest, d, t).Some? && t.fallback.outcomeRule != "deny_zero"
    ensures Bound(fallbackDigest, d, t)
  {
  }

  /** The outcome a benefit rule leaves no choice about, with the aggregate maximum kept. */
  predicate Forced(d: Decision, predicates: seq<string>, t: Terms) {
    && |t.fallback.rules| == |OUTCOME_CASES|
    && d.policy.projection.Some? && RoomOf(d.policy.projection.value, t) >= 0
    && var p := d.policy.projection.value; var gross, room := Units(d.policy.fullEligible), RoomOf(p, t);
       && d.policy.fullEligible == p.gross && Units(p.reclaimable) <= Units(p.pending)
       && Units(d.body.approved) == Award(gross, room) && d.body.result == Verdict(gross, room)
       && ByRule(d, t.fallback.rules[CaseIndex(gross, room)], predicates)
       && Units(p.cumulative) + Units(p.pending) - Units(p.reclaimable) + Units(d.body.approved)
          <= Units(t.maximumAggregate)
       && ValidAtomic(d.body.approved, false) && d.body.approved.asset == d.policy.fullEligible.asset == t.asset
  }

  /**
   A benefit fallback awards the smaller of the benefit and the room left, whoever writes the
   decision: amount, result and reason are all forced, and the aggregate maximum is kept with
   every reserve that is not reclaimed counted in.
   */
  lemma {:induction false} FallbackForced(fallbackDigest: Result<string>, d: Decision, predicates: seq<string>,
                                          other: Terms -> bool, t: Terms)
    requires FallbackAccepts(fallbackDigest, d, predicates, t) && ValidTerms(other, t) && ValidPolicyAmounts(d.policy)
    requires t.fallback.outcomeRule != "deny_zero"
    ensures Forced(d, predicates, t)
  {
    CaseBinds(fallbackDigest.value, d, t);
    BenefitCase(fallbackDigest.value, d, other, t);
    ApprovedAmount(fallbackDigest.value, d, t);
    var p := d.policy.projection.value;
    var k := CaseIndex(Units(p.gross), RoomOf(p, t));
    AcceptsByRule(fallbackDigest.value, d, predicates, t, k);
    SelectRule(t.fallback, k);
  }

  lemma {:induction false} ApprovedAmount(fallbackDigest: string, d: Decision, t: Terms)
    requires Bound(fallbackDigest, d, t) && ValidPolicyAmounts(d.policy)
    ensures ValidAtomic(d.body.approved, false) && d.body.approved.asset == d.policy.fullEligible.asset == t.asset
  {
    var q := d.policy.projection.value;
    assert q.approved in [q.gross, q.cumulative, q.pending, q.reclaimable, q.remaining, q.approved];
  }

  /** A deny-zero fallback denies, awards nothing and pays nothing. */
  lemma {:induction false} DenyZeroForced(fallbackDigest: Result<string>, d: Decision, predicates: seq<string>,
                                          t: Terms)
    requires FallbackAccepts(fallbackDigest, d, predicates, t) && t.fallback.outcomeRule == "deny_zero"
    ensures d.body.result == DENIED && d.body.approved == AtomicAmount(t.asset, "0") && d.body.lines == []
    ensures ByRule(d, t.fallback.rules[0], predicates)
  {
    AcceptsByRule(fallbackDigest.value, d, predicates, t, 0);
  }

  predicate SamePosition(d: Decision, e: Decision) {
    d.policy.projection.Some? && e.policy.projection.Some? ==>
      var p, q := d.policy.projection.value, e.policy.projection.value;
      p.gross == q.gross && p.cumulative == q.cumulative && p.pending == q.pending && p.reclaimable == q.reclaimable
  }

  lemma {:induction false} ForcedAgree(d: Decision, e: Decision, predicates: seq<string>, t: Terms)
    requires Forced(d, predicates, t) && Forced(e, predicates, t) && SamePosition(d, e)
    ensures d.body.approved == e.body.approved && d.body.result == e.body.result && d.reason == e.reason
  {
    SameUnits(d.body.approved, e.body.approved);
  }

  /** The rule is a function: two accepted decisions on the same benefit and the same aggregate position agree. */
  lemma {:induction false} FallbackDeterministic(fallbackDigest: Result<string>, d: Decision, e: Decision,
                                                 predicates: seq<string>, other: Terms -> bool, t: Terms)
    requires ValidTerms(other, t) && SamePosition(d, e)
    requires FallbackAccepts(fallbackDigest, d, predicates, t) && ValidPolicyAmounts(d.policy)
    requires FallbackAccepts(fallbackDigest, e, predicates, t) && ValidPolicyAmounts(e.policy)
    ensures d.body.approved == e.body.approved && d.body.result == e.body.result && d.reason == e.reason
  {
    if t.fallback.outcomeRule == "deny_zero" {
      DenyZeroForced(fallbackDigest, d, predicates, t);
      DenyZeroForced(fallbackDigest, e, predicates, t);
    } else {
      FallbackForced(fallbackDigest, d, predicates, other, t);
      FallbackForced(fallbackDigest, e, predicates, other, t);
      ForcedAgree(d, e, predicates, t);
    }
  }

  lemma {:induction false} SameUnits(a: AtomicAmount, b: AtomicAmount)
    requires ValidAtomic(a, false) && ValidAtomic(b, false) && a.asset == b.asset && Units(a) == Units(b)
    ensures a == b
  {
    CanonicalIsPlain(a.atomic);
    CanonicalIsPlain(b.atomic);
    TextOfNumber(a.atomic);
    TextOfNumber(b.atomic);
  }

  lemma {:induction false} ForcedFollowsBenefit(d: Decision, predicates: seq<string>, t: Terms)
    requires Forced(d, predicates, t) && ValidAtomic(d.policy.fullEligible, false)
    ensures FollowsBenefit(d)
  {
    ZeroUnits(d.body.approved);
    CompareUnits(d.body.approved, d.policy.fullEligible);
  }

  lemma {:induction false} DenialFollowsBenefit(fallbackDigest: string, d: Decision, t: Terms)
    requires CaseOf(fallbackDigest, d, t).Some? && t.fallback.outcomeRule == "deny_zero"
    requires ValidAtomic(d.policy.fullEligible, false)
    ensures FollowsBenefit(d)
  {
    CompareUnits(d.body.approved, d.policy.fullEligible);
  }

  /** The benefit check in numbers: full approval pays the benefit, a partial one less but not nothing. */
  lemma {:induction false} BenefitExactly(d: Decision)
    requires ValidAtomic(d.body.approved, false) && ValidAtomic(d.policy.fullEligible, false)
    requires d.body.approved.asset == d.policy.fullEligible.asset
    ensures var approved, eligible := Units(d.body.approved), Units(d.policy.fullEligible);
            FollowsBenefit(d) <==>
              && (d.body.result == "approved" ==> approved == eligible)
              && (d.body.result == "partially_approved" ==> 0 < approved < eligible)
              && (d.body.result == "denied" && d.policy.projection.None? ==> eligible == 0)
  {
    CompareUnits(d.body.approved, d.policy.fullEligible);
    ZeroUnits(d.body.approved);
    ZeroUnits(d.policy.fullEligible);
  }

  /** An accepted fallback never contradicts the benefit check that runs before it. */
  lemma {:induction false} FallbackFollowsBenefit(fallbackDigest: Result<string>, d: Decision, predicates: seq<string>,
                                                  other: Terms -> bool, t: Terms)
    requires FallbackAccepts(fallbackDigest, d, predicates, t) && ValidTerms(other, t) && ValidPolicyAmounts(d.policy)
    ensures FollowsBenefit(d)
  {
    if t.fallback.outcomeRule == "deny_zero" {
      DenialFollowsBenefit(fallbackDigest.value, d, t);
    } else {
      FallbackForced(fallbackDigest, d, predicates, other, t);
      ForcedFollowsBenefit(d, predicates, t);
    }
  }

  // ---------- exactly when a fallback can close a claim ----------

  /** The position a fallback starts from: the benefit and the aggregate reserves. */
  datatype Position = Position(
    gross: AtomicAmount, cumulative: AtomicAmount, pending: AtomicAmount, reclaimable: AtomicAmount)

  predicate ValidPosition(s: Position, asset: Asset) {
    forall a | a in [s.gross, s.cumulative, s.pending, s.reclaimable] :: ValidAtomic(a, false) && a.asset == asset
  }

  predicate AtPosition(d: Decision, s: Position) {
    d.policy.projection.Some? &&
    var p := d.policy.projection.value;
    Position(p.gross, p.cumulative, p.pending, p.reclaimable) == s
  }

  function Room(s: Position, t: Terms): int {
    Units(t.maximumAggregate) - Units(s.cumulative) - Units(s.pending) + Units(s.reclaimable)
  }

  /** The reserves fit, and what the rule awards is within the maximum of one claim. */
  predicate Payable(s: Position, t: Terms) {
    && Units(s.reclaimable) <= Units(s.pending) && Room(s, t) >= 0
    && Award(Units(s.gross), Room(s, t)) <= Units(t.maximumPerClaim)
  }

  /** One line for the whole award, or none. */
  function SoleLine(award: AtomicAmount, destination: string, t: Terms): seq<PayoutLine> {
    if award.atomic == "0" then [] else [PayoutLine(1, award, destination, 0, 0, t.adapterRecovery)]
  }

  /** A draft body completed by what a rule awards. */
  function Complete(c: Codec, draft: Body, award: AtomicAmount, result: string, destination: string, p: Policy,
                    r: Reason, t: Terms): Body
    requires c.policy(p).Ok? && c.reason(r).Ok?
  {
    draft.(result := result, approved := award, lines := SoleLine(award, destination, t),
           policyDigest := c.policy(p).value, reasonDigest := c.reason(r).value,
           challengeWindow := t.challengeWindow, resolutionWindow := 0)
  }

  /** The policy application of a position, with the remaining room and the award spelled out. */
  function PolicyAt(fallbackDigest: string, s: Position, input: string, clauses: seq<string>, t: Terms): Policy
    requires Room(s, t) >= 0
  {
    var remaining := AtomicAmount(t.asset, NatText(Room(s, t)));
    Policy(s.gross, Some(Projection(1, fallbackDigest, s.gross, s.cumulative, s.pending, s.reclaimable, remaining,
                                    AwardAt(s, t))), input, clauses)
  }

  function AwardAt(s: Position, t: Terms): AtomicAmount
    requires Room(s, t) >= 0
  {
    AtomicAmount(t.asset, NatText(Award(Units(s.gross), Room(s, t))))
  }

  /** One application, one reason and the rule they are judged by have digests. */
  predicate Digested(c: Codec, p: Policy, r: Reason, f: Fallback) {
    && c.policy(p).Ok? && IsDigest(c.policy(p).value) && c.reason(r).Ok? && IsDigest(c.reason(r).value)
    && c.fallback(f).Ok? && IsDigest(c.fallback(f).value)
  }

  function RuleReason(rule: ReasonRule, predicates: seq<string>): Reason {
    Reason(rule.code, rule.clauses, predicates)
  }

  /** The rule a position falls under. */
  function RuleAt(s: Position, t: Terms): ReasonRule
    requires Room(s, t) >= 0 && ValidFallback(t.fallback)
  {
    t.fallback.rules[CaseIndex(Units(s.gross), Room(s, t))]
  }

  /** The records the agreed rule dictates at a position have digests; nothing is asked where there is no room. */
  predicate Digesting(c: Codec, s: Position, input: string, predicates: seq<string>, t: Terms) {
    Room(s, t) >= 0 && ValidFallback(t.fallback) ==>
      c.fallback(t.fallback).Ok? &&
      var rule := RuleAt(s, t);
      Digested(c, PolicyAt(c.fallback(t.fallback).value, s, input, rule.clauses, t),
               RuleReason(rule, predicates), t.fallback)
  }

  /** The decision the agreed rule dictates at a position. */
  function Dictated(c: Codec, draft: Body, s: Position, input: string, destination: string, predicates: seq<string>,
                    t: Terms): Decision
    requires Room(s, t) >= 0 && ValidFallback(t.fallback) && Digesting(c, s, input, predicates, t)
  {
    var rule := RuleAt(s, t);
    var p := PolicyAt(c.fallback(t.fallback).value, s, input, rule.clauses, t);
    var r := RuleReason(rule, predicates);
    Decision(Complete(c, draft, AwardAt(s, t), rule.result, destination, p, r, t), p, r)
  }

  lemma {:induction false} TextAmount(n: nat, limit: AtomicAmount)
    requires ValidAtomic(limit, false) && n <= Units(limit)
    ensures var a := AtomicAmount(limit.asset, NatText(n));
            ValidAtomic(a, false) && Units(a) == n && (a.atomic == "0" <==> n == 0)
  {
    NumberOfText(n);
    CanonicalIsPlain(limit.atomic);
    if |NatText(n)| > |limit.atomic| {
      LongerIsLarger(limit.atomic, NatText(n));
    }
    CanonicalIsPlain(NatText(n));
    ZeroUnits(AtomicAmount(limit.asset, NatText(n)));
  }

  /** The sole line is valid and pays the award. */
  lemma {:induction false} SoleLinePays(award: AtomicAmount, destination: string, other: Terms -> bool, t: Terms)
    requires ValidTerms(other, t) && ValidAtomic(award, false) && award.asset == t.asset && IsDigest(destination)
    ensures var lines := SoleLine(award, destination, t);
            ValidLines(lines, t) && |lines| <= t.maximumLines && NatText(Total(lines)) == award.atomic
  {
    CanonicalIsPlain(award.atomic);
    TextOfNumber(award.atomic);
    ZeroUnits(award);
    var lines := SoleLine(award, destination, t);
    if lines != [] {
      assert lines[..0] == [];
      assert Total(lines[..0]) == 0;
      assert Total(lines) == Units(award);
    }
  }

  lemma {:induction false} PolicyAtValid(fallbackDigest: string, s: Position, input: string, clauses: seq<string>,
                                         other: Terms -> bool, t: Terms)
    requires ValidTerms(other, t) && ValidPosition(s, t.asset) && IsDigest(fallbackDigest) && Room(s, t) >= 0
    requires Units(s.reclaimable) <= Units(s.pending)
    ensures ValidPolicyAmounts(PolicyAt(fallbackDigest, s, input, clauses, t))
    ensures Adds(PolicyAt(fallbackDigest, s, input, clauses, t).projection.value, t)
    ensures ValidAtomic(AwardAt(s, t), false) && Units(AwardAt(s, t)) == Award(Units(s.gross), Room(s, t))
    ensures AwardAt(s, t).atomic == "0" <==> Award(Units(s.gross), Room(s, t)) == 0
  {
    TextAmount(Room(s, t), t.maximumAggregate);
    TextAmount(Award(Units(s.gross), Room(s, t)), t.maximumAggregate);
    var four := [s.gross, s.cumulative, s.pending, s.reclaimable];
    assert four[0] in four && four[1] in four && four[2] in four && four[3] in four;
  }

  /** The rule accepts what it dictates, whenever the reserves fit. */
  lemma {:induction false} DictatedAccepted(c: Codec, draft: Body, s: Position, input: string, destination: string,
                                            predicates: seq<string>, other: Terms -> bool, t: Terms)
    requires ValidTerms(other, t) && ValidPosition(s, t.asset) && input != ""
    requires Digesting(c, s, input, predicates, t)
    requires t.fallback.outcomeRule != "deny_zero" && Units(s.reclaimable) <= Units(s.pending) && Room(s, t) >= 0
    ensures var d := Dictated(c, draft, s, input, destination, predicates, t);
            AtPosition(d, s) && FallbackAccepts(c.fallback(t.fallback), d, predicates, t)
  {
    var d := Dictated(c, draft, s, input, destination, predicates, t);
    var digest, k := c.fallback(t.fallback).value, CaseIndex(Units(s.gross), Room(s, t));
    PolicyAtValid(digest, s, input, t.fallback.rules[k].clauses, other, t);
    assert s.gross in [s.gross, s.cumulative, s.pending, s.reclaimable];
    BenefitCase(digest, d, other, t);
    AcceptsByRule(digest, d, predicates, t, k);
  }

  lemma {:induction false} CompleteValid(c: Codec, draft: Body, award: AtomicAmount, result: string,
                                         destination: string, p: Policy, r: Reason, other: Terms -> bool, t: Terms)
    requires ValidTerms(other, t) && ValidDraft(c.encode, draft) && IsDigest(destination)
    requires Digested(c, p, r, t.fallback)
    requires ValidAtomic(award, false) && award.asset == t.asset && Units(award) <= Units(t.maximumPerClaim)
    requires result == DENIED || result == APPROVED || result == PARTIALLY_APPROVED
    requires result == DENIED <==> award.atomic == "0"
    ensures ValidBody(c.encode, Complete(c, draft, award, result, destination, p, r, t), t)
  {
    SoleLinePays(award, destination, other, t);
    CompareUnits(award, t.maximumPerClaim);
  }

  ghost predicate Drafted(c: Codec, draft: Body, destination: string, predicates: seq<string>) {
    ValidDraft(c.encode, draft) && FallbackPath(draft.path) && IsDigest(destination) && SortedTokens(predicates, 256)
  }

  lemma {:induction false} DictatedCloses(c: Codec, draft: Body, s: Position, input: string, destination: string,
                                          predicates: seq<string>, other: Terms -> bool, t: Terms)
    requires ValidTerms(other, t) && ValidPosition(s, t.asset) && 0 < |input| <= 0x1_0000
    requires Digesting(c, s, input, predicates, t)
    requires t.fallback.outcomeRule != "deny_zero" && Drafted(c, draft, destination, predicates) && Payable(s, t)
    ensures Closes(c, Dictated(c, draft, s, input, destination, predicates, t), predicates, t)
  {
    var d := Dictated(c, draft, s, input, destination, predicates, t);
    var digest, k := c.fallback(t.fallback).value, CaseIndex(Units(s.gross), Room(s, t));
    DictatedAccepted(c, draft, s, input, destination, predicates, other, t);
    PolicyAtValid(digest, s, input, t.fallback.rules[k].clauses, other, t);
    SelectRule(t.fallback, k);
    CompleteValid(c, draft, AwardAt(s, t), t.fallback.rules[k].result, destination, d.policy, d.reason, other, t);
    FallbackFollowsBenefit(c.fallback(t.fallback), d, predicates, other, t);
  }

  lemma {:induction false} ClosesParts(c: Codec, d: Decision, predicates: seq<string>, t: Terms)
    requires Closes(c, d, predicates, t)
    ensures FallbackAccepts(c.fallback(t.fallback), d, predicates, t) && ValidPolicyAmounts(d.policy)
    ensures Comparison(d.body.approved, t.maximumPerClaim) <= 0
  {
  }

  /** Whatever closes a claim by the benefit rule awards within the maximum of one claim. */
  lemma {:induction false} ClosesPayable(c: Codec, d: Decision, s: Position, predicates: seq<string>,
                                         other: Terms -> bool, t: Terms)
    requires ValidTerms(other, t) && t.fallback.outcomeRule != "deny_zero"
    requires FallbackAccepts(c.fallback(t.fallback), d, predicates, t) && ValidPolicyAmounts(d.policy)
    requires Comparison(d.body.approved, t.maximumPerClaim) <= 0 && AtPosition(d, s)
    ensures Payable(s, t)
  {
    FallbackForced(c.fallback(t.fallback), d, predicates, other, t);
    CompareUnits(d.body.approved, t.maximumPerClaim);
  }

  ghost predicate CanClose(c: Codec, s: Position, predicates: seq<string>, t: Terms) {
    exists d :: Closes(c, d, predicates, t) && AtPosition(d, s)
  }

  /**
   The benefit rule can close a claim exactly when the reserves fit under the aggregate maximum
   and the award under the maximum of one claim.  Nothing bounds the benefit by the latter, so
   the agreed rule is not total: see `StuckClaim`.
   */
  lemma {:induction false} FallbackClosesExactly(c: Codec, draft: Body, s: Position, input: string, destination: string,
                                                 predicates: seq<string>, other: Terms -> bool, t: Terms)
    requires ValidTerms(other, t) && ValidPosition(s, t.asset) && 0 < |input| <= 0x1_0000
    requires Digesting(c, s, input, predicates, t)
    requires t.fallback.outcomeRule != "deny_zero" && Drafted(c, draft, destination, predicates)
    ensures CanClose(c, s, predicates, t) <==> Payable(s, t)
  {
    if Payable(s, t) {
      DictatedCloses(c, draft, s, input, destination, predicates, other, t);
      DictatedAccepted(c, draft, s, input, destination, predicates, other, t);
    }
    if !Payable(s, t) {
      NeverPayable(c, s, predicates, other, t);
    }
  }

  /** The application of the deny-zero rule. */
  function Denial(t: Terms): Policy
    requires ValidFallback(t.fallback)
  {
    Policy(AtomicAmount(t.asset, "0"), None, "", t.fallback.rules[0].clauses)
  }

  /** The deny-zero rule can close every claim. */
  lemma {:induction false} DenyZeroCloses(c: Codec, draft: Body, destination: string, predicates: seq<string>,
                                          other: Terms -> bool, t: Terms) returns (d: Decision)
    requires ValidTerms(other, t) && t.fallback.outcomeRule == "deny_zero"
    requires Digested(c, Denial(t), RuleReason(t.fallback.rules[0], predicates), t.fallback)
    requires Drafted(c, draft, destination, predicates)
    ensures Closes(c, d, predicates, t)
  {
    var zero, p, r := AtomicAmount(t.asset, "0"), Denial(t), RuleReason(t.fallback.rules[0], predicates);
    d := Decision(Complete(c, draft, zero, DENIED, destination, p, r, t), p, r);
    ZeroUnits(zero);
    CompleteValid(c, draft, zero, DENIED, destination, p, r, other, t);
    SelectRule(t.fallback, 0);
    AcceptsByRule(c.fallback(t.fallback).value, d, predicates, t, 0);
    FallbackFollowsBenefit(c.fallback(t.fallback), d, predicates, other, t);
  }

  // ---------- a claim the rule cannot close ----------

  function Coins(atomic: string): AtomicAmount { AtomicAmount(Asset("n", "i", "u"), atomic) }

  function ExampleRule(k: nat): ReasonRule
    requires k < |OUTCOME_CASES|
  {
    ReasonRule(OUTCOME_CASES[k].0, OUTCOME_CASES[k].1, "r", [])
  }

  /** Coverage of at most nine units in all and five per claim, closed by the benefit rule. */
  function ExampleTerms(): Terms {
    Terms(Asset("n", "i", "u"), Coins("9"), Coins("5"), 60, 60, 60, 60, 1000, "g", "b", 1, "p", UniformDigest('0'),
          Fallback("accepted_benefit_calculation",
                   [ExampleRule(0), ExampleRule(1), ExampleRule(2), ExampleRule(3), ExampleRule(4)]))
  }

  lemma {:induction false} ExampleCoins(c: char)
    requires IsDigit(c)
    ensures ValidAtomic(Coins([c]), c != '0') && Units(Coins([c])) == DigitValue(c)
  {
    LetterIdentifies('n', 128);
    LetterIdentifies('i', 256);
    LetterIdentifies('u', 64);
    SingleDigit(c);
  }

  lemma {:induction false} ExampleFallback()
    ensures ValidFallback(ExampleTerms().fallback)
  {
    LetterIdentifies('r', 128);
    var f := ExampleTerms().fallback;
    assert ValidRule(f.rules[0], 0) && ValidRule(f.rules[1], 1) && ValidRule(f.rules[2], 2);
    assert ValidRule(f.rules[3], 3) && ValidRule(f.rules[4], 4);
  }

  lemma {:induction false} ExampleTermsValid()
    ensures ValidTerms((t: Terms) => true, ExampleTerms())
  {
    ExampleCoins('9');
    ExampleCoins('5');
    CompareUnits(Coins("5"), Coins("9"));
    LetterIdentifies('g', 256);
    LetterIdentifies('b', 256);
    LetterIdentifies('p', 256);
    ExampleFallback();
  }

  function ExamplePosition(): Position { Position(Coins("7"), Coins("0"), Coins("0"), Coins("0")) }

  lemma {:induction false} ExamplePositionValid()
    ensures ValidPosition(ExamplePosition(), ExampleTerms().asset)
    ensures Room(ExamplePosition(), ExampleTerms()) == 9 && !Payable(ExamplePosition(), ExampleTerms())
    ensures Units(ExamplePosition().reclaimable) <= Units(ExamplePosition().pending)
  {
    ExampleCoins('0');
    ExampleCoins('5');
    ExampleCoins('7');
    ExampleCoins('9');
  }

  /**
   A benefit of seven units with nine left in all: the rule accepts the award of seven, and no
   decision at all passes the validation around it, because a claim may pay only five.
   */
  lemma {:induction false} StuckClaim(c: Codec, draft: Body, destination: string, predicates: seq<string>)
    requires Digesting(c, ExamplePosition(), "x", predicates, ExampleTerms())
    ensures var t, s := ExampleTerms(), ExamplePosition();
            && ValidTerms((t: Terms) => true, t) && Room(s, t) == 9
            && FallbackAccepts(c.fallback(t.fallback), Dictated(c, draft, s, "x", destination, predicates, t),
                               predicates, t)
            && !CanClose(c, s, predicates, t)
  {
    var t, s := ExampleTerms(), ExamplePosition();
    ExampleTermsValid();
    ExamplePositionValid();
    DictatedAccepted(c, draft, s, "x", destination, predicates, (t: Terms) => true, t);
    NeverPayable(c, s, predicates, (t: Terms) => true, t);
  }

  lemma {:induction false} NeverPayable(c: Codec, s: Position, predicates: seq<string>, other: Terms -> bool, t: Terms)
    requires ValidTerms(other, t) && t.fallback.outcomeRule != "deny_zero" && !Payable(s, t)
    ensures !CanClose(c, s, predicates, t)
  {
    if CanClose(c, s, predicates, t) {
      var d :| Closes(c, d, predicates, t) && AtPosition(d, s);
      ClosesParts(c, d, predicates, t);
      ClosesPayable(c, d, s, predicates, other, t);
    }
  }
}
