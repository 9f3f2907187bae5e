/**
 Guarantor claim decisions: the coverage terms a decision is held to, and the shape of a
 decision body.  64-bit sums that the source does not check wrap here too.
 */
module ClaimDecision {
  import opened Text
  import opened Decimal

  /** A 64-bit unsigned integer. */
  type Word = n: nat | n < 0x1_0000_0000_0000_0000

  datatype Asset = Asset(namespace: string, identifier: string, unit: string)

  datatype AtomicAmount = AtomicAmount(asset: Asset, atomic: string)

  datatype ProfileRef = ProfileRef(uri: string, version: Word, digest: string)

  /** The canonical encoding of a profile reference. */
  type Encoder = ProfileRef -> Result<string>

  datatype PayoutLine = PayoutLine(
    index: Word, amount: AtomicAmount, destinationDigest: string, notBefore: Word, due: Word, expires: Word)

  datatype Body = Body(
    schemaVersion: nat, agreementDigest: string, obligationId: string, claimId: string, envelopeDigest: string,
    sequence: Word, revision: Word, predecessorDigest: string, path: string, expectedClaimRevision: Word,
    profile: ProfileRef, authoritySubjects: seq<string>, quorumRule: string,
    result: string, approved: AtomicAmount, evidenceSetDigest: string, policyDigest: string, reasonDigest: string,
    lines: seq<PayoutLine>, challengeWindow: Word, resolutionWindow: Word, decidedAt: Word, expiresAt: Word,
    requiredExtensions: seq<ProfileRef>, optionalExtensions: seq<ProfileRef>)

  datatype Projection = Projection(
    schemaVersion: nat, fallbackDigest: string, gross: AtomicAmount, cumulative: AtomicAmount, pending: AtomicAmount,
    reclaimable: AtomicAmount, remaining: AtomicAmount, approved: AtomicAmount)

  datatype Policy = Policy(
    fullEligible: AtomicAmount, projection: Option<Projection>, input: string, clauses: seq<string>)

  datatype Reason = Reason(code: string, clauses: seq<string>, predicates: seq<string>)

  datatype Decision = Decision(body: Body, policy: Policy, reason: Reason)

  datatype ReasonRule = ReasonRule(outcomeCase: string, result: string, code: string, clauses: seq<string>)

  datatype Fallback = Fallback(outcomeRule: string, rules: seq<ReasonRule>)

  datatype Terms = Terms(
    asset: Asset, maximumAggregate: AtomicAmount, maximumPerClaim: AtomicAmount, challengeWindow: Word,
    nonterminalWindow: Word, payoutDeadline: Word, adapterRecovery: Word, terminalDeadline: Word,
    guarantorAgentId: string, beneficiaryAgentId: string, maximumLines: Word, adapterUri: string,
    settlementParametersDigest: string, fallback: Fallback)

  const APPROVED := "approved"
  const PARTIALLY_APPROVED := "partially_approved"
  const DENIED := "denied"

  predicate ValidAtomic(a: AtomicAmount, positive: bool) {
    && BoundedIdentifier(a.asset.namespace, 128) && BoundedIdentifier(a.asset.identifier, 256)
    && BoundedIdentifier(a.asset.unit, 64) && CanonicalUnsigned(a.atomic) && (positive ==> a.atomic != "0")
  }

  /** The number of units of a valid amount. */
  function Units(a: AtomicAmount): nat { if AllDigits(a.atomic) then Number(a.atomic) else 0 }

  /** `compareAmount`. */
  function CompareAtomic(left: AtomicAmount, right: AtomicAmount): Result<int> {
    if left.asset != right.asset || !ValidAtomic(left, false) || !ValidAtomic(right, false) then Err
    else Ok(CompareCanonicalUnsigned(left.atomic, right.atomic))
  }

  /** The comparison where the source drops the error: an error reads as zero. */
  function Comparison(left: AtomicAmount, right: AtomicAmount): int {
    if CompareAtomic(left, right).Ok? then CompareAtomic(left, right).value else 0
  }

  lemma {:induction false} CompareUnits(left: AtomicAmount, right: AtomicAmount)
    requires ValidAtomic(left, false) && ValidAtomic(right, false) && left.asset == right.asset
    ensures CompareAtomic(left, right) == Ok(Sign(Units(left) - Units(right)))
  {
    CanonicalIsPlain(left.atomic);
    CanonicalIsPlain(right.atomic);
    ShortlexIsNumeric(left.atomic, right.atomic);
  }

  // ---------- coverage terms ----------

  const OUTCOME_CASES := [
    ("deny_zero", DENIED), ("no_eligible_benefit", DENIED), ("aggregate_exhausted", DENIED),
    ("aggregate_limited", PARTIALLY_APPROVED), ("full_benefit", APPROVED)]

  /** `sortedUniqueAllowEmpty` over tokens of at most 128 bytes. */
  predicate SortedTokens(values: seq<string>, maximumItems: nat) {
    && |values| <= maximumItems
    && (forall i | 0 <= i < |values| :: Token(values[i], 128))
    && forall i | 0 < i < |values| :: Less(values[i - 1], values[i])
  }

  predicate ValidRule(rule: ReasonRule, k: nat)
    requires k < |OUTCOME_CASES|
  {
    && rule.outcomeCase == OUTCOME_CASES[k].0 && rule.result == OUTCOME_CASES[k].1
    && Token(rule.code, 128) && SortedTokens(rule.clauses, 256)
  }

  /** The part of `ValidateDeterministicClaimTerminalFallbackV1` that fixes outcomes and reasons. */
  predicate ValidFallback(f: Fallback) {
    && (f.outcomeRule == "deny_zero" || f.outcomeRule == "accepted_benefit_calculation")
    && |f.rules| == |OUTCOME_CASES|
    && forall k | 0 <= k < |OUTCOME_CASES| :: ValidRule(f.rules[k], k)
  }

  function CheckedAdd(left: Word, right: Word): (r: Option<Word>)
    ensures r.Some? <==> left + right < TWO64
    ensures r.Some? ==> r.value == left + right
  {
    if TWO64 - 1 - left < right then None else Some(left + right)
  }

  /**
   The checks of `ValidateCoverageTerms` that bear on amounts, durations and parties; `other`
   stands for the rest of them.  The parties are those of a valid payout template.
   */
  predicate ValidTerms(other: Terms -> bool, t: Terms) {
    && other(t)
    && ValidAtomic(t.maximumAggregate, true) && ValidAtomic(t.maximumPerClaim, true)
    && t.asset == t.maximumAggregate.asset && t.asset == t.maximumPerClaim.asset
    && 0 < t.maximumLines <= 256
    && t.challengeWindow != 0 && t.nonterminalWindow != 0 && t.payoutDeadline != 0 && t.adapterRecovery != 0
    && BoundedIdentifier(t.guarantorAgentId, 256) && BoundedIdentifier(t.beneficiaryAgentId, 256)
    && t.guarantorAgentId != t.beneficiaryAgentId
    && BoundedIdentifier(t.adapterUri, 256) && IsDigest(t.settlementParametersDigest)
    && Comparison(t.maximumPerClaim, t.maximumAggregate) <= 0
    && CheckedAdd(t.payoutDeadline, t.adapterRecovery).Some?
    && ValidFallback(t.fallback)
  }

  // ---------- the decision body ----------

  predicate ValidPath(path: string) {
    path in {"initial", "successor", "initial_terminal_fallback", "terminal_fallback",
             "late_recovery_terminal_fallback"}
  }

  predicate ValidProfile(r: ProfileRef) { BoundedIdentifier(r.uri, 256) && r.version != 0 && IsDigest(r.digest) }

  /** `sortedProfileRefs`: valid references whose encodings are non-empty and strictly increase. */
  predicate SortedProfiles(encode: Encoder, refs: seq<ProfileRef>) {
    && |refs| <= 64
    && (forall i | 0 <= i < |refs| :: ValidProfile(refs[i]) && encode(refs[i]).Ok? && encode(refs[i]).value != "")
    && forall i | 0 < i < |refs| :: Less(encode(refs[i - 1]).value, encode(refs[i]).value)
  }

  predicate SortedSubjects(subjects: seq<string>) {
    && 0 < |subjects| <= 512
    && (forall i | 0 <= i < |subjects| :: Token(subjects[i], 256))
    && forall i | 0 < i < |subjects| :: Less(subjects[i - 1], subjects[i])
  }

  const AT_LEAST := "at-least:"

  /** `QuorumThresholdV1`: a threshold the subjects can meet. */
  function QuorumThreshold(rule: string, subjects: seq<string>): (r: Result<nat>)
    ensures r.Ok? ==> 1 <= r.value <= |subjects|
  {
    if !SortedSubjects(subjects) then Err
    else if rule == "all" then Ok(|subjects|)
    else if rule == "any" then Ok(1)
    else if !(AT_LEAST <= rule) then Err
    else
      var raw := rule[|AT_LEAST|..];
      if raw == "" || |raw| > 2 || raw[0] == '0' || !AllDigits(raw) then Err
      else
        PlainPositive(raw);
        if Number(raw) > |subjects| then Err else Ok(Number(raw))
  }

  lemma {:induction false} ShortNumber(n: nat)
    requires 0 < n < 100
    ensures |NatText(n)| <= 2 && NatText(n)[0] != '0'
  {
    NumberOfText(n);
  }

  lemma {:induction false} ShortText(raw: string)
    requires raw != "" && |raw| <= 2 && AllDigits(raw) && raw[0] != '0'
    ensures 0 < Number(raw) < 100 && NatText(Number(raw)) == raw
  {
    PlainPositive(raw);
    TextOfNumber(raw);
    if |raw| == 2 {
      assert raw[..1] == [raw[0]] && raw[..1][..0] == "";
    } else {
      assert raw[..0] == "";
    }
  }

  /** The three forms of a quorum rule and the threshold of each. */
  lemma {:induction false} QuorumExactly(rule: string, subjects: seq<string>, n: nat)
    ensures QuorumThreshold(rule, subjects) == Ok(n) <==>
            && SortedSubjects(subjects) && 1 <= n <= |subjects|
            && (|| (rule == "all" && n == |subjects|) || (rule == "any" && n == 1)
                || (rule == "at-least:" + NatText(n) && n < 100))
  {
    if AT_LEAST <= rule {
      var raw := rule[|AT_LEAST|..];
      assert rule == "at-least:" + raw;
      if raw != "" && |raw| <= 2 && raw[0] != '0' && AllDigits(raw) {
        ShortText(raw);
      }
    }
    if 0 < n < 100 && rule == "at-least:" + NatText(n) {
      assert rule[|AT_LEAST|..] == NatText(n) && rule[1] == 't';
      ShortNumber(n);
      NumberOfText(n);
    }
  }

  /** The header of a body, apart from its amounts and the digests of its policy and reason. */
  predicate ValidDraft(encode: Encoder, b: Body) {
    && b.schemaVersion == 1 && IsDigest(b.claimId) && b.expectedClaimRevision != 0 && IsDigest(b.agreementDigest)
    && Token(b.obligationId, 128) && IsDigest(b.envelopeDigest) && b.sequence != 0 && b.revision == 1
    && ValidPath(b.path) && ValidProfile(b.profile) && QuorumThreshold(b.quorumRule, b.authoritySubjects).Ok?
    && IsDigest(b.evidenceSetDigest)
    && b.decidedAt != 0 && b.expiresAt > b.decidedAt && b.expiresAt - b.decidedAt <= 30 * 24 * 3600
    && SortedProfiles(encode, b.requiredExtensions) && SortedProfiles(encode, b.optionalExtensions)
    && (if b.sequence == 1 then b.predecessorDigest == "" && b.path != "successor" && b.path != "terminal_fallback"
        else IsDigest(b.predecessorDigest) && b.path != "initial" && b.path != "initial_terminal_fallback")
  }

  predicate ValidHeader(encode: Encoder, b: Body, t: Terms) {
    && ValidDraft(encode, b) && IsDigest(b.policyDigest) && IsDigest(b.reasonDigest)
    && ValidAtomic(b.approved, false) && b.approved.asset == t.asset && |b.lines| <= t.maximumLines
  }

  predicate ValidResult(b: Body, t: Terms) {
    if b.result == APPROVED || b.result == PARTIALLY_APPROVED then
      && b.approved.atomic != "0" && b.lines != [] && b.challengeWindow == t.challengeWindow && b.resolutionWindow == 0
    else if b.result == DENIED then
      && b.approved.atomic == "0" && b.lines == [] && b.challengeWindow == t.challengeWindow && b.resolutionWindow == 0
    else if b.result == "evidence_required" || b.result == "disputed" then
      && b.approved.atomic == "0" && b.lines == [] && b.challengeWindow == 0
      && b.resolutionWindow == t.nonterminalWindow && b.resolutionWindow != 0
    else false
  }

  predicate ValidLine(line: PayoutLine, position: nat, t: Terms) {
    && line.index == (position + 1) % TWO64 && ValidAtomic(line.amount, true) && line.amount.asset == t.asset
    && IsDigest(line.destinationDigest) && line.notBefore <= line.due && line.due <= t.payoutDeadline
    && line.expires == (line.due + t.adapterRecovery) % TWO64
  }

  predicate ValidLines(lines: seq<PayoutLine>, t: Terms) {
    forall i | 0 <= i < |lines| :: ValidLine(lines[i], i, t)
  }

  function Total(lines: seq<PayoutLine>): nat {
    if lines == [] then 0 else Total(lines[..|lines| - 1]) + Units(lines[|lines| - 1].amount)
  }

  predicate ValidBody(encode: Encoder, b: Body, t: Terms) {
    && ValidHeader(encode, b, t) && ValidResult(b, t) && ValidLines(b.lines, t)
    && NatText(Total(b.lines)) == b.approved.atomic
    && Comparison(b.approved, t.maximumPerClaim) <= 0
  }

  /** The loop over payout lines: stops at the first bad one, otherwise sums them. */
  method SumLines(lines: seq<PayoutLine>, t: Terms) returns (total: Option<int>)
    ensures total == if ValidLines(lines, t) then Some(Total(lines)) else None
  {
    var sum := 0;
    for i := 0 to |lines|
      invariant ValidLines(lines[..i], t)
      invariant sum == Total(lines[..i])
    {
      if !ValidLine(lines[i], i, t) {
        return None;
      }
      CanonicalIsPlain(lines[i].amount.atomic);
      sum := sum + ParseInt(lines[i].amount.atomic).value;
      assert lines[..i + 1][..i] == lines[..i];
    }
    assert lines[..|lines|] == lines;
    return Some(sum);
  }

  /** `validateClaimDecisionBody`. */
  method ValidateClaimDecisionBody(encode: Encoder, b: Body, t: Terms) returns (ok: bool)
    ensures ok <==> ValidBody(encode, b, t)
  {
    if !ValidHeader(encode, b, t) || !ValidResult(b, t) {
      return false;
    }
    var total := SumLines(b.lines, t);
    if total.None? || IntText(total.value) != b.approved.atomic {
      return false;
    }
    return Comparison(b.approved, t.maximumPerClaim) <= 0;
  }

  /** An accepted body pays out exactly what it approves, within the per-claim and the aggregate maximum. */
  lemma {:induction false} BodyConserves(other: Terms -> bool, encode: Encoder, b: Body, t: Terms)
    requires ValidTerms(other, t) && ValidBody(encode, b, t)
    ensures Total(b.lines) == Units(b.approved) <= Units(t.maximumPerClaim) <= Units(t.maximumAggregate)
    ensures Units(b.approved) > 0 <==> b.result == APPROVED || b.result == PARTIALLY_APPROVED
    ensures Units(b.approved) > 0 <==> b.lines != []
  {
    NumberOfText(Total(b.lines));
    CompareUnits(b.approved, t.maximumPerClaim);
    CompareUnits(t.maximumPerClaim, t.maximumAggregate);
    ZeroUnits(b.approved);
  }

  /** A terminal result opens the agreed challenge window, an open one the agreed window to resolve it. */
  lemma {:induction false} ResultWindows(encode: Encoder, b: Body, t: Terms)
    requires ValidBody(encode, b, t)
    ensures b.result in {"approved", "partially_approved", "denied", "evidence_required", "disputed"}
    ensures b.result in {"approved", "partially_approved", "denied"} ==>
              b.challengeWindow == t.challengeWindow && b.resolutionWindow == 0
    ensures b.result in {"evidence_required", "disputed"} ==>
              b.challengeWindow == 0 && b.resolutionWindow == t.nonterminalWindow != 0
  {
  }

  lemma {:induction false} ZeroUnits(a: AtomicAmount)
    requires ValidAtomic(a, false)
    ensures Units(a) == 0 <==> a.atomic == "0"
  {
    CanonicalIsPlain(a.atomic);
    TextOfNumber(a.atomic);
    SingleDigit('0');
    NumberOfText(0);
  }

  /** The unchecked sum behind a line's expiry cannot wrap: the terms were refused otherwise. */
  lemma {:induction false} LineTimes(other: Terms -> bool, line: PayoutLine, position: nat, t: Terms)
    requires ValidTerms(other, t) && ValidLine(line, position, t)
    ensures line.expires == line.due + t.adapterRecovery
    ensures line.notBefore <= line.due < line.expires <= t.payoutDeadline + t.adapterRecovery < TWO64
  {
  }
}
