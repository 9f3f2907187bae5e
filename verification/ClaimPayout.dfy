/**
 Materialisation of an accepted claim decision into settlement obligations: one per payout
 line, consecutively numbered, each chained to the one before it.
 */
module ClaimPayout {
  import opened Text
  import opened Decimal
  import opened Amounts
  import opened ClaimDecision
  import ClaimFallback
  import opened Settlement
  import SettlementRuns
  import SemanticAction

  datatype Identity = Identity(
    agreementDigest: string, templateId: string, bodyDigest: string, receiptDigest: string, index: nat,
    lineDigest: string, notBefore: nat, due: nat, expires: nat, sequence: nat, predecessorDigest: string)

  datatype MaterializedLine = MaterializedLine(
    sequence: nat, predecessorDigest: string, bodyDigest: string, receiptDigest: string, index: nat, line: PayoutLine,
    notBefore: nat, due: nat, expires: nat, instanceId: string)

  datatype Piece = Piece(line: MaterializedLine, obligation: SettlementObligation)

  /** The remaining checks and the canonical digests this step relies on. */
  datatype Environment = Environment(
    terms: Terms -> bool, encode: Encoder, decision: Decision -> Result<string>, body: Body -> Result<string>,
    line: PayoutLine -> string, instance: Identity -> Result<string>, materialized: MaterializedLine -> string,
    action: SemanticAction.Values -> Result<string>)

  datatype Request = Request(
    ownerId: string, agentId: string, mandateDigest: string, templateId: string, terms: Terms, decision: Decision,
    receiptDigest: string, terminalClose: Word, firstSequence: Word)

  datatype State = NotApplicable | Materialized

  datatype PayoutSet = PayoutSet(
    agreementDigest: string, templateId: string, decisionDigest: string, receiptDigest: string, state: State,
    firstSequence: nat, lastSequence: nat, pieces: seq<Piece>)

  predicate ValidRequest(e: Environment, q: Request) {
    && Token(q.ownerId, 256) && Token(q.agentId, 256) && IsDigest(q.mandateDigest) && Token(q.templateId, 128)
    && ValidTerms(e.terms, q.terms) && IsDigest(q.receiptDigest) && q.terminalClose != 0 && q.firstSequence != 0
  }

  predicate Checked(e: Environment, q: Request) {
    ValidRequest(e, q) && ValidBody(e.encode, q.decision.body, q.terms)
  }

  function ActionValues(q: Request, sequence: nat): SemanticAction.Values {
    map["owner_id" := SemanticAction.SemanticValue(SemanticAction.Id, q.ownerId),
        "agent_id" := SemanticAction.SemanticValue(SemanticAction.Id, q.agentId),
        "agreement_body_digest" :=
          SemanticAction.SemanticValue(SemanticAction.Digest32, q.decision.body.agreementDigest),
        "agreement_obligation_id" := SemanticAction.SemanticValue(SemanticAction.Id, q.templateId),
        "sequence" := SemanticAction.U64Value(sequence)]
  }

  function Agreed(a: AtomicAmount): AgreementAmount {
    AgreementAmount(a.asset.namespace, a.asset.identifier, a.atomic, "", a.asset.unit)
  }

  /** A 64-bit counter after some steps. */
  function Shown(first: nat, steps: nat): nat { (first + steps) % TWO64 }

  function Sequence(q: Request, offset: nat): nat { Shown(q.firstSequence, offset) }

  /** Start, due time and expiry of a line; None when one overflows or the expiry passes the deadline. */
  function Times(q: Request, line: PayoutLine): Option<(nat, nat, nat)> {
    var notBefore, due := CheckedAdd(q.terminalClose, line.notBefore), CheckedAdd(q.terminalClose, line.due);
    var expires := CheckedAdd(q.terminalClose, line.expires);
    if notBefore.None? || due.None? || expires.None? || expires.value > q.terms.terminalDeadline then None
    else Some((notBefore.value, due.value, expires.value))
  }

  function IdentityOf(e: Environment, q: Request, bodyDigest: string, offset: nat, predecessorDigest: string,
                      times: (nat, nat, nat)): Identity
    requires offset < |q.decision.body.lines|
  {
    var line := q.decision.body.lines[offset];
    Identity(q.decision.body.agreementDigest, q.templateId, bodyDigest, q.receiptDigest, line.index, e.line(line),
             times.0, times.1, times.2, Sequence(q, offset), predecessorDigest)
  }

  function ObligationOf(q: Request, offset: nat, times: (nat, nat, nat), instanceId: string, predecessorId: string,
                        actionId: string): SettlementObligation
    requires offset < |q.decision.body.lines|
  {
    SettlementObligation(
      q.decision.body.agreementDigest, q.templateId, instanceId, Sequence(q, offset), predecessorId,
      q.terms.guarantorAgentId, q.terms.beneficiaryAgentId, Agreed(q.decision.body.lines[offset].amount),
      times.0, times.1, times.2, Agreed(q.terms.maximumAggregate), q.terms.adapterUri,
      q.terms.settlementParametersDigest, q.mandateDigest, actionId)
  }

  /** One turn of the loop. */
  function PieceAt(e: Environment, q: Request, bodyDigest: string, offset: nat, predecessorDigest: string,
                   predecessorId: string): Result<Piece>
  {
    if offset >= |q.decision.body.lines| then Err
    else
      var line := q.decision.body.lines[offset];
      var times := Times(q, line);
      if times.None? then Err
      else
        var id := e.instance(IdentityOf(e, q, bodyDigest, offset, predecessorDigest, times.value));
        var action := e.action(ActionValues(q, Sequence(q, offset)));
        if id.Err? || action.Err? then Err
        else
          var o := ObligationOf(q, offset, times.value, id.value, predecessorId, action.value);
          if !ValidObligation(o) then Err
          else Ok(Piece(MaterializedLine(Sequence(q, offset), predecessorDigest, bodyDigest, q.receiptDigest,
                                         line.index,
                                         line, times.value.0, times.value.1, times.value.2, id.value), o))
  }

  type Turn = (nat, string, string) -> Result<Piece>

  function PreviousDigest(digest: MaterializedLine -> string, pieces: seq<Piece>, i: nat): string
    requires i <= |pieces|
  {
    if i == 0 then "" else digest(pieces[i - 1].line)
  }

  function PreviousId(pieces: seq<Piece>, i: nat): string
    requires i <= |pieces|
  {
    if i == 0 then "" else pieces[i - 1].obligation.instanceId
  }

  /** The first n pieces, each given the digest and the identity of the one before it. */
  function Pieces(turn: Turn, digest: MaterializedLine -> string, n: nat): (r: Result<seq<Piece>>)
    ensures r.Ok? ==> |r.value| == n
  {
    if n == 0 then Ok([])
    else
      var earlier := Pieces(turn, digest, n - 1);
      if earlier.Err? then Err
      else
        var next := turn(n - 1, PreviousDigest(digest, earlier.value, n - 1), PreviousId(earlier.value, n - 1));
        if next.Err? then Err else Ok(earlier.value + [next.value])
  }

  function TurnOf(e: Environment, q: Request, bodyDigest: string): Turn {
    (offset: nat, predecessorDigest: string, predecessorId: string) =>
      PieceAt(e, q, bodyDigest, offset, predecessorDigest, predecessorId)
  }

  function Payout(e: Environment, q: Request): Result<PayoutSet> {
    if !Checked(e, q) then Err
    else
      var decision, body := e.decision(q.decision), e.body(q.decision.body);
      if decision.Err? || body.Err? then Err
      else PayoutOf(TurnOf(e, q, body.value), e.materialized, q, decision.value)
  }

  /** The payout once everything is validated. */
  function PayoutOf(turn: Turn, digest: MaterializedLine -> string, q: Request,
                    decisionDigest: string): Result<PayoutSet>
  {
    var b := q.decision.body;
    var result := PayoutSet(b.agreementDigest, q.templateId, decisionDigest, q.receiptDigest, NotApplicable, 0, 0, []);
    if b.result == DENIED then Ok(result)
    else if b.result != APPROVED && b.result != PARTIALLY_APPROVED then Err
    else
      var pieces := Pieces(turn, digest, |b.lines|);
      if pieces.Err? then Err
      else Ok(result.(state := Materialized, firstSequence := q.firstSequence,
                      lastSequence := LastSequence(q.firstSequence, |pieces.value|), pieces := pieces.value))
  }

  /** `first + count - 1` on 64 bits. */
  function LastSequence(first: nat, count: nat): nat { (first + count + (TWO64 - 1)) % TWO64 }

  lemma {:induction false} PiecesStop(turn: Turn, digest: MaterializedLine -> string, m: nat, n: nat)
    requires m <= n && Pieces(turn, digest, m).Err?
    ensures Pieces(turn, digest, n).Err?
    decreases n
  {
    if m < n { PiecesStop(turn, digest, m, n - 1); }
  }

  /** The loop of `MaterializeClaimPayout`. */
  method RunPieces(turn: Turn, digest: MaterializedLine -> string, count: nat) returns (r: Result<seq<Piece>>)
    ensures r == Pieces(turn, digest, count)
  {
    var result: seq<Piece> := [];
    var previousDigest, previousId := "", "";
    for offset := 0 to count
      invariant Pieces(turn, digest, offset) == Ok(result)
      invariant previousDigest == PreviousDigest(digest, result, |result|)
      invariant previousId == PreviousId(result, |result|)
    {
      var next := turn(offset, previousDigest, previousId);
      if next.Err? {
        PiecesStop(turn, digest, offset + 1, count);
        return Err;
      }
      result := result + [next.value];
      previousDigest, previousId := digest(next.value.line), next.value.obligation.instanceId;
    }
    return Ok(result);
  }

  method EmitPayout(turn: Turn, digest: MaterializedLine -> string, q: Request, decisionDigest: string)
    returns (r: Result<PayoutSet>)
    ensures r == PayoutOf(turn, digest, q, decisionDigest)
  {
    var b := q.decision.body;
    var result := PayoutSet(b.agreementDigest, q.templateId, decisionDigest, q.receiptDigest, NotApplicable, 0, 0, []);
    if b.result == DENIED {
      return Ok(result);
    }
    if b.result != APPROVED && b.result != PARTIALLY_APPROVED {
      return Err;
    }
    var pieces := RunPieces(turn, digest, |b.lines|);
    if pieces.Err? {
      return Err;
    }
    return Ok(result.(state := Materialized, firstSequence := q.firstSequence,
                      lastSequence := LastSequence(q.firstSequence, |pieces.value|), pieces := pieces.value));
  }

  /** `MaterializeClaimPayout`. */
  method MaterializeClaimPayout(e: Environment, q: Request) returns (r: Result<PayoutSet>)
    ensures r == Payout(e, q)
  {
    if !ValidRequest(e, q) {
      return Err;
    }
    var valid := ValidateClaimDecisionBody(e.encode, q.decision.body, q.terms);
    if !valid {
      return Err;
    }
    var decision, body := e.decision(q.decision), e.body(q.decision.body);
    if decision.Err? || body.Err? {
      return Err;
    }
    r := EmitPayout(TurnOf(e, q, body.value), e.materialized, q, decision.value);
  }

  // ---------- what a materialised payout is ----------

  lemma {:induction false} PiecesShape(turn: Turn, digest: MaterializedLine -> string, n: nat, i: nat)
    requires Pieces(turn, digest, n).Ok? && i < n
    ensures var s := Pieces(turn, digest, n).value;
            turn(i, PreviousDigest(digest, s, i), PreviousId(s, i)) == Ok(s[i])
  {
    if i < n - 1 {
      PiecesShape(turn, digest, n - 1, i);
    }
  }

  ghost predicate Paying(e: Environment, q: Request) {
    Payout(e, q).Ok? && Payout(e, q).value.state == Materialized
  }

  ghost function Set(e: Environment, q: Request): PayoutSet
    requires Paying(e, q)
  {
    Payout(e, q).value
  }

  lemma {:induction false} PieceExact(e: Environment, q: Request, i: nat)
    requires Paying(e, q) && i < |q.decision.body.lines|
    ensures var s := Set(e, q).pieces;
            && |s| == |q.decision.body.lines|
            && PieceAt(e, q, e.body(q.decision.body).value, i, PreviousDigest(e.materialized, s, i), PreviousId(s, i))
               == Ok(s[i])
  {
    PiecesShape(TurnOf(e, q, e.body(q.decision.body).value), e.materialized, |q.decision.body.lines|, i);
  }

  /** What the coverage fixes about every payout: the guarantor owes the beneficiary under the agreed terms. */
  ghost predicate Carries(q: Request, line: PayoutLine, o: SettlementObligation) {
    var asset, limit := line.amount.asset, q.terms.maximumAggregate;
    && o.payerAgentId == q.terms.guarantorAgentId && o.payeeAgentId == q.terms.beneficiaryAgentId
    && o.amount == AgreementAmount(asset.namespace, asset.identifier, line.amount.atomic, "", asset.unit)
    && o.maximumAggregate
       == AgreementAmount(limit.asset.namespace, limit.asset.identifier, limit.atomic, "", limit.asset.unit)
    && o.agreementBodyDigest == q.decision.body.agreementDigest && o.agreementObligationId == q.templateId
    && o.settlementAdapterUri == q.terms.adapterUri
    && o.settlementParametersDigest == q.terms.settlementParametersDigest && o.mandateDigest == q.mandateDigest
  }

  /** Counted from the terminal close of the claim, and over before the deadline. */
  ghost predicate Scheduled(q: Request, line: PayoutLine, o: SettlementObligation) {
    && o.notBefore == q.terminalClose + line.notBefore && o.dueAt == q.terminalClose + line.due
    && o.expiresAt == q.terminalClose + line.expires <= q.terms.terminalDeadline
  }

  /** The identity and the action an obligation is named by. */
  ghost predicate Identified(e: Environment, q: Request, bodyDigest: string, line: PayoutLine, piece: Piece) {
    var o := piece.obligation;
    && e.instance(Identity(q.decision.body.agreementDigest, q.templateId, bodyDigest, q.receiptDigest, line.index,
                           e.line(line), o.notBefore, o.dueAt, o.expiresAt, o.sequence, piece.line.predecessorDigest))
       == Ok(o.instanceId)
    && e.action(map["owner_id" := SemanticAction.SemanticValue(SemanticAction.Id, q.ownerId),
                    "agent_id" := SemanticAction.SemanticValue(SemanticAction.Id, q.agentId),
                    "agreement_body_digest" :=
                      SemanticAction.SemanticValue(SemanticAction.Digest32, q.decision.body.agreementDigest),
                    "agreement_obligation_id" := SemanticAction.SemanticValue(SemanticAction.Id, q.templateId),
                    "sequence" := SemanticAction.U64Value(o.sequence)]) == Ok(o.stableActionId)
  }

  /** The materialised line records what its obligation is. */
  ghost predicate Recorded(q: Request, bodyDigest: string, line: PayoutLine, piece: Piece) {
    var m, o := piece.line, piece.obligation;
    && m.line == line && m.index == line.index && m.bodyDigest == bodyDigest && m.receiptDigest == q.receiptDigest
    && m.sequence == o.sequence && m.instanceId == o.instanceId
    && m.notBefore == o.notBefore && m.due == o.dueAt && m.expires == o.expiresAt
  }

  /** A valid obligation and its line: what they carry, when, and under which name. */
  ghost predicate IsPiece(e: Environment, q: Request, bodyDigest: string, i: nat, piece: Piece)
    requires i < |q.decision.body.lines|
  {
    var line := q.decision.body.lines[i];
    && ValidObligation(piece.obligation) && Carries(q, line, piece.obligation) && Scheduled(q, line, piece.obligation)
    && piece.obligation.sequence == (q.firstSequence + i) % TWO64
    && Identified(e, q, bodyDigest, line, piece) && Recorded(q, bodyDigest, line, piece)
  }

  /** The obligation and the line at offset i, chained to those before them. */
  ghost predicate IsObligation(e: Environment, q: Request, bodyDigest: string, s: seq<Piece>, i: nat)
    requires i < |s| == |q.decision.body.lines|
  {
    && IsPiece(e, q, bodyDigest, i, s[i])
    && s[i].obligation.predecessorInstanceId == (if i == 0 then "" else s[i - 1].obligation.instanceId)
    && s[i].line.predecessorDigest == (if i == 0 then "" else e.materialized(s[i - 1].line))
  }

  lemma {:induction false} PieceFields(e: Environment, q: Request, bodyDigest: string, i: nat,
                                       predecessorDigest: string, predecessorId: string)
    requires i < |q.decision.body.lines| && PieceAt(e, q, bodyDigest, i, predecessorDigest, predecessorId).Ok?
    ensures var piece := PieceAt(e, q, bodyDigest, i, predecessorDigest, predecessorId).value;
            && IsPiece(e, q, bodyDigest, i, piece) && piece.obligation.predecessorInstanceId == predecessorId
            && piece.line.predecessorDigest == predecessorDigest
  {
  }

  lemma {:induction false} ObligationAt(e: Environment, q: Request, i: nat)
    requires Paying(e, q) && i < |q.decision.body.lines|
    ensures i < |Set(e, q).pieces| == |q.decision.body.lines| && e.body(q.decision.body).Ok?
    ensures IsObligation(e, q, e.body(q.decision.body).value, Set(e, q).pieces, i)
  {
    var s := Set(e, q).pieces;
    PieceExact(e, q, i);
    PieceFields(e, q, e.body(q.decision.body).value, i, PreviousDigest(e.materialized, s, i), PreviousId(s, i));
  }

  lemma {:induction false} SequenceAt(e: Environment, q: Request, i: nat)
    requires Paying(e, q) && i < |q.decision.body.lines|
    ensures i < |Set(e, q).pieces| && Set(e, q).pieces[i].obligation.sequence == Sequence(q, i) != 0
  {
    PieceExact(e, q, i);
    PieceSequence(e, q, e.body(q.decision.body).value, i, PreviousDigest(e.materialized, Set(e, q).pieces, i),
                  PreviousId(Set(e, q).pieces, i));
  }

  lemma {:induction false} PieceSequence(e: Environment, q: Request, bodyDigest: string, i: nat,
                                         predecessorDigest: string, predecessorId: string)
    requires i < |q.decision.body.lines| && PieceAt(e, q, bodyDigest, i, predecessorDigest, predecessorId).Ok?
    ensures PieceAt(e, q, bodyDigest, i, predecessorDigest, predecessorId).value.obligation.sequence
        == Sequence(q, i) != 0
  {
  }

  /** A counter that never shows zero has not wrapped. */
  lemma {:induction false} NoWrap(first: nat, i: nat)
    requires first < TWO64 && forall k: nat | k <= i :: Shown(first, k) != 0
    ensures Shown(first, i) == first + i < TWO64
  {
    if i > 0 {
      NoWrap(first, i - 1);
      assert Shown(first, i) != 0;
    }
  }

  /** Sequence numbers run from the first without wrapping: the number zero is refused on the way. */
  lemma {:induction false} SequencesConsecutive(e: Environment, q: Request, i: nat)
    requires Paying(e, q) && i < |q.decision.body.lines|
    ensures Sequence(q, i) == q.firstSequence + i < TWO64
    ensures i < |Set(e, q).pieces| && Set(e, q).pieces[i].obligation.sequence == q.firstSequence + i
  {
    forall k: nat | k <= i
      ensures Shown(q.firstSequence, k) != 0
    {
      SequenceAt(e, q, k);
    }
    NoWrap(q.firstSequence, i);
    SequenceAt(e, q, i);
  }

  lemma {:induction false} LastNoWrap(first: nat, count: nat)
    requires 0 < count && first + (count - 1) < TWO64
    ensures LastSequence(first, count) == first + count - 1
  {
  }

  lemma {:induction false} PayingShape(e: Environment, q: Request)
    requires Paying(e, q)
    ensures var s := Set(e, q);
            && |s.pieces| == |q.decision.body.lines| > 0 && s.firstSequence == q.firstSequence
            && s.lastSequence == LastSequence(q.firstSequence, |s.pieces|)
  {
  }

  /** The recorded bounds are the numbers of the first and the last obligation. */
  lemma {:induction false} SequenceBounds(e: Environment, q: Request)
    requires Paying(e, q)
    ensures var s := Set(e, q);
            && |s.pieces| == |q.decision.body.lines| > 0
            && s.firstSequence == s.pieces[0].obligation.sequence
            && s.lastSequence == s.pieces[|s.pieces| - 1].obligation.sequence == s.firstSequence + |s.pieces| - 1
  {
    PayingShape(e, q);
    SequencesConsecutive(e, q, 0);
    SequencesConsecutive(e, q, |q.decision.body.lines| - 1);
    LastNoWrap(q.firstSequence, |q.decision.body.lines|);
  }

  /** Terminal close <= start <= due < expiry <= deadline, and the recovery window is whole. */
  lemma {:induction false} PayoutTimes(e: Environment, q: Request, i: nat)
    requires Paying(e, q) && i < |q.decision.body.lines|
    ensures i < |Set(e, q).pieces|
    ensures var o := Set(e, q).pieces[i].obligation;
            && q.terminalClose <= o.notBefore <= o.dueAt < o.expiresAt <= q.terms.terminalDeadline
            && o.dueAt <= q.terminalClose + q.terms.payoutDeadline
            && o.expiresAt == o.dueAt + q.terms.adapterRecovery
  {
    ObligationAt(e, q, i);
    assert ValidLine(q.decision.body.lines[i], i, q.terms);
    LineTimes(e.terms, q.decision.body.lines[i], i, q.terms);
  }

  ghost predicate PositionalIdentities(e: Environment, messages: set<Identity>) {
    forall a, b :: a in messages && b in messages && e.instance(a) == e.instance(b) ==> a == b
  }

  ghost function IdentityAt(e: Environment, q: Request, i: nat): Identity
    requires Paying(e, q) && i < |q.decision.body.lines| && i < |Set(e, q).pieces|
  {
    var o := Set(e, q).pieces[i].obligation;
    IdentityOf(e, q, e.body(q.decision.body).value, i, PreviousDigest(e.materialized, Set(e, q).pieces, i),
               (o.notBefore, o.dueAt, o.expiresAt))
  }

  lemma {:induction false} IdentityDigest(e: Environment, q: Request, i: nat)
    requires Paying(e, q) && i < |q.decision.body.lines|
    ensures i < |Set(e, q).pieces|
    ensures e.instance(IdentityAt(e, q, i)) == Ok(Set(e, q).pieces[i].obligation.instanceId)
  {
    PieceExact(e, q, i);
  }

  lemma {:induction false} IdentitiesDiffer(e: Environment, q: Request, i: nat, j: nat)
    requires Paying(e, q) && i < j < |q.decision.body.lines| && j < |Set(e, q).pieces|
    ensures IdentityAt(e, q, i) != IdentityAt(e, q, j)
  {
    SequencesConsecutive(e, q, i);
    SequencesConsecutive(e, q, j);
    assert IdentityAt(e, q, i).sequence == Sequence(q, i) && IdentityAt(e, q, j).sequence == Sequence(q, j);
  }

  /** Different lines become different instances, unless the digest collides on the two identities. */
  lemma {:induction false} InstancesDistinct(e: Environment, q: Request, i: nat, j: nat)
    requires Paying(e, q) && i < j < |q.decision.body.lines| && j < |Set(e, q).pieces|
    requires PositionalIdentities(e, {IdentityAt(e, q, i), IdentityAt(e, q, j)})
    ensures Set(e, q).pieces[i].obligation.instanceId != Set(e, q).pieces[j].obligation.instanceId
  {
    IdentityDigest(e, q, i);
    IdentityDigest(e, q, j);
    IdentitiesDiffer(e, q, i, j);
  }

  // ---------- exactly when a payout materialises ----------

  predicate EmptyOrDigest(s: string) { s == "" || IsDigest(s) }

  /** Whatever has a digest has it in digest form; a failed digest of a materialised line is dropped and left empty. */
  ghost predicate DigestForm(e: Environment) {
    && (forall i :: e.instance(i).Ok? ==> IsDigest(e.instance(i).value))
    && (forall v :: e.action(v).Ok? ==> IsDigest(e.action(v).value))
    && forall m :: EmptyOrDigest(e.materialized(m))
  }

  /** The request's own records have digests: the decision, the identities of its lines and their actions. */
  ghost predicate DigestsDefined(e: Environment, q: Request) {
    && DigestForm(e) && e.decision(q.decision).Ok? && e.body(q.decision.body).Ok?
    && (forall i: nat, d | i < |q.decision.body.lines| && EmptyOrDigest(d) :: IdentityDigested(e, q, i, d))
    && forall i: nat | i < |q.decision.body.lines| :: e.action(ActionValues(q, Sequence(q, i))).Ok?
  }

  predicate IdentityDigested(e: Environment, q: Request, i: nat, predecessorDigest: string)
    requires e.body(q.decision.body).Ok? && i < |q.decision.body.lines|
  {
    var times := Times(q, q.decision.body.lines[i]);
    times.Some? ==>
      e.instance(IdentityOf(e, q, e.body(q.decision.body).value, i, predecessorDigest, times.value)).Ok?
  }

  /** The template's identifier is one a settlement obligation accepts. */
  predicate Named(q: Request) { BoundedIdentifier(q.templateId, 128) }

  predicate InTime(q: Request) {
    forall i | 0 <= i < |q.decision.body.lines| ::
      q.terminalClose + q.decision.body.lines[i].expires <= q.terms.terminalDeadline
  }

  lemma {:induction false} TimesDefined(e: Environment, q: Request, i: nat)
    requires Checked(e, q) && i < |q.decision.body.lines|
    ensures var line := q.decision.body.lines[i];
            && (Times(q, line).Some? <==> q.terminalClose + line.expires <= q.terms.terminalDeadline)
            && (Times(q, line).Some? ==> Times(q, line).value.0 < Times(q, line).value.2)
            && (Times(q, line).Some? ==> Times(q, line).value.1 <= Times(q, line).value.2)
  {
    assert ValidLine(q.decision.body.lines[i], i, q.terms);
    LineTimes(e.terms, q.decision.body.lines[i], i, q.terms);
  }

  lemma {:induction false} AgreedValid(a: AtomicAmount)
    requires ValidAtomic(a, false)
    ensures ValidAmount(Agreed(a))
  {
  }

  lemma {:induction false} ObligationValid(e: Environment, q: Request, i: nat, times: (nat, nat, nat), id: string,
                                           predecessorId: string, actionId: string)
    requires Checked(e, q) && i < |q.decision.body.lines| && IsDigest(id) && IsDigest(actionId)
    requires EmptyOrDigest(predecessorId)
    requires times.0 < times.2 && times.1 <= times.2
    ensures ValidObligation(ObligationOf(q, i, times, id, predecessorId, actionId)) <==> Named(q) && Sequence(q, i) != 0
  {
    assert ValidLine(q.decision.body.lines[i], i, q.terms);
    AgreedValid(q.decision.body.lines[i].amount);
    AgreedValid(q.terms.maximumAggregate);
  }

  /** One turn succeeds exactly when its times and its obligation do. */
  lemma {:induction false} PieceUnfold(e: Environment, q: Request, i: nat, bodyDigest: string,
                                       predecessorDigest: string, predecessorId: string, times: (nat, nat, nat),
                                       id: string, action: string)
    requires i < |q.decision.body.lines| && Times(q, q.decision.body.lines[i]) == Some(times)
    requires e.instance(IdentityOf(e, q, bodyDigest, i, predecessorDigest, times)) == Ok(id)
    requires e.action(ActionValues(q, Sequence(q, i))) == Ok(action)
    ensures var r := PieceAt(e, q, bodyDigest, i, predecessorDigest, predecessorId);
            var o := ObligationOf(q, i, times, id, predecessorId, action);
            && (r.Ok? <==> ValidObligation(o)) && (r.Ok? ==> r.value.obligation == o)
  {
  }

  lemma {:induction false} PieceDefined(e: Environment, q: Request, i: nat, predecessorDigest: string,
                                        predecessorId: string)
    requires Checked(e, q) && DigestsDefined(e, q) && i < |q.decision.body.lines|
    requires EmptyOrDigest(predecessorDigest) && EmptyOrDigest(predecessorId)
    ensures var r := PieceAt(e, q, e.body(q.decision.body).value, i, predecessorDigest, predecessorId);
            && (r.Ok? <==> Named(q) && Sequence(q, i) != 0
                           && q.terminalClose + q.decision.body.lines[i].expires <= q.terms.terminalDeadline)
            && (r.Ok? ==> IsDigest(r.value.obligation.instanceId))
  {
    TimesDefined(e, q, i);
    var times := Times(q, q.decision.body.lines[i]);
    var bodyDigest := e.body(q.decision.body).value;
    if times.Some? {
      assert IdentityDigested(e, q, i, predecessorDigest);
      var id := e.instance(IdentityOf(e, q, bodyDigest, i, predecessorDigest, times.value));
      var action := e.action(ActionValues(q, Sequence(q, i)));
      PieceUnfold(e, q, i, bodyDigest, predecessorDigest, predecessorId, times.value, id.value, action.value);
      ObligationValid(e, q, i, times.value, id.value, predecessorId, action.value);
    }
  }

  ghost predicate Succeeds(turn: Turn, n: nat) {
    forall i: nat, d, id | i < n && EmptyOrDigest(d) && EmptyOrDigest(id) ::
      turn(i, d, id).Ok? && IsDigest(turn(i, d, id).value.obligation.instanceId)
  }

  lemma {:induction false} PiecesDefined(turn: Turn, digest: MaterializedLine -> string, n: nat)
    requires Succeeds(turn, n) && forall m :: EmptyOrDigest(digest(m))
    ensures Pieces(turn, digest, n).Ok?
    ensures n > 0 ==> IsDigest(Pieces(turn, digest, n).value[n - 1].obligation.instanceId)
  {
    if n > 0 {
      PiecesDefined(turn, digest, n - 1);
    }
  }

  lemma {:induction false} SmallSequence(first: nat, n: nat, i: nat)
    requires 0 < first && first + n <= TWO64 && i < n
    ensures Shown(first, i) != 0
  {
  }

  ghost predicate Approving(q: Request) {
    q.decision.body.result == APPROVED || q.decision.body.result == PARTIALLY_APPROVED
  }

  lemma {:induction false} PayoutOfPieces(turn: Turn, digest: MaterializedLine -> string, q: Request,
                                          decisionDigest: string)
    requires Approving(q)
    ensures var r := PayoutOf(turn, digest, q, decisionDigest);
            && (r.Ok? <==> Pieces(turn, digest, |q.decision.body.lines|).Ok?)
            && (r.Ok? ==> r.value.state == Materialized)
  {
  }

  lemma {:induction false} ApprovingPays(e: Environment, q: Request)
    requires Checked(e, q) && Approving(q)
    ensures q.decision.body.lines != []
  {
  }

  lemma {:induction false} PayoutIsPieces(e: Environment, q: Request)
    requires Checked(e, q) && e.decision(q.decision).Ok? && e.body(q.decision.body).Ok? && Approving(q)
    ensures Payout(e, q).Ok? <==>
            Pieces(TurnOf(e, q, e.body(q.decision.body).value), e.materialized, |q.decision.body.lines|).Ok?
    ensures Payout(e, q).Ok? ==> Paying(e, q) && q.decision.body.lines != []
  {
    ApprovingPays(e, q);
    PayoutOfPieces(TurnOf(e, q, e.body(q.decision.body).value), e.materialized, q, e.decision(q.decision).value);
  }

  /**
   A validated approving decision materialises exactly when its obligations can be named, fit
   the deadline and do not run out of sequence numbers.  The first is not automatic: the template
   identifier is validated as a bare token, and a settlement obligation also refuses surrounding
   white space and line breaks: see `UnnameableTemplate`.
   */
  lemma {:induction false} PayoutDefined(e: Environment, q: Request)
    requires Checked(e, q) && DigestsDefined(e, q) && Approving(q)
    ensures Payout(e, q).Ok? <==> Named(q) && InTime(q) && q.firstSequence + |q.decision.body.lines| <= TWO64
  {
    var n := |q.decision.body.lines|;
    PayoutIsPieces(e, q);
    if Payout(e, q).Ok? {
      NamedInTime(e, q);
      SequencesConsecutive(e, q, n - 1);
    }
    if Named(q) && InTime(q) && q.firstSequence + n <= TWO64 {
      TurnsDefined(e, q);
      PiecesDefined(TurnOf(e, q, e.body(q.decision.body).value), e.materialized, n);
    }
  }

  /** What becomes of a validated decision by its result: payouts, nothing to pay, or a refusal. */
  lemma {:induction false} PayoutByResult(e: Environment, q: Request)
    requires Checked(e, q) && e.decision(q.decision).Ok? && e.body(q.decision.body).Ok?
    ensures var r, result := Payout(e, q), q.decision.body.result;
            && (result == "approved" || result == "partially_approved" ==> (r.Ok? ==> r.value.state == Materialized))
            && (result == "denied" ==> r.Ok? && r.value.state == NotApplicable && r.value.pieces == [])
            && (result != "approved" && result != "partially_approved" && result != "denied" ==> r.Err?)
            && (r.Ok? ==> && Ok(r.value.decisionDigest) == e.decision(q.decision)
                          && r.value.agreementDigest == q.decision.body.agreementDigest
                          && r.value.templateId == q.templateId && r.value.receiptDigest == q.receiptDigest)
  {
  }

  lemma {:induction false} NamedInTime(e: Environment, q: Request)
    requires Paying(e, q)
    ensures Named(q) && InTime(q)
  {
    forall i | 0 <= i < |q.decision.body.lines|
      ensures Named(q) && q.terminalClose + q.decision.body.lines[i].expires <= q.terms.terminalDeadline
    {
      PieceExact(e, q, i);
    }
    assert 0 < |q.decision.body.lines|;
  }

  lemma {:induction false} TurnDefined(e: Environment, q: Request, i: nat, d: string, id: string)
    requires Checked(e, q) && DigestsDefined(e, q) && i < |q.decision.body.lines|
    requires EmptyOrDigest(d) && EmptyOrDigest(id)
    requires Named(q) && InTime(q) && q.firstSequence + |q.decision.body.lines| <= TWO64
    ensures var r := PieceAt(e, q, e.body(q.decision.body).value, i, d, id);
            r.Ok? && IsDigest(r.value.obligation.instanceId)
  {
    SmallSequence(q.firstSequence, |q.decision.body.lines|, i);
    PieceDefined(e, q, i, d, id);
  }

  lemma {:induction false} TurnsDefined(e: Environment, q: Request)
    requires Checked(e, q) && DigestsDefined(e, q)
    requires Named(q) && InTime(q) && q.firstSequence + |q.decision.body.lines| <= TWO64
    ensures Succeeds(TurnOf(e, q, e.body(q.decision.body).value), |q.decision.body.lines|)
  {
    var turn := TurnOf(e, q, e.body(q.decision.body).value);
    forall i: nat, d, id | i < |q.decision.body.lines| && EmptyOrDigest(d) && EmptyOrDigest(id)
      ensures turn(i, d, id).Ok? && IsDigest(turn(i, d, id).value.obligation.instanceId)
    {
      TurnDefined(e, q, i, d, id);
    }
  }

  // ---------- a validated decision that does not materialise ----------

  function ExampleLines(): seq<PayoutLine> {
    ClaimFallback.SoleLine(ClaimFallback.Coins("5"), UniformDigest('0'), ClaimFallback.ExampleTerms())
  }

  /** A first decision that approves five units in one line. */
  function ExampleBody(): Body {
    var d := UniformDigest('0');
    Body(1, d, "o", d, d, 1, 1, "", "initial", 1, ProfileRef("p", 1, d), ["s"], "all", APPROVED,
         ClaimFallback.Coins("5"), d, d, d, ExampleLines(), 60, 0, 1, 2, [], [])
  }

  function ExampleRequest(templateId: string): Request {
    var five := ClaimFallback.Coins("5");
    Request("o", "a", UniformDigest('0'), templateId, ClaimFallback.ExampleTerms(),
            Decision(ExampleBody(), Policy(five, None, "x", []), Reason("r", [], [])), UniformDigest('0'), 1, 1)
  }

  lemma {:induction false} ExampleDraftValid(encode: Encoder)
    ensures ValidDraft(encode, ExampleBody())
  {
    LetterIdentifies('o', 128);
    LetterIdentifies('p', 256);
    LetterIdentifies('s', 256);
    assert SortedSubjects(["s"]);
  }

  lemma {:induction false} ExampleBodyValid(encode: Encoder)
    ensures ValidBody(encode, ExampleBody(), ClaimFallback.ExampleTerms())
  {
    var t := ClaimFallback.ExampleTerms();
    ClaimFallback.ExampleTermsValid();
    ClaimFallback.ExampleCoins('5');
    ClaimFallback.SoleLinePays(ClaimFallback.Coins("5"), UniformDigest('0'), (t: Terms) => true, t);
    ExampleDraftValid(encode);
    CompareUnits(ClaimFallback.Coins("5"), t.maximumPerClaim);
  }

  lemma {:induction false} ExampleChecked(e: Environment, templateId: string)
    requires e.terms(ClaimFallback.ExampleTerms()) && Token(templateId, 128)
    ensures Checked(e, ExampleRequest(templateId))
  {
    ExampleBodyValid(e.encode);
    ClaimFallback.ExampleTermsValid();
    LetterIdentifies('o', 256);
    LetterIdentifies('a', 256);
  }

  lemma {:induction false} LineBreakToken()
    ensures Token("t\n", 128) && !BoundedIdentifier("t\n", 128)
  {
    assert "t\n"[1..] == "\n" && "\n"[1..] == "";
    assert ValidUtf8("\n");
    assert "t\n"[1] == '\n';
  }

  lemma {:induction false} ExampleFits(templateId: string)
    ensures var q := ExampleRequest(templateId);
            && Approving(q) && InTime(q) && q.firstSequence + |q.decision.body.lines| <= TWO64
  {
  }

  /** The same approved decision pays out under the template "t" and not under "t" and a line break. */
  lemma {:induction false} UnnameableTemplate(e: Environment)
    requires e.terms(ClaimFallback.ExampleTerms())
    requires DigestsDefined(e, ExampleRequest("t")) && DigestsDefined(e, ExampleRequest("t\n"))
    ensures Checked(e, ExampleRequest("t")) && Payout(e, ExampleRequest("t")).Ok?
    ensures Checked(e, ExampleRequest("t\n")) && Payout(e, ExampleRequest("t\n")).Err?
  {
    LetterIdentifies('t', 128);
    LineBreakToken();
    ExampleChecked(e, "t");
    ExampleChecked(e, "t\n");
    ExampleFits("t");
    ExampleFits("t\n");
    PayoutDefined(e, ExampleRequest("t"));
    PayoutDefined(e, ExampleRequest("t\n"));
  }

  // ---------- conservation, over all runs ----------

  ghost function Obligations(e: Environment, q: Request): (os: seq<SettlementObligation>)
    requires Paying(e, q)
    ensures |os| == |Set(e, q).pieces|
  {
    seq(|Set(e, q).pieces|, i requires 0 <= i < |Set(e, q).pieces| => Set(e, q).pieces[i].obligation)
  }

  ghost predicate Priced(os: seq<SettlementObligation>, lines: seq<PayoutLine>) {
    && |os| == |lines|
    && forall i | 0 <= i < |os| :: ValidAtomic(lines[i].amount, true) && os[i].amount == Agreed(lines[i].amount)
  }

  lemma {:induction false} ObligationsPriced(e: Environment, q: Request)
    requires Paying(e, q)
    ensures Priced(Obligations(e, q), q.decision.body.lines)
  {
    var lines, os := q.decision.body.lines, Obligations(e, q);
    SequenceBounds(e, q);
    forall i | 0 <= i < |os|
      ensures ValidAtomic(lines[i].amount, true) && os[i].amount == Agreed(lines[i].amount)
    {
      ObligationAt(e, q, i);
      assert ValidLine(lines[i], i, q.terms);
    }
  }

  lemma {:induction false} AgreedValue(a: AtomicAmount)
    requires ValidAtomic(a, false)
    ensures Readable(Agreed(a)) && Value(Agreed(a)) == Units(a) as real
  {
    CanonicalIsPlain(a.atomic);
  }

  ghost predicate Counted(os: seq<SettlementObligation>) { forall i | 0 <= i < |os| :: Readable(os[i].amount) }

  ghost function Owed(os: seq<SettlementObligation>): real
    requires Counted(os)
  {
    if os == [] then 0.0 else Owed(os[..|os| - 1]) + Value(os[|os| - 1].amount)
  }

  lemma {:induction false} OwedIsTotal(os: seq<SettlementObligation>, lines: seq<PayoutLine>)
    requires Priced(os, lines)
    ensures Counted(os) && Owed(os) == Total(lines) as real
  {
    forall i | 0 <= i < |os|
      ensures Readable(os[i].amount)
    {
      AgreedValue(lines[i].amount);
    }
    if os != [] {
      var n := |os| - 1;
      OwedIsTotal(os[..n], lines[..n]);
      AgreedValue(lines[n].amount);
    }
  }

  /** The obligations add up to exactly the approved amount, within the per-claim and the aggregate maximum. */
  lemma {:induction false} PayoutConserves(e: Environment, q: Request)
    requires Paying(e, q)
    ensures var os := Obligations(e, q); var t := q.terms;
            && Counted(os) && Owed(os) == Units(q.decision.body.approved) as real
            && Units(q.decision.body.approved) <= Units(t.maximumPerClaim) <= Units(t.maximumAggregate)
  {
    ObligationsPriced(e, q);
    OwedIsTotal(Obligations(e, q), q.decision.body.lines);
    BodyConserves(e.terms, e.encode, q.decision.body, q.terms);
  }

  lemma {:induction false} PaidWithinOwed(digest: Digester, os: seq<SettlementObligation>, w: SettlementRuns.World)
    requires SettlementRuns.AllInv(digest, os, w) && Counted(os)
    ensures SettlementRuns.Counted(w) && SettlementRuns.TotalPaid(w) <= Owed(os)
  {
    forall i | 0 <= i < |w|
      ensures Readable(w[i].paidToDate)
    {
      SettlementRuns.PaidWithinAmount(digest, os[i], w[i]);
    }
    if w != [] {
      var n := |w| - 1;
      PaidWithinOwed(digest, os[..n], w[..n]);
      SettlementRuns.PaidWithinAmount(digest, os[n], w[n]);
      TotalPaidSnoc(w);
    }
  }

  lemma {:induction false} TotalPaidSnoc(w: SettlementRuns.World)
    requires SettlementRuns.Counted(w) && w != []
    ensures SettlementRuns.TotalPaid(w) == SettlementRuns.TotalPaid(w[..|w| - 1]) + Value(w[|w| - 1].paidToDate)
  {
    if |w| > 1 {
      TotalPaidSnoc(w[1..]);
      assert w[1..][..|w| - 2] == w[..|w| - 1][1..];
    }
  }

  /** Over every run of payments and resolutions, a claim is never paid more than its decision approved. */
  lemma {:induction false} ClaimPaidWithinApproved(e: Environment, q: Request, digest: Digester,
                                                   w: SettlementRuns.World, steps: seq<SettlementRuns.Step>)
    requires Paying(e, q) && SettlementRuns.Initial(digest, Obligations(e, q), w)
    ensures var r := SettlementRuns.Run(digest, Obligations(e, q), w, steps);
            && SettlementRuns.Counted(r)
            && SettlementRuns.TotalPaid(r) <= Units(q.decision.body.approved) as real
            && SettlementRuns.TotalPaid(r) <= Units(q.terms.maximumPerClaim) as real
  {
    PayoutConserves(e, q);
    SettlementRuns.InitialInv(digest, Obligations(e, q), w);
    SettlementRuns.RunKeepsInv(digest, Obligations(e, q), w, steps);
    PaidWithinOwed(digest, Obligations(e, q), SettlementRuns.Run(digest, Obligations(e, q), w, steps));
  }

  /** Over every run, whatever is paid on a claim is paid by the guarantor to the beneficiary. */
  lemma {:induction false} ClaimPaidByGuarantor(e: Environment, q: Request, digest: Digester, w: SettlementRuns.World,
                                                steps: seq<SettlementRuns.Step>, payer: string, payee: string)
    requires Paying(e, q) && SettlementRuns.Initial(digest, Obligations(e, q), w)
    ensures var os := Obligations(e, q); var r := SettlementRuns.Run(digest, os, w, steps);
            && SettlementRuns.Counted(r)
            && SettlementRuns.PaidBetween(os, r, payer, payee)
               == if payer == q.terms.guarantorAgentId && payee == q.terms.beneficiaryAgentId
                  then SettlementRuns.TotalPaid(r) else 0.0
  {
    var os := Obligations(e, q);
    ClaimPaidWithinApproved(e, q, digest, w, steps);
    forall i | 0 <= i < |os|
      ensures os[i].payerAgentId == q.terms.guarantorAgentId && os[i].payeeAgentId == q.terms.beneficiaryAgentId
    {
      PieceExact(e, q, 0);
      ObligationAt(e, q, i);
    }
    SettlementRuns.OneDebtor(os, SettlementRuns.Run(digest, os, w, steps), q.terms.guarantorAgentId,
                             q.terms.beneficiaryAgentId, payer, payee);
  }
}
