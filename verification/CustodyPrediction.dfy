/**
 Prediction-market custody effects, whose preimage writes the market address once for two
 fields that validation forces to agree, and the separation of the three preimage types.
 */
module CustodyPrediction {
  import opened Text
  import opened Framing
  import opened Custody

  datatype PredictionBody = PredictionBody(
    schema: nat, profile: string, authorityId: string, ownerId: string, agentId: string, sourceAccount: string,
    sourceCodeHash: string, domain: NetworkDomain, actionKind: string, effectKind: string, stableActionId: string,
    exactRequestDigest: string, writerGeneration: Uint64, writerFenceDigest: string, policyRevision: Uint64,
    mandateDigest: string, approvalDigest: string, marketId: string, marketAddress: string, destination: string,
    marketConfigHash: string, marketCodeHash: string, amount: Uint64, bodyHash: string, expiresAt: Uint64)

  const PREDICTION_PROFILE := "tos.prediction.checked-call.v1"
  const PREDICTION_MAGIC := "TOS-PCEA\0"

  predicate IsPredictionKind(kind: string) {
    kind in {
      "prediction.collateral.deposit", "prediction.reserve.top-up", "prediction.trading-key.rotate",
      "prediction.order.cancel-exact", "prediction.order.nonce-floor.raise", "prediction.match.submit",
      "prediction.position.split", "prediction.position.merge", "prediction.position.claim",
      "prediction.collateral.withdraw", "prediction.resolution.report", "prediction.resolution.challenge",
      "prediction.resolution.finalize", "prediction.challenge-bond.withdraw", "prediction.market.advance-phase",
      "prediction.market.compact", "prediction.terminal-surplus.withdraw"}
  }

  predicate NonZeroFrom(s: string, start: nat) {
    exists i | start <= i < |s| :: s[i] != '0'
  }

  /** `canonicalNonZeroDigest` over the two digest patterns. */
  predicate NonZeroDigest(s: string) { IsDigest(s) && NonZeroFrom(s, 7) }

  predicate NonZeroCellDigest(s: string) { IsCellDigest(s) && NonZeroFrom(s, 16) }

  /** The address parser: the workchain of a canonical raw address. */
  type AddressParser = string -> Option<int>

  predicate ValidAddress(parse: AddressParser, address: string, workchain: int) {
    parse(address) == Some(workchain) && (workchain == -1 || workchain == 0)
  }

  predicate ValidPrediction(parse: AddressParser, b: PredictionBody) {
    && b.schema == 1 && b.profile == PREDICTION_PROFILE
    && BoundedIdentifier(b.authorityId, 256) && BoundedIdentifier(b.ownerId, 256) && BoundedIdentifier(b.agentId, 256)
    && ValidAddress(parse, b.sourceAccount, b.domain.workchainId)
       && ValidAddress(parse, b.marketAddress, b.domain.workchainId)
    && b.sourceAccount != b.marketAddress && ValidDomain(b.domain)
    && IsPredictionKind(b.actionKind) && b.effectKind == b.actionKind
    && IsDigest(b.stableActionId) && IsDigest(b.exactRequestDigest)
    && b.writerGeneration != 0 && IsDigest(b.writerFenceDigest) && b.policyRevision != 0
    && IsDigest(b.mandateDigest) && DigestOrZero(b.approvalDigest) && NonZeroDigest(b.marketId)
    && b.destination == b.marketAddress
    && NonZeroCellDigest(b.sourceCodeHash) && NonZeroCellDigest(b.marketConfigHash)
       && NonZeroCellDigest(b.marketCodeHash)
    && 0 < b.amount <= 0xFFFF_FFFF_FFFF && IsCellDigest(b.bodyHash) && b.expiresAt != 0
  }

  function Parties(b: PredictionBody): seq<string> {
    [b.profile, b.authorityId, b.ownerId, b.agentId, b.sourceAccount, b.sourceCodeHash]
  }

  function Kinds(b: PredictionBody): seq<string> {
    [b.actionKind, b.effectKind, b.stableActionId, b.exactRequestDigest]
  }

  function Terms(b: PredictionBody): seq<string> {
    [b.mandateDigest, b.approvalDigest, b.marketId, b.marketAddress, b.marketConfigHash, b.marketCodeHash]
  }

  function Closing(b: PredictionBody): string {
    U64Bytes(b.amount) + (Strings([b.bodyHash]) + U64Bytes(b.expiresAt))
  }

  function Policy(b: PredictionBody): string {
    U64Bytes(b.policyRevision) + (Strings(Terms(b)) + Closing(b))
  }

  function Request(b: PredictionBody): string {
    Strings(Kinds(b)) + (U64Bytes(b.writerGeneration) + (Strings([b.writerFenceDigest]) + Policy(b)))
  }

  function Preimage(b: PredictionBody): string {
    Opening(PREDICTION_MAGIC, b.schema, Parties(b), DomainThen(b.domain, Request(b)))
  }

  /** `predictionCustodyEffectPreimageV1`. */
  method PredictionCustodyEffectPreimage(parse: AddressParser, b: PredictionBody) returns (r: Result<string>)
    ensures r.Ok? <==> ValidPrediction(parse, b)
    ensures r.Ok? ==> r.value == Preimage(b)
  {
    if !ValidPrediction(parse, b) {
      return Err;
    }
    var output := AppendOpening(PREDICTION_MAGIC, b.schema, Parties(b), DomainThen(b.domain, Request(b)));
    output := AppendDomain(output, b.domain, Request(b));
    output := AppendRequest(output, b);
    return Ok(output);
  }

  method AppendRequest(output: string, b: PredictionBody) returns (r: string)
    ensures r == output + Request(b)
  {
    Associative(output, Strings(Kinds(b)), U64Bytes(b.writerGeneration) + (Strings([b.writerFenceDigest]) + Policy(b)));
    r := AppendStrings(output, Kinds(b));
    Associative(r, U64Bytes(b.writerGeneration), Strings([b.writerFenceDigest]) + Policy(b));
    r := r + U64Bytes(b.writerGeneration);
    Associative(r, Strings([b.writerFenceDigest]), Policy(b));
    r := AppendStrings(r, [b.writerFenceDigest]);
    Associative(r, U64Bytes(b.policyRevision), Strings(Terms(b)) + Closing(b));
    r := r + U64Bytes(b.policyRevision);
    Associative(r, Strings(Terms(b)), Closing(b));
    r := AppendStrings(r, Terms(b));
    Associative(r, U64Bytes(b.amount), Strings([b.bodyHash]) + U64Bytes(b.expiresAt));
    r := r + U64Bytes(b.amount);
    Associative(r, Strings([b.bodyHash]), U64Bytes(b.expiresAt));
    r := AppendStrings(r, [b.bodyHash]);
    r := r + U64Bytes(b.expiresAt);
  }

  // ---------- injectivity ----------

  lemma {:induction false} ShortSix(a: string, b: string, c: string, d: string, e: string, f: string)
    requires |a| <= 256 && |b| <= 256 && |c| <= 256 && |d| <= 256 && |e| <= 256 && |f| <= 256
    ensures Short([a, b, c, d, e, f])
  {
  }

  lemma {:induction false} KindShort(kind: string)
    requires IsPredictionKind(kind)
    ensures |kind| <= 256
  {
  }

  /** Canonical raw addresses are short: at most a sign, a workchain digit, a colon and 64 hexadecimal digits. */
  ghost predicate ShortAddresses(parse: AddressParser) {
    forall a :: parse(a).Some? ==> |a| <= 256
  }

  lemma {:induction false} AllShort(parse: AddressParser, b: PredictionBody)
    requires ShortAddresses(parse) && ValidPrediction(parse, b)
    ensures Short(Parties(b)) && Short(Kinds(b)) && Short(Terms(b))
  {
    KindShort(b.actionKind);
    ShortSix(b.profile, b.authorityId, b.ownerId, b.agentId, b.sourceAccount, b.sourceCodeHash);
    ShortSix(b.mandateDigest, b.approvalDigest, b.marketId, b.marketAddress, b.marketConfigHash, b.marketCodeHash);
    ShortSix(b.actionKind, b.effectKind, b.stableActionId, b.exactRequestDigest, "", "");
    assert Kinds(b) == [b.actionKind, b.effectKind, b.stableActionId, b.exactRequestDigest, "", ""][..4];
  }

  /** The wire format of a prediction-market effect, read field by field; the destination is the market. */
  function ReadPrediction(s: string): Option<PredictionBody> {
    var header := ReadHeader("TOS-PCEA\0", 6, s);
    if header.Bad? then None
    else
      var domain := ReadDomain(header.rest);
      if domain.Bad? then None
      else
        var kinds := ReadStrings(4, domain.rest);
        if kinds.Bad? then None
        else
          var tail := ReadTail(6, 1, kinds.rest);
          if tail.None? then None
          else Some(PredictionOf(header.value.schema, header.value.parties, domain.value, kinds.value, tail.value))
  }

  function PredictionOf(schema: nat, parties: seq<string>, domain: NetworkDomain, kinds: seq<string>,
                        tail: Tail): PredictionBody
    requires |parties| == 6 && |kinds| == 4 && |tail.terms| == 6 && |tail.cells| == 1
  {
    PredictionBody(
      schema := schema, profile := parties[0], authorityId := parties[1], ownerId := parties[2],
      agentId := parties[3], sourceAccount := parties[4], sourceCodeHash := parties[5], domain := domain,
      actionKind := kinds[0], effectKind := kinds[1], stableActionId := kinds[2], exactRequestDigest := kinds[3],
      writerGeneration := tail.generation, writerFenceDigest := tail.fence, policyRevision := tail.revision,
      mandateDigest := tail.terms[0], approvalDigest := tail.terms[1], marketId := tail.terms[2],
      marketAddress := tail.terms[3], destination := tail.terms[3], marketConfigHash := tail.terms[4],
      marketCodeHash := tail.terms[5], amount := tail.amount, bodyHash := tail.cells[0], expiresAt := tail.expiry)
  }

  function PredictionTail(b: PredictionBody): Tail {
    Tail(b.writerGeneration, b.writerFenceDigest, b.policyRevision, Terms(b), b.amount, [b.bodyHash], b.expiresAt)
  }

  lemma {:induction false} ShortReads(b: PredictionBody)
    requires Short(Parties(b)) && Short(Kinds(b)) && Short(Terms(b)) && Short([b.writerFenceDigest])
    requires Short([b.bodyHash]) && ValidDomain(b.domain) && b.schema == 1 && b.destination == b.marketAddress
    ensures ReadPrediction(Preimage(b)) == Some(b)
  {
    HeaderRead(PREDICTION_MAGIC, b.schema, Parties(b), DomainThen(b.domain, Request(b)));
    DomainRead(b.domain, Request(b));
    StringsRead(Kinds(b), TailBytes(PredictionTail(b)));
    TailRead(PredictionTail(b));
    PredictionFields(b);
  }

  /** The bytes signed for a prediction-market effect read back as its body. */
  lemma {:induction false} PredictionReads(parse: AddressParser, b: PredictionBody)
    requires ShortAddresses(parse) && ValidPrediction(parse, b)
    ensures ReadPrediction(Preimage(b)) == Some(b)
  {
    AllShort(parse, b);
    ShortReads(b);
  }

  lemma {:induction false} PredictionFields(b: PredictionBody)
    requires b.destination == b.marketAddress
    ensures PredictionOf(b.schema, Parties(b), b.domain, Kinds(b), PredictionTail(b)) == b
  {
  }

  /** The signed bytes determine the body. */
  lemma {:induction false} PredictionInjective(parse: AddressParser, a: PredictionBody, b: PredictionBody)
    requires ShortAddresses(parse) && ValidPrediction(parse, a) && ValidPrediction(parse, b)
        && Preimage(a) == Preimage(b)
    ensures a == b
  {
    PredictionReads(parse, a);
    PredictionReads(parse, b);
  }

  /** No bytes are signed as two different types of authorization. */
  lemma {:induction false} TypesDisjoint(action: ActionBody, effect: EffectBody, prediction: PredictionBody)
    requires ValidAction(action) && ValidEffect(effect)
    ensures ActionPreimage(action) != EffectPreimage(effect)
    ensures ActionPreimage(action) != Preimage(prediction)
    ensures EffectPreimage(effect) != Preimage(prediction)
  {
    ActionTag(action);
    EffectTag(effect);
    PredictionTag(prediction);
  }

  lemma {:induction false} TagByte(magic: string, schema: nat, parties: seq<string>, rest: string)
    requires |magic| > 4
    ensures |Opening(magic, schema, parties, rest)| > 4 && Opening(magic, schema, parties, rest)[4] == magic[4]
  {
  }

  lemma {:induction false} ActionTag(b: ActionBody)
    requires b.schema != 1 ==> b.domain.Some?
    ensures |ActionPreimage(b)| > 4 && ActionPreimage(b)[4] == 'E'
  {
    TagByte(ACTION_MAGIC, b.schema, ActionParties(b), ActionNetwork(b));
  }

  lemma {:induction false} EffectTag(b: EffectBody)
    requires b.schema != 1 ==> b.domain.Some?
    ensures |EffectPreimage(b)| > 4 && EffectPreimage(b)[4] == 'C'
  {
    TagByte(EFFECT_MAGIC, b.schema, EffectParties(b), EffectNetwork(b));
  }

  lemma {:induction false} PredictionTag(b: PredictionBody)
    ensures |Preimage(b)| > 4 && Preimage(b)[4] == 'P'
  {
    TagByte(PREDICTION_MAGIC, b.schema, Parties(b), DomainThen(b.domain, Request(b)));
  }
}
