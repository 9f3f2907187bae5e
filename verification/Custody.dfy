/**
 The byte strings custody authorities sign: direct payments (schemas 1, 2 and 3, the last
 with an optional sponsorship extension), generic contract effects, and prediction-market
 effects.  On valid bodies every preimage determines the whole body, and no preimage of
 one type is a preimage of another.
 */
module Custody {
  import opened Text
  import opened Framing

  type Int32 = n: int | -0x8000_0000 <= n < 0x8000_0000

  type Uint64 = n: nat | n < 0x1_0000_0000_0000_0000

  datatype NetworkDomain = NetworkDomain(
    networkId: string, globalId: Int32, zeroStateRootHash: string, zeroStateFileHash: string, workchainId: Int32)

  /** `CustodyActionAuthorization` without its public key and proof, which are blanked before signing. */
  datatype ActionBody = ActionBody(
    schema: nat, authorityId: string, ownerId: string, agentId: string, sourceAccount: string, networkId: string,
    networkGlobalId: Int32, domain: Option<NetworkDomain>, stableActionId: string, exactRequestDigest: string,
    paymentRequestDigest: string, sponsorFinality: string, sponsorRelease: string, sponsorSnapshot: string,
    writerGeneration: Uint64, writerFenceDigest: string, policyRevision: Uint64, mandateDigest: string,
    approvalDigest: string, agreementBodyDigest: string, obligationInstanceId: string, destination: string,
    amountAtomic: Uint64, expiresAt: Uint64)

  function ZeroDigest(): (s: string)
    ensures IsDigest(s)
  {
    SHA_PREFIX + seq(64, _ => '0')
  }

  /** `canonicalDigestOrZero`; the zero digest already has digest form. */
  predicate DigestOrZero(s: string) { s == ZeroDigest() || IsDigest(s) }

  predicate ValidDomain(d: NetworkDomain) {
    BoundedIdentifier(d.networkId, 128) && d.globalId != 0 && IsDigest(d.zeroStateRootHash)
        && IsDigest(d.zeroStateFileHash)
  }

  /** `validateCustodyAuthorizationNetwork`. */
  predicate ValidNetwork(schema: nat, networkId: string, globalId: Int32, domain: Option<NetworkDomain>) {
    if schema == 1 then globalId != 0 && domain.None?
    else if schema == 2 || schema == 3 then
      domain.Some? && ValidDomain(domain.value) && domain.value.networkId == networkId
          && domain.value.globalId == globalId
    else false
  }

  function Sponsorship(b: ActionBody): seq<string> {
    [b.sponsorFinality, b.sponsorRelease, b.sponsorSnapshot]
  }

  predicate NoSponsor(b: ActionBody) {
    b.sponsorFinality == "" && b.sponsorRelease == "" && b.sponsorSnapshot == ""
  }

  predicate ValidAction(b: ActionBody) {
    && 1 <= b.schema <= 3
    && BoundedIdentifier(b.authorityId, 256) && BoundedIdentifier(b.ownerId, 256) && BoundedIdentifier(b.agentId, 256)
    && BoundedIdentifier(b.sourceAccount, 256) && BoundedIdentifier(b.networkId, 128)
    && ValidNetwork(b.schema, b.networkId, b.networkGlobalId, b.domain)
    && IsDigest(b.stableActionId) && IsDigest(b.exactRequestDigest)
    && (if b.schema == 3 then IsDigest(b.paymentRequestDigest) else b.paymentRequestDigest == "")
    && (NoSponsor(b) || (b.schema == 3 && IsDigest(b.sponsorFinality) && IsDigest(b.sponsorRelease)
                         && IsDigest(b.sponsorSnapshot)))
    && b.writerGeneration != 0 && IsDigest(b.writerFenceDigest) && b.policyRevision != 0
    && IsDigest(b.mandateDigest) && DigestOrZero(b.approvalDigest)
    && IsDigest(b.agreementBodyDigest) && IsDigest(b.obligationInstanceId)
    && BoundedIdentifier(b.destination, 256) && b.amountAtomic != 0 && b.expiresAt != 0
  }

  // ---------- layout ----------

  /** `binary.Write` of an int32: two's complement, big endian. */
  function SignedBytes(n: Int32): (s: string)
    ensures |s| == 4
  {
    BigEndian(4, if n < 0 then n + 0x1_0000_0000 else n)
  }

  function U64Bytes(n: Uint64): (s: string)
    ensures |s| == 8
  {
    BigEndian(8, n)
  }

  /** `writeLP32String`, one after another. */
  function Strings(values: seq<string>): string { Frames(4, values) }

  ghost predicate Short(values: seq<string>) {
    forall i | 0 <= i < |values| :: |values[i]| <= 256
  }

  /** `writeCustodyNetworkDomain`, followed by `rest`. */
  function DomainThen(d: NetworkDomain, rest: string): string {
    Strings([d.networkId]) + (SignedBytes(d.globalId)
      + (Strings([d.zeroStateRootHash, d.zeroStateFileHash]) + (SignedBytes(d.workchainId) + rest)))
  }

  /** Domain tag, schema version and the parties, followed by `rest`. */
  function Opening(magic: string, schema: nat, parties: seq<string>, rest: string): string {
    magic + (BigEndian(2, schema) + (Strings(parties) + rest))
  }

  // ---------- reading the bytes back ----------

  /** A signed 32-bit integer in two's complement. */
  function ReadSigned(s: string): Parsed<Int32> {
    var n := ReadInteger(4, s);
    PowerOfBytes();
    if n.Bad? then Bad
    else Got(if n.value < 0x8000_0000 then n.value else n.value - 0x1_0000_0000, n.rest)
  }

  function ReadU64(s: string): Parsed<Uint64> {
    var n := ReadInteger(8, s);
    PowerOfBytes();
    if n.Bad? then Bad else Got(n.value, n.rest)
  }

  function ReadStrings(count: nat, s: string): (r: Parsed<seq<string>>)
    ensures r.Got? ==> |r.value| == count
  {
    ReadTexts(4, count, s)
  }

  /** Network identifier, global identifier, the two zero-state hashes, workchain. */
  function ReadDomain(s: string): Parsed<NetworkDomain> {
    var network := ReadStrings(1, s);
    if network.Bad? then Bad
    else
      var global := ReadSigned(network.rest);
      if global.Bad? then Bad
      else
        var hashes := ReadStrings(2, global.rest);
        if hashes.Bad? then Bad
        else
          var workchain := ReadSigned(hashes.rest);
          if workchain.Bad? then Bad
          else Got(NetworkDomain(networkId := network.value[0], globalId := global.value,
                                 zeroStateRootHash := hashes.value[0], zeroStateFileHash := hashes.value[1],
                                 workchainId := workchain.value), workchain.rest)
  }

  datatype Header = Header(schema: nat, parties: seq<string>)

  /** The tag of the type, a 16-bit schema version, and the parties. */
  function ReadHeader(tag: string, count: nat, s: string): (r: Parsed<Header>)
    ensures r.Got? ==> |r.value.parties| == count
  {
    if !(tag <= s) then Bad
    else
      var schema := ReadInteger(2, s[|tag|..]);
      if schema.Bad? then Bad
      else
        var parties := ReadStrings(count, schema.rest);
        if parties.Bad? then Bad else Got(Header(schema.value, parties.value), parties.rest)
  }

  datatype Network = Network(globalId: Int32, domain: Option<NetworkDomain>)

  /** The global identifier, followed by the full domain from schema 2 on. */
  function ReadNetwork(schema: nat, s: string): Parsed<Network> {
    var global := ReadSigned(s);
    if global.Bad? then Bad
    else if schema == 1 then Got(Network(global.value, None), global.rest)
    else
      var domain := ReadDomain(global.rest);
      if domain.Bad? then Bad else Got(Network(global.value, Some(domain.value)), domain.rest)
  }

  datatype Tail = Tail(generation: Uint64, fence: string, revision: Uint64, terms: seq<string>, amount: Uint64,
                       cells: seq<string>, expiry: Uint64)

  /** Writer generation and fence, policy revision, terms, amount, cell digests, expiry, and no more bytes. */
  function ReadTail(terms: nat, cells: nat, s: string): (r: Option<Tail>)
    ensures r.Some? ==> |r.value.terms| == terms && |r.value.cells| == cells
  {
    var generation := ReadU64(s);
    if generation.Bad? then None
    else
      var fence := ReadStrings(1, generation.rest);
      if fence.Bad? then None
      else
        var revision := ReadU64(fence.rest);
        if revision.Bad? then None
        else
          var agreed := ReadStrings(terms, revision.rest);
          if agreed.Bad? then None
          else
            var end := ReadEnd(cells, agreed.rest);
            if end.None? then None
            else Some(Tail(generation.value, fence.value[0], revision.value, agreed.value, end.value.0, end.value.1,
                           end.value.2))
  }

  function ReadEnd(cells: nat, s: string): (r: Option<(Uint64, seq<string>, Uint64)>)
    ensures r.Some? ==> |r.value.1| == cells
  {
    var amount := ReadU64(s);
    if amount.Bad? then None
    else
      var hashes := ReadStrings(cells, amount.rest);
      if hashes.Bad? then None
      else
        var expiry := ReadU64(hashes.rest);
        if expiry.Bad? || expiry.rest != "" then None else Some((amount.value, hashes.value, expiry.value))
  }

  lemma {:induction false} SignedRead(n: Int32, rest: string)
    ensures ReadSigned(SignedBytes(n) + rest) == Got(n, rest)
  {
    PowerOfBytes();
    IntegerRead(4, if n < 0 then n + 0x1_0000_0000 else n, rest);
  }

  lemma {:induction false} U64Read(n: Uint64, rest: string)
    ensures ReadU64(U64Bytes(n) + rest) == Got(n, rest)
  {
    PowerOfBytes();
    IntegerRead(8, n, rest);
  }

  lemma {:induction false} StringsRead(values: seq<string>, rest: string)
    requires Short(values)
    ensures ReadStrings(|values|, Strings(values) + rest) == Got(values, rest)
  {
    PowerOfBytes();
    TextsRead(4, values, rest);
  }

  lemma {:induction false} DomainRead(d: NetworkDomain, rest: string)
    requires ValidDomain(d)
    ensures ReadDomain(DomainThen(d, rest)) == Got(d, rest)
  {
    var w, hashes := SignedBytes(d.workchainId) + rest, [d.zeroStateRootHash, d.zeroStateFileHash];
    StringsRead([d.networkId], SignedBytes(d.globalId) + (Strings(hashes) + w));
    SignedRead(d.globalId, Strings(hashes) + w);
    StringsRead(hashes, w);
    SignedRead(d.workchainId, rest);
  }

  lemma {:induction false} HeaderRead(tag: string, schema: nat, parties: seq<string>, rest: string)
    requires schema < 0x1_0000 && Short(parties)
    ensures ReadHeader(tag, |parties|, Opening(tag, schema, parties, rest)) == Got(Header(schema, parties), rest)
  {
    var s := Opening(tag, schema, parties, rest);
    assert s[|tag|..] == BigEndian(2, schema) + (Strings(parties) + rest);
    PowerOfBytes();
    IntegerRead(2, schema, Strings(parties) + rest);
    StringsRead(parties, rest);
  }

  lemma {:induction false} NetworkRead(schema: nat, globalId: Int32, domain: Option<NetworkDomain>, rest: string)
    requires schema != 1 ==> domain.Some? && ValidDomain(domain.value)
    requires schema == 1 ==> domain.None?
    ensures ReadNetwork(schema, SignedBytes(globalId)
                                + (if schema == 1 then rest else DomainThen(domain.value, rest)))
         == Got(Network(globalId, domain), rest)
  {
    SignedRead(globalId, if schema == 1 then rest else DomainThen(domain.value, rest));
    if schema != 1 {
      DomainRead(domain.value, rest);
    }
  }

  /** Everything from the writer generation on, in the order of the wire. */
  function TailBytes(t: Tail): string {
    U64Bytes(t.generation) + (Strings([t.fence])
      + (U64Bytes(t.revision) + (Strings(t.terms) + EndBytes(t.amount, t.cells, t.expiry))))
  }

  function EndBytes(amount: Uint64, cells: seq<string>, expiry: Uint64): string {
    U64Bytes(amount) + (Strings(cells) + U64Bytes(expiry))
  }

  lemma {:induction false} EndRead(amount: Uint64, cells: seq<string>, expiry: Uint64)
    requires Short(cells)
    ensures ReadEnd(|cells|, EndBytes(amount, cells, expiry)) == Some((amount, cells, expiry))
  {
    U64Read(amount, Strings(cells) + U64Bytes(expiry));
    StringsRead(cells, U64Bytes(expiry));
    assert U64Bytes(expiry) + "" == U64Bytes(expiry);
    U64Read(expiry, "");
  }

  lemma {:induction false} TailRead(t: Tail)
    requires Short([t.fence]) && Short(t.terms) && Short(t.cells)
    ensures ReadTail(|t.terms|, |t.cells|, TailBytes(t)) == Some(t)
  {
    var end := EndBytes(t.amount, t.cells, t.expiry);
    U64Read(t.generation, Strings([t.fence]) + (U64Bytes(t.revision) + (Strings(t.terms) + end)));
    StringsRead([t.fence], U64Bytes(t.revision) + (Strings(t.terms) + end));
    U64Read(t.revision, Strings(t.terms) + end);
    StringsRead(t.terms, end);
    EndRead(t.amount, t.cells, t.expiry);
  }

  // ---------- direct payments ----------

  const ACTION_MAGIC := "TOS-EAA\0"

  function ActionParties(b: ActionBody): seq<string> {
    [b.authorityId, b.ownerId, b.agentId, b.sourceAccount, b.networkId]
  }

  function ActionTerms(b: ActionBody): seq<string> {
    [b.mandateDigest, b.approvalDigest, b.agreementBodyDigest, b.obligationInstanceId, b.destination]
  }

  function ActionAmounts(b: ActionBody): string { U64Bytes(b.amountAtomic) + U64Bytes(b.expiresAt) }

  function ActionPolicy(b: ActionBody): string {
    U64Bytes(b.policyRevision) + (Strings(ActionTerms(b)) + ActionAmounts(b))
  }

  /** The writer's generation and fence, and everything after. */
  function ActionWriter(b: ActionBody): string {
    U64Bytes(b.writerGeneration) + (Strings([b.writerFenceDigest]) + ActionPolicy(b))
  }

  function ActionExtension(b: ActionBody): string {
    if b.schema != 3 then ActionWriter(b)
    else
      var rest := if NoSponsor(b) then ActionWriter(b) else Strings(Sponsorship(b)) + ActionWriter(b);
      Strings([b.paymentRequestDigest]) + rest
  }

  function ActionRequest(b: ActionBody): string {
    Strings([b.stableActionId, b.exactRequestDigest]) + ActionExtension(b)
  }

  function ActionNetwork(b: ActionBody): string
    requires b.schema != 1 ==> b.domain.Some?
  {
    SignedBytes(b.networkGlobalId)
        + (if b.schema == 1 then ActionRequest(b) else DomainThen(b.domain.value, ActionRequest(b)))
  }

  /** `custodyAuthorizationPreimage` on a valid body. */
  function ActionPreimage(b: ActionBody): string
    requires b.schema != 1 ==> b.domain.Some?
  {
    Opening(ACTION_MAGIC, b.schema, ActionParties(b), ActionNetwork(b))
  }

  /**
   A sponsorship digest is never read as a writer generation: nine bytes in, the one has
   a character of its digest text and the other the high byte of a length.
   */
  lemma {:induction false} SponsorNotWriter(a: ActionBody, b: ActionBody)
    requires ValidAction(a) && ValidAction(b) && !NoSponsor(a) && NoSponsor(b)
    ensures Strings(Sponsorship(a)) + ActionWriter(a) != ActionWriter(b)
  {
    var s, w := Strings(Sponsorship(a)) + ActionWriter(a), ActionWriter(b);
    SponsorByte(a, ActionWriter(a));
    WriterByte(b);
    assert s[8] == '5' && w[8] == '\0';
  }

  /** A byte of the first text of a list lies behind the four bytes of its length. */
  lemma {:induction false} FirstText(values: seq<string>, rest: string, k: nat)
    requires values != [] && k < |values[0]|
    ensures |Strings(values) + rest| > 4 + k && (Strings(values) + rest)[4 + k] == values[0][k]
  {
    var first := LengthPrefixed(4, values[0]);
    assert Strings(values) == first + Frames(4, values[1..]);
    assert first[4 + k] == values[0][k];
  }

  lemma {:induction false} SponsorByte(a: ActionBody, rest: string)
    requires IsDigest(a.sponsorFinality)
    ensures |Strings(Sponsorship(a)) + rest| > 8 && (Strings(Sponsorship(a)) + rest)[8] == '5'
  {
    FirstText(Sponsorship(a), rest, 4);
    assert a.sponsorFinality[4] == a.sponsorFinality[..7][4];
  }

  lemma {:induction false} WriterByte(b: ActionBody)
    requires IsDigest(b.writerFenceDigest)
    ensures |ActionWriter(b)| > 8 && ActionWriter(b)[8] == '\0'
  {
    var fence := LengthPrefixed(4, b.writerFenceDigest);
    assert Strings([b.writerFenceDigest]) == fence + Frames(4, [b.writerFenceDigest][1..]);
    assert ActionWriter(b)[8] == fence[0];
    assert fence[0] == BigEndian(4, 71)[0];
    SmallLengthByte(71);
  }

  /** The first byte of a four-byte length below 2^24 is zero. */
  lemma {:induction false} SmallLengthByte(n: nat)
    requires n < 0x100_0000
    ensures BigEndian(4, n)[0] == '\0'
  {
    assert n / 256 / 256 / 256 == 0;
    assert BigEndian(4, n)[0] == BigEndian(3, n / 256)[0];
    assert BigEndian(3, n / 256)[0] == BigEndian(2, n / 256 / 256)[0];
    assert BigEndian(2, n / 256 / 256)[0] == BigEndian(1, n / 256 / 256 / 256)[0];
  }

  function ActionDigests(b: ActionBody): seq<string> { [b.stableActionId, b.exactRequestDigest] }

  lemma {:induction false} ShortFive(a: string, b: string, c: string, d: string, e: string)
    requires |a| <= 256 && |b| <= 256 && |c| <= 256 && |d| <= 256 && |e| <= 256
    ensures Short([a, b, c, d, e])
  {
  }

  lemma {:induction false} ActionShort(b: ActionBody)
    requires ValidAction(b)
    ensures Short(ActionParties(b)) && Short(ActionTerms(b))
  {
    ShortFive(b.authorityId, b.ownerId, b.agentId, b.sourceAccount, b.networkId);
    ShortFive(b.mandateDigest, b.approvalDigest, b.agreementBodyDigest, b.obligationInstanceId, b.destination);
  }

  /** The payment request of schema 3 and, unless the writer generation follows at once, the sponsorship. */
  function ReadExtension(schema: nat, s: string): (r: Parsed<seq<string>>)
    ensures r.Got? ==> |r.value| == 4
  {
    if schema != 3 then Got(["", "", "", ""], s)
    else
      var request := ReadStrings(1, s);
      if request.Bad? then Bad
      else if |request.rest| <= 8 || request.rest[8] == '\0' then Got(request.value + ["", "", ""], request.rest)
      else
        var sponsorship := ReadStrings(3, request.rest);
        if sponsorship.Bad? then Bad else Got(request.value + sponsorship.value, sponsorship.rest)
  }

  /** The wire format of a direct payment, read field by field. */
  function ReadAction(s: string): Option<ActionBody> {
    var header := ReadHeader("TOS-EAA\0", 5, s);
    if header.Bad? then None
    else
      var schema := header.value.schema;
      var network := ReadNetwork(schema, header.rest);
      if network.Bad? then None
      else
        var digests := ReadStrings(2, network.rest);
        if digests.Bad? then None
        else
          var extension := ReadExtension(schema, digests.rest);
          if extension.Bad? then None
          else
            var tail := ReadTail(5, 0, extension.rest);
            if tail.None? then None
            else Some(ActionOf(schema, header.value.parties, network.value, digests.value, extension.value,
                               tail.value))
  }

  function ActionOf(schema: nat, parties: seq<string>, network: Network, digests: seq<string>, extension: seq<string>,
                    tail: Tail): ActionBody
    requires |parties| == 5 && |digests| == 2 && |extension| == 4 && |tail.terms| == 5
  {
    ActionBody(
      schema := schema, authorityId := parties[0], ownerId := parties[1], agentId := parties[2],
      sourceAccount := parties[3], networkId := parties[4], networkGlobalId := network.globalId,
      domain := network.domain, stableActionId := digests[0], exactRequestDigest := digests[1],
      paymentRequestDigest := extension[0], sponsorFinality := extension[1], sponsorRelease := extension[2],
      sponsorSnapshot := extension[3], writerGeneration := tail.generation, writerFenceDigest := tail.fence,
      policyRevision := tail.revision, mandateDigest := tail.terms[0], approvalDigest := tail.terms[1],
      agreementBodyDigest := tail.terms[2], obligationInstanceId := tail.terms[3], destination := tail.terms[4],
      amountAtomic := tail.amount, expiresAt := tail.expiry)
  }

  function ActionTail(b: ActionBody): Tail {
    Tail(b.writerGeneration, b.writerFenceDigest, b.policyRevision, ActionTerms(b), b.amountAtomic, [], b.expiresAt)
  }

  function ActionExtras(b: ActionBody): seq<string> { [b.paymentRequestDigest] + Sponsorship(b) }

  lemma {:induction false} WriterIsTail(b: ActionBody)
    ensures ActionWriter(b) == TailBytes(ActionTail(b))
  {
    assert Strings([]) + U64Bytes(b.expiresAt) == U64Bytes(b.expiresAt);
  }

  lemma {:induction false} ExtensionRead(b: ActionBody)
    requires ValidAction(b)
    ensures ReadExtension(b.schema, ActionExtension(b)) == Got(ActionExtras(b), ActionWriter(b))
  {
    if b.schema == 3 {
      var rest := if NoSponsor(b) then ActionWriter(b) else Strings(Sponsorship(b)) + ActionWriter(b);
      StringsRead([b.paymentRequestDigest], rest);
      if NoSponsor(b) {
        WriterByte(b);
      } else {
        SponsorByte(b, ActionWriter(b));
        StringsRead(Sponsorship(b), ActionWriter(b));
      }
    }
    assert NoSponsor(b) ==> ActionExtras(b) == [b.paymentRequestDigest] + ["", "", ""];
    assert b.schema != 3 ==> [b.paymentRequestDigest] + ["", "", ""] == ["", "", "", ""];
  }

  lemma {:induction false} ActionFromParts(s: string, h: Parsed<Header>, n: Parsed<Network>, d: Parsed<seq<string>>,
                                           x: Parsed<seq<string>>, t: Tail)
    requires h.Got? && n.Got? && d.Got? && x.Got? && ReadHeader("TOS-EAA\0", 5, s) == h
    requires ReadNetwork(h.value.schema, h.rest) == n && ReadStrings(2, n.rest) == d
    requires ReadExtension(h.value.schema, d.rest) == x && ReadTail(5, 0, x.rest) == Some(t)
    ensures ReadAction(s) == Some(ActionOf(h.value.schema, h.value.parties, n.value, d.value, x.value, t))
  {
  }

  /** The bytes signed for a direct payment read back as its body: every field lies where the wire format puts it. */
  lemma {:induction false} ActionReads(b: ActionBody)
    requires ValidAction(b)
    ensures ReadAction(ActionPreimage(b)) == Some(b)
  {
    ActionShort(b);
    HeaderRead(ACTION_MAGIC, b.schema, ActionParties(b), ActionNetwork(b));
    NetworkRead(b.schema, b.networkGlobalId, b.domain, ActionRequest(b));
    StringsRead(ActionDigests(b), ActionExtension(b));
    ExtensionRead(b);
    WriterIsTail(b);
    TailRead(ActionTail(b));
    ActionFromParts(ActionPreimage(b), Got(Header(b.schema, ActionParties(b)), ActionNetwork(b)),
                    Got(Network(b.networkGlobalId, b.domain), ActionRequest(b)),
                    Got(ActionDigests(b), ActionExtension(b)), Got(ActionExtras(b), ActionWriter(b)), ActionTail(b));
    ActionFields(b);
  }

  lemma {:induction false} ActionFields(b: ActionBody)
    ensures ActionOf(b.schema, ActionParties(b), Network(b.networkGlobalId, b.domain), ActionDigests(b),
                     ActionExtras(b), ActionTail(b)) == b
  {
  }

  /** Across schemas 1, 2 and 3, with or without sponsorship, the signed bytes determine the body. */
  lemma {:induction false} ActionInjective(a: ActionBody, b: ActionBody)
    requires ValidAction(a) && ValidAction(b) && ActionPreimage(a) == ActionPreimage(b)
    ensures a == b
  {
    ActionReads(a);
    ActionReads(b);
  }

  // ---------- writing the buffer ----------

  /** The `for` loops over `writeLP32String`. */
  method AppendStrings(output: string, values: seq<string>) returns (r: string)
    ensures r == output + Strings(values)
  {
    r := output;
    assert values[0..] == values;
    for i := 0 to |values|
      invariant r + Strings(values[i..]) == output + Strings(values)
    {
      assert values[i..][0] == values[i] && values[i..][1..] == values[i + 1..];
      Associative(r, LengthPrefixed(4, values[i]), Strings(values[i + 1..]));
      r := r + LengthPrefixed(4, values[i]);
    }
    assert values[|values|..] == [];
    assert r + "" == r;
  }

  /** `writeCustodyNetworkDomain`. */
  method AppendDomain(output: string, d: NetworkDomain, ghost rest: string) returns (r: string)
    ensures r + rest == output + DomainThen(d, rest)
  {
    ghost var z := Strings([d.zeroStateRootHash, d.zeroStateFileHash]);
    ghost var w := SignedBytes(d.workchainId);
    ghost var g := SignedBytes(d.globalId);
    Associative(output, Strings([d.networkId]), g + (z + (w + rest)));
    r := AppendStrings(output, [d.networkId]);
    Associative(r, g, z + (w + rest));
    r := r + SignedBytes(d.globalId);
    Associative(r, z, w + rest);
    r := AppendStrings(r, [d.zeroStateRootHash, d.zeroStateFileHash]);
    Associative(r, w, rest);
    r := r + SignedBytes(d.workchainId);
  }

  method AppendOpening(magic: string, schema: nat, parties: seq<string>, ghost rest: string) returns (r: string)
    ensures r + rest == Opening(magic, schema, parties, rest)
  {
    Associative(magic, BigEndian(2, schema), Strings(parties) + rest);
    Associative(magic + BigEndian(2, schema), Strings(parties), rest);
    r := AppendStrings(magic + BigEndian(2, schema), parties);
  }

  /** From the writer generation to the end. */
  method AppendWriter(output: string, b: ActionBody) returns (r: string)
    ensures r == output + ActionWriter(b)
  {
    Associative(output, U64Bytes(b.writerGeneration), Strings([b.writerFenceDigest]) + ActionPolicy(b));
    r := output + U64Bytes(b.writerGeneration);
    Associative(r, Strings([b.writerFenceDigest]), ActionPolicy(b));
    r := AppendStrings(r, [b.writerFenceDigest]);
    Associative(r, U64Bytes(b.policyRevision), Strings(ActionTerms(b)) + ActionAmounts(b));
    r := r + U64Bytes(b.policyRevision);
    Associative(r, Strings(ActionTerms(b)), ActionAmounts(b));
    r := AppendStrings(r, ActionTerms(b));
    Associative(r, U64Bytes(b.amountAtomic), U64Bytes(b.expiresAt));
    r := r + U64Bytes(b.amountAtomic);
    r := r + U64Bytes(b.expiresAt);
  }

  method AppendExtension(output: string, b: ActionBody) returns (r: string)
    ensures r == output + ActionExtension(b)
  {
    var sponsorship := Sponsorship(b);
    var present := 0;
    for i := 0 to |sponsorship|
      invariant present == 0 <==> forall k | 0 <= k < i :: sponsorship[k] == ""
      invariant present >= 0
    {
      if sponsorship[i] != "" {
        present := present + 1;
      }
    }
    assert NoSponsor(b) <==> sponsorship[0] == "" && sponsorship[1] == "" && sponsorship[2] == "";
    r := output;
    if b.schema == 3 {
      ghost var rest := if NoSponsor(b) then ActionWriter(b) else Strings(sponsorship) + ActionWriter(b);
      Associative(r, Strings([b.paymentRequestDigest]), rest);
      r := AppendStrings(r, [b.paymentRequestDigest]);
      if present != 0 {
        Associative(r, Strings(sponsorship), ActionWriter(b));
        r := AppendStrings(r, sponsorship);
      }
    }
    r := AppendWriter(r, b);
  }

  /** `custodyAuthorizationPreimage`: validation, then the buffer field by field. */
  method CustodyAuthorizationPreimage(b: ActionBody) returns (r: Result<string>)
    ensures r.Ok? <==> ValidAction(b)
    ensures r.Ok? ==> r.value == ActionPreimage(b)
  {
    if !ValidAction(b) {
      return Err;
    }
    var output := AppendOpening(ACTION_MAGIC, b.schema, ActionParties(b), ActionNetwork(b));
    ghost var request := ActionRequest(b);
    Associative(output, SignedBytes(b.networkGlobalId),
                if b.schema == 1 then request else DomainThen(b.domain.value, request));
    output := output + SignedBytes(b.networkGlobalId);
    if b.schema == 2 || b.schema == 3 {
      output := AppendDomain(output, b.domain.value, request);
    }
    Associative(output, Strings(ActionDigests(b)), ActionExtension(b));
    output := AppendStrings(output, ActionDigests(b));
    output := AppendExtension(output, b);
    return Ok(output);
  }

  // ---------- contract effects ----------

  datatype EffectBody = EffectBody(
    schema: nat, authorityId: string, ownerId: string, agentId: string, sourceAccount: string, networkId: string,
    networkGlobalId: Int32, domain: Option<NetworkDomain>, actionKind: string, stableActionId: string,
    exactRequestDigest: string, writerGeneration: Uint64, writerFenceDigest: string, policyRevision: Uint64,
    mandateDigest: string, approvalDigest: string, agreementBodyDigest: string, obligationId: string,
    destination: string, amount: Uint64, bodyHash: string, stateInitHash: string, expiresAt: Uint64)

  const CELL_PREFIX := "tvm-cell-sha256:"

  /** `custodyCellDigestPattern`. */
  predicate IsCellDigest(s: string) {
    |s| == 80 && s[..16] == CELL_PREFIX && forall i | 16 <= i < 80 :: LowerHex(s[i])
  }

  predicate ValidEffect(b: EffectBody) {
    && 1 <= b.schema <= 2
    && BoundedIdentifier(b.authorityId, 256) && BoundedIdentifier(b.ownerId, 256) && BoundedIdentifier(b.agentId, 256)
    && BoundedIdentifier(b.sourceAccount, 256) && BoundedIdentifier(b.networkId, 128)
    && ValidNetwork(b.schema, b.networkId, b.networkGlobalId, b.domain)
    && CanonicalLowerToken(b.actionKind) && IsDigest(b.stableActionId) && IsDigest(b.exactRequestDigest)
    && b.writerGeneration != 0 && IsDigest(b.writerFenceDigest) && b.policyRevision != 0
    && IsDigest(b.mandateDigest) && DigestOrZero(b.approvalDigest) && IsDigest(b.agreementBodyDigest)
    && BoundedIdentifier(b.obligationId, 256) && BoundedIdentifier(b.destination, 256) && b.amount != 0
    && IsCellDigest(b.bodyHash) && (IsCellDigest(b.stateInitHash) || b.stateInitHash == ZeroDigest())
       && b.expiresAt != 0
  }

  const EFFECT_MAGIC := "TOS-CEA\0"

  function EffectParties(b: EffectBody): seq<string> {
    [b.authorityId, b.ownerId, b.agentId, b.sourceAccount, b.networkId]
  }

  function EffectKinds(b: EffectBody): seq<string> { [b.actionKind, b.stableActionId, b.exactRequestDigest] }

  function EffectTerms(b: EffectBody): seq<string> {
    [b.mandateDigest, b.approvalDigest, b.agreementBodyDigest, b.obligationId, b.destination]
  }

  function EffectCells(b: EffectBody): seq<string> { [b.bodyHash, b.stateInitHash] }

  function EffectPolicy(b: EffectBody): string {
    U64Bytes(b.policyRevision) + (Strings(EffectTerms(b))
      + (U64Bytes(b.amount) + (Strings(EffectCells(b)) + U64Bytes(b.expiresAt))))
  }

  function EffectRequest(b: EffectBody): string {
    Strings(EffectKinds(b)) + (U64Bytes(b.writerGeneration) + (Strings([b.writerFenceDigest]) + EffectPolicy(b)))
  }

  function EffectNetwork(b: EffectBody): string
    requires b.schema != 1 ==> b.domain.Some?
  {
    SignedBytes(b.networkGlobalId)
        + (if b.schema == 1 then EffectRequest(b) else DomainThen(b.domain.value, EffectRequest(b)))
  }

  function EffectPreimage(b: EffectBody): string
    requires b.schema != 1 ==> b.domain.Some?
  {
    Opening(EFFECT_MAGIC, b.schema, EffectParties(b), EffectNetwork(b))
  }

  /** `custodyEffectPreimage`. */
  method CustodyEffectPreimage(b: EffectBody) returns (r: Result<string>)
    ensures r.Ok? <==> ValidEffect(b)
    ensures r.Ok? ==> r.value == EffectPreimage(b)
  {
    if !ValidEffect(b) {
      return Err;
    }
    var output := AppendOpening(EFFECT_MAGIC, b.schema, EffectParties(b), EffectNetwork(b));
    ghost var request := EffectRequest(b);
    Associative(output, SignedBytes(b.networkGlobalId),
                if b.schema == 1 then request else DomainThen(b.domain.value, request));
    output := output + SignedBytes(b.networkGlobalId);
    if b.schema == 2 {
      output := AppendDomain(output, b.domain.value, request);
    }
    output := AppendEffectRequest(output, b);
    return Ok(output);
  }

  method AppendEffectRequest(output: string, b: EffectBody) returns (r: string)
    ensures r == output + EffectRequest(b)
  {
    Associative(output, Strings(EffectKinds(b)),
                U64Bytes(b.writerGeneration) + (Strings([b.writerFenceDigest]) + EffectPolicy(b)));
    r := AppendStrings(output, EffectKinds(b));
    Associative(r, U64Bytes(b.writerGeneration), Strings([b.writerFenceDigest]) + EffectPolicy(b));
    r := r + U64Bytes(b.writerGeneration);
    Associative(r, Strings([b.writerFenceDigest]), EffectPolicy(b));
    r := AppendStrings(r, [b.writerFenceDigest]);
    ghost var cells := Strings(EffectCells(b)) + U64Bytes(b.expiresAt);
    Associative(r, U64Bytes(b.policyRevision), Strings(EffectTerms(b)) + (U64Bytes(b.amount) + cells));
    r := r + U64Bytes(b.policyRevision);
    Associative(r, Strings(EffectTerms(b)), U64Bytes(b.amount) + cells);
    r := AppendStrings(r, EffectTerms(b));
    Associative(r, U64Bytes(b.amount), cells);
    r := r + U64Bytes(b.amount);
    Associative(r, Strings(EffectCells(b)), U64Bytes(b.expiresAt));
    r := AppendStrings(r, EffectCells(b));
    r := r + U64Bytes(b.expiresAt);
  }

  lemma {:induction false} EffectShort(b: EffectBody)
    requires ValidEffect(b)
    ensures Short(EffectParties(b)) && Short(EffectTerms(b)) && Short(EffectKinds(b)) && Short(EffectCells(b))
  {
    ShortFive(b.authorityId, b.ownerId, b.agentId, b.sourceAccount, b.networkId);
    ShortFive(b.mandateDigest, b.approvalDigest, b.agreementBodyDigest, b.obligationId, b.destination);
    ShortFive(b.actionKind, b.stableActionId, b.exactRequestDigest, b.bodyHash, b.stateInitHash);
    assert EffectKinds(b) == [b.actionKind, b.stableActionId, b.exactRequestDigest, b.bodyHash, b.stateInitHash][..3];
    assert EffectCells(b) == [b.actionKind, b.stableActionId, b.exactRequestDigest, b.bodyHash, b.stateInitHash][3..];
  }


  /** The wire format of a contract effect, read field by field. */
  function ReadEffect(s: string): Option<EffectBody> {
    var header := ReadHeader("TOS-CEA\0", 5, s);
    if header.Bad? then None
    else
      var schema := header.value.schema;
      var network := ReadNetwork(schema, header.rest);
      if network.Bad? then None
      else
        var kinds := ReadStrings(3, network.rest);
        if kinds.Bad? then None
        else
          var tail := ReadTail(5, 2, kinds.rest);
          if tail.None? then None
          else Some(EffectOf(schema, header.value.parties, network.value, kinds.value, tail.value))
  }

  function EffectOf(schema: nat, parties: seq<string>, network: Network, kinds: seq<string>, tail: Tail): EffectBody
    requires |parties| == 5 && |kinds| == 3 && |tail.terms| == 5 && |tail.cells| == 2
  {
    EffectBody(
      schema := schema, authorityId := parties[0], ownerId := parties[1], agentId := parties[2],
      sourceAccount := parties[3], networkId := parties[4], networkGlobalId := network.globalId,
      domain := network.domain, actionKind := kinds[0], stableActionId := kinds[1], exactRequestDigest := kinds[2],
      writerGeneration := tail.generation, writerFenceDigest := tail.fence, policyRevision := tail.revision,
      mandateDigest := tail.terms[0], approvalDigest := tail.terms[1], agreementBodyDigest := tail.terms[2],
      obligationId := tail.terms[3], destination := tail.terms[4], amount := tail.amount, bodyHash := tail.cells[0],
      stateInitHash := tail.cells[1], expiresAt := tail.expiry)
  }

  function EffectTail(b: EffectBody): Tail {
    Tail(b.writerGeneration, b.writerFenceDigest, b.policyRevision, EffectTerms(b), b.amount, EffectCells(b),
         b.expiresAt)
  }

  /** The bytes signed for a contract effect read back as its body. */
  lemma {:induction false} EffectReads(b: EffectBody)
    requires ValidEffect(b)
    ensures ReadEffect(EffectPreimage(b)) == Some(b)
  {
    EffectShort(b);
    HeaderRead(EFFECT_MAGIC, b.schema, EffectParties(b), EffectNetwork(b));
    NetworkRead(b.schema, b.networkGlobalId, b.domain, EffectRequest(b));
    StringsRead(EffectKinds(b), TailBytes(EffectTail(b)));
    TailRead(EffectTail(b));
    EffectFields(b);
  }

  lemma {:induction false} EffectFields(b: EffectBody)
    ensures EffectOf(b.schema, EffectParties(b), Network(b.networkGlobalId, b.domain), EffectKinds(b), EffectTail(b))
         == b
  {
  }

  /** The signed bytes of a contract effect determine the body, across schemas 1 and 2. */
  lemma {:induction false} EffectInjective(a: EffectBody, b: EffectBody)
    requires ValidEffect(a) && ValidEffect(b) && EffectPreimage(a) == EffectPreimage(b)
    ensures a == b
  {
    EffectReads(a);
    EffectReads(b);
  }
}
