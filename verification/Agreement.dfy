/**
 Agreement bodies: structure, the obligation graph, and the authorization targets that are
 computed from everything except themselves.  Preparing fills the targets in, validating
 strips them and prepares again.
 */
module Agreement {
  import opened Text
  import opened Amounts
  import opened AgreementTypes
  import opened Framing
  import opened Graph

  const MAX_INT64: nat := 0x7FFF_FFFF_FFFF_FFFF

  datatype Participant = Participant(agentId: string, roles: seq<string>)

  datatype Subject = Subject(kind: string, namespace: string, identifier: string, representedAgentId: string)

  /** The part of a predicate that the targets commit to. */
  datatype Policy = Policy(
    predicateId: string, subject: Subject, roleScope: seq<string>, obligationIds: seq<string>, profileUri: string,
    profileVersion: nat, profileDigest: string, validFrom: nat, expiresAt: nat, requiredExtensions: seq<string>,
    optionalExtensions: seq<string>)

  datatype AuthorizationPredicate = AuthorizationPredicate(policy: Policy, target: string)

  /** Everything in a body except its authorization predicates. */
  datatype Core = Core(
    schema: nat, agreementId: string, version: nat, predecessorDigest: string, networkContext: string,
    participants: seq<Participant>, referencedIntents: seq<string>, termsContentType: string, terms: string,
    attachmentDigests: seq<string>, obligations: seq<Obligation>, requiredExtensions: seq<string>,
    optionalExtensions: map<string, string>, validFrom: nat, expiresAt: nat)

  datatype Body = Body(core: Core, predicates: seq<AuthorizationPredicate>)

  const AGENT_SIGNATURE := "tos.agreement.evidence.agent-signature.v1"
  const AUTHORITY_SIGNATURE := "tos.agreement.evidence.authority-signature.v1"
  const PAID_DEMAND_QUOTE := "tos.agreement.evidence.paid-demand-quote.v1"

  /** Canonical encoders, the hash, and the digests of the three built-in evidence profiles. */
  datatype Environment = Environment(
    marshalCore: Core -> Result<string>, marshalPolicy: seq<Policy> -> Result<string>, h: string -> string,
    agentProfile: string, authorityProfile: string, quoteProfile: string)

  // ---------- structure ----------

  predicate ValidSubject(s: Subject) {
    && s.kind in {"agent", "wallet", "custody_principal", "key_owner", "data_owner", "capability_owner"}
    && BoundedIdentifier(s.namespace, 128) && BoundedIdentifier(s.identifier, 256)
    && (if s.kind == "agent" then s.representedAgentId == "" else BoundedIdentifier(s.representedAgentId, 256))
  }

  predicate ValidEnvelope(c: Core) {
    && c.schema == 1 && BoundedIdentifier(c.agreementId, 256) && c.version != 0
       && BoundedIdentifier(c.networkContext, 256)
    && 0 < c.validFrom <= MAX_INT64 && c.validFrom < c.expiresAt <= MAX_INT64
    && BoundedIdentifier(c.termsContentType, 128) && 0 < |c.terms| <= 0x4_0000
    && (c.version == 1 ==> c.predecessorDigest == "") && (c.version > 1 ==> IsDigest(c.predecessorDigest))
    && SortedDigests(c.referencedIntents, 128) && SortedDigests(c.attachmentDigests, 256)
    && SortedIdentifiers(c.requiredExtensions, 64, 256) && |c.optionalExtensions| <= 64
    && forall name | name in c.optionalExtensions ::
         BoundedIdentifier(name, 256) && |c.optionalExtensions[name]| <= 0x4_0000
  }

  predicate ValidParticipants(ps: seq<Participant>) {
    && 2 <= |ps| <= 64
    && (forall i | 0 <= i < |ps| ::
          BoundedIdentifier(ps[i].agentId, 256) && ps[i].roles != [] && SortedIdentifiers(ps[i].roles, 32, 128))
    && (forall i | 0 < i < |ps| :: Less(ps[i - 1].agentId, ps[i].agentId))
  }

  predicate Participates(ps: seq<Participant>, agent: string) {
    exists i | 0 <= i < |ps| :: ps[i].agentId == agent
  }

  /** Well-known profile URIs are bound to their descriptor and subject kinds. */
  predicate BuiltInProfile(env: Environment, p: Policy) {
    && (p.profileUri == AGENT_SIGNATURE ==>
          p.profileVersion == 1 && p.profileDigest == env.agentProfile && p.subject.kind == "agent")
    && (p.profileUri == AUTHORITY_SIGNATURE ==>
          p.profileVersion == 1 && p.profileDigest == env.authorityProfile && p.subject.kind != "agent")
    && (p.profileUri == PAID_DEMAND_QUOTE ==>
          p.profileVersion == 1 && p.profileDigest == env.quoteProfile
              && (p.subject.kind == "agent" || p.subject.kind == "wallet"))
  }

  predicate ValidPolicy(env: Environment, p: Policy) {
    && BoundedIdentifier(p.predicateId, 128) && ValidSubject(p.subject)
    && SortedIdentifiers(p.roleScope, 32, 128) && SortedIdentifiers(p.obligationIds, 256, 128) && p.obligationIds != []
    && BoundedIdentifier(p.profileUri, 256) && p.profileVersion != 0 && IsDigest(p.profileDigest)
    && p.validFrom <= MAX_INT64 && 0 < p.expiresAt <= MAX_INT64 && p.validFrom <= p.expiresAt
    && SortedIdentifiers(p.requiredExtensions, 64, 256) && SortedIdentifiers(p.optionalExtensions, 64, 256)
    && BuiltInProfile(env, p)
  }

  predicate ValidPolicies(env: Environment, ps: seq<Policy>) {
    && 0 < |ps| <= 512
    && (forall i | 0 <= i < |ps| :: ValidPolicy(env, ps[i]))
    && (forall i | 0 < i < |ps| :: Less(ps[i - 1].predicateId, ps[i].predicateId))
  }

  predicate ValidObligation(ps: seq<Participant>, o: Obligation) {
    && BoundedIdentifier(o.obligationId, 128) && BoundedIdentifier(o.kind, 64)
    && Participates(ps, o.obligorAgentId) && (o.beneficiaryAgentId == "" || Participates(ps, o.beneficiaryAgentId))
    && BoundedIdentifier(o.subjectContentType, 128) && 0 < |o.subject| <= 0x4_0000
    && SortedDigests(o.attachmentDigests, 256) && SortedIdentifiers(o.dependsOn, 256, 128)
    && SortedIdentifiers(o.acceptanceRequirements, 64, 256) && SortedIdentifiers(o.predicateIds, 512, 128)
    && o.predicateIds != [] && SortedIdentifiers(o.requiredExtensions, 64, 256)
    && SortedIdentifiers(o.optionalExtensions, 64, 256) && BoundedIdentifier(o.confidentialityPolicy, 256)
    && BoundedIdentifier(o.cancellationPolicy, 256) && BoundedIdentifier(o.disputePolicy, 256)
    && (o.notBefore == 0 || o.expiresAt == 0 || o.notBefore < o.expiresAt)
    && (o.dueAt == 0 || o.expiresAt == 0 || o.dueAt <= o.expiresAt)
    && ValidSettlement(o)
  }

  predicate ValidSettlement(o: Obligation) {
    if o.amount.Some? then
      && ValidAmount(o.amount.value) && BoundedIdentifier(o.settlementAdapterUri, 256) && o.settlementParameters != ""
      && (o.billing.Some? ==> ValidBillingTerms(o.billing.value, o.amount.value))
    else o.settlementAdapterUri == "" && o.settlementParameters == "" && o.billing.None?
  }

  predicate ValidObligations(ps: seq<Participant>, os: seq<Obligation>) {
    && 0 < |os| <= 256
    && (forall i | 0 <= i < |os| :: ValidObligation(ps, os[i]))
    && (forall i, j | 0 <= i < j < |os| :: os[i].obligationId != os[j].obligationId)
  }

  predicate Names(os: seq<Obligation>, id: string) {
    exists i | 0 <= i < |os| :: os[i].obligationId == id
  }

  /** The predicate speaks for the obligor: it is the obligor, or represents it. */
  predicate SpeaksFor(s: Subject, agent: string) {
    if s.kind == "agent" then s.identifier == agent else s.representedAgentId == agent
  }

  predicate InScope(ps: seq<Policy>, id: string, obligationId: string) {
    exists k | 0 <= k < |ps| :: ps[k].predicateId == id && obligationId in ps[k].obligationIds
  }

  predicate ObligorPredicate(ps: seq<Policy>, o: Obligation, k: nat) {
    k < |ps| && ps[k].predicateId in o.predicateIds && SpeaksFor(ps[k].subject, o.obligorAgentId)
  }

  predicate ListsObligor(o: Obligation, ps: seq<Policy>) {
    exists k | 0 <= k < |ps| :: ObligorPredicate(ps, o, k)
  }

  predicate ObligorsPresent(os: seq<Obligation>, ps: seq<Policy>) {
    forall i | 0 <= i < |os| :: ListsObligor(os[i], ps)
  }

  /** Cross references between obligations and predicates, obligors aside. */
  predicate Referenced(os: seq<Obligation>, ps: seq<Policy>) {
    && (forall k, j | 0 <= k < |ps| && 0 <= j < |ps[k].obligationIds| :: Names(os, ps[k].obligationIds[j]))
    && (forall i, j | 0 <= i < |os| && 0 <= j < |os[i].predicateIds| ::
          InScope(ps, os[i].predicateIds[j], os[i].obligationId))
    && (forall i, j | 0 <= i < |os| && 0 <= j < |os[i].dependsOn| ::
          Names(os, os[i].dependsOn[j]) && os[i].dependsOn[j] != os[i].obligationId)
  }

  function DependencyEdges(os: seq<Obligation>): Edges {
    if os == [] then map[]
    else DependencyEdges(os[..|os| - 1])[os[|os| - 1].obligationId := os[|os| - 1].dependsOn]
  }

  predicate Shaped(env: Environment, c: Core, ps: seq<Policy>) {
    && ValidEnvelope(c) && ValidParticipants(c.participants) && ValidPolicies(env, ps)
    && ValidObligations(c.participants, c.obligations) && Referenced(c.obligations, ps)
    && ObligorsPresent(c.obligations, ps)
  }

  /** Everything `validateAgreementBody` checks that does not involve a target. */
  ghost predicate Sound(env: Environment, c: Core, ps: seq<Policy>) {
    Shaped(env, c, ps) && !Cyclic(DependencyEdges(c.obligations))
  }

  /** The checks of `Sound` other than the one on obligors. */
  ghost predicate SoundButObligors(env: Environment, c: Core, ps: seq<Policy>) {
    && ValidEnvelope(c) && ValidParticipants(c.participants) && ValidPolicies(env, ps)
    && ValidObligations(c.participants, c.obligations) && Referenced(c.obligations, ps)
    && !Cyclic(DependencyEdges(c.obligations))
  }

  /** An obligation lists a predicate whose subject is its obligor or represents it. */
  ghost predicate HasObligor(o: Obligation, ps: seq<Policy>) {
    exists p | p in ps ::
      && p.predicateId in o.predicateIds
      && ((p.subject.kind == "agent" && p.subject.identifier == o.obligorAgentId)
          || (p.subject.kind != "agent" && p.subject.representedAgentId == o.obligorAgentId))
  }

  /**
   Obligors decide: a body that meets every other check is refused exactly when some obligation
   lists no predicate of its obligor, neither its own nor one that represents it.
   */
  lemma {:induction false} ObligorsDecide(env: Environment, b: Body)
    requires SoundButObligors(env, b.core, Policies(b.predicates)) && TargetsEmpty(b)
    ensures !ValidBody(env, b, false) <==>
            exists o | o in b.core.obligations :: !HasObligor(o, Policies(b.predicates))
  {
    ObligorsExactly(b.core.obligations, Policies(b.predicates));
    ValidWithObligors(env, b);
  }

  lemma {:induction false} ValidWithObligors(env: Environment, b: Body)
    requires SoundButObligors(env, b.core, Policies(b.predicates)) && TargetsEmpty(b)
    ensures ValidBody(env, b, false) <==> ObligorsPresent(b.core.obligations, Policies(b.predicates))
  {
  }

  lemma {:induction false} ObligorsExactly(os: seq<Obligation>, ps: seq<Policy>)
    ensures ObligorsPresent(os, ps) <==> forall o | o in os :: HasObligor(o, ps)
  {
    if ObligorsPresent(os, ps) {
      forall o | o in os
        ensures HasObligor(o, ps)
      {
        var i :| 0 <= i < |os| && os[i] == o;
        ObligorIndex(os[i], ps);
      }
    }
    if forall o | o in os :: HasObligor(o, ps) {
      forall i | 0 <= i < |os|
        ensures ListsObligor(os[i], ps)
      {
        assert os[i] in os;
        ObligorIndex(os[i], ps);
      }
    }
  }

  /** In a valid body every obligation has its obligor's predicate. */
  lemma {:induction false} ValidHasObligor(env: Environment, b: Body, requireTargets: bool, i: nat)
    requires ValidBody(env, b, requireTargets) && i < |b.core.obligations|
    ensures HasObligor(b.core.obligations[i], Policies(b.predicates))
  {
    ObligorIndex(b.core.obligations[i], Policies(b.predicates));
  }

  lemma {:induction false} ObligorIndex(o: Obligation, ps: seq<Policy>)
    ensures HasObligor(o, ps) <==> ListsObligor(o, ps)
  {
    if HasObligor(o, ps) {
      var p :| p in ps && p.predicateId in o.predicateIds && SpeaksFor(p.subject, o.obligorAgentId);
      var k :| 0 <= k < |ps| && ps[k] == p;
      assert ObligorPredicate(ps, o, k);
    }
    if k :| 0 <= k < |ps| && ObligorPredicate(ps, o, k) {
      assert ps[k] in ps;
    }
  }

  lemma {:induction false} ObligorAt(o: Obligation, ps: seq<Policy>) returns (k: nat)
    requires HasObligor(o, ps)
    ensures ObligorPredicate(ps, o, k)
  {
    ObligorIndex(o, ps);
    k :| 0 <= k < |ps| && ObligorPredicate(ps, o, k);
  }

  ghost predicate KnownObligation(os: seq<Obligation>, id: string) { exists o | o in os :: o.obligationId == id }

  ghost predicate CoveredBy(o: Obligation, ps: seq<Policy>, id: string) {
    exists p | p in ps :: p.predicateId == id && o.obligationId in p.obligationIds
  }

  /**
   Obligations and predicates point at each other: predicates cover known obligations, an
   obligation lists only predicates that cover it and depends only on other known obligations.
   */
  ghost predicate Linked(os: seq<Obligation>, ps: seq<Policy>) {
    && (forall p, id | p in ps && id in p.obligationIds :: KnownObligation(os, id))
    && (forall o, id | o in os && id in o.predicateIds :: CoveredBy(o, ps, id))
    && (forall o, id | o in os && id in o.dependsOn :: id != o.obligationId && KnownObligation(os, id))
  }

  lemma {:induction false} NamesExactly(os: seq<Obligation>, id: string)
    ensures Names(os, id) <==> KnownObligation(os, id)
  {
    if i :| 0 <= i < |os| && os[i].obligationId == id {
      assert os[i] in os;
    }
  }

  lemma {:induction false} InScopeExactly(o: Obligation, ps: seq<Policy>, id: string)
    ensures InScope(ps, id, o.obligationId) <==> CoveredBy(o, ps, id)
  {
    if k :| 0 <= k < |ps| && ps[k].predicateId == id && o.obligationId in ps[k].obligationIds {
      assert ps[k] in ps;
    }
  }

  /** Every valid body is linked up, and its obligors and beneficiaries take part in it. */
  lemma {:induction false} ValidBodyLinked(env: Environment, b: Body, requireTargets: bool)
    requires ValidBody(env, b, requireTargets)
    ensures Linked(b.core.obligations, Policies(b.predicates))
    ensures forall o | o in b.core.obligations ::
              && (exists p | p in b.core.participants :: p.agentId == o.obligorAgentId)
              && (o.beneficiaryAgentId == ""
                  || exists p | p in b.core.participants :: p.agentId == o.beneficiaryAgentId)
  {
    LinkedParts(b.core.obligations, Policies(b.predicates));
    forall o | o in b.core.obligations
      ensures exists p | p in b.core.participants :: p.agentId == o.obligorAgentId
      ensures o.beneficiaryAgentId == "" || exists p | p in b.core.participants :: p.agentId == o.beneficiaryAgentId
    {
      ParticipantsKnown(b.core.participants, o);
    }
  }

  /** A predicate under a well-known profile carries that profile's digest and a subject it can speak for. */
  lemma {:induction false} ProfilesBound(env: Environment, b: Body, requireTargets: bool, p: Policy)
    requires ValidBody(env, b, requireTargets) && p in Policies(b.predicates)
    ensures p.profileUri == "tos.agreement.evidence.agent-signature.v1" ==>
              p.profileVersion == 1 && p.profileDigest == env.agentProfile && p.subject.kind == "agent"
    ensures p.profileUri == "tos.agreement.evidence.authority-signature.v1" ==>
              p.profileVersion == 1 && p.profileDigest == env.authorityProfile && p.subject.kind != "agent"
    ensures p.profileUri == "tos.agreement.evidence.paid-demand-quote.v1" ==>
              && p.profileVersion == 1 && p.profileDigest == env.quoteProfile
              && (p.subject.kind == "agent" || p.subject.kind == "wallet")
  {
    assert ValidPolicy(env, p);
  }

  lemma {:induction false} ParticipantsKnown(ps: seq<Participant>, o: Obligation)
    requires ValidObligation(ps, o)
    ensures exists p | p in ps :: p.agentId == o.obligorAgentId
    ensures o.beneficiaryAgentId == "" || exists p | p in ps :: p.agentId == o.beneficiaryAgentId
  {
    var i :| 0 <= i < |ps| && ps[i].agentId == o.obligorAgentId;
    assert ps[i] in ps;
    if o.beneficiaryAgentId != "" {
      var j :| 0 <= j < |ps| && ps[j].agentId == o.beneficiaryAgentId;
      assert ps[j] in ps;
    }
  }

  lemma {:induction false} LinkedParts(os: seq<Obligation>, ps: seq<Policy>)
    requires Referenced(os, ps)
    ensures Linked(os, ps)
  {
    forall p, id | p in ps && id in p.obligationIds
      ensures KnownObligation(os, id)
    {
      var k :| 0 <= k < |ps| && ps[k] == p;
      var j :| 0 <= j < |p.obligationIds| && p.obligationIds[j] == id;
      assert Names(os, ps[k].obligationIds[j]);
      NamesExactly(os, id);
    }
    forall o, id | o in os && id in o.predicateIds
      ensures CoveredBy(o, ps, id)
    {
      var i :| 0 <= i < |os| && os[i] == o;
      var j :| 0 <= j < |o.predicateIds| && o.predicateIds[j] == id;
      assert InScope(ps, os[i].predicateIds[j], os[i].obligationId);
      InScopeExactly(o, ps, id);
    }
    forall o, id | o in os && id in o.dependsOn
      ensures id != o.obligationId && KnownObligation(os, id)
    {
      var i :| 0 <= i < |os| && os[i] == o;
      var j :| 0 <= j < |o.dependsOn| && o.dependsOn[j] == id;
      assert Names(os, os[i].dependsOn[j]);
      NamesExactly(os, id);
    }
  }

  /** The graph has one node per obligation, with exactly its dependencies as successors. */
  lemma {:induction false} DependencyEdgesExact(os: seq<Obligation>, i: nat)
    requires (forall k, j | 0 <= k < j < |os| :: os[k].obligationId != os[j].obligationId) && i < |os|
    ensures os[i].obligationId in DependencyEdges(os) && DependencyEdges(os)[os[i].obligationId] == os[i].dependsOn
  {
    if i < |os| - 1 {
      DependencyEdgesExact(os[..|os| - 1], i);
    }
  }

  // ---------- targets ----------

  const CORE_DOMAIN := "tos.agreement-core.v1\0"
  const POLICY_DOMAIN := "tos.agreement-authorization-policy.v1\0"
  const TARGET_DOMAIN := "tos.agreement-authorization-target.v1\0"

  function Policies(ps: seq<AuthorizationPredicate>): (r: seq<Policy>)
    ensures |r| == |ps|
  {
    seq(|ps|, i requires 0 <= i < |ps| => ps[i].policy)
  }

  /** The message under `framedSHA256`. */
  function Framed(domain: string, canonical: string): string {
    domain + (BigEndian(4, |canonical|) + canonical)
  }

  function TargetMessage(h: string -> string, core: string, policy: string, predicateId: string): string {
    TARGET_DOMAIN + (h(Framed(CORE_DOMAIN, core))
                     + (h(Framed(POLICY_DOMAIN, policy)) + (BigEndian(2, |predicateId|) + predicateId)))
  }

  function Target(h: string -> string, core: string, policy: string, predicateId: string): string {
    DigestText(h(TargetMessage(h, core, policy, predicateId)))
  }

  function WithTargets(ps: seq<AuthorizationPredicate>, targets: seq<string>): (r: seq<AuthorizationPredicate>)
    requires |ps| == |targets|
    ensures |r| == |ps|
  {
    seq(|ps|, i requires 0 <= i < |ps| => ps[i].(target := targets[i]))
  }

  function Stripped(b: Body): Body {
    b.(predicates := WithTargets(b.predicates, seq(|b.predicates|, _ => "")))
  }

  function Targets(h: string -> string, core: string, policy: string, ps: seq<Policy>): (r: seq<string>)
    ensures |r| == |ps|
  {
    seq(|ps|, i requires 0 <= i < |ps| => Target(h, core, policy, ps[i].predicateId))
  }

  ghost predicate TargetsEmpty(b: Body) { forall i | 0 <= i < |b.predicates| :: b.predicates[i].target == "" }

  ghost predicate TargetsAreDigests(b: Body) { forall i | 0 <= i < |b.predicates| :: IsDigest(b.predicates[i].target) }

  ghost predicate SameTargets(a: Body, b: Body) {
    |a.predicates| == |b.predicates|
        && forall i | 0 <= i < |a.predicates| :: a.predicates[i].target == b.predicates[i].target
  }

  /** `PrepareAgreementTargets`. */
  ghost function Prepared(env: Environment, b: Body): Result<Body>
    decreases 1
  {
    var ps := Policies(b.predicates);
    var core, policy := env.marshalCore(b.core), env.marshalPolicy(ps);
    if !ValidBody(env, b, false) || core.Err? || policy.Err? then Err
    else Ok(b.(predicates := WithTargets(b.predicates, Targets(env.h, core.value, policy.value, ps))))
  }

  /** `validateAgreementBody`: with targets required, they are stripped and computed again. */
  ghost predicate ValidBody(env: Environment, b: Body, requireTargets: bool)
    decreases if requireTargets then 2 else 0
  {
    && Sound(env, b.core, Policies(b.predicates))
    && (if requireTargets then
          TargetsAreDigests(b) && var p := Prepared(env, Stripped(b)); p.Ok? && SameTargets(b, p.value)
        else TargetsEmpty(b))
  }

  // ---------- prepare and validate agree ----------

  lemma {:induction false} PoliciesIgnoreTargets(ps: seq<AuthorizationPredicate>, targets: seq<string>)
    requires |ps| == |targets|
    ensures Policies(WithTargets(ps, targets)) == Policies(ps)
  {
  }

  lemma {:induction false} StripUndoes(b: Body, targets: seq<string>)
    requires TargetsEmpty(b) && |targets| == |b.predicates|
    ensures Stripped(b.(predicates := WithTargets(b.predicates, targets))) == b
  {
    var p := b.(predicates := WithTargets(b.predicates, targets));
    assert Stripped(p).predicates == b.predicates;
  }

  lemma {:induction false} SameTargetsEqual(a: Body, b: Body)
    requires a.core == b.core && Policies(a.predicates) == Policies(b.predicates) && SameTargets(a, b)
    ensures a == b
  {
    forall i | 0 <= i < |a.predicates|
      ensures a.predicates[i] == b.predicates[i]
    {
      assert Policies(a.predicates)[i] == Policies(b.predicates)[i];
    }
    assert a.predicates == b.predicates;
  }

  /** Every body that preparation accepts is valid once prepared. */
  lemma {:induction false} PrepareThenValidate(env: Environment, b: Body)
    requires IsHash(env.h) && Prepared(env, b).Ok?
    ensures ValidBody(env, Prepared(env, b).value, true)
  {
    var ps := Policies(b.predicates);
    var targets := Targets(env.h, env.marshalCore(b.core).value, env.marshalPolicy(ps).value, ps);
    PoliciesIgnoreTargets(b.predicates, targets);
    StripUndoes(b, targets);
    var p := Prepared(env, b).value;
    forall i | 0 <= i < |p.predicates|
      ensures IsDigest(p.predicates[i].target)
    {
      assert p.predicates[i].target == targets[i];
    }
  }

  /**
   The valid bodies are exactly the results of preparation: a body is valid iff preparing its
   stripped form gives it back.
   */
  lemma {:induction false} ValidIffPrepared(env: Environment, b: Body)
    requires IsHash(env.h)
    ensures ValidBody(env, b, true) <==> Prepared(env, Stripped(b)) == Ok(b)
  {
    PoliciesIgnoreTargets(b.predicates, seq(|b.predicates|, _ => ""));
    var q := Prepared(env, Stripped(b));
    if ValidBody(env, b, true) {
      var s := Stripped(b);
      var ps := Policies(s.predicates);
      PoliciesIgnoreTargets(s.predicates,
                            Targets(env.h, env.marshalCore(s.core).value, env.marshalPolicy(ps).value, ps));
      SameTargetsEqual(b, q.value);
    }
    if q == Ok(b) {
      PrepareThenValidate(env, Stripped(b));
    }
  }

  /** The target a valid body carries for its i-th predicate. */
  lemma {:induction false} ValidTarget(env: Environment, b: Body, i: nat)
    requires IsHash(env.h) && ValidBody(env, b, true) && i < |b.predicates|
    ensures var core, policy := env.marshalCore(b.core), env.marshalPolicy(Policies(b.predicates));
            && core.Ok? && policy.Ok?
            && b.predicates[i].target == Target(env.h, core.value, policy.value, b.predicates[i].policy.predicateId)
  {
    PoliciesIgnoreTargets(b.predicates, seq(|b.predicates|, _ => ""));
    var s := Stripped(b);
    var ps := Policies(s.predicates);
    var p := Prepared(env, s).value;
    assert p.predicates[i].target == Targets(env.h, env.marshalCore(s.core).value, env.marshalPolicy(ps).value, ps)[i];
  }

  // ---------- what a target commits to ----------

  /** The hashed messages behind one target. */
  ghost function TargetMessages(h: string -> string, core: string, policy: string, id: string): set<string> {
    {Framed(CORE_DOMAIN, core), Framed(POLICY_DOMAIN, policy), TargetMessage(h, core, policy, id)}
  }

  /** The domain tag, the hash of the core, the hash of the policy, and the predicate behind a 16-bit length. */
  function ReadTarget(s: string): Option<(string, string, string)> {
    if !("tos.agreement-authorization-target.v1\0" <= s) then None
    else
      var core := ReadBytes(32, s[38..]);
      if core.Bad? then None
      else
        var policy := ReadBytes(32, core.rest);
        if policy.Bad? then None
        else
          var id := ReadBytes(2, policy.rest);
          if id.Bad? || BigEndian(2, |id.rest|) != id.value then None else Some((core.value, policy.value, id.rest))
  }

  /** A domain tag and the canonical bytes behind a 32-bit length. */
  function ReadFramed(domain: string, s: string): Option<string> {
    if !(domain <= s) || |s| < |domain| + 4 then None
    else
      var canonical := s[|domain| + 4..];
      if s[|domain|..|domain| + 4] != BigEndian(4, |canonical|) then None else Some(canonical)
  }

  lemma {:induction false} FramedReads(domain: string, canonical: string)
    ensures ReadFramed(domain, Framed(domain, canonical)) == Some(canonical)
  {
    var s := Framed(domain, canonical);
    assert s[|domain|..|domain| + 4] == BigEndian(4, |canonical|) && s[|domain| + 4..] == canonical;
  }

  /** The hashed message of a target reads back as the two hashes and the predicate it was made from. */
  lemma {:induction false} TargetReads(h: string -> string, core: string, policy: string, id: string)
    requires IsHash(h)
    ensures ReadTarget(TargetMessage(h, core, policy, id))
         == Some((h(Framed("tos.agreement-core.v1\0", core)),
                  h(Framed("tos.agreement-authorization-policy.v1\0", policy)),
                  id))
  {
    var c, p := h(Framed(CORE_DOMAIN, core)), h(Framed(POLICY_DOMAIN, policy));
    var n := BigEndian(2, |id|);
    assert TargetMessage(h, core, policy, id)[38..] == c + (p + (n + id));
    BytesRead(c, p + (n + id));
    BytesRead(p, n + id);
    BytesRead(n, id);
  }

  lemma {:induction false} TargetInjective(h: string -> string, core: string, policy: string, id: string, core': string,
                                           policy': string, id': string)
    requires IsHash(h) && Target(h, core, policy, id) == Target(h, core', policy', id')
    requires CollisionFree(h, TargetMessages(h, core, policy, id) + TargetMessages(h, core', policy', id'))
    ensures core == core' && policy == policy' && id == id'
  {
    var m, m' := TargetMessage(h, core, policy, id), TargetMessage(h, core', policy', id');
    DigestTextInjective(h(m), h(m'));
    TargetReads(h, core, policy, id);
    TargetReads(h, core', policy', id');
    FramedReads(CORE_DOMAIN, core);
    FramedReads(CORE_DOMAIN, core');
    FramedReads(POLICY_DOMAIN, policy);
    FramedReads(POLICY_DOMAIN, policy');
  }

  /** Two valid bodies that share one target agree on the whole core and on the policy fields of every predicate. */
  lemma {:induction false} TargetBinds(env: Environment, a: Body, i: nat, b: Body, j: nat)
    requires IsHash(env.h) && ValidBody(env, a, true) && ValidBody(env, b, true)
    requires i < |a.predicates| && j < |b.predicates| && a.predicates[i].target == b.predicates[j].target
    requires env.marshalCore(a.core).Ok? && env.marshalPolicy(Policies(a.predicates)).Ok?
    requires env.marshalCore(b.core).Ok? && env.marshalPolicy(Policies(b.predicates)).Ok?
    requires env.marshalCore(a.core) == env.marshalCore(b.core) ==> a.core == b.core
    requires env.marshalPolicy(Policies(a.predicates)) == env.marshalPolicy(Policies(b.predicates)) ==>
               Policies(a.predicates) == Policies(b.predicates)
    requires CollisionFree(env.h,
      TargetMessages(env.h, env.marshalCore(a.core).value, env.marshalPolicy(Policies(a.predicates)).value,
                     a.predicates[i].policy.predicateId)
      + TargetMessages(env.h, env.marshalCore(b.core).value, env.marshalPolicy(Policies(b.predicates)).value,
                       b.predicates[j].policy.predicateId))
    ensures a.core == b.core && Policies(a.predicates) == Policies(b.predicates)
    ensures a.predicates[i].policy.predicateId == b.predicates[j].policy.predicateId
  {
    ValidTarget(env, a, i);
    ValidTarget(env, b, j);
    TargetInjective(env.h,
      env.marshalCore(a.core).value, env.marshalPolicy(Policies(a.predicates)).value,
          a.predicates[i].policy.predicateId,
      env.marshalCore(b.core).value, env.marshalPolicy(Policies(b.predicates)).value,
          b.predicates[j].policy.predicateId);
  }

  lemma {:induction false} PredicateIdsDistinct(ps: seq<Policy>, i: nat, j: nat)
    requires (forall k | 0 < k < |ps| :: Less(ps[k - 1].predicateId, ps[k].predicateId)) && i < j < |ps|
    ensures Less(ps[i].predicateId, ps[j].predicateId) && ps[i].predicateId != ps[j].predicateId
    decreases j
  {
    if i < j - 1 {
      PredicateIdsDistinct(ps, i, j - 1);
      LessTransitive(ps[i].predicateId, ps[j - 1].predicateId, ps[j].predicateId);
    }
    CompareZero(ps[i].predicateId, ps[j].predicateId);
  }

  /** No two predicates of a valid body share a target. */
  lemma {:induction false} TargetsDistinct(env: Environment, b: Body, i: nat, j: nat)
    requires IsHash(env.h) && ValidBody(env, b, true) && i < j < |b.predicates|
    requires env.marshalCore(b.core).Ok? && env.marshalPolicy(Policies(b.predicates)).Ok?
    requires CollisionFree(env.h,
      TargetMessages(env.h, env.marshalCore(b.core).value, env.marshalPolicy(Policies(b.predicates)).value,
                     b.predicates[i].policy.predicateId)
      + TargetMessages(env.h, env.marshalCore(b.core).value, env.marshalPolicy(Policies(b.predicates)).value,
                       b.predicates[j].policy.predicateId))
    ensures b.predicates[i].target != b.predicates[j].target
  {
    PredicateIdsDistinct(Policies(b.predicates), i, j);
    if b.predicates[i].target == b.predicates[j].target {
      TargetBinds(env, b, i, b, j);
    }
  }

  // ---------- the checks as run ----------

  method BuildEdges(os: seq<Obligation>) returns (edges: Edges)
    ensures edges == DependencyEdges(os)
  {
    edges := map[];
    for i := 0 to |os|
      invariant edges == DependencyEdges(os[..i])
    {
      assert os[..i + 1][..i] == os[..i];
      edges := edges[os[i].obligationId := os[i].dependsOn];
    }
    assert os[..|os|] == os;
  }

  type PolicyIndex = map<string, Policy>

  /** The index of the predicates by identifier. */
  ghost predicate Indexes(index: PolicyIndex, ps: seq<Policy>) {
    && (forall p | p in ps :: p.predicateId in index && index[p.predicateId] == p)
    && (forall id | id in index :: index[id] in ps && index[id].predicateId == id)
  }

  method IndexPolicies(ps: seq<Policy>) returns (index: PolicyIndex)
    requires forall i, j | 0 <= i < j < |ps| :: ps[i].predicateId != ps[j].predicateId
    ensures Indexes(index, ps)
  {
    index := map[];
    for k := 0 to |ps|
      invariant Indexes(index, ps[..k])
    {
      assert ps[..k + 1] == ps[..k] + [ps[k]];
      index := index[ps[k].predicateId := ps[k]];
    }
    assert ps[..|ps|] == ps;
  }

  /** The loop over the predicates an obligation lists. */
  method FindObligor(index: PolicyIndex, o: Obligation, ghost ps: seq<Policy>) returns (authorized: bool)
    requires Indexes(index, ps)
    ensures authorized <==> HasObligor(o, ps)
  {
    authorized := false;
    for j := 0 to |o.predicateIds|
      invariant authorized <==> exists p | p in ps ::
                  p.predicateId in o.predicateIds[..j] && SpeaksFor(p.subject, o.obligorAgentId)
    {
      var id := o.predicateIds[j];
      assert o.predicateIds[..j + 1] == o.predicateIds[..j] + [id];
      if id in index {
        var subject := index[id].subject;
        if (subject.kind == "agent" && subject.identifier == o.obligorAgentId)
           || (subject.kind != "agent" && subject.representedAgentId == o.obligorAgentId) {
          authorized := true;
        }
      }
    }
    assert o.predicateIds[..|o.predicateIds|] == o.predicateIds;
  }

  method CheckObligors(os: seq<Obligation>, ps: seq<Policy>) returns (ok: bool)
    requires forall i, j | 0 <= i < j < |ps| :: ps[i].predicateId != ps[j].predicateId
    ensures ok <==> ObligorsPresent(os, ps)
  {
    ObligorsExactly(os, ps);
    var index := IndexPolicies(ps);
    for i := 0 to |os|
      invariant forall k | 0 <= k < i :: HasObligor(os[k], ps)
    {
      var authorized := FindObligor(index, os[i], ps);
      if !authorized {
        return false;
      }
    }
    return true;
  }

  /**
   Structure and acyclicity; an accepted body comes with an order in which every obligation
   follows its dependencies.
   */
  method CheckSound(env: Environment, c: Core, ps: seq<Policy>) returns (ok: bool, ghost order: seq<string>)
    ensures ok <==> Sound(env, c, ps)
    ensures ok ==> TopologicalOrder(DependencyEdges(c.obligations), order)
  {
    if !ValidEnvelope(c) || !ValidParticipants(c.participants) || !ValidPolicies(env, ps)
       || !ValidObligations(c.participants, c.obligations) || !Referenced(c.obligations, ps) {
      return false, [];
    }
    forall i, j | 0 <= i < j < |ps|
      ensures ps[i].predicateId != ps[j].predicateId
    {
      PredicateIdsDistinct(ps, i, j);
    }
    var authorized := CheckObligors(c.obligations, ps);
    if !authorized {
      return false, [];
    }
    var edges := BuildEdges(c.obligations);
    var cycle;
    cycle, order := HasCycle(edges);
    return !cycle, order;
  }

  /** The loop that writes each target into the copied slice. */
  method WriteTargets(h: string -> string, core: string, policy: string, ps: seq<AuthorizationPredicate>)
      returns (prepared: seq<AuthorizationPredicate>)
    ensures prepared == WithTargets(ps, Targets(h, core, policy, Policies(ps)))
  {
    prepared := ps;
    for i := 0 to |prepared|
      invariant |prepared| == |ps|
      invariant forall k | 0 <= k < i ::
        prepared[k] == ps[k].(target := Target(h, core, policy, ps[k].policy.predicateId))
      invariant forall k | i <= k < |prepared| :: prepared[k] == ps[k]
    {
      prepared := prepared[i := prepared[i].(target := Target(h, core, policy, prepared[i].policy.predicateId))];
    }
  }

  /** `PrepareAgreementTargets`, on a copy of the predicates. */
  method PrepareAgreementTargets(env: Environment, b: Body) returns (r: Result<Body>)
    ensures r == Prepared(env, b)
    decreases 1
  {
    var valid := ValidateAgreementBody(env, b, false);
    var core, policy := env.marshalCore(b.core), env.marshalPolicy(Policies(b.predicates));
    if !valid || core.Err? || policy.Err? {
      return Err;
    }
    var prepared := WriteTargets(env.h, core.value, policy.value, b.predicates);
    return Ok(b.(predicates := prepared));
  }

  method CompareTargets(a: Body, b: Body) returns (same: bool)
    requires |a.predicates| == |b.predicates|
    ensures same <==> SameTargets(a, b)
  {
    for i := 0 to |a.predicates|
      invariant forall k | 0 <= k < i :: a.predicates[k].target == b.predicates[k].target
    {
      if a.predicates[i].target != b.predicates[i].target {
        return false;
      }
    }
    return true;
  }

  method HasTargets(b: Body, required: bool) returns (ok: bool)
    ensures ok <==> if required then TargetsAreDigests(b) else TargetsEmpty(b)
  {
    for i := 0 to |b.predicates|
      invariant forall k | 0 <= k < i ::
                  if required then IsDigest(b.predicates[k].target) else b.predicates[k].target == ""
    {
      if (required && !IsDigest(b.predicates[i].target)) || (!required && b.predicates[i].target != "") {
        return false;
      }
    }
    return true;
  }

  /** `validateAgreementBody`. */
  method ValidateAgreementBody(env: Environment, b: Body, requireTargets: bool) returns (ok: bool)
    ensures ok <==> ValidBody(env, b, requireTargets)
    decreases if requireTargets then 2 else 0
  {
    ghost var order;
    ok, order := CheckSound(env, b.core, Policies(b.predicates));
    var targets := HasTargets(b, requireTargets);
    if !ok || !targets || !requireTargets {
      return ok && targets;
    }
    var recomputed := PrepareAgreementTargets(env, Stripped(b));
    if recomputed.Err? {
      return false;
    }
    ok := CompareTargets(b, recomputed.value);
  }
}
