/**
 Authorization evidence: each evidence object covers one complete group of predicates, the
 group being named by a NUL-separated key over the authority subject and evidence profile.
 */
module AgreementEvidence {
  import opened Text
  import opened Decimal
  import opened Agreement

  datatype Evidence = Evidence(
    agreementId: string, agreementVersion: nat, bodyDigest: string, subject: Subject, predicateIds: seq<string>,
    profileUri: string, profileVersion: nat, profileDigest: string, targets: seq<string>, contentType: string,
    content: string)

  /** What evidence is grouped by. */
  datatype Authority = Authority(subject: Subject, profileUri: string, profileVersion: nat, profileDigest: string)

  function OfPolicy(p: Policy): Authority { Authority(p.subject, p.profileUri, p.profileVersion, p.profileDigest) }

  function OfEvidence(e: Evidence): Authority { Authority(e.subject, e.profileUri, e.profileVersion, e.profileDigest) }

  // ---------- the group key ----------

  function Join(parts: seq<string>): string {
    if parts == [] then "" else if |parts| == 1 then parts[0] else parts[0] + ("\0" + Join(parts[1..]))
  }

  function KeyParts(a: Authority): seq<string> {
    [a.subject.kind, a.subject.namespace, a.subject.identifier, a.subject.representedAgentId, a.profileUri,
     NatText(a.profileVersion), a.profileDigest]
  }

  /** The map key: the subject's own key, the profile URI, its version in decimal and its digest. */
  function Key(a: Authority): string { Join(KeyParts(a)) }

  ghost predicate Separable(parts: seq<string>) { forall i | 0 <= i < |parts| :: NoNul(parts[i]) }

  lemma {:induction false} FirstNul(a: string, restA: string, b: string, restB: string)
    requires NoNul(a) && NoNul(b) && a + ("\0" + restA) == b + ("\0" + restB)
    ensures a == b && restA == restB
  {
    var s, t := a + ("\0" + restA), b + ("\0" + restB);
    assert forall k | 0 <= k < |a| :: s[k] == a[k];
    assert forall k | 0 <= k < |b| :: t[k] == b[k];
    assert s[|a|] == '\0' && t[|b|] == '\0';
    assert |a| == |b|;
    assert s[..|a|] == a && t[..|a|] == b;
    assert s[|a| + 1..] == restA && t[|a| + 1..] == restB;
  }

  lemma {:induction false} JoinInjective(a: seq<string>, b: seq<string>)
    requires |a| == |b| && Separable(a) && Separable(b) && Join(a) == Join(b)
    ensures a == b
  {
    if |a| == 1 {
      assert a[0] == b[0];
    } else if |a| > 1 {
      FirstNul(a[0], Join(a[1..]), b[0], Join(b[1..]));
      JoinInjective(a[1..], b[1..]);
      assert a == [a[0]] + a[1..] && b == [b[0]] + b[1..];
    }
  }

  predicate ValidAuthority(a: Authority) {
    ValidSubject(a.subject) && BoundedIdentifier(a.profileUri, 256) && a.profileVersion != 0
        && IsDigest(a.profileDigest)
  }

  lemma {:induction false} DigitsNoNul(s: string)
    requires AllDigits(s)
    ensures NoNul(s)
  {
  }

  lemma {:induction false} DigestNoNul(s: string)
    requires IsDigest(s)
    ensures NoNul(s)
  {
    forall i | 0 <= i < |s|
      ensures s[i] != '\0'
    {
      if i < 7 { assert s[i] == s[..7][i]; }
    }
  }

  lemma {:induction false} KindNoNul(s: Subject)
    requires ValidSubject(s)
    ensures NoNul(s.kind) && NoNul(s.representedAgentId)
  {
  }

  lemma {:induction false} PartsSeparable(a: Authority)
    requires ValidAuthority(a)
    ensures Separable(KeyParts(a))
  {
    KindNoNul(a.subject);
    DigitsNoNul(NatText(a.profileVersion));
    DigestNoNul(a.profileDigest);
  }

  /** Groups are exactly the distinct authorities: the key confuses none of them. */
  lemma {:induction false} KeyInjective(a: Authority, b: Authority)
    requires ValidAuthority(a) && ValidAuthority(b) && Key(a) == Key(b)
    ensures a == b
  {
    PartsSeparable(a);
    PartsSeparable(b);
    JoinInjective(KeyParts(a), KeyParts(b));
    SameParts(a, b);
  }

  lemma {:induction false} SameParts(a: Authority, b: Authority)
    requires KeyParts(a) == KeyParts(b)
    ensures a == b
  {
    var p, q := KeyParts(a), KeyParts(b);
    assert p[0] == q[0] && p[1] == q[1] && p[2] == q[2] && p[3] == q[3] && p[4] == q[4] && p[5] == q[5] && p[6] == q[6];
    NumberOfText(a.profileVersion);
    NumberOfText(b.profileVersion);
  }

  // ---------- acceptance ----------

  /** The surroundings of one check: the body, its digest, whether a Unix time lies ahead, and the verifiers. */
  datatype Context = Context(
    env: Environment, body: Body, bodyDigest: string, ahead: nat -> bool, acceptanceExpiry: string -> Result<nat>,
    verify: Evidence -> bool)

  /** The predicates with a given key, in body order. */
  function Group(ps: seq<AuthorizationPredicate>, key: string): seq<AuthorizationPredicate> {
    if ps == [] then []
    else
      var init, last := Group(ps[..|ps| - 1], key), ps[|ps| - 1];
      if Key(OfPolicy(last.policy)) == key then init + [last] else init
  }

  ghost predicate InWindow(ctx: Context) {
    !ctx.ahead(ctx.body.core.validFrom) && ctx.ahead(ctx.body.core.expiresAt) && AllOpen(ctx)
  }

  ghost predicate AllOpen(ctx: Context) {
    forall i | 0 <= i < |ctx.body.predicates| :: PredicateOpen(ctx, ctx.body.predicates[i].policy)
  }

  ghost predicate AllAccepted(ctx: Context, es: seq<Evidence>) {
    forall i | 0 <= i < |es| :: EvidenceAccepted(ctx, es[i])
  }

  predicate PredicateOpen(ctx: Context, p: Policy) {
    (p.validFrom == 0 || !ctx.ahead(p.validFrom)) && ctx.ahead(p.expiresAt)
  }

  predicate WellFormed(ctx: Context, e: Evidence) {
    && e.agreementId == ctx.body.core.agreementId && e.agreementVersion == ctx.body.core.version
    && e.bodyDigest == ctx.bodyDigest && ValidSubject(e.subject) && e.predicateIds != []
    && |e.predicateIds| == |e.targets| && SortedIdentifiers(e.predicateIds, 512, 128)
    && BoundedIdentifier(e.profileUri, 256) && e.profileVersion != 0 && IsDigest(e.profileDigest)
    && BoundedIdentifier(e.contentType, 128) && 0 < |e.content| <= 0x10_0000
  }

  /** The evidence lists its whole group, in order, with the group's targets. */
  predicate Covers(e: Evidence, group: seq<AuthorizationPredicate>) {
    && |group| == |e.predicateIds| == |e.targets|
    && forall i | 0 <= i < |group| ::
         group[i].policy.predicateId == e.predicateIds[i] && group[i].target == e.targets[i]
  }

  predicate AcceptanceInTime(ctx: Context, e: Evidence, group: seq<AuthorizationPredicate>) {
    (e.profileUri == AGENT_SIGNATURE || e.profileUri == AUTHORITY_SIGNATURE) ==>
      var expiry := ctx.acceptanceExpiry(e.content);
      && expiry.Ok? && expiry.value <= ctx.body.core.expiresAt
      && forall i | 0 <= i < |group| :: expiry.value <= group[i].policy.expiresAt
  }

  predicate EvidenceAccepted(ctx: Context, e: Evidence) {
    var group := Group(ctx.body.predicates, Key(OfEvidence(e)));
    WellFormed(ctx, e) && Covers(e, group) && AcceptanceInTime(ctx, e, group) && ctx.verify(e)
  }

  ghost predicate KeysDistinct(es: seq<Evidence>) {
    forall i, j | 0 <= i < j < |es| :: Key(OfEvidence(es[i])) != Key(OfEvidence(es[j]))
  }

  ghost predicate Complete(ctx: Context, es: seq<Evidence>) {
    forall i | 0 <= i < |ctx.body.predicates| :: HasKey(es, Key(OfPolicy(ctx.body.predicates[i].policy)))
  }

  ghost predicate HasKey(es: seq<Evidence>, key: string) {
    exists j | 0 <= j < |es| :: Key(OfEvidence(es[j])) == key
  }

  /** What `validateAgreementEvidenceSet` accepts. */
  ghost predicate Accepted(ctx: Context, es: seq<Evidence>, requireComplete: bool) {
    ValidBody(ctx.env, ctx.body, true) && EvidenceSetAccepted(ctx, es, requireComplete)
  }

  ghost predicate EvidenceSetAccepted(ctx: Context, es: seq<Evidence>, requireComplete: bool) {
    InWindow(ctx) && AllAccepted(ctx, es) && KeysDistinct(es) && (requireComplete ==> Complete(ctx, es))
  }

  type Groups = map<string, seq<AuthorizationPredicate>>

  function Lookup(groups: Groups, key: string): seq<AuthorizationPredicate> {
    if key in groups then groups[key] else []
  }

  ghost predicate GroupsOf(groups: Groups, ps: seq<AuthorizationPredicate>) {
    && (forall key :: Lookup(groups, key) == Group(ps, key))
    && (forall key :: key in groups <==> exists i | 0 <= i < |ps| :: Key(OfPolicy(ps[i].policy)) == key)
  }

  /** The loop that fills the groups map. */
  method BuildGroups(ctx: Context) returns (r: Option<Groups>)
    ensures r.Some? <==> AllOpen(ctx)
    ensures r.Some? ==> GroupsOf(r.value, ctx.body.predicates)
  {
    var groups: Groups := map[];
    var ps := ctx.body.predicates;
    for i := 0 to |ps|
      invariant forall k | 0 <= k < i :: PredicateOpen(ctx, ps[k].policy)
      invariant GroupsOf(groups, ps[..i])
    {
      if !PredicateOpen(ctx, ps[i].policy) {
        return None;
      }
      var key := Key(OfPolicy(ps[i].policy));
      AddToGroup(groups, ps[..i], ps[i]);
      groups := groups[key := Lookup(groups, key) + [ps[i]]];
      assert ps[..i + 1] == ps[..i] + [ps[i]];
    }
    assert ps[..|ps|] == ps;
    return Some(groups);
  }

  lemma {:induction false} AddToGroup(groups: Groups, ps: seq<AuthorizationPredicate>, p: AuthorizationPredicate)
    requires GroupsOf(groups, ps)
    ensures var key := Key(OfPolicy(p.policy)); GroupsOf(groups[key := Lookup(groups, key) + [p]], ps + [p])
  {
    var key := Key(OfPolicy(p.policy));
    var grown := groups[key := Lookup(groups, key) + [p]];
    var qs := ps + [p];
    assert qs[..|qs| - 1] == ps && qs[|qs| - 1] == p;
    forall k
      ensures Lookup(grown, k) == Group(qs, k)
    {
      assert Lookup(groups, k) == Group(ps, k);
    }
    forall k
      ensures k in grown <==> exists i | 0 <= i < |qs| :: Key(OfPolicy(qs[i].policy)) == k
    {
      if k in groups {
        var i :| 0 <= i < |ps| && Key(OfPolicy(ps[i].policy)) == k;
        assert qs[i] == ps[i];
      }
      assert qs[|ps|] == p;
      if i :| 0 <= i < |qs| && Key(OfPolicy(qs[i].policy)) == k && k != key {
        assert ps[i] == qs[i];
      }
    }
  }

  /** The loop over the evidence: every object passes and no key comes twice; the result is the keys seen. */
  method CheckAll(accepts: Evidence -> bool, keyOf: Evidence -> string, es: seq<Evidence>)
      returns (seen: Option<set<string>>)
    ensures seen.Some? <==> (forall i | 0 <= i < |es| :: accepts(es[i]))
                            && (forall i, j | 0 <= i < j < |es| :: keyOf(es[i]) != keyOf(es[j]))
    ensures seen.Some? ==> forall key :: key in seen.value <==> exists i | 0 <= i < |es| :: keyOf(es[i]) == key
  {
    var keys: set<string> := {};
    for i := 0 to |es|
      invariant forall k | 0 <= k < i :: accepts(es[k])
      invariant forall k, l | 0 <= k < l < i :: keyOf(es[k]) != keyOf(es[l])
      invariant forall key :: key in keys <==> exists k | 0 <= k < i :: keyOf(es[k]) == key
    {
      if !accepts(es[i]) || keyOf(es[i]) in keys {
        return None;
      }
      keys := keys + {keyOf(es[i])};
    }
    return Some(keys);
  }

  predicate AcceptedBy(ctx: Context, groups: Groups, e: Evidence) {
    var group := Lookup(groups, Key(OfEvidence(e)));
    WellFormed(ctx, e) && Covers(e, group) && AcceptanceInTime(ctx, e, group) && ctx.verify(e)
  }

  lemma {:induction false} AcceptedBySame(ctx: Context, groups: Groups, e: Evidence)
    requires GroupsOf(groups, ctx.body.predicates)
    ensures AcceptedBy(ctx, groups, e) <==> EvidenceAccepted(ctx, e)
  {
    assert Lookup(groups, Key(OfEvidence(e))) == Group(ctx.body.predicates, Key(OfEvidence(e)));
  }

  method CheckEvidence(ctx: Context, es: seq<Evidence>, groups: Groups) returns (seen: Option<set<string>>)
    requires GroupsOf(groups, ctx.body.predicates)
    ensures seen.Some? <==> AllAccepted(ctx, es) && KeysDistinct(es)
    ensures seen.Some? ==> SeenKeys(es, seen.value)
  {
    forall i | 0 <= i < |es|
      ensures AcceptedBy(ctx, groups, es[i]) <==> EvidenceAccepted(ctx, es[i])
    {
      AcceptedBySame(ctx, groups, es[i]);
    }
    seen := CheckAll(e => AcceptedBy(ctx, groups, e), e => Key(OfEvidence(e)), es);
  }

  ghost predicate SeenKeys(es: seq<Evidence>, seen: set<string>) {
    forall key :: key in seen <==> HasKey(es, key)
  }

  lemma {:induction false} CompleteIff(ctx: Context, es: seq<Evidence>, groups: Groups, seen: set<string>)
    requires GroupsOf(groups, ctx.body.predicates)
    requires SeenKeys(es, seen)
    ensures groups.Keys <= seen <==> Complete(ctx, es)
  {
    var ps := ctx.body.predicates;
    if groups.Keys <= seen {
      forall i | 0 <= i < |ps|
        ensures HasKey(es, Key(OfPolicy(ps[i].policy)))
      {
        assert Key(OfPolicy(ps[i].policy)) in groups.Keys;
        assert Key(OfPolicy(ps[i].policy)) in seen;
      }
      assert Complete(ctx, es);
    }
    if Complete(ctx, es) {
      forall key | key in groups.Keys
        ensures key in seen
      {
        var i :| 0 <= i < |ps| && Key(OfPolicy(ps[i].policy)) == key;
        assert ctx.body.predicates[i] == ps[i];
        assert HasKey(es, key);
      }
      assert groups.Keys <= seen;
    }
  }

  /** What a caller passes in: possibly no verifier, possibly no time, and a digest that may fail. */
  datatype Call = Call(
    env: Environment, body: Body, digest: Body -> Result<string>, zeroTime: bool, ahead: nat -> bool,
    acceptanceExpiry: string -> Result<nat>, verifier: Option<Evidence -> bool>)

  predicate Usable(call: Call) {
    call.verifier.Some? && !call.zeroTime && call.digest(call.body).Ok?
  }

  function ContextOf(call: Call): Context
    requires Usable(call)
  {
    Context(call.env, call.body, call.digest(call.body).value, call.ahead, call.acceptanceExpiry, call.verifier.value)
  }

  /** `validateAgreementEvidenceSet`, once the call is known to be usable. */
  method ValidateInContext(ctx: Context, es: seq<Evidence>, requireComplete: bool) returns (ok: bool)
    ensures ok <==> Accepted(ctx, es, requireComplete)
  {
    var valid := ValidateAgreementBody(ctx.env, ctx.body, true);
    if !valid {
      return false;
    }
    ok := ValidateEvidence(ctx, es, requireComplete);
  }

  /** `validateAgreementEvidenceSet`: a missing verifier, a missing time and a failing body digest are refused too. */
  method ValidateAgreementEvidenceSet(call: Call, es: seq<Evidence>, requireComplete: bool) returns (ok: bool)
    ensures ok <==> Usable(call) && Accepted(ContextOf(call), es, requireComplete)
  {
    if !Usable(call) {
      return false;
    }
    ok := ValidateInContext(ContextOf(call), es, requireComplete);
  }

  method ValidateEvidence(ctx: Context, es: seq<Evidence>, requireComplete: bool) returns (ok: bool)
    ensures ok <==> EvidenceSetAccepted(ctx, es, requireComplete)
  {
    if ctx.ahead(ctx.body.core.validFrom) || !ctx.ahead(ctx.body.core.expiresAt) {
      return false;
    }
    var groups := BuildGroups(ctx);
    if groups.None? {
      return false;
    }
    var seen := CheckEvidence(ctx, es, groups.value);
    if seen.None? {
      return false;
    }
    CompleteIff(ctx, es, groups.value, seen.value);
    return !requireComplete || groups.value.Keys <= seen.value;
  }

  // ---------- what acceptance means ----------

  lemma {:induction false} GroupMembers(ps: seq<AuthorizationPredicate>, key: string)
    ensures forall p :: p in Group(ps, key) <==> p in ps && Key(OfPolicy(p.policy)) == key
  {
    if ps != [] {
      var init, last := ps[..|ps| - 1], ps[|ps| - 1];
      GroupMembers(init, key);
      assert ps == init + [last];
      forall p: AuthorizationPredicate
        ensures p in ps <==> p in init || p == last
      {
      }
    }
  }

  ghost predicate IdsSorted(ps: seq<Policy>) {
    forall k | 0 < k < |ps| :: Less(ps[k - 1].predicateId, ps[k].predicateId)
  }

  lemma {:induction false} ValidIdsSorted(ctx: Context)
    requires ValidBody(ctx.env, ctx.body, true)
    ensures IdsSorted(Policies(ctx.body.predicates))
  {
    assert ValidPolicies(ctx.env, Policies(ctx.body.predicates));
  }

  lemma {:induction false} SortedIdsUnique(ps: seq<AuthorizationPredicate>, i: nat, j: nat)
    requires IdsSorted(Policies(ps)) && i < |ps| && j < |ps| && ps[i].policy.predicateId == ps[j].policy.predicateId
    ensures i == j
  {
    var policies := Policies(ps);
    assert policies[i] == ps[i].policy && policies[j] == ps[j].policy;
    if i < j {
      PredicateIdsDistinct(policies, i, j);
    } else if j < i {
      PredicateIdsDistinct(policies, j, i);
    }
  }

  lemma {:induction false} UniquePredicate(ctx: Context, p: AuthorizationPredicate, q: AuthorizationPredicate)
    requires ValidBody(ctx.env, ctx.body, true) && p in ctx.body.predicates && q in ctx.body.predicates
    requires p.policy.predicateId == q.policy.predicateId
    ensures p == q
  {
    ValidIdsSorted(ctx);
    var ps := ctx.body.predicates;
    var i :| 0 <= i < |ps| && ps[i] == p;
    var j :| 0 <= j < |ps| && ps[j] == q;
    SortedIdsUnique(ps, i, j);
  }

  lemma {:induction false} CoveredPredicate(ctx: Context, e: Evidence, id: string) returns (p: AuthorizationPredicate)
    requires EvidenceAccepted(ctx, e) && id in e.predicateIds
    ensures p in ctx.body.predicates && p.policy.predicateId == id && Key(OfPolicy(p.policy)) == Key(OfEvidence(e))
  {
    var group := Group(ctx.body.predicates, Key(OfEvidence(e)));
    var i :| 0 <= i < |e.predicateIds| && e.predicateIds[i] == id;
    p := group[i];
    GroupMembers(ctx.body.predicates, Key(OfEvidence(e)));
    assert p in group;
  }

  lemma {:induction false} ListedInGroup(ctx: Context, e: Evidence, p: AuthorizationPredicate)
    requires EvidenceAccepted(ctx, e) && p in ctx.body.predicates && Key(OfPolicy(p.policy)) == Key(OfEvidence(e))
    ensures p.policy.predicateId in e.predicateIds
  {
    var group := Group(ctx.body.predicates, Key(OfEvidence(e)));
    GroupMembers(ctx.body.predicates, Key(OfEvidence(e)));
    assert p in group;
    var i :| 0 <= i < |group| && group[i] == p;
    assert e.predicateIds[i] == p.policy.predicateId;
  }

  /** Under full authorization every predicate is listed by exactly one evidence object, from its own authority. */
  lemma {:induction false} ExactlyOneEvidence(ctx: Context, es: seq<Evidence>, k: nat) returns (j: nat)
    requires Accepted(ctx, es, true) && k < |ctx.body.predicates|
    ensures j < |es| && EvidenceAccepted(ctx, es[j]) && OfEvidence(es[j]) == OfPolicy(ctx.body.predicates[k].policy)
    ensures forall i | 0 <= i < |es| :: ctx.body.predicates[k].policy.predicateId in es[i].predicateIds <==> i == j
  {
    var p := ctx.body.predicates[k];
    assert HasKey(es, Key(OfPolicy(ctx.body.predicates[k].policy)));
    j :| 0 <= j < |es| && Key(OfEvidence(es[j])) == Key(OfPolicy(p.policy));
    PolicyAuthority(ctx, k);
    KeyInjective(OfEvidence(es[j]), OfPolicy(p.policy));
    ListedInGroup(ctx, es[j], p);
    forall i | 0 <= i < |es| && p.policy.predicateId in es[i].predicateIds
      ensures i == j
    {
      SameObject(ctx, es, p, i, j);
    }
  }

  lemma {:induction false} PolicyAuthority(ctx: Context, k: nat)
    requires ValidBody(ctx.env, ctx.body, true) && k < |ctx.body.predicates|
    ensures ValidAuthority(OfPolicy(ctx.body.predicates[k].policy))
  {
    assert Policies(ctx.body.predicates)[k] == ctx.body.predicates[k].policy;
    assert ValidPolicy(ctx.env, Policies(ctx.body.predicates)[k]);
  }

  lemma {:induction false} SameObject(ctx: Context, es: seq<Evidence>, p: AuthorizationPredicate, i: nat, j: nat)
    requires ValidBody(ctx.env, ctx.body, true) && AllAccepted(ctx, es) && KeysDistinct(es) && i < |es| && j < |es|
    requires p in ctx.body.predicates && p.policy.predicateId in es[i].predicateIds
    requires Key(OfPolicy(p.policy)) == Key(OfEvidence(es[j]))
    ensures i == j
  {
    var q := CoveredPredicate(ctx, es[i], p.policy.predicateId);
    UniquePredicate(ctx, p, q);
    assert Key(OfEvidence(es[i])) == Key(OfEvidence(es[j]));
  }

  /** The evidence lists a predicate beside that predicate's own target. */
  ghost predicate Lists(e: Evidence, id: string, target: string) {
    |e.predicateIds| == |e.targets|
    && exists i | 0 <= i < |e.predicateIds| :: e.predicateIds[i] == id && e.targets[i] == target
  }

  lemma {:induction false} CoveredTarget(ctx: Context, e: Evidence, p: AuthorizationPredicate)
    requires EvidenceAccepted(ctx, e) && p in ctx.body.predicates && Key(OfPolicy(p.policy)) == Key(OfEvidence(e))
    ensures Lists(e, p.policy.predicateId, p.target)
  {
    var group := Group(ctx.body.predicates, Key(OfEvidence(e)));
    GroupMembers(ctx.body.predicates, Key(OfEvidence(e)));
    assert p in group;
    var i :| 0 <= i < |group| && group[i] == p;
    assert e.predicateIds[i] == p.policy.predicateId && e.targets[i] == p.target;
  }

  /**
   What accepted evidence says about a predicate it names: it comes from that predicate's subject
   under that predicate's profile, for this agreement and body, carries the predicate's target, and
   has been verified.
   */
  lemma {:induction false} EvidenceBinds(ctx: Context, es: seq<Evidence>, complete: bool, j: nat, k: nat)
    requires Accepted(ctx, es, complete) && j < |es| && k < |ctx.body.predicates|
    requires ctx.body.predicates[k].policy.predicateId in es[j].predicateIds
    ensures var e, p := es[j], ctx.body.predicates[k].policy;
            && e.subject == p.subject && e.profileUri == p.profileUri && e.profileVersion == p.profileVersion
            && e.profileDigest == p.profileDigest
            && e.agreementId == ctx.body.core.agreementId && e.agreementVersion == ctx.body.core.version
            && e.bodyDigest == ctx.bodyDigest && ctx.verify(e)
            && Lists(e, p.predicateId, ctx.body.predicates[k].target)
  {
    SameAuthority(ctx, es[j], ctx.body.predicates[k]);
    PolicyAuthority(ctx, k);
    KeyInjective(OfEvidence(es[j]), OfPolicy(ctx.body.predicates[k].policy));
    CoveredTarget(ctx, es[j], ctx.body.predicates[k]);
  }

  lemma {:induction false} SameAuthority(ctx: Context, e: Evidence, p: AuthorizationPredicate)
    requires ValidBody(ctx.env, ctx.body, true) && EvidenceAccepted(ctx, e) && p in ctx.body.predicates
    requires p.policy.predicateId in e.predicateIds
    ensures Key(OfPolicy(p.policy)) == Key(OfEvidence(e))
  {
    var q := CoveredPredicate(ctx, e, p.policy.predicateId);
    UniquePredicate(ctx, p, q);
  }

  /** A signed acceptance expires no later than the body and every predicate it names. */
  ghost predicate SignedInTime(ctx: Context, e: Evidence) {
    e.profileUri == "tos.agreement.evidence.agent-signature.v1"
    || e.profileUri == "tos.agreement.evidence.authority-signature.v1" ==>
      var expiry := ctx.acceptanceExpiry(e.content);
      && expiry.Ok? && expiry.value <= ctx.body.core.expiresAt
      && forall p | p in ctx.body.predicates && p.policy.predicateId in e.predicateIds ::
           expiry.value <= p.policy.expiresAt
  }

  lemma {:induction false} AcceptanceBound(ctx: Context, e: Evidence, p: AuthorizationPredicate, expiry: nat)
    requires ValidBody(ctx.env, ctx.body, true) && EvidenceAccepted(ctx, e) && p in ctx.body.predicates
    requires e.profileUri == AGENT_SIGNATURE || e.profileUri == AUTHORITY_SIGNATURE
    requires ctx.acceptanceExpiry(e.content) == Ok(expiry) && p.policy.predicateId in e.predicateIds
    ensures expiry <= p.policy.expiresAt
  {
    SameAuthority(ctx, e, p);
    GroupMembers(ctx.body.predicates, Key(OfEvidence(e)));
    assert p in Group(ctx.body.predicates, Key(OfEvidence(e)));
  }

  lemma {:induction false} AcceptedSigned(ctx: Context, e: Evidence)
    requires ValidBody(ctx.env, ctx.body, true) && EvidenceAccepted(ctx, e)
    ensures SignedInTime(ctx, e)
  {
    if e.profileUri == AGENT_SIGNATURE || e.profileUri == AUTHORITY_SIGNATURE {
      forall p | p in ctx.body.predicates && p.policy.predicateId in e.predicateIds
        ensures ctx.acceptanceExpiry(e.content).value <= p.policy.expiresAt
      {
        AcceptanceBound(ctx, e, p, ctx.acceptanceExpiry(e.content).value);
      }
    }
  }

  lemma {:induction false} AllSigned(ctx: Context, es: seq<Evidence>)
    requires ValidBody(ctx.env, ctx.body, true) && AllAccepted(ctx, es)
    ensures forall e | e in es :: SignedInTime(ctx, e)
  {
    forall e | e in es
      ensures SignedInTime(ctx, e)
    {
      AcceptedSigned(ctx, e);
    }
  }

  /** The moment lies within the body's window and within that of every predicate. */
  ghost predicate MomentInTime(ctx: Context) {
    && !ctx.ahead(ctx.body.core.validFrom) && ctx.ahead(ctx.body.core.expiresAt)
    && forall p | p in ctx.body.predicates ::
         ctx.ahead(p.policy.expiresAt) && (p.policy.validFrom == 0 || !ctx.ahead(p.policy.validFrom))
  }

  lemma {:induction false} WindowOpen(ctx: Context)
    requires InWindow(ctx)
    ensures MomentInTime(ctx)
  {
    forall p | p in ctx.body.predicates
      ensures ctx.ahead(p.policy.expiresAt) && (p.policy.validFrom == 0 || !ctx.ahead(p.policy.validFrom))
    {
      assert PredicateOpen(ctx, p.policy);
    }
  }

  /** Acceptance is in time: for the body, for every predicate, and for the signed acceptances. */
  lemma {:induction false} AcceptedInTime(ctx: Context, es: seq<Evidence>, complete: bool)
    requires Accepted(ctx, es, complete)
    ensures MomentInTime(ctx) && forall e | e in es :: SignedInTime(ctx, e)
  {
    WindowOpen(ctx);
    AllSigned(ctx, es);
  }

  /**
   Under full authorization every obligation has verified evidence from a subject that is or
   represents its obligor.
   */
  lemma {:induction false} ObligorAuthorized(ctx: Context, es: seq<Evidence>, i: nat) returns (k: nat, j: nat)
    requires Accepted(ctx, es, true) && i < |ctx.body.core.obligations|
    ensures k < |ctx.body.predicates| && j < |es|
    ensures var o, p := ctx.body.core.obligations[i], ctx.body.predicates[k].policy;
            && p.predicateId in o.predicateIds && o.obligationId in p.obligationIds
               && p.predicateId in es[j].predicateIds
            && ((es[j].subject.kind == "agent" && es[j].subject.identifier == o.obligorAgentId)
                || (es[j].subject.kind != "agent" && es[j].subject.representedAgentId == o.obligorAgentId))
            && ctx.verify(es[j])
  {
    k := ObligorPredicateOf(ctx, i);
    j := ExactlyOneEvidence(ctx, es, k);
  }

  lemma {:induction false} ObligorPredicateOf(ctx: Context, i: nat) returns (k: nat)
    requires ValidBody(ctx.env, ctx.body, true) && i < |ctx.body.core.obligations|
    ensures k < |ctx.body.predicates|
    ensures var o, p := ctx.body.core.obligations[i], ctx.body.predicates[k].policy;
            && p.predicateId in o.predicateIds && o.obligationId in p.obligationIds
            && SpeaksFor(p.subject, o.obligorAgentId)
  {
    ValidHasObligor(ctx.env, ctx.body, true, i);
    k := ObligorAt(ctx.body.core.obligations[i], Policies(ctx.body.predicates));
    InScopeOf(ctx, i, k);
  }

  lemma {:induction false} InScopeOf(ctx: Context, i: nat, k: nat)
    requires ValidBody(ctx.env, ctx.body, true) && i < |ctx.body.core.obligations| && k < |ctx.body.predicates|
    requires ctx.body.predicates[k].policy.predicateId in ctx.body.core.obligations[i].predicateIds
    ensures ctx.body.core.obligations[i].obligationId in ctx.body.predicates[k].policy.obligationIds
  {
    var ps, o := Policies(ctx.body.predicates), ctx.body.core.obligations[i];
    var id := ctx.body.predicates[k].policy.predicateId;
    var j :| 0 <= j < |o.predicateIds| && o.predicateIds[j] == id;
    assert InScope(ps, o.predicateIds[j], o.obligationId);
    var l :| 0 <= l < |ps| && ps[l].predicateId == id && o.obligationId in ps[l].obligationIds;
    UniquePredicate(ctx, ctx.body.predicates[k], ctx.body.predicates[l]);
  }

  function Select(es: seq<Evidence>, idx: seq<nat>): (r: seq<Evidence>)
    requires forall i | 0 <= i < |idx| :: idx[i] < |es|
    ensures |r| == |idx|
  {
    seq(|idx|, i requires 0 <= i < |idx| => es[idx[i]])
  }

  /** Partial acceptance survives dropping any of the evidence. */
  lemma {:induction false} PartialClosedUnderDropping(ctx: Context, es: seq<Evidence>, idx: seq<nat>)
    requires Accepted(ctx, es, false)
    requires forall i | 0 <= i < |idx| :: idx[i] < |es|
    requires forall i, j | 0 <= i < j < |idx| :: idx[i] < idx[j]
    ensures Accepted(ctx, Select(es, idx), false)
  {
    SetClosedUnderDropping(ctx, es, idx);
  }

  lemma {:induction false} SetClosedUnderDropping(ctx: Context, es: seq<Evidence>, idx: seq<nat>)
    requires EvidenceSetAccepted(ctx, es, false)
    requires forall i | 0 <= i < |idx| :: idx[i] < |es|
    requires forall i, j | 0 <= i < j < |idx| :: idx[i] < idx[j]
    ensures EvidenceSetAccepted(ctx, Select(es, idx), false)
  {
    var s := Select(es, idx);
    forall i, j | 0 <= i < j < |s|
      ensures Key(OfEvidence(s[i])) != Key(OfEvidence(s[j]))
    {
      assert Key(OfEvidence(es[idx[i]])) != Key(OfEvidence(es[idx[j]]));
    }
    forall i | 0 <= i < |s|
      ensures EvidenceAccepted(ctx, s[i])
    {
      assert EvidenceAccepted(ctx, es[idx[i]]);
    }
  }
}
