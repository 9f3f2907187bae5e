/**
 Authority of an operation outcome: the evidence items of a manifest, the proof objects they
 cite, and the material supplied for them.  Decoding and verifying one proof is a parameter;
 what is modelled is that proofs, references and citations match up with nothing missing and
 nothing left over.
 */
module Authority {
  import opened Text

  const TIME_PROFILE := "tos.outcome.authority-time-proof.v1"
  const QUALIFICATION_PROFILE := "tos.outcome.issuer-qualification-proof.v1"

  datatype ProofRef = ProofRef(objectDigest: string, profileUri: string, size: nat)

  datatype Material = Material(profileUri: string, bytes: string)

  datatype Item = Item(
    role: string, objectDigest: string, evidenceProfileUri: string, timeProofDigest: string,
    qualificationProofDigest: string, claimedTime: nat)

  datatype TimeProof = TimeProof(start: nat, end: nat, highWater: nat)

  datatype Qualification = Qualification(timeProofDigest: string, scopeProfileUri: string, validFrom: nat,
                                         validUntil: nat)

  /** Digests, decoders with their validation, and the caller's verifier at the moment of the call. */
  datatype Verifier = Verifier(
    digest: Material -> Result<string>, readTime: string -> Option<TimeProof>,
    readQualification: string -> Option<Qualification>, acceptTime: (TimeProof, Item) -> bool,
    acceptQualification: (Qualification, Item, TimeProof) -> bool, now: nat)

  datatype Assessment = Assessment(qualified: bool, verified: seq<string>, highWater: nat)

  // ---------- the code ----------

  type Refs = map<string, ProofRef>
  type Objects = map<string, Material>

  /** A map filled in order: a later reference with the same digest replaces an earlier one. */
  function RefMap(refs: seq<ProofRef>): Refs {
    if refs == [] then map[] else RefMap(refs[..|refs| - 1])[refs[|refs| - 1].objectDigest := refs[|refs| - 1]]
  }

  predicate Bound(refs: Refs, digest: Result<string>, m: Material) {
    digest.Ok? && digest.value in refs && refs[digest.value].profileUri == m.profileUri
        && refs[digest.value].size == |m.bytes|
  }

  function ObjectMap(digest: Material -> Result<string>, refs: Refs, materials: seq<Material>): Option<Objects> {
    if materials == [] then Some(map[])
    else
      var m := materials[|materials| - 1];
      var earlier := ObjectMap(digest, refs, materials[..|materials| - 1]);
      if earlier.None? || !Bound(refs, digest(m), m) || digest(m).value in earlier.value then None
      else Some(earlier.value[digest(m).value := m])
  }

  /** The time proof of an accepted item, None when anything about its two proofs is refused. */
  function CheckItem(v: Verifier, objects: Objects, item: Item): Option<TimeProof> {
    if item.timeProofDigest !in objects || item.qualificationProofDigest !in objects then None
    else CheckProofs(v, objects[item.timeProofDigest], objects[item.qualificationProofDigest], item)
  }

  function CheckProofs(v: Verifier, timeMaterial: Material, qualificationMaterial: Material,
                       item: Item): Option<TimeProof>
  {
    if timeMaterial.profileUri != TIME_PROFILE || qualificationMaterial.profileUri != QUALIFICATION_PROFILE then None
    else
      var time, qualification := v.readTime(timeMaterial.bytes), v.readQualification(qualificationMaterial.bytes);
      if time.None? || qualification.None? then None
      else
        var t, q := time.value, qualification.value;
        if q.timeProofDigest != item.timeProofDigest || q.scopeProfileUri != item.evidenceProfileUri || t.end > v.now
           || item.claimedTime < t.start || item.claimedTime > t.end || t.end < q.validFrom
               || t.end >= q.validUntil then None
        else if !v.acceptTime(t, item) || !v.acceptQualification(q, item, t) then None
        else time
  }

  datatype Progress = Progress(used: set<string>, verified: seq<string>, highWater: nat)

  function Walk(check: Item -> Option<TimeProof>, items: seq<Item>): Option<Progress> {
    if items == [] then Some(Progress({}, [], 0))
    else
      var item := items[|items| - 1];
      var earlier, time := Walk(check, items[..|items| - 1]), check(item);
      if earlier.None? || time.None? then None
      else
        var p := earlier.value;
        Some(Progress(p.used + {item.timeProofDigest} + {item.qualificationProofDigest},
                      p.verified + [item.objectDigest],
                      if time.value.highWater > p.highWater then time.value.highWater else p.highWater))
  }

  /** `VerifyOperationOutcomeAuthorityV1` for a known profile that matches the event kind. */
  function Assess(v: Verifier, required: seq<string>, refs: seq<ProofRef>, items: seq<Item>,
                  materials: seq<Material>): Result<Assessment>
  {
    if required == [] then
      if refs != [] || items != [] || materials != [] then Err else Ok(Assessment(false, [], 0))
    else if |materials| != |refs| then Err
    else
      var objects := ObjectMap(v.digest, RefMap(refs), materials);
      if objects.None? then Err
      else
        var p := Walk(item => CheckItem(v, objects.value, item), items);
        if p.None? || !(objects.value.Keys <= p.value.used) then Err
        else Ok(Assessment(true, Sort(p.value.verified), p.value.highWater))
  }

  method BuildRefs(refs: seq<ProofRef>) returns (m: Refs)
    ensures m == RefMap(refs)
  {
    m := map[];
    for i := 0 to |refs|
      invariant m == RefMap(refs[..i])
    {
      m := m[refs[i].objectDigest := refs[i]];
      assert refs[..i + 1][..i] == refs[..i];
    }
    assert refs[..|refs|] == refs;
  }

  lemma {:induction false} ObjectMapStop(digest: Material -> Result<string>, refs: Refs, materials: seq<Material>,
                                         n: nat)
    requires n <= |materials| && ObjectMap(digest, refs, materials[..n]).None?
    ensures ObjectMap(digest, refs, materials).None?
    decreases |materials|
  {
    if n < |materials| {
      assert materials[..|materials| - 1][..n] == materials[..n];
      ObjectMapStop(digest, refs, materials[..|materials| - 1], n);
    } else {
      assert materials[..n] == materials;
    }
  }

  method BuildObjects(digest: Material -> Result<string>, refs: Refs, materials: seq<Material>)
      returns (r: Option<Objects>)
    ensures r == ObjectMap(digest, refs, materials)
  {
    var objects: Objects := map[];
    for i := 0 to |materials|
      invariant ObjectMap(digest, refs, materials[..i]) == Some(objects)
    {
      var d := digest(materials[i]);
      assert materials[..i + 1][..i] == materials[..i];
      if !Bound(refs, d, materials[i]) || d.value in objects {
        ObjectMapStop(digest, refs, materials, i + 1);
        return None;
      }
      objects := objects[d.value := materials[i]];
    }
    assert materials[..|materials|] == materials;
    return Some(objects);
  }

  lemma {:induction false} WalkStop(check: Item -> Option<TimeProof>, items: seq<Item>, n: nat)
    requires n <= |items| && Walk(check, items[..n]).None?
    ensures Walk(check, items).None?
    decreases |items|
  {
    if n < |items| {
      assert items[..|items| - 1][..n] == items[..n];
      WalkStop(check, items[..|items| - 1], n);
    } else {
      assert items[..n] == items;
    }
  }

  method WalkItems(check: Item -> Option<TimeProof>, items: seq<Item>) returns (r: Option<Progress>)
    ensures r == Walk(check, items)
  {
    var used: set<string>, verified: seq<string>, highWater := {}, [], 0;
    for i := 0 to |items|
      invariant Walk(check, items[..i]) == Some(Progress(used, verified, highWater))
    {
      assert items[..i + 1][..i] == items[..i];
      var time := check(items[i]);
      if time.None? {
        WalkStop(check, items, i + 1);
        return None;
      }
      used := used + {items[i].timeProofDigest} + {items[i].qualificationProofDigest};
      verified := verified + [items[i].objectDigest];
      if time.value.highWater > highWater {
        highWater := time.value.highWater;
      }
    }
    assert items[..|items|] == items;
    return Some(Progress(used, verified, highWater));
  }

  method AllUsed(objects: Objects, used: set<string>) returns (ok: bool)
    ensures ok <==> objects.Keys <= used
  {
    var keys := objects.Keys;
    while keys != {}
      invariant keys <= objects.Keys
      invariant forall d | d in objects.Keys && d !in keys :: d in used
      decreases |keys|
    {
      var d :| d in keys;
      if d !in used {
        return false;
      }
      keys := keys - {d};
    }
    return true;
  }

  method VerifyOperationOutcomeAuthority(v: Verifier, required: seq<string>, refs: seq<ProofRef>, items: seq<Item>,
                                         materials: seq<Material>) returns (r: Result<Assessment>)
    ensures r == Assess(v, required, refs, items, materials)
  {
    if |required| == 0 {
      if |refs| != 0 || |items| != 0 || |materials| != 0 {
        return Err;
      }
      return Ok(Assessment(false, [], 0));
    }
    if |materials| != |refs| {
      return Err;
    }
    var refMap := BuildRefs(refs);
    var objects := BuildObjects(v.digest, refMap, materials);
    if objects.None? {
      return Err;
    }
    var p := WalkItems(item => CheckItem(v, objects.value, item), items);
    if p.None? {
      return Err;
    }
    var complete := AllUsed(objects.value, p.value.used);
    if !complete {
      return Err;
    }
    return Ok(Assessment(true, Sort(p.value.verified), p.value.highWater));
  }

  // ---------- what acceptance means ----------

  function RefDigests(refs: seq<ProofRef>): (r: seq<string>)
    ensures |r| == |refs| && forall i | 0 <= i < |refs| :: r[i] == refs[i].objectDigest
  {
    seq(|refs|, i requires 0 <= i < |refs| => refs[i].objectDigest)
  }

  ghost predicate Digested(digest: Material -> Result<string>, materials: seq<Material>) {
    forall i | 0 <= i < |materials| :: digest(materials[i]).Ok?
  }

  function Digests(digest: Material -> Result<string>, materials: seq<Material>): (r: seq<string>)
    requires Digested(digest, materials)
    ensures |r| == |materials| && forall i | 0 <= i < |materials| :: r[i] == digest(materials[i]).value
  {
    seq(|materials|, i requires 0 <= i < |materials| => digest(materials[i]).value)
  }

  /** Every reference has its one object, every object its one reference, and they agree. */
  ghost predicate Matched(digest: Material -> Result<string>, refs: seq<ProofRef>, materials: seq<Material>) {
    && Digested(digest, materials)
    && Distinct(RefDigests(refs))
    && multiset(Digests(digest, materials)) == multiset(RefDigests(refs))
    && forall i, j | 0 <= i < |materials| && 0 <= j < |refs| && digest(materials[i]) == Ok(refs[j].objectDigest) ::
         refs[j].profileUri == materials[i].profileUri && refs[j].size == |materials[i].bytes|
  }

  /** What a time proof `t` and a qualification `q` have to be to prove an item. */
  predicate Qualifies(v: Verifier, item: Item, t: TimeProof, q: Qualification) {
    && v.acceptTime(t, item) && v.acceptQualification(q, item, t)
    && q.timeProofDigest == item.timeProofDigest && q.scopeProfileUri == item.evidenceProfileUri
    && t.start <= item.claimedTime <= t.end <= v.now && q.validFrom <= t.end < q.validUntil
  }

  /** The two materials are a time proof and a qualification, under their profiles, that qualify the item. */
  ghost predicate ProofsPass(v: Verifier, timeMaterial: Material, qualificationMaterial: Material, item: Item,
                             time: TimeProof) {
    && timeMaterial.profileUri == "tos.outcome.authority-time-proof.v1"
    && qualificationMaterial.profileUri == "tos.outcome.issuer-qualification-proof.v1"
    && v.readTime(timeMaterial.bytes) == Some(time)
    && exists q :: v.readQualification(qualificationMaterial.bytes) == Some(q) && Qualifies(v, item, time, q)
  }

  /** The checks of one item are exactly that. */
  lemma {:induction false} CheckProofsExact(v: Verifier, timeMaterial: Material, qualificationMaterial: Material,
                                            item: Item, time: TimeProof)
    ensures CheckProofs(v, timeMaterial, qualificationMaterial, item) == Some(time) <==>
            ProofsPass(v, timeMaterial, qualificationMaterial, item, time)
  {
    var q := v.readQualification(qualificationMaterial.bytes);
    if CheckProofs(v, timeMaterial, qualificationMaterial, item) == Some(time) {
      assert Qualifies(v, item, time, q.value);
    }
  }

  /** An item whose two cited proofs are among the material and pass. */
  ghost predicate Proved(v: Verifier, materials: seq<Material>, item: Item, time: TimeProof) {
    exists i, j :: 0 <= i < |materials| && 0 <= j < |materials|
      && v.digest(materials[i]) == Ok(item.timeProofDigest)
         && v.digest(materials[j]) == Ok(item.qualificationProofDigest)
      && ProofsPass(v, materials[i], materials[j], item, time)
  }

  ghost predicate Cites(item: Item, digest: string) {
    item.timeProofDigest == digest || item.qualificationProofDigest == digest
  }

  ghost predicate Cited(items: seq<Item>, digest: string) {
    exists k :: 0 <= k < |items| && Cites(items[k], digest)
  }

  lemma {:induction false} RefMapEntries(refs: seq<ProofRef>)
    ensures forall d :: d in RefMap(refs) <==> d in RefDigests(refs)
    ensures forall d | d in RefMap(refs) :: RefMap(refs)[d] in refs && RefMap(refs)[d].objectDigest == d
  {
    if refs != [] {
      var n := |refs| - 1;
      RefMapEntries(refs[..n]);
      assert RefDigests(refs) == RefDigests(refs[..n]) + [refs[n].objectDigest];
      assert refs == refs[..n] + [refs[n]];
    }
  }

  /** A distinct sequence inside another of the same length is a rearrangement of it. */
  lemma {:induction false} DistinctCovers(a: seq<string>, b: seq<string>)
    requires |a| == |b| && Distinct(a) && forall i | 0 <= i < |a| :: a[i] in b
    ensures multiset(a) == multiset(b)
  {
    if a != [] {
      var k :| 0 <= k < |b| && b[k] == a[0];
      var rest := Without(b, k);
      forall i | 0 <= i < |a[1..]|
        ensures a[1..][i] in rest
      {
        StillIn(b, k, a[i + 1]);
      }
      DistinctCovers(a[1..], rest);
      WithoutMultiset(b, k);
      assert a == [a[0]] + a[1..];
    }
  }

  lemma {:induction false} StillIn(b: seq<string>, k: nat, x: string)
    requires k < |b| && x in b && x != b[k]
    ensures x in Without(b, k)
  {
    WithoutMultiset(b, k);
    assert x in multiset(b);
    assert x in multiset(Without(b, k));
  }

  lemma {:induction false} SameMembers(a: seq<string>, b: seq<string>, x: string)
    requires multiset(a) == multiset(b)
    ensures x in a <==> x in b
  {
    assert x in a <==> x in multiset(a);
    assert x in b <==> x in multiset(b);
  }

  /** The object map of accepted material: its digests are distinct and each is bound to a reference. */
  lemma {:induction false} ObjectMapEntries(digest: Material -> Result<string>, refs: Refs, materials: seq<Material>)
    requires ObjectMap(digest, refs, materials).Some?
    ensures Digested(digest, materials) && Distinct(Digests(digest, materials))
    ensures forall i | 0 <= i < |materials| :: Bound(refs, digest(materials[i]), materials[i])
    ensures var m := ObjectMap(digest, refs, materials).value;
            && (forall d :: d in m <==> d in Digests(digest, materials))
            && forall i | 0 <= i < |materials| :: m[digest(materials[i]).value] == materials[i]
  {
    if materials != [] {
      var n := |materials| - 1;
      ObjectMapEntries(digest, refs, materials[..n]);
      forall i | 0 <= i < |materials|
        ensures Bound(refs, digest(materials[i]), materials[i])
      {
        if i < n { assert materials[..n][i] == materials[i]; }
      }
      assert Digests(digest, materials) == Digests(digest, materials[..n]) + [digest(materials[n]).value];
      forall i | 0 <= i < n
        ensures digest(materials[i]).value in Digests(digest, materials[..n])
      {
        assert Digests(digest, materials[..n])[i] == digest(materials[i]).value;
        assert materials[..n][i] == materials[i];
      }
    }
  }

  lemma {:induction false} ObjectMapDefined(digest: Material -> Result<string>, refs: Refs, materials: seq<Material>)
    requires Digested(digest, materials) && Distinct(Digests(digest, materials))
    requires forall i | 0 <= i < |materials| :: Bound(refs, digest(materials[i]), materials[i])
    ensures ObjectMap(digest, refs, materials).Some?
  {
    if materials != [] {
      var n := |materials| - 1;
      var init := Digests(digest, materials[..n]);
      assert init == Digests(digest, materials)[..n];
      ObjectMapDefined(digest, refs, materials[..n]);
      ObjectMapEntries(digest, refs, materials[..n]);
      assert Digests(digest, materials)[n] !in init;
    }
  }

  lemma {:induction false} WalkDefined(check: Item -> Option<TimeProof>, items: seq<Item>)
    ensures Walk(check, items).Some? <==> forall k | 0 <= k < |items| :: check(items[k]).Some?
  {
    if items != [] {
      var n := |items| - 1;
      WalkDefined(check, items[..n]);
      assert forall k | 0 <= k < n :: items[..n][k] == items[k];
    }
  }

  function ObjectDigests(items: seq<Item>): (r: seq<string>)
    ensures |r| == |items| && forall k | 0 <= k < |items| :: r[k] == items[k].objectDigest
  {
    seq(|items|, k requires 0 <= k < |items| => items[k].objectDigest)
  }

  lemma {:induction false} CitedSnoc(init: seq<Item>, item: Item, d: string)
    ensures Cited(init + [item], d) <==> Cited(init, d) || Cites(item, d)
  {
    var items := init + [item];
    if k :| 0 <= k < |init| && Cites(init[k], d) {
      assert Cites(items[k], d);
    }
    assert items[|init|] == item;
  }

  /** The digests the walk marks as used are exactly the cited ones. */
  lemma {:induction false} WalkUsed(check: Item -> Option<TimeProof>, items: seq<Item>, d: string)
    requires Walk(check, items).Some?
    ensures d in Walk(check, items).value.used <==> Cited(items, d)
  {
    if items != [] {
      var n := |items| - 1;
      WalkUsed(check, items[..n], d);
      assert items == items[..n] + [items[n]];
      CitedSnoc(items[..n], items[n], d);
    }
  }

  lemma {:induction false} WalkVerified(check: Item -> Option<TimeProof>, items: seq<Item>)
    requires Walk(check, items).Some?
    ensures Walk(check, items).value.verified == ObjectDigests(items)
  {
    if items != [] {
      var n := |items| - 1;
      WalkVerified(check, items[..n]);
      assert ObjectDigests(items) == ObjectDigests(items[..n]) + [items[n].objectDigest];
    }
  }

  ghost predicate Reaches(check: Item -> Option<TimeProof>, item: Item, highWater: nat) {
    check(item).Some? && check(item).value.highWater == highWater
  }

  /** An upper bound on the high-water marks that one of them attains, or zero. */
  ghost predicate Highest(check: Item -> Option<TimeProof>, items: seq<Item>, highWater: nat) {
    && (forall k | 0 <= k < |items| :: check(items[k]).Some? && check(items[k]).value.highWater <= highWater)
    && (highWater == 0 || exists k :: 0 <= k < |items| && Reaches(check, items[k], highWater))
  }

  lemma {:induction false} HighestSnoc(check: Item -> Option<TimeProof>, init: seq<Item>, item: Item, mark: nat)
    requires Highest(check, init, mark) && check(item).Some?
    ensures Highest(check, init + [item],
                    if check(item).value.highWater > mark then check(item).value.highWater else mark)
  {
    var items := init + [item];
    assert items[|init|] == item;
    if check(item).value.highWater > mark {
      assert Reaches(check, items[|init|], check(item).value.highWater);
    } else if k :| 0 <= k < |init| && Reaches(check, init[k], mark) {
      assert Reaches(check, items[k], mark);
    }
  }

  lemma {:induction false} WalkHighest(check: Item -> Option<TimeProof>, items: seq<Item>)
    requires Walk(check, items).Some?
    ensures Highest(check, items, Walk(check, items).value.highWater)
  {
    if items != [] {
      var n := |items| - 1;
      WalkHighest(check, items[..n]);
      assert items == items[..n] + [items[n]];
      HighestSnoc(check, items[..n], items[n], Walk(check, items[..n]).value.highWater);
    }
  }

  // ---------- the main results ----------

  ghost predicate BoundAll(digest: Material -> Result<string>, refs: Refs, materials: seq<Material>) {
    forall i | 0 <= i < |materials| :: Bound(refs, digest(materials[i]), materials[i])
  }

  /** Under a known digest, the reference map holds the one reference with that digest. */
  lemma {:induction false} UniqueRef(refs: seq<ProofRef>, j: nat)
    requires Distinct(RefDigests(refs)) && j < |refs|
    ensures refs[j].objectDigest in RefMap(refs) && RefMap(refs)[refs[j].objectDigest] == refs[j]
  {
    RefMapEntries(refs);
    var d := refs[j].objectDigest;
    assert RefDigests(refs)[j] == d;
    var k :| 0 <= k < |refs| && refs[k] == RefMap(refs)[d];
    assert RefDigests(refs)[k] == RefDigests(refs)[j];
  }

  /**
   Bound, distinct and as many as the references: that is a perfect matching.  In particular the
   references themselves must carry distinct digests, which nothing checks directly.
   */
  lemma {:induction false} MatchingExact(digest: Material -> Result<string>, refs: seq<ProofRef>,
                                         materials: seq<Material>)
    ensures |materials| == |refs| && ObjectMap(digest, RefMap(refs), materials).Some? <==>
        Matched(digest, refs, materials)
  {
    RefMapEntries(refs);
    if |materials| == |refs| && ObjectMap(digest, RefMap(refs), materials).Some? {
      ObjectMapEntries(digest, RefMap(refs), materials);
      MaterialsMatched(digest, refs, materials);
    }
    if Matched(digest, refs, materials) {
      MatchedBound(digest, refs, materials);
      ObjectMapDefined(digest, RefMap(refs), materials);
    }
  }

  lemma {:induction false} MaterialsMatched(digest: Material -> Result<string>, refs: seq<ProofRef>,
                                            materials: seq<Material>)
    requires |materials| == |refs| && Digested(digest, materials) && Distinct(Digests(digest, materials))
    requires BoundAll(digest, RefMap(refs), materials)
    ensures Matched(digest, refs, materials)
  {
    var ds, rs := Digests(digest, materials), RefDigests(refs);
    RefMapEntries(refs);
    forall i | 0 <= i < |ds|
      ensures ds[i] in rs
    {
      assert Bound(RefMap(refs), digest(materials[i]), materials[i]);
    }
    DistinctCovers(ds, rs);
    DistinctMultiset(ds);
    DistinctMultiset(rs);
    forall i, j | 0 <= i < |materials| && 0 <= j < |refs| && digest(materials[i]) == Ok(refs[j].objectDigest)
      ensures refs[j].profileUri == materials[i].profileUri && refs[j].size == |materials[i].bytes|
    {
      assert Bound(RefMap(refs), digest(materials[i]), materials[i]);
      UniqueRef(refs, j);
    }
  }

  lemma {:induction false} MatchedBound(digest: Material -> Result<string>, refs: seq<ProofRef>,
                                        materials: seq<Material>)
    requires Matched(digest, refs, materials)
    ensures |materials| == |refs| && Distinct(Digests(digest, materials)) && BoundAll(digest, RefMap(refs), materials)
  {
    var ds, rs := Digests(digest, materials), RefDigests(refs);
    assert |multiset(ds)| == |ds| && |multiset(rs)| == |rs|;
    DistinctMultiset(ds);
    DistinctMultiset(rs);
    forall i | 0 <= i < |materials|
      ensures Bound(RefMap(refs), digest(materials[i]), materials[i])
    {
      assert ds[i] in ds;
      SameMembers(ds, rs, ds[i]);
      var j :| 0 <= j < |rs| && rs[j] == ds[i];
      UniqueRef(refs, j);
    }
  }

  /** Looking an item up in the object map is finding its proofs among the material. */
  lemma {:induction false} CheckItemExact(v: Verifier, refs: Refs, materials: seq<Material>, item: Item,
                                          time: TimeProof)
    requires ObjectMap(v.digest, refs, materials).Some?
    ensures CheckItem(v, ObjectMap(v.digest, refs, materials).value, item) == Some(time) <==>
        Proved(v, materials, item, time)
  {
    ObjectMapEntries(v.digest, refs, materials);
    var objects := ObjectMap(v.digest, refs, materials).value;
    if CheckItem(v, objects, item) == Some(time) {
      var i := Locate(v.digest, refs, materials, item.timeProofDigest);
      var j := Locate(v.digest, refs, materials, item.qualificationProofDigest);
      CheckProofsExact(v, materials[i], materials[j], item, time);
    }
    if i, j :| 0 <= i < |materials| && 0 <= j < |materials| && v.digest(materials[i]) == Ok(item.timeProofDigest)
               && v.digest(materials[j]) == Ok(item.qualificationProofDigest)
               && ProofsPass(v, materials[i], materials[j], item, time)
    {
      CheckProofsExact(v, materials[i], materials[j], item, time);
      assert Digests(v.digest, materials)[i] == item.timeProofDigest;
      assert Digests(v.digest, materials)[j] == item.qualificationProofDigest;
    }
  }

  lemma {:induction false} Locate(digest: Material -> Result<string>, refs: Refs, materials: seq<Material>, d: string)
      returns (i: nat)
    requires ObjectMap(digest, refs, materials).Some? && d in ObjectMap(digest, refs, materials).value
    ensures i < |materials| && digest(materials[i]) == Ok(d)
        && ObjectMap(digest, refs, materials).value[d] == materials[i]
  {
    ObjectMapEntries(digest, refs, materials);
    i :| 0 <= i < |materials| && Digests(digest, materials)[i] == d;
  }

  ghost predicate ProvedItem(v: Verifier, materials: seq<Material>, item: Item) {
    exists time :: Proved(v, materials, item, time)
  }

  /**
   A profile with required roles is assessed as qualified exactly when references and objects
   match one to one, every item's proofs are among the objects and pass, and every object is
   cited by some item: nothing missing, nothing left over.
   */
  ghost predicate Complete(v: Verifier, refs: seq<ProofRef>, items: seq<Item>, materials: seq<Material>) {
    && Matched(v.digest, refs, materials)
    && (forall k | 0 <= k < |items| :: ProvedItem(v, materials, items[k]))
    && forall j | 0 <= j < |refs| :: Cited(items, refs[j].objectDigest)
  }

  lemma {:induction false} ItemsProved(v: Verifier, refs: Refs, materials: seq<Material>, items: seq<Item>)
    requires ObjectMap(v.digest, refs, materials).Some?
    ensures var check := (item: Item) => CheckItem(v, ObjectMap(v.digest, refs, materials).value, item);
            Walk(check, items).Some? <==> forall k | 0 <= k < |items| :: ProvedItem(v, materials, items[k])
  {
    var objects := ObjectMap(v.digest, refs, materials).value;
    var check := (item: Item) => CheckItem(v, objects, item);
    WalkDefined(check, items);
    forall k | 0 <= k < |items|
      ensures check(items[k]).Some? <==> ProvedItem(v, materials, items[k])
    {
      if check(items[k]).Some? {
        CheckItemExact(v, refs, materials, items[k], check(items[k]).value);
      }
      if ProvedItem(v, materials, items[k]) {
        var time :| Proved(v, materials, items[k], time);
        CheckItemExact(v, refs, materials, items[k], time);
      }
    }
  }

  lemma {:induction false} ObjectsCited(digest: Material -> Result<string>, refs: seq<ProofRef>,
                                        materials: seq<Material>, check: Item -> Option<TimeProof>, items: seq<Item>)
    requires |materials| == |refs| && ObjectMap(digest, RefMap(refs), materials).Some? && Walk(check, items).Some?
    ensures ObjectMap(digest, RefMap(refs), materials).value.Keys <= Walk(check, items).value.used
       <==> forall j | 0 <= j < |refs| :: Cited(items, refs[j].objectDigest)
  {
    var objects, used := ObjectMap(digest, RefMap(refs), materials).value, Walk(check, items).value.used;
    ObjectMapEntries(digest, RefMap(refs), materials);
    MatchingExact(digest, refs, materials);
    forall d
      ensures d in objects <==> d in RefDigests(refs)
      ensures d in used <==> Cited(items, d)
    {
      SameMembers(Digests(digest, materials), RefDigests(refs), d);
      WalkUsed(check, items, d);
    }
    if objects.Keys <= used {
      forall j | 0 <= j < |refs|
        ensures Cited(items, refs[j].objectDigest)
      {
        assert RefDigests(refs)[j] in RefDigests(refs);
      }
    }
  }

  lemma {:induction false} AssessExact(v: Verifier, required: seq<string>, refs: seq<ProofRef>, items: seq<Item>,
                                       materials: seq<Material>)
    ensures required != [] ==>
              (Assess(v, required, refs, items, materials).Ok? <==> Complete(v, refs, items, materials))
    ensures required == [] ==>
              (Assess(v, required, refs, items, materials).Ok? <==> refs == [] && items == [] && materials == [])
  {
    MatchingExact(v.digest, refs, materials);
    var objects := ObjectMap(v.digest, RefMap(refs), materials);
    if |materials| == |refs| && objects.Some? {
      var check := (item: Item) => CheckItem(v, objects.value, item);
      ItemsProved(v, RefMap(refs), materials, items);
      if Walk(check, items).Some? {
        ObjectsCited(v.digest, refs, materials, check, items);
      }
    }
  }

  ghost predicate BestMark(v: Verifier, materials: seq<Material>, items: seq<Item>, mark: nat) {
    && (forall k, time | 0 <= k < |items| && Proved(v, materials, items[k], time) :: time.highWater <= mark)
    && (mark == 0 || exists k, time ::
                       0 <= k < |items| && Proved(v, materials, items[k], time) && time.highWater == mark)
  }

  lemma {:induction false} WalkBestMark(v: Verifier, refs: Refs, materials: seq<Material>, items: seq<Item>,
                                        check: Item -> Option<TimeProof>)
    requires ObjectMap(v.digest, refs, materials).Some? && Walk(check, items).Some?
    requires forall item :: check(item) == CheckItem(v, ObjectMap(v.digest, refs, materials).value, item)
    ensures BestMark(v, materials, items, Walk(check, items).value.highWater)
  {
    WalkHighest(check, items);
    var mark := Walk(check, items).value.highWater;
    forall k, time | 0 <= k < |items| && Proved(v, materials, items[k], time)
      ensures time.highWater <= mark
    {
      CheckItemExact(v, refs, materials, items[k], time);
    }
    if mark != 0 {
      var k :| 0 <= k < |items| && Reaches(check, items[k], mark);
      CheckItemExact(v, refs, materials, items[k], check(items[k]).value);
      assert Proved(v, materials, items[k], check(items[k]).value);
    }
  }

  /** What the assessment reports: the evidence of all items in canonical order, and the largest finalised mark. */
  lemma {:induction false} AssessReports(v: Verifier, required: seq<string>, refs: seq<ProofRef>, items: seq<Item>,
                                         materials: seq<Material>)
    requires Assess(v, required, refs, items, materials).Ok?
    ensures var a := Assess(v, required, refs, items, materials).value;
            && (a.qualified <==> required != [])
            && Sorted(a.verified) && multiset(a.verified) == multiset(ObjectDigests(items))
            && BestMark(v, materials, items, a.highWater)
  {
    if required == [] {
      return;
    }
    var objects := ObjectMap(v.digest, RefMap(refs), materials).value;
    var check := (item: Item) => CheckItem(v, objects, item);
    WalkVerified(check, items);
    WalkBestMark(v, RefMap(refs), materials, items, check);
    SortSorted(ObjectDigests(items));
  }

  // ---------- evidence roles ----------

  function Roles(items: seq<Item>): (r: seq<string>)
    ensures |r| == |items| && forall k | 0 <= k < |items| :: r[k] == items[k].role
  {
    seq(|items|, k requires 0 <= k < |items| => items[k].role)
  }

  /** Every required role is filled, every item fills an allowed role, and no role is filled twice. */
  ghost predicate RolesFilled(required: seq<string>, optional: seq<string>, items: seq<Item>) {
    && (forall r | r in required :: r in Roles(items))
    && (forall r | r in Roles(items) :: r in required || r in optional)
    && Distinct(Roles(items))
  }

  method CountRole(items: seq<Item>, role: string) returns (count: nat)
    ensures count == multiset(Roles(items))[role]
  {
    count := 0;
    for i := 0 to |items|
      invariant count == multiset(Roles(items)[..i])[role]
    {
      assert Roles(items)[..i + 1] == Roles(items)[..i] + [items[i].role];
      if items[i].role == role {
        count := count + 1;
      }
    }
    assert Roles(items)[..|items|] == Roles(items);
  }

  method RequiredOnce(required: seq<string>, items: seq<Item>) returns (ok: bool)
    ensures ok <==> forall r | r in required :: multiset(Roles(items))[r] == 1
  {
    for j := 0 to |required|
      invariant forall r | r in required[..j] :: multiset(Roles(items))[r] == 1
    {
      var count := CountRole(items, required[j]);
      if count != 1 {
        return false;
      }
      assert required[..j + 1] == required[..j] + [required[j]];
    }
    assert required[..|required|] == required;
    return true;
  }

  /** The second pass, with its running count of every role met so far. */
  method AllowedOnce(required: seq<string>, optional: seq<string>, items: seq<Item>) returns (ok: bool)
    ensures ok <==> (forall r | r in Roles(items) :: r in required || r in optional) && Distinct(Roles(items))
  {
    var counts: map<string, nat> := map[];
    var roles := Roles(items);
    for i := 0 to |items|
      invariant forall r :: r in counts <==> r in roles[..i]
      invariant forall r | r in counts :: counts[r] == 1
      invariant (forall r | r in roles[..i] :: r in required || r in optional) && Distinct(roles[..i])
    {
      var role := items[i].role;
      assert roles[i] == role && roles[..i + 1] == roles[..i] + [role];
      counts := counts[role := (if role in counts then counts[role] else 0) + 1];
      if role !in required + optional {
        return false;
      }
      if counts[role] > 1 {
        var k :| 0 <= k < i && roles[..i][k] == role;
        assert roles[k] == roles[i];
        return false;
      }
    }
    assert roles[..|items|] == roles;
    return true;
  }

  lemma {:induction false} OnceIffIn(roles: seq<string>, r: string)
    requires Distinct(roles)
    ensures multiset(roles)[r] == 1 <==> r in roles
  {
    DistinctMultiset(roles);
    assert r in roles <==> r in multiset(roles);
  }

  /** The role check of `VerifyOperationOutcomeArtifactsV1`. */
  method VerifyRoles(required: seq<string>, optional: seq<string>, items: seq<Item>) returns (ok: bool)
    ensures ok <==> RolesFilled(required, optional, items)
  {
    var once := RequiredOnce(required, items);
    var allowed := AllowedOnce(required, optional, items);
    if Distinct(Roles(items)) {
      forall r | r in required
        ensures multiset(Roles(items))[r] == 1 <==> r in Roles(items)
      {
        OnceIffIn(Roles(items), r);
      }
    }
    return once && allowed;
  }

  /** Both proofs of every item are among the references. */
  ghost predicate ProofsBound(refs: seq<ProofRef>, items: seq<Item>) {
    forall k | 0 <= k < |items| ::
      items[k].timeProofDigest in RefDigests(refs) && items[k].qualificationProofDigest in RefDigests(refs)
  }

  /** `verifyOutcomeEvidenceProofBindings`. */
  method VerifyProofBindings(refs: seq<ProofRef>, items: seq<Item>) returns (ok: bool)
    ensures ok <==> ProofsBound(refs, items)
  {
    var proofs: set<string> := {};
    for j := 0 to |refs|
      invariant forall d :: d in proofs <==> d in RefDigests(refs)[..j]
    {
      proofs := proofs + {refs[j].objectDigest};
      assert RefDigests(refs)[..j + 1] == RefDigests(refs)[..j] + [refs[j].objectDigest];
    }
    assert RefDigests(refs)[..|refs|] == RefDigests(refs);
    for k := 0 to |items|
      invariant forall l | 0 <= l < k ::
        items[l].timeProofDigest in RefDigests(refs) && items[l].qualificationProofDigest in RefDigests(refs)
    {
      if items[k].timeProofDigest !in proofs || items[k].qualificationProofDigest !in proofs {
        return false;
      }
    }
    return true;
  }

  /** A qualified assessment implies the binding check, and the converse too: what is referenced is cited. */
  lemma {:induction false} CitationsReferenced(v: Verifier, required: seq<string>, refs: seq<ProofRef>,
                                               items: seq<Item>, materials: seq<Material>)
    requires required != [] && Assess(v, required, refs, items, materials).Ok?
    ensures ProofsBound(refs, items)
    ensures forall d :: Cited(items, d) <==> d in RefDigests(refs)
  {
    AssessExact(v, required, refs, items, materials);
    forall d
      ensures Cited(items, d) <==> d in RefDigests(refs)
    {
      CitedIffReferenced(v, refs, items, materials, d);
    }
    forall k | 0 <= k < |items|
      ensures items[k].timeProofDigest in RefDigests(refs) && items[k].qualificationProofDigest in RefDigests(refs)
    {
      assert Cites(items[k], items[k].timeProofDigest) && Cites(items[k], items[k].qualificationProofDigest);
      assert Cited(items, items[k].timeProofDigest) && Cited(items, items[k].qualificationProofDigest);
    }
  }

  lemma {:induction false} ProvedReferenced(v: Verifier, refs: seq<ProofRef>, materials: seq<Material>, item: Item,
                                            d: string)
    requires Matched(v.digest, refs, materials) && ProvedItem(v, materials, item) && Cites(item, d)
    ensures d in RefDigests(refs)
  {
    var i :| 0 <= i < |materials| && v.digest(materials[i]) == Ok(d);
    assert Digests(v.digest, materials)[i] == d;
    SameMembers(Digests(v.digest, materials), RefDigests(refs), d);
  }

  lemma {:induction false} CitedIffReferenced(v: Verifier, refs: seq<ProofRef>, items: seq<Item>,
                                              materials: seq<Material>, d: string)
    requires Complete(v, refs, items, materials)
    ensures Cited(items, d) <==> d in RefDigests(refs)
  {
    if k :| 0 <= k < |items| && Cites(items[k], d) {
      ProvedReferenced(v, refs, materials, items[k], d);
    }
    if d in RefDigests(refs) {
      var j :| 0 <= j < |refs| && RefDigests(refs)[j] == d;
      assert Cited(items, refs[j].objectDigest);
    }
  }

  /** With the role check, a qualified outcome rests on exactly one proved item for each required role. */
  lemma {:induction false} RoleBacked(v: Verifier, required: seq<string>, optional: seq<string>, refs: seq<ProofRef>,
                                      items: seq<Item>, materials: seq<Material>, role: string) returns (k: nat)
    requires Assess(v, required, refs, items, materials).Ok? && RolesFilled(required, optional, items)
        && role in required
    ensures k < |items| && items[k].role == role && ProvedItem(v, materials, items[k])
    ensures forall j | 0 <= j < |items| && items[j].role == role :: j == k
  {
    AssessExact(v, required, refs, items, materials);
    k :| 0 <= k < |items| && Roles(items)[k] == role;
    forall j | 0 <= j < |items| && items[j].role == role
      ensures j == k
    {
      assert Roles(items)[j] == Roles(items)[k];
    }
  }

  /** Some item fills the role, and its proofs pass. */
  ghost predicate Backed(v: Verifier, materials: seq<Material>, items: seq<Item>, role: string) {
    exists k :: 0 <= k < |items| && items[k].role == role && ProvedItem(v, materials, items[k])
  }

  /**
   On its own the authority assessment does not look at roles: every required role is backed by
   a proved item exactly when the manifest names it.  An empty manifest is the case in point.
   */
  lemma {:induction false} RolesNeedTheirOwnCheck(v: Verifier, required: seq<string>, refs: seq<ProofRef>,
                                                  items: seq<Item>, materials: seq<Material>)
    requires required != []
    ensures Assess(v, required, [], [], []) == Ok(Assessment(true, [], 0))
    ensures Assess(v, required, refs, items, materials).Ok? ==>
              ((forall r | r in required :: Backed(v, materials, items, r))
               <==> forall r | r in required :: r in Roles(items))
  {
    AssessExact(v, required, refs, items, materials);
    if Assess(v, required, refs, items, materials).Ok? {
      forall r
        ensures Backed(v, materials, items, r) <==> r in Roles(items)
      {
        if r in Roles(items) {
          var k :| 0 <= k < |items| && Roles(items)[k] == r;
          assert items[k].role == r && ProvedItem(v, materials, items[k]);
        }
        if k :| 0 <= k < |items| && items[k].role == r && ProvedItem(v, materials, items[k]) {
          assert Roles(items)[k] == r;
        }
      }
    }
  }
}
