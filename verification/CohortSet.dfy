/**
 Cohort roots and membership proofs over sets of assertion references: the three
 operations as imperative methods, and what a root and an accepted proof commit to.
 */
module CohortSet {
  import opened Text
  import opened Cohort

  // ---------- the tree a level folds into ----------

  function PairUp(ts: seq<Tree>): (r: seq<Tree>)
    ensures |r| == (|ts| + 1) / 2
  {
    seq((|ts| + 1) / 2, k requires 0 <= k < (|ts| + 1) / 2 =>
      if 2 * k + 1 < |ts| then Node(ts[2 * k], ts[2 * k + 1]) else ts[2 * k])
  }

  function Join(ts: seq<Tree>): Tree
    requires ts != []
    decreases |ts|
  {
    if |ts| == 1 then ts[0] else Join(PairUp(ts))
  }

  function HashAll(h: string -> string, ts: seq<Tree>): seq<string> {
    seq(|ts|, i requires 0 <= i < |ts| => Hash(h, ts[i]))
  }

  function LeafTrees(cs: seq<string>): (r: seq<Tree>)
    ensures |r| == |cs|
  {
    seq(|cs|, i requires 0 <= i < |cs| => Leaf(cs[i]))
  }

  function AllLeaves(ts: seq<Tree>): seq<string> {
    if ts == [] then [] else Leaves(ts[0]) + AllLeaves(ts[1..])
  }

  lemma {:induction false} RootIsTreeHash(h: string -> string, ts: seq<Tree>)
    requires ts != []
    ensures RootOf(h, HashAll(h, ts)) == Hash(h, Join(ts))
    decreases |ts|
  {
    if |ts| > 1 {
      assert NextLevel(h, HashAll(h, ts)) == HashAll(h, PairUp(ts));
      RootIsTreeHash(h, PairUp(ts));
    }
  }

  lemma {:induction false} PairUpLeaves(ts: seq<Tree>)
    ensures AllLeaves(PairUp(ts)) == AllLeaves(ts)
    decreases |ts|
  {
    if |ts| <= 1 {
      assert PairUp(ts) == ts;
    } else {
      assert PairUp(ts) == [Node(ts[0], ts[1])] + PairUp(ts[2..]);
      PairUpLeaves(ts[2..]);
      assert ts[1..][1..] == ts[2..];
      assert Leaves(ts[0]) + Leaves(ts[1]) + AllLeaves(ts[2..]) == Leaves(ts[0]) + (Leaves(ts[1]) + AllLeaves(ts[2..]));
    }
  }

  lemma {:induction false} JoinLeaves(ts: seq<Tree>)
    requires ts != []
    ensures Leaves(Join(ts)) == AllLeaves(ts)
    decreases |ts|
  {
    if |ts| == 1 {
      assert AllLeaves(ts) == Leaves(ts[0]) + [];
    } else {
      PairUpLeaves(ts);
      JoinLeaves(PairUp(ts));
    }
  }

  lemma {:induction false} LeafTreesLeaves(cs: seq<string>)
    ensures AllLeaves(LeafTrees(cs)) == cs
  {
    if cs != [] {
      LeafTreesLeaves(cs[1..]);
      assert LeafTrees(cs)[1..] == LeafTrees(cs[1..]);
    }
  }

  /** Everything hashed while folding a level is hashed in its tree. */
  lemma {:induction false} JoinMessages(h: string -> string, ts: seq<Tree>)
    requires ts != []
    ensures forall i | 0 <= i < |ts| :: TreeMessages(h, ts[i]) <= TreeMessages(h, Join(ts))
    ensures LevelMessages(h, HashAll(h, ts)) <= TreeMessages(h, Join(ts))
    decreases |ts|
  {
    if |ts| > 1 {
      var up := PairUp(ts);
      assert NextLevel(h, HashAll(h, ts)) == HashAll(h, up);
      JoinMessages(h, up);
      forall i | 0 <= i < |ts|
        ensures TreeMessages(h, ts[i]) <= TreeMessages(h, Join(ts))
      {
        Halve(i);
        PairUpCovers(h, ts, i, i / 2);
      }
      forall m | m in PairMessages(HashAll(h, ts))
        ensures m in TreeMessages(h, Join(ts))
      {
        var k :| 0 <= k < |ts| && 2 * k + 1 < |ts| && m == PairMessage(HashAll(h, ts), k);
        PairUpCovers(h, ts, 2 * k, k);
        assert m in TreeMessages(h, up[k]);
      }
    }
  }

  lemma {:induction false} PairUpCovers(h: string -> string, ts: seq<Tree>, i: nat, k: nat)
    requires i < |ts| && (i == 2 * k || i == 2 * k + 1)
    ensures k < |PairUp(ts)| && TreeMessages(h, ts[i]) <= TreeMessages(h, PairUp(ts)[k])
    ensures 2 * k + 1 < |ts| ==> PairUp(ts)[k] == Node(ts[2 * k], ts[2 * k + 1])
  {
  }

  // ---------- root ----------

  ghost predicate Encodable(marshal: Codec, refs: seq<AssertionRef>) {
    forall i | 0 <= i < |refs| :: marshal(refs[i]).Ok?
  }

  function Encodings(marshal: Codec, refs: seq<AssertionRef>): (r: seq<string>)
    requires Encodable(marshal, refs)
    ensures |r| == |refs|
  {
    seq(|refs|, i requires 0 <= i < |refs| => marshal(refs[i]).value)
  }

  function LeafLevel(h: string -> string, cs: seq<string>): (r: seq<string>)
    ensures |r| == |cs|
  {
    seq(|cs|, i requires 0 <= i < |cs| => h(LeafMessage(cs[i])))
  }

  function RootHash(h: string -> string, cs: seq<string>): string {
    if cs == [] then h(EMPTY_DOMAIN) else RootOf(h, LeafLevel(h, cs))
  }

  ghost predicate AllValid(refs: seq<AssertionRef>) {
    forall i | 0 <= i < |refs| :: ValidRef(refs[i])
  }

  /** The root of a reference list: an error unless every reference is valid and none repeats. */
  ghost function SetRoot(h: string -> string, marshal: Codec, refs: seq<AssertionRef>): Result<string> {
    if AllValid(refs) && Encodable(marshal, refs) && Distinct(Encodings(marshal, refs))
    then Ok(DigestText(RootHash(h, Sort(Encodings(marshal, refs)))))
    else Err
  }

  /** All messages hashed to obtain the root. */
  ghost function SetMessages(h: string -> string, marshal: Codec, refs: seq<AssertionRef>): set<string>
    requires Encodable(marshal, refs)
  {
    {EMPTY_DOMAIN} +
    if refs == [] then {} else TreeMessages(h, Join(LeafTrees(Sort(Encodings(marshal, refs)))))
  }

  lemma {:induction false} LeafLevelHashes(h: string -> string, cs: seq<string>)
    requires IsHash(h)
    ensures AllHashes(LeafLevel(h, cs))
  {
    forall i | 0 <= i < |cs|
      ensures |LeafLevel(h, cs)[i]| == 32 && IsBytes(LeafLevel(h, cs)[i])
    {
      assert LeafLevel(h, cs)[i] == h(LeafMessage(cs[i]));
    }
  }

  lemma {:induction false} RootHashIsHash(h: string -> string, cs: seq<string>)
    requires IsHash(h)
    ensures |RootHash(h, cs)| == 32 && IsBytes(RootHash(h, cs))
  {
    if cs != [] {
      LeafLevelHashes(h, cs);
      RootOfIsHash(h, LeafLevel(h, cs));
    }
  }

  lemma {:induction false} RootOfIsHash(h: string -> string, level: seq<string>)
    requires IsHash(h) && level != [] && AllHashes(level)
    ensures |RootOf(h, level)| == 32 && IsBytes(RootOf(h, level))
    decreases |level|
  {
    if |level| > 1 {
      NextLevelHashes(h, level);
      RootOfIsHash(h, NextLevel(h, level));
    }
  }

  lemma {:induction false} RootHashIsTree(h: string -> string, cs: seq<string>)
    requires cs != []
    ensures RootHash(h, cs) == Hash(h, Join(LeafTrees(cs)))
    ensures Leaves(Join(LeafTrees(cs))) == cs
  {
    assert LeafLevel(h, cs) == HashAll(h, LeafTrees(cs));
    RootIsTreeHash(h, LeafTrees(cs));
    JoinLeaves(LeafTrees(cs));
    LeafTreesLeaves(cs);
  }

  lemma {:induction false} EncodingsDistinct(marshal: Codec, refs: seq<AssertionRef>)
    requires Canonical(marshal) && AllValid(refs)
    ensures Encodable(marshal, refs) && (Distinct(refs) <==> Distinct(Encodings(marshal, refs)))
  {
    var e := Encodings(marshal, refs);
    if Distinct(refs) {
      forall i, j | 0 <= i < j < |refs|
        ensures e[i] != e[j]
      {
        assert refs[i] != refs[j];
        assert e[i] == marshal(refs[i]).value && e[j] == marshal(refs[j]).value;
      }
    }
    if Distinct(e) {
      forall i, j | 0 <= i < j < |refs|
        ensures refs[i] != refs[j]
      {
        assert e[i] != e[j];
      }
    }
  }

  /** Under the canonical codec the root exists exactly for duplicate-free lists of valid references. */
  lemma {:induction false} SetRootDefined(h: string -> string, marshal: Codec, refs: seq<AssertionRef>)
    requires Canonical(marshal)
    ensures SetRoot(h, marshal, refs).Ok? <==> AllValid(refs) && Distinct(refs)
  {
    if AllValid(refs) {
      EncodingsDistinct(marshal, refs);
    }
  }

  // ---------- operations ----------

  /** One pass over a level. */
  method FoldLevel(h: string -> string, level: seq<string>) returns (next: seq<string>)
    ensures next == NextLevel(h, level)
  {
    next := [];
    var index := 0;
    while index < |level|
      invariant index == 2 * |next|
      invariant |next| <= (|level| + 1) / 2
      invariant next == NextLevel(h, level)[..|next|]
      decreases |level| - index
    {
      var k := |next|;
      if index + 1 == |level| {
        next := next + [level[index]];
      } else {
        next := next + [h(NodeMessage(level[index], level[index + 1]))];
      }
      assert NextLevel(h, level)[..k + 1] == NextLevel(h, level)[..k] + [NextLevel(h, level)[k]];
      index := index + 2;
    }
  }

  method FoldToRoot(h: string -> string, leaves: seq<string>) returns (root: string)
    requires leaves != []
    ensures root == RootOf(h, leaves)
  {
    var level := leaves;
    while |level| > 1
      invariant level != [] && RootOf(h, level) == RootOf(h, leaves)
      decreases |level|
    {
      level := FoldLevel(h, level);
    }
    return level[0];
  }

  method EncodeAll(marshal: Codec, refs: seq<AssertionRef>) returns (r: Result<seq<string>>)
    ensures r.Ok? <==> Encodable(marshal, refs)
    ensures r.Ok? ==> r.value == Encodings(marshal, refs)
  {
    var canonical: seq<string> := [];
    for i := 0 to |refs|
      invariant |canonical| == i
      invariant forall k | 0 <= k < i :: marshal(refs[k]) == Ok(canonical[k])
    {
      if marshal(refs[i]).Err? {
        return Err;
      }
      canonical := canonical + [marshal(refs[i]).value];
    }
    assert Encodings(marshal, refs) == canonical;
    return Ok(canonical);
  }

  method NeighbourRepeats(members: seq<string>) returns (found: bool)
    ensures found <==> !NeighboursDiffer(members)
  {
    var index := 1;
    while index < |members|
      invariant 1 <= index
      invariant forall i | 0 < i < index && i < |members| :: members[i - 1] != members[i]
    {
      if members[index - 1] == members[index] {
        return true;
      }
      index := index + 1;
    }
    return false;
  }

  method AllReferencesValid(refs: seq<AssertionRef>) returns (ok: bool)
    ensures ok <==> AllValid(refs)
  {
    for i := 0 to |refs|
      invariant forall k | 0 <= k < i :: ValidRef(refs[k])
    {
      if !ValidRef(refs[i]) {
        return false;
      }
    }
    return true;
  }

  /** `OutcomeAssertionSetRootV1`. */
  method OutcomeAssertionSetRoot(h: string -> string, marshal: Codec, refs: seq<AssertionRef>)
      returns (r: Result<string>)
    ensures r == SetRoot(h, marshal, refs)
  {
    var valid := AllReferencesValid(refs);
    var canonical := EncodeAll(marshal, refs);
    if !valid || canonical.Err? {
      return Err;
    }
    var members := Sort(canonical.value);
    AdjacentDuplicates(canonical.value);
    var repeated := NeighbourRepeats(members);
    if repeated {
      return Err;
    }
    if |members| == 0 {
      return Ok(DigestText(h(EMPTY_DOMAIN)));
    }
    var root := FoldToRoot(h, LeafLevel(h, members));
    return Ok(DigestText(root));
  }

  /** What the verifier accepts. */
  predicate Accepts(h: string -> string, marshal: Codec, proof: Proof, expectedRoot: string) {
    && 0 < proof.leafCount <= MAX_MEMBERS && proof.leafIndex < proof.leafCount
    && |proof.siblings| <= 32 && IsDigest32(expectedRoot) && ValidRef(proof.member)
    && marshal(proof.member).Ok?
    && var leaf := h(LeafMessage(marshal(proof.member).value));
       var root := Climb(h, leaf, proof.leafIndex, proof.leafCount, proof.siblings);
       root.Some? && DigestText(root.value) == expectedRoot
  }

  /** `VerifyOutcomeCohortMembershipProofV1`. */
  method VerifyProof(h: string -> string, marshal: Codec, proof: Proof, expectedRoot: string) returns (ok: bool)
    ensures ok <==> Accepts(h, marshal, proof, expectedRoot)
  {
    if proof.leafCount == 0 || proof.leafCount > MAX_MEMBERS || proof.leafIndex >= proof.leafCount
       || |proof.siblings| > 32 || !IsDigest32(expectedRoot) || !ValidRef(proof.member) || marshal(proof.member).Err? {
      return false;
    }
    var leaf := h(LeafMessage(marshal(proof.member).value));
    var current := leaf;
    var position, width, siblingIndex := proof.leafIndex, proof.leafCount, 0;
    ghost var goal := Climb(h, leaf, position, width, proof.siblings);
    assert proof.siblings[0..] == proof.siblings;
    while width > 1
      invariant position < width && siblingIndex <= |proof.siblings|
      invariant goal == Climb(h, current, position, width, proof.siblings[siblingIndex..])
      decreases width
    {
      if HasSibling(position, width) {
        if siblingIndex >= |proof.siblings| || !IsDigest32(proof.siblings[siblingIndex]) {
          return false;
        }
        current := Combine(h, position, current, SiblingBytes(proof.siblings[siblingIndex]).value);
        siblingIndex := siblingIndex + 1;
      }
      position, width := position / 2, (width + 1) / 2;
    }
    return siblingIndex == |proof.siblings| && DigestText(current) == expectedRoot;
  }

  /** What a successful build returns: the proof for `wanted` at its sorted position, and the root. */
  ghost predicate IsBuilt(h: string -> string, marshal: Codec, refs: seq<AssertionRef>, wanted: AssertionRef,
                          proof: Proof, root: string)
    requires Encodable(marshal, refs)
  {
    var cs := Sort(Encodings(marshal, refs));
    && proof.member == wanted && proof.leafCount == |refs| && proof.leafIndex < |cs|
    && marshal(wanted) == Ok(cs[proof.leafIndex])
    && Decodes(proof.siblings, Siblings(h, LeafLevel(h, cs), proof.leafIndex))
    && root == DigestText(RootHash(h, cs))
  }

  /** The builder's own answer passes the verifier, whatever the set. */
  lemma {:induction false} BuiltProofAccepted(h: string -> string, marshal: Codec, refs: seq<AssertionRef>,
                                              wanted: AssertionRef, proof: Proof, root: string)
    requires IsHash(h) && Encodable(marshal, refs) && |refs| <= MAX_MEMBERS && ValidRef(wanted)
    requires IsBuilt(h, marshal, refs, wanted, proof, root)
    ensures Accepts(h, marshal, proof, root)
  {
    var cs := Sort(Encodings(marshal, refs));
    var level := LeafLevel(h, cs);
    assert level[proof.leafIndex] == h(LeafMessage(cs[proof.leafIndex]));
    ClimbComplete(h, level, proof.leafIndex, proof.siblings);
    Pow2Of32();
    SiblingBound(h, level, proof.leafIndex, 32);
    RootHashIsHash(h, cs);
    DigestDecodes(RootHash(h, cs));
  }

  lemma {:induction false} Pow2Of32()
    ensures MAX_MEMBERS < Pow2(32)
  {
    assert Pow2(8) == 256;
    assert Pow2(16) == 65536;
    assert Pow2(24) == 16777216;
    assert Pow2(32) == 4294967296;
  }

  /** One turn of the loop moves the neighbour, if any, from the siblings ahead to those collected. */
  lemma {:induction false} SiblingsStep(h: string -> string, level: seq<string>, position: nat, done: seq<string>)
    requires position < |level| && |level| > 1
    ensures position / 2 < |NextLevel(h, level)| < |level|
    ensures HasSibling(position, |level|) ==> Neighbour(position) < |level|
    ensures done + Siblings(h, level, position) ==
            (if HasSibling(position, |level|) then done + [level[Neighbour(position)]] else done)
            + Siblings(h, NextLevel(h, level), position / 2)
  {
    StepBounds(position, |level|);
    var rest := Siblings(h, NextLevel(h, level), position / 2);
    if HasSibling(position, |level|) {
      var s := level[Neighbour(position)];
      assert Siblings(h, level, position) == [s] + rest;
      assert done + ([s] + rest) == (done + [s]) + rest;
    } else {
      assert Siblings(h, level, position) == rest;
    }
  }

  lemma {:induction false} StepBounds(position: nat, width: nat)
    requires position < width && width > 1
    ensures position / 2 < (width + 1) / 2 < width
    ensures HasSibling(position, width) ==> Neighbour(position) < width
  {
  }

  lemma {:induction false} DecodesAppend(texts: seq<string>, hashes: seq<string>, text: string, hash: string)
    requires Decodes(texts, hashes) && IsDigest32(text) && SiblingBytes(text) == Some(hash)
    ensures Decodes(texts + [text], hashes + [hash])
  {
  }

  /** The sibling texts and the root, folding the levels once more. */
  method ClimbLevels(h: string -> string, leaves: seq<string>, start: nat) returns (siblings: seq<string>, root: string)
    requires IsHash(h) && AllHashes(leaves) && start < |leaves|
    ensures Decodes(siblings, Siblings(h, leaves, start)) && root == RootOf(h, leaves)
  {
    var level := leaves;
    var position: nat := start;
    siblings := [];
    ghost var done: seq<string> := [];
    while |level| > 1
      invariant position < |level| && AllHashes(level)
      invariant Decodes(siblings, done)
      invariant done + Siblings(h, level, position) == Siblings(h, leaves, start)
      invariant RootOf(h, level) == RootOf(h, leaves)
      decreases |level|
    {
      SiblingsStep(h, level, position, done);
      if HasSibling(position, |level|) {
        var s := level[Neighbour(position)];
        DigestDecodes(s);
        DecodesAppend(siblings, done, DigestText(s), s);
        siblings := siblings + [DigestText(s)];
        done := done + [s];
      }
      NextLevelHashes(h, level);
      level := FoldLevel(h, level);
      position := position / 2;
    }
    root := level[0];
    assert done + [] == done;
  }

  method FindLast(members: seq<string>, wanted: string) returns (found: Option<nat>)
    ensures found.None? <==> wanted !in members
    ensures found.Some? ==> found.value < |members| && members[found.value] == wanted
  {
    found := None;
    for index: nat := 0 to |members|
      invariant found.None? <==> wanted !in members[..index]
      invariant found.Some? ==> found.value < index && members[found.value] == wanted
    {
      if members[index] == wanted {
        found := Some(index);
      }
    }
    assert members[..|members|] == members;
  }

  /** The builder looks at the validity of the wanted reference only. */
  ghost predicate Buildable(marshal: Codec, refs: seq<AssertionRef>, wanted: AssertionRef) {
    && 0 < |refs| <= MAX_MEMBERS && Encodable(marshal, refs) && ValidRef(wanted)
    && marshal(wanted).Ok? && marshal(wanted).value in Encodings(marshal, refs)
    && Distinct(Encodings(marshal, refs))
  }

  /** `BuildOutcomeCohortMembershipProofV1`, with its self-check. */
  method BuildProof(h: string -> string, marshal: Codec, refs: seq<AssertionRef>, wanted: AssertionRef)
      returns (r: Result<(Proof, string)>)
    requires IsHash(h)
    ensures r.Ok? <==> Buildable(marshal, refs, wanted)
    ensures r.Ok? ==> IsBuilt(h, marshal, refs, wanted, r.value.0, r.value.1)
    ensures r.Ok? ==> Accepts(h, marshal, r.value.0, r.value.1) && |r.value.0.siblings| <= 32
    ensures r.Ok? ==> (SetRoot(h, marshal, refs) == Ok(r.value.1) <==> AllValid(refs))
  {
    if |refs| == 0 || |refs| > MAX_MEMBERS || marshal(wanted).Err? {
      return Err;
    }
    var canonical := EncodeAll(marshal, refs);
    if canonical.Err? {
      return Err;
    }
    var members := Sort(canonical.value);
    AdjacentDuplicates(canonical.value);
    var repeated := NeighbourRepeats(members);
    var index := FindLast(members, marshal(wanted).value);
    assert marshal(wanted).value in members <==> marshal(wanted).value in multiset(canonical.value);
    if repeated || index.None? {
      return Err;
    }
    LeafLevelHashes(h, members);
    var siblings, root := ClimbLevels(h, LeafLevel(h, members), index.value);
    var proof := Proof(wanted, index.value, |members|, siblings);
    var ok := VerifyProof(h, marshal, proof, DigestText(root));
    if ValidRef(wanted) {
      BuiltProofAccepted(h, marshal, refs, wanted, proof, DigestText(root));
    }
    if !ok {
      return Err;
    }
    return Ok((proof, DigestText(root)));
  }

  /** A valid reference beside one without a network: the builder answers for a set that has no root. */
  lemma {:induction false} BuiltWithoutRoot(h: string -> string, marshal: Codec)
    requires var d := UniformDigest('0');
             var good, bad := marshal(AssertionRef("n", "a", "o", d)), marshal(AssertionRef("", "a", "o", d));
             good.Ok? && bad.Ok? && good != bad
    ensures var wanted := AssertionRef("n", "a", "o", UniformDigest('0'));
            var refs := [wanted, wanted.(networkId := "")];
            Buildable(marshal, refs, wanted) && SetRoot(h, marshal, refs).Err?
  {
    var wanted := AssertionRef("n", "a", "o", UniformDigest('0'));
    var refs := [wanted, wanted.(networkId := "")];
    LetterIdentifies('n', 256);
    LetterIdentifies('a', 256);
    LetterIdentifies('o', 256);
    DigestIsDigest32(UniformDigest('0'));
    assert Encodings(marshal, refs)[0] == marshal(wanted).value;
    assert !ValidRef(refs[1]);
  }

  // ---------- what roots and proofs commit to ----------

  ghost function ProofMessages(h: string -> string, marshal: Codec, proof: Proof): set<string>
    requires proof.leafIndex < proof.leafCount && marshal(proof.member).Ok?
  {
    var m := LeafMessage(marshal(proof.member).value);
    {m} + ClimbMessages(h, h(m), proof.leafIndex, proof.leafCount, proof.siblings)
  }

  lemma {:induction false} ClimbIsHash(h: string -> string, current: string, position: nat, width: nat,
                                       texts: seq<string>)
    requires IsHash(h) && position < width && |current| == 32 && IsBytes(current)
    ensures var r := Climb(h, current, position, width, texts); r.Some? ==> |r.value| == 32 && IsBytes(r.value)
    decreases width
  {
    if width > 1 {
      if !HasSibling(position, width) {
        ClimbIsHash(h, current, position / 2, (width + 1) / 2, texts);
      } else if texts != [] && IsDigest32(texts[0]) {
        ClimbIsHash(h, Combine(h, position, current, SiblingBytes(texts[0]).value), position / 2, (width + 1) / 2,
                    texts[1..]);
      }
    }
  }

  /** An accepted proof climbs to exactly the root hash of the set. */
  lemma {:induction false} AcceptedClimb(h: string -> string, marshal: Codec, refs: seq<AssertionRef>, proof: Proof)
    requires IsHash(h) && SetRoot(h, marshal, refs).Ok?
    requires Accepts(h, marshal, proof, SetRoot(h, marshal, refs).value)
    ensures Climb(h, h(LeafMessage(marshal(proof.member).value)), proof.leafIndex, proof.leafCount, proof.siblings)
            == Some(RootHash(h, Sort(Encodings(marshal, refs))))
  {
    var leaf := h(LeafMessage(marshal(proof.member).value));
    ClimbIsHash(h, leaf, proof.leafIndex, proof.leafCount, proof.siblings);
    var cs := Sort(Encodings(marshal, refs));
    RootHashIsHash(h, cs);
    DigestTextInjective(Climb(h, leaf, proof.leafIndex, proof.leafCount, proof.siblings).value, RootHash(h, cs));
  }

  lemma {:induction false} EncodingMember(marshal: Codec, refs: seq<AssertionRef>, member: AssertionRef)
    requires Canonical(marshal) && AllValid(refs) && Encodable(marshal, refs) && ValidRef(member)
    requires marshal(member).value in Sort(Encodings(marshal, refs))
    ensures member in refs
  {
    var e := Encodings(marshal, refs);
    assert marshal(member).value in multiset(Sort(e));
    var i :| 0 <= i < |e| && e[i] == marshal(member).value;
    assert marshal(refs[i]) == marshal(member);
  }

  /** No climb ends in the hash of the empty set. */
  lemma {:induction false} ClimbNeverEmpty(h: string -> string, m: string, position: nat, width: nat,
                                           texts: seq<string>)
    requires position < width && m != EMPTY_DOMAIN
    requires CollisionFree(h, {EMPTY_DOMAIN, m} + ClimbMessages(h, h(m), position, width, texts))
    ensures Climb(h, h(m), position, width, texts) != Some(h(EMPTY_DOMAIN))
    decreases width
  {
    if width > 1 {
      if !HasSibling(position, width) {
        ClimbNeverEmpty(h, m, position / 2, (width + 1) / 2, texts);
      } else if texts != [] && IsDigest32(texts[0]) {
        var s := SiblingBytes(texts[0]).value;
        var up := ClimbMessage(position, h(m), s);
        DomainsDisjoint("", h(m), s);
        DomainsDisjoint("", s, h(m));
        ClimbNeverEmpty(h, up, position / 2, (width + 1) / 2, texts[1..]);
      }
    }
  }

  /**
   Soundness: a proof accepted against the root of a set names a member of that set,
   whatever index and count it claims.
   */
  lemma {:induction false} MembershipSound(h: string -> string, marshal: Codec, refs: seq<AssertionRef>, proof: Proof)
    requires IsHash(h) && Canonical(marshal) && SetRoot(h, marshal, refs).Ok?
    requires Accepts(h, marshal, proof, SetRoot(h, marshal, refs).value)
    requires CollisionFree(h, SetMessages(h, marshal, refs) + ProofMessages(h, marshal, proof))
    ensures proof.member in refs
  {
    AcceptedClimb(h, marshal, refs, proof);
    var cs := Sort(Encodings(marshal, refs));
    var c := marshal(proof.member).value;
    DomainsDisjoint(c, "", "");
    if cs == [] {
      ClimbNeverEmpty(h, LeafMessage(c), proof.leafIndex, proof.leafCount, proof.siblings);
      assert false;
    } else {
      RootHashIsTree(h, cs);
      var t := Join(LeafTrees(cs));
      var s := ClimbStartsInTree(h, t, h(LeafMessage(c)), proof.leafIndex, proof.leafCount, proof.siblings);
      SubtreeFacts(h, t, s);
      TreeInjective(h, s, Leaf(c));
      EncodingMember(marshal, refs, proof.member);
    }
  }

  /**
   With the true count the index is the member's sorted position and the siblings decode to
   exactly those the builder produces.
   */
  lemma {:induction false} MembershipExact(h: string -> string, marshal: Codec, refs: seq<AssertionRef>, proof: Proof)
    requires IsHash(h) && SetRoot(h, marshal, refs).Ok? && proof.leafCount == |refs|
    requires Accepts(h, marshal, proof, SetRoot(h, marshal, refs).value)
    requires CollisionFree(h, SetMessages(h, marshal, refs) + ProofMessages(h, marshal, proof))
    ensures IsBuilt(h, marshal, refs, proof.member, proof, SetRoot(h, marshal, refs).value)
  {
    AcceptedClimb(h, marshal, refs, proof);
    var cs := Sort(Encodings(marshal, refs));
    var level := LeafLevel(h, cs);
    var m := LeafMessage(marshal(proof.member).value);
    assert level == HashAll(h, LeafTrees(cs));
    JoinMessages(h, LeafTrees(cs));
    LeafLevelHashes(h, cs);
    ClimbExact(h, level, proof.leafIndex, h(m), proof.siblings);
    var there := LeafMessage(cs[proof.leafIndex]);
    assert there in TreeMessages(h, LeafTrees(cs)[proof.leafIndex]);
    assert h(m) == h(there);
    LeafMessageInjective(marshal(proof.member).value, cs[proof.leafIndex]);
  }

  /** A member's encoding has a place in the sorted order. */
  lemma {:induction false} SortedPosition(marshal: Codec, refs: seq<AssertionRef>, member: AssertionRef)
      returns (k: nat)
    requires Encodable(marshal, refs) && member in refs
    ensures var cs := Sort(Encodings(marshal, refs)); k < |cs| && marshal(member) == Ok(cs[k])
  {
    var e := Encodings(marshal, refs);
    var cs := Sort(e);
    var i :| 0 <= i < |refs| && refs[i] == member;
    assert e[i] in multiset(e) && e[i] in multiset(cs);
    k :| 0 <= k < |cs| && cs[k] == e[i];
  }

  function Texts(hashes: seq<string>): (r: seq<string>)
    requires AllHashes(hashes)
    ensures |r| == |hashes|
  {
    seq(|hashes|, j requires 0 <= j < |hashes| => DigestText(hashes[j]))
  }

  lemma {:induction false} TextsDecode(hashes: seq<string>)
    requires AllHashes(hashes)
    ensures Decodes(Texts(hashes), hashes)
  {
    forall j | 0 <= j < |hashes|
      ensures IsDigest32(Texts(hashes)[j]) && SiblingBytes(Texts(hashes)[j]) == Some(hashes[j])
    {
      DigestDecodes(hashes[j]);
    }
  }

  /** Completeness: every member of a duplicate-free set of valid references has a proof that is accepted. */
  lemma {:induction false} MembershipComplete(h: string -> string, marshal: Codec, refs: seq<AssertionRef>,
                                              member: AssertionRef)
      returns (proof: Proof)
    requires IsHash(h) && Canonical(marshal) && AllValid(refs) && Distinct(refs) && |refs| <= MAX_MEMBERS
    requires member in refs
    ensures SetRoot(h, marshal, refs).Ok? && Accepts(h, marshal, proof, SetRoot(h, marshal, refs).value)
    ensures IsBuilt(h, marshal, refs, member, proof, SetRoot(h, marshal, refs).value) && |proof.siblings| <= 32
  {
    SetRootDefined(h, marshal, refs);
    var cs := Sort(Encodings(marshal, refs));
    var k := SortedPosition(marshal, refs, member);
    LeafLevelHashes(h, cs);
    var hashes := Siblings(h, LeafLevel(h, cs), k);
    SiblingsAreHashes(h, LeafLevel(h, cs), k);
    TextsDecode(hashes);
    proof := Proof(member, k, |refs|, Texts(hashes));
    BuiltProofAccepted(h, marshal, refs, member, proof, SetRoot(h, marshal, refs).value);
  }

  /** The root does not depend on the order of the input. */
  lemma {:induction false} RootIgnoresOrder(h: string -> string, marshal: Codec, refs: seq<AssertionRef>,
                                            other: seq<AssertionRef>)
    requires Canonical(marshal) && multiset(refs) == multiset(other)
    ensures SetRoot(h, marshal, refs) == SetRoot(h, marshal, other)
  {
    SetRootDefined(h, marshal, refs);
    SetRootDefined(h, marshal, other);
    DistinctMultiset(refs);
    DistinctMultiset(other);
    SameMembers(refs, other);
    if AllValid(refs) && Distinct(refs) {
      EncodingsMultiset(marshal, refs, other);
      SortPermutation(Encodings(marshal, refs), Encodings(marshal, other));
    }
  }

  lemma {:induction false} SameMembers(refs: seq<AssertionRef>, other: seq<AssertionRef>)
    requires multiset(refs) == multiset(other)
    ensures AllValid(refs) <==> AllValid(other)
    ensures |refs| == |other|
  {
    assert |multiset(refs)| == |refs| && |multiset(other)| == |other|;
    forall i | 0 <= i < |refs| ensures refs[i] in other { assert refs[i] in multiset(other); }
    forall i | 0 <= i < |other| ensures other[i] in refs { assert other[i] in multiset(refs); }
  }

  lemma {:induction false} EncodingsWithout(marshal: Codec, refs: seq<AssertionRef>, k: nat)
    requires Encodable(marshal, refs) && k < |refs|
    ensures Encodable(marshal, Without(refs, k))
    ensures Encodings(marshal, Without(refs, k)) == Without(Encodings(marshal, refs), k)
  {
  }

  /** Encoding a permutation gives a permutation of the encodings. */
  lemma {:induction false} EncodingsMultiset(marshal: Codec, refs: seq<AssertionRef>, other: seq<AssertionRef>)
    requires Encodable(marshal, refs) && Encodable(marshal, other) && multiset(refs) == multiset(other)
    ensures multiset(Encodings(marshal, refs)) == multiset(Encodings(marshal, other))
    decreases |refs|
  {
    assert |multiset(refs)| == |refs| && |multiset(other)| == |other|;
    if refs != [] {
      assert refs[0] in multiset(other);
      var k :| 0 <= k < |other| && other[k] == refs[0];
      WithoutMultiset(refs, 0);
      WithoutMultiset(other, k);
      EncodingsWithout(marshal, refs, 0);
      EncodingsWithout(marshal, other, k);
      EncodingsMultiset(marshal, Without(refs, 0), Without(other, k));
      RestoreMultiset(Encodings(marshal, refs), 0, Encodings(marshal, other), k);
    }
  }

  lemma {:induction false} RestoreMultiset(a: seq<string>, i: nat, b: seq<string>, k: nat)
    requires i < |a| && k < |b| && a[i] == b[k] && multiset(Without(a, i)) == multiset(Without(b, k))
    ensures multiset(a) == multiset(b)
  {
    assert a == a[..i] + [a[i]] + a[i + 1..];
    assert b == b[..k] + [b[k]] + b[k + 1..];
    assert multiset(a) == multiset(Without(a, i)) + multiset{a[i]};
    assert multiset(b) == multiset(Without(b, k)) + multiset{b[k]};
  }

  /** The root commits to the set: equal roots mean the same references, whatever the sizes. */
  lemma {:induction false} RootCommitsToSet(h: string -> string, marshal: Codec, refs: seq<AssertionRef>,
                                            other: seq<AssertionRef>)
    requires IsHash(h) && Canonical(marshal)
    requires SetRoot(h, marshal, refs).Ok? && SetRoot(h, marshal, refs) == SetRoot(h, marshal, other)
    requires CollisionFree(h, SetMessages(h, marshal, refs) + SetMessages(h, marshal, other))
    ensures multiset(refs) == multiset(other)
  {
    var cs, ds := Sort(Encodings(marshal, refs)), Sort(Encodings(marshal, other));
    assert cs == [] <==> refs == [];
    assert ds == [] <==> other == [];
    RootHashIsHash(h, cs);
    RootHashIsHash(h, ds);
    DigestTextInjective(RootHash(h, cs), RootHash(h, ds));
    if cs == [] || ds == [] {
      if cs != [] { NotEmptyRoot(h, cs); }
      if ds != [] { NotEmptyRoot(h, ds); }
    } else {
      RootHashIsTree(h, cs);
      RootHashIsTree(h, ds);
      TreeInjective(h, Join(LeafTrees(cs)), Join(LeafTrees(ds)));
      SetRootDefined(h, marshal, refs);
      SetRootDefined(h, marshal, other);
      SameEncodings(marshal, refs, other);
    }
  }

  lemma {:induction false} NotEmptyRoot(h: string -> string, cs: seq<string>)
    requires cs != [] && CollisionFree(h, {EMPTY_DOMAIN} + TreeMessages(h, Join(LeafTrees(cs))))
    ensures RootHash(h, cs) != h(EMPTY_DOMAIN)
  {
    RootHashIsTree(h, cs);
    match Join(LeafTrees(cs))
    case Leaf(c) => DomainsDisjoint(c, "", "");
    case Node(l, r) => DomainsDisjoint("", Hash(h, l), Hash(h, r));
  }

  lemma {:induction false} SameEncodings(marshal: Codec, refs: seq<AssertionRef>, other: seq<AssertionRef>)
    requires Canonical(marshal) && AllValid(refs) && AllValid(other) && Distinct(refs) && Distinct(other)
    requires Encodable(marshal, refs) && Encodable(marshal, other)
    requires Sort(Encodings(marshal, refs)) == Sort(Encodings(marshal, other))
    ensures multiset(refs) == multiset(other)
  {
    forall i | 0 <= i < |refs|
      ensures refs[i] in other
    {
      EncodingIn(marshal, refs, i);
      EncodingMember(marshal, other, refs[i]);
    }
    forall i | 0 <= i < |other|
      ensures other[i] in refs
    {
      EncodingIn(marshal, other, i);
      EncodingMember(marshal, refs, other[i]);
    }
    DistinctMultiset(refs);
    DistinctMultiset(other);
    forall x: AssertionRef
      ensures multiset(refs)[x] == multiset(other)[x]
    {
      assert x in multiset(refs) <==> x in refs;
      assert x in multiset(other) <==> x in other;
    }
  }

  lemma {:induction false} EncodingIn(marshal: Codec, refs: seq<AssertionRef>, i: nat)
    requires Encodable(marshal, refs) && i < |refs|
    ensures marshal(refs[i]).value in Sort(Encodings(marshal, refs))
  {
    var e := Encodings(marshal, refs);
    assert e[i] in multiset(e) && e[i] in multiset(Sort(e));
  }
}
