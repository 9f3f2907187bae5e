/**
 The cohort Merkle set: sorted duplicate-free leaves, odd-node promotion, the proof
 builder and the verifier that recomputes the tree shape from (LeafIndex, LeafCount).
 SHA-256 is a parameter `h`; every theorem that needs collision freedom asks for it only
 on the messages the two computations involved actually hash.
 */
module Cohort {
  import opened Text

  const MAX_MEMBERS: nat := 0xFFFF_FFFF

  datatype AssertionRef = AssertionRef(
    networkId: string, actorAgentId: string, operationId: string, envelopeDigest: string)

  datatype Proof = Proof(member: AssertionRef, leafIndex: nat, leafCount: nat, siblings: seq<string>)

  predicate ValidRef(r: AssertionRef) {
    Token(r.networkId, 256) && Token(r.actorAgentId, 256) && Token(r.operationId, 256) && IsDigest32(r.envelopeDigest)
  }

  type Codec = AssertionRef -> Result<string>

  /** What the canonical codec gives for valid references: an encoding, and never the same one twice. */
  ghost predicate Canonical(marshal: Codec) {
    && (forall r :: ValidRef(r) ==> marshal(r).Ok?)
    && (forall r, s :: ValidRef(r) && ValidRef(s) && marshal(r) == marshal(s) ==> r == s)
  }

  // ---------- hashed messages ----------

  const LEAF_DOMAIN := "tos.outcome.cohort.leaf.v1\0"
  const NODE_DOMAIN := "tos.outcome.cohort.node.v1\0"
  const EMPTY_DOMAIN := "tos.outcome.cohort.empty.v1\0"

  function LeafMessage(canonical: string): string { LEAF_DOMAIN + canonical }

  function NodeMessage(left: string, right: string): string { NODE_DOMAIN + left + right }

  /** The domain tags keep leaves, nodes and the empty set apart. */
  lemma {:induction false} DomainsDisjoint(canonical: string, left: string, right: string)
    ensures LeafMessage(canonical) != NodeMessage(left, right)
    ensures LeafMessage(canonical) != EMPTY_DOMAIN
    ensures NodeMessage(left, right) != EMPTY_DOMAIN
  {
    assert LeafMessage(canonical)[19] == 'l';
    assert NodeMessage(left, right)[19] == 'n';
    assert EMPTY_DOMAIN[19] == 'e';
  }

  /** The canonical bytes behind a leaf's tag. */
  function ReadLeaf(m: string): Option<string> {
    if "tos.outcome.cohort.leaf.v1\0" <= m then Some(m[27..]) else None
  }

  /** The two 32-byte hashes behind a node's tag, left before right. */
  function ReadNode(m: string): Option<(string, string)> {
    if "tos.outcome.cohort.node.v1\0" <= m && |m| == 91 then Some((m[27..59], m[59..])) else None
  }

  /** Hashed messages read back as what they were made from. */
  lemma {:induction false} MessagesRead(canonical: string, left: string, right: string)
    ensures ReadLeaf(LeafMessage(canonical)) == Some(canonical)
    ensures |left| == |right| == 32 ==> ReadNode(NodeMessage(left, right)) == Some((left, right))
  {
    assert LeafMessage(canonical)[27..] == canonical;
    if |left| == |right| == 32 {
      var m := NodeMessage(left, right);
      assert m[27..59] == left && m[59..] == right;
    }
  }

  lemma {:induction false} LeafMessageInjective(a: string, b: string)
    requires LeafMessage(a) == LeafMessage(b)
    ensures a == b
  {
    MessagesRead(a, "", "");
    MessagesRead(b, "", "");
  }

  lemma {:induction false} NodeMessageInjective(a: string, b: string, c: string, d: string)
    requires |a| == |c| && NodeMessage(a, b) == NodeMessage(c, d)
    ensures a == c && b == d
  {
    var n := |NODE_DOMAIN|;
    assert NodeMessage(a, b)[n..][..|a|] == a && NodeMessage(c, d)[n..][..|a|] == c;
    assert NodeMessage(a, b)[n..][|a|..] == b && NodeMessage(c, d)[n..][|a|..] == d;
  }

  // ---------- one level of the tree ----------

  /** Neighbours are combined; a last node without a neighbour is promoted unchanged. */
  function NextLevel(h: string -> string, level: seq<string>): (r: seq<string>)
    ensures |r| == (|level| + 1) / 2
  {
    seq((|level| + 1) / 2, k requires 0 <= k < (|level| + 1) / 2 =>
      if 2 * k + 1 < |level| then h(NodeMessage(level[2 * k], level[2 * k + 1])) else level[2 * k])
  }

  function RootOf(h: string -> string, level: seq<string>): string
    requires level != []
    decreases |level|
  {
    if |level| == 1 then level[0] else RootOf(h, NextLevel(h, level))
  }

  predicate HasSibling(position: nat, width: nat) {
    position % 2 == 1 || position + 1 < width
  }

  function Neighbour(position: nat): nat {
    if position % 2 == 1 then position - 1 else position + 1
  }

  /** The neighbours met on the way from `position` to the root, bottom up. */
  function Siblings(h: string -> string, level: seq<string>, position: nat): seq<string>
    requires position < |level|
    decreases |level|
  {
    if |level| == 1 then []
    else
      var rest := Siblings(h, NextLevel(h, level), position / 2);
      if HasSibling(position, |level|) then [level[Neighbour(position)]] + rest else rest
  }

  /** Every message hashed above `level`. */
  ghost function LevelMessages(h: string -> string, level: seq<string>): set<string>
    decreases |level|
  {
    if |level| <= 1 then {}
    else PairMessages(level) + LevelMessages(h, NextLevel(h, level))
  }

  ghost function PairMessages(level: seq<string>): set<string> {
    set k | 0 <= k < |level| && 2 * k + 1 < |level| :: PairMessage(level, k)
  }

  function PairMessage(level: seq<string>, k: nat): string
    requires 2 * k + 1 < |level|
  {
    NodeMessage(level[2 * k], level[2 * k + 1])
  }

  // ---------- the verifier's climb ----------

  function SiblingBytes(text: string): Option<string>
    requires |text| >= 7
  {
    HexDecode(text[7..])
  }

  function Combine(h: string -> string, position: nat, current: string, sibling: string): string {
    h(ClimbMessage(position, current, sibling))
  }

  function ClimbMessage(position: nat, current: string, sibling: string): string {
    if position % 2 == 1 then NodeMessage(sibling, current) else NodeMessage(current, sibling)
  }

  /** The root the verifier arrives at; None when siblings are missing, malformed or left over. */
  function Climb(h: string -> string, current: string, position: nat, width: nat, siblings: seq<string>): Option<string>
    requires position < width
    decreases width
  {
    if width == 1 then (if siblings == [] then Some(current) else None)
    else if !HasSibling(position, width) then Climb(h, current, position / 2, (width + 1) / 2, siblings)
    else if siblings == [] || !IsDigest32(siblings[0]) then None
    else Climb(h, Combine(h, position, current, SiblingBytes(siblings[0]).value),
               position / 2, (width + 1) / 2, siblings[1..])
  }

  ghost function ClimbMessages(h: string -> string, current: string, position: nat, width: nat,
                               siblings: seq<string>): set<string>
    requires position < width
    decreases width
  {
    if width == 1 then {}
    else if !HasSibling(position, width) then ClimbMessages(h, current, position / 2, (width + 1) / 2, siblings)
    else if siblings == [] || !IsDigest32(siblings[0]) then {}
    else
      var s := SiblingBytes(siblings[0]).value;
      {ClimbMessage(position, current, s)}
      + ClimbMessages(h, Combine(h, position, current, s), position / 2, (width + 1) / 2, siblings[1..])
  }

  ghost predicate Decodes(texts: seq<string>, hashes: seq<string>) {
    |texts| == |hashes| &&
    forall i | 0 <= i < |texts| :: IsDigest32(texts[i]) && SiblingBytes(texts[i]) == Some(hashes[i])
  }

  ghost predicate AllHashes(level: seq<string>) {
    forall i | 0 <= i < |level| :: |level[i]| == 32 && IsBytes(level[i])
  }

  lemma {:induction false} NextLevelHashes(h: string -> string, level: seq<string>)
    requires IsHash(h) && AllHashes(level)
    ensures AllHashes(NextLevel(h, level))
  {
  }

  lemma {:induction false} SiblingsAreHashes(h: string -> string, level: seq<string>, position: nat)
    requires IsHash(h) && AllHashes(level) && position < |level|
    ensures AllHashes(Siblings(h, level, position))
    decreases |level|
  {
    if |level| > 1 {
      NextLevelHashes(h, level);
      SiblingsAreHashes(h, NextLevel(h, level), position / 2);
    }
  }

  lemma {:induction false} DigestDecodes(hash: string)
    requires |hash| == 32 && IsBytes(hash)
    ensures IsDigest32(DigestText(hash)) && SiblingBytes(DigestText(hash)) == Some(hash)
  {
    HexRoundTrip(hash);
    assert DigestText(hash)[7..] == HexEncode(hash);
    assert DigestText(hash)[..7] == SHA_PREFIX;
  }

  /** A node of the next level is the combination of the node below with its neighbour. */
  lemma {:induction false} NextLevelAt(h: string -> string, level: seq<string>, position: nat, k: nat)
    requires position < |level| && (position == 2 * k || position == 2 * k + 1)
    ensures k < (|level| + 1) / 2
    ensures HasSibling(position, |level|) ==>
              && Neighbour(position) < |level|
              && NextLevel(h, level)[k] == Combine(h, position, level[position], level[Neighbour(position)])
    ensures !HasSibling(position, |level|) ==> NextLevel(h, level)[k] == level[position]
  {
    Parity(position, k);
    NextLevelEntry(h, level, k);
  }

  lemma {:induction false} Parity(position: nat, k: nat)
    requires position == 2 * k || position == 2 * k + 1
    ensures position % 2 == position - 2 * k
  {
  }

  lemma {:induction false} NextLevelEntry(h: string -> string, level: seq<string>, k: nat)
    requires 2 * k < |level|
    ensures k < (|level| + 1) / 2
    ensures NextLevel(h, level)[k]
         == if 2 * k + 1 < |level| then h(NodeMessage(level[2 * k], level[2 * k + 1])) else level[2 * k]
  {
  }

  /** The builder's siblings lead the verifier from the leaf to the builder's root. */
  lemma {:induction false} ClimbComplete(h: string -> string, level: seq<string>, position: nat, texts: seq<string>)
    requires position < |level| && Decodes(texts, Siblings(h, level, position))
    ensures Climb(h, level[position], position, |level|, texts) == Some(RootOf(h, level))
    decreases |level|
  {
    if |level| > 1 {
      var next := NextLevel(h, level);
      Halve(position);
      NextLevelAt(h, level, position, position / 2);
      if HasSibling(position, |level|) {
        DecodesTail(texts, Siblings(h, level, position), Siblings(h, next, position / 2));
        ClimbComplete(h, next, position / 2, texts[1..]);
      } else {
        ClimbComplete(h, next, position / 2, texts);
      }
    }
  }

  lemma {:induction false} DecodesTail(texts: seq<string>, hashes: seq<string>, rest: seq<string>)
    requires hashes != [] && hashes[1..] == rest
    ensures Decodes(texts, hashes) <==>
            texts != [] && IsDigest32(texts[0]) && SiblingBytes(texts[0]) == Some(hashes[0])
                && Decodes(texts[1..], rest)
  {
    if texts != [] && IsDigest32(texts[0]) && SiblingBytes(texts[0]) == Some(hashes[0]) && Decodes(texts[1..], rest) {
      forall i | 0 <= i < |texts|
        ensures IsDigest32(texts[i]) && SiblingBytes(texts[i]) == Some(hashes[i])
      {
        if i > 0 { assert texts[1..][i - 1] == texts[i] && rest[i - 1] == hashes[i]; }
      }
    }
  }

  lemma {:induction false} ClimbMessageInjective(position: nat, current: string, sibling: string, current': string,
                                                 sibling': string)
    requires |current| == |current'| == |sibling| == |sibling'|
    requires ClimbMessage(position, current, sibling) == ClimbMessage(position, current', sibling')
    ensures current == current' && sibling == sibling'
  {
    if position % 2 == 1 {
      NodeMessageInjective(sibling, current, sibling', current');
    } else {
      NodeMessageInjective(current, sibling, current', sibling');
    }
  }

  /** The message behind a node of the next level is among those hashed. */
  lemma {:induction false} ClimbMessageHashed(level: seq<string>, position: nat, k: nat)
    requires position < |level| && HasSibling(position, |level|)
    requires position == 2 * k || position == 2 * k + 1
    ensures Neighbour(position) < |level|
    ensures ClimbMessage(position, level[position], level[Neighbour(position)]) in PairMessages(level)
  {
    assert PairMessage(level, k) in PairMessages(level);
  }

  lemma {:induction false} Halve(n: nat)
    ensures n == 2 * (n / 2) || n == 2 * (n / 2) + 1
  {
  }

  /** With the true width, acceptance pins the leaf to its position and every sibling to the builder's. */
  lemma {:induction false} ClimbExact(h: string -> string, level: seq<string>, position: nat, current: string,
                                      texts: seq<string>)
    requires IsHash(h) && AllHashes(level) && position < |level| && |current| == 32
    requires Climb(h, current, position, |level|, texts) == Some(RootOf(h, level))
    requires CollisionFree(h, LevelMessages(h, level) + ClimbMessages(h, current, position, |level|, texts))
    ensures current == level[position] && Decodes(texts, Siblings(h, level, position))
    decreases |level|
  {
    if |level| > 1 {
      var next := NextLevel(h, level);
      NextLevelHashes(h, level);
      Halve(position);
      NextLevelAt(h, level, position, position / 2);
      if HasSibling(position, |level|) {
        var s := SiblingBytes(texts[0]).value;
        ClimbExact(h, next, position / 2, Combine(h, position, current, s), texts[1..]);
        ClimbMessageHashed(level, position, position / 2);
        ClimbMessageInjective(position, current, s, level[position], level[Neighbour(position)]);
        DecodesTail(texts, Siblings(h, level, position), Siblings(h, next, position / 2));
      } else {
        ClimbExact(h, next, position / 2, current, texts);
      }
    }
  }

  function Pow2(k: nat): (r: nat)
    ensures r >= 1
  {
    if k == 0 then 1 else 2 * Pow2(k - 1)
  }

  lemma {:induction false} HalfWidth(n: nat, k: nat)
    requires 1 < n <= Pow2(k)
    ensures k > 0 && (n + 1) / 2 <= Pow2(k - 1)
  {
  }

  /** How many neighbours a path meets, as a matter of position and width alone. */
  function PathLength(position: nat, width: nat): nat
    requires position < width
    decreases width
  {
    if width == 1 then 0
    else PathLength(position / 2, (width + 1) / 2) + if HasSibling(position, width) then 1 else 0
  }

  lemma {:induction false} PathBound(position: nat, width: nat, k: nat)
    requires position < width <= Pow2(k)
    ensures PathLength(position, width) <= k
    decreases width
  {
    if width > 1 {
      HalfWidth(width, k);
      PathBound(position / 2, (width + 1) / 2, k - 1);
    }
  }

  lemma {:induction false} SiblingsLength(h: string -> string, level: seq<string>, position: nat)
    requires position < |level|
    ensures |Siblings(h, level, position)| == PathLength(position, |level|)
    decreases |level|
  {
    if |level| > 1 {
      SiblingsLength(h, NextLevel(h, level), position / 2);
    }
  }

  /** Promotion never lengthens a path: at most one sibling per halving. */
  lemma {:induction false} SiblingBound(h: string -> string, level: seq<string>, position: nat, k: nat)
    requires position < |level| <= Pow2(k)
    ensures |Siblings(h, level, position)| <= k
  {
    SiblingsLength(h, level, position);
    PathBound(position, |level|, k);
  }

  // ---------- the tree behind a root ----------

  datatype Tree = Leaf(canonical: string) | Node(left: Tree, right: Tree)

  function Hash(h: string -> string, t: Tree): string {
    match t
    case Leaf(c) => h(LeafMessage(c))
    case Node(l, r) => h(NodeMessage(Hash(h, l), Hash(h, r)))
  }

  function Leaves(t: Tree): seq<string> {
    match t
    case Leaf(c) => [c]
    case Node(l, r) => Leaves(l) + Leaves(r)
  }

  ghost function TreeMessages(h: string -> string, t: Tree): set<string> {
    match t
    case Leaf(c) => {LeafMessage(c)}
    case Node(l, r) => {NodeMessage(Hash(h, l), Hash(h, r))} + TreeMessages(h, l) + TreeMessages(h, r)
  }

  ghost function Subtrees(t: Tree): set<Tree> {
    match t
    case Leaf(_) => {t}
    case Node(l, r) => {t} + Subtrees(l) + Subtrees(r)
  }

  lemma {:induction false} SubtreeFacts(h: string -> string, t: Tree, s: Tree)
    requires s in Subtrees(t)
    ensures Subtrees(s) <= Subtrees(t) && TreeMessages(h, s) <= TreeMessages(h, t)
    ensures s.Leaf? ==> s.canonical in Leaves(t)
    decreases t
  {
    if t.Node? && s != t {
      if s in Subtrees(t.left) { SubtreeFacts(h, t.left, s); } else { SubtreeFacts(h, t.right, s); }
    }
  }

  /** Equal root hashes mean equal trees. */
  lemma {:induction false} TreeInjective(h: string -> string, s: Tree, t: Tree)
    requires IsHash(h) && Hash(h, s) == Hash(h, t)
    requires CollisionFree(h, TreeMessages(h, s) + TreeMessages(h, t))
    ensures s == t
    decreases s
  {
    match (s, t)
    case (Leaf(a), Leaf(b)) => LeafMessageInjective(a, b);
    case (Leaf(a), Node(l, r)) => DomainsDisjoint(a, Hash(h, l), Hash(h, r));
    case (Node(l, r), Leaf(b)) => DomainsDisjoint(b, Hash(h, l), Hash(h, r));
    case (Node(l, r), Node(l', r')) =>
      HashLength(h, l);
      HashLength(h, l');
      NodeMessageInjective(Hash(h, l), Hash(h, r), Hash(h, l'), Hash(h, r'));
      TreeInjective(h, l, l');
      TreeInjective(h, r, r');
  }

  lemma {:induction false} HashLength(h: string -> string, t: Tree)
    requires IsHash(h)
    ensures |Hash(h, t)| == 32 && IsBytes(Hash(h, t))
  {
  }

  /** Whatever width is claimed, a climb that ends in the tree's hash started at a hash inside the tree. */
  lemma {:induction false} ClimbStartsInTree(h: string -> string, t: Tree, current: string, position: nat, width: nat,
                                             texts: seq<string>) returns (s: Tree)
    requires IsHash(h) && position < width && |current| == 32
    requires Climb(h, current, position, width, texts) == Some(Hash(h, t))
    requires CollisionFree(h, TreeMessages(h, t) + ClimbMessages(h, current, position, width, texts))
    ensures s in Subtrees(t) && Hash(h, s) == current
    decreases width
  {
    if width == 1 {
      s := t;
    } else if !HasSibling(position, width) {
      s := ClimbStartsInTree(h, t, current, position / 2, (width + 1) / 2, texts);
    } else {
      var sibling := SiblingBytes(texts[0]).value;
      var up := Combine(h, position, current, sibling);
      var parent := ClimbStartsInTree(h, t, up, position / 2, (width + 1) / 2, texts[1..]);
      SubtreeFacts(h, t, parent);
      match parent
      case Leaf(c) =>
        DomainsDisjoint(c, current, sibling);
        DomainsDisjoint(c, sibling, current);
        assert false;
      case Node(l, r) =>
        HashLength(h, l);
        if position % 2 == 1 {
          NodeMessageInjective(sibling, current, Hash(h, l), Hash(h, r));
          s := r;
        } else {
          NodeMessageInjective(current, sibling, Hash(h, l), Hash(h, r));
          s := l;
        }
        assert s in Subtrees(s);
    }
  }
}
