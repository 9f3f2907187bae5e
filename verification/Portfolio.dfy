/** Portfolio dependencies: only blocking edges order the work, and they must not form a cycle. */
module Portfolio {
  import opened Text
  import opened Graph

  datatype Dependency = Dependency(
    schema: nat, upstreamAgreement: string, upstreamObligation: string, downstreamAgreement: string,
    downstreamObligation: string, dependencyType: string, dependencyClass: string, failurePropagation: string,
    evidenceDrivenRelease: bool)

  /** The canonical encoding, and the digest of it that detects duplicates; an error of the digest is dropped. */
  datatype Codec = Codec(marshal: Dependency -> Result<string>, digest: string -> string)

  /** An obligation of an Agreement. */
  datatype Node = Node(agreement: string, obligation: string)

  predicate ValidDependency(d: Dependency) {
    && d.schema == 1 && IsDigest(d.upstreamAgreement) && IsDigest(d.downstreamAgreement)
    && BoundedIdentifier(d.upstreamObligation, 128) && BoundedIdentifier(d.downstreamObligation, 128)
    && CanonicalLowerToken(d.dependencyType)
    && (d.dependencyClass == "blocking" || d.dependencyClass == "informational")
    && CanonicalLowerToken(d.failurePropagation)
  }

  predicate Blocking(d: Dependency) { d.dependencyClass == "blocking" }

  function Upstream(d: Dependency): Node { Node(d.upstreamAgreement, d.upstreamObligation) }

  function Downstream(d: Dependency): Node { Node(d.downstreamAgreement, d.downstreamObligation) }

  function Key(n: Node): string { n.agreement + "\0" + n.obligation }

  function From(d: Dependency): string { Key(Upstream(d)) }

  function To(d: Dependency): string { Key(Downstream(d)) }

  /** Keys separate distinct obligations of distinct Agreements. */
  lemma {:induction false} KeyInjective(m: Node, n: Node)
    requires IsDigest(m.agreement) && IsDigest(n.agreement) && Key(m) == Key(n)
    ensures m == n
  {
    assert Key(m)[..71] == m.agreement && Key(n)[..71] == n.agreement;
    assert Key(m)[72..] == m.obligation && Key(n)[72..] == n.obligation;
  }

  // ---------- cycles and schedules of obligations ----------

  /** A blocking dependency makes obligation n wait for obligation m. */
  ghost predicate Waits(ds: seq<Dependency>, m: Node, n: Node) {
    exists i | 0 <= i < |ds| ::
      && ds[i].dependencyClass == "blocking"
      && m == Node(ds[i].upstreamAgreement, ds[i].upstreamObligation)
      && n == Node(ds[i].downstreamAgreement, ds[i].downstreamObligation)
  }

  /** A non-empty walk of a relation back to where it started. */
  ghost predicate CycleOf<T>(r: (T, T) -> bool, p: seq<T>) {
    |p| >= 2 && p[0] == p[|p| - 1] && forall i | 0 <= i < |p| - 1 :: r(p[i], p[i + 1])
  }

  lemma {:induction false} MapCycle<S(!new), T>(r: (S, S) -> bool, q: (T, T) -> bool, f: S -> T, p: seq<S>)
    requires CycleOf(r, p) && forall a, b | r(a, b) :: q(f(a), f(b))
    ensures CycleOf(q, seq(|p|, i requires 0 <= i < |p| => f(p[i])))
  {
  }

  ghost function Waiting(ds: seq<Dependency>): (Node, Node) -> bool { (m: Node, n: Node) => Waits(ds, m, n) }

  ghost function Linking(ds: seq<Dependency>): (string, string) -> bool { (a: string, b: string) => Links(ds, a, b) }

  /** A cycle of blocking dependencies between obligations. */
  ghost predicate BlockingCycle(ds: seq<Dependency>) {
    exists p :: CycleOf(Waiting(ds), p)
  }

  /** Times under which every blocking dependency is met before what waits for it. */
  ghost predicate Schedules(ds: seq<Dependency>, time: Node -> int) {
    forall i | 0 <= i < |ds| && ds[i].dependencyClass == "blocking" ::
      time(Node(ds[i].upstreamAgreement, ds[i].upstreamObligation))
      < time(Node(ds[i].downstreamAgreement, ds[i].downstreamObligation))
  }

  lemma {:induction false} TimeIncreases(ds: seq<Dependency>, time: Node -> int, p: seq<Node>, k: nat)
    requires Schedules(ds, time) && 0 < k < |p| && CycleOf(Waiting(ds), p)
    ensures time(p[0]) < time(p[k])
  {
    if k > 1 { TimeIncreases(ds, time, p, k - 1); }
    assert Waiting(ds)(p[k - 1], p[k - 1 + 1]);
  }

  /** What can be scheduled has no cycle. */
  lemma {:induction false} ScheduledAcyclic(ds: seq<Dependency>, time: Node -> int)
    requires Schedules(ds, time)
    ensures !BlockingCycle(ds)
  {
    if p :| CycleOf(Waiting(ds), p) {
      TimeIncreases(ds, time, p, |p| - 1);
      assert false;
    }
  }

  // ---------- the same over the joined keys of the edge map ----------

  ghost predicate Links(ds: seq<Dependency>, a: string, b: string) {
    exists i | 0 <= i < |ds| :: Blocking(ds[i]) && From(ds[i]) == a && To(ds[i]) == b
  }

  ghost predicate Represents(edges: Edges, ds: seq<Dependency>) {
    forall a, b :: b in Successors(edges, a) <==> Links(ds, a, b)
  }

  ghost predicate AllValid(ds: seq<Dependency>) { forall i | 0 <= i < |ds| :: ValidDependency(ds[i]) }

  ghost predicate IsEnd(ds: seq<Dependency>, n: Node) {
    exists i | 0 <= i < |ds| :: Upstream(ds[i]) == n || Downstream(ds[i]) == n
  }

  lemma {:induction false} EndsSeparate(ds: seq<Dependency>, m: Node, n: Node)
    requires AllValid(ds) && IsEnd(ds, m) && IsEnd(ds, n) && Key(m) == Key(n)
    ensures m == n
  {
    var i :| 0 <= i < |ds| && (Upstream(ds[i]) == m || Downstream(ds[i]) == m);
    var j :| 0 <= j < |ds| && (Upstream(ds[j]) == n || Downstream(ds[j]) == n);
    assert ValidDependency(ds[i]) && ValidDependency(ds[j]);
    KeyInjective(m, n);
  }

  /** Between obligations that occur, waiting and being linked by key are the same. */
  lemma {:induction false} LinksAreWaits(ds: seq<Dependency>, m: Node, n: Node)
    requires AllValid(ds) && IsEnd(ds, m) && IsEnd(ds, n)
    ensures Links(ds, Key(m), Key(n)) <==> Waits(ds, m, n)
  {
    if i :| 0 <= i < |ds| && Blocking(ds[i]) && From(ds[i]) == Key(m) && To(ds[i]) == Key(n) {
      assert IsEnd(ds, Upstream(ds[i])) && IsEnd(ds, Downstream(ds[i]));
      EndsSeparate(ds, Upstream(ds[i]), m);
      EndsSeparate(ds, Downstream(ds[i]), n);
    }
    if i :| 0 <= i < |ds| && Blocking(ds[i]) && Upstream(ds[i]) == m && Downstream(ds[i]) == n {
      assert From(ds[i]) == Key(m) && To(ds[i]) == Key(n);
    }
  }

  ghost predicate HasEnd(ds: seq<Dependency>, key: string) { exists m :: IsEnd(ds, m) && Key(m) == key }

  /** The obligation behind a key, if any. */
  ghost function EndAt(ds: seq<Dependency>, key: string): (n: Node)
    ensures HasEnd(ds, key) ==> IsEnd(ds, n) && Key(n) == key
  {
    if HasEnd(ds, key) then (var m :| IsEnd(ds, m) && Key(m) == key; m) else Node("", "")
  }

  lemma {:induction false} LinkWaits(ds: seq<Dependency>, a: string, b: string)
    requires AllValid(ds) && Links(ds, a, b)
    ensures Waits(ds, EndAt(ds, a), EndAt(ds, b))
  {
    var i :| 0 <= i < |ds| && Blocking(ds[i]) && From(ds[i]) == a && To(ds[i]) == b;
    assert IsEnd(ds, Upstream(ds[i])) && IsEnd(ds, Downstream(ds[i]));
    assert HasEnd(ds, a) && HasEnd(ds, b);
    LinksAreWaits(ds, EndAt(ds, a), EndAt(ds, b));
  }

  lemma {:induction false} KeyCycleIsCycle(ds: seq<Dependency>, p: seq<string>)
    requires AllValid(ds) && CycleOf(Linking(ds), p)
    ensures BlockingCycle(ds)
  {
    forall a, b | Linking(ds)(a, b)
      ensures Waiting(ds)(EndAt(ds, a), EndAt(ds, b))
    {
      LinkWaits(ds, a, b);
    }
    MapCycle(Linking(ds), Waiting(ds), key => EndAt(ds, key), p);
  }

  lemma {:induction false} CycleIsKeyCycle(ds: seq<Dependency>, q: seq<Node>) returns (p: seq<string>)
    requires CycleOf(Waiting(ds), q)
    ensures CycleOf(Linking(ds), p)
  {
    forall m, n | Waiting(ds)(m, n)
      ensures Linking(ds)(Key(m), Key(n))
    {
      var k :| 0 <= k < |ds| && Blocking(ds[k]) && Upstream(ds[k]) == m && Downstream(ds[k]) == n;
      assert From(ds[k]) == Key(m) && To(ds[k]) == Key(n);
    }
    MapCycle(Waiting(ds), Linking(ds), Key, q);
    p := seq(|q|, i requires 0 <= i < |q| => Key(q[i]));
  }

  /** The edge map is cyclic exactly when the obligations wait for each other in a circle. */
  lemma {:induction false} RepresentedCycles(edges: Edges, ds: seq<Dependency>)
    requires AllValid(ds) && Represents(edges, ds)
    ensures Cyclic(edges) <==> BlockingCycle(ds)
  {
    if p :| IsCycle(edges, p) {
      assert CycleOf(Linking(ds), p);
      KeyCycleIsCycle(ds, p);
    }
    if q :| CycleOf(Waiting(ds), q) {
      var p := CycleIsKeyCycle(ds, q);
      assert IsCycle(edges, p);
    }
  }

  /** The search finishes what waits before what it waits for, so its order is read from the end. */
  ghost function TimeBy(order: seq<string>): Node -> int {
    n => if Key(n) in order then 0 - IndexOf(order, Key(n)) as int else 0
  }

  lemma {:induction false} OrderSchedules(edges: Edges, ds: seq<Dependency>, order: seq<string>)
    requires Represents(edges, ds) && TopologicalOrder(edges, order)
    ensures Schedules(ds, TimeBy(order))
  {
    forall i | 0 <= i < |ds| && Blocking(ds[i])
      ensures TimeBy(order)(Upstream(ds[i])) < TimeBy(order)(Downstream(ds[i]))
    {
      var a, b := From(ds[i]), To(ds[i]);
      assert Links(ds, a, b);
      assert a in edges;
      OrderDecreases(edges, order, a, b);
    }
  }

  lemma {:induction false} AddEdge(edges: Edges, ds: seq<Dependency>, d: Dependency, edges': Edges)
    requires Represents(edges, ds)
    requires if Blocking(d) then edges' == edges[From(d) := Successors(edges, From(d)) + [To(d)]] else edges' == edges
    ensures Represents(edges', ds + [d])
  {
    forall a, b
      ensures b in Successors(edges', a) <==> Links(ds + [d], a, b)
    {
      LinksAppend(ds, d, a, b);
    }
  }

  lemma {:induction false} LinksAppend(ds: seq<Dependency>, d: Dependency, a: string, b: string)
    ensures Links(ds + [d], a, b) <==> Links(ds, a, b) || (Blocking(d) && From(d) == a && To(d) == b)
  {
    var es := ds + [d];
    if i :| 0 <= i < |ds| && Blocking(ds[i]) && From(ds[i]) == a && To(ds[i]) == b {
      assert es[i] == ds[i];
    }
    assert es[|ds|] == d;
  }

  lemma {:induction false} SortedEdges(edges: Edges, ds: seq<Dependency>, sorted: Edges)
    requires Represents(edges, ds) && sorted.Keys == edges.Keys && forall n | n in edges :: sorted[n] == Sort(edges[n])
    ensures Represents(sorted, ds)
  {
    forall a, b
      ensures b in Successors(sorted, a) <==> b in Successors(edges, a)
    {
      if a in edges {
        assert b in sorted[a] <==> b in multiset(Sort(edges[a]));
        assert b in edges[a] <==> b in multiset(edges[a]);
      }
    }
  }

  /** Every dependency is valid and can be encoded, and no two have the same digest. */
  ghost predicate WellFormed(c: Codec, ds: seq<Dependency>) {
    && |ds| <= 4096 && AllValid(ds) && (forall i | 0 <= i < |ds| :: c.marshal(ds[i]).Ok?)
    && forall i, j | 0 <= i < j < |ds| :: Fingerprint(c, ds[i]) != Fingerprint(c, ds[j])
  }

  function Fingerprint(c: Codec, d: Dependency): string {
    if c.marshal(d).Ok? then c.digest(c.marshal(d).value) else ""
  }

  /** The loop that checks the dependencies and collects the blocking ones as edges. */
  method CollectEdges(accepts: Dependency -> bool, mark: Dependency -> string, ds: seq<Dependency>)
      returns (r: Option<Edges>)
    ensures r.Some? <==> (forall i | 0 <= i < |ds| :: accepts(ds[i]))
                         && forall i, j | 0 <= i < j < |ds| :: mark(ds[i]) != mark(ds[j])
    ensures r.Some? ==> Represents(r.value, ds)
  {
    var edges: Edges := map[];
    var seen: set<string> := {};
    for i := 0 to |ds|
      invariant forall k | 0 <= k < i :: accepts(ds[k])
      invariant forall e :: e in seen <==> exists k | 0 <= k < i :: mark(ds[k]) == e
      invariant forall k, l | 0 <= k < l < i :: mark(ds[k]) != mark(ds[l])
      invariant Represents(edges, ds[..i])
    {
      if !accepts(ds[i]) || mark(ds[i]) in seen {
        return None;
      }
      seen := seen + {mark(ds[i])};
      ghost var before := edges;
      if Blocking(ds[i]) {
        edges := edges[From(ds[i]) := Successors(edges, From(ds[i])) + [To(ds[i])]];
      }
      AddEdge(before, ds[..i], ds[i], edges);
      assert ds[..i + 1] == ds[..i] + [ds[i]];
    }
    assert ds[..|ds|] == ds;
    return Some(edges);
  }

  /** `ValidatePortfolioDependencies`. */
  method ValidatePortfolioDependencies(c: Codec, ds: seq<Dependency>) returns (ok: bool, ghost time: Node -> int)
    ensures ok <==> WellFormed(c, ds) && !BlockingCycle(ds)
    ensures ok ==> Schedules(ds, time)
  {
    time := TimeBy([]);
    if |ds| > 4096 {
      return false, time;
    }
    var collected := CollectEdges(d => ValidDependency(d) && c.marshal(d).Ok?, d => Fingerprint(c, d), ds);
    if collected.None? {
      return false, time;
    }
    var edges := collected.value;
    var sorted := map n | n in edges :: Sort(edges[n]);
    SortedEdges(edges, ds, sorted);
    var cycle;
    ghost var order;
    cycle, order := HasCycle(sorted);
    RepresentedCycles(sorted, ds);
    if !cycle {
      OrderSchedules(sorted, ds, order);
    }
    return !cycle, TimeBy(order);
  }
}
