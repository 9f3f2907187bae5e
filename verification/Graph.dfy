/**
 Three-colour depth-first search, as used for the obligations of an Agreement and for the
 blocking dependencies of a portfolio.  It reports a cycle exactly when there is one, and
 otherwise leaves behind a topological order.
 */
module Graph {
  import opened Text

  /** A node that is not a key has no successors: the zero value of a Go map. */
  type Edges = map<string, seq<string>>

  function Successors(edges: Edges, n: string): seq<string> {
    if n in edges then edges[n] else []
  }

  ghost predicate IsPath(edges: Edges, p: seq<string>) {
    forall i | 0 <= i < |p| - 1 :: p[i + 1] in Successors(edges, p[i])
  }

  ghost predicate IsCycle(edges: Edges, p: seq<string>) {
    |p| >= 2 && p[0] == p[|p| - 1] && IsPath(edges, p)
  }

  ghost predicate Cyclic(edges: Edges) {
    exists p :: IsCycle(edges, p)
  }

  /** Every successor of a listed node is listed before it. */
  ghost predicate Ordered(edges: Edges, order: seq<string>) {
    Distinct(order) && forall i | 0 <= i < |order| :: AllIn(Successors(edges, order[i]), order[..i])
  }

  ghost predicate AllIn(s: seq<string>, t: seq<string>) {
    forall k | 0 <= k < |s| :: s[k] in t
  }

  /** A complete topological order of the graph. */
  ghost predicate TopologicalOrder(edges: Edges, order: seq<string>) {
    Ordered(edges, order) && forall n | n in edges :: n in order
  }

  ghost function IndexOf(order: seq<string>, n: string): (i: nat)
    requires n in order
    ensures i < |order| && order[i] == n
  {
    var i :| 0 <= i < |order| && order[i] == n;
    i
  }

  lemma {:induction false} OrderDecreases(edges: Edges, order: seq<string>, n: string, m: string)
    requires Ordered(edges, order) && n in order && m in Successors(edges, n)
    ensures m in order && IndexOf(order, m) < IndexOf(order, n)
  {
    var i := IndexOf(order, n);
    assert m in order[..i];
    var j :| 0 <= j < i && order[j] == m;
    var l := IndexOf(order, m);
    assert order[l] == order[j];
  }

  lemma {:induction false} TailPath(edges: Edges, p: seq<string>)
    requires IsPath(edges, p) && |p| >= 1
    ensures IsPath(edges, p[1..])
  {
    var q := p[1..];
    forall i | 0 <= i < |q| - 1
      ensures q[i + 1] in Successors(edges, q[i])
    {
      assert q[i] == p[i + 1] && q[i + 1] == p[i + 1 + 1];
    }
  }

  /** Along a path the position in the order only goes down. */
  lemma {:induction false} PathDecreases(edges: Edges, order: seq<string>, p: seq<string>)
    requires Ordered(edges, order) && IsPath(edges, p) && |p| >= 2 && p[0] in order
    ensures p[|p| - 1] in order && IndexOf(order, p[|p| - 1]) < IndexOf(order, p[0])
  {
    OrderDecreases(edges, order, p[0], p[1]);
    if |p| > 2 {
      var q := p[1..];
      TailPath(edges, p);
      PathDecreases(edges, order, q);
    }
  }

  /** A topological order excludes cycles. */
  lemma {:induction false} OrderedAcyclic(edges: Edges, order: seq<string>)
    requires TopologicalOrder(edges, order)
    ensures !Cyclic(edges)
  {
    if p :| IsCycle(edges, p) {
      assert p[1] in Successors(edges, p[0]);
      PathDecreases(edges, order, p);
      assert false;
    }
  }

  datatype Colour = Visiting | Visited

  ghost predicate Closed(edges: Edges, universe: set<string>) {
    && (forall n | n in edges :: n in universe)
    && (forall n, k | n in edges && 0 <= k < |edges[n]| :: edges[n][k] in universe)
  }

  /** The nodes being visited form the path to the current one; the visited ones are in order. */
  ghost predicate Coloured(edges: Edges, state: map<string, Colour>, stack: seq<string>, order: seq<string>) {
    && (forall n :: n in stack <==> n in state && state[n] == Visiting)
    && (forall n :: n in order <==> n in state && state[n] == Visited)
    && IsPath(edges, stack) && Ordered(edges, order)
  }

  lemma {:induction false} Push(edges: Edges, state: map<string, Colour>, stack: seq<string>, order: seq<string>,
                                n: string)
    requires Coloured(edges, state, stack, order) && n !in state
    requires stack == [] || n in Successors(edges, stack[|stack| - 1])
    ensures Coloured(edges, state[n := Visiting], stack + [n], order)
  {
    PushPath(edges, stack, n);
  }

  lemma {:induction false} Pop(edges: Edges, state: map<string, Colour>, stack: seq<string>, order: seq<string>,
                               n: string)
    requires Coloured(edges, state, stack + [n], order) && n !in stack && AllIn(Successors(edges, n), order)
    ensures Coloured(edges, state[n := Visited], stack, order + [n])
  {
    assert n in stack + [n];
    OrderExtend(edges, order, n);
    PopPath(edges, stack, n);
    forall m: string
      ensures m in stack <==> m in state && m != n && state[m] == Visiting
      ensures m in order + [n] <==> m == n || (m in state && state[m] == Visited)
    {
      assert m in stack + [n] <==> m in stack || m == n;
    }
  }

  lemma {:induction false} PopPath(edges: Edges, stack: seq<string>, n: string)
    requires IsPath(edges, stack + [n])
    ensures IsPath(edges, stack)
  {
    var t := stack + [n];
    forall i | 0 <= i < |stack| - 1
      ensures stack[i + 1] in Successors(edges, stack[i])
    {
      assert t[i + 1] in Successors(edges, t[i]);
    }
  }

  class CycleSearch {
    const edges: Edges
    ghost const universe: set<string>
    var state: map<string, Colour>
    ghost var stack: seq<string>
    ghost var order: seq<string>

    ghost predicate Valid()
      reads this
    {
      Closed(edges, universe) && Coloured(edges, state, stack, order)
    }

    constructor (edges: Edges, ghost universe: set<string>)
      requires Closed(edges, universe)
      ensures Valid() && this.edges == edges && this.universe == universe && stack == [] && order == []
          && state == map[]
    {
      this.edges := edges;
      this.universe := universe;
      state := map[];
      stack := [];
      order := [];
    }

    /** The recursive closure `visit` / `cycle`. */
    method Visit(n: string) returns (cycle: bool)
      requires Valid() && n in universe && (stack == [] || n in Successors(edges, stack[|stack| - 1]))
      modifies this
      ensures cycle ==> Cyclic(edges)
      ensures !cycle ==> Valid() && stack == old(stack) && n in order && old(order) <= order
      ensures old(state).Keys <= state.Keys
      decreases universe - state.Keys, 0
    {
      if n in state && state[n] == Visiting {
        BackEdge(edges, stack, n);
        return true;
      }
      if n in state && state[n] == Visited {
        return false;
      }
      Push(edges, state, stack, order, n);
      state := state[n := Visiting];
      stack := stack + [n];
      cycle := VisitSuccessors(n);
      if !cycle {
        Pop(edges, state, old(stack), order, n);
        state := state[n := Visited];
        stack := old(stack);
        order := order + [n];
      }
    }

    /** Its loop over the successors of the node on top of the stack. */
    method VisitSuccessors(n: string) returns (cycle: bool)
      requires Valid() && n in universe && stack != [] && stack[|stack| - 1] == n
      modifies this
      ensures cycle ==> Cyclic(edges)
      ensures !cycle ==> Valid() && stack == old(stack) && old(order) <= order && AllIn(Successors(edges, n), order)
      ensures old(state).Keys <= state.Keys
      decreases universe - state.Keys, 1
    {
      var next := Successors(edges, n);
      for i := 0 to |next|
        invariant Valid() && stack == old(stack) && old(order) <= order
        invariant old(state).Keys <= state.Keys
        invariant AllIn(next[..i], order)
      {
        var found := Visit(next[i]);
        if found {
          return true;
        }
      }
      assert next[..|next|] == next;
      return false;
    }
  }

  lemma {:induction false} BackEdge(edges: Edges, stack: seq<string>, n: string)
    requires IsPath(edges, stack) && n in stack && n in Successors(edges, stack[|stack| - 1])
    ensures Cyclic(edges)
  {
    var i :| 0 <= i < |stack| && stack[i] == n;
    assert IsCycle(edges, stack[i..] + [n]);
  }

  lemma {:induction false} PushPath(edges: Edges, stack: seq<string>, n: string)
    requires IsPath(edges, stack) && (stack == [] || n in Successors(edges, stack[|stack| - 1]))
    ensures IsPath(edges, stack + [n])
  {
  }

  lemma {:induction false} OrderExtend(edges: Edges, order: seq<string>, n: string)
    requires Ordered(edges, order) && n !in order && AllIn(Successors(edges, n), order)
    ensures Ordered(edges, order + [n])
  {
    var s := order + [n];
    forall i | 0 <= i < |s|
      ensures AllIn(Successors(edges, s[i]), s[..i])
    {
      if i < |order| { assert s[..i] == order[..i]; } else { assert s[..i] == order; }
    }
  }

  function Universe(edges: Edges): set<string> {
    edges.Keys + set n, k | n in edges && 0 <= k < |edges[n]| :: edges[n][k]
  }

  /** `agreementHasCycle`, and the search of `ValidatePortfolioDependencies`: every node, in any order. */
  method HasCycle(edges: Edges) returns (cycle: bool, ghost order: seq<string>)
    ensures cycle <==> Cyclic(edges)
    ensures !cycle ==> TopologicalOrder(edges, order)
  {
    var search := new CycleSearch(edges, Universe(edges));
    var pending := edges.Keys;
    while pending != {}
      invariant pending <= edges.Keys && search.Valid() && search.edges == edges && search.universe == Universe(edges)
      invariant search.stack == [] && forall n | n in edges && n !in pending :: n in search.order
      decreases pending
    {
      var n :| n in pending;
      var found := search.Visit(n);
      if found {
        return true, [];
      }
      pending := pending - {n};
    }
    order := search.order;
    OrderedAcyclic(edges, order);
    return false, order;
  }
}
