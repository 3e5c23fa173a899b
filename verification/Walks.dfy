/** Weighted graphs as the routing services hold them (a dictionary of dictionaries), walks in
    them and their costs. */
module Walks {
  import opened Lex

  type Node = string
  type Graph = map<Node, map<Node, real>>

  predicate Edge(g: Graph, u: Node, v: Node) {
    u in g && v in g[u]
  }

  function Neighbours(g: Graph, u: Node): map<Node, real> {
    if u in g then g[u] else map[]
  }

  ghost predicate NonNegative(g: Graph) {
    forall u, v | Edge(g, u, v) :: g[u][v] >= 0.0
  }

  predicate Hop(g: Graph, p: seq<Node>, i: nat) {
    i + 1 < |p| && Edge(g, p[i], p[i + 1])
  }

  ghost predicate IsWalk(g: Graph, p: seq<Node>) {
    p != [] && forall i: nat | i + 1 < |p| :: Hop(g, p, i)
  }

  ghost predicate WalkFromTo(g: Graph, p: seq<Node>, a: Node, b: Node) {
    IsWalk(g, p) && p[0] == a && p[|p| - 1] == b
  }

  ghost predicate Reachable(g: Graph, a: Node, b: Node) {
    exists p :: WalkFromTo(g, p, a, b)
  }

  ghost function Cost(g: Graph, p: seq<Node>): real
    requires IsWalk(g, p)
  {
    if |p| == 1 then 0.0
    else assert Hop(g, p, |p| - 2); WalkPrefix(g, p, |p| - 2); Cost(g, p[..|p| - 1]) + g[p[|p| - 2]][p[|p| - 1]]
  }

  lemma WalkExtend(g: Graph, p: seq<Node>, v: Node)
    requires IsWalk(g, p) && Edge(g, p[|p| - 1], v)
    ensures IsWalk(g, p + [v]) && Cost(g, p + [v]) == Cost(g, p) + g[p[|p| - 1]][v]
  {
    var q := p + [v];
    forall i: nat | i + 1 < |q| ensures Hop(g, q, i) {
      if i + 1 < |p| { assert Hop(g, p, i); }
    }
    assert (p + [v])[..|p|] == p;
  }

  lemma WalkPrefix(g: Graph, p: seq<Node>, i: nat)
    requires IsWalk(g, p) && i < |p|
    ensures IsWalk(g, p[..i + 1])
  {
    var q := p[..i + 1];
    forall j: nat | j + 1 < |q| ensures Hop(g, q, j) {
      assert Hop(g, p, j);
    }
  }

  /** The cost of the walk up to its node number `i`. */
  ghost function PrefixCost(g: Graph, p: seq<Node>, i: nat): real
    requires IsWalk(g, p) && i < |p|
  {
    WalkPrefix(g, p, i);
    Cost(g, p[..i + 1])
  }

  lemma PrefixStep(g: Graph, p: seq<Node>, i: nat)
    requires IsWalk(g, p) && i + 1 < |p|
    ensures Edge(g, p[i], p[i + 1]) && PrefixCost(g, p, i + 1) == PrefixCost(g, p, i) + g[p[i]][p[i + 1]]
  {
    assert Hop(g, p, i);
    assert p[..i + 2][..i + 1] == p[..i + 1];
  }

  lemma PrefixNoDearer(g: Graph, p: seq<Node>, i: nat)
    requires NonNegative(g) && IsWalk(g, p) && i < |p|
    ensures PrefixCost(g, p, i) <= Cost(g, p)
  {
    CostSplit(g, p, i);
    CostNonNegative(g, p[i..]);
  }

  lemma WalkSuffix(g: Graph, p: seq<Node>, i: nat)
    requires IsWalk(g, p) && i < |p|
    ensures IsWalk(g, p[i..])
  {
    var q := p[i..];
    forall j: nat | j + 1 < |q| ensures Hop(g, q, j) {
      assert Hop(g, p, i + j);
    }
  }

  lemma {:induction false} CostSplit(g: Graph, p: seq<Node>, i: nat)
    requires IsWalk(g, p) && i < |p|
    ensures IsWalk(g, p[..i + 1]) && IsWalk(g, p[i..])
    ensures Cost(g, p) == Cost(g, p[..i + 1]) + Cost(g, p[i..])
  {
    WalkPrefix(g, p, i);
    WalkSuffix(g, p, i);
    if i == |p| - 1 {
      assert p[..i + 1] == p;
      assert p[i..] == [p[i]];
    } else {
      var q := p[..|p| - 1];
      WalkPrefix(g, p, |p| - 2);
      CostSplit(g, q, i);
      assert q[..i + 1] == p[..i + 1];
      assert p[i..][..|p| - 1 - i] == q[i..];
    }
  }

  lemma {:induction false} CostNonNegative(g: Graph, p: seq<Node>)
    requires NonNegative(g) && IsWalk(g, p)
    ensures Cost(g, p) >= 0.0
  {
    if |p| > 1 {
      WalkPrefix(g, p, |p| - 2);
      CostNonNegative(g, p[..|p| - 1]);
      assert Hop(g, p, |p| - 2);
    }
  }

  /** A list of distinct nodes is no longer than the set it is drawn from. */
  lemma {:induction false} Pigeonhole(p: seq<Node>, nodes: set<Node>)
    requires Distinct(p) && forall x | x in p :: x in nodes
    ensures |p| <= |nodes|
  {
    if p == [] {
    } else {
      var last := p[|p| - 1];
      assert p == p[..|p| - 1] + [last];
      Pigeonhole(p[..|p| - 1], nodes - {last});
    }
  }

  /** All lists over `nodes` of a given length: finitely many. */
  ghost function Lists(nodes: set<Node>, n: nat): set<seq<Node>> {
    if n == 0 then {[]} else set p, v | p in Lists(nodes, n - 1) && v in nodes :: p + [v]
  }

  lemma {:induction false} ListsComplete(nodes: set<Node>, p: seq<Node>)
    requires forall x | x in p :: x in nodes
    ensures p in Lists(nodes, |p|)
  {
    if p == [] {
    } else {
      ListsComplete(nodes, p[..|p| - 1]);
      assert p == p[..|p| - 1] + [p[|p| - 1]];
    }
  }

  ghost function ListsUpTo(nodes: set<Node>, n: nat): set<seq<Node>> {
    if n == 0 then Lists(nodes, 0) else ListsUpTo(nodes, n - 1) + Lists(nodes, n)
  }

  lemma {:induction false} ListsUpToComplete(nodes: set<Node>, n: nat, p: seq<Node>)
    requires |p| <= n && forall x | x in p :: x in nodes
    ensures p in ListsUpTo(nodes, n)
  {
    if |p| == n { ListsComplete(nodes, p); } else { ListsUpToComplete(nodes, n - 1, p); }
  }

  /** `costs` contains the cost of every walk without repetition over `nodes`. */
  ghost predicate Covers(g: Graph, nodes: set<Node>, costs: set<real>) {
    forall p | IsWalk(g, p) && Distinct(p) && (forall x | x in p :: x in nodes) :: Cost(g, p) in costs
  }

  /** There are finitely many such costs: they bound every label a search can give. */
  lemma CostsCovered(g: Graph, nodes: set<Node>) returns (costs: set<real>)
    ensures Covers(g, nodes, costs)
  {
    costs := set p | p in ListsUpTo(nodes, |nodes|) && IsWalk(g, p) :: Cost(g, p);
    forall p | IsWalk(g, p) && Distinct(p) && (forall x | x in p :: x in nodes) ensures Cost(g, p) in costs {
      Pigeonhole(p, nodes);
      ListsUpToComplete(nodes, |nodes|, p);
    }
  }
}
