/** A* over one region's road graph (services/route-service/main.py): lazy deletion, re-opening,
    a goal test that precedes the stale test, and a parent map rebuilt into a path. */
module AStarSearch {
  import opened Options
  import opened Lex
  import opened Walks

  datatype Entry = Entry(f: real, tie: nat, g: real, node: Node)

  datatype Route = Route(path: seq<Node>, total: real)

  type Labels = map<Node, real>
  type Parents = map<Node, Option<Node>>

  // ---------------------------------------------------------------- the parent map

  predicate Link(cf: Parents, p: seq<Node>, i: nat) {
    0 < i < |p| && p[i] in cf && cf[p[i]] == Some(p[i - 1])
  }

  /** Following parents from `v` gives `p` backwards, ending at a node without parent. */
  ghost predicate Chain(cf: Parents, p: seq<Node>, v: Node) {
    && p != [] && p[|p| - 1] == v
    && p[0] in cf && cf[p[0]].None?
    && forall i: nat | 0 < i < |p| :: Link(cf, p, i)
  }

  /** Every parent chain ends: the parent map is a forest. */
  ghost predicate HasChain(cf: Parents, v: Node) {
    exists p :: Chain(cf, p, v)
  }

  ghost predicate Rooted(cf: Parents) {
    forall v {:trigger HasChain(cf, v)} | v in cf :: HasChain(cf, v)
  }

  lemma ChainPrefix(cf: Parents, p: seq<Node>, v: Node, i: nat)
    requires Chain(cf, p, v) && i < |p|
    ensures Chain(cf, p[..i + 1], p[i])
  {
    var q := p[..i + 1];
    forall j: nat | 0 < j < |q| ensures Link(cf, q, j) {
      assert Link(cf, p, j);
    }
  }

  lemma {:induction false} ChainUnique(cf: Parents, p: seq<Node>, q: seq<Node>, v: Node)
    requires Chain(cf, p, v) && Chain(cf, q, v)
    ensures p == q
  {
    var m, n := |p| - 1, |q| - 1;
    assert m > 0 ==> Link(cf, p, m);
    assert n > 0 ==> Link(cf, q, n);
    if m > 0 {
      ChainPrefix(cf, p, v, m - 1);
      ChainPrefix(cf, q, v, n - 1);
      ChainUnique(cf, p[..m], q[..n], p[m - 1]);
      assert p == p[..m] + [v] && q == q[..n] + [v];
    }
  }

  lemma ChainDistinct(cf: Parents, p: seq<Node>, v: Node)
    requires Chain(cf, p, v)
    ensures Distinct(p)
  {
    forall i, j | 0 <= i < j < |p| ensures p[i] != p[j] {
      if p[i] == p[j] {
        ChainPrefix(cf, p, v, i);
        ChainPrefix(cf, p, v, j);
        var shorter, longer := p[..i + 1], p[..j + 1];
        assert |shorter| < |longer|;
        ChainUnique(cf, shorter, longer, p[i]);
        assert false;
      }
    }
  }

  // ---------------------------------------------------------------- the search invariant

  /** `w` is a repetition-free walk from the start that witnesses the label of `v`, and no label
      along it exceeds the cost of the walk so far. */
  ghost predicate Witness(g: Graph, start: Node, gs: Labels, w: seq<Node>, v: Node) {
    && v in gs && WalkFromTo(g, w, start, v) && Distinct(w) && Cost(g, w) == gs[v]
    && forall i | 0 <= i < |w| :: w[i] in gs && gs[w[i]] <= PrefixCost(g, w, i)
  }

  ghost predicate Witnessed(g: Graph, start: Node, gs: Labels, walks: map<Node, seq<Node>>) {
    && walks.Keys == gs.Keys
    && forall v {:trigger Witness(g, start, gs, walks[v], v)} | v in gs :: Witness(g, start, gs, walks[v], v)
  }

  /** A parent's label plus the edge never exceeds the child's label. */
  ghost predicate ParentOk(g: Graph, gs: Labels, cf: Parents, v: Node) {
    && v in gs && v in cf && cf[v].Some?
    && cf[v].value in gs && Edge(g, cf[v].value, v) && gs[cf[v].value] + g[cf[v].value][v] <= gs[v]
  }

  ghost predicate ParentsOk(g: Graph, start: Node, gs: Labels, cf: Parents) {
    && cf.Keys == gs.Keys && start in gs && gs[start] == 0.0 && cf[start].None?
    && forall v {:trigger ParentOk(g, gs, cf, v)} | v in gs && v != start :: ParentOk(g, gs, cf, v)
  }

  ghost predicate Searching(g: Graph, start: Node, gs: Labels, cf: Parents, walks: map<Node, seq<Node>>) {
    Witnessed(g, start, gs, walks) && ParentsOk(g, start, gs, cf) && Rooted(cf)
  }

  ghost predicate HeapOk(h: Node -> real, gs: Labels, heap: set<Entry>) {
    forall e | e in heap :: e.node in gs && gs[e.node] <= e.g && e.f == e.g + h(e.node)
  }

  /** The heap holds the current label of `v`. */
  ghost predicate Open(gs: Labels, heap: set<Entry>, v: Node) {
    v in gs && exists e :: e in heap && e.node == v && e.g == gs[v]
  }

  ghost predicate RelaxedTo(g: Graph, gs: Labels, u: Node, n: Node) {
    Edge(g, u, n) ==> u in gs && n in gs && gs[n] <= gs[u] + g[u][n]
  }

  ghost predicate Relaxed(g: Graph, gs: Labels, u: Node) {
    forall n {:trigger RelaxedTo(g, gs, u, n)} | Edge(g, u, n) :: RelaxedTo(g, gs, u, n)
  }

  /** Every labelled node except `busy` is waiting in the heap or has been expanded since its
      label last changed. The goal is never expanded. */
  ghost predicate Frontier(g: Graph, goal: Node, gs: Labels, heap: set<Entry>, busy: set<Node>) {
    forall v {:trigger WaitsOrRelaxed(g, goal, gs, heap, v)} | v in gs && v !in busy ::
        WaitsOrRelaxed(g, goal, gs, heap, v)
  }

  ghost predicate WaitsOrRelaxed(g: Graph, goal: Node, gs: Labels, heap: set<Entry>, v: Node) {
    Open(gs, heap, v) || (v != goal && Relaxed(g, gs, v))
  }

  // ---------------------------------------------------------------- one relaxation

  ghost predicate Improves(g: Graph, gs: Labels, u: Node, v: Node) {
    && u in gs && Edge(g, u, v)
    && (v in gs ==> gs[u] + g[u][v] < gs[v])
  }

  lemma NotOnOwnWitness(g: Graph, start: Node, gs: Labels, w: seq<Node>, u: Node, v: Node)
    requires NonNegative(g) && Witness(g, start, gs, w, u) && Improves(g, gs, u, v)
    ensures v !in w
  {
    assert Edge(g, u, v);
    if v in w {
      var i :| 0 <= i < |w| && w[i] == v;
      PrefixNoDearer(g, w, i);
      assert false;
    }
  }

  lemma WitnessKept(g: Graph, start: Node, gs: Labels, w: seq<Node>, y: Node, v: Node, x: real)
    requires Witness(g, start, gs, w, y) && y != v && (v in gs ==> x <= gs[v])
    ensures Witness(g, start, gs[v := x], w, y)
  {
    forall i | 0 <= i < |w| ensures w[i] in gs[v := x] && gs[v := x][w[i]] <= PrefixCost(g, w, i) {
      assert w[i] in gs && gs[w[i]] <= PrefixCost(g, w, i);
    }
  }

  lemma WitnessExtended(g: Graph, start: Node, gs: Labels, w: seq<Node>, u: Node, v: Node)
    requires NonNegative(g) && Witness(g, start, gs, w, u) && Improves(g, gs, u, v)
    ensures Witness(g, start, gs[v := gs[u] + g[u][v]], w + [v], v)
  {
    var gs', w' := gs[v := gs[u] + g[u][v]], w + [v];
    NotOnOwnWitness(g, start, gs, w, u, v);
    WalkExtend(g, w, v);
    forall i | 0 <= i < |w'| ensures w'[i] in gs' && gs'[w'[i]] <= PrefixCost(g, w', i) {
      if i < |w| {
        assert w'[..i + 1] == w[..i + 1];
        assert w[i] in gs && gs[w[i]] <= PrefixCost(g, w, i);
      } else {
        assert w'[..i + 1] == w';
      }
    }
  }

  lemma RelaxWitnesses(g: Graph, start: Node, gs: Labels, walks: map<Node, seq<Node>>, u: Node, v: Node)
    requires NonNegative(g) && Witnessed(g, start, gs, walks) && Improves(g, gs, u, v)
    ensures Witnessed(g, start, gs[v := gs[u] + g[u][v]], walks[v := walks[u] + [v]])
  {
    assert Witness(g, start, gs, walks[u], u);
    WitnessExtended(g, start, gs, walks[u], u, v);
    forall y | y in gs && y != v ensures Witness(g, start, gs[v := gs[u] + g[u][v]], walks[y], y) {
      assert Witness(g, start, gs, walks[y], y);
      WitnessKept(g, start, gs, walks[y], y, v, gs[u] + g[u][v]);
    }
  }

  /** Along a parent chain, labels grow at least by the cost of the edges. */
  lemma {:induction false} ChainLabels(g: Graph, start: Node, gs: Labels, cf: Parents, p: seq<Node>, v: Node, i: nat)
    requires ParentsOk(g, start, gs, cf) && Chain(cf, p, v) && i < |p|
    ensures v in gs && p[i] in gs
    ensures IsWalk(g, p[i..]) && gs[p[i]] + Cost(g, p[i..]) <= gs[v]
    decreases |p|
  {
    var n := |p| - 1;
    if i == n {
      assert p[i..] == [v];
      assert n > 0 ==> Link(cf, p, n);
    } else {
      assert Link(cf, p, n);
      ChainPrefix(cf, p, v, n - 1);
      ChainLabels(g, start, gs, cf, p[..n], p[n - 1], i);
      assert ParentOk(g, gs, cf, v);
      assert p[..n][i..] + [v] == p[i..];
      WalkExtend(g, p[..n][i..], v);
    }
  }

  lemma ChainFromStart(g: Graph, start: Node, gs: Labels, cf: Parents, p: seq<Node>, v: Node)
    requires ParentsOk(g, start, gs, cf) && Chain(cf, p, v)
    ensures p[0] == start
  {
    assert p[0] == start || ParentOk(g, gs, cf, p[0]);
  }

  /** A node that would be improved from `u` is not an ancestor of `u`. */
  lemma NotAnAncestor(g: Graph, start: Node, gs: Labels, cf: Parents, pu: seq<Node>, u: Node, v: Node)
    requires NonNegative(g) && ParentsOk(g, start, gs, cf) && Chain(cf, pu, u) && Improves(g, gs, u, v)
    ensures v !in pu
  {
    assert Edge(g, u, v);
    if v in pu {
      var i :| 0 <= i < |pu| && pu[i] == v;
      ChainLabels(g, start, gs, cf, pu, u, i);
      CostNonNegative(g, pu[i..]);
      assert false;
    }
  }

  lemma RelaxParents(g: Graph, start: Node, gs: Labels, cf: Parents, u: Node, v: Node)
    requires NonNegative(g) && ParentsOk(g, start, gs, cf) && Rooted(cf) && Improves(g, gs, u, v)
    ensures v != start
    ensures ParentsOk(g, start, gs[v := gs[u] + g[u][v]], cf[v := Some(u)])
    ensures Rooted(cf[v := Some(u)])
  {
    assert HasChain(cf, u);
    var pu :| Chain(cf, pu, u);
    NotAnAncestor(g, start, gs, cf, pu, u, v);
    ChainFromStart(g, start, gs, cf, pu, u);
    var gs', cf' := gs[v := gs[u] + g[u][v]], cf[v := Some(u)];
    forall y | y in gs' && y != start ensures ParentOk(g, gs', cf', y) {
      if y != v { assert ParentOk(g, gs, cf, y); }
    }
    forall w | w in cf' ensures HasChain(cf', w) {
      Rechain(cf, pu, u, v, w);
    }
  }

  lemma ChainElsewhere(cf: Parents, p: seq<Node>, w: Node, v: Node, u: Node)
    requires Chain(cf, p, w) && v !in p
    ensures Chain(cf[v := Some(u)], p, w)
  {
    var cf' := cf[v := Some(u)];
    forall j: nat | 0 < j < |p| ensures Link(cf', p, j) {
      assert Link(cf, p, j);
    }
  }

  lemma ChainExtended(cf: Parents, pu: seq<Node>, u: Node, v: Node)
    requires Chain(cf, pu, u) && v !in pu
    ensures Chain(cf[v := Some(u)], pu + [v], v)
  {
    var cf', p := cf[v := Some(u)], pu + [v];
    ChainElsewhere(cf, pu, u, v, u);
    forall j: nat | 0 < j < |p| ensures Link(cf', p, j) {
      if j < |pu| { assert Link(cf', pu, j); }
    }
  }

  lemma ChainSpliced(cf: Parents, pu: seq<Node>, u: Node, pw: seq<Node>, w: Node, i: nat)
    requires Chain(cf, pu, u) && Chain(cf, pw, w) && i < |pw| && pw[i] !in pu
    ensures Chain(cf[pw[i] := Some(u)], pu + pw[i..], w)
  {
    var cf', p := cf[pw[i] := Some(u)], pu + pw[i..];
    ChainDistinct(cf, pw, w);
    forall j: nat | 0 < j < |p| ensures Link(cf', p, j) {
      if j < |pu| {
        assert Link(cf, pu, j);
      } else if j > |pu| {
        assert Link(cf, pw, i + (j - |pu|));
        assert p[j] == pw[i + (j - |pu|)] && p[j - 1] == pw[i + (j - |pu|) - 1];
      }
    }
  }

  /** Hanging `v` under a node outside its own subtree keeps every chain finite. */
  lemma Rechain(cf: Parents, pu: seq<Node>, u: Node, v: Node, w: Node)
    requires Rooted(cf) && Chain(cf, pu, u) && v !in pu && (w in cf || w == v)
    ensures HasChain(cf[v := Some(u)], w)
  {
    if w == v {
      ChainExtended(cf, pu, u, v);
    } else {
      assert HasChain(cf, w);
      var pw :| Chain(cf, pw, w);
      if v in pw {
        var i :| 0 <= i < |pw| && pw[i] == v;
        ChainSpliced(cf, pu, u, pw, w, i);
      } else {
        ChainElsewhere(cf, pw, w, v, u);
      }
    }
  }

  lemma RelaxKeepsSearching(g: Graph, start: Node, gs: Labels, cf: Parents, walks: map<Node, seq<Node>>, u: Node,
      v: Node)
    requires NonNegative(g) && Searching(g, start, gs, cf, walks) && Improves(g, gs, u, v)
    ensures v != u && v != start
    ensures Searching(g, start, gs[v := gs[u] + g[u][v]], cf[v := Some(u)], walks[v := walks[u] + [v]])
  {
    RelaxWitnesses(g, start, gs, walks, u, v);
    RelaxParents(g, start, gs, cf, u, v);
    assert Edge(g, u, v);
  }

  lemma RelaxKeepsFrontier(g: Graph, h: Node -> real, goal: Node, gs: Labels, heap: set<Entry>, u: Node, v: Node,
      tie: nat)
    requires NonNegative(g) && HeapOk(h, gs, heap) && Frontier(g, goal, gs, heap, {u}) && Improves(g, gs, u, v) &&
        u != v
    ensures var x := gs[u] + g[u][v];
            && HeapOk(h, gs[v := x], heap + {Entry(x + h(v), tie, x, v)})
            && Frontier(g, goal, gs[v := x], heap + {Entry(x + h(v), tie, x, v)}, {u})
  {
    var x := gs[u] + g[u][v];
    var e := Entry(x + h(v), tie, x, v);
    var gs', heap' := gs[v := x], heap + {e};
    forall y | y in gs' && y !in {u} ensures WaitsOrRelaxed(g, goal, gs', heap', y) {
      assert y in gs && y != u ==> WaitsOrRelaxed(g, goal, gs, heap, y);
      if y == v {
        assert e in heap';
      } else if Open(gs, heap, y) {
        var e' :| e' in heap && e'.node == y && e'.g == gs[y];
        assert e' in heap';
      } else {
        forall n | Edge(g, y, n) ensures RelaxedTo(g, gs', y, n) {
          assert RelaxedTo(g, gs, y, n);
        }
      }
    }
  }

  // ---------------------------------------------------------------- what the frontier gives

  /** On every walk from start to goal some node is open with a label no dearer than the walk. */
  lemma {:induction false} OpenOnWalk(g: Graph, start: Node, goal: Node, gs: Labels, heap: set<Entry>, p: seq<Node>,
      i: nat) returns (j: nat)
    requires Frontier(g, goal, gs, heap, {}) && WalkFromTo(g, p, start, goal)
    requires i < |p| && p[i] in gs && gs[p[i]] <= PrefixCost(g, p, i)
    ensures j < |p| && Open(gs, heap, p[j]) && gs[p[j]] <= PrefixCost(g, p, j)
    decreases |p| - i
  {
    assert WaitsOrRelaxed(g, goal, gs, heap, p[i]);
    if Open(gs, heap, p[i]) {
      j := i;
    } else {
      assert i != |p| - 1;
      PrefixStep(g, p, i);
      assert RelaxedTo(g, gs, p[i], p[i + 1]);
      j := OpenOnWalk(g, start, goal, gs, heap, p, i + 1);
    }
  }

  /** `h` never overestimates the remaining cost by more than `d`. */
  ghost predicate AdmissibleWithin(g: Graph, h: Node -> real, goal: Node, d: real) {
    forall p | IsWalk(g, p) && p[|p| - 1] == goal :: h(p[0]) <= Cost(g, p) + d
  }

  ghost predicate AdmissibleHeuristic(g: Graph, h: Node -> real, goal: Node) {
    AdmissibleWithin(g, h, goal, 0.0)
  }

  lemma SuffixHeuristic(g: Graph, h: Node -> real, goal: Node, d: real, p: seq<Node>, j: nat)
    requires AdmissibleWithin(g, h, goal, d) && IsWalk(g, p) && p[|p| - 1] == goal && j < |p|
    ensures IsWalk(g, p[j..]) && h(p[j]) <= Cost(g, p[j..]) + d
  {
    WalkSuffix(g, p, j);
    assert p[j..][0] == p[j] && p[j..][|p| - j - 1] == goal;
  }

  ghost predicate Least(e: Entry, heap: set<Entry>) {
    e in heap && forall x | x in heap :: e.f < x.f || (e.f == x.f && e.tie <= x.tie)
  }

  /** The first goal entry popped exceeds no walk by more than `h` exceeds the remaining cost. */
  lemma GoalIsCheapest(g: Graph, h: Node -> real, start: Node, goal: Node, gs: Labels,
                       heap: set<Entry>, e: Entry, d: real, p: seq<Node>)
    requires start in gs && gs[start] == 0.0 && HeapOk(h, gs, heap) && Frontier(g, goal, gs, heap, {})
    requires Least(e, heap) && e.node == goal && WalkFromTo(g, p, start, goal)
    requires AdmissibleWithin(g, h, goal, d) && h(goal) == 0.0
    ensures e.g <= Cost(g, p) + d
  {
    assert p[..1] == [start];
    var j := OpenOnWalk(g, start, goal, gs, heap, p, 0);
    var e' :| e' in heap && e'.node == p[j] && e'.g == gs[p[j]];
    CostSplit(g, p, j);
    SuffixHeuristic(g, h, goal, d, p, j);
  }

  lemma PoppedGoalIsFresh(g: Graph, h: Node -> real, goal: Node, gs: Labels, heap: set<Entry>, e: Entry)
    requires HeapOk(h, gs, heap) && Frontier(g, goal, gs, heap, {}) && Least(e, heap) && e.node == goal
    ensures e.g == gs[goal]
  {
    assert WaitsOrRelaxed(g, goal, gs, heap, goal);
  }

  lemma NoWalkWhenExhausted(g: Graph, start: Node, goal: Node, gs: Labels)
    requires start in gs && gs[start] == 0.0 && Frontier(g, goal, gs, {}, {})
    ensures !Reachable(g, start, goal)
  {
    forall p ensures !WalkFromTo(g, p, start, goal) {
      if WalkFromTo(g, p, start, goal) {
        assert p[..1] == [start];
        var j := OpenOnWalk(g, start, goal, gs, {}, p, 0);
        assert false;
      }
    }
  }

  // ---------------------------------------------------------------- termination

  /** The (node, cost) pairs that could still become labels. */
  ghost function Improvable(nodes: set<Node>, costs: set<real>, gs: Labels): set<(Node, real)> {
    set v, c | v in nodes && c in costs && (v in gs ==> c < gs[v]) :: (v, c)
  }

  lemma ImprovableShrinks(nodes: set<Node>, costs: set<real>, gs: Labels, v: Node, x: real)
    requires v in nodes && x in costs && (v in gs ==> x < gs[v])
    ensures Improvable(nodes, costs, gs[v := x]) < Improvable(nodes, costs, gs)
  {
    assert (v, x) in Improvable(nodes, costs, gs);
    assert (v, x) !in Improvable(nodes, costs, gs[v := x]);
  }

  lemma LabelIsCovered(g: Graph, nodes: set<Node>, costs: set<real>, start: Node, gs: Labels, w: seq<Node>, v: Node)
    requires Witness(g, start, gs, w, v) && gs.Keys <= nodes && Covers(g, nodes, costs)
    ensures gs[v] in costs
  {
  }

  // ---------------------------------------------------------------- the algorithm

  lemma LeastExists(heap: set<Entry>)
    requires heap != {}
    ensures exists e :: Least(e, heap)
  {
    var x :| x in heap;
    if heap == {x} {
      assert Least(x, heap);
    } else {
      LeastExists(heap - {x});
      var y :| Least(y, heap - {x});
      if x.f < y.f || (x.f == y.f && x.tie <= y.tie) {
        assert Least(x, heap);
      } else {
        assert Least(y, heap);
      }
    }
  }

  /** heapq.heappop: the least entry by score, then by insertion number. */
  method PopLeast(heap: set<Entry>) returns (e: Entry, rest: set<Entry>)
    requires heap != {}
    ensures Least(e, heap) && rest == heap - {e}
  {
    LeastExists(heap);
    e :| e in heap && forall x | x in heap :: e.f < x.f || (e.f == x.f && e.tie <= x.tie);
    rest := heap - {e};
  }

  function Reversed(s: seq<Node>): (r: seq<Node>)
    ensures |r| == |s| && forall i | 0 <= i < |s| :: r[i] == s[|s| - 1 - i]
  {
    seq(|s|, i requires 0 <= i < |s| => s[|s| - 1 - i])
  }

  /** The parent walk from the goal back to the start, reversed. */
  method Rebuild(cf: Parents, goal: Node) returns (path: seq<Node>)
    requires HasChain(cf, goal)
    ensures Chain(cf, path, goal)
  {
    ghost var chain :| Chain(cf, chain, goal);
    var back: seq<Node> := [];
    var cur := Some(goal);
    while cur.Some?
      invariant |back| <= |chain|
      invariant forall i | 0 <= i < |back| :: back[i] == chain[|chain| - 1 - i]
      invariant cur == if |back| == |chain| then None else Some(chain[|chain| - 1 - |back|])
      decreases |chain| - |back|
    {
      assert |back| + 1 < |chain| ==> Link(cf, chain, |chain| - 1 - |back|);
      back := back + [cur.value];
      cur := cf[cur.value];
    }
    path := Reversed(back);
    assert |path| == |chain| && forall i | 0 <= i < |path| :: path[i] == back[|chain| - 1 - i] == chain[i];
    assert path == chain;
  }

  ghost predicate GraphWithin(g: Graph, nodes: set<Node>) {
    forall u, v | Edge(g, u, v) :: u in nodes && v in nodes
  }

  /** A simple path of real edges, no dearer than the returned total, which is itself the cost
      of some path. */
  ghost predicate SoundRoute(g: Graph, start: Node, goal: Node, route: Route) {
    && WalkFromTo(g, route.path, start, goal) && Distinct(route.path)
    && Cost(g, route.path) <= route.total
    && exists p :: WalkFromTo(g, p, start, goal) && Distinct(p) && Cost(g, p) == route.total
  }

  ghost predicate OptimalRoute(g: Graph, start: Node, goal: Node, route: Route) {
    && WalkFromTo(g, route.path, start, goal) && Cost(g, route.path) == route.total
    && forall p | WalkFromTo(g, p, start, goal) :: route.total <= Cost(g, p)
  }

  /** No walk is cheaper than the returned total by more than `d`. */
  ghost predicate WithinOfOptimal(g: Graph, start: Node, goal: Node, total: real, d: real) {
    forall p | WalkFromTo(g, p, start, goal) :: total <= Cost(g, p) + d
  }

  /** The total is as near to the optimum as `h` is to admissible. */
  ghost predicate AsGoodAsHeuristic(g: Graph, h: Node -> real, start: Node, goal: Node, total: real) {
    h(goal) == 0.0 ==>
      forall d {:trigger AdmissibleWithin(g, h, goal, d)} | AdmissibleWithin(g, h, goal, d) ::
        WithinOfOptimal(g, start, goal, total, d)
  }

  /** What `astar` promises about an answer (`None` is the ValueError). */
  ghost predicate Answers(g: Graph, h: Node -> real, start: Node, goal: Node, r: Option<Route>) {
    match r
    case None => !Reachable(g, start, goal)
    case Some(route) =>
      && SoundRoute(g, start, goal, route)
      && AsGoodAsHeuristic(g, h, start, goal, route.total)
      && (AdmissibleHeuristic(g, h, goal) && h(goal) == 0.0 ==> OptimalRoute(g, start, goal, route))
  }

  lemma GoalRouteSound(g: Graph, start: Node, goal: Node, gs: Labels, cf: Parents, w: seq<Node>, path: seq<Node>)
    requires ParentsOk(g, start, gs, cf) && Witness(g, start, gs, w, goal) && Chain(cf, path, goal)
    ensures SoundRoute(g, start, goal, Route(path, gs[goal]))
  {
    ChainLabels(g, start, gs, cf, path, goal, 0);
    ChainFromStart(g, start, gs, cf, path, goal);
    assert path[0..] == path;
    ChainDistinct(cf, path, goal);
  }

  lemma GoalRouteNear(g: Graph, h: Node -> real, start: Node, goal: Node, gs: Labels, heap: set<Entry>, e: Entry)
    requires start in gs && gs[start] == 0.0 && HeapOk(h, gs, heap) && Frontier(g, goal, gs, heap, {})
    requires Least(e, heap) && e.node == goal
    ensures AsGoodAsHeuristic(g, h, start, goal, e.g)
  {
    if h(goal) == 0.0 {
      forall d | AdmissibleWithin(g, h, goal, d) ensures WithinOfOptimal(g, start, goal, e.g, d) {
        forall p | WalkFromTo(g, p, start, goal) ensures e.g <= Cost(g, p) + d {
          GoalIsCheapest(g, h, start, goal, gs, heap, e, d, p);
        }
      }
    }
  }

  lemma NearIsOptimal(g: Graph, h: Node -> real, start: Node, goal: Node, route: Route)
    requires AsGoodAsHeuristic(g, h, start, goal, route.total) && SoundRoute(g, start, goal, route)
    requires AdmissibleHeuristic(g, h, goal) && h(goal) == 0.0
    ensures OptimalRoute(g, start, goal, route)
  {
    assert AdmissibleWithin(g, h, goal, 0.0);
    assert WithinOfOptimal(g, start, goal, route.total, 0.0);
  }

  lemma AnswerGoal(g: Graph, h: Node -> real, start: Node, goal: Node, gs: Labels, cf: Parents,
                   walks: map<Node, seq<Node>>, heap: set<Entry>, e: Entry, path: seq<Node>)
    requires Searching(g, start, gs, cf, walks) && HeapOk(h, gs, heap)
    requires Frontier(g, goal, gs, heap, {}) && Least(e, heap) && e.node == goal && Chain(cf, path, goal)
    ensures Answers(g, h, start, goal, Some(Route(path, e.g)))
  {
    PoppedGoalIsFresh(g, h, goal, gs, heap, e);
    GoalRouteSound(g, start, goal, gs, cf, walks[goal], path);
    GoalRouteNear(g, h, start, goal, gs, heap, e);
    if AdmissibleHeuristic(g, h, goal) && h(goal) == 0.0 {
      NearIsOptimal(g, h, start, goal, Route(path, e.g));
    }
  }

  lemma PopKeepsFrontier(g: Graph, goal: Node, gs: Labels, heap: set<Entry>, e: Entry)
    requires Frontier(g, goal, gs, heap, {}) && e in heap
    ensures Frontier(g, goal, gs, heap - {e}, {e.node})
    ensures e.node in gs && e.g != gs[e.node] ==> Frontier(g, goal, gs, heap - {e}, {})
  {
    forall v | v in gs && (v != e.node || e.g != gs[e.node])
      ensures WaitsOrRelaxed(g, goal, gs, heap - {e}, v)
    {
      assert WaitsOrRelaxed(g, goal, gs, heap, v);
      if Open(gs, heap, v) {
        var e' :| e' in heap && e'.node == v && e'.g == gs[v];
        assert e' in heap - {e};
      }
    }
  }

  /** Everything the two loops keep. `busy` is the node being expanded, if any. */
  ghost predicate Keeps(g: Graph, nodes: set<Node>, h: Node -> real, start: Node, goal: Node,
                        gs: Labels, cf: Parents, walks: map<Node, seq<Node>>, heap: set<Entry>, busy: set<Node>) {
    && Searching(g, start, gs, cf, walks) && gs.Keys <= nodes
    && HeapOk(h, gs, heap) && Frontier(g, goal, gs, heap, busy)
  }

  lemma RelaxKeeps(g: Graph, nodes: set<Node>, h: Node -> real, start: Node, goal: Node,
                   gs: Labels, cf: Parents, walks: map<Node, seq<Node>>, heap: set<Entry>, u: Node, v: Node, tie: nat)
    requires NonNegative(g) && GraphWithin(g, nodes)
    requires Keeps(g, nodes, h, start, goal, gs, cf, walks, heap, {u}) && Improves(g, gs, u, v)
    ensures v != u
    ensures var x := gs[u] + g[u][v];
            Keeps(g, nodes, h, start, goal, gs[v := x], cf[v := Some(u)], walks[v := walks[u] + [v]],
                  heap + {Entry(x + h(v), tie, x, v)}, {u})
  {
    assert Edge(g, u, v);
    RelaxKeepsSearching(g, start, gs, cf, walks, u, v);
    RelaxKeepsFrontier(g, h, goal, gs, heap, u, v, tie);
  }

  lemma RelaxShrinks(g: Graph, nodes: set<Node>, costs: set<real>, start: Node,
                     gs: Labels, walks: map<Node, seq<Node>>, u: Node, v: Node)
    requires NonNegative(g) && GraphWithin(g, nodes) && Covers(g, nodes, costs)
    requires Witnessed(g, start, gs, walks) && gs.Keys <= nodes && Improves(g, gs, u, v)
    ensures Improvable(nodes, costs, gs[v := gs[u] + g[u][v]]) < Improvable(nodes, costs, gs)
  {
    assert Edge(g, u, v);
    WitnessExtended(g, start, gs, walks[u], u, v);
    var x := gs[u] + g[u][v];
    LabelIsCovered(g, nodes, costs, start, gs[v := x], walks[u] + [v], v);
    ImprovableShrinks(nodes, costs, gs, v, x);
  }

  lemma PopKeeps(g: Graph, nodes: set<Node>, h: Node -> real, start: Node, goal: Node,
                 gs: Labels, cf: Parents, walks: map<Node, seq<Node>>, heap: set<Entry>, e: Entry)
    requires Keeps(g, nodes, h, start, goal, gs, cf, walks, heap, {}) && e in heap
    ensures e.node in gs && gs[e.node] <= e.g
    ensures Keeps(g, nodes, h, start, goal, gs, cf, walks, heap - {e}, {e.node})
    ensures e.g != gs[e.node] ==> Keeps(g, nodes, h, start, goal, gs, cf, walks, heap - {e}, {})
  {
    PopKeepsFrontier(g, goal, gs, heap, e);
  }

  /** The state inside the neighbour loop: `u` is being expanded, `todo` is still to be looked at. */
  ghost predicate Expanding(g: Graph, nodes: set<Node>, h: Node -> real, start: Node, goal: Node, gs: Labels,
                            cf: Parents,
                            walks: map<Node, seq<Node>>, heap: set<Entry>, u: Node, ug: real, todo: set<Node>) {
    && Keeps(g, nodes, h, start, goal, gs, cf, walks, heap, {u})
    && u in gs && gs[u] == ug && u != goal
    && forall n {:trigger RelaxedTo(g, gs, u, n)} | Edge(g, u, n) && n !in todo :: RelaxedTo(g, gs, u, n)
  }

  lemma LookSkips(g: Graph, nodes: set<Node>, h: Node -> real, start: Node, goal: Node, gs: Labels, cf: Parents,
                  walks: map<Node, seq<Node>>, heap: set<Entry>, u: Node, ug: real, todo: set<Node>, n: Node)
    requires Expanding(g, nodes, h, start, goal, gs, cf, walks, heap, u, ug, todo)
    requires n in todo && Edge(g, u, n) && n in gs && gs[n] <= ug + g[u][n]
    ensures Expanding(g, nodes, h, start, goal, gs, cf, walks, heap, u, ug, todo - {n})
  {
    assert RelaxedTo(g, gs, u, n);
  }

  lemma LookRelaxes(g: Graph, nodes: set<Node>, h: Node -> real, start: Node, goal: Node, gs: Labels, cf: Parents,
                    walks: map<Node, seq<Node>>, heap: set<Entry>, u: Node, ug: real, todo: set<Node>, n: Node,
                      tie: nat)
    requires NonNegative(g) && GraphWithin(g, nodes)
    requires Expanding(g, nodes, h, start, goal, gs, cf, walks, heap, u, ug, todo)
    requires n in todo && Edge(g, u, n) && (n in gs ==> ug + g[u][n] < gs[n])
    ensures var x := ug + g[u][n];
            u in walks &&
            Expanding(g, nodes, h, start, goal, gs[n := x], cf[n := Some(u)], walks[n := walks[u] + [n]],
                      heap + {Entry(x + h(n), tie, x, n)}, u, ug, todo - {n})
  {
    RelaxKeeps(g, nodes, h, start, goal, gs, cf, walks, heap, u, n, tie);
    var gs' := gs[n := ug + g[u][n]];
    forall m | Edge(g, u, m) && m !in todo - {n} ensures RelaxedTo(g, gs', u, m) {
      if m != n { assert RelaxedTo(g, gs, u, m); }
    }
  }

  lemma LookDone(g: Graph, nodes: set<Node>, h: Node -> real, start: Node, goal: Node, gs: Labels, cf: Parents,
                 walks: map<Node, seq<Node>>, heap: set<Entry>, u: Node, ug: real)
    requires Expanding(g, nodes, h, start, goal, gs, cf, walks, heap, u, ug, {})
    ensures Keeps(g, nodes, h, start, goal, gs, cf, walks, heap, {})
  {
    assert Relaxed(g, gs, u);
  }

  lemma StartSearching(g: Graph, start: Node)
    ensures Searching(g, start, map[start := 0.0], map[start := None], map[start := [start]])
  {
    assert Chain(map[start := None], [start], start);
    assert [start][..1] == [start];
  }

  lemma StartFrontier(g: Graph, h: Node -> real, goal: Node, start: Node, gs: Labels, e: Entry)
    requires gs == map[start := 0.0] && e == Entry(h(start), 0, 0.0, start)
    ensures HeapOk(h, gs, {e}) && Frontier(g, goal, gs, {e}, {})
  {
    assert e in {e};
  }

  lemma StartKeeps(g: Graph, nodes: set<Node>, h: Node -> real, start: Node, goal: Node)
    requires start in nodes
    ensures Keeps(g, nodes, h, start, goal, map[start := 0.0], map[start := None], map[start := [start]],
                  {Entry(h(start), 0, 0.0, start)}, {})
  {
    StartSearching(g, start);
    StartFrontier(g, h, goal, start, map[start := 0.0], Entry(h(start), 0, 0.0, start));
  }

  /** The loop over `adjacency.get(node, {})`. */
  method Expand(g: Graph, nodes: set<Node>, h: Node -> real, start: Node, goal: Node, ghost costs: set<real>,
                node: Node, ug: real, gs0: Labels, cf0: Parents, ghost walks0: map<Node, seq<Node>>,
                  heap0: set<Entry>, tie0: nat)
    returns (gs: Labels, cf: Parents, ghost walks: map<Node, seq<Node>>, heap: set<Entry>, tie: nat)
    requires NonNegative(g) && GraphWithin(g, nodes) && Covers(g, nodes, costs)
    requires Keeps(g, nodes, h, start, goal, gs0, cf0, walks0, heap0, {node}) && node != goal
    requires node in gs0 && gs0[node] == ug
    ensures Keeps(g, nodes, h, start, goal, gs, cf, walks, heap, {})
    ensures (gs == gs0 && heap == heap0) || Improvable(nodes, costs, gs) < Improvable(nodes, costs, gs0)
  {
    gs, cf, walks, heap, tie := gs0, cf0, walks0, heap0, tie0;
    var todo := Neighbours(g, node).Keys;
    while todo != {}
      invariant todo <= Neighbours(g, node).Keys
      invariant Expanding(g, nodes, h, start, goal, gs, cf, walks, heap, node, ug, todo)
      invariant (gs == gs0 && heap == heap0) || Improvable(nodes, costs, gs) < Improvable(nodes, costs, gs0)
      decreases |todo|
    {
      var n :| n in todo;
      assert Edge(g, node, n);
      var newG := ug + g[node][n];
      if n !in gs || newG < gs[n] {
        tie := tie + 1;
        RelaxShrinks(g, nodes, costs, start, gs, walks, node, n);
        LookRelaxes(g, nodes, h, start, goal, gs, cf, walks, heap, node, ug, todo, n, tie);
        gs := gs[n := newG];
        cf := cf[n := Some(node)];
        walks := walks[n := walks[node] + [n]];
        heap := heap + {Entry(newG + h(n), tie, newG, n)};
      } else {
        LookSkips(g, nodes, h, start, goal, gs, cf, walks, heap, node, ug, todo, n);
      }
      todo := todo - {n};
    }
    LookDone(g, nodes, h, start, goal, gs, cf, walks, heap, node, ug);
  }

  method AStar(g: Graph, nodes: set<Node>, h: Node -> real, start: Node, goal: Node) returns (r: Option<Route>)
    requires start in nodes && goal in nodes && GraphWithin(g, nodes) && NonNegative(g)
    ensures Answers(g, h, start, goal, r)
  {
    ghost var costs := CostsCovered(g, nodes);
    var tie := 0;
    var heap := {Entry(h(start), 0, 0.0, start)};
    var gs: Labels := map[start := 0.0];
    var cf: Parents := map[start := None];
    ghost var walks := map[start := [start]];
    StartKeeps(g, nodes, h, start, goal);
    while heap != {}
      invariant Keeps(g, nodes, h, start, goal, gs, cf, walks, heap, {})
      decreases Improvable(nodes, costs, gs), |heap|
    {
      var e, rest := PopLeast(heap);
      PopKeeps(g, nodes, h, start, goal, gs, cf, walks, heap, e);
      if e.node == goal {
        assert HasChain(cf, goal);
        var path := Rebuild(cf, goal);
        AnswerGoal(g, h, start, goal, gs, cf, walks, heap, e, path);
        return Some(Route(path, e.g));
      }
      heap := rest;
      if e.g > gs[e.node] {
        continue;
      }
      gs, cf, walks, heap, tie := Expand(g, nodes, h, start, goal, costs, e.node, e.g, gs, cf, walks, heap, tie);
    }
    NoWalkWhenExhausted(g, start, goal, gs);
    r := None;
  }
}
