/** Cross-region planning (services/journey-management/main.py): Dijkstra over the region
    overlay, the legs stitched through the border gateways, and the saga's fan-out. */
module Overlay {
  import opened Lex
  import opened Walks

  type Region = string

  datatype Corridor = Corridor(exit: Node, entry: Node, cost: real)

  type Corridors = map<Region, map<Region, Corridor>>

  /** The overlay as a weighted graph. */
  function Weights(o: Corridors): Graph {
    map r | r in o :: (map n | n in o[r] :: o[r][n].cost)
  }

  datatype Entry = Entry(cost: real, region: Region, path: seq<Region>)

  /** A heap entry is a walk without repetition whose last region alone may be unvisited. */
  ghost predicate EntryOk(g: Graph, origin: Region, visited: set<Region>, e: Entry) {
    && WalkFromTo(g, e.path, origin, e.region) && Distinct(e.path) && Cost(g, e.path) == e.cost
    && forall i | 0 <= i < |e.path| - 1 :: e.path[i] in visited
  }

  ghost predicate HeapOk(g: Graph, origin: Region, visited: set<Region>, heap: set<Entry>) {
    forall e | e in heap :: EntryOk(g, origin, visited, e)
  }

  ghost predicate Offered(g: Graph, dist: map<Region, real>, heap: set<Entry>, u: Region, n: Region) {
    Edge(g, u, n) && u in dist ==>
      n in dist || exists e :: e in heap && e.region == n && e.cost <= dist[u] + g[u][n]
  }

  ghost predicate Settled(g: Graph, origin: Region, dist: map<Region, real>, v: Region) {
    v in dist ==> forall p | WalkFromTo(g, p, origin, v) :: dist[v] <= Cost(g, p)
  }

  ghost predicate AllSettled(g: Graph, origin: Region, dist: map<Region, real>) {
    forall v {:trigger Settled(g, origin, dist, v)} :: Settled(g, origin, dist, v)
  }

  ghost predicate AllOffered(g: Graph, dist: map<Region, real>, heap: set<Entry>) {
    forall u, n {:trigger Offered(g, dist, heap, u, n)} :: Offered(g, dist, heap, u, n)
  }

  ghost predicate OriginKnown(origin: Region, dist: map<Region, real>, heap: set<Entry>) {
    origin in dist || exists e :: e in heap && e.region == origin && e.cost == 0.0
  }

  /** Any walk to an unvisited region passes an entry of the heap that costs no more. */
  lemma {:induction false} EntryOnWalk(g: Graph, origin: Region, dist: map<Region, real>, heap: set<Entry>,
      p: seq<Region>, v: Region, i: nat)
    returns (e: Entry)
    requires NonNegative(g) && AllSettled(g, origin, dist) && AllOffered(g, dist, heap) &&
        OriginKnown(origin, dist, heap)
    requires WalkFromTo(g, p, origin, v) && v !in dist && i < |p| && forall j | 0 <= j < i :: p[j] in dist
    ensures e in heap && e.cost <= Cost(g, p)
    decreases |p| - i
  {
    if p[i] in dist {
      e := EntryOnWalk(g, origin, dist, heap, p, v, i + 1);
    } else if i == 0 {
      e :| e in heap && e.region == origin && e.cost == 0.0;
      CostNonNegative(g, p);
    } else {
      var u := p[i - 1];
      PrefixStep(g, p, i - 1);
      WalkPrefix(g, p, i - 1);
      assert WalkFromTo(g, p[..i], origin, u);
      assert Settled(g, origin, dist, u);
      assert Offered(g, dist, heap, u, p[i]);
      e :| e in heap && e.region == p[i] && e.cost <= dist[u] + g[u][p[i]];
      PrefixNoDearer(g, p, i);
    }
  }

  ghost predicate Least(e: Entry, heap: set<Entry>) {
    e in heap && forall x | x in heap :: e.cost <= x.cost
  }

  lemma LeastExists(heap: set<Entry>)
    requires heap != {}
    ensures exists e :: Least(e, heap)
  {
    var x :| x in heap;
    if heap == {x} {
      assert Least(x, heap);
    } else {
      LeastExists(heap - {x});
      var y :| Least(y, heap - {x});
      assert Least(if x.cost <= y.cost then x else y, heap);
    }
  }

  /** heapq.heappop, with any choice among entries of equal cost. */
  method PopLeast(heap: set<Entry>) returns (e: Entry, rest: set<Entry>)
    requires heap != {}
    ensures Least(e, heap) && rest == heap - {e}
  {
    LeastExists(heap);
    e :| e in heap && forall x | x in heap :: e.cost <= x.cost;
    rest := heap - {e};
  }

  ghost predicate Keeps(g: Graph, origin: Region, dist: map<Region, real>, heap: set<Entry>) {
    && HeapOk(g, origin, dist.Keys, heap) && AllSettled(g, origin, dist)
    && AllOffered(g, dist, heap) && OriginKnown(origin, dist, heap)
  }

  /** The popped unvisited entry is a cheapest walk to its region. */
  lemma PoppedIsCheapest(g: Graph, origin: Region, dist: map<Region, real>, heap: set<Entry>, e: Entry, p: seq<Region>)
    requires NonNegative(g) && Keeps(g, origin, dist, heap) && Least(e, heap) && e.region !in dist
    requires WalkFromTo(g, p, origin, e.region)
    ensures e.cost <= Cost(g, p)
  {
    var x := EntryOnWalk(g, origin, dist, heap, p, e.region, 0);
  }

  lemma DropStale(g: Graph, origin: Region, dist: map<Region, real>, heap: set<Entry>, e: Entry)
    requires Keeps(g, origin, dist, heap) && e in heap && e.region in dist
    ensures Keeps(g, origin, dist, heap - {e})
  {
    forall u, n ensures Offered(g, dist, heap - {e}, u, n) {
      assert Offered(g, dist, heap, u, n);
      if Edge(g, u, n) && u in dist && n !in dist {
        var x :| x in heap && x.region == n && x.cost <= dist[u] + g[u][n];
        assert x in heap - {e};
      }
    }
    assert EntryOk(g, origin, dist.Keys, e);
  }

  lemma ExtendEntry(g: Graph, origin: Region, visited: set<Region>, e: Entry, n: Region)
    requires EntryOk(g, origin, visited, e) && e.region in visited && Edge(g, e.region, n) && n !in visited
    ensures EntryOk(g, origin, visited, Entry(e.cost + g[e.region][n], n, e.path + [n]))
  {
    WalkExtend(g, e.path, n);
    var q := e.path + [n];
    forall i, j | 0 <= i < j < |q| ensures q[i] != q[j] {
      if j == |e.path| {
        assert e.path[i] in visited;
      }
    }
  }

  /** The heap entries pushed for the unvisited neighbours of the popped entry's region. */
  function Pushes(g: Graph, e: Entry, visited: set<Region>): set<Entry> {
    PushesOf(Neighbours(g, e.region).Keys, Neighbours(g, e.region), e, visited)
  }

  function PushesOf(some: set<Region>, neighbours: map<Region, real>, e: Entry, visited: set<Region>): set<Entry>
    requires some <= neighbours.Keys
  {
    set n | n in some && n !in visited :: Entry(e.cost + neighbours[n], n, e.path + [n])
  }

  /** Visiting the popped entry's region and pushing its unvisited neighbours keeps everything. */
  lemma VisitKeeps(g: Graph, origin: Region, dist: map<Region, real>, heap: set<Entry>, e: Entry, pushed: set<Entry>)
    requires NonNegative(g) && Keeps(g, origin, dist, heap) && Least(e, heap) && e.region !in dist
    requires pushed == Pushes(g, e, dist.Keys + {e.region})
    ensures Keeps(g, origin, dist[e.region := e.cost], heap - {e} + pushed)
  {
    var dist', heap' := dist[e.region := e.cost], heap - {e} + pushed;
    forall x | x in heap' ensures EntryOk(g, origin, dist'.Keys, x) {
      assert EntryOk(g, origin, dist.Keys, e);
      if x in pushed {
        var n :| n in Neighbours(g, e.region) && n !in dist.Keys + {e.region} &&
            x == Entry(e.cost + g[e.region][n], n, e.path + [n]);
        ExtendEntry(g, origin, dist'.Keys, e, n);
      } else {
        assert EntryOk(g, origin, dist.Keys, x);
      }
    }
    forall v ensures Settled(g, origin, dist', v) {
      assert Settled(g, origin, dist, v);
      if v == e.region {
        forall p | WalkFromTo(g, p, origin, v) ensures e.cost <= Cost(g, p) {
          PoppedIsCheapest(g, origin, dist, heap, e, p);
        }
      }
    }
    VisitOffers(g, origin, dist, heap, e, pushed);
  }

  lemma VisitOffers(g: Graph, origin: Region, dist: map<Region, real>, heap: set<Entry>, e: Entry, pushed: set<Entry>)
    requires Keeps(g, origin, dist, heap) && e in heap && e.region !in dist
    requires pushed == Pushes(g, e, dist.Keys + {e.region})
    ensures AllOffered(g, dist[e.region := e.cost], heap - {e} + pushed)
    ensures OriginKnown(origin, dist[e.region := e.cost], heap - {e} + pushed)
  {
    var dist', heap' := dist[e.region := e.cost], heap - {e} + pushed;
    forall u, n ensures Offered(g, dist', heap', u, n) {
      assert Offered(g, dist, heap, u, n);
      if Edge(g, u, n) && u in dist' && n !in dist' {
        if u == e.region {
          assert Entry(e.cost + g[e.region][n], n, e.path + [n]) in heap';
        } else {
          var x :| x in heap && x.region == n && x.cost <= dist[u] + g[u][n];
          assert x in heap';
        }
      }
    }
    assert EntryOk(g, origin, dist.Keys, e);
  }

  ghost predicate ShortestPath(g: Graph, origin: Region, dest: Region, path: seq<Region>) {
    if path == [] then !Reachable(g, origin, dest)
    else
      && WalkFromTo(g, path, origin, dest) && Distinct(path)
      && forall p | WalkFromTo(g, p, origin, dest) :: Cost(g, path) <= Cost(g, p)
  }

  /** All regions the overlay mentions. */
  ghost function Regions(g: Graph): set<Region> {
    g.Keys + set u, v | u in g && v in g[u] :: v
  }

  lemma SinglePath(g: Graph, r: Region)
    requires NonNegative(g)
    ensures ShortestPath(g, r, r, [r])
  {
    forall p | WalkFromTo(g, p, r, r) ensures Cost(g, [r]) <= Cost(g, p) {
      CostNonNegative(g, p);
    }
  }

  lemma NothingLeft(g: Graph, origin: Region, dest: Region, dist: map<Region, real>)
    requires NonNegative(g) && Keeps(g, origin, dist, {}) && dest !in dist
    ensures !Reachable(g, origin, dest)
  {
    forall p ensures !WalkFromTo(g, p, origin, dest) {
      if WalkFromTo(g, p, origin, dest) {
        var e := EntryOnWalk(g, origin, dist, {}, p, dest, 0);
        assert false;
      }
    }
  }

  lemma StartKeeps(g: Graph, origin: Region)
    ensures Keeps(g, origin, map[], {Entry(0.0, origin, [origin])})
  {
    assert Entry(0.0, origin, [origin]) in {Entry(0.0, origin, [origin])};
  }

  lemma DestinationReached(g: Graph, origin: Region, dist: map<Region, real>, heap: set<Entry>, e: Entry)
    requires NonNegative(g) && Keeps(g, origin, dist, heap) && Least(e, heap) && e.region !in dist
    ensures ShortestPath(g, origin, e.region, e.path)
  {
    assert EntryOk(g, origin, dist.Keys, e);
    forall p | WalkFromTo(g, p, origin, e.region) ensures Cost(g, e.path) <= Cost(g, p) {
      PoppedIsCheapest(g, origin, dist, heap, e, p);
    }
  }

  lemma PoppedIsRegion(g: Graph, origin: Region, dist: map<Region, real>, heap: set<Entry>, e: Entry)
    requires Keeps(g, origin, dist, heap) && e in heap
    ensures e.region == origin || e.region in Regions(g)
  {
    assert EntryOk(g, origin, dist.Keys, e);
    if |e.path| > 1 { assert Hop(g, e.path, |e.path| - 2); }
  }

  /** The neighbours of a visited region, pushed one after the other. */
  method Visit(g: Graph, ghost origin: Region, ghost dist: map<Region, real>, ghost heap: set<Entry>,
      e: Entry, rest: set<Entry>, visited: set<Region>) returns (next: set<Entry>)
    requires NonNegative(g) && Keeps(g, origin, dist, heap) && Least(e, heap) && e.region !in dist
    requires rest == heap - {e} && visited == dist.Keys + {e.region}
    ensures Keeps(g, origin, dist[e.region := e.cost], next)
  {
    var neighbours := Neighbours(g, e.region);
    var todo := neighbours.Keys;
    next := rest;
    while todo != {}
      invariant todo <= neighbours.Keys
      invariant next == rest + PushesOf(neighbours.Keys - todo, neighbours, e, visited)
    {
      var n :| n in todo;
      todo := todo - {n};
      if n !in visited { next := next + {Entry(e.cost + neighbours[n], n, e.path + [n])}; }
    }
    assert neighbours.Keys - todo == neighbours.Keys;
    VisitKeeps(g, origin, dist, heap, e, Pushes(g, e, visited));
  }

  lemma VisitShrinks(all: set<Region>, visited: set<Region>, r: Region)
    requires r in all && r !in visited
    ensures all - (visited + {r}) < all - visited
  {
    assert r in all - visited;
  }

  /** The heap loop. The visited set is the domain of the ghost `dist`. */
  method Dijkstra(g: Graph, origin: Region, dest: Region) returns (path: seq<Region>)
    requires NonNegative(g)
    ensures ShortestPath(g, origin, dest, path)
  {
    var heap := {Entry(0.0, origin, [origin])};
    var visited: set<Region> := {};
    ghost var dist: map<Region, real> := map[];
    StartKeeps(g, origin);
    while heap != {}
      invariant Keeps(g, origin, dist, heap) && visited == dist.Keys && dest !in visited
      decreases Regions(g) + {origin} - visited, |heap|
    {
      var e, rest := PopLeast(heap);
      PoppedIsRegion(g, origin, dist, heap, e);
      if e.region in visited {
        DropStale(g, origin, dist, heap, e);
        heap := rest;
      } else if e.region == dest {
        DestinationReached(g, origin, dist, heap, e);
        return e.path;
      } else {
        VisitShrinks(Regions(g) + {origin}, visited, e.region);
        visited := visited + {e.region};
        heap := Visit(g, origin, dist, heap, e, rest, visited);
        dist := dist[e.region := e.cost];
      }
    }
    NothingLeft(g, origin, dest, dist);
    path := [];
  }

  // ---------------------------------------------------------------- over the corridors themselves

  predicate Joined(o: Corridors, p: seq<Region>, i: nat) {
    i + 1 < |p| && p[i] in o && p[i + 1] in o[p[i]]
  }

  /** A list of regions in which a corridor leads from each to the next. */
  ghost predicate IsTrip(o: Corridors, p: seq<Region>) {
    p != [] && forall i: nat | i + 1 < |p| :: Joined(o, p, i)
  }

  ghost predicate TripFromTo(o: Corridors, p: seq<Region>, origin: Region, dest: Region) {
    IsTrip(o, p) && p[0] == origin && p[|p| - 1] == dest
  }

  lemma TripTail(o: Corridors, p: seq<Region>)
    requires IsTrip(o, p) && |p| > 1
    ensures Joined(o, p, 0) && IsTrip(o, p[1..])
  {
    assert Joined(o, p, 0);
    forall i: nat | i + 1 < |p[1..]| ensures Joined(o, p[1..], i) {
      assert Joined(o, p, i + 1);
    }
  }

  /** What the corridors of a trip cost together. */
  ghost function TripCost(o: Corridors, p: seq<Region>): real
    requires IsTrip(o, p)
    decreases p
  {
    if |p| == 1 then 0.0
    else TripTail(o, p); o[p[0]][p[1]].cost + TripCost(o, p[1..])
  }

  /** A cheapest trip without repetition, or [] if there is no trip at all. */
  ghost predicate CheapestTrip(o: Corridors, origin: Region, dest: Region, path: seq<Region>) {
    if path == [] then forall p :: !TripFromTo(o, p, origin, dest)
    else
      && TripFromTo(o, path, origin, dest) && Distinct(path)
      && forall p | TripFromTo(o, p, origin, dest) :: TripCost(o, path) <= TripCost(o, p)
  }

  ghost predicate CostsNonNegative(o: Corridors) {
    forall r, n | r in o && n in o[r] :: o[r][n].cost >= 0.0
  }

  lemma TripIsWalk(o: Corridors, p: seq<Region>)
    ensures IsTrip(o, p) <==> IsWalk(Weights(o), p)
  {
    forall i: nat ensures Joined(o, p, i) <==> Hop(Weights(o), p, i) {}
    if IsTrip(o, p) {
      forall i: nat | i + 1 < |p| ensures Hop(Weights(o), p, i) { assert Joined(o, p, i); }
    }
    if IsWalk(Weights(o), p) {
      forall i: nat | i + 1 < |p| ensures Joined(o, p, i) { assert Hop(Weights(o), p, i); }
    }
  }

  lemma FirstHopCost(g: Graph, p: seq<Region>)
    requires IsWalk(g, p) && |p| > 1
    ensures Hop(g, p, 0) && IsWalk(g, p[1..]) && Cost(g, p) == g[p[0]][p[1]] + Cost(g, p[1..])
  {
    assert Hop(g, p, 0);
    CostSplit(g, p, 1);
    assert p[..2][..1] == [p[0]];
    WalkPrefix(g, p, 1);
    assert Hop(g, p[..2], 0);
  }

  /** The sum over the corridors is the cost of the walk. */
  lemma {:induction false} TripCostIsCost(o: Corridors, p: seq<Region>)
    requires IsTrip(o, p) && IsWalk(Weights(o), p)
    ensures TripCost(o, p) == Cost(Weights(o), p)
    decreases p
  {
    if |p| > 1 {
      TripTail(o, p);
      FirstHopCost(Weights(o), p);
      TripCostIsCost(o, p[1..]);
    }
  }

  /** Shortest paths of the graph are the cheapest trips over the corridors. */
  lemma ShortestIsCheapest(o: Corridors, origin: Region, dest: Region, path: seq<Region>)
    ensures ShortestPath(Weights(o), origin, dest, path) <==> CheapestTrip(o, origin, dest, path)
  {
    var g := Weights(o);
    forall p
      ensures TripFromTo(o, p, origin, dest) <==> WalkFromTo(g, p, origin, dest)
      ensures IsTrip(o, p) <==> IsWalk(g, p)
      ensures IsTrip(o, p) ==> TripCost(o, p) == Cost(g, p)
    {
      TripIsWalk(o, p);
      if IsTrip(o, p) { TripCostIsCost(o, p); }
    }
  }

  lemma CostsAreWeights(o: Corridors)
    requires CostsNonNegative(o)
    ensures NonNegative(Weights(o))
  {
  }

  /** `_overlay_shortest_path`: the regions of a cheapest trip over the corridors. */
  method OverlayShortestPath(o: Corridors, origin: Region, dest: Region) returns (path: seq<Region>)
    requires CostsNonNegative(o)
    ensures CheapestTrip(o, origin, dest, path)
  {
    CostsAreWeights(o);
    if origin == dest {
      path := [origin];
      SinglePath(Weights(o), origin);
    } else {
      path := Dijkstra(Weights(o), origin, dest);
    }
    ShortestIsCheapest(o, origin, dest, path);
  }
}
