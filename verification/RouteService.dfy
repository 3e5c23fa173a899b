/** Loading a region's graph and answering GET /routes (services/route-service/main.py). */
module RouteService {
  import opened Options
  import opened Lex
  import opened Walks
  import opened RegionalRedis
  import opened AStarSearch

  datatype EdgeDoc = EdgeDoc(from: Node, to: Node, distance: real)

  /** The distance of the last usable document for `u -> v`, the one `_load_graph` keeps. */
  ghost function LastDistance(docs: seq<EdgeDoc>, u: Node, v: Node): Option<real> {
    if docs == [] then None
    else
      var last := docs[|docs| - 1];
      if last.from == u && last.to == v then Some(last.distance) else LastDistance(docs[..|docs| - 1], u, v)
  }

  ghost predicate Loaded(docs: seq<EdgeDoc>, nodes: set<Node>, g: Graph) {
    forall u, v :: (Edge(g, u, v) <==> u in nodes && v in nodes && LastDistance(docs, u, v).Some?)
                   && (Edge(g, u, v) ==> Some(g[u][v]) == LastDistance(docs, u, v))
  }

  /** `_load_graph`: an edge is kept exactly when both its ends are nodes of the region; of
      several documents for one edge the last wins. */
  method LoadGraph(docs: seq<EdgeDoc>, nodes: set<Node>) returns (g: Graph)
    ensures Loaded(docs, nodes, g)
    ensures forall u, v, c {:trigger Weighs(g, u, v, c)} ::
              Weighs(g, u, v, c) <==> u in nodes && v in nodes && exists i: nat :: FinalDoc(docs, i, u, v, c)
    ensures GraphWithin(g, nodes)
    ensures (forall i | 0 <= i < |docs| :: docs[i].distance >= 0.0) ==> NonNegative(g)
  {
    g := map[];
    for i := 0 to |docs|
      invariant Loaded(docs[..i], nodes, g)
    {
      var d := docs[i];
      ghost var before := g;
      assert docs[..i + 1][..i] == docs[..i];
      if d.from in nodes && d.to in nodes {
        g := g[d.from := Neighbours(g, d.from)[d.to := d.distance]];
      }
      forall u, v
        ensures (Edge(g, u, v) <==> u in nodes && v in nodes && LastDistance(docs[..i + 1], u, v).Some?)
                && (Edge(g, u, v) ==> Some(g[u][v]) == LastDistance(docs[..i + 1], u, v))
      {
        assert Edge(before, u, v) <==> u in nodes && v in nodes && LastDistance(docs[..i], u, v).Some?;
      }
    }
    assert docs[..|docs|] == docs;
    forall u, v, c
      ensures Weighs(g, u, v, c) <==> u in nodes && v in nodes && exists i: nat :: FinalDoc(docs, i, u, v, c)
    {
      LastDistanceExact(docs, u, v, c);
      assert Edge(g, u, v) <==> u in nodes && v in nodes && LastDistance(docs, u, v).Some?;
    }
    if forall i | 0 <= i < |docs| :: docs[i].distance >= 0.0 {
      forall u, v | Edge(g, u, v) ensures g[u][v] >= 0.0 {
        LastDistanceFrom(docs, u, v);
      }
    }
  }

  /** The edge from `u` to `v` is there, with distance `c`. */
  predicate Weighs(g: Graph, u: Node, v: Node, c: real) {
    Edge(g, u, v) && g[u][v] == c
  }

  /** Document `i` gives the edge from `u` to `v` the distance `c`, and no later one is about it. */
  ghost predicate FinalDoc(docs: seq<EdgeDoc>, i: nat, u: Node, v: Node, c: real) {
    && i < |docs| && docs[i] == EdgeDoc(u, v, c)
    && forall j: nat | i < j < |docs| :: docs[j].from != u || docs[j].to != v
  }

  lemma {:induction false} LastDistanceExact(docs: seq<EdgeDoc>, u: Node, v: Node, c: real)
    ensures LastDistance(docs, u, v) == Some(c) <==> exists i: nat :: FinalDoc(docs, i, u, v, c)
  {
    if docs == [] {
    } else {
      var n := |docs| - 1;
      LastDistanceExact(docs[..n], u, v, c);
      if docs[n].from == u && docs[n].to == v {
        if docs[n].distance == c { assert FinalDoc(docs, n, u, v, c); }
      } else {
        if i: nat :| FinalDoc(docs[..n], i, u, v, c) { assert FinalDoc(docs, i, u, v, c); }
        if i: nat :| FinalDoc(docs, i, u, v, c) { assert FinalDoc(docs[..n], i, u, v, c); }
      }
    }
  }

  lemma {:induction false} LastDistanceFrom(docs: seq<EdgeDoc>, u: Node, v: Node)
    requires LastDistance(docs, u, v).Some?
    ensures exists i :: 0 <= i < |docs| && docs[i] == EdgeDoc(u, v, LastDistance(docs, u, v).value)
  {
    var n := |docs| - 1;
    if docs[n].from == u && docs[n].to == v {
      assert docs[n] == EdgeDoc(u, v, docs[n].distance);
    } else {
      LastDistanceFrom(docs[..n], u, v);
      var i :| 0 <= i < n && docs[..n][i] == EdgeDoc(u, v, LastDistance(docs, u, v).value);
      assert docs[i] == EdgeDoc(u, v, LastDistance(docs, u, v).value);
    }
  }

  // ---------------------------------------------------------------- GET /routes

  datatype RoadSegment = RoadSegment(ends: Segment, distance: real)

  datatype Reply = NoPath | SameNode | Found(path: seq<Node>, total: real, segments: seq<RoadSegment>)

  ghost function Length(segments: seq<RoadSegment>): real {
    if segments == [] then 0.0 else Length(segments[..|segments| - 1]) + segments[|segments| - 1].distance
  }

  ghost predicate SegmentsOf(g: Graph, path: seq<Node>, segments: seq<RoadSegment>) {
    && |segments| + 1 == |path|
    && forall i: nat | i < |segments| ::
         Hop(g, path, i) && segments[i] == RoadSegment(Segment(path[i], path[i + 1]), g[path[i]][path[i + 1]])
  }

  lemma {:induction false} LengthIsCost(g: Graph, path: seq<Node>, segments: seq<RoadSegment>)
    requires IsWalk(g, path) && SegmentsOf(g, path, segments)
    ensures Length(segments) == Cost(g, path)
  {
    var n := |path| - 1;
    if n > 0 {
      WalkPrefix(g, path, n - 1);
      forall i: nat | i < n - 1
        ensures Hop(g, path[..n], i)
        ensures segments[..n - 1][i]
                == RoadSegment(Segment(path[..n][i], path[..n][i + 1]), g[path[..n][i]][path[..n][i + 1]])
      {
        assert Hop(g, path, i);
      }
      LengthIsCost(g, path[..n], segments[..n - 1]);
      assert Hop(g, path, n - 1);
    }
  }

  ghost predicate DistinctSegments(segments: seq<RoadSegment>) {
    forall i, j | 0 <= i < j < |segments| :: segments[i].ends != segments[j].ends
  }

  /** The answer to GET /routes for two nodes of this region. */
  method FindRoute(g: Graph, nodes: set<Node>, h: Node -> real, origin: Node, destination: Node) returns (reply: Reply)
    requires origin in nodes && destination in nodes && GraphWithin(g, nodes) && NonNegative(g)
    ensures reply.SameNode? <==> origin == destination
    ensures reply.NoPath? <==> origin != destination && !Reachable(g, origin, destination)
    ensures reply.Found? ==>
              && WalkFromTo(g, reply.path, origin, destination) && SegmentsOf(g, reply.path, reply.segments)
              && DistinctSegments(reply.segments) && Length(reply.segments) <= reply.total
    ensures reply.Found? ==> AsGoodAsHeuristic(g, h, origin, destination, reply.total)
    ensures reply.Found? && AdmissibleHeuristic(g, h, destination) && h(destination) == 0.0 ==>
              && Length(reply.segments) == reply.total
              && forall p | WalkFromTo(g, p, origin, destination) :: reply.total <= Cost(g, p)
  {
    if origin == destination {
      return SameNode;
    }
    var r := AStar(g, nodes, h, origin, destination);
    match r {
      case None => reply := NoPath;
      case Some(route) =>
        var path := route.path;
        assert forall i: nat | i + 1 < |path| :: Hop(g, path, i);
        var segments := seq(|path| - 1, i requires 0 <= i < |path| - 1 && Hop(g, path, i) =>
                            RoadSegment(Segment(path[i], path[i + 1]), g[path[i]][path[i + 1]]));
        LengthIsCost(g, path, segments);
        reply := Found(path, route.total, segments);
        assert Reachable(g, origin, destination);
    }
  }

  // ---------------------------------------------------------------- what the reservation needs

  lemma {:induction false} KeyInjective(a: Segment, b: Segment)
    requires ':' !in a.from && ':' !in b.from && KeyOf(a) == KeyOf(b)
    ensures a == b
  {
    var k := KeyOf(a);
    assert k[|a.from|] == ':' && k[|b.from|] == ':';
    assert forall i | 0 <= i < |a.from| :: k[i] == a.from[i] != ':';
    assert forall i | 0 <= i < |b.from| :: k[i] == b.from[i] != ':';
    assert |a.from| == |b.from|;
    assert k[..|a.from|] == a.from && k[..|b.from|] == b.from;
    assert k[|a.from| + 1..] == a.to && k[|b.from| + 1..] == b.to;
  }

  function Ends(segments: seq<RoadSegment>): (r: seq<Segment>)
    ensures |r| == |segments| && forall i | 0 <= i < |r| :: r[i] == segments[i].ends
  {
    seq(|segments|, i requires 0 <= i < |segments| => segments[i].ends)
  }

  /** A route never contends with itself for a lock: its request is refused for contention only
      if somebody else holds one of its segments. */
  lemma RouteNeverSelfContends(segments: seq<RoadSegment>, locks: set<Key>)
    requires DistinctSegments(segments) && forall i | 0 <= i < |segments| :: ':' !in segments[i].ends.from
    ensures Distinct(KeysOf(Ends(segments)))
    ensures FirstClash(locks, Sort(KeysOf(Ends(segments)))).Some?
            <==> exists i :: 0 <= i < |segments| && KeyOf(segments[i].ends) in locks
  {
    var keys := KeysOf(Ends(segments));
    forall i, j | 0 <= i < j < |keys| ensures keys[i] != keys[j] {
      if keys[i] == keys[j] { KeyInjective(segments[i].ends, segments[j].ends); }
    }
    SortSorts(keys);
    SameMultisetSameDistinctness(keys, Sort(keys));
    ClashIffLockedOrRepeated(locks, Sort(keys));
    forall k ensures k in Sort(keys) <==> k in keys {
      assert k in Sort(keys) <==> k in multiset(Sort(keys));
      assert k in keys <==> k in multiset(keys);
    }
    forall i | 0 <= i < |segments| ensures KeyOf(segments[i].ends) in keys {
      assert keys[i] == KeyOf(segments[i].ends);
    }
  }
}
