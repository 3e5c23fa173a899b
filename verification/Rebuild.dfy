/** Seeding a region's Redis and rebuilding it from MongoDB (services/data/rebuild_redis.py and
    `_seed_redis_capacity` in services/validation-service/main.py). */
module Rebuild {
  import opened Options
  import opened Lex
  import opened NewestFirst
  import opened RegionalRedis
  import opened Bookings

  datatype RoadDoc = RoadDoc(from: string, to: string, roadType: string)

  const PIPELINE_BATCH := 500

  /** ROAD_TYPE_CAPACITY with its default. */
  function RoadCapacity(roadType: string): nat {
    match roadType
    case "motorway" => 200
    case "motorway_link" => 100
    case "trunk" => 150
    case "trunk_link" => 75
    case "primary" => 100
    case "primary_link" => 50
    case "secondary" => 75
    case "secondary_link" => 40
    case "tertiary" => 50
    case "tertiary_link" => 25
    case "track" => 1
    case _ => 100
  }

  /** A pair of pipelined commands: the capacity of a segment, and its occupancy set to 0. */
  datatype Seed = Seed(key: Key, capacity: nat)

  predicate HasEnds(e: RoadDoc) {
    e.from != "" && e.to != ""
  }

  function SeedOf(e: RoadDoc): Seed {
    Seed(KeyOf(Segment(e.from, e.to)), RoadCapacity(e.roadType))
  }

  /** The commands the edges of a region give rise to. */
  function Seeds(edges: seq<RoadDoc>): seq<Seed> {
    if edges == [] then []
    else
      var n := |edges| - 1;
      if HasEnds(edges[n]) then Seeds(edges[..n]) + [SeedOf(edges[n])] else Seeds(edges[..n])
  }

  function SetAll(m: map<Key, int>, seeds: seq<Seed>, value: Seed -> int): map<Key, int> {
    if seeds == [] then m
    else
      var last := seeds[|seeds| - 1];
      SetAll(m, seeds[..|seeds| - 1], value)[last.key := value(last)]
  }

  function SetMissing(m: map<Key, int>, seeds: seq<Seed>, value: Seed -> int): map<Key, int> {
    if seeds == [] then m
    else
      var last := seeds[|seeds| - 1];
      var before := SetMissing(m, seeds[..|seeds| - 1], value);
      if last.key in before then before else before[last.key := value(last)]
  }

  function Capacity(seed: Seed): int { seed.capacity }

  function Zero(seed: Seed): int { 0 }

  predicate Seeded(seeds: seq<Seed>, k: Key) {
    exists i :: 0 <= i < |seeds| && seeds[i].key == k
  }

  /** The last command for a key, if there is one. */
  function LastFor(seeds: seq<Seed>, k: Key): (r: Option<Seed>)
    ensures r.None? <==> !Seeded(seeds, k)
    ensures r.Some? ==> r.value.key == k && r.value in seeds
  {
    if seeds == [] then None
    else
      var n := |seeds| - 1;
      assert seeds == seeds[..n] + [seeds[n]];
      assert Seeded(seeds, k) <==> Seeded(seeds[..n], k) || seeds[n].key == k
          by { SeededSnoc(seeds[..n], seeds[n], k); }
      if seeds[n].key == k then Some(seeds[n]) else LastFor(seeds[..n], k)
  }

  lemma SeededSnoc(seeds: seq<Seed>, last: Seed, k: Key)
    ensures Seeded(seeds + [last], k) <==> Seeded(seeds, k) || last.key == k
  {
    var both := seeds + [last];
    assert both[|seeds|] == last;
    if Seeded(seeds, k) {
      var i :| 0 <= i < |seeds| && seeds[i].key == k;
      assert both[i].key == k;
    }
    if Seeded(both, k) && last.key != k {
      var i :| 0 <= i < |both| && both[i].key == k;
      assert seeds[i].key == k;
    }
  }

  /** An unconditional SET leaves the value of the last command for a key. */
  lemma {:induction false} SetAllAt(m: map<Key, int>, seeds: seq<Seed>, value: Seed -> int, k: Key)
    ensures At(SetAll(m, seeds, value), k)
            == match LastFor(seeds, k) case Some(s) => value(s) case None => At(m, k)
  {
    if seeds == [] {
    } else {
      SetAllAt(m, seeds[..|seeds| - 1], value, k);
    }
  }

  /** The first command for a key, if there is one. */
  function FirstFor(seeds: seq<Seed>, k: Key): Option<Seed> {
    if seeds == [] then None else if seeds[0].key == k then Some(seeds[0]) else FirstFor(seeds[1..], k)
  }

  lemma {:induction false} FirstForSnoc(seeds: seq<Seed>, last: Seed, k: Key)
    ensures FirstFor(seeds + [last], k)
            == if FirstFor(seeds, k).Some? then FirstFor(seeds, k) else if last.key == k then Some(last) else None
  {
    if seeds == [] {
      assert [] + [last] == [last] && [last][1..] == [];
    } else {
      assert (seeds + [last])[1..] == seeds[1..] + [last];
      FirstForSnoc(seeds[1..], last, k);
    }
  }

  /** SET NX never changes a key that exists, so seeding again after a restart keeps live counters; a
      missing key gets the value of the first command for it. */
  lemma {:induction false} SetMissingKeeps(m: map<Key, int>, seeds: seq<Seed>, value: Seed -> int, k: Key)
    ensures var r := SetMissing(m, seeds, value);
            && (k in r <==> k in m || FirstFor(seeds, k).Some?)
            && (k in r ==> r[k] == if k in m then m[k] else value(FirstFor(seeds, k).value))
  {
    if seeds == [] {
    } else {
      var n := |seeds| - 1;
      SetMissingKeeps(m, seeds[..n], value, k);
      assert seeds == seeds[..n] + [seeds[n]];
      FirstForSnoc(seeds[..n], seeds[n], k);
    }
  }

  lemma {:induction false} SetAllConcat(m: map<Key, int>, xs: seq<Seed>, ys: seq<Seed>, value: Seed -> int)
    ensures SetAll(m, xs + ys, value) == SetAll(SetAll(m, xs, value), ys, value)
  {
    if ys == [] {
      assert xs + ys == xs;
    } else {
      assert (xs + ys)[..|xs + ys| - 1] == xs + ys[..|ys| - 1];
      SetAllConcat(m, xs, ys[..|ys| - 1], value);
    }
  }

  lemma {:induction false} SetMissingConcat(m: map<Key, int>, xs: seq<Seed>, ys: seq<Seed>, value: Seed -> int)
    ensures SetMissing(m, xs + ys, value) == SetMissing(SetMissing(m, xs, value), ys, value)
  {
    if ys == [] {
      assert xs + ys == xs;
    } else {
      assert (xs + ys)[..|xs + ys| - 1] == xs + ys[..|ys| - 1];
      SetMissingConcat(m, xs, ys[..|ys| - 1], value);
    }
  }

  // ---------------------------------------------------------------- what the edges seed

  /** Edge `i` has both ends and leads along the segment with key `k`. */
  predicate Leads(edges: seq<RoadDoc>, i: nat, k: Key) {
    && i < |edges| && edges[i].from != "" && edges[i].to != ""
    && k == edges[i].from + ":" + edges[i].to
  }

  ghost predicate Listed(edges: seq<RoadDoc>, k: Key) {
    exists i: nat :: Leads(edges, i, k)
  }

  ghost predicate LeadsLast(edges: seq<RoadDoc>, i: nat, k: Key) {
    Leads(edges, i, k) && forall j: nat | i < j :: !Leads(edges, j, k)
  }

  ghost predicate LeadsFirst(edges: seq<RoadDoc>, i: nat, k: Key) {
    Leads(edges, i, k) && forall j: nat | j < i :: !Leads(edges, j, k)
  }

  /** Key `k` has the value `c`. */
  predicate Holds(m: map<Key, int>, k: Key, c: int) {
    k in m && m[k] == c
  }

  function CapacityOf(e: RoadDoc): int { RoadCapacity(e.roadType) }

  function NothingOf(e: RoadDoc): int { 0 }

  /** The last edge for `k` has this value. */
  ghost predicate LastGives(edges: seq<RoadDoc>, k: Key, value: RoadDoc -> int, c: int) {
    exists i: nat :: LeadsLast(edges, i, k) && value(edges[i]) == c
  }

  /** The first edge for `k` has this value. */
  ghost predicate FirstGives(edges: seq<RoadDoc>, k: Key, value: RoadDoc -> int, c: int) {
    exists i: nat :: LeadsFirst(edges, i, k) && value(edges[i]) == c
  }

  /** Every listed key has the value of its last edge, the others have what they had. */
  ghost predicate Overwritten(m: map<Key, int>, m': map<Key, int>, edges: seq<RoadDoc>, value: RoadDoc -> int) {
    forall k, c {:trigger Holds(m', k, c)} ::
      Holds(m', k, c)
      <==> || LastGives(edges, k, value, c)
           || (!Listed(edges, k) && Holds(m, k, c))
  }

  /** Keys that were there have what they had, a listed key that was missing has the value of its
      first edge. */
  ghost predicate FilledIn(m: map<Key, int>, m': map<Key, int>, edges: seq<RoadDoc>, value: RoadDoc -> int) {
    forall k, c {:trigger Holds(m', k, c)} ::
      Holds(m', k, c)
      <==> || Holds(m, k, c)
           || (k !in m && FirstGives(edges, k, value, c))
  }

  lemma LeadsSnoc(edges: seq<RoadDoc>, i: nat, k: Key)
    requires edges != []
    ensures var n := |edges| - 1; Leads(edges, i, k) <==> Leads(edges[..n], i, k) || (i == n && Leads(edges, n, k))
  {
  }

  /** The last edge for a key: the new one, or the last before it. */
  lemma LeadsLastSnoc(edges: seq<RoadDoc>, i: nat, k: Key)
    requires edges != []
    ensures var n := |edges| - 1;
            LeadsLast(edges, i, k) <==> if Leads(edges, n, k) then i == n else LeadsLast(edges[..n], i, k)
  {
    var n := |edges| - 1;
    LeadsSnoc(edges, i, k);
    forall j: nat ensures Leads(edges, j, k) <==> Leads(edges[..n], j, k) || (j == n && Leads(edges, n, k)) {
      LeadsSnoc(edges, j, k);
    }
  }

  /** The first edge for a key: the first before the new one, or the new one. */
  lemma LeadsFirstSnoc(edges: seq<RoadDoc>, i: nat, k: Key)
    requires edges != []
    ensures var n := |edges| - 1;
            LeadsFirst(edges, i, k)
            <==> LeadsFirst(edges[..n], i, k) || (i == n && Leads(edges, n, k) && !Listed(edges[..n], k))
  {
    var n := |edges| - 1;
    forall j: nat ensures Leads(edges, j, k) <==> Leads(edges[..n], j, k) || (j == n && Leads(edges, n, k)) {
      LeadsSnoc(edges, j, k);
    }
  }

  lemma ListedSnoc(edges: seq<RoadDoc>, k: Key)
    requires edges != []
    ensures var n := |edges| - 1; Listed(edges, k) <==> Listed(edges[..n], k) || Leads(edges, n, k)
  {
    var n := |edges| - 1;
    if i: nat :| Leads(edges, i, k) { LeadsSnoc(edges, i, k); }
    if i: nat :| Leads(edges[..n], i, k) { LeadsSnoc(edges, i, k); }
  }

  /** A listed key has a first and a last edge. */
  lemma {:induction false} FirstAndLast(edges: seq<RoadDoc>, k: Key)
    ensures Listed(edges, k) <==> exists i: nat :: LeadsFirst(edges, i, k)
    ensures Listed(edges, k) <==> exists i: nat :: LeadsLast(edges, i, k)
  {
    if edges != [] {
      var n := |edges| - 1;
      FirstAndLast(edges[..n], k);
      ListedSnoc(edges, k);
      LeadsFirstSnoc(edges, n, k);
      LeadsLastSnoc(edges, n, k);
      if i: nat :| LeadsFirst(edges[..n], i, k) { LeadsFirstSnoc(edges, i, k); }
      if i: nat :| LeadsLast(edges[..n], i, k) { LeadsLastSnoc(edges, i, k); }
    }
  }

  lemma LastGivesSnoc(edges: seq<RoadDoc>, k: Key, value: RoadDoc -> int, c: int)
    requires edges != []
    ensures var n := |edges| - 1;
            LastGives(edges, k, value, c)
            <==> if Leads(edges, n, k) then value(edges[n]) == c else LastGives(edges[..n], k, value, c)
  {
    var n := |edges| - 1;
    LeadsLastSnoc(edges, n, k);
    if i: nat :| LeadsLast(edges, i, k) && value(edges[i]) == c { LeadsLastSnoc(edges, i, k); }
    if i: nat :| LeadsLast(edges[..n], i, k) && value(edges[..n][i]) == c { LeadsLastSnoc(edges, i, k); }
  }

  lemma FirstGivesSnoc(edges: seq<RoadDoc>, k: Key, value: RoadDoc -> int, c: int)
    requires edges != []
    ensures var n := |edges| - 1;
            FirstGives(edges, k, value, c)
            <==> || FirstGives(edges[..n], k, value, c)
                 || (Leads(edges, n, k) && !Listed(edges[..n], k) && value(edges[n]) == c)
  {
    var n := |edges| - 1;
    LeadsFirstSnoc(edges, n, k);
    if i: nat :| LeadsFirst(edges, i, k) && value(edges[i]) == c { LeadsFirstSnoc(edges, i, k); }
    if i: nat :| LeadsFirst(edges[..n], i, k) && value(edges[..n][i]) == c { LeadsFirstSnoc(edges, i, k); }
  }

  /** The command of an edge carries the edge's value. */
  ghost predicate SameValue(f: Seed -> int, value: RoadDoc -> int) {
    forall e {:trigger SeedOf(e)} :: f(SeedOf(e)) == value(e)
  }

  /** One more edge with both ends sets its key, one without does nothing. */
  lemma SetAllSnoc(m: map<Key, int>, edges: seq<RoadDoc>, f: Seed -> int)
    requires edges != []
    ensures var n := |edges| - 1;
            var before := SetAll(m, Seeds(edges[..n]), f);
            SetAll(m, Seeds(edges), f)
            == if HasEnds(edges[n]) then before[SeedOf(edges[n]).key := f(SeedOf(edges[n]))] else before
  {
    var n := |edges| - 1;
    assert HasEnds(edges[n]) ==> Seeds(edges)[..|Seeds(edges)| - 1] == Seeds(edges[..n]);
  }

  lemma SetMissingSnoc(m: map<Key, int>, edges: seq<RoadDoc>, f: Seed -> int)
    requires edges != []
    ensures var n := |edges| - 1;
            var before := SetMissing(m, Seeds(edges[..n]), f);
            SetMissing(m, Seeds(edges), f)
            == if HasEnds(edges[n]) && SeedOf(edges[n]).key !in before
               then before[SeedOf(edges[n]).key := f(SeedOf(edges[n]))] else before
  {
    var n := |edges| - 1;
    assert HasEnds(edges[n]) ==> Seeds(edges)[..|Seeds(edges)| - 1] == Seeds(edges[..n]);
  }

  /** What a key has after the commands of all edges. */
  lemma {:induction false} SetAllEdges(m: map<Key, int>, edges: seq<RoadDoc>, f: Seed -> int, value: RoadDoc -> int,
      k: Key, c: int)
    requires SameValue(f, value)
    ensures Holds(SetAll(m, Seeds(edges), f), k, c)
            <==> LastGives(edges, k, value, c) || (!Listed(edges, k) && Holds(m, k, c))
  {
    if edges != [] {
      var n := |edges| - 1;
      SetAllEdges(m, edges[..n], f, value, k, c);
      SetAllSnoc(m, edges, f);
      ListedSnoc(edges, k);
      LastGivesSnoc(edges, k, value, c);
      assert f(SeedOf(edges[n])) == value(edges[n]);
    }
  }

  lemma {:induction false} SetMissingListed(m: map<Key, int>, edges: seq<RoadDoc>, f: Seed -> int, k: Key)
    ensures k in SetMissing(m, Seeds(edges), f) <==> k in m || Listed(edges, k)
  {
    if edges != [] {
      SetMissingListed(m, edges[..|edges| - 1], f, k);
      SetMissingSnoc(m, edges, f);
      ListedSnoc(edges, k);
    }
  }

  lemma {:induction false} SetMissingEdges(m: map<Key, int>, edges: seq<RoadDoc>, f: Seed -> int, value: RoadDoc -> int,
      k: Key, c: int)
    requires SameValue(f, value)
    ensures Holds(SetMissing(m, Seeds(edges), f), k, c)
            <==> Holds(m, k, c) || (k !in m && FirstGives(edges, k, value, c))
  {
    if edges != [] {
      var n := |edges| - 1;
      SetMissingEdges(m, edges[..n], f, value, k, c);
      SetMissingListed(m, edges[..n], f, k);
      SetMissingSnoc(m, edges, f);
      ListedSnoc(edges, k);
      FirstGivesSnoc(edges, k, value, c);
      assert f(SeedOf(edges[n])) == value(edges[n]);
    }
  }

  lemma EdgesOverwrite(cap: map<Key, int>, cur: map<Key, int>, edges: seq<RoadDoc>)
    ensures Overwritten(cap, SetAll(cap, Seeds(edges), Capacity), edges, CapacityOf)
    ensures Overwritten(cur, SetAll(cur, Seeds(edges), Zero), edges, NothingOf)
  {
    forall k, c
      ensures Holds(SetAll(cap, Seeds(edges), Capacity), k, c)
              <==> || LastGives(edges, k, CapacityOf, c)
                   || (!Listed(edges, k) && Holds(cap, k, c))
    {
      SetAllEdges(cap, edges, Capacity, CapacityOf, k, c);
    }
    forall k, c
      ensures Holds(SetAll(cur, Seeds(edges), Zero), k, c)
              <==> || LastGives(edges, k, NothingOf, c)
                   || (!Listed(edges, k) && Holds(cur, k, c))
    {
      SetAllEdges(cur, edges, Zero, NothingOf, k, c);
    }
  }

  lemma EdgesFillIn(cap: map<Key, int>, cur: map<Key, int>, edges: seq<RoadDoc>)
    ensures FilledIn(cap, SetMissing(cap, Seeds(edges), Capacity), edges, CapacityOf)
    ensures FilledIn(cur, SetMissing(cur, Seeds(edges), Zero), edges, NothingOf)
  {
    forall k, c
      ensures Holds(SetMissing(cap, Seeds(edges), Capacity), k, c)
              <==> || Holds(cap, k, c)
                   || (k !in cap && FirstGives(edges, k, CapacityOf, c))
    {
      SetMissingEdges(cap, edges, Capacity, CapacityOf, k, c);
    }
    forall k, c
      ensures Holds(SetMissing(cur, Seeds(edges), Zero), k, c)
              <==> || Holds(cur, k, c)
                   || (k !in cur && FirstGives(edges, k, NothingOf, c))
    {
      SetMissingEdges(cur, edges, Zero, NothingOf, k, c);
    }
  }

  lemma ResetAt(cur: map<Key, int>, reset: map<Key, int>, edges: seq<RoadDoc>, k: Key)
    requires Overwritten(cur, reset, edges, NothingOf)
    ensures At(reset, k) == if Listed(edges, k) then 0 else At(cur, k)
  {
    FirstAndLast(edges, k);
    if Listed(edges, k) {
      assert Holds(reset, k, 0);
    } else {
      assert k in cur ==> Holds(reset, k, cur[k]);
      assert k in reset ==> Holds(reset, k, reset[k]);
    }
  }

  // ---------------------------------------------------------------- occupancy recorded in bookings

  /** How often `k` occurs among the usable segments. */
  function Uses(segments: seq<Segment>, k: Key): nat {
    multiset(KeysOf(MessageSegments(segments)))[k]
  }

  /** How much a booking record counts for `k` in `region`. */
  function Weight(b: Booking, region: string, k: Key): nat {
    if b.region == region && Active(b) then Uses(b.segments, k) else 0
  }

  function Occupancy(docs: seq<Booking>, region: string, k: Key): nat {
    if docs == [] then 0 else Occupancy(docs[..|docs| - 1], region, k) + Weight(docs[|docs| - 1], region, k)
  }

  /** Where the usable segments with key `k` stand in a booking. */
  ghost function UsesAt(segments: seq<Segment>, k: Key): set<nat> {
    set j: nat | j < |segments| && UseAt(segments, j, k)
  }

  predicate UseAt(segments: seq<Segment>, j: nat, k: Key) {
    && j < |segments| && segments[j].from != "" && segments[j].to != ""
    && k == segments[j].from + ":" + segments[j].to
  }

  lemma MessageSegmentsSnoc(segments: seq<Segment>, last: Segment)
    ensures MessageSegments(segments + [last])
            == MessageSegments(segments) + if last.from != "" && last.to != "" then [last] else []
  {
    if segments == [] {
      assert [] + [last] == [last] && [last][1..] == [];
    } else {
      assert (segments + [last])[1..] == segments[1..] + [last];
      MessageSegmentsSnoc(segments[1..], last);
    }
  }

  lemma UsesAtSnoc(segments: seq<Segment>, last: Segment, k: Key)
    ensures var n, more := |segments|, segments + [last];
            |UsesAt(more, k)| == |UsesAt(segments, k)| + if UseAt(more, n, k) then 1 else 0
  {
    var n, more, before := |segments|, segments + [last], UsesAt(segments, k);
    forall j: nat | j < n ensures UseAt(more, j, k) <==> UseAt(segments, j, k) {}
    assert UsesAt(more, k) == if UseAt(more, n, k) then before + {n} else before;
  }

  lemma UsesSnoc(segments: seq<Segment>, last: Segment, k: Key)
    ensures Uses(segments + [last], k)
            == Uses(segments, k) + if last.from != "" && last.to != "" && KeyOf(last) == k then 1 else 0
  {
    var before := MessageSegments(segments);
    MessageSegmentsSnoc(segments, last);
    if last.from != "" && last.to != "" {
      assert KeysOf(before + [last]) == KeysOf(before) + [KeyOf(last)];
    } else {
      assert MessageSegments(segments + [last]) == before;
    }
  }

  lemma {:induction false} UsesCounted(segments: seq<Segment>, k: Key)
    ensures Uses(segments, k) == |UsesAt(segments, k)|
  {
    if segments == [] {
      assert UsesAt(segments, k) == {};
    } else {
      var n := |segments| - 1;
      UsesCounted(segments[..n], k);
      assert segments == segments[..n] + [segments[n]];
      UsesAtSnoc(segments[..n], segments[n], k);
      UsesSnoc(segments[..n], segments[n], k);
    }
  }

  /** The places in the collection that use `k`: a segment of an approved or pending booking of the
      region. */
  ghost function Occupants(docs: seq<Booking>, region: string, k: Key): set<(nat, nat)> {
    set i: nat, j: nat | i < |docs| && Occupies(docs[i], region) && j in UsesAt(docs[i].segments, k) :: (i, j)
  }

  predicate Occupies(b: Booking, region: string) {
    b.region == region && !b.status.Refused? && !b.status.Cancelled? && !b.status.Flagged?
  }

  lemma {:induction false} Tagged(i: nat, js: set<nat>)
    ensures |set j: nat | j in js :: (i, j)| == |js|
  {
    var pairs := set j: nat | j in js :: (i, j);
    if js == {} {
      assert pairs == {};
    } else {
      var j :| j in js;
      Tagged(i, js - {j});
      assert pairs == (set x: nat | x in js - {j} :: (i, x)) + {(i, j)};
    }
  }

  lemma OccupantsHas(docs: seq<Booking>, region: string, k: Key, p: (nat, nat))
    ensures p in Occupants(docs, region, k)
            <==> p.0 < |docs| && Occupies(docs[p.0], region) && p.1 in UsesAt(docs[p.0].segments, k)
  {
    assert p == (p.0, p.1);
  }

  lemma OccupantsSnoc(docs: seq<Booking>, last: Booking, region: string, k: Key)
    ensures |Occupants(docs + [last], region, k)|
            == |Occupants(docs, region, k)| + if Occupies(last, region) then |UsesAt(last.segments, k)| else 0
  {
    var n, more, uses := |docs|, docs + [last], UsesAt(last.segments, k);
    var before, added := Occupants(docs, region, k), set j: nat | j in uses :: (n, j);
    Tagged(n, uses);
    forall p: (nat, nat)
      ensures p in Occupants(more, region, k) <==> p in before || (Occupies(last, region) && p in added)
    {
      OccupantsHas(more, region, k, p);
      OccupantsHas(docs, region, k, p);
      assert p.0 < n ==> more[p.0] == docs[p.0];
      assert p in added <==> p.0 == n && p.1 in uses;
    }
    forall p | p in before ensures p !in added { OccupantsHas(docs, region, k, p); }
    if Occupies(last, region) {
      assert Occupants(more, region, k) == before + added;
      assert before !! added;
    } else {
      assert Occupants(more, region, k) == before;
    }
  }

  /** The occupancy is the number of these places. */
  lemma {:induction false} OccupancyCounted(docs: seq<Booking>, region: string, k: Key)
    ensures Occupancy(docs, region, k) == |Occupants(docs, region, k)|
  {
    if docs == [] {
      assert Occupants(docs, region, k) == {};
    } else {
      var n := |docs| - 1;
      OccupancyCounted(docs[..n], region, k);
      UsesCounted(docs[n].segments, k);
      OccupantsSnoc(docs[..n], docs[n], region, k);
      assert docs == docs[..n] + [docs[n]];
    }
  }

  lemma {:induction false} OccupancyConcat(xs: seq<Booking>, ys: seq<Booking>, region: string, k: Key)
    ensures Occupancy(xs + ys, region, k) == Occupancy(xs, region, k) + Occupancy(ys, region, k)
  {
    if ys == [] {
      assert xs + ys == xs;
    } else {
      assert (xs + ys)[..|xs + ys| - 1] == xs + ys[..|ys| - 1];
      OccupancyConcat(xs, ys[..|ys| - 1], region, k);
    }
  }

  lemma OccupancyWithout(docs: seq<Booking>, i: nat, region: string, k: Key)
    requires i < |docs|
    ensures Occupancy(docs, region, k) == Occupancy(docs[..i] + docs[i + 1..], region, k) + Weight(docs[i], region, k)
  {
    assert docs == docs[..i + 1] + docs[i + 1..];
    assert docs[..i + 1][..i] == docs[..i];
    OccupancyConcat(docs[..i + 1], docs[i + 1..], region, k);
    OccupancyConcat(docs[..i], docs[i + 1..], region, k);
  }

  lemma OccurrenceOf(docs: seq<Booking>, b: Booking) returns (i: nat)
    requires b in multiset(docs)
    ensures i < |docs| && docs[i] == b
  {
    i :| 0 <= i < |docs| && docs[i] == b;
  }

  /** Occupancy depends only on which documents there are, not on how they are spread. */
  lemma {:induction false} OccupancyByMultiset(xs: seq<Booking>, ys: seq<Booking>, region: string, k: Key)
    requires multiset(xs) == multiset(ys)
    ensures Occupancy(xs, region, k) == Occupancy(ys, region, k)
    decreases |xs|
  {
    if xs == [] {
      assert |multiset(ys)| == 0;
    } else {
      var n := |xs| - 1;
      assert xs[n] in multiset(xs);
      var i := OccurrenceOf(ys, xs[n]);
      var fewer, others := xs[..n] + xs[n + 1..], ys[..i] + ys[i + 1..];
      WithoutOne(xs, n);
      WithoutOne(ys, i);
      SameRest(multiset(fewer), multiset(others), xs[n]);
      OccupancyByMultiset(fewer, others, region, k);
      OccupancyWithout(xs, n, region, k);
      OccupancyWithout(ys, i, region, k);
    }
  }

  // ---------------------------------------------------------------- the scripts

  /** `_seed_redis_capacity`: pipelined SET NX, flushed every 500 segments and at the end. */
  method SeedCapacity(redis: RegionRedis, edges: seq<RoadDoc>)
    modifies redis`cap, redis`cur
    ensures redis.cap == SetMissing(old(redis.cap), Seeds(edges), Capacity)
    ensures redis.cur == SetMissing(old(redis.cur), Seeds(edges), Zero)
    ensures FilledIn(old(redis.cap), redis.cap, edges, CapacityOf)
    ensures FilledIn(old(redis.cur), redis.cur, edges, NothingOf)
  {
    EdgesFillIn(redis.cap, redis.cur, edges);
    var pipe: seq<Seed> := [];
    ghost var done: seq<Seed> := [];
    var seeded := 0;
    for i := 0 to |edges|
      invariant done + pipe == Seeds(edges[..i])
      invariant redis.cap == SetMissing(old(redis.cap), done, Capacity)
      invariant redis.cur == SetMissing(old(redis.cur), done, Zero)
    {
      var e := edges[i];
      assert edges[..i + 1][..i] == edges[..i];
      if e.from == "" || e.to == "" {
        continue;
      }
      pipe := pipe + [Seed(KeyOf(Segment(e.from, e.to)), RoadCapacity(e.roadType))];
      seeded := seeded + 1;
      if seeded % PIPELINE_BATCH == 0 {
        SetMissingConcat(old(redis.cap), done, pipe, Capacity);
        SetMissingConcat(old(redis.cur), done, pipe, Zero);
        ExecuteNx(redis, pipe);
        done, pipe := done + pipe, [];
      }
    }
    assert edges[..|edges|] == edges;
    SetMissingConcat(old(redis.cap), done, pipe, Capacity);
    SetMissingConcat(old(redis.cur), done, pipe, Zero);
    ExecuteNx(redis, pipe);
  }

  method ExecuteNx(redis: RegionRedis, pipe: seq<Seed>)
    modifies redis`cap, redis`cur
    ensures redis.cap == SetMissing(old(redis.cap), pipe, Capacity)
    ensures redis.cur == SetMissing(old(redis.cur), pipe, Zero)
  {
    for i := 0 to |pipe|
      invariant redis.cap == SetMissing(old(redis.cap), pipe[..i], Capacity)
      invariant redis.cur == SetMissing(old(redis.cur), pipe[..i], Zero)
    {
      assert pipe[..i + 1][..i] == pipe[..i];
      if pipe[i].key !in redis.cap { redis.cap := redis.cap[pipe[i].key := pipe[i].capacity]; }
      if pipe[i].key !in redis.cur { redis.cur := redis.cur[pipe[i].key := 0]; }
    }
    assert pipe[..|pipe|] == pipe;
  }

  method Execute(redis: RegionRedis, pipe: seq<Seed>)
    modifies redis`cap, redis`cur
    ensures redis.cap == SetAll(old(redis.cap), pipe, Capacity)
    ensures redis.cur == SetAll(old(redis.cur), pipe, Zero)
  {
    for i := 0 to |pipe|
      invariant redis.cap == SetAll(old(redis.cap), pipe[..i], Capacity)
      invariant redis.cur == SetAll(old(redis.cur), pipe[..i], Zero)
    {
      assert pipe[..i + 1][..i] == pipe[..i];
      redis.cap := redis.cap[pipe[i].key := pipe[i].capacity];
      redis.cur := redis.cur[pipe[i].key := 0];
    }
    assert pipe[..|pipe|] == pipe;
  }

  /** Step 1 of the rebuild: capacities overwritten, occupancy reset. */
  method RewriteCapacity(redis: RegionRedis, edges: seq<RoadDoc>)
    modifies redis`cap, redis`cur
    ensures redis.cap == SetAll(old(redis.cap), Seeds(edges), Capacity)
    ensures redis.cur == SetAll(old(redis.cur), Seeds(edges), Zero)
    ensures Overwritten(old(redis.cap), redis.cap, edges, CapacityOf)
    ensures Overwritten(old(redis.cur), redis.cur, edges, NothingOf)
  {
    EdgesOverwrite(redis.cap, redis.cur, edges);
    var pipe: seq<Seed> := [];
    ghost var done: seq<Seed> := [];
    var seeded := 0;
    for i := 0 to |edges|
      invariant done + pipe == Seeds(edges[..i])
      invariant redis.cap == SetAll(old(redis.cap), done, Capacity)
      invariant redis.cur == SetAll(old(redis.cur), done, Zero)
    {
      var e := edges[i];
      assert edges[..i + 1][..i] == edges[..i];
      if e.from == "" || e.to == "" {
        continue;
      }
      pipe := pipe + [Seed(KeyOf(Segment(e.from, e.to)), RoadCapacity(e.roadType))];
      seeded := seeded + 1;
      if seeded % PIPELINE_BATCH == 0 {
        SetAllConcat(old(redis.cap), done, pipe, Capacity);
        SetAllConcat(old(redis.cur), done, pipe, Zero);
        Execute(redis, pipe);
        done, pipe := done + pipe, [];
      }
    }
    assert edges[..|edges|] == edges;
    SetAllConcat(old(redis.cap), done, pipe, Capacity);
    SetAllConcat(old(redis.cur), done, pipe, Zero);
    Execute(redis, pipe);
  }

  lemma CountedFirst(cur: map<Key, int>, segments: seq<Segment>, k: Key)
    requires segments != []
    ensures var s := segments[0];
            var next := if s.from != "" && s.to != "" then cur[KeyOf(s) := At(cur, KeyOf(s)) + 1] else cur;
            At(next, k) + Uses(segments[1..], k) == At(cur, k) + Uses(segments, k)
  {
    var s, rest := segments[0], MessageSegments(segments[1..]);
    if s.from != "" && s.to != "" { assert KeysOf([s] + rest) == [KeyOf(s)] + KeysOf(rest); }
  }

  /** The increments for one booking: every usable segment once. */
  method CountBooking(redis: RegionRedis, segments: seq<Segment>)
    modifies redis`cur
    ensures forall k :: At(redis.cur, k) == At(old(redis.cur), k) + Uses(segments, k)
  {
    var i := 0;
    assert segments[0..] == segments;
    while i < |segments|
      invariant 0 <= i <= |segments|
      invariant forall k :: At(redis.cur, k) + Uses(segments[i..], k) == At(old(redis.cur), k) + Uses(segments, k)
    {
      var s := segments[i];
      ghost var before := redis.cur;
      if s.from != "" && s.to != "" {
        redis.cur := redis.cur[KeyOf(s) := At(redis.cur, KeyOf(s)) + 1];
      }
      forall k ensures At(redis.cur, k) + Uses(segments[i + 1..], k) == At(old(redis.cur), k) + Uses(segments, k) {
        CountedFirst(before, segments[i..], k);
        assert segments[i..][1..] == segments[i + 1..];
      }
      i := i + 1;
    }
  }

  /** Step 2: every approved or pending booking of the region, shard after shard. */
  method CountBookings(redis: RegionRedis, shards: seq<seq<Booking>>, region: string)
    modifies redis`cur
    ensures forall k :: At(redis.cur, k) == At(old(redis.cur), k) + Occupancy(Concat(shards), region, k)
  {
    for i := 0 to |shards|
      invariant forall k :: At(redis.cur, k) == At(old(redis.cur), k) + Occupancy(Concat(shards[..i]), region, k)
    {
      ConcatSnoc(shards, i);
      ghost var start := redis.cur;
      for j := 0 to |shards[i]|
        invariant forall k :: At(redis.cur, k) == At(start, k) + Occupancy(shards[i][..j], region, k)
      {
        var b := shards[i][j];
        assert shards[i][..j + 1][..j] == shards[i][..j];
        if b.region == region && Active(b) {
          CountBooking(redis, b.segments);
        }
      }
      assert shards[i][..|shards[i]|] == shards[i];
      forall k ensures At(redis.cur, k) == At(old(redis.cur), k) + Occupancy(Concat(shards[..i + 1]), region, k) {
        OccupancyConcat(Concat(shards[..i]), shards[i], region, k);
      }
    }
    assert shards[..|shards|] == shards;
  }

  /** `main` of rebuild_redis: whatever Redis held, every seeded segment ends with exactly the
      occupancy its approved and pending bookings give; a segment no edge mentions keeps its old
      counter underneath. However the bookings are sharded, the result is the same. */
  method RebuildRedis(redis: RegionRedis, edges: seq<RoadDoc>, shards: seq<seq<Booking>>, region: string,
      ghost all: seq<Booking>)
    requires multiset(Concat(shards)) == multiset(all)
    modifies redis`cap, redis`cur
    ensures Overwritten(old(redis.cap), redis.cap, edges, CapacityOf)
    ensures forall k :: At(redis.cur, k) ==
              (if Listed(edges, k) then 0 else At(old(redis.cur), k)) + Occupancy(all, region, k)
    ensures forall k :: Occupancy(all, region, k) == |Occupants(all, region, k)|
  {
    RewriteCapacity(redis, edges);
    ghost var reset := redis.cur;
    CountBookings(redis, shards, region);
    forall k
      ensures At(redis.cur, k) == (if Listed(edges, k) then 0 else At(old(redis.cur), k)) + Occupancy(all, region, k)
    {
      ResetAt(old(redis.cur), reset, edges, k);
      OccupancyByMultiset(Concat(shards), all, region, k);
    }
    forall k ensures Occupancy(all, region, k) == |Occupants(all, region, k)| { OccupancyCounted(all, region, k); }
  }
}
