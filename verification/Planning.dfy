/** POST /plan and the fan-out of POST /sagas (services/journey-management/main.py). */
module Planning {
  import opened Options
  import opened Lex
  import opened Walks
  import opened RegionalRedis
  import opened Overlay

  datatype Leg = Leg(region: Region, origin: Node, destination: Node, segments: seq<Segment>)

  type LegsByRegion = map<Region, seq<Segment>>

  datatype Plan = Plan(regions: seq<Region>, legs: seq<Leg>, segments: seq<Segment>, byRegion: LegsByRegion)

  datatype PlanReply = NoCorridor | LegFailed(region: Region) | Planned(plan: Plan)

  /** What a regional route-service answers for one leg: `None` raises, an origin already at the
      destination gives an empty leg. */
  type RouteCall = (Region, Node, Node) -> Option<seq<Segment>>

  /** The segments of the regions, concatenated in the given order. */
  ghost function Concatenated(regions: seq<Region>, byRegion: map<Region, seq<Segment>>): seq<Segment>
    requires forall i | 0 <= i < |regions| :: regions[i] in byRegion
  {
    if regions == [] then [] else
      Concatenated(regions[..|regions| - 1], byRegion) + byRegion[regions[|regions| - 1]]
  }

  lemma {:induction false} ConcatenatedFrame(regions: seq<Region>, byRegion: map<Region, seq<Segment>>, r: Region,
      s: seq<Segment>)
    requires r !in regions && forall i | 0 <= i < |regions| :: regions[i] in byRegion
    ensures Concatenated(regions, byRegion[r := s]) == Concatenated(regions, byRegion)
  {
    if regions == [] {
    } else {
      ConcatenatedFrame(regions[..|regions| - 1], byRegion, r, s);
    }
  }

  ghost predicate Answered(route: RouteCall, regions: seq<Region>, legs: seq<Leg>, i: nat) {
    && i < |legs| && i < |regions| && legs[i].region == regions[i]
    && route(legs[i].region, legs[i].origin, legs[i].destination) == Some(legs[i].segments)
  }

  /** Leg `i` ends at the exit gateway towards the next region. */
  ghost predicate LeavesBy(o: Corridors, regions: seq<Region>, legs: seq<Leg>, i: nat) {
    i < |legs| && Joined(o, regions, i) && legs[i].destination == o[regions[i]][regions[i + 1]].exit
  }

  /** Leg `i` starts at the entry gateway from the previous region. */
  ghost predicate EntersBy(o: Corridors, regions: seq<Region>, legs: seq<Leg>, i: nat) {
    0 < i < |legs| && Joined(o, regions, i - 1) && legs[i].origin == o[regions[i - 1]][regions[i]].entry
  }

  /** The legs are what the regions along the path answered for consecutive stretches that meet
      at the border gateways. */
  ghost predicate LegsOk(o: Corridors, route: RouteCall, origin: Node, regions: seq<Region>, legs: seq<Leg>) {
    && |legs| <= |regions|
    && (forall i: nat | i < |legs| :: Answered(route, regions, legs, i))
    && (legs != [] ==> legs[0].origin == origin)
    && (forall i: nat | i < |legs| && i + 1 < |regions| :: LeavesBy(o, regions, legs, i))
    && (forall i: nat | 0 < i < |legs| :: EntersBy(o, regions, legs, i))
  }

  ghost predicate ByRegionOk(regions: seq<Region>, legs: seq<Leg>, byRegion: map<Region, seq<Segment>>) {
    && |legs| <= |regions|
    && byRegion.Keys == (set i | 0 <= i < |legs| :: regions[i])
    && forall i | 0 <= i < |legs| :: regions[i] in byRegion && byRegion[regions[i]] == legs[i].segments
  }

  ghost predicate WellPlanned(o: Corridors, route: RouteCall, origin: Node, destination: Node,
                              originRegion: Region, destRegion: Region, plan: Plan) {
    && CheapestTrip(o, originRegion, destRegion, plan.regions) && plan.regions != []
    && |plan.legs| == |plan.regions|
    && LegsOk(o, route, origin, plan.regions, plan.legs)
    && plan.legs[|plan.legs| - 1].destination == destination
    && ByRegionOk(plan.regions, plan.legs, plan.byRegion)
    && plan.segments == Concatenated(plan.regions, plan.byRegion)
  }

  lemma ByRegionExtended(regions: seq<Region>, legs: seq<Leg>, byRegion: map<Region, seq<Segment>>, leg: Leg)
    requires ByRegionOk(regions, legs, byRegion) && |legs| < |regions| && Distinct(regions)
    ensures ByRegionOk(regions, legs + [leg], byRegion[regions[|legs|] := leg.segments])
  {
    var i := |legs|;
    var keys := set j | 0 <= j < |legs + [leg]| :: regions[j];
    forall r ensures r in keys <==> r in byRegion.Keys + {regions[i]} {
      if r in keys {
        var j :| 0 <= j < |legs + [leg]| && regions[j] == r;
      }
      if r in byRegion.Keys {
        var j :| 0 <= j < |legs| && regions[j] == r;
        assert 0 <= j < |legs + [leg]|;
      }
      assert 0 <= i < |legs + [leg]|;
    }
    assert byRegion[regions[i] := leg.segments].Keys == keys;
  }

  ghost predicate EntersFrom(o: Corridors, regions: seq<Region>, i: nat, start: Node) {
    0 < i < |regions| && Joined(o, regions, i - 1) && start == o[regions[i - 1]][regions[i]].entry
  }

  ghost predicate ExitsTo(o: Corridors, regions: seq<Region>, i: nat, end: Node) {
    i + 1 < |regions| && Joined(o, regions, i) && end == o[regions[i]][regions[i + 1]].exit
  }

  lemma LegsExtended(o: Corridors, route: RouteCall, origin: Node, regions: seq<Region>, legs: seq<Leg>, leg: Leg)
    requires LegsOk(o, route, origin, regions, legs) && |legs| < |regions|
    requires leg.region == regions[|legs|] && route(leg.region, leg.origin, leg.destination) == Some(leg.segments)
    requires legs == [] ==> leg.origin == origin
    requires legs != [] ==> EntersFrom(o, regions, |legs|, leg.origin)
    requires |legs| + 1 < |regions| ==> ExitsTo(o, regions, |legs|, leg.destination)
    ensures LegsOk(o, route, origin, regions, legs + [leg])
  {
    var more := legs + [leg];
    forall i: nat | i < |more| ensures Answered(route, regions, more, i) {
      assert i < |legs| ==> Answered(route, regions, legs, i);
    }
    forall i: nat | i < |more| && i + 1 < |regions| ensures LeavesBy(o, regions, more, i) {
      assert i < |legs| ==> LeavesBy(o, regions, legs, i);
    }
    forall i: nat | 0 < i < |more| ensures EntersBy(o, regions, more, i) {
      assert i < |legs| ==> EntersBy(o, regions, legs, i);
    }
  }

  datatype Stretch = Failed(region: Region) | Built(legs: seq<Leg>, segments: seq<Segment>, byRegion: LegsByRegion)

  ghost predicate BuiltUpTo(o: Corridors, route: RouteCall, origin: Node, regions: seq<Region>, legs: seq<Leg>,
                            segments: seq<Segment>, byRegion: map<Region, seq<Segment>>) {
    && LegsOk(o, route, origin, regions, legs) && ByRegionOk(regions, legs, byRegion)
    && segments == Concatenated(regions[..|legs|], byRegion)
  }

  lemma BuiltMore(o: Corridors, route: RouteCall, origin: Node, regions: seq<Region>, legs: seq<Leg>,
                  segments: seq<Segment>, byRegion: map<Region, seq<Segment>>, leg: Leg)
    requires BuiltUpTo(o, route, origin, regions, legs, segments, byRegion) && |legs| < |regions| && Distinct(regions)
    requires LegsOk(o, route, origin, regions, legs + [leg]) && leg.region == regions[|legs|]
    ensures BuiltUpTo(o, route, origin, regions, legs + [leg], segments + leg.segments,
        byRegion[leg.region := leg.segments])
  {
    var i := |legs|;
    ByRegionExtended(regions, legs, byRegion, leg);
    assert leg.region !in regions[..i];
    ConcatenatedFrame(regions[..i], byRegion, leg.region, leg.segments);
    assert regions[..i + 1][..i] == regions[..i];
  }

  /** Where leg `i` starts: at the entry gateway from the previous region. */
  function StartOf(o: Corridors, regions: seq<Region>, origin: Node, i: nat): Node
    requires IsTrip(o, regions) && i < |regions|
  {
    if i == 0 then origin else assert Joined(o, regions, i - 1); o[regions[i - 1]][regions[i]].entry
  }

  /** Where leg `i` ends: at the exit gateway towards the next region. */
  function EndOf(o: Corridors, regions: seq<Region>, destination: Node, i: nat): Node
    requires IsTrip(o, regions) && i < |regions|
  {
    if i + 1 < |regions| then assert Joined(o, regions, i); o[regions[i]][regions[i + 1]].exit else destination
  }

  /** The region of leg `i` has a route for it. */
  predicate LegRouted(o: Corridors, route: RouteCall, regions: seq<Region>, origin: Node, destination: Node, i: nat)
    requires IsTrip(o, regions) && i < |regions|
  {
    route(regions[i], StartOf(o, regions, origin, i), EndOf(o, regions, destination, i)).Some?
  }

  /** Leg `i` is the first that its region cannot route. */
  ghost predicate FirstUnrouted(o: Corridors, route: RouteCall, regions: seq<Region>, origin: Node, destination: Node,
      i: nat) {
    && IsTrip(o, regions) && i < |regions|
    && !LegRouted(o, route, regions, origin, destination, i)
    && forall j: nat | j < i :: LegRouted(o, route, regions, origin, destination, j)
  }

  /** The leg loop of `plan_journey` along a path of regions: it succeeds exactly when every leg can
      be routed, and otherwise stops at the first that cannot. */
  method BuildLegs(o: Corridors, route: RouteCall, regions: seq<Region>, origin: Node, destination: Node)
      returns (r: Stretch)
    requires IsTrip(o, regions) && Distinct(regions)
    ensures r.Built? <==> forall i: nat | i < |regions| :: LegRouted(o, route, regions, origin, destination, i)
    ensures r.Built? ==>
              && |r.legs| == |regions| && BuiltUpTo(o, route, origin, regions, r.legs, r.segments, r.byRegion)
              && r.legs[|r.legs| - 1].destination == destination
    ensures r.Failed? ==>
              exists i: nat :: FirstUnrouted(o, route, regions, origin, destination, i) && r.region == regions[i]
  {
    var legs: seq<Leg> := [];
    var all: seq<Segment> := [];
    var byRegion: map<Region, seq<Segment>> := map[];
    var legOrigin := origin;
    var i := 0;
    while i < |regions|
      invariant |legs| == i <= |regions| && BuiltUpTo(o, route, origin, regions, legs, all, byRegion)
      invariant i < |regions| ==> legOrigin == StartOf(o, regions, origin, i)
      invariant i == |regions| ==> legs[i - 1].destination == destination
      invariant forall j: nat | j < i :: LegRouted(o, route, regions, origin, destination, j)
    {
      var region, legDestination := regions[i], destination;
      assert i + 1 < |regions| ==> Joined(o, regions, i);
      if i < |regions| - 1 {
        legDestination := o[region][regions[i + 1]].exit;
      }
      assert legDestination == EndOf(o, regions, destination, i);
      var answer := route(region, legOrigin, legDestination);
      if answer.None? {
        assert FirstUnrouted(o, route, regions, origin, destination, i);
        return Failed(region);
      }
      var leg := Leg(region, legOrigin, legDestination, answer.value);
      LegAdded(o, route, origin, regions, legs, all, byRegion, leg);
      legs, all, byRegion := legs + [leg], all + answer.value, byRegion[region := answer.value];
      if i < |regions| - 1 {
        legOrigin := o[region][regions[i + 1]].entry;
      }
      i := i + 1;
    }
    r := Built(legs, all, byRegion);
  }

  lemma LegAdded(o: Corridors, route: RouteCall, origin: Node, regions: seq<Region>, legs: seq<Leg>,
                 segments: seq<Segment>, byRegion: map<Region, seq<Segment>>, leg: Leg)
    requires IsTrip(o, regions) && Distinct(regions) && |legs| < |regions|
    requires BuiltUpTo(o, route, origin, regions, legs, segments, byRegion)
    requires leg.region == regions[|legs|] && route(leg.region, leg.origin, leg.destination) == Some(leg.segments)
    requires leg.origin == StartOf(o, regions, origin, |legs|)
    requires |legs| + 1 < |regions| ==> leg.destination == EndOf(o, regions, leg.destination, |legs|)
    ensures BuiltUpTo(o, route, origin, regions, legs + [leg], segments + leg.segments,
        byRegion[leg.region := leg.segments])
  {
    assert |legs| > 0 ==> Joined(o, regions, |legs| - 1);
    assert |legs| + 1 < |regions| ==> Joined(o, regions, |legs|);
    LegsExtended(o, route, origin, regions, legs, leg);
    BuiltMore(o, route, origin, regions, legs, segments, byRegion, leg);
  }

  /** The region's route-service cannot route its stretch of a shortest region path. */
  ghost predicate Stuck(o: Corridors, route: RouteCall, origin: Node, destination: Node, originRegion: Region,
      destRegion: Region,
                        regions: seq<Region>, i: nat, region: Region) {
    && regions != [] && CheapestTrip(o, originRegion, destRegion, regions)
    && FirstUnrouted(o, route, regions, origin, destination, i) && region == regions[i]
  }

  /** `plan_journey`: every gateway lookup is defined, no leg overwrites another in the
      per-region dictionary, and the dictionary read along the path gives back all segments. */
  method PlanJourney(o: Corridors, route: RouteCall, origin: Node, destination: Node, originRegion: Region,
      destRegion: Region)
    returns (reply: PlanReply)
    requires CostsNonNegative(o)
    ensures reply.NoCorridor? <==> forall p :: !TripFromTo(o, p, originRegion, destRegion)
    ensures reply.Planned? ==> WellPlanned(o, route, origin, destination, originRegion, destRegion, reply.plan)
    ensures reply.LegFailed? ==>
              exists regions, i ::
                Stuck(o, route, origin, destination, originRegion, destRegion, regions, i, reply.region)
  {
    var regions := OverlayShortestPath(o, originRegion, destRegion);
    if regions == [] {
      return NoCorridor;
    }
    assert TripFromTo(o, regions, originRegion, destRegion);
    var r := BuildLegs(o, route, regions, origin, destination);
    assert regions[..|regions|] == regions;
    match r {
      case Failed(region) =>
        ghost var i: nat :| FirstUnrouted(o, route, regions, origin, destination, i) && region == regions[i];
        assert Stuck(o, route, origin, destination, originRegion, destRegion, regions, i, region);
        reply := LegFailed(region);
      case Built(legs, all, byRegion) => reply := Planned(Plan(regions, legs, all, byRegion));
    }
  }

  /** How many segments come before leg `i`. */
  ghost function SegmentsBefore(legs: seq<Leg>, i: nat): nat
    requires i <= |legs|
  {
    if i == 0 then 0 else SegmentsBefore(legs, i - 1) + |legs[i - 1].segments|
  }

  lemma {:induction false} ConcatenatedPart(regions: seq<Region>, legs: seq<Leg>, byRegion: map<Region, seq<Segment>>,
      n: nat, i: nat)
    requires |legs| == |regions| && i < n <= |regions|
    requires forall j | 0 <= j < |regions| :: regions[j] in byRegion && byRegion[regions[j]] == legs[j].segments
    ensures var all, from := Concatenated(regions[..n], byRegion), SegmentsBefore(legs, i);
            && |all| == SegmentsBefore(legs, n) >= from + |legs[i].segments|
            && all[from..from + |legs[i].segments|] == legs[i].segments
  {
    var all, before := Concatenated(regions[..n], byRegion), Concatenated(regions[..n - 1], byRegion);
    assert regions[..n][..n - 1] == regions[..n - 1];
    assert all == before + legs[n - 1].segments;
    if n == 1 {
      assert before == [];
    } else {
      ConcatenatedPart(regions, legs, byRegion, n - 1, if i < n - 1 then i else n - 2);
    }
  }

  /** The segments of a plan are those of its legs in travelling order. */
  lemma LegInPlan(o: Corridors, route: RouteCall, origin: Node, destination: Node, originRegion: Region,
                  destRegion: Region, plan: Plan, i: nat)
    requires WellPlanned(o, route, origin, destination, originRegion, destRegion, plan) && i < |plan.legs|
    ensures var from := SegmentsBefore(plan.legs, i);
            && |plan.segments| == SegmentsBefore(plan.legs, |plan.legs|) >= from + |plan.legs[i].segments|
            && plan.segments[from..from + |plan.legs[i].segments|] == plan.legs[i].segments
  {
    ConcatenatedPart(plan.regions, plan.legs, plan.byRegion, |plan.regions|, i);
    assert plan.regions[..|plan.regions|] == plan.regions;
  }

  // ---------------------------------------------------------------- fan-out

  datatype SubBooking = SubBooking(region: Region, segments: seq<Segment>)

  /** `create_saga`: one sub-booking per entry of `segments_by_region`, in any order. */
  method FanOut(byRegion: map<Region, seq<Segment>>) returns (requests: seq<SubBooking>)
    ensures multiset(requests) == multiset(set r | r in byRegion :: SubBooking(r, byRegion[r]))
    ensures Distinct(requests)
  {
    requests := [];
    var todo := byRegion.Keys;
    while todo != {}
      invariant todo <= byRegion.Keys && Distinct(requests)
      invariant forall i | 0 <= i < |requests| ::
                  && requests[i].region in byRegion.Keys - todo
                  && requests[i].segments == byRegion[requests[i].region]
      invariant multiset(requests) == multiset(set r | r in byRegion && r !in todo :: SubBooking(r, byRegion[r]))
      decreases |todo|
    {
      var r :| r in todo;
      var next := SubBooking(r, byRegion[r]);
      ghost var sent := set q | q in byRegion && q !in todo :: SubBooking(q, byRegion[q]);
      assert (set q | q in byRegion && q !in todo - {r} :: SubBooking(q, byRegion[q])) == sent + {next};
      assert next !in requests;
      requests := requests + [next];
      todo := todo - {r};
    }
  }

  /** The saga of a plan sends exactly one sub-booking to each region of the plan, and that one
      carries the region's own leg. */
  lemma OneRequestPerRegion(o: Corridors, route: RouteCall, origin: Node, destination: Node, originRegion: Region,
                            destRegion: Region, plan: Plan, requests: seq<SubBooking>, i: nat)
    requires WellPlanned(o, route, origin, destination, originRegion, destRegion, plan)
    requires multiset(requests) == multiset(set r | r in plan.byRegion :: SubBooking(r, plan.byRegion[r]))
    requires i < |plan.regions|
    ensures multiset(requests)[SubBooking(plan.regions[i], plan.legs[i].segments)] == 1
    ensures forall j | 0 <= j < |requests| ::
              requests[j].region == plan.regions[i] ==> requests[j].segments == plan.legs[i].segments
    ensures |requests| == |plan.regions|
  {
    var sent := set r | r in plan.byRegion :: SubBooking(r, plan.byRegion[r]);
    var r := plan.regions[i];
    assert SubBooking(r, plan.byRegion[r]) in sent;
    forall j | 0 <= j < |requests| ensures requests[j] in sent {
      assert requests[j] in multiset(requests);
    }
    SentSize(plan.byRegion, plan.byRegion.Keys);
    assert sent == set r | r in plan.byRegion.Keys :: SubBooking(r, plan.byRegion[r]);
    DistinctSize(plan.regions);
    assert |requests| == |multiset(requests)| == |sent|;
  }

  lemma {:induction false} DistinctSize(s: seq<Region>)
    requires Distinct(s)
    ensures |set i | 0 <= i < |s| :: s[i]| == |s|
  {
    if s == [] {
    } else {
      var n := |s| - 1;
      DistinctSize(s[..n]);
      var all, less := set i | 0 <= i < |s| :: s[i], set i | 0 <= i < |s[..n]| :: s[..n][i];
      forall x ensures x in all <==> x in less + {s[n]} {
        if x in all {
          var i :| 0 <= i < |s| && s[i] == x;
          if i < n { assert s[..n][i] == x; }
        }
        if x in less {
          var i :| 0 <= i < |s[..n]| && s[..n][i] == x;
          assert s[i] == x;
        }
      }
      assert all == less + {s[n]};
    }
  }

  lemma {:induction false} SentSize(byRegion: map<Region, seq<Segment>>, keys: set<Region>)
    requires keys <= byRegion.Keys
    ensures |set r | r in keys :: SubBooking(r, byRegion[r])| == |keys|
  {
    var sent := set r | r in keys :: SubBooking(r, byRegion[r]);
    if keys == {} {
      assert sent == {};
    } else {
      var q :| q in keys;
      SentSize(byRegion, keys - {q});
      assert sent == (set r | r in keys - {q} :: SubBooking(r, byRegion[r])) + {SubBooking(q, byRegion[q])};
    }
  }
}
