/** What happens to conservation and to the agreement of counters and records outside their
    conditions: cancelling what was refused, and flagging what is booked. */
module ConservationLimits {
  import opened Options
  import opened Lex
  import opened RegionalRedis
  import opened Bookings
  import opened Rebuild
  import opened Saga
  import opened Journeys
  import opened Conservation

  ghost predicate LedgerAt(s: State, r: Region) {
    forall k {:trigger Sum(Held, s.ids, s.trips, r, k)} :: At(Counters(s.cur, r), k) == Sum(Held, s.ids, s.trips, r, k)
  }

  ghost predicate NoneCounted(cur: map<Key, int>, keys: seq<Key>) {
    forall k | k in keys :: At(cur, k) == 0
  }

  /** Cancelling a journey that `r` does not count (any more) sends `r` a release all the same: once it has
      arrived, the counters of `r` still equal its reservations exactly when none of those it
      decrements was above zero. */
  lemma CancelUncountedExact(s: State, id: Id, found: Region, r: Region)
    requires TripsOk(s) && Ledger(s) && Enabled(s, Cancel(id, found)) && r in s.trips[id].involved
    requires r !in s.trips[id].held
    ensures var s1 := Apply(s, Cancel(id, found));
            && Enabled(s1, GiveBack(id, r))
            && (LedgerAt(Apply(s1, GiveBack(id, r)), r)
                <==> NoneCounted(Counters(s.cur, r), KeysOf(Usable(s.trips[id], r))))
  {
    var s1 := Apply(s, Cancel(id, found));
    assert multiset(s.trips[id].involved)[r] > 0;
    assert Enabled(s1, GiveBack(id, r));
    var s2, keys := Apply(s1, GiveBack(id, r)), KeysOf(Usable(s.trips[id], r));
    if LedgerAt(s2, r) {
      forall k | k in keys ensures At(Counters(s.cur, r), k) == 0 { ReleaseExact(s, id, found, r, k); }
    }
    if NoneCounted(Counters(s.cur, r), keys) {
      forall k ensures At(Counters(s2.cur, r), k) == Sum(Held, s2.ids, s2.trips, r, k) {
        ReleaseExact(s, id, found, r, k);
      }
    }
  }

  /** In particular cancelling what `r` has refused. */
  lemma CancelRefusedExact(s: State, id: Id, found: Region, r: Region)
    requires Conserved(s) && Enabled(s, Cancel(id, found)) && r in s.trips[id].involved
    requires StatusOf(s.trips[id], r) == Some(Refused) && r !in s.trips[id].held
    ensures var s1 := Apply(s, Cancel(id, found));
            && Enabled(s1, GiveBack(id, r))
            && (LedgerAt(Apply(s1, GiveBack(id, r)), r)
                <==> NoneCounted(Counters(s.cur, r), KeysOf(Usable(s.trips[id], r))))
  {
    CancelUncountedExact(s, id, found, r);
  }

  /** And what was cancelled before: flagging the record lets the journey be cancelled and released a
      second time. */
  lemma FlagAndCancelExact(s: State, id: Id, r: Region)
    requires Conserved(s) && id in s.trips && r in s.trips[id].involved
    requires StatusOf(s.trips[id], r) == Some(Cancelled) && r !in s.trips[id].held
    ensures Enabled(s, Flag(id, r)) && !Enabled(s, Cancel(id, r))
    ensures var s1 := Apply(s, Flag(id, r));
            && Enabled(s1, Cancel(id, r)) && Enabled(Apply(s1, Cancel(id, r)), GiveBack(id, r))
            && (LedgerAt(Apply(Apply(s1, Cancel(id, r)), GiveBack(id, r)), r)
                <==> NoneCounted(Counters(s.cur, r), KeysOf(Usable(s.trips[id], r))))
  {
    assert DocOk(s, id, r);
    var s1 := Apply(s, Flag(id, r));
    FindUpdated(Docs(s.stores, r), id, Flagged, id);
    assert s1.trips == s.trips;
    LedgerKept(s, s1);
    CancelUncountedExact(s1, id, r, r);
  }

  lemma LedgerKept(s: State, s1: State)
    requires Ledger(s) && s1.cur == s.cur && s1.trips == s.trips && s1.ids == s.ids
    ensures Ledger(s1)
  {
    forall r, k ensures At(Counters(s1.cur, r), k) == Sum(Held, s1.ids, s1.trips, r, k) {
      assert At(Counters(s.cur, r), k) == Sum(Held, s.ids, s.trips, r, k);
    }
  }

  /** If the release of its own abort is still on its way to `r`, the journey cancelled gets two: the
      order of the first and the cancellation does not matter, and the second is again the one that
      may take away what others hold. */
  lemma CancelWhileReleasing(s: State, id: Id, found: Region, r: Region)
    requires Conserved(s) && Enabled(s, Cancel(id, found)) && r in s.trips[id].involved
    requires StatusOf(s.trips[id], r) == Some(Refused) && r in s.trips[id].held
    ensures Enabled(s, GiveBack(id, r)) && Enabled(Apply(s, GiveBack(id, r)), Cancel(id, found))
    ensures var s0, s1 := Apply(s, GiveBack(id, r)), Apply(s, Cancel(id, found));
            && Enabled(s1, GiveBack(id, r)) && Enabled(Apply(s1, GiveBack(id, r)), GiveBack(id, r))
            && (LedgerAt(Apply(Apply(s1, GiveBack(id, r)), GiveBack(id, r)), r)
                <==> NoneCounted(Counters(s0.cur, r), KeysOf(Usable(s.trips[id], r))))
  {
    assert LegOk(s.trips[id], r);
    var s0, s1 := Apply(s, GiveBack(id, r)), Apply(s, Cancel(id, found));
    StepKeeps(s, GiveBack(id, r));
    assert multiset(s.trips[id].involved)[r] > 0;
    CancelRefusedExact(s0, id, found, r);
    Commute(s, id, found, r);
  }

  lemma TripsCommute(t: Trip, r: Region)
    requires t.releases[r] == 1
    ensures CancelledTrip(Delivered(t, r)) == Delivered(CancelledTrip(t), r)
    ensures CancelledTrip(t).releases[r] > 0
  {
    assert t.releases - multiset{r} + multiset(t.involved) == t.releases + multiset(t.involved) - multiset{r};
  }

  lemma Commute(s: State, id: Id, found: Region, r: Region)
    requires Enabled(s, Cancel(id, found)) && s.trips[id].releases[r] == 1
    ensures Enabled(s, GiveBack(id, r))
    ensures var s0, s1 := Apply(s, GiveBack(id, r)), Apply(s, Cancel(id, found));
            && Enabled(s0, Cancel(id, found)) && Enabled(s1, GiveBack(id, r))
            && Apply(s0, Cancel(id, found)) == Apply(s1, GiveBack(id, r))
  {
    var t := s.trips[id];
    TripsCommute(t, r);
    var t1, t2 := Delivered(t, r), CancelledTrip(t);
    var cur := s.cur[r := Released(Counters(s.cur, r), KeysOf(Usable(t, r)))];
    var stores := CancelIn(s.stores, id, t.involved);
    assert Apply(s, GiveBack(id, r)) == State(s.ids, s.trips[id := t1], cur, s.stores);
    assert Apply(s, Cancel(id, found)) == State(s.ids, s.trips[id := t2], s.cur, stores);
    assert s.trips[id := t1][id := CancelledTrip(t1)] == s.trips[id := CancelledTrip(t1)];
    assert s.trips[id := t2][id := Delivered(t2, r)] == s.trips[id := Delivered(t2, r)];
  }

  /** What is cancelled or given back without being held changes no reservation. */
  lemma UnheldUnmoved(ids: seq<Id>, trips: map<Id, Trip>, id: Id, t: Trip, r: Region, k: Key)
    requires Distinct(ids) && id in ids && id in trips && r !in trips[id].held && r !in t.held
    ensures Sum(Held, ids, trips[id := t], r, k) == Sum(Held, ids, trips, r, k)
  {
    SumMoves(Held, ids, trips, id, t, r, k);
  }

  lemma ReleaseExact(s: State, id: Id, found: Region, r: Region, k: Key)
    requires TripsOk(s) && Ledger(s) && Enabled(s, Cancel(id, found)) && r !in s.trips[id].held
    requires Enabled(Apply(s, Cancel(id, found)), GiveBack(id, r))
    ensures var keys, s2 := KeysOf(Usable(s.trips[id], r)), Apply(Apply(s, Cancel(id, found)), GiveBack(id, r));
            At(Counters(s2.cur, r), k) == Sum(Held, s2.ids, s2.trips, r, k)
            <==> (k in keys ==> At(Counters(s.cur, r), k) == 0)
  {
    var t1 := CancelledTrip(s.trips[id]);
    var keys, t2 := KeysOf(Usable(s.trips[id], r)), Delivered(t1, r);
    assert At(Counters(s.cur, r), k) == Sum(Held, s.ids, s.trips, r, k);
    UnheldUnmoved(s.ids, s.trips, id, t1, r, k);
    UnheldUnmoved(s.ids, s.trips[id := t1], id, t2, r, k);
    ReleasedAt(Counters(s.cur, r), keys, k);
    assert k in keys <==> k in multiset(keys);
  }

  /** Flagging a booked journey removes it from what a rebuild counts but not from the live
      counters: at quiescence a segment keeps agreeing exactly when the booking does not use it. */
  lemma FlaggingExact(steps: seq<Step>, s: State, id: Id, r: Region, k: Key)
    requires OrderlyRun(Init(), steps, s) && Quiescent(s) && id in s.trips && StatusOf(s.trips[id], r) == Some(Booked)
    ensures Enabled(s, Flag(id, r))
    ensures Occupancy(Docs(Apply(s, Flag(id, r)).stores, r), r, k) == At(Counters(s.cur, r), k)
            <==> k !in KeysOf(Usable(s.trips[id], r))
  {
    InitConserved();
    RunConserves(Init(), steps, s);
    CacheAgreement(steps, s, r, k);
    assert DocOk(s, id, r);
    OccupancyUpdated(Docs(s.stores, r), id, Flagged, r, k);
    var keys := KeysOf(Usable(s.trips[id], r));
    assert k in keys <==> k in multiset(keys);
  }

  // ---------------------------------------------------------------- runs in which they fail

  function LaneTrip(region: Region): Trip {
    NewTrip([region], map[region := [LANE]], "driver", "vehicle", false)
  }

  function LaneSubmit(id: Id, region: Region): Step {
    Submit(id, [region], map[region := [LANE]], "driver", "vehicle", false)
  }

  function LaneValidate(id: Id, region: Region): Step {
    Validate(id, region, {}, map[KeyOf(LANE) := 1], false, "now")
  }

  /** A journey submitted for the lane and validated there. */
  function LaneDone(region: Region, v: Verdict): Trip {
    Validated(LaneTrip(region), region, v)
  }

  lemma LaneStart(s: State, id: Id, region: Region)
    requires id !in s.trips
    ensures Allowed(s, LaneSubmit(id, region))
    ensures Apply(s, LaneSubmit(id, region)) == State(s.ids + [id], s.trips[id := LaneTrip(region)], s.cur, s.stores)
  {
    assert (set r | r in [region]) == {region};
  }

  lemma LaneUsable(region: Region)
    ensures Usable(LaneTrip(region), region) == [LANE] && KeysOf(Usable(LaneTrip(region), region)) == [KeyOf(LANE)]
    ensures LaneTrip(region).requests[region] == 1
  {
    LaneKeys();
  }

  function LaneRecord(id: Id, region: Region, v: Verdict): Booking {
    RecordFor(id, LaneTrip(region), region, if v.Yes? then Booked else Refused, "now")
  }

  function LaneVerdict(s: State, region: Region): Verdict {
    if At(Counters(s.cur, region), KeyOf(LANE)) >= 1 then No else Yes
  }

  lemma LaneAnswer(s: State, id: Id, region: Region)
    requires id in s.trips && s.trips[id] == LaneTrip(region)
    ensures Allowed(s, LaneValidate(id, region)) && Answer(s, LaneValidate(id, region)) == LaneVerdict(s, region)
  {
    LaneUsable(region);
    LaneKeys();
    LaneAttempt(map[KeyOf(LANE) := 1], Counters(s.cur, region), false);
  }

  lemma LaneValidated(s: State, id: Id, region: Region)
    requires id in s.trips && s.trips[id] == LaneTrip(region)
    ensures var cur, v := Counters(s.cur, region), LaneVerdict(s, region);
            && Allowed(s, LaneValidate(id, region))
            && Apply(s, LaneValidate(id, region))
               == State(s.ids, s.trips[id := LaneDone(region, v)],
                        if v.Yes? then s.cur[region := cur[KeyOf(LANE) := At(cur, KeyOf(LANE)) + 1]] else s.cur,
                        s.stores[region := Docs(s.stores, region) + [LaneRecord(id, region, v)]])
  {
    LaneAnswer(s, id, region);
    LaneUsable(region);
    LaneKeys();
    LaneAttempt(map[KeyOf(LANE) := 1], Counters(s.cur, region), false);
    AppendOne(s.stores, id, LaneTrip(region), Entry(region, LaneVerdict(s, region)), "now");
  }

  /** One journey books the lane. */
  function OneBooked(region: Region): State {
    State(["A"], map["A" := LaneDone(region, Yes)], map[region := map[KeyOf(LANE) := 1]],
          map[region := [LaneRecord("A", region, Yes)]])
  }

  lemma BookOne(region: Region) returns (s1: State)
    ensures Allowed(Init(), LaneSubmit("A", region)) && s1 == Apply(Init(), LaneSubmit("A", region))
    ensures Allowed(s1, LaneValidate("A", region)) && Apply(s1, LaneValidate("A", region)) == OneBooked(region)
  {
    var s0 := Init();
    LaneStart(s0, "A", region);
    s1 := Apply(s0, LaneSubmit("A", region));
    assert s1 == State(["A"], map["A" := LaneTrip(region)], map[], map[]);
    assert Counters(s1.cur, region) == map[] && Docs(s1.stores, region) == [];
    LaneValidated(s1, "A", region);
    var s2, record := Apply(s1, LaneValidate("A", region)), LaneRecord("A", region, Yes);
    assert LaneVerdict(s1, region) == Yes;
    assert s2.cur == map[region := map[KeyOf(LANE) := 1]];
    assert [] + [record] == [record];
    assert s2.stores == map[region := [record]];
    assert s2.trips == map["A" := LaneDone(region, Yes)];
  }

  /** B is refused on the full lane. */
  lemma RefuseOne(region: Region) returns (s3: State, s4: State)
    ensures Enabled(OneBooked(region), LaneSubmit("B", region))
    ensures s3 == Apply(OneBooked(region), LaneSubmit("B", region))
    ensures Enabled(s3, LaneValidate("B", region)) && s4 == Apply(s3, LaneValidate("B", region))
    ensures s4.trips == map["A" := LaneDone(region, Yes), "B" := LaneDone(region, No)]
    ensures Docs(s4.stores, region) == [LaneRecord("A", region, Yes), LaneRecord("B", region, No)]
    ensures s4.cur == map[region := map[KeyOf(LANE) := 1]]
  {
    var s2 := OneBooked(region);
    LaneStart(s2, "B", region);
    s3 := Apply(s2, LaneSubmit("B", region));
    assert At(Counters(s3.cur, region), KeyOf(LANE)) == 1;
    LaneValidated(s3, "B", region);
    s4 := Apply(s3, LaneValidate("B", region));
  }

  /** A refused journey is cancelled, and its release arrives. */
  lemma CancelAndRelease(s4: State, region: Region) returns (s5: State, s6: State)
    requires "B" in s4.trips && s4.trips["B"] == LaneDone(region, No)
    requires Docs(s4.stores, region) == [LaneRecord("A", region, Yes), LaneRecord("B", region, No)]
    requires s4.cur == map[region := map[KeyOf(LANE) := 1]]
    ensures Enabled(s4, Cancel("B", region)) && s5 == Apply(s4, Cancel("B", region))
    ensures Enabled(s5, GiveBack("B", region)) && s6 == Apply(s5, GiveBack("B", region))
    ensures forall id | id in s4.trips && id != "B" :: id in s6.trips && s6.trips[id] == s4.trips[id]
    ensures At(Counters(s6.cur, region), KeyOf(LANE)) == 0
  {
    LaneUsable(region);
    var docs := Docs(s4.stores, region);
    assert docs[1..] == [LaneRecord("B", region, No)];
    assert FindOne(docs, "B") == FindOne(docs[1..], "B");
    s5 := Apply(s4, Cancel("B", region));
    assert s5.trips["B"] == CancelledTrip(LaneDone(region, No)) && s5.cur == s4.cur;
    assert s5.trips["B"].releases[region] > 0;
    s6 := Apply(s5, GiveBack("B", region));
    assert Usable(s5.trips["B"], region) == [LANE];
    LaneAttempt(map[], Counters(s4.cur, region), false);
  }

  /** A run in which A books the lane, B is refused on it, B is cancelled, and A's place is gone while
      A's booking stands. */
  lemma CancelRefusedUndercounts(region: Region) returns (steps: seq<Step>, s: State)
    ensures Run(Init(), steps, s) && "A" in s.trips
    ensures StatusOf(s.trips["A"], region) == Some(Booked) && region in s.trips["A"].held
    ensures KeyOf(LANE) in KeysOf(Usable(s.trips["A"], region)) && At(Counters(s.cur, region), KeyOf(LANE)) == 0
  {
    var s1 := BookOne(region);
    var s3, s4 := RefuseOne(region);
    var s5, s6 := CancelAndRelease(s4, region);
    s := s6;
    RunCons(s5, GiveBack("B", region), [], s);
    RunCons(s4, Cancel("B", region), [GiveBack("B", region)] + [], s);
    steps := [Cancel("B", region)] + ([GiveBack("B", region)] + []);
    RunCons(s3, LaneValidate("B", region), steps, s);
    steps := [LaneValidate("B", region)] + steps;
    RunCons(OneBooked(region), LaneSubmit("B", region), steps, s);
    steps := [LaneSubmit("B", region)] + steps;
    RunCons(s1, LaneValidate("A", region), steps, s);
    steps := [LaneValidate("A", region)] + steps;
    RunCons(Init(), LaneSubmit("A", region), steps, s);
    steps := [LaneSubmit("A", region)] + steps;
    LaneUsable(region);
  }

  /** A quiescent run in which a booked journey is flagged, and the rebuilt counter is then one less
      than the live one. */
  lemma FlaggingUndercounts(region: Region) returns (steps: seq<Step>, s: State)
    ensures OrderlyRun(Init(), steps, s) && Quiescent(s) && At(Counters(s.cur, region), KeyOf(LANE)) == 1
    ensures Enabled(s, Flag("A", region))
    ensures Occupancy(Docs(Apply(s, Flag("A", region)).stores, region), region, KeyOf(LANE)) == 0
  {
    var s1 := BookOne(region);
    s := OneBooked(region);
    OrderlyCons(s1, LaneValidate("A", region), [], s);
    OrderlyCons(Init(), LaneSubmit("A", region), [LaneValidate("A", region)] + [], s);
    steps := [LaneSubmit("A", region)] + ([LaneValidate("A", region)] + []);
    CacheAgreement(steps, s, region, KeyOf(LANE));
    LaneKeys();
    OccupancyUpdated(Docs(s.stores, region), "A", Flagged, region, KeyOf(LANE));
  }

  /** A's booking is cancelled, given back and flagged. */
  lemma CancelAndFlag(region: Region) returns (s3: State, s4: State, s5: State)
    ensures Enabled(OneBooked(region), Cancel("A", region)) && s3 == Apply(OneBooked(region), Cancel("A", region))
    ensures Enabled(s3, GiveBack("A", region)) && s4 == Apply(s3, GiveBack("A", region))
    ensures Enabled(s4, Flag("A", region)) && s5 == Apply(s4, Flag("A", region))
    ensures s5.ids == ["A"] && s5.trips.Keys == {"A"} && s5.trips["A"].involved == [region]
    ensures Usable(s5.trips["A"], region) == [LANE]
    ensures At(Counters(s5.cur, region), KeyOf(LANE)) == 0
    ensures Docs(s5.stores, region) == [LaneRecord("A", region, Yes).(status := Flagged)]
  {
    var s2 := OneBooked(region);
    LaneUsable(region);
    s3 := Apply(s2, Cancel("A", region));
    assert s3.trips["A"] == CancelledTrip(LaneDone(region, Yes));
    assert s3.trips["A"].releases[region] > 0;
    CancelAt(s2.stores, "A", [region], region);
    assert Docs(s3.stores, region) == [LaneRecord("A", region, Yes).(status := Cancelled)];
    s4 := Apply(s3, GiveBack("A", region));
    assert Usable(s3.trips["A"], region) == [LANE];
    LaneAttempt(map[], Counters(s2.cur, region), false);
    s5 := Apply(s4, Flag("A", region));
  }

  /** B books the free lane; A is cancelled again. */
  lemma BookAndCancelAgain(s5: State, region: Region) returns (s6: State, s7: State, s8: State, s9: State)
    requires s5.trips.Keys == {"A"} && s5.trips["A"].involved == [region] && Usable(s5.trips["A"], region) == [LANE]
    requires At(Counters(s5.cur, region), KeyOf(LANE)) == 0
    requires Docs(s5.stores, region) == [LaneRecord("A", region, Yes).(status := Flagged)]
    ensures Enabled(s5, LaneSubmit("B", region)) && s6 == Apply(s5, LaneSubmit("B", region))
    ensures Enabled(s6, LaneValidate("B", region)) && s7 == Apply(s6, LaneValidate("B", region))
    ensures Enabled(s7, Cancel("A", region)) && s8 == Apply(s7, Cancel("A", region))
    ensures Enabled(s8, GiveBack("A", region)) && s9 == Apply(s8, GiveBack("A", region))
    ensures "B" in s9.trips && s9.trips["B"] == LaneDone(region, Yes)
    ensures At(Counters(s9.cur, region), KeyOf(LANE)) == 0
  {
    LaneStart(s5, "B", region);
    s6 := Apply(s5, LaneSubmit("B", region));
    LaneValidated(s6, "B", region);
    s7 := Apply(s6, LaneValidate("B", region));
    assert s7.trips["A"] == s5.trips["A"] && At(Counters(s7.cur, region), KeyOf(LANE)) == 1;
    assert FindOne(Docs(s7.stores, region), "A").Some?;
    s8 := Apply(s7, Cancel("A", region));
    assert s8.trips["A"].releases[region] > 0;
    s9 := Apply(s8, GiveBack("A", region));
    LaneKeys();
    LaneAttempt(map[], Counters(s7.cur, region), false);
  }

  /** A run in which A is booked, cancelled and flagged, B takes the free place, A is cancelled a second
      time, and B's place is gone while B's booking stands. */
  lemma FlagAndCancelUndercounts(region: Region) returns (steps: seq<Step>, s: State)
    ensures Run(Init(), steps, s) && "B" in s.trips
    ensures StatusOf(s.trips["B"], region) == Some(Booked) && region in s.trips["B"].held
    ensures KeyOf(LANE) in KeysOf(Usable(s.trips["B"], region)) && At(Counters(s.cur, region), KeyOf(LANE)) == 0
  {
    var s1 := BookOne(region);
    var s3, s4, s5 := CancelAndFlag(region);
    var s6, s7, s8, s9 := BookAndCancelAgain(s5, region);
    s := s9;
    RunCons(s8, GiveBack("A", region), [], s);
    steps := [GiveBack("A", region)] + [];
    RunCons(s7, Cancel("A", region), steps, s);
    steps := [Cancel("A", region)] + steps;
    RunCons(s6, LaneValidate("B", region), steps, s);
    steps := [LaneValidate("B", region)] + steps;
    RunCons(s5, LaneSubmit("B", region), steps, s);
    steps := [LaneSubmit("B", region)] + steps;
    RunCons(s4, Flag("A", region), steps, s);
    steps := [Flag("A", region)] + steps;
    RunCons(s3, GiveBack("A", region), steps, s);
    steps := [GiveBack("A", region)] + steps;
    RunCons(OneBooked(region), Cancel("A", region), steps, s);
    steps := [Cancel("A", region)] + steps;
    RunCons(s1, LaneValidate("A", region), steps, s);
    steps := [LaneValidate("A", region)] + steps;
    RunCons(Init(), LaneSubmit("A", region), steps, s);
    steps := [LaneSubmit("A", region)] + steps;
    LaneUsable(region);
  }

  // ---------------------------------------------------------------- records written twice

  /** A second copy of an approved record (a commit loop that was interrupted and recovered writes one)
      makes a rebuild count the journey a second time. */
  lemma SecondRecordExact(steps: seq<Step>, s: State, id: Id, r: Region, now: string, k: Key)
    requires OrderlyRun(Init(), steps, s) && Quiescent(s) && id in s.trips && StatusOf(s.trips[id], r) == Some(Booked)
    ensures var copy := RecordFor(id, s.trips[id], r, Booked, now);
            Occupancy(Docs(s.stores, r) + [copy], r, k) == At(Counters(s.cur, r), k)
            <==> k !in KeysOf(Usable(s.trips[id], r))
  {
    CacheAgreement(steps, s, r, k);
    var docs, copy := Docs(s.stores, r), RecordFor(id, s.trips[id], r, Booked, now);
    assert (docs + [copy])[..|docs|] == docs;
    var keys := KeysOf(Usable(s.trips[id], r));
    assert k in keys <==> k in multiset(keys);
  }
}
