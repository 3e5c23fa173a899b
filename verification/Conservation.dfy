/** All journeys of all regions at once: the counters of every region's Redis and the booking
    records of every region's store, in fault-free runs. Every counter equals the reservations
    not yet given back, and when nothing is on its way the records give the counters. */
module Conservation {
  import opened Options
  import opened Lex
  import opened RegionalRedis
  import opened Bookings
  import opened Rebuild
  import Redelivery
  import opened Saga
  import opened Journeys
  import opened SagaJourneys

  type Id = string

  type Counts = map<Region, map<Key, int>>

  type Stores = map<Region, seq<Booking>>

  datatype State = State(ids: seq<Id>, trips: map<Id, Trip>, cur: Counts, stores: Stores)

  function Counters(cur: Counts, r: Region): map<Key, int> {
    if r in cur then cur[r] else map[]
  }

  function Docs(stores: Stores, r: Region): seq<Booking> {
    if r in stores then stores[r] else []
  }

  /** `locks` and `vehicleBusy` are what the validation finds in Redis and in the store, `cap` the
      region's capacities, `now` a timestamp; `Echo` is the coordinator's own final message, which
      comes back to it with region "unknown". */
  datatype Step =
    | Submit(id: Id, involved: seq<Region>, legs: map<Region, seq<Segment>>, driver: string, vehicle: string,
        cross: bool)
    | Validate(id: Id, region: Region, locks: set<Key>, cap: map<Key, int>, vehicleBusy: bool, now: string)
    | Coordinate(id: Id, answer: Entry, now: string)
    | Echo(id: Id, verdict: Verdict)
    | Cancel(id: Id, found: Region)
    | GiveBack(id: Id, region: Region)
    | Flag(id: Id, region: Region)

  function RecordFor(id: Id, t: Trip, r: Region, status: Bookings.Status, now: string): Booking {
    Booking(id, t.driver, t.vehicle, r, status, now, Leg(t, r))
  }

  function Append(stores: Stores, id: Id, t: Trip, records: seq<Entry>, now: string): Stores
    decreases records
  {
    if records == [] then stores
    else
      var e := records[0];
      var b := RecordFor(id, t, e.region, if e.verdict.Yes? then Booked else Refused, now);
      Append(stores[e.region := Docs(stores, e.region) + [b]], id, t, records[1..], now)
  }

  function CancelIn(stores: Stores, id: Id, regions: seq<Region>): Stores
    decreases regions
  {
    if regions == [] then stores
    else CancelIn(stores[regions[0] := SetStatus(Docs(stores, regions[0]), id, Cancelled)], id, regions[1..])
  }

  function Answer(s: State, step: Step): Verdict
    requires step.Validate? && step.id in s.trips
  {
    var segs := Usable(s.trips[step.id], step.region);
    var cur, keys := Counters(s.cur, step.region), Sort(KeysOf(segs));
    if segs != [] && RegionalRedis.Decide(step.locks, step.cap, cur, keys, step.vehicleBusy).Approved? then Yes else No
  }

  ghost predicate Enabled(s: State, step: Step) {
    match step
    case Submit(id, involved, legs, _, _, cross) =>
      && id !in s.trips && Distinct(involved) && involved != [] && (!cross ==> |involved| == 1)
      && legs.Keys == (set r | r in involved)
    case Validate(id, r, _, _, _, _) => id in s.trips && s.trips[id].requests[r] > 0
    case Coordinate(id, e, _) => id in s.trips && s.trips[id].saga.Some? && s.trips[id].answers[e] > 0
    case Echo(id, v) => id in s.trips && s.trips[id].saga.Some? && Final(v) in s.trips[id].saga.value.log
    case Cancel(id, r) =>
      id in s.trips && r in s.trips[id].involved
      && var found := FindOne(Docs(s.stores, r), id); found.Some? && !found.value.status.Cancelled?
    case GiveBack(id, r) => id in s.trips && s.trips[id].releases[r] > 0
    case Flag(id, r) => id in s.trips && FindOne(Docs(s.stores, r), id).Some?
  }

  /** The runs conservation holds in: only approved bookings are cancelled, and none is flagged. The code
      itself refuses to cancel only what is cancelled already. */
  ghost predicate Allowed(s: State, step: Step) {
    && Enabled(s, step) && !step.Flag?
    && (step.Cancel? ==> FindOne(Docs(s.stores, step.found), step.id).value.status.Booked?)
  }

  /** The journey after a step about it. */
  ghost function Moved(s: State, step: Step): Trip
    requires Enabled(s, step)
  {
    match step
    case Submit(_, involved, legs, driver, vehicle, cross) => NewTrip(involved, legs, driver, vehicle, cross)
    case Validate(id, r, _, _, _, _) => Validated(s.trips[id], r, Answer(s, step))
    case Coordinate(id, e, _) => Advanced(s.trips[id], e)
    case Echo(id, v) => s.trips[id].(saga := Some(Advance(s.trips[id].saga.value, "unknown", v)))
    case Cancel(id, _) => CancelledTrip(s.trips[id])
    case GiveBack(id, r) => Delivered(s.trips[id], r)
    case Flag(id, _) => s.trips[id]
  }

  ghost function CountersAfter(s: State, step: Step): Counts
    requires Enabled(s, step)
  {
    match step
    case Validate(id, r, _, _, _, _) =>
      if Answer(s, step).Yes? then s.cur[r := Incremented(Counters(s.cur, r), Sort(KeysOf(Usable(s.trips[id], r))))]
      else s.cur
    case GiveBack(id, r) => s.cur[r := Released(Counters(s.cur, r), KeysOf(Usable(s.trips[id], r)))]
    case Submit(_, _, _, _, _, _) => s.cur
    case Coordinate(_, _, _) => s.cur
    case Echo(_, _) => s.cur
    case Cancel(_, _) => s.cur
    case Flag(_, _) => s.cur
  }

  ghost function StoresAfter(s: State, step: Step): Stores
    requires Enabled(s, step)
  {
    match step
    case Validate(id, r, _, _, _, now) =>
      var t := s.trips[id];
      if t.saga.None? && Usable(t, r) != [] then Append(s.stores, id, t, [Entry(r, Answer(s, step))], now) else s.stores
    case Coordinate(id, e, now) =>
      var w, t' := s.trips[id].saga.value, Advanced(s.trips[id], e);
      Append(s.stores, id, t', Suffix(w.own, t'.saga.value.own), now)
    case Cancel(id, _) => CancelIn(s.stores, id, s.trips[id].involved)
    case Submit(_, _, _, _, _, _) => s.stores
    case Echo(_, _) => s.stores
    case GiveBack(_, _) => s.stores
    case Flag(id, r) => s.stores[r := SetStatus(Docs(s.stores, r), id, Flagged)]
  }

  ghost function Apply(s: State, step: Step): State
    requires Enabled(s, step)
  {
    State(if step.Submit? then s.ids + [step.id] else s.ids, s.trips[step.id := Moved(s, step)],
          CountersAfter(s, step), StoresAfter(s, step))
  }

  ghost predicate Run(s: State, steps: seq<Step>, s': State)
    decreases steps
  {
    if steps == [] then s == s' else Enabled(s, steps[0]) && Run(Apply(s, steps[0]), steps[1..], s')
  }

  ghost predicate OrderlyRun(s: State, steps: seq<Step>, s': State)
    decreases steps
  {
    if steps == [] then s == s' else Allowed(s, steps[0]) && OrderlyRun(Apply(s, steps[0]), steps[1..], s')
  }

  lemma RunCons(s: State, step: Step, rest: seq<Step>, s': State)
    requires Enabled(s, step) && Run(Apply(s, step), rest, s')
    ensures Run(s, [step] + rest, s')
  {
    assert ([step] + rest)[1..] == rest;
  }

  lemma OrderlyCons(s: State, step: Step, rest: seq<Step>, s': State)
    requires Allowed(s, step) && OrderlyRun(Apply(s, step), rest, s')
    ensures OrderlyRun(s, [step] + rest, s')
  {
    assert ([step] + rest)[1..] == rest;
  }

  // ---------------------------------------------------------------- counting

  datatype Kind = Held | Live

  /** What a journey contributes: as a reservation, or as an approved record. */
  function Contribution(kind: Kind, t: Trip, r: Region, k: Key): nat {
    if (if kind.Held? then r in t.held else StatusOf(t, r) == Some(Booked)) then Uses(Leg(t, r), k) else 0
  }

  function Sum(kind: Kind, ids: seq<Id>, trips: map<Id, Trip>, r: Region, k: Key): nat {
    if ids == [] then 0
    else
      var last := ids[|ids| - 1];
      Sum(kind, ids[..|ids| - 1], trips, r, k) + if last in trips then Contribution(kind, trips[last], r, k) else 0
  }

  lemma {:induction false} SumUntouched(kind: Kind, ids: seq<Id>, trips: map<Id, Trip>, id: Id, t: Trip, r: Region,
      k: Key)
    requires id !in ids
    ensures Sum(kind, ids, trips[id := t], r, k) == Sum(kind, ids, trips, r, k)
  {
    if ids == [] {
    } else {
      var n := |ids| - 1;
      assert ids == ids[..n] + [ids[n]];
      SumUntouched(kind, ids[..n], trips, id, t, r, k);
    }
  }

  /** Changing one journey changes the sum by that journey's change. */
  lemma {:induction false} SumMoves(kind: Kind, ids: seq<Id>, trips: map<Id, Trip>, id: Id, t: Trip, r: Region, k: Key)
    requires Distinct(ids) && id in ids && id in trips
    ensures Sum(kind, ids, trips[id := t], r, k) + Contribution(kind, trips[id], r, k)
            == Sum(kind, ids, trips, r, k) + Contribution(kind, t, r, k)
    ensures Sum(kind, ids, trips, r, k) >= Contribution(kind, trips[id], r, k)
  {
    var n := |ids| - 1;
    assert ids == ids[..n] + [ids[n]];
    if ids[n] == id {
      assert id !in ids[..n];
      SumUntouched(kind, ids[..n], trips, id, t, r, k);
    } else {
      SumMoves(kind, ids[..n], trips, id, t, r, k);
    }
  }

  lemma {:induction false} SumAgrees(ids: seq<Id>, trips: map<Id, Trip>, r: Region, k: Key)
    requires forall id | id in ids && id in trips ::
               Contribution(Held, trips[id], r, k) == Contribution(Live, trips[id], r, k)
    ensures Sum(Held, ids, trips, r, k) == Sum(Live, ids, trips, r, k)
  {
    if ids == [] {
    } else {
      var n := |ids| - 1;
      assert ids == ids[..n] + [ids[n]];
      SumAgrees(ids[..n], trips, r, k);
    }
  }

  // ---------------------------------------------------------------- the invariant

  /** Every counter is the sum of the reservations not yet given back. */
  ghost predicate Ledger(s: State) {
    forall r, k {:trigger Sum(Held, s.ids, s.trips, r, k)} ::
        At(Counters(s.cur, r), k) == Sum(Held, s.ids, s.trips, r, k)
  }

  /** The records of a region give the occupancy of its approved journeys. */
  ghost predicate Recorded(s: State) {
    forall r, k {:trigger Sum(Live, s.ids, s.trips, r, k)} ::
        Occupancy(Docs(s.stores, r), r, k) == Sum(Live, s.ids, s.trips, r, k)
  }

  ghost predicate DocOk(s: State, id: Id, r: Region) {
    match FindOne(Docs(s.stores, r), id)
    case None => id in s.trips ==> StatusOf(s.trips[id], r).None?
    case Some(b) =>
      id in s.trips && b.region == r && b.segments == Leg(s.trips[id], r) && StatusOf(s.trips[id], r) == Some(b.status)
  }

  ghost predicate DocsOk(s: State) {
    forall id, r :: DocOk(s, id, r)
  }

  ghost predicate TripsOk(s: State) {
    && Distinct(s.ids) && (forall id :: id in s.ids <==> id in s.trips)
    && forall id | id in s.trips :: TripOk(s.trips[id])
  }

  ghost predicate Conserved(s: State) {
    TripsOk(s) && Ledger(s) && Recorded(s) && DocsOk(s)
  }

  function Init(): State {
    State([], map[], map[], map[])
  }

  lemma InitConserved()
    ensures Conserved(Init())
  {
    var s := Init();
    forall r, k ensures At(Counters(s.cur, r), k) == Sum(Held, s.ids, s.trips, r, k) {
    }
    forall r, k ensures Occupancy(Docs(s.stores, r), r, k) == Sum(Live, s.ids, s.trips, r, k) {
    }
    forall id, r ensures DocOk(s, id, r) {
      assert Docs(s.stores, r) == [];
    }
  }

  // ---------------------------------------------------------------- stores

  lemma {:induction false} FindUpdated(docs: seq<Booking>, id: string, status: Bookings.Status, other: string)
    ensures FindOne(SetStatus(docs, id, status), other)
            == match FindOne(docs, other)
               case None => None
               case Some(b) => Some(if other == id then b.(status := status) else b)
  {
    if docs == [] {
    } else {
      var rest := SetStatus(docs, id, status)[1..];
      if docs[0].id == id {
        assert rest == docs[1..];
      } else {
        assert rest == SetStatus(docs[1..], id, status);
        FindUpdated(docs[1..], id, status, other);
      }
    }
  }

  lemma OccupancyCons(b: Booking, docs: seq<Booking>, region: string, k: Key)
    ensures Occupancy([b] + docs, region, k) == Weight(b, region, k) + Occupancy(docs, region, k)
  {
    OccupancyConcat([b], docs, region, k);
    assert [b][..0] == [];
  }

  /** Setting a status changes the occupancy by the change of the document found. */
  lemma {:induction false} OccupancyUpdated(docs: seq<Booking>, id: string, status: Bookings.Status, region: string,
      k: Key)
    requires FindOne(docs, id).Some?
    ensures var b := FindOne(docs, id).value;
            Occupancy(SetStatus(docs, id, status), region, k) + Weight(b, region, k)
            == Occupancy(docs, region, k) + Weight(b.(status := status), region, k)
  {
    assert docs == [docs[0]] + docs[1..];
    OccupancyCons(docs[0], docs[1..], region, k);
    if docs[0].id == id {
      OccupancyCons(docs[0].(status := status), docs[1..], region, k);
    } else {
      OccupancyUpdated(docs[1..], id, status, region, k);
      OccupancyCons(docs[0], SetStatus(docs[1..], id, status), region, k);
    }
  }

  /** What a step may do to one region's records: nothing, the journey's first record, or the
      cancellation of its approved record. */
  ghost predicate DocsMove(docs: seq<Booking>, docs': seq<Booking>, id: Id, t: Trip, t': Trip, r: Region, now: string) {
    || (docs' == docs && StatusOf(t', r) == StatusOf(t, r))
    || (StatusOf(t, r).None? && StatusOf(t', r).Some?
        && docs' == docs + [RecordFor(id, t', r, StatusOf(t', r).value, now)])
    || (StatusOf(t, r) == Some(Booked) && StatusOf(t', r) == Some(Cancelled) && docs' == SetStatus(docs, id, Cancelled))
  }

  lemma DocsKeep(s: State, s': State, id: Id, now: string, q: Id, r: Region)
    requires DocOk(s, q, r) && id in s.trips && id in s'.trips && s'.trips[id].legs == s.trips[id].legs
    requires s'.trips == s.trips[id := s'.trips[id]]
    requires DocsMove(Docs(s.stores, r), Docs(s'.stores, r), id, s.trips[id], s'.trips[id], r, now)
    ensures DocOk(s', q, r)
  {
    var docs, t, t' := Docs(s.stores, r), s.trips[id], s'.trips[id];
    if StatusOf(t', r).Some? { FindInserted(docs, RecordFor(id, t', r, StatusOf(t', r).value, now), q); }
    FindUpdated(docs, id, Cancelled, q);
  }

  lemma OccupancyKeeps(s: State, s': State, id: Id, now: string, r: Region, k: Key)
    requires DocOk(s, id, r) && id in s.trips && id in s'.trips && s'.trips[id].legs == s.trips[id].legs
    requires DocsMove(Docs(s.stores, r), Docs(s'.stores, r), id, s.trips[id], s'.trips[id], r, now)
    requires StatusOf(s'.trips[id], r) != Some(Waiting)
    ensures Occupancy(Docs(s'.stores, r), r, k) + Contribution(Live, s.trips[id], r, k)
            == Occupancy(Docs(s.stores, r), r, k) + Contribution(Live, s'.trips[id], r, k)
  {
    var docs, docs', t, t' := Docs(s.stores, r), Docs(s'.stores, r), s.trips[id], s'.trips[id];
    if StatusOf(t, r).None? && StatusOf(t', r).Some? {
      var b := RecordFor(id, t', r, StatusOf(t', r).value, now);
      OccupancyConcat(docs, [b], r, k);
      OccupancyCons(b, [], r, k);
      assert [b] + [] == [b];
    } else if StatusOf(t, r) == Some(Booked) && StatusOf(t', r) == Some(Cancelled) {
      OccupancyUpdated(docs, id, Cancelled, r, k);
    }
  }

  lemma {:induction false} AppendAt(stores: Stores, id: Id, t: Trip, regions: seq<Region>,
      v: Verdict, now: string, r: Region)
    requires Distinct(regions)
    ensures Docs(Append(stores, id, t, Records(regions, v), now), r)
            == Docs(stores, r)
               + if r in regions then [RecordFor(id, t, r, if v.Yes? then Booked else Refused, now)] else []
    decreases regions
  {
    var records := Records(regions, v);
    if regions == [] {
      assert records == [];
    } else {
      assert regions == [regions[0]] + regions[1..];
      assert records[1..] == Records(regions[1..], v);
      var b := RecordFor(id, t, regions[0], if v.Yes? then Booked else Refused, now);
      AppendAt(stores[regions[0] := Docs(stores, regions[0]) + [b]], id, t, regions[1..], v, now, r);
    }
  }

  lemma {:induction false} CancelAt(stores: Stores, id: Id, regions: seq<Region>, r: Region)
    requires Distinct(regions)
    ensures Docs(CancelIn(stores, id, regions), r)
            == if r in regions then SetStatus(Docs(stores, r), id, Cancelled) else Docs(stores, r)
    decreases regions
  {
    if regions == [] {
    } else {
      assert regions == [regions[0]] + regions[1..];
      CancelAt(stores[regions[0] := SetStatus(Docs(stores, regions[0]), id, Cancelled)], id, regions[1..], r);
    }
  }

  // ---------------------------------------------------------------- every step keeps the invariant

  ghost function NowOf(step: Step): string {
    match step
    case Validate(_, _, _, _, _, now) => now
    case Coordinate(_, _, now) => now
    case Submit(_, _, _, _, _, _) => ""
    case Echo(_, _) => ""
    case Cancel(_, _) => ""
    case GiveBack(_, _) => ""
    case Flag(_, _) => ""
  }

  lemma EchoChangesNothing(t: Trip, v: Verdict)
    requires TripOk(t) && t.saga.Some? && Final(v) in t.saga.value.log
    ensures Advance(t.saga.value, "unknown", v) == t.saga.value
  {
    assert LegOk(t, t.involved[0]);
  }

  /** A step leaves its journey in order, with the same legs. */
  lemma MovedOk(s: State, step: Step)
    requires Conserved(s) && Allowed(s, step)
    ensures TripOk(Moved(s, step))
    ensures !step.Submit? ==> Moved(s, step).legs == s.trips[step.id].legs
    ensures !step.Submit? ==> Moved(s, step).involved == s.trips[step.id].involved
  {
    match step
    case Submit(_, involved, legs, driver, vehicle, cross) => NewTripOk(involved, legs, driver, vehicle, cross);
    case Validate(id, r, _, _, _, _) => ValidateKeeps(s.trips[id], r, Answer(s, step));
    case Coordinate(id, e, _) => AdvanceKeeps(s.trips[id], e);
    case Echo(id, v) => EchoChangesNothing(s.trips[id], v);
    case Cancel(id, r) =>
      assert DocOk(s, id, r);
      CancelKeeps(s.trips[id], r);
    case GiveBack(id, r) => DeliverKeeps(s.trips[id], r);
    case Flag(_, _) =>
  }

  lemma DecidedStatus(t: Trip, e: Entry, r: Region)
    requires TripOk(t) && t.saga.Some? && t.answers[e] > 0
    ensures var w := t.saga.value; var o := Record(w.outcomes, e.region, e.verdict);
            && StatusOf(t, r).None? && w.involved == t.involved
            && StatusOf(Advanced(t, e), r) == if !Complete(w.involved, o) || r !in t.involved then None
                                              else if AnyRejected(o) then Some(Refused) else Some(Booked)
  {
    AnswerIsNews(t, e);
    AdvanceEffect(t.saga.value, e);
  }

  lemma DecidedDocs(s: State, id: Id, e: Entry, now: string, r: Region)
    requires Conserved(s) && id in s.trips && s.trips[id].saga.Some? && s.trips[id].answers[e] > 0
    ensures var t, t' := s.trips[id], Advanced(s.trips[id], e);
            var records := Suffix(t.saga.value.own, t'.saga.value.own);
            DocsMove(Docs(s.stores, r), Docs(Append(s.stores, id, t', records, now), r), id, t, t', r, now)
  {
    var t := s.trips[id];
    var w := t.saga.value;
    var o := Record(w.outcomes, e.region, e.verdict);
    AnswerIsNews(t, e);
    AdvanceEffect(w, e);
    DecidedStatus(t, e, r);
    if Complete(w.involved, o) {
      AppendAt(s.stores, id, Advanced(t, e), w.involved, if AnyRejected(o) then No else Yes, now, r);
    }
  }

  lemma ValidateDocs(s: State, step: Step, r: Region)
    requires Conserved(s) && Allowed(s, step) && step.Validate?
    ensures DocsMove(Docs(s.stores, r), Docs(Apply(s, step).stores, r), step.id, s.trips[step.id], Moved(s, step), r,
        step.now)
  {
    var t, v, q := s.trips[step.id], Answer(s, step), step.region;
    ValidateKeeps(t, q, v);
    if t.saga.None? && Usable(t, q) != [] {
      assert t.involved == [q];
      assert Records([q], v) == [Entry(q, v)];
      AppendAt(s.stores, step.id, t, [q], v, step.now, r);
      assert RecordFor(step.id, t, q, if v.Yes? then Booked else Refused, step.now)
             == RecordFor(step.id, Moved(s, step), q, if v.Yes? then Booked else Refused, step.now);
    }
  }

  lemma CancelDocs(s: State, step: Step, r: Region)
    requires Conserved(s) && Allowed(s, step) && step.Cancel?
    ensures DocsMove(Docs(s.stores, r), Docs(Apply(s, step).stores, r), step.id, s.trips[step.id], Moved(s, step), r,
        "")
  {
    assert DocOk(s, step.id, step.found);
    CancelKeeps(s.trips[step.id], step.found);
    CancelAt(s.stores, step.id, s.trips[step.id].involved, r);
  }

  lemma StepDocs(s: State, step: Step, r: Region)
    requires Conserved(s) && Allowed(s, step) && !step.Submit?
    ensures DocsMove(Docs(s.stores, r), Docs(Apply(s, step).stores, r), step.id, s.trips[step.id], Moved(s, step), r,
        NowOf(step))
  {
    if step.Validate? {
      ValidateDocs(s, step, r);
    } else if step.Coordinate? {
      DecidedDocs(s, step.id, step.answer, step.now, r);
    } else if step.Cancel? {
      CancelDocs(s, step, r);
    } else if step.Echo? {
      EchoChangesNothing(s.trips[step.id], step.verdict);
    }
  }

  lemma IncrementedCounters(cur: Counts, q: Region, keys: seq<Key>, r: Region, k: Key)
    ensures At(Counters(cur[q := Incremented(Counters(cur, q), Sort(keys))], r), k)
            == At(Counters(cur, r), k) + if r == q then multiset(keys)[k] else 0
  {
    SortSorts(keys);
    IncrementedAt(Counters(cur, q), Sort(keys), k);
  }

  lemma ValidateCounts(s: State, step: Step, r: Region, k: Key)
    requires Conserved(s) && Allowed(s, step) && step.Validate?
    ensures At(Counters(Apply(s, step).cur, r), k) + Contribution(Held, s.trips[step.id], r, k)
            == At(Counters(s.cur, r), k) + Contribution(Held, Moved(s, step), r, k)
  {
    var t := s.trips[step.id];
    ValidateKeeps(t, step.region, Answer(s, step));
    IncrementedCounters(s.cur, step.region, KeysOf(Usable(t, step.region)), r, k);
  }

  lemma GiveBackCounts(s: State, step: Step, r: Region, k: Key)
    requires Conserved(s) && Allowed(s, step) && step.GiveBack?
    ensures At(Counters(Apply(s, step).cur, r), k) + Contribution(Held, s.trips[step.id], r, k)
            == At(Counters(s.cur, r), k) + Contribution(Held, Moved(s, step), r, k)
  {
    var t, q := s.trips[step.id], step.region;
    ClampHasNothingToDo(s, step.id, q, k);
    ReleasedAt(Counters(s.cur, q), KeysOf(Usable(t, q)), k);
  }

  /** The change of a counter is the change of the journey's own share. */
  lemma StepCounters(s: State, step: Step, r: Region, k: Key)
    requires Conserved(s) && Allowed(s, step) && !step.Submit?
    ensures At(Counters(Apply(s, step).cur, r), k) + Contribution(Held, s.trips[step.id], r, k)
            == At(Counters(s.cur, r), k) + Contribution(Held, Moved(s, step), r, k)
  {
    if step.Validate? {
      ValidateCounts(s, step, r, k);
    } else if step.GiveBack? {
      GiveBackCounts(s, step, r, k);
    }
  }

  /** Whenever a release arrives, every counter it decrements is at least what it takes away. */
  lemma ClampHasNothingToDo(s: State, id: Id, r: Region, k: Key)
    requires Conserved(s) && id in s.trips && s.trips[id].releases[r] > 0
    ensures At(Counters(s.cur, r), k) >= multiset(KeysOf(Usable(s.trips[id], r)))[k]
    ensures r in s.trips[id].held
  {
    DeliverKeeps(s.trips[id], r);
    SumMoves(Held, s.ids, s.trips, id, s.trips[id], r, k);
  }

  lemma SubmitSums(s: State, step: Step, r: Region, k: Key)
    requires Conserved(s) && Allowed(s, step) && step.Submit?
    ensures var s' := Apply(s, step);
            && At(Counters(s'.cur, r), k) == Sum(Held, s'.ids, s'.trips, r, k)
            && Occupancy(Docs(s'.stores, r), r, k) == Sum(Live, s'.ids, s'.trips, r, k)
  {
    var ids, t' := s.ids + [step.id], Moved(s, step);
    assert ids[..|s.ids|] == s.ids;
    SumUntouched(Held, s.ids, s.trips, step.id, t', r, k);
    SumUntouched(Live, s.ids, s.trips, step.id, t', r, k);
    assert At(Counters(s.cur, r), k) == Sum(Held, s.ids, s.trips, r, k);
    assert Occupancy(Docs(s.stores, r), r, k) == Sum(Live, s.ids, s.trips, r, k);
  }

  lemma SubmitKeeps(s: State, step: Step)
    requires Conserved(s) && Allowed(s, step) && step.Submit?
    ensures Conserved(Apply(s, step))
  {
    var s' := Apply(s, step);
    MovedOk(s, step);
    forall r, k { SubmitSums(s, step, r, k); }
    forall id, r ensures DocOk(s', id, r) { assert DocOk(s, id, r); }
  }

  /** If one journey's share moves as its counter and its record move, the sums still agree. */
  lemma SumsFollow(s: State, s': State, id: Id, r: Region, k: Key)
    requires TripsOk(s) && Ledger(s) && Recorded(s) && id in s.trips && id in s'.trips
    requires s'.ids == s.ids && s'.trips == s.trips[id := s'.trips[id]]
    requires At(Counters(s'.cur, r), k) + Contribution(Held, s.trips[id], r, k)
             == At(Counters(s.cur, r), k) + Contribution(Held, s'.trips[id], r, k)
    requires Occupancy(Docs(s'.stores, r), r, k) + Contribution(Live, s.trips[id], r, k)
             == Occupancy(Docs(s.stores, r), r, k) + Contribution(Live, s'.trips[id], r, k)
    ensures At(Counters(s'.cur, r), k) == Sum(Held, s'.ids, s'.trips, r, k)
    ensures Occupancy(Docs(s'.stores, r), r, k) == Sum(Live, s'.ids, s'.trips, r, k)
  {
    assert At(Counters(s.cur, r), k) == Sum(Held, s.ids, s.trips, r, k);
    assert Occupancy(Docs(s.stores, r), r, k) == Sum(Live, s.ids, s.trips, r, k);
    SumMoves(Held, s.ids, s.trips, id, s'.trips[id], r, k);
    SumMoves(Live, s.ids, s.trips, id, s'.trips[id], r, k);
  }

  lemma OnlyItsJourney(s: State, step: Step)
    requires Enabled(s, step) && !step.Submit?
    ensures Apply(s, step).ids == s.ids && step.id in s.trips &&
        Apply(s, step).trips == s.trips[step.id := Moved(s, step)]
  {
  }

  lemma StepOccupancy(s: State, step: Step, r: Region, k: Key)
    requires Conserved(s) && Allowed(s, step) && !step.Submit?
    ensures step.id in s.trips
    ensures Occupancy(Docs(Apply(s, step).stores, r), r, k) + Contribution(Live, s.trips[step.id], r, k)
            == Occupancy(Docs(s.stores, r), r, k) + Contribution(Live, Moved(s, step), r, k)
  {
    OnlyItsJourney(s, step);
    MovedOk(s, step);
    assert DocOk(s, step.id, r);
    StepDocs(s, step, r);
    OccupancyKeeps(s, Apply(s, step), step.id, NowOf(step), r, k);
  }

  lemma StepSums(s: State, step: Step, r: Region, k: Key)
    requires Conserved(s) && Allowed(s, step) && !step.Submit?
    ensures var s' := Apply(s, step);
            && At(Counters(s'.cur, r), k) == Sum(Held, s'.ids, s'.trips, r, k)
            && Occupancy(Docs(s'.stores, r), r, k) == Sum(Live, s'.ids, s'.trips, r, k)
  {
    OnlyItsJourney(s, step);
    StepCounters(s, step, r, k);
    StepOccupancy(s, step, r, k);
    SumsFollow(s, Apply(s, step), step.id, r, k);
  }

  lemma StepRecords(s: State, step: Step, id: Id, r: Region)
    requires Conserved(s) && Allowed(s, step) && !step.Submit?
    ensures DocOk(Apply(s, step), id, r)
  {
    OnlyItsJourney(s, step);
    MovedOk(s, step);
    assert DocOk(s, id, r);
    StepDocs(s, step, r);
    DocsKeep(s, Apply(s, step), step.id, NowOf(step), id, r);
  }

  lemma StepTrips(s: State, step: Step)
    requires Conserved(s) && Allowed(s, step) && !step.Submit?
    ensures TripsOk(Apply(s, step))
  {
    OnlyItsJourney(s, step);
    MovedOk(s, step);
  }

  /** Conservation is kept by every step of every journey in every region. */
  lemma {:induction false} StepKeeps(s: State, step: Step)
    requires Conserved(s) && Allowed(s, step)
    ensures Conserved(Apply(s, step))
  {
    if step.Submit? {
      SubmitKeeps(s, step);
    } else {
      StepTrips(s, step);
      forall r, k { StepSums(s, step, r, k); }
      forall id, r { StepRecords(s, step, id, r); }
    }
  }

  /** Capacity conservation over whole runs: from the empty system, after any interleaving of
      submissions, validations, outcomes, cancellations and releases, every regional counter equals
      the approved reservations not yet given back, and every release is exact. */
  lemma {:induction false} RunConserves(s: State, steps: seq<Step>, s': State)
    requires Conserved(s) && OrderlyRun(s, steps, s')
    ensures Conserved(s')
    decreases steps
  {
    if steps == [] {
    } else {
      StepKeeps(s, steps[0]);
      RunConserves(Apply(s, steps[0]), steps[1..], s');
    }
  }

  lemma {:induction false} CountersAreReservations(steps: seq<Step>, s: State, r: Region, k: Key)
    requires OrderlyRun(Init(), steps, s)
    ensures At(Counters(s.cur, r), k) == Sum(Held, s.ids, s.trips, r, k)
  {
    InitConserved();
    RunConserves(Init(), steps, s);
  }

  // ---------------------------------------------------------------- when everything has arrived

  ghost predicate Quiescent(s: State) {
    forall id | id in s.trips :: Quiet(s.trips[id])
  }

  /** At quiescence every saga is decided; a committed, uncancelled journey is counted in every
      involved region; a refused, aborted or cancelled one is counted nowhere. */
  lemma {:induction false} NetEffect(steps: seq<Step>, s: State, id: Id)
    requires OrderlyRun(Init(), steps, s) && Quiescent(s) && id in s.trips
    ensures forall r :: r in s.trips[id].held <==> StatusOf(s.trips[id], r) == Some(Booked)
    ensures s.trips[id].saga.Some? ==> !Open(s.trips[id].saga.value.status)
    ensures s.trips[id].saga.Some? ==>
              s.trips[id].held == if s.trips[id].saga.value.status.Committed? && !s.trips[id].cancelled
                                  then set r | r in s.trips[id].involved else {}
  {
    InitConserved();
    RunConserves(Init(), steps, s);
    var t := s.trips[id];
    forall r ensures r in t.held <==> StatusOf(t, r) == Some(Booked) { QuietIsSettled(t, r); }
    QuietIsSettled(t, t.involved[0]);
  }

  lemma QuietAgreement(s: State, r: Region, k: Key)
    requires Conserved(s) && Quiescent(s)
    ensures Occupancy(Docs(s.stores, r), r, k) == At(Counters(s.cur, r), k)
  {
    forall id | id in s.ids && id in s.trips
      ensures Contribution(Held, s.trips[id], r, k) == Contribution(Live, s.trips[id], r, k)
    {
      QuietIsSettled(s.trips[id], r);
    }
    SumAgrees(s.ids, s.trips, r, k);
    assert At(Counters(s.cur, r), k) == Sum(Held, s.ids, s.trips, r, k);
    assert Occupancy(Docs(s.stores, r), r, k) == Sum(Live, s.ids, s.trips, r, k);
  }

  /** Cache agreement: at quiescence the booking records of a region give, segment by segment,
      exactly the live counters. */
  lemma {:induction false} CacheAgreement(steps: seq<Step>, s: State, r: Region, k: Key)
    requires OrderlyRun(Init(), steps, s) && Quiescent(s)
    ensures Occupancy(Docs(s.stores, r), r, k) == At(Counters(s.cur, r), k)
  {
    InitConserved();
    RunConserves(Init(), steps, s);
    QuietAgreement(s, r, k);
  }

  /** Running the rebuild script against an empty Redis restores the live counters, however the
      region's records are sharded and whatever the edges seed. */
  method RebuildRestores(redis: RegionRedis, edges: seq<RoadDoc>, store: BookingStore, ghost steps: seq<Step>,
      ghost s: State, region: Region)
    requires store.Valid() && store.all == Docs(s.stores, region)
    requires OrderlyRun(Init(), steps, s) && Quiescent(s)
    requires redis.cur == map[]
    modifies redis`cap, redis`cur
    ensures forall k :: At(redis.cur, k) == At(Counters(s.cur, region), k)
  {
    ShardsTogether(store.all, store.hash, store.shards);
    RebuildRedis(redis, edges, store.shards, region, store.all);
    forall k ensures At(redis.cur, k) == At(Counters(s.cur, region), k) { CacheAgreement(steps, s, region, k); }
  }

  lemma AppendOne(stores: Stores, id: Id, t: Trip, e: Entry, now: string)
    ensures Append(stores, id, t, [e], now)
            == stores[e.region := Docs(stores, e.region)
                                  + [RecordFor(id, t, e.region, if e.verdict.Yes? then Booked else Refused, now)]]
  {
    assert [e][1..] == [];
  }

  /** The request of a journey as the validation service of a region receives it. */
  function RequestOf(id: Id, t: Trip, r: Region): Redelivery.Request {
    Redelivery.Request(id, t.saga.Some?, t.driver, t.vehicle, Leg(t, r))
  }

  /** A validation step is one fault-free handling of the region's request: it gives the same answer and
      leaves the same counters and records. */
  lemma ValidateAgrees(s: State, step: Step, st: Redelivery.Regional)
    requires step.Validate? && Enabled(s, step) && step.now == ""
    requires st == Redelivery.Regional(step.locks, step.cap, Counters(s.cur, step.region), Docs(s.stores, step.region))
    requires step.vehicleBusy == Redelivery.VehicleBooked(st.docs, s.trips[step.id].vehicle)
    requires !Redelivery.Processed(st.docs, step.id)
    ensures var m, s' := RequestOf(step.id, s.trips[step.id], step.region), Apply(s, step);
            && Redelivery.Process(st, step.region, m)
               == st.(cur := Counters(s'.cur, step.region), docs := Docs(s'.stores, step.region))
            && Redelivery.Answer(st, m, true, |Redelivery.Keys(m)|, Redelivery.Stored) == Some(Answer(s, step).Yes?)
            && (Answer(s, step).Yes?
                <==> MessageSegments(m.segments) != [] && Redelivery.Acceptable(st, m))
  {
    var t := s.trips[step.id];
    var m := RequestOf(step.id, t, step.region);
    Redelivery.AcceptableIffApproved(st, m);
    if t.saga.None? && Usable(t, step.region) != [] {
      AppendOne(s.stores, step.id, t, Entry(step.region, Answer(s, step)), step.now);
    }
  }

  /** A cross-region journey with a leg that needs no segment in its region is never booked. */
  lemma {:induction false} EmptyLegNeverBooked(steps: seq<Step>, s: State, id: Id, r: Region)
    requires OrderlyRun(Init(), steps, s) && id in s.trips && s.trips[id].saga.Some?
    requires r in s.trips[id].involved && Usable(s.trips[id], r) == []
    ensures !s.trips[id].saga.value.status.Committed?
    ensures forall q :: FindOne(Docs(s.stores, q), id).Some? ==> !FindOne(Docs(s.stores, q), id).value.status.Booked?
  {
    InitConserved();
    RunConserves(Init(), steps, s);
    EmptyLegNeverCommits(s.trips[id], r);
    forall q ensures FindOne(Docs(s.stores, q), id).Some? ==> !FindOne(Docs(s.stores, q), id).value.status.Booked? {
      assert DocOk(s, id, q);
    }
  }
}
