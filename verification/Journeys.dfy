/** Whole journeys across regions, from the request to its reservation, saga, records,
    cancellation and releases, in fault-free runs: every message is consumed exactly once, a
    validation, a coordinator call and a cancellation are single steps, and only approved
    bookings are cancelled. This module says what one journey can look like at any moment;
    Conservation.dfy puts all journeys of all regions together. */
module Journeys {
  import opened Options
  import opened Lex
  import opened RegionalRedis
  import opened Bookings
  import opened Saga

  /** One journey. A cross-region journey has a saga; a journey inside one region has not, and
      its record is written by the validation service. `requests`, `answers` and `releases` are
      the messages on the three topics that nobody has consumed yet. `held` (the regions whose
      counters include this journey) and `cancelled` only serve the statements. */
  datatype Trip = Trip(
    involved: seq<Region>, legs: map<Region, seq<Segment>>, driver: string, vehicle: string,
    requests: multiset<Region>, answers: multiset<Entry>, releases: multiset<Region>,
    saga: Option<World>, record: Option<Bookings.Status>, held: set<Region>, cancelled: bool)

  function Leg(t: Trip, r: Region): seq<Segment> {
    if r in t.legs then t.legs[r] else []
  }

  /** The segments of a leg that are reserved and released. */
  function Usable(t: Trip, r: Region): seq<Segment> {
    MessageSegments(Leg(t, r))
  }

  /** A journey as `create_saga`, or the publication of a one-region request, starts it. */
  function NewTrip(involved: seq<Region>, legs: map<Region, seq<Segment>>, driver: string, vehicle: string,
      cross: bool): Trip {
    Trip(involved, legs, driver, vehicle, multiset(involved), multiset{}, multiset{},
         if cross then Some(StartWorld(involved)) else None, None, {}, false)
  }

  /** The status of the booking record that region `r` holds for the journey, if there is one. */
  function StatusOf(t: Trip, r: Region): Option<Bookings.Status> {
    if r !in t.involved then None
    else if t.cancelled then Some(Cancelled)
    else match t.saga
      case None => t.record
      case Some(w) =>
        if w.status.Committed? then Some(Booked) else if w.status.Aborted? then Some(Refused) else None
  }

  // ---------------------------------------------------------------- what the steps do to a journey

  /** `_validate_and_publish`: the reservation, and the answer or the record. */
  function Validated(t: Trip, r: Region, v: Verdict): Trip {
    var asked := t.(requests := t.requests - multiset{r}, held := if v.Yes? then t.held + {r} else t.held);
    if t.saga.Some? then asked.(answers := t.answers + multiset{Entry(r, v)})
    else if Usable(t, r) == [] then asked
    else asked.(record := Some(if v.Yes? then Booked else Refused))
  }

  function Suffix<T>(a: seq<T>, b: seq<T>): seq<T> {
    if |a| <= |b| then b[|a|..] else []
  }

  function ReleasedRegions(log: seq<Message>): multiset<Region> {
    if log == [] then multiset{}
    else (if log[0].Release? then multiset{log[0].region} else multiset{}) + ReleasedRegions(log[1..])
  }

  /** `_advance_saga` for one answer. */
  function Advanced(t: Trip, e: Entry): Trip
    requires t.saga.Some?
  {
    var w := Advance(t.saga.value, e.region, e.verdict);
    t.(answers := t.answers - multiset{e}, saga := Some(w),
       releases := t.releases + ReleasedRegions(Suffix(t.saga.value.log, w.log)))
  }

  /** `cancel_journey`: one release per involved region. */
  function CancelledTrip(t: Trip): Trip {
    t.(cancelled := true, releases := t.releases + multiset(t.involved))
  }

  /** `_release_capacity` in the target region. */
  function Delivered(t: Trip, r: Region): Trip {
    t.(releases := t.releases - multiset{r}, held := t.held - {r})
  }

  // ---------------------------------------------------------------- what a journey can look like

  ghost predicate Unanswered(t: Trip, r: Region) {
    t.answers[Entry(r, Yes)] == 0 && t.answers[Entry(r, No)] == 0
  }

  ghost predicate Unrecorded(w: World, r: Region) {
    Entry(r, Yes) !in w.outcomes && Entry(r, No) !in w.outcomes
  }

  ghost predicate Asked(t: Trip, w: World, r: Region) {
    t.requests[r] == 1 && Unanswered(t, r) && Unrecorded(w, r) && r !in t.held
  }

  ghost predicate Answering(t: Trip, w: World, r: Region, v: Verdict) {
    && t.requests[r] == 0 && t.answers[Entry(r, v)] == 1 && t.answers[Entry(r, if v.Yes? then No else Yes)] == 0
    && Unrecorded(w, r) && (r in t.held <==> v.Yes?)
  }

  ghost predicate Heard(t: Trip, w: World, r: Region, v: Verdict) {
    t.requests[r] == 0 && Unanswered(t, r) && Entry(r, v) in w.outcomes
  }

  /** A reservation that has been given up is still counted exactly while its release travels. */
  ghost predicate GivingBack(t: Trip, r: Region) {
    t.releases[r] == if r in t.held then 1 else 0
  }

  ghost predicate CrossLegOk(t: Trip, w: World, r: Region) {
    match w.status
    case Pending =>
      t.releases[r] == 0 &&
      (Asked(t, w, r) || Answering(t, w, r, Yes) || Answering(t, w, r, No)
       || (Heard(t, w, r, Yes) && r in t.held) || (Heard(t, w, r, No) && r !in t.held))
    case Aborted => (Heard(t, w, r, Yes) || (Heard(t, w, r, No) && r !in t.held)) && GivingBack(t, r)
    case Committed =>
      Heard(t, w, r, Yes) && if t.cancelled then GivingBack(t, r) else r in t.held && t.releases[r] == 0
    case Aborting => false
    case Failed => false
  }

  ghost predicate SingleLegOk(t: Trip, r: Region) {
    Unanswered(t, r) &&
    if t.requests[r] == 1 then r !in t.held && t.releases[r] == 0 && t.record.None? && !t.cancelled
    else
      && t.requests[r] == 0
      && (if t.cancelled then t.record == Some(Booked) && GivingBack(t, r)
          else t.releases[r] == 0 && (r in t.held <==> t.record == Some(Booked)))
      && (t.record.None? ==> Usable(t, r) == [])
  }

  ghost predicate LegOk(t: Trip, r: Region) {
    && (r !in t.involved ==> t.requests[r] == 0 && Unanswered(t, r) && t.releases[r] == 0 && r !in t.held)
    && (r in t.involved ==> if t.saga.Some? then CrossLegOk(t, t.saga.value, r) else SingleLegOk(t, r))
    && (r in t.held || t.answers[Entry(r, Yes)] > 0 ==> Usable(t, r) != [])
    && (t.saga.Some? && Entry(r, Yes) in t.saga.value.outcomes ==> Usable(t, r) != [])
  }

  ghost predicate SagaOk(t: Trip, w: World) {
    && w.involved == t.involved && UniqueRegions(w.outcomes)
    && (forall e | e in w.outcomes :: e.region in t.involved)
    && (w.status.Pending? ==> !Complete(w.involved, w.outcomes) && w.log == [] && w.own == [])
    && (t.cancelled ==> w.status.Committed?)
  }

  ghost predicate TripOk(t: Trip) {
    && Distinct(t.involved) && t.involved != []
    && (t.saga.None? ==> |t.involved| == 1 && (t.record.Some? ==> t.record.value.Booked? || t.record.value.Refused?))
    && (t.saga.Some? ==> SagaOk(t, t.saga.value) && t.record.None?)
    && forall r :: LegOk(t, r)
  }

  lemma NewTripOk(involved: seq<Region>, legs: map<Region, seq<Segment>>, driver: string, vehicle: string, cross: bool)
    requires Distinct(involved) && involved != [] && (!cross ==> |involved| == 1)
    ensures TripOk(NewTrip(involved, legs, driver, vehicle, cross))
  {
    var t := NewTrip(involved, legs, driver, vehicle, cross);
    forall r ensures LegOk(t, r) { DistinctCount(involved, r); }
    if cross {
      assert involved[0] in involved;
      assert !Has(t.saga.value.outcomes, involved[0]);
    }
  }

  lemma {:induction false} ValidatedOther(t: Trip, r: Region, v: Verdict, q: Region)
    requires LegOk(t, q) && q != r && (t.saga.Some? || q !in t.involved)
    ensures LegOk(Validated(t, r, v), q)
  {
    var t' := Validated(t, r, v);
    assert t'.requests[q] == t.requests[q] && (q in t'.held <==> q in t.held);
    assert t'.answers[Entry(q, Yes)] == t.answers[Entry(q, Yes)] && t'.answers[Entry(q, No)] == t.answers[Entry(q, No)];
  }

  /** A region answers once, and what it approves was not counted before. */
  lemma {:induction false} ValidateKeeps(t: Trip, r: Region, v: Verdict)
    requires TripOk(t) && t.requests[r] > 0 && (v.Yes? ==> Usable(t, r) != [])
    ensures TripOk(Validated(t, r, v)) && r in t.involved && r !in t.held && StatusOf(t, r).None?
  {
    assert LegOk(t, r);
    if t.saga.None? { assert t.involved == [r]; }
    var t' := Validated(t, r, v);
    forall q ensures LegOk(t', q) {
      assert LegOk(t, q);
      if q != r { ValidatedOther(t, r, v, q); }
    }
  }

  lemma {:induction false} DeliverKeeps(t: Trip, r: Region)
    requires TripOk(t) && t.releases[r] > 0
    ensures TripOk(Delivered(t, r)) && r in t.held
  {
    assert LegOk(t, r);
    var t' := Delivered(t, r);
    forall q ensures LegOk(t', q) { assert LegOk(t, q); }
  }

  lemma {:induction false} CancelKeeps(t: Trip, r: Region)
    requires TripOk(t) && StatusOf(t, r) == Some(Booked)
    ensures TripOk(CancelledTrip(t))
    ensures forall q | q in t.involved :: StatusOf(t, q) == Some(Booked)
  {
    assert LegOk(t, r);
    var t' := CancelledTrip(t);
    forall q ensures LegOk(t', q) {
      assert LegOk(t, q);
      DistinctCount(t.involved, q);
    }
    forall q | q in t.involved ensures StatusOf(t, q) == Some(Booked) {
      if t.saga.None? { assert t.involved == [r] && q == r; }
    }
  }

  // ---------------------------------------------------------------- the end of a journey

  /** Nothing about the journey is on its way. */
  ghost predicate Quiet(t: Trip) {
    t.requests == multiset{} && t.answers == multiset{} && t.releases == multiset{}
  }

  /** A quiet journey is decided, and it is counted in all of its regions or in none. */
  lemma {:induction false} QuietIsSettled(t: Trip, r: Region)
    requires TripOk(t) && Quiet(t)
    ensures r in t.held <==> StatusOf(t, r) == Some(Booked)
    ensures t.saga.Some? ==> t.saga.value.status.Committed? || t.saga.value.status.Aborted?
  {
    assert LegOk(t, r);
    if t.saga.Some? {
      var w := t.saga.value;
      forall q | q in w.involved && w.status.Pending? ensures Has(w.outcomes, q) {
        assert LegOk(t, q);
        HasEntry(w.outcomes, q);
      }
      assert LegOk(t, t.involved[0]);
    }
  }

  /** A journey with a leg that has no usable segment is never committed: the region refuses it,
      even when the leg is empty because the journey already starts at the gateway. */
  lemma EmptyLegNeverCommits(t: Trip, r: Region)
    requires TripOk(t) && t.saga.Some? && r in t.involved && Usable(t, r) == []
    ensures !t.saga.value.status.Committed? && forall q :: StatusOf(t, q) != Some(Booked)
  {
    assert LegOk(t, r);
  }
}
