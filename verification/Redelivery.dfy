/** At-least-once delivery to one region's validation service: `_validate_and_publish` in
    services/validation-service/main.py, one message after the other. `Handle` lets the duplicate
    check and the insert of the record fail, `Process` is the case without faults. */
module Redelivery {
  import opened Options
  import opened Lex
  import opened RegionalRedis
  import opened Bookings
  import opened Rebuild

  /** A booking request; `saga` says that it is one region's part of a cross-region booking. */
  datatype Request = Request(id: string, saga: bool, driver: string, vehicle: string, segments: seq<Segment>)

  /** What the service shares with the rest of its region. */
  datatype Regional = Regional(locks: set<Key>, cap: map<Key, int>, cur: map<Key, int>, docs: seq<Booking>)

  function Keys(m: Request): seq<Key> {
    Sort(KeysOf(MessageSegments(m.segments)))
  }

  predicate VehicleBooked(docs: seq<Booking>, vehicle: string) {
    exists i :: 0 <= i < |docs| && docs[i].vehicle == vehicle && Active(docs[i])
  }

  /** The duplicate check: a record with one of the three statuses the service itself writes. */
  predicate Processed(docs: seq<Booking>, id: string) {
    match FindOne(docs, id)
    case None => false
    case Some(b) => b.status.Booked? || b.status.Refused? || b.status.Waiting?
  }

  function Attempt(st: Regional, m: Request): Outcome {
    Decide(st.locks, st.cap, st.cur, Keys(m), VehicleBooked(st.docs, m.vehicle))
  }

  function RecordOf(m: Request, region: string, approved: bool): Booking {
    Booking(m.id, m.driver, m.vehicle, region, if approved then Booked else Refused, "", m.segments)
  }

  /** How the handling of a message ends: the record is stored; it is stored although the call
      raises; the insert fails; the worker dies before the insert. Approval or not, `counts` of the
      increments succeed: with fewer than the attempt needs, the next one raises (or the worker dies
      there). */
  datatype Fate = Stored | StoredUnheard | Lost | Dead

  /** The duplicate check finds the booking processed; if the lookup fails, the message is new. */
  predicate Skips(st: Regional, m: Request, lookup: bool) {
    lookup && Processed(st.docs, m.id)
  }

  /** An increment raises. */
  predicate Breaks(st: Regional, m: Request, counts: nat) {
    Attempt(st, m).Approved? && counts < |Keys(m)|
  }

  /** The effect of one message on counters and records; `lookup` says that the duplicate check got
      an answer. The counters stay incremented whatever happens afterwards. */
  function Handle(st: Regional, region: string, m: Request, lookup: bool, counts: nat, fate: Fate): Regional {
    if Skips(st, m, lookup) || MessageSegments(m.segments) == [] then st
    else
      var approved := Attempt(st, m).Approved?;
      var recorded := !m.saga && !Breaks(st, m, counts) && (fate.Stored? || fate.StoredUnheard?);
      Regional(st.locks, st.cap,
               if approved then Incremented(st.cur, FirstKeys(Keys(m), counts)) else st.cur,
               if recorded then st.docs + [RecordOf(m, region, approved)] else st.docs)
  }

  /** The published outcome, if there is one: whatever raises turns it into a refusal. */
  function Answer(st: Regional, m: Request, lookup: bool, counts: nat, fate: Fate): Option<bool> {
    if Skips(st, m, lookup) then None
    else if MessageSegments(m.segments) == [] then Some(false)
    else if fate.Dead? then None
    else Some(Attempt(st, m).Approved? && !Breaks(st, m, counts) && (m.saga || fate.Stored?))
  }

  function Process(st: Regional, region: string, m: Request): Regional {
    Handle(st, region, m, true, |Keys(m)|, Stored)
  }

  /** The request would be approved: distinct, unlocked, uncrowded segments and a free vehicle. */
  ghost predicate Acceptable(st: Regional, m: Request) {
    Admissible(st.locks, st.cap, st.cur, KeysOf(MessageSegments(m.segments))) && !VehicleBooked(st.docs, m.vehicle)
  }

  function ProcessAll(st: Regional, region: string, msgs: seq<Request>): Regional
    decreases msgs
  {
    if msgs == [] then st else ProcessAll(Process(st, region, msgs[0]), region, msgs[1..])
  }

  /** The messages without the repetitions of one-region requests; `seen` holds those that came
      before. */
  function FirstOnes(msgs: seq<Request>, seen: set<Request>): seq<Request>
    decreases msgs
  {
    if msgs == [] then []
    else if msgs[0] in seen && !msgs[0].saga then FirstOnes(msgs[1..], seen)
    else [msgs[0]] + FirstOnes(msgs[1..], seen + {msgs[0]})
  }

  /** A message that can be handled again without effect. */
  predicate Done(st: Regional, m: Request) {
    Processed(st.docs, m.id) || MessageSegments(m.segments) == []
  }

  /** The booking has no record, or one that was neither cancelled nor flagged. */
  predicate Untouched(docs: seq<Booking>, id: string) {
    match FindOne(docs, id)
    case None => true
    case Some(b) => !b.status.Cancelled? && !b.status.Flagged?
  }

  /** Handling any message keeps what is done done and what is untouched untouched. */
  lemma ProcessKeeps(st: Regional, region: string, m: Request, other: Request)
    ensures Done(st, other) ==> Done(Process(st, region, m), other)
    ensures Untouched(st.docs, other.id) ==> Untouched(Process(st, region, m).docs, other.id)
  {
    FindInserted(st.docs, RecordOf(m, region, true), other.id);
    FindInserted(st.docs, RecordOf(m, region, false), other.id);
  }

  lemma OnceDone(st: Regional, region: string, m: Request)
    requires !m.saga && Untouched(st.docs, m.id)
    ensures Done(Process(st, region, m), m)
  {
    FindInserted(st.docs, RecordOf(m, region, true), m.id);
    FindInserted(st.docs, RecordOf(m, region, false), m.id);
  }

  lemma {:induction false} SeenAreDone(st: Regional, region: string, msgs: seq<Request>, seen: set<Request>)
    requires forall m | m in seen && !m.saga :: Done(st, m)
    requires forall m | m in msgs && !m.saga :: Untouched(st.docs, m.id)
    ensures ProcessAll(st, region, msgs) == ProcessAll(st, region, FirstOnes(msgs, seen))
    decreases msgs
  {
    if msgs == [] {
    } else {
      var m, next := msgs[0], Process(st, region, msgs[0]);
      assert msgs == [m] + msgs[1..];
      forall o ensures Done(st, o) ==> Done(next, o)
               ensures Untouched(st.docs, o.id) ==> Untouched(next.docs, o.id) {
        ProcessKeeps(st, region, m, o);
      }
      if m in seen && !m.saga {
        assert next == st;
        SeenAreDone(st, region, msgs[1..], seen);
      } else {
        if !m.saga { OnceDone(st, region, m); }
        SeenAreDone(next, region, msgs[1..], seen + {m});
        var firsts := FirstOnes(msgs, seen);
        assert firsts[1..] == FirstOnes(msgs[1..], seen + {m});
      }
    }
  }

  /** Redelivery of one-region requests is harmless: however often and wherever they repeat, among
      any other requests, counters and records end as if each had come once. */
  lemma RedeliveryIsHarmless(st: Regional, region: string, msgs: seq<Request>)
    requires forall m | m in msgs && !m.saga :: Untouched(st.docs, m.id)
    ensures ProcessAll(st, region, msgs) == ProcessAll(st, region, FirstOnes(msgs, {}))
  {
    SeenAreDone(st, region, msgs, {});
  }

  lemma FirstOnesRepeatNothing(msgs: seq<Request>, seen: set<Request>, i: nat, j: nat)
    requires var firsts := FirstOnes(msgs, seen); i < j < |firsts| && !firsts[j].saga
    ensures var firsts := FirstOnes(msgs, seen); firsts[i] != firsts[j]
    decreases msgs
  {
    if msgs[0] in seen && !msgs[0].saga {
      FirstOnesRepeatNothing(msgs[1..], seen, i, j);
    } else if i > 0 {
      FirstOnesRepeatNothing(msgs[1..], seen + {msgs[0]}, i - 1, j - 1);
    } else {
      FirstOnesUnseen(msgs[1..], seen + {msgs[0]}, j - 1);
    }
  }

  lemma FirstOnesUnseen(msgs: seq<Request>, seen: set<Request>, i: nat)
    requires var firsts := FirstOnes(msgs, seen); i < |firsts| && !firsts[i].saga
    ensures FirstOnes(msgs, seen)[i] !in seen
    decreases msgs
  {
    if msgs[0] in seen && !msgs[0].saga {
      FirstOnesUnseen(msgs[1..], seen, i);
    } else if i > 0 {
      FirstOnesUnseen(msgs[1..], seen + {msgs[0]}, i - 1);
    }
  }

  // ---------------------------------------------------------------- exactly when twice is once

  /** A second delivery of a one-region request changes nothing exactly when the booking was not
      cancelled or flagged before the first, or has nothing to reserve. */
  lemma SingleTwiceIsOnceIff(st: Regional, region: string, m: Request)
    requires !m.saga
    ensures Process(Process(st, region, m), region, m) == Process(st, region, m)
            <==> Untouched(st.docs, m.id) || MessageSegments(m.segments) == []
  {
    FindInserted(st.docs, RecordOf(m, region, true), m.id);
    FindInserted(st.docs, RecordOf(m, region, false), m.id);
    if Untouched(st.docs, m.id) {
      OnceDone(st, region, m);
    } else if MessageSegments(m.segments) != [] {
      var once := Process(st, region, m);
      assert |Process(once, region, m).docs| == |once.docs| + 1;
    }
  }

  /** There is room for the request a second time after it took its first place. */
  predicate RoomForTwo(st: Regional, m: Request) {
    forall s | s in MessageSegments(m.segments) :: At(st.cur, KeyOf(s)) + 1 < At(st.cap, KeyOf(s))
  }

  lemma IncrementedByOne(cur: map<Key, int>, keys: seq<Key>, k: Key)
    requires Distinct(keys)
    ensures At(Incremented(cur, keys), k) == At(cur, k) + if k in keys then 1 else 0
  {
    IncrementedAt(cur, keys, k);
    DistinctCount(keys, k);
  }

  lemma RoomByKeys(st: Regional, m: Request)
    ensures RoomForTwo(st, m)
            <==> forall k | k in KeysOf(MessageSegments(m.segments)) :: At(st.cur, k) + 1 < At(st.cap, k)
  {
    var segs := MessageSegments(m.segments);
    var keys := KeysOf(segs);
    if RoomForTwo(st, m) {
      forall k | k in keys ensures At(st.cur, k) + 1 < At(st.cap, k) {
        var i :| 0 <= i < |keys| && keys[i] == k;
        assert segs[i] in segs;
      }
    }
    if forall k | k in keys :: At(st.cur, k) + 1 < At(st.cap, k) {
      forall s | s in segs ensures At(st.cur, KeyOf(s)) + 1 < At(st.cap, KeyOf(s)) {
        var i :| 0 <= i < |segs| && segs[i] == s;
        assert keys[i] in keys;
      }
    }
  }

  lemma CountedOnce(cur: map<Key, int>, keys: seq<Key>, k: Key)
    requires Distinct(keys) && k in keys
    ensures At(Incremented(cur, Sort(keys)), k) == At(cur, k) + 1
  {
    SortSorts(keys);
    SameMultisetSameDistinctness(keys, Sort(keys));
    assert k in multiset(keys) && k in multiset(Sort(keys));
    IncrementedByOne(cur, Sort(keys), k);
  }

  lemma SecondAttempt(st: Regional, m: Request)
    requires Attempt(st, m).Approved?
    ensures Attempt(st.(cur := Incremented(st.cur, Keys(m))), m).Approved? <==> RoomForTwo(st, m)
  {
    var segs := MessageSegments(m.segments);
    var keys, cur := KeysOf(segs), Incremented(st.cur, Keys(m));
    var busy := VehicleBooked(st.docs, m.vehicle);
    ApprovedIff(st.locks, st.cap, st.cur, segs, busy);
    ApprovedIff(st.locks, st.cap, cur, segs, busy);
    forall k | k in keys ensures At(cur, k) == At(st.cur, k) + 1 { CountedOnce(st.cur, keys, k); }
    RoomByKeys(st, m);
  }

  lemma CountersMove(cur: map<Key, int>, keys: seq<Key>)
    requires keys != []
    ensures Incremented(cur, keys) != cur
  {
    IncrementedAt(cur, keys, keys[0]);
    assert keys[0] in multiset(keys);
  }

  lemma AcceptableIffApproved(st: Regional, m: Request)
    ensures Acceptable(st, m) <==> Attempt(st, m).Approved?
  {
    ApprovedIff(st.locks, st.cap, st.cur, MessageSegments(m.segments), VehicleBooked(st.docs, m.vehicle));
  }

  /** A sub-booking is not recorded before its saga commits, so a second delivery before that takes
      a second place: it is harmless exactly when the first is skipped or not acceptable, or there is
      no room for two. */
  lemma SagaTwiceIsOnceIff(st: Regional, region: string, m: Request)
    requires m.saga && MessageSegments(m.segments) != []
    ensures Process(Process(st, region, m), region, m) == Process(st, region, m)
            <==> Processed(st.docs, m.id) || !Acceptable(st, m) || !RoomForTwo(st, m)
  {
    AcceptableIffApproved(st, m);
    if !Processed(st.docs, m.id) && Attempt(st, m).Approved? {
      SecondAttempt(st, m);
      var once := Process(st, region, m);
      assert once == st.(cur := Incremented(st.cur, Keys(m)));
      SortSorts(KeysOf(MessageSegments(m.segments)));
      CountersMove(once.cur, Keys(m));
    }
  }

  /** A region with one lane and nothing booked. */
  function EmptyLane(capacity: nat): Regional {
    Regional({}, map[KeyOf(LANE) := capacity], map[], [])
  }

  function LaneRequest(saga: bool): Request {
    Request("booking", saga, "driver", "vehicle", [LANE])
  }

  /** One sub-booking delivered twice to a lane of capacity two fills it. */
  lemma SagaRedeliveryFillsLane(region: string)
    ensures var st, m := EmptyLane(2), LaneRequest(true);
            && At(Process(st, region, m).cur, KeyOf(LANE)) == 1
            && At(Process(Process(st, region, m), region, m).cur, KeyOf(LANE)) == 2
  {
    var st, m := EmptyLane(2), LaneRequest(true);
    LaneKeys();
    LaneAttempt(st.cap, st.cur, false);
    LaneAttempt(st.cap, Process(st, region, m).cur, false);
  }

  // ---------------------------------------------------------------- a record for every reservation

  /** The handling moved counters and records of the region together. */
  ghost predicate Together(st: Regional, st': Regional, region: string) {
    forall k {:trigger At(st'.cur, k)} ::
      Occupancy(st'.docs, region, k) - Occupancy(st.docs, region, k) == At(st'.cur, k) - At(st.cur, k)
  }

  lemma OccupancyOfRecord(docs: seq<Booking>, m: Request, region: string, approved: bool, k: Key)
    ensures Occupancy(docs + [RecordOf(m, region, approved)], region, k)
            == Occupancy(docs, region, k) + if approved then Uses(m.segments, k) else 0
  {
    var b := RecordOf(m, region, approved);
    assert (docs + [b])[..|docs|] == docs;
  }

  lemma CountersOfRecord(cur: map<Key, int>, m: Request, k: Key)
    ensures At(Incremented(cur, Keys(m)), k) == At(cur, k) + Uses(m.segments, k)
  {
    SortSorts(KeysOf(MessageSegments(m.segments)));
    IncrementedAt(cur, Keys(m), k);
  }

  lemma UsesSomething(m: Request) returns (k: Key)
    requires MessageSegments(m.segments) != []
    ensures Uses(m.segments, k) > 0
  {
    var keys := KeysOf(MessageSegments(m.segments));
    k := keys[0];
    assert k in multiset(keys);
  }

  /** "No reservation without a record": handling a one-region request moves counters and records
      together exactly when its record is stored, or the request is not acceptable anyway, or nothing
      was counted before the fault. */
  lemma RecordForReservationIff(st: Regional, region: string, m: Request, lookup: bool, counts: nat, fate: Fate)
    requires !m.saga && !Skips(st, m, lookup) && MessageSegments(m.segments) != []
    ensures Together(st, Handle(st, region, m, lookup, counts, fate), region)
            <==> || !Acceptable(st, m) || counts == 0
                 || (counts >= |Keys(m)| && (fate.Stored? || fate.StoredUnheard?))
  {
    var st', approved := Handle(st, region, m, lookup, counts, fate), Attempt(st, m).Approved?;
    AcceptableIffApproved(st, m);
    KeysOfSegments(m);
    if !approved || (counts >= |Keys(m)| && (fate.Stored? || fate.StoredUnheard?)) {
      forall k
        ensures Occupancy(st'.docs, region, k) - Occupancy(st.docs, region, k) == At(st'.cur, k) - At(st.cur, k)
      {
        OccupancyOfRecord(st.docs, m, region, approved, k);
        CountersOfRecord(st.cur, m, k);
      }
    } else if counts > 0 {
      var k := FirstKeys(Keys(m), counts)[0];
      IncrementedAt(st.cur, FirstKeys(Keys(m), counts), k);
      assert k in multiset(FirstKeys(Keys(m), counts));
      assert At(st'.cur, k) != At(st.cur, k);
    }
  }

  lemma KeysOfSegments(m: Request)
    ensures |Keys(m)| == |MessageSegments(m.segments)|
  {
    SortSorts(KeysOf(MessageSegments(m.segments)));
  }

  /** After a lost record the driver hears a refusal while the reservation stays; when the request
      comes again it is counted a second time if there is room for two, and refused (and recorded as
      refused) by its own first reservation otherwise. Either way one reservation has no record. */
  lemma RedeliveryAfterLostRecord(st: Regional, region: string, m: Request)
    requires !m.saga && !Processed(st.docs, m.id) && MessageSegments(m.segments) != [] && Acceptable(st, m)
    ensures Answer(st, m, true, |Keys(m)|, Lost) == Some(false)
    ensures var again := Process(Handle(st, region, m, true, |Keys(m)|, Lost), region, m);
            && again.docs == st.docs + [RecordOf(m, region, RoomForTwo(st, m))]
            && forall k :: At(again.cur, k) == At(st.cur, k)
                + (if RoomForTwo(st, m) then 2 else 1) * Uses(m.segments, k)
  {
    AcceptableIffApproved(st, m);
    SecondAttempt(st, m);
    var lost := Handle(st, region, m, true, |Keys(m)|, Lost);
    assert lost == st.(cur := Incremented(st.cur, Keys(m)));
    forall k
      ensures At(Process(lost, region, m).cur, k)
              == At(st.cur, k) + (if RoomForTwo(st, m) then 2 else 1) * Uses(m.segments, k)
    {
      CountersOfRecord(st.cur, m, k);
      CountersOfRecord(lost.cur, m, k);
    }
  }

  lemma BookedNow(docs: seq<Booking>, m: Request, region: string)
    ensures VehicleBooked(docs + [RecordOf(m, region, true)], m.vehicle)
    ensures VehicleBooked(docs + [RecordOf(m, region, false)], m.vehicle) <==> VehicleBooked(docs, m.vehicle)
  {
    assert (docs + [RecordOf(m, region, true)])[|docs|].vehicle == m.vehicle;
    var more := docs + [RecordOf(m, region, false)];
    if VehicleBooked(docs, m.vehicle) {
      var i :| 0 <= i < |docs| && docs[i].vehicle == m.vehicle && Active(docs[i]);
      assert more[i] == docs[i];
    }
    if VehicleBooked(more, m.vehicle) {
      var i :| 0 <= i < |more| && more[i].vehicle == m.vehicle && Active(more[i]);
      assert docs[i] == more[i];
    }
  }

  /** A one-region request that comes again while the duplicate lookup fails is never reserved twice:
      its own record makes the vehicle busy. It only leaves a second, refused record. */
  lemma FailedLookupNeverDoubles(st: Regional, region: string, m: Request)
    requires !m.saga && !Processed(st.docs, m.id) && MessageSegments(m.segments) != []
    ensures var once := Process(st, region, m);
            Handle(once, region, m, false, |Keys(m)|, Stored) == once.(docs := once.docs + [RecordOf(m, region, false)])
  {
    var once := Process(st, region, m);
    BookedNow(st.docs, m, region);
    AcceptableIffApproved(st, m);
    AcceptableIffApproved(once, m);
  }

  /** On an empty lane of capacity one: the insert fails, the answer is a refusal, no record exists,
      the lane is full. */
  lemma LostRecordBlocksLane(region: string)
    ensures var st, m := EmptyLane(1), LaneRequest(false);
            var after := Handle(st, region, m, true, 1, Lost);
            && Answer(st, m, true, 1, Lost) == Some(false) && after.docs == []
            && At(after.cur, KeyOf(LANE)) == 1 && !Together(st, after, region)
  {
    var st, m := EmptyLane(1), LaneRequest(false);
    LaneKeys();
    LaneAttempt(st.cap, st.cur, false);
    AcceptableIffApproved(st, m);
    RecordForReservationIff(st, region, m, true, 1, Lost);
  }

  // ---------------------------------------------------------------- what the driver hears

  /** The message gets past the duplicate check and names a segment with both ends. */
  predicate Considered(st: Regional, m: Request, lookup: bool) {
    && !(lookup && FindOne(st.docs, m.id).Some? && Untouched(st.docs, m.id))
    && exists i :: 0 <= i < |m.segments| && BothEnds(m.segments[i])
  }

  predicate BothEnds(s: Segment) {
    s.from != "" && s.to != ""
  }

  lemma {:induction false} UsableIff(segments: seq<Segment>)
    ensures MessageSegments(segments) != [] <==> exists i :: 0 <= i < |segments| && BothEnds(segments[i])
  {
    if segments == [] {
    } else {
      UsableIff(segments[1..]);
      if i :| 0 <= i < |segments| && BothEnds(segments[i]) {
        if i > 0 { assert BothEnds(segments[1..][i - 1]); }
      }
      if BothEnds(segments[0]) {
      } else if i :| 0 <= i < |segments[1..]| && BothEnds(segments[1..][i]) {
        assert segments[i + 1] == segments[1..][i];
      }
    }
  }

  /** The request was reserved whole: it was acceptable and no increment raised. */
  ghost predicate Reserved(st: Regional, m: Request, counts: nat) {
    Acceptable(st, m) && counts >= |MessageSegments(m.segments)|
  }

  /** An approval is published exactly for a considered request that was reserved whole, by a worker
      that lives, and whose record is stored if it is not part of a saga. */
  ghost predicate ApprovalExact(st: Regional, m: Request, lookup: bool, counts: nat, fate: Fate, answer: Option<bool>) {
    answer == Some(true)
    <==> Considered(st, m, lookup) && Reserved(st, m, counts) && !fate.Dead? && (m.saga || fate.Stored?)
  }

  /** Nothing is published exactly for a processed booking and by a worker that dies on a request. */
  ghost predicate SilenceExact(st: Regional, m: Request, lookup: bool, fate: Fate, answer: Option<bool>) {
    answer == None
    <==> || (lookup && FindOne(st.docs, m.id).Some? && Untouched(st.docs, m.id))
         || (Considered(st, m, lookup) && fate.Dead?)
  }

  /** A record is inserted exactly for a considered one-region request whose insert does not fail and
      whose increments did not raise. It carries the request, and is approved exactly when the
      request was reserved. */
  ghost predicate RecordExact(st: Regional, st': Regional, region: string, m: Request, lookup: bool, counts: nat,
      fate: Fate)
  {
    if Considered(st, m, lookup) && !m.saga && (fate.Stored? || fate.StoredUnheard?)
       && (Acceptable(st, m) ==> Reserved(st, m, counts)) then
      && |st'.docs| == |st.docs| + 1 && st.docs <= st'.docs
      && var b := st'.docs[|st.docs|];
         && b.id == m.id && b.driver == m.driver && b.vehicle == m.vehicle && b.segments == m.segments
         && b.region == region && b.status == if Reserved(st, m, counts) then Booked else Refused
    else st'.docs == st.docs
  }

  /** A considered, acceptable request is counted once per use of a segment if no increment raises,
      and never more; nothing else is counted, and locks and capacities stay. */
  ghost predicate CountsExact(st: Regional, st': Regional, m: Request, lookup: bool, counts: nat) {
    && st'.locks == st.locks && st'.cap == st.cap
    && forall k {:trigger At(st'.cur, k)} ::
         if Considered(st, m, lookup) && Acceptable(st, m) then
           && At(st.cur, k) <= At(st'.cur, k) <= At(st.cur, k) + Uses(m.segments, k)
           && (Reserved(st, m, counts) ==> At(st'.cur, k) == At(st.cur, k) + Uses(m.segments, k))
         else At(st'.cur, k) == At(st.cur, k)
  }

  lemma SkipsIff(st: Regional, m: Request, lookup: bool)
    ensures Skips(st, m, lookup) <==> lookup && FindOne(st.docs, m.id).Some? && Untouched(st.docs, m.id)
    ensures Considered(st, m, lookup) <==> !Skips(st, m, lookup) && MessageSegments(m.segments) != []
  {
    UsableIff(m.segments);
  }

  lemma AnswerExact(st: Regional, m: Request, lookup: bool, counts: nat, fate: Fate)
    ensures ApprovalExact(st, m, lookup, counts, fate, Answer(st, m, lookup, counts, fate))
    ensures SilenceExact(st, m, lookup, fate, Answer(st, m, lookup, counts, fate))
  {
    SkipsIff(st, m, lookup);
    AcceptableIffApproved(st, m);
    KeysOfSegments(m);
  }

  lemma CountsWithin(keys: seq<Key>, n: nat, k: Key)
    ensures multiset(FirstKeys(keys, n))[k] <= multiset(keys)[k]
  {
    if n < |keys| { assert keys == keys[..n] + keys[n..]; }
  }

  lemma HandleExact(st: Regional, region: string, m: Request, lookup: bool, counts: nat, fate: Fate)
    ensures var st' := Handle(st, region, m, lookup, counts, fate);
            RecordExact(st, st', region, m, lookup, counts, fate) && CountsExact(st, st', m, lookup, counts)
  {
    SkipsIff(st, m, lookup);
    AcceptableIffApproved(st, m);
    KeysOfSegments(m);
    var st' := Handle(st, region, m, lookup, counts, fate);
    if Considered(st, m, lookup) && Acceptable(st, m) {
      forall k
        ensures At(st.cur, k) <= At(st'.cur, k) <= At(st.cur, k) + Uses(m.segments, k)
        ensures Reserved(st, m, counts) ==> At(st'.cur, k) == At(st.cur, k) + Uses(m.segments, k)
      {
        IncrementedAt(st.cur, FirstKeys(Keys(m), counts), k);
        CountsWithin(Keys(m), counts, k);
        SortSorts(KeysOf(MessageSegments(m.segments)));
      }
    }
  }

  // ---------------------------------------------------------------- on a Redis just seeded

  lemma {:induction false} MessageSegmentsHaveEnds(segments: seq<Segment>, s: Segment)
    ensures s in MessageSegments(segments) <==> s in segments && BothEnds(s)
  {
    if segments == [] {
    } else {
      assert segments == [segments[0]] + segments[1..];
      MessageSegmentsHaveEnds(segments[1..], s);
    }
  }

  lemma SeededAt(edges: seq<RoadDoc>, cap: map<Key, int>, cur: map<Key, int>, k: Key)
    requires FilledIn(map[], cap, edges, CapacityOf) && FilledIn(map[], cur, edges, NothingOf)
    ensures At(cur, k) == 0 && (At(cap, k) > 0 <==> Listed(edges, k))
  {
    FirstAndLast(edges, k);
    assert k in cur ==> Holds(cur, k, cur[k]);
    assert k in cap ==> Holds(cap, k, cap[k]);
    if i: nat :| LeadsFirst(edges, i, k) { assert Holds(cap, k, CapacityOf(edges[i])); }
  }

  /** On an empty Redis just seeded, a request is acceptable exactly when its vehicle is free and its
      usable segments differ and each is an edge of the region in the direction of travel. */
  lemma SeededAcceptsIff(edges: seq<RoadDoc>, cap: map<Key, int>, cur: map<Key, int>, docs: seq<Booking>, m: Request)
    requires FilledIn(map[], cap, edges, CapacityOf) && FilledIn(map[], cur, edges, NothingOf)
    ensures Acceptable(Regional({}, cap, cur, docs), m)
            <==> && Distinct(KeysOf(MessageSegments(m.segments))) && !VehicleBooked(docs, m.vehicle)
                 && forall s | s in m.segments && BothEnds(s) :: Listed(edges, s.from + ":" + s.to)
  {
    var segs := MessageSegments(m.segments);
    var keys := KeysOf(segs);
    forall k ensures At(cur, k) == 0 && (At(cap, k) > 0 <==> Listed(edges, k)) { SeededAt(edges, cap, cur, k); }
    forall s ensures s in segs <==> s in m.segments && BothEnds(s) { MessageSegmentsHaveEnds(m.segments, s); }
    if forall s | s in m.segments && BothEnds(s) :: Listed(edges, s.from + ":" + s.to) {
      forall k | k in keys ensures Listed(edges, k) {
        var i :| 0 <= i < |keys| && keys[i] == k;
        assert segs[i] in segs;
      }
    }
    if Acceptable(Regional({}, cap, cur, docs), m) {
      forall s | s in m.segments && BothEnds(s) ensures Listed(edges, s.from + ":" + s.to) {
        var i :| 0 <= i < |segs| && segs[i] == s;
        assert keys[i] in keys;
      }
    }
  }

  /** The request is acceptable exactly as long as `k` has fewer than `places` reservations. */
  ghost predicate AdmitsUpTo(st: Regional, m: Request, k: Key, places: nat) {
    Acceptable(st, m) <==> At(st.cur, k) < places && !VehicleBooked(st.docs, m.vehicle)
  }

  /** Edge `i` decides the capacity of `k`: the first edge when seeding, the last when rebuilding. */
  ghost predicate Decides(edges: seq<RoadDoc>, cap: map<Key, int>, i: nat, k: Key) {
    || (FilledIn(map[], cap, edges, CapacityOf) && LeadsFirst(edges, i, k))
    || (LeadsLast(edges, i, k) && exists before :: Overwritten(before, cap, edges, CapacityOf))
  }

  const NAMED_ROADS: set<string> := {
    "motorway", "motorway_link", "trunk", "trunk_link", "primary", "primary_link", "secondary", "secondary_link",
    "tertiary", "tertiary_link", "track"}

  /** How many reservations a segment takes by the type of its road. */
  lemma PlacesByRoadType(edges: seq<RoadDoc>, i: nat, st: Regional, m: Request, k: Key)
    requires Decides(edges, st.cap, i, k) && st.locks == {} && m.segments == [Segment(edges[i].from, edges[i].to)]
    ensures edges[i].roadType == "motorway" ==> AdmitsUpTo(st, m, k, 200)
    ensures edges[i].roadType == "motorway_link" ==> AdmitsUpTo(st, m, k, 100)
    ensures edges[i].roadType == "trunk" ==> AdmitsUpTo(st, m, k, 150)
    ensures edges[i].roadType == "trunk_link" ==> AdmitsUpTo(st, m, k, 75)
    ensures edges[i].roadType == "primary" ==> AdmitsUpTo(st, m, k, 100)
    ensures edges[i].roadType == "primary_link" ==> AdmitsUpTo(st, m, k, 50)
    ensures edges[i].roadType == "secondary" ==> AdmitsUpTo(st, m, k, 75)
    ensures edges[i].roadType == "secondary_link" ==> AdmitsUpTo(st, m, k, 40)
    ensures edges[i].roadType == "tertiary" ==> AdmitsUpTo(st, m, k, 50)
    ensures edges[i].roadType == "tertiary_link" ==> AdmitsUpTo(st, m, k, 25)
    ensures edges[i].roadType == "track" ==> AdmitsUpTo(st, m, k, 1)
    ensures edges[i].roadType !in NAMED_ROADS ==> AdmitsUpTo(st, m, k, 100)
  {
    PlacesOfEdge(edges, i, st, m, k);
  }

  lemma PlacesOfEdge(edges: seq<RoadDoc>, i: nat, st: Regional, m: Request, k: Key)
    requires Decides(edges, st.cap, i, k) && st.locks == {} && m.segments == [Segment(edges[i].from, edges[i].to)]
    ensures AdmitsUpTo(st, m, k, RoadCapacity(edges[i].roadType))
  {
    OneSegment(m);
    assert Holds(st.cap, k, CapacityOf(edges[i]));
  }

  lemma OneSegment(m: Request)
    requires |m.segments| == 1 && BothEnds(m.segments[0])
    ensures KeysOf(MessageSegments(m.segments)) == [m.segments[0].from + ":" + m.segments[0].to]
  {
    assert MessageSegments(m.segments[1..]) == [];
    assert MessageSegments(m.segments) == [m.segments[0]];
  }

  // ---------------------------------------------------------------- the handler

  class ValidationService {
    const region: string
    const redis: RegionRedis
    const store: BookingStore

    constructor (region: string, redis: RegionRedis, store: BookingStore)
      ensures this.region == region && this.redis == redis && this.store == store
    {
      this.region, this.redis, this.store := region, redis, store;
    }

    ghost function View(): Regional
      reads redis, store
    {
      Regional(redis.locks, redis.cap, redis.cur, store.all)
    }

    /** The duplicate check; a lookup that fails finds nothing. */
    method IsProcessed(id: string, lookup: bool) returns (skip: bool)
      requires store.Valid()
      ensures skip <==> lookup && Processed(store.all, id)
    {
      if !lookup {
        return false;
      }
      var existing := store.GetBookingById(id);
      if existing.None? {
        return false;
      }
      var status := existing.value.status;
      skip := status.Booked? || status.Refused? || status.Waiting?;
    }

    method VehicleIsBooked(vehicle: string) returns (busy: bool)
      requires store.Valid()
      ensures busy <==> VehicleBooked(store.all, vehicle)
    {
      var active := store.GetVehicleBooking(vehicle);
      BookedVehicle(store.all, vehicle);
      busy := active.Some?;
    }

    /** `_validate_and_publish`; the result is the outcome message, if one is published. */
    method ValidateAndPublish(m: Request, lookup: bool, counts: nat, fate: Fate) returns (answer: Option<bool>)
      requires store.Valid()
      modifies redis, store
      ensures store.Valid()
      ensures View() == Handle(old(View()), region, m, lookup, counts, fate)
      ensures answer == Answer(old(View()), m, lookup, counts, fate)
      ensures ApprovalExact(old(View()), m, lookup, counts, fate, answer)
      ensures SilenceExact(old(View()), m, lookup, fate, answer)
      ensures RecordExact(old(View()), View(), region, m, lookup, counts, fate)
      ensures CountsExact(old(View()), View(), m, lookup, counts)
      ensures !m.saga && fate.Stored? && |store.all| > |old(store.all)| ==>
                answer == Some(store.all[|store.all| - 1].status.Booked?)
    {
      AnswerExact(View(), m, lookup, counts, fate);
      HandleExact(View(), region, m, lookup, counts, fate);
      var skip := IsProcessed(m.id, lookup);
      if skip {
        return None;
      }
      var segments := MessageSegments(m.segments);
      if segments == [] {
        return Some(false);
      }
      var busy := VehicleIsBooked(m.vehicle);
      var outcome := redis.ValidateAndReserve(segments, busy, counts);
      if outcome.Some? && !m.saga && (fate.Stored? || fate.StoredUnheard?) {
        store.InsertBooking(RecordOf(m, region, outcome.value.Approved?));
      }
      if fate.Dead? {
        return None;
      }
      answer := Some(outcome.Some? && outcome.value.Approved? && (m.saga || fate.Stored?));
    }
  }

  lemma BookedVehicle(docs: seq<Booking>, vehicle: string)
    ensures VehicleBooked(docs, vehicle) <==> exists b :: b in docs && b.vehicle == vehicle && Active(b)
  {
    if VehicleBooked(docs, vehicle) {
      var i :| 0 <= i < |docs| && docs[i].vehicle == vehicle && Active(docs[i]);
      assert docs[i] in docs;
    }
  }
}
