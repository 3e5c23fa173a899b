/** The result of a saga does not depend on the order, the repetition or the company of the
    regional outcomes. */
module SagaConfluence {
  import opened Saga

  type SagaId = string

  /** An outcome on the booking-outcomes topic. */
  datatype Event = Event(saga: SagaId, region: Region, verdict: Verdict)

  /** The verdict each region gives, whenever it is asked. */
  type Answers = Region -> Verdict

  function AdvanceAll(w: World, msgs: seq<Entry>): World
    decreases msgs
  {
    if msgs == [] then w else AdvanceAll(Advance(w, msgs[0].region, msgs[0].verdict), msgs[1..])
  }

  function Decision(involved: seq<Region>, v: Answers): Status {
    if forall r | r in involved :: v(r).Yes? then Committed else Aborted
  }

  predicate Consistent(involved: seq<Region>, v: Answers, e: Entry) {
    e.region in involved && e.verdict == v(e.region)
  }

  /** Every involved region has answered among the first `i` messages or before. */
  predicate AllHeard(w: World, msgs: seq<Entry>, i: nat)
    requires i <= |msgs|
  {
    forall r | r in w.involved :: Has(w.outcomes, r) || Has(msgs[..i], r)
  }

  /** A message carries an involved region's own answer, unless all regions have answered already
      (the coordinator's own final message, with region "unknown", arrives then). */
  ghost predicate Delivered(w: World, v: Answers, msgs: seq<Entry>) {
    && AllHeard(w, msgs, |msgs|)
    && forall i | 0 <= i < |msgs| :: Consistent(w.involved, v, msgs[i]) || AllHeard(w, msgs, i)
  }

  /** A saga that is still collecting answers and has published nothing. */
  ghost predicate Gathering(w: World, v: Answers) {
    && w.status.Pending? && w.log == [] && w.own == [] && w.global == []
    && UniqueRegions(w.outcomes)
    && (forall e | e in w.outcomes :: Consistent(w.involved, v, e))
    && !Complete(w.involved, w.outcomes)
  }

  /** How often a message is published for a saga with these answers. */
  ghost function Expected(involved: seq<Region>, v: Answers, m: Message): nat {
    match m
    case Final(x) => if (x.Yes? <==> Decision(involved, v).Committed?) then 1 else 0
    case Release(r) => if Decision(involved, v).Aborted? && r in involved && v(r).Yes? then 1 else 0
  }

  /** The one result: decision, recorded answers, releases and final message, and records. */
  ghost predicate Canonical(w: World, involved: seq<Region>, v: Answers) {
    && w.involved == involved && w.status == Decision(involved, v) && w.global == []
    && UniqueRegions(w.outcomes)
    && (forall r, x :: Entry(r, x) in w.outcomes <==> r in involved && x == v(r))
    && (forall m :: multiset(w.log)[m] == Expected(involved, v, m))
    && w.log != [] && w.log[|w.log| - 1].Final?
    && w.own == Records(involved, if w.status.Committed? then Yes else No)
  }

  lemma OutcomesDecide(w: World, v: Answers)
    requires Complete(w.involved, w.outcomes) && forall e | e in w.outcomes :: Consistent(w.involved, v, e)
    ensures forall r, x :: Entry(r, x) in w.outcomes <==> r in w.involved && x == v(r)
    ensures AnyRejected(w.outcomes) <==> Decision(w.involved, v).Aborted?
  {
    forall r, x ensures Entry(r, x) in w.outcomes <==> r in w.involved && x == v(r) {
      if r in w.involved {
        var i :| 0 <= i < |w.outcomes| && w.outcomes[i].region == r;
        assert Consistent(w.involved, v, w.outcomes[i]);
        assert w.outcomes[i] == Entry(r, v(r));
      }
      if Entry(r, x) in w.outcomes { assert Consistent(w.involved, v, Entry(r, x)); }
    }
    if Decision(w.involved, v).Aborted? {
      var r :| r in w.involved && v(r).No?;
      assert Entry(r, No) in w.outcomes;
      var i :| 0 <= i < |w.outcomes| && w.outcomes[i] == Entry(r, No);
    }
    if AnyRejected(w.outcomes) {
      var i :| 0 <= i < |w.outcomes| && w.outcomes[i].verdict.No?;
      assert w.outcomes[i] in w.outcomes;
      assert Consistent(w.involved, v, w.outcomes[i]);
    }
  }

  lemma DecideIsCanonical(w: World, v: Answers)
    requires w.log == [] && w.own == [] && w.global == [] && UniqueRegions(w.outcomes)
    requires Complete(w.involved, w.outcomes) && forall e | e in w.outcomes :: Consistent(w.involved, v, e)
    ensures Canonical(Decide(w), w.involved, v)
  {
    OutcomesDecide(w, v);
    var w' := Decide(w);
    var regions := ApprovedRegions(w.outcomes);
    assert [] + Records(w.involved, Yes) == Records(w.involved, Yes);
    assert [] + Records(w.involved, No) == Records(w.involved, No);
    forall m ensures multiset(w'.log)[m] == Expected(w.involved, v, m) {
      if AnyRejected(w.outcomes) {
        assert w'.log == Releases(regions) + [Final(No)];
        ReleasesCount(regions, m);
        if m.Release? { ApprovedRegionsOnce(w.outcomes, m.region); }
      } else {
        assert w'.log == [Final(Yes)];
      }
    }
  }

  lemma {:induction false} ClosedStays(w: World, msgs: seq<Entry>)
    requires !Open(w.status)
    ensures AdvanceAll(w, msgs) == w
    decreases msgs
  {
    if msgs == [] {
    } else {
      ClosedStays(w, msgs[1..]);
    }
  }

  lemma HasTail(msgs: seq<Entry>, i: nat, r: Region)
    requires 0 < i <= |msgs|
    ensures Has(msgs[..i], r) <==> msgs[0].region == r || Has(msgs[1..][..i - 1], r)
  {
    if Has(msgs[..i], r) && msgs[0].region != r {
      var j :| 0 <= j < i && msgs[..i][j].region == r;
      assert msgs[1..][..i - 1][j - 1].region == r;
    }
    if Has(msgs[1..][..i - 1], r) {
      var j :| 0 <= j < i - 1 && msgs[1..][..i - 1][j].region == r;
      assert msgs[..i][j + 1].region == r;
    }
    if msgs[0].region == r { assert msgs[..i][0].region == r; }
  }

  lemma HeardTail(w: World, msgs: seq<Entry>, i: nat)
    requires 0 < i <= |msgs|
    ensures AllHeard(w, msgs, i)
            <==> AllHeard(w.(outcomes := Record(w.outcomes, msgs[0].region, msgs[0].verdict)), msgs[1..], i - 1)
  {
    var w' := w.(outcomes := Record(w.outcomes, msgs[0].region, msgs[0].verdict));
    forall r | r in w.involved
      ensures Has(w.outcomes, r) || Has(msgs[..i], r) <==> Has(w'.outcomes, r) || Has(msgs[1..][..i - 1], r)
    {
      HasTail(msgs, i, r);
      HasRecorded(w.outcomes, msgs[0].region, msgs[0].verdict, r);
    }
  }

  lemma NotAllHeardYet(w: World, v: Answers, msgs: seq<Entry>)
    requires Gathering(w, v)
    ensures !AllHeard(w, msgs, 0)
  {
    var r :| r in w.involved && !Has(w.outcomes, r);
    assert msgs[..0] == [];
  }

  /** While answers are missing, a message is an involved region's own answer, and recording it
      keeps the saga's answers consistent. */
  lemma FirstRecorded(w: World, v: Answers, msgs: seq<Entry>)
    requires Gathering(w, v) && Delivered(w, v, msgs) && msgs != []
    ensures var o := Record(w.outcomes, msgs[0].region, msgs[0].verdict);
            UniqueRegions(o) && forall e | e in o :: Consistent(w.involved, v, e)
  {
    NotAllHeardYet(w, v, msgs);
    assert Consistent(w.involved, v, msgs[0]);
    RecordEffect(w.outcomes, msgs[0].region, msgs[0].verdict);
  }

  lemma DeliveredTailAt(w: World, v: Answers, msgs: seq<Entry>, i: nat)
    requires Delivered(w, v, msgs) && i + 1 < |msgs|
    ensures var w1 := w.(outcomes := Record(w.outcomes, msgs[0].region, msgs[0].verdict));
            Consistent(w1.involved, v, msgs[1..][i]) || AllHeard(w1, msgs[1..], i)
  {
    assert Consistent(w.involved, v, msgs[i + 1]) || AllHeard(w, msgs, i + 1);
    HeardTail(w, msgs, i + 1);
  }

  lemma DeliveredTail(w: World, v: Answers, msgs: seq<Entry>)
    requires Delivered(w, v, msgs) && msgs != []
    ensures Delivered(w.(outcomes := Record(w.outcomes, msgs[0].region, msgs[0].verdict)), v, msgs[1..])
  {
    HeardTail(w, msgs, |msgs|);
    forall i: nat | i + 1 < |msgs| { DeliveredTailAt(w, v, msgs, i); }
  }

  /** Whatever order and repetition the answers come in, a gathering saga ends in the one
      canonical result. */
  lemma {:induction false} Converges(w: World, v: Answers, msgs: seq<Entry>)
    requires Gathering(w, v) && Delivered(w, v, msgs)
    ensures Canonical(AdvanceAll(w, msgs), w.involved, v)
    decreases msgs
  {
    NotAllHeardYet(w, v, msgs);
    if msgs != [] {
      var w1 := w.(outcomes := Record(w.outcomes, msgs[0].region, msgs[0].verdict));
      FirstRecorded(w, v, msgs);
      if Complete(w.involved, w1.outcomes) {
        DecideIsCanonical(w1, v);
        ClosedStays(Decide(w1), msgs[1..]);
      } else {
        DeliveredTail(w, v, msgs);
        Converges(w1, v, msgs[1..]);
      }
    }
  }

  lemma HasNothing(r: Region)
    ensures !Has([], r)
  {
  }

  lemma StartGathers(involved: seq<Region>, v: Answers)
    requires involved != []
    ensures Gathering(StartWorld(involved), v)
  {
    assert involved[0] in involved;
    HasNothing(involved[0]);
  }

  // ---------------------------------------------------------------- many sagas

  type System = map<SagaId, World>

  function Handle(sys: System, e: Event): System {
    if e.saga in sys then sys[e.saga := Advance(sys[e.saga], e.region, e.verdict)] else sys
  }

  function HandleAll(sys: System, events: seq<Event>): System
    decreases events
  {
    if events == [] then sys else HandleAll(Handle(sys, events[0]), events[1..])
  }

  function Own(events: seq<Event>, id: SagaId): seq<Entry> {
    if events == [] then []
    else if events[0].saga == id then [Entry(events[0].region, events[0].verdict)] + Own(events[1..], id)
    else Own(events[1..], id)
  }

  /** A saga sees only its own messages. */
  lemma {:induction false} OnlyOwnEvents(sys: System, events: seq<Event>, id: SagaId)
    requires id in sys
    ensures id in HandleAll(sys, events)
    ensures HandleAll(sys, events)[id] == AdvanceAll(sys[id], Own(events, id))
    decreases events
  {
    if events == [] {
    } else {
      OnlyOwnEvents(Handle(sys, events[0]), events[1..], id);
      if events[0].saga == id {
        var own := Own(events, id);
        assert own[1..] == Own(events[1..], id);
      }
    }
  }

  /** Confluence: two interleavings of the same answers, each with any repetition, any order,
      any messages of other sagas and the coordinator's own final messages coming back, leave a
      saga with the same status, answers, releases, final message and records. */
  lemma {:induction false} Confluence(sys: System, id: SagaId, involved: seq<Region>, v: Answers, xs: seq<Event>,
      ys: seq<Event>)
    requires id in sys && sys[id] == StartWorld(involved) && involved != []
    requires Delivered(sys[id], v, Own(xs, id)) && Delivered(sys[id], v, Own(ys, id))
    ensures id in HandleAll(sys, xs) && id in HandleAll(sys, ys)
    ensures var a, b := HandleAll(sys, xs)[id], HandleAll(sys, ys)[id];
            && Canonical(a, involved, v) && Canonical(b, involved, v)
            && a.status == b.status && multiset(a.outcomes) == multiset(b.outcomes)
            && multiset(a.log) == multiset(b.log) && a.own == b.own
            && a.log[|a.log| - 1] == b.log[|b.log| - 1]
  {
    StartGathers(involved, v);
    OnlyOwnEvents(sys, xs, id);
    OnlyOwnEvents(sys, ys, id);
    Converges(sys[id], v, Own(xs, id));
    Converges(sys[id], v, Own(ys, id));
    var a, b := HandleAll(sys, xs)[id], HandleAll(sys, ys)[id];
    assert forall m :: multiset(a.log)[m] == multiset(b.log)[m];
    forall e ensures multiset(a.outcomes)[e] == multiset(b.outcomes)[e] {
      UniqueOnce(a.outcomes, e);
      UniqueOnce(b.outcomes, e);
      assert e == Entry(e.region, e.verdict);
    }
    LastIsDecision(a, involved, v);
    LastIsDecision(b, involved, v);
  }

  lemma {:induction false} UniqueOnce(o: seq<Entry>, e: Entry)
    requires UniqueRegions(o)
    ensures multiset(o)[e] == if e in o then 1 else 0
  {
    if o == [] {
    } else {
      assert o == [o[0]] + o[1..];
      UniqueOnce(o[1..], e);
    }
  }

  lemma LastIsDecision(w: World, involved: seq<Region>, v: Answers)
    requires Canonical(w, involved, v)
    ensures w.log[|w.log| - 1] == Final(if Decision(involved, v).Committed? then Yes else No)
  {
    var m := w.log[|w.log| - 1];
    assert m in multiset(w.log);
    assert multiset(w.log)[m] == Expected(involved, v, m);
  }
}
