/** The coordinator's step seen from one journey: recording the last missing answer decides, and what
    is released is exactly what is held. */
module SagaJourneys {
  import opened Saga
  import opened Journeys

  lemma {:induction false} ReleasedRegionsOf(regions: seq<Region>, last: Verdict)
    ensures ReleasedRegions(Releases(regions) + [Final(last)]) == multiset(regions)
  {
    var log := Releases(regions) + [Final(last)];
    if regions == [] {
      assert log == [Final(last)] && log[1..] == [];
    } else {
      assert regions == [regions[0]] + regions[1..];
      assert log[1..] == Releases(regions[1..]) + [Final(last)];
      ReleasedRegionsOf(regions[1..], last);
    }
  }

  /** What is published and recorded when an answer arrives. */
  lemma AdvanceEffect(w: World, e: Entry)
    requires Open(w.status)
    ensures var o := Record(w.outcomes, e.region, e.verdict);
            var w' := Advance(w, e.region, e.verdict);
            && w'.outcomes == o && w'.involved == w.involved
            && ReleasedRegions(Suffix(w.log, w'.log))
               == (if Complete(w.involved, o) && AnyRejected(o) then multiset(ApprovedRegions(o)) else multiset{})
            && Suffix(w.own, w'.own)
               == (if Complete(w.involved, o) then Records(w.involved, if AnyRejected(o) then No else Yes) else [])
            && w'.status == (if !Complete(w.involved, o) then w.status
                             else if AnyRejected(o) then Aborted else Committed)
  {
    var o := Record(w.outcomes, e.region, e.verdict);
    var w1 := w.(outcomes := o);
    var w' := Advance(w, e.region, e.verdict);
    if Complete(w.involved, o) {
      var v := if AnyRejected(o) then No else Yes;
      assert w'.own == w.own + Records(w.involved, v);
      assert w'.own[|w.own|..] == Records(w.involved, v);
      if AnyRejected(o) {
        assert w'.log[|w.log|..] == Releases(ApprovedRegions(o)) + [Final(No)];
        ReleasedRegionsOf(ApprovedRegions(o), No);
      } else {
        assert w'.log[|w.log|..] == [Final(Yes)];
        assert [Final(Yes)] == Releases([]) + [Final(Yes)];
        ReleasedRegionsOf([], Yes);
      }
    } else {
      assert w.log[|w.log|..] == [] && w.own[|w.own|..] == [];
    }
  }

  /** An answer on its way comes from an involved region that the saga has not heard. */
  lemma AnswerIsNews(t: Trip, e: Entry)
    requires TripOk(t) && t.saga.Some? && t.answers[e] > 0
    ensures t.saga.value.status.Pending? && e.region in t.involved
    ensures Answering(t, t.saga.value, e.region, e.verdict)
  {
    assert e == Entry(e.region, Yes) || e == Entry(e.region, No);
    assert LegOk(t, e.region);
  }

  lemma AdvanceSagaOk(t: Trip, e: Entry)
    requires TripOk(t) && t.saga.Some? && t.answers[e] > 0
    ensures SagaOk(Advanced(t, e), Advanced(t, e).saga.value)
  {
    var w := t.saga.value;
    AnswerIsNews(t, e);
    AdvanceEffect(w, e);
    RecordEffect(w.outcomes, e.region, e.verdict);
  }

  /** The recorded outcomes after the answer `e`, region by region. */
  lemma RecordedAfter(o: seq<Entry>, e: Entry, q: Region)
    requires UniqueRegions(o) && Entry(e.region, Yes) !in o && Entry(e.region, No) !in o
    ensures forall x :: Entry(q, x) in Record(o, e.region, e.verdict)
                        <==> if q == e.region then x == e.verdict else Entry(q, x) in o
  {
    RecordEffect(o, e.region, e.verdict);
    assert e == Entry(e.region, e.verdict);
  }

  lemma RejectedEntry(o: seq<Entry>, q: Region)
    ensures Entry(q, No) in o ==> AnyRejected(o)
  {
    if Entry(q, No) in o {
      var i :| 0 <= i < |o| && o[i] == Entry(q, No);
    }
  }

  /** While answers are missing, recording one moves its region from answering to heard. */
  lemma CollectLeg(t: Trip, e: Entry, q: Region)
    requires TripOk(t) && t.saga.Some? && t.answers[e] > 0
    requires Advanced(t, e).saga.value.status.Pending?
    ensures LegOk(Advanced(t, e), q)
  {
    var w := t.saga.value;
    AnswerIsNews(t, e);
    AdvanceEffect(w, e);
    RecordedAfter(w.outcomes, e, q);
    assert LegOk(t, q) && LegOk(t, e.region);
    assert e == Entry(e.region, e.verdict);
  }

  /** A region heard when the last answer decides, seen from the journey alone. */
  lemma HeardNext(t: Trip, w: World, o: seq<Entry>, e: Entry, q: Region)
    requires w.status.Pending? && Answering(t, w, e.region, e.verdict) && CrossLegOk(t, w, q)
    requires forall x :: Entry(q, x) in o <==> if q == e.region then x == e.verdict else Entry(q, x) in w.outcomes
    requires UniqueRegions(w.outcomes) && (Entry(q, Yes) in o || Entry(q, No) in o)
    ensures t.requests[q] == 0 && Unanswered(t.(answers := t.answers - multiset{e}), q) && t.releases[q] == 0
    ensures q in t.held <==> Entry(q, Yes) in o
    ensures Entry(q, Yes) in o <==> Entry(q, No) !in o
  {
    match e.verdict
    case Yes => assert e == Entry(e.region, Yes);
    case No => assert e == Entry(e.region, No);
  }

  /** When the last answer decides, every region has been heard. */
  lemma AllHeardNow(t: Trip, e: Entry, q: Region)
    requires TripOk(t) && t.saga.Some? && t.answers[e] > 0 && q in t.involved
    requires !Advanced(t, e).saga.value.status.Pending?
    ensures var t' := Advanced(t, e); var o := t'.saga.value.outcomes;
            && t.requests[q] == 0 && Unanswered(t', q) && t.releases[q] == 0
            && (q in t.held <==> Entry(q, Yes) in o)
            && (Entry(q, Yes) in o <==> Entry(q, No) !in o)
  {
    var w := t.saga.value;
    AnswerIsNews(t, e);
    AdvanceEffect(w, e);
    RecordedAfter(w.outcomes, e, q);
    var o := Record(w.outcomes, e.region, e.verdict);
    HasEntry(o, q);
    assert LegOk(t, q);
    HeardNext(t, w, o, e, q);
  }

  /** The releases sent are exactly those of the reservations held. */
  lemma ReleasesSent(t: Trip, e: Entry, q: Region)
    requires TripOk(t) && t.saga.Some? && t.answers[e] > 0
    requires !Advanced(t, e).saga.value.status.Pending?
    ensures Advanced(t, e).releases[q]
            == t.releases[q] + if Advanced(t, e).saga.value.status.Aborted? && q in t.held then 1 else 0
  {
    var w := t.saga.value;
    AnswerIsNews(t, e);
    AdvanceEffect(w, e);
    RecordEffect(w.outcomes, e.region, e.verdict);
    var o := Record(w.outcomes, e.region, e.verdict);
    ApprovedRegionsOnce(o, q);
    if q in t.involved {
      AllHeardNow(t, e, q);
    } else {
      assert LegOk(t, q);
    }
  }

  lemma FinalLeg(t: Trip, w: World, q: Region)
    requires w.status.Aborted? || (w.status.Committed? && !t.cancelled && Entry(q, No) !in w.outcomes)
    requires t.requests[q] == 0 && Unanswered(t, q) && (q in t.held <==> Entry(q, Yes) in w.outcomes)
    requires Entry(q, Yes) in w.outcomes <==> Entry(q, No) !in w.outcomes
    requires t.releases[q] == if w.status.Aborted? && q in t.held then 1 else 0
    ensures CrossLegOk(t, w, q)
  {
  }

  lemma DecidedState(t: Trip, e: Entry)
    requires TripOk(t) && t.saga.Some? && t.answers[e] > 0
    requires !Advanced(t, e).saga.value.status.Pending?
    ensures var w := Advanced(t, e).saga.value;
            (w.status.Aborted? || (w.status.Committed? && !AnyRejected(w.outcomes))) && !t.cancelled
  {
    AnswerIsNews(t, e);
    AdvanceEffect(t.saga.value, e);
  }

  lemma DecidedLeg(t: Trip, e: Entry, q: Region)
    requires TripOk(t) && t.saga.Some? && t.answers[e] > 0 && q in t.involved
    requires !Advanced(t, e).saga.value.status.Pending?
    ensures CrossLegOk(Advanced(t, e), Advanced(t, e).saga.value, q)
  {
    DecidedState(t, e);
    AllHeardNow(t, e, q);
    ReleasesSent(t, e, q);
    RejectedEntry(Advanced(t, e).saga.value.outcomes, q);
    FinalLeg(Advanced(t, e), Advanced(t, e).saga.value, q);
  }

  lemma DecideLeg(t: Trip, e: Entry, q: Region)
    requires TripOk(t) && t.saga.Some? && t.answers[e] > 0
    requires !Advanced(t, e).saga.value.status.Pending?
    ensures LegOk(Advanced(t, e), q)
  {
    assert LegOk(t, q);
    if q in t.involved {
      DecidedLeg(t, e, q);
      AllHeardNow(t, e, q);
    } else {
      ReleasesSent(t, e, q);
      AnswerIsNews(t, e);
      OutsideUnheard(t, e, q);
    }
  }

  lemma OutsideUnheard(t: Trip, e: Entry, q: Region)
    requires TripOk(t) && t.saga.Some? && t.answers[e] > 0 && q !in t.involved
    ensures forall x :: Entry(q, x) !in Advanced(t, e).saga.value.outcomes
  {
    AdvanceSagaOk(t, e);
    forall x ensures Entry(q, x) !in Advanced(t, e).saga.value.outcomes {
      assert Entry(q, x).region == q;
    }
  }

  lemma AdvanceKeeps(t: Trip, e: Entry)
    requires TripOk(t) && t.saga.Some? && t.answers[e] > 0
    ensures TripOk(Advanced(t, e)) && Advanced(t, e).held == t.held
  {
    AdvanceSagaOk(t, e);
    forall q ensures LegOk(Advanced(t, e), q) {
      if Advanced(t, e).saga.value.status.Pending? { CollectLeg(t, e, q); } else { DecideLeg(t, e, q); }
    }
  }
}
