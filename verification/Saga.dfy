/** The cross-region saga of services/journey-management/main.py, one event at a time and without
    faults: the decision logic of `_advance_saga` and `_recover_pending_sagas`. SagaRuns.dfy
    splits the same logic into its durable effects. */
module Saga {
  type Region = string

  datatype Verdict = Yes | No

  datatype Status = Pending | Aborting | Committed | Aborted | Failed

  /** An entry of `regional_outcomes`; the list keeps the insertion order of the dictionary. */
  datatype Entry = Entry(region: Region, verdict: Verdict)

  /** A Kafka message about this saga: a capacity release for one region, or the final outcome. */
  datatype Message = Release(region: Region) | Final(verdict: Verdict)

  /** The durable state of one saga: its document, the messages published for it, the booking
      records written to the regions' stores and to the global store. */
  datatype World = World(
    involved: seq<Region>, outcomes: seq<Entry>, status: Status,
    log: seq<Message>, own: seq<Entry>, global: seq<Region>)

  predicate Open(s: Status) {
    s.Pending? || s.Aborting?
  }

  predicate Has(o: seq<Entry>, r: Region) {
    exists i :: 0 <= i < |o| && o[i].region == r
  }

  /** `$set regional_outcomes.<region>`: replaces in place, or appends. */
  function Record(o: seq<Entry>, r: Region, v: Verdict): seq<Entry> {
    if o == [] then [Entry(r, v)]
    else if o[0].region == r then [Entry(r, v)] + o[1..]
    else [o[0]] + Record(o[1..], r, v)
  }

  predicate Complete(involved: seq<Region>, o: seq<Entry>) {
    forall r | r in involved :: Has(o, r)
  }

  predicate AnyRejected(o: seq<Entry>) {
    exists i :: 0 <= i < |o| && o[i].verdict.No?
  }

  /** The regions recorded as approved, in dictionary order. */
  function ApprovedRegions(o: seq<Entry>): seq<Region> {
    if o == [] then []
    else if o[0].verdict.Yes? then [o[0].region] + ApprovedRegions(o[1..])
    else ApprovedRegions(o[1..])
  }

  function Releases(regions: seq<Region>): seq<Message> {
    seq(|regions|, i requires 0 <= i < |regions| => Release(regions[i]))
  }

  function Records(regions: seq<Region>, v: Verdict): seq<Entry> {
    seq(|regions|, i requires 0 <= i < |regions| => Entry(regions[i], v))
  }

  function Abort(w: World): World {
    w.(status := Aborted,
       log := w.log + Releases(ApprovedRegions(w.outcomes)) + [Final(No)],
       own := w.own + Records(w.involved, No))
  }

  function Commit(w: World): World {
    w.(status := Committed, log := w.log + [Final(Yes)], own := w.own + Records(w.involved, Yes))
  }

  function Decide(w: World): World {
    if !Complete(w.involved, w.outcomes) then w
    else if AnyRejected(w.outcomes) then Abort(w)
    else Commit(w)
  }

  /** `_advance_saga`. */
  function Advance(w: World, r: Region, v: Verdict): World {
    if !Open(w.status) then w else Decide(w.(outcomes := Record(w.outcomes, r, v)))
  }

  /** `_recover_pending_sagas`, for one saga. */
  function Recover(w: World): World {
    match w.status
    case Aborting => Abort(w)
    case Pending =>
      if Complete(w.involved, w.outcomes) && w.outcomes != [] then
        var last := w.outcomes[|w.outcomes| - 1];
        Advance(w, last.region, last.verdict)
      else w
    case Committed => w
    case Aborted => w
    case Failed => w
  }

  // ---------------------------------------------------------------- the dictionary

  lemma HasEntry(o: seq<Entry>, r: Region)
    ensures Has(o, r) <==> Entry(r, Yes) in o || Entry(r, No) in o
  {
    if Has(o, r) {
      var i :| 0 <= i < |o| && o[i].region == r;
      assert o[i] in o;
      match o[i].verdict
      case Yes => assert o[i] == Entry(r, Yes);
      case No => assert o[i] == Entry(r, No);
    }
    forall v | Entry(r, v) in o ensures Has(o, r) {
      var i :| 0 <= i < |o| && o[i] == Entry(r, v);
      assert o[i].region == r;
    }
  }

  ghost predicate UniqueRegions(o: seq<Entry>) {
    forall i, j | 0 <= i < j < |o| :: o[i].region != o[j].region
  }

  lemma {:induction false} RecordMembers(o: seq<Entry>, r: Region, v: Verdict, e: Entry)
    ensures e in Record(o, r, v) ==> e == Entry(r, v) || e in o
    ensures Entry(r, v) in Record(o, r, v)
    ensures e in o && e.region != r ==> e in Record(o, r, v)
  {
    if o == [] {
    } else {
      assert o == [o[0]] + o[1..];
      if o[0].region != r { RecordMembers(o[1..], r, v, e); }
    }
  }

  lemma UniqueCons(e: Entry, o: seq<Entry>)
    requires UniqueRegions(o) && forall x | x in o :: x.region != e.region
    ensures UniqueRegions([e] + o)
  {
  }

  lemma {:induction false} RecordUnique(o: seq<Entry>, r: Region, v: Verdict)
    requires UniqueRegions(o)
    ensures UniqueRegions(Record(o, r, v))
  {
    if o == [] {
    } else {
      forall x | x in o[1..] ensures x.region != o[0].region {
        var i :| 0 <= i < |o[1..]| && o[1..][i] == x;
        assert o[i + 1] == x;
      }
      if o[0].region == r {
        UniqueCons(Entry(r, v), o[1..]);
      } else {
        RecordUnique(o[1..], r, v);
        forall x | x in Record(o[1..], r, v) ensures x.region != o[0].region { RecordMembers(o[1..], r, v, x); }
        UniqueCons(o[0], Record(o[1..], r, v));
      }
    }
  }

  /** Recording changes exactly one region's outcome and never duplicates a region. */
  lemma {:induction false} RecordEffect(o: seq<Entry>, r: Region, v: Verdict)
    ensures forall e :: e in Record(o, r, v) ==> e == Entry(r, v) || e in o
    ensures Entry(r, v) in Record(o, r, v)
    ensures forall e :: e in o && e.region != r ==> e in Record(o, r, v)
    ensures UniqueRegions(o) ==> UniqueRegions(Record(o, r, v))
    ensures UniqueRegions(o) ==> forall e :: e in Record(o, r, v) && e.region == r ==> e == Entry(r, v)
  {
    forall e { RecordMembers(o, r, v, e); }
    if UniqueRegions(o) {
      RecordUnique(o, r, v);
      forall e | e in Record(o, r, v) && e.region == r ensures e == Entry(r, v) {
        SameRegionSameEntry(Record(o, r, v), e, Entry(r, v));
      }
    }
  }

  lemma SameRegionSameEntry(o: seq<Entry>, a: Entry, b: Entry)
    requires UniqueRegions(o) && a in o && b in o && a.region == b.region
    ensures a == b
  {
    var i :| 0 <= i < |o| && o[i] == a;
    var j :| 0 <= j < |o| && o[j] == b;
  }

  lemma HasRecorded(o: seq<Entry>, r: Region, v: Verdict, q: Region)
    ensures Has(Record(o, r, v), q) <==> Has(o, q) || q == r
  {
    RecordEffect(o, r, v);
    var o' := Record(o, r, v);
    if Has(o', q) {
      var i :| 0 <= i < |o'| && o'[i].region == q;
      assert o'[i] in o';
      if q != r {
        assert o'[i] in o;
        var j :| 0 <= j < |o| && o[j] == o'[i];
      }
    }
    if Has(o, q) && q != r {
      var i :| 0 <= i < |o| && o[i].region == q;
      assert o[i] in o;
      assert o[i] in o';
      var j :| 0 <= j < |o'| && o'[j] == o[i];
    }
    if q == r {
      var j :| 0 <= j < |o'| && o'[j] == Entry(r, v);
    }
  }

  lemma {:induction false} ApprovedRegionsIff(o: seq<Entry>, r: Region)
    ensures r in ApprovedRegions(o) <==> Entry(r, Yes) in o
  {
    if o == [] {
    } else {
      assert o == [o[0]] + o[1..];
      ApprovedRegionsIff(o[1..], r);
    }
  }

  lemma {:induction false} ApprovedRegionsOnce(o: seq<Entry>, r: Region)
    requires UniqueRegions(o)
    ensures multiset(ApprovedRegions(o))[r] == if Entry(r, Yes) in o then 1 else 0
  {
    if o == [] {
    } else {
      assert o == [o[0]] + o[1..];
      ApprovedRegionsOnce(o[1..], r);
      if o[0] == Entry(r, Yes) {
        forall e | e in o[1..] ensures e.region != r {
          var i :| 0 <= i < |o[1..]| && o[1..][i] == e;
          assert o[i + 1] == e;
        }
        assert Entry(r, Yes) !in o[1..];
      }
    }
  }

  lemma {:induction false} ReleasesCount(regions: seq<Region>, m: Message)
    ensures multiset(Releases(regions))[m] == if m.Release? then multiset(regions)[m.region] else 0
  {
    if regions == [] {
      assert Releases(regions) == [];
    } else {
      assert regions == [regions[0]] + regions[1..];
      assert Releases(regions) == [Release(regions[0])] + Releases(regions[1..]);
      ReleasesCount(regions[1..], m);
    }
  }

  // ---------------------------------------------------------------- the coordinator

  /** The coordinator's view of one saga, updated in place as the effects happen. */
  class Coordinator {
    const involved: seq<Region>
    var outcomes: seq<Entry>
    var status: Status
    var log: seq<Message>
    var own: seq<Entry>
    var global: seq<Region>

    constructor (involved: seq<Region>)
      ensures Durable() == StartWorld(involved)
    {
      this.involved := involved;
      outcomes, status, log, own, global := [], Pending, [], [], [];
    }

    ghost function Durable(): World
      reads this
    {
      World(involved, outcomes, status, log, own, global)
    }

    method PublishReleases()
      modifies this`log
      ensures log == old(log) + Releases(ApprovedRegions(outcomes))
    {
      var i := 0;
      assert outcomes[0..] == outcomes;
      while i < |outcomes|
        invariant 0 <= i <= |outcomes|
        invariant log + Releases(ApprovedRegions(outcomes[i..])) == old(log) + Releases(ApprovedRegions(outcomes))
      {
        var e := outcomes[i];
        assert outcomes[i..][1..] == outcomes[i + 1..];
        if e.verdict.Yes? {
          var rest := ApprovedRegions(outcomes[i + 1..]);
          assert Releases([e.region] + rest) == [Release(e.region)] + Releases(rest);
          log := log + [Release(e.region)];
        }
        i := i + 1;
      }
      assert Releases([]) == [];
    }

    method WriteRecords(v: Verdict)
      modifies this`own
      ensures own == old(own) + Records(involved, v)
    {
      for i := 0 to |involved|
        invariant own == old(own) + Records(involved[..i], v)
      {
        own := own + [Entry(involved[i], v)];
        assert Records(involved[..i + 1], v) == Records(involved[..i], v) + [Entry(involved[i], v)];
      }
      assert involved[..|involved|] == involved;
    }

    method FinishAbort()
      modifies this
      ensures Durable() == Abort(old(Durable()))
    {
      PublishReleases();
      WriteRecords(No);
      status := Aborted;
      log := log + [Final(No)];
    }

    method AdvanceSaga(region: Region, verdict: Verdict)
      modifies this
      ensures Durable() == Advance(old(Durable()), region, verdict)
    {
      if !Open(status) {
        return;
      }
      outcomes := Record(outcomes, region, verdict);
      if !Complete(involved, outcomes) {
        return;
      }
      if AnyRejected(outcomes) {
        status := Aborting;
        FinishAbort();
      } else {
        WriteRecords(Yes);
        status := Committed;
        log := log + [Final(Yes)];
      }
    }

    method RecoverSaga()
      modifies this
      ensures Durable() == Recover(old(Durable()))
    {
      if status == Aborting {
        FinishAbort();
      } else if status == Pending && Complete(involved, outcomes) && outcomes != [] {
        var last := outcomes[|outcomes| - 1];
        AdvanceSaga(last.region, last.verdict);
      }
    }
  }

  function StartWorld(involved: seq<Region>): World {
    World(involved, [], Pending, [], [], [])
  }
}
