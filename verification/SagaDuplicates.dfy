/** What a crash inside the commit loop leaves behind: recovery runs the loop again from its start, and
    the stores accept a second record of the same booking. */
module SagaDuplicates {
  import opened Lex
  import opened Saga
  import opened SagaRuns
  import opened SagaRecovery

  lemma {:induction false} RecordsOnce(regions: seq<Region>, v: Verdict, r: Region)
    requires Distinct(regions)
    ensures multiset(Records(regions, v))[Entry(r, v)] == if r in regions then 1 else 0
  {
    if regions == [] {
      assert Records(regions, v) == [];
    } else {
      assert regions == [regions[0]] + regions[1..];
      assert Records(regions, v) == [Entry(regions[0], v)] + Records(regions[1..], v);
      RecordsOnce(regions[1..], v, r);
    }
  }

  lemma RecoveryCommits(w: World)
    requires w.status.Pending? && Unanimous(w) && w.involved != []
    ensures Recover(w).status.Committed? && Recover(w).own == w.own + Records(w.involved, Yes)
  {
    assert w.involved[0] in w.involved && Has(w.outcomes, w.involved[0]);
    var last := w.outcomes[|w.outcomes| - 1];
    NoneRejected(w.outcomes, last);
    var o := Record(w.outcomes, last.region, last.verdict);
    RecordEffect(w.outcomes, last.region, last.verdict);
    forall r | r in w.involved ensures Has(o, r) { HasRecorded(w.outcomes, last.region, last.verdict, r); }
    forall i | 0 <= i < |o| ensures o[i].verdict.Yes? {
      assert o[i] in o;
      if o[i] in w.outcomes { NoneRejected(w.outcomes, o[i]); }
    }
  }

  lemma NoneRejected(o: seq<Entry>, e: Entry)
    requires !AnyRejected(o) && e in o
    ensures e.verdict.Yes?
  {
    var i :| 0 <= i < |o| && o[i] == e;
  }

  /** If the coordinator dies in the commit loop, with `todo` still to be written, recovery commits and
      a region ends with exactly one approved record if and only if its record was not yet written. */
  lemma CrashInCommitDuplicatesIff(w: World, done: seq<Region>, todo: seq<Region>, r: Region) returns (steps: seq<Step>)
    requires w.status.Pending? && Unanimous(w) && w.involved == done + todo && Distinct(w.involved)
    requires w.own == Records(done, Yes) && r in w.involved
    ensures Run(State(w, [], ToCommit(todo)), [Crash] + steps, State(Recover(w), [], Idle))
    ensures Recover(w).status.Committed?
    ensures multiset(Recover(w).own)[Entry(r, Yes)] == if r in todo then 1 else 2
  {
    RecoveryCommits(w);
    steps := SoloRecover(w);
    assert ([Crash] + steps)[1..] == steps;
    assert State(w, [], Idle) == Apply(State(w, [], ToCommit(todo)), Crash);
    forall i, j | 0 <= i < j < |done| ensures done[i] != done[j] {
      assert w.involved[i] == done[i] && w.involved[j] == done[j];
    }
    RecordsOnce(done, Yes, r);
    RecordsOnce(w.involved, Yes, r);
    OneSide(done, todo, r);
  }

  lemma OneSide(done: seq<Region>, todo: seq<Region>, r: Region)
    requires Distinct(done + todo) && r in done + todo
    ensures r in done <==> r !in todo
  {
    DistinctCount(done + todo, r);
    CountConcat(done, todo, r);
    assert r in done <==> r in multiset(done);
    assert r in todo <==> r in multiset(todo);
  }

  /** A run from the start in which a region ends with two approved records. */
  lemma RecordWrittenTwice(r: Region) returns (s: State, before: seq<Step>, mid: State, steps: seq<Step>, s': State)
    ensures Initial(s) && Run(s, before, mid) && Run(mid, [Crash] + steps, s')
    ensures s'.w.status.Committed? && s'.w.own == [Entry(r, Yes), Entry(r, Yes)]
  {
    s := State(StartWorld([r]), [], Idle);
    var s1 := Apply(s, Receive(r, Yes));
    var w := Effect(s1).w;
    assert w.outcomes == [Entry(r, Yes)];
    HasRecorded([], r, Yes, r);
    assert !AnyRejected(w.outcomes);
    var s2 := Apply(s1, Proceed);
    assert s2.pc == Committing([r]);
    mid := Apply(s2, Proceed);
    assert Run(mid, [], mid);
    assert Run(s2, [Proceed], mid) by { assert [Proceed][1..] == []; }
    assert Run(s1, [Proceed, Proceed], mid) by { assert [Proceed, Proceed][1..] == [Proceed]; }
    before := [Receive(r, Yes), Proceed, Proceed];
    assert before[1..] == [Proceed, Proceed];
    assert mid.w.own == Records([r], Yes) && [r] + [] == [r];
    steps := CrashInCommitDuplicatesIff(mid.w, [r], [], r);
    RecoveryCommits(mid.w);
    s' := State(Recover(mid.w), [], Idle);
  }
}
