/** What can still happen to a saga once its status is COMMITTED, ABORTED or FAILED: when it can be
    re-opened, when its status is overwritten, and which messages can still be published. */
module SagaFinality {
  import opened Saga
  import opened SagaRuns
  import opened SagaRecovery

  // ---------------------------------------------------------------- re-opening

  /** The coordinator is past its status check and its next status write, if nothing goes wrong
      before, is ABORTING. */
  predicate AboutToAbort(s: State) {
    || s.pc.MarkingAborting?
    || (s.pc.Recording? && AfterRecording(Effect(s).w).MarkingAborting?)
  }

  /** One step re-opens a finished saga exactly when it is the coordinator's ABORTING write. */
  lemma ReopeningStepIff(s: State, step: Step)
    requires !Open(s.w.status) && Enabled(s, step)
    ensures Open(Apply(s, step).w.status)
            <==> s.pc.MarkingAborting? && (step.Proceed? || (step.Raise? && step.applied))
  {
  }

  /** Every ABORTED write of `create_saga` in the run falls outside `AboutToAbort`. */
  ghost predicate AvoidsReopening(s: State, steps: seq<Step>)
    decreases steps
  {
    steps == [] ||
    (Enabled(s, steps[0]) && (steps[0].ExternalAbort? ==> !AboutToAbort(s)) &&
      AvoidsReopening(Apply(s, steps[0]), steps[1..]))
  }

  predicate ClosedForGood(s: State) {
    !Open(s.w.status) && !AboutToAbort(s)
  }

  lemma ClosedForGoodStep(s: State, step: Step)
    requires Enabled(s, step)
    requires ClosedForGood(s) || (Open(s.w.status) && (step.ExternalAbort? ==> !AboutToAbort(s)))
    ensures ClosedForGood(Apply(s, step)) || (Open(s.w.status) && Open(Apply(s, step).w.status))
  {
  }

  /** A finished saga is never re-opened, whatever crashes, faults, redeliveries and recoveries
      happen, as long as no ABORTED write of `create_saga` falls between the coordinator's status
      check and its ABORTING write. */
  lemma {:induction false} NeverReopened(s: State, steps: seq<Step>, s': State)
    requires (Open(s.w.status) || ClosedForGood(s)) && Run(s, steps, s') && AvoidsReopening(s, steps)
    ensures Open(s'.w.status) || ClosedForGood(s')
    ensures !Open(s.w.status) ==> !Open(s'.w.status)
    decreases steps
  {
    if steps == [] {
    } else {
      ClosedForGoodStep(s, steps[0]);
      NeverReopened(Apply(s, steps[0]), steps[1..], s');
    }
  }

  ghost predicate Reopens(s: State, steps: seq<Step>, s': State) {
    Run(s, steps, s') && ExternalAbort !in steps && Open(s'.w.status)
  }

  lemma {:induction false} NoWritesAvoid(s: State, steps: seq<Step>, s': State)
    requires Run(s, steps, s') && ExternalAbort !in steps
    ensures AvoidsReopening(s, steps)
    decreases steps
  {
    if steps == [] {
    } else {
      assert steps[0] in steps;
      NoWritesAvoid(Apply(s, steps[0]), steps[1..], s');
    }
  }

  /** In `AboutToAbort` the coordinator goes on to overwrite ABORTED with ABORTING. */
  lemma AboutToAbortReopens(s: State) returns (steps: seq<Step>, s': State)
    requires AboutToAbort(s)
    ensures Reopens(Apply(s, ExternalAbort), steps, s') && s'.w.status.Aborting?
  {
    var s1 := Apply(s, ExternalAbort);
    if s.pc.MarkingAborting? {
      s' := Apply(s1, Proceed);
      SmoothOne(s1, Proceed);
      steps := [Proceed];
    } else {
      var s2 := Apply(s1, Proceed);
      s' := Apply(s2, Proceed);
      SmoothOne(s2, Proceed);
      SmoothThen(s1, Proceed, [Proceed], s');
      steps := [Proceed] + [Proceed];
    }
  }

  /** The ABORTED write of `create_saga` can be undone by the coordinator exactly when it falls
      between the coordinator's status check and its ABORTING write. */
  lemma ExternalAbortReopensIff(s: State)
    ensures (exists steps, s' :: Reopens(Apply(s, ExternalAbort), steps, s')) <==> AboutToAbort(s)
  {
    var s1 := Apply(s, ExternalAbort);
    if AboutToAbort(s) {
      var steps, s' := AboutToAbortReopens(s);
    }
    forall steps, s' | Reopens(s1, steps, s') ensures AboutToAbort(s) {
      if !AboutToAbort(s) {
        NoWritesAvoid(s1, steps, s');
        NeverReopened(s1, steps, s');
      }
    }
  }

  /** A run from the start in which it is undone. */
  lemma ExternalAbortReopens(r: Region) returns (s: State, before: seq<Step>, mid: State, step: Step)
    ensures Initial(s) && Run(s, before, mid) && Enabled(mid, step)
    ensures mid.w.status == Aborted && Apply(mid, step).w.status == Aborting
  {
    s := State(StartWorld([r]), [], Idle);
    before := [Receive(r, No), Proceed, ExternalAbort];
    var s1 := Apply(s, Receive(r, No));
    HasRecorded([], r, No, r);
    RecordEffect([], r, No);
    var s2 := Apply(s1, Proceed);
    assert s2.w.outcomes == [Entry(r, No)];
    assert s2.w.outcomes[0].verdict.No?;
    assert s2.pc == MarkingAborting;
    mid, step := Apply(s2, ExternalAbort), Proceed;
    assert Run(mid, [], mid);
    assert Run(s2, [ExternalAbort], mid) by { assert [ExternalAbort][1..] == []; }
    assert Run(s1, [Proceed, ExternalAbort], mid) by { assert [Proceed, ExternalAbort][1..] == [ExternalAbort]; }
    assert before[1..] == [Proceed, ExternalAbort];
  }

  // ---------------------------------------------------------------- replacing ABORTED by COMMITTED

  predicate CommitAhead(pc: Pc) {
    (pc.Committing? && pc.todo != []) || pc.MarkingCommitted?
  }

  /** The coordinator is past its status check and its next status write, if nothing goes wrong
      before, is COMMITTED. */
  predicate AboutToCommit(s: State) {
    CommitAhead(s.pc) || (s.pc.Recording? && CommitAhead(AfterRecording(Effect(s).w)))
  }

  ghost predicate ClosedAlong(s: State, steps: seq<Step>)
    decreases steps
  {
    !Open(s.w.status) && (steps == [] || (Enabled(s, steps[0]) && ClosedAlong(Apply(s, steps[0]), steps[1..])))
  }

  /** A run that commits a finished saga without ever opening it again. */
  ghost predicate Replaces(s: State, steps: seq<Step>, s': State) {
    Run(s, steps, s') && ExternalAbort !in steps && ClosedAlong(s, steps) && s'.w.status.Committed?
  }

  lemma {:induction false} NotReplaced(s: State, steps: seq<Step>, s': State)
    requires Run(s, steps, s') && ClosedAlong(s, steps) && !AboutToCommit(s) && !s.w.status.Committed?
    ensures !AboutToCommit(s') && !s'.w.status.Committed?
    decreases steps
  {
    if steps == [] {
    } else {
      NotReplaced(Apply(s, steps[0]), steps[1..], s');
    }
  }

  lemma ClosedCons(s: State, step: Step, rest: seq<Step>, s': State)
    requires Enabled(s, step) && !step.ExternalAbort? && !Open(s.w.status) && Replaces(Apply(s, step), rest, s')
    ensures Replaces(s, [step] + rest, s')
  {
    assert ([step] + rest)[1..] == rest;
  }

  lemma {:induction false} CommitLoopReplaces(s: State, todo: seq<Region>) returns (steps: seq<Step>, s': State)
    requires s.pc == ToCommit(todo) && !Open(s.w.status)
    ensures Replaces(s, steps, s') && s'.pc == Publishing(Yes, false)
    decreases todo
  {
    var s1 := Apply(s, Proceed);
    var rest;
    if todo == [] {
      rest, s' := [], s1;
    } else {
      rest, s' := CommitLoopReplaces(s1, todo[1..]);
    }
    ClosedCons(s, Proceed, rest, s');
    steps := [Proceed] + rest;
  }

  lemma AboutToCommitReplaces(s: State) returns (steps: seq<Step>, s': State)
    requires AboutToCommit(s)
    ensures Replaces(Apply(s, ExternalAbort), steps, s') && s'.pc == Publishing(Yes, false)
  {
    var s1 := Apply(s, ExternalAbort);
    if s.pc.Committing? {
      steps, s' := CommitLoopReplaces(s1, s.pc.todo);
    } else if s.pc.MarkingCommitted? {
      steps, s' := CommitLoopReplaces(s1, []);
    } else {
      var s2 := Apply(s1, Proceed);
      var rest;
      rest, s' := CommitLoopReplaces(s2, s.w.involved);
      ClosedCons(s1, Proceed, rest, s');
      steps := [Proceed] + rest;
    }
  }

  /** The ABORTED write of `create_saga` can be replaced by COMMITTED without the saga being opened
      again exactly when it falls between the coordinator's status check and its COMMITTED write. */
  lemma ExternalAbortReplacedIff(s: State)
    ensures (exists steps, s' :: Replaces(Apply(s, ExternalAbort), steps, s')) <==> AboutToCommit(s)
  {
    var s1 := Apply(s, ExternalAbort);
    if AboutToCommit(s) {
      var steps, s' := AboutToCommitReplaces(s);
    }
    forall steps, s' | Replaces(s1, steps, s') ensures AboutToCommit(s) {
      if !AboutToCommit(s) { NotReplaced(s1, steps, s'); }
    }
  }

  /** A run from the start in which the saga is ABORTED, then COMMITTED, and published as approved. */
  lemma ExternalAbortReplaced(r: Region)
    returns (s: State, before: seq<Step>, mid: State, after: seq<Step>, s': State)
    ensures Initial(s) && Run(s, before, mid) && mid.w.status.Aborted?
    ensures Run(mid, after, s') && ExternalAbort !in after
    ensures s'.w.status.Committed? && s'.w.log == [Final(Yes)] && s'.pc.FlushingFinal?
  {
    s := State(StartWorld([r]), [], Idle);
    var s1 := Apply(s, Receive(r, Yes));
    var w := Effect(s1).w;
    assert w.outcomes == [Entry(r, Yes)];
    HasRecorded([], r, Yes, r);
    assert !AnyRejected(w.outcomes);
    var s2 := Apply(s1, Proceed);
    assert s2.pc == Committing([r]);
    mid := Apply(s2, ExternalAbort);
    assert Run(mid, [], mid);
    RunCons(s2, ExternalAbort, [], mid);
    RunCons(s1, Proceed, [ExternalAbort] + [], mid);
    RunCons(s, Receive(r, Yes), [Proceed] + ([ExternalAbort] + []), mid);
    before := [Receive(r, Yes)] + ([Proceed] + ([ExternalAbort] + []));
    var s4 := Apply(mid, Proceed);
    assert s4.pc == MarkingCommitted;
    var s5 := Apply(s4, Proceed);
    var s6 := Apply(s5, Proceed);
    s' := Apply(s6, Deliver);
    RunCons(s6, Deliver, [], s');
    RunCons(s5, Proceed, [Deliver] + [], s');
    RunCons(s4, Proceed, [Proceed] + ([Deliver] + []), s');
    RunCons(mid, Proceed, [Proceed] + ([Proceed] + ([Deliver] + [])), s');
    after := [Proceed] + ([Proceed] + ([Proceed] + ([Deliver] + [])));
  }

  lemma RunCons(s: State, step: Step, rest: seq<Step>, s': State)
    requires Enabled(s, step) && Run(Apply(s, step), rest, s')
    ensures Run(s, [step] + rest, s')
  {
    assert ([step] + rest)[1..] == rest;
  }

  // ---------------------------------------------------------------- when a finished status stands

  /** Past the ABORTING write and before the ABORTED write. */
  predicate Compensating(pc: Pc) {
    pc.Releasing? || pc.FlushingReleases? || pc.Rejecting? || pc.MarkingAborted?
  }

  /** Finished, with nothing under way that would write another status than FAILED. */
  predicate Settled(s: State) {
    && !Open(s.w.status) && !AboutToAbort(s) && !AboutToCommit(s)
    && (Compensating(s.pc) ==> s.w.status.Aborted?)
  }

  /** The FAILED write of the exception handler takes effect. */
  predicate FailingStep(s: State, step: Step) {
    s.pc.MarkingFailed? && (step.Proceed? || (step.Raise? && step.applied))
  }

  predicate Overwrites(s: State, step: Step) {
    FailingStep(s, step) || step.ExternalAbort?
  }

  lemma SettledStep(s: State, step: Step)
    requires Settled(s) && Enabled(s, step)
    ensures Settled(Apply(s, step))
    ensures Apply(s, step).w.status
            == if FailingStep(s, step) then Failed else if step.ExternalAbort? then Aborted else s.w.status
  {
  }

  /** The status the last overwriting step of a run leaves, or `status` if there is none. */
  ghost function LastWritten(s: State, steps: seq<Step>, status: Status): Status
    decreases steps
  {
    if steps == [] || !Enabled(s, steps[0]) then status
    else
      var next := if FailingStep(s, steps[0]) then Failed else if steps[0].ExternalAbort? then Aborted else status;
      LastWritten(Apply(s, steps[0]), steps[1..], next)
  }

  /** From then on the status is what the last FAILED write of the exception handler or ABORTED write
      of `create_saga` left, and nothing else ever changes it: no crash, redelivery or recovery. */
  lemma {:induction false} FinishedStatusIff(s: State, steps: seq<Step>, s': State)
    requires Settled(s) && Run(s, steps, s')
    ensures Settled(s') && s'.w.status == LastWritten(s, steps, s.w.status)
    decreases steps
  {
    if steps == [] {
    } else {
      SettledStep(s, steps[0]);
      FinishedStatusIff(Apply(s, steps[0]), steps[1..], s');
    }
  }

  /** Every ABORTED write of `create_saga` in the run falls outside both windows. */
  ghost predicate AvoidsWindows(s: State, steps: seq<Step>)
    decreases steps
  {
    steps == [] ||
    (Enabled(s, steps[0]) && (steps[0].ExternalAbort? ==> !AboutToAbort(s) && !AboutToCommit(s)) &&
     AvoidsWindows(Apply(s, steps[0]), steps[1..]))
  }

  lemma OpenOrSettledStep(s: State, step: Step)
    requires Enabled(s, step) && (Open(s.w.status) || Settled(s))
    requires step.ExternalAbort? ==> !AboutToAbort(s) && !AboutToCommit(s)
    ensures Open(Apply(s, step).w.status) || Settled(Apply(s, step))
  {
  }

  /** In every run whose external writes avoid both windows, a saga that is finished is settled. */
  lemma {:induction false} FinishedIsSettled(s: State, steps: seq<Step>, s': State)
    requires (Open(s.w.status) || Settled(s)) && Run(s, steps, s') && AvoidsWindows(s, steps)
    ensures Open(s'.w.status) || Settled(s')
    decreases steps
  {
    if steps == [] {
    } else {
      OpenOrSettledStep(s, steps[0]);
      FinishedIsSettled(Apply(s, steps[0]), steps[1..], s');
    }
  }

  ghost predicate Undoes(s: State, steps: seq<Step>, s': State) {
    Run(s, steps, s') && ExternalAbort !in steps && !s'.w.status.Aborted? && !s'.w.status.Failed?
  }

  lemma {:induction false} AbortStands(s: State, steps: seq<Step>, s': State)
    requires Settled(s) && (s.w.status.Aborted? || s.w.status.Failed?) && Run(s, steps, s')
    ensures s'.w.status.Aborted? || s'.w.status.Failed?
    decreases steps
  {
    if steps == [] {
    } else {
      SettledStep(s, steps[0]);
      AbortStands(Apply(s, steps[0]), steps[1..], s');
    }
  }

  /** The ABORTED write of `create_saga` can be undone by the coordinator (by ABORTING or by COMMITTED)
      exactly when it falls into one of the two windows. */
  lemma ExternalAbortUndoneIff(s: State)
    ensures (exists steps, s' :: Undoes(Apply(s, ExternalAbort), steps, s')) <==> AboutToAbort(s) || AboutToCommit(s)
  {
    var s1 := Apply(s, ExternalAbort);
    if AboutToAbort(s) {
      var steps, s' := AboutToAbortReopens(s);
      assert Undoes(s1, steps, s');
    } else if AboutToCommit(s) {
      var steps, s' := AboutToCommitReplaces(s);
      assert Undoes(s1, steps, s');
    }
    forall steps, s' | Undoes(s1, steps, s') ensures AboutToAbort(s) || AboutToCommit(s) {
      if !AboutToAbort(s) && !AboutToCommit(s) {
        AbortStands(s1, steps, s');
      }
    }
  }

  /** A run in which a saga is COMMITTED, its outcome is not published because the send raises, and
      COMMITTED is then overwritten with FAILED. */
  lemma CommittedThenFailed(r: Region) returns (s: State, steps: seq<Step>, mid: State, more: seq<Step>, s': State)
    ensures Initial(s) && Run(s, steps, mid) && mid.w.status.Committed?
    ensures Run(mid, more, s') && s'.w.status.Failed? && s'.pc.Idle? && Finals(s') == 0
  {
    s := State(StartWorld([r]), [], Idle);
    var s1 := Apply(s, Receive(r, Yes));
    var w := Effect(s1).w;
    assert w.outcomes == [Entry(r, Yes)];
    HasRecorded([], r, Yes, r);
    assert !AnyRejected(w.outcomes);
    var s2 := Apply(s1, Proceed);
    assert s2.pc == Committing([r]);
    var s3 := Apply(s2, Proceed);
    assert s3.pc == MarkingCommitted;
    mid := Apply(s3, Proceed);
    assert Run(mid, [], mid);
    assert Run(s3, [Proceed], mid) by { assert [Proceed][1..] == []; }
    assert Run(s2, [Proceed, Proceed], mid) by { assert [Proceed, Proceed][1..] == [Proceed]; }
    assert Run(s1, [Proceed, Proceed, Proceed], mid) by {
      assert [Proceed, Proceed, Proceed][1..] == [Proceed, Proceed];
    }
    steps := [Receive(r, Yes), Proceed, Proceed, Proceed];
    assert steps[1..] == [Proceed, Proceed, Proceed];
    var s4 := Apply(mid, Raise(false));
    s' := Apply(s4, Proceed);
    more := [Raise(false), Proceed];
    assert Run(s', [], s');
    assert Run(s4, [Proceed], s') by { assert [Proceed][1..] == []; }
    assert more[1..] == [Proceed];
  }

  // ---------------------------------------------------------------- what can still be published

  /** Published, buffered, or the next thing the coordinator sends. */
  predicate StillSaid(s: State, m: Message) {
    m in s.w.log || m in s.buffer || (s.pc.Publishing? && m == Final(s.pc.final))
  }

  lemma SaidStep(s: State, step: Step, m: Message)
    requires OpenWhileDeciding(s) && !Open(s.w.status) && Enabled(s, step)
    ensures OpenWhileDeciding(Apply(s, step)) && !Open(Apply(s, step).w.status)
    ensures StillSaid(Apply(s, step), m) ==> StillSaid(s, m)
  {
    if step.Deliver? { assert s.buffer == [s.buffer[0]] + s.buffer[1..]; }
  }

  lemma {:induction false} NothingNewSaid(s: State, steps: seq<Step>, s': State, m: Message)
    requires OpenWhileDeciding(s) && !Open(s.w.status) && Run(s, steps, s')
    ensures StillSaid(s', m) ==> StillSaid(s, m)
    decreases steps
  {
    if steps == [] {
    } else {
      SaidStep(s, steps[0], m);
      NothingNewSaid(Apply(s, steps[0]), steps[1..], s', m);
    }
  }

  ghost predicate Comes(s: State, steps: seq<Step>, s': State, m: Message) {
    Run(s, steps, s') && m in s'.w.log
  }

  /** Once a saga is finished, a release or final outcome can ever be on its topic exactly when it is
      there, buffered, or about to be sent. So the final outcome is lost for good exactly when a
      crash or exception falls between the status write and its delivery, and a saga that FAILED
      never gives back a reservation whose release was not yet sent. */
  lemma MessageComesIff(s: State, m: Message)
    requires OpenWhileDeciding(s) && !Open(s.w.status)
    ensures (exists steps, s' :: Comes(s, steps, s', m)) <==> StillSaid(s, m)
  {
    forall steps, s' | Comes(s, steps, s', m) ensures StillSaid(s, m) { NothingNewSaid(s, steps, s', m); }
    if StillSaid(s, m) {
      var steps, s';
      if s.pc.Publishing? {
        var s1 := Apply(s, Proceed);
        var rest, s2 := Drain(s1);
        SmoothThen(s, Proceed, rest, s2);
        steps, s' := [Proceed] + rest, s2;
      } else {
        steps, s' := Drain(s);
      }
      assert m in s'.w.log;
      assert Comes(s, steps, s', m);
    }
  }

  /** A run in which reading the saga fails while the second region's answer is handled: the saga is
      FAILED, the first region's approved reservation is never released. */
  lemma FailedStrands(r: Region, q: Region) returns (s: State, steps: seq<Step>, s': State)
    requires r != q
    ensures Initial(s) && Run(s, steps, s') && ExternalAbort !in steps
    ensures s'.w.status.Failed? && Entry(r, Yes) in s'.w.outcomes
    ensures forall more, later :: !Comes(s', more, later, Release(r))
  {
    s := State(StartWorld([r, q]), [], Idle);
    var s1 := Apply(s, Receive(r, Yes));
    var w := Effect(s1).w;
    assert w.outcomes == [Entry(r, Yes)];
    HasRecorded([], r, Yes, q);
    assert !Has([], q);
    assert q in s.w.involved && !Complete(w.involved, w.outcomes);
    var s2 := Apply(s1, Proceed);
    var s3 := Apply(s2, ReceiveUnreadable);
    s' := Apply(s3, Proceed);
    assert Run(s', [], s');
    assert Run(s3, [Proceed], s') by { assert [Proceed][1..] == []; }
    assert Run(s2, [ReceiveUnreadable, Proceed], s') by { assert [ReceiveUnreadable, Proceed][1..] == [Proceed]; }
    assert Run(s1, [Proceed, ReceiveUnreadable, Proceed], s') by {
      assert [Proceed, ReceiveUnreadable, Proceed][1..] == [ReceiveUnreadable, Proceed];
    }
    steps := [Receive(r, Yes), Proceed, ReceiveUnreadable, Proceed];
    assert steps[1..] == [Proceed, ReceiveUnreadable, Proceed];
    MessageComesIff(s', Release(r));
  }
}
