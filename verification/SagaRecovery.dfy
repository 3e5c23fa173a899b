/** The step-by-step coordinator agrees with the fault-free functions of Saga.dfy, and crashes
    plus recovery reach the decision of the crash-free run. */
module SagaRecovery {
  import opened Saga
  import opened SagaRuns
  import opened SagaConfluence

  // ---------------------------------------------------------------- uninterrupted runs

  /** Steps in which nothing goes wrong. */
  predicate Smooth(step: Step) {
    step.StartRecovery? || step.Proceed? || step.Deliver?
  }

  ghost predicate SmoothRun(s: State, steps: seq<Step>, s': State) {
    Run(s, steps, s') && forall step | step in steps :: Smooth(step)
  }

  lemma {:induction false} RunConcat(s: State, xs: seq<Step>, mid: State, ys: seq<Step>, s': State)
    requires Run(s, xs, mid) && Run(mid, ys, s')
    ensures Run(s, xs + ys, s')
    decreases xs
  {
    if xs == [] {
      assert xs + ys == ys;
    } else {
      assert (xs + ys)[1..] == xs[1..] + ys;
      RunConcat(Apply(s, xs[0]), xs[1..], mid, ys, s');
    }
  }

  lemma SmoothConcat(s: State, xs: seq<Step>, mid: State, ys: seq<Step>, s': State)
    requires SmoothRun(s, xs, mid) && SmoothRun(mid, ys, s')
    ensures SmoothRun(s, xs + ys, s')
  {
    RunConcat(s, xs, mid, ys, s');
  }

  lemma SmoothOne(s: State, step: Step)
    requires Enabled(s, step) && Smooth(step)
    ensures SmoothRun(s, [step], Apply(s, step))
  {
    assert Run(Apply(s, step), [step][1..], Apply(s, step));
  }

  /** One step, then the rest. */
  lemma SmoothThen(s: State, step: Step, ys: seq<Step>, s': State)
    requires Enabled(s, step) && Smooth(step) && SmoothRun(Apply(s, step), ys, s')
    ensures SmoothRun(s, [step] + ys, s')
  {
    SmoothOne(s, step);
    SmoothConcat(s, [step], Apply(s, step), ys, s');
  }

  /** `flush` returns once everything buffered has been delivered. */
  lemma {:induction false} Drain(s: State) returns (steps: seq<Step>, s': State)
    ensures SmoothRun(s, steps, s')
    ensures s' == s.(w := s.w.(log := s.w.log + s.buffer), buffer := [])
    decreases |s.buffer|
  {
    if s.buffer == [] {
      steps, s' := [], s;
      assert s.w.log + s.buffer == s.w.log;
    } else {
      var s1 := Apply(s, Deliver);
      var rest, s2 := Drain(s1);
      SmoothThen(s, Deliver, rest, s2);
      steps, s' := [Deliver] + rest, s2;
      assert s.buffer == [s.buffer[0]] + s.buffer[1..];
      assert s1.w.log + s1.buffer == s.w.log + s.buffer;
    }
  }

  lemma {:induction false} ReleaseAlone(s: State, todo: seq<Region>, rec: bool) returns (steps: seq<Step>, s': State)
    requires s.pc == ToRelease(todo, rec)
    ensures SmoothRun(s, steps, s')
    ensures s' == State(s.w.(log := s.w.log + s.buffer + Releases(todo)), [], ToReject(s.w.involved, rec))
    decreases todo
  {
    if todo == [] {
      var drain, s1 := Drain(s);
      SmoothOne(s1, Proceed);
      SmoothConcat(s, drain, s1, [Proceed], Apply(s1, Proceed));
      steps, s' := drain + [Proceed], Apply(s1, Proceed);
      assert s.w.log + s.buffer + Releases([]) == s.w.log + s.buffer;
    } else {
      var s1 := Apply(s, Proceed);
      var rest, s2 := ReleaseAlone(s1, todo[1..], rec);
      SmoothThen(s, Proceed, rest, s2);
      steps, s' := [Proceed] + rest, s2;
      assert Releases(todo) == [Release(todo[0])] + Releases(todo[1..]);
      assert s1.w.log + s1.buffer + Releases(todo[1..]) == s.w.log + s.buffer + Releases(todo);
    }
  }

  lemma {:induction false} RejectAlone(s: State, todo: seq<Region>, rec: bool) returns (steps: seq<Step>, s': State)
    requires s.pc == ToReject(todo, rec)
    ensures SmoothRun(s, steps, s')
    ensures s' == s.(w := s.w.(own := s.w.own + Records(todo, No)), pc := MarkingAborted(rec))
    decreases todo
  {
    if todo == [] {
      steps, s' := [], s;
      assert s.w.own + Records([], No) == s.w.own;
    } else {
      var s1 := Apply(s, Proceed);
      var rest, s2 := RejectAlone(s1, todo[1..], rec);
      SmoothThen(s, Proceed, rest, s2);
      steps, s' := [Proceed] + rest, s2;
      assert Records(todo, No) == [Entry(todo[0], No)] + Records(todo[1..], No);
      assert s1.w.own + Records(todo[1..], No) == s.w.own + Records(todo, No);
    }
  }

  lemma {:induction false} CommitAlone(s: State, todo: seq<Region>) returns (steps: seq<Step>, s': State)
    requires s.pc == ToCommit(todo)
    ensures SmoothRun(s, steps, s')
    ensures s' == s.(w := s.w.(own := s.w.own + Records(todo, Yes)), pc := MarkingCommitted)
    decreases todo
  {
    if todo == [] {
      steps, s' := [], s;
      assert s.w.own + Records([], Yes) == s.w.own;
    } else {
      var s1 := Apply(s, Proceed);
      var rest, s2 := CommitAlone(s1, todo[1..]);
      SmoothThen(s, Proceed, rest, s2);
      steps, s' := [Proceed] + rest, s2;
      assert Records(todo, Yes) == [Entry(todo[0], Yes)] + Records(todo[1..], Yes);
      assert s1.w.own + Records(todo[1..], Yes) == s.w.own + Records(todo, Yes);
    }
  }

  /** Publishing the final outcome and flushing it. */
  lemma PublishAlone(s: State) returns (steps: seq<Step>, s': State)
    requires s.pc.Publishing? && s.buffer == []
    ensures SmoothRun(s, steps, s')
    ensures s' == State(s.w.(log := s.w.log + [Final(s.pc.final)]), [], Idle)
  {
    var s1 := Apply(s, Proceed);
    var s2 := Apply(s1, Deliver);
    var s3 := Apply(s2, Proceed);
    SmoothOne(s2, Proceed);
    SmoothThen(s1, Deliver, [Proceed], s3);
    SmoothThen(s, Proceed, [Deliver] + [Proceed], s3);
    steps, s' := [Proceed] + ([Deliver] + [Proceed]), s3;
    assert s1.buffer == [Final(s.pc.final)];
  }

  /** From the first release to the final message; what was buffered before is delivered first. */
  lemma AbortBuffered(s: State, rec: bool) returns (steps: seq<Step>, s': State)
    requires s.pc == ToRelease(ApprovedRegions(s.w.outcomes), rec)
    ensures SmoothRun(s, steps, s') && s' == State(Abort(s.w.(log := s.w.log + s.buffer)), [], Idle)
  {
    var a, s1 := ReleaseAlone(s, ApprovedRegions(s.w.outcomes), rec);
    var b, s2 := RejectAlone(s1, s.w.involved, rec);
    var s3 := Apply(s2, Proceed);
    var c, s4 := PublishAlone(s3);
    SmoothThen(s2, Proceed, c, s4);
    SmoothConcat(s1, b, s2, [Proceed] + c, s4);
    SmoothConcat(s, a, s1, b + ([Proceed] + c), s4);
    steps, s' := a + (b + ([Proceed] + c)), s4;
  }

  lemma AbortAlone(s: State, rec: bool) returns (steps: seq<Step>, s': State)
    requires s.pc == ToRelease(ApprovedRegions(s.w.outcomes), rec) && s.buffer == []
    ensures SmoothRun(s, steps, s') && s' == State(Abort(s.w), [], Idle)
  {
    steps, s' := AbortBuffered(s, rec);
    assert s.w.log + s.buffer == s.w.log;
  }

  lemma DecideAlone(s: State, w: World) returns (steps: seq<Step>, s': State)
    requires Open(w.status) && s == State(w, [], AfterRecording(w))
    ensures SmoothRun(s, steps, s') && s' == State(Decide(w), [], Idle)
  {
    if !Complete(w.involved, w.outcomes) {
      steps, s' := [], s;
    } else if AnyRejected(w.outcomes) {
      var s1 := Apply(s, Proceed);
      var a, s2 := AbortAlone(s1, false);
      SmoothThen(s, Proceed, a, s2);
      steps, s' := [Proceed] + a, s2;
    } else {
      var a, s1 := CommitAlone(s, w.involved);
      var s2 := Apply(s1, Proceed);
      var b, s3 := PublishAlone(s2);
      SmoothThen(s1, Proceed, b, s3);
      SmoothConcat(s, a, s1, [Proceed] + b, s3);
      steps, s' := a + ([Proceed] + b), s3;
    }
  }

  /** A run in which nothing goes wrong and only outcomes from `msgs` are received. */
  ghost predicate CalmRun(s: State, steps: seq<Step>, s': State, msgs: seq<Entry>) {
    && Run(s, steps, s')
    && forall step | step in steps :: Smooth(step) || (step.Receive? && Entry(step.region, step.verdict) in msgs)
  }

  /** Handling one outcome without interruption has exactly the effect of `Advance`. */
  lemma SoloAdvance(w: World, r: Region, v: Verdict) returns (steps: seq<Step>)
    ensures CalmRun(State(w, [], Idle), steps, State(Advance(w, r, v), [], Idle), [Entry(r, v)])
  {
    var s, step := State(w, [], Idle), Receive(r, v);
    var s1 := Apply(s, step);
    var rest: seq<Step> := [];
    var s3 := s1;
    if Open(w.status) {
      var w1 := w.(outcomes := Record(w.outcomes, r, v));
      var s2 := Apply(s1, Proceed);
      rest, s3 := DecideAlone(s2, w1);
      SmoothThen(s1, Proceed, rest, s3);
      rest := [Proceed] + rest;
    }
    steps := [step] + rest;
    assert steps[1..] == rest;
  }

  /** Recovering one saga without interruption has exactly the effect of `Recover`. */
  lemma SoloRecover(w: World) returns (steps: seq<Step>)
    ensures SmoothRun(State(w, [], Idle), steps, State(Recover(w), [], Idle))
  {
    var s := State(w, [], Idle);
    var s1 := Apply(s, StartRecovery);
    if w.status.Aborting? {
      var a, s2 := AbortAlone(s1, true);
      SmoothThen(s, StartRecovery, a, s2);
      steps := [StartRecovery] + a;
    } else if s1.pc.Idle? {
      SmoothOne(s, StartRecovery);
      steps := [StartRecovery];
    } else {
      var last := w.outcomes[|w.outcomes| - 1];
      var w1 := w.(outcomes := Record(w.outcomes, last.region, last.verdict));
      var s2 := Apply(s1, Proceed);
      var rest, s3 := DecideAlone(s2, w1);
      SmoothThen(s1, Proceed, rest, s3);
      SmoothThen(s, StartRecovery, [Proceed] + rest, s3);
      steps := [StartRecovery] + ([Proceed] + rest);
    }
  }

  /** Handling a list of outcomes without interruption has the effect of `AdvanceAll`. */
  lemma {:induction false} SoloAdvanceAll(w: World, msgs: seq<Entry>) returns (steps: seq<Step>)
    ensures CalmRun(State(w, [], Idle), steps, State(AdvanceAll(w, msgs), [], Idle), msgs)
    decreases msgs
  {
    if msgs == [] {
      steps := [];
    } else {
      var first := SoloAdvance(w, msgs[0].region, msgs[0].verdict);
      var w1 := Advance(w, msgs[0].region, msgs[0].verdict);
      var rest := SoloAdvanceAll(w1, msgs[1..]);
      RunConcat(State(w, [], Idle), first, State(w1, [], Idle), rest, State(AdvanceAll(w, msgs), [], Idle));
      assert msgs[0] in msgs && forall e | e in msgs[1..] :: e in msgs;
      steps := first + rest;
    }
  }

  // ---------------------------------------------------------------- the decision survives crashes

  /** Redelivered answers repeat the region's original verdict, the coordinator's own final message
      comes back (with any region, in fact "unknown") once it is published, and nobody but the
      coordinator writes the status. Crashes, exceptions and lost replies are unrestricted. */
  predicate Faithful(s: State, v: Answers, step: Step) {
    && !step.ExternalAbort?
    && (step.Receive? ==>
          Consistent(s.w.involved, v, Entry(step.region, step.verdict)) || Final(step.verdict) in s.w.log)
  }

  ghost predicate FaithfulRun(s: State, steps: seq<Step>, s': State, v: Answers)
    decreases steps
  {
    if steps == [] then s == s'
    else Enabled(s, steps[0]) && Faithful(s, v, steps[0]) && FaithfulRun(Apply(s, steps[0]), steps[1..], s', v)
  }

  ghost predicate Told(w: World, v: Answers) {
    forall e | e in w.outcomes :: Consistent(w.involved, v, e)
  }

  predicate WillAbort(pc: Pc) {
    match pc
    case MarkingAborting => true
    case Releasing(_, _) => true
    case FlushingReleases(_) => true
    case Rejecting(_, _) => true
    case MarkingAborted(_) => true
    case Publishing(f, _) => f.No?
    case _ => false
  }

  predicate WillCommit(pc: Pc) {
    match pc
    case Committing(_) => true
    case MarkingCommitted => true
    case Publishing(f, _) => f.Yes?
    case _ => false
  }

  predicate FinalOk(involved: seq<Region>, v: Answers, m: Message) {
    m.Final? ==> (m.verdict.Yes? <==> Decision(involved, v).Committed?)
  }

  ghost predicate Steady(s: State, v: Answers) {
    && Told(s.w, v)
    && (s.pc.Recording? ==> Consistent(s.w.involved, v, Entry(s.pc.region, s.pc.verdict)))
    && (WillAbort(s.pc) || s.w.status.Aborting? || s.w.status.Aborted? ==> Decision(s.w.involved, v).Aborted?)
    && (WillCommit(s.pc) || s.w.status.Committed? ==> Decision(s.w.involved, v).Committed?)
    && (forall m | m in s.w.log :: FinalOk(s.w.involved, v, m))
    && (forall m | m in s.buffer :: FinalOk(s.w.involved, v, m))
  }

  lemma ToldMore(w: World, v: Answers, e: Entry)
    requires Told(w, v) && Consistent(w.involved, v, e)
    ensures Told(w.(outcomes := Record(w.outcomes, e.region, e.verdict)), v)
  {
    RecordEffect(w.outcomes, e.region, e.verdict);
  }

  lemma SteadyEffect(s: State, v: Answers)
    requires Steady(s, v) && Todo(s.pc)
    ensures Steady(Effect(s).(pc := Idle), v) && Steady(Effect(s).(pc := MarkingFailed), v)
  {
    if s.pc.Recording? { ToldMore(s.w, v, Entry(s.pc.region, s.pc.verdict)); }
  }

  lemma SteadyNext(s: State, v: Answers)
    requires Steady(s, v) && Todo(s.pc) && !s.pc.Idle?
    ensures Steady(Effect(s).(pc := Next(s)), v)
  {
    SteadyEffect(s, v);
    if s.pc.Recording? {
      var w := Effect(s).w;
      if Complete(w.involved, w.outcomes) { OutcomesDecide(w, v); }
    }
  }

  lemma SteadyStart(s: State, v: Answers)
    requires Steady(s, v) && s.pc.Idle?
    ensures Steady(s.(pc := Begin(s)), v)
  {
    if Begin(s).Recording? {
      assert s.w.outcomes[|s.w.outcomes| - 1] in s.w.outcomes;
    }
  }

  /** The own final message finds the saga closed. */
  lemma FinalFindsClosed(s: State, v: Verdict)
    requires Once(s) && Final(v) in s.w.log
    ensures !Open(s.w.status)
  {
    assert Final(v) in multiset(s.w.log);
    assert v == Yes || v == No;
  }

  lemma SteadyStep(s: State, step: Step, v: Answers)
    requires Steady(s, v) && Once(s) && Enabled(s, step) && Faithful(s, v, step)
    ensures Steady(Apply(s, step), v)
  {
    match step
    case Proceed => SteadyNext(s, v);
    case Stumble(applied) => SteadyNext(s, v);
    case Raise(applied) => SteadyEffect(s, v);
    case StartRecovery => SteadyStart(s, v);
    case Deliver =>
      assert s.buffer[0] in s.buffer;
      assert forall m | m in s.buffer[1..] :: m in s.buffer;
    case Receive(_, x) => if Final(x) in s.w.log { FinalFindsClosed(s, x); }
    case _ =>
  }

  lemma InvolvedFixed(s: State, step: Step)
    requires Enabled(s, step)
    ensures Apply(s, step).w.involved == s.w.involved
  {
  }

  lemma {:induction false} SteadyRun(s: State, steps: seq<Step>, s': State, v: Answers)
    requires Steady(s, v) && Once(s) && FaithfulRun(s, steps, s', v)
    ensures Run(s, steps, s') && Steady(s', v) && s'.w.involved == s.w.involved
    decreases steps
  {
    if steps == [] {
    } else {
      SteadyStep(s, steps[0], v);
      OnceStep(s, steps[0]);
      InvolvedFixed(s, steps[0]);
      SteadyRun(Apply(s, steps[0]), steps[1..], s', v);
    }
  }

  /** With faithful redelivery, a saga only ever ends COMMITTED or ABORTED (and only ever
      publishes APPROVED or REJECTED) the way the regions' answers decide. */
  lemma DecisionSurvives(s: State, steps: seq<Step>, s': State, v: Answers)
    requires Initial(s) && FaithfulRun(s, steps, s', v)
    ensures s'.w.status.Committed? ==> Decision(s.w.involved, v).Committed?
    ensures s'.w.status.Aborted? ==> Decision(s.w.involved, v).Aborted?
    ensures forall m | m in s'.w.log :: FinalOk(s.w.involved, v, m)
  {
    SteadyRun(s, steps, s', v);
  }

  // ---------------------------------------------------------------- recovery gets there

  function AskedAgain(involved: seq<Region>, v: Answers): seq<Entry> {
    seq(|involved|, i requires 0 <= i < |involved| => Entry(involved[i], v(involved[i])))
  }

  /** From an open, correctly informed state, hearing every region again decides the saga. */
  lemma {:induction false} AnswersDecide(w: World, v: Answers, msgs: seq<Entry>)
    requires w.status.Pending? && Told(w, v) && !Complete(w.involved, w.outcomes)
    requires forall e | e in msgs :: Consistent(w.involved, v, e)
    requires forall r | r in w.involved :: Has(w.outcomes, r) || Has(msgs, r)
    ensures AdvanceAll(w, msgs).status == Decision(w.involved, v)
    ensures Final(if Decision(w.involved, v).Committed? then Yes else No) in AdvanceAll(w, msgs).log
    decreases msgs
  {
    if msgs == [] {
    } else {
      assert msgs[0] in msgs;
      var w1 := w.(outcomes := Record(w.outcomes, msgs[0].region, msgs[0].verdict));
      ToldMore(w, v, msgs[0]);
      if Complete(w.involved, w1.outcomes) {
        OutcomesDecide(w1, v);
        ClosedStays(Decide(w1), msgs[1..]);
      } else {
        forall r | r in w.involved ensures Has(w1.outcomes, r) || Has(msgs[1..], r) {
          HasRecorded(w.outcomes, msgs[0].region, msgs[0].verdict, r);
          HasTail(msgs, |msgs|, r);
          assert msgs[..|msgs|] == msgs && msgs[1..][..|msgs| - 1] == msgs[1..];
        }
        AnswersDecide(w1, v, msgs[1..]);
      }
    }
  }

  lemma AskedAgainCovers(involved: seq<Region>, v: Answers)
    ensures forall e | e in AskedAgain(involved, v) :: Consistent(involved, v, e)
    ensures forall r | r in involved :: Has(AskedAgain(involved, v), r)
  {
    var msgs := AskedAgain(involved, v);
    forall r | r in involved ensures Has(msgs, r) {
      var i :| 0 <= i < |involved| && involved[i] == r;
      assert msgs[i].region == r;
    }
  }

  /** The crash-free run: every region's answer, once. */
  lemma CrashFreeDecides(involved: seq<Region>, v: Answers)
    requires involved != []
    ensures AdvanceAll(StartWorld(involved), AskedAgain(involved, v)).status == Decision(involved, v)
  {
    StartGathers(involved, v);
    AskedAgainCovers(involved, v);
    AnswersDecide(StartWorld(involved), v, AskedAgain(involved, v));
  }

  /** Recovering an informed open saga either decides it or leaves it waiting for answers. */
  lemma RecoverDecidesOrWaits(w: World, v: Answers)
    requires Open(w.status) && Told(w, v) && w.involved != [] &&
        (w.status.Aborting? ==> Decision(w.involved, v).Aborted?)
    ensures Recover(w) == w || Recover(w).status == Decision(w.involved, v)
    ensures Recover(w) == w ==> w.status.Pending? && !Complete(w.involved, w.outcomes)
    ensures Recover(w) != w ==> Final(if Decision(w.involved, v).Committed? then Yes else No) in Recover(w).log
  {
    if w.status.Pending? && Complete(w.involved, w.outcomes) {
      assert w.involved[0] in w.involved && Has(w.outcomes, w.involved[0]);
      var last := w.outcomes[|w.outcomes| - 1];
      assert last in w.outcomes;
      var w1 := w.(outcomes := Record(w.outcomes, last.region, last.verdict));
      ToldMore(w, v, last);
      forall r | r in w.involved ensures Has(w1.outcomes, r) {
        HasRecorded(w.outcomes, last.region, last.verdict, r);
      }
      OutcomesDecide(w1, v);
    }
  }

  /** The redelivered answers repeat original verdicts and cover every region that was not recorded. */
  predicate Covers(w: World, v: Answers, asked: seq<Entry>) {
    && (forall e | e in asked :: Consistent(w.involved, v, e))
    && (forall r | r in w.involved :: Has(w.outcomes, r) || Has(asked, r))
  }

  /** Whatever happened before (crashes and redeliveries included), if the coordinator dies while
      the saga is open, then recovering it and handling any list of redelivered answers that covers
      the missing ones, in any order and with any repetition, reaches the decision of the crash-free
      run, with its final message published. */
  lemma RecoveryReachesDecision(s: State, steps: seq<Step>, dead: State, v: Answers, asked: seq<Entry>)
    returns (more: seq<Step>, s': State)
    requires Initial(s) && s.w.involved != [] && FaithfulRun(s, steps, dead, v)
    requires Open(dead.w.status) && Covers(dead.w, v, asked)
    ensures Run(dead, [Crash] + more, s') && s' == State(AdvanceAll(Recover(dead.w), asked), [], Idle)
    ensures forall step | step in more :: Smooth(step) || (step.Receive? && Entry(step.region, step.verdict) in asked)
    ensures s'.w.status == Decision(s.w.involved, v)
    ensures AdvanceAll(StartWorld(s.w.involved), AskedAgain(s.w.involved, v)).status == Decision(s.w.involved, v)
    ensures Final(if Decision(s.w.involved, v).Committed? then Yes else No) in s'.w.log
  {
    SteadyRun(s, steps, dead, v);
    CrashFreeDecides(s.w.involved, v);
    RecoverDecidesOrWaits(dead.w, v);
    var idle, recovered := State(dead.w, [], Idle), State(Recover(dead.w), [], Idle);
    var recovery := SoloRecover(dead.w);
    var again := SoloAdvanceAll(Recover(dead.w), asked);
    s' := State(AdvanceAll(Recover(dead.w), asked), [], Idle);
    RunConcat(idle, recovery, recovered, again, s');
    more := recovery + again;
    if Recover(dead.w) == dead.w {
      AnswersDecide(dead.w, v, asked);
    } else {
      ClosedStays(Recover(dead.w), asked);
    }
    assert idle == Apply(dead, Crash);
    assert ([Crash] + more)[1..] == more;
  }

  // ---------------------------------------------------------------- recovery never gives up

  /** What can happen while sagas are recovered: faults and crashes at any moment, but no outcome is
      received and nobody else writes the status. */
  predicate WhileRecovering(step: Step) {
    step.StartRecovery? || step.Proceed? || step.Stumble? || step.Raise? || step.Deliver? || step.Crash?
  }

  /** Undoing a saga in a recovery, or between two. */
  predicate Undoing(s: State) {
    && (s.w.status.Aborting? || s.w.status.Aborted?)
    && match s.pc
       case Idle => true
       case Releasing(_, rec) => rec
       case FlushingReleases(rec) => rec
       case Rejecting(_, rec) => rec
       case MarkingAborted(rec) => rec
       case Publishing(final, rec) => rec && final.No?
       case FlushingFinal(rec) => rec
       case _ => false
  }

  lemma UndoingStep(s: State, step: Step)
    requires Undoing(s) && Enabled(s, step) && WhileRecovering(step)
    ensures Undoing(Apply(s, step)) && Apply(s, step).w.outcomes == s.w.outcomes
  {
  }

  lemma {:induction false} UndoingRun(s: State, steps: seq<Step>, s': State)
    requires Undoing(s) && Run(s, steps, s') && forall step | step in steps :: WhileRecovering(step)
    ensures Undoing(s') && s'.w.outcomes == s.w.outcomes
    decreases steps
  {
    if steps == [] {
    } else {
      assert steps[0] in steps;
      UndoingStep(s, steps[0]);
      UndoingRun(Apply(s, steps[0]), steps[1..], s');
    }
  }

  /** An aborting saga that is being recovered never becomes FAILED, whatever raises or crashes: it
      stays ABORTING until it is ABORTED. */
  lemma RecoveryNeverFails(s: State, steps: seq<Step>, s': State)
    requires s.pc.Idle? && s.w.status.Aborting?
    requires Run(s, steps, s') && forall step | step in steps :: WhileRecovering(step)
    ensures s'.w.status.Aborting? || s'.w.status.Aborted?
  {
    UndoingRun(s, steps, s');
  }

  /** However often its recovery was broken off, a saga that is still ABORTING is finished by the next
      recovery that is not: it is ABORTED, every approved region gets its release, and the refusal
      is published. */
  lemma NextRecoveryFinishes(s: State, steps: seq<Step>, s': State) returns (more: seq<Step>, end: State)
    requires s.pc.Idle? && s.w.status.Aborting?
    requires Run(s, steps, s') && forall step | step in steps :: WhileRecovering(step)
    requires s'.pc.Idle? && s'.w.status.Aborting?
    ensures SmoothRun(s', more, end) && end.pc.Idle? && end.buffer == [] && end.w.status.Aborted?
    ensures forall r | Entry(r, Yes) in s.w.outcomes :: Release(r) in end.w.log
    ensures Final(No) in end.w.log && forall m | m in s'.w.log + s'.buffer :: m in end.w.log
  {
    UndoingRun(s, steps, s');
    var rest;
    rest, end := AbortBuffered(Apply(s', StartRecovery), true);
    SmoothThen(s', StartRecovery, rest, end);
    more := [StartRecovery] + rest;
    var regions := ApprovedRegions(s.w.outcomes);
    forall r | Entry(r, Yes) in s.w.outcomes ensures Release(r) in end.w.log {
      ApprovedRegionsIff(s.w.outcomes, r);
      var i :| 0 <= i < |regions| && regions[i] == r;
      assert Releases(regions)[i] == Release(r);
    }
  }

  /** Handling an outcome, or done with it. */
  predicate Advancing(pc: Pc) {
    match pc
    case Idle => true
    case Recording(_, _) => true
    case MarkingAborting => true
    case Releasing(_, rec) => !rec
    case FlushingReleases(rec) => !rec
    case Rejecting(_, rec) => !rec
    case MarkingAborted(rec) => !rec
    case Committing(_) => true
    case MarkingCommitted => true
    case Publishing(_, rec) => !rec
    case FlushingFinal(rec) => !rec
    case MarkingFailed => false
  }

  predicate WithoutException(step: Step) {
    step.Proceed? || step.Stumble? || step.Deliver?
  }

  lemma {:induction false} AdvancingRun(s: State, steps: seq<Step>, s': State)
    requires Advancing(s.pc) && Run(s, steps, s') && forall step | step in steps :: WithoutException(step)
    ensures Advancing(s'.pc)
    decreases steps
  {
    if steps == [] {
    } else {
      assert steps[0] in steps;
      AdvancingRun(Apply(s, steps[0]), steps[1..], s');
    }
  }

  /** Where outcomes are handled it is otherwise: an exception anywhere after an outcome is received, or
      after the recovery of a pending saga replays its last one, makes the coordinator write FAILED
      next, whether the statement that raised took effect or not. */
  lemma AdvanceFails(s: State, first: Step, steps: seq<Step>, mid: State, applied: bool)
    returns (failed: State)
    requires s.pc.Idle? && (first.Receive? || (first.StartRecovery? && s.w.status.Pending?))
    requires Run(s, [first] + steps, mid) && forall step | step in steps :: WithoutException(step)
    requires Enabled(mid, Raise(applied))
    ensures Run(mid, [Raise(applied), Proceed], failed) && failed.w.status.Failed? && failed.pc.Idle?
  {
    assert ([first] + steps)[1..] == steps;
    AdvancingRun(Apply(s, first), steps, mid);
    var raised := Apply(mid, Raise(applied));
    failed := Apply(raised, Proceed);
    assert [Raise(applied), Proceed][1..] == [Proceed] && [Proceed][1..] == [];
    assert Run(raised, [Proceed], failed);
  }
}
