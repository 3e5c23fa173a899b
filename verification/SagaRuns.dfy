/** The saga coordinator split into its single durable effects, so that a crash, an exception or a
    lost reply can fall between any two (services/journey-management/main.py).

    One coordinator runs at a time. `producer.send` only fills a buffer: a buffered message may be
    delivered at any moment, `flush` waits until the buffer is empty, a crash loses what is left. */
module SagaRuns {
  import opened Saga

  datatype Pc =
    | Idle
    | Recording(region: Region, verdict: Verdict)
    | MarkingAborting
    | Releasing(todo: seq<Region>, recovering: bool)
    | FlushingReleases(recovering: bool)
    | Rejecting(todo: seq<Region>, recovering: bool)
    | MarkingAborted(recovering: bool)
    | Committing(todo: seq<Region>)
    | MarkingCommitted
    | Publishing(final: Verdict, recovering: bool)
    | FlushingFinal(recovering: bool)
    | MarkingFailed

  datatype State = State(w: World, buffer: seq<Message>, pc: Pc)

  datatype Step =
    | Receive(region: Region, verdict: Verdict)
    | ReceiveUnreadable
    | StartRecovery
    | Proceed
    | Stumble(applied: bool)
    | Raise(applied: bool)
    | Deliver
    | Crash
    | ExternalAbort

  // ---------------------------------------------------------------- control flow

  function ToRelease(todo: seq<Region>, recovering: bool): Pc {
    if todo == [] then FlushingReleases(recovering) else Releasing(todo, recovering)
  }

  function ToReject(todo: seq<Region>, recovering: bool): Pc {
    if todo == [] then MarkingAborted(recovering) else Rejecting(todo, recovering)
  }

  function ToCommit(todo: seq<Region>): Pc {
    if todo == [] then MarkingCommitted else Committing(todo)
  }

  function AfterRecording(w: World): Pc {
    if !Complete(w.involved, w.outcomes) then Idle
    else if AnyRejected(w.outcomes) then MarkingAborting
    else ToCommit(w.involved)
  }

  predicate Todo(pc: Pc) {
    match pc
    case Releasing(todo, _) => todo != []
    case Rejecting(todo, _) => todo != []
    case Committing(todo) => todo != []
    case _ => true
  }

  /** The exception handler that is active: recovery only logs, `_advance_saga` marks the saga FAILED. */
  predicate InRecovery(pc: Pc) {
    match pc
    case Releasing(_, r) => r
    case FlushingReleases(r) => r
    case Rejecting(_, r) => r
    case MarkingAborted(r) => r
    case Publishing(_, r) => r
    case FlushingFinal(r) => r
    case _ => false
  }

  /** The effect of the statement the coordinator stands at. */
  function Effect(s: State): State
    requires Todo(s.pc)
  {
    match s.pc
    case Idle => s
    case Recording(r, v) => s.(w := s.w.(outcomes := Record(s.w.outcomes, r, v)))
    case MarkingAborting => s.(w := s.w.(status := Aborting))
    case Releasing(todo, _) => s.(buffer := s.buffer + [Release(todo[0])])
    case FlushingReleases(_) => s
    case Rejecting(todo, _) => s.(w := s.w.(own := s.w.own + [Entry(todo[0], No)]))
    case MarkingAborted(_) => s.(w := s.w.(status := Aborted))
    case Committing(todo) => s.(w := s.w.(own := s.w.own + [Entry(todo[0], Yes)]))
    case MarkingCommitted => s.(w := s.w.(status := Committed))
    case Publishing(v, _) => s.(buffer := s.buffer + [Final(v)])
    case FlushingFinal(_) => s
    case MarkingFailed => s.(w := s.w.(status := Failed))
  }

  /** Where the coordinator goes after the effect. */
  function Next(s: State): Pc
    requires Todo(s.pc)
  {
    match s.pc
    case Idle => Idle
    case Recording(r, v) => AfterRecording(s.w.(outcomes := Record(s.w.outcomes, r, v)))
    case MarkingAborting => ToRelease(ApprovedRegions(s.w.outcomes), false)
    case Releasing(todo, rec) => ToRelease(todo[1..], rec)
    case FlushingReleases(rec) => ToReject(s.w.involved, rec)
    case Rejecting(todo, rec) => ToReject(todo[1..], rec)
    case MarkingAborted(rec) => Publishing(No, rec)
    case Committing(todo) => ToCommit(todo[1..])
    case MarkingCommitted => Publishing(Yes, false)
    case Publishing(_, rec) => FlushingFinal(rec)
    case FlushingFinal(_) => Idle
    case MarkingFailed => Idle
  }

  predicate Flushing(pc: Pc) {
    pc.FlushingReleases? || pc.FlushingFinal?
  }

  predicate Enabled(s: State, step: Step) {
    match step
    case Receive(_, _) => s.pc.Idle?
    case ReceiveUnreadable => s.pc.Idle?
    case StartRecovery => s.pc.Idle?
    case Proceed => !s.pc.Idle? && Todo(s.pc) && (Flushing(s.pc) ==> s.buffer == [])
    case Stumble(_) => (s.pc.Rejecting? || s.pc.Committing?) && Todo(s.pc)
    case Raise(_) => !s.pc.Idle? && !s.pc.Rejecting? && Todo(s.pc)
    case Deliver => s.buffer != []
    case Crash => true
    case ExternalAbort => true
  }

  function Begin(s: State): Pc {
    match s.w.status
    case Aborting => ToRelease(ApprovedRegions(s.w.outcomes), true)
    case Pending =>
      if Complete(s.w.involved, s.w.outcomes) && s.w.outcomes != [] then
        var last := s.w.outcomes[|s.w.outcomes| - 1];
        Recording(last.region, last.verdict)
      else Idle
    case _ => Idle
  }

  function Apply(s: State, step: Step): State
    requires Enabled(s, step)
  {
    match step
    case Receive(r, v) => if Open(s.w.status) then s.(pc := Recording(r, v)) else s
    case ReceiveUnreadable => s.(pc := MarkingFailed)
    case StartRecovery => s.(pc := Begin(s))
    case Proceed => Effect(s).(pc := Next(s))
    case Stumble(applied) =>
      var s1 := if applied then Effect(s) else s;
      if s.pc.Committing? then s1.(w := s1.w.(global := s1.w.global + [s.pc.todo[0]]), pc := Next(s))
      else s1.(pc := Next(s))
    case Raise(applied) =>
      var s1 := if applied then Effect(s) else s;
      s1.(pc := if s.pc.MarkingFailed? || InRecovery(s.pc) then Idle else MarkingFailed)
    case Deliver => s.(w := s.w.(log := s.w.log + [s.buffer[0]]), buffer := s.buffer[1..])
    case Crash => s.(buffer := [], pc := Idle)
    case ExternalAbort => s.(w := s.w.(status := Aborted))
  }

  ghost predicate Run(s: State, steps: seq<Step>, s': State)
    decreases steps
  {
    if steps == [] then s == s'
    else Enabled(s, steps[0]) && Run(Apply(s, steps[0]), steps[1..], s')
  }

  predicate Initial(s: State) {
    s == State(StartWorld(s.w.involved), [], Idle)
  }

  // ---------------------------------------------------------------- at most one final outcome

  /** Final outcomes delivered or on their way. */
  function Finals(s: State): nat {
    var m := multiset(s.w.log) + multiset(s.buffer);
    m[Final(Yes)] + m[Final(No)]
  }

  predicate Once(s: State) {
    && Finals(s) <= 1
    && (Finals(s) == 1 ==> SaidIt(s))
    && (s.pc.Publishing? ==> !Open(s.w.status))
  }

  lemma FinalsSent(s: State, m: Message)
    ensures Finals(s.(buffer := s.buffer + [m])) == Finals(s) + if m.Final? then 1 else 0
  {
    assert multiset(s.buffer + [m]) == multiset(s.buffer) + multiset{m};
    if m.Final? { assert m.verdict == Yes || m.verdict == No; }
  }

  lemma FinalsDelivered(s: State)
    requires s.buffer != []
    ensures Finals(Apply(s, Deliver)) == Finals(s)
  {
    assert s.buffer == [s.buffer[0]] + s.buffer[1..];
  }

  lemma FinalsOfEffect(s: State)
    requires Todo(s.pc)
    ensures Finals(Effect(s)) == Finals(s) + if s.pc.Publishing? then 1 else 0
  {
    if s.pc.Publishing? { FinalsSent(s, Final(s.pc.final)); }
    if s.pc.Releasing? { FinalsSent(s, Release(s.pc.todo[0])); }
  }

  lemma FinalsStep(s: State, step: Step)
    requires Enabled(s, step)
    ensures Finals(Apply(s, step)) <= Finals(s) + if s.pc.Publishing? && (step.Proceed? || step.Raise?) then 1 else 0
  {
    var s' := Apply(s, step);
    match step
    case Deliver => FinalsDelivered(s);
    case Proceed => FinalsOfEffect(s); assert Finals(s') == Finals(Effect(s));
    case Stumble(applied) => FinalsOfEffect(s); assert Finals(s') == Finals(s);
    case Raise(applied) => FinalsOfEffect(s); assert Finals(s') == Finals(if applied then Effect(s) else s);
    case _ => assert Finals(s') <= Finals(s);
  }

  /** Where the coordinator can be once the final outcome is sent. */
  predicate SaidIt(s: State) {
    !Open(s.w.status) && (s.pc.Idle? || s.pc.FlushingFinal? || s.pc.MarkingFailed?)
  }

  lemma SaidItStays(s: State, step: Step)
    requires SaidIt(s) && Enabled(s, step)
    ensures SaidIt(Apply(s, step))
  {
  }

  lemma PublishingIsClosed(s: State, step: Step)
    requires Enabled(s, step) && (s.pc.Publishing? ==> !Open(s.w.status))
    ensures Apply(s, step).pc.Publishing? ==> !Open(Apply(s, step).w.status)
    ensures s.pc.Publishing? && (step.Proceed? || step.Raise?) ==> SaidIt(Apply(s, step))
  {
  }

  lemma OnceStep(s: State, step: Step)
    requires Once(s) && Enabled(s, step)
    ensures Once(Apply(s, step))
  {
    FinalsStep(s, step);
    PublishingIsClosed(s, step);
    if SaidIt(s) { SaidItStays(s, step); }
  }

  /** Whatever crashes, exceptions, lost replies, redeliveries (with any region and any verdict)
      and recoveries happen, at most one final outcome is ever published for a saga. */
  lemma {:induction false} AtMostOneFinal(s: State, steps: seq<Step>, s': State)
    requires Once(s) && Run(s, steps, s')
    ensures Once(s')
    ensures multiset(s'.w.log)[Final(Yes)] + multiset(s'.w.log)[Final(No)] <= 1
    decreases steps
  {
    if steps == [] {
    } else {
      OnceStep(s, steps[0]);
      AtMostOneFinal(Apply(s, steps[0]), steps[1..], s');
    }
  }

  lemma NeverBothOutcomes(s: State, steps: seq<Step>, s': State)
    requires Initial(s) && Run(s, steps, s')
    ensures !(Final(Yes) in s'.w.log && Final(No) in s'.w.log)
  {
    AtMostOneFinal(s, steps, s');
  }

  // ---------------------------------------------------------------- deciding

  /** Past the status check and before the final status write. */
  predicate Deciding(pc: Pc) {
    match pc
    case Idle => false
    case Publishing(_, _) => false
    case FlushingFinal(_) => false
    case MarkingFailed => false
    case _ => true
  }

  predicate OpenWhileDeciding(s: State) {
    Deciding(s.pc) ==> Open(s.w.status)
  }

  lemma {:induction false} OpenWhileDecidingRun(s: State, steps: seq<Step>, s': State)
    requires OpenWhileDeciding(s) && Run(s, steps, s') && ExternalAbort !in steps
    ensures OpenWhileDeciding(s')
    decreases steps
  {
    if steps == [] {
    } else {
      assert steps[0] in steps;
      OpenWhileDecidingRun(Apply(s, steps[0]), steps[1..], s');
    }
  }

  // ---------------------------------------------------------------- completion obligations

  predicate Unanimous(w: World) {
    Complete(w.involved, w.outcomes) && !AnyRejected(w.outcomes)
  }

  predicate Booked(w: World, r: Region) {
    Entry(r, Yes) in w.own || r in w.global
  }

  /** Every region recorded as approved has had its release delivered. */
  ghost predicate AllReleased(w: World) {
    forall r | Entry(r, Yes) in w.outcomes :: Release(r) in w.log
  }

  ghost predicate AllBooked(w: World) {
    Unanimous(w) && forall r | r in w.involved :: Booked(w, r)
  }

  predicate Sent(s: State, r: Region) {
    Release(r) in s.w.log || Release(r) in s.buffer
  }

  ghost predicate Progress(s: State) {
    match s.pc
    case Releasing(todo, _) => forall r | Entry(r, Yes) in s.w.outcomes :: r in todo || Sent(s, r)
    case FlushingReleases(_) => forall r | Entry(r, Yes) in s.w.outcomes :: Sent(s, r)
    case Rejecting(_, _) => AllReleased(s.w)
    case MarkingAborted(_) => AllReleased(s.w)
    case Committing(todo) => Unanimous(s.w) && forall r | r in s.w.involved :: r in todo || Booked(s.w, r)
    case MarkingCommitted => AllBooked(s.w)
    case _ => true
  }

  ghost predicate Obliged(s: State) {
    && OpenWhileDeciding(s) && Progress(s)
    && (s.w.status.Aborted? ==> AllReleased(s.w))
    && (s.w.status.Committed? ==> AllBooked(s.w))
  }

  lemma StartReleasing(s: State, recovering: bool)
    ensures Progress(s.(pc := ToRelease(ApprovedRegions(s.w.outcomes), recovering)))
  {
    forall r | Entry(r, Yes) in s.w.outcomes ensures r in ApprovedRegions(s.w.outcomes) {
      ApprovedRegionsIff(s.w.outcomes, r);
    }
  }

  lemma ObligedProceed(s: State)
    requires Obliged(s) && Enabled(s, Proceed)
    ensures Obliged(Apply(s, Proceed))
  {
    var s' := Apply(s, Proceed);
    match s.pc {
      case MarkingAborting =>
        StartReleasing(Effect(s), false);
      case Releasing(todo, rec) =>
        assert todo == [todo[0]] + todo[1..];
        forall r | Entry(r, Yes) in s.w.outcomes ensures r in todo[1..] || Sent(s', r) {
          if r == todo[0] { assert Release(r) in s'.buffer; }
        }
      case Committing(todo) =>
        assert todo == [todo[0]] + todo[1..];
        forall r | r in s.w.involved ensures r in todo[1..] || Booked(s'.w, r) {
          assert r in todo || Booked(s.w, r);
        }
      case _ =>
    }
  }

  lemma ObligedStumble(s: State, applied: bool)
    requires Obliged(s) && Enabled(s, Stumble(applied))
    ensures Obliged(Apply(s, Stumble(applied)))
  {
    var s' := Apply(s, Stumble(applied));
    if s.pc.Committing? {
      var todo := s.pc.todo;
      assert todo == [todo[0]] + todo[1..];
      forall r | r in s.w.involved ensures r in todo[1..] || Booked(s'.w, r) {
        assert r in todo || Booked(s.w, r);
      }
    }
  }

  lemma ObligedDeliver(s: State)
    requires Obliged(s) && s.buffer != []
    ensures Obliged(Apply(s, Deliver))
  {
    var s' := Apply(s, Deliver);
    assert s.buffer == [s.buffer[0]] + s.buffer[1..];
    forall r | Sent(s, r) ensures Sent(s', r) {}
  }

  lemma ObligedStep(s: State, step: Step)
    requires Obliged(s) && Enabled(s, step) && !step.ExternalAbort?
    ensures Obliged(Apply(s, step))
  {
    match step
    case Proceed => ObligedProceed(s);
    case Stumble(applied) => ObligedStumble(s, applied);
    case Deliver => ObligedDeliver(s);
    case StartRecovery => StartReleasing(s, true);
    case _ =>
  }

  lemma {:induction false} ObligedRun(s: State, steps: seq<Step>, s': State)
    requires Obliged(s) && Run(s, steps, s') && ExternalAbort !in steps
    ensures Obliged(s')
    decreases steps
  {
    if steps == [] {
    } else {
      assert steps[0] in steps;
      ObligedStep(s, steps[0]);
      ObligedRun(Apply(s, steps[0]), steps[1..], s');
    }
  }

  /** Whenever a saga is ABORTED, a release has been delivered for every region recorded as
      approved; whenever it is COMMITTED, every involved region approved and has a booking record
      in its own or in the global store. Crashes and exceptions may fall anywhere. */
  lemma CompletionObligations(s: State, steps: seq<Step>, s': State)
    requires Initial(s) && Run(s, steps, s') && ExternalAbort !in steps
    ensures s'.w.status.Aborted? ==> AllReleased(s'.w)
    ensures s'.w.status.Committed? ==> AllBooked(s'.w)
  {
    ObligedRun(s, steps, s');
  }
}
