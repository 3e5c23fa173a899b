/** The segment reservation protocol of services/validation-service/main.py at the granularity
    of single Redis commands: any number of attempts, in any interleaving, with worker crashes,
    lost replies, lock expiry, capacity seeding and lock-free releases.

    `locks` maps a lock key to the attempt that set it. Redis stores only "1": no step of the
    service reads the number, it is there for the proofs. */
module Reservation {
  import opened Options
  import opened Lex
  import opened RegionalRedis

  datatype Phase =
    | Locking
    | Checking(i: nat, seen: Option<int>)
    | AskingVehicle
    | Counting
    | Unlocking
    | Done
    | Crashed

  datatype Verdict = Undecided | Reserved | Contention(key: Key, holder: nat) | AtCapacity(key: Key) | Busy | Fault

  /** One call of `validate_and_reserve`. `locked` counts the SET NX that took effect, `held` is the
      length of the `acquired` list, `counted` the INCR that took effect (all along `keys`).
      `returning` is what a release message for this reservation still has to give back. */
  datatype Attempt = Attempt(
    keys: seq<Key>, locked: nat, held: nat, counted: nat,
    phase: Phase, verdict: Verdict,
    returning: Option<seq<Key>>, returned: set<Key>)

  datatype State = State(locks: map<Key, nat>, cap: map<Key, int>, cur: map<Key, int>, attempts: seq<Attempt>)

  datatype Step =
    | Start(segments: seq<Segment>)
    | TryLock(a: nat)
    | LoseLock(a: nat, applied: bool)
    | ReadCapacity(a: nat)
    | ReadCurrent(a: nat)
    | AskVehicle(a: nat, busy: bool)
    | FailRead(a: nat)
    | Count(a: nat)
    | LoseCount(a: nat, applied: bool)
    | Unlock(a: nat, removed: bool)
    | Crash(a: nat)
    | ExpireOrphan(k: Key)
    | ExpireHeld(k: Key)
    | BeginRelease(a: nat, order: seq<Key>)
    | ReleaseOne(a: nat)
    | StrayRelease(k: Key)
    | SeedCapacity(k: Key, c: nat)
    | SeedCurrent(k: Key)

  predicate Live(t: Attempt) {
    !t.phase.Done? && !t.phase.Crashed?
  }

  /** Attempt `a` is alive and has `k` in its `acquired` list. */
  predicate HeldByLive(s: State, a: nat, k: Key) {
    a < |s.attempts| && Live(s.attempts[a]) && s.attempts[a].held <= |s.attempts[a].keys|
    && k in s.attempts[a].keys[..s.attempts[a].held]
  }

  predicate Enabled(s: State, step: Step) {
    match step
    case Start(_) => true
    case TryLock(a) => InPhase(s, a) && s.attempts[a].phase.Locking? && s.attempts[a].locked < |s.attempts[a].keys|
    case LoseLock(a, applied) =>
      && InPhase(s, a) && s.attempts[a].phase.Locking? && s.attempts[a].locked < |s.attempts[a].keys|
      && (applied ==> s.attempts[a].keys[s.attempts[a].locked] !in s.locks)
    case ReadCapacity(a) => InPhase(s, a) && AtCheck(s.attempts[a]) && s.attempts[a].phase.seen.None?
    case ReadCurrent(a) => InPhase(s, a) && AtCheck(s.attempts[a]) && s.attempts[a].phase.seen.Some?
    case AskVehicle(a, _) => InPhase(s, a) && s.attempts[a].phase.AskingVehicle?
    case FailRead(a) => InPhase(s, a) && (s.attempts[a].phase.Checking? || s.attempts[a].phase.AskingVehicle?)
    case Count(a) => InPhase(s, a) && s.attempts[a].phase.Counting? && s.attempts[a].counted < |s.attempts[a].keys|
    case LoseCount(a, _) => InPhase(s, a) && s.attempts[a].phase.Counting? &&
        s.attempts[a].counted < |s.attempts[a].keys|
    case Unlock(a, _) => InPhase(s, a) && s.attempts[a].phase.Unlocking? &&
        0 < s.attempts[a].held <= |s.attempts[a].keys|
    case Crash(a) => InPhase(s, a)
    case ExpireOrphan(k) => k in s.locks && !HeldByLive(s, s.locks[k], k)
    case ExpireHeld(k) => k in s.locks
    case BeginRelease(a, order) =>
      && a < |s.attempts| && s.attempts[a].phase.Done? && s.attempts[a].verdict.Reserved?
      && s.attempts[a].returning.None? && multiset(order) == multiset(s.attempts[a].keys)
    case ReleaseOne(a) =>
      a < |s.attempts| && s.attempts[a].returning.Some? && s.attempts[a].returning.value != []
    case StrayRelease(_) => true
    case SeedCapacity(_, _) => true
    case SeedCurrent(_) => true
  }

  predicate InPhase(s: State, a: nat) {
    a < |s.attempts| && Live(s.attempts[a])
  }

  predicate AtCheck(t: Attempt) {
    t.phase.Checking? && t.phase.i < |t.keys|
  }

  /** The `finally` block: unlock what was acquired, or return at once. */
  function Leave(t: Attempt, verdict: Verdict): Attempt {
    t.(verdict := verdict, phase := if t.held == 0 then Done else Unlocking)
  }

  function CheckFrom(t: Attempt, i: nat): Attempt {
    t.(phase := if i < |t.keys| then Checking(i, None) else AskingVehicle)
  }

  function CountOn(t: Attempt): Attempt {
    if t.counted < |t.keys| then t.(phase := Counting) else Leave(t, Reserved)
  }

  function Arrived(segments: seq<Segment>): Attempt {
    var t := Attempt(Sort(KeysOf(segments)), 0, 0, 0, Locking, Undecided, None, {});
    if t.keys == [] then t.(phase := AskingVehicle) else t
  }

  function Locked(t: Attempt): Attempt {
    var u := t.(locked := t.locked + 1, held := t.held + 1);
    if u.locked < |u.keys| then u else CheckFrom(u, 0)
  }

  function Put(s: State, a: nat, t: Attempt): State
    requires a < |s.attempts|
  {
    s.(attempts := s.attempts[a := t])
  }

  function Apply(s: State, step: Step): State
    requires Enabled(s, step)
  {
    match step
    case Start(segments) => s.(attempts := s.attempts + [Arrived(segments)])
    case TryLock(a) =>
      var t := s.attempts[a];
      var k := t.keys[t.locked];
      if k in s.locks then Put(s, a, Leave(t, Contention(k, s.locks[k])))
      else Put(s, a, Locked(t)).(locks := s.locks[k := a])
    case LoseLock(a, applied) =>
      var t := s.attempts[a];
      if applied then
        Put(s, a, Leave(t.(locked := t.locked + 1), Fault)).(locks := s.locks[t.keys[t.locked] := a])
      else
        Put(s, a, Leave(t, Fault))
    case ReadCapacity(a) =>
      var t := s.attempts[a];
      Put(s, a, t.(phase := Checking(t.phase.i, Some(At(s.cap, t.keys[t.phase.i])))))
    case ReadCurrent(a) =>
      var t := s.attempts[a];
      var k := t.keys[t.phase.i];
      if At(s.cur, k) >= t.phase.seen.value then Put(s, a, Leave(t, AtCapacity(k)))
      else Put(s, a, CheckFrom(t, t.phase.i + 1))
    case AskVehicle(a, busy) =>
      var t := s.attempts[a];
      Put(s, a, if busy then Leave(t, Busy) else CountOn(t))
    case FailRead(a) => Put(s, a, Leave(s.attempts[a], Fault))
    case Count(a) =>
      var t := s.attempts[a];
      var k := t.keys[t.counted];
      Put(s, a, CountOn(t.(counted := t.counted + 1))).(cur := s.cur[k := At(s.cur, k) + 1])
    case LoseCount(a, applied) =>
      var t := s.attempts[a];
      var k := t.keys[t.counted];
      if applied then
        Put(s, a, Leave(t.(counted := t.counted + 1), Fault)).(cur := s.cur[k := At(s.cur, k) + 1])
      else
        Put(s, a, Leave(t, Fault))
    case Unlock(a, removed) =>
      var t := s.attempts[a];
      var k := t.keys[t.held - 1];
      Put(s, a, Leave(t.(held := t.held - 1), t.verdict)).(locks := if removed then s.locks - {k} else s.locks)
    case Crash(a) => Put(s, a, s.attempts[a].(phase := Crashed))
    case ExpireOrphan(k) => s.(locks := s.locks - {k})
    case ExpireHeld(k) => s.(locks := s.locks - {k})
    case BeginRelease(a, order) => Put(s, a, s.attempts[a].(returning := Some(order)))
    case ReleaseOne(a) =>
      var t := s.attempts[a];
      var k := t.returning.value[0];
      Put(s, a, t.(returning := Some(t.returning.value[1..]), returned := t.returned + {k}))
        .(cur := SafeDecr(s.cur, k))
    case StrayRelease(k) => s.(cur := SafeDecr(s.cur, k))
    case SeedCapacity(k, c) => if k in s.cap then s else s.(cap := s.cap[k := c])
    case SeedCurrent(k) => if k in s.cur then s else s.(cur := s.cur[k := 0])
  }

  // ---------------------------------------------------------------- runs

  /** Assumption on the environment: a lock does not expire under a live holder. */
  predicate TtlHonoured(step: Step) {
    !step.ExpireHeld?
  }

  /** Assumption on the callers: only approved reservations are released, each at most once. */
  predicate Disciplined(step: Step) {
    TtlHonoured(step) && !step.StrayRelease?
  }

  ghost predicate Run(s: State, steps: seq<Step>, s': State)
    decreases steps
  {
    if steps == [] then s == s'
    else Enabled(s, steps[0]) && Run(Apply(s, steps[0]), steps[1..], s')
  }

  ghost predicate Initial(s: State) {
    s.locks == map[] && s.attempts == [] && s.cur == map[] && forall k | k in s.cap :: s.cap[k] >= 0
  }

  // ---------------------------------------------------------------- safety invariant

  predicate Holds(s: State, a: nat, k: Key) {
    k in s.locks && s.locks[k] == a
  }

  predicate Room(s: State, k: Key) {
    At(s.cur, k) < At(s.cap, k)
  }

  ghost predicate ShapeOk(t: Attempt) {
    && t.held <= t.locked <= |t.keys| && t.counted <= |t.keys|
    && Distinct(t.keys[..t.locked])
    && (t.counted > 0 ==> t.locked == |t.keys|)
    && (t.verdict.Reserved? ==> t.counted == t.locked == |t.keys|)
    && (t.verdict.Contention? || t.verdict.AtCapacity? || t.verdict.Busy? ==> t.counted == 0)
    && (t.returning.None? ==> t.returned == {})
    && (t.returning.Some? ==>
          && t.verdict.Reserved?
          && Distinct(t.returning.value)
          && forall k | k in t.returning.value :: k in t.keys && k !in t.returned)
  }

  ghost predicate PhaseOk(s: State, t: Attempt) {
    match t.phase
    case Locking => t.held == t.locked < |t.keys| && t.counted == 0 && t.verdict.Undecided?
    case Checking(i, seen) =>
      && t.held == t.locked == |t.keys| && t.counted == 0 && i < |t.keys| && t.verdict.Undecided?
      && (forall j | 0 <= j < i :: Room(s, t.keys[j]))
      && (seen.Some? ==> seen.value <= At(s.cap, t.keys[i]))
    case AskingVehicle =>
      && t.held == t.locked == |t.keys| && t.counted == 0 && t.verdict.Undecided?
      && (forall j | 0 <= j < |t.keys| :: Room(s, t.keys[j]))
    case Counting =>
      && t.held == t.locked == |t.keys| && t.counted < |t.keys| && t.verdict.Undecided?
      && (forall j | t.counted <= j < |t.keys| :: Room(s, t.keys[j]))
    case Unlocking => true
    case Done => true
    case Crashed => true
  }

  ghost predicate AttemptOk(s: State, a: nat)
    requires a < |s.attempts|
  {
    var t := s.attempts[a];
    && ShapeOk(t)
    && PhaseOk(s, t)
    && (Live(t) ==> forall j | 0 <= j < t.held :: Holds(s, a, t.keys[j]))
  }

  ghost predicate Bounded(s: State) {
    forall k: Key :: 0 <= At(s.cur, k) <= At(s.cap, k)
  }

  ghost predicate Safe(s: State) {
    Bounded(s) && forall a | 0 <= a < |s.attempts| :: AttemptOk(s, a)
  }

  /** What an attempt knows survives any change that leaves its locks alone, does not raise
      the counters under those locks and does not lower a capacity. */
  lemma Frame(s: State, s': State, a: nat)
    requires a < |s.attempts| && a < |s'.attempts| && s'.attempts[a] == s.attempts[a]
    requires AttemptOk(s, a)
    requires forall k | Holds(s, a, k) && HeldByLive(s, a, k) :: Holds(s', a, k) && At(s'.cur, k) <= At(s.cur, k)
    requires forall k: Key :: At(s.cap, k) <= At(s'.cap, k)
    ensures AttemptOk(s', a)
  {
    var t := s.attempts[a];
    if Live(t) {
      forall j | 0 <= j < t.held
        ensures Holds(s', a, t.keys[j]) && At(s'.cur, t.keys[j]) <= At(s.cur, t.keys[j])
      {
        assert t.keys[..t.held][j] == t.keys[j];
        assert Holds(s, a, t.keys[j]) && HeldByLive(s, a, t.keys[j]);
      }
    }
  }

  lemma FrameOthers(s: State, s': State, acting: nat)
    requires Safe(s) && |s.attempts| == |s'.attempts|
    requires forall a | 0 <= a < |s.attempts| && a != acting :: s'.attempts[a] == s.attempts[a]
    requires forall a, k | a != acting && Holds(s, a, k) && HeldByLive(s, a, k) ::
               Holds(s', a, k) && At(s'.cur, k) <= At(s.cur, k)
    requires forall k: Key :: At(s.cap, k) <= At(s'.cap, k)
    requires Bounded(s')
    requires acting < |s.attempts| ==> AttemptOk(s', acting)
    ensures Safe(s')
  {
    forall a | 0 <= a < |s'.attempts| ensures AttemptOk(s', a) {
      if a != acting { Frame(s, s', a); }
    }
  }

  lemma SafeStart(s: State, segments: seq<Segment>)
    requires Safe(s)
    ensures Safe(Apply(s, Start(segments)))
  {
    var s' := Apply(s, Start(segments));
    forall a | 0 <= a < |s'.attempts| ensures AttemptOk(s', a) {
      if a < |s.attempts| { Frame(s, s', a); }
    }
  }

  lemma SafeLockRefused(s: State, step: Step)
    requires Safe(s) && Enabled(s, step)
    requires step.TryLock? || (step.LoseLock? && !step.applied)
    requires step.TryLock? ==> s.attempts[step.a].keys[s.attempts[step.a].locked] in s.locks
    ensures Safe(Apply(s, step))
  {
    var s', a := Apply(s, step), step.a;
    assert AttemptOk(s, a);
    assert s'.locks == s.locks && s'.cur == s.cur && s'.cap == s.cap;
    assert ShapeOk(s'.attempts[a]);
    assert PhaseOk(s', s'.attempts[a]);
    forall j | 0 <= j < s'.attempts[a].held ensures Holds(s', a, s'.attempts[a].keys[j]) {
      assert Holds(s, a, s.attempts[a].keys[j]);
    }
    FrameOthers(s, s', a);
  }

  lemma FreshLockDistinct(s: State, a: nat)
    requires Safe(s) && a < |s.attempts| && s.attempts[a].phase.Locking?
    requires s.attempts[a].locked < |s.attempts[a].keys|
    requires s.attempts[a].keys[s.attempts[a].locked] !in s.locks
    ensures Distinct(s.attempts[a].keys[..s.attempts[a].locked + 1])
  {
    var t := s.attempts[a];
    assert AttemptOk(s, a);
    forall i | 0 <= i < t.locked ensures t.keys[i] != t.keys[t.locked] {
      assert Holds(s, a, t.keys[i]);
    }
    assert t.keys[..t.locked + 1] == t.keys[..t.locked] + [t.keys[t.locked]];
  }

  lemma SafeLockTaken(s: State, step: Step)
    requires Safe(s) && Enabled(s, step)
    requires step.TryLock? || (step.LoseLock? && step.applied)
    requires s.attempts[step.a].keys[s.attempts[step.a].locked] !in s.locks
    ensures Safe(Apply(s, step))
  {
    var s', a := Apply(s, step), step.a;
    var t, t' := s.attempts[a], s'.attempts[a];
    assert AttemptOk(s, a);
    FreshLockDistinct(s, a);
    assert ShapeOk(t');
    assert PhaseOk(s', t');
    forall j | 0 <= j < t'.held ensures Holds(s', a, t'.keys[j]) {
      if j < t.held { assert Holds(s, a, t.keys[j]); }
    }
    FrameOthers(s, s', a);
  }

  lemma SafeLock(s: State, step: Step)
    requires Safe(s) && Enabled(s, step) && (step.TryLock? || step.LoseLock?)
    ensures Safe(Apply(s, step))
  {
    if s.attempts[step.a].keys[s.attempts[step.a].locked] !in s.locks && (step.LoseLock? ==> step.applied) {
      SafeLockTaken(s, step);
    } else {
      SafeLockRefused(s, step);
    }
  }

  lemma ReadOk(s: State, step: Step)
    requires Safe(s) && Enabled(s, step) && (step.ReadCapacity? || step.ReadCurrent?)
    ensures AttemptOk(Apply(s, step), step.a)
  {
    var s', a := Apply(s, step), step.a;
    var t, t' := s.attempts[a], s'.attempts[a];
    assert AttemptOk(s, a);
    assert ShapeOk(t');
    assert PhaseOk(s', t');
    forall j | 0 <= j < t'.held ensures Holds(s', a, t'.keys[j]) { assert Holds(s, a, t.keys[j]); }
  }

  lemma LeaveOk(s: State, step: Step)
    requires Safe(s) && Enabled(s, step) && (step.AskVehicle? || step.FailRead? || step.Crash?)
    ensures AttemptOk(Apply(s, step), step.a)
  {
    var s', a := Apply(s, step), step.a;
    var t, t' := s.attempts[a], s'.attempts[a];
    assert AttemptOk(s, a);
    assert ShapeOk(t');
    assert PhaseOk(s', t');
    assert Live(t') ==> forall j | 0 <= j < t'.held :: Holds(s', a, t'.keys[j]);
  }

  lemma SafeRead(s: State, step: Step)
    requires Safe(s) && Enabled(s, step)
    requires step.ReadCapacity? || step.ReadCurrent? || step.AskVehicle? || step.FailRead? || step.Crash?
    ensures Safe(Apply(s, step))
  {
    if step.ReadCapacity? || step.ReadCurrent? { ReadOk(s, step); } else { LeaveOk(s, step); }
    var s' := Apply(s, step);
    assert s'.locks == s.locks && s'.cur == s.cur && s'.cap == s.cap;
    FrameOthers(s, s', step.a);
  }

  lemma CountOk(s: State, step: Step)
    requires Safe(s) && Enabled(s, step) && (step.Count? || step.LoseCount?)
    ensures AttemptOk(Apply(s, step), step.a)
  {
    var s', a := Apply(s, step), step.a;
    var t, t' := s.attempts[a], s'.attempts[a];
    assert AttemptOk(s, a);
    assert t.keys[..t.locked] == t.keys;
    assert ShapeOk(t');
    forall j | t.counted < j < |t.keys| ensures Room(s', t.keys[j]) {
      assert Room(s, t.keys[j]);
    }
    assert PhaseOk(s', t');
    assert Live(t') ==> forall j | 0 <= j < t'.held :: Holds(s', a, t'.keys[j]);
  }

  lemma SafeCount(s: State, step: Step)
    requires Safe(s) && Enabled(s, step) && (step.Count? || step.LoseCount?)
    ensures Safe(Apply(s, step))
  {
    var s', a := Apply(s, step), step.a;
    var t := s.attempts[a];
    assert AttemptOk(s, a);
    assert Room(s, t.keys[t.counted]) && Holds(s, a, t.keys[t.counted]);
    CountOk(s, step);
    forall k: Key ensures 0 <= At(s'.cur, k) <= At(s'.cap, k) { assert 0 <= At(s.cur, k) <= At(s.cap, k); }
    FrameOthers(s, s', a);
  }

  lemma SafeUnlock(s: State, a: nat, removed: bool)
    requires Safe(s) && Enabled(s, Unlock(a, removed))
    ensures Safe(Apply(s, Unlock(a, removed)))
  {
    var s' := Apply(s, Unlock(a, removed));
    var t, t' := s.attempts[a], s'.attempts[a];
    assert AttemptOk(s, a);
    var k := t.keys[t.held - 1];
    assert Holds(s, a, k);
    assert ShapeOk(t');
    forall j | 0 <= j < t'.held ensures Holds(s', a, t'.keys[j]) {
      assert Holds(s, a, t.keys[j]);
      assert t.keys[..t.locked][j] != t.keys[..t.locked][t.held - 1];
    }
    FrameOthers(s, s', a);
  }

  lemma SafeRelease(s: State, step: Step)
    requires Safe(s) && Enabled(s, step) && (step.BeginRelease? || step.ReleaseOne?)
    ensures Safe(Apply(s, step))
  {
    var s', a := Apply(s, step), step.a;
    var t, t' := s.attempts[a], s'.attempts[a];
    assert AttemptOk(s, a);
    if step.BeginRelease? {
      assert t.keys[..t.locked] == t.keys;
      if t.keys != [] { SameMultisetSameDistinctness(t.keys, step.order); }
      forall k | k in step.order ensures k in t.keys {
        assert k in multiset(step.order);
      }
      if t.keys == [] { assert |multiset(step.order)| == 0; }
    } else {
      forall k | k in t'.returning.value ensures k != t.returning.value[0] {
        var i :| 0 <= i < |t'.returning.value| && t'.returning.value[i] == k;
        assert t.returning.value[i + 1] == k;
      }
    }
    assert ShapeOk(t');
    assert PhaseOk(s', t');
    assert Live(t') ==> forall j | 0 <= j < t'.held :: Holds(s', a, t'.keys[j]);
    forall k: Key ensures 0 <= At(s'.cur, k) <= At(s'.cap, k) { assert 0 <= At(s.cur, k) <= At(s.cap, k); }
    FrameOthers(s, s', a);
  }

  lemma SafeEnvironment(s: State, step: Step)
    requires Safe(s) && Enabled(s, step)
    requires step.ExpireOrphan? || step.StrayRelease? || step.SeedCapacity? || step.SeedCurrent?
    ensures Safe(Apply(s, step))
  {
    var s' := Apply(s, step);
    forall k: Key ensures 0 <= At(s'.cur, k) <= At(s'.cap, k) {
      assert 0 <= At(s.cur, k) <= At(s.cap, k);
    }
    FrameOthers(s, s', |s.attempts|);
  }

  /** Every step that honours the lock TTL keeps the invariant. */
  lemma {:induction false} SafeStep(s: State, step: Step)
    requires Safe(s) && Enabled(s, step) && TtlHonoured(step)
    ensures Safe(Apply(s, step))
  {
    match step
    case Start(segments) => SafeStart(s, segments);
    case TryLock(_) => SafeLock(s, step);
    case LoseLock(_, _) => SafeLock(s, step);
    case ReadCapacity(_) => SafeRead(s, step);
    case ReadCurrent(_) => SafeRead(s, step);
    case AskVehicle(_, _) => SafeRead(s, step);
    case FailRead(_) => SafeRead(s, step);
    case Crash(_) => SafeRead(s, step);
    case Count(_) => SafeCount(s, step);
    case LoseCount(_, _) => SafeCount(s, step);
    case Unlock(a, removed) => SafeUnlock(s, a, removed);
    case BeginRelease(_, _) => SafeRelease(s, step);
    case ReleaseOne(_) => SafeRelease(s, step);
    case ExpireOrphan(_) => SafeEnvironment(s, step);
    case StrayRelease(_) => SafeEnvironment(s, step);
    case SeedCapacity(_, _) => SafeEnvironment(s, step);
    case SeedCurrent(_) => SafeEnvironment(s, step);
  }

  lemma {:induction false} SafeRun(s: State, steps: seq<Step>, s': State)
    requires Safe(s) && Run(s, steps, s') && forall step | step in steps :: TtlHonoured(step)
    ensures Safe(s')
    decreases steps
  {
    if steps == [] {
    } else {
      assert steps[0] in steps;
      SafeStep(s, steps[0]);
      SafeRun(Apply(s, steps[0]), steps[1..], s');
    }
  }

  /** No overbooking, whatever is released how often: in every reachable state every counter
      lies between zero and its segment's capacity. An unseeded segment stays at zero. */
  lemma {:induction false} NeverOverCapacity(s: State, steps: seq<Step>, s': State, k: Key)
    requires Initial(s) && Run(s, steps, s') && forall step | step in steps :: TtlHonoured(step)
    ensures 0 <= At(s'.cur, k) <= At(s'.cap, k)
    ensures k !in s'.cap ==> At(s'.cur, k) == 0
  {
    assert Safe(s);
    SafeRun(s, steps, s');
    assert Bounded(s');
  }
}
