/** What the reservation protocol guarantees about counts, lock contention and solo attempts. */
module ReservationLedger {
  import opened Options
  import opened RegionalRedis
  import opened Reservation

  // ---------------------------------------------------------------- the ledger

  /** 1 if attempt `t` has counted itself on `k` and not given it back. */
  function Owes(t: Attempt, k: Key): nat {
    if t.counted <= |t.keys| && k in t.keys[..t.counted] && k !in t.returned then 1 else 0
  }

  function Outstanding(ts: seq<Attempt>, k: Key): nat {
    if ts == [] then 0 else Outstanding(ts[..|ts| - 1], k) + Owes(ts[|ts| - 1], k)
  }

  predicate LiveOn(t: Attempt, k: Key) {
    t.verdict.Reserved? && t.returning.None? && k in t.keys
  }

  /** Approved reservations on `k` whose release has not begun. */
  function LiveReservations(ts: seq<Attempt>, k: Key): nat {
    if ts == [] then 0 else LiveReservations(ts[..|ts| - 1], k) + if LiveOn(ts[|ts| - 1], k) then 1 else 0
  }

  ghost predicate Balanced(s: State) {
    forall k: Key :: At(s.cur, k) == Outstanding(s.attempts, k)
  }

  lemma {:induction false} OutstandingUpdate(ts: seq<Attempt>, a: nat, t: Attempt, k: Key)
    requires a < |ts|
    ensures Outstanding(ts[a := t], k) == Outstanding(ts, k) - Owes(ts[a], k) + Owes(t, k)
  {
    var n := |ts| - 1;
    if a < n {
      assert ts[a := t][..n] == ts[..n][a := t];
      OutstandingUpdate(ts[..n], a, t, k);
    } else {
      assert ts[a := t][..n] == ts[..n];
    }
  }

  lemma {:induction false} LiveWithinOutstanding(s: State, n: nat, k: Key)
    requires Safe(s) && n <= |s.attempts|
    ensures LiveReservations(s.attempts[..n], k) <= Outstanding(s.attempts[..n], k)
  {
    if n == 0 {
    } else {
      assert s.attempts[..n][..n - 1] == s.attempts[..n - 1];
      LiveWithinOutstanding(s, n - 1, k);
      assert AttemptOk(s, n - 1);
      var t := s.attempts[n - 1];
      if LiveOn(t, k) { assert t.keys[..t.counted] == t.keys; }
    }
  }

  lemma OweMore(t: Attempt, k: Key)
    requires ShapeOk(t) && t.counted < |t.keys| && t.locked == |t.keys| && t.verdict.Undecided?
    ensures Owes(t.(counted := t.counted + 1), k) == Owes(t, k) + if k == t.keys[t.counted] then 1 else 0
  {
    assert t.keys[..t.locked] == t.keys;
    assert t.keys[..t.counted + 1] == t.keys[..t.counted] + [t.keys[t.counted]];
  }

  lemma OweLess(t: Attempt, k: Key)
    requires ShapeOk(t) && t.returning.Some? && t.returning.value != []
    ensures Owes(t.(returned := t.returned + {t.returning.value[0]}), k)
            == Owes(t, k) - if k == t.returning.value[0] then 1 else 0
    ensures Owes(t, t.returning.value[0]) == 1
  {
    assert t.keys[..t.counted] == t.keys;
    assert t.returning.value[0] in t.returning.value;
  }

  /** Every disciplined step keeps each counter equal to the sum of what the attempts owe,
      and a release always finds a positive counter. */
  lemma BalancedStep(s: State, step: Step)
    requires Safe(s) && Balanced(s) && Enabled(s, step) && Disciplined(step)
    ensures Balanced(Apply(s, step))
    ensures step.ReleaseOne? ==> At(s.cur, s.attempts[step.a].returning.value[0]) > 0
  {
    var s' := Apply(s, step);
    if step.Start? {
      var t := Arrived(step.segments);
      forall k: Key ensures At(s'.cur, k) == Outstanding(s'.attempts, k) {
        assert s'.attempts[..|s.attempts|] == s.attempts;
        assert At(s.cur, k) == Outstanding(s.attempts, k);
      }
    } else if step.ExpireOrphan? || step.SeedCapacity? || step.SeedCurrent? {
      forall k: Key ensures At(s'.cur, k) == Outstanding(s'.attempts, k) {
        assert At(s.cur, k) == Outstanding(s.attempts, k);
      }
    } else {
      BalancedAttemptStep(s, step);
    }
  }

  /** One attempt's step moves what the attempt owes and the counter by the same amount. */
  lemma OwesAsCounted(s: State, step: Step, k: Key)
    requires Safe(s) && Enabled(s, step) && (step.Count? || step.LoseCount?)
    ensures Owes(Apply(s, step).attempts[step.a], k) - Owes(s.attempts[step.a], k)
            == At(Apply(s, step).cur, k) - At(s.cur, k)
  {
    assert AttemptOk(s, step.a);
    OweMore(s.attempts[step.a], k);
  }

  lemma OwesAsReleased(s: State, step: Step, k: Key)
    requires Safe(s) && Balanced(s) && Enabled(s, step) && step.ReleaseOne?
    ensures Owes(Apply(s, step).attempts[step.a], k) - Owes(s.attempts[step.a], k)
            == At(Apply(s, step).cur, k) - At(s.cur, k)
    ensures At(s.cur, s.attempts[step.a].returning.value[0]) > 0
  {
    var t := s.attempts[step.a];
    assert AttemptOk(s, step.a);
    OweLess(t, k);
    var k0 := t.returning.value[0];
    assert At(s.cur, k0) == Outstanding(s.attempts, k0);
    OutstandingUpdate(s.attempts, step.a, t.(counted := 0), k0);
  }

  lemma OwesUntouched(s: State, step: Step, k: Key)
    requires Enabled(s, step) && Disciplined(step)
    requires !step.Start? && !step.ExpireOrphan? && !step.SeedCapacity? && !step.SeedCurrent?
    requires !step.Count? && !step.LoseCount? && !step.ReleaseOne?
    ensures Owes(Apply(s, step).attempts[step.a], k) == Owes(s.attempts[step.a], k)
    ensures Apply(s, step).cur == s.cur
  {
    var t, t' := s.attempts[step.a], Apply(s, step).attempts[step.a];
    assert t'.keys == t.keys && t'.counted == t.counted && t'.returned == t.returned;
  }

  lemma OnlyActingChanges(s: State, step: Step)
    requires Enabled(s, step) && Disciplined(step)
    requires !step.Start? && !step.ExpireOrphan? && !step.SeedCapacity? && !step.SeedCurrent?
    ensures step.a < |s.attempts| == |Apply(s, step).attempts|
    ensures Apply(s, step).attempts == s.attempts[step.a := Apply(s, step).attempts[step.a]]
  {
  }

  lemma BalancedAttemptStep(s: State, step: Step)
    requires Safe(s) && Balanced(s) && Enabled(s, step) && Disciplined(step)
    requires !step.Start? && !step.ExpireOrphan? && !step.SeedCapacity? && !step.SeedCurrent?
    ensures Balanced(Apply(s, step))
    ensures step.ReleaseOne? ==> At(s.cur, s.attempts[step.a].returning.value[0]) > 0
  {
    var s' := Apply(s, step);
    OnlyActingChanges(s, step);
    forall k: Key ensures At(s'.cur, k) == Outstanding(s'.attempts, k) {
      assert At(s.cur, k) == Outstanding(s.attempts, k);
      OutstandingUpdate(s.attempts, step.a, s'.attempts[step.a], k);
      if step.Count? || step.LoseCount? {
        OwesAsCounted(s, step, k);
      } else if step.ReleaseOne? {
        OwesAsReleased(s, step, k);
      } else {
        OwesUntouched(s, step, k);
      }
    }
    if step.ReleaseOne? { OwesAsReleased(s, step, ""); }
  }

  lemma {:induction false} BalancedRun(s: State, steps: seq<Step>, s': State)
    requires Safe(s) && Balanced(s) && Run(s, steps, s') && forall step | step in steps :: Disciplined(step)
    ensures Safe(s') && Balanced(s')
    decreases steps
  {
    if steps == [] {
    } else {
      assert steps[0] in steps;
      SafeStep(s, steps[0]);
      BalancedStep(s, steps[0]);
      BalancedRun(Apply(s, steps[0]), steps[1..], s');
    }
  }

  /** In every disciplined run the live approved reservations on a segment never exceed its
      capacity, and the counter is exactly what the attempts still owe. */
  lemma NoOverbooking(s: State, steps: seq<Step>, s': State, k: Key)
    requires Initial(s) && Run(s, steps, s') && forall step | step in steps :: Disciplined(step)
    ensures LiveReservations(s'.attempts, k) <= Outstanding(s'.attempts, k) == At(s'.cur, k) <= At(s'.cap, k)
    ensures k !in s'.cap ==> LiveReservations(s'.attempts, k) == 0
  {
    assert Safe(s) && Balanced(s);
    BalancedRun(s, steps, s');
    assert s'.attempts[..|s'.attempts|] == s'.attempts;
    LiveWithinOutstanding(s', |s'.attempts|, k);
    assert Bounded(s');
  }

  /** Along every disciplined run, the clamp in the Lua decrement is never reached. */
  lemma ClampNeverFires(s: State, steps: seq<Step>, s': State, a: nat)
    requires Initial(s) && Run(s, steps, s') && forall step | step in steps :: Disciplined(step)
    requires Enabled(s', ReleaseOne(a))
    ensures var k := s'.attempts[a].returning.value[0];
            At(Apply(s', ReleaseOne(a)).cur, k) == At(s'.cur, k) - 1
  {
    assert Safe(s) && Balanced(s);
    BalancedRun(s, steps, s');
    BalancedStep(s', ReleaseOne(a));
  }

  lemma {:induction false} SettledOwesLive(s: State, n: nat, k: Key)
    requires Safe(s) && n <= |s.attempts| && forall a | 0 <= a < n :: Settled(s.attempts[a])
    ensures LiveReservations(s.attempts[..n], k) == Outstanding(s.attempts[..n], k)
  {
    if n == 0 {
    } else {
      assert s.attempts[..n][..n - 1] == s.attempts[..n - 1];
      SettledOwesLive(s, n - 1, k);
      assert AttemptOk(s, n - 1);
      var t := s.attempts[n - 1];
      if t.verdict.Reserved? { assert t.keys[..t.counted] == t.keys; }
    }
  }

  /** Finished without a fault, and if being released then entirely released. */
  predicate Settled(t: Attempt) {
    && t.phase.Done? && !t.verdict.Fault? && !t.verdict.Undecided?
    && (t.returning.Some? ==> forall k | k in t.keys :: k in t.returned)
  }

  /** Once every attempt has settled, each counter is exactly the number of live reservations. */
  lemma ExactWhenSettled(s: State, steps: seq<Step>, s': State, k: Key)
    requires Initial(s) && Run(s, steps, s') && forall step | step in steps :: Disciplined(step)
    requires forall a | 0 <= a < |s'.attempts| :: Settled(s'.attempts[a])
    ensures At(s'.cur, k) == LiveReservations(s'.attempts, k)
  {
    assert Safe(s) && Balanced(s);
    BalancedRun(s, steps, s');
    assert s'.attempts[..|s'.attempts|] == s'.attempts;
    SettledOwesLive(s', |s'.attempts|, k);
  }

  /** No two live attempts ever hold the same segment lock. */
  lemma MutualExclusion(s: State, steps: seq<Step>, s': State, a: nat, b: nat, k: Key)
    requires Initial(s) && Run(s, steps, s') && forall step | step in steps :: TtlHonoured(step)
    requires HeldByLive(s', a, k) && HeldByLive(s', b, k)
    ensures a == b
  {
    assert Safe(s);
    SafeRun(s, steps, s');
    assert AttemptOk(s', a) && AttemptOk(s', b);
    var i :| 0 <= i < |s'.attempts[a].keys[..s'.attempts[a].held]| &&
        s'.attempts[a].keys[..s'.attempts[a].held][i] == k;
    var j :| 0 <= j < |s'.attempts[b].keys[..s'.attempts[b].held]| &&
        s'.attempts[b].keys[..s'.attempts[b].held][j] == k;
    assert Holds(s', a, s'.attempts[a].keys[i]) && Holds(s', b, s'.attempts[b].keys[j]);
  }

  // ---------------------------------------------------------------- the TTL assumption is needed

  function Newcomer(): Attempt {
    Attempt([KeyOf(LANE)], 0, 0, 0, Locking, Undecided, None, {})
  }

  function Waiting(): Attempt {
    Newcomer().(locked := 1, held := 1, phase := AskingVehicle)
  }

  /** An attempt on the free lane runs until it has found room and asks for the vehicle. */
  lemma LaneCheck(s: State) returns (steps: seq<Step>, s': State)
    requires KeyOf(LANE) !in s.locks && At(s.cur, KeyOf(LANE)) == 0 && At(s.cap, KeyOf(LANE)) == 1
    ensures Run(s, steps, s') && forall step | step in steps :: !step.StrayRelease? && !step.Crash?
    ensures s' == s.(locks := s.locks[KeyOf(LANE) := |s.attempts|], attempts := s.attempts + [Waiting()])
  {
    var k, a := KeyOf(LANE), |s.attempts|;
    LaneKeys();
    var s1 := s.(attempts := s.attempts + [Newcomer()]);
    assert s1 == Apply(s, Start([LANE]));
    RunOne(s, Start([LANE]));
    var s2 := s1.(locks := s.locks[k := a], attempts := s.attempts + [Waiting().(phase := Checking(0, None))]);
    assert s1.attempts[a] == Newcomer();
    assert s2 == Apply(s1, TryLock(a));
    RunThen(s, [Start([LANE])], s1, TryLock(a));
    var s3 := s2.(attempts := s.attempts + [Waiting().(phase := Checking(0, Some(1)))]);
    assert s3 == Apply(s2, ReadCapacity(a));
    RunThen(s, [Start([LANE]), TryLock(a)], s2, ReadCapacity(a));
    s' := s3.(attempts := s.attempts + [Waiting()]);
    assert s' == Apply(s3, ReadCurrent(a));
    RunThen(s, [Start([LANE]), TryLock(a), ReadCapacity(a)], s3, ReadCurrent(a));
    assert [Start([LANE])] + [TryLock(a)] == [Start([LANE]), TryLock(a)];
    assert [Start([LANE]), TryLock(a)] + [ReadCapacity(a)] == [Start([LANE]), TryLock(a), ReadCapacity(a)];
    steps := [Start([LANE]), TryLock(a), ReadCapacity(a)] + [ReadCurrent(a)];
  }

  /** An attempt that has found room counts itself. */
  lemma LaneCount(s: State, a: nat) returns (steps: seq<Step>, s': State)
    requires a < |s.attempts| && s.attempts[a] == Waiting()
    ensures Run(s, steps, s') && forall step | step in steps :: !step.StrayRelease? && !step.Crash?
    ensures s'.cap == s.cap && |s'.attempts| == |s.attempts|
    ensures At(s'.cur, KeyOf(LANE)) == At(s.cur, KeyOf(LANE)) + 1
    ensures forall b | 0 <= b < |s.attempts| && b != a :: s'.attempts[b] == s.attempts[b]
  {
    var s1 := Apply(s, AskVehicle(a, false));
    RunOne(s, AskVehicle(a, false));
    assert s1.attempts[a] == Waiting().(phase := Counting);
    s' := Apply(s1, Count(a));
    RunThen(s, [AskVehicle(a, false)], s1, Count(a));
    steps := [AskVehicle(a, false)] + [Count(a)];
  }

  /** If a lock may expire under a live holder (neither the expiry nor the delete checks who
      owns the lock), two bookings get into a segment of capacity 1. */
  lemma ExpiredLockOverbooks() returns (s: State, steps: seq<Step>, s': State)
    ensures Initial(s) && Run(s, steps, s')
    ensures forall step | step in steps :: !step.StrayRelease? && !step.Crash?
    ensures At(s'.cur, KeyOf(LANE)) == 2 && At(s'.cap, KeyOf(LANE)) == 1
  {
    var k := KeyOf(LANE);
    s := State(map[], map[k := 1], map[], []);
    var first, s1 := LaneCheck(s);
    var s2 := Apply(s1, ExpireHeld(k));
    RunThen(s, first, s1, ExpireHeld(k));
    var second, s3 := LaneCheck(s2);
    RunConcat(s, first + [ExpireHeld(k)], s2, second, s3);
    var third, s4 := LaneCount(s3, 0);
    RunConcat(s, first + [ExpireHeld(k)] + second, s3, third, s4);
    var fourth, s5 := LaneCount(s4, 1);
    RunConcat(s, first + [ExpireHeld(k)] + second + third, s4, fourth, s5);
    steps, s' := first + [ExpireHeld(k)] + second + third + fourth, s5;
  }

  lemma {:induction false} RunConcat(s: State, xs: seq<Step>, mid: State, ys: seq<Step>, s': State)
    requires Run(s, xs, mid) && Run(mid, ys, s')
    ensures Run(s, xs + ys, s')
    decreases xs
  {
    if xs == [] {
      assert xs + ys == ys;
    } else {
      assert (xs + ys)[1..] == xs[1..] + ys;
      RunConcat(Apply(s, xs[0]), xs[1..], mid, ys, s');
    }
  }

  lemma RunOne(s: State, step: Step)
    requires Enabled(s, step)
    ensures Run(s, [step], Apply(s, step))
  {
    assert Run(Apply(s, step), [step][1..], Apply(s, step));
  }

  /** One more step at the end of a run. */
  lemma RunThen(s: State, xs: seq<Step>, mid: State, step: Step)
    requires Run(s, xs, mid) && Enabled(mid, step)
    ensures Run(s, xs + [step], Apply(mid, step))
  {
    RunOne(mid, step);
    RunConcat(s, xs, mid, [step], Apply(mid, step));
  }
}
