/** Why trying locks in key order cannot reject everybody, and what an attempt does when
    nobody interferes. */
module ReservationProgress {
  import opened Options
  import opened Lex
  import opened RegionalRedis
  import opened Reservation
  import opened ReservationLedger

  // ---------------------------------------------------------------- who blocked whom

  /** `b` has set the lock `k` at some point. */
  predicate SetBy(s: State, k: Key, b: nat) {
    && b < |s.attempts| && s.attempts[b].locked <= |s.attempts[b].keys|
    && k in s.attempts[b].keys[..s.attempts[b].locked]
  }

  ghost predicate BlameOk(s: State, a: nat)
    requires a < |s.attempts|
  {
    var t := s.attempts[a];
    && Sorted(t.keys) && t.locked <= |t.keys|
    && (t.verdict.Contention? ==>
          && (t.phase.Unlocking? || t.phase.Done? || t.phase.Crashed?)
          && t.locked < |t.keys| && t.verdict.key == t.keys[t.locked]
          && SetBy(s, t.verdict.key, t.verdict.holder))
  }

  ghost predicate BlameInv(s: State) {
    && (forall k | k in s.locks :: SetBy(s, k, s.locks[k]))
    && (forall a | 0 <= a < |s.attempts| :: BlameOk(s, a))
  }

  predicate OfAttempt(step: Step) {
    && !step.Start? && !step.ExpireOrphan? && !step.ExpireHeld? && !step.StrayRelease?
    && !step.SeedCapacity? && !step.SeedCurrent?
  }

  lemma OthersUntouched(s: State, step: Step, a: nat)
    requires Enabled(s, step) && a < |s.attempts| && (OfAttempt(step) ==> step.a != a)
    ensures a < |Apply(s, step).attempts| && Apply(s, step).attempts[a] == s.attempts[a]
  {
  }

  lemma LockAdvances(s: State, step: Step)
    requires Enabled(s, step) && (step.TryLock? || step.LoseLock?)
    ensures var t, t' := s.attempts[step.a], Apply(s, step).attempts[step.a];
            t'.keys == t.keys && t.locked <= t'.locked <= |t'.keys|
  {
  }

  lemma OtherwiseLocksStay(s: State, step: Step)
    requires Enabled(s, step) && OfAttempt(step) && !step.TryLock? && !step.LoseLock?
    ensures var t, t' := s.attempts[step.a], Apply(s, step).attempts[step.a];
            t'.keys == t.keys && t'.locked == t.locked
  {
  }

  lemma LocksNeverLost(s: State, step: Step, b: nat)
    requires Enabled(s, step) && b < |s.attempts| && s.attempts[b].locked <= |s.attempts[b].keys|
    ensures var t, t' := s.attempts[b], Apply(s, step).attempts[b];
            t'.keys == t.keys && t.locked <= t'.locked <= |t'.keys|
  {
    if OfAttempt(step) && step.a == b {
      if step.TryLock? || step.LoseLock? { LockAdvances(s, step); } else { OtherwiseLocksStay(s, step); }
    } else {
      OthersUntouched(s, step, b);
    }
  }

  lemma SetByKept(s: State, step: Step, k: Key, b: nat)
    requires BlameInv(s) && Enabled(s, step) && SetBy(s, k, b)
    ensures SetBy(Apply(s, step), k, b)
  {
    assert BlameOk(s, b);
    LocksNeverLost(s, step, b);
    var t, t' := s.attempts[b], Apply(s, step).attempts[b];
    var i :| 0 <= i < |t.keys[..t.locked]| && t.keys[..t.locked][i] == k;
    assert t'.keys[..t'.locked][i] == k;
  }

  lemma BlameActing(s: State, step: Step)
    requires BlameInv(s) && Enabled(s, step) && OfAttempt(step)
    ensures BlameOk(Apply(s, step), step.a)
  {
    var s', a := Apply(s, step), step.a;
    var t, t' := s.attempts[a], s'.attempts[a];
    assert BlameOk(s, a);
    LocksNeverLost(s, step, a);
    if t'.verdict.Contention? {
      if t.verdict.Contention? {
        SetByKept(s, step, t.verdict.key, t.verdict.holder);
      } else {
        assert step.TryLock?;
        SetByKept(s, step, t'.verdict.key, t'.verdict.holder);
      }
    }
  }

  lemma NewLockIsSet(s: State, step: Step, k: Key)
    requires BlameInv(s) && Enabled(s, step) && OfAttempt(step)
    requires k in Apply(s, step).locks && k !in s.locks
    ensures Apply(s, step).locks[k] == step.a && SetBy(Apply(s, step), k, step.a)
  {
    assert BlameOk(s, step.a);
    assert step.TryLock? || step.LoseLock?;
    var t, t' := s.attempts[step.a], Apply(s, step).attempts[step.a];
    assert k == t.keys[t.locked] && t'.locked == t.locked + 1;
    assert t'.keys[..t'.locked][t.locked] == k;
  }

  lemma BlameUntouched(s: State, step: Step, a: nat)
    requires BlameInv(s) && Enabled(s, step) && a < |s.attempts|
    requires Apply(s, step).attempts[a] == s.attempts[a]
    ensures BlameOk(Apply(s, step), a)
  {
    assert BlameOk(s, a);
    if s.attempts[a].verdict.Contention? {
      SetByKept(s, step, s.attempts[a].verdict.key, s.attempts[a].verdict.holder);
    }
  }

  lemma LocksOnlyAdded(s: State, step: Step, k: Key)
    requires Enabled(s, step) && k in Apply(s, step).locks
    requires k in s.locks || !OfAttempt(step)
    ensures k in s.locks && Apply(s, step).locks[k] == s.locks[k]
  {
  }

  lemma BlameStep(s: State, step: Step)
    requires BlameInv(s) && Enabled(s, step)
    ensures BlameInv(Apply(s, step))
  {
    var s' := Apply(s, step);
    if step.Start? { SortSorts(KeysOf(step.segments)); }
    if OfAttempt(step) { BlameActing(s, step); }
    forall a | 0 <= a < |s'.attempts| ensures BlameOk(s', a) {
      if a < |s.attempts| && (OfAttempt(step) ==> step.a != a) {
        OthersUntouched(s, step, a);
        BlameUntouched(s, step, a);
      }
    }
    forall k | k in s'.locks ensures SetBy(s', k, s'.locks[k]) {
      if k in s.locks || !OfAttempt(step) {
        LocksOnlyAdded(s, step, k);
        SetByKept(s, step, k, s.locks[k]);
      } else {
        NewLockIsSet(s, step, k);
      }
    }
  }

  lemma {:induction false} BlameRun(s: State, steps: seq<Step>, s': State)
    requires BlameInv(s) && Run(s, steps, s')
    ensures BlameInv(s')
    decreases steps
  {
    if steps == [] {
    } else {
      BlameStep(s, steps[0]);
      BlameRun(Apply(s, steps[0]), steps[1..], s');
    }
  }

  /** Following "rejected because that attempt held this lock" leads to strictly greater keys,
      in every run whatsoever (crashes, faults and expired locks included). */
  lemma BlameAscends(s: State, steps: seq<Step>, s': State, a: nat)
    requires Initial(s) && Run(s, steps, s')
    requires a < |s'.attempts| && s'.attempts[a].verdict.Contention?
    ensures s'.attempts[a].verdict.holder < |s'.attempts|
    ensures var b := s'.attempts[s'.attempts[a].verdict.holder];
            Distinct(b.keys) && b.verdict.Contention? ==> Less(s'.attempts[a].verdict.key, b.verdict.key)
  {
    BlameRun(s, steps, s');
    assert BlameOk(s', a);
    var v := s'.attempts[a].verdict;
    var b := s'.attempts[v.holder];
    assert BlameOk(s', v.holder);
    if Distinct(b.keys) && b.verdict.Contention? {
      var i :| 0 <= i < |b.keys[..b.locked]| && b.keys[..b.locked][i] == v.key;
      StrictlySorted(b.keys, i, b.locked);
    }
  }

  function BlamedKeys(ts: seq<Attempt>): (keys: seq<Key>)
    ensures |keys| == |ts|
    ensures forall i | 0 <= i < |ts| && ts[i].verdict.Contention? :: keys[i] == ts[i].verdict.key
  {
    seq(|ts|, i requires 0 <= i < |ts| => if ts[i].verdict.Contention? then ts[i].verdict.key else "")
  }

  /** Blame never closes on itself: in any non-empty set of attempts with distinct segments, whoever
      else there was, somebody was not refused for contention or was blocked from outside the set. */
  lemma BlameLeavesEverySet(s: State, steps: seq<Step>, s': State, those: set<nat>)
    requires Initial(s) && Run(s, steps, s') && those != {}
    requires forall a | a in those :: a < |s'.attempts| && Distinct(s'.attempts[a].keys)
    ensures exists a :: a in those && NotBlockedWithin(s'.attempts[a].verdict, those)
  {
    var a := GreatestBlamed(s'.attempts, those);
    if !NotBlockedWithin(s'.attempts[a].verdict, those) {
      BlameAscends(s, steps, s', a);
      var b := s'.attempts[a].verdict.holder;
      if s'.attempts[b].verdict.Contention? {
        Antisymmetric(s'.attempts[a].verdict.key, s'.attempts[b].verdict.key);
      }
      assert NotBlockedWithin(s'.attempts[b].verdict, those);
    }
  }

  predicate NotBlockedWithin(v: Verdict, those: set<nat>) {
    v.Contention? ==> v.holder !in those
  }

  /** Among the refused of a set, one with the greatest blamed key. */
  lemma {:induction false} GreatestBlamed(ts: seq<Attempt>, those: set<nat>) returns (m: nat)
    requires those != {} && forall a | a in those :: a < |ts|
    ensures m in those
    ensures forall a | a in those :: Leq(BlamedKeys(ts)[a], BlamedKeys(ts)[m])
    decreases |those|
  {
    var keys := BlamedKeys(ts);
    m :| m in those;
    Total(keys[m], keys[m]);
    if those != {m} {
      var k := GreatestBlamed(ts, those - {m});
      Total(keys[m], keys[k]);
      var top := if Leq(keys[m], keys[k]) then k else m;
      forall a | a in those ensures Leq(keys[a], keys[top]) {
        if a != m {
          assert a in those - {m};
          if top == m { Transitive(keys[a], keys[k], keys[m]); }
        }
      }
      m := top;
    }
  }

  // ---------------------------------------------------------------- a batch of requests

  /** The first `n` attempts are over; a lock is theirs only if its key is in `stale`, and nobody
      later was blocked by them on any other key. */
  ghost predicate BatchFrom(n: nat, stale: set<Key>, s: State) {
    && n <= |s.attempts|
    && (forall a | 0 <= a < n :: !Live(s.attempts[a]))
    && (forall k | k in s.locks :: OwnedInBatch(n, stale, k, s.locks[k]))
    && (forall a | n <= a < |s.attempts| :: BlockedInBatch(n, stale, s.attempts[a].verdict))
  }

  predicate OwnedInBatch(n: nat, stale: set<Key>, k: Key, owner: nat) {
    owner >= n || k in stale
  }

  predicate BlockedInBatch(n: nat, stale: set<Key>, v: Verdict) {
    v.Contention? ==> OwnedInBatch(n, stale, v.key, v.holder)
  }

  lemma BatchActing(n: nat, stale: set<Key>, s: State, step: Step)
    requires BatchFrom(n, stale, s) && Enabled(s, step) && OfAttempt(step)
    ensures step.a < n ==> !Live(Apply(s, step).attempts[step.a])
    ensures step.a >= n ==> BlockedInBatch(n, stale, Apply(s, step).attempts[step.a].verdict)
  {
    if step.TryLock? {
      var t := s.attempts[step.a];
      if t.keys[t.locked] in s.locks { assert OwnedInBatch(n, stale, t.keys[t.locked], s.locks[t.keys[t.locked]]); }
    }
  }

  lemma BatchLocks(n: nat, stale: set<Key>, s: State, step: Step, k: Key)
    requires BatchFrom(n, stale, s) && Enabled(s, step) && k in Apply(s, step).locks
    ensures OwnedInBatch(n, stale, k, Apply(s, step).locks[k])
  {
    if k in s.locks || !OfAttempt(step) {
      LocksOnlyAdded(s, step, k);
    }
  }

  lemma BatchStep(n: nat, stale: set<Key>, s: State, step: Step)
    requires BatchFrom(n, stale, s) && Enabled(s, step)
    ensures BatchFrom(n, stale, Apply(s, step))
  {
    var s' := Apply(s, step);
    if OfAttempt(step) { BatchActing(n, stale, s, step); }
    forall a | 0 <= a < |s.attempts| && (OfAttempt(step) ==> step.a != a) ensures s'.attempts[a] == s.attempts[a] {
      OthersUntouched(s, step, a);
    }
    forall k | k in s'.locks { BatchLocks(n, stale, s, step, k); }
  }

  lemma {:induction false} BatchRun(n: nat, stale: set<Key>, s: State, steps: seq<Step>, s': State)
    requires BatchFrom(n, stale, s) && Run(s, steps, s')
    ensures BatchFrom(n, stale, s')
    decreases steps
  {
    if steps == [] {
    } else {
      BatchStep(n, stale, s, steps[0]);
      BatchRun(n, stale, Apply(s, steps[0]), steps[1..], s');
    }
  }

  function Between(n: nat, m: nat): (r: set<nat>)
    ensures forall i: nat :: i in r <==> n <= i < m
    decreases m
  {
    if n < m then Between(n, m - 1) + {m - 1} else {}
  }

  /** At any time at which no attempt is running, take the attempts that start from then on: if they
      have distinct segments and ask for none that a crashed worker left locked, then whatever the
      interleaving, lock contention never refuses all of them. Earlier attempts may be anything. */
  lemma SomebodyGetsThrough(s0: State, before: seq<Step>, s: State, steps: seq<Step>, s': State)
    requires Initial(s0) && Run(s0, before, s) && Run(s, steps, s') && |s'.attempts| > |s.attempts|
    requires forall a | 0 <= a < |s.attempts| :: !Live(s.attempts[a])
    requires forall a | |s.attempts| <= a < |s'.attempts| :: Distinct(s'.attempts[a].keys)
    requires forall a, k | |s.attempts| <= a < |s'.attempts| && k in s'.attempts[a].keys :: k !in s.locks
    ensures exists a :: |s.attempts| <= a < |s'.attempts| && !s'.attempts[a].verdict.Contention?
  {
    var n, stale := |s.attempts|, s.locks.Keys;
    RunConcat(s0, before, s, steps, s');
    BatchRun(n, stale, s, steps, s');
    BlameRun(s0, before + steps, s');
    var batch := Between(n, |s'.attempts|);
    assert n in batch;
    BlameLeavesEverySet(s0, before + steps, s', batch);
    var a :| a in batch && NotBlockedWithin(s'.attempts[a].verdict, batch);
    assert BlameOk(s', a) && BlockedInBatch(n, stale, s'.attempts[a].verdict);
  }

  /** A request that repeats a segment contends with itself: no run ever reserves it. */
  lemma RepeatedSegmentNeverReserved(s: State, steps: seq<Step>, s': State, a: nat)
    requires Initial(s) && Run(s, steps, s') && forall step | step in steps :: TtlHonoured(step)
    requires a < |s'.attempts| && !Distinct(s'.attempts[a].keys)
    ensures !s'.attempts[a].verdict.Reserved? && s'.attempts[a].counted == 0
  {
    assert Safe(s);
    SafeRun(s, steps, s');
    assert AttemptOk(s', a);
    var t := s'.attempts[a];
    assert t.keys[..|t.keys|] == t.keys;
  }

  // ---------------------------------------------------------------- an attempt left alone

  predicate SameAnswer(v: Verdict, o: Outcome) {
    match o
    case Approved => v.Reserved?
    case Contended(k) => v.Contention? && v.key == k
    case Full(k) => v == AtCapacity(k)
    case VehicleBusy => v.Busy?
  }

  ghost predicate Quiet(steps: seq<Step>) {
    forall step | step in steps :: Disciplined(step)
  }

  /** `a`'s attempt ends with `verdict`, its locks gone, everything else as in `s`. */
  ghost predicate EndsAlone(s: State, a: nat, locks: map<Key, nat>, verdict: Verdict, s': State)
    requires a < |s.attempts|
  {
    && |s'.attempts| == |s.attempts|
    && s'.locks == locks && s'.cap == s.cap && s'.cur == s.cur
    && s'.attempts[a] == s.attempts[a].(held := 0, phase := Done, verdict := verdict)
    && forall b | 0 <= b < |s.attempts| && b != a :: s'.attempts[b] == s.attempts[b]
  }

  function KeySet(keys: seq<Key>): set<Key> {
    set k | k in keys
  }

  /** The unlock loop, run to its end. */
  lemma {:induction false} UnlockAlone(s: State, a: nat) returns (steps: seq<Step>, s': State)
    requires a < |s.attempts| && s.attempts[a].held <= |s.attempts[a].keys|
    requires s.attempts[a].phase == if s.attempts[a].held == 0 then Done else Unlocking
    ensures Run(s, steps, s') && Quiet(steps)
    ensures EndsAlone(s, a, s.locks - KeySet(s.attempts[a].keys[..s.attempts[a].held]), s.attempts[a].verdict, s')
    decreases s.attempts[a].held
  {
    var t := s.attempts[a];
    if t.held == 0 {
      steps, s' := [], s;
      assert s.locks - KeySet(t.keys[..0]) == s.locks;
    } else {
      var step := Unlock(a, true);
      var s1 := Apply(s, step);
      RunOne(s, step);
      var rest, s2 := UnlockAlone(s1, a);
      RunConcat(s, [step], s1, rest, s2);
      steps, s' := [step] + rest, s2;
      assert t.keys[..t.held] == t.keys[..t.held - 1] + [t.keys[t.held - 1]];
      assert KeySet(t.keys[..t.held]) == KeySet(t.keys[..t.held - 1]) + {t.keys[t.held - 1]};
    }
  }

  /** Removing the locks an attempt has added leaves the locks it found. */
  lemma UnlockRestores(base: map<Key, nat>, locks: map<Key, nat>, mine: set<Key>)
    requires locks.Keys == base.Keys + mine && base.Keys !! mine
    requires forall k | k in base :: locks[k] == base[k]
    ensures locks - mine == base
  {
  }

  ghost predicate LockedPrefix(base: map<Key, nat>, s: State, t: Attempt) {
    && t.held <= |t.keys| && t.locked == t.held && t.verdict.Undecided?
    && s.locks.Keys == base.Keys + KeySet(t.keys[..t.held])
    && base.Keys !! KeySet(t.keys[..t.held])
    && forall k | k in base :: s.locks[k] == base[k]
  }

  /** A refused SET NX ends the attempt, and its locks are given back. */
  lemma RefusedAlone(base: map<Key, nat>, s: State, a: nat) returns (steps: seq<Step>, s': State)
    requires a < |s.attempts| && LockedPrefix(base, s, s.attempts[a])
    requires s.attempts[a].held < |s.attempts[a].keys| && s.attempts[a].phase.Locking?
    requires s.attempts[a].keys[s.attempts[a].held] in s.locks
    ensures Run(s, steps, s') && Quiet(steps)
    ensures |s'.attempts| == |s.attempts| && s'.cap == s.cap && s'.cur == s.cur && s'.locks == base
    ensures forall b | 0 <= b < |s.attempts| && b != a :: s'.attempts[b] == s.attempts[b]
    ensures s'.attempts[a].phase.Done? && s'.attempts[a].verdict.Contention?
    ensures s'.attempts[a].verdict.key == s.attempts[a].keys[s.attempts[a].held]
  {
    var t := s.attempts[a];
    var s1 := Apply(s, TryLock(a));
    RunOne(s, TryLock(a));
    var rest, s2 := UnlockAlone(s1, a);
    RunConcat(s, [TryLock(a)], s1, rest, s2);
    UnlockRestores(base, s.locks, KeySet(t.keys[..t.held]));
    steps, s' := [TryLock(a)] + rest, s2;
  }

  /** A successful SET NX extends the prefix of locks held. */
  lemma TakenAlone(base: map<Key, nat>, s: State, a: nat)
    requires a < |s.attempts| && LockedPrefix(base, s, s.attempts[a])
    requires s.attempts[a].held < |s.attempts[a].keys| && s.attempts[a].phase.Locking?
    requires s.attempts[a].keys[s.attempts[a].held] !in s.locks
    ensures var s1, t := Apply(s, TryLock(a)), s.attempts[a];
            && s1 == Put(s, a, Locked(t)).(locks := s.locks[t.keys[t.held] := a])
            && LockedPrefix(base, s1, s1.attempts[a])
            && s1.locks.Keys == s.locks.Keys + {t.keys[t.held]}
  {
    var t := s.attempts[a];
    assert t.keys[..t.held + 1] == t.keys[..t.held] + [t.keys[t.held]];
    assert KeySet(t.keys[..t.held + 1]) == KeySet(t.keys[..t.held]) + {t.keys[t.held]};
  }

  /** The lock loop: it stops at the first clash, or ends with every lock taken. */
  lemma {:induction false} LockAlone(base: map<Key, nat>, s: State, a: nat) returns (steps: seq<Step>, s': State)
    requires a < |s.attempts| && LockedPrefix(base, s, s.attempts[a])
    requires s.attempts[a].held < |s.attempts[a].keys| && s.attempts[a].phase.Locking?
    ensures Run(s, steps, s') && Quiet(steps)
    ensures |s'.attempts| == |s.attempts| && s'.cap == s.cap && s'.cur == s.cur
    ensures forall b | 0 <= b < |s.attempts| && b != a :: s'.attempts[b] == s.attempts[b]
    ensures var t, t' := s.attempts[a], s'.attempts[a];
            match FirstClash(s.locks.Keys, t.keys[t.held..])
            case Some(k) => s'.locks == base && t'.phase.Done? && t'.verdict.Contention? && t'.verdict.key == k
            case None => t' == CheckFrom(t.(locked := |t.keys|, held := |t.keys|), 0) && LockedPrefix(base, s', t')
    decreases |s.attempts[a].keys| - s.attempts[a].held
  {
    var t := s.attempts[a];
    var k := t.keys[t.held];
    assert t.keys[t.held..][0] == k && t.keys[t.held..][1..] == t.keys[t.held + 1..];
    if k in s.locks {
      steps, s' := RefusedAlone(base, s, a);
    } else {
      TakenAlone(base, s, a);
      var s1 := Apply(s, TryLock(a));
      RunOne(s, TryLock(a));
      assert FirstClash(s.locks.Keys, t.keys[t.held..]) == FirstClash(s1.locks.Keys, t.keys[t.held + 1..]);
      if t.held + 1 < |t.keys| {
        var rest, s2 := LockAlone(base, s1, a);
        RunConcat(s, [TryLock(a)], s1, rest, s2);
        steps, s' := [TryLock(a)] + rest, s2;
      } else {
        steps, s' := [TryLock(a)], s1;
      }
    }
  }

  /** Reading the capacity and the occupancy of segment `i`. */
  lemma ReadAlone(s: State, a: nat, i: nat) returns (steps: seq<Step>, s': State)
    requires a < |s.attempts| && i < |s.attempts[a].keys| && s.attempts[a].phase == Checking(i, None)
    ensures Run(s, steps, s') && Quiet(steps)
    ensures var t := s.attempts[a];
            s' == Put(s, a, if At(s.cur, t.keys[i]) >= At(s.cap, t.keys[i]) then Leave(t, AtCapacity(t.keys[i]))
                            else CheckFrom(t, i + 1))
  {
    var s1 := Apply(s, ReadCapacity(a));
    RunOne(s, ReadCapacity(a));
    s' := Apply(s1, ReadCurrent(a));
    RunThen(s, [ReadCapacity(a)], s1, ReadCurrent(a));
    steps := [ReadCapacity(a)] + [ReadCurrent(a)];
    var t := s.attempts[a];
    var t' := if At(s.cur, t.keys[i]) >= At(s.cap, t.keys[i]) then Leave(t, AtCapacity(t.keys[i]))
        else CheckFrom(t, i + 1);
    assert s'.attempts == s.attempts[a := t'];
  }

  /** The capacity loop from segment `i` on. */
  lemma {:induction false} CheckAlone(base: map<Key, nat>, s: State, a: nat, i: nat)
      returns (steps: seq<Step>, s': State)
    requires a < |s.attempts| && LockedPrefix(base, s, s.attempts[a]) && i <= |s.attempts[a].keys| == s.attempts[a].held
    requires s.attempts[a].phase == if i < |s.attempts[a].keys| then Checking(i, None) else AskingVehicle
    ensures Run(s, steps, s') && Quiet(steps)
    ensures |s'.attempts| == |s.attempts| && s'.cap == s.cap && s'.cur == s.cur
    ensures forall b | 0 <= b < |s.attempts| && b != a :: s'.attempts[b] == s.attempts[b]
    ensures var t, t' := s.attempts[a], s'.attempts[a];
            match FirstFull(s.cap, s.cur, t.keys[i..])
            case Some(k) => s'.locks == base && t' == t.(held := 0, phase := Done, verdict := AtCapacity(k))
            case None => s'.locks == s.locks && t' == t.(phase := AskingVehicle)
    decreases |s.attempts[a].keys| - i
  {
    var t := s.attempts[a];
    if i == |t.keys| {
      steps, s' := [], s;
    } else {
      assert t.keys[i..][0] == t.keys[i] && t.keys[i..][1..] == t.keys[i + 1..];
      var read, s1 := ReadAlone(s, a, i);
      var rest, s2;
      if At(s.cur, t.keys[i]) >= At(s.cap, t.keys[i]) {
        rest, s2 := UnlockAlone(s1, a);
        UnlockRestores(base, s.locks, KeySet(t.keys[..t.held]));
        assert s2.locks == base;
      } else {
        rest, s2 := CheckAlone(base, s1, a, i + 1);
      }
      RunConcat(s, read, s1, rest, s2);
      steps, s' := read + rest, s2;
    }
  }

  /** One INCR of the counting loop. */
  lemma CountedOne(base: map<Key, nat>, s: State, a: nat) returns (s1: State)
    requires a < |s.attempts| && LockedPrefix(base, s, s.attempts[a]) && s.attempts[a].held == |s.attempts[a].keys|
    requires s.attempts[a].counted < |s.attempts[a].keys| && s.attempts[a].phase.Counting?
    ensures Run(s, [Count(a)], s1)
    ensures |s1.attempts| == |s.attempts| && s1.cap == s.cap && s1.locks == s.locks
    ensures s1.attempts[a] == CountOn(s.attempts[a].(counted := s.attempts[a].counted + 1))
    ensures Incremented(s.cur, s.attempts[a].keys[s.attempts[a].counted..])
            == Incremented(s1.cur, s.attempts[a].keys[s.attempts[a].counted + 1..])
    ensures forall b | 0 <= b < |s.attempts| && b != a :: s1.attempts[b] == s.attempts[b]
  {
    var t := s.attempts[a];
    assert t.keys[t.counted..][1..] == t.keys[t.counted + 1..];
    s1 := Apply(s, Count(a));
    RunOne(s, Count(a));
  }

  /** The counting loop. */
  lemma {:induction false} CountAlone(base: map<Key, nat>, s: State, a: nat) returns (steps: seq<Step>, s': State)
    requires a < |s.attempts| && LockedPrefix(base, s, s.attempts[a]) && s.attempts[a].held == |s.attempts[a].keys|
    requires s.attempts[a].counted < |s.attempts[a].keys| && s.attempts[a].phase.Counting?
    ensures Run(s, steps, s') && Quiet(steps)
    ensures |s'.attempts| == |s.attempts| && s'.cap == s.cap && s'.locks == base
    ensures s'.cur == Incremented(s.cur, s.attempts[a].keys[s.attempts[a].counted..])
    ensures s'.attempts[a].phase.Done? && s'.attempts[a].verdict.Reserved?
    ensures forall b | 0 <= b < |s.attempts| && b != a :: s'.attempts[b] == s.attempts[b]
    decreases |s.attempts[a].keys| - s.attempts[a].counted
  {
    var t := s.attempts[a];
    var s1 := CountedOne(base, s, a);
    var rest, s2;
    if t.counted + 1 < |t.keys| {
      rest, s2 := CountAlone(base, s1, a);
    } else {
      rest, s2 := UnlockAlone(s1, a);
      UnlockRestores(base, s.locks, KeySet(t.keys[..t.held]));
    }
    RunConcat(s, [Count(a)], s1, rest, s2);
    steps, s' := [Count(a)] + rest, s2;
  }

  /** `s'` is `s` with one more attempt, nothing else changed but the locks. */
  predicate OneMore(s: State, s': State) {
    && |s'.attempts| == |s.attempts| + 1 && s'.cap == s.cap && s'.cur == s.cur
    && forall b | 0 <= b < |s.attempts| :: s'.attempts[b] == s.attempts[b]
  }

  lemma SoloLock(s: State, segments: seq<Segment>) returns (steps: seq<Step>, s': State)
    ensures Run(s, steps, s') && Quiet(steps) && OneMore(s, s')
    ensures var keys, t := Sort(KeysOf(segments)), s'.attempts[|s.attempts|];
            match FirstClash(s.locks.Keys, keys)
            case Some(k) => s'.locks == s.locks && t.phase.Done? && t.verdict.Contention? && t.verdict.key == k
            case None =>
              && LockedPrefix(s.locks, s', t) && t.keys == keys && t.held == |keys| && t.counted == 0
              && t.phase == if keys == [] then AskingVehicle else Checking(0, None)
  {
    var a := |s.attempts|;
    var s1 := Apply(s, Start(segments));
    RunOne(s, Start(segments));
    var t := s1.attempts[a];
    assert KeySet(t.keys[..0]) == {};
    if t.keys == [] {
      steps, s' := [Start(segments)], s1;
    } else {
      assert t.keys[0..] == t.keys;
      var locking, s2 := LockAlone(s.locks, s1, a);
      RunConcat(s, [Start(segments)], s1, locking, s2);
      steps, s' := [Start(segments)] + locking, s2;
    }
  }

  /** An attempt that nobody interleaves with answers what `Decide` says, counts what
      `Incremented` says and leaves the locks as it found them. */
  lemma SoloAttempt(s: State, segments: seq<Segment>, busy: bool) returns (steps: seq<Step>, s': State)
    ensures Run(s, steps, s') && Quiet(steps)
    ensures |s'.attempts| == |s.attempts| + 1 && s'.attempts[|s.attempts|].phase.Done?
    ensures forall b | 0 <= b < |s.attempts| :: s'.attempts[b] == s.attempts[b]
    ensures s'.locks == s.locks && s'.cap == s.cap
    ensures var keys := Sort(KeysOf(segments));
            var answer := Decide(s.locks.Keys, s.cap, s.cur, keys, busy);
            && SameAnswer(s'.attempts[|s.attempts|].verdict, answer)
            && s'.cur == if answer.Approved? then Incremented(s.cur, keys) else s.cur
  {
    var a, keys := |s.attempts|, Sort(KeysOf(segments));
    var locking, s2 := SoloLock(s, segments);
    if FirstClash(s.locks.Keys, keys).Some? {
      steps, s' := locking, s2;
    } else {
      assert keys[0..] == keys;
      var checking, s3 := CheckAlone(s.locks, s2, a, 0);
      RunConcat(s, locking, s2, checking, s3);
      if FirstFull(s.cap, s.cur, keys).Some? {
        steps, s' := locking + checking, s3;
      } else {
        steps, s' := SoloFinish(s, locking + checking, s3, busy);
      }
    }
  }

  lemma SoloFinish(s: State, before: seq<Step>, s3: State, busy: bool) returns (steps: seq<Step>, s': State)
    requires Run(s, before, s3) && Quiet(before)
    requires var a := |s.attempts|; |s3.attempts| == a + 1 && s3.attempts[a].phase.AskingVehicle?
    requires LockedPrefix(s.locks, s3, s3.attempts[|s.attempts|])
    requires s3.attempts[|s.attempts|].held == |s3.attempts[|s.attempts|].keys| &&
        s3.attempts[|s.attempts|].counted == 0
    requires s3.cap == s.cap && s3.cur == s.cur && forall b | 0 <= b < |s.attempts| :: s3.attempts[b] == s.attempts[b]
    ensures Run(s, steps, s') && Quiet(steps)
    ensures |s'.attempts| == |s.attempts| + 1 && s'.attempts[|s.attempts|].phase.Done?
    ensures forall b | 0 <= b < |s.attempts| :: s'.attempts[b] == s.attempts[b]
    ensures s'.locks == s.locks && s'.cap == s.cap
    ensures SameAnswer(s'.attempts[|s.attempts|].verdict, if busy then VehicleBusy else Approved)
    ensures s'.cur == if busy then s.cur else Incremented(s.cur, s3.attempts[|s.attempts|].keys)
  {
    var a := |s.attempts|;
    var t := s3.attempts[a];
    var s4 := Apply(s3, AskVehicle(a, busy));
    RunThen(s, before, s3, AskVehicle(a, busy));
    var rest, s5;
    if !busy && t.keys != [] {
      assert t.keys[0..] == t.keys;
      rest, s5 := CountAlone(s.locks, s4, a);
    } else {
      rest, s5 := UnlockAlone(s4, a);
      UnlockRestores(s.locks, s3.locks, KeySet(t.keys[..t.held]));
    }
    RunConcat(s, before + [AskVehicle(a, busy)], s4, rest, s5);
    steps, s' := before + [AskVehicle(a, busy)] + rest, s5;
  }
}
