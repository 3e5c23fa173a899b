/** The regional Redis instance and the reservation code that owns it
    (services/validation-service/main.py), one caller at a time. The interleaved version
    is in Reservation.dfy. */
module RegionalRedis {
  import opened Options
  import opened Lex

  /** The suffix `from:to` shared by the lock, capacity and occupancy keys of a segment. */
  type Key = string

  datatype Segment = Segment(from: string, to: string)

  function KeyOf(s: Segment): Key {
    s.from + ":" + s.to
  }

  /** `_message_segments`: segments with a missing end are dropped. */
  function MessageSegments(segs: seq<Segment>): seq<Segment> {
    if segs == [] then []
    else if segs[0].from != "" && segs[0].to != "" then [segs[0]] + MessageSegments(segs[1..])
    else MessageSegments(segs[1..])
  }

  function KeysOf(segs: seq<Segment>): (keys: seq<Key>)
    ensures |keys| == |segs| && forall i | 0 <= i < |segs| :: keys[i] == KeyOf(segs[i])
  {
    seq(|segs|, i requires 0 <= i < |segs| => KeyOf(segs[i]))
  }

  /** A missing counter reads as 0: for a capacity this blocks the segment. */
  function At(m: map<Key, int>, k: Key): int {
    if k in m then m[k] else 0
  }

  datatype Outcome = Approved | Contended(key: Key) | Full(key: Key) | VehicleBusy

  /** The first key that SET NX refuses, given the locks already present. */
  function FirstClash(locks: set<Key>, keys: seq<Key>): Option<Key>
    decreases keys
  {
    if keys == [] then None
    else if keys[0] in locks then Some(keys[0])
    else FirstClash(locks + {keys[0]}, keys[1..])
  }

  function FirstFull(cap: map<Key, int>, cur: map<Key, int>, keys: seq<Key>): Option<Key> {
    if keys == [] then None
    else if At(cur, keys[0]) >= At(cap, keys[0]) then Some(keys[0])
    else FirstFull(cap, cur, keys[1..])
  }

  /** What an attempt that runs alone answers. */
  function Decide(locks: set<Key>, cap: map<Key, int>, cur: map<Key, int>, keys: seq<Key>, vehicleBusy: bool): Outcome {
    match FirstClash(locks, keys)
    case Some(k) => Contended(k)
    case None =>
      match FirstFull(cap, cur, keys)
      case Some(k) => Full(k)
      case None => if vehicleBusy then VehicleBusy else Approved
  }

  function Incremented(cur: map<Key, int>, keys: seq<Key>): map<Key, int>
    decreases keys
  {
    if keys == [] then cur
    else Incremented(cur[keys[0] := At(cur, keys[0]) + 1], keys[1..])
  }

  function FirstKeys(keys: seq<Key>, n: nat): seq<Key> {
    if n < |keys| then keys[..n] else keys
  }

  /** LUA_SAFE_DECR: a decrement that never goes below zero. */
  function SafeDecr(cur: map<Key, int>, k: Key): map<Key, int> {
    if At(cur, k) > 0 then cur[k := At(cur, k) - 1] else cur
  }

  function Released(cur: map<Key, int>, keys: seq<Key>): map<Key, int>
    decreases keys
  {
    if keys == [] then cur else Released(SafeDecr(cur, keys[0]), keys[1..])
  }

  // ---------------------------------------------------------------- properties

  ghost predicate Admissible(locks: set<Key>, cap: map<Key, int>, cur: map<Key, int>, keys: seq<Key>) {
    && Distinct(keys)
    && (forall k | k in keys :: k !in locks)
    && (forall k | k in keys :: At(cur, k) < At(cap, k))
  }

  lemma {:induction false} ClashIffLockedOrRepeated(locks: set<Key>, keys: seq<Key>)
    ensures FirstClash(locks, keys).None? <==> Distinct(keys) && forall k | k in keys :: k !in locks
    decreases keys
  {
    if keys == [] {
    } else {
      assert keys == [keys[0]] + keys[1..];
      if keys[0] !in locks {
        ClashIffLockedOrRepeated(locks + {keys[0]}, keys[1..]);
        if FirstClash(locks, keys).None? {
          forall i, j | 0 <= i < j < |keys| ensures keys[i] != keys[j] {
            assert keys[j] == keys[1..][j - 1];
            if i > 0 { assert keys[i] == keys[1..][i - 1]; }
          }
        }
      } else {
        assert keys[0] in keys;
      }
    }
  }

  lemma {:induction false} FullIffSomeSegmentFull(cap: map<Key, int>, cur: map<Key, int>, keys: seq<Key>)
    ensures FirstFull(cap, cur, keys).None? <==> forall k | k in keys :: At(cur, k) < At(cap, k)
  {
    if keys == [] {
    } else {
      assert keys == [keys[0]] + keys[1..];
      assert keys[0] in keys;
      FullIffSomeSegmentFull(cap, cur, keys[1..]);
    }
  }

  /** An attempt is approved exactly when its segments are distinct, unlocked and below
      capacity and the vehicle is free; in particular an unseeded segment admits nobody. */
  lemma ApprovedIff(locks: set<Key>, cap: map<Key, int>, cur: map<Key, int>, segs: seq<Segment>, busy: bool)
    ensures Decide(locks, cap, cur, Sort(KeysOf(segs)), busy).Approved?
            <==> Admissible(locks, cap, cur, KeysOf(segs)) && !busy
  {
    var keys, sorted := KeysOf(segs), Sort(KeysOf(segs));
    SortSorts(keys);
    ClashIffLockedOrRepeated(locks, sorted);
    FullIffSomeSegmentFull(cap, cur, sorted);
    forall k ensures k in keys <==> k in sorted {
      assert k in keys <==> k in multiset(keys);
      assert k in sorted <==> k in multiset(sorted);
    }
    if Distinct(keys) { SameMultisetSameDistinctness(keys, sorted); }
    if Distinct(sorted) { SameMultisetSameDistinctness(sorted, keys); }
  }

  /** A batch of increments adds, to every counter, the number of times its key occurs. */
  lemma {:induction false} IncrementedAt(cur: map<Key, int>, keys: seq<Key>, k: Key)
    ensures At(Incremented(cur, keys), k) == At(cur, k) + multiset(keys)[k]
    decreases keys
  {
    if keys == [] {
    } else {
      assert keys == [keys[0]] + keys[1..];
      IncrementedAt(cur[keys[0] := At(cur, keys[0]) + 1], keys[1..], k);
    }
  }

  /** A batch of clamped decrements subtracts the occurrences, stopping at zero. */
  lemma {:induction false} ReleasedAt(cur: map<Key, int>, keys: seq<Key>, k: Key)
    requires At(cur, k) >= 0
    ensures At(Released(cur, keys), k) ==
            if At(cur, k) >= multiset(keys)[k] then At(cur, k) - multiset(keys)[k] else 0
    decreases keys
  {
    if keys == [] {
    } else {
      assert keys == [keys[0]] + keys[1..];
      ReleasedAt(SafeDecr(cur, keys[0]), keys[1..], k);
    }
  }

  /** Releasing an approved reservation's segments, in any order, undoes the reservation. */
  lemma ReleaseUndoesReservation(cur: map<Key, int>, keys: seq<Key>, order: seq<Key>, k: Key)
    requires At(cur, k) >= 0 && multiset(keys) == multiset(order)
    ensures At(Released(Incremented(cur, keys), order), k) == At(cur, k)
  {
    IncrementedAt(cur, keys, k);
    ReleasedAt(Incremented(cur, keys), order, k);
  }

  // ---------------------------------------------------------------- one segment, for concrete runs

  const LANE: Segment := Segment("a", "b")

  lemma LaneKeys()
    ensures MessageSegments([LANE]) == [LANE]
    ensures KeysOf([LANE]) == [KeyOf(LANE)] && Sort([KeyOf(LANE)]) == [KeyOf(LANE)]
  {
    assert MessageSegments([LANE][1..]) == [];
    assert Sort([KeyOf(LANE)][1..]) == [];
    assert Insert(KeyOf(LANE), []) == [KeyOf(LANE)];
  }

  lemma LaneAttempt(cap: map<Key, int>, cur: map<Key, int>, busy: bool)
    ensures var k := KeyOf(LANE);
            && Decide({}, cap, cur, [k], busy)
               == (if At(cur, k) >= At(cap, k) then Full(k) else if busy then VehicleBusy else Approved)
            && Incremented(cur, [k]) == cur[k := At(cur, k) + 1]
            && Released(cur, [k]) == SafeDecr(cur, k)
  {
    var k := KeyOf(LANE);
    assert [k][1..] == [];
    var none: set<Key> := {};
    assert FirstClash(none + {k}, []).None?;
    assert FirstClash(none, [k]).None?;
    assert FirstFull(cap, cur, [k]) == if At(cur, k) >= At(cap, k) then Some(k) else None;
  }

  // ---------------------------------------------------------------- the service

  class RegionRedis {
    var locks: set<Key>
    var cap: map<Key, int>
    var cur: map<Key, int>

    /** SET key value NX. */
    method TryLock(k: Key) returns (ok: bool)
      modifies this`locks
      ensures ok <==> k !in old(locks)
      ensures locks == old(locks) + {k}
    {
      ok := k !in locks;
      if ok { locks := locks + {k}; }
    }

    /** `validate_and_reserve`: lock in key order, check, count, and unlock whatever happened. Only
        `counts` increments succeed; if the attempt needs more, the next one raises (`None`). */
    method ValidateAndReserve(segments: seq<Segment>, vehicleBusy: bool, counts: nat) returns (outcome: Option<Outcome>)
      modifies this
      ensures locks == old(locks) && cap == old(cap)
      ensures var keys := Sort(KeysOf(segments));
              var answer := Decide(old(locks), old(cap), old(cur), keys, vehicleBusy);
              && outcome == (if answer.Approved? && counts < |keys| then None else Some(answer))
              && cur == if answer.Approved? then Incremented(old(cur), FirstKeys(keys, counts)) else old(cur)
    {
      var keys := Sort(KeysOf(segments));
      var acquired: seq<Key> := [];
      ghost var before := locks;
      label attempt: {
        var i := 0;
        while i < |keys|
          invariant 0 <= i <= |keys|
          invariant acquired == keys[..i] && Distinct(acquired)
          invariant locks == before + set k | k in acquired
          invariant forall k | k in acquired :: k !in before
          invariant FirstClash(before, keys) == FirstClash(locks, keys[i..])
          invariant cap == old(cap) && cur == old(cur)
        {
          var ok := TryLock(keys[i]);
          if !ok {
            outcome := Some(Contended(keys[i]));
            break attempt;
          }
          assert keys[i..][1..] == keys[i + 1..];
          acquired := acquired + [keys[i]];
          i := i + 1;
        }
        i := 0;
        while i < |keys|
          invariant 0 <= i <= |keys|
          invariant FirstFull(cap, cur, keys) == FirstFull(cap, cur, keys[i..])
        {
          if At(cur, keys[i]) >= At(cap, keys[i]) {
            outcome := Some(Full(keys[i]));
            break attempt;
          }
          assert keys[i..][1..] == keys[i + 1..];
          i := i + 1;
        }
        if vehicleBusy {
          outcome := Some(VehicleBusy);
          break attempt;
        }
        CountSegments(FirstKeys(keys, counts));
        if counts < |keys| {
          outcome := None;
          break attempt;
        }
        assert FirstKeys(keys, counts) == keys;
        outcome := Some(Approved);
      }
      Unlock(acquired);
    }

    /** The increments that succeed, in order. */
    method CountSegments(keys: seq<Key>)
      modifies this`cur
      ensures cur == Incremented(old(cur), keys)
    {
      var n := 0;
      while n < |keys|
        invariant 0 <= n <= |keys|
        invariant Incremented(old(cur), keys) == Incremented(cur, keys[n..])
      {
        cur := cur[keys[n] := At(cur, keys[n]) + 1];
        assert keys[n..][1..] == keys[n + 1..];
        n := n + 1;
      }
    }

    /** The `finally` block: the acquired locks, last first. */
    method Unlock(acquired: seq<Key>)
      modifies this`locks
      ensures locks == old(locks) - set k | k in acquired
    {
      var rest := acquired;
      while rest != []
        invariant rest <= acquired
        invariant locks == old(locks) - set k | k in acquired[|rest|..]
      {
        var n := |rest| - 1;
        locks := locks - {rest[n]};
        assert acquired[n..] == [rest[n]] + acquired[n + 1..];
        rest := rest[..n];
      }
      assert acquired[0..] == acquired;
    }

    /** `release_segments`. */
    method ReleaseSegments(segments: seq<Segment>)
      modifies this`cur
      ensures cur == Released(old(cur), KeysOf(segments))
    {
      var keys := KeysOf(segments);
      for i := 0 to |segments|
        invariant Released(old(cur), keys) == Released(cur, keys[i..])
      {
        cur := SafeDecr(cur, keys[i]);
        assert keys[i..][1..] == keys[i + 1..];
      }
    }
  }
}
