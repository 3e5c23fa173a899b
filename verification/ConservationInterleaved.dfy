/** Conservation with the increments and decrements as single Redis commands. Validations of a region
    run side by side with each other and with the lock-free releases: an approved validation increments
    its segments one by one before it answers, a release decrements its segments one by one after it is
    consumed, and everything else may happen in between. What the checks of a validation decide is left
    open, except that a request with a repeated segment is never approved. `atomic` is the system of
    Conservation.dfy with validations and releases as single steps, `live` the real counters. */
module ConservationInterleaved {
  import opened Options
  import opened Lex
  import opened RegionalRedis
  import opened Rebuild
  import opened Saga
  import opened Journeys
  import opened Conservation

  /** A validation in its counting loop, or a release in its loop. */
  datatype Op =
    | Counting(id: Id, region: Region, done: seq<Key>, todo: seq<Key>)
    | Giving(region: Region, todo: seq<Key>)

  datatype Inter = Inter(atomic: State, live: Counts, ops: seq<Op>)

  datatype Move =
    | Plain(step: Step)
    | BeginCount(id: Id, region: Region)
    | CountOne(i: nat)
    | EndCount(i: nat, now: string)
    | BeginGive(id: Id, region: Region)
    | GiveOne(i: nat)
    | EndGive(i: nat)

  predicate CountsFor(op: Op, id: Id, r: Region) {
    op.Counting? && op.id == id && op.region == r
  }

  predicate Busy(ops: seq<Op>, id: Id, r: Region) {
    exists i :: 0 <= i < |ops| && CountsFor(ops[i], id, r)
  }

  function Without(ops: seq<Op>, i: nat): seq<Op>
    requires i < |ops|
  {
    ops[..i] + ops[i + 1..]
  }

  /** The atomic validation that approves: the capacities it may have read leave room. */
  function Approval(s: State, id: Id, r: Region, now: string): Step
    requires id in s.trips
  {
    var keys, cur := KeysOf(Usable(s.trips[id], r)), Counters(s.cur, r);
    Validate(id, r, {}, map k | k in keys :: At(cur, k) + 1, false, now)
  }

  ghost predicate Can(s: Inter, m: Move) {
    match m
    case Plain(step) =>
      && Allowed(s.atomic, step) && !step.GiveBack?
      && (step.Validate? ==> !Busy(s.ops, step.id, step.region) && Conservation.Answer(s.atomic, step).No?)
    case BeginCount(id, r) =>
      && id in s.atomic.trips && s.atomic.trips[id].requests[r] > 0 && !Busy(s.ops, id, r)
      && Usable(s.atomic.trips[id], r) != [] && Distinct(KeysOf(Usable(s.atomic.trips[id], r)))
    case CountOne(i) => i < |s.ops| && s.ops[i].Counting? && s.ops[i].todo != []
    case EndCount(i, now) =>
      && i < |s.ops| && s.ops[i].Counting? && s.ops[i].todo == []
      && s.ops[i].id in s.atomic.trips && Allowed(s.atomic, Approval(s.atomic, s.ops[i].id, s.ops[i].region, now))
    case BeginGive(id, r) => Allowed(s.atomic, GiveBack(id, r))
    case GiveOne(i) => i < |s.ops| && s.ops[i].Giving? && s.ops[i].todo != []
    case EndGive(i) => i < |s.ops| && s.ops[i].Giving? && s.ops[i].todo == []
  }

  ghost function Do(s: Inter, m: Move): Inter
    requires Can(s, m)
  {
    match m
    case Plain(step) => s.(atomic := Apply(s.atomic, step))
    case BeginCount(id, r) => s.(ops := s.ops + [Counting(id, r, [], Sort(KeysOf(Usable(s.atomic.trips[id], r))))])
    case CountOne(i) =>
      var op, cur := s.ops[i], Counters(s.live, s.ops[i].region);
      var k := op.todo[0];
      s.(live := s.live[op.region := cur[k := At(cur, k) + 1]],
         ops := s.ops[i := op.(done := op.done + [k], todo := op.todo[1..])])
    case EndCount(i, now) =>
      s.(atomic := Apply(s.atomic, Approval(s.atomic, s.ops[i].id, s.ops[i].region, now)), ops := Without(s.ops, i))
    case BeginGive(id, r) =>
      s.(atomic := Apply(s.atomic, GiveBack(id, r)),
         ops := s.ops + [Giving(r, KeysOf(Usable(s.atomic.trips[id], r)))])
    case GiveOne(i) =>
      var op := s.ops[i];
      s.(live := s.live[op.region := SafeDecr(Counters(s.live, op.region), op.todo[0])],
         ops := s.ops[i := op.(todo := op.todo[1..])])
    case EndGive(i) => s.(ops := Without(s.ops, i))
  }

  ghost predicate Moves(s: Inter, moves: seq<Move>, s': Inter)
    decreases moves
  {
    if moves == [] then s == s' else Can(s, moves[0]) && Moves(Do(s, moves[0]), moves[1..], s')
  }

  function Begin(): Inter {
    Inter(Init(), map[], [])
  }

  // ---------------------------------------------------------------- what is under way

  /** How much an operation under way shows in the live counter beyond the atomic one: what a validation
      has counted already, what a release has not yet given back. */
  function Shown(op: Op, r: Region, k: Key): nat {
    if op.region != r then 0 else multiset(if op.Counting? then op.done else op.todo)[k]
  }

  function AllShown(ops: seq<Op>, r: Region, k: Key): nat {
    if ops == [] then 0 else AllShown(ops[..|ops| - 1], r, k) + Shown(ops[|ops| - 1], r, k)
  }

  lemma {:induction false} ShownUpdate(ops: seq<Op>, i: nat, op: Op, r: Region, k: Key)
    requires i < |ops|
    ensures AllShown(ops[i := op], r, k) + Shown(ops[i], r, k) == AllShown(ops, r, k) + Shown(op, r, k)
    ensures AllShown(ops, r, k) >= Shown(ops[i], r, k)
  {
    var n := |ops| - 1;
    if i == n {
      assert ops[i := op][..n] == ops[..n];
    } else {
      assert ops[i := op][..n] == ops[..n][i := op];
      ShownUpdate(ops[..n], i, op, r, k);
    }
  }

  lemma {:induction false} ShownWithout(ops: seq<Op>, i: nat, r: Region, k: Key)
    requires i < |ops|
    ensures AllShown(Without(ops, i), r, k) + Shown(ops[i], r, k) == AllShown(ops, r, k)
  {
    var n := |ops| - 1;
    if i == n {
      assert Without(ops, i) == ops[..n];
    } else {
      assert Without(ops, i)[..n - 1] == Without(ops[..n], i);
      ShownWithout(ops[..n], i, r, k);
    }
  }

  lemma ShownMore(ops: seq<Op>, op: Op, r: Region, k: Key)
    ensures AllShown(ops + [op], r, k) == AllShown(ops, r, k) + Shown(op, r, k)
  {
    assert (ops + [op])[..|ops|] == ops;
  }

  ghost predicate Accounted(s: Inter) {
    forall r, k {:trigger AllShown(s.ops, r, k)} ::
      At(Counters(s.live, r), k) == At(Counters(s.atomic.cur, r), k) + AllShown(s.ops, r, k)
  }

  /** A validation in its loop still owns its request. */
  ghost predicate OpOk(a: State, op: Op) {
    op.Counting? ==>
      && op.id in a.trips && a.trips[op.id].requests[op.region] > 0
      && Usable(a.trips[op.id], op.region) != [] && Distinct(KeysOf(Usable(a.trips[op.id], op.region)))
      && op.done + op.todo == Sort(KeysOf(Usable(a.trips[op.id], op.region)))
  }

  ghost predicate OpsOk(s: Inter) {
    && (forall i | 0 <= i < |s.ops| :: OpOk(s.atomic, s.ops[i]))
    && (forall i, j | 0 <= i < j < |s.ops| && s.ops[i].Counting? :: !CountsFor(s.ops[j], s.ops[i].id, s.ops[i].region))
  }

  ghost predicate Balanced(s: Inter) {
    Conserved(s.atomic) && Accounted(s) && OpsOk(s)
  }

  // ---------------------------------------------------------------- every move keeps the balance

  lemma ApprovalApproves(s: State, id: Id, r: Region, now: string)
    requires id in s.trips && s.trips[id].requests[r] > 0
    requires Usable(s.trips[id], r) != [] && Distinct(KeysOf(Usable(s.trips[id], r)))
    ensures Allowed(s, Approval(s, id, r, now)) && Conservation.Answer(s, Approval(s, id, r, now)).Yes?
  {
    var keys, cur, step := KeysOf(Usable(s.trips[id], r)), Counters(s.cur, r), Approval(s, id, r, now);
    ApprovedIff({}, step.cap, cur, Usable(s.trips[id], r), false);
  }

  /** The step the atomic system takes with a move, if it takes one. */
  ghost function AtomicStep(s: Inter, m: Move): Option<Step>
    requires Can(s, m)
  {
    match m
    case Plain(step) => Some(step)
    case EndCount(i, now) => Some(Approval(s.atomic, s.ops[i].id, s.ops[i].region, now))
    case BeginGive(id, r) => Some(GiveBack(id, r))
    case BeginCount(_, _) => None
    case CountOne(_) => None
    case GiveOne(_) => None
    case EndGive(_) => None
  }

  lemma AtomicMove(s: Inter, m: Move)
    requires Can(s, m)
    ensures match AtomicStep(s, m)
            case Some(step) => Allowed(s.atomic, step) && Do(s, m).atomic == Apply(s.atomic, step)
            case None => Do(s, m).atomic == s.atomic
  {
  }

  lemma PlainAccounted(s: Inter, m: Move, r: Region, k: Key)
    requires Accounted(s) && Can(s, m) && m.Plain?
    ensures At(Counters(Do(s, m).live, r), k) == At(Counters(Do(s, m).atomic.cur, r), k) + AllShown(Do(s, m).ops, r, k)
  {
    assert At(Counters(s.live, r), k) == At(Counters(s.atomic.cur, r), k) + AllShown(s.ops, r, k);
    assert CountersAfter(s.atomic, m.step) == s.atomic.cur;
  }

  lemma BeginCountAccounted(s: Inter, m: Move, r: Region, k: Key)
    requires Accounted(s) && Can(s, m) && m.BeginCount?
    ensures At(Counters(Do(s, m).live, r), k) == At(Counters(Do(s, m).atomic.cur, r), k) + AllShown(Do(s, m).ops, r, k)
  {
    assert At(Counters(s.live, r), k) == At(Counters(s.atomic.cur, r), k) + AllShown(s.ops, r, k);
    ShownMore(s.ops, Counting(m.id, m.region, [], Sort(KeysOf(Usable(s.atomic.trips[m.id], m.region)))), r, k);
  }

  lemma CountOneAccounted(s: Inter, m: Move, r: Region, k: Key)
    requires Accounted(s) && Can(s, m) && m.CountOne?
    ensures At(Counters(Do(s, m).live, r), k) == At(Counters(Do(s, m).atomic.cur, r), k) + AllShown(Do(s, m).ops, r, k)
  {
    var op := s.ops[m.i];
    var op' := op.(done := op.done + [op.todo[0]], todo := op.todo[1..]);
    assert At(Counters(s.live, r), k) == At(Counters(s.atomic.cur, r), k) + AllShown(s.ops, r, k);
    ShownCounted(op, r, k);
    ShownUpdate(s.ops, m.i, op', r, k);
    assert Do(s, m).ops == s.ops[m.i := op'];
  }

  lemma ShownCounted(op: Op, r: Region, k: Key)
    requires op.Counting? && op.todo != []
    ensures Shown(op.(done := op.done + [op.todo[0]], todo := op.todo[1..]), r, k)
            == Shown(op, r, k) + if op.region == r && op.todo[0] == k then 1 else 0
  {
  }

  lemma EndCountAccounted(s: Inter, m: Move, r: Region, k: Key)
    requires Balanced(s) && Can(s, m) && m.EndCount?
    ensures At(Counters(Do(s, m).live, r), k) == At(Counters(Do(s, m).atomic.cur, r), k) + AllShown(Do(s, m).ops, r, k)
  {
    var op := s.ops[m.i];
    var t := s.atomic.trips[op.id];
    assert At(Counters(s.live, r), k) == At(Counters(s.atomic.cur, r), k) + AllShown(s.ops, r, k);
    assert OpOk(s.atomic, op);
    ApprovalApproves(s.atomic, op.id, op.region, m.now);
    assert op.done + op.todo == op.done;
    SortSorts(KeysOf(Usable(t, op.region)));
    IncrementedCounters(s.atomic.cur, op.region, KeysOf(Usable(t, op.region)), r, k);
    ShownWithout(s.ops, m.i, r, k);
  }

  /** When a release decrements, its counter is above zero: the clamp has nothing to do. */
  lemma GiveNeverClamped(s: Inter, i: nat)
    requires Balanced(s) && Can(s, GiveOne(i))
    ensures At(Counters(s.live, s.ops[i].region), s.ops[i].todo[0]) > 0
  {
    var op := s.ops[i];
    var r, k := op.region, op.todo[0];
    assert At(Counters(s.live, r), k) == At(Counters(s.atomic.cur, r), k) + AllShown(s.ops, r, k);
    assert At(Counters(s.atomic.cur, r), k) == Sum(Held, s.atomic.ids, s.atomic.trips, r, k);
    ShownUpdate(s.ops, i, op, r, k);
    assert k in multiset(op.todo);
  }

  lemma GiveAccounted(s: Inter, m: Move, r: Region, k: Key)
    requires Balanced(s) && Can(s, m) && (m.GiveOne? || m.EndGive?)
    ensures At(Counters(Do(s, m).live, r), k) == At(Counters(Do(s, m).atomic.cur, r), k) + AllShown(Do(s, m).ops, r, k)
  {
    assert At(Counters(s.live, r), k) == At(Counters(s.atomic.cur, r), k) + AllShown(s.ops, r, k);
    if m.GiveOne? {
      GiveNeverClamped(s, m.i);
      var todo := s.ops[m.i].todo;
      assert todo == [todo[0]] + todo[1..];
      ShownUpdate(s.ops, m.i, Do(s, m).ops[m.i], r, k);
    } else {
      ShownWithout(s.ops, m.i, r, k);
    }
  }

  lemma BeginGiveAccounted(s: Inter, m: Move, r: Region, k: Key)
    requires Balanced(s) && Can(s, m) && m.BeginGive?
    ensures At(Counters(Do(s, m).live, r), k) == At(Counters(Do(s, m).atomic.cur, r), k) + AllShown(Do(s, m).ops, r, k)
  {
    var keys := KeysOf(Usable(s.atomic.trips[m.id], m.region));
    assert At(Counters(s.live, r), k) == At(Counters(s.atomic.cur, r), k) + AllShown(s.ops, r, k);
    ClampHasNothingToDo(s.atomic, m.id, m.region, k);
    ReleasedAt(Counters(s.atomic.cur, m.region), keys, k);
    ShownMore(s.ops, Giving(m.region, keys), r, k);
  }

  lemma MoveAccounted(s: Inter, m: Move)
    requires Balanced(s) && Can(s, m)
    ensures Accounted(Do(s, m))
  {
    var s' := Do(s, m);
    forall r, k ensures At(Counters(s'.live, r), k) == At(Counters(s'.atomic.cur, r), k) + AllShown(s'.ops, r, k) {
      match m
      case Plain(_) => PlainAccounted(s, m, r, k);
      case BeginCount(_, _) => BeginCountAccounted(s, m, r, k);
      case CountOne(_) => CountOneAccounted(s, m, r, k);
      case EndCount(_, _) => EndCountAccounted(s, m, r, k);
      case BeginGive(_, _) => BeginGiveAccounted(s, m, r, k);
      case GiveOne(_) => GiveAccounted(s, m, r, k);
      case EndGive(_) => GiveAccounted(s, m, r, k);
    }
  }

  lemma RequestKept(s: State, step: Step, id: Id, r: Region)
    requires Enabled(s, step) && !step.Submit? && id in s.trips
    requires step.Validate? && step.id == id ==> step.region != r
    ensures Apply(s, step).trips[id].requests[r] == s.trips[id].requests[r]
  {
  }

  /** A step of the atomic system leaves the requests of other validations alone. */
  lemma OpKept(s: State, step: Step, op: Op)
    requires Conserved(s) && Allowed(s, step) && OpOk(s, op)
    requires step.Validate? ==> !CountsFor(op, step.id, step.region)
    ensures OpOk(Apply(s, step), op)
  {
    if op.Counting? && !step.Submit? {
      MovedOk(s, step);
      RequestKept(s, step, op.id, op.region);
      assert Apply(s, step).trips[op.id].legs == s.trips[op.id].legs;
    }
  }

  lemma OpsKept(s: Inter, m: Move)
    requires Balanced(s) && Can(s, m)
    ensures OpsOk(Do(s, m))
  {
    match m
    case Plain(step) => PlainOps(s, m);
    case BeginCount(_, _) => BeginOps(s, m);
    case CountOne(i) => UpdateOps(s, m);
    case EndCount(_, _) => EndOps(s, m);
    case BeginGive(_, _) => BeginOps(s, m);
    case GiveOne(i) => UpdateOps(s, m);
    case EndGive(_) => EndOps(s, m);
  }

  lemma PlainOps(s: Inter, m: Move)
    requires Balanced(s) && Can(s, m) && m.Plain?
    ensures OpsOk(Do(s, m))
  {
    forall i | 0 <= i < |s.ops| ensures OpOk(Do(s, m).atomic, s.ops[i]) {
      assert OpOk(s.atomic, s.ops[i]);
      OpKept(s.atomic, m.step, s.ops[i]);
    }
  }

  lemma BeginOps(s: Inter, m: Move)
    requires Balanced(s) && Can(s, m) && (m.BeginCount? || m.BeginGive?)
    ensures OpsOk(Do(s, m))
  {
    var s' := Do(s, m);
    forall i | 0 <= i < |s'.ops| ensures OpOk(s'.atomic, s'.ops[i]) {
      if i < |s.ops| {
        assert OpOk(s.atomic, s.ops[i]);
        if m.BeginGive? { OpKept(s.atomic, GiveBack(m.id, m.region), s.ops[i]); }
      } else if m.BeginCount? {
        var keys := Sort(KeysOf(Usable(s.atomic.trips[m.id], m.region)));
        assert [] + keys == keys;
      }
    }
    forall i, j | 0 <= i < j < |s'.ops| && s'.ops[i].Counting?
      ensures !CountsFor(s'.ops[j], s'.ops[i].id, s'.ops[i].region)
    {
      assert s'.ops[i] == s.ops[i];
      if j == |s.ops| && m.BeginCount? { assert !CountsFor(s.ops[i], m.id, m.region); }
    }
  }

  lemma UpdateOps(s: Inter, m: Move)
    requires Balanced(s) && Can(s, m) && (m.CountOne? || m.GiveOne?)
    ensures OpsOk(Do(s, m))
  {
    var s' := Do(s, m);
    assert OpOk(s.atomic, s.ops[m.i]);
    if m.CountOne? {
      var op := s.ops[m.i];
      assert (op.done + [op.todo[0]]) + op.todo[1..] == op.done + op.todo;
    }
    forall j | 0 <= j < |s'.ops| ensures OpOk(s'.atomic, s'.ops[j]) { assert OpOk(s.atomic, s.ops[j]); }
    forall i, j | 0 <= i < j < |s'.ops| && s'.ops[i].Counting?
      ensures !CountsFor(s'.ops[j], s'.ops[i].id, s'.ops[i].region)
    {
      assert !CountsFor(s.ops[j], s.ops[i].id, s.ops[i].region);
    }
  }

  /** Where an operation that stays was before another one ended. */
  function Before(i: nat, j: nat): nat {
    if j < i then j else j + 1
  }

  lemma EndedOpOk(s: Inter, m: Move, o: nat)
    requires Balanced(s) && Can(s, m) && (m.EndCount? || m.EndGive?) && o < |s.ops| && o != m.i
    ensures OpOk(Do(s, m).atomic, s.ops[o])
  {
    assert OpOk(s.atomic, s.ops[o]);
    if m.EndCount? {
      var op := s.ops[m.i];
      assert !CountsFor(s.ops[o], op.id, op.region);
      OpKept(s.atomic, Approval(s.atomic, op.id, op.region, m.now), s.ops[o]);
    }
  }

  lemma WithoutOwns(ops: seq<Op>, i: nat, a: nat, b: nat)
    requires i < |ops| && a < b < |Without(ops, i)| && Without(ops, i)[a].Counting?
    requires forall x, y | 0 <= x < y < |ops| && ops[x].Counting? :: !CountsFor(ops[y], ops[x].id, ops[x].region)
    ensures !CountsFor(Without(ops, i)[b], Without(ops, i)[a].id, Without(ops, i)[a].region)
  {
    assert Without(ops, i)[a] == ops[Before(i, a)] && Without(ops, i)[b] == ops[Before(i, b)];
  }

  lemma EndOwns(s: Inter, m: Move)
    requires OpsOk(s) && Can(s, m) && (m.EndCount? || m.EndGive?)
    ensures forall i, j | 0 <= i < j < |Do(s, m).ops| && Do(s, m).ops[i].Counting? ::
              !CountsFor(Do(s, m).ops[j], Do(s, m).ops[i].id, Do(s, m).ops[i].region)
  {
    var ops := Without(s.ops, m.i);
    assert Do(s, m).ops == ops;
    forall i, j | 0 <= i < j < |ops| && ops[i].Counting? ensures !CountsFor(ops[j], ops[i].id, ops[i].region) {
      WithoutOwns(s.ops, m.i, i, j);
    }
  }

  lemma EndOps(s: Inter, m: Move)
    requires Balanced(s) && Can(s, m) && (m.EndCount? || m.EndGive?)
    ensures OpsOk(Do(s, m))
  {
    var s' := Do(s, m);
    assert s'.ops == Without(s.ops, m.i);
    forall j | 0 <= j < |s'.ops| ensures OpOk(s'.atomic, s'.ops[j]) {
      assert s'.ops[j] == s.ops[Before(m.i, j)];
      EndedOpOk(s, m, Before(m.i, j));
    }
    EndOwns(s, m);
  }

  lemma MoveBalanced(s: Inter, m: Move)
    requires Balanced(s) && Can(s, m)
    ensures Balanced(Do(s, m))
  {
    AtomicMove(s, m);
    if AtomicStep(s, m).Some? { StepKeeps(s.atomic, AtomicStep(s, m).value); }
    MoveAccounted(s, m);
    OpsKept(s, m);
  }

  /** Every run of the interleaved system is, move by move, an orderly run of the atomic one. */
  lemma {:induction false} InterleavedIsOrderly(s: Inter, moves: seq<Move>, s': Inter) returns (steps: seq<Step>)
    requires Balanced(s) && Moves(s, moves, s')
    ensures Balanced(s') && OrderlyRun(s.atomic, steps, s'.atomic)
    decreases moves
  {
    if moves == [] {
      steps := [];
    } else {
      MoveBalanced(s, moves[0]);
      AtomicMove(s, moves[0]);
      steps := InterleavedIsOrderly(Do(s, moves[0]), moves[1..], s');
      if AtomicStep(s, moves[0]).Some? {
        OrderlyCons(s.atomic, AtomicStep(s, moves[0]).value, steps, s'.atomic);
        steps := [AtomicStep(s, moves[0]).value] + steps;
      }
    }
  }

  lemma BeginBalanced()
    ensures Balanced(Begin())
  {
    InitConserved();
    forall r, k ensures At(Counters(Begin().live, r), k) == At(Counters(Init().cur, r), k) + AllShown([], r, k) {
    }
  }

  /** Whatever validations and releases interleave, every live counter is the sum of the reservations
      not yet given back, of what approved validations have counted so far, and of what releases have
      still to take away. */
  lemma LiveCountersAreReservations(moves: seq<Move>, s: Inter, r: Region, k: Key)
    requires Moves(Begin(), moves, s)
    ensures At(Counters(s.live, r), k) == Sum(Held, s.atomic.ids, s.atomic.trips, r, k) + AllShown(s.ops, r, k)
  {
    BeginBalanced();
    var steps := InterleavedIsOrderly(Begin(), moves, s);
    assert At(Counters(s.live, r), k) == At(Counters(s.atomic.cur, r), k) + AllShown(s.ops, r, k);
    assert At(Counters(s.atomic.cur, r), k) == Sum(Held, s.atomic.ids, s.atomic.trips, r, k);
  }

  /** Once no operation is under way and nothing is on its way, the records give the live counters. */
  lemma LiveCacheAgreement(moves: seq<Move>, s: Inter, r: Region, k: Key)
    requires Moves(Begin(), moves, s) && s.ops == [] && Quiescent(s.atomic)
    ensures Occupancy(Docs(s.atomic.stores, r), r, k) == At(Counters(s.live, r), k)
  {
    BeginBalanced();
    var steps := InterleavedIsOrderly(Begin(), moves, s);
    assert At(Counters(s.live, r), k) == At(Counters(s.atomic.cur, r), k) + AllShown(s.ops, r, k);
    QuietAgreement(s.atomic, r, k);
  }
}
