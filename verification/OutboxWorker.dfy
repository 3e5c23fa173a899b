/** The code of the outbox in services/booking-service/main.py. A call and a round that nobody
    interrupts are runs of the machine in Outbox.dfy, so what is proved of its runs holds of it. */
module OutboxWorker {
  import opened Outbox

  // ---------------------------------------------------------------- uninterrupted runs

  lemma {:induction false} RunConcat(s: State, xs: seq<Step>, mid: State, ys: seq<Step>, s': State)
    requires Run(s, xs, mid) && Run(mid, ys, s')
    ensures Run(s, xs + ys, s')
    decreases xs
  {
    if xs == [] {
      assert xs + ys == ys;
    } else {
      assert (xs + ys)[1..] == xs[1..] + ys;
      RunConcat(Apply(s, xs[0]), xs[1..], mid, ys, s');
    }
  }

  lemma RunCons(s: State, step: Step, rest: seq<Step>, s': State)
    requires Enabled(s, step) && Run(Apply(s, step), rest, s')
    ensures Run(s, [step] + rest, s')
  {
    assert ([step] + rest)[1..] == rest;
  }

  /** What the sends and flushes of a run reported, in order. */
  function Reported(steps: seq<Step>): seq<bool> {
    if steps == [] then []
    else
      (match steps[0]
       case CallSends(_, ok) => [ok]
       case CallFlushes(_, ok) => [ok]
       case SendNext(ok) => [ok]
       case FlushBatch(ok) => [ok]
       case _ => []) + Reported(steps[1..])
  }

  lemma {:induction false} ReportedConcat(xs: seq<Step>, ys: seq<Step>)
    ensures Reported(xs + ys) == Reported(xs) + Reported(ys)
  {
    if xs == [] {
      assert xs + ys == ys;
    } else {
      assert (xs + ys)[1..] == xs[1..] + ys;
      ReportedConcat(xs[1..], ys);
    }
  }

  lemma ReportedCons(step: Step, rest: seq<Step>)
    ensures Reported([step] + rest) == Reported([step]) + Reported(rest)
  {
    ReportedConcat([step], rest);
  }

  lemma ReportsNothing(step: Step, rest: seq<Step>)
    requires (step.Take? || step.PutBack?) && Reported(rest) == []
    ensures Reported([step] + rest) == []
  {
    assert ([step] + rest)[1..] == rest;
  }

  lemma ReportedSend(sent: seq<bool>, i: nat, rest: seq<Step>)
    requires i < |sent| && Reported(rest) == sent[i + 1..]
    ensures Reported([SendNext(sent[i])] + rest) == sent[i..]
  {
    assert ([SendNext(sent[i])] + rest)[1..] == rest;
  }

  lemma {:induction false} DrainAlone(s: State) returns (steps: seq<Step>)
    requires s.worker.Draining?
    ensures Reported(steps) == []
    ensures Run(s, steps, s.(outbox := [], worker := Draining(s.worker.batch + s.outbox)))
    decreases |s.outbox|
  {
    if s.outbox == [] {
      steps := [];
      assert s.worker.batch + s.outbox == s.worker.batch;
    } else {
      var s1 := Apply(s, Take);
      var rest := DrainAlone(s1);
      assert s1.worker.batch + s1.outbox == s.worker.batch + s.outbox;
      ReportsNothing(Take, rest);
      RunCons(s, Take, rest, s.(outbox := [], worker := Draining(s.worker.batch + s.outbox)));
      steps := [Take] + rest;
    }
  }

  lemma {:induction false} SendAlone(s: State, sent: seq<bool>) returns (steps: seq<Step>)
    requires s.worker.Sending? && s.worker.next <= |s.worker.batch| == |sent|
    requires s.worker.failed == FailedSends(s.worker.batch[..s.worker.next], sent[..s.worker.next])
    ensures Reported(steps) == sent[s.worker.next..]
    ensures Run(s, steps, s.(worker := Sending(s.worker.batch, |sent|, FailedSends(s.worker.batch, sent))))
    decreases |sent| - s.worker.next
  {
    var batch, i := s.worker.batch, s.worker.next;
    if i == |sent| {
      steps := [];
      assert batch[..i] == batch && sent[..i] == sent;
    } else {
      var s1 := Apply(s, SendNext(sent[i]));
      assert batch[..i + 1][..i] == batch[..i] && sent[..i + 1][..i] == sent[..i];
      var rest := SendAlone(s1, sent);
      ReportedSend(sent, i, rest);
      RunCons(s, SendNext(sent[i]), rest, s.(worker := Sending(batch, |sent|, FailedSends(batch, sent))));
      steps := [SendNext(sent[i])] + rest;
    }
  }

  lemma {:induction false} PutBackAlone(s: State) returns (steps: seq<Step>)
    requires s.worker.Requeueing?
    ensures Reported(steps) == []
    ensures Run(s, steps, s.(outbox := s.outbox + s.worker.failed, worker := Requeueing([])))
    decreases |s.worker.failed|
  {
    var failed := s.worker.failed;
    if failed == [] {
      steps := [];
      assert s.outbox + failed == s.outbox;
    } else {
      var s1 := Apply(s, PutBack);
      var rest := PutBackAlone(s1);
      assert s1.outbox + s1.worker.failed == s.outbox + failed by {
        assert failed == [failed[0]] + failed[1..];
      }
      ReportsNothing(PutBack, rest);
      RunCons(s, PutBack, rest, s.(outbox := s.outbox + failed, worker := Requeueing([])));
      steps := [PutBack] + rest;
    }
  }

  /** What an uninterrupted round leaves in the outbox. */
  function RoundLeaves(queue: seq<Message>, sent: seq<bool>, flushOk: bool): seq<Message>
    requires |sent| == |queue|
  {
    if flushOk || queue == [] then FailedSends(queue, sent) else WithUnflushed(FailedSends(queue, sent), queue)
  }

  /** What its flush covers. */
  function RoundFlushes(queue: seq<Message>, sent: seq<bool>, flushOk: bool): multiset<Message>
    requires |sent| == |queue|
  {
    if flushOk then multiset(queue) - multiset(FailedSends(queue, sent)) else multiset{}
  }

  function AfterRound(s: State, sent: seq<bool>, flushOk: bool): State
    requires |sent| == |s.outbox|
  {
    s.(outbox := RoundLeaves(s.outbox, sent, flushOk), flushed := s.flushed + RoundFlushes(s.outbox, sent, flushOk))
  }

  /** From the requeueing to the end of the round. */
  lemma EndAlone(s: State) returns (steps: seq<Step>)
    requires s.worker.Requeueing?
    ensures Reported(steps) == []
    ensures Run(s, steps, s.(outbox := s.outbox + s.worker.failed, worker := Sleeping))
  {
    var back := PutBackAlone(s);
    var s1, s2 := s.(outbox := s.outbox + s.worker.failed, worker := Requeueing([])),
                  s.(outbox := s.outbox + s.worker.failed, worker := Sleeping);
    RunCons(s1, Sleep, [], s2);
    RunConcat(s, back, s1, [Sleep] + [], s2);
    ReportedConcat(back, [Sleep] + []);
    steps := back + ([Sleep] + []);
  }

  /** From the flush to the end of the round. */
  lemma FlushAlone(s: State, queue: seq<Message>, sent: seq<bool>, flushOk: bool) returns (steps: seq<Step>)
    requires |sent| == |queue| && s.outbox == [] && s.worker == Sending(queue, |queue|, FailedSends(queue, sent))
    ensures Reported(steps) == if queue == [] then [] else [flushOk]
    ensures Run(s, steps, s.(outbox := RoundLeaves(queue, sent, flushOk), worker := Sleeping,
                             flushed := s.flushed + RoundFlushes(queue, sent, flushOk)))
  {
    if queue == [] {
      RunCons(s, Sleep, [], s.(worker := Sleeping));
      steps := [Sleep] + [];
      assert s.flushed + RoundFlushes(queue, sent, flushOk) == s.flushed;
    } else {
      var s1 := Apply(s, FlushBatch(flushOk));
      var rest := EndAlone(s1);
      assert s1.outbox + s1.worker.failed == RoundLeaves(queue, sent, flushOk);
      assert s1.flushed == s.flushed + RoundFlushes(queue, sent, flushOk);
      ReportedCons(FlushBatch(flushOk), rest);
      RunCons(s, FlushBatch(flushOk), rest, s1.(outbox := s1.outbox + s1.worker.failed, worker := Sleeping));
      steps := [FlushBatch(flushOk)] + rest;
    }
  }

  /** An uninterrupted round of the worker is a run of the machine with exactly the round's reports. */
  lemma RoundAlone(s: State, sent: seq<bool>, flushOk: bool) returns (steps: seq<Step>)
    requires s.worker.Sleeping? && |sent| == |s.outbox|
    ensures Run(s, steps, AfterRound(s, sent, flushOk))
    ensures Reported(steps) == sent + if sent == [] then [] else [flushOk]
  {
    var queue, end := s.outbox, AfterRound(s, sent, flushOk);
    var s1 := Apply(s, Wake);
    var drain := DrainAlone(s1);
    assert [] + queue == queue;
    var s2 := s1.(outbox := [], worker := Draining(queue));
    var s3 := Apply(s2, StartSending);
    assert queue[..0] == [] && sent[..0] == [];
    var send := SendAlone(s3, sent);
    var s4 := s3.(worker := Sending(queue, |sent|, FailedSends(queue, sent)));
    var flush := FlushAlone(s4, queue, sent, flushOk);
    RunConcat(s3, send, s4, flush, end);
    ReportedConcat(send, flush);
    ReportedCons(StartSending, send + flush);
    ReportedConcat(drain, [StartSending] + (send + flush));
    ReportedCons(Wake, drain + ([StartSending] + (send + flush)));
    RunCons(s2, StartSending, send + flush, end);
    RunConcat(s1, drain, s2, [StartSending] + (send + flush), end);
    RunCons(s, Wake, drain + ([StartSending] + (send + flush)), end);
    steps := [Wake] + (drain + ([StartSending] + (send + flush)));
  }

  function AfterCall(s: State, m: Message, sendOk: bool, flushOk: bool): State {
    if sendOk && flushOk then s.(accepted := s.accepted + multiset{m}, flushed := s.flushed + multiset{m})
    else s.(accepted := s.accepted + multiset{m}, outbox := s.outbox + [m])
  }

  function CallSteps(m: Message, sendOk: bool, flushOk: bool): seq<Step> {
    [Accept(m)] + ([CallSends(m, sendOk)] + if sendOk then [CallFlushes(m, flushOk)] else [])
  }

  lemma CallReports(m: Message, sendOk: bool, flushOk: bool)
    ensures Reported(CallSteps(m, sendOk, flushOk)) == [sendOk] + if sendOk then [flushOk] else []
  {
    var flush := if sendOk then [CallFlushes(m, flushOk)] else [];
    ReportedCons(Accept(m), [CallSends(m, sendOk)] + flush);
    ReportedCons(CallSends(m, sendOk), flush);
  }

  /** An uninterrupted publishing call is a run of the machine with exactly the call's reports. */
  lemma CallAlone(s: State, m: Message, sendOk: bool, flushOk: bool) returns (steps: seq<Step>)
    ensures Run(s, steps, AfterCall(s, m, sendOk, flushOk))
    ensures steps == CallSteps(m, sendOk, flushOk)
  {
    var s1 := Apply(s, Accept(m));
    var s2 := Apply(s1, CallSends(m, sendOk));
    assert s2.sending == s.sending;
    if sendOk {
      var s3 := Apply(s2, CallFlushes(m, flushOk));
      assert s3.flushing == s.flushing;
      assert s3 == AfterCall(s, m, sendOk, flushOk);
      RunCons(s2, CallFlushes(m, flushOk), [], s3);
      RunCons(s1, CallSends(m, sendOk), [CallFlushes(m, flushOk)] + [], s3);
      RunCons(s, Accept(m), [CallSends(m, sendOk)] + ([CallFlushes(m, flushOk)] + []), s3);
      steps := [Accept(m)] + ([CallSends(m, sendOk)] + ([CallFlushes(m, flushOk)] + []));
    } else {
      RunCons(s1, CallSends(m, sendOk), [], s2);
      RunCons(s, Accept(m), [CallSends(m, sendOk)] + [], s2);
      steps := [Accept(m)] + ([CallSends(m, sendOk)] + []);
    }
  }

  /** The messages whose send succeeded. */
  function SentSends(batch: seq<Message>, sent: seq<bool>): seq<Message>
    requires |batch| == |sent|
  {
    if batch == [] then []
    else
      var n := |batch| - 1;
      SentSends(batch[..n], sent[..n]) + if sent[n] then [batch[n]] else []
  }

  lemma {:induction false} SentCount(batch: seq<Message>, sent: seq<bool>, m: Message)
    requires |batch| == |sent|
    ensures Count(SentSends(batch, sent), m) + Count(FailedSends(batch, sent), m) == Count(batch, m)
  {
    if batch == [] {
    } else {
      var n := |batch| - 1;
      assert batch == batch[..n] + [batch[n]];
      SentCount(batch[..n], sent[..n], m);
      LastAdds(SentSends(batch[..n], sent[..n]), batch[n], m);
      LastAdds(FailedSends(batch[..n], sent[..n]), batch[n], m);
      LastAdds(batch[..n], batch[n], m);
    }
  }

  lemma SentAreTheRest(batch: seq<Message>, sent: seq<bool>)
    requires |batch| == |sent|
    ensures multiset(SentSends(batch, sent)) == multiset(batch) - multiset(FailedSends(batch, sent))
  {
    forall m ensures multiset(SentSends(batch, sent))[m] == (multiset(batch) - multiset(FailedSends(batch, sent)))[m] {
      SentCount(batch, sent, m);
    }
  }

  /** The positions of a message whose send failed. */
  ghost function FailedAt(batch: seq<Message>, sent: seq<bool>, m: Message): set<nat>
    requires |batch| == |sent|
  {
    set i: nat | i < |batch| && batch[i] == m && !sent[i]
  }

  lemma FailedAtSnoc(batch: seq<Message>, sent: seq<bool>, m: Message)
    requires |batch| == |sent| && batch != []
    ensures var n := |batch| - 1;
            |FailedAt(batch, sent, m)|
            == |FailedAt(batch[..n], sent[..n], m)| + if batch[n] == m && !sent[n] then 1 else 0
  {
    var n := |batch| - 1;
    var before := FailedAt(batch[..n], sent[..n], m);
    assert FailedAt(batch, sent, m) == if batch[n] == m && !sent[n] then before + {n} else before;
  }

  lemma {:induction false} FailedCount(batch: seq<Message>, sent: seq<bool>, m: Message)
    requires |batch| == |sent|
    ensures Count(FailedSends(batch, sent), m) == |FailedAt(batch, sent, m)|
  {
    if batch == [] {
      assert FailedAt(batch, sent, m) == {};
    } else {
      var n := |batch| - 1;
      FailedCount(batch[..n], sent[..n], m);
      FailedAtSnoc(batch, sent, m);
      var failed := FailedSends(batch[..n], sent[..n]);
      assert FailedSends(batch, sent) == if sent[n] then failed else failed + [batch[n]];
      LastAdds(failed, batch[n], m);
    }
  }

  /** A round whose flush fails covers nothing: every message it took is queued again, and no more
      often than before. */
  ghost predicate RoundLost(queue: seq<Message>, queue': seq<Message>, flushed: multiset<Message>,
      flushed': multiset<Message>)
  {
    && flushed' == flushed
    && forall m {:trigger Count(queue', m)} :: Count(queue', m) <= Count(queue, m) && (m in queue ==> m in queue')
  }

  /** A round whose flush succeeds covers all but the messages whose send failed. */
  ghost predicate RoundSaved(queue: seq<Message>, queue': seq<Message>, flushed: multiset<Message>,
      flushed': multiset<Message>, sent: seq<bool>)
    requires |sent| == |queue|
  {
    forall m {:trigger Count(queue', m)} ::
      && Count(queue', m) == |FailedAt(queue, sent, m)|
      && flushed'[m] + Count(queue', m) == flushed[m] + Count(queue, m)
  }

  lemma RoundEffect(queue: seq<Message>, flushed: multiset<Message>, sent: seq<bool>, flushOk: bool)
    requires |sent| == |queue|
    ensures var queue', flushed' := RoundLeaves(queue, sent, flushOk), flushed + RoundFlushes(queue, sent, flushOk);
            if flushOk then RoundSaved(queue, queue', flushed, flushed', sent)
            else RoundLost(queue, queue', flushed, flushed')
  {
    var queue', flushed' := RoundLeaves(queue, sent, flushOk), flushed + RoundFlushes(queue, sent, flushOk);
    var failed := FailedSends(queue, sent);
    forall m ensures Count(failed, m) <= Count(queue, m) { SentCount(queue, sent, m); }
    assert multiset(failed) <= multiset(queue) by {
      forall m ensures multiset(failed)[m] <= multiset(queue)[m] {
        assert Count(failed, m) <= Count(queue, m);
      }
    }
    if flushOk {
      forall m
        ensures Count(queue', m) == |FailedAt(queue, sent, m)|
        ensures flushed'[m] + Count(queue', m) == flushed[m] + Count(queue, m)
      {
        FailedCount(queue, sent, m);
      }
    } else if queue != [] {
      forall m ensures Count(queue', m) <= Count(queue, m) && (m in queue ==> m in queue') {
        RequeueKeepsOne(queue, failed, m);
        assert m in queue' <==> Count(queue', m) > 0;
      }
    }
  }

  ghost predicate Reaches(s: State, s': State) {
    exists steps :: Run(s, steps, s')
  }

  /** Some run leads here in which the sends and flushes report just this. */
  ghost predicate ReachesReporting(s: State, s': State, reports: seq<bool>) {
    exists steps :: Run(s, steps, s') && Reported(steps) == reports
  }

  /** Every accepted message waits in the outbox or is covered by a flush. */
  ghost predicate AllKept(s: State) {
    forall m | m in s.accepted :: m in s.outbox || m in s.flushed
  }

  /** A reachable state in which nobody is in the middle of anything has lost nothing. */
  lemma RestingKeepsAll(s: State, steps: seq<Step>, s': State)
    requires Reaches(Start(), s) && Run(s, steps, s')
    requires s'.worker.Sleeping? && s'.sending == multiset{} && s'.flushing == multiset{}
    ensures ReachesReporting(s, s', Reported(steps)) && Reaches(Start(), s') && AllKept(s')
  {
    var before :| Run(Start(), before, s);
    RunConcat(Start(), before, s, steps, s');
    forall m | m in s'.accepted ensures m in s'.outbox || m in s'.flushed { NoLoss(before + steps, s', m); }
  }

  // ---------------------------------------------------------------- the code

  /** One process's outbox, the messages covered by its flushes, and those accepted so far. `send` and
      `flush` report their success through the arguments. */
  class BookingOutbox {
    var queue: seq<Message>
    var flushed: multiset<Message>
    ghost var accepted: multiset<Message>

    ghost function View(): State
      reads this
    {
      State(queue, Sleeping, multiset{}, multiset{}, accepted, flushed)
    }

    /** The machine can get here from its start. */
    ghost predicate Valid()
      reads this
    {
      Reaches(Start(), View())
    }

    constructor ()
      ensures Valid() && View() == Start()
    {
      queue, flushed, accepted := [], multiset{}, multiset{};
      new;
      assert Run(Start(), [], View());
    }

    /** `_publish_to_kafka`: the message is covered by a flush or queued, as in a run of the machine. */
    method Publish(m: Message, sendOk: bool, flushOk: bool)
      requires Valid()
      modifies this
      ensures Valid() && View() == AfterCall(old(View()), m, sendOk, flushOk)
      ensures ReachesReporting(old(View()), View(), [sendOk] + if sendOk then [flushOk] else []) && AllKept(View())
      ensures accepted == old(accepted) + multiset{m}
      ensures sendOk && flushOk ==> queue == old(queue) && flushed == old(flushed) + multiset{m}
      ensures !(sendOk && flushOk) ==> queue == old(queue) + [m] && flushed == old(flushed)
    {
      ghost var s := View();
      accepted := accepted + multiset{m};
      if sendOk && flushOk {
        flushed := flushed + multiset{m};
      } else {
        queue := queue + [m];
      }
      ghost var steps := CallAlone(s, m, sendOk, flushOk);
      CallReports(m, sendOk, flushOk);
      RestingKeepsAll(s, steps, View());
    }

    /** The sends of a round. */
    method SendBatch(batch: seq<Message>, sent: seq<bool>) returns (buffer: seq<Message>, failed: seq<Message>)
      requires |sent| == |batch|
      ensures buffer == SentSends(batch, sent) && failed == FailedSends(batch, sent)
    {
      failed, buffer := [], [];
      for i := 0 to |batch|
        invariant failed == FailedSends(batch[..i], sent[..i]) && buffer == SentSends(batch[..i], sent[..i])
      {
        assert batch[..i + 1][..i] == batch[..i] && sent[..i + 1][..i] == sent[..i];
        if sent[i] { buffer := buffer + [batch[i]]; } else { failed := failed + [batch[i]]; }
      }
      assert batch[..|batch|] == batch && sent[..|batch|] == sent;
    }

    /** `failed.extend(...)` after a failed flush. */
    method ExtendFailed(batch: seq<Message>, sends: seq<Message>) returns (failed: seq<Message>)
      ensures failed == WithUnflushed(sends, batch)
    {
      failed := sends;
      assert batch[0..] == batch;
      for i := 0 to |batch|
        invariant WithUnflushed(sends, batch) == WithUnflushed(failed, batch[i..])
      {
        assert batch[i..][1..] == batch[i + 1..];
        if batch[i] !in failed { failed := failed + [batch[i]]; }
      }
    }

    method Drain() returns (batch: seq<Message>)
      modifies this`queue
      ensures batch == old(queue) && queue == []
    {
      batch := [];
      while queue != []
        invariant batch + queue == old(queue)
        decreases |queue|
      {
        batch, queue := batch + [queue[0]], queue[1..];
      }
    }

    method PutBack(failed: seq<Message>)
      modifies this`queue
      ensures queue == old(queue) + failed
    {
      for i := 0 to |failed|
        invariant queue == old(queue) + failed[..i]
      {
        assert failed[..i + 1] == failed[..i] + [failed[i]];
        queue := queue + [failed[i]];
      }
      assert failed[..|failed|] == failed;
    }

    /** The flush of a round and what is left to requeue. */
    method FlushRound(batch: seq<Message>, sent: seq<bool>, flushOk: bool) returns (failed: seq<Message>)
      requires |sent| == |batch|
      modifies this`flushed
      ensures failed == RoundLeaves(batch, sent, flushOk)
      ensures flushed == old(flushed) + RoundFlushes(batch, sent, flushOk)
    {
      var buffer;
      buffer, failed := SendBatch(batch, sent);
      SentAreTheRest(batch, sent);
      if batch != [] {
        if flushOk {
          flushed := flushed + multiset(buffer);
        } else {
          failed := ExtendFailed(batch, failed);
        }
      }
    }

    method RunRound(sent: seq<bool>, flushOk: bool)
      requires |sent| == |queue|
      modifies this`queue, this`flushed
      ensures queue == RoundLeaves(old(queue), sent, flushOk)
      ensures flushed == old(flushed) + RoundFlushes(old(queue), sent, flushOk)
    {
      var batch := Drain();
      var failed := FlushRound(batch, sent, flushOk);
      PutBack(failed);
    }

    /** A round of `_outbox_worker` that nobody interrupts: what failed comes back in order and
        everything else is covered by the flush, as in a run of the machine. */
    method WorkerRound(sent: seq<bool>, flushOk: bool)
      requires Valid() && |sent| == |queue|
      modifies this
      ensures Valid() && View() == AfterRound(old(View()), sent, flushOk)
      ensures ReachesReporting(old(View()), View(), sent + if sent == [] then [] else [flushOk]) && AllKept(View())
      ensures accepted == old(accepted)
      ensures flushOk ==> RoundSaved(old(queue), queue, old(flushed), flushed, sent)
      ensures !flushOk ==> RoundLost(old(queue), queue, old(flushed), flushed)
    {
      ghost var s := View();
      RoundEffect(queue, flushed, sent, flushOk);
      RunRound(sent, flushOk);
      ghost var steps := RoundAlone(s, sent, flushOk);
      RestingKeepsAll(s, steps, View());
    }
  }
}
