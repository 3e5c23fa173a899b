/** The in-memory outbox of services/booking-service/main.py: requests whose publication failed
    wait there and a worker retries them in rounds. The state machine below interleaves the worker
    with any number of publishing calls and lets every send and every flush fail. */
module Outbox {

  datatype Message = Message(bookingId: string, body: string)

  /** The messages whose send failed. */
  function FailedSends(batch: seq<Message>, sent: seq<bool>): seq<Message>
    requires |batch| == |sent|
  {
    if batch == [] then []
    else
      var n := |batch| - 1;
      FailedSends(batch[..n], sent[..n]) + if sent[n] then [] else [batch[n]]
  }

  /** `failed.extend(m for m in batch if m not in failed)`: the generator looks at `failed` while
      it grows. */
  function WithUnflushed(failed: seq<Message>, batch: seq<Message>): seq<Message>
    decreases batch
  {
    if batch == [] then failed
    else WithUnflushed(if batch[0] in failed then failed else failed + [batch[0]], batch[1..])
  }

  lemma {:induction false} UnflushedCount(failed: seq<Message>, batch: seq<Message>, m: Message)
    ensures multiset(WithUnflushed(failed, batch))[m]
            == if m in failed then multiset(failed)[m] else if m in batch then 1 else 0
    decreases batch
  {
    if batch == [] {
    } else {
      assert batch == [batch[0]] + batch[1..];
      UnflushedCount(if batch[0] in failed then failed else failed + [batch[0]], batch[1..], m);
    }
  }

  /** After a failed flush, the filter requeues exactly the batch if and only if every message
      failed to send in all of its copies or is there once. */
  lemma RequeueExact(batch: seq<Message>, failed: seq<Message>)
    requires multiset(failed) <= multiset(batch)
    ensures multiset(WithUnflushed(failed, batch)) == multiset(batch)
            <==> forall m | m in batch :: multiset(batch)[m] == if m in failed then multiset(failed)[m] else 1
  {
    var result := WithUnflushed(failed, batch);
    forall m ensures multiset(result)[m] == if m in failed then multiset(failed)[m] else if m in batch then 1 else 0 {
      UnflushedCount(failed, batch, m);
    }
    forall m ensures m in failed ==> m in batch {
      assert m in failed ==> m in multiset(failed);
      assert m in batch <==> m in multiset(batch);
    }
    if forall m | m in batch :: multiset(batch)[m] == if m in failed then multiset(failed)[m] else 1 {
      forall m ensures multiset(result)[m] == multiset(batch)[m] {
        assert m in batch <==> m in multiset(batch);
      }
    }
  }

  /** No message of the batch is lost altogether, and none is multiplied. */
  lemma RequeueKeepsOne(batch: seq<Message>, failed: seq<Message>, m: Message)
    requires multiset(failed) <= multiset(batch)
    ensures multiset(WithUnflushed(failed, batch))[m] <= multiset(batch)[m]
    ensures m in batch ==> multiset(WithUnflushed(failed, batch))[m] >= 1
  {
    UnflushedCount(failed, batch, m);
    assert m in failed <==> m in multiset(failed);
    assert m in batch <==> m in multiset(batch);
  }

  // ---------------------------------------------------------------- all interleavings

  datatype Worker =
    | Sleeping
    | Draining(batch: seq<Message>)
    | Sending(batch: seq<Message>, next: nat, failed: seq<Message>)
    | Requeueing(failed: seq<Message>)

  /** `sending` and `flushing` are the publishing calls in progress, before their send and before
      their flush; `flushed` the messages sent before a flush that succeeded. */
  datatype State = State(
    outbox: seq<Message>, worker: Worker, sending: multiset<Message>, flushing: multiset<Message>,
    accepted: multiset<Message>, flushed: multiset<Message>)

  datatype Step =
    | Accept(m: Message)
    | CallSends(m: Message, ok: bool)
    | CallFlushes(m: Message, ok: bool)
    | Wake
    | Take
    | StartSending
    | SendNext(ok: bool)
    | FlushBatch(ok: bool)
    | PutBack
    | Sleep

  ghost predicate Enabled(s: State, step: Step) {
    match step
    case Accept(_) => true
    case CallSends(m, _) => s.sending[m] > 0
    case CallFlushes(m, _) => s.flushing[m] > 0
    case Wake => s.worker.Sleeping?
    case Take => s.worker.Draining? && s.outbox != []
    case StartSending => s.worker.Draining? && s.outbox == []
    case SendNext(_) => s.worker.Sending? && s.worker.next < |s.worker.batch|
    case FlushBatch(_) => s.worker.Sending? && s.worker.next >= |s.worker.batch| && s.worker.batch != []
    case PutBack => s.worker.Requeueing? && s.worker.failed != []
    case Sleep => s.worker == Requeueing([]) || (s.worker.Sending? && s.worker.batch == [])
  }

  ghost function Apply(s: State, step: Step): State
    requires Enabled(s, step)
  {
    match step
    case Accept(m) => s.(accepted := s.accepted + multiset{m}, sending := s.sending + multiset{m})
    case CallSends(m, ok) =>
      if ok then s.(sending := s.sending - multiset{m}, flushing := s.flushing + multiset{m})
      else s.(sending := s.sending - multiset{m}, outbox := s.outbox + [m])
    case CallFlushes(m, ok) =>
      if ok then s.(flushing := s.flushing - multiset{m}, flushed := s.flushed + multiset{m})
      else s.(flushing := s.flushing - multiset{m}, outbox := s.outbox + [m])
    case Wake => s.(worker := Draining([]))
    case Take => s.(outbox := s.outbox[1..], worker := Draining(s.worker.batch + [s.outbox[0]]))
    case StartSending => s.(worker := Sending(s.worker.batch, 0, []))
    case SendNext(ok) =>
      var w := s.worker;
      s.(worker := Sending(w.batch, w.next + 1, if ok then w.failed else w.failed + [w.batch[w.next]]))
    case FlushBatch(ok) =>
      var w := s.worker;
      if ok then s.(worker := Requeueing(w.failed), flushed := s.flushed + (multiset(w.batch) - multiset(w.failed)))
      else s.(worker := Requeueing(WithUnflushed(w.failed, w.batch)))
    case PutBack => s.(outbox := s.outbox + [s.worker.failed[0]], worker := Requeueing(s.worker.failed[1..]))
    case Sleep => s.(worker := Sleeping)
  }

  ghost predicate Run(s: State, steps: seq<Step>, s': State)
    decreases steps
  {
    if steps == [] then s == s' else Enabled(s, steps[0]) && Run(Apply(s, steps[0]), steps[1..], s')
  }

  function Start(): State {
    State([], Sleeping, multiset{}, multiset{}, multiset{}, multiset{})
  }

  function InHand(w: Worker): seq<Message> {
    match w
    case Sleeping => []
    case Draining(batch) => batch
    case Sending(batch, _, _) => batch
    case Requeueing(failed) => failed
  }

  function Count(s: seq<Message>, m: Message): nat {
    multiset(s)[m]
  }

  /** In how many places a message is: the outbox, the worker, a publishing call, or safely sent. */
  function Places(s: State, m: Message): nat {
    Count(s.outbox, m) + Count(InHand(s.worker), m) + s.sending[m] + s.flushing[m] + s.flushed[m]
  }

  ghost predicate WorkerOk(w: Worker) {
    w.Sending? ==> w.next <= |w.batch| && multiset(w.failed) <= multiset(w.batch[..w.next])
  }

  /** A message that was accepted is somewhere, and nothing is there more often than accepted. */
  ghost predicate Somewhere(s: State, m: Message) {
    Places(s, m) <= s.accepted[m] && (s.accepted[m] > 0 ==> Places(s, m) >= 1)
  }

  lemma SendNextOk(w: Worker, ok: bool)
    requires w.Sending? && WorkerOk(w) && w.next < |w.batch|
    ensures WorkerOk(Sending(w.batch, w.next + 1, if ok then w.failed else w.failed + [w.batch[w.next]]))
  {
    assert w.batch[..w.next + 1] == w.batch[..w.next] + [w.batch[w.next]];
  }

  lemma FailedWithin(w: Worker)
    requires w.Sending? && WorkerOk(w)
    ensures multiset(w.failed) <= multiset(w.batch)
  {
    assert w.batch == w.batch[..w.next] + w.batch[w.next..];
  }

  lemma HeadMoves(from: seq<Message>, to: seq<Message>, m: Message)
    requires from != []
    ensures Count(from[1..], m) + Count(to + [from[0]], m) == Count(from, m) + Count(to, m)
  {
    assert from == [from[0]] + from[1..];
  }

  lemma LastAdds(to: seq<Message>, x: Message, m: Message)
    ensures Count(to + [x], m) == Count(to, m) + if x == m then 1 else 0
  {
  }

  lemma AcceptMoves(s: State, step: Step, m: Message)
    requires step.Accept?
    ensures Places(Apply(s, step), m) == Places(s, m) + if step.m == m then 1 else 0
    ensures Apply(s, step).accepted[m] == s.accepted[m] + if step.m == m then 1 else 0
  {
  }

  lemma SendMoves(s: State, step: Step, m: Message)
    requires Enabled(s, step) && step.CallSends?
    ensures Places(Apply(s, step), m) == Places(s, m)
  {
    LastAdds(s.outbox, step.m, m);
  }

  lemma FlushCallMoves(s: State, step: Step, m: Message)
    requires Enabled(s, step) && step.CallFlushes?
    ensures Places(Apply(s, step), m) == Places(s, m)
  {
    LastAdds(s.outbox, step.m, m);
  }

  lemma WorkerMoves(s: State, step: Step, m: Message)
    requires Enabled(s, step) && (step.Wake? || step.Take? || step.StartSending? || step.SendNext? || step.PutBack? ||
        step.Sleep?)
    ensures Places(Apply(s, step), m) == Places(s, m)
  {
    if step.Take? {
      HeadMoves(s.outbox, s.worker.batch, m);
    } else if step.PutBack? {
      HeadMoves(s.worker.failed, s.outbox, m);
    }
  }

  lemma FlushMoves(s: State, step: Step, m: Message)
    requires Enabled(s, step) && WorkerOk(s.worker) && step.FlushBatch?
    ensures step.ok ==> Places(Apply(s, step), m) == Places(s, m)
    ensures Places(Apply(s, step), m) <= Places(s, m) && (Places(s, m) >= 1 ==> Places(Apply(s, step), m) >= 1)
  {
    FailedWithin(s.worker);
    RequeueKeepsOne(s.worker.batch, s.worker.failed, m);
    assert m in s.worker.batch <==> m in multiset(s.worker.batch);
  }

  lemma WorkerOkKept(s: State, step: Step)
    requires WorkerOk(s.worker) && Enabled(s, step)
    ensures WorkerOk(Apply(s, step).worker)
  {
    if step.SendNext? { SendNextOk(s.worker, step.ok); }
  }

  lemma CallKeeps(s: State, step: Step, m: Message)
    requires Somewhere(s, m) && Enabled(s, step) && (step.CallSends? || step.CallFlushes?)
    ensures Somewhere(Apply(s, step), m)
  {
    if step.CallSends? { SendMoves(s, step, m); } else { FlushCallMoves(s, step, m); }
  }

  lemma RoundKeeps(s: State, step: Step, m: Message)
    requires Somewhere(s, m) && Enabled(s, step)
    requires step.Wake? || step.Take? || step.StartSending? || step.SendNext? || step.PutBack? || step.Sleep?
    ensures Somewhere(Apply(s, step), m)
  {
    WorkerMoves(s, step, m);
  }

  lemma {:induction false} StepKeeps(s: State, step: Step, m: Message)
    requires Somewhere(s, m) && WorkerOk(s.worker) && Enabled(s, step)
    ensures Somewhere(Apply(s, step), m)
  {
    if step.FlushBatch? {
      FlushMoves(s, step, m);
    } else if step.Accept? {
      AcceptMoves(s, step, m);
    } else if step.CallSends? || step.CallFlushes? {
      CallKeeps(s, step, m);
    } else {
      RoundKeeps(s, step, m);
    }
  }

  lemma {:induction false} RunKeeps(s: State, steps: seq<Step>, s': State, m: Message)
    requires Somewhere(s, m) && WorkerOk(s.worker) && Run(s, steps, s')
    ensures Somewhere(s', m)
    decreases steps
  {
    if steps == [] {
    } else {
      StepKeeps(s, steps[0], m);
      WorkerOkKept(s, steps[0]);
      RunKeeps(Apply(s, steps[0]), steps[1..], s', m);
    }
  }

  /** No loss: whatever fails and however calls and worker interleave, an accepted message is
      always in the outbox, in the worker's hands, in a publishing call, or covered by a successful
      flush; one accepted once is in exactly one of these places. */
  lemma NoLoss(steps: seq<Step>, s: State, m: Message)
    requires Run(Start(), steps, s) && m in s.accepted
    ensures m in s.outbox || m in InHand(s.worker) || m in s.sending || m in s.flushing || m in s.flushed
    ensures s.accepted[m] == 1 ==> Places(s, m) == 1
  {
    assert Somewhere(Start(), m);
    RunKeeps(Start(), steps, s, m);
    assert m in s.outbox <==> m in multiset(s.outbox);
    assert m in InHand(s.worker) <==> m in multiset(InHand(s.worker));
  }

  /** Two equal messages sent in one round whose flush fails: one copy is dropped. */
  lemma EqualMessagesMerge(m: Message)
    ensures WithUnflushed([], [m, m]) == [m]
  {
    assert [m, m][1..] == [m] && [m][1..] == [] && [] + [m] == [m];
    assert WithUnflushed([m], [m]) == [m];
  }
}
