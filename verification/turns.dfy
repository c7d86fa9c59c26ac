/** One turn of the conductor inside a run: other threads step in between, but not into what the turn handles. */
module Turns {
  import opened Messages
  import opened Pipeline
  import opened Wire
  import opened Servers
  import opened Conductors
  import opened Router
  import opened Invariants

  /** At `b` the turn that began at `a` has handled the first |outcomes| requests of its batch. */
  predicate InBatch(a: System, outcomes: seq<Outcome>, signalled: bool, b: System) {
    var n, batch := |outcomes|, a.c.inQueue;
    && b.phase == Batch && n <= |batch|
    && b.c == AfterSome(a.c, batch, outcomes, signalled)
    && b.h.handled == a.h.handled + batch[..n]
    && b.s.handed == a.s.handed
  }

  lemma FrontEffect(b: System, outcome: Outcome, sending: Sending)
    requires b.phase == Batch && b.c.inQueue != []
    ensures var q, c := b.c.inQueue[0], FrontHandled(b, outcome, sending);
            c.phase == Crashed ||
            (&& c.phase == Batch && c.c == Handled(b.c, q, outcome).(inQueue := b.c.inQueue[1..])
             && c.h.handled == b.h.handled + [q] && c.s.handed == b.s.handed)
  {
  }

  /** Handling is the only step inside a batch that touches what the turn is about. */
  lemma HandlingContinuesBatch(a: System, outcomes: seq<Outcome>, signalled: bool, b: System, outcome: Outcome, sending: Sending)
    requires InBatch(a, outcomes, signalled, b) && b.c.inQueue != []
    ensures var c := FrontHandled(b, outcome, sending);
            c.phase == Crashed || InBatch(a, outcomes + [outcome], signalled, c)
  {
    var n, batch, c := |outcomes|, a.c.inQueue, FrontHandled(b, outcome, sending);
    FrontEffect(b, outcome, sending);
    OneMoreHandled(a.c, batch, outcomes, signalled, outcome);
    if c.phase != Crashed {
      assert batch[..n + 1] == batch[..n] + [batch[n]];
      assert c.h.handled == a.h.handled + batch[..n + 1];
      assert batch[n..][1..] == batch[n + 1..];
      assert c.c == AfterSome(a.c, batch, outcomes + [outcome], signalled);
    }
  }

  lemma OthersContinueBatch(a: System, outcomes: seq<Outcome>, signalled: bool, b: System, step: Step)
    requires InBatch(a, outcomes, signalled, b) && Enabled(b, step)
    requires step != OfConductor(EndBatch) && !(step.OfConductor? && step.conductor.HandleNext?)
    ensures InBatch(a, outcomes, signalled || step == OfConductor(Signal), Apply(b, step))
  {
  }

  lemma {:induction false} BatchContinues(a: System, outcomes: seq<Outcome>, signalled: bool, b: System, steps: seq<Step>, c: System)
    returns (all: seq<Outcome>)
    requires InBatch(a, outcomes, signalled, b) && Run(b, steps, c) && c.phase == Batch && OfConductor(EndBatch) !in steps
    ensures InBatch(a, all, signalled || OfConductor(Signal) in steps, c)
    decreases |steps|
  {
    if steps == [] {
      all := outcomes;
    } else {
      var d := Apply(b, steps[0]);
      assert forall s :: s in steps <==> s == steps[0] || s in steps[1..];
      var more := outcomes;
      if steps[0].OfConductor? && steps[0].conductor.HandleNext? {
        HandlingContinuesBatch(a, outcomes, signalled, b, steps[0].conductor.outcome, steps[0].conductor.sending);
        more := outcomes + [steps[0].conductor.outcome];
      } else {
        OthersContinueBatch(a, outcomes, signalled, b, steps[0]);
      }
      all := BatchContinues(a, more, signalled || steps[0] == OfConductor(Signal), d, steps[1..], c);
    }
  }

  /** At `c` the turn whose batch ended at `b` has handed over the first `m` responses. */
  predicate InHandOvers(b: System, m: nat, c: System) {
    && c.phase == HandOvers && m <= |b.c.outQueue|
    && c.c.outQueue == b.c.outQueue[m..] && c.s.handed == b.s.handed + b.c.outQueue[..m]
    && c.c.inQueue == b.c.inQueue && c.h.handled == b.h.handled && c.c.nextId == b.c.nextId
  }

  lemma StepContinuesHandOvers(b: System, m: nat, c: System, step: Step) returns (n: nat)
    requires InHandOvers(b, m, c) && Enabled(c, step) && step != OfConductor(EndTurn)
    ensures InHandOvers(b, n, Apply(c, step))
  {
    n := m;
    if step == OfConductor(HandOverNext) {
      n := m + 1;
      assert b.c.outQueue[..m + 1] == b.c.outQueue[..m] + [b.c.outQueue[m]];
      assert b.c.outQueue[m..][1..] == b.c.outQueue[m + 1..];
    }
  }

  lemma {:induction false} HandOversContinue(b: System, m: nat, c: System, steps: seq<Step>, d: System) returns (n: nat)
    requires InHandOvers(b, m, c) && Run(c, steps, d) && OfConductor(EndTurn) !in steps
    ensures InHandOvers(b, n, d)
    decreases |steps|
  {
    n := m;
    if steps != [] {
      n := StepContinuesHandOvers(b, m, c, steps[0]);
      n := HandOversContinue(b, n, Apply(c, steps[0]), steps[1..], d);
    }
  }

  /** From `a` a turn begins; at `b`, after steps of any threads, its batch is done. */
  predicate IsBatch(a: System, steps: seq<Step>, b: System) {
    && a.phase == Idle && !a.c.signal && !a.c.serverFailed
    && Run(a, [OfConductor(BeginTurn)] + steps, b) && OfConductor(EndBatch) !in steps && Enabled(b, OfConductor(EndBatch))
  }

  /** From `b`, where its batch is done, a turn goes on to its end at `c`. */
  predicate IsHandOver(b: System, steps: seq<Step>, c: System) {
    && Enabled(b, OfConductor(EndBatch)) && Run(b, [OfConductor(EndBatch)] + steps, c)
    && OfConductor(EndTurn) !in steps && Enabled(c, OfConductor(EndTurn))
  }

  /** A turn handles exactly the requests that waited when it began, in order, whatever the other threads do
      meanwhile; one reply for each create request joins the out queue, and nothing is handed over. */
  lemma BatchIsHandled(a: System, steps: seq<Step>, b: System) returns (outcomes: seq<Outcome>)
    requires IsBatch(a, steps, b)
    ensures |outcomes| == |a.c.inQueue|
    ensures b.h.handled == a.h.handled + a.c.inQueue && b.c.inQueue == []
    ensures b.c.outQueue == a.c.outQueue + Replies(a.c.nextId, a.c.inQueue, outcomes)
    ensures b.c.nextId == a.c.nextId + IdsUsed(a.c.inQueue)
    ensures b.s.handed == a.s.handed
    ensures b.c.signal <==> Stopping(a.c.inQueue) || OfConductor(Signal) in steps
  {
    var begun := Apply(a, OfConductor(BeginTurn));
    assert ([OfConductor(BeginTurn)] + steps)[1..] == steps;
    var batch := a.c.inQueue;
    assert batch[0..] == batch && a.h.handled + batch[..0] == a.h.handled;
    assert InBatch(a, [], false, begun);
    outcomes := BatchContinues(a, [], false, begun, steps, b);
    assert batch[..|batch|] == batch;
    BatchMeaning(a.c, batch, outcomes);
  }

  /** Then everything queued is handed over, in order; what other threads do meanwhile joins neither queue. */
  lemma QueueIsHandedOver(b: System, steps: seq<Step>, c: System)
    requires IsHandOver(b, steps, c) && !b.c.signal
    ensures c.phase == HandOvers && c.h.handled == b.h.handled
    ensures c.c.inQueue == [] && c.c.outQueue == [] && c.s.handed == b.s.handed + b.c.outQueue
  {
    var begun := Apply(b, OfConductor(EndBatch));
    assert ([OfConductor(EndBatch)] + steps)[1..] == steps;
    assert b.c.outQueue[0..] == b.c.outQueue && b.s.handed + b.c.outQueue[..0] == b.s.handed;
    var n := HandOversContinue(b, 0, begun, steps, c);
    assert n == |b.c.outQueue| && b.c.outQueue[..n] == b.c.outQueue;
  }

  /** A turn in full. Without a stop or a signal, exactly what was queued at the end of its batch is handed over, in
      order, and both queues end empty; with one, nothing is handed over and the conductor stops. */
  lemma TurnsLeaveNothing(a: System, first: seq<Step>, b: System, second: seq<Step>, c: System) returns (outcomes: seq<Outcome>)
    requires IsBatch(a, first, b) && (!b.c.signal ==> IsHandOver(b, second, c))
    ensures |outcomes| == |a.c.inQueue| && b.h.handled == a.h.handled + a.c.inQueue
    ensures b.c.signal <==> Stopping(a.c.inQueue) || OfConductor(Signal) in first
    ensures var queued := a.c.outQueue + Replies(a.c.nextId, a.c.inQueue, outcomes);
            if b.c.signal then
              var stopped := Apply(b, OfConductor(EndBatch));
              stopped.phase == Stopped && stopped.c.inQueue == [] && stopped.c.outQueue == queued && stopped.s.handed == a.s.handed
            else
              && Apply(c, OfConductor(EndTurn)).phase == Idle && c.h.handled == b.h.handled
              && c.c.inQueue == [] && c.c.outQueue == [] && c.s.handed == a.s.handed + queued
  {
    outcomes := BatchIsHandled(a, first, b);
    if !b.c.signal {
      QueueIsHandedOver(b, second, c);
    }
  }
}
