/** Runs of the router, and that every state they reach satisfies the invariant. */
module Runs {
  import opened Messages
  import opened Splitting
  import opened Pipeline
  import opened Wire
  import opened Servers
  import opened Conductors
  import opened Router
  import opened Invariants
  import opened Streams
  import opened Routing

  /** A conductor that handled a stop request hands nothing over any more. */
  predicate StopOk(a: System) {
    Stopping(a.h.handled) ==> a.c.signal && a.phase != Idle && a.phase != HandOvers
  }

  ghost predicate Inv(a: System) {
    && QueuesOk(a) && RequestsOk(a) && LivesOk(a) && StopOk(a)
    && OutputsOk(a) && InputsOk(a)
    && RoutesOk(a) && DirectsAreFinal(a) && ReceivedOk(a) && WrittenOnce(a) && FailuresOk(a) && ClientsOk(a)
  }

  lemma InitIsInOrder()
    ensures QueuesOk(Init) && RequestsOk(Init) && LivesOk(Init) && StopOk(Init)
  {
    assert Init.h.received + Init.reading == [];
    assert forall sel :: Pick([], sel) == [];
  }

  lemma InitStreams()
    ensures OutputsOk(Init) && InputsOk(Init)
  {
    assert forall sel :: Pick([], sel) == [];
  }

  lemma InitRoutes()
    ensures RoutesOk(Init) && DirectsAreFinal(Init) && ReceivedOk(Init) && FailuresOk(Init) && ClientsOk(Init)
  {
  }

  lemma InitWrites()
    ensures WrittenOnce(Init)
  {
    assert Responses(Init.s.wire) == [];
  }

  lemma InitOk()
    ensures Inv(Init)
  {
    InitIsInOrder();
    InitStreams();
    InitRoutes();
    InitWrites();
  }

  lemma StepKeepsStop(a: System, step: Step)
    requires Enabled(a, step) && StopOk(a)
    ensures StopOk(Apply(a, step))
  {
    if step.OfConductor? && step.conductor.HandleNext? {
      var q := a.c.inQueue[0];
      var longer := a.h.handled + [q];
      assert Stopping(longer) ==> Stopping(a.h.handled) || q.verb == Stop by {
        assert forall k :: 0 <= k < |a.h.handled| ==> longer[k] == a.h.handled[k];
      }
    }
  }

  lemma StepKeepsInv(a: System, step: Step)
    requires Enabled(a, step) && Inv(a)
    ensures Inv(Apply(a, step))
  {
    NewIsUnbuilt(a);
    CallbacksMayEmit(a, step);
    StepKeepsQueues(a, step);
    StepKeepsRequests(a, step);
    StepKeepsLives(a, step);
    StepKeepsStop(a, step);
    StepKeepsStreams(a, step);
    StepKeepsRoutes(a, step);
    StepKeepsDirects(a, step);
    StepKeepsReceived(a, step);
    StepKeepsWrittenOnce(a, step);
    StepKeepsFailures(a, step);
    StepKeepsClients(a, step);
  }

  ghost predicate Reachable(a: System) {
    exists steps :: Run(Init, steps, a)
  }

  lemma {:induction false} RunKeepsInv(a: System, steps: seq<Step>, b: System)
    requires Inv(a) && Run(a, steps, b)
    ensures Inv(b)
    decreases |steps|
  {
    if steps != [] {
      StepKeepsInv(a, steps[0]);
      RunKeepsInv(Apply(a, steps[0]), steps[1..], b);
    }
  }

  lemma ReachableOk(b: System)
    requires Reachable(b)
    ensures Inv(b)
  {
    var steps :| Run(Init, steps, b);
    InitOk();
    RunKeepsInv(Init, steps, b);
  }

  lemma {:induction false} RunAppend(a: System, steps: seq<Step>, b: System, step: Step)
    requires Run(a, steps, b) && Enabled(b, step)
    ensures Run(a, steps + [step], Apply(b, step))
    decreases |steps|
  {
    if steps == [] {
      assert [step][1..] == [];
      assert Run(Apply(b, step), [], Apply(b, step));
    } else {
      RunAppend(Apply(a, steps[0]), steps[1..], b, step);
      assert (steps + [step])[1..] == steps[1..] + [step];
    }
  }

  lemma StepStaysReachable(a: System, step: Step)
    requires Reachable(a) && Enabled(a, step)
    ensures Reachable(Apply(a, step))
  {
    var steps :| Run(Init, steps, a);
    RunAppend(Init, steps, a, step);
  }

  lemma InitIsReachable()
    ensures Reachable(Init)
  {
    assert Run(Init, [], Init);
  }

  /** A run of one step. */
  lemma OneStep(a: System, step: Step)
    requires Enabled(a, step)
    ensures Run(a, [step], Apply(a, step))
  {
    assert [step][1..] == [];
    assert Run(Apply(a, step), [], Apply(a, step));
  }

  lemma FrontsAreNew(a: System)
    requires Reachable(a)
    ensures FrontIsNew(a)
  {
    ReachableOk(a);
    NewIsUnbuilt(a);
  }

  lemma RoutesAreOk(a: System)
    requires Reachable(a)
    ensures RoutesOk(a) && |a.h.owner| == a.s.nextId
  {
    ReachableOk(a);
  }

  lemma FailuresAreOk(a: System)
    requires Reachable(a)
    ensures FailuresOk(a)
  {
    ReachableOk(a);
  }

  lemma ClientsAreOk(a: System)
    requires Reachable(a)
    ensures ClientsOk(a)
  {
    ReachableOk(a);
  }

  lemma RequestsAndLivesAreOk(a: System)
    requires Reachable(a)
    ensures RequestsOk(a) && LivesOk(a)
  {
    ReachableOk(a);
  }

  lemma ReceivedIsOk(a: System)
    requires Reachable(a)
    ensures ReceivedOk(a)
  {
    ReachableOk(a);
  }

  lemma QueuesAreInOrder(a: System)
    requires Reachable(a)
    ensures QueuesInOrder(PipeOf(a))
  {
    ReachableOk(a);
  }

  lemma InputsAreOk(a: System, i: nat)
    requires Reachable(a)
    ensures InputOkFor(a, i)
  {
    ReachableOk(a);
  }
}
