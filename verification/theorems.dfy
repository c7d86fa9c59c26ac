/** What holds in every run of the router, whatever the interleaving of its threads. */
module Theorems {
  import opened Messages
  import opened Pipeline
  import opened Wire
  import opened Servers
  import opened Conductors
  import opened Router
  import opened Invariants
  import opened Streams
  import opened Routing
  import opened Runs

  // ---------------------------------------------------------------- order, accounting, conservation

  /** No response of a worker is written before the successful create response of its instance. */
  lemma CreateComesFirst(b: System, k: nat)
    requires Reachable(b) && k < |b.s.popped| && b.s.popped[k].verb != Create
    ensures exists j :: 0 <= j < k && IsCreate(b.s.popped[j], b.s.popped[k].instance)
  {
    QueuesAreInOrder(b);
    var j :| 0 <= j < k && IsCreate(b.s.popped[..k][j], b.s.popped[k].instance);
    assert IsCreate(b.s.popped[j], b.s.popped[k].instance);
  }

  /** Among responses of one priority the writer keeps the order of the hand-overs. */
  lemma WriterKeepsOrder(b: System, priority: int)
    requires Reachable(b)
    ensures Pick(b.s.popped, OfPriority(priority)) <= Pick(b.s.handed, OfPriority(priority))
  {
    ReachableOk(b);
    assert Fifo(PipeOf(b), OfPriority(priority));
  }

  lemma QueueIncreases(b: System)
    requires Reachable(b)
    ensures Increasing(b.s.responseQueue)
  {
    ReachableOk(b);
    assert Accounted(PipeOf(b));
  }

  /** What the writer takes has a higher priority than everything it leaves, or the same and a lower id. */
  lemma WriterTakesLargest(b: System, k: nat)
    requires Reachable(b) && Enabled(b, OfServer(WriterPops(k)))
    ensures forall j :: 0 <= j < |b.s.responseQueue| && j != k ==>
      b.s.responseQueue[j].priority < b.s.responseQueue[k].priority ||
      (b.s.responseQueue[j].priority == b.s.responseQueue[k].priority && b.s.responseQueue[j].id > b.s.responseQueue[k].id)
  {
    QueueIncreases(b);
    var queue := b.s.responseQueue;
    TopIsDetermined(queue, k, queue, k);
  }

  /** The responses made are spread over four places: the out queue, the server's queue, the popped ones, the ones
      sent by `unmap`. Each id below the counter is in exactly one place, exactly once, and no other id is
      anywhere. Ids grow along the out queue, and what the server holds is older than what the conductor holds. */
  lemma ExactlyOnePlace(b: System, n: nat)
    requires Reachable(b) && n < b.c.nextId
    ensures var all := b.s.direct + b.c.outQueue + b.s.responseQueue + b.s.popped;
            && (exists k :: 0 <= k < |all| && all[k].id == n && forall j :: 0 <= j < |all| && j != k ==> all[j].id != n)
            && |all| == b.c.nextId && forall k :: 0 <= k < |all| ==> all[k].id < b.c.nextId
    ensures Increasing(b.c.outQueue)
    ensures forall k, j :: 0 <= k < |b.s.responseQueue| && 0 <= j < |b.c.outQueue| ==> b.s.responseQueue[k].id < b.c.outQueue[j].id
  {
    ReachableOk(b);
    ExactlyOnce(PipeOf(b), n);
    NoOtherIds(PipeOf(b));
    AgesOfQueues(PipeOf(b));
  }

  lemma TakenOnce(b: System, r: Response)
    requires Accounted(PipeOf(b)) && WrittenOnce(b) && r in Responses(b.s.wire)
    ensures r.id < b.c.nextId && b.h.made[r.id] == r
    ensures multiset(Responses(b.s.wire))[r] <= 1
  {
    var taken := multiset(b.s.popped) + multiset(b.s.direct);
    assert r in multiset(Responses(b.s.wire));
    assert (multiset(Responses(b.s.wire)) + HandBag(b))[r] <= taken[r] <= multiset(b.h.made)[r];
    assert r in multiset(b.s.popped) || r in multiset(b.s.direct);
    IdsAreBelow(PipeOf(b), r);
    OccursOnce(b.h.made, r.id);
  }

  /** No response is written twice, not even after a failed write. */
  lemma WrittenAtMostOnce(b: System, j: nat, k: nat)
    requires Reachable(b) && j < k < |b.s.wire|
    ensures b.s.wire[j].r.id != b.s.wire[k].r.id
  {
    ReachableOk(b);
    var rs := Responses(b.s.wire);
    assert Accounted(PipeOf(b));
    TakenOnce(b, rs[j]);
    TakenOnce(b, rs[k]);
    if rs[j] == rs[k] {
      CountsTwice(rs, j, k);
    }
  }

  /** Every request that reached the conductor was handled or waits. */
  lemma NoRequestLost(b: System)
    requires Reachable(b)
    ensures b.h.received == b.h.handled + b.c.inQueue
  {
    ReachableOk(b);
  }

  lemma StopStep(a: System, step: Step)
    requires Enabled(a, step) && StopOk(a) && Stopping(a.h.handled)
    ensures Apply(a, step).s.handed == a.s.handed && Stopping(Apply(a, step).h.handled)
  {
    var k :| 0 <= k < |a.h.handled| && a.h.handled[k].verb == Stop;
    assert Apply(a, step).h.handled[k].verb == Stop;
  }

  lemma {:induction false} StopLasts(a: System, steps: seq<Step>, b: System)
    requires StopOk(a) && Stopping(a.h.handled) && Run(a, steps, b)
    ensures b.s.handed == a.s.handed
    decreases |steps|
  {
    if steps != [] {
      StepKeepsStop(a, steps[0]);
      StopStep(a, steps[0]);
      StopLasts(Apply(a, steps[0]), steps[1..], b);
    }
  }

  /** From the turn that handles a stop request on, nothing is handed to the server. */
  lemma StopEndsHandOvers(a: System, steps: seq<Step>, b: System)
    requires Reachable(a) && Stopping(a.h.handled) && Run(a, steps, b)
    ensures b.s.handed == a.s.handed
  {
    ReachableOk(a);
    StopLasts(a, steps, b);
  }

  lemma {:induction false} SignalStays(a: System, steps: seq<Step>, b: System)
    requires Run(a, steps, b)
    ensures a.c.signal || OfConductor(Signal) in steps ==> b.c.signal
    ensures a.c.serverFailed || OfConductor(ServerFails) in steps ==> b.c.serverFailed
    decreases |steps|
  {
    if steps != [] {
      assert forall s :: s in steps <==> s == steps[0] || s in steps[1..];
      SignalStays(Apply(a, steps[0]), steps[1..], b);
    }
  }

  /** Between two turns with a signal or a failed server behind it, or after the last turn. */
  predicate Ending(a: System) {
    a.phase == Stopped || (a.phase == Idle && (a.c.signal || a.c.serverFailed))
  }

  lemma EndingStep(a: System, step: Step)
    requires Ending(a) && Enabled(a, step)
    ensures var b := Apply(a, step); Ending(b) && b.h.handled == a.h.handled && b.s.handed == a.s.handed
  {
  }

  lemma {:induction false} EndingLasts(a: System, steps: seq<Step>, b: System)
    requires Ending(a) && Run(a, steps, b)
    ensures Ending(b) && b.h.handled == a.h.handled && b.s.handed == a.s.handed
    decreases |steps|
  {
    if steps != [] {
      EndingStep(a, steps[0]);
      EndingLasts(Apply(a, steps[0]), steps[1..], b);
    }
  }

  /** No turn begins after a signal or a failure of the server: the conductor handles no further request and hands
      nothing over. */
  lemma SignalsEndTurns(before: seq<Step>, a: System, after: seq<Step>, b: System)
    requires Run(Init, before, a) && LockFree(a) && Run(a, after, b)
    requires OfConductor(Signal) in before || OfConductor(ServerFails) in before
    ensures b.phase != Batch && b.phase != HandOvers && b.h.handled == a.h.handled && b.s.handed == a.s.handed
  {
    SignalStays(Init, before, a);
    EndingLasts(a, after, b);
  }

  // ---------------------------------------------------------------- instances

  function BuiltIn(a: System, step: Step): seq<nat>
    requires Enabled(a, step)
  {
    match step
    case OfConductor(HandleNext(Built, _)) => if a.c.inQueue[0].verb == Create then [a.c.inQueue[0].instance] else []
    case _ => []
  }

  /** The instances for which the run builds workers. */
  function BuiltBy(a: System, steps: seq<Step>): seq<nat>
    decreases |steps|
  {
    if steps == [] || !Enabled(a, steps[0]) then []
    else BuiltIn(a, steps[0]) + BuiltBy(Apply(a, steps[0]), steps[1..])
  }

  lemma StepBuilds(a: System, step: Step)
    requires Enabled(a, step) && FrontIsNew(a)
    ensures Apply(a, step).sertops.Keys == a.sertops.Keys + set i | i in BuiltIn(a, step)
    ensures |BuiltIn(a, step)| <= 1 && forall i :: i in BuiltIn(a, step) ==> i !in a.sertops
  {
    if step.OfConductor? && step.conductor.HandleNext? {
      if a.c.inQueue[0].verb == Create {
        CreateEffect(a, step.conductor.outcome, step.conductor.sending);
      } else {
        OtherEffect(a, step.conductor.outcome, step.conductor.sending);
      }
    }
  }

  predicate NoDuplicates(s: seq<nat>) {
    forall j, k :: 0 <= j < k < |s| ==> s[j] != s[k]
  }

  /** The ids in `built` are new with respect to `before`, and make it `after`. */
  predicate BuildsUp(before: set<nat>, built: seq<nat>, after: set<nat>) {
    NoDuplicates(built) && (forall i :: i in built ==> i !in before) && after == before + set i | i in built
  }

  lemma BuildsOneMore(before: set<nat>, first: seq<nat>, between: set<nat>, rest: seq<nat>, after: set<nat>)
    requires |first| <= 1 && (forall i :: i in first ==> i !in before) && between == before + set i | i in first
    requires BuildsUp(between, rest, after)
    ensures BuildsUp(before, first + rest, after)
  {
    forall j, k | 0 <= j < k < |first + rest| ensures (first + rest)[j] != (first + rest)[k] {
      assert (first + rest)[k] == rest[k - |first|] && rest[k - |first|] in rest;
      if j < |first| {
        assert first[j] in first && first[j] in between;
      }
    }
  }

  lemma {:induction false} WorkersBuiltOnce(a: System, steps: seq<Step>, b: System)
    requires Reachable(a) && Run(a, steps, b)
    ensures BuildsUp(a.sertops.Keys, BuiltBy(a, steps), b.sertops.Keys)
    decreases |steps|
  {
    if steps == [] {
      assert BuiltBy(a, steps) == [];
    } else {
      var c := Apply(a, steps[0]);
      FrontsAreNew(a);
      StepBuilds(a, steps[0]);
      StepStaysReachable(a, steps[0]);
      WorkersBuiltOnce(c, steps[1..], b);
      BuildsOneMore(a.sertops.Keys, BuiltIn(a, steps[0]), c.sertops.Keys, BuiltBy(c, steps[1..]), b.sertops.Keys);
    }
  }

  /** At most one worker is ever built for an instance. */
  lemma OneWorkerPerInstance(steps: seq<Step>, b: System)
    requires Run(Init, steps, b)
    ensures NoDuplicates(BuiltBy(Init, steps))
    ensures b.sertops.Keys == set i | i in BuiltBy(Init, steps)
  {
    InitIsReachable();
    WorkersBuiltOnce(Init, steps, b);
    assert {} + (set i | i in BuiltBy(Init, steps)) == set i | i in BuiltBy(Init, steps);
  }

  /** The create requests are numbered 0, 1, 2, ... in order of arrival; each that was handled made one
      create response, in order, which says success exactly if a worker was built. */
  lemma OneReplyPerCreate(b: System)
    requires Reachable(b)
    ensures CreateIds(b.h.handled) <= Upto(b.s.nextId)
    ensures Instances(Pick(Queued(b), Creates)) == CreateIds(b.h.handled)
    ensures forall k :: 0 <= k < |Queued(b)| && Queued(b)[k].verb == Create ==>
      (Queued(b)[k].status == Success <==> Queued(b)[k].instance in b.sertops)
  {
    ReachableOk(b);
    HandledCreatesAreNumbered(b);
    forall k | 0 <= k < |Queued(b)| ensures ReplyFits(Queued(b)[k], b.sertops.Keys, CreateIds(b.h.handled)) {
    }
  }

  // ---------------------------------------------------------------- routing

  /** Every response is written to the client that created its instance or to the default socket. */
  lemma NoForeignResponses(b: System, k: nat)
    requires Reachable(b) && k < |b.s.wire|
    ensures SentWell(b.s.wire[k].r, b.s.wire[k].to, b.h.owner)
    ensures forall id :: id in b.s.clientMap ==> id < |b.h.owner| && (b.s.clientMap[id] == b.h.owner[id] || b.s.clientMap[id] == 0)
  {
    ReachableOk(b);
  }

  /** The writer invalidates a socket only if a write to it failed. */
  lemma OnlyFailuresInvalidate(b: System)
    requires Reachable(b) && b.writer.Invalidating?
    ensures exists j :: 0 <= j < |b.s.wire| && b.s.wire[j].to == b.writer.client && !Whole(b.s.wire[j])
  {
    FailuresAreOk(b);
    assert HasFailure(b.s.wire, b.writer.client);
  }

  /** What was written for instance `i` to its creator on the way from `a` to `b`. */
  function Late(a: System, b: System, i: nat): seq<Write>
    requires i < |a.h.owner| && |a.s.wire| <= |b.s.wire|
  {
    WritesFor(b.s.wire[|a.s.wire|..], i, a.h.owner[i])
  }

  /** A way from `a` to `b` on which instance `i` stays without its creator. */
  predicate StaysGone(a: System, b: System, i: nat) {
    && Gone(a, i) && Gone(b, i) && b.h.owner[i] == a.h.owner[i]
    && a.s.wire <= b.s.wire && AtMostInHand(a, Late(a, b, i), b, i)
  }

  lemma StepStaysGone(a: System, step: Step, i: nat)
    requires Enabled(a, step) && RoutesOk(a) && |a.h.owner| == a.s.nextId && Gone(a, i)
    ensures StaysGone(a, Apply(a, step), i)
  {
    var b := Apply(a, step);
    MappingNeverReturns(a, step, i);
    StepWrites(a, step);
    StepWritesAtMostInHand(a, step, i);
    assert b.s.wire[|a.s.wire|..] == WritesOf(a, step);
  }

  lemma GoneAdds(a: System, b: System, c: System, i: nat)
    requires StaysGone(a, b, i) && StaysGone(b, c, i)
    ensures StaysGone(a, c, i)
  {
    var x, y := b.s.wire[|a.s.wire|..], c.s.wire[|b.s.wire|..];
    WritesForConcat(x, y, i, a.h.owner[i]);
    assert c.s.wire[|a.s.wire|..] == x + y;
    LaterWrites(a, Late(a, b, i), b, Late(b, c, i), c, i);
  }

  lemma {:induction false} GoneStaysGone(a: System, steps: seq<Step>, b: System, i: nat)
    requires Reachable(a) && Run(a, steps, b) && Gone(a, i)
    ensures StaysGone(a, b, i)
    decreases |steps|
  {
    if steps == [] {
      assert a.s.wire[|a.s.wire|..] == [];
    } else {
      var c := Apply(a, steps[0]);
      RoutesAreOk(a);
      StepStaysGone(a, steps[0], i);
      StepStaysReachable(a, steps[0]);
      GoneStaysGone(c, steps[1..], b, i);
      GoneAdds(a, c, b, i);
    }
  }

  /** Once an instance is no longer mapped to its creator, it never is again; the creator gets at most one more
      response for it, and only the one that the writer had already popped for the creator. */
  lemma UnmappedForGood(a: System, steps: seq<Step>, b: System, i: nat)
    requires Reachable(a) && Run(a, steps, b) && i < |a.h.owner| && !StillMapped(a, i)
    ensures i < |b.h.owner| && b.h.owner[i] == a.h.owner[i] && !StillMapped(b, i)
    ensures a.s.wire <= b.s.wire && |Late(a, b, i)| <= 1
    ensures Late(a, b, i) != [] ==> HoldsFor(a, i) && Late(a, b, i)[0].r == a.writer.r
  {
    GoneStaysGone(a, steps, b, i);
  }

  /** From `a` on no byte for instance `i` reaches its creator, however the program goes on. */
  ghost predicate SilentFrom(a: System, i: nat)
    requires i < |a.h.owner|
  {
    forall steps, b :: Run(a, steps, b) ==> |a.s.wire| <= |b.s.wire| && Arrived(Late(a, b, i)) == []
  }

  lemma {:induction false} ClosedStaysClosed(a: System, steps: seq<Step>, b: System, client: Socket)
    requires Run(a, steps, b) && client in a.s.closed && |a.s.wire| <= |b.s.wire| && b.s.wire[..|a.s.wire|] == a.s.wire
    ensures forall k :: |a.s.wire| <= k < |b.s.wire| && b.s.wire[k].to == client ==> b.s.wire[k].out.sent == 0
    decreases |steps|
  {
    if steps != [] {
      var c := Apply(a, steps[0]);
      StepWrites(a, steps[0]);
      RunWrites(c, steps[1..], b);
      ClosedStaysClosed(c, steps[1..], b, client);
      assert forall k :: |a.s.wire| <= k < |c.s.wire| ==> b.s.wire[k] == b.s.wire[..|c.s.wire|][k] == WritesOf(a, steps[0])[k - |a.s.wire|];
    }
  }

  lemma {:induction false} RunWrites(a: System, steps: seq<Step>, b: System)
    requires Run(a, steps, b)
    ensures a.s.wire <= b.s.wire
    decreases |steps|
  {
    if steps != [] {
      StepWrites(a, steps[0]);
      RunWrites(Apply(a, steps[0]), steps[1..], b);
    }
  }

  /** The creator of an unmapped instance hears nothing more of it if and only if the writer does not hold a
      response of it for the creator, or the creator's socket is closed, or the program is dead. */
  lemma SilentExactly(a: System, i: nat)
    requires Reachable(a) && Gone(a, i)
    ensures SilentFrom(a, i) <==> !MayArrive(a, i)
  {
    if MayArrive(a, i) {
      HeldMayArrive(a, i);
    } else {
      forall steps, b | Run(a, steps, b) ensures |a.s.wire| <= |b.s.wire| && Arrived(Late(a, b, i)) == [] {
        GoneStaysGone(a, steps, b, i);
        if HoldsFor(a, i) {
          HeldDoesNotArrive(a, steps, b, i);
        }
      }
    }
  }

  lemma HeldDoesNotArrive(a: System, steps: seq<Step>, b: System, i: nat)
    requires Run(a, steps, b) && i < |a.h.owner| && a.s.wire <= b.s.wire
    requires a.phase == Crashed || a.h.owner[i] in a.s.closed
    ensures Arrived(Late(a, b, i)) == []
  {
    var later := b.s.wire[|a.s.wire|..];
    if a.phase == Crashed {
      assert steps == [] && later == [];
    } else {
      ClosedStaysClosed(a, steps, b, a.h.owner[i]);
      assert forall k :: 0 <= k < |later| ==> later[k] == b.s.wire[|a.s.wire| + k];
      WritesForArePart(later, i, a.h.owner[i]);
      NothingArrives(Late(a, b, i));
    }
  }

  lemma {:induction false} WritesForArePart(ws: seq<Write>, i: nat, socket: Socket)
    ensures forall k :: 0 <= k < |WritesFor(ws, i, socket)| ==>
      WritesFor(ws, i, socket)[k] in ws && WritesFor(ws, i, socket)[k].to == socket
  {
    if ws != [] {
      WritesForArePart(ws[..|ws| - 1], i, socket);
      assert forall w :: w in ws[..|ws| - 1] ==> w in ws;
    }
  }

  lemma HeldMayArrive(a: System, i: nat)
    requires MayArrive(a, i)
    ensures !SilentFrom(a, i)
  {
    var sending: Sending := Attempt([], 4);
    var step := OfServer(WriterWrites(sending));
    var b := Apply(a, step);
    OneStep(a, step);
    var w := Write(a.writer.r, a.writer.client, sending);
    assert b.s.wire[|a.s.wire|..] == [w];
    assert [w][..0] == [] && WritesFor([w], i, a.h.owner[i]) == [w];
    assert |Arrived([w])| >= |BytesOf(w)|;
    assert Run(a, [step], b) && Arrived(Late(a, b, i)) != [];
  }
}
