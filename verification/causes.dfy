/** What the clients sent, and what the program answers to what happened. */
module Causes {
  import opened Messages
  import opened Pipeline
  import opened Wire
  import opened Servers
  import opened Conductors
  import opened Router
  import opened Invariants
  import opened Routing
  import opened Runs

  // ---------------------------------------------------------------- requests

  datatype Sent = Sent(client: Socket, q: Request)

  /** The requests read during the steps, as they were sent, with their senders. */
  function ReadsOf(steps: seq<Step>): seq<Sent> {
    if steps == [] then [] else ReadBy(steps[0]) + ReadsOf(steps[1..])
  }

  function ReadBy(step: Step): seq<Sent> {
    if step.OfServer? && step.server.ReadRequest? then [Sent(step.server.client, step.server.q)] else []
  }

  /** Requests arrive as they were sent, except that a create request gets another instance id. */
  predicate Arrive(sent: seq<Sent>, arrived: seq<Request>) {
    && |arrived| == |sent|
    && forall k :: 0 <= k < |sent| ==>
         && arrived[k].verb == sent[k].q.verb && arrived[k].content == sent[k].q.content
         && (sent[k].q.verb != Create ==> arrived[k].instance == sent[k].q.instance)
  }

  /** The senders of the create requests. */
  function Creators(sent: seq<Sent>): seq<Socket> {
    if sent == [] then [] else (if sent[0].q.verb == Create then [sent[0].client] else []) + Creators(sent[1..])
  }

  function Arrived(a: System): seq<Request> {
    a.h.received + a.reading
  }

  lemma StepReads(a: System, step: Step) returns (more: seq<Request>)
    requires Enabled(a, step)
    ensures Arrived(Apply(a, step)) == Arrived(a) + more && Arrive(ReadBy(step), more)
  {
    more := [];
    assert Arrived(a) + [] == Arrived(a);
    match step
    case OfServer(st) =>
      if st.ReadRequest? {
        more := [Numbered(a.s, st.q)];
        assert Arrived(a) == a.h.received;
      }
    case OfConductor(st) =>
      assert a.h.received + a.reading + [] == a.h.received + a.reading;
    case OfWorker(i, st) =>
  }

  lemma StepOwns(a: System, step: Step)
    requires Enabled(a, step)
    ensures Apply(a, step).h.owner == a.h.owner + Creators(ReadBy(step))
  {
    if step.OfServer? && step.server.ReadRequest? {
      assert ReadBy(step)[1..] == [];
    } else {
      assert a.h.owner + [] == a.h.owner;
    }
  }

  lemma Regroup(x: seq<Socket>, y: seq<Socket>, z: seq<Socket>)
    ensures x + y + z == x + (y + z)
  {
  }

  lemma {:induction false} CreatorsConcat(x: seq<Sent>, y: seq<Sent>)
    ensures Creators(x + y) == Creators(x) + Creators(y)
  {
    if x == [] {
      assert x + y == y;
    } else {
      CreatorsConcat(x[1..], y);
      assert (x + y)[1..] == x[1..] + y && (x + y)[0] == x[0];
      var first := if x[0].q.verb == Create then [x[0].client] else [];
      assert first + (Creators(x[1..]) + Creators(y)) == first + Creators(x[1..]) + Creators(y);
    }
  }

  lemma ArriveConcat(x: seq<Sent>, arrived: seq<Request>, y: seq<Sent>, more: seq<Request>)
    requires Arrive(x, arrived) && Arrive(y, more)
    ensures Arrive(x + y, arrived + more)
  {
  }

  lemma {:induction false} RequestsOfRun(a: System, steps: seq<Step>, b: System) returns (more: seq<Request>)
    requires Run(a, steps, b)
    ensures Arrived(b) == Arrived(a) + more && Arrive(ReadsOf(steps), more)
    decreases |steps|
  {
    if steps == [] {
      more := [];
      assert Arrived(a) + more == Arrived(a);
    } else {
      var first := StepReads(a, steps[0]);
      var rest := RequestsOfRun(Apply(a, steps[0]), steps[1..], b);
      more := first + rest;
      ArriveConcat(ReadBy(steps[0]), first, ReadsOf(steps[1..]), rest);
      assert Arrived(a) + first + rest == Arrived(a) + more;
    }
  }

  lemma {:induction false} OwnersOfRun(a: System, steps: seq<Step>, b: System)
    requires Run(a, steps, b)
    ensures b.h.owner == a.h.owner + Creators(ReadsOf(steps))
    decreases |steps|
  {
    if steps == [] {
      assert a.h.owner + [] == a.h.owner;
    } else {
      StepOwns(a, steps[0]);
      OwnersOfRun(Apply(a, steps[0]), steps[1..], b);
      CreatorsConcat(ReadBy(steps[0]), ReadsOf(steps[1..]));
      Regroup(a.h.owner, Creators(ReadBy(steps[0])), Creators(ReadsOf(steps[1..])));
    }
  }

  /** The requests that reached the conductor, and the one on its way, are those that the clients sent, in order and
      unchanged, but that the create requests are numbered 0, 1, 2, ...; the i-th of them makes its sender the
      creator of instance i. */
  lemma RequestsArrive(steps: seq<Step>, b: System)
    requires Run(Init, steps, b)
    ensures Arrive(ReadsOf(steps), b.h.received + b.reading)
    ensures CreateIds(b.h.received + b.reading) == Upto(|Creators(ReadsOf(steps))|)
    ensures b.h.owner == Creators(ReadsOf(steps))
  {
    var more := RequestsOfRun(Init, steps, b);
    OwnersOfRun(Init, steps, b);
    assert Arrived(Init) + more == more && Init.h.owner + Creators(ReadsOf(steps)) == Creators(ReadsOf(steps));
    InitOk();
    RunKeepsInv(Init, steps, b);
  }

  /** The contents of the forward requests that clients sent for instance `i`, in order. */
  function ForwardsSent(sent: seq<Sent>, i: nat): seq<Bytes> {
    if sent == [] then [] else
      var last := |sent| - 1;
      ForwardsSent(sent[..last], i) +
      if sent[last].q.verb == Forward && sent[last].q.instance == i then [sent[last].q.content] else []
  }

  lemma {:induction false} ForwardsArrive(sent: seq<Sent>, arrived: seq<Request>, i: nat)
    requires Arrive(sent, arrived)
    ensures ForwardedTo(arrived, i) == ForwardsSent(sent, i)
  {
    if sent != [] {
      ForwardsArrive(sent[..|sent| - 1], arrived[..|sent| - 1], i);
    }
  }

  // ---------------------------------------------------------------- responses

  /** What makes the conductor queue a response. */
  datatype Cause = Created(i: nat, outcome: Outcome) | Printed(i: nat, message: Bytes) | Failed(i: nat, what: Bytes)

  function CauseOf(a: System, step: Step): seq<Cause>
    requires Enabled(a, step)
  {
    match step
    case OfConductor(HandleNext(outcome, _)) =>
      if a.c.inQueue[0].verb == Create then [Created(a.c.inQueue[0].instance, outcome)] else []
    case OfWorker(i, DeliverResponse) => [Printed(i, a.sertops[i].pending[0])]
    case OfWorker(i, Fails(what)) => [Failed(i, what)]
    case _ => []
  }

  /** The causes during the steps, in order. */
  function CausesOf(a: System, steps: seq<Step>): seq<Cause>
    decreases |steps|
  {
    if steps == [] || !Enabled(a, steps[0]) then []
    else CauseOf(a, steps[0]) + CausesOf(Apply(a, steps[0]), steps[1..])
  }

  /** The response to each cause, but for its id. */
  predicate Says(r: Response, cause: Cause) {
    match cause
    case Created(i, Built) => r == Response(r.id, 1, Success, Create, i, [])
    case Created(i, NotBuilt(what)) => r == Response(r.id, 1, Failure, Create, i, what)
    case Printed(i, message) => r == Response(r.id, 0, Success, Forward, i, message)
    case Failed(i, what) => r == Response(r.id, 1, Failure, Destroy, i, what)
  }

  predicate AllSay(rs: seq<Response>, causes: seq<Cause>) {
    |rs| == |causes| && forall k :: 0 <= k < |rs| ==> Says(rs[k], causes[k])
  }

  lemma StepSays(a: System, step: Step)
    requires Enabled(a, step)
    ensures AllSay(EmittedBy(ActionOf(a, step)), CauseOf(a, step))
  {
  }

  lemma {:induction false} ResponsesOfRun(a: System, steps: seq<Step>, b: System) returns (more: seq<Response>)
    requires Run(a, steps, b)
    ensures Queued(b) == Queued(a) + more && AllSay(more, CausesOf(a, steps))
    decreases |steps|
  {
    if steps == [] {
      more := [];
    } else {
      StepActs(a, steps[0]);
      StepSays(a, steps[0]);
      var first := EmittedBy(ActionOf(a, steps[0]));
      var rest := ResponsesOfRun(Apply(a, steps[0]), steps[1..], b);
      more := first + rest;
      assert Queued(a) + first + rest == Queued(a) + more;
    }
  }

  /** One response is queued for each create request handled, each message a worker delivered and each worker's
      failure, in the order in which these happened; it says what happened and to which instance. */
  lemma ResponsesSay(steps: seq<Step>, b: System)
    requires Run(Init, steps, b)
    ensures AllSay(Queued(b), CausesOf(Init, steps))
  {
    var more := ResponsesOfRun(Init, steps, b);
    assert Queued(Init) + more == more;
  }

  /** One final response is sent past the queues for each destroy request handled, in order: success, no content. */
  lemma FinalsSay(b: System)
    requires Reachable(b)
    ensures |b.s.direct| == |DestroyIds(b.h.handled)|
    ensures forall k :: 0 <= k < |b.s.direct| ==>
      && b.s.direct[k].verb == Destroy && b.s.direct[k].status == Success && b.s.direct[k].priority == 1
      && b.s.direct[k].instance == DestroyIds(b.h.handled)[k] && b.s.direct[k].content == []
  {
    ReachableOk(b);
  }
}
