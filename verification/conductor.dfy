/** The conductor: it handles requests batch by batch and hands responses to the server. */
module Conductors {
  import opened Messages
  import opened Wire
  import opened Servers
  import opened Workers
  import opened Sequences

  /** How the construction of a worker ended: `NotBuilt` carries the text of the `api_error`. */
  datatype Outcome = Built | NotBuilt(what: Bytes)

  datatype ConductorState = ConductorState(
    nextId: nat,
    inQueue: seq<Request>,
    outQueue: seq<Response>,
    workers: set<nat>,
    signal: bool,
    serverFailed: bool)

  /** `create_empty_response` and the assignments its callers make. */
  function Reply(id: nat, instance: nat, verb: Verb, priority: int, status: Status, content: Bytes): Response {
    Response(id, priority, status, verb, instance, content)
  }

  function CreateReply(id: nat, instance: nat, outcome: Outcome): Response {
    match outcome
    case Built => Reply(id, instance, Create, 1, Success, [])
    case NotBuilt(what) => Reply(id, instance, Create, 1, Failure, what)
  }

  function DestroyReply(id: nat, instance: nat): Response {
    Reply(id, instance, Destroy, 1, Success, [])
  }

  function Emitted(c: ConductorState, r: Response): ConductorState {
    c.(nextId := c.nextId + 1, outQueue := c.outQueue + [r])
  }

  function OnResponse(c: ConductorState, instance: nat, content: Bytes): ConductorState {
    Emitted(c, Reply(c.nextId, instance, Forward, 0, Success, content))
  }

  function OnWorkerFailure(c: ConductorState, instance: nat, what: Bytes): ConductorState {
    Emitted(c, Reply(c.nextId, instance, Destroy, 1, Failure, what)).(workers := c.workers - {instance})
  }

  /** A forward to an instance without a worker dereferences null. */
  predicate Handleable(c: ConductorState, q: Request) {
    q.verb == Forward ==> q.instance in c.workers
  }

  function Handled(c: ConductorState, q: Request, outcome: Outcome): ConductorState {
    match q.verb
    case Create =>
      Emitted(c, CreateReply(c.nextId, q.instance, outcome)).(
        workers := if outcome.Built? then c.workers + {q.instance} else c.workers)
    case Destroy => c.(nextId := c.nextId + 1, workers := c.workers - {q.instance})
    case Forward => c
    case Stop => c.(signal := true)
  }

  function BatchHandled(c: ConductorState, batch: seq<Request>, outcomes: seq<Outcome>): ConductorState
    requires |batch| == |outcomes|
  {
    if batch == [] then c else
      var last := |batch| - 1;
      Handled(BatchHandled(c, batch[..last], outcomes[..last]), batch[last], outcomes[last])
  }

  /** What handling a request does to the server; `id` is the next response id, `sending` the fate of the final
      response. */
  function ServerAfter(s: ServerState, id: nat, q: Request, sending: Sending): ServerState {
    if q.verb == Destroy then Unmapped(s, q.instance, DestroyReply(id, q.instance), sending) else s
  }

  /** The responses a batch puts in the out queue: one for each create request, in order. */
  function Replies(id: nat, batch: seq<Request>, outcomes: seq<Outcome>): seq<Response>
    requires |batch| == |outcomes|
  {
    if batch == [] then [] else
      var last := |batch| - 1;
      Replies(id, batch[..last], outcomes[..last]) +
      if batch[last].verb == Create then
        [CreateReply(id + IdsUsed(batch[..last]), batch[last].instance, outcomes[last])]
      else []
  }

  function FinalOf(id: nat, q: Request): seq<Response> {
    if q.verb == Destroy then [DestroyReply(id, q.instance)] else []
  }

  /** The final responses a batch sends past the queues: one for each destroy request, in order. */
  function Finals(id: nat, batch: seq<Request>): seq<Response> {
    if batch == [] then [] else
      var last := |batch| - 1;
      Finals(id, batch[..last]) + FinalOf(id + IdsUsed(batch[..last]), batch[last])
  }

  /** The response ids a batch uses up: one for each create and each destroy request. */
  function IdsUsed(batch: seq<Request>): nat {
    if batch == [] then 0 else
      var last := |batch| - 1;
      IdsUsed(batch[..last]) + if batch[last].verb == Create || batch[last].verb == Destroy then 1 else 0
  }

  predicate Stopping(batch: seq<Request>) {
    exists k :: 0 <= k < |batch| && batch[k].verb == Stop
  }

  function Destroyed(batch: seq<Request>): set<nat> {
    set k | 0 <= k < |batch| && batch[k].verb == Destroy :: batch[k].instance
  }

  lemma {:induction false} BatchMeaning(c: ConductorState, batch: seq<Request>, outcomes: seq<Outcome>)
    requires |batch| == |outcomes|
    ensures var d := BatchHandled(c, batch, outcomes);
            && d.nextId == c.nextId + IdsUsed(batch)
            && d.outQueue == c.outQueue + Replies(c.nextId, batch, outcomes)
            && d.signal == (c.signal || Stopping(batch))
            && d.inQueue == c.inQueue && d.serverFailed == c.serverFailed
  {
    if batch != [] {
      var last := |batch| - 1;
      BatchMeaning(c, batch[..last], outcomes[..last]);
      assert Stopping(batch) <==> Stopping(batch[..last]) || batch[last].verb == Stop by {
        assert forall k :: 0 <= k < last ==> batch[..last][k] == batch[k];
      }
    }
  }

  /** What is certain of the client map after a request is handled, whatever the server's threads did just
      before: no old mapping moved, and a destroyed instance is mapped to no client. */
  predicate MapAfter(m: map<nat, Socket>, later: map<nat, Socket>, numbered: nat, q: Request) {
    Fades(m, later, numbered) && (q.verb == Destroy && q.instance < numbered ==> Lookup(later, q.instance) == 0)
  }

  predicate MapAfterBatch(m: map<nat, Socket>, later: map<nat, Socket>, numbered: nat, batch: seq<Request>) {
    Fades(m, later, numbered) && forall i :: i in Destroyed(batch) && i < numbered ==> Lookup(later, i) == 0
  }

  lemma MapAfterOneMore(m: map<nat, Socket>, later: map<nat, Socket>, latest: map<nat, Socket>,
                        numbered: nat, since: nat, batch: seq<Request>, n: nat)
    requires n < |batch| && numbered <= since
    requires MapAfterBatch(m, later, numbered, batch[..n]) && MapAfter(later, latest, since, batch[n])
    ensures MapAfterBatch(m, latest, numbered, batch[..n + 1])
  {
    forall i | 0 <= i < numbered && (i in Destroyed(batch[..n + 1]) || Lookup(latest, i) != Lookup(m, i))
      ensures Lookup(latest, i) == 0
    {
      assert Lookup(latest, i) == Lookup(later, i) || Lookup(latest, i) == 0;
      assert Lookup(later, i) == Lookup(m, i) || Lookup(later, i) == 0;
      if i in Destroyed(batch[..n + 1]) {
        var k :| 0 <= k < n + 1 && batch[..n + 1][k].verb == Destroy && batch[..n + 1][k].instance == i;
        assert k < n ==> batch[..n][k] == batch[..n + 1][k] && i in Destroyed(batch[..n]);
      }
    }
  }

  /** What each worker has been given to write, after a request is handled. */
  function InputsAfter(inputs: map<nat, seq<Bytes>>, q: Request, outcome: Outcome): map<nat, seq<Bytes>> {
    match q.verb
    case Create => if outcome.Built? && q.instance !in inputs then inputs[q.instance := []] else inputs
    case Destroy => inputs - {q.instance}
    case Forward => if q.instance in inputs then inputs[q.instance := inputs[q.instance] + [q.content]] else inputs
    case Stop => inputs
  }

  function BatchInputs(inputs: map<nat, seq<Bytes>>, batch: seq<Request>, outcomes: seq<Outcome>): map<nat, seq<Bytes>>
    requires |batch| == |outcomes|
  {
    if batch == [] then inputs else
      var last := |batch| - 1;
      InputsAfter(BatchInputs(inputs, batch[..last], outcomes[..last]), batch[last], outcomes[last])
  }

  /** The contents of the forward requests for instance `i`, in order. */
  function ForwardedTo(qs: seq<Request>, i: nat): seq<Bytes> {
    if qs == [] then [] else
      var last := |qs| - 1;
      ForwardedTo(qs[..last], i) + if qs[last].verb == Forward && qs[last].instance == i then [qs[last].content] else []
  }

  lemma ForwardedToAppend(qs: seq<Request>, q: Request, i: nat)
    ensures ForwardedTo(qs + [q], i) == ForwardedTo(qs, i) + if q.verb == Forward && q.instance == i then [q.content] else []
  {
    assert (qs + [q])[..|qs|] == qs;
  }

  lemma {:induction false} ForwardedToConcat(a: seq<Request>, b: seq<Request>, i: nat)
    ensures ForwardedTo(a + b, i) == ForwardedTo(a, i) + ForwardedTo(b, i)
  {
    if b == [] {
      assert a + b == a;
    } else {
      var last := |b| - 1;
      ForwardedToConcat(a, b[..last], i);
      assert (a + b)[..|a + b| - 1] == a + b[..last];
    }
  }

  /** A worker that no request of the batch destroys is given exactly the batch's forwards for it, in order. */
  lemma {:induction false} BatchFeeds(inputs: map<nat, seq<Bytes>>, batch: seq<Request>, outcomes: seq<Outcome>, i: nat)
    requires |batch| == |outcomes| && i in inputs && i !in Destroyed(batch)
    ensures i in BatchInputs(inputs, batch, outcomes)
    ensures BatchInputs(inputs, batch, outcomes)[i] == inputs[i] + ForwardedTo(batch, i)
  {
    if batch == [] {
      assert inputs[i] + ForwardedTo(batch, i) == inputs[i];
    } else {
      var last := |batch| - 1;
      assert forall k :: 0 <= k < last ==> batch[..last][k] == batch[k];
      assert batch[last].verb == Destroy ==> batch[last].instance in Destroyed(batch);
      BatchFeeds(inputs, batch[..last], outcomes[..last], i);
      var fed := ForwardedTo(batch[..last], i);
      assert inputs[i] + fed + [batch[last].content] == inputs[i] + (fed + [batch[last].content]);
      assert fed + [] == fed;
    }
  }

  /** The conductor's state in a batch, when some of its requests were handled; `signalled` says whether a signal
      came meanwhile. */
  function AfterSome(c: ConductorState, batch: seq<Request>, outcomes: seq<Outcome>, signalled: bool): ConductorState
    requires |outcomes| <= |batch|
  {
    var d := BatchHandled(c, batch[..|outcomes|], outcomes);
    d.(inQueue := batch[|outcomes|..], signal := d.signal || signalled)
  }

  lemma OneMoreHandled(c: ConductorState, batch: seq<Request>, outcomes: seq<Outcome>, signalled: bool, outcome: Outcome)
    requires |outcomes| < |batch|
    ensures var n := |outcomes|;
            && AfterSome(c, batch, outcomes, signalled).inQueue != [] && AfterSome(c, batch, outcomes, signalled).inQueue[0] == batch[n]
            && AfterSome(c, batch, outcomes + [outcome], signalled) ==
               Handled(AfterSome(c, batch, outcomes, signalled), batch[n], outcome).(inQueue := batch[n + 1..])
  {
    var n := |outcomes|;
    assert batch[..n + 1][..n] == batch[..n] && (outcomes + [outcome])[..n] == outcomes;
    assert batch[n..][1..] == batch[n + 1..];
  }

  lemma OneMoreInBatch(c: ConductorState, inputs: map<nat, seq<Bytes>>, batch: seq<Request>, outcomes: seq<Outcome>, outcome: Outcome)
    requires |outcomes| < |batch|
    ensures var n := |outcomes|;
            && BatchInputs(inputs, batch[..n + 1], outcomes + [outcome]) == InputsAfter(BatchInputs(inputs, batch[..n], outcomes), batch[n], outcome)
            && Finals(c.nextId, batch[..n + 1]) ==
               Finals(c.nextId, batch[..n]) + FinalOf(AfterSome(c, batch, outcomes, false).nextId, batch[n])
  {
    var n := |outcomes|;
    BatchMeaning(c, batch[..n], outcomes);
    assert batch[..n + 1][..n] == batch[..n] && (outcomes + [outcome])[..n] == outcomes;
  }

  /** Where a batch began: the conductor, its server, and what each worker had been given to write. */
  datatype Start = Start(c: ConductorState, s: ServerState, inputs: map<nat, seq<Bytes>>)

  class Conductor {
    var nextId: nat
    var signalReceived: bool
    var serverFailed: bool
    var inQueue: seq<Request>
    var outQueue: seq<Response>
    var workers: map<nat, Worker>
    const server: Server

    function State(): ConductorState
      reads this
    {
      ConductorState(nextId, inQueue, outQueue, workers.Keys, signalReceived, serverFailed)
    }

    ghost predicate Valid()
      reads this`workers
    {
      forall i :: i in workers ==> workers[i].id == i
    }

    /** What each worker has been given to write. */
    ghost function Inputs(): map<nat, seq<Bytes>>
      reads this`workers, workers.Values`enqueued
    {
      map i | i in workers :: workers[i].enqueued
    }

    constructor (server: Server)
      ensures Valid() && this.server == server
      ensures State() == ConductorState(0, [], [], {}, false, false)
    {
      this.server := server;
      nextId, signalReceived, serverFailed, inQueue, outQueue, workers := 0, false, false, [], [], map[];
    }

    method OnRequest(q: Request)
      modifies this`inQueue
      ensures State() == old(State()).(inQueue := old(inQueue) + [q]) && inQueue == old(inQueue) + [q]
    {
      inQueue := inQueue + [q];
    }

    method CreateEmptyResponse(instance: nat, priority: int, status: Status, verb: Verb) returns (r: Response)
      modifies this`nextId
      ensures r == Reply(old(nextId), instance, verb, priority, status, [])
      ensures r == Response(old(nextId), priority, status, verb, instance, [])
      ensures State() == old(State()).(nextId := old(nextId) + 1)
    {
      r := Response(nextId, priority, status, verb, instance, []);
      nextId := nextId + 1;
    }

    method HandleResponse(instance: nat, response: Bytes)
      modifies this`nextId, this`outQueue
      ensures State() == OnResponse(old(State()), instance, response)
      ensures outQueue == old(outQueue) + [Response(old(nextId), 0, Success, Forward, instance, response)]
    {
      var r := CreateEmptyResponse(instance, 0, Success, Forward);
      outQueue := outQueue + [r.(content := response)];
    }

    method HandleWorkerFailure(instance: nat, what: Bytes)
      modifies this`nextId, this`outQueue, this`workers
      ensures State() == OnWorkerFailure(old(State()), instance, what)
      ensures workers == old(workers) - {instance}
      ensures outQueue == old(outQueue) + [Response(old(nextId), 1, Failure, Destroy, instance, what)]
    {
      workers := workers - {instance};
      var r := CreateEmptyResponse(instance, 1, Failure, Destroy);
      outQueue := outQueue + [r.(content := what)];
      assert workers.Keys == old(workers.Keys) - {instance};
    }

    /** The construction of a worker starts sertop, or throws. */
    static method MakeWorker(id: nat) returns (outcome: Outcome, w: Worker)
      ensures fresh(w) && w.id == id && w.enqueued == []
    {
      w := new Worker(id);
      outcome := *;
    }

    method HandleCreate(i: nat) returns (outcome: Outcome)
      requires Valid()
      modifies this`nextId, this`outQueue, this`workers
      ensures Valid() && fresh(workers.Values - old(workers.Values))
      ensures State() == Handled(old(State()), Request(Create, i, []), outcome)
      ensures outcome == Built ==>
                outQueue == old(outQueue) + [Response(old(nextId), 1, Success, Create, i, [])] && workers.Keys == old(workers.Keys) + {i}
      ensures outcome.NotBuilt? ==>
                outQueue == old(outQueue) + [Response(old(nextId), 1, Failure, Create, i, outcome.what)] && workers == old(workers)
      ensures Inputs() == if outcome.Built? && i !in old(workers) then old(Inputs())[i := []] else old(Inputs())
    {
      var r := CreateEmptyResponse(i, 1, Success, Create);
      var w;
      outcome, w := MakeWorker(i);
      if outcome.Built? {
        if i !in workers {
          workers := workers[i := w];
        }
        r := r.(status := Success);
      } else {
        r := r.(status := Failure, content := outcome.what);
      }
      outQueue := outQueue + [r];
    }

    method HandleDestroy(i: nat) returns (sending: Sending)
      requires Valid()
      modifies this`nextId, this`workers, server`clientMap, server`direct, server`wire
      ensures Valid() && workers == old(workers) - {i}
      ensures State() == old(State()).(nextId := old(nextId) + 1, workers := old(workers.Keys) - {i})
      ensures server.State() == Unmapped(old(server.State()), i, DestroyReply(old(nextId), i), sending)
      ensures server.direct == old(server.direct) + [Response(old(nextId), 1, Success, Destroy, i, [])]
      ensures server.wire != [] && server.wire[|server.wire| - 1].r == Response(old(nextId), 1, Success, Destroy, i, [])
      ensures MaySend(old(server.State()), Lookup(old(server.clientMap), i), sending)
      ensures Inputs() == old(Inputs()) - {i}
    {
      workers := workers - {i};
      var r := CreateEmptyResponse(i, 1, Success, Destroy);
      sending := server.Unmap(i, r.(content := []));
    }

    method HandleForward(i: nat, content: Bytes)
      requires Valid() && i in workers
      modifies workers[i]
      ensures Valid()
      ensures Inputs() == old(Inputs())[i := old(Inputs())[i] + [content]]
    {
      assert forall j :: j in workers && j != i ==> workers[j] != workers[i];
      workers[i].Enqueue(content);
    }

    /** Handles one request, unless it would dereference null. */
    method HandleRequest(q: Request) returns (alive: bool, outcome: Outcome, sending: Sending)
      requires Valid()
      modifies this`nextId, this`outQueue, this`workers, this`signalReceived, server`clientMap, server`direct, server`wire, workers.Values
      ensures Valid() && fresh(workers.Values - old(workers.Values))
      ensures alive == Handleable(old(State()), q)
      ensures State() == if alive then Handled(old(State()), q, outcome) else old(State())
      ensures server.State() == ServerAfter(old(server.State()), old(nextId), q, sending)
      ensures Inputs() == InputsAfter(old(Inputs()), q, outcome)
      ensures q.verb == Create && outcome == Built ==>
                outQueue == old(outQueue) + [Response(old(nextId), 1, Success, Create, q.instance, [])]
      ensures q.verb == Create && outcome.NotBuilt? ==>
                outQueue == old(outQueue) + [Response(old(nextId), 1, Failure, Create, q.instance, outcome.what)]
      ensures q.verb == Destroy ==>
                server.direct == old(server.direct) + [Response(old(nextId), 1, Success, Destroy, q.instance, [])]
      ensures q.verb == Forward && alive ==>
                State() == old(State()) && Inputs() == old(Inputs())[q.instance := old(Inputs())[q.instance] + [q.content]]
      ensures q.verb == Stop ==> signalReceived
    {
      alive, outcome, sending := true, Built, Attempt([], 0);
      match q.verb
      case Create => outcome := HandleCreate(q.instance);
      case Destroy => sending := HandleDestroy(q.instance);
      case Forward =>
        if q.instance in workers {
          HandleForward(q.instance, q.content);
        } else {
          alive := false;
        }
      case Stop => signalReceived := true;
    }

    /** Handles the front request and, unless the program died of it, pops it. */
    method HandleFront() returns (alive: bool, outcome: Outcome, sending: Sending)
      requires Valid() && inQueue != []
      modifies this`nextId, this`inQueue, this`outQueue, this`workers, this`signalReceived, server`clientMap, server`direct, server`wire, workers.Values
      ensures Valid() && fresh(workers.Values - old(workers.Values))
      ensures alive ==> State() == Handled(old(State()), old(inQueue)[0], outcome).(inQueue := old(inQueue)[1..])
      ensures server.State() == ServerAfter(old(server.State()), old(nextId), old(inQueue)[0], sending)
      ensures Inputs() == InputsAfter(old(Inputs()), old(inQueue)[0], outcome)
    {
      alive, outcome, sending := HandleRequest(inQueue[0]);
      if alive {
        inQueue := inQueue[1..];
      }
    }

    /** One pass of the first loop of a turn, after whatever the threads of the server do before it. */
    method HandleNext() returns (alive: bool, outcome: Outcome)
      requires Valid() && inQueue != []
      modifies this`nextId, this`inQueue, this`outQueue, this`workers, this`signalReceived, server, workers.Values
      ensures Valid() && fresh(workers.Values - old(workers.Values))
      ensures alive ==> State() == Handled(old(State()), old(inQueue)[0], outcome).(inQueue := old(inQueue)[1..])
      ensures Inputs() == InputsAfter(old(Inputs()), old(inQueue)[0], outcome)
      ensures server.handed == old(server.handed) && old(server.nextId) <= server.nextId
      ensures server.direct == old(server.direct) + FinalOf(old(nextId), old(inQueue)[0])
      ensures MapAfter(old(server.clientMap), server.clientMap, old(server.nextId), old(inQueue)[0])
    {
      var sections: nat := *;
      server.AroundConductor(sections);
      var sending;
      ghost var m := server.clientMap;
      alive, outcome, sending := HandleFront();
      assert forall id :: Lookup(server.clientMap, id) == Lookup(m, id) || Lookup(server.clientMap, id) == 0;
    }

    /** The first |outcomes| requests of the batch that waited at the start were handled. */
    ghost predicate HasHandled(start: Start, outcomes: seq<Outcome>)
      reads this, server, workers.Values
    {
      var n, batch := |outcomes|, start.c.inQueue;
      && n <= |batch|
      && State() == AfterSome(start.c, batch, outcomes, false)
      && Inputs() == BatchInputs(start.inputs, batch[..n], outcomes)
      && server.handed == start.s.handed && start.s.nextId <= server.nextId
      && server.direct == start.s.direct + Finals(start.c.nextId, batch[..n])
      && MapAfterBatch(start.s.clientMap, server.clientMap, start.s.nextId, batch[..n])
    }

    /** One pass of the first loop of a turn. */
    method HandleNextOf(ghost start: Start, outcomes: seq<Outcome>) returns (alive: bool, longer: seq<Outcome>)
      requires Valid() && HasHandled(start, outcomes) && |outcomes| < |start.c.inQueue|
      modifies this`nextId, this`inQueue, this`outQueue, this`workers, this`signalReceived, server, workers.Values
      ensures Valid() && fresh(workers.Values - old(workers.Values))
      ensures alive ==> |longer| == |outcomes| + 1 && HasHandled(start, longer)
    {
      ghost var n, batch := |outcomes|, start.c.inQueue;
      ghost var m, numbered := server.clientMap, server.nextId;
      var outcome;
      alive, outcome := HandleNext();
      OneMoreHandled(start.c, batch, outcomes, false, outcome);
      OneMoreInBatch(start.c, start.inputs, batch, outcomes, outcome);
      MapAfterOneMore(start.s.clientMap, m, server.clientMap, start.s.nextId, numbered, batch, n);
      longer := outcomes + [outcome];
    }

    /** The first loop of a turn: the whole batch is handled, even past a stop, while the threads of the server
        go on between two requests. */
    method HandleBatch() returns (alive: bool, outcomes: seq<Outcome>)
      requires Valid()
      modifies this`nextId, this`inQueue, this`outQueue, this`workers, this`signalReceived, server, workers.Values
      ensures Valid()
      ensures alive ==> |outcomes| == |old(inQueue)|
      ensures alive ==> State() == BatchHandled(old(State()), old(inQueue), outcomes).(inQueue := [])
      ensures alive ==> Inputs() == BatchInputs(old(Inputs()), old(inQueue), outcomes)
      ensures alive ==> server.handed == old(server.handed) && old(server.nextId) <= server.nextId
      ensures alive ==> server.direct == old(server.direct) + Finals(old(nextId), old(inQueue))
      ensures alive ==> MapAfterBatch(old(server.clientMap), server.clientMap, old(server.nextId), old(inQueue))
    {
      ghost var start := Start(State(), server.State(), Inputs());
      alive, outcomes := true, [];
      assert start.c.inQueue[0..] == start.c.inQueue;
      while inQueue != []
        invariant alive && Valid() && fresh(workers.Values - old(workers.Values))
        invariant HasHandled(start, outcomes)
        decreases |inQueue|
      {
        alive, outcomes := HandleNextOf(start, outcomes);
        if !alive {
          return;
        }
      }
      assert start.c.inQueue[..|outcomes|] == start.c.inQueue;
    }

    /** The second loop of a turn: every queued response goes to the server, in order, while the server's writer
        takes responses out again. */
    method HandOverAll()
      modifies this`outQueue, server
      ensures outQueue == [] && server.handed == old(server.handed) + old(outQueue)
      ensures server.direct == old(server.direct) && old(server.nextId) <= server.nextId
      ensures Fades(old(server.clientMap), server.clientMap, old(server.nextId))
    {
      ghost var queued, m := outQueue, 0;
      while outQueue != []
        invariant 0 <= m <= |queued| && outQueue == queued[m..]
        invariant server.handed == old(server.handed) + queued[..m]
        invariant server.direct == old(server.direct) && old(server.nextId) <= server.nextId
        invariant Fades(old(server.clientMap), server.clientMap, old(server.nextId))
        decreases |outQueue|
      {
        assert queued[..m + 1] == queued[..m] + [queued[m]];
        var sections: nat := *;
        server.AroundConductor(sections);
        server.Enqueue(outQueue[0]);
        outQueue := outQueue[1..];
        m := m + 1;
      }
      assert queued[..m] == queued;
    }

    /** One turn of `run` while it holds the queue lock; the threads of the server go on meanwhile. The whole batch
        is handled; the responses are handed over only if no stop was received. */
    method RunTurn() returns (alive: bool, outcomes: seq<Outcome>)
      requires Valid() && !signalReceived && !serverFailed
      modifies this, server, workers.Values
      ensures Valid()
      ensures alive ==> |outcomes| == |old(inQueue)|
      ensures alive ==> Inputs() == BatchInputs(old(Inputs()), old(inQueue), outcomes)
      ensures alive ==> forall i :: i in old(Inputs()) && i !in Destroyed(old(inQueue)) ==>
        i in Inputs() && Inputs()[i] == old(Inputs())[i] + ForwardedTo(old(inQueue), i)
      ensures alive ==> server.direct == old(server.direct) + Finals(old(nextId), old(inQueue))
      ensures alive ==> MapAfterBatch(old(server.clientMap), server.clientMap, old(server.nextId), old(inQueue))
      ensures alive ==>
        var queued := old(outQueue) + Replies(old(nextId), old(inQueue), outcomes);
        var stop := Stopping(old(inQueue));
        && inQueue == [] && nextId == old(nextId) + IdsUsed(old(inQueue)) && signalReceived == stop
        && outQueue == (if stop then queued else [])
        && server.handed == old(server.handed) + if stop then [] else queued
    {
      ghost var c, batch, inputs := State(), inQueue, Inputs();
      alive, outcomes := HandleBatch();
      if alive {
        BatchMeaning(c, batch, outcomes);
        forall i | i in inputs && i !in Destroyed(batch)
          ensures i in Inputs() && Inputs()[i] == inputs[i] + ForwardedTo(batch, i)
        {
          BatchFeeds(inputs, batch, outcomes, i);
        }
      }
      if !alive || signalReceived {
        return;
      }
      HandOverAll();
    }
  }
}
