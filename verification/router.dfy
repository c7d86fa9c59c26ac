/** The whole router as a machine whose steps are the critical sections of its threads. */
module Router {
  import opened Messages
  import opened Sequences
  import opened Splitting
  import opened Pipeline
  import opened Wire
  import opened Servers
  import opened Conductors

  /** Where the conductor's thread is. It holds the queue lock in `Batch` and `HandOvers`. */
  datatype Phase = Idle | Batch | HandOvers | Stopped | Crashed

  /** One sertop process and the threads of its worker. */
  datatype Sertop = Sertop(
    output: Bytes,         // read from its stdout so far
    remainder: Bytes,      // what the last `parse` returned
    pending: seq<Bytes>,   // parsed messages whose callback has not run yet
    inputs: seq<Bytes>,    // the worker's message queue
    unwritten: Bytes,      // what is left of the message being written
    stdin: Bytes)          // written to its stdin so far

  /** The write thread: it holds a response between the pop and the write, with the socket it looked up at the
      pop, and it invalidates a socket after a failed write. */
  datatype Writer = Resting | Holding(r: Response, client: Socket) | Invalidating(client: Socket)

  /** What happened so far outside the server: requests that reached the conductor and those it handled,
      responses made, clients accepted, and the client that created each instance. */
  datatype History = History(
    received: seq<Request>, handled: seq<Request>, made: seq<Response>,
    accepted: seq<Socket>, owner: seq<Socket>)

  datatype System = System(
    c: ConductorState, s: ServerState, phase: Phase,
    reading: seq<Request>,  // the request the read thread is about to pass to the conductor
    writer: Writer,
    sertops: map<nat, Sertop>, h: History)

  const Init := System(
    ConductorState(0, [], [], {}, false, false), NewServer, Idle, [], Resting, map[], History([], [], [], [], []))

  const NewSertop := Sertop([], [], [], [], [], [])

  /** Critical sections of the accept, read and write threads of the server. */
  datatype ServerStep =
    | AcceptClient(client: Socket)
    | ReadRequest(client: Socket, q: Request)
    | WriterPops(k: nat)
    | WriterWrites(sending: Sending)
    | WriterInvalidates
    | InvalidateClient(client: Socket)

  /** Progress of the conductor's thread, and callbacks into the conductor that are not a worker's. */
  datatype ConductorStep =
    | PushRequest
    | BeginTurn
    | HandleNext(outcome: Outcome, sending: Sending)
    | EndBatch
    | HandOverNext
    | EndTurn
    | NotifyInvalid(id: nat)
    | Signal
    | ServerFails

  /** Progress of the two threads of a worker. */
  datatype WorkerStep =
    | Prints(chunk: Bytes)
    | DeliverResponse
    | Fails(what: Bytes)
    | TakeInput
    | WriteInput(n: nat)

  datatype Step = OfServer(server: ServerStep) | OfConductor(conductor: ConductorStep) | OfWorker(i: nat, worker: WorkerStep)

  predicate LockFree(a: System) {
    a.phase == Idle || a.phase == Stopped
  }

  predicate ServerEnabled(a: System, step: ServerStep) {
    match step
    case AcceptClient(client) => client > 0 && client !in a.h.accepted
    case ReadRequest(client, q) => a.reading == [] && client in a.h.accepted
    case WriterPops(k) => a.writer.Resting? && IsTop(a.s.responseQueue, k)
    case WriterWrites(sending) => a.writer.Holding? && MaySend(a.s, a.writer.client, sending)
    case WriterInvalidates => a.writer.Invalidating?
    case InvalidateClient(client) => client in a.h.accepted
  }

  predicate ConductorEnabled(a: System, step: ConductorStep) {
    match step
    case PushRequest => a.reading != [] && LockFree(a)
    case BeginTurn => a.phase == Idle
    case HandleNext(outcome, sending) =>
      a.phase == Batch && a.c.inQueue != [] && MaySend(a.s, Lookup(a.s.clientMap, a.c.inQueue[0].instance), sending)
    case EndBatch => a.phase == Batch && a.c.inQueue == []
    case HandOverNext => a.phase == HandOvers && a.c.outQueue != []
    case EndTurn => a.phase == HandOvers && a.c.outQueue == []
    case NotifyInvalid(id) => LockFree(a)
    case Signal => true
    case ServerFails => LockFree(a)
  }

  predicate WorkerEnabled(a: System, w: Sertop, step: WorkerStep) {
    match step
    case Prints(chunk) => w.pending == []
    case DeliverResponse => LockFree(a) && w.pending != []
    case Fails(what) => LockFree(a)
    case TakeInput => w.unwritten == [] && w.inputs != []
    case WriteInput(n) => 1 <= n <= |w.unwritten|
  }

  /** A worker may step from its construction on, whether or not it was removed meanwhile. */
  predicate Enabled(a: System, step: Step) {
    a.phase != Crashed &&
    match step
    case OfServer(st) => ServerEnabled(a, st)
    case OfConductor(st) => ConductorEnabled(a, st)
    case OfWorker(i, st) => i in a.sertops && WorkerEnabled(a, a.sertops[i], st)
  }

  function ServerStepped(a: System, step: ServerStep): System
    requires ServerEnabled(a, step)
  {
    match step
    case AcceptClient(client) =>
      a.(s := Accepted(a.s, client), h := a.h.(accepted := a.h.accepted + [client]))
    case ReadRequest(client, q) =>
      a.(s := Mapped(a.s, q, client), reading := [Numbered(a.s, q)],
         h := a.h.(owner := a.h.owner + if q.verb == Create then [client] else []))
    case WriterPops(k) =>
      var r := a.s.responseQueue[k];
      a.(s := Popped(a.s, k), writer := Holding(r, Lookup(a.s.clientMap, r.instance)))
    case WriterWrites(sending) =>
      a.(s := Wrote(a.s, a.writer.r, a.writer.client, sending),
         writer := if Completed(sending) then Resting else Invalidating(a.writer.client))
    case WriterInvalidates => a.(s := Invalidated(a.s, a.writer.client), writer := Resting)
    case InvalidateClient(client) => a.(s := Invalidated(a.s, client))
  }

  /** `handle_request` on the front of the in queue, and the `pop` after it. `sending` says what `unmap`, if it is
      called, gets written. */
  function FrontHandled(a: System, outcome: Outcome, sending: Sending): System
    requires a.c.inQueue != []
  {
    var q := a.c.inQueue[0];
    if !Handleable(a.c, q) then
      a.(phase := Crashed)
    else
      a.(c := Handled(a.c, q, outcome).(inQueue := a.c.inQueue[1..]),
         s := ServerAfter(a.s, a.c.nextId, q, sending),
         sertops := SertopsAfter(a.sertops, q, outcome),
         h := a.h.(handled := a.h.handled + [q], made := a.h.made + MadeFor(a.c, q, outcome)))
  }

  /** The response that handling a request makes, if it makes one. */
  function MadeFor(c: ConductorState, q: Request, outcome: Outcome): seq<Response> {
    match q.verb
    case Create => [CreateReply(c.nextId, q.instance, outcome)]
    case Destroy => [DestroyReply(c.nextId, q.instance)]
    case _ => []
  }

  function SertopsAfter(sertops: map<nat, Sertop>, q: Request, outcome: Outcome): map<nat, Sertop> {
    if q.verb == Create && outcome.Built? then
      sertops[q.instance := NewSertop]
    else if q.verb == Forward && q.instance in sertops then
      var w := sertops[q.instance];
      sertops[q.instance := w.(inputs := w.inputs + [q.content])]
    else
      sertops
  }

  function ConductorStepped(a: System, step: ConductorStep): System
    requires ConductorEnabled(a, step)
  {
    match step
    case PushRequest =>
      a.(c := a.c.(inQueue := a.c.inQueue + a.reading), reading := [],
         h := a.h.(received := a.h.received + a.reading))
    case BeginTurn => a.(phase := if a.c.signal || a.c.serverFailed then Stopped else Batch)
    case HandleNext(outcome, sending) => FrontHandled(a, outcome, sending)
    case EndBatch => a.(phase := if a.c.signal then Stopped else HandOvers)
    case HandOverNext =>
      a.(c := a.c.(outQueue := a.c.outQueue[1..]), s := Enqueued(a.s, a.c.outQueue[0]))
    case EndTurn => a.(phase := Idle)
    case NotifyInvalid(id) => a.(c := a.c.(workers := a.c.workers - {id}))
    case Signal => a.(c := a.c.(signal := true))
    case ServerFails => a.(c := a.c.(serverFailed := true))
  }

  function SertopStepped(a: System, w: Sertop, step: WorkerStep): Sertop
    requires WorkerEnabled(a, w, step)
  {
    match step
    case Prints(chunk) =>
      var (messages, rest) := Split(w.remainder + chunk);
      w.(output := w.output + chunk, pending := messages, remainder := rest)
    case DeliverResponse => w.(pending := w.pending[1..])
    case Fails(what) => w
    case TakeInput => w.(unwritten := w.inputs[0], inputs := w.inputs[1..])
    case WriteInput(n) => w.(stdin := w.stdin + w.unwritten[..n], unwritten := w.unwritten[n..])
  }

  /** The response a worker's callback makes, if the step runs one. */
  function CallbackReply(c: ConductorState, i: nat, w: Sertop, step: WorkerStep): seq<Response>
    requires step.DeliverResponse? ==> w.pending != []
  {
    match step
    case DeliverResponse => [Reply(c.nextId, i, Forward, 0, Success, w.pending[0])]
    case Fails(what) => [Reply(c.nextId, i, Destroy, 1, Failure, what)]
    case _ => []
  }

  function WorkerStepped(a: System, i: nat, step: WorkerStep): System
    requires i in a.sertops && WorkerEnabled(a, a.sertops[i], step)
  {
    var w := a.sertops[i];
    a.(sertops := a.sertops[i := SertopStepped(a, w, step)],
       h := a.h.(made := a.h.made + CallbackReply(a.c, i, w, step)),
       c := match step
            case DeliverResponse => OnResponse(a.c, i, w.pending[0])
            case Fails(what) => OnWorkerFailure(a.c, i, what)
            case _ => a.c)
  }

  function Apply(a: System, step: Step): System
    requires Enabled(a, step)
  {
    match step
    case OfServer(st) => ServerStepped(a, st)
    case OfConductor(st) => ConductorStepped(a, st)
    case OfWorker(i, st) => WorkerStepped(a, i, st)
  }

  /** `b` is where the steps lead from `a`. */
  predicate Run(a: System, steps: seq<Step>, b: System)
    decreases |steps|
  {
    if steps == [] then a == b
    else Enabled(a, steps[0]) && Run(Apply(a, steps[0]), steps[1..], b)
  }

  // ---------------------------------------------------------------- the pipeline inside the router

  function PipeOf(a: System): Pipe {
    Pipe(a.c.nextId, a.h.made, a.s.direct, a.s.handed, a.c.outQueue, a.s.responseQueue, a.s.popped)
  }

  function Queued(a: System): seq<Response> {
    a.s.handed + a.c.outQueue
  }

  /** What a step does to the pipeline. */
  datatype Action = Keeps | Emits(r: Response) | EmitsDirectly(r: Response) | HandsOver | Pops(k: nat)

  function ActionOf(a: System, step: Step): Action
    requires Enabled(a, step)
  {
    match step
    case OfServer(WriterPops(k)) => Pops(k)
    case OfConductor(HandOverNext) => HandsOver
    case OfConductor(HandleNext(outcome, _)) =>
      var q := a.c.inQueue[0];
      if q.verb == Create then Emits(CreateReply(a.c.nextId, q.instance, outcome))
      else if q.verb == Destroy then EmitsDirectly(DestroyReply(a.c.nextId, q.instance))
      else Keeps
    case OfWorker(i, st) =>
      var rs := CallbackReply(a.c, i, a.sertops[i], st);
      if rs == [] then Keeps else Emits(rs[0])
    case _ => Keeps
  }

  predicate Possible(p: Pipe, action: Action) {
    match action
    case Keeps => true
    case Emits(r) => r.id == p.nextId
    case EmitsDirectly(r) => r.id == p.nextId
    case HandsOver => p.out != []
    case Pops(k) => IsTop(p.queue, k)
  }

  function Act(p: Pipe, action: Action): Pipe
    requires Possible(p, action)
  {
    match action
    case Keeps => p
    case Emits(r) => Emit(p, r)
    case EmitsDirectly(r) => EmitDirect(p, r)
    case HandsOver => HandOver(p)
    case Pops(k) => Pop(p, k)
  }

  function EmittedBy(action: Action): seq<Response> {
    if action.Emits? then [action.r] else []
  }

  lemma ActionExtendsQueued(p: Pipe, action: Action)
    requires Possible(p, action)
    ensures Act(p, action).Queued() == p.Queued() + EmittedBy(action)
    ensures !action.Emits? ==> Act(p, action).Queued() == p.Queued()
  {
    if action.Emits? {
      assert p.handed + (p.out + [action.r]) == p.handed + p.out + [action.r];
    } else if action.HandsOver? {
      assert p.out == [p.out[0]] + p.out[1..];
    }
  }

  /** Every step of the router is at most one step of the pipeline. */
  lemma StepActs(a: System, step: Step)
    requires Enabled(a, step)
    ensures Possible(PipeOf(a), ActionOf(a, step))
    ensures PipeOf(Apply(a, step)) == Act(PipeOf(a), ActionOf(a, step))
    ensures Queued(Apply(a, step)) == Queued(a) + EmittedBy(ActionOf(a, step))
    ensures !ActionOf(a, step).Emits? ==> Queued(Apply(a, step)) == Queued(a)
  {
    match step
    case OfServer(st) => ServerActs(a, st);
    case OfConductor(st) => ConductorActs(a, st);
    case OfWorker(i, st) => WorkerActs(a, i, st);
    ActionExtendsQueued(PipeOf(a), ActionOf(a, step));
  }

  lemma ServerActs(a: System, st: ServerStep)
    requires Enabled(a, OfServer(st))
    ensures Possible(PipeOf(a), ActionOf(a, OfServer(st)))
    ensures PipeOf(ServerStepped(a, st)) == Act(PipeOf(a), ActionOf(a, OfServer(st)))
  {
  }

  lemma ConductorActs(a: System, st: ConductorStep)
    requires Enabled(a, OfConductor(st))
    ensures Possible(PipeOf(a), ActionOf(a, OfConductor(st)))
    ensures PipeOf(ConductorStepped(a, st)) == Act(PipeOf(a), ActionOf(a, OfConductor(st)))
  {
  }

  lemma WorkerActs(a: System, i: nat, st: WorkerStep)
    requires Enabled(a, OfWorker(i, st))
    ensures Possible(PipeOf(a), ActionOf(a, OfWorker(i, st)))
    ensures PipeOf(WorkerStepped(a, i, st)) == Act(PipeOf(a), ActionOf(a, OfWorker(i, st)))
  {
  }
}
