/** What is the case after a run, told by the steps of the run that began it or ended it. */
module Facts {
  import opened Messages
  import opened Wire
  import opened Servers
  import opened Conductors
  import opened Router
  import opened Invariants
  import opened Routing
  import opened Runs

  /** An instance has a live worker; an instance is mapped to a client; a socket was closed. */
  datatype Fact = LiveWorker(i: nat) | MappedTo(i: nat, client: Socket) | Closed(client: Socket)

  predicate Holds(a: System, f: Fact) {
    match f
    case LiveWorker(i) => i in a.c.workers
    case MappedTo(i, client) => i in a.s.clientMap && a.s.clientMap[i] == client
    case Closed(client) => client in a.s.closed
  }

  /** The socket that a step invalidates. */
  predicate Invalidates(a: System, step: Step, client: Socket)
    requires Enabled(a, step)
  {
    match step
    case OfServer(WriterInvalidates) => a.writer.client == client
    case OfServer(InvalidateClient(c)) => c == client
    case _ => false
  }

  /** A worker is built when a create request is handled without an error; instance `i` is mapped when the i-th create
      request is read, to its sender; a socket is closed when it is invalidated. */
  predicate Begins(a: System, step: Step, f: Fact)
    requires Enabled(a, step)
  {
    match f
    case LiveWorker(i) =>
      step.OfConductor? && step.conductor.HandleNext? && step.conductor.outcome == Built &&
      a.c.inQueue[0].verb == Create && a.c.inQueue[0].instance == i
    case MappedTo(i, client) =>
      step.OfServer? && step.server.ReadRequest? && step.server.client == client && step.server.q.verb == Create && |a.h.owner| == i
    case Closed(client) => Invalidates(a, step, client)
  }

  predicate Destroys(a: System, step: Step, i: nat)
    requires Enabled(a, step)
  {
    step.OfConductor? && step.conductor.HandleNext? && a.c.inQueue[0].verb == Destroy && a.c.inQueue[0].instance == i
  }

  /** A worker goes with a destroy request, with its failure, or after `invalidate`; a mapping with a destroy request or
      when the client's socket is invalidated; a closed socket stays closed. */
  predicate Ends(a: System, step: Step, f: Fact)
    requires Enabled(a, step)
  {
    match f
    case LiveWorker(i) =>
      Destroys(a, step, i) || step == OfConductor(NotifyInvalid(i)) || (step.OfWorker? && step.i == i && step.worker.Fails?)
    case MappedTo(i, client) => Destroys(a, step, i) || Invalidates(a, step, client)
    case Closed(client) => false
  }

  // ---------------------------------------------------------------- one step

  lemma ServerChangesMap(a: System, st: ServerStep, i: nat, client: Socket)
    requires ServerEnabled(a, st) && a.phase != Crashed && RoutesOk(a) && |a.h.owner| == a.s.nextId && client > 0
    ensures Holds(ServerStepped(a, st), MappedTo(i, client)) <==>
            Begins(a, OfServer(st), MappedTo(i, client)) ||
            (Holds(a, MappedTo(i, client)) && !Ends(a, OfServer(st), MappedTo(i, client)))
  {
  }

  lemma ConductorChangesMap(a: System, st: ConductorStep, i: nat, client: Socket)
    requires Enabled(a, OfConductor(st))
    ensures Holds(ConductorStepped(a, st), MappedTo(i, client)) <==>
            Holds(a, MappedTo(i, client)) && !Ends(a, OfConductor(st), MappedTo(i, client))
  {
  }

  lemma ConductorChangesWorkers(a: System, st: ConductorStep, i: nat)
    requires Enabled(a, OfConductor(st))
    ensures Holds(ConductorStepped(a, st), LiveWorker(i)) <==>
            Begins(a, OfConductor(st), LiveWorker(i)) ||
            (Holds(a, LiveWorker(i)) && !Ends(a, OfConductor(st), LiveWorker(i)))
  {
  }

  lemma StepChangesMap(a: System, step: Step, i: nat, client: Socket)
    requires Enabled(a, step) && RoutesOk(a) && |a.h.owner| == a.s.nextId && client > 0
    ensures var f := MappedTo(i, client);
            Holds(Apply(a, step), f) <==> Begins(a, step, f) || (Holds(a, f) && !Ends(a, step, f))
  {
    match step
    case OfServer(st) => ServerChangesMap(a, st, i, client);
    case OfConductor(st) => ConductorChangesMap(a, st, i, client);
    case OfWorker(j, st) => assert WorkerStepped(a, j, st).s == a.s;
  }

  lemma StepChangesWorkers(a: System, step: Step, i: nat)
    requires Enabled(a, step)
    ensures var f := LiveWorker(i);
            Holds(Apply(a, step), f) <==> Begins(a, step, f) || (Holds(a, f) && !Ends(a, step, f))
  {
    match step
    case OfServer(st) => assert ServerStepped(a, st).c == a.c;
    case OfConductor(st) => ConductorChangesWorkers(a, st, i);
    case OfWorker(j, st) =>
  }

  lemma StepCloses(a: System, step: Step, client: Socket)
    requires Enabled(a, step)
    ensures Holds(Apply(a, step), Closed(client)) <==> Begins(a, step, Closed(client)) || Holds(a, Closed(client))
  {
    match step
    case OfServer(st) =>
    case OfConductor(st) => assert ConductorStepped(a, st).s.closed == a.s.closed;
    case OfWorker(j, st) => assert WorkerStepped(a, j, st).s == a.s;
  }

  predicate Proper(f: Fact) {
    f.MappedTo? ==> f.client > 0
  }

  lemma StepChanges(a: System, step: Step, f: Fact)
    requires Enabled(a, step) && RoutesOk(a) && |a.h.owner| == a.s.nextId && Proper(f)
    ensures Holds(Apply(a, step), f) <==> Begins(a, step, f) || (Holds(a, f) && !Ends(a, step, f))
  {
    match f
    case LiveWorker(i) => StepChangesWorkers(a, step, i);
    case MappedTo(i, client) => StepChangesMap(a, step, i, client);
    case Closed(client) => StepCloses(a, step, client);
  }

  // ---------------------------------------------------------------- a run

  /** The state before step `k`. */
  function StateAt(a: System, steps: seq<Step>, k: nat): System
    requires k <= |steps|
    decreases k
  {
    if k == 0 || !Enabled(a, steps[0]) then a else StateAt(Apply(a, steps[0]), steps[1..], k - 1)
  }

  predicate BeginsAt(a: System, steps: seq<Step>, k: nat, f: Fact)
    requires k < |steps|
  {
    var s := StateAt(a, steps, k);
    Enabled(s, steps[k]) && Begins(s, steps[k], f)
  }

  predicate EndsAt(a: System, steps: seq<Step>, k: nat, f: Fact)
    requires k < |steps|
  {
    var s := StateAt(a, steps, k);
    Enabled(s, steps[k]) && Ends(s, steps[k], f)
  }

  predicate KeptFrom(a: System, steps: seq<Step>, n: nat, f: Fact) {
    forall k :: n <= k < |steps| ==> !EndsAt(a, steps, k, f)
  }

  /** Some step begins it and no later step ends it. */
  predicate BegunAndKept(a: System, steps: seq<Step>, f: Fact) {
    exists k :: 0 <= k < |steps| && BeginsAt(a, steps, k, f) && KeptFrom(a, steps, k + 1, f)
  }

  lemma FirstStepApart(a: System, steps: seq<Step>, k: nat, f: Fact)
    requires steps != [] && Enabled(a, steps[0]) && k < |steps[1..]|
    ensures BeginsAt(a, steps, k + 1, f) == BeginsAt(Apply(a, steps[0]), steps[1..], k, f)
    ensures EndsAt(a, steps, k + 1, f) == EndsAt(Apply(a, steps[0]), steps[1..], k, f)
  {
  }

  lemma KeptShifts(a: System, steps: seq<Step>, n: nat, f: Fact)
    requires steps != [] && Enabled(a, steps[0])
    ensures KeptFrom(a, steps, n + 1, f) == KeptFrom(Apply(a, steps[0]), steps[1..], n, f)
  {
    if KeptFrom(a, steps, n + 1, f) {
      forall k | n <= k < |steps[1..]| ensures !EndsAt(Apply(a, steps[0]), steps[1..], k, f) {
        FirstStepApart(a, steps, k, f);
        assert !EndsAt(a, steps, k + 1, f);
      }
    }
    if KeptFrom(Apply(a, steps[0]), steps[1..], n, f) {
      forall k | n + 1 <= k < |steps| ensures !EndsAt(a, steps, k, f) {
        FirstStepApart(a, steps, k - 1, f);
      }
    }
  }

  lemma KeptApart(a: System, steps: seq<Step>, f: Fact)
    requires steps != [] && Enabled(a, steps[0])
    ensures KeptFrom(a, steps, 0, f) <==> !Ends(a, steps[0], f) && KeptFrom(Apply(a, steps[0]), steps[1..], 0, f)
  {
    assert EndsAt(a, steps, 0, f) == Ends(a, steps[0], f);
    KeptShifts(a, steps, 0, f);
    assert KeptFrom(a, steps, 0, f) <==> !EndsAt(a, steps, 0, f) && KeptFrom(a, steps, 1, f);
  }

  lemma BegunLater(a: System, steps: seq<Step>, f: Fact)
    requires steps != [] && Enabled(a, steps[0]) && BegunAndKept(Apply(a, steps[0]), steps[1..], f)
    ensures BegunAndKept(a, steps, f)
  {
    var c, rest := Apply(a, steps[0]), steps[1..];
    var k :| 0 <= k < |rest| && BeginsAt(c, rest, k, f) && KeptFrom(c, rest, k + 1, f);
    FirstStepApart(a, steps, k, f);
    KeptShifts(a, steps, k + 1, f);
    assert BeginsAt(a, steps, k + 1, f) && KeptFrom(a, steps, k + 2, f);
  }

  lemma BegunApart(a: System, steps: seq<Step>, f: Fact)
    requires steps != [] && Enabled(a, steps[0])
    ensures var c, rest := Apply(a, steps[0]), steps[1..];
            BegunAndKept(a, steps, f) <==> (Begins(a, steps[0], f) && KeptFrom(c, rest, 0, f)) || BegunAndKept(c, rest, f)
  {
    var c, rest := Apply(a, steps[0]), steps[1..];
    assert BeginsAt(a, steps, 0, f) == Begins(a, steps[0], f);
    KeptShifts(a, steps, 0, f);
    if BegunAndKept(a, steps, f) {
      var k :| 0 <= k < |steps| && BeginsAt(a, steps, k, f) && KeptFrom(a, steps, k + 1, f);
      if k > 0 {
        FirstStepApart(a, steps, k - 1, f);
        KeptShifts(a, steps, k, f);
        assert BeginsAt(c, rest, k - 1, f) && KeptFrom(c, rest, k, f);
      }
    }
    if BegunAndKept(c, rest, f) {
      BegunLater(a, steps, f);
    }
  }

  lemma {:induction false} FactsOfRun(a: System, steps: seq<Step>, b: System, f: Fact)
    requires Reachable(a) && Run(a, steps, b) && Proper(f)
    ensures Holds(b, f) <==> BegunAndKept(a, steps, f) || (Holds(a, f) && KeptFrom(a, steps, 0, f))
    decreases |steps|
  {
    if steps != [] {
      RoutesAreOk(a);
      StepChanges(a, steps[0], f);
      StepStaysReachable(a, steps[0]);
      FactsOfRun(Apply(a, steps[0]), steps[1..], b, f);
      BegunApart(a, steps, f);
      KeptApart(a, steps, f);
    }
  }

  lemma FactsFromStart(steps: seq<Step>, b: System, f: Fact)
    requires Run(Init, steps, b) && Proper(f)
    ensures Holds(b, f) <==> BegunAndKept(Init, steps, f)
  {
    InitIsReachable();
    FactsOfRun(Init, steps, b, f);
  }

  /** An instance has a live worker exactly if one was built for it and no later step destroyed the instance, failed
      the worker, or had the conductor drop it after `invalidate`. */
  lemma LiveWorkers(steps: seq<Step>, b: System, i: nat)
    requires Run(Init, steps, b)
    ensures i in b.c.workers <==> BegunAndKept(Init, steps, LiveWorker(i))
  {
    FactsFromStart(steps, b, LiveWorker(i));
  }

  /** An instance is mapped to a client exactly if that client's create request was read and numbered so, and no later
      step destroyed the instance or invalidated that client. */
  lemma Mappings(steps: seq<Step>, b: System, i: nat, client: Socket)
    requires Run(Init, steps, b) && client > 0
    ensures i in b.s.clientMap && b.s.clientMap[i] == client <==> BegunAndKept(Init, steps, MappedTo(i, client))
  {
    FactsFromStart(steps, b, MappedTo(i, client));
  }

  /** `clients_` lists the clients accepted, in order, but for those that some step invalidated. */
  lemma OpenClients(steps: seq<Step>, b: System)
    requires Run(Init, steps, b)
    ensures b.s.clients == Open(b.h.accepted, b.s.closed)
    ensures forall c :: c in b.s.closed <==> BegunAndKept(Init, steps, Closed(c))
  {
    forall c ensures c in b.s.closed <==> BegunAndKept(Init, steps, Closed(c)) {
      FactsFromStart(steps, b, Closed(c));
    }
    ClientsAreOk(b);
  }

  // ---------------------------------------------------------------- the null dereference

  /** The program dereferences null exactly on a forward to an instance without a live worker. */
  lemma CrashesOnlyOnDeadForward(a: System, step: Step)
    requires Enabled(a, step)
    ensures Apply(a, step).phase == Crashed <==>
      && step.OfConductor? && step.conductor.HandleNext?
      && a.c.inQueue[0].verb == Forward && a.c.inQueue[0].instance !in a.c.workers
  {
  }

  /** A forward that reaches its turn kills the program exactly if no worker was built for its instance, or a later
      step removed it. */
  lemma ForwardCrashesExactly(steps: seq<Step>, b: System, outcome: Outcome, sending: Sending)
    requires Run(Init, steps, b) && Enabled(b, OfConductor(HandleNext(outcome, sending)))
    ensures Apply(b, OfConductor(HandleNext(outcome, sending))).phase == Crashed <==>
            b.c.inQueue[0].verb == Forward && !BegunAndKept(Init, steps, LiveWorker(b.c.inQueue[0].instance))
  {
    LiveWorkers(steps, b, b.c.inQueue[0].instance);
    CrashesOnlyOnDeadForward(b, OfConductor(HandleNext(outcome, sending)));
  }
}
