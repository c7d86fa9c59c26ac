/** How the accept thread hands new clients to the read thread: a queue, and one ack byte per client. */
module HandOff {
  import opened Messages
  import opened Servers

  /** `Signalling`: the client is queued, its ack is not sent. `owing`: sending it failed. */
  datatype Acceptor = Waiting | Signalling | AcceptorDone(owing: bool)

  /** `Popping`: the ack was received, or receiving it failed; the pop follows in both cases. `overdrawn`:
      the last pop had no ack. `Overrun`: the poll array had no slot for the client to be popped, and what
      happens is undefined. */
  datatype Reader = Polling | Popping(acked: bool) | ReaderDone(overdrawn: bool) | Overrun(acked: bool)

  datatype State = State(s: ServerState, acks: nat, acceptor: Acceptor, reader: Reader,
                         accepted: seq<Socket>, registered: seq<Socket>)

  const Init := State(NewServer, 0, Waiting, Polling, [], [])

  datatype Step =
    | Accept(client: Socket)
    | SendAck
    | SendFails
    | AcceptorStops
    | ReceiveAck
    | ReceiveFails
    | PopClient
    | ReaderStops
    | Disconnect(client: Socket)

  const SLOTS := 256

  /** Slot 0 is taken, and slots are not reused. */
  predicate Full(a: State) {
    1 + |a.registered| >= SLOTS
  }

  /** Receiving is tried only if `poll` saw an ack; a pop needs no condition in the code. */
  predicate Enabled(a: State, step: Step) {
    !a.reader.Overrun? &&
    match step
    case Accept(client) => a.acceptor == Waiting && client !in a.accepted
    case SendAck => a.acceptor == Signalling
    case SendFails => a.acceptor == Signalling
    case AcceptorStops => a.acceptor == Waiting
    case ReceiveAck => a.reader == Polling && a.acks > 0
    case ReceiveFails => a.reader == Polling && a.acks > 0
    case PopClient => a.reader.Popping?
    case ReaderStops => a.reader == Polling
    case Disconnect(client) => true
  }

  /** `front` on an empty queue is undefined: such a pop has no next state. */
  predicate Defined(a: State, step: Step) {
    step.PopClient? ==> a.s.newClients != []
  }

  function Apply(a: State, step: Step): State
    requires Enabled(a, step) && Defined(a, step)
  {
    match step
    case Accept(client) => a.(s := Accepted(a.s, client), acceptor := Signalling, accepted := a.accepted + [client])
    case SendAck => a.(acks := a.acks + 1, acceptor := Waiting)
    case SendFails => a.(acceptor := AcceptorDone(true))
    case AcceptorStops => a.(acceptor := AcceptorDone(false))
    case ReceiveAck => a.(acks := a.acks - 1, reader := Popping(true))
    case ReceiveFails => a.(reader := Popping(false))
    case PopClient =>
      if Full(a) then a.(reader := Overrun(a.reader.acked)) else
      a.(s := Taken(a.s), registered := a.registered + [a.s.newClients[0]],
         reader := if a.reader.acked then Polling else ReaderDone(true))
    case ReaderStops => a.(reader := ReaderDone(false))
    case Disconnect(client) => a.(s := Invalidated(a.s, client))
  }

  predicate Run(a: State, steps: seq<Step>, b: State)
    decreases |steps|
  {
    if steps == [] then a == b
    else Enabled(a, steps[0]) && Defined(a, steps[0]) && Run(Apply(a, steps[0]), steps[1..], b)
  }

  function One(b: bool): nat {
    if b then 1 else 0
  }

  predicate Distinct(s: seq<Socket>) {
    forall j, k :: 0 <= j < k < |s| ==> s[j] != s[k]
  }

  /** Every queued client is paid for by an ack: in flight, still to be sent, or just received. */
  predicate Balanced(a: State) {
    && |a.s.newClients| + One(a.reader == ReaderDone(true)) ==
       a.acks + One(a.acceptor == Signalling || a.acceptor == AcceptorDone(true)) + One(a.reader == Popping(true) || a.reader == Overrun(true))
    && (a.reader == Popping(false) || a.reader == Overrun(false) ==> a.acks > 0)
    && a.accepted == a.registered + a.s.newClients
    && Distinct(a.accepted)
    && 1 + |a.registered| <= SLOTS
    && (a.reader.Overrun? ==> Full(a) && a.s.newClients != [])
  }

  lemma PopKeepsBalance(a: State)
    requires Balanced(a) && Enabled(a, PopClient)
    ensures Defined(a, PopClient) && Balanced(Apply(a, PopClient))
  {
    assert a.s.newClients != [];
    assert a.s.newClients == [a.s.newClients[0]] + a.s.newClients[1..];
    assert a.accepted == a.registered + [a.s.newClients[0]] + a.s.newClients[1..];
  }

  lemma StepKeepsBalance(a: State, step: Step)
    requires Balanced(a) && Enabled(a, step)
    ensures Defined(a, step) && Balanced(Apply(a, step))
  {
    if step.PopClient? {
      PopKeepsBalance(a);
    } else if step.Accept? {
      assert a.accepted + [step.client] == a.registered + (a.s.newClients + [step.client]);
    }
  }

  lemma {:induction false} RunKeepsBalance(a: State, steps: seq<Step>, b: State)
    requires Balanced(a) && Run(a, steps, b)
    ensures Balanced(b)
    decreases |steps|
  {
    if steps != [] {
      StepKeepsBalance(a, steps[0]);
      RunKeepsBalance(Apply(a, steps[0]), steps[1..], b);
    }
  }

  /** In every interleaving, even if sending or receiving an ack fails, the read thread never looks at the
      front of an empty queue. */
  lemma FrontIsThere(steps: seq<Step>, b: State)
    requires Run(Init, steps, b) && Enabled(b, PopClient)
    ensures b.s.newClients != []
  {
    RunKeepsBalance(Init, steps, b);
  }

  /** Clients are registered for polling in the order in which they were accepted, each once; when no ack is
      under way, all of them are. */
  lemma RegisteredInAcceptOrder(steps: seq<Step>, b: State)
    requires Run(Init, steps, b)
    ensures b.registered <= b.accepted && Distinct(b.registered)
    ensures b.reader == Polling && b.acks == 0 && b.acceptor == Waiting ==> b.registered == b.accepted
  {
    RunKeepsBalance(Init, steps, b);
  }

  /** Without I/O errors the queue is exactly what the acks announce. */
  lemma AcksCountClients(steps: seq<Step>, b: State)
    requires Run(Init, steps, b) && b.acceptor != AcceptorDone(true)
    requires b.reader != Popping(false) && b.reader != ReaderDone(true) && !b.reader.Overrun?
    ensures |b.s.newClients| == b.acks + One(b.acceptor == Signalling) + One(b.reader.Popping?)
  {
    RunKeepsBalance(Init, steps, b);
  }

  lemma {:induction false} RunConcat(a: State, x: seq<Step>, b: State, y: seq<Step>, c: State)
    requires Run(a, x, b) && Run(b, y, c)
    ensures Run(a, x + y, c)
    decreases |x|
  {
    if x == [] {
      assert x + y == y;
    } else {
      RunConcat(Apply(a, x[0]), x[1..], b, y, c);
      assert (x + y)[1..] == x[1..] + y;
    }
  }

  /** Clients 1 to n were accepted and registered, and both threads wait. */
  predicate Settled(a: State, n: nat) {
    && a.acceptor == Waiting && a.reader == Polling && a.acks == 0 && a.s.newClients == []
    && a.registered == a.accepted && |a.accepted| == n
    && forall k :: 0 <= k < n ==> a.accepted[k] == k + 1
  }

  /** The steps that bring one more client from its acceptance to the pop. */
  function OneClient(client: Socket): seq<Step> {
    [Accept(client), SendAck, ReceiveAck, PopClient]
  }

  lemma NextClient(a: State, n: nat) returns (b: State)
    requires Settled(a, n)
    ensures Run(a, OneClient(n + 1), b) && b.accepted == a.accepted + [n + 1]
    ensures if 1 + n < SLOTS then Settled(b, n + 1) else b.reader.Overrun?
  {
    var steps := OneClient(n + 1);
    var a1 := Apply(a, Accept(n + 1));
    assert a1.s.newClients == [n + 1];
    var a2 := Apply(a1, SendAck);
    var a3 := Apply(a2, ReceiveAck);
    b := Apply(a3, PopClient);
    assert steps[1..] == [SendAck, ReceiveAck, PopClient] && steps[1..][1..] == [ReceiveAck, PopClient];
    assert steps[1..][1..][1..] == [PopClient] && [PopClient][1..] == [];
    assert Run(b, [], b);
    assert Run(a3, [PopClient], b);
    assert Run(a2, [ReceiveAck, PopClient], b);
    assert Run(a1, [SendAck, ReceiveAck, PopClient], b);
  }

  /** For every number of clients that the poll array has slots for, a run accepts and registers them. */
  lemma {:induction false} AllRegistered(n: nat) returns (steps: seq<Step>, b: State)
    requires 1 + n <= SLOTS
    ensures Run(Init, steps, b) && Settled(b, n)
  {
    if n == 0 {
      steps, b := [], Init;
    } else {
      var before, a := AllRegistered(n - 1);
      b := NextClient(a, n - 1);
      steps := before + OneClient(n);
      RunConcat(Init, before, a, OneClient(n), b);
    }
  }

  /** The run in which 256 clients connect, one after the other, overruns the poll array. */
  lemma OverrunExample() returns (steps: seq<Step>, b: State)
    ensures Run(Init, steps, b) && |b.accepted| == 256 && b.reader.Overrun?
  {
    var before, a := AllRegistered(255);
    b := NextClient(a, 255);
    steps := before + OneClient(256);
    RunConcat(Init, before, a, OneClient(256), b);
  }

  /** No run that accepts at most `n` clients overruns the poll array. */
  ghost predicate SlotsSufficeFor(n: nat) {
    forall steps, b :: Run(Init, steps, b) && |b.accepted| <= n ==> !b.reader.Overrun?
  }

  /** The poll array is large enough for `n` clients if and only if n <= 255. */
  lemma SlotsSuffice(n: nat)
    ensures SlotsSufficeFor(n) <==> n <= 255
  {
    if n <= 255 {
      forall steps, b | Run(Init, steps, b) && |b.accepted| <= n ensures !b.reader.Overrun? {
        RunKeepsBalance(Init, steps, b);
      }
    } else {
      var steps, b := OverrunExample();
      assert Run(Init, steps, b) && |b.accepted| <= n;
    }
  }

  /** The read thread's poll array: slot 0 is the interrupt socket, `next` the first free slot. */
  class ReadThread {
    const waitfds: array<Socket>
    var next: nat

    ghost predicate Valid()
      reads this
    {
      waitfds.Length == SLOTS && 1 <= next <= SLOTS
    }

    function Polled(): seq<Socket>
      requires Valid()
      reads this, waitfds
    {
      waitfds[1..next]
    }

    constructor (interrupt: Socket)
      ensures Valid() && Polled() == []
    {
      waitfds := new Socket[SLOTS](_ => interrupt);
      next := 1;
    }

    /** Takes a new client from the queue and starts polling it. */
    method Register(server: Server)
      requires Valid() && next < SLOTS && server.newClients != []
      modifies this, waitfds, server`newClients
      ensures Valid() && Polled() == old(Polled()) + [old(server.newClients)[0]]
      ensures server.State() == Taken(old(server.State()))
    {
      var recent := server.TakeNewClient();
      waitfds[next] := recent;
      next := next + 1;
    }

    /** Stops polling the j-th client; its slot stays in use. */
    method Drop(j: nat)
      requires Valid() && 1 <= j < next
      modifies waitfds
      ensures Polled() == old(Polled())[j - 1 := -1]
    {
      waitfds[j] := -1;
    }
  }
}
