/** Runs that show where the program does not do what one might expect. */
module Examples {
  import opened Messages
  import opened Splitting
  import opened Framing
  import opened Wire
  import opened Pipeline
  import opened Servers
  import opened Conductors
  import opened Router
  import opened Routing
  import opened Runs
  import opened Delivery

  lemma Then(a: System, step: Step) returns (b: System)
    requires Reachable(a) && Enabled(a, step)
    ensures Reachable(b) && b == Apply(a, step)
  {
    b := Apply(a, step);
    StepStaysReachable(a, step);
  }

  /** Client 1 sends a request, which joins the in queue. */
  lemma Asks(a: System, q: Request) returns (b: System)
    requires Reachable(a) && a.phase == Idle && a.reading == [] && 1 in a.h.accepted
    ensures Reachable(b)
    ensures b == a.(s := Mapped(a.s, q, 1), c := a.c.(inQueue := a.c.inQueue + [Numbered(a.s, q)]), h := b.h)
    ensures b.h == a.h.(owner := a.h.owner + (if q.verb == Create then [1] else []), received := a.h.received + [Numbered(a.s, q)])
  {
    b := Then(a, OfServer(ReadRequest(1, q)));
    b := Then(b, OfConductor(PushRequest));
  }

  lemma FirstClient() returns (a: System)
    ensures Reachable(a) && a == Init.(s := Accepted(NewServer, 1), h := Init.h.(accepted := [1]))
  {
    InitIsReachable();
    a := Then(Init, OfServer(AcceptClient(1)));
    assert Init.h.accepted + [1] == [1];
  }

  /** The conductor ends its batch and hands over the only response it has. */
  lemma FinishesTurn(a: System, r: Response) returns (b: System)
    requires Reachable(a) && a.phase == Batch && a.c.inQueue == [] && a.c.outQueue == [r] && !a.c.signal
    ensures Reachable(b) && b == a.(phase := Idle, c := a.c.(outQueue := []), s := Enqueued(a.s, r))
  {
    b := Then(a, OfConductor(EndBatch));
    b := Then(b, OfConductor(HandOverNext));
    assert b.c.outQueue == [];
    b := Then(b, OfConductor(EndTurn));
  }

  /** The writer pops the only response. */
  lemma Pops(a: System, r: Response) returns (b: System)
    requires Reachable(a) && a.phase != Crashed && a.writer.Resting? && a.s.responseQueue == [r] && r.instance in a.s.clientMap
    ensures Reachable(b) && b == a.(s := a.s.(responseQueue := [], popped := a.s.popped + [r]),
                                    writer := Holding(r, a.s.clientMap[r.instance]))
  {
    b := Then(a, OfServer(WriterPops(0)));
    assert b.s.responseQueue == [];
    assert b.s.clientMap == a.s.clientMap;
  }

  // ---------------------------------------------------------------- null dereference

  /** A client forwards to an instance that was never created: the program crashes. */
  lemma DeadForwardExample() returns (b: System)
    ensures Reachable(b) && b.phase == Crashed
  {
    var a := FirstClient();
    a := Asks(a, Request(Forward, 0, []));
    a := Then(a, OfConductor(BeginTurn));
    b := Then(a, OfConductor(HandleNext(Built, Attempt([], 0))));
  }

  // ---------------------------------------------------------------- a response after unmap

  /** Instance 0 exists and is mapped to client 1; no request or response waits in the conductor. */
  predicate HasInstance(a: System, nextId: nat) {
    && a.phase == Idle && a.reading == []
    && a.h.accepted == [1] && a.h.owner == [1] && a.s.clientMap == map[0 := 1] && a.s.closed == {}
    && a.c == ConductorState(nextId, [], [], {0}, false, false)
  }

  /** Instance 0 was created for client 1, and its create response handed to the server. */
  lemma OneInstance() returns (a: System)
    ensures Reachable(a) && HasInstance(a, 1) && a.writer == Resting && a.sertops == map[0 := NewSertop]
    ensures a.s.responseQueue == [CreateReply(0, 0, Built)]
  {
    a := FirstClient();
    a := Asks(a, Request(Create, 0, []));
    assert a.c.inQueue == [Request(Create, 0, [])];
    a := Then(a, OfConductor(BeginTurn));
    a := Then(a, OfConductor(HandleNext(Built, Attempt([], 0))));
    assert a.c.inQueue == [] && a.c.outQueue == [CreateReply(0, 0, Built)];
    assert a.c.workers == {0} && a.h.owner == [1];
    a := FinishesTurn(a, CreateReply(0, 0, Built));
  }

  lemma SplitOfNul()
    ensures Split([] + [NUL]) == ([[]], [])
  {
    var empty: Bytes := [];
    JoinedAppend([], empty);
    assert [] + [empty] == [empty] && Joined([]) + empty + [NUL] == [NUL] && [NUL] + empty == [NUL];
    SplitIs([NUL], [empty], empty);
    assert [] + [NUL] == [NUL];
  }

  const MESSAGE := Reply(1, 0, Forward, 0, Success, [])

  /** Sertop 0 prints an empty message, which reaches the conductor. */
  lemma Prints(a: System) returns (b: System)
    requires Reachable(a) && HasInstance(a, 1) && a.sertops == map[0 := NewSertop]
    ensures Reachable(b) && b.c == a.c.(nextId := 2, outQueue := [MESSAGE])
    ensures b.s == a.s && b.phase == a.phase && b.writer == a.writer && b.reading == a.reading
    ensures b.h.accepted == a.h.accepted && b.h.owner == a.h.owner
  {
    SplitOfNul();
    b := Then(a, OfWorker(0, WorkerStep.Prints([NUL])));
    assert b.sertops[0].pending == [[]];
    b := Then(b, OfWorker(0, DeliverResponse));
    assert b.c.outQueue == [MESSAGE];
  }

  /** The create response was written, sertop printed an empty message, and the writer popped it. */
  lemma ForwardInHand() returns (a: System)
    ensures Reachable(a) && HasInstance(a, 2) && a.writer == Holding(MESSAGE, 1)
  {
    a := OneInstance();
    a := Pops(a, CreateReply(0, 0, Built));
    a := Then(a, OfServer(WriterWrites(Attempt([], 4))));
    a := Prints(a);
    a := Then(a, OfConductor(BeginTurn));
    a := FinishesTurn(a, MESSAGE);
    assert a.s.responseQueue == [MESSAGE];
    a := Pops(a, MESSAGE);
  }

  /** The writer popped a forward response of instance 0 for client 1; a destroy request then unmaps the instance;
      the response will still reach the client. */
  lemma ResponseAfterUnmapExample() returns (a: System)
    ensures Reachable(a) && Gone(a, 0) && MayArrive(a, 0) && a.writer.r.verb == Forward
  {
    a := ForwardInHand();
    a := Asks(a, Request(Destroy, 0, []));
    a := Then(a, OfConductor(BeginTurn));
    a := Then(a, OfConductor(HandleNext(Built, Attempt([], 4))));
    assert 0 !in a.s.clientMap;
  }

  // ---------------------------------------------------------------- a client out of step

  const LOST: Bytes := [1, 1, 1, 1, 1, 1, 1, 1, 1, 1]
  const NEXT: Bytes := [2, 2, 2, 2, 2, 2]

  lemma FourRequests() returns (a: System)
    ensures Reachable(a) && a.phase == Idle && a.s.clientMap == map[0 := 1, 1 := 1] && a.s.closed == {} && a.s.wire == []
    ensures a.c == ConductorState(0, [Request(Create, 0, []), Request(Create, 1, []), Request(Destroy, 0, []), Request(Destroy, 1, [])],
                                  [], {}, false, false)
    ensures a.sertops == map[] && a.h.owner == [1, 1]
  {
    a := FirstClient();
    a := Asks(a, Request(Create, 0, []));
    a := Asks(a, Request(Create, 0, []));
    assert a.c.inQueue == [Request(Create, 0, []), Request(Create, 1, [])] && a.h.owner == [1, 1];
    a := Asks(a, Request(Destroy, 0, []));
    a := Asks(a, Request(Destroy, 1, []));
    assert a.c.inQueue == [Request(Create, 0, []), Request(Create, 1, []), Request(Destroy, 0, []), Request(Destroy, 1, [])];
    assert a.h.owner == [1, 1] + [] + [];
  }

  /** Client 1 asked for two instances, which were created, and for destroying them again. */
  lemma TwoInstances() returns (a: System)
    ensures Reachable(a) && a.phase == Batch && a.s.clientMap == map[0 := 1, 1 := 1] && a.s.closed == {} && a.s.wire == []
    ensures a.c.inQueue == [Request(Destroy, 0, []), Request(Destroy, 1, [])] && a.h.owner == [1, 1]
    ensures a.sertops == map[0 := NewSertop, 1 := NewSertop]
  {
    a := FourRequests();
    a := Then(a, OfConductor(BeginTurn));
    a := Then(a, OfConductor(HandleNext(Built, Attempt([], 0))));
    assert a.c.inQueue == [Request(Create, 1, []), Request(Destroy, 0, []), Request(Destroy, 1, [])];
    a := Then(a, OfConductor(HandleNext(Built, Attempt([], 0))));
    assert a.c.inQueue == [Request(Destroy, 0, []), Request(Destroy, 1, [])];
  }

  /** The conductor destroys the instance of the request at the front, writing its final response to client 1. */
  lemma Destroys(a: System, i: nat, rest: seq<Request>, sending: Sending) returns (b: System, w: Write)
    requires Reachable(a) && a.phase == Batch && a.c.inQueue == [Request(Destroy, i, [])] + rest
    requires i in a.s.clientMap && a.s.clientMap[i] == 1 && a.s.closed == {}
    ensures Reachable(b) && b.phase == Batch && b.c.inQueue == rest && b.s.clientMap == a.s.clientMap - {i} && b.s.closed == {}
    ensures b.s.wire == a.s.wire + [w] && w.to == 1 && w.out == sending
    ensures b.sertops == a.sertops && b.h.owner == a.h.owner
  {
    b := Then(a, OfConductor(HandleNext(Built, sending)));
    w := FinalWrite(a, sending);
  }

  lemma Sizes()
    ensures FrameSize(LOST) == 14 && FrameSize(NEXT) == 10 && |LOST| == 10 && |NEXT| == 6 && LOST[2] == 1
  {
  }

  lemma FirstByteIsZero(raw: Bytes)
    requires |raw| < 0x100_0000
    ensures FrameOf(raw)[0] == 0
  {
  }

  lemma Garbled(w1: Write, w2: Write)
    requires w1.out == Attempt(LOST, 6) && w2.out == Attempt(NEXT, 10)
    ensures !Whole(w1) && Whole(w2)
    ensures var got := DecodeAll(Arrived([w1, w2])).0;
            got != [] && got[0] != LOST && got[0] != NEXT
  {
    Sizes();
    OutOfStep(w1, w2);
    var wrong := Mixed(LOST, 6, FrameOf(NEXT));
    FirstByteIsZero(NEXT);
    assert |wrong| == 10 && wrong[2] == 0;
  }

  lemma TwoWrites(w1: Write, w2: Write)
    requires w1.to == w2.to
    ensures WrittenTo([w1, w2], w1.to) == [w1, w2]
    ensures Raws([w1, w2]) == [w1.out.raw, w2.out.raw]
  {
    assert [w1][..0] == [] && WrittenTo([w1], w1.to) == [] + [w1] == [w1];
    assert [w1, w2][..1] == [w1];
  }

  /** `unmap` fails to write the response for instance 0 after 6 bytes, and writes the one for instance 1 whole: from
      what reaches the client no payload that was sent can be decoded first. */
  lemma OutOfStepExample() returns (b: System)
    ensures Reachable(b) && b.sertops == map[0 := NewSertop, 1 := NewSertop] && b.h.owner == [1, 1]
    ensures Raws(WrittenTo(b.s.wire, 1)) == [LOST, NEXT] && !NothingAfterFailure(WrittenTo(b.s.wire, 1))
    ensures var got := DecodeAll(Arrived(WrittenTo(b.s.wire, 1))).0;
            got != [] && got[0] != LOST && got[0] != NEXT
  {
    Sizes();
    var a := TwoInstances();
    var w1, w2;
    a, w1 := Destroys(a, 0, [Request(Destroy, 1, [])], Attempt(LOST, 6));
    b, w2 := Destroys(a, 1, [], Attempt(NEXT, 10));
    assert b.s.wire == [w1, w2];
    TwoWrites(w1, w2);
    Garbled(w1, w2);
    assert !Whole([w1, w2][0]) && [w1, w2][1].out.sent > 0;
  }

  lemma {:induction false} HeardSomething(payloads: seq<Bytes>, load: Bytes -> Option<Fields>, i: nat, k: nat)
    requires k < |payloads| && load(payloads[k]).Some?
    requires load(payloads[k]).value.verb == Forward && load(payloads[k]).value.instance == i
    ensures Heard(payloads, load, i) != []
  {
    var last := |payloads| - 1;
    if k < last {
      HeardSomething(payloads[..last], load, i, k);
    }
  }

  /** A client's library that takes any payload but these two for an empty message of instance 0. */
  function LoadOf(w1: Write, w2: Write, raw: Bytes): Option<Fields> {
    var r := if raw == w1.out.raw then w1.r else if raw == w2.out.raw then w2.r else MESSAGE;
    Some(Fields(r.status, r.verb, r.instance, r.content))
  }

  lemma Misreads(w1: Write, w2: Write, got: seq<Bytes>) returns (load: Bytes -> Option<Fields>)
    requires Short(w1.out.raw) && Short(w2.out.raw) && w1.out.raw != w2.out.raw
    requires got != [] && got[0] != w1.out.raw && got[0] != w2.out.raw
    ensures Loads(w1, load) && Loads(w2, load) && Heard(got, load, 0) != []
  {
    load := raw => LoadOf(w1, w2, raw);
    HeardSomething(got, load, 0, 0);
  }

  lemma PrintedNothing(steps: seq<Step>, b: System, i: nat)
    requires Run(Init, steps, b) && i in b.sertops && b.sertops[i] == NewSertop
    ensures MessagesOf(Printed(steps, i)) == []
  {
    InitIsReachable();
    OutputIsPrinted(Init, steps, b, i);
    assert Printed(steps, i) == [];
    SplitOfNulFree([]);
  }

  lemma TwoRaws(ws: seq<Write>)
    requires Raws(ws) == [LOST, NEXT]
    ensures |ws| == 2 && ws[0].out.raw == LOST && ws[1].out.raw == NEXT
    ensures Short(LOST) && Short(NEXT) && LOST != NEXT
  {
    assert |Raws(ws)| == 2 && Raws(ws)[0] == LOST && Raws(ws)[1] == NEXT;
    Sizes();
  }

  /** In that run the end-to-end claim is false: a client that takes the payload never sent for a message of instance
      0 hears of it, though its sertop printed nothing. */
  lemma EndToEndFailsExample() returns (steps: seq<Step>, b: System, load: Bytes -> Option<Fields>)
    ensures Run(Init, steps, b) && 0 in b.sertops
    ensures forall w :: w in WrittenTo(b.s.wire, OwnerOf(b, 0)) ==> Loads(w, load)
    ensures !(Heard(DecodeAll(Arrived(WrittenTo(b.s.wire, OwnerOf(b, 0)))).0, load, 0) <= MessagesOf(Printed(steps, 0)))
  {
    b := OutOfStepExample();
    var run :| Run(Init, run, b);
    steps := run;
    var ws := WrittenTo(b.s.wire, 1);
    TwoRaws(ws);
    load := Misreads(ws[0], ws[1], DecodeAll(Arrived(ws)).0);
    PrintedNothing(steps, b, 0);
  }
}
