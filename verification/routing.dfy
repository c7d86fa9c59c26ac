/** Which socket a response reaches. */
module Routing {
  import opened Messages
  import opened Pipeline
  import opened Wire
  import opened Servers
  import opened Conductors
  import opened Router
  import opened Invariants

  /** A response was sent to the client that created its instance, or to the default socket. */
  predicate SentWell(r: Response, to: Socket, owner: seq<Socket>) {
    to == 0 || (r.instance < |owner| && to == owner[r.instance])
  }

  predicate AllSentWell(ws: seq<Write>, owner: seq<Socket>) {
    forall k :: 0 <= k < |ws| ==> SentWell(ws[k].r, ws[k].to, owner)
  }

  predicate MapOk(m: map<nat, Socket>, owner: seq<Socket>) {
    forall id :: id in m ==> id < |owner| && (m[id] == owner[id] || m[id] == 0)
  }

  predicate Positive(sockets: seq<Socket>) {
    forall k :: 0 <= k < |sockets| ==> sockets[k] > 0
  }

  predicate HandOk(a: System) {
    a.writer.Holding? ==> SentWell(a.writer.r, a.writer.client, a.h.owner)
  }

  predicate RoutesOk(a: System) {
    && Positive(a.h.accepted) && Positive(a.h.owner)
    && MapOk(a.s.clientMap, a.h.owner)
    && HandOk(a)
    && AllSentWell(a.s.wire, a.h.owner)
  }

  /** Responses in the queues are for instances that the server numbered. */
  lemma QueuedAreNumbered(a: System)
    requires RequestsOk(a) && LivesOk(a) && Accounted(PipeOf(a))
    ensures forall r :: r in a.s.responseQueue || r in a.s.popped ==> r.instance < |a.h.owner|
  {
    forall r | r in a.s.responseQueue || r in a.s.popped ensures r.instance < |a.h.owner| {
      QueueIsPartOfQueued(PipeOf(a), r);
      QueuedIsNumbered(a, r);
    }
  }

  lemma QueuedIsNumbered(a: System, r: Response)
    requires RequestsOk(a) && LivesOk(a) && r in Queued(a)
    ensures r.instance < |a.h.owner|
  {
    HandledCreatesAreNumbered(a);
    var k :| 0 <= k < |Queued(a)| && Queued(a)[k] == r;
    assert ReplyFits(r, a.sertops.Keys, CreateIds(a.h.handled));
    var n :| 0 <= n < |CreateIds(a.h.handled)| && CreateIds(a.h.handled)[n] == r.instance;
    assert Upto(a.s.nextId)[n] == r.instance;
  }

  lemma MoreOwners(ws: seq<Write>, owner: seq<Socket>, client: Socket)
    requires AllSentWell(ws, owner)
    ensures AllSentWell(ws, owner + [client])
  {
    forall k | 0 <= k < |ws| ensures SentWell(ws[k].r, ws[k].to, owner + [client]) {
      assert SentWell(ws[k].r, ws[k].to, owner);
    }
  }

  lemma StepKeepsRoutes(a: System, step: Step)
    requires Enabled(a, step) && RoutesOk(a) && RequestsOk(a) && LivesOk(a) && Accounted(PipeOf(a))
    ensures RoutesOk(Apply(a, step))
  {
    match step
    case OfServer(st) =>
      QueuedAreNumbered(a);
      ServerKeepsRoutes(a, st);
    case OfConductor(st) => ConductorKeepsRoutes(a, st);
    case OfWorker(i, st) =>
  }

  lemma ServerKeepsRoutes(a: System, st: ServerStep)
    requires ServerEnabled(a, st) && RoutesOk(a) && |a.h.owner| == a.s.nextId
    requires forall r :: r in a.s.responseQueue ==> r.instance < |a.h.owner|
    ensures RoutesOk(ServerStepped(a, st))
  {
    match st
    case AcceptClient(client) =>
    case ReadRequest(client, q) => ReadingKeepsRoutes(a, client, q);
    case WriterPops(k) =>
    case WriterWrites(sending) =>
    case WriterInvalidates =>
    case InvalidateClient(client) =>
  }

  lemma ReadingKeepsRoutes(a: System, client: Socket, q: Request)
    requires ServerEnabled(a, ReadRequest(client, q)) && RoutesOk(a) && |a.h.owner| == a.s.nextId
    ensures RoutesOk(ServerStepped(a, ReadRequest(client, q)))
  {
    if q.verb == Create {
      MoreOwners(a.s.wire, a.h.owner, client);
    } else {
      assert a.h.owner + [] == a.h.owner;
    }
  }

  lemma ConductorKeepsRoutes(a: System, st: ConductorStep)
    requires ConductorEnabled(a, st) && RoutesOk(a)
    ensures RoutesOk(ConductorStepped(a, st))
  {
  }

  // ---------------------------------------------------------------- each response is written once

  /** What a step writes. */
  function WritesOf(a: System, step: Step): seq<Write>
    requires Enabled(a, step)
  {
    match step
    case OfServer(WriterWrites(sending)) => [Write(a.writer.r, a.writer.client, sending)]
    case OfConductor(HandleNext(outcome, sending)) => if a.c.inQueue[0].verb == Destroy then [FinalWrite(a, sending)] else []
    case _ => []
  }

  function FinalWrite(a: System, sending: Sending): Write
    requires a.c.inQueue != []
  {
    var i := a.c.inQueue[0].instance;
    Write(DestroyReply(a.c.nextId, i), Lookup(a.s.clientMap, i), sending)
  }

  lemma StepWrites(a: System, step: Step)
    requires Enabled(a, step)
    ensures Apply(a, step).s.wire == a.s.wire + WritesOf(a, step)
  {
  }

  function HandBag(a: System): multiset<Response> {
    if a.writer.Holding? then multiset{a.writer.r} else multiset{}
  }

  /** Every response written, or in the writer's hand, was popped or sent directly once for it. */
  predicate WrittenOnce(a: System) {
    multiset(Responses(a.s.wire)) + HandBag(a) <= multiset(a.s.popped) + multiset(a.s.direct)
  }

  lemma OneMoreResponse(ws: seq<Write>, w: Write)
    ensures multiset(Responses(ws + [w])) == multiset(Responses(ws)) + multiset{w.r}
  {
    assert Responses(ws + [w]) == Responses(ws) + [w.r];
  }

  lemma BothGrow(x: multiset<Response>, y: multiset<Response>, r: Response)
    requires x <= y
    ensures x + multiset{r} <= y + multiset{r}
  {
    forall e ensures (x + multiset{r})[e] <= (y + multiset{r})[e] {
      assert x[e] <= y[e];
    }
  }

  lemma PopKeepsWrittenOnce(a: System, b: System)
    requires WrittenOnce(a) && a.writer.Resting? && b.writer.Holding?
    requires b.s.wire == a.s.wire && b.s.direct == a.s.direct && b.s.popped == a.s.popped + [b.writer.r]
    ensures WrittenOnce(b)
  {
    BothGrow(multiset(Responses(a.s.wire)) + HandBag(a), multiset(a.s.popped) + multiset(a.s.direct), b.writer.r);
    assert multiset(b.s.popped) + multiset(b.s.direct) == multiset(a.s.popped) + multiset(a.s.direct) + multiset{b.writer.r};
    assert multiset(Responses(b.s.wire)) + HandBag(b) == multiset(Responses(a.s.wire)) + HandBag(a) + multiset{b.writer.r};
  }

  /** `b` is `a` after the writer wrote what it held. */
  predicate AfterWrite(a: System, sending: Sending, b: System) {
    && a.writer.Holding? && b.h == a.h && b.s.clientMap == a.s.clientMap && b.s.popped == a.s.popped
    && b.s.wire == a.s.wire + [Write(a.writer.r, a.writer.client, sending)]
    && b.writer == if Completed(sending) then Resting else Invalidating(a.writer.client)
  }

  lemma WriteKeepsWrittenOnce(a: System, sending: Sending, b: System)
    requires WrittenOnce(a) && AfterWrite(a, sending, b) && b.s.direct == a.s.direct
    ensures WrittenOnce(b)
  {
    OneMoreResponse(a.s.wire, Write(a.writer.r, a.writer.client, sending));
  }

  lemma DirectKeepsWrittenOnce(a: System, w: Write, b: System)
    requires WrittenOnce(a) && b.writer == a.writer && b.s.popped == a.s.popped
    requires b.s.wire == a.s.wire + [w] && b.s.direct == a.s.direct + [w.r]
    ensures WrittenOnce(b)
  {
    OneMoreResponse(a.s.wire, w);
    BothGrow(multiset(Responses(a.s.wire)) + HandBag(a), multiset(a.s.popped) + multiset(a.s.direct), w.r);
    assert multiset(b.s.popped) + multiset(b.s.direct) == multiset(a.s.popped) + multiset(a.s.direct) + multiset{w.r};
    assert multiset(Responses(b.s.wire)) + HandBag(b) == multiset(Responses(a.s.wire)) + HandBag(a) + multiset{w.r};
  }

  predicate SameWrites(a: System, b: System) {
    && b.s.wire == a.s.wire && b.s.popped == a.s.popped && b.s.direct == a.s.direct
    && (b.writer == a.writer || (!a.writer.Holding? && !b.writer.Holding?))
  }

  lemma ServerKeepsWrittenOnce(a: System, st: ServerStep)
    requires ServerEnabled(a, st) && WrittenOnce(a)
    ensures WrittenOnce(ServerStepped(a, st))
  {
    var b := ServerStepped(a, st);
    if st.WriterPops? {
      PopKeepsWrittenOnce(a, b);
    } else if st.WriterWrites? {
      WriteKeepsWrittenOnce(a, st.sending, b);
    } else {
      assert SameWrites(a, b);
    }
  }

  lemma ConductorKeepsWrittenOnce(a: System, st: ConductorStep)
    requires ConductorEnabled(a, st) && WrittenOnce(a)
    ensures WrittenOnce(ConductorStepped(a, st))
  {
    var b := ConductorStepped(a, st);
    if st.HandleNext? && a.c.inQueue[0].verb == Destroy {
      DirectKeepsWrittenOnce(a, FinalWrite(a, st.sending), b);
    } else {
      assert SameWrites(a, b);
    }
  }

  lemma StepKeepsWrittenOnce(a: System, step: Step)
    requires Enabled(a, step) && WrittenOnce(a)
    ensures WrittenOnce(Apply(a, step))
  {
    match step
    case OfServer(st) => ServerKeepsWrittenOnce(a, st);
    case OfConductor(st) => ConductorKeepsWrittenOnce(a, st);
    case OfWorker(i, st) => assert SameWrites(a, WorkerStepped(a, i, st));
  }

  /** Only final responses bypass the queues: one for each destroy request that was handled, in order. */
  predicate DirectsAreFinal(a: System) {
    var ids := DestroyIds(a.h.handled);
    && |a.s.direct| == |ids|
    && forall k :: 0 <= k < |ids| ==> a.s.direct[k] == Response(a.s.direct[k].id, 1, Success, Destroy, ids[k], [])
  }

  /** What was written or is about to be was popped, or is final. */
  lemma WrittenWasTaken(a: System, r: Response)
    requires WrittenOnce(a) && DirectsAreFinal(a) && (r in Responses(a.s.wire) || (a.writer.Holding? && r == a.writer.r))
    ensures r in a.s.popped || (r.verb == Destroy && r.status == Success)
  {
    var taken := multiset(a.s.popped) + multiset(a.s.direct);
    assert r in multiset(Responses(a.s.wire)) + HandBag(a);
    assert taken[r] > 0;
    assert r in multiset(a.s.popped) || r in multiset(a.s.direct);
  }

  // ---------------------------------------------------------------- what the owner of an instance receives

  /** The creator of instance `i` still gets its responses. */
  predicate StillMapped(a: System, i: nat) {
    i < |a.h.owner| && i in a.s.clientMap && a.s.clientMap[i] == a.h.owner[i]
  }

  /** The writer holds a response of instance `i`, popped and not yet written, for the creator of `i`. */
  predicate HoldsFor(a: System, i: nat) {
    a.writer.Holding? && a.writer.r.instance == i < |a.h.owner| && a.writer.client == a.h.owner[i]
  }

  /** The writer holds a response of instance `i` for the creator, and nothing keeps it from arriving. */
  predicate MayArrive(a: System, i: nat) {
    HoldsFor(a, i) && a.writer.client !in a.s.closed && a.phase != Crashed
  }

  function InHand(a: System, i: nat): seq<Response> {
    if HoldsFor(a, i) && Picks(QueuedFor(i), a.writer.r) then [a.writer.r] else []
  }

  /** The responses of instance `i` that came through the queues and were written whole to `socket`, in order. */
  function SentTo(ws: seq<Write>, i: nat, socket: Socket): seq<Response> {
    if ws == [] then [] else
      var last := |ws| - 1;
      SentTo(ws[..last], i, socket) +
      if Picks(QueuedFor(i), ws[last].r) && ws[last].to == socket && Whole(ws[last]) then [ws[last].r] else []
  }

  lemma SentToAppend(ws: seq<Write>, w: Write, i: nat, socket: Socket)
    ensures SentTo(ws + [w], i, socket) ==
            SentTo(ws, i, socket) + if Picks(QueuedFor(i), w.r) && w.to == socket && Whole(w) then [w.r] else []
    ensures !(Picks(QueuedFor(i), w.r) && w.to == socket && Whole(w)) ==> SentTo(ws + [w], i, socket) == SentTo(ws, i, socket)
  {
    assert (ws + [w])[..|ws|] == ws;
  }

  lemma {:induction false} SentToNone(ws: seq<Write>, i: nat, socket: Socket)
    requires forall k :: 0 <= k < |ws| ==> !Picks(QueuedFor(i), ws[k].r)
    ensures SentTo(ws, i, socket) == []
  {
    if ws != [] {
      SentToNone(ws[..|ws| - 1], i, socket);
    }
  }

  /** The creator got the first of the popped responses; while it is served, all but the one in hand. */
  predicate Received(got: seq<Response>, hand: seq<Response>, popped: seq<Response>, served: bool) {
    got <= popped && (served || hand != [] ==> got + hand == popped)
  }

  /** The creator of instance `i` is mapped, and no write to it just failed. */
  predicate Served(a: System, i: nat) {
    StillMapped(a, i) && a.writer != Invalidating(a.h.owner[i])
  }

  predicate ReceivedFor(a: System, i: nat)
    requires i < |a.h.owner|
  {
    Received(SentTo(a.s.wire, i, a.h.owner[i]), InHand(a, i), Pick(a.s.popped, QueuedFor(i)), Served(a, i))
  }

  ghost predicate ReceivedOk(a: System) {
    forall i :: 0 <= i < |a.h.owner| ==> ReceivedFor(a, i)
  }

  /** Once the creator of an instance is unmapped, it is never mapped again. */
  lemma MappingNeverReturns(a: System, step: Step, i: nat)
    requires Enabled(a, step) && RoutesOk(a) && |a.h.owner| == a.s.nextId && i < |a.h.owner|
    ensures i < |Apply(a, step).h.owner| && Apply(a, step).h.owner[i] == a.h.owner[i]
    ensures StillMapped(Apply(a, step), i) ==> StillMapped(a, i)
  {
    match step
    case OfServer(st) => ServerNeverRemaps(a, st, i);
    case OfConductor(st) => ConductorNeverRemaps(a, st, i);
    case OfWorker(j, st) =>
  }

  lemma ServerNeverRemaps(a: System, st: ServerStep, i: nat)
    requires ServerEnabled(a, st) && Positive(a.h.owner) && |a.h.owner| == a.s.nextId && i < |a.h.owner|
    ensures var b := ServerStepped(a, st);
            i < |b.h.owner| && b.h.owner[i] == a.h.owner[i] && (StillMapped(b, i) ==> StillMapped(a, i))
  {
  }

  lemma ConductorNeverRemaps(a: System, st: ConductorStep, i: nat)
    requires ConductorEnabled(a, st)
    ensures var b := ConductorStepped(a, st);
            b.h.owner == a.h.owner && (StillMapped(b, i) ==> StillMapped(a, i))
  {
    assert forall id :: id in ConductorStepped(a, st).s.clientMap ==>
      id in a.s.clientMap && ConductorStepped(a, st).s.clientMap[id] == a.s.clientMap[id];
  }

  /** The writer pops a response of a mapped instance for its creator, and of no other instance. */
  lemma PoppedForCreator(a: System, k: nat, i: nat)
    requires ServerEnabled(a, WriterPops(k)) && Positive(a.h.owner) && i < |a.h.owner|
    ensures HoldsFor(ServerStepped(a, WriterPops(k)), i) <==> a.s.responseQueue[k].instance == i && StillMapped(a, i)
  {
  }

  lemma PopKeepsReceived(a: System, k: nat, i: nat)
    requires ServerEnabled(a, WriterPops(k)) && RoutesOk(a) && |a.h.owner| == a.s.nextId && i < |a.h.owner| && ReceivedFor(a, i)
    ensures ReceivedFor(ServerStepped(a, WriterPops(k)), i)
  {
    var r := a.s.responseQueue[k];
    PickAppend(a.s.popped, r, QueuedFor(i));
    PoppedForCreator(a, k, i);
    ServerNeverRemaps(a, WriterPops(k), i);
    var got := SentTo(a.s.wire, i, a.h.owner[i]);
    assert got + [] == got;
  }

  lemma WriteKeepsReceived(a: System, sending: Sending, b: System, i: nat)
    requires AfterWrite(a, sending, b) && i < |a.h.owner| && ReceivedFor(a, i)
    ensures ReceivedFor(b, i)
  {
    var got, socket := SentTo(a.s.wire, i, a.h.owner[i]), a.h.owner[i];
    SentToAppend(a.s.wire, Write(a.writer.r, a.writer.client, sending), i, socket);
    assert InHand(b, i) == [];
    if InHand(a, i) != [] && Completed(sending) {
      assert SentTo(b.s.wire, i, socket) == got + InHand(a, i);
      assert got + InHand(a, i) + [] == got + InHand(a, i);
    } else {
      assert SentTo(b.s.wire, i, socket) == got;
      assert Served(b, i) ==> Served(a, i) && InHand(a, i) == [];
    }
  }

  /** An instance that was just numbered has no responses yet. */
  lemma NewHasReceivedNothing(a: System, b: System, i: nat)
    requires WrittenOnce(a) && DirectsAreFinal(a) && i < |b.h.owner|
    requires b.s.wire == a.s.wire && b.s.popped == a.s.popped && b.writer == a.writer
    requires forall r :: r in a.s.popped ==> r.instance != i
    ensures ReceivedFor(b, i)
  {
    PickNone(b.s.popped, QueuedFor(i));
    forall k | 0 <= k < |b.s.wire| ensures !Picks(QueuedFor(i), b.s.wire[k].r) {
      assert Responses(a.s.wire)[k] == b.s.wire[k].r;
      WrittenWasTaken(a, b.s.wire[k].r);
    }
    SentToNone(b.s.wire, i, b.h.owner[i]);
    if a.writer.Holding? {
      WrittenWasTaken(a, a.writer.r);
    }
  }

  /** A step that writes and pops nothing can only end the service of an instance. */
  lemma QuietStepKeepsReceived(a: System, b: System, i: nat)
    requires i < |a.h.owner| && ReceivedFor(a, i)
    requires i < |b.h.owner| && b.h.owner[i] == a.h.owner[i] && b.s.popped == a.s.popped
    requires SentTo(b.s.wire, i, a.h.owner[i]) == SentTo(a.s.wire, i, a.h.owner[i]) && InHand(b, i) == InHand(a, i)
    requires Served(b, i) ==> Served(a, i)
    ensures ReceivedFor(b, i)
  {
  }

  lemma ServerKeepsReceivedFor(a: System, st: ServerStep, i: nat)
    requires ServerEnabled(a, st) && RoutesOk(a) && |a.h.owner| == a.s.nextId && i < |a.h.owner| && ReceivedFor(a, i)
    ensures i < |ServerStepped(a, st).h.owner| && ReceivedFor(ServerStepped(a, st), i)
  {
    ServerNeverRemaps(a, st, i);
    match st
    case WriterPops(k) => PopKeepsReceived(a, k, i);
    case WriterWrites(sending) => WriteKeepsReceived(a, sending, ServerStepped(a, st), i);
    case AcceptClient(client) => QuietStepKeepsReceived(a, ServerStepped(a, st), i);
    case ReadRequest(client, q) => QuietStepKeepsReceived(a, ServerStepped(a, st), i);
    case WriterInvalidates => QuietStepKeepsReceived(a, ServerStepped(a, st), i);
    case InvalidateClient(client) => QuietStepKeepsReceived(a, ServerStepped(a, st), i);
  }

  lemma ServerKeepsReceived(a: System, st: ServerStep)
    requires ServerEnabled(a, st) && ReceivedOk(a) && RoutesOk(a) && WrittenOnce(a) && DirectsAreFinal(a)
    requires |a.h.owner| == a.s.nextId
    requires forall r :: r in a.s.popped ==> r.instance < |a.h.owner|
    ensures ReceivedOk(ServerStepped(a, st))
  {
    var b := ServerStepped(a, st);
    forall i | 0 <= i < |b.h.owner| ensures ReceivedFor(b, i) {
      if i < |a.h.owner| {
        ServerKeepsReceivedFor(a, st, i);
      } else {
        NewHasReceivedNothing(a, b, i);
      }
    }
  }

  lemma ConductorSendsFinals(a: System, st: ConductorStep, i: nat, socket: Socket)
    requires ConductorEnabled(a, st)
    ensures SentTo(ConductorStepped(a, st).s.wire, i, socket) == SentTo(a.s.wire, i, socket)
  {
    if st.HandleNext? && a.c.inQueue[0].verb == Destroy {
      SentToAppend(a.s.wire, FinalWrite(a, st.sending), i, socket);
    }
  }

  lemma ConductorKeepsReceived(a: System, st: ConductorStep)
    requires ConductorEnabled(a, st) && ReceivedOk(a)
    ensures ReceivedOk(ConductorStepped(a, st))
  {
    var b := ConductorStepped(a, st);
    forall i | 0 <= i < |b.h.owner| ensures ReceivedFor(b, i) {
      ConductorNeverRemaps(a, st, i);
      ConductorSendsFinals(a, st, i, a.h.owner[i]);
      assert b.writer == a.writer;
      QuietStepKeepsReceived(a, b, i);
    }
  }

  lemma StepKeepsReceived(a: System, step: Step)
    requires Enabled(a, step) && ReceivedOk(a) && WrittenOnce(a) && DirectsAreFinal(a)
    requires RoutesOk(a) && RequestsOk(a) && LivesOk(a) && Accounted(PipeOf(a))
    ensures ReceivedOk(Apply(a, step))
  {
    match step
    case OfServer(st) =>
      QueuedAreNumbered(a);
      ServerKeepsReceived(a, st);
    case OfConductor(st) => ConductorKeepsReceived(a, st);
    case OfWorker(j, st) =>
      var b := WorkerStepped(a, j, st);
      forall i | 0 <= i < |b.h.owner| ensures ReceivedFor(b, i) {
        QuietStepKeepsReceived(a, b, i);
      }
  }

  lemma StepKeepsDirects(a: System, step: Step)
    requires Enabled(a, step) && DirectsAreFinal(a)
    ensures DirectsAreFinal(Apply(a, step))
  {
    var b := Apply(a, step);
    match step
    case OfServer(st) => assert b.s.direct == a.s.direct && b.h.handled == a.h.handled;
    case OfConductor(st) => ConductorKeepsDirects(a, st);
    case OfWorker(i, st) => assert b.s == a.s && b.h.handled == a.h.handled;
  }

  lemma ConductorKeepsDirects(a: System, st: ConductorStep)
    requires ConductorEnabled(a, st) && DirectsAreFinal(a)
    ensures DirectsAreFinal(ConductorStepped(a, st))
  {
    var b := ConductorStepped(a, st);
    if st.HandleNext? && Handleable(a.c, a.c.inQueue[0]) {
      var q := a.c.inQueue[0];
      assert b.h.handled == a.h.handled + [q];
      DestroyIdsAppend(a.h.handled, q);
      if q.verb == Destroy {
        assert b.s.direct == a.s.direct + [Response(a.c.nextId, 1, Success, Destroy, q.instance, [])];
      } else {
        assert b.s.direct == a.s.direct;
      }
    } else {
      assert b.s.direct == a.s.direct && b.h.handled == a.h.handled;
    }
  }

  // ---------------------------------------------------------------- what follows a failed write

  /** Between these two writes a client may lose its place: the first is not whole, and bytes of the second follow. */
  predicate Slips(w1: Write, w2: Write) {
    w1.to == w2.to && !Whole(w1) && w2.out.sent > 0
  }

  /** Only where `unmap` takes part do bytes follow a failed write to the same socket: after a failure of its own
      the writer closes the socket before it writes again. */
  predicate FailuresOk(a: System) {
    && (forall j, k :: 0 <= j < k < |a.s.wire| && Slips(a.s.wire[j], a.s.wire[k]) ==>
          a.s.wire[j].r in a.s.direct || a.s.wire[k].r in a.s.direct)
    && (forall j :: 0 <= j < |a.s.wire| && !Whole(a.s.wire[j]) && a.s.wire[j].r !in a.s.direct ==>
          a.s.wire[j].to in a.s.closed || a.writer == Invalidating(a.s.wire[j].to))
    && (a.writer.Invalidating? ==> HasFailure(a.s.wire, a.writer.client))
  }

  predicate HasFailure(ws: seq<Write>, client: Socket) {
    exists j :: 0 <= j < |ws| && ws[j].to == client && !Whole(ws[j])
  }

  lemma FailureStays(ws: seq<Write>, w: Write, client: Socket)
    requires HasFailure(ws, client) || (w.to == client && !Whole(w))
    ensures HasFailure(ws + [w], client)
  {
    if HasFailure(ws, client) {
      var j :| 0 <= j < |ws| && ws[j].to == client && !Whole(ws[j]);
      assert (ws + [w])[j] == ws[j];
    } else {
      assert (ws + [w])[|ws|] == w;
    }
  }

  lemma WritingKeepsFailures(a: System, sending: Sending)
    requires ServerEnabled(a, WriterWrites(sending)) && FailuresOk(a)
    ensures FailuresOk(ServerStepped(a, WriterWrites(sending)))
  {
    if !Completed(sending) {
      FailureStays(a.s.wire, Write(a.writer.r, a.writer.client, sending), a.writer.client);
    }
  }

  lemma ServerKeepsFailures(a: System, st: ServerStep)
    requires ServerEnabled(a, st) && FailuresOk(a)
    ensures FailuresOk(ServerStepped(a, st))
  {
    if st.WriterWrites? {
      WritingKeepsFailures(a, st.sending);
    } else {
      var b := ServerStepped(a, st);
      assert b.s.wire == a.s.wire && b.s.direct == a.s.direct;
    }
  }

  lemma ConductorKeepsFailures(a: System, st: ConductorStep)
    requires ConductorEnabled(a, st) && FailuresOk(a)
    ensures FailuresOk(ConductorStepped(a, st))
  {
    var b := ConductorStepped(a, st);
    assert b.writer == a.writer && b.s.closed == a.s.closed;
    if st.HandleNext? && a.c.inQueue[0].verb == Destroy && Handleable(a.c, a.c.inQueue[0]) {
      assert b.s.wire == a.s.wire + [FinalWrite(a, st.sending)] && b.s.direct == a.s.direct + [FinalWrite(a, st.sending).r];
      if a.writer.Invalidating? {
        FailureStays(a.s.wire, FinalWrite(a, st.sending), a.writer.client);
      }
      assert b.s.direct[|a.s.direct|] in b.s.direct && forall r :: r in a.s.direct ==> r in b.s.direct;
    } else {
      assert b.s.wire == a.s.wire && b.s.direct == a.s.direct;
    }
  }

  lemma StepKeepsFailures(a: System, step: Step)
    requires Enabled(a, step) && FailuresOk(a)
    ensures FailuresOk(Apply(a, step))
  {
    match step
    case OfServer(st) => ServerKeepsFailures(a, st);
    case OfConductor(st) => ConductorKeepsFailures(a, st);
    case OfWorker(i, st) =>
  }

  // ---------------------------------------------------------------- the list of clients

  /** The clients that were accepted and not yet closed, in order. */
  function Open(accepted: seq<Socket>, closed: set<Socket>): seq<Socket> {
    if accepted == [] then [] else
      (if accepted[0] in closed then [] else [accepted[0]]) + Open(accepted[1..], closed)
  }

  predicate Distinct(s: seq<Socket>) {
    forall j, k :: 0 <= j < k < |s| ==> s[j] != s[k]
  }

  lemma {:induction false} OpenOneMore(accepted: seq<Socket>, closed: set<Socket>, client: Socket)
    requires client !in closed
    ensures Open(accepted + [client], closed) == Open(accepted, closed) + [client]
  {
    if accepted == [] {
      assert [client][1..] == [];
    } else {
      OpenOneMore(accepted[1..], closed, client);
      assert (accepted + [client])[1..] == accepted[1..] + [client];
    }
  }

  lemma {:induction false} OpenIsPart(accepted: seq<Socket>, closed: set<Socket>)
    ensures forall c :: c in Open(accepted, closed) <==> c in accepted && c !in closed
  {
    if accepted != [] {
      OpenIsPart(accepted[1..], closed);
      assert accepted == [accepted[0]] + accepted[1..];
    }
  }

  lemma {:induction false} OpenOneLess(accepted: seq<Socket>, closed: set<Socket>, client: Socket)
    requires Distinct(accepted)
    ensures Open(accepted, closed + {client}) == RemoveFirst(Open(accepted, closed), client)
  {
    if accepted != [] {
      OpenOneLess(accepted[1..], closed, client);
      var first, rest := accepted[0], Open(accepted[1..], closed);
      if first in closed {
        assert [] + rest == rest;
        assert [] + RemoveFirst(rest, client) == RemoveFirst(rest, client);
      } else {
        assert ([first] + rest)[0] == first && ([first] + rest)[1..] == rest;
        if first == client {
          OpenIsPart(accepted[1..], closed);
          assert client !in accepted[1..];
          RemoveFirstRemovesNone(rest, client);
          assert [] + rest == rest;
        }
      }
    }
  }

  predicate KnownOrDefault(a: System, client: Socket) {
    client == 0 || client in a.h.accepted
  }

  /** `clients_` holds the accepted clients that were not invalidated, in order of acceptance. */
  predicate ClientsOk(a: System) {
    && a.s.clients == Open(a.h.accepted, a.s.closed) && Distinct(a.h.accepted)
    && (forall c :: c in a.s.closed ==> KnownOrDefault(a, c))
    && (forall k :: 0 <= k < |a.h.owner| ==> a.h.owner[k] in a.h.accepted)
    && (a.writer.Invalidating? ==> KnownOrDefault(a, a.writer.client))
  }

  lemma StepKeepsClients(a: System, step: Step)
    requires Enabled(a, step) && ClientsOk(a) && HandOk(a)
    ensures ClientsOk(Apply(a, step))
  {
    match step
    case OfServer(st) => ServerKeepsClients(a, st);
    case OfConductor(st) =>
      var b := ConductorStepped(a, st);
      assert b.s.clients == a.s.clients && b.s.closed == a.s.closed && b.writer == a.writer;
    case OfWorker(i, st) =>
  }

  lemma ServerKeepsClients(a: System, st: ServerStep)
    requires ServerEnabled(a, st) && ClientsOk(a) && HandOk(a)
    ensures ClientsOk(ServerStepped(a, st))
  {
    var b := ServerStepped(a, st);
    match st
    case AcceptClient(client) =>
      OpenOneMore(a.h.accepted, a.s.closed, client);
      assert forall c :: c in a.h.accepted ==> c in b.h.accepted;
    case WriterInvalidates => OpenOneLess(a.h.accepted, a.s.closed, a.writer.client);
    case InvalidateClient(client) => OpenOneLess(a.h.accepted, a.s.closed, client);
    case _ => assert b.s.clients == a.s.clients && b.s.closed == a.s.closed;
  }

  // ---------------------------------------------------------------- what an unmapped creator still gets

  /** The writes of responses of instance `i` to `socket`. */
  function WritesFor(ws: seq<Write>, i: nat, socket: Socket): seq<Write> {
    if ws == [] then [] else
      var last := |ws| - 1;
      WritesFor(ws[..last], i, socket) + if ws[last].r.instance == i && ws[last].to == socket then [ws[last]] else []
  }

  lemma {:induction false} WritesForConcat(a: seq<Write>, b: seq<Write>, i: nat, socket: Socket)
    ensures WritesFor(a + b, i, socket) == WritesFor(a, i, socket) + WritesFor(b, i, socket)
  {
    if b == [] {
      assert a + b == a;
    } else {
      var last := |b| - 1;
      WritesForConcat(a, b[..last], i, socket);
      assert (a + b)[..|a + b| - 1] == a + b[..last];
    }
  }

  /** Instance `i` is not, or no longer, mapped to its creator. */
  predicate Gone(a: System, i: nat) {
    i < |a.h.owner| && !StillMapped(a, i)
  }

  /** `late` is what was written for instance `i` to its creator on the way from `a` to `b`: nothing, or the one
      response the writer held at `a`. */
  predicate AtMostInHand(a: System, late: seq<Write>, b: System, i: nat) {
    if !HoldsFor(a, i) then late == [] && !HoldsFor(b, i)
    else (late == [] && b.writer == a.writer) || (|late| == 1 && late[0].r == a.writer.r && !HoldsFor(b, i))
  }

  lemma StepWritesAtMostInHand(a: System, step: Step, i: nat)
    requires Enabled(a, step) && RoutesOk(a) && Gone(a, i) && |a.h.owner| == a.s.nextId
    ensures AtMostInHand(a, WritesFor(WritesOf(a, step), i, a.h.owner[i]), Apply(a, step), i)
  {
    MappingNeverReturns(a, step, i);
    if step.OfServer? && step.server.WriterPops? {
      PoppedForCreator(a, step.server.k, i);
    }
    var none: seq<Write> := [];
    assert forall w: Write :: [w][..0] == none && none + [w] == [w];
  }

  lemma LaterWrites(a: System, x: seq<Write>, b: System, y: seq<Write>, c: System, i: nat)
    requires i < |a.h.owner| && i < |b.h.owner| && b.h.owner[i] == a.h.owner[i]
    requires AtMostInHand(a, x, b, i) && AtMostInHand(b, y, c, i)
    ensures AtMostInHand(a, x + y, c, i)
  {
  }
}
