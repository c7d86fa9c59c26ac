/** What every step of the router keeps. */
module Invariants {
  import opened Messages
  import opened Sequences
  import opened Splitting
  import opened Pipeline
  import opened Wire
  import opened Servers
  import opened Conductors
  import opened Router

  // ---------------------------------------------------------------- responses in the queues

  /** Only sertop's own messages have the low priority. */
  predicate PriorityFits(r: Response) {
    r.priority == (if r.verb == Forward then 0 else 1)
  }

  predicate PrioritiesFit(rs: seq<Response>) {
    forall k :: 0 <= k < |rs| ==> PriorityFits(rs[k])
  }

  predicate QueuesInOrder(p: Pipe) {
    Accounted(p) && CreateFirst(p.Queued()) && CreateFirst(p.popped) && PrioritiesFit(p.Queued())
  }

  ghost predicate QueuesOk(a: System) {
    && QueuesInOrder(PipeOf(a))
    && (forall priority :: Fifo(PipeOf(a), OfPriority(priority)))
    && (forall i :: Fifo(PipeOf(a), ForwardsOf(i)))
  }

  lemma QueueIsPartOfQueued(p: Pipe, r: Response)
    requires Accounted(p) && (r in p.queue || r in p.popped)
    ensures r in p.Queued()
  {
    assert r in multiset(p.handed);
    assert r in p.handed;
  }

  lemma PrioritiesFitQueue(p: Pipe)
    requires Accounted(p) && PrioritiesFit(p.Queued())
    ensures PrioritiesFit(p.queue) && AtMostOne(p.Queued())
  {
    forall k | 0 <= k < |p.queue| ensures PriorityFits(p.queue[k]) {
      QueueIsPartOfQueued(p, p.queue[k]);
    }
  }

  lemma ActionKeepsOrder(p: Pipe, action: Action)
    requires Possible(p, action) && QueuesInOrder(p) && MayEmit(p, action)
    ensures QueuesInOrder(Act(p, action))
  {
    ActionExtendsQueued(p, action);
    match action
    case Keeps =>
    case Emits(r) =>
      EmitKeepsAccounts(p, r);
      CreateFirstAppend(p.Queued(), r);
    case EmitsDirectly(r) => EmitDirectKeepsAccounts(p, r);
    case HandsOver => HandOverKeepsAccounts(p);
    case Pops(k) =>
      PrioritiesFitQueue(p);
      PopKeepsAccounts(p, k);
      PopKeepsCreateFirst(p, k);
  }

  lemma ActionKeepsFifo(p: Pipe, action: Action, sel: Selector)
    requires Possible(p, action) && QueuesInOrder(p) && Fifo(p, sel) && (sel.OfPriority? || sel.ForwardsOf?)
    ensures Fifo(Act(p, action), sel)
  {
    match action
    case Keeps =>
    case Emits(r) =>
    case EmitsDirectly(r) =>
    case HandsOver => HandOverKeepsFifo(p, sel);
    case Pops(k) =>
      PrioritiesFitQueue(p);
      PopKeepsFifo(p, k, sel);
  }

  predicate MayEmit(p: Pipe, action: Action) {
    action.Emits? ==> PriorityFits(action.r) && (action.r.verb == Create || HasCreate(p.Queued(), action.r.instance))
  }

  lemma CallbacksMayEmit(a: System, step: Step)
    requires Enabled(a, step) && LivesOk(a)
    ensures MayEmit(PipeOf(a), ActionOf(a, step))
  {
    if step.OfWorker? {
      assert HasCreate(Queued(a), step.i);
    }
  }

  lemma StepKeepsQueues(a: System, step: Step)
    requires Enabled(a, step) && QueuesOk(a) && MayEmit(PipeOf(a), ActionOf(a, step))
    ensures QueuesOk(Apply(a, step))
  {
    StepActs(a, step);
    ActionKeepsQueues(PipeOf(a), ActionOf(a, step));
  }

  lemma ActionKeepsQueues(p: Pipe, action: Action)
    requires Possible(p, action) && QueuesInOrder(p) && MayEmit(p, action)
    requires forall priority :: Fifo(p, OfPriority(priority))
    requires forall i :: Fifo(p, ForwardsOf(i))
    ensures QueuesInOrder(Act(p, action))
    ensures forall priority :: Fifo(Act(p, action), OfPriority(priority))
    ensures forall i :: Fifo(Act(p, action), ForwardsOf(i))
  {
    ActionKeepsOrder(p, action);
    forall priority ensures Fifo(Act(p, action), OfPriority(priority)) {
      ActionKeepsFifo(p, action, OfPriority(priority));
    }
    forall i ensures Fifo(Act(p, action), ForwardsOf(i)) {
      ActionKeepsFifo(p, action, ForwardsOf(i));
    }
  }

  // ---------------------------------------------------------------- requests

  function CreateIds(qs: seq<Request>): seq<nat> {
    if qs == [] then [] else
      var last := |qs| - 1;
      CreateIds(qs[..last]) + if qs[last].verb == Create then [qs[last].instance] else []
  }

  function DestroyIds(qs: seq<Request>): seq<nat> {
    if qs == [] then [] else
      var last := |qs| - 1;
      DestroyIds(qs[..last]) + if qs[last].verb == Destroy then [qs[last].instance] else []
  }

  lemma DestroyIdsAppend(qs: seq<Request>, q: Request)
    ensures DestroyIds(qs + [q]) == if q.verb == Destroy then DestroyIds(qs) + [q.instance] else DestroyIds(qs)
  {
    assert (qs + [q])[..|qs|] == qs;
    assert DestroyIds(qs) + [] == DestroyIds(qs);
  }

  function Upto(n: nat): seq<nat> {
    seq(n, k => k)
  }

  lemma CreateIdsAppend(qs: seq<Request>, q: Request)
    ensures CreateIds(qs + [q]) == CreateIds(qs) + if q.verb == Create then [q.instance] else []
  {
    assert (qs + [q])[..|qs|] == qs;
  }

  lemma {:induction false} CreateIdsConcat(a: seq<Request>, b: seq<Request>)
    ensures CreateIds(a + b) == CreateIds(a) + CreateIds(b)
  {
    if b == [] {
      assert a + b == a;
    } else {
      var last := |b| - 1;
      CreateIdsConcat(a, b[..last]);
      assert (a + b)[..|a + b| - 1] == a + b[..last];
    }
  }

  /** No request is lost or handled twice, and create requests are numbered 0, 1, 2, ... as they arrive. */
  predicate RequestsOk(a: System) {
    && a.h.received == a.h.handled + a.c.inQueue
    && |a.reading| <= 1
    && CreateIds(a.h.received + a.reading) == Upto(a.s.nextId)
    && |a.h.owner| == a.s.nextId
    && (a.phase == HandOvers ==> a.c.inQueue == [])
  }

  lemma StepKeepsRequests(a: System, step: Step)
    requires Enabled(a, step) && RequestsOk(a)
    ensures RequestsOk(Apply(a, step))
  {
    match step
    case OfServer(st) => ServerKeepsRequests(a, st);
    case OfConductor(st) => ConductorKeepsRequests(a, st);
    case OfWorker(i, st) =>
  }

  lemma ServerKeepsRequests(a: System, st: ServerStep)
    requires ServerEnabled(a, st) && RequestsOk(a)
    ensures RequestsOk(ServerStepped(a, st))
  {
    if st.ReadRequest? {
      assert a.h.received + a.reading == a.h.received;
      CreateIdsAppend(a.h.received, Numbered(a.s, st.q));
    }
  }

  lemma ConductorKeepsRequests(a: System, st: ConductorStep)
    requires ConductorEnabled(a, st) && RequestsOk(a)
    ensures RequestsOk(ConductorStepped(a, st))
  {
    if st.HandleNext? {
      HandlingKeepsRequests(a, st.outcome, st.sending);
    } else if st.PushRequest? {
      PushingKeepsRequests(a);
    }
  }

  lemma HandlingKeepsRequests(a: System, outcome: Outcome, sending: Sending)
    requires a.c.inQueue != [] && a.phase == Batch && RequestsOk(a)
    ensures RequestsOk(FrontHandled(a, outcome, sending))
  {
    assert a.h.handled + a.c.inQueue == a.h.handled + [a.c.inQueue[0]] + a.c.inQueue[1..];
  }

  lemma Moved(handled: seq<Request>, waiting: seq<Request>, reading: seq<Request>)
    ensures handled + (waiting + reading) == handled + waiting + reading
    ensures handled + waiting + reading + [] == handled + waiting + reading
  {
  }

  lemma PushingKeepsRequests(a: System)
    requires ConductorEnabled(a, PushRequest) && RequestsOk(a)
    ensures RequestsOk(ConductorStepped(a, PushRequest))
  {
    Moved(a.h.handled, a.c.inQueue, a.reading);
    var b := ConductorStepped(a, PushRequest);
    assert b.h.received + b.reading == a.h.received + a.reading;
    assert b.h.received == b.h.handled + b.c.inQueue;
  }

  lemma PrefixOfUpto(x: seq<nat>, y: seq<nat>, n: nat)
    requires x + y == Upto(n)
    ensures x <= Upto(n)
    ensures y != [] ==> y[0] !in x && y[0] < n
  {
    if y != [] {
      assert (x + y)[|x|] == y[0];
      assert forall k :: 0 <= k < |x| ==> (x + y)[k] == x[k];
    }
  }

  /** Every instance named by a handled create request was numbered by the server; the next one is new. */
  lemma HandledCreatesAreNumbered(a: System)
    requires RequestsOk(a)
    ensures CreateIds(a.h.handled) <= Upto(a.s.nextId)
    ensures a.c.inQueue != [] && a.c.inQueue[0].verb == Create ==>
      a.c.inQueue[0].instance !in CreateIds(a.h.handled) && a.c.inQueue[0].instance < a.s.nextId
  {
    var rest := a.c.inQueue + a.reading;
    assert a.h.received + a.reading == a.h.handled + rest;
    CreateIdsConcat(a.h.handled, rest);
    PrefixOfUpto(CreateIds(a.h.handled), CreateIds(rest), a.s.nextId);
    if a.c.inQueue != [] && rest[0].verb == Create {
      FirstCreate(rest);
    }
  }

  lemma FirstCreate(qs: seq<Request>)
    requires qs != [] && qs[0].verb == Create
    ensures CreateIds(qs) != [] && CreateIds(qs)[0] == qs[0].instance
  {
    assert qs == [qs[0]] + qs[1..];
    CreateIdsConcat([qs[0]], qs[1..]);
    assert [qs[0]][..0] == [];
  }

  // ---------------------------------------------------------------- instances and their workers

  function Instances(rs: seq<Response>): seq<nat> {
    seq(|rs|, k requires 0 <= k < |rs| => rs[k].instance)
  }

  /** A queued response belongs to an instance whose create request was handled; a create response says
      success exactly if a worker was built, and nothing else is said about an instance without one. */
  predicate ReplyFits(r: Response, built: set<nat>, creates: seq<nat>) {
    && r.instance in creates
    && (r.verb == Create && r.status == Failure <==> r.instance !in built)
  }

  ghost predicate Lives(workers: set<nat>, built: set<nat>, queued: seq<Response>, creates: seq<nat>) {
    && workers <= built
    && (forall i :: i in built ==> HasCreate(queued, i))
    && (forall i :: i !in built ==> Pick(queued, ForwardsOf(i)) == [])
    && Instances(Pick(queued, Creates)) == creates
    && (forall k :: 0 <= k < |queued| ==> ReplyFits(queued[k], built, creates))
  }

  ghost predicate LivesOk(a: System) {
    Lives(a.c.workers, a.sertops.Keys, Queued(a), CreateIds(a.h.handled))
  }

  lemma BuiltIsHandled(workers: set<nat>, built: set<nat>, queued: seq<Response>, creates: seq<nat>)
    requires Lives(workers, built, queued, creates)
    ensures forall i :: i in built ==> i in creates
  {
    forall i | i in built ensures i in creates {
      var k :| 0 <= k < |queued| && IsCreate(queued[k], i);
      assert ReplyFits(queued[k], built, creates);
    }
  }

  lemma HasCreateAppend(s: seq<Response>, r: Response, i: nat)
    requires HasCreate(s, i) || IsCreate(r, i)
    ensures HasCreate(s + [r], i)
  {
    if HasCreate(s, i) {
      var k :| 0 <= k < |s| && IsCreate(s[k], i);
      assert IsCreate((s + [r])[k], i);
    } else {
      assert IsCreate((s + [r])[|s|], i);
    }
  }

  lemma CallbackKeepsLives(workers: set<nat>, built: set<nat>, queued: seq<Response>, creates: seq<nat>, r: Response)
    requires Lives(workers, built, queued, creates) && r.verb != Create && r.instance in built
    ensures Lives(workers, built, queued + [r], creates)
  {
    BuiltIsHandled(workers, built, queued, creates);
    forall i | i in built ensures HasCreate(queued + [r], i) {
      HasCreateAppend(queued, r, i);
    }
    forall i | i !in built ensures Pick(queued + [r], ForwardsOf(i)) == [] {
      PickAppend(queued, r, ForwardsOf(i));
    }
    PickAppend(queued, r, Creates);
  }

  lemma CreateKeepsLives(workers: set<nat>, built: set<nat>, queued: seq<Response>, creates: seq<nat>, id: nat, i: nat, outcome: Outcome)
    requires Lives(workers, built, queued, creates) && i !in creates
    ensures Lives(workers + NewlyBuilt(i, outcome), built + NewlyBuilt(i, outcome), queued + [CreateReply(id, i, outcome)], creates + [i])
  {
    var r := CreateReply(id, i, outcome);
    var built' := built + NewlyBuilt(i, outcome);
    BuiltIsHandled(workers, built, queued, creates);
    forall j | j in built' ensures HasCreate(queued + [r], j) {
      HasCreateAppend(queued, r, j);
    }
    forall j | j !in built' ensures Pick(queued + [r], ForwardsOf(j)) == [] {
      PickAppend(queued, r, ForwardsOf(j));
    }
    PickAppend(queued, r, Creates);
    forall k | 0 <= k < |queued + [r]| ensures ReplyFits((queued + [r])[k], built', creates + [i]) {
      assert k < |queued| ==> ReplyFits(queued[k], built, creates);
    }
  }

  lemma WorkersMayGo(workers: set<nat>, built: set<nat>, queued: seq<Response>, creates: seq<nat>, fewer: set<nat>)
    requires Lives(workers, built, queued, creates) && fewer <= workers
    ensures Lives(fewer, built, queued, creates)
  {
  }

  /** A create request at the front names an instance that no handled create request named. */
  predicate FrontIsUnhandled(a: System) {
    a.c.inQueue != [] && a.c.inQueue[0].verb == Create ==> a.c.inQueue[0].instance !in CreateIds(a.h.handled)
  }

  /** Nothing of what `LivesOk` speaks of changes. */
  predicate SameLives(a: System, b: System) {
    && b.c.workers == a.c.workers && b.sertops.Keys == a.sertops.Keys
    && Queued(b) == Queued(a) && b.h.handled == a.h.handled
  }

  lemma ServerKeepsLives(a: System, st: ServerStep)
    requires Enabled(a, OfServer(st)) && LivesOk(a)
    ensures LivesOk(ServerStepped(a, st))
  {
    assert SameLives(a, ServerStepped(a, st));
  }

  lemma StepKeepsLives(a: System, step: Step)
    requires Enabled(a, step) && LivesOk(a) && FrontIsUnhandled(a)
    ensures LivesOk(Apply(a, step))
  {
    match step
    case OfServer(st) => ServerKeepsLives(a, st);
    case OfConductor(st) => ConductorKeepsLives(a, st);
    case OfWorker(i, st) => WorkerKeepsLives(a, i, st);
  }

  lemma ConductorKeepsLives(a: System, st: ConductorStep)
    requires Enabled(a, OfConductor(st)) && LivesOk(a) && FrontIsUnhandled(a)
    ensures LivesOk(ConductorStepped(a, st))
  {
    var b := ConductorStepped(a, st);
    if st.HandleNext? {
      HandlingKeepsLives(a, st.outcome, st.sending);
    } else {
      StepActs(a, OfConductor(st));
      WorkersMayGo(a.c.workers, a.sertops.Keys, Queued(a), CreateIds(a.h.handled), b.c.workers);
    }
  }

  lemma WorkerKeepsLives(a: System, i: nat, st: WorkerStep)
    requires Enabled(a, OfWorker(i, st)) && LivesOk(a)
    ensures LivesOk(WorkerStepped(a, i, st))
  {
    var b := WorkerStepped(a, i, st);
    var creates := CreateIds(a.h.handled);
    StepActs(a, OfWorker(i, st));
    assert b.sertops.Keys == a.sertops.Keys;
    WorkersMayGo(a.c.workers, a.sertops.Keys, Queued(a), creates, b.c.workers);
    var rs := CallbackReply(a.c, i, a.sertops[i], st);
    if rs != [] {
      CallbackKeepsLives(b.c.workers, a.sertops.Keys, Queued(a), creates, rs[0]);
    }
  }

  function NewlyBuilt(i: nat, outcome: Outcome): set<nat> {
    if outcome.Built? then {i} else {}
  }

  lemma CreateEffect(a: System, outcome: Outcome, sending: Sending)
    requires a.c.inQueue != [] && a.c.inQueue[0].verb == Create
    ensures var i, b := a.c.inQueue[0].instance, FrontHandled(a, outcome, sending);
            && b.sertops.Keys == a.sertops.Keys + NewlyBuilt(i, outcome)
            && b.c.workers == a.c.workers + NewlyBuilt(i, outcome)
            && CreateIds(b.h.handled) == CreateIds(a.h.handled) + [i]
            && Queued(b) == Queued(a) + [CreateReply(a.c.nextId, i, outcome)]
  {
    CreateIdsAppend(a.h.handled, a.c.inQueue[0]);
    var i, b := a.c.inQueue[0].instance, FrontHandled(a, outcome, sending);
    if outcome.Built? {
      assert b.sertops.Keys == a.sertops.Keys + {i};
    } else {
      assert a.sertops.Keys + {} == a.sertops.Keys && a.c.workers + {} == a.c.workers;
    }
  }

  lemma OtherEffect(a: System, outcome: Outcome, sending: Sending)
    requires a.c.inQueue != [] && a.c.inQueue[0].verb != Create
    ensures var b := FrontHandled(a, outcome, sending);
            && b.sertops.Keys == a.sertops.Keys
            && b.c.workers <= a.c.workers
            && CreateIds(b.h.handled) == CreateIds(a.h.handled)
            && Queued(b) == Queued(a)
  {
    CreateIdsAppend(a.h.handled, a.c.inQueue[0]);
    var ids := CreateIds(a.h.handled);
    assert ids + [] == ids;
  }

  lemma HandlingKeepsLives(a: System, outcome: Outcome, sending: Sending)
    requires a.c.inQueue != [] && LivesOk(a) && FrontIsUnhandled(a)
    ensures LivesOk(FrontHandled(a, outcome, sending))
  {
    var b, creates := FrontHandled(a, outcome, sending), CreateIds(a.h.handled);
    if a.c.inQueue[0].verb == Create {
      var i := a.c.inQueue[0].instance;
      CreateKeepsLives(a.c.workers, a.sertops.Keys, Queued(a), creates, a.c.nextId, i, outcome);
      CreateEffect(a, outcome, sending);
    } else {
      OtherEffect(a, outcome, sending);
      WorkersMayGo(a.c.workers, a.sertops.Keys, Queued(a), creates, b.c.workers);
    }
  }
}
