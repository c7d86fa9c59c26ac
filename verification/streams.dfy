/** Sertop's output and input streams as the router carries them. */
module Streams {
  import opened Messages
  import opened Sequences
  import opened Splitting
  import opened Pipeline
  import opened Wire
  import opened Servers
  import opened Conductors
  import opened Router
  import opened Invariants

  // ---------------------------------------------------------------- from sertop to the queues

  function Contents(rs: seq<Response>): seq<Bytes> {
    seq(|rs|, k requires 0 <= k < |rs| => rs[k].content)
  }

  /** The messages of what sertop printed are those made into responses, then those awaiting their callback. */
  predicate OutputOk(w: Sertop, delivered: seq<Bytes>) {
    Split(w.output) == (delivered + w.pending, w.remainder)
  }

  function Delivered(a: System, i: nat): seq<Bytes> {
    Contents(Pick(Queued(a), ForwardsOf(i)))
  }

  predicate OutputOkFor(a: System, i: nat) {
    if i in a.sertops then OutputOk(a.sertops[i], Delivered(a, i)) else Delivered(a, i) == []
  }

  ghost predicate OutputsOk(a: System) {
    forall i :: OutputOkFor(a, i)
  }

  lemma PrintingKeepsOutput(w: Sertop, chunk: Bytes, delivered: seq<Bytes>)
    requires OutputOk(w, delivered) && w.pending == []
    ensures var (messages, rest) := Split(w.remainder + chunk);
            OutputOk(w.(output := w.output + chunk, pending := messages, remainder := rest), delivered)
  {
    SplitStep(w.output, chunk);
    assert delivered + [] == delivered;
  }

  lemma CallbackKeepsOutput(w: Sertop, delivered: seq<Bytes>)
    requires OutputOk(w, delivered) && w.pending != []
    ensures OutputOk(w.(pending := w.pending[1..]), delivered + [w.pending[0]])
  {
    assert delivered + [w.pending[0]] + w.pending[1..] == delivered + w.pending;
  }

  lemma DeliveredAfter(a: System, step: Step, i: nat)
    requires Enabled(a, step)
    ensures var rs := EmittedBy(ActionOf(a, step));
            Delivered(Apply(a, step), i) ==
            if rs != [] && Picks(ForwardsOf(i), rs[0]) then Delivered(a, i) + [rs[0].content] else Delivered(a, i)
  {
    StepActs(a, step);
    if ActionOf(a, step).Emits? {
      PickAppend(Queued(a), ActionOf(a, step).r, ForwardsOf(i));
      assert Pick(Queued(a), ForwardsOf(i)) + [] == Pick(Queued(a), ForwardsOf(i));
    }
  }

  /** A create request at the front names an instance that no worker was built for. */
  predicate FrontIsNew(a: System) {
    a.c.inQueue != [] && a.c.inQueue[0].verb == Create ==> a.c.inQueue[0].instance !in a.sertops
  }

  lemma NewIsUnbuilt(a: System)
    requires LivesOk(a) && RequestsOk(a)
    ensures FrontIsNew(a) && FrontIsUnhandled(a)
  {
    HandledCreatesAreNumbered(a);
    BuiltIsHandled(a.c.workers, a.sertops.Keys, Queued(a), CreateIds(a.h.handled));
  }

  lemma StepKeepsOutput(a: System, step: Step, i: nat)
    requires Enabled(a, step) && OutputOkFor(a, i) && FrontIsNew(a)
    ensures OutputOkFor(Apply(a, step), i)
  {
    match step
    case OfServer(st) => ServerKeepsOutput(a, st, i);
    case OfConductor(st) => ConductorKeepsOutput(a, st, i);
    case OfWorker(j, st) => WorkerKeepsOutput(a, j, st, i);
  }

  lemma ServerKeepsOutput(a: System, st: ServerStep, i: nat)
    requires Enabled(a, OfServer(st)) && OutputOkFor(a, i)
    ensures OutputOkFor(ServerStepped(a, st), i)
  {
    DeliveredAfter(a, OfServer(st), i);
    assert ServerStepped(a, st).sertops == a.sertops;
  }

  lemma ConductorKeepsOutput(a: System, st: ConductorStep, i: nat)
    requires Enabled(a, OfConductor(st)) && OutputOkFor(a, i) && FrontIsNew(a)
    ensures OutputOkFor(ConductorStepped(a, st), i)
  {
    DeliveredAfter(a, OfConductor(st), i);
    ConductorKeepsSertopOutput(a, st, i);
  }

  lemma ConductorKeepsSertopOutput(a: System, st: ConductorStep, i: nat)
    requires ConductorEnabled(a, st) && FrontIsNew(a)
    ensures var b := ConductorStepped(a, st);
            if i in a.sertops then
              i in b.sertops && forall delivered :: OutputOk(a.sertops[i], delivered) ==> OutputOk(b.sertops[i], delivered)
            else i in b.sertops ==> b.sertops[i] == NewSertop
    ensures OutputOk(NewSertop, [])
  {
    var none: seq<Bytes> := [];
    assert none + none == none;
  }

  lemma WorkerKeepsOutput(a: System, j: nat, st: WorkerStep, i: nat)
    requires Enabled(a, OfWorker(j, st)) && OutputOkFor(a, i)
    ensures OutputOkFor(WorkerStepped(a, j, st), i)
  {
    DeliveredAfter(a, OfWorker(j, st), i);
    if i == j {
      var w := a.sertops[i];
      if st.Prints? {
        PrintingKeepsOutput(w, st.chunk, Delivered(a, i));
      } else if st.DeliverResponse? {
        CallbackKeepsOutput(w, Delivered(a, i));
      }
    }
  }

  // ---------------------------------------------------------------- from requests to sertop

  /** Written, being written and waiting: together the forwarded requests, in order, byte for byte. */
  predicate InputOk(w: Sertop, forwarded: seq<Bytes>) {
    w.stdin + w.unwritten + Flat(w.inputs) == Flat(forwarded)
  }

  predicate InputOkFor(a: System, i: nat) {
    if i in a.sertops then InputOk(a.sertops[i], ForwardedTo(a.h.handled, i)) else ForwardedTo(a.h.handled, i) == []
  }

  ghost predicate InputsOk(a: System) {
    forall i :: InputOkFor(a, i)
  }

  lemma WritingKeepsInput(a: System, w: Sertop, st: WorkerStep, forwarded: seq<Bytes>)
    requires WorkerEnabled(a, w, st) && InputOk(w, forwarded)
    ensures InputOk(SertopStepped(a, w, st), forwarded)
  {
    if st.TakeInput? {
      FlatPrepend(w.inputs[0], w.inputs[1..]);
      assert [w.inputs[0]] + w.inputs[1..] == w.inputs;
      assert w.stdin + [] == w.stdin;
    } else if st.WriteInput? {
      assert w.stdin + w.unwritten[..st.n] + w.unwritten[st.n..] == w.stdin + w.unwritten;
    }
  }

  lemma ForwardingKeepsInput(w: Sertop, forwarded: seq<Bytes>, content: Bytes)
    requires InputOk(w, forwarded)
    ensures InputOk(w.(inputs := w.inputs + [content]), forwarded + [content])
  {
    FlatAppend(w.inputs, content);
    FlatAppend(forwarded, content);
  }

  predicate ForwardsTo(q: Request, i: nat) {
    q.verb == Forward && q.instance == i
  }

  /** What handling the front request does to the worker of instance `i`. */
  lemma SertopAfterHandling(a: System, outcome: Outcome, sending: Sending, i: nat)
    requires a.c.inQueue != [] && FrontIsNew(a) && a.c.workers <= a.sertops.Keys
    ensures var q, b := a.c.inQueue[0], FrontHandled(a, outcome, sending);
            if !Handleable(a.c, q) then b.sertops == a.sertops && b.h.handled == a.h.handled
            else if i in a.sertops then
              && b.h.handled == a.h.handled + [q] && i in b.sertops
              && b.sertops[i] == if ForwardsTo(q, i) then a.sertops[i].(inputs := a.sertops[i].inputs + [q.content]) else a.sertops[i]
            else
              b.h.handled == a.h.handled + [q] && !ForwardsTo(q, i) && (i in b.sertops ==> b.sertops[i] == NewSertop)
  {
  }

  lemma HandlingKeepsInput(a: System, outcome: Outcome, sending: Sending, i: nat)
    requires a.c.inQueue != [] && InputOkFor(a, i) && FrontIsNew(a) && a.c.workers <= a.sertops.Keys
    ensures InputOkFor(FrontHandled(a, outcome, sending), i)
  {
    var q := a.c.inQueue[0];
    SertopAfterHandling(a, outcome, sending, i);
    ForwardedToAppend(a.h.handled, q, i);
    if ForwardsTo(q, i) {
      if i in a.sertops {
        ForwardingKeepsInput(a.sertops[i], ForwardedTo(a.h.handled, i), q.content);
      }
    } else {
      assert ForwardedTo(a.h.handled, i) + [] == ForwardedTo(a.h.handled, i);
    }
  }

  lemma StepKeepsInput(a: System, step: Step, i: nat)
    requires Enabled(a, step) && InputOkFor(a, i) && FrontIsNew(a) && a.c.workers <= a.sertops.Keys
    ensures InputOkFor(Apply(a, step), i)
  {
    match step
    case OfServer(st) =>
    case OfConductor(st) => ConductorKeepsInput(a, st, i);
    case OfWorker(j, st) => WorkerKeepsInput(a, j, st, i);
  }

  lemma ConductorKeepsInput(a: System, st: ConductorStep, i: nat)
    requires ConductorEnabled(a, st) && InputOkFor(a, i) && FrontIsNew(a) && a.c.workers <= a.sertops.Keys
    ensures InputOkFor(ConductorStepped(a, st), i)
  {
    if st.HandleNext? {
      HandlingKeepsInput(a, st.outcome, st.sending, i);
    }
  }

  lemma WorkerKeepsInput(a: System, j: nat, st: WorkerStep, i: nat)
    requires Enabled(a, OfWorker(j, st)) && InputOkFor(a, i)
    ensures InputOkFor(WorkerStepped(a, j, st), i)
  {
    if i == j {
      WritingKeepsInput(a, a.sertops[i], st, ForwardedTo(a.h.handled, i));
    }
  }

  lemma StepKeepsStreams(a: System, step: Step)
    requires Enabled(a, step) && OutputsOk(a) && InputsOk(a) && FrontIsNew(a) && a.c.workers <= a.sertops.Keys
    ensures OutputsOk(Apply(a, step)) && InputsOk(Apply(a, step))
  {
    forall i ensures OutputOkFor(Apply(a, step), i) && InputOkFor(Apply(a, step), i) {
      assert OutputOkFor(a, i) && InputOkFor(a, i);
      StepKeepsOutput(a, step, i);
      StepKeepsInput(a, step, i);
    }
  }
}
