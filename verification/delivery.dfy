/** From what sertop prints to what the client decodes, and from requests to what sertop reads. */
module Delivery {
  import opened Messages
  import opened Sequences
  import opened Splitting
  import opened Framing
  import opened Wire
  import opened Pipeline
  import opened Servers
  import opened Conductors
  import opened Router
  import opened Invariants
  import opened Streams
  import opened Routing
  import opened Runs
  import Causes

  // ---------------------------------------------------------------- from sertop to the writer

  function PrintedBy(step: Step, i: nat): Bytes {
    if step.OfWorker? && step.worker.Prints? && step.i == i then step.worker.chunk else []
  }

  /** All that sertop `i` prints during the steps, whatever the chunks. */
  function Printed(steps: seq<Step>, i: nat): Bytes {
    if steps == [] then [] else PrintedBy(steps[0], i) + Printed(steps[1..], i)
  }

  function OutputOf(a: System, i: nat): Bytes {
    if i in a.sertops then a.sertops[i].output else []
  }

  lemma OutputAfterStep(a: System, step: Step, i: nat)
    requires Enabled(a, step) && FrontIsNew(a)
    ensures OutputOf(Apply(a, step), i) == OutputOf(a, i) + PrintedBy(step, i)
  {
    assert OutputOf(a, i) + [] == OutputOf(a, i);
    match step
    case OfServer(st) => assert ServerStepped(a, st).sertops == a.sertops;
    case OfConductor(st) => ConductorOutput(a, st, i);
    case OfWorker(j, st) => WorkerOutput(a, j, st, i);
  }

  lemma ConductorOutput(a: System, st: ConductorStep, i: nat)
    requires ConductorEnabled(a, st) && FrontIsNew(a)
    ensures OutputOf(ConductorStepped(a, st), i) == OutputOf(a, i)
  {
  }

  lemma WorkerOutput(a: System, j: nat, st: WorkerStep, i: nat)
    requires Enabled(a, OfWorker(j, st))
    ensures OutputOf(WorkerStepped(a, j, st), i) == OutputOf(a, i) + PrintedBy(OfWorker(j, st), i)
  {
    assert OutputOf(a, i) + [] == OutputOf(a, i);
  }

  lemma {:induction false} OutputIsPrinted(a: System, steps: seq<Step>, b: System, i: nat)
    requires Reachable(a) && Run(a, steps, b)
    ensures OutputOf(b, i) == OutputOf(a, i) + Printed(steps, i)
    decreases |steps|
  {
    if steps == [] {
      assert OutputOf(a, i) + [] == OutputOf(a, i);
    } else {
      FrontsAreNew(a);
      StepStaysReachable(a, steps[0]);
      OutputIsPrinted(Apply(a, steps[0]), steps[1..], b, i);
      OutputAfterStep(a, steps[0], i);
      PrintedCons(OutputOf(a, i), steps, i);
    }
  }

  lemma PrintedCons(before: Bytes, steps: seq<Step>, i: nat)
    requires steps != []
    ensures before + PrintedBy(steps[0], i) + Printed(steps[1..], i) == before + Printed(steps, i)
  {
  }

  /** The forward responses of instance `i` that the conductor made, by the place they are in. */
  lemma PlacesOfForwards(b: System, i: nat)
    requires Reachable(b)
    ensures Pick(Queued(b), ForwardsOf(i)) ==
            Pick(b.s.popped, ForwardsOf(i)) + Pick(b.s.responseQueue, ForwardsOf(i)) + Pick(b.c.outQueue, ForwardsOf(i))
    ensures OutputOkFor(b, i)
  {
    ReachableOk(b);
    assert Fifo(PipeOf(b), ForwardsOf(i));
    PickConcat(b.s.handed, b.c.outQueue, ForwardsOf(i));
  }

  /** The complete messages of what sertop `i` printed, whatever the chunks, the other instances and the
      interleaving, are: the contents of the forward responses popped for it, of those in the server's
      queue, of those in the out queue, and what awaits its callback, in this order. */
  lemma NothingLost(steps: seq<Step>, b: System, i: nat)
    requires Run(Init, steps, b) && i in b.sertops
    ensures MessagesOf(Printed(steps, i)) ==
            Contents(Pick(b.s.popped, ForwardsOf(i)) + Pick(b.s.responseQueue, ForwardsOf(i)) + Pick(b.c.outQueue, ForwardsOf(i))) +
            b.sertops[i].pending
  {
    InitIsReachable();
    OutputIsPrinted(Init, steps, b, i);
    assert b.sertops[i].output == Printed(steps, i);
    PlacesOfForwards(b, i);
  }

  // ---------------------------------------------------------------- from the writer to the creator

  function OwnerOf(a: System, i: nat): Socket {
    if i < |a.h.owner| then a.h.owner[i] else 0
  }

  lemma InstancesAreOwned(b: System, i: nat)
    requires RequestsOk(b) && LivesOk(b) && i in b.sertops
    ensures i < |b.h.owner|
  {
    HandledCreatesAreNumbered(b);
    BuiltIsHandled(b.c.workers, b.sertops.Keys, Queued(b), CreateIds(b.h.handled));
    var n :| 0 <= n < |CreateIds(b.h.handled)| && CreateIds(b.h.handled)[n] == i;
    assert Upto(b.s.nextId)[n] == i;
  }

  /** The creator of an instance has got the first of the responses popped for it, of whatever kind; while it is
      mapped and no write to it just failed, all of them but the one the writer holds. */
  lemma CreatorReceives(b: System, i: nat)
    requires Reachable(b) && i in b.sertops
    ensures i < |b.h.owner|
    ensures var got, popped := SentTo(b.s.wire, i, b.h.owner[i]), Pick(b.s.popped, QueuedFor(i));
            && got <= popped
            && (Served(b, i) ==> got + InHand(b, i) == popped)
            && (Served(b, i) && !HoldsFor(b, i) ==> got == popped)
  {
    RequestsAndLivesAreOk(b);
    InstancesAreOwned(b, i);
    ReceivedIsOk(b);
    assert ReceivedFor(b, i);
    var got := SentTo(b.s.wire, i, b.h.owner[i]);
    assert got + [] == got;
  }

  lemma ContentsOfPrefix(x: seq<Response>, y: seq<Response>)
    requires x <= y
    ensures Contents(x) <= Contents(y)
  {
    assert forall k :: 0 <= k < |x| ==> x[k] == y[k];
  }

  /** The contents of the forward responses of instance `i` written whole to `socket`. */
  function ForwardsSentTo(ws: seq<Write>, i: nat, socket: Socket): seq<Bytes> {
    Contents(Pick(SentTo(ws, i, socket), ForwardsOf(i)))
  }

  lemma ForwardsReceived(b: System, i: nat)
    requires Reachable(b) && i in b.sertops
    ensures Pick(SentTo(b.s.wire, i, OwnerOf(b, i)), ForwardsOf(i)) <= Pick(b.s.popped, ForwardsOf(i))
  {
    CreatorReceives(b, i);
    PickOfPrefix(SentTo(b.s.wire, i, b.h.owner[i]), Pick(b.s.popped, QueuedFor(i)), ForwardsOf(i));
    PickTwice(b.s.popped, QueuedFor(i), ForwardsOf(i));
  }

  /** What is written whole to the creator of instance `i` as its forward responses is a prefix of what sertop `i`
      said. */
  lemma ClientSeesPrefix(steps: seq<Step>, b: System, i: nat)
    requires Run(Init, steps, b) && i in b.sertops
    ensures ForwardsSentTo(b.s.wire, i, OwnerOf(b, i)) <= MessagesOf(Printed(steps, i))
  {
    NothingLost(steps, b, i);
    ForwardsReceived(b, i);
    var popped := Pick(b.s.popped, ForwardsOf(i));
    ContentsOfPrefix(Pick(SentTo(b.s.wire, i, OwnerOf(b, i)), ForwardsOf(i)), popped);
    ContentsOfPrefix(popped, popped + Pick(b.s.responseQueue, ForwardsOf(i)) + Pick(b.c.outQueue, ForwardsOf(i)));
  }

  lemma {:induction false} SentToOfSocket(ws: seq<Write>, i: nat, socket: Socket)
    ensures SentTo(WrittenTo(ws, socket), i, socket) == SentTo(ws, i, socket)
  {
    if ws != [] {
      var last := |ws| - 1;
      SentToOfSocket(ws[..last], i, socket);
      SentToAppend(WrittenTo(ws[..last], socket), ws[last], i, socket);
      assert WrittenTo(ws[..last], socket) + [] == WrittenTo(ws[..last], socket);
      assert SentTo(ws[..last], i, socket) + [] == SentTo(ws[..last], i, socket);
    }
  }

  lemma {:induction false} SentToOfPrefix(ws: seq<Write>, m: nat, i: nat, socket: Socket)
    requires m <= |ws|
    ensures SentTo(ws[..m], i, socket) <= SentTo(ws, i, socket)
  {
    if m == |ws| {
      assert ws[..m] == ws;
    } else {
      var last := |ws| - 1;
      SentToOfPrefix(ws[..last], m, i, socket);
      assert ws[..last][..m] == ws[..m];
    }
  }

  // ---------------------------------------------------------------- what the client makes of the bytes

  /** What `to_json` puts into a response: the id and the priority are not sent. */
  datatype Fields = Fields(status: Status, verb: Verb, instance: nat, content: Bytes)

  /** The contents of the forward responses of instance `i` among some payloads, as the client loads them. */
  function Heard(payloads: seq<Bytes>, load: Bytes -> Option<Fields>, i: nat): seq<Bytes> {
    if payloads == [] then [] else
      var last := |payloads| - 1;
      Heard(payloads[..last], load, i) +
      match load(payloads[last])
      case None => []
      case Some(f) => if f.verb == Forward && f.instance == i then [f.content] else []
  }

  /** The payload of a write is one that the client's library loads to what the response says. */
  predicate Loads(w: Write, load: Bytes -> Option<Fields>) {
    Short(w.out.raw) && load(w.out.raw) == Some(Fields(w.r.status, w.r.verb, w.r.instance, w.r.content))
  }

  lemma HeardAppend(payloads: seq<Bytes>, raw: Bytes, load: Bytes -> Option<Fields>, i: nat)
    requires load(raw).Some?
    ensures Heard(payloads + [raw], load, i) ==
            if load(raw).value.verb == Forward && load(raw).value.instance == i then Heard(payloads, load, i) + [load(raw).value.content]
            else Heard(payloads, load, i)
  {
    assert (payloads + [raw])[..|payloads|] == payloads;
    assert Heard(payloads, load, i) + [] == Heard(payloads, load, i);
  }

  lemma ContentsOfAppend(rs: seq<Response>, r: Response)
    ensures Contents(rs + [r]) == Contents(rs) + [r.content]
  {
  }

  lemma ContentsAppend(got: seq<Response>, r: Response, i: nat)
    ensures Contents(Pick(got + [r], ForwardsOf(i))) ==
            if Picks(ForwardsOf(i), r) then Contents(Pick(got, ForwardsOf(i))) + [r.content] else Contents(Pick(got, ForwardsOf(i)))
  {
    PickAppend(got, r, ForwardsOf(i));
    if Picks(ForwardsOf(i), r) {
      ContentsOfAppend(Pick(got, ForwardsOf(i)), r);
    } else {
      assert Pick(got, ForwardsOf(i)) + [] == Pick(got, ForwardsOf(i));
    }
  }

  lemma SentForwardsAppend(ws: seq<Write>, w: Write, i: nat, socket: Socket)
    requires Whole(w) && w.to == socket
    ensures ForwardsSentTo(ws + [w], i, socket) ==
            if Picks(ForwardsOf(i), w.r) then ForwardsSentTo(ws, i, socket) + [w.r.content] else ForwardsSentTo(ws, i, socket)
  {
    SentToAppend(ws, w, i, socket);
    if Picks(QueuedFor(i), w.r) {
      ContentsAppend(SentTo(ws, i, socket), w.r, i);
    }
  }

  lemma {:induction false} HeardIsSent(ws: seq<Write>, load: Bytes -> Option<Fields>, i: nat, socket: Socket)
    requires forall k :: 0 <= k < |ws| ==> Loads(ws[k], load) && Whole(ws[k]) && ws[k].to == socket
    ensures Heard(Raws(ws), load, i) == ForwardsSentTo(ws, i, socket)
  {
    if ws != [] {
      var before, last := ws[..|ws| - 1], ws[|ws| - 1];
      HeardIsSent(before, load, i, socket);
      assert ws == before + [last] && Raws(ws) == Raws(before) + [last.out.raw];
      HeardAppend(Raws(before), last.out.raw, load, i);
      SentForwardsAppend(before, last, i, socket);
    }
  }

  lemma ShortBodies(ws: seq<Write>)
    requires forall k :: 0 <= k < |ws| ==> Short(ws[k].out.raw)
    ensures Bodies(Raws(ws)) == Raws(ws)
  {
    BodiesAreWhole(Raws(ws));
  }

  /** Of the first `n` bytes that reach the client through these writes, those payloads can be decoded that a
      beginning of the writes carried whole. */
  lemma HeardOfBytes(ws: seq<Write>, n: nat, load: Bytes -> Option<Fields>, i: nat, socket: Socket)
    requires forall k :: 0 <= k < |ws| ==> Loads(ws[k], load) && ws[k].to == socket
    requires NothingAfterFailure(ws) && n <= |Arrived(ws)|
    ensures Heard(DecodeAll(Arrived(ws)[..n]).0, load, i) <= ForwardsSentTo(ws, i, socket)
  {
    ClientDecodes(ws, n);
    var got := DecodeAll(Arrived(ws)[..n]).0;
    var m := |got|;
    ShortBodies(ws[..m]);
    HeardIsSent(ws[..m], load, i, socket);
    SentToOfPrefix(ws, m, i, socket);
    PickOfPrefix(SentTo(ws[..m], i, socket), SentTo(ws, i, socket), ForwardsOf(i));
    ContentsOfPrefix(Pick(SentTo(ws[..m], i, socket), ForwardsOf(i)), Pick(SentTo(ws, i, socket), ForwardsOf(i)));
  }

  /** From sertop's bytes to the client's. Take the bytes that reached the creator of instance `i`, cut anywhere,
      and decode them: the contents of the forward responses of `i` are the first messages that sertop `i` printed,
      provided that no byte was sent to that client after a failed write. */
  lemma EndToEnd(steps: seq<Step>, b: System, i: nat, load: Bytes -> Option<Fields>, n: nat)
    requires Run(Init, steps, b) && i in b.sertops
    requires forall w :: w in WrittenTo(b.s.wire, OwnerOf(b, i)) ==> Loads(w, load)
    requires NothingAfterFailure(WrittenTo(b.s.wire, OwnerOf(b, i)))
    requires n <= |Arrived(WrittenTo(b.s.wire, OwnerOf(b, i)))|
    ensures Heard(DecodeAll(Arrived(WrittenTo(b.s.wire, OwnerOf(b, i)))[..n]).0, load, i) <= MessagesOf(Printed(steps, i))
  {
    var socket := OwnerOf(b, i);
    var ws := WrittenTo(b.s.wire, socket);
    WrittenToSocket(b.s.wire, socket);
    HeardOfBytes(ws, n, load, i, socket);
    SentToOfSocket(b.s.wire, i, socket);
    ClientSeesPrefix(steps, b, i);
  }

  lemma {:induction false} NoSlips(ws: seq<Write>, socket: Socket)
    requires forall j, k :: 0 <= j < k < |ws| && ws[j].to == socket && ws[k].to == socket ==> !Slips(ws[j], ws[k])
    ensures NothingAfterFailure(WrittenTo(ws, socket))
  {
    if ws != [] {
      var last := |ws| - 1;
      NoSlips(ws[..last], socket);
      WrittenToSocket(ws[..last], socket);
      forall w | w in WrittenTo(ws[..last], socket) ensures ws[last].to == socket ==> !Slips(w, ws[last]) {
        var k :| 0 <= k < last && ws[..last][k] == w;
        assert ws[k] == w;
      }
    }
  }

  /** In every run, no byte follows a failed write to a client that `unmap` wrote nothing to: the writer alone
      closes a socket after its first failure. */
  lemma FailuresEndWrites(b: System, socket: Socket)
    requires Reachable(b) && forall w :: w in b.s.wire && w.to == socket ==> w.r !in b.s.direct
    ensures NothingAfterFailure(WrittenTo(b.s.wire, socket))
  {
    FailuresAreOk(b);
    forall j, k | 0 <= j < k < |b.s.wire| && b.s.wire[j].to == socket && b.s.wire[k].to == socket
      ensures !Slips(b.s.wire[j], b.s.wire[k])
    {
      assert b.s.wire[j] in b.s.wire && b.s.wire[k] in b.s.wire;
    }
    NoSlips(b.s.wire, socket);
  }

  /** So a creator to which no destroy request had `unmap` write decodes a prefix in every run. */
  lemma EndToEndWithoutDestroy(steps: seq<Step>, b: System, i: nat, load: Bytes -> Option<Fields>, n: nat)
    requires Run(Init, steps, b) && i in b.sertops
    requires forall w :: w in WrittenTo(b.s.wire, OwnerOf(b, i)) ==> Loads(w, load)
    requires forall w :: w in b.s.wire && w.to == OwnerOf(b, i) ==> w.r !in b.s.direct
    requires n <= |Arrived(WrittenTo(b.s.wire, OwnerOf(b, i)))|
    ensures Heard(DecodeAll(Arrived(WrittenTo(b.s.wire, OwnerOf(b, i)))[..n]).0, load, i) <= MessagesOf(Printed(steps, i))
  {
    FailuresEndWrites(b, OwnerOf(b, i));
    EndToEnd(steps, b, i, load, n);
  }

  lemma ForwardsSplit(handled: seq<Request>, waiting: seq<Request>, i: nat)
    ensures Flat(ForwardedTo(handled + waiting, i)) == Flat(ForwardedTo(handled, i)) + Flat(ForwardedTo(waiting, i))
  {
    ForwardedToConcat(handled, waiting, i);
    FlatConcat(ForwardedTo(handled, i), ForwardedTo(waiting, i));
  }

  lemma RequestsAreSplit(b: System)
    requires Reachable(b)
    ensures b.h.received + b.reading == b.h.handled + (b.c.inQueue + b.reading)
  {
    RequestsAndLivesAreOk(b);
  }

  /** What clients sent to sertop `i` is, byte for byte and in order: on its stdin, in the middle of a write, in its
      worker's queue, or in the forward requests that wait. */
  lemma SertopSeesRequests(steps: seq<Step>, b: System, i: nat)
    requires Run(Init, steps, b) && i in b.sertops
    ensures var sent := Flat(Causes.ForwardsSent(Causes.ReadsOf(steps), i));
            && b.sertops[i].stdin <= sent
            && sent == b.sertops[i].stdin + b.sertops[i].unwritten + Flat(b.sertops[i].inputs)
                       + Flat(ForwardedTo(b.c.inQueue + b.reading, i))
  {
    InputsAreOk(b, i);
    Causes.RequestsArrive(steps, b);
    Causes.ForwardsArrive(Causes.ReadsOf(steps), b.h.received + b.reading, i);
    RequestsAreSplit(b);
    ForwardsSplit(b.h.handled, b.c.inQueue + b.reading, i);
  }
}
