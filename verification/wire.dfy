/** What reaches a client when writes may fail midway: the bytes, and what the client reads from them. */
module Wire {
  import opened Messages
  import opened Sequences
  import opened Buffers
  import opened Framing

  datatype Attempt = Attempt(raw: Bytes, sent: nat)

  /** The payload that a response was dumped to, and how many bytes of its frame reached the socket. */
  type Sending = a: Attempt | a.sent <= FrameSize(a.raw) witness Attempt([], 0)

  predicate Completed(a: Sending) {
    a.sent == FrameSize(a.raw)
  }

  /** One call of `write`. */
  datatype Write = Write(r: Response, to: Socket, out: Sending)

  predicate Whole(w: Write) {
    Completed(w.out)
  }

  function Responses(ws: seq<Write>): seq<Response> {
    seq(|ws|, k requires 0 <= k < |ws| => ws[k].r)
  }

  function Raws(ws: seq<Write>): seq<Bytes> {
    seq(|ws|, k requires 0 <= k < |ws| => ws[k].out.raw)
  }

  /** The writes to one socket, in order. */
  function WrittenTo(ws: seq<Write>, socket: Socket): seq<Write> {
    if ws == [] then [] else
      var last := |ws| - 1;
      WrittenTo(ws[..last], socket) + if ws[last].to == socket then [ws[last]] else []
  }

  lemma {:induction false} WrittenToSocket(ws: seq<Write>, socket: Socket)
    ensures forall w :: w in WrittenTo(ws, socket) ==> w in ws && w.to == socket
  {
    if ws != [] {
      WrittenToSocket(ws[..|ws| - 1], socket);
      assert forall w :: w in ws[..|ws| - 1] ==> w in ws;
    }
  }

  /** The bytes of one write that reached the socket. */
  function BytesOf(w: Write): (bytes: Bytes)
    ensures |bytes| == w.out.sent
  {
    FrameOf(w.out.raw)[..w.out.sent]
  }

  /** The byte stream that a client receives from these writes. */
  function Arrived(ws: seq<Write>): Bytes {
    if ws == [] then [] else BytesOf(ws[0]) + Arrived(ws[1..])
  }

  /** No byte follows a failed write. */
  predicate NothingAfterFailure(ws: seq<Write>) {
    forall j, k :: 0 <= j < k < |ws| && !Whole(ws[j]) ==> ws[k].out.sent == 0
  }

  /** Every write whose bytes arrive finds the client where the complete frames before it would have brought it. */
  predicate InStep(ws: seq<Write>) {
    forall k :: 0 <= k < |ws| && ws[k].out.sent > 0 ==> |Arrived(ws[..k])| == |EncodeAll(Raws(ws[..k]))|
  }

  lemma RawsOfRest(ws: seq<Write>)
    requires ws != []
    ensures Raws(ws)[0] == ws[0].out.raw && Raws(ws)[1..] == Raws(ws[1..])
  {
  }

  lemma {:induction false} FailuresLeaveGaps(ws: seq<Write>)
    ensures |Arrived(ws)| <= |EncodeAll(Raws(ws))|
    ensures |Arrived(ws)| == |EncodeAll(Raws(ws))| <==> forall j :: 0 <= j < |ws| ==> Whole(ws[j])
  {
    if ws != [] {
      FailuresLeaveGaps(ws[1..]);
      RawsOfRest(ws);
      assert (forall j :: 0 <= j < |ws| ==> Whole(ws[j])) <==> Whole(ws[0]) && forall j :: 0 <= j < |ws[1..]| ==> Whole(ws[1..][j]) by {
        assert forall j :: 1 <= j < |ws| ==> ws[1..][j - 1] == ws[j];
      }
    }
  }

  /** The client stays in step if and only if no byte follows a failed write. */
  lemma InStepExactly(ws: seq<Write>)
    ensures InStep(ws) <==> NothingAfterFailure(ws)
  {
    forall k | 0 <= k < |ws|
      ensures |Arrived(ws[..k])| == |EncodeAll(Raws(ws[..k]))| <==> forall j :: 0 <= j < k ==> Whole(ws[j])
    {
      FailuresLeaveGaps(ws[..k]);
      assert forall j :: 0 <= j < k ==> ws[..k][j] == ws[j];
    }
  }

  lemma {:induction false} NothingArrives(ws: seq<Write>)
    requires forall k :: 0 <= k < |ws| ==> ws[k].out.sent == 0
    ensures Arrived(ws) == []
  {
    if ws != [] {
      NothingArrives(ws[1..]);
    }
  }

  lemma NothingAfterFailureInRest(ws: seq<Write>)
    requires ws != [] && NothingAfterFailure(ws)
    ensures NothingAfterFailure(ws[1..])
    ensures !Whole(ws[0]) ==> Arrived(ws) == BytesOf(ws[0])
  {
    assert forall k :: 0 <= k < |ws[1..]| ==> ws[1..][k] == ws[k + 1];
    if !Whole(ws[0]) {
      NothingArrives(ws[1..]);
      assert BytesOf(ws[0]) + [] == BytesOf(ws[0]);
    }
  }

  /** What can be decoded from the first `n` bytes are the bodies of the first writes, all of which were whole. */
  ghost predicate Decodes(ws: seq<Write>, n: nat)
    requires n <= |Arrived(ws)|
  {
    var got := DecodeAll(Arrived(ws)[..n]).0;
    && |got| <= |ws| && got == Bodies(Raws(ws[..|got|]))
    && forall k :: 0 <= k < |got| ==> Whole(ws[k])
  }

  lemma NoFrameYet(ws: seq<Write>, n: nat)
    requires ws != [] && n <= |Arrived(ws)| && n < FrameSize(ws[0].out.raw) && n <= ws[0].out.sent
    ensures Decodes(ws, n)
  {
    var frame := FrameOf(ws[0].out.raw);
    assert Arrived(ws)[..n] == frame[..n];
    CutFrame(ws[0].out.raw, n);
    assert Raws(ws[..0]) == [];
  }

  lemma FirstBodies(ws: seq<Write>, m: nat)
    requires m < |ws|
    ensures Bodies(Raws(ws[..m + 1])) == [Body(ws[0].out.raw)] + Bodies(Raws(ws[1..][..m]))
  {
    assert Raws(ws[..m + 1])[1..] == Raws(ws[1..][..m]);
  }

  lemma CutAfterFrame(ws: seq<Write>, n: nat)
    requires ws != [] && Whole(ws[0]) && FrameSize(ws[0].out.raw) <= n <= |Arrived(ws)|
    ensures n - FrameSize(ws[0].out.raw) <= |Arrived(ws[1..])|
    ensures Arrived(ws)[..n] == FrameOf(ws[0].out.raw) + Arrived(ws[1..])[..n - FrameSize(ws[0].out.raw)]
  {
    var frame := FrameOf(ws[0].out.raw);
    assert frame[..|frame|] == frame;
    PrefixOfConcat(frame, Arrived(ws[1..]), n);
  }

  lemma OneFrame(ws: seq<Write>, n: nat)
    requires ws != [] && Whole(ws[0]) && FrameSize(ws[0].out.raw) <= n <= |Arrived(ws)|
    requires n - FrameSize(ws[0].out.raw) <= |Arrived(ws[1..])| && Decodes(ws[1..], n - FrameSize(ws[0].out.raw))
    ensures Decodes(ws, n)
  {
    CutAfterFrame(ws, n);
    var rest := Arrived(ws[1..])[..n - FrameSize(ws[0].out.raw)];
    DecodeOneMore(ws[0].out.raw, rest);
    FirstBodies(ws, |DecodeAll(rest).0|);
    assert forall k :: 1 <= k < |ws| ==> ws[k] == ws[1..][k - 1];
  }

  lemma {:induction false} ClientDecodes(ws: seq<Write>, n: nat)
    requires NothingAfterFailure(ws) && n <= |Arrived(ws)|
    ensures Decodes(ws, n)
  {
    if ws == [] {
      assert Raws(ws[..0]) == [];
    } else {
      NothingAfterFailureInRest(ws);
      if n < FrameSize(ws[0].out.raw) {
        NoFrameYet(ws, n);
      } else {
        CutAfterFrame(ws, n);
        ClientDecodes(ws[1..], n - FrameSize(ws[0].out.raw));
        OneFrame(ws, n);
      }
    }
  }

  lemma ArrivedOfTwo(first: Write, second: Write)
    requires Whole(second)
    ensures Arrived([first, second]) == BytesOf(first) + FrameOf(second.out.raw)
  {
    assert [first, second][1..] == [second] && [second][1..] == [];
    var next := FrameOf(second.out.raw);
    assert Arrived([second]) == next[..|next|] + [] == next;
  }

  lemma ShortFrame(raw: Bytes)
    requires Short(raw)
    ensures FrameOf(raw) == Encode(|raw|, Big) + raw && FrameSize(raw) == 4 + |raw|
  {
    BodyIsWhole(raw);
  }

  /** The payload that a reader makes of the beginning of one frame's body and of the frame after it. */
  function Mixed(raw: Bytes, sent: nat, next: Bytes): Bytes
    requires 4 <= sent <= 4 + |raw| <= sent + |next|
  {
    raw[..sent - 4] + next[..4 + |raw| - sent]
  }

  lemma MixedIsFramed(header: Bytes, raw: Bytes, sent: nat, next: Bytes)
    requires |header| == 4 && 4 <= sent <= 4 + |raw| <= sent + |next|
    ensures (header + raw)[..sent] + next == header + Mixed(raw, sent, next) + next[4 + |raw| - sent..]
    ensures |Mixed(raw, sent, next)| == |raw|
  {
    assert (header + raw)[..sent] == header + raw[..sent - 4];
    assert next == next[..4 + |raw| - sent] + next[4 + |raw| - sent..];
  }

  /** Of a frame whose body is cut off, and the frame after it, the client makes one wrong payload. */
  lemma OutOfStep(first: Write, second: Write)
    requires Short(first.out.raw) && 4 <= first.out.sent < FrameSize(first.out.raw) && Whole(second)
    requires 4 + |first.out.raw| <= first.out.sent + FrameSize(second.out.raw)
    ensures FrameSize(first.out.raw) == 4 + |first.out.raw|
    ensures var got := DecodeAll(Arrived([first, second])).0;
            got != [] && got[0] == Mixed(first.out.raw, first.out.sent, FrameOf(second.out.raw))
  {
    var raw, sent, next := first.out.raw, first.out.sent, FrameOf(second.out.raw);
    ShortFrame(raw);
    ArrivedOfTwo(first, second);
    MixedIsFramed(Encode(|raw|, Big), raw, sent, next);
    ShortFrame(Mixed(raw, sent, next));
    DecodeOneMore(Mixed(raw, sent, next), next[4 + |raw| - sent..]);
  }
}
