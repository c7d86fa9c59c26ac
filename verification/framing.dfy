/** Length-prefixed frames over a byte stream with partial sends and partial receives. */
module Framing {
  import opened Messages
  import opened Buffers

  datatype Option<+T> = None | Some(value: T)

  /** `int bytes = length`: the number of passes' worth of bytes a loop `while (bytes > 0)` moves. */
  function LoopBytes(length: uint32): (n: nat)
    ensures n == 0 || n == length
  {
    if ToInt32(length) > 0 then ToInt32(length) else 0
  }

  predicate Short(raw: Bytes) {
    |raw| < 0x8000_0000
  }

  /** The part of a payload that `write` sends; the length is a `uint32_t`, the loop counter an `int`. */
  function Body(raw: Bytes): Bytes {
    raw[..LoopBytes(|raw| % 0x1_0000_0000)]
  }

  function FrameSize(raw: Bytes): nat {
    4 + LoopBytes(|raw| % 0x1_0000_0000)
  }

  function FrameOf(raw: Bytes): (frame: Bytes)
    ensures |frame| == FrameSize(raw)
  {
    Encode(|raw| % 0x1_0000_0000, Big) + Body(raw)
  }

  /** The first payload of a stream and what follows it, if the stream holds a complete frame. */
  function NextFrame(stream: Bytes): Option<(Bytes, Bytes)> {
    if |stream| < 4 then None
    else
      var end := 4 + LoopBytes(Decode(stream[..4], Big));
      if |stream| < end then None else Some((stream[4..end], stream[end..]))
  }

  lemma FrameAt(stream: Bytes, length: uint32)
    requires |stream| >= 4 && length == Decode(stream[..4], Big)
    ensures var rest, n := stream[4..], LoopBytes(length);
            NextFrame(stream) == if |rest| < n then None else Some((rest[..n], rest[n..]))
  {
    var n := LoopBytes(length);
    if |stream| >= 4 + n {
      assert stream[4..][..n] == stream[4..4 + n] && stream[4..][n..] == stream[4 + n..];
    }
  }

  function EncodeAll(raws: seq<Bytes>): Bytes {
    if raws == [] then [] else FrameOf(raws[0]) + EncodeAll(raws[1..])
  }

  /** What repeated reads take from a stream, and the incomplete frame they leave. */
  function DecodeAll(stream: Bytes): (seq<Bytes>, Bytes)
    decreases |stream|
  {
    match NextFrame(stream)
    case None => ([], stream)
    case Some((raw, rest)) =>
      var (raws, tail) := DecodeAll(rest);
      ([raw] + raws, tail)
  }

  lemma FrameStaysInStep(raw: Bytes, rest: Bytes)
    ensures NextFrame(FrameOf(raw) + rest) == Some((Body(raw), rest))
  {
    var length := |raw| % 0x1_0000_0000;
    ReadAfterWrite(length, Big);
    var stream := FrameOf(raw) + rest;
    assert stream[..4] == Encode(length, Big);
    assert |Body(raw)| == LoopBytes(length);
    assert stream[4..4 + LoopBytes(length)] == Body(raw);
  }

  /** What `write` sends, in plain arithmetic: four chars that stand for the length modulo 2^32, ... */
  lemma FrameHeaderIs(raw: Bytes)
    ensures var frame := FrameOf(raw); Numeral(frame[0], frame[1], frame[2], frame[3]) == |raw| % 0x1_0000_0000
  {
    EncodeIs(|raw| % 0x1_0000_0000);
  }

  /** ... then the payload if that is below 2^31, else nothing. */
  lemma FrameBodyIs(raw: Bytes)
    ensures |raw| < 0x8000_0000 ==> FrameOf(raw)[4..] == raw
    ensures |raw| % 0x1_0000_0000 < 0x8000_0000 ==>
              |FrameOf(raw)| - 4 == |raw| % 0x1_0000_0000 <= |raw| && FrameOf(raw)[4..] <= raw
    ensures |raw| % 0x1_0000_0000 >= 0x8000_0000 ==> FrameOf(raw)[4..] == []
  {
    assert FrameOf(raw)[4..] == Body(raw);
  }

  /** What `read` takes, in plain arithmetic: the number its first four chars stand for says how many chars are the
      payload; from 2^31 on, none are. */
  lemma NextFrameIs(stream: Bytes)
    requires |stream| >= 4
    ensures var n := Numeral(stream[0], stream[1], stream[2], stream[3]);
            && 0 <= n < 0x1_0000_0000
            && NextFrame(stream) == (
                 if n >= 0x8000_0000 then Some(([], stream[4..]))
                 else if |stream| < 4 + n then None
                 else Some((stream[4..4 + n], stream[4 + n..])))
  {
    DecodeIs(stream[..4]);
    assert stream[4..4] == [];
  }

  lemma DecodeOneMore(raw: Bytes, rest: Bytes)
    ensures DecodeAll(FrameOf(raw) + rest).0 == [Body(raw)] + DecodeAll(rest).0
  {
    FrameStaysInStep(raw, rest);
  }

  lemma BodyIsWhole(raw: Bytes)
    ensures Body(raw) == raw <==> Short(raw)
  {
    if Short(raw) {
      assert raw[..|raw|] == raw;
    }
  }

  function Bodies(raws: seq<Bytes>): seq<Bytes> {
    if raws == [] then [] else [Body(raws[0])] + Bodies(raws[1..])
  }

  predicate AllShort(raws: seq<Bytes>) {
    forall i :: 0 <= i < |raws| ==> Short(raws[i])
  }

  /** One read per write: every frame is consumed exactly, and the payloads that come back are the
      bodies sent, whatever their lengths. */
  lemma {:induction false} ReadsFollowWrites(raws: seq<Bytes>)
    ensures DecodeAll(EncodeAll(raws)) == (Bodies(raws), [])
  {
    if raws != [] {
      ReadsFollowWrites(raws[1..]);
      FrameStaysInStep(raws[0], EncodeAll(raws[1..]));
    }
  }

  lemma {:induction false} BodiesAreWhole(raws: seq<Bytes>)
    ensures Bodies(raws) == raws <==> AllShort(raws)
  {
    if raws != [] {
      BodiesAreWhole(raws[1..]);
      BodyIsWhole(raws[0]);
      assert raws == [raws[0]] + raws[1..];
      assert AllShort(raws) <==> Short(raws[0]) && AllShort(raws[1..]);
    }
  }

  /** The payloads come back unchanged exactly when each is shorter than 2^31 bytes. */
  lemma RoundTrip(raws: seq<Bytes>)
    ensures DecodeAll(EncodeAll(raws)) == (raws, []) <==> AllShort(raws)
  {
    ReadsFollowWrites(raws);
    BodiesAreWhole(raws);
  }

  /** A frame that is cut short is not a frame. */
  lemma CutFrame(raw: Bytes, n: nat)
    requires n < FrameSize(raw)
    ensures NextFrame(FrameOf(raw)[..n]) == None
  {
    if n >= 4 {
      var length := |raw| % 0x1_0000_0000;
      assert FrameOf(raw)[..n][..4] == Encode(length, Big);
      ReadAfterWrite(length, Big);
    }
  }

  /** A stream cut off anywhere yields only whole bodies, in order, from the first on. */
  lemma {:induction false} CutStreamYieldsPrefix(raws: seq<Bytes>, n: nat)
    requires n <= |EncodeAll(raws)|
    ensures DecodeAll(EncodeAll(raws)[..n]).0 <= Bodies(raws)
  {
    if raws != [] {
      var frame, rest := FrameOf(raws[0]), EncodeAll(raws[1..]);
      var cut := EncodeAll(raws)[..n];
      if n < |frame| {
        CutFrame(raws[0], n);
        assert cut == frame[..n];
      } else {
        assert cut == frame + rest[..n - |frame|];
        FrameStaysInStep(raws[0], rest[..n - |frame|]);
        CutStreamYieldsPrefix(raws[1..], n - |frame|);
      }
    }
  }

  datatype ReadResult = Parsed(request: Request) | ParseError | Closed | Failed

  /** How the last `recv` failed, if it did: with a reset by the peer, or otherwise. */
  datatype Fault = NoFault | Reset | Broken

  /** One end of a connection, as `recv` and `send` see it. */
  class Connection {
    var inbox: Bytes   // sent by the peer, not yet received
    var outbox: Bytes  // accepted by `send`
    const reliable: bool  // whether calls never fail
    ghost var fault: Fault

    constructor (inbox: Bytes, reliable: bool)
      ensures this.inbox == inbox && outbox == [] && this.reliable == reliable
    {
      this.inbox, this.reliable, outbox, fault := inbox, reliable, [], NoFault;
    }

    /** `api_->recv`: an error, a reset, the end of the stream, or some positive number of bytes. */
    method Recv(buffer: array<Char>, offset: nat, n: nat) returns (result: int, reset: bool)
      requires 0 < n && offset + n <= buffer.Length
      modifies this`inbox, this`fault, buffer
      ensures result <= n && result <= |old(inbox)|
      ensures result <= 0 ==> inbox == old(inbox)
      ensures result == 0 ==> inbox == []
      ensures reliable ==> result >= 0
      ensures fault == if result >= 0 then NoFault else if reset then Reset else Broken
      ensures result > 0 ==> inbox == old(inbox)[result..]
      ensures forall k :: offset <= k < offset + result ==> buffer[k] == old(inbox)[k - offset]
      ensures forall k :: 0 <= k < offset ==> buffer[k] == old(buffer[k])
    {
      reset := *;
      var fails: bool := *;
      if inbox == [] {
        result := 0;
      } else if fails && !reliable {
        result := -1;
      } else {
        result :| 1 <= result <= n && result <= |inbox|;
        forall k | 0 <= k < result {
          buffer[offset + k] := inbox[k];
        }
        inbox := inbox[result..];
      }
      fault := if result >= 0 then NoFault else if reset then Reset else Broken;
    }

    /** `api_->send`: an error, or some positive number of the bytes asked for. */
    method Send(data: Bytes) returns (result: int)
      requires data != []
      modifies this`outbox
      ensures result <= |data| && result != 0
      ensures reliable ==> result > 0
      ensures result < 0 ==> outbox == old(outbox)
      ensures result > 0 ==> outbox == old(outbox) + data[..result]
    {
      var fails: bool := *;
      if fails && !reliable {
        result := -1;
      } else {
        result :| 1 <= result <= |data|;
        outbox := outbox + data[..result];
      }
    }

    /** The first loop of `read`: four bytes into the front of the buffer. */
    method ReadLength(buffer: array<Char>) returns (stop: Option<ReadResult>, length: uint32)
      requires buffer.Length == 4096
      modifies this`inbox, this`fault, buffer
      ensures stop == None ==> |old(inbox)| >= 4 && length == Decode(old(inbox)[..4], Big) && inbox == old(inbox)[4..]
      ensures stop != None ==> stop.value == Failed || stop.value == Closed
      ensures stop == None ==> fault == NoFault
      ensures stop == Some(Failed) ==> fault == Broken
      ensures stop == Some(Closed) ==> fault == Reset || (fault == NoFault && inbox == [])
      ensures |inbox| <= |old(inbox)| && inbox == old(inbox)[|old(inbox)| - |inbox|..]
      ensures stop == Some(Closed) && inbox == [] ==> |old(inbox)| < 4
      ensures reliable && stop != None ==> stop == Some(Closed) && inbox == []
    {
      var data, bytesToRead := 0, 4;
      length := 0;
      while bytesToRead > 0
        invariant 0 <= data <= |old(inbox)| && data + bytesToRead == 4 && bytesToRead >= 0
        invariant data > 0 ==> fault == NoFault
        invariant inbox == old(inbox)[data..] && forall k :: 0 <= k < data ==> buffer[k] == old(inbox)[k]
        decreases bytesToRead
      {
        var result, reset := Recv(buffer, data, bytesToRead);
        if result == 0 || (result < 0 && reset) {
          return Some(Closed), 0;
        } else if result < 0 {
          return Some(Failed), 0;
        }
        bytesToRead := bytesToRead - result;
        data := data + result;
      }
      length := ReadUint32(buffer, Big, 0);
      assert buffer[0..4] == old(inbox)[..4];
      Clear(buffer);
      stop := None;
    }

    /** The second loop of `read`: the announced bytes, at most a buffer at a time. */
    method ReadPayload(buffer: array<Char>, length: uint32) returns (stop: Option<ReadResult>, rawRequest: Bytes)
      requires buffer.Length == 4096 && fault == NoFault
      modifies this`inbox, this`fault, buffer
      ensures stop == None ==> |old(inbox)| >= LoopBytes(length) && rawRequest == old(inbox)[..LoopBytes(length)]
      ensures stop == None ==> inbox == old(inbox)[LoopBytes(length)..]
      ensures stop != None ==> stop.value == Failed || stop.value == Closed
      ensures stop == None ==> fault == NoFault
      ensures stop == Some(Failed) ==> fault == Broken
      ensures stop == Some(Closed) ==> fault == Reset || (fault == NoFault && inbox == [])
      ensures |inbox| <= |old(inbox)| && inbox == old(inbox)[|old(inbox)| - |inbox|..]
      ensures stop == Some(Closed) && inbox == [] ==> |old(inbox)| < LoopBytes(length)
      ensures reliable && stop != None ==> stop == Some(Closed) && inbox == []
    {
      var bytesToRead := ToInt32(length);
      rawRequest := [];
      while bytesToRead > 0
        invariant |rawRequest| <= |old(inbox)| && fault == NoFault
        invariant rawRequest == old(inbox)[..|rawRequest|] && inbox == old(inbox)[|rawRequest|..]
        invariant if bytesToRead > 0 then |rawRequest| + bytesToRead == LoopBytes(length) else |rawRequest| == LoopBytes(length)
        decreases bytesToRead
      {
        ghost var before := inbox;
        var result, reset := Recv(buffer, 0, if bytesToRead > buffer.Length then buffer.Length else bytesToRead);
        if result == 0 || (result < 0 && reset) {
          return Some(Closed), rawRequest;
        } else if result < 0 {
          return Some(Failed), rawRequest;
        }
        bytesToRead := bytesToRead - result;
        assert buffer[..result] == before[..result];
        rawRequest := rawRequest + buffer[..result];
        Clear(buffer);
      }
      stop := None;
    }

    /** `read`: takes exactly one frame off the stream and parses it, or takes no request at all. */
    method Read(parse: Bytes -> Option<Request>) returns (r: ReadResult)
      modifies this`inbox, this`fault
      ensures r.Parsed? || r == ParseError ==>
        && NextFrame(old(inbox)).Some?
        && inbox == NextFrame(old(inbox)).value.1
        && parse(NextFrame(old(inbox)).value.0) == (if r == ParseError then None else Some(r.request))
      ensures r == Failed ==> fault == Broken
      ensures r == Closed ==> fault == Reset || (fault == NoFault && inbox == [])
      ensures r == Closed && inbox == [] ==> NextFrame(old(inbox)) == None
      ensures reliable && NextFrame(old(inbox)) == None ==> r == Closed && inbox == []
      ensures reliable && NextFrame(old(inbox)) != None ==> r.Parsed? || r == ParseError
      ensures |inbox| <= |old(inbox)| && inbox == old(inbox)[|old(inbox)| - |inbox|..]
    {
      var buffer := new Char[4096](_ => 0);
      var stop, length := ReadLength(buffer);
      if stop != None {
        return stop.value;
      }
      var rawRequest: Bytes;
      FrameAt(old(inbox), length);
      ghost var stream := inbox;
      stop, rawRequest := ReadPayload(buffer, length);
      assert stream[|stream| - |inbox|..] == old(inbox)[|old(inbox)| - |inbox|..];
      if stop != None {
        return stop.value;
      }
      match parse(rawRequest)
      case None => r := ParseError;
      case Some(request) => r := Parsed(request);
    }

    /** The four bytes that announce a length. */
    static method Header(length: uint32) returns (header: Bytes)
      ensures header == Encode(length, Big)
    {
      var buffer := new Char[4](_ => 0);
      WriteUint32(length, buffer, Big, 0);
      header := buffer[..];
    }

    /** The first loop of `write`. */
    method SendHeader(header: Bytes) returns (ok: bool)
      requires |header| == 4
      modifies this`outbox
      ensures ok ==> outbox == old(outbox) + header
      ensures reliable ==> ok
      ensures old(outbox) <= outbox <= old(outbox) + header
      ensures !ok ==> |outbox| < |old(outbox)| + 4
    {
      var data, bytesToWrite := 0, 4;
      while bytesToWrite > 0
        invariant data + bytesToWrite == 4 && data >= 0 && bytesToWrite >= 0
        invariant outbox == old(outbox) + header[..data]
        decreases bytesToWrite
      {
        var result := Send(header[data..]);
        if result < 0 {
          return false;
        }
        assert header[..data] + header[data..][..result] == header[..data + result];
        bytesToWrite := bytesToWrite - result;
        data := data + result;
      }
      ok := true;
    }

    /** The second loop of `write`: at most 4096 bytes at a time. */
    method SendBody(raw: Bytes, length: uint32) returns (ok: bool)
      requires LoopBytes(length) <= |raw|
      modifies this`outbox
      ensures ok ==> outbox == old(outbox) + raw[..LoopBytes(length)]
      ensures reliable ==> ok
      ensures old(outbox) <= outbox <= old(outbox) + raw[..LoopBytes(length)]
      ensures !ok ==> |outbox| < |old(outbox)| + LoopBytes(length)
    {
      ghost var end := LoopBytes(length);
      var data, bytesToWrite := 0, ToInt32(length);
      while bytesToWrite > 0
        invariant 0 <= data <= end && if bytesToWrite > 0 then data + bytesToWrite == end else data == end
        invariant outbox == old(outbox) + raw[..data]
        decreases bytesToWrite
      {
        var n := if bytesToWrite > 4096 then 4096 else bytesToWrite;
        var result := Send(raw[data..data + n]);
        if result < 0 {
          assert raw[..data] <= raw[..end];
          return false;
        }
        assert raw[..data] + raw[data..data + n][..result] == raw[..data + result];
        bytesToWrite := bytesToWrite - result;
        data := data + result;
      }
      ok := true;
    }

    /** `write`: sends the whole frame, or stops after some proper part of it. */
    method Write(raw: Bytes) returns (ok: bool)
      modifies this`outbox
      ensures old(outbox) <= outbox <= old(outbox) + FrameOf(raw)
      ensures ok <==> outbox == old(outbox) + FrameOf(raw)
      ensures reliable ==> ok
    {
      var length: uint32 := |raw| % 0x1_0000_0000;
      var header := Header(length);
      ok := SendHeader(header);
      assert old(outbox) + FrameOf(raw) == old(outbox) + header + Body(raw);
      if ok {
        ok := SendBody(raw, length);
      }
    }
  }

  /** A read that takes a payload reports the request it parses to, or that it does not parse. */
  predicate IsResult(parse: Bytes -> Option<Request>, raw: Bytes, result: ReadResult) {
    if parse(raw) == None then result == ParseError else result == Parsed(parse(raw).value)
  }

  lemma OneMoreFrame(sent: Bytes, raws: seq<Bytes>, n: nat)
    requires n < |raws|
    ensures sent + EncodeAll(raws[n..]) == sent + FrameOf(raws[n]) + EncodeAll(raws[n + 1..])
  {
    assert raws[n..][0] == raws[n] && raws[n..][1..] == raws[n + 1..];
  }

  /** Writes a list of payloads, each with the loops of `write`. */
  method SendAll(raws: seq<Bytes>, connection: Connection)
    requires connection.reliable
    modifies connection`outbox
    ensures connection.outbox == old(connection.outbox) + EncodeAll(raws)
  {
    ghost var before := connection.outbox;
    var n := 0;
    assert raws[0..] == raws;
    while n < |raws|
      invariant 0 <= n <= |raws|
      invariant connection.outbox + EncodeAll(raws[n..]) == before + EncodeAll(raws)
    {
      OneMoreFrame(connection.outbox, raws, n);
      var _ := connection.Write(raws[n]);
      n := n + 1;
    }
    assert connection.outbox + [] == connection.outbox;
  }

  /** What one read does to the frames that are left. */
  lemma NextOfFrames(raws: seq<Bytes>, n: nat)
    requires n <= |raws|
    ensures NextFrame(EncodeAll(raws[n..])) == if n < |raws| then Some((Body(raws[n]), EncodeAll(raws[n + 1..]))) else None
  {
    if n < |raws| {
      assert raws[n..][0] == raws[n] && raws[n..][1..] == raws[n + 1..];
      FrameStaysInStep(raws[n], EncodeAll(raws[n + 1..]));
    }
  }

  /** Reads until the end of the stream, each time with the loops of `read`. */
  method ReceiveAll(connection: Connection, parse: Bytes -> Option<Request>, ghost raws: seq<Bytes>) returns (results: seq<ReadResult>)
    requires connection.reliable && connection.inbox == EncodeAll(raws)
    modifies connection`inbox, connection`fault
    ensures |results| == |raws| + 1 && results[|raws|] == Closed
    ensures forall k :: 0 <= k < |raws| ==> IsResult(parse, Body(raws[k]), results[k])
  {
    results := [];
    assert raws[0..] == raws;
    while true
      invariant |results| <= |raws| && connection.inbox == EncodeAll(raws[|results|..])
      invariant forall k :: 0 <= k < |results| ==> IsResult(parse, Body(raws[k]), results[k])
      decreases |raws| - |results|
    {
      NextOfFrames(raws, |results|);
      var result := connection.Read(parse);
      results := results + [result];
      if result == Closed {
        break;
      }
    }
  }

  /** Payloads sent by the write loops and taken by the read loops, over any sizes of sends and receives. */
  method Transmit(raws: seq<Bytes>, parse: Bytes -> Option<Request>) returns (results: seq<ReadResult>)
    ensures |results| == |raws| + 1 && results[|raws|] == Closed
    ensures forall k :: 0 <= k < |raws| ==> results[k] == (if parse(Body(raws[k])) == None then ParseError else Parsed(parse(Body(raws[k])).value))
    ensures AllShort(raws) ==> forall k :: 0 <= k < |raws| ==> results[k] == (if parse(raws[k]) == None then ParseError else Parsed(parse(raws[k]).value))
  {
    var sender := new Connection([], true);
    SendAll(raws, sender);
    var receiver := new Connection(sender.outbox, true);
    results := ReceiveAll(receiver, parse, raws);
    forall k | 0 <= k < |raws| && Short(raws[k]) ensures Body(raws[k]) == raws[k] {
      BodyIsWhole(raws[k]);
    }
  }
}
