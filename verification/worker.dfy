/** A worker: it splits what sertop prints into responses and feeds requests to sertop. */
module Workers {
  import opened Messages
  import opened Sequences
  import opened Splitting
  import Buffers

  datatype Input = Nothing | ReadFailed | Data(bytes: Bytes)

  /** What one pass of the read loop sees: the result of `poll`, the two `revents`, the result of `read`. */
  datatype PollEvent = PollFailed | Spurious | Ready(interrupted: bool, input: Input, pollError: bool)

  predicate FitsBuffer(e: PollEvent) {
    e.Ready? && e.input.Data? ==> |e.input.bytes| <= 4096
  }

  predicate Fails(e: PollEvent) {
    e.PollFailed? || (e.Ready? && !e.interrupted && (e.input.ReadFailed? || e.pollError))
  }

  predicate Stops(e: PollEvent) {
    Fails(e) || (e.Ready? && e.interrupted)
  }

  function BytesOf(e: PollEvent): Bytes {
    if e.Ready? && !e.interrupted && e.input.Data? then e.input.bytes else []
  }

  /** The outcomes of one pass, case by case: a failed `poll`; a spurious wakeup; an interrupt; a failed `read`; what
      was read, if anything, with or without an error on the pipes. */
  lemma EventIs(interrupted: bool, input: Input, pollError: bool)
    ensures Fails(PollFailed) && Stops(PollFailed) && BytesOf(PollFailed) == []
    ensures !Fails(Spurious) && !Stops(Spurious) && BytesOf(Spurious) == []
    ensures !Fails(Ready(true, input, pollError)) && Stops(Ready(true, input, pollError)) && BytesOf(Ready(true, input, pollError)) == []
    ensures Fails(Ready(false, ReadFailed, pollError)) && BytesOf(Ready(false, ReadFailed, pollError)) == []
    ensures input != ReadFailed ==> Fails(Ready(false, input, pollError)) == Stops(Ready(false, input, pollError)) == pollError
    ensures input.Data? ==> BytesOf(Ready(false, input, pollError)) == input.bytes
    ensures input == Nothing ==> BytesOf(Ready(false, input, pollError)) == []
  {
  }

  predicate Ended(events: seq<PollEvent>) {
    events != [] && (Ended(events[..|events| - 1]) || Stops(events[|events| - 1]))
  }

  /** The bytes read before the read loop ends. */
  function Received(events: seq<PollEvent>): Bytes {
    if events == [] then [] else
      var before := events[..|events| - 1];
      Received(before) + if Ended(before) then [] else BytesOf(events[|events| - 1])
  }

  predicate EndsInFailure(events: seq<PollEvent>) {
    events != [] &&
    var before := events[..|events| - 1];
    if Ended(before) then EndsInFailure(before) else Fails(events[|events| - 1])
  }

  lemma NextEvent(events: seq<PollEvent>, n: nat)
    requires n < |events| && !Ended(events[..n])
    ensures Ended(events[..n + 1]) <==> Stops(events[n])
    ensures Received(events[..n + 1]) == Received(events[..n]) + BytesOf(events[n])
    ensures BytesOf(events[n]) == [] ==> Received(events[..n + 1]) == Received(events[..n])
    ensures EndsInFailure(events[..n + 1]) <==> Fails(events[n])
  {
    assert events[..n + 1][..n] == events[..n];
  }

  lemma {:induction false} NothingAfterTheEnd(events: seq<PollEvent>, n: nat)
    requires n <= |events| && (Ended(events[..n]) || n == |events|)
    ensures Received(events) == Received(events[..n])
    ensures EndsInFailure(events) <==> EndsInFailure(events[..n])
    ensures Ended(events) <==> Ended(events[..n])
  {
    if n == |events| {
      assert events[..n] == events;
    } else {
      var before := events[..|events| - 1];
      assert before[..n] == events[..n];
      NothingAfterTheEnd(before, n);
    }
  }

  function CountNuls(s: Bytes): nat {
    if s == [] then 0 else (if s[0] == NUL then 1 else 0) + CountNuls(s[1..])
  }

  lemma {:induction false} NoNulsLeft(s: Bytes)
    ensures CountNuls(s) == 0 <==> NulFree(s)
  {
    if s != [] {
      NoNulsLeft(s[1..]);
      assert NulFree(s) <==> s[0] != NUL && NulFree(s[1..]) by {
        assert forall i :: 1 <= i < |s| ==> s[i] == s[1..][i - 1];
      }
    }
  }

  lemma {:induction false} DropMessage(s: Bytes, n: nat)
    requires n < |s| && s[n] == NUL && forall i :: 0 <= i < n ==> s[i] != NUL
    ensures CountNuls(s) == 1 + CountNuls(s[n + 1..])
  {
    if n > 0 {
      DropMessage(s[1..], n - 1);
      assert s[1..][n..] == s[n + 1..];
    }
  }

  /** One pass of the loop that cuts messages off the front of `raw`. */
  lemma CutOne(raw: Bytes, ptr: nat, message: Bytes, result: seq<Bytes>)
    requires ptr + |message| < |raw| && raw[ptr..ptr + |message|] == message
    requires NulFree(message) && raw[ptr + |message|] == NUL
    requires Joined(result) == raw[..ptr]
    ensures CountNuls(raw[ptr..]) == 1 + CountNuls(raw[ptr + |message| + 1..])
    ensures Joined(result + [message]) == raw[..ptr + |message| + 1]
  {
    var n := |message|;
    assert forall i :: 0 <= i < n ==> raw[ptr..][i] == raw[ptr..ptr + n][i];
    DropMessage(raw[ptr..], n);
    assert raw[ptr..][n + 1..] == raw[ptr + n + 1..];
    assert (result + [message])[..|result|] == result;
  }

  function Min(a: nat, b: nat): nat {
    if a < b then a else b
  }

  class Worker {
    const id: nat
    var running: bool
    var messageQueue: seq<Bytes>

    // What the outside world has seen: arguments of `on_response_` and `on_failure_`, bytes on sertop's stdin.
    ghost var responses: seq<Bytes>
    ghost var failures: nat
    ghost var stdin: Bytes

    // Every message passed to `enqueue`; those the write loop took; what it did not write of the last of them.
    ghost var enqueued: seq<Bytes>
    ghost var taken: seq<Bytes>
    ghost var unwritten: Bytes

    ghost predicate Valid()
      reads this
    {
      && enqueued == taken + messageQueue
      && stdin + unwritten == Flat(taken)
      && (unwritten != [] ==> taken != [] && IsSuffix(unwritten, taken[|taken| - 1]))
    }

    static predicate IsSuffix(s: Bytes, t: Bytes) {
      |s| <= |t| && t[|t| - |s|..] == s
    }

    constructor (id: nat)
      ensures Valid() && this.id == id && running
      ensures messageQueue == [] && responses == [] && failures == 0 && stdin == [] && unwritten == []
      ensures enqueued == taken == []
    {
      this.id, running, messageQueue := id, true, [];
      responses, failures, stdin := [], 0, [];
      enqueued, taken, unwritten := [], [], [];
    }

    method Enqueue(message: Bytes)
      modifies this`messageQueue, this`enqueued
      ensures old(Valid()) ==> Valid()
      ensures messageQueue == old(messageQueue) + [message] && enqueued == old(enqueued) + [message]
    {
      messageQueue := messageQueue + [message];
      enqueued := enqueued + [message];
    }

    method Fail()
      modifies this`running, this`failures
      ensures !running && failures == old(failures) + 1
    {
      running := false;
      failures := failures + 1;
    }

    /** `std::string(ptr)`: the characters from `ptr` up to the next NUL. */
    static method CString(raw: Bytes, ptr: nat) returns (s: Bytes)
      requires ptr <= |raw| && !NulFree(raw[ptr..])
      ensures ptr + |s| < |raw| && raw[ptr + |s|] == NUL
      ensures s == raw[ptr..ptr + |s|] && NulFree(s)
    {
      assert exists i :: ptr <= i < |raw| && raw[i] == NUL by {
        var i :| 0 <= i < |raw[ptr..]| && raw[ptr..][i] == NUL;
        assert raw[ptr + i] == NUL;
      }
      var end := ptr;
      while raw[end] != NUL
        invariant ptr <= end < |raw| && forall i :: ptr <= i < end ==> raw[i] != NUL
        invariant exists i :: end <= i < |raw| && raw[i] == NUL
        decreases |raw| - end
      {
        end := end + 1;
      }
      s := raw[ptr..end];
    }

    /** The cutting loop of `parse`: cuts `count` messages off the front of `raw`. */
    static method CutMessages(raw: Bytes, count: nat) returns (result: seq<Bytes>, ptr: nat, left: nat)
      requires count == CountNuls(raw)
      ensures ptr + left == |raw| && IsSplit(raw, result, raw[ptr..])
    {
      result, ptr, left := [], 0, |raw|;
      var i := 0;
      assert raw[0..] == raw;
      while i < count
        invariant 0 <= i <= count && ptr + left == |raw|
        invariant CountNuls(raw[ptr..]) == count - i
        invariant Joined(result) == raw[..ptr]
        invariant forall k :: 0 <= k < |result| ==> NulFree(result[k])
      {
        NoNulsLeft(raw[ptr..]);
        var message := CString(raw, ptr);
        CutOne(raw, ptr, message, result);
        result := result + [message];
        ptr := ptr + |message| + 1;
        left := left - (|message| + 1);
        i := i + 1;
      }
      NoNulsLeft(raw[ptr..]);
      assert raw == raw[..ptr] + raw[ptr..];
    }

    /** Delivers the messages that `prefix` and the buffer complete, in order, and returns what is left. */
    method Parse(buffer: Bytes, read: nat, prefix: Bytes) returns (remainder: Bytes)
      requires read <= |buffer|
      modifies this`responses
      ensures var (messages, rest) := Split(prefix + buffer[..read]);
              responses == old(responses) + messages && remainder == rest
    {
      var rawResult := prefix + buffer[..read];
      var count := CountNuls(rawResult);
      NoNulsLeft(rawResult);

      if count > 0 {
        var result, ptr, left := CutMessages(rawResult, count);
        SplitIs(rawResult, result, rawResult[ptr..]);
        assert rawResult[ptr..ptr + left] == rawResult[ptr..] && (left == 0 ==> rawResult[ptr..] == []);
        var j := 0;
        while j < |result|
          invariant 0 <= j <= |result| && responses == old(responses) + result[..j]
        {
          responses := responses + [result[j]];
          j := j + 1;
        }
        assert result[..j] == result;
        remainder := if left == 0 then [] else rawResult[ptr..ptr + left];
      } else {
        SplitOfNulFree(rawResult);
        remainder := rawResult;
      }
    }

    /** One `read` into the buffer, and the parsing of what it put there. */
    method ReadChunk(bytes: Bytes, buffer: array<Char>, prefix: Bytes) returns (remainder: Bytes)
      requires |bytes| <= buffer.Length
      modifies this`responses, buffer
      ensures var (messages, rest) := Split(prefix + bytes);
              responses == old(responses) + messages && remainder == rest
    {
      ApiRead(bytes, buffer);
      assert buffer[..][..|bytes|] == bytes;
      remainder := Parse(buffer[..], |bytes|, prefix);
      Buffers.Clear(buffer);
    }

    /** One pass of the read loop. */
    method HandleEvent(e: PollEvent, buffer: array<Char>, prefix: Bytes) returns (goesOn: bool, remainder: Bytes)
      requires running && FitsBuffer(e) && NulFree(prefix) && buffer.Length == 4096
      modifies this`responses, this`running, this`failures, buffer
      ensures goesOn <==> !Stops(e)
      ensures running <==> !Fails(e)
      ensures failures == old(failures) + (if Fails(e) then 1 else 0)
      ensures var (messages, rest) := Split(prefix + BytesOf(e));
              responses == old(responses) + messages && remainder == rest
    {
      goesOn, remainder := false, prefix;
      SplitOfNulFree(prefix);
      assert prefix + [] == prefix;
      if e.PollFailed? {
        Fail();
        return;
      } else if e.Spurious? {
        return true, remainder;
      }
      if e.interrupted {
        return;
      }
      if !e.input.Nothing? {
        if e.input.ReadFailed? {
          Fail();
          return;
        }
        remainder := ReadChunk(e.input.bytes, buffer, remainder);
      }
      if e.pollError {
        Fail();
        return;
      }
      goesOn := true;
    }

    /** Runs the read loop over a finite run of events; the bytes may arrive in chunks of any size. */
    method ReadLoop(events: seq<PollEvent>) returns (remainder: Bytes)
      requires running && forall k :: 0 <= k < |events| ==> FitsBuffer(events[k])
      modifies this`responses, this`running, this`failures
      ensures (MessagesOf(Received(events)), remainder) == Split(Received(events))
      ensures responses == old(responses) + MessagesOf(Received(events))
      ensures failures == old(failures) + (if EndsInFailure(events) then 1 else 0)
      ensures running <==> !EndsInFailure(events)
    {
      var buffer := new Char[4096](_ => 0);
      remainder := [];
      var n, goesOn := 0, true;
      while running && goesOn && n < |events|
        invariant 0 <= n <= |events|
        invariant running && goesOn ==> !Ended(events[..n])
        invariant !(running && goesOn) ==> Ended(events[..n])
        invariant Split(Received(events[..n])).1 == remainder
        invariant responses == old(responses) + MessagesOf(Received(events[..n]))
        invariant failures == old(failures) + (if EndsInFailure(events[..n]) then 1 else 0)
        invariant running <==> !EndsInFailure(events[..n])
        decreases |events| - n
      {
        NextEvent(events, n);
        SplitStep(Received(events[..n]), BytesOf(events[n]));
        SplitIsSplit(Received(events[..n]));
        goesOn, remainder := HandleEvent(events[n], buffer, remainder);
        n := n + 1;
      }
      NothingAfterTheEnd(events, n);
    }

    /** `api_->read`: puts the bytes at the front of the buffer. */
    static method ApiRead(bytes: Bytes, buffer: array<Char>)
      requires |bytes| <= buffer.Length
      modifies buffer
      ensures buffer[..|bytes|] == bytes
    {
      forall k | 0 <= k < |bytes| {
        buffer[k] := bytes[k];
      }
    }

    /** The rest of the program at a point where this thread holds no lock: enqueues, or a stop. */
    method OtherThreads()
      requires Valid()
      modifies this`messageQueue, this`enqueued, this`running
      ensures Valid() && (running ==> old(running))
      ensures old(messageQueue) <= messageQueue && old(enqueued) <= enqueued
    {
      var messages: seq<Bytes> := *;
      messageQueue, enqueued := messageQueue + messages, enqueued + messages;
      if * {
        running := false;
      }
    }

    /** `api_->write`: an error, or some positive number of the characters asked for. */
    method ApiWrite(data: Bytes) returns (written: int)
      requires Valid() && data != [] && data <= unwritten
      modifies this`stdin, this`unwritten
      ensures Valid() && stdin + unwritten == old(stdin + unwritten) && old(stdin) <= stdin
      ensures written <= |data|
      ensures written < 0 ==> stdin == old(stdin) && unwritten == old(unwritten)
      ensures written >= 0 ==> written > 0
      ensures written >= 0 ==> stdin == old(stdin) + data[..written] && unwritten == old(unwritten)[written..]
    {
      if * {
        written := -1;
      } else {
        written :| 1 <= written <= |data|;
        stdin, unwritten := stdin + data[..written], unwritten[written..];
      }
    }

    /** Writes the message just taken; other threads may enqueue between two partial writes. */
    method Write(s: Bytes) returns (ok: bool)
      requires Valid() && taken != [] && taken[|taken| - 1] == s == unwritten
      modifies this`stdin, this`unwritten, this`messageQueue, this`enqueued, this`running
      ensures Valid() && old(enqueued) <= enqueued && (running ==> old(running))
      ensures stdin + unwritten == old(stdin) + s && old(stdin) <= stdin && (ok <==> unwritten == [])
    {
      var data, toWrite := 0, |s|;
      while toWrite > 0
        invariant data + toWrite == |s| && data >= 0 && toWrite >= 0
        invariant Valid() && unwritten == s[data..]
        invariant stdin + unwritten == old(stdin) + s && old(stdin) <= stdin
        invariant old(enqueued) <= enqueued && (running ==> old(running))
        decreases toWrite
      {
        OtherThreads();
        var written := ApiWrite(s[data..]);
        if written < 0 {
          return false;
        }
        toWrite := toWrite - written;
        data := data + written;
      }
      ok := true;
    }

    /** One turn of the write loop. */
    method WriteTurn()
      requires Valid() && running && unwritten == []
      modifies this
      ensures Valid() && (if running then failures == old(failures) && unwritten == [] else failures <= old(failures) + 1)
      ensures unwritten != [] ==> failures == old(failures) + 1
      ensures old(stdin) <= stdin && old(taken) <= taken && old(enqueued) <= enqueued
      ensures running && old(messageQueue) != [] ==> |taken| > |old(taken)|
    {
      OtherThreads();
      if !running || messageQueue == [] {
        return;
      }
      var message := messageQueue[0];
      FlatAppend(taken, message);
      messageQueue, taken, unwritten := messageQueue[1..], taken + [message], message;
      var ok := Write(message);
      if !ok {
        Fail();
      }
    }

    /** Some number of turns of the write loop, under any interleaving with `Enqueue`: while the worker runs,
        everything taken is written, and each turn takes a message if one is there. */
    method WriteLoop(turns: nat)
      requires Valid() && (running ==> unwritten == [])
      modifies this
      ensures Valid()
      ensures old(stdin) <= stdin && old(taken) <= taken && old(enqueued) <= enqueued
      ensures running ==> failures == old(failures) && stdin == Flat(taken)
      ensures running ==> |taken| >= |old(taken)| + Min(turns, |old(messageQueue)|)
      ensures unwritten != old(unwritten) ==> failures == old(failures) + 1
    {
      var turn := 0;
      while running && turn < turns
        invariant 0 <= turn <= turns && Valid()
        invariant old(stdin) <= stdin && old(taken) <= taken && old(enqueued) <= enqueued
        invariant running ==> unwritten == [] && failures == old(failures)
        invariant running ==> |taken| >= |old(taken)| + Min(turn, |old(messageQueue)|)
        invariant unwritten != old(unwritten) ==> failures == old(failures) + 1
        decreases turns - turn
      {
        turn := turn + 1;
        WriteTurn();
      }
    }
  }
}
