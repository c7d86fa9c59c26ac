/** What it means to split a byte stream into NUL-terminated messages and an unterminated rest. */
module Splitting {
  import opened Messages
  import opened Sequences

  const NUL: Char := 0

  predicate NulFree(s: Bytes) {
    forall i :: 0 <= i < |s| ==> s[i] != NUL
  }

  function Joined(messages: seq<Bytes>): Bytes {
    if messages == [] then [] else Joined(messages[..|messages| - 1]) + messages[|messages| - 1] + [NUL]
  }

  /** The reference definition: terminating every message with NUL and appending the rest rebuilds the stream. */
  predicate IsSplit(stream: Bytes, messages: seq<Bytes>, rest: Bytes) {
    && Joined(messages) + rest == stream
    && NulFree(rest)
    && forall i :: 0 <= i < |messages| ==> NulFree(messages[i])
  }

  lemma JoinedAppend(messages: seq<Bytes>, message: Bytes)
    ensures Joined(messages + [message]) == Joined(messages) + message + [NUL]
  {
    assert (messages + [message])[..|messages|] == messages;
  }

  lemma {:induction false} JoinedConcat(a: seq<Bytes>, b: seq<Bytes>)
    ensures Joined(a + b) == Joined(a) + Joined(b)
  {
    if b == [] {
      assert a + b == a;
    } else {
      var before, last := b[..|b| - 1], b[|b| - 1];
      JoinedConcat(a, before);
      JoinedAppend(a + before, last);
      assert a + b == a + before + [last];
      assert Joined(a) + Joined(before) + last + [NUL] == Joined(a) + (Joined(before) + last + [NUL]);
    }
  }

  /** A stream has at most one split. */
  lemma {:induction false} SplitIsUnique(stream: Bytes, m1: seq<Bytes>, r1: Bytes, m2: seq<Bytes>, r2: Bytes)
    requires IsSplit(stream, m1, r1) && IsSplit(stream, m2, r2)
    ensures m1 == m2 && r1 == r2
    decreases |m1|
  {
    RestIsNotLonger(stream, m1, r1, m2, r2);
    RestIsNotLonger(stream, m2, r2, m1, r1);
    var cut := |stream| - |r1|;
    assert r1 == stream[cut..] == r2;
    assert Joined(m1) == stream[..cut] == Joined(m2);
    if m1 != [] && m2 != [] {
      var init1, init2 := m1[..|m1| - 1], m2[..|m2| - 1];
      var last1, last2 := m1[|m1| - 1], m2[|m2| - 1];
      var shorter := stream[..cut - 1];
      assert Joined(init1) + last1 == shorter == Joined(init2) + last2;
      SplitIsUnique(shorter, init1, last1, init2, last2);
      assert m1 == init1 + [last1] && m2 == init2 + [last2];
    }
  }

  lemma RestIsNotLonger(stream: Bytes, m1: seq<Bytes>, r1: Bytes, m2: seq<Bytes>, r2: Bytes)
    requires IsSplit(stream, m1, r1) && IsSplit(stream, m2, r2)
    ensures |r2| <= |r1|
  {
    assert m1 != [] ==> stream[|Joined(m1)| - 1] == NUL;
    assert forall i :: |stream| - |r2| <= i < |stream| ==> stream[i] == r2[i - |Joined(m2)|];
  }

  /** Splitting a further chunk, prefixed with the rest so far, continues the split of the whole stream. */
  lemma SplitContinues(stream: Bytes, m: seq<Bytes>, rest: Bytes, chunk: Bytes, m': seq<Bytes>, rest': Bytes)
    requires IsSplit(stream, m, rest) && IsSplit(rest + chunk, m', rest')
    ensures IsSplit(stream + chunk, m + m', rest')
  {
    JoinedConcat(m, m');
    calc {
      Joined(m + m') + rest';
      Joined(m) + (Joined(m') + rest');
      Joined(m) + (rest + chunk);
      stream + chunk;
    }
  }

  /** The split of a stream, computed one byte at a time. */
  function Split(stream: Bytes): (seq<Bytes>, Bytes) {
    if stream == [] then
      ([], [])
    else
      var last := |stream| - 1;
      var (messages, rest) := Split(stream[..last]);
      if stream[last] == NUL then (messages + [rest], []) else (messages, rest + [stream[last]])
  }

  lemma SplitGrows(stream: Bytes, messages: seq<Bytes>, rest: Bytes, c: Char)
    requires IsSplit(stream, messages, rest)
    ensures if c == NUL then IsSplit(stream + [c], messages + [rest], []) else IsSplit(stream + [c], messages, rest + [c])
  {
    if c == NUL {
      JoinedAppend(messages, rest);
      assert Joined(messages + [rest]) + [] == stream + [c];
    } else {
      assert Joined(messages) + (rest + [c]) == stream + [c];
    }
  }

  /** Every stream has a split. */
  lemma {:induction false} SplitIsSplit(stream: Bytes)
    ensures IsSplit(stream, Split(stream).0, Split(stream).1)
  {
    if stream == [] {
      assert IsSplit([], [], []) by {
        assert Joined([]) + [] == [];
      }
    } else {
      var last := |stream| - 1;
      SplitIsSplit(stream[..last]);
      SplitGrows(stream[..last], Split(stream[..last]).0, Split(stream[..last]).1, stream[last]);
      assert stream == stream[..last] + [stream[last]];
    }
  }

  /** `Split` is the one function that meets the reference definition. */
  lemma SplitIs(stream: Bytes, messages: seq<Bytes>, rest: Bytes)
    ensures Split(stream) == (messages, rest) <==> IsSplit(stream, messages, rest)
  {
    SplitIsSplit(stream);
    if IsSplit(stream, messages, rest) {
      SplitIsUnique(stream, messages, rest, Split(stream).0, Split(stream).1);
    }
  }

  function CountZeros(s: Bytes): nat {
    if s == [] then 0 else CountZeros(s[..|s| - 1]) + if s[|s| - 1] == 0 then 1 else 0
  }

  /** Messages end at the character 0: there is one for each 0 in the stream, and none is left inside. */
  lemma {:induction false} MessagesEndAtZero(stream: Bytes)
    ensures |Split(stream).0| == CountZeros(stream)
    ensures 0 !in Split(stream).1 && forall m :: m in Split(stream).0 ==> 0 !in m
  {
    if stream != [] {
      MessagesEndAtZero(stream[..|stream| - 1]);
    }
  }

  function MessagesOf(stream: Bytes): seq<Bytes> {
    Split(stream).0
  }

  lemma SplitStep(stream: Bytes, chunk: Bytes)
    ensures var (messages, rest) := Split(stream);
            var (more, rest') := Split(rest + chunk);
            Split(stream + chunk) == (messages + more, rest')
  {
    var (messages, rest) := Split(stream);
    var (more, rest') := Split(rest + chunk);
    SplitIsSplit(stream);
    SplitIsSplit(rest + chunk);
    SplitContinues(stream, messages, rest, chunk, more, rest');
    SplitIs(stream + chunk, messages + more, rest');
  }

  /** What the reader delivers, and is left with, when the stream reaches it in these chunks. */
  function ParseChunks(chunks: seq<Bytes>, prefix: Bytes): (seq<Bytes>, Bytes) {
    if chunks == [] then
      ([], prefix)
    else
      var (messages, rest) := Split(prefix + chunks[0]);
      var (more, last) := ParseChunks(chunks[1..], rest);
      (messages + more, last)
  }

  /** However a stream is cut into chunks, parsing chunk by chunk gives the one-shot split. */
  lemma {:induction false} ChunkingDoesNotMatter(chunks: seq<Bytes>, prefix: Bytes)
    requires NulFree(prefix)
    ensures ParseChunks(chunks, prefix) == Split(prefix + Flat(chunks))
  {
    if chunks == [] {
      SplitOfNulFree(prefix);
      assert prefix + Flat(chunks) == prefix;
    } else {
      SplitIsSplit(prefix + chunks[0]);
      ChunkingDoesNotMatter(chunks[1..], Split(prefix + chunks[0]).1);
      SplitStep(prefix + chunks[0], Flat(chunks[1..]));
      assert prefix + Flat(chunks) == prefix + chunks[0] + Flat(chunks[1..]) by {
        FlatPrepend(chunks[0], chunks[1..]);
        assert [chunks[0]] + chunks[1..] == chunks;
      }
    }
  }

  lemma SplitOfNulFree(s: Bytes)
    requires NulFree(s)
    ensures Split(s) == ([], s)
  {
    assert Joined([]) + s == s;
    SplitIs(s, [], s);
  }
}
