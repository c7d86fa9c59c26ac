/** Concatenation of a sequence of sequences. */
module Sequences {

  function Flat<T>(parts: seq<seq<T>>): seq<T> {
    if parts == [] then [] else Flat(parts[..|parts| - 1]) + parts[|parts| - 1]
  }

  lemma {:induction false} FlatConcat<T>(a: seq<seq<T>>, b: seq<seq<T>>)
    ensures Flat(a + b) == Flat(a) + Flat(b)
  {
    if b == [] {
      assert a + b == a;
    } else {
      var last := |b| - 1;
      FlatConcat(a, b[..last]);
      assert (a + b)[..|a + b| - 1] == a + b[..last];
    }
  }

  lemma FlatAppend<T>(a: seq<seq<T>>, part: seq<T>)
    ensures Flat(a + [part]) == Flat(a) + part
  {
    assert (a + [part])[..|a|] == a;
  }

  lemma FlatPrepend<T>(part: seq<T>, a: seq<seq<T>>)
    ensures Flat([part] + a) == part + Flat(a)
  {
    FlatConcat([part], a);
    assert Flat([part]) == Flat([]) + part == part;
  }

  lemma PrefixOfConcat<T>(a: seq<T>, b: seq<T>, n: nat)
    requires |a| <= n <= |a| + |b|
    ensures (a + b)[..n] == a + b[..n - |a|]
  {
  }
}
