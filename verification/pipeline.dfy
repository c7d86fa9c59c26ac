/** The way of a response from the conductor's counter to the server's writer:
    `out_queue_`, hand-over, `response_queue_`, pop. */
module Pipeline {
  import opened Messages

  /** A way to pick responses out of a sequence. */
  datatype Selector = OfPriority(priority: int) | ForwardsOf(instance: nat) | QueuedFor(instance: nat) | Creates

  predicate Picks(sel: Selector, r: Response) {
    match sel
    case OfPriority(p) => r.priority == p
    case ForwardsOf(i) => r.verb == Forward && r.instance == i
    case QueuedFor(i) => r.instance == i && !(r.verb == Destroy && r.status == Success)
    case Creates => r.verb == Create
  }

  function Pick(s: seq<Response>, sel: Selector): seq<Response> {
    if s == [] then [] else
      var last := |s| - 1;
      Pick(s[..last], sel) + if Picks(sel, s[last]) then [s[last]] else []
  }

  lemma PickAppend(s: seq<Response>, r: Response, sel: Selector)
    ensures Pick(s + [r], sel) == Pick(s, sel) + if Picks(sel, r) then [r] else []
  {
    assert (s + [r])[..|s|] == s;
  }

  lemma {:induction false} PickConcat(a: seq<Response>, b: seq<Response>, sel: Selector)
    ensures Pick(a + b, sel) == Pick(a, sel) + Pick(b, sel)
  {
    if b == [] {
      assert a + b == a;
    } else {
      var last := |b| - 1;
      PickConcat(a, b[..last], sel);
      assert (a + b)[..|a + b| - 1] == a + b[..last];
    }
  }

  lemma {:induction false} PickNone(s: seq<Response>, sel: Selector)
    requires forall r :: r in s ==> !Picks(sel, r)
    ensures Pick(s, sel) == []
  {
    if s != [] {
      PickNone(s[..|s| - 1], sel);
    }
  }

  /** Picking by a selector that asks for more than another one did. */
  lemma {:induction false} PickTwice(s: seq<Response>, wide: Selector, narrow: Selector)
    requires forall r :: Picks(narrow, r) ==> Picks(wide, r)
    ensures Pick(Pick(s, wide), narrow) == Pick(s, narrow)
  {
    if s != [] {
      var last := |s| - 1;
      PickTwice(s[..last], wide, narrow);
      assert Pick(s[..last], wide) + [] == Pick(s[..last], wide);
      PickAppend(Pick(s[..last], wide), s[last], narrow);
    }
  }

  lemma PickOfPrefix(x: seq<Response>, y: seq<Response>, sel: Selector)
    requires x <= y
    ensures Pick(x, sel) <= Pick(y, sel)
  {
    assert y == x + y[|x|..];
    PickConcat(x, y[|x|..], sel);
  }

  /** `direct` holds the responses that bypass the queues; `made`, `handed` and `popped` are histories. */
  datatype Pipe = Pipe(nextId: nat, made: seq<Response>, direct: seq<Response>, handed: seq<Response>,
                       out: seq<Response>, queue: seq<Response>, popped: seq<Response>)
  {
    /** Every response ever put in the out queue, in order. */
    function Queued(): seq<Response> {
      handed + out
    }
  }

  function Emit(p: Pipe, r: Response): Pipe {
    p.(nextId := p.nextId + 1, made := p.made + [r], out := p.out + [r])
  }

  function EmitDirect(p: Pipe, r: Response): Pipe {
    p.(nextId := p.nextId + 1, made := p.made + [r], direct := p.direct + [r])
  }

  function HandOver(p: Pipe): Pipe
    requires p.out != []
  {
    p.(handed := p.handed + [p.out[0]], out := p.out[1..], queue := p.queue + [p.out[0]])
  }

  function Remove<T>(s: seq<T>, k: nat): seq<T>
    requires k < |s|
  {
    s[..k] + s[k + 1..]
  }

  /** `top` and `pop`; the bag is kept in order of insertion. */
  function Pop(p: Pipe, k: nat): Pipe
    requires IsTop(p.queue, k)
  {
    p.(queue := Remove(p.queue, k), popped := p.popped + [p.queue[k]])
  }

  // ---------------------------------------------------------------- accounting

  predicate Increasing(s: seq<Response>) {
    forall j, k :: 0 <= j < k < |s| ==> s[j].id < s[k].id
  }

  /** Each id given out so far belongs to one response, which is in exactly one place. */
  predicate Accounted(p: Pipe) {
    && |p.made| == p.nextId
    && (forall k :: 0 <= k < p.nextId ==> p.made[k].id == k)
    && multiset(p.made) == multiset(p.direct) + multiset(p.out) + multiset(p.queue) + multiset(p.popped)
    && multiset(p.handed) == multiset(p.queue) + multiset(p.popped)
    && Increasing(p.Queued())
    && Increasing(p.queue)
  }

  lemma RemoveOne<T>(s: seq<T>, k: nat)
    requires k < |s|
    ensures multiset(s) == multiset(Remove(s, k)) + multiset{s[k]}
  {
    assert s == s[..k] + [s[k]] + s[k + 1..];
  }

  lemma IdsAreBelow(p: Pipe, r: Response)
    requires Accounted(p)
    requires r in p.direct || r in p.Queued() || r in p.queue || r in p.popped
    ensures r in p.made && r.id < p.nextId && p.made[r.id] == r
  {
    assert r in p.handed ==> r in multiset(p.handed);
    assert r in multiset(p.made);
    assert r in p.made;
  }

  lemma EmitKeepsAccounts(p: Pipe, r: Response)
    requires Accounted(p) && r.id == p.nextId
    ensures Accounted(Emit(p, r))
  {
    assert Emit(p, r).Queued() == p.Queued() + [r];
    forall q | q in p.Queued() ensures q.id < r.id {
      IdsAreBelow(p, q);
    }
  }

  lemma EmitDirectKeepsAccounts(p: Pipe, r: Response)
    requires Accounted(p) && r.id == p.nextId
    ensures Accounted(EmitDirect(p, r))
  {
  }

  lemma HandOverKeepsAccounts(p: Pipe)
    requires Accounted(p) && p.out != []
    ensures Accounted(HandOver(p)) && HandOver(p).Queued() == p.Queued()
  {
    var r := p.out[0];
    assert p.out == [r] + p.out[1..];
    assert HandOver(p).Queued() == p.Queued();
    forall k | 0 <= k < |p.queue| ensures p.queue[k].id < r.id {
      QueueIsOlder(p, k, 0);
    }
  }

  /** Whatever waits for the writer is older than whatever waits for the conductor. */
  lemma QueueIsOlder(p: Pipe, k: nat, j: nat)
    requires Accounted(p) && k < |p.queue| && j < |p.out|
    ensures p.queue[k].id < p.out[j].id
  {
    assert p.queue[k] in multiset(p.queue);
    assert p.queue[k] in multiset(p.handed);
    var m :| 0 <= m < |p.handed| && p.handed[m] == p.queue[k];
    assert p.Queued()[m] == p.queue[k] && p.Queued()[|p.handed| + j] == p.out[j];
  }

  lemma AgesOfQueues(p: Pipe)
    requires Accounted(p)
    ensures Increasing(p.out)
    ensures forall k, j :: 0 <= k < |p.queue| && 0 <= j < |p.out| ==> p.queue[k].id < p.out[j].id
  {
    forall k, j | 0 <= k < |p.queue| && 0 <= j < |p.out| ensures p.queue[k].id < p.out[j].id {
      QueueIsOlder(p, k, j);
    }
    assert forall k :: 0 <= k < |p.out| ==> p.Queued()[|p.handed| + k] == p.out[k];
  }

  lemma PopKeepsAccounts(p: Pipe, k: nat)
    requires Accounted(p) && IsTop(p.queue, k)
    ensures Accounted(Pop(p, k))
  {
    RemoveOne(p.queue, k);
  }

  /** A response that was given id n is in exactly one of the four places, exactly once, and no
      other response with that id is anywhere. */
  lemma ExactlyOnce(p: Pipe, n: nat)
    requires Accounted(p) && n < p.nextId
    ensures var all := p.direct + p.out + p.queue + p.popped;
            exists k :: 0 <= k < |all| && all[k].id == n && forall j :: 0 <= j < |all| && j != k ==> all[j].id != n
  {
    var all := p.direct + p.out + p.queue + p.popped;
    assert multiset(all) == multiset(p.made);
    assert p.made[n] in multiset(all);
    var k :| 0 <= k < |all| && all[k] == p.made[n];
    forall j | 0 <= j < |all| && j != k ensures all[j].id != n {
      if all[j].id == n {
        assert all[j] in multiset(p.made);
        assert all[j] == p.made[n];
        CountsTwice(all, j, k);
        OccursOnce(p.made, n);
      }
    }
  }

  /** No id but those given out is in any of the four places. */
  lemma NoOtherIds(p: Pipe)
    requires Accounted(p)
    ensures var all := p.direct + p.out + p.queue + p.popped;
            |all| == p.nextId && forall k :: 0 <= k < |all| ==> all[k].id < p.nextId
  {
    var all := p.direct + p.out + p.queue + p.popped;
    assert multiset(all) == multiset(p.made);
    assert |multiset(all)| == |all| && |multiset(p.made)| == |p.made|;
    forall k | 0 <= k < |all| ensures all[k].id < p.nextId {
      assert all[k] in multiset(p.made);
    }
  }

  lemma CountsTwice<T>(s: seq<T>, j: nat, k: nat)
    requires j < |s| && k < |s| && j != k && s[j] == s[k]
    ensures multiset(s)[s[k]] >= 2
  {
    RemoveOne(s, k);
    var rest := Remove(s, k);
    assert s[j] == rest[if j < k then j else j - 1];
    assert s[j] in multiset(rest);
  }

  lemma OccursOnce(s: seq<Response>, n: nat)
    requires n < |s| && forall k :: 0 <= k < |s| ==> s[k].id == k
    ensures multiset(s)[s[n]] == 1
  {
    RemoveOne(s, n);
    var rest := Remove(s, n);
    assert forall k :: 0 <= k < |rest| ==> rest[k] == s[if k < n then k else k + 1];
    assert s[n] !in rest;
  }

  // ---------------------------------------------------------------- first in, first out per priority

  /** The selected responses leave the priority queue in the order in which they were handed over. */
  predicate Fifo(p: Pipe, sel: Selector) {
    Pick(p.handed, sel) == Pick(p.popped, sel) + Pick(p.queue, sel)
  }

  predicate SamePriority(s: seq<Response>, sel: Selector) {
    forall j, k :: 0 <= j < |s| && 0 <= k < |s| && Picks(sel, s[j]) && Picks(sel, s[k]) ==> s[j].priority == s[k].priority
  }

  lemma HandOverKeepsFifo(p: Pipe, sel: Selector)
    requires p.out != [] && Fifo(p, sel)
    ensures Fifo(HandOver(p), sel)
  {
    PickAppend(p.handed, p.out[0], sel);
    PickAppend(p.queue, p.out[0], sel);
  }

  lemma PickAround(s: seq<Response>, k: nat, sel: Selector)
    requires k < |s|
    ensures Pick(s, sel) == Pick(s[..k], sel) + (if Picks(sel, s[k]) then [s[k]] else []) + Pick(s[k + 1..], sel)
    ensures Pick(Remove(s, k), sel) == Pick(s[..k], sel) + Pick(s[k + 1..], sel)
  {
    PickConcat(s[..k], s[k + 1..], sel);
    PickAppend(s[..k], s[k], sel);
    PickConcat(s[..k] + [s[k]], s[k + 1..], sel);
    assert s == s[..k] + [s[k]] + s[k + 1..];
  }

  /** An older response of the same priority would be larger than the top. */
  lemma TopIsOldestOfItsKind(queue: seq<Response>, k: nat, sel: Selector)
    requires IsTop(queue, k) && Increasing(queue) && SamePriority(queue, sel) && Picks(sel, queue[k])
    ensures Pick(queue[..k], sel) == []
  {
    forall q | q in queue[..k] ensures !Picks(sel, q) {
      var j :| 0 <= j < k && queue[j] == q;
      assert !Less(queue[k], q);
    }
    PickNone(queue[..k], sel);
  }

  /** Taking the oldest of its kind moves it from the front of one picked sequence to the end of the other. */
  lemma MoveOldest(popped: seq<Response>, queue: seq<Response>, k: nat, sel: Selector)
    requires k < |queue| && (Picks(sel, queue[k]) ==> Pick(queue[..k], sel) == [])
    ensures Pick(popped + [queue[k]], sel) + Pick(Remove(queue, k), sel) == Pick(popped, sel) + Pick(queue, sel)
  {
    PickAround(queue, k, sel);
    PickAppend(popped, queue[k], sel);
    Regroup(Pick(popped, sel), Pick(queue[..k], sel), if Picks(sel, queue[k]) then [queue[k]] else [], Pick(queue[k + 1..], sel));
  }

  lemma Regroup<T>(a: seq<T>, b: seq<T>, c: seq<T>, d: seq<T>)
    requires b == [] || c == []
    ensures (a + c) + (b + d) == a + (b + c + d)
  {
    if b == [] {
      assert b + c == c && b + d == d;
    } else {
      assert a + c == a && b + c == b;
    }
  }

  lemma PopKeepsFifo(p: Pipe, k: nat, sel: Selector)
    requires IsTop(p.queue, k) && Increasing(p.queue) && SamePriority(p.queue, sel) && Fifo(p, sel)
    ensures Fifo(Pop(p, k), sel)
  {
    if Picks(sel, p.queue[k]) {
      TopIsOldestOfItsKind(p.queue, k, sel);
    }
    MoveOldest(p.popped, p.queue, k, sel);
  }

  // ---------------------------------------------------------------- create comes first

  predicate IsCreate(r: Response, instance: nat) {
    r.verb == Create && r.status == Success && r.instance == instance && r.priority == 1
  }

  predicate HasCreate(s: seq<Response>, instance: nat) {
    exists k :: 0 <= k < |s| && IsCreate(s[k], instance)
  }

  /** No response of a worker precedes the successful create response of its instance. */
  predicate CreateFirst(s: seq<Response>) {
    forall k :: 0 <= k < |s| && s[k].verb != Create ==> HasCreate(s[..k], s[k].instance)
  }

  predicate AtMostOne(s: seq<Response>) {
    forall k :: 0 <= k < |s| ==> s[k].priority <= 1
  }

  lemma CreateFirstAppend(s: seq<Response>, r: Response)
    requires CreateFirst(s) && (r.verb == Create || HasCreate(s, r.instance))
    ensures CreateFirst(s + [r])
  {
    var t := s + [r];
    forall k | 0 <= k < |t| && t[k].verb != Create ensures HasCreate(t[..k], t[k].instance) {
      assert t[..k] == s[..k];
      assert s[..|s|] == s;
    }
  }

  /** The writer cannot overtake a create response: it is older and has the highest priority in use. */
  lemma PopKeepsCreateFirst(p: Pipe, k: nat)
    requires Accounted(p) && IsTop(p.queue, k)
    requires CreateFirst(p.Queued()) && AtMostOne(p.Queued()) && CreateFirst(p.popped)
    ensures CreateFirst(Pop(p, k).popped)
  {
    var r := p.queue[k];
    if r.verb != Create {
      assert r in multiset(p.queue);
      assert r in multiset(p.handed);
      var m :| 0 <= m < |p.handed| && p.handed[m] == r;
      assert p.Queued()[m] == r;
      var c :| 0 <= c < m && IsCreate(p.Queued()[..m][c], r.instance);
      var create := p.handed[c];
      assert p.Queued()[c] == create == p.Queued()[..m][c];
      assert create in multiset(p.handed);
      assert Less(r, create);
      assert create !in p.queue;
      assert create in multiset(p.popped);
      assert HasCreate(p.popped, r.instance);
    }
    CreateFirstAppend(p.popped, r);
  }
}
