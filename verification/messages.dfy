/** Requests, responses and the order in which the server writes responses. */
module Messages {

  /** A C++ `char`: signed, eight bits. */
  type Char = c: int | -128 <= c < 128

  type Bytes = seq<Char>

  /** Sockets are unique tokens; 0 is what a default-constructed socket holds. */
  type Socket = int

  datatype Verb = Create | Destroy | Forward | Stop

  datatype Status = Failure | Success

  datatype Request = Request(verb: Verb, instance: nat, content: Bytes)

  datatype Response = Response(id: nat, priority: int, status: Status, verb: Verb, instance: nat, content: Bytes)

  /** `std::tie(a0, a1) < std::tie(b0, b1)`. */
  predicate TupleLess(a: (int, int), b: (int, int)) {
    a.0 < b.0 || (!(b.0 < a.0) && a.1 < b.1)
  }

  /** `operator<`: the ids are compared crosswise, so the older response is the larger one. */
  predicate Less(a: Response, b: Response) {
    TupleLess((a.priority, b.id), (b.priority, a.id))
  }

  /** `operator>`. */
  predicate Greater(a: Response, b: Response) {
    Less(b, a)
  }

  predicate Equivalent(a: Response, b: Response) {
    !Less(a, b) && !Less(b, a)
  }

  lemma LessIsStrictWeakOrder(a: Response, b: Response, c: Response)
    ensures Less(a, b) <==> a.priority < b.priority || (a.priority == b.priority && a.id > b.id)
    ensures !Less(a, a)
    ensures Less(a, b) && Less(b, c) ==> Less(a, c)
    ensures Less(a, b) ==> Less(a, c) || Less(c, b)
    ensures Equivalent(a, b) && Equivalent(b, c) ==> Equivalent(a, c)
    ensures Equivalent(a, b) <==> a.priority == b.priority && a.id == b.id
    ensures Greater(a, b) <==> !Less(a, b) && !Equivalent(a, b)
  {
  }

  /** What `std::priority_queue::top` promises: no element of the bag is larger than the k-th. */
  predicate IsTop(queue: seq<Response>, k: nat) {
    k < |queue| && forall j :: 0 <= j < |queue| ==> !Less(queue[k], queue[j])
  }

  predicate DistinctIds(queue: seq<Response>) {
    forall j, k :: 0 <= j < k < |queue| ==> queue[j].id != queue[k].id
  }

  /** A non-empty queue has a top, so a pop is always possible. */
  lemma {:induction false} TopExists(queue: seq<Response>) returns (k: nat)
    requires queue != []
    ensures IsTop(queue, k)
  {
    var last := |queue| - 1;
    if last == 0 {
      k := 0;
    } else {
      k := TopExists(queue[..last]);
      if Less(queue[k], queue[last]) {
        forall j | 0 <= j < last ensures !Less(queue[last], queue[j]) {
          assert queue[..last][j] == queue[j];
        }
        k := last;
      } else {
        forall j | 0 <= j < |queue| ensures !Less(queue[k], queue[j]) {
          assert j < last ==> queue[..last][j] == queue[j];
        }
      }
    }
  }

  /** With distinct ids the popped response is a function of the queue's contents alone: two queues
      that hold the same responses in any arrangement have equal tops, and the top beats all others. */
  lemma TopIsDetermined(q1: seq<Response>, k1: nat, q2: seq<Response>, k2: nat)
    requires multiset(q1) == multiset(q2) && DistinctIds(q1)
    requires IsTop(q1, k1) && IsTop(q2, k2)
    ensures q1[k1] == q2[k2]
    ensures forall j :: 0 <= j < |q1| && j != k1 ==> Greater(q1[k1], q1[j])
  {
    assert q1[k1] in multiset(q1) && q2[k2] in multiset(q2);
    assert q1[k1] in q2 && q2[k2] in q1;
    var j :| 0 <= j < |q1| && q1[j] == q2[k2];
    var m :| 0 <= m < |q2| && q2[m] == q1[k1];
    assert !Less(q1[k1], q1[j]) && !Less(q2[k2], q2[m]);
  }
}
