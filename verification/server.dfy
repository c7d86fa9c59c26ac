/** The server's shared state and the critical sections that change it. */
module Servers {
  import opened Messages
  import opened Framing
  import opened Wire

  /** The server's fields, the sockets it closed, and what it did so far: the responses handed to it, those its
      writer popped, those that `unmap` sent past the queue, and every call of `write`. */
  datatype ServerState = ServerState(
    nextId: nat,
    responseQueue: seq<Response>,
    clientMap: map<nat, Socket>,
    clients: seq<Socket>,
    newClients: seq<Socket>,
    closed: set<Socket>,
    handed: seq<Response>,
    popped: seq<Response>,
    direct: seq<Response>,
    wire: seq<Write>)

  const NewServer := ServerState(0, [], map[], [], [], {}, [], [], [], [])

  /** `client_map_[id]`: the value read. */
  function Lookup(m: map<nat, Socket>, id: nat): Socket {
    if id in m then m[id] else 0
  }

  /** `client_map_[id]`: the map afterwards; a miss inserts the default socket. */
  function Touched(m: map<nat, Socket>, id: nat): map<nat, Socket> {
    m[id := Lookup(m, id)]
  }

  function RemoveFirst(s: seq<Socket>, x: Socket): seq<Socket> {
    if s == [] then [] else if s[0] == x then s[1..] else [s[0]] + RemoveFirst(s[1..], x)
  }

  function NotPointingAt(m: map<nat, Socket>, client: Socket): map<nat, Socket> {
    map id | id in m && m[id] != client :: m[id]
  }

  function Enqueued(s: ServerState, r: Response): ServerState {
    s.(responseQueue := s.responseQueue + [r], handed := s.handed + [r])
  }

  /** `send` to a closed socket fails at once. */
  predicate MaySend(s: ServerState, client: Socket, sending: Sending) {
    client in s.closed ==> sending.sent == 0
  }

  function Wrote(s: ServerState, r: Response, client: Socket, sending: Sending): ServerState {
    s.(wire := s.wire + [Write(r, client, sending)])
  }

  /** The final response `r` of an instance is written past the queue, and the instance is forgotten. */
  function Unmapped(s: ServerState, id: nat, r: Response, sending: Sending): ServerState {
    Wrote(s, r, Lookup(s.clientMap, id), sending).(clientMap := s.clientMap - {id}, direct := s.direct + [r])
  }

  function Invalidated(s: ServerState, client: Socket): ServerState {
    s.(clients := RemoveFirst(s.clients, client), clientMap := NotPointingAt(s.clientMap, client),
       closed := s.closed + {client})
  }

  /** The accept loop's critical section. */
  function Accepted(s: ServerState, client: Socket): ServerState {
    s.(clients := s.clients + [client], newClients := s.newClients + [client])
  }

  /** The read loop's critical section for a new client. */
  function Taken(s: ServerState): ServerState
    requires s.newClients != []
  {
    s.(newClients := s.newClients[1..])
  }

  /** A create request gets the lowest free instance id, which is mapped to the sender. */
  function Numbered(s: ServerState, q: Request): Request {
    if q.verb == Create then q.(instance := s.nextId) else q
  }

  function Mapped(s: ServerState, q: Request, client: Socket): ServerState {
    if q.verb == Create then
      s.(nextId := s.nextId + 1,
         clientMap := if s.nextId in s.clientMap then s.clientMap else s.clientMap[s.nextId := client])
    else s
  }

  function Popped(s: ServerState, k: nat): ServerState
    requires k < |s.responseQueue|
  {
    s.(responseQueue := s.responseQueue[..k] + s.responseQueue[k + 1..],
       popped := s.popped + [s.responseQueue[k]],
       clientMap := Touched(s.clientMap, s.responseQueue[k].instance))
  }

  /** Below `n`, mappings may disappear or give way to the default socket, but none appears. */
  predicate Fades(m: map<nat, Socket>, later: map<nat, Socket>, n: nat) {
    forall id :: 0 <= id < n ==> Lookup(later, id) == Lookup(m, id) || Lookup(later, id) == 0
  }

  /** `n` is the entry an iterator moves to from entry `k`: -1 stands for the end. */
  predicate IsSuccessor(m: map<nat, Socket>, k: nat, n: int) {
    if n == -1 then forall j :: j in m ==> j <= k
    else k < n && n in m && forall j :: j in m && k < j ==> n <= j
  }

  lemma {:induction false} RemoveFirstRemovesNone(s: seq<Socket>, x: Socket)
    requires x !in s
    ensures RemoveFirst(s, x) == s
  {
    if s != [] {
      RemoveFirstRemovesNone(s[1..], x);
      assert [s[0]] + s[1..] == s;
    }
  }

  /** What `invalidate` removes from a list: the first occurrence, and nothing is reordered. */
  lemma {:induction false} RemoveFirstRemovesOne(s: seq<Socket>, x: Socket) returns (k: nat)
    requires x in s
    ensures k < |s| && s[k] == x && x !in s[..k]
    ensures RemoveFirst(s, x) == s[..k] + s[k + 1..]
  {
    if s[0] == x {
      k := 0;
    } else {
      var rest := s[1..];
      k := RemoveFirstRemovesOne(rest, x);
      assert s == [s[0]] + rest;
      assert s[..k + 1] == [s[0]] + rest[..k];
      assert s[k + 2..] == rest[k + 1..];
      assert [s[0]] + (rest[..k] + rest[k + 1..]) == s[..k + 1] + s[k + 2..];
      k := k + 1;
    }
  }

  /** Some callback was made for the removal of `id`. */
  predicate Reported(notified: seq<(nat, int)>, id: nat) {
    exists n :: 0 <= n < |notified| && notified[n].0 == id
  }

  predicate InKeyOrder(notified: seq<(nat, int)>) {
    forall j, k :: 0 <= j < k < |notified| ==> notified[j].0 < notified[k].0
  }

  /** The callbacks that `invalidate` makes: one for each removed entry, in key order, each with the key of the
      entry after it. */
  ghost predicate IsReport(m: map<nat, Socket>, client: Socket, notified: seq<(nat, int)>) {
    && InKeyOrder(notified)
    && (forall id :: Reported(notified, id) <==> id in m && m[id] == client)
    && forall n :: 0 <= n < |notified| ==> IsSuccessor(m, notified[n].0, notified[n].1)
  }

  lemma ReportedAppend(notified: seq<(nat, int)>, id: nat, next: int)
    ensures forall j :: Reported(notified + [(id, next)], j) <==> Reported(notified, j) || j == id
  {
    var longer := notified + [(id, next)];
    assert longer[|notified|].0 == id;
    assert forall n :: 0 <= n < |notified| ==> longer[n] == notified[n];
  }

  /** The report so far, when the iterator has passed some of the keys. */
  ghost predicate ReportSoFar(m: map<nat, Socket>, client: Socket, passed: set<nat>, notified: seq<(nat, int)>) {
    && passed <= m.Keys && InKeyOrder(notified)
    && (forall id :: Reported(notified, id) <==> id in passed && m[id] == client)
    && forall n :: 0 <= n < |notified| ==> IsSuccessor(m, notified[n].0, notified[n].1)
  }

  lemma ReportGrows(m: map<nat, Socket>, client: Socket, passed: set<nat>, notified: seq<(nat, int)>, it: nat, next: int)
    requires ReportSoFar(m, client, passed, notified) && it in m && m[it] == client && IsSuccessor(m, it, next)
    requires forall id :: id in passed ==> id < it
    ensures ReportSoFar(m, client, passed + {it}, notified + [(it, next)])
  {
    ReportedAppend(notified, it, next);
    forall n | 0 <= n < |notified| ensures notified[n].0 < it {
      assert Reported(notified, notified[n].0);
    }
  }

  lemma LastIsGreatest(notified: seq<(nat, int)>, id: nat)
    requires InKeyOrder(notified) && Reported(notified, id)
    ensures id <= notified[|notified| - 1].0
  {
  }

  lemma WithoutLast(notified: seq<(nat, int)>)
    requires InKeyOrder(notified) && notified != []
    ensures var last := |notified| - 1;
            forall id :: Reported(notified[..last], id) <==> Reported(notified, id) && id != notified[last].0
  {
    var last := |notified| - 1;
    ReportedAppend(notified[..last], notified[last].0, notified[last].1);
    assert notified == notified[..last] + [notified[last]];
  }

  lemma LastsAgree(r1: seq<(nat, int)>, r2: seq<(nat, int)>)
    requires InKeyOrder(r1) && InKeyOrder(r2) && (forall id :: Reported(r1, id) <==> Reported(r2, id)) && r1 != []
    ensures r2 != [] && r1[|r1| - 1].0 == r2[|r2| - 1].0
  {
    assert Reported(r1, r1[|r1| - 1].0);
    assert r2 != [];
    assert Reported(r2, r2[|r2| - 1].0);
    LastIsGreatest(r1, r2[|r2| - 1].0);
    LastIsGreatest(r2, r1[|r1| - 1].0);
  }

  /** There is only one report. */
  lemma {:induction false} ReportIsDetermined(m: map<nat, Socket>, r1: seq<(nat, int)>, r2: seq<(nat, int)>)
    requires InKeyOrder(r1) && InKeyOrder(r2) && forall id :: Reported(r1, id) <==> Reported(r2, id)
    requires forall n :: 0 <= n < |r1| ==> IsSuccessor(m, r1[n].0, r1[n].1)
    requires forall n :: 0 <= n < |r2| ==> IsSuccessor(m, r2[n].0, r2[n].1)
    ensures r1 == r2
  {
    if r1 == [] {
      assert r2 != [] ==> Reported(r2, r2[0].0);
    } else {
      LastsAgree(r1, r2);
      var last1, last2 := |r1| - 1, |r2| - 1;
      assert IsSuccessor(m, r1[last1].0, r1[last1].1) && IsSuccessor(m, r2[last2].0, r2[last2].1);
      WithoutLast(r1);
      WithoutLast(r2);
      ReportIsDetermined(m, r1[..last1], r2[..last2]);
      assert r1 == r1[..last1] + [r1[last1]] && r2 == r2[..last2] + [r2[last2]];
    }
  }

  predicate GreatestPointsAt(m: map<nat, Socket>, client: Socket) {
    exists g :: g in m && m[g] == client && forall j :: j in m ==> j <= g
  }

  /** A callback is given a key from past the end of the map if and only if the entry with the greatest key
      points at the client; every other callback is given a later key that is still in the map, so never the
      key that was removed. */
  lemma CallbackPastTheEnd(m: map<nat, Socket>, client: Socket, notified: seq<(nat, int)>)
    requires IsReport(m, client, notified)
    ensures (exists n :: 0 <= n < |notified| && notified[n].1 == -1) <==> GreatestPointsAt(m, client)
    ensures forall n :: 0 <= n < |notified| && notified[n].1 != -1 ==> notified[n].0 < notified[n].1 && notified[n].1 in m
  {
    forall n | 0 <= n < |notified| ensures Reported(notified, notified[n].0) && IsSuccessor(m, notified[n].0, notified[n].1) {
    }
    if GreatestPointsAt(m, client) {
      var g :| g in m && m[g] == client && forall j :: j in m ==> j <= g;
      assert Reported(notified, g);
      var n :| 0 <= n < |notified| && notified[n].0 == g;
      assert notified[n].1 == -1;
    }
  }

  /** One input for each: client 7 leaves with instance 3, alone or beside instance 5 of client 8. */
  lemma InvalidateExamples(alone: seq<(nat, int)>, beside: seq<(nat, int)>)
    requires IsReport(map[3 := 7], 7, alone) && IsReport(map[3 := 7, 5 := 8], 7, beside)
    ensures alone == [(3, -1)] && beside == [(3, 5)]
  {
    assert [(3, -1)][0].0 == 3 && [(3, 5)][0].0 == 3;
    assert forall id :: Reported([(3, -1)], id) <==> id == 3;
    assert forall id :: Reported([(3, 5)], id) <==> id == 3;
    ReportIsDetermined(map[3 := 7], alone, [(3, -1)]);
    ReportIsDetermined(map[3 := 7, 5 := 8], beside, [(3, 5)]);
  }

  /** The map when the iterator still has the keys `rest` before it. */
  function ErasedSoFar(m: map<nat, Socket>, client: Socket, rest: set<nat>): map<nat, Socket> {
    map id | id in m && (id in rest || m[id] != client) :: m[id]
  }

  lemma PassingErases(m: map<nat, Socket>, client: Socket, rest: set<nat>, it: nat)
    requires it in rest && it in m
    ensures it in ErasedSoFar(m, client, rest) && ErasedSoFar(m, client, rest)[it] == m[it]
    ensures ErasedSoFar(m, client, rest - {it}) ==
            if m[it] == client then ErasedSoFar(m, client, rest) - {it} else ErasedSoFar(m, client, rest)
  {
  }

  class Server {
    var nextId: nat
    var responseQueue: seq<Response>
    var clientMap: map<nat, Socket>
    var clients: seq<Socket>
    var newClients: seq<Socket>
    var closed: set<Socket>

    // What the server was given and what it did.
    ghost var handed: seq<Response>
    ghost var popped: seq<Response>
    ghost var direct: seq<Response>
    ghost var wire: seq<Write>

    ghost function State(): ServerState
      reads this
    {
      ServerState(nextId, responseQueue, clientMap, clients, newClients, closed, handed, popped, direct, wire)
    }

    constructor ()
      ensures State() == NewServer
    {
      nextId, responseQueue, clientMap, clients, newClients, closed := 0, [], map[], [], [], {};
      handed, popped, direct, wire := [], [], [], [];
    }

    method AcceptClient(client: Socket)
      modifies this`clients, this`newClients
      ensures State() == Accepted(old(State()), client)
      ensures clients == old(clients) + [client] && newClients == old(newClients) + [client]
    {
      clients := clients + [client];
      newClients := newClients + [client];
    }

    method TakeNewClient() returns (recent: Socket)
      requires newClients != []
      modifies this`newClients
      ensures recent == old(newClients)[0] && State() == Taken(old(State()))
      ensures newClients == old(newClients)[1..]
    {
      recent := newClients[0];
      newClients := newClients[1..];
    }

    method Enqueue(r: Response)
      modifies this`responseQueue, this`handed
      ensures State() == Enqueued(old(State()), r)
      ensures responseQueue == old(responseQueue) + [r]
    {
      responseQueue, handed := responseQueue + [r], handed + [r];
    }

    /** `client_map_[id]`. */
    method MapAt(id: nat) returns (client: Socket)
      modifies this`clientMap
      ensures client == Lookup(old(clientMap), id)
      ensures clientMap == Touched(old(clientMap), id)
      ensures client == (if id in old(clientMap) then old(clientMap)[id] else 0) && clientMap == old(clientMap)[id := client]
    {
      if id !in clientMap {
        clientMap := clientMap[id := 0];
      }
      client := clientMap[id];
    }

    /** The JSON library's encoding of a response. */
    static method Dump(r: Response) returns (raw: Bytes) {
      raw := *;
    }

    /** `write`, over a connection that may fail at any byte. */
    method WriteTo(client: Socket, r: Response) returns (sending: Sending)
      modifies this`wire
      ensures State() == Wrote(old(State()), r, client, sending) && MaySend(old(State()), client, sending)
      ensures wire == old(wire) + [Write(r, client, sending)] && (client in closed ==> sending.sent == 0)
    {
      var raw := Dump(r);
      if client in closed {
        sending := Attempt(raw, 0);
      } else {
        var connection := new Connection([], false);
        var _ := connection.Write(raw);
        assert connection.outbox <= [] + FrameOf(raw);
        sending := Attempt(raw, |connection.outbox|);
      }
      wire := wire + [Write(r, client, sending)];
    }

    /** Sends the final response of an instance past the queues, and forgets the instance even if that fails. */
    method Unmap(id: nat, r: Response) returns (sending: Sending)
      modifies this`clientMap, this`direct, this`wire
      ensures State() == Unmapped(old(State()), id, r, sending)
      ensures MaySend(old(State()), Lookup(old(clientMap), id), sending)
      ensures clientMap == old(clientMap) - {id}
      ensures wire == old(wire) + [Write(r, if id in old(clientMap) then old(clientMap)[id] else 0, sending)]
    {
      var client := MapAt(id);
      sending := WriteTo(client, r);
      direct := direct + [r];
      clientMap := clientMap - {id};
      assert clientMap == old(clientMap) - {id};
    }

    static method Least(keys: set<nat>) returns (least: nat)
      requires keys != {}
      ensures least in keys && forall k :: k in keys ==> least <= k
    {
      least :| least in keys;
      var seen := {least};
      while seen != keys
        invariant seen <= keys && least in seen && forall k :: k in seen ==> least <= k
        decreases keys - seen
      {
        assert exists k :: k in keys && k !in seen;
        var k :| k in keys && k !in seen;
        seen := seen + {k};
        if k < least {
          least := k;
        }
      }
    }

    /** Erases while iterating in key order. The pairs report, for each entry removed, the entry that
        the iterator stood on when the callbacks were given its key: the one after, not the one removed. */
    method Invalidate(client: Socket) returns (notified: seq<(nat, int)>)
      modifies this`clients, this`clientMap, this`closed
      ensures State() == Invalidated(old(State()), client)
      ensures IsReport(old(clientMap), client, notified)
      ensures forall id :: id in clientMap <==> id in old(clientMap) && old(clientMap)[id] != client
      ensures forall id :: id in clientMap ==> clientMap[id] == old(clientMap)[id]
      ensures client !in old(clients) ==> clients == old(clients)
      ensures client in closed
    {
      clients := RemoveFirst(clients, client);
      notified := [];
      ghost var before := clientMap;
      assert ErasedSoFar(before, client, before.Keys) == before;
      var rest := clientMap.Keys;  // from the iterator to the end
      ghost var passed: set<nat> := {};
      while rest != {}
        invariant clients == RemoveFirst(old(clients), client) && closed == old(closed)
        invariant rest !! passed && rest + passed == before.Keys
        invariant forall j, k :: j in passed && k in rest ==> j < k
        invariant clientMap == ErasedSoFar(before, client, rest)
        invariant ReportSoFar(before, client, passed, notified)
        decreases rest
      {
        var it := Least(rest);
        PassingErases(before, client, rest, it);
        rest := rest - {it};
        if clientMap[it] == client {
          clientMap := clientMap - {it};
          var next := Following(rest);
          assert forall j :: j in before ==> j in rest || j in passed || j == it;
          ReportGrows(before, client, passed, notified, it, next);
          notified := notified + [(it, next)];
        }
        passed := passed + {it};
      }
      assert ErasedSoFar(before, client, {}) == NotPointingAt(before, client);
      closed := closed + {client};
      if client !in old(clients) {
        RemoveFirstRemovesNone(old(clients), client);
      }
    }

    /** The key an iterator stands on when these keys are left, or -1 past the end. */
    static method Following(rest: set<nat>) returns (next: int)
      ensures if next == -1 then rest == {} else next in rest && forall k :: k in rest ==> next <= k
    {
      next := -1;
      if rest != {} {
        next := Least(rest);
      }
    }

    /** The critical section of the read loop for a request that was read from `client`. */
    method MapRequest(q: Request, client: Socket) returns (numbered: Request)
      modifies this`nextId, this`clientMap
      ensures numbered == Numbered(old(State()), q)
      ensures State() == Mapped(old(State()), q, client)
      ensures numbered.verb == q.verb && numbered.content == q.content
      ensures q.verb != Create ==> numbered == q && nextId == old(nextId) && clientMap == old(clientMap)
      ensures q.verb == Create ==> numbered.instance == old(nextId) && nextId == old(nextId) + 1
      ensures q.verb == Create && old(nextId) !in old(clientMap) ==> clientMap == old(clientMap)[old(nextId) := client]
      ensures q.verb == Create && old(nextId) in old(clientMap) ==> clientMap == old(clientMap)
    {
      numbered := q;
      if q.verb == Create {
        numbered := q.(instance := nextId);
        nextId := nextId + 1;
        if numbered.instance !in clientMap {
          clientMap := clientMap[numbered.instance := client];
        }
      }
    }

    /** The writer's critical section on a non-empty queue: the response popped was the k-th, and its client is
        looked up. */
    method PopResponse() returns (k: nat, r: Response, client: Socket)
      requires responseQueue != []
      modifies this`responseQueue, this`clientMap, this`popped
      ensures IsTop(old(responseQueue), k) && r == old(responseQueue)[k]
      ensures client == Lookup(old(clientMap), r.instance)
      ensures State() == Popped(old(State()), k)
      ensures forall j :: 0 <= j < |old(responseQueue)| ==>
        old(responseQueue)[j].priority < r.priority ||
        (old(responseQueue)[j].priority == r.priority && old(responseQueue)[j].id >= r.id)
      ensures responseQueue == old(responseQueue)[..k] + old(responseQueue)[k + 1..]
      ensures clientMap == old(clientMap)[r.instance := client]
    {
      ghost var top := TopExists(responseQueue);
      k :| 0 <= k < |responseQueue| && IsTop(responseQueue, k);
      r := responseQueue[k];
      responseQueue, popped := responseQueue[..k] + responseQueue[k + 1..], popped + [r];
      client := MapAt(r.instance);
    }

    /** Some critical section of the accept or the read thread. */
    method ClientSection()
      modifies this`nextId, this`clientMap, this`clients, this`newClients, this`closed
      ensures old(nextId) <= nextId && Fades(old(clientMap), clientMap, old(nextId))
    {
      var client: Socket := *;
      if {
        case true => AcceptClient(client);
        case newClients != [] => var _ := TakeNewClient();
        case true => var _ := Invalidate(client);
        case true =>
          var q: Request := *;
          var _ := MapRequest(q, client);
      }
    }

    /** What the conductor and the other threads of the server may do while the writer holds a response. */
    method AroundWriter(sections: nat)
      modifies this`nextId, this`clientMap, this`clients, this`newClients, this`closed, this`responseQueue, this`handed, this`direct, this`wire
      ensures old(nextId) <= nextId && Fades(old(clientMap), clientMap, old(nextId))
      ensures old(wire) <= wire && old(handed) <= handed && old(direct) <= direct
    {
      var n := 0;
      while n < sections
        invariant old(nextId) <= nextId && Fades(old(clientMap), clientMap, old(nextId))
        invariant old(wire) <= wire && old(handed) <= handed && old(direct) <= direct
      {
        var r: Response := *;
        if {
          case true => ClientSection();
          case true => Enqueue(r);
          case true => var _ := Unmap(r.instance, r);
        }
        n := n + 1;
      }
    }

    /** What the threads of the server may do between two critical sections of the conductor. */
    method AroundConductor(sections: nat)
      modifies this`nextId, this`clientMap, this`clients, this`newClients, this`closed, this`responseQueue, this`popped, this`wire
      ensures old(nextId) <= nextId && Fades(old(clientMap), clientMap, old(nextId))
      ensures old(wire) <= wire && old(popped) <= popped
    {
      var n := 0;
      while n < sections
        invariant old(nextId) <= nextId && Fades(old(clientMap), clientMap, old(nextId))
        invariant old(wire) <= wire && old(popped) <= popped
      {
        if {
          case true => ClientSection();
          case responseQueue != [] => var _, _, _ := PopResponse();
          case true =>
            var client: Socket, r: Response := *, *;
            var _ := WriteTo(client, r);
        }
        n := n + 1;
      }
    }

    /** What the writer does with the response it holds: a failed write, and only that, invalidates the socket. */
    method WriteResponse(client: Socket, r: Response) returns (sending: Sending)
      modifies this`wire, this`clients, this`clientMap, this`closed
      ensures wire == old(wire) + [Write(r, client, sending)] && (client in old(closed) ==> sending.sent == 0)
      ensures State() == if sending.sent == FrameSize(sending.raw) then Wrote(old(State()), r, client, sending)
                         else Invalidated(Wrote(old(State()), r, client, sending), client)
    {
      sending := WriteTo(client, r);
      if !Completed(sending) {
        var _ := Invalidate(client);
      }
    }

    /** One turn of the write loop on a non-empty queue. The response is written to the socket found when it was
        popped, whatever happened to the mapping meanwhile; if the write fails, that socket is invalidated. */
    method WriteTurn() returns (k: nat, client: Socket, sending: Sending)
      requires responseQueue != []
      modifies this
      ensures IsTop(old(responseQueue), k) && popped == old(popped) + [old(responseQueue)[k]]
      ensures client == Lookup(old(clientMap), old(responseQueue)[k].instance)
      ensures wire != [] && wire[|wire| - 1] == Write(old(responseQueue)[k], client, sending) && old(wire) <= wire
      ensures !Completed(sending) ==> forall id :: id in clientMap ==> clientMap[id] != client
      ensures Fades(old(clientMap), clientMap, old(nextId))
    {
      var r;
      k, r, client := PopResponse();
      assert Fades(old(clientMap), clientMap, old(nextId));
      var sections: nat := *;
      AroundWriter(sections);
      assert Fades(old(clientMap), clientMap, old(nextId));
      sending := WriteResponse(client, r);
    }
  }
}
