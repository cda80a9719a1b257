/**
 * The signaling server of server/index.js: a table from room id to the set of
 * socket ids in it, and the handlers that run for each socket event. Every emission
 * is recorded in an append-only log of deliveries, one entry per recipient socket.
 *
 * The table is socket.io's in-memory adapter, whose own behaviour the server relies
 * on: a socket enters a room named by its own id when it connects, and leaves every
 * room when it disconnects, an emptied room being deleted.
 */
module Relay {
  import opened WebRtc

  /** One event arriving at one socket. */
  datatype Delivery = Delivery(to: SocketId, event: Event, payload: Payload)

  type Rooms = map<RoomId, set<SocketId>>

  /** The members of room `r`; a room nobody joined has none. */
  function Members(rooms: Rooms, r: RoomId): set<SocketId>
  {
    if r in rooms then rooms[r] else {}
  }

  /** The table after socket `s` joins room `r` (`socket.join(roomId)`). */
  function Joined(rooms: Rooms, s: SocketId, r: RoomId): (j: Rooms)
    ensures r in j && s in j[r] && rooms.Keys <= j.Keys
  {
    rooms[r := Members(rooms, r) + {s}]
  }

  /**
   * The table after socket `s` disconnects: the adapter removes it from every room
   * and deletes the rooms this leaves empty.
   */
  function Left(rooms: Rooms, s: SocketId): (j: Rooms)
    ensures j.Keys <= rooms.Keys
    ensures forall r :: r in j ==> s !in j[r] && j[r] != {} && j[r] <= rooms[r]
  {
    map r | r in rooms && rooms[r] - {s} != {} :: rooms[r] - {s}
  }

  /** Who receives `ready` once a join has left `rooms`: the whole room when it has exactly two members. */
  function ReadyRecipients(rooms: Rooms, r: RoomId): (rr: set<SocketId>)
    ensures rr == {} || (|rr| == 2 && rr == Members(rooms, r))
  {
    if |Members(rooms, r)| == 2 then Members(rooms, r) else {}
  }

  /**
   * Who receives a relayed message (`socket.to(roomId)`). socket.io 4 broadcasts to the
   * room except every socket in the room named by the sender's id, which a connected
   * sender is always in; a sender that is not is left out as well.
   */
  function ForwardRecipients(rooms: Rooms, r: RoomId, sender: SocketId): (f: set<SocketId>)
    ensures sender !in f && f <= Members(rooms, r)
    ensures forall t :: t in Members(rooms, sender) ==> t !in f
  {
    Members(rooms, r) - Members(rooms, sender) - {sender}
  }

  /** The three events the server relays. */
  predicate IsRelayed(ev: Event)
  {
    ev == Offer || ev == Answer || ev == IceCandidate
  }

  /** The set of recipients of a batch of deliveries. */
  function Recipients(batch: seq<Delivery>): set<SocketId>
  {
    set i | 0 <= i < |batch| :: batch[i].to
  }

  /**
   * `batch` is one emission of `ev` with payload `p` to the sockets `targets`: each
   * target receives it exactly once, in some order, and nobody else receives anything.
   */
  ghost predicate IsFanout(batch: seq<Delivery>, targets: set<SocketId>, ev: Event, p: Payload)
  {
    && Recipients(batch) == targets
    && (forall i :: 0 <= i < |batch| ==> batch[i].event == ev && batch[i].payload == p)
    && (forall i, j :: 0 <= i < j < |batch| ==> batch[i].to != batch[j].to)
  }

  /** Emits `ev` with `p` to every socket of `targets`; socket.io does not specify the order. */
  method Fanout(targets: set<SocketId>, ev: Event, p: Payload) returns (batch: seq<Delivery>)
    ensures IsFanout(batch, targets, ev, p)
  {
    batch := [];
    var rest := targets;
    while rest != {}
      invariant rest <= targets
      invariant Recipients(batch) == targets - rest
      invariant forall i :: 0 <= i < |batch| ==> batch[i].event == ev && batch[i].payload == p
      invariant forall i, j :: 0 <= i < j < |batch| ==> batch[i].to != batch[j].to
      decreases rest
    {
      var t :| t in rest;
      assert Recipients(batch + [Delivery(t, ev, p)]) == Recipients(batch) + {t} by {
        var b' := batch + [Delivery(t, ev, p)];
        assert b'[|batch|].to == t;
        forall x | x in Recipients(b') ensures x in Recipients(batch) + {t} {
          var i :| 0 <= i < |b'| && b'[i].to == x;
          if i < |batch| { assert batch[i].to == x; }
        }
        forall x | x in Recipients(batch) ensures x in Recipients(b') {
          var i :| 0 <= i < |batch| && batch[i].to == x;
          assert b'[i].to == x;
        }
      }
      batch := batch + [Delivery(t, ev, p)];
      rest := rest - {t};
    }
  }

  /** A fanout delivers to each target once, so it has exactly as many entries as targets. */
  lemma {:induction false} FanoutSize(batch: seq<Delivery>, targets: set<SocketId>, ev: Event, p: Payload)
    requires IsFanout(batch, targets, ev, p)
    ensures |batch| == |targets|
    decreases |batch|
  {
    if batch != [] {
      var last := batch[|batch| - 1];
      var init := batch[..|batch| - 1];
      assert Recipients(init) == targets - {last.to} by {
        forall x | x in Recipients(init) ensures x in targets - {last.to} {
          var i :| 0 <= i < |init| && init[i].to == x;
          assert batch[i].to == x;
        }
        forall x | x in targets - {last.to} ensures x in Recipients(init) {
          var i :| 0 <= i < |batch| && batch[i].to == x;
          assert i != |batch| - 1;
          assert init[i].to == x;
        }
      }
      assert last.to in targets by { assert batch[|batch| - 1].to == last.to; }
      FanoutSize(init, targets - {last.to}, ev, p);
    }
  }

  /** The deliveries in a fanout that reach socket `s`: one if `s` is a target, none otherwise. */
  lemma FanoutReaches(batch: seq<Delivery>, targets: set<SocketId>, ev: Event, p: Payload, s: SocketId)
    requires IsFanout(batch, targets, ev, p)
    ensures s in targets <==> exists i :: 0 <= i < |batch| && batch[i] == Delivery(s, ev, p)
  {
    if s in targets {
      var i :| 0 <= i < |batch| && batch[i].to == s;
      assert batch[i] == Delivery(s, ev, p);
    }
  }

  /** The room table and the log of everything the server has emitted. */
  class Server {
    var rooms: Rooms
    var log: seq<Delivery>

    constructor ()
      ensures rooms == map[] && log == []
    {
      rooms := map[];
      log := [];
    }

    /** A connection: the adapter puts the socket in the room named by its own id. */
    method HandleConnection(s: SocketId)
      modifies this`rooms
      ensures rooms == Joined(old(rooms), s, s)
    {
      rooms := Joined(rooms, s, s);
    }

    /** `join`: admit the socket, then emit `ready` to the whole room if it now has two members. */
    method HandleJoin(s: SocketId, r: RoomId)
      modifies this
      ensures rooms == Joined(old(rooms), s, r)
      ensures old(log) <= log
      ensures IsFanout(log[|old(log)|..], ReadyRecipients(rooms, r), Ready, NoPayload)
    {
      rooms := Joined(rooms, s, r);
      var clients := rooms[r];
      var batch: seq<Delivery> := [];
      if |clients| == 2 {
        batch := Fanout(clients, Ready, NoPayload);
      }
      log := log + batch;
      assert log[|old(log)|..] == batch;
    }

    /** `offer`, `answer`, `ice-candidate`: forward the payload as received to the rest of its room. */
    method HandleRelay(sender: SocketId, ev: Event, m: Message)
      requires IsRelayed(ev)
      modifies this
      ensures rooms == old(rooms)
      ensures old(log) <= log
      ensures IsFanout(log[|old(log)|..], ForwardRecipients(rooms, m.roomId, sender), ev, Msg(m))
    {
      var batch := Fanout(ForwardRecipients(rooms, m.roomId, sender), ev, Msg(m));
      log := log + batch;
      assert log[|old(log)|..] == batch;
    }

    /**
     * `disconnect`: the handler only logs to the console and sends nothing; the adapter
     * removes the socket from its rooms.
     */
    method HandleDisconnect(s: SocketId)
      modifies this`rooms
      ensures rooms == Left(old(rooms), s) && log == old(log)
    {
      rooms := Left(rooms, s);
    }
  }

  /**
   * A disconnected socket is in no room, every other member stays where it was, and
   * no room is left empty.
   */
  lemma LeftRemoves(rooms: Rooms, s: SocketId)
    ensures forall r :: Members(Left(rooms, s), r) == Members(rooms, r) - {s}
    ensures forall r :: r in Left(rooms, s) ==> Left(rooms, s)[r] != {}
  {
    forall r ensures Members(Left(rooms, s), r) == Members(rooms, r) - {s} {
      if r in rooms && rooms[r] - {s} == {} {
        assert r !in Left(rooms, s);
      }
    }
  }

  /**
   * A room named by a connected socket's id can be joined like any other: joining it
   * pairs the joiner with that socket, and the joiner's messages for it reach that
   * socket. The pairing is one-way: the owner's messages for its own room are sent
   * to the room it excludes, so they reach nobody.
   */
  lemma SocketRoomIsReal(rooms: Rooms, y: SocketId, s: SocketId)
    requires Members(rooms, y) == {y} && Members(rooms, s) == {s} && s != y
    ensures ReadyRecipients(Joined(rooms, s, y), y) == {y, s}
    ensures ForwardRecipients(Joined(rooms, s, y), y, s) == {y}
    ensures ForwardRecipients(Joined(rooms, s, y), y, y) == {}
  {
    JoinAdds(rooms, s, y);
    assert Members(Joined(rooms, s, y), y) == {y, s};
    assert |{y, s}| == 2;
  }

  /** Joining adds the socket to the room and leaves every other room as it was. */
  lemma JoinAdds(rooms: Rooms, s: SocketId, r: RoomId)
    ensures Members(Joined(rooms, s, r), r) == Members(rooms, r) + {s}
    ensures forall q :: q != r ==> Members(Joined(rooms, s, r), q) == Members(rooms, q)
  {
  }

  /** Membership is a set: a re-join does not change the count, a new socket raises it by one. */
  lemma JoinCount(rooms: Rooms, s: SocketId, r: RoomId)
    ensures s in Members(rooms, r) ==> |Members(Joined(rooms, s, r), r)| == |Members(rooms, r)|
    ensures s !in Members(rooms, r) ==> |Members(Joined(rooms, s, r), r)| == |Members(rooms, r)| + 1
  {
    if s in Members(rooms, r) {
      assert Members(rooms, r) + {s} == Members(rooms, r);
    }
  }

  /** `ready` follows a join exactly when the room then has two members, and then it reaches the joiner too. */
  lemma ReadyAfterJoin(rooms: Rooms, s: SocketId, r: RoomId)
    ensures ReadyRecipients(Joined(rooms, s, r), r) != {} <==> |Members(Joined(rooms, s, r), r)| == 2
    ensures ReadyRecipients(Joined(rooms, s, r), r) != {} ==>
              ReadyRecipients(Joined(rooms, s, r), r) == Members(Joined(rooms, s, r), r)
              && s in ReadyRecipients(Joined(rooms, s, r), r)
  {
    JoinAdds(rooms, s, r);
  }

  /** A third distinct socket is admitted and nobody is told `ready`. */
  lemma ThirdJoinerAdmitted(rooms: Rooms, s: SocketId, r: RoomId)
    requires |Members(rooms, r)| >= 2 && s !in Members(rooms, r)
    ensures s in Members(Joined(rooms, s, r), r)
    ensures |Members(Joined(rooms, s, r), r)| >= 3
    ensures ReadyRecipients(Joined(rooms, s, r), r) == {}
  {
    JoinCount(rooms, s, r);
  }

  /**
   * A relayed message reaches exactly the members of its room that are neither the
   * sender nor in the sender's own room; nobody at all in a room the table does not
   * hold. While the sender's own room holds only the sender, as it does unless another
   * socket joined it, that is every other member of the room, whether or not the sender
   * is itself a member.
   */
  lemma ForwardTargets(rooms: Rooms, r: RoomId, sender: SocketId)
    ensures sender !in ForwardRecipients(rooms, r, sender)
    ensures forall t :: t in ForwardRecipients(rooms, r, sender) <==>
              t in Members(rooms, r) && t != sender && t !in Members(rooms, sender)
    ensures r !in rooms ==> ForwardRecipients(rooms, r, sender) == {}
    ensures Members(rooms, sender) <= {sender} ==> ForwardRecipients(rooms, r, sender) == Members(rooms, r) - {sender}
    ensures Members(rooms, sender) <= {sender} && sender !in Members(rooms, r) ==>
              ForwardRecipients(rooms, r, sender) == Members(rooms, r)
  {
  }

  /** A fanout to one socket is a single delivery. */
  lemma FanoutToOne(batch: seq<Delivery>, t: SocketId, ev: Event, p: Payload)
    requires IsFanout(batch, {t}, ev, p)
    ensures batch == [Delivery(t, ev, p)]
  {
    FanoutSize(batch, {t}, ev, p);
    FanoutReaches(batch, {t}, ev, p, t);
  }

  /** A fanout to two sockets delivers to each of them, in one order or the other. */
  lemma FanoutToTwo(batch: seq<Delivery>, a: SocketId, b: SocketId, ev: Event, p: Payload)
    requires a != b && IsFanout(batch, {a, b}, ev, p)
    ensures |batch| == 2 && {batch[0], batch[1]} == {Delivery(a, ev, p), Delivery(b, ev, p)}
  {
    assert |{a, b}| == 2;
    FanoutSize(batch, {a, b}, ev, p);
    FanoutReaches(batch, {a, b}, ev, p, a);
    FanoutReaches(batch, {a, b}, ev, p, b);
  }

  /** The first socket joins an empty room: it is admitted and nothing is sent. */
  method JoinAlone(server: Server, a: SocketId, r: RoomId)
    requires Members(server.rooms, r) == {}
    modifies server
    ensures Members(server.rooms, r) == {a} && server.log == old(server.log)
    ensures forall q :: q != r ==> Members(server.rooms, q) == Members(old(server.rooms), q)
  {
    server.HandleJoin(a, r);
    JoinAdds(old(server.rooms), a, r);
    FanoutSize(server.log[|old(server.log)|..], {}, Ready, NoPayload);
    assert server.log == old(server.log) + server.log[|old(server.log)|..];
  }

  /** A second socket joins: the room holds both, and each is told `ready` once. */
  method JoinSecond(server: Server, a: SocketId, b: SocketId, r: RoomId) returns (batch: seq<Delivery>)
    requires a != b && Members(server.rooms, r) == {a}
    modifies server
    ensures Members(server.rooms, r) == {a, b} && server.log == old(server.log) + batch
    ensures forall q :: q != r ==> Members(server.rooms, q) == Members(old(server.rooms), q)
    ensures |batch| == 2 && {batch[0], batch[1]} == {Delivery(a, Ready, NoPayload), Delivery(b, Ready, NoPayload)}
  {
    var before := server.log;
    server.HandleJoin(b, r);
    JoinAdds(old(server.rooms), b, r);
    assert Members(server.rooms, r) == {a, b};
    assert |{a, b}| == 2;
    batch := server.log[|before|..];
    FanoutToTwo(batch, a, b, Ready, NoPayload);
  }

  /** A relayed message in a room of two reaches the other member only, unless that member joined the sender's own room. */
  method RelayInPair(server: Server, from: SocketId, to: SocketId, ev: Event, m: Message)
    requires IsRelayed(ev) && from != to && Members(server.rooms, m.roomId) == {from, to}
    requires to !in Members(server.rooms, from)
    modifies server
    ensures server.rooms == old(server.rooms) && server.log == old(server.log) + [Delivery(to, ev, Msg(m))]
  {
    assert ForwardRecipients(server.rooms, m.roomId, from) == {to};
    server.HandleRelay(from, ev, m);
    FanoutToOne(server.log[|old(server.log)|..], to, ev, Msg(m));
    assert server.log == old(server.log) + server.log[|old(server.log)|..];
  }

  /**
   * Two sockets meet in room "abc123": the second join sends `ready` to both, the
   * offer of the first reaches only the second and the answer only the first, each
   * with its payload unchanged.
   */
  method PairingScenario(a: SocketId, b: SocketId, offer: Sdp, answer: Sdp) returns (log: seq<Delivery>)
    requires a != b && a != "abc123" && b != "abc123"
    ensures |log| == 4
    ensures {log[0], log[1]} == {Delivery(a, Ready, NoPayload), Delivery(b, Ready, NoPayload)}
    ensures log[2] == Delivery(b, Offer, Msg(Message("abc123", SdpBody(offer))))
    ensures log[3] == Delivery(a, Answer, Msg(Message("abc123", SdpBody(answer))))
  {
    var server := new Server();
    server.HandleConnection(a);
    server.HandleConnection(b);
    assert Members(server.rooms, "abc123") == {};
    JoinAlone(server, a, "abc123");
    var ready := JoinSecond(server, a, b, "abc123");
    assert server.log == ready;
    assert Members(server.rooms, a) == {a} && Members(server.rooms, b) == {b};
    RelayInPair(server, a, b, Offer, Message("abc123", SdpBody(offer)));
    assert {b, a} == {a, b};
    RelayInPair(server, b, a, Answer, Message("abc123", SdpBody(answer)));
    log := server.log;
  }

  /**
   * A peer drops and another takes its place: a and b pair, b disconnects, c joins.
   * With b gone the room holds a and c, so both are told `ready` again.
   */
  method ReplacementPeer(a: SocketId, b: SocketId, c: SocketId) returns (log: seq<Delivery>)
    requires a != b && b != c && a != c
    requires a != "abc123" && b != "abc123" && c != "abc123"
    ensures |log| == 4
    ensures {log[2], log[3]} == {Delivery(a, Ready, NoPayload), Delivery(c, Ready, NoPayload)}
  {
    var server := new Server();
    server.HandleConnection(a);
    server.HandleConnection(b);
    assert Members(server.rooms, "abc123") == {};
    JoinAlone(server, a, "abc123");
    var first := JoinSecond(server, a, b, "abc123");
    var paired := server.rooms;
    server.HandleDisconnect(b);
    LeftRemoves(paired, b);
    assert Members(server.rooms, "abc123") == {a};
    server.HandleConnection(c);
    assert Members(server.rooms, "abc123") == {a};
    var second := JoinSecond(server, a, c, "abc123");
    log := server.log;
    assert log == first + second;
  }
}
