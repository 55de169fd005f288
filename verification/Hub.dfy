/** Client (internal/gateway/client.go), Hub (internal/gateway/hub.go) and the offline drain of internal/gateway/router.go. */
module Hub {
  import opened Messages
  import OfflineQueue
  import Registry

  class Client {
    const id: nat
    const uid: string
    const capacity: nat
    var send: seq<Message>
    var closed: bool

    ghost function Abs(): Conn
      reads this
    {
      Conn(uid, send, capacity, closed)
    }

    constructor (id: nat, uid: string, capacity: nat)
      ensures this.id == id && Abs() == Conn(uid, [], capacity, false)
    {
      this.id, this.uid, this.capacity, send, closed := id, uid, capacity, [], false;
    }

    /** A message is queued exactly when Send reports success; otherwise the channel is untouched. */
    method Send(m: Message, luck: Luck) returns (r: SendResult)
      modifies this`send
      ensures r == SendOutcome(|old(send)|, capacity, closed, luck)
      ensures Abs() == AfterSend(old(Abs()), m, luck)
    {
      if !luck.marshals { return Unmarshallable; }
      if closed && (|send| >= capacity || luck.takesClosed) { return ClientClosed; }
      if |send| < capacity {
        send := send + [m];
        return Sent;
      }
      return BufferFull;
    }

    method Close()
      modifies this`closed
      ensures Abs() == old(Abs()).(closed := true)
    {
      closed := true;
    }
  }

  function Kick(content: string): Message {
    Message(CMD_KICK, 0, 0, "", "", 0, content, 0, false)
  }

  const REPLACED := "logged in from another device"
  const SERVER_FULL := "server at capacity, please try later"

  /** What the two kicks and the end marker look like to the client. */
  lemma Notices(newId: int, now: int)
    ensures Kick(REPLACED) == Message(7, 0, 0, "", "", 0, "logged in from another device", 0, false)
    ensures Kick(SERVER_FULL) == Message(7, 0, 0, "", "", 0, "server at capacity, please try later", 0, false)
    ensures EndOfOffline(newId, now) == Message(5, 0, newId, "", "", 0, "", now, false)
  {
  }

  /** What becomes of a displaced or rejected client: the right kick message if it can be sent, then closed. */
  function Kicked(before: Conn, accepted: bool, luck: Luck): Conn {
    AfterSend(before, Kick(if accepted then REPLACED else SERVER_FULL), luck).(closed := true)
  }

  ghost function IdsOf(clients: map<string, Client>): map<string, nat> {
    map uid | uid in clients :: clients[uid].id
  }

  lemma IdsSize(clients: map<string, Client>)
    ensures |IdsOf(clients)| == |clients|
  {
    assert IdsOf(clients).Keys == clients.Keys;
    assert |IdsOf(clients)| == |IdsOf(clients).Keys| && |clients| == |clients.Keys|;
  }

  lemma IdsPut(clients: map<string, Client>, uid: string, c: Client)
    ensures IdsOf(clients[uid := c]) == IdsOf(clients)[uid := c.id]
  {
  }

  class ClientHub {
    var clients: map<string, Client>
    var offline: OfflineQueue.Queues<Message>
    const offlineMaxSize: nat
    const maxConnections: int
    /** Which user each client belongs to, and every locked and unlocked step so far. */
    ghost const world: Registry.World
    ghost var events: seq<Registry.Event>
    ghost var states: seq<Registry.State>

    ghost function Ids(): map<string, nat>
      reads this
    {
      IdsOf(clients)
    }

    /** The map is where the logged steps lead, and no user's queue is over the limit. */
    ghost predicate Valid()
      reads this
    {
      && world.max == maxConnections
      && Registry.Execution(world, events, states) && states[|events|].clients == Ids()
      && (forall uid | uid in clients :: clients[uid].uid == uid && world.uidOf(clients[uid].id) == uid)
      && (forall uid :: |OfflineQueue.Of(offline, uid)| <= offlineMaxSize)
    }

    constructor (offlineMaxSize: nat, maxConnections: int, ghost uidOf: Registry.Cid -> string)
      ensures Valid() && clients == map[] && offline == map[] && events == [] && world.uidOf == uidOf
      ensures this.offlineMaxSize == offlineMaxSize && this.maxConnections == maxConnections
    {
      this.offlineMaxSize, this.maxConnections, clients, offline := offlineMaxSize, maxConnections, map[], map[];
      world := Registry.World(uidOf, maxConnections);
      events, states := [], [Registry.State(map[], {}, {})];
    }

    /** The locked part of Register; returns the client that must now be kicked and closed, if any. */
    method SwapIn(c: Client) returns (owed: Client?, accepted: bool)
      requires Valid() && world.uidOf(c.id) == c.uid
      modifies this`clients, this`events, this`states
      ensures Valid() && events == old(events) + [Registry.Swap(c.id)]
      ensures accepted <==> c.uid in old(clients) || maxConnections <= 0 || |old(clients)| < maxConnections
      ensures clients == if accepted then old(clients)[c.uid := c] else old(clients)
      ensures owed == if !accepted then c else if c.uid in old(clients) then old(clients)[c.uid] else null
      ensures owed != null ==> owed.id in states[|events|].pending
    {
      var known := c.uid in clients;
      IdsSize(clients);
      IdsPut(clients, c.uid, c);
      Registry.Extend(world, events, states, Registry.Swap(c.id));
      events, states := events + [Registry.Swap(c.id)], states + [Registry.Step(world, states[|events|], Registry.Swap(c.id))];
      if !known && maxConnections > 0 && |clients| >= maxConnections {
        return c, false;
      }
      owed := if known then clients[c.uid] else null;
      clients := clients[c.uid := c];
      accepted := true;
    }

    /** The unlocked part: a best-effort kick message, then the close. */
    method Finish(owed: Client, accepted: bool, luck: Luck)
      requires Valid() && owed.id in states[|events|].pending
      modifies owed, this`events, this`states
      ensures Valid() && events == old(events) + [Registry.Finish(owed.id)]
      ensures owed.Abs() == Kicked(old(owed.Abs()), accepted, luck)
    {
      var _ := owed.Send(Kick(if accepted then REPLACED else SERVER_FULL), luck);
      owed.Close();
      Registry.Extend(world, events, states, Registry.Finish(owed.id));
      events, states := events + [Registry.Finish(owed.id)], states + [Registry.Step(world, states[|events|], Registry.Finish(owed.id))];
    }

    /** The newcomer takes over and its predecessor is kicked, or the newcomer itself is; nobody else is touched. */
    method Register(c: Client, luck: Luck)
      requires Valid() && world.uidOf(c.id) == c.uid
      modifies this`clients, this`events, this`states, c, if c.uid in clients then {clients[c.uid]} else {}
      ensures Valid()
      ensures var prior := old(clients);
              var accepted := c.uid in prior || maxConnections <= 0 || |prior| < maxConnections;
              && clients == (if accepted then prior[c.uid := c] else prior)
              && (!accepted ==> c.Abs() == Kicked(old(c.Abs()), false, luck))
              && (accepted && c.uid in prior ==> prior[c.uid].Abs() == Kicked(old(prior[c.uid].Abs()), true, luck))
              && (accepted && (c.uid !in prior || prior[c.uid] != c) ==> c.Abs() == old(c.Abs()))
    {
      var owed, accepted := SwapIn(c);
      if owed != null { Finish(owed, accepted, luck); }
    }

    /** Only the very client that is registered is removed; equal ids mean the same client. */
    method Unregister(c: Client)
      requires Valid() && world.uidOf(c.id) == c.uid
      requires forall uid | uid in clients && clients[uid].id == c.id :: clients[uid] == c
      modifies this`clients, this`events, this`states
      ensures Valid() && events == old(events) + [Registry.Unregister(c.id)]
      ensures clients == if c.uid in old(clients) && old(clients)[c.uid] == c then old(clients) - {c.uid} else old(clients)
    {
      Registry.Extend(world, events, states, Registry.Unregister(c.id));
      events, states := events + [Registry.Unregister(c.id)], states + [Registry.Step(world, states[|events|], Registry.Unregister(c.id))];
      if c.uid in clients && clients[c.uid] == c {
        clients := clients - {c.uid};
      }
    }

    /** The user's latest accepted client, unless it has been unregistered since; nil when there is no such client. */
    method Get(uid: string) returns (c: Client?)
      requires Valid()
      ensures c != null ==> c.uid == uid && exists i: nat :: Registry.StillHolds(world, events, states, i, |events|, c.id)
      ensures c == null ==>
                forall d, i: nat :: world.uidOf(d) == uid ==> !Registry.StillHolds(world, events, states, i, |events|, d)
    {
      c := if uid in clients then clients[uid] else null;
      forall d | world.uidOf(d) == uid
        ensures Registry.Holds(states[|events|], uid, d) <==> exists i: nat :: Registry.StillHolds(world, events, states, i, |events|, d)
      {
        Registry.HolderIff(world, events, states, |events|, uid, d);
      }
      assert c != null ==> Registry.Holds(states[|events|], uid, c.id);
      assert c == null ==> forall d :: !Registry.Holds(states[|events|], uid, d);
    }

    /** The number of connected users, which never exceeds a positive maximum. */
    method Count() returns (n: nat)
      requires Valid()
      ensures n == |clients| && (maxConnections > 0 ==> n <= maxConnections)
    {
      if maxConnections > 0 { Registry.NeverOverfull(world, events, states, |events|); }
      IdsSize(clients);
      n := |clients|;
    }

    method StoreOffline(uid: string, m: Message)
      requires Valid()
      modifies this`offline
      ensures Valid()
      ensures offline == OfflineQueue.Step(OfflineQueue.HubSlice, old(offline), OfflineQueue.Stored(uid, m), offlineMaxSize)
    {
      var q := OfflineQueue.Of(offline, uid) + [m];
      if |q| > offlineMaxSize {
        var dropped := |q| - offlineMaxSize;
        q := q[dropped..];
      }
      offline := offline[uid := q];
      assert forall u | u != uid :: OfflineQueue.Of(offline, u) == OfflineQueue.Of(old(offline), u);
    }

    method DrainOffline(uid: string) returns (msgs: seq<Message>)
      requires Valid()
      modifies this`offline
      ensures Valid() && msgs == OfflineQueue.Of(old(offline), uid)
      ensures offline == OfflineQueue.Step(OfflineQueue.HubSlice, old(offline), OfflineQueue.Drained(uid), offlineMaxSize)
    {
      msgs := OfflineQueue.Of(offline, uid);
      offline := offline - {uid};
      assert forall u | u != uid :: OfflineQueue.Of(offline, u) == OfflineQueue.Of(old(offline), u);
    }
  }

  function EndOfOffline(newId: int, now: int): Message {
    Message(CMD_OFFLINE, 0, newId, "", "", 0, "", now, false)
  }

  /** Whether the i-th of successive sends succeeds while the earlier ones did. */
  function Room(c: Conn, luck: nat -> Luck): nat -> bool {
    (i: nat) => SendOutcome(|c.send| + i, c.capacity, c.closed, luck(i)) == Sent
  }

  /**
   * The router's answer to CmdOffline. `delivered` messages go to the sender's channel in order; from the
   * first failed send on, the rest is back in the queue, in order and untruncated. An empty queue is
   * answered with a marker that carries a new ID.
   */
  method HandleOffline(hub: ClientHub, sender: Client, luck: nat -> Luck, newId: int, now: int) returns (delivered: nat)
    requires hub.Valid()
    modifies hub`offline, sender`send
    ensures hub.Valid()
    ensures var q := old(OfflineQueue.Of(hub.offline, sender.uid));
            && delivered <= |q|
            && (q != [] ==> sender.send == old(sender.send) + q[..delivered])
            && (q == [] ==>
                  sender.send == if SendOutcome(|old(sender.send)|, sender.capacity, sender.closed, luck(0)) == Sent
                                 then old(sender.send) + [EndOfOffline(newId, now)] else old(sender.send))
            && OfflineQueue.Of(hub.offline, sender.uid) == q[delivered..]
            && (q[..delivered], q[delivered..]) ==
               OfflineQueue.HandleOffline(OfflineQueue.HubSlice, q, hub.offlineMaxSize, Room(old(sender.Abs()), luck))
    ensures forall uid | uid != sender.uid :: OfflineQueue.Of(hub.offline, uid) == old(OfflineQueue.Of(hub.offline, uid))
  {
    ghost var room := Room(sender.Abs(), luck);
    var msgs := hub.DrainOffline(sender.uid);
    assert |msgs| <= hub.offlineMaxSize;
    if |msgs| == 0 {
      OfflineQueue.HandleOfflineIs(OfflineQueue.HubSlice, msgs, hub.offlineMaxSize, room, 0);
      var _ := sender.Send(EndOfOffline(newId, now), luck(0));
      return 0;
    }
    delivered := 0;
    while delivered < |msgs|
      invariant 0 <= delivered <= |msgs|
      invariant hub.Valid() && OfflineQueue.Of(hub.offline, sender.uid) == []
      invariant forall uid | uid != sender.uid :: OfflineQueue.Of(hub.offline, uid) == old(OfflineQueue.Of(hub.offline, uid))
      invariant sender.Abs() == old(sender.Abs()).(send := old(sender.send) + msgs[..delivered])
      invariant forall i | 0 <= i < delivered :: room(i)
    {
      var r := sender.Send(msgs[delivered], luck(delivered));
      if r != Sent {
        OfflineQueue.HandleOfflineIs(OfflineQueue.HubSlice, msgs, hub.offlineMaxSize, room, delivered);
        Requeue(hub, sender.uid, msgs[delivered..]);
        return;
      }
      delivered := delivered + 1;
    }
    OfflineQueue.HandleOfflineIs(OfflineQueue.HubSlice, msgs, hub.offlineMaxSize, room, delivered);
  }

  method Requeue(hub: ClientHub, uid: string, msgs: seq<Message>)
    requires hub.Valid() && OfflineQueue.Of(hub.offline, uid) == [] && |msgs| <= hub.offlineMaxSize
    modifies hub`offline
    ensures hub.Valid() && OfflineQueue.Of(hub.offline, uid) == msgs
    ensures forall u | u != uid :: OfflineQueue.Of(hub.offline, u) == old(OfflineQueue.Of(hub.offline, u))
  {
    for i := 0 to |msgs|
      invariant hub.Valid() && OfflineQueue.Of(hub.offline, uid) == msgs[..i]
      invariant forall u | u != uid :: OfflineQueue.Of(hub.offline, u) == old(OfflineQueue.Of(hub.offline, u))
    {
      hub.StoreOffline(uid, msgs[i]);
      assert msgs[..i + 1] == msgs[..i] + [msgs[i]];
    }
  }
}
