/**
 * Delivery across gateways: handleChat, routeOrStoreOffline and the group fan-out of internal/gateway/router.go,
 * Forward of internal/gateway/grpc_forwarder.go and ForwardMessage of internal/gateway/grpc_server.go.
 * A handler runs as one atomic step over the gateways it touches; everything the code cannot decide by
 * itself (ring lookups, RPC fate, select choices, clocks) is an explicit argument.
 */
module Delivery {
  import opened Messages
  import opened Options
  import Dedup
  import OfflineQueue
  import RateLimiter
  import Ring
  import Snowflake

  datatype Gateway = Gateway(
    clients: map<string, nat>,
    conns: map<nat, Conn>,
    offline: OfflineQueue.Queues<Message>,
    offlineMax: nat,
    seen: Dedup.Cache,
    marks: nat,
    buckets: RateLimiter.Buckets,
    snow: Snowflake.State)

  type World = map<string, Gateway>

  /** How the acting gateway is configured: `multi` when it has a ring and a node ID, `forwards` when it has a forwarder. */
  datatype Setup = Setup(
    self: string, multi: bool, forwards: bool, groups: bool, redis: bool, ttl: real, limits: Option<RateLimiter.Config>)

  datatype Rpc = Unreachable | TimedOut | Answered

  /** The router's ring lookup, the forwarder's later one, the fate of the call, and luck here and there. */
  datatype Env = Env(first: string, second: string, rpc: Rpc, here: Luck, there: Luck)

  /** Every registered client is a connection of the user it is registered for. */
  ghost predicate Wired(g: Gateway) {
    forall uid | uid in g.clients :: g.clients[uid] in g.conns && g.conns[g.clients[uid]].uid == uid
  }

  ghost predicate Ready(w: World, self: string) {
    self in w && forall n | n in w :: Wired(w[n])
  }

  // ---- one gateway -------------------------------------------------------------------------

  function Push(g: Gateway, cid: nat, m: Message): Gateway
    requires cid in g.conns
  {
    g.(conns := g.conns[cid := g.conns[cid].(send := g.conns[cid].send + [m])])
  }

  function Store(g: Gateway, uid: string, m: Message): Gateway {
    g.(offline := g.offline[uid := OfflineQueue.Store(OfflineQueue.Of(g.offline, uid), m, g.offlineMax)])
  }

  /** To the user's channel, or to its offline queue when there is no connection or the send fails. */
  function Accept(g: Gateway, uid: string, m: Message, luck: Luck): Gateway
    requires Wired(g)
  {
    if uid in g.clients && Takes(g.conns[g.clients[uid]], luck) then Push(g, g.clients[uid], m) else Store(g, uid, m)
  }

  /** ForwardMessage at the peer. */
  function ForwardMessage(g: Gateway, uid: string, m: Message, luck: Luck): Gateway
    requires Wired(g)
  {
    if uid == "" then g else Accept(g, uid, m, luck)
  }

  // ---- routing -----------------------------------------------------------------------------------

  /** The router decides to hand the message to the forwarder. */
  predicate HandsOver(s: Setup, env: Env) {
    s.multi && s.forwards && env.first != "" && env.first != s.self
  }

  /** Forward returns without an error and without having called anybody. */
  predicate Shrugs(s: Setup, env: Env) { env.second == "" || env.second == s.self }

  function RouteOrStore(s: Setup, w: World, uid: string, m: Message, env: Env): World
    requires Ready(w, s.self)
  {
    if !HandsOver(s, env) then w[s.self := Store(w[s.self], uid, m)]
    else if Shrugs(s, env) then w
    else if env.second !in w || env.rpc == Unreachable then w[s.self := Store(w[s.self], uid, m)]
    else
      var w1 := w[env.second := ForwardMessage(w[env.second], uid, m, env.there)];
      if env.rpc == TimedOut then w1[s.self := Store(w[s.self], uid, m)] else w1
  }

  datatype How = Online | Stored | Routed

  function HowDelivered(s: Setup, w: World, uid: string, env: Env): How
    requires Ready(w, s.self)
  {
    var g := w[s.self];
    if uid !in g.clients then Routed else if Takes(g.conns[g.clients[uid]], env.here) then Online else Stored
  }

  /** What handleChat and the fan-out do for one target. */
  function Deliver(s: Setup, w: World, uid: string, m: Message, env: Env): World
    requires Ready(w, s.self)
  {
    if uid in w[s.self].clients then w[s.self := Accept(w[s.self], uid, m, env.here)]
    else RouteOrStore(s, w, uid, m, env)
  }

  // ---- where a message ends up ------------------------------------------------------------------

  /** g' is g with m at the end of the user's channel, which had room. */
  ghost predicate InChannel(g: Gateway, g': Gateway, uid: string, m: Message) {
    && uid in g.clients && g.clients[uid] in g.conns
    && var conn := g.conns[g.clients[uid]];
    && |conn.send| < conn.capacity
    && g' == g.(conns := g.conns[g.clients[uid] := conn.(send := conn.send + [m])])
  }

  /** g' is g with m at the end of the user's offline queue, the oldest message gone if the queue was full. */
  ghost predicate InQueue(g: Gateway, g': Gateway, uid: string, m: Message) {
    g' == g.(offline := g.offline[uid := OfflineQueue.LastN(OfflineQueue.Of(g.offline, uid) + [m], g.offlineMax)])
  }

  ghost predicate Landed(w: World, w': World, uid: string, m: Message, n: string) {
    n in w && n in w' && (InChannel(w[n], w'[n], uid, m) || InQueue(w[n], w'[n], uid, m))
  }

  /** In the channel if the user is connected there and the send succeeds, and in the queue otherwise. */
  ghost predicate GotIt(g: Gateway, g': Gateway, uid: string, m: Message, luck: Luck) {
    if uid in g.clients && g.clients[uid] in g.conns
       && SendOutcome(|g.conns[g.clients[uid]].send|, g.conns[g.clients[uid]].capacity, g.conns[g.clients[uid]].closed, luck) == Sent
    then InChannel(g, g', uid, m)
    else InQueue(g, g', uid, m)
  }

  /** Where a message to a user not connected here goes: to this gateway, to the owner the forwarder sees, to both or to none. */
  predicate RoutedTo(s: Setup, w: World, uid: string, env: Env, n: string) {
    var away := s.multi && s.forwards && env.first != "" && env.first != s.self;
    var elsewhere := away && env.second != "" && env.second != s.self;
    var called := elsewhere && env.second in w && env.rpc != Unreachable;
    (n == s.self && (!away || (elsewhere && (!called || env.rpc == TimedOut)))) || (called && n == env.second && uid != "")
  }

  /** A user connected here is served here. */
  predicate LandsAt(s: Setup, w: World, uid: string, env: Env, n: string)
    requires s.self in w
  {
    if uid in w[s.self].clients then n == s.self else RoutedTo(s, w, uid, env, n)
  }

  lemma AcceptIs(g: Gateway, uid: string, m: Message, luck: Luck)
    requires Wired(g)
    ensures GotIt(g, Accept(g, uid, m, luck), uid, m, luck) && InQueue(g, Store(g, uid, m), uid, m)
  {
    OfflineQueue.StoreIsLast(OfflineQueue.Of(g.offline, uid), m, g.offlineMax);
  }

  /** Routing, gateway by gateway: each that the message goes to has it once more, and no other has changed. */
  lemma RouteAt(s: Setup, w: World, uid: string, m: Message, env: Env, n: string)
    requires Ready(w, s.self) && n in w
    ensures var w' := RouteOrStore(s, w, uid, m, env);
            && w'.Keys == w.Keys
            && if !RoutedTo(s, w, uid, env, n) then w'[n] == w[n]
               else if n == s.self then InQueue(w[n], w'[n], uid, m)
               else GotIt(w[n], w'[n], uid, m, env.there)
  {
    AcceptIs(w[n], uid, m, env.there);
  }

  /** What RouteAt says, for all gateways. */
  ghost predicate RoutedExactly(s: Setup, w: World, w': World, uid: string, m: Message, env: Env)
    requires s.self in w
  {
    && w'.Keys == w.Keys
    && forall n | n in w ::
         if !RoutedTo(s, w, uid, env, n) then w'[n] == w[n]
         else if n == s.self then InQueue(w[n], w'[n], uid, m)
         else GotIt(w[n], w'[n], uid, m, env.there)
  }

  lemma RoutesExactly(s: Setup, w: World, uid: string, m: Message, env: Env)
    requires Ready(w, s.self)
    ensures RoutedExactly(s, w, RouteOrStore(s, w, uid, m, env), uid, m, env)
  {
    RouteAt(s, w, uid, m, env, s.self);
    forall n | n in w
      ensures var w' := RouteOrStore(s, w, uid, m, env);
              n in w' && if !RoutedTo(s, w, uid, env, n) then w'[n] == w[n]
                         else if n == s.self then InQueue(w[n], w'[n], uid, m)
                         else GotIt(w[n], w'[n], uid, m, env.there)
    {
      RouteAt(s, w, uid, m, env, n);
    }
  }

  /** Delivery, gateway by gateway. */
  lemma DeliverAt(s: Setup, w: World, uid: string, m: Message, env: Env, n: string)
    requires Ready(w, s.self) && n in w
    ensures var w' := Deliver(s, w, uid, m, env);
            && w'.Keys == w.Keys
            && if LandsAt(s, w, uid, env, n) then GotIt(w[n], w'[n], uid, m, if n == s.self then env.here else env.there)
               else w'[n] == w[n]
  {
    if uid in w[s.self].clients {
      AcceptIs(w[s.self], uid, m, env.here);
    } else {
      RouteAt(s, w, uid, m, env, n);
    }
  }

  /** A user whose owner both lookups name, and who answers, is served there and only there: on an open connection with room, at once. */
  lemma OwnerServes(s: Setup, w: World, uid: string, m: Message, env: Env, n: string)
    requires Ready(w, s.self) && n in w && uid != "" && uid !in w[s.self].clients && s.multi && s.forwards
    requires env.first == env.second == n && n != s.self && n != "" && env.rpc == Answered
    ensures var w', g := Deliver(s, w, uid, m, env), w[n];
            && w'.Keys == w.Keys && (forall k | k in w && k != n :: w'[k] == w[k])
            && (uid !in g.clients ==> InQueue(g, w'[n], uid, m))
            && (uid in g.clients ==>
                  var conn := g.conns[g.clients[uid]];
                  && (|conn.send| >= conn.capacity ==> InQueue(g, w'[n], uid, m))
                  && (!conn.closed && env.there.marshals && |conn.send| < conn.capacity ==> InChannel(g, w'[n], uid, m)))
  {
    DeliverAt(s, w, uid, m, env, n);
    forall k | k in w && k != n
      ensures Deliver(s, w, uid, m, env)[k] == w[k]
    {
      DeliverAt(s, w, uid, m, env, k);
    }
  }

  /** The one way to lose a message: it is handed to the forwarder, which by then sees no other owner, or the peer refuses an empty UID. */
  predicate Lost(s: Setup, w: World, uid: string, env: Env)
    requires s.self in w
  {
    && uid !in w[s.self].clients && s.multi && s.forwards && env.first != "" && env.first != s.self
    && (env.second == "" || env.second == s.self || (uid == "" && env.second in w && env.rpc == Answered))
  }

  /** Delivery touches only this gateway and the forwarder's owner, and lands the message exactly when it is not lost. */
  lemma DeliverLandsIff(s: Setup, w: World, uid: string, m: Message, env: Env)
    requires Ready(w, s.self)
    ensures var w' := Deliver(s, w, uid, m, env);
            && w'.Keys == w.Keys
            && (forall n | n in w && n != s.self && n != env.second :: w'[n] == w[n])
            && (forall n | n in w :: w'[n] == w[n] || Landed(w, w', uid, m, n))
            && (!Lost(s, w, uid, env) ==> Landed(w, w', uid, m, s.self) || Landed(w, w', uid, m, env.second))
            && (Lost(s, w, uid, env) ==> w' == w)
  {
    var w' := Deliver(s, w, uid, m, env);
    forall n | n in w
      ensures n in w' && (if LandsAt(s, w, uid, env, n) then Landed(w, w', uid, m, n) else w'[n] == w[n])
    {
      DeliverAt(s, w, uid, m, env, n);
    }
    DeliverAt(s, w, uid, m, env, s.self);
  }

  /** With one ring behind both lookups a message to a real user is never lost. */
  lemma OneRingLosesNothing(s: Setup, w: World, uid: string, env: Env)
    requires s.self in w && uid != "" && env.first == env.second
    ensures !Lost(s, w, uid, env)
  {
  }

  // ---- reaching a user -----------------------------------------------------------------------------

  ghost predicate ReachedAt(g: Gateway, uid: string, m: Message) {
    || (uid in g.clients && g.clients[uid] in g.conns && m in g.conns[g.clients[uid]].send)
    || m in OfflineQueue.Of(g.offline, uid)
  }

  ghost predicate Reached(w: World, uid: string, m: Message) {
    exists n :: n in w && ReachedAt(w[n], uid, m)
  }

  ghost predicate Limited(w: World) { forall n | n in w :: w[n].offlineMax >= 1 }

  lemma LandedReaches(w: World, w': World, uid: string, m: Message, n: string)
    requires Limited(w) && Landed(w, w', uid, m, n)
    ensures ReachedAt(w'[n], uid, m)
  {
    var g, g' := w[n], w'[n];
    if InQueue(g, g', uid, m) {
      var q := OfflineQueue.Of(g'.offline, uid);
      assert q[|q| - 1] == m;
    } else {
      var send := g'.conns[g'.clients[uid]].send;
      assert send[|send| - 1] == m;
    }
  }

  /** Landing m for anyone never takes m away from a user who already has it. */
  lemma LandingKeeps(w: World, w': World, uid: string, m: Message, other: string, n: string)
    requires Limited(w) && Landed(w, w', other, m, n) && ReachedAt(w[n], uid, m)
    ensures ReachedAt(w'[n], uid, m)
  {
    if uid == other {
      LandedReaches(w, w', uid, m, n);
    }
  }

  /** What a delivery does not touch: who is connected where, limits, dedup marks, buckets, generators. */
  ghost predicate SameShape(w: World, w': World) {
    && w'.Keys == w.Keys
    && forall n | n in w :: SameSettings(w[n], w'[n])
  }

  ghost predicate SameSettings(g: Gateway, g': Gateway) {
    && g'.clients == g.clients && g'.offlineMax == g.offlineMax
    && g'.seen == g.seen && g'.marks == g.marks && g'.buckets == g.buckets && g'.snow == g.snow
    && g'.conns.Keys == g.conns.Keys
    && (forall c | c in g.conns :: g'.conns[c] == g.conns[c].(send := g'.conns[c].send))
  }

  lemma LandedKeepsSettings(w: World, w': World, uid: string, m: Message, n: string)
    requires Landed(w, w', uid, m, n)
    ensures SameSettings(w[n], w'[n])
  {
  }

  lemma DeliverKeepsShape(s: Setup, w: World, uid: string, m: Message, env: Env)
    requires Ready(w, s.self)
    ensures SameShape(w, Deliver(s, w, uid, m, env)) && Ready(Deliver(s, w, uid, m, env), s.self)
  {
    var w' := Deliver(s, w, uid, m, env);
    assert SameShape(w, w') by {
      DeliverLandsIff(s, w, uid, m, env);
      forall n | n in w
        ensures SameSettings(w[n], w'[n])
      {
        if w'[n] != w[n] { LandedKeepsSettings(w, w', uid, m, n); }
      }
    }
    forall n | n in w'
      ensures Wired(w'[n])
    {
      assert Wired(w[n]) && SameSettings(w[n], w'[n]);
    }
  }

  /** A delivery of m to anyone leaves every user who has m with m. */
  lemma DeliverKeepsReached(s: Setup, w: World, uid: string, m: Message, other: string, env: Env)
    requires Ready(w, s.self) && Limited(w) && Reached(w, uid, m)
    ensures Reached(Deliver(s, w, other, m, env), uid, m)
  {
    DeliverLandsIff(s, w, other, m, env);
    var w' := Deliver(s, w, other, m, env);
    var n :| n in w && ReachedAt(w[n], uid, m);
    if w'[n] != w[n] { LandingKeeps(w, w', uid, m, other, n); }
    assert n in w' && ReachedAt(w'[n], uid, m);
  }

  /** A delivered message reaches its user; one that had not reached it before, only if it was not lost. */
  lemma DeliverReachesIff(s: Setup, w: World, uid: string, m: Message, env: Env)
    requires Ready(w, s.self) && Limited(w)
    ensures !Lost(s, w, uid, env) ==> Reached(Deliver(s, w, uid, m, env), uid, m)
    ensures !Reached(w, uid, m) ==> (Reached(Deliver(s, w, uid, m, env), uid, m) <==> !Lost(s, w, uid, env))
  {
    DeliverLandsIff(s, w, uid, m, env);
    var w' := Deliver(s, w, uid, m, env);
    if !Lost(s, w, uid, env) {
      var n := if Landed(w, w', uid, m, s.self) then s.self else env.second;
      LandedReaches(w, w', uid, m, n);
      assert n in w' && ReachedAt(w'[n], uid, m);
    }
  }

  // ---- group fan-out ---------------------------------------------------------------------------

  function Fanout(s: Setup, w: World, sender: string, members: seq<string>, m: Message, envs: nat -> Env): (w': World)
    requires Ready(w, s.self)
    ensures Ready(w', s.self) && SameShape(w, w')
  {
    if members == [] then w
    else
      var last := |members| - 1;
      var w1 := Fanout(s, w, sender, members[..last], m, envs);
      DeliverKeepsShape(s, w1, members[last], m, envs(last));
      if members[last] == sender then w1 else Deliver(s, w1, members[last], m, envs(last))
  }

  lemma {:induction false} FanoutKeepsReached(s: Setup, w: World, sender: string, members: seq<string>, m: Message, envs: nat -> Env, uid: string)
    requires Ready(w, s.self) && Limited(w) && Reached(w, uid, m)
    ensures Reached(Fanout(s, w, sender, members, m, envs), uid, m)
  {
    if members != [] {
      var last := |members| - 1;
      FanoutKeepsReached(s, w, sender, members[..last], m, envs, uid);
      var w1 := Fanout(s, w, sender, members[..last], m, envs);
      if members[last] != sender { DeliverKeepsReached(s, w1, uid, m, members[last], envs(last)); }
    }
  }

  /** Every member but the sender gets the message, unless its own turn loses it; one member's fate does not touch another's. */
  lemma {:induction false} FanoutReaches(s: Setup, w: World, sender: string, members: seq<string>, m: Message, envs: nat -> Env, i: nat)
    requires Ready(w, s.self) && Limited(w)
    requires i < |members| && members[i] != sender && !Lost(s, w, members[i], envs(i))
    ensures Reached(Fanout(s, w, sender, members, m, envs), members[i], m)
  {
    var last := |members| - 1;
    var w1 := Fanout(s, w, sender, members[..last], m, envs);
    assert w1[s.self].clients == w[s.self].clients;
    if i == last {
      DeliverReachesIff(s, w1, members[i], m, envs(i));
    } else {
      FanoutReaches(s, w, sender, members[..last], m, envs, i);
      if members[last] != sender { DeliverKeepsReached(s, w1, members[i], m, members[last], envs(last)); }
    }
  }

  /** The user's mail is the same: the same connection with the same channel, and the same queue. */
  ghost predicate SameBox(g: Gateway, g': Gateway, uid: string) {
    && g'.clients == g.clients
    && OfflineQueue.Of(g'.offline, uid) == OfflineQueue.Of(g.offline, uid)
    && (uid in g.clients && g.clients[uid] in g.conns ==>
          g.clients[uid] in g'.conns && g'.conns[g.clients[uid]] == g.conns[g.clients[uid]])
  }

  lemma LandedSparesOthers(w: World, w': World, target: string, m: Message, uid: string, n: string)
    requires Landed(w, w', target, m, n) && Wired(w[n]) && uid != target
    ensures SameBox(w[n], w'[n], uid)
  {
  }

  lemma DeliverSparesOthers(s: Setup, w: World, target: string, m: Message, env: Env, uid: string, n: string)
    requires Ready(w, s.self) && n in w && uid != target
    ensures var w' := Deliver(s, w, target, m, env); n in w' && SameBox(w[n], w'[n], uid)
  {
    DeliverLandsIff(s, w, target, m, env);
    var w' := Deliver(s, w, target, m, env);
    if w'[n] != w[n] { LandedSparesOthers(w, w', target, m, uid, n); }
  }

  /** The sender and users who are not members are left alone on every gateway, connected or not. */
  lemma {:induction false} FanoutSparesOthers(s: Setup, w: World, sender: string, members: seq<string>, m: Message, envs: nat -> Env, uid: string, n: string)
    requires Ready(w, s.self) && n in w && (uid !in members || uid == sender)
    ensures var w' := Fanout(s, w, sender, members, m, envs); n in w' && SameBox(w[n], w'[n], uid)
  {
    if members != [] {
      var last := |members| - 1;
      FanoutSparesOthers(s, w, sender, members[..last], m, envs, uid, n);
      var w1 := Fanout(s, w, sender, members[..last], m, envs);
      if members[last] != sender { DeliverSparesOthers(s, w1, members[last], m, envs(last), uid, n); }
    }
  }

  /** One of the user's turns in the fan-out does not lose the message. */
  ghost predicate HasTurn(s: Setup, w: World, sender: string, members: seq<string>, envs: nat -> Env, uid: string)
    requires s.self in w
  {
    uid != sender && exists i :: 0 <= i < |members| && members[i] == uid && !Lost(s, w, uid, envs(i))
  }

  lemma BoxReach(w: World, w': World, uid: string, m: Message)
    requires w'.Keys == w.Keys && forall n | n in w :: Wired(w[n]) && SameBox(w[n], w'[n], uid)
    ensures Reached(w', uid, m) ==> Reached(w, uid, m)
  {
    if n :| n in w' && ReachedAt(w'[n], uid, m) {
      assert Wired(w[n]) && SameBox(w[n], w'[n], uid);
      assert ReachedAt(w[n], uid, m);
    }
  }

  lemma DeliverReachesOnlyTarget(s: Setup, w: World, target: string, m: Message, env: Env, uid: string)
    requires Ready(w, s.self) && uid != target && !Reached(w, uid, m)
    ensures !Reached(Deliver(s, w, target, m, env), uid, m)
  {
    var w' := Deliver(s, w, target, m, env);
    assert w'.Keys == w.Keys by { DeliverKeepsShape(s, w, target, m, env); }
    forall n | n in w
      ensures SameBox(w[n], w'[n], uid)
    {
      DeliverSparesOthers(s, w, target, m, env, uid, n);
    }
    BoxReach(w, w', uid, m);
  }

  /** Whoever had not got the message has it after the fan-out only through a turn of its own. */
  lemma {:induction false} FanoutReachesOnly(s: Setup, w: World, sender: string, members: seq<string>, m: Message, envs: nat -> Env, uid: string)
    requires Ready(w, s.self) && Limited(w) && !Reached(w, uid, m)
    requires !HasTurn(s, w, sender, members, envs, uid)
    ensures !Reached(Fanout(s, w, sender, members, m, envs), uid, m)
  {
    if members != [] {
      var last := |members| - 1;
      var front := members[..last];
      assert !HasTurn(s, w, sender, front, envs, uid);
      FanoutReachesOnly(s, w, sender, front, m, envs, uid);
      var w1 := Fanout(s, w, sender, front, m, envs);
      assert w1[s.self].clients == w[s.self].clients;
      if members[last] != sender {
        if members[last] == uid {
          assert Limited(w1);
          DeliverReachesIff(s, w1, uid, m, envs(last));
        } else {
          DeliverReachesOnlyTarget(s, w1, members[last], m, envs(last), uid);
        }
      }
    }
  }

  /** A new message reaches a user through the fan-out exactly when it is a member, not the sender, with a turn that is not lost. */
  lemma FanoutReachesIff(s: Setup, w: World, sender: string, members: seq<string>, m: Message, envs: nat -> Env, uid: string)
    requires Ready(w, s.self) && Limited(w) && !Reached(w, uid, m)
    ensures Reached(Fanout(s, w, sender, members, m, envs), uid, m) <==> HasTurn(s, w, sender, members, envs, uid)
  {
    if HasTurn(s, w, sender, members, envs, uid) {
      var i :| 0 <= i < |members| && members[i] == uid && !Lost(s, w, uid, envs(i));
      FanoutReaches(s, w, sender, members, m, envs, i);
    } else {
      FanoutReachesOnly(s, w, sender, members, m, envs, uid);
    }
  }

  // How many copies a fan-out makes.

  function Repeat(m: Message, k: nat): seq<Message> { seq(k, i => m) }

  function Channel(g: Gateway, uid: string): seq<Message> {
    if uid in g.clients && g.clients[uid] in g.conns then g.conns[g.clients[uid]].send else []
  }

  /** The user has k copies more at this gateway, some at the end of the channel and the others at the end of the queue. */
  ghost predicate Gained(g: Gateway, g': Gateway, uid: string, m: Message, inChannel: nat, inQueue: nat) {
    && g'.clients == g.clients && g'.offlineMax == g.offlineMax
    && Channel(g', uid) == Channel(g, uid) + Repeat(m, inChannel)
    && OfflineQueue.Of(g'.offline, uid) == OfflineQueue.LastN(OfflineQueue.Of(g.offline, uid) + Repeat(m, inQueue), g.offlineMax)
  }

  /** The queues hold no more than they may. */
  ghost predicate Bounded(w: World) {
    forall n, u | n in w :: |OfflineQueue.Of(w[n].offline, u)| <= w[n].offlineMax
  }

  lemma NothingGained(g: Gateway, g': Gateway, uid: string, m: Message)
    requires SameBox(g, g', uid) && Wired(g) && g'.offlineMax == g.offlineMax && |OfflineQueue.Of(g.offline, uid)| <= g.offlineMax
    ensures Gained(g, g', uid, m, 0, 0)
  {
    assert Repeat(m, 0) == [];
    assert Channel(g, uid) + [] == Channel(g, uid);
    assert OfflineQueue.Of(g.offline, uid) + [] == OfflineQueue.Of(g.offline, uid);
  }

  lemma LastOfLast(q: seq<Message>, m: Message, k: nat, max: nat)
    ensures OfflineQueue.LastN(OfflineQueue.LastN(q + Repeat(m, k), max) + [m], max) == OfflineQueue.LastN(q + Repeat(m, k + 1), max)
  {
    var a := q + Repeat(m, k);
    assert q + Repeat(m, k + 1) == a + [m];
    if |a| > max { assert (a[|a| - max..] + [m])[1..] == (a + [m])[|a| + 1 - max..]; }
  }

  lemma OneMore(g: Gateway, g1: Gateway, g': Gateway, uid: string, m: Message, luck: Luck, a: nat, b: nat)
    requires Wired(g1) && Gained(g, g1, uid, m, a, b) && GotIt(g1, g', uid, m, luck)
    ensures Gained(g, g', uid, m, a + 1, b) || Gained(g, g', uid, m, a, b + 1)
  {
    LastOfLast(OfflineQueue.Of(g.offline, uid), m, b, g.offlineMax);
    assert Channel(g, uid) + Repeat(m, a + 1) == Channel(g, uid) + Repeat(m, a) + [m];
  }

  lemma NoneMore(g: Gateway, g1: Gateway, g': Gateway, uid: string, m: Message, a: nat, b: nat)
    requires Wired(g1) && Gained(g, g1, uid, m, a, b) && SameBox(g1, g', uid) && g'.offlineMax == g1.offlineMax
    ensures Gained(g, g', uid, m, a, b)
  {
  }

  /** The turns of the user in the fan-out that bring the message to gateway n. */
  function Turns(s: Setup, w: World, sender: string, members: seq<string>, envs: nat -> Env, uid: string, n: string): nat
    requires s.self in w
  {
    if members == [] then 0
    else
      var last := |members| - 1;
      Turns(s, w, sender, members[..last], envs, uid, n)
      + if members[last] == uid && uid != sender && LandsAt(s, w, uid, envs(last), n) then 1 else 0
  }

  lemma LandsAlike(s: Setup, w: World, w1: World, uid: string, env: Env, n: string)
    requires s.self in w && s.self in w1 && w1.Keys == w.Keys && w1[s.self].clients == w[s.self].clients
    ensures LandsAt(s, w1, uid, env, n) == LandsAt(s, w, uid, env, n)
  {
  }

  lemma TurnGains(s: Setup, w: World, w1: World, target: string, m: Message, env: Env, uid: string, n: string, a: nat, b: nat)
    returns (a': nat, b': nat)
    requires Ready(w, s.self) && Ready(w1, s.self) && SameShape(w, w1) && n in w && Gained(w[n], w1[n], uid, m, a, b)
    ensures n in Deliver(s, w1, target, m, env) && Gained(w[n], Deliver(s, w1, target, m, env)[n], uid, m, a', b')
    ensures a' + b' == a + b + if target == uid && LandsAt(s, w, uid, env, n) then 1 else 0
  {
    var w' := Deliver(s, w1, target, m, env);
    DeliverKeepsShape(s, w1, target, m, env);
    assert SameSettings(w1[n], w'[n]) && Wired(w1[n]);
    if target != uid {
      DeliverSparesOthers(s, w1, target, m, env, uid, n);
      NoneMore(w[n], w1[n], w'[n], uid, m, a, b);
      return a, b;
    }
    DeliverAt(s, w1, uid, m, env, n);
    LandsAlike(s, w, w1, uid, env, n);
    if LandsAt(s, w, uid, env, n) {
      OneMore(w[n], w1[n], w'[n], uid, m, if n == s.self then env.here else env.there, a, b);
      if Gained(w[n], w'[n], uid, m, a + 1, b) { return a + 1, b; }
      return a, b + 1;
    }
    return a, b;
  }

  /** At every gateway every user gains exactly one copy per turn that brings the message there: no turn counts twice. */
  lemma {:induction false} FanoutCopies(s: Setup, w: World, sender: string, members: seq<string>, m: Message, envs: nat -> Env, uid: string, n: string)
    returns (a: nat, b: nat)
    requires Ready(w, s.self) && Bounded(w) && n in w
    ensures n in Fanout(s, w, sender, members, m, envs) && Gained(w[n], Fanout(s, w, sender, members, m, envs)[n], uid, m, a, b)
    ensures a + b == Turns(s, w, sender, members, envs, uid, n)
    decreases |members|
  {
    if members == [] {
      NothingGained(w[n], w[n], uid, m);
      return 0, 0;
    }
    var last := |members| - 1;
    a, b := FanoutCopies(s, w, sender, members[..last], m, envs, uid, n);
    if members[last] != sender {
      a, b := TurnGains(s, w, Fanout(s, w, sender, members[..last], m, envs), members[last], m, envs(last), uid, n, a, b);
    }
  }

  // ---- handleChat ------------------------------------------------------------------------------

  /** Clock readings and luck of one call; `stored` is what Redis answers about the pair, `members` what the group store does. */
  datatype Call = Call(
    stored: Option<int>, askAt: real, limitAt: real, clock: seq<int>, stamp: int, env: Env,
    members: Option<seq<string>>, envs: nat -> Env, markAt: real, ackStamp: int, ackLuck: Luck)

  datatype Outcome =
    | Duplicate(original: int)
    | Invalid
    | RateLimited
    | Blocked                                  // the ID generator is still waiting for the clock
    | Single(how: How, sent: Message)
    | Grouped(sent: Message)

  function Ack(uid: string, seqNo: int, msgId: int, stamp: int): Message {
    Message(CMD_ACK, seqNo, msgId, "", uid, 0, "", stamp, false)
  }

  function SendBack(s: Setup, w: World, cid: nat, m: Message, luck: Luck): (w': World)
    requires Ready(w, s.self) && cid in w[s.self].conns
    ensures Ready(w', s.self)
  {
    w[s.self := w[s.self].(conns := w[s.self].conns[cid := AfterSend(w[s.self].conns[cid], m, luck)])]
  }

  /** The limiter's answer and its new buckets; no limiter lets everything through. */
  function Limit(s: Setup, buckets: RateLimiter.Buckets, uid: string, at: real): (RateLimiter.Buckets, bool) {
    match s.limits
    case None => (buckets, true)
    case Some(cfg) => RateLimiter.AllowStep(cfg, buckets, uid, at)
  }

  /** The ID this message was already given, as far as the gateway can tell. */
  function Known(s: Setup, g: Gateway, uid: string, msg: Message, c: Call): Option<int> {
    if msg.seqNo > 0 then Dedup.Recall(g.seen, g.marks, s.redis, uid, msg.seqNo, c.stored) else None
  }

  /** Asking may fill the dedup cache from Redis; it does nothing else. */
  function Asked(s: Setup, w: World, uid: string, msg: Message, c: Call): (w': World)
    requires Ready(w, s.self)
    ensures Ready(w', s.self)
  {
    var g := w[s.self];
    if msg.seqNo > 0 then w[s.self := g.(seen := Dedup.Recalled(g.seen, g.marks, s.redis, uid, msg.seqNo, c.stored, c.askAt))] else w
  }

  /** The outcome and the message as it is sent; depends only on the acting gateway. */
  function Decide(s: Setup, w: World, cid: nat, msg: Message, c: Call): Outcome
    requires Ready(w, s.self) && cid in w[s.self].conns
  {
    var g := w[s.self];
    var uid := g.conns[cid].uid;
    var known := Known(s, g, uid, msg, c);
    if known.Some? then Duplicate(known.value)
    else if !Validates(msg) then Invalid
    else if !Limit(s, g.buckets, uid, c.limitAt).1 then RateLimited
    else
      match Snowflake.Next(g.snow, c.clock)
      case Waiting => Blocked
      case Severe => Route(s, w, msg.(msgId := 0, timestamp := c.stamp), c)
      case Issued(id, _) => Route(s, w, msg.(msgId := id, timestamp := c.stamp), c)
  }

  function Route(s: Setup, w: World, m: Message, c: Call): Outcome
    requires Ready(w, s.self)
  {
    if m.chatType == CHAT_TYPE_GROUP && s.groups then Grouped(m) else Single(HowDelivered(s, w, m.to, c.env), m)
  }

  /** The message was accepted and is on its way. */
  predicate Goes(o: Outcome) { o.Single? || o.Grouped? }

  /** Whether the outcome is remembered: not after a failed send, so that the client may try again. */
  predicate Marks(o: Outcome) { o.Grouped? || (o.Single? && o.how != Stored) }

  /** The acting gateway after limiter and generator have moved on. */
  function Charged(s: Setup, g: Gateway, uid: string, o: Outcome, c: Call): Gateway {
    if o.Duplicate? || o.Invalid? then g
    else
      var g1 := g.(buckets := Limit(s, g.buckets, uid, c.limitAt).0);
      match Snowflake.Next(g.snow, c.clock)
      case Issued(_, next) => if o.RateLimited? then g1 else g1.(snow := next)
      case _ => g1
  }

  function Remember(g: Gateway, uid: string, m: Message, at: real): Gateway {
    if m.seqNo > 0 then g.(seen := Dedup.Marked(g.seen, uid, m.seqNo, m.msgId, at), marks := g.marks + 1) else g
  }

  /** The world in which the outcome is acted on: only this gateway's buckets and generator have moved. */
  function ChargedWorld(s: Setup, w: World, uid: string, o: Outcome, c: Call): (w1: World)
    requires Ready(w, s.self)
    ensures Ready(w1, s.self) && SameButSelf(w, w1, s.self)
  {
    w[s.self := Charged(s, w[s.self], uid, o, c)]
  }

  ghost predicate SameMail(g: Gateway, g': Gateway) {
    && g'.clients == g.clients && g'.conns == g.conns && g'.offline == g.offline && g'.offlineMax == g.offlineMax
    && g'.seen == g.seen && g'.marks == g.marks
  }

  ghost predicate SameButSelf(w: World, w1: World, self: string) {
    w1.Keys == w.Keys && self in w && SameMail(w[self], w1[self]) && forall n | n in w && n != self :: w1[n] == w[n]
  }

  /** The delivery part: one target or the members of a group. */
  function Distribute(s: Setup, w: World, uid: string, o: Outcome, c: Call): (w': World)
    requires Ready(w, s.self) && Goes(o)
    ensures Ready(w', s.self) && SameShape(w, w')
  {
    match o
    case Single(_, m) => DeliverKeepsShape(s, w, m.to, m, c.env); Deliver(s, w, m.to, m, c.env)
    case Grouped(m) => if c.members.Some? then Fanout(s, w, uid, c.members.value, m, c.envs) else w
  }

  /** The gateway with the dedup mark, if the outcome deserves one. */
  function Noted(s: Setup, w: World, uid: string, o: Outcome, c: Call): (w': World)
    requires Ready(w, s.self) && Goes(o)
    ensures Ready(w', s.self)
  {
    if Marks(o) then w[s.self := Remember(w[s.self], uid, o.sent, c.markAt)] else w
  }

  /** What follows the delivery: the dedup mark and the ACK. */
  function Settle(s: Setup, w: World, cid: nat, uid: string, msg: Message, o: Outcome, c: Call): (w': World)
    requires Ready(w, s.self) && cid in w[s.self].conns && Goes(o)
    ensures Ready(w', s.self)
  {
    var w1 := Noted(s, w, uid, o, c);
    if msg.needAck then SendBack(s, w1, cid, Ack(uid, msg.seqNo, o.sent.msgId, c.ackStamp), c.ackLuck) else w1
  }

  /** Everything that happens to an accepted message: charge, delivery, mark, ACK. */
  function AcceptStep(s: Setup, w: World, cid: nat, uid: string, msg: Message, o: Outcome, c: Call): (w': World)
    requires Ready(w, s.self) && cid in w[s.self].conns && Goes(o)
    ensures Ready(w', s.self)
  {
    Settle(s, Distribute(s, ChargedWorld(s, w, uid, o, c), uid, o, c), cid, uid, msg, o, c)
  }

  /** handleChat as one step: the new world and what happened. */
  function ChatStep(s: Setup, w: World, cid: nat, msg: Message, c: Call): (World, Outcome)
    requires Ready(w, s.self) && cid in w[s.self].conns
  {
    var uid := w[s.self].conns[cid].uid;
    var o := Decide(s, w, cid, msg, c);
    var w1 := ChargedWorld(s, w, uid, o, c);
    match o
    case Duplicate(id) =>
      var w0 := Asked(s, w, uid, msg, c);
      (if msg.needAck then SendBack(s, w0, cid, Ack(uid, msg.seqNo, id, c.ackStamp), c.ackLuck) else w0, o)
    case Invalid => (w, o)
    case RateLimited => (w1, o)
    case Blocked => (w1, o)
    case _ => (AcceptStep(s, w, cid, uid, msg, o, c), o)
  }

  lemma ChatAccepts(s: Setup, w: World, cid: nat, msg: Message, c: Call)
    requires Ready(w, s.self) && cid in w[s.self].conns && Goes(Decide(s, w, cid, msg, c))
    ensures var o := Decide(s, w, cid, msg, c);
            ChatStep(s, w, cid, msg, c) == (AcceptStep(s, w, cid, w[s.self].conns[cid].uid, msg, o, c), o)
  {
  }

  /** A chat leaves the world in order, whatever its outcome. */
  lemma ChatKeepsReady(s: Setup, w: World, cid: nat, msg: Message, c: Call)
    requires Ready(w, s.self) && cid in w[s.self].conns
    ensures Ready(ChatStep(s, w, cid, msg, c).0, s.self)
  {
    if Goes(Decide(s, w, cid, msg, c)) { ChatAccepts(s, w, cid, msg, c); }
  }

  // ---- no accepted message vanishes ---------------------------------------------------------------

  lemma SameReach(w: World, w': World, uid: string, m: Message)
    requires w'.Keys == w.Keys && forall n | n in w :: ReachedAt(w'[n], uid, m) <==> ReachedAt(w[n], uid, m)
    ensures Reached(w', uid, m) <==> Reached(w, uid, m)
  {
    if n :| n in w && ReachedAt(w[n], uid, m) { assert ReachedAt(w'[n], uid, m); }
    if n :| n in w' && ReachedAt(w'[n], uid, m) { assert ReachedAt(w[n], uid, m); }
  }

  /** An ACK on the sender's channel changes nobody's other mail. */
  lemma AckChangesNothingElse(s: Setup, w: World, cid: nat, ack: Message, luck: Luck, uid: string, m: Message)
    requires Ready(w, s.self) && cid in w[s.self].conns && m != ack
    ensures Reached(SendBack(s, w, cid, ack, luck), uid, m) <==> Reached(w, uid, m)
  {
    SameReach(w, SendBack(s, w, cid, ack, luck), uid, m);
  }

  lemma SettleKeepsReach(s: Setup, w: World, cid: nat, uid: string, msg: Message, o: Outcome, c: Call, target: string)
    requires Ready(w, s.self) && cid in w[s.self].conns && Goes(o) && o.sent.cmd != CMD_ACK
    ensures Reached(Settle(s, w, cid, uid, msg, o, c), target, o.sent) <==> Reached(w, target, o.sent)
  {
    var w1 := Noted(s, w, uid, o, c);
    SameReach(w, w1, target, o.sent);
    AckChangesNothingElse(s, w1, cid, Ack(uid, msg.seqNo, o.sent.msgId, c.ackStamp), c.ackLuck, target, o.sent);
  }

  /** An accepted message reaches a target exactly when its delivery part does; charging changes nobody's mail. */
  lemma AcceptReachesAsDelivered(s: Setup, w: World, cid: nat, uid: string, msg: Message, o: Outcome, c: Call, target: string)
    requires Ready(w, s.self) && cid in w[s.self].conns && Goes(o) && o.sent.cmd != CMD_ACK
    ensures var w1 := ChargedWorld(s, w, uid, o, c);
            && (Reached(w1, target, o.sent) <==> Reached(w, target, o.sent))
            && (Reached(AcceptStep(s, w, cid, uid, msg, o, c), target, o.sent) <==> Reached(Distribute(s, w1, uid, o, c), target, o.sent))
  {
    var w1 := ChargedWorld(s, w, uid, o, c);
    SameReach(w, w1, target, o.sent);
    SettleKeepsReach(s, Distribute(s, w1, uid, o, c), cid, uid, msg, o, c, target);
  }

  /** Only the ID and the timestamp of a message are set on the way; the ID is the generator's, or 0 after a severe rollback. */
  lemma SentMessage(s: Setup, w: World, cid: nat, msg: Message, c: Call)
    requires Ready(w, s.self) && cid in w[s.self].conns
    ensures var o := Decide(s, w, cid, msg, c);
            Goes(o) ==>
              && o.sent == msg.(msgId := o.sent.msgId, timestamp := c.stamp)
              && match Snowflake.Next(w[s.self].snow, c.clock)
                 case Issued(id, _) => o.sent.msgId == id
                 case Severe => o.sent.msgId == 0
                 case Waiting => false
  {
  }

  /** An accepted chat has an ID above all IDs this gateway gave before, unless its clock was rolled back severely. */
  lemma AcceptedIdIsFresh(s: Setup, w: World, cid: nat, msg: Message, c: Call)
    requires Ready(w, s.self) && cid in w[s.self].conns && Snowflake.Inv(w[s.self].snow) && Snowflake.Sound(c.clock)
    requires Goes(Decide(s, w, cid, msg, c))
    ensures var (w', o) := ChatStep(s, w, cid, msg, c);
            && s.self in w' && Snowflake.Inv(w'[s.self].snow)
            && (if o.sent.msgId == 0 then w'[s.self].snow == w[s.self].snow
                else Snowflake.Floor(w[s.self].snow) < o.sent.msgId == Snowflake.Floor(w'[s.self].snow))
  {
    var uid, o := w[s.self].conns[cid].uid, Decide(s, w, cid, msg, c);
    ChatAccepts(s, w, cid, msg, c);
    SentMessage(s, w, cid, msg, c);
    AcceptMovesGenerator(s, w, cid, uid, msg, o, c);
    if Snowflake.Next(w[s.self].snow, c.clock).Issued? {
      Snowflake.NextIncreases(w[s.self].snow, c.clock);
      IssuedIsPositive(w[s.self].snow, c.clock);
    }
  }

  lemma AcceptMovesGenerator(s: Setup, w: World, cid: nat, uid: string, msg: Message, o: Outcome, c: Call)
    requires Ready(w, s.self) && cid in w[s.self].conns && Goes(o)
    ensures var w' := AcceptStep(s, w, cid, uid, msg, o, c);
            && s.self in w'
            && w'[s.self].snow == match Snowflake.Next(w[s.self].snow, c.clock)
                                  case Issued(_, next) => next
                                  case _ => w[s.self].snow
  {
    var w1 := ChargedWorld(s, w, uid, o, c);
    var w2 := Distribute(s, w1, uid, o, c);
    assert SameSettings(w1[s.self], w2[s.self]);
    SettleKeepsSnow(s, w2, cid, uid, msg, o, c);
  }

  lemma IssuedIsPositive(g: Snowflake.State, clock: seq<int>)
    requires Snowflake.Inv(g) && Snowflake.Sound(clock) && Snowflake.Next(g, clock).Issued?
    ensures Snowflake.Next(g, clock).id > 0
  {
    Snowflake.NextIncreases(g, clock);
    if g.last != 0 { Snowflake.PackFields(g.last, g.worker, g.sequence); }
  }

  lemma SettleKeepsSnow(s: Setup, w: World, cid: nat, uid: string, msg: Message, o: Outcome, c: Call)
    requires Ready(w, s.self) && cid in w[s.self].conns && Goes(o)
    ensures var w' := Settle(s, w, cid, uid, msg, o, c); s.self in w' && w'[s.self].snow == w[s.self].snow
  {
  }

  /** A chat that is invalid, rate limited or still waiting for its ID changes nobody's mail and no mark. */
  lemma RejectedChangesNoMail(s: Setup, w: World, cid: nat, msg: Message, c: Call)
    requires Ready(w, s.self) && cid in w[s.self].conns
    requires var o := Decide(s, w, cid, msg, c); o.Invalid? || o.RateLimited? || o.Blocked?
    ensures SameButSelf(w, ChatStep(s, w, cid, msg, c).0, s.self)
  {
  }

  // The sender's own channel.

  /** The copy a sender who writes to itself gets on this very connection. */
  function OwnCopy(s: Setup, w: World, cid: nat, uid: string, o: Outcome, c: Call): seq<Message>
    requires Ready(w, s.self) && cid in w[s.self].conns && Goes(o)
  {
    var g := w[s.self];
    if o.Single? && o.sent.to == uid && uid in g.clients && g.clients[uid] == cid && Takes(g.conns[cid], c.env.here) then [o.sent] else []
  }

  /** A delivery touches a connection of this gateway only as the registered one of its target, and only if it takes the message. */
  lemma DeliverConn(s: Setup, w: World, target: string, m: Message, env: Env, cid: nat)
    requires Ready(w, s.self) && cid in w[s.self].conns
    ensures var g, w' := w[s.self], Deliver(s, w, target, m, env);
            && s.self in w' && cid in w'[s.self].conns
            && w'[s.self].conns[cid] == if target in g.clients && g.clients[target] == cid then AfterSend(g.conns[cid], m, env.here) else g.conns[cid]
  {
  }

  lemma {:induction false} FanoutConn(s: Setup, w: World, sender: string, members: seq<string>, m: Message, envs: nat -> Env, cid: nat)
    requires Ready(w, s.self) && cid in w[s.self].conns && w[s.self].conns[cid].uid == sender
    ensures var w' := Fanout(s, w, sender, members, m, envs); cid in w'[s.self].conns && w'[s.self].conns[cid] == w[s.self].conns[cid]
  {
    if members != [] {
      var last := |members| - 1;
      FanoutConn(s, w, sender, members[..last], m, envs, cid);
      var w1 := Fanout(s, w, sender, members[..last], m, envs);
      if members[last] != sender {
        DeliverConn(s, w1, members[last], m, envs(last), cid);
        assert Wired(w1[s.self]);
      }
    }
  }

  lemma DistributeConn(s: Setup, w: World, cid: nat, uid: string, o: Outcome, c: Call)
    requires Ready(w, s.self) && cid in w[s.self].conns && w[s.self].conns[cid].uid == uid && Goes(o)
    ensures var w', conn := Distribute(s, w, uid, o, c), w[s.self].conns[cid];
            cid in w'[s.self].conns && w'[s.self].conns[cid] == conn.(send := conn.send + OwnCopy(s, w, cid, uid, o, c))
  {
    var conn := w[s.self].conns[cid];
    assert conn.send + [] == conn.send;
    match o
    case Single(_, m) =>
      DeliverConn(s, w, m.to, m, c.env, cid);
      assert Wired(w[s.self]);
    case Grouped(m) =>
      if c.members.Some? { FanoutConn(s, w, uid, c.members.value, m, c.envs, cid); }
  }

  lemma SettleConn(s: Setup, w: World, cid: nat, uid: string, msg: Message, o: Outcome, c: Call)
    requires Ready(w, s.self) && cid in w[s.self].conns && Goes(o)
    ensures var w', conn := Settle(s, w, cid, uid, msg, o, c), w[s.self].conns[cid];
            && cid in w'[s.self].conns
            && w'[s.self].conns[cid] == if msg.needAck then AfterSend(conn, Ack(uid, msg.seqNo, o.sent.msgId, c.ackStamp), c.ackLuck) else conn
  {
  }

  /** The sender's channel after an accepted chat: its own copy if it wrote to itself, then the ACK if asked for and taken. */
  lemma SenderChannelAfterChat(s: Setup, w: World, cid: nat, msg: Message, c: Call)
    requires Ready(w, s.self) && cid in w[s.self].conns && Goes(Decide(s, w, cid, msg, c))
    ensures var (w', o) := ChatStep(s, w, cid, msg, c);
            var conn := w[s.self].conns[cid];
            var kept := conn.(send := conn.send + OwnCopy(s, w, cid, conn.uid, o, c));
            && s.self in w' && cid in w'[s.self].conns
            && w'[s.self].conns[cid] ==
               if msg.needAck then AfterSend(kept, Ack(conn.uid, msg.seqNo, o.sent.msgId, c.ackStamp), c.ackLuck) else kept
  {
    var uid, o := w[s.self].conns[cid].uid, Decide(s, w, cid, msg, c);
    ChatAccepts(s, w, cid, msg, c);
    var w1 := ChargedWorld(s, w, uid, o, c);
    DistributeConn(s, w1, cid, uid, o, c);
    SettleConn(s, Distribute(s, w1, uid, o, c), cid, uid, msg, o, c);
  }

  /** An open sender with one free slot, or two if it writes to itself, gets the ACK right behind what it had and its own copy. */
  lemma AcceptedIsAcked(s: Setup, w: World, cid: nat, msg: Message, c: Call)
    requires Ready(w, s.self) && cid in w[s.self].conns && Goes(Decide(s, w, cid, msg, c))
    requires msg.needAck && c.ackLuck.marshals
    requires var conn := w[s.self].conns[cid];
             !conn.closed && |conn.send| + (if msg.to == conn.uid then 2 else 1) <= conn.capacity
    ensures var (w', o) := ChatStep(s, w, cid, msg, c);
            var conn := w[s.self].conns[cid];
            var ack := Ack(conn.uid, msg.seqNo, o.sent.msgId, c.ackStamp);
            && s.self in w' && cid in w'[s.self].conns
            && w'[s.self].conns[cid].send == conn.send + OwnCopy(s, w, cid, conn.uid, o, c) + [ack]
            && (o.Grouped? || msg.to != conn.uid ==> w'[s.self].conns[cid].send == conn.send + [ack])
  {
    SentMessage(s, w, cid, msg, c);
    SenderChannelAfterChat(s, w, cid, msg, c);
    var conn, o := w[s.self].conns[cid], Decide(s, w, cid, msg, c);
    AckFits(conn, OwnCopy(s, w, cid, conn.uid, o, c), Ack(conn.uid, msg.seqNo, o.sent.msgId, c.ackStamp), c.ackLuck);
  }

  lemma AckFits(conn: Conn, own: seq<Message>, ack: Message, luck: Luck)
    requires !conn.closed && luck.marshals && |conn.send| + |own| < conn.capacity
    ensures AfterSend(conn.(send := conn.send + own), ack, luck).send == conn.send + own + [ack]
    ensures own == [] ==> conn.send + own + [ack] == conn.send + [ack]
  {
  }

  lemma SingleReaches(s: Setup, w: World, cid: nat, uid: string, msg: Message, o: Outcome, c: Call)
    requires Ready(w, s.self) && Limited(w) && cid in w[s.self].conns && o.Single? && o.sent.cmd != CMD_ACK
    ensures var w', to := AcceptStep(s, w, cid, uid, msg, o, c), o.sent.to;
            && (!Lost(s, w, to, c.env) ==> Reached(w', to, o.sent))
            && (!Reached(w, to, o.sent) ==> (Reached(w', to, o.sent) <==> !Lost(s, w, to, c.env)))
  {
    AcceptReachesAsDelivered(s, w, cid, uid, msg, o, c, o.sent.to);
    DeliverReachesIff(s, ChargedWorld(s, w, uid, o, c), o.sent.to, o.sent, c.env);
  }

  /** A single chat past dedup, validation and rate limit reaches its target, and a new one only if it was not lost. */
  lemma SingleChatReaches(s: Setup, w: World, cid: nat, msg: Message, c: Call)
    requires Ready(w, s.self) && Limited(w) && cid in w[s.self].conns && msg.cmd != CMD_ACK
    requires Decide(s, w, cid, msg, c).Single?
    ensures var w', o := ChatStep(s, w, cid, msg, c).0, Decide(s, w, cid, msg, c);
            && (!Lost(s, w, o.sent.to, c.env) ==> Reached(w', o.sent.to, o.sent))
            && (!Reached(w, o.sent.to, o.sent) ==> (Reached(w', o.sent.to, o.sent) <==> !Lost(s, w, o.sent.to, c.env)))
  {
    var uid, o := w[s.self].conns[cid].uid, Decide(s, w, cid, msg, c);
    ChatAccepts(s, w, cid, msg, c);
    SentMessage(s, w, cid, msg, c);
    SingleReaches(s, w, cid, uid, msg, o, c);
  }

  /** The message travels at most one hop: no gateway but this one and the forwarder's owner changes. */
  lemma OneHop(s: Setup, w: World, cid: nat, msg: Message, c: Call, n: string)
    requires Ready(w, s.self) && cid in w[s.self].conns && Decide(s, w, cid, msg, c).Single?
    requires n in w && n != s.self && n != c.env.second
    ensures var w' := ChatStep(s, w, cid, msg, c).0; n in w' && w'[n] == w[n]
  {
    var uid, o := w[s.self].conns[cid].uid, Decide(s, w, cid, msg, c);
    ChatAccepts(s, w, cid, msg, c);
    DeliverLandsIff(s, ChargedWorld(s, w, uid, o, c), o.sent.to, o.sent, c.env);
  }

  /** When both lookups read one ring, every accepted single chat reaches its target. */
  lemma AcceptedChatNeverVanishes(s: Setup, w: World, cid: nat, msg: Message, c: Call, p: Ring.Params, nodes: map<Ring.Word, string>)
    requires Ready(w, s.self) && Limited(w) && cid in w[s.self].conns && (msg.cmd == CMD_CHAT || msg.cmd == CMD_FILE)
    requires Decide(s, w, cid, msg, c).Single?
    requires OneRing(c.env, nodes, p.crc(msg.to))
    ensures var o := Decide(s, w, cid, msg, c); o.sent.to == msg.to && Reached(ChatStep(s, w, cid, msg, c).0, msg.to, o.sent)
  {
    var o := Decide(s, w, cid, msg, c);
    SentMessage(s, w, cid, msg, c);
    assert Validates(msg);
    OneRingLosesNothing(s, w, msg.to, c.env);
    SingleChatReaches(s, w, cid, msg, c);
  }

  /** A group chat reaches every member but the sender whose turn is not lost, and nobody else. */
  lemma GroupChatReachesIff(s: Setup, w: World, cid: nat, msg: Message, c: Call, target: string)
    requires Ready(w, s.self) && Limited(w) && cid in w[s.self].conns && msg.cmd != CMD_ACK
    requires Decide(s, w, cid, msg, c).Grouped? && !Reached(w, target, Decide(s, w, cid, msg, c).sent)
    ensures Reached(ChatStep(s, w, cid, msg, c).0, target, Decide(s, w, cid, msg, c).sent) <==>
            c.members.Some? && HasTurn(s, w, w[s.self].conns[cid].uid, c.members.value, c.envs, target)
  {
    var uid, o := w[s.self].conns[cid].uid, Decide(s, w, cid, msg, c);
    ChatAccepts(s, w, cid, msg, c);
    SentMessage(s, w, cid, msg, c);
    GroupReachesIff(s, w, cid, uid, msg, o, c, target);
  }

  lemma GroupReachesIff(s: Setup, w: World, cid: nat, uid: string, msg: Message, o: Outcome, c: Call, target: string)
    requires Ready(w, s.self) && Limited(w) && cid in w[s.self].conns && o.Grouped? && o.sent.cmd != CMD_ACK
    requires !Reached(w, target, o.sent)
    ensures Reached(AcceptStep(s, w, cid, uid, msg, o, c), target, o.sent) <==>
            c.members.Some? && HasTurn(s, w, uid, c.members.value, c.envs, target)
  {
    AcceptReachesAsDelivered(s, w, cid, uid, msg, o, c, target);
    var w1 := ChargedWorld(s, w, uid, o, c);
    if c.members.Some? {
      assert Limited(w1) && w1[s.self].clients == w[s.self].clients;
      FanoutReachesIff(s, w1, uid, c.members.value, o.sent, c.envs, target);
    }
  }

  /** Both lookups of a turn read one ring. */
  ghost predicate OneRing(env: Env, nodes: map<Ring.Word, string>, h: Ring.Word) {
    env.first == Ring.Owner(nodes, h) && env.second == Ring.Owner(nodes, h)
  }

  lemma GroupChatReaches(s: Setup, w: World, cid: nat, msg: Message, c: Call, i: nat)
    requires Ready(w, s.self) && Limited(w) && cid in w[s.self].conns && msg.cmd != CMD_ACK
    requires Decide(s, w, cid, msg, c).Grouped? && c.members.Some? && i < |c.members.value|
    requires c.members.value[i] != w[s.self].conns[cid].uid && !Lost(s, w, c.members.value[i], c.envs(i))
    ensures Reached(ChatStep(s, w, cid, msg, c).0, c.members.value[i], Decide(s, w, cid, msg, c).sent)
  {
    var uid, o := w[s.self].conns[cid].uid, Decide(s, w, cid, msg, c);
    var w1 := ChargedWorld(s, w, uid, o, c);
    ChargedFanoutReaches(s, w, w1, uid, c.members.value, o.sent, c.envs, i);
    ChatAccepts(s, w, cid, msg, c);
    SentMessage(s, w, cid, msg, c);
    AcceptReachesAsDelivered(s, w, cid, uid, msg, o, c, c.members.value[i]);
  }

  lemma ChargedFanoutReaches(s: Setup, w: World, w1: World, sender: string, members: seq<string>, m: Message, envs: nat -> Env, i: nat)
    requires Ready(w, s.self) && Limited(w) && Ready(w1, s.self) && SameButSelf(w, w1, s.self)
    requires i < |members| && members[i] != sender && !Lost(s, w, members[i], envs(i))
    ensures Reached(Fanout(s, w1, sender, members, m, envs), members[i], m)
  {
    assert Limited(w1) && w1[s.self].clients == w[s.self].clients;
    FanoutReaches(s, w1, sender, members, m, envs, i);
  }

  /** With one ring behind every lookup pair, a group chat reaches every real member but the sender. */
  lemma GroupChatNeverVanishes(s: Setup, w: World, cid: nat, msg: Message, c: Call, p: Ring.Params, nodes: map<Ring.Word, string>, member: string)
    requires Ready(w, s.self) && Limited(w) && cid in w[s.self].conns && msg.cmd != CMD_ACK
    requires Decide(s, w, cid, msg, c).Grouped? && c.members.Some?
    requires forall i | 0 <= i < |c.members.value| :: OneRing(c.envs(i), nodes, p.crc(c.members.value[i]))
    requires member in c.members.value && member != "" && member != w[s.self].conns[cid].uid
    ensures Reached(ChatStep(s, w, cid, msg, c).0, member, Decide(s, w, cid, msg, c).sent)
  {
    var i :| 0 <= i < |c.members.value| && c.members.value[i] == member;
    OneRingLosesNothing(s, w, member, c.envs(i));
    GroupChatReaches(s, w, cid, msg, c, i);
  }

  // ---- older mail -------------------------------------------------------------------------------

  lemma {:induction false} TurnsBound(s: Setup, w: World, sender: string, members: seq<string>, envs: nat -> Env, uid: string, n: string)
    requires s.self in w
    ensures Turns(s, w, sender, members, envs, uid, n) <= |members|
  {
    if members != [] { TurnsBound(s, w, sender, members[..|members| - 1], envs, uid, n); }
  }

  /** At most how many copies of it one user can be sent. */
  function Copies(o: Outcome, c: Call): nat {
    if o.Single? then 1 else if o.Grouped? && c.members.Some? then |c.members.value| else 0
  }

  lemma DistributeQueues(s: Setup, w: World, uid: string, o: Outcome, c: Call, n: string, u: string) returns (k: nat)
    requires Ready(w, s.self) && Bounded(w) && n in w && Goes(o)
    ensures var w' := Distribute(s, w, uid, o, c);
            && n in w' && k <= Copies(o, c)
            && OfflineQueue.Of(w'[n].offline, u) == OfflineQueue.LastN(OfflineQueue.Of(w[n].offline, u) + Repeat(o.sent, k), w[n].offlineMax)
  {
    NothingGained(w[n], w[n], u, o.sent);
    match o
    case Single(_, m) =>
      var a, b := TurnGains(s, w, w, m.to, m, c.env, u, n, 0, 0);
      k := b;
    case Grouped(m) =>
      if c.members.Some? {
        var a, b := FanoutCopies(s, w, uid, c.members.value, m, c.envs, u, n);
        TurnsBound(s, w, uid, c.members.value, c.envs, u, n);
        k := b;
      } else {
        k := 0;
      }
  }

  lemma SettleKeepsQueues(s: Setup, w: World, cid: nat, uid: string, msg: Message, o: Outcome, c: Call, n: string)
    requires Ready(w, s.self) && cid in w[s.self].conns && Goes(o) && n in w
    ensures var w' := Settle(s, w, cid, uid, msg, o, c); n in w' && w'[n].offline == w[n].offline
  {
  }

  lemma AcceptQueues(s: Setup, w: World, cid: nat, uid: string, msg: Message, o: Outcome, c: Call, n: string, u: string) returns (k: nat)
    requires Ready(w, s.self) && Bounded(w) && cid in w[s.self].conns && Goes(o) && n in w
    ensures var w' := AcceptStep(s, w, cid, uid, msg, o, c);
            && n in w' && k <= Copies(o, c)
            && OfflineQueue.Of(w'[n].offline, u) == OfflineQueue.LastN(OfflineQueue.Of(w[n].offline, u) + Repeat(o.sent, k), w[n].offlineMax)
  {
    var w1 := ChargedWorld(s, w, uid, o, c);
    assert w1[n].offline == w[n].offline && w1[n].offlineMax == w[n].offlineMax;
    assert Bounded(w1);
    k := DistributeQueues(s, w1, uid, o, c, n, u);
    SettleKeepsQueues(s, Distribute(s, w1, uid, o, c), cid, uid, msg, o, c, n);
  }

  lemma PrefixKept(q: seq<Message>, m: Message, k: nat, max: nat)
    requires |q| + k <= max
    ensures q <= OfflineQueue.LastN(q + Repeat(m, k), max)
  {
  }

  /** Whatever becomes of a chat, no queue below its limit loses an older message, anywhere; only copies of the chat come behind. */
  lemma ChatKeepsQueues(s: Setup, w: World, cid: nat, msg: Message, c: Call, n: string, u: string)
    requires Ready(w, s.self) && Bounded(w) && cid in w[s.self].conns && n in w
    ensures var (w', o) := ChatStep(s, w, cid, msg, c);
            var q := OfflineQueue.Of(w[n].offline, u);
            && n in w'
            && (!Goes(o) ==> w'[n].offline == w[n].offline)
            && (|q| + Copies(o, c) <= w[n].offlineMax ==> q <= OfflineQueue.Of(w'[n].offline, u))
            && (Goes(o) ==>
                  exists k: nat :: k <= Copies(o, c)
                    && OfflineQueue.Of(w'[n].offline, u) == OfflineQueue.LastN(q + Repeat(o.sent, k), w[n].offlineMax))
  {
    var uid, o := w[s.self].conns[cid].uid, Decide(s, w, cid, msg, c);
    if Goes(o) {
      ChatAccepts(s, w, cid, msg, c);
      var k := AcceptQueues(s, w, cid, uid, msg, o, c, n, u);
      var q := OfflineQueue.Of(w[n].offline, u);
      if |q| + Copies(o, c) <= w[n].offlineMax { PrefixKept(q, o.sent, k, w[n].offlineMax); }
    }
  }

  /** Every connection still has what it had, in front. */
  ghost predicate ChannelsGrow(w: World, w': World) {
    && w'.Keys == w.Keys
    && forall n, d | n in w && d in w[n].conns :: d in w'[n].conns && w[n].conns[d].send <= w'[n].conns[d].send
  }

  lemma DeliverGrows(s: Setup, w: World, uid: string, m: Message, env: Env)
    requires Ready(w, s.self)
    ensures ChannelsGrow(w, Deliver(s, w, uid, m, env))
  {
    DeliverLandsIff(s, w, uid, m, env);
    var w' := Deliver(s, w, uid, m, env);
    forall n, d | n in w && d in w[n].conns
      ensures d in w'[n].conns && w[n].conns[d].send <= w'[n].conns[d].send
    {
      if w'[n] != w[n] { LandedGrows(w, w', uid, m, n, d); }
    }
  }

  lemma LandedGrows(w: World, w': World, uid: string, m: Message, n: string, d: nat)
    requires Landed(w, w', uid, m, n) && d in w[n].conns
    ensures d in w'[n].conns && w[n].conns[d].send <= w'[n].conns[d].send
  {
  }

  lemma {:induction false} FanoutGrows(s: Setup, w: World, sender: string, members: seq<string>, m: Message, envs: nat -> Env)
    requires Ready(w, s.self)
    ensures ChannelsGrow(w, Fanout(s, w, sender, members, m, envs))
  {
    if members != [] {
      var last := |members| - 1;
      FanoutGrows(s, w, sender, members[..last], m, envs);
      DeliverGrows(s, Fanout(s, w, sender, members[..last], m, envs), members[last], m, envs(last));
    }
  }

  lemma SettleGrows(s: Setup, w: World, cid: nat, uid: string, msg: Message, o: Outcome, c: Call)
    requires Ready(w, s.self) && cid in w[s.self].conns && Goes(o)
    ensures ChannelsGrow(w, Settle(s, w, cid, uid, msg, o, c))
  {
    var w1 := Noted(s, w, uid, o, c);
    assert w1.Keys == w.Keys && forall n | n in w :: w1[n].conns == w[n].conns;
    SendBackGrows(s, w1, cid, Ack(uid, msg.seqNo, o.sent.msgId, c.ackStamp), c.ackLuck);
  }

  lemma SendBackGrows(s: Setup, w: World, cid: nat, m: Message, luck: Luck)
    requires Ready(w, s.self) && cid in w[s.self].conns
    ensures ChannelsGrow(w, SendBack(s, w, cid, m, luck))
  {
    var conn := w[s.self].conns[cid];
    assert conn.send <= AfterSend(conn, m, luck).send;
  }

  lemma AcceptGrows(s: Setup, w: World, cid: nat, uid: string, msg: Message, o: Outcome, c: Call)
    requires Ready(w, s.self) && cid in w[s.self].conns && Goes(o)
    ensures ChannelsGrow(w, AcceptStep(s, w, cid, uid, msg, o, c))
  {
    var w1 := ChargedWorld(s, w, uid, o, c);
    var w2 := Distribute(s, w1, uid, o, c);
    DistributeGrows(s, w1, uid, o, c);
    SettleGrows(s, w2, cid, uid, msg, o, c);
  }

  lemma DistributeGrows(s: Setup, w: World, uid: string, o: Outcome, c: Call)
    requires Ready(w, s.self) && Goes(o)
    ensures ChannelsGrow(w, Distribute(s, w, uid, o, c))
  {
    match o
    case Single(_, m) => DeliverGrows(s, w, m.to, m, c.env);
    case Grouped(m) => if c.members.Some? { FanoutGrows(s, w, uid, c.members.value, m, c.envs); }
  }

  /** No chat takes a message out of any channel. */
  lemma ChatKeepsChannels(s: Setup, w: World, cid: nat, msg: Message, c: Call)
    requires Ready(w, s.self) && cid in w[s.self].conns
    ensures ChannelsGrow(w, ChatStep(s, w, cid, msg, c).0)
  {
    var uid, o := w[s.self].conns[cid].uid, Decide(s, w, cid, msg, c);
    if Goes(o) {
      ChatAccepts(s, w, cid, msg, c);
      AcceptGrows(s, w, cid, uid, msg, o, c);
    } else if o.Duplicate? {
      AskedGrows(s, w, cid, uid, msg, o.original, c);
    } else {
      SameConnsGrow(w, ChatStep(s, w, cid, msg, c).0);
    }
  }

  lemma SameConnsGrow(w: World, w': World)
    requires w'.Keys == w.Keys && forall n | n in w :: w'[n].conns == w[n].conns
    ensures ChannelsGrow(w, w')
  {
  }

  lemma AskedGrows(s: Setup, w: World, cid: nat, uid: string, msg: Message, id: int, c: Call)
    requires Ready(w, s.self) && cid in w[s.self].conns
    ensures var w0 := Asked(s, w, uid, msg, c);
            && cid in w0[s.self].conns
            && ChannelsGrow(w, if msg.needAck then SendBack(s, w0, cid, Ack(uid, msg.seqNo, id, c.ackStamp), c.ackLuck) else w0)
  {
    var w0 := Asked(s, w, uid, msg, c);
    SameConnsGrow(w, w0);
    SendBackGrows(s, w0, cid, Ack(uid, msg.seqNo, id, c.ackStamp), c.ackLuck);
  }

  // ---- the decisions, by their guards ------------------------------------------------------------

  /** The pair is known: in memory, or to Redis before this process has marked anything. */
  predicate KnownPair(s: Setup, g: Gateway, uid: string, msg: Message, c: Call) {
    msg.seqNo > 0 && (Dedup.Lookup(g.seen, uid, msg.seqNo).Some? || (s.redis && g.marks == 0 && c.stored.Some?))
  }

  predicate Passes(s: Setup, g: Gateway, uid: string, at: real) {
    s.limits.None? || RateLimiter.AllowStep(s.limits.value, g.buckets, uid, at).1
  }

  /** Which outcome a chat has, decided in this order on the state before. */
  lemma OutcomeIff(s: Setup, w: World, cid: nat, msg: Message, c: Call)
    requires Ready(w, s.self) && cid in w[s.self].conns
    ensures var g, o := w[s.self], Decide(s, w, cid, msg, c);
            var uid := g.conns[cid].uid;
            var unknown := !KnownPair(s, g, uid, msg, c);
            var valid := unknown && Validates(msg);
            var passed := valid && Passes(s, g, uid, c.limitAt);
            && (o.Duplicate? <==> !unknown)
            && (o.Invalid? <==> unknown && !valid)
            && (o.RateLimited? <==> valid && !passed)
            && (o.Blocked? <==> passed && Snowflake.Next(g.snow, c.clock).Waiting?)
            && (Goes(o) <==> passed && !Snowflake.Next(g.snow, c.clock).Waiting?)
            && (Goes(o) ==> (o.Grouped? <==> msg.chatType == 2 && s.groups))
  {
  }

  /** And how a single chat is delivered. */
  lemma HowIff(s: Setup, w: World, cid: nat, msg: Message, c: Call)
    requires Ready(w, s.self) && cid in w[s.self].conns && Decide(s, w, cid, msg, c).Single?
    ensures var g, o := w[s.self], Decide(s, w, cid, msg, c);
            && (o.how == Routed <==> msg.to !in g.clients)
            && (o.how == Online <==> msg.to in g.clients && SentHere(g, msg.to, c.env.here))
            && (o.how == Stored <==> msg.to in g.clients && !SentHere(g, msg.to, c.env.here))
  {
    SentMessage(s, w, cid, msg, c);
  }

  /** The user's connection here takes a message now. */
  predicate SentHere(g: Gateway, uid: string, luck: Luck) {
    && uid in g.clients && g.clients[uid] in g.conns
    && var conn := g.conns[g.clients[uid]];
    SendOutcome(|conn.send|, conn.capacity, conn.closed, luck) == Sent
  }

  /** What a chat costs: a token exactly if it got as far as the limiter, at this gateway and nowhere else. */
  lemma BucketsAfterChat(s: Setup, w: World, cid: nat, msg: Message, c: Call, n: string)
    requires Ready(w, s.self) && cid in w[s.self].conns && n in w
    ensures var (w', o) := ChatStep(s, w, cid, msg, c);
            var g := w[s.self];
            && n in w'
            && w'[n].buckets == if n == s.self && !o.Duplicate? && !o.Invalid? && s.limits.Some?
                                then RateLimiter.AllowStep(s.limits.value, g.buckets, g.conns[cid].uid, c.limitAt).0 else w[n].buckets
  {
    var uid, o := w[s.self].conns[cid].uid, Decide(s, w, cid, msg, c);
    if Goes(o) {
      ChatAccepts(s, w, cid, msg, c);
      AcceptBuckets(s, w, cid, uid, msg, o, c, n);
    }
    ChargedBuckets(s, w[s.self], uid, o, c);
  }

  lemma ChargedBuckets(s: Setup, g: Gateway, uid: string, o: Outcome, c: Call)
    ensures Charged(s, g, uid, o, c).buckets ==
            if !o.Duplicate? && !o.Invalid? && s.limits.Some? then RateLimiter.AllowStep(s.limits.value, g.buckets, uid, c.limitAt).0
            else g.buckets
  {
  }

  lemma AcceptBuckets(s: Setup, w: World, cid: nat, uid: string, msg: Message, o: Outcome, c: Call, n: string)
    requires Ready(w, s.self) && cid in w[s.self].conns && Goes(o) && n in w
    ensures var w', w1 := AcceptStep(s, w, cid, uid, msg, o, c), ChargedWorld(s, w, uid, o, c);
            n in w' && n in w1 && w'[n].buckets == w1[n].buckets
  {
    var w1 := ChargedWorld(s, w, uid, o, c);
    var w2 := Distribute(s, w1, uid, o, c);
    assert SameSettings(w1[n], w2[n]);
    SettleKeepsBuckets(s, w2, cid, uid, msg, o, c, n);
  }

  lemma SettleKeepsBuckets(s: Setup, w: World, cid: nat, uid: string, msg: Message, o: Outcome, c: Call, n: string)
    requires Ready(w, s.self) && cid in w[s.self].conns && Goes(o) && n in w
    ensures var w' := Settle(s, w, cid, uid, msg, o, c); n in w' && w'[n].buckets == w[n].buckets
  {
  }

  /** A number is taken from the generator exactly if the chat is accepted with one. */
  lemma GeneratorAfterChat(s: Setup, w: World, cid: nat, msg: Message, c: Call)
    requires Ready(w, s.self) && cid in w[s.self].conns
    ensures var (w', o) := ChatStep(s, w, cid, msg, c);
            && s.self in w'
            && w'[s.self].snow == if Goes(o) && Snowflake.Next(w[s.self].snow, c.clock).Issued?
                                  then Snowflake.Next(w[s.self].snow, c.clock).next else w[s.self].snow
  {
    var uid, o := w[s.self].conns[cid].uid, Decide(s, w, cid, msg, c);
    if Goes(o) {
      ChatAccepts(s, w, cid, msg, c);
      AcceptMovesGenerator(s, w, cid, uid, msg, o, c);
    } else {
      OutcomeIff(s, w, cid, msg, c);
    }
  }

  /** A duplicate is known in memory afterwards, with the ID it was answered with, even if Redis had to be asked. */
  lemma DuplicateIsRemembered(s: Setup, w: World, cid: nat, msg: Message, c: Call)
    requires Ready(w, s.self) && cid in w[s.self].conns && Decide(s, w, cid, msg, c).Duplicate?
    ensures var (w', o) := ChatStep(s, w, cid, msg, c);
            s.self in w' && Dedup.Lookup(w'[s.self].seen, w[s.self].conns[cid].uid, msg.seqNo) == Some(o.original)
  {
    SeenAfterChat(s, w, cid, msg, c);
  }

  /** The ACK by its fields. */
  lemma AckFields(uid: string, seqNo: int, msgId: int, stamp: int)
    ensures var ack := Ack(uid, seqNo, msgId, stamp);
            && ack.cmd == 2 && ack.seqNo == seqNo && ack.msgId == msgId && ack.to == uid && ack.timestamp == stamp
            && ack.from == "" && ack.content == "" && ack.chatType == 0 && !ack.needAck
  {
  }

  /** A failed online send is not marked, so that the client may try again; every other accepted chat is, if it has a seq. */
  lemma MarkedUnlessStored(s: Setup, w: World, cid: nat, msg: Message, c: Call)
    requires Ready(w, s.self) && cid in w[s.self].conns && Goes(Decide(s, w, cid, msg, c))
    ensures var (w', o) := ChatStep(s, w, cid, msg, c);
            var g, uid := w[s.self], w[s.self].conns[cid].uid;
            var failed := o.Single? && msg.to in g.clients && !SentHere(g, msg.to, c.env.here);
            && s.self in w'
            && w'[s.self].seen == if failed || msg.seqNo <= 0 then g.seen
                                  else g.seen[Dedup.Key(uid, msg.seqNo) := Dedup.Entry(o.sent.msgId, c.markAt)]
  {
    SeenAfterChat(s, w, cid, msg, c);
    if Decide(s, w, cid, msg, c).Single? { HowIff(s, w, cid, msg, c); }
  }

  // ---- dedup over runs ---------------------------------------------------------------------------

  /** After handleChat the acting gateway remembers one more pair, marked or found in Redis, or none. */
  lemma SeenAfterChat(s: Setup, w: World, cid: nat, msg: Message, c: Call)
    requires Ready(w, s.self) && cid in w[s.self].conns
    ensures var (w', o) := ChatStep(s, w, cid, msg, c);
            && s.self in w'
            && w'[s.self].seen == if Marks(o) && msg.seqNo > 0
                                  then Dedup.Marked(w[s.self].seen, w[s.self].conns[cid].uid, msg.seqNo, o.sent.msgId, c.markAt)
                                  else if o.Duplicate? then Asked(s, w, w[s.self].conns[cid].uid, msg, c)[s.self].seen
                                  else w[s.self].seen
  {
    var uid, o := w[s.self].conns[cid].uid, Decide(s, w, cid, msg, c);
    if Goes(o) {
      ChatAccepts(s, w, cid, msg, c);
      SentMessage(s, w, cid, msg, c);
      var w1 := ChargedWorld(s, w, uid, o, c);
      var w2 := Distribute(s, w1, uid, o, c);
      assert SameSettings(w1[s.self], w2[s.self]);
      SeenAfterDelivery(s, w2, cid, uid, msg, o, c);
    }
  }

  lemma SeenAfterDelivery(s: Setup, w: World, cid: nat, uid: string, msg: Message, o: Outcome, c: Call)
    requires Ready(w, s.self) && cid in w[s.self].conns && Goes(o)
    ensures var w' := Settle(s, w, cid, uid, msg, o, c);
            && s.self in w'
            && w'[s.self].seen == if Marks(o) && o.sent.seqNo > 0
                                  then Dedup.Marked(w[s.self].seen, uid, o.sent.seqNo, o.sent.msgId, c.markAt)
                                  else w[s.self].seen
  {
  }

  /** From w to w' nothing has happened but that the channel of `cid` was offered this ACK, if it was asked for. */
  ghost predicate OnlyAcked(s: Setup, w: World, w': World, cid: nat, ack: Message, asked: bool, luck: Luck)
    requires s.self in w && cid in w[s.self].conns
  {
    && w'.Keys == w.Keys && (forall n | n in w && n != s.self :: w'[n] == w[n])
    && var g, g' := w[s.self], w'[s.self];
    && g'.clients == g.clients && g'.offline == g.offline && g'.offlineMax == g.offlineMax
    && g'.seen == g.seen && g'.marks == g.marks && g'.buckets == g.buckets && g'.snow == g.snow
    && g'.conns.Keys == g.conns.Keys && (forall d | d in g.conns && d != cid :: g'.conns[d] == g.conns[d])
    && var conn, conn' := g.conns[cid], g'.conns[cid];
    && (conn' == conn || conn' == conn.(send := conn.send + [ack]))
    && (conn' != conn ==> asked && luck.marshals && |conn.send| < conn.capacity)
    && (asked && luck.marshals && |conn.send| < conn.capacity && !conn.closed ==> conn' != conn)
  }

  /** A pair known in memory makes the chat a duplicate, and then nothing happens but the ACK. */
  lemma KnownOnlyAcks(s: Setup, w: World, cid: nat, msg: Message, c: Call, id: int)
    requires Ready(w, s.self) && cid in w[s.self].conns && msg.seqNo > 0
    requires Dedup.Lookup(w[s.self].seen, w[s.self].conns[cid].uid, msg.seqNo) == Some(id)
    ensures OnlyAcked(s, w, ChatStep(s, w, cid, msg, c).0, cid, Ack(w[s.self].conns[cid].uid, msg.seqNo, id, c.ackStamp), msg.needAck, c.ackLuck)
  {
    var conn := w[s.self].conns[cid];
    assert Asked(s, w, conn.uid, msg, c) == w by { assert w[s.self := w[s.self]] == w; }
    assert Decide(s, w, cid, msg, c) == Duplicate(id);
    OfferedAck(s, w, cid, Ack(conn.uid, msg.seqNo, id, c.ackStamp), msg.needAck, c.ackLuck);
  }

  lemma OfferedAck(s: Setup, w: World, cid: nat, ack: Message, asked: bool, luck: Luck)
    requires Ready(w, s.self) && cid in w[s.self].conns
    ensures OnlyAcked(s, w, if asked then SendBack(s, w, cid, ack, luck) else w, cid, ack, asked, luck)
  {
    var conn := w[s.self].conns[cid];
    assert |conn.send + [ack]| == |conn.send| + 1;
  }

  // Steps of a run as seen by one gateway: its own chats, its eviction ticks, and anything at all that
  // others do, as long as it leaves this gateway's dedup cache alone.
  datatype Event = Chat(cid: nat, msg: Message, call: Call) | Evict | Elsewhere

  ghost predicate Happens(s: Setup, w: World, e: Event, at: real, w': World)
    requires Ready(w, s.self)
  {
    match e
    case Chat(cid, msg, call) => cid in w[s.self].conns && call.markAt == at && w' == ChatStep(s, w, cid, msg, call).0
    case Evict => w' == w[s.self := w[s.self].(seen := Dedup.Evicted(w[s.self].seen, at, s.ttl))]
    case Elsewhere => Ready(w', s.self) && w'[s.self].seen == w[s.self].seen
  }

  /** A run from a world in order; what others do leaves it in order, what this gateway does is shown to. */
  ghost predicate Execution(s: Setup, events: seq<Event>, at: seq<real>, worlds: seq<World>) {
    && |at| == |events| && |worlds| == |events| + 1
    && Ready(worlds[0], s.self)
    && (forall i, j | 0 <= i < j < |at| :: at[i] <= at[j])
    && (forall i | 0 <= i < |events| :: Ready(worlds[i], s.self) ==> Happens(s, worlds[i], events[i], at[i], worlds[i + 1]))
  }

  lemma {:induction false} RunReady(s: Setup, events: seq<Event>, at: seq<real>, worlds: seq<World>, k: nat)
    requires Execution(s, events, at, worlds) && k <= |events|
    ensures Ready(worlds[k], s.self)
  {
    if k > 0 {
      RunReady(s, events, at, worlds, k - 1);
      assert Happens(s, worlds[k - 1], events[k - 1], at[k - 1], worlds[k]);
      if events[k - 1].Chat? {
        ChatKeepsReady(s, worlds[k - 1], events[k - 1].cid, events[k - 1].msg, events[k - 1].call);
      }
    }
  }

  /** Event i is a chat with this (sender, seq). */
  ghost predicate IsChat(s: Setup, events: seq<Event>, worlds: seq<World>, i: nat, uid: string, seqNo: int) {
    && i < |events| && i < |worlds| && Ready(worlds[i], s.self)
    && events[i].Chat? && events[i].cid in worlds[i][s.self].conns
    && worlds[i][s.self].conns[events[i].cid].uid == uid && events[i].msg.seqNo == seqNo
  }

  ghost function OutcomeAt(s: Setup, events: seq<Event>, worlds: seq<World>, i: nat, uid: string, seqNo: int): Outcome
    requires IsChat(s, events, worlds, i, uid, seqNo)
  {
    ChatStep(s, worlds[i], events[i].cid, events[i].msg, events[i].call).1
  }

  /** Whatever the event, a pair marked less than TTL ago stays remembered with its ID. */
  lemma RememberedStep(s: Setup, w: World, e: Event, at: real, w': World, uid: string, seqNo: int, id: int, created: real)
    requires Ready(w, s.self) && Happens(s, w, e, at, w') && seqNo > 0
    requires Dedup.Remembers(w[s.self].seen, uid, seqNo, id, created) && at <= created + s.ttl
    ensures s.self in w' && Dedup.Remembers(w'[s.self].seen, uid, seqNo, id, created)
  {
    match e
    case Chat(cid, msg, call) =>
      SeenAfterChat(s, w, cid, msg, call);
      var sender := w[s.self].conns[cid].uid;
      var o := ChatStep(s, w, cid, msg, call).1;
      if Marks(o) && msg.seqNo > 0 {
        assert sender != uid || msg.seqNo != seqNo;
        Dedup.StaysRemembered(w[s.self].seen, uid, seqNo, id, created, call.markAt, s.ttl, sender, msg.seqNo, o.sent.msgId);
      } else if msg.seqNo > 0 {
        Dedup.RecallKeeps(w[s.self].seen, uid, seqNo, id, created, w[s.self].marks, s.redis, sender, msg.seqNo, call.stored, call.askAt);
      }
    case Evict => Dedup.StaysRemembered(w[s.self].seen, uid, seqNo, id, created, at, s.ttl, uid, seqNo, id);
    case Elsewhere =>
  }

  lemma JustMarked(s: Setup, w: World, cid: nat, msg: Message, c: Call)
    requires Ready(w, s.self) && cid in w[s.self].conns && msg.seqNo > 0 && Marks(ChatStep(s, w, cid, msg, c).1)
    ensures var (w', o) := ChatStep(s, w, cid, msg, c);
            s.self in w' && Dedup.Remembers(w'[s.self].seen, w[s.self].conns[cid].uid, msg.seqNo, o.sent.msgId, c.markAt)
  {
    SeenAfterChat(s, w, cid, msg, c);
  }

  lemma {:induction false} RememberedOnward(s: Setup, events: seq<Event>, at: seq<real>, worlds: seq<World>, from: nat, k: nat,
                                            uid: string, seqNo: int, id: int, created: real)
    requires Execution(s, events, at, worlds) && from <= k <= |events| && seqNo > 0
    requires s.self in worlds[from] && Dedup.Remembers(worlds[from][s.self].seen, uid, seqNo, id, created)
    requires from < k ==> at[k - 1] <= created + s.ttl
    ensures s.self in worlds[k] && Dedup.Remembers(worlds[k][s.self].seen, uid, seqNo, id, created)
    decreases k - from
  {
    if from < k {
      assert from < k - 1 ==> at[k - 2] <= at[k - 1];
      RememberedOnward(s, events, at, worlds, from, k - 1, uid, seqNo, id, created);
      RunReady(s, events, at, worlds, k - 1);
      RememberedStep(s, worlds[k - 1], events[k - 1], at[k - 1], worlds[k], uid, seqNo, id, created);
    }
  }

  lemma MarkedNext(s: Setup, events: seq<Event>, at: seq<real>, worlds: seq<World>, i: nat, uid: string, seqNo: int)
    requires Execution(s, events, at, worlds) && IsChat(s, events, worlds, i, uid, seqNo) && seqNo > 0
    requires Marks(OutcomeAt(s, events, worlds, i, uid, seqNo))
    ensures s.self in worlds[i + 1]
    ensures Dedup.Remembers(worlds[i + 1][s.self].seen, uid, seqNo, OutcomeAt(s, events, worlds, i, uid, seqNo).sent.msgId, at[i])
  {
    assert Happens(s, worlds[i], events[i], at[i], worlds[i + 1]);
    JustMarked(s, worlds[i], events[i].cid, events[i].msg, events[i].call);
  }

  lemma RememberedUntil(s: Setup, events: seq<Event>, at: seq<real>, worlds: seq<World>, i: nat, k: nat, uid: string, seqNo: int)
    requires Execution(s, events, at, worlds) && IsChat(s, events, worlds, i, uid, seqNo) && seqNo > 0
    requires Marks(OutcomeAt(s, events, worlds, i, uid, seqNo)) && i < k <= |events|
    requires at[k - 1] <= at[i] + s.ttl
    ensures s.self in worlds[k]
    ensures Dedup.Remembers(worlds[k][s.self].seen, uid, seqNo, OutcomeAt(s, events, worlds, i, uid, seqNo).sent.msgId, at[i])
  {
    var id := OutcomeAt(s, events, worlds, i, uid, seqNo).sent.msgId;
    MarkedNext(s, events, at, worlds, i, uid, seqNo);
    RememberedOnward(s, events, at, worlds, i + 1, k, uid, seqNo, id, at[i]);
  }

  lemma StillKnown(s: Setup, events: seq<Event>, at: seq<real>, worlds: seq<World>, i: nat, j: nat, uid: string, seqNo: int)
    requires Execution(s, events, at, worlds) && seqNo > 0 && i < j < |events|
    requires IsChat(s, events, worlds, i, uid, seqNo) && Marks(OutcomeAt(s, events, worlds, i, uid, seqNo)) && at[j] <= at[i] + s.ttl
    ensures s.self in worlds[j]
    ensures Dedup.Lookup(worlds[j][s.self].seen, uid, seqNo) == Some(OutcomeAt(s, events, worlds, i, uid, seqNo).sent.msgId)
  {
    assert at[j - 1] <= at[j];
    RememberedUntil(s, events, at, worlds, i, j, uid, seqNo);
  }

  /** From a mark until at least TTL later, every retry is a duplicate answered with the original ID. */
  lemma RetryIsDuplicate(s: Setup, events: seq<Event>, at: seq<real>, worlds: seq<World>, i: nat, j: nat, uid: string, seqNo: int)
    requires Execution(s, events, at, worlds) && seqNo > 0 && i < j
    requires IsChat(s, events, worlds, i, uid, seqNo) && Marks(OutcomeAt(s, events, worlds, i, uid, seqNo))
    requires IsChat(s, events, worlds, j, uid, seqNo) && at[j] <= at[i] + s.ttl
    ensures OutcomeAt(s, events, worlds, j, uid, seqNo) == Duplicate(OutcomeAt(s, events, worlds, i, uid, seqNo).sent.msgId)
  {
    StillKnown(s, events, at, worlds, i, j, uid, seqNo);
  }

  /**
   * What such a retry does to the world: nothing is delivered, stored, marked, charged or numbered anywhere. The
   * retrying connection is offered one ACK with the original ID, if it asked for one, and takes it if it is open
   * and has room.
   */
  lemma RetryOnlyAcks(s: Setup, events: seq<Event>, at: seq<real>, worlds: seq<World>, i: nat, j: nat, uid: string, seqNo: int)
    requires Execution(s, events, at, worlds) && seqNo > 0 && i < j
    requires IsChat(s, events, worlds, i, uid, seqNo) && Marks(OutcomeAt(s, events, worlds, i, uid, seqNo))
    requires IsChat(s, events, worlds, j, uid, seqNo) && at[j] <= at[i] + s.ttl
    ensures var Chat(cid, msg, call) := events[j];
            OnlyAcked(s, worlds[j], worlds[j + 1], cid,
                      Ack(uid, seqNo, OutcomeAt(s, events, worlds, i, uid, seqNo).sent.msgId, call.ackStamp), msg.needAck, call.ackLuck)
  {
    var id := OutcomeAt(s, events, worlds, i, uid, seqNo).sent.msgId;
    assert Happens(s, worlds[j], events[j], at[j], worlds[j + 1]);
    StillKnown(s, events, at, worlds, i, j, uid, seqNo);
    KnownOnlyAcks(s, worlds[j], events[j].cid, events[j].msg, events[j].call, id);
  }

  /** So no user anywhere gets or loses a message by a retry, apart from that ACK. */
  lemma RetryReachesNobody(s: Setup, events: seq<Event>, at: seq<real>, worlds: seq<World>, i: nat, j: nat, uid: string, seqNo: int,
                           user: string, m: Message)
    requires Execution(s, events, at, worlds) && seqNo > 0 && i < j && m.cmd != CMD_ACK
    requires IsChat(s, events, worlds, i, uid, seqNo) && Marks(OutcomeAt(s, events, worlds, i, uid, seqNo))
    requires IsChat(s, events, worlds, j, uid, seqNo) && at[j] <= at[i] + s.ttl
    ensures Reached(worlds[j + 1], user, m) <==> Reached(worlds[j], user, m)
  {
    RetryOnlyAcks(s, events, at, worlds, i, j, uid, seqNo);
    var ack := Ack(uid, seqNo, OutcomeAt(s, events, worlds, i, uid, seqNo).sent.msgId, events[j].call.ackStamp);
    AckedSameReach(s, worlds[j], worlds[j + 1], events[j].cid, ack, events[j].msg.needAck, events[j].call.ackLuck, user, m);
  }

  lemma AckedSameReach(s: Setup, w: World, w': World, cid: nat, ack: Message, asked: bool, luck: Luck, user: string, m: Message)
    requires s.self in w && cid in w[s.self].conns && OnlyAcked(s, w, w', cid, ack, asked, luck) && m != ack
    ensures Reached(w', user, m) <==> Reached(w, user, m)
  {
    SameReach(w, w', user, m);
  }

  /** Once a pair is marked, no message with it is accepted in any way until more than TTL later. */
  lemma AcceptedOncePerWindow(s: Setup, events: seq<Event>, at: seq<real>, worlds: seq<World>, i: nat, j: nat, uid: string, seqNo: int)
    requires Execution(s, events, at, worlds) && seqNo > 0 && i < j
    requires IsChat(s, events, worlds, i, uid, seqNo) && IsChat(s, events, worlds, j, uid, seqNo)
    ensures Marks(OutcomeAt(s, events, worlds, i, uid, seqNo)) && Goes(OutcomeAt(s, events, worlds, j, uid, seqNo)) ==>
              at[j] > at[i] + s.ttl
  {
    if Marks(OutcomeAt(s, events, worlds, i, uid, seqNo)) && at[j] <= at[i] + s.ttl {
      RetryIsDuplicate(s, events, at, worlds, i, j, uid, seqNo);
    }
  }

  predicate SentOnline(o: Outcome) { o.Single? && o.how == Online }

  /** So two successful online sends of one (sender, seq) are more than TTL apart. */
  lemma OnlineOncePerWindow(s: Setup, events: seq<Event>, at: seq<real>, worlds: seq<World>, i: nat, j: nat, uid: string, seqNo: int)
    requires Execution(s, events, at, worlds) && seqNo > 0 && i < j
    requires IsChat(s, events, worlds, i, uid, seqNo) && IsChat(s, events, worlds, j, uid, seqNo)
    ensures SentOnline(OutcomeAt(s, events, worlds, i, uid, seqNo)) && SentOnline(OutcomeAt(s, events, worlds, j, uid, seqNo)) ==>
              at[j] > at[i] + s.ttl
  {
    AcceptedOncePerWindow(s, events, at, worlds, i, j, uid, seqNo);
  }

  // ---- a failed send may be tried again --------------------------------------------------------------

  /** The chat is single, its target is connected here, and the send to it fails. */
  ghost predicate FailsHere(s: Setup, events: seq<Event>, worlds: seq<World>, i: nat, uid: string, seqNo: int)
    requires IsChat(s, events, worlds, i, uid, seqNo)
  {
    var g, to := worlds[i][s.self], events[i].msg.to;
    OutcomeAt(s, events, worlds, i, uid, seqNo).Single? && to in g.clients && !SentHere(g, to, events[i].call.env.here)
  }

  /** Event t leaves this pair unknown if it was: it is another pair's, or a chat that fails here or is not accepted. */
  ghost predicate LeavesUnknown(s: Setup, events: seq<Event>, worlds: seq<World>, t: nat, uid: string, seqNo: int) {
    IsChat(s, events, worlds, t, uid, seqNo) ==>
      && events[t].call.stored.None?
      && (Goes(OutcomeAt(s, events, worlds, t, uid, seqNo)) ==> FailsHere(s, events, worlds, t, uid, seqNo))
  }

  lemma UnknownStep(s: Setup, events: seq<Event>, at: seq<real>, worlds: seq<World>, t: nat, uid: string, seqNo: int)
    requires Execution(s, events, at, worlds) && t < |events| && Ready(worlds[t], s.self)
    requires Dedup.Lookup(worlds[t][s.self].seen, uid, seqNo).None? && LeavesUnknown(s, events, worlds, t, uid, seqNo)
    ensures s.self in worlds[t + 1] && Dedup.Lookup(worlds[t + 1][s.self].seen, uid, seqNo).None?
  {
    assert Happens(s, worlds[t], events[t], at[t], worlds[t + 1]);
    if events[t].Chat? {
      UnknownAfterChat(s, worlds[t], events[t].cid, events[t].msg, events[t].call, uid, seqNo);
    }
  }

  lemma UnknownAfterChat(s: Setup, w: World, cid: nat, msg: Message, c: Call, uid: string, seqNo: int)
    requires Ready(w, s.self) && cid in w[s.self].conns && Dedup.Lookup(w[s.self].seen, uid, seqNo).None?
    requires w[s.self].conns[cid].uid == uid && msg.seqNo == seqNo ==>
               && c.stored.None?
               && var o := Decide(s, w, cid, msg, c);
               Goes(o) ==> o.Single? && msg.to in w[s.self].clients && !SentHere(w[s.self], msg.to, c.env.here)
    ensures var w' := ChatStep(s, w, cid, msg, c).0; s.self in w' && Dedup.Lookup(w'[s.self].seen, uid, seqNo).None?
  {
    SeenAfterChat(s, w, cid, msg, c);
    Dedup.KeyInjective(w[s.self].conns[cid].uid, msg.seqNo, uid, seqNo);
    if Goes(Decide(s, w, cid, msg, c)) { MarkedUnlessStored(s, w, cid, msg, c); }
  }

  lemma {:induction false} StaysUnknown(s: Setup, events: seq<Event>, at: seq<real>, worlds: seq<World>, i: nat, k: nat, uid: string, seqNo: int)
    requires Execution(s, events, at, worlds) && i <= k <= |events|
    requires s.self in worlds[i] && Dedup.Lookup(worlds[i][s.self].seen, uid, seqNo).None?
    requires forall t: nat | i <= t < k :: LeavesUnknown(s, events, worlds, t, uid, seqNo)
    ensures s.self in worlds[k] && Dedup.Lookup(worlds[k][s.self].seen, uid, seqNo).None?
    decreases k - i
  {
    if i < k {
      StaysUnknown(s, events, at, worlds, i, k - 1, uid, seqNo);
      RunReady(s, events, at, worlds, k - 1);
      UnknownStep(s, events, at, worlds, k - 1, uid, seqNo);
    }
  }

  /**
   * A retry of a chat whose online send failed is not taken for a duplicate, unless the pair was accepted for good in
   * the meantime or Redis knows it: it gets its second chance.
   */
  lemma RetryAfterFailedSend(s: Setup, events: seq<Event>, at: seq<real>, worlds: seq<World>, i: nat, j: nat, uid: string, seqNo: int)
    requires Execution(s, events, at, worlds) && i < j
    requires IsChat(s, events, worlds, i, uid, seqNo) && FailsHere(s, events, worlds, i, uid, seqNo)
    requires IsChat(s, events, worlds, j, uid, seqNo) && events[j].call.stored.None?
    requires forall t: nat | i <= t < j :: LeavesUnknown(s, events, worlds, t, uid, seqNo)
    ensures !OutcomeAt(s, events, worlds, j, uid, seqNo).Duplicate?
  {
    if seqNo > 0 {
      OutcomeIff(s, worlds[i], events[i].cid, events[i].msg, events[i].call);
      StaysUnknown(s, events, at, worlds, i, j, uid, seqNo);
    }
    OutcomeIff(s, worlds[j], events[j].cid, events[j].msg, events[j].call);
  }

  // ---- a lost message stays lost ------------------------------------------------------------------

  /** A lost chat reaches nobody, and is marked all the same. */
  lemma LostReachesNobody(s: Setup, w: World, cid: nat, msg: Message, c: Call, user: string)
    requires Ready(w, s.self) && cid in w[s.self].conns && msg.cmd != CMD_ACK
    requires var o := Decide(s, w, cid, msg, c); o.Single? && Lost(s, w, o.sent.to, c.env)
    ensures var (w', o) := ChatStep(s, w, cid, msg, c); Marks(o) && (Reached(w', user, o.sent) <==> Reached(w, user, o.sent))
  {
    var uid, o := w[s.self].conns[cid].uid, Decide(s, w, cid, msg, c);
    ChatAccepts(s, w, cid, msg, c);
    SentMessage(s, w, cid, msg, c);
    LostIsRouted(s, w, cid, msg, c);
    AcceptReachesAsDelivered(s, w, cid, uid, msg, o, c, user);
    DeliverLandsIff(s, ChargedWorld(s, w, uid, o, c), o.sent.to, o.sent, c.env);
  }

  lemma LostIsRouted(s: Setup, w: World, cid: nat, msg: Message, c: Call)
    requires Ready(w, s.self) && cid in w[s.self].conns
    requires var o := Decide(s, w, cid, msg, c); o.Single? && Lost(s, w, o.sent.to, c.env)
    ensures Decide(s, w, cid, msg, c).how == Routed
  {
  }

  /**
   * A chat that is lost on the way is marked and acknowledged like a delivered one, so that neither it nor any retry
   * up to TTL later reaches anybody: the sender's retries do not make delivery at-least-once.
   */
  lemma LostForWindow(s: Setup, events: seq<Event>, at: seq<real>, worlds: seq<World>, i: nat, j: nat, uid: string, seqNo: int,
                      user: string, m: Message)
    requires Execution(s, events, at, worlds) && seqNo > 0 && i < j && m.cmd != CMD_ACK
    requires IsChat(s, events, worlds, i, uid, seqNo) && events[i].msg.cmd != CMD_ACK
    requires var o := OutcomeAt(s, events, worlds, i, uid, seqNo);
             o.Single? && Lost(s, worlds[i], o.sent.to, events[i].call.env)
    requires IsChat(s, events, worlds, j, uid, seqNo) && at[j] <= at[i] + s.ttl
    ensures var sent := OutcomeAt(s, events, worlds, i, uid, seqNo).sent;
            Reached(worlds[i + 1], user, sent) <==> Reached(worlds[i], user, sent)
    ensures Reached(worlds[j + 1], user, m) <==> Reached(worlds[j], user, m)
  {
    LostEvent(s, events, at, worlds, i, uid, seqNo, user);
    RetryReachesNobody(s, events, at, worlds, i, j, uid, seqNo, user, m);
  }

  lemma LostEvent(s: Setup, events: seq<Event>, at: seq<real>, worlds: seq<World>, i: nat, uid: string, seqNo: int, user: string)
    requires Execution(s, events, at, worlds)
    requires IsChat(s, events, worlds, i, uid, seqNo) && events[i].msg.cmd != CMD_ACK
    requires var o := OutcomeAt(s, events, worlds, i, uid, seqNo);
             o.Single? && Lost(s, worlds[i], o.sent.to, events[i].call.env)
    ensures var o := OutcomeAt(s, events, worlds, i, uid, seqNo);
            Marks(o) && (Reached(worlds[i + 1], user, o.sent) <==> Reached(worlds[i], user, o.sent))
  {
    assert Happens(s, worlds[i], events[i], at[i], worlds[i + 1]);
    LostReachesNobody(s, worlds[i], events[i].cid, events[i].msg, events[i].call, user);
  }

  // ---- the class ----------------------------------------------------------------------------------

  /** The router of one gateway, with the gateways it can change: its own and, through RPC, its peers. */
  class Router {
    const setup: Setup
    var world: World

    ghost predicate Valid()
      reads this
    {
      Ready(world, setup.self)
    }

    constructor (setup: Setup, world: World)
      requires Ready(world, setup.self)
      ensures Valid() && this.setup == setup && this.world == world
    {
      this.setup, this.world := setup, world;
    }

    method StoreOffline(node: string, uid: string, m: Message)
      requires Valid() && node in world
      modifies this
      ensures Valid() && world == old(world)[node := Store(old(world)[node], uid, m)]
    {
      world := world[node := Store(world[node], uid, m)];
    }

    method Send(node: string, cid: nat, m: Message, luck: Luck) returns (sent: bool)
      requires Valid() && node in world && cid in world[node].conns
      modifies this
      ensures Valid() && sent == Takes(old(world)[node].conns[cid], luck)
      ensures world == if sent then old(world)[node := Push(old(world)[node], cid, m)] else old(world)
    {
      var conn := world[node].conns[cid];
      sent := SendOutcome(|conn.send|, conn.capacity, conn.closed, luck) == Sent;
      if sent {
        world := world[node := world[node].(conns := world[node].conns[cid := conn.(send := conn.send + [m])])];
      }
    }

    /** ForwardMessage on `node`. */
    method Forwarded(node: string, uid: string, m: Message, luck: Luck)
      requires Valid() && node in world
      modifies this
      ensures Valid() && world == old(world)[node := ForwardMessage(old(world)[node], uid, m, luck)]
    {
      if uid == "" {
        assert world == world[node := world[node]];
        return;
      }
      if uid in world[node].clients {
        var sent := Send(node, world[node].clients[uid], m, luck);
        if !sent { StoreOffline(node, uid, m); }
      } else {
        StoreOffline(node, uid, m);
      }
    }

    method RouteOrStoreOffline(uid: string, m: Message, env: Env)
      requires Valid()
      modifies this
      ensures Valid() && world == RouteOrStore(setup, old(world), uid, m, env)
      ensures RoutedExactly(setup, old(world), world, uid, m, env)
    {
      RoutesExactly(setup, world, uid, m, env);
      if !setup.multi || env.first == "" || env.first == setup.self || !setup.forwards {
        StoreOffline(setup.self, uid, m);
        return;
      }
      var failed := Forward(uid, m, env);
      if failed { StoreOffline(setup.self, uid, m); }
    }

    /** GrpcForwarder.Forward; reports whether it returned an error. */
    method Forward(uid: string, m: Message, env: Env) returns (failed: bool)
      requires Valid()
      modifies this
      ensures Valid()
      ensures var called := !Shrugs(setup, env) && env.second in old(world) && env.rpc != Unreachable;
              && world == (if called then old(world)[env.second := ForwardMessage(old(world)[env.second], uid, m, env.there)] else old(world))
              && (failed <==> !Shrugs(setup, env) && (!called || env.rpc == TimedOut))
    {
      if env.second == "" { return false; }
      if env.second == setup.self { return false; }
      if env.second !in world || env.rpc == Unreachable { return true; }
      Forwarded(env.second, uid, m, env.there);
      failed := env.rpc == TimedOut;
    }

    method DeliverTo(uid: string, m: Message, env: Env) returns (how: How)
      requires Valid()
      modifies this
      ensures Valid() && world == Deliver(setup, old(world), uid, m, env) && how == HowDelivered(setup, old(world), uid, env)
    {
      if uid in world[setup.self].clients {
        var sent := Send(setup.self, world[setup.self].clients[uid], m, env.here);
        if sent { return Online; }
        StoreOffline(setup.self, uid, m);
        return Stored;
      }
      RouteOrStoreOffline(uid, m, env);
      return Routed;
    }

    method FanoutGroup(sender: string, members: seq<string>, m: Message, envs: nat -> Env)
      requires Valid()
      modifies this
      ensures Valid() && world == Fanout(setup, old(world), sender, members, m, envs)
    {
      for i := 0 to |members|
        invariant Valid() && world == Fanout(setup, old(world), sender, members[..i], m, envs)
      {
        assert members[..i + 1][..i] == members[..i];
        if members[i] != sender {
          var _ := DeliverTo(members[i], m, envs(i));
        }
      }
      assert members[..|members|] == members;
    }

    method CheckRateLimit(uid: string, at: real) returns (limited: bool)
      requires Valid()
      modifies this
      ensures Valid()
      ensures var g := old(world)[setup.self];
              && world == old(world)[setup.self := g.(buckets := Limit(setup, g.buckets, uid, at).0)]
              && limited == !Limit(setup, g.buckets, uid, at).1
    {
      var g := world[setup.self];
      match setup.limits {
        case None =>
          assert world == world[setup.self := g.(buckets := g.buckets)];
          limited := false;
        case Some(cfg) =>
          var (buckets, ok) := RateLimiter.AllowStep(cfg, g.buckets, uid, at);
          world := world[setup.self := g.(buckets := buckets)];
          limited := !ok;
      }
    }

    method NextId(clock: seq<int>) returns (id: Option<int>)
      requires Valid()
      modifies this
      ensures Valid()
      ensures var g := old(world)[setup.self];
              match Snowflake.Next(g.snow, clock)
              case Issued(x, next) => id == Some(x) && world == old(world)[setup.self := g.(snow := next)]
              case Severe => id == Some(0) && world == old(world)
              case Waiting => id == None && world == old(world)
    {
      var g := world[setup.self];
      match Snowflake.Next(g.snow, clock) {
        case Issued(x, next) =>
          world := world[setup.self := g.(snow := next)];
          id := Some(x);
        case Severe => id := Some(0);
        case Waiting => id := None;
      }
    }

    method Mark(uid: string, m: Message, at: real)
      requires Valid()
      modifies this
      ensures Valid() && world == old(world)[setup.self := Remember(old(world)[setup.self], uid, m, at)]
    {
      var g := world[setup.self];
      if m.seqNo > 0 {
        world := world[setup.self := g.(seen := Dedup.Marked(g.seen, uid, m.seqNo, m.msgId, at), marks := g.marks + 1)];
      } else {
        assert world == world[setup.self := g];
      }
    }

    method SendAck(cid: nat, wanted: bool, ack: Message, luck: Luck)
      requires Valid() && cid in world[setup.self].conns
      modifies this
      ensures Valid() && world == if wanted then SendBack(setup, old(world), cid, ack, luck) else old(world)
    {
      if wanted {
        var sent := Send(setup.self, cid, ack, luck);
        if !sent { RewriteSame(world, setup.self, cid); }
      }
    }

    /** Delivery and marking of an accepted message. */
    method Dispatch(uid: string, m: Message, call: Call) returns (o: Outcome)
      requires Valid()
      modifies this
      ensures Valid() && o == Route(setup, old(world), m, call)
      ensures world == Noted(setup, Distribute(setup, old(world), uid, o, call), uid, o, call)
      ensures o.Single? && m.to in old(world)[setup.self].clients && !SentHere(old(world)[setup.self], m.to, call.env.here) ==>
                world[setup.self].seen == old(world)[setup.self].seen
    {
      if m.chatType == CHAT_TYPE_GROUP && setup.groups {
        if call.members.Some? { FanoutGroup(uid, call.members.value, m, call.envs); }
        Mark(uid, m, call.markAt);
        o := Grouped(m);
      } else {
        var how := DeliverTo(m.to, m, call.env);
        if how != Stored { Mark(uid, m, call.markAt); }
        o := Single(how, m);
      }
    }

    method HandleChat(cid: nat, msg: Message, call: Call) returns (o: Outcome)
      requires Valid() && cid in world[setup.self].conns
      modifies this
      ensures Valid()
      ensures world == ChatStep(setup, old(world), cid, msg, call).0
      ensures o == ChatStep(setup, old(world), cid, msg, call).1
      ensures o.Single? && msg.to in old(world)[setup.self].clients && !SentHere(old(world)[setup.self], msg.to, call.env.here) ==>
                world[setup.self].seen == old(world)[setup.self].seen
    {
      if Goes(Decide(setup, world, cid, msg, call)) { MarkedUnlessStored(setup, world, cid, msg, call); }
      var g := world[setup.self];
      var uid := g.conns[cid].uid;
      if msg.seqNo > 0 {
        var known := Dedup.Recall(g.seen, g.marks, setup.redis, uid, msg.seqNo, call.stored);
        if known.Some? {
          world := world[setup.self := g.(seen := Dedup.Recalled(g.seen, g.marks, setup.redis, uid, msg.seqNo, call.stored, call.askAt))];
          assert world == Asked(setup, old(world), uid, msg, call);
          SendAck(cid, msg.needAck, Ack(uid, msg.seqNo, known.value, call.ackStamp), call.ackLuck);
          return Duplicate(known.value);
        }
      }
      if !Validates(msg) { return Invalid; }
      o := Accepted(cid, uid, msg, call);
    }

    /** Rate limit, then the ID: the acting gateway is charged, nothing else moves. */
    method Admit(uid: string, call: Call) returns (limited: bool, id: Option<int>)
      requires Valid()
      modifies this
      ensures Valid()
      ensures limited == !Limit(setup, old(world)[setup.self].buckets, uid, call.limitAt).1
      ensures !limited ==> id == IdOf(Snowflake.Next(old(world)[setup.self].snow, call.clock))
      ensures forall o: Outcome | !o.Duplicate? && !o.Invalid? && (o.RateLimited? <==> limited) ::
                world == ChargedWorld(setup, old(world), uid, o, call)
    {
      limited := CheckRateLimit(uid, call.limitAt);
      id := None;
      if !limited { id := NextId(call.clock); }
    }

    method Accepted(cid: nat, uid: string, msg: Message, call: Call) returns (o: Outcome)
      requires Valid() && cid in world[setup.self].conns && uid == world[setup.self].conns[cid].uid
      requires Validates(msg) && Known(setup, world[setup.self], uid, msg, call).None?
      modifies this
      ensures Valid()
      ensures world == ChatStep(setup, old(world), cid, msg, call).0
      ensures o == ChatStep(setup, old(world), cid, msg, call).1
    {
      ghost var w0 := world;
      DecideAccepted(setup, w0, cid, msg, call);
      var limited, id := Admit(uid, call);
      if limited { return RateLimited; }
      if id.None? { return Blocked; }
      var m := msg.(msgId := id.value, timestamp := call.stamp);
      ghost var w1 := world;
      assert w1 == ChargedWorld(setup, w0, uid, Blocked, call);
      RouteSame(setup, w0, w1, m, call);
      o := Complete(cid, uid, msg, m, call);
    }

    /** Delivery, mark and ACK of a message that has its ID. */
    method Complete(cid: nat, uid: string, msg: Message, m: Message, call: Call) returns (o: Outcome)
      requires Valid() && cid in world[setup.self].conns
      modifies this
      ensures Valid() && o == Route(setup, old(world), m, call)
      ensures world == Settle(setup, Distribute(setup, old(world), uid, o, call), cid, uid, msg, o, call)
    {
      o := Dispatch(uid, m, call);
      SendAck(cid, msg.needAck, Ack(uid, msg.seqNo, m.msgId, call.ackStamp), call.ackLuck);
    }
  }

  lemma RewriteSame(w: World, n: string, cid: nat)
    requires n in w && cid in w[n].conns
    ensures w[n := w[n].(conns := w[n].conns[cid := w[n].conns[cid]])] == w
  {
    assert w[n].conns[cid := w[n].conns[cid]] == w[n].conns;
  }

  function IdOf(o: Snowflake.Outcome): Option<int> {
    match o
    case Issued(id, _) => Some(id)
    case Severe => Some(0)
    case Waiting => None
  }

  lemma DecideAccepted(s: Setup, w: World, cid: nat, msg: Message, c: Call)
    requires Ready(w, s.self) && cid in w[s.self].conns && Validates(msg)
    requires Known(s, w[s.self], w[s.self].conns[cid].uid, msg, c).None?
    ensures var id := IdOf(Snowflake.Next(w[s.self].snow, c.clock));
            Decide(s, w, cid, msg, c) ==
            if !Limit(s, w[s.self].buckets, w[s.self].conns[cid].uid, c.limitAt).1 then RateLimited
            else if id.None? then Blocked
            else Route(s, w, msg.(msgId := id.value, timestamp := c.stamp), c)
  {
  }

  lemma RouteSame(s: Setup, w: World, w1: World, m: Message, c: Call)
    requires Ready(w, s.self) && Ready(w1, s.self) && SameButSelf(w, w1, s.self)
    ensures Route(s, w1, m, c) == Route(s, w, m, c)
  {
  }
}
