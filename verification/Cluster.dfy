/**
 * The cluster manager of internal/gateway/cluster.go with the address map of
 * internal/gateway/grpc_forwarder.go. Each reconcile or health check is one atomic step; the order in
 * which Go walks a map is an explicit listing, and probe results are an arbitrary function.
 */
module Cluster {
  import opened Options
  import opened Ring
  import RingHistory

  /** The ring as its operation log, the forwarder's addresses, and the manager's health marks. */
  datatype View = View(log: seq<Op>, addrs: map<string, string>, health: map<string, bool>)

  function Healthy(c: View): set<string> {
    set n | n in c.health && c.health[n]
  }

  // ---- the operations on values ----------------------------------------------------

  function WithPeer(c: View, node: string, addr: string): View {
    View(c.log + [Add(node)], c.addrs[node := addr], c.health[node := true])
  }

  function WithoutPeer(c: View, node: string): View {
    View(c.log + [Remove(node)], c.addrs - {node}, c.health - {node})
  }

  predicate Changed(current: map<string, string>, found: map<string, string>, node: string) {
    node in found && (node !in current || current[node] != found[node])
  }

  function Adds(c: View, self: string, current: map<string, string>, found: map<string, string>, order: seq<string>): View {
    if order == [] then c
    else
      var n := order[|order| - 1];
      var d := Adds(c, self, current, found, order[..|order| - 1]);
      if n != self && Changed(current, found, n) then WithPeer(d, n, found[n]) else d
  }

  function Drops(c: View, found: map<string, string>, order: seq<string>): View {
    if order == [] then c
    else
      var n := order[|order| - 1];
      var d := Drops(c, found, order[..|order| - 1]);
      if n !in found then WithoutPeer(d, n) else d
  }

  function Reconcile(c: View, self: string, found: map<string, string>, adds: seq<string>, drops: seq<string>): View {
    Drops(Adds(c, self, c.addrs, found, adds), found, drops)
  }

  function Probe(c: View, self: string, node: string, up: bool): View {
    var was := node in c.health && c.health[node];
    if node == self || up == was then c
    else if up then c.(log := c.log + [Add(node)], health := c.health[node := true])
    else c.(log := c.log + [Remove(node)], health := c.health[node := false])
  }

  function HealthCheck(c: View, self: string, probe: string -> bool, order: seq<string>): View {
    if order == [] then c
    else
      var n := order[|order| - 1];
      Probe(HealthCheck(c, self, probe, order[..|order| - 1]), self, n, probe(n))
  }

  // ---- effects, node by node ---------------------------------------------------------

  ghost function Newcomers(self: string, current: map<string, string>, found: map<string, string>, order: seq<string>): set<string> {
    set n | n in order && n != self && Changed(current, found, n)
  }

  /** c with `more` added at the new addresses and marked healthy. */
  ghost predicate Joined(c: View, d: View, more: set<string>, found: map<string, string>) {
    && more <= found.Keys
    && Live(d.log) == Live(c.log) + more
    && (forall n :: n in d.addrs <==> n in c.addrs || n in more)
    && (forall n | n in d.addrs :: d.addrs[n] == if n in more then found[n] else c.addrs[n])
    && (forall n :: n in d.health <==> n in c.health || n in more)
    && (forall n | n in d.health :: d.health[n] == (n in more || c.health[n]))
  }

  lemma JoinOne(c: View, d: View, more: set<string>, found: map<string, string>, n: string)
    requires Joined(c, d, more, found) && n in found
    ensures Joined(c, WithPeer(d, n, found[n]), more + {n}, found)
  {
    LiveSnoc(d.log, Add(n));
  }

  lemma NewcomersSnoc(self: string, current: map<string, string>, found: map<string, string>, front: seq<string>, n: string)
    ensures Newcomers(self, current, found, front + [n]) ==
            Newcomers(self, current, found, front) + if n != self && Changed(current, found, n) then {n} else {}
  {
  }

  lemma {:induction false} AddsEffect(c: View, self: string, current: map<string, string>, found: map<string, string>, order: seq<string>)
    ensures Joined(c, Adds(c, self, current, found, order), Newcomers(self, current, found, order), found)
  {
    if order == [] {
      assert Newcomers(self, current, found, order) == {};
    } else {
      var front, n := order[..|order| - 1], order[|order| - 1];
      assert order == front + [n];
      AddsEffect(c, self, current, found, front);
      NewcomersSnoc(self, current, found, front, n);
      var d, before := Adds(c, self, current, found, front), Newcomers(self, current, found, front);
      if n != self && Changed(current, found, n) {
        assert Adds(c, self, current, found, order) == WithPeer(d, n, found[n]);
        JoinOne(c, d, before, found, n);
      } else {
        assert Adds(c, self, current, found, order) == d;
        assert before + {} == before;
      }
    }
  }

  lemma LiveSnoc(log: seq<Op>, op: Op)
    ensures Live(log + [op]) == if op.Add? then Live(log) + {op.node} else Live(log) - {op.node}
  {
    assert (log + [op])[..|log|] == log;
  }

  /** c without `gone`. */
  ghost predicate Dropped(c: View, d: View, gone: set<string>) {
    && Live(d.log) == Live(c.log) - gone
    && (forall n :: n in d.addrs <==> n in c.addrs && n !in gone)
    && (forall n | n in d.addrs :: d.addrs[n] == c.addrs[n])
    && (forall n :: n in d.health <==> n in c.health && n !in gone)
    && (forall n | n in d.health :: d.health[n] == c.health[n])
  }

  lemma DropOne(c: View, d: View, gone: set<string>, n: string)
    requires Dropped(c, d, gone)
    ensures Dropped(c, WithoutPeer(d, n), gone + {n})
  {
    LiveSnoc(d.log, Remove(n));
  }

  ghost function Leavers(found: map<string, string>, order: seq<string>): set<string> {
    set n | n in order && n !in found
  }

  lemma {:induction false} DropsEffect(c: View, found: map<string, string>, order: seq<string>)
    ensures Dropped(c, Drops(c, found, order), Leavers(found, order))
  {
    if order != [] {
      var front, n := order[..|order| - 1], order[|order| - 1];
      assert order == front + [n];
      DropsEffect(c, found, front);
      var before := Leavers(found, front);
      if n !in found {
        DropOne(c, Drops(c, found, front), before, n);
        assert Leavers(found, order) == before + {n};
      } else {
        assert Leavers(found, order) == before;
      }
    }
  }

  // ---- the invariant --------------------------------------------------------------------

  /** Live ring nodes = this node plus the peers marked healthy; marks and addresses name the same peers. */
  ghost predicate InStep(self: string, c: View) {
    && self !in c.addrs
    && c.health.Keys == c.addrs.Keys
    && Live(c.log) == {self} + Healthy(c)
  }

  lemma JoinedThenDropped(c: View, self: string, found: map<string, string>, more: set<string>, mid: View, gone: set<string>, d: View)
    requires InStep(self, c) && Joined(c, mid, more, found) && Dropped(mid, d, gone)
    requires forall n :: n in more <==> n != self && Changed(c.addrs, found, n)
    requires forall n :: n in gone <==> n in c.addrs && n !in found
    ensures InStep(self, d) && d.addrs == found - {self}
    ensures forall n | n in d.addrs :: d.health[n] == if n in c.addrs && c.addrs[n] == found[n] then c.health[n] else true
  {
    AddrsAfter(c, self, found, more, mid, gone, d);
    HealthyAfter(c, found, more, mid, gone, d);
    assert d.health.Keys == d.addrs.Keys;
    assert Live(d.log) == {self} + Healthy(d);
  }

  lemma AddrsAfter(c: View, self: string, found: map<string, string>, more: set<string>, mid: View, gone: set<string>, d: View)
    requires self !in c.addrs && Joined(c, mid, more, found) && Dropped(mid, d, gone)
    requires forall n :: n in more <==> n != self && Changed(c.addrs, found, n)
    requires forall n :: n in gone <==> n in c.addrs && n !in found
    ensures d.addrs == found - {self}
  {
    forall n
      ensures n in d.addrs <==> n in found && n != self
      ensures n in d.addrs ==> d.addrs[n] == found[n]
    {
    }
  }

  lemma HealthyAfter(c: View, found: map<string, string>, more: set<string>, mid: View, gone: set<string>, d: View)
    requires Joined(c, mid, more, found) && Dropped(mid, d, gone)
    ensures Healthy(d) == (Healthy(c) + more) - gone
  {
    assert Healthy(mid) == Healthy(c) + more;
  }

  /** After a reconcile the peers are exactly the registry's other nodes, at the registry's addresses. */
  lemma ReconcileEffect(c: View, self: string, found: map<string, string>, adds: seq<string>, drops: seq<string>)
    requires InStep(self, c) && Lists(adds, found.Keys) && Lists(drops, c.addrs.Keys)
    ensures var d := Reconcile(c, self, found, adds, drops);
            && InStep(self, d)
            && d.addrs == found - {self}
            && forall n | n in d.addrs :: d.health[n] == if n in c.addrs && c.addrs[n] == found[n] then c.health[n] else true
  {
    var mid := Adds(c, self, c.addrs, found, adds);
    AddsEffect(c, self, c.addrs, found, adds);
    DropsEffect(mid, found, drops);
    JoinedThenDropped(c, self, found, Newcomers(self, c.addrs, found, adds), mid,
                      Leavers(found, drops), Drops(mid, found, drops));
  }

  /** A peer the registry still lists at the known address keeps its mark, and is on the ring afterwards exactly if it is healthy. */
  lemma KeptPeerKeepsMark(c: View, self: string, found: map<string, string>, adds: seq<string>, drops: seq<string>, n: string)
    requires InStep(self, c) && Lists(adds, found.Keys) && Lists(drops, c.addrs.Keys)
    requires n in c.addrs && n in found && c.addrs[n] == found[n]
    ensures var d := Reconcile(c, self, found, adds, drops);
            n in d.health && d.health[n] == c.health[n] && (n in Live(d.log) <==> c.health[n])
  {
    ReconcileEffect(c, self, found, adds, drops);
    var d := Reconcile(c, self, found, adds, drops);
    assert n in d.addrs;
  }

  lemma ProbeKeepsInv(c: View, self: string, node: string, up: bool)
    requires InStep(self, c) && node in c.addrs
    ensures InStep(self, Probe(c, self, node, up)) && Probe(c, self, node, up).addrs == c.addrs
    ensures Healthy(Probe(c, self, node, up)) == if up then Healthy(c) + {node} else Healthy(c) - {node}
  {
    LiveSnoc(c.log, Add(node));
    LiveSnoc(c.log, Remove(node));
    var d := Probe(c, self, node, up);
    assert Healthy(d) - {node} == Healthy(c) - {node};
  }

  /** A probe that comes too late, for a node that is no peer any more, breaks the invariant exactly if it is answered. */
  lemma ProbeKeepsInvIff(c: View, self: string, node: string, up: bool)
    requires InStep(self, c)
    ensures InStep(self, Probe(c, self, node, up)) <==> node in c.addrs || node == self || !up
  {
    if node in c.addrs {
      ProbeKeepsInv(c, self, node, up);
    } else if node != self && up {
      assert node in Probe(c, self, node, up).health;
    }
  }

  ghost function Marked(c: View, probe: string -> bool, order: seq<string>): set<string> {
    set x | x in Healthy(c) + (set y | y in order) && if x in order then probe(x) else x in Healthy(c)
  }

  /** A health check leaves the addresses alone and marks exactly the peers that answered. */
  lemma {:induction false} HealthCheckPrefix(c: View, self: string, probe: string -> bool, order: seq<string>)
    requires InStep(self, c) && forall n | n in order :: n in c.addrs
    ensures var d := HealthCheck(c, self, probe, order);
            && InStep(self, d)
            && d.addrs == c.addrs
            && Healthy(d) == Marked(c, probe, order)
  {
    if order != [] {
      var front, n := order[..|order| - 1], order[|order| - 1];
      assert order == front + [n];
      HealthCheckPrefix(c, self, probe, front);
      ProbeKeepsInv(HealthCheck(c, self, probe, front), self, n, probe(n));
    }
  }

  lemma HealthCheckEffect(c: View, self: string, probe: string -> bool, order: seq<string>)
    requires InStep(self, c) && Lists(order, c.addrs.Keys)
    ensures var d := HealthCheck(c, self, probe, order);
            && InStep(self, d)
            && d.addrs == c.addrs
            && Healthy(d) == set n | n in c.addrs && probe(n)
  {
    HealthCheckPrefix(c, self, probe, order);
  }

  lemma AnsweredAreHealthy(c: View, self: string, probe: string -> bool, order: seq<string>)
    requires InStep(self, c) && Lists(order, c.addrs.Keys)
    ensures var d := HealthCheck(c, self, probe, order);
            InStep(self, d) && d.addrs == c.addrs && forall n | n in d.addrs :: n in d.health && d.health[n] == probe(n)
  {
    HealthCheckEffect(c, self, probe, order);
    var d := HealthCheck(c, self, probe, order);
    forall n | n in d.addrs
      ensures n in d.health && d.health[n] == probe(n)
    {
      assert n in d.health && (n in Healthy(d) <==> d.health[n]);
    }
  }

  // ---- whole runs -------------------------------------------------------------------------

  datatype Step =
    | Reconciling(found: map<string, string>, adds: seq<string>, drops: seq<string>)
    | Checking(probe: string -> bool, order: seq<string>)

  ghost predicate Legal(c: View, step: Step) {
    match step
    case Reconciling(found, adds, drops) => Lists(adds, found.Keys) && Lists(drops, c.addrs.Keys)
    case Checking(_, order) => Lists(order, c.addrs.Keys)
  }

  function Take(c: View, self: string, step: Step): View {
    match step
    case Reconciling(found, adds, drops) => Reconcile(c, self, found, adds, drops)
    case Checking(probe, order) => HealthCheck(c, self, probe, order)
  }

  /** The ring built from the configured peers and this node, with every other peer marked healthy. */
  function Boot(self: string, peers: map<string, string>, order: seq<string>): View {
    View(AddEach(order) + [Add(self)], peers, AllHealthy(peers.Keys, self))
  }

  function AllHealthy(nodes: set<string>, self: string): map<string, bool> {
    map n | n in nodes && n != self :: true
  }

  lemma MarkOneMore(base: map<string, bool>, nodes: set<string>, self: string, n: string)
    ensures base + AllHealthy(nodes + {n}, self) ==
            if n == self then base + AllHealthy(nodes, self) else (base + AllHealthy(nodes, self))[n := true]
  {
    if n == self { assert AllHealthy(nodes + {n}, self) == AllHealthy(nodes, self); }
  }

  /** `states` is what the manager goes through when it boots and then takes `steps`. */
  ghost predicate Execution(self: string, peers: map<string, string>, order: seq<string>, steps: seq<Step>, states: seq<View>) {
    && Lists(order, peers.Keys)
    && |states| == |steps| + 1
    && states[0] == Boot(self, peers, order)
    && forall i | 0 <= i < |steps| :: Legal(states[i], steps[i]) && states[i + 1] == Take(states[i], self, steps[i])
  }

  lemma EachLive(order: seq<string>, nodes: set<string>)
    requires Lists(order, nodes)
    ensures Live(AddEach(order)) == nodes
  {
    var ops := AddEach(order);
    RingHistory.AddsLive([], order);
    assert [] + ops == ops;
  }

  lemma BootLive(self: string, peers: map<string, string>, order: seq<string>)
    requires Lists(order, peers.Keys)
    ensures Live(Boot(self, peers, order).log) == peers.Keys + {self}
  {
    EachLive(order, peers.Keys);
    LiveSnoc(AddEach(order), Add(self));
  }

  /** Every reachable state satisfies the invariant, provided this node is not configured as its own peer. */
  lemma {:induction false} ReachableInv(self: string, peers: map<string, string>, order: seq<string>, steps: seq<Step>, states: seq<View>, k: nat)
    requires self !in peers && Execution(self, peers, order, steps, states) && k <= |steps|
    ensures InStep(self, states[k])
  {
    if k == 0 {
      BootLive(self, peers, order);
      assert Healthy(states[0]) == peers.Keys;
    } else {
      ReachableInv(self, peers, order, steps, states, k - 1);
      assert Legal(states[k - 1], steps[k - 1]);
      match steps[k - 1]
      case Reconciling(found, adds, drops) => ReconcileEffect(states[k - 1], self, found, adds, drops);
      case Checking(probe, o) => HealthCheckEffect(states[k - 1], self, probe, o);
    }
  }

  // ---- reconciles between the probes of a health check ------------------------------------------

  /** A reconcile, or one probe result of a health check that took its snapshot at any earlier time. */
  datatype Act =
    | Refresh(found: map<string, string>, adds: seq<string>, drops: seq<string>)
    | Probed(node: string, up: bool)

  ghost predicate Acts(self: string, c: View, a: Act, d: View) {
    match a
    case Refresh(found, adds, drops) =>
      Lists(adds, found.Keys) && Lists(drops, c.addrs.Keys) && d == Reconcile(c, self, found, adds, drops)
    case Probed(node, up) => d == Probe(c, self, node, up)
  }

  ghost predicate Interleaving(self: string, peers: map<string, string>, order: seq<string>, acts: seq<Act>, states: seq<View>) {
    && Lists(order, peers.Keys)
    && |states| == |acts| + 1
    && states[0] == Boot(self, peers, order)
    && forall k | 0 <= k < |acts| :: Acts(self, states[k], acts[k], states[k + 1])
  }

  /** An answered probe finds its node still a peer, or finds this node. */
  predicate InTime(self: string, c: View, a: Act) {
    a.Probed? && a.up ==> a.node == self || a.node in c.addrs
  }

  lemma ActKeepsInvIff(self: string, c: View, a: Act, d: View)
    requires InStep(self, c) && Acts(self, c, a, d)
    ensures InStep(self, d) <==> InTime(self, c, a)
  {
    match a
    case Refresh(found, adds, drops) => ReconcileEffect(c, self, found, adds, drops);
    case Probed(node, up) => ProbeKeepsInvIff(c, self, node, up);
  }

  lemma {:induction false} InTimeUpTo(self: string, peers: map<string, string>, order: seq<string>, acts: seq<Act>, states: seq<View>, n: nat)
    requires self !in peers && Interleaving(self, peers, order, acts, states) && n <= |acts|
    requires forall k | 0 <= k < n :: InTime(self, states[k], acts[k])
    ensures InStep(self, states[n])
  {
    if n == 0 {
      BootLive(self, peers, order);
      assert Healthy(states[0]) == peers.Keys;
    } else {
      InTimeUpTo(self, peers, order, acts, states, n - 1);
      assert Acts(self, states[n - 1], acts[n - 1], states[n]);
      ActKeepsInvIff(self, states[n - 1], acts[n - 1], states[n]);
    }
  }

  /** However reconciles and probe results interleave, the invariant holds throughout exactly when no answer comes too late. */
  lemma InterleavedInvIff(self: string, peers: map<string, string>, order: seq<string>, acts: seq<Act>, states: seq<View>)
    requires self !in peers && Interleaving(self, peers, order, acts, states)
    ensures (forall k | 0 <= k < |states| :: InStep(self, states[k])) <==> (forall k | 0 <= k < |acts| :: InTime(self, states[k], acts[k]))
  {
    if forall k | 0 <= k < |acts| :: InTime(self, states[k], acts[k]) {
      forall k | 0 <= k < |states|
        ensures InStep(self, states[k])
      {
        InTimeUpTo(self, peers, order, acts, states, k);
      }
    } else {
      var k :| 0 <= k < |acts| && !InTime(self, states[k], acts[k]);
      assert Acts(self, states[k], acts[k], states[k + 1]);
      if InStep(self, states[k]) { ActKeepsInvIff(self, states[k], acts[k], states[k + 1]); }
    }
  }

  // ---- the ring on reachable states -------------------------------------------------------------

  /** On every reachable state the ring itself agrees: its owners, and its counter against HealthyPeers. */
  lemma ReachableRing(p: Params, universe: set<string>, self: string, peers: map<string, string>, order: seq<string>,
                      steps: seq<Step>, states: seq<View>, k: nat)
    requires self !in peers && Execution(self, peers, order, steps, states) && k <= |steps|
    requires RingHistory.Over(states[k].log, universe) && RingHistory.AllHaveOwnPoint(p, universe)
    ensures Run(p, states[k].log).nodes.Values == {self} + Healthy(states[k])
    ensures Run(p, states[k].log).physCount == |Healthy(states[k])| + 1
  {
    var c := states[k];
    ReachableInv(self, peers, order, steps, states, k);
    RingHistory.RunCounted(p, universe, c.log);
    RingHistory.OwnersAreLive(p, universe, Run(p, c.log), Live(c.log));
    assert self !in Healthy(c);
  }

  /** Without collisions this is so for every reachable state. */
  lemma ReachableRingCollisionFree(p: Params, universe: set<string>, self: string, peers: map<string, string>, order: seq<string>,
                                   steps: seq<Step>, states: seq<View>, k: nat)
    requires self !in peers && Execution(self, peers, order, steps, states) && k <= |steps| && p.replicas >= 1
    requires RingHistory.Over(states[k].log, universe) && RingHistory.CollisionFree(p, universe)
    ensures Run(p, states[k].log).nodes.Values == {self} + Healthy(states[k])
    ensures Run(p, states[k].log).physCount == |Healthy(states[k])| + 1
  {
    RingHistory.CollisionFreeHasOwnPoints(p, universe);
    ReachableRing(p, universe, self, peers, order, steps, states, k);
  }

  /** Booting and taking one step is an execution. */
  lemma OneStep(self: string, peers: map<string, string>, order: seq<string>, step: Step) returns (c: View)
    requires Lists(order, peers.Keys) && Legal(Boot(self, peers, order), step)
    ensures c == Take(Boot(self, peers, order), self, step)
    ensures Execution(self, peers, order, [step], [Boot(self, peers, order), c]) && c in [Boot(self, peers, order), c]
  {
    c := Take(Boot(self, peers, order), self, step);
    var states := [Boot(self, peers, order), c];
    assert c == states[1];
  }

  // ---- staying on the ring itself --------------------------------------------------------

  ghost predicate Within(states: seq<View>, universe: set<string>) {
    forall c | c in states :: RingHistory.Over(c.log, universe)
  }

  /** This node owns some point of its ring in every state of every run over `universe`. */
  ghost predicate StaysOnRing(p: Params, universe: set<string>, self: string, peers: map<string, string>) {
    forall order, steps: seq<Step>, states: seq<View> | Execution(self, peers, order, steps, states) && Within(states, universe) ::
      forall c | c in states :: self in Run(p, c.log).nodes.Values
  }

  lemma OwnPointKeepsSelf(p: Params, universe: set<string>, self: string, log: seq<Op>)
    requires RingHistory.HasOwnPoint(p, universe, self) && RingHistory.Over(log, universe) && self in Live(log)
    ensures self in Run(p, log).nodes.Values
  {
    var h :| h in Hashes(p, self) && RingHistory.OnlyIts(p, universe, self, h);
    RingHistory.OwnPointKept(p, universe, log, self, h);
  }

  lemma BootOver(self: string, peers: map<string, string>, order: seq<string>, universe: set<string>)
    requires Lists(order, peers.Keys) && self in universe && peers.Keys <= universe
    ensures RingHistory.Over(Boot(self, peers, order).log, universe)
  {
  }

  lemma {:induction false} DropsOver(c: View, found: map<string, string>, order: seq<string>, universe: set<string>)
    requires RingHistory.Over(c.log, universe) && forall n | n in order :: n in universe
    ensures RingHistory.Over(Drops(c, found, order).log, universe)
  {
    if order != [] {
      assert order[|order| - 1] in order;
      DropsOver(c, found, order[..|order| - 1], universe);
    }
  }

  /** Its own peer, this node is off its ring after a snapshot without it. */
  lemma OwnPeerLeavesRing(p: Params, universe: set<string>, self: string, peers: map<string, string>)
    requires self in peers && self in universe && peers.Keys <= universe
    ensures !StaysOnRing(p, universe, self, peers)
  {
    var order := ListOf(peers.Keys);
    var b := Boot(self, peers, order);
    var c := OneStep(self, peers, order, Reconciling(map[], [], order));
    BootOver(self, peers, order, universe);
    DropsOver(b, map[], order, universe);
    DropsEffect(b, map[], order);
    assert self in Leavers(map[], order);
    OnlyLiveOwn(p, c.log);
    LeavesRing(p, universe, self, peers, order, Reconciling(map[], [], order), c);
  }

  lemma {:induction false} AddsAll(c: View, self: string, current: map<string, string>, found: map<string, string>, order: seq<string>)
    requires forall n | n in order :: n != self && Changed(current, found, n)
    ensures Adds(c, self, current, found, order).log == c.log + AddEach(order)
  {
    if order == [] {
      assert c.log + AddEach(order) == c.log;
    } else {
      var front, last := order[..|order| - 1], order[|order| - 1];
      assert order == front + [last] && last in order;
      assert forall n | n in front :: n in order;
      AddsAll(c, self, current, found, front);
      AddEachSnoc(front, last);
      assert c.log + AddEach(order) == c.log + AddEach(front) + [Add(last)];
    }
  }

  lemma {:induction false} DropsNone(c: View, found: map<string, string>, order: seq<string>)
    requires forall n | n in order :: n in found
    ensures Drops(c, found, order) == c
  {
    if order != [] {
      assert order[|order| - 1] in order;
      DropsNone(c, found, order[..|order| - 1]);
    }
  }

  /** Every node but this one, at an address it is not known at. */
  function Moved(universe: set<string>, self: string, peers: map<string, string>): map<string, string> {
    map n | n in universe && n != self :: if n in peers then peers[n] + "'" else ""
  }

  lemma MovedChanged(universe: set<string>, self: string, peers: map<string, string>, n: string)
    requires n in universe && n != self
    ensures Changed(peers, Moved(universe, self, peers), n)
  {
    if n in peers { assert |peers[n] + "'"| == |peers[n]| + 1; }
  }

  /** A snapshot in which every other node has moved adds them all again. */
  lemma MovedLog(b: View, self: string, universe: set<string>, others: seq<string>, order: seq<string>)
    requires Lists(others, universe - {self}) && self !in b.addrs && b.addrs.Keys <= universe && Lists(order, b.addrs.Keys)
    ensures Reconcile(b, self, Moved(universe, self, b.addrs), others, order).log == b.log + AddEach(others)
  {
    var found := Moved(universe, self, b.addrs);
    forall n | n in others
      ensures n != self && Changed(b.addrs, found, n)
    {
      MovedChanged(universe, self, b.addrs, n);
    }
    AddsAll(b, self, b.addrs, found, others);
    DropsNone(Adds(b, self, b.addrs, found, others), found, order);
  }

  /** Without a point of its own, this node is buried by such a snapshot. */
  lemma SharedPointsLeaveRing(p: Params, universe: set<string>, self: string, peers: map<string, string>)
    requires self !in peers && self in universe && peers.Keys <= universe && !RingHistory.HasOwnPoint(p, universe, self)
    ensures !StaysOnRing(p, universe, self, peers)
  {
    var order, others, found := ListOf(peers.Keys), ListOf(universe - {self}), Moved(universe, self, peers);
    var b := Boot(self, peers, order);
    assert found.Keys == universe - {self};
    var c := OneStep(self, peers, order, Reconciling(found, others, order));
    assert c.log == b.log + AddEach(others) by { MovedLog(b, self, universe, others, order); }
    assert self !in Run(p, c.log).nodes.Values by { RingHistory.Buried(p, universe, b.log, self, others); }
    assert RingHistory.Over(b.log, universe) by { BootOver(self, peers, order, universe); }
    assert RingHistory.Over(c.log, universe) by { RingHistory.AddsOver(b.log, others, universe); }
    LeavesRing(p, universe, self, peers, order, Reconciling(found, others, order), c);
  }

  lemma LeavesRing(p: Params, universe: set<string>, self: string, peers: map<string, string>, order: seq<string>, step: Step, c: View)
    requires var b := Boot(self, peers, order);
             Execution(self, peers, order, [step], [b, c]) && RingHistory.Over(b.log, universe)
    requires RingHistory.Over(c.log, universe) && self !in Run(p, c.log).nodes.Values
    ensures !StaysOnRing(p, universe, self, peers)
  {
    var states := [Boot(self, peers, order), c];
    assert Within(states, universe);
    assert states[1] == c && c in states;
  }

  /**
   * This node stays on its own ring through every run exactly when it is not listed among its configured peers and
   * has a virtual point that no other node of the universe hashes to.
   */
  lemma StaysOnRingIff(p: Params, universe: set<string>, self: string, peers: map<string, string>)
    requires self in universe && peers.Keys <= universe
    ensures StaysOnRing(p, universe, self, peers) <==> self !in peers && RingHistory.HasOwnPoint(p, universe, self)
  {
    if self in peers {
      OwnPeerLeavesRing(p, universe, self, peers);
    } else if !RingHistory.HasOwnPoint(p, universe, self) {
      SharedPointsLeaveRing(p, universe, self, peers);
    } else {
      forall order, steps: seq<Step>, states: seq<View>, c: View
        | Execution(self, peers, order, steps, states) && Within(states, universe) && c in states
        ensures self in Run(p, c.log).nodes.Values
      {
        var k :| 0 <= k < |states| && states[k] == c;
        ReachableInv(self, peers, order, steps, states, k);
        OwnPointKeepsSelf(p, universe, self, c.log);
      }
    }
  }

  // ---- convergence ------------------------------------------------------------------------

  /** The peers that the registry still lists at the known address and that are marked unhealthy. */
  function Down(c: View, found: map<string, string>): set<string> {
    set n | n in c.addrs && n in found && c.addrs[n] == found[n] && n in c.health && !c.health[n]
  }

  /** After a reconcile the live nodes are this one and the registry's, except the kept peers marked unhealthy. */
  lemma ReconcileLive(c: View, self: string, found: map<string, string>, adds: seq<string>, drops: seq<string>)
    requires InStep(self, c) && Lists(adds, found.Keys) && Lists(drops, c.addrs.Keys)
    ensures Live(Reconcile(c, self, found, adds, drops).log) == (found.Keys + {self}) - Down(c, found)
  {
    ReconcileEffect(c, self, found, adds, drops);
    var d := Reconcile(c, self, found, adds, drops);
    assert d.addrs.Keys == found.Keys - {self};
    assert Healthy(d) == (found.Keys - {self}) - Down(c, found);
    assert self !in Down(c, found);
  }

  /** After a reconcile the ring holds the whole registry exactly when no kept peer was marked unhealthy. */
  lemma ReconcileFillsRingIff(c: View, self: string, found: map<string, string>, adds: seq<string>, drops: seq<string>)
    requires InStep(self, c) && Lists(adds, found.Keys) && Lists(drops, c.addrs.Keys)
    ensures Live(Reconcile(c, self, found, adds, drops).log) == found.Keys + {self} <==> Down(c, found) == {}
  {
    ReconcileLive(c, self, found, adds, drops);
    assert Down(c, found) <= found.Keys;
  }

  /** A reconcile at one gateway: its view before, itself, and the order in which it walked the maps. */
  datatype Pass = Pass(before: View, self: string, adds: seq<string>, drops: seq<string>)

  ghost predicate Sound(r: Pass, found: map<string, string>) {
    InStep(r.self, r.before) && Lists(r.adds, found.Keys) && Lists(r.drops, r.before.addrs.Keys) && r.self in found
  }

  function LogAfter(r: Pass, found: map<string, string>): seq<Op> {
    Reconcile(r.before, r.self, found, r.adds, r.drops).log
  }

  /**
   * Two gateways that reconcile with one registry listing both of them have the same ring, and route every key
   * alike, exactly when they mark the same peers unhealthy.
   */
  lemma ConvergenceIff(p: Params, universe: set<string>, found: map<string, string>, a: Pass, b: Pass)
    requires p.replicas >= 1 && RingHistory.CollisionFree(p, universe) && Sound(a, found) && Sound(b, found)
    requires RingHistory.Over(LogAfter(a, found), universe) && RingHistory.Over(LogAfter(b, found), universe)
    ensures Run(p, LogAfter(a, found)) == Run(p, LogAfter(b, found)) <==> Down(a.before, found) == Down(b.before, found)
    ensures "" !in universe ==>
              (RingHistory.SameRoutes(p, LogAfter(a, found), LogAfter(b, found)) <==> Down(a.before, found) == Down(b.before, found))
  {
    var downA, downB := Down(a.before, found), Down(b.before, found);
    assert Live(LogAfter(a, found)) == found.Keys - downA by { LiveOfPass(a, found); }
    assert Live(LogAfter(b, found)) == found.Keys - downB by { LiveOfPass(b, found); }
    Complements(found.Keys, downA, downB);
    RingHistory.SameRingIff(p, universe, LogAfter(a, found), LogAfter(b, found));
    if "" !in universe { RingHistory.SameRoutesIff(p, universe, LogAfter(a, found), LogAfter(b, found)); }
  }

  lemma LiveOfPass(r: Pass, found: map<string, string>)
    requires Sound(r, found)
    ensures Live(LogAfter(r, found)) == found.Keys - Down(r.before, found)
  {
    ReconcileLive(r.before, r.self, found, r.adds, r.drops);
    assert found.Keys + {r.self} == found.Keys;
  }

  lemma Complements(all: set<string>, x: set<string>, y: set<string>)
    requires x <= all && y <= all
    ensures all - x == all - y <==> x == y
  {
    assert x == all - (all - x) && y == all - (all - y);
  }

  // ---- the classes ---------------------------------------------------------------------------

  /** The address `node` is reached at: a cached connection wins over the address map. */
  function Dialled(addrs: map<string, string>, clients: map<string, string>, node: string): Option<string> {
    if node in clients then Some(clients[node])
    else if node in addrs then Some(addrs[node])
    else None
  }

  class GrpcForwarder {
    var peerAddrs: map<string, string>
    /** Cached connections, by the address each was dialled at. */
    var clients: map<string, string>

    constructor (addrs: map<string, string>)
      ensures peerAddrs == addrs && clients == map[]
    {
      peerAddrs, clients := addrs, map[];
    }

    /** The new address is used from the next forward on exactly when no other connection is cached. */
    method AddPeer(node: string, addr: string)
      modifies this`peerAddrs
      ensures peerAddrs == old(peerAddrs)[node := addr]
      ensures Dialled(peerAddrs, clients, node) == Some(addr) <==> node !in clients || clients[node] == addr
    {
      peerAddrs := peerAddrs[node := addr];
    }

    method RemovePeer(node: string)
      modifies this
      ensures peerAddrs == old(peerAddrs) - {node} && clients == old(clients) - {node}
      ensures Dialled(peerAddrs, clients, node) == None
    {
      peerAddrs := peerAddrs - {node};
      clients := clients - {node};
    }

    /** What a failed forward does: the connection goes, so the next dial uses the recorded address. */
    method Evict(node: string)
      modifies this`clients
      ensures clients == old(clients) - {node}
      ensures Dialled(peerAddrs, clients, node) == if node in peerAddrs then Some(peerAddrs[node]) else None
    {
      clients := clients - {node};
    }

    method PeerAddrs() returns (out: map<string, string>)
      ensures out == peerAddrs
    {
      out := peerAddrs;
    }

    method GetOrDial(node: string, answers: bool) returns (addr: Option<string>)
      modifies this`clients
      ensures node in old(clients) ==> addr == Some(old(clients)[node]) && clients == old(clients)
      ensures node !in old(clients) && node in peerAddrs && answers ==>
                addr == Some(peerAddrs[node]) && clients == old(clients)[node := peerAddrs[node]]
      ensures node !in old(clients) && !(node in peerAddrs && answers) ==> addr == None && clients == old(clients)
      ensures addr.Some? ==> addr == Dialled(peerAddrs, old(clients), node)
    {
      if node in clients { return Some(clients[node]); }
      if node !in peerAddrs { return None; }
      if !answers { return None; }
      clients := clients[node := peerAddrs[node]];
      return Some(clients[node]);
    }

    /** The connection side of Forward: what is called, whether it fails, and what stays cached. */
    method Forward(owner: string, self: string, dials: bool, answers: bool) returns (used: Option<string>, failed: bool)
      modifies this`clients
      ensures owner == "" || owner == self ==> used == None && !failed && clients == old(clients)
      ensures owner != "" && owner != self ==>
                && used == (if owner in old(clients) || dials then Dialled(peerAddrs, old(clients), owner) else None)
                && (failed <==> used.None? || !answers)
                && clients == if used.None? then old(clients)
                              else if answers then old(clients)[owner := used.value]
                              else old(clients) - {owner}
      ensures failed ==> Dialled(peerAddrs, clients, owner) == if owner in peerAddrs then Some(peerAddrs[owner]) else None
    {
      if owner == "" { return None, false; }
      if owner == self { return None, false; }
      used := GetOrDial(owner, dials);
      if used.None? { return used, true; }
      if !answers {
        Evict(owner);
        return used, true;
      }
      return used, false;
    }
  }

  /** Nothing has changed for this node: address, mark and place on the ring. */
  ghost predicate SameFor(c: View, d: View, n: string) {
    && (n in d.addrs <==> n in c.addrs) && (n in c.addrs && n in d.addrs ==> d.addrs[n] == c.addrs[n])
    && (n in d.health <==> n in c.health) && (n in c.health && n in d.health ==> d.health[n] == c.health[n])
    && (n in Live(d.log) <==> n in Live(c.log))
  }

  /** Exactly the nodes that are new in `found`, or listed there at another address, are at that address, healthy and live. */
  ghost predicate Welcomed(c: View, d: View, self: string, current: map<string, string>, found: map<string, string>) {
    forall n ::
      if n != self && n in found && (n !in current || current[n] != found[n])
      then n in d.addrs && d.addrs[n] == found[n] && n in d.health && d.health[n] && n in Live(d.log)
      else SameFor(c, d, n)
  }

  /** Exactly the nodes of the snapshot that `found` does not list are gone from everywhere. */
  ghost predicate Pruned(c: View, d: View, current: map<string, string>, found: map<string, string>) {
    forall n ::
      if n in current && n !in found
      then n !in d.addrs && n !in d.health && n !in Live(d.log)
      else SameFor(c, d, n)
  }

  lemma AddsWelcome(c: View, self: string, current: map<string, string>, found: map<string, string>, order: seq<string>)
    requires Lists(order, found.Keys)
    ensures Welcomed(c, Adds(c, self, current, found, order), self, current, found)
  {
    AddsEffect(c, self, current, found, order);
    var d, more := Adds(c, self, current, found, order), Newcomers(self, current, found, order);
    forall n
      ensures n in more <==> n != self && n in found && (n !in current || current[n] != found[n])
      ensures n !in more ==> SameFor(c, d, n)
      ensures n in more ==> n in d.addrs && d.addrs[n] == found[n] && n in d.health && d.health[n] && n in Live(d.log)
    {
    }
  }

  lemma DropsPrune(c: View, current: map<string, string>, found: map<string, string>, order: seq<string>)
    requires Lists(order, current.Keys)
    ensures Pruned(c, Drops(c, found, order), current, found)
  {
    DropsEffect(c, found, order);
    var d, gone := Drops(c, found, order), Leavers(found, order);
    forall n
      ensures n in gone <==> n in current && n !in found
      ensures n !in gone ==> SameFor(c, d, n)
      ensures n in gone ==> n !in d.addrs && n !in d.health && n !in Live(d.log)
    {
    }
  }

  lemma ListsMore(order: seq<string>, all: set<string>, pending: set<string>, n: string)
    requires pending <= all && n in pending && Lists(order, all - pending)
    ensures Lists(order + [n], all - (pending - {n}))
  {
  }

  lemma AddsSnoc(c: View, self: string, current: map<string, string>, found: map<string, string>, order: seq<string>, n: string)
    ensures var d := Adds(c, self, current, found, order);
            Adds(c, self, current, found, order + [n]) ==
            if n != self && Changed(current, found, n) then WithPeer(d, n, found[n]) else d
  {
    assert (order + [n])[..|order|] == order;
  }

  class ClusterManager {
    const hr: HashRing
    const forwarder: GrpcForwarder
    const thisNode: string
    var peerHealth: map<string, bool>
    var running: bool

    ghost function Abs(): View
      reads this, hr, forwarder
    {
      View(hr.log, forwarder.peerAddrs, peerHealth)
    }

    constructor (ring: HashRing, fwd: GrpcForwarder, node: string)
      ensures hr == ring && forwarder == fwd && thisNode == node && peerHealth == map[] && !running
    {
      hr, forwarder, thisNode, peerHealth, running := ring, fwd, node, map[], false;
    }

    /** Marks every configured peer except this node healthy; a second call does nothing. */
    method Start()
      modifies this
      ensures running
      ensures peerHealth == if old(running) then old(peerHealth)
                            else old(peerHealth) + AllHealthy(forwarder.peerAddrs.Keys, thisNode)
    {
      if running { return; }
      running := true;
      var peers := forwarder.PeerAddrs();
      var pending := peers.Keys;
      while pending != {}
        invariant pending <= peers.Keys
        invariant running && peerHealth == old(peerHealth) + AllHealthy(peers.Keys - pending, thisNode)
      {
        var n :| n in pending;
        MarkOneMore(old(peerHealth), peers.Keys - pending, thisNode, n);
        assert peers.Keys - (pending - {n}) == (peers.Keys - pending) + {n};
        pending := pending - {n};
        if n != thisNode { peerHealth := peerHealth[n := true]; }
      }
    }

    method AddPeer(node: string, addr: string)
      requires hr.Valid()
      modifies this, hr, forwarder
      ensures hr.Valid() && Abs() == WithPeer(old(Abs()), node, addr)
    {
      forwarder.AddPeer(node, addr);
      hr.Add(node);
      peerHealth := peerHealth[node := true];
    }

    method RemovePeer(node: string)
      requires hr.Valid()
      modifies this, hr, forwarder
      ensures hr.Valid() && Abs() == WithoutPeer(old(Abs()), node)
    {
      hr.Remove(node);
      forwarder.RemovePeer(node);
      peerHealth := peerHealth - {node};
    }

    /** `adds` and `drops` report the order in which Go happened to walk the two maps. */
    method ReconcilePeers(found: map<string, string>) returns (ghost adds: seq<string>, ghost drops: seq<string>)
      requires hr.Valid()
      modifies this, hr, forwarder
      ensures hr.Valid()
      ensures Lists(adds, found.Keys) && Lists(drops, old(forwarder.peerAddrs).Keys)
      ensures Abs() == Reconcile(old(Abs()), thisNode, found, adds, drops)
      ensures InStep(thisNode, old(Abs())) ==>
                && InStep(thisNode, Abs()) && forwarder.peerAddrs == found - {thisNode}
                && forall n | n in forwarder.peerAddrs ::
                     peerHealth[n] == if n in old(forwarder.peerAddrs) && old(forwarder.peerAddrs)[n] == found[n]
                                      then old(peerHealth)[n] else true
    {
      var current := forwarder.PeerAddrs();
      adds := AddFound(found, current);
      drops := DropMissing(found, current);
      if InStep(thisNode, old(Abs())) { ReconcileEffect(old(Abs()), thisNode, found, adds, drops); }
    }

    /** The first loop of ReconcilePeers. */
    method AddFound(found: map<string, string>, current: map<string, string>) returns (ghost adds: seq<string>)
      requires hr.Valid()
      modifies this, hr, forwarder
      ensures hr.Valid() && Lists(adds, found.Keys)
      ensures Abs() == Adds(old(Abs()), thisNode, current, found, adds)
      ensures Welcomed(old(Abs()), Abs(), thisNode, current, found)
    {
      adds := [];
      var pending := found.Keys;
      while pending != {}
        invariant hr.Valid() && pending <= found.Keys && Lists(adds, found.Keys - pending)
        invariant Abs() == Adds(old(Abs()), thisNode, current, found, adds)
      {
        var n :| n in pending;
        ListsMore(adds, found.Keys, pending, n);
        AddsSnoc(old(Abs()), thisNode, current, found, adds, n);
        pending, adds := pending - {n}, adds + [n];
        if n != thisNode {
          if n !in current { AddPeer(n, found[n]); }
          else if current[n] != found[n] { AddPeer(n, found[n]); }
        }
      }
      AddsWelcome(old(Abs()), thisNode, current, found, adds);
    }

    /** The second loop of ReconcilePeers. */
    method DropMissing(found: map<string, string>, current: map<string, string>) returns (ghost drops: seq<string>)
      requires hr.Valid()
      modifies this, hr, forwarder
      ensures hr.Valid() && Lists(drops, current.Keys)
      ensures Abs() == Drops(old(Abs()), found, drops)
      ensures Pruned(old(Abs()), Abs(), current, found)
    {
      drops := [];
      var pending := current.Keys;
      while pending != {}
        invariant hr.Valid() && pending <= current.Keys && Lists(drops, current.Keys - pending)
        invariant Abs() == Drops(old(Abs()), found, drops)
      {
        var n :| n in pending;
        ListsMore(drops, current.Keys, pending, n);
        assert (drops + [n])[..|drops|] == drops;
        pending, drops := pending - {n}, drops + [n];
        if n !in found { RemovePeer(n); }
      }
      DropsPrune(old(Abs()), current, found, drops);
    }

    method RunHealthCheck(probe: string -> bool) returns (ghost order: seq<string>)
      requires hr.Valid()
      modifies this, hr
      ensures hr.Valid() && Lists(order, old(forwarder.peerAddrs).Keys)
      ensures Abs() == HealthCheck(old(Abs()), thisNode, probe, order)
      ensures InStep(thisNode, old(Abs())) ==>
                InStep(thisNode, Abs()) && forall n | n in forwarder.peerAddrs :: n in peerHealth && peerHealth[n] == probe(n)
    {
      var current := forwarder.PeerAddrs();
      ghost var start := Abs();
      order := [];
      var pending := current.Keys;
      while pending != {}
        invariant hr.Valid() && pending <= current.Keys && Lists(order, current.Keys - pending)
        invariant Abs() == HealthCheck(start, thisNode, probe, order)
      {
        var n :| n in pending;
        ListsMore(order, current.Keys, pending, n);
        assert (order + [n])[..|order|] == order;
        pending, order := pending - {n}, order + [n];
        if n != thisNode {
          var up := probe(n);
          var was := n in peerHealth && peerHealth[n];
          if up && !was {
            hr.Add(n);
            peerHealth := peerHealth[n := true];
          } else if !up && was {
            hr.Remove(n);
            peerHealth := peerHealth[n := false];
          }
        }
      }
      if InStep(thisNode, start) { AnsweredAreHealthy(start, thisNode, probe, order); }
    }

    method HealthyPeers() returns (count: nat)
      ensures count == |Healthy(Abs())|
    {
      count := 0;
      var pending := peerHealth.Keys;
      ghost var counted: set<string> := {};
      while pending != {}
        invariant pending <= peerHealth.Keys
        invariant counted == set n | n in peerHealth.Keys - pending && peerHealth[n]
        invariant count == |counted|
      {
        var n :| n in pending;
        pending := pending - {n};
        if peerHealth[n] {
          count := count + 1;
          counted := counted + {n};
        }
      }
      assert counted == Healthy(Abs());
    }
  }

  /** The start-up ring: the configured peers, in Go's map order, and this node. */
  method BuildRing(crc: string -> Word, self: string, peers: map<string, string>) returns (hr: HashRing, ghost order: seq<string>)
    ensures fresh(hr) && hr.Valid() && hr.params == Params(crc, 150)
    ensures Lists(order, peers.Keys) && hr.log == AddEach(order) + [Add(self)]
  {
    hr := new HashRing(crc, 150);
    order := [];
    var pending := peers.Keys;
    while pending != {}
      invariant fresh(hr) && hr.Valid() && pending <= peers.Keys
      invariant Lists(order, peers.Keys - pending) && hr.log == AddEach(order)
    {
      var n :| n in pending;
      ListsMore(order, peers.Keys, pending, n);
      assert AddEach(order + [n]) == AddEach(order) + [Add(n)];
      pending, order := pending - {n}, order + [n];
      hr.Add(n);
    }
    hr.Add(self);
  }

  /** Start-up of a gateway: ring, forwarder and manager are in the state runs begin with. */
  method BootGateway(crc: string -> Word, self: string, peers: map<string, string>)
    returns (cm: ClusterManager, ghost order: seq<string>)
    ensures fresh(cm) && fresh(cm.hr) && fresh(cm.forwarder) && cm.thisNode == self && cm.hr.Valid()
    ensures Lists(order, peers.Keys) && cm.Abs() == Boot(self, peers, order)
    ensures cm.forwarder.peerAddrs == peers && Live(cm.hr.log) == peers.Keys + {self}
    ensures cm.peerHealth.Keys == peers.Keys - {self} && forall n | n in cm.peerHealth :: cm.peerHealth[n]
  {
    var hr;
    hr, order := BuildRing(crc, self, peers);
    var fwd := new GrpcForwarder(peers);
    cm := new ClusterManager(hr, fwd, self);
    cm.Start();
    assert map[] + AllHealthy(peers.Keys, self) == AllHealthy(peers.Keys, self);
    BootLive(self, peers, order);
  }
}
