/** What a HashRing remembers of its history: exactly when the answer is "only the set of live nodes". */
module RingHistory {
  import opened Ring

  ghost predicate Over(ops: seq<Op>, universe: set<string>) {
    forall op | op in ops :: op.node in universe
  }

  /** No two different nodes share a virtual point. */
  ghost predicate CollisionFree(p: Params, universe: set<string>) {
    forall a, b, h: Word | a in universe && b in universe && h in Hashes(p, a) && h in Hashes(p, b) :: a == b
  }

  /** A checksum without collisions of its own gives no two nodes a common point, whatever they are called. */
  lemma InjectiveIsCollisionFree(p: Params, universe: set<string>)
    requires forall x, y | p.crc(x) == p.crc(y) :: x == y
    ensures CollisionFree(p, universe)
  {
    forall a, b, h: Word | a in universe && b in universe && h in Hashes(p, a) && h in Hashes(p, b)
      ensures a == b
    {
      var i :| 0 <= i < p.replicas && Hashes(p, a)[i] == h;
      var j :| 0 <= j < p.replicas && Hashes(p, b)[j] == h;
      VirtualKeyInjective(a, i, b, j);
    }
  }

  /** The whole state depends on a history only through the nodes it leaves live. */
  ghost predicate HistoryIndependent(p: Params, universe: set<string>) {
    forall a, b | Over(a, universe) && Over(b, universe) && Live(a) == Live(b) :: Run(p, a) == Run(p, b)
  }

  /** The routing of every hash depends on a history only through the nodes it leaves live. */
  ghost predicate RoutingIndependent(p: Params, universe: set<string>) {
    forall a, b, h: Word | Over(a, universe) && Over(b, universe) && Live(a) == Live(b) ::
      Owner(Run(p, a).nodes, h) == Owner(Run(p, b).nodes, h)
  }

  /** Each live node owns exactly its own points. */
  ghost predicate Owned(p: Params, s: State, live: set<string>) {
    && (forall h | h in s.nodes :: s.nodes[h] in live)
    && (forall n, h: Word | n in live && h in Hashes(p, n) :: h in s.nodes && s.nodes[h] == n)
  }

  /** The slice repeats a point as often as its owner's replicas hash to it. */
  ghost predicate Counts(p: Params, s: State) {
    forall h: Word :: multiset(s.ring)[h] == CountOf(p, s.nodes, h)
  }

  ghost function CountOf(p: Params, nodes: map<Word, string>, h: Word): nat {
    if h in nodes then multiset(Hashes(p, nodes[h]))[h] else 0
  }

  /** Without collisions a state is spelled out by its live nodes. */
  ghost predicate Canonical(p: Params, s: State, live: set<string>) {
    Inv(p, s) && Owned(p, s, live) && Counts(p, s) && s.physCount == |live|
  }

  lemma SameNodes(p: Params, s: State, t: State, live: set<string>)
    requires Inv(p, s) && Inv(p, t) && Owned(p, s, live) && Owned(p, t, live)
    ensures s.nodes == t.nodes
  {
    forall h: Word
      ensures h in s.nodes <==> h in t.nodes
      ensures h in s.nodes ==> s.nodes[h] == t.nodes[h]
    {
      if h in s.nodes { assert h in Hashes(p, s.nodes[h]); }
      if h in t.nodes { assert h in Hashes(p, t.nodes[h]); }
    }
  }

  lemma CanonicalUnique(p: Params, s: State, t: State, live: set<string>)
    requires Canonical(p, s, live) && Canonical(p, t, live)
    ensures s == t
  {
    SameNodes(p, s, t, live);
    assert multiset(s.ring) == multiset(t.ring);
    SortedUnique(s.ring, t.ring);
  }

  lemma LiveIsOnRing(p: Params, s: State, live: set<string>, n: string)
    requires Owned(p, s, live) && n in live && p.replicas >= 1
    ensures n in s.nodes.Values
  {
    var h := Hashes(p, n)[0];
    assert h in Hashes(p, n);
    assert s.nodes[h] == n;
  }

  lemma {:induction false} KeepCount(ring: seq<Word>, nodes: map<Word, string>, h: Word)
    ensures multiset(Keep(ring, nodes))[h] == if h in nodes then multiset(ring)[h] else 0
  {
    if ring != [] {
      KeepCount(ring[1..], nodes, h);
      assert ring == [ring[0]] + ring[1..];
    }
  }

  lemma RemoveCanonical(p: Params, s: State, live: set<string>, n: string)
    requires Canonical(p, s, live) && p.replicas >= 1
    ensures Canonical(p, RemoveNode(s, n), live - {n})
  {
    RemoveKeepsInv(p, s, n);
    var t := RemoveNode(s, n);
    if n in s.nodes.Values {
      RemoveKeepsCounts(p, s, n);
    } else {
      if n in live { LiveIsOnRing(p, s, live, n); }
      assert live - {n} == live;
    }
  }

  lemma RemoveKeepsCounts(p: Params, s: State, n: string)
    requires Counts(p, s) && n in s.nodes.Values
    ensures Counts(p, RemoveNode(s, n))
  {
    var t := RemoveNode(s, n);
    forall h: Word
      ensures multiset(t.ring)[h] == CountOf(p, t.nodes, h)
    {
      KeepCount(s.ring, t.nodes, h);
    }
  }

  /** The result `t` of adding a node that is not on the ring, described without the sort. */
  ghost predicate Added(p: Params, s: State, n: string, t: State) {
    && Inv(p, t)
    && t.nodes == Claim(s.nodes, Hashes(p, n), n)
    && multiset(t.ring) == multiset(s.ring) + multiset(Hashes(p, n))
    && t.physCount == s.physCount + 1
  }

  lemma AddNodeAdds(p: Params, s: State, n: string)
    requires Inv(p, s) && n !in s.nodes.Values
    ensures Added(p, s, n, AddNode(p, s, n))
  {
    AddKeepsInv(p, s, n);
    AddedNodes(p, s, n);
    SortContents(s.ring + Hashes(p, n));
  }

  lemma AddNew(p: Params, s: State, live: set<string>, n: string, t: State)
    requires Canonical(p, s, live) && n !in live && CollisionFree(p, live + {n})
    requires Added(p, s, n, t)
    ensures Canonical(p, t, live + {n})
  {
    Disjoint(p, s, live, n);
    var hs := Hashes(p, n);
    forall h: Word
      ensures multiset(t.ring)[h] == CountOf(p, t.nodes, h)
    {
      assert h in hs <==> h in multiset(hs);
      assert multiset(s.ring)[h] == CountOf(p, s.nodes, h);
    }
  }

  lemma Disjoint(p: Params, s: State, live: set<string>, n: string)
    requires Inv(p, s) && Owned(p, s, live) && n !in live && CollisionFree(p, live + {n})
    ensures forall h | h in s.nodes :: h !in Hashes(p, n)
  {
    forall h | h in s.nodes
      ensures h !in Hashes(p, n)
    {
      assert h in Hashes(p, s.nodes[h]);
    }
  }

  /** Adding a node again is adding it after removing it. */
  lemma AddAgain(p: Params, s: State, n: string)
    requires Inv(p, s)
    ensures Added(p, RemoveNode(s, n), n, AddNode(p, s, n))
  {
    RemoveKeepsInv(p, s, n);
    var s1 := RemoveNode(s, n);
    assert n !in s1.nodes.Values;
    assert RemoveNode(s1, n) == s1;
    AddNodeAdds(p, s1, n);
  }

  lemma AddCanonical(p: Params, s: State, live: set<string>, n: string)
    requires Canonical(p, s, live) && p.replicas >= 1 && CollisionFree(p, live + {n})
    ensures Canonical(p, AddNode(p, s, n), live + {n})
  {
    RemoveCanonical(p, s, live, n);
    AddAgain(p, s, n);
    assert (live - {n}) + {n} == live + {n};
    AddNew(p, RemoveNode(s, n), live - {n}, n, AddNode(p, s, n));
  }

  lemma {:induction false} RunCanonical(p: Params, universe: set<string>, ops: seq<Op>)
    requires CollisionFree(p, universe) && Over(ops, universe) && p.replicas >= 1
    ensures Canonical(p, Run(p, ops), Live(ops)) && Live(ops) <= universe
  {
    if ops != [] {
      var front, op := ops[..|ops| - 1], ops[|ops| - 1];
      assert op in ops;
      RunCanonical(p, universe, front);
      match op
      case Add(n) => AddCanonical(p, Run(p, front), Live(front), n);
      case Remove(n) => RemoveCanonical(p, Run(p, front), Live(front), n);
    }
  }

  lemma TwoAdds(p: Params, a: string, b: string)
    ensures Run(p, [Add(a), Add(b)]) == AddNode(p, AddNode(p, EMPTY, a), b)
    ensures Live([Add(a), Add(b)]) == {a, b}
  {
    OneAdd(p, a);
    assert [Add(a)] + [Add(b)] == [Add(a), Add(b)];
    Extend(p, [Add(a)], Add(b));
  }

  lemma OneAdd(p: Params, a: string)
    ensures Run(p, [Add(a)]) == AddNode(p, EMPTY, a) && Live([Add(a)]) == {a}
  {
    assert [] + [Add(a)] == [Add(a)];
    Extend(p, [], Add(a));
  }

  /** A shared point goes to whichever of the two nodes was added last. */
  lemma LastAddWins(p: Params, a: string, b: string, h: Word)
    requires h in Hashes(p, a) && h in Hashes(p, b)
    ensures Owner(Run(p, [Add(a), Add(b)]).nodes, h) == b
  {
    TwoAdds(p, a, b);
    var nodes := Run(p, [Add(a), Add(b)]).nodes;
    assert h in nodes && nodes[h] == b;
    OwnerAt(nodes, h);
  }

  lemma CollisionFreeSuffices(p: Params, universe: set<string>, a: seq<Op>, b: seq<Op>)
    requires p.replicas >= 1 && CollisionFree(p, universe)
    requires Over(a, universe) && Over(b, universe) && Live(a) == Live(b)
    ensures Run(p, a) == Run(p, b)
  {
    RunCanonical(p, universe, a);
    RunCanonical(p, universe, b);
    CanonicalUnique(p, Run(p, a), Run(p, b), Live(a));
  }

  lemma Differ(p: Params, universe: set<string>, a: seq<Op>, b: seq<Op>, h: Word)
    requires Over(a, universe) && Over(b, universe) && Live(a) == Live(b)
    ensures Owner(Run(p, a).nodes, h) != Owner(Run(p, b).nodes, h) ==>
              !HistoryIndependent(p, universe) && !RoutingIndependent(p, universe)
  {
  }

  lemma CollisionBreaks(p: Params, universe: set<string>, a: string, b: string, h: Word)
    requires a in universe && b in universe && a != b && h in Hashes(p, a) && h in Hashes(p, b)
    ensures !HistoryIndependent(p, universe) && !RoutingIndependent(p, universe)
  {
    var first, second := [Add(a), Add(b)], [Add(b), Add(a)];
    assert Live(first) == Live(second) by {
      TwoAdds(p, a, b);
      TwoAdds(p, b, a);
    }
    assert Owner(Run(p, first).nodes, h) != Owner(Run(p, second).nodes, h) by {
      LastAddWins(p, a, b, h);
      LastAddWins(p, b, a, h);
    }
    Differ(p, universe, first, second, h);
  }

  /**
   * History independence, of the whole state and of routing alike, holds exactly when
   * no two nodes that may join share a virtual point.
   */
  lemma HistoryIndependenceIffCollisionFree(p: Params, universe: set<string>)
    requires p.replicas >= 1
    ensures HistoryIndependent(p, universe) <==> CollisionFree(p, universe)
    ensures RoutingIndependent(p, universe) <==> CollisionFree(p, universe)
  {
    if CollisionFree(p, universe) {
      forall a, b | Over(a, universe) && Over(b, universe) && Live(a) == Live(b)
        ensures Run(p, a) == Run(p, b)
      {
        CollisionFreeSuffices(p, universe, a, b);
      }
    } else {
      var a, b, h: Word :| a in universe && b in universe && h in Hashes(p, a) && h in Hashes(p, b) && a != b;
      CollisionBreaks(p, universe, a, b, h);
    }
  }

  // ---- the node counter -----------------------------------------------------------

  /** The counter equals the number of live nodes after every history over `universe`. */
  ghost predicate LenExact(p: Params, universe: set<string>) {
    forall ops | Over(ops, universe) :: Run(p, ops).physCount == |Live(ops)|
  }

  /** Some point of `n` belongs to no other node of the universe. */
  ghost predicate HasOwnPoint(p: Params, universe: set<string>, n: string) {
    exists h :: h in Hashes(p, n) && OnlyIts(p, universe, n, h)
  }

  ghost predicate OnlyIts(p: Params, universe: set<string>, n: string, h: Word) {
    forall m | m in universe && h in Hashes(p, m) :: m == n
  }

  /** While every node has a point of its own: owners on the ring = live nodes, and each is counted once. */
  ghost predicate Counted(p: Params, universe: set<string>, s: State, live: set<string>) {
    && Inv(p, s)
    && live <= universe
    && s.physCount == |live|
    && (forall h | h in s.nodes :: s.nodes[h] in live)
    && (forall n, h: Word | n in live && h in Hashes(p, n) && OnlyIts(p, universe, n, h) ::
          h in s.nodes && s.nodes[h] == n)
  }

  ghost predicate AllHaveOwnPoint(p: Params, universe: set<string>) {
    forall n | n in universe :: HasOwnPoint(p, universe, n)
  }

  lemma OwnersAreLive(p: Params, universe: set<string>, s: State, live: set<string>)
    requires Counted(p, universe, s, live) && AllHaveOwnPoint(p, universe)
    ensures s.nodes.Values == live
  {
    forall n | n in live
      ensures n in s.nodes.Values
    {
      assert HasOwnPoint(p, universe, n);
      var h :| h in Hashes(p, n) && OnlyIts(p, universe, n, h);
      assert s.nodes[h] == n;
    }
  }

  lemma RemoveCounted(p: Params, universe: set<string>, s: State, live: set<string>, n: string)
    requires Counted(p, universe, s, live) && AllHaveOwnPoint(p, universe)
    ensures Counted(p, universe, RemoveNode(s, n), live - {n})
  {
    RemoveKeepsInv(p, s, n);
    OwnersAreLive(p, universe, s, live);
    if n !in live { assert live - {n} == live; }
  }

  lemma AddNewCounted(p: Params, universe: set<string>, s: State, live: set<string>, n: string, t: State)
    requires Counted(p, universe, s, live) && n in universe - live
    requires Added(p, s, n, t)
    ensures Counted(p, universe, t, live + {n})
  {
    forall m, h: Word | m in live + {n} && h in Hashes(p, m) && OnlyIts(p, universe, m, h)
      ensures h in t.nodes && t.nodes[h] == m
    {
    }
  }

  lemma AddCounted(p: Params, universe: set<string>, s: State, live: set<string>, n: string)
    requires Counted(p, universe, s, live) && AllHaveOwnPoint(p, universe) && n in universe
    ensures Counted(p, universe, AddNode(p, s, n), live + {n})
  {
    var s1, t := RemoveNode(s, n), AddNode(p, s, n);
    assert (live - {n}) + {n} == live + {n};
    assert Counted(p, universe, s1, live - {n}) by { RemoveCounted(p, universe, s, live, n); }
    assert Added(p, s1, n, t) by { AddAgain(p, s, n); }
    AddNewCounted(p, universe, s1, live - {n}, n, t);
  }

  lemma {:induction false} RunCounted(p: Params, universe: set<string>, ops: seq<Op>)
    requires AllHaveOwnPoint(p, universe) && Over(ops, universe)
    ensures Counted(p, universe, Run(p, ops), Live(ops))
  {
    if ops != [] {
      var front, op := ops[..|ops| - 1], ops[|ops| - 1];
      assert op in ops;
      RunCounted(p, universe, front);
      match op
      case Add(n) => AddCounted(p, universe, Run(p, front), Live(front), n);
      case Remove(n) => RemoveCounted(p, universe, Run(p, front), Live(front), n);
    }
  }

  /** `n` owns no point that is also a point of one of `others`. */
  ghost predicate Shadowed(p: Params, nodes: map<Word, string>, n: string, others: seq<string>) {
    forall h, m | h in nodes && nodes[h] == n && m in others :: h !in Hashes(p, m)
  }

  lemma ShadowMore(p: Params, nodes: map<Word, string>, n: string, others: seq<string>, last: string)
    requires Shadowed(p, nodes, n, others) && last != n
    ensures Shadowed(p, Claim(nodes, Hashes(p, last), last), n, others + [last])
  {
  }

  /** Adding others after any history leaves to `n` only points none of them has. */
  lemma {:induction false} AddsShadow(p: Params, ops: seq<Op>, n: string, others: seq<string>)
    requires n !in others
    ensures Shadowed(p, Run(p, ops + AddEach(others)).nodes, n, others)
  {
    if others != [] {
      var front, last := others[..|others| - 1], others[|others| - 1];
      assert others == front + [last];
      AddsShadow(p, ops, n, front);
      var before := ops + AddEach(front);
      assert ops + AddEach(others) == before + [Add(last)] by { AddEachSnoc(front, last); }
      ShadowStep(p, n, before, front, last);
    }
  }

  lemma {:induction false} AddsLive(ops: seq<Op>, others: seq<string>)
    ensures Live(ops + AddEach(others)) == Live(ops) + (set m | m in others)
  {
    if others == [] {
      assert ops + AddEach(others) == ops;
    } else {
      var front, last := others[..|others| - 1], others[|others| - 1];
      assert others == front + [last];
      AddsLive(ops, front);
      AddEachSnoc(front, last);
      var all := ops + AddEach(others);
      assert all[..|all| - 1] == ops + AddEach(front) && all[|all| - 1] == Add(last);
    }
  }

  lemma AddsOver(ops: seq<Op>, others: seq<string>, universe: set<string>)
    requires Over(ops, universe) && forall m | m in others :: m in universe
    ensures Over(ops + AddEach(others), universe)
  {
  }

  lemma ShadowStep(p: Params, n: string, ops: seq<Op>, others: seq<string>, last: string)
    requires Shadowed(p, Run(p, ops).nodes, n, others) && last != n
    ensures Shadowed(p, Run(p, ops + [Add(last)]).nodes, n, others + [last])
  {
    Extend(p, ops, Add(last));
    RunKeepsInv(p, ops);
    AddedNodes(p, Run(p, ops), last);
    ShadowMore(p, Run(p, ops).nodes, n, others, last);
  }

  lemma RemoveUncounted(p: Params, universe: set<string>, ops: seq<Op>, n: string)
    requires Over(ops, universe) && n in universe && n in Live(ops) && n !in Run(p, ops).nodes.Values
    ensures !LenExact(p, universe)
  {
    var longer := ops + [Remove(n)];
    assert |Live(ops)| == |Live(longer)| + 1 && Run(p, longer).physCount == Run(p, ops).physCount by {
      Extend(p, ops, Remove(n));
    }
    assert Over(longer, universe);
  }

  /** A node with no point of its own is off the ring once all others have been added after it. */
  lemma Buried(p: Params, universe: set<string>, ops: seq<Op>, n: string, others: seq<string>)
    requires n in universe && !HasOwnPoint(p, universe, n)
    requires forall m :: m in others <==> m in universe && m != n
    ensures n !in Run(p, ops + AddEach(others)).nodes.Values
  {
    AddsShadow(p, ops, n, others);
    RunKeepsInv(p, ops + AddEach(others));
    var nodes := Run(p, ops + AddEach(others)).nodes;
    forall h | h in nodes
      ensures nodes[h] != n
    {
      assert h in Hashes(p, n) ==> !OnlyIts(p, universe, n, h);
    }
  }

  /** Removing a buried node is not counted. */
  lemma BuriedNodeBreaksLen(p: Params, universe: set<string>, n: string)
    requires n in universe && !HasOwnPoint(p, universe, n)
    ensures !LenExact(p, universe)
  {
    var others := ListOf(universe - {n});
    var ops := [Add(n)] + AddEach(others);
    Buried(p, universe, [Add(n)], n, others);
    AddsLive([Add(n)], others);
    assert [Add(n)][..0] == [];
    assert n in Live([Add(n)]);
    AddsOver([Add(n)], others, universe);
    RemoveUncounted(p, universe, ops, n);
  }

  /** A live node keeps a point that is its alone, whatever the others do. */
  lemma {:induction false} OwnPointKept(p: Params, universe: set<string>, ops: seq<Op>, n: string, h: Word)
    requires Over(ops, universe) && h in Hashes(p, n) && OnlyIts(p, universe, n, h) && n in Live(ops)
    ensures h in Run(p, ops).nodes && Run(p, ops).nodes[h] == n
  {
    if ops != [] {
      var front, op := ops[..|ops| - 1], ops[|ops| - 1];
      assert op in ops && Over(front, universe);
      RunKeepsInv(p, front);
      match op
      case Add(m) =>
        AddedNodes(p, Run(p, front), m);
        if m != n { OwnPointKept(p, universe, front, n, h); }
      case Remove(m) =>
        RemoveKeepsInv(p, Run(p, front), m);
        OwnPointKept(p, universe, front, n, h);
    }
  }

  /** Len() is the number of live nodes after every history exactly when every node has a point of its own. */
  lemma LenExactIff(p: Params, universe: set<string>)
    requires p.replicas >= 1
    ensures LenExact(p, universe) <==> AllHaveOwnPoint(p, universe)
  {
    if AllHaveOwnPoint(p, universe) {
      forall ops | Over(ops, universe)
        ensures Run(p, ops).physCount == |Live(ops)|
      {
        RunCounted(p, universe, ops);
      }
    } else {
      var n :| n in universe && !HasOwnPoint(p, universe, n);
      BuriedNodeBreaksLen(p, universe, n);
    }
  }

  lemma CollisionFreeHasOwnPoints(p: Params, universe: set<string>)
    requires p.replicas >= 1 && CollisionFree(p, universe)
    ensures AllHaveOwnPoint(p, universe)
  {
    forall n | n in universe
      ensures HasOwnPoint(p, universe, n)
    {
      assert Hashes(p, n)[0] in Hashes(p, n);
      assert OnlyIts(p, universe, n, Hashes(p, n)[0]);
    }
  }

  /** The owner of a point is whoever the map names there. */
  lemma OwnerAt(nodes: map<Word, string>, h: Word)
    requires h in nodes
    ensures Owner(nodes, h) == nodes[h]
  {
    assert Clockwise(h, h) == 0;
    assert Nearest(nodes, h, h);
    OwnerIs(nodes, h, h);
  }

  lemma {:induction false} LiveOver(ops: seq<Op>, universe: set<string>)
    requires Over(ops, universe)
    ensures Live(ops) <= universe
  {
    if ops != [] {
      assert ops[|ops| - 1] in ops;
      LiveOver(ops[..|ops| - 1], universe);
    }
  }

  lemma OwnedFirstPoint(p: Params, universe: set<string>, a: seq<Op>, n: string)
    requires p.replicas >= 1 && CollisionFree(p, universe) && Over(a, universe) && n in Live(a)
    ensures var h := p.crc(VirtualKey(n, 0)); h in Run(p, a).nodes && Run(p, a).nodes[h] == n
  {
    var h := p.crc(VirtualKey(n, 0));
    LiveOver(a, universe);
    assert Hashes(p, n)[0] == h && h in Hashes(p, n);
    assert OnlyIts(p, universe, n, h);
    OwnPointKept(p, universe, a, n, h);
  }

  lemma NotLiveNotOwner(p: Params, b: seq<Op>, n: string, h: Word)
    requires n !in Live(b) && n != ""
    ensures Owner(Run(p, b).nodes, h) != n
  {
    OnlyLiveOwn(p, b);
  }

  /** Without collisions two rings are equal exactly when the same nodes are live. */
  lemma SameRingIff(p: Params, universe: set<string>, a: seq<Op>, b: seq<Op>)
    requires p.replicas >= 1 && CollisionFree(p, universe) && Over(a, universe) && Over(b, universe)
    ensures Run(p, a) == Run(p, b) <==> Live(a) == Live(b)
  {
    if Live(a) == Live(b) {
      CollisionFreeSuffices(p, universe, a, b);
    } else {
      OnlyLiveOwn(p, a);
      OnlyLiveOwn(p, b);
      if n :| n in Live(a) && n !in Live(b) {
        OwnedFirstPoint(p, universe, a, n);
      } else {
        var m :| m in Live(b) && m !in Live(a);
        OwnedFirstPoint(p, universe, b, m);
      }
    }
  }

  ghost predicate SameRoutes(p: Params, a: seq<Op>, b: seq<Op>) {
    forall key :: Owner(Run(p, a).nodes, p.crc(key)) == Owner(Run(p, b).nodes, p.crc(key))
  }

  /** A node live on one side only gets its own first virtual key there and nowhere else. */
  lemma OneSided(p: Params, universe: set<string>, a: seq<Op>, b: seq<Op>, n: string)
    requires p.replicas >= 1 && CollisionFree(p, universe) && Over(a, universe)
    requires n in Live(a) && n !in Live(b) && n != ""
    ensures !SameRoutes(p, a, b) && !SameRoutes(p, b, a)
  {
    var key := VirtualKey(n, 0);
    OwnedFirstPoint(p, universe, a, n);
    OwnerAt(Run(p, a).nodes, p.crc(key));
    NotLiveNotOwner(p, b, n, p.crc(key));
  }

  /** And, with no empty node ID about, they route every key alike exactly then. */
  lemma SameRoutesIff(p: Params, universe: set<string>, a: seq<Op>, b: seq<Op>)
    requires p.replicas >= 1 && CollisionFree(p, universe) && Over(a, universe) && Over(b, universe) && "" !in universe
    ensures SameRoutes(p, a, b) <==> Live(a) == Live(b)
  {
    LiveOver(a, universe);
    LiveOver(b, universe);
    if Live(a) == Live(b) {
      CollisionFreeSuffices(p, universe, a, b);
    } else if n :| n in Live(a) && n !in Live(b) {
      OneSided(p, universe, a, b, n);
    } else {
      var m :| m in Live(b) && m !in Live(a);
      OneSided(p, universe, b, a, m);
    }
  }
}
