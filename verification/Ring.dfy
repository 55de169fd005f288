/** The consistent-hash ring of internal/gateway/hashring.go. */
module Ring {
  import Decimal

  const WORDS: nat := 0x1_0000_0000
  newtype Word = n: int | 0 <= n < 0x1_0000_0000

  /** The checksum is any function to 32-bit words; `replicas` is fixed at construction. */
  datatype Params = Params(crc: string -> Word, replicas: nat)

  /** The mutable part of a HashRing: sorted virtual points, point owners, node counter. */
  datatype State = State(ring: seq<Word>, nodes: map<Word, string>, physCount: int)

  const EMPTY := State([], map[], 0)

  // ---- sorting -------------------------------------------------------------

  predicate Sorted(s: seq<Word>) {
    forall i, j | 0 <= i < j < |s| :: s[i] <= s[j]
  }

  function Insert(x: Word, s: seq<Word>): (r: seq<Word>)
    requires Sorted(s)
    ensures Sorted(r) && r != [] && (r[0] == x || (s != [] && r[0] == s[0]))
  {
    if s == [] || x <= s[0] then [x] + s
    else [s[0]] + Insert(x, s[1..])
  }

  lemma {:induction false} InsertContents(x: Word, s: seq<Word>)
    requires Sorted(s)
    ensures multiset(Insert(x, s)) == multiset(s) + multiset{x}
  {
    if !(s == [] || x <= s[0]) {
      InsertContents(x, s[1..]);
      assert s == [s[0]] + s[1..];
    }
  }

  function Sort(s: seq<Word>): (r: seq<Word>)
    ensures Sorted(r)
  {
    if s == [] then [] else Insert(s[0], Sort(s[1..]))
  }

  lemma {:induction false} SortContents(s: seq<Word>)
    ensures multiset(Sort(s)) == multiset(s)
  {
    if s != [] {
      SortContents(s[1..]);
      InsertContents(s[0], Sort(s[1..]));
      assert s == [s[0]] + s[1..];
    }
  }

  lemma HeadAndTail(a: seq<Word>)
    requires a != []
    ensures multiset(a) == multiset{a[0]} + multiset(a[1..])
  {
    assert a == [a[0]] + a[1..];
  }

  lemma HeadIsLeast(a: seq<Word>, x: Word)
    requires Sorted(a) && x in multiset(a)
    ensures a != [] && a[0] <= x
  {
  }

  /** Sorted sequences with the same contents start alike and go on with the same contents. */
  lemma SameHead(a: seq<Word>, b: seq<Word>)
    requires Sorted(a) && Sorted(b) && multiset(a) == multiset(b) && a != [] && b != []
    ensures a[0] == b[0] && multiset(a[1..]) == multiset(b[1..])
  {
    HeadAndTail(a);
    HeadAndTail(b);
    assert a[0] in multiset(b) && b[0] in multiset(a);
    HeadIsLeast(b, a[0]);
    HeadIsLeast(a, b[0]);
    var first := multiset{a[0]};
    assert multiset(a[1..]) == (first + multiset(a[1..])) - first;
    assert multiset(b[1..]) == (first + multiset(b[1..])) - first;
  }

  lemma {:induction false} SortedUnique(a: seq<Word>, b: seq<Word>)
    requires Sorted(a) && Sorted(b) && multiset(a) == multiset(b)
    ensures a == b
  {
    assert |a| == |multiset(a)| && |b| == |multiset(b)|;
    if a != [] {
      SameHead(a, b);
      SortedUnique(a[1..], b[1..]);
      assert a == [a[0]] + a[1..] && b == [b[0]] + b[1..];
    }
  }

  // ---- adding and removing a node ------------------------------------------

  function VirtualKey(node: string, i: nat): string {
    node + ":" + Decimal.FormatInt(i)
  }

  /** No two replicas, of one node or of two, hash the same text, whatever characters the node IDs contain. */
  lemma VirtualKeyInjective(a: string, i: nat, b: string, j: nat)
    ensures VirtualKey(a, i) == VirtualKey(b, j) <==> a == b && i == j
  {
    if VirtualKey(a, i) == VirtualKey(b, j) { Decimal.TaggedInjective(a, i, b, j); }
  }

  /** The hashes Add appends for `node`, in order; two of them may coincide. */
  function Hashes(p: Params, node: string): (hs: seq<Word>)
    ensures |hs| == p.replicas
  {
    seq(p.replicas, i requires 0 <= i < p.replicas => p.crc(VirtualKey(node, i)))
  }

  /** What is hashed for the i-th replica of a node. */
  lemma HashesAt(p: Params, node: string, i: nat)
    requires i < p.replicas
    ensures Hashes(p, node)[i] == p.crc(node + ":" + Decimal.FormatInt(i))
  {
    assert Hashes(p, node)[i] == p.crc(VirtualKey(node, i));
    assert VirtualKey(node, i) == node + ":" + Decimal.FormatInt(i);
  }

  function Keep(ring: seq<Word>, nodes: map<Word, string>): (r: seq<Word>)
    ensures forall h :: h in r <==> h in ring && h in nodes
    ensures Sorted(ring) ==> Sorted(r)
  {
    if ring == [] then []
    else
      var t := Keep(ring[1..], nodes);
      assert forall i | 0 <= i < |t| :: t[i] in t;
      if ring[0] in nodes then [ring[0]] + t else t
  }

  function Without(nodes: map<Word, string>, node: string): map<Word, string> {
    map h | h in nodes && nodes[h] != node :: nodes[h]
  }

  function Claim(nodes: map<Word, string>, hs: seq<Word>, node: string): map<Word, string> {
    map h | h in nodes.Keys + (set x | x in hs) :: if h in hs then node else nodes[h]
  }

  function RemoveNode(s: State, node: string): State {
    if node !in s.nodes.Values then s
    else
      var nodes := Without(s.nodes, node);
      State(Keep(s.ring, nodes), nodes, s.physCount - 1)
  }

  function AddNode(p: Params, s: State, node: string): State {
    var s1 := RemoveNode(s, node);
    var hs := Hashes(p, node);
    State(Sort(s1.ring + hs), Claim(s1.nodes, hs, node), s1.physCount + 1)
  }

  /** What every reachable ring satisfies, whatever the hash function does. */
  ghost predicate Inv(p: Params, s: State) {
    && Sorted(s.ring)
    && (forall h :: h in s.ring <==> h in s.nodes)
    && (forall h | h in s.nodes :: h in Hashes(p, s.nodes[h]))
  }

  lemma RemoveKeepsInv(p: Params, s: State, node: string)
    requires Inv(p, s)
    ensures Inv(p, RemoveNode(s, node))
    ensures RemoveNode(s, node).nodes == Without(s.nodes, node)
  {
    if node !in s.nodes.Values {
      assert Without(s.nodes, node) == s.nodes;
    }
  }

  /** On the owner map the removal inside Add is invisible: Add just claims the node's points. */
  lemma AddedNodes(p: Params, s: State, node: string)
    requires Inv(p, s)
    ensures AddNode(p, s, node).nodes == Claim(s.nodes, Hashes(p, node), node)
  {
    RemoveKeepsInv(p, s, node);
  }

  lemma AddKeepsInv(p: Params, s: State, node: string)
    requires Inv(p, s)
    ensures Inv(p, AddNode(p, s, node))
  {
    RemoveKeepsInv(p, s, node);
    var s1, hs, t := RemoveNode(s, node), Hashes(p, node), AddNode(p, s, node);
    SortContents(s1.ring + hs);
    forall h
      ensures h in t.ring <==> h in t.nodes
    {
      assert h in t.ring <==> h in multiset(t.ring);
      assert h in multiset(s1.ring + hs) <==> h in s1.ring + hs;
    }
  }

  // ---- routing: the reference definition -----------------------------------

  /** Distance from `h` forwards around the circle of 2^32 words to `q`. */
  function Clockwise(h: Word, q: Word): nat { (q as int - h as int) % WORDS }

  ghost predicate Nearest(nodes: map<Word, string>, h: Word, q: Word) {
    q in nodes && forall x | x in nodes :: Clockwise(h, q) <= Clockwise(h, x)
  }

  lemma {:induction false} NearestExists(nodes: map<Word, string>, h: Word)
    requires nodes != map[]
    ensures exists q :: Nearest(nodes, h, q)
    decreases |nodes|
  {
    var x :| x in nodes;
    if y :| y in nodes && y != x {
      var rest := map k | k in nodes && k != x :: nodes[k];
      assert y in rest;
      assert rest.Keys == nodes.Keys - {x};
      NearestExists(rest, h);
      var q :| Nearest(rest, h, q);
      assert Nearest(nodes, h, if Clockwise(h, x) < Clockwise(h, q) then x else q);
    } else {
      assert Nearest(nodes, h, x);
    }
  }

  ghost function NearestPoint(nodes: map<Word, string>, h: Word): (q: Word)
    requires nodes != map[]
    ensures Nearest(nodes, h, q)
  {
    NearestExists(nodes, h);
    var q :| Nearest(nodes, h, q);
    q
  }

  /** The node that owns hash `h`: the owner of the first point met clockwise; "" on an empty ring. */
  ghost function Owner(nodes: map<Word, string>, h: Word): string {
    if nodes == map[] then "" else nodes[NearestPoint(nodes, h)]
  }

  lemma SameDistance(h: Word, q: Word, r: Word)
    requires Clockwise(h, q) == Clockwise(h, r)
    ensures q == r
  {
  }

  lemma OwnerIs(nodes: map<Word, string>, h: Word, q: Word)
    requires Nearest(nodes, h, q)
    ensures Owner(nodes, h) == nodes[q]
  {
    assert q in nodes;
    SameDistance(h, q, NearestPoint(nodes, h));
  }

  /** In plain order: the owner of the least point at or above h, or of the least point of all when there is none. */
  ghost predicate OwnsByOrder(nodes: map<Word, string>, h: Word, node: string) {
    exists q :: q in nodes && nodes[q] == node &&
      if q >= h then forall x | x in nodes && x >= h :: q <= x
      else forall x | x in nodes :: x < h && q <= x
  }

  lemma OwnerByOrder(nodes: map<Word, string>, h: Word)
    requires nodes != map[]
    ensures OwnsByOrder(nodes, h, Owner(nodes, h))
  {
    var q := NearestPoint(nodes, h);
    if q >= h {
      forall x | x in nodes && x >= h ensures q <= x { assert Clockwise(h, q) <= Clockwise(h, x); }
    } else {
      forall x | x in nodes ensures x < h && q <= x { assert Clockwise(h, q) <= Clockwise(h, x); }
    }
  }

  // ---- minimal remapping, collisions included -------------------------------

  /** Removing a node moves only the keys that node owned. */
  lemma RemoveRemapsOnlyItsKeys(p: Params, s: State, node: string, h: Word)
    requires Inv(p, s)
    ensures var after := RemoveNode(s, node).nodes;
            && node !in after.Values
            && (Owner(s.nodes, h) != node ==> Owner(after, h) == Owner(s.nodes, h))
  {
    RemoveKeepsInv(p, s, node);
    var after := Without(s.nodes, node);
    if s.nodes != map[] && Owner(s.nodes, h) != node {
      var q := NearestPoint(s.nodes, h);
      assert Nearest(after, h, q);
      OwnerIs(after, h, q);
    } else if s.nodes == map[] {
      assert after == map[];
    }
  }

  /** Adding a node, or adding it again, either leaves a key where it was or gives it to that node. */
  lemma AddRemapsOnlyToIt(p: Params, s: State, node: string, h: Word)
    requires Inv(p, s) && p.replicas >= 1
    ensures var after := AddNode(p, s, node).nodes;
            && node in after.Values
            && (Owner(after, h) == node || Owner(after, h) == Owner(s.nodes, h))
  {
    AddedNodes(p, s, node);
    var hs := Hashes(p, node);
    var after := AddNode(p, s, node).nodes;
    assert hs[0] in after && after[hs[0]] == node;
    var q := NearestPoint(after, h);
    if after[q] != node {
      assert q in s.nodes;
      assert forall x | x in s.nodes :: x in after;
      assert Nearest(s.nodes, h, q);
      OwnerIs(s.nodes, h, q);
    }
  }

  // ---- histories -------------------------------------------------------------

  datatype Op = Add(node: string) | Remove(node: string)

  function Apply(p: Params, s: State, op: Op): State {
    match op
    case Add(n) => AddNode(p, s, n)
    case Remove(n) => RemoveNode(s, n)
  }

  function Run(p: Params, ops: seq<Op>): State {
    if ops == [] then EMPTY
    else Apply(p, Run(p, ops[..|ops| - 1]), ops[|ops| - 1])
  }

  /** The nodes whose last operation was an Add. */
  function Live(ops: seq<Op>): set<string> {
    if ops == [] then {}
    else
      var before := Live(ops[..|ops| - 1]);
      match ops[|ops| - 1]
      case Add(n) => before + {n}
      case Remove(n) => before - {n}
  }

  /** `order` lists the set, each element once: a way in which Go may walk a map's keys. */
  ghost predicate Lists(order: seq<string>, s: set<string>) {
    && (forall x :: x in order <==> x in s)
    && (forall i, j | 0 <= i < j < |order| :: order[i] != order[j])
  }

  ghost function ListOf(s: set<string>): (r: seq<string>)
    ensures Lists(r, s)
  {
    if s == {} then []
    else
      var x :| x in s;
      ListOf(s - {x}) + [x]
  }

  function AddEach(order: seq<string>): seq<Op> {
    seq(|order|, i requires 0 <= i < |order| => Add(order[i]))
  }

  lemma AddEachSnoc(order: seq<string>, n: string)
    ensures AddEach(order + [n]) == AddEach(order) + [Add(n)]
  {
  }

  lemma Extend(p: Params, ops: seq<Op>, op: Op)
    ensures Run(p, ops + [op]) == Apply(p, Run(p, ops), op)
    ensures Live(ops + [op]) == if op.Add? then Live(ops) + {op.node} else Live(ops) - {op.node}
  {
    assert (ops + [op])[..|ops|] == ops;
  }

  lemma {:induction false} RunKeepsInv(p: Params, ops: seq<Op>)
    ensures Inv(p, Run(p, ops))
  {
    if ops != [] {
      var front := ops[..|ops| - 1];
      RunKeepsInv(p, front);
      match ops[|ops| - 1]
      case Add(n) => AddKeepsInv(p, Run(p, front), n);
      case Remove(n) => RemoveKeepsInv(p, Run(p, front), n);
    }
  }

  /** Only nodes that are live own points, collisions or not. */
  lemma {:induction false} OnlyLiveOwn(p: Params, ops: seq<Op>)
    ensures forall h | h in Run(p, ops).nodes :: Run(p, ops).nodes[h] in Live(ops)
  {
    if ops != [] {
      var front := ops[..|ops| - 1];
      OnlyLiveOwn(p, front);
      RunKeepsInv(p, front);
      match ops[|ops| - 1]
      case Add(n) => AddedNodes(p, Run(p, front), n);
      case Remove(n) => RemoveKeepsInv(p, Run(p, front), n);
    }
  }

  // ---- the class -----------------------------------------------------------------

  lemma {:induction false} KeepSnoc(ring: seq<Word>, h: Word, nodes: map<Word, string>)
    ensures Keep(ring + [h], nodes) == if h in nodes then Keep(ring, nodes) + [h] else Keep(ring, nodes)
  {
    if ring == [] {
      assert ring + [h] == [h];
    } else {
      KeepSnoc(ring[1..], h, nodes);
      assert (ring + [h])[1..] == ring[1..] + [h];
    }
  }

  lemma ClaimSnoc(nodes: map<Word, string>, hs: seq<Word>, h: Word, node: string)
    ensures Claim(nodes, hs + [h], node) == Claim(nodes, hs, node)[h := node]
  {
  }

  /** The first point >= h, or the first point of all when there is none, is the nearest clockwise. */
  lemma SearchFindsNearest(p: Params, s: State, h: Word, i: nat)
    requires Inv(p, s) && i <= |s.ring| && s.ring != []
    requires forall k | 0 <= k < i :: s.ring[k] < h
    requires forall k | i <= k < |s.ring| :: h <= s.ring[k]
    ensures Nearest(s.nodes, h, s.ring[if i == |s.ring| then 0 else i])
  {
    var q := s.ring[if i == |s.ring| then 0 else i];
    assert q in s.ring;
    forall x | x in s.nodes
      ensures Clockwise(h, q) <= Clockwise(h, x)
    {
      var k :| 0 <= k < |s.ring| && s.ring[k] == x;
    }
  }

  /** Every replica's point is the node's, and every other point is where it was. */
  ghost predicate Claimed(p: Params, before: map<Word, string>, after: map<Word, string>, node: string) {
    && (forall i: nat | i < p.replicas :: IsAt(after, p.crc(node + ":" + Decimal.FormatInt(i)), node))
    && (forall h, n | n != node :: IsAt(after, h, n) ==> IsAt(before, h, n))
    && (forall h, n :: IsAt(before, h, n) ==> IsAt(after, h, n) || IsAt(after, h, node))
  }

  predicate IsAt(nodes: map<Word, string>, h: Word, node: string) { h in nodes && nodes[h] == node }

  lemma AddClaims(p: Params, s: State, node: string)
    requires Inv(p, s)
    ensures Claimed(p, s.nodes, AddNode(p, s, node).nodes, node)
  {
    AddedNodes(p, s, node);
    forall i: nat | i < p.replicas
      ensures IsAt(AddNode(p, s, node).nodes, p.crc(node + ":" + Decimal.FormatInt(i)), node)
    {
      HashesAt(p, node, i);
      assert Hashes(p, node)[i] in Hashes(p, node);
    }
  }

  class HashRing {
    const params: Params
    var ring: seq<Word>
    var nodes: map<Word, string>
    var physCount: int
    /** Every Add and Remove so far. */
    ghost var log: seq<Op>

    ghost function Abs(): State
      reads this
    {
      State(ring, nodes, physCount)
    }

    ghost predicate Valid()
      reads this
    {
      params.replicas >= 1 && Abs() == Run(params, log)
    }

    constructor (crc: string -> Word, replicas: int)
      ensures Valid() && log == []
      ensures params == Params(crc, if replicas <= 0 then 150 else replicas)
    {
      params := Params(crc, if replicas <= 0 then 150 else replicas);
      ring, nodes, physCount, log := [], map[], 0, [];
    }

    method Add(node: string)
      requires Valid()
      modifies this
      ensures Valid() && log == old(log) + [Op.Add(node)]
      ensures Abs() == AddNode(params, old(Abs()), node)
      ensures Claimed(params, old(nodes), nodes, node)
    {
      RunKeepsInv(params, log);
      AddClaims(params, Abs(), node);
      Extend(params, log, Op.Add(node));
      RemoveLocked(node);
      physCount := physCount + 1;
      AppendReplicas(node);
      ring := Sort(ring);
      log := log + [Op.Add(node)];
    }

    /** The loop of Add: each replica's hash is appended to the slice and claimed in the map. */
    method AppendReplicas(node: string)
      modifies this`ring, this`nodes
      ensures ring == old(ring) + Hashes(params, node) && nodes == Claim(old(nodes), Hashes(params, node), node)
    {
      ghost var hs := Hashes(params, node);
      assert nodes == Claim(old(nodes), hs[..0], node);
      for i := 0 to params.replicas
        invariant ring == old(ring) + hs[..i]
        invariant nodes == Claim(old(nodes), hs[..i], node)
      {
        var hash := params.crc(VirtualKey(node, i));
        assert hs[..i + 1] == hs[..i] + [hash];
        ClaimSnoc(old(nodes), hs[..i], hash, node);
        ring := ring + [hash];
        nodes := nodes[hash := node];
      }
      assert hs[..params.replicas] == hs;
    }

    method Remove(node: string)
      requires Valid()
      modifies this
      ensures Valid() && log == old(log) + [Op.Remove(node)]
      ensures Abs() == RemoveNode(old(Abs()), node)
    {
      RemoveLocked(node);
      log := log + [Op.Remove(node)];
      Extend(params, old(log), Op.Remove(node));
    }

    method RemoveLocked(node: string)
      modifies this`ring, this`nodes, this`physCount
      ensures Abs() == RemoveNode(old(Abs()), node)
    {
      var toRemove: seq<Word> := [];
      var pending := nodes.Keys;
      while pending != {}
        invariant Abs() == old(Abs())
        invariant pending <= nodes.Keys
        invariant forall h :: h in toRemove <==> h in nodes.Keys - pending && nodes[h] == node
      {
        var hash :| hash in pending;
        pending := pending - {hash};
        if nodes[hash] == node {
          toRemove := toRemove + [hash];
        }
      }
      assert forall h :: h in toRemove <==> h in nodes && nodes[h] == node;
      if |toRemove| == 0 {
        forall h | h in nodes ensures nodes[h] != node { assert h !in toRemove; }
        return;
      }
      assert toRemove[0] in toRemove;
      physCount := physCount - 1;
      for i := 0 to |toRemove|
        invariant nodes == map h | h in old(nodes) && h !in toRemove[..i] :: old(nodes)[h]
        invariant ring == old(ring) && physCount == old(physCount) - 1
      {
        nodes := nodes - {toRemove[i]};
        assert toRemove[..i + 1] == toRemove[..i] + [toRemove[i]];
      }
      assert toRemove[..|toRemove|] == toRemove;
      assert nodes == Without(old(nodes), node);
      ring := FilterRing(ring, nodes);
    }

    /** The last loop of RemoveLocked: the points that still have an owner, in order. */
    static method FilterRing(points: seq<Word>, nodes: map<Word, string>) returns (filtered: seq<Word>)
      ensures filtered == Keep(points, nodes)
    {
      filtered := [];
      for i := 0 to |points|
        invariant filtered == Keep(points[..i], nodes)
      {
        KeepSnoc(points[..i], points[i], nodes);
        assert points[..i + 1] == points[..i] + [points[i]];
        if points[i] in nodes {
          filtered := filtered + [points[i]];
        }
      }
      assert points[..|points|] == points;
    }

    /** The node that owns `key`: the binary search agrees with the clockwise definition. */
    method Get(key: string) returns (node: string)
      requires Valid()
      ensures node == Owner(nodes, params.crc(key))
      ensures ring == [] ==> node == ""
      ensures ring != [] ==> OwnsByOrder(nodes, params.crc(key), node)
      ensures ring != [] ==> node in nodes.Values && node in Live(log)
      ensures ring != [] && "" !in Live(log) ==> node != ""
    {
      RunKeepsInv(params, log);
      OnlyLiveOwn(params, log);
      assert forall h :: h in ring <==> h in nodes;
      if |ring| == 0 {
        assert nodes == map[];
        return "";
      }
      var hash := params.crc(key);
      var i, j := 0, |ring|;
      while i < j
        invariant 0 <= i <= j <= |ring|
        invariant forall k | 0 <= k < i :: ring[k] < hash
        invariant forall k | j <= k < |ring| :: hash <= ring[k]
      {
        var mid := (i + j) / 2;
        if ring[mid] < hash { i := mid + 1; } else { j := mid; }
      }
      SearchFindsNearest(params, Abs(), hash, i);
      if i >= |ring| { i := 0; }
      OwnerIs(nodes, hash, ring[i]);
      OwnerByOrder(nodes, hash);
      node := nodes[ring[i]];
    }

    method Len() returns (n: int)
      requires Valid()
      ensures n == Run(params, log).physCount
    {
      n := physCount;
    }
  }
}
