/** The dedup cache of internal/gateway/dedup.go. Time is in seconds. */
module Dedup {
  import Decimal
  import opened Options

  datatype Entry = Entry(msgId: int, created: real)
  type Cache = map<string, Entry>

  function Key(from: string, seqNo: int): string { from + ":" + Decimal.FormatInt(seqNo) }

  /** Different (sender, seq) pairs never share a key, whatever characters the sender's UID contains. */
  lemma KeyInjective(a: string, i: int, b: string, j: int)
    ensures Key(a, i) == Key(b, j) <==> a == b && i == j
  {
    if Key(a, i) == Key(b, j) { Decimal.TaggedInjective(a, i, b, j); }
  }

  function Lookup(c: Cache, from: string, seqNo: int): Option<int> {
    if Key(from, seqNo) in c then Some(c[Key(from, seqNo)].msgId) else None
  }

  function Marked(c: Cache, from: string, seqNo: int, msgId: int, now: real): Cache {
    c[Key(from, seqNo) := Entry(msgId, now)]
  }

  /** Memory decides; before the first mark of the process, with Redis behind it, what Redis has stored may answer instead. */
  function Recall(c: Cache, marks: nat, redis: bool, from: string, seqNo: int, stored: Option<int>): Option<int> {
    var known := Lookup(c, from, seqNo);
    if known.None? && redis && marks == 0 then stored else known
  }

  /** What is found only in Redis is remembered from `now` on. */
  function Recalled(c: Cache, marks: nat, redis: bool, from: string, seqNo: int, stored: Option<int>, now: real): Cache {
    var answer := Recall(c, marks, redis, from, seqNo, stored);
    if Lookup(c, from, seqNo).None? && answer.Some? then Marked(c, from, seqNo, answer.value, now) else c
  }

  /** One eviction pass at `now`. */
  function Evicted(c: Cache, now: real, ttl: real): Cache {
    map k | k in c && c[k].created >= now - ttl :: c[k]
  }

  /** The pair was marked with this ID at this time and is still known. */
  ghost predicate Remembers(c: Cache, from: string, seqNo: int, msgId: int, created: real) {
    Key(from, seqNo) in c && c[Key(from, seqNo)] == Entry(msgId, created)
  }

  /** Marks of other pairs and evictions up to TTL after the mark leave it remembered. */
  lemma StaysRemembered(c: Cache, from: string, seqNo: int, msgId: int, created: real, now: real, ttl: real,
                        other: string, otherSeq: int, otherId: int)
    requires Remembers(c, from, seqNo, msgId, created)
    ensures now <= created + ttl ==> Remembers(Evicted(c, now, ttl), from, seqNo, msgId, created)
    ensures other != from || otherSeq != seqNo ==>
              Remembers(Marked(c, other, otherSeq, otherId, now), from, seqNo, msgId, created)
  {
    KeyInjective(from, seqNo, other, otherSeq);
  }

  /** A mark older than TTL is gone after a tick, and the pair is new again; nothing else goes. */
  lemma OldMarkGoes(c: Cache, from: string, seqNo: int, msgId: int, created: real, now: real, ttl: real)
    requires Remembers(c, from, seqNo, msgId, created)
    ensures Lookup(Evicted(c, now, ttl), from, seqNo) == if created < now - ttl then None else Some(msgId)
  {
  }

  /** The pair's key is the text that stands for it in Redis too. */
  lemma KeyText()
    ensures Key("u1", 7) == "u1:7" && Key("a:b", 120) == "a:b:120"
  {
    assert Decimal.Format(1) == "1" && Decimal.Format(12) == "12";
  }

  /** Asking for a pair, this one or another, overwrites nothing. */
  lemma RecallKeeps(c: Cache, from: string, seqNo: int, msgId: int, created: real,
                    marks: nat, redis: bool, other: string, otherSeq: int, stored: Option<int>, now: real)
    requires Remembers(c, from, seqNo, msgId, created)
    ensures Remembers(Recalled(c, marks, redis, other, otherSeq, stored, now), from, seqNo, msgId, created)
  {
    KeyInjective(from, seqNo, other, otherSeq);
  }

  class DedupCache {
    const ttl: real
    const hasRedis: bool
    var seen: Cache
    var marks: nat

    constructor (ttl: real, hasRedis: bool)
      ensures this.ttl == ttl && this.hasRedis == hasRedis && seen == map[] && marks == 0
    {
      this.ttl, this.hasRedis, seen, marks := ttl, hasRedis, map[], 0;
    }

    /**
     * Memory decides, except before the first mark of this process, when `stored` is what Redis answers. A pair found
     * there is remembered from now on; once anything was marked the question changes nothing.
     */
    method IsDuplicate(from: string, seqNo: int, stored: Option<int>, now: real) returns (dup: bool, msgId: int)
      modifies this`seen
      ensures Recall(old(seen), marks, hasRedis, from, seqNo, stored) == if dup then Some(msgId) else None
      ensures seen == Recalled(old(seen), marks, hasRedis, from, seqNo, stored, now)
      ensures dup <==> Lookup(old(seen), from, seqNo).Some? || (hasRedis && marks == 0 && stored.Some?)
      ensures !dup ==> msgId == 0
      ensures Lookup(seen, from, seqNo) == if dup then Some(msgId) else None
      ensures marks > 0 || !hasRedis || Lookup(old(seen), from, seqNo).Some? ==> seen == old(seen)
    {
      var key := Key(from, seqNo);
      if key in seen { return true, seen[key].msgId; }
      if hasRedis && marks == 0 {
        if stored.Some? {
          seen := seen[key := Entry(stored.value, now)];
          return true, stored.value;
        }
      }
      return false, 0;
    }

    method Mark(from: string, seqNo: int, msgId: int, now: real)
      modifies this
      ensures seen == Marked(old(seen), from, seqNo, msgId, now) && marks == old(marks) + 1
      ensures Lookup(seen, from, seqNo) == Some(msgId)
    {
      seen := seen[Key(from, seqNo) := Entry(msgId, now)];
      marks := marks + 1;
    }

    /** One tick of the cleanup loop. */
    method Evict(now: real)
      modifies this`seen
      ensures seen == Evicted(old(seen), now, ttl)
      ensures forall k :: k in seen <==> k in old(seen) && !(old(seen)[k].created < now - ttl)
      ensures forall k | k in seen :: seen[k] == old(seen)[k]
    {
      var cutoff := now - ttl;
      var pending := seen.Keys;
      while pending != {}
        invariant pending <= old(seen).Keys
        invariant seen == map k | k in old(seen) && (k in pending || old(seen)[k].created >= cutoff) :: old(seen)[k]
      {
        var k :| k in pending;
        pending := pending - {k};
        if seen[k].created < cutoff { seen := seen - {k}; }
      }
    }
  }
}
