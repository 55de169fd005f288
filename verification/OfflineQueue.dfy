/**
 * Offline queues: the Hub's slice (internal/gateway/hub.go), the Redis list (internal/gateway/redis_store.go)
 * and the CmdOffline drain with re-enqueue (internal/gateway/router.go).
 */
module OfflineQueue {
  import opened Options

  /** The last `n` elements, or all of them when there are fewer. */
  function LastN<M>(s: seq<M>, n: nat): (r: seq<M>)
    ensures |r| == if |s| <= n then |s| else n
  {
    if |s| <= n then s else s[|s| - n..]
  }

  /** Hub.StoreOffline on one user's slice: append, then cut the oldest beyond the limit. */
  function Store<M>(q: seq<M>, m: M, max: nat): seq<M> {
    var grown := q + [m];
    if |grown| > max then grown[|grown| - max..] else grown
  }

  // ---- Redis lists -----------------------------------------------------------------------

  /** LTRIM key start stop: negative indices count from the end, an empty range deletes the list. */
  function LTrim<M>(list: seq<M>, start: int, stop: int): seq<M> {
    var lo := if start < 0 then start + |list| else start;
    var hi := if stop < 0 then stop + |list| else stop;
    var from := if lo < 0 then 0 else lo;
    var to := if hi >= |list| then |list| - 1 else hi;
    if from > to || from >= |list| then [] else list[from..to + 1]
  }

  /** The store script: RPUSH, LLEN, and LTRIM to [-max, -1] when the list is too long. */
  function StoreScript<M>(list: seq<M>, m: M, max: nat): seq<M> {
    var grown := list + [m];
    if |grown| > max then LTrim(grown, 0 - max, -1) else grown
  }

  // ---- runs: bounded FIFO --------------------------------------------------------------------

  datatype Event<M> = Stored(uid: string, m: M) | Drained(uid: string)
  datatype Backend = HubSlice | RedisList

  type Queues<M> = map<string, seq<M>>

  function Of<M>(qs: Queues<M>, uid: string): seq<M> { if uid in qs then qs[uid] else [] }

  function Put<M>(b: Backend, q: seq<M>, m: M, max: nat): seq<M> {
    if b.HubSlice? then Store(q, m, max) else StoreScript(q, m, max)
  }

  function Step<M>(b: Backend, qs: Queues<M>, e: Event<M>, max: nat): Queues<M> {
    match e
    case Stored(uid, m) => qs[uid := Put(b, Of(qs, uid), m, max)]
    case Drained(uid) => qs - {uid}
  }

  function Run<M>(b: Backend, events: seq<Event<M>>, max: nat): Queues<M> {
    if events == [] then map[]
    else Step(b, Run(b, events[..|events| - 1], max), events[|events| - 1], max)
  }

  /** Everything stored for `uid` since its last drain, in order. */
  function SinceDrain<M>(events: seq<Event<M>>, uid: string): seq<M> {
    if events == [] then []
    else
      var before := SinceDrain(events[..|events| - 1], uid);
      match events[|events| - 1]
      case Stored(u, m) => if u == uid then before + [m] else before
      case Drained(u) => if u == uid then [] else before
  }

  /** A store at the Hub appends and cuts the oldest beyond the limit; nothing else goes. */
  lemma StoreIsLast<M>(q: seq<M>, m: M, max: nat)
    ensures Store(q, m, max) == LastN(q + [m], max) && StoreScript(q, m, max) == Held(RedisList, q + [m], max)
  {
  }

  /** What a backend keeps of the messages stored: the last max, except that Redis with limit 0 keeps all. */
  function Held<M>(b: Backend, s: seq<M>, max: nat): seq<M> {
    if b.RedisList? && max == 0 then s else LastN(s, max)
  }

  lemma PutKeepsHeld<M>(b: Backend, s: seq<M>, m: M, max: nat)
    ensures Put(b, Held(b, s, max), m, max) == Held(b, s + [m], max)
  {
    var q := Held(b, s, max);
    if |s| < max || (b.RedisList? && max == 0) {
      assert Put(b, q, m, max) == s + [m];
    } else {
      assert (q + [m])[|q| + 1 - max..] == (s + [m])[|s| + 1 - max..];
    }
  }

  /** Both backends hold exactly what they keep of the messages stored since the last drain, in order. */
  lemma {:induction false} BoundedFifo<M>(b: Backend, events: seq<Event<M>>, max: nat, uid: string)
    ensures Of(Run(b, events, max), uid) == Held(b, SinceDrain(events, uid), max)
  {
    if events != [] {
      var front := events[..|events| - 1];
      BoundedFifo(b, front, max, uid);
      match events[|events| - 1]
      case Stored(u, m) => PutKeepsHeld(b, SinceDrain(front, uid), m, max);
      case Drained(u) =>
    }
  }

  /** The Redis list keeps to the limit, and agrees with the Hub, exactly when the limit is at least 1. */
  lemma RedisAgreesIff<M>(max: nat, sample: M)
    ensures (forall events: seq<Event<M>>, uid :: Of(Run(RedisList, events, max), uid) == Of(Run(HubSlice, events, max), uid))
            <==> max >= 1
  {
    if max >= 1 {
      forall events: seq<Event<M>>, uid
        ensures Of(Run(RedisList, events, max), uid) == Of(Run(HubSlice, events, max), uid)
      {
        BoundedFifo(RedisList, events, max, uid);
        BoundedFifo(HubSlice, events, max, uid);
      }
    } else {
      var events := [Stored("", sample)];
      assert events[..0] == [];
      assert Of(Run(RedisList, events, max), "") == [sample];
      assert Of(Run(HubSlice, events, max), "") == [];
    }
  }

  // ---- draining to a connection ------------------------------------------------------------------

  /** How many of the first `n` sends succeed before one fails. */
  function Accepted(accepts: nat -> bool, n: nat): (k: nat)
    ensures k <= n && (forall i | 0 <= i < k :: accepts(i)) && (k < n ==> !accepts(k))
  {
    if n == 0 then 0
    else
      var k := Accepted(accepts, n - 1);
      if k == n - 1 && accepts(n - 1) then n else k
  }

  function StoreAll<M>(b: Backend, q: seq<M>, ms: seq<M>, max: nat): seq<M> {
    if ms == [] then q else Put(b, StoreAll(b, q, ms[..|ms| - 1], max), ms[|ms| - 1], max)
  }

  /** handleOffline: drain, send until a send fails, store the rest again. Returns what was sent and the new queue. */
  function HandleOffline<M>(b: Backend, q: seq<M>, max: nat, accepts: nat -> bool): (seq<M>, seq<M>) {
    var k := Accepted(accepts, |q|);
    (q[..k], StoreAll(b, [], q[k..], max))
  }

  /** A queue of this length can be held without cutting. */
  predicate Fits(b: Backend, size: nat, max: nat) { size <= max || (b.RedisList? && max == 0) }

  lemma {:induction false} StoreAllFits<M>(b: Backend, q: seq<M>, ms: seq<M>, max: nat)
    requires Fits(b, |q| + |ms|, max)
    ensures StoreAll(b, q, ms, max) == q + ms
  {
    if ms != [] {
      var front, m := ms[..|ms| - 1], ms[|ms| - 1];
      StoreAllFits(b, q, front, max);
      assert Put(b, q + front, m, max) == q + front + [m];
      assert ms == front + [m];
    }
  }

  /** One request: the sent prefix and the stored suffix are the drained queue; nothing is truncated. */
  lemma DrainConserves<M>(b: Backend, q: seq<M>, max: nat, accepts: nat -> bool)
    requires Fits(b, |q|, max)
    ensures var (sent, kept) := HandleOffline(b, q, max, accepts); sent + kept == q && Fits(b, |kept|, max)
  {
    StoreAllFits(b, [], q[Accepted(accepts, |q|)..], max);
  }

  /** The request that sends k messages is the one whose first k sends succeed and whose next, if any, fails. */
  lemma HandleOfflineIs<M>(b: Backend, q: seq<M>, max: nat, accepts: nat -> bool, k: nat)
    requires Fits(b, |q|, max) && k <= |q| && (forall i | 0 <= i < k :: accepts(i)) && (k < |q| ==> !accepts(k))
    ensures HandleOffline(b, q, max, accepts) == (q[..k], q[k..])
  {
    var n := Accepted(accepts, |q|);
    assert n == k;
    StoreAllFits(b, [], q[k..], max);
    assert [] + q[k..] == q[k..];
  }

  /** Successive requests, each with its own send outcomes, nothing stored in between. */
  function Requests<M>(b: Backend, q: seq<M>, max: nat, rounds: seq<nat -> bool>): (seq<M>, seq<M>)
    decreases |rounds|
  {
    if rounds == [] then ([], q)
    else
      var (sent, kept) := HandleOffline(b, q, max, rounds[0]);
      var (later, rest) := Requests(b, kept, max, rounds[1..]);
      (sent + later, rest)
  }

  /** Over any number of requests the queue goes out in order, each message once. */
  lemma {:induction false} RequestsConserve<M>(b: Backend, q: seq<M>, max: nat, rounds: seq<nat -> bool>)
    requires Fits(b, |q|, max)
    ensures var (sent, rest) := Requests(b, q, max, rounds); sent + rest == q
    decreases |rounds|
  {
    if rounds != [] {
      DrainConserves(b, q, max, rounds[0]);
      var (sent, kept) := HandleOffline(b, q, max, rounds[0]);
      RequestsConserve(b, kept, max, rounds[1..]);
      var (later, rest) := Requests(b, kept, max, rounds[1..]);
      assert sent + later + rest == sent + (later + rest);
    }
  }

  /** So it is for the queue of any user after any run of stores and drains, in either backend and with any limit. */
  lemma ReachableDrainConserves<M>(b: Backend, events: seq<Event<M>>, max: nat, uid: string, rounds: seq<nat -> bool>)
    ensures var q := Of(Run(b, events, max), uid);
            var (sent, rest) := Requests(b, q, max, rounds);
            sent + rest == q == Held(b, SinceDrain(events, uid), max)
  {
    BoundedFifo(b, events, max, uid);
    RequestsConserve(b, Of(Run(b, events, max), uid), max, rounds);
  }

  // ---- the Redis store -----------------------------------------------------------------------------

  /** Payloads that decode, in order; the others are skipped. */
  function Decoded<B, M>(items: seq<B>, unmarshal: B -> Option<M>): seq<M> {
    if items == [] then []
    else
      var rest := Decoded(items[..|items| - 1], unmarshal);
      match unmarshal(items[|items| - 1])
      case Some(m) => rest + [m]
      case None => rest
  }

  function Marshalled<B, M>(ms: seq<M>, marshal: M -> B): seq<B> {
    seq(|ms|, i requires 0 <= i < |ms| => marshal(ms[i]))
  }

  /** A payload that does not decode is passed over, and those behind it are not. */
  lemma {:induction false} DecodedSplit<B, M>(a: seq<B>, item: B, b: seq<B>, unmarshal: B -> Option<M>)
    ensures Decoded(a + [item] + b, unmarshal) ==
            Decoded(a, unmarshal) + (match unmarshal(item) case Some(m) => [m] case None => []) + Decoded(b, unmarshal)
    decreases |b|
  {
    var all := a + [item] + b;
    if b == [] {
      assert all[..|all| - 1] == a;
    } else {
      var front := b[..|b| - 1];
      DecodedSplit(a, item, front, unmarshal);
      assert all[..|all| - 1] == a + [item] + front;
    }
  }

  lemma {:induction false} DecodedMarshalled<B, M>(ms: seq<M>, marshal: M -> B, unmarshal: B -> Option<M>)
    requires forall m | m in ms :: unmarshal(marshal(m)) == Some(m)
    ensures Decoded(Marshalled(ms, marshal), unmarshal) == ms
  {
    if ms != [] {
      var front := ms[..|ms| - 1];
      DecodedMarshalled(front, marshal, unmarshal);
      var items := Marshalled(ms, marshal);
      assert items[..|items| - 1] == Marshalled(front, marshal);
      assert ms[|ms| - 1] in ms;
    }
  }

  function Payload<B, M>(e: Event<M>, marshal: M -> B): Event<B> {
    match e
    case Stored(uid, m) => Stored(uid, marshal(m))
    case Drained(uid) => Drained(uid)
  }

  function Payloads<B, M>(events: seq<Event<M>>, marshal: M -> B): seq<Event<B>> {
    seq(|events|, i requires 0 <= i < |events| => Payload(events[i], marshal))
  }

  lemma PayloadsSnoc<B, M>(events: seq<Event<M>>, e: Event<M>, marshal: M -> B)
    ensures Payloads(events + [e], marshal) == Payloads(events, marshal) + [Payload(e, marshal)]
  {
  }

  lemma RunSnoc<M>(b: Backend, events: seq<Event<M>>, e: Event<M>, max: nat)
    ensures Run(b, events + [e], max) == Step(b, Run(b, events, max), e, max)
  {
    assert (events + [e])[..|events|] == events;
  }

  lemma {:induction false} SinceDrainPayloads<B, M>(events: seq<Event<M>>, marshal: M -> B, uid: string)
    ensures SinceDrain(Payloads(events, marshal), uid) == Marshalled(SinceDrain(events, uid), marshal)
  {
    if events != [] {
      var front := events[..|events| - 1];
      SinceDrainPayloads(front, marshal, uid);
      assert Payloads(events, marshal)[..|events| - 1] == Payloads(front, marshal);
    }
  }

  ghost predicate RoundTrips<B(!new), M(!new)>(marshal: M -> B, unmarshal: B -> Option<M>) {
    forall m :: unmarshal(marshal(m)) == Some(m)
  }

  /** After any run a drain of the Redis list gives back what it keeps of the messages stored since the last drain, in order. */
  lemma RedisDrainReturns<B(!new), M(!new)>(events: seq<Event<M>>, max: nat, uid: string, marshal: M -> B, unmarshal: B -> Option<M>)
    requires RoundTrips(marshal, unmarshal)
    ensures Decoded(Of(Run(RedisList, Payloads(events, marshal), max), uid), unmarshal) == Held(RedisList, SinceDrain(events, uid), max)
  {
    var kept := Held(RedisList, SinceDrain(events, uid), max);
    BoundedFifo(RedisList, Payloads(events, marshal), max, uid);
    SinceDrainPayloads(events, marshal, uid);
    assert Held(RedisList, Marshalled(SinceDrain(events, uid), marshal), max) == Marshalled(kept, marshal);
    DecodedMarshalled(kept, marshal, unmarshal);
  }

  /** How a script call goes: it runs; it fails without effect; or it takes effect and its answer is lost. */
  datatype Script = Ran | Refused | Unanswered

  /** One call of the Redis store: what it was, whether it took effect in Redis, and whether it succeeded. */
  datatype Attempt<M> = Attempt(event: Event<M>, effect: bool, ok: bool)

  function Tried<M>(e: Event<M>, marshals: bool, script: Script): Attempt<M> {
    Attempt(e, marshals && script != Refused, marshals && script == Ran)
  }

  /** Redis sees what took effect there, the fallback what did not succeed. */
  predicate Seen<M>(a: Attempt<M>, b: Backend) { if b.RedisList? then a.effect else !a.ok }

  function Through<M>(log: seq<Attempt<M>>, b: Backend): seq<Event<M>> {
    if log == [] then []
    else
      var before := Through(log[..|log| - 1], b);
      if Seen(log[|log| - 1], b) then before + [log[|log| - 1].event] else before
  }

  lemma ThroughSnoc<M>(log: seq<Attempt<M>>, a: Attempt<M>, b: Backend)
    ensures Through(log + [a], b) == if Seen(a, b) then Through(log, b) + [a.event] else Through(log, b)
  {
    assert (log + [a])[..|log|] == log;
  }

  class RedisStore<B(!new), M(!new)> {
    const maxSize: nat
    const marshal: M -> B
    const unmarshal: B -> Option<M>
    const hasFallback: bool
    const fallbackMax: nat
    var lists: Queues<B>
    var fallback: Queues<M>
    ghost var log: seq<Attempt<M>>

    /** Redis has seen exactly the calls that took effect there, the fallback exactly those that failed. */
    ghost predicate Valid()
      reads this
    {
      && lists == Run(RedisList, Payloads(Through(log, RedisList), marshal), maxSize)
      && fallback == if hasFallback then Run(HubSlice, Through(log, HubSlice), fallbackMax) else map[]
    }

    constructor (maxSize: nat, marshal: M -> B, unmarshal: B -> Option<M>, hasFallback: bool, fallbackMax: nat)
      ensures Valid() && log == [] && this.maxSize == maxSize && this.marshal == marshal && this.unmarshal == unmarshal
      ensures this.hasFallback == hasFallback && this.fallbackMax == fallbackMax
    {
      this.maxSize, this.marshal, this.unmarshal := maxSize, marshal, unmarshal;
      this.hasFallback, this.fallbackMax := hasFallback, fallbackMax;
      lists, fallback, log := map[], map[], [];
    }

    ghost method Record(a: Attempt<M>)
      requires var before := Run(RedisList, Payloads(Through(log, RedisList), marshal), maxSize);
               lists == if a.effect then Step(RedisList, before, Payload(a.event, marshal), maxSize) else before
      requires var before := Run(HubSlice, Through(log, HubSlice), fallbackMax);
               fallback == if !hasFallback then map[] else if a.ok then before else Step(HubSlice, before, a.event, fallbackMax)
      modifies this`log
      ensures Valid() && log == old(log) + [a]
    {
      ThroughSnoc(log, a, RedisList);
      ThroughSnoc(log, a, HubSlice);
      PayloadsSnoc(Through(log, RedisList), a.event, marshal);
      RunSnoc(RedisList, Payloads(Through(log, RedisList), marshal), Payload(a.event, marshal), maxSize);
      RunSnoc(HubSlice, Through(log, HubSlice), a.event, fallbackMax);
      log := log + [a];
    }

    /** The message goes to the user's Redis list, and to the fallback when marshalling fails or the script reports an error. */
    method StoreOffline(uid: string, m: M, marshals: bool, script: Script)
      requires Valid()
      modifies this
      ensures Valid() && log == old(log) + [Tried(Stored(uid, m), marshals, script)]
      ensures lists == if marshals && script != Refused
                       then old(lists)[uid := Held(RedisList, Of(old(lists), uid) + [marshal(m)], maxSize)] else old(lists)
      ensures fallback == if hasFallback && (!marshals || script != Ran)
                          then old(fallback)[uid := LastN(Of(old(fallback), uid) + [m], fallbackMax)] else old(fallback)
    {
      if !marshals {
        if hasFallback { fallback := fallback[uid := Store(Of(fallback, uid), m, fallbackMax)]; }
      } else {
        if script != Refused { lists := lists[uid := StoreScript(Of(lists, uid), marshal(m), maxSize)]; }
        if script != Ran {
          if hasFallback { fallback := fallback[uid := Store(Of(fallback, uid), m, fallbackMax)]; }
        }
      }
      StoreIsLast(Of(old(fallback), uid), m, fallbackMax);
      StoreIsLast(Of(old(lists), uid), marshal(m), maxSize);
      Record(Tried(Stored(uid, m), marshals, script));
    }

    /**
     * With a faithful marshaller a working drain returns what Redis keeps of the messages that took effect there since
     * the last drain that did; a failing one returns what the fallback keeps of those that failed since the last
     * failing drain, and leaves behind, or if only its answer was lost throws away, what Redis has.
     */
    method DrainOffline(uid: string, script: Script) returns (msgs: seq<M>)
      requires Valid()
      modifies this
      ensures Valid() && log == old(log) + [Tried(Drained(uid), true, script)]
      ensures lists == if script != Refused then old(lists) - {uid} else old(lists)
      ensures fallback == if hasFallback && script != Ran then old(fallback) - {uid} else old(fallback)
      ensures script == Ran && RoundTrips(marshal, unmarshal) ==>
                msgs == Held(RedisList, SinceDrain(Through(old(log), RedisList), uid), maxSize)
      ensures script != Ran ==> msgs == if hasFallback then LastN(SinceDrain(Through(old(log), HubSlice), uid), fallbackMax) else []
    {
      msgs := [];
      var items := Of(lists, uid);
      if script != Refused { lists := lists - {uid}; }
      if script != Ran {
        if hasFallback {
          BoundedFifo(HubSlice, Through(log, HubSlice), fallbackMax, uid);
          msgs := Of(fallback, uid);
          fallback := fallback - {uid};
        }
      } else {
        msgs := DecodeAll(items);
        if RoundTrips(marshal, unmarshal) {
          RedisDrainReturns(Through(log, RedisList), maxSize, uid, marshal, unmarshal);
        }
      }
      Record(Tried(Drained(uid), true, script));
    }

    /** Payloads that do not decode are skipped. */
    method DecodeAll(items: seq<B>) returns (msgs: seq<M>)
      ensures msgs == Decoded(items, unmarshal)
    {
      msgs := [];
      for i := 0 to |items|
        invariant msgs == Decoded(items[..i], unmarshal)
      {
        assert items[..i + 1][..i] == items[..i];
        match unmarshal(items[i]) {
          case Some(m) => msgs := msgs + [m];
          case None =>
        }
      }
      assert items[..|items|] == items;
    }
  }
}
