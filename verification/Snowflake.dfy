/**
 * The ID generator of internal/pkg/snowflake/snowflake.go. IDs are integers below 2^63; BitsAreSums justifies
 * writing the shifted-and-ORed fields as a sum. The clock is an arbitrary list
 * of readings; a call that runs out of readings is still waiting and has returned nothing.
 */
module Snowflake {

  const EPOCH: int := 1704067200000
  const SEQUENCES: int := 4096
  const WORKERS: int := 1024
  const TICK: int := SEQUENCES * WORKERS
  const SPAN: int := 0x200_0000_0000
  const MAX_BACKOFF: int := 10

  datatype State = State(worker: int, sequence: int, last: int)
  datatype Outcome = Issued(id: int, next: State) | Severe | Waiting

  function Pack(now: int, worker: int, sequence: int): int {
    (now - EPOCH) * TICK + worker * SEQUENCES + sequence
  }

  /** On disjoint fields the bit operations of the source are that sum, with no carry and no overflow. */
  lemma BitsAreSums(ticks: bv64, worker: bv64, sequence: bv64)
    requires ticks < 0x200_0000_0000 && worker < 1024 && sequence < 4096
    ensures (ticks << 22) | (worker << 12) | sequence == ticks * 0x40_0000 + worker * 0x1000 + sequence
    ensures (ticks << 22) | (worker << 12) | sequence < 0x8000_0000_0000_0000
    ensures ((ticks << 22) | (worker << 12) | sequence) >> 22 == ticks
  {
  }

  function ExtractTimestamp(id: int): int { id / TICK + EPOCH }

  function WorkerOf(id: int): int { (id / SEQUENCES) % WORKERS }

  /** The first reading from `i` on that is >= last, or > last when `strict`; |clock| when there is none. */
  function First(clock: seq<int>, i: nat, last: int, strict: bool): (j: nat)
    requires i <= |clock|
    ensures i <= j <= |clock|
    ensures j < |clock| ==> last <= clock[j] && (strict ==> clock[j] != last)
    ensures forall k | i <= k < j :: clock[k] < last || (strict && clock[k] == last)
    decreases |clock| - i
  {
    if i == |clock| || last < clock[i] || (!strict && last == clock[i]) then i
    else First(clock, i + 1, last, strict)
  }

  function Issue(g: State, now: int, sequence: int): Outcome {
    Issued(Pack(now, g.worker, sequence), State(g.worker, sequence, now))
  }

  function Next(g: State, clock: seq<int>): Outcome {
    if clock == [] then Waiting
    else if clock[0] < g.last && g.last - clock[0] > MAX_BACKOFF then Severe
    else
      var j := First(clock, 0, g.last, false);
      if j == |clock| then Waiting
      else if clock[j] != g.last then Issue(g, clock[j], 0)
      else
        var sequence := (g.sequence + 1) % SEQUENCES;
        if sequence != 0 then Issue(g, clock[j], sequence)
        else
          var k := First(clock, j, g.last, true);
          if k == |clock| then Waiting else Issue(g, clock[k], 0)
  }

  // ---- bit packing ---------------------------------------------------------------------

  predicate InRange(now: int) { EPOCH < now < EPOCH + SPAN }

  lemma PackFields(now: int, worker: int, sequence: int)
    requires InRange(now) && 0 <= worker < WORKERS && 0 <= sequence < SEQUENCES
    ensures ExtractTimestamp(Pack(now, worker, sequence)) == now
    ensures WorkerOf(Pack(now, worker, sequence)) == worker
    ensures 0 < Pack(now, worker, sequence) < 0x8000_0000_0000_0000
  {
    TimestampField(now - EPOCH, worker * SEQUENCES + sequence);
    WorkerField(now - EPOCH, worker, sequence);
  }

  lemma TimestampField(ticks: int, low: int)
    requires 0 <= low < TICK
    ensures (ticks * TICK + low) / TICK == ticks
  {
  }

  lemma WorkerField(ticks: int, worker: int, sequence: int)
    requires 0 <= worker < WORKERS && 0 <= sequence < SEQUENCES
    ensures (ticks * TICK + worker * SEQUENCES + sequence) / SEQUENCES % WORKERS == worker
  {
    assert (ticks * TICK + worker * SEQUENCES + sequence) / SEQUENCES == ticks * WORKERS + worker;
  }

  lemma PackOrder(t1: int, s1: int, t2: int, s2: int, worker: int)
    requires 0 <= s1 < SEQUENCES && 0 <= s2 < SEQUENCES
    requires t1 < t2 || (t1 == t2 && s1 < s2)
    ensures Pack(t1, worker, s1) < Pack(t2, worker, s2)
  {
  }

  // ---- one call ----------------------------------------------------------------------------

  predicate Inv(g: State) {
    && 0 <= g.worker < WORKERS && 0 <= g.sequence < SEQUENCES
    && (InRange(g.last) || (g.last == 0 && g.sequence == 0))
  }

  /** The last ID issued; 0 before the first. */
  function Floor(g: State): int {
    if g.last == 0 then 0 else Pack(g.last, g.worker, g.sequence)
  }

  ghost predicate Sound(clock: seq<int>) { forall t | t in clock :: InRange(t) }

  /** Every ID issued is above all earlier ones and carries the clock reading and the worker it was made with. */
  lemma NextIncreases(g: State, clock: seq<int>)
    requires Inv(g) && Sound(clock) && Next(g, clock).Issued?
    ensures var Issued(id, g1) := Next(g, clock);
            && Inv(g1) && g1.worker == g.worker && Floor(g1) == id
            && Floor(g) < id < 0x8000_0000_0000_0000
            && g1.last in clock && ExtractTimestamp(id) == g1.last && WorkerOf(id) == g.worker
  {
    var Issued(id, g1) := Next(g, clock);
    assert g1.last in clock;
    PackFields(g1.last, g1.worker, g1.sequence);
    if g.last != 0 {
      PackOrder(g.last, g.sequence, g1.last, g1.sequence, g.worker);
    }
  }

  /** A call gives up, without an ID, exactly when the clock has gone back by more than 10 ms. */
  lemma SevereIff(g: State, clock: seq<int>)
    ensures Next(g, clock).Severe? <==> clock != [] && g.last - clock[0] > 10
  {
  }

  /** A reading will do if it is later than the last one used, or equal to it while its 4096 numbers are not used up. */
  predicate Usable(g: State, t: int) { t > g.last || (t == g.last && g.sequence != 4095) }

  /** Otherwise it waits for the first usable reading, and no longer. */
  lemma WaitsForFirstUsable(g: State, clock: seq<int>)
    requires Inv(g) && !Next(g, clock).Severe?
    ensures Next(g, clock).Issued? <==> exists i :: 0 <= i < |clock| && Usable(g, clock[i])
    ensures Next(g, clock).Issued? ==>
              exists j :: 0 <= j < |clock| && clock[j] == Next(g, clock).next.last && Usable(g, clock[j])
                          && forall i | 0 <= i < j :: !Usable(g, clock[i])
  {
    if clock != [] {
      var j := First(clock, 0, g.last, false);
      if j < |clock| && clock[j] == g.last && g.sequence == 4095 {
        var k := First(clock, j, g.last, true);
        assert forall i | 0 <= i < k :: !Usable(g, clock[i]);
        if k < |clock| { assert Usable(g, clock[k]); }
      } else {
        assert forall i | 0 <= i < j :: !Usable(g, clock[i]);
        if j < |clock| { assert Usable(g, clock[j]); }
      }
    }
  }

  /** Numbers start at 0 in every millisecond and grow by 1 within it; the ID spells out reading, worker and number. */
  lemma NumbersInTick(g: State, clock: seq<int>)
    requires Inv(g) && Next(g, clock).Issued?
    ensures var Issued(id, g1) := Next(g, clock);
            && g1.last >= g.last && g1.sequence == (if g1.last == g.last then g.sequence + 1 else 0)
            && id == (g1.last - 1704067200000) * 4194304 + g.worker * 4096 + g1.sequence
  {
  }

  // ---- whole runs ----------------------------------------------------------------------------

  /** The values returned by a sequence of calls: an ID, or 0 for a severe rollback. */
  function Results(g: State, calls: seq<seq<int>>): seq<int>
    decreases |calls|
  {
    if calls == [] then []
    else
      match Next(g, calls[0])
      case Issued(id, g1) => [id] + Results(g1, calls[1..])
      case Severe => [0] + Results(g, calls[1..])
      case Waiting => []
  }

  ghost predicate AllSound(calls: seq<seq<int>>) { forall c | c in calls :: Sound(c) }

  /** Among the nonzero results each is greater than everything before it. */
  ghost predicate Increasing(ids: seq<int>) {
    forall i, j | 0 <= i < j < |ids| && ids[i] != 0 && ids[j] != 0 :: ids[i] < ids[j]
  }

  lemma {:induction false} ResultsIncrease(g: State, calls: seq<seq<int>>)
    requires Inv(g) && AllSound(calls)
    ensures Increasing(Results(g, calls))
    ensures forall id | id in Results(g, calls) && id != 0 :: Floor(g) < id && WorkerOf(id) == g.worker
    decreases |calls|
  {
    if calls != [] {
      assert calls[0] in calls;
      match Next(g, calls[0])
      case Issued(id, g1) =>
        NextIncreases(g, calls[0]);
        ResultsIncrease(g1, calls[1..]);
        var rest := Results(g1, calls[1..]);
        assert forall i | 0 <= i < |rest| :: rest[i] in rest;
      case Severe => ResultsIncrease(g, calls[1..]);
      case Waiting =>
    }
  }

  /** Generators with different workers never issue the same ID, whatever their clocks do. */
  lemma WorkersDisjoint(a: State, callsA: seq<seq<int>>, b: State, callsB: seq<seq<int>>, id: int)
    requires Inv(a) && Inv(b) && a.worker != b.worker && AllSound(callsA) && AllSound(callsB)
    requires id in Results(a, callsA) && id in Results(b, callsB)
    ensures id == 0
  {
    ResultsIncrease(a, callsA);
    ResultsIncrease(b, callsB);
  }

  // ---- the class --------------------------------------------------------------------------------

  datatype Result<T> = Ok(value: T) | Err

  /** New's check: only workers 0..1023 get a generator. */
  function New(worker: int): (r: Result<State>)
    ensures r.Ok? <==> 0 <= worker < WORKERS
    ensures r.Ok? ==> Inv(r.value) && Floor(r.value) == 0
  {
    if worker < 0 || worker >= WORKERS then Err else Ok(State(worker, 0, 0))
  }

  class Generator {
    const worker: int
    var sequence: int
    var last: int

    ghost function Abs(): State
      reads this
    {
      State(worker, sequence, last)
    }

    constructor (g: State)
      ensures Abs() == g
    {
      worker, sequence, last := g.worker, g.sequence, g.last;
    }

    /** Returns Err while it still waits for the clock; 0 signals a severe rollback. */
    method NextId(clock: seq<int>) returns (id: Result<int>)
      modifies this
      ensures match Next(old(Abs()), clock)
              case Issued(x, g) => id == Ok(x) && Abs() == g
              case Severe => id == Ok(0) && Abs() == old(Abs())
              case Waiting => id == Err
    {
      var pos := 0;
      if pos == |clock| { return Err; }
      var now := clock[pos];
      if now < last {
        if last - now > MAX_BACKOFF { return Ok(0); }
        while now < last
          invariant pos < |clock| && now == clock[pos]
          invariant First(clock, 0, last, false) == First(clock, pos, last, false)
          invariant Abs() == old(Abs())
          decreases |clock| - pos
        {
          pos := pos + 1;
          if pos == |clock| { return Err; }
          now := clock[pos];
        }
      }
      assert pos == First(clock, 0, last, false);
      if now == last {
        ghost var from := pos;
        sequence := (sequence + 1) % SEQUENCES;
        if sequence == 0 {
          while now <= last
            invariant pos < |clock| && now == clock[pos]
            invariant First(clock, from, last, true) == First(clock, pos, last, true)
            invariant last == old(last) && sequence == 0
            decreases |clock| - pos
          {
            pos := pos + 1;
            if pos == |clock| { return Err; }
            now := clock[pos];
          }
        }
      } else {
        sequence := 0;
      }
      last := now;
      return Ok(Pack(now, worker, sequence));
    }
  }
}
