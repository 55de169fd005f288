/**
 * The batching consumer of internal/mq/consumer.go with a store configured: the fetch loop, any number of
 * flushAll calls in progress at once, and the commits, interleaved step by step. A record is its offset.
 */
module Consumer {

  const MAX_BUFFER: nat := 10000
  type Record = nat

  /** One flushAll in progress: records still to save, and records saved but not yet passed to commit. */
  datatype Flight = Flight(todo: seq<Record>, saved: seq<Record>)

  datatype State = State(
    fetched: multiset<Record>,
    buffer: seq<Record>,
    flights: seq<Flight>,
    malformed: multiset<Record>,
    saved: multiset<Record>,
    failed: multiset<Record>,
    dropped: multiset<Record>,
    dropping: seq<Record>,          // dropped, with the committing goroutine not yet run
    committed: multiset<Record>)    // passed to CommitMessages

  const START := State(multiset{}, [], [], multiset{}, multiset{}, multiset{}, multiset{}, [], multiset{})

  datatype Event =
    | FetchMalformed(r: Record)
    | FetchGood(r: Record)
    | CommitDropped(j: nat)   // each dropped record has its own goroutine
    | SwapBuffer
    | Save(i: nat, ok: bool)
    | CommitBatch(i: nat)

  predicate Enabled(s: State, e: Event) {
    match e
    case CommitDropped(j) => j < |s.dropping|
    case SwapBuffer => s.buffer != []
    case Save(i, _) => i < |s.flights| && s.flights[i].todo != []
    case CommitBatch(i) => i < |s.flights| && s.flights[i].todo == []
    case _ => true
  }

  /** Run's buffering: at capacity the oldest record makes room. */
  function Push(buffer: seq<Record>, r: Record): (seq<Record>, seq<Record>) {
    if |buffer| >= MAX_BUFFER then (buffer[1..] + [r], [buffer[0]]) else (buffer + [r], [])
  }

  function Step(s: State, e: Event): State
    requires Enabled(s, e)
  {
    match e
    case FetchMalformed(r) =>
      s.(fetched := s.fetched + multiset{r}, malformed := s.malformed + multiset{r}, committed := s.committed + multiset{r})
    case FetchGood(r) =>
      var (buffer, out) := Push(s.buffer, r);
      s.(fetched := s.fetched + multiset{r}, buffer := buffer, dropped := s.dropped + multiset(out), dropping := s.dropping + out)
    case CommitDropped(j) =>
      s.(dropping := s.dropping[..j] + s.dropping[j + 1..], committed := s.committed + multiset{s.dropping[j]})
    case SwapBuffer => s.(buffer := [], flights := s.flights + [Flight(s.buffer, [])])
    case Save(i, ok) =>
      var f := s.flights[i];
      var r := f.todo[0];
      if ok then s.(flights := s.flights[i := Flight(f.todo[1..], f.saved + [r])], saved := s.saved + multiset{r})
      else s.(flights := s.flights[i := Flight(f.todo[1..], f.saved)], failed := s.failed + multiset{r})
    case CommitBatch(i) =>
      s.(flights := s.flights[i := Flight([], [])], committed := s.committed + multiset(s.flights[i].saved))
  }

  // ---- totals over the flights -------------------------------------------------------------

  function Count(q: seq<Record>, r: Record): nat { multiset(q)[r] }

  function TodoCount(fs: seq<Flight>, r: Record): nat {
    if fs == [] then 0 else TodoCount(fs[..|fs| - 1], r) + Count(fs[|fs| - 1].todo, r)
  }

  function SavedCount(fs: seq<Flight>, r: Record): nat {
    if fs == [] then 0 else SavedCount(fs[..|fs| - 1], r) + Count(fs[|fs| - 1].saved, r)
  }

  lemma {:induction false} FlightChange(fs: seq<Flight>, i: nat, f: Flight, r: Record)
    requires i < |fs|
    ensures TodoCount(fs[i := f], r) + Count(fs[i].todo, r) == TodoCount(fs, r) + Count(f.todo, r)
    ensures SavedCount(fs[i := f], r) + Count(fs[i].saved, r) == SavedCount(fs, r) + Count(f.saved, r)
  {
    var n := |fs| - 1;
    if i == n {
      assert fs[i := f][..n] == fs[..n];
    } else {
      FlightChange(fs[..n], i, f, r);
      assert fs[i := f][..n] == fs[..n][i := f];
    }
  }

  lemma FlightAdded(fs: seq<Flight>, f: Flight, r: Record)
    ensures TodoCount(fs + [f], r) == TodoCount(fs, r) + Count(f.todo, r)
    ensures SavedCount(fs + [f], r) == SavedCount(fs, r) + Count(f.saved, r)
  {
    assert (fs + [f])[..|fs|] == fs;
  }

  // ---- the accounting -------------------------------------------------------------------------

  /** Every fetched record is in exactly one place, as often as it was fetched. */
  ghost predicate Accounted(s: State, r: Record) {
    s.fetched[r] == s.malformed[r] + Count(s.buffer, r) + TodoCount(s.flights, r) + s.saved[r] + s.failed[r] + s.dropped[r]
  }

  /** Every malformed, saved or dropped record is passed to commit once, or still has its commit ahead. */
  ghost predicate Committing(s: State, r: Record) {
    s.committed[r] + SavedCount(s.flights, r) + Count(s.dropping, r) == s.malformed[r] + s.saved[r] + s.dropped[r]
  }

  ghost predicate Inv(s: State) {
    |s.buffer| <= MAX_BUFFER && forall r :: Accounted(s, r) && Committing(s, r)
  }

  lemma HeadAndTail(q: seq<Record>, r: Record)
    requires q != []
    ensures Count(q, r) == Count(q[1..], r) + if q[0] == r then 1 else 0
  {
    assert q == [q[0]] + q[1..];
  }

  lemma TakeOut(q: seq<Record>, j: nat, r: Record)
    requires j < |q|
    ensures Count(q, r) == Count(q[..j] + q[j + 1..], r) + if q[j] == r then 1 else 0
  {
    assert q == q[..j] + [q[j]] + q[j + 1..];
  }

  lemma Snoc(q: seq<Record>, x: Record, r: Record)
    ensures Count(q + [x], r) == Count(q, r) + if x == r then 1 else 0
  {
  }

  lemma FetchAccounts(s: State, x: Record, r: Record)
    requires Accounted(s, r) && Committing(s, r)
    ensures var t := Step(s, FetchGood(x)); Accounted(t, r) && Committing(t, r)
  {
    if |s.buffer| >= MAX_BUFFER {
      HeadAndTail(s.buffer, r);
      Snoc(s.buffer[1..], x, r);
      Snoc(s.dropping, s.buffer[0], r);
    } else {
      Snoc(s.buffer, x, r);
      assert s.dropping + [] == s.dropping;
    }
  }

  lemma SaveAccounts(s: State, i: nat, ok: bool, r: Record)
    requires Enabled(s, Save(i, ok)) && Accounted(s, r) && Committing(s, r)
    ensures var t := Step(s, Save(i, ok)); Accounted(t, r) && Committing(t, r)
  {
    var f := s.flights[i];
    HeadAndTail(f.todo, r);
    Snoc(f.saved, f.todo[0], r);
    FlightChange(s.flights, i, Flight(f.todo[1..], if ok then f.saved + [f.todo[0]] else f.saved), r);
  }

  lemma StepAccounts(s: State, e: Event, r: Record)
    requires Enabled(s, e) && Accounted(s, r) && Committing(s, r)
    ensures var t := Step(s, e); Accounted(t, r) && Committing(t, r)
  {
    match e
    case FetchMalformed(x) =>
    case FetchGood(x) => FetchAccounts(s, x, r);
    case CommitDropped(j) => TakeOut(s.dropping, j, r);
    case SwapBuffer => FlightAdded(s.flights, Flight(s.buffer, []), r);
    case Save(i, ok) => SaveAccounts(s, i, ok, r);
    case CommitBatch(i) => FlightChange(s.flights, i, Flight([], []), r);
  }

  lemma StepKeepsInv(s: State, e: Event)
    requires Inv(s) && Enabled(s, e)
    ensures Inv(Step(s, e))
  {
    forall r
      ensures Accounted(Step(s, e), r) && Committing(Step(s, e), r)
    {
      StepAccounts(s, e, r);
    }
  }

  ghost predicate Execution(events: seq<Event>, states: seq<State>) {
    && |states| == |events| + 1 && states[0] == START
    && forall k | 0 <= k < |events| :: Enabled(states[k], events[k]) && states[k + 1] == Step(states[k], events[k])
  }

  /** The accounting holds after every interleaving. */
  lemma {:induction false} ReachableInv(events: seq<Event>, states: seq<State>, k: nat)
    requires Execution(events, states) && k <= |events|
    ensures Inv(states[k])
  {
    if k > 0 {
      ReachableInv(events, states, k - 1);
      StepKeepsInv(states[k - 1], events[k - 1]);
    }
  }

  /** With distinct offsets: what was passed to commit was saved, malformed or dropped, and nothing is in two places. */
  lemma ReachablePlaces(events: seq<Event>, states: seq<State>, k: nat, r: Record)
    requires Execution(events, states) && k <= |events|
    ensures var s := states[k];
            && |s.buffer| <= 10000
            && (r in s.committed ==> r in s.malformed || r in s.saved || r in s.dropped)
            && (s.fetched[r] == 1 ==>
                  s.malformed[r] + Count(s.buffer, r) + TodoCount(s.flights, r) + s.saved[r] + s.failed[r] + s.dropped[r] == 1
                  && s.committed[r] <= 1 && (r in s.failed ==> r !in s.committed))
  {
    ReachableInv(events, states, k);
    assert Accounted(states[k], r) && Committing(states[k], r);
  }

  /** The records fetched whole since the buffer was last swapped out, in the order of fetching. */
  function SinceSwap(events: seq<Event>): seq<Record> {
    if events == [] then []
    else
      var before := SinceSwap(events[..|events| - 1]);
      match events[|events| - 1]
      case FetchGood(r) => before + [r]
      case SwapBuffer => []
      case _ => before
  }

  function Newest(q: seq<Record>, n: nat): seq<Record> { if |q| <= n then q else q[|q| - n..] }

  /** The buffer is the newest 10000 of them, in that order: what is dropped is always the oldest. */
  lemma {:induction false} BufferIsNewest(events: seq<Event>, states: seq<State>, k: nat)
    requires Execution(events, states) && k <= |events|
    ensures states[k].buffer == Newest(SinceSwap(events[..k]), 10000)
  {
    if k > 0 {
      BufferIsNewest(events, states, k - 1);
      assert events[..k][..k - 1] == events[..k - 1];
      assert states[k] == Step(states[k - 1], events[k - 1]);
      if events[k - 1].FetchGood? { PushKeepsNewest(SinceSwap(events[..k - 1]), events[k - 1].r); }
    }
  }

  lemma PushKeepsNewest(q: seq<Record>, r: Record)
    ensures Push(Newest(q, 10000), r).0 == Newest(q + [r], 10000)
    ensures Push(Newest(q, 10000), r).1 == if |q| < 10000 then [] else [q[|q| - 10000]]
  {
    if |q| >= 10000 {
      assert Newest(q, 10000)[1..] + [r] == (q + [r])[|q| + 1 - 10000..];
    }
  }

  /** Once no flush and no drop is in progress, exactly the malformed, saved and dropped records were passed to commit. */
  lemma QuiescentCommits(events: seq<Event>, states: seq<State>, k: nat)
    requires Execution(events, states) && k <= |events|
    requires states[k].dropping == [] && forall i | 0 <= i < |states[k].flights| :: states[k].flights[i] == Flight([], [])
    ensures states[k].committed == states[k].malformed + states[k].saved + states[k].dropped
  {
    ReachableInv(events, states, k);
    var s := states[k];
    forall r
      ensures s.committed[r] == s.malformed[r] + s.saved[r] + s.dropped[r]
    {
      assert Committing(s, r);
      NothingSaved(s.flights, r);
    }
  }

  lemma {:induction false} NothingSaved(fs: seq<Flight>, r: Record)
    requires forall i | 0 <= i < |fs| :: fs[i] == Flight([], [])
    ensures SavedCount(fs, r) == 0
  {
    if fs != [] {
      NothingSaved(fs[..|fs| - 1], r);
    }
  }

  // ---- the class ---------------------------------------------------------------------------------

  function Kept(batch: seq<Record>, ok: Record -> bool): seq<Record> {
    if batch == [] then []
    else
      var rest := Kept(batch[..|batch| - 1], ok);
      if ok(batch[|batch| - 1]) then rest + [batch[|batch| - 1]] else rest
  }

  /** One turn of flushAll's loop is one Save event of its flight. */
  lemma LoopTurnIsSave(s: State, i: nat, batch: seq<Record>, done: nat, save: Record -> bool)
    requires i < |s.flights| && done < |batch|
    requires s.flights[i] == Flight(batch[done..], Kept(batch[..done], save))
    ensures Step(s, Save(i, save(batch[done]))).flights[i] == Flight(batch[done + 1..], Kept(batch[..done + 1], save))
  {
    assert batch[done..][0] == batch[done] && batch[done..][1..] == batch[done + 1..];
    assert batch[..done + 1][..done] == batch[..done];
  }

  // One flushAll from swap to commit, alone on its flight.

  function Saves(s: State, i: nat, save: Record -> bool): (t: State)
    requires i < |s.flights|
    ensures |t.flights| == |s.flights| && t.flights[i].todo == []
    decreases |s.flights[i].todo|
  {
    var todo := s.flights[i].todo;
    if todo == [] then s else Saves(Step(s, Save(i, save(todo[0]))), i, save)
  }

  function Flush(s: State, save: Record -> bool): State
    requires s.buffer != []
  {
    Step(Saves(Step(s, SwapBuffer), |s.flights|, save), CommitBatch(|s.flights|))
  }

  lemma {:induction false} KeptCons(r: Record, batch: seq<Record>, save: Record -> bool)
    ensures Kept([r] + batch, save) == (if save(r) then [r] else []) + Kept(batch, save)
  {
    if batch == [] {
      assert ([r] + batch)[..0] == [];
    } else {
      var n := |batch| - 1;
      KeptCons(r, batch[..n], save);
      assert ([r] + batch)[..|batch|] == [r] + batch[..n];
    }
  }

  /** From s to t flight i has gone through `todo` and saved `kept` of it. */
  ghost predicate WorkedOff(s: State, t: State, i: nat, todo: seq<Record>, kept: seq<Record>) {
    && i < |s.flights| && i < |t.flights|
    && t == s.(flights := t.flights, saved := t.saved, failed := t.failed)
    && t.flights[i] == Flight([], s.flights[i].saved + kept)
    && t.saved == s.saved + multiset(kept)
    && t.saved + t.failed == s.saved + s.failed + multiset(todo)
  }

  lemma SaveThenWorkOff(s: State, i: nat, ok: bool, t: State, kept: seq<Record>)
    requires i < |s.flights| && s.flights[i].todo != []
    requires WorkedOff(Step(s, Save(i, ok)), t, i, s.flights[i].todo[1..], kept)
    ensures WorkedOff(s, t, i, s.flights[i].todo, (if ok then [s.flights[i].todo[0]] else []) + kept)
  {
    var f := s.flights[i];
    var r := f.todo[0];
    assert f.todo == [r] + f.todo[1..];
    if ok {
      assert f.saved + [r] + kept == f.saved + ([r] + kept);
      assert multiset([r] + kept) == multiset{r} + multiset(kept);
      Sums(s.saved, s.failed, multiset{r}, multiset(kept), multiset(f.todo[1..]));
    } else {
      assert [] + kept == kept;
      Sums(s.saved, s.failed, multiset{r}, multiset(kept), multiset(f.todo[1..]));
    }
  }

  lemma Sums(saved: multiset<Record>, failed: multiset<Record>, one: multiset<Record>, kept: multiset<Record>, rest: multiset<Record>)
    ensures (saved + one) + kept == saved + (one + kept)
    ensures ((saved + one) + failed) + rest == (saved + failed) + (one + rest)
    ensures (saved + (failed + one)) + rest == (saved + failed) + (one + rest)
  {
  }

  lemma {:induction false} SavesEffect(s: State, i: nat, save: Record -> bool)
    requires i < |s.flights|
    ensures WorkedOff(s, Saves(s, i, save), i, s.flights[i].todo, Kept(s.flights[i].todo, save))
    decreases |s.flights[i].todo|
  {
    var f := s.flights[i];
    if f.todo == [] {
      assert f.saved + [] == f.saved;
    } else {
      var r, rest := f.todo[0], f.todo[1..];
      var s1 := Step(s, Save(i, save(r)));
      SavesEffect(s1, i, save);
      SaveThenWorkOff(s, i, save(r), Saves(s1, i, save), Kept(rest, save));
      KeptCons(r, rest, save);
      assert f.todo == [r] + rest;
    }
  }

  /** A whole flush empties the buffer, commits exactly the records the store kept, and loses track of none. */
  lemma FlushEffect(s: State, save: Record -> bool)
    requires s.buffer != []
    ensures var t := Flush(s, save);
            && t.buffer == []
            && t.committed == s.committed + multiset(Kept(s.buffer, save))
            && t.saved == s.saved + multiset(Kept(s.buffer, save))
            && t.saved + t.failed == s.saved + s.failed + multiset(s.buffer)
  {
    SavesEffect(Step(s, SwapBuffer), |s.flights|, save);
    assert [] + Kept(s.buffer, save) == Kept(s.buffer, save);
  }

  lemma {:induction false} SavesKeepInv(s: State, i: nat, save: Record -> bool)
    requires Inv(s) && i < |s.flights|
    ensures Inv(Saves(s, i, save))
    decreases |s.flights[i].todo|
  {
    var todo := s.flights[i].todo;
    if todo != [] {
      StepKeepsInv(s, Save(i, save(todo[0])));
      SavesKeepInv(Step(s, Save(i, save(todo[0]))), i, save);
    }
  }

  lemma FlushKeepsInv(s: State, save: Record -> bool)
    requires Inv(s) && s.buffer != []
    ensures Inv(Flush(s, save))
  {
    var s1 := Step(s, SwapBuffer);
    StepKeepsInv(s, SwapBuffer);
    SavesKeepInv(s1, |s.flights|, save);
    StepKeepsInv(Saves(s1, |s.flights|, save), CommitBatch(|s.flights|));
  }

  /** Without a store every record counts as written. */
  function Written(hasStore: bool, save: Record -> bool): Record -> bool {
    if hasStore then save else r => true
  }

  lemma {:induction false} KeptMembers(batch: seq<Record>, save: Record -> bool)
    ensures forall r :: r in Kept(batch, save) <==> r in batch && save(r)
    ensures (forall r | r in batch :: save(r)) ==> Kept(batch, save) == batch
  {
    if batch != [] {
      var front, last := batch[..|batch| - 1], batch[|batch| - 1];
      KeptMembers(front, save);
      assert batch == front + [last];
      assert last in batch;
    }
  }

  class BatchConsumer {
    const hasStore: bool
    var buffer: seq<Record>
    /** The interleaved machine, of which this consumer runs one schedule. */
    ghost var machine: State

    ghost predicate Valid()
      reads this
    {
      Inv(machine) && machine.buffer == buffer
    }

    constructor (hasStore: bool)
      ensures Valid() && machine == START && this.hasStore == hasStore
    {
      this.hasStore, buffer, machine := hasStore, [], START;
    }

    /** A record that does not unmarshal is passed to commit and skipped. */
    method SkipMalformed(r: Record) returns (commit: seq<Record>)
      requires Valid()
      modifies this
      ensures Valid() && machine == Step(old(machine), FetchMalformed(r))
      ensures machine.committed == old(machine).committed + multiset(commit)
    {
      StepKeepsInv(machine, FetchMalformed(r));
      machine := Step(machine, FetchMalformed(r));
      commit := [r];
    }

    /** Buffers a record; returns what had to be dropped, and whether a flush is due. */
    method Add(r: Record) returns (dropped: seq<Record>, shouldFlush: bool)
      requires Valid()
      modifies this
      ensures Valid() && machine == Step(old(machine), FetchGood(r))
      ensures machine.dropping == old(machine).dropping + dropped
      ensures shouldFlush <==> |buffer| >= 100
    {
      StepKeepsInv(machine, FetchGood(r));
      machine := Step(machine, FetchGood(r));
      dropped := [];
      if |buffer| >= MAX_BUFFER {
        dropped := [buffer[0]];
        buffer := buffer[1..];
      }
      buffer := buffer + [r];
      shouldFlush := |buffer| >= 100;
    }

    /** Swaps the buffer out and saves it record by record; the result is what is passed to commit. */
    method FlushAll(save: Record -> bool) returns (succeeded: seq<Record>)
      requires Valid()
      modifies this
      ensures Valid() && buffer == []
      ensures machine == if old(buffer) == [] then old(machine) else Flush(old(machine), Written(hasStore, save))
      ensures succeeded == Kept(old(buffer), Written(hasStore, save))
      ensures machine.committed == old(machine).committed + multiset(succeeded)
      ensures !hasStore ==> succeeded == old(buffer)
      ensures hasStore ==> forall r :: r in succeeded <==> r in old(buffer) && save(r)
    {
      KeptMembers(buffer, Written(hasStore, save));
      if |buffer| == 0 { return []; }
      ghost var keeps := Written(hasStore, save);
      FlushKeepsInv(machine, keeps);
      FlushEffect(machine, keeps);
      var batch := buffer;
      ghost var i := |machine.flights|;
      buffer, machine := [], Step(machine, SwapBuffer);
      succeeded, machine := SaveBatch(batch, save, machine, i);
      machine := Step(machine, CommitBatch(i));
    }

    /** The loops of FlushAll: with a store each record is saved in turn, without one all are taken as written. */
    method SaveBatch(batch: seq<Record>, save: Record -> bool, ghost s: State, ghost i: nat)
      returns (succeeded: seq<Record>, ghost m: State)
      requires i < |s.flights| && s.flights[i] == Flight(batch, [])
      ensures succeeded == Kept(batch, Written(hasStore, save)) && m == Saves(s, i, Written(hasStore, save))
    {
      ghost var keeps := Written(hasStore, save);
      m, succeeded := s, [];
      WorkedStart(s, i, batch, keeps);
      if !hasStore {
        for k := 0 to |batch|
          invariant Worked(s, m, i, batch, k, keeps) && succeeded == Kept(batch[..k], keeps)
        {
          SaveTurn(s, m, i, batch, k, keeps);
          m := Step(m, Save(i, true));
          succeeded := succeeded + [batch[k]];
        }
      } else {
        for k := 0 to |batch|
          invariant Worked(s, m, i, batch, k, keeps) && succeeded == Kept(batch[..k], keeps)
        {
          SaveTurn(s, m, i, batch, k, keeps);
          var ok := save(batch[k]);
          m := Step(m, Save(i, ok));
          if ok { succeeded := succeeded + [batch[k]]; }
        }
      }
      WorkedEnd(s, m, i, batch, keeps);
    }
  }

  /** From s on, flight i has worked off the first k records of its batch and will end where Saves ends. */
  ghost predicate Worked(s: State, m: State, i: nat, batch: seq<Record>, k: nat, save: Record -> bool) {
    && k <= |batch| && i < |s.flights| && i < |m.flights|
    && m.flights[i] == Flight(batch[k..], Kept(batch[..k], save))
    && Saves(m, i, save) == Saves(s, i, save)
  }

  lemma WorkedStart(s: State, i: nat, batch: seq<Record>, save: Record -> bool)
    requires i < |s.flights| && s.flights[i] == Flight(batch, [])
    ensures Worked(s, s, i, batch, 0, save)
  {
    assert batch[0..] == batch && batch[..0] == [];
  }

  lemma WorkedEnd(s: State, m: State, i: nat, batch: seq<Record>, save: Record -> bool)
    requires Worked(s, m, i, batch, |batch|, save)
    ensures m == Saves(s, i, save) && Kept(batch[..|batch|], save) == Kept(batch, save)
  {
    assert batch[..|batch|] == batch && batch[|batch|..] == [];
  }

  lemma SaveTurn(s: State, m: State, i: nat, batch: seq<Record>, k: nat, save: Record -> bool)
    requires Worked(s, m, i, batch, k, save) && k < |batch|
    ensures Enabled(m, Save(i, save(batch[k]))) && Worked(s, Step(m, Save(i, save(batch[k]))), i, batch, k + 1, save)
    ensures Kept(batch[..k + 1], save) == Kept(batch[..k], save) + if save(batch[k]) then [batch[k]] else []
  {
    LoopTurnIsSave(m, i, batch, k, save);
    assert batch[k..][0] == batch[k];
    assert batch[..k + 1][..k] == batch[..k];
  }
}
