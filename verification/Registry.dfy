/**
 * The connection registry of internal/gateway/hub.go as interleaved steps: Register's locked swap, its
 * later unlocked close, and Unregister. A Cid is the identity of a client (its *Client pointer).
 */
module Registry {

  type Cid = nat

  /** `pending` holds the clients some Register call still has to close. */
  datatype State = State(clients: map<string, Cid>, closed: set<Cid>, pending: set<Cid>)

  datatype Event =
    | Swap(c: Cid)        // the locked part of Register
    | Finish(c: Cid)      // the unlocked part: kick and close
    | Unregister(c: Cid)
    | Hangup(c: Cid)      // the connection closes itself

  datatype World = World(uidOf: Cid -> string, max: int)

  predicate Full(w: World, s: State, c: Cid) {
    w.uidOf(c) !in s.clients && w.max > 0 && |s.clients| >= w.max
  }

  function Step(w: World, s: State, e: Event): State {
    var uid := w.uidOf(e.c);
    match e
    case Swap(c) =>
      if Full(w, s, c) then s.(pending := s.pending + {c})
      else State(s.clients[uid := c], s.closed, s.pending + if uid in s.clients then {s.clients[uid]} else {})
    case Finish(c) => s.(closed := s.closed + {c}, pending := s.pending - {c})
    case Unregister(c) => if uid in s.clients && s.clients[uid] == c then s.(clients := s.clients - {uid}) else s
    case Hangup(c) => s.(closed := s.closed + {c})
  }

  predicate Legal(s: State, e: Event) { e.Finish? ==> e.c in s.pending }

  /** The states a run of events goes through, from an empty registry. */
  ghost predicate Execution(w: World, events: seq<Event>, states: seq<State>) {
    && |states| == |events| + 1
    && states[0] == State(map[], {}, {})
    && forall i | 0 <= i < |events| :: Legal(states[i], events[i]) && states[i + 1] == Step(w, states[i], events[i])
  }

  lemma Extend(w: World, events: seq<Event>, states: seq<State>, e: Event)
    requires Execution(w, events, states) && Legal(states[|events|], e)
    ensures Execution(w, events + [e], states + [Step(w, states[|events|], e)])
  {
  }

  ghost predicate AcceptedAt(w: World, events: seq<Event>, states: seq<State>, i: nat, c: Cid) {
    i < |events| && i < |states| && events[i] == Swap(c) && !Full(w, states[i], c)
  }

  /** c was accepted at i, and before k nobody else was accepted for its user and it was not unregistered. */
  ghost predicate StillHolds(w: World, events: seq<Event>, states: seq<State>, i: nat, k: nat, c: Cid) {
    && i < k <= |events|
    && AcceptedAt(w, events, states, i, c)
    && forall j, d | i < j < k :: !(AcceptedAt(w, events, states, j, d) && w.uidOf(d) == w.uidOf(c)) && events[j] != Unregister(c)
  }

  ghost predicate Holds(s: State, uid: string, c: Cid) { uid in s.clients && s.clients[uid] == c }

  /** What ends c's tenure in one event: an accepted swap for its user, or its own Unregister. */
  ghost predicate Ends(w: World, s: State, e: Event, c: Cid) {
    (e.Swap? && !Full(w, s, e.c) && w.uidOf(e.c) == w.uidOf(c)) || e == Unregister(c)
  }

  lemma StepHolds(w: World, s: State, e: Event, uid: string, c: Cid)
    requires Holds(s, uid, c) ==> w.uidOf(c) == uid
    ensures Holds(Step(w, s, e), uid, c) <==>
            w.uidOf(c) == uid && ((e == Swap(c) && !Full(w, s, c)) || (Holds(s, uid, c) && !Ends(w, s, e, c)))
  {
  }

  lemma StillHoldsStep(w: World, events: seq<Event>, states: seq<State>, i: nat, k: nat, c: Cid)
    requires |states| == |events| + 1 && 0 < k <= |events|
    ensures StillHolds(w, events, states, i, k, c) <==>
            (i == k - 1 && AcceptedAt(w, events, states, i, c))
            || (StillHolds(w, events, states, i, k - 1, c) && !Ends(w, states[k - 1], events[k - 1], c))
  {
    if StillHolds(w, events, states, i, k, c) && i < k - 1 && events[k - 1].Swap? {
      assert !(AcceptedAt(w, events, states, k - 1, events[k - 1].c) && w.uidOf(events[k - 1].c) == w.uidOf(c));
    }
  }

  /** A user maps to its latest accepted client, unless that client has since been unregistered. */
  lemma {:induction false} HolderIff(w: World, events: seq<Event>, states: seq<State>, k: nat, uid: string, c: Cid)
    requires Execution(w, events, states) && k <= |events|
    ensures Holds(states[k], uid, c) <==> w.uidOf(c) == uid && exists i: nat :: StillHolds(w, events, states, i, k, c)
  {
    if k > 0 {
      HolderIff(w, events, states, k - 1, uid, c);
      assert states[k] == Step(w, states[k - 1], events[k - 1]);
      StepHolds(w, states[k - 1], events[k - 1], uid, c);
      forall i: nat
        ensures StillHolds(w, events, states, i, k, c) <==>
                (i == k - 1 && AcceptedAt(w, events, states, i, c))
                || (StillHolds(w, events, states, i, k - 1, c) && !Ends(w, states[k - 1], events[k - 1], c))
      {
        StillHoldsStep(w, events, states, i, k, c);
      }
      if AcceptedAt(w, events, states, k - 1, c) { assert StillHolds(w, events, states, k - 1, k, c); }
    }
  }

  // ---- displaced and rejected clients ---------------------------------------------------------

  /** A client some Register owes a close stays owed until it is closed, and closed for good. */
  lemma {:induction false} OwedStaysOwed(w: World, events: seq<Event>, states: seq<State>, j: nat, k: nat, c: Cid)
    requires Execution(w, events, states) && j <= k <= |events|
    requires c in states[j].closed + states[j].pending
    ensures c in states[k].closed + states[k].pending
    decreases k - j
  {
    if j < k {
      OwedStaysOwed(w, events, states, j, k - 1, c);
      assert states[k] == Step(w, states[k - 1], events[k - 1]);
    }
  }

  /** From the swap on, whoever it displaced, or the newcomer it rejected, is closed or about to be. */
  lemma DisplacedIsOwed(w: World, events: seq<Event>, states: seq<State>, j: nat, k: nat, c: Cid)
    requires Execution(w, events, states) && j < k <= |events| && events[j] == Swap(c)
    ensures AcceptedAt(w, events, states, j, c) && w.uidOf(c) in states[j].clients ==>
              states[j].clients[w.uidOf(c)] in states[k].closed + states[k].pending
    ensures !AcceptedAt(w, events, states, j, c) ==> c in states[k].closed + states[k].pending
  {
    assert states[j + 1] == Step(w, states[j], events[j]);
    if !AcceptedAt(w, events, states, j, c) {
      OwedStaysOwed(w, events, states, j + 1, k, c);
    } else if w.uidOf(c) in states[j].clients {
      OwedStaysOwed(w, events, states, j + 1, k, states[j].clients[w.uidOf(c)]);
    }
  }

  /** A full registry is never exceeded. */
  lemma {:induction false} NeverOverfull(w: World, events: seq<Event>, states: seq<State>, k: nat)
    requires Execution(w, events, states) && k <= |events| && w.max > 0
    ensures |states[k].clients| <= w.max
  {
    if k > 0 {
      NeverOverfull(w, events, states, k - 1);
      var s, e := states[k - 1], events[k - 1];
      assert states[k] == Step(w, s, e);
      var uid := w.uidOf(e.c);
      if e.Swap? {
        assert s.clients[uid := e.c].Keys == s.clients.Keys + {uid};
      } else if e.Unregister? {
        assert (s.clients - {uid}).Keys == s.clients.Keys - {uid};
      }
    }
  }

  // ---- the holder is left alone ---------------------------------------------------------------

  /** Each client is registered at most once, as NewClient followed by one Register does. */
  ghost predicate RegisteredOnce(events: seq<Event>) {
    forall i, j | 0 <= i < j < |events| && events[i].Swap? && events[j].Swap? :: events[i].c != events[j].c
  }

  /** The clients that have called Register before event k. */
  ghost function Seen(events: seq<Event>, k: nat): set<Cid>
    requires k <= |events|
  {
    if k == 0 then {} else Seen(events, k - 1) + Newcomer(events[k - 1])
  }

  function Newcomer(e: Event): set<Cid> { if e.Swap? then {e.c} else {} }

  lemma {:induction false} SeenIff(events: seq<Event>, k: nat, c: Cid)
    requires k <= |events|
    ensures c in Seen(events, k) <==> exists i :: 0 <= i < k && events[i] == Swap(c)
  {
    if k > 0 { SeenIff(events, k - 1, c); }
  }

  /** Holders and owed clients are disjoint, and only clients that called Register are either. */
  ghost predicate Apart(w: World, seen: set<Cid>, s: State) {
    && s.pending <= seen
    && (forall u | u in s.clients :: w.uidOf(s.clients[u]) == u && s.clients[u] in seen && s.clients[u] !in s.pending)
  }

  lemma ApartStep(w: World, seen: set<Cid>, s: State, e: Event)
    requires Apart(w, seen, s) && Legal(s, e) && (e.Swap? ==> e.c !in seen)
    ensures Apart(w, seen + Newcomer(e), Step(w, s, e))
  {
  }

  lemma {:induction false} HoldersApart(w: World, events: seq<Event>, states: seq<State>, k: nat)
    requires Execution(w, events, states) && RegisteredOnce(events) && k <= |events|
    ensures Apart(w, Seen(events, k), states[k])
  {
    if k > 0 {
      HoldersApart(w, events, states, k - 1);
      assert states[k] == Step(w, states[k - 1], events[k - 1]) && Legal(states[k - 1], events[k - 1]);
      SeenIff(events, k - 1, events[k - 1].c);
      ApartStep(w, Seen(events, k - 1), states[k - 1], events[k - 1]);
    }
  }

  /** Register's late close never hits the user's current client: only its own hangup can have closed it. */
  lemma {:induction false} HolderIsOpen(w: World, events: seq<Event>, states: seq<State>, k: nat, c: Cid)
    requires Execution(w, events, states) && RegisteredOnce(events) && k <= |events|
    requires w.uidOf(c) in states[k].clients && states[k].clients[w.uidOf(c)] == c
    requires forall j | 0 <= j < k :: events[j] != Hangup(c)
    ensures c !in states[k].closed && c !in states[k].pending
  {
    HoldersApart(w, events, states, k);
    HolderIff(w, events, states, k, w.uidOf(c), c);
    var i: nat :| StillHolds(w, events, states, i, k, c);
    SeenIff(events, i, c);
    UnseenIsOpen(w, events, states, i, c);
    OpenWhileHolding(w, events, states, i + 1, k, c);
  }

  lemma {:induction false} UnseenIsOpen(w: World, events: seq<Event>, states: seq<State>, k: nat, c: Cid)
    requires Execution(w, events, states) && RegisteredOnce(events) && k <= |events| && c !in Seen(events, k)
    requires forall j | 0 <= j < k :: events[j] != Hangup(c)
    ensures c !in states[k].closed
  {
    if k > 0 {
      UnseenIsOpen(w, events, states, k - 1, c);
      HoldersApart(w, events, states, k - 1);
      assert states[k] == Step(w, states[k - 1], events[k - 1]) && Legal(states[k - 1], events[k - 1]);
    }
  }

  /** Only a pending close or its own hangup closes a client. */
  lemma StaysOpen(w: World, s: State, e: Event, c: Cid)
    requires Legal(s, e) && e != Hangup(c) && c !in s.closed && c !in s.pending
    ensures c !in Step(w, s, e).closed
  {
  }

  lemma {:induction false} OpenWhileHolding(w: World, events: seq<Event>, states: seq<State>, from: nat, k: nat, c: Cid)
    requires Execution(w, events, states) && RegisteredOnce(events) && 0 < from <= k <= |events|
    requires StillHolds(w, events, states, from - 1, k, c) && c !in states[from - 1].closed
    requires forall j | 0 <= j < k :: events[j] != Hangup(c)
    ensures c !in states[k].closed
    decreases k - from
  {
    assert states[k] == Step(w, states[k - 1], events[k - 1]) && Legal(states[k - 1], events[k - 1]);
    if from < k {
      assert StillHolds(w, events, states, from - 1, k - 1, c);
      OpenWhileHolding(w, events, states, from, k - 1, c);
      assert Holds(states[k - 1], w.uidOf(c), c) by { HolderIff(w, events, states, k - 1, w.uidOf(c), c); }
      HoldersApart(w, events, states, k - 1);
      StaysOpen(w, states[k - 1], events[k - 1], c);
    }
  }
}
