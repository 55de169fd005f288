/** The per-user token bucket of internal/gateway/rate_limiter.go; float64 values are reals, time is in seconds. */
module RateLimiter {

  /** `earn` is what a span of time adds to a bucket; Limits says how it follows from the rate. */
  datatype Config = Config(earn: real -> real, burst: int, interval: real)
  datatype Bucket = Bucket(tokens: real, last: real)
  type Buckets = map<string, Bucket>

  function Limits(rate: real, burst: int, interval: real): Config {
    Config((elapsed: real) => elapsed * rate, burst, interval)
  }

  function Min(a: real, b: real): real { if a <= b then a else b }

  function Refill(cfg: Config, b: Bucket, now: real): real {
    Min(cfg.burst as real, b.tokens + cfg.earn(now - b.last))
  }

  function AllowStep(cfg: Config, bs: Buckets, uid: string, now: real): (Buckets, bool) {
    if uid !in bs then (bs[uid := Bucket(cfg.burst as real - 1.0, now)], true)
    else
      var tokens := Refill(cfg, bs[uid], now);
      if tokens >= 1.0 then (bs[uid := Bucket(tokens - 1.0, now)], true)
      else (bs[uid := Bucket(tokens, now)], false)
  }

  function Sweep(cfg: Config, bs: Buckets, now: real): Buckets {
    map uid | uid in bs && now - bs[uid].last <= cfg.interval :: bs[uid]
  }

  /** What SetRateLimit passes on: a positive rate and burst, and a positive sweep interval. */
  ghost predicate Sane(cfg: Config) {
    && cfg.burst >= 1 && cfg.interval > 0.0 && cfg.earn(0.0) == 0.0
    && (forall a, b :: Grows(cfg.earn, a, b))
    && (forall a, b :: Adds(cfg.earn, a, b))
  }

  ghost predicate Grows(earn: real -> real, a: real, b: real) { a <= b ==> earn(a) <= earn(b) }

  ghost predicate Adds(earn: real -> real, a: real, b: real) { earn(a + b) == earn(a) + earn(b) }

  lemma LimitsSane(rate: real, burst: int, interval: real)
    requires rate >= 0.0 && burst >= 1 && interval > 0.0
    ensures Sane(Limits(rate, burst, interval))
    ensures forall t :: Limits(rate, burst, interval).earn(t) == t * rate
  {
    var earn := Limits(rate, burst, interval).earn;
    forall a: real, b: real
      ensures Grows(earn, a, b) && Adds(earn, a, b)
    {
      if a <= b { Product(a, b, rate); }
    }
  }

  /** Time never takes tokens away. */
  lemma Earns(cfg: Config, a: real, b: real)
    requires Sane(cfg) && a <= b
    ensures cfg.earn(a) <= cfg.earn(b)
  {
    assert Grows(cfg.earn, a, b);
  }

  /** The sweep interval is long enough to fill an empty bucket. */
  predicate FullAgain(cfg: Config) { cfg.earn(cfg.interval) >= cfg.burst as real }

  /** Tokens stay within [0, burst] and no bucket is stamped in the future. */
  ghost predicate Valid(cfg: Config, bs: Buckets, now: real) {
    forall uid | uid in bs :: 0.0 <= bs[uid].tokens <= cfg.burst as real && bs[uid].last <= now
  }

  /** The tokens a user could spend at `t`; a missing bucket counts as a full one. */
  function Credit(cfg: Config, bs: Buckets, uid: string, t: real): real {
    if uid in bs then Refill(cfg, bs[uid], t) else cfg.burst as real
  }

  lemma Product(a: real, b: real, r: real)
    requires a <= b && r >= 0.0
    ensures a * r <= b * r
  {
  }

  /** Allow is decided by the credit, spends one token of it, and touches nobody else's. */
  lemma AllowSpendsCredit(cfg: Config, bs: Buckets, uid: string, now: real)
    requires Sane(cfg) && Valid(cfg, bs, now)
    ensures var (after, ok) := AllowStep(cfg, bs, uid, now);
            && Valid(cfg, after, now)
            && (ok <==> Credit(cfg, bs, uid, now) >= 1.0)
            && (forall t :: Credit(cfg, after, uid, t) ==
                  Min(cfg.burst as real, Credit(cfg, bs, uid, now) - (if ok then 1.0 else 0.0) + cfg.earn(t - now)))
            && (forall u, t | u != uid :: Credit(cfg, after, u, t) == Credit(cfg, bs, u, t))
  {
    if uid in bs {
      Earns(cfg, 0.0, now - bs[uid].last);
      assert cfg.burst as real >= 1.0 && cfg.earn(now - bs[uid].last) >= 0.0;
    }
  }

  /** With rate * interval >= burst a bucket old enough to be swept is full again. */
  lemma SweepKeepsCredit(cfg: Config, bs: Buckets, now: real, uid: string, t: real)
    requires Sane(cfg) && Valid(cfg, bs, now) && FullAgain(cfg) && now <= t
    ensures Valid(cfg, Sweep(cfg, bs, now), now)
    ensures Credit(cfg, Sweep(cfg, bs, now), uid, t) == Credit(cfg, bs, uid, t)
  {
    if uid in bs && uid !in Sweep(cfg, bs, now) {
      Earns(cfg, cfg.interval, t - bs[uid].last);
    }
  }

  // ---- runs ----------------------------------------------------------------------------

  datatype Event = Call(uid: string, at: real) | Tick(at: real)

  predicate Ordered(events: seq<Event>, start: real) {
    events == [] || (start <= events[0].at && Ordered(events[1..], events[0].at))
  }

  /** One event; the cleanup loop runs only when `gc` holds. */
  function Step(cfg: Config, gc: bool, bs: Buckets, e: Event): Buckets {
    match e
    case Call(uid, at) => AllowStep(cfg, bs, uid, at).0
    case Tick(at) => if gc then Sweep(cfg, bs, at) else bs
  }

  function Final(cfg: Config, gc: bool, bs: Buckets, events: seq<Event>): Buckets
    decreases |events|
  {
    if events == [] then bs else Final(cfg, gc, Step(cfg, gc, bs, events[0]), events[1..])
  }

  /** The answers of the Allow calls among `events`, in order. */
  function Answers(cfg: Config, gc: bool, bs: Buckets, events: seq<Event>): seq<bool>
    decreases |events|
  {
    if events == [] then []
    else
      var rest := Answers(cfg, gc, Step(cfg, gc, bs, events[0]), events[1..]);
      match events[0]
      case Call(uid, at) => [AllowStep(cfg, bs, uid, at).1] + rest
      case Tick(_) => rest
  }

  // ---- cleanup transparency ---------------------------------------------------------------

  /** Two limiters that give every user the same credit from `now` on. */
  ghost predicate Similar(cfg: Config, a: Buckets, b: Buckets, now: real) {
    && Valid(cfg, a, now) && Valid(cfg, b, now)
    && forall uid, t | now <= t :: Credit(cfg, a, uid, t) == Credit(cfg, b, uid, t)
  }

  /** One event, with the sweep on the left only, keeps them similar and gives one answer. */
  lemma SimilarStep(cfg: Config, a: Buckets, b: Buckets, now: real, e: Event)
    requires Sane(cfg) && FullAgain(cfg)
    requires Similar(cfg, a, b, now) && now <= e.at
    ensures Similar(cfg, Step(cfg, true, a, e), Step(cfg, false, b, e), e.at)
    ensures e.Call? ==> AllowStep(cfg, a, e.uid, e.at).1 == AllowStep(cfg, b, e.uid, e.at).1
  {
    assert Valid(cfg, a, e.at) && Valid(cfg, b, e.at);
    match e
    case Call(uid, at) =>
      AllowSpendsCredit(cfg, a, uid, at);
      AllowSpendsCredit(cfg, b, uid, at);
      assert Credit(cfg, a, uid, at) == Credit(cfg, b, uid, at);
    case Tick(at) =>
      forall uid, t | at <= t
        ensures Credit(cfg, Sweep(cfg, a, at), uid, t) == Credit(cfg, b, uid, t)
      {
        SweepKeepsCredit(cfg, a, at, uid, t);
      }
  }

  lemma {:induction false} SimilarRun(cfg: Config, a: Buckets, b: Buckets, now: real, events: seq<Event>)
    requires Sane(cfg) && FullAgain(cfg)
    requires Similar(cfg, a, b, now) && Ordered(events, now)
    ensures Answers(cfg, true, a, events) == Answers(cfg, false, b, events)
    decreases |events|
  {
    if events != [] {
      SimilarStep(cfg, a, b, now, events[0]);
      SimilarRun(cfg, Step(cfg, true, a, events[0]), Step(cfg, false, b, events[0]), events[0].at, events[1..]);
    }
  }

  /** Sweeping at any moments never changes an answer. */
  ghost predicate Transparent(cfg: Config) {
    forall events, start | Ordered(events, start) ::
      Answers(cfg, true, map[], events) == Answers(cfg, false, map[], events)
  }

  // ---- the converse: draining a bucket twice ------------------------------------------------

  function Calls(uid: string, at: real, k: nat): seq<Event> {
    if k == 0 then [] else [Call(uid, at)] + Calls(uid, at, k - 1)
  }

  predicate AllTrue(answers: seq<bool>) { forall i | 0 <= i < |answers| :: answers[i] }

  /** k calls at one instant all pass exactly when the credit covers them; then they spend k. */
  lemma {:induction false} CallsAllPass(cfg: Config, gc: bool, bs: Buckets, uid: string, at: real, k: nat)
    requires Sane(cfg) && Valid(cfg, bs, at)
    ensures AllTrue(Answers(cfg, gc, bs, Calls(uid, at, k))) <==> k as real <= Credit(cfg, bs, uid, at) || k == 0
    ensures var after := Final(cfg, gc, bs, Calls(uid, at, k));
            && Valid(cfg, after, at)
            && (k > 0 ==> uid in after && after[uid].last == at)
            && (k as real <= Credit(cfg, bs, uid, at) ==> Credit(cfg, after, uid, at) == Credit(cfg, bs, uid, at) - k as real)
    decreases k
  {
    if k > 0 {
      var events := Calls(uid, at, k);
      assert events[0] == Call(uid, at) && events[1..] == Calls(uid, at, k - 1);
      AllowSpendsCredit(cfg, bs, uid, at);
      var (after, ok) := AllowStep(cfg, bs, uid, at);
      CallsAllPass(cfg, gc, after, uid, at, k - 1);
      var rest := Answers(cfg, gc, after, events[1..]);
      var answers := Answers(cfg, gc, bs, events);
      assert answers == [ok] + rest;
      assert AllTrue(answers) <==> ok && AllTrue(rest) by {
        assert answers[0] == ok && answers[1..] == rest;
      }
    }
  }

  lemma OrderedCons(e: Event, events: seq<Event>, start: real)
    requires start <= e.at && Ordered(events, e.at)
    ensures Ordered([e] + events, start)
  {
    assert ([e] + events)[1..] == events;
  }

  lemma {:induction false} OrderedCalls(uid: string, at: real, k: nat, start: real, rest: seq<Event>)
    requires start <= at && Ordered(rest, at)
    ensures Ordered(Calls(uid, at, k) + rest, start)
  {
    if k == 0 {
      assert [] + rest == rest;
      if rest != [] { assert start <= rest[0].at; }
    } else {
      OrderedCalls(uid, at, k - 1, at, rest);
      OrderedCons(Call(uid, at), Calls(uid, at, k - 1) + rest, start);
      assert Calls(uid, at, k) + rest == [Call(uid, at)] + (Calls(uid, at, k - 1) + rest);
    }
  }

  lemma {:induction false} Split(cfg: Config, gc: bool, bs: Buckets, a: seq<Event>, b: seq<Event>)
    ensures Answers(cfg, gc, bs, a + b) == Answers(cfg, gc, bs, a) + Answers(cfg, gc, Final(cfg, gc, bs, a), b)
    ensures Final(cfg, gc, bs, a + b) == Final(cfg, gc, Final(cfg, gc, bs, a), b)
    decreases |a|
  {
    if a == [] {
      assert [] + b == b;
    } else {
      Split(cfg, gc, Step(cfg, gc, bs, a[0]), a[1..], b);
      assert (a + b)[1..] == a[1..] + b;
    }
  }

  lemma AnswersTick(cfg: Config, gc: bool, bs: Buckets, e: real, events: seq<Event>)
    ensures Answers(cfg, gc, bs, [Tick(e)] + events) == Answers(cfg, gc, if gc then Sweep(cfg, bs, e) else bs, events)
  {
    assert ([Tick(e)] + events)[1..] == events;
  }

  lemma SweptPasses(cfg: Config, drained: Buckets, e: real)
    requires Sane(cfg) && e > cfg.interval && Valid(cfg, drained, 0.0) && "" in drained && drained[""].last == 0.0
    ensures AllTrue(Answers(cfg, true, Sweep(cfg, drained, e), Calls("", e, cfg.burst)))
  {
    CallsAllPass(cfg, true, Sweep(cfg, drained, e), "", e, cfg.burst);
  }

  lemma UnsweptFails(cfg: Config, drained: Buckets, e: real)
    requires Sane(cfg) && e > 0.0 && cfg.earn(e) < cfg.burst as real
    requires Valid(cfg, drained, 0.0) && "" in drained && drained[""] == Bucket(0.0, 0.0)
    ensures !AllTrue(Answers(cfg, false, drained, Calls("", e, cfg.burst)))
  {
    CallsAllPass(cfg, false, drained, "", e, cfg.burst);
  }

  /** A bucket emptied at time 0, swept at `e`, passes a second burst; unswept it does not. */
  lemma SecondBurst(cfg: Config, drained: Buckets, e: real)
    requires Sane(cfg) && e > cfg.interval && cfg.earn(e) < cfg.burst as real
    requires Valid(cfg, drained, 0.0) && "" in drained && drained[""] == Bucket(0.0, 0.0)
    ensures var tail := [Tick(e)] + Calls("", e, cfg.burst);
            Answers(cfg, true, drained, tail) != Answers(cfg, false, drained, tail)
  {
    var second := Calls("", e, cfg.burst);
    AnswersTick(cfg, true, drained, e, second);
    AnswersTick(cfg, false, drained, e, second);
    SweptPasses(cfg, drained, e);
    UnsweptFails(cfg, drained, e);
  }

  lemma EarlySweepShows(cfg: Config, e: real)
    requires Sane(cfg) && e > cfg.interval && cfg.earn(e) < cfg.burst as real
    ensures !Transparent(cfg)
  {
    var first := Calls("", 0.0, cfg.burst);
    var tail := [Tick(e)] + Calls("", e, cfg.burst);
    CallsAllPass(cfg, true, map[], "", 0.0, cfg.burst);
    SameWithoutTicks(cfg, map[], "", 0.0, cfg.burst);
    var drained := Final(cfg, true, map[], first);
    assert drained[""] == Bucket(0.0, 0.0) by { EmptyAtZero(cfg, drained); }
    SecondBurst(cfg, drained, e);
    Split(cfg, true, map[], first, tail);
    Split(cfg, false, map[], first, tail);
    OrderedTwoBursts(cfg.burst, e);
    var answers := Answers(cfg, true, map[], first);
    assert (answers + Answers(cfg, true, drained, tail))[|answers|..] == Answers(cfg, true, drained, tail);
    assert (answers + Answers(cfg, false, drained, tail))[|answers|..] == Answers(cfg, false, drained, tail);
    assert Answers(cfg, true, map[], first + tail) != Answers(cfg, false, map[], first + tail);
  }

  lemma EmptyAtZero(cfg: Config, bs: Buckets)
    requires Sane(cfg) && Valid(cfg, bs, 0.0) && "" in bs && bs[""].last == 0.0 && Credit(cfg, bs, "", 0.0) == 0.0
    ensures bs[""] == Bucket(0.0, 0.0)
  {
    assert 0.0 - bs[""].last == 0.0;
  }

  lemma OrderedTwoBursts(k: nat, e: real)
    requires e >= 0.0
    ensures Ordered(Calls("", 0.0, k) + ([Tick(e)] + Calls("", e, k)), 0.0)
  {
    var second := Calls("", e, k);
    OrderedCalls("", e, k, e, []);
    assert second + [] == second;
    var tail := [Tick(e)] + second;
    assert tail[1..] == second;
    OrderedCalls("", 0.0, k, 0.0, tail);
  }

  lemma {:induction false} SameWithoutTicks(cfg: Config, bs: Buckets, uid: string, at: real, k: nat)
    ensures Final(cfg, true, bs, Calls(uid, at, k)) == Final(cfg, false, bs, Calls(uid, at, k))
    ensures Answers(cfg, true, bs, Calls(uid, at, k)) == Answers(cfg, false, bs, Calls(uid, at, k))
    decreases k
  {
    if k > 0 {
      var events := Calls(uid, at, k);
      assert events[0] == Call(uid, at) && events[1..] == Calls(uid, at, k - 1);
      SameWithoutTicks(cfg, AllowStep(cfg, bs, uid, at).0, uid, at, k - 1);
    }
  }

  /** The sweep is invisible exactly when rate * interval >= burst. */
  lemma TransparentIff(rate: real, burst: int, interval: real)
    requires rate >= 0.0 && burst >= 1 && interval > 0.0
    ensures Transparent(Limits(rate, burst, interval)) <==> rate * interval >= burst as real
  {
    var cfg := Limits(rate, burst, interval);
    LimitsSane(rate, burst, interval);
    if rate * interval >= burst as real {
      assert FullAgain(cfg);
      forall events, start | Ordered(events, start)
        ensures Answers(cfg, true, map[], events) == Answers(cfg, false, map[], events)
      {
        assert Similar(cfg, map[], map[], start);
        SimilarRun(cfg, map[], map[], start, events);
      }
    } else {
      var e := TooSoon(rate, burst as real, interval);
      EarlySweepShows(cfg, e);
    }
  }

  lemma TooSoon(rate: real, burst: real, interval: real) returns (e: real)
    requires rate >= 0.0 && rate * interval < burst
    ensures e > interval && e * rate < burst
  {
    if rate == 0.0 {
      e := interval + 1.0;
    } else {
      var gap := burst - rate * interval;
      var d := gap / (2.0 * rate);
      assert rate * d == gap / 2.0;
      e := interval + d;
      assert e * rate == rate * interval + rate * d;
    }
  }

  // ---- the rate bound -------------------------------------------------------------------------

  function AllowedFor(cfg: Config, bs: Buckets, events: seq<Event>, uid: string): nat
    decreases |events|
  {
    if events == [] then 0
    else
      var rest := AllowedFor(cfg, Step(cfg, true, bs, events[0]), events[1..], uid);
      match events[0]
      case Call(u, at) => rest + if u == uid && AllowStep(cfg, bs, u, at).1 then 1 else 0
      case Tick(_) => rest
  }

  ghost predicate Until(events: seq<Event>, end: real) {
    forall e | e in events :: e.at <= end
  }

  lemma StepKeepsValid(cfg: Config, bs: Buckets, e: Event)
    requires Sane(cfg) && Valid(cfg, bs, e.at)
    ensures Valid(cfg, Step(cfg, true, bs, e), e.at)
  {
    if e.Call? { AllowSpendsCredit(cfg, bs, e.uid, e.at); }
  }

  /** Credit grows by at most rate * time while nothing happens. */
  lemma CreditGrowth(cfg: Config, bs: Buckets, uid: string, t0: real, t1: real)
    requires Sane(cfg) && t0 <= t1
    ensures Credit(cfg, bs, uid, t1) <= Credit(cfg, bs, uid, t0) + cfg.earn(t1 - t0)
  {
    Earns(cfg, 0.0, t1 - t0);
    if uid in bs { Distribute(cfg, bs[uid].last, t0, t1); }
  }

  lemma Distribute(cfg: Config, a: real, b: real, c: real)
    requires Sane(cfg)
    ensures cfg.earn(c - a) == cfg.earn(b - a) + cfg.earn(c - b)
  {
    assert Adds(cfg.earn, b - a, c - b);
    assert (b - a) + (c - b) == c - a;
  }

  predicate Passes(cfg: Config, bs: Buckets, e: Event, uid: string) {
    e.Call? && e.uid == uid && AllowStep(cfg, bs, e.uid, e.at).1
  }

  /** Whatever an event lets through is paid for by credit that was there or has grown since `start`. */
  lemma SpendStep(cfg: Config, bs: Buckets, start: real, e: Event, uid: string)
    requires Sane(cfg) && FullAgain(cfg)
    requires Valid(cfg, bs, start) && start <= e.at
    ensures (if Passes(cfg, bs, e, uid) then 1.0 else 0.0) + Credit(cfg, Step(cfg, true, bs, e), uid, e.at)
            <= Credit(cfg, bs, uid, start) + cfg.earn(e.at - start)
  {
    assert Valid(cfg, bs, e.at);
    CreditGrowth(cfg, bs, uid, start, e.at);
    match e
    case Call(u, at) =>
      AllowSpendsCredit(cfg, bs, u, at);
      assert at - at == 0.0;
    case Tick(at) => SweepKeepsCredit(cfg, bs, at, uid, at);
  }

  lemma CreditNonNegative(cfg: Config, bs: Buckets, uid: string, t: real)
    requires Sane(cfg) && Valid(cfg, bs, t)
    ensures Credit(cfg, bs, uid, t) >= 0.0
  {
    assert cfg.burst as real >= 1.0;
    if uid in bs {
      Earns(cfg, 0.0, t - bs[uid].last);
    }
  }

  lemma {:induction false} SpendBound(cfg: Config, bs: Buckets, start: real, events: seq<Event>, end: real, uid: string)
    requires Sane(cfg) && FullAgain(cfg)
    requires Valid(cfg, bs, start) && Ordered(events, start) && start <= end && Until(events, end)
    ensures AllowedFor(cfg, bs, events, uid) as real <= Credit(cfg, bs, uid, start) + cfg.earn(end - start)
    decreases |events|
  {
    if events == [] {
      Earns(cfg, 0.0, end - start);
      CreditNonNegative(cfg, bs, uid, start);
    } else {
      var e := events[0];
      assert e in events && Valid(cfg, bs, e.at);
      var after := Step(cfg, true, bs, e);
      StepKeepsValid(cfg, bs, e);
      SpendBound(cfg, after, e.at, events[1..], end, uid);
      SpendStep(cfg, bs, start, e, uid);
      Distribute(cfg, start, e.at, end);
      assert AllowedFor(cfg, bs, events, uid) ==
             AllowedFor(cfg, after, events[1..], uid) + if Passes(cfg, bs, e, uid) then 1 else 0;
    }
  }

  lemma {:induction false} FinalValid(cfg: Config, bs: Buckets, start: real, events: seq<Event>, end: real)
    requires Sane(cfg) && Valid(cfg, bs, start) && Ordered(events, start) && start <= end && Until(events, end)
    ensures Valid(cfg, Final(cfg, true, bs, events), end)
    decreases |events|
  {
    if events != [] {
      assert events[0] in events && Valid(cfg, bs, events[0].at);
      StepKeepsValid(cfg, bs, events[0]);
      FinalValid(cfg, Step(cfg, true, bs, events[0]), events[0].at, events[1..], end);
    }
  }

  /**
   * After any history, a window of length T passes at most burst + rate * T messages of one user,
   * sweeps included; and tokens never leave [0, burst].
   */
  lemma RateBound(rate: real, burst: int, interval: real,
                  history: seq<Event>, begin: real, t0: real, window: seq<Event>, T: real, uid: string)
    requires rate >= 0.0 && burst >= 1 && interval > 0.0 && rate * interval >= burst as real
    requires Ordered(history, begin) && begin <= t0 && Until(history, t0)
    requires T >= 0.0 && Ordered(window, t0) && Until(window, t0 + T)
    ensures var cfg := Limits(rate, burst, interval);
            var bs := Final(cfg, true, map[], history);
            && Valid(cfg, bs, t0)
            && AllowedFor(cfg, bs, window, uid) as real <= burst as real + rate * T
  {
    var cfg := Limits(rate, burst, interval);
    assert Sane(cfg) && FullAgain(cfg) && cfg.earn(T) == rate * T by { LimitsSane(rate, burst, interval); }
    WindowBound(cfg, history, begin, t0, window, T, uid);
  }

  lemma WindowBound(cfg: Config, history: seq<Event>, begin: real, t0: real, window: seq<Event>, T: real, uid: string)
    requires Sane(cfg) && FullAgain(cfg) && T >= 0.0
    requires Ordered(history, begin) && begin <= t0 && Until(history, t0) && Ordered(window, t0) && Until(window, t0 + T)
    ensures var bs := Final(cfg, true, map[], history);
            Valid(cfg, bs, t0) && AllowedFor(cfg, bs, window, uid) as real <= cfg.burst as real + cfg.earn(T)
  {
    var bs := Final(cfg, true, map[], history);
    FinalValid(cfg, map[], begin, history, t0);
    SpendBound(cfg, bs, t0, window, t0 + T, uid);
    assert (t0 + T) - t0 == T;
    assert Credit(cfg, bs, uid, t0) <= cfg.burst as real;
  }

  /** A history up to t0 and a window from t0 to `end` that follows it. */
  ghost predicate Follows(history: seq<Event>, begin: real, t0: real, window: seq<Event>, end: real) {
    && begin <= t0 <= end
    && Ordered(history, begin) && Until(history, t0)
    && Ordered(window, t0) && Until(window, end)
  }

  ghost predicate Bounded(cfg: Config, history: seq<Event>, t0: real, window: seq<Event>, end: real, uid: string) {
    AllowedFor(cfg, Final(cfg, true, map[], history), window, uid) as real <= cfg.burst as real + cfg.earn(end - t0)
  }

  /** No window of any run passes more than burst + rate * length messages of one user. */
  ghost predicate RateHolds(cfg: Config) {
    forall history, begin, t0, window, end, uid | Follows(history, begin, t0, window, end) ::
      Bounded(cfg, history, t0, window, end, uid)
  }

  lemma FullAgainBounds(cfg: Config, history: seq<Event>, begin: real, t0: real, window: seq<Event>, end: real, uid: string)
    requires Sane(cfg) && FullAgain(cfg) && Follows(history, begin, t0, window, end)
    ensures Bounded(cfg, history, t0, window, end, uid)
  {
    FinalValid(cfg, map[], begin, history, t0);
    SpendBound(cfg, Final(cfg, true, map[], history), t0, window, end, uid);
  }

  lemma {:induction false} AllowedSplit(cfg: Config, bs: Buckets, a: seq<Event>, b: seq<Event>, uid: string)
    ensures AllowedFor(cfg, bs, a + b, uid) == AllowedFor(cfg, bs, a, uid) + AllowedFor(cfg, Final(cfg, true, bs, a), b, uid)
    decreases |a|
  {
    if a == [] {
      assert [] + b == b;
    } else {
      AllowedSplit(cfg, Step(cfg, true, bs, a[0]), a[1..], b, uid);
      assert (a + b)[1..] == a[1..] + b;
    }
  }

  lemma {:induction false} AllTrueIsAllAllowed(cfg: Config, bs: Buckets, uid: string, at: real, k: nat)
    requires AllTrue(Answers(cfg, true, bs, Calls(uid, at, k)))
    ensures AllowedFor(cfg, bs, Calls(uid, at, k), uid) == k
    decreases k
  {
    if k > 0 {
      var events := Calls(uid, at, k);
      assert events[0] == Call(uid, at) && events[1..] == Calls(uid, at, k - 1);
      var (after, ok) := AllowStep(cfg, bs, uid, at);
      var answers, rest := Answers(cfg, true, bs, events), Answers(cfg, true, after, events[1..]);
      assert answers == [ok] + rest;
      assert answers[0] == ok && forall i | 0 <= i < |rest| :: rest[i] == answers[i + 1];
      AllTrueIsAllAllowed(cfg, after, uid, at, k - 1);
    }
  }

  lemma {:induction false} CallsUntil(uid: string, at: real, k: nat, end: real)
    requires at <= end
    ensures Until(Calls(uid, at, k), end)
  {
    if k > 0 { CallsUntil(uid, at, k - 1, end); }
  }

  /** Two bursts with an early sweep between them all pass: twice the burst. */
  lemma TwoBurstsPass(cfg: Config, e: real)
    requires Sane(cfg) && e > cfg.interval
    ensures AllowedFor(cfg, map[], Calls("", 0.0, cfg.burst) + ([Tick(e)] + Calls("", e, cfg.burst)), "") == 2 * cfg.burst
  {
    var first, second := Calls("", 0.0, cfg.burst), Calls("", e, cfg.burst);
    var tail := [Tick(e)] + second;
    CallsAllPass(cfg, true, map[], "", 0.0, cfg.burst);
    AllTrueIsAllAllowed(cfg, map[], "", 0.0, cfg.burst);
    var drained := Final(cfg, true, map[], first);
    AllowedSplit(cfg, map[], first, tail, "");
    assert tail[1..] == second;
    SweptPasses(cfg, drained, e);
    AllTrueIsAllAllowed(cfg, Sweep(cfg, drained, e), "", e, cfg.burst);
  }

  lemma EarlySweepBreaksRate(cfg: Config, e: real)
    requires Sane(cfg) && e > cfg.interval && cfg.earn(e) < cfg.burst as real
    ensures !RateHolds(cfg)
  {
    var window := Calls("", 0.0, cfg.burst) + ([Tick(e)] + Calls("", e, cfg.burst));
    OrderedTwoBursts(cfg.burst, e);
    CallsUntil("", 0.0, cfg.burst, e);
    CallsUntil("", e, cfg.burst, e);
    assert Follows([], 0.0, 0.0, window, e);
    TwoBurstsPass(cfg, e);
    assert Final(cfg, true, map[], []) == map[];
    assert e - 0.0 == e;
    assert !Bounded(cfg, [], 0.0, window, e, "");
  }

  /** The rate bound holds for every window of every run exactly when rate * interval >= burst. */
  lemma RateHoldsIff(rate: real, burst: int, interval: real)
    requires rate >= 0.0 && burst >= 1 && interval > 0.0
    ensures RateHolds(Limits(rate, burst, interval)) <==> rate * interval >= burst as real
  {
    var cfg := Limits(rate, burst, interval);
    LimitsSane(rate, burst, interval);
    assert FullAgain(cfg) <==> rate * interval >= burst as real;
    if FullAgain(cfg) {
      forall history, begin, t0, window, end, uid | Follows(history, begin, t0, window, end)
        ensures Bounded(cfg, history, t0, window, end, uid)
      {
        FullAgainBounds(cfg, history, begin, t0, window, end, uid);
      }
    } else {
      var e := TooSoon(rate, burst as real, interval);
      EarlySweepBreaksRate(cfg, e);
    }
  }

  // ---- the class -------------------------------------------------------------------------------

  class Limiter {
    const cfg: Config
    var buckets: Buckets
    var allowed: nat
    var rejected: nat

    constructor (rate: int, burst: int, interval: real)
      ensures buckets == map[] && allowed == 0 && rejected == 0
      ensures cfg == Limits(rate as real, burst, if interval <= 0.0 then 300.0 else interval)
    {
      cfg := Limits(rate as real, burst, if interval <= 0.0 then 300.0 else interval);
      buckets, allowed, rejected := map[], 0, 0;
    }

    method Allow(uid: string, now: real) returns (ok: bool)
      modifies this
      ensures buckets == AllowStep(cfg, old(buckets), uid, now).0
      ensures ok == AllowStep(cfg, old(buckets), uid, now).1
      ensures allowed == old(allowed) + (if ok then 1 else 0)
      ensures rejected == old(rejected) + (if ok then 0 else 1)
    {
      if uid !in buckets {
        buckets := buckets[uid := Bucket(cfg.burst as real - 1.0, now)];
        allowed := allowed + 1;
        return true;
      }
      var b := buckets[uid];
      var tokens := b.tokens + cfg.earn(now - b.last);
      if tokens > cfg.burst as real { tokens := cfg.burst as real; }
      assert tokens == Refill(cfg, b, now);
      if tokens >= 1.0 {
        buckets := buckets[uid := Bucket(tokens - 1.0, now)];
        allowed := allowed + 1;
        return true;
      }
      buckets := buckets[uid := Bucket(tokens, now)];
      rejected := rejected + 1;
      return false;
    }

    /** One tick of the cleanup loop. */
    method Cleanup(now: real)
      modifies this`buckets
      ensures buckets == Sweep(cfg, old(buckets), now)
      ensures forall uid :: uid in buckets <==> uid in old(buckets) && !(now - old(buckets)[uid].last > cfg.interval)
      ensures forall uid | uid in buckets :: buckets[uid] == old(buckets)[uid]
    {
      var pending := buckets.Keys;
      while pending != {}
        invariant pending <= old(buckets).Keys
        invariant buckets == map uid | uid in old(buckets) && (uid in pending || now - old(buckets)[uid].last <= cfg.interval) :: old(buckets)[uid]
      {
        var uid :| uid in pending;
        pending := pending - {uid};
        if now - buckets[uid].last > cfg.interval {
          buckets := buckets - {uid};
        }
      }
    }
  }
}
