/**
 The sliding-log limiter: a check prunes and measures the key's log, a separate call records the
 request.  Callers pass the check first and record later, so several may be in between at once.
 */
module SlidingLog {
  import opened Counting

  type Key = nat

  datatype Config = Config(window: nat, burst: nat)

  /** One key: the pruned log, everything ever recorded, the last pruning bound, callers between check and record. */
  datatype Track = Track(log: seq<int>, history: seq<int>, cutoff: int, between: nat)

  function From(a: int): int -> bool {
    (t: int) => a <= t
  }

  function Within(a: int, w: nat): int -> bool {
    (t: int) => a <= t <= a + w
  }

  /** `retain(|time| time >= window_start)`. */
  function Retain(log: seq<int>, a: int): seq<int> {
    if log == [] then []
    else if a <= log[|log| - 1] then Retain(log[..|log| - 1], a) + [log[|log| - 1]]
    else Retain(log[..|log| - 1], a)
  }

  predicate Limited(cfg: Config, t: Track, now: int) {
    |Retain(t.log, now - cfg.window)| >= cfg.burst
  }

  datatype Op = Check(key: Key, time: int) | Record(key: Key, time: int) | Abandon(key: Key, time: int)

  function Step(cfg: Config, t: Track, op: Op): Track {
    match op
    case Check(_, now) =>
      t.(log := Retain(t.log, now - cfg.window), cutoff := now - cfg.window,
         between := if Limited(cfg, t, now) then t.between else t.between + 1)
    case Record(_, now) =>
      t.(log := t.log + [now], history := t.history + [now], between := if t.between == 0 then 0 else t.between - 1)
    case Abandon(_, _) => t.(between := if t.between == 0 then 0 else t.between - 1)
  }

  // ---------------------------------------------------------------------------
  // Runs over all keys
  // ---------------------------------------------------------------------------

  datatype Limiter = Limiter(clock: int, tracks: map<Key, Track>)

  function Get(cfg: Config, start: int, s: Limiter, k: Key): Track {
    if k in s.tracks then s.tracks[k] else Track([], [], start - cfg.window, 0)
  }

  function Next(cfg: Config, start: int, s: Limiter, op: Op): Limiter {
    Limiter(op.time, s.tracks[op.key := Step(cfg, Get(cfg, start, s, op.key), op)])
  }

  function LogOf(requests: map<Key, seq<int>>, k: Key): seq<int> {
    if k in requests then requests[k] else []
  }

  /** `start` is the clock when the limiter was made. */
  function Run(cfg: Config, start: int, ops: seq<Op>): Limiter {
    if ops == [] then Limiter(start, map[])
    else Next(cfg, start, Run(cfg, start, ops[..|ops| - 1]), ops[|ops| - 1])
  }

  /** The clock does not run backwards. */
  predicate Ordered(start: int, ops: seq<Op>) {
    ops == [] || (Ordered(start, ops[..|ops| - 1]) && ClockAfter(start, ops[..|ops| - 1]) <= ops[|ops| - 1].time)
  }

  function ClockAfter(start: int, ops: seq<Op>): int {
    if ops == [] then start else ops[|ops| - 1].time
  }

  /** The limiter as the source keeps it: one log per key, replaced in place.  The rest of `tracks` is history. */
  class RateLimiter {
    const cfg: Config
    var requests: map<Key, seq<int>>
    ghost const start: int
    ghost var tracks: Limiter

    ghost predicate Valid()
      reads this
    {
      forall k :: LogOf(requests, k) == Get(cfg, start, tracks, k).log
    }

    constructor (cfg: Config, start: int)
      ensures this.cfg == cfg && this.start == start && Valid() && tracks == Run(cfg, start, [])
    {
      this.cfg, this.start := cfg, start;
      requests, tracks := map[], Limiter(start, map[]);
    }

    method IsRateLimited(key: Key, now: int) returns (limited: bool)
      requires Valid()
      modifies this
      ensures Valid() && tracks == Next(cfg, start, old(tracks), Check(key, now))
      ensures limited == Limited(cfg, Get(cfg, start, old(tracks), key), now)
    {
      var kept := Retain(LogOf(requests, key), now - cfg.window);
      requests := requests[key := kept];
      tracks := Next(cfg, start, tracks, Check(key, now));
      forall k ensures LogOf(requests, k) == Get(cfg, start, tracks, k).log {
        assert LogOf(old(requests), k) == Get(cfg, start, old(tracks), k).log;
      }
      limited := |kept| >= cfg.burst;
    }

    method RecordRequest(key: Key, now: int)
      requires Valid()
      modifies this
      ensures Valid() && tracks == Next(cfg, start, old(tracks), Record(key, now))
    {
      requests := requests[key := LogOf(requests, key) + [now]];
      tracks := Next(cfg, start, tracks, Record(key, now));
      forall k ensures LogOf(requests, k) == Get(cfg, start, tracks, k).log {
        assert LogOf(old(requests), k) == Get(cfg, start, old(tracks), k).log;
      }
    }
  }

  /**
   The clock does not run backwards, requests are recorded only by callers that passed the check, and at
   most `callers` of them are between check and record for one key at any time.
   */
  predicate Disciplined(cfg: Config, start: int, callers: nat, ops: seq<Op>) {
    forall i :: 0 <= i < |ops| ==>
      var s := Run(cfg, start, ops[..i]);
      && s.clock <= ops[i].time
      && (ops[i].Record? ==> Get(cfg, start, s, ops[i].key).between > 0)
      && Step(cfg, Get(cfg, start, s, ops[i].key), ops[i]).between <= callers
  }

  // ---------------------------------------------------------------------------
  // Invariant of one key
  // ---------------------------------------------------------------------------

  predicate LogIsRecentHistory(t: Track) {
    t.log == Retain(t.history, t.cutoff)
  }

  ghost predicate Bounded(cfg: Config, clock: int, callers: nat, t: Track) {
    && (forall i :: 0 <= i < |t.history| ==> t.history[i] <= clock)
    && t.cutoff <= clock - cfg.window && LogIsRecentHistory(t)
    && t.between <= callers
    && (forall a :: clock - cfg.window <= a ==> Count(t.history, From(a)) + t.between <= cfg.burst + callers - 1)
    && (forall a :: Count(t.history, Within(a, cfg.window)) <= cfg.burst + callers - 1)
  }

  lemma {:induction false} RetainTwice(log: seq<int>, a: int, b: int)
    requires a <= b
    ensures Retain(Retain(log, a), b) == Retain(log, b)
  {
    if log != [] {
      RetainTwice(log[..|log| - 1], a, b);
      var front := Retain(log[..|log| - 1], a);
      assert (front + [log[|log| - 1]])[..|front|] == front;
    }
  }

  lemma {:induction false} RetainCounts(log: seq<int>, a: int)
    ensures |Retain(log, a)| == Count(log, From(a))
  {
    if log != [] { RetainCounts(log[..|log| - 1], a); }
  }

  lemma RetainSnoc(log: seq<int>, x: int, a: int)
    ensures Retain(log + [x], a) == if a <= x then Retain(log, a) + [x] else Retain(log, a)
  {
    assert (log + [x])[..|log|] == log;
  }

  lemma StepKeepsLog(cfg: Config, clock: int, t: Track, op: Op)
    requires LogIsRecentHistory(t) && t.cutoff <= clock - cfg.window && clock <= op.time
    ensures var t' := Step(cfg, t, op); LogIsRecentHistory(t') && t'.cutoff <= op.time - cfg.window
  {
    match op {
      case Check(_, now) => RetainTwice(t.history, t.cutoff, now - cfg.window);
      case Record(_, now) => RetainSnoc(t.history, now, t.cutoff);
      case Abandon(_, _) =>
    }
  }

  lemma CheckKeepsBounded(cfg: Config, clock: int, callers: nat, t: Track, k: Key, now: int)
    requires Bounded(cfg, clock, callers, t) && clock <= now && Step(cfg, t, Check(k, now)).between <= callers
    ensures Bounded(cfg, now, callers, Step(cfg, t, Check(k, now)))
  {
    StepKeepsLog(cfg, clock, t, Check(k, now));
    if !Limited(cfg, t, now) {
      RetainTwice(t.history, t.cutoff, now - cfg.window);
      RetainCounts(t.history, now - cfg.window);
      forall a | now - cfg.window <= a ensures Count(t.history, From(a)) <= cfg.burst - 1 {
        CountWithin(t.history, From(a), From(now - cfg.window));
      }
    }
  }

  lemma RecordKeepsBounded(cfg: Config, clock: int, callers: nat, t: Track, k: Key, now: int)
    requires Bounded(cfg, clock, callers, t) && clock <= now && t.between > 0
    ensures Bounded(cfg, now, callers, Step(cfg, t, Record(k, now)))
  {
    StepKeepsLog(cfg, clock, t, Record(k, now));
    var after := t.history + [now];
    forall a | now - cfg.window <= a
      ensures Count(after, From(a)) + t.between - 1 <= cfg.burst + callers - 1
    {
      CountSnoc(t.history, now, From(a));
    }
    forall a ensures Count(after, Within(a, cfg.window)) <= cfg.burst + callers - 1 {
      CountSnoc(t.history, now, Within(a, cfg.window));
      if a <= now <= a + cfg.window {
        CountWithin(after, Within(a, cfg.window), From(a));
        CountSnoc(t.history, now, From(a));
      }
    }
  }

  lemma IdleKeepsBounded(cfg: Config, clock: int, callers: nat, t: Track, now: int)
    requires Bounded(cfg, clock, callers, t) && clock <= now
    ensures Bounded(cfg, now, callers, t)
  {}

  ghost predicate AllBounded(cfg: Config, start: int, callers: nat, s: Limiter) {
    forall k :: Bounded(cfg, s.clock, callers, Get(cfg, start, s, k))
  }

  lemma StepKeepsBounded(cfg: Config, clock: int, callers: nat, t: Track, op: Op)
    requires Bounded(cfg, clock, callers, t) && clock <= op.time && (op.Record? ==> t.between > 0)
    requires Step(cfg, t, op).between <= callers
    ensures Bounded(cfg, op.time, callers, Step(cfg, t, op))
  {
    match op {
      case Check(k, now) => CheckKeepsBounded(cfg, clock, callers, t, k, now);
      case Record(k, now) => RecordKeepsBounded(cfg, clock, callers, t, k, now);
      case Abandon(_, _) =>
    }
  }

  lemma StepKeepsAllBounded(cfg: Config, start: int, callers: nat, s: Limiter, op: Op)
    requires AllBounded(cfg, start, callers, s) && s.clock <= op.time
    requires op.Record? ==> Get(cfg, start, s, op.key).between > 0
    requires Step(cfg, Get(cfg, start, s, op.key), op).between <= callers
    ensures AllBounded(cfg, start, callers, Next(cfg, start, s, op))
  {
    var s' := Next(cfg, start, s, op);
    forall k ensures Bounded(cfg, s'.clock, callers, Get(cfg, start, s', k)) {
      var t := Get(cfg, start, s, k);
      assert Bounded(cfg, s.clock, callers, t);
      if k == op.key {
        StepKeepsBounded(cfg, s.clock, callers, t, op);
      } else {
        IdleKeepsBounded(cfg, s.clock, callers, t, op.time);
      }
    }
  }

  lemma {:induction false} EveryRunIsBounded(cfg: Config, start: int, callers: nat, ops: seq<Op>)
    requires callers >= 1 && Disciplined(cfg, start, callers, ops)
    ensures AllBounded(cfg, start, callers, Run(cfg, start, ops))
  {
    if ops == [] {
      assert Bounded(cfg, start, callers, Track([], [], start - cfg.window, 0));
    } else {
      var front := ops[..|ops| - 1];
      assert forall i :: 0 <= i < |front| ==> front[..i] == ops[..i] && front[i] == ops[i];
      EveryRunIsBounded(cfg, start, callers, front);
      StepKeepsAllBounded(cfg, start, callers, Run(cfg, start, front), ops[|ops| - 1]);
    }
  }

  /**
   With at most `callers` callers between check and record, every closed interval as long as the window
   holds at most burst + callers - 1 recorded requests of a key; atomic check-and-record gives burst.
   */
  lemma BurstBound(cfg: Config, start: int, callers: nat, ops: seq<Op>, k: Key, a: int)
    requires callers >= 1 && Disciplined(cfg, start, callers, ops)
    ensures Count(Get(cfg, start, Run(cfg, start, ops), k).history, Within(a, cfg.window)) <= cfg.burst + callers - 1
  {
    EveryRunIsBounded(cfg, start, callers, ops);
    assert Bounded(cfg, Run(cfg, start, ops).clock, callers, Get(cfg, start, Run(cfg, start, ops), k));
  }

  lemma CheckSeesHistory(cfg: Config, t: Track, k: Key, now: int)
    requires LogIsRecentHistory(t) && t.cutoff <= now - cfg.window
    ensures Step(cfg, t, Check(k, now)).log == Retain(t.history, now - cfg.window)
    ensures Limited(cfg, t, now) <==> Count(t.history, From(now - cfg.window)) >= cfg.burst
  {
    RetainTwice(t.history, t.cutoff, now - cfg.window);
    RetainCounts(t.history, now - cfg.window);
  }

  lemma {:induction false} LogsFollowHistory(cfg: Config, start: int, ops: seq<Op>, k: Key)
    requires Ordered(start, ops)
    ensures var s := Run(cfg, start, ops); var t := Get(cfg, start, s, k);
      && s.clock == ClockAfter(start, ops)
      && LogIsRecentHistory(t) && t.cutoff <= s.clock - cfg.window
  {
    if ops != [] {
      var front, op := ops[..|ops| - 1], ops[|ops| - 1];
      LogsFollowHistory(cfg, start, front, k);
      var s := Run(cfg, start, front);
      assert s.clock <= op.time;
      if k == op.key { StepKeepsLog(cfg, s.clock, Get(cfg, start, s, k), op); }
    }
  }

  /** Pruning loses nothing a check can ask for, whoever records what and when: a check sees the window of the whole history. */
  lemma PrunedLogIsWindowOfHistory(cfg: Config, start: int, ops: seq<Op>, k: Key, now: int)
    requires Ordered(start, ops) && Run(cfg, start, ops).clock <= now
    ensures var t := Get(cfg, start, Run(cfg, start, ops), k);
      && Step(cfg, t, Check(k, now)).log == Retain(t.history, now - cfg.window)
      && (Limited(cfg, t, now) <==> Count(t.history, From(now - cfg.window)) >= cfg.burst)
  {
    LogsFollowHistory(cfg, start, ops, k);
    CheckSeesHistory(cfg, Get(cfg, start, Run(cfg, start, ops), k), k, now);
  }

  // ---------------------------------------------------------------------------
  // The bound is attained: concurrent callers do exceed the burst size
  // ---------------------------------------------------------------------------

  function Zeros(n: nat): seq<int> {
    if n == 0 then [] else Zeros(n - 1) + [0]
  }

  lemma {:induction false} RetainAll(log: seq<int>, a: int)
    requires forall i :: 0 <= i < |log| ==> a <= log[i]
    ensures Retain(log, a) == log
  {
    if log != [] {
      RetainAll(log[..|log| - 1], a);
      assert log == log[..|log| - 1] + [log[|log| - 1]];
    }
  }

  lemma {:induction false} ZerosAre(n: nat)
    ensures |Zeros(n)| == n && forall i :: 0 <= i < n ==> Zeros(n)[i] == 0
  {
    if n > 0 { ZerosAre(n - 1); }
  }

  lemma ZerosKept(n: nat, w: nat)
    ensures |Zeros(n)| == n && Retain(Zeros(n), 0 - w) == Zeros(n)
  {
    ZerosAre(n);
    RetainAll(Zeros(n), 0 - w);
  }

  lemma {:induction false} ZerosCount(n: nat, w: nat)
    ensures Count(Zeros(n), Within(0, w)) == n
  {
    if n > 0 {
      ZerosCount(n - 1, w);
      CountSnoc(Zeros(n - 1), 0, Within(0, w));
    }
  }

  /** After a run at time 0: `n` requests recorded and `b` callers in between, for key `k`. */
  ghost predicate At(cfg: Config, callers: nat, ops: seq<Op>, k: Key, n: nat, b: nat) {
    && Disciplined(cfg, 0, callers, ops)
    && Run(cfg, 0, ops).clock == 0
    && Get(cfg, 0, Run(cfg, 0, ops), k) == Track(Zeros(n), Zeros(n), 0 - cfg.window, b)
  }

  lemma AppendOp(cfg: Config, callers: nat, ops: seq<Op>, op: Op)
    requires Disciplined(cfg, 0, callers, ops) && Run(cfg, 0, ops).clock == op.time == 0
    requires var t := Get(cfg, 0, Run(cfg, 0, ops), op.key);
      (op.Record? ==> t.between > 0) && Step(cfg, t, op).between <= callers
    ensures Disciplined(cfg, 0, callers, ops + [op])
    ensures Run(cfg, 0, ops + [op]).clock == 0
    ensures Get(cfg, 0, Run(cfg, 0, ops + [op]), op.key) == Step(cfg, Get(cfg, 0, Run(cfg, 0, ops), op.key), op)
  {
    var all := ops + [op];
    assert all[..|ops|] == ops;
    assert forall i :: 0 <= i < |ops| ==> all[..i] == ops[..i] && all[i] == ops[i];
  }

  lemma CheckAtZero(cfg: Config, callers: nat, ops: seq<Op>, k: Key, n: nat, b: nat)
    requires At(cfg, callers, ops, k, n, b) && n < cfg.burst && b < callers
    ensures At(cfg, callers, ops + [Check(k, 0)], k, n, b + 1)
  {
    ZerosKept(n, cfg.window);
    CheckOfKept(cfg, k, Zeros(n), b, 0, 0 - cfg.window);
    AppendOp(cfg, callers, ops, Check(k, 0));
  }

  lemma CheckOfKept(cfg: Config, k: Key, log: seq<int>, b: nat, now: int, cutoff: int)
    requires cutoff == now - cfg.window && Retain(log, cutoff) == log && |log| < cfg.burst
    ensures Step(cfg, Track(log, log, cutoff, b), Check(k, now)) == Track(log, log, cutoff, b + 1)
  {
    assert !Limited(cfg, Track(log, log, cutoff, b), now);
  }

  lemma OneTurn(cfg: Config, callers: nat, ops: seq<Op>, k: Key, n: nat)
    requires At(cfg, callers, ops, k, n, 0) && n < cfg.burst && callers >= 1
    ensures At(cfg, callers, ops + [Check(k, 0)] + [Record(k, 0)], k, n + 1, 0)
  {
    CheckAtZero(cfg, callers, ops, k, n, 0);
    RecordAtZero(cfg, callers, ops + [Check(k, 0)], k, n, 1);
  }

  lemma NoTurns(cfg: Config, callers: nat, k: Key)
    ensures At(cfg, callers, [], k, 0, 0)
  {}

  lemma RecordAtZero(cfg: Config, callers: nat, ops: seq<Op>, k: Key, n: nat, b: nat)
    requires At(cfg, callers, ops, k, n, b) && 0 < b <= callers
    ensures At(cfg, callers, ops + [Record(k, 0)], k, n + 1, b - 1)
  {
    AppendOp(cfg, callers, ops, Record(k, 0));
  }

  /** `n` callers one after the other. */
  lemma {:induction false} TakeTurns(cfg: Config, callers: nat, k: Key, n: nat) returns (ops: seq<Op>)
    requires n <= cfg.burst && callers >= 1
    ensures At(cfg, callers, ops, k, n, 0)
  {
    if n == 0 {
      ops := [];
      NoTurns(cfg, callers, k);
    } else {
      ops := TakeTurns(cfg, callers, k, n - 1);
      OneTurn(cfg, callers, ops, k, n - 1);
      ops := ops + [Check(k, 0)] + [Record(k, 0)];
    }
  }

  /** `b` further callers all pass the check before any of them records. */
  lemma {:induction false} CheckTogether(cfg: Config, callers: nat, k: Key, n: nat, b: nat) returns (ops: seq<Op>)
    requires n < cfg.burst && b <= callers && callers >= 1
    ensures At(cfg, callers, ops, k, n, b)
  {
    if b == 0 {
      ops := TakeTurns(cfg, callers, k, n);
    } else {
      ops := CheckTogether(cfg, callers, k, n, b - 1);
      CheckAtZero(cfg, callers, ops, k, n, b - 1);
      ops := ops + [Check(k, 0)];
    }
  }

  lemma {:induction false} RecordTogether(cfg: Config, callers: nat, k: Key, n: nat, r: nat) returns (ops: seq<Op>)
    requires n < cfg.burst && r <= callers && callers >= 1
    ensures At(cfg, callers, ops, k, n + r, callers - r)
  {
    if r == 0 {
      ops := CheckTogether(cfg, callers, k, n, callers);
    } else {
      ops := RecordTogether(cfg, callers, k, n, r - 1);
      RecordAtZero(cfg, callers, ops, k, n + r - 1, callers - r + 1);
      ops := ops + [Record(k, 0)];
    }
  }

  lemma BurstBoundIsAttained(cfg: Config, callers: nat, k: Key) returns (ops: seq<Op>)
    requires cfg.burst >= 1 && callers >= 1
    ensures Disciplined(cfg, 0, callers, ops)
    ensures Count(Get(cfg, 0, Run(cfg, 0, ops), k).history, Within(0, cfg.window)) == cfg.burst + callers - 1
  {
    ops := RecordTogether(cfg, callers, k, cfg.burst - 1, callers);
    ZerosCount(cfg.burst - 1 + callers, cfg.window);
  }

  lemma NothingPasses(cfg: Config, t: Track, op: Op)
    requires cfg.burst == 0 && t.history == [] && t.between == 0 && !op.Record?
    ensures Step(cfg, t, op).history == [] && Step(cfg, t, op).between == 0
  {}

  lemma {:induction false} NoBurstNoRequests(cfg: Config, start: int, callers: nat, ops: seq<Op>, k: Key)
    requires cfg.burst == 0 && Disciplined(cfg, start, callers, ops)
    ensures var t := Get(cfg, start, Run(cfg, start, ops), k); t.history == [] && t.between == 0
  {
    if ops != [] {
      var front := ops[..|ops| - 1];
      assert forall i :: 0 <= i < |front| ==> front[..i] == ops[..i] && front[i] == ops[i];
      NoBurstNoRequests(cfg, start, callers, front, k);
      var op := ops[|ops| - 1];
      if k == op.key { NothingPasses(cfg, Get(cfg, start, Run(cfg, start, front), k), op); }
    }
  }

  /** What the limiter is for: no interval as long as the window holds more than `burst` requests of a key. */
  ghost predicate BurstKept(cfg: Config, callers: nat, k: Key) {
    forall start, ops, a :: Disciplined(cfg, start, callers, ops) ==>
      Count(Get(cfg, start, Run(cfg, start, ops), k).history, Within(a, cfg.window)) <= cfg.burst
  }

  /** It keeps that promise exactly when callers check and record one at a time, or nothing is let through. */
  lemma BurstKeptExactlyWhen(cfg: Config, callers: nat, k: Key)
    requires callers >= 1
    ensures BurstKept(cfg, callers, k) <==> callers == 1 || cfg.burst == 0
  {
    if callers == 1 || cfg.burst == 0 {
      forall start, ops, a | Disciplined(cfg, start, callers, ops)
        ensures Count(Get(cfg, start, Run(cfg, start, ops), k).history, Within(a, cfg.window)) <= cfg.burst
      {
        if callers == 1 { BurstBound(cfg, start, callers, ops, k, a); } else { NoBurstNoRequests(cfg, start, callers, ops, k); }
      }
    } else {
      var ops := BurstBoundIsAttained(cfg, callers, k);
      assert Count(Get(cfg, 0, Run(cfg, 0, ops), k).history, Within(0, cfg.window)) == cfg.burst + callers - 1;
    }
  }
}
