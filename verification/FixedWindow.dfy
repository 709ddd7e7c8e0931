/** The request middleware's limiter: a counter per client that restarts when its window is over. */
module FixedWindow {
  import opened Clock
  import opened Wrappers
  import opened Counting

  type Client = nat

  datatype Config = Config(limit: nat, burst: nat, window: nat)

  datatype Info = Info(requests: nat, windowStart: nat, permits: nat)

  type Limits = map<Client, Info>

  /** The entry a check works on: created if missing, restarted if its window is over. */
  function Current(cfg: Config, entry: Option<Info>, now: nat): Info {
    var info := if entry.Some? then entry.value else Info(0, now, cfg.burst);
    if Elapsed(now, info.windowStart) >= cfg.window then info.(requests := 0, windowStart := now) else info
  }

  /** `try_acquire` on the semaphore; the permit is a temporary, dropped at the end of the condition it stands in. */
  function Take(info: Info): Option<Info> {
    if info.permits == 0 then None else Some(info.(permits := info.permits - 1))
  }

  function GiveBack(info: Info): Info {
    info.(permits := info.permits + 1)
  }

  predicate Accepts(cfg: Config, info: Info) {
    info.requests < cfg.limit && Take(info).Some?
  }

  function Find(limits: Limits, c: Client): Option<Info> {
    if c in limits then Some(limits[c]) else None
  }

  function Check(cfg: Config, limits: Limits, c: Client, now: nat): (Limits, bool) {
    var info := Current(cfg, Find(limits, c), now);
    if info.requests >= cfg.limit then (limits[c := info], false)
    else
      match Take(info)
      case None => (limits[c := info], false)
      case Some(held) => (limits[c := GiveBack(held).(requests := held.requests + 1)], true)
  }

  function Cleanup(cfg: Config, limits: Limits, now: nat): Limits {
    map c | c in limits && Elapsed(now, limits[c].windowStart) < cfg.window :: limits[c]
  }

  class RateLimiter {
    const cfg: Config
    var limits: Limits

    constructor (cfg: Config)
      ensures this.cfg == cfg && limits == map[]
    {
      this.cfg := cfg;
      limits := map[];
    }

    method CheckRateLimit(c: Client, now: nat) returns (ok: bool)
      modifies this
      ensures (limits, ok) == Check(cfg, old(limits), c, now)
    {
      if c !in limits { limits := limits[c := Info(0, now, cfg.burst)]; }
      if Elapsed(now, limits[c].windowStart) >= cfg.window {
        limits := limits[c := limits[c].(requests := 0, windowStart := now)];
      }
      assert limits == old(limits)[c := Current(cfg, Find(old(limits), c), now)];
      if limits[c].requests >= cfg.limit { return false; }
      if limits[c].permits == 0 { return false; }
      var info := limits[c];
      limits := limits[c := info.(permits := info.permits - 1)];
      limits := limits[c := limits[c].(permits := limits[c].permits + 1)];
      limits := limits[c := limits[c].(requests := limits[c].requests + 1)];
      assert limits == old(limits)[c := info.(requests := info.requests + 1)];
      return true;
    }

    method CleanupExpiredLimits(now: nat)
      modifies this
      ensures limits == Cleanup(cfg, old(limits), now)
    {
      limits := map c | c in limits && Elapsed(now, limits[c].windowStart) < cfg.window :: limits[c];
    }
  }

  /** A cleanup keeps exactly the entries whose window is not over, as they are. */
  lemma CleanupKeepsExactly(cfg: Config, limits: Limits, now: nat, c: Client)
    ensures Find(Cleanup(cfg, limits, now), c)
      == if c in limits && cfg.window > 0 && now < limits[c].windowStart + cfg.window then Some(limits[c]) else None
  {}

  // ---------------------------------------------------------------------------
  // Runs
  // ---------------------------------------------------------------------------

  datatype Op = Request(client: Client, time: nat) | Sweep(time: nat)

  /** An accepted request, with the start of the window it was counted in. */
  datatype Hit = Hit(time: nat, start: nat)

  datatype State = State(limits: Limits, hits: map<Client, seq<Hit>>, answers: seq<bool>, clock: nat)

  function HitsOf(s: State, c: Client): seq<Hit> {
    if c in s.hits then s.hits[c] else []
  }

  function Exec(cfg: Config, s: State, op: Op): State {
    match op
    case Request(c, t) =>
      var (limits, ok) := Check(cfg, s.limits, c, t);
      var hits := if ok then s.hits[c := HitsOf(s, c) + [Hit(t, limits[c].windowStart)]] else s.hits;
      State(limits, hits, s.answers + [ok], t)
    case Sweep(t) => s.(limits := Cleanup(cfg, s.limits, t), clock := t)
  }

  function Run(cfg: Config, ops: seq<Op>): State {
    if ops == [] then State(map[], map[], [], 0) else Exec(cfg, Run(cfg, ops[..|ops| - 1]), ops[|ops| - 1])
  }

  /** The clock does not run backwards. */
  predicate Ordered(ops: seq<Op>) {
    forall i, j :: 0 <= i < j < |ops| ==> ops[i].time <= ops[j].time
  }

  // ---------------------------------------------------------------------------
  // Invariant of one client
  // ---------------------------------------------------------------------------

  predicate SameOrLater(w: nat, s1: nat, s2: nat) {
    s1 == s2 || s1 + w <= s2
  }

  /** Each window's hits fall inside it, windows do not overlap, and each opens with an accepted request. */
  ghost predicate HitsSound(cfg: Config, hits: seq<Hit>) {
    && (forall i :: 0 <= i < |hits| ==> hits[i].start <= hits[i].time)
    && (forall i, j :: 0 <= i < j < |hits| ==> hits[i].time <= hits[j].time)
    && (forall i :: 0 <= i < |hits| && cfg.window > 0 ==> hits[i].time < hits[i].start + cfg.window)
    && (forall i, j :: 0 <= i < j < |hits| ==> SameOrLater(cfg.window, hits[i].start, hits[j].start))
    && (forall i :: 0 <= i < |hits| ==> Opened(hits, hits[i].start))
    && (cfg.window > 0 ==> forall s :: Count(hits, InWindowFrom(s)) <= cfg.limit)
  }

  function InWindowFrom(s: nat): Hit -> bool {
    (h: Hit) => h.start == s
  }

  function InInterval(a: nat, w: nat): Hit -> bool {
    (h: Hit) => a <= h.time < a + w
  }

  function InBoth(a: nat, w: nat, s: nat): Hit -> bool {
    (h: Hit) => a <= h.time < a + w && h.start == s
  }

  predicate Opened(hits: seq<Hit>, s: nat) {
    exists k :: 0 <= k < |hits| && hits[k] == Hit(s, s)
  }

  /** How the client's entry, if it still has one, relates to its hits. */
  ghost predicate EntrySound(cfg: Config, clock: nat, entry: Option<Info>, hits: seq<Hit>) {
    && (forall i :: 0 <= i < |hits| ==> hits[i].time <= clock)
    && match entry
       case None => forall i :: 0 <= i < |hits| ==> hits[i].start + cfg.window <= clock
       case Some(info) =>
         && info.windowStart <= clock && info.permits == cfg.burst
         && (cfg.limit > 0 && cfg.burst > 0 ==> info.requests > 0)
         && (forall i :: 0 <= i < |hits| ==> SameOrLater(cfg.window, hits[i].start, info.windowStart))
         && (cfg.window > 0 ==> info.requests == Count(hits, InWindowFrom(info.windowStart)))
  }

  ghost predicate ClientSound(cfg: Config, clock: nat, entry: Option<Info>, hits: seq<Hit>) {
    HitsSound(cfg, hits) && EntrySound(cfg, clock, entry, hits)
  }

  lemma OpenedStays(hits: seq<Hit>, h: Hit, s: nat)
    requires Opened(hits, s)
    ensures Opened(hits + [h], s)
  {
    var k :| 0 <= k < |hits| && hits[k] == Hit(s, s);
    assert (hits + [h])[k] == Hit(s, s);
  }

  lemma NewHitIsOpened(cfg: Config, clock: nat, entry: Option<Info>, hits: seq<Hit>, now: nat)
    requires ClientSound(cfg, clock, entry, hits) && clock <= now
    requires Accepts(cfg, Current(cfg, entry, now))
    ensures var start := Current(cfg, entry, now).windowStart; Opened(hits + [Hit(now, start)], start)
  {
    var start := Current(cfg, entry, now).windowStart;
    if start == now {
      assert (hits + [Hit(now, start)])[|hits|] == Hit(now, now);
    } else {
      CurrentCount(cfg, clock, entry, hits, now);
      var j := CountWitness(hits, InWindowFrom(start));
      assert Opened(hits, hits[j].start);
      OpenedStays(hits, Hit(now, start), start);
    }
  }

  lemma NewHitFits(cfg: Config, clock: nat, entry: Option<Info>, hits: seq<Hit>, now: nat, s: nat)
    requires ClientSound(cfg, clock, entry, hits) && clock <= now && cfg.window > 0
    requires Accepts(cfg, Current(cfg, entry, now))
    ensures Count(hits + [Hit(now, Current(cfg, entry, now).windowStart)], InWindowFrom(s)) <= cfg.limit
  {
    CountSnoc(hits, Hit(now, Current(cfg, entry, now).windowStart), InWindowFrom(s));
    CurrentCount(cfg, clock, entry, hits, now);
  }

  lemma CheckKeepsHits(cfg: Config, clock: nat, entry: Option<Info>, hits: seq<Hit>, now: nat)
    requires ClientSound(cfg, clock, entry, hits) && clock <= now
    requires Accepts(cfg, Current(cfg, entry, now))
    ensures HitsSound(cfg, hits + [Hit(now, Current(cfg, entry, now).windowStart)])
  {
    var h := Hit(now, Current(cfg, entry, now).windowStart);
    var after := hits + [h];
    NewHitIsOpened(cfg, clock, entry, hits, now);
    forall i | 0 <= i < |hits| ensures SameOrLater(cfg.window, hits[i].start, h.start) {}
    forall s | cfg.window > 0 ensures Count(after, InWindowFrom(s)) <= cfg.limit {
      NewHitFits(cfg, clock, entry, hits, now, s);
    }
    forall i | 0 <= i < |after| ensures Opened(after, after[i].start) {
      if i < |hits| { OpenedStays(hits, h, hits[i].start); }
    }
  }

  /** The counter is the number of hits of the window it stands for. */
  lemma CurrentCount(cfg: Config, clock: nat, entry: Option<Info>, hits: seq<Hit>, now: nat)
    requires ClientSound(cfg, clock, entry, hits) && clock <= now && cfg.window > 0
    ensures var info := Current(cfg, entry, now); info.requests == Count(hits, InWindowFrom(info.windowStart))
  {
    var info := Current(cfg, entry, now);
    if info.windowStart == now && (entry.None? || entry.value.windowStart != now) {
      CountNone(hits, InWindowFrom(now));
    }
  }

  lemma CheckKeepsEntry(cfg: Config, clock: nat, entry: Option<Info>, hits: seq<Hit>, now: nat)
    requires ClientSound(cfg, clock, entry, hits) && clock <= now
    ensures var info := Current(cfg, entry, now);
      if Accepts(cfg, info)
      then EntrySound(cfg, now, Some(info.(requests := info.requests + 1)), hits + [Hit(now, info.windowStart)])
      else EntrySound(cfg, now, Some(info), hits)
  {
    var info := Current(cfg, entry, now);
    if cfg.window > 0 {
      CurrentCount(cfg, clock, entry, hits, now);
      CountSnoc(hits, Hit(now, info.windowStart), InWindowFrom(info.windowStart));
    }
  }

  ghost predicate Sound(cfg: Config, s: State) {
    forall c :: ClientSound(cfg, s.clock, Find(s.limits, c), HitsOf(s, c))
  }

  lemma IdleKeepsSound(cfg: Config, clock: nat, entry: Option<Info>, hits: seq<Hit>, now: nat)
    requires ClientSound(cfg, clock, entry, hits) && clock <= now
    ensures ClientSound(cfg, now, entry, hits)
    ensures entry.Some? && Elapsed(now, entry.value.windowStart) >= cfg.window ==> ClientSound(cfg, now, None, hits)
  {}

  /** The permit is back by the time the entry is stored. */
  lemma RequestEffect(cfg: Config, s: State, c: Client, t: nat)
    ensures var s', info := Exec(cfg, s, Request(c, t)), Current(cfg, Find(s.limits, c), t);
      if Accepts(cfg, info)
      then Find(s'.limits, c) == Some(info.(requests := info.requests + 1)) && HitsOf(s', c) == HitsOf(s, c) + [Hit(t, info.windowStart)]
      else Find(s'.limits, c) == Some(info) && HitsOf(s', c) == HitsOf(s, c)
  {}

  lemma AnsweredClientSound(cfg: Config, clock: nat, entry: Option<Info>, hits: seq<Hit>, t: nat)
    requires ClientSound(cfg, clock, entry, hits) && clock <= t
    ensures var info := Current(cfg, entry, t);
      if Accepts(cfg, info)
      then ClientSound(cfg, t, Some(info.(requests := info.requests + 1)), hits + [Hit(t, info.windowStart)])
      else ClientSound(cfg, t, Some(info), hits)
  {
    CheckKeepsEntry(cfg, clock, entry, hits, t);
    if Accepts(cfg, Current(cfg, entry, t)) { CheckKeepsHits(cfg, clock, entry, hits, t); }
  }

  lemma RequestKeepsClient(cfg: Config, s: State, c: Client, t: nat)
    requires ClientSound(cfg, s.clock, Find(s.limits, c), HitsOf(s, c)) && s.clock <= t
    ensures var s' := Exec(cfg, s, Request(c, t)); ClientSound(cfg, t, Find(s'.limits, c), HitsOf(s', c))
  {
    AnsweredClientSound(cfg, s.clock, Find(s.limits, c), HitsOf(s, c), t);
    RequestEffect(cfg, s, c, t);
  }

  lemma StepKeepsSound(cfg: Config, s: State, op: Op)
    requires Sound(cfg, s) && s.clock <= op.time
    ensures Sound(cfg, Exec(cfg, s, op))
  {
    var s' := Exec(cfg, s, op);
    forall c ensures ClientSound(cfg, s'.clock, Find(s'.limits, c), HitsOf(s', c)) {
      assert ClientSound(cfg, s.clock, Find(s.limits, c), HitsOf(s, c));
      if op == Request(c, op.time) {
        RequestKeepsClient(cfg, s, c, op.time);
      } else {
        assert HitsOf(s', c) == HitsOf(s, c) && s'.clock == op.time;
        assert Find(s'.limits, c) == Find(s.limits, c)
            || (Find(s'.limits, c) == None && c in s.limits && Elapsed(op.time, s.limits[c].windowStart) >= cfg.window);
        IdleKeepsSound(cfg, s.clock, Find(s.limits, c), HitsOf(s, c), op.time);
      }
    }
  }

  lemma {:induction false} EveryRunIsSound(cfg: Config, ops: seq<Op>)
    requires Ordered(ops)
    ensures Sound(cfg, Run(cfg, ops))
    ensures Run(cfg, ops).clock == if ops == [] then 0 else ops[|ops| - 1].time
  {
    if ops == [] {
      forall c ensures ClientSound(cfg, 0, Find(map[], c), []) {}
    } else {
      EveryRunIsSound(cfg, ops[..|ops| - 1]);
      StepKeepsSound(cfg, Run(cfg, ops[..|ops| - 1]), ops[|ops| - 1]);
    }
  }

  // ---------------------------------------------------------------------------
  // The bound
  // ---------------------------------------------------------------------------

  /** Accepted requests in an interval as long as the window were counted in its first or its last window. */
  lemma OnlyTwoStarts(cfg: Config, hits: seq<Hit>, a: nat, f: nat, l: nat, i: nat)
    requires HitsSound(cfg, hits) && cfg.window > 0 && f <= i <= l < |hits|
    requires a <= hits[f].time && hits[l].time < a + cfg.window
    ensures hits[i].start == hits[f].start || hits[i].start == hits[l].start
  {
    assert f < i ==> SameOrLater(cfg.window, hits[f].start, hits[i].start);
    assert i < l ==> SameOrLater(cfg.window, hits[i].start, hits[l].start);
  }

  /** When it meets two windows, the opening request of the first lies before the interval. */
  lemma FirstOfTwoWindows(cfg: Config, hits: seq<Hit>, a: nat, f: nat, l: nat)
    requires HitsSound(cfg, hits) && cfg.window > 0 && f <= l < |hits|
    requires a <= hits[f].time && hits[l].time < a + cfg.window && hits[f].start != hits[l].start
    ensures Count(hits, InBoth(a, cfg.window, hits[f].start)) + 1 <= cfg.limit
  {
    var s1 := hits[f].start;
    assert SameOrLater(cfg.window, s1, hits[l].start) && hits[l].start <= hits[l].time;
    assert Opened(hits, s1);
    var k :| 0 <= k < |hits| && hits[k] == Hit(s1, s1);
    assert s1 < a;
    CountStrictlyWithin(hits, InBoth(a, cfg.window, s1), InWindowFrom(s1), k);
    assert Count(hits, InWindowFrom(s1)) <= cfg.limit;
  }

  lemma TwoWindows(cfg: Config, hits: seq<Hit>, a: nat)
    requires HitsSound(cfg, hits) && cfg.window > 0 && Count(hits, InInterval(a, cfg.window)) > 0
    ensures Count(hits, InInterval(a, cfg.window)) <= 2 * cfg.limit - 1
  {
    var inside := InInterval(a, cfg.window);
    var f, l := FirstAndLast(hits, inside);
    var s1, s2 := hits[f].start, hits[l].start;
    forall i | 0 <= i < |hits| && inside(hits[i]) ensures hits[i].start == s1 || hits[i].start == s2 {
      OnlyTwoStarts(cfg, hits, a, f, l, i);
    }
    assert Count(hits, InWindowFrom(s2)) <= cfg.limit;
    if s1 == s2 {
      CountWithin(hits, inside, InWindowFrom(s2));
    } else {
      FirstOfTwoWindows(cfg, hits, a, f, l);
      CountCovered(hits, inside, InBoth(a, cfg.window, s1), InWindowFrom(s2));
    }
  }

  lemma {:induction false} FirstAndLast(hits: seq<Hit>, p: Hit -> bool) returns (f: nat, l: nat)
    requires Count(hits, p) > 0
    ensures f <= l < |hits| && p(hits[f]) && p(hits[l])
    ensures forall i :: 0 <= i < |hits| && p(hits[i]) ==> f <= i <= l
  {
    var n := |hits| - 1;
    if Count(hits[..n], p) > 0 {
      f, l := FirstAndLast(hits[..n], p);
      assert forall i :: 0 <= i < n ==> hits[..n][i] == hits[i];
      if p(hits[n]) { l := n; }
    } else {
      f, l := n, n;
      forall i | 0 <= i < n ensures !p(hits[i]) {
        if p(hits[i]) { CountHas(hits[..n], p, i); }
      }
    }
  }

  lemma {:induction false} CountHas(hits: seq<Hit>, p: Hit -> bool, i: nat)
    requires i < |hits| && p(hits[i])
    ensures Count(hits, p) > 0
  {
    if i < |hits| - 1 { CountHas(hits[..|hits| - 1], p, i); }
  }

  /**
   In every run, with cleanups anywhere, one client has at most 2 * limit - 1 accepted requests in any
   half-open interval as long as the window (none if the limit is 0).
   */
  lemma AtMostTwiceTheLimit(cfg: Config, ops: seq<Op>, c: Client, a: nat)
    requires Ordered(ops)
    ensures var n := Count(HitsOf(Run(cfg, ops), c), InInterval(a, cfg.window));
      n == 0 || n <= 2 * cfg.limit - 1
  {
    EveryRunIsSound(cfg, ops);
    var hits := HitsOf(Run(cfg, ops), c);
    assert ClientSound(cfg, Run(cfg, ops).clock, Find(Run(cfg, ops).limits, c), hits);
    if cfg.window == 0 {
      CountNone(hits, InInterval(a, 0));
    } else if Count(hits, InInterval(a, cfg.window)) > 0 {
      TwoWindows(cfg, hits, a);
    }
  }

  /** No permit is ever missing, so the burst size decides an answer only when it is zero. */
  lemma BurstControlIsInert(cfg: Config, ops: seq<Op>, c: Client, now: nat)
    requires Ordered(ops)
    ensures var e := Find(Run(cfg, ops).limits, c); e.Some? ==> e.value.permits == cfg.burst
    ensures var limits := Run(cfg, ops).limits;
      Check(cfg, limits, c, now).1 <==> Current(cfg, Find(limits, c), now).requests < cfg.limit && cfg.burst > 0
  {
    EveryRunIsSound(cfg, ops);
    assert ClientSound(cfg, Run(cfg, ops).clock, Find(Run(cfg, ops).limits, c), HitsOf(Run(cfg, ops), c));
  }

  // ---------------------------------------------------------------------------
  // The bound is attained: a client can get through almost twice per window
  // ---------------------------------------------------------------------------

  /** The same request k more times. */
  function Then(ops: seq<Op>, c: Client, t: nat, k: nat): seq<Op> {
    if k == 0 then ops else Then(ops, c, t, k - 1) + [Request(c, t)]
  }

  lemma RunSnoc(cfg: Config, ops: seq<Op>, op: Op)
    ensures Run(cfg, ops + [op]) == Exec(cfg, Run(cfg, ops), op)
  {
    assert (ops + [op])[..|ops|] == ops;
  }

  predicate UpTo(ops: seq<Op>, t: nat) {
    Ordered(ops) && forall i :: 0 <= i < |ops| ==> ops[i].time <= t
  }

  lemma {:induction false} ThenUpTo(ops: seq<Op>, c: Client, t: nat, k: nat)
    requires UpTo(ops, t)
    ensures UpTo(Then(ops, c, t, k), t)
  {
    if k > 0 { ThenUpTo(ops, c, t, k - 1); }
  }

  /** The client's entry and accepted requests. */
  predicate Stands(s: State, c: Client, info: Info, hits: seq<Hit>) {
    Find(s.limits, c) == Some(info) && HitsOf(s, c) == hits
  }

  lemma AcceptOne(cfg: Config, s: State, c: Client, t: nat)
    requires Accepts(cfg, Current(cfg, Find(s.limits, c), t))
    ensures var info := Current(cfg, Find(s.limits, c), t);
      Stands(Exec(cfg, s, Request(c, t)), c, info.(requests := info.requests + 1), HitsOf(s, c) + [Hit(t, info.windowStart)])
  {}

  lemma AcceptNext(cfg: Config, s: State, c: Client, t: nat, info: Info, hits: seq<Hit>)
    requires Stands(s, c, info, hits) && info.permits > 0
    requires Elapsed(t, info.windowStart) < cfg.window && info.requests < cfg.limit
    ensures Stands(Exec(cfg, s, Request(c, t)), c, info.(requests := info.requests + 1), hits + [Hit(t, info.windowStart)])
  {
    assert Current(cfg, Some(info), t) == info;
    AcceptOne(cfg, s, c, t);
  }

  function Repeat(cfg: Config, s: State, c: Client, t: nat, k: nat): State {
    if k == 0 then s else Exec(cfg, Repeat(cfg, s, c, t, k - 1), Request(c, t))
  }

  lemma {:induction false} RunThen(cfg: Config, ops: seq<Op>, c: Client, t: nat, k: nat)
    ensures Run(cfg, Then(ops, c, t, k)) == Repeat(cfg, Run(cfg, ops), c, t, k)
  {
    if k > 0 {
      RunThen(cfg, ops, c, t, k - 1);
      RunSnoc(cfg, Then(ops, c, t, k - 1), Request(c, t));
    }
  }

  /** As long as the window and the counter allow, repeated requests all get through. */
  lemma {:induction false} BurstAccepted(cfg: Config, s: State, c: Client, t: nat, k: nat, info: Info, hits: seq<Hit>)
    requires Stands(s, c, info, hits) && info.permits > 0
    requires Elapsed(t, info.windowStart) < cfg.window && info.requests + k <= cfg.limit
    ensures Stands(Repeat(cfg, s, c, t, k), c, info.(requests := info.requests + k), hits + Copies(Hit(t, info.windowStart), k))
  {
    var h := Hit(t, info.windowStart);
    if k == 0 {
      assert hits + Copies(h, 0) == hits;
    } else {
      BurstAccepted(cfg, s, c, t, k - 1, info, hits);
      AcceptNext(cfg, Repeat(cfg, s, c, t, k - 1), c, t, info.(requests := info.requests + k - 1), hits + Copies(h, k - 1));
      assert hits + Copies(h, k - 1) + [h] == hits + Copies(h, k);
    }
  }

  /** One request at 0 and the rest of the allowance just before the window ends ... */
  function BeforeTheEdge(cfg: Config, c: Client): seq<Op>
    requires cfg.limit >= 1 && cfg.window >= 1
  {
    Then([Request(c, 0)], c, cfg.window - 1, cfg.limit - 1)
  }

  /** ... then a full allowance just after it. */
  function Straddle(cfg: Config, c: Client): seq<Op>
    requires cfg.limit >= 1 && cfg.window >= 1
  {
    Then(BeforeTheEdge(cfg, c) + [Request(c, cfg.window)], c, cfg.window, cfg.limit - 1)
  }

  lemma FirstRequest(cfg: Config, c: Client)
    requires cfg.limit >= 1 && cfg.burst >= 1 && cfg.window >= 1
    ensures Stands(Run(cfg, [Request(c, 0)]), c, Info(1, 0, cfg.burst), [Hit(0, 0)])
  {
    assert [] + [Request(c, 0)] == [Request(c, 0)];
    RunSnoc(cfg, [], Request(c, 0));
    AcceptOne(cfg, Run(cfg, []), c, 0);
  }

  function HitsBefore(cfg: Config): seq<Hit>
    requires cfg.limit >= 1 && cfg.window >= 1
  {
    [Hit(0, 0)] + Copies(Hit(cfg.window - 1, 0), cfg.limit - 1)
  }

  function HitsAfter(cfg: Config): seq<Hit>
    requires cfg.limit >= 1
  {
    [Hit(cfg.window, cfg.window)] + Copies(Hit(cfg.window, cfg.window), cfg.limit - 1)
  }

  lemma RestOfTheWindow(cfg: Config, s: State, c: Client)
    requires cfg.limit >= 1 && cfg.burst >= 1 && cfg.window >= 1 && Stands(s, c, Info(1, 0, cfg.burst), [Hit(0, 0)])
    ensures Stands(Repeat(cfg, s, c, cfg.window - 1, cfg.limit - 1), c, Info(cfg.limit, 0, cfg.burst), HitsBefore(cfg))
  {
    BurstAccepted(cfg, s, c, cfg.window - 1, cfg.limit - 1, Info(1, 0, cfg.burst), [Hit(0, 0)]);
  }

  lemma BeforeTheEdgeRun(cfg: Config, c: Client)
    requires cfg.limit >= 1 && cfg.window >= 1
    ensures Run(cfg, BeforeTheEdge(cfg, c)) == Repeat(cfg, Run(cfg, [Request(c, 0)]), c, cfg.window - 1, cfg.limit - 1)
  {
    RunThen(cfg, [Request(c, 0)], c, cfg.window - 1, cfg.limit - 1);
  }

  lemma BeforeTheEdgeHits(cfg: Config, c: Client)
    requires cfg.limit >= 1 && cfg.burst >= 1 && cfg.window >= 1
    ensures Stands(Run(cfg, BeforeTheEdge(cfg, c)), c, Info(cfg.limit, 0, cfg.burst), HitsBefore(cfg))
  {
    FirstRequest(cfg, c);
    RestOfTheWindow(cfg, Run(cfg, [Request(c, 0)]), c);
    BeforeTheEdgeRun(cfg, c);
  }

  /** A request at the very end of the window restarts the counter. */
  lemma AfterTheEdgeHits(cfg: Config, s: State, c: Client, hits: seq<Hit>)
    requires cfg.limit >= 1 && cfg.burst >= 1 && cfg.window >= 1
    requires Stands(s, c, Info(cfg.limit, 0, cfg.burst), hits)
    ensures Stands(Repeat(cfg, Exec(cfg, s, Request(c, cfg.window)), c, cfg.window, cfg.limit - 1), c,
                   Info(cfg.limit, cfg.window, cfg.burst), hits + HitsAfter(cfg))
  {
    var w, k, h := cfg.window, cfg.limit - 1, Hit(cfg.window, cfg.window);
    AcceptOne(cfg, s, c, w);
    BurstAccepted(cfg, Exec(cfg, s, Request(c, w)), c, w, k, Info(1, w, cfg.burst), hits + [h]);
    assert hits + [h] + Copies(h, k) == hits + HitsAfter(cfg);
  }

  lemma StraddleHits(cfg: Config, c: Client)
    requires cfg.limit >= 1 && cfg.burst >= 1 && cfg.window >= 1
    ensures HitsOf(Run(cfg, Straddle(cfg, c)), c) == HitsBefore(cfg) + HitsAfter(cfg)
  {
    var ops := BeforeTheEdge(cfg, c);
    BeforeTheEdgeHits(cfg, c);
    AfterTheEdgeHits(cfg, Run(cfg, ops), c, HitsBefore(cfg));
    RunSnoc(cfg, ops, Request(c, cfg.window));
    RunThen(cfg, ops + [Request(c, cfg.window)], c, cfg.window, cfg.limit - 1);
  }

  lemma CountBefore(cfg: Config, p: Hit -> bool)
    requires cfg.limit >= 1 && cfg.window >= 1 && !p(Hit(0, 0)) && p(Hit(cfg.window - 1, 0))
    ensures Count(HitsBefore(cfg), p) == cfg.limit - 1
  {
    CountConcat([Hit(0, 0)], Copies(Hit(cfg.window - 1, 0), cfg.limit - 1), p);
    CountCopies(Hit(cfg.window - 1, 0), cfg.limit - 1, p);
  }

  lemma CountAfter(cfg: Config, p: Hit -> bool)
    requires cfg.limit >= 1 && p(Hit(cfg.window, cfg.window))
    ensures Count(HitsAfter(cfg), p) == cfg.limit
  {
    CountConcat([Hit(cfg.window, cfg.window)], Copies(Hit(cfg.window, cfg.window), cfg.limit - 1), p);
    CountCopies(Hit(cfg.window, cfg.window), cfg.limit - 1, p);
  }

  lemma StraddleCount(cfg: Config, c: Client)
    requires cfg.limit >= 1 && cfg.burst >= 1 && cfg.window >= 2
    ensures Count(HitsOf(Run(cfg, Straddle(cfg, c)), c), InInterval(cfg.window - 1, cfg.window)) == 2 * cfg.limit - 1
  {
    var p := InInterval(cfg.window - 1, cfg.window);
    StraddleHits(cfg, c);
    CountConcat(HitsBefore(cfg), HitsAfter(cfg), p);
    CountBefore(cfg, p);
    CountAfter(cfg, p);
  }

  lemma StraddleOrdered(cfg: Config, c: Client)
    requires cfg.limit >= 1 && cfg.window >= 1
    ensures Ordered(Straddle(cfg, c))
  {
    ThenUpTo([Request(c, 0)], c, cfg.window - 1, cfg.limit - 1);
    assert UpTo(BeforeTheEdge(cfg, c) + [Request(c, cfg.window)], cfg.window);
    ThenUpTo(BeforeTheEdge(cfg, c) + [Request(c, cfg.window)], c, cfg.window, cfg.limit - 1);
  }

  /** For every limit and every window longer than one tick some run gets exactly 2 * limit - 1 through. */
  lemma BoundIsAttained(cfg: Config, c: Client)
    requires cfg.limit >= 1 && cfg.burst >= 1 && cfg.window >= 2
    ensures Ordered(Straddle(cfg, c))
    ensures Count(HitsOf(Run(cfg, Straddle(cfg, c)), c), InInterval(cfg.window - 1, cfg.window)) == 2 * cfg.limit - 1
  {
    StraddleOrdered(cfg, c);
    StraddleCount(cfg, c);
  }

  lemma {:induction false} NoPermitsNoHits(cfg: Config, ops: seq<Op>, c: Client)
    requires Ordered(ops) && cfg.burst == 0
    ensures HitsOf(Run(cfg, ops), c) == []
  {
    if ops != [] {
      var front := ops[..|ops| - 1];
      NoPermitsNoHits(cfg, front, c);
      BurstControlIsInert(cfg, front, c, 0);
    }
  }

  lemma OneTickWindow(cfg: Config, ops: seq<Op>, c: Client, a: nat)
    requires Ordered(ops) && cfg.window == 1
    ensures Count(HitsOf(Run(cfg, ops), c), InInterval(a, 1)) <= cfg.limit
  {
    EveryRunIsSound(cfg, ops);
    var hits := HitsOf(Run(cfg, ops), c);
    assert ClientSound(cfg, Run(cfg, ops).clock, Find(Run(cfg, ops).limits, c), hits);
    CountWithin(hits, InInterval(a, 1), InWindowFrom(a));
  }

  /** What the limiter is for: no interval as long as the window lets more than the limit through. */
  ghost predicate LimitKept(cfg: Config, c: Client) {
    forall ops, a: nat :: Ordered(ops) ==> Count(HitsOf(Run(cfg, ops), c), InInterval(a, cfg.window)) <= cfg.limit
  }

  lemma SmallSettingsKeepLimit(cfg: Config, c: Client, ops: seq<Op>, a: nat)
    requires Ordered(ops) && (cfg.limit <= 1 || cfg.burst == 0 || cfg.window <= 1)
    ensures Count(HitsOf(Run(cfg, ops), c), InInterval(a, cfg.window)) <= cfg.limit
  {
    if cfg.burst == 0 {
      NoPermitsNoHits(cfg, ops, c);
    } else if cfg.window == 1 {
      OneTickWindow(cfg, ops, c, a);
    } else if cfg.window == 0 {
      CountNone(HitsOf(Run(cfg, ops), c), InInterval(a, 0));
    } else {
      AtMostTwiceTheLimit(cfg, ops, c, a);
    }
  }

  /** It keeps that promise exactly for limits of at most one, no permits at all, or windows of at most one tick. */
  lemma LimitKeptExactlyWhen(cfg: Config, c: Client)
    ensures LimitKept(cfg, c) <==> cfg.limit <= 1 || cfg.burst == 0 || cfg.window <= 1
  {
    if cfg.limit <= 1 || cfg.burst == 0 || cfg.window <= 1 {
      forall ops, a: nat | Ordered(ops) ensures Count(HitsOf(Run(cfg, ops), c), InInterval(a, cfg.window)) <= cfg.limit {
        SmallSettingsKeepLimit(cfg, c, ops, a);
      }
    } else {
      BoundIsAttained(cfg, c);
      var ops, a: nat := Straddle(cfg, c), cfg.window - 1;
      assert Count(HitsOf(Run(cfg, ops), c), InInterval(a, cfg.window)) == 2 * cfg.limit - 1;
    }
  }

  // ---------------------------------------------------------------------------
  // Cleanups change no answer
  // ---------------------------------------------------------------------------

  function WithoutSweeps(ops: seq<Op>): seq<Op> {
    if ops == [] then []
    else
      var front, last := WithoutSweeps(ops[..|ops| - 1]), ops[|ops| - 1];
      if last.Sweep? then front else front + [last]
  }

  /** A swept entry is missing only if the unswept one would be restarted anyway. */
  predicate Alike(cfg: Config, clock: nat, swept: Option<Info>, unswept: Option<Info>) {
    && (unswept.Some? ==> unswept.value.permits == cfg.burst && unswept.value.windowStart <= clock)
    && (swept == unswept
        || (swept.None? && unswept.Some? && Elapsed(clock, unswept.value.windowStart) >= cfg.window))
  }

  lemma AlikeAnswersAlike(cfg: Config, clock: nat, swept: Option<Info>, unswept: Option<Info>, now: nat)
    requires Alike(cfg, clock, swept, unswept) && clock <= now
    ensures Current(cfg, swept, now) == Current(cfg, unswept, now)
    ensures Alike(cfg, now, swept, unswept)
    ensures Current(cfg, swept, now).permits == cfg.burst && Current(cfg, swept, now).windowStart <= now
  {}

  ghost predicate SameBehaviour(cfg: Config, s: State, u: State) {
    && s.answers == u.answers && s.hits == u.hits
    && forall c :: Alike(cfg, s.clock, Find(s.limits, c), Find(u.limits, c))
  }

  lemma SameAnswer(cfg: Config, s: State, u: State, client: Client, t: nat)
    requires SameBehaviour(cfg, s, u) && s.clock <= t
    ensures SameBehaviour(cfg, Exec(cfg, s, Request(client, t)), Exec(cfg, u, Request(client, t)))
  {
    var s', u' := Exec(cfg, s, Request(client, t)), Exec(cfg, u, Request(client, t));
    AlikeAnswersAlike(cfg, s.clock, Find(s.limits, client), Find(u.limits, client), t);
    forall c ensures Alike(cfg, s'.clock, Find(s'.limits, c), Find(u'.limits, c)) {
      if c != client { AlikeAnswersAlike(cfg, s.clock, Find(s.limits, c), Find(u.limits, c), t); }
    }
  }

  lemma SweepStaysAlike(cfg: Config, s: State, u: State, t: nat)
    requires SameBehaviour(cfg, s, u) && s.clock <= t
    ensures SameBehaviour(cfg, Exec(cfg, s, Sweep(t)), u)
  {
    var s' := Exec(cfg, s, Sweep(t));
    forall c ensures Alike(cfg, s'.clock, Find(s'.limits, c), Find(u.limits, c)) {
      AlikeAnswersAlike(cfg, s.clock, Find(s.limits, c), Find(u.limits, c), t);
    }
  }

  lemma SameBehaviourStep(cfg: Config, s: State, u: State, op: Op)
    requires SameBehaviour(cfg, s, u) && s.clock <= op.time
    ensures SameBehaviour(cfg, Exec(cfg, s, op), if op.Sweep? then u else Exec(cfg, u, op))
  {
    match op {
      case Request(c, t) => SameAnswer(cfg, s, u, c, t);
      case Sweep(t) => SweepStaysAlike(cfg, s, u, t);
    }
  }

  lemma {:induction false} SweepsAreInvisible(cfg: Config, ops: seq<Op>)
    requires Ordered(ops)
    ensures SameBehaviour(cfg, Run(cfg, ops), Run(cfg, WithoutSweeps(ops)))
    ensures Run(cfg, ops).clock == if ops == [] then 0 else ops[|ops| - 1].time
  {
    if ops != [] {
      var front, last := ops[..|ops| - 1], ops[|ops| - 1];
      SweepsAreInvisible(cfg, front);
      SameBehaviourStep(cfg, Run(cfg, front), Run(cfg, WithoutSweeps(front)), last);
      RunSnoc(cfg, WithoutSweeps(front), last);
    }
  }

  /** The answers of a run are the answers of the same requests with no cleanup at all. */
  lemma SweepsChangeNoAnswer(cfg: Config, ops: seq<Op>)
    requires Ordered(ops)
    ensures Run(cfg, ops).answers == Run(cfg, WithoutSweeps(ops)).answers
  {
    SweepsAreInvisible(cfg, ops);
  }
}
