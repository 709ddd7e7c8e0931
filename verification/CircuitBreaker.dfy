/**
 The Redis circuit breaker.  A failure first bumps the counter and only then, if the threshold is
 reached, takes the lock and opens the breaker, so other calls can come in between.
 */
module CircuitBreaker {
  import opened Clock
  import opened Counting

  datatype Config = Config(threshold: nat, reset: nat)

  datatype Circuit = Closed | Open(since: nat) | HalfOpen

  /** `opening` counts failures that reached the threshold and have yet to take the lock. */
  datatype Breaker = Breaker(circuit: Circuit, failures: nat, opening: nat, clock: nat, answers: seq<bool>)

  datatype Op =
    | Allow(time: nat)
    | Success(time: nat)
    | Failure(time: nat)      // counter and lock in one go
    | CountFailure(time: nat) // the counter part alone
    | OpenNow(time: nat)      // the lock part alone

  predicate Allows(cfg: Config, b: Breaker, now: nat) {
    b.circuit.Open? ==> Elapsed(now, b.circuit.since) >= cfg.reset
  }

  function Exec(cfg: Config, b: Breaker, op: Op): Breaker {
    var c := b.(clock := op.time);
    match op
    case Allow(t) =>
      c.(circuit := if b.circuit.Open? && Allows(cfg, b, t) then HalfOpen else b.circuit,
         answers := b.answers + [Allows(cfg, b, t)])
    case Success(_) => if b.circuit.HalfOpen? then c.(circuit := Closed, failures := 0) else c
    case Failure(t) =>
      c.(failures := b.failures + 1, circuit := if b.failures + 1 >= cfg.threshold then Open(t) else b.circuit)
    case CountFailure(_) =>
      c.(failures := b.failures + 1, opening := if b.failures + 1 >= cfg.threshold then b.opening + 1 else b.opening)
    case OpenNow(t) => if b.opening == 0 then c else c.(opening := b.opening - 1, circuit := Open(t))
  }

  function Start(): Breaker {
    Breaker(Closed, 0, 0, 0, [])
  }

  function From(cfg: Config, b: Breaker, ops: seq<Op>): Breaker {
    if ops == [] then b else Exec(cfg, From(cfg, b, ops[..|ops| - 1]), ops[|ops| - 1])
  }

  function Run(cfg: Config, ops: seq<Op>): Breaker {
    From(cfg, Start(), ops)
  }

  class RedisBreaker {
    const cfg: Config
    var circuit: Circuit
    var failureCount: nat

    constructor (cfg: Config)
      ensures this.cfg == cfg && circuit == Closed && failureCount == 0
    {
      this.cfg := cfg;
      circuit, failureCount := Closed, 0;
    }

    /** The shared fields as a breaker value; clock, waiting failures and answers belong to the run. */
    function View(b: Breaker): Breaker
      reads this
    {
      b.(circuit := circuit, failures := failureCount)
    }

    method AllowRequest(now: nat) returns (ok: bool)
      modifies this
      ensures forall b: Breaker :: View(b).circuit == Exec(cfg, old(View(b)), Allow(now)).circuit
      ensures failureCount == old(failureCount)
      ensures ok == (old(circuit).Open? ==> Elapsed(now, old(circuit).since) >= cfg.reset)
    {
      match circuit {
        case Closed => ok := true;
        case Open(since) =>
          ok := Elapsed(now, since) >= cfg.reset;
          if ok { circuit := HalfOpen; }
        case HalfOpen => ok := true;
      }
    }

    method RecordSuccess(now: nat)
      modifies this
      ensures forall b: Breaker ::
        View(b).(clock := now) == Exec(cfg, old(View(b)), Success(now))
    {
      if circuit.HalfOpen? {
        circuit := Closed;
        failureCount := 0;
      }
    }

    method RecordFailure(now: nat)
      modifies this
      ensures forall b: Breaker ::
        View(b).(clock := now) == Exec(cfg, old(View(b)), Failure(now))
    {
      failureCount := failureCount + 1;
      if failureCount >= cfg.threshold { circuit := Open(now); }
    }
  }

  // ---------------------------------------------------------------------------
  // With undivided failures the circuit is closed exactly below the threshold
  // ---------------------------------------------------------------------------

  predicate Undivided(ops: seq<Op>) {
    forall i :: 0 <= i < |ops| ==> !ops[i].CountFailure? && !ops[i].OpenNow?
  }

  predicate InStep(cfg: Config, b: Breaker) {
    b.circuit.Closed? <==> b.failures < cfg.threshold
  }

  lemma {:induction false} UndividedRunsStayInStep(cfg: Config, ops: seq<Op>)
    requires Undivided(ops) && cfg.threshold >= 1
    ensures InStep(cfg, Run(cfg, ops))
  {
    if ops != [] { UndividedRunsStayInStep(cfg, ops[..|ops| - 1]); }
  }

  /** Exactly the thresholds from 1 up keep every undivided run in step. */
  lemma InStepExactlyFromOne(cfg: Config)
    ensures (forall ops :: Undivided(ops) ==> InStep(cfg, Run(cfg, ops))) <==> cfg.threshold >= 1
  {
    if cfg.threshold >= 1 {
      forall ops | Undivided(ops) ensures InStep(cfg, Run(cfg, ops)) { UndividedRunsStayInStep(cfg, ops); }
    } else {
      assert Undivided([]) && !InStep(cfg, Run(cfg, []));
    }
  }

  /** The failures since the last success that found the circuit half open. */
  function FailuresSinceRecovery(cfg: Config, ops: seq<Op>): nat {
    if ops == [] then 0
    else
      var front, op := ops[..|ops| - 1], ops[|ops| - 1];
      if op.Success? && Run(cfg, front).circuit.HalfOpen? then 0
      else FailuresSinceRecovery(cfg, front) + if op.Failure? then 1 else 0
  }

  lemma {:induction false} CounterIsFailuresSinceRecovery(cfg: Config, ops: seq<Op>)
    requires Undivided(ops)
    ensures Run(cfg, ops).failures == FailuresSinceRecovery(cfg, ops)
  {
    if ops != [] { CounterIsFailuresSinceRecovery(cfg, ops[..|ops| - 1]); }
  }

  function IsFailure(): Op -> bool {
    (op: Op) => op.Failure?
  }

  /** Successes of a breaker that has not been half open change nothing: it opens with the failure that reaches the threshold. */
  lemma {:induction false} OpensExactlyAtThreshold(cfg: Config, ops: seq<Op>)
    requires forall i :: 0 <= i < |ops| ==> ops[i].Failure? || ops[i].Success?
    ensures var (b, n) := (Run(cfg, ops), Count(ops, IsFailure()));
      b.failures == n && (b.circuit.Open? <==> 0 < n && cfg.threshold <= n) && (!b.circuit.Open? ==> b.circuit == Closed)
  {
    if ops != [] { OpensExactlyAtThreshold(cfg, ops[..|ops| - 1]); }
  }

  /** A request is refused exactly while the circuit is open and its reset time has not come; a closed circuit stays as it is. */
  lemma AdmittedExactlyWhen(cfg: Config, b: Breaker, t: nat)
    ensures var c := Exec(cfg, b, Allow(t));
      && c.answers == b.answers + [!(b.circuit.Open? && (t < b.circuit.since + cfg.reset && cfg.reset > 0))]
      && c.failures == b.failures
      && c.circuit == (if b.circuit.Open? && c.answers[|b.answers|] then HalfOpen else b.circuit)
  {}

  /** So one failure while half open reopens the circuit at once. */
  lemma FailureReopensHalfOpen(cfg: Config, ops: seq<Op>, t: nat)
    requires Undivided(ops) && cfg.threshold >= 1 && Run(cfg, ops).circuit.HalfOpen?
    ensures Exec(cfg, Run(cfg, ops), Failure(t)).circuit == Open(t)
  {
    UndividedRunsStayInStep(cfg, ops);
  }

  lemma RunSnoc(cfg: Config, ops: seq<Op>, op: Op)
    ensures Run(cfg, ops + [op]) == Exec(cfg, Run(cfg, ops), op)
  {
    assert (ops + [op])[..|ops|] == ops;
  }

  function Failures(n: nat): seq<Op> {
    if n == 0 then [] else Failures(n - 1) + [Failure(0)]
  }

  lemma {:induction false} FailuresOpen(cfg: Config, n: nat)
    requires cfg.threshold >= 1
    ensures var b := Run(cfg, Failures(n));
      b.failures == n && b.opening == 0 && b.circuit == if n >= cfg.threshold then Open(0) else Closed
  {
    if n > 0 {
      FailuresOpen(cfg, n - 1);
      RunSnoc(cfg, Failures(n - 1), Failure(0));
    }
  }

  /** The breaker opens, one more failure is counted, the breaker recovers, and only then that failure takes the lock. */
  function Divided(cfg: Config): seq<Op> {
    Failures(cfg.threshold) + [CountFailure(0)] + [Allow(cfg.reset)] + [Success(cfg.reset)] + [OpenNow(cfg.reset)]
  }

  lemma DividedOpensAtZero(cfg: Config)
    requires cfg.threshold >= 1
    ensures Run(cfg, Divided(cfg)).circuit == Open(cfg.reset) && Run(cfg, Divided(cfg)).failures == 0
  {
    var a := Failures(cfg.threshold);
    FailuresOpen(cfg, cfg.threshold);
    RunSnoc(cfg, a, CountFailure(0));
    RunSnoc(cfg, a + [CountFailure(0)], Allow(cfg.reset));
    RunSnoc(cfg, a + [CountFailure(0)] + [Allow(cfg.reset)], Success(cfg.reset));
    RunSnoc(cfg, a + [CountFailure(0)] + [Allow(cfg.reset)] + [Success(cfg.reset)], OpenNow(cfg.reset));
  }

  /** A failure divided by a recovery leaves an open circuit with a zero counter, and the next failure does not reopen it. */
  lemma DividedFailureEscapes(cfg: Config)
    requires cfg.threshold >= 2
    ensures var b := Run(cfg, Divided(cfg) + [Allow(2 * cfg.reset)]);
      b.circuit == HalfOpen && b.failures == 0 && Exec(cfg, b, Failure(2 * cfg.reset)).circuit == HalfOpen
  {
    DividedOpensAtZero(cfg);
    RunSnoc(cfg, Divided(cfg), Allow(2 * cfg.reset));
  }

  /** A failure of a half-open breaker opens it, in every run. */
  ghost predicate AlwaysReopens(cfg: Config) {
    forall ops, t :: Run(cfg, ops).circuit.HalfOpen? ==> Exec(cfg, Run(cfg, ops), Failure(t)).circuit == Open(t)
  }

  /** With calls interleaved that holds exactly when a single failure is enough to open the breaker. */
  lemma ReopensExactlyWhen(cfg: Config)
    ensures AlwaysReopens(cfg) <==> cfg.threshold <= 1
  {
    if cfg.threshold >= 2 {
      DividedFailureEscapes(cfg);
      var ops, t := Divided(cfg) + [Allow(2 * cfg.reset)], 2 * cfg.reset;
      assert Run(cfg, ops).circuit.HalfOpen? && Exec(cfg, Run(cfg, ops), Failure(t)).circuit != Open(t);
    }
  }

  /**
   Taking the lock straight after the counter is one undivided failure, if the threshold was reached or no
   earlier failure is still waiting for the lock.
   */
  lemma UninterruptedIsUndivided(cfg: Config, b: Breaker, t: nat)
    requires b.failures + 1 >= cfg.threshold || b.opening == 0
    ensures Exec(cfg, Exec(cfg, b, CountFailure(t)), OpenNow(t)) == Exec(cfg, b, Failure(t))
  {}

  // ---------------------------------------------------------------------------
  // No request passes an open circuit before its reset time, divided failures or not
  // ---------------------------------------------------------------------------

  predicate Ordered(from: nat, ops: seq<Op>) {
    && (forall i :: 0 <= i < |ops| ==> from <= ops[i].time)
    && (forall i, j :: 0 <= i < j < |ops| ==> ops[i].time <= ops[j].time)
  }

  /** Still open, perhaps restamped later, or the reset time has come. */
  predicate Guarded(cfg: Config, since: nat, b: Breaker) {
    (b.circuit.Open? && since <= b.circuit.since) || since + cfg.reset <= b.clock
  }

  lemma {:induction false} OpenStaysGuarded(cfg: Config, b: Breaker, ops: seq<Op>)
    requires b.circuit.Open? && b.circuit.since <= b.clock && Ordered(b.clock, ops)
    ensures Guarded(cfg, b.circuit.since, From(cfg, b, ops))
    ensures b.clock <= From(cfg, b, ops).clock
    ensures ops != [] ==> From(cfg, b, ops).clock == ops[|ops| - 1].time
  {
    if ops != [] { OpenStaysGuarded(cfg, b, ops[..|ops| - 1]); }
  }

  /** After the circuit opened, whatever successes and late failures follow, no request is allowed before the reset time. */
  lemma NoRequestBeforeReset(cfg: Config, b: Breaker, ops: seq<Op>, t: nat)
    requires b.circuit.Open? && b.circuit.since <= b.clock && Ordered(b.clock, ops + [Allow(t)])
    requires Allows(cfg, From(cfg, b, ops), t)
    ensures b.circuit.since + cfg.reset <= t
  {
    assert forall i :: 0 <= i < |ops| ==> (ops + [Allow(t)])[i] == ops[i];
    assert (ops + [Allow(t)])[|ops|].time == t;
    OpenStaysGuarded(cfg, b, ops);
    if ops != [] { assert (ops + [Allow(t)])[|ops| - 1].time <= t; }
  }

  /** Half open lets through any number of requests, not one. */
  lemma {:induction false} HalfOpenAdmitsAll(cfg: Config, b: Breaker, ops: seq<Op>)
    requires b.circuit.HalfOpen? && forall i :: 0 <= i < |ops| ==> ops[i].Allow?
    ensures From(cfg, b, ops).circuit == HalfOpen
    ensures |From(cfg, b, ops).answers| == |b.answers| + |ops|
    ensures forall i :: |b.answers| <= i < |b.answers| + |ops| ==> From(cfg, b, ops).answers[i]
  {
    if ops != [] { HalfOpenAdmitsAll(cfg, b, ops[..|ops| - 1]); }
  }
}
