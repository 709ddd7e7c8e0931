/** The warming flag alone, with warm-ups split at their awaits: they set it, run, and clear it only on success. */
module WarmupFlag {
  import Cache

  datatype State = State(warming: bool, running: nat)

  datatype Op =
    | Begin              // a warm-up, which returns at once while the flag is set
    | End(ok: bool)      // a running warm-up finishes or fails
    | Initialize(up: bool)

  function Exec(s: State, op: Op): State {
    match op
    case Begin => if s.warming then s else State(true, s.running + 1)
    case End(ok) => if s.running == 0 then s else State(if ok then false else s.warming, s.running - 1)
    case Initialize(up) => if s.warming || !up then s else s.(warming := true)
  }

  function From(s: State, ops: seq<Op>): State {
    if ops == [] then s else Exec(From(s, ops[..|ops| - 1]), ops[|ops| - 1])
  }

  function Run(ops: seq<Op>): State {
    From(State(false, 0), ops)
  }

  /** At most one warm-up runs, and only while the flag is set. */
  lemma {:induction false} OneWarmupAtATime(ops: seq<Op>)
    ensures Run(ops).running <= 1 && (Run(ops).running == 1 ==> Run(ops).warming)
  {
    if ops != [] { OneWarmupAtATime(ops[..|ops| - 1]); }
  }

  lemma {:induction false} SetWithNobodyToClearIt(s: State, more: seq<Op>)
    requires s.warming && s.running == 0
    ensures From(s, more) == s
  {
    if more != [] { SetWithNobodyToClearIt(s, more[..|more| - 1]); }
  }

  /** No warm-up ever begins again. */
  ghost predicate DisabledFrom(s: State) {
    forall more :: From(s, more).warming
  }

  /**
   A successful `initialize` disables warm-ups for good exactly when none is running; in particular when it
   found the flag clear.  One that arrives during a warm-up returns at once, and the warm-up clears the flag.
   */
  lemma InitializeDisablesExactlyWhen(ops: seq<Op>)
    ensures var s := Run(ops); DisabledFrom(Exec(s, Initialize(true))) <==> s.running == 0
    ensures !Run(ops).warming ==> Run(ops).running == 0
  {
    OneWarmupAtATime(ops);
    var s := Exec(Run(ops), Initialize(true));
    if s.running == 0 {
      forall more ensures From(s, more).warming { SetWithNobodyToClearIt(s, more); }
    } else {
      var ended := [End(true)];
      assert ended[..0] == [];
      assert !From(s, ended).warming;
    }
  }

  // ---------------------------------------------------------------------------
  // The cache's whole calls are these steps
  // ---------------------------------------------------------------------------

  /** The flag steps of a whole call: a warm-up begins and, if it did, ends as Redis answers. */
  function StepsOf(cfg: Cache.Config, c: Cache.Cache, op: Cache.Op): seq<Op>
    requires Cache.Ready(cfg, c)
  {
    if op.Initialize? then [Initialize(op.up)]
    else if op.Warmup? && Cache.LegalOp(cfg, c, op) then [Begin, End(op.up)]
    else []
  }

  function AllSteps(cfg: Cache.Config, ops: seq<Cache.Op>): seq<Op>
    requires cfg.shardCount > 0
  {
    if ops == [] then []
    else
      var front := ops[..|ops| - 1];
      AllSteps(cfg, front) + StepsOf(cfg, Cache.Run(cfg, front), ops[|ops| - 1])
  }

  lemma FromSnoc(s: State, ops: seq<Op>, op: Op)
    ensures From(s, ops + [op]) == Exec(From(s, ops), op)
  {
    assert (ops + [op])[..|ops|] == ops;
  }

  lemma OneCall(cfg: Cache.Config, c: Cache.Cache, op: Cache.Op, before: seq<Op>)
    requires Cache.Ready(cfg, c) && Run(before) == State(c.warming, 0)
    ensures Run(before + StepsOf(cfg, c, op)) == State(Cache.Do(cfg, c, op).warming, 0)
  {
    if op.Initialize? {
      FromSnoc(State(false, 0), before, Initialize(op.up));
    } else if op.Warmup? && Cache.LegalOp(cfg, c, op) {
      FromSnoc(State(false, 0), before, Begin);
      FromSnoc(State(false, 0), before + [Begin], End(op.up));
      assert before + [Begin, End(op.up)] == before + [Begin] + [End(op.up)];
    } else {
      assert before + [] == before;
    }
  }

  /** In every run of whole calls the cache's flag is the flag of its steps, and no warm-up is left running. */
  lemma {:induction false} WholeCallsFlag(cfg: Cache.Config, ops: seq<Cache.Op>)
    requires cfg.shardCount > 0
    ensures Run(AllSteps(cfg, ops)) == State(Cache.Run(cfg, ops).warming, 0)
  {
    if ops != [] {
      var front := ops[..|ops| - 1];
      WholeCallsFlag(cfg, front);
      OneCall(cfg, Cache.Run(cfg, front), ops[|ops| - 1], AllSteps(cfg, front));
    }
  }
}
