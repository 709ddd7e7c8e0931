/** The dead-letter loop: poll, give up or wait and retry, requeue with a higher count on failure. */
module DeadLetter {
  import opened Counting

  /** `delay` is the initial retry delay. */
  datatype Config = Config(maxRetries: nat, delay: nat)

  /** A message in the queue; `tag` is its position in the initial queue. */
  datatype Entry = Entry(tag: nat, retryCount: nat)

  /** One retry of a message and the backoff slept before it. */
  datatype Attempt = Attempt(tag: nat, waited: nat)

  /** A message whose requeueing failed is `lost`: the loop has returned with the error. */
  datatype State = State(queue: seq<Entry>, attempts: seq<Attempt>, delivered: seq<nat>, dropped: seq<nat>,
                         retries: nat, successes: nat, failures: nat, lost: seq<nat>)

  /** Whether the producer accepts the retried batch and, if not, whether sending the message back succeeds. */
  datatype Outcome = Outcome(ok: bool, requeued: bool)

  function Pow2(n: nat): nat {
    if n == 0 then 1 else 2 * Pow2(n - 1)
  }

  function Poll(cfg: Config, s: State, o: Outcome): State {
    if s.queue == [] || s.lost != [] then s
    else
      var e, rest := s.queue[0], s.queue[1..];
      if e.retryCount >= cfg.maxRetries then s.(queue := rest, dropped := s.dropped + [e.tag])
      else
        var t := s.(retries := s.retries + 1,
                    attempts := s.attempts + [Attempt(e.tag, cfg.delay * Pow2(e.retryCount))]);
        if o.ok then t.(queue := rest, successes := s.successes + 1, delivered := s.delivered + [e.tag])
        else if o.requeued then t.(queue := rest + [e.(retryCount := e.retryCount + 1)], failures := s.failures + 1)
        else t.(queue := rest, failures := s.failures + 1, lost := [e.tag])
  }

  /** The retry fails and so does sending the message back. */
  predicate LosesHead(cfg: Config, s: State, o: Outcome) {
    s.queue != [] && s.lost == [] && s.queue[0].retryCount < cfg.maxRetries && !o.ok && !o.requeued
  }

  // ---------------------------------------------------------------------------
  // Termination
  // ---------------------------------------------------------------------------

  function Chances(cfg: Config, e: Entry): nat {
    if e.retryCount >= cfg.maxRetries then 1 else cfg.maxRetries - e.retryCount + 1
  }

  /** The sum over the queue of max_retries - retry_count + 1. */
  function Work(cfg: Config, queue: seq<Entry>): nat {
    if queue == [] then 0 else Work(cfg, queue[..|queue| - 1]) + Chances(cfg, queue[|queue| - 1])
  }

  lemma {:induction false} WorkConcat(cfg: Config, a: seq<Entry>, b: seq<Entry>)
    ensures Work(cfg, a + b) == Work(cfg, a) + Work(cfg, b)
  {
    if b == [] {
      assert a + b == a;
    } else {
      assert (a + b)[..|a + b| - 1] == a + b[..|b| - 1];
      WorkConcat(cfg, a, b[..|b| - 1]);
    }
  }

  lemma WorkAround(cfg: Config, e: Entry, rest: seq<Entry>)
    ensures Work(cfg, [e] + rest) == Chances(cfg, e) + Work(cfg, rest) == Work(cfg, rest + [e])
  {
    assert [e][..0] == [];
    WorkConcat(cfg, [e], rest);
    WorkConcat(cfg, rest, [e]);
  }

  lemma PolledQueue(cfg: Config, s: State, o: Outcome)
    requires s.queue != [] && s.lost == []
    ensures var (e, rest) := (s.queue[0], s.queue[1..]);
      Poll(cfg, s, o).queue
      == if e.retryCount < cfg.maxRetries && !o.ok && o.requeued then rest + [e.(retryCount := e.retryCount + 1)] else rest
  {}

  /** Every poll of a non-empty queue uses up some of the work, whatever the outcome. */
  lemma PollDecreasesWork(cfg: Config, s: State, o: Outcome)
    requires s.queue != [] && s.lost == []
    ensures Work(cfg, Poll(cfg, s, o).queue) < Work(cfg, s.queue)
  {
    var e, rest := s.queue[0], s.queue[1..];
    PolledQueue(cfg, s, o);
    assert s.queue == [e] + rest;
    WorkAround(cfg, e, rest);
    WorkAround(cfg, e.(retryCount := e.retryCount + 1), rest);
  }

  // ---------------------------------------------------------------------------
  // Accounting per message
  // ---------------------------------------------------------------------------

  function Tries(attempts: seq<Attempt>, tag: nat): nat {
    if attempts == [] then 0
    else Tries(attempts[..|attempts| - 1], tag) + if attempts[|attempts| - 1].tag == tag then 1 else 0
  }

  function Waited(attempts: seq<Attempt>, tag: nat): nat {
    if attempts == [] then 0
    else Waited(attempts[..|attempts| - 1], tag)
         + if attempts[|attempts| - 1].tag == tag then attempts[|attempts| - 1].waited else 0
  }

  lemma AttemptSnoc(attempts: seq<Attempt>, a: Attempt, tag: nat)
    ensures Tries(attempts + [a], tag) == Tries(attempts, tag) + if a.tag == tag then 1 else 0
    ensures Waited(attempts + [a], tag) == Waited(attempts, tag) + if a.tag == tag then a.waited else 0
  {
    assert (attempts + [a])[..|attempts|] == attempts;
  }

  /** The backoff of a message that went from `from` to `to` retries. */
  function Backoff(cfg: Config, from: nat, to: nat): int {
    cfg.delay * (Pow2(to) - Pow2(from))
  }

  function Reach(cfg: Config, start: nat): nat {
    if start < cfg.maxRetries then cfg.maxRetries else start
  }

  /** A queued message has been retried exactly as often as its count says, and waited accordingly. */
  predicate EntrySound(cfg: Config, starts: seq<nat>, attempts: seq<Attempt>, e: Entry) {
    && e.tag < |starts| && starts[e.tag] <= e.retryCount <= Reach(cfg, starts[e.tag])
    && Tries(attempts, e.tag) == e.retryCount - starts[e.tag]
    && Waited(attempts, e.tag) == Backoff(cfg, starts[e.tag], e.retryCount)
  }

  predicate WithinLimits(cfg: Config, starts: seq<nat>, attempts: seq<Attempt>, tag: nat)
    requires tag < |starts|
  {
    && Tries(attempts, tag) <= Reach(cfg, starts[tag]) - starts[tag]
    && Waited(attempts, tag) <= Backoff(cfg, starts[tag], Reach(cfg, starts[tag]))
  }

  /** A message given up on has used every retry it had. */
  predicate Exhausted(cfg: Config, starts: seq<nat>, attempts: seq<Attempt>, tag: nat) {
    && tag < |starts|
    && Tries(attempts, tag) == Reach(cfg, starts[tag]) - starts[tag]
    && Waited(attempts, tag) == Backoff(cfg, starts[tag], Reach(cfg, starts[tag]))
  }

  predicate DistinctTags(s: State) {
    && (forall i, j :: 0 <= i < j < |s.queue| ==> s.queue[i].tag != s.queue[j].tag)
    && (forall i :: 0 <= i < |s.queue| ==> s.queue[i].tag !in s.dropped && s.queue[i].tag !in s.delivered)
  }

  function Tags(queue: seq<Entry>): (r: seq<nat>)
    ensures |r| == |queue|
    ensures forall i :: 0 <= i < |r| ==> r[i] == queue[i].tag
  {
    seq(|queue|, i requires 0 <= i < |queue| => queue[i].tag)
  }

  /** Every message is queued, delivered or given up on, exactly once. */
  predicate Conserved(n: nat, s: State) {
    BagOf(s) == multiset(Upto(n))
  }

  function BagOf(s: State): multiset<nat> {
    Bag(s.queue, s.delivered, s.dropped)
  }

  ghost predicate Sound(cfg: Config, starts: seq<nat>, s: State) {
    && s.retries == s.successes + s.failures == |s.attempts|
    && |s.delivered| == s.successes
    && DistinctTags(s)
    && (forall i :: 0 <= i < |s.queue| ==> EntrySound(cfg, starts, s.attempts, s.queue[i]))
    && (forall tag :: 0 <= tag < |starts| ==> WithinLimits(cfg, starts, s.attempts, tag))
    && (forall i :: 0 <= i < |s.dropped| ==> Exhausted(cfg, starts, s.attempts, s.dropped[i]))
  }

  lemma BackoffStep(cfg: Config, from: nat, to: nat)
    ensures Backoff(cfg, from, to + 1) == Backoff(cfg, from, to) + cfg.delay * Pow2(to)
  {}

  lemma {:induction false} BackoffGrows(cfg: Config, from: nat, to: nat, more: nat)
    requires to <= more
    ensures Backoff(cfg, from, to) <= Backoff(cfg, from, more)
    decreases more - to
  {
    if to < more {
      BackoffStep(cfg, from, to);
      BackoffGrows(cfg, from, to + 1, more);
    }
  }

  /** One more retry of a queued message keeps every account straight. */
  lemma RetryKeepsAccounts(cfg: Config, starts: seq<nat>, attempts: seq<Attempt>, e: Entry, tag: nat)
    requires EntrySound(cfg, starts, attempts, e) && e.retryCount < cfg.maxRetries && tag < |starts|
    requires WithinLimits(cfg, starts, attempts, tag)
    ensures var after := attempts + [Attempt(e.tag, cfg.delay * Pow2(e.retryCount))];
      && EntrySound(cfg, starts, after, e.(retryCount := e.retryCount + 1))
      && WithinLimits(cfg, starts, after, tag)
      && (tag != e.tag ==> Tries(after, tag) == Tries(attempts, tag) && Waited(after, tag) == Waited(attempts, tag))
  {
    var a := Attempt(e.tag, cfg.delay * Pow2(e.retryCount));
    AttemptSnoc(attempts, a, e.tag);
    AttemptSnoc(attempts, a, tag);
    BackoffStep(cfg, starts[e.tag], e.retryCount);
    BackoffGrows(cfg, starts[e.tag], e.retryCount + 1, cfg.maxRetries);
  }

  lemma PollKeepsDistinct(cfg: Config, s: State, o: Outcome)
    requires DistinctTags(s)
    ensures DistinctTags(Poll(cfg, s, o))
  {
    if s.queue != [] && s.lost == [] {
      PolledQueue(cfg, s, o);
    }
  }

  lemma TagsAround(e: Entry, rest: seq<Entry>)
    ensures multiset(Tags([e] + rest)) == multiset{e.tag} + multiset(Tags(rest))
    ensures multiset(Tags(rest + [e])) == multiset{e.tag} + multiset(Tags(rest))
  {
    assert Tags([e] + rest) == [e.tag] + Tags(rest);
    assert Tags(rest + [e]) == Tags(rest) + [e.tag];
  }

  /** All tags in a state, wherever they are. */
  function Bag(queue: seq<Entry>, delivered: seq<nat>, dropped: seq<nat>): multiset<nat> {
    multiset(Tags(queue)) + multiset(delivered) + multiset(dropped)
  }

  lemma DropConserves(e: Entry, rest: seq<Entry>, delivered: seq<nat>, dropped: seq<nat>)
    ensures Bag([e] + rest, delivered, dropped) == Bag(rest, delivered, dropped + [e.tag])
  {
    TagsAround(e, rest);
  }

  lemma DeliverConserves(e: Entry, rest: seq<Entry>, delivered: seq<nat>, dropped: seq<nat>)
    ensures Bag([e] + rest, delivered, dropped) == Bag(rest, delivered + [e.tag], dropped)
  {
    TagsAround(e, rest);
  }

  lemma RequeueConserves(e: Entry, f: Entry, rest: seq<Entry>, delivered: seq<nat>, dropped: seq<nat>)
    requires e.tag == f.tag
    ensures Bag([e] + rest, delivered, dropped) == Bag(rest + [f], delivered, dropped)
  {
    TagsAround(e, rest);
    TagsAround(f, rest);
  }

  /** Where a poll puts the head of the queue. */
  lemma PolledTags(cfg: Config, s: State, o: Outcome)
    requires s.queue != [] && s.lost == []
    ensures var (e, rest, p) := (s.queue[0], s.queue[1..], Poll(cfg, s, o));
      if e.retryCount >= cfg.maxRetries
      then p.queue == rest && p.delivered == s.delivered && p.dropped == s.dropped + [e.tag]
      else if o.ok then p.queue == rest && p.delivered == s.delivered + [e.tag] && p.dropped == s.dropped
      else if o.requeued then p.queue == rest + [e.(retryCount := e.retryCount + 1)] && p.delivered == s.delivered && p.dropped == s.dropped
      else p.queue == rest && p.delivered == s.delivered && p.dropped == s.dropped && p.lost == [e.tag]
  {}

  lemma PollKeepsBag(cfg: Config, s: State, o: Outcome)
    requires s.queue != [] && s.lost == [] && !LosesHead(cfg, s, o)
    ensures BagOf(Poll(cfg, s, o)) == BagOf(s)
  {
    var e, rest := s.queue[0], s.queue[1..];
    assert s.queue == [e] + rest;
    PolledTags(cfg, s, o);
    if e.retryCount >= cfg.maxRetries {
      DropConserves(e, rest, s.delivered, s.dropped);
    } else if o.ok {
      DeliverConserves(e, rest, s.delivered, s.dropped);
    } else {
      RequeueConserves(e, e.(retryCount := e.retryCount + 1), rest, s.delivered, s.dropped);
    }
  }

  lemma LossTakesHead(cfg: Config, s: State, o: Outcome)
    requires LosesHead(cfg, s, o)
    ensures BagOf(Poll(cfg, s, o)) + multiset{s.queue[0].tag} == BagOf(s) && Poll(cfg, s, o).lost == [s.queue[0].tag]
  {
    PolledTags(cfg, s, o);
    assert s.queue == [s.queue[0]] + s.queue[1..];
    TagsAround(s.queue[0], s.queue[1..]);
  }

  /** A poll keeps every message exactly when it does not fail a requeue; otherwise it loses exactly the head. */
  lemma PollConservesExactlyWhen(cfg: Config, n: nat, s: State, o: Outcome)
    requires Conserved(n, s)
    ensures Conserved(n, Poll(cfg, s, o)) <==> !LosesHead(cfg, s, o)
    ensures LosesHead(cfg, s, o) ==> BagOf(Poll(cfg, s, o)) + multiset{s.queue[0].tag} == multiset(Upto(n))
  {
    if LosesHead(cfg, s, o) {
      LossTakesHead(cfg, s, o);
      assert |BagOf(Poll(cfg, s, o))| + 1 == |BagOf(s)|;
    } else if s.queue != [] && s.lost == [] {
      PollKeepsBag(cfg, s, o);
    }
  }

  /** Counting the one that may be lost, every message is somewhere. */
  predicate Accounted(n: nat, s: State) {
    BagOf(s) + multiset(s.lost) == multiset(Upto(n)) && |s.lost| <= 1
  }

  lemma PollKeepsAccounted(cfg: Config, n: nat, s: State, o: Outcome)
    requires Accounted(n, s)
    ensures Accounted(n, Poll(cfg, s, o))
  {
    if LosesHead(cfg, s, o) {
      LossTakesHead(cfg, s, o);
    } else if s.queue != [] && s.lost == [] {
      PollKeepsBag(cfg, s, o);
    }
  }

  lemma PollKeepsSound(cfg: Config, starts: seq<nat>, s: State, o: Outcome)
    requires Sound(cfg, starts, s)
    ensures Sound(cfg, starts, Poll(cfg, s, o))
  {
    PollKeepsDistinct(cfg, s, o);
    if s.queue != [] && s.lost == [] {
      var e, s' := s.queue[0], Poll(cfg, s, o);
      assert EntrySound(cfg, starts, s.attempts, e);
      if e.retryCount < cfg.maxRetries {
        forall tag | 0 <= tag < |starts|
          ensures WithinLimits(cfg, starts, s'.attempts, tag)
          ensures tag != e.tag ==> Tries(s'.attempts, tag) == Tries(s.attempts, tag) && Waited(s'.attempts, tag) == Waited(s.attempts, tag)
        {
          RetryKeepsAccounts(cfg, starts, s.attempts, e, tag);
        }
        RetryKeepsAccounts(cfg, starts, s.attempts, e, e.tag);
        OthersUndisturbed(cfg, starts, s, o);
      }
    }
  }

  lemma OthersUndisturbed(cfg: Config, starts: seq<nat>, s: State, o: Outcome)
    requires Sound(cfg, starts, s) && s.queue != [] && s.lost == [] && s.queue[0].retryCount < cfg.maxRetries
    ensures var s' := Poll(cfg, s, o);
      && (forall i :: 0 < i < |s.queue| ==> EntrySound(cfg, starts, s'.attempts, s.queue[i]))
      && (forall i :: 0 <= i < |s.dropped| ==> Exhausted(cfg, starts, s'.attempts, s.dropped[i]))
  {
    var e := s.queue[0];
    var a := Attempt(e.tag, cfg.delay * Pow2(e.retryCount));
    forall i | 0 < i < |s.queue| ensures EntrySound(cfg, starts, s.attempts + [a], s.queue[i]) {
      AttemptSnoc(s.attempts, a, s.queue[i].tag);
    }
    forall i | 0 <= i < |s.dropped| ensures Exhausted(cfg, starts, s.attempts + [a], s.dropped[i]) {
      assert s.dropped[i] in s.dropped;
      AttemptSnoc(s.attempts, a, s.dropped[i]);
    }
  }

  // ---------------------------------------------------------------------------
  // Draining
  // ---------------------------------------------------------------------------

  /** A queue of messages that were already retried `starts[i]` times; `send_to_dlq` starts them at 0. */
  function Initial(starts: seq<nat>): State {
    State(seq(|starts|, i requires 0 <= i < |starts| => Entry(i, starts[i])), [], [], [], 0, 0, 0, [])
  }

  lemma InitialIsSound(cfg: Config, starts: seq<nat>)
    ensures Sound(cfg, starts, Initial(starts)) && Conserved(|starts|, Initial(starts))
  {
    UptoIs(|starts|);
    assert Tags(Initial(starts).queue) == Upto(|starts|);
    forall tag | 0 <= tag < |starts| ensures WithinLimits(cfg, starts, [], tag) {
      BackoffGrows(cfg, starts[tag], starts[tag], Reach(cfg, starts[tag]));
    }
  }

  /** One turn of the loop. */
  method PollOnce(cfg: Config, before: State, o: Outcome) returns (s: State)
    requires before.queue != [] && before.lost == []
    ensures s == Poll(cfg, before, o)
  {
    var message := before.queue[0];
    s := before.(queue := before.queue[1..]);
    if message.retryCount >= cfg.maxRetries {
      s := s.(dropped := s.dropped + [message.tag]);
      return;
    }
    s := s.(retries := s.retries + 1);
    var delay := cfg.delay * Pow2(message.retryCount);
    s := s.(attempts := s.attempts + [Attempt(message.tag, delay)]);
    if o.ok {
      s := s.(successes := s.successes + 1, delivered := s.delivered + [message.tag]);
      return;
    }
    s := s.(failures := s.failures + 1);
    if o.requeued {
      s := s.(queue := s.queue + [message.(retryCount := message.retryCount + 1)]);
    } else {
      s := s.(lost := [message.tag]);
    }
  }

  /**
   The source polls for ever; this is one drain of a finite queue.  It ends for every pattern of outcomes:
   with each message delivered once or given up on after all its retries, or at the first failed requeue
   with exactly that message missing.
   */
  method ProcessDlq(cfg: Config, starts: seq<nat>, outcomes: nat -> Outcome) returns (s: State)
    ensures Sound(cfg, starts, s) && Accounted(|starts|, s)
    ensures s.lost == [] ==> s.queue == [] && Conserved(|starts|, s)
  {
    s := Initial(starts);
    InitialIsSound(cfg, starts);
    while s.queue != [] && s.lost == []
      invariant Sound(cfg, starts, s) && Accounted(|starts|, s)
      decreases Work(cfg, s.queue)
    {
      PollDecreasesWork(cfg, s, outcomes(s.retries));
      PollKeepsSound(cfg, starts, s, outcomes(s.retries));
      PollKeepsAccounted(cfg, |starts|, s, outcomes(s.retries));
      s := PollOnce(cfg, s, outcomes(s.retries));
    }
  }

  /** Any number of polls with any outcomes. */
  function Polls(cfg: Config, starts: seq<nat>, outcomes: seq<Outcome>): State {
    if outcomes == [] then Initial(starts)
    else Poll(cfg, Polls(cfg, starts, outcomes[..|outcomes| - 1]), outcomes[|outcomes| - 1])
  }

  /** The accounts stay straight at every loop head, and the work runs out unless the loop has returned. */
  lemma {:induction false} EveryLoopHeadIsSound(cfg: Config, starts: seq<nat>, outcomes: seq<Outcome>)
    ensures var s := Polls(cfg, starts, outcomes);
      && Sound(cfg, starts, s) && Accounted(|starts|, s)
      && (s.lost != [] || Work(cfg, s.queue) == 0 || Work(cfg, s.queue) + |outcomes| <= Work(cfg, Initial(starts).queue))
  {
    if outcomes == [] {
      InitialIsSound(cfg, starts);
    } else {
      var front, o := outcomes[..|outcomes| - 1], outcomes[|outcomes| - 1];
      var s := Polls(cfg, starts, front);
      EveryLoopHeadIsSound(cfg, starts, front);
      PollKeepsSound(cfg, starts, s, o);
      PollKeepsAccounted(cfg, |starts|, s, o);
      if s.queue != [] && s.lost == [] { PollDecreasesWork(cfg, s, o); }
    }
  }

  /** No poll failed a requeue. */
  predicate NothingLost(cfg: Config, starts: seq<nat>, outcomes: seq<Outcome>) {
    if outcomes == [] then true
    else
      var front, o := outcomes[..|outcomes| - 1], outcomes[|outcomes| - 1];
      NothingLost(cfg, starts, front) && !LosesHead(cfg, Polls(cfg, starts, front), o)
  }

  lemma PollLoses(cfg: Config, s: State, o: Outcome)
    ensures Poll(cfg, s, o).lost == [] <==> s.lost == [] && !LosesHead(cfg, s, o)
  {}

  lemma {:induction false} LostExactlyWhen(cfg: Config, starts: seq<nat>, outcomes: seq<Outcome>)
    ensures Polls(cfg, starts, outcomes).lost == [] <==> NothingLost(cfg, starts, outcomes)
  {
    if outcomes != [] {
      var front, o := outcomes[..|outcomes| - 1], outcomes[|outcomes| - 1];
      LostExactlyWhen(cfg, starts, front);
      PollLoses(cfg, Polls(cfg, starts, front), o);
    }
  }

  /** Every message is queued, delivered or given up on after any polls exactly when no requeue failed. */
  lemma ConservedExactlyWhen(cfg: Config, starts: seq<nat>, outcomes: seq<Outcome>)
    ensures Conserved(|starts|, Polls(cfg, starts, outcomes)) <==> NothingLost(cfg, starts, outcomes)
  {
    EveryLoopHeadIsSound(cfg, starts, outcomes);
    LostExactlyWhen(cfg, starts, outcomes);
    var s := Polls(cfg, starts, outcomes);
    assert |BagOf(s) + multiset(s.lost)| == |BagOf(s)| + |s.lost|;
  }

  lemma LimitsOfFresh(cfg: Config, starts: seq<nat>, attempts: seq<Attempt>, tag: nat)
    requires tag < |starts| && starts[tag] == 0 && WithinLimits(cfg, starts, attempts, tag)
    ensures Tries(attempts, tag) <= cfg.maxRetries && Waited(attempts, tag) <= cfg.delay * (Pow2(cfg.maxRetries) - 1)
  {}

  /** A message sent fresh is retried at most max_retries times and waits at most initial * (2^max_retries - 1). */
  lemma FreshMessageLimits(cfg: Config, starts: seq<nat>, outcomes: seq<Outcome>, tag: nat)
    requires tag < |starts| && starts[tag] == 0
    ensures Tries(Polls(cfg, starts, outcomes).attempts, tag) <= cfg.maxRetries
    ensures Waited(Polls(cfg, starts, outcomes).attempts, tag) <= cfg.delay * (Pow2(cfg.maxRetries) - 1)
  {
    EveryLoopHeadIsSound(cfg, starts, outcomes);
    LimitsOfFresh(cfg, starts, Polls(cfg, starts, outcomes).attempts, tag);
  }

  /** Retried k times, a message has waited for exactly those k backoffs. */
  ghost predicate WaitsExact(cfg: Config, starts: seq<nat>, attempts: seq<Attempt>) {
    forall tag :: 0 <= tag < |starts| ==>
      Waited(attempts, tag) == Backoff(cfg, starts[tag], starts[tag] + Tries(attempts, tag))
  }

  lemma PollKeepsWaits(cfg: Config, starts: seq<nat>, s: State, o: Outcome)
    requires Sound(cfg, starts, s) && WaitsExact(cfg, starts, s.attempts)
    ensures WaitsExact(cfg, starts, Poll(cfg, s, o).attempts)
  {
    if s.queue != [] && s.lost == [] && s.queue[0].retryCount < cfg.maxRetries {
      var e := s.queue[0];
      assert EntrySound(cfg, starts, s.attempts, e);
      var a := Attempt(e.tag, cfg.delay * Pow2(e.retryCount));
      forall tag | 0 <= tag < |starts|
        ensures Waited(s.attempts + [a], tag) == Backoff(cfg, starts[tag], starts[tag] + Tries(s.attempts + [a], tag))
      {
        AttemptSnoc(s.attempts, a, tag);
        BackoffStep(cfg, starts[tag], starts[tag] + Tries(s.attempts, tag));
      }
    }
  }

  /** The wait of every message, whether queued, delivered, given up on or lost, after any polls. */
  lemma {:induction false} EveryWaitIsExact(cfg: Config, starts: seq<nat>, outcomes: seq<Outcome>)
    ensures WaitsExact(cfg, starts, Polls(cfg, starts, outcomes).attempts)
  {
    if outcomes != [] {
      var front := outcomes[..|outcomes| - 1];
      EveryWaitIsExact(cfg, starts, front);
      EveryLoopHeadIsSound(cfg, starts, front);
      PollKeepsWaits(cfg, starts, Polls(cfg, starts, front), outcomes[|outcomes| - 1]);
    }
  }

  const U32_MAX: nat := 0xFFFF_FFFF

  lemma {:induction false} Pow2Monotone(a: nat, b: nat)
    requires a <= b
    ensures Pow2(a) <= Pow2(b)
  {
    if a < b { Pow2Monotone(a, b - 1); }
  }

  lemma Pow2Of32()
    ensures Pow2(31) == 0x8000_0000 && Pow2(32) == 0x1_0000_0000
  {
    assert Pow2(8) == 256;
    assert Pow2(16) == 0x1_0000;
    assert Pow2(24) == 0x100_0000;
  }

  /** The backoff factor fits 32 bits for every retry exactly when max_retries is at most 32. */
  lemma FactorFitsExactly(maxRetries: nat)
    ensures (forall r :: 0 <= r < maxRetries ==> Pow2(r) <= U32_MAX) <==> maxRetries <= 32
  {
    Pow2Of32();
    if maxRetries <= 32 {
      forall r | 0 <= r < maxRetries ensures Pow2(r) <= U32_MAX { Pow2Monotone(r, 31); }
    }
  }
}
