/** How long half-finished cache calls can keep a value alive, and whether successive answers can go back in time. */
module CacheTiming {
  import opened Wrappers
  import opened Domain
  import opened Cache
  import opened CacheRaces

  // ---------------------------------------------------------------------------
  // Deadlines: when the Redis copy of each write expires
  // ---------------------------------------------------------------------------

  /** Keyed by the number of the writing step. */
  function Deadlines(cfg: Config, ops: seq<Half>): map<nat, nat>
    requires cfg.shardCount > 0
  {
    if ops == [] then map[]
    else
      var front, op := ops[..|ops| - 1], ops[|ops| - 1];
      var before := Deadlines(cfg, front);
      if Accepted(op) then before[|ops| := CacheRaces.Run(cfg, front).cache.now + WholeSeconds(op.ttl)] else before
  }

  lemma StepIsNext(cfg: Config, s: Race, op: Half)
    requires Ready(cfg, s.cache)
    ensures var r := CacheRaces.Exec(cfg, s, op);
      r.step == s.step + 1 && r.history == if Accepted(op) then s.history[r.step := op.value] else s.history
  {}

  lemma {:induction false} DeadlinesKnown(cfg: Config, ops: seq<Half>)
    requires cfg.shardCount > 0
    ensures CacheRaces.Run(cfg, ops).step == |ops|
    ensures CacheRaces.Run(cfg, ops).history.Keys == Deadlines(cfg, ops).Keys
    ensures forall t :: t in Deadlines(cfg, ops) ==> t <= |ops|
  {
    if ops != [] {
      var front, op := ops[..|ops| - 1], ops[|ops| - 1];
      DeadlinesKnown(cfg, front);
      StepIsNext(cfg, CacheRaces.Run(cfg, front), op);
    }
  }

  predicate Extends(d: map<nat, nat>, e: map<nat, nat>) {
    forall t :: t in d ==> t in e && e[t] == d[t]
  }

  lemma DeadlinesExtend(cfg: Config, ops: seq<Half>)
    requires cfg.shardCount > 0 && ops != []
    ensures Extends(Deadlines(cfg, ops[..|ops| - 1]), Deadlines(cfg, ops))
  {
    DeadlinesKnown(cfg, ops[..|ops| - 1]);
  }

  // ---------------------------------------------------------------------------
  // Late stores
  // ---------------------------------------------------------------------------

  /** An account about to be stored whose write has already expired in Redis. */
  predicate Late(cfg: Config, s: Race, d: map<nat, nat>, op: Half)
    requires Ready(cfg, s.cache)
  {
    && Storable(s, op) && s.calls[op.call].item.AccountOf? && cfg.defaultTtl > 0
    && s.calls[op.call].tag in d && d[s.calls[op.call].tag] <= s.cache.now
  }

  predicate NeverLate(cfg: Config, ops: seq<Half>)
    requires cfg.shardCount > 0
  {
    if ops == [] then true
    else
      var front := ops[..|ops| - 1];
      NeverLate(cfg, front) && !Late(cfg, CacheRaces.Run(cfg, front), Deadlines(cfg, front), ops[|ops| - 1])
  }

  /** Served from memory only before the deadline of its write plus the default time to live less one tick. */
  predicate Punctual(cfg: Config, s: Race, d: map<nat, nat>, id: Uuid)
    requires Ready(cfg, s.cache)
  {
    var item := AccountOf(id);
    InMemory(cfg, s.cache, item).Some? ==>
      item in s.tags && s.tags[item] in d && s.cache.now + 1 < d[s.tags[item]] + cfg.defaultTtl
  }

  /** What keeps an entry punctual for as long as it lives: it was stored before that deadline. */
  predicate Timed(cfg: Config, s: Race, d: map<nat, nat>, id: Uuid)
    requires Ready(cfg, s.cache)
  {
    var e, item := Mem(cfg, s.cache.shards, id), AccountOf(id);
    e.Some? ==>
      item in s.tags && s.tags[item] in d && e.value.ttl == cfg.defaultTtl
      && (cfg.defaultTtl > 0 ==> e.value.lastAccessed < d[s.tags[item]])
  }

  lemma TimedIsPunctual(cfg: Config, s: Race, d: map<nat, nat>, id: Uuid, wait: nat)
    requires Ready(cfg, s.cache) && Timed(cfg, s, d, id)
    ensures Punctual(cfg, CacheRaces.Exec(cfg, s, CacheRaces.Tick(wait)), d, id)
  {}

  lemma SweptMem(cfg: Config, c: Cache, id: Uuid)
    requires Ready(cfg, c)
    ensures var after := Mem(cfg, Swept(c.shards, c.now), id); after == None || after == Mem(cfg, c.shards, id)
  {}

  predicate StoresAccount(s: Race, op: Half, id: Uuid) {
    Storable(s, op) && s.calls[op.call].item == AccountOf(id)
  }

  /** A store gives the account a new entry and its tag; any other half-step at most takes its entry away. */
  lemma EntryStored(cfg: Config, s: Race, op: Half, id: Uuid)
    requires Ready(cfg, s.cache) && StoresAccount(s, op, id)
    ensures var r, c := CacheRaces.Exec(cfg, s, op), s.calls[op.call];
      && r.cache.now == s.cache.now && AccountOf(id) in r.tags && r.tags[AccountOf(id)] == c.tag
      && Mem(cfg, r.cache.shards, id) == Some(MemEntry(c.value.account, s.cache.now, s.cache.now, 1, cfg.defaultTtl))
  {
    RememberedEntries(cfg, s.cache.shards, s.cache.now, id, s.calls[op.call].value.account, op.victim, id);
  }

  predicate SameOrGone(cfg: Config, s: Race, r: Race, id: Uuid)
    requires Ready(cfg, s.cache) && Ready(cfg, r.cache)
  {
    var e, item := Mem(cfg, r.cache.shards, id), AccountOf(id);
    && (e == None || e == Mem(cfg, s.cache.shards, id))
    && (item in s.tags ==> item in r.tags && r.tags[item] == s.tags[item])
  }

  lemma OtherStore(cfg: Config, s: Race, op: Half, id: Uuid)
    requires Ready(cfg, s.cache) && op.Store? && !StoresAccount(s, op, id)
    ensures SameOrGone(cfg, s, CacheRaces.Exec(cfg, s, op), id)
  {
    if Storable(s, op) && s.calls[op.call].item.AccountOf? {
      var c := s.calls[op.call];
      RememberedEntries(cfg, s.cache.shards, s.cache.now, c.item.id, c.value.account, op.victim, id);
    }
  }

  lemma ExpireEntry(cfg: Config, s: Race, x: Uuid, id: Uuid)
    requires Ready(cfg, s.cache)
    ensures SameOrGone(cfg, s, CacheRaces.Exec(cfg, s, CacheRaces.Expire(x)), id)
  {
    ExpireIs(cfg, s, x);
    ForgottenEntries(cfg, s.cache.shards, x, id);
  }

  lemma DropEntry(cfg: Config, s: Race, x: Item, id: Uuid)
    requires Ready(cfg, s.cache)
    ensures SameOrGone(cfg, s, CacheRaces.Exec(cfg, s, CacheRaces.Drop(x)), id)
  {
    DropIs(cfg, s, x);
    ForgottenEntries(cfg, s.cache.shards, x.id, id);
  }

  lemma SweepEntry(cfg: Config, s: Race, id: Uuid)
    requires Ready(cfg, s.cache)
    ensures SameOrGone(cfg, s, CacheRaces.Exec(cfg, s, CacheRaces.Sweep), id)
  {
    SweepIs(cfg, s);
    SweptMem(cfg, s.cache, id);
  }

  lemma WriteEntry(cfg: Config, s: Race, x: Item, v: Value, ttl: nat, id: Uuid)
    requires Ready(cfg, s.cache)
    ensures SameOrGone(cfg, s, CacheRaces.Exec(cfg, s, CacheRaces.Write(x, v, ttl)), id)
  {}

  lemma EntryKept(cfg: Config, s: Race, op: Half, id: Uuid)
    requires Ready(cfg, s.cache) && !StoresAccount(s, op, id)
    ensures SameOrGone(cfg, s, CacheRaces.Exec(cfg, s, op), id)
  {
    match op {
      case Expire(x) => ExpireEntry(cfg, s, x, id);
      case Sweep => SweepEntry(cfg, s, id);
      case Drop(x) => DropEntry(cfg, s, x, id);
      case Store(_, _) => OtherStore(cfg, s, op, id);
      case Write(x, v, ttl) => WriteEntry(cfg, s, x, v, ttl, id);
      case Tick(_) =>
      case Read(_) =>
      case Delete(_) =>
    }
  }

  lemma StepKeepsTimed(cfg: Config, s: Race, d: map<nat, nat>, e: map<nat, nat>, op: Half, id: Uuid)
    requires Ready(cfg, s.cache) && Timed(cfg, s, d, id) && Extends(d, e)
    requires Storable(s, op) ==> s.calls[op.call].tag in d
    requires !Late(cfg, s, d, op)
    ensures Timed(cfg, CacheRaces.Exec(cfg, s, op), e, id)
  {
    if StoresAccount(s, op, id) { EntryStored(cfg, s, op, id); } else { EntryKept(cfg, s, op, id); }
  }

  lemma CallsHaveDeadlines(cfg: Config, ops: seq<Half>, op: Half)
    requires cfg.shardCount > 0
    ensures var s := CacheRaces.Run(cfg, ops); Storable(s, op) ==> s.calls[op.call].tag in Deadlines(cfg, ops)
  {
    CacheRaces.EveryRunIsSound(cfg, ops);
    DeadlinesKnown(cfg, ops);
    var s := CacheRaces.Run(cfg, ops);
    if Storable(s, op) { assert CallOk(s, s.calls[op.call]); }
  }

  lemma {:induction false} TimelyRunsStayTimed(cfg: Config, ops: seq<Half>, id: Uuid)
    requires cfg.shardCount > 0 && NeverLate(cfg, ops)
    ensures Timed(cfg, CacheRaces.Run(cfg, ops), Deadlines(cfg, ops), id)
  {
    if ops != [] {
      var front, op := ops[..|ops| - 1], ops[|ops| - 1];
      TimelyRunsStayTimed(cfg, front, id);
      DeadlinesExtend(cfg, ops);
      CallsHaveDeadlines(cfg, front, op);
      StepKeepsTimed(cfg, CacheRaces.Run(cfg, front), Deadlines(cfg, front), Deadlines(cfg, ops), op, id);
    }
  }

  /** However long one waits, every account served from memory is within its bound. */
  ghost predicate PunctualFrom(cfg: Config, s: Race, d: map<nat, nat>)
    requires Ready(cfg, s.cache)
  {
    forall id, wait: nat :: Punctual(cfg, CacheRaces.Exec(cfg, s, CacheRaces.Tick(wait)), d, id)
  }

  ghost predicate AlwaysPunctual(cfg: Config, ops: seq<Half>)
    requires cfg.shardCount > 0
  {
    && PunctualFrom(cfg, CacheRaces.Run(cfg, ops), Deadlines(cfg, ops))
    && (ops == [] || AlwaysPunctual(cfg, ops[..|ops| - 1]))
  }

  /** A late store, looked up in the last moment of the stored copy, is served at or past the bound. */
  lemma LateStoreIsUnpunctual(cfg: Config, s: Race, d: map<nat, nat>, e: map<nat, nat>, op: Half)
    requires Ready(cfg, s.cache) && Late(cfg, s, d, op) && Extends(d, e)
    ensures var id := s.calls[op.call].item.id;
      !Punctual(cfg, CacheRaces.Exec(cfg, CacheRaces.Exec(cfg, s, op), CacheRaces.Tick(cfg.defaultTtl - 1)), e, id)
  {
    EntryStored(cfg, s, op, s.calls[op.call].item.id);
  }

  lemma LateStoreSpoils(cfg: Config, s: Race, d: map<nat, nat>, e: map<nat, nat>, op: Half)
    requires Ready(cfg, s.cache) && Late(cfg, s, d, op) && Extends(d, e)
    ensures !PunctualFrom(cfg, CacheRaces.Exec(cfg, s, op), e)
  {
    LateStoreIsUnpunctual(cfg, s, d, e, op);
    var wait: nat := cfg.defaultTtl - 1;
    assert !Punctual(cfg, CacheRaces.Exec(cfg, CacheRaces.Exec(cfg, s, op), CacheRaces.Tick(wait)), e, s.calls[op.call].item.id);
  }

  lemma TimelyRunIsPunctual(cfg: Config, ops: seq<Half>)
    requires cfg.shardCount > 0 && NeverLate(cfg, ops)
    ensures PunctualFrom(cfg, CacheRaces.Run(cfg, ops), Deadlines(cfg, ops))
  {
    var s, d := CacheRaces.Run(cfg, ops), Deadlines(cfg, ops);
    forall id, wait: nat ensures Punctual(cfg, CacheRaces.Exec(cfg, s, CacheRaces.Tick(wait)), d, id) {
      TimelyRunsStayTimed(cfg, ops, id);
      TimedIsPunctual(cfg, s, d, id, wait);
    }
  }

  /** In every run of half-steps, every account served from memory is within its bound if and only if no store was late. */
  lemma {:induction false} PunctualExactlyWhen(cfg: Config, ops: seq<Half>)
    requires cfg.shardCount > 0
    ensures AlwaysPunctual(cfg, ops) <==> NeverLate(cfg, ops)
  {
    if NeverLate(cfg, ops) { TimelyRunIsPunctual(cfg, ops); }
    if ops != [] {
      var front, op := ops[..|ops| - 1], ops[|ops| - 1];
      PunctualExactlyWhen(cfg, front);
      if Late(cfg, CacheRaces.Run(cfg, front), Deadlines(cfg, front), op) {
        DeadlinesExtend(cfg, ops);
        LateStoreSpoils(cfg, CacheRaces.Run(cfg, front), Deadlines(cfg, front), Deadlines(cfg, ops), op);
      }
    }
  }

  // ---------------------------------------------------------------------------
  // The bound in terms of the last value set
  // ---------------------------------------------------------------------------

  /** Redis and the record of the last set agree with the deadline of the last write. */
  predicate StampOk(s: Race, d: map<nat, nat>, id: Uuid) {
    var item := AccountOf(id);
    && (id in s.cache.redis ==> id in s.cache.last && s.cache.redis[id].expires == s.cache.last[id].at + s.cache.last[id].ttl)
    && (item in s.latest && s.latest[item].alive ==>
          id in s.cache.last && s.latest[item].step in d && d[s.latest[item].step] == s.cache.last[id].at + s.cache.last[id].ttl)
  }

  predicate SameRedis(s: Race, r: Race) {
    r.cache.redis == s.cache.redis && r.cache.last == s.cache.last && r.latest == s.latest
  }

  lemma StoreLeavesRedis(cfg: Config, s: Race, k: nat, victim: Uuid)
    requires Ready(cfg, s.cache)
    ensures SameRedis(s, CacheRaces.Exec(cfg, s, CacheRaces.Store(k, victim)))
  {
    var t := s.(step := s.step + 1);
    if Storable(s, CacheRaces.Store(k, victim)) {
      var c := StoreIn(cfg, s.cache, s.calls[k].item, s.calls[k].value, victim);
      assert c.redis == s.cache.redis && c.last == s.cache.last;
      assert CacheRaces.Exec(cfg, s, CacheRaces.Store(k, victim)) == CacheRaces.Stored(cfg, t, k, victim);
    } else {
      assert CacheRaces.Exec(cfg, s, CacheRaces.Store(k, victim)) == t;
    }
  }

  lemma ReadLeavesRedis(cfg: Config, s: Race, item: Item)
    requires Ready(cfg, s.cache)
    ensures SameRedis(s, CacheRaces.Exec(cfg, s, CacheRaces.Read(item)))
  {}

  lemma ExpireIs(cfg: Config, s: Race, id: Uuid)
    requires Ready(cfg, s.cache)
    ensures var r := CacheRaces.Exec(cfg, s, CacheRaces.Expire(id));
      r == s.(step := s.step + 1) || r == s.(step := s.step + 1, cache := DropFrom(cfg, s.cache, AccountOf(id)))
  {}

  lemma DropIs(cfg: Config, s: Race, item: Item)
    requires Ready(cfg, s.cache)
    ensures CacheRaces.Exec(cfg, s, CacheRaces.Drop(item)) == s.(step := s.step + 1, cache := DropFrom(cfg, s.cache, item))
  {}

  lemma SweepIs(cfg: Config, s: Race)
    requires Ready(cfg, s.cache)
    ensures CacheRaces.Exec(cfg, s, CacheRaces.Sweep)
         == s.(step := s.step + 1, cache := s.cache.(shards := Swept(s.cache.shards, s.cache.now)))
  {}

  lemma QuietLeavesRedis(cfg: Config, s: Race, op: Half)
    requires Ready(cfg, s.cache) && Quiet(op)
    ensures SameRedis(s, CacheRaces.Exec(cfg, s, op))
  {
    match op {
      case Tick(_) =>
      case Expire(id) => ExpireIs(cfg, s, id);
      case Sweep => SweepIs(cfg, s);
      case Drop(item) => DropIs(cfg, s, item);
    }
  }

  lemma WriteKeepsStamp(cfg: Config, s: Race, d: map<nat, nat>, e: map<nat, nat>, item: Item, v: Value, ttl: nat, id: Uuid)
    requires Ready(cfg, s.cache) && StampOk(s, d, id) && Extends(d, e) && Suits(item, v) && WholeSeconds(ttl) > 0
    requires s.step + 1 in e && e[s.step + 1] == s.cache.now + WholeSeconds(ttl)
    ensures StampOk(CacheRaces.Exec(cfg, s, CacheRaces.Write(item, v, ttl)), e, id)
  {
    var r := CacheRaces.Exec(cfg, s, CacheRaces.Write(item, v, ttl));
    assert r.cache == WriteTo(s.cache, item, v, WholeSeconds(ttl)) && r.latest == s.latest[item := Mark(s.step + 1, true)];
    if item == AccountOf(id) {
      assert r.cache.last[id] == Stamp(v.account, s.cache.now, WholeSeconds(ttl));
    }
  }

  lemma DeleteKeepsStamp(cfg: Config, s: Race, d: map<nat, nat>, item: Item, id: Uuid)
    requires Ready(cfg, s.cache) && StampOk(s, d, id)
    ensures StampOk(CacheRaces.Exec(cfg, s, CacheRaces.Delete(item)), d, id)
  {
    var r := CacheRaces.Exec(cfg, s, CacheRaces.Delete(item));
    assert r.cache == DeleteFrom(s.cache, item) && r.latest == s.latest[item := Mark(s.step + 1, false)];
  }

  lemma StepKeepsStamp(cfg: Config, s: Race, d: map<nat, nat>, e: map<nat, nat>, op: Half, id: Uuid)
    requires Ready(cfg, s.cache) && StampOk(s, d, id) && Extends(d, e)
    requires Accepted(op) ==> s.step + 1 in e && e[s.step + 1] == s.cache.now + WholeSeconds(op.ttl)
    ensures StampOk(CacheRaces.Exec(cfg, s, op), e, id)
  {
    match op {
      case Write(item, v, ttl) => if Accepted(op) { WriteKeepsStamp(cfg, s, d, e, item, v, ttl, id); }
      case Delete(item) => DeleteKeepsStamp(cfg, s, d, item, id);
      case Read(item) => ReadLeavesRedis(cfg, s, item);
      case Store(k, victim) => StoreLeavesRedis(cfg, s, k, victim);
      case _ => QuietLeavesRedis(cfg, s, op);
    }
  }

  lemma {:induction false} RunsKeepStamps(cfg: Config, ops: seq<Half>, id: Uuid)
    requires cfg.shardCount > 0
    ensures StampOk(CacheRaces.Run(cfg, ops), Deadlines(cfg, ops), id)
  {
    if ops != [] {
      var front := ops[..|ops| - 1];
      RunsKeepStamps(cfg, front, id);
      DeadlinesExtend(cfg, ops);
      DeadlinesKnown(cfg, front);
      StepKeepsStamp(cfg, CacheRaces.Run(cfg, front), Deadlines(cfg, front), Deadlines(cfg, ops), ops[|ops| - 1], id);
    }
  }

  lemma SettledTag(cfg: Config, s: Race, item: Item)
    requires CacheRaces.Sound(cfg, s) && Fresh(cfg, s, item) && Settled(s, item) && InMemory(cfg, s.cache, item).Some?
    ensures item in s.tags && item in s.latest && s.latest[item].alive && s.tags[item] == s.latest[item].step
  {
    assert ItemOk(cfg, s, item);
    assert !UnderWay(s, item, s.latest[item].step);
  }

  /**
   What whole calls promise, for half-finished ones: with nothing overtaken, nothing late and no set of the
   account under way, an answer is the last value set, given before its horizon.
   */
  lemma AnswersAreTimely(cfg: Config, ops: seq<Half>, id: Uuid)
    requires cfg.shardCount > 0 && NeverOvertaken(cfg, ops) && NeverLate(cfg, ops)
    requires Settled(CacheRaces.Run(cfg, ops), AccountOf(id))
    ensures var c := CacheRaces.Run(cfg, ops).cache;
      Answer(cfg, c, AccountOf(id)).Some? ==>
        id in c.last && Answer(cfg, c, AccountOf(id)) == Some(AccountValue(c.last[id].value)) && c.now < Horizon(cfg, c.last[id])
  {
    var s, item := CacheRaces.Run(cfg, ops), AccountOf(id);
    SettledAnswerIsLastSet(cfg, ops, item);
    RunsKeepStamps(cfg, ops, id);
    if InMemory(cfg, s.cache, item).Some? {
      FreshExactlyWhen(cfg, ops);
      CacheRaces.EveryRunIsSound(cfg, ops);
      assert Fresh(cfg, s, item);
      SettledTag(cfg, s, item);
      TimelyRunsStayTimed(cfg, ops, id);
    }
  }

  /** Whole calls store in time. */
  lemma WholeCallsAreNeverLate(cfg: Config, s: Race, d: map<nat, nat>, e: map<nat, nat>, op: Half, victim: Uuid)
    requires Ready(cfg, s.cache) && (op.Read? || op.Write?) && Extends(d, e)
    requires op.item.AccountOf? && StampOk(s, d, op.item.id) && RedisOk(s, op.item)
    requires Accepted(op) ==> s.step + 1 in e && e[s.step + 1] == s.cache.now + WholeSeconds(op.ttl)
    ensures !Late(cfg, CacheRaces.Exec(cfg, s, op), e, CacheRaces.Store(|s.calls|, victim))
  {}

  /** A set whose memory half is delayed by any time serves its value then, however long Redis has forgotten it. */
  lemma DelayedStoreServesExpiredValue(cfg: Config, a: Account, ttl: nat, delay: nat, victim: Uuid)
    requires cfg.shardCount > 0 && cfg.defaultTtl > 0 && WholeSeconds(ttl) > 0
    ensures var ops := [] + [CacheRaces.Write(AccountOf(a.id), AccountValue(a), ttl)]
                       + [CacheRaces.Tick(delay)] + [CacheRaces.Store(0, victim)];
            var c := CacheRaces.Run(cfg, ops).cache;
      && c.now == delay && InMemory(cfg, c, AccountOf(a.id)) == Some(AccountValue(a))
      && a.id in c.last && c.last[a.id] == Stamp(a, 0, WholeSeconds(ttl))
  {
    var item := AccountOf(a.id);
    var one: seq<Half> := [] + [CacheRaces.Write(item, AccountValue(a), ttl)];
    var two := one + [CacheRaces.Tick(delay)];
    CacheRaces.RunSnoc(cfg, [], CacheRaces.Write(item, AccountValue(a), ttl));
    CacheRaces.RunSnoc(cfg, one, CacheRaces.Tick(delay));
    CacheRaces.RunSnoc(cfg, two, CacheRaces.Store(0, victim));
    StoreEffect(cfg, CacheRaces.Run(cfg, two), 0, victim);
  }

  // ---------------------------------------------------------------------------
  // What each half-step does to one item
  // ---------------------------------------------------------------------------

  predicate Stores(s: Race, op: Half, item: Item) {
    Storable(s, op) && s.calls[op.call].item == item
  }

  /** The memory copy of an item and its tag after a step that does not store it. */
  predicate KeepsOrLoses(cfg: Config, s: Race, r: Race, item: Item)
    requires Ready(cfg, s.cache) && Ready(cfg, r.cache)
  {
    && (InMemory(cfg, r.cache, item) == None || InMemory(cfg, r.cache, item) == InMemory(cfg, s.cache, item))
    && (item in s.tags ==> item in r.tags && r.tags[item] == s.tags[item])
  }

  lemma StoreOfItem(cfg: Config, s: Race, k: nat, victim: Uuid, item: Item)
    requires Ready(cfg, s.cache) && Stores(s, CacheRaces.Store(k, victim), item)
    ensures var r := CacheRaces.Exec(cfg, s, CacheRaces.Store(k, victim));
      && item in r.tags && r.tags[item] == s.calls[k].tag
      && InMemory(cfg, r.cache, item) == if Servable(cfg, item) then Some(s.calls[k].value) else None
  {
    StoreInMemory(cfg, s.cache, item, s.calls[k].value, victim, item);
  }

  lemma StoreOfOther(cfg: Config, s: Race, k: nat, victim: Uuid, item: Item)
    requires Ready(cfg, s.cache) && !Stores(s, CacheRaces.Store(k, victim), item)
    ensures KeepsOrLoses(cfg, s, CacheRaces.Exec(cfg, s, CacheRaces.Store(k, victim)), item)
  {
    if Storable(s, CacheRaces.Store(k, victim)) {
      StoreInMemory(cfg, s.cache, s.calls[k].item, s.calls[k].value, victim, item);
    }
  }

  lemma WriteKeepsMemory(cfg: Config, s: Race, x: Item, v: Value, ttl: nat, item: Item)
    requires Ready(cfg, s.cache)
    ensures KeepsOrLoses(cfg, s, CacheRaces.Exec(cfg, s, CacheRaces.Write(x, v, ttl)), item)
  {
    if Suits(x, v) && WholeSeconds(ttl) > 0 { WriteInRedis(cfg, s.cache, x, v, WholeSeconds(ttl), item); }
  }

  lemma OtherStepsKeepOrLose(cfg: Config, s: Race, op: Half, item: Item)
    requires Ready(cfg, s.cache) && !Stores(s, op, item)
    ensures KeepsOrLoses(cfg, s, CacheRaces.Exec(cfg, s, op), item)
  {
    match op {
      case Store(k, victim) => StoreOfOther(cfg, s, k, victim, item);
      case Write(x, v, ttl) => WriteKeepsMemory(cfg, s, x, v, ttl, item);
      case Delete(x) => DeleteInRedis(cfg, s.cache, x, item);
      case Read(_) =>
      case _ => QuietStepLosesAt(cfg, s.(step := s.step + 1), op, item);
    }
  }

  // ---------------------------------------------------------------------------
  // Deletions, by schedule
  // ---------------------------------------------------------------------------

  /** The last step that stored the item in memory, and the last that dropped it; 0 if there is none. */
  function LastPlaced(cfg: Config, ops: seq<Half>, item: Item): nat
    requires cfg.shardCount > 0
  {
    if ops == [] then 0
    else
      var front, op := ops[..|ops| - 1], ops[|ops| - 1];
      if Stores(CacheRaces.Run(cfg, front), op, item) then |ops| else LastPlaced(cfg, front, item)
  }

  function LastDropped(ops: seq<Half>, item: Item): nat {
    if ops == [] then 0
    else if ops[|ops| - 1] == CacheRaces.Drop(item) then |ops| else LastDropped(ops[..|ops| - 1], item)
  }

  /** Put into memory after it was last dropped from it. */
  predicate PutBack(cfg: Config, ops: seq<Half>, item: Item)
    requires cfg.shardCount > 0
  {
    LastDropped(ops, item) < LastPlaced(cfg, ops, item)
  }

  lemma {:induction false} NotYet(cfg: Config, ops: seq<Half>, item: Item)
    requires cfg.shardCount > 0
    ensures LastPlaced(cfg, ops, item) <= |ops| && LastDropped(ops, item) <= |ops|
  {
    if ops != [] { NotYet(cfg, ops[..|ops| - 1], item); }
  }

  lemma DropOfItem(cfg: Config, s: Race, item: Item)
    requires Ready(cfg, s.cache)
    ensures InMemory(cfg, CacheRaces.Exec(cfg, s, CacheRaces.Drop(item)).cache, item) == None
  {
    DropInMemory(cfg, s.cache, item, item);
  }

  lemma {:induction false} ServedOnlyIfPutBack(cfg: Config, ops: seq<Half>, item: Item)
    requires cfg.shardCount > 0
    ensures InMemory(cfg, CacheRaces.Run(cfg, ops).cache, item).Some? ==> PutBack(cfg, ops, item)
  {
    if ops != [] {
      var front, op := ops[..|ops| - 1], ops[|ops| - 1];
      var s := CacheRaces.Run(cfg, front);
      ServedOnlyIfPutBack(cfg, front, item);
      NotYet(cfg, front, item);
      if op == CacheRaces.Drop(item) {
        DropOfItem(cfg, s, item);
      } else if !Stores(s, op, item) {
        OtherStepsKeepOrLose(cfg, s, op, item);
      }
    }
  }

  predicate HasEvents(s: Race, id: Uuid) {
    id in s.cache.eventCache
  }

  lemma StoreKeepsEvents(cfg: Config, s: Race, k: nat, victim: Uuid, id: Uuid)
    requires Ready(cfg, s.cache)
    ensures HasEvents(s, id) || Stores(s, CacheRaces.Store(k, victim), EventsOf(id)) ==>
      HasEvents(CacheRaces.Exec(cfg, s, CacheRaces.Store(k, victim)), id)
  {
    if Storable(s, CacheRaces.Store(k, victim)) {
      var c := StoreIn(cfg, s.cache, s.calls[k].item, s.calls[k].value, victim);
      assert CacheRaces.Exec(cfg, s, CacheRaces.Store(k, victim)) == CacheRaces.Stored(cfg, s.(step := s.step + 1), k, victim);
      assert id in s.cache.eventCache || s.calls[k].item == EventsOf(id) ==> id in c.eventCache;
    }
  }

  lemma WriteKeepsEvents(cfg: Config, s: Race, x: Item, v: Value, ttl: nat, id: Uuid)
    requires Ready(cfg, s.cache)
    ensures HasEvents(s, id) ==> HasEvents(CacheRaces.Exec(cfg, s, CacheRaces.Write(x, v, ttl)), id)
  {}

  lemma QuietKeepsEvents(cfg: Config, s: Race, op: Half, id: Uuid)
    requires Ready(cfg, s.cache) && Quiet(op) && op != CacheRaces.Drop(EventsOf(id))
    ensures HasEvents(s, id) ==> HasEvents(CacheRaces.Exec(cfg, s, op), id)
  {
    match op {
      case Tick(_) =>
      case Expire(x) => ExpireIs(cfg, s, x);
      case Sweep => SweepIs(cfg, s);
      case Drop(x) => DropIs(cfg, s, x);
    }
  }

  /** Nothing but a drop takes an event list out of memory. */
  lemma EventsKept(cfg: Config, s: Race, op: Half, id: Uuid)
    requires Ready(cfg, s.cache) && op != CacheRaces.Drop(EventsOf(id))
    ensures HasEvents(s, id) || Stores(s, op, EventsOf(id)) ==> HasEvents(CacheRaces.Exec(cfg, s, op), id)
  {
    match op {
      case Store(k, victim) => StoreKeepsEvents(cfg, s, k, victim, id);
      case Write(x, v, ttl) => WriteKeepsEvents(cfg, s, x, v, ttl, id);
      case Delete(_) =>
      case Read(_) =>
      case _ => QuietKeepsEvents(cfg, s, op, id);
    }
  }

  lemma {:induction false} EventsServedIfPutBack(cfg: Config, ops: seq<Half>, id: Uuid)
    requires cfg.shardCount > 0
    ensures PutBack(cfg, ops, EventsOf(id)) ==> HasEvents(CacheRaces.Run(cfg, ops), id)
  {
    if ops != [] {
      var front, op := ops[..|ops| - 1], ops[|ops| - 1];
      EventsServedIfPutBack(cfg, front, id);
      NotYet(cfg, front, EventsOf(id));
      if op != CacheRaces.Drop(EventsOf(id)) { EventsKept(cfg, CacheRaces.Run(cfg, front), op, id); }
    }
  }

  /**
   A deletion spoils freshness exactly when the item was put into memory after it was last dropped from it;
   for an account, if that copy has not been evicted or expired meanwhile.
   */
  lemma DeletionOvertakenExactlyWhen(cfg: Config, ops: seq<Half>, item: Item)
    requires cfg.shardCount > 0
    ensures var s := CacheRaces.Run(cfg, ops);
      Overtaken(cfg, s, CacheRaces.Delete(item)) <==>
        PutBack(cfg, ops, item) && (item.AccountOf? ==> Served(cfg, s.cache.shards, item.id, s.cache.now).Some?)
  {
    ServedOnlyIfPutBack(cfg, ops, item);
    if item.EventsOf? { EventsServedIfPutBack(cfg, ops, item.id); }
  }

  // ---------------------------------------------------------------------------
  // Whether successive answers can go back to an older write
  // ---------------------------------------------------------------------------

  /** The write that a lookup's answer comes from. */
  function AnswerTag(cfg: Config, s: Race, item: Item): Option<nat>
    requires Ready(cfg, s.cache)
  {
    if InMemory(cfg, s.cache, item).Some? && item in s.tags then Some(s.tags[item])
    else if InRedis(s.cache, item).Some? && item in s.latest then Some(s.latest[item].step)
    else None
  }

  /** The newest write any lookup could have answered with so far; -1 before there is any. */
  function Best(cfg: Config, ops: seq<Half>, item: Item): int
    requires cfg.shardCount > 0
  {
    var now := AnswerTag(cfg, CacheRaces.Run(cfg, ops), item);
    var before := if ops == [] then -1 else Best(cfg, ops[..|ops| - 1], item);
    if now.Some? && before < now.value then now.value else before
  }

  /** An answer no older than any before it. */
  predicate Onward(cfg: Config, s: Race, item: Item, best: int)
    requires Ready(cfg, s.cache)
  {
    AnswerTag(cfg, s, item).Some? ==> best <= AnswerTag(cfg, s, item).value
  }

  ghost predicate AlwaysOnward(cfg: Config, ops: seq<Half>, item: Item)
    requires cfg.shardCount > 0
  {
    ops == [] || (AlwaysOnward(cfg, ops[..|ops| - 1], item)
                  && Onward(cfg, CacheRaces.Run(cfg, ops), item, Best(cfg, ops[..|ops| - 1], item)))
  }

  /** A store of something older than an answer already given. */
  predicate Rewinds(cfg: Config, s: Race, item: Item, best: int, op: Half) {
    Stores(s, op, item) && Servable(cfg, item) && s.calls[op.call].tag < best
  }

  predicate NeverRewound(cfg: Config, ops: seq<Half>, item: Item)
    requires cfg.shardCount > 0
  {
    if ops == [] then true
    else
      var front := ops[..|ops| - 1];
      NeverRewound(cfg, front, item) && !Rewinds(cfg, CacheRaces.Run(cfg, front), item, Best(cfg, front, item), ops[|ops| - 1])
  }

  predicate Anchored(cfg: Config, s: Race, item: Item, best: int)
    requires Ready(cfg, s.cache)
  {
    && (0 <= best ==> item in s.latest && best <= s.latest[item].step)
    && (InMemory(cfg, s.cache, item).Some? ==> item in s.tags && best <= s.tags[item])
  }

  predicate LatestGrows(s: Race, r: Race, item: Item) {
    item in s.latest ==> item in r.latest && s.latest[item].step <= r.latest[item].step
  }

  lemma LatestOnlyGrows(cfg: Config, s: Race, op: Half, item: Item)
    requires CacheRaces.Sound(cfg, s)
    ensures LatestGrows(s, CacheRaces.Exec(cfg, s, op), item)
  {
    assert ItemOk(cfg, s, item);
    match op {
      case Write(_, _, _) =>
      case Delete(_) =>
      case Read(x) => ReadLeavesRedis(cfg, s, x);
      case Store(k, victim) => StoreLeavesRedis(cfg, s, k, victim);
      case _ => QuietLeavesRedis(cfg, s, op);
    }
  }

  lemma StepStaysAnchored(cfg: Config, s: Race, op: Half, item: Item, best: int)
    requires CacheRaces.Sound(cfg, s) && Anchored(cfg, s, item, best) && !Rewinds(cfg, s, item, best, op)
    ensures Anchored(cfg, CacheRaces.Exec(cfg, s, op), item, best)
  {
    LatestOnlyGrows(cfg, s, op, item);
    if Stores(s, op, item) {
      StoreOfItem(cfg, s, op.call, op.victim, item);
    } else {
      OtherStepsKeepOrLose(cfg, s, op, item);
    }
  }

  lemma AnchoredIsOnward(cfg: Config, s: Race, item: Item, best: int)
    requires CacheRaces.Sound(cfg, s) && Anchored(cfg, s, item, best)
    ensures Onward(cfg, s, item, best)
    ensures AnswerTag(cfg, s, item).Some? ==> Anchored(cfg, s, item, AnswerTag(cfg, s, item).value)
  {
    assert ItemOk(cfg, s, item);
  }

  lemma RewindIsNotOnward(cfg: Config, s: Race, op: Half, item: Item, best: int)
    requires Ready(cfg, s.cache) && Rewinds(cfg, s, item, best, op)
    ensures !Onward(cfg, CacheRaces.Exec(cfg, s, op), item, best)
  {
    StoreOfItem(cfg, s, op.call, op.victim, item);
  }

  lemma {:induction false} UnrewoundStaysAnchored(cfg: Config, ops: seq<Half>, item: Item)
    requires cfg.shardCount > 0 && NeverRewound(cfg, ops, item)
    ensures Anchored(cfg, CacheRaces.Run(cfg, ops), item, Best(cfg, ops, item))
    ensures ops != [] ==> Onward(cfg, CacheRaces.Run(cfg, ops), item, Best(cfg, ops[..|ops| - 1], item))
  {
    if ops != [] {
      var front := ops[..|ops| - 1];
      UnrewoundStaysAnchored(cfg, front, item);
      CacheRaces.EveryRunIsSound(cfg, front);
      CacheRaces.EveryRunIsSound(cfg, ops);
      StepStaysAnchored(cfg, CacheRaces.Run(cfg, front), ops[|ops| - 1], item, Best(cfg, front, item));
      AnchoredIsOnward(cfg, CacheRaces.Run(cfg, ops), item, Best(cfg, front, item));
    }
  }

  /**
   In every run, each answer about an item is no older than all before it if and only if no call stored
   something older than an answer that a lookup could already have had.
   */
  lemma {:induction false} OnwardExactlyWhen(cfg: Config, ops: seq<Half>, item: Item)
    requires cfg.shardCount > 0
    ensures AlwaysOnward(cfg, ops, item) <==> NeverRewound(cfg, ops, item)
  {
    if ops != [] {
      var front, op := ops[..|ops| - 1], ops[|ops| - 1];
      OnwardExactlyWhen(cfg, front, item);
      if Rewinds(cfg, CacheRaces.Run(cfg, front), item, Best(cfg, front, item), op) {
        RewindIsNotOnward(cfg, CacheRaces.Run(cfg, front), op, item, Best(cfg, front, item));
      } else if NeverRewound(cfg, front, item) {
        UnrewoundStaysAnchored(cfg, ops, item);
      }
    }
  }
}
