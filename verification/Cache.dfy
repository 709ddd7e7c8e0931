/**
 The two-level account cache: sharded in-memory maps in front of Redis.  Times are milliseconds.
 Each call is one step; `up` says whether Redis answers it.
 */
module Cache {
  import opened Clock
  import opened Wrappers
  import opened Domain

  datatype Policy = LRU | LFU | TTL

  datatype Config = Config(defaultTtl: nat, maxSize: nat, shardCount: nat, policy: Policy)

  datatype MemEntry = MemEntry(value: Account, createdAt: nat, lastAccessed: nat, accessCount: nat, ttl: nat)

  datatype RedisEntry<V> = RedisEntry(value: V, expires: nat)

  type Shard = map<Uuid, MemEntry>
  type VersionedEvents = seq<(int, AccountEvent)>

  /** The last successful `set_account` since the last successful invalidation: what, when, for how long. */
  datatype Stamp = Stamp(value: Account, at: nat, ttl: nat)

  /** `last` and `lastEvents` are the history the cache is compared with. */
  datatype Cache = Cache(
    now: nat,
    shards: seq<Shard>,
    redis: map<Uuid, RedisEntry<Account>>,
    redisEvents: map<Uuid, RedisEntry<VersionedEvents>>,
    eventCache: map<Uuid, VersionedEvents>,
    warming: bool,
    last: map<Uuid, Stamp>,
    lastEvents: map<Uuid, VersionedEvents>)

  datatype Op =
    | Tick(millis: nat)
    | Get(id: Uuid, up: bool, victim: Uuid)
    | Set(account: Account, ttl: Option<nat>, up: bool, victim: Uuid)
    | GetEvents(id: Uuid, up: bool)
    | SetEvents(id: Uuid, events: VersionedEvents, ttl: Option<nat>, up: bool)
    | Invalidate(id: Uuid, deletions: nat) // how many of its two Redis deletions succeed
    | Sweep
    | Initialize(up: bool)
    | Warmup(ids: seq<Uuid>, up: bool, victims: seq<Uuid>) // the accounts read before a Redis error, if `up` is false

  function Home(cfg: Config, id: Uuid): nat
    requires cfg.shardCount > 0
  {
    id % cfg.shardCount
  }

  /** The lookup's expiry test and the cleanup pass's own. */
  predicate Expired(e: MemEntry, now: nat) {
    Elapsed(now, e.lastAccessed) >= e.ttl
  }

  predicate SweptAway(e: MemEntry, now: nat) {
    Elapsed(now, e.lastAccessed) > e.ttl
  }

  /** `set_ex` takes whole seconds and refuses zero. */
  function WholeSeconds(ttl: nat): nat {
    ttl / 1000 * 1000
  }

  lemma SecondsAreTruncated(ttl: nat)
    ensures WholeSeconds(ttl) % 1000 == 0 && WholeSeconds(ttl) <= ttl < WholeSeconds(ttl) + 1000
  {}

  function Redis<V>(m: map<Uuid, RedisEntry<V>>, id: Uuid, now: nat): Option<V> {
    if id in m && now < m[id].expires then Some(m[id].value) else None
  }

  /** The key the eviction policy minimises. */
  function Rank(policy: Policy, e: MemEntry): nat {
    match policy
    case LRU => e.lastAccessed
    case LFU => e.accessCount
    case TTL => e.createdAt
  }

  /** A minimal entry; which one among equals depends on the map's iteration order. */
  predicate IsVictim(policy: Policy, shard: Shard, v: Uuid) {
    v in shard && forall id :: id in shard ==> Rank(policy, shard[v]) <= Rank(policy, shard[id])
  }

  function Evicted(cfg: Config, shard: Shard, victim: Uuid): Shard {
    if |shard| >= cfg.maxSize then shard - {victim} else shard
  }

  function Stored(cfg: Config, shard: Shard, now: nat, id: Uuid, a: Account, victim: Uuid): Shard {
    Evicted(cfg, shard, victim)[id := MemEntry(a, now, now, 1, cfg.defaultTtl)]
  }

  /** `update_in_memory_cache`. */
  function Remember(cfg: Config, shards: seq<Shard>, now: nat, id: Uuid, a: Account, victim: Uuid): seq<Shard>
    requires 0 < cfg.shardCount == |shards|
  {
    var h := Home(cfg, id);
    shards[h := Stored(cfg, shards[h], now, id, a, victim)]
  }

  function Forget(cfg: Config, shards: seq<Shard>, id: Uuid): seq<Shard>
    requires 0 < cfg.shardCount == |shards|
  {
    var h := Home(cfg, id);
    shards[h := shards[h] - {id}]
  }

  /** The in-memory lookup: only the home shard is searched. */
  function Mem(cfg: Config, shards: seq<Shard>, id: Uuid): Option<MemEntry>
    requires 0 < cfg.shardCount == |shards|
  {
    var m := shards[Home(cfg, id)];
    if id in m then Some(m[id]) else None
  }

  function Served(cfg: Config, shards: seq<Shard>, id: Uuid, now: nat): Option<Account>
    requires 0 < cfg.shardCount == |shards|
  {
    var e := Mem(cfg, shards, id);
    if e.Some? && !Expired(e.value, now) then Some(e.value.value) else None
  }

  function Swept(shards: seq<Shard>, now: nat): (r: seq<Shard>)
    ensures |r| == |shards|
    ensures forall i :: 0 <= i < |r| ==> r[i] == map id | id in shards[i] && !SweptAway(shards[i][id], now) :: shards[i][id]
  {
    seq(|shards|, i requires 0 <= i < |shards| =>
      map id | id in shards[i] && !SweptAway(shards[i][id], now) :: shards[i][id])
  }

  predicate Ready(cfg: Config, c: Cache) {
    0 < cfg.shardCount == |c.shards|
  }

  function WarmOne(cfg: Config, c: Cache, id: Uuid, victim: Uuid): (r: Cache)
    requires Ready(cfg, c)
    ensures Ready(cfg, r)
  {
    var (a, es) := (Redis(c.redis, id, c.now), Redis(c.redisEvents, id, c.now));
    if a.Some? && es.Some?
    then c.(shards := Remember(cfg, c.shards, c.now, id, a.value, victim), eventCache := c.eventCache[id := es.value])
    else c
  }

  function WarmAll(cfg: Config, c: Cache, ids: seq<Uuid>, victims: seq<Uuid>): (r: Cache)
    requires Ready(cfg, c) && |victims| == |ids|
    ensures Ready(cfg, r)
  {
    if ids == [] then c
    else
      var n := |ids| - 1;
      WarmOne(cfg, WarmAll(cfg, c, ids[..n], victims[..n]), ids[n], victims[n])
  }

  /** What `get_account` answers; `Failure` is a Redis error. */
  function GetAnswer(cfg: Config, c: Cache, id: Uuid, up: bool): Result<Option<Account>, ()>
    requires Ready(cfg, c)
  {
    var m := Served(cfg, c.shards, id, c.now);
    if m.Some? then Success(m) else if !up then Failure(()) else Success(Redis(c.redis, id, c.now))
  }

  function GetEventsAnswer(c: Cache, id: Uuid, up: bool): Result<Option<VersionedEvents>, ()> {
    if id in c.eventCache then Success(Some(c.eventCache[id]))
    else if !up then Failure(()) else Success(Redis(c.redisEvents, id, c.now))
  }

  function GetStep(cfg: Config, c: Cache, id: Uuid, up: bool, victim: Uuid): (r: Cache)
    requires Ready(cfg, c)
    ensures Ready(cfg, r)
  {
    if Served(cfg, c.shards, id, c.now).Some? then c
    else
      var shards := Forget(cfg, c.shards, id);
      var r := Redis(c.redis, id, c.now);
      if up && r.Some? then c.(shards := Remember(cfg, shards, c.now, id, r.value, victim)) else c.(shards := shards)
  }

  function SetStep(cfg: Config, c: Cache, a: Account, ttl: Option<nat>, up: bool, victim: Uuid): (r: Cache)
    requires Ready(cfg, c)
    ensures Ready(cfg, r)
  {
    var t := WholeSeconds(if ttl.Some? then ttl.value else cfg.defaultTtl);
    if !up || t == 0 then c
    else c.(redis := c.redis[a.id := RedisEntry(a, c.now + t)],
            shards := Remember(cfg, c.shards, c.now, a.id, a, victim),
            last := c.last[a.id := Stamp(a, c.now, t)])
  }

  function InvalidateStep(cfg: Config, c: Cache, id: Uuid, deletions: nat): (r: Cache)
    requires Ready(cfg, c)
    ensures Ready(cfg, r)
  {
    var d := c.(shards := Forget(cfg, c.shards, id), eventCache := c.eventCache - {id});
    if deletions == 0 then d
    else if deletions == 1 then d.(redis := c.redis - {id})
    else d.(redis := c.redis - {id}, redisEvents := c.redisEvents - {id}, last := c.last - {id}, lastEvents := c.lastEvents - {id})
  }

  function Exec(cfg: Config, c: Cache, op: Op): (r: Cache)
    requires Ready(cfg, c) && (op.Warmup? ==> |op.victims| == |op.ids|)
    ensures Ready(cfg, r)
  {
    match op
    case Tick(d) => c.(now := c.now + d)
    case Get(id, up, victim) => GetStep(cfg, c, id, up, victim)
    case Set(a, ttl, up, victim) => SetStep(cfg, c, a, ttl, up, victim)
    case GetEvents(id, up) =>
      var r := Redis(c.redisEvents, id, c.now);
      if id !in c.eventCache && up && r.Some? then c.(eventCache := c.eventCache[id := r.value]) else c
    case SetEvents(id, es, ttl, up) =>
      var t := WholeSeconds(if ttl.Some? then ttl.value else cfg.defaultTtl);
      if !up || t == 0 then c
      else c.(redisEvents := c.redisEvents[id := RedisEntry(es, c.now + t)], eventCache := c.eventCache[id := es],
              lastEvents := c.lastEvents[id := es])
    case Invalidate(id, deletions) => InvalidateStep(cfg, c, id, deletions)
    case Sweep => c.(shards := Swept(c.shards, c.now))
    case Initialize(up) => if c.warming || !up then c else c.(warming := true)
    case Warmup(ids, up, victims) =>
      // A Redis error leaves the warming flag set.
      if c.warming then c else WarmAll(cfg, c, ids, victims).(warming := !up)
  }

  /** Evictions pick a minimal entry of the full shard. */
  predicate LegalVictim(cfg: Config, shards: seq<Shard>, id: Uuid, victim: Uuid)
    requires 0 < cfg.shardCount == |shards|
  {
    var m := shards[Home(cfg, id)];
    |m| >= cfg.maxSize && m != map[] ==> IsVictim(cfg.policy, m, victim)
  }

  predicate LegalVictims(cfg: Config, c: Cache, ids: seq<Uuid>, victims: seq<Uuid>)
    requires Ready(cfg, c) && |victims| == |ids|
  {
    if ids == [] then true
    else
      var n := |ids| - 1;
      && LegalVictims(cfg, c, ids[..n], victims[..n])
      && LegalVictim(cfg, WarmAll(cfg, c, ids[..n], victims[..n]).shards, ids[n], victims[n])
  }

  predicate LegalOp(cfg: Config, c: Cache, op: Op)
    requires Ready(cfg, c)
  {
    match op
    case Get(id, _, victim) => LegalVictim(cfg, Forget(cfg, c.shards, id), id, victim)
    case Set(a, _, _, victim) => LegalVictim(cfg, c.shards, a.id, victim)
    case Warmup(ids, _, victims) => |victims| == |ids| && LegalVictims(cfg, c, ids, victims)
    case _ => true
  }

  function Start(cfg: Config): (c: Cache)
    requires cfg.shardCount > 0
    ensures Ready(cfg, c)
  {
    Cache(0, seq(cfg.shardCount, i => map[]), map[], map[], map[], false, map[], map[])
  }

  function Do(cfg: Config, c: Cache, op: Op): (r: Cache)
    requires Ready(cfg, c)
    ensures Ready(cfg, r)
  {
    if LegalOp(cfg, c, op) then Exec(cfg, c, op) else c
  }

  /** Any sequence of calls, sweeps and clock advances; an eviction that is not a policy choice is skipped. */
  function Continue(cfg: Config, c: Cache, ops: seq<Op>): (r: Cache)
    requires Ready(cfg, c)
    ensures Ready(cfg, r)
  {
    if ops == [] then c else Do(cfg, Continue(cfg, c, ops[..|ops| - 1]), ops[|ops| - 1])
  }

  function Run(cfg: Config, ops: seq<Op>): (c: Cache)
    requires cfg.shardCount > 0
    ensures Ready(cfg, c)
  {
    Continue(cfg, Start(cfg), ops)
  }

  // ---------------------------------------------------------------------------
  // Shape: where entries live and how many there are
  // ---------------------------------------------------------------------------

  function Most(cfg: Config): nat {
    if cfg.maxSize == 0 then 1 else cfg.maxSize
  }

  predicate WellShaped(cfg: Config, shards: seq<Shard>)
    requires cfg.shardCount > 0
  {
    && (forall i, id :: 0 <= i < |shards| && id in shards[i] ==> Home(cfg, id) == i)
    && (forall i :: 0 <= i < |shards| ==> |shards[i]| <= Most(cfg))
  }

  lemma ForgetKeepsShape(cfg: Config, shards: seq<Shard>, id: Uuid)
    requires 0 < cfg.shardCount == |shards| && WellShaped(cfg, shards)
    ensures WellShaped(cfg, Forget(cfg, shards, id))
  {
    RemoveKey(shards[Home(cfg, id)], id);
  }

  lemma ForgottenEntries(cfg: Config, shards: seq<Shard>, id: Uuid, other: Uuid)
    requires 0 < cfg.shardCount == |shards|
    ensures Mem(cfg, Forget(cfg, shards, id), other) == if other == id then None else Mem(cfg, shards, other)
  {}

  lemma RemoveKey<V>(m: map<Uuid, V>, k: Uuid)
    ensures |m - {k}| == if k in m then |m| - 1 else |m|
  {
    if k in m {
      assert (m - {k})[k := m[k]] == m;
    } else {
      assert m - {k} == m;
    }
  }

  lemma AddKey<V>(m: map<Uuid, V>, k: Uuid, v: V)
    ensures |m[k := v]| <= |m| + 1
  {
    if k in m {
      assert m[k := v].Keys == m.Keys;
    } else {
      assert m[k := v].Keys == m.Keys + {k};
    }
  }

  lemma StoredFits(cfg: Config, m: Shard, now: nat, id: Uuid, a: Account, victim: Uuid)
    requires |m| <= Most(cfg) && (|m| >= cfg.maxSize && m != map[] ==> victim in m)
    ensures |Stored(cfg, m, now, id, a, victim)| <= Most(cfg)
  {
    RemoveKey(m, victim);
    AddKey(Evicted(cfg, m, victim), id, MemEntry(a, now, now, 1, cfg.defaultTtl));
  }

  lemma RememberKeepsShape(cfg: Config, shards: seq<Shard>, now: nat, id: Uuid, a: Account, victim: Uuid)
    requires 0 < cfg.shardCount == |shards| && WellShaped(cfg, shards) && LegalVictim(cfg, shards, id, victim)
    ensures WellShaped(cfg, Remember(cfg, shards, now, id, a, victim))
  {
    StoredFits(cfg, shards[Home(cfg, id)], now, id, a, victim);
  }

  lemma RememberedEntries(cfg: Config, shards: seq<Shard>, now: nat, id: Uuid, a: Account, victim: Uuid, other: Uuid)
    requires 0 < cfg.shardCount == |shards|
    ensures var after := Remember(cfg, shards, now, id, a, victim);
      if other == id then Mem(cfg, after, other) == Some(MemEntry(a, now, now, 1, cfg.defaultTtl))
      else Mem(cfg, after, other) == Mem(cfg, shards, other) || Mem(cfg, after, other) == None
  {}

  /** A store leaves every other entry alone, except the victim in the same shard when that shard is full. */
  lemma StoreTouchesOnlyVictim(cfg: Config, shards: seq<Shard>, now: nat, id: Uuid, a: Account, victim: Uuid, other: Uuid)
    requires 0 < cfg.shardCount == |shards| && other != id
    ensures var full := |shards[Home(cfg, id)]| >= cfg.maxSize;
      Mem(cfg, Remember(cfg, shards, now, id, a, victim), other)
      == if full && other == victim && Home(cfg, other) == Home(cfg, id) then None else Mem(cfg, shards, other)
  {}

  lemma Remainder(q: int, n: int, r: int)
    requires n > 0 && 0 <= r < n
    ensures (q * n + r) % n == r
  {
    var x := q * n + r;
    assert x == n * (x / n) + x % n;
    var k := q - x / n;
    assert k * n == x % n - r;
    assert k >= 1 ==> k * n >= n;
    assert k <= -1 ==> k * n <= -n;
  }

  /** Ids go round the shards: the first shardCount of them each have their own, and then it repeats. */
  lemma HomesGoRound(cfg: Config, round: nat, i: nat)
    requires i < cfg.shardCount
    ensures Home(cfg, round * cfg.shardCount + i) == i
  {
    Remainder(round, cfg.shardCount, i);
  }

  lemma SweptKeepsShape(cfg: Config, shards: seq<Shard>, now: nat)
    requires 0 < cfg.shardCount == |shards| && WellShaped(cfg, shards)
    ensures WellShaped(cfg, Swept(shards, now))
  {
    forall i | 0 <= i < |shards| ensures |Swept(shards, now)[i]| <= |shards[i]| {
      FewerKeys(Swept(shards, now)[i], shards[i]);
    }
  }

  lemma FewerKeys(m: Shard, n: Shard)
    requires m.Keys <= n.Keys
    ensures |m| <= |n|
  {
    SubsetSize(m.Keys, n.Keys);
  }

  lemma {:induction false} SubsetSize<T>(a: set<T>, b: set<T>)
    requires a <= b
    ensures |a| <= |b|
  {
    if a != {} {
      var x :| x in a;
      SubsetSize(a - {x}, b - {x});
    }
  }

  // ---------------------------------------------------------------------------
  // Freshness
  // ---------------------------------------------------------------------------

  /** An in-memory copy of the last value set, stamped while that value was still due to be in Redis. */
  predicate EntryFresh(cfg: Config, now: nat, last: map<Uuid, Stamp>, id: Uuid, e: MemEntry) {
    && id in last && e.value == last[id].value
    && e.lastAccessed < last[id].at + last[id].ttl
    && e == MemEntry(e.value, e.lastAccessed, e.lastAccessed, 1, cfg.defaultTtl) && e.lastAccessed <= now
  }

  ghost predicate MemoryFresh(cfg: Config, now: nat, shards: seq<Shard>, last: map<Uuid, Stamp>)
    requires 0 < cfg.shardCount == |shards|
  {
    forall id :: Mem(cfg, shards, id).Some? ==> EntryFresh(cfg, now, last, id, Mem(cfg, shards, id).value)
  }

  ghost predicate OthersFresh(cfg: Config, now: nat, shards: seq<Shard>, last: map<Uuid, Stamp>, id: Uuid)
    requires 0 < cfg.shardCount == |shards|
  {
    forall other :: other != id && Mem(cfg, shards, other).Some? ==>
      EntryFresh(cfg, now, last, other, Mem(cfg, shards, other).value)
  }

  predicate RedisFresh(redis: map<Uuid, RedisEntry<Account>>, last: map<Uuid, Stamp>) {
    forall id :: id in redis ==>
      id in last && redis[id].value == last[id].value && redis[id].expires <= last[id].at + last[id].ttl
  }

  predicate EventsFresh(cache: map<Uuid, VersionedEvents>, redis: map<Uuid, RedisEntry<VersionedEvents>>,
                        last: map<Uuid, VersionedEvents>) {
    && (forall id :: id in cache ==> id in last && cache[id] == last[id])
    && (forall id :: id in redis ==> id in last && redis[id].value == last[id])
  }

  ghost predicate Sound(cfg: Config, c: Cache) {
    && Ready(cfg, c) && WellShaped(cfg, c.shards)
    && MemoryFresh(cfg, c.now, c.shards, c.last) && RedisFresh(c.redis, c.last)
    && EventsFresh(c.eventCache, c.redisEvents, c.lastEvents)
  }

  lemma RememberKeepsFresh(cfg: Config, now: nat, shards: seq<Shard>, last: map<Uuid, Stamp>, id: Uuid, a: Account, victim: Uuid)
    requires 0 < cfg.shardCount == |shards|
    requires OthersFresh(cfg, now, shards, last, id)
    requires id in last && a == last[id].value && now < last[id].at + last[id].ttl
    ensures MemoryFresh(cfg, now, Remember(cfg, shards, now, id, a, victim), last)
  {
    var after := Remember(cfg, shards, now, id, a, victim);
    forall other | Mem(cfg, after, other).Some? ensures EntryFresh(cfg, now, last, other, Mem(cfg, after, other).value) {
      RememberedEntries(cfg, shards, now, id, a, victim, other);
    }
  }

  lemma ForgetKeepsFresh(cfg: Config, now: nat, shards: seq<Shard>, last: map<Uuid, Stamp>, id: Uuid)
    requires 0 < cfg.shardCount == |shards| && MemoryFresh(cfg, now, shards, last)
    ensures MemoryFresh(cfg, now, Forget(cfg, shards, id), last)
    ensures MemoryFresh(cfg, now, Forget(cfg, shards, id), last - {id})
  {
    var after := Forget(cfg, shards, id);
    forall other | Mem(cfg, after, other).Some?
      ensures EntryFresh(cfg, now, last, other, Mem(cfg, after, other).value) && other != id
    {
      ForgottenEntries(cfg, shards, id, other);
    }
  }

  lemma GetKeepsSound(cfg: Config, c: Cache, id: Uuid, up: bool, victim: Uuid)
    requires Sound(cfg, c) && LegalVictim(cfg, Forget(cfg, c.shards, id), id, victim)
    ensures Sound(cfg, GetStep(cfg, c, id, up, victim))
  {
    ForgetKeepsShape(cfg, c.shards, id);
    ForgetKeepsFresh(cfg, c.now, c.shards, c.last, id);
    var shards, r := Forget(cfg, c.shards, id), Redis(c.redis, id, c.now);
    if up && r.Some? {
      RememberKeepsShape(cfg, shards, c.now, id, r.value, victim);
      RememberKeepsFresh(cfg, c.now, shards, c.last, id, r.value, victim);
    }
  }

  lemma StoreKeepsRedisFresh(redis: map<Uuid, RedisEntry<Account>>, last: map<Uuid, Stamp>, a: Account, now: nat, t: nat)
    requires RedisFresh(redis, last)
    ensures RedisFresh(redis[a.id := RedisEntry(a, now + t)], last[a.id := Stamp(a, now, t)])
  {}

  lemma SetKeepsSound(cfg: Config, c: Cache, a: Account, ttl: Option<nat>, up: bool, victim: Uuid)
    requires Sound(cfg, c) && LegalVictim(cfg, c.shards, a.id, victim)
    ensures Sound(cfg, SetStep(cfg, c, a, ttl, up, victim))
  {
    var t := WholeSeconds(if ttl.Some? then ttl.value else cfg.defaultTtl);
    var d := SetStep(cfg, c, a, ttl, up, victim);
    if up && t > 0 {
      assert WellShaped(cfg, d.shards) by { RememberKeepsShape(cfg, c.shards, c.now, a.id, a, victim); }
      assert MemoryFresh(cfg, d.now, d.shards, d.last) by {
        OthersStayFresh(cfg, c, a, t);
        RememberKeepsFresh(cfg, c.now, c.shards, d.last, a.id, a, victim);
      }
      assert RedisFresh(d.redis, d.last) by { StoreKeepsRedisFresh(c.redis, c.last, a, c.now, t); }
    }
  }

  /** A new stamp for one account leaves the copies of the others as fresh as they were. */
  lemma OthersStayFresh(cfg: Config, c: Cache, a: Account, t: nat)
    requires Ready(cfg, c) && MemoryFresh(cfg, c.now, c.shards, c.last)
    ensures OthersFresh(cfg, c.now, c.shards, c.last[a.id := Stamp(a, c.now, t)], a.id)
  {}

  lemma InvalidateKeepsSound(cfg: Config, c: Cache, id: Uuid, deletions: nat)
    requires Sound(cfg, c)
    ensures Sound(cfg, InvalidateStep(cfg, c, id, deletions))
  {
    var d := InvalidateStep(cfg, c, id, deletions);
    assert WellShaped(cfg, d.shards) by { ForgetKeepsShape(cfg, c.shards, id); }
    assert MemoryFresh(cfg, d.now, d.shards, d.last) by { ForgetKeepsFresh(cfg, c.now, c.shards, c.last, id); }
    assert RedisFresh(d.redis, d.last) by { RemovalKeepsRedisFresh(c.redis, c.last, id); }
    assert EventsFresh(d.eventCache, d.redisEvents, d.lastEvents) by {
      RemovalKeepsEventsFresh(c.eventCache, c.redisEvents, c.lastEvents, id);
    }
  }

  lemma RemovalKeepsRedisFresh(redis: map<Uuid, RedisEntry<Account>>, last: map<Uuid, Stamp>, id: Uuid)
    requires RedisFresh(redis, last)
    ensures RedisFresh(redis - {id}, last) && RedisFresh(redis - {id}, last - {id})
  {}

  lemma RemovalKeepsEventsFresh(cache: map<Uuid, VersionedEvents>, redis: map<Uuid, RedisEntry<VersionedEvents>>,
                                last: map<Uuid, VersionedEvents>, id: Uuid)
    requires EventsFresh(cache, redis, last)
    ensures EventsFresh(cache - {id}, redis, last) && EventsFresh(cache - {id}, redis - {id}, last - {id})
  {}

  lemma SweepKeepsSound(cfg: Config, c: Cache)
    requires Sound(cfg, c)
    ensures Sound(cfg, Exec(cfg, c, Sweep))
  {
    SweptKeepsShape(cfg, c.shards, c.now);
    forall id | Mem(cfg, Swept(c.shards, c.now), id).Some?
      ensures Mem(cfg, c.shards, id) == Mem(cfg, Swept(c.shards, c.now), id)
    {}
  }

  lemma WarmOneKeepsSound(cfg: Config, c: Cache, id: Uuid, victim: Uuid)
    requires Sound(cfg, c) && LegalVictim(cfg, c.shards, id, victim)
    ensures Sound(cfg, WarmOne(cfg, c, id, victim))
    ensures var d := WarmOne(cfg, c, id, victim); d == c.(shards := d.shards, eventCache := d.eventCache)
  {
    var a := Redis(c.redis, id, c.now);
    if a.Some? {
      RememberKeepsShape(cfg, c.shards, c.now, id, a.value, victim);
      RememberKeepsFresh(cfg, c.now, c.shards, c.last, id, a.value, victim);
    }
  }

  lemma {:induction false} WarmAllKeepsSound(cfg: Config, c: Cache, ids: seq<Uuid>, victims: seq<Uuid>)
    requires Sound(cfg, c) && |victims| == |ids| && LegalVictims(cfg, c, ids, victims)
    ensures Sound(cfg, WarmAll(cfg, c, ids, victims))
  {
    if ids != [] {
      var n := |ids| - 1;
      WarmAllKeepsSound(cfg, c, ids[..n], victims[..n]);
      WarmOneKeepsSound(cfg, WarmAll(cfg, c, ids[..n], victims[..n]), ids[n], victims[n]);
    }
  }

  lemma OpKeepsSound(cfg: Config, c: Cache, op: Op)
    requires Sound(cfg, c) && LegalOp(cfg, c, op)
    ensures Sound(cfg, Exec(cfg, c, op))
  {
    match op {
      case Tick(d) =>
      case Get(id, up, victim) => GetKeepsSound(cfg, c, id, up, victim);
      case Set(a, ttl, up, victim) => SetKeepsSound(cfg, c, a, ttl, up, victim);
      case GetEvents(id, up) =>
      case SetEvents(id, es, ttl, up) =>
      case Invalidate(id, deletions) => InvalidateKeepsSound(cfg, c, id, deletions);
      case Sweep => SweepKeepsSound(cfg, c);
      case Initialize(up) =>
      case Warmup(ids, up, victims) => WarmAllKeepsSound(cfg, c, ids, victims);
    }
  }

  lemma {:induction false} EveryRunIsSound(cfg: Config, ops: seq<Op>)
    requires cfg.shardCount > 0
    ensures Sound(cfg, Run(cfg, ops))
  {
    if ops != [] {
      var c := Run(cfg, ops[..|ops| - 1]);
      EveryRunIsSound(cfg, ops[..|ops| - 1]);
      if LegalOp(cfg, c, ops[|ops| - 1]) { OpKeepsSound(cfg, c, ops[|ops| - 1]); }
    }
  }

  // ---------------------------------------------------------------------------
  // What callers see
  // ---------------------------------------------------------------------------

  /** The first moment at which a value set with this stamp can no longer be served. */
  function Horizon(cfg: Config, stamp: Stamp): nat {
    stamp.at + stamp.ttl + if cfg.defaultTtl == 0 then 0 else cfg.defaultTtl - 1
  }

  /**
   A hit is the last value set since the last invalidation.  Each refill from Redis restarts the in-memory
   clock, so a value set at s for T can be served past s + T, but never from s + T + default_ttl - 1 on.
   */
  lemma HitsAreFresh(cfg: Config, ops: seq<Op>, id: Uuid, up: bool)
    requires cfg.shardCount > 0
    ensures var c := Run(cfg, ops);
            var r := GetAnswer(cfg, c, id, up);
      r.Success? && r.value.Some? ==> id in c.last && r.value.value == c.last[id].value && c.now < Horizon(cfg, c.last[id])
  {
    EveryRunIsSound(cfg, ops);
    var c := Run(cfg, ops);
    var e := Mem(cfg, c.shards, id);
    assert e.Some? ==> EntryFresh(cfg, c.now, c.last, id, e.value);
  }

  lemma DoSnoc(cfg: Config, c: Cache, ops: seq<Op>, op: Op)
    requires Ready(cfg, c)
    ensures Continue(cfg, c, ops + [op]) == Do(cfg, Continue(cfg, c, ops), op)
  {
    assert (ops + [op])[..|ops|] == ops;
  }

  /** Set; the memory copy goes but its Redis deletion fails; refilled in Redis's last moment; looked up in the copy's last. */
  function LastMoment(cfg: Config, a: Account, ttl: nat): seq<Op>
    requires WholeSeconds(ttl) > 0 && cfg.defaultTtl > 0
  {
    [] + [Set(a, Some(ttl), true, a.id)] + [Invalidate(a.id, 0)] + [Tick(WholeSeconds(ttl) - 1)]
    + [Get(a.id, true, a.id)] + [Tick(cfg.defaultTtl - 1)]
  }

  lemma RefilledLate(cfg: Config, c: Cache, id: Uuid, a: Account)
    requires Ready(cfg, c) && c.shards[Home(cfg, id)] == map[] && Redis(c.redis, id, c.now) == Some(a) && cfg.defaultTtl > 0
    ensures var d := Do(cfg, Do(cfg, c, Get(id, true, id)), Tick(cfg.defaultTtl - 1));
      d.now == c.now + cfg.defaultTtl - 1 && d.last == c.last && GetAnswer(cfg, d, id, false) == Success(Some(a))
  {
    assert Forget(cfg, c.shards, id) == c.shards;
    RememberedEntries(cfg, c.shards, c.now, id, a, id, id);
  }

  /** In Redis for t from now on, in no memory shard. */
  predicate OnlyInRedis(cfg: Config, c: Cache, a: Account, t: nat)
    requires Ready(cfg, c)
  {
    && c.shards[Home(cfg, a.id)] == map[] && a.id in c.redis && c.redis[a.id] == RedisEntry(a, c.now + t)
    && a.id in c.last && c.last[a.id] == Stamp(a, c.now, t)
  }

  lemma SetThenForgotten(cfg: Config, c: Cache, a: Account, ttl: nat)
    requires Ready(cfg, c) && c.shards[Home(cfg, a.id)] == map[] && WholeSeconds(ttl) > 0
    ensures var d := Do(cfg, Do(cfg, c, Set(a, Some(ttl), true, a.id)), Invalidate(a.id, 0));
      d.now == c.now && OnlyInRedis(cfg, d, a, WholeSeconds(ttl))
  {
    var after := Do(cfg, c, Set(a, Some(ttl), true, a.id));
    assert after == SetStep(cfg, c, a, Some(ttl), true, a.id);
    assert after.shards[Home(cfg, a.id)].Keys == {a.id};
  }

  lemma StillInRedis(cfg: Config, c: Cache, a: Account, t: nat)
    requires Ready(cfg, c) && OnlyInRedis(cfg, c, a, t) && t > 0
    ensures var d := Do(cfg, c, Tick(t - 1));
      && d.now == c.now + t - 1 && d.shards == c.shards && d.last == c.last && Redis(d.redis, a.id, d.now) == Some(a)
  {}

  /** That bound is sharp: for every value and positive times to live some run serves it one tick before the horizon. */
  lemma HorizonIsReached(cfg: Config, a: Account, ttl: nat)
    requires cfg.shardCount > 0 && WholeSeconds(ttl) > 0 && cfg.defaultTtl > 0
    ensures var c := Run(cfg, LastMoment(cfg, a, ttl));
      a.id in c.last && c.now + 1 == Horizon(cfg, c.last[a.id]) && GetAnswer(cfg, c, a.id, false) == Success(Some(a))
  {
    var s, t := Start(cfg), WholeSeconds(ttl);
    var one: seq<Op> := [] + [Set(a, Some(ttl), true, a.id)];
    var three := one + [Invalidate(a.id, 0)] + [Tick(t - 1)];
    DoSnoc(cfg, s, [], Set(a, Some(ttl), true, a.id));
    DoSnoc(cfg, s, one, Invalidate(a.id, 0));
    DoSnoc(cfg, s, one + [Invalidate(a.id, 0)], Tick(t - 1));
    SetThenForgotten(cfg, s, a, ttl);
    StillInRedis(cfg, Continue(cfg, s, one + [Invalidate(a.id, 0)]), a, t);
    DoSnoc(cfg, s, three, Get(a.id, true, a.id));
    DoSnoc(cfg, s, three + [Get(a.id, true, a.id)], Tick(cfg.defaultTtl - 1));
    RefilledLate(cfg, Continue(cfg, s, three), a.id, a);
  }

  lemma EventHitsAreFresh(cfg: Config, ops: seq<Op>, id: Uuid, up: bool)
    requires cfg.shardCount > 0
    ensures var c := Run(cfg, ops);
            var r := GetEventsAnswer(c, id, up);
      r.Success? && r.value.Some? ==> id in c.lastEvents && r.value.value == c.lastEvents[id]
  {
    EveryRunIsSound(cfg, ops);
  }

  lemma {:induction false} WarmAllKeepsEvents(cfg: Config, c: Cache, ids: seq<Uuid>, victims: seq<Uuid>, id: Uuid)
    requires Ready(cfg, c) && |victims| == |ids| && id in c.eventCache
    ensures id in WarmAll(cfg, c, ids, victims).eventCache
  {
    if ids != [] { WarmAllKeepsEvents(cfg, c, ids[..|ids| - 1], victims[..|ids| - 1], id); }
  }

  lemma OpKeepsEvents(cfg: Config, c: Cache, op: Op, id: Uuid)
    requires Ready(cfg, c) && GetEventsAnswer(c, id, false).Success? && Spared(op, id)
    ensures GetEventsAnswer(Do(cfg, c, op), id, false).Success?
  {
    if op.Warmup? && |op.victims| == |op.ids| { WarmAllKeepsEvents(cfg, c, op.ids, op.victims, id); }
  }

  /** No invalidation of the account among `ops`. */
  predicate Spares(ops: seq<Op>, id: Uuid) {
    ops == [] || (Spares(ops[..|ops| - 1], id) && Spared(ops[|ops| - 1], id))
  }

  predicate Spared(op: Op, id: Uuid) {
    op.Invalidate? ==> op.id != id
  }

  /** The event cache has no expiry: without an invalidation it answers without Redis, however late. */
  lemma {:induction false} EventHitsNeverExpire(cfg: Config, c: Cache, more: seq<Op>, id: Uuid)
    requires Ready(cfg, c) && id in c.eventCache && Spares(more, id)
    ensures GetEventsAnswer(Continue(cfg, c, more), id, false).Success?
  {
    if more != [] {
      var n := |more| - 1;
      EventHitsNeverExpire(cfg, c, more[..n], id);
      OpKeepsEvents(cfg, Continue(cfg, c, more[..n]), more[n], id);
    }
  }

  /** A successful set is what the next lookup answers, whatever was evicted for it. */
  lemma SetThenGet(cfg: Config, c: Cache, a: Account, ttl: Option<nat>, victim: Uuid)
    requires Ready(cfg, c) && WholeSeconds(if ttl.Some? then ttl.value else cfg.defaultTtl) > 0
    ensures GetAnswer(cfg, SetStep(cfg, c, a, ttl, true, victim), a.id, true) == Success(Some(a))
  {
    RememberedEntries(cfg, c.shards, c.now, a.id, a, victim, a.id);
  }

  /** After a successful invalidation both lookups miss. */
  lemma InvalidateThenGet(cfg: Config, c: Cache, id: Uuid)
    requires Ready(cfg, c)
    ensures var d := InvalidateStep(cfg, c, id, 2);
      GetAnswer(cfg, d, id, true) == Success(None) && GetEventsAnswer(d, id, true) == Success(None)
  {
    ForgottenEntries(cfg, c.shards, id, id);
  }

  /** A lookup's own refill changes no later answer about that account. */
  lemma GetThenGet(cfg: Config, c: Cache, id: Uuid, up: bool, victim: Uuid)
    requires Ready(cfg, c)
    ensures GetAnswer(cfg, GetStep(cfg, c, id, up, victim), id, up) == GetAnswer(cfg, c, id, up)
  {
    var shards, r := Forget(cfg, c.shards, id), Redis(c.redis, id, c.now);
    ForgottenEntries(cfg, c.shards, id, id);
    if r.Some? { RememberedEntries(cfg, shards, c.now, id, r.value, victim, id); }
  }

  /** The account warmed last is served from memory, and its events from the event cache. */
  lemma WarmupThenGet(cfg: Config, c: Cache, ids: seq<Uuid>, victims: seq<Uuid>, id: Uuid, victim: Uuid)
    requires Ready(cfg, c) && |victims| == |ids| && cfg.defaultTtl > 0
    requires var d := WarmAll(cfg, c, ids, victims); Redis(d.redis, id, d.now).Some? && Redis(d.redisEvents, id, d.now).Some?
    ensures var (d, e) := (WarmAll(cfg, c, ids, victims), WarmAll(cfg, c, ids + [id], victims + [victim]));
      && GetAnswer(cfg, e, id, false) == Success(Redis(d.redis, id, d.now))
      && GetEventsAnswer(e, id, false) == Success(Redis(d.redisEvents, id, d.now))
  {
    var d := WarmAll(cfg, c, ids, victims);
    assert (ids + [id])[..|ids|] == ids && (victims + [victim])[..|ids|] == victims;
    RememberedEntries(cfg, d.shards, d.now, id, Redis(d.redis, id, d.now).value, victim, id);
  }

  /** What a lookup leaves of the account in memory: its entry, a new one, or none. */
  lemma LookupLeaves(cfg: Config, c: Cache, id: Uuid, up: bool, victim: Uuid)
    requires Ready(cfg, c)
    ensures var (after, found) := (Mem(cfg, GetStep(cfg, c, id, up, victim).shards, id), Redis(c.redis, id, c.now));
      if Served(cfg, c.shards, id, c.now).Some? then after == Mem(cfg, c.shards, id)
      else if up && found.Some? then after == Some(MemEntry(found.value, c.now, c.now, 1, cfg.defaultTtl))
      else after == None
  {
    ForgottenEntries(cfg, c.shards, id, id);
    var shards, found := Forget(cfg, c.shards, id), Redis(c.redis, id, c.now);
    if found.Some? { RememberedEntries(cfg, shards, c.now, id, found.value, victim, id); }
  }

  /** Set or found in Redis, an event list is answered from memory afterwards, with or without Redis. */
  lemma EventsAreRemembered(cfg: Config, c: Cache, id: Uuid, events: VersionedEvents, ttl: Option<nat>)
    requires Ready(cfg, c)
    ensures WholeSeconds(if ttl.Some? then ttl.value else cfg.defaultTtl) > 0 ==>
      GetEventsAnswer(Exec(cfg, c, SetEvents(id, events, ttl, true)), id, false) == Success(Some(events))
    ensures var r := GetEventsAnswer(c, id, true);
      r.value.Some? ==> GetEventsAnswer(Exec(cfg, c, GetEvents(id, true)), id, false) == r
  {}

  /** A set that Redis does not answer, or for less than a second, changes nothing. */
  lemma FailedSetsChangeNothing(cfg: Config, c: Cache, a: Account, events: VersionedEvents, ttl: Option<nat>, up: bool, victim: Uuid)
    requires Ready(cfg, c) && (!up || (if ttl.Some? then ttl.value else cfg.defaultTtl) < 1000)
    ensures Exec(cfg, c, Set(a, ttl, up, victim)) == c && Exec(cfg, c, SetEvents(a.id, events, ttl, up)) == c
  {}

  /** An invalidation whose deletions fail midway has dropped the memory copies and deleted what came before the failure. */
  lemma InterruptedInvalidation(cfg: Config, c: Cache, id: Uuid, deletions: nat)
    requires Ready(cfg, c)
    ensures var d := InvalidateStep(cfg, c, id, deletions);
      && Mem(cfg, d.shards, id) == None && id !in d.eventCache
      && Redis(d.redis, id, d.now) == (if deletions >= 1 then None else Redis(c.redis, id, c.now))
      && Redis(d.redisEvents, id, d.now) == (if deletions >= 2 then None else Redis(c.redisEvents, id, c.now))
  {
    ForgottenEntries(cfg, c.shards, id, id);
  }

  /** A warm-up stores an account only if Redis has both it and its events, and otherwise leaves the cache alone. */
  lemma WarmupNeedsBoth(cfg: Config, c: Cache, id: Uuid, victim: Uuid)
    requires Ready(cfg, c)
    ensures var d := WarmOne(cfg, c, id, victim);
      if Redis(c.redis, id, c.now).Some? && Redis(c.redisEvents, id, c.now).Some?
      then Mem(cfg, d.shards, id).Some? && id in d.eventCache && d.eventCache[id] == Redis(c.redisEvents, id, c.now).value
      else d == c
  {
    var a := Redis(c.redis, id, c.now);
    if a.Some? { RememberedEntries(cfg, c.shards, c.now, id, a.value, victim, id); }
  }

  /** A cleanup pass removes exactly the entries older than their time to live. */
  lemma SweepRemovesExactly(cfg: Config, c: Cache, id: Uuid)
    requires Ready(cfg, c)
    ensures var (before, after) := (Mem(cfg, c.shards, id), Mem(cfg, Exec(cfg, c, Sweep).shards, id));
      after == if before.Some? && c.now <= before.value.lastAccessed + before.value.ttl then before else None
  {}

  // ---------------------------------------------------------------------------
  // As long as a shard has room, it keeps everything
  // ---------------------------------------------------------------------------

  predicate IsSetOrTick(cfg: Config, op: Op) {
    || op.Tick?
    || (op.Set? && op.up && WholeSeconds(if op.ttl.Some? then op.ttl.value else cfg.defaultTtl) > 0)
  }

  /** Successful sets and clock advances only. */
  predicate SetsAndTicks(cfg: Config, ops: seq<Op>) {
    forall i :: 0 <= i < |ops| ==> IsSetOrTick(cfg, ops[i])
  }

  /** How many sets go to a shard. */
  function SetsInto(cfg: Config, ops: seq<Op>, h: nat): nat
    requires cfg.shardCount > 0
  {
    if ops == [] then 0
    else SetsInto(cfg, ops[..|ops| - 1], h)
         + if ops[|ops| - 1].Set? && Home(cfg, ops[|ops| - 1].account.id) == h then 1 else 0
  }

  /** Every account of the shard that was set is in memory as it was last set. */
  ghost predicate KeepsAll(cfg: Config, c: Cache, h: nat)
    requires Ready(cfg, c)
  {
    forall id :: id in c.last && Home(cfg, id) == h ==>
      Mem(cfg, c.shards, id) == Some(MemEntry(c.last[id].value, c.last[id].at, c.last[id].at, 1, cfg.defaultTtl))
  }

  lemma SetIntoRoom(cfg: Config, c: Cache, op: Op, h: nat)
    requires Ready(cfg, c) && op.Set? && IsSetOrTick(cfg, op) && h < cfg.shardCount && KeepsAll(cfg, c, h)
    requires Home(cfg, op.account.id) == h ==> |c.shards[h]| < cfg.maxSize
    ensures KeepsAll(cfg, Do(cfg, c, op), h)
    ensures |Do(cfg, c, op).shards[h]| <= |c.shards[h]| + if Home(cfg, op.account.id) == h then 1 else 0
    ensures Do(cfg, c, op).now == c.now
  {
    var a, d := op.account, Do(cfg, c, op);
    if LegalOp(cfg, c, op) {
      assert d == SetStep(cfg, c, a, op.ttl, true, op.victim);
      RememberedEntries(cfg, c.shards, c.now, a.id, a, op.victim, a.id);
      forall id | id in d.last && Home(cfg, id) == h
        ensures Mem(cfg, d.shards, id) == Some(MemEntry(d.last[id].value, d.last[id].at, d.last[id].at, 1, cfg.defaultTtl))
      {
        if id != a.id { StoreTouchesOnlyVictim(cfg, c.shards, c.now, a.id, a, op.victim, id); }
      }
      if Home(cfg, a.id) == h { AddKey(c.shards[h], a.id, MemEntry(a, c.now, c.now, 1, cfg.defaultTtl)); }
    }
  }

  lemma {:induction false} RoomKeepsAll(cfg: Config, ops: seq<Op>, h: nat)
    requires cfg.shardCount > 0 && h < cfg.shardCount && SetsAndTicks(cfg, ops) && SetsInto(cfg, ops, h) <= cfg.maxSize
    ensures KeepsAll(cfg, Run(cfg, ops), h) && |Run(cfg, ops).shards[h]| <= SetsInto(cfg, ops, h)
  {
    if ops != [] {
      var front, op := ops[..|ops| - 1], ops[|ops| - 1];
      RoomKeepsAll(cfg, front, h);
      if op.Set? { SetIntoRoom(cfg, Run(cfg, front), op, h); }
    }
  }

  /** At most maxSize sets into a shard, within the default time to live: all those accounts are served without Redis. */
  lemma RoomServesAll(cfg: Config, ops: seq<Op>, id: Uuid)
    requires cfg.shardCount > 0 && SetsAndTicks(cfg, ops) && SetsInto(cfg, ops, Home(cfg, id)) <= cfg.maxSize
    requires id in Run(cfg, ops).last && Run(cfg, ops).now < cfg.defaultTtl
    ensures GetAnswer(cfg, Run(cfg, ops), id, false) == Success(Some(Run(cfg, ops).last[id].value))
  {
    RoomKeepsAll(cfg, ops, Home(cfg, id));
  }

  /** And with room for it, a set is one of them. */
  lemma SetIsRecorded(cfg: Config, ops: seq<Op>, op: Op)
    requires cfg.shardCount > 0 && op.Set? && SetsAndTicks(cfg, ops + [op])
    requires SetsInto(cfg, ops + [op], Home(cfg, op.account.id)) <= cfg.maxSize
    ensures var c := Run(cfg, ops + [op]); op.account.id in c.last && c.last[op.account.id].value == op.account
  {
    var h := Home(cfg, op.account.id);
    var all := ops + [op];
    assert all[..|ops|] == ops && all[|ops|] == op;
    assert forall i :: 0 <= i < |ops| ==> all[i] == ops[i];
    RoomKeepsAll(cfg, ops, h);
    DoSnoc(cfg, Start(cfg), ops, op);
  }

  /** Each account lives in one shard only, so searching its home shard searches the whole cache; shards stay bounded. */
  lemma OneShardLookupSuffices(cfg: Config, ops: seq<Op>, id: Uuid, i: nat)
    requires cfg.shardCount > 0 && i < cfg.shardCount
    ensures var c := Run(cfg, ops);
      && (id in c.shards[i] ==> Mem(cfg, c.shards, id) == Some(c.shards[i][id]))
      && |c.shards[i]| <= Most(cfg)
  {
    EveryRunIsSound(cfg, ops);
  }

  /** The cleanup pass removes nothing a lookup would still serve. */
  lemma SweepIsInvisible(cfg: Config, ops: seq<Op>, id: Uuid, up: bool)
    requires cfg.shardCount > 0
    ensures GetAnswer(cfg, Do(cfg, Run(cfg, ops), Sweep), id, up) == GetAnswer(cfg, Run(cfg, ops), id, up)
  {
    var c := Run(cfg, ops);
    assert Served(cfg, Swept(c.shards, c.now), id, c.now) == Served(cfg, c.shards, id, c.now);
  }

  /**
   Reads never touch an entry's stamps, so least recently used is least recently written, the same choice as
   by creation time; and by frequency any entry may go.
   */
  lemma VictimsByWriteTime(cfg: Config, ops: seq<Op>, i: nat, v: Uuid)
    requires cfg.shardCount > 0 && i < cfg.shardCount
    ensures var m := Run(cfg, ops).shards[i];
      && (IsVictim(LRU, m, v) <==> v in m && forall id :: id in m ==> m[v].createdAt <= m[id].createdAt)
      && (IsVictim(LRU, m, v) <==> IsVictim(TTL, m, v))
      && (IsVictim(LFU, m, v) <==> v in m)
  {
    EveryRunIsSound(cfg, ops);
    var c := Run(cfg, ops);
    forall id | id in c.shards[i]
      ensures c.shards[i][id].createdAt == c.shards[i][id].lastAccessed && c.shards[i][id].accessCount == 1
    {
      assert Mem(cfg, c.shards, id) == Some(c.shards[i][id]);
      assert EntryFresh(cfg, c.now, c.last, id, c.shards[i][id]);
    }
  }

  lemma OpKeepsWarming(cfg: Config, c: Cache, op: Op)
    requires Ready(cfg, c) && c.warming
    ensures Do(cfg, c, op).warming && (op.Warmup? ==> Do(cfg, c, op) == c)
  {}

  /** A successful `initialize` leaves the warming flag set for good: every later warm-up does nothing. */
  lemma {:induction false} InitializeDisablesWarmup(cfg: Config, c: Cache, more: seq<Op>, warmup: Op)
    requires Ready(cfg, c) && warmup.Warmup?
    ensures var d := Continue(cfg, Do(cfg, c, Initialize(true)), more);
      d.warming && Do(cfg, d, warmup) == d
  {
    var d := Do(cfg, c, Initialize(true));
    if more != [] {
      var n := |more| - 1;
      InitializeDisablesWarmup(cfg, c, more[..n], warmup);
      OpKeepsWarming(cfg, Continue(cfg, d, more[..n]), more[n]);
    }
    OpKeepsWarming(cfg, Continue(cfg, d, more), warmup);
  }

  // ---------------------------------------------------------------------------
  // The service, with its maps replaced in place
  // ---------------------------------------------------------------------------

  /** `min_by_key` over the shard's entries, in whatever order the map yields them. */
  method ChooseVictim(policy: Policy, shard: Shard) returns (v: Uuid)
    requires shard != map[]
    ensures IsVictim(policy, shard, v)
  {
    var rest := shard.Keys;
    v :| v in rest;
    while rest != {}
      invariant rest <= shard.Keys && v in shard
      invariant forall id :: id in shard && id !in rest ==> Rank(policy, shard[v]) <= Rank(policy, shard[id])
      decreases |rest|
    {
      var id: Uuid :| id in rest;
      if Rank(policy, shard[id]) < Rank(policy, shard[v]) { v := id; }
      rest := rest - {id};
    }
  }

  lemma {:induction false} SomeVictim(policy: Policy, shard: Shard) returns (v: Uuid)
    requires shard != map[]
    ensures IsVictim(policy, shard, v)
    decreases |shard.Keys|
  {
    var k: Uuid :| k in shard.Keys;
    var rest := shard - {k};
    v := k;
    if rest != map[] {
      assert rest.Keys == shard.Keys - {k};
      var w := SomeVictim(policy, rest);
      if Rank(policy, shard[w]) < Rank(policy, shard[k]) { v := w; }
    }
    forall id | id in shard ensures Rank(policy, shard[v]) <= Rank(policy, shard[id]) {
      assert id == k || id in rest;
    }
  }

  lemma SomeLegalVictim(cfg: Config, shards: seq<Shard>, id: Uuid) returns (v: Uuid)
    requires 0 < cfg.shardCount == |shards|
    ensures LegalVictim(cfg, shards, id, v)
  {
    var m := shards[Home(cfg, id)];
    if m == map[] { v := id; } else { v := SomeVictim(cfg.policy, m); }
  }

  lemma {:induction false} WarmingIgnoresFlag(cfg: Config, c: Cache, ids: seq<Uuid>, victims: seq<Uuid>, flag: bool)
    requires Ready(cfg, c) && |victims| == |ids|
    ensures WarmAll(cfg, c.(warming := flag), ids, victims) == WarmAll(cfg, c, ids, victims).(warming := flag)
    ensures LegalVictims(cfg, c.(warming := flag), ids, victims) <==> LegalVictims(cfg, c, ids, victims)
  {
    if ids != [] { WarmingIgnoresFlag(cfg, c, ids[..|ids| - 1], victims[..|ids| - 1], flag); }
  }

  class CacheService {
    const cfg: Config
    var now: nat
    var shards: seq<Shard>
    var redis: map<Uuid, RedisEntry<Account>>
    var redisEvents: map<Uuid, RedisEntry<VersionedEvents>>
    var eventCache: map<Uuid, VersionedEvents>
    var warming: bool
    ghost var last: map<Uuid, Stamp>
    ghost var lastEvents: map<Uuid, VersionedEvents>

    ghost function View(): Cache
      reads this
    {
      Cache(now, shards, redis, redisEvents, eventCache, warming, last, lastEvents)
    }

    ghost predicate Valid()
      reads this
    {
      Ready(cfg, View())
    }

    constructor (cfg: Config)
      requires cfg.shardCount > 0
      ensures this.cfg == cfg && Valid() && View() == Start(cfg)
    {
      this.cfg := cfg;
      now, shards := 0, seq(cfg.shardCount, i => map[]);
      redis, redisEvents, eventCache, warming := map[], map[], map[], false;
      last, lastEvents := map[], map[];
    }

    method UpdateInMemoryCache(id: Uuid, a: Account) returns (ghost victim: Uuid)
      requires Valid()
      modifies this`shards
      ensures Valid() && LegalVictim(cfg, old(shards), id, victim) && shards == Remember(cfg, old(shards), now, id, a, victim)
    {
      var h := id % cfg.shardCount;
      victim := id;
      if |shards[h]| >= cfg.maxSize && shards[h] != map[] {
        var v := ChooseVictim(cfg.policy, shards[h]);
        victim := v;
        shards := shards[h := shards[h] - {v}];
      }
      var kept: Shard := shards[h];
      shards := shards[h := kept[id := MemEntry(a, now, now, 1, cfg.defaultTtl)]];
      assert kept == Evicted(cfg, old(shards)[h], victim);
    }

    method GetAccount(id: Uuid, up: bool) returns (r: Result<Option<Account>, ()>, ghost victim: Uuid)
      requires Valid()
      modifies this`shards
      ensures Valid() && r == GetAnswer(cfg, old(View()), id, up)
      ensures LegalOp(cfg, old(View()), Get(id, up, victim)) && View() == Exec(cfg, old(View()), Get(id, up, victim))
    {
      var h := id % cfg.shardCount;
      victim := SomeLegalVictim(cfg, Forget(cfg, shards, id), id);
      if id in shards[h] {
        if !Expired(shards[h][id], now) { return Success(Some(shards[h][id].value)), victim; }
        shards := shards[h := shards[h] - {id}];
      }
      assert shards[h] == old(shards)[h] - {id};
      assert shards == Forget(cfg, old(shards), id);
      if !up { return Failure(()), victim; }
      var found := Redis(redis, id, now);
      if found.Some? { victim := UpdateInMemoryCache(id, found.value); }
      return Success(found), victim;
    }

    method SetAccount(a: Account, ttl: Option<nat>, up: bool) returns (ok: bool, ghost victim: Uuid)
      requires Valid()
      modifies this
      ensures Valid() && (ok <==> up && WholeSeconds(if ttl.Some? then ttl.value else cfg.defaultTtl) > 0)
      ensures LegalOp(cfg, old(View()), Set(a, ttl, up, victim)) && View() == Exec(cfg, old(View()), Set(a, ttl, up, victim))
    {
      var t := WholeSeconds(if ttl.Some? then ttl.value else cfg.defaultTtl);
      victim := SomeLegalVictim(cfg, shards, a.id);
      if !up || t == 0 { return false, victim; }
      redis := redis[a.id := RedisEntry(a, now + t)];
      last := last[a.id := Stamp(a, now, t)];
      victim := UpdateInMemoryCache(a.id, a);
      return true, victim;
    }

    method GetAccountEvents(id: Uuid, up: bool) returns (r: Result<Option<VersionedEvents>, ()>)
      requires Valid()
      modifies this`eventCache
      ensures Valid() && View() == Exec(cfg, old(View()), GetEvents(id, up)) && r == GetEventsAnswer(old(View()), id, up)
    {
      if id in eventCache { return Success(Some(eventCache[id])); }
      if !up { return Failure(()); }
      var found := Redis(redisEvents, id, now);
      if found.Some? { eventCache := eventCache[id := found.value]; }
      return Success(found);
    }

    method SetAccountEvents(id: Uuid, events: VersionedEvents, ttl: Option<nat>, up: bool) returns (ok: bool)
      requires Valid()
      modifies this
      ensures Valid() && View() == Exec(cfg, old(View()), SetEvents(id, events, ttl, up))
      ensures ok <==> up && WholeSeconds(if ttl.Some? then ttl.value else cfg.defaultTtl) > 0
    {
      var t := WholeSeconds(if ttl.Some? then ttl.value else cfg.defaultTtl);
      if !up || t == 0 { return false; }
      redisEvents := redisEvents[id := RedisEntry(events, now + t)];
      eventCache := eventCache[id := events];
      lastEvents := lastEvents[id := events];
      return true;
    }

    method InvalidateAccount(id: Uuid, deletions: nat) returns (ok: bool)
      requires Valid()
      modifies this
      ensures Valid() && View() == InvalidateStep(cfg, old(View()), id, deletions) && (ok <==> deletions >= 2)
    {
      var h := id % cfg.shardCount;
      shards := shards[h := shards[h] - {id}];
      eventCache := eventCache - {id};
      if deletions == 0 { return false; }
      redis := redis - {id};
      if deletions == 1 { return false; }
      redisEvents := redisEvents - {id};
      last, lastEvents := last - {id}, lastEvents - {id};
      return true;
    }

    /** The background pass over all shards. */
    method CleanupPass()
      requires Valid()
      modifies this`shards
      ensures Valid() && shards == Swept(old(shards), now)
    {
      for i := 0 to |shards|
        invariant |shards| == |old(shards)|
        invariant forall j :: 0 <= j < i ==> shards[j] == Swept(old(shards), now)[j]
        invariant forall j :: i <= j < |shards| ==> shards[j] == old(shards)[j]
      {
        shards := shards[i := map id | id in shards[i] && !SweptAway(shards[i][id], now) :: shards[i][id]];
      }
    }

    method WarmAccount(id: Uuid) returns (ghost victim: Uuid)
      requires Valid()
      modifies this
      ensures Valid() && LegalVictim(cfg, old(shards), id, victim) && View() == WarmOne(cfg, old(View()), id, victim)
    {
      victim := SomeLegalVictim(cfg, shards, id);
      var a, es := Redis(redis, id, now), Redis(redisEvents, id, now);
      if a.Some? && es.Some? {
        victim := UpdateInMemoryCache(id, a.value);
        eventCache := eventCache[id := es.value];
      }
    }

    method WarmupCache(ids: seq<Uuid>, up: bool) returns (ghost victims: seq<Uuid>)
      requires Valid()
      modifies this
      ensures Valid() && |victims| == |ids|
      ensures old(warming) ==> View() == old(View())
      ensures !old(warming) ==> LegalVictims(cfg, old(View()), ids, victims)
      ensures !old(warming) ==> View() == WarmAll(cfg, old(View()), ids, victims).(warming := !up)
    {
      victims := ids;
      if warming { return; }
      warming := true;
      victims := [];
      ghost var started := View();
      for n := 0 to |ids|
        invariant Valid() && |victims| == n && LegalVictims(cfg, started, ids[..n], victims)
        invariant View() == WarmAll(cfg, started, ids[..n], victims)
      {
        ghost var victim := WarmAccount(ids[n]);
        assert ids[..n + 1][..n] == ids[..n] && (victims + [victim])[..n] == victims;
        victims := victims + [victim];
      }
      assert ids[..|ids|] == ids;
      WarmingIgnoresFlag(cfg, old(View()), ids, victims, true);
      if up { warming := false; }
    }
  }
}
