/**
 The cache with its calls split at their awaits: a get reads Redis and later stores in memory, a set writes
 Redis and later stores in memory, an invalidation drops the memory copy and later deletes from Redis.  Any
 number of half-finished calls may interleave.  A warm-up is a read and a store per account and list.
 */
module CacheRaces {
  import opened Wrappers
  import opened Domain
  import opened Cache

  /** What is cached under one key: an account or its event list. */
  datatype Item = AccountOf(id: Uuid) | EventsOf(id: Uuid)

  datatype Value = AccountValue(account: Account) | EventsValue(events: VersionedEvents)

  predicate Suits(item: Item, v: Value) {
    match item
    case AccountOf(id) => v.AccountValue? && v.account.id == id
    case EventsOf(_) => v.EventsValue?
  }

  /** What a lookup is served from memory. */
  function InMemory(cfg: Config, c: Cache, item: Item): Option<Value>
    requires Ready(cfg, c)
  {
    match item
    case AccountOf(id) =>
      var a := Served(cfg, c.shards, id, c.now);
      if a.Some? then Some(AccountValue(a.value)) else None
    case EventsOf(id) => if id in c.eventCache then Some(EventsValue(c.eventCache[id])) else None
  }

  function InRedis(c: Cache, item: Item): Option<Value> {
    match item
    case AccountOf(id) =>
      var a := Redis(c.redis, id, c.now);
      if a.Some? then Some(AccountValue(a.value)) else None
    case EventsOf(id) =>
      var es := Redis(c.redisEvents, id, c.now);
      if es.Some? then Some(EventsValue(es.value)) else None
  }

  /** The last value set and not deleted since. */
  function LastSet(c: Cache, item: Item): Option<Value> {
    match item
    case AccountOf(id) => if id in c.last then Some(AccountValue(c.last[id].value)) else None
    case EventsOf(id) => if id in c.lastEvents then Some(EventsValue(c.lastEvents[id])) else None
  }

  function Answer(cfg: Config, c: Cache, item: Item): Option<Value>
    requires Ready(cfg, c)
  {
    if InMemory(cfg, c, item).Some? then InMemory(cfg, c, item) else InRedis(c, item)
  }

  function StoreIn(cfg: Config, c: Cache, item: Item, v: Value, victim: Uuid): (r: Cache)
    requires Ready(cfg, c) && Suits(item, v)
    ensures Ready(cfg, r)
  {
    match item
    case AccountOf(id) => c.(shards := Remember(cfg, c.shards, c.now, id, v.account, victim))
    case EventsOf(id) => c.(eventCache := c.eventCache[id := v.events])
  }

  function DropFrom(cfg: Config, c: Cache, item: Item): (r: Cache)
    requires Ready(cfg, c)
    ensures Ready(cfg, r)
  {
    match item
    case AccountOf(id) => c.(shards := Forget(cfg, c.shards, id))
    case EventsOf(id) => c.(eventCache := c.eventCache - {id})
  }

  function WriteTo(c: Cache, item: Item, v: Value, t: nat): Cache
    requires Suits(item, v)
  {
    match item
    case AccountOf(id) =>
      c.(redis := c.redis[id := RedisEntry(v.account, c.now + t)], last := c.last[id := Stamp(v.account, c.now, t)])
    case EventsOf(id) =>
      c.(redisEvents := c.redisEvents[id := RedisEntry(v.events, c.now + t)], lastEvents := c.lastEvents[id := v.events])
  }

  function DeleteFrom(c: Cache, item: Item): Cache {
    match item
    case AccountOf(id) => c.(redis := c.redis - {id}, last := c.last - {id})
    case EventsOf(id) => c.(redisEvents := c.redisEvents - {id}, lastEvents := c.lastEvents - {id})
  }

  // ---------------------------------------------------------------------------
  // Half-steps
  // ---------------------------------------------------------------------------

  /** A call between its halves: what it will store, the write that value comes from, and when its first half was. */
  datatype Call = Call(item: Item, value: Value, tag: nat, since: nat, writes: bool, open: bool)

  /** The last write or deletion of an item in Redis. */
  datatype Mark = Mark(step: nat, alive: bool)

  /**
   Steps are numbered; a write is known by its number.  `tags` is the write each memory copy comes from,
   `done` the newest write or deletion of an item whose call has finished.
   */
  datatype Race = Race(cache: Cache, step: nat, tags: map<Item, nat>, latest: map<Item, Mark>, done: map<Item, nat>,
                       history: map<nat, Value>, calls: seq<Call>)

  datatype Half =
    | Tick(millis: nat)
    | Expire(id: Uuid)                        // a lookup removes the entry it finds expired
    | Sweep
    | Read(item: Item)                        // first half of a get, or of a warm-up
    | Write(item: Item, value: Value, ttl: nat) // first half of a set
    | Store(call: nat, victim: Uuid)          // second half of either
    | Drop(item: Item)                        // first half of an invalidation
    | Delete(item: Item)                      // its second half; a plain deletion is only this

  function Done(s: Race, item: Item): nat {
    if item in s.done then s.done[item] else 0
  }

  function Newest(a: nat, b: nat): nat {
    if a < b then b else a
  }

  function Stored(cfg: Config, s: Race, k: nat, victim: Uuid): (r: Race)
    requires Ready(cfg, s.cache) && k < |s.calls| && Suits(s.calls[k].item, s.calls[k].value)
    ensures Ready(cfg, r.cache)
  {
    var c := s.calls[k];
    s.(cache := StoreIn(cfg, s.cache, c.item, c.value, victim), tags := s.tags[c.item := c.tag],
       done := if c.writes then s.done[c.item := Newest(Done(s, c.item), c.tag)] else s.done,
       calls := s.calls[k := c.(open := false)])
  }

  function Act(cfg: Config, s: Race, op: Half): (r: Race)
    requires Ready(cfg, s.cache)
    ensures Ready(cfg, r.cache)
  {
    match op
    case Tick(d) => s.(cache := s.cache.(now := s.cache.now + d))
    case Expire(id) => if Served(cfg, s.cache.shards, id, s.cache.now).Some? then s else s.(cache := DropFrom(cfg, s.cache, AccountOf(id)))
    case Sweep => s.(cache := s.cache.(shards := Swept(s.cache.shards, s.cache.now)))
    case Read(item) =>
      var v := InRedis(s.cache, item);
      if v.None? || item !in s.latest then s
      else s.(calls := s.calls + [Call(item, v.value, s.latest[item].step, s.step, false, true)])
    case Write(item, v, ttl) =>
      if !Suits(item, v) || WholeSeconds(ttl) == 0 then s
      else s.(cache := WriteTo(s.cache, item, v, WholeSeconds(ttl)), latest := s.latest[item := Mark(s.step, true)],
              history := s.history[s.step := v], calls := s.calls + [Call(item, v, s.step, s.step, true, true)])
    case Store(k, victim) =>
      if k >= |s.calls| || !s.calls[k].open || !Suits(s.calls[k].item, s.calls[k].value) then s else Stored(cfg, s, k, victim)
    case Drop(item) => s.(cache := DropFrom(cfg, s.cache, item))
    case Delete(item) =>
      s.(cache := DeleteFrom(s.cache, item), latest := s.latest[item := Mark(s.step, false)], done := s.done[item := s.step])
  }

  function Exec(cfg: Config, s: Race, op: Half): (r: Race)
    requires Ready(cfg, s.cache)
    ensures Ready(cfg, r.cache)
  {
    Act(cfg, s.(step := s.step + 1), op)
  }

  function Run(cfg: Config, ops: seq<Half>): (r: Race)
    requires cfg.shardCount > 0
    ensures Ready(cfg, r.cache)
  {
    if ops == [] then Race(Start(cfg), 0, map[], map[], map[], map[], [])
    else Exec(cfg, Run(cfg, ops[..|ops| - 1]), ops[|ops| - 1])
  }

  // ---------------------------------------------------------------------------
  // Freshness and overtaking
  // ---------------------------------------------------------------------------

  /** A memory hit is no older than anything that has finished: any newer write is still under way. */
  ghost predicate Fresh(cfg: Config, s: Race, item: Item)
    requires Ready(cfg, s.cache)
  {
    InMemory(cfg, s.cache, item).Some? ==> item in s.tags && Done(s, item) <= s.tags[item]
  }

  ghost predicate AllFresh(cfg: Config, s: Race)
    requires Ready(cfg, s.cache)
  {
    forall item :: Fresh(cfg, s, item)
  }

  ghost predicate AlwaysFresh(cfg: Config, ops: seq<Half>)
    requires cfg.shardCount > 0
  {
    AllFresh(cfg, Run(cfg, ops)) && (ops == [] || AlwaysFresh(cfg, ops[..|ops| - 1]))
  }

  /** A stored account is served at all only with a positive default time to live. */
  predicate Servable(cfg: Config, item: Item) {
    item.EventsOf? || cfg.defaultTtl > 0
  }

  /**
   The call about to store began before a set or invalidation of the item that has since begun and finished;
   or the item to be deleted was put back into memory, or never dropped from it.
   */
  predicate Overtaken(cfg: Config, s: Race, op: Half)
    requires Ready(cfg, s.cache)
  {
    match op
    case Store(k, _) =>
      && k < |s.calls| && s.calls[k].open && Suits(s.calls[k].item, s.calls[k].value)
      && s.calls[k].since < Done(s, s.calls[k].item) && Servable(cfg, s.calls[k].item)
    case Delete(item) => InMemory(cfg, s.cache, item).Some?
    case _ => false
  }

  predicate NeverOvertaken(cfg: Config, ops: seq<Half>)
    requires cfg.shardCount > 0
  {
    if ops == [] then true
    else NeverOvertaken(cfg, ops[..|ops| - 1]) && !Overtaken(cfg, Run(cfg, ops[..|ops| - 1]), ops[|ops| - 1])
  }

  // ---------------------------------------------------------------------------
  // Invariant of every run, overtaken or not
  // ---------------------------------------------------------------------------

  predicate Under(m: Mark, tag: nat) {
    if m.alive then tag <= m.step else tag < m.step
  }

  ghost predicate MemOk(cfg: Config, s: Race, item: Item)
    requires Ready(cfg, s.cache)
  {
    var v := InMemory(cfg, s.cache, item);
    v.Some? ==>
      && item in s.tags && s.tags[item] in s.history && s.history[s.tags[item]] == v.value
      && item in s.latest && Under(s.latest[item], s.tags[item])
  }

  predicate RedisOk(s: Race, item: Item) {
    var v := InRedis(s.cache, item);
    v.Some? ==> item in s.latest && s.latest[item].alive && s.latest[item].step in s.history
                && s.history[s.latest[item].step] == v.value && Suits(item, v.value)
  }

  predicate LatestOk(s: Race, item: Item) {
    if item !in s.latest then Done(s, item) == 0 && LastSet(s.cache, item) == None
    else
      var m := s.latest[item];
      && m.step <= s.step && Done(s, item) <= m.step
      && (!m.alive ==> Done(s, item) == m.step && LastSet(s.cache, item) == None)
      && (m.alive ==> m.step in s.history && LastSet(s.cache, item) == Some(s.history[m.step]))
  }

  predicate CallOk(s: Race, c: Call) {
    && c.item in s.latest && Under(s.latest[c.item], c.tag) && Suits(c.item, c.value)
    && c.tag in s.history && s.history[c.tag] == c.value
    && c.tag <= c.since <= s.step
    && (Done(s, c.item) <= c.tag || c.since < Done(s, c.item))
  }

  /** A write and another call on its item: the write is in what the call holds, or came after the call began. */
  predicate PairOk(w: Call, c: Call) {
    w.writes && w.item == c.item ==> w.tag <= c.tag || c.since < w.tag
  }

  /** The last write of an item has finished or is still to be stored. */
  ghost predicate WriteOk(s: Race, item: Item) {
    item in s.latest && s.latest[item].alive ==> s.latest[item].step <= Done(s, item) || UnderWay(s, item, s.latest[item].step)
  }

  predicate UnderWay(s: Race, item: Item, tag: nat) {
    exists k :: 0 <= k < |s.calls| && Pending(s.calls[k], item) && s.calls[k].tag == tag
  }

  predicate Pending(c: Call, item: Item) {
    c.open && c.writes && c.item == item
  }

  ghost predicate ItemOk(cfg: Config, s: Race, item: Item)
    requires Ready(cfg, s.cache)
  {
    MemOk(cfg, s, item) && RedisOk(s, item) && LatestOk(s, item) && WriteOk(s, item)
  }

  ghost predicate CallsOk(s: Race) {
    && (forall k :: 0 <= k < |s.calls| ==> CallOk(s, s.calls[k]))
    && (forall i, j :: 0 <= i < |s.calls| && 0 <= j < |s.calls| ==> PairOk(s.calls[i], s.calls[j]))
  }

  ghost predicate Sound(cfg: Config, s: Race) {
    Ready(cfg, s.cache) && CallsOk(s) && forall item :: ItemOk(cfg, s, item)
  }

  // What the cache's own steps do to one item.

  lemma StoreInMemory(cfg: Config, c: Cache, item: Item, v: Value, victim: Uuid, other: Item)
    requires Ready(cfg, c) && Suits(item, v)
    ensures var d := StoreIn(cfg, c, item, v, victim);
      && (other == item ==> InMemory(cfg, d, other) == if Servable(cfg, item) then Some(v) else None)
      && (other != item ==> InMemory(cfg, d, other) == InMemory(cfg, c, other) || InMemory(cfg, d, other) == None)
      && InRedis(d, other) == InRedis(c, other) && LastSet(d, other) == LastSet(c, other)
  {
    if item.AccountOf? && other.AccountOf? {
      RememberedEntries(cfg, c.shards, c.now, item.id, v.account, victim, other.id);
    }
  }

  lemma DropInMemory(cfg: Config, c: Cache, item: Item, other: Item)
    requires Ready(cfg, c)
    ensures var d := DropFrom(cfg, c, item);
      && InMemory(cfg, d, other) == (if other == item then None else InMemory(cfg, c, other))
      && InRedis(d, other) == InRedis(c, other) && LastSet(d, other) == LastSet(c, other)
  {
    if item.AccountOf? && other.AccountOf? { ForgottenEntries(cfg, c.shards, item.id, other.id); }
  }

  lemma WriteInRedis(cfg: Config, c: Cache, item: Item, v: Value, t: nat, other: Item)
    requires Ready(cfg, c) && Suits(item, v) && t > 0
    ensures var d := WriteTo(c, item, v, t);
      && Ready(cfg, d) && InMemory(cfg, d, other) == InMemory(cfg, c, other)
      && InRedis(d, other) == (if other == item then Some(v) else InRedis(c, other))
      && LastSet(d, other) == (if other == item then Some(v) else LastSet(c, other))
  {}

  lemma DeleteInRedis(cfg: Config, c: Cache, item: Item, other: Item)
    requires Ready(cfg, c)
    ensures var d := DeleteFrom(c, item);
      && Ready(cfg, d) && InMemory(cfg, d, other) == InMemory(cfg, c, other)
      && InRedis(d, other) == (if other == item then None else InRedis(c, other))
      && LastSet(d, other) == (if other == item then None else LastSet(c, other))
  {}

  lemma SweepInMemory(cfg: Config, c: Cache, other: Item)
    requires Ready(cfg, c)
    ensures var d := c.(shards := Swept(c.shards, c.now));
      Ready(cfg, d) && InMemory(cfg, d, other) == InMemory(cfg, c, other)
  {
    if other.AccountOf? {
      assert Served(cfg, Swept(c.shards, c.now), other.id, c.now) == Served(cfg, c.shards, other.id, c.now);
    }
  }

  predicate LosesAt(cfg: Config, c: Cache, d: Cache, item: Item)
    requires Ready(cfg, c) && Ready(cfg, d)
  {
    && (InMemory(cfg, d, item) == InMemory(cfg, c, item) || InMemory(cfg, d, item) == None)
    && (InRedis(d, item) == InRedis(c, item) || InRedis(d, item) == None)
    && LastSet(d, item) == LastSet(c, item)
  }

  /** Steps that only lose copies: time passing, expiry, sweeps, drops. */
  predicate Quiet(op: Half) {
    op.Tick? || op.Expire? || op.Sweep? || op.Drop?
  }

  lemma QuietStepLosesAt(cfg: Config, s: Race, op: Half, item: Item)
    requires Ready(cfg, s.cache) && Quiet(op)
    ensures var r := Act(cfg, s, op); r == s.(cache := r.cache) && LosesAt(cfg, s.cache, r.cache, item)
  {
    match op {
      case Tick(_) =>
      case Expire(id) => DropInMemory(cfg, s.cache, AccountOf(id), item);
      case Sweep => SweepInMemory(cfg, s.cache, item);
      case Drop(x) => DropInMemory(cfg, s.cache, x, item);
    }
  }

  ghost predicate Loses(cfg: Config, c: Cache, d: Cache)
    requires Ready(cfg, c) && Ready(cfg, d)
  {
    forall item :: LosesAt(cfg, c, d, item)
  }

  lemma LosingKeepsSound(cfg: Config, s: Race, d: Cache)
    requires Sound(cfg, s) && Ready(cfg, d) && Loses(cfg, s.cache, d)
    ensures Sound(cfg, s.(cache := d))
  {
    var r := s.(cache := d);
    forall item ensures ItemOk(cfg, r, item) { assert ItemOk(cfg, s, item) && LosesAt(cfg, s.cache, d, item); }
    forall k | 0 <= k < |s.calls| ensures CallOk(r, r.calls[k]) { assert CallOk(s, s.calls[k]); }
  }

  lemma NextStepKeepsSound(cfg: Config, s: Race)
    requires Sound(cfg, s)
    ensures Sound(cfg, s.(step := s.step + 1))
  {
    var r := s.(step := s.step + 1);
    forall item ensures ItemOk(cfg, r, item) { assert ItemOk(cfg, s, item); }
    forall k | 0 <= k < |s.calls| ensures CallOk(r, r.calls[k]) { assert CallOk(s, s.calls[k]); }
  }

  lemma UnderWayAppend(s: Race, r: Race, item: Item, tag: nat)
    requires UnderWay(s, item, tag) && s.calls <= r.calls
    ensures UnderWay(r, item, tag)
  {
    var k :| 0 <= k < |s.calls| && Pending(s.calls[k], item) && s.calls[k].tag == tag;
    assert r.calls[k] == s.calls[k];
  }

  lemma ReadCallOk(cfg: Config, s: Race, item: Item)
    requires Sound(cfg, s) && InRedis(s.cache, item).Some?
    ensures var r := Exec(cfg, s, Read(item));
      && |r.calls| == |s.calls| + 1 && r == s.(step := s.step + 1, calls := r.calls) && s.calls <= r.calls
      && CallOk(r, r.calls[|s.calls|]) && !r.calls[|s.calls|].writes
      && forall i :: 0 <= i < |s.calls| ==> PairOk(s.calls[i], r.calls[|s.calls|])
  {
    assert ItemOk(cfg, s, item);
    forall i | 0 <= i < |s.calls| ensures PairOk(s.calls[i], Exec(cfg, s, Read(item)).calls[|s.calls|]) {
      assert CallOk(s, s.calls[i]);
    }
  }

  lemma ReadKeepsSound(cfg: Config, s: Race, item: Item)
    requires Sound(cfg, s)
    ensures Sound(cfg, Exec(cfg, s, Read(item)))
  {
    var r := Exec(cfg, s, Read(item));
    NextStepKeepsSound(cfg, s);
    if InRedis(s.cache, item).Some? {
      ReadCallOk(cfg, s, item);
      forall x ensures ItemOk(cfg, r, x) { ItemOkAppend(cfg, s, r, x); }
      forall k | 0 <= k < |r.calls| ensures CallOk(r, r.calls[k]) {
        if k < |s.calls| { assert r.calls[k] == s.calls[k] && CallOk(s, s.calls[k]); }
      }
      forall i, j | 0 <= i < |r.calls| && 0 <= j < |r.calls| ensures PairOk(r.calls[i], r.calls[j]) {
        if i < |s.calls| && j < |s.calls| { assert PairOk(s.calls[i], s.calls[j]); }
      }
    }
  }

  lemma ItemOkAppend(cfg: Config, s: Race, r: Race, item: Item)
    requires Sound(cfg, s) && s.calls <= r.calls && r == s.(step := s.step + 1, calls := r.calls)
    ensures ItemOk(cfg, r, item)
  {
    assert ItemOk(cfg, s, item);
    if item in s.latest && UnderWay(s, item, s.latest[item].step) { UnderWayAppend(s, r, item, s.latest[item].step); }
  }

  predicate Accepted(op: Half) {
    op.Write? && Suits(op.item, op.value) && WholeSeconds(op.ttl) > 0
  }

  lemma WriteItemOk(cfg: Config, s: Race, op: Half, x: Item)
    requires Sound(cfg, s) && Accepted(op)
    ensures ItemOk(cfg, Exec(cfg, s, op), x)
  {
    var r, n := Exec(cfg, s, op), |s.calls|;
    WriteInRedis(cfg, s.cache, op.item, op.value, WholeSeconds(op.ttl), x);
    assert ItemOk(cfg, s, x) && s.calls <= r.calls;
    if x == op.item {
      assert Pending(r.calls[n], x) && r.calls[n].tag == r.latest[x].step;
    } else if x in s.latest && UnderWay(s, x, s.latest[x].step) {
      UnderWayAppend(s, r, x, s.latest[x].step);
    }
  }

  lemma WriteCallOk(cfg: Config, s: Race, op: Half, k: nat)
    requires Sound(cfg, s) && Accepted(op) && k <= |s.calls|
    ensures var r := Exec(cfg, s, op); |r.calls| == |s.calls| + 1 && CallOk(r, r.calls[k])
    ensures var r := Exec(cfg, s, op); PairOk(r.calls[k], r.calls[|s.calls|]) && PairOk(r.calls[|s.calls|], r.calls[k])
  {
    assert ItemOk(cfg, s, op.item);
    if k < |s.calls| { assert CallOk(s, s.calls[k]) && ItemOk(cfg, s, s.calls[k].item); }
  }

  lemma WriteKeepsSound(cfg: Config, s: Race, op: Half)
    requires Sound(cfg, s) && op.Write?
    ensures Sound(cfg, Exec(cfg, s, op))
  {
    var r := Exec(cfg, s, op);
    if Accepted(op) {
      forall x ensures ItemOk(cfg, r, x) { WriteItemOk(cfg, s, op, x); }
      forall k | 0 <= k < |r.calls| ensures CallOk(r, r.calls[k]) { WriteCallOk(cfg, s, op, k); }
      forall i, j | 0 <= i < |r.calls| && 0 <= j < |r.calls| ensures PairOk(r.calls[i], r.calls[j]) {
        WriteCallOk(cfg, s, op, i);
        WriteCallOk(cfg, s, op, j);
        if i < |s.calls| && j < |s.calls| { assert PairOk(s.calls[i], s.calls[j]); }
      }
    } else {
      NextStepKeepsSound(cfg, s);
    }
  }

  lemma DeleteItemOk(cfg: Config, s: Race, item: Item, x: Item)
    requires Sound(cfg, s)
    ensures ItemOk(cfg, Exec(cfg, s, Delete(item)), x)
  {
    var r := Exec(cfg, s, Delete(item));
    DeleteInRedis(cfg, s.cache, item, x);
    assert ItemOk(cfg, s, x);
    if x in s.latest && UnderWay(s, x, s.latest[x].step) { UnderWayAppend(s, r, x, s.latest[x].step); }
  }

  lemma DeleteKeepsSound(cfg: Config, s: Race, item: Item)
    requires Sound(cfg, s)
    ensures Sound(cfg, Exec(cfg, s, Delete(item)))
  {
    var r := Exec(cfg, s, Delete(item));
    forall x ensures ItemOk(cfg, r, x) { DeleteItemOk(cfg, s, item, x); }
    forall k | 0 <= k < |r.calls| ensures CallOk(r, r.calls[k]) {
      assert CallOk(s, s.calls[k]) && ItemOk(cfg, s, s.calls[k].item);
    }
    forall i, j | 0 <= i < |r.calls| && 0 <= j < |r.calls| ensures PairOk(r.calls[i], r.calls[j]) {
      assert PairOk(s.calls[i], s.calls[j]);
    }
  }

  predicate Storable(s: Race, op: Half) {
    op.Store? && op.call < |s.calls| && s.calls[op.call].open && Suits(s.calls[op.call].item, s.calls[op.call].value)
  }

  lemma StillUnderWay(cfg: Config, s: Race, op: Half, x: Item)
    requires Sound(cfg, s) && Storable(s, op)
    requires x in s.latest && s.latest[x].alive && UnderWay(s, x, s.latest[x].step)
    ensures var r := Exec(cfg, s, op); s.latest[x].step <= Done(r, x) || UnderWay(r, x, s.latest[x].step)
  {
    var r := Exec(cfg, s, op);
    var k :| 0 <= k < |s.calls| && Pending(s.calls[k], x) && s.calls[k].tag == s.latest[x].step;
    if k != op.call { assert r.calls[k] == s.calls[k]; }
  }

  lemma StoreItemOk(cfg: Config, s: Race, op: Half, x: Item)
    requires Sound(cfg, s) && Storable(s, op)
    ensures ItemOk(cfg, Exec(cfg, s, op), x)
  {
    var c, r := s.calls[op.call], Exec(cfg, s, op);
    StoreInMemory(cfg, s.cache, c.item, c.value, op.victim, x);
    assert ItemOk(cfg, s, x) && CallOk(s, c);
    if x in s.latest && s.latest[x].alive && UnderWay(s, x, s.latest[x].step) { StillUnderWay(cfg, s, op, x); }
  }

  lemma StoreCallOk(cfg: Config, s: Race, op: Half, k: nat)
    requires Sound(cfg, s) && Storable(s, op) && k < |s.calls|
    ensures CallOk(Exec(cfg, s, op), Exec(cfg, s, op).calls[k])
  {
    assert CallOk(s, s.calls[k]) && CallOk(s, s.calls[op.call]) && PairOk(s.calls[op.call], s.calls[k]);
  }

  lemma StoreKeepsSound(cfg: Config, s: Race, op: Half)
    requires Sound(cfg, s) && op.Store?
    ensures Sound(cfg, Exec(cfg, s, op))
  {
    var r := Exec(cfg, s, op);
    if Storable(s, op) {
      forall x ensures ItemOk(cfg, r, x) { StoreItemOk(cfg, s, op, x); }
      forall k | 0 <= k < |r.calls| ensures CallOk(r, r.calls[k]) { StoreCallOk(cfg, s, op, k); }
      forall i, j | 0 <= i < |r.calls| && 0 <= j < |r.calls| ensures PairOk(r.calls[i], r.calls[j]) {
        assert PairOk(s.calls[i], s.calls[j]);
      }
    } else {
      NextStepKeepsSound(cfg, s);
    }
  }

  lemma QuietStepKeepsSound(cfg: Config, s: Race, op: Half)
    requires Sound(cfg, s) && Quiet(op)
    ensures Sound(cfg, Exec(cfg, s, op))
  {
    var t := s.(step := s.step + 1);
    NextStepKeepsSound(cfg, s);
    var r := Act(cfg, t, op);
    forall item ensures r == t.(cache := r.cache) && LosesAt(cfg, t.cache, r.cache, item) { QuietStepLosesAt(cfg, t, op, item); }
    QuietStepLosesAt(cfg, t, op, AccountOf(0));
    LosingKeepsSound(cfg, t, r.cache);
  }

  lemma StepKeepsSound(cfg: Config, s: Race, op: Half)
    requires Sound(cfg, s)
    ensures Sound(cfg, Exec(cfg, s, op))
  {
    match op {
      case Read(item) => ReadKeepsSound(cfg, s, item);
      case Write(_, _, _) => WriteKeepsSound(cfg, s, op);
      case Store(_, _) => StoreKeepsSound(cfg, s, op);
      case Delete(item) => DeleteKeepsSound(cfg, s, item);
      case _ =>
        QuietStepKeepsSound(cfg, s, op);
    }
  }

  lemma {:induction false} EveryRunIsSound(cfg: Config, ops: seq<Half>)
    requires cfg.shardCount > 0
    ensures Sound(cfg, Run(cfg, ops))
  {
    if ops == [] {
      var s := Run(cfg, ops);
      forall item ensures ItemOk(cfg, s, item) {}
    } else {
      EveryRunIsSound(cfg, ops[..|ops| - 1]);
      StepKeepsSound(cfg, Run(cfg, ops[..|ops| - 1]), ops[|ops| - 1]);
    }
  }

  // ---------------------------------------------------------------------------
  // Exactly the overtaken steps spoil freshness
  // ---------------------------------------------------------------------------

  lemma StoreFresh(cfg: Config, s: Race, op: Half, x: Item)
    requires Sound(cfg, s) && Storable(s, op) && Fresh(cfg, s, x)
    ensures x != s.calls[op.call].item ==> Fresh(cfg, Exec(cfg, s, op), x)
    ensures x == s.calls[op.call].item ==> (Fresh(cfg, Exec(cfg, s, op), x) <==> !Overtaken(cfg, s, op))
  {
    var c := s.calls[op.call];
    StoreInMemory(cfg, s.cache, c.item, c.value, op.victim, x);
    assert CallOk(s, c);
  }

  lemma DeleteFresh(cfg: Config, s: Race, item: Item, x: Item)
    requires Sound(cfg, s) && Fresh(cfg, s, x)
    ensures x != item ==> Fresh(cfg, Exec(cfg, s, Delete(item)), x)
    ensures x == item ==> (Fresh(cfg, Exec(cfg, s, Delete(item)), x) <==> !Overtaken(cfg, s, Delete(item)))
  {
    DeleteInRedis(cfg, s.cache, item, x);
    assert ItemOk(cfg, s, x);
  }

  lemma WriteFresh(cfg: Config, s: Race, op: Half, x: Item)
    requires Sound(cfg, s) && op.Write? && Fresh(cfg, s, x)
    ensures Fresh(cfg, Exec(cfg, s, op), x)
  {
    if Accepted(op) { WriteInRedis(cfg, s.cache, op.item, op.value, WholeSeconds(op.ttl), x); }
  }

  lemma ReadFresh(cfg: Config, s: Race, item: Item, x: Item)
    requires Ready(cfg, s.cache) && Fresh(cfg, s, x)
    ensures Fresh(cfg, Exec(cfg, s, Read(item)), x)
  {
    var r := Exec(cfg, s, Read(item));
    assert r.cache == s.cache && r.tags == s.tags && r.done == s.done;
  }

  lemma QuietFresh(cfg: Config, s: Race, op: Half, x: Item)
    requires Ready(cfg, s.cache) && Quiet(op) && Fresh(cfg, s, x)
    ensures Fresh(cfg, Exec(cfg, s, op), x)
  {
    QuietStepLosesAt(cfg, s.(step := s.step + 1), op, x);
  }

  /** The item a step can spoil. */
  function Touched(s: Race, op: Half): Option<Item> {
    match op
    case Store(k, _) => if k < |s.calls| then Some(s.calls[k].item) else None
    case Delete(item) => Some(item)
    case _ => None
  }

  lemma StepFresh(cfg: Config, s: Race, op: Half, x: Item)
    requires Sound(cfg, s) && Fresh(cfg, s, x)
    ensures Fresh(cfg, Exec(cfg, s, op), x) <==> !(Overtaken(cfg, s, op) && Touched(s, op) == Some(x))
  {
    match op {
      case Store(_, _) => if Storable(s, op) { StoreFresh(cfg, s, op, x); }
      case Delete(item) => DeleteFresh(cfg, s, item, x);
      case Write(_, _, _) => WriteFresh(cfg, s, op, x);
      case Read(item) => ReadFresh(cfg, s, item, x);
      case _ => QuietFresh(cfg, s, op, x);
    }
  }

  lemma StepFreshExactlyWhen(cfg: Config, s: Race, op: Half)
    requires Sound(cfg, s) && AllFresh(cfg, s)
    ensures AllFresh(cfg, Exec(cfg, s, op)) <==> !Overtaken(cfg, s, op)
  {
    forall x ensures Fresh(cfg, Exec(cfg, s, op), x) <==> !(Overtaken(cfg, s, op) && Touched(s, op) == Some(x)) {
      assert Fresh(cfg, s, x);
      StepFresh(cfg, s, op, x);
    }
    if Overtaken(cfg, s, op) { assert !Fresh(cfg, Exec(cfg, s, op), Touched(s, op).value); }
  }

  /**
   In every run of half-steps, every memory hit at every moment is as new as everything that has finished
   if and only if no half-finished call was overtaken.
   */
  lemma {:induction false} FreshExactlyWhen(cfg: Config, ops: seq<Half>)
    requires cfg.shardCount > 0
    ensures AlwaysFresh(cfg, ops) <==> NeverOvertaken(cfg, ops)
  {
    if ops == [] {
      var s := Run(cfg, ops);
      forall x ensures Fresh(cfg, s, x) {}
    } else {
      var front := ops[..|ops| - 1];
      FreshExactlyWhen(cfg, front);
      EveryRunIsSound(cfg, front);
      if AlwaysFresh(cfg, front) { StepFreshExactlyWhen(cfg, Run(cfg, front), ops[|ops| - 1]); }
    }
  }

  /** No set of the item is between its halves. */
  predicate Settled(s: Race, item: Item) {
    forall k :: 0 <= k < |s.calls| ==> !Pending(s.calls[k], item)
  }

  lemma SettledAnswer(cfg: Config, s: Race, item: Item)
    requires Sound(cfg, s) && Fresh(cfg, s, item) && Settled(s, item)
    ensures Answer(cfg, s.cache, item).Some? ==> LastSet(s.cache, item) == Answer(cfg, s.cache, item)
  {
    assert ItemOk(cfg, s, item);
    assert item in s.latest ==> !UnderWay(s, item, s.latest[item].step);
  }

  /** Then, with no set of the item under way, what a lookup answers is the last value set and not deleted. */
  lemma SettledAnswerIsLastSet(cfg: Config, ops: seq<Half>, item: Item)
    requires cfg.shardCount > 0 && NeverOvertaken(cfg, ops) && Settled(Run(cfg, ops), item)
    ensures var c := Run(cfg, ops).cache; Answer(cfg, c, item).Some? ==> LastSet(c, item) == Answer(cfg, c, item)
  {
    FreshExactlyWhen(cfg, ops);
    EveryRunIsSound(cfg, ops);
    assert Fresh(cfg, Run(cfg, ops), item);
    SettledAnswer(cfg, Run(cfg, ops), item);
  }

  /** No two writes wrote the same value. */
  predicate DistinctValues(s: Race) {
    forall i, j :: i in s.history && j in s.history && i != j ==> s.history[i] != s.history[j]
  }

  lemma StaleIsNotLastSet(cfg: Config, s: Race, item: Item)
    requires Sound(cfg, s) && !Fresh(cfg, s, item) && DistinctValues(s)
    ensures Answer(cfg, s.cache, item).Some? && LastSet(s.cache, item) != Answer(cfg, s.cache, item)
  {
    assert ItemOk(cfg, s, item);
  }

  /** And the moment a call is overtaken, a lookup answers a value that is not the last one set. */
  lemma OvertakenAnswerIsNotLastSet(cfg: Config, ops: seq<Half>, op: Half)
    requires cfg.shardCount > 0 && NeverOvertaken(cfg, ops) && Overtaken(cfg, Run(cfg, ops), op)
    requires DistinctValues(Run(cfg, ops + [op]))
    ensures var s := Run(cfg, ops);
      && Touched(s, op).Some?
      && var (c, item) := (Run(cfg, ops + [op]).cache, Touched(s, op).value);
         Answer(cfg, c, item).Some? && LastSet(c, item) != Answer(cfg, c, item)
  {
    var s := Run(cfg, ops);
    RunSnoc(cfg, ops, op);
    FreshExactlyWhen(cfg, ops);
    EveryRunIsSound(cfg, ops);
    StepKeepsSound(cfg, s, op);
    assert Fresh(cfg, s, Touched(s, op).value);
    StepFresh(cfg, s, op, Touched(s, op).value);
    StaleIsNotLastSet(cfg, Exec(cfg, s, op), Touched(s, op).value);
  }

  // ---------------------------------------------------------------------------
  // Runs in which a finished lookup answers an old or deleted value
  // ---------------------------------------------------------------------------

  lemma RunSnoc(cfg: Config, ops: seq<Half>, op: Half)
    requires cfg.shardCount > 0
    ensures Run(cfg, ops + [op]) == Exec(cfg, Run(cfg, ops), op)
  {
    assert (ops + [op])[..|ops|] == ops;
  }

  /** What a step on the item itself leaves of it. */
  lemma WriteEffect(cfg: Config, s: Race, item: Item, v: Value, ttl: nat)
    requires Ready(cfg, s.cache) && Suits(item, v) && WholeSeconds(ttl) > 0
    ensures var r := Exec(cfg, s, Write(item, v, ttl));
      && InMemory(cfg, r.cache, item) == InMemory(cfg, s.cache, item)
      && InRedis(r.cache, item) == Some(v) && LastSet(r.cache, item) == Some(v) && item in r.latest
      && |r.calls| == |s.calls| + 1 && s.calls <= r.calls
      && r.calls[|s.calls|].item == item && r.calls[|s.calls|].value == v && r.calls[|s.calls|].open
  {
    WriteInRedis(cfg, s.cache, item, v, WholeSeconds(ttl), item);
  }

  lemma ReadEffect(cfg: Config, s: Race, item: Item)
    requires Ready(cfg, s.cache) && InRedis(s.cache, item).Some? && item in s.latest
    ensures var r := Exec(cfg, s, Read(item));
      && r.cache == s.cache && r.latest == s.latest
      && |r.calls| == |s.calls| + 1 && s.calls <= r.calls
      && r.calls[|s.calls|].item == item && r.calls[|s.calls|].value == InRedis(s.cache, item).value
      && r.calls[|s.calls|].open && !r.calls[|s.calls|].writes
  {}

  lemma StoreEffect(cfg: Config, s: Race, k: nat, victim: Uuid)
    requires Ready(cfg, s.cache) && Storable(s, Store(k, victim)) && Servable(cfg, s.calls[k].item)
    ensures var r, item := Exec(cfg, s, Store(k, victim)), s.calls[k].item;
      && InMemory(cfg, r.cache, item) == Some(s.calls[k].value)
      && InRedis(r.cache, item) == InRedis(s.cache, item) && LastSet(r.cache, item) == LastSet(s.cache, item)
      && r.latest == s.latest && r.calls == s.calls[k := s.calls[k].(open := false)]
  {
    StoreInMemory(cfg, s.cache, s.calls[k].item, s.calls[k].value, victim, s.calls[k].item);
  }

  predicate AllClosed(s: Race) {
    forall k :: 0 <= k < |s.calls| ==> !s.calls[k].open
  }

  /** Everything has finished, a lookup answers `v`, and the last value set and not deleted is `last`. */
  ghost predicate Ends(cfg: Config, s: Race, item: Item, v: Value, last: Option<Value>)
    requires Ready(cfg, s.cache)
  {
    AllClosed(s) && Answer(cfg, s.cache, item) == Some(v) && LastSet(s.cache, item) == last
  }

  /** A refill read before the second set and stored after it. */
  lemma LateRefillServesOldValue(cfg: Config, item: Item, v: Value, w: Value, ttl: nat, victim: Uuid)
    requires cfg.shardCount > 0 && Servable(cfg, item) && Suits(item, v) && Suits(item, w) && WholeSeconds(ttl) > 0
    ensures var ops := [] + [Write(item, v, ttl)] + [Read(item)] + [Store(0, victim)]
                       + [Write(item, w, ttl)] + [Store(2, victim)] + [Store(1, victim)];
      Ends(cfg, Run(cfg, ops), item, v, Some(w))
  {
    var a: seq<Half> := [] + [Write(item, v, ttl)];
    RunSnoc(cfg, [], Write(item, v, ttl));
    WriteEffect(cfg, Run(cfg, []), item, v, ttl);
    RunSnoc(cfg, a, Read(item));
    ReadEffect(cfg, Run(cfg, a), item);
    var b := a + [Read(item)];
    RunSnoc(cfg, b, Store(0, victim));
    StoreEffect(cfg, Run(cfg, b), 0, victim);
    LateRefillEnds(cfg, Run(cfg, b + [Store(0, victim)]), item, v, w, ttl, victim);
    var c := b + [Store(0, victim)] + [Write(item, w, ttl)];
    RunSnoc(cfg, b + [Store(0, victim)], Write(item, w, ttl));
    RunSnoc(cfg, c, Store(2, victim));
    RunSnoc(cfg, c + [Store(2, victim)], Store(1, victim));
  }

  lemma LateRefillEnds(cfg: Config, s: Race, item: Item, v: Value, w: Value, ttl: nat, victim: Uuid)
    requires Ready(cfg, s.cache) && Servable(cfg, item) && Suits(item, v) && Suits(item, w) && WholeSeconds(ttl) > 0
    requires |s.calls| == 2 && !s.calls[0].open && s.calls[1].open && s.calls[1].item == item && s.calls[1].value == v
    ensures var written := Exec(cfg, s, Write(item, w, ttl));
      Ends(cfg, Exec(cfg, Exec(cfg, written, Store(2, victim)), Store(1, victim)), item, v, Some(w))
  {
    var written := Exec(cfg, s, Write(item, w, ttl));
    WriteEffect(cfg, s, item, w, ttl);
    StoreEffect(cfg, written, 2, victim);
    StoreEffect(cfg, Exec(cfg, written, Store(2, victim)), 1, victim);
  }

  /** Two overlapping sets whose memory halves run in the other order. */
  lemma OverlappingSetsServeOldValue(cfg: Config, item: Item, v: Value, w: Value, ttl: nat, victim: Uuid)
    requires cfg.shardCount > 0 && Servable(cfg, item) && Suits(item, v) && Suits(item, w) && WholeSeconds(ttl) > 0
    ensures var ops := [] + [Write(item, v, ttl)] + [Write(item, w, ttl)] + [Store(1, victim)] + [Store(0, victim)];
      Ends(cfg, Run(cfg, ops), item, v, Some(w))
  {
    var a: seq<Half> := [] + [Write(item, v, ttl)];
    var b := a + [Write(item, w, ttl)];
    RunSnoc(cfg, [], Write(item, v, ttl));
    WriteEffect(cfg, Run(cfg, []), item, v, ttl);
    RunSnoc(cfg, a, Write(item, w, ttl));
    WriteEffect(cfg, Run(cfg, a), item, w, ttl);
    RunSnoc(cfg, b, Store(1, victim));
    StoreEffect(cfg, Run(cfg, b), 1, victim);
    RunSnoc(cfg, b + [Store(1, victim)], Store(0, victim));
    StoreEffect(cfg, Run(cfg, b + [Store(1, victim)]), 0, victim);
  }

  /** A lookup that refills between the two halves of an invalidation leaves the deleted value in memory. */
  lemma RefilledInvalidationServesDeletedValue(cfg: Config, item: Item, v: Value, ttl: nat, victim: Uuid)
    requires cfg.shardCount > 0 && Servable(cfg, item) && Suits(item, v) && WholeSeconds(ttl) > 0
    ensures var ops := [] + [Write(item, v, ttl)] + [Store(0, victim)] + [Drop(item)] + [Read(item)] + [Store(1, victim)] + [Delete(item)];
      Ends(cfg, Run(cfg, ops), item, v, None)
  {
    var a: seq<Half> := [] + [Write(item, v, ttl)];
    var b := a + [Store(0, victim)];
    RunSnoc(cfg, [], Write(item, v, ttl));
    WriteEffect(cfg, Run(cfg, []), item, v, ttl);
    RunSnoc(cfg, a, Store(0, victim));
    StoreEffect(cfg, Run(cfg, a), 0, victim);
    RunSnoc(cfg, b, Drop(item));
    DropInMemory(cfg, Run(cfg, b).cache, item, item);
    RefillEnds(cfg, Run(cfg, b + [Drop(item)]), item, v, victim);
    var c := b + [Drop(item)] + [Read(item)];
    RunSnoc(cfg, b + [Drop(item)], Read(item));
    RunSnoc(cfg, c, Store(1, victim));
    RunSnoc(cfg, c + [Store(1, victim)], Delete(item));
  }

  lemma RefillEnds(cfg: Config, s: Race, item: Item, v: Value, victim: Uuid)
    requires Ready(cfg, s.cache) && Servable(cfg, item) && Suits(item, v)
    requires |s.calls| == 1 && !s.calls[0].open && InRedis(s.cache, item) == Some(v) && item in s.latest
    ensures var read := Exec(cfg, s, Read(item));
      Ends(cfg, Exec(cfg, Exec(cfg, read, Store(1, victim)), Delete(item)), item, v, None)
  {
    var read := Exec(cfg, s, Read(item));
    ReadEffect(cfg, s, item);
    StoreEffect(cfg, read, 1, victim);
    DeleteInRedis(cfg, Exec(cfg, read, Store(1, victim)).cache, item, item);
  }

  // ---------------------------------------------------------------------------
  // Whole calls are two halves with nothing in between, and are never overtaken
  // ---------------------------------------------------------------------------

  lemma NothingFinishedSince(cfg: Config, s: Race, item: Item)
    requires Sound(cfg, s)
    ensures Done(s, item) <= s.step
  {
    assert ItemOk(cfg, s, item);
  }

  lemma WholeCallsAreNeverOvertaken(cfg: Config, s: Race, item: Item, v: Value, ttl: nat, victim: Uuid)
    requires Sound(cfg, s)
    ensures !Overtaken(cfg, Exec(cfg, s, Read(item)), Store(|s.calls|, victim))
    ensures !Overtaken(cfg, Exec(cfg, s, Write(item, v, ttl)), Store(|s.calls|, victim))
    ensures !Overtaken(cfg, Exec(cfg, s, Drop(item)), Delete(item))
  {
    NothingFinishedSince(cfg, s, item);
    DropInMemory(cfg, s.cache, item, item);
  }

  lemma WholeSet(cfg: Config, s: Race, a: Account, ttl: nat, victim: Uuid)
    requires Ready(cfg, s.cache)
    ensures var halves := Exec(cfg, Exec(cfg, s, Write(AccountOf(a.id), AccountValue(a), ttl)), Store(|s.calls|, victim));
      WholeSeconds(ttl) > 0 ==> halves.cache == SetStep(cfg, s.cache, a, Some(ttl), true, victim)
  {}

  lemma WholeMiss(cfg: Config, s: Race, id: Uuid, victim: Uuid)
    requires Ready(cfg, s.cache)
    ensures Exec(cfg, s, Expire(id)).cache == GetStep(cfg, s.cache, id, false, victim)
    ensures Served(cfg, s.cache.shards, id, s.cache.now).Some? || Redis(s.cache.redis, id, s.cache.now).None? ==>
      Exec(cfg, s, Expire(id)).cache == GetStep(cfg, s.cache, id, true, victim)
  {}

  lemma WholeRefill(cfg: Config, s: Race, id: Uuid, victim: Uuid)
    requires Sound(cfg, s) && Served(cfg, s.cache.shards, id, s.cache.now).None? && Redis(s.cache.redis, id, s.cache.now).Some?
    ensures var missed := Exec(cfg, s, Expire(id));
      Exec(cfg, Exec(cfg, missed, Read(AccountOf(id))), Store(|s.calls|, victim)).cache == GetStep(cfg, s.cache, id, true, victim)
  {
    assert ItemOk(cfg, s, AccountOf(id));
    DropInMemory(cfg, s.cache, AccountOf(id), AccountOf(id));
  }

  /** A whole get is its first half when memory answers, Redis is down or has nothing, and all halves otherwise. */
  lemma WholeGet(cfg: Config, s: Race, id: Uuid, up: bool, victim: Uuid)
    requires Sound(cfg, s)
    ensures var missed := Exec(cfg, s, Expire(id));
      var refilled := Exec(cfg, Exec(cfg, missed, Read(AccountOf(id))), Store(|s.calls|, victim));
      var refills := up && Served(cfg, s.cache.shards, id, s.cache.now).None? && Redis(s.cache.redis, id, s.cache.now).Some?;
      GetStep(cfg, s.cache, id, up, victim) == if refills then refilled.cache else missed.cache
  {
    WholeMiss(cfg, s, id, victim);
    if up && Served(cfg, s.cache.shards, id, s.cache.now).None? && Redis(s.cache.redis, id, s.cache.now).Some? {
      WholeRefill(cfg, s, id, victim);
    }
  }

  lemma WholeInvalidation(cfg: Config, s: Race, id: Uuid)
    requires Ready(cfg, s.cache)
    ensures var dropped := Exec(cfg, Exec(cfg, s, Drop(AccountOf(id))), Drop(EventsOf(id)));
      Exec(cfg, Exec(cfg, dropped, Delete(AccountOf(id))), Delete(EventsOf(id))).cache == InvalidateStep(cfg, s.cache, id, 2)
  {}
}
