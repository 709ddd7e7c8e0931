/** The distributed lock: `SET key id NX PX ttl` to take it, compare-and-delete to give it back. */
module LeaseLock {

  type Key = nat
  type LockId = nat

  datatype Entry = Entry(id: LockId, expires: nat)

  /** A handle given out by a successful acquisition; it stays in the list after release or expiry. */
  datatype Lease = Lease(key: Key, id: LockId, expires: nat, released: bool)

  /** `redis` still holds entries past their expiry; a read ignores them.  `used` are the ids that were granted. */
  datatype Locks = Locks(now: nat, redis: map<Key, Entry>, leases: seq<Lease>, used: set<LockId>)

  datatype Op =
    | Advance(millis: nat)
    | TryAcquire(key: Key, id: LockId, ttl: nat)
    | Release(lease: nat)

  predicate Live(s: Locks, k: Key) {
    k in s.redis && s.now < s.redis[k].expires
  }

  /** A holder still entitled to the lock. */
  predicate Active(s: Locks, l: Lease) {
    !l.released && s.now < l.expires
  }

  /** Setting with a zero expiry is refused by Redis. */
  predicate Grants(s: Locks, k: Key, ttl: nat) {
    ttl > 0 && !Live(s, k)
  }

  function Exec(s: Locks, op: Op): Locks {
    match op
    case Advance(d) => s.(now := s.now + d)
    case TryAcquire(k, id, ttl) =>
      if !Grants(s, k, ttl) then s
      else s.(redis := s.redis[k := Entry(id, s.now + ttl)],
              leases := s.leases + [Lease(k, id, s.now + ttl, false)], used := s.used + {id})
    case Release(i) =>
      // The handle is consumed, so a second release of the same handle cannot be written.
      if i >= |s.leases| || s.leases[i].released then s
      else
        var l := s.leases[i];
        var s' := s.(leases := s.leases[i := l.(released := true)]);
        if Live(s, l.key) && s.redis[l.key].id == l.id then s'.(redis := s.redis - {l.key}) else s'
  }

  function Start(): Locks {
    Locks(0, map[], [], {})
  }

  function From(s: Locks, ops: seq<Op>): Locks {
    if ops == [] then s else Exec(From(s, ops[..|ops| - 1]), ops[|ops| - 1])
  }

  function Run(ops: seq<Op>): Locks {
    From(Start(), ops)
  }

  /** No attempt carries an id that was granted before; a refused attempt may be repeated with its own id. */
  predicate FreshFrom(s: Locks, ops: seq<Op>) {
    forall i :: 0 <= i < |ops| && ops[i].TryAcquire? ==> ops[i].id !in From(s, ops[..i]).used
  }

  predicate FreshIds(ops: seq<Op>) {
    FreshFrom(Start(), ops)
  }

  ghost predicate Sound(s: Locks) {
    && (forall i :: 0 <= i < |s.leases| ==> s.leases[i].id in s.used)
    && (forall i, j :: 0 <= i < j < |s.leases| ==> s.leases[i].id != s.leases[j].id)
    && (forall i :: 0 <= i < |s.leases| ==> Active(s, s.leases[i]) ==> Holds(s, s.leases[i]))
    && (forall k :: Live(s, k) ==> exists i :: 0 <= i < |s.leases| && Backs(s.leases[i], k, s.redis[k]))
  }

  predicate Holds(s: Locks, l: Lease) {
    l.key in s.redis && s.redis[l.key] == Entry(l.id, l.expires)
  }

  predicate Backs(l: Lease, k: Key, e: Entry) {
    l == Lease(k, e.id, e.expires, false)
  }

  lemma AcquireKeepsSound(s: Locks, k: Key, id: LockId, ttl: nat)
    requires Sound(s) && id !in s.used
    ensures Sound(Exec(s, TryAcquire(k, id, ttl)))
  {
    if Grants(s, k, ttl) {
      var s' := Exec(s, TryAcquire(k, id, ttl));
      var n := |s.leases|;
      forall i | 0 <= i < |s'.leases| && Active(s', s'.leases[i]) ensures Holds(s', s'.leases[i]) {
        if i < n { assert Active(s, s.leases[i]) && Holds(s, s.leases[i]); }
      }
      forall q | Live(s', q) ensures exists i :: 0 <= i < |s'.leases| && Backs(s'.leases[i], q, s'.redis[q]) {
        if q == k {
          assert Backs(s'.leases[n], q, s'.redis[q]);
        } else {
          assert Live(s, q);
          var i :| 0 <= i < n && Backs(s.leases[i], q, s.redis[q]);
          assert Backs(s'.leases[i], q, s'.redis[q]);
        }
      }
    }
  }

  lemma ReleaseKeepsSound(s: Locks, r: nat)
    requires Sound(s)
    ensures Sound(Exec(s, Release(r)))
  {
    if r < |s.leases| && !s.leases[r].released {
      var s', l := Exec(s, Release(r)), s.leases[r];
      forall i | 0 <= i < |s'.leases| && Active(s', s'.leases[i]) ensures Holds(s', s'.leases[i]) {
        assert i != r && Active(s, s.leases[i]) && Holds(s, s.leases[i]);
      }
      forall q | Live(s', q) ensures exists i :: 0 <= i < |s'.leases| && Backs(s'.leases[i], q, s'.redis[q]) {
        assert Live(s, q);
        var i :| 0 <= i < |s.leases| && Backs(s.leases[i], q, s.redis[q]);
        assert i != r && Backs(s'.leases[i], q, s'.redis[q]);
      }
    }
  }

  lemma AdvanceKeepsSound(s: Locks, d: nat)
    requires Sound(s)
    ensures Sound(Exec(s, Advance(d)))
  {
    var s' := Exec(s, Advance(d));
    forall i | 0 <= i < |s'.leases| && Active(s', s'.leases[i]) ensures Holds(s', s'.leases[i]) {
      assert Active(s, s.leases[i]) && Holds(s, s.leases[i]);
    }
    forall k | Live(s', k) ensures exists i :: 0 <= i < |s'.leases| && Backs(s'.leases[i], k, s'.redis[k]) {
      assert Live(s, k);
    }
  }

  lemma {:induction false} StepsKeepSound(s: Locks, ops: seq<Op>)
    requires Sound(s) && FreshFrom(s, ops)
    ensures Sound(From(s, ops))
  {
    if ops != [] {
      var front := ops[..|ops| - 1];
      assert forall i :: 0 <= i < |front| ==> front[..i] == ops[..i];
      StepsKeepSound(s, front);
      match ops[|ops| - 1] {
        case Advance(d) => AdvanceKeepsSound(From(s, front), d);
        case TryAcquire(k, id, ttl) => AcquireKeepsSound(From(s, front), k, id, ttl);
        case Release(r) => ReleaseKeepsSound(From(s, front), r);
      }
    }
  }

  lemma EveryRunIsSound(ops: seq<Op>)
    requires FreshIds(ops)
    ensures Sound(Run(ops))
  {
    StepsKeepSound(Start(), ops);
  }

  lemma OneHolder(s: Locks, i: nat, j: nat)
    requires Sound(s) && i < |s.leases| && j < |s.leases|
    requires Active(s, s.leases[i]) && Active(s, s.leases[j]) && s.leases[i].key == s.leases[j].key
    ensures i == j
  {
    assert Holds(s, s.leases[i]) && Holds(s, s.leases[j]);
    assert s.leases[i].id == s.leases[j].id;
  }

  /** Mutual exclusion: two unexpired, unreleased leases on a key are the same lease. */
  lemma AtMostOneHolder(ops: seq<Op>, i: nat, j: nat)
    requires FreshIds(ops) && i < |Run(ops).leases| && j < |Run(ops).leases|
    requires var s := Run(ops); Active(s, s.leases[i]) && Active(s, s.leases[j]) && s.leases[i].key == s.leases[j].key
    ensures i == j
  {
    EveryRunIsSound(ops);
    OneHolder(Run(ops), i, j);
  }

  /** An attempt succeeds exactly when nobody holds the key. */
  lemma GrantedIffFree(ops: seq<Op>, k: Key, ttl: nat)
    requires FreshIds(ops) && ttl > 0
    ensures var s := Run(ops);
      Grants(s, k, ttl) <==> !exists i :: 0 <= i < |s.leases| && s.leases[i].key == k && Active(s, s.leases[i])
  {
    EveryRunIsSound(ops);
    var s := Run(ops);
    if Live(s, k) {
      var i :| 0 <= i < |s.leases| && Backs(s.leases[i], k, s.redis[k]);
      assert s.leases[i].key == k && Active(s, s.leases[i]);
    } else {
      forall i | 0 <= i < |s.leases| && s.leases[i].key == k ensures !Active(s, s.leases[i]) {
        assert Active(s, s.leases[i]) ==> Holds(s, s.leases[i]);
      }
    }
  }

  /** A release, however late, leaves every other holder's entry in place. */
  lemma ReleaseHurtsNobodyElse(ops: seq<Op>, r: nat, j: nat)
    requires FreshIds(ops) && j < |Run(ops).leases| && j != r && Active(Run(ops), Run(ops).leases[j])
    ensures var (s, l) := (Exec(Run(ops), Release(r)), Run(ops).leases[j]);
      s.leases[j] == l && Active(s, l) && Holds(s, l)
  {
    EveryRunIsSound(ops);
    ReleaseKeepsSound(Run(ops), r);
    var s := Exec(Run(ops), Release(r));
    assert s.leases[j] == Run(ops).leases[j];
    assert Active(s, s.leases[j]);
  }

  /** A holder still entitled to the lock frees it by releasing. */
  lemma ReleaseFreesTheKey(ops: seq<Op>, r: nat, ttl: nat)
    requires FreshIds(ops) && r < |Run(ops).leases| && Active(Run(ops), Run(ops).leases[r]) && ttl > 0
    ensures Grants(Exec(Run(ops), Release(r)), Run(ops).leases[r].key, ttl)
  {
    EveryRunIsSound(ops);
    assert Holds(Run(ops), Run(ops).leases[r]);
  }

  // ---------------------------------------------------------------------------
  // How long a lease lasts
  // ---------------------------------------------------------------------------

  /** After a grant for `ttl`, and with nothing else happening, the key is available again exactly from `ttl` later on. */
  lemma GrantLastsExactly(s: Locks, k: Key, id: LockId, ttl: nat, wait: nat, other: nat)
    requires Grants(s, k, ttl) && other > 0
    ensures Grants(Exec(Exec(s, TryAcquire(k, id, ttl)), Advance(wait)), k, other) <==> wait >= ttl
  {}

  lemma {:induction false} LeaseStays(s: Locks, more: seq<Op>, n: nat)
    requires n < |s.leases|
    ensures var t := From(s, more);
      n < |t.leases| && t.leases[n] == s.leases[n].(released := t.leases[n].released) && s.now <= t.now
  {
    if more != [] { LeaseStays(s, more[..|more| - 1], n); }
  }

  /**
   Whatever others do after a grant, until its holder releases it the lease is active, and no attempt on the key
   is granted, exactly up to `ttl` after the grant.
   */
  lemma LeaseLastsExactly(s: Locks, k: Key, id: LockId, ttl: nat, more: seq<Op>, other: nat)
    requires Sound(s) && id !in s.used && Grants(s, k, ttl)
    requires FreshFrom(Exec(s, TryAcquire(k, id, ttl)), more)
    ensures var (n, t) := (|s.leases|, From(Exec(s, TryAcquire(k, id, ttl)), more));
      && n < |t.leases| && t.leases[n].key == k && t.leases[n].id == id
      && (!t.leases[n].released ==> (Active(t, t.leases[n]) <==> t.now < s.now + ttl))
      && (!t.leases[n].released && t.now < s.now + ttl ==> !Grants(t, k, other))
  {
    var granted, n := Exec(s, TryAcquire(k, id, ttl)), |s.leases|;
    AcquireKeepsSound(s, k, id, ttl);
    LeaseStays(granted, more, n);
    StepsKeepSound(granted, more);
    var t := From(granted, more);
    assert Active(t, t.leases[n]) ==> Holds(t, t.leases[n]);
  }

  // ---------------------------------------------------------------------------
  // Three attempts, with whatever happens during the sleeps between them
  // ---------------------------------------------------------------------------

  /** The state at attempt `n` when the earlier ones were refused and `meanwhile` happened after each. */
  function Seen(s: Locks, meanwhile: seq<seq<Op>>, n: nat): Locks
    requires n <= |meanwhile|
  {
    if n == 0 then s else From(Seen(s, meanwhile, n - 1), meanwhile[n - 1])
  }

  predicate Avoids(ops: seq<Op>, id: LockId) {
    forall i :: 0 <= i < |ops| && ops[i].TryAcquire? ==> ops[i].id != id
  }

  /** The others draw fresh ids too, and not the one of this acquisition. */
  predicate Meanwhile(s: Locks, meanwhile: seq<seq<Op>>, id: LockId) {
    forall n :: 0 <= n < |meanwhile| ==> FreshFrom(Seen(s, meanwhile, n), meanwhile[n]) && Avoids(meanwhile[n], id)
  }

  lemma {:induction false} NobodyDraws(s: Locks, ops: seq<Op>, id: LockId)
    requires id !in s.used && Avoids(ops, id)
    ensures id !in From(s, ops).used
  {
    if ops != [] { NobodyDraws(s, ops[..|ops| - 1], id); }
  }

  lemma {:induction false} SeenIsSound(s: Locks, meanwhile: seq<seq<Op>>, id: LockId, n: nat)
    requires Sound(s) && id !in s.used && Meanwhile(s, meanwhile, id) && n <= |meanwhile|
    ensures Sound(Seen(s, meanwhile, n)) && id !in Seen(s, meanwhile, n).used
  {
    if n > 0 {
      SeenIsSound(s, meanwhile, id, n - 1);
      StepsKeepSound(Seen(s, meanwhile, n - 1), meanwhile[n - 1]);
      NobodyDraws(Seen(s, meanwhile, n - 1), meanwhile[n - 1], id);
    }
  }

  /** Left alone, three attempts 100 ms apart get the key exactly when it is free or expires within 200 ms. */
  lemma AloneGetsItExactlyWhen(s: Locks, key: Key, ttl: nat)
    ensures var alone := [[Advance(100)], [Advance(100)], [Advance(100)]];
      (exists n :: 0 <= n < 3 && Grants(Seen(s, alone, n), key, ttl))
      <==> ttl > 0 && (key !in s.redis || s.redis[key].expires <= s.now + 200)
  {
    var alone := [[Advance(100)], [Advance(100)], [Advance(100)]];
    assert [Advance(100)][..0] == [];
    assert From(s, [Advance(100)]) == s.(now := s.now + 100);
    assert Seen(s, alone, 0) == s;
    assert Seen(s, alone, 1) == s.(now := s.now + 100);
    assert From(Seen(s, alone, 1), [Advance(100)]) == s.(now := s.now + 200);
    assert Seen(s, alone, 2) == s.(now := s.now + 200);
  }

  /** The newest lease is on the key with this id, entitled to it and backed by Redis. */
  predicate HeldBy(s: Locks, key: Key, id: LockId) {
    s.leases != [] && var l := s.leases[|s.leases| - 1]; l.key == key && l.id == id && Active(s, l) && Holds(s, l)
  }

  /** The client side. */
  class LockManager {
    var state: Locks

    constructor ()
      ensures state == Start() && Sound(state)
    {
      state := Start();
    }

    method AcquireLock(key: Key, id: LockId, ttl: nat, meanwhile: seq<seq<Op>>) returns (acquired: bool)
      requires Sound(state) && id !in state.used && |meanwhile| == 3 && Meanwhile(state, meanwhile, id)
      modifies this
      ensures Sound(state)
      ensures acquired <==> exists n :: 0 <= n < 3 && Grants(Seen(old(state), meanwhile, n), key, ttl)
      ensures acquired ==> exists n :: 0 <= n < 3 && state == Exec(Seen(old(state), meanwhile, n), TryAcquire(key, id, ttl))
      ensures acquired ==> HeldBy(state, key, id)
      ensures !acquired ==> state == Seen(old(state), meanwhile, 3)
    {
      var retries := 0;
      while retries < 3
        invariant 0 <= retries <= 3 && state == Seen(old(state), meanwhile, retries)
        invariant forall n :: 0 <= n < retries ==> !Grants(Seen(old(state), meanwhile, n), key, ttl)
      {
        SeenIsSound(old(state), meanwhile, id, retries);
        var granted := Grants(state, key, ttl);
        AcquireKeepsSound(state, key, id, ttl);
        state := Exec(state, TryAcquire(key, id, ttl));
        if granted { return true; }
        state := From(state, meanwhile[retries]);
        retries := retries + 1;
      }
      SeenIsSound(old(state), meanwhile, id, 3);
      return false;
    }

    method ReleaseLock(lease: nat)
      requires Sound(state) && lease < |state.leases| && !state.leases[lease].released
      modifies this
      ensures state == Exec(old(state), Release(lease)) && Sound(state)
    {
      ReleaseKeepsSound(state, lease);
      var l := state.leases[lease];
      var mine := Live(state, l.key) && state.redis[l.key].id == l.id;
      state := state.(leases := state.leases[lease := l.(released := true)]);
      if mine { state := state.(redis := state.redis - {l.key}); }
    }
  }
}
