/** Hash-range shards: how the ranges tile the 64-bit key space and how keys find their shard. */
module Sharding {
  import opened Wrappers

  const U64_MAX: int := 0xFFFF_FFFF_FFFF_FFFF

  /** 64-bit arithmetic: every operation on it is checked not to overflow. */
  newtype U64 = x: int | 0 <= x <= 0xFFFF_FFFF_FFFF_FFFF

  type Instance = nat

  datatype Status = Available | Assigned

  /** Shard "shard-i" is element i of the ring. */
  datatype Shard = Shard(rangeStart: U64, rangeEnd: U64, instance: Option<Instance>, status: Status)

  predicate Contains(s: Shard, hash: U64) {
    s.rangeStart <= hash <= s.rangeEnd
  }

  function RangeStart(n: nat, i: nat): int
    requires n > 0
  {
    i * (U64_MAX / n)
  }

  function RangeEnd(n: nat, i: nat): int
    requires n > 0
  {
    if i == n - 1 then U64_MAX else (i + 1) * (U64_MAX / n) - 1
  }

  /** The ring's ranges are those of `n` shards, whoever owns them. */
  ghost predicate HasRanges(n: nat, shards: seq<Shard>) {
    && 0 < n == |shards|
    && forall i :: 0 <= i < n ==>
         shards[i].rangeStart as int == RangeStart(n, i) && shards[i].rangeEnd as int == RangeEnd(n, i)
  }

  lemma MulMonotone(a: int, b: int, c: int)
    requires a <= b && 0 <= c
    ensures a * c <= b * c
  {}

  lemma QuotientIsNat(a: int, b: int)
    requires 0 <= a && 0 < b
    ensures 0 <= a / b && (b <= a ==> 1 <= a / b)
  {
    assert a == b * (a / b) + a % b;
    assert a / b >= 0;
  }

  /** No product in the initialisation leaves 64 bits. */
  lemma RangesFit(n: nat, i: nat)
    requires 0 < n <= U64_MAX && i < n
    ensures 1 <= U64_MAX / n && 0 <= RangeStart(n, i) <= RangeEnd(n, i) <= U64_MAX
    ensures (i + 1) * (U64_MAX / n) <= U64_MAX
  {
    var size := U64_MAX / n;
    QuotientIsNat(U64_MAX, n);
    MulMonotone(i + 1, n, size);
    assert n * size <= U64_MAX;
    assert (i + 1) * size == i * size + size;
  }

  /** The shard a hash belongs to. */
  function Home(n: nat, hash: int): (i: nat)
    requires 0 < n <= U64_MAX && 0 <= hash <= U64_MAX
    ensures i < n
  {
    QuotientIsNat(U64_MAX, n);
    QuotientIsNat(hash, U64_MAX / n);
    var q := hash / (U64_MAX / n);
    if q < n - 1 then q else n - 1
  }

  /** Every hash lies in exactly one range: no gap and no overlap anywhere in 0..u64::MAX. */
  lemma RangesTile(n: nat, hash: int, i: nat)
    requires 0 < n <= U64_MAX && 0 <= hash <= U64_MAX && i < n
    ensures RangeStart(n, i) <= hash <= RangeEnd(n, i) <==> i == Home(n, hash)
  {
    RangesFit(n, i);
    var size := U64_MAX / n;
    var q, home := hash / size, Home(n, hash);
    assert hash == q * size + hash % size;
    assert (q + 1) * size == q * size + size;
    if home < i {
      assert home == q;
      MulMonotone(q + 1, i, size);
    } else if i < home {
      MulMonotone(i + 1, home, size);
      MulMonotone(home, q, size);
    } else if q < n - 1 {
    } else {
      MulMonotone(n - 1, q, size);
    }
  }

  lemma OneShardPerHash(n: nat, shards: seq<Shard>, hash: U64, i: nat)
    requires n <= U64_MAX && HasRanges(n, shards) && i < n
    ensures Contains(shards[i], hash) <==> i == Home(n, hash as int)
  {
    RangesTile(n, hash as int, i);
  }

  // ---------------------------------------------------------------------------
  // Assignment
  // ---------------------------------------------------------------------------

  /** `assign_shard`: unknown shard ids are ignored. */
  function Assign(shards: seq<Shard>, i: nat, to: Instance): (r: seq<Shard>)
    ensures |r| == |shards|
  {
    if i < |shards| then shards[i := shards[i].(instance := Some(to), status := Assigned)] else shards
  }

  datatype Assignment = Assignment(shard: nat, to: Instance)

  /** Any sequence of assignments; a rebalancing, complete or cut short, is one of these. */
  function AssignAll(shards: seq<Shard>, moves: seq<Assignment>): seq<Shard> {
    if moves == [] then shards
    else Assign(AssignAll(shards, moves[..|moves| - 1]), moves[|moves| - 1].shard, moves[|moves| - 1].to)
  }

  lemma {:induction false} AssignmentsKeepRanges(n: nat, shards: seq<Shard>, moves: seq<Assignment>)
    requires HasRanges(n, shards)
    ensures HasRanges(n, AssignAll(shards, moves))
  {
    if moves != [] { AssignmentsKeepRanges(n, shards, moves[..|moves| - 1]); }
  }

  class ShardManager {
    var shards: seq<Shard>

    constructor ()
      ensures shards == []
    {
      shards := [];
    }

    /** `shard_count` is a machine word; 0 divides by zero in the source. */
    method InitializeShards(shardCount: U64)
      requires shardCount > 0
      modifies this
      ensures HasRanges(shardCount as nat, shards)
      ensures forall i :: 0 <= i < |shards| ==> shards[i].instance == None && shards[i].status == Available
    {
      var rangeSize: U64 := 0xFFFF_FFFF_FFFF_FFFF / shardCount;
      ghost var n := shardCount as nat;
      shards := [];
      var i: U64 := 0;
      while i < shardCount
        invariant i <= shardCount && |shards| == i as nat
        invariant forall j :: 0 <= j < |shards| ==>
          && shards[j].rangeStart as int == RangeStart(n, j) && shards[j].rangeEnd as int == RangeEnd(n, j)
          && shards[j].instance == None && shards[j].status == Available
      {
        RangesFit(n, i as nat);
        var rangeStart := i * rangeSize;
        var rangeEnd := if i == shardCount - 1 then 0xFFFF_FFFF_FFFF_FFFF else (i + 1) * rangeSize - 1;
        shards := shards + [Shard(rangeStart, rangeEnd, None, Available)];
        i := i + 1;
      }
    }

    method AssignShard(i: nat, to: Instance)
      modifies this
      ensures shards == Assign(old(shards), i, to)
    {
      if i < |shards| {
        shards := shards[i := shards[i].(instance := Some(to), status := Assigned)];
      }
    }

    /** The scan visits the shards in whatever order the concurrent map yields them. */
    method GetShardForKey(hash: U64, order: seq<nat>) returns (r: Option<nat>)
      requires forall k :: 0 <= k < |order| ==> order[k] < |shards|
      requires forall i :: 0 <= i < |shards| ==> i in order
      ensures Located(shards, hash, r)
    {
      for k := 0 to |order|
        invariant forall j :: 0 <= j < k ==> !Contains(shards[order[j]], hash)
      {
        if Contains(shards[order[k]], hash) { return Some(order[k]); }
      }
      forall i | 0 <= i < |shards| ensures !Contains(shards[i], hash) {
        assert i in order;
        var j :| 0 <= j < |order| && order[j] == i;
      }
      return None;
    }
  }

  /** What a scan may answer: some shard whose range holds the hash, or nothing if there is none. */
  predicate Located(shards: seq<Shard>, hash: U64, r: Option<nat>) {
    match r
    case None => forall i :: 0 <= i < |shards| ==> !Contains(shards[i], hash)
    case Some(i) => i < |shards| && Contains(shards[i], hash)
  }

  /** After any assignments, a scan in any order has exactly one possible answer, and finds it. */
  lemma EveryKeyFindsItsHome(n: nat, shards: seq<Shard>, moves: seq<Assignment>, hash: U64, r: Option<nat>)
    requires n <= U64_MAX && HasRanges(n, shards)
    ensures Located(AssignAll(shards, moves), hash, r) <==> r == Some(Home(n, hash as int))
  {
    AssignmentsKeepRanges(n, shards, moves);
    var after := AssignAll(shards, moves);
    OneShardPerHash(n, after, hash, Home(n, hash as int));
    if r.Some? && r.value < n { OneShardPerHash(n, after, hash, r.value); }
  }
}
