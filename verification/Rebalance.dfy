/** The rebalancer: it classifies instances from a snapshot and moves shards between them. */
module Rebalance {
  import opened Wrappers
  import opened Sharding

  /** The shards an instance owns, and how many. */
  function Owned(shards: seq<Shard>, who: Instance): set<nat> {
    set i | 0 <= i < |shards| && shards[i].instance == Some(who)
  }

  function Load(shards: seq<Shard>, who: Instance): nat {
    |Owned(shards, who)|
  }

  /** One entry of the snapshot map: an instance and the shards it owned, in scan order. */
  datatype Group = Group(instance: Instance, shards: seq<nat>)

  predicate Distinct<T(==)>(s: seq<T>) {
    forall i, j :: 0 <= i < j < |s| ==> s[i] != s[j]
  }

  /** A snapshot lists every owning instance once, with exactly its shards, in any order. */
  predicate IsSnapshot(shards: seq<Shard>, groups: seq<Group>) {
    && DistinctInstances(groups)
    && (forall g :: 0 <= g < |groups| ==>
          && groups[g].shards != [] && Distinct(groups[g].shards)
          && Elements(groups[g].shards) == Owned(shards, groups[g].instance))
  }

  function Elements<T(==)>(s: seq<T>): set<T> {
    set x | x in s
  }

  lemma {:induction false} DistinctSize<T>(s: seq<T>)
    requires Distinct(s)
    ensures |Elements(s)| == |s|
  {
    if s != [] {
      var front, last := s[..|s| - 1], s[|s| - 1];
      DistinctSize(front);
      assert s == front + [last];
      assert Elements(s) == Elements(front) + {last};
    }
  }

  /** The shards of `who` among those scanned, in scan order. */
  function Mine(shards: seq<Shard>, scanned: seq<nat>, who: Instance): seq<nat> {
    if scanned == [] then []
    else
      var front, last := Mine(shards, scanned[..|scanned| - 1], who), scanned[|scanned| - 1];
      if last in Owned(shards, who) then front + [last] else front
  }

  /** The scan that builds the snapshot map, visiting the shards in any order. */
  method TakeSnapshot(shards: seq<Shard>, order: seq<nat>) returns (m: map<Instance, seq<nat>>)
    requires forall k :: 0 <= k < |order| ==> order[k] < |shards|
    ensures forall who :: who in m <==> Mine(shards, order, who) != []
    ensures forall who :: who in m ==> m[who] == Mine(shards, order, who)
  {
    m := map[];
    for k := 0 to |order|
      invariant forall who :: who in m <==> Mine(shards, order[..k], who) != []
      invariant forall who :: who in m ==> m[who] == Mine(shards, order[..k], who)
    {
      assert order[..k + 1][..k] == order[..k];
      if shards[order[k]].instance.Some? {
        var who := shards[order[k]].instance.value;
        m := m[who := (if who in m then m[who] else []) + [order[k]]];
      }
    }
    assert order[..|order|] == order;
  }

  lemma {:induction false} MineAreScanned(shards: seq<Shard>, scanned: seq<nat>, who: Instance)
    ensures forall x :: x in Mine(shards, scanned, who) <==> x in scanned && x in Owned(shards, who)
    ensures Distinct(scanned) ==> Distinct(Mine(shards, scanned, who))
  {
    if scanned != [] {
      MineAreScanned(shards, scanned[..|scanned| - 1], who);
      assert scanned == scanned[..|scanned| - 1] + [scanned[|scanned| - 1]];
      assert Distinct(scanned) ==> scanned[|scanned| - 1] !in scanned[..|scanned| - 1];
    }
  }

  /** A full scan in any order groups exactly the shards each instance owns. */
  lemma ScanIsComplete(shards: seq<Shard>, order: seq<nat>, who: Instance)
    requires Distinct(order) && forall i :: 0 <= i < |shards| ==> i in order
    ensures Elements(Mine(shards, order, who)) == Owned(shards, who) && Distinct(Mine(shards, order, who))
    ensures |Mine(shards, order, who)| == Load(shards, who)
  {
    MineAreScanned(shards, order, who);
    forall x | x in Owned(shards, who) ensures x in Mine(shards, order, who) { assert x in order; }
    var mine := Mine(shards, order, who);
    DistinctSize(mine);
    assert Elements(mine) == Owned(shards, who);
  }

  predicate DistinctInstances(groups: seq<Group>) {
    forall g, h :: 0 <= g < h < |groups| ==> groups[g].instance != groups[h].instance
  }

  /** The entries of the scan's map, listed in any order, are a snapshot of the ring. */
  lemma MapEntriesAreSnapshot(shards: seq<Shard>, order: seq<nat>, m: map<Instance, seq<nat>>, groups: seq<Group>)
    requires Distinct(order) && forall i :: 0 <= i < |shards| ==> i in order
    requires forall who :: who in m ==> m[who] == Mine(shards, order, who) && m[who] != []
    requires DistinctInstances(groups)
    requires forall g :: 0 <= g < |groups| ==> groups[g].instance in m && groups[g].shards == m[groups[g].instance]
    ensures IsSnapshot(shards, groups)
  {
    forall g | 0 <= g < |groups|
      ensures groups[g].shards != [] && Distinct(groups[g].shards)
           && Elements(groups[g].shards) == Owned(shards, groups[g].instance)
    {
      ScanIsComplete(shards, order, groups[g].instance);
    }
  }

  function Average(shards: seq<Shard>, groups: seq<Group>): real
    requires groups != []
  {
    |shards| as real / |groups| as real
  }

  predicate Overloaded(load: nat, avg: real, threshold: real) {
    load as real > avg * (1.0 + threshold)
  }

  predicate Underloaded(load: nat, avg: real, threshold: real) {
    !Overloaded(load, avg, threshold) && (load as real) < avg * (1.0 - threshold)
  }

  function Abs(x: real): real {
    if x < 0.0 then -x else x
  }

  /** The test that starts a rebalancing. */
  predicate Deviates(load: nat, avg: real, threshold: real)
    requires avg > 0.0
  {
    Abs(load as real - avg) / avg > threshold
  }

  /** The test fires for an instance exactly when the instance is classed over- or underloaded. */
  lemma DeviationMeansClassed(load: nat, avg: real, threshold: real)
    requires avg > 0.0
    ensures Deviates(load, avg, threshold) <==> Overloaded(load, avg, threshold) || Underloaded(load, avg, threshold)
  {
    var d := Abs(load as real - avg);
    QuotientAbove(d, avg, threshold);
    assert avg * (1.0 + threshold) == avg + threshold * avg;
    assert avg * (1.0 - threshold) == avg - threshold * avg;
  }

  lemma QuotientAbove(d: real, avg: real, threshold: real)
    requires avg > 0.0
    ensures d / avg > threshold <==> d > threshold * avg
  {
    var q := d / avg;
    assert q * avg == d;
    if q > threshold {
      assert (q - threshold) * avg > 0.0;
    } else {
      assert (threshold - q) * avg >= 0.0;
    }
  }

  function OverloadedOf(groups: seq<Group>, avg: real, threshold: real): seq<Group> {
    if groups == [] then []
    else
      var front, last := OverloadedOf(groups[..|groups| - 1], avg, threshold), groups[|groups| - 1];
      if Overloaded(|last.shards|, avg, threshold) then front + [last] else front
  }

  function UnderloadedOf(groups: seq<Group>, avg: real, threshold: real): seq<Group> {
    if groups == [] then []
    else
      var front, last := UnderloadedOf(groups[..|groups| - 1], avg, threshold), groups[|groups| - 1];
      if Underloaded(|last.shards|, avg, threshold) then front + [last] else front
  }

  /** Every overloaded instance's first snapshot shard goes to `target`. */
  function MoveFirsts(shards: seq<Shard>, over: seq<Group>, target: Instance): (r: seq<Shard>)
    requires forall g :: 0 <= g < |over| ==> over[g].shards != []
    ensures |r| == |shards|
  {
    if over == [] then shards
    else Assign(MoveFirsts(shards, over[..|over| - 1], target), over[|over| - 1].shards[0], target)
  }

  predicate NonEmptyGroups(groups: seq<Group>) {
    forall g :: 0 <= g < |groups| ==> groups[g].shards != []
  }

  /** What a rebalancing leaves behind: nothing moves unless someone is underloaded; then the last one gets all. */
  function Rebalanced(shards: seq<Shard>, over: seq<Group>, under: seq<Group>): seq<Shard>
    requires NonEmptyGroups(over)
  {
    if under == [] then shards else MoveFirsts(shards, over, under[|under| - 1].instance)
  }

  predicate Classed(g: Group, avg: real, threshold: real) {
    Overloaded(|g.shards|, avg, threshold) || Underloaded(|g.shards|, avg, threshold)
  }

  method ImbalanceFound(shards: seq<Shard>, groups: seq<Group>, threshold: real) returns (found: bool)
    requires groups != [] ==> shards != []
    ensures found <==> groups != [] && exists g :: 0 <= g < |groups| && Classed(groups[g], Average(shards, groups), threshold)
  {
    if groups == [] { return false; }
    var avg := Average(shards, groups);
    for g := 0 to |groups|
      invariant forall j :: 0 <= j < g ==> !Deviates(|groups[j].shards|, avg, threshold)
    {
      DeviationMeansClassed(|groups[g].shards|, avg, threshold);
      if Deviates(|groups[g].shards|, avg, threshold) { return true; }
    }
    forall j | 0 <= j < |groups| ensures !Classed(groups[j], avg, threshold) {
      DeviationMeansClassed(|groups[j].shards|, avg, threshold);
    }
    return false;
  }

  /** The two classification lists, built in one pass, and then the nested assignment loops. */
  method PerformRebalancing(manager: ShardManager, groups: seq<Group>, threshold: real)
    requires groups != [] && NonEmptyGroups(groups)
    modifies manager
    ensures var avg := Average(old(manager.shards), groups);
      && NonEmptyGroups(OverloadedOf(groups, avg, threshold))
      && manager.shards == Rebalanced(old(manager.shards), OverloadedOf(groups, avg, threshold),
                                      UnderloadedOf(groups, avg, threshold))
  {
    var avg := Average(manager.shards, groups);
    var over: seq<Group>, under: seq<Group> := [], [];
    for g := 0 to |groups|
      invariant over == OverloadedOf(groups[..g], avg, threshold)
      invariant under == UnderloadedOf(groups[..g], avg, threshold)
      invariant NonEmptyGroups(over)
    {
      assert groups[..g + 1][..g] == groups[..g];
      if Overloaded(|groups[g].shards|, avg, threshold) {
        over := over + [groups[g]];
      } else if Underloaded(|groups[g].shards|, avg, threshold) {
        under := under + [groups[g]];
      }
    }
    assert groups[..|groups|] == groups;
    for o := 0 to |over|
      invariant manager.shards == Rebalanced(old(manager.shards), over[..o], under)
    {
      ghost var before := manager.shards;
      for u := 0 to |under|
        invariant manager.shards == if u == 0 then before else Assign(before, over[o].shards[0], under[u - 1].instance)
      {
        manager.AssignShard(over[o].shards[0], under[u].instance);
      }
      assert over[..o + 1][..o] == over[..o];
    }
    assert over[..|over|] == over;
  }

  // ---------------------------------------------------------------------------
  // Who ends up with what
  // ---------------------------------------------------------------------------

  function Firsts(over: seq<Group>): set<nat>
    requires NonEmptyGroups(over)
  {
    if over == [] then {} else Firsts(over[..|over| - 1]) + {over[|over| - 1].shards[0]}
  }

  /** After the moves each shard a group listed first belongs to the target, stale snapshot or not; no other shard changes hands. */
  lemma {:induction false} MovesSetOwners(shards: seq<Shard>, over: seq<Group>, target: Instance, i: nat)
    requires NonEmptyGroups(over) && i < |shards|
    ensures MoveFirsts(shards, over, target)[i].instance == if i in Firsts(over) then Some(target) else shards[i].instance
  {
    if over != [] { MovesSetOwners(shards, over[..|over| - 1], target, i); }
  }

  /** The listed shards that exist. */
  function Moved(shards: seq<Shard>, over: seq<Group>): set<nat>
    requires NonEmptyGroups(over)
  {
    set i | i in Firsts(over) && i < |shards|
  }

  /** The target gains exactly the listed shards it did not own, everybody else loses exactly the listed ones they owned. */
  lemma RebalanceMovesExactly(shards: seq<Shard>, over: seq<Group>, target: Instance, w: Instance)
    requires NonEmptyGroups(over)
    ensures Owned(MoveFirsts(shards, over, target), w)
         == if w == target then Owned(shards, w) + Moved(shards, over) else Owned(shards, w) - Moved(shards, over)
  {
    var after := MoveFirsts(shards, over, target);
    forall i | 0 <= i < |shards|
      ensures after[i].instance == if i in Firsts(over) then Some(target) else shards[i].instance
    {
      MovesSetOwners(shards, over, target, i);
    }
  }

  // ---------------------------------------------------------------------------
  // Others assign shards at the same time
  // ---------------------------------------------------------------------------

  function ToEach(f: nat, under: seq<Group>): seq<Assignment> {
    if under == [] then [] else ToEach(f, under[..|under| - 1]) + [Assignment(f, under[|under| - 1].instance)]
  }

  /** Every assignment a pass makes, in order: each first shard to each underloaded instance in turn. */
  function PassMoves(over: seq<Group>, under: seq<Group>): seq<Assignment>
    requires NonEmptyGroups(over)
  {
    if over == [] then [] else PassMoves(over[..|over| - 1], under) + ToEach(over[|over| - 1].shards[0], under)
  }

  lemma {:induction false} AssignConcat(shards: seq<Shard>, a: seq<Assignment>, b: seq<Assignment>)
    ensures AssignAll(shards, a + b) == AssignAll(AssignAll(shards, a), b)
  {
    if b == [] {
      assert a + b == a;
    } else {
      assert (a + b)[..|a + b| - 1] == a + b[..|b| - 1];
      AssignConcat(shards, a, b[..|b| - 1]);
    }
  }

  lemma {:induction false} LastOfEachStays(shards: seq<Shard>, f: nat, under: seq<Group>)
    ensures AssignAll(shards, ToEach(f, under)) == if under == [] then shards else Assign(shards, f, under[|under| - 1].instance)
  {
    if under != [] {
      var front := ToEach(f, under[..|under| - 1]);
      LastOfEachStays(shards, f, under[..|under| - 1]);
      assert ToEach(f, under)[..|front|] == front;
    }
  }

  /** Alone, those assignments leave what the nested loops leave. */
  lemma {:induction false} PassAlone(shards: seq<Shard>, over: seq<Group>, under: seq<Group>)
    requires NonEmptyGroups(over)
    ensures AssignAll(shards, PassMoves(over, under)) == Rebalanced(shards, over, under)
  {
    if over != [] {
      var front, f := over[..|over| - 1], over[|over| - 1].shards[0];
      PassAlone(shards, front, under);
      AssignConcat(shards, PassMoves(front, under), ToEach(f, under));
      LastOfEachStays(Rebalanced(shards, front, under), f, under);
    }
  }

  /** The last assignment of a shard. */
  function LastMove(moves: seq<Assignment>, i: nat): Option<Assignment> {
    if moves == [] then None
    else if moves[|moves| - 1].shard == i then Some(moves[|moves| - 1])
    else LastMove(moves[..|moves| - 1], i)
  }

  lemma {:induction false} LastWriterOwns(shards: seq<Shard>, moves: seq<Assignment>, i: nat)
    requires i < |shards|
    ensures |AssignAll(shards, moves)| == |shards|
    ensures AssignAll(shards, moves)[i].instance
         == var w := LastMove(moves, i); if w.Some? then Some(w.value.to) else shards[i].instance
    ensures AssignAll(shards, moves)[i].status == if LastMove(moves, i).Some? then Assigned else shards[i].status
  {
    if moves != [] { LastWriterOwns(shards, moves[..|moves| - 1], i); }
  }

  lemma {:induction false} LastMoveConcat(a: seq<Assignment>, b: seq<Assignment>, i: nat)
    ensures LastMove(a + b, i) == if LastMove(b, i).Some? then LastMove(b, i) else LastMove(a, i)
  {
    if b == [] {
      assert a + b == a;
    } else {
      assert (a + b)[..|a + b| - 1] == a + b[..|b| - 1];
      LastMoveConcat(a, b[..|b| - 1], i);
    }
  }

  lemma LastOfEach(f: nat, under: seq<Group>, i: nat)
    requires under != []
    ensures f == i ==> LastMove(ToEach(f, under), i) == Some(Assignment(f, under[|under| - 1].instance))
    ensures f != i ==> LastMove(ToEach(f, under), i) == None
  {
    NoneOfEach(f, under, i);
  }

  lemma {:induction false} NoneOfEach(f: nat, under: seq<Group>, i: nat)
    ensures f != i ==> LastMove(ToEach(f, under), i) == None
  {
    if under != [] {
      var front := ToEach(f, under[..|under| - 1]);
      NoneOfEach(f, under[..|under| - 1], i);
      assert (front + [Assignment(f, under[|under| - 1].instance)])[..|front|] == front;
    }
  }

  /** Of all a pass assigns, the last word on each listed shard is the last underloaded instance. */
  lemma {:induction false} LastWordOfPass(over: seq<Group>, under: seq<Group>, i: nat)
    requires NonEmptyGroups(over) && under != []
    ensures LastMove(PassMoves(over, under), i)
         == if i in Firsts(over) then Some(Assignment(i, under[|under| - 1].instance)) else None
  {
    if over != [] {
      var front, f := over[..|over| - 1], over[|over| - 1].shards[0];
      LastWordOfPass(front, under, i);
      LastOfEach(f, under, i);
      LastMoveConcat(PassMoves(front, under), ToEach(f, under), i);
    }
  }

  /** One assignment in a run of the pass and of others, and whose it is. */
  datatype Write = Write(move: Assignment, mine: bool)

  function MovesOf(ws: seq<Write>): seq<Assignment> {
    if ws == [] then [] else MovesOf(ws[..|ws| - 1]) + [ws[|ws| - 1].move]
  }

  function PassPart(ws: seq<Write>): seq<Assignment> {
    if ws == [] then []
    else if ws[|ws| - 1].mine then PassPart(ws[..|ws| - 1]) + [ws[|ws| - 1].move]
    else PassPart(ws[..|ws| - 1])
  }

  function LastWrite(ws: seq<Write>, i: nat): Option<Write> {
    if ws == [] then None
    else if ws[|ws| - 1].move.shard == i then Some(ws[|ws| - 1])
    else LastWrite(ws[..|ws| - 1], i)
  }

  lemma {:induction false} LastWriteIsLastMove(ws: seq<Write>, i: nat)
    ensures var w := LastWrite(ws, i);
      LastMove(MovesOf(ws), i) == if w.Some? then Some(w.value.move) else None
    ensures var w := LastWrite(ws, i);
      w.Some? && w.value.mine ==> LastMove(PassPart(ws), i) == Some(w.value.move)
    ensures LastWrite(ws, i).None? ==> LastMove(PassPart(ws), i).None?
  {
    if ws != [] {
      var front, last := ws[..|ws| - 1], ws[|ws| - 1];
      LastWriteIsLastMove(front, i);
      assert (MovesOf(front) + [last.move])[..|MovesOf(front)|] == MovesOf(front);
      assert (PassPart(front) + [last.move])[..|PassPart(front)|] == PassPart(front);
    }
  }

  predicate OneOf(move: Assignment, over: seq<Group>, under: seq<Group>)
    requires NonEmptyGroups(over)
  {
    move.shard in Firsts(over) && exists u :: 0 <= u < |under| && move.to == under[u].instance
  }

  lemma {:induction false} EachIsOne(f: nat, under: seq<Group>, k: nat)
    requires k < |ToEach(f, under)|
    ensures ToEach(f, under)[k].shard == f && exists u :: 0 <= u < |under| && ToEach(f, under)[k].to == under[u].instance
  {
    var front := under[..|under| - 1];
    if k < |ToEach(f, front)| {
      EachIsOne(f, front, k);
      var u :| 0 <= u < |front| && ToEach(f, front)[k].to == front[u].instance;
      assert under[u] == front[u];
    } else {
      assert ToEach(f, under)[k].to == under[|under| - 1].instance;
    }
  }

  lemma {:induction false} PassMovesAre(over: seq<Group>, under: seq<Group>, k: nat)
    requires NonEmptyGroups(over) && k < |PassMoves(over, under)|
    ensures OneOf(PassMoves(over, under)[k], over, under)
  {
    var front, f := over[..|over| - 1], over[|over| - 1].shards[0];
    var n := |PassMoves(front, under)|;
    if k < n { PassMovesAre(front, under, k); } else { EachIsOne(f, under, k - n); }
  }

  lemma {:induction false} LastMoveIsMember(moves: seq<Assignment>, i: nat)
    ensures var w := LastMove(moves, i); w.Some? ==> w.value.shard == i && w.value in moves
  {
    if moves != [] { LastMoveIsMember(moves[..|moves| - 1], i); }
  }

  /**
   However a pass, complete or cut short by a failed assignment, interleaves with assignments by others, each
   shard belongs to its last writer; one last written by the pass is a shard it listed, now with one of the
   underloaded instances.
   */
  lemma OwnersAfterInterleaving(shards: seq<Shard>, ws: seq<Write>, over: seq<Group>, under: seq<Group>, i: nat)
    requires NonEmptyGroups(over) && PassPart(ws) <= PassMoves(over, under) && i < |shards|
    ensures |AssignAll(shards, MovesOf(ws))| == |shards|
    ensures var owner, w := AssignAll(shards, MovesOf(ws))[i].instance, LastWrite(ws, i);
      && (w.None? ==> owner == shards[i].instance)
      && (w.Some? ==> owner == Some(w.value.move.to))
      && (w.Some? && w.value.mine ==> w.value.move.shard == i && OneOf(w.value.move, over, under))
  {
    LastWriterOwns(shards, MovesOf(ws), i);
    LastWriteIsLastMove(ws, i);
    LastMoveIsMember(PassPart(ws), i);
    var w := LastWrite(ws, i);
    if w.Some? && w.value.mine {
      var k :| 0 <= k < |PassPart(ws)| && PassPart(ws)[k] == w.value.move;
      PassMovesAre(over, under, k);
    }
  }

  /** After a complete pass, the listed shards it wrote last are with the last underloaded instance. */
  lemma OwnersAfterCompletePass(shards: seq<Shard>, ws: seq<Write>, over: seq<Group>, under: seq<Group>, i: nat)
    requires NonEmptyGroups(over) && under != [] && PassPart(ws) == PassMoves(over, under) && i < |shards|
    ensures |AssignAll(shards, MovesOf(ws))| == |shards|
    ensures var owner, w := AssignAll(shards, MovesOf(ws))[i].instance, LastWrite(ws, i);
      && (w.None? ==> owner == shards[i].instance && i !in Firsts(over))
      && (w.Some? && w.value.mine ==> owner == Some(under[|under| - 1].instance) && i in Firsts(over))
      && (w.Some? && !w.value.mine ==> owner == Some(w.value.move.to))
  {
    LastWriterOwns(shards, MovesOf(ws), i);
    LastWriteIsLastMove(ws, i);
    LastWordOfPass(over, under, i);
  }

  // ---------------------------------------------------------------------------
  // Moves from a fresh snapshot
  // ---------------------------------------------------------------------------

  lemma AssignMovesOne(shards: seq<Shard>, f: nat, o: Instance, u: Instance)
    requires f in Owned(shards, o) && o != u
    ensures var after := Assign(shards, f, u);
      && Owned(after, o) == Owned(shards, o) - {f} && Load(after, o) == Load(shards, o) - 1
      && Owned(after, u) == Owned(shards, u) + {f} && Load(after, u) == Load(shards, u) + 1
  {
    var after := Assign(shards, f, u);
    assert Owned(after, o) == Owned(shards, o) - {f};
    assert Owned(after, u) == Owned(shards, u) + {f};
  }

  lemma AssignLeavesOthers(shards: seq<Shard>, f: nat, o: Instance, u: Instance, w: Instance)
    requires f in Owned(shards, o) && w != o && w != u
    ensures Owned(Assign(shards, f, u), w) == Owned(shards, w)
  {}

  /** The moves a classified snapshot asks for: distinct donors, none of them the target, each giving its first shard. */
  predicate ValidMoves(shards: seq<Shard>, over: seq<Group>, target: Instance) {
    && NonEmptyGroups(over)
    && DistinctInstances(over)
    && (forall g :: 0 <= g < |over| ==> over[g].instance != target && over[g].shards[0] in Owned(shards, over[g].instance))
  }

  predicate Donor(over: seq<Group>, w: Instance) {
    exists g :: 0 <= g < |over| && over[g].instance == w
  }

  lemma {:induction false} BystandersKeepShards(shards: seq<Shard>, over: seq<Group>, target: Instance, w: Instance)
    requires ValidMoves(shards, over, target) && w != target && !Donor(over, w)
    ensures Owned(MoveFirsts(shards, over, target), w) == Owned(shards, w)
  {
    if over != [] {
      var front, last := over[..|over| - 1], over[|over| - 1];
      assert over == front + [last] && last.instance != w;
      assert !Donor(front, w) && !Donor(front, last.instance);
      BystandersKeepShards(shards, front, target, w);
      BystandersKeepShards(shards, front, target, last.instance);
      AssignLeavesOthers(MoveFirsts(shards, front, target), last.shards[0], last.instance, target, w);
    }
  }

  /** Before the last group's move its first shard is still where the snapshot saw it. */
  lemma LastMoveIsReady(shards: seq<Shard>, over: seq<Group>, target: Instance)
    requires ValidMoves(shards, over, target) && over != []
    ensures var front, last := over[..|over| - 1], over[|over| - 1];
      && ValidMoves(shards, front, target) && last.instance != target
      && last.shards[0] in Owned(MoveFirsts(shards, front, target), last.instance)
      && Owned(MoveFirsts(shards, front, target), last.instance) == Owned(shards, last.instance)
  {
    var front, last := over[..|over| - 1], over[|over| - 1];
    assert !Donor(front, last.instance);
    BystandersKeepShards(shards, front, target, last.instance);
  }

  lemma {:induction false} TargetGainsFirsts(shards: seq<Shard>, over: seq<Group>, target: Instance)
    requires ValidMoves(shards, over, target)
    ensures var after := MoveFirsts(shards, over, target);
      Owned(after, target) == Owned(shards, target) + Firsts(over) && Load(after, target) == Load(shards, target) + |over|
  {
    if over != [] {
      var front, last := over[..|over| - 1], over[|over| - 1];
      LastMoveIsReady(shards, over, target);
      TargetGainsFirsts(shards, front, target);
      AssignMovesOne(MoveFirsts(shards, front, target), last.shards[0], last.instance, target);
    }
  }

  // ---------------------------------------------------------------------------
  // Whether it helps: the sum of squared loads
  // ---------------------------------------------------------------------------

  function SumOfSquares(shards: seq<Shard>, insts: seq<Instance>): int {
    if insts == [] then 0
    else
      var load := Load(shards, insts[|insts| - 1]);
      SumOfSquares(shards, insts[..|insts| - 1]) + load * load
  }

  function TotalLoad(shards: seq<Shard>, over: seq<Group>): int {
    if over == [] then 0 else TotalLoad(shards, over[..|over| - 1]) + Load(shards, over[|over| - 1].instance)
  }

  lemma SquareSteps(l: int)
    ensures (l - 1) * (l - 1) == l * l - 2 * l + 1 && (l + 1) * (l + 1) == l * l + 2 * l + 1
  {}

  lemma SquareAfterOneMove(shards: seq<Shard>, f: nat, o: Instance, u: Instance, w: Instance)
    requires f in Owned(shards, o) && o != u
    ensures var load: int := Load(shards, w);
            var after: int := Load(Assign(shards, f, u), w);
      after * after == load * load + if w == o then 1 - 2 * load else if w == u then 2 * load + 1 else 0
  {
    AssignMovesOne(shards, f, o, u);
    SquareSteps(Load(shards, w));
    if w != o && w != u { AssignLeavesOthers(shards, f, o, u, w); }
  }

  lemma {:induction false} SquaresAfterOneMove(shards: seq<Shard>, f: nat, o: Instance, u: Instance, insts: seq<Instance>)
    requires f in Owned(shards, o) && o != u && Distinct(insts)
    ensures SumOfSquares(Assign(shards, f, u), insts) == SumOfSquares(shards, insts)
      + (if o in insts then 1 - 2 * Load(shards, o) else 0) + (if u in insts then 2 * Load(shards, u) + 1 else 0)
  {
    if insts != [] {
      var front, last := insts[..|insts| - 1], insts[|insts| - 1];
      assert insts == front + [last] && last !in front;
      SquaresAfterOneMove(shards, f, o, u, front);
      SquareAfterOneMove(shards, f, o, u, last);
    }
  }

  /** What one assignment does to the sum of squares, given the owners at that moment. */
  function Change(shards: seq<Shard>, move: Assignment, insts: seq<Instance>): int {
    if move.shard >= |shards| || shards[move.shard].instance == Some(move.to) then 0
    else
      var o := shards[move.shard].instance;
      (if o.Some? && o.value in insts then 1 - 2 * Load(shards, o.value) else 0)
      + (if move.to in insts then 2 * Load(shards, move.to) + 1 else 0)
  }

  function Changes(shards: seq<Shard>, moves: seq<Assignment>, insts: seq<Instance>): int {
    if moves == [] then 0
    else
      var front := moves[..|moves| - 1];
      Changes(shards, front, insts) + Change(AssignAll(shards, front), moves[|moves| - 1], insts)
  }

  lemma AssignGains(shards: seq<Shard>, f: nat, u: Instance, w: Instance)
    requires f < |shards| && shards[f].instance == None
    ensures var load: int := Load(shards, w);
            var after: int := Load(Assign(shards, f, u), w);
      after * after == load * load + if w == u then 2 * load + 1 else 0
  {
    var after := Assign(shards, f, u);
    SquareSteps(Load(shards, w));
    if w == u {
      assert Owned(after, u) == Owned(shards, u) + {f};
    } else {
      assert Owned(after, w) == Owned(shards, w);
    }
  }

  lemma {:induction false} SquaresAfterGain(shards: seq<Shard>, f: nat, u: Instance, insts: seq<Instance>)
    requires f < |shards| && shards[f].instance == None && Distinct(insts)
    ensures SumOfSquares(Assign(shards, f, u), insts)
         == SumOfSquares(shards, insts) + if u in insts then 2 * Load(shards, u) + 1 else 0
  {
    if insts != [] {
      var front, last := insts[..|insts| - 1], insts[|insts| - 1];
      assert insts == front + [last] && last !in front;
      SquaresAfterGain(shards, f, u, front);
      AssignGains(shards, f, u, last);
    }
  }

  lemma {:induction false} SameOwnersSameSquares(a: seq<Shard>, b: seq<Shard>, insts: seq<Instance>)
    requires |a| == |b| && forall i :: 0 <= i < |a| ==> a[i].instance == b[i].instance
    ensures SumOfSquares(a, insts) == SumOfSquares(b, insts)
  {
    if insts != [] {
      SameOwnersSameSquares(a, b, insts[..|insts| - 1]);
      assert Owned(a, insts[|insts| - 1]) == Owned(b, insts[|insts| - 1]);
    }
  }

  lemma SquaresAfterMove(shards: seq<Shard>, move: Assignment, insts: seq<Instance>)
    requires Distinct(insts)
    ensures SumOfSquares(Assign(shards, move.shard, move.to), insts) == SumOfSquares(shards, insts) + Change(shards, move, insts)
  {
    if move.shard < |shards| {
      match shards[move.shard].instance {
        case None => SquaresAfterGain(shards, move.shard, move.to, insts);
        case Some(o) =>
          if o == move.to {
            SameOwnersSameSquares(Assign(shards, move.shard, move.to), shards, insts);
          } else {
            SquaresAfterOneMove(shards, move.shard, o, move.to, insts);
          }
      }
    }
  }

  /** Any assignments, by the pass and by others, change the sum of squares by the sum of what each does to the owners it finds. */
  lemma {:induction false} SquaresAfterMoves(shards: seq<Shard>, moves: seq<Assignment>, insts: seq<Instance>)
    requires Distinct(insts)
    ensures SumOfSquares(AssignAll(shards, moves), insts) == SumOfSquares(shards, insts) + Changes(shards, moves, insts)
  {
    if moves != [] {
      var front := moves[..|moves| - 1];
      SquaresAfterMoves(shards, front, insts);
      SquaresAfterMove(AssignAll(shards, front), moves[|moves| - 1], insts);
    }
  }

  /** What the instances other than the target give up when they lose the shards in `moved`. */
  function Given(shards: seq<Shard>, moved: set<nat>, target: Instance, insts: seq<Instance>): int {
    if insts == [] then 0
    else
      var o := insts[|insts| - 1];
      Given(shards, moved, target, insts[..|insts| - 1]) - if o == target then 0 else ChangeOf(shards, moved, target, o)
  }

  function Gained(shards: seq<Shard>, moved: set<nat>, target: Instance): int {
    var gain := |moved - Owned(shards, target)|;
    gain * (2 * Load(shards, target) + gain)
  }

  lemma LoadAfterMoves(shards: seq<Shard>, over: seq<Group>, target: Instance, w: Instance)
    requires NonEmptyGroups(over)
    ensures var moved, load, after := Moved(shards, over), Load(shards, w), Load(MoveFirsts(shards, over, target), w);
      after == if w == target then load + |moved - Owned(shards, w)| else load - |Owned(shards, w) * moved|
  {
    var moved, owned := Moved(shards, over), Owned(shards, w);
    RebalanceMovesExactly(shards, over, target, w);
    if w == target {
      assert owned + moved == owned + (moved - owned);
    } else {
      assert owned == (owned - moved) + (owned * moved);
    }
  }

  lemma SquareOfDifference(load: int, lost: int)
    ensures (load - lost) * (load - lost) == load * load - lost * (2 * load - lost)
    ensures (load + lost) * (load + lost) == load * load + lost * (2 * load + lost)
  {}

  function ChangeOf(shards: seq<Shard>, moved: set<nat>, target: Instance, o: Instance): int {
    var load, lost := Load(shards, o), |Owned(shards, o) * moved|;
    if o == target then Gained(shards, moved, target) else -(lost * (2 * load - lost))
  }

  lemma SquareAfterMoves(shards: seq<Shard>, over: seq<Group>, target: Instance, o: Instance)
    requires NonEmptyGroups(over)
    ensures var load: int := Load(shards, o);
            var after: int := Load(MoveFirsts(shards, over, target), o);
      after * after == load * load + ChangeOf(shards, Moved(shards, over), target, o)
  {
    var moved := Moved(shards, over);
    LoadAfterMoves(shards, over, target, o);
    SquareOfDifference(Load(shards, o), |Owned(shards, o) * moved|);
    SquareOfDifference(Load(shards, o), |moved - Owned(shards, o)|);
  }

  /** The exact change for any groups, stale or not, in terms of who owns the listed shards when the pass moves them. */
  lemma {:induction false} StaleMovesChange(shards: seq<Shard>, over: seq<Group>, target: Instance, insts: seq<Instance>)
    requires NonEmptyGroups(over) && Distinct(insts)
    ensures var moved := Moved(shards, over);
      SumOfSquares(MoveFirsts(shards, over, target), insts)
      == SumOfSquares(shards, insts) + (if target in insts then Gained(shards, moved, target) else 0) - Given(shards, moved, target, insts)
  {
    if insts != [] {
      var front, o := insts[..|insts| - 1], insts[|insts| - 1];
      assert insts == front + [o] && o !in front;
      StaleMovesChange(shards, over, target, front);
      SquareAfterMoves(shards, over, target, o);
    }
  }

  /** So the moves do not raise the sum of squares exactly when what the owners give up covers what the target gains. */
  lemma StaleMovesHelpExactlyWhen(shards: seq<Shard>, over: seq<Group>, target: Instance, insts: seq<Instance>)
    requires NonEmptyGroups(over) && Distinct(insts) && target in insts
    ensures SumOfSquares(MoveFirsts(shards, over, target), insts) <= SumOfSquares(shards, insts)
       <==> Gained(shards, Moved(shards, over), target) <= Given(shards, Moved(shards, over), target, insts)
  {
    StaleMovesChange(shards, over, target, insts);
  }

  /** What k successive arrivals add to the square of a load that starts at t, plus what k departures give back. */
  function PileUp(k: nat, t: int): int {
    if k == 0 then 0 else PileUp(k - 1, t) + 2 * (t + k - 1) + 2
  }

  lemma {:induction false} PileUpClosed(k: nat, t: int)
    ensures PileUp(k, t) == k * (2 * t + k + 1)
  {
    if k > 0 {
      PileUpClosed(k - 1, t);
      assert k * (2 * t + k + 1) == (k - 1) * (2 * t + k) + 2 * (t + k - 1) + 2;
    }
  }

  lemma {:induction false} ChangeInSquares(shards: seq<Shard>, over: seq<Group>, target: Instance, insts: seq<Instance>)
    requires ValidMoves(shards, over, target) && Distinct(insts) && target in insts
    requires forall g :: 0 <= g < |over| ==> over[g].instance in insts
    ensures SumOfSquares(MoveFirsts(shards, over, target), insts)
      == SumOfSquares(shards, insts) + PileUp(|over|, Load(shards, target)) - 2 * TotalLoad(shards, over)
  {
    if over != [] {
      var front, last := over[..|over| - 1], over[|over| - 1];
      ChangeInSquares(shards, front, target, insts);
      TargetGainsFirsts(shards, front, target);
      assert !Donor(front, last.instance);
      BystandersKeepShards(shards, front, target, last.instance);
      SquaresAfterOneMove(MoveFirsts(shards, front, target), last.shards[0], last.instance, target, insts);
    }
  }

  /** The donors are loaded enough, compared with the target, for the moves not to raise the sum of squared loads. */
  predicate WorthMoving(shards: seq<Shard>, over: seq<Group>, target: Instance) {
    |over| * (2 * Load(shards, target) + |over| + 1) <= 2 * TotalLoad(shards, over)
  }

  predicate NotWorse(before: seq<Shard>, after: seq<Shard>, insts: seq<Instance>) {
    SumOfSquares(after, insts) <= SumOfSquares(before, insts)
  }

  /**
   The exact change is k(2T + k + 1) - 2 * (sum of the k donors' loads) for a target of load T, so a
   rebalancing does not raise the sum of squares exactly when the donors' loads cover the pile-up.
   */
  lemma RebalanceHelpsExactlyWhen(shards: seq<Shard>, over: seq<Group>, target: Instance, insts: seq<Instance>)
    requires ValidMoves(shards, over, target) && Distinct(insts) && target in insts
    requires forall g :: 0 <= g < |over| ==> over[g].instance in insts
    ensures SumOfSquares(MoveFirsts(shards, over, target), insts)
      == SumOfSquares(shards, insts) + |over| * (2 * Load(shards, target) + |over| + 1) - 2 * TotalLoad(shards, over)
    ensures NotWorse(shards, MoveFirsts(shards, over, target), insts) <==> WorthMoving(shards, over, target)
  {
    ChangeInSquares(shards, over, target, insts);
    PileUpClosed(|over|, Load(shards, target));
  }

  /** In particular when each donor is at least (k + 1) / 2 above the target. */
  lemma LargeGapsHelp(shards: seq<Shard>, over: seq<Group>, target: Instance, insts: seq<Instance>)
    requires ValidMoves(shards, over, target) && Distinct(insts) && target in insts
    requires forall g :: 0 <= g < |over| ==> over[g].instance in insts
    requires forall g :: 0 <= g < |over| ==>
      2 * (Load(shards, over[g].instance) - Load(shards, target)) >= |over| + 1
    ensures SumOfSquares(MoveFirsts(shards, over, target), insts) <= SumOfSquares(shards, insts)
  {
    TotalAtLeast(shards, over, 2 * Load(shards, target) + |over| + 1);
    RebalanceHelpsExactlyWhen(shards, over, target, insts);
  }

  lemma {:induction false} TotalAtLeast(shards: seq<Shard>, over: seq<Group>, b: int)
    requires forall g :: 0 <= g < |over| ==> 2 * Load(shards, over[g].instance) >= b
    ensures |over| * b <= 2 * TotalLoad(shards, over)
  {
    if over != [] {
      TotalAtLeast(shards, over[..|over| - 1], b);
      assert |over| * b == (|over| - 1) * b + b;
    }
  }

  // ---------------------------------------------------------------------------
  // The classified lists of a snapshot are valid moves
  // ---------------------------------------------------------------------------

  lemma {:induction false} ListsComeFromSnapshot(groups: seq<Group>, avg: real, threshold: real)
    ensures forall x :: x in OverloadedOf(groups, avg, threshold) ==> x in groups && Overloaded(|x.shards|, avg, threshold)
    ensures forall x :: x in UnderloadedOf(groups, avg, threshold) ==> x in groups && Underloaded(|x.shards|, avg, threshold)
  {
    if groups != [] {
      ListsComeFromSnapshot(groups[..|groups| - 1], avg, threshold);
      assert groups == groups[..|groups| - 1] + [groups[|groups| - 1]];
    }
  }

  predicate Increasing(at: seq<nat>) {
    forall j, k :: 0 <= j < k < |at| ==> at[j] < at[k]
  }

  /** `list` is the groups at the positions `at`, in snapshot order. */
  predicate Picks(groups: seq<Group>, list: seq<Group>, at: seq<nat>) {
    && Increasing(at) && |list| == |at|
    && forall k :: 0 <= k < |at| ==> at[k] < |groups| && list[k] == groups[at[k]]
  }

  /** Going one group further, with the group or without it. */
  lemma PickNext(groups: seq<Group>, list: seq<Group>, at: seq<nat>)
    requires groups != [] && Picks(groups[..|groups| - 1], list, at)
    ensures Picks(groups, list, at) && Picks(groups, list + [groups[|groups| - 1]], at + [|groups| - 1])
    ensures |groups| - 1 !in at
  {}

  lemma SameFront(groups: seq<Group>, g: nat, at: seq<nat>, front: seq<nat>, last: bool)
    requires groups != [] && g < |groups| && |groups| - 1 !in front
    requires at == if last then front + [|groups| - 1] else front
    ensures g == |groups| - 1 ==> (g in at <==> last)
    ensures g < |groups| - 1 ==> (g in at <==> g in front) && groups[g] == groups[..|groups| - 1][g]
  {}

  /** The overloaded list is all the overloaded groups, in the order of the snapshot. */
  lemma {:induction false} OverloadedExactly(groups: seq<Group>, avg: real, threshold: real) returns (at: seq<nat>)
    ensures Picks(groups, OverloadedOf(groups, avg, threshold), at)
    ensures forall g :: 0 <= g < |groups| ==> (g in at <==> Overloaded(|groups[g].shards|, avg, threshold))
  {
    at := [];
    if groups != [] {
      var n := |groups| - 1;
      var front := OverloadedExactly(groups[..n], avg, threshold);
      var last := Overloaded(|groups[n].shards|, avg, threshold);
      at := if last then front + [n] else front;
      PickNext(groups, OverloadedOf(groups[..n], avg, threshold), front);
      forall g | 0 <= g < |groups| ensures g in at <==> Overloaded(|groups[g].shards|, avg, threshold) {
        SameFront(groups, g, at, front, last);
      }
    }
  }

  /** The underloaded list is all the underloaded groups, in the order of the snapshot. */
  lemma {:induction false} UnderloadedExactly(groups: seq<Group>, avg: real, threshold: real) returns (at: seq<nat>)
    ensures Picks(groups, UnderloadedOf(groups, avg, threshold), at)
    ensures forall g :: 0 <= g < |groups| ==> (g in at <==> Underloaded(|groups[g].shards|, avg, threshold))
  {
    at := [];
    if groups != [] {
      var n := |groups| - 1;
      var front := UnderloadedExactly(groups[..n], avg, threshold);
      var last := Underloaded(|groups[n].shards|, avg, threshold);
      at := if last then front + [n] else front;
      PickNext(groups, UnderloadedOf(groups[..n], avg, threshold), front);
      forall g | 0 <= g < |groups| ensures g in at <==> Underloaded(|groups[g].shards|, avg, threshold) {
        SameFront(groups, g, at, front, last);
      }
    }
  }

  lemma {:induction false} OverloadedAreDistinct(groups: seq<Group>, avg: real, threshold: real)
    requires DistinctInstances(groups)
    ensures DistinctInstances(OverloadedOf(groups, avg, threshold))
  {
    if groups != [] {
      var front, last := groups[..|groups| - 1], groups[|groups| - 1];
      OverloadedAreDistinct(front, avg, threshold);
      ListsComeFromSnapshot(front, avg, threshold);
      var over := OverloadedOf(front, avg, threshold);
      forall g | 0 <= g < |over| ensures over[g].instance != last.instance {
        assert over[g] in front;
        var i :| 0 <= i < |front| && front[i] == over[g];
        assert groups[i] == front[i];
      }
    }
  }

  /** Whatever the snapshot's order, the lists it is classified into ask for valid moves. */
  lemma SnapshotGivesValidMoves(shards: seq<Shard>, groups: seq<Group>, avg: real, threshold: real)
    requires IsSnapshot(shards, groups) && UnderloadedOf(groups, avg, threshold) != []
    ensures var under := UnderloadedOf(groups, avg, threshold);
      ValidMoves(shards, OverloadedOf(groups, avg, threshold), under[|under| - 1].instance)
  {
    ListsComeFromSnapshot(groups, avg, threshold);
    OverloadedAreDistinct(groups, avg, threshold);
    var over, under := OverloadedOf(groups, avg, threshold), UnderloadedOf(groups, avg, threshold);
    var u := under[|under| - 1];
    assert u in under;
    forall g | 0 <= g < |over|
      ensures over[g].shards != [] && over[g].instance != u.instance
           && over[g].shards[0] in Owned(shards, over[g].instance)
    {
      assert over[g] in over;
      InSnapshot(shards, groups, over[g], u);
    }
  }

  lemma InSnapshot(shards: seq<Shard>, groups: seq<Group>, o: Group, u: Group)
    requires IsSnapshot(shards, groups) && o in groups && u in groups && o != u
    ensures o.shards != [] && o.instance != u.instance && o.shards[0] in Owned(shards, o.instance)
  {
    var i :| 0 <= i < |groups| && groups[i] == o;
    var j :| 0 <= j < |groups| && groups[j] == u;
    assert (if i < j then groups[i].instance != groups[j].instance else groups[j].instance != groups[i].instance);
    assert groups[i].shards[0] in Elements(groups[i].shards);
  }

  lemma GroupsAreInstances(groups: seq<Group>, avg: real, threshold: real, insts: seq<Instance>)
    requires forall g :: 0 <= g < |groups| ==> groups[g].instance in insts
    ensures forall g :: 0 <= g < |OverloadedOf(groups, avg, threshold)| ==> OverloadedOf(groups, avg, threshold)[g].instance in insts
    ensures forall g :: 0 <= g < |UnderloadedOf(groups, avg, threshold)| ==> UnderloadedOf(groups, avg, threshold)[g].instance in insts
  {
    ListsComeFromSnapshot(groups, avg, threshold);
    var over, under := OverloadedOf(groups, avg, threshold), UnderloadedOf(groups, avg, threshold);
    forall g | 0 <= g < |over| ensures over[g].instance in insts { assert over[g] in groups; }
    forall g | 0 <= g < |under| ensures under[g].instance in insts { assert under[g] in groups; }
  }

  lemma ListsHelpExactlyWhen(shards: seq<Shard>, over: seq<Group>, under: seq<Group>, insts: seq<Instance>)
    requires under != [] && ValidMoves(shards, over, under[|under| - 1].instance) && Distinct(insts)
    requires forall g :: 0 <= g < |over| ==> over[g].instance in insts
    requires forall g :: 0 <= g < |under| ==> under[g].instance in insts
    ensures NotWorse(shards, Rebalanced(shards, over, under), insts) <==> WorthMoving(shards, over, under[|under| - 1].instance)
  {
    RebalanceHelpsExactlyWhen(shards, over, under[|under| - 1].instance, insts);
  }

  /** One pass over a fresh snapshot of any ring lowers or keeps the spread exactly when the donors are loaded enough. */
  lemma PassHelpsExactlyWhen(shards: seq<Shard>, groups: seq<Group>, avg: real, threshold: real, insts: seq<Instance>)
    requires IsSnapshot(shards, groups) && Distinct(insts)
    requires forall g :: 0 <= g < |groups| ==> groups[g].instance in insts
    requires UnderloadedOf(groups, avg, threshold) != []
    ensures var over, under := OverloadedOf(groups, avg, threshold), UnderloadedOf(groups, avg, threshold);
      && NonEmptyGroups(over)
      && (NotWorse(shards, Rebalanced(shards, over, under), insts)
          <==> WorthMoving(shards, over, under[|under| - 1].instance))
  {
    var over, under := OverloadedOf(groups, avg, threshold), UnderloadedOf(groups, avg, threshold);
    SnapshotGivesValidMoves(shards, groups, avg, threshold);
    GroupsAreInstances(groups, avg, threshold, insts);
    ListsHelpExactlyWhen(shards, over, under, insts);
  }

  lemma {:induction false} RebalanceKeepsRanges(n: nat, shards: seq<Shard>, over: seq<Group>, target: Instance)
    requires HasRanges(n, shards) && NonEmptyGroups(over)
    ensures HasRanges(n, MoveFirsts(shards, over, target))
  {
    if over != [] { RebalanceKeepsRanges(n, shards, over[..|over| - 1], target); }
  }

  // ---------------------------------------------------------------------------
  // With the default 16 shards and threshold 0.2 a rebalancing can make things worse
  // ---------------------------------------------------------------------------

  /** Any ring of 16 shards, with instances 0..3 owning three each and instances 4..7 one each. */
  function Skewed(ring: seq<Shard>): (r: seq<Shard>)
    requires |ring| == 16
    ensures |r| == 16
  {
    seq(16, i requires 0 <= i < 16 => ring[i].(instance := Some(if i < 12 then i / 3 else i - 8), status := Assigned))
  }

  lemma SkewedOwners(ring: seq<Shard>, w: nat)
    requires |ring| == 16 && w < 8
    ensures Owned(Skewed(ring), w) == if w < 4 then {3 * w, 3 * w + 1, 3 * w + 2} else {w + 8}
    ensures Load(Skewed(ring), w) == if w < 4 then 3 else 1
  {
    if w < 4 {
      assert Owned(Skewed(ring), w) == {3 * w, 3 * w + 1, 3 * w + 2};
    } else {
      assert Owned(Skewed(ring), w) == {w + 8};
    }
  }

  function Heavy(): seq<Group> {
    seq(4, g requires 0 <= g < 4 => Group(g, [3 * g, 3 * g + 1, 3 * g + 2]))
  }

  function Light(): seq<Group> {
    seq(4, g requires 0 <= g < 4 => Group(g + 4, [g + 12]))
  }

  function Everyone(): seq<Instance> {
    seq(8, w requires 0 <= w < 8 => w)
  }

  lemma SkewedSnapshot(ring: seq<Shard>)
    requires |ring| == 16
    ensures IsSnapshot(Skewed(ring), Heavy() + Light())
  {
    var groups := Heavy() + Light();
    forall g | 0 <= g < 8
      ensures groups[g].instance == g && groups[g].shards != [] && Distinct(groups[g].shards)
           && Elements(groups[g].shards) == Owned(Skewed(ring), groups[g].instance)
    {
      SkewedOwners(ring, g);
      if g < 4 {
        assert groups[g].shards == [3 * g, 3 * g + 1, 3 * g + 2];
      } else {
        assert groups[g].shards == [g + 8];
      }
    }
  }

  lemma {:induction false} AllOverloaded(a: seq<Group>, avg: real, threshold: real)
    requires forall g :: 0 <= g < |a| ==> Overloaded(|a[g].shards|, avg, threshold) && !Underloaded(|a[g].shards|, avg, threshold)
    ensures OverloadedOf(a, avg, threshold) == a && UnderloadedOf(a, avg, threshold) == []
  {
    if a != [] {
      AllOverloaded(a[..|a| - 1], avg, threshold);
      assert a == a[..|a| - 1] + [a[|a| - 1]];
    }
  }

  lemma {:induction false} ThenUnderloaded(a: seq<Group>, b: seq<Group>, avg: real, threshold: real)
    requires forall g :: 0 <= g < |a| ==> Overloaded(|a[g].shards|, avg, threshold) && !Underloaded(|a[g].shards|, avg, threshold)
    requires forall g :: 0 <= g < |b| ==> Underloaded(|b[g].shards|, avg, threshold) && !Overloaded(|b[g].shards|, avg, threshold)
    ensures OverloadedOf(a + b, avg, threshold) == a && UnderloadedOf(a + b, avg, threshold) == b
  {
    if b == [] {
      assert a + b == a;
      AllOverloaded(a, avg, threshold);
    } else {
      var front := b[..|b| - 1];
      assert (a + b)[..|a + b| - 1] == a + front;
      ThenUnderloaded(a, front, avg, threshold);
      assert b == front + [b[|b| - 1]];
    }
  }

  /** The pass finds exactly the four heavy instances overloaded and the four light ones underloaded. */
  lemma SkewedLists()
    ensures OverloadedOf(Heavy() + Light(), 16.0 / 8.0, 0.2) == Heavy()
    ensures UnderloadedOf(Heavy() + Light(), 16.0 / 8.0, 0.2) == Light()
  {
    ThenUnderloaded(Heavy(), Light(), 16.0 / 8.0, 0.2);
  }

  lemma {:induction false} TotalOfEqual(shards: seq<Shard>, over: seq<Group>, l: int)
    requires forall g :: 0 <= g < |over| ==> Load(shards, over[g].instance) == l
    ensures TotalLoad(shards, over) == |over| * l
  {
    if over != [] {
      TotalOfEqual(shards, over[..|over| - 1], l);
      assert |over| * l == (|over| - 1) * l + l;
    }
  }

  lemma SkewedMoves(ring: seq<Shard>)
    requires |ring| == 16
    ensures ValidMoves(Skewed(ring), Heavy(), 7)
    ensures SumOfSquares(MoveFirsts(Skewed(ring), Heavy(), 7), Everyone()) == SumOfSquares(Skewed(ring), Everyone()) + 4
  {
    forall g | 0 <= g < 4
      ensures Heavy()[g].shards[0] in Owned(Skewed(ring), Heavy()[g].instance) && Load(Skewed(ring), Heavy()[g].instance) == 3
    {
      SkewedOwners(ring, g);
    }
    TotalOfEqual(Skewed(ring), Heavy(), 3);
    SkewedOwners(ring, 7);
    assert Everyone()[7] == 7;
    assert forall g :: 0 <= g < 4 ==> Everyone()[g] == Heavy()[g].instance;
    RebalanceHelpsExactlyWhen(Skewed(ring), Heavy(), 7, Everyone());
  }

  /**
   A whole pass that makes things worse, on any ring of 16 shards at the default threshold: all four heavy
   instances give their first shard to the last light one, which ends up with five.
   */
  lemma RebalanceCanWorsen(ring: seq<Shard>)
    requires |ring| == 16
    ensures HasRanges(16, ring) ==> HasRanges(16, Skewed(ring))
    ensures IsSnapshot(Skewed(ring), Heavy() + Light())
    ensures var avg := Average(Skewed(ring), Heavy() + Light());
            var over, under := OverloadedOf(Heavy() + Light(), avg, 0.2), UnderloadedOf(Heavy() + Light(), avg, 0.2);
      && NonEmptyGroups(over)
      && SumOfSquares(Rebalanced(Skewed(ring), over, under), Everyone()) == SumOfSquares(Skewed(ring), Everyone()) + 4
  {
    SkewedSnapshot(ring);
    SkewedLists();
    SkewedMoves(ring);
    assert Average(Skewed(ring), Heavy() + Light()) == 16.0 / 8.0;
    assert Light()[3].instance == 7;
  }
}
