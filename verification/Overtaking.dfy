/**
 When overtaking flush tasks matter: requests are followed by the slot in which they arrived, so that one
 schedule can be compared with arrival order for every choice of what the requests say.
 */
module Overtaking {
  import opened Counting
  import opened Domain
  import opened EventStore
  import opened Batching

  // ---------------------------------------------------------------------------
  // Orders of slots
  // ---------------------------------------------------------------------------

  lemma {:induction false} UptoOnce(n: nat, x: nat)
    ensures multiset(Upto(n))[x] == if x < n then 1 else 0
  {
    if n > 0 { UptoOnce(n - 1, x); }
  }

  predicate InRange(slots: seq<nat>, n: nat) {
    forall j :: 0 <= j < |slots| ==> slots[j] < n
  }

  /** Every slot below n, once. */
  predicate IsOrder(slots: seq<nat>, n: nat) {
    multiset(slots) == multiset(Upto(n))
  }

  lemma OrderHas(slots: seq<nat>, n: nat, x: nat)
    requires IsOrder(slots, n)
    ensures x in slots <==> x < n
  {
    UptoOnce(n, x);
    assert x in slots <==> x in multiset(slots);
  }

  lemma OrderInRange(slots: seq<nat>, n: nat)
    requires IsOrder(slots, n)
    ensures InRange(slots, n) && |slots| == n
  {
    UptoIs(n);
    assert |multiset(slots)| == |multiset(Upto(n))|;
    forall j | 0 <= j < |slots| ensures slots[j] < n {
      assert slots[j] in slots;
      OrderHas(slots, n, slots[j]);
    }
  }

  lemma OrderIsDistinct(slots: seq<nat>, n: nat, i: nat, j: nat)
    requires IsOrder(slots, n) && i < j < |slots|
    ensures slots[i] != slots[j]
  {
    UptoOnce(n, slots[j]);
    var before, after := slots[..j], slots[j + 1..];
    assert slots == before + [slots[j]] + after;
    assert multiset(slots) == multiset(before) + multiset{slots[j]} + multiset(after);
    assert before[i] == slots[i];
    assert slots[i] in multiset(before);
  }

  function Pick<T>(xs: seq<T>, slots: seq<nat>): seq<T>
    requires InRange(slots, |xs|)
  {
    if slots == [] then [] else Pick(xs, slots[..|slots| - 1]) + [xs[slots[|slots| - 1]]]
  }

  lemma {:induction false} PickAt<T>(xs: seq<T>, slots: seq<nat>)
    requires InRange(slots, |xs|)
    ensures |Pick(xs, slots)| == |slots| && forall j :: 0 <= j < |slots| ==> Pick(xs, slots)[j] == xs[slots[j]]
  {
    if slots != [] { PickAt(xs, slots[..|slots| - 1]); }
  }

  lemma PickUpto<T>(xs: seq<T>)
    ensures InRange(Upto(|xs|), |xs|) && Pick(xs, Upto(|xs|)) == xs
  {
    UptoIs(|xs|);
    PickAt(xs, Upto(|xs|));
  }

  lemma PickMore<T>(xs: seq<T>, x: T, slots: seq<nat>)
    requires InRange(slots, |xs|)
    ensures InRange(slots, |xs + [x]|) && Pick(xs + [x], slots) == Pick(xs, slots)
  {
    PickAt(xs, slots);
    PickAt(xs + [x], slots);
  }

  // ---------------------------------------------------------------------------
  // Exactly the orders that keep each account's own order are harmless
  // ---------------------------------------------------------------------------

  predicate Fits(ids: seq<Uuid>, reqs: seq<Request>) {
    |reqs| == |ids| && forall i :: 0 <= i < |ids| ==> reqs[i].id == ids[i] && Queued(reqs[i])
  }

  /** Slots of the same account stand in slot order. */
  predicate KeepsOrder(ids: seq<Uuid>, slots: seq<nat>)
    requires InRange(slots, |ids|)
  {
    forall a, b :: 0 <= a < b < |slots| && ids[slots[a]] == ids[slots[b]] ==> slots[a] < slots[b]
  }

  ghost predicate SameOutcome(t: Table, replies: seq<Reply>, u: Table, others: seq<Reply>) {
    forall id :: Rows(t, id) == Rows(u, id) && RepliesOf(replies, id) == RepliesOf(others, id)
  }

  ghost predicate Agree(reading: Reading, t: Table, xs: seq<Request>, ys: seq<Request>) {
    var a, b := OneAtATime(reading, t, xs), OneAtATime(reading, t, ys);
    SameOutcome(a.0, a.1, b.0, b.1)
  }

  /** Whatever the requests say and whatever is stored, this order gives what slot order gives. */
  ghost predicate Harmless(ids: seq<Uuid>, slots: seq<nat>)
    requires InRange(slots, |ids|)
  {
    forall t, reqs :: Fits(ids, reqs) ==> Agree(AsMeant, t, Pick(reqs, slots), reqs)
  }

  predicate Increasing(s: seq<nat>) {
    forall i, j :: 0 <= i < j < |s| ==> s[i] < s[j]
  }

  lemma {:induction false} IncreasingIsUnique(a: seq<nat>, b: seq<nat>)
    requires Increasing(a) && Increasing(b) && forall x :: x in a <==> x in b
    ensures a == b
  {
    if a == [] {
      SomethingOrEmpty(b);
    } else {
      var m, x := |a| - 1, a[|a| - 1];
      assert x in b && b != [];
      var n, y := |b| - 1, b[|b| - 1];
      assert y in a;
      assert x == y;
      forall z ensures z in a[..m] <==> z in b[..n] {
        FrontHas(a, z);
        FrontHas(b, z);
      }
      IncreasingIsUnique(a[..m], b[..n]);
      assert a == a[..m] + [x] && b == b[..n] + [y];
    }
  }

  lemma SomethingOrEmpty(s: seq<nat>)
    ensures s == [] || exists x :: x in s
  {
    if s != [] { assert s[0] in s; }
  }

  lemma FrontHas(a: seq<nat>, z: nat)
    requires a != [] && Increasing(a)
    ensures z in a[..|a| - 1] <==> z in a && z != a[|a| - 1]
  {
    var m := |a| - 1;
    assert a == a[..m] + [a[m]];
    if z in a[..m] {
      var i :| 0 <= i < m && a[..m][i] == z;
      assert a[i] < a[m];
    }
  }

  /** The slots of one account, in the order given. */
  function SlotsOf(ids: seq<Uuid>, slots: seq<nat>, id: Uuid): seq<nat>
    requires InRange(slots, |ids|)
  {
    if slots == [] then []
    else
      var front, last := SlotsOf(ids, slots[..|slots| - 1], id), slots[|slots| - 1];
      if ids[last] == id then front + [last] else front
  }

  lemma {:induction false} SlotsOfHas(ids: seq<Uuid>, slots: seq<nat>, id: Uuid, x: nat)
    requires InRange(slots, |ids|)
    ensures x in SlotsOf(ids, slots, id) <==> x in slots && x < |ids| && ids[x] == id
  {
    if slots != [] {
      SlotsOfHas(ids, slots[..|slots| - 1], id, x);
      assert slots == slots[..|slots| - 1] + [slots[|slots| - 1]];
    }
  }

  lemma {:induction false} SlotsOfIncrease(ids: seq<Uuid>, slots: seq<nat>, id: Uuid)
    requires InRange(slots, |ids|) && KeepsOrder(ids, slots)
    ensures Increasing(SlotsOf(ids, slots, id))
  {
    if slots != [] {
      var front, last := slots[..|slots| - 1], slots[|slots| - 1];
      SlotsOfIncrease(ids, front, id);
      var own := SlotsOf(ids, front, id);
      if ids[last] == id {
        forall i | 0 <= i < |own| ensures own[i] < last {
          assert own[i] in own;
          SlotsOfHas(ids, front, id, own[i]);
          var a :| 0 <= a < |front| && front[a] == own[i];
          assert slots[a] == own[i];
        }
      }
    }
  }

  lemma {:induction false} OfPicked(ids: seq<Uuid>, reqs: seq<Request>, slots: seq<nat>, id: Uuid)
    requires InRange(slots, |ids|) && Fits(ids, reqs)
    ensures InRange(SlotsOf(ids, slots, id), |reqs|)
    ensures Of(Pick(reqs, slots), id) == Pick(reqs, SlotsOf(ids, slots, id))
  {
    if slots != [] {
      var front, last := slots[..|slots| - 1], slots[|slots| - 1];
      OfPicked(ids, reqs, front, id);
      var picked, own := Pick(reqs, front), SlotsOf(ids, front, id);
      assert (picked + [reqs[last]])[..|picked|] == picked;
      if ids[last] == id { assert (own + [last])[..|own|] == own; }
    }
  }

  lemma KeptOrderIsHarmless(reading: Reading, t: Table, ids: seq<Uuid>, reqs: seq<Request>, slots: seq<nat>)
    requires IsOrder(slots, |ids|) && InRange(slots, |ids|) && KeepsOrder(ids, slots) && Fits(ids, reqs)
    ensures Agree(reading, t, Pick(reqs, slots), reqs)
  {
    var all := Upto(|ids|);
    UptoIs(|ids|);
    PickUpto(reqs);
    forall id ensures Of(Pick(reqs, slots), id) == Of(reqs, id) {
      OfPicked(ids, reqs, slots, id);
      OfPicked(ids, reqs, all, id);
      SlotsOfIncrease(ids, slots, id);
      SlotsOfIncrease(ids, all, id);
      forall x ensures x in SlotsOf(ids, slots, id) <==> x in SlotsOf(ids, all, id) {
        SlotsOfHas(ids, slots, id, x);
        SlotsOfHas(ids, all, id, x);
        OrderHas(slots, |ids|, x);
        OrderHas(all, |ids|, x);
      }
      IncreasingIsUnique(SlotsOf(ids, slots, id), SlotsOf(ids, all, id));
    }
    OrderMattersOnlyWithinAccounts(reading, t, Pick(reqs, slots), reqs);
  }

  // The other direction: two saves at version 0 among saves that are all refused.

  predicate Refused(r: Request) {
    r.expected == -1 && Queued(r)
  }

  lemma {:induction false} RefusedLeaveNothing(reqs: seq<Request>)
    requires forall i :: 0 <= i < |reqs| ==> Refused(reqs[i])
    ensures OneAtATime(AsMeant, map[], reqs).0 == map[]
  {
    if reqs != [] {
      RefusedLeaveNothing(reqs[..|reqs| - 1]);
      AsMeantExact(map[], reqs[|reqs| - 1]);
    }
  }

  lemma FirstIsStored(id: Uuid, e: AccountEvent)
    ensures Process(AsMeant, map[], Request(id, [e], 0, true)).0 == map[id := [Row(1, e)]]
  {
    var r := Request(id, [e], 0, true);
    assert Prepare(r) == [Row(1, e)];
    AsMeantExact(map[], r);
    assert Rows(map[], id) + Prepare(r) == [Row(1, e)];
  }

  lemma LaterAreRefused(t: Table, id: Uuid, e: AccountEvent, r: Request)
    requires t == map[id := [Row(1, e)]] && (Refused(r) || (Queued(r) && r.id == id && r.expected == 0))
    ensures Process(AsMeant, t, r).0 == t
  {
    assert NumberedTable(t);
    AsMeantExact(t, r);
  }

  /** All before slot k are refused; it saves at version 0; the later ones are refused or want the same version. */
  predicate FirstAt(reqs: seq<Request>, k: nat, id: Uuid, e: AccountEvent) {
    && k < |reqs| && reqs[k] == Request(id, [e], 0, true)
    && (forall i :: 0 <= i < k ==> Refused(reqs[i]))
    && (forall i :: k < i < |reqs| ==> Refused(reqs[i]) || (Queued(reqs[i]) && reqs[i].id == id && reqs[i].expected == 0))
  }

  lemma {:induction false} FirstSaverWins(reqs: seq<Request>, k: nat, id: Uuid, e: AccountEvent)
    requires FirstAt(reqs, k, id, e)
    ensures OneAtATime(AsMeant, map[], reqs).0 == map[id := [Row(1, e)]]
  {
    var front, last := reqs[..|reqs| - 1], reqs[|reqs| - 1];
    if k == |reqs| - 1 {
      RefusedLeaveNothing(front);
      FirstIsStored(id, e);
    } else {
      FirstSaverWins(front, k, id, e);
      LaterAreRefused(map[id := [Row(1, e)]], id, e, last);
    }
  }

  function Rival(id: Uuid, i: nat, p: nat, q: nat): Request {
    Request(id, [AccountClosed(0, if i == p then "p" else "q")], if i == p || i == q then 0 else -1, true)
  }

  /** Slots p and q save different events at version 0; all others are refused. */
  function Rivals(ids: seq<Uuid>, p: nat, q: nat): (reqs: seq<Request>)
    ensures |reqs| == |ids| && forall i :: 0 <= i < |ids| ==> reqs[i] == Rival(ids[i], i, p, q)
  {
    seq(|ids|, i requires 0 <= i < |ids| => Rival(ids[i], i, p, q))
  }

  lemma FirstRivalWins(ids: seq<Uuid>, p: nat, q: nat)
    requires p < q < |ids| && ids[p] == ids[q]
    ensures Rows(OneAtATime(AsMeant, map[], Rivals(ids, p, q)).0, ids[p]) == [Row(1, AccountClosed(0, "p"))]
  {
    FirstSaverWins(Rivals(ids, p, q), p, ids[p], AccountClosed(0, "p"));
  }

  lemma SwappedRivalIsFirst(ids: seq<Uuid>, slots: seq<nat>, a: nat, b: nat)
    requires IsOrder(slots, |ids|) && InRange(slots, |ids|) && a < b < |slots|
    requires ids[slots[a]] == ids[slots[b]] && slots[b] < slots[a]
    ensures FirstAt(Pick(Rivals(ids, slots[b], slots[a]), slots), a, ids[slots[b]], AccountClosed(0, "q"))
  {
    var p, q := slots[b], slots[a];
    var reqs := Rivals(ids, p, q);
    PickAt(reqs, slots);
    forall j | 0 <= j < a ensures Refused(Pick(reqs, slots)[j]) {
      OrderIsDistinct(slots, |ids|, j, a);
      OrderIsDistinct(slots, |ids|, j, b);
    }
  }

  lemma SwappedRivalWins(ids: seq<Uuid>, slots: seq<nat>, a: nat, b: nat)
    requires IsOrder(slots, |ids|) && InRange(slots, |ids|) && a < b < |slots|
    requires ids[slots[a]] == ids[slots[b]] && slots[b] < slots[a]
    ensures Rows(OneAtATime(AsMeant, map[], Pick(Rivals(ids, slots[b], slots[a]), slots)).0, ids[slots[b]])
         == [Row(1, AccountClosed(0, "q"))]
  {
    SwappedRivalIsFirst(ids, slots, a, b);
    FirstSaverWins(Pick(Rivals(ids, slots[b], slots[a]), slots), a, ids[slots[b]], AccountClosed(0, "q"));
  }

  lemma SwappedRivalsDiffer(ids: seq<Uuid>, slots: seq<nat>, a: nat, b: nat)
    requires IsOrder(slots, |ids|) && InRange(slots, |ids|) && a < b < |slots|
    requires ids[slots[a]] == ids[slots[b]] && slots[b] < slots[a]
    ensures var reqs := Rivals(ids, slots[b], slots[a]);
      Fits(ids, reqs) && !Agree(AsMeant, map[], Pick(reqs, slots), reqs)
  {
    FirstRivalWins(ids, slots[b], slots[a]);
    SwappedRivalWins(ids, slots, a, b);
    assert Row(1, AccountClosed(0, "p")) != Row(1, AccountClosed(0, "q"));
  }

  /** An order of slots is harmless for every choice of requests exactly when it keeps the order within each account. */
  lemma HarmlessExactlyWhen(ids: seq<Uuid>, slots: seq<nat>)
    requires IsOrder(slots, |ids|)
    ensures InRange(slots, |ids|)
    ensures Harmless(ids, slots) <==> KeepsOrder(ids, slots)
  {
    OrderInRange(slots, |ids|);
    if KeepsOrder(ids, slots) {
      forall t, reqs | Fits(ids, reqs) ensures Agree(AsMeant, t, Pick(reqs, slots), reqs) {
        KeptOrderIsHarmless(AsMeant, t, ids, reqs, slots);
      }
    } else {
      var a, b :| 0 <= a < b < |slots| && ids[slots[a]] == ids[slots[b]] && slots[a] >= slots[b];
      OrderIsDistinct(slots, |ids|, a, b);
      SwappedRivalsDiffer(ids, slots, a, b);
    }
  }

  // ---------------------------------------------------------------------------
  // The order a schedule produces
  // ---------------------------------------------------------------------------

  /** The writer with slots in place of requests. */
  datatype Slots = Slots(arrived: nat, pending: seq<nat>, spawned: seq<seq<nat>>, answered: seq<nat>)

  function SlotStep(batchSize: nat, z: Slots, op: Op): Slots {
    match op
    case Arrive(req) =>
      if !Queued(req) then z
      else
        var batch := z.pending + [z.arrived];
        if |batch| >= batchSize
        then z.(arrived := z.arrived + 1, pending := [], spawned := z.spawned + [batch])
        else z.(arrived := z.arrived + 1, pending := batch)
    case Tick => if z.pending == [] then z else z.(pending := [], spawned := z.spawned + [z.pending])
    case Flush(k) =>
      if k >= |z.spawned| || z.spawned[k] == [] then z
      else z.(spawned := z.spawned[k := z.spawned[k][1..]], answered := z.answered + [z.spawned[k][0]])
  }

  function SlotRun(batchSize: nat, ops: seq<Op>): Slots {
    if ops == [] then Slots(0, [], [], []) else SlotStep(batchSize, SlotRun(batchSize, ops[..|ops| - 1]), ops[|ops| - 1])
  }

  ghost predicate Follows(w: Writer, z: Slots) {
    && |w.received| == z.arrived && |w.spawned| == |z.spawned|
    && Holds(w.received, z.pending, w.pending)
    && Holds(w.received, z.answered, Answered(w.replies))
    && (forall k :: 0 <= k < |z.spawned| ==> Holds(w.received, z.spawned[k], w.spawned[k]))
  }

  predicate Holds(received: seq<Request>, slots: seq<nat>, reqs: seq<Request>) {
    InRange(slots, |received|) && Pick(received, slots) == reqs
  }

  lemma HoldsMore(received: seq<Request>, r: Request, slots: seq<nat>, reqs: seq<Request>)
    requires Holds(received, slots, reqs)
    ensures Holds(received + [r], slots, reqs)
  {
    PickMore(received, r, slots);
  }

  lemma HoldsSnoc(received: seq<Request>, slots: seq<nat>, reqs: seq<Request>, i: nat)
    requires Holds(received, slots, reqs) && i < |received|
    ensures Holds(received, slots + [i], reqs + [received[i]])
  {
    assert (slots + [i])[..|slots|] == slots;
  }

  lemma HoldsHead(received: seq<Request>, slots: seq<nat>, reqs: seq<Request>)
    requires Holds(received, slots, reqs)
    ensures |slots| == |reqs|
    ensures slots != [] ==> reqs[0] == received[slots[0]] && Holds(received, slots[1..], reqs[1..])
  {
    PickAt(received, slots);
    if slots != [] { PickAt(received, slots[1..]); }
  }

  lemma ReceiveFollows(batchSize: nat, w: Writer, z: Slots, req: Request)
    requires Follows(w, z) && Queued(req)
    ensures Follows(Receive(w, batchSize, req), SlotStep(batchSize, z, Arrive(req)))
  {
    var more := w.received + [req];
    HoldsMore(w.received, req, z.pending, w.pending);
    HoldsMore(w.received, req, z.answered, Answered(w.replies));
    forall k | 0 <= k < |z.spawned| ensures Holds(more, z.spawned[k], w.spawned[k]) {
      HoldsMore(w.received, req, z.spawned[k], w.spawned[k]);
    }
    HoldsSnoc(more, z.pending, w.pending, z.arrived);
    HoldsHead(more, z.pending, w.pending);
    assert Holds(more, [], []);
  }

  lemma TimeoutFollows(batchSize: nat, w: Writer, z: Slots)
    requires Follows(w, z)
    ensures Follows(Timeout(w), SlotStep(batchSize, z, Tick))
  {
    HoldsHead(w.received, z.pending, w.pending);
    assert Holds(w.received, [], []);
  }

  lemma FlushFollows(reading: Reading, batchSize: nat, w: Writer, z: Slots, k: nat)
    requires Follows(w, z)
    ensures Follows(FlushHead(reading, w, k), SlotStep(batchSize, z, Flush(k)))
  {
    if k < |z.spawned| {
      HoldsHead(w.received, z.spawned[k], w.spawned[k]);
      if z.spawned[k] != [] {
        var w' := FlushHead(reading, w, k);
        AnsweredSnoc(w.replies, w'.replies[|w.replies|]);
        HoldsSnoc(w.received, z.answered, Answered(w.replies), z.spawned[k][0]);
      }
    }
  }

  lemma {:induction false} RunFollows(reading: Reading, batchSize: nat, t: Table, ops: seq<Op>)
    ensures Follows(Run(reading, batchSize, t, ops), SlotRun(batchSize, ops))
  {
    if ops == [] {
      assert Answered([]) == [];
      assert Holds([], [], []);
    } else {
      var front := ops[..|ops| - 1];
      var w, z := Run(reading, batchSize, t, front), SlotRun(batchSize, front);
      RunFollows(reading, batchSize, t, front);
      match ops[|ops| - 1] {
        case Arrive(req) => if Queued(req) { ReceiveFollows(batchSize, w, z, req); }
        case Tick => TimeoutFollows(batchSize, w, z);
        case Flush(k) => FlushFollows(reading, batchSize, w, z, k);
      }
    }
  }

  function SlotBag(z: Slots): multiset<nat> {
    multiset(z.answered) + multiset(Flatten(z.spawned)) + multiset(z.pending)
  }

  predicate SlotsConserved(z: Slots) {
    multiset(Upto(z.arrived)) == SlotBag(z)
  }

  lemma UptoBag(n: nat)
    ensures multiset(Upto(n + 1)) == multiset(Upto(n)) + multiset{n}
  {}

  lemma SpawnBag(spawned: seq<seq<nat>>, pending: seq<nat>, x: nat)
    ensures multiset(Flatten(spawned + [pending + [x]])) == multiset(Flatten(spawned)) + multiset(pending) + multiset{x}
    ensures multiset(pending + [x]) == multiset(pending) + multiset{x}
  {
    FlattenSnoc(spawned, pending + [x]);
  }

  lemma ArrivalBag(batchSize: nat, z: Slots, req: Request)
    requires Queued(req)
    ensures SlotBag(SlotStep(batchSize, z, Arrive(req))) == SlotBag(z) + multiset{z.arrived}
  {
    SpawnBag(z.spawned, z.pending, z.arrived);
  }

  lemma OneMoreConserved(z: Slots, z': Slots)
    requires SlotsConserved(z) && z'.arrived == z.arrived + 1 && SlotBag(z') == SlotBag(z) + multiset{z.arrived}
    ensures SlotsConserved(z')
  {
    UptoBag(z.arrived);
  }

  lemma ArrivalConserves(batchSize: nat, z: Slots, req: Request)
    requires SlotsConserved(z)
    ensures SlotsConserved(SlotStep(batchSize, z, Arrive(req)))
  {
    if Queued(req) {
      ArrivalBag(batchSize, z, req);
      OneMoreConserved(z, SlotStep(batchSize, z, Arrive(req)));
    }
  }

  lemma FlushConservesSlots(batchSize: nat, z: Slots, k: nat)
    requires SlotsConserved(z) && k < |z.spawned| && z.spawned[k] != []
    ensures SlotsConserved(SlotStep(batchSize, z, Flush(k)))
  {
    FlattenTake(z.spawned, k);
    assert multiset(z.answered + [z.spawned[k][0]]) == multiset(z.answered) + multiset{z.spawned[k][0]};
  }

  lemma SlotStepConserves(batchSize: nat, z: Slots, op: Op)
    requires SlotsConserved(z)
    ensures SlotsConserved(SlotStep(batchSize, z, op))
  {
    match op {
      case Arrive(req) => ArrivalConserves(batchSize, z, req);
      case Tick => FlattenSnoc(z.spawned, z.pending);
      case Flush(k) => if k < |z.spawned| && z.spawned[k] != [] { FlushConservesSlots(batchSize, z, k); }
    }
  }

  lemma {:induction false} RunConservesSlots(batchSize: nat, ops: seq<Op>)
    ensures SlotsConserved(SlotRun(batchSize, ops))
  {
    if ops != [] {
      RunConservesSlots(batchSize, ops[..|ops| - 1]);
      SlotStepConserves(batchSize, SlotRun(batchSize, ops[..|ops| - 1]), ops[|ops| - 1]);
    }
  }

  /** Everything that arrived has been answered. */
  predicate Drained(z: Slots) {
    |z.answered| == z.arrived
  }

  lemma DrainedIsOrder(batchSize: nat, ops: seq<Op>)
    requires Drained(SlotRun(batchSize, ops))
    ensures var z := SlotRun(batchSize, ops); IsOrder(z.answered, z.arrived)
  {
    var z := SlotRun(batchSize, ops);
    RunConservesSlots(batchSize, ops);
    UptoIs(z.arrived);
    assert |multiset(Upto(z.arrived))| == |multiset(z.answered)| + |multiset(Flatten(z.spawned)) + multiset(z.pending)|;
    assert multiset(Flatten(z.spawned)) + multiset(z.pending) == multiset{};
  }

  // ---------------------------------------------------------------------------
  // Schedules: the same arrivals, timeouts and flushes with other requests
  // ---------------------------------------------------------------------------

  function Accounts(reqs: seq<Request>): (ids: seq<Uuid>)
    ensures |ids| == |reqs| && forall i :: 0 <= i < |reqs| ==> ids[i] == reqs[i].id
  {
    seq(|reqs|, i requires 0 <= i < |reqs| => reqs[i].id)
  }

  /** The requests that a schedule queues. */
  function Arrivals(ops: seq<Op>): seq<Request> {
    if ops == [] then []
    else
      var front, last := Arrivals(ops[..|ops| - 1]), ops[|ops| - 1];
      if last.Arrive? && Queued(last.req) then front + [last.req] else front
  }

  lemma {:induction false} ArrivalsAreReceived(reading: Reading, batchSize: nat, t: Table, ops: seq<Op>)
    ensures Run(reading, batchSize, t, ops).received == Arrivals(ops)
    ensures SlotRun(batchSize, ops).arrived == |Arrivals(ops)|
    ensures forall i :: 0 <= i < |Arrivals(ops)| ==> Queued(Arrivals(ops)[i])
  {
    if ops != [] { ArrivalsAreReceived(reading, batchSize, t, ops[..|ops| - 1]); }
  }

  /** The same schedule with the i-th queued request replaced by `reqs[i]`. */
  function Refill(ops: seq<Op>, reqs: seq<Request>): seq<Op>
    requires |Arrivals(ops)| <= |reqs|
  {
    if ops == [] then []
    else
      var front, last := ops[..|ops| - 1], ops[|ops| - 1];
      Refill(front, reqs) + [if last.Arrive? && Queued(last.req) then Arrive(reqs[|Arrivals(front)|]) else last]
  }

  predicate AllQueued(reqs: seq<Request>) {
    forall i :: 0 <= i < |reqs| ==> Queued(reqs[i])
  }

  lemma {:induction false} RefillArrivals(ops: seq<Op>, reqs: seq<Request>)
    requires |Arrivals(ops)| <= |reqs| && AllQueued(reqs)
    ensures Arrivals(Refill(ops, reqs)) == reqs[..|Arrivals(ops)|]
  {
    if ops != [] {
      var front := ops[..|ops| - 1];
      RefillArrivals(front, reqs);
      var refilled := Refill(ops, reqs);
      assert refilled[..|refilled| - 1] == Refill(front, reqs);
    }
  }

  lemma SameSlotStep(batchSize: nat, z: Slots, op: Op, req: Request)
    requires op.Arrive? && Queued(op.req) && Queued(req)
    ensures SlotStep(batchSize, z, Arrive(req)) == SlotStep(batchSize, z, op)
  {}

  lemma {:induction false} RefillKeepsSchedule(batchSize: nat, ops: seq<Op>, reqs: seq<Request>)
    requires |Arrivals(ops)| <= |reqs| && AllQueued(reqs)
    ensures SlotRun(batchSize, Refill(ops, reqs)) == SlotRun(batchSize, ops)
  {
    if ops != [] {
      var front, last := ops[..|ops| - 1], ops[|ops| - 1];
      RefillKeepsSchedule(batchSize, front, reqs);
      var refilled := Refill(ops, reqs);
      assert refilled[..|refilled| - 1] == Refill(front, reqs);
      if last.Arrive? && Queued(last.req) { SameSlotStep(batchSize, SlotRun(batchSize, front), last, reqs[|Arrivals(front)|]); }
    }
  }

  /** Whatever its requests say and whatever is stored, this schedule gives what handling them in arrival order gives. */
  ghost predicate ScheduleHarmless(batchSize: nat, ops: seq<Op>) {
    forall t, reqs :: Fits(Accounts(Arrivals(ops)), reqs) ==> RunAgrees(batchSize, t, Refill(ops, reqs), reqs)
  }

  ghost predicate RunAgrees(batchSize: nat, t: Table, ops: seq<Op>, reqs: seq<Request>) {
    var w, a := Run(AsMeant, batchSize, t, ops), OneAtATime(AsMeant, t, reqs);
    SameOutcome(w.table, w.replies, a.0, a.1)
  }

  lemma RunGivesItsOrder(batchSize: nat, t: Table, ops: seq<Op>, reqs: seq<Request>)
    requires Fits(Accounts(Arrivals(ops)), reqs) && Drained(SlotRun(batchSize, ops))
    ensures InRange(SlotRun(batchSize, ops).answered, |reqs|)
    ensures RunAgrees(batchSize, t, Refill(ops, reqs), reqs)
       <==> Agree(AsMeant, t, Pick(reqs, SlotRun(batchSize, ops).answered), reqs)
  {
    var filled := Refill(ops, reqs);
    RefillKeepsSchedule(batchSize, ops, reqs);
    RefillArrivals(ops, reqs);
    ArrivalsAreReceived(AsMeant, batchSize, t, filled);
    assert reqs[..|reqs|] == reqs;
    RunFollows(AsMeant, batchSize, t, filled);
    EveryRunIsSerial(AsMeant, batchSize, t, filled);
    var w := Run(AsMeant, batchSize, t, filled);
    assert Holds(w.received, SlotRun(batchSize, ops).answered, Answered(w.replies));
    assert (w.table, w.replies) == OneAtATime(AsMeant, t, Answered(w.replies));
  }

  /**
   A drained schedule, however its flush tasks overtake one another, is harmless for every choice of
   requests exactly when it answers each account's requests in the order they arrived.
   */
  lemma OvertakingHarmlessExactlyWhen(batchSize: nat, ops: seq<Op>)
    requires Drained(SlotRun(batchSize, ops))
    ensures InRange(SlotRun(batchSize, ops).answered, |Arrivals(ops)|)
    ensures ScheduleHarmless(batchSize, ops) <==> KeepsOrder(Accounts(Arrivals(ops)), SlotRun(batchSize, ops).answered)
  {
    var ids, slots := Accounts(Arrivals(ops)), SlotRun(batchSize, ops).answered;
    DrainedIsOrder(batchSize, ops);
    ArrivalsAreReceived(AsMeant, batchSize, map[], ops);
    HarmlessExactlyWhen(ids, slots);
    forall t, reqs | Fits(ids, reqs)
      ensures RunAgrees(batchSize, t, Refill(ops, reqs), reqs) <==> Agree(AsMeant, t, Pick(reqs, slots), reqs)
    {
      RunGivesItsOrder(batchSize, t, ops, reqs);
    }
  }

  // ---------------------------------------------------------------------------
  // A run in which the later save wins
  // ---------------------------------------------------------------------------

  lemma RunSnoc(batchSize: nat, t: Table, ops: seq<Op>, op: Op)
    ensures Run(AsMeant, batchSize, t, ops + [op]) == Exec(AsMeant, batchSize, Run(AsMeant, batchSize, t, ops), op)
  {
    assert (ops + [op])[..|ops|] == ops;
  }

  lemma FirstFlushedIsStored(w: Writer, j: nat, k: nat, id: Uuid, e: AccountEvent, f: AccountEvent)
    requires w.table == map[] && j < |w.spawned| && k < |w.spawned| && j != k
    requires w.spawned[j] == [Request(id, [e], 0, true)] && w.spawned[k] == [Request(id, [f], 0, true)]
    ensures FlushHead(AsMeant, FlushHead(AsMeant, w, j), k).table == map[id := [Row(1, e)]]
  {
    FirstIsStored(id, e);
    LaterAreRefused(map[id := [Row(1, e)]], id, e, Request(id, [f], 0, true));
  }

  lemma TwoBatches(r: Request, s: Request)
    requires Queued(r) && Queued(s)
    ensures var w := Run(AsMeant, 1, map[], [] + [Arrive(r)] + [Arrive(s)]); w.table == map[] && w.spawned == [[r], [s]]
  {
    RunSnoc(1, map[], [], Arrive(r));
    assert [] + [r] == [r] && [] + [s] == [s];
    assert Run(AsMeant, 1, map[], [] + [Arrive(r)]).spawned == [[r]];
    RunSnoc(1, map[], [] + [Arrive(r)], Arrive(s));
  }

  /** Two saves at version 0 in batches of their own: whichever flush task goes first decides what is stored. */
  lemma OvertakingChangesTheWinner(id: Uuid, e: AccountEvent, f: AccountEvent)
    ensures var (r, s) := (Request(id, [e], 0, true), Request(id, [f], 0, true));
            var arrived := [] + [Arrive(r)] + [Arrive(s)];
      && Run(AsMeant, 1, map[], arrived + [Flush(0)] + [Flush(1)]).table == map[id := [Row(1, e)]]
      && Run(AsMeant, 1, map[], arrived + [Flush(1)] + [Flush(0)]).table == map[id := [Row(1, f)]]
  {
    var r, s := Request(id, [e], 0, true), Request(id, [f], 0, true);
    var arrived: seq<Op> := [] + [Arrive(r)] + [Arrive(s)];
    var w := Run(AsMeant, 1, map[], arrived);
    TwoBatches(r, s);
    FirstFlushedIsStored(w, 0, 1, id, e, f);
    FirstFlushedIsStored(w, 1, 0, id, f, e);
    RunSnoc(1, map[], arrived, Flush(0));
    RunSnoc(1, map[], arrived + [Flush(0)], Flush(1));
    RunSnoc(1, map[], arrived, Flush(1));
    RunSnoc(1, map[], arrived + [Flush(1)], Flush(0));
  }
}
