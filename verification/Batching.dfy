/**
 The batching writer: saves arrive on a channel, collect in a pending batch, and leave it as
 spawned flush tasks that process their requests against the table.
 */
module Batching {
  import opened Domain
  import opened EventStore

  datatype Reply = Reply(req: Request, outcome: Outcome)

  /** `received` and `replies` are the histories of arrivals and answers. */
  datatype Writer = Writer(table: Table, received: seq<Request>, pending: seq<Request>,
                           spawned: seq<seq<Request>>, replies: seq<Reply>)

  function Idle(t: Table): Writer {
    Writer(t, [], [], [], [])
  }

  function Receive(w: Writer, batchSize: nat, req: Request): Writer {
    if !Queued(req) then w
    else
      var batch := w.pending + [req];
      if |batch| >= batchSize
      then w.(received := w.received + [req], pending := [], spawned := w.spawned + [batch])
      else w.(received := w.received + [req], pending := batch)
  }

  function Timeout(w: Writer): Writer {
    if w.pending == [] then w else w.(pending := [], spawned := w.spawned + [w.pending])
  }

  /** Flush task `k` processes its next request. */
  function FlushHead(reading: Reading, w: Writer, k: nat): Writer {
    if k >= |w.spawned| || w.spawned[k] == [] then w
    else
      var req := w.spawned[k][0];
      var (t, o) := Process(reading, w.table, req);
      w.(table := t, spawned := w.spawned[k := w.spawned[k][1..]], replies := w.replies + [Reply(req, o)])
  }

  function FlushHeads(reading: Reading, w: Writer, k: nat, n: nat): Writer {
    if n == 0 then w else FlushHead(reading, FlushHeads(reading, w, k, n - 1), k)
  }

  /** The writer as the source runs it: fields replaced in place. */
  class BatchProcessor {
    const reading: Reading
    const batchSize: nat
    var table: Table
    var pending: seq<Request>
    var spawned: seq<seq<Request>>
    var replies: seq<Reply>
    ghost var received: seq<Request>

    ghost function View(): Writer
      reads this
    {
      Writer(table, received, pending, spawned, replies)
    }

    constructor (reading: Reading, batchSize: nat, t: Table)
      ensures this.reading == reading && this.batchSize == batchSize && View() == Idle(t)
    {
      this.reading, this.batchSize, table := reading, batchSize, t;
      pending, spawned, replies, received := [], [], [], [];
    }

    method SaveEvents(req: Request)
      modifies this
      ensures View() == Receive(old(View()), batchSize, req)
    {
      if req.events == [] { return; }
      received := received + [req];
      pending := pending + [req];
      if |pending| >= batchSize {
        spawned := spawned + [pending];
        pending := [];
      }
    }

    method BatchTimeout()
      modifies this
      ensures View() == Timeout(old(View()))
    {
      if pending != [] {
        spawned := spawned + [pending];
        pending := [];
      }
    }

    method InsertEvents(id: Uuid, rows: seq<Row>) returns (o: Outcome)
      modifies this`table
      ensures (table, o) == BulkInsert(reading, old(table), id, rows)
    {
      if rows == [] { return Saved; }
      var existing := Rows(table, id);
      var expected := if reading.AsWritten? then rows[0].version else rows[0].version - 1;
      if reading.AsWritten? && existing == [] { return Rejected(DatabaseError); }
      var current := CurrentVersion(existing);
      if current != expected { return Rejected(ConcurrencyConflict(id, expected, current)); }
      if |rows| > 1 {
        for i := 0 to |rows|
          invariant forall j :: 0 <= j < i ==> rows[j].version == expected + j + 1
        {
          if rows[i].version != expected + i + 1 { return Rejected(ValidationError); }
        }
      }
      if !UniqueVersions(existing + rows) { return Rejected(ConcurrencyConflict(id, expected, current)); }
      table := table[id := existing + rows];
      return Saved;
    }

    /** A whole flush task: every request of the batch, in order. */
    method FlushBatch(k: nat)
      requires k < |spawned|
      modifies this
      ensures View() == FlushHeads(reading, old(View()), k, |old(spawned)[k]|)
    {
      ghost var before := View();
      var batch := spawned[k];
      for i := 0 to |batch|
        invariant View() == FlushHeads(reading, before, k, i)
        invariant |spawned| == |before.spawned| && spawned[k] == batch[i..]
      {
        var req := spawned[k][0];
        var rows := PrepareEvents(req);
        var valid := true;
        for j := 0 to |rows|
          invariant valid <==> forall m :: 0 <= m < j ==> rows[m].version > 0
        {
          valid := valid && rows[j].version > 0;
        }
        var o;
        if !valid {
          o := Rejected(ValidationError);
        } else if !req.handled {
          o := Rejected(EventHandlingError);
        } else {
          o := InsertEvents(req.id, rows);
        }
        spawned := spawned[k := spawned[k][1..]];
        replies := replies + [Reply(req, o)];
      }
    }
  }

  // ---------------------------------------------------------------------------
  // Batching is transparent
  // ---------------------------------------------------------------------------

  /** The reference: requests handled one at a time, without queues. */
  function OneAtATime(reading: Reading, t: Table, reqs: seq<Request>): (Table, seq<Reply>) {
    if reqs == [] then (t, [])
    else
      var (t1, rs) := OneAtATime(reading, t, reqs[..|reqs| - 1]);
      var (t2, o) := Process(reading, t1, reqs[|reqs| - 1]);
      (t2, rs + [Reply(reqs[|reqs| - 1], o)])
  }

  function Flatten<T>(batches: seq<seq<T>>): seq<T> {
    if batches == [] then [] else Flatten(batches[..|batches| - 1]) + batches[|batches| - 1]
  }

  function Answered(replies: seq<Reply>): (reqs: seq<Request>)
    ensures |reqs| == |replies|
  {
    seq(|replies|, i requires 0 <= i < |replies| => replies[i].req)
  }

  /** The first flush task with work left, or the number of tasks. */
  function NextTask(batches: seq<seq<Request>>): (k: nat)
    ensures k <= |batches|
    ensures forall j :: 0 <= j < k ==> batches[j] == []
    ensures k < |batches| ==> batches[k] != []
  {
    if batches == [] then 0
    else
      var k := NextTask(batches[..|batches| - 1]);
      if k < |batches| - 1 then k else if batches[|batches| - 1] != [] then |batches| - 1 else |batches|
  }

  datatype Op = Arrive(req: Request) | Tick | Flush(task: nat)

  function Exec(reading: Reading, batchSize: nat, w: Writer, op: Op): Writer {
    match op
    case Arrive(req) => Receive(w, batchSize, req)
    case Tick => Timeout(w)
    case Flush(k) => FlushHead(reading, w, k)
  }

  /** Any interleaving of arrivals, timeouts and single steps of any flush task. */
  function Run(reading: Reading, batchSize: nat, t: Table, ops: seq<Op>): Writer {
    if ops == [] then Idle(t)
    else Exec(reading, batchSize, Run(reading, batchSize, t, ops[..|ops| - 1]), ops[|ops| - 1])
  }

  /** No flush task overtakes an earlier one. */
  predicate InOrder(reading: Reading, batchSize: nat, t: Table, ops: seq<Op>) {
    forall i :: 0 <= i < |ops| && ops[i].Flush? ==>
      ops[i].task == NextTask(Run(reading, batchSize, t, ops[..i]).spawned)
  }

  lemma {:induction false} FlattenSnoc<T>(batches: seq<seq<T>>, b: seq<T>)
    ensures Flatten(batches + [b]) == Flatten(batches) + b
  {
    assert (batches + [b])[..|batches|] == batches;
  }

  lemma {:induction false} FlattenEmpty<T>(batches: seq<seq<T>>)
    requires forall j :: 0 <= j < |batches| ==> batches[j] == []
    ensures Flatten(batches) == []
  {
    if batches != [] { FlattenEmpty(batches[..|batches| - 1]); }
  }

  lemma {:induction false} FlattenPop<T>(batches: seq<seq<T>>, k: nat)
    requires k < |batches| && batches[k] != []
    requires forall j :: 0 <= j < k ==> batches[j] == []
    ensures Flatten(batches) == [batches[k][0]] + Flatten(batches[k := batches[k][1..]])
  {
    var n, popped := |batches| - 1, batches[k := batches[k][1..]];
    if k == n {
      FlattenEmpty(batches[..n]);
      assert popped[..n] == batches[..n];
    } else {
      FlattenPop(batches[..n], k);
      assert popped[..n] == batches[..n][k := batches[k][1..]];
    }
  }

  lemma {:induction false} FlattenTake<T>(batches: seq<seq<T>>, k: nat)
    requires k < |batches| && batches[k] != []
    ensures multiset(Flatten(batches)) == multiset{batches[k][0]} + multiset(Flatten(batches[k := batches[k][1..]]))
  {
    var n, taken := |batches| - 1, batches[k := batches[k][1..]];
    if k == n {
      assert taken[..n] == batches[..n];
      assert batches[k] == [batches[k][0]] + batches[k][1..];
    } else {
      FlattenTake(batches[..n], k);
      assert taken[..n] == batches[..n][k := batches[k][1..]];
    }
  }

  /** Some serial order explains the answers, and every arrival is answered, in flight or pending exactly once. */
  ghost predicate Serial(reading: Reading, batchSize: nat, t: Table, w: Writer) {
    && (w.table, w.replies) == OneAtATime(reading, t, Answered(w.replies))
    && Conserved(w)
    && (|w.pending| < batchSize || w.pending == [])
  }

  ghost predicate Conserved(w: Writer) {
    multiset(w.received) == multiset(Answered(w.replies)) + multiset(Flatten(w.spawned)) + multiset(w.pending)
  }

  lemma ReceiveConserves(batchSize: nat, w: Writer, req: Request)
    requires Conserved(w)
    ensures Conserved(Receive(w, batchSize, req))
  {
    FlattenSnoc(w.spawned, w.pending + [req]);
    assert multiset(w.received + [req]) == multiset(w.received) + multiset{req};
    assert multiset(w.pending + [req]) == multiset(w.pending) + multiset{req};
  }

  lemma FlushConserves(reading: Reading, w: Writer, k: nat)
    requires Conserved(w) && k < |w.spawned| && w.spawned[k] != []
    ensures Conserved(FlushHead(reading, w, k))
  {
    FlattenTake(w.spawned, k);
    AnsweredSnoc(w.replies, FlushHead(reading, w, k).replies[|w.replies|]);
    assert multiset(Answered(w.replies) + [w.spawned[k][0]]) == multiset(Answered(w.replies)) + multiset{w.spawned[k][0]};
  }

  lemma ConservedStep(reading: Reading, batchSize: nat, w: Writer, op: Op)
    requires Conserved(w)
    ensures Conserved(Exec(reading, batchSize, w, op))
  {
    match op {
      case Arrive(req) => ReceiveConserves(batchSize, w, req);
      case Tick => FlattenSnoc(w.spawned, w.pending);
      case Flush(k) => if k < |w.spawned| && w.spawned[k] != [] { FlushConserves(reading, w, k); }
    }
  }

  lemma {:induction false} EveryRunIsSerial(reading: Reading, batchSize: nat, t: Table, ops: seq<Op>)
    ensures Serial(reading, batchSize, t, Run(reading, batchSize, t, ops))
  {
    if ops != [] {
      EveryRunIsSerial(reading, batchSize, t, ops[..|ops| - 1]);
      SerialStep(reading, batchSize, t, Run(reading, batchSize, t, ops[..|ops| - 1]), ops[|ops| - 1]);
    }
  }

  lemma SerialStep(reading: Reading, batchSize: nat, t: Table, w: Writer, op: Op)
    requires Serial(reading, batchSize, t, w)
    ensures Serial(reading, batchSize, t, Exec(reading, batchSize, w, op))
  {
    ConservedStep(reading, batchSize, w, op);
    if op.Flush? && op.task < |w.spawned| && w.spawned[op.task] != [] {
      FlushAppendsToSerialOrder(reading, t, w, op.task);
    }
  }

  lemma FlushAppendsToSerialOrder(reading: Reading, t: Table, w: Writer, k: nat)
    requires (w.table, w.replies) == OneAtATime(reading, t, Answered(w.replies))
    requires k < |w.spawned| && w.spawned[k] != []
    ensures var w' := FlushHead(reading, w, k);
      && Answered(w'.replies) == Answered(w.replies) + [w.spawned[k][0]]
      && (w'.table, w'.replies) == OneAtATime(reading, t, Answered(w'.replies))
  {
    AnsweredSnoc(w.replies, FlushHead(reading, w, k).replies[|w.replies|]);
  }

  lemma AnsweredSnoc(replies: seq<Reply>, r: Reply)
    ensures Answered(replies + [r]) == Answered(replies) + [r.req]
    ensures Answered(replies + [r])[..|replies|] == Answered(replies)
  {}

  predicate BatchesFull(batchSize: nat, batches: seq<seq<Request>>) {
    forall k :: 0 <= k < |batches| ==> |batches[k]| == batchSize
  }

  lemma ReceiveFillsBatches(batchSize: nat, w: Writer, req: Request)
    requires BatchesFull(batchSize, w.spawned) && |w.pending| < batchSize
    requires |w.received| == batchSize * |w.spawned| + |w.pending|
    ensures var w' := Receive(w, batchSize, req);
      BatchesFull(batchSize, w'.spawned) && |w'.pending| < batchSize && |w'.received| == batchSize * |w'.spawned| + |w'.pending|
  {
    assert batchSize * (|w.spawned| + 1) == batchSize * |w.spawned| + batchSize;
  }

  /** Without timeouts a batch leaves exactly when it is full: n arrivals make n / batchSize full batches. */
  lemma {:induction false} ArrivalsFillBatches(reading: Reading, batchSize: nat, t: Table, ops: seq<Op>)
    requires batchSize > 0 && forall i :: 0 <= i < |ops| ==> ops[i].Arrive?
    ensures var w := Run(reading, batchSize, t, ops);
      && BatchesFull(batchSize, w.spawned) && |w.pending| < batchSize
      && |w.received| == batchSize * |w.spawned| + |w.pending|
  {
    if ops != [] {
      ArrivalsFillBatches(reading, batchSize, t, ops[..|ops| - 1]);
      ReceiveFillsBatches(batchSize, Run(reading, batchSize, t, ops[..|ops| - 1]), ops[|ops| - 1].req);
    }
  }

  /** Answered, in flight and pending requests spell out the arrivals. */
  ghost predicate InArrivalOrder(w: Writer) {
    w.received == Answered(w.replies) + Flatten(w.spawned) + w.pending
  }

  lemma ArrivalOrderReceive(batchSize: nat, w: Writer, req: Request)
    requires InArrivalOrder(w)
    ensures InArrivalOrder(Receive(w, batchSize, req))
  {
    FlattenSnoc(w.spawned, w.pending + [req]);
    var before := Answered(w.replies) + Flatten(w.spawned);
    assert before + w.pending + [req] == before + (w.pending + [req]);
    assert Answered(w.replies) + (Flatten(w.spawned) + (w.pending + [req])) + [] == before + (w.pending + [req]);
  }

  lemma ArrivalOrderTimeout(w: Writer)
    requires InArrivalOrder(w)
    ensures InArrivalOrder(Timeout(w))
  {
    FlattenSnoc(w.spawned, w.pending);
  }

  lemma ArrivalOrderStep(reading: Reading, batchSize: nat, w: Writer, op: Op)
    requires InArrivalOrder(w) && (op.Flush? ==> op.task == NextTask(w.spawned))
    ensures InArrivalOrder(Exec(reading, batchSize, w, op))
  {
    match op {
      case Arrive(req) => ArrivalOrderReceive(batchSize, w, req);
      case Tick => ArrivalOrderTimeout(w);
      case Flush(k) => if k < |w.spawned| { ArrivalOrderFlush(reading, w); }
    }
  }

  lemma ArrivalOrderFlush(reading: Reading, w: Writer)
    requires InArrivalOrder(w) && NextTask(w.spawned) < |w.spawned|
    ensures InArrivalOrder(FlushHead(reading, w, NextTask(w.spawned)))
  {
    var k := NextTask(w.spawned);
    FlattenPop(w.spawned, k);
    AnsweredSnoc(w.replies, FlushHead(reading, w, k).replies[|w.replies|]);
  }

  lemma {:induction false} InOrderRunsKeepArrivalOrder(reading: Reading, batchSize: nat, t: Table, ops: seq<Op>)
    requires InOrder(reading, batchSize, t, ops)
    ensures InArrivalOrder(Run(reading, batchSize, t, ops))
  {
    if ops != [] {
      var front := ops[..|ops| - 1];
      assert forall i :: 0 <= i < |front| ==> front[..i] == ops[..i];
      InOrderRunsKeepArrivalOrder(reading, batchSize, t, front);
      ArrivalOrderStep(reading, batchSize, Run(reading, batchSize, t, front), ops[|ops| - 1]);
    }
  }

  /** When no task overtakes, the serial order is the arrival order: nothing is lost or reordered. */
  lemma BatchingTransparent(reading: Reading, batchSize: nat, t: Table, ops: seq<Op>)
    requires InOrder(reading, batchSize, t, ops)
    ensures var w := Run(reading, batchSize, t, ops);
      && InArrivalOrder(w)
      && |w.replies| <= |w.received|
      && (w.table, w.replies) == OneAtATime(reading, t, w.received[..|w.replies|])
  {
    EveryRunIsSerial(reading, batchSize, t, ops);
    InOrderRunsKeepArrivalOrder(reading, batchSize, t, ops);
    var w := Run(reading, batchSize, t, ops);
    assert w.received[..|w.replies|] == Answered(w.replies);
  }

  /** Two writers with different batch sizes and timings that drained the same arrivals agree. */
  lemma DrainedWritersAgree(reading: Reading, t: Table, size1: nat, ops1: seq<Op>, size2: nat, ops2: seq<Op>)
    requires InOrder(reading, size1, t, ops1) && InOrder(reading, size2, t, ops2)
    requires var w1, w2 := Run(reading, size1, t, ops1), Run(reading, size2, t, ops2);
      w1.received == w2.received && |w1.replies| == |w1.received| == |w2.replies|
    ensures var w1, w2 := Run(reading, size1, t, ops1), Run(reading, size2, t, ops2);
      && w1.table == w2.table && w1.replies == w2.replies
      && (w1.table, w1.replies) == OneAtATime(reading, t, w1.received)
  {
    BatchingTransparent(reading, size1, t, ops1);
    BatchingTransparent(reading, size2, t, ops2);
    var r := Run(reading, size1, t, ops1).received;
    assert r[..|r|] == r;
  }

  // ---------------------------------------------------------------------------
  // Flush tasks are spawned and may overtake one another: order matters only within an account
  // ---------------------------------------------------------------------------

  function Of(reqs: seq<Request>, id: Uuid): seq<Request> {
    if reqs == [] then []
    else
      var front, last := Of(reqs[..|reqs| - 1], id), reqs[|reqs| - 1];
      if last.id == id then front + [last] else front
  }

  ghost predicate SameWithinAccounts(xs: seq<Request>, ys: seq<Request>) {
    forall id :: Of(xs, id) == Of(ys, id)
  }

  function RepliesOf(replies: seq<Reply>, id: Uuid): seq<Reply> {
    if replies == [] then []
    else
      var front, last := RepliesOf(replies[..|replies| - 1], id), replies[|replies| - 1];
      if last.req.id == id then front + [last] else front
  }

  lemma ProcessIsLocal(reading: Reading, t: Table, u: Table, req: Request)
    requires Rows(t, req.id) == Rows(u, req.id)
    ensures Process(reading, t, req).1 == Process(reading, u, req).1
    ensures Rows(Process(reading, t, req).0, req.id) == Rows(Process(reading, u, req).0, req.id)
    ensures forall id :: id != req.id ==> Rows(Process(reading, t, req).0, id) == Rows(t, id)
  {}

  /** What happens to one account depends only on that account's own requests. */
  lemma {:induction false} OwnRequestsDecide(reading: Reading, t: Table, reqs: seq<Request>, id: Uuid)
    ensures var (all, own) := (OneAtATime(reading, t, reqs), OneAtATime(reading, t, Of(reqs, id)));
      && Rows(all.0, id) == Rows(own.0, id)
      && RepliesOf(all.1, id) == own.1
  {
    if reqs != [] {
      var front, last := reqs[..|reqs| - 1], reqs[|reqs| - 1];
      OwnRequestsDecide(reading, t, front, id);
      var (t1, rs) := OneAtATime(reading, t, front);
      ProcessIsLocal(reading, t1, if last.id == id then OneAtATime(reading, t, Of(front, id)).0 else t1, last);
      var all := OneAtATime(reading, t, reqs).1;
      assert all[..|all| - 1] == rs;
      if last.id == id {
        assert Of(reqs, id)[..|Of(reqs, id)| - 1] == Of(front, id);
      }
    }
  }

  /**
   Two processing orders that agree account by account give every account the same rows and its
   requests the same answers; so overtaking flush tasks are harmless unless they share an account.
   */
  lemma OrderMattersOnlyWithinAccounts(reading: Reading, t: Table, xs: seq<Request>, ys: seq<Request>)
    requires SameWithinAccounts(xs, ys)
    ensures forall id :: Rows(OneAtATime(reading, t, xs).0, id) == Rows(OneAtATime(reading, t, ys).0, id)
    ensures forall id :: RepliesOf(OneAtATime(reading, t, xs).1, id) == RepliesOf(OneAtATime(reading, t, ys).1, id)
  {
    forall id
      ensures Rows(OneAtATime(reading, t, xs).0, id) == Rows(OneAtATime(reading, t, ys).0, id)
      ensures RepliesOf(OneAtATime(reading, t, xs).1, id) == RepliesOf(OneAtATime(reading, t, ys).1, id)
    {
      OwnRequestsDecide(reading, t, xs, id);
      OwnRequestsDecide(reading, t, ys, id);
    }
  }

  /** A drained run whose tasks overtook freely still answers as arrival order does, if no account's requests overtook. */
  lemma OvertakingAcrossAccountsIsHarmless(reading: Reading, batchSize: nat, t: Table, ops: seq<Op>, id: Uuid)
    requires var w := Run(reading, batchSize, t, ops);
      SameWithinAccounts(Answered(w.replies), w.received)
    ensures var w := Run(reading, batchSize, t, ops);
      && Rows(w.table, id) == Rows(OneAtATime(reading, t, w.received).0, id)
      && RepliesOf(w.replies, id) == RepliesOf(OneAtATime(reading, t, w.received).1, id)
  {
    EveryRunIsSerial(reading, batchSize, t, ops);
    var w := Run(reading, batchSize, t, ops);
    OrderMattersOnlyWithinAccounts(reading, t, Answered(w.replies), w.received);
  }
}
