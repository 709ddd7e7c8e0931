/** Recovery by replay: the gap-splitting selective replay, the full replay, and where their batches lead. */
module Recovery {
  import opened Wrappers
  import opened Domain
  import opened EventStore
  import opened Batching
  import opened Projections
  import Protocol

  /** Finished runs and the run still open at the end. */
  datatype Cut = Cut(done: seq<seq<Row>>, open: seq<Row>)

  function Extend(c: Cut, r: Row): Cut {
    if c.open != [] && r.version != c.open[|c.open| - 1].version + 1
    then Cut(c.done + [c.open], [r])
    else Cut(c.done, c.open + [r])
  }

  function Split(rows: seq<Row>): Cut {
    if rows == [] then Cut([], []) else Extend(Split(rows[..|rows| - 1]), rows[|rows| - 1])
  }

  /** The rows cut into maximal runs of consecutive versions. */
  function Runs(rows: seq<Row>): seq<seq<Row>> {
    Closed(Split(rows))
  }

  function Closed(c: Cut): seq<seq<Row>> {
    if c.open == [] then c.done else c.done + [c.open]
  }

  /** A batch as sent: the events of a run, tagged with its last version. */
  function BatchOf(id: Uuid, run: seq<Row>): EventBatch {
    EventBatch(id, Events(run), if run == [] then 0 else run[|run| - 1].version)
  }

  function BatchesOf(id: Uuid, runs: seq<seq<Row>>): seq<EventBatch> {
    if runs == [] then [] else BatchesOf(id, runs[..|runs| - 1]) + [BatchOf(id, runs[|runs| - 1])]
  }

  lemma BatchesSnoc(id: Uuid, runs: seq<seq<Row>>, run: seq<Row>)
    ensures BatchesOf(id, runs + [run]) == BatchesOf(id, runs) + [BatchOf(id, run)]
  {
    assert (runs + [run])[..|runs|] == runs;
  }

  lemma EventsSnoc(rows: seq<Row>, r: Row)
    ensures Events(rows + [r]) == Events(rows) + [r.event]
  {}

  lemma SplitSnoc(rows: seq<Row>, i: nat)
    requires i < |rows|
    ensures Split(rows[..i + 1]) == Extend(Split(rows[..i]), rows[i])
  {
    assert rows[..i + 1][..i] == rows[..i];
  }

  lemma ReplayStep(id: Uuid, c: Cut, r: Row)
    ensures var c' := Extend(c, r);
      if c.open != [] && r.version != c.open[|c.open| - 1].version + 1
      then BatchesOf(id, c'.done) == BatchesOf(id, c.done) + [BatchOf(id, c.open)] && Events(c'.open) == [r.event]
      else BatchesOf(id, c'.done) == BatchesOf(id, c.done) && Events(c'.open) == Events(c.open) + [r.event]
  {
    BatchesSnoc(id, c.done, c.open);
    EventsSnoc(c.open, r);
    EventsSnoc([], r);
  }

  /** The source's loop: keep a batch, send it when a gap appears and once more at the end. */
  method SelectiveReplay(id: Uuid, rows: seq<Row>) returns (sent: seq<EventBatch>)
    ensures sent == BatchesOf(id, Runs(rows))
  {
    sent := [];
    var currentVersion := 0;
    var batch: seq<AccountEvent> := [];
    ghost var c := Cut([], []);
    for i := 0 to |rows|
      invariant c == Split(rows[..i])
      invariant sent == BatchesOf(id, c.done) && batch == Events(c.open)
      invariant c.open != [] ==> currentVersion == c.open[|c.open| - 1].version
    {
      SplitSnoc(rows, i);
      ReplayStep(id, c, rows[i]);
      if rows[i].version != currentVersion + 1 {
        if batch != [] {
          sent := sent + [EventBatch(id, batch, currentVersion)];
          batch := [];
        }
      }
      batch := batch + [rows[i].event];
      currentVersion := rows[i].version;
      c := Extend(c, rows[i]);
    }
    assert rows[..|rows|] == rows;
    BatchesSnoc(id, c.done, c.open);
    if batch != [] {
      sent := sent + [EventBatch(id, batch, currentVersion)];
    }
  }

  // ---------------------------------------------------------------------------
  // Runs are the one and only partition into maximal consecutive stretches
  // ---------------------------------------------------------------------------

  predicate Consecutive(run: seq<Row>) {
    forall j :: 0 < j < |run| ==> run[j].version == run[j - 1].version + 1
  }

  predicate NonEmptyRuns(runs: seq<seq<Row>>) {
    forall k :: 0 <= k < |runs| ==> runs[k] != []
  }

  /** Non-empty stretches of consecutive versions, with a gap between neighbours. */
  predicate MaximalRuns(runs: seq<seq<Row>>) {
    && NonEmptyRuns(runs)
    && (forall k :: 0 <= k < |runs| ==> Consecutive(runs[k]))
    && (forall k :: 0 < k < |runs| ==> runs[k][0].version != runs[k - 1][|runs[k - 1]| - 1].version + 1)
  }

  function Whole(c: Cut): seq<Row> {
    Flatten(c.done) + c.open
  }

  lemma ExtendWhole(c: Cut, r: Row)
    ensures Whole(Extend(c, r)) == Whole(c) + [r]
  {
    FlattenSnoc(c.done, c.open);
    assert Flatten(c.done) + (c.open + [r]) == Flatten(c.done) + c.open + [r];
  }

  lemma WholeStep(c: Cut, d: Cut, rows: seq<Row>, r: Row)
    requires Whole(c) == rows && d == Extend(c, r)
    ensures Whole(d) == rows + [r]
  {
    ExtendWhole(c, r);
  }

  lemma {:induction false} SplitWhole(rows: seq<Row>)
    ensures Whole(Split(rows)) == rows
  {
    if rows != [] {
      var front, last := rows[..|rows| - 1], rows[|rows| - 1];
      SplitWhole(front);
      WholeStep(Split(front), Split(rows), front, last);
      assert rows == front + [last];
    }
  }

  lemma AppendedRunIsMaximal(runs: seq<seq<Row>>, run: seq<Row>)
    requires MaximalRuns(runs) && run != [] && Consecutive(run)
    requires runs != [] ==> var p := runs[|runs| - 1]; run[0].version != p[|p| - 1].version + 1
    ensures MaximalRuns(runs + [run])
  {
    forall k | 0 <= k < |runs| + 1 ensures Consecutive((runs + [run])[k]) && (runs + [run])[k] != [] {
      assert k < |runs| ==> Consecutive(runs[k]) && runs[k] != [];
    }
  }

  lemma ExtendKeepsMaximal(c: Cut, r: Row)
    requires MaximalRuns(Closed(c)) && (c.open == [] ==> c.done == [])
    ensures MaximalRuns(Closed(Extend(c, r)))
  {
    if c.open == [] {
      AppendedRunIsMaximal([], [r]);
      assert c.open + [r] == [r];
      assert Closed(Extend(c, r)) == [] + [[r]];
    } else if r.version == c.open[|c.open| - 1].version + 1 {
      assert Closed(c)[|c.done|] == c.open;
      LongerIsMaximal(c.done, c.open, r);
    } else {
      AppendedRunIsMaximal(Closed(c), [r]);
    }
  }

  lemma LongerIsMaximal(init: seq<seq<Row>>, q: seq<Row>, last: Row)
    requires MaximalRuns(init + [q]) && q != [] && Consecutive(q + [last])
    ensures MaximalRuns(init + [q + [last]])
  {
    var long, short := init + [q + [last]], init + [q];
    forall k | 0 <= k < |long| ensures Consecutive(long[k]) && long[k] != [] {
      assert Consecutive(short[k]) && short[k] != [];
    }
    forall k | 0 < k < |long| ensures long[k][0].version != long[k - 1][|long[k - 1]| - 1].version + 1 {
      assert short[k - 1] == long[k - 1] && short[k] != [] && short[k][0] == long[k][0];
    }
  }

  lemma {:induction false} SplitIsMaximal(rows: seq<Row>)
    ensures MaximalRuns(Closed(Split(rows))) && (Split(rows).open == [] ==> Split(rows).done == [])
  {
    if rows != [] {
      SplitIsMaximal(rows[..|rows| - 1]);
      ExtendKeepsMaximal(Split(rows[..|rows| - 1]), rows[|rows| - 1]);
    }
  }

  /** Nothing is dropped, repeated or reordered, and each batch is a maximal stretch. */
  lemma RunsArePartition(rows: seq<Row>)
    ensures Flatten(Runs(rows)) == rows && MaximalRuns(Runs(rows))
  {
    SplitWhole(rows);
    SplitIsMaximal(rows);
    FlattenSnoc(Split(rows).done, Split(rows).open);
  }

  lemma ExtendJoins(init: seq<seq<Row>>, q: seq<Row>, last: Row)
    requires q != [] && MaximalRuns(init + [q + [last]])
    ensures Extend(Cut(init, q), last) == Cut(init, q + [last])
  {
    var all, p := init + [q + [last]], q + [last];
    assert all[|init|] == p && Consecutive(p);
    assert p[|q|] == last && p[|q| - 1] == q[|q| - 1];
  }

  lemma ExtendCuts(init: seq<seq<Row>>, last: Row)
    requires init != [] && MaximalRuns(init + [[last]])
    ensures Extend(Cut(init[..|init| - 1], init[|init| - 1]), last) == Cut(init, [last])
  {
    var all, m := init + [[last]], |init| - 1;
    assert all[m + 1][0] == last && all[m] == init[m] && all[m] != [];
    assert init == init[..m] + [init[m]];
  }

  lemma {:induction false} SplitIsUnique(rows: seq<Row>, init: seq<seq<Row>>, p: seq<Row>)
    requires p != [] && Flatten(init) + p == rows && MaximalRuns(init + [p])
    ensures Split(rows) == Cut(init, p)
    decreases |rows|
  {
    var front, last, q := rows[..|rows| - 1], rows[|rows| - 1], p[..|p| - 1];
    assert p == q + [last] && front == Flatten(init) + q;
    if q != [] {
      ShorterIsMaximal(init, q, last);
      SplitIsUnique(front, init, q);
      ExtendJoins(init, q, last);
    } else if init != [] {
      PrefixIsMaximal(init, p);
      LastOf(init);
      SplitIsUnique(front, init[..|init| - 1], init[|init| - 1]);
      ExtendCuts(init, last);
    }
  }

  lemma LastOf(runs: seq<seq<Row>>)
    requires runs != [] && MaximalRuns(runs)
    ensures var m := |runs| - 1;
      runs[m] != [] && runs == runs[..m] + [runs[m]] && Flatten(runs) == Flatten(runs[..m]) + runs[m]
  {
    assert Consecutive(runs[|runs| - 1]);
  }

  lemma ShorterIsMaximal(init: seq<seq<Row>>, q: seq<Row>, last: Row)
    requires MaximalRuns(init + [q + [last]]) && q != []
    ensures MaximalRuns(init + [q])
  {
    var long, short := init + [q + [last]], init + [q];
    forall k | 0 <= k < |short| ensures Consecutive(short[k]) && short[k] != [] {
      assert Consecutive(long[k]) && long[k] != [];
      assert short[k] <= long[k];
    }
    forall k | 0 < k < |short| ensures short[k][0].version != short[k - 1][|short[k - 1]| - 1].version + 1 {
      assert long[k - 1] == short[k - 1] && long[k] != [] && long[k][0] == short[k][0];
    }
  }

  lemma PrefixIsMaximal(init: seq<seq<Row>>, p: seq<Row>)
    requires MaximalRuns(init + [p])
    ensures MaximalRuns(init)
  {
    forall k | 0 <= k < |init| ensures Consecutive(init[k]) && init[k] != [] {
      assert (init + [p])[k] == init[k] && Consecutive((init + [p])[k]) && (init + [p])[k] != [];
    }
    forall k | 0 < k < |init| ensures init[k][0].version != init[k - 1][|init[k - 1]| - 1].version + 1 {
      assert (init + [p])[k] == init[k] && (init + [p])[k - 1] == init[k - 1];
    }
  }

  /** Any partition into maximal stretches is the one the replay sends. */
  lemma RunsAreUnique(rows: seq<Row>, parts: seq<seq<Row>>)
    requires Flatten(parts) == rows && MaximalRuns(parts)
    ensures parts == Runs(rows)
  {
    if parts != [] {
      var m := |parts| - 1;
      assert parts == parts[..m] + [parts[m]];
      SplitIsUnique(rows, parts[..m], parts[m]);
    }
  }

  /** A gap-free stream is replayed as one batch. */
  lemma GapFreeIsOneBatch(id: Uuid, rows: seq<Row>)
    requires rows != [] && Consecutive(rows)
    ensures BatchesOf(id, Runs(rows)) == [BatchOf(id, rows)]
  {
    assert [rows][..0] == [];
    assert Flatten([rows]) == rows;
    RunsAreUnique(rows, [rows]);
  }

  lemma {:induction false} BatchAt(id: Uuid, runs: seq<seq<Row>>, k: nat)
    requires NonEmptyRuns(runs) && k < |runs|
    ensures |BatchesOf(id, runs)| == |runs|
    ensures var (b, run) := (BatchesOf(id, runs)[k], runs[k]);
      && b.accountId == id && b.version == run[|run| - 1].version
      && |b.events| == |run| && forall j :: 0 <= j < |run| ==> b.events[j] == run[j].event
  {
    if |runs| > 1 { BatchAt(id, runs[..|runs| - 1], if k < |runs| - 1 then k else 0); }
  }

  /** One batch per run, in order: the run's events, under the version of its last row. */
  lemma SentTagsAreLastVersions(id: Uuid, rows: seq<Row>, k: nat)
    requires k < |Runs(rows)|
    ensures |BatchesOf(id, Runs(rows))| == |Runs(rows)|
    ensures var (b, run) := (BatchesOf(id, Runs(rows))[k], Runs(rows)[k]);
      && run != [] && b.accountId == id && b.version == run[|run| - 1].version
      && |b.events| == |run| && forall j :: 0 <= j < |run| ==> b.events[j] == run[j].event
  {
    RunsArePartition(rows);
    BatchAt(id, Runs(rows), k);
  }

  // ---------------------------------------------------------------------------
  // A replayed batch is tagged with its last version, which the processor takes as the version before it
  // ---------------------------------------------------------------------------

  /** Selectively replaying a sound log is one batch, which the processor's save appends to the log a second time. */
  lemma SelectiveReplayDoublesTheLog(t: Table, id: Uuid)
    requires NumberedTable(t) && Log(t, id) != [] && Log(t, id)[0].AccountCreated?
    ensures var sent := BatchOf(id, GetEvents(t, id, None));
            var (after, outcome) := Process(AsMeant, t, SaveOf(sent));
      && BatchesOf(id, Runs(GetEvents(t, id, None))) == [sent]
      && outcome.Saved? && Log(after, id) == Log(t, id) + Log(t, id) && !Legal(id, Log(after, id))
  {
    GetEventsOfNumbered(t, id, 0);
    GapFreeIsOneBatch(id, Rows(t, id));
    var sent := BatchOf(id, Rows(t, id));
    AsMeantExact(t, SaveOf(sent));
    ProcessEffect(AsMeant, t, SaveOf(sent));
    assert (Log(t, id) + Log(t, id))[|Log(t, id)|].AccountCreated?;
  }

  /** So a selective replay makes the log of every account the system can hold illegal. */
  lemma ReplayOfReachableLog(batchSize: nat, steps: seq<Protocol.Step>, id: Uuid)
    requires Log(Protocol.Run(AsMeant, batchSize, steps).writer.table, id) != []
    ensures var t := Protocol.Run(AsMeant, batchSize, steps).writer.table;
            var batches := BatchesOf(id, Runs(GetEvents(t, id, None)));
      && |batches| == 1 && Legal(id, Log(t, id))
      && Log(Process(AsMeant, t, SaveOf(batches[0])).0, id) == Log(t, id) + Log(t, id)
      && !Legal(id, Log(Process(AsMeant, t, SaveOf(batches[0])).0, id))
  {
    Protocol.ReachableLog(AsMeant, batchSize, steps, id);
    SelectiveReplayDoublesTheLog(Protocol.Run(AsMeant, batchSize, steps).writer.table, id);
  }

  /** The full replay's requests: one event each, tagged with its own version. */
  function FullReplay(id: Uuid, rows: seq<Row>): seq<Request> {
    if rows == [] then []
    else FullReplay(id, rows[..|rows| - 1]) + [SaveOf(BatchOf(id, [rows[|rows| - 1]]))]
  }

  function AfterFullReplay(t: Table, id: Uuid, rows: seq<Row>): Table {
    OneAtATime(AsMeant, t, FullReplay(id, rows)).0
  }

  predicate Conflicts(replies: seq<Reply>, id: Uuid, current: nat) {
    forall i :: 0 <= i < |replies| ==> replies[i].outcome == Rejected(ConcurrencyConflict(id, i + 1, current))
  }

  lemma OneMore(t: Table, reqs: seq<Request>, last: Request)
    ensures OneAtATime(AsMeant, t, reqs + [last]).0 == Process(AsMeant, OneAtATime(AsMeant, t, reqs).0, last).0
    ensures OneAtATime(AsMeant, t, reqs + [last]).1
         == OneAtATime(AsMeant, t, reqs).1 + [Reply(last, Process(AsMeant, OneAtATime(AsMeant, t, reqs).0, last).1)]
  {
    assert (reqs + [last])[..|reqs|] == reqs;
  }

  lemma ReplayedEventConflicts(t: Table, id: Uuid, k: nat)
    requires NumberedTable(t) && k + 1 < |Rows(t, id)|
    ensures Process(AsMeant, t, SaveOf(BatchOf(id, [Rows(t, id)[k]])))
         == (t, Rejected(ConcurrencyConflict(id, k + 1, |Rows(t, id)|)))
  {
    AsMeantExact(t, SaveOf(BatchOf(id, [Rows(t, id)[k]])));
  }

  predicate AllConflict(t: Table, reqs: seq<Request>, id: Uuid, current: nat) {
    var (u, replies) := OneAtATime(AsMeant, t, reqs);
    u == t && |replies| == |reqs| && Conflicts(replies, id, current)
  }

  lemma OneMoreConflict(t: Table, reqs: seq<Request>, last: Request, id: Uuid, current: nat)
    requires AllConflict(t, reqs, id, current)
    requires Process(AsMeant, t, last) == (t, Rejected(ConcurrencyConflict(id, |reqs| + 1, current)))
    ensures AllConflict(t, reqs + [last], id, current)
  {
    OneMore(t, reqs, last);
  }

  lemma {:induction false} FullReplayLength(id: Uuid, rows: seq<Row>)
    ensures |FullReplay(id, rows)| == |rows|
  {
    if rows != [] { FullReplayLength(id, rows[..|rows| - 1]); }
  }

  lemma FullReplaySnoc(id: Uuid, rows: seq<Row>, r: Row)
    ensures FullReplay(id, rows + [r]) == FullReplay(id, rows) + [SaveOf(BatchOf(id, [r]))]
  {
    assert (rows + [r])[..|rows|] == rows;
  }

  lemma NothingConflicts(t: Table, id: Uuid)
    ensures AllConflict(t, FullReplay(id, []), id, |Rows(t, id)|)
  {}

  lemma OneMoreReplayed(t: Table, id: Uuid, reqs: seq<Request>)
    requires NumberedTable(t) && |reqs| + 1 < |Rows(t, id)| && AllConflict(t, reqs, id, |Rows(t, id)|)
    ensures AllConflict(t, reqs + [SaveOf(BatchOf(id, [Rows(t, id)[|reqs|]]))], id, |Rows(t, id)|)
  {
    ReplayedEventConflicts(t, id, |reqs|);
    OneMoreConflict(t, reqs, SaveOf(BatchOf(id, [Rows(t, id)[|reqs|]])), id, |Rows(t, id)|);
  }

  lemma FullReplayTake(id: Uuid, rows: seq<Row>, n: nat)
    requires n < |rows|
    ensures FullReplay(id, rows[..n + 1]) == FullReplay(id, rows[..n]) + [SaveOf(BatchOf(id, [rows[n]]))]
    ensures |FullReplay(id, rows[..n])| == n
  {
    FullReplaySnoc(id, rows[..n], rows[n]);
    FullReplayLength(id, rows[..n]);
    assert rows[..n + 1] == rows[..n] + [rows[n]];
  }

  /** Every replayed event but the last is rejected as a conflict. */
  lemma {:induction false} FullReplayPrefixRejected(t: Table, id: Uuid, n: nat)
    requires NumberedTable(t) && n < |Rows(t, id)|
    ensures AllConflict(t, FullReplay(id, Rows(t, id)[..n]), id, |Rows(t, id)|)
  {
    if n == 0 {
      assert Rows(t, id)[..0] == [];
      NothingConflicts(t, id);
    } else {
      FullReplayPrefixRejected(t, id, n - 1);
      FullReplayTake(id, Rows(t, id), n - 1);
      OneMoreReplayed(t, id, FullReplay(id, Rows(t, id)[..n - 1]));
    }
  }

  lemma LastReplayIsAccepted(t: Table, id: Uuid)
    requires NumberedTable(t) && Log(t, id) != []
    ensures var (log, rows) := (Log(t, id), Rows(t, id));
      && Log(Process(AsMeant, t, SaveOf(BatchOf(id, [rows[|rows| - 1]]))).0, id) == log + [log[|log| - 1]]
      && Process(AsMeant, t, SaveOf(BatchOf(id, [rows[|rows| - 1]]))).1 == Saved
  {
    var rows := Rows(t, id);
    var req := SaveOf(BatchOf(id, [rows[|rows| - 1]]));
    AsMeantExact(t, req);
    ProcessEffect(AsMeant, t, req);
    assert Events([rows[|rows| - 1]]) == [rows[|rows| - 1].event];
  }

  lemma FullReplayEndsWithLast(t: Table, id: Uuid)
    requires NumberedTable(t) && Log(t, id) != []
    ensures var rows := Rows(t, id);
      AfterFullReplay(t, id, rows) == Process(AsMeant, t, SaveOf(BatchOf(id, [rows[|rows| - 1]]))).0
  {
    var rows := Rows(t, id);
    FullReplayPrefixRejected(t, id, |rows| - 1);
    FullReplayLength(id, rows[..|rows| - 1]);
    OneMore(t, FullReplay(id, rows[..|rows| - 1]), SaveOf(BatchOf(id, [rows[|rows| - 1]])));
  }

  /** All replayed events but the last are answered with a conflict, the last is stored. */
  lemma FullReplayAnswers(t: Table, id: Uuid)
    requires NumberedTable(t) && Log(t, id) != []
    ensures var n, replies := |Rows(t, id)|, OneAtATime(AsMeant, t, FullReplay(id, Rows(t, id))).1;
      |replies| == n && Conflicts(replies[..n - 1], id, n) && replies[n - 1].outcome == Saved
  {
    var rows := Rows(t, id);
    FullReplayPrefixRejected(t, id, |rows| - 1);
    FullReplayLength(id, rows[..|rows| - 1]);
    OneMore(t, FullReplay(id, rows[..|rows| - 1]), SaveOf(BatchOf(id, [rows[|rows| - 1]])));
    LastReplayIsAccepted(t, id);
  }

  /** Fully replaying a sound log through the processor appends its last event a second time. */
  lemma FullReplayRepeatsLastEvent(t: Table, id: Uuid)
    requires NumberedTable(t) && Log(t, id) != []
    ensures var log := Log(t, id);
      Log(AfterFullReplay(t, id, GetEvents(t, id, None)), id) == log + [log[|log| - 1]]
    ensures var n, replies := |Rows(t, id)|, OneAtATime(AsMeant, t, FullReplay(id, GetEvents(t, id, None))).1;
      |replies| == n && Conflicts(replies[..n - 1], id, n) && replies[n - 1].outcome == Saved
  {
    assert GetEvents(t, id, None) == Rows(t, id) by { GetEventsOfNumbered(t, id, 0); }
    FullReplayEndsWithLast(t, id);
    LastReplayIsAccepted(t, id);
    FullReplayAnswers(t, id);
  }

  /** The repeated event is lawful exactly when it is a deposit, or a withdrawal the balance still covers. */
  lemma RepeatIsLawfulExactlyWhen(id: Uuid, log: seq<AccountEvent>)
    requires Legal(id, log) && log != []
    ensures var last := log[|log| - 1];
      Legal(id, log + [last]) <==> last.MoneyDeposited? || (last.MoneyWithdrawn? && last.amount <= Replay(id, log).balance)
  {
    var n, last := |log| - 1, log[|log| - 1];
    var all := log + [last];
    assert all[..n + 1] == log && all[n + 1] == last;
    assert Permitted(Replay(id, log[..n]), last);
    if last.MoneyDeposited? || last.MoneyWithdrawn? {
      if Permitted(Replay(id, log), last) { LegalAppend(id, log, last); }
    }
    assert Legal(id, all) ==> Permitted(Replay(id, all[..n + 1]), all[n + 1]) && !all[n + 1].AccountCreated?;
  }
}
