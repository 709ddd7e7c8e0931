/**
 The write protocol: any number of clients read an account, decide on what they read and save at
 the version they read, while flush tasks append and snapshot tasks read and write, in any order.
 */
module Protocol {
  import opened Wrappers
  import opened Domain
  import opened EventStore
  import opened Batching

  datatype Snapshot = Snapshot(id: Uuid, account: Account, version: int)

  /**
   `loaded` holds what each client last read; `drafts` the snapshots computed but not yet stored;
   `written` every snapshot ever stored.
   */
  datatype System = System(writer: Writer, loaded: map<nat, Account>, drafts: seq<Snapshot>,
                           snapshots: map<Uuid, Snapshot>, written: seq<Snapshot>)

  datatype Step =
    | Create(id: Uuid, owner: string, initial: Money, handled: bool)
    | Load(client: nat, id: Uuid)
    | Decide(client: nat, command: AccountCommand, tid: Uuid, handled: bool)
    | BatchTick
    | FlushTask(task: nat)
    | DraftSnapshot(id: Uuid)
    | WriteSnapshot(draft: nat)

  /** `handle_create_account`: decided on the default account, saved at version 0. */
  function CreateRequest(id: Uuid, owner: string, initial: Money, handled: bool): Result<Request, AccountError> {
    match HandleCommand(DefaultAccount(id), CreateAccount(id, owner, initial), 0)
    case Success(events) => Success(Request(id, events, 0, handled))
    case Failure(e) => Failure(e)
  }

  /** The deposit, withdraw and close handlers after loading: decide, then save at the loaded version. */
  function CommandRequest(a: Account, c: AccountCommand, tid: Uuid, handled: bool): Result<Request, AccountError> {
    match HandleCommand(a, c, tid)
    case Success(events) => Success(Request(a.id, events, a.version, handled))
    case Failure(e) => Failure(e)
  }

  function Submit(s: System, batchSize: nat, r: Result<Request, AccountError>): System {
    if r.Failure? then s else s.(writer := Receive(s.writer, batchSize, r.value))
  }

  /** `create_snapshot` up to its write: all rows, folded, stamped with the last row's version. */
  function Draft(t: Table, id: Uuid): Option<Snapshot> {
    var rows := GetEvents(t, id, None);
    match Rebuilt(id, rows)
    case None => None
    case Some(a) => Some(Snapshot(id, a, if rows == [] then 0 else rows[|rows| - 1].version))
  }

  function Exec(reading: Reading, batchSize: nat, s: System, step: Step): System {
    match step
    case Create(id, owner, initial, handled) => Submit(s, batchSize, CreateRequest(id, owner, initial, handled))
    case Load(client, id) =>
      (match GetById(s.writer.table, id)
       case None => s
       case Some(a) => s.(loaded := s.loaded[client := a]))
    case Decide(client, c, tid, handled) =>
      if client !in s.loaded || c.CreateAccount? || c.accountId != s.loaded[client].id then s
      else Submit(s, batchSize, CommandRequest(s.loaded[client], c, tid, handled))
    case BatchTick => s.(writer := Timeout(s.writer))
    case FlushTask(k) => s.(writer := FlushHead(reading, s.writer, k))
    case DraftSnapshot(id) =>
      (match Draft(s.writer.table, id)
       case None => s
       case Some(d) => s.(drafts := s.drafts + [d]))
    case WriteSnapshot(i) =>
      if i >= |s.drafts| then s
      else s.(snapshots := s.snapshots[s.drafts[i].id := s.drafts[i]], written := s.written + [s.drafts[i]])
  }

  function Start(): System {
    System(Idle(map[]), map[], [], map[], [])
  }

  /** The state after any sequence of steps, from an empty store. */
  function Run(reading: Reading, batchSize: nat, steps: seq<Step>): System {
    if steps == [] then Start()
    else Exec(reading, batchSize, Run(reading, batchSize, steps[..|steps| - 1]), steps[|steps| - 1])
  }

  // ---------------------------------------------------------------------------
  // The invariant
  // ---------------------------------------------------------------------------

  /** An account value that was the true state of its log at its version. */
  predicate AsOf(t: Table, a: Account) {
    1 <= a.version <= |Log(t, a.id)| && a == Replay(a.id, Log(t, a.id)[..a.version])
  }

  /** A queued save was decided on the log prefix it expects, and creates iff it expects an empty log. */
  predicate Justified(t: Table, r: Request) {
    && 0 <= r.expected <= |Log(t, r.id)| && |r.events| == 1
    && Permitted(Replay(r.id, Log(t, r.id)[..r.expected]), r.events[0])
    && (r.events[0].AccountCreated? <==> r.expected == 0)
    && r.events[0].accountId == r.id
  }

  predicate AllJustified(t: Table, reqs: seq<Request>) {
    forall i :: 0 <= i < |reqs| ==> Justified(t, reqs[i])
  }

  predicate ValidSnapshot(t: Table, d: Snapshot) {
    AsOf(t, d.account) && d.account.id == d.id && d.account.version == d.version
  }

  predicate AllValid(t: Table, ds: seq<Snapshot>) {
    forall i :: 0 <= i < |ds| ==> ValidSnapshot(t, ds[i])
  }

  /** The saves of one account that were answered `Saved`, in the order they were processed. */
  function SavedOf(replies: seq<Reply>, id: Uuid): seq<Request> {
    if replies == [] then []
    else
      var front, last := SavedOf(replies[..|replies| - 1], id), replies[|replies| - 1];
      if last.outcome.Saved? && last.req.id == id then front + [last.req] else front
  }

  /** The k-th successful save of an account was decided at version k and is event k of its log. */
  predicate Ledger(log: seq<AccountEvent>, saved: seq<Request>) {
    && |saved| == |log|
    && forall k :: 0 <= k < |log| ==> saved[k].expected == k && saved[k].events == [log[k]]
  }

  /** One account's log is lawful and holds exactly its answered saves. */
  ghost predicate LogSound(t: Table, replies: seq<Reply>, id: Uuid) {
    Legal(id, Log(t, id)) && OwnEvents(id, Log(t, id)) && Ledger(Log(t, id), SavedOf(replies, id))
  }

  predicate OwnEvents(id: Uuid, log: seq<AccountEvent>) {
    forall i :: 0 <= i < |log| ==> log[i].accountId == id
  }

  ghost predicate LogsSound(w: Writer) {
    NumberedTable(w.table) && forall id :: LogSound(w.table, w.replies, id)
  }

  ghost predicate QueueSound(w: Writer) {
    && AllJustified(w.table, w.pending)
    && (forall k :: 0 <= k < |w.spawned| ==> AllJustified(w.table, w.spawned[k]))
  }

  ghost predicate ReadersSound(s: System) {
    && (forall c :: c in s.loaded ==> AsOf(s.writer.table, s.loaded[c]))
    && AllValid(s.writer.table, s.drafts)
    && AllValid(s.writer.table, s.written)
    && (forall id :: id in s.snapshots ==> s.snapshots[id].id == id && ValidSnapshot(s.writer.table, s.snapshots[id]))
  }

  ghost predicate Sound(s: System) {
    LogsSound(s.writer) && QueueSound(s.writer) && ReadersSound(s)
  }

  /** Logs only grow. */
  ghost predicate Extends(t: Table, u: Table) {
    forall id :: Log(t, id) <= Log(u, id)
  }

  lemma AsOfIsStable(t: Table, u: Table, a: Account)
    requires Extends(t, u) && AsOf(t, a)
    ensures AsOf(u, a)
  {
    assert Log(t, a.id) <= Log(u, a.id);
    assert Log(t, a.id)[..a.version] == Log(u, a.id)[..a.version];
  }

  lemma JustifiedIsStable(t: Table, u: Table, reqs: seq<Request>)
    requires Extends(t, u) && AllJustified(t, reqs)
    ensures AllJustified(u, reqs)
  {
    forall i | 0 <= i < |reqs| ensures Justified(u, reqs[i]) {
      var r := reqs[i];
      assert Justified(t, r) && Log(t, r.id) <= Log(u, r.id);
      assert Log(t, r.id)[..r.expected] == Log(u, r.id)[..r.expected];
    }
  }

  lemma ReadersAreStable(s: System, w: Writer)
    requires ReadersSound(s) && Extends(s.writer.table, w.table)
    ensures ReadersSound(s.(writer := w))
  {
    var t, u := s.writer.table, w.table;
    forall c | c in s.loaded ensures AsOf(u, s.loaded[c]) { AsOfIsStable(t, u, s.loaded[c]); }
    forall i | 0 <= i < |s.drafts| ensures ValidSnapshot(u, s.drafts[i]) { AsOfIsStable(t, u, s.drafts[i].account); }
    forall i | 0 <= i < |s.written| ensures ValidSnapshot(u, s.written[i]) { AsOfIsStable(t, u, s.written[i].account); }
    forall id | id in s.snapshots ensures ValidSnapshot(u, s.snapshots[id]) { AsOfIsStable(t, u, s.snapshots[id].account); }
  }

  lemma FlushExtends(reading: Reading, w: Writer, k: nat)
    requires LogsSound(w) && QueueSound(w)
    ensures Extends(w.table, FlushHead(reading, w, k).table)
  {
    if k < |w.spawned| && w.spawned[k] != [] {
      var req, t' := w.spawned[k][0], FlushHead(reading, w, k).table;
      assert AllJustified(w.table, w.spawned[k]) && Justified(w.table, req);
      ProcessEffect(reading, w.table, req);
      forall id ensures Log(w.table, id) <= Log(t', id) {
        assert id != req.id ==> Log(t', id) == Log(w.table, id);
      }
    }
  }

  lemma SavedSnoc(replies: seq<Reply>, r: Reply, id: Uuid)
    ensures SavedOf(replies + [r], id)
            == SavedOf(replies, id) + if r.outcome.Saved? && r.req.id == id then [r.req] else []
  {
    assert (replies + [r])[..|replies|] == replies;
  }

  lemma LedgerSnoc(log: seq<AccountEvent>, saved: seq<Request>, req: Request)
    requires Ledger(log, saved) && req.expected == |log| && |req.events| == 1
    ensures Ledger(log + req.events, saved + [req])
  {}

  /** The log and the ledger after one more accepted save. */
  lemma AcceptedKeepsLog(id: Uuid, log: seq<AccountEvent>, saved: seq<Request>, req: Request)
    requires Legal(id, log) && OwnEvents(id, log) && Ledger(log, saved)
    requires req.expected == |log| && |req.events| == 1 && req.events[0].accountId == id
    requires Permitted(Replay(id, log), req.events[0]) && (req.events[0].AccountCreated? <==> log == [])
    ensures Legal(id, log + req.events) && OwnEvents(id, log + req.events) && Ledger(log + req.events, saved + [req])
  {
    assert req.events == [req.events[0]];
    LegalAppend(id, log, req.events[0]);
    LedgerSnoc(log, saved, req);
  }

  lemma AnswerKeepsLog(reading: Reading, t: Table, replies: seq<Reply>, req: Request, id: Uuid)
    requires NumberedTable(t) && Justified(t, req) && LogSound(t, replies, id)
    ensures var (t', o) := Process(reading, t, req); LogSound(t', replies + [Reply(req, o)], id)
  {
    var (t', o) := Process(reading, t, req);
    ProcessEffect(reading, t, req);
    SavedSnoc(replies, Reply(req, o), id);
    if id == req.id && o.Saved? {
      var log := Log(t, id);
      assert log[..req.expected] == log;
      AcceptedKeepsLog(id, log, SavedOf(replies, id), req);
    }
  }

  lemma FlushKeepsLogs(reading: Reading, w: Writer, k: nat)
    requires LogsSound(w) && QueueSound(w)
    ensures LogsSound(FlushHead(reading, w, k))
  {
    if k < |w.spawned| && w.spawned[k] != [] {
      var req, w' := w.spawned[k][0], FlushHead(reading, w, k);
      assert AllJustified(w.table, w.spawned[k]) && Justified(w.table, req);
      ProcessEffect(reading, w.table, req);
      forall id ensures LogSound(w'.table, w'.replies, id) {
        assert LogSound(w.table, w.replies, id);
        AnswerKeepsLog(reading, w.table, w.replies, req, id);
      }
    }
  }

  lemma FlushKeepsQueue(reading: Reading, w: Writer, k: nat)
    requires LogsSound(w) && QueueSound(w)
    ensures QueueSound(FlushHead(reading, w, k))
  {
    var w' := FlushHead(reading, w, k);
    FlushExtends(reading, w, k);
    JustifiedIsStable(w.table, w'.table, w'.pending);
    forall j | 0 <= j < |w'.spawned| ensures AllJustified(w'.table, w'.spawned[j]) {
      assert AllJustified(w.table, w.spawned[j]);
      JustifiedIsStable(w.table, w'.table, w'.spawned[j]);
    }
  }

  lemma SubmitKeepsSound(s: System, batchSize: nat, r: Result<Request, AccountError>)
    requires Sound(s) && (r.Success? ==> Justified(s.writer.table, r.value))
    ensures Sound(Submit(s, batchSize, r))
  {
    if r.Success? {
      var w := Receive(s.writer, batchSize, r.value);
      assert AllJustified(w.table, s.writer.pending + [r.value]);
    }
  }

  /** Reading back a sound log gives its replay, at a version equal to its length. */
  lemma LoadedIsCurrent(t: Table, id: Uuid)
    requires NumberedTable(t)
    ensures GetById(t, id) == if Log(t, id) == [] then None else Some(Replay(id, Log(t, id)))
    ensures GetById(t, id).Some? ==> AsOf(t, GetById(t, id).value)
    ensures Draft(t, id).Some? <==> Log(t, id) != []
    ensures Draft(t, id).Some? ==> ValidSnapshot(t, Draft(t, id).value)
  {
    GetEventsOfNumbered(t, id, 0);
    ReplayVersion(DefaultAccount(id), Log(t, id));
    assert Log(t, id)[..|Log(t, id)|] == Log(t, id);
  }

  lemma DecisionIsJustified(t: Table, a: Account, c: AccountCommand, tid: Uuid, handled: bool)
    requires AsOf(t, a) && !c.CreateAccount? && c.accountId == a.id
    ensures var r := CommandRequest(a, c, tid, handled); r.Success? ==> Justified(t, r.value)
  {}

  lemma ClientStepKeepsSound(reading: Reading, batchSize: nat, s: System, step: Step)
    requires Sound(s) && (step.Create? || step.Decide?)
    ensures Sound(Exec(reading, batchSize, s, step))
  {
    match step {
      case Create(id, owner, initial, handled) =>
        assert Log(s.writer.table, id)[..0] == [];
        SubmitKeepsSound(s, batchSize, CreateRequest(id, owner, initial, handled));
      case Decide(client, c, tid, handled) =>
        if client in s.loaded && !c.CreateAccount? && c.accountId == s.loaded[client].id {
          DecisionIsJustified(s.writer.table, s.loaded[client], c, tid, handled);
          SubmitKeepsSound(s, batchSize, CommandRequest(s.loaded[client], c, tid, handled));
        }
    }
  }

  lemma LoadKeepsSound(s: System, client: nat, a: Account)
    requires Sound(s) && AsOf(s.writer.table, a)
    ensures Sound(s.(loaded := s.loaded[client := a]))
  {}

  lemma DraftKeepsSound(s: System, d: Snapshot)
    requires Sound(s) && ValidSnapshot(s.writer.table, d)
    ensures Sound(s.(drafts := s.drafts + [d]))
  {}

  lemma WriteKeepsSound(s: System, d: Snapshot)
    requires Sound(s) && ValidSnapshot(s.writer.table, d)
    ensures Sound(s.(snapshots := s.snapshots[d.id := d], written := s.written + [d]))
  {}

  lemma ReaderStepKeepsSound(reading: Reading, batchSize: nat, s: System, step: Step)
    requires Sound(s) && (step.Load? || step.DraftSnapshot? || step.WriteSnapshot?)
    ensures Sound(Exec(reading, batchSize, s, step))
  {
    match step {
      case Load(client, id) =>
        LoadedIsCurrent(s.writer.table, id);
        var a := GetById(s.writer.table, id);
        if a.Some? { LoadKeepsSound(s, client, a.value); }
      case DraftSnapshot(id) =>
        LoadedIsCurrent(s.writer.table, id);
        var d := Draft(s.writer.table, id);
        if d.Some? { DraftKeepsSound(s, d.value); }
      case WriteSnapshot(i) =>
        if i < |s.drafts| { WriteKeepsSound(s, s.drafts[i]); }
    }
  }

  lemma WriterStepKeepsSound(reading: Reading, batchSize: nat, s: System, step: Step)
    requires Sound(s) && (step.BatchTick? || step.FlushTask?)
    ensures Sound(Exec(reading, batchSize, s, step))
    ensures Extends(s.writer.table, Exec(reading, batchSize, s, step).writer.table)
  {
    if step.FlushTask? {
      FlushExtends(reading, s.writer, step.task);
      FlushKeepsLogs(reading, s.writer, step.task);
      FlushKeepsQueue(reading, s.writer, step.task);
      ReadersAreStable(s, FlushHead(reading, s.writer, step.task));
    }
  }

  lemma OnlyFlushWrites(reading: Reading, batchSize: nat, s: System, step: Step)
    requires !step.FlushTask?
    ensures Exec(reading, batchSize, s, step).writer.table == s.writer.table
  {}

  lemma StepKeepsSound(reading: Reading, batchSize: nat, s: System, step: Step)
    requires Sound(s)
    ensures Sound(Exec(reading, batchSize, s, step))
    ensures Extends(s.writer.table, Exec(reading, batchSize, s, step).writer.table)
  {
    if step.BatchTick? || step.FlushTask? {
      WriterStepKeepsSound(reading, batchSize, s, step);
      return;
    }
    OnlyFlushWrites(reading, batchSize, s, step);
    if step.Create? || step.Decide? {
      ClientStepKeepsSound(reading, batchSize, s, step);
    } else {
      ReaderStepKeepsSound(reading, batchSize, s, step);
    }
  }

  /** The protocol's safety: every interleaving, under either reading of the check, keeps the system sound. */
  lemma {:induction false} EveryRunIsSound(reading: Reading, batchSize: nat, steps: seq<Step>)
    ensures Sound(Run(reading, batchSize, steps))
  {
    if steps != [] {
      EveryRunIsSound(reading, batchSize, steps[..|steps| - 1]);
      StepKeepsSound(reading, batchSize, Run(reading, batchSize, steps[..|steps| - 1]), steps[|steps| - 1]);
    }
  }

  lemma ExtendsIsTransitive(t: Table, u: Table, v: Table)
    requires Extends(t, u) && Extends(u, v)
    ensures Extends(t, v)
  {
    forall id ensures Log(t, id) <= Log(v, id) { assert Log(t, id) <= Log(u, id); }
  }

  lemma LastStepExtends(reading: Reading, batchSize: nat, steps: seq<Step>)
    requires steps != []
    ensures Extends(Run(reading, batchSize, steps[..|steps| - 1]).writer.table, Run(reading, batchSize, steps).writer.table)
  {
    EveryRunIsSound(reading, batchSize, steps[..|steps| - 1]);
    StepKeepsSound(reading, batchSize, Run(reading, batchSize, steps[..|steps| - 1]), steps[|steps| - 1]);
  }

  /** Later states extend earlier ones. */
  lemma {:induction false} RunsExtend(reading: Reading, batchSize: nat, steps: seq<Step>, more: seq<Step>)
    ensures Extends(Run(reading, batchSize, steps).writer.table, Run(reading, batchSize, steps + more).writer.table)
  {
    var all := steps + more;
    if more == [] {
      assert all == steps;
    } else {
      assert all[..|all| - 1] == steps + more[..|more| - 1];
      RunsExtend(reading, batchSize, steps, more[..|more| - 1]);
      LastStepExtends(reading, batchSize, all);
      ExtendsIsTransitive(Run(reading, batchSize, steps).writer.table,
                          Run(reading, batchSize, all[..|all| - 1]).writer.table,
                          Run(reading, batchSize, all).writer.table);
    }
  }

  // ---------------------------------------------------------------------------
  // What it means for users of the bank
  // ---------------------------------------------------------------------------

  lemma ReachableLog(reading: Reading, batchSize: nat, steps: seq<Step>, id: Uuid)
    ensures var w := Run(reading, batchSize, steps).writer; NumberedTable(w.table) && LogSound(w.table, w.replies, id)
  {
    EveryRunIsSound(reading, batchSize, steps);
    var w := Run(reading, batchSize, steps).writer;
    assert LogSound(w.table, w.replies, id);
  }

  /** Each event of each reachable log is the decision function's answer on exactly the events before it. */
  lemma EveryEventWasDecided(reading: Reading, batchSize: nat, steps: seq<Step>, id: Uuid, i: nat)
    requires i < |Log(Run(reading, batchSize, steps).writer.table, id)|
    ensures var log := Log(Run(reading, batchSize, steps).writer.table, id);
      && DecidedOn(Replay(id, log[..i]), log[i]) && (log[i].AccountCreated? <==> i == 0)
      && log[i].accountId == id
  {
    ReachableLog(reading, batchSize, steps, id);
    var log := Log(Run(reading, batchSize, steps).writer.table, id);
    PermittedIsDecided(Replay(id, log[..i]), log[i]);
  }

  /** At every point of every log the balance is the net of its events and not negative. */
  lemma NoOverdraft(reading: Reading, batchSize: nat, steps: seq<Step>, id: Uuid, i: nat)
    requires i <= |Log(Run(reading, batchSize, steps).writer.table, id)|
    ensures var log := Log(Run(reading, batchSize, steps).writer.table, id);
      0 <= Replay(id, log[..i]).balance == Net(log[..i])
  {
    ReachableLog(reading, batchSize, steps, id);
    var log := Log(Run(reading, batchSize, steps).writer.table, id);
    LegalPrefix(id, log, i);
    LegalNeverOverdrawn(id, log[..i]);
    LegalBalance(id, log[..i]);
  }

  /** Once an account is closed its log never changes again, whatever clients do. */
  lemma ClosedForever(reading: Reading, batchSize: nat, steps: seq<Step>, more: seq<Step>, id: Uuid)
    requires var a := GetById(Run(reading, batchSize, steps).writer.table, id); a.Some? && !a.value.isActive
    ensures Log(Run(reading, batchSize, steps + more).writer.table, id)
         == Log(Run(reading, batchSize, steps).writer.table, id)
  {
    ReachableLog(reading, batchSize, steps, id);
    ReachableLog(reading, batchSize, steps + more, id);
    RunsExtend(reading, batchSize, steps, more);
    LoadedIsCurrent(Run(reading, batchSize, steps).writer.table, id);
    InactiveLogIsComplete(id, Log(Run(reading, batchSize, steps).writer.table, id),
                          Log(Run(reading, batchSize, steps + more).writer.table, id));
  }

  lemma ActiveBeforeLast(id: Uuid, log: seq<AccountEvent>, n: nat)
    requires Legal(id, log) && 1 <= n
    ensures n < |log| ==> Replay(id, log[..n]).isActive
  {
    assert n < |log| ==> Permitted(Replay(id, log[..n]), log[n]);
  }

  lemma InactiveLogIsComplete(id: Uuid, before: seq<AccountEvent>, after: seq<AccountEvent>)
    requires before <= after && Legal(id, after) && before != [] && !Replay(id, before).isActive
    ensures after == before
  {
    assert after[..|before|] == before;
    ActiveBeforeLast(id, after, |before|);
  }

  /** Versions are 1..n without gap or repeat, and n is the current version and the replayed version. */
  lemma VersionsAreContiguous(reading: Reading, batchSize: nat, steps: seq<Step>, id: Uuid)
    ensures var t := Run(reading, batchSize, steps).writer.table;
      && (forall i :: 0 <= i < |Rows(t, id)| ==> Rows(t, id)[i].version == i + 1)
      && CurrentVersion(Rows(t, id)) == |Rows(t, id)| == Replay(id, Log(t, id)).version
      && (GetById(t, id).Some? <==> Rows(t, id) != [])
      && (GetById(t, id).Some? ==> GetById(t, id).value == Replay(id, Log(t, id)))
  {
    ReachableLog(reading, batchSize, steps, id);
    var t := Run(reading, batchSize, steps).writer.table;
    NumberedCurrent(Rows(t, id));
    ReplayVersion(DefaultAccount(id), Log(t, id));
    LoadedIsCurrent(t, id);
  }

  /** No update is lost: every save ever answered `Saved` is in the log of every later state, at its own version. */
  lemma NoUpdateLost(reading: Reading, batchSize: nat, steps: seq<Step>, more: seq<Step>, id: Uuid)
    ensures var saved := SavedOf(Run(reading, batchSize, steps).writer.replies, id);
            var log := Log(Run(reading, batchSize, steps + more).writer.table, id);
      |saved| <= |log| && forall k :: 0 <= k < |saved| ==> saved[k].expected == k && saved[k].events == [log[k]]
    ensures |SavedOf(Run(reading, batchSize, steps).writer.replies, id)|
         == |Log(Run(reading, batchSize, steps).writer.table, id)|
  {
    ReachableLog(reading, batchSize, steps, id);
    RunsExtend(reading, batchSize, steps, more);
    var before := Log(Run(reading, batchSize, steps).writer.table, id);
    assert before <= Log(Run(reading, batchSize, steps + more).writer.table, id);
  }

  /** A snapshot stays usable: folding the events after its version over it gives the full replay, in every later state. */
  lemma SnapshotsStayValid(reading: Reading, batchSize: nat, steps: seq<Step>, more: seq<Step>, i: nat)
    requires i < |Run(reading, batchSize, steps).written|
    ensures var d := Run(reading, batchSize, steps).written[i];
            var t := Run(reading, batchSize, steps + more).writer.table;
      ApplyAll(d.account, Events(GetEvents(t, d.id, Some(d.version)))) == Replay(d.id, Log(t, d.id))
  {
    EveryRunIsSound(reading, batchSize, steps);
    EveryRunIsSound(reading, batchSize, steps + more);
    RunsExtend(reading, batchSize, steps, more);
    var d, t := Run(reading, batchSize, steps).written[i], Run(reading, batchSize, steps + more).writer.table;
    assert ValidSnapshot(Run(reading, batchSize, steps).writer.table, d);
    AsOfIsStable(Run(reading, batchSize, steps).writer.table, t, d.account);
    SnapshotFold(t, d);
  }

  lemma SnapshotFold(t: Table, d: Snapshot)
    requires NumberedTable(t) && ValidSnapshot(t, d)
    ensures ApplyAll(d.account, Events(GetEvents(t, d.id, Some(d.version)))) == Replay(d.id, Log(t, d.id))
  {
    GetEventsOfNumbered(t, d.id, d.version);
    var log := Log(t, d.id);
    assert Events(Rows(t, d.id)[d.version..]) == log[d.version..];
    assert log == log[..d.version] + log[d.version..];
    ApplyAllConcat(DefaultAccount(d.id), log[..d.version], log[d.version..]);
  }

  // ---------------------------------------------------------------------------
  // The stored snapshot can be overwritten by an older draft
  // ---------------------------------------------------------------------------

  predicate DraftsGrow(drafts: seq<Snapshot>) {
    forall i, j :: 0 <= i < j < |drafts| && drafts[i].id == drafts[j].id ==> drafts[i].version <= drafts[j].version
  }

  predicate FromDraft(s: System, id: Uuid) {
    id in s.snapshots ==> s.snapshots[id] in s.drafts && s.snapshots[id].id == id
  }

  ghost predicate DraftsOk(s: System) {
    DraftsGrow(s.drafts) && forall id :: FromDraft(s, id)
  }

  lemma DraftIsCurrent(t: Table, id: Uuid)
    requires NumberedTable(t)
    ensures var d := Draft(t, id); d.Some? ==> d.value.id == id && d.value.version == |Log(t, id)|
  {
    GetEventsOfNumbered(t, id, 0);
  }

  lemma NewDraftIsNewest(s: System, id: Uuid)
    requires Sound(s) && DraftsGrow(s.drafts) && Draft(s.writer.table, id).Some?
    ensures DraftsGrow(s.drafts + [Draft(s.writer.table, id).value])
  {
    DraftIsCurrent(s.writer.table, id);
    var d := Draft(s.writer.table, id).value;
    forall i | 0 <= i < |s.drafts| && s.drafts[i].id == d.id ensures s.drafts[i].version <= d.version {
      assert ValidSnapshot(s.writer.table, s.drafts[i]);
    }
  }

  lemma DraftStep(reading: Reading, batchSize: nat, s: System, id: Uuid)
    requires Sound(s) && DraftsOk(s)
    ensures DraftsOk(Exec(reading, batchSize, s, DraftSnapshot(id)))
  {
    var s' := Exec(reading, batchSize, s, DraftSnapshot(id));
    if Draft(s.writer.table, id).Some? { NewDraftIsNewest(s, id); }
    forall x ensures FromDraft(s', x) { assert FromDraft(s, x); }
  }

  lemma WriteStep(reading: Reading, batchSize: nat, s: System, i: nat)
    requires DraftsOk(s)
    ensures DraftsOk(Exec(reading, batchSize, s, WriteSnapshot(i)))
  {
    var s' := Exec(reading, batchSize, s, WriteSnapshot(i));
    forall x ensures FromDraft(s', x) { assert FromDraft(s, x); }
  }

  lemma OtherStepsLeaveSnapshots(reading: Reading, batchSize: nat, s: System, step: Step)
    requires !step.DraftSnapshot? && !step.WriteSnapshot?
    ensures var s' := Exec(reading, batchSize, s, step); s'.drafts == s.drafts && s'.snapshots == s.snapshots
  {}

  lemma {:induction false} RunsKeepDrafts(reading: Reading, batchSize: nat, steps: seq<Step>)
    ensures DraftsOk(Run(reading, batchSize, steps))
  {
    if steps != [] {
      var front, step := steps[..|steps| - 1], steps[|steps| - 1];
      var s := Run(reading, batchSize, front);
      RunsKeepDrafts(reading, batchSize, front);
      match step {
        case DraftSnapshot(id) =>
          EveryRunIsSound(reading, batchSize, front);
          DraftStep(reading, batchSize, s, id);
        case WriteSnapshot(i) => WriteStep(reading, batchSize, s, i);
        case _ =>
          OtherStepsLeaveSnapshots(reading, batchSize, s, step);
          forall id ensures FromDraft(Exec(reading, batchSize, s, step), id) { assert FromDraft(s, id); }
      }
    }
  }

  /** Whatever is drafted can be written: the draft becomes the account's snapshot and joins the written ones. */
  lemma WrittenDraftIsStored(reading: Reading, batchSize: nat, s: System, i: nat)
    requires i < |s.drafts|
    ensures var (s', d) := (Exec(reading, batchSize, s, WriteSnapshot(i)), s.drafts[i]);
      s'.snapshots == s.snapshots[d.id := d] && s'.written == s.written + [d] && s'.drafts == s.drafts
  {}

  /** In any reachable state, drafting and writing an account with a log stores its whole replay at its length. */
  lemma SnapshotIsStored(reading: Reading, batchSize: nat, steps: seq<Step>, id: Uuid)
    ensures var s := Run(reading, batchSize, steps);
            var after := Exec(reading, batchSize, Exec(reading, batchSize, s, DraftSnapshot(id)), WriteSnapshot(|s.drafts|));
            var log := Log(s.writer.table, id);
      if log == [] then after == s
      else
        var d := Snapshot(id, Replay(id, log), |log|);
        after.snapshots == s.snapshots[id := d] && after.written == s.written + [d]
  {
    ReachableLog(reading, batchSize, steps, id);
    var s := Run(reading, batchSize, steps);
    LoadedIsCurrent(s.writer.table, id);
    DraftIsCurrent(s.writer.table, id);
    DraftIsReplay(s.writer.table, id);
  }

  lemma DraftIsReplay(t: Table, id: Uuid)
    requires NumberedTable(t)
    ensures Draft(t, id).Some? ==> Draft(t, id).value.account == Replay(id, Log(t, id))
  {
    GetEventsOfNumbered(t, id, 0);
  }

  predicate GoesBack(s: System, s': System, id: Uuid) {
    id in s.snapshots && (id in s'.snapshots ==> s'.snapshots[id].version < s.snapshots[id].version)
  }

  /** The stored snapshot was drafted after the one about to be written, when the log had grown. */
  predicate Outdated(s: System, step: Step, id: Uuid) {
    && step.WriteSnapshot? && step.draft < |s.drafts| && s.drafts[step.draft].id == id && id in s.snapshots
    && exists j :: step.draft < j < |s.drafts| && s.drafts[j] == s.snapshots[id] && s.drafts[step.draft].version < s.drafts[j].version
  }

  lemma StepGoesBackExactlyWhen(reading: Reading, batchSize: nat, s: System, step: Step, id: Uuid)
    requires DraftsOk(s)
    ensures GoesBack(s, Exec(reading, batchSize, s, step), id) <==> Outdated(s, step, id)
  {
    if step.WriteSnapshot? && step.draft < |s.drafts| && s.drafts[step.draft].id == id && id in s.snapshots {
      assert FromDraft(s, id);
      var j :| 0 <= j < |s.drafts| && s.drafts[j] == s.snapshots[id];
      assert j < step.draft ==> s.drafts[j].version <= s.drafts[step.draft].version;
    } else if !step.WriteSnapshot? && !step.DraftSnapshot? {
      OtherStepsLeaveSnapshots(reading, batchSize, s, step);
    }
  }

  predicate NeverOutdated(reading: Reading, batchSize: nat, steps: seq<Step>, id: Uuid) {
    if steps == [] then true
    else
      var front := steps[..|steps| - 1];
      NeverOutdated(reading, batchSize, front, id) && !Outdated(Run(reading, batchSize, front), steps[|steps| - 1], id)
  }

  predicate NeverGoesBack(reading: Reading, batchSize: nat, steps: seq<Step>, id: Uuid) {
    if steps == [] then true
    else
      var front := steps[..|steps| - 1];
      NeverGoesBack(reading, batchSize, front, id) && !GoesBack(Run(reading, batchSize, front), Run(reading, batchSize, steps), id)
  }

  /** In every run the stored snapshot's version never goes back exactly when no write replaces one drafted later from a longer log. */
  lemma {:induction false} SnapshotNeverGoesBackExactlyWhen(reading: Reading, batchSize: nat, steps: seq<Step>, id: Uuid)
    ensures NeverGoesBack(reading, batchSize, steps, id) <==> NeverOutdated(reading, batchSize, steps, id)
  {
    if steps != [] {
      var front := steps[..|steps| - 1];
      SnapshotNeverGoesBackExactlyWhen(reading, batchSize, front, id);
      RunsKeepDrafts(reading, batchSize, front);
      StepGoesBackExactlyWhen(reading, batchSize, Run(reading, batchSize, front), steps[|steps| - 1], id);
    }
  }

  // ---------------------------------------------------------------------------
  // Progress: a client nobody interferes with gets its command stored
  // ---------------------------------------------------------------------------

  /** The writer's part: received, spawned by the batch size or the timeout, and its batch flushed up to and including it. */
  function Settled(batchSize: nat, w: Writer, req: Request): Writer {
    FlushHeads(AsMeant, Timeout(Receive(w, batchSize, req)), |w.spawned|, |w.pending| + 1)
  }

  /** Saves waiting in the pending batch, none of them for this account. */
  predicate OthersPending(reqs: seq<Request>, id: Uuid) {
    forall i :: 0 <= i < |reqs| ==> reqs[i].id != id && Queued(reqs[i])
  }

  lemma {:induction false} OthersFlushed(v: Writer, k: nat, j: nat, id: Uuid)
    requires NumberedTable(v.table) && k < |v.spawned| && j <= |v.spawned[k]| && OthersPending(v.spawned[k][..j], id)
    ensures var u := FlushHeads(AsMeant, v, k, j);
      && NumberedTable(u.table) && Log(u.table, id) == Log(v.table, id)
      && |u.spawned| == |v.spawned| && u.spawned[k] == v.spawned[k][j..]
  {
    if j > 0 {
      assert v.spawned[k][..j][..j - 1] == v.spawned[k][..j - 1];
      OthersFlushed(v, k, j - 1, id);
      var u := FlushHeads(AsMeant, v, k, j - 1);
      assert u.spawned[k][0] == v.spawned[k][..j][j - 1];
      ProcessEffect(AsMeant, u.table, u.spawned[k][0]);
    }
  }

  lemma SpawnedTogether(batchSize: nat, w: Writer, req: Request)
    requires Queued(req)
    ensures var v := Timeout(Receive(w, batchSize, req));
      v.spawned == w.spawned + [w.pending + [req]] && v.table == w.table && v.replies == w.replies
  {}

  lemma CurrentSaveIsStored(batchSize: nat, w: Writer, req: Request)
    requires NumberedTable(w.table) && OthersPending(w.pending, req.id)
    requires Queued(req) && req.handled && req.expected == |Log(w.table, req.id)|
    ensures Log(Settled(batchSize, w, req).table, req.id) == Log(w.table, req.id) + req.events
  {
    var v, k, n := Timeout(Receive(w, batchSize, req)), |w.spawned|, |w.pending|;
    SpawnedTogether(batchSize, w, req);
    assert v.spawned[k] == w.pending + [req] && v.spawned[k][..n] == w.pending;
    OthersFlushed(v, k, n, req.id);
    var u := FlushHeads(AsMeant, v, k, n);
    assert u.spawned[k] == [req];
    AsMeantExact(u.table, req);
    ProcessEffect(AsMeant, u.table, req);
  }

  lemma RunSnoc(reading: Reading, batchSize: nat, steps: seq<Step>, step: Step)
    ensures Run(reading, batchSize, steps + [step]) == Exec(reading, batchSize, Run(reading, batchSize, steps), step)
  {
    assert (steps + [step])[..|steps|] == steps;
  }

  function Flushes(k: nat, n: nat): seq<Step> {
    if n == 0 then [] else Flushes(k, n - 1) + [FlushTask(k)]
  }

  function From(batchSize: nat, s: System, steps: seq<Step>): System {
    if steps == [] then s else Exec(AsMeant, batchSize, From(batchSize, s, steps[..|steps| - 1]), steps[|steps| - 1])
  }

  lemma {:induction false} RunConcat(batchSize: nat, steps: seq<Step>, more: seq<Step>)
    ensures Run(AsMeant, batchSize, steps + more) == From(batchSize, Run(AsMeant, batchSize, steps), more)
  {
    if more == [] {
      assert steps + more == steps;
    } else {
      var front := more[..|more| - 1];
      RunConcat(batchSize, steps, front);
      RunSnoc(AsMeant, batchSize, steps + front, more[|more| - 1]);
      assert steps + more == steps + front + [more[|more| - 1]];
    }
  }

  lemma {:induction false} FlushesRun(batchSize: nat, s: System, k: nat, n: nat)
    ensures From(batchSize, s, Flushes(k, n)) == s.(writer := FlushHeads(AsMeant, s.writer, k, n))
  {
    if n > 0 {
      FlushesRun(batchSize, s, k, n - 1);
      assert Flushes(k, n)[..|Flushes(k, n)| - 1] == Flushes(k, n - 1);
    }
  }

  lemma SettledRun(batchSize: nat, steps: seq<Step>, before: Writer, req: Request)
    requires Run(AsMeant, batchSize, steps).writer == Receive(before, batchSize, req)
    ensures Run(AsMeant, batchSize, steps + [BatchTick] + Flushes(|before.spawned|, |before.pending| + 1)).writer
         == Settled(batchSize, before, req)
  {
    var ticked, k, n := steps + [BatchTick], |before.spawned|, |before.pending| + 1;
    RunSnoc(AsMeant, batchSize, steps, BatchTick);
    RunConcat(batchSize, ticked, Flushes(k, n));
    FlushesRun(batchSize, Run(AsMeant, batchSize, ticked), k, n);
  }

  lemma LoadedCommandIsCurrent(batchSize: nat, s: System, client: nat, id: Uuid, c: AccountCommand, tid: Uuid) returns (req: Request)
    requires NumberedTable(s.writer.table) && Log(s.writer.table, id) != [] && !c.CreateAccount? && c.accountId == id
    requires HandleCommand(Replay(id, Log(s.writer.table, id)), c, tid).Success?
    ensures req == Request(id, HandleCommand(Replay(id, Log(s.writer.table, id)), c, tid).value, |Log(s.writer.table, id)|, true)
    ensures Queued(req)
    ensures Exec(AsMeant, batchSize, Exec(AsMeant, batchSize, s, Load(client, id)), Decide(client, c, tid, true)).writer
         == Receive(s.writer, batchSize, req)
  {
    LoadedIsCurrent(s.writer.table, id);
    ReplayVersion(DefaultAccount(id), Log(s.writer.table, id));
    req := CommandRequest(Replay(id, Log(s.writer.table, id)), c, tid, true).value;
  }

  /**
   In any reachable state where nothing is pending for the account, a load, a lawful command and a flush
   append exactly the decided event.
   */
  lemma UndisturbedCommandIsStored(batchSize: nat, steps: seq<Step>, client: nat, id: Uuid, c: AccountCommand, tid: Uuid)
    requires var w := Run(AsMeant, batchSize, steps).writer;
      && OthersPending(w.pending, id) && Log(w.table, id) != [] && !c.CreateAccount? && c.accountId == id
      && HandleCommand(Replay(id, Log(w.table, id)), c, tid).Success?
    ensures var w := Run(AsMeant, batchSize, steps).writer;
            var after := Run(AsMeant, batchSize, steps + [Load(client, id)] + [Decide(client, c, tid, true)]
                                                 + [BatchTick] + Flushes(|w.spawned|, |w.pending| + 1)).writer;
      Log(after.table, id) == Log(w.table, id) + HandleCommand(Replay(id, Log(w.table, id)), c, tid).value
  {
    ReachableLog(AsMeant, batchSize, steps, id);
    var s, all := Run(AsMeant, batchSize, steps), steps + [Load(client, id)] + [Decide(client, c, tid, true)];
    RunSnoc(AsMeant, batchSize, steps, Load(client, id));
    RunSnoc(AsMeant, batchSize, steps + [Load(client, id)], Decide(client, c, tid, true));
    var req := LoadedCommandIsCurrent(batchSize, s, client, id, c, tid);
    CurrentSaveIsStored(batchSize, s.writer, req);
    SettledRun(batchSize, all, s.writer, req);
  }

  /** So a client nobody interferes with, loading the account afterwards, finds the balance its command asked for. */
  lemma UndisturbedCommandTakesEffect(batchSize: nat, steps: seq<Step>, client: nat, id: Uuid, c: AccountCommand, tid: Uuid)
    requires var w := Run(AsMeant, batchSize, steps).writer;
      && OthersPending(w.pending, id) && Log(w.table, id) != [] && !c.CreateAccount? && c.accountId == id
      && HandleCommand(Replay(id, Log(w.table, id)), c, tid).Success?
    ensures var w := Run(AsMeant, batchSize, steps).writer;
            var after := Run(AsMeant, batchSize, steps + [Load(client, id)] + [Decide(client, c, tid, true)]
                                                 + [BatchTick] + Flushes(|w.spawned|, |w.pending| + 1)).writer;
            var (a, b) := (GetById(w.table, id), GetById(after.table, id));
      && a.Some? && b.Some? && b.value.balance == AskedBalance(a.value.balance, c)
      && b.value.version == a.value.version + 1 && b.value.ownerName == a.value.ownerName
      && (b.value.isActive <==> !c.CloseAccount?)
  {
    var w := Run(AsMeant, batchSize, steps).writer;
    var all := steps + [Load(client, id)] + [Decide(client, c, tid, true)] + [BatchTick] + Flushes(|w.spawned|, |w.pending| + 1);
    UndisturbedCommandIsStored(batchSize, steps, client, id, c, tid);
    AppendedDecision(batchSize, steps, all, id, c, tid);
  }

  lemma AppendedDecision(batchSize: nat, steps: seq<Step>, more: seq<Step>, id: Uuid, c: AccountCommand, tid: Uuid)
    requires var (t, u) := (Run(AsMeant, batchSize, steps).writer.table, Run(AsMeant, batchSize, more).writer.table);
      && Log(t, id) != [] && HandleCommand(Replay(id, Log(t, id)), c, tid).Success? && !c.CreateAccount?
      && Log(u, id) == Log(t, id) + HandleCommand(Replay(id, Log(t, id)), c, tid).value
    ensures var (t, u) := (Run(AsMeant, batchSize, steps).writer.table, Run(AsMeant, batchSize, more).writer.table);
            var (a, b) := (GetById(t, id), GetById(u, id));
      && a.Some? && b.Some? && b.value.balance == AskedBalance(a.value.balance, c)
      && b.value.version == a.value.version + 1 && b.value.ownerName == a.value.ownerName
      && (b.value.isActive <==> !c.CloseAccount?)
  {
    var t := Run(AsMeant, batchSize, steps).writer.table;
    ReachableLog(AsMeant, batchSize, steps, id);
    ReachableLog(AsMeant, batchSize, more, id);
    LoadedIsCurrent(t, id);
    LoadedIsCurrent(Run(AsMeant, batchSize, more).writer.table, id);
    var a := Replay(id, Log(t, id));
    DecisionTakesEffect(a, c, tid);
    ApplyAllConcat(DefaultAccount(id), Log(t, id), HandleCommand(a, c, tid).value);
  }

  /** Likewise the creation of an account that has no log yet. */
  lemma UndisturbedCreationIsStored(batchSize: nat, steps: seq<Step>, id: Uuid, owner: string, initial: Money)
    requires var w := Run(AsMeant, batchSize, steps).writer; OthersPending(w.pending, id) && Log(w.table, id) == [] && 0 <= initial
    ensures var w := Run(AsMeant, batchSize, steps).writer;
            var after := Run(AsMeant, batchSize, steps + [Create(id, owner, initial, true)]
                                                 + [BatchTick] + Flushes(|w.spawned|, |w.pending| + 1)).writer;
      Log(after.table, id) == [AccountCreated(id, owner, initial)]
  {
    ReachableLog(AsMeant, batchSize, steps, id);
    var w := Run(AsMeant, batchSize, steps).writer;
    RunSnoc(AsMeant, batchSize, steps, Create(id, owner, initial, true));
    var req := CreateRequest(id, owner, initial, true).value;
    CurrentSaveIsStored(batchSize, w, req);
    SettledRun(batchSize, steps + [Create(id, owner, initial, true)], w, req);
  }

  /** With the check as written no save ever succeeds: every reachable store is empty. */
  lemma AsWrittenStoreStaysEmpty(batchSize: nat, steps: seq<Step>, id: Uuid)
    ensures Log(Run(AsWritten, batchSize, steps).writer.table, id) == []
    ensures SavedOf(Run(AsWritten, batchSize, steps).writer.replies, id) == []
  {
    NothingSaved(batchSize, steps);
    NoUpdateLost(AsWritten, batchSize, steps, [], id);
    assert steps + [] == steps;
  }

  lemma {:induction false} NothingSaved(batchSize: nat, steps: seq<Step>)
    ensures Run(AsWritten, batchSize, steps).writer.table == map[]
  {
    if steps != [] {
      var s := Run(AsWritten, batchSize, steps[..|steps| - 1]);
      NothingSaved(batchSize, steps[..|steps| - 1]);
      EveryRunIsSound(AsWritten, batchSize, steps[..|steps| - 1]);
      var step := steps[|steps| - 1];
      if step.FlushTask? && step.task < |s.writer.spawned| && s.writer.spawned[step.task] != [] {
        assert AllJustified(s.writer.table, s.writer.spawned[step.task]);
        assert Justified(s.writer.table, s.writer.spawned[step.task][0]);
        AsWrittenRejectsAll(s.writer.table, s.writer.spawned[step.task][0]);
      }
    }
  }
}
