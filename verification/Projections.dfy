/** The read model and the Kafka processor that caches an account built from it. */
module Projections {
  import opened Domain
  import opened EventStore

  datatype Projection = Projection(id: Uuid, ownerName: string, balance: Money, isActive: bool)

  function Project(p: Projection, e: AccountEvent): Projection {
    match e
    case AccountCreated(_, owner, initial) => p.(ownerName := owner, balance := initial, isActive := true)
    case MoneyDeposited(_, amount, _) => p.(balance := p.balance + amount)
    case MoneyWithdrawn(_, amount, _) => p.(balance := p.balance - amount)
    case AccountClosed(_, _) => p.(isActive := false)
  }

  function ProjectAll(p: Projection, es: seq<AccountEvent>): Projection {
    if es == [] then p else Project(ProjectAll(p, es[..|es| - 1]), es[|es| - 1])
  }

  /** The projection shows the account's current owner, balance and activity. */
  predicate Reflects(p: Projection, a: Account) {
    p.id == a.id && p.ownerName == a.ownerName && p.balance == a.balance && p.isActive == a.isActive
  }

  predicate Creates(es: seq<AccountEvent>) {
    exists i :: 0 <= i < |es| && es[i].AccountCreated?
  }

  predicate Closes(es: seq<AccountEvent>) {
    exists i :: 0 <= i < |es| && es[i].AccountClosed?
  }

  /** What the projection must already show for `es` to bring it level with the account. */
  predicate CloseEnough(p: Projection, a: Account, es: seq<AccountEvent>) {
    && p.id == a.id
    && (Creates(es) || (p.ownerName == a.ownerName && p.balance == a.balance))
    && (Creates(es) || Closes(es) || p.isActive == a.isActive)
  }

  lemma SnocCreatesOrCloses(es: seq<AccountEvent>, e: AccountEvent)
    ensures Creates(es + [e]) <==> Creates(es) || e.AccountCreated?
    ensures Closes(es + [e]) <==> Closes(es) || e.AccountClosed?
  {
    var all := es + [e];
    assert all[|es|] == e;
    assert forall i :: 0 <= i < |es| ==> all[i] == es[i];
  }

  /** The two folds agree at the end exactly when the projection was close enough at the start. */
  lemma {:induction false} FoldsAgreeExactly(p: Projection, a: Account, es: seq<AccountEvent>)
    ensures Reflects(ProjectAll(p, es), ApplyAll(a, es)) <==> CloseEnough(p, a, es)
    ensures ProjectAll(p, es).id == p.id && ApplyAll(a, es).id == a.id
    ensures var (q, b) := (ProjectAll(p, es), ApplyAll(a, es));
      && (q.ownerName == b.ownerName && q.balance == b.balance
          <==> Creates(es) || (p.ownerName == a.ownerName && p.balance == a.balance))
      && (q.isActive == b.isActive <==> Creates(es) || Closes(es) || p.isActive == a.isActive)
  {
    if es != [] {
      var front, last := es[..|es| - 1], es[|es| - 1];
      FoldsAgreeExactly(p, a, front);
      assert es == front + [last];
      SnocCreatesOrCloses(front, last);
    }
  }

  datatype EventBatch = EventBatch(accountId: Uuid, events: seq<AccountEvent>, version: int)

  /** The request `process_batch` saves: the batch's version tag is taken as the expected version. */
  function SaveOf(batch: EventBatch): Request {
    Request(batch.accountId, batch.events, batch.version, true)
  }

  function CachedAccount(p: Projection, batch: EventBatch): Account {
    var q := ProjectAll(p, batch.events);
    Account(q.id, q.ownerName, q.balance, q.isActive, batch.version + |batch.events|)
  }

  function CachedEvents(batch: EventBatch): (r: seq<(int, AccountEvent)>)
    ensures |r| == |batch.events|
    ensures forall i :: 0 <= i < |r| ==> r[i] == (batch.version + i, batch.events[i])
  {
    seq(|batch.events|, i requires 0 <= i < |batch.events| => (batch.version + i, batch.events[i]))
  }

  /** Which of the calls after the save succeed, in order. */
  datatype Calls = Calls(cacheEvents: bool, findProjection: bool, cacheAccount: bool, announce: bool)

  predicate CachesAccount(calls: Calls) {
    calls.cacheEvents && calls.findProjection && calls.cacheAccount
  }

  method VersionEvents(batch: EventBatch) returns (versioned: seq<(int, AccountEvent)>)
    ensures versioned == CachedEvents(batch)
  {
    versioned := [];
    for i := 0 to |batch.events|
      invariant versioned == CachedEvents(batch)[..i]
    {
      versioned := versioned + [(batch.version + i, batch.events[i])];
    }
  }

  method BringUpToDate(before: Projection, events: seq<AccountEvent>) returns (p: Projection)
    ensures p == ProjectAll(before, events)
  {
    p := before;
    for i := 0 to |events|
      invariant p == ProjectAll(before, events[..i])
    {
      p := Project(p, events[i]);
      assert events[..i + 1][..i] == events[..i];
    }
    assert events[..|events|] == events;
  }

  class EventProcessor {
    const reading: Reading
    var table: Table
    var projections: map<Uuid, Projection>
    var eventCache: map<Uuid, seq<(int, AccountEvent)>>
    var accountCache: map<Uuid, Account>

    constructor (reading: Reading, table: Table, projections: map<Uuid, Projection>)
      ensures this.reading == reading && this.table == table && this.projections == projections
      ensures eventCache == map[] && accountCache == map[]
    {
      this.reading, this.table, this.projections := reading, table, projections;
      eventCache, accountCache := map[], map[];
    }

    /**
     Save, cache the events, then bring the projection up to date in a loop and cache the result.  `handled` is
     whether the event handlers accept; the other flags say which of the later calls succeed.
     */
    method ProcessBatch(batch: EventBatch, handled: bool, calls: Calls) returns (o: Outcome, ok: bool)
      modifies this`table, this`eventCache, this`accountCache
      ensures (table, o) == if batch.events == [] then (old(table), Saved)
                            else Process(reading, old(table), SaveOf(batch).(handled := handled))
      ensures eventCache == if o.Saved? && calls.cacheEvents then old(eventCache)[batch.accountId := CachedEvents(batch)]
                            else old(eventCache)
      ensures accountCache == if o.Saved? && CachesAccount(calls) && batch.accountId in projections
                              then var a := CachedAccount(projections[batch.accountId], batch); old(accountCache)[a.id := a]
                              else old(accountCache)
      ensures ok <==> o.Saved? && calls.cacheEvents && calls.findProjection
                      && (batch.accountId in projections ==> calls.cacheAccount && calls.announce)
    {
      o, ok := Saved, false;
      if batch.events != [] {
        var r := Process(reading, table, SaveOf(batch).(handled := handled));
        table, o := r.0, r.1;
        if o.Rejected? { return; }
      }
      var versioned := VersionEvents(batch);
      if !calls.cacheEvents { return; }
      eventCache := eventCache[batch.accountId := versioned];
      if !calls.findProjection { return; }
      if batch.accountId in projections {
        var p := BringUpToDate(projections[batch.accountId], batch.events);
        if !calls.cacheAccount { return; }
        var account := Account(p.id, p.ownerName, p.balance, p.isActive, batch.version + |batch.events|);
        accountCache := accountCache[account.id := account];
        if !calls.announce { return; }
      }
      ok := true;
    }
  }

  /**
   The account cached after a successful save equals, version included, the account replayed from the
   extended log exactly when the stored projection was close enough to the log before the batch.
   */
  lemma CachedAccountExact(t: Table, p: Projection, batch: EventBatch)
    requires NumberedTable(t) && batch.events != [] && Process(AsMeant, t, SaveOf(batch)).1.Saved?
    ensures var log := Log(Process(AsMeant, t, SaveOf(batch)).0, batch.accountId);
      CachedAccount(p, batch) == Replay(batch.accountId, log)
      <==> CloseEnough(p, Replay(batch.accountId, Log(t, batch.accountId)), batch.events)
  {
    var id := batch.accountId;
    ProcessEffect(AsMeant, t, SaveOf(batch));
    CachedAccountOfLog(Log(t, id), p, batch);
  }

  lemma CachedAccountOfLog(log: seq<AccountEvent>, p: Projection, batch: EventBatch)
    requires batch.version == |log|
    ensures CachedAccount(p, batch) == Replay(batch.accountId, log + batch.events)
      <==> CloseEnough(p, Replay(batch.accountId, log), batch.events)
  {
    var id := batch.accountId;
    var before := Replay(id, log);
    ApplyAllConcat(DefaultAccount(id), log, batch.events);
    ReplayVersion(DefaultAccount(id), log);
    ReplayVersion(before, batch.events);
    FoldsAgreeExactly(p, before, batch.events);
  }

  /** In particular a projection of the first `batch.version` events caches the true account. */
  lemma UpToDateProjectionCachesTheTruth(t: Table, p: Projection, batch: EventBatch)
    requires NumberedTable(t) && batch.events != [] && Process(AsMeant, t, SaveOf(batch)).1.Saved?
    requires 0 <= batch.version <= |Log(t, batch.accountId)|
    requires Reflects(p, Replay(batch.accountId, Log(t, batch.accountId)[..batch.version]))
    ensures CachedAccount(p, batch)
         == Replay(batch.accountId, Log(Process(AsMeant, t, SaveOf(batch)).0, batch.accountId))
  {
    ProcessEffect(AsMeant, t, SaveOf(batch));
    var log := Log(t, batch.accountId);
    assert log[..batch.version] == log;
    CachedAccountExact(t, p, batch);
  }

  /** The versions put in the event cache are one below the versions the store wrote. */
  lemma CachedEventVersionsLag(t: Table, batch: EventBatch, i: nat)
    requires NumberedTable(t) && i < |batch.events| && Process(AsMeant, t, SaveOf(batch)).1.Saved?
    ensures var rows := Rows(Process(AsMeant, t, SaveOf(batch)).0, batch.accountId);
            var k := |Rows(t, batch.accountId)| + i;
      && k < |rows| && rows[k].event == CachedEvents(batch)[i].1
      && CachedEvents(batch)[i].0 == rows[k].version - 1
  {
    ProcessEffect(AsMeant, t, SaveOf(batch));
  }
}
