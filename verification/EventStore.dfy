/**
 The event table and the optimistic version check, one request at a time.

 The source's check compares the table against the version of the first row it is about to
 insert, which is already one past the version the caller expects.  `AsWritten` is that check to
 the letter; `AsMeant` compares against the caller's expected version, with 0 for an empty stream.
 */
module EventStore {
  import opened Wrappers
  import opened Domain

  datatype Row = Row(version: int, event: AccountEvent)

  /** Rows per aggregate, in insertion order. */
  type Table = map<Uuid, seq<Row>>

  datatype Reading = AsWritten | AsMeant

  /** A queued save; `handled` is the verdict of the registered event handlers. */
  datatype Request = Request(id: Uuid, events: seq<AccountEvent>, expected: int, handled: bool)

  datatype StoreError =
    | ConcurrencyConflict(id: Uuid, expected: int, actual: int)
    | DatabaseError
    | ValidationError
    | EventHandlingError

  datatype Outcome = Saved | Rejected(error: StoreError)

  function Rows(t: Table, id: Uuid): seq<Row> {
    if id in t then t[id] else []
  }

  function Events(rows: seq<Row>): (es: seq<AccountEvent>)
    ensures |es| == |rows|
    ensures forall i :: 0 <= i < |rows| ==> es[i] == rows[i].event
  {
    seq(|rows|, i requires 0 <= i < |rows| => rows[i].event)
  }

  function Log(t: Table, id: Uuid): seq<AccountEvent> {
    Events(Rows(t, id))
  }

  /** The highest version of an aggregate, 0 when it has no rows. */
  function CurrentVersion(rows: seq<Row>): (v: int)
    ensures rows != [] ==> exists i :: 0 <= i < |rows| && rows[i].version == v
    ensures forall i :: 0 <= i < |rows| && rows != [] ==> rows[i].version <= v
    ensures rows == [] ==> v == 0
  {
    if rows == [] then 0
    else
      var last := rows[|rows| - 1].version;
      if |rows| == 1 then last
      else
        var rest := CurrentVersion(rows[..|rows| - 1]);
        assert exists i :: 0 <= i < |rows| - 1 && rows[..|rows| - 1][i].version == rest && rows[i].version == rest;
        if rest < last then last else rest
  }

  /** The rows a request turns into: versions start one past the expected version. */
  function Prepare(req: Request): (rows: seq<Row>)
    ensures |rows| == |req.events|
    ensures forall i :: 0 <= i < |rows| ==> rows[i] == Row(req.expected + i + 1, req.events[i])
  {
    seq(|req.events|, i requires 0 <= i < |req.events| => Row(req.expected + i + 1, req.events[i]))
  }

  method PrepareEvents(req: Request) returns (rows: seq<Row>)
    ensures rows == Prepare(req)
  {
    rows := [];
    var version := req.expected;
    for i := 0 to |req.events|
      invariant version == req.expected + i
      invariant rows == Prepare(req)[..i]
    {
      version := version + 1;
      rows := rows + [Row(version, req.events[i])];
    }
  }

  /** The table's unique constraint on (aggregate, version), for one aggregate. */
  predicate UniqueVersions(rows: seq<Row>) {
    forall i, j :: 0 <= i < j < |rows| ==> rows[i].version != rows[j].version
  }

  function BulkInsert(reading: Reading, t: Table, id: Uuid, rows: seq<Row>): (Table, Outcome) {
    if rows == [] then (t, Saved)
    else
      var existing := Rows(t, id);
      var expected := if reading.AsWritten? then rows[0].version else rows[0].version - 1;
      var current := CurrentVersion(existing);
      if reading.AsWritten? && existing == [] then (t, Rejected(DatabaseError))
      else if current != expected then (t, Rejected(ConcurrencyConflict(id, expected, current)))
      else if |rows| > 1 && exists i :: 0 <= i < |rows| && rows[i].version != expected + i + 1 then
        (t, Rejected(ValidationError))
      else if !UniqueVersions(existing + rows) then (t, Rejected(ConcurrencyConflict(id, expected, current)))
      else (t[id := existing + rows], Saved)
  }

  /** One request inside a flush: validate, run the handlers, insert. */
  function Process(reading: Reading, t: Table, req: Request): (Table, Outcome) {
    var rows := Prepare(req);
    if exists i :: 0 <= i < |rows| && rows[i].version <= 0 then (t, Rejected(ValidationError))
    else if !req.handled then (t, Rejected(EventHandlingError))
    else BulkInsert(reading, t, req.id, rows)
  }

  /** `save_events` answers empty saves itself and queues everything else. */
  predicate Queued(req: Request) {
    req.events != []
  }

  // ---------------------------------------------------------------------------
  // The check as written accepts nothing; as meant it accepts exactly the current version.
  // ---------------------------------------------------------------------------

  /** On every table whatsoever, the check as written rejects every queued request. */
  lemma AsWrittenRejectsAll(t: Table, req: Request)
    requires Queued(req)
    ensures Process(AsWritten, t, req).0 == t && Process(AsWritten, t, req).1.Rejected?
  {
    var rows, existing := Prepare(req), Rows(t, req.id);
    if existing != [] && CurrentVersion(existing) == rows[0].version {
      if |rows| > 1 {
        assert rows[0].version != rows[0].version + 0 + 1;
      } else {
        var i :| 0 <= i < |existing| && existing[i].version == CurrentVersion(existing);
        assert (existing + rows)[i].version == (existing + rows)[|existing|].version;
      }
    }
  }

  /** Versions are exactly 1, 2, ..., n in insertion order. */
  predicate Numbered(rows: seq<Row>) {
    forall i :: 0 <= i < |rows| ==> rows[i].version == i + 1
  }

  predicate NumberedTable(t: Table) {
    forall id :: id in t ==> Numbered(t[id])
  }

  lemma NumberedCurrent(rows: seq<Row>)
    requires Numbered(rows)
    ensures CurrentVersion(rows) == |rows|
  {
    if rows != [] {
      assert rows[|rows| - 1].version == |rows|;
    }
  }

  /** What the check means: the full answer on a numbered stream, accepting iff nothing was saved since. */
  lemma AsMeantExact(t: Table, req: Request)
    requires Queued(req) && NumberedTable(t)
    ensures var n := |Rows(t, req.id)|;
      Process(AsMeant, t, req) ==
        if req.expected < 0 then (t, Rejected(ValidationError))
        else if !req.handled then (t, Rejected(EventHandlingError))
        else if req.expected != n then (t, Rejected(ConcurrencyConflict(req.id, req.expected, n)))
        else (t[req.id := Rows(t, req.id) + Prepare(req)], Saved)
  {
    var rows, existing := Prepare(req), Rows(t, req.id);
    NumberedCurrent(existing);
    assert rows[0].version == req.expected + 1;
    if req.expected == |existing| {
      assert Numbered(existing + rows);
    }
  }

  /** A numbered table stays numbered, under either reading. */
  lemma ProcessEffect(reading: Reading, t: Table, req: Request)
    requires Queued(req) && NumberedTable(t)
    ensures var (t', o) := Process(reading, t, req);
      && NumberedTable(t')
      && (o.Rejected? ==> t' == t)
      && (o.Saved? ==> reading.AsMeant? && req.handled && req.expected == |Rows(t, req.id)|
                       && t' == t[req.id := Rows(t, req.id) + Prepare(req)]
                       && Log(t', req.id) == Log(t, req.id) + req.events)
      && (forall id :: id != req.id ==> Log(t', id) == Log(t, id))
  {
    if reading.AsWritten? { AsWrittenRejectsAll(t, req); } else { AsMeantExact(t, req); }
  }

  // ---------------------------------------------------------------------------
  // Reading back
  // ---------------------------------------------------------------------------

  function NewerThan(rows: seq<Row>, v: int): seq<Row> {
    if rows == [] then []
    else
      var front, last := rows[..|rows| - 1], rows[|rows| - 1];
      if last.version > v then NewerThan(front, v) + [last] else NewerThan(front, v)
  }

  predicate Ascending(rows: seq<Row>) {
    forall i, j :: 0 <= i < j < |rows| ==> rows[i].version <= rows[j].version
  }

  function InsertRow(rows: seq<Row>, r: Row): seq<Row> {
    if rows == [] || rows[|rows| - 1].version <= r.version then rows + [r]
    else InsertRow(rows[..|rows| - 1], r) + [rows[|rows| - 1]]
  }

  /** `ORDER BY version ASC`. */
  function SortByVersion(rows: seq<Row>): seq<Row> {
    if rows == [] then [] else InsertRow(SortByVersion(rows[..|rows| - 1]), rows[|rows| - 1])
  }

  function GetEvents(t: Table, id: Uuid, from: Option<int>): seq<Row> {
    SortByVersion(NewerThan(Rows(t, id), if from.Some? then from.value else -1))
  }

  predicate AtMost(rows: seq<Row>, v: int) {
    forall i :: 0 <= i < |rows| ==> rows[i].version <= v
  }

  lemma {:induction false} InsertRowAtMost(rows: seq<Row>, r: Row, v: int)
    requires AtMost(rows, v) && r.version <= v
    ensures AtMost(InsertRow(rows, r), v)
  {
    if rows != [] { InsertRowAtMost(rows[..|rows| - 1], r, v); }
  }

  lemma {:induction false} InsertRowOrdered(rows: seq<Row>, r: Row)
    requires Ascending(rows)
    ensures Ascending(InsertRow(rows, r))
  {
    if rows != [] && r.version < rows[|rows| - 1].version {
      var front, last := rows[..|rows| - 1], rows[|rows| - 1];
      InsertRowOrdered(front, r);
      InsertRowAtMost(front, r, last.version);
    }
  }

  lemma {:induction false} InsertRowKeeps(rows: seq<Row>, r: Row)
    ensures multiset(InsertRow(rows, r)) == multiset(rows) + multiset{r}
  {
    if rows != [] {
      assert rows == rows[..|rows| - 1] + [rows[|rows| - 1]];
      InsertRowKeeps(rows[..|rows| - 1], r);
    }
  }

  /** The ordering clause neither loses nor invents rows. */
  lemma {:induction false} SortOrders(rows: seq<Row>)
    ensures Ascending(SortByVersion(rows)) && multiset(SortByVersion(rows)) == multiset(rows)
  {
    if rows != [] {
      assert rows == rows[..|rows| - 1] + [rows[|rows| - 1]];
      SortOrders(rows[..|rows| - 1]);
      InsertRowOrdered(SortByVersion(rows[..|rows| - 1]), rows[|rows| - 1]);
      InsertRowKeeps(SortByVersion(rows[..|rows| - 1]), rows[|rows| - 1]);
    }
  }

  lemma {:induction false} SortOfAscending(rows: seq<Row>)
    requires Ascending(rows)
    ensures SortByVersion(rows) == rows
  {
    if rows != [] {
      SortOfAscending(rows[..|rows| - 1]);
      assert |rows| > 1 ==> rows[|rows| - 2].version <= rows[|rows| - 1].version;
    }
  }

  lemma {:induction false} NewerThanAll(rows: seq<Row>, v: int)
    requires Numbered(rows) && |rows| <= v
    ensures NewerThan(rows, v) == []
  {
    if rows != [] { NewerThanAll(rows[..|rows| - 1], v); }
  }

  lemma {:induction false} NewerThanNone(rows: seq<Row>, v: int)
    requires Numbered(rows) && v <= 0
    ensures NewerThan(rows, v) == rows
  {
    if rows != [] { NewerThanNone(rows[..|rows| - 1], v); }
  }

  lemma {:induction false} NewerThanTail(rows: seq<Row>, v: nat)
    requires Numbered(rows) && v <= |rows|
    ensures NewerThan(rows, v) == rows[v..]
  {
    if v == |rows| {
      NewerThanAll(rows, v);
    } else {
      var front, last := rows[..|rows| - 1], rows[|rows| - 1];
      NewerThanTail(front, v);
      assert front[v..] + [last] == rows[v..];
    }
  }

  /** On a numbered stream `get_events(None)` is the whole stream and `get_events(Some(v))` its tail after v rows. */
  lemma GetEventsOfNumbered(t: Table, id: Uuid, v: nat)
    requires NumberedTable(t) && v <= |Rows(t, id)|
    ensures GetEvents(t, id, None) == Rows(t, id)
    ensures GetEvents(t, id, Some(v)) == Rows(t, id)[v..]
  {
    var rows := Rows(t, id);
    assert Numbered(rows);
    NewerThanNone(rows, -1);
    NewerThanTail(rows, v);
    SortOfAscending(rows);
    SortOfAscending(rows[v..]);
  }

  /** `get_by_id` and the store's own `get_account`: replay whatever `get_events` returns. */
  method RebuildAccount(id: Uuid, stored: seq<Row>) returns (r: Option<Account>)
    ensures r == Rebuilt(id, stored)
  {
    if stored == [] { return None; }
    var account := new LiveAccount.Default(id);
    for i := 0 to |stored|
      invariant account.Value() == Replay(id, Events(stored)[..i])
    {
      account.ApplyEvent(stored[i].event);
      assert Events(stored)[..i + 1][..i] == Events(stored)[..i];
    }
    assert Events(stored)[..|stored|] == Events(stored);
    r := Some(account.Value());
  }

  function Rebuilt(id: Uuid, stored: seq<Row>): Option<Account> {
    if stored == [] then None else Some(Replay(id, Events(stored)))
  }

  function GetById(t: Table, id: Uuid): Option<Account> {
    Rebuilt(id, GetEvents(t, id, None))
  }
}
