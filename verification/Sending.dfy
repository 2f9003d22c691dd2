/** One batch call of the writer (src/persistence/writer.py), transaction by transaction, and what each of them does to
    the row stored under one key: the ground for calls that overlap. Dead-letter writes move no table and are left
    out. */
module Sending {
  import opened Options
  import opened Writer

  // ----- Looking rows up by key -----

  /** The first row with the key. */
  function Stored(table: Table, content: seq<Row>, key: seq<Option<string>>): Option<Row> {
    if content == [] then None
    else
      var before := Stored(table, content[..|content| - 1], key);
      if before.Some? then before
      else if KeyOf(table, content[|content| - 1]) == key then Some(content[|content| - 1])
      else None
  }

  function OrElse<T>(a: Option<T>, b: Option<T>): Option<T> {
    if a.Some? then a else b
  }

  lemma StoredSnoc(table: Table, content: seq<Row>, row: Row, key: seq<Option<string>>)
    ensures Stored(table, content + [row], key)
            == OrElse(Stored(table, content, key), if KeyOf(table, row) == key then Some(row) else None)
  {
    assert (content + [row])[..|content|] == content;
  }

  lemma {:induction false} StoredConcat(table: Table, a: seq<Row>, b: seq<Row>, key: seq<Option<string>>)
    ensures Stored(table, a + b, key) == OrElse(Stored(table, a, key), Stored(table, b, key))
  {
    if b == [] {
      assert a + b == a;
    } else {
      assert (a + b)[..|a + b| - 1] == a + b[..|b| - 1];
      StoredConcat(table, a, b[..|b| - 1], key);
    }
  }

  lemma {:induction false} StoredIffHasKey(table: Table, content: seq<Row>, row: Row)
    ensures Stored(table, content, KeyOf(table, row)).Some? <==> HasKey(table, content, row)
  {
    if content == [] {
    } else {
      var front, last := content[..|content| - 1], content[|content| - 1];
      StoredIffHasKey(table, front, row);
      if HasKey(table, front, row) {
        var i :| 0 <= i < |front| && KeyOf(table, front[i]) == KeyOf(table, row);
        assert content[i] == front[i];
      }
      if HasKey(table, content, row) {
        var i :| 0 <= i < |content| && KeyOf(table, content[i]) == KeyOf(table, row);
        assert i < |front| ==> front[i] == content[i];
      }
    }
  }

  lemma StoredInsertOne(table: Table, content: seq<Row>, row: Row, key: seq<Option<string>>)
    requires Keyed(table)
    ensures Stored(table, InsertOne(table, content, row), key)
            == OrElse(Stored(table, content, key), if KeyOf(table, row) == key then Some(row) else None)
  {
    StoredIffHasKey(table, content, row);
    StoredSnoc(table, content, row, key);
  }

  /** Inserting rows adds, for each key not yet there, its first row. */
  lemma {:induction false} StoredInsertAll(table: Table, content: seq<Row>, rows: seq<Row>, key: seq<Option<string>>)
    requires Keyed(table)
    ensures Stored(table, InsertAll(table, content, rows), key)
            == OrElse(Stored(table, content, key), Stored(table, rows, key))
  {
    if rows == [] {
    } else {
      var front, last := rows[..|rows| - 1], rows[|rows| - 1];
      StoredInsertAll(table, content, front, key);
      StoredInsertOne(table, InsertAll(table, content, front), last, key);
    }
  }

  /** The row that some events, written alone, would store under a key. */
  function First(valid: RowCheck, events: seq<Event>, table: Table, key: seq<Option<string>>): Option<Row> {
    Stored(table, Landing(valid, events, table), key)
  }

  lemma {:induction false} AcceptedConcat(valid: RowCheck, table: Table, a: seq<Row>, b: seq<Row>)
    ensures Accepted(valid, table, a + b) == Accepted(valid, table, a) + Accepted(valid, table, b)
  {
    if b == [] {
      assert a + b == a;
    } else {
      var front, last := b[..|b| - 1], b[|b| - 1];
      assert (a + b)[..|a + b| - 1] == a + front;
      AcceptedConcat(valid, table, a, front);
      ConcatAssociates(Accepted(valid, table, a), Accepted(valid, table, front),
                       if Accepts(valid, table, last) then [last] else []);
    }
  }

  lemma {:induction false} RowsForConcat(a: seq<Event>, b: seq<Event>, table: Table)
    ensures RowsFor(a + b, table) == RowsFor(a, table) + RowsFor(b, table)
  {
    if b == [] {
      assert a + b == a;
    } else {
      assert (a + b)[..|a + b| - 1] == a + b[..|b| - 1];
      RowsForConcat(a, b[..|b| - 1], table);
    }
  }

  lemma FirstConcat(valid: RowCheck, a: seq<Event>, b: seq<Event>, table: Table, key: seq<Option<string>>)
    ensures First(valid, a + b, table, key) == OrElse(First(valid, a, table, key), First(valid, b, table, key))
  {
    RowsForConcat(a, b, table);
    AcceptedConcat(valid, table, RowsFor(a, table), RowsFor(b, table));
    StoredConcat(table, Landing(valid, a, table), Landing(valid, b, table), key);
  }

  /** A clean pass stores what was there, or else the first row that lands. */
  lemma StoredClean(valid: RowCheck, events: seq<Event>, table: Table, content: seq<Row>, key: seq<Option<string>>)
    requires Keyed(table)
    ensures Stored(table, CleanPass(valid, events, table, content), key)
            == OrElse(Stored(table, content, key), First(valid, events, table, key))
  {
    GroupingIsClean(valid, events, table, content);
    StoredInsertAll(table, content, Landing(valid, events, table), key);
  }

  // ----- One batch call, transaction by transaction -----

  datatype Settings = Settings(valid: RowCheck, batchSizeMax: nat, retryAttempts: int)

  datatype Mode = Bulk | OneByOne(next: nat)

  /** Where a batch call stands: the table it is at, how it writes it, and the attempt. */
  datatype Sender = Sender(batch: seq<Event>, table: nat, mode: Mode, attempt: nat)

  datatype Progress = Going(sender: Sender) | Over(raised: bool)

  function Start(c: Settings, batch: seq<Event>): Progress {
    if c.retryAttempts <= 0 then Over(false) else Going(Sender(batch, 0, Bulk, 0))
  }

  /** A transient error starts the whole batch over while attempts are left; any other error ends the call. */
  function Failed(c: Settings, s: Sender, transient: bool): Progress {
    if transient && s.attempt + 1 < c.retryAttempts then Going(Sender(s.batch, 0, Bulk, s.attempt + 1)) else Over(true)
  }

  function RowsAt(s: Sender): seq<Row>
    requires s.table < |TablesOf(s.batch)|
  {
    RowsFor(s.batch, TablesOf(s.batch)[s.table])
  }

  function BulkInsert(c: Settings, tables: Tables, s: Sender, fault: Fault): (Tables, Progress)
    requires s.table < |TablesOf(s.batch)|
  {
    var (after, r) := Transaction(c.valid, tables, TablesOf(s.batch)[s.table], RowsAt(s), fault);
    match r
    case Committed => (after, Going(s.(table := s.table + 1)))
    case RowErrorRaised => (after, Going(s.(mode := OneByOne(0))))
    case Raised(transient) => (after, Failed(c, s, transient))
  }

  function RowInsert(c: Settings, tables: Tables, s: Sender, next: nat, fault: Fault): (Tables, Progress)
    requires s.table < |TablesOf(s.batch)|
  {
    if next >= |RowsAt(s)| then (tables, Going(s.(table := s.table + 1, mode := Bulk)))
    else
      var (after, r) := Transaction(c.valid, tables, TablesOf(s.batch)[s.table], [RowsAt(s)[next]], fault);
      match r
      case Raised(transient) => (after, Failed(c, s, transient))
      case _ => (after, Going(s.(mode := OneByOne(next + 1))))
  }

  /** The next transaction of a batch call. */
  function Transact(c: Settings, tables: Tables, s: Sender, fault: Fault): (Tables, Progress) {
    if s.table >= |TablesOf(s.batch)| then (tables, Over(false))
    else
      match s.mode
      case Bulk => BulkInsert(c, tables, s, fault)
      case OneByOne(next) => RowInsert(c, tables, s, next, fault)
  }

  // ----- What one transaction does to one key -----

  function At(tables: Tables, t: Table, key: seq<Option<string>>): Option<Row> {
    Stored(t, ContentIn(tables, t), key)
  }

  /** What the attempt has been through is stored. */
  ghost predicate Tried(c: Settings, tables: Tables, s: Sender, t: Table, key: seq<Option<string>>) {
    var order := TablesOf(s.batch);
    && (s.table <= |order| && t in order[..s.table] && First(c.valid, s.batch, t, key).Some?
        ==> At(tables, t, key).Some?)
    && (s.table < |order| && order[s.table] == t && s.mode.OneByOne? ==> TriedRowsStored(c, tables, s, t, key))
    && s.table <= |order|
  }

  ghost predicate TriedRowsStored(c: Settings, tables: Tables, s: Sender, t: Table, key: seq<Option<string>>)
    requires s.mode.OneByOne?
  {
    var rows := RowsFor(s.batch, t);
    && s.mode.next <= |rows|
    && (Stored(t, Accepted(c.valid, t, rows[..s.mode.next]), key).Some? ==> At(tables, t, key).Some?)
  }

  lemma TransactionKey(valid: RowCheck, tables: Tables, table: Table, rows: seq<Row>, fault: Fault,
                       t: Table, key: seq<Option<string>>)
    requires Keyed(t)
    ensures var (after, r) := Transaction(valid, tables, table, rows, fault);
            && At(after, t, key) == (if after == tables || table != t then At(tables, t, key)
                                     else OrElse(At(tables, t, key), Stored(t, rows, key)))
            && (after != tables ==> AllAccept(valid, table, rows))
            && (r.Committed? && table == t ==> At(after, t, key) == OrElse(At(tables, t, key), Stored(t, rows, key)))
            && (r.Committed? ==> AllAccept(valid, table, rows))
  {
    if table == t {
      StoredInsertAll(t, ContentIn(tables, t), rows, key);
    }
  }

  /** What a transaction of a call may do to a key, and what the call may claim afterwards. */
  ghost predicate KeyMoves(c: Settings, tables: Tables, s: Sender, after: Tables, p: Progress,
                           t: Table, key: seq<Option<string>>) {
    && (At(tables, t, key).Some? ==> At(after, t, key) == At(tables, t, key))
    && (At(tables, t, key).None? && At(after, t, key).Some? ==> At(after, t, key) == First(c.valid, s.batch, t, key))
    && (p.Going? ==> p.sender.batch == s.batch && Tried(c, after, p.sender, t, key))
    && (p == Over(false) && First(c.valid, s.batch, t, key).Some? ==> At(after, t, key).Some?)
  }

  lemma FailedTriedNothing(c: Settings, tables: Tables, s: Sender, transient: bool, t: Table, key: seq<Option<string>>)
    ensures Failed(c, s, transient).Going? ==> Tried(c, tables, Failed(c, s, transient).sender, t, key)
    ensures Failed(c, s, transient).Going? ==> Failed(c, s, transient).sender.batch == s.batch
    ensures Failed(c, s, transient) != Over(false)
  {
  }

  lemma BulkKey(c: Settings, tables: Tables, s: Sender, fault: Fault, t: Table, key: seq<Option<string>>)
    requires Keyed(t) && s.table < |TablesOf(s.batch)| && s.mode.Bulk? && Tried(c, tables, s, t, key)
    ensures var (after, p) := BulkInsert(c, tables, s, fault); KeyMoves(c, tables, s, after, p, t, key)
  {
    var order, rows := TablesOf(s.batch), RowsAt(s);
    var (after, r) := Transaction(c.valid, tables, order[s.table], rows, fault);
    TransactionKey(c.valid, tables, order[s.table], rows, fault, t, key);
    NextTableIsNew(s.batch, s.table);
    if AllAccept(c.valid, order[s.table], rows) {
      AllAccepted(c.valid, order[s.table], rows);
    }
    if r.Raised? {
      FailedTriedNothing(c, after, s, r.transient, t, key);
    }
    if r.RowErrorRaised? && order[s.table] == t {
      assert rows[..0] == [];
    }
  }

  /** What one row stores under a key. */
  function Landed(valid: RowCheck, t: Table, row: Row, key: seq<Option<string>>): Option<Row> {
    if Accepts(valid, t, row) then Stored(t, [row], key) else None
  }

  /** An error that no row caused makes the fallback give up a row that should have landed. */
  predicate GivesUp(valid: RowCheck, tables: Tables, t: Table, row: Row, fault: Fault) {
    var (after, r) := Transaction(valid, tables, t, [row], fault);
    r.RowErrorRaised? && Accepts(valid, t, row) && ContentIn(after, t) != InsertOne(t, ContentIn(tables, t), row)
  }

  predicate Skips(c: Settings, tables: Tables, s: Sender, fault: Fault) {
    && s.mode.OneByOne? && s.table < |TablesOf(s.batch)| && s.mode.next < |RowsAt(s)|
    && GivesUp(c.valid, tables, TablesOf(s.batch)[s.table], RowsAt(s)[s.mode.next], fault)
  }

  lemma RowTransactionKey(valid: RowCheck, tables: Tables, t: Table, row: Row, fault: Fault, key: seq<Option<string>>)
    requires Keyed(t)
    ensures var (after, r) := Transaction(valid, tables, t, [row], fault);
            && (At(after, t, key) == At(tables, t, key)
                || At(after, t, key) == OrElse(At(tables, t, key), Landed(valid, t, row, key)))
            && (!r.Raised? && !GivesUp(valid, tables, t, row, fault) ==>
                  At(after, t, key) == OrElse(At(tables, t, key), Landed(valid, t, row, key)))
  {
    TransactionKey(valid, tables, t, [row], fault, t, key);
    OneAccepts(valid, t, row);
    StoredInsertOne(t, ContentIn(tables, t), row, key);
    StoredOne(t, row, key);
  }

  lemma StoredOne(t: Table, row: Row, key: seq<Option<string>>)
    ensures Stored(t, [row], key) == if KeyOf(t, row) == key then Some(row) else None
  {
    assert [] + [row] == [row];
    StoredSnoc(t, [], row, key);
  }

  /** The rows up to and with the next one, seen from one key. */
  lemma NextRowKey(valid: RowCheck, rows: seq<Row>, next: nat, t: Table, key: seq<Option<string>>)
    requires next < |rows|
    ensures Stored(t, Accepted(valid, t, rows[..next + 1]), key)
            == OrElse(Stored(t, Accepted(valid, t, rows[..next]), key), Landed(valid, t, rows[next], key))
  {
    OneMoreRow(valid, t, rows, next);
    StoredConcat(t, Accepted(valid, t, rows[..next]), [rows[next]], key);
  }

  /** What the first rows store under a key, all of them store. */
  lemma PrefixKey(valid: RowCheck, rows: seq<Row>, k: nat, t: Table, key: seq<Option<string>>)
    requires k <= |rows|
    ensures Stored(t, Accepted(valid, t, rows[..k]), key).Some?
            ==> Stored(t, Accepted(valid, t, rows), key) == Stored(t, Accepted(valid, t, rows[..k]), key)
  {
    assert rows == rows[..k] + rows[k..];
    AcceptedConcat(valid, t, rows[..k], rows[k..]);
    StoredConcat(t, Accepted(valid, t, rows[..k]), Accepted(valid, t, rows[k..]), key);
  }

  lemma RowsDoneKey(c: Settings, tables: Tables, s: Sender, next: nat, t: Table, key: seq<Option<string>>)
    requires Keyed(t) && s.table < |TablesOf(s.batch)| && s.mode == OneByOne(next) && Tried(c, tables, s, t, key)
    requires next >= |RowsAt(s)|
    ensures Tried(c, tables, s.(table := s.table + 1, mode := Bulk), t, key)
  {
    NextTableIsNew(s.batch, s.table);
    if TablesOf(s.batch)[s.table] == t {
      assert RowsAt(s)[..next] == RowsAt(s);
    }
  }

  lemma OtherRowKey(c: Settings, tables: Tables, s: Sender, next: nat, fault: Fault, t: Table, key: seq<Option<string>>)
    requires Keyed(t) && s.table < |TablesOf(s.batch)| && s.mode == OneByOne(next) && Tried(c, tables, s, t, key)
    requires next < |RowsAt(s)| && TablesOf(s.batch)[s.table] != t
    ensures var (after, p) := RowInsert(c, tables, s, next, fault); KeyMoves(c, tables, s, after, p, t, key)
  {
    var table, row := TablesOf(s.batch)[s.table], RowsAt(s)[next];
    var (after, r) := Transaction(c.valid, tables, table, [row], fault);
    TransactionKey(c.valid, tables, table, [row], fault, t, key);
    if r.Raised? {
      FailedTriedNothing(c, after, s, r.transient, t, key);
    }
  }

  /** Scalar form of the case of the key's own table: what is stored, what the rows tried so far and the next row
      would store, and what all of them would. */
  lemma NextRowMoves(now: Option<Row>, after: Option<Row>, tried: Option<Row>, row: Option<Row>, next: Option<Row>,
                     all: Option<Row>)
    requires tried.Some? ==> now.Some?
    requires next == OrElse(tried, row) && (next.Some? ==> all == next)
    requires after == now || after == OrElse(now, row)
    ensures now.Some? ==> after == now
    ensures now.None? && after.Some? ==> after == all
    ensures after == OrElse(now, row) ==> (next.Some? ==> after.Some?)
  {
  }

  /** A transaction of the next row either leaves the key alone or stores what that row stores. */
  ghost predicate RowMoved(c: Settings, tables: Tables, after: Tables, s: Sender, next: nat, t: Table,
                           key: seq<Option<string>>, complete: bool)
    requires next < |RowsFor(s.batch, t)|
  {
    var stored := OrElse(At(tables, t, key), Landed(c.valid, t, RowsFor(s.batch, t)[next], key));
    At(after, t, key) == stored || (!complete && At(after, t, key) == At(tables, t, key))
  }

  lemma OwnRowMoves(c: Settings, tables: Tables, after: Tables, s: Sender, next: nat, t: Table,
                    key: seq<Option<string>>, complete: bool)
    requires s.mode == OneByOne(next) && next < |RowsFor(s.batch, t)| && TriedRowsStored(c, tables, s, t, key)
    requires RowMoved(c, tables, after, s, next, t, key, complete)
    ensures At(tables, t, key).Some? ==> At(after, t, key) == At(tables, t, key)
    ensures At(tables, t, key).None? && At(after, t, key).Some? ==> At(after, t, key) == First(c.valid, s.batch, t, key)
    ensures complete ==> TriedRowsStored(c, after, s.(mode := OneByOne(next + 1)), t, key)
  {
    var rows := RowsFor(s.batch, t);
    NextRowKey(c.valid, rows, next, t, key);
    PrefixKey(c.valid, rows, next + 1, t, key);
    NextRowMoves(At(tables, t, key), At(after, t, key), Stored(t, Accepted(c.valid, t, rows[..next]), key),
                 Landed(c.valid, t, rows[next], key), Stored(t, Accepted(c.valid, t, rows[..next + 1]), key),
                 First(c.valid, s.batch, t, key));
  }

  lemma OwnRowTried(c: Settings, after: Tables, s: Sender, next: nat, t: Table, key: seq<Option<string>>)
    requires s.table < |TablesOf(s.batch)| && TablesOf(s.batch)[s.table] == t
    requires TriedRowsStored(c, after, s.(mode := OneByOne(next + 1)), t, key)
    ensures Tried(c, after, s.(mode := OneByOne(next + 1)), t, key)
  {
    NextTableIsNew(s.batch, s.table);
  }

  lemma OwnRowKey(c: Settings, tables: Tables, s: Sender, next: nat, fault: Fault, t: Table, key: seq<Option<string>>)
    requires Keyed(t) && s.table < |TablesOf(s.batch)| && s.mode == OneByOne(next) && Tried(c, tables, s, t, key)
    requires next < |RowsAt(s)| && TablesOf(s.batch)[s.table] == t && !Skips(c, tables, s, fault)
    ensures var (after, p) := RowInsert(c, tables, s, next, fault); KeyMoves(c, tables, s, after, p, t, key)
  {
    var (after, r) := Transaction(c.valid, tables, t, [RowsAt(s)[next]], fault);
    RowTransactionKey(c.valid, tables, t, RowsAt(s)[next], fault, key);
    OwnRowMoves(c, tables, after, s, next, t, key, !r.Raised?);
    if r.Raised? {
      FailedTriedNothing(c, after, s, r.transient, t, key);
      assert RowInsert(c, tables, s, next, fault) == (after, Failed(c, s, r.transient));
    } else {
      OwnRowTried(c, after, s, next, t, key);
      assert RowInsert(c, tables, s, next, fault) == (after, Going(s.(mode := OneByOne(next + 1))));
    }
  }

  lemma TransactKey(c: Settings, tables: Tables, s: Sender, fault: Fault, t: Table, key: seq<Option<string>>)
    requires Keyed(t) && Tried(c, tables, s, t, key) && !Skips(c, tables, s, fault)
    ensures var (after, p) := Transact(c, tables, s, fault); KeyMoves(c, tables, s, after, p, t, key)
  {
    if s.table >= |TablesOf(s.batch)| {
      assert TablesOf(s.batch)[..s.table] == TablesOf(s.batch);
      if t !in TablesOf(s.batch) {
        UnlistedHasNoRows(s.batch, t);
      }
    } else {
      match s.mode
      case Bulk => BulkKey(c, tables, s, fault, t, key);
      case OneByOne(next) =>
        if next >= |RowsAt(s)| {
          RowsDoneKey(c, tables, s, next, t, key);
        } else if TablesOf(s.batch)[s.table] == t {
          OwnRowKey(c, tables, s, next, fault, t, key);
        } else {
          OtherRowKey(c, tables, s, next, fault, t, key);
        }
    }
  }

  // ----- A call that returns normally and is no clean pass -----

  lemma TwoRows(a: Event, b: Event)
    requires a.table == b.table && Known(a.table)
    ensures TablesOf([a, b]) == [a.table] && RowsFor([a, b], a.table) == [a.row, b.row]
  {
    var one, two := [a], [a, b];
    assert one[..|one| - 1] == [] && two[..|two| - 1] == one;
    assert TablesOf(one) == [a.table] && RowsFor(one, a.table) == [a.row];
  }

  lemma AcceptedTwo(valid: RowCheck, t: Table, a: Row, b: Row)
    requires Accepts(valid, t, a) && Accepts(valid, t, b)
    ensures Accepted(valid, t, [a, b]) == [a, b]
  {
    AllAccepted(valid, t, [a, b]);
  }

  lemma FirstOfTwo(valid: RowCheck, a: Event, b: Event)
    requires a.table == b.table && Lands(valid, a) && Lands(valid, b)
    ensures First(valid, [a, b], a.table, KeyOf(a.table, a.row)) == Some(a.row)
  {
    TwoRows(a, b);
    AcceptedTwo(valid, a.table, a.row, b.row);
    StoredOne(a.table, a.row, KeyOf(a.table, a.row));
    assert [a.row, b.row] == [a.row] + [b.row];
    StoredSnoc(a.table, [a.row], b.row, KeyOf(a.table, a.row));
  }

  /** A misread error of the bulk insert starts the fallback, and one of a row's own insert gives the row up. */
  lemma MisreadMoves(c: Settings, tables: Tables, s: Sender)
    requires s.table < |TablesOf(s.batch)|
    ensures s.mode.Bulk? ==> Transact(c, tables, s, Misread(false)) == (tables, Going(s.(mode := OneByOne(0))))
    ensures s.mode.OneByOne? && s.mode.next < |RowsAt(s)| ==>
              Transact(c, tables, s, Misread(false)) == (tables, Going(s.(mode := OneByOne(s.mode.next + 1))))
  {
  }

  /** A row that the table takes lands, and after the last one the call moves on. */
  lemma RowMoves(c: Settings, tables: Tables, s: Sender, row: Row)
    requires s.table < |TablesOf(s.batch)| && s.mode.OneByOne? && Accepts(c.valid, TablesOf(s.batch)[s.table], row)
    requires s.mode.next < |RowsAt(s)| && RowsAt(s)[s.mode.next] == row
    ensures Transact(c, tables, s, NoFault)
            == (Inserted(tables, TablesOf(s.batch)[s.table], [row]), Going(s.(mode := OneByOne(s.mode.next + 1))))
  {
    OneAccepts(c.valid, TablesOf(s.batch)[s.table], row);
  }

  lemma LateRowStored(tables: Tables, t: Table, row: Row)
    requires Keyed(t) && At(tables, t, KeyOf(t, row)).None?
    ensures At(Inserted(tables, t, [row]), t, KeyOf(t, row)) == Some(row)
  {
    StoredOne(t, row, KeyOf(t, row));
    StoredInsertAll(t, ContentIn(tables, t), [row], KeyOf(t, row));
  }

  /** Both rows of a key are sent; the bulk insert and then the first row's own insert fail with an error that no row
      caused. The call goes on, the second row lands, and the call returns normally. */
  lemma MisreadLosesRow(c: Settings, tables: Tables, a: Event, b: Event)
    requires a.table == b.table && Keyed(a.table) && Lands(c.valid, a) && Lands(c.valid, b)
    requires KeyOf(a.table, a.row) == KeyOf(b.table, b.row) && a.row != b.row
    requires At(tables, a.table, KeyOf(a.table, a.row)).None?
    ensures var s, key := Sender([a, b], 0, Bulk, 0), KeyOf(a.table, a.row);
            var landed := Inserted(tables, a.table, [b.row]);
            && Transact(c, tables, s, Misread(false)) == (tables, Going(s.(mode := OneByOne(0))))
            && Transact(c, tables, s.(mode := OneByOne(0)), Misread(false)) == (tables, Going(s.(mode := OneByOne(1))))
            && Transact(c, tables, s.(mode := OneByOne(1)), NoFault) == (landed, Going(s.(mode := OneByOne(2))))
            && Transact(c, landed, s.(mode := OneByOne(2)), NoFault) == (landed, Going(s.(table := 1)))
            && Transact(c, landed, s.(table := 1), NoFault) == (landed, Over(false))
            && At(landed, a.table, key) == Some(b.row) != First(c.valid, [a, b], a.table, key)
  {
    var s := Sender([a, b], 0, Bulk, 0);
    TwoRows(a, b);
    FirstOfTwo(c.valid, a, b);
    MisreadMoves(c, tables, s);
    MisreadMoves(c, tables, s.(mode := OneByOne(0)));
    RowMoves(c, tables, s.(mode := OneByOne(1)), b.row);
    LateRowStored(tables, b.table, b.row);
  }

  // ----- Exactly when a call of one attempt loses the first row of a key -----

  predicate LandsUnder(valid: RowCheck, t: Table, row: Row, key: seq<Option<string>>) {
    Accepts(valid, t, row) && KeyOf(t, row) == key
  }

  /** The i-th row is the first accepted one with the key. */
  predicate FirstLanding(valid: RowCheck, t: Table, rows: seq<Row>, key: seq<Option<string>>, i: nat) {
    && i < |rows| && LandsUnder(valid, t, rows[i], key)
    && forall j :: 0 <= j < i ==> !LandsUnder(valid, t, rows[j], key)
  }

  lemma {:induction false} NoneLandUnder(valid: RowCheck, t: Table, rows: seq<Row>, faults: Schedule, tick: nat,
                                         key: seq<Option<string>>, k: nat)
    requires k <= |rows| && forall j :: 0 <= j < k ==> !LandsUnder(valid, t, rows[j], key)
    ensures Stored(t, KeptRows(valid, t, rows, faults, tick, k), key).None?
    ensures Stored(t, Accepted(valid, t, rows[..k]), key).None?
  {
    if k == 0 {
      assert rows[..0] == [];
    } else {
      NoneLandUnder(valid, t, rows, faults, tick, key, k - 1);
      KeptSnoc(valid, t, rows, faults, tick, key, k - 1);
    }
  }

  /** Once the first landing row of the key is among the first k rows, the accepted ones store it, and so do the kept
      ones unless it was given up. */
  lemma {:induction false} FirstLandingStored(valid: RowCheck, t: Table, rows: seq<Row>, faults: Schedule, tick: nat,
                                              key: seq<Option<string>>, i: nat, k: nat)
    requires FirstLanding(valid, t, rows, key, i) && i < k <= |rows|
    ensures FirstStored(valid, t, rows, faults, tick, key, i, k)
  {
    if k == i + 1 {
      FirstLandingStarts(valid, t, rows, faults, tick, key, i);
    } else {
      FirstLandingStored(valid, t, rows, faults, tick, key, i, k - 1);
      FirstLandingStays(valid, t, rows, faults, tick, key, i, k - 1);
    }
  }

  predicate FirstStored(valid: RowCheck, t: Table, rows: seq<Row>, faults: Schedule, tick: nat,
                        key: seq<Option<string>>, i: nat, k: nat)
    requires i < |rows| && k <= |rows|
  {
    && Stored(t, Accepted(valid, t, rows[..k]), key) == Some(rows[i])
    && (faults(tick + i) != Misread(false) ==>
          Stored(t, KeptRows(valid, t, rows, faults, tick, k), key) == Some(rows[i]))
  }

  lemma FirstLandingStarts(valid: RowCheck, t: Table, rows: seq<Row>, faults: Schedule, tick: nat,
                           key: seq<Option<string>>, i: nat)
    requires FirstLanding(valid, t, rows, key, i)
    ensures FirstStored(valid, t, rows, faults, tick, key, i, i + 1)
  {
    NoneLandUnder(valid, t, rows, faults, tick, key, i);
    KeptSnoc(valid, t, rows, faults, tick, key, i);
  }

  lemma FirstLandingStays(valid: RowCheck, t: Table, rows: seq<Row>, faults: Schedule, tick: nat,
                          key: seq<Option<string>>, i: nat, k: nat)
    requires i < |rows| && k < |rows| && FirstStored(valid, t, rows, faults, tick, key, i, k)
    ensures FirstStored(valid, t, rows, faults, tick, key, i, k + 1)
  {
    KeptSnoc(valid, t, rows, faults, tick, key, k);
  }

  lemma KeptSnoc(valid: RowCheck, t: Table, rows: seq<Row>, faults: Schedule, tick: nat, key: seq<Option<string>>,
                 i: nat)
    requires i < |rows|
    ensures Stored(t, KeptRows(valid, t, rows, faults, tick, i + 1), key)
            == OrElse(Stored(t, KeptRows(valid, t, rows, faults, tick, i), key),
                      if LandsUnder(valid, t, rows[i], key) && faults(tick + i) != Misread(false) then Some(rows[i])
                      else None)
    ensures Stored(t, Accepted(valid, t, rows[..i + 1]), key)
            == OrElse(Stored(t, Accepted(valid, t, rows[..i]), key),
                      if LandsUnder(valid, t, rows[i], key) then Some(rows[i]) else None)
  {
    var kept := KeptRows(valid, t, rows, faults, tick, i);
    assert KeptRows(valid, t, rows, faults, tick, i + 1)
        == kept + (if Kept(valid, t, rows[i], faults(tick + i)) then [rows[i]] else []);
    assert kept + [] == kept;
    StoredSnoc(t, kept, rows[i], key);
    OneMoreRow(valid, t, rows, i);
    StoredSnoc(t, Accepted(valid, t, rows[..i]), rows[i], key);
  }

  /** The bulk insert put the rows in, whatever it reported. */
  predicate BulkLands(valid: RowCheck, t: Table, rows: seq<Row>, fault: Fault) {
    AllAccept(valid, t, rows) && (fault.NoFault? || fault == Misread(true))
  }

  /** The bulk insert did not land, the first landing row of the key was given up, and no equal row of the key landed
      first. */
  ghost predicate LosesFirst(valid: RowCheck, t: Table, rows: seq<Row>, faults: Schedule, tick: nat,
                             key: seq<Option<string>>) {
    !BulkLands(valid, t, rows, faults(tick))
    && FallbackLosesFirst(valid, t, rows, faults, tick + 1, key)
  }

  ghost predicate FallbackLosesFirst(valid: RowCheck, t: Table, rows: seq<Row>, faults: Schedule, tick: nat,
                                     key: seq<Option<string>>) {
    exists i: nat :: FirstGivenUp(valid, t, rows, faults, tick, key, i)
  }

  predicate FirstGivenUp(valid: RowCheck, t: Table, rows: seq<Row>, faults: Schedule, tick: nat,
                         key: seq<Option<string>>, i: nat) {
    && FirstLanding(valid, t, rows, key, i) && faults(tick + i) == Misread(false)
    && Stored(t, KeptRows(valid, t, rows, faults, tick, |rows|), key) != Some(rows[i])
  }

  /** The fallback alone stores the first landing row of the key exactly when it is not lost. */
  lemma FallbackKeyIff(valid: RowCheck, t: Table, rows: seq<Row>, faults: Schedule, tick: nat, key: seq<Option<string>>)
    ensures Stored(t, KeptRows(valid, t, rows, faults, tick, |rows|), key) == Stored(t, Accepted(valid, t, rows), key)
            <==> !FallbackLosesFirst(valid, t, rows, faults, tick, key)
  {
    assert rows[..|rows|] == rows;
    if i :| 0 <= i < |rows| && LandsUnder(valid, t, rows[i], key) {
      var first := LeastLanding(valid, t, rows, key, i);
      FirstLandingStored(valid, t, rows, faults, tick, key, first, |rows|);
      if faults(tick + first) == Misread(false)
         && Stored(t, KeptRows(valid, t, rows, faults, tick, |rows|), key) != Some(rows[first]) {
        assert FirstGivenUp(valid, t, rows, faults, tick, key, first);
      } else {
        assert forall j: nat | FirstLanding(valid, t, rows, key, j) :: j == first;
      }
    } else {
      NoneLandUnder(valid, t, rows, faults, tick, key, |rows|);
    }
  }

  lemma {:induction false} LeastLanding(valid: RowCheck, t: Table, rows: seq<Row>, key: seq<Option<string>>, i: nat)
    returns (first: nat)
    requires i < |rows| && LandsUnder(valid, t, rows[i], key)
    ensures FirstLanding(valid, t, rows, key, first)
    decreases i
  {
    if j :| 0 <= j < i && LandsUnder(valid, t, rows[j], key) {
      first := LeastLanding(valid, t, rows, key, j);
    } else {
      first := i;
    }
  }

  /** Under a key that was not stored, the writes of one table end with the first landing row exactly unless it is
      lost. */
  lemma TableEndKeyIff(valid: RowCheck, t: Table, content: seq<Row>, rows: seq<Row>, faults: Schedule, tick: nat,
                       key: seq<Option<string>>)
    requires Keyed(t) && Stored(t, content, key).None?
    ensures Stored(t, TableEnd(valid, t, content, rows, faults, tick), key) == Stored(t, Accepted(valid, t, rows), key)
            <==> !LosesFirst(valid, t, rows, faults, tick, key)
  {
    var kept := KeptRows(valid, t, rows, faults, tick + 1, |rows|);
    StoredInsertAll(t, content, rows, key);
    StoredInsertAll(t, content, kept, key);
    FallbackKeyIff(valid, t, rows, faults, tick + 1, key);
    if AllAccept(valid, t, rows) {
      AllAccepted(valid, t, rows);
      StoredInsertAll(t, InsertAll(t, content, rows), kept, key);
      NothingKept(valid, t, rows, faults, tick + 1, key);
    }
  }

  lemma NothingKept(valid: RowCheck, t: Table, rows: seq<Row>, faults: Schedule, tick: nat, key: seq<Option<string>>)
    ensures Stored(t, Accepted(valid, t, rows), key).None? ==>
              Stored(t, KeptRows(valid, t, rows, faults, tick, |rows|), key).None?
  {
    assert rows[..|rows|] == rows;
    if i :| 0 <= i < |rows| && LandsUnder(valid, t, rows[i], key) {
      var first := LeastLanding(valid, t, rows, key, i);
      FirstLandingStored(valid, t, rows, faults, tick, key, first, |rows|);
    } else {
      NoneLandUnder(valid, t, rows, faults, tick, key, |rows|);
    }
  }

  /** A call of one attempt that returns normally, under a key of a table of its batch that was not stored: it ends as
      the clean pass does exactly unless the key's first landing row is lost. */
  lemma OneAttemptCleanIff(valid: RowCheck, batch: seq<Event>, faults: Schedule, tick: nat, before: Tables,
                           after: Tables, j: nat, key: seq<Option<string>>)
    requires AttemptEnds(valid, batch, faults, tick, before, after) && j < |TablesOf(batch)|
    requires Keyed(TablesOf(batch)[j]) && At(before, TablesOf(batch)[j], key).None?
    ensures var t := TablesOf(batch)[j];
            At(after, t, key) == Stored(t, CleanPass(valid, batch, t, ContentIn(before, t)), key)
            <==> !LosesFirst(valid, t, RowsFor(batch, t), faults,
                             TickAt(valid, batch, TablesOf(batch), faults, tick, j), key)
  {
    var t := TablesOf(batch)[j];
    var start := TickAt(valid, batch, TablesOf(batch), faults, tick, j);
    assert TableEnds(valid, batch, TablesOf(batch), faults, tick, before, after, j);
    TableEndKeyIff(valid, t, ContentIn(before, t), RowsFor(batch, t), faults, start, key);
    StoredClean(valid, batch, t, ContentIn(before, t), key);
  }
}
