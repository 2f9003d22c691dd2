/** The batched, retrying database writer (src/persistence/writer.py) under an arbitrary fault schedule.
    Each database transaction consults the schedule once: it may go through, fail before its commit, or commit
    and still report an error. Whether a row can be inserted at all is decided by a predicate on the row. */
module Writer {

  import opened Options

  /** The dispatcher's table names; every other string an event may carry is `Other`. */
  datatype Table =
    | AccountHistory | FeatureHistory | PcaSignalHistory | OpenPosition | OpenPositionHistory
    | RegimeSnapshotHistory | PcaSurfaceSnapshotHistory | VolSurfaceHistory
    | Other(name: string)

  /** The columns that occur in a natural key, and all others. */
  datatype Column = Timestamp | Underlying | Id | Symbol | PcaModelId | PcId | Field(name: string)

  /** An absent column is NULL. */
  type Row = map<Column, string>

  datatype Event = Event(table: Table, row: Row)

  datatype Reason = UnknownTable | RowError

  datatype DeadLetter = DeadLetter(table: Table, row: Row, reason: Reason)

  /** What the surroundings do to one transaction: nothing, an error of a class that is retried or raised, or one of a
      class that the writer takes for a row error although no row caused it. */
  datatype Fault =
    | NoFault
    | Failure(committed: bool, transient: bool)
    | Misread(committed: bool)

  /** How a call ends: normally, or with a transient (retried) or another (not retried) exception. */
  datatype Outcome = Done | Transient | Fatal

  predicate Known(table: Table) {
    !table.Other?
  }

  /** The tables written with ON CONFLICT DO NOTHING. */
  predicate Keyed(table: Table) {
    Known(table) && !table.AccountHistory? && !table.OpenPositionHistory?
  }

  function NaturalKey(table: Table): seq<Column>
    requires Keyed(table)
  {
    match table
    case VolSurfaceHistory => [Timestamp, Underlying]
    case OpenPosition => [Id]
    case PcaSignalHistory => [Symbol, Timestamp, PcaModelId, PcId]
    case _ => [Symbol, Timestamp]
  }

  /** The values of the key columns. */
  function KeyOf(table: Table, row: Row): seq<Option<string>> {
    if Keyed(table) then Project(row, NaturalKey(table)) else []
  }

  function Project(row: Row, columns: seq<Column>): seq<Option<string>> {
    seq(|columns|, i requires 0 <= i < |columns| => if columns[i] in row then Some(row[columns[i]]) else None)
  }

  // ----- What one INSERT does to a table -----

  predicate HasKey(table: Table, rows: seq<Row>, row: Row) {
    exists i :: 0 <= i < |rows| && KeyOf(table, rows[i]) == KeyOf(table, row)
  }

  function InsertOne(table: Table, content: seq<Row>, row: Row): seq<Row> {
    if Keyed(table) && HasKey(table, content, row) then content else content + [row]
  }

  /** Rows inserted one after the other; on a keyed table the first row of a key wins. */
  function InsertAll(table: Table, content: seq<Row>, rows: seq<Row>): seq<Row> {
    if rows == [] then content
    else InsertOne(table, InsertAll(table, content, rows[..|rows| - 1]), rows[|rows| - 1])
  }

  lemma InsertSnoc(table: Table, content: seq<Row>, rows: seq<Row>, row: Row)
    ensures InsertAll(table, content, rows + [row]) == InsertOne(table, InsertAll(table, content, rows), row)
  {
    assert (rows + [row])[..|rows|] == rows;
  }

  lemma {:induction false} InsertConcat(table: Table, content: seq<Row>, a: seq<Row>, b: seq<Row>)
    ensures InsertAll(table, content, a + b) == InsertAll(table, InsertAll(table, content, a), b)
  {
    if b == [] {
      assert a + b == a;
    } else {
      assert (a + b)[..|a + b| - 1] == a + b[..|b| - 1];
      InsertConcat(table, content, a, b[..|b| - 1]);
    }
  }

  lemma {:induction false} InsertKeepsOldRows(table: Table, content: seq<Row>, rows: seq<Row>)
    ensures content <= InsertAll(table, content, rows)
  {
    if rows == [] {
    } else {
      InsertKeepsOldRows(table, content, rows[..|rows| - 1]);
    }
  }

  /** The row, or on a keyed table a row with its key, is there. */
  predicate Present(table: Table, content: seq<Row>, row: Row) {
    if Keyed(table) then HasKey(table, content, row) else row in content
  }

  lemma {:induction false} InsertedArePresent(table: Table, content: seq<Row>, rows: seq<Row>, row: Row)
    requires row in rows
    ensures Present(table, InsertAll(table, content, rows), row)
  {
    var front, last := rows[..|rows| - 1], rows[|rows| - 1];
    var before := InsertAll(table, content, front);
    var after := InsertAll(table, content, rows);
    if row == last {
      if Keyed(table) && HasKey(table, before, row) {
        assert after == before;
      } else {
        assert after[|after| - 1] == row;
      }
    } else {
      assert row in front;
      InsertedArePresent(table, content, front, row);
      PresentStays(table, before, after, row);
    }
  }

  lemma PresentStays(table: Table, before: seq<Row>, after: seq<Row>, row: Row)
    requires Present(table, before, row) && before <= after
    ensures Present(table, after, row)
  {
    if Keyed(table) {
      var i :| 0 <= i < |before| && KeyOf(table, before[i]) == KeyOf(table, row);
      assert after[i] == before[i];
    }
  }

  lemma {:induction false} PresentKeysAreSkipped(table: Table, content: seq<Row>, rows: seq<Row>)
    requires Keyed(table) && forall r :: r in rows ==> HasKey(table, content, r)
    ensures InsertAll(table, content, rows) == content
  {
    if rows == [] {
    } else {
      PresentKeysAreSkipped(table, content, rows[..|rows| - 1]);
      assert rows[|rows| - 1] in rows;
    }
  }

  /** Sending a prefix again changes nothing, whatever was inserted after it. */
  lemma PrefixAbsorbed(table: Table, content: seq<Row>, rows: seq<Row>, k: nat)
    requires Keyed(table) && k <= |rows|
    ensures InsertAll(table, InsertAll(table, content, rows), rows[..k]) == InsertAll(table, content, rows)
  {
    forall r | r in rows[..k]
      ensures HasKey(table, InsertAll(table, content, rows), r)
    {
      InsertedArePresent(table, content, rows, r);
    }
    PresentKeysAreSkipped(table, InsertAll(table, content, rows), rows[..k]);
  }

  /** After a first pass cut off at i, a second one cut off at j leaves what the longer of the two would leave alone. */
  lemma ResendAbsorbed(table: Table, content: seq<Row>, rows: seq<Row>, i: nat, j: nat)
    requires Keyed(table) && i <= |rows| && j <= |rows|
    ensures InsertAll(table, InsertAll(table, content, rows[..i]), rows[..j])
            == InsertAll(table, content, rows[..if i < j then j else i])
  {
    if j <= i {
      assert rows[..i][..j] == rows[..j];
      PrefixAbsorbed(table, content, rows[..i], j);
    } else {
      assert rows[..j] == rows[..i] + rows[i..j];
      InsertConcat(table, InsertAll(table, content, rows[..i]), rows[..i], rows[i..j]);
      PrefixAbsorbed(table, content, rows[..i], i);
      assert rows[..i][..i] == rows[..i];
      InsertConcat(table, content, rows[..i], rows[i..j]);
    }
  }

  lemma {:induction false} UnkeyedAppends(table: Table, content: seq<Row>, rows: seq<Row>)
    requires !Keyed(table)
    ensures |InsertAll(table, content, rows)| == |content| + |rows|
  {
    if rows == [] {
    } else {
      UnkeyedAppends(table, content, rows[..|rows| - 1]);
    }
  }

  /** Sending rows twice is the same as sending them once exactly on the tables with a natural key. */
  lemma ResendIsNoOpIff(table: Table, content: seq<Row>, rows: seq<Row>)
    ensures InsertAll(table, InsertAll(table, content, rows), rows) == InsertAll(table, content, rows)
            <==> Keyed(table) || rows == []
  {
    if Keyed(table) {
      PrefixAbsorbed(table, content, rows, |rows|);
      assert rows[..|rows|] == rows;
    } else {
      UnkeyedAppends(table, InsertAll(table, content, rows), rows);
    }
  }

  // ----- The rows of a batch -----

  /** The batch's rows for one table, in batch order. */
  function RowsFor(batch: seq<Event>, table: Table): seq<Row> {
    if batch == [] then []
    else
      var last := batch[|batch| - 1];
      RowsFor(batch[..|batch| - 1], table) + (if last.table == table then [last.row] else [])
  }

  /** The known tables of a batch in order of first appearance. */
  function TablesOf(batch: seq<Event>): seq<Table> {
    if batch == [] then []
    else
      var before, t := TablesOf(batch[..|batch| - 1]), batch[|batch| - 1].table;
      if Known(t) && t !in before then before + [t] else before
  }

  /** Dead letters for the events of a batch that name no known table. */
  function UnknownLetters(batch: seq<Event>): seq<DeadLetter> {
    if batch == [] then []
    else
      var last := batch[|batch| - 1];
      UnknownLetters(batch[..|batch| - 1])
      + (if Known(last.table) then [] else [DeadLetter(last.table, last.row, UnknownTable)])
  }

  type RowCheck = (Table, Row) -> bool

  /** The row inserts on its own: its key columns, which are NOT NULL, are present and the table takes the rest. */
  predicate Accepts(valid: RowCheck, table: Table, row: Row) {
    && valid(table, row)
    && (Keyed(table) ==> forall c :: c in NaturalKey(table) ==> c in row)
  }

  /** The rows that the table accepts, in order. */
  function Accepted(valid: RowCheck, table: Table, rows: seq<Row>): seq<Row> {
    if rows == [] then []
    else
      var last := rows[|rows| - 1];
      Accepted(valid, table, rows[..|rows| - 1]) + (if Accepts(valid, table, last) then [last] else [])
  }

  function RowLetters(valid: RowCheck, table: Table, row: Row): seq<DeadLetter> {
    if Accepts(valid, table, row) then [] else [DeadLetter(table, row, RowError)]
  }

  /** Dead letters for the refused ones of the first k rows. */
  function RefusedLetters(valid: RowCheck, table: Table, rows: seq<Row>, k: nat): seq<DeadLetter>
    requires k <= |rows|
  {
    if k == 0 then [] else RefusedLetters(valid, table, rows, k - 1) + RowLetters(valid, table, rows[k - 1])
  }

  /** Dead letters for the refused rows of one table of the batch. */
  function TableLetters(valid: RowCheck, batch: seq<Event>, table: Table): seq<DeadLetter> {
    RefusedLetters(valid, table, RowsFor(batch, table), |RowsFor(batch, table)|)
  }

  /** Dead letters for the refused rows of the first k tables. */
  function AllRefused(valid: RowCheck, batch: seq<Event>, tables: seq<Table>, k: nat): seq<DeadLetter>
    requires k <= |tables|
  {
    if k == 0 then [] else AllRefused(valid, batch, tables, k - 1) + TableLetters(valid, batch, tables[k - 1])
  }

  // ----- The clean pass: no grouping, no faults, no retries -----

  /** The event lands in its table if the table is known and accepts the row. */
  predicate Lands(valid: RowCheck, e: Event) {
    Known(e.table) && Accepts(valid, e.table, e.row)
  }

  /** Content of one table after the events of the batch are inserted one by one in order. */
  function CleanPass(valid: RowCheck, batch: seq<Event>, table: Table, content: seq<Row>): seq<Row> {
    if batch == [] then content
    else
      var last := batch[|batch| - 1];
      var before := CleanPass(valid, batch[..|batch| - 1], table, content);
      if last.table == table && Lands(valid, last) then InsertOne(table, before, last.row) else before
  }

  lemma AcceptedSnoc(valid: RowCheck, table: Table, rows: seq<Row>, row: Row)
    ensures Accepted(valid, table, rows + [row])
            == if Accepts(valid, table, row) then Accepted(valid, table, rows) + [row] else Accepted(valid, table, rows)
  {
    assert (rows + [row])[..|rows|] == rows;
  }

  /** Grouping a batch by table does not change what any table ends up with. */
  lemma {:induction false} GroupingIsClean(valid: RowCheck, batch: seq<Event>, table: Table, content: seq<Row>)
    requires Known(table)
    ensures InsertAll(table, content, Accepted(valid, table, RowsFor(batch, table)))
            == CleanPass(valid, batch, table, content)
  {
    if batch == [] {
    } else {
      var front, last := batch[..|batch| - 1], batch[|batch| - 1];
      GroupingIsClean(valid, front, table, content);
      if last.table == table {
        AcceptedSnoc(valid, table, RowsFor(front, table), last.row);
        InsertSnoc(table, content, Accepted(valid, table, RowsFor(front, table)), last.row);
      } else {
        assert RowsFor(batch, table) == RowsFor(front, table);
      }
    }
  }

  lemma {:induction false} UnknownTableUntouched(valid: RowCheck, batch: seq<Event>, table: Table, content: seq<Row>)
    requires !Known(table)
    ensures CleanPass(valid, batch, table, content) == content
  {
    if batch == [] {
    } else {
      UnknownTableUntouched(valid, batch[..|batch| - 1], table, content);
    }
  }

  lemma {:induction false} CleanConcat(valid: RowCheck, a: seq<Event>, b: seq<Event>, table: Table, content: seq<Row>)
    ensures CleanPass(valid, a + b, table, content) == CleanPass(valid, b, table, CleanPass(valid, a, table, content))
  {
    if b == [] {
      assert a + b == a;
    } else {
      assert (a + b)[..|a + b| - 1] == a + b[..|b| - 1];
      CleanConcat(valid, a, b[..|b| - 1], table, content);
    }
  }

  // ----- One attempt, possibly cut off -----

  /** The batch's accepted rows for one table. */
  function Landing(valid: RowCheck, batch: seq<Event>, table: Table): seq<Row> {
    Accepted(valid, table, RowsFor(batch, table))
  }

  /** The table received some prefix of the rows that should land in it. */
  ghost predicate CutOff(valid: RowCheck, batch: seq<Event>, table: Table, before: seq<Row>, after: seq<Row>) {
    exists k :: CutAt(valid, batch, table, before, after, k)
  }

  ghost predicate CutAt(valid: RowCheck, batch: seq<Event>, table: Table, before: seq<Row>, after: seq<Row>, k: nat) {
    k <= |Landing(valid, batch, table)| && after == InsertAll(table, before, Landing(valid, batch, table)[..k])
  }

  lemma {:induction false} AcceptedPrefix(valid: RowCheck, table: Table, rows: seq<Row>, k: nat)
    requires k <= |rows|
    ensures Accepted(valid, table, rows[..k]) <= Accepted(valid, table, rows)
  {
    if k == |rows| {
      assert rows[..k] == rows;
    } else {
      var front := rows[..|rows| - 1];
      assert front[..k] == rows[..k];
      AcceptedPrefix(valid, table, front, k);
    }
  }

  lemma {:induction false} RefusedPrefix(valid: RowCheck, table: Table, rows: seq<Row>, i: nat, k: nat)
    requires i <= k <= |rows|
    ensures RefusedLetters(valid, table, rows, i) <= RefusedLetters(valid, table, rows, k)
  {
    if i >= k {
    } else {
      RefusedPrefix(valid, table, rows, i, k - 1);
      PrefixStays(RefusedLetters(valid, table, rows, i), RefusedLetters(valid, table, rows, k - 1),
                  RowLetters(valid, table, rows[k - 1]));
    }
  }

  /** Re-sending a whole batch over whatever an earlier attempt left is one attempt, cut where the longer one was. */
  lemma AttemptsMerge(valid: RowCheck, batch: seq<Event>, table: Table,
                      before: seq<Row>, mid: seq<Row>, after: seq<Row>)
    requires Keyed(table)
    requires CutOff(valid, batch, table, before, mid) && CutOff(valid, batch, table, mid, after)
    ensures CutOff(valid, batch, table, before, after)
    ensures after == CleanPass(valid, batch, table, mid) ==> after == CleanPass(valid, batch, table, before)
  {
    var rows := Landing(valid, batch, table);
    var i: nat :| CutAt(valid, batch, table, before, mid, i);
    var j: nat :| CutAt(valid, batch, table, mid, after, j);
    ResendAbsorbed(table, before, rows, i, j);
    assert CutAt(valid, batch, table, before, after, if i < j then j else i);
    CleanAfterCut(valid, batch, table, before, mid, i);
  }

  lemma CleanAfterCut(valid: RowCheck, batch: seq<Event>, table: Table, before: seq<Row>, mid: seq<Row>, i: nat)
    requires Keyed(table) && CutAt(valid, batch, table, before, mid, i)
    ensures CleanPass(valid, batch, table, mid) == CleanPass(valid, batch, table, before)
  {
    var rows := Landing(valid, batch, table);
    GroupingIsClean(valid, batch, table, mid);
    GroupingIsClean(valid, batch, table, before);
    ResendAbsorbed(table, before, rows, i, |rows|);
    assert rows[..|rows|] == rows;
  }

  // ----- The database -----

  /** How one transaction ends. */
  datatype Insertion = Committed | RowErrorRaised | Raised(transient: bool)

  type Tables = map<Table, seq<Row>>

  function ContentIn(tables: Tables, table: Table): seq<Row> {
    if table in tables then tables[table] else []
  }

  function Inserted(tables: Tables, table: Table, rows: seq<Row>): Tables {
    tables[table := InsertAll(table, ContentIn(tables, table), rows)]
  }

  predicate AllAccept(valid: RowCheck, table: Table, rows: seq<Row>) {
    forall row :: row in rows ==> Accepts(valid, table, row)
  }

  /** One INSERT in its own transaction: what becomes of the tables and what the caller sees. */
  function Transaction(valid: RowCheck, tables: Tables, table: Table, rows: seq<Row>, fault: Fault)
    : (Tables, Insertion)
  {
    if !fault.NoFault? && !fault.committed then (tables, Reported(fault))
    else if !AllAccept(valid, table, rows) then (tables, RowErrorRaised)
    else (Inserted(tables, table, rows), Reported(fault))
  }

  function Reported(fault: Fault): Insertion {
    match fault
    case NoFault => Committed
    case Failure(_, transient) => Raised(transient)
    case Misread(_) => RowErrorRaised
  }

  type Schedule = nat -> Fault

  /** None of the transactions from, until reports an error that no row caused and its class is taken for a row's. */
  ghost predicate NoneMisread(faults: Schedule, from: nat, until: nat) {
    forall n :: from <= n < until ==> !faults(n).Misread?
  }

  /** None of them reports such an error without having committed. */
  ghost predicate NoneLost(faults: Schedule, from: nat, until: nat) {
    forall n :: from <= n < until ==> faults(n) != Misread(false)
  }

  /** None of them reports an error that ends the attempt. */
  ghost predicate NoneFail(faults: Schedule, from: nat, until: nat) {
    forall n :: from <= n < until ==> !faults(n).Failure?
  }

  /** None of them reports an error that is not retried. */
  ghost predicate NoneFatal(faults: Schedule, from: nat, until: nat) {
    forall n :: from <= n < until && faults(n).Failure? ==> faults(n).transient
  }

  /** How many of them report an error that ends the attempt. */
  function Failures(faults: Schedule, from: nat, until: nat): nat {
    if until <= from then 0 else Failures(faults, from, until - 1) + if faults(until - 1).Failure? then 1 else 0
  }

  lemma {:induction false} FailuresSplit(faults: Schedule, from: nat, mid: nat, until: nat)
    requires from <= mid <= until
    ensures Failures(faults, from, until) == Failures(faults, from, mid) + Failures(faults, mid, until)
  {
    if mid < until {
      FailuresSplit(faults, from, mid, until - 1);
    }
  }

  lemma {:induction false} NoFailures(faults: Schedule, from: nat, until: nat)
    ensures Failures(faults, from, until) == 0 <==> NoneFail(faults, from, until)
  {
    if from < until {
      NoFailures(faults, from, until - 1);
    }
  }

  /** They make no batch call of so many attempts raise or skip a row. */
  ghost predicate Harmless(faults: Schedule, from: nat, until: nat, retryAttempts: int) {
    && NoneLost(faults, from, until) && NoneFatal(faults, from, until)
    && (retryAttempts > 0 ==> Failures(faults, from, until) < retryAttempts)
  }

  lemma HarmlessSplit(faults: Schedule, from: nat, mid: nat, until: nat, retryAttempts: int)
    requires from <= mid <= until && Harmless(faults, from, until, retryAttempts)
    ensures Harmless(faults, from, mid, retryAttempts) && Harmless(faults, mid, until, retryAttempts)
  {
    FailuresSplit(faults, from, mid, until);
  }

  /** The dead letter, the next transaction, and the two counters of the database. */
  datatype Mark = Mark(letters: seq<DeadLetter>, tick: nat, misreads: nat, skips: nat)

  /** How far the counters moved between two marks: not at all without a misread error, and the second not without one
      that had not committed. */
  ghost predicate Tied(faults: Schedule, m: Mark, m': Mark) {
    && m.tick <= m'.tick && m.misreads <= m'.misreads && m.skips <= m'.skips
    && (NoneMisread(faults, m.tick, m'.tick) ==> m'.misreads == m.misreads)
    && (NoneLost(faults, m.tick, m'.tick) ==> m'.skips == m.skips)
  }

  lemma TiedChains(faults: Schedule, a: Mark, b: Mark, c: Mark)
    requires Tied(faults, a, b) && Tied(faults, b, c)
    ensures Tied(faults, a, c)
    ensures NoneFail(faults, a.tick, c.tick) ==> NoneFail(faults, b.tick, c.tick)
  {
  }

  class Database {
    var tables: Tables
    var deadLetters: seq<DeadLetter>
    var tick: nat
    var letterTick: nat
    /** How often an error was taken for a row error that no row caused, and how often the fallback gave up a row for it
        that should have landed. */
    ghost var misreads: nat
    ghost var skips: nat
    const valid: RowCheck
    /** What happens to the n-th insert transaction. */
    const faults: Schedule
    /** Whether the n-th dead-letter write commits; its errors are swallowed. */
    const letterCommits: nat -> bool

    constructor (valid: RowCheck, faults: Schedule, letterCommits: nat -> bool)
      ensures this.valid == valid && this.faults == faults && this.letterCommits == letterCommits
      ensures tables == map[] && deadLetters == [] && misreads == skips == 0
    {
      this.valid, this.faults, this.letterCommits := valid, faults, letterCommits;
      tables, deadLetters, tick, letterTick, misreads, skips := map[], [], 0, 0, 0, 0;
    }

    ghost predicate LettersCommit() {
      forall n :: letterCommits(n)
    }

    ghost function Here(): Mark
      reads this
    {
      Mark(deadLetters, tick, misreads, skips)
    }

    /** One INSERT in its own transaction: refused as a whole when some row is refused. */
    method Insert(table: Table, rows: seq<Row>) returns (r: Insertion)
      modifies this`tables, this`tick
      ensures tick == old(tick) + 1
      ensures (tables, r) == Transaction(valid, old(tables), table, rows, faults(old(tick)))
      ensures tables == old(tables)
              || (AllAccept(valid, table, rows) && tables == Inserted(old(tables), table, rows))
      ensures r.Committed? ==> AllAccept(valid, table, rows) && tables == Inserted(old(tables), table, rows)
    {
      var fault := faults(tick);
      tick := tick + 1;
      if !fault.NoFault? && !fault.committed {
        return Reported(fault);
      }
      if !AllAccept(valid, table, rows) {
        return RowErrorRaised;
      }
      tables := tables[table := InsertAll(table, ContentIn(tables, table), rows)];
      r := Reported(fault);
    }

    /** Best-effort write of one dead letter. */
    method AddDeadLetter(letter: DeadLetter)
      modifies this`deadLetters, this`letterTick
      ensures deadLetters == old(deadLetters) + if letterCommits(old(letterTick)) then [letter] else []
      ensures letterTick == old(letterTick) + 1
    {
      if letterCommits(letterTick) {
        deadLetters := deadLetters + [letter];
      }
      letterTick := letterTick + 1;
    }
  }

  function OutcomeOf(r: Insertion): Outcome
    requires r.Raised?
  {
    if r.transient then Transient else Fatal
  }

  lemma {:induction false} AllAccepted(valid: RowCheck, table: Table, rows: seq<Row>)
    requires AllAccept(valid, table, rows)
    ensures Accepted(valid, table, rows) == rows
  {
    if rows == [] {
    } else {
      AllAccepted(valid, table, rows[..|rows| - 1]);
      assert rows[|rows| - 1] in rows;
    }
  }

  lemma {:induction false} NoneRefused(valid: RowCheck, table: Table, rows: seq<Row>, k: nat)
    requires AllAccept(valid, table, rows) && k <= |rows|
    ensures RefusedLetters(valid, table, rows, k) == []
  {
    if k == 0 {
    } else {
      NoneRefused(valid, table, rows, k - 1);
    }
  }

  lemma OneMoreRow(valid: RowCheck, table: Table, rows: seq<Row>, k: nat)
    requires k < |rows|
    ensures Accepted(valid, table, rows[..k + 1])
            == if Accepts(valid, table, rows[k]) then Accepted(valid, table, rows[..k]) + [rows[k]]
               else Accepted(valid, table, rows[..k])
  {
    assert rows[..k + 1][..k] == rows[..k];
  }

  ghost predicate OnlyMoved(table: Table, before: Tables, after: Tables) {
    forall t :: t != table ==> ContentIn(after, t) == ContentIn(before, t)
  }

  /** Only row errors were logged. */
  ghost predicate RowLettersOnly(was: seq<DeadLetter>, now: seq<DeadLetter>) {
    was <= now && RowErrorsOnly(now[|was|..])
  }

  ghost predicate RowErrorsOnly(letters: seq<DeadLetter>) {
    forall l :: l in letters ==> l.reason.RowError?
  }

  lemma RowLettersChain(was: seq<DeadLetter>, mid: seq<DeadLetter>, now: seq<DeadLetter>)
    requires RowLettersOnly(was, mid) && RowLettersOnly(mid, now)
    ensures RowLettersOnly(was, now)
  {
    assert now[|was|..] == mid[|was|..] + now[|mid|..];
  }

  lemma OneRowLetter(was: seq<DeadLetter>, l: DeadLetter)
    requires l.reason.RowError?
    ensures RowLettersOnly(was, was + [l]) && RowLettersOnly(was, was)
  {
    assert (was + [l])[|was|..] == [l] && was[|was|..] == [];
  }

  /** The row is there, under its key where there is one, or in the dead letter. */
  ghost predicate RowHandled(table: Table, content: seq<Row>, letters: seq<DeadLetter>, row: Row) {
    Present(table, content, row) || DeadLetter(table, row, RowError) in letters
  }

  ghost predicate AllHandled(table: Table, content: seq<Row>, letters: seq<DeadLetter>, rows: seq<Row>) {
    forall row :: row in rows ==> RowHandled(table, content, letters, row)
  }

  lemma HandledStay(table: Table, was: seq<Row>, now: seq<Row>, old': seq<DeadLetter>, new': seq<DeadLetter>,
                    rows: seq<Row>)
    requires AllHandled(table, was, old', rows) && was <= now && old' <= new'
    ensures AllHandled(table, now, new', rows)
  {
    forall row | row in rows
      ensures RowHandled(table, now, new', row)
    {
      if Present(table, was, row) {
        PresentStays(table, was, now, row);
      } else {
        var i :| 0 <= i < |old'| && old'[i] == DeadLetter(table, row, RowError);
        assert new'[i] == old'[i];
      }
    }
  }

  lemma InsertedOneIsPresent(table: Table, content: seq<Row>, row: Row)
    ensures Present(table, InsertOne(table, content, row), row) && content <= InsertOne(table, content, row)
  {
    var after := InsertOne(table, content, row);
    if !(Keyed(table) && HasKey(table, content, row)) {
      assert after[|content|] == row;
    }
  }

  lemma InsertedSingle(table: Table, content: seq<Row>, row: Row)
    ensures InsertAll(table, content, [row]) == InsertOne(table, content, row)
  {
    assert [] + [row] == [row];
    InsertSnoc(table, content, [], row);
  }

  lemma OneAccepts(valid: RowCheck, table: Table, row: Row)
    ensures AllAccept(valid, table, [row]) <==> Accepts(valid, table, row)
  {
    assert row in [row];
  }

  /** The row should land, is not there yet, and is given up for an error that no row caused. */
  predicate SkipsRow(valid: RowCheck, table: Table, content: seq<Row>, row: Row, fault: Fault) {
    Accepts(valid, table, row) && fault == Misread(false) && InsertOne(table, content, row) != content
  }

  /** One row in its own transaction. */
  method InsertRow(db: Database, table: Table, row: Row) returns (r: Insertion)
    modifies db`tables, db`tick, db`misreads, db`skips
    ensures OnlyMoved(table, old(db.tables), db.tables)
    ensures db.tick == old(db.tick) + 1
    ensures (db.tables, r) == Transaction(db.valid, old(db.tables), table, [row], db.faults(old(db.tick)))
    ensures db.misreads == old(db.misreads)
                           + if db.faults(old(db.tick)).Misread? && Accepts(db.valid, table, row) then 1 else 0
    ensures db.skips == old(db.skips)
                        + if SkipsRow(db.valid, table, ContentIn(old(db.tables), table), row, db.faults(old(db.tick)))
                          then 1 else 0
    ensures db.tables == old(db.tables)
            || (Accepts(db.valid, table, row)
                && ContentIn(db.tables, table) == InsertOne(table, ContentIn(old(db.tables), table), row))
    ensures r.Committed? ==> db.tables == Inserted(old(db.tables), table, [row]) && Accepts(db.valid, table, row)
  {
    ghost var before := db.tables;
    InsertedSingle(table, ContentIn(before, table), row);
    OneAccepts(db.valid, table, row);
    r := db.Insert(table, [row]);
    if r.RowErrorRaised? && Accepts(db.valid, table, row) {
      db.misreads := db.misreads + 1;
      if ContentIn(db.tables, table) != InsertOne(table, ContentIn(before, table), row) {
        db.skips := db.skips + 1;
      }
    }
  }

  /** The fallback lands the row, or finds its key taken, unless its transaction fails. */
  predicate Kept(valid: RowCheck, table: Table, row: Row, fault: Fault) {
    Accepts(valid, table, row) && fault != Misread(false)
  }

  /** What one row of the fallback does; `took` tells whether the database saw it through. */
  ghost predicate RowStep(db: Database, table: Table, row: Row, content: seq<Row>, content': seq<Row>, m: Mark,
                          m': Mark, done: bool, took: bool) {
    && m'.tick == m.tick + 1 && Tied(db.faults, m, m')
    && (done ==> took) && (!db.faults(m.tick).Failure? ==> done)
    && RowContent(db, table, row, content, content', m, m', took)
    && (db.LettersCommit() ==> RowLogged(db.valid, table, row, content', m, m', done, took))
  }

  /** The row lands by the schedule, and is counted if it should have and did not. */
  ghost predicate RowContent(db: Database, table: Table, row: Row, content: seq<Row>, content': seq<Row>, m: Mark,
                             m': Mark, took: bool) {
    var fault := db.faults(m.tick);
    && m'.skips == m.skips + (if SkipsRow(db.valid, table, content, row, fault) then 1 else 0)
    && content' == if took && Kept(db.valid, table, row, fault) then InsertOne(table, content, row) else content
  }

  /** The row is in the dead letter if it is not in the table, and without a misread error exactly if it is refused. */
  ghost predicate RowLogged(valid: RowCheck, table: Table, row: Row, content: seq<Row>, m: Mark, m': Mark, done: bool,
                            took: bool) {
    && RowLettersOnly(m.letters, m'.letters)
    && (done ==> RowHandled(table, content, m'.letters, row))
    && (m'.misreads == m.misreads ==>
          m'.letters == if took then m.letters + RowLetters(valid, table, row) else m.letters)
  }

  /** One row of the fallback. */
  method WriteOneRow(db: Database, table: Table, row: Row) returns (out: Outcome, ghost took: bool)
    modifies db`tables, db`tick, db`deadLetters, db`letterTick, db`misreads, db`skips
    ensures OnlyMoved(table, old(db.tables), db.tables)
    ensures RowStep(db, table, row, ContentIn(old(db.tables), table), ContentIn(db.tables, table), old(db.Here()),
                    db.Here(), out.Done?, took)
    ensures NoneFatal(db.faults, old(db.tick), db.tick) ==> !out.Fatal?
  {
    ghost var before := db.tables;
    InsertedSingle(table, ContentIn(before, table), row);
    OneAccepts(db.valid, table, row);
    InsertedOneIsPresent(table, ContentIn(before, table), row);
    OneRowLetter(db.deadLetters, DeadLetter(table, row, RowError));
    var r := InsertRow(db, table, row);
    match r
    case Raised(_) =>
      took := db.tables != before;
      out := OutcomeOf(r);
    case RowErrorRaised =>
      db.AddDeadLetter(DeadLetter(table, row, RowError));
      out, took := Done, true;
    case Committed =>
      out, took := Done, true;
  }

  /** A table after the first k rows were each tried on their own. */
  function TriedRows(valid: RowCheck, table: Table, content: seq<Row>, rows: seq<Row>, k: nat): seq<Row>
    requires k <= |rows|
  {
    if k == 0 then content
    else
      var before := TriedRows(valid, table, content, rows, k - 1);
      if Accepts(valid, table, rows[k - 1]) then InsertOne(table, before, rows[k - 1]) else before
  }

  lemma {:induction false} TriedIsAccepted(valid: RowCheck, table: Table, content: seq<Row>, rows: seq<Row>, k: nat)
    requires k <= |rows|
    ensures TriedRows(valid, table, content, rows, k) == InsertAll(table, content, Accepted(valid, table, rows[..k]))
  {
    if k > 0 {
      TriedIsAccepted(valid, table, content, rows, k - 1);
      OneMoreRow(valid, table, rows, k - 1);
      InsertSnoc(table, content, Accepted(valid, table, rows[..k - 1]), rows[k - 1]);
    } else {
      assert rows[..0] == [];
    }
  }

  lemma ConcatAssociates<T>(a: seq<T>, b: seq<T>, c: seq<T>)
    ensures a + b + c == a + (b + c)
  {
  }

  lemma HandledSnoc(table: Table, was: seq<Row>, now: seq<Row>, logged: seq<DeadLetter>, letters: seq<DeadLetter>,
                    rows: seq<Row>, i: nat)
    requires i < |rows| && AllHandled(table, was, logged, rows[..i]) && was <= now && logged <= letters
    requires RowHandled(table, now, letters, rows[i])
    ensures AllHandled(table, now, letters, rows[..i + 1])
  {
    HandledStay(table, was, now, logged, letters, rows[..i]);
    assert rows[..i + 1] == rows[..i] + [rows[i]];
  }

  /** The first k rows without those the fallback gives up, the i-th row's transaction being the i-th from `tick` on. */
  function KeptRows(valid: RowCheck, table: Table, rows: seq<Row>, faults: Schedule, tick: nat, k: nat): seq<Row>
    requires k <= |rows|
  {
    if k == 0 then []
    else
      KeptRows(valid, table, rows, faults, tick, k - 1)
      + (if Kept(valid, table, rows[k - 1], faults(tick + (k - 1))) then [rows[k - 1]] else [])
  }

  lemma KeptOneMore(valid: RowCheck, table: Table, content: seq<Row>, rows: seq<Row>, faults: Schedule, tick: nat,
                    i: nat)
    requires i < |rows|
    ensures InsertAll(table, content, KeptRows(valid, table, rows, faults, tick, i + 1))
            == if Kept(valid, table, rows[i], faults(tick + i))
               then InsertOne(table, InsertAll(table, content, KeptRows(valid, table, rows, faults, tick, i)), rows[i])
               else InsertAll(table, content, KeptRows(valid, table, rows, faults, tick, i))
  {
    var before := KeptRows(valid, table, rows, faults, tick, i);
    assert KeptRows(valid, table, rows, faults, tick, i + 1)
        == before + (if Kept(valid, table, rows[i], faults(tick + i)) then [rows[i]] else []);
    InsertSnoc(table, content, before, rows[i]);
    assert before + [] == before;
  }

  /** What the fallback has done after k rows. */
  ghost predicate FallbackAt(db: Database, table: Table, rows: seq<Row>, k: nat, content: seq<Row>, content': seq<Row>,
                             m: Mark, m': Mark) {
    && k <= |rows| && Tied(db.faults, m, m')
    && FallbackContent(db, table, rows, k, content, content', m, m')
    && (db.LettersCommit() ==> FallbackLogged(db.valid, table, rows, k, m, m'))
  }

  /** The rows it kept are in; unless it skipped one, those are the accepted ones. */
  ghost predicate FallbackContent(db: Database, table: Table, rows: seq<Row>, k: nat, content: seq<Row>,
                                  content': seq<Row>, m: Mark, m': Mark)
    requires k <= |rows|
  {
    && content' == InsertAll(table, content, KeptRows(db.valid, table, rows, db.faults, m.tick, k))
    && (m'.skips == m.skips ==> content' == TriedRows(db.valid, table, content, rows, k))
  }

  /** The refused rows are in the dead letter, and without a misread error no others. */
  ghost predicate FallbackLogged(valid: RowCheck, table: Table, rows: seq<Row>, k: nat, m: Mark, m': Mark)
    requires k <= |rows|
  {
    && RowLettersOnly(m.letters, m'.letters)
    && (m'.misreads == m.misreads ==> m'.letters == m.letters + RefusedLetters(valid, table, rows, k))
  }

  lemma FallbackLetters(valid: RowCheck, table: Table, rows: seq<Row>, i: nat, content: seq<Row>, m0: Mark, m: Mark,
                        m': Mark, done: bool, took: bool)
    requires i < |rows| && m0.misreads <= m.misreads <= m'.misreads
    requires FallbackLogged(valid, table, rows, i, m0, m)
    requires RowLogged(valid, table, rows[i], content, m, m', done, took)
    ensures FallbackLogged(valid, table, rows, if took then i + 1 else i, m0, m')
  {
    RowLettersChain(m0.letters, m.letters, m'.letters);
    ConcatAssociates(m0.letters, RefusedLetters(valid, table, rows, i), RowLetters(valid, table, rows[i]));
  }

  /** One more row, by the schedule and by the predicate on rows. */
  lemma KeptStep(valid: RowCheck, table: Table, rows: seq<Row>, i: nat, faults: Schedule, tick: nat, start: seq<Row>,
                 content: seq<Row>, content': seq<Row>, took: bool)
    requires i < |rows| && content == InsertAll(table, start, KeptRows(valid, table, rows, faults, tick, i))
    requires content' == if took && Kept(valid, table, rows[i], faults(tick + i))
                         then InsertOne(table, content, rows[i]) else content
    ensures content' == InsertAll(table, start, KeptRows(valid, table, rows, faults, tick, if took then i + 1 else i))
  {
    KeptOneMore(valid, table, start, rows, faults, tick, i);
  }

  lemma TriedStep(valid: RowCheck, table: Table, rows: seq<Row>, i: nat, start: seq<Row>, content: seq<Row>,
                  content': seq<Row>, took: bool)
    requires i < |rows| && content == TriedRows(valid, table, start, rows, i)
    requires content' == if took && Accepts(valid, table, rows[i]) then InsertOne(table, content, rows[i]) else content
    ensures content' == TriedRows(valid, table, start, rows, if took then i + 1 else i)
  {
  }

  lemma FallbackRows(db: Database, table: Table, rows: seq<Row>, i: nat, start: seq<Row>, content: seq<Row>,
                     content': seq<Row>, m0: Mark, m: Mark, m': Mark, took: bool)
    requires i < |rows| && m.tick == m0.tick + i && m0.skips <= m.skips
    requires FallbackContent(db, table, rows, i, start, content, m0, m)
    requires RowContent(db, table, rows[i], content, content', m, m', took)
    ensures FallbackContent(db, table, rows, if took then i + 1 else i, start, content', m0, m')
  {
    KeptStep(db.valid, table, rows, i, db.faults, m0.tick, start, content, content', took);
    if m'.skips == m0.skips {
      TriedStep(db.valid, table, rows, i, start, content, content', took);
    }
  }

  lemma FallbackStep(db: Database, table: Table, rows: seq<Row>, i: nat, start: seq<Row>, content: seq<Row>,
                     content': seq<Row>, m0: Mark, m: Mark, m': Mark, done: bool, took: bool)
    requires i < |rows| && m.tick == m0.tick + i && FallbackAt(db, table, rows, i, start, content, m0, m)
    requires RowStep(db, table, rows[i], content, content', m, m', done, took)
    ensures FallbackAt(db, table, rows, if took then i + 1 else i, start, content', m0, m')
  {
    TiedChains(db.faults, m0, m, m');
    FallbackRows(db, table, rows, i, start, content, content', m0, m, m', took);
    if db.LettersCommit() {
      FallbackLetters(db.valid, table, rows, i, content', m0, m, m', done, took);
    }
  }

  /** The per-row fallback: each row in its own transaction; refused rows are dead-lettered. */
  method WriteRowsOneByOne(db: Database, table: Table, rows: seq<Row>) returns (out: Outcome, ghost k: nat)
    modifies db`tables, db`tick, db`deadLetters, db`letterTick, db`misreads, db`skips
    ensures OnlyMoved(table, old(db.tables), db.tables)
    ensures FallbackAt(db, table, rows, k, ContentIn(old(db.tables), table), ContentIn(db.tables, table),
                       old(db.Here()), db.Here())
    ensures out.Done? ==> k == |rows| && db.tick == old(db.tick) + k
    ensures NoneFail(db.faults, old(db.tick), db.tick) ==> out.Done?
    ensures NoneFatal(db.faults, old(db.tick), db.tick) ==> !out.Fatal?
    ensures db.LettersCommit() && out.Done? ==>
              AllHandled(table, ContentIn(db.tables, table), db.deadLetters, rows)
  {
    ghost var start := ContentIn(db.tables, table);
    k := 0;
    OneRowLetter(db.deadLetters, DeadLetter(table, map[], RowError));
    for i := 0 to |rows|
      invariant k == i && db.tick == old(db.tick) + i
      invariant OnlyMoved(table, old(db.tables), db.tables)
      invariant FallbackAt(db, table, rows, i, start, ContentIn(db.tables, table), old(db.Here()), db.Here())
      invariant db.LettersCommit() ==> AllHandled(table, ContentIn(db.tables, table), db.deadLetters, rows[..i])
    {
      ghost var took;
      ghost var content, mark := ContentIn(db.tables, table), db.Here();
      out, took := WriteOneRow(db, table, rows[i]);
      FallbackStep(db, table, rows, i, start, content, ContentIn(db.tables, table), old(db.Here()), mark, db.Here(),
                   out.Done?, took);
      k := if took then i + 1 else i;
      if !out.Done? {
        return;
      }
      if db.LettersCommit() {
        InsertedOneIsPresent(table, content, rows[i]);
        HandledSnoc(table, content, ContentIn(db.tables, table), mark.letters, db.deadLetters, rows, i);
      }
    }
    assert rows[..|rows|] == rows;
    out := Done;
  }

  /** The dead letter grew by a prefix of what is owed, and by all of it on a complete attempt. */
  ghost predicate Logged(was: seq<DeadLetter>, now: seq<DeadLetter>, owed: seq<DeadLetter>, complete: bool) {
    was <= now <= was + owed && (complete ==> now == was + owed)
  }

  lemma AllInsertedArePresent(table: Table, content: seq<Row>, letters: seq<DeadLetter>, rows: seq<Row>)
    ensures AllHandled(table, InsertAll(table, content, rows), letters, rows)
  {
    forall row | row in rows
      ensures RowHandled(table, InsertAll(table, content, rows), letters, row)
    {
      InsertedArePresent(table, content, rows, row);
    }
  }

  /** A bulk insert that was committed and reported as a row error, and then the fallback over it. */
  lemma TriedAgain(valid: RowCheck, batch: seq<Event>, table: Table, content: seq<Row>, k: nat)
    requires Keyed(table) && AllAccept(valid, table, RowsFor(batch, table)) && k <= |RowsFor(batch, table)|
    ensures var rows := RowsFor(batch, table);
            TriedRows(valid, table, InsertAll(table, content, rows), rows, k)
            == InsertAll(table, content, Landing(valid, batch, table))
  {
    var rows := RowsFor(batch, table);
    AllAccepted(valid, table, rows);
    assert AllAccept(valid, table, rows[..k]) by {
      assert forall row :: row in rows[..k] ==> row in rows;
    }
    AllAccepted(valid, table, rows[..k]);
    TriedIsAccepted(valid, table, InsertAll(table, content, rows), rows, k);
    PrefixAbsorbed(table, content, rows, k);
  }

  /** What claims on a table need beside that no row was skipped: without a natural key, that no error was misread. */
  predicate Sure(table: Table, misread: bool) {
    Keyed(table) || !Known(table) || !misread
  }

  /** What the table holds after the fallback over a refused bulk insert. */
  lemma FallbackIsCut(valid: RowCheck, batch: seq<Event>, table: Table, before: seq<Row>, start: seq<Row>, k: nat,
                      misread: bool)
    requires Known(table) && k <= |RowsFor(batch, table)| && Sure(table, misread)
    requires start == before
             || (misread && AllAccept(valid, table, RowsFor(batch, table))
                 && start == InsertAll(table, before, RowsFor(batch, table)))
    ensures var after := TriedRows(valid, table, start, RowsFor(batch, table), k);
            && CutOff(valid, batch, table, before, after)
            && (k == |RowsFor(batch, table)| ==> after == InsertAll(table, before, Landing(valid, batch, table)))
  {
    if start == before {
      TriedIsCut(valid, batch, table, before, k);
    } else {
      TriedAgain(valid, batch, table, before, k);
      FullIsCut(valid, batch, table, before);
    }
  }

  predicate BulkEnds(valid: RowCheck, table: Table, rows: seq<Row>, fault: Fault) {
    AllAccept(valid, table, rows) && fault.NoFault?
  }

  /** What a table holds when its rows are through: the bulk insert's, or the fallback's over what that left. */
  function TableEnd(valid: RowCheck, table: Table, content: seq<Row>, rows: seq<Row>, faults: Schedule, tick: nat)
    : seq<Row>
  {
    if BulkEnds(valid, table, rows, faults(tick)) then InsertAll(table, content, rows)
    else
      InsertAll(table,
                if AllAccept(valid, table, rows) && faults(tick) == Misread(true) then InsertAll(table, content, rows)
                else content,
                KeptRows(valid, table, rows, faults, tick + 1, |rows|))
  }

  /** The next transaction after a table's. */
  function TableTick(valid: RowCheck, table: Table, rows: seq<Row>, faults: Schedule, tick: nat): nat {
    tick + 1 + if BulkEnds(valid, table, rows, faults(tick)) then 0 else |rows|
  }

  /** What the bulk insert of one table does. */
  ghost predicate BulkStep(db: Database, table: Table, rows: seq<Row>, content: seq<Row>, content': seq<Row>, m: Mark,
                           m': Mark, r: Insertion) {
    && m'.tick == m.tick + 1 && Tied(db.faults, m, m') && m'.skips == m.skips && m'.letters == m.letters
    && BulkContent(db, table, rows, content, content', m, r)
    && (r.RowErrorRaised? && AllAccept(db.valid, table, rows) ==> m'.misreads > m.misreads)
  }

  /** What it leaves in the table, by what it reports. */
  ghost predicate BulkContent(db: Database, table: Table, rows: seq<Row>, content: seq<Row>, content': seq<Row>,
                              m: Mark, r: Insertion) {
    var fault, all := db.faults(m.tick), AllAccept(db.valid, table, rows);
    && (r.Committed? <==> BulkEnds(db.valid, table, rows, fault))
    && (r.Raised? ==> fault.Failure? && r.transient == fault.transient)
    && (r.Committed? ==> content' == InsertAll(table, content, rows))
    && (r.Raised? ==> content' == content || (all && content' == InsertAll(table, content, rows)))
    && (r.RowErrorRaised? ==>
          content' == if all && fault == Misread(true) then InsertAll(table, content, rows) else content)
  }

  /** The bulk insert of one table; a row error that no row caused is counted. */
  method BulkInsert(db: Database, table: Table, rows: seq<Row>) returns (r: Insertion)
    modifies db`tables, db`tick, db`misreads
    ensures OnlyMoved(table, old(db.tables), db.tables)
    ensures BulkStep(db, table, rows, ContentIn(old(db.tables), table), ContentIn(db.tables, table), old(db.Here()),
                     db.Here(), r)
  {
    TransactionContent(db.valid, db.tables, table, rows, db.faults(db.tick));
    r := db.Insert(table, rows);
    if r.RowErrorRaised? && AllAccept(db.valid, table, rows) {
      db.misreads := db.misreads + 1;
    }
  }

  /** What a transaction leaves in its table, by what it reports. */
  lemma TransactionContent(valid: RowCheck, tables: Tables, table: Table, rows: seq<Row>, fault: Fault)
    ensures var (after, r) := Transaction(valid, tables, table, rows, fault);
            var content, all := InsertAll(table, ContentIn(tables, table), rows), AllAccept(valid, table, rows);
            && OnlyMoved(table, tables, after)
            && (r.Committed? <==> BulkEnds(valid, table, rows, fault))
            && (r.Raised? ==> fault.Failure? && r.transient == fault.transient)
            && (r.RowErrorRaised? && all ==> fault.Misread?)
            && (r.Committed? ==> ContentIn(after, table) == content)
            && (r.Raised? ==> after == tables || (all && ContentIn(after, table) == content))
            && (r.RowErrorRaised? ==>
                  ContentIn(after, table)
                  == if all && fault == Misread(true) then content else ContentIn(tables, table))
  {
  }

  /** What one table of a batch comes to. */
  ghost predicate TableStep(db: Database, batch: seq<Event>, table: Table, content: seq<Row>, content': seq<Row>,
                            m: Mark, m': Mark, done: bool) {
    && Tied(db.faults, m, m') && (NoneFail(db.faults, m.tick, m'.tick) ==> done)
    && (done ==> TableByTicks(db, table, RowsFor(batch, table), content, content', m, m'))
    && (m'.skips == m.skips && Sure(table, m'.misreads > m.misreads) ==>
          TableByRows(db.valid, batch, table, content, content', done))
    && (db.LettersCommit() ==> TableLogged(db.valid, batch, table, content', m, m', done))
  }

  /** A table whose rows are through holds what the schedule makes of them. */
  ghost predicate TableByTicks(db: Database, table: Table, rows: seq<Row>, content: seq<Row>, content': seq<Row>,
                               m: Mark, m': Mark) {
    && content' == TableEnd(db.valid, table, content, rows, db.faults, m.tick)
    && m'.tick == TableTick(db.valid, table, rows, db.faults, m.tick)
  }

  /** It received a prefix of its accepted rows, and all of them if it is done. */
  ghost predicate TableByRows(valid: RowCheck, batch: seq<Event>, table: Table, content: seq<Row>, content': seq<Row>,
                              done: bool) {
    && CutOff(valid, batch, table, content, content')
    && (done ==> content' == InsertAll(table, content, Landing(valid, batch, table)))
  }

  /** Every row is in the table or in the dead letter, and without a misread error only refused ones are there. */
  ghost predicate TableLogged(valid: RowCheck, batch: seq<Event>, table: Table, content: seq<Row>, m: Mark, m': Mark,
                              done: bool) {
    && RowLettersOnly(m.letters, m'.letters)
    && (done ==> AllHandled(table, content, m'.letters, RowsFor(batch, table)))
    && (m'.misreads == m.misreads ==> Logged(m.letters, m'.letters, TableLetters(valid, batch, table), done))
  }

  lemma TableByBulk(db: Database, batch: seq<Event>, table: Table, content: seq<Row>, content': seq<Row>, m: Mark,
                    m': Mark, r: Insertion)
    requires BulkStep(db, table, RowsFor(batch, table), content, content', m, m', r) && !r.RowErrorRaised?
    ensures TableStep(db, batch, table, content, content', m, m', r.Committed?)
  {
    BulkIsCut(db.valid, batch, table, content, m.letters);
    OneRowLetter(m.letters, DeadLetter(table, map[], RowError));
  }

  lemma FallbackEnds(valid: RowCheck, table: Table, content: seq<Row>, start: seq<Row>, content': seq<Row>,
                     rows: seq<Row>, faults: Schedule, tick: nat)
    requires !BulkEnds(valid, table, rows, faults(tick))
    requires start == if AllAccept(valid, table, rows) && faults(tick) == Misread(true)
                      then InsertAll(table, content, rows) else content
    requires content' == InsertAll(table, start, KeptRows(valid, table, rows, faults, tick + 1, |rows|))
    ensures content' == TableEnd(valid, table, content, rows, faults, tick)
  {
  }

  lemma FallbackByTicks(db: Database, table: Table, rows: seq<Row>, content: seq<Row>, start: seq<Row>,
                        content': seq<Row>, m: Mark, mid: Mark, m': Mark)
    requires BulkContent(db, table, rows, content, start, m, RowErrorRaised) && mid.tick == m.tick + 1
    requires content' == InsertAll(table, start, KeptRows(db.valid, table, rows, db.faults, mid.tick, |rows|))
    requires m'.tick == mid.tick + |rows|
    ensures TableByTicks(db, table, rows, content, content', m, m')
  {
    FallbackEnds(db.valid, table, content, start, content', rows, db.faults, m.tick);
  }

  lemma FallbackByRows(db: Database, batch: seq<Event>, table: Table, content: seq<Row>, start: seq<Row>,
                       content': seq<Row>, m: Mark, mid: Mark, m': Mark, k: nat, done: bool)
    requires Known(table) && BulkStep(db, table, RowsFor(batch, table), content, start, m, mid, RowErrorRaised)
    requires k <= |RowsFor(batch, table)| && (done ==> k == |RowsFor(batch, table)|) && mid.misreads <= m'.misreads
    requires FallbackContent(db, table, RowsFor(batch, table), k, start, content', mid, m')
    requires m'.skips == m.skips && Sure(table, m'.misreads > m.misreads)
    ensures TableByRows(db.valid, batch, table, content, content', done)
  {
    FallbackIsCut(db.valid, batch, table, content, start, k, m'.misreads > m.misreads);
  }

  lemma FallbackTableLogged(valid: RowCheck, batch: seq<Event>, table: Table, content: seq<Row>, m: Mark, mid: Mark,
                            m': Mark, k: nat, done: bool)
    requires mid.letters == m.letters && m.misreads <= mid.misreads <= m'.misreads && k <= |RowsFor(batch, table)|
    requires FallbackLogged(valid, table, RowsFor(batch, table), k, mid, m')
    requires done ==> k == |RowsFor(batch, table)| && AllHandled(table, content, m'.letters, RowsFor(batch, table))
    ensures TableLogged(valid, batch, table, content, m, m', done)
  {
    RefusedPrefix(valid, table, RowsFor(batch, table), k, |RowsFor(batch, table)|);
  }

  lemma TableByFallback(db: Database, batch: seq<Event>, table: Table, content: seq<Row>, start: seq<Row>,
                        content': seq<Row>, m: Mark, mid: Mark, m': Mark, k: nat, done: bool)
    requires Known(table) && BulkStep(db, table, RowsFor(batch, table), content, start, m, mid, RowErrorRaised)
    requires FallbackAt(db, table, RowsFor(batch, table), k, start, content', mid, m')
    requires done ==> k == |RowsFor(batch, table)| && m'.tick == mid.tick + k
    requires NoneFail(db.faults, mid.tick, m'.tick) ==> done
    requires db.LettersCommit() && done ==> AllHandled(table, content', m'.letters, RowsFor(batch, table))
    ensures TableStep(db, batch, table, content, content', m, m', done)
  {
    TiedChains(db.faults, m, mid, m');
    if done {
      FallbackByTicks(db, table, RowsFor(batch, table), content, start, content', m, mid, m');
    }
    if m'.skips == m.skips && Sure(table, m'.misreads > m.misreads) {
      FallbackByRows(db, batch, table, content, start, content', m, mid, m', k, done);
    }
    if db.LettersCommit() {
      FallbackTableLogged(db.valid, batch, table, content', m, mid, m', k, done);
    }
  }

  /** One table of a batch: a bulk insert, or row by row when the bulk insert is refused. */
  method WriteTable(db: Database, table: Table, rows: seq<Row>, ghost batch: seq<Event>) returns (out: Outcome)
    requires Known(table) && rows == RowsFor(batch, table)
    modifies db`tables, db`tick, db`deadLetters, db`letterTick, db`misreads, db`skips
    ensures OnlyMoved(table, old(db.tables), db.tables)
    ensures TableStep(db, batch, table, ContentIn(old(db.tables), table), ContentIn(db.tables, table), old(db.Here()),
                      db.Here(), out.Done?)
    ensures NoneFatal(db.faults, old(db.tick), db.tick) ==> !out.Fatal?
  {
    ghost var content, mark := ContentIn(db.tables, table), db.Here();
    var r := BulkInsert(db, table, rows);
    match r
    case Committed =>
      out := Done;
      TableByBulk(db, batch, table, content, ContentIn(db.tables, table), mark, db.Here(), r);
    case Raised(_) =>
      out := OutcomeOf(r);
      TableByBulk(db, batch, table, content, ContentIn(db.tables, table), mark, db.Here(), r);
    case RowErrorRaised =>
      ghost var k;
      ghost var start, mid := ContentIn(db.tables, table), db.Here();
      out, k := WriteRowsOneByOne(db, table, rows);
      TableByFallback(db, batch, table, content, start, ContentIn(db.tables, table), mark, mid, db.Here(), k,
                      out.Done?);
  }

  lemma BulkIsCut(valid: RowCheck, batch: seq<Event>, table: Table, content: seq<Row>, letters: seq<DeadLetter>)
    ensures CutOff(valid, batch, table, content, content)
    ensures var rows := RowsFor(batch, table);
            && content <= InsertAll(table, content, rows)
            && AllHandled(table, InsertAll(table, content, rows), letters, rows)
            && (AllAccept(valid, table, rows) ==>
                  && Landing(valid, batch, table) == rows && TableLetters(valid, batch, table) == []
                  && CutOff(valid, batch, table, content, InsertAll(table, content, rows)))
  {
    var rows := RowsFor(batch, table);
    if AllAccept(valid, table, rows) {
      AllAccepted(valid, table, rows);
      NoneRefused(valid, table, rows, |rows|);
      FullIsCut(valid, batch, table, content);
    }
    InsertKeepsOldRows(table, content, rows);
    AllInsertedArePresent(table, content, letters, rows);
    UntouchedIsCut(valid, batch, table, content);
  }

  lemma TriedIsCut(valid: RowCheck, batch: seq<Event>, table: Table, content: seq<Row>, k: nat)
    requires k <= |RowsFor(batch, table)|
    ensures CutOff(valid, batch, table, content, TriedRows(valid, table, content, RowsFor(batch, table), k))
    ensures k == |RowsFor(batch, table)| ==>
              TriedRows(valid, table, content, RowsFor(batch, table), k)
              == InsertAll(table, content, Landing(valid, batch, table))
  {
    var rows, landing := RowsFor(batch, table), Landing(valid, batch, table);
    var part := Accepted(valid, table, rows[..k]);
    TriedIsAccepted(valid, table, content, rows, k);
    AcceptedPrefix(valid, table, rows, k);
    assert landing[..|part|] == part;
    assert CutAt(valid, batch, table, content, TriedRows(valid, table, content, rows, k), |part|);
    assert rows[..|rows|] == rows;
  }

  // ----- One batch -----

  lemma {:induction false} TablesAreDistinct(batch: seq<Event>)
    ensures forall i, j :: 0 <= i < j < |TablesOf(batch)| ==> TablesOf(batch)[i] != TablesOf(batch)[j]
    ensures forall t :: t in TablesOf(batch) ==> Known(t)
  {
    if batch == [] {
    } else {
      TablesAreDistinct(batch[..|batch| - 1]);
    }
  }

  lemma NextTableIsNew(batch: seq<Event>, i: nat)
    requires i < |TablesOf(batch)|
    ensures Known(TablesOf(batch)[i]) && TablesOf(batch)[i] !in TablesOf(batch)[..i]
    ensures forall t :: t in TablesOf(batch)[..i] ==> Known(t)
    ensures TablesOf(batch)[..i + 1] == TablesOf(batch)[..i] + [TablesOf(batch)[i]]
  {
    TablesAreDistinct(batch);
  }

  lemma {:induction false} UnlistedHasNoRows(batch: seq<Event>, table: Table)
    requires Known(table) && table !in TablesOf(batch)
    ensures RowsFor(batch, table) == []
  {
    if batch == [] {
    } else {
      UnlistedHasNoRows(batch[..|batch| - 1], table);
    }
  }

  lemma OneMoreUnknown(batch: seq<Event>, n: nat)
    requires n < |batch|
    ensures UnknownLetters(batch[..n + 1])
            == if Known(batch[n].table) then UnknownLetters(batch[..n])
               else UnknownLetters(batch[..n]) + [DeadLetter(batch[n].table, batch[n].row, UnknownTable)]
  {
    assert batch[..n + 1][..n] == batch[..n];
  }

  /** The grouping dictionary of a batch and the order of its keys. */
  ghost predicate Grouped(batch: seq<Event>, order: seq<Table>, byTable: Tables) {
    && order == TablesOf(batch)
    && (forall t :: t in order <==> t in byTable)
    && (forall t :: t in byTable ==> byTable[t] == RowsFor(batch, t))
  }

  lemma GroupOneMore(prior: seq<Event>, e: Event, order: seq<Table>, byTable: Tables, order': seq<Table>,
                     byTable': Tables)
    requires Grouped(prior, order, byTable)
    requires if !Known(e.table) then order' == order && byTable' == byTable
             else if e.table in byTable then
               order' == order && byTable' == byTable[e.table := byTable[e.table] + [e.row]]
             else order' == order + [e.table] && byTable' == byTable[e.table := [e.row]]
    ensures Grouped(prior + [e], order', byTable')
  {
    var seen := prior + [e];
    assert seen[..|prior|] == prior;
    assert order' == TablesOf(seen);
    if Known(e.table) && e.table !in order {
      UnlistedHasNoRows(prior, e.table);
    }
    TablesAreDistinct(prior);
    forall t | t in byTable'
      ensures byTable'[t] == RowsFor(seen, t)
    {
      RowsForSnoc(prior, e, t);
    }
  }

  lemma RowsForSnoc(prior: seq<Event>, e: Event, t: Table)
    ensures RowsFor(prior + [e], t) == if e.table == t then RowsFor(prior, t) + [e.row] else RowsFor(prior, t)
  {
    assert (prior + [e])[..|prior|] == prior;
  }

  lemma GroupNext(batch: seq<Event>, n: nat, order: seq<Table>, byTable: Tables, order': seq<Table>, byTable': Tables)
    requires n < |batch| && Grouped(batch[..n], order, byTable)
    requires var e := batch[n];
             if !Known(e.table) then order' == order && byTable' == byTable
             else if e.table in byTable then
               order' == order && byTable' == byTable[e.table := byTable[e.table] + [e.row]]
             else order' == order + [e.table] && byTable' == byTable[e.table := [e.row]]
    ensures Grouped(batch[..n + 1], order', byTable')
  {
    assert batch[..n + 1] == batch[..n] + [batch[n]];
    GroupOneMore(batch[..n], batch[n], order, byTable, order', byTable');
  }

  /** Groups a batch by table, keeping first-appearance order, and dead-letters the unknown tables. */
  method GroupByTable(db: Database, batch: seq<Event>) returns (order: seq<Table>, byTable: map<Table, seq<Row>>)
    modifies db`deadLetters, db`letterTick
    ensures Grouped(batch, order, byTable)
    ensures db.LettersCommit() ==> db.deadLetters == old(db.deadLetters) + UnknownLetters(batch)
  {
    order, byTable := [], map[];
    for n := 0 to |batch|
      invariant Grouped(batch[..n], order, byTable)
      invariant db.LettersCommit() ==> db.deadLetters == old(db.deadLetters) + UnknownLetters(batch[..n])
    {
      var Event(table, row) := batch[n];
      ghost var order0, byTable0 := order, byTable;
      OneMoreUnknown(batch, n);
      if !Known(table) {
        db.AddDeadLetter(DeadLetter(table, row, UnknownTable));
      } else if table in byTable {
        byTable := byTable[table := byTable[table] + [row]];
      } else {
        order := order + [table];
        byTable := byTable[table := [row]];
      }
      GroupNext(batch, n, order0, byTable0, order, byTable);
    }
    assert batch[..|batch|] == batch;
  }

  /** Dead letters for every refused row of the batch. */
  function RefusedOf(valid: RowCheck, batch: seq<Event>): seq<DeadLetter> {
    AllRefused(valid, batch, TablesOf(batch), |TablesOf(batch)|)
  }

  lemma PrefixStays<T>(a: seq<T>, b: seq<T>, c: seq<T>)
    requires a <= b
    ensures a <= b + c
  {
  }

  lemma {:induction false} AllRefusedPrefix(valid: RowCheck, batch: seq<Event>, tables: seq<Table>, i: nat, k: nat)
    requires i <= k <= |tables|
    ensures AllRefused(valid, batch, tables, i) <= AllRefused(valid, batch, tables, k)
  {
    if i >= k {
    } else {
      AllRefusedPrefix(valid, batch, tables, i, k - 1);
      PrefixStays(AllRefused(valid, batch, tables, i), AllRefused(valid, batch, tables, k - 1),
                  TableLetters(valid, batch, tables[k - 1]));
    }
  }

  lemma UntouchedIsCut(valid: RowCheck, batch: seq<Event>, table: Table, content: seq<Row>)
    ensures CutOff(valid, batch, table, content, content)
  {
    assert Landing(valid, batch, table)[..0] == [];
    assert CutAt(valid, batch, table, content, content, 0);
  }

  /** Every known table received some prefix of what should land in it; nothing else moved. */
  ghost predicate AllCut(valid: RowCheck, batch: seq<Event>, before: Tables, after: Tables, misread: bool) {
    forall t :: Sure(t, misread) ==>
      if Known(t) then CutOff(valid, batch, t, ContentIn(before, t), ContentIn(after, t))
      else ContentIn(after, t) == ContentIn(before, t)
  }

  /** Every table holds what a clean pass over the batch leaves in it. */
  ghost predicate AllClean(valid: RowCheck, batch: seq<Event>, before: Tables, after: Tables, misread: bool) {
    forall t :: Sure(t, misread) ==> ContentIn(after, t) == CleanPass(valid, batch, t, ContentIn(before, t))
  }

  /** The tables in `done` are written in full and no other table has moved. */
  ghost predicate Written(valid: RowCheck, batch: seq<Event>, done: seq<Table>, before: Tables, after: Tables,
                          misread: bool) {
    forall t :: Sure(t, misread) ==> WrittenAt(valid, batch, done, before, after, t)
  }

  ghost predicate WrittenAt(valid: RowCheck, batch: seq<Event>, done: seq<Table>, before: Tables, after: Tables,
                            t: Table) {
    ContentIn(after, t)
    == if t in done then InsertAll(t, ContentIn(before, t), Landing(valid, batch, t)) else ContentIn(before, t)
  }

  lemma OneMoreTable(valid: RowCheck, batch: seq<Event>, done: seq<Table>, table: Table,
                     before: Tables, mid: Tables, after: Tables, misread: bool)
    requires table !in done && Written(valid, batch, done, before, mid, misread) && OnlyMoved(table, mid, after)
    requires Sure(table, misread) ==>
               ContentIn(after, table) == InsertAll(table, ContentIn(mid, table), Landing(valid, batch, table))
    ensures Written(valid, batch, done + [table], before, after, misread)
  {
    forall t | Sure(t, misread)
      ensures WrittenAt(valid, batch, done + [table], before, after, t)
    {
      assert WrittenAt(valid, batch, done, before, mid, t);
    }
  }

  lemma AllTablesWritten(valid: RowCheck, batch: seq<Event>, before: Tables, after: Tables, misread: bool)
    requires Written(valid, batch, TablesOf(batch), before, after, misread)
    ensures AllClean(valid, batch, before, after, misread) && AllCut(valid, batch, before, after, misread)
  {
    forall t | Sure(t, misread)
      ensures ContentIn(after, t) == CleanPass(valid, batch, t, ContentIn(before, t))
      ensures Known(t) ==> CutOff(valid, batch, t, ContentIn(before, t), ContentIn(after, t))
      ensures !Known(t) ==> ContentIn(after, t) == ContentIn(before, t)
    {
      TableWritten(valid, batch, before, after, t);
    }
  }

  lemma TableWritten(valid: RowCheck, batch: seq<Event>, before: Tables, after: Tables, t: Table)
    requires WrittenAt(valid, batch, TablesOf(batch), before, after, t)
    ensures ContentIn(after, t) == CleanPass(valid, batch, t, ContentIn(before, t))
    ensures Known(t) ==> CutOff(valid, batch, t, ContentIn(before, t), ContentIn(after, t))
    ensures !Known(t) ==> ContentIn(after, t) == ContentIn(before, t)
  {
    if Known(t) {
      GroupingIsClean(valid, batch, t, ContentIn(before, t));
      FullIsCut(valid, batch, t, ContentIn(before, t));
      if t !in TablesOf(batch) {
        UnlistedHasNoRows(batch, t);
      }
    } else {
      TablesAreDistinct(batch);
      UnknownTableUntouched(valid, batch, t, ContentIn(before, t));
    }
  }

  lemma FullIsCut(valid: RowCheck, batch: seq<Event>, table: Table, content: seq<Row>)
    ensures CutOff(valid, batch, table, content, InsertAll(table, content, Landing(valid, batch, table)))
  {
    var landing := Landing(valid, batch, table);
    assert landing[..|landing|] == landing;
    assert CutAt(valid, batch, table, content, InsertAll(table, content, landing), |landing|);
  }

  lemma StoppedAtTable(valid: RowCheck, batch: seq<Event>, done: seq<Table>, table: Table,
                       before: Tables, mid: Tables, after: Tables, misread: bool)
    requires Known(table) && table !in done && forall t :: t in done ==> Known(t)
    requires Written(valid, batch, done, before, mid, misread) && OnlyMoved(table, mid, after)
    requires Sure(table, misread) ==> CutOff(valid, batch, table, ContentIn(mid, table), ContentIn(after, table))
    ensures AllCut(valid, batch, before, after, misread)
  {
    forall t | Sure(t, misread)
      ensures if Known(t) then CutOff(valid, batch, t, ContentIn(before, t), ContentIn(after, t))
              else ContentIn(after, t) == ContentIn(before, t)
    {
      assert WrittenAt(valid, batch, done, before, mid, t);
      if t != table {
        assert ContentIn(after, t) == ContentIn(mid, t);
        FullIsCut(valid, batch, t, ContentIn(before, t));
        UntouchedIsCut(valid, batch, t, ContentIn(before, t));
      }
    }
  }

  lemma OneMoreLogged(valid: RowCheck, batch: seq<Event>, order: seq<Table>, i: nat,
                      was: seq<DeadLetter>, mid: seq<DeadLetter>, now: seq<DeadLetter>, complete: bool)
    requires i < |order| && mid == was + AllRefused(valid, batch, order, i)
    requires Logged(mid, now, TableLetters(valid, batch, order[i]), complete)
    ensures Logged(was, now, AllRefused(valid, batch, order, i + 1), complete)
    ensures Logged(was, now, AllRefused(valid, batch, order, |order|), false)
  {
    AllRefusedPrefix(valid, batch, order, i + 1, |order|);
    PrefixGrows(was, AllRefused(valid, batch, order, i), TableLetters(valid, batch, order[i]),
                AllRefused(valid, batch, order, |order|), now);
  }

  lemma PrefixGrows<T>(was: seq<T>, a: seq<T>, b: seq<T>, all: seq<T>, now: seq<T>)
    requires was + a <= now <= was + a + b && a + b <= all
    ensures was <= now <= was + (a + b) <= was + all
  {
    assert was + a + b == was + (a + b);
    assert forall i :: 0 <= i < |a + b| ==> (was + all)[|was| + i] == (a + b)[i];
  }

  /** Every row of these tables is in its table or in the dead letter. */
  ghost predicate TablesHandled(batch: seq<Event>, done: seq<Table>, tables: Tables, letters: seq<DeadLetter>) {
    forall t :: t in done ==> AllHandled(t, ContentIn(tables, t), letters, RowsFor(batch, t))
  }

  lemma OneMoreHandled(batch: seq<Event>, done: seq<Table>, table: Table, mid: Tables, after: Tables,
                       was: seq<DeadLetter>, now: seq<DeadLetter>)
    requires TablesHandled(batch, done, mid, was) && table !in done && OnlyMoved(table, mid, after) && was <= now
    requires AllHandled(table, ContentIn(after, table), now, RowsFor(batch, table))
    ensures TablesHandled(batch, done + [table], after, now)
  {
    forall t | t in done + [table]
      ensures AllHandled(t, ContentIn(after, t), now, RowsFor(batch, t))
    {
      if t != table {
        assert t in done;
        HandledStay(t, ContentIn(mid, t), ContentIn(after, t), was, now, RowsFor(batch, t));
      }
    }
  }

  /** The transaction at which the i-th table of a complete attempt begins. */
  function TickAt(valid: RowCheck, batch: seq<Event>, order: seq<Table>, faults: Schedule, tick: nat, i: nat): nat
    requires i <= |order|
  {
    if i == 0 then tick
    else
      TableTick(valid, order[i - 1], RowsFor(batch, order[i - 1]), faults,
                TickAt(valid, batch, order, faults, tick, i - 1))
  }

  /** The first n tables hold what the schedule makes of them, and the others what they held. */
  ghost predicate EndsAt(valid: RowCheck, batch: seq<Event>, order: seq<Table>, faults: Schedule, tick: nat,
                         before: Tables, after: Tables, n: nat)
    requires n <= |order|
  {
    && (forall j :: 0 <= j < n ==> TableEnds(valid, batch, order, faults, tick, before, after, j))
    && (forall t :: t !in order[..n] ==> ContentIn(after, t) == ContentIn(before, t))
  }

  ghost predicate TableEnds(valid: RowCheck, batch: seq<Event>, order: seq<Table>, faults: Schedule, tick: nat,
                            before: Tables, after: Tables, j: nat)
    requires j < |order|
  {
    ContentIn(after, order[j])
    == TableEnd(valid, order[j], ContentIn(before, order[j]), RowsFor(batch, order[j]), faults,
                TickAt(valid, batch, order, faults, tick, j))
  }

  lemma OneMoreEnd(valid: RowCheck, batch: seq<Event>, order: seq<Table>, faults: Schedule, tick: nat, before: Tables,
                   mid: Tables, after: Tables, i: nat)
    requires i < |order| && order[i] !in order[..i] && OnlyMoved(order[i], mid, after)
    requires EndsAt(valid, batch, order, faults, tick, before, mid, i)
    requires ContentIn(after, order[i])
             == TableEnd(valid, order[i], ContentIn(mid, order[i]), RowsFor(batch, order[i]), faults,
                         TickAt(valid, batch, order, faults, tick, i))
    ensures EndsAt(valid, batch, order, faults, tick, before, after, i + 1)
  {
    forall j | 0 <= j < i + 1
      ensures TableEnds(valid, batch, order, faults, tick, before, after, j)
    {
      if j < i {
        assert order[..i][j] == order[j];
        EndStays(valid, batch, order, faults, tick, before, mid, after, j, i);
      } else {
        assert ContentIn(mid, order[i]) == ContentIn(before, order[i]);
      }
    }
    OthersStay(order, before, mid, after, i);
  }

  lemma EndStays(valid: RowCheck, batch: seq<Event>, order: seq<Table>, faults: Schedule, tick: nat, before: Tables,
                 mid: Tables, after: Tables, j: nat, i: nat)
    requires j < i < |order| && order[j] != order[i] && OnlyMoved(order[i], mid, after)
    requires TableEnds(valid, batch, order, faults, tick, before, mid, j)
    ensures TableEnds(valid, batch, order, faults, tick, before, after, j)
  {
    assert ContentIn(after, order[j]) == ContentIn(mid, order[j]);
  }

  lemma OthersStay(order: seq<Table>, before: Tables, mid: Tables, after: Tables, i: nat)
    requires i < |order| && OnlyMoved(order[i], mid, after)
    requires forall t :: t !in order[..i] ==> ContentIn(mid, t) == ContentIn(before, t)
    ensures forall t :: t !in order[..i + 1] ==> ContentIn(after, t) == ContentIn(before, t)
  {
    assert order[..i + 1] == order[..i] + [order[i]];
  }

  /** What an attempt has done after its first i tables. */
  ghost predicate TablesAt(db: Database, batch: seq<Event>, order: seq<Table>, i: nat, before: Tables, after: Tables,
                           m: Mark, m': Mark)
    requires i <= |order|
  {
    && Tied(db.faults, m, m') && m'.tick == TickAt(db.valid, batch, order, db.faults, m.tick, i)
    && EndsAt(db.valid, batch, order, db.faults, m.tick, before, after, i)
    && (m'.skips == m.skips ==> Written(db.valid, batch, order[..i], before, after, m'.misreads > m.misreads))
    && (db.LettersCommit() ==> RowLettersOnly(m.letters, m'.letters))
    && (db.LettersCommit() ==> TablesHandled(batch, order[..i], after, m'.letters))
    && (db.LettersCommit() && m'.misreads == m.misreads ==>
          m'.letters == m.letters + AllRefused(db.valid, batch, order, i))
  }

  /** A complete attempt leaves in every table what the schedule from its first transaction on makes of it. */
  ghost predicate AttemptEnds(valid: RowCheck, batch: seq<Event>, faults: Schedule, tick: nat, before: Tables,
                              after: Tables) {
    EndsAt(valid, batch, TablesOf(batch), faults, tick, before, after, |TablesOf(batch)|)
  }

  /** What the table writes of one attempt come to. */
  ghost predicate TablesStep(db: Database, batch: seq<Event>, before: Tables, after: Tables, m: Mark, m': Mark,
                             done: bool) {
    && Tied(db.faults, m, m') && (NoneFail(db.faults, m.tick, m'.tick) ==> done)
    && (done ==> AttemptEnds(db.valid, batch, db.faults, m.tick, before, after))
    && (m'.skips == m.skips ==> AllCut(db.valid, batch, before, after, m'.misreads > m.misreads))
    && (m'.skips == m.skips && done ==> AllClean(db.valid, batch, before, after, m'.misreads > m.misreads))
    && (db.LettersCommit() ==> RowLettersOnly(m.letters, m'.letters))
    && (db.LettersCommit() && done ==> TablesHandled(batch, TablesOf(batch), after, m'.letters))
    && (db.LettersCommit() && m'.misreads == m.misreads ==>
          Logged(m.letters, m'.letters, RefusedOf(db.valid, batch), done))
  }

  lemma NextTableDone(db: Database, batch: seq<Event>, i: nat, before: Tables, mid: Tables, after: Tables, m0: Mark,
                      m: Mark, m': Mark)
    requires i < |TablesOf(batch)| && TablesAt(db, batch, TablesOf(batch), i, before, mid, m0, m)
    requires var t := TablesOf(batch)[i];
             && OnlyMoved(t, mid, after)
             && TableStep(db, batch, t, ContentIn(mid, t), ContentIn(after, t), m, m', true)
    ensures TablesAt(db, batch, TablesOf(batch), i + 1, before, after, m0, m')
  {
    var order, t := TablesOf(batch), TablesOf(batch)[i];
    NextTableIsNew(batch, i);
    TiedChains(db.faults, m0, m, m');
    OneMoreEnd(db.valid, batch, order, db.faults, m0.tick, before, mid, after, i);
    if m'.skips == m0.skips {
      OneMoreTable(db.valid, batch, order[..i], t, before, mid, after, m'.misreads > m0.misreads);
    }
    if db.LettersCommit() {
      RowLettersChain(m0.letters, m.letters, m'.letters);
      OneMoreHandled(batch, order[..i], t, mid, after, m.letters, m'.letters);
      if m'.misreads == m0.misreads {
        OneMoreLogged(db.valid, batch, order, i, m0.letters, m.letters, m'.letters, true);
      }
    }
  }

  lemma TableStopped(db: Database, batch: seq<Event>, i: nat, before: Tables, mid: Tables, after: Tables, m0: Mark,
                     m: Mark, m': Mark)
    requires i < |TablesOf(batch)| && TablesAt(db, batch, TablesOf(batch), i, before, mid, m0, m)
    requires var t := TablesOf(batch)[i];
             && OnlyMoved(t, mid, after)
             && TableStep(db, batch, t, ContentIn(mid, t), ContentIn(after, t), m, m', false)
    ensures TablesStep(db, batch, before, after, m0, m', false)
  {
    var order, t := TablesOf(batch), TablesOf(batch)[i];
    NextTableIsNew(batch, i);
    TiedChains(db.faults, m0, m, m');
    if m'.skips == m0.skips {
      StoppedAtTable(db.valid, batch, order[..i], t, before, mid, after, m'.misreads > m0.misreads);
    }
    if db.LettersCommit() {
      RowLettersChain(m0.letters, m.letters, m'.letters);
      if m'.misreads == m0.misreads {
        OneMoreLogged(db.valid, batch, order, i, m0.letters, m.letters, m'.letters, false);
      }
    }
  }

  lemma TablesDone(db: Database, batch: seq<Event>, before: Tables, after: Tables, m: Mark, m': Mark)
    requires TablesAt(db, batch, TablesOf(batch), |TablesOf(batch)|, before, after, m, m')
    ensures TablesStep(db, batch, before, after, m, m', true)
  {
    var order := TablesOf(batch);
    assert order[..|order|] == order;
    if m'.skips == m.skips {
      AllTablesWritten(db.valid, batch, before, after, m'.misreads > m.misreads);
    }
  }

  lemma NoTableYet(db: Database, batch: seq<Event>, tables: Tables, m: Mark)
    ensures TablesAt(db, batch, TablesOf(batch), 0, tables, tables, m, m)
  {
    assert TablesOf(batch)[..0] == [];
    OneRowLetter(m.letters, DeadLetter(Other(""), map[], RowError));
  }

  /** The table writes of one attempt, each table in its own transaction, up to the first exception. */
  method WriteTables(db: Database, batch: seq<Event>, order: seq<Table>, byTable: Tables) returns (out: Outcome)
    requires order == TablesOf(batch)
    requires forall t :: t in order ==> t in byTable && byTable[t] == RowsFor(batch, t)
    modifies db`tables, db`tick, db`deadLetters, db`letterTick, db`misreads, db`skips
    ensures TablesStep(db, batch, old(db.tables), db.tables, old(db.Here()), db.Here(), out.Done?)
    ensures NoneFatal(db.faults, old(db.tick), db.tick) ==> !out.Fatal?
  {
    ghost var before, mark := db.tables, db.Here();
    NoTableYet(db, batch, before, mark);
    for i := 0 to |order|
      invariant TablesAt(db, batch, order, i, before, db.tables, mark, db.Here())
    {
      ghost var mid, here := db.tables, db.Here();
      assert order[i] in order;
      NextTableIsNew(batch, i);
      out := WriteTable(db, order[i], byTable[order[i]], batch);
      if !out.Done? {
        TableStopped(db, batch, i, before, mid, db.tables, mark, here, db.Here());
        return;
      }
      NextTableDone(db, batch, i, before, mid, db.tables, mark, here, db.Here());
    }
    TablesDone(db, batch, before, db.tables, mark, db.Here());
    out := Done;
  }

  /** The event's row is in its table, under its key where there is one, or the event is in the dead letter. */
  ghost predicate Handled(e: Event, tables: Tables, letters: seq<DeadLetter>) {
    if Known(e.table) then RowHandled(e.table, ContentIn(tables, e.table), letters, e.row)
    else DeadLetter(e.table, e.row, UnknownTable) in letters
  }

  ghost predicate EveryHandled(batch: seq<Event>, tables: Tables, letters: seq<DeadLetter>) {
    forall e :: e in batch ==> Handled(e, tables, letters)
  }

  /** A complete attempt leaves no event of its batch unaccounted for. */
  lemma CompleteAttemptHandles(batch: seq<Event>, tables: Tables, was: seq<DeadLetter>, now: seq<DeadLetter>)
    requires TablesHandled(batch, TablesOf(batch), tables, now) && was + UnknownLetters(batch) <= now
    ensures EveryHandled(batch, tables, now)
  {
    forall e | e in batch
      ensures Handled(e, tables, now)
    {
      if Known(e.table) {
        RowIsGrouped(batch, e);
        assert AllHandled(e.table, ContentIn(tables, e.table), now, RowsFor(batch, e.table));
      } else {
        UnknownIsLogged(batch, e);
        InLongerList(DeadLetter(e.table, e.row, UnknownTable), was, UnknownLetters(batch), now);
      }
    }
  }

  /** The mark once a batch is grouped: its unknown-table events are dead-lettered. */
  ghost function AfterGrouping(db: Database, batch: seq<Event>, m: Mark, now: seq<DeadLetter>): Mark {
    m.(letters := if db.LettersCommit() then m.letters + UnknownLetters(batch) else now)
  }

  /** Without a promise on dead letters it does not matter which there are. */
  lemma LettersDoNotMatter(db: Database, batch: seq<Event>, before: Tables, after: Tables, m: Mark, m': Mark,
                           done: bool, now: seq<DeadLetter>)
    requires TablesStep(db, batch, before, after, m, m', done) && !db.LettersCommit()
    ensures TablesStep(db, batch, before, after, m.(letters := now), m', done)
  {
  }

  /** One attempt at a batch. */
  method WriteBatch(db: Database, batch: seq<Event>) returns (out: Outcome)
    modifies db`tables, db`tick, db`deadLetters, db`letterTick, db`misreads, db`skips
    ensures TablesStep(db, batch, old(db.tables), db.tables, AfterGrouping(db, batch, old(db.Here()), db.deadLetters),
                       db.Here(), out.Done?)
    ensures NoneFatal(db.faults, old(db.tick), db.tick) ==> !out.Fatal?
    ensures db.LettersCommit() && out.Done? ==> EveryHandled(batch, db.tables, db.deadLetters)
  {
    ghost var was, before := db.deadLetters, db.tables;
    var order, byTable := GroupByTable(db, batch);
    ghost var grouped := db.Here();
    if order == [] {
      NoTableYet(db, batch, db.tables, db.Here());
      TablesDone(db, batch, db.tables, db.tables, db.Here(), db.Here());
      out := Done;
    } else {
      out := WriteTables(db, batch, order, byTable);
    }
    if !db.LettersCommit() {
      LettersDoNotMatter(db, batch, before, db.tables, grouped, db.Here(), out.Done?, db.deadLetters);
    } else if out.Done? {
      CompleteAttemptHandles(batch, db.tables, was, db.deadLetters);
    }
  }

  // ----- The retry loop -----

  /** Keyed tables hold what a clean pass leaves in them. */
  ghost predicate KeyedClean(valid: RowCheck, batch: seq<Event>, before: Tables, after: Tables) {
    forall t :: Keyed(t) ==> ContentIn(after, t) == CleanPass(valid, batch, t, ContentIn(before, t))
  }

  ghost predicate KeyedCut(valid: RowCheck, batch: seq<Event>, before: Tables, after: Tables) {
    forall t :: Keyed(t) ==> CutOff(valid, batch, t, ContentIn(before, t), ContentIn(after, t))
  }

  lemma NothingIsCut(valid: RowCheck, batch: seq<Event>, tables: Tables)
    ensures KeyedCut(valid, batch, tables, tables)
  {
    forall t | Keyed(t)
      ensures CutOff(valid, batch, t, ContentIn(tables, t), ContentIn(tables, t))
    {
      UntouchedIsCut(valid, batch, t, ContentIn(tables, t));
    }
  }

  lemma AttemptAfterCut(valid: RowCheck, batch: seq<Event>, before: Tables, mid: Tables, after: Tables,
                        complete: bool, misread: bool)
    requires KeyedCut(valid, batch, before, mid) && AllCut(valid, batch, mid, after, misread)
    requires complete ==> AllClean(valid, batch, mid, after, misread)
    ensures KeyedCut(valid, batch, before, after)
    ensures complete ==> KeyedClean(valid, batch, before, after)
  {
    forall t | Keyed(t)
      ensures CutOff(valid, batch, t, ContentIn(before, t), ContentIn(after, t))
      ensures complete ==> ContentIn(after, t) == CleanPass(valid, batch, t, ContentIn(before, t))
    {
      KeyedTableAfterCut(valid, batch, before, mid, after, t, complete, misread);
    }
  }

  lemma KeyedTableAfterCut(valid: RowCheck, batch: seq<Event>, before: Tables, mid: Tables, after: Tables, t: Table,
                           complete: bool, misread: bool)
    requires Keyed(t) && KeyedCut(valid, batch, before, mid) && AllCut(valid, batch, mid, after, misread)
    requires complete ==> AllClean(valid, batch, mid, after, misread)
    ensures CutOff(valid, batch, t, ContentIn(before, t), ContentIn(after, t))
    ensures complete ==> ContentIn(after, t) == CleanPass(valid, batch, t, ContentIn(before, t))
  {
    assert Known(t) && Sure(t, misread);
    assert CutOff(valid, batch, t, ContentIn(before, t), ContentIn(mid, t));
    assert CutOff(valid, batch, t, ContentIn(mid, t), ContentIn(after, t));
    AttemptsMerge(valid, batch, t, ContentIn(before, t), ContentIn(mid, t), ContentIn(after, t));
  }

  /** The unknown-table entries of a dead letter. */
  function UnknownOnly(letters: seq<DeadLetter>): seq<DeadLetter> {
    if letters == [] then []
    else UnknownOnly(letters[..|letters| - 1])
         + (if letters[|letters| - 1].reason.UnknownTable? then [letters[|letters| - 1]] else [])
  }

  function Repeat<T>(s: seq<T>, n: nat): seq<T> {
    if n == 0 then [] else Repeat(s, n - 1) + s
  }

  lemma {:induction false} UnknownOnlyConcat(a: seq<DeadLetter>, b: seq<DeadLetter>)
    ensures UnknownOnly(a + b) == UnknownOnly(a) + UnknownOnly(b)
  {
    if b == [] {
      assert a + b == a;
    } else {
      assert (a + b)[..|a + b| - 1] == a + b[..|b| - 1];
      UnknownOnlyConcat(a, b[..|b| - 1]);
    }
  }

  lemma {:induction false} NoUnknownAmong(letters: seq<DeadLetter>)
    requires RowErrorsOnly(letters)
    ensures UnknownOnly(letters) == []
  {
    if letters == [] {
    } else {
      NoUnknownAmong(letters[..|letters| - 1]);
      assert letters[|letters| - 1] in letters;
    }
  }

  lemma {:induction false} OnlyUnknownAmong(batch: seq<Event>)
    ensures UnknownOnly(UnknownLetters(batch)) == UnknownLetters(batch)
  {
    if batch == [] {
    } else {
      var front, last := batch[..|batch| - 1], batch[|batch| - 1];
      OnlyUnknownAmong(front);
      if Known(last.table) {
        assert UnknownLetters(batch) == UnknownLetters(front);
      } else {
        var l := DeadLetter(last.table, last.row, UnknownTable);
        UnknownOnlyConcat(UnknownLetters(front), [l]);
        assert [l][..0] == [] && UnknownOnly([l]) == [l];
      }
    }
  }

  /** Whatever row errors an attempt logged, it logged each unknown-table event once. */
  lemma UnknownOncePerAttempt(batch: seq<Event>, was: seq<DeadLetter>, now: seq<DeadLetter>)
    requires RowLettersOnly(was + UnknownLetters(batch), now)
    ensures UnknownOnly(now) == UnknownOnly(was) + UnknownLetters(batch)
  {
    var unknown := UnknownLetters(batch);
    var rest := now[|was + unknown|..];
    assert now == was + unknown + rest;
    NoUnknownAmong(rest);
    OnlyUnknownAmong(batch);
    UnknownOnlyConcat(was + unknown, rest);
    UnknownOnlyConcat(was, unknown);
  }

  /** Each attempt added one dead letter per unknown-table event, in batch order. */
  ghost predicate UnknownLogged(batch: seq<Event>, attempts: nat, was: seq<DeadLetter>, now: seq<DeadLetter>) {
    UnknownOnly(now) == UnknownOnly(was) + Repeat(UnknownLetters(batch), attempts)
  }

  lemma OneMoreAttemptLogged(batch: seq<Event>, attempts: nat,
                             was: seq<DeadLetter>, mid: seq<DeadLetter>, now: seq<DeadLetter>)
    requires UnknownLogged(batch, attempts, was, mid)
    requires RowLettersOnly(mid + UnknownLetters(batch), now)
    ensures UnknownLogged(batch, attempts + 1, was, now)
  {
    UnknownOncePerAttempt(batch, mid, now);
    ConcatAssociates(UnknownOnly(was), Repeat(UnknownLetters(batch), attempts), UnknownLetters(batch));
  }

  /** The event's row is in its table if the table takes it, and the event is in the dead letter if not. */
  ghost predicate Accounted(valid: RowCheck, e: Event, tables: Tables, letters: seq<DeadLetter>) {
    if !Known(e.table) then DeadLetter(e.table, e.row, UnknownTable) in letters
    else if Accepts(valid, e.table, e.row) then Present(e.table, ContentIn(tables, e.table), e.row)
    else DeadLetter(e.table, e.row, RowError) in letters
  }

  lemma {:induction false} UnknownIsLogged(batch: seq<Event>, e: Event)
    requires e in batch && !Known(e.table)
    ensures DeadLetter(e.table, e.row, UnknownTable) in UnknownLetters(batch)
  {
    if e != batch[|batch| - 1] {
      assert e in batch[..|batch| - 1];
      UnknownIsLogged(batch[..|batch| - 1], e);
    }
  }

  lemma {:induction false} RowIsGrouped(batch: seq<Event>, e: Event)
    requires e in batch && Known(e.table)
    ensures e.row in RowsFor(batch, e.table) && e.table in TablesOf(batch)
  {
    if e != batch[|batch| - 1] {
      assert e in batch[..|batch| - 1];
      RowIsGrouped(batch[..|batch| - 1], e);
    }
  }

  lemma {:induction false} RefusedIsLogged(valid: RowCheck, table: Table, rows: seq<Row>, k: nat, i: nat)
    requires i < k <= |rows| && !Accepts(valid, table, rows[i])
    ensures DeadLetter(table, rows[i], RowError) in RefusedLetters(valid, table, rows, k)
  {
    if i < k - 1 {
      RefusedIsLogged(valid, table, rows, k - 1, i);
    }
  }

  lemma TableIsLogged(valid: RowCheck, batch: seq<Event>, tables: seq<Table>, i: nat, l: DeadLetter)
    requires i < |tables| && l in TableLetters(valid, batch, tables[i])
    ensures l in AllRefused(valid, batch, tables, |tables|)
  {
    AllRefusedPrefix(valid, batch, tables, i + 1, |tables|);
    InLongerList(l, AllRefused(valid, batch, tables, i), TableLetters(valid, batch, tables[i]),
                 AllRefused(valid, batch, tables, |tables|));
  }

  lemma InLongerList<T>(x: T, a: seq<T>, b: seq<T>, all: seq<T>)
    requires x in b && a + b <= all
    ensures x in all
  {
    var i :| 0 <= i < |b| && b[i] == x;
    assert all[|a| + i] == (a + b)[|a| + i];
  }

  lemma {:induction false} AcceptedIsKept(valid: RowCheck, table: Table, rows: seq<Row>, row: Row)
    requires row in rows && Accepts(valid, table, row)
    ensures row in Accepted(valid, table, rows)
  {
    if row != rows[|rows| - 1] {
      assert row in rows[..|rows| - 1];
      AcceptedIsKept(valid, table, rows[..|rows| - 1], row);
    }
  }

  /** A complete attempt accounts for every event of its batch. */
  lemma CompleteAttemptAccounts(valid: RowCheck, batch: seq<Event>, before: Tables, after: Tables,
                                was: seq<DeadLetter>, now: seq<DeadLetter>, e: Event)
    requires e in batch && AllClean(valid, batch, before, after, false)
    requires Logged(was + UnknownLetters(batch), now, RefusedOf(valid, batch), true)
    ensures Accounted(valid, e, after, now)
  {
    if !Known(e.table) {
      UnknownIsLogged(batch, e);
    } else {
      RowIsGrouped(batch, e);
      var rows := RowsFor(batch, e.table);
      if Accepts(valid, e.table, e.row) {
        AcceptedIsKept(valid, e.table, rows, e.row);
        GroupingIsClean(valid, batch, e.table, ContentIn(before, e.table));
        InsertedArePresent(e.table, ContentIn(before, e.table), Landing(valid, batch, e.table), e.row);
      } else {
        var i :| 0 <= i < |rows| && rows[i] == e.row;
        var j :| 0 <= j < |TablesOf(batch)| && TablesOf(batch)[j] == e.table;
        RefusedIsLogged(valid, e.table, rows, |rows|, i);
        TableIsLogged(valid, batch, TablesOf(batch), j, DeadLetter(e.table, e.row, RowError));
      }
    }
  }

  ghost predicate EveryAccounted(valid: RowCheck, batch: seq<Event>, tables: Tables, letters: seq<DeadLetter>) {
    forall e :: e in batch ==> Accounted(valid, e, tables, letters)
  }

  lemma AllAccounted(valid: RowCheck, batch: seq<Event>, before: Tables, after: Tables,
                     was: seq<DeadLetter>, now: seq<DeadLetter>)
    requires AllClean(valid, batch, before, after, false)
    requires Logged(was + UnknownLetters(batch), now, RefusedOf(valid, batch), true)
    ensures EveryAccounted(valid, batch, after, now)
  {
    forall e | e in batch
      ensures Accounted(valid, e, after, now)
    {
      CompleteAttemptAccounts(valid, batch, before, after, was, now, e);
    }
  }

  /** What a call has done after some attempts, all of which ended in a transient error but the last if it is done. */
  ghost predicate AttemptsAt(db: Database, batch: seq<Event>, attempts: nat, before: Tables, after: Tables, m: Mark,
                             m': Mark, done: bool) {
    && Tied(db.faults, m, m') && (attempts == 0 ==> m' == m && after == before && done)
    && attempts <= Failures(db.faults, m.tick, m'.tick) + (if done then 1 else 0)
    && (done && attempts == 1 ==> AttemptEnds(db.valid, batch, db.faults, m.tick, before, after))
    && (done && attempts == 1 && m'.skips == m.skips ==>
          AllClean(db.valid, batch, before, after, m'.misreads > m.misreads))
    && (m'.skips == m.skips ==> KeyedCut(db.valid, batch, before, after))
    && (m'.skips == m.skips && done && attempts > 0 ==> KeyedClean(db.valid, batch, before, after))
    && (db.LettersCommit() ==> UnknownLogged(batch, attempts, m.letters, m'.letters))
    && (db.LettersCommit() && done && attempts > 0 && m'.misreads == m.misreads && m'.skips == m.skips ==>
          EveryAccounted(db.valid, batch, after, m'.letters))
  }

  lemma NextAttempt(db: Database, batch: seq<Event>, attempts: nat, before: Tables, mid: Tables, after: Tables,
                    m0: Mark, m: Mark, m': Mark, done: bool)
    requires AttemptsAt(db, batch, attempts, before, mid, m0, m, attempts == 0)
    requires TablesStep(db, batch, mid, after, AfterGrouping(db, batch, m, m'.letters), m', done)
    ensures AttemptsAt(db, batch, attempts + 1, before, after, m0, m', done)
  {
    TiedChains(db.faults, m0, m, m');
    FailuresSplit(db.faults, m0.tick, m.tick, m'.tick);
    NoFailures(db.faults, m.tick, m'.tick);
    if m'.skips == m0.skips {
      AttemptAfterCut(db.valid, batch, before, mid, after, done, m'.misreads > m.misreads);
    }
    if db.LettersCommit() {
      OneMoreAttemptLogged(batch, attempts, m0.letters, m.letters, m'.letters);
      if done && m'.misreads == m0.misreads && m'.skips == m0.skips {
        AllAccounted(db.valid, batch, mid, after, m.letters, m'.letters);
      }
    }
  }

  lemma NoAttemptYet(db: Database, batch: seq<Event>, tables: Tables, m: Mark)
    ensures AttemptsAt(db, batch, 0, tables, tables, m, m, true)
  {
    NothingIsCut(db.valid, batch, tables);
  }

  /** One more attempt after `attempts` that ended in a transient error. */
  method SendAgain(db: Database, batch: seq<Event>, ghost attempts: nat, ghost before: Tables, ghost mark: Mark)
    returns (out: Outcome)
    requires AttemptsAt(db, batch, attempts, before, db.tables, mark, db.Here(), attempts == 0)
    modifies db`tables, db`tick, db`deadLetters, db`letterTick, db`misreads, db`skips
    ensures AttemptsAt(db, batch, attempts + 1, before, db.tables, mark, db.Here(), out.Done?)
    ensures NoneFatal(db.faults, old(db.tick), db.tick) ==> !out.Fatal?
    ensures db.LettersCommit() && out.Done? ==> EveryHandled(batch, db.tables, db.deadLetters)
  {
    ghost var mid, here := db.tables, db.Here();
    out := WriteBatch(db, batch);
    NextAttempt(db, batch, attempts, before, mid, db.tables, mark, here, db.Here(), out.Done?);
  }

  /** The loop of the retries. */
  method SendAttempts(db: Database, batch: seq<Event>, retryAttempts: int) returns (out: Outcome, attempts: nat)
    modifies db`tables, db`tick, db`deadLetters, db`letterTick, db`misreads, db`skips
    ensures AttemptsAt(db, batch, attempts, old(db.tables), db.tables, old(db.Here()), db.Here(), out.Done?)
    ensures attempts <= if retryAttempts > 0 then retryAttempts else 0
    ensures attempts == 0 <==> retryAttempts <= 0
    ensures attempts == 0 ==> out.Done?
    ensures out.Transient? ==> attempts == retryAttempts
    ensures NoneFatal(db.faults, old(db.tick), db.tick) ==> !out.Fatal?
    ensures db.LettersCommit() && out.Done? && attempts > 0 ==> EveryHandled(batch, db.tables, db.deadLetters)
  {
    ghost var before, mark := db.tables, db.Here();
    attempts := 0;
    out := Done;
    NoAttemptYet(db, batch, before, mark);
    while attempts < retryAttempts
      invariant attempts <= if retryAttempts > 0 then retryAttempts else 0
      invariant if attempts == 0 then out.Done? else out.Transient?
      invariant AttemptsAt(db, batch, attempts, before, db.tables, mark, db.Here(), attempts == 0)
    {
      out := SendAgain(db, batch, attempts, before, mark);
      attempts := attempts + 1;
      if !out.Transient? {
        return;
      }
    }
  }

  /** Re-sends the whole batch until an attempt ends without a transient error, at most `retryAttempts` times. Under any
      fault schedule a normal return leaves every event in its table or in the dead letter. Under any in which no error
      is misread before its commit it means one clean pass on every keyed table, and the counter `skips` says more
      exactly when that may fail. */
  method WriteBatchWithRetries(db: Database, batch: seq<Event>, retryAttempts: int)
    returns (out: Outcome, attempts: nat)
    modifies db`tables, db`tick, db`deadLetters, db`letterTick, db`misreads, db`skips
    ensures NoneMisread(db.faults, old(db.tick), db.tick) ==> db.misreads == old(db.misreads)
    ensures NoneLost(db.faults, old(db.tick), db.tick) ==> db.skips == old(db.skips)
    ensures NoneLost(db.faults, old(db.tick), db.tick) && out.Done? && attempts > 0 ==>
              KeyedClean(db.valid, batch, old(db.tables), db.tables)
    ensures Tied(db.faults, old(db.Here()), db.Here())
    ensures attempts <= Failures(db.faults, old(db.tick), db.tick) + if out.Done? then 1 else 0
    ensures NoneFail(db.faults, old(db.tick), db.tick) ==> out.Done? && attempts <= 1
    ensures NoneFatal(db.faults, old(db.tick), db.tick) ==> !out.Fatal?
    ensures attempts <= if retryAttempts > 0 then retryAttempts else 0
    ensures db.skips == old(db.skips) ==> KeyedCut(db.valid, batch, old(db.tables), db.tables)
    ensures db.skips == old(db.skips) && out.Done? && attempts > 0 ==>
              KeyedClean(db.valid, batch, old(db.tables), db.tables)
    ensures db.skips == old(db.skips) && out.Done? && attempts == 1 ==>
              AllClean(db.valid, batch, old(db.tables), db.tables, db.misreads > old(db.misreads))
    ensures out.Done? && attempts == 1 ==>
              AttemptEnds(db.valid, batch, db.faults, old(db.tick), old(db.tables), db.tables)
    ensures attempts == 0 <==> retryAttempts <= 0
    ensures attempts == 0 ==> out.Done? && db.tables == old(db.tables) && db.deadLetters == old(db.deadLetters)
    ensures out.Transient? ==> retryAttempts == attempts <= Failures(db.faults, old(db.tick), db.tick)
    ensures db.LettersCommit() ==> UnknownLogged(batch, attempts, old(db.deadLetters), db.deadLetters)
    ensures db.LettersCommit() && out.Done? && attempts > 0 ==> EveryHandled(batch, db.tables, db.deadLetters)
    ensures db.LettersCommit() && db.misreads == old(db.misreads) && db.skips == old(db.skips)
            && out.Done? && attempts > 0 ==>
              EveryAccounted(db.valid, batch, db.tables, db.deadLetters)
  {
    ghost var tick := db.tick;
    out, attempts := SendAttempts(db, batch, retryAttempts);
    NoFailures(db.faults, tick, db.tick);
  }

  // ----- Several batches -----

  function Flatten(batches: seq<seq<Event>>): seq<Event> {
    if batches == [] then [] else Flatten(batches[..|batches| - 1]) + batches[|batches| - 1]
  }

  lemma FlattenSnoc(batches: seq<seq<Event>>, batch: seq<Event>)
    ensures Flatten(batches + [batch]) == Flatten(batches) + batch
  {
    assert (batches + [batch])[..|batches|] == batches;
  }

  lemma CleanPassesCompose(valid: RowCheck, a: seq<Event>, b: seq<Event>, before: Tables, mid: Tables, after: Tables)
    requires KeyedClean(valid, a, before, mid) && KeyedClean(valid, b, mid, after)
    ensures KeyedClean(valid, a + b, before, after)
  {
    forall t | Keyed(t)
      ensures ContentIn(after, t) == CleanPass(valid, a + b, t, ContentIn(before, t))
    {
      CleanConcat(valid, a, b, t, ContentIn(before, t));
    }
  }
}
