/** What the rows of one table are after the writer's inserts: the natural key stays unique, and a table without one
    takes every row as it comes. */
module WriterTables {
  import opened Options
  import opened Writer

  /** No two rows share a natural key. */
  ghost predicate UniqueKeys(table: Table, content: seq<Row>) {
    forall i, j :: 0 <= i < j < |content| ==> KeyOf(table, content[i]) != KeyOf(table, content[j])
  }

  lemma {:induction false} KeysStayUnique(table: Table, content: seq<Row>, rows: seq<Row>)
    requires Keyed(table) && UniqueKeys(table, content)
    ensures UniqueKeys(table, InsertAll(table, content, rows))
  {
    if rows != [] {
      KeysStayUnique(table, content, rows[..|rows| - 1]);
    }
  }

  lemma {:induction false} UnkeyedTakesAll(table: Table, content: seq<Row>, rows: seq<Row>)
    requires !Keyed(table)
    ensures InsertAll(table, content, rows) == content + rows
  {
    if rows != [] {
      var front, last := rows[..|rows| - 1], rows[|rows| - 1];
      UnkeyedTakesAll(table, content, front);
      assert rows == front + [last];
    }
  }

  /** A clean pass keeps the natural key unique, and appends exactly the accepted rows to a known table without one. */
  lemma CleanPassContent(valid: RowCheck, batch: seq<Event>, table: Table, content: seq<Row>)
    requires Known(table)
    ensures if Keyed(table) then UniqueKeys(table, content) ==>
              UniqueKeys(table, CleanPass(valid, batch, table, content))
            else CleanPass(valid, batch, table, content) == content + Landing(valid, batch, table)
  {
    GroupingIsClean(valid, batch, table, content);
    if !Keyed(table) {
      UnkeyedTakesAll(table, content, Landing(valid, batch, table));
    } else if UniqueKeys(table, content) {
      KeysStayUnique(table, content, Landing(valid, batch, table));
    }
  }

  /** Every row has all columns of its natural key. */
  ghost predicate KeysComplete(table: Table, content: seq<Row>) {
    forall row :: row in content ==> None !in KeyOf(table, row)
  }

  lemma {:induction false} AcceptedAreComplete(valid: RowCheck, table: Table, rows: seq<Row>)
    requires Keyed(table)
    ensures KeysComplete(table, Accepted(valid, table, rows))
  {
    if rows != [] {
      AcceptedAreComplete(valid, table, rows[..|rows| - 1]);
    }
  }

  lemma {:induction false} InsertedAreComplete(table: Table, content: seq<Row>, rows: seq<Row>)
    requires KeysComplete(table, content) && KeysComplete(table, rows)
    ensures KeysComplete(table, InsertAll(table, content, rows))
  {
    if rows != [] {
      var front, last := rows[..|rows| - 1], rows[|rows| - 1];
      assert last in rows && forall row :: row in front ==> row in rows;
      InsertedAreComplete(table, content, front);
    }
  }

  /** A clean pass never stores a row without a full natural key. */
  lemma CleanPassComplete(valid: RowCheck, batch: seq<Event>, table: Table, content: seq<Row>)
    requires Keyed(table) && Known(table) && KeysComplete(table, content)
    ensures KeysComplete(table, CleanPass(valid, batch, table, content))
  {
    GroupingIsClean(valid, batch, table, content);
    AcceptedAreComplete(valid, table, RowsFor(batch, table));
    InsertedAreComplete(table, content, Landing(valid, batch, table));
  }
}
