// The source transaction of integrations/pg-mdm/bounded_refresh_producer.py:267-296: insert the
// missing keys, then verify that every incoming row is stored as it came.

module SourceTable {
  import opened Basics

  datatype Field = NullField | TextField(text: string)

  /** key holds the conflict-key columns, values every configured column. */
  datatype SourceRow = SourceRow(key: seq<Field>, values: seq<Field>)

  /** The rows of one input record. */
  type Admission = seq<SourceRow>

  type Table = map<seq<Field>, seq<Field>>

  // ---- The SQL ----

  /** INSERT ... ON CONFLICT (key) DO NOTHING, row by row. */
  function InsertMissing(table: Table, rows: seq<SourceRow>): Table
    decreases rows
  {
    if rows == [] then table
    else
      var row := rows[0];
      InsertMissing(if row.key in table then table else table[row.key := row.values], rows[1..])
  }

  predicate Stored(table: Table, row: SourceRow) {
    row.key in table && table[row.key] == row.values
  }

  /** The replay verification: no incoming row is absent or differs from the stored row. */
  predicate AllStored(table: Table, rows: seq<SourceRow>) {
    forall i :: 0 <= i < |rows| ==> Stored(table, rows[i])
  }

  /** The committed table, or None when the verification raises and the transaction aborts. */
  function SourceTransaction(table: Table, rows: seq<SourceRow>): Option<Table> {
    var inserted := InsertMissing(table, rows);
    if AllStored(inserted, rows) then Some(inserted) else None
  }

  // ---- What it means ----

  /** No two sources of a key, table or incoming rows, disagree about its values. */
  ghost predicate Compatible(table: Table, rows: seq<SourceRow>) {
    && (forall i :: 0 <= i < |rows| && rows[i].key in table ==> table[rows[i].key] == rows[i].values)
    && (forall i, j :: 0 <= i < j < |rows| && rows[i].key == rows[j].key ==> rows[i].values == rows[j].values)
  }

  ghost predicate Extends(before: Table, after: Table) {
    forall key :: key in before ==> key in after && after[key] == before[key]
  }

  /** Every entry of after is an entry of before or one of the rows. */
  ghost predicate DrawnFrom(before: Table, rows: seq<SourceRow>, after: Table) {
    forall key :: key in after ==> (key in before && after[key] == before[key]) || SourceRow(key, after[key]) in rows
  }

  /** after is the union of the table and the rows. */
  ghost predicate IsUnion(before: Table, rows: seq<SourceRow>, after: Table) {
    Extends(before, after) && DrawnFrom(before, rows, after) && AllStored(after, rows)
  }

  lemma {:induction false} InsertKeeps(table: Table, rows: seq<SourceRow>)
    ensures Extends(table, InsertMissing(table, rows))
    ensures DrawnFrom(table, rows, InsertMissing(table, rows))
    decreases rows
  {
    if rows != [] {
      var row := rows[0];
      var next := if row.key in table then table else table[row.key := row.values];
      InsertKeeps(next, rows[1..]);
      assert rows[0] in rows;
    }
  }

  lemma {:induction false} InsertStores(table: Table, rows: seq<SourceRow>)
    requires Compatible(table, rows)
    ensures AllStored(InsertMissing(table, rows), rows)
    decreases rows
  {
    if rows != [] {
      var row := rows[0];
      var next := if row.key in table then table else table[row.key := row.values];
      InsertKeeps(next, rows[1..]);
      forall i | 0 <= i < |rows[1..]| && rows[1..][i].key in next
        ensures next[rows[1..][i].key] == rows[1..][i].values {
        assert rows[1..][i] == rows[i + 1];
      }
      InsertStores(next, rows[1..]);
      forall i | 0 <= i < |rows| ensures Stored(InsertMissing(table, rows), rows[i]) {
        if i > 0 { assert rows[i] == rows[1..][i - 1]; }
      }
    }
  }

  /** The transaction commits exactly when the union is consistent, and then it commits the union. */
  lemma CommitsTheUnion(table: Table, rows: seq<SourceRow>)
    ensures SourceTransaction(table, rows).Some? <==> Compatible(table, rows)
    ensures SourceTransaction(table, rows).Some? ==> IsUnion(table, rows, SourceTransaction(table, rows).value)
  {
    InsertKeeps(table, rows);
    if Compatible(table, rows) {
      InsertStores(table, rows);
    }
  }

  lemma UnionIsCommitted(table: Table, rows: seq<SourceRow>, after: Table)
    requires IsUnion(table, rows, after)
    ensures SourceTransaction(table, rows) == Some(after)
  {
    CommitsTheUnion(table, rows);
    assert Compatible(table, rows) by {
      forall i, j | 0 <= i < j < |rows| && rows[i].key == rows[j].key ensures rows[i].values == rows[j].values {
        assert Stored(after, rows[i]) && Stored(after, rows[j]);
      }
    }
    SameUnion(table, rows, after, SourceTransaction(table, rows).value);
  }

  lemma SameUnion(table: Table, rows: seq<SourceRow>, a: Table, b: Table)
    requires IsUnion(table, rows, a) && IsUnion(table, rows, b)
    ensures a == b
  {
    UnionWithin(table, rows, a, b);
    UnionWithin(table, rows, b, a);
  }

  lemma UnionWithin(table: Table, rows: seq<SourceRow>, a: Table, b: Table)
    requires IsUnion(table, rows, a) && IsUnion(table, rows, b)
    ensures Extends(a, b)
  {
    forall key | key in a ensures key in b && b[key] == a[key] {
      if !(key in table && a[key] == table[key]) {
        var i :| 0 <= i < |rows| && rows[i] == SourceRow(key, a[key]);
        assert Stored(b, rows[i]);
      }
    }
  }

  /** Replaying rows that are all stored changes nothing. */
  lemma ReplayIsIdempotent(table: Table, rows: seq<SourceRow>)
    requires AllStored(table, rows)
    ensures SourceTransaction(table, rows) == Some(table)
  {
    UnionIsCommitted(table, rows, table);
  }

  /** Two transactions commit exactly when one over both batches does, and leave the same table. */
  lemma SplitTransaction(table: Table, first: seq<SourceRow>, second: seq<SourceRow>)
    ensures SourceTransaction(table, first + second)
         == match SourceTransaction(table, first)
            case None => None
            case Some(middle) => SourceTransaction(middle, second)
  {
    var rows := first + second;
    CommitsTheUnion(table, first);
    CommitsTheUnion(table, rows);
    if Compatible(table, rows) {
      forall i, j | 0 <= i < j < |first| && first[i].key == first[j].key ensures first[i].values == first[j].values {
        assert rows[i] == first[i] && rows[j] == first[j];
      }
      forall i | 0 <= i < |first| && first[i].key in table ensures table[first[i].key] == first[i].values {
        assert rows[i] == first[i];
      }
    }
    if SourceTransaction(table, first).Some? {
      var middle := SourceTransaction(table, first).value;
      CommitsTheUnion(middle, second);
      if Compatible(middle, second) {
        var after := SourceTransaction(middle, second).value;
        UnionsCompose(table, first, middle, second, after);
        UnionIsCommitted(table, rows, after);
      } else if Compatible(table, rows) {
        var after := SourceTransaction(table, rows).value;
        CompatibleRest(table, first, middle, second, after);
      }
    }
  }

  lemma UnionsCompose(table: Table, first: seq<SourceRow>, middle: Table, second: seq<SourceRow>, after: Table)
    requires IsUnion(table, first, middle) && IsUnion(middle, second, after)
    ensures IsUnion(table, first + second, after)
  {
    var rows := first + second;
    forall i | 0 <= i < |rows| ensures Stored(after, rows[i]) {
      if i < |first| { assert Stored(middle, first[i]); } else { assert Stored(after, second[i - |first|]); }
    }
  }

  lemma CompatibleRest(table: Table, first: seq<SourceRow>, middle: Table, second: seq<SourceRow>, after: Table)
    requires IsUnion(table, first, middle) && IsUnion(table, first + second, after)
    ensures Compatible(middle, second)
  {
    var rows := first + second;
    forall i | 0 <= i < |first| ensures Stored(after, first[i]) { assert rows[i] == first[i]; }
    forall j | 0 <= j < |second| ensures Stored(after, second[j]) { assert rows[|first| + j] == second[j]; }
    forall j | 0 <= j < |second| && second[j].key in middle ensures middle[second[j].key] == second[j].values {
      var key := second[j].key;
      if !(key in table && middle[key] == table[key]) {
        var i :| 0 <= i < |first| && first[i] == SourceRow(key, middle[key]);
        assert Stored(after, first[i]);
      }
    }
    forall i, j | 0 <= i < j < |second| && second[i].key == second[j].key ensures second[i].values == second[j].values {
      assert Stored(after, second[i]) && Stored(after, second[j]);
    }
  }

  // ---- Batching ----

  /** One transaction per batch, stopping at the first that aborts. */
  function SourceTransactions(table: Table, batches: seq<seq<SourceRow>>): Option<Table> {
    if batches == [] then Some(table)
    else
      match SourceTransactions(table, batches[..|batches| - 1])
      case None => None
      case Some(middle) => SourceTransaction(middle, batches[|batches| - 1])
  }

  /** However rows are cut into batches, the outcome is that of one transaction over all of them. */
  lemma {:induction false} BatchingPreservesMeaning(table: Table, batches: seq<seq<SourceRow>>)
    ensures SourceTransactions(table, batches) == SourceTransaction(table, Flatten(batches))
  {
    if batches != [] {
      BatchingPreservesMeaning(table, batches[..|batches| - 1]);
      SplitTransaction(table, Flatten(batches[..|batches| - 1]), batches[|batches| - 1]);
    }
  }

  /** A table grown by some of the rows accepts all rows exactly when the original does, with the same result. */
  lemma RestartPreservesMeaning(before: Table, rows: seq<SourceRow>, grown: Table)
    requires Extends(before, grown) && DrawnFrom(before, rows, grown)
    ensures SourceTransaction(grown, rows) == SourceTransaction(before, rows)
  {
    CommitsTheUnion(before, rows);
    CommitsTheUnion(grown, rows);
    if Compatible(before, rows) {
      var after := SourceTransaction(before, rows).value;
      forall key | key in grown ensures key in after && after[key] == grown[key] {
        if !(key in before && grown[key] == before[key]) {
          var i :| 0 <= i < |rows| && rows[i] == SourceRow(key, grown[key]);
          assert Stored(after, rows[i]);
        }
      }
      UnionIsCommitted(grown, rows, after);
    } else if Compatible(grown, rows) {
      var after := SourceTransaction(grown, rows).value;
      UnionIsCommitted(before, rows, after);
    }
  }
}
