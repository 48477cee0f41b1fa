/** The observation log: a SQLite table ordered by ROWID, with the insert trigger that bounds it. */
module SelfLog {
  import opened Windows

  datatype Stored<T> = Stored(rowid: int, row: T)

  ghost predicate Ascending<T>(table: seq<Stored<T>>) {
    forall i, j | 0 <= i < j < |table| :: table[i].rowid < table[j].rowid
  }

  function Rows<T>(table: seq<Stored<T>>): (rows: seq<T>)
    ensures |rows| == |table|
  {
    seq(|table|, i requires 0 <= i < |table| => table[i].row)
  }

  /** SQLite gives a new row one more than the largest ROWID in use. */
  function NextRowid<T>(table: seq<Stored<T>>): int {
    if table == [] then 1 else table[|table| - 1].rowid + 1
  }

  /** `SELECT ROWID FROM DmList ORDER BY ROWID ASC LIMIT 100` */
  function OldestRowids<T>(table: seq<Stored<T>>): (ids: seq<int>)
    ensures |ids| == Min(100, |table|)
  {
    seq(Min(100, |table|), i requires 0 <= i < |table| => table[i].rowid)
  }

  /** `DELETE FROM DmList WHERE ROWID=rowid` */
  function DeleteWhere<T>(table: seq<Stored<T>>, rowid: int): seq<Stored<T>> {
    Select(table, (s: Stored<T>) => s.rowid != rowid)
  }

  /** The trigger body. `=` compares with a scalar subquery, so only the first of the hundred
      selected ROWIDs matters. */
  function KeepRowsSize<T>(table: seq<Stored<T>>, maxRow: nat): seq<Stored<T>> {
    if |table| > maxRow && table != [] then DeleteWhere(table, OldestRowids(table)[0]) else table
  }

  function Insert<T>(table: seq<Stored<T>>, row: T, maxRow: nat): seq<Stored<T>> {
    KeepRowsSize(table + [Stored(NextRowid(table), row)], maxRow)
  }

  function InsertAll<T>(table: seq<Stored<T>>, rows: seq<T>, maxRow: nat): seq<Stored<T>> {
    if rows == [] then table
    else Insert(InsertAll(table, rows[..|rows| - 1], maxRow), rows[|rows| - 1], maxRow)
  }

  lemma {:induction false} SelectEverything<T>(s: seq<T>, keep: T -> bool)
    requires forall t | t in s :: keep(t)
    ensures Select(s, keep) == s
  {
    if s == [] {
    } else {
      assert s == s[..|s| - 1] + [s[|s| - 1]];
      SelectEverything(s[..|s| - 1], keep);
    }
  }

  /** Deleting by the scalar ROWID removes one row, the oldest, and not a hundred. */
  lemma DeleteDropsOneRow<T>(table: seq<Stored<T>>)
    requires Ascending(table) && table != []
    ensures DeleteWhere(table, OldestRowids(table)[0]) == table[1..]
  {
    var keep := (s: Stored<T>) => s.rowid != OldestRowids(table)[0];
    assert table == table[..1] + table[1..];
    SelectConcat(table[..1], table[1..], keep);
    SelectNothing(table[..1], keep);
    SelectEverything(table[1..], keep);
  }

  lemma PushKeepsOrder<T>(table: seq<Stored<T>>, row: T)
    requires Ascending(table)
    ensures var grown := table + [Stored(NextRowid(table), row)];
      Ascending(grown) && Rows(grown) == Rows(table) + [row]
  {}

  lemma TailKeepsOrder<T>(table: seq<Stored<T>>)
    requires Ascending(table) && table != []
    ensures Ascending(table[1..]) && Rows(table[1..]) == Rows(table)[1..]
  {}

  lemma InsertSlides<T>(table: seq<Stored<T>>, row: T, maxRow: nat)
    requires Ascending(table)
    ensures Ascending(Insert(table, row, maxRow))
    ensures Rows(Insert(table, row, maxRow)) == Slide(Rows(table), row, maxRow)
  {
    var grown := table + [Stored(NextRowid(table), row)];
    PushKeepsOrder(table, row);
    if |grown| > maxRow {
      DeleteDropsOneRow(grown);
      TailKeepsOrder(grown);
    }
  }

  /** The ROWID table with its trigger refines a sliding window over everything ever inserted: in
      ROWID order it is exactly the newest rows, and its size is known from the counts alone. */
  lemma {:induction false} TableIsSlidingWindow<T>(table: seq<Stored<T>>, rows: seq<T>, maxRow: nat)
    requires Ascending(table)
    ensures Ascending(InsertAll(table, rows, maxRow))
    ensures Rows(InsertAll(table, rows, maxRow))
         == Last(Rows(table) + rows, SizeAfter(|table|, |rows|, maxRow))
    ensures |InsertAll(table, rows, maxRow)| <= Max(|table|, maxRow)
    ensures table == [] ==> Rows(InsertAll(table, rows, maxRow)) == Last(rows, Min(|rows|, maxRow))
  {
    InsertAllSlides(table, rows, maxRow);
    SlideAllIsSuffix(Rows(table), rows, maxRow);
    if table == [] {
      assert Rows(table) + rows == rows;
    }
  }

  lemma {:induction false} InsertAllSlides<T>(table: seq<Stored<T>>, rows: seq<T>, maxRow: nat)
    requires Ascending(table)
    ensures Ascending(InsertAll(table, rows, maxRow))
    ensures Rows(InsertAll(table, rows, maxRow)) == SlideAll(Rows(table), rows, maxRow)
  {
    if rows == [] {
    } else {
      var front := rows[..|rows| - 1];
      InsertAllSlides(table, front, maxRow);
      InsertSlides(InsertAll(table, front, maxRow), rows[|rows| - 1], maxRow);
    }
  }
}
