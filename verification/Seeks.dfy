/** The range seeks that read a page (crates/baley-store-sqlite/src/view.rs,
    `order_after` and `seeks`). A row has its columns in index order: the index
    fields, then the key. */
module Seeks {
  import opened Wrappers
  import opened Values
  import opened Ordering
  import opened Sequences

  datatype Row<T> = Row(columns: seq<KeyValue>, item: T)

  /** One statement: the leading columns held equal and, after a position, one
      column ranging past a bound. */
  datatype Seek = Seek(equal: seq<KeyValue>, past: Option<KeyValue>)

  /** Whether a row satisfies the statement's conditions. */
  predicate Selects(seek: Seek, fixed: seq<KeyValue>, order: seq<Order>, columns: seq<KeyValue>) {
    var prefix := fixed + seek.equal;
    && prefix <= columns
    && (seek.past.Some? ==>
          |prefix| < |columns| && |prefix| < |order|
          && CompareColumn(seek.past.value, columns[|prefix|], order[|prefix|]) == Less)
  }

  function SeekPast(position: seq<KeyValue>, last: nat): Seek
    requires last < |position|
  {
    Seek(position[..last], Some(position[last]))
  }

  /** `seeks`: from the start one statement, after a position one for each
      order column, the last column first. */
  function SeeksAfter(after: Option<seq<KeyValue>>): (seeks: seq<Seek>) {
    match after
    case None => [Seek([], None)]
    case Some(position) =>
      seq(|position|, at requires 0 <= at < |position| => SeekPast(position, |position| - 1 - at))
  }

  /** A row the page may return: it matches the equality values and stands
      strictly after the position. */
  predicate InPage(fixed: seq<KeyValue>, after: Option<seq<KeyValue>>, order: seq<Order>, columns: seq<KeyValue>) {
    && fixed <= columns
    && (after.Some? ==> Precedes(fixed + after.value, columns, order))
  }

  /** The table as its index lists it. */
  ghost predicate IndexListing<T(!new)>(rows: seq<Row<T>>, order: seq<Order>) {
    && (forall row :: row in rows ==> Fits(row.columns, order))
    && (forall i, j :: 0 <= i < j < |rows| ==> Precedes(rows[i].columns, rows[j].columns, order))
  }

  /** The rows one statement returns, as the index lists them. */
  function SelectedRows<T(!new)>(seek: Seek, fixed: seq<KeyValue>, order: seq<Order>, rows: seq<Row<T>>): seq<Row<T>> {
    Filter(rows, (row: Row<T>) => Selects(seek, fixed, order, row.columns))
  }

  /** The rows of the page, as the index lists them. */
  function PageRows<T(!new)>(fixed: seq<KeyValue>, after: Option<seq<KeyValue>>, order: seq<Order>, rows: seq<Row<T>>): seq<Row<T>> {
    Filter(rows, (row: Row<T>) => InPage(fixed, after, order, row.columns))
  }

  /** Every row the given statements return, one statement after another. */
  function RowsOf<T(!new)>(seeks: seq<Seek>, fixed: seq<KeyValue>, order: seq<Order>, rows: seq<Row<T>>): seq<Row<T>> {
    if seeks == [] then []
    else SelectedRows(seeks[0], fixed, order, rows) + RowsOf(seeks[1..], fixed, order, rows)
  }

  // ----- the column at which a row leaves a position -----

  function FirstDifference(point: seq<KeyValue>, row: seq<KeyValue>): (at: nat)
    ensures at <= |point| && at <= |row|
    ensures point[..at] == row[..at]
    ensures at < |point| && at < |row| ==> point[at] != row[at]
  {
    if point == [] || row == [] || point[0] != row[0] then 0
    else
      var rest := FirstDifference(point[1..], row[1..]);
      assert point[..rest + 1] == [point[0]] + point[1..][..rest];
      assert row[..rest + 1] == [row[0]] + row[1..][..rest];
      rest + 1
  }

  lemma EqualUpTo(point: seq<KeyValue>, row: seq<KeyValue>, at: nat)
    requires at <= |point| == |row|
    ensures point[..at] == row[..at] <==> at <= FirstDifference(point, row)
  {
    var first := FirstDifference(point, row);
    if at <= first {
      assert point[..at] == point[..first][..at] && row[..at] == row[..first][..at];
    } else {
      assert point[..at][first] == point[first] && row[..at][first] == row[first];
    }
  }

  /** A row stands after a position iff it is past it at the first column
      where the two differ. */
  lemma PrecedesAtDifference(point: seq<KeyValue>, row: seq<KeyValue>, order: seq<Order>)
    requires Fits(point, order) && Fits(row, order)
    ensures var at := FirstDifference(point, row);
            Precedes(point, row, order)
            <==> at < |order| && CompareColumn(point[at], row[at], order[at]) == Less
  {
    var at := FirstDifference(point, row);
    CompareTails(point, row, order, at);
    if at < |order| {
      ColumnsReverse(point[at], row[at], order[at]);
    }
  }

  /** A row that leaves the position at a later column comes first. */
  lemma LaterColumnFirst(point: seq<KeyValue>, near: seq<KeyValue>, far: seq<KeyValue>, order: seq<Order>)
    requires Fits(point, order) && Fits(near, order) && Fits(far, order)
    requires Precedes(point, far, order)
    requires FirstDifference(point, far) < FirstDifference(point, near)
    ensures Precedes(near, far, order)
  {
    var early := FirstDifference(point, far);
    PrecedesAtDifference(point, far, order);
    EqualUpTo(point, near, early);
    EqualUpTo(point, near, early + 1);
    assert near[..early + 1][early] == point[..early + 1][early];
    CompareTails(near, far, order, early);
  }

  /** A statement of the page selects the rows that leave at its column. */
  lemma SelectsOneColumn(fixed: seq<KeyValue>, after: seq<KeyValue>, order: seq<Order>, row: seq<KeyValue>, last: nat)
    requires |fixed| + |after| == |order| == |row| && last < |after|
    ensures Selects(SeekPast(after, last), fixed, order, row)
            <==> Precedes(fixed + after, row, order) && FirstDifference(fixed + after, row) == |fixed| + last
  {
    var point, at := fixed + after, |fixed| + last;
    assert point[..at] == fixed + after[..last] && point[at] == after[last];
    SelectsAtColumn(fixed, after, order, row, last);
    PastAtColumn(point, row, order, at);
    hide Precedes, FirstDifference, CompareColumn, Selects;
  }

  /** What the statement's conditions say of the position and the row. */
  lemma SelectsAtColumn(fixed: seq<KeyValue>, after: seq<KeyValue>, order: seq<Order>, row: seq<KeyValue>, last: nat)
    requires |fixed| + |after| == |order| == |row| && last < |after|
    ensures var at := |fixed| + last;
            Selects(SeekPast(after, last), fixed, order, row)
            <==> fixed + after[..last] == row[..at] && CompareColumn(after[last], row[at], order[at]) == Less
  {
    hide CompareColumn;
    var prefix := fixed + after[..last];
    assert prefix <= row <==> prefix == row[..|fixed| + last];
  }

  lemma PastAtColumn(point: seq<KeyValue>, row: seq<KeyValue>, order: seq<Order>, at: nat)
    requires Fits(point, order) && Fits(row, order) && at < |order|
    ensures point[..at] == row[..at] && CompareColumn(point[at], row[at], order[at]) == Less
            <==> Precedes(point, row, order) && FirstDifference(point, row) == at
  {
    EqualUpTo(point, row, at);
    PrecedesAtDifference(point, row, order);
    EqualUpTo(point, row, at + 1);
    ColumnsReverse(point[at], row[at], order[at]);
    hide Precedes, CompareColumn;
    assert point[..at + 1] == point[..at] + [point[at]] && row[..at + 1] == row[..at] + [row[at]];
  }

  // ----- the statements list the rest of the page -----

  /** Rows past the position that leave it at column `from` or later. */
  predicate PastFrom(point: seq<KeyValue>, row: seq<KeyValue>, order: seq<Order>, from: nat) {
    Precedes(point, row, order) && from <= FirstDifference(point, row)
  }

  function PastRows<T(!new)>(point: seq<KeyValue>, order: seq<Order>, from: nat, rows: seq<Row<T>>): seq<Row<T>> {
    Filter(rows, (row: Row<T>) => PastFrom(point, row.columns, order, from))
  }

  lemma NothingLaterBehind(fixed: seq<KeyValue>, after: seq<KeyValue>, order: seq<Order>, near: seq<KeyValue>, far: seq<KeyValue>, last: nat)
    requires |fixed| + |after| == |order| && last < |after|
    requires Fits(near, order) && Fits(far, order) && Precedes(near, far, order)
    requires Selects(SeekPast(after, last), fixed, order, near)
    ensures !PastFrom(fixed + after, far, order, |fixed| + last + 1)
  {
    SelectsOneColumn(fixed, after, order, near, last);
    if PastFrom(fixed + after, far, order, |fixed| + last + 1) {
      LaterColumnFirst(fixed + after, far, near, order);
      CompareReverses(near, far, order);
    }
  }

  /** One statement more adds the rows that leave one column earlier. */
  lemma OneColumnMore<T(!new)>(fixed: seq<KeyValue>, after: seq<KeyValue>, order: seq<Order>, rows: seq<Row<T>>, last: nat)
    requires IndexListing(rows, order)
    requires |fixed| + |after| == |order| && last < |after|
    ensures PastRows(fixed + after, order, |fixed| + last, rows)
            == PastRows(fixed + after, order, |fixed| + last + 1, rows)
               + SelectedRows(SeekPast(after, last), fixed, order, rows)
  {
    var point, from := fixed + after, |fixed| + last;
    var either := (row: Row<T>) => PastFrom(point, row.columns, order, from);
    var later := (row: Row<T>) => PastFrom(point, row.columns, order, from + 1);
    var here := (row: Row<T>) => Selects(SeekPast(after, last), fixed, order, row.columns);
    forall row | row in rows
      ensures either(row) <==> later(row) || here(row)
      ensures !(later(row) && here(row))
    {
      SelectsOneColumn(fixed, after, order, row.columns, last);
    }
    forall i, j | 0 <= i < j < |rows| && here(rows[i])
      ensures !later(rows[j])
    {
      assert rows[i] in rows && rows[j] in rows;
      NothingLaterBehind(fixed, after, order, rows[i].columns, rows[j].columns, last);
    }
    FilterSplits(rows, either, later, here);
  }

  lemma {:induction false} SeeksFrom<T(!new)>(fixed: seq<KeyValue>, after: seq<KeyValue>, order: seq<Order>, rows: seq<Row<T>>, count: nat)
    requires IndexListing(rows, order)
    requires |fixed| + |after| == |order|
    requires count <= |after|
    ensures RowsOf(SeeksAfter(Some(after))[..count], fixed, order, rows)
            == PastRows(fixed + after, order, |order| - count, rows)
  {
    var seeks := SeeksAfter(Some(after));
    if count == 0 {
      assert seeks[..0] == [];
      var kept := PastRows(fixed + after, order, |order|, rows);
      FilterMembers(rows, (row: Row<T>) => PastFrom(fixed + after, row.columns, order, |order|));
      if kept != [] {
        assert kept[0] in kept;
        PrecedesAtDifference(fixed + after, kept[0].columns, order);
      }
    } else {
      SeeksFrom(fixed, after, order, rows, count - 1);
      OneColumnMore(fixed, after, order, rows, |after| - count);
      RowsOfAppends(seeks[..count - 1], seeks[count - 1], fixed, order, rows);
      assert seeks[..count] == seeks[..count - 1] + [seeks[count - 1]];
    }
  }

  lemma {:induction false} RowsOfAppends<T(!new)>(seeks: seq<Seek>, last: Seek, fixed: seq<KeyValue>, order: seq<Order>, rows: seq<Row<T>>)
    ensures RowsOf(seeks + [last], fixed, order, rows)
            == RowsOf(seeks, fixed, order, rows) + SelectedRows(last, fixed, order, rows)
  {
    if seeks == [] {
      assert seeks + [last] == [last];
      assert [last][1..] == [];
    } else {
      assert (seeks + [last])[1..] == seeks[1..] + [last];
      RowsOfAppends(seeks[1..], last, fixed, order, rows);
    }
  }

  /** Run in order, the statements list exactly the rows of the page, each
      once and in index order, whatever mix of directions the columns have. */
  lemma SeeksListThePage<T(!new)>(fixed: seq<KeyValue>, after: Option<seq<KeyValue>>, order: seq<Order>, rows: seq<Row<T>>)
    requires IndexListing(rows, order)
    requires after.Some? ==> |fixed| + |after.value| == |order|
    ensures RowsOf(SeeksAfter(after), fixed, order, rows) == PageRows(fixed, after, order, rows)
  {
    var page := (row: Row<T>) => InPage(fixed, after, order, row.columns);
    if after.None? {
      assert fixed + [] == fixed;
      FilterAgrees(rows, (row: Row<T>) => Selects(Seek([], None), fixed, order, row.columns), page);
      assert SeeksAfter(after)[1..] == [];
    } else {
      var point := fixed + after.value;
      SeeksFrom(fixed, after.value, order, rows, |after.value|);
      assert SeeksAfter(after)[..|after.value|] == SeeksAfter(after);
      var past := (row: Row<T>) => PastFrom(point, row.columns, order, |fixed|);
      forall row | row in rows ensures past(row) == page(row) {
        EqualUpTo(point, row.columns, |fixed|);
        assert point[..|fixed|] == fixed;
      }
      FilterAgrees(rows, past, page);
    }
  }

  /** No row is read by two statements of one page. */
  lemma SeeksAreDisjoint(fixed: seq<KeyValue>, after: seq<KeyValue>, order: seq<Order>, row: seq<KeyValue>, i: nat, j: nat)
    requires |row| == |order| == |fixed| + |after|
    requires i < j < |after|
    ensures !Selects(SeeksAfter(Some(after))[i], fixed, order, row)
            || !Selects(SeeksAfter(Some(after))[j], fixed, order, row)
  {
    SelectsOneColumn(fixed, after, order, row, |after| - 1 - i);
    SelectsOneColumn(fixed, after, order, row, |after| - 1 - j);
  }
}
