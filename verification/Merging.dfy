/** Comparing two generations of a view row by row
    (crates/baley-store-sqlite/src/rebuild.rs, `differing_keys`). */
module Merging {
  import opened Values
  import opened Ordering
  import opened Sequences
  import opened Views

  /** A stored row: its key, and every other column. */
  datatype Stored<V> = Stored(key: DocKey, values: V)

  /** The derived order of keys: part by part, a shorter key first. */
  function CompareKeys(left: DocKey, right: DocKey): Ordering {
    if left == [] && right == [] then Equal
    else if left == [] then Less
    else if right == [] then Greater
    else
      var first := CompareValues(left[0], right[0]);
      if first != Equal then first else CompareKeys(left[1..], right[1..])
  }

  predicate Below(left: DocKey, right: DocKey) {
    CompareKeys(left, right) == Less
  }

  /** Rows as a query lists them, strictly by key. */
  ghost predicate Listed<V(!new)>(rows: seq<Stored<V>>) {
    forall i, j :: 0 <= i < j < |rows| ==> Below(rows[i].key, rows[j].key)
  }

  lemma {:induction false} KeysOrdered(a: DocKey, b: DocKey)
    ensures CompareKeys(a, b) == CompareKeys(b, a).Reverse()
    ensures CompareKeys(a, b) == Equal <==> a == b
  {
    if a != [] && b != [] {
      ColumnsReverse(a[0], b[0], Order.Ascending);
      KeysOrdered(a[1..], b[1..]);
      assert a == [a[0]] + a[1..] && b == [b[0]] + b[1..];
    }
  }

  lemma {:induction false} BelowTransitive(a: DocKey, b: DocKey, c: DocKey)
    requires Below(a, b) && Below(b, c)
    ensures Below(a, c)
  {
    if a != [] && b != [] && c != [] {
      ColumnsReverse(a[0], b[0], Order.Ascending);
      ColumnsReverse(b[0], c[0], Order.Ascending);
      if a[0] == b[0] && b[0] == c[0] {
        BelowTransitive(a[1..], b[1..], c[1..]);
      } else if a[0] != b[0] && b[0] != c[0] {
        ColumnsTransitive(a[0], b[0], c[0], Order.Ascending);
      }
    }
  }

  predicate HasKey<V>(rows: seq<Stored<V>>, key: DocKey) {
    exists at :: 0 <= at < |rows| && rows[at].key == key
  }

  /** One side has the key with a row the other does not have. */
  predicate Differs<V(==)>(left: seq<Stored<V>>, right: seq<Stored<V>>, key: DocKey) {
    || (exists at :: 0 <= at < |left| && left[at].key == key && left[at] !in right)
    || (exists at :: 0 <= at < |right| && right[at].key == key && right[at] !in left)
  }

  predicate KeysAscend(keys: seq<DocKey>) {
    forall i, j :: 0 <= i < j < |keys| ==> Below(keys[i], keys[j])
  }

  /** Exactly the keys that are missing, extra or unequal, in key order and
      once each. */
  ghost predicate ReportsDifferences<V(!new)>(keys: seq<DocKey>, left: seq<Stored<V>>, right: seq<Stored<V>>) {
    && KeysAscend(keys)
    && (forall key :: key in keys <==> Differs(left, right, key))
  }

  /** Every key reported so far is below every row still to read. */
  ghost predicate Behind<V(!new)>(keys: seq<DocKey>, rows: seq<Stored<V>>) {
    (forall key, row :: key in keys && row in rows ==> Below(key, row.key))
  }

  lemma RestOf<V(!new)>(rows: seq<Stored<V>>)
    requires Listed(rows) && rows != []
    ensures Listed(rows[1..])
    ensures forall row :: row in rows[1..] ==> Below(rows[0].key, row.key) && row in rows
    ensures rows[0] !in rows[1..] && !HasKey(rows[1..], rows[0].key)
  {
    forall row | row in rows[1..] ensures Below(rows[0].key, row.key) && row in rows && row.key != rows[0].key {
      var at :| 0 <= at < |rows[1..]| && rows[1..][at] == row;
      assert rows[at + 1] == row;
      assert rows[0] in rows;
      KeysOrdered(rows[0].key, row.key);
    }
  }

  /** A row below everything on the other side is a difference, and otherwise
      changes nothing. */
  lemma OneSided<V(!new)>(left: seq<Stored<V>>, right: seq<Stored<V>>)
    requires Listed(left) && Listed(right) && left != []
    requires right == [] || Below(left[0].key, right[0].key)
    ensures forall key :: Differs(left, right, key) <==> key == left[0].key || Differs(left[1..], right, key)
    ensures forall row :: row in right ==> Below(left[0].key, row.key)
  {
    var first := left[0];
    RestOf(left);
    assert first in left;
    forall row | row in right ensures Below(first.key, row.key) && row.key != first.key {
      var at :| 0 <= at < |right| && right[at] == row;
      assert right[0] in right;
      if at > 0 {
        BelowTransitive(first.key, right[0].key, row.key);
      }
      KeysOrdered(first.key, row.key);
    }
    assert first !in right;
    DropFirst(left, right);
  }

  lemma DropFirst<V(!new)>(left: seq<Stored<V>>, right: seq<Stored<V>>)
    requires left != [] && left[0] !in right && forall row :: row in right ==> row.key != left[0].key
    ensures forall key :: Differs(left, right, key) <==> key == left[0].key || Differs(left[1..], right, key)
  {
    forall key ensures Differs(left, right, key) <==> key == left[0].key || Differs(left[1..], right, key) {
      forall row | row in right ensures row in left <==> row in left[1..] {
        assert left == [left[0]] + left[1..];
      }
      if key == left[0].key {
        assert 0 <= 0 < |left| && left[0].key == key;
      }
      forall at | 0 <= at < |left[1..]| ensures left[1..][at] == left[at + 1] {
      }
      if Differs(left, right, key) && key != left[0].key {
        if at :| 0 <= at < |left| && left[at].key == key && left[at] !in right {
          assert left[1..][at - 1] == left[at];
        }
      }
    }
  }

  lemma Swapped<V(!new)>(left: seq<Stored<V>>, right: seq<Stored<V>>)
    ensures forall key :: Differs(left, right, key) <==> Differs(right, left, key)
  {
  }

  /** Two first rows of one key differ iff their values do. */
  lemma SameKey<V(!new)>(left: seq<Stored<V>>, right: seq<Stored<V>>)
    requires Listed(left) && Listed(right) && left != [] && right != []
    requires left[0].key == right[0].key
    ensures forall key :: Differs(left, right, key)
              <==> (key == left[0].key && left[0].values != right[0].values) || Differs(left[1..], right[1..], key)
  {
    RestOf(left);
    RestOf(right);
    assert left == [left[0]] + left[1..] && right == [right[0]] + right[1..];
    forall key
      ensures Differs(left, right, key)
        <==> (key == left[0].key && left[0].values != right[0].values) || Differs(left[1..], right[1..], key)
    {
      OneSideOf(left, right, key);
      OneSideOf(right, left, key);
    }
  }

  /** A row of one side the other does not have. */
  predicate Lacks<V(==)>(left: seq<Stored<V>>, right: seq<Stored<V>>, key: DocKey) {
    exists at :: 0 <= at < |left| && left[at].key == key && left[at] !in right
  }

  lemma OneSideOf<V(!new)>(left: seq<Stored<V>>, right: seq<Stored<V>>, key: DocKey)
    requires left != [] && right != [] && left[0].key == right[0].key
    requires !HasKey(left[1..], left[0].key) && !HasKey(right[1..], right[0].key)
    ensures Lacks(left, right, key)
            <==> (key == left[0].key && left[0] != right[0]) || Lacks(left[1..], right[1..], key)
  {
    assert right == [right[0]] + right[1..];
    forall at | 0 <= at < |left[1..]| ensures left[1..][at] == left[at + 1] && (left[at + 1] in right <==> left[at + 1] in right[1..]) {
      assert left[1..][at].key != left[0].key;
    }
    if key == left[0].key && left[0] != right[0] {
      forall at | 0 <= at < |right[1..]| ensures right[1..][at] != left[0] {
        assert right[1..][at].key != right[0].key;
      }
      assert left[0] !in right;
    }
    if Lacks(left, right, key) {
      var at :| 0 <= at < |left| && left[at].key == key && left[at] !in right;
      if at > 0 {
        assert left[1..][at - 1] == left[at];
      }
    }
    if Lacks(left[1..], right[1..], key) {
      var at :| 0 <= at < |left[1..]| && left[1..][at].key == key && left[1..][at] !in right[1..];
      assert left[at + 1] !in right;
    }
  }

  lemma AppendKey(keys: seq<DocKey>, key: DocKey)
    requires KeysAscend(keys) && forall other :: other in keys ==> Below(other, key)
    ensures KeysAscend(keys + [key])
  {
  }

  /** The merge: both sides read in key order, one row of each at a time. */
  method DifferingKeys<V(==,!new)>(rebuilt: seq<Stored<V>>, stored: seq<Stored<V>>) returns (differing: seq<DocKey>)
    requires Listed(rebuilt) && Listed(stored)
    ensures ReportsDifferences(differing, rebuilt, stored)
  {
    hide *;
    differing := [];
    var left, right := 0, 0;
    NothingMerged(rebuilt, stored);
    assert rebuilt[0..] == rebuilt && stored[0..] == stored;
    while left < |rebuilt| || right < |stored|
      invariant 0 <= left <= |rebuilt| && 0 <= right <= |stored|
      invariant Goes([], differing, rebuilt, stored, rebuilt[left..], stored[right..])
      decreases |rebuilt| - left + |stored| - right
    {
      ghost var a, b, keys := rebuilt[left..], stored[right..], differing;
      assert left < |rebuilt| ==> a[0] == rebuilt[left] && a[1..] == rebuilt[left + 1..];
      assert right < |stored| ==> b[0] == stored[right] && b[1..] == stored[right + 1..];
      NextTurn(differing, rebuilt, stored, a, b);
      if right == |stored| || (left < |rebuilt| && CompareKeys(rebuilt[left].key, stored[right].key) == Less) {
        differing := differing + [rebuilt[left].key];
        left := left + 1;
      } else if left == |rebuilt| || CompareKeys(rebuilt[left].key, stored[right].key) == Greater {
        differing := differing + [stored[right].key];
        right := right + 1;
      } else {
        if rebuilt[left].values != stored[right].values {
          differing := differing + [rebuilt[left].key];
        }
        left, right := left + 1, right + 1;
      }
      Chained(keys, differing, rebuilt, stored, a, b, rebuilt[left..], stored[right..]);
    }
    EverythingMerged(differing, rebuilt, stored, rebuilt[left..], stored[right..]);
  }

  lemma NothingMerged<V(!new)>(a: seq<Stored<V>>, b: seq<Stored<V>>)
    requires Listed(a) && Listed(b)
    ensures Goes([], [], a, b, a, b)
  {
    hide Differs;
  }

  lemma EverythingMerged<V(!new)>(keys: seq<DocKey>, a: seq<Stored<V>>, b: seq<Stored<V>>,
                                  restA: seq<Stored<V>>, restB: seq<Stored<V>>)
    requires Goes([], keys, a, b, restA, restB) && restA == [] && restB == []
    ensures ReportsDifferences(keys, a, b)
  {
    forall key ensures key in keys <==> Differs(a, b, key) {
      assert !Differs(restA, restB, key);
    }
  }

  lemma Chained<V(!new)>(keys: seq<DocKey>, more: seq<DocKey>, wholeA: seq<Stored<V>>, wholeB: seq<Stored<V>>,
                         a: seq<Stored<V>>, b: seq<Stored<V>>, restA: seq<Stored<V>>, restB: seq<Stored<V>>)
    requires Goes([], keys, wholeA, wholeB, a, b)
    requires Goes(keys, more, a, b, restA, restB)
    ensures Goes([], more, wholeA, wholeB, restA, restB)
  {
    hide Differs, Listed, Behind, KeysAscend;
  }

  lemma NextTurn<V(!new)>(keys: seq<DocKey>, wholeA: seq<Stored<V>>, wholeB: seq<Stored<V>>, a: seq<Stored<V>>, b: seq<Stored<V>>)
    requires Goes([], keys, wholeA, wholeB, a, b) && (a != [] || b != [])
    ensures b == [] || (a != [] && CompareKeys(a[0].key, b[0].key) == Less) ==>
              Goes(keys, keys + [a[0].key], a, b, a[1..], b)
    ensures a == [] || (b != [] && CompareKeys(a[0].key, b[0].key) == Greater) ==>
              Goes(keys, keys + [b[0].key], a, b, a, b[1..])
    ensures a != [] && b != [] && CompareKeys(a[0].key, b[0].key) == Equal ==>
              Goes(keys, if a[0].values != b[0].values then keys + [a[0].key] else keys, a, b, a[1..], b[1..])
  {
    hide Differs, Listed, Behind, KeysAscend, CompareKeys;
    Turn(keys, a, b);
  }

  /** What a turn on the lower side reports and leaves to read. */
  lemma LowerTurn<V(!new)>(keys: seq<DocKey>, a: seq<Stored<V>>, b: seq<Stored<V>>)
    requires Listed(a) && Listed(b) && a != []
    requires b == [] || Below(a[0].key, b[0].key)
    requires KeysAscend(keys) && Behind(keys, a) && Behind(keys, b)
    ensures Goes(keys, keys + [a[0].key], a, b, a[1..], b)
  {
    hide Differs;
    assert a[0] in a;
    RestOf(a);
    OneSided(a, b);
    AppendKey(keys, a[0].key);
  }

  lemma GoesEitherWay<V(!new)>(keys: seq<DocKey>, more: seq<DocKey>, a: seq<Stored<V>>, b: seq<Stored<V>>,
                               restA: seq<Stored<V>>, restB: seq<Stored<V>>)
    requires Goes(keys, more, a, b, restA, restB)
    ensures Goes(keys, more, b, a, restB, restA)
  {
    hide Differs;
    Swapped(a, b);
    Swapped(restA, restB);
  }

  /** A turn on two rows of one key. */
  lemma EqualTurn<V(!new)>(keys: seq<DocKey>, a: seq<Stored<V>>, b: seq<Stored<V>>)
    requires Listed(a) && Listed(b) && a != [] && b != [] && a[0].key == b[0].key
    requires KeysAscend(keys) && Behind(keys, a) && Behind(keys, b)
    ensures Goes(keys, if a[0].values != b[0].values then keys + [a[0].key] else keys, a, b, a[1..], b[1..])
  {
    hide Differs;
    assert a[0] in a && b[0] in b;
    RestOf(a);
    RestOf(b);
    SameKey(a, b);
    AppendKey(keys, a[0].key);
  }

  /** What one turn reports and leaves to read. */
  lemma Turn<V(!new)>(keys: seq<DocKey>, a: seq<Stored<V>>, b: seq<Stored<V>>)
    requires Listed(a) && Listed(b) && (a != [] || b != [])
    requires KeysAscend(keys) && Behind(keys, a) && Behind(keys, b)
    ensures b == [] || (a != [] && CompareKeys(a[0].key, b[0].key) == Less) ==>
              Goes(keys, keys + [a[0].key], a, b, a[1..], b)
    ensures a == [] || (b != [] && CompareKeys(a[0].key, b[0].key) == Greater) ==>
              Goes(keys, keys + [b[0].key], a, b, a, b[1..])
    ensures a != [] && b != [] && CompareKeys(a[0].key, b[0].key) == Equal ==>
              Goes(keys, if a[0].values != b[0].values then keys + [a[0].key] else keys, a, b, a[1..], b[1..])
  {
    hide Differs, Goes, Behind, KeysAscend;
    if a != [] && b != [] {
      assert a[0] in a && b[0] in b;
      KeysOrdered(a[0].key, b[0].key);
    }
    if b == [] || (a != [] && CompareKeys(a[0].key, b[0].key) == Less) {
      LowerTurn(keys, a, b);
    } else if a == [] || CompareKeys(a[0].key, b[0].key) == Greater {
      LowerTurn(keys, b, a);
      GoesEitherWay(keys, keys + [b[0].key], b, a, b[1..], a);
    } else {
      EqualTurn(keys, a, b);
    }
  }

  /** The rest of the merge reports what this turn did not. */
  ghost predicate Goes<V(!new)>(keys: seq<DocKey>, more: seq<DocKey>, a: seq<Stored<V>>, b: seq<Stored<V>>,
                              restA: seq<Stored<V>>, restB: seq<Stored<V>>) {
    && Listed(restA) && Listed(restB) && KeysAscend(more)
    && Behind(more, restA) && Behind(more, restB)
    && (forall key :: key in keys || Differs(a, b, key) <==> key in more || Differs(restA, restB, key))
  }

  /** Equal tables differ nowhere. */
  lemma EqualRowsReportNothing<V(!new)>(keys: seq<DocKey>, left: seq<Stored<V>>, right: seq<Stored<V>>)
    requires ReportsDifferences(keys, left, right)
    ensures keys == [] <==> Elements(left) == Elements(right)
  {
    if keys == [] {
      forall row | row in left ensures row in right {
        assert !Differs(left, right, row.key);
      }
      forall row | row in right ensures row in left {
        assert !Differs(left, right, row.key);
      }
    } else {
      assert keys[0] in keys;
      assert Differs(left, right, keys[0]);
      if Elements(left) == Elements(right) {
        forall row ensures row in left <==> row in right {
          assert row in Elements(left) <==> row in Elements(right);
        }
      }
    }
  }

  // ----- rows in key order -----

  /** A view's rows of one generation. */
  function RowsOf(table: map<DocKey, Document>): set<Stored<Document>> {
    set key | key in table.Keys :: Stored(key, table[key])
  }

  function Insert<V>(row: Stored<V>, rows: seq<Stored<V>>): seq<Stored<V>> {
    if rows == [] || Below(row.key, rows[0].key) then [row] + rows
    else [rows[0]] + Insert(row, rows[1..])
  }

  lemma {:induction false} InsertLists<V(!new)>(row: Stored<V>, rows: seq<Stored<V>>)
    requires Listed(rows) && !HasKey(rows, row.key)
    ensures Listed(Insert(row, rows))
    ensures forall other :: other in Insert(row, rows) <==> other == row || other in rows
  {
    if rows != [] {
      var first := rows[0];
      KeysOrdered(row.key, first.key);
      RestOf(rows);
      assert rows == [first] + rows[1..];
      if Below(row.key, first.key) {
        forall other | other in rows ensures Below(row.key, other.key) {
          if other != first {
            BelowTransitive(row.key, first.key, other.key);
          }
        }
      } else {
        forall at | 0 <= at < |rows[1..]| ensures rows[1..][at].key != row.key {
          assert rows[at + 1] == rows[1..][at];
        }
        InsertLists(row, rows[1..]);
        var rest := Insert(row, rows[1..]);
        forall at | 0 <= at < |rest| ensures Below(first.key, rest[at].key) {
          assert rest[at] in rest;
        }
      }
    }
  }

  /** `ORDER BY` the key columns. */
  method ListRows(table: map<DocKey, Document>) returns (rows: seq<Stored<Document>>)
    ensures Listed(rows) && Elements(rows) == RowsOf(table)
  {
    var todo := table.Keys;
    rows := [];
    while todo != {}
      invariant todo <= table.Keys
      invariant Listed(rows)
      invariant forall row :: row in rows <==> row.key in table && row.key !in todo && row.values == table[row.key]
    {
      var key :| key in todo;
      forall at | 0 <= at < |rows| ensures rows[at].key != key {
        assert rows[at] in rows;
      }
      InsertLists(Stored(key, table[key]), rows);
      rows := Insert(Stored(key, table[key]), rows);
      todo := todo - {key};
    }
  }
}
