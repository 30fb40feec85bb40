/** Filtering sequences, and the sizes of what is left. */
module Sequences {
  function Filter<T(!new)>(items: seq<T>, keep: T -> bool): seq<T> {
    if items == [] then []
    else if keep(items[0]) then [items[0]] + Filter(items[1..], keep)
    else Filter(items[1..], keep)
  }

  lemma FilterFirst<T(!new)>(item: T, items: seq<T>, keep: T -> bool)
    ensures Filter([item] + items, keep) == (if keep(item) then [item] else []) + Filter(items, keep)
  {
    assert ([item] + items)[1..] == items;
  }

  function Take<T>(items: seq<T>, most: nat): seq<T> {
    if |items| <= most then items else items[..most]
  }

  lemma {:induction false} FilterMembers<T(!new)>(items: seq<T>, keep: T -> bool)
    ensures |Filter(items, keep)| <= |items|
    ensures forall item :: item in Filter(items, keep) <==> item in items && keep(item)
  {
    if items != [] {
      FilterMembers(items[1..], keep);
    }
  }

  lemma {:induction false} FilterNone<T(!new)>(items: seq<T>, keep: T -> bool)
    requires forall item :: item in items ==> !keep(item)
    ensures Filter(items, keep) == []
  {
    if items != [] {
      FilterNone(items[1..], keep);
    }
  }

  lemma {:induction false} FilterAgrees<T(!new)>(items: seq<T>, keep: T -> bool, other: T -> bool)
    requires forall item :: item in items ==> keep(item) == other(item)
    ensures Filter(items, keep) == Filter(items, other)
  {
    if items != [] {
      FilterAgrees(items[1..], keep, other);
    }
  }

  lemma {:induction false} FilterAppends<T(!new)>(left: seq<T>, right: seq<T>, keep: T -> bool)
    ensures Filter(left + right, keep) == Filter(left, keep) + Filter(right, keep)
  {
    if left == [] {
      assert left + right == right;
    } else {
      assert (left + right)[1..] == left[1..] + right;
      FilterAppends(left[1..], right, keep);
    }
  }

  /** What two filters keep is one filter's list followed by the other's when
      nothing of the second stands before anything of the first. */
  lemma {:induction false} FilterSplits<T(!new)>(items: seq<T>, either: T -> bool, first: T -> bool, second: T -> bool)
    requires forall item :: item in items ==> (either(item) <==> first(item) || second(item))
    requires forall item :: item in items ==> !(first(item) && second(item))
    requires forall i, j :: 0 <= i < j < |items| && second(items[i]) ==> !first(items[j])
    ensures Filter(items, either) == Filter(items, first) + Filter(items, second)
  {
    if items != [] {
      FilterSplits(items[1..], either, first, second);
      if second(items[0]) {
        forall item | item in items[1..] ensures !first(item) {
          var at :| 0 <= at < |items[1..]| && items[1..][at] == item;
          assert items[at + 1] == item;
        }
        FilterNone(items, first);
        FilterNone(items[1..], first);
      }
    }
  }

  /** Filtering keeps the order of any two items. */
  predicate Ordered<T(!new)>(items: seq<T>, before: (T, T) -> bool) {
    forall i, j :: 0 <= i < j < |items| ==> before(items[i], items[j])
  }

  lemma {:induction false} FilterOrdered<T(!new)>(items: seq<T>, keep: T -> bool, before: (T, T) -> bool)
    requires Ordered(items, before)
    ensures Ordered(Filter(items, keep), before)
  {
    if items != [] {
      FilterOrdered(items[1..], keep, before);
      var rest := Filter(items[1..], keep);
      FilterMembers(items[1..], keep);
      forall at | 0 <= at < |rest| ensures before(items[0], rest[at]) {
        assert rest[at] in items[1..];
        var from :| 0 <= from < |items[1..]| && items[1..][from] == rest[at];
        assert items[from + 1] == rest[at];
      }
    }
  }

  function Elements<T>(items: seq<T>): set<T> {
    set item | item in items
  }

  predicate Distinct<T(==)>(items: seq<T>) {
    forall i, j :: 0 <= i < j < |items| ==> items[i] != items[j]
  }

  lemma {:induction false} DistinctSize<T>(items: seq<T>)
    requires Distinct(items)
    ensures |Elements(items)| == |items|
  {
    if items != [] {
      DistinctSize(items[1..]);
      assert Elements(items) == {items[0]} + Elements(items[1..]);
      assert items[0] !in items[1..];
    }
  }

  lemma {:induction false} SubsetSize<T>(part: set<T>, whole: set<T>)
    requires part <= whole
    ensures |part| <= |whole|
  {
    if part != {} {
      var item :| item in part;
      SubsetSize(part - {item}, whole - {item});
    }
  }
}
