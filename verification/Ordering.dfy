/** Comparing rows of a page: the first column that differs decides, reversed
    where it is a descending one (crates/baley-store-sqlite/src/view.rs,
    `compare`). */
module Ordering {
  import opened Values

  datatype Ordering = Less | Equal | Greater {
    function Reverse(): Ordering {
      match this
      case Less => Greater
      case Equal => Equal
      case Greater => Less
    }
  }

  /** Texts by their bytes. */
  function CompareTexts(left: string, right: string): Ordering {
    if left == "" && right == "" then Equal
    else if left == "" then Less
    else if right == "" then Greater
    else if left[0] < right[0] then Less
    else if left[0] > right[0] then Greater
    else CompareTexts(left[1..], right[1..])
  }

  /** The derived order of `KeyValue`: texts before integers. */
  function CompareValues(left: KeyValue, right: KeyValue): Ordering {
    match (left, right)
    case (Text(a), Text(b)) => CompareTexts(a, b)
    case (Integer(a), Integer(b)) => if a < b then Less else if a > b then Greater else Equal
    case (Text(_), Integer(_)) => Less
    case (Integer(_), Text(_)) => Greater
  }

  function CompareColumn(left: KeyValue, right: KeyValue, order: Order): Ordering {
    if order.Ascending? then CompareValues(left, right) else CompareValues(right, left)
  }

  function Compare(left: seq<KeyValue>, right: seq<KeyValue>, order: seq<Order>): Ordering {
    if left == [] || right == [] || order == [] then Equal
    else
      var first := CompareColumn(left[0], right[0], order[0]);
      if first != Equal then first else Compare(left[1..], right[1..], order[1..])
  }

  predicate Fits(columns: seq<KeyValue>, order: seq<Order>) {
    |columns| == |order|
  }

  predicate Precedes(left: seq<KeyValue>, right: seq<KeyValue>, order: seq<Order>) {
    Compare(left, right, order) == Less
  }

  // ----- it is a strict total order -----

  lemma {:induction false} TextsReverse(a: string, b: string)
    ensures CompareTexts(a, b) == CompareTexts(b, a).Reverse()
    ensures CompareTexts(a, b) == Equal <==> a == b
  {
    if a != "" && b != "" && a[0] == b[0] {
      TextsReverse(a[1..], b[1..]);
      assert a == [a[0]] + a[1..] && b == [b[0]] + b[1..];
    }
  }

  lemma {:induction false} TextsTransitive(a: string, b: string, c: string)
    requires CompareTexts(a, b) == Less && CompareTexts(b, c) == Less
    ensures CompareTexts(a, c) == Less
  {
    if a != "" && b != "" && c != "" && a[0] == b[0] == c[0] {
      TextsTransitive(a[1..], b[1..], c[1..]);
    }
  }

  lemma ColumnsReverse(a: KeyValue, b: KeyValue, order: Order)
    ensures CompareColumn(a, b, order) == CompareColumn(b, a, order).Reverse()
    ensures CompareColumn(a, b, order) == Equal <==> a == b
  {
    if a.Text? && b.Text? {
      TextsReverse(a.text, b.text);
    }
  }

  lemma ColumnsTransitive(a: KeyValue, b: KeyValue, c: KeyValue, order: Order)
    requires CompareColumn(a, b, order) == Less && CompareColumn(b, c, order) == Less
    ensures CompareColumn(a, c, order) == Less
  {
    ColumnsReverse(a, b, order);
    ColumnsReverse(b, c, order);
    ColumnsReverse(a, c, order);
    if a.Text? && b.Text? && c.Text? {
      if order.Ascending? {
        TextsTransitive(a.text, b.text, c.text);
      } else {
        TextsReverse(a.text, b.text);
        TextsReverse(b.text, c.text);
        TextsReverse(a.text, c.text);
        TextsTransitive(c.text, b.text, a.text);
      }
    }
  }

  lemma {:induction false} CompareReverses(a: seq<KeyValue>, b: seq<KeyValue>, order: seq<Order>)
    requires Fits(a, order) && Fits(b, order)
    ensures Compare(a, b, order) == Compare(b, a, order).Reverse()
    ensures Compare(a, b, order) == Equal <==> a == b
  {
    if order != [] {
      ColumnsReverse(a[0], b[0], order[0]);
      CompareReverses(a[1..], b[1..], order[1..]);
      assert a == [a[0]] + a[1..] && b == [b[0]] + b[1..];
    }
  }

  lemma {:induction false} PrecedesTransitive(a: seq<KeyValue>, b: seq<KeyValue>, c: seq<KeyValue>, order: seq<Order>)
    requires Fits(a, order) && Fits(b, order) && Fits(c, order)
    requires Precedes(a, b, order) && Precedes(b, c, order)
    ensures Precedes(a, c, order)
  {
    ColumnsReverse(a[0], b[0], order[0]);
    ColumnsReverse(b[0], c[0], order[0]);
    if a[0] == b[0] && b[0] == c[0] {
      PrecedesTransitive(a[1..], b[1..], c[1..], order[1..]);
    } else if a[0] != b[0] && b[0] != c[0] {
      ColumnsTransitive(a[0], b[0], c[0], order[0]);
    }
  }

  /** Equal leading columns decide nothing. */
  lemma {:induction false} CompareTails(a: seq<KeyValue>, b: seq<KeyValue>, order: seq<Order>, fixed: nat)
    requires Fits(a, order) && Fits(b, order) && fixed <= |order|
    requires a[..fixed] == b[..fixed]
    ensures Compare(a, b, order) == Compare(a[fixed..], b[fixed..], order[fixed..])
  {
    if fixed > 0 {
      assert a[..fixed][0] == b[..fixed][0];
      ColumnsReverse(a[0], b[0], order[0]);
      assert a[1..][..fixed - 1] == a[..fixed][1..] && b[1..][..fixed - 1] == b[..fixed][1..];
      CompareTails(a[1..], b[1..], order[1..], fixed - 1);
      assert a[1..][fixed - 1..] == a[fixed..] && b[1..][fixed - 1..] == b[fixed..];
      assert order[1..][fixed - 1..] == order[fixed..];
    }
  }
}
