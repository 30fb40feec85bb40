/** A page of a view read through one of its indexes, with the transaction's
    staged changes laid on top (crates/baley-store-sqlite/src/view.rs,
    `staged_position`, `find_with_staged`, `compare`). */
module Paging {
  import opened Wrappers
  import opened Values
  import opened Ordering
  import opened Sequences
  import opened Seeks
  import opened Views
  import Cursors

  type Found = Row<Document>

  /** What a transaction means to write at a key: a body or a deletion, with
      the sequence of the event that last meant it. */
  datatype Staged = Staged(body: Option<Body>, producedSeq: nat)

  datatype IndexQuery = IndexQuery(index: string, equals: seq<KeyValue>, limit: nat, after: Option<string>)

  datatype Page = Page(items: seq<Found>, next: Option<string>)

  /** One generation's rows of a view, and each declared index's listing of
      them, which SQLite keeps in index order. */
  datatype StoredView = StoredView(table: map<DocKey, Document>, listings: map<string, seq<Found>>)

  function AsFound(view: ViewSpec, index: IndexSpec, document: Document): Found {
    Row(Columns(view, index, document), document)
  }

  ghost predicate Lists(view: ViewSpec, index: IndexSpec, listing: seq<Found>, table: map<DocKey, Document>) {
    && IndexListing(listing, Orders(view, index))
    && (forall row :: row in listing ==>
          row.item.key in table && table[row.item.key] == row.item && row == AsFound(view, index, row.item))
    && (forall key :: key in table ==> AsFound(view, index, table[key]) in listing)
  }

  ghost predicate StoredRows(view: ViewSpec, stored: StoredView) {
    && (forall key :: key in stored.table ==>
          stored.table[key].key == key && Writable(view, key, stored.table[key].body))
    && (forall index :: index in view.indexes ==>
          index.name in stored.listings && Lists(view, index, stored.listings[index.name], stored.table))
  }

  // ----- the simple specification -----

  function StagedDocument(view: ViewSpec, key: DocKey, staged: Staged): Document
    requires staged.body.Some?
  {
    Document(key, staged.producedSeq, view.version, staged.body.value)
  }

  /** The stored rows no staged change hides, and every staged body. */
  function Overlaid(view: ViewSpec, table: map<DocKey, Document>, staged: map<DocKey, Staged>): set<Document> {
    (set key | key in table.Keys && key !in staged :: table[key])
    + (set key | key in staged.Keys && staged[key].body.Some? :: StagedDocument(view, key, staged[key]))
  }

  /** Everything that matches the query after the cursor. */
  function Matching(view: ViewSpec, index: IndexSpec, equals: seq<KeyValue>, after: Option<seq<KeyValue>>,
                    table: map<DocKey, Document>, staged: map<DocKey, Staged>): set<Found> {
    set document | document in Overlaid(view, table, staged)
                   && InPage(equals, after, Orders(view, index), Columns(view, index, document))
      :: AsFound(view, index, document)
  }

  ghost predicate InOrder(items: seq<Found>, order: seq<Order>) {
    forall i, j :: 0 <= i < j < |items| ==> Precedes(items[i].columns, items[j].columns, order)
  }

  /** The first `most` rows of a set in page order. */
  ghost predicate FirstOf(items: seq<Found>, all: set<Found>, most: nat, order: seq<Order>) {
    && InOrder(items, order)
    && (forall item :: item in items ==> item in all)
    && |items| == (if |all| <= most then |all| else most)
    && (forall row, item :: row in all && row !in items && item in items ==>
          Precedes(item.columns, row.columns, order))
  }

  // ----- staged positions -----

  /** Whether a staged body matches the equality values, read field by field;
      a missing field is refused only when reached. */
  function StagedMatches(fields: seq<IndexField>, equals: seq<KeyValue>, body: Body): Result<bool, Refusal> {
    if fields == [] || equals == [] then Ok(true)
    else
      match Field(body, fields[0].name, fields[0].kind)
      case None => Err(MalformedKey)
      case Some(value) =>
        if value != equals[0] then Ok(false) else StagedMatches(fields[1..], equals[1..], body)
  }

  /** `staged_position`, as the whole columns of the row. */
  function StagedPosition(view: ViewSpec, index: IndexSpec, equals: seq<KeyValue>, document: Document)
    : Result<Option<seq<KeyValue>>, Refusal>
  {
    var matches :- StagedMatches(index.fields, equals, document.body);
    if !matches then Ok(None)
    else if (exists at :: |equals| <= at < |index.fields|
                          && Field(document.body, index.fields[at].name, index.fields[at].kind).None?)
            || |document.key| < |view.key| then Err(MalformedKey)
    else Ok(Some(Columns(view, index, document)))
  }

  predicate Unplaceable(view: ViewSpec, index: IndexSpec, equals: seq<KeyValue>, key: DocKey, staged: Staged) {
    staged.body.Some? && StagedPosition(view, index, equals, StagedDocument(view, key, staged)).Err?
  }

  predicate FittingStage(view: ViewSpec, staged: map<DocKey, Staged>) {
    forall key :: key in staged ==> FitsKey(view, key)
  }

  lemma {:induction false} MatchesPrefix(fields: seq<IndexField>, equals: seq<KeyValue>, body: Body)
    requires |equals| <= |fields|
    requires StagedMatches(fields, equals, body).Ok?
    ensures StagedMatches(fields, equals, body).value
            <==> forall at :: 0 <= at < |equals| ==>
                   Field(body, fields[at].name, fields[at].kind).UnwrapOr(Integer(0)) == equals[at]
  {
    if equals != [] && Field(body, fields[0].name, fields[0].kind) == Some(equals[0]) {
      MatchesPrefix(fields[1..], equals[1..], body);
      if StagedMatches(fields, equals, body).value {
        forall at | 0 <= at < |equals|
          ensures Field(body, fields[at].name, fields[at].kind).UnwrapOr(Integer(0)) == equals[at]
        {
          if at > 0 {
            assert fields[1..][at - 1] == fields[at] && equals[1..][at - 1] == equals[at];
          }
        }
      } else {
        var at :| 0 <= at < |equals[1..]|
                  && Field(body, fields[1..][at].name, fields[1..][at].kind).UnwrapOr(Integer(0)) != equals[1..][at];
        assert fields[at + 1] == fields[1..][at] && equals[at + 1] == equals[1..][at];
      }
    }
  }

  /** A staged body that has a position has it iff its columns start with the
      equality values. */
  lemma StagedPlaces(view: ViewSpec, index: IndexSpec, equals: seq<KeyValue>, document: Document)
    requires |equals| <= |index.fields|
    requires StagedPosition(view, index, equals, document).Ok?
    ensures StagedPosition(view, index, equals, document).value.Some?
            <==> equals <= Columns(view, index, document)
  {
    MatchesPrefix(index.fields, equals, document.body);
    var columns := Columns(view, index, document);
    if equals <= columns {
      forall at | 0 <= at < |equals| ensures columns[at] == equals[at] {
        assert columns[..|equals|][at] == equals[at];
      }
    }
  }

  // ----- sorting by position -----

  /** A row's position: its columns after the equality prefix. */
  function Position(row: Found, fixed: nat): seq<KeyValue> {
    if fixed <= |row.columns| then row.columns[fixed..] else []
  }

  function Insert(row: Found, sorted: seq<Found>, order: seq<Order>, fixed: nat): seq<Found>
    requires fixed <= |order|
  {
    if sorted == [] then [row]
    else if Compare(Position(row, fixed), Position(sorted[0], fixed), order[fixed..]) == Greater then
      [sorted[0]] + Insert(row, sorted[1..], order, fixed)
    else [row] + sorted
  }

  /** `sort_by` over the positions. */
  function Sorted(rows: seq<Found>, order: seq<Order>, fixed: nat): seq<Found>
    requires fixed <= |order|
  {
    if rows == [] then [] else Insert(rows[0], Sorted(rows[1..], order, fixed), order, fixed)
  }

  lemma {:induction false} InsertKeeps(row: Found, sorted: seq<Found>, order: seq<Order>, fixed: nat)
    requires fixed <= |order|
    ensures multiset(Insert(row, sorted, order, fixed)) == multiset([row] + sorted)
  {
    if sorted != [] {
      InsertKeeps(row, sorted[1..], order, fixed);
      assert sorted == [sorted[0]] + sorted[1..];
    }
  }

  /** Rows of one page: they fit the order and share the equality values. */
  ghost predicate Rows(rows: seq<Found>, equals: seq<KeyValue>, order: seq<Order>) {
    forall row :: row in rows ==> Fits(row.columns, order) && equals <= row.columns
  }

  lemma FirstStaysFirst(row: Found, sorted: seq<Found>, equals: seq<KeyValue>, order: seq<Order>)
    requires |equals| <= |order|
    requires sorted != [] && InOrder(sorted, order)
    requires Precedes(sorted[0].columns, row.columns, order)
    ensures forall at :: 0 <= at < |Insert(row, sorted[1..], order, |equals|)| ==>
              Precedes(sorted[0].columns, Insert(row, sorted[1..], order, |equals|)[at].columns, order)
  {
    hide Insert;
    var rest := sorted[1..];
    var inserted := Insert(row, rest, order, |equals|);
    InsertKeeps(row, rest, order, |equals|);
    forall at | 0 <= at < |inserted| ensures Precedes(sorted[0].columns, inserted[at].columns, order) {
      assert inserted[at] in multiset(inserted);
      assert inserted[at] in [row] + rest;
      if inserted[at] != row {
        var from :| 0 <= from < |rest| && rest[from] == inserted[at];
        assert sorted[from + 1] == inserted[at];
      }
    }
  }

  lemma {:induction false} InsertOrders(row: Found, sorted: seq<Found>, equals: seq<KeyValue>, order: seq<Order>)
    requires |equals| <= |order|
    requires Rows([row] + sorted, equals, order) && InOrder(sorted, order)
    requires forall other :: other in sorted ==> other.columns != row.columns
    ensures InOrder(Insert(row, sorted, order, |equals|), order)
  {
    assert row in [row] + sorted;
    if sorted != [] {
      var first := sorted[0];
      assert first in [row] + sorted;
      CompareTails(row.columns, first.columns, order, |equals|);
      CompareReverses(row.columns, first.columns, order);
      if Compare(row.columns[|equals|..], first.columns[|equals|..], order[|equals|..]) == Greater {
        var rest := sorted[1..];
        forall other | other in [row] + rest ensures other in [row] + sorted {
        }
        InsertOrders(row, rest, equals, order);
        FirstStaysFirst(row, sorted, equals, order);
      } else {
        forall at | 0 <= at < |sorted| ensures Precedes(row.columns, sorted[at].columns, order) {
          assert sorted[at] in [row] + sorted;
          if at > 0 {
            PrecedesTransitive(row.columns, first.columns, sorted[at].columns, order);
          }
        }
      }
    }
  }

  lemma {:induction false} SortedRows(rows: seq<Found>, equals: seq<KeyValue>, order: seq<Order>)
    requires |equals| <= |order|
    requires Rows(rows, equals, order)
    requires forall i, j :: 0 <= i < j < |rows| ==> rows[i].columns != rows[j].columns
    ensures multiset(Sorted(rows, order, |equals|)) == multiset(rows)
    ensures InOrder(Sorted(rows, order, |equals|), order)
  {
    if rows != [] {
      var rest := Sorted(rows[1..], order, |equals|);
      SortedRows(rows[1..], equals, order);
      InsertKeeps(rows[0], rest, order, |equals|);
      assert rows == [rows[0]] + rows[1..];
      forall other | other in rest ensures other.columns != rows[0].columns && other in rows {
        assert other in multiset(rest);
        var from :| 0 <= from < |rows[1..]| && rows[1..][from] == other;
        assert rows[from + 1] == other;
      }
      InsertOrders(rows[0], rest, equals, order);
    }
  }

  // ----- reading past what staged keys can hide -----

  function Visible(rows: seq<Found>, hidden: set<DocKey>): seq<Found> {
    Filter(rows, (row: Found) => row.item.key !in hidden)
  }

  lemma VisibleMembers(rows: seq<Found>, hidden: set<DocKey>)
    ensures forall row :: row in Visible(rows, hidden) <==> row in rows && row.item.key !in hidden
  {
    FilterMembers(rows, (row: Found) => row.item.key !in hidden);
  }

  predicate DistinctKeys(rows: seq<Found>) {
    forall i, j :: 0 <= i < j < |rows| ==> rows[i].item.key != rows[j].item.key
  }

  /** Each hidden key takes at most one row away. */
  lemma {:induction false} HiddenRows(rows: seq<Found>, hidden: set<DocKey>)
    requires DistinctKeys(rows)
    ensures |rows| <= |Visible(rows, hidden)| + |hidden|
  {
    if rows != [] {
      var key := rows[0].item.key;
      if key in hidden {
        HiddenRows(rows[1..], hidden - {key});
        FilterAgrees(rows[1..], (row: Found) => row.item.key !in hidden, (row: Found) => row.item.key !in hidden - {key});
      } else {
        HiddenRows(rows[1..], hidden);
      }
    }
  }

  lemma InOrderIsDistinct(rows: seq<Found>, order: seq<Order>)
    requires InOrder(rows, order)
    requires forall row :: row in rows ==> Fits(row.columns, order)
    ensures Distinct(rows)
    ensures |Elements(rows)| == |rows|
  {
    forall i, j | 0 <= i < j < |rows| ensures rows[i] != rows[j] {
      assert rows[i] in rows;
      CompareReverses(rows[i].columns, rows[j].columns, order);
    }
    DistinctSize(rows);
  }

  /** The rows are the first of the set, and more follow iff the set has more. */
  ghost predicate PageIs(rows: seq<Found>, more: bool, all: set<Found>, size: nat, order: seq<Order>) {
    FirstOf(rows, all, size, order) && (more <==> size < |all|)
  }

  /** The list read holds the first rows of the set, and one more iff the set
      has more. */
  ghost predicate ExactPage(sorted: seq<Found>, all: set<Found>, size: nat, order: seq<Order>) {
    PageIs(Take(sorted, size), size < |sorted|, all, size, order)
  }

  ghost predicate AllBefore(near: set<Found>, row: Found, order: seq<Order>) {
    forall other :: other in near ==> Precedes(other.columns, row.columns, order)
  }

  /** The first rows of a sorted list are the first of its set, and of any
      larger set whose other rows all come after more than `size` of them. */
  lemma FirstRows(sorted: seq<Found>, near: set<Found>, all: set<Found>, size: nat, order: seq<Order>)
    requires InOrder(sorted, order)
    requires forall row :: row in all ==> Fits(row.columns, order)
    requires Elements(sorted) <= all
    requires Elements(sorted) == all
             || (size < |sorted| && near <= Elements(sorted) && size < |near|
                 && forall row :: row in all && row !in sorted ==> AllBefore(near, row, order))
    ensures ExactPage(sorted, all, size, order)
  {
    InOrderIsDistinct(sorted, order);
    SubsetSize(Elements(sorted), all);
    var items := Take(sorted, size);
    forall row, item | row in all && row !in items && item in items
      ensures Precedes(item.columns, row.columns, order)
    {
      var i :| 0 <= i < |items| && items[i] == item;
      if row in sorted {
        var j :| 0 <= j < |sorted| && sorted[j] == row;
        assert i < j;
      } else {
        assert row !in Elements(sorted);
        assert AllBefore(near, row, order);
        ManyReachPast(sorted, near, size);
        var j :| size <= j < |sorted| && sorted[j] in near;
        assert sorted[i] in all && sorted[j] in all;
        PrecedesTransitive(item.columns, sorted[j].columns, row.columns, order);
      }
    }
  }

  /** More than `size` rows of a list cannot all be among its first `size`. */
  lemma ManyReachPast(sorted: seq<Found>, near: set<Found>, size: nat)
    requires size < |sorted|
    requires near <= Elements(sorted) && size < |near|
    ensures exists j :: size <= j < |sorted| && sorted[j] in near
  {
    if forall j :: size <= j < |sorted| ==> sorted[j] !in near {
      forall row | row in near ensures row in Elements(sorted[..size]) {
        assert row in Elements(sorted);
        var at :| 0 <= at < |sorted| && sorted[at] == row;
        assert sorted[..size][at] == row;
      }
      SubsetSize(near, Elements(sorted[..size]));
      ElementsSize(sorted[..size]);
    }
  }

  lemma {:induction false} ElementsSize(rows: seq<Found>)
    ensures |Elements(rows)| <= |rows|
  {
    if rows != [] {
      assert Elements(rows) == {rows[0]} + Elements(rows[1..]);
      ElementsSize(rows[1..]);
    }
  }

  /** More than a page of the rows read is visible, and before every visible
      row not read. */
  lemma ReadPastHidden(stored: seq<Found>, hidden: set<DocKey>, size: nat, order: seq<Order>)
    requires InOrder(stored, order) && DistinctKeys(stored)
    requires forall row :: row in stored ==> Fits(row.columns, order)
    requires size + 1 + |hidden| < |stored|
    ensures var kept := Visible(Take(stored, size + 1 + |hidden|), hidden);
            && size < |Elements(kept)|
            && forall row :: row in Visible(stored, hidden) && row !in kept ==> AllBefore(Elements(kept), row, order)
  {
    var read := stored[..size + 1 + |hidden|];
    var kept := Visible(read, hidden);
    HiddenRows(read, hidden);
    VisibleInOrder(read, hidden, order);
    VisibleMembers(read, hidden);
    VisibleMembers(stored, hidden);
    InOrderIsDistinct(kept, order);
    forall row, other | row in Visible(stored, hidden) && row !in kept && other in Elements(kept)
      ensures Precedes(other.columns, row.columns, order)
    {
      var j :| 0 <= j < |stored| && stored[j] == row;
      var i :| 0 <= i < |read| && read[i] == other;
      assert stored[i] == other;
    }
  }

  lemma SameElements(sorted: seq<Found>, left: seq<Found>, right: seq<Found>)
    requires multiset(sorted) == multiset(left + right)
    ensures Elements(sorted) == Elements(left) + Elements(right)
  {
    forall row ensures row in sorted <==> row in left || row in right {
      assert row in sorted <==> row in multiset(sorted);
      assert row in left + right <==> row in multiset(left + right);
    }
  }

  /** Reading `hidden` rows past the page is enough: laid over the rows read,
      the staged rows give the page they give laid over every row. */
  lemma OverlayIsExact(stored: seq<Found>, hidden: set<DocKey>, added: seq<Found>, sorted: seq<Found>, size: nat, order: seq<Order>)
    requires InOrder(stored, order) && DistinctKeys(stored)
    requires forall row :: row in stored || row in added ==> Fits(row.columns, order)
    requires InOrder(sorted, order)
    requires multiset(sorted) == multiset(Visible(Take(stored, size + 1 + |hidden|), hidden) + added)
    ensures ExactPage(sorted, Elements(Visible(stored, hidden)) + Elements(added), size, order)
  {
    var read := Take(stored, size + 1 + |hidden|);
    var kept, visible := Visible(read, hidden), Visible(stored, hidden);
    VisibleMembers(read, hidden);
    VisibleMembers(stored, hidden);
    if |stored| > size + 1 + |hidden| {
      ReadPastHidden(stored, hidden, size, order);
    }
    PageOfRead(visible, kept, added, sorted, size, order);
  }

  lemma PageOfRead(visible: seq<Found>, kept: seq<Found>, added: seq<Found>, sorted: seq<Found>, size: nat, order: seq<Order>)
    requires forall row :: row in kept ==> row in visible
    requires forall row :: row in visible || row in added ==> Fits(row.columns, order)
    requires InOrder(sorted, order) && multiset(sorted) == multiset(kept + added)
    requires visible == kept
             || (size < |Elements(kept)|
                 && forall row :: row in visible && row !in kept ==> AllBefore(Elements(kept), row, order))
    ensures ExactPage(sorted, Elements(visible) + Elements(added), size, order)
  {
    var all := Elements(visible) + Elements(added);
    SameElements(sorted, kept, added);
    forall row | row in all && row !in sorted ensures row in visible && row !in kept {
      assert row !in Elements(sorted);
    }
    ElementsSize(sorted);
    SubsetSize(Elements(kept), Elements(sorted));
    FirstRows(sorted, Elements(kept), all, size, order);
  }

  lemma VisibleInOrder(rows: seq<Found>, hidden: set<DocKey>, order: seq<Order>)
    requires InOrder(rows, order)
    ensures InOrder(Visible(rows, hidden), order)
  {
    FilterOrdered(rows, (row: Found) => row.item.key !in hidden,
                  (left: Found, right: Found) => Precedes(left.columns, right.columns, order));
  }

  // ----- find -----

  function IndexNamed(indexes: seq<IndexSpec>, name: string): (found: Option<IndexSpec>)
    ensures found.Some? ==> found.value in indexes && found.value.name == name
  {
    if indexes == [] then None
    else if indexes[0].name == name then Some(indexes[0])
    else IndexNamed(indexes[1..], name)
  }

  /** There are no more equality values than index fields, and each has the
      kind of its field. */
  predicate EqualsFit(index: IndexSpec, equals: seq<KeyValue>) {
    && |equals| <= |index.fields|
    && forall at :: 0 <= at < |equals| ==> KindOf(equals[at]) == index.fields[at].kind
  }

  function Identity(project: string, view: ViewSpec, generation: int, query: IndexQuery): string {
    Cursors.ViewIdentity(Cursors.ViewQuery(project, view.name, view.version, generation, query.index, query.equals))
  }

  /** The position the query's cursor holds, if it has one and issued it. */
  function After(project: string, view: ViewSpec, generation: int, query: IndexQuery, index: IndexSpec)
    : (after: Result<Option<seq<KeyValue>>, Refusal>)
    requires |query.equals| <= |index.fields|
    ensures after.Ok? && after.value.Some? ==> |query.equals| + |after.value.value| == |Orders(view, index)|
  {
    if query.after.None? then Ok(None)
    else
      match Cursors.CursorPosition(Identity(project, view, generation, query), query.after.value,
                                   Kinds(view, index)[|query.equals|..])
      case None => Err(InvalidCursor)
      case Some(position) => Ok(Some(position))
  }

  function PageSize(view: ViewSpec, limit: nat): nat {
    if limit < view.pageBound then limit else view.pageBound
  }

  /** What `find` answers: refusals in the order the code makes them, or the
      first documents after the cursor of everything that matches, and a
      cursor at the last one when more follow. Staged keys that do not fit the
      view may tie in the order; the page is then still one of matching
      documents. */
  ghost predicate Answers(project: string, view: ViewSpec, generation: int, query: IndexQuery,
                          table: map<DocKey, Document>, staged: map<DocKey, Staged>, answer: Result<Page, Refusal>) {
    match IndexNamed(view.indexes, query.index)
    case None => answer == Err(UndeclaredIndex)
    case Some(index) =>
      if !EqualsFit(index, query.equals) then answer == Err(MalformedKey)
      else
        match After(project, view, generation, query, index)
        case Err(refusal) => answer == Err(refusal)
        case Ok(after) =>
          var size := PageSize(view, query.limit);
          if size == 0 then answer == Ok(Page([], None))
          else if exists key :: key in staged && Unplaceable(view, index, query.equals, key, staged[key]) then
            answer == Err(MalformedKey)
          else
            var all := Matching(view, index, query.equals, after, table, staged);
            && answer.Ok?
            && MatchingPage(answer.value, all, size, Identity(project, view, generation, query), |query.equals|)
            && (FittingStage(view, staged) ==>
                  IsPage(answer.value, all, size, Orders(view, index), Identity(project, view, generation, query), |query.equals|))
  }

  /** Everything that matches after the query's cursor; nothing where the query
      is refused. */
  ghost function Wanted(project: string, view: ViewSpec, generation: int, query: IndexQuery, table: map<DocKey, Document>,
                        staged: map<DocKey, Staged>): set<Found>
  {
    match IndexNamed(view.indexes, query.index)
    case None => {}
    case Some(index) =>
      if !EqualsFit(index, query.equals) then {}
      else
        match After(project, view, generation, query, index)
        case Err(_) => {}
        case Ok(after) => Matching(view, index, query.equals, after, table, staged)
  }

  /** At most a page of documents that match, and a cursor only at the last of a
      full one. */
  ghost predicate MatchingPage(page: Page, all: set<Found>, size: nat, identity: string, fixed: nat) {
    && |page.items| <= size && (forall item :: item in page.items ==> item in all)
    && (page.next.Some? ==> |page.items| == size > 0
                            && page.next.value == identity + Cursors.EncodeAll(Position(page.items[size - 1], fixed)))
  }

  ghost predicate IsPage(page: Page, all: set<Found>, size: nat, order: seq<Order>, identity: string, fixed: nat) {
    && FirstOf(page.items, all, size, order)
    && page.next == if size < |all| && page.items != []
                    then Some(identity + Cursors.EncodeAll(Position(page.items[|page.items| - 1], fixed)))
                    else None
  }

  /** Runs the statements in order, each for the rows still wanted. */
  method ReadSeeks(listing: seq<Found>, equals: seq<KeyValue>, after: Option<seq<KeyValue>>, order: seq<Order>, most: nat)
    returns (rows: seq<Found>)
    requires IndexListing(listing, order)
    requires after.Some? ==> |equals| + |after.value| == |order|
    ensures rows == Take(PageRows(equals, after, order, listing), most)
  {
    var seeks := SeeksAfter(after);
    rows := [];
    var at := 0;
    ghost var listed: seq<Found> := [];
    while at < |seeks| && (at == 0 || |rows| < most)
      invariant 0 <= at <= |seeks|
      invariant listed == RowsOf(seeks[..at], equals, order, listing)
      invariant rows == Take(listed, most)
    {
      var more := SelectedRows(seeks[at], equals, order, listing);
      RowsOfNext(seeks, at, equals, order, listing);
      TakeMore(listed, more, most);
      rows := rows + Take(more, most - |rows|);
      listed := listed + more;
      at := at + 1;
    }
    RowsOfRest(seeks, at, equals, order, listing);
    TakeMore(listed, RowsOf(seeks[at..], equals, order, listing), most);
    assert rows == Take(RowsOf(seeks, equals, order, listing), most) by {
      if at < |seeks| {
        assert Take(RowsOf(seeks[at..], equals, order, listing), 0) == [];
      } else {
        assert listed + RowsOf(seeks[at..], equals, order, listing) == listed;
      }
    }
    SeeksListThePage(equals, after, order, listing);
  }

  lemma TakeMore(left: seq<Found>, right: seq<Found>, most: nat)
    ensures |Take(left, most)| <= most
    ensures Take(left + right, most) == Take(left, most) + Take(right, most - |Take(left, most)|)
  {
  }

  lemma RowsOfNext(seeks: seq<Seek>, at: nat, equals: seq<KeyValue>, order: seq<Order>, listing: seq<Found>)
    requires at < |seeks|
    ensures RowsOf(seeks[..at + 1], equals, order, listing)
            == RowsOf(seeks[..at], equals, order, listing) + SelectedRows(seeks[at], equals, order, listing)
  {
    RowsOfAppends(seeks[..at], seeks[at], equals, order, listing);
    assert seeks[..at] + [seeks[at]] == seeks[..at + 1];
  }

  lemma RowsOfRest(seeks: seq<Seek>, at: nat, equals: seq<KeyValue>, order: seq<Order>, listing: seq<Found>)
    requires at <= |seeks|
    ensures RowsOf(seeks, equals, order, listing)
            == RowsOf(seeks[..at], equals, order, listing) + RowsOf(seeks[at..], equals, order, listing)
  {
    RowsOfConcat(seeks[..at], seeks[at..], equals, order, listing);
    assert seeks[..at] + seeks[at..] == seeks;
  }

  lemma {:induction false} RowsOfConcat(left: seq<Seek>, right: seq<Seek>, equals: seq<KeyValue>, order: seq<Order>, listing: seq<Found>)
    ensures RowsOf(left + right, equals, order, listing)
            == RowsOf(left, equals, order, listing) + RowsOf(right, equals, order, listing)
  {
    if left == [] {
      assert left + right == right;
    } else {
      var first := SelectedRows(left[0], equals, order, listing);
      assert (left + right)[1..] == left[1..] + right;
      RowsOfConcat(left[1..], right, equals, order, listing);
      assert first + (RowsOf(left[1..], equals, order, listing) + RowsOf(right, equals, order, listing))
          == first + RowsOf(left[1..], equals, order, listing) + RowsOf(right, equals, order, listing);
    }
  }

  /** A staged put the page takes. */
  predicate Placed(view: ViewSpec, index: IndexSpec, equals: seq<KeyValue>, after: Option<seq<KeyValue>>, key: DocKey, staged: Staged) {
    staged.body.Some?
    && InPage(equals, after, Orders(view, index), Columns(view, index, StagedDocument(view, key, staged)))
  }

  function PlacedRows(view: ViewSpec, index: IndexSpec, equals: seq<KeyValue>, after: Option<seq<KeyValue>>, staged: map<DocKey, Staged>,
                      keys: set<DocKey>)
    : set<Found>
  {
    set key | key in keys && key in staged && Placed(view, index, equals, after, key, staged[key])
      :: AsFound(view, index, StagedDocument(view, key, staged[key]))
  }

  lemma PlacedOneMore(view: ViewSpec, index: IndexSpec, equals: seq<KeyValue>, after: Option<seq<KeyValue>>, staged: map<DocKey, Staged>,
                      keys: set<DocKey>, key: DocKey)
    requires key in staged
    ensures PlacedRows(view, index, equals, after, staged, keys + {key})
            == PlacedRows(view, index, equals, after, staged, keys)
               + if Placed(view, index, equals, after, key, staged[key])
                 then {AsFound(view, index, StagedDocument(view, key, staged[key]))} else {}
  {
  }

  /** The staged bodies that match after the cursor, in their place. */
  method PlaceStaged(view: ViewSpec, index: IndexSpec, equals: seq<KeyValue>, after: Option<seq<KeyValue>>, staged: map<DocKey, Staged>)
    returns (added: Result<seq<Found>, Refusal>)
    requires |equals| <= |index.fields|
    requires after.Some? ==> |equals| + |after.value| == |Orders(view, index)|
    ensures added.Err? ==> added.error == MalformedKey
                           && exists key :: key in staged && Unplaceable(view, index, equals, key, staged[key])
    ensures added.Ok? ==> forall key :: key in staged ==> !Unplaceable(view, index, equals, key, staged[key])
    ensures added.Ok? ==> Elements(added.value) == PlacedRows(view, index, equals, after, staged, staged.Keys)
    ensures added.Ok? ==> DistinctKeys(added.value)
  {
    var order := Orders(view, index);
    var todo := staged.Keys;
    var rows: seq<Found> := [];
    while todo != {}
      invariant todo <= staged.Keys
      invariant forall key :: key in staged && key !in todo ==> !Unplaceable(view, index, equals, key, staged[key])
      invariant Elements(rows) == PlacedRows(view, index, equals, after, staged, staged.Keys - todo)
      invariant forall row :: row in rows ==> row.item.key !in todo
      invariant DistinctKeys(rows)
    {
      var key :| key in todo;
      PlacedOneMore(view, index, equals, after, staged, staged.Keys - todo, key);
      assert staged.Keys - (todo - {key}) == (staged.Keys - todo) + {key};
      todo := todo - {key};
      if staged[key].body.Some? {
        var document := StagedDocument(view, key, staged[key]);
        var position := StagedPosition(view, index, equals, document);
        if position.Err? {
          assert Unplaceable(view, index, equals, key, staged[key]);
          return Err(MalformedKey);
        }
        StagedPlaces(view, index, equals, document);
        var row := AsFound(view, index, document);
        if position.value.Some? {
          if after.Some? {
            CompareTails(row.columns, equals + after.value, order, |equals|);
            CompareReverses(row.columns, equals + after.value, order);
            assert (equals + after.value)[..|equals|] == equals && (equals + after.value)[|equals|..] == after.value;
          }
          if after.None? || Compare(Position(row, |equals|), after.value, order[|equals|..]) == Greater {
            assert Placed(view, index, equals, after, key, staged[key]);
            assert Elements(rows + [row]) == Elements(rows) + {row};
            rows := rows + [row];
          }
        }
      }
    }
    assert staged.Keys - {} == staged.Keys;
    added := Ok(rows);
  }

  /** Rows of the page that staged keys leave visible, and the placed staged
      rows, are everything that matches. */
  lemma MatchingRows(view: ViewSpec, index: IndexSpec, equals: seq<KeyValue>, after: Option<seq<KeyValue>>,
                     table: map<DocKey, Document>, listing: seq<Found>, staged: map<DocKey, Staged>, added: seq<Found>)
    requires Lists(view, index, listing, table)
    requires forall key :: key in table ==> table[key].key == key
    requires Elements(added) == PlacedRows(view, index, equals, after, staged, staged.Keys)
    ensures Matching(view, index, equals, after, table, staged)
            == Elements(Visible(PageRows(equals, after, Orders(view, index), listing), staged.Keys)) + Elements(added)
  {
    var all := Matching(view, index, equals, after, table, staged);
    VisibleMembers(PageRows(equals, after, Orders(view, index), listing), staged.Keys);
    FilterMembers(listing, (row: Found) => InPage(equals, after, Orders(view, index), row.columns));
    var visible := Visible(PageRows(equals, after, Orders(view, index), listing), staged.Keys);
    forall row | row in all ensures row in visible || row in added {
      var document :| document in Overlaid(view, table, staged) && row == AsFound(view, index, document)
                      && InPage(equals, after, Orders(view, index), Columns(view, index, document));
      if key :| key in staged.Keys && staged[key].body.Some? && document == StagedDocument(view, key, staged[key]) {
        assert Placed(view, index, equals, after, key, staged[key]);
        assert row in PlacedRows(view, index, equals, after, staged, staged.Keys);
      } else {
        assert document.key in table && document == table[document.key];
      }
    }
    forall row | row in visible ensures row in all {
      assert row.item in Overlaid(view, table, staged);
    }
    forall row | row in added ensures row in all {
      assert row in Elements(added);
      var key :| key in staged && Placed(view, index, equals, after, key, staged[key])
                 && row == AsFound(view, index, StagedDocument(view, key, staged[key]));
      assert StagedDocument(view, key, staged[key]) in Overlaid(view, table, staged);
    }
  }

  lemma PageRowsInOrder(equals: seq<KeyValue>, after: Option<seq<KeyValue>>, order: seq<Order>, listing: seq<Found>)
    requires IndexListing(listing, order)
    ensures InOrder(PageRows(equals, after, order, listing), order)
  {
    FilterOrdered(listing, (row: Found) => InPage(equals, after, order, row.columns),
                  (left: Found, right: Found) => Precedes(left.columns, right.columns, order));
  }

  /** Rows with distinct fitting keys have distinct columns. */
  lemma DistinctColumns(view: ViewSpec, index: IndexSpec, a: Found, b: Found)
    requires a == AsFound(view, index, a.item) && b == AsFound(view, index, b.item)
    requires FitsKey(view, a.item.key) && FitsKey(view, b.item.key)
    requires a.item.key != b.item.key
    ensures a.columns != b.columns
  {
    KeyColumns(view, index, a.item);
    KeyColumns(view, index, b.item);
  }

  /** The rows of one index, stored or staged. */
  ghost predicate IndexRows(view: ViewSpec, index: IndexSpec, rows: seq<Found>) {
    forall row :: row in rows ==> row == AsFound(view, index, row.item) && FitsKey(view, row.item.key)
  }

  /** Sorting the rows read with the staged rows gives the page. */
  lemma SortedPage(view: ViewSpec, index: IndexSpec, equals: seq<KeyValue>, stored: seq<Found>, hidden: set<DocKey>,
                   added: seq<Found>, sorted: seq<Found>, all: set<Found>, size: nat)
    requires |equals| <= |index.fields|
    requires sorted == Sorted(Visible(Take(stored, size + 1 + |hidden|), hidden) + added, Orders(view, index), |equals|)
    requires all == Elements(Visible(stored, hidden)) + Elements(added)
    requires InOrder(stored, Orders(view, index)) && DistinctKeys(stored) && DistinctKeys(added)
    requires IndexRows(view, index, stored) && IndexRows(view, index, added)
    requires Rows(stored, equals, Orders(view, index)) && Rows(added, equals, Orders(view, index))
    requires forall row :: row in added ==> row.item.key in hidden
    ensures ExactPage(sorted, all, size, Orders(view, index))
  {
    var order := Orders(view, index);
    var read := Take(stored, size + 1 + |hidden|);
    var kept := Visible(read, hidden);
    VisibleKeys(read, hidden);
    VisibleMembers(read, hidden);
    forall row | row in kept + added ensures Fits(row.columns, order) && equals <= row.columns {
    }
    DifferentRows(view, index, kept, added, hidden);
    SortedRows(kept + added, equals, order);
    OverlayIsExact(stored, hidden, added, sorted, size, order);
  }

  /** Rows kept and rows added have different keys, so different columns. */
  lemma DifferentRows(view: ViewSpec, index: IndexSpec, kept: seq<Found>, added: seq<Found>, hidden: set<DocKey>)
    requires DistinctKeys(kept) && DistinctKeys(added) && IndexRows(view, index, kept) && IndexRows(view, index, added)
    requires forall row :: row in kept ==> row.item.key !in hidden
    requires forall row :: row in added ==> row.item.key in hidden
    ensures forall i, j :: 0 <= i < j < |kept + added| ==> (kept + added)[i].columns != (kept + added)[j].columns
  {
    var rows := kept + added;
    forall i, j | 0 <= i < j < |rows| ensures rows[i].columns != rows[j].columns {
      assert rows[i] in kept || rows[i] in added;
      assert rows[j] in kept || rows[j] in added;
      assert rows[i].item.key != rows[j].item.key;
      DistinctColumns(view, index, rows[i], rows[j]);
    }
  }

  lemma {:induction false} VisibleKeys(rows: seq<Found>, hidden: set<DocKey>)
    requires DistinctKeys(rows)
    ensures DistinctKeys(Visible(rows, hidden))
  {
    FilterOrdered(rows, (row: Found) => row.item.key !in hidden,
                  (left: Found, right: Found) => left.item.key != right.item.key);
  }

  lemma {:induction false} NothingHidden(rows: seq<Found>)
    ensures Visible(rows, {}) == rows
  {
    if rows != [] {
      NothingHidden(rows[1..]);
    }
  }

  /** Without staged changes the rows read are the page as they are. */
  lemma UnstagedPage(stored: seq<Found>, read: seq<Found>, size: nat, order: seq<Order>)
    requires read == Take(stored, size + 1)
    requires InOrder(stored, order) && DistinctKeys(stored)
    requires forall row :: row in stored ==> Fits(row.columns, order)
    ensures ExactPage(read, Elements(stored), size, order)
  {
    hide *;
    NothingHidden(stored);
    NothingHidden(read);
    NoElements();
    TakeInOrder(stored, size + 1, order);
    assert read + [] == read;
    OverlayIsExact(stored, {}, [], read, size, order);
    assert Elements(stored) + {} == Elements(stored);
  }

  lemma TakeInOrder(rows: seq<Found>, most: nat, order: seq<Order>)
    requires InOrder(rows, order)
    ensures InOrder(Take(rows, most), order)
  {
  }

  lemma NoElements()
    ensures Elements<Found>([]) == {}
  {
  }

  /** Facts about the page's rows that every listing has. */
  lemma ListedRows(view: ViewSpec, index: IndexSpec, equals: seq<KeyValue>, after: Option<seq<KeyValue>>,
                   table: map<DocKey, Document>, listing: seq<Found>)
    requires Lists(view, index, listing, table)
    requires forall key :: key in table ==> table[key].key == key && FitsKey(view, key)
    ensures var rows := PageRows(equals, after, Orders(view, index), listing);
            && InOrder(rows, Orders(view, index)) && DistinctKeys(rows)
            && IndexRows(view, index, rows) && Rows(rows, equals, Orders(view, index))
  {
    var order := Orders(view, index);
    var rows := PageRows(equals, after, order, listing);
    PageRowsInOrder(equals, after, order, listing);
    FilterMembers(listing, (row: Found) => InPage(equals, after, order, row.columns));
    forall i, j | 0 <= i < j < |rows| ensures rows[i].item.key != rows[j].item.key {
      assert rows[i] in rows && rows[j] in rows;
      CompareReverses(rows[i].columns, rows[j].columns, order);
    }
  }

  lemma UnstagedAnswer(view: ViewSpec, index: IndexSpec, equals: seq<KeyValue>, after: Option<seq<KeyValue>>, size: nat,
                       listing: seq<Found>, table: map<DocKey, Document>, read: seq<Found>)
    requires read == Take(PageRows(equals, after, Orders(view, index), listing), size + 1)
    requires Lists(view, index, listing, table)
    requires forall key :: key in table ==> table[key].key == key && FitsKey(view, key)
    ensures ExactPage(read, Matching(view, index, equals, after, table, map[]), size, Orders(view, index))
  {
    var stored := PageRows(equals, after, Orders(view, index), listing);
    ListedRows(view, index, equals, after, table, listing);
    UnstagedPage(stored, read, size, Orders(view, index));
    var unstaged: map<DocKey, Staged> := map[];
    assert PlacedRows(view, index, equals, after, unstaged, {}) == {};
    MatchingRows(view, index, equals, after, table, listing, unstaged, []);
    NothingHidden(stored);
    assert unstaged.Keys == {};
    assert Elements(stored) + Elements([]) == Elements(stored);
  }

  lemma AddedRows(view: ViewSpec, index: IndexSpec, equals: seq<KeyValue>, after: Option<seq<KeyValue>>,
                  staged: map<DocKey, Staged>, added: seq<Found>)
    requires FittingStage(view, staged)
    requires Elements(added) == PlacedRows(view, index, equals, after, staged, staged.Keys)
    ensures IndexRows(view, index, added) && Rows(added, equals, Orders(view, index))
    ensures forall row :: row in added ==> row.item.key in staged.Keys
  {
    forall row | row in added
      ensures row == AsFound(view, index, row.item) && row.item.key in staged.Keys
      ensures Fits(row.columns, Orders(view, index)) && equals <= row.columns
    {
      assert row in Elements(added);
      var key :| key in staged && Placed(view, index, equals, after, key, staged[key])
                 && row == AsFound(view, index, StagedDocument(view, key, staged[key]));
    }
  }

  lemma StagedAnswer(view: ViewSpec, index: IndexSpec, equals: seq<KeyValue>, after: Option<seq<KeyValue>>, size: nat,
                     listing: seq<Found>, table: map<DocKey, Document>, staged: map<DocKey, Staged>, added: seq<Found>, sorted: seq<Found>,
                     all: set<Found>)
    requires |equals| <= |index.fields|
    requires all == Matching(view, index, equals, after, table, staged)
    requires sorted == Sorted(Visible(Take(PageRows(equals, after, Orders(view, index), listing), size + 1 + |staged|), staged.Keys)
                              + added, Orders(view, index), |equals|)
    requires Lists(view, index, listing, table)
    requires forall key :: key in table ==> table[key].key == key && FitsKey(view, key)
    requires FittingStage(view, staged) && DistinctKeys(added)
    requires Elements(added) == PlacedRows(view, index, equals, after, staged, staged.Keys)
    ensures ExactPage(sorted, all, size, Orders(view, index))
  {
    hide *;
    ListedRows(view, index, equals, after, table, listing);
    AddedRows(view, index, equals, after, staged, added);
    assert |staged| == |staged.Keys|;
    var stored := PageRows(equals, after, Orders(view, index), listing);
    MatchingRows(view, index, equals, after, table, listing, staged, added);
    SortedPage(view, index, equals, stored, staged.Keys, added, sorted, all, size);
  }

  lemma {:induction false} SortedMembers(rows: seq<Found>, order: seq<Order>, fixed: nat)
    requires fixed <= |order|
    ensures multiset(Sorted(rows, order, fixed)) == multiset(rows)
  {
    if rows != [] {
      SortedMembers(rows[1..], order, fixed);
      InsertKeeps(rows[0], Sorted(rows[1..], order, fixed), order, fixed);
      assert rows == [rows[0]] + rows[1..];
    }
  }

  lemma StagedMembers(view: ViewSpec, index: IndexSpec, equals: seq<KeyValue>, after: Option<seq<KeyValue>>,
                      table: map<DocKey, Document>, listing: seq<Found>, staged: map<DocKey, Staged>, read: seq<Found>,
                      added: seq<Found>, sorted: seq<Found>, size: nat)
    requires |equals| <= |index.fields|
    requires Lists(view, index, listing, table) && forall key :: key in table ==> table[key].key == key
    requires Elements(added) == PlacedRows(view, index, equals, after, staged, staged.Keys)
    requires read == Take(PageRows(equals, after, Orders(view, index), listing), size + 1 + |staged|)
    requires sorted == Sorted(Visible(read, staged.Keys) + added, Orders(view, index), |equals|)
    ensures forall row :: row in Take(sorted, size) ==> row in Matching(view, index, equals, after, table, staged)
  {
    var order := Orders(view, index);
    var rows := PageRows(equals, after, order, listing);
    hide *;
    MatchingRows(view, index, equals, after, table, listing, staged, added);
    SortedMembers(Visible(read, staged.Keys) + added, order, |equals|);
    VisibleMembers(rows, staged.Keys);
    VisibleMembers(read, staged.Keys);
    TakeMembers(rows, size + 1 + |staged|);
    TakeMembers(sorted, size);
    forall row | row in Take(sorted, size)
      ensures row in Matching(view, index, equals, after, table, staged)
    {
      assert row in multiset(sorted);
      assert row in Visible(read, staged.Keys) + added;
      ElementsAre(Visible(rows, staged.Keys), row);
      ElementsAre(added, row);
    }
  }

  lemma TakeMembers(rows: seq<Found>, most: nat)
    ensures |Take(rows, most)| <= most && (most <= |rows| ==> |Take(rows, most)| == most)
    ensures forall row :: row in Take(rows, most) ==> row in rows
  {
  }

  lemma ElementsAre(rows: seq<Found>, row: Found)
    ensures row in Elements(rows) <==> row in rows
  {
  }

  lemma FirstAreMembers(rows: seq<Found>, all: set<Found>, size: nat, order: seq<Order>, more: bool)
    requires PageIs(rows, more, all, size, order)
    ensures forall row :: row in rows ==> row in all
  {
  }

  lemma ListsInOrder(view: ViewSpec, index: IndexSpec, listing: seq<Found>, table: map<DocKey, Document>)
    requires Lists(view, index, listing, table)
    ensures IndexListing(listing, Orders(view, index))
  {
  }

  lemma PageOfList(sorted: seq<Found>, all: set<Found>, size: nat, order: seq<Order>)
    ensures ExactPage(sorted, all, size, order) ==> PageIs(Take(sorted, size), size < |sorted|, all, size, order)
    ensures 0 < size < |sorted| ==> Take(sorted, size) != []
  {
  }

  /** The page of an index after a position; refused when a staged body has no
      position. */
  method ReadPage(view: ViewSpec, index: IndexSpec, equals: seq<KeyValue>, after: Option<seq<KeyValue>>, size: nat,
                  listing: seq<Found>, ghost table: map<DocKey, Document>, staged: map<DocKey, Staged>)
    returns (rows: Result<seq<Found>, Refusal>, more: bool)
    requires |equals| <= |index.fields|
    requires after.Some? ==> |equals| + |after.value| == |Orders(view, index)|
    requires Lists(view, index, listing, table)
    requires forall key :: key in table ==> table[key].key == key && FitsKey(view, key)
    ensures rows.Err? <==> exists key :: key in staged && Unplaceable(view, index, equals, key, staged[key])
    ensures rows.Err? ==> rows.error == MalformedKey
    ensures rows.Ok? ==> |rows.value| <= size && (more ==> |rows.value| == size)
    ensures rows.Ok? ==> forall row :: row in rows.value ==> row in Matching(view, index, equals, after, table, staged)
    ensures rows.Ok? && FittingStage(view, staged) ==>
              PageIs(rows.value, more, Matching(view, index, equals, after, table, staged), size, Orders(view, index))
  {
    hide *;
    var order := Orders(view, index);
    ListsInOrder(view, index, listing, table);
    var read := ReadSeeks(listing, equals, after, order, size + 1 + |staged|);
    if staged == map[] {
      UnstagedAnswer(view, index, equals, after, size, listing, table, read);
      FirstAreMembers(Take(read, size), Matching(view, index, equals, after, table, map[]), size, order, |read| > size);
      PageOfList(read, Matching(view, index, equals, after, table, map[]), size, order);
      TakeMembers(read, size);
      rows, more := Ok(Take(read, size)), |read| > size;
    } else {
      var added := PlaceStaged(view, index, equals, after, staged);
      if added.Err? {
        return Err(added.error), false;
      }
      var sorted := Sorted(Visible(read, staged.Keys) + added.value, order, |equals|);
      StagedMembers(view, index, equals, after, table, listing, staged, read, added.value, sorted, size);
      if FittingStage(view, staged) {
        StagedAnswer(view, index, equals, after, size, listing, table, staged, added.value, sorted,
                     Matching(view, index, equals, after, table, staged));
      }
      PageOfList(sorted, Matching(view, index, equals, after, table, staged), size, order);
      TakeMembers(sorted, size);
      rows, more := Ok(Take(sorted, size)), |sorted| > size;
    }
  }

  lemma PageReads(rows: seq<Found>, more: bool, all: set<Found>, size: nat, order: seq<Order>, identity: string, fixed: nat, page: Page)
    requires 0 < size && |rows| <= size && (more ==> |rows| == size)
    requires forall row :: row in rows ==> row in all
    requires page == Page(rows, if more then Some(identity + Cursors.EncodeAll(Position(rows[|rows| - 1], fixed))) else None)
    ensures MatchingPage(page, all, size, identity, fixed)
    ensures PageIs(rows, more, all, size, order) ==>
              && IsPage(page, all, size, order, identity, fixed) && |rows| == (if |all| <= size then |all| else size)
              && (page.next.Some? <==> size < |all|)
  {
    hide InOrder, Position;
  }

  /** What the page read answers, and how much of it there is. */
  lemma PageAnswers(project: string, view: ViewSpec, generation: int, query: IndexQuery, table: map<DocKey, Document>,
                    staged: map<DocKey, Staged>, index: IndexSpec, after: Option<seq<KeyValue>>, rows: seq<Found>, more: bool, page: Page)
    requires IndexNamed(view.indexes, query.index) == Some(index) && EqualsFit(index, query.equals)
    requires After(project, view, generation, query, index) == Ok(after)
    requires 0 < PageSize(view, query.limit) && |rows| <= PageSize(view, query.limit)
    requires more ==> |rows| == PageSize(view, query.limit)
    requires forall key :: key in staged ==> !Unplaceable(view, index, query.equals, key, staged[key])
    requires forall row :: row in rows ==> row in Matching(view, index, query.equals, after, table, staged)
    requires FittingStage(view, staged) ==>
               PageIs(rows, more, Matching(view, index, query.equals, after, table, staged), PageSize(view, query.limit), Orders(view, index))
    requires page == Page(rows, if more then Some(Identity(project, view, generation, query)
                                                  + Cursors.EncodeAll(Position(rows[|rows| - 1], |query.equals|))) else None)
    ensures Answers(project, view, generation, query, table, staged, Ok(page))
    ensures FittingStage(view, staged) ==>
              var all := |Wanted(project, view, generation, query, table, staged)|;
              && |rows| == (if all <= PageSize(view, query.limit) then all else PageSize(view, query.limit))
              && (page.next.Some? <==> PageSize(view, query.limit) < all)
  {
    PageReads(rows, more, Matching(view, index, query.equals, after, table, staged), PageSize(view, query.limit), Orders(view, index),
              Identity(project, view, generation, query), |query.equals|, page);
    hide Matching, Orders, Unplaceable, FittingStage, PageSize, After, EqualsFit, IndexNamed, PageIs, IsPage, MatchingPage, Identity, Position;
  }

  /** `find_with_staged`. */
  method FindWithStaged(project: string, view: ViewSpec, generation: int, query: IndexQuery, stored: StoredView, staged: map<DocKey, Staged>)
    returns (answer: Result<Page, Refusal>)
    requires StoredRows(view, stored)
    ensures Answers(project, view, generation, query, stored.table, staged, answer)
    ensures answer.Ok? ==> |answer.value.items| <= query.limit && |answer.value.items| <= view.pageBound
    ensures answer.Ok? && FittingStage(view, staged) ==>
              var all := |Wanted(project, view, generation, query, stored.table, staged)|;
              && (|answer.value.items| == query.limit || |answer.value.items| == view.pageBound || |answer.value.items| == all)
              && |answer.value.items| <= all
              && (answer.value.next.Some? <==> 0 < query.limit && 0 < view.pageBound && (query.limit < all || view.pageBound < all))
  {
    hide Matching, Orders, InOrder, FirstOf, PageIs, IsPage, MatchingPage, Unplaceable, FittingStage;
    var named := IndexNamed(view.indexes, query.index);
    if named.None? {
      return Err(UndeclaredIndex);
    }
    var index := named.value;
    if !EqualsFit(index, query.equals) {
      return Err(MalformedKey);
    }
    var after := After(project, view, generation, query, index);
    if after.Err? {
      return Err(after.error);
    }
    var size := PageSize(view, query.limit);
    if size == 0 {
      return Ok(Page([], None));
    }
    var rows, more := ReadPage(view, index, query.equals, after.value, size, stored.listings[query.index], stored.table, staged);
    if rows.Err? {
      return Err(rows.error);
    }
    var page;
    if more {
      var last := rows.value[|rows.value| - 1];
      page := Page(rows.value, Some(Identity(project, view, generation, query) + Cursors.EncodeAll(Position(last, |query.equals|))));
    } else {
      page := Page(rows.value, None);
    }
    PageAnswers(project, view, generation, query, stored.table, staged, index, after.value, rows.value, more, page);
    hide Answers, Wanted;
    answer := Ok(page);
  }
}
