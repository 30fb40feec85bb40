/** Following a query's cursors from page to page until none is left
    (crates/baley-store-sqlite/src/claim.rs, the loop of `open_claims_in`). */
module Following {
  import opened Wrappers
  import opened Values
  import opened Ordering
  import opened Sequences
  import opened Seeks
  import opened Views
  import opened Paging
  import Cursors

  /** What the stored types give: i64 integers, and texts of addressable size. */
  predicate StorableAll(values: seq<KeyValue>) {
    forall value :: value in values ==> Cursors.Storable(value)
  }

  /** Every matching row can be named in a cursor of the query. */
  ghost predicate Nameable(view: ViewSpec, index: IndexSpec, equals: seq<KeyValue>, all: set<Found>)
    requires |equals| <= |index.fields|
  {
    forall row :: row in all ==>
      StorableAll(row.columns) && Fitted(Position(row, |equals|), Kinds(view, index)[|equals|..])
  }

  ghost predicate StorableDocuments(view: ViewSpec, index: IndexSpec, table: map<DocKey, Document>, staged: map<DocKey, Staged>) {
    forall document :: document in Overlaid(view, table, staged) ==> StorableAll(Columns(view, index, document))
  }

  lemma KeyTail(view: ViewSpec, index: IndexSpec, document: Document, at: nat)
    requires FitsKey(view, document.key)
    requires at < |index.fields| + |view.key|
    requires at < |index.fields| ==> Field(document.body, index.fields[at].name, index.fields[at].kind).Some?
    ensures KindOf(Columns(view, index, document)[at]) == Kinds(view, index)[at]
  {
    if at >= |index.fields| {
      assert KindsOf(document.key)[at - |index.fields|] == KeyKinds(view)[at - |index.fields|];
    }
  }

  /** From the equality values on, the fields are present and the key fits. */
  predicate Complete(view: ViewSpec, index: IndexSpec, fixed: nat, document: Document) {
    && FitsKey(view, document.key)
    && forall at :: fixed <= at < |index.fields| ==>
         Field(document.body, index.fields[at].name, index.fields[at].kind).Some?
  }

  lemma CompleteIsFitted(view: ViewSpec, index: IndexSpec, equals: seq<KeyValue>, document: Document)
    requires |equals| <= |index.fields| && Complete(view, index, |equals|, document)
    ensures Fitted(Position(AsFound(view, index, document), |equals|), Kinds(view, index)[|equals|..])
  {
    var tail := Kinds(view, index)[|equals|..];
    var position := Position(AsFound(view, index, document), |equals|);
    forall at | 0 <= at < |tail| ensures KindsOf(position)[at] == tail[at] {
      KeyTail(view, index, document, |equals| + at);
    }
  }

  /** The rows laid over that match are complete from the equality values on. */
  lemma MatchesAreComplete(view: ViewSpec, index: IndexSpec, equals: seq<KeyValue>, table: map<DocKey, Document>,
                           staged: map<DocKey, Staged>, document: Document)
    requires index in view.indexes && |equals| <= |index.fields|
    requires forall key :: key in table ==> table[key].key == key && Writable(view, key, table[key].body)
    requires FittingStage(view, staged)
    requires forall key :: key in staged ==> !Unplaceable(view, index, equals, key, staged[key])
    requires document in Overlaid(view, table, staged) && equals <= Columns(view, index, document)
    ensures Complete(view, index, |equals|, document)
  {
    if key :| key in staged.Keys && staged[key].body.Some? && document == StagedDocument(view, key, staged[key]) {
      assert !Unplaceable(view, index, equals, key, staged[key]);
      StagedPlaces(view, index, equals, document);
    } else {
      assert document.key in table && document == table[document.key];
      assert Writable(view, document.key, document.body);
      forall at | |equals| <= at < |index.fields|
        ensures Field(document.body, index.fields[at].name, index.fields[at].kind).Some?
      {
        assert index.fields[at] in index.fields;
      }
    }
  }

  /** The matching rows of a query no staged body is unplaceable in. */
  lemma MatchingIsNameable(view: ViewSpec, index: IndexSpec, equals: seq<KeyValue>, table: map<DocKey, Document>,
                           staged: map<DocKey, Staged>)
    requires index in view.indexes && |equals| <= |index.fields|
    requires forall key :: key in table ==> table[key].key == key && Writable(view, key, table[key].body)
    requires FittingStage(view, staged)
    requires forall key :: key in staged ==> !Unplaceable(view, index, equals, key, staged[key])
    requires StorableDocuments(view, index, table, staged)
    ensures Nameable(view, index, equals, Matching(view, index, equals, None, table, staged))
  {
    hide Writable, Unplaceable, FittingStage, Columns, Kinds, Fitted, Overlaid, Complete, StorableAll, Position;
    forall row | row in Matching(view, index, equals, None, table, staged)
      ensures StorableAll(row.columns) && Fitted(Position(row, |equals|), Kinds(view, index)[|equals|..])
    {
      var document :| document in Overlaid(view, table, staged) && row == AsFound(view, index, document)
                      && InPage(equals, None, Orders(view, index), Columns(view, index, document));
      MatchesAreComplete(view, index, equals, table, staged, document);
      CompleteIsFitted(view, index, equals, document);
    }
  }

  // ----- one page further -----

  /** What is left after the last row of a page is everything after the page. */
  lemma RestOfPage(view: ViewSpec, index: IndexSpec, equals: seq<KeyValue>, after: Option<seq<KeyValue>>, table: map<DocKey, Document>,
                   staged: map<DocKey, Staged>, items: seq<Found>, size: nat)
    requires |equals| <= |index.fields|
    requires after.Some? ==> |equals| + |after.value| == |Orders(view, index)|
    requires FirstOf(items, Matching(view, index, equals, after, table, staged), size, Orders(view, index))
    requires items != []
    ensures Matching(view, index, equals, Some(Position(items[|items| - 1], |equals|)), table, staged)
            == Matching(view, index, equals, after, table, staged) - Elements(items)
    ensures |Position(items[|items| - 1], |equals|)| + |equals| == |Orders(view, index)|
  {
    var order := Orders(view, index);
    var last := items[|items| - 1];
    var all := Matching(view, index, equals, after, table, staged);
    assert last in items;
    assert last in all;
    assert equals + Position(last, |equals|) == last.columns;
    var rest := Matching(view, index, equals, Some(Position(last, |equals|)), table, staged);
    forall row | row in rest ensures row in all && row !in items {
      if after.Some? {
        PrecedesTransitive(equals + after.value, last.columns, row.columns, order);
      }
      CompareReverses(last.columns, row.columns, order);
      forall at | 0 <= at < |items| ensures !Precedes(last.columns, items[at].columns, order) {
        CompareReverses(last.columns, items[at].columns, order);
      }
    }
    forall row | row in all && row !in items ensures row in rest {
      assert Precedes(last.columns, row.columns, order);
    }
  }

  function WithCursor(index: string, equals: seq<KeyValue>, limit: nat, after: Option<string>): IndexQuery {
    IndexQuery(index, equals, limit, after)
  }

  /** The cursor a page issues at its last row reads back as that row's place. */
  lemma CursorOfRow(project: string, view: ViewSpec, generation: int, name: string, equals: seq<KeyValue>, limit: nat,
                    index: IndexSpec, row: Found)
    requires |equals| <= |index.fields|
    requires StorableAll(row.columns) && Fitted(Position(row, |equals|), Kinds(view, index)[|equals|..])
    ensures var issued := Identity(project, view, generation, WithCursor(name, equals, limit, None))
                          + Cursors.EncodeAll(Position(row, |equals|));
            After(project, view, generation, WithCursor(name, equals, limit, Some(issued)), index)
            == Ok(Some(Position(row, |equals|)))
  {
    var position := Position(row, |equals|);
    forall value | value in position ensures Cursors.Storable(value) {
      assert value in row.columns;
    }
    Cursors.CursorRoundTrip(Cursors.ViewQuery(project, view.name, view.version, generation, name, equals), position);
  }

  /** A query that can be followed: its index is declared, its equality values
      fit, every staged body has a place and every match can be named. */
  ghost predicate Followable(view: ViewSpec, name: string, equals: seq<KeyValue>, stored: StoredView, staged: map<DocKey, Staged>) {
    && StoredRows(view, stored) && FittingStage(view, staged)
    && IndexNamed(view.indexes, name).Some?
    && var index := IndexNamed(view.indexes, name).value;
    && EqualsFit(index, equals)
    && (forall key :: key in staged ==> !Unplaceable(view, index, equals, key, staged[key]))
    && StorableDocuments(view, index, stored.table, staged)
  }

  /** One turn of the loop: the next page, and where the one after it starts. */
  method ReadOn(project: string, view: ViewSpec, generation: int, name: string, ghost index: IndexSpec, equals: seq<KeyValue>,
                limit: nat, after: Option<string>, ghost position: Option<seq<KeyValue>>, stored: StoredView, staged: map<DocKey, Staged>)
    returns (page: Page, ghost rest: Option<seq<KeyValue>>)
    requires Followable(view, name, equals, stored, staged)
    requires IndexNamed(view.indexes, name) == Some(index)
    requires 0 < PageSize(view, limit)
    requires After(project, view, generation, WithCursor(name, equals, limit, after), index) == Ok(position)
    ensures FirstOf(page.items, Matching(view, index, equals, position, stored.table, staged), PageSize(view, limit),
                    Orders(view, index))
    ensures page.next.None? ==> |Matching(view, index, equals, position, stored.table, staged)| <= PageSize(view, limit)
    ensures page.next.Some? ==>
              && page.items != []
              && After(project, view, generation, WithCursor(name, equals, limit, page.next), index) == Ok(rest)
              && Matching(view, index, equals, rest, stored.table, staged)
                 == Matching(view, index, equals, position, stored.table, staged) - Elements(page.items)
  {
    hide Matching, FirstOf, Orders, Kinds, Unplaceable, StorableDocuments, StoredRows, FittingStage, Cursors.CursorPosition,
         Cursors.EncodeAll, Cursors.ViewIdentity;
    var answer := FindWithStaged(project, view, generation, WithCursor(name, equals, limit, after), stored, staged);
    page, rest := answer.value, None;
    ghost var all := Matching(view, index, equals, position, stored.table, staged);
    NonEmptyPage(page.items, all, PageSize(view, limit), Orders(view, index));
    if page.next.Some? {
      NextPage(project, view, generation, name, index, equals, limit, position, stored, staged, page.items);
      rest := Some(Position(page.items[|page.items| - 1], |equals|));
    }
  }

  /** The cursor at the last row of a page starts where the page ends. */
  lemma NextPage(project: string, view: ViewSpec, generation: int, name: string, index: IndexSpec, equals: seq<KeyValue>,
                 limit: nat, position: Option<seq<KeyValue>>, stored: StoredView, staged: map<DocKey, Staged>, items: seq<Found>)
    requires Followable(view, name, equals, stored, staged)
    requires IndexNamed(view.indexes, name) == Some(index)
    requires position.Some? ==> |equals| + |position.value| == |Orders(view, index)|
    requires FirstOf(items, Matching(view, index, equals, position, stored.table, staged), PageSize(view, limit), Orders(view, index))
    requires items != []
    ensures var rest := Position(items[|items| - 1], |equals|);
            && After(project, view, generation,
                     WithCursor(name, equals, limit, Some(Identity(project, view, generation, WithCursor(name, equals, limit, None))
                                                          + Cursors.EncodeAll(rest))), index) == Ok(Some(rest))
            && Matching(view, index, equals, Some(rest), stored.table, staged)
               == Matching(view, index, equals, position, stored.table, staged) - Elements(items)
  {
    var last := items[|items| - 1];
    var all := Matching(view, index, equals, position, stored.table, staged);
    assert last in items;
    assert last in all;
    RestOfPage(view, index, equals, position, stored.table, staged, items, PageSize(view, limit));
    LaterMatches(view, index, equals, position, stored.table, staged);
    MatchingIsNameable(view, index, equals, stored.table, staged);
    CursorOfRow(project, view, generation, name, equals, limit, index, last);
  }

  lemma NonEmptyPage(items: seq<Found>, all: set<Found>, size: nat, order: seq<Order>)
    requires FirstOf(items, all, size, order) && 0 < size
    ensures items == [] ==> |all| <= size
  {
  }

  lemma LaterMatches(view: ViewSpec, index: IndexSpec, equals: seq<KeyValue>, after: Option<seq<KeyValue>>, table: map<DocKey, Document>,
                     staged: map<DocKey, Staged>)
    ensures Matching(view, index, equals, after, table, staged) <= Matching(view, index, equals, None, table, staged)
  {
  }

  lemma MatchesFit(view: ViewSpec, index: IndexSpec, equals: seq<KeyValue>, after: Option<seq<KeyValue>>, table: map<DocKey, Document>,
                   staged: map<DocKey, Staged>)
    ensures AllFit(Matching(view, index, equals, after, table, staged), Orders(view, index))
  {
  }

  ghost predicate AllFit(rows: set<Found>, order: seq<Order>) {
    forall row :: row in rows ==> Fits(row.columns, order)
  }

  /** Reading from cursor to cursor until a page has none lists every match,
      in order and once each, whatever the page size. */
  method ReadAll(project: string, view: ViewSpec, generation: int, name: string, equals: seq<KeyValue>, limit: nat,
                 stored: StoredView, staged: map<DocKey, Staged>)
    returns (items: seq<Found>)
    requires Followable(view, name, equals, stored, staged)
    requires 0 < PageSize(view, limit)
    ensures var index := IndexNamed(view.indexes, name).value;
            ListsAll(items, Matching(view, index, equals, None, stored.table, staged), Orders(view, index))
  {
    ghost var index := IndexNamed(view.indexes, name).value;
    ghost var order := Orders(view, index);
    ghost var position: Option<seq<KeyValue>> := None;
    ghost var all := Matching(view, index, equals, None, stored.table, staged);
    ghost var left := all;
    MatchesFit(view, index, equals, None, stored.table, staged);
    hide *;
    items := [];
    NothingRead(all, order);
    var after: Option<string> := None;
    var more := true;
    StartsAtTheStart(project, view, generation, name, equals, limit, index);
    while more
      invariant After(project, view, generation, WithCursor(name, equals, limit, after), index) == Ok(position)
      invariant more ==> left == Matching(view, index, equals, position, stored.table, staged)
      invariant !more ==> left == {}
      invariant Reading(items, left, all, order)
      decreases more, |left|
    {
      ghost var rest;
      var page;
      page, rest := ReadOn(project, view, generation, name, index, equals, limit, after, position, stored, staged);
      OnePageMore(items, page.items, all, left, PageSize(view, limit), order);
      items := items + page.items;
      left := left - Elements(page.items);
      if page.next.None? {
        break;
      }
      after, position := page.next, rest;
    }
    EverythingRead(items, all, order);
  }

  /** The whole set, in order, each row once. */
  ghost predicate ListsAll(items: seq<Found>, all: set<Found>, order: seq<Order>) {
    InOrder(items, order) && Distinct(items) && Elements(items) == all
  }

  /** Everything but what is left has been read, and stands before it. */
  ghost predicate Reading(items: seq<Found>, left: set<Found>, all: set<Found>, order: seq<Order>) {
    && left <= all && Elements(items) == all - left && AllFit(all, order)
    && InOrder(items, order)
    && forall item, row :: item in items && row in left ==> Precedes(item.columns, row.columns, order)
  }

  lemma NothingRead(all: set<Found>, order: seq<Order>)
    requires AllFit(all, order)
    ensures Reading([], all, all, order)
  {
  }

  lemma EverythingRead(items: seq<Found>, all: set<Found>, order: seq<Order>)
    requires Reading(items, {}, all, order)
    ensures ListsAll(items, all, order)
  {
    forall item | item in items ensures Fits(item.columns, order) {
      assert item in Elements(items);
    }
    InOrderIsDistinct(items, order);
  }

  lemma StartsAtTheStart(project: string, view: ViewSpec, generation: int, name: string, equals: seq<KeyValue>, limit: nat,
                         index: IndexSpec)
    requires |equals| <= |index.fields|
    ensures After(project, view, generation, WithCursor(name, equals, limit, None), index) == Ok(None)
  {
  }

  lemma OnePageMore(items: seq<Found>, more: seq<Found>, all: set<Found>, left: set<Found>, size: nat, order: seq<Order>)
    requires Reading(items, left, all, order)
    requires FirstOf(more, left, size, order)
    ensures Reading(items + more, left - Elements(more), all, order)
    ensures |left| <= size ==> left - Elements(more) == {}
    ensures more != [] ==> |left - Elements(more)| < |left|
  {
    OrdersAppend(items, more, order);
    assert Elements(items + more) == Elements(items) + Elements(more);
    PageSizes(more, left, size, order);
  }

  lemma OrdersAppend(items: seq<Found>, more: seq<Found>, order: seq<Order>)
    requires InOrder(items, order) && InOrder(more, order)
    requires forall item, row :: item in items && row in more ==> Precedes(item.columns, row.columns, order)
    ensures InOrder(items + more, order)
  {
    forall i, j | 0 <= i < |items| <= j < |items + more|
      ensures Precedes((items + more)[i].columns, (items + more)[j].columns, order)
    {
      assert items[i] in items && more[j - |items|] in more;
    }
  }

  lemma PageSizes(more: seq<Found>, left: set<Found>, size: nat, order: seq<Order>)
    requires AllFit(left, order) && FirstOf(more, left, size, order)
    ensures Elements(more) <= left
    ensures |left| <= size ==> left - Elements(more) == {}
    ensures more != [] ==> |left - Elements(more)| < |left|
  {
    InOrderIsDistinct(more, order);
    var rest := left - Elements(more);
    assert left == rest + Elements(more);
    assert |left| == |rest| + |Elements(more)|;
  }
}
