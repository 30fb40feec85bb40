/** What a page is, in terms of documents and their fields alone
    (crates/baley-store-sqlite/src/view.rs, `find_with_staged`): which documents
    match, in what order they come, and where a cursor takes up. */
module PageMeanings {
  import opened Wrappers
  import opened Values
  import opened Ordering
  import opened Seeks
  import opened Sequences
  import opened Views
  import opened Paging
  import Following
  import Cursors

  // ----- the order of values -----

  /** A text is below another where the first byte that differs is, or where it
      ends first. */
  predicate TextBelow(a: string, b: string) {
    exists at :: 0 <= at <= |a| && at < |b| && a[..at] == b[..at] && (at == |a| || a[at] < b[at])
  }

  predicate Below(a: KeyValue, b: KeyValue) {
    if a.Text? && b.Text? then TextBelow(a.text, b.text)
    else if a.Integer? && b.Integer? then a.number < b.number
    else a.Text? && b.Integer?
  }

  lemma {:induction false} TextsBelow(a: string, b: string)
    ensures CompareTexts(a, b) == Less <==> TextBelow(a, b)
  {
    if a != "" && b != "" {
      TextsBelow(a[1..], b[1..]);
      if TextBelow(a[1..], b[1..]) && a[0] == b[0] {
        var at :| 0 <= at <= |a[1..]| && at < |b[1..]| && a[1..][..at] == b[1..][..at] && (at == |a[1..]| || a[1..][at] < b[1..][at]);
        assert a[..at + 1] == [a[0]] + a[1..][..at] && b[..at + 1] == [b[0]] + b[1..][..at];
      }
      if a[0] < b[0] {
        assert a[..0] == b[..0];
      }
      if TextBelow(a, b) {
        var at :| 0 <= at <= |a| && at < |b| && a[..at] == b[..at] && (at == |a| || a[at] < b[at]);
        if at > 0 {
          assert a[..at][0] == b[..at][0];
          assert a[1..][..at - 1] == a[..at][1..] && b[1..][..at - 1] == b[..at][1..];
        }
      }
    } else if a == "" && b != "" {
      assert a[..0] == b[..0];
    }
  }

  /** Values compare as `KeyValue` orders them: texts by bytes, integers by
      size, every text before every integer. */
  lemma ValuesBelow(a: KeyValue, b: KeyValue)
    ensures CompareValues(a, b) == Less <==> Below(a, b)
  {
    if a.Text? && b.Text? {
      TextsBelow(a.text, b.text);
    }
  }

  // ----- the order of rows -----

  predicate Passes(a: KeyValue, b: KeyValue, order: Order) {
    if order.Descending? then Below(b, a) else Below(a, b)
  }

  predicate ColumnsBefore(a: seq<KeyValue>, b: seq<KeyValue>, order: seq<Order>) {
    exists at :: 0 <= at < |a| && at < |b| && at < |order| && a[..at] == b[..at] && Passes(a[at], b[at], order[at])
  }

  /** The first column that differs decides, in its own direction. */
  lemma {:induction false} FirstDifferenceDecides(a: seq<KeyValue>, b: seq<KeyValue>, order: seq<Order>)
    requires Fits(a, order) && Fits(b, order)
    ensures Precedes(a, b, order) <==> ColumnsBefore(a, b, order)
  {
    if order != [] {
      ValuesBelow(a[0], b[0]);
      ValuesBelow(b[0], a[0]);
      ColumnsReverse(a[0], b[0], order[0]);
      FirstDifferenceDecides(a[1..], b[1..], order[1..]);
      hide Below;
      if a[0] == b[0] && ColumnsBefore(a[1..], b[1..], order[1..]) {
        var at :| 0 <= at < |a[1..]| && a[1..][..at] == b[1..][..at] && Passes(a[1..][at], b[1..][at], order[1..][at]);
        assert a[..at + 1] == [a[0]] + a[1..][..at] && b[..at + 1] == [b[0]] + b[1..][..at];
      }
      if Passes(a[0], b[0], order[0]) {
        assert a[..0] == b[..0];
      }
      if ColumnsBefore(a, b, order) {
        var at :| 0 <= at < |a| && a[..at] == b[..at] && Passes(a[at], b[at], order[at]);
        if at > 0 {
          assert a[..at][0] == b[..at][0];
          assert a[1..][..at - 1] == a[..at][1..] && b[1..][..at - 1] == b[..at][1..];
        }
      }
    }
  }

  // ----- documents and their fields -----

  /** What a document shows at a place of the index order: an index field of its
      body, then the values of its key. */
  function Slot(view: ViewSpec, index: IndexSpec, document: Document, at: nat): Option<KeyValue> {
    if at < |index.fields| then
      var field := index.fields[at];
      if field.name in document.body.fields && (document.body.fields[field.name].Text? <==> field.kind.TextKind?)
      then Some(document.body.fields[field.name]) else None
    else if at - |index.fields| < |document.key| then Some(document.key[at - |index.fields|])
    else None
  }

  function Places(view: ViewSpec, index: IndexSpec): nat {
    |index.fields| + |view.key|
  }

  /** Every place is filled, and the key is no longer than the view declares. */
  predicate Filled(view: ViewSpec, index: IndexSpec, document: Document) {
    |document.key| == |view.key| && forall at: nat :: at < |index.fields| ==> Slot(view, index, document, at).Some?
  }

  predicate Descends(index: IndexSpec, at: nat) {
    at < |index.fields| && index.fields[at].order.Descending?
  }

  /** Two documents at the first place where they differ. */
  predicate DiffersFirst(view: ViewSpec, index: IndexSpec, a: Document, b: Document, at: nat) {
    && at < Places(view, index)
    && (forall earlier: nat :: earlier < at ==> Slot(view, index, a, earlier) == Slot(view, index, b, earlier))
    && Slot(view, index, a, at).Some? && Slot(view, index, b, at).Some?
    && if Descends(index, at) then Below(Slot(view, index, b, at).value, Slot(view, index, a, at).value)
       else Below(Slot(view, index, a, at).value, Slot(view, index, b, at).value)
  }

  ghost predicate ComesBefore(view: ViewSpec, index: IndexSpec, a: Document, b: Document) {
    exists at: nat :: DiffersFirst(view, index, a, b, at)
  }

  lemma SlotsAreColumns(view: ViewSpec, index: IndexSpec, document: Document, at: nat)
    requires Filled(view, index, document) && at < Places(view, index)
    ensures Slot(view, index, document, at) == Some(Columns(view, index, document)[at])
    ensures Orders(view, index)[at].Descending? <==> Descends(index, at)
  {
  }

  /** Documents stand in a page by the first declared index field in which they
      differ, in that field's own direction, and then by key. */
  lemma PageOrderIsDeclared(view: ViewSpec, index: IndexSpec, a: Document, b: Document)
    requires Filled(view, index, a) && Filled(view, index, b)
    ensures Precedes(Columns(view, index, a), Columns(view, index, b), Orders(view, index)) <==> ComesBefore(view, index, a, b)
  {
    var left, right, order := Columns(view, index, a), Columns(view, index, b), Orders(view, index);
    FirstDifferenceDecides(left, right, order);
    forall at: nat | at < Places(view, index)
      ensures Slot(view, index, a, at) == Some(left[at]) && Slot(view, index, b, at) == Some(right[at])
      ensures order[at].Descending? <==> Descends(index, at)
    {
      SlotsAreColumns(view, index, a, at);
      SlotsAreColumns(view, index, b, at);
    }
    hide Slot, Below, Columns, Orders, Descends;
    if ColumnsBefore(left, right, order) {
      var at: nat :| at < |left| && left[..at] == right[..at] && Passes(left[at], right[at], order[at]);
      forall earlier: nat | earlier < at ensures Slot(view, index, a, earlier) == Slot(view, index, b, earlier) {
        assert left[..at][earlier] == right[..at][earlier];
      }
      assert DiffersFirst(view, index, a, b, at);
    }
    if ComesBefore(view, index, a, b) {
      var at: nat :| DiffersFirst(view, index, a, b, at);
      forall earlier | 0 <= earlier < at ensures left[earlier] == right[earlier] {
        assert Slot(view, index, a, earlier) == Slot(view, index, b, earlier);
      }
      assert left[..at] == right[..at];
    }
  }

  /** A document past a position of the order after the equality values. */
  predicate PastAt(view: ViewSpec, index: IndexSpec, fixed: nat, position: seq<KeyValue>, document: Document, at: nat) {
    && fixed <= at < Places(view, index) && at - fixed < |position|
    && (forall earlier: nat :: fixed <= earlier < at ==> Slot(view, index, document, earlier) == Some(position[earlier - fixed]))
    && Slot(view, index, document, at).Some?
    && if Descends(index, at) then Below(Slot(view, index, document, at).value, position[at - fixed])
       else Below(position[at - fixed], Slot(view, index, document, at).value)
  }

  ghost predicate Past(view: ViewSpec, index: IndexSpec, fixed: nat, position: seq<KeyValue>, document: Document) {
    exists at: nat :: PastAt(view, index, fixed, position, document, at)
  }

  /** The equality values are the document's own first fields. */
  predicate HasValues(view: ViewSpec, index: IndexSpec, equals: seq<KeyValue>, document: Document) {
    forall at: nat :: at < |equals| ==> Slot(view, index, document, at) == Some(equals[at])
  }

  /** A document is in the page exactly where it has the equality values and
      stands past the cursor's position, if there is one. */
  lemma PageMembersAreDeclared(view: ViewSpec, index: IndexSpec, equals: seq<KeyValue>, after: Option<seq<KeyValue>>, document: Document)
    requires Filled(view, index, document) && |equals| <= |index.fields|
    requires after.Some? ==> |equals| + |after.value| == Places(view, index)
    ensures InPage(equals, after, Orders(view, index), Columns(view, index, document))
            <==> HasValues(view, index, equals, document) && (after.Some? ==> Past(view, index, |equals|, after.value, document))
  {
    var columns, order := Columns(view, index, document), Orders(view, index);
    forall at: nat | at < Places(view, index)
      ensures Slot(view, index, document, at) == Some(columns[at]) && (order[at].Descending? <==> Descends(index, at))
    {
      SlotsAreColumns(view, index, document, at);
    }
    hide Slot, Below, Columns, Orders, Descends;
    assert HasValues(view, index, equals, document) <==> equals <= columns by {
      if equals <= columns {
        forall at: nat | at < |equals| ensures Slot(view, index, document, at) == Some(equals[at]) {
          assert columns[..|equals|][at] == equals[at];
        }
      }
      if HasValues(view, index, equals, document) {
        forall at: nat | at < |equals| ensures columns[at] == equals[at] {
          assert Slot(view, index, document, at) == Some(equals[at]);
        }
      }
    }
    if after.Some? && equals <= columns {
      FirstDifferenceDecides(equals + after.value, columns, order);
      PastIsByColumns(view, index, equals, after.value, document, columns, order);
    }
  }

  lemma PastIsByColumns(view: ViewSpec, index: IndexSpec, equals: seq<KeyValue>, position: seq<KeyValue>, document: Document,
                        columns: seq<KeyValue>, order: seq<Order>)
    requires |columns| == |order| == Places(view, index) == |equals| + |position| && equals <= columns
    requires forall at: nat :: at < Places(view, index) ==>
               Slot(view, index, document, at) == Some(columns[at]) && (order[at].Descending? <==> Descends(index, at))
    ensures ColumnsBefore(equals + position, columns, order) <==> Past(view, index, |equals|, position, document)
  {
    hide Slot, Below, Descends;
    var start := equals + position;
    if ColumnsBefore(start, columns, order) {
      var at: nat :| at < |start| && start[..at] == columns[..at] && Passes(start[at], columns[at], order[at]);
      if at < |equals| {
        assert start[at] == columns[at];
        BelowIsStrict(start[at]);
      }
      forall earlier: nat | |equals| <= earlier < at ensures Slot(view, index, document, earlier) == Some(position[earlier - |equals|]) {
        assert start[..at][earlier] == columns[..at][earlier];
      }
      assert PastAt(view, index, |equals|, position, document, at);
    }
    if Past(view, index, |equals|, position, document) {
      var at: nat :| PastAt(view, index, |equals|, position, document, at);
      forall earlier | 0 <= earlier < at ensures start[earlier] == columns[earlier] {
        if earlier >= |equals| {
          assert Slot(view, index, document, earlier) == Some(position[earlier - |equals|]);
        }
      }
      assert start[..at] == columns[..at];
    }
  }

  lemma BelowIsStrict(value: KeyValue)
    ensures !Below(value, value)
  {
    ValuesBelow(value, value);
    ColumnsReverse(value, value, Ascending);
  }

  // ----- what a query answers -----

  /** A document a reader of the transaction sees: a staged body, or a stored row
      that no staged change hides. */
  predicate Seen(view: ViewSpec, table: map<DocKey, Document>, staged: map<DocKey, Staged>, document: Document) {
    if document.key in staged then
      && staged[document.key].body.Some?
      && document == Document(document.key, staged[document.key].producedSeq, view.version, staged[document.key].body.value)
    else document.key in table && table[document.key] == document
  }

  lemma OverlaidIsSeen(view: ViewSpec, table: map<DocKey, Document>, staged: map<DocKey, Staged>, document: Document)
    requires forall key :: key in table ==> table[key].key == key
    ensures document in Overlaid(view, table, staged) <==> Seen(view, table, staged, document)
  {
  }

  lemma FieldIsSlot(view: ViewSpec, index: IndexSpec, document: Document, at: nat)
    requires at < |index.fields|
    ensures Field(document.body, index.fields[at].name, index.fields[at].kind) == Slot(view, index, document, at)
  {
  }

  /** Reading the equality fields one by one stops at the first that is missing
      or differs. */
  lemma {:induction false} EqualityReads(fields: seq<IndexField>, equals: seq<KeyValue>, body: Body)
    requires |equals| <= |fields|
    ensures StagedMatches(fields, equals, body) == Ok(true)
            <==> forall at :: 0 <= at < |equals| ==> Field(body, fields[at].name, fields[at].kind) == Some(equals[at])
    ensures StagedMatches(fields, equals, body).Err?
            <==> exists at :: 0 <= at < |equals| && Field(body, fields[at].name, fields[at].kind).None?
                              && forall earlier :: 0 <= earlier < at ==>
                                   Field(body, fields[earlier].name, fields[earlier].kind) == Some(equals[earlier])
  {
    if equals != [] {
      var rest, values := fields[1..], equals[1..];
      EqualityReads(rest, values, body);
      hide Field;
      var first := Field(body, fields[0].name, fields[0].kind);
      if first == Some(equals[0]) {
        forall at | 0 <= at < |values| ensures rest[at] == fields[at + 1] && values[at] == equals[at + 1] {
        }
        if StagedMatches(rest, values, body).Err? {
          var at :| 0 <= at < |values| && Field(body, rest[at].name, rest[at].kind).None?
                    && forall earlier :: 0 <= earlier < at ==>
                         Field(body, rest[earlier].name, rest[earlier].kind) == Some(values[earlier]);
          forall earlier | 0 <= earlier < at + 1
            ensures Field(body, fields[earlier].name, fields[earlier].kind) == Some(equals[earlier])
          {
            assert earlier > 0 ==> rest[earlier - 1] == fields[earlier] && values[earlier - 1] == equals[earlier];
          }
          assert Field(body, fields[at + 1].name, fields[at + 1].kind).None?;
        }
        if at :| 0 <= at < |equals| && Field(body, fields[at].name, fields[at].kind).None?
                 && forall earlier :: 0 <= earlier < at ==>
                      Field(body, fields[earlier].name, fields[earlier].kind) == Some(equals[earlier]) {
          assert Field(body, rest[at - 1].name, rest[at - 1].kind).None?;
        }
      }
    }
  }

  /** A staged body that has no place in the index: the first equality field
      that is not as asked for is missing, or none is and a later index field
      is missing, or the key is shorter than declared. */
  predicate Homeless(view: ViewSpec, index: IndexSpec, equals: seq<KeyValue>, document: Document) {
    || (exists at: nat :: at < |equals| && Slot(view, index, document, at).None?
                          && forall earlier: nat :: earlier < at ==> Slot(view, index, document, earlier) == Some(equals[earlier]))
    || (HasValues(view, index, equals, document)
        && ((exists at: nat :: |equals| <= at < |index.fields| && Slot(view, index, document, at).None?)
            || |document.key| < |view.key|))
  }

  /** The staged bodies that make the query refuse are exactly those. */
  lemma RefusedBodiesAreDeclared(view: ViewSpec, index: IndexSpec, equals: seq<KeyValue>, document: Document)
    requires |equals| <= |index.fields|
    ensures StagedPosition(view, index, equals, document).Err? <==> Homeless(view, index, equals, document)
  {
    EqualityReads(index.fields, equals, document.body);
    forall at: nat | at < |index.fields|
      ensures Field(document.body, index.fields[at].name, index.fields[at].kind) == Slot(view, index, document, at)
    {
      FieldIsSlot(view, index, document, at);
    }
    hide Field, Slot, Columns;
  }

  /** What the query is about: a document seen with its equality values, past its
      cursor. */
  ghost predicate Asked(view: ViewSpec, index: IndexSpec, equals: seq<KeyValue>, after: Option<seq<KeyValue>>, table: map<DocKey, Document>,
                        staged: map<DocKey, Staged>, document: Document)
  {
    && Seen(view, table, staged, document) && HasValues(view, index, equals, document)
    && (after.Some? ==> Past(view, index, |equals|, after.value, document))
  }

  lemma AskedAreFilled(view: ViewSpec, index: IndexSpec, equals: seq<KeyValue>, table: map<DocKey, Document>, staged: map<DocKey, Staged>,
                       document: Document)
    requires index in view.indexes && |equals| <= |index.fields| && FittingStage(view, staged)
    requires forall key :: key in table ==> table[key].key == key && Writable(view, key, table[key].body)
    requires forall key :: key in staged ==> !Unplaceable(view, index, equals, key, staged[key])
    requires Seen(view, table, staged, document)
    requires HasValues(view, index, equals, document) || equals <= Columns(view, index, document)
    ensures Filled(view, index, document)
  {
    forall at: nat | at < |index.fields|
      ensures Field(document.body, index.fields[at].name, index.fields[at].kind) == Slot(view, index, document, at)
    {
      FieldIsSlot(view, index, document, at);
    }
    if document.key in staged {
      assert !Unplaceable(view, index, equals, document.key, staged[document.key]);
      assert document == StagedDocument(view, document.key, staged[document.key]);
      EqualityReads(index.fields, equals, document.body);
      StagedPlaces(view, index, equals, document);
      hide Field, Slot, Columns;
    } else {
      assert Writable(view, document.key, document.body);
      forall at: nat | at < |index.fields| ensures Slot(view, index, document, at).Some? {
        assert index.fields[at] in index.fields;
      }
    }
  }

  lemma MatchingIsAsked(view: ViewSpec, index: IndexSpec, equals: seq<KeyValue>, after: Option<seq<KeyValue>>, table: map<DocKey, Document>,
                        staged: map<DocKey, Staged>, document: Document)
    requires index in view.indexes && |equals| <= |index.fields| && FittingStage(view, staged)
    requires after.Some? ==> |equals| + |after.value| == Places(view, index)
    requires forall key :: key in table ==> table[key].key == key && Writable(view, key, table[key].body)
    requires forall key :: key in staged ==> !Unplaceable(view, index, equals, key, staged[key])
    ensures AsFound(view, index, document) in Matching(view, index, equals, after, table, staged)
            <==> Asked(view, index, equals, after, table, staged, document)
    ensures Asked(view, index, equals, after, table, staged, document) ==> Filled(view, index, document)
  {
    OverlaidIsSeen(view, table, staged, document);
    if Seen(view, table, staged, document)
       && (HasValues(view, index, equals, document) || equals <= Columns(view, index, document)) {
      AskedAreFilled(view, index, equals, table, staged, document);
      PageMembersAreDeclared(view, index, equals, after, document);
    }
    hide Slot, Columns, Orders, Below, Filled, Past, HasValues, Seen, Overlaid, Unplaceable, Writable;
  }

  /** A page that is answered is the first of what was asked: its documents are
      asked for, come in the declared order, and stand before every asked
      document it leaves out. */
  lemma PagesAreTheFirstAsked(project: string, view: ViewSpec, generation: int, query: IndexQuery, stored: StoredView,
                              staged: map<DocKey, Staged>, page: Page, index: IndexSpec, after: Option<seq<KeyValue>>)
    requires StoredRows(view, stored) && FittingStage(view, staged)
    requires IndexNamed(view.indexes, query.index) == Some(index) && EqualsFit(index, query.equals)
    requires Paging.After(project, view, generation, query, index) == Ok(after)
    requires 0 < query.limit && 0 < view.pageBound
    requires Answers(project, view, generation, query, stored.table, staged, Ok(page))
    ensures forall item :: item in page.items ==> Asked(view, index, query.equals, after, stored.table, staged, item.item)
    ensures forall i, j :: 0 <= i < j < |page.items| ==> ComesBefore(view, index, page.items[i].item, page.items[j].item)
    ensures forall document, item ::
              (Asked(view, index, query.equals, after, stored.table, staged, document) && item in page.items
               && forall other :: other in page.items ==> other.item != document)
              ==> ComesBefore(view, index, item.item, document)
  {
    var all := Matching(view, index, query.equals, after, stored.table, staged);
    NoneUnplaceable(project, view, generation, query, stored, staged, page, index, after);
    assert FirstOf(page.items, all, PageSize(view, query.limit), Orders(view, index));
    forall document
      ensures AsFound(view, index, document) in all <==> Asked(view, index, query.equals, after, stored.table, staged, document)
      ensures Asked(view, index, query.equals, after, stored.table, staged, document) ==> Filled(view, index, document)
    {
      MatchingIsAsked(view, index, query.equals, after, stored.table, staged, document);
    }
    forall item | item in all ensures item == AsFound(view, index, item.item) {
    }
    hide Matching, Asked, Orders, Columns, Answers, StoredRows, FittingStage, Filled, ComesBefore, Unplaceable;
    forall i, j | 0 <= i < j < |page.items| ensures ComesBefore(view, index, page.items[i].item, page.items[j].item) {
      assert page.items[i] in page.items && page.items[j] in page.items;
      PageOrderIsDeclared(view, index, page.items[i].item, page.items[j].item);
    }
    forall document, item | Asked(view, index, query.equals, after, stored.table, staged, document)
        && item in page.items && (forall other :: other in page.items ==> other.item != document)
      ensures ComesBefore(view, index, item.item, document)
    {
      assert AsFound(view, index, document) !in page.items;
      PageOrderIsDeclared(view, index, item.item, document);
    }
  }

  lemma NoneUnplaceable(project: string, view: ViewSpec, generation: int, query: IndexQuery, stored: StoredView,
                        staged: map<DocKey, Staged>, page: Page, index: IndexSpec, after: Option<seq<KeyValue>>)
    requires IndexNamed(view.indexes, query.index) == Some(index) && EqualsFit(index, query.equals)
    requires Paging.After(project, view, generation, query, index) == Ok(after)
    requires 0 < query.limit && 0 < view.pageBound
    requires Answers(project, view, generation, query, stored.table, staged, Ok(page))
    ensures forall key :: key in staged ==> !Unplaceable(view, index, query.equals, key, staged[key])
    ensures FittingStage(view, staged) ==>
              FirstOf(page.items, Matching(view, index, query.equals, after, stored.table, staged), PageSize(view, query.limit),
                      Orders(view, index))
  {
    hide Unplaceable, FirstOf, Matching;
  }

  // ----- refusals -----

  /** An index is found exactly where one of that name is declared. */
  lemma {:induction false} IndexesAreDeclared(indexes: seq<IndexSpec>, name: string)
    ensures IndexNamed(indexes, name).None? <==> forall index :: index in indexes ==> index.name != name
  {
    if indexes != [] {
      IndexesAreDeclared(indexes[1..], name);
    }
  }

  /** A query goes on only from a text that no query of another project, view,
      version, generation, index or equality values issued; every text it does
      not read is refused. */
  lemma OnlyItsOwnCursorsAreRead(project: string, view: ViewSpec, generation: int, query: IndexQuery, index: IndexSpec,
                                 issuer: Cursors.ViewQuery, position: seq<KeyValue>)
    requires |query.equals| <= |index.fields|
    ensures var after := Paging.After(project, view, generation, query, index);
            && (query.after.None? <==> after == Ok(None))
            && (after.Err? ==> after.error == InvalidCursor)
            && (query.after == Some(Cursors.ViewIdentity(issuer) + Cursors.EncodeAll(position)) && after.Ok? ==>
                  && issuer.project == project && issuer.view == view.name && issuer.version == view.version
                  && issuer.generation == generation && issuer.index == query.index && issuer.equals == query.equals)
  {
    var reader := Cursors.ViewQuery(project, view.name, view.version, generation, query.index, query.equals);
    var cursor := Cursors.ViewIdentity(issuer) + Cursors.EncodeAll(position);
    hide Cursors.ViewIdentity, Cursors.EncodeAll, Cursors.CursorPosition;
    if query.after == Some(cursor) && Paging.After(project, view, generation, query, index).Ok? {
      Cursors.CursorIsBoundToItsQuery(issuer, reader, position, Kinds(view, index)[|query.equals|..]);
    }
  }

  /** As many equality values as the index has fields at most, each of its
      field's kind. */
  predicate ValuesFit(index: IndexSpec, equals: seq<KeyValue>) {
    |equals| <= |index.fields|
    && forall at :: 0 <= at < |equals| ==> (equals[at].Text? <==> index.fields[at].kind.TextKind?)
  }

  /** What each refusal says of the query, in the order they are made. */
  lemma RefusalsAreDeclared(project: string, view: ViewSpec, generation: int, query: IndexQuery, table: map<DocKey, Document>,
                            staged: map<DocKey, Staged>, answer: Result<Page, Refusal>)
    requires Answers(project, view, generation, query, table, staged, answer)
    ensures answer == Err(UndeclaredIndex) <==> forall index :: index in view.indexes ==> index.name != query.index
    ensures answer != Err(UndeclaredIndex) ==>
              var named := IndexNamed(view.indexes, query.index);
              && named.Some? && named.value in view.indexes && named.value.name == query.index
              && var index := named.value;
              && (!ValuesFit(index, query.equals) ==> answer == Err(MalformedKey))
              && (ValuesFit(index, query.equals) ==>
                    var after := Paging.After(project, view, generation, query, index);
                    && (answer == Err(InvalidCursor) <==> after.Err?)
                    && (after.Ok? ==> (answer == Err(MalformedKey) <==>
                          0 < query.limit && 0 < view.pageBound
                          && exists key :: key in staged && staged[key].body.Some?
                                           && Homeless(view, index, query.equals, StagedDocument(view, key, staged[key])))))
  {
    IndexesAreDeclared(view.indexes, query.index);
    var named := IndexNamed(view.indexes, query.index);
    if named.Some? && EqualsFit(named.value, query.equals) {
      forall key | key in staged && staged[key].body.Some?
        ensures Unplaceable(view, named.value, query.equals, key, staged[key])
                <==> Homeless(view, named.value, query.equals, StagedDocument(view, key, staged[key]))
      {
        RefusedBodiesAreDeclared(view, named.value, query.equals, StagedDocument(view, key, staged[key]));
      }
      forall key | key in staged && staged[key].body.None? ensures !Unplaceable(view, named.value, query.equals, key, staged[key]) {
      }
    }
    hide Unplaceable, Homeless, StagedDocument, Matching, MatchingPage, IsPage, FittingStage, Cursors.CursorPosition;
  }
}
