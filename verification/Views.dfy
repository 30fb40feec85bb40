/** View declarations, documents and the checks of one document write
    (crates/baley-store/src/view.rs and crates/baley-store-sqlite/src/view.rs). */
module Views {
  import opened Wrappers
  import opened Values

  datatype FieldSpec = FieldSpec(name: string, kind: FieldKind)

  datatype IndexField = IndexField(name: string, kind: FieldKind, order: Order)

  datatype IndexSpec = IndexSpec(name: string, fields: seq<IndexField>)

  datatype ViewSpec = ViewSpec(
    name: string, version: nat, key: seq<FieldSpec>, indexes: seq<IndexSpec>, pageBound: nat)

  type DocKey = seq<KeyValue>

  /** A document body: its top-level texts and i64 integers by name, and
      whatever else it holds. */
  datatype Body = Body(fields: map<string, KeyValue>, rest: string)

  datatype Document = Document(key: DocKey, producedSeq: nat, projectorVersion: nat, body: Body)

  datatype Refusal = UndeclaredIndex | MalformedKey | InvalidCursor

  /** A top-level field read at its declared kind. */
  function Field(body: Body, name: string, kind: FieldKind): Option<KeyValue> {
    if name in body.fields && KindOf(body.fields[name]) == kind then Some(body.fields[name]) else None
  }

  /** `fitted`: the values match the kinds one for one. */
  predicate Fitted(values: seq<KeyValue>, kinds: seq<FieldKind>) {
    KindsOf(values) == kinds
  }

  function KeyKinds(view: ViewSpec): (kinds: seq<FieldKind>)
    ensures |kinds| == |view.key|
  {
    seq(|view.key|, at requires 0 <= at < |view.key| => view.key[at].kind)
  }

  predicate FitsKey(view: ViewSpec, key: DocKey) {
    Fitted(key, KeyKinds(view))
  }

  /** The checks a put must pass before its row is written: the key fits, the
      body holds every key field equal to the key, and every index field. */
  predicate Writable(view: ViewSpec, key: DocKey, body: Body) {
    && FitsKey(view, key)
    && (forall at :: 0 <= at < |view.key| ==> Field(body, view.key[at].name, view.key[at].kind) == Some(key[at]))
    && (forall index :: index in view.indexes ==>
          forall field :: field in index.fields ==> Field(body, field.name, field.kind).Some?)
  }

  /** The index columns and the key of a document, in the index's order. */
  function Columns(view: ViewSpec, index: IndexSpec, document: Document): (columns: seq<KeyValue>)
    ensures |columns| == |index.fields| + |view.key|
  {
    seq(|index.fields|, at requires 0 <= at < |index.fields| =>
      Field(document.body, index.fields[at].name, index.fields[at].kind).UnwrapOr(Integer(0)))
    + seq(|view.key|, at requires 0 <= at < |view.key| =>
      if at < |document.key| then document.key[at] else Integer(0))
  }

  function Orders(view: ViewSpec, index: IndexSpec): (orders: seq<Order>)
    ensures |orders| == |index.fields| + |view.key|
  {
    seq(|index.fields|, at requires 0 <= at < |index.fields| => index.fields[at].order)
    + seq(|view.key|, at requires 0 <= at < |view.key| => Ascending)
  }

  /** The kinds of a page's columns. */
  function Kinds(view: ViewSpec, index: IndexSpec): (kinds: seq<FieldKind>)
    ensures |kinds| == |index.fields| + |view.key|
  {
    seq(|index.fields|, at requires 0 <= at < |index.fields| => index.fields[at].kind) + KeyKinds(view)
  }

  /** A fitting key is the tail of the columns. */
  lemma KeyColumns(view: ViewSpec, index: IndexSpec, document: Document)
    requires |document.key| == |view.key|
    ensures Columns(view, index, document)[|index.fields|..] == document.key
  {
  }
}
