/** Key and index values of view documents (crates/baley-store/src/view.rs).
    A text is its UTF-8 bytes, one character a byte, so lengths and the binary
    collation are those of the stored text. */
module Values {
  datatype KeyValue = Text(text: string) | Integer(number: int)

  datatype FieldKind = TextKind | IntegerKind

  datatype Order = Ascending | Descending

  function KindOf(value: KeyValue): FieldKind {
    if value.Text? then TextKind else IntegerKind
  }

  function KindsOf(values: seq<KeyValue>): (kinds: seq<FieldKind>)
    ensures |kinds| == |values|
    ensures forall at :: 0 <= at < |values| ==> kinds[at] == KindOf(values[at])
  {
    seq(|values|, at requires 0 <= at < |values| => KindOf(values[at]))
  }
}
