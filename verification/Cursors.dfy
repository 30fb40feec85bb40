/** Page cursors: the text a query issues and reads back
    (crates/baley-store-sqlite/src/view.rs and ledger.rs). */
module Cursors {
  import opened Wrappers
  import opened Values
  import Decimal

  /** What a view cursor is bound to. */
  datatype ViewQuery = ViewQuery(
    project: string, view: string, version: int, generation: int,
    index: string, equals: seq<KeyValue>)

  /** `encode`: the text pushed for one value, which says its own length. */
  function Encode(value: KeyValue): string {
    match value
    case Text(text) => "t" + Decimal.Natural(|text|) + ":" + text
    case Integer(number) => "i" + Decimal.Signed(number) + ";"
  }

  function EncodeAll(values: seq<KeyValue>): string {
    if values == [] then "" else Encode(values[0]) + EncodeAll(values[1..])
  }

  /** The head of a view cursor as a list of values, then the closing bar. */
  function ViewItems(query: ViewQuery): seq<KeyValue> {
    [Text(query.project), Text(query.view), Integer(query.version), Integer(query.generation),
     Text(query.index), Integer(|query.equals|)] + query.equals
  }

  function Sealed(family: string, items: seq<KeyValue>): string {
    family + EncodeAll(items) + "|"
  }

  function ViewIdentity(query: ViewQuery): string {
    Sealed("c1.", ViewItems(query))
  }

  /** `str::get(..length)`: refused past the end or inside a UTF-8 character. */
  predicate Boundary(text: string, at: nat) {
    at <= |text| && (at < |text| ==> !('\U{80}' <= text[at] < '\U{C0}'))
  }

  /** `decode`: takes a value of that kind off the front of a text. */
  function Decode(text: string, kind: FieldKind): Option<(KeyValue, string)> {
    if kind.TextKind? then
      match Decimal.StripPrefix(text, "t")
      case None => None
      case Some(rest) =>
        match Decimal.SplitOnce(rest, ':')
        case None => None
        case Some((digits, body)) =>
          match Decimal.ParseUnsigned(digits, Decimal.U64_MAX)
          case None => None
          case Some(length) =>
            if !Boundary(body, length) then None
            else Some((Text(body[..length]), body[length..]))
    else
      match Decimal.StripPrefix(text, "i")
      case None => None
      case Some(rest) =>
        match Decimal.SplitOnce(rest, ';')
        case None => None
        case Some((digits, after)) =>
          match Decimal.ParseSigned(digits)
          case None => None
          case Some(number) => Some((Integer(number), after))
  }

  function DecodeAll(text: string, kinds: seq<FieldKind>): (read: Option<seq<KeyValue>>)
    ensures read.Some? ==> KindsOf(read.value) == kinds
    decreases |kinds|
  {
    if kinds == [] then
      if text == "" then Some([]) else None
    else
      match Decode(text, kinds[0])
      case None => None
      case Some((value, rest)) =>
        match DecodeAll(rest, kinds[1..])
        case None => None
        case Some(values) => Some([value] + values)
  }

  /** The position a cursor holds for the query of this identity, or `None`
      where the store answers `InvalidCursor`. */
  function CursorPosition(identity: string, cursor: string, kinds: seq<FieldKind>): Option<seq<KeyValue>> {
    match Decimal.StripPrefix(cursor, identity)
    case None => None
    case Some(rest) => DecodeAll(rest, kinds)
  }

  // ----- the operations, as the adapter runs them -----

  /** `text.push_str` of the next encoded item; the later ones stay to push. */
  method PushItem(text: string, value: KeyValue, ghost items: seq<KeyValue>, ghost at: nat) returns (longer: string)
    requires at < |items| && items[at] == value
    ensures longer + EncodeAll(items[at + 1..]) == text + EncodeAll(items[at..])
  {
    assert items[at..][0] == value && items[at..][1..] == items[at + 1..];
    Associates(text, Encode(value), EncodeAll(items[at + 1..]));
    longer := text + Encode(value);
  }

  method CursorIdentity(query: ViewQuery) returns (text: string)
    ensures text == ViewIdentity(query)
  {
    text := PushView(query, ViewItems(query));
  }

  method PushView(query: ViewQuery, ghost items: seq<KeyValue>) returns (text: string)
    requires |items| == 6 + |query.equals|
    requires items[0] == Text(query.project) && items[1] == Text(query.view)
    requires items[2] == Integer(query.version) && items[3] == Integer(query.generation)
    requires items[4] == Text(query.index) && items[5] == Integer(|query.equals|)
    requires forall at :: 0 <= at < |query.equals| ==> items[6 + at] == query.equals[at]
    ensures text == Sealed("c1.", items)
  {
    text := "c1.";
    assert text + EncodeAll(items[0..]) == "c1." + EncodeAll(items) by {
      assert items[0..] == items;
    }
    text := PushItem(text, Text(query.project), items, 0);
    text := PushItem(text, Text(query.view), items, 1);
    text := PushItem(text, Integer(query.version), items, 2);
    text := PushItem(text, Integer(query.generation), items, 3);
    text := PushItem(text, Text(query.index), items, 4);
    text := PushItem(text, Integer(|query.equals|), items, 5);
    for at := 0 to |query.equals|
      invariant text + EncodeAll(items[6 + at..]) == "c1." + EncodeAll(items)
    {
      text := PushItem(text, query.equals[at], items, 6 + at);
    }
    assert text == "c1." + EncodeAll(items) by {
      assert items[6 + |query.equals|..] == [] && text + "" == text;
    }
    text := text + "|";
  }

  method IssueCursor(identity: string, position: seq<KeyValue>) returns (cursor: string)
    ensures cursor == identity + EncodeAll(position)
  {
    cursor := identity;
    assert position[0..] == position;
    for at := 0 to |position|
      invariant cursor + EncodeAll(position[at..]) == identity + EncodeAll(position)
    {
      cursor := PushItem(cursor, position[at], position, at);
    }
  }

  function Prefixed(position: seq<KeyValue>, tail: Option<seq<KeyValue>>): Option<seq<KeyValue>> {
    if tail.None? then None else Some(position + tail.value)
  }

  method ReadCursor(identity: string, cursor: string, kinds: seq<FieldKind>)
    returns (read: Option<seq<KeyValue>>)
    ensures read == CursorPosition(identity, cursor, kinds)
  {
    var stripped := Decimal.StripPrefix(cursor, identity);
    if stripped.None? {
      return None;
    }
    var rest := stripped.value;
    var position: seq<KeyValue> := [];
    assert kinds[0..] == kinds;
    if DecodeAll(rest, kinds).Some? {
      assert [] + DecodeAll(rest, kinds).value == DecodeAll(rest, kinds).value;
    }
    for at := 0 to |kinds|
      invariant CursorPosition(identity, cursor, kinds) == Prefixed(position, DecodeAll(rest, kinds[at..]))
    {
      var decoded := Decode(rest, kinds[at]);
      assert kinds[at..][0] == kinds[at] && kinds[at..][1..] == kinds[at + 1..];
      if decoded.None? {
        return None;
      }
      PrefixedOneMore(position, decoded.value.0, DecodeAll(decoded.value.1, kinds[at + 1..]));
      position := position + [decoded.value.0];
      rest := decoded.value.1;
    }
    assert kinds[|kinds|..] == [] && position + [] == position;
    read := if rest == "" then Some(position) else None;
  }

  lemma PrefixedOneMore(position: seq<KeyValue>, value: KeyValue, tail: Option<seq<KeyValue>>)
    ensures Prefixed(position, Prefixed([value], tail)) == Prefixed(position + [value], tail)
  {
    if tail.Some? {
      assert position + ([value] + tail.value) == position + [value] + tail.value;
    }
  }

  lemma Associates(a: string, b: string, c: string)
    ensures a + b + c == a + (b + c)
  {
  }

  // ----- one encoded value ends where it says it does -----

  lemma DigitsHold(n: int, mark: char)
    requires mark == ':' || mark == ';'
    ensures mark !in Decimal.Signed(n)
    ensures n >= 0 ==> mark !in Decimal.Natural(n)
  {
    Decimal.NaturalDenotes(if n < 0 then -n else n);
  }

  /** Splitting an encoded value at its mark gives its number and the rest. */
  lemma SplitEncoded(value: KeyValue, after: string)
    ensures value.Text? ==>
              (Encode(value) + after)[0] == 't'
              && Decimal.SplitOnce((Encode(value) + after)[1..], ':')
                 == Some((Decimal.Natural(|value.text|), value.text + after))
    ensures value.Integer? ==>
              (Encode(value) + after)[0] == 'i'
              && Decimal.SplitOnce((Encode(value) + after)[1..], ';')
                 == Some((Decimal.Signed(value.number), after))
  {
    match value
    case Text(text) =>
      DigitsHold(|text|, ':');
      Decimal.SplitAtFirst(Decimal.Natural(|text|), ':', text + after);
      assert (Encode(value) + after)[1..] == Decimal.Natural(|text|) + [':'] + (text + after);
    case Integer(number) =>
      DigitsHold(number, ';');
      Decimal.SplitAtFirst(Decimal.Signed(number), ';', after);
      assert (Encode(value) + after)[1..] == Decimal.Signed(number) + [';'] + after;
  }

  lemma EncodedValueIsSelfDelimiting(a: KeyValue, u: string, b: KeyValue, v: string)
    requires Encode(a) + u == Encode(b) + v
    ensures a == b && u == v
  {
    SplitEncoded(a, u);
    SplitEncoded(b, v);
    if a.Text? {
      Decimal.NaturalIsInjective(|a.text|, |b.text|);
      assert (a.text + u)[..|a.text|] == a.text && (b.text + v)[..|b.text|] == b.text;
      assert (a.text + u)[|a.text|..] == u && (b.text + v)[|b.text|..] == v;
    } else {
      Decimal.SignedIsInjective(a.number, b.number);
    }
  }

  /** Two lists of values closed by a bar are equal once one text continues
      the other: identities of one family are prefix-free. */
  lemma {:induction false} SealedListsArePrefixFree(xs: seq<KeyValue>, u: string, ys: seq<KeyValue>, v: string)
    requires EncodeAll(xs) + ("|" + u) == EncodeAll(ys) + ("|" + v)
    ensures xs == ys && u == v
    decreases |xs|
  {
    hide Encode;
    var left, right := EncodeAll(xs) + ("|" + u), EncodeAll(ys) + ("|" + v);
    Split(xs, "|" + u);
    Split(ys, "|" + v);
    if xs == [] {
      assert ys == [];
      assert left[1..] == u && right[1..] == v;
    } else {
      assert ys != [];
      EncodedValueIsSelfDelimiting(xs[0], EncodeAll(xs[1..]) + ("|" + u), ys[0], EncodeAll(ys[1..]) + ("|" + v));
      SealedListsArePrefixFree(xs[1..], u, ys[1..], v);
      assert xs == [xs[0]] + xs[1..] && ys == [ys[0]] + ys[1..];
    }
  }

  /** The first character of a closed list tells whether a value is left. */
  lemma Split(items: seq<KeyValue>, closed: string)
    requires closed != "" && closed[0] == '|'
    ensures items == [] ==> (EncodeAll(items) + closed)[0] == '|'
    ensures items != [] ==> EncodeAll(items) + closed == Encode(items[0]) + (EncodeAll(items[1..]) + closed)
                            && (EncodeAll(items) + closed)[0] != '|'
  {
    if items != [] {
      Associates(Encode(items[0]), EncodeAll(items[1..]), closed);
    }
  }

  lemma SealedTextsAgree(family: string, xs: seq<KeyValue>, u: string, ys: seq<KeyValue>, v: string)
    requires Sealed(family, xs) + u == Sealed(family, ys) + v
    ensures xs == ys && u == v
  {
    Unseal(family, xs, u);
    Unseal(family, ys, v);
    SealedListsArePrefixFree(xs, u, ys, v);
  }

  lemma Unseal(family: string, items: seq<KeyValue>, after: string)
    ensures |family| <= |Sealed(family, items) + after|
    ensures (Sealed(family, items) + after)[|family|..] == EncodeAll(items) + ("|" + after)
  {
    assert Sealed(family, items) + after == family + (EncodeAll(items) + ("|" + after));
  }

  // ----- view cursors -----

  /** A stored value: an i64, or a text that starts no UTF-8 character in its
      middle and fits the address space. */
  predicate Storable(value: KeyValue) {
    match value
    case Text(text) => |text| <= Decimal.U64_MAX
    case Integer(number) => -Decimal.I64_MAX - 1 <= number <= Decimal.I64_MAX
  }

  lemma DecodeEncoded(value: KeyValue, after: string)
    requires Storable(value)
    requires Boundary(after, 0)
    ensures Decode(Encode(value) + after, KindOf(value)) == Some((value, after))
  {
    SplitEncoded(value, after);
    var whole := Encode(value) + after;
    match value
    case Text(text) =>
      assert "t" <= whole;
      Decimal.ParseNatural(|text|, Decimal.U64_MAX);
      assert (text + after)[..|text|] == text && (text + after)[|text|..] == after;
    case Integer(number) =>
      assert "i" <= whole;
      Decimal.ParseInteger(number);
  }

  lemma {:induction false} DecodeAllEncoded(values: seq<KeyValue>)
    requires forall value :: value in values ==> Storable(value)
    ensures DecodeAll(EncodeAll(values), KindsOf(values)) == Some(values)
    ensures Boundary(EncodeAll(values), 0)
  {
    if values != [] {
      var rest := values[1..];
      DecodeAllEncoded(rest);
      SplitEncoded(values[0], EncodeAll(rest));
      DecodeEncoded(values[0], EncodeAll(rest));
      assert KindsOf(values)[1..] == KindsOf(rest);
      assert [values[0]] + rest == values;
    }
  }

  /** A cursor decodes to the position it was issued at. */
  lemma CursorRoundTrip(query: ViewQuery, position: seq<KeyValue>)
    requires forall value :: value in position ==> Storable(value)
    ensures CursorPosition(ViewIdentity(query), ViewIdentity(query) + EncodeAll(position), KindsOf(position))
            == Some(position)
  {
    DecodeAllEncoded(position);
    var identity := ViewIdentity(query);
    assert (identity + EncodeAll(position))[|identity|..] == EncodeAll(position);
  }

  /** A cursor is read by no query that differs in project, view, version,
      generation, index or equality values, whatever kinds it expects. */
  lemma CursorIsBoundToItsQuery(issuer: ViewQuery, reader: ViewQuery, position: seq<KeyValue>, kinds: seq<FieldKind>)
    requires CursorPosition(ViewIdentity(reader), ViewIdentity(issuer) + EncodeAll(position), kinds).Some?
    ensures issuer == reader
  {
    var cursor := ViewIdentity(issuer) + EncodeAll(position);
    var rest := cursor[|ViewIdentity(reader)|..];
    assert cursor == ViewIdentity(reader) + rest;
    SealedTextsAgree("c1.", ViewItems(issuer), EncodeAll(position), ViewItems(reader), rest);
    var left, right := ViewItems(issuer), ViewItems(reader);
    assert left[0] == right[0] && left[1] == right[1] && left[2] == right[2];
    assert left[3] == right[3] && left[4] == right[4];
    assert left[6..] == issuer.equals && right[6..] == reader.equals;
  }

  // ----- what a view query reads beyond what it issues -----

  /** The digits `parse` reads as the number an encoded value begins with. */
  predicate ReadsAs(digits: string, value: KeyValue) {
    match value
    case Text(text) => Decimal.ParseUnsigned(digits, Decimal.U64_MAX) == Some(|text|)
    case Integer(number) => Decimal.ParseSigned(digits) == Some(number)
  }

  function Canonical(value: KeyValue): string {
    match value
    case Text(text) => Decimal.Natural(|text|)
    case Integer(number) => Decimal.Signed(number)
  }

  /** A value's text with other digits for its number. */
  function Respelled(value: KeyValue, digits: string): string {
    match value
    case Text(text) => "t" + digits + ":" + text
    case Integer(number) => "i" + digits + ";"
  }

  function RespelledAll(values: seq<KeyValue>, digits: seq<string>): string
    requires |digits| == |values|
  {
    if values == [] then "" else Respelled(values[0], digits[0]) + RespelledAll(values[1..], digits[1..])
  }

  predicate AllReadAs(digits: seq<string>, values: seq<KeyValue>) {
    |digits| == |values| && forall at :: 0 <= at < |values| ==> ReadsAs(digits[at], values[at])
  }

  lemma ReadDigitsHold(digits: string, value: KeyValue)
    requires ReadsAs(digits, value)
    ensures ':' !in digits && ';' !in digits
  {
    var rest := if digits[0] == '-' || digits[0] == '+' then digits[1..] else digits;
    assert digits == digits[..|digits| - |rest|] + rest;
    assert Decimal.AllDigits(rest);
  }

  lemma SplitRespelled(value: KeyValue, digits: string, after: string)
    requires ReadsAs(digits, value)
    ensures value.Text? ==>
              (Respelled(value, digits) + after)[0] == 't'
              && Decimal.SplitOnce((Respelled(value, digits) + after)[1..], ':') == Some((digits, value.text + after))
    ensures value.Integer? ==>
              (Respelled(value, digits) + after)[0] == 'i'
              && Decimal.SplitOnce((Respelled(value, digits) + after)[1..], ';') == Some((digits, after))
  {
    ReadDigitsHold(digits, value);
    hide *;
    match value
    case Text(text) =>
      SplitText(digits, text, after);
      RespelledText(text, digits);
    case Integer(number) =>
      SplitInteger(digits, after);
      RespelledInteger(number, digits);
  }

  lemma RespelledText(text: string, digits: string)
    ensures Respelled(Text(text), digits) == "t" + digits + ":" + text
  {
  }

  lemma RespelledInteger(number: int, digits: string)
    ensures Respelled(Integer(number), digits) == "i" + digits + ";"
  {
  }

  lemma SplitText(digits: string, text: string, after: string)
    requires ':' !in digits
    ensures var whole := "t" + digits + ":" + text + after;
            whole[0] == 't' && Decimal.SplitOnce(whole[1..], ':') == Some((digits, text + after))
  {
    hide *;
    Decimal.SplitAtFirst(digits, ':', text + after);
    assert ("t" + digits + ":" + text + after)[1..] == digits + [':'] + (text + after);
  }

  lemma SplitInteger(digits: string, after: string)
    requires ';' !in digits
    ensures var whole := "i" + digits + ";" + after;
            whole[0] == 'i' && Decimal.SplitOnce(whole[1..], ';') == Some((digits, after))
  {
    hide *;
    Decimal.SplitAtFirst(digits, ';', after);
    assert ("i" + digits + ";" + after)[1..] == digits + [';'] + after;
  }

  lemma DecodeRespelled(value: KeyValue, digits: string, after: string)
    requires ReadsAs(digits, value) && Boundary(after, 0)
    ensures Decode(Respelled(value, digits) + after, KindOf(value)) == Some((value, after))
  {
    SplitRespelled(value, digits, after);
    hide Respelled, Decimal.SplitOnce, Decimal.ParseUnsigned, Decimal.ParseSigned;
    var whole := Respelled(value, digits) + after;
    match value
    case Text(text) =>
      assert "t" <= whole;
      assert (text + after)[..|text|] == text && (text + after)[|text|..] == after;
    case Integer(number) =>
      assert "i" <= whole;
  }

  lemma DecodedText(text: string) returns (digits: string)
    requires Decode(text, TextKind).Some?
    ensures var (value, rest) := Decode(text, TextKind).value;
            value.Text? && ReadsAs(digits, value) && text == "t" + digits + ":" + value.text + rest
  {
    hide Decimal.SplitOnce, Decimal.ParseUnsigned;
    var (before, after) := Decimal.SplitOnce(text[1..], ':').value;
    digits := before;
    Decimal.SplitIsExact(text[1..], ':');
    var length := Decimal.ParseUnsigned(digits, Decimal.U64_MAX).value;
    TextParts(text, digits, after, length);
  }

  lemma TextParts(text: string, digits: string, after: string, length: nat)
    requires "t" <= text && text[1..] == digits + [':'] + after && length <= |after|
    ensures text == "t" + digits + ":" + after[..length] + after[length..]
  {
    assert after == after[..length] + after[length..];
    assert text == "t" + text[1..];
  }

  lemma DecodedInteger(text: string) returns (digits: string)
    requires Decode(text, IntegerKind).Some?
    ensures var (value, rest) := Decode(text, IntegerKind).value;
            value.Integer? && ReadsAs(digits, value) && text == "i" + digits + ";" + rest
  {
    hide Decimal.SplitOnce, Decimal.ParseSigned;
    var (before, after) := Decimal.SplitOnce(text[1..], ';').value;
    digits := before;
    Decimal.SplitIsExact(text[1..], ';');
    assert text == "i" + text[1..];
  }

  lemma DecodedIsRespelled(text: string, kind: FieldKind) returns (digits: string)
    requires Decode(text, kind).Some?
    ensures var (value, rest) := Decode(text, kind).value;
            KindOf(value) == kind && ReadsAs(digits, value) && text == Respelled(value, digits) + rest
  {
    hide Decode, ReadsAs;
    if kind.TextKind? {
      digits := DecodedText(text);
    } else {
      digits := DecodedInteger(text);
    }
  }

  lemma RespelledStarts(values: seq<KeyValue>, digits: seq<string>)
    requires |digits| == |values|
    ensures Boundary(RespelledAll(values, digits), 0)
  {
  }

  lemma {:induction false} RespelledAreRead(values: seq<KeyValue>, digits: seq<string>)
    requires AllReadAs(digits, values)
    ensures DecodeAll(RespelledAll(values, digits), KindsOf(values)) == Some(values)
    decreases |values|
  {
    hide ReadsAs, Decode, Respelled, Boundary;
    if values != [] {
      var rest := RespelledAll(values[1..], digits[1..]);
      RespelledAreRead(values[1..], digits[1..]);
      RespelledStarts(values[1..], digits[1..]);
      DecodeRespelled(values[0], digits[0], rest);
      assert KindsOf(values)[1..] == KindsOf(values[1..]);
      assert [values[0]] + values[1..] == values;
    }
  }

  lemma {:induction false} ReadAreRespelled(text: string, kinds: seq<FieldKind>) returns (digits: seq<string>)
    requires DecodeAll(text, kinds).Some?
    ensures var values := DecodeAll(text, kinds).value;
            AllReadAs(digits, values) && text == RespelledAll(values, digits)
    decreases |kinds|
  {
    hide ReadsAs, Decode, Respelled;
    if kinds == [] {
      digits := [];
    } else {
      var (value, rest) := Decode(text, kinds[0]).value;
      var first := DecodedIsRespelled(text, kinds[0]);
      var others := ReadAreRespelled(rest, kinds[1..]);
      var tail := DecodeAll(rest, kinds[1..]).value;
      digits := [first] + others;
      assert ([value] + tail)[1..] == tail && digits[1..] == others;
      forall at | 0 <= at < |tail| + 1 ensures ReadsAs(digits[at], ([value] + tail)[at]) {
        assert at > 0 ==> ReadsAs(others[at - 1], tail[at - 1]);
      }
    }
  }

  /** A view query reads a text as a position if and only if the text is the one
      it issues for it with each number spelled as `parse` reads it. */
  lemma ViewCursorsAreReadRespelled(identity: string, cursor: string, kinds: seq<FieldKind>, position: seq<KeyValue>)
    ensures CursorPosition(identity, cursor, kinds) == Some(position)
            <==> KindsOf(position) == kinds
                 && exists digits :: AllReadAs(digits, position) && cursor == identity + RespelledAll(position, digits)
  {
    hide ReadsAs, DecodeAll, RespelledAll;
    if CursorPosition(identity, cursor, kinds) == Some(position) {
      var digits := ReadAreRespelled(cursor[|identity|..], kinds);
      assert cursor == identity + cursor[|identity|..];
    }
    if KindsOf(position) == kinds && exists digits :: AllReadAs(digits, position) && cursor == identity + RespelledAll(position, digits) {
      var digits :| AllReadAs(digits, position) && cursor == identity + RespelledAll(position, digits);
      RespelledAreRead(position, digits);
      assert cursor[|identity|..] == RespelledAll(position, digits);
    }
  }

  lemma {:induction false} CanonicalIsIssued(values: seq<KeyValue>, digits: seq<string>)
    requires AllReadAs(digits, values) && forall value :: value in values ==> Storable(value)
    ensures RespelledAll(values, digits) == EncodeAll(values)
            <==> forall at :: 0 <= at < |values| ==> digits[at] == Canonical(values[at])
    decreases |values|
  {
    hide ReadsAs;
    if values != [] {
      var rest, issued := RespelledAll(values[1..], digits[1..]), EncodeAll(values[1..]);
      CanonicalIsIssued(values[1..], digits[1..]);
      SplitRespelled(values[0], digits[0], rest);
      SplitEncoded(values[0], issued);
      if RespelledAll(values, digits) == EncodeAll(values) {
        assert digits[0] == Canonical(values[0]);
        EqualHeads(values[0], rest, issued);
        forall at | 0 < at < |values| ensures digits[at] == Canonical(values[at]) {
          assert digits[1..][at - 1] == Canonical(values[1..][at - 1]);
        }
      }
    }
  }

  lemma EqualHeads(value: KeyValue, rest: string, issued: string)
    requires Encode(value) + rest == Encode(value) + issued
    ensures rest == issued
  {
    assert (Encode(value) + rest)[|Encode(value)|..] == rest;
    assert (Encode(value) + issued)[|Encode(value)|..] == issued;
  }

  /** And such a text is the one it issued for that position exactly when every
      number in it is spelled the shortest way. */
  lemma OnlyTheShortestSpellingWasIssued(identity: string, position: seq<KeyValue>, digits: seq<string>)
    requires AllReadAs(digits, position) && forall value :: value in position ==> Storable(value)
    ensures identity + RespelledAll(position, digits) == identity + EncodeAll(position)
            <==> forall at :: 0 <= at < |position| ==> digits[at] == Canonical(position[at])
  {
    CanonicalIsIssued(position, digits);
    hide *;
    assert (identity + RespelledAll(position, digits))[|identity|..] == RespelledAll(position, digits);
    assert (identity + EncodeAll(position))[|identity|..] == EncodeAll(position);
  }

  /** A cursor that the query issues for no position, and reads. */
  lemma AnUnissuedCursorIsRead(identity: string)
    ensures CursorPosition(identity, identity + "i+5;", [IntegerKind]) == Some([Integer(5)])
    ensures forall position :: identity + EncodeAll(position) != identity + "i+5;"
  {
    PlusIsRead();
    ViewCursorsAreReadRespelled(identity, identity + "i+5;", [IntegerKind], [Integer(5)]);
    hide *;
    forall values ensures identity + EncodeAll(values) != identity + "i+5;" {
      PlusIsNeverIssued(values);
      assert (identity + EncodeAll(values))[|identity|..] == EncodeAll(values);
      assert (identity + "i+5;")[|identity|..] == "i+5;";
    }
  }

  lemma PlusIsRead()
    ensures AllReadAs(["+5"], [Integer(5)]) && RespelledAll([Integer(5)], ["+5"]) == "i+5;"
    ensures KindsOf([Integer(5)]) == [IntegerKind]
  {
    hide Decimal.ParseSigned, Decimal.ParseUnsigned, Decimal.SpelledWith, Decimal.Natural, RespelledAll;
    PlusFive();
    OneRespelled(Integer(5), "+5");
  }

  lemma PlusFive()
    ensures Decimal.ParseSigned("+5") == Some(5)
  {
    hide Decimal.ParseSigned, Decimal.ParseUnsigned;
    assert Decimal.SpelledWith("+5", 5, "+", "");
    hide Decimal.SpelledWith, Decimal.Natural;
    Decimal.SpelledAreRead("+5", 5, "+", "");
  }

  lemma OneRespelled(value: KeyValue, digits: string)
    ensures RespelledAll([value], [digits]) == Respelled(value, digits)
  {
    assert [value][1..] == [] && [digits][1..] == [];
  }

  /** `to_string` never writes a plus sign. */
  lemma PlusIsNeverIssued(values: seq<KeyValue>)
    ensures EncodeAll(values) != "i+5;"
  {
    if values == [] {
    } else if values[0].Text? {
      assert EncodeAll(values)[0] == 't';
    } else {
      var digits := Decimal.Signed(values[0].number);
      Decimal.NaturalDenotes(Decimal.Size(values[0].number));
      assert digits[0] == '-' || Decimal.IsDigit(digits[0]);
      assert EncodeAll(values)[1] == digits[0];
    }
  }

  // ----- ledger cursors -----

  function Clamped(value: nat): int {
    if value <= Decimal.I64_MAX then value else Decimal.I64_MAX
  }

  function EventCursor(identity: string, position: nat): string {
    identity + Encode(Integer(Clamped(position)))
  }

  /** `read_event_cursor`: -1 without a cursor, `None` for `InvalidCursor`. */
  function ReadEventCursor(identity: string, cursor: Option<string>): Option<int> {
    if cursor.None? then Some(-1)
    else
      match Decimal.StripPrefix(cursor.value, identity)
      case None => None
      case Some(rest) =>
        match Decimal.StripPrefix(rest, "i")
        case None => None
        case Some(tail) =>
          match Decimal.StripLast(tail, ';')
          case None => None
          case Some(number) =>
            match Decimal.ParseSigned(number)
            case None => None
            case Some(position) =>
              if position < 0 || Decimal.Signed(position) != number then None else Some(position)
  }

  datatype LedgerQuery =
    | StreamQuery(project: string, stream: string, from: nat)
    | HistoryQuery(project: string, first: nat, last: nat, types: seq<string>, commit: Option<string>)

  function Texts(texts: seq<string>): (values: seq<KeyValue>)
    ensures |values| == |texts|
    ensures forall at :: 0 <= at < |texts| ==> values[at] == Text(texts[at])
  {
    seq(|texts|, at requires 0 <= at < |texts| => Text(texts[at]))
  }

  function LedgerItems(query: LedgerQuery): seq<KeyValue> {
    match query
    case StreamQuery(project, stream, from) => [Text(project), Text(stream), Integer(Clamped(from))]
    case HistoryQuery(project, first, last, types, commit) =>
      [Text(project), Integer(Clamped(first)), Integer(Clamped(last)), Integer(|types|)] + Texts(types)
      + [if commit.Some? then Text(commit.value) else Integer(0)]
  }

  function Family(query: LedgerQuery): string {
    if query.StreamQuery? then "s1." else "h1."
  }

  function LedgerIdentity(query: LedgerQuery): string {
    Sealed(Family(query), LedgerItems(query))
  }

  /** `history_identity`, pushed item by item. */
  method HistoryIdentity(project: string, first: nat, last: nat, types: seq<string>, commit: Option<string>)
    returns (text: string)
    ensures text == LedgerIdentity(HistoryQuery(project, first, last, types, commit))
  {
    text := PushHistory(project, first, last, types, commit,
                        LedgerItems(HistoryQuery(project, first, last, types, commit)));
  }

  method PushHistory(project: string, first: nat, last: nat, types: seq<string>, commit: Option<string>,
                     ghost items: seq<KeyValue>)
    returns (text: string)
    requires |items| == |types| + 5
    requires items[0] == Text(project) && items[1] == Integer(Clamped(first))
    requires items[2] == Integer(Clamped(last)) && items[3] == Integer(|types|)
    requires forall at :: 0 <= at < |types| ==> items[4 + at] == Text(types[at])
    requires items[|types| + 4] == if commit.Some? then Text(commit.value) else Integer(0)
    ensures text == Sealed("h1.", items)
  {
    hide Encode, EncodeAll;
    text := PushRange(project, first, last, items);
    text := PushItem(text, Integer(|types|), items, 3);
    for next := 0 to |types|
      invariant text + EncodeAll(items[4 + next..]) == "h1." + EncodeAll(items)
    {
      text := PushItem(text, Text(types[next]), items, 4 + next);
    }
    text := PushItem(text, if commit.Some? then Text(commit.value) else Integer(0), items, |types| + 4);
    AllPushed(text, "h1.", items, |types| + 5);
    text := text + "|";
  }

  method PushRange(project: string, first: nat, last: nat, ghost items: seq<KeyValue>) returns (text: string)
    requires |items| >= 3
    requires items[0] == Text(project) && items[1] == Integer(Clamped(first)) && items[2] == Integer(Clamped(last))
    ensures text + EncodeAll(items[3..]) == "h1." + EncodeAll(items)
  {
    hide Encode, EncodeAll;
    text := "h1.";
    assert items[0..] == items;
    text := PushItem(text, Text(project), items, 0);
    text := PushItem(text, Integer(Clamped(first)), items, 1);
    text := PushItem(text, Integer(Clamped(last)), items, 2);
  }

  lemma AllPushed(text: string, start: string, items: seq<KeyValue>, count: nat)
    requires count == |items| && text + EncodeAll(items[count..]) == start + EncodeAll(items)
    ensures text == start + EncodeAll(items)
  {
    assert items[count..] == [] && text + "" == text;
  }

  /** A ledger query reads exactly the cursors it issues. */
  lemma EventCursorsReadExactly(identity: string, cursor: string, position: int)
    ensures ReadEventCursor(identity, Some(cursor)) == Some(position)
            <==> 0 <= position <= Decimal.I64_MAX && cursor == EventCursor(identity, position)
  {
    if 0 <= position <= Decimal.I64_MAX && cursor == EventCursor(identity, position) {
      IssuedCursorIsRead(identity, position);
    }
    if ReadEventCursor(identity, Some(cursor)) == Some(position) {
      ReadCursorWasIssued(identity, cursor, position);
    }
  }

  lemma IssuedCursorIsRead(identity: string, position: nat)
    requires position <= Decimal.I64_MAX
    ensures ReadEventCursor(identity, Some(EventCursor(identity, position))) == Some(position)
  {
    Decimal.ParseInteger(position);
    PartsAreRead(identity, Decimal.Signed(position), position);
  }

  lemma PartsAreRead(identity: string, number: string, position: nat)
    requires Decimal.ParseSigned(number) == Some(position) && Decimal.Signed(position) == number
    ensures ReadEventCursor(identity, Some(identity + ("i" + number + ";"))) == Some(position)
  {
    hide Decimal.ParseSigned, Decimal.Signed;
    var rest := "i" + number + ";";
    assert (identity + rest)[|identity|..] == rest;
    assert rest[1..] == number + ";";
    assert (number + ";")[..|number|] == number;
  }

  lemma ReadCursorWasIssued(identity: string, cursor: string, position: int)
    requires ReadEventCursor(identity, Some(cursor)) == Some(position)
    ensures 0 <= position <= Decimal.I64_MAX && cursor == EventCursor(identity, position)
  {
    var rest := cursor[|identity|..];
    var tail := rest[1..];
    var number := tail[..|tail| - 1];
    assert Decimal.StripPrefix(rest, "i") == Some(tail);
    assert Decimal.StripLast(tail, ';') == Some(number);
    ParsedNumbersFit(number);
    assert tail == number + ";";
    assert rest == ("i" + number) + ";";
    assert cursor == identity + rest;
  }

  lemma ParsedNumbersFit(text: string)
    ensures match Decimal.ParseSigned(text)
            case None => true
            case Some(number) => number <= Decimal.I64_MAX
  {
  }

  /** The two queries agree once their positions are clamped to i64. */
  predicate EqualOnceClamped(a: LedgerQuery, b: LedgerQuery) {
    match (a, b)
    case (StreamQuery(p, s, f), StreamQuery(q, t, g)) => p == q && s == t && Clamped(f) == Clamped(g)
    case (HistoryQuery(p, f, l, ts, c), HistoryQuery(q, g, m, us, d)) =>
      p == q && Clamped(f) == Clamped(g) && Clamped(l) == Clamped(m) && ts == us && c == d
    case _ => false
  }

  /** A ledger query reads another's cursor only if the two are one query
      after clamping, and then it reads the position it was issued at. */
  lemma LedgerCursorIsBoundToItsQuery(issuer: LedgerQuery, reader: LedgerQuery, position: nat)
    ensures ReadEventCursor(LedgerIdentity(reader), Some(EventCursor(LedgerIdentity(issuer), position)))
            == if EqualOnceClamped(issuer, reader) then Some(Clamped(position)) else None
  {
    if EqualOnceClamped(issuer, reader) {
      EqualQueriesShareTheirIdentity(issuer, reader);
      IssuedCursorIsRead(LedgerIdentity(reader), Clamped(position));
    } else if LedgerIdentity(reader) <= EventCursor(LedgerIdentity(issuer), position) {
      SharedCursorsAgree(issuer, reader, Encode(Integer(Clamped(position))));
    }
  }

  lemma EqualQueriesShareTheirIdentity(a: LedgerQuery, b: LedgerQuery)
    requires EqualOnceClamped(a, b)
    ensures LedgerIdentity(a) == LedgerIdentity(b)
  {
  }

  lemma FamilyShows(query: LedgerQuery, after: string)
    ensures LedgerIdentity(query) + after != ""
    ensures (LedgerIdentity(query) + after)[0] == if query.StreamQuery? then 's' else 'h'
  {
    var family := Family(query);
    assert LedgerIdentity(query) + after == family + (EncodeAll(LedgerItems(query)) + "|" + after);
  }

  lemma SharedCursorsAgree(issuer: LedgerQuery, reader: LedgerQuery, position: string)
    requires LedgerIdentity(reader) <= LedgerIdentity(issuer) + position
    ensures EqualOnceClamped(issuer, reader)
  {
    hide *;
    var rest := (LedgerIdentity(issuer) + position)[|LedgerIdentity(reader)|..];
    SharedTextsAgree(issuer, reader, position, rest);
  }

  lemma SharedTextsAgree(issuer: LedgerQuery, reader: LedgerQuery, position: string, rest: string)
    requires LedgerIdentity(issuer) + position == LedgerIdentity(reader) + rest
    ensures EqualOnceClamped(issuer, reader)
  {
    FamilyShows(issuer, position);
    FamilyShows(reader, rest);
    assert issuer.StreamQuery? == reader.StreamQuery?;
    SameFamilyAgrees(Family(issuer), issuer, reader, position, rest);
  }

  lemma SameFamilyAgrees(family: string, issuer: LedgerQuery, reader: LedgerQuery, position: string, rest: string)
    requires issuer.StreamQuery? == reader.StreamQuery?
    requires Sealed(family, LedgerItems(issuer)) + position == Sealed(family, LedgerItems(reader)) + rest
    ensures EqualOnceClamped(issuer, reader)
  {
    hide *;
    SealedTextsAgree(family, LedgerItems(issuer), position, LedgerItems(reader), rest);
    EqualItems(issuer, reader);
  }

  lemma EqualItems(a: LedgerQuery, b: LedgerQuery)
    requires a.StreamQuery? == b.StreamQuery?
    requires LedgerItems(a) == LedgerItems(b)
    ensures EqualOnceClamped(a, b)
  {
    var left, right := LedgerItems(a), LedgerItems(b);
    assert left[0] == right[0] && left[1] == right[1] && left[2] == right[2];
    if a.HistoryQuery? {
      assert left[3] == right[3];
      assert left[|left| - 1] == right[|right| - 1];
      forall at | 0 <= at < |a.types| ensures a.types[at] == b.types[at] {
        assert left[4 + at] == right[4 + at];
      }
    }
  }

  /** No ledger query reads a view cursor and no view query a ledger one. */
  lemma FamiliesDoNotMix(view: ViewQuery, ledger: LedgerQuery, rest: string, kinds: seq<FieldKind>)
    ensures ReadEventCursor(LedgerIdentity(ledger), Some(ViewIdentity(view) + rest)) == None
    ensures CursorPosition(ViewIdentity(view), LedgerIdentity(ledger) + rest, kinds) == None
  {
    assert (ViewIdentity(view) + rest)[0] == 'c';
    assert (LedgerIdentity(ledger) + rest)[0] != 'c';
  }
}
