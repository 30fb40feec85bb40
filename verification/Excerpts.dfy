/** The excerpt a reduced body leaves (crates/baley-store/src/retention.rs,
    `kept_ranges`, and crates/baley-store-sqlite/src/retention.rs, `reduce`).
    A body is its bytes, one character a byte. */
module Excerpts {
  import opened Wrappers

  const EXCERPT_EDGE := 65536

  datatype Range = Range(start: nat, end: nat)

  function KeptRanges(bytes: nat): Option<(Range, Range)> {
    if bytes > EXCERPT_EDGE * 2 then Some((Range(0, EXCERPT_EDGE), Range(bytes - EXCERPT_EDGE, bytes))) else None
  }

  predicate Within(range: Range, body: string) {
    range.start <= range.end <= |body|
  }

  function Restricted(body: string, range: Range): string
    requires Within(range, body)
  {
    body[range.start..range.end]
  }

  /** What a reader gives, read to its end. */
  function Joined(chunks: seq<string>): string {
    if chunks == [] then "" else chunks[0] + Joined(chunks[1..])
  }

  function First(body: string): string {
    if |body| <= EXCERPT_EDGE then body else body[..EXCERPT_EDGE]
  }

  function Last(body: string): string {
    if |body| <= EXCERPT_EDGE then body else body[|body| - EXCERPT_EDGE..]
  }

  function ExcerptOf(body: string): string {
    First(body) + Last(body)
  }

  lemma {:induction false} JoinedAppends(chunks: seq<string>, chunk: string)
    ensures Joined(chunks + [chunk]) == Joined(chunks) + chunk
  {
    if chunks == [] {
      assert [] + [chunk] == [chunk] && [chunk][1..] == [];
    } else {
      assert (chunks + [chunk])[1..] == chunks[1..] + [chunk];
      JoinedAppends(chunks[1..], chunk);
    }
  }

  /** One byte more: kept at the front while there is room, and at the back in
      the place of the oldest. */
  lemma OneByteMore(body: string, byte: char)
    ensures First(body + [byte]) == if |First(body)| < EXCERPT_EDGE then First(body) + [byte] else First(body)
    ensures Last(body + [byte])
            == (if |Last(body)| == EXCERPT_EDGE then Last(body)[1..] else Last(body)) + [byte]
  {
  }

  /** The streaming loop of `reduce`: the bytes of each chunk in turn, the
      first edge filled and the last edge kept in a ring. */
  method StreamExcerpt(chunks: seq<string>) returns (excerpt: string, count: nat)
    ensures count == |Joined(chunks)|
    ensures excerpt == ExcerptOf(Joined(chunks))
    ensures KeptRanges(count).Some? ==>
              excerpt == Joined(chunks)[..EXCERPT_EDGE] + Joined(chunks)[count - EXCERPT_EDGE..]
  {
    var first, last := "", "";
    count := 0;
    assert chunks[..0] == [];
    for next := 0 to |chunks|
      invariant count == |Joined(chunks[..next])|
      invariant first == First(Joined(chunks[..next])) && last == Last(Joined(chunks[..next]))
    {
      var chunk := chunks[next];
      ghost var before := Joined(chunks[..next]);
      count := count + |chunk|;
      assert before + chunk[..0] == before;
      for at := 0 to |chunk|
        invariant first == First(before + chunk[..at]) && last == Last(before + chunk[..at])
      {
        OneByteMore(before + chunk[..at], chunk[at]);
        assert before + chunk[..at] + [chunk[at]] == before + chunk[..at + 1];
        if |first| < EXCERPT_EDGE {
          first := first + [chunk[at]];
        }
        if |last| == EXCERPT_EDGE {
          last := last[1..];
        }
        last := last + [chunk[at]];
      }
      assert chunk[..|chunk|] == chunk;
      JoinedAppends(chunks[..next], chunk);
      assert chunks[..next] + [chunk] == chunks[..next + 1];
    }
    assert chunks[..|chunks|] == chunks;
    excerpt := first + last;
  }

  /** However the reader cut the body, the excerpt is the body restricted to
      its kept ranges, which are disjoint and of one edge each. */
  lemma TheExcerptIsTheKeptRanges(body: string)
    requires KeptRanges(|body|).Some?
    ensures var (first, last) := KeptRanges(|body|).value;
            && Within(first, body) && Within(last, body) && first.end < last.start
            && ExcerptOf(body) == Restricted(body, first) + Restricted(body, last)
            && |ExcerptOf(body)| == 2 * EXCERPT_EDGE < |body|
  {
  }

  /** An excerpt is never long enough to be reduced again. */
  lemma ExcerptsAreNotReducible(body: string)
    ensures KeptRanges(|ExcerptOf(body)|).None?
  {
  }
}
