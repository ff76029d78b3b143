/**
 * Exact storage in the packs of a GSTile manifest (shared/gstile_manifest.py): a cursor moved along the
 * sorted tile ranges is proved to reach the end exactly when every payload byte is stored once.
 */
module GstileStorage {
  import opened Ordering
  import Sequences

  const PACK_HEADER := 32

  /** The first byte, and the byte behind the last. */
  type Range = (int, int)

  /** How many ranges contain byte b. */
  function Cover(ranges: seq<Range>, b: int): nat {
    if ranges == [] then 0
    else (if ranges[0].0 <= b < ranges[0].1 then 1 else 0) + Cover(ranges[1..], b)
  }

  /** Every payload byte of a pack of the given length belongs to exactly one range. */
  ghost predicate StoredOnce(ranges: seq<Range>, length: int) {
    forall b | PACK_HEADER <= b < length :: Cover(ranges, b) == 1
  }

  /** What a checked tile reference guarantees of its range. */
  ghost predicate Inside(ranges: seq<Range>, length: int) {
    forall r | r in ranges :: PACK_HEADER <= r.0 < r.1 <= length
  }

  /** Python compares pairs lexicographically. */
  predicate RangeLeq(a: Range, b: Range) { a.0 < b.0 || (a.0 == b.0 && a.1 <= b.1) }

  /** Consecutive ranges, each starting where the one before ended. */
  predicate Chain(ranges: seq<Range>, from: int, to: int) {
    if ranges == [] then from == to
    else ranges[0].0 == from && Chain(ranges[1..], ranges[0].1, to)
  }

  method CoversPack(ranges: seq<Range>, length: int) returns (ok: bool)
    requires Inside(ranges, length) && length >= PACK_HEADER
    ensures ok <==> StoredOnce(ranges, length)
  {
    hide Chain, StoredOnce;
    var sorted := Sort(RangeLeq, ranges);
    SortKeepsCover(ranges, length);
    var cursor := PACK_HEADER;
    EmptyChain(cursor);
    for i := 0 to |sorted|
      invariant Chain(sorted[..i], PACK_HEADER, cursor)
    {
      if sorted[i].0 != cursor {
        if StoredOnce(ranges, length) {
          NextStart(sorted, i, cursor, length);
          assert false;
        }
        return false;
      }
      ChainSnoc(sorted[..i], PACK_HEADER, cursor, sorted[i]);
      Sequences.PrefixSnoc(sorted, i);
      cursor := sorted[i].1;
    }
    Sequences.PrefixAll(sorted);
    if StoredOnce(ranges, length) {
      NextStart(sorted, |sorted|, cursor, length);
    } else if cursor == length {
      ChainCoversOnce(sorted, length);
    }
    return cursor == length;
  }

  lemma EmptyChain(c: int)
    ensures Chain([], c, c)
  {
  }

  lemma {:induction false} ChainSnoc(ranges: seq<Range>, from: int, to: int, r: Range)
    requires Chain(ranges, from, to) && r.0 == to
    ensures Chain(ranges + [r], from, r.1)
  {
    if ranges == [] {
    } else {
      ChainSnoc(ranges[1..], ranges[0].1, to, r);
      assert (ranges + [r])[1..] == ranges[1..] + [r];
    }
  }

  lemma {:induction false} CoverAppend(a: seq<Range>, c: seq<Range>, b: int)
    ensures Cover(a + c, b) == Cover(a, b) + Cover(c, b)
  {
    if a == [] {
      assert a + c == c;
    } else {
      CoverAppend(a[1..], c, b);
      assert (a + c)[1..] == a[1..] + c;
    }
  }

  lemma {:induction false} InsertKeepsCover(x: Range, s: seq<Range>, b: int)
    ensures Cover(Insert(RangeLeq, x, s), b) == Cover([x] + s, b)
  {
    CoverAppend([x], s, b);
    if s != [] && !RangeLeq(x, s[0]) {
      InsertKeepsCover(x, s[1..], b);
      CoverAppend([x], s[1..], b);
      assert Insert(RangeLeq, x, s)[1..] == Insert(RangeLeq, x, s[1..]);
    } else {
      assert Insert(RangeLeq, x, s) == [x] + s;
    }
  }

  lemma {:induction false} SortCover(ranges: seq<Range>, b: int)
    ensures Cover(Sort(RangeLeq, ranges), b) == Cover(ranges, b)
  {
    if ranges != [] {
      SortCover(ranges[1..], b);
      InsertKeepsCover(ranges[0], Sort(RangeLeq, ranges[1..]), b);
      assert ([ranges[0]] + Sort(RangeLeq, ranges[1..]))[1..] == Sort(RangeLeq, ranges[1..]);
    }
  }

  lemma SortKeepsCover(ranges: seq<Range>, length: int)
    requires Inside(ranges, length)
    ensures var sorted := Sort(RangeLeq, ranges);
            && Inside(sorted, length) && SortedBy(RangeLeq, sorted)
            && (StoredOnce(sorted, length) <==> StoredOnce(ranges, length))
  {
    SortSorted(RangeLeq, ranges);
    forall r | r in Sort(RangeLeq, ranges) ensures r in ranges {
      assert r in multiset(Sort(RangeLeq, ranges));
    }
    forall b ensures Cover(Sort(RangeLeq, ranges), b) == Cover(ranges, b) {
      SortCover(ranges, b);
    }
  }

  lemma {:induction false} ChainCover(ranges: seq<Range>, from: int, to: int, length: int, b: int)
    requires Chain(ranges, from, to) && Inside(ranges, length)
    ensures from <= to && Cover(ranges, b) == if from <= b < to then 1 else 0
  {
    if ranges != [] {
      assert ranges[0] in ranges;
      ChainCover(ranges[1..], ranges[0].1, to, length, b);
    }
  }

  lemma ChainCoversOnce(ranges: seq<Range>, length: int)
    requires Chain(ranges, PACK_HEADER, length) && Inside(ranges, length)
    ensures StoredOnce(ranges, length)
  {
    forall b | PACK_HEADER <= b < length ensures Cover(ranges, b) == 1 {
      ChainCover(ranges, PACK_HEADER, length, length, b);
    }
  }

  /** Ranges that start after b do not contain it. */
  lemma {:induction false} CoverBefore(ranges: seq<Range>, b: int)
    requires forall r | r in ranges :: b < r.0
    ensures Cover(ranges, b) == 0
  {
    if ranges != [] {
      CoverBefore(ranges[1..], b);
    }
  }

  /** When every byte is stored once, a cursor that ran along the sorted ranges meets the next start, or the end. */
  lemma NextStart(sorted: seq<Range>, i: nat, cursor: int, length: int)
    requires Inside(sorted, length) && SortedBy(RangeLeq, sorted) && StoredOnce(sorted, length) && length >= PACK_HEADER
    requires i <= |sorted| && Chain(sorted[..i], PACK_HEADER, cursor)
    ensures cursor == if i < |sorted| then sorted[i].0 else length
  {
    hide Chain, SortedBy, StoredOnce;
    ChainEnd(sorted, i, cursor, length);
    if i < |sorted| {
      var start := sorted[i].0;
      assert sorted[i] in sorted;
      if start < cursor {
        CoverSplit(sorted, i, start, cursor, length);
      } else if cursor < start {
        LaterStarts(sorted, i);
        CoverSplit(sorted, i, cursor, cursor, length);
        CoverBefore(sorted[i..], cursor);
      }
    } else if cursor < length {
      CoverSplit(sorted, i, cursor, cursor, length);
    }
  }

  lemma ChainEnd(sorted: seq<Range>, i: nat, cursor: int, length: int)
    requires Inside(sorted, length) && i <= |sorted| && Chain(sorted[..i], PACK_HEADER, cursor) && length >= PACK_HEADER
    ensures PACK_HEADER <= cursor <= length
  {
    ChainCover(sorted[..i], PACK_HEADER, cursor, length, 0);
    if cursor > PACK_HEADER {
      ChainCover(sorted[..i], PACK_HEADER, cursor, length, cursor - 1);
      CoverInside(sorted[..i], length, cursor - 1);
    }
  }

  lemma {:induction false} CoverInside(ranges: seq<Range>, length: int, b: int)
    requires Inside(ranges, length) && Cover(ranges, b) > 0
    ensures b < length
  {
    if !(ranges[0].0 <= b < ranges[0].1) {
      CoverInside(ranges[1..], length, b);
    } else {
      assert ranges[0] in ranges;
    }
  }

  lemma LaterStarts(sorted: seq<Range>, i: nat)
    requires SortedBy(RangeLeq, sorted) && i < |sorted|
    ensures forall r | r in sorted[i..] :: sorted[i].0 <= r.0
  {
    forall r | r in sorted[i..] ensures sorted[i].0 <= r.0 {
      var j :| i <= j < |sorted| && sorted[j] == r;
      assert j > i ==> RangeLeq(sorted[i], sorted[j]);
    }
  }

  /** Byte b is stored once: by the first i ranges when the cursor passed it, by the others otherwise. */
  lemma CoverSplit(sorted: seq<Range>, i: nat, b: int, cursor: int, length: int)
    requires Inside(sorted, length) && StoredOnce(sorted, length) && i <= |sorted|
    requires Chain(sorted[..i], PACK_HEADER, cursor) && PACK_HEADER <= b < length
    ensures Cover(sorted[i..], b) == if b < cursor then 0 else 1
    ensures i < |sorted| && sorted[i].0 <= b < sorted[i].1 ==> b >= cursor
    ensures i == |sorted| ==> b < cursor
  {
    ChainCover(sorted[..i], PACK_HEADER, cursor, length, b);
    CoverAppend(sorted[..i], sorted[i..], b);
    assert sorted == sorted[..i] + sorted[i..];
  }

  function Lengths(ranges: seq<Range>): int {
    if ranges == [] then 0 else ranges[0].1 - ranges[0].0 + Lengths(ranges[1..])
  }

  lemma {:induction false} LengthsAppend(a: seq<Range>, c: seq<Range>)
    ensures Lengths(a + c) == Lengths(a) + Lengths(c)
  {
    if a == [] {
      assert a + c == c;
    } else {
      LengthsAppend(a[1..], c);
      assert (a + c)[1..] == a[1..] + c;
    }
  }

  lemma {:induction false} SortLengths(ranges: seq<Range>)
    ensures Lengths(Sort(RangeLeq, ranges)) == Lengths(ranges)
  {
    if ranges != [] {
      SortLengths(ranges[1..]);
      InsertLengths(ranges[0], Sort(RangeLeq, ranges[1..]));
    }
  }

  lemma {:induction false} InsertLengths(x: Range, s: seq<Range>)
    ensures Lengths(Insert(RangeLeq, x, s)) == x.1 - x.0 + Lengths(s)
  {
    LengthsAppend([x], s);
    if s != [] && !RangeLeq(x, s[0]) {
      InsertLengths(x, s[1..]);
      assert Insert(RangeLeq, x, s)[1..] == Insert(RangeLeq, x, s[1..]);
    } else {
      assert Insert(RangeLeq, x, s) == [x] + s;
    }
  }

  lemma {:induction false} ChainLengths(ranges: seq<Range>, from: int, to: int)
    requires Chain(ranges, from, to)
    ensures Lengths(ranges) == to - from
  {
    if ranges != [] {
      ChainLengths(ranges[1..], ranges[0].1, to);
    }
  }

  /** Ranges that store every byte once add up to the payload. */
  lemma StoredLengths(ranges: seq<Range>, length: int)
    requires Inside(ranges, length) && StoredOnce(ranges, length) && length >= PACK_HEADER
    ensures Lengths(ranges) == length - PACK_HEADER
  {
    var sorted := Sort(RangeLeq, ranges);
    SortKeepsCover(ranges, length);
    var c := SortedChain(sorted, |sorted|, length);
    Sequences.PrefixAll(sorted);
    ChainLengths(sorted, PACK_HEADER, c);
    SortLengths(ranges);
    NextStart(sorted, |sorted|, c, length);
  }

  lemma {:induction false} SortedChain(sorted: seq<Range>, i: nat, length: int) returns (c: int)
    requires Inside(sorted, length) && SortedBy(RangeLeq, sorted) && StoredOnce(sorted, length) && length >= PACK_HEADER
    requires i <= |sorted|
    ensures Chain(sorted[..i], PACK_HEADER, c)
  {
    hide Chain, SortedBy, StoredOnce, Inside;
    if i == 0 {
      EmptyChain(PACK_HEADER);
      c := PACK_HEADER;
    } else {
      var before := SortedChain(sorted, i - 1, length);
      NextStart(sorted, i - 1, before, length);
      ChainSnoc(sorted[..i - 1], PACK_HEADER, before, sorted[i - 1]);
      Sequences.PrefixSnoc(sorted, i - 1);
      c := sorted[i - 1].1;
    }
  }
}
