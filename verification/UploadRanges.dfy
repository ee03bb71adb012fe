/** Upload coverage pages: the output check admits exactly one list for each set of bytes. */
module UploadRanges {
  import opened Basics

  /** Bytes `start` up to but not including `end`. */
  datatype UploadRange = UploadRange(start: U64, end: U64)

  /** The check made before a page is encoded: nonempty ranges, each strictly past its predecessor. */
  predicate ValidRanges(ranges: seq<UploadRange>) {
    && (forall i :: 0 <= i < |ranges| ==> ranges[i].start < ranges[i].end)
    && forall i :: 0 <= i < |ranges| - 1 ==> ranges[i].end < ranges[i + 1].start
  }

  predicate Within(range: UploadRange, x: int) { range.start <= x < range.end }

  predicate Covers(ranges: seq<UploadRange>, x: int) {
    exists i :: 0 <= i < |ranges| && Within(ranges[i], x)
  }

  /** Checking neighbours separates every pair: all ranges are disjoint, with a gap between any two. */
  lemma {:induction false} PairwiseSeparated(ranges: seq<UploadRange>, i: nat, j: nat)
    requires ValidRanges(ranges) && i < j < |ranges|
    ensures ranges[i].end < ranges[j].start
    decreases j - i
  {
    if i + 1 < j {
      PairwiseSeparated(ranges, i + 1, j);
      assert ranges[i].end < ranges[i + 1].start;
    }
  }

  lemma TailCovers(ranges: seq<UploadRange>, x: int)
    requires ValidRanges(ranges) && ranges != []
    ensures ValidRanges(ranges[1..])
    ensures Covers(ranges[1..], x) <==> Covers(ranges, x) && !Within(ranges[0], x)
    ensures Covers(ranges[1..], x) ==> ranges[0].end < x
  {
    var tail := ranges[1..];
    assert forall k :: 1 <= k < |ranges| ==> tail[k - 1] == ranges[k];
    if Covers(tail, x) {
      var i :| 0 <= i < |tail| && Within(tail[i], x);
      PairwiseSeparated(ranges, 0, i + 1);
      assert Within(ranges[i + 1], x);
    }
    if Covers(ranges, x) && !Within(ranges[0], x) {
      var i :| 0 <= i < |ranges| && Within(ranges[i], x);
      assert Within(tail[i - 1], x);
    }
  }

  /** The first range starts at the least covered byte and ends at the first gap after it. */
  lemma FirstRange(ranges: seq<UploadRange>)
    requires ValidRanges(ranges) && ranges != []
    ensures Covers(ranges, ranges[0].start) && !Covers(ranges, ranges[0].end)
    ensures forall x :: Covers(ranges, x) ==> ranges[0].start <= x
    ensures forall x :: ranges[0].start <= x < ranges[0].end ==> Covers(ranges, x)
  {
    assert Within(ranges[0], ranges[0].start);
    forall x
      ensures Covers(ranges, x) ==> ranges[0].start <= x
      ensures Within(ranges[0], x) ==> Covers(ranges, x)
    {
      TailCovers(ranges, x);
    }
    TailCovers(ranges, ranges[0].end);
  }

  /** Two accepted lists that cover the same bytes are the same list. */
  lemma {:induction false} NormalFormUnique(a: seq<UploadRange>, b: seq<UploadRange>)
    requires ValidRanges(a) && ValidRanges(b)
    requires forall x :: Covers(a, x) <==> Covers(b, x)
    ensures a == b
  {
    if a == [] {
      CoversNothing(b);
    } else if b == [] {
      CoversNothing(a);
    } else {
      SameFirst(a, b);
      forall x
        ensures Covers(a[1..], x) <==> Covers(b[1..], x)
      {
        TailCovers(a, x);
        TailCovers(b, x);
      }
      TailCovers(a, 0);
      TailCovers(b, 0);
      NormalFormUnique(a[1..], b[1..]);
      assert a == [a[0]] + a[1..] && b == [b[0]] + b[1..];
    }
  }

  lemma CoversNothing(ranges: seq<UploadRange>)
    requires ValidRanges(ranges) && forall x :: !Covers(ranges, x)
    ensures ranges == []
  {
    if ranges != [] {
      FirstRange(ranges);
    }
  }

  lemma SameFirst(a: seq<UploadRange>, b: seq<UploadRange>)
    requires ValidRanges(a) && ValidRanges(b) && a != [] && b != []
    requires forall x :: Covers(a, x) <==> Covers(b, x)
    ensures a[0] == b[0]
  {
    FirstRange(a);
    FirstRange(b);
    assert Covers(b, a[0].start) && Covers(a, b[0].start);
    assert !Covers(b, a[0].end) && !Covers(a, b[0].end);
  }
}
