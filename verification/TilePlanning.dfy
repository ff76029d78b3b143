/** Raster tile planning along one axis (shared/detection_tile_planning.py). */
module TilePlanning {
  import Sequences
  import opened Results

  predicate ValidAxis(fullSize: int, tileSize: int, overlap: int) {
    fullSize > 0 && tileSize > 0 && 0 <= overlap < tileSize
  }

  /** What the planner promises of the starts along one axis. */
  ghost predicate Covers(starts: seq<int>, fullSize: int, tileSize: int, overlap: int) {
    && starts != [] && starts[0] == 0
    && starts[|starts| - 1] == (if fullSize <= tileSize then 0 else fullSize - tileSize)
    && (forall i, j | 0 <= i < j < |starts| :: starts[i] < starts[j])
    && (forall i | 0 <= i < |starts| - 1 :: Touch(starts[i], starts[i + 1], tileSize, overlap))
  }

  /** Adjacent windows leave no gap, and share a pixel when an overlap was asked for. */
  predicate Touch(left: int, right: int, tileSize: int, overlap: int) {
    if overlap > 0 then right < left + tileSize else right <= left + tileSize
  }

  /** Python's range(from, limit + 1, stride). */
  function Strided(from: int, limit: int, stride: int): seq<int>
    requires stride > 0
    decreases limit - from
  {
    if from > limit then [] else [from] + Strided(from + stride, limit, stride)
  }

  function TileStarts(fullSize: int, tileSize: int, overlap: int): seq<int>
    requires ValidAxis(fullSize, tileSize, overlap)
  {
    if fullSize <= tileSize then [0]
    else
      StridedSteps(0, fullSize - tileSize, tileSize - overlap);
      Finish(Strided(0, fullSize - tileSize, tileSize - overlap), fullSize - tileSize, overlap)
  }

  /** Reaches the edge, by one more start or by shifting the last one. */
  function Finish(starts: seq<int>, last: int, overlap: int): seq<int>
    requires starts != []
  {
    var end := starts[|starts| - 1];
    if end == last then starts
    else if |starts| > 1 && overlap > 0 && last - end < overlap then starts[..|starts| - 1] + [last]
    else starts + [last]
  }

  method StridedList(last: int, stride: int) returns (starts: seq<int>)
    requires stride > 0
    ensures starts == Strided(0, last, stride)
  {
    hide Strided;
    starts := [];
    var next := 0;
    ghost var rest := Strided(0, last, stride);
    Sequences.AppendNothing(rest);
    while next < last + 1
      invariant starts + rest == Strided(0, last, stride) && rest == Strided(next, last, stride)
      decreases last - next
    {
      Unroll(next, last, stride);
      ghost var tail := Strided(next + stride, last, stride);
      Sequences.AppendAssociative(starts, [next], tail);
      starts, rest, next := starts + [next], tail, next + stride;
    }
    Exhausted(next, last, stride);
    Sequences.AppendNothing(starts);
  }

  lemma StridedNonEmpty(last: int, stride: int)
    requires stride > 0 && last >= 0
    ensures Strided(0, last, stride) != []
  {
  }

  method BuildTileStarts(fullSize: int, tileSize: int, overlap: int) returns (r: Option<seq<int>>)
    ensures r.Some? <==> ValidAxis(fullSize, tileSize, overlap)
    ensures r.Some? ==> r.value == TileStarts(fullSize, tileSize, overlap) && Covers(r.value, fullSize, tileSize, overlap)
  {
    hide Covers, Strided, Steps;
    if fullSize <= 0 || tileSize <= 0 || overlap < 0 || overlap >= tileSize {
      return None;
    }
    TileStartsCover(fullSize, tileSize, overlap);
    if fullSize <= tileSize {
      return Some([0]);
    }
    var stride, last := tileSize - overlap, fullSize - tileSize;
    StridedNonEmpty(last, stride);
    var starts := StridedList(last, stride);
    if starts[|starts| - 1] != last {
      var distance := last - starts[|starts| - 1];
      if |starts| > 1 && overlap > 0 && distance < overlap {
        starts := starts[..|starts| - 1] + [last];
      } else {
        starts := starts + [last];
      }
    }
    return Some(starts);
  }

  lemma Unroll(next: int, last: int, stride: int)
    requires stride > 0 && next <= last
    ensures Strided(next, last, stride) == [next] + Strided(next + stride, last, stride)
  {
  }

  lemma Exhausted(next: int, last: int, stride: int)
    requires stride > 0 && next > last
    ensures Strided(next, last, stride) == []
  {
  }

  /** Starts one stride apart, from the first to the last that fits. */
  ghost predicate Steps(starts: seq<int>, from: int, limit: int, stride: int) {
    && starts != [] && starts[0] == from && limit - stride < starts[|starts| - 1] <= limit
    && (forall i | 0 <= i < |starts| - 1 :: starts[i + 1] == starts[i] + stride)
    && (forall i, j | 0 <= i < j < |starts| :: starts[i] < starts[j])
  }

  lemma {:induction false} StridedSteps(from: int, limit: int, stride: int)
    requires stride > 0 && from <= limit
    ensures Steps(Strided(from, limit, stride), from, limit, stride)
    decreases limit - from
  {
    if from + stride <= limit {
      StridedSteps(from + stride, limit, stride);
      var rest := Strided(from + stride, limit, stride);
      forall i, j | 0 <= i < j < |[from] + rest| ensures ([from] + rest)[i] < ([from] + rest)[j] {
        assert 1 < j ==> rest[0] < rest[j - 1];
      }
    } else {
      assert Strided(from, limit, stride) == [from];
    }
  }

  lemma TileStartsCover(fullSize: int, tileSize: int, overlap: int)
    requires ValidAxis(fullSize, tileSize, overlap)
    ensures Covers(TileStarts(fullSize, tileSize, overlap), fullSize, tileSize, overlap)
  {
    if fullSize > tileSize {
      StridedSteps(0, fullSize - tileSize, tileSize - overlap);
      FinishCovers(Strided(0, fullSize - tileSize, tileSize - overlap), fullSize, tileSize, overlap);
    }
  }

  lemma FinishCovers(starts: seq<int>, fullSize: int, tileSize: int, overlap: int)
    requires ValidAxis(fullSize, tileSize, overlap) && fullSize > tileSize
    requires Steps(starts, 0, fullSize - tileSize, tileSize - overlap)
    ensures Covers(Finish(starts, fullSize - tileSize, overlap), fullSize, tileSize, overlap)
  {
    var last, n := fullSize - tileSize, |starts|;
    if starts[n - 1] != last {
      if n > 1 && overlap > 0 && last - starts[n - 1] < overlap {
        ShiftCovers(starts, fullSize, tileSize, overlap);
      } else {
        AppendCovers(starts, fullSize, tileSize, overlap);
      }
    }
  }

  /** Shifting the last start keeps it within reach of the one before. */
  lemma ShiftCovers(starts: seq<int>, fullSize: int, tileSize: int, overlap: int)
    requires ValidAxis(fullSize, tileSize, overlap) && fullSize > tileSize
    requires Steps(starts, 0, fullSize - tileSize, tileSize - overlap) && |starts| > 1
    requires fullSize - tileSize - starts[|starts| - 1] < overlap
    ensures Covers(starts[..|starts| - 1] + [fullSize - tileSize], fullSize, tileSize, overlap)
  {
    var n := |starts|;
    var shifted := starts[..n - 1] + [fullSize - tileSize];
    assert starts[n - 1] == starts[n - 2] + (tileSize - overlap);
    forall i | 0 <= i < n - 1 ensures Touch(shifted[i], shifted[i + 1], tileSize, overlap) {
      assert shifted[i] == starts[i] && (i < n - 2 ==> shifted[i + 1] == starts[i + 1]);
    }
  }

  lemma AppendCovers(starts: seq<int>, fullSize: int, tileSize: int, overlap: int)
    requires ValidAxis(fullSize, tileSize, overlap) && fullSize > tileSize
    requires Steps(starts, 0, fullSize - tileSize, tileSize - overlap) && starts[|starts| - 1] != fullSize - tileSize
    ensures Covers(starts + [fullSize - tileSize], fullSize, tileSize, overlap)
  {
    var longer := starts + [fullSize - tileSize];
    forall i | 0 <= i < |starts| ensures Touch(longer[i], longer[i + 1], tileSize, overlap) {
      assert longer[i] == starts[i] && (i < |starts| - 1 ==> longer[i + 1] == starts[i + 1]);
    }
  }

  /** The window of one start: as long as a tile, cut at the raster's edge. */
  function Extent(start: int, fullSize: int, tileSize: int): int {
    if tileSize <= fullSize - start then tileSize else fullSize - start
  }

  /** Every window lies inside the raster and is not empty. */
  lemma WindowsInside(starts: seq<int>, fullSize: int, tileSize: int, overlap: int, i: nat)
    requires ValidAxis(fullSize, tileSize, overlap) && Covers(starts, fullSize, tileSize, overlap) && i < |starts|
    ensures 0 <= starts[i] && 0 < Extent(starts[i], fullSize, tileSize) && starts[i] + Extent(starts[i], fullSize, tileSize) <= fullSize
  {
    assert i > 0 ==> starts[0] < starts[i];
    assert i < |starts| - 1 ==> starts[i] < starts[|starts| - 1];
  }

  /** Every pixel lies in some window. */
  lemma EveryPixelCovered(starts: seq<int>, fullSize: int, tileSize: int, overlap: int, x: int) returns (i: nat)
    requires ValidAxis(fullSize, tileSize, overlap) && Covers(starts, fullSize, tileSize, overlap) && 0 <= x < fullSize
    ensures i < |starts| && starts[i] <= x < starts[i] + Extent(starts[i], fullSize, tileSize)
  {
    i := 0;
    while i + 1 < |starts| && starts[i + 1] <= x
      invariant i < |starts| && starts[i] <= x
    {
      i := i + 1;
    }
    if i + 1 < |starts| {
      assert Touch(starts[i], starts[i + 1], tileSize, overlap);
    }
  }
}
