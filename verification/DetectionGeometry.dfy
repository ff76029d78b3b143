/**
 * Spatial deduplication of detections (shared/detection_geometry.py): the class-and-cell grid against
 * the quadratic scan it replaces, and what the greedy scan keeps. Polygon area, centroid and
 * point-in-polygon are parameters; coordinates are reals or one of the non-finite floats.
 */
module DetectionGeometry {
  import opened Ordering
  import Sequences
  import opened Results

  /** A float; finite values are exact. */
  datatype Num = Fin(r: real) | PosInf | NegInf | NaN

  /** The comparison of IEEE 754: false whenever NaN takes part. */
  predicate Less(a: Num, b: Num) {
    match (a, b)
    case (Fin(x), Fin(y)) => x < y
    case (NegInf, Fin(_)) => true
    case (NegInf, PosInf) => true
    case (Fin(_), PosInf) => true
    case _ => false
  }

  /** abs(a - b) > threshold. */
  predicate Apart(a: Num, b: Num, threshold: real) {
    if a.NaN? || b.NaN? then false
    else if a.Fin? && b.Fin? then a.r - b.r > threshold || b.r - a.r > threshold
    else a != b
  }

  datatype Point = Point(x: Num, y: Num)

  datatype Box = Box(x1: Num, y1: Num, x2: Num, y2: Num) {
    predicate Finite() { x1.Fin? && y1.Fin? && x2.Fin? && y2.Fin? }
  }

  datatype Detection = Detection(x: Num, y: Num, confidence: real, classId: int, className: string, segment: seq<Point>,
                                 tileIndex: int)

  /** The foreign geometry; overlap is the IoU test on boxes that are not finite. */
  datatype Geometry = Geometry(area: seq<Point> -> real, centroid: seq<Point> -> Point,
                               contains: (seq<Point>, Point) -> bool, overlap: (Box, Box, real) -> bool)

  datatype Rules = Rules(g: Geometry, centerThreshold: real, iouThreshold: real)

  predicate IsPolygon(d: Detection) { |d.segment| >= 3 }

  /** Python's min and max: the first value that no later one beats. */
  function MinOf(s: seq<Num>): Num
    requires s != []
  {
    if |s| == 1 then s[0]
    else
      var m := MinOf(s[..|s| - 1]);
      if Less(s[|s| - 1], m) then s[|s| - 1] else m
  }

  function MaxOf(s: seq<Num>): Num
    requires s != []
  {
    if |s| == 1 then s[0]
    else
      var m := MaxOf(s[..|s| - 1]);
      if Less(m, s[|s| - 1]) then s[|s| - 1] else m
  }

  function Xs(segment: seq<Point>): seq<Num> { seq(|segment|, i requires 0 <= i < |segment| => segment[i].x) }
  function Ys(segment: seq<Point>): seq<Num> { seq(|segment|, i requires 0 <= i < |segment| => segment[i].y) }

  function Bbox(segment: seq<Point>): Box
    requires segment != []
  {
    Box(MinOf(Xs(segment)), MinOf(Ys(segment)), MaxOf(Xs(segment)), MaxOf(Ys(segment)))
  }

  lemma {:induction false} MinIsLeast(s: seq<Num>)
    requires s != []
    ensures forall v | v in s :: !Less(v, MinOf(s))
  {
    if |s| > 1 {
      MinIsLeast(s[..|s| - 1]);
      Sequences.PrefixSnoc(s, |s| - 1);
      Sequences.PrefixAll(s);
    }
  }

  lemma {:induction false} MaxIsGreatest(s: seq<Num>)
    requires s != []
    ensures forall v | v in s :: !Less(MaxOf(s), v)
  {
    if |s| > 1 {
      MaxIsGreatest(s[..|s| - 1]);
      Sequences.PrefixSnoc(s, |s| - 1);
      Sequences.PrefixAll(s);
    }
  }

  predicate InBox(p: Point, box: Box)
    requires box.Finite()
  {
    p.x.Fin? && p.y.Fin? && box.x1.r <= p.x.r <= box.x2.r && box.y1.r <= p.y.r <= box.y2.r
  }

  function Larger(a: real, b: real): real { if a >= b then a else b }
  function Smaller(a: real, b: real): real { if a <= b then a else b }

  function BoxArea(box: Box): real
    requires box.Finite()
  {
    Larger(0.0, box.x2.r - box.x1.r) * Larger(0.0, box.y2.r - box.y1.r)
  }

  /** The overlap of two boxes along each axis; not positive when they are apart. */
  function OverlapX(a: Box, b: Box): real
    requires a.Finite() && b.Finite()
  {
    Smaller(a.x2.r, b.x2.r) - Larger(a.x1.r, b.x1.r)
  }

  function OverlapY(a: Box, b: Box): real
    requires a.Finite() && b.Finite()
  {
    Smaller(a.y2.r, b.y2.r) - Larger(a.y1.r, b.y1.r)
  }

  function Intersection(a: Box, b: Box): real
    requires a.Finite() && b.Finite()
  {
    OverlapX(a, b) * OverlapY(a, b)
  }

  function Quotient(inter: real, total: real): real { if total > 0.0 then inter / total else 0.0 }

  function Iou(a: Box, b: Box): real
    requires a.Finite() && b.Finite()
  {
    if OverlapX(a, b) <= 0.0 || OverlapY(a, b) <= 0.0 then 0.0
    else Quotient(Intersection(a, b), BoxArea(a) + BoxArea(b) - Intersection(a, b))
  }

  /** A symmetric ratio between zero and one. */
  lemma IouBounds(a: Box, b: Box)
    requires a.Finite() && b.Finite()
    ensures 0.0 <= Iou(a, b) <= 1.0 && Iou(a, b) == Iou(b, a)
  {
    hide BoxArea, Quotient, OverlapX, OverlapY, Intersection;
    OverlapSymmetric(a, b);
    OverlapInside(a, b);
    OverlapInside(b, a);
    if OverlapX(a, b) > 0.0 && OverlapY(a, b) > 0.0 {
      Ratio(Intersection(a, b), BoxArea(a) + BoxArea(b) - Intersection(a, b));
    }
  }

  lemma OverlapSymmetric(a: Box, b: Box)
    requires a.Finite() && b.Finite()
    ensures OverlapX(a, b) == OverlapX(b, a) && OverlapY(a, b) == OverlapY(b, a) && Intersection(a, b) == Intersection(b, a)
  {
  }

  lemma OverlapInside(a: Box, b: Box)
    requires a.Finite() && b.Finite()
    ensures OverlapX(a, b) > 0.0 && OverlapY(a, b) > 0.0 ==> 0.0 < Intersection(a, b) <= BoxArea(a)
  {
    if OverlapX(a, b) > 0.0 && OverlapY(a, b) > 0.0 {
      Product(OverlapX(a, b), a.x2.r - a.x1.r, OverlapY(a, b), a.y2.r - a.y1.r);
    }
  }

  lemma Product(a: real, b: real, c: real, d: real)
    requires 0.0 < a <= b && 0.0 < c <= d
    ensures 0.0 < a * c <= b * d
  {
    assert a * c <= b * c <= b * d;
  }

  lemma Ratio(part: real, whole: real)
    requires 0.0 < part <= whole
    ensures 0.0 < Quotient(part, whole) <= 1.0
  {
  }

  predicate Overlaps(r: Rules, a: Box, b: Box) {
    if a.Finite() && b.Finite() then Iou(a, b) >= r.iouThreshold else r.g.overlap(a, b, r.iouThreshold)
  }

  /** The kept polygon already shows the candidate. */
  predicate Duplicate(r: Rules, candidate: Detection, kept: Detection)
    requires IsPolygon(candidate) && IsPolygon(kept)
  {
    && candidate.className == kept.className
    && (|| r.g.contains(kept.segment, r.g.centroid(candidate.segment))
        || (exists p | p in candidate.segment :: r.g.contains(kept.segment, p))
        || (!Apart(candidate.x, kept.x, r.centerThreshold) && !Apart(candidate.y, kept.y, r.centerThreshold)
            && Overlaps(r, Bbox(candidate.segment), Bbox(kept.segment))))
  }

  // ----- The order and the quadratic scan -----

  function Area(r: Rules, d: Detection): real {
    if IsPolygon(d) then r.g.area(d.segment) else 0.0
  }

  /** The key of a is at least the key of b, area before confidence. */
  predicate KeyGeq(r: Rules, a: Detection, b: Detection) {
    Area(r, a) > Area(r, b) || (Area(r, a) == Area(r, b) && a.confidence >= b.confidence)
  }

  function ByKey(r: Rules): (Detection, Detection) -> bool { (a, b) => KeyGeq(r, a, b) }

  /** The reference: each detection in turn against everything kept so far. */
  function Scan(r: Rules, ordered: seq<Detection>): seq<Detection> {
    if ordered == [] then []
    else
      var kept, d := Scan(r, ordered[..|ordered| - 1]), ordered[|ordered| - 1];
      if Beaten(r, d, kept) then kept else kept + [d]
  }

  predicate Beaten(r: Rules, d: Detection, kept: seq<Detection>) {
    IsPolygon(d) && exists k | k in kept :: IsPolygon(k) && Duplicate(r, d, k)
  }

  function Dedupe(r: Rules, detections: seq<Detection>): seq<Detection> {
    Scan(r, Sort(ByKey(r), detections))
  }

  // ----- The grid -----

  const MAX_CELLS := 4096

  datatype Cells = Cells(x1: int, y1: int, x2: int, y2: int) {
    predicate Has(x: int, y: int) { x1 <= x <= x2 && y1 <= y <= y2 }
  }

  function CellSize(centerThreshold: real): real { Larger(centerThreshold, 1.0) }

  function CellBounds(box: Box, cellSize: real): Option<Cells>
    requires cellSize > 0.0
  {
    if !box.Finite() then None
    else
      var c := Cells((box.x1.r / cellSize).Floor, (box.y1.r / cellSize).Floor,
                     (box.x2.r / cellSize).Floor, (box.y2.r / cellSize).Floor);
      if (c.x2 - c.x1 + 1) * (c.y2 - c.y1 + 1) > MAX_CELLS then None else Some(c)
  }

  function BoundsOf(d: Detection, cellSize: real): Option<Cells>
    requires cellSize > 0.0 && IsPolygon(d)
  {
    CellBounds(Bbox(d.segment), cellSize)
  }

  /** Some cell belongs to both. */
  predicate Meet(a: Cells, b: Cells) {
    && (if a.x1 >= b.x1 then a.x1 else b.x1) <= (if a.x2 <= b.x2 then a.x2 else b.x2)
    && (if a.y1 >= b.y1 then a.y1 else b.y1) <= (if a.y2 <= b.y2 then a.y2 else b.y2)
  }

  /** The pairs the grid lets the scan compare. */
  predicate Compared(cellSize: real, d: Detection, kept: Detection)
    requires cellSize > 0.0 && IsPolygon(d) && IsPolygon(kept)
  {
    var a, b := BoundsOf(d, cellSize), BoundsOf(kept, cellSize);
    a.None? || b.None? || (d.className == kept.className && Meet(a.value, b.value))
  }

  function GridScan(r: Rules, ordered: seq<Detection>): seq<Detection> {
    if ordered == [] then []
    else
      var kept, d := GridScan(r, ordered[..|ordered| - 1]), ordered[|ordered| - 1];
      if BeatenInGrid(r, d, kept) then kept else kept + [d]
  }

  predicate BeatenInGrid(r: Rules, d: Detection, kept: seq<Detection>) {
    IsPolygon(d) && exists k | k in kept ::
      IsPolygon(k) && Compared(CellSize(r.centerThreshold), d, k) && Duplicate(r, d, k)
  }

  function GridDedupe(r: Rules, detections: seq<Detection>): seq<Detection> {
    GridScan(r, Sort(ByKey(r), detections))
  }

  type Key = (string, int, int)

  /** Python's sorted over a set of indices below n. */
  function SortedBelow(indices: set<nat>, n: nat): seq<nat> {
    if n == 0 then [] else SortedBelow(indices, n - 1) + (if n - 1 in indices then [n - 1] else [])
  }

  function Select(entries: seq<Detection>, indices: seq<nat>): seq<Detection>
    requires forall j | 0 <= j < |indices| :: indices[j] < |entries|
  {
    if indices == [] then []
    else
      Select(entries, indices[..|indices| - 1]) + [entries[indices[|indices| - 1]]]
  }

  lemma {:induction false} SortedBelowMembers(indices: set<nat>, n: nat)
    ensures forall i: nat :: i in SortedBelow(indices, n) <==> i in indices && i < n
    ensures forall j | 0 <= j < |SortedBelow(indices, n)| :: SortedBelow(indices, n)[j] < n
  {
    if n > 0 {
      SortedBelowMembers(indices, n - 1);
    }
  }

  lemma {:induction false} SelectMembers(entries: seq<Detection>, indices: seq<nat>)
    requires forall j | 0 <= j < |indices| :: indices[j] < |entries|
    ensures forall d :: d in Select(entries, indices) <==> exists i | i in indices :: entries[i] == d
  {
    if indices != [] {
      SelectMembers(entries, indices[..|indices| - 1]);
      assert indices == indices[..|indices| - 1] + [indices[|indices| - 1]];
    }
  }

  class DetectionGrid {
    const cellSize: real
    var entries: seq<Detection>
    var cells: map<Key, seq<nat>>
    var globalIndices: seq<nat>

    /** The lists of indices say exactly where each entry lies. */
    ghost predicate Valid()
      reads this
    {
      && cellSize > 0.0 && (forall d | d in entries :: IsPolygon(d))
      && (forall i: nat :: i in globalIndices <==> i < |entries| && BoundsOf(entries[i], cellSize).None?)
      && (forall key: Key, i: nat :: Listed(cells, key, i) <==> Lies(cellSize, entries, key, i))
    }

    constructor (centerThreshold: real)
      ensures Valid() && entries == [] && cellSize == CellSize(centerThreshold)
    {
      cellSize := Larger(centerThreshold, 1.0);
      entries := [];
      cells := map[];
      globalIndices := [];
    }

    method Add(d: Detection)
      requires Valid() && IsPolygon(d)
      modifies this
      ensures Valid() && entries == old(entries) + [d]
    {
      hide Bbox, Listed, Lies;
      var index := |entries|;
      entries := entries + [d];
      var bounds := BoundsOf(d, cellSize);
      OneMoreEntry(cellSize, old(entries), d);
      if bounds.None? {
        globalIndices := globalIndices + [index];
        return;
      }
      var c := bounds.value;
      var x := c.x1;
      while x <= c.x2
        invariant entries == old(entries) + [d] && globalIndices == old(globalIndices)
        invariant forall key: Key, i: nat :: Listed(cells, key, i)
                    <==> Listed(old(cells), key, i) || (i == index && Filed(d, c, key) && key.1 < x)
        decreases c.x2 - x
      {
        var y := c.y1;
        while y <= c.y2
          invariant entries == old(entries) + [d] && globalIndices == old(globalIndices)
          invariant forall key: Key, i: nat :: Listed(cells, key, i)
                      <==> Listed(old(cells), key, i)
                           || (i == index && Filed(d, c, key) && (key.1 < x || (key.1 == x && key.2 < y)))
          decreases c.y2 - y
        {
          var key := (d.className, x, y);
          ListedMore(cells, key, index);
          cells := cells[key := At(cells, key) + [index]];
          y := y + 1;
        }
        x := x + 1;
      }
    }

    /** The entries the candidate has to be compared with, oldest first. */
    method Candidates(d: Detection) returns (r: seq<Detection>)
      requires Valid() && IsPolygon(d)
      ensures forall k :: k in r <==> k in entries && IsPolygon(k) && Compared(cellSize, d, k)
    {
      hide Valid, Gathered, BoundsOf, Compared;
      GridFacts(this, d);
      var bounds := BoundsOf(d, cellSize);
      if bounds.None? {
        return entries;
      }
      var indices := set i | i in globalIndices;
      var c := bounds.value;
      var x := c.x1;
      GatherNone(cells, globalIndices, d, c);
      while x <= c.x2
        invariant Gathered(indices, cells, globalIndices, d, c, x, c.y1)
        decreases c.x2 - x
      {
        var y := c.y1;
        while y <= c.y2
          invariant Gathered(indices, cells, globalIndices, d, c, x, y)
          decreases c.y2 - y
        {
          GatherCell(indices, cells, globalIndices, d, c, x, y);
          indices := indices + (set i | i in At(cells, (d.className, x, y)));
          y := y + 1;
        }
        GatherColumn(indices, cells, globalIndices, d, c, x, y);
        x := x + 1;
      }
      GatheredExact(this, d, indices, x);
      SortedBelowMembers(indices, |entries|);
      SelectMembers(entries, SortedBelow(indices, |entries|));
      r := Select(entries, SortedBelow(indices, |entries|));
    }
  }

  /** The indices found before cell (x, y) of the sweep. */
  ghost predicate Gathered(indices: set<nat>, cells: map<Key, seq<nat>>, globals: seq<nat>, d: Detection, c: Cells, x: int, y: int) {
    forall i: nat :: i in indices <==> (i in globals || exists key: Key :: Swept(d, c, key, x, y) && Listed(cells, key, i))
  }

  predicate Swept(d: Detection, c: Cells, key: Key, x: int, y: int) {
    Filed(d, c, key) && (key.1 < x || (key.1 == x && key.2 < y))
  }

  lemma GridFacts(grid: DetectionGrid, d: Detection)
    requires grid.Valid() && IsPolygon(d)
    ensures grid.cellSize > 0.0 && forall k | k in grid.entries :: IsPolygon(k)
    ensures BoundsOf(d, grid.cellSize).None? ==> forall k | k in grid.entries :: Compared(grid.cellSize, d, k)
  {
  }

  lemma GatherNone(cells: map<Key, seq<nat>>, globals: seq<nat>, d: Detection, c: Cells)
    ensures Gathered((set i | i in globals), cells, globals, d, c, c.x1, c.y1)
  {
  }

  lemma GatherCell(indices: set<nat>, cells: map<Key, seq<nat>>, globals: seq<nat>, d: Detection, c: Cells, x: int, y: int)
    requires Gathered(indices, cells, globals, d, c, x, y) && c.Has(x, y)
    ensures Gathered(indices + (set i | i in At(cells, (d.className, x, y))), cells, globals, d, c, x, y + 1)
  {
    var more := indices + (set i | i in At(cells, (d.className, x, y)));
    forall key: Key ensures Swept(d, c, key, x, y + 1) <==> Swept(d, c, key, x, y) || key == (d.className, x, y) {
    }
    forall i: nat
      ensures i in more <==> (i in globals || exists key: Key :: Swept(d, c, key, x, y + 1) && Listed(cells, key, i))
    {
      if Listed(cells, (d.className, x, y), i) {
        assert Swept(d, c, (d.className, x, y), x, y + 1);
      }
    }
  }

  lemma GatherColumn(indices: set<nat>, cells: map<Key, seq<nat>>, globals: seq<nat>, d: Detection, c: Cells, x: int, y: int)
    requires Gathered(indices, cells, globals, d, c, x, y) && y > c.y2
    ensures Gathered(indices, cells, globals, d, c, x + 1, c.y1)
  {
    forall key: Key ensures Swept(d, c, key, x + 1, c.y1) <==> Swept(d, c, key, x, y) {
    }
  }

  lemma GatheredExact(grid: DetectionGrid, d: Detection, indices: set<nat>, x: int)
    requires grid.Valid() && IsPolygon(d) && BoundsOf(d, grid.cellSize).Some?
    requires var c := BoundsOf(d, grid.cellSize).value;
             x > c.x2 && Gathered(indices, grid.cells, grid.globalIndices, d, c, x, c.y1)
    ensures forall i: nat :: i in indices <==> i < |grid.entries| && Compared(grid.cellSize, d, grid.entries[i])
  {
    hide Listed, BoundsOf;
    var c := BoundsOf(d, grid.cellSize).value;
    forall i: nat ensures i in indices <==> i < |grid.entries| && Compared(grid.cellSize, d, grid.entries[i]) {
      if i < |grid.entries| {
        var b := BoundsOf(grid.entries[i], grid.cellSize);
        if b.Some? && d.className == grid.entries[i].className && Meet(c, b.value) {
          var key := (d.className, if c.x1 >= b.value.x1 then c.x1 else b.value.x1, if c.y1 >= b.value.y1 then c.y1 else b.value.y1);
          assert Swept(d, c, key, x, c.y1) && Lies(grid.cellSize, grid.entries, key, i);
          assert Listed(grid.cells, key, i);
        }
      }
      if key: Key :| Swept(d, c, key, x, c.y1) && Listed(grid.cells, key, i) {
        assert Lies(grid.cellSize, grid.entries, key, i);
      }
    }
  }

  function At(cells: map<Key, seq<nat>>, key: Key): seq<nat> {
    if key in cells then cells[key] else []
  }

  predicate Listed(cells: map<Key, seq<nat>>, key: Key, i: nat) { i in At(cells, key) }

  /** Entry i covers the cell. */
  predicate Lies(cellSize: real, entries: seq<Detection>, key: Key, i: nat)
    requires cellSize > 0.0 && forall d | d in entries :: IsPolygon(d)
  {
    && i < |entries|
    && var bounds := BoundsOf(entries[i], cellSize);
       bounds.Some? && Filed(entries[i], bounds.value, key)
  }

  predicate Filed(d: Detection, c: Cells, key: Key) { key.0 == d.className && c.Has(key.1, key.2) }

  lemma ListedMore(cells: map<Key, seq<nat>>, key: Key, index: nat)
    ensures forall k: Key, i: nat :: Listed(cells[key := At(cells, key) + [index]], k, i)
              <==> Listed(cells, k, i) || (k == key && i == index)
  {
    var more := cells[key := At(cells, key) + [index]];
    forall k: Key, i: nat ensures Listed(more, k, i) <==> Listed(cells, k, i) || (k == key && i == index) {
      assert At(more, k) == if k == key then At(cells, key) + [index] else At(cells, k);
    }
  }

  lemma OneMoreEntry(cellSize: real, entries: seq<Detection>, d: Detection)
    requires cellSize > 0.0 && IsPolygon(d) && forall e | e in entries :: IsPolygon(e)
    ensures forall e | e in entries + [d] :: IsPolygon(e)
    ensures forall key: Key, i: nat :: Lies(cellSize, entries + [d], key, i)
              <==> Lies(cellSize, entries, key, i)
                   || (i == |entries| && BoundsOf(d, cellSize).Some? && Filed(d, BoundsOf(d, cellSize).value, key))
  {
  }

  // ----- The grid against the quadratic scan -----

  /** Hits lie in the kept box, and centroids in their own; needed only where the boxes are finite. */
  ghost predicate SoundOn(g: Geometry, segments: set<seq<Point>>) {
    forall s | s in segments && |s| >= 3 && Bbox(s).Finite() ::
      InBox(g.centroid(s), Bbox(s)) && forall p | g.contains(s, p) :: InBox(p, Bbox(s))
  }

  function Segments(detections: seq<Detection>): set<seq<Point>> { set d | d in detections :: d.segment }

  /** A finite point common to two boxes puts them in a common cell. */
  lemma CommonPoint(a: Box, b: Box, cellSize: real, x: real, y: real)
    requires a.Finite() && b.Finite() && cellSize > 0.0
    requires InBox(Point(Fin(x), Fin(y)), a) && InBox(Point(Fin(x), Fin(y)), b)
    requires CellBounds(a, cellSize).Some? && CellBounds(b, cellSize).Some?
    ensures Meet(CellBounds(a, cellSize).value, CellBounds(b, cellSize).value)
  {
    FloorMonotone(a.x1.r, x, cellSize); FloorMonotone(x, a.x2.r, cellSize);
    FloorMonotone(a.y1.r, y, cellSize); FloorMonotone(y, a.y2.r, cellSize);
    FloorMonotone(b.x1.r, x, cellSize); FloorMonotone(x, b.x2.r, cellSize);
    FloorMonotone(b.y1.r, y, cellSize); FloorMonotone(y, b.y2.r, cellSize);
  }

  lemma FloorMonotone(a: real, b: real, cellSize: real)
    requires cellSize > 0.0 && a <= b
    ensures (a / cellSize).Floor <= (b / cellSize).Floor
  {
    DivideMonotone(a, b, cellSize);
  }

  lemma DivideMonotone(a: real, b: real, c: real)
    requires c > 0.0 && a <= b
    ensures a / c <= b / c
  {
  }

  /** A vertex that lies in the kept box lies in its own. */
  lemma VertexInBox(segment: seq<Point>, p: Point)
    requires p in segment && Bbox(segment).Finite() && p.x.Fin? && p.y.Fin?
    ensures InBox(p, Bbox(segment))
  {
    var i :| 0 <= i < |segment| && segment[i] == p;
    assert Xs(segment)[i] == p.x && Ys(segment)[i] == p.y;
    assert p.x in Xs(segment) && p.y in Ys(segment);
    MinIsLeast(Xs(segment));
    MinIsLeast(Ys(segment));
    MaxIsGreatest(Xs(segment));
    MaxIsGreatest(Ys(segment));
  }

  lemma OverlapPoint(a: Box, b: Box) returns (x: real, y: real)
    requires a.Finite() && b.Finite() && Iou(a, b) > 0.0
    ensures InBox(Point(Fin(x), Fin(y)), a) && InBox(Point(Fin(x), Fin(y)), b)
  {
    x, y := Larger(a.x1.r, b.x1.r), Larger(a.y1.r, b.y1.r);
  }

  /** The grid skips no duplicate. */
  lemma DuplicatesAreCompared(r: Rules, d: Detection, kept: Detection)
    requires IsPolygon(d) && IsPolygon(kept) && Duplicate(r, d, kept)
    requires SoundOn(r.g, {d.segment, kept.segment}) && r.iouThreshold > 0.0
    ensures Compared(CellSize(r.centerThreshold), d, kept)
  {
    hide Iou, CellBounds, Bbox, Meet;
    var size := CellSize(r.centerThreshold);
    var a, b := Bbox(d.segment), Bbox(kept.segment);
    if CellBounds(a, size).Some? && CellBounds(b, size).Some? {
      FiniteBounds(a, size);
      FiniteBounds(b, size);
      assert d.segment in {d.segment, kept.segment} && kept.segment in {d.segment, kept.segment};
      if r.g.contains(kept.segment, r.g.centroid(d.segment)) {
        var p := r.g.centroid(d.segment);
        CommonPoint(a, b, size, p.x.r, p.y.r);
      } else if p :| p in d.segment && r.g.contains(kept.segment, p) {
        VertexInBox(d.segment, p);
        CommonPoint(a, b, size, p.x.r, p.y.r);
      } else {
        var x, y := OverlapPoint(a, b);
        CommonPoint(a, b, size, x, y);
      }
    }
  }

  lemma FiniteBounds(box: Box, cellSize: real)
    requires cellSize > 0.0 && CellBounds(box, cellSize).Some?
    ensures box.Finite()
  {
  }

  /** With a positive threshold the grid scan is the quadratic scan. */
  lemma {:induction false} ScansAgree(r: Rules, ordered: seq<Detection>)
    requires r.iouThreshold > 0.0 && SoundOn(r.g, Segments(ordered))
    ensures GridScan(r, ordered) == Scan(r, ordered)
    ensures forall d | d in Scan(r, ordered) :: d in ordered
  {
    hide Duplicate, Compared;
    if ordered != [] {
      var init, d := ordered[..|ordered| - 1], ordered[|ordered| - 1];
      assert forall e | e in init :: e in ordered;
      assert Segments(init) <= Segments(ordered);
      ScansAgree(r, init);
      forall k | k in Scan(r, init) && IsPolygon(k) && IsPolygon(d) && Duplicate(r, d, k)
        ensures Compared(CellSize(r.centerThreshold), d, k)
      {
        assert d.segment in Segments(ordered) && k.segment in Segments(ordered);
        DuplicatesAreCompared(r, d, k);
      }
    }
  }

  lemma GridMatchesScan(r: Rules, detections: seq<Detection>)
    requires r.iouThreshold > 0.0 && SoundOn(r.g, Segments(detections))
    ensures GridDedupe(r, detections) == Dedupe(r, detections)
  {
    var ordered := Sort(ByKey(r), detections);
    forall d ensures d in ordered <==> d in detections {
      assert d in multiset(ordered) <==> d in multiset(detections);
    }
    assert Segments(ordered) == Segments(detections);
    ScansAgree(r, ordered);
  }

  /** Two triangles of one class, in cells that do not meet, with centres that are not apart. */
  function Triangle(at: real): seq<Point> {
    [Point(Fin(at), Fin(at)), Point(Fin(at + 1.0), Fin(at)), Point(Fin(at), Fin(at + 1.0))]
  }

  function Marker(r: Rules, at: real): Detection {
    var centre := if r.centerThreshold < 0.0 then NaN else Fin(0.0);
    Detection(centre, centre, 1.0, 0, "car", Triangle(at), 0)
  }

  lemma TriangleBox(at: real)
    ensures Bbox(Triangle(at)) == Box(Fin(at), Fin(at), Fin(at + 1.0), Fin(at + 1.0))
  {
    var xs, ys := Xs(Triangle(at)), Ys(Triangle(at));
    assert xs == [Fin(at), Fin(at + 1.0), Fin(at)] && ys == [Fin(at), Fin(at), Fin(at + 1.0)];
    assert xs[..2] == [Fin(at), Fin(at + 1.0)] && ys[..2] == [Fin(at), Fin(at)];
    assert xs[..2][..1] == [Fin(at)] && ys[..2][..1] == [Fin(at)];
    assert MinOf(xs[..2]) == Fin(at) && MaxOf(xs[..2]) == Fin(at + 1.0);
    assert MinOf(ys[..2]) == Fin(at) && MaxOf(ys[..2]) == Fin(at);
  }

  lemma TriangleCells(size: real)
    requires size >= 1.0
    ensures CellBounds(Bbox(Triangle(0.0)), size).Some? && CellBounds(Bbox(Triangle(2.0 * size)), size).Some?
    ensures !Meet(CellBounds(Bbox(Triangle(0.0)), size).value, CellBounds(Bbox(Triangle(2.0 * size)), size).value)
    ensures !Meet(CellBounds(Bbox(Triangle(2.0 * size)), size).value, CellBounds(Bbox(Triangle(0.0)), size).value)
  {
    TriangleBox(0.0);
    TriangleBox(2.0 * size);
    SmallQuotient(size);
    assert 2.0 * size / size == 2.0;
    assert (2.0 * size + 1.0) / size == 2.0 + 1.0 / size;
    assert 0.0 / size == 0.0;
    assert (2.0).Floor == 2 && (0.0).Floor == 0;
  }

  lemma SmallQuotient(size: real)
    requires size >= 1.0
    ensures 0.0 < 1.0 / size <= 1.0
  {
  }

  /** With no positive threshold, disjoint boxes count as overlapping, and the grid misses the pair. */
  lemma MarkersDiffer(r: Rules)
    requires r.iouThreshold <= 0.0
    ensures var pair := [Marker(r, 0.0), Marker(r, 2.0 * CellSize(r.centerThreshold))];
            |Dedupe(r, pair)| == 1 && |GridDedupe(r, pair)| == 2
  {
    hide Duplicate, CellBounds, Meet, Dedupe, GridDedupe, Compared;
    var size := CellSize(r.centerThreshold);
    var a, b := Marker(r, 0.0), Marker(r, 2.0 * size);
    MarkersDuplicate(r, 0.0, 2.0 * size);
    MarkersDuplicate(r, 2.0 * size, 0.0);
    TriangleCells(size);
    NotCompared(size, a, b);
    TwoDedupes(r, a, b);
  }

  lemma NotCompared(size: real, a: Detection, b: Detection)
    requires size > 0.0 && IsPolygon(a) && IsPolygon(b) && BoundsOf(a, size).Some? && BoundsOf(b, size).Some?
    requires !Meet(BoundsOf(a, size).value, BoundsOf(b, size).value) && !Meet(BoundsOf(b, size).value, BoundsOf(a, size).value)
    ensures !Compared(size, a, b) && !Compared(size, b, a)
  {
  }

  lemma TwoDedupes(r: Rules, a: Detection, b: Detection)
    requires IsPolygon(a) && IsPolygon(b) && Duplicate(r, b, a) && Duplicate(r, a, b)
    requires !Compared(CellSize(r.centerThreshold), b, a) && !Compared(CellSize(r.centerThreshold), a, b)
    ensures |Dedupe(r, [a, b])| == 1 && |GridDedupe(r, [a, b])| == 2
  {
    hide Duplicate, Compared, KeyGeq, Scan, GridScan;
    TwoScans(r, a, b);
    TwoScans(r, b, a);
    SortTwo(ByKey(r), a, b);
  }

  lemma SortTwo(leq: (Detection, Detection) -> bool, a: Detection, b: Detection)
    ensures Sort(leq, [a, b]) == [a, b] || Sort(leq, [a, b]) == [b, a]
  {
    assert [a, b][1..] == [b] && [b][1..] == [];
    assert Sort(leq, [b]) == [b];
  }

  lemma MarkersDuplicate(r: Rules, at: real, at': real)
    requires r.iouThreshold <= 0.0 && (at + 1.0 < at' || at' + 1.0 < at)
    ensures Duplicate(r, Marker(r, at), Marker(r, at'))
  {
    TriangleBox(at);
    TriangleBox(at');
  }

  lemma TwoScans(r: Rules, a: Detection, b: Detection)
    requires IsPolygon(a) && IsPolygon(b) && Duplicate(r, b, a)
    requires !Compared(CellSize(r.centerThreshold), b, a)
    ensures Scan(r, [a, b]) == [a] && GridScan(r, [a, b]) == [a, b]
  {
    hide Duplicate, Compared;
    assert [a, b][..1] == [a] && [a][..0] == [];
    assert Scan(r, []) == [] && GridScan(r, []) == [];
    assert Scan(r, [a]) == [] + [a] == [a] && GridScan(r, [a]) == [] + [a] == [a];
    assert a in [a];
  }

  /** The grid may replace the quadratic scan, on every list, exactly when the IoU threshold is positive. */
  lemma GridRefinesScanExactly(r: Rules)
    requires forall segments :: SoundOn(r.g, segments)
    ensures (forall detections :: GridDedupe(r, detections) == Dedupe(r, detections)) <==> r.iouThreshold > 0.0
  {
    if r.iouThreshold > 0.0 {
      forall detections ensures GridDedupe(r, detections) == Dedupe(r, detections) {
        GridMatchesScan(r, detections);
      }
    } else {
      MarkersDiffer(r);
    }
  }

  // ----- The function the stage calls -----

  method DedupeMissionDetections(r: Rules, detections: seq<Detection>) returns (kept: seq<Detection>)
    ensures kept == GridDedupe(r, detections)
    ensures r.iouThreshold > 0.0 && SoundOn(r.g, Segments(detections)) ==> kept == Dedupe(r, detections)
  {
    hide Duplicate, Compared;
    var ordered := Sort(ByKey(r), detections);
    var grid := new DetectionGrid(r.centerThreshold);
    kept := [];
    for i := 0 to |ordered|
      invariant grid.Valid() && fresh(grid) && grid.cellSize == CellSize(r.centerThreshold)
      invariant kept == GridScan(r, ordered[..i])
      invariant forall k :: k in grid.entries <==> k in kept && IsPolygon(k)
    {
      var d := ordered[i];
      Sequences.PrefixSnoc(ordered, i);
      Sequences.DropSnoc(ordered[..i], d);
      if !IsPolygon(d) {
        kept := kept + [d];
      } else {
        var rivals := grid.Candidates(d);
        if !exists k | k in rivals :: IsPolygon(k) && Duplicate(r, d, k) {
          kept := kept + [d];
          grid.Add(d);
        }
      }
    }
    Sequences.PrefixAll(ordered);
    if r.iouThreshold > 0.0 && SoundOn(r.g, Segments(detections)) {
      GridMatchesScan(r, detections);
    }
  }

  // ----- What the greedy scan keeps -----

  lemma KeyPreorder(r: Rules)
    ensures TotalPreorder(ByKey(r))
  {
  }

  ghost predicate Subsequence(a: seq<Detection>, b: seq<Detection>) {
    if a == [] then true
    else b != [] && (if a[|a| - 1] == b[|b| - 1] then Subsequence(a[..|a| - 1], b[..|b| - 1]) else Subsequence(a, b[..|b| - 1]))
  }

  /** The later of two kept polygons does not show the earlier one again. */
  ghost predicate NoRepeats(r: Rules, kept: seq<Detection>) {
    forall i, j | 0 <= i < j < |kept| && IsPolygon(kept[i]) && IsPolygon(kept[j]) :: !Duplicate(r, kept[j], kept[i])
  }

  /** Everything of ordered is kept, or shown by a kept polygon that comes no later in the order. */
  ghost predicate Represented(r: Rules, d: Detection, kept: seq<Detection>) {
    d in kept || (IsPolygon(d) && exists k | k in kept :: IsPolygon(k) && KeyGeq(r, k, d) && Duplicate(r, d, k))
  }

  lemma {:induction false} ScanKeeps(r: Rules, ordered: seq<Detection>)
    requires SortedBy(ByKey(r), ordered)
    ensures var kept := Scan(r, ordered);
            && SortedBy(ByKey(r), kept) && NoRepeats(r, kept)
            && (forall d | d in kept :: d in ordered) && (forall d | d in ordered :: Represented(r, d, kept))
  {
    hide Duplicate, KeyGeq;
    if ordered != [] {
      var init, d := ordered[..|ordered| - 1], ordered[|ordered| - 1];
      ScanKeeps(r, init);
      var before, kept := Scan(r, init), Scan(r, ordered);
      assert ordered == init + [d];
      forall k | k in before ensures ByKey(r)(k, d) {
        assert k in init;
        var i :| 0 <= i < |init| && init[i] == k;
        assert ordered[i] == k;
      }
      OneMoreKept(r, before, d);
      hide Represented, Beaten, SortedBy, NoRepeats, ByKey;
      forall e | e in ordered ensures Represented(r, e, kept) {
        if e in init {
          StillRepresented(r, e, before, kept);
        }
      }
    }
  }

  /** What the scan does with one detection behind everything kept so far. */
  lemma OneMoreKept(r: Rules, before: seq<Detection>, d: Detection)
    requires SortedBy(ByKey(r), before) && NoRepeats(r, before) && forall k | k in before :: ByKey(r)(k, d)
    ensures var kept := if Beaten(r, d, before) then before else before + [d];
            SortedBy(ByKey(r), kept) && NoRepeats(r, kept) && Represented(r, d, kept)
  {
    hide Duplicate, KeyGeq;
    assert forall k | 0 <= k < |before| :: before[k] in before;
  }

  lemma StillRepresented(r: Rules, d: Detection, before: seq<Detection>, kept: seq<Detection>)
    requires Represented(r, d, before) && forall k | k in before :: k in kept
    ensures Represented(r, d, kept)
  {
  }

  /** Detections without a polygon all survive, as often as they came. */
  lemma {:induction false} ScanKeepsPoints(r: Rules, ordered: seq<Detection>, d: Detection)
    requires !IsPolygon(d)
    ensures multiset(Scan(r, ordered))[d] == multiset(ordered)[d]
  {
    if ordered != [] {
      ScanKeepsPoints(r, ordered[..|ordered| - 1], d);
      assert ordered == ordered[..|ordered| - 1] + [ordered[|ordered| - 1]];
    }
  }

  lemma {:induction false} ScanIsSubsequence(r: Rules, ordered: seq<Detection>)
    ensures Subsequence(Scan(r, ordered), ordered)
  {
    if ordered != [] {
      var init, d := ordered[..|ordered| - 1], ordered[|ordered| - 1];
      ScanIsSubsequence(r, init);
      Sequences.DropSnoc(Scan(r, init), d);
      if Beaten(r, d, Scan(r, init)) {
        SkipLast(Scan(r, init), init, d);
        assert ordered == init + [d];
      }
    }
  }

  lemma {:induction false} SkipLast(a: seq<Detection>, b: seq<Detection>, d: Detection)
    requires Subsequence(a, b)
    ensures Subsequence(a, b + [d])
    decreases |b|, 1
  {
    Sequences.DropSnoc(b, d);
    if a != [] && a[|a| - 1] == d {
      DropLast(a, b);
    }
  }

  lemma {:induction false} DropLast(a: seq<Detection>, b: seq<Detection>)
    requires Subsequence(a, b) && a != []
    ensures Subsequence(a[..|a| - 1], b)
    decreases |b|, 0
  {
    var init, last := b[..|b| - 1], b[|b| - 1];
    assert b == init + [last];
    if a[|a| - 1] != last {
      DropLast(a, init);
    }
    SkipLast(a[..|a| - 1], init, last);
  }

  /** A sequence without repeats passes the scan unchanged. */
  lemma {:induction false} ScanFixes(r: Rules, kept: seq<Detection>)
    requires NoRepeats(r, kept)
    ensures Scan(r, kept) == kept
  {
    hide Duplicate, NoRepeats, Beaten;
    if kept != [] {
      var init, d := kept[..|kept| - 1], kept[|kept| - 1];
      LastUnbeaten(r, kept);
      ScanFixes(r, init);
      assert kept == init + [d];
    }
  }

  lemma LastUnbeaten(r: Rules, kept: seq<Detection>)
    requires NoRepeats(r, kept) && kept != []
    ensures NoRepeats(r, kept[..|kept| - 1]) && !Beaten(r, kept[|kept| - 1], kept[..|kept| - 1])
  {
    hide Duplicate;
    var init, d := kept[..|kept| - 1], kept[|kept| - 1];
    if IsPolygon(d) {
      forall k | k in init && IsPolygon(k) ensures !Duplicate(r, d, k) {
        var i :| 0 <= i < |init| && init[i] == k;
        assert kept[i] == k;
      }
    }
  }

  /** What deduplication leaves: ordered, without repeats, and showing every detection it was given. */
  lemma DedupeCharacterised(r: Rules, detections: seq<Detection>)
    ensures var out := Dedupe(r, detections);
            && SortedBy(ByKey(r), out) && Subsequence(out, Sort(ByKey(r), detections)) && NoRepeats(r, out)
            && (forall d | d in detections :: Represented(r, d, out))
            && (forall d | d in out :: d in detections)
            && (forall d | !IsPolygon(d) :: multiset(out)[d] == multiset(detections)[d])
  {
    hide Duplicate, KeyGeq, NoRepeats, Represented, Subsequence;
    var ordered := Sort(ByKey(r), detections);
    KeyPreorder(r);
    SortSorted(ByKey(r), detections);
    ScanKeeps(r, ordered);
    ScanIsSubsequence(r, ordered);
    forall d ensures d in ordered <==> d in detections {
      assert d in multiset(ordered) <==> d in multiset(detections);
    }
    forall d | !IsPolygon(d) ensures multiset(Dedupe(r, detections))[d] == multiset(detections)[d] {
      ScanKeepsPoints(r, ordered, d);
    }
  }

  lemma {:induction false} FilterSnoc(p: Detection -> bool, s: seq<Detection>, x: Detection)
    ensures Filter(p, s + [x]) == if p(x) then Filter(p, s) + [x] else Filter(p, s)
  {
    if s != [] {
      FilterSnoc(p, s[1..], x);
      assert (s + [x])[1..] == s[1..] + [x];
    }
  }

  lemma {:induction false} FilterSubsequence(p: Detection -> bool, a: seq<Detection>, b: seq<Detection>)
    requires Subsequence(a, b)
    ensures Subsequence(Filter(p, a), Filter(p, b))
  {
    if a != [] {
      hide Filter;
      var init, last := b[..|b| - 1], b[|b| - 1];
      assert b == init + [last];
      FilterSnoc(p, init, last);
      if a[|a| - 1] == last {
        var before := a[..|a| - 1];
        assert a == before + [last];
        FilterSnoc(p, before, last);
        FilterSubsequence(p, before, init);
        SnocSubsequence(Filter(p, before), Filter(p, init), last);
      } else {
        FilterSubsequence(p, a, init);
        SkipLast(Filter(p, a), Filter(p, init), last);
      }
    }
  }

  lemma SnocSubsequence(a: seq<Detection>, b: seq<Detection>, d: Detection)
    requires Subsequence(a, b)
    ensures Subsequence(a + [d], b + [d])
  {
    Sequences.DropSnoc(a, d);
    Sequences.DropSnoc(b, d);
  }

  /** Of the detections with one key the survivors stay in the order they arrived in. */
  lemma DedupeStable(r: Rules, detections: seq<Detection>, area: real, confidence: real)
    ensures var same := (d: Detection) => Area(r, d) == area && d.confidence == confidence;
            Subsequence(Filter(same, Dedupe(r, detections)), Filter(same, detections))
  {
    var same := (d: Detection) => Area(r, d) == area && d.confidence == confidence;
    SortStable(ByKey(r), same, detections);
    ScanIsSubsequence(r, Sort(ByKey(r), detections));
    FilterSubsequence(same, Dedupe(r, detections), Sort(ByKey(r), detections));
  }

  /** Deduplicating twice is deduplicating once. */
  lemma DedupeIdempotent(r: Rules, detections: seq<Detection>)
    ensures Dedupe(r, Dedupe(r, detections)) == Dedupe(r, detections)
  {
    var out := Dedupe(r, detections);
    DedupeCharacterised(r, detections);
    SortIdempotent(ByKey(r), out);
    ScanFixes(r, out);
  }
}
