/**
 * Detection shard plans (shared/detection_sharding.py): a row-major partition of all tile windows of
 * a raster. The checksum of the canonical plan and the rounded amplification ratio are parameters;
 * the shard count is the exact ceiling.
 */
module DetectionSharding {
  import opened Arithmetic
  import opened TilePlanning
  import Sequences
  import opened Results

  const MAX_TILES := 100_000
  const MAX_SHARDS := 256

  datatype Tile = Tile(index: nat, x: int, y: int, width: int, height: int) {
    function Area(): int { width * height }
  }

  datatype Shard = Shard(index: nat, first: nat, count: nat)

  /** The canonical form the checksum is taken over. */
  datatype PlanKey = PlanKey(width: int, height: int, tileSize: int, overlap: int, tilesPerShard: int,
                             xStarts: seq<int>, yStarts: seq<int>, shards: seq<Shard>)

  datatype Plan = Plan(key: PlanKey, pixels: int, checksum: string) {
    function TileCount(): nat { |key.xStarts| * |key.yStarts| }
    function ShardCount(): nat { |key.shards| }
  }

  datatype Descriptor = Descriptor(schemaVersion: int, width: int, height: int, tileSize: int, overlap: int, tilesPerShard: int,
                                   tileCount: int, shardCount: int, pixels: int, ratio: real, checksum: string)

  type Digest = PlanKey -> string
  type Ratio = (int, int) -> real

  function Shards(tileCount: nat, tilesPerShard: int): seq<Shard>
    requires tilesPerShard > 0
  {
    seq(CeilDiv(tileCount, tilesPerShard), k requires 0 <= k < CeilDiv(tileCount, tilesPerShard) =>
      ShardNumber(k, tileCount, tilesPerShard))
  }

  function ShardNumber(k: nat, tileCount: nat, tilesPerShard: int): Shard
    requires tilesPerShard > 0 && k < CeilDiv(tileCount, tilesPerShard)
  {
    ShardStart(k, tileCount, tilesPerShard);
    Shard(k, k * tilesPerShard, Min(tilesPerShard, tileCount - k * tilesPerShard))
  }

  lemma ShardStart(k: nat, tileCount: nat, tilesPerShard: int)
    requires tilesPerShard > 0
    ensures k < CeilDiv(tileCount, tilesPerShard) <==> k * tilesPerShard < tileCount
  {
    CeilDivLeast(tileCount, tilesPerShard, k);
  }

  function Extents(starts: seq<int>, fullSize: int, tileSize: int): seq<int> {
    seq(|starts|, i requires 0 <= i < |starts| => Extent(starts[i], fullSize, tileSize))
  }

  function Sum(s: seq<int>): int {
    if s == [] then 0 else Sum(s[..|s| - 1]) + s[|s| - 1]
  }

  predicate ValidRequest(width: int, height: int, tileSize: int, overlap: int, tilesPerShard: int) {
    width > 0 && height > 0 && tilesPerShard > 0 && tileSize > 0 && 0 <= overlap < tileSize
  }

  function KeyFor(width: int, height: int, tileSize: int, overlap: int, tilesPerShard: int): PlanKey
    requires ValidRequest(width, height, tileSize, overlap, tilesPerShard)
  {
    var xs, ys := TileStarts(width, tileSize, overlap), TileStarts(height, tileSize, overlap);
    PlanKey(width, height, tileSize, overlap, tilesPerShard, xs, ys, Shards(|xs| * |ys|, tilesPerShard))
  }

  function BuildPlan(width: int, height: int, tileSize: int, overlap: int, tilesPerShard: int,
                     maximumTiles: int, maximumShards: int, digest: Digest): Option<Plan>
  {
    if !ValidRequest(width, height, tileSize, overlap, tilesPerShard) then None
    else if maximumTiles <= 0 || maximumTiles > MAX_TILES || maximumShards <= 0 || maximumShards > MAX_SHARDS then None
    else
      var key := KeyFor(width, height, tileSize, overlap, tilesPerShard);
      if |key.xStarts| * |key.yStarts| > maximumTiles || |key.shards| > maximumShards then None
      else Some(Plan(key, Sum(Extents(key.xStarts, width, tileSize)) * Sum(Extents(key.yStarts, height, tileSize)), digest(key)))
  }

  /** A plan some call of BuildPlan returned, under whatever limits. */
  ghost predicate Built(plan: Plan, digest: Digest) {
    exists maximumTiles, maximumShards :: BuiltUnder(plan, maximumTiles, maximumShards, digest)
  }

  predicate BuiltUnder(plan: Plan, maximumTiles: int, maximumShards: int, digest: Digest) {
    var k := plan.key;
    BuildPlan(k.width, k.height, k.tileSize, k.overlap, k.tilesPerShard, maximumTiles, maximumShards, digest) == Some(plan)
  }

  // ----- Tiles -----

  /** Row-major tile windows. */
  function TileAt(key: PlanKey, index: nat): Tile
    requires index < |key.xStarts| * |key.yStarts|
  {
    RowColumn(index, |key.xStarts|, |key.yStarts|);
    var x, y := key.xStarts[index % |key.xStarts|], key.yStarts[index / |key.xStarts|];
    Tile(index, x, y, Extent(x, key.width, key.tileSize), Extent(y, key.height, key.tileSize))
  }

  lemma RowColumn(index: nat, columns: nat, rows: nat)
    requires index < columns * rows
    ensures columns > 0 && index / columns < rows
  {
    if columns > 0 && index / columns >= rows {
      Monotone(rows, index / columns, columns);
    }
  }

  predicate ShardsInside(plan: Plan) {
    forall s | s in plan.key.shards :: s.first + s.count <= plan.TileCount()
  }

  /** The tiles of one shard; None is the source's IndexError. */
  function Tiles(plan: Plan, shardIndex: int): Option<seq<Tile>>
    requires ShardsInside(plan)
  {
    if 0 <= shardIndex < plan.ShardCount() then
      var s := plan.key.shards[shardIndex];
      assert s in plan.key.shards && s.first + s.count <= |plan.key.xStarts| * |plan.key.yStarts|;
      Some(seq(s.count, i requires 0 <= i < s.count => TileAt(plan.key, s.first + i)))
    else None
  }

  function AllTiles(plan: Plan): seq<Tile> {
    seq(plan.TileCount(), i requires 0 <= i < plan.TileCount() => TileAt(plan.key, i))
  }

  lemma BuiltShards(plan: Plan, digest: Digest)
    requires Built(plan, digest)
    ensures ValidRequest(plan.key.width, plan.key.height, plan.key.tileSize, plan.key.overlap, plan.key.tilesPerShard)
    ensures plan.key == KeyFor(plan.key.width, plan.key.height, plan.key.tileSize, plan.key.overlap, plan.key.tilesPerShard)
    ensures plan.key.shards == Shards(plan.TileCount(), plan.key.tilesPerShard)
    ensures ShardsInside(plan)
  {
    var count, per := plan.TileCount(), plan.key.tilesPerShard;
    forall s | s in plan.key.shards ensures s.first + s.count <= count {
      var k: nat :| k < |plan.key.shards| && plan.key.shards[k] == s;
      ShardStart(k, count, per);
    }
  }

  /** The tiles of the first k shards, in shard order. */
  function TilesBefore(plan: Plan, k: nat): seq<Tile>
    requires k <= plan.ShardCount() && ShardsInside(plan)
  {
    if k == 0 then [] else TilesBefore(plan, k - 1) + Tiles(plan, k - 1).value
  }

  /** The first tile of shard k, or the tile count behind the last shard. */
  function FirstTile(plan: Plan, k: nat): nat
    requires plan.key.tilesPerShard > 0
  {
    Min(k * plan.key.tilesPerShard, plan.TileCount())
  }

  /** A shard holds the tiles from its first one to the next shard's first one. */
  lemma ShardIsSlice(plan: Plan, k: nat, digest: Digest)
    requires Built(plan, digest) && k < plan.ShardCount() && ShardsInside(plan) && plan.key.tilesPerShard > 0
    ensures FirstTile(plan, k) < FirstTile(plan, k + 1) <= |AllTiles(plan)|
    ensures Tiles(plan, k) == Some(AllTiles(plan)[FirstTile(plan, k)..FirstTile(plan, k + 1)])
  {
    hide TileAt, Built;
    BuiltShards(plan, digest);
    var per, count := plan.key.tilesPerShard, plan.TileCount();
    ShardStart(k, count, per);
    assert (k + 1) * per == k * per + per;
    assert plan.key.shards[k] == Shard(k, k * per, Min(per, count - k * per));
    assert FirstTile(plan, k) == k * per && FirstTile(plan, k + 1) == k * per + plan.key.shards[k].count;
    var tiles, all := Tiles(plan, k).value, AllTiles(plan);
    assert tiles == all[k * per..k * per + plan.key.shards[k].count];
  }

  lemma {:induction false} ShardsArePrefix(plan: Plan, k: nat, digest: Digest)
    requires Built(plan, digest) && k <= plan.ShardCount() && ShardsInside(plan) && plan.key.tilesPerShard > 0
    ensures FirstTile(plan, k) <= |AllTiles(plan)|
    ensures TilesBefore(plan, k) == AllTiles(plan)[..FirstTile(plan, k)]
  {
    hide Tiles, Built, ShardsInside, AllTiles, TileAt;
    if k > 0 {
      hide FirstTile;
      ShardsArePrefix(plan, k - 1, digest);
      ShardIsSlice(plan, k - 1, digest);
      var all := AllTiles(plan);
      Sequences.JoinSlices(all, FirstTile(plan, k - 1), FirstTile(plan, k));
    }
  }

  /** The shards enumerate every tile of the raster exactly once, in row-major order. */
  lemma ShardsPartition(plan: Plan, digest: Digest)
    requires Built(plan, digest)
    ensures ShardsInside(plan) && forall s | s in plan.key.shards :: s.count > 0
    ensures TilesBefore(plan, plan.ShardCount()) == AllTiles(plan)
    ensures plan.ShardCount() > 0
  {
    BuiltShards(plan, digest);
    hide Built, TileStarts, Covers, AllTiles;
    var count, per := plan.TileCount(), plan.key.tilesPerShard;
    forall s | s in plan.key.shards ensures s.count > 0 {
      var k: nat :| k < |plan.key.shards| && plan.key.shards[k] == s;
      ShardStart(k, count, per);
    }
    ShardsArePrefix(plan, plan.ShardCount(), digest);
    ShardStart(plan.ShardCount(), count, per);
    Sequences.PrefixAll(AllTiles(plan));
    TileStartsCover(plan.key.width, plan.key.tileSize, plan.key.overlap);
    TileStartsCover(plan.key.height, plan.key.tileSize, plan.key.overlap);
    Positive(|plan.key.xStarts|, |plan.key.yStarts|);
    ShardStart(0, count, per);
  }

  lemma Positive(a: nat, b: nat)
    ensures a > 0 && b > 0 ==> a * b > 0
  {
  }

  /** Every pixel of the raster is inside some tile, and every tile inside the raster. */
  lemma EveryPixelInTile(plan: Plan, digest: Digest, x: int, y: int) returns (index: nat)
    requires Built(plan, digest) && 0 <= x < plan.key.width && 0 <= y < plan.key.height
    ensures index < plan.TileCount()
    ensures var t := TileAt(plan.key, index); t.x <= x < t.x + t.width && t.y <= y < t.y + t.height
  {
    hide Covers, Built, TileStarts, Shards;
    BuiltShards(plan, digest);
    var key := plan.key;
    TileStartsCover(key.width, key.tileSize, key.overlap);
    TileStartsCover(key.height, key.tileSize, key.overlap);
    var column := EveryPixelCovered(key.xStarts, key.width, key.tileSize, key.overlap, x);
    var row := EveryPixelCovered(key.yStarts, key.height, key.tileSize, key.overlap, y);
    index := row * |key.xStarts| + column;
    CellIndex(row, column, |key.xStarts|, |key.yStarts|);
  }

  lemma CellIndex(row: nat, column: nat, columns: nat, rows: nat)
    requires row < rows && column < columns
    ensures 0 <= row * columns + column < columns * rows
    ensures (row * columns + column) / columns == row && (row * columns + column) % columns == column
  {
    Monotone(row + 1, rows, columns);
    var index := row * columns + column;
    Unique(index / columns, index % columns, row, column, columns);
  }

  lemma TilesInside(plan: Plan, digest: Digest, index: nat)
    requires Built(plan, digest) && index < plan.TileCount()
    ensures var t := TileAt(plan.key, index);
            && 0 <= t.x && 0 < t.width && t.x + t.width <= plan.key.width
            && 0 <= t.y && 0 < t.height && t.y + t.height <= plan.key.height
  {
    hide Covers, Built, TileStarts, Shards, Extent, TileAt;
    BuiltShards(plan, digest);
    var key := plan.key;
    TileStartsCover(key.width, key.tileSize, key.overlap);
    TileStartsCover(key.height, key.tileSize, key.overlap);
    var row, column := PlaceOf(key, index);
    WindowsInside(key.xStarts, key.width, key.tileSize, key.overlap, column);
    WindowsInside(key.yStarts, key.height, key.tileSize, key.overlap, row);
  }

  lemma PlaceOf(key: PlanKey, index: nat) returns (row: nat, column: nat)
    requires index < |key.xStarts| * |key.yStarts|
    ensures row < |key.yStarts| && column < |key.xStarts|
    ensures TileAt(key, index) == Tile(index, key.xStarts[column], key.yStarts[row],
                                       Extent(key.xStarts[column], key.width, key.tileSize),
                                       Extent(key.yStarts[row], key.height, key.tileSize))
  {
    hide Extent;
    RowColumn(index, |key.xStarts|, |key.yStarts|);
    row, column := index / |key.xStarts|, index % |key.xStarts|;
  }

  // ----- Planned pixels -----

  function Areas(tiles: seq<Tile>): int {
    if tiles == [] then 0 else Areas(tiles[..|tiles| - 1]) + tiles[|tiles| - 1].Area()
  }

  /** The area of the first rows of tiles, and of the first columns of the next row. */
  function Rectangle(w: seq<int>, h: seq<int>, row: nat, column: nat): int
    requires row <= |h| && column <= |w| && (row == |h| ==> column == 0)
  {
    Sum(w) * Sum(h[..row]) + (if column == 0 then 0 else Sum(w[..column]) * h[row])
  }

  lemma NextColumn(w: seq<int>, h: seq<int>, row: nat, column: nat)
    requires row < |h| && column < |w|
    ensures Rectangle(w, h, row, column + 1) == Rectangle(w, h, row, column) + w[column] * h[row]
  {
    OneMoreTerm(w, column);
    Distribute(Sum(w[..column]), w[column], h[row]);
  }

  lemma NextRow(w: seq<int>, h: seq<int>, row: nat)
    requires row < |h| && |w| > 0
    ensures Rectangle(w, h, row + 1, 0) == Rectangle(w, h, row, |w|)
  {
    OneMoreTerm(h, row);
    Sequences.PrefixAll(w);
    Distribute(Sum(h[..row]), h[row], Sum(w));
  }

  function Widths(key: PlanKey): seq<int> { Extents(key.xStarts, key.width, key.tileSize) }
  function Heights(key: PlanKey): seq<int> { Extents(key.yStarts, key.height, key.tileSize) }

  /** The number of tiles before a row and column. */
  lemma TilesBeforeCell(plan: Plan, row: nat, column: nat)
    requires row < |plan.key.yStarts| && column < |plan.key.xStarts|
    ensures 0 <= row * |plan.key.xStarts| + column < |AllTiles(plan)|
    ensures AllTiles(plan)[row * |plan.key.xStarts| + column].Area() == Widths(plan.key)[column] * Heights(plan.key)[row]
  {
    CellIndex(row, column, |plan.key.xStarts|, |plan.key.yStarts|);
  }

  lemma RowEnd(row: nat, columns: nat)
    requires row > 0
    ensures row * columns == (row - 1) * columns + columns
  {
  }

  lemma {:induction false} AreaOfRows(plan: Plan, row: nat, column: nat)
    requires |plan.key.xStarts| > 0 && row <= |plan.key.yStarts| && column <= |plan.key.xStarts|
    requires row == |plan.key.yStarts| ==> column == 0
    ensures 0 <= row * |plan.key.xStarts| + column <= |AllTiles(plan)|
    ensures Areas(AllTiles(plan)[..row * |plan.key.xStarts| + column]) == Rectangle(Widths(plan.key), Heights(plan.key), row, column)
    decreases row, column
  {
    hide AllTiles, Rectangle, Tile.Area, Sum;
    if column > 0 {
      TilesBeforeCell(plan, row, column - 1);
      AreaOfRows(plan, row, column - 1);
      OneMoreTile(AllTiles(plan), row * |plan.key.xStarts| + (column - 1));
      NextColumn(Widths(plan.key), Heights(plan.key), row, column - 1);
    } else if row > 0 {
      AreaOfRows(plan, row - 1, |plan.key.xStarts|);
      RowEnd(row, |plan.key.xStarts|);
      NextRow(Widths(plan.key), Heights(plan.key), row - 1);
    } else {
      NothingYet(plan);
    }
  }

  lemma NothingYet(plan: Plan)
    ensures Areas(AllTiles(plan)[..0]) == Rectangle(Widths(plan.key), Heights(plan.key), 0, 0) == 0
    ensures 0 * |plan.key.xStarts| == 0
  {
  }

  lemma OneMoreTile(tiles: seq<Tile>, i: nat)
    requires i < |tiles|
    ensures Areas(tiles[..i + 1]) == Areas(tiles[..i]) + tiles[i].Area()
  {
    Sequences.PrefixSnoc(tiles, i);
    Sequences.DropSnoc(tiles[..i], tiles[i]);
  }

  lemma OneMoreTerm(s: seq<int>, i: nat)
    requires i < |s|
    ensures Sum(s[..i + 1]) == Sum(s[..i]) + s[i]
  {
    Sequences.PrefixSnoc(s, i);
    Sequences.DropSnoc(s[..i], s[i]);
  }

  lemma Distribute(a: int, b: int, c: int)
    ensures (a + b) * c == a * c + b * c && c * (a + b) == c * a + c * b
  {
  }

  /** The planned pixels are the total area of the tiles the shards enumerate. */
  lemma PlannedPixelsExact(plan: Plan, digest: Digest)
    requires Built(plan, digest)
    ensures ShardsInside(plan) && plan.pixels == Areas(TilesBefore(plan, plan.ShardCount()))
  {
    hide Built, Covers, Sum, Widths, Heights, AllTiles, Rectangle, TilesBefore, TileStarts, ShardsInside;
    BuiltPixels(plan, digest);
    ShardsPartition(plan, digest);
    TileStartsCover(plan.key.width, plan.key.tileSize, plan.key.overlap);
    NonEmpty(plan.key.xStarts, plan.key.width, plan.key.tileSize, plan.key.overlap);
    AreaOfRows(plan, |plan.key.yStarts|, 0);
    AllRows(plan);
  }

  lemma NonEmpty(starts: seq<int>, fullSize: int, tileSize: int, overlap: int)
    requires Covers(starts, fullSize, tileSize, overlap)
    ensures |starts| > 0
  {
  }

  lemma BuiltPixels(plan: Plan, digest: Digest)
    requires Built(plan, digest)
    ensures plan.pixels == Sum(Widths(plan.key)) * Sum(Heights(plan.key))
    ensures ValidRequest(plan.key.width, plan.key.height, plan.key.tileSize, plan.key.overlap, plan.key.tilesPerShard)
    ensures plan.key.xStarts == TileStarts(plan.key.width, plan.key.tileSize, plan.key.overlap)
  {
  }

  lemma AllRows(plan: Plan)
    ensures |plan.key.yStarts| * |plan.key.xStarts| == |AllTiles(plan)|
    ensures AllTiles(plan)[..|AllTiles(plan)|] == AllTiles(plan)
    ensures Rectangle(Widths(plan.key), Heights(plan.key), |plan.key.yStarts|, 0) == Sum(Widths(plan.key)) * Sum(Heights(plan.key))
  {
    Sequences.PrefixAll(Heights(plan.key));
    Sequences.PrefixAll(AllTiles(plan));
  }

  // ----- Descriptors -----

  function Describe(plan: Plan, ratio: Ratio): Descriptor {
    var k := plan.key;
    Descriptor(1, k.width, k.height, k.tileSize, k.overlap, k.tilesPerShard, plan.TileCount(), plan.ShardCount(), plan.pixels,
               ratio(plan.pixels, if k.width * k.height > 1 then k.width * k.height else 1), plan.checksum)
  }

  /** Rebuilds the plan from an untrusted descriptor, and compares. */
  function ParseDescriptor(d: Descriptor, digest: Digest, ratio: Ratio): Option<Plan> {
    if d.schemaVersion != 1 then None
    else
      var plan := BuildPlan(d.width, d.height, d.tileSize, d.overlap, d.tilesPerShard, MAX_TILES, MAX_SHARDS, digest);
      if plan.None? || Describe(plan.value, ratio) != d then None else plan
  }

  /** A plan survives being described and parsed, whatever limits it was built under. */
  lemma DescribeThenParse(plan: Plan, digest: Digest, ratio: Ratio)
    requires Built(plan, digest)
    ensures ParseDescriptor(Describe(plan, ratio), digest, ratio) == Some(plan)
  {
    hide KeyFor, Sum, Extents, TileStarts;
    var maximumTiles, maximumShards :| BuiltUnder(plan, maximumTiles, maximumShards, digest);
    assert BuiltUnder(plan, MAX_TILES, MAX_SHARDS, digest);
  }

  /** A descriptor is accepted exactly when it describes a plan that was built. */
  lemma ParsedWasDescribed(d: Descriptor, digest: Digest, ratio: Ratio)
    ensures ParseDescriptor(d, digest, ratio).Some? <==> exists plan :: Built(plan, digest) && Describe(plan, ratio) == d
    ensures ParseDescriptor(d, digest, ratio).Some? ==> Describe(ParseDescriptor(d, digest, ratio).value, ratio) == d
  {
    hide KeyFor, Sum, Extents, TileStarts;
    var r := ParseDescriptor(d, digest, ratio);
    if r.Some? {
      assert BuiltUnder(r.value, MAX_TILES, MAX_SHARDS, digest);
      assert Built(r.value, digest) && Describe(r.value, ratio) == d;
    }
    if plan :| Built(plan, digest) && Describe(plan, ratio) == d {
      DescribeThenParse(plan, digest, ratio);
    }
  }
}
