/**
 * Sharded detection (shared/detection_shard_results.py and the shard loop of app2-ia/detection_stage.py):
 * running the shards of a plan anywhere, in any order, and aggregating what they return is the same as
 * one monolithic run. Inference and manifest validation are parameters; mask polygons are left out.
 */
module DetectionResults {
  import opened DetectionSharding
  import G = DetectionGeometry
  import TilePlanning
  import Sequences
  import opened Results

  type Num = G.Num
  type Point = G.Point
  type Detection = G.Detection

  const MAX_SHARD_RAW := 100_000
  const MAX_AGGREGATE_RAW := 1_000_000

  /** An unvalidated detection. */
  datatype Raw = Raw(x: Num, y: Num, confidence: Num, classId: int, className: string, segment: seq<Point>, tileIndex: int)

  /** What inference reports inside one tile. */
  datatype Local = Local(x: Num, y: Num, confidence: Num, classId: int, className: string, polygon: seq<Point>)

  datatype Payload = Payload(schemaVersion: int, checksum: string, shardIndex: int, tileCount: int, manifest: string,
                             detections: seq<Raw>)

  datatype ShardResult = ShardResult(checksum: string, shardIndex: int, tileCount: int, manifest: string,
                                     detections: seq<Detection>)

  datatype Aggregate = Aggregate(manifest: string, raw: seq<Detection>, detections: seq<Detection>, shardCount: nat, tileCount: nat)

  /** infer reads one tile of the raster; check is the validation of a model manifest. */
  datatype Foreign = Foreign(infer: Tile -> (seq<Local>, string), check: string -> Option<string>)

  /** Validating a validated manifest changes nothing. */
  ghost predicate Canonicalises(check: string -> Option<string>) {
    forall m | check(m).Some? :: check(check(m).value) == check(m)
  }

  // ----- Normalisation -----

  /** The white space that Python's str.strip removes. */
  predicate IsSpace(c: char) {
    var n := c as int;
    9 <= n <= 13 || 28 <= n <= 32 || n == 0x85 || n == 0xA0 || n == 0x1680 || 0x2000 <= n <= 0x200A
    || n == 0x2028 || n == 0x2029 || n == 0x202F || n == 0x205F || n == 0x3000
  }

  function LeftStrip(s: string): string {
    if s != [] && IsSpace(s[0]) then LeftStrip(s[1..]) else s
  }

  function RightStrip(s: string): string {
    if s != [] && IsSpace(s[|s| - 1]) then RightStrip(s[..|s| - 1]) else s
  }

  function Strip(s: string): string { RightStrip(LeftStrip(s)) }

  predicate FinitePoint(p: Point) { p.x.Fin? && p.y.Fin? }

  predicate Acceptable(raw: Raw, first: int, end: int) {
    && first <= raw.tileIndex < end
    && Strip(raw.className) != "" && |raw.className| <= 128
    && raw.confidence.Fin? && 0.0 <= raw.confidence.r <= 1.0
    && raw.x.Fin? && raw.y.Fin? && forall p | p in raw.segment :: FinitePoint(p)
  }

  function Normalized(raw: Raw): Detection
    requires raw.confidence.Fin?
  {
    G.Detection(raw.x, raw.y, raw.confidence.r, raw.classId, Strip(raw.className), raw.segment, raw.tileIndex)
  }

  function Normalize(raw: Raw, first: int, end: int): Option<Detection> {
    if Acceptable(raw, first, end) then Some(Normalized(raw)) else None
  }

  function NormalizeAll(raws: seq<Raw>, first: int, end: int): Option<seq<Detection>> {
    if raws == [] then Some([])
    else
      var init, last := NormalizeAll(raws[..|raws| - 1], first, end), Normalize(raws[|raws| - 1], first, end);
      if init.None? || last.None? then None else Some(init.value + [last.value])
  }

  function AsRaw(d: Detection): Raw {
    Raw(d.x, d.y, G.Fin(d.confidence), d.classId, d.className, d.segment, d.tileIndex)
  }

  function AllAsRaw(ds: seq<Detection>): seq<Raw> {
    seq(|ds|, i requires 0 <= i < |ds| => AsRaw(ds[i]))
  }

  lemma {:induction false} LeftStripped(s: string)
    ensures LeftStrip(s) != [] ==> !IsSpace(LeftStrip(s)[0])
    ensures |LeftStrip(s)| <= |s|
  {
    if s != [] && IsSpace(s[0]) {
      LeftStripped(s[1..]);
    }
  }

  lemma {:induction false} RightStripped(s: string)
    ensures RightStrip(s) != [] ==> !IsSpace(RightStrip(s)[|RightStrip(s)| - 1]) && RightStrip(s)[0] == s[0]
    ensures |RightStrip(s)| <= |s| && RightStrip(RightStrip(s)) == RightStrip(s)
  {
    if s != [] && IsSpace(s[|s| - 1]) {
      RightStripped(s[..|s| - 1]);
    }
  }

  lemma StripIdempotent(s: string)
    ensures Strip(Strip(s)) == Strip(s) && |Strip(s)| <= |s|
  {
    LeftStripped(s);
    RightStripped(LeftStrip(s));
  }

  lemma NormalizeIdempotent(raw: Raw, first: int, end: int)
    ensures var d := Normalize(raw, first, end); d.Some? ==> Normalize(AsRaw(d.value), first, end) == d
  {
    hide Strip;
    StripIdempotent(raw.className);
  }

  lemma {:induction false} NormalizeAllIdempotent(raws: seq<Raw>, first: int, end: int)
    ensures var ds := NormalizeAll(raws, first, end);
            ds.Some? ==> |ds.value| == |raws| && NormalizeAll(AllAsRaw(ds.value), first, end) == ds
  {
    hide Normalize, AsRaw;
    if raws != [] {
      NormalizeAllIdempotent(raws[..|raws| - 1], first, end);
      NormalizeIdempotent(raws[|raws| - 1], first, end);
      var ds := NormalizeAll(raws, first, end);
      if ds.Some? {
        var again := AllAsRaw(ds.value);
        assert ds.value[..|raws| - 1] == NormalizeAll(raws[..|raws| - 1], first, end).value;
        assert again[..|again| - 1] == AllAsRaw(ds.value[..|raws| - 1]);
      }
    }
  }

  lemma {:induction false} NormalizeAppend(a: seq<Raw>, b: seq<Raw>, first: int, end: int)
    ensures var x, y, all := NormalizeAll(a, first, end), NormalizeAll(b, first, end), NormalizeAll(a + b, first, end);
            if x.Some? && y.Some? then all == Some(x.value + y.value) else all == None
  {
    hide Normalize;
    if b == [] {
      assert a + b == a;
      if NormalizeAll(a, first, end).Some? {
        assert NormalizeAll(a, first, end).value + [] == NormalizeAll(a, first, end).value;
      }
    } else {
      NormalizeAppend(a, b[..|b| - 1], first, end);
      assert (a + b)[..|a + b| - 1] == a + b[..|b| - 1];
      var x, y := NormalizeAll(a, first, end), NormalizeAll(b[..|b| - 1], first, end);
      var last := Normalize(b[|b| - 1], first, end);
      if x.Some? && y.Some? && last.Some? {
        Sequences.AppendAssociative(x.value, y.value, [last.value]);
      }
    }
  }

  /** The declared tile range only decides acceptance, never the result. */
  lemma {:induction false} NormalizeWiden(raws: seq<Raw>, first: int, end: int, first': int, end': int)
    requires first' <= first && end <= end'
    ensures var ds := NormalizeAll(raws, first, end); ds.Some? ==> NormalizeAll(raws, first', end') == ds
  {
    if raws != [] {
      NormalizeWiden(raws[..|raws| - 1], first, end, first', end');
    }
  }

  // ----- Parsing one shard result -----

  function Parse(payload: Payload, plan: Plan, check: string -> Option<string>, maximum: int): Option<ShardResult> {
    if !(1 <= maximum <= MAX_SHARD_RAW) || payload.schemaVersion != 1 || payload.checksum != plan.checksum then None
    else if !(0 <= payload.shardIndex < plan.ShardCount()) then None
    else
      var shard := plan.key.shards[payload.shardIndex];
      var manifest := check(payload.manifest);
      var detections := NormalizeAll(payload.detections, shard.first, shard.first + shard.count);
      if payload.tileCount != shard.count || |payload.detections| > maximum || manifest.None? || detections.None? then None
      else Some(ShardResult(plan.checksum, payload.shardIndex, shard.count, manifest.value, detections.value))
  }

  function AsPayload(r: ShardResult): Payload {
    Payload(1, r.checksum, r.shardIndex, r.tileCount, r.manifest, AllAsRaw(r.detections))
  }

  function Reparse(r: ShardResult, plan: Plan, check: string -> Option<string>): Option<ShardResult> {
    Parse(AsPayload(r), plan, check, MAX_SHARD_RAW)
  }

  /** A parsed result is accepted again, unchanged, when it is read back. */
  lemma ParseIdempotent(payload: Payload, plan: Plan, check: string -> Option<string>, maximum: int)
    requires Canonicalises(check)
    ensures var r := Parse(payload, plan, check, maximum); r.Some? ==> Reparse(r.value, plan, check) == r
  {
    hide NormalizeAll;
    var r := Parse(payload, plan, check, maximum);
    if r.Some? {
      var shard := plan.key.shards[payload.shardIndex];
      NormalizeAllIdempotent(payload.detections, shard.first, shard.first + shard.count);
    }
  }

  // ----- Running tiles -----

  function Shift(n: Num, offset: int): Num {
    if n.Fin? then G.Fin(n.r + offset as real) else n
  }

  function Global(l: Local, t: Tile): Raw {
    Raw(Shift(l.x, t.x), Shift(l.y, t.y), l.confidence, l.classId, l.className,
        seq(|l.polygon|, i requires 0 <= i < |l.polygon| => G.Point(Shift(l.polygon[i].x, t.x), Shift(l.polygon[i].y, t.y))),
        t.index)
  }

  function GlobalAll(ls: seq<Local>, t: Tile): seq<Raw> {
    seq(|ls|, i requires 0 <= i < |ls| => Global(ls[i], t))
  }

  /** The detections of several tiles, tile after tile. */
  function RawOf(f: Foreign, tiles: seq<Tile>): seq<Raw> {
    if tiles == [] then []
    else RawOf(f, tiles[..|tiles| - 1]) + GlobalAll(f.infer(tiles[|tiles| - 1]).0, tiles[|tiles| - 1])
  }

  function ManifestOf(f: Foreign, t: Tile): Option<string> { f.check(f.infer(t).1) }

  predicate OneModel(f: Foreign, tiles: seq<Tile>, manifest: string) {
    forall t | t in tiles :: ManifestOf(f, t) == Some(manifest)
  }

  datatype Outcome = Ran(raw: seq<Raw>, manifest: string) | Failed

  /** The loop over the tiles of one shard, with the checks after each tile. */
  method RunTiles(f: Foreign, tiles: seq<Tile>, limit: nat) returns (r: Outcome)
    ensures r.Ran? <==> tiles != [] && |RawOf(f, tiles)| <= limit && exists m :: OneModel(f, tiles, m)
    ensures r.Ran? ==> r.raw == RawOf(f, tiles) && OneModel(f, tiles, r.manifest)
  {
    var raw: seq<Raw>, model: Option<string> := [], None;
    for i := 0 to |tiles|
      invariant raw == RawOf(f, tiles[..i]) && |raw| <= limit
      invariant if i == 0 then model.None? else model.Some? && OneModel(f, tiles[..i], model.value)
    {
      var tile := tiles[i];
      var inferred := f.infer(tile);
      var current := f.check(inferred.1);
      assert tile in tiles && ManifestOf(f, tile) == current;
      Sequences.PrefixSnoc(tiles, i);
      Sequences.DropSnoc(tiles[..i], tile);
      if current.None? {
        return Failed;
      }
      if model.None? {
        model := current;
      } else if current != model {
        assert tiles[0] in tiles[..i] && tiles[0] in tiles;
        return Failed;
      }
      raw := raw + GlobalAll(inferred.0, tile);
      if |raw| > limit {
        RawGrows(f, tiles, i + 1);
        return Failed;
      }
    }
    Sequences.PrefixAll(tiles);
    if model.None? {
      return Failed;
    }
    return Ran(raw, model.value);
  }

  lemma {:induction false} RawAppend(f: Foreign, a: seq<Tile>, b: seq<Tile>)
    ensures RawOf(f, a + b) == RawOf(f, a) + RawOf(f, b)
  {
    if b == [] {
      assert a + b == a;
    } else {
      var init, last := b[..|b| - 1], b[|b| - 1];
      RawAppend(f, a, init);
      assert (a + b)[..|a + b| - 1] == a + init;
      Sequences.AppendAssociative(RawOf(f, a), RawOf(f, init), GlobalAll(f.infer(last).0, last));
    }
  }

  lemma RawGrows(f: Foreign, tiles: seq<Tile>, i: nat)
    requires i <= |tiles|
    ensures |RawOf(f, tiles[..i])| <= |RawOf(f, tiles)|
  {
    RawAppend(f, tiles[..i], tiles[i..]);
    assert tiles == tiles[..i] + tiles[i..];
  }

  /** One shard of a plan: refused when the plan does not fit the stage's configuration or the raster. */
  method RunShard(f: Foreign, plan: Plan, shardIndex: int, tileSize: int, overlap: int, width: int, height: int, limit: nat)
    returns (r: Outcome)
    requires ShardsInside(plan)
    ensures r.Ran? <==>
              && plan.key.tileSize == tileSize && plan.key.overlap == overlap && plan.key.width == width && plan.key.height == height
              && Tiles(plan, shardIndex).Some? && Ranable(f, Tiles(plan, shardIndex).value, limit)
    ensures r.Ran? ==> var tiles := Tiles(plan, shardIndex).value; r.raw == RawOf(f, tiles) && OneModel(f, tiles, r.manifest)
  {
    if plan.key.tileSize != tileSize || plan.key.overlap != overlap || Tiles(plan, shardIndex).None? {
      return Failed;
    }
    if plan.key.width != width || plan.key.height != height {
      return Failed;
    }
    r := RunTiles(f, Tiles(plan, shardIndex).value, limit);
  }

  ghost predicate Ranable(f: Foreign, tiles: seq<Tile>, limit: nat) {
    tiles != [] && |RawOf(f, tiles)| <= limit && exists m :: OneModel(f, tiles, m)
  }

  // ----- Aggregation -----

  ghost predicate Parsed(plan: Plan, results: seq<ShardResult>, check: string -> Option<string>) {
    forall r | r in results :: Reparse(r, plan, check).Some?
  }

  ghost predicate Distinct(results: seq<ShardResult>) {
    forall i, j | 0 <= i < j < |results| :: results[i].shardIndex != results[j].shardIndex
  }

  /** Each shard answered once, with one model. */
  ghost predicate Complete(plan: Plan, results: seq<ShardResult>, check: string -> Option<string>) {
    && Parsed(plan, results, check) && Distinct(results) && |results| == plan.ShardCount()
    && forall a, b | a in results && b in results :: check(a.manifest) == check(b.manifest)
  }

  type ByIndex = map<int, ShardResult>

  /** The detections of shards 0 to n - 1, in shard order. */
  function InOrder(byIndex: ByIndex, n: nat): seq<Detection>
    requires forall k | 0 <= k < n :: k in byIndex
  {
    if n == 0 then [] else InOrder(byIndex, n - 1) + byIndex[n - 1].detections
  }

  /** The parsed results, by shard index. */
  function Answers(results: seq<ShardResult>, plan: Plan, check: string -> Option<string>): ByIndex
    requires Parsed(plan, results, check)
  {
    if results == [] then map[]
    else
      assert results[|results| - 1] in results;
      var r := Reparse(results[|results| - 1], plan, check).value;
      Answers(results[..|results| - 1], plan, check)[r.shardIndex := r]
  }

  lemma ReparseKeepsIndex(r: ShardResult, plan: Plan, check: string -> Option<string>)
    requires Reparse(r, plan, check).Some?
    ensures var p := Reparse(r, plan, check).value;
            && p.shardIndex == r.shardIndex && 0 <= r.shardIndex < plan.ShardCount() && check(r.manifest) == Some(p.manifest)
  {
  }

  /** byIndex holds exactly the parsed results. */
  ghost predicate Holds(byIndex: ByIndex, results: seq<ShardResult>, plan: Plan, check: string -> Option<string>) {
    && (forall k | k in byIndex :: 0 <= k < plan.ShardCount())
    && (forall r | r in results :: r.shardIndex in byIndex && Some(byIndex[r.shardIndex]) == Reparse(r, plan, check))
    && (forall k | k in byIndex :: exists r | r in results :: r.shardIndex == k)
    && |byIndex| == |results|
  }

  lemma HoldsMore(byIndex: ByIndex, before: seq<ShardResult>, last: ShardResult, plan: Plan, check: string -> Option<string>)
    requires Holds(byIndex, before, plan, check) && Reparse(last, plan, check).Some?
    requires forall r | r in before :: r.shardIndex != last.shardIndex
    ensures Holds(byIndex[last.shardIndex := Reparse(last, plan, check).value], before + [last], plan, check)
  {
    hide Reparse;
    ReparseKeepsIndex(last, plan, check);
    OneMoreKey(byIndex, last.shardIndex, Reparse(last, plan, check).value);
    var all, more := before + [last], byIndex[last.shardIndex := Reparse(last, plan, check).value];
    assert all[|before|] == last;
    assert forall r | r in before :: r in all;
    assert forall r | r in all :: r in before || r == last;
    forall k | k in more ensures exists r | r in all :: r.shardIndex == k {
      if k != last.shardIndex {
        var r :| r in before && r.shardIndex == k;
        assert r in all;
      }
    }
  }

  lemma OneMoreKey(byIndex: ByIndex, k: int, r: ShardResult)
    requires k !in byIndex
    ensures |byIndex[k := r]| == |byIndex| + 1
  {
    assert byIndex[k := r].Keys == byIndex.Keys + {k};
    assert |byIndex[k := r].Keys| == |byIndex.Keys| + 1;
  }

  lemma {:induction false} AnswersMembers(results: seq<ShardResult>, plan: Plan, check: string -> Option<string>)
    requires Parsed(plan, results, check) && Distinct(results)
    ensures Holds(Answers(results, plan, check), results, plan, check)
  {
    hide Reparse;
    if results == [] {
      assert Holds(map[], results, plan, check);
    } else {
      hide Holds;
      var init, last := results[..|results| - 1], results[|results| - 1];
      assert results == init + [last] && last in results;
      AnswersMembers(init, plan, check);
      ReparseKeepsIndex(last, plan, check);
      forall r | r in init ensures r.shardIndex != last.shardIndex {
        var i :| 0 <= i < |init| && init[i] == r;
        assert results[i] == r;
      }
      HoldsMore(Answers(init, plan, check), init, last, plan, check);
    }
  }

  function Below(n: nat): (s: set<int>)
    ensures |s| == n && forall k :: k in s <==> 0 <= k < n
  {
    if n == 0 then {} else Below(n - 1) + {n - 1}
  }

  /** Indices below n that are as many as n are all of them. */
  lemma AllIndices(keys: set<int>, n: nat)
    requires forall k | k in keys :: 0 <= k < n
    ensures keys == Below(n) <==> |keys| == n
  {
    if |keys| == n {
      SubsetOfSameSize(keys, Below(n));
    }
  }

  lemma SubsetOfSameSize(a: set<int>, b: set<int>)
    requires a <= b && |a| == |b|
    ensures a == b
  {
    assert b == a + (b - a);
  }

  /** Reads every result back, and files it under its index. */
  method FileResults(plan: Plan, results: seq<ShardResult>, check: string -> Option<string>) returns (r: Option<ByIndex>)
    ensures r.Some? <==> Parsed(plan, results, check) && Distinct(results)
    ensures r.Some? ==> r.value == Answers(results, plan, check)
  {
    hide Parse, AsPayload, Reparse, Answers, Distinct;
    var byIndex: ByIndex := map[];
    NoAnswers(plan, check);
    for i := 0 to |results|
      invariant Parsed(plan, results[..i], check) && Distinct(results[..i])
      invariant byIndex == Answers(results[..i], plan, check)
    {
      var parsed := Reparse(results[i], plan, check);
      Sequences.PrefixSnoc(results, i);
      assert results[i] in results;
      if parsed.None? {
        return None;
      }
      var result := parsed.value;
      NextAnswer(results[..i], results[i], plan, check);
      if result.shardIndex in byIndex {
        Repeated(results, i);
        return None;
      }
      byIndex := byIndex[result.shardIndex := result];
    }
    Sequences.PrefixAll(results);
    return Some(byIndex);
  }

  /** The fan-in: complete, of one model, within its limit, and deduplicated in shard order. */
  method AggregateDetectionShards(g: G.Geometry, plan: Plan, results: seq<ShardResult>, check: string -> Option<string>,
                                  maximum: int) returns (r: Option<Aggregate>)
    ensures r.Some? <==>
              && 1 <= maximum <= MAX_AGGREGATE_RAW && plan.ShardCount() > 0 && Complete(plan, results, check)
              && IndexedFully(results, plan, check) && |InOrder(Answers(results, plan, check), plan.ShardCount())| <= maximum
    ensures r.Some? ==>
              && r.value.raw == InOrder(Answers(results, plan, check), plan.ShardCount())
              && r.value.detections == G.GridDedupe(G.Rules(g, 40.0, 0.05), r.value.raw)
              && r.value.shardCount == plan.ShardCount() && r.value.tileCount == plan.TileCount()
              && forall a | a in results :: check(a.manifest) == Some(r.value.manifest)
  {
    hide Parsed, Answers, Distinct, Holds, Below, InOrder, G.GridDedupe, G.SoundOn;
    if !(1 <= maximum <= MAX_AGGREGATE_RAW) {
      return None;
    }
    var filed := FileResults(plan, results, check);
    if filed.None? {
      return None;
    }
    var byIndex := filed.value;
    HowMany(results, plan, check);
    if byIndex.Keys != Below(plan.ShardCount()) {
      return None;
    }
    if plan.ShardCount() == 0 {
      return None;
    }
    var manifest := byIndex[0].manifest;
    if exists k | 1 <= k < plan.ShardCount() :: byIndex[k].manifest != manifest {
      MixedModels(results, plan, check);
      return None;
    }
    SameModels(results, plan, check, manifest);
    var raw := InOrder(byIndex, plan.ShardCount());
    if |raw| > maximum {
      return None;
    }
    var detections := G.DedupeMissionDetections(G.Rules(g, 40.0, 0.05), raw);
    return Some(Aggregate(manifest, raw, detections, plan.ShardCount(), plan.TileCount()));
  }

  /** The indices are all of the plan's exactly when there are as many results as shards. */
  lemma HowMany(results: seq<ShardResult>, plan: Plan, check: string -> Option<string>)
    requires Parsed(plan, results, check) && Distinct(results)
    ensures var keys := Answers(results, plan, check).Keys;
            && (keys == Below(plan.ShardCount()) <==> |results| == plan.ShardCount())
            && (keys == Below(plan.ShardCount()) <==> IndexedFully(results, plan, check))
            && (keys == Below(plan.ShardCount()) ==> forall k | 0 <= k < plan.ShardCount() :: k in keys)
  {
    hide Reparse, Answers;
    var byIndex := Answers(results, plan, check);
    AnswersMembers(results, plan, check);
    assert |byIndex| == |byIndex.Keys|;
    AllIndices(byIndex.Keys, plan.ShardCount());
    if IndexedFully(results, plan, check) {
      assert byIndex.Keys == Below(plan.ShardCount());
    }
  }

  ghost predicate IndexedFully(results: seq<ShardResult>, plan: Plan, check: string -> Option<string>)
    requires Parsed(plan, results, check)
  {
    forall k | 0 <= k < plan.ShardCount() :: k in Answers(results, plan, check)
  }

  lemma NoAnswers(plan: Plan, check: string -> Option<string>)
    ensures Parsed(plan, [], check) && Answers([], plan, check) == map[] && Distinct([])
  {
  }

  lemma NextAnswer(before: seq<ShardResult>, r: ShardResult, plan: Plan, check: string -> Option<string>)
    requires Parsed(plan, before, check) && Distinct(before) && Reparse(r, plan, check).Some?
    ensures Parsed(plan, before + [r], check)
    ensures var p := Reparse(r, plan, check).value; var byIndex := Answers(before, plan, check);
            && p.shardIndex == r.shardIndex
            && Answers(before + [r], plan, check) == byIndex[p.shardIndex := p]
            && (p.shardIndex !in byIndex ==> Distinct(before + [r]))
            && (p.shardIndex in byIndex ==> exists i | 0 <= i < |before| :: before[i].shardIndex == r.shardIndex)
  {
    hide Parse, AsPayload, Reparse;
    ReparseKeepsIndex(r, plan, check);
    AnswersMembers(before, plan, check);
    Sequences.DropSnoc(before, r);
    forall i | 0 <= i < |before| ensures before[i].shardIndex in Answers(before, plan, check) {
      assert before[i] in before;
    }
  }

  lemma Repeated(results: seq<ShardResult>, i: nat)
    requires i < |results| && exists j | 0 <= j < |results[..i]| :: results[..i][j].shardIndex == results[i].shardIndex
    ensures !Distinct(results)
  {
    var j :| 0 <= j < |results[..i]| && results[..i][j].shardIndex == results[i].shardIndex;
    assert results[j].shardIndex == results[i].shardIndex;
  }

  lemma MixedModels(results: seq<ShardResult>, plan: Plan, check: string -> Option<string>)
    requires Parsed(plan, results, check) && Distinct(results) && IndexedFully(results, plan, check)
    requires var byIndex := Answers(results, plan, check);
             exists k | 1 <= k < plan.ShardCount() :: byIndex[k].manifest != byIndex[0].manifest
    ensures !Complete(plan, results, check)
  {
    hide Parse, AsPayload, Reparse, Answers;
    var byIndex := Answers(results, plan, check);
    AnswersMembers(results, plan, check);
    var k :| 1 <= k < plan.ShardCount() && byIndex[k].manifest != byIndex[0].manifest;
    assert k in byIndex && 0 in byIndex;
    var a :| a in results && a.shardIndex == k;
    var b :| b in results && b.shardIndex == 0;
    ReparseKeepsIndex(a, plan, check);
    ReparseKeepsIndex(b, plan, check);
  }

  lemma SameModels(results: seq<ShardResult>, plan: Plan, check: string -> Option<string>, manifest: string)
    requires Parsed(plan, results, check) && Distinct(results) && IndexedFully(results, plan, check)
    requires var byIndex := Answers(results, plan, check);
             forall k | 0 <= k < plan.ShardCount() :: byIndex[k].manifest == manifest
    ensures forall a | a in results :: check(a.manifest) == Some(manifest)
  {
    hide Parse, AsPayload, Reparse, Answers;
    AnswersMembers(results, plan, check);
    forall a | a in results ensures check(a.manifest) == Some(manifest) {
      ReparseKeepsIndex(a, plan, check);
    }
  }

  /** A complete fan-in answers every shard. */
  lemma CompleteIsIndexed(plan: Plan, results: seq<ShardResult>, check: string -> Option<string>)
    requires Complete(plan, results, check)
    ensures IndexedFully(results, plan, check)
  {
    HowMany(results, plan, check);
  }

  // ----- Sharded equals monolithic -----

  /** The result a shard publishes after it ran. */
  ghost predicate ShardRan(f: Foreign, plan: Plan, r: ShardResult)
    requires ShardsInside(plan)
  {
    && 0 <= r.shardIndex < plan.ShardCount()
    && var tiles := Tiles(plan, r.shardIndex).value;
       exists model :: OneModel(f, tiles, model)
         && Parse(Payload(1, plan.checksum, r.shardIndex, plan.key.shards[r.shardIndex].count, model, RawOf(f, tiles)),
                  plan, f.check, MAX_SHARD_RAW) == Some(r)
  }

  lemma ShardRanFacts(f: Foreign, plan: Plan, r: ShardResult)
    requires ShardsInside(plan) && Canonicalises(f.check) && ShardRan(f, plan, r)
    ensures Reparse(r, plan, f.check) == Some(r)
    ensures var tiles, s := Tiles(plan, r.shardIndex).value, plan.key.shards[r.shardIndex];
            && NormalizeAll(RawOf(f, tiles), s.first, s.first + s.count) == Some(r.detections)
            && exists model :: OneModel(f, tiles, model) && f.check(model) == Some(r.manifest)
  {
    hide Reparse, RawOf, OneModel;
    var tiles := Tiles(plan, r.shardIndex).value;
    var model :| OneModel(f, tiles, model)
      && Parse(Payload(1, plan.checksum, r.shardIndex, plan.key.shards[r.shardIndex].count, model, RawOf(f, tiles)),
               plan, f.check, MAX_SHARD_RAW) == Some(r);
    ParseIdempotent(Payload(1, plan.checksum, r.shardIndex, plan.key.shards[r.shardIndex].count, model, RawOf(f, tiles)),
                    plan, f.check, MAX_SHARD_RAW);
  }

  /** The fan-in of the first n shards is the normalised output of their tiles. */
  lemma {:induction false} FanInPrefix(f: Foreign, plan: Plan, results: seq<ShardResult>, n: nat)
    requires ShardsInside(plan) && n <= plan.ShardCount()
    requires Complete(plan, results, f.check) && Parsed(plan, results, f.check) && IndexedFully(results, plan, f.check)
    requires Canonicalises(f.check) && forall r | r in results :: ShardRan(f, plan, r)
    ensures NormalizeAll(RawOf(f, TilesBefore(plan, n)), 0, plan.TileCount())
            == Some(InOrder(Answers(results, plan, f.check), n))
  {
    hide Complete, Canonicalises, ShardRan, Tiles, ShardsInside, RawOf, NormalizeAll, Answers, InOrder, Plan.TileCount;
    NoFanIn(f, plan, results);
    if n > 0 {
      NextInOrder(Answers(results, plan, f.check), n);
      FanInPrefix(f, plan, results, n - 1);
      ShardAnswer(f, plan, results, n - 1);
      InsideShard(plan, n - 1);
      NormalizeAppend(RawOf(f, TilesBefore(plan, n - 1)), RawOf(f, Tiles(plan, n - 1).value), 0, plan.TileCount());
      RawAppend(f, TilesBefore(plan, n - 1), Tiles(plan, n - 1).value);
    }
  }

  lemma NoFanIn(f: Foreign, plan: Plan, results: seq<ShardResult>)
    requires Parsed(plan, results, f.check)
    ensures NormalizeAll(RawOf(f, []), 0, plan.TileCount()) == Some(InOrder(Answers(results, plan, f.check), 0))
  {
  }

  lemma NextInOrder(byIndex: ByIndex, n: nat)
    requires n > 0 && forall k | 0 <= k < n :: k in byIndex
    ensures InOrder(byIndex, n) == InOrder(byIndex, n - 1) + byIndex[n - 1].detections
  {
  }

  /** What is filed under one shard is the normalised output of its tiles. */
  lemma ShardAnswer(f: Foreign, plan: Plan, results: seq<ShardResult>, k: nat)
    requires ShardsInside(plan) && k < plan.ShardCount()
    requires Complete(plan, results, f.check) && IndexedFully(results, plan, f.check)
    requires Canonicalises(f.check) && forall r | r in results :: ShardRan(f, plan, r)
    ensures Tiles(plan, k).Some? && k in Answers(results, plan, f.check)
    ensures NormalizeAll(RawOf(f, Tiles(plan, k).value), 0, plan.TileCount())
            == Some(Answers(results, plan, f.check)[k].detections)
  {
    hide Reparse, Answers, ShardRan, Tiles, ShardsInside, RawOf, NormalizeAll;
    AnswersMembers(results, plan, f.check);
    assert k in Answers(results, plan, f.check);
    var r :| r in results && r.shardIndex == k;
    ShardRanFacts(f, plan, r);
    InsideShard(plan, k);
    var s := plan.key.shards[k];
    NormalizeWiden(RawOf(f, Tiles(plan, k).value), s.first, s.first + s.count, 0, plan.TileCount());
  }

  lemma InsideShard(plan: Plan, k: nat)
    requires ShardsInside(plan) && k < plan.ShardCount()
    ensures plan.key.shards[k].first + plan.key.shards[k].count <= plan.TileCount() && Tiles(plan, k).Some?
  {
    assert plan.key.shards[k] in plan.key.shards;
  }

  /** The single shard of a monolithic plan holds the tiles of every other plan of the raster. */
  lemma SameTiles(plan: Plan, mono: Plan, digest: Digest)
    requires Built(plan, digest) && Built(mono, digest) && mono.ShardCount() == 1
    requires plan.key.width == mono.key.width && plan.key.height == mono.key.height
    requires plan.key.tileSize == mono.key.tileSize && plan.key.overlap == mono.key.overlap
    ensures ShardsInside(plan) && ShardsInside(mono) && plan.TileCount() == mono.TileCount()
    ensures Tiles(mono, 0) == Some(TilesBefore(plan, plan.ShardCount()))
    ensures mono.key.shards[0].first == 0 && mono.key.shards[0].count == mono.TileCount()
  {
    ShardsPartition(plan, digest);
    ShardsPartition(mono, digest);
    BuiltShards(plan, digest);
    BuiltShards(mono, digest);
    hide Built, TilePlanning.TileStarts;
    assert TilesBefore(mono, 1) == TilesBefore(mono, 0) + Tiles(mono, 0).value == Tiles(mono, 0).value;
    assert |Tiles(mono, 0).value| == mono.TileCount();
    assert AllTiles(plan) == AllTiles(mono);
  }

  /**
   * Whatever the shard size, and in whatever order the shards answer, the fan-in is complete, and its
   * raw detections are the normalised output of the monolithic run.
   */
  lemma ShardedEqualsMonolithic(f: Foreign, plan: Plan, mono: Plan, digest: Digest, results: seq<ShardResult>, model: string)
    requires Built(plan, digest) && Built(mono, digest) && mono.ShardCount() == 1 && ShardsInside(plan) && ShardsInside(mono)
    requires plan.key.width == mono.key.width && plan.key.height == mono.key.height
    requires plan.key.tileSize == mono.key.tileSize && plan.key.overlap == mono.key.overlap
    requires Canonicalises(f.check) && OneModel(f, Tiles(mono, 0).value, model)
    requires |results| == plan.ShardCount() && Distinct(results) && forall r | r in results :: ShardRan(f, plan, r)
    ensures Complete(plan, results, f.check) && IndexedFully(results, plan, f.check)
    ensures NormalizeAll(RawOf(f, Tiles(mono, 0).value), 0, mono.TileCount())
            == Some(InOrder(Answers(results, plan, f.check), plan.ShardCount()))
  {
    hide Parse, AsPayload, Reparse, Answers, ShardRan, Built, Tiles, ShardsInside, RawOf, NormalizeAll, OneModel;
    SameTiles(plan, mono, digest);
    forall r | r in results ensures Reparse(r, plan, f.check).Some? && f.check(r.manifest) == Some(model) {
      ShardRanFacts(f, plan, r);
      ShardModel(f, plan, digest, r, model);
    }
    CompleteIsIndexed(plan, results, f.check);
    FanInPrefix(f, plan, results, plan.ShardCount());
  }

  /** The shard saw the model of the whole run. */
  lemma ShardModel(f: Foreign, plan: Plan, digest: Digest, r: ShardResult, model: string)
    requires Built(plan, digest) && ShardsInside(plan) && Canonicalises(f.check) && ShardRan(f, plan, r)
    requires OneModel(f, TilesBefore(plan, plan.ShardCount()), model)
    ensures f.check(r.manifest) == Some(model)
  {
    hide Parse, RawOf, Built, Reparse;
    ShardRanFacts(f, plan, r);
    ShardsPartition(plan, digest);
    var k := r.shardIndex;
    var tiles := Tiles(plan, k).value;
    assert plan.key.shards[k] in plan.key.shards;
    assert tiles[0] in tiles;
    assert tiles[0] == AllTiles(plan)[plan.key.shards[k].first];
    assert tiles[0] in AllTiles(plan);
    var m :| OneModel(f, tiles, m) && f.check(m) == Some(r.manifest);
    assert ManifestOf(f, tiles[0]) == Some(m) == Some(model);
    assert f.check(f.infer(tiles[0]).1) == Some(model);
  }
}
