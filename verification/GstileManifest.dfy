/**
 * The GSTile v1 manifest contract (shared/gstile_manifest.py). The validator's worklist, running
 * counts and moving cursor are proved to accept exactly the manifests that are Sound: a tree in
 * which every node has one path from the root, and tile ranges that store every byte of every pack
 * exactly once. Coordinates are reals; JSON typing, path and digest syntax are not part of this model.
 */
module GstileManifest {
  import opened GstileHierarchy
  import opened GstileStorage
  import Sequences
  import opened Results

  const PACK_RECORD := 96
  const MAX_PACK_BYTES := 128 * 1024 * 1024
  const SCHEMA := "droneai-gstile"
  const PROFILE := "dronegs-sh3-opacity-sh3-q96-adaptive-lod-v4"
  const EXPECTED_LOD := "deterministic-adaptive-cost-moment-opacity-refit-v4"

  datatype Pack = Pack(id: string, byteLength: int, recordCount: int, byteOffset: int, sha256: string)

  datatype Tile = Tile(pack: string, recordCount: int, byteOffset: int, byteLength: int, sha256: string) {
    function Range(): Range { (byteOffset, byteOffset + byteLength) }
  }

  datatype Box = Box(min: seq<real>, max: seq<real>)

  datatype Node = Node(id: string, children: Option<seq<string>>, tile: Option<Tile>, lodTile: Option<Tile>,
                       bounds: Box, renderBounds: Box, gaussianCount: int, geometricError: real)

  datatype Statistics = Statistics(lod: string, proxyCount: int, proxyRecords: int)

  datatype Manifest = Manifest(schema: string, version: int, profile: string, sourceCount: int, root: string,
                               packs: seq<Pack>, nodes: seq<Node>, statistics: Statistics)

  type Packs = map<string, Pack>

  // ----- Packs -----

  predicate PackOk(pack: Pack) {
    && pack.id != "" && pack.recordCount >= 1 && pack.byteLength <= MAX_PACK_BYTES
    && pack.byteLength == PACK_HEADER + pack.recordCount * PACK_RECORD
    && pack.byteOffset == PACK_HEADER
  }

  ghost predicate DistinctPacks(packs: seq<Pack>) {
    forall i, j | 0 <= i < j < |packs| :: packs[i].id != packs[j].id
  }

  ghost predicate PacksOk(packs: seq<Pack>) {
    (forall p | p in packs :: PackOk(p)) && DistinctPacks(packs)
  }

  function PackTable(packs: seq<Pack>): Packs {
    if packs == [] then map[] else PackTable(packs[..|packs| - 1])[packs[|packs| - 1].id := packs[|packs| - 1]]
  }

  lemma {:induction false} PackTableMembers(packs: seq<Pack>)
    requires DistinctPacks(packs)
    ensures forall p | p in packs :: p.id in PackTable(packs) && PackTable(packs)[p.id] == p
    ensures forall id | id in PackTable(packs) :: PackTable(packs)[id] in packs && PackTable(packs)[id].id == id
  {
    if packs != [] {
      PackTableMembers(packs[..|packs| - 1]);
      assert packs == packs[..|packs| - 1] + [packs[|packs| - 1]];
    }
  }

  lemma NoPacks()
    ensures PacksOk([]) && PackTable([]) == map[]
  {
  }

  lemma OnePackMore(before: seq<Pack>, pack: Pack)
    requires PacksOk(before)
    ensures PacksOk(before + [pack]) <==> PackOk(pack) && pack.id !in PackTable(before)
  {
    hide PackOk, PackTable;
    PackTableMembers(before);
    var all := before + [pack];
    assert all[|before|] == pack && forall p | p in before :: p in all;
    if pack.id in PackTable(before) {
      var j :| 0 <= j < |before| && before[j] == PackTable(before)[pack.id];
      assert all[j].id == all[|before|].id;
    }
  }

  lemma TableOneMore(before: seq<Pack>, pack: Pack)
    ensures PackTable(before + [pack]) == PackTable(before)[pack.id := pack]
  {
    Sequences.DropSnoc(before, pack);
  }

  lemma PacksPrefix(packs: seq<Pack>, i: nat)
    requires i <= |packs| && PacksOk(packs)
    ensures PacksOk(packs[..i])
  {
    hide PackOk;
  }

  method ValidatePacks(packs: seq<Pack>) returns (r: Option<Packs>)
    ensures r.Some? <==> PacksOk(packs)
    ensures r.Some? ==> r.value == PackTable(packs)
  {
    hide PackOk, PacksOk, PackTable;
    NoPacks();
    var table: Packs := map[];
    for i := 0 to |packs|
      invariant PacksOk(packs[..i]) && table == PackTable(packs[..i])
    {
      var pack := packs[i];
      Sequences.PrefixSnoc(packs, i);
      OnePackMore(packs[..i], pack);
      TableOneMore(packs[..i], pack);
      if PacksOk(packs) {
        PacksPrefix(packs, i + 1);
      }
      if !PackOk(pack) {
        return None;
      }
      if pack.id in table {
        return None;
      }
      table := table[pack.id := pack];
    }
    Sequences.PrefixAll(packs);
    return Some(table);
  }

  // ----- Nodes -----

  predicate BoxOk(box: Box) {
    |box.min| == |box.max| == 3 && forall axis | 0 <= axis < 3 :: box.min[axis] <= box.max[axis]
  }

  predicate Contains(outer: Box, inner: Box)
    requires BoxOk(outer) && BoxOk(inner)
  {
    forall axis | 0 <= axis < 3 :: outer.min[axis] <= inner.min[axis] && inner.max[axis] <= outer.max[axis]
  }

  predicate TileOk(t: Tile, exact: bool, gaussianCount: int, packs: Packs) {
    && t.pack in packs
    && 1 <= t.recordCount <= packs[t.pack].recordCount
    && t.byteOffset >= PACK_HEADER && (t.byteOffset - PACK_HEADER) % PACK_RECORD == 0
    && t.byteLength == t.recordCount * PACK_RECORD
    && t.byteOffset + t.byteLength <= packs[t.pack].byteLength
    && t.sha256 == packs[t.pack].sha256
    && (exact ==> gaussianCount == t.recordCount)
    && (!exact ==> t.recordCount <= gaussianCount)
  }

  predicate NodeOk(node: Node, packs: Packs) {
    && node.id != ""
    && (node.children.None? != node.tile.None?) && (node.children.Some? == node.lodTile.Some?)
    && BoxOk(node.bounds) && BoxOk(node.renderBounds) && Contains(node.renderBounds, node.bounds)
    && node.gaussianCount >= 1 && node.geometricError >= 0.0
    && (node.children.Some? ==>
          && |node.children.value| == 2 && (forall c | c in node.children.value :: c != "")
          && TileOk(node.lodTile.value, false, node.gaussianCount, packs))
    && (node.tile.Some? ==> TileOk(node.tile.value, true, node.gaussianCount, packs))
  }

  /** The one tile reference of an accepted node. */
  function TileOf(node: Node): Tile
    requires node.tile.Some? || node.lodTile.Some?
  {
    if node.tile.Some? then node.tile.value else node.lodTile.value
  }

  ghost predicate DistinctNodes(nodes: seq<Node>) {
    forall i, j | 0 <= i < j < |nodes| :: nodes[i].id != nodes[j].id
  }

  ghost predicate NodesOk(nodes: seq<Node>, packs: Packs) {
    (forall n | n in nodes :: NodeOk(n, packs)) && DistinctNodes(nodes)
  }

  function NodesById(nodes: seq<Node>): map<string, Node> {
    if nodes == [] then map[] else NodesById(nodes[..|nodes| - 1])[nodes[|nodes| - 1].id := nodes[|nodes| - 1]]
  }

  function ChildrenOf(byId: map<string, Node>): Children {
    map id | id in byId && byId[id].children.Some? :: byId[id].children.value
  }

  lemma {:induction false} NodesByIdMembers(nodes: seq<Node>)
    requires DistinctNodes(nodes)
    ensures forall n | n in nodes :: n.id in NodesById(nodes) && NodesById(nodes)[n.id] == n
    ensures forall id | id in NodesById(nodes) :: NodesById(nodes)[id] in nodes && NodesById(nodes)[id].id == id
  {
    if nodes != [] {
      var rest, last := nodes[..|nodes| - 1], nodes[|nodes| - 1];
      NodesByIdMembers(rest);
      assert nodes == rest + [last];
    }
  }

  ghost predicate HasTiles(nodes: seq<Node>) {
    forall n | n in nodes :: n.tile.Some? || n.lodTile.Some?
  }

  /** The ranges the nodes name in one pack, in node order. */
  function RangesOf(nodes: seq<Node>, pack: string): seq<Range>
    requires HasTiles(nodes)
  {
    if nodes == [] then []
    else
      var t := TileOf(nodes[|nodes| - 1]);
      RangesOf(nodes[..|nodes| - 1], pack) + (if t.pack == pack then [t.Range()] else [])
  }

  /** Records in leaf tiles, and in level-of-detail proxies. */
  function TileRecords(nodes: seq<Node>): int {
    if nodes == [] then 0
    else TileRecords(nodes[..|nodes| - 1])
         + (if nodes[|nodes| - 1].tile.Some? then nodes[|nodes| - 1].tile.value.recordCount else 0)
  }

  function LodRecords(nodes: seq<Node>): int {
    if nodes == [] then 0
    else LodRecords(nodes[..|nodes| - 1])
         + (if nodes[|nodes| - 1].lodTile.Some? then nodes[|nodes| - 1].lodTile.value.recordCount else 0)
  }

  datatype Tally = Tally(nodeIds: set<string>, children: Children, referenced: set<string>, tileCount: nat, tileRecords: int,
                         lodTileCount: nat, lodTileRecords: int, ranges: map<string, seq<Range>>)

  function RangesAt(ranges: map<string, seq<Range>>, pack: string): seq<Range> {
    if pack in ranges then ranges[pack] else []
  }

  ghost predicate Tallies(t: Tally, nodes: seq<Node>) {
    HasTiles(nodes) && TalliesNodes(t, nodes) && TalliesRanges(t.ranges, t.referenced, nodes)
  }

  ghost predicate TalliesNodes(t: Tally, nodes: seq<Node>) {
    && t.nodeIds == NodesById(nodes).Keys
    && t.children == ChildrenOf(NodesById(nodes))
    && t.tileCount + t.lodTileCount == |nodes| && t.lodTileCount == |t.children|
    && t.tileRecords == TileRecords(nodes) && t.lodTileRecords == LodRecords(nodes)
  }

  ghost predicate TalliesRanges(ranges: map<string, seq<Range>>, referenced: set<string>, nodes: seq<Node>)
    requires HasTiles(nodes)
  {
    && (forall pack :: RangesAt(ranges, pack) == RangesOf(nodes, pack))
    && referenced == ranges.Keys
    && (forall pack | pack in ranges :: ranges[pack] != [])
  }

  method ValidateNodes(nodes: seq<Node>, packs: Packs) returns (r: Option<Tally>)
    ensures r.Some? <==> NodesOk(nodes, packs)
    ensures r.Some? ==> Tallies(r.value, nodes)
  {
    var tally := Tally({}, map[], {}, 0, 0, 0, 0, map[]);
    assert ChildrenOf(map[]) == map[];
    for i := 0 to |nodes|
      invariant NodesOk(nodes[..i], packs) && Tallies(tally, nodes[..i])
    {
      hide NodesOk, Tallies, NodeOk;
      var node := nodes[i];
      Sequences.PrefixSnoc(nodes, i);
      if !NodeOk(node, packs) {
        Rejected(nodes, packs, i);
        return None;
      }
      if node.id in tally.nodeIds {
        Repeated(nodes, packs, i, tally);
        return None;
      }
      Accumulated(nodes[..i], node, packs, tally);
      var tile := TileRecord(node, packs);
      tally := Accumulate(tally, node, tile);
    }
    Sequences.PrefixAll(nodes);
    return Some(tally);
  }

  lemma Rejected(nodes: seq<Node>, packs: Packs, i: nat)
    requires i < |nodes| && !NodeOk(nodes[i], packs)
    ensures !NodesOk(nodes, packs)
  {
    assert nodes[i] in nodes;
  }

  lemma Repeated(nodes: seq<Node>, packs: Packs, i: nat, tally: Tally)
    requires i < |nodes| && NodesOk(nodes[..i], packs) && Tallies(tally, nodes[..i]) && nodes[i].id in tally.nodeIds
    ensures !NodesOk(nodes, packs)
  {
    hide NodeOk, ChildrenOf, RangesOf, TileRecords, LodRecords;
    NodesByIdMembers(nodes[..i]);
    assert NodesById(nodes[..i])[nodes[i].id] in nodes[..i];
  }

  function TileRecord(node: Node, packs: Packs): Tile
    requires NodeOk(node, packs)
  {
    TileOf(node)
  }

  function Accumulate(t: Tally, node: Node, tile: Tile): Tally {
    t.(nodeIds := t.nodeIds + {node.id},
       children := if node.children.Some? then t.children[node.id := node.children.value] else t.children,
       referenced := t.referenced + {tile.pack},
       ranges := t.ranges[tile.pack := RangesAt(t.ranges, tile.pack) + [tile.Range()]],
       tileCount := if node.tile.Some? then t.tileCount + 1 else t.tileCount,
       tileRecords := if node.tile.Some? then t.tileRecords + tile.recordCount else t.tileRecords,
       lodTileCount := if node.tile.Some? then t.lodTileCount else t.lodTileCount + 1,
       lodTileRecords := if node.tile.Some? then t.lodTileRecords else t.lodTileRecords + tile.recordCount)
  }

  lemma Accumulated(nodes: seq<Node>, node: Node, packs: Packs, t: Tally)
    requires NodesOk(nodes, packs) && Tallies(t, nodes) && NodeOk(node, packs) && node.id !in t.nodeIds
    ensures NodesOk(nodes + [node], packs)
    ensures Tallies(Accumulate(t, node, TileOf(node)), nodes + [node])
  {
    hide NodeOk, NodesById, ChildrenOf, DistinctNodes, HasTiles, TalliesRanges, TalliesNodes;
    OneTile(node, packs);
    AccumulatedNodes(nodes, node, t);
    AccumulatedRanges(nodes, node, t.ranges, t.referenced);
  }

  lemma AccumulatedNodes(nodes: seq<Node>, node: Node, t: Tally)
    requires DistinctNodes(nodes) && TalliesNodes(t, nodes) && node.id !in t.nodeIds
    requires (node.tile.Some? <==> node.lodTile.None?) && (node.children.Some? <==> node.lodTile.Some?)
    ensures DistinctNodes(nodes + [node]) && TalliesNodes(Accumulate(t, node, TileOf(node)), nodes + [node])
  {
    hide NodesById, ChildrenOf, TileRecords, LodRecords, DistinctNodes;
    var more, t' := nodes + [node], Accumulate(t, node, TileOf(node));
    AccumulatedIds(nodes, node);
    ChildrenOfUpdate(NodesById(nodes), node);
    assert t'.children == ChildrenOf(NodesById(more));
    AccumulatedRecords(nodes, node);
  }

  lemma OneTile(node: Node, packs: Packs)
    requires NodeOk(node, packs)
    ensures node.tile.Some? <==> node.lodTile.None?
    ensures node.children.Some? <==> node.lodTile.Some?
  {
  }

  lemma AccumulatedIds(nodes: seq<Node>, node: Node)
    requires DistinctNodes(nodes) && node.id !in NodesById(nodes)
    ensures DistinctNodes(nodes + [node])
    ensures NodesById(nodes + [node]) == NodesById(nodes)[node.id := node]
    ensures NodesById(nodes + [node]).Keys == NodesById(nodes).Keys + {node.id}
  {
    NodesByIdMembers(nodes);
    Sequences.DropSnoc(nodes, node);
    forall j | 0 <= j < |nodes| ensures nodes[j].id != node.id {
      assert nodes[j] in nodes;
    }
  }

  lemma ChildrenOfUpdate(byId: map<string, Node>, node: Node)
    requires node.id !in byId
    ensures ChildrenOf(byId[node.id := node])
            == if node.children.Some? then ChildrenOf(byId)[node.id := node.children.value] else ChildrenOf(byId)
    ensures node.id !in ChildrenOf(byId)
    ensures |ChildrenOf(byId[node.id := node])| == |ChildrenOf(byId)| + if node.children.Some? then 1 else 0
  {
  }

  lemma AccumulatedRecords(nodes: seq<Node>, node: Node)
    ensures TileRecords(nodes + [node]) == TileRecords(nodes) + if node.tile.Some? then node.tile.value.recordCount else 0
    ensures LodRecords(nodes + [node]) == LodRecords(nodes) + if node.lodTile.Some? then node.lodTile.value.recordCount else 0
  {
    Sequences.DropSnoc(nodes, node);
  }

  lemma AccumulatedRanges(nodes: seq<Node>, node: Node, ranges: map<string, seq<Range>>, referenced: set<string>)
    requires HasTiles(nodes) && (node.tile.Some? || node.lodTile.Some?) && TalliesRanges(ranges, referenced, nodes)
    ensures HasTiles(nodes + [node])
    ensures var t := TileOf(node);
            TalliesRanges(ranges[t.pack := RangesAt(ranges, t.pack) + [t.Range()]], referenced + {t.pack}, nodes + [node])
  {
    var t := TileOf(node);
    var next := ranges[t.pack := RangesAt(ranges, t.pack) + [t.Range()]];
    Sequences.DropSnoc(nodes, node);
    forall pack ensures RangesAt(next, pack) == RangesOf(nodes + [node], pack) {
      assert RangesAt(ranges, pack) == RangesOf(nodes, pack);
    }
  }

  // ----- Conservation -----

  /** Records the nodes keep in one pack, and in all packs. */
  function RecordsIn(nodes: seq<Node>, pack: string): int
    requires HasTiles(nodes)
  {
    if nodes == [] then 0
    else
      var t := TileOf(nodes[|nodes| - 1]);
      RecordsIn(nodes[..|nodes| - 1], pack) + (if t.pack == pack then t.recordCount else 0)
  }

  function RecordsInAll(nodes: seq<Node>, packs: seq<Pack>): int
    requires HasTiles(nodes)
  {
    if packs == [] then 0 else RecordsIn(nodes, packs[0].id) + RecordsInAll(nodes, packs[1..])
  }

  function PackRecords(packs: seq<Pack>): int {
    if packs == [] then 0 else packs[0].recordCount + PackRecords(packs[1..])
  }

  ghost predicate TilesOk(nodes: seq<Node>, packs: Packs) {
    && HasTiles(nodes)
    && forall n | n in nodes ::
         && var t := TileOf(n);
         && t.pack in packs && t.byteOffset >= PACK_HEADER && t.recordCount >= 1
         && t.byteLength == t.recordCount * PACK_RECORD && t.byteOffset + t.byteLength <= packs[t.pack].byteLength
  }

  lemma {:induction false} PackStorage(nodes: seq<Node>, packs: Packs, pack: string)
    requires TilesOk(nodes, packs) && pack in packs
    ensures Inside(RangesOf(nodes, pack), packs[pack].byteLength)
    ensures Lengths(RangesOf(nodes, pack)) == PACK_RECORD * RecordsIn(nodes, pack)
  {
    if nodes != [] {
      var rest, last := nodes[..|nodes| - 1], nodes[|nodes| - 1];
      PackStorage(rest, packs, pack);
      assert last in nodes;
      LengthsAppend(RangesOf(rest, pack), if TileOf(last).pack == pack then [TileOf(last).Range()] else []);
    }
  }

  /** One more node adds its records to exactly one pack. */
  lemma {:induction false} OnePack(nodes: seq<Node>, last: Node, packs: seq<Pack>)
    requires HasTiles(nodes) && HasTiles(nodes + [last]) && HasTiles([last]) && DistinctPacks(packs)
    ensures var t := TileOf(last);
            RecordsInAll(nodes + [last], packs)
            == RecordsInAll(nodes, packs) + if (exists p :: p in packs && p.id == t.pack) then t.recordCount else 0
  {
    var t := TileOf(last);
    Sequences.DropSnoc(nodes, last);
    if packs != [] {
      OnePack(nodes, last, packs[1..]);
      assert packs == [packs[0]] + packs[1..];
      if packs[0].id == t.pack {
        forall p | p in packs[1..] ensures p.id != t.pack {
          var k :| 0 <= k < |packs[1..]| && packs[1..][k] == p;
          assert packs[0].id != packs[k + 1].id;
        }
      }
    }
  }

  lemma {:induction false} EveryRecordInOnePack(nodes: seq<Node>, packs: seq<Pack>)
    requires HasTiles(nodes) && DistinctPacks(packs)
    requires forall n | n in nodes :: (n.tile.Some? <==> n.lodTile.None?)
    requires forall n | n in nodes :: exists p :: p in packs && p.id == TileOf(n).pack
    ensures RecordsInAll(nodes, packs) == TileRecords(nodes) + LodRecords(nodes)
  {
    if nodes == [] {
      NoRecords(packs);
    } else {
      var rest, last := nodes[..|nodes| - 1], nodes[|nodes| - 1];
      assert nodes == rest + [last] && last in nodes;
      EveryRecordInOnePack(rest, packs);
      OnePack(rest, last, packs);
    }
  }

  lemma {:induction false} NoRecords(packs: seq<Pack>)
    ensures RecordsInAll([], packs) == 0
  {
    if packs != [] {
      NoRecords(packs[1..]);
    }
  }

  // ----- Accepted manifests -----

  predicate HeaderOk(m: Manifest) {
    && m.schema == SCHEMA && m.version == 1 && m.profile == PROFILE
    && m.nodes != [] && m.packs != [] && m.sourceCount >= 1
  }

  predicate StatisticsOk(s: Statistics, proxyCount: int, proxyRecords: int) {
    s.lod == EXPECTED_LOD && s.proxyCount == proxyCount && s.proxyRecords == proxyRecords
  }

  /** The render bounds of every parent contain those of its children. */
  predicate NestedBounds(byId: map<string, Node>, children: Children)
    requires forall n | n in byId :: BoxOk(byId[n].renderBounds)
    requires forall n | n in children :: n in byId && forall c | c in children[n] :: c in byId
  {
    forall n | n in children :: forall c | c in children[n] :: Contains(byId[n].renderBounds, byId[c].renderBounds)
  }

  ghost predicate Hierarchy(m: Manifest) {
    var byId := NodesById(m.nodes);
    && DistinctNodes(m.nodes) && (forall n | n in byId :: BoxOk(byId[n].renderBounds))
    && Tree(byId.Keys, ChildrenOf(byId), m.root) && NestedBounds(byId, ChildrenOf(byId))
  }

  ghost predicate ExactStorage(m: Manifest) {
    HasTiles(m.nodes) && forall p | p in m.packs :: StoredOnce(RangesOf(m.nodes, p.id), p.byteLength)
  }

  ghost predicate Sound(m: Manifest) {
    && HeaderOk(m) && PacksOk(m.packs) && NodesOk(m.nodes, PackTable(m.packs))
    && Hierarchy(m) && ExactStorage(m)
    && TileRecords(m.nodes) == m.sourceCount
    && StatisticsOk(m.statistics, |ChildrenOf(NodesById(m.nodes))|, LodRecords(m.nodes))
  }

  lemma NodesHaveTiles(nodes: seq<Node>, packs: Packs)
    requires NodesOk(nodes, packs)
    ensures HasTiles(nodes) && TilesOk(nodes, packs)
    ensures forall n | n in nodes :: (n.tile.Some? <==> n.lodTile.None?) && (n.tile.Some? <==> n.children.None?)
    ensures forall n | n in nodes :: BoxOk(n.renderBounds) && BoxOk(n.bounds) && Contains(n.renderBounds, n.bounds)
    ensures forall n | n in nodes && n.children.Some? :: |n.children.value| == 2
  {
  }

  lemma BoundsKnown(nodes: seq<Node>, packs: Packs)
    requires NodesOk(nodes, packs)
    ensures forall n | n in NodesById(nodes) :: BoxOk(NodesById(nodes)[n].renderBounds)
  {
    hide NodeOk;
    NodesByIdMembers(nodes);
    NodesHaveTiles(nodes, packs);
  }

  /** The packs whose ranges have been checked: all but the waiting ones. */
  ghost predicate StoredOutside(nodes: seq<Node>, packs: Packs, waiting: set<string>)
    requires HasTiles(nodes)
  {
    forall id | id in packs && id !in waiting :: StoredOnce(RangesOf(nodes, id), packs[id].byteLength)
  }

  /** Fail closed: accepted exactly when sound. */
  method ValidateGstileManifest(m: Manifest) returns (ok: bool)
    ensures ok <==> Sound(m)
  {
    hide NodesOk, PacksOk, Tree, ChildrenOf, TalliesNodes, TalliesRanges, StoredOnce, DistinctNodes, Inside;
    if !HeaderOk(m) {
      return false;
    }
    var table := ValidatePacks(m.packs);
    if table.None? {
      return false;
    }
    var tally := ValidateNodes(m.nodes, table.value);
    if tally.None? {
      return false;
    }
    var t := tally.value;
    TallyFacts(m, t);
    var shaped := ValidateHierarchy(t.nodeIds, t.children, m.root);
    if !shaped {
      return false;
    }
    var byId := NodesById(m.nodes);
    RequiredOfTree(byId.Keys, t.children, m.root);
    if !NestedBounds(byId, t.children) {
      return false;
    }
    var waiting := table.value.Keys;
    while waiting != {}
      invariant waiting <= table.value.Keys
      invariant StoredOutside(m.nodes, table.value, waiting)
    {
      var id :| id in waiting;
      StorageFacts(m, t, id);
      var covered := CoversPack(RangesAt(t.ranges, id), table.value[id].byteLength);
      if !covered {
        return false;
      }
      waiting := waiting - {id};
    }
    EveryPackStored(m);
    AllReferenced(m, t);
    if t.referenced != table.value.Keys || t.tileRecords != m.sourceCount {
      return false;
    }
    if t.lodTileCount != |t.children| {
      return false;
    }
    return StatisticsOk(m.statistics, t.lodTileCount, t.lodTileRecords);
  }

  lemma TallyFacts(m: Manifest, t: Tally)
    requires PacksOk(m.packs) && NodesOk(m.nodes, PackTable(m.packs)) && Tallies(t, m.nodes)
    ensures t.nodeIds == NodesById(m.nodes).Keys && t.children == ChildrenOf(NodesById(m.nodes))
    ensures t.lodTileCount == |t.children| && t.tileRecords == TileRecords(m.nodes) && t.lodTileRecords == LodRecords(m.nodes)
    ensures DistinctNodes(m.nodes)
    ensures forall n | n in NodesById(m.nodes) :: BoxOk(NodesById(m.nodes)[n].renderBounds)
    ensures forall n | n in ChildrenOf(NodesById(m.nodes)) :: n in NodesById(m.nodes)
    ensures HasTiles(m.nodes)
  {
    BoundsKnown(m.nodes, PackTable(m.packs));
  }

  lemma StorageFacts(m: Manifest, t: Tally, id: string)
    requires PacksOk(m.packs) && NodesOk(m.nodes, PackTable(m.packs)) && Tallies(t, m.nodes) && id in PackTable(m.packs)
    ensures RangesAt(t.ranges, id) == RangesOf(m.nodes, id)
    ensures Inside(RangesOf(m.nodes, id), PackTable(m.packs)[id].byteLength)
    ensures PackTable(m.packs)[id] in m.packs && PackTable(m.packs)[id].id == id
    ensures PackTable(m.packs)[id].byteLength > PACK_HEADER
  {
    hide NodeOk, TalliesNodes, NodesOk;
    PackTableMembers(m.packs);
    NodesHaveTiles(m.nodes, PackTable(m.packs));
    PackStorage(m.nodes, PackTable(m.packs), id);
  }

  lemma EveryPackStored(m: Manifest)
    requires PacksOk(m.packs) && HasTiles(m.nodes)
    ensures ExactStorage(m) <==> StoredOutside(m.nodes, PackTable(m.packs), {})
  {
    hide StoredOnce, PackOk;
    PackTableMembers(m.packs);
    var packs := PackTable(m.packs);
    if ExactStorage(m) {
      forall id | id in packs ensures StoredOnce(RangesOf(m.nodes, id), packs[id].byteLength) {
        assert packs[id] in m.packs && packs[id].id == id;
      }
    }
    if StoredOutside(m.nodes, packs, {}) {
      forall p | p in m.packs ensures StoredOnce(RangesOf(m.nodes, p.id), p.byteLength) {
        assert p.id in packs && packs[p.id] == p;
      }
    }
  }

  /** Exact storage already implies that every pack is referenced, and no other. */
  lemma AllReferenced(m: Manifest, t: Tally)
    requires PacksOk(m.packs) && NodesOk(m.nodes, PackTable(m.packs)) && Tallies(t, m.nodes) && ExactStorage(m)
    ensures t.referenced == PackTable(m.packs).Keys
  {
    hide NodeOk, NodesOk, TalliesNodes, PackOk, StoredOnce;
    var packs := PackTable(m.packs);
    NodesHaveTiles(m.nodes, packs);
    forall id | id in packs ensures id in t.referenced {
      StorageFacts(m, t, id);
      FirstByteStored(RangesOf(m.nodes, id), packs[id].byteLength);
    }
    forall id | id in t.referenced ensures id in packs {
      ReferencedIsKnown(m.nodes, packs, id);
    }
  }

  lemma FirstByteStored(ranges: seq<Range>, length: int)
    requires StoredOnce(ranges, length) && length > PACK_HEADER
    ensures ranges != []
  {
    assert Cover(ranges, PACK_HEADER) == 1;
  }

  lemma {:induction false} ReferencedIsKnown(nodes: seq<Node>, packs: Packs, id: string)
    requires TilesOk(nodes, packs) && RangesOf(nodes, id) != []
    ensures id in packs
  {
    var rest, last := nodes[..|nodes| - 1], nodes[|nodes| - 1];
    assert last in nodes;
    if TileOf(last).pack != id {
      ReferencedIsKnown(rest, packs, id);
    }
  }

  // ----- What acceptance means -----

  /** The render bounds of the root contain those of every node reached from it. */
  lemma {:induction false} RootContains(m: Manifest, p: Path)
    requires Hierarchy(m) && Follow(ChildrenOf(NodesById(m.nodes)), m.root, p).Some?
    ensures var byId := NodesById(m.nodes); var n := Follow(ChildrenOf(byId), m.root, p).value;
            m.root in byId && n in byId && Contains(byId[m.root].renderBounds, byId[n].renderBounds)
  {
    hide DistinctNodes, ChildrenOf, NodesById;
    var byId := NodesById(m.nodes);
    if p != [] {
      RootContains(m, p[..|p| - 1]);
      var parent := Follow(ChildrenOf(byId), m.root, p[..|p| - 1]).value;
      var n := Follow(ChildrenOf(byId), m.root, p).value;
      assert n in ChildrenOf(byId)[parent];
      ContainsTransitive(byId[m.root].renderBounds, byId[parent].renderBounds, byId[n].renderBounds);
    }
  }

  lemma ContainsTransitive(a: Box, b: Box, c: Box)
    requires BoxOk(a) && BoxOk(b) && BoxOk(c) && Contains(a, b) && Contains(b, c)
    ensures Contains(a, c)
  {
  }

  /** An accepted manifest is a full binary tree: one proxy for each internal node, and one leaf more. */
  lemma AcceptedIsFull(m: Manifest)
    requires Sound(m)
    ensures var byId := NodesById(m.nodes);
            && |byId| == |m.nodes| == 1 + 2 * m.statistics.proxyCount
            && |byId.Keys - ChildrenOf(byId).Keys| == m.statistics.proxyCount + 1
  {
    hide PacksOk, ExactStorage, DistinctNodes, NodeOk, Tree, NestedBounds, NodesById;
    var byId := NodesById(m.nodes);
    NodesByIdMembers(m.nodes);
    NodeCount(m.nodes);
    NodesHaveTiles(m.nodes, PackTable(m.packs));
    TreeIsFull(byId.Keys, ChildrenOf(byId), m.root);
  }

  /** Every node of an accepted manifest is drawn inside the render bounds of the root. */
  lemma AcceptedIsBounded(m: Manifest, n: Node)
    requires Sound(m) && n in m.nodes
    ensures BoxOk(n.bounds) && m.root in NodesById(m.nodes) && BoxOk(NodesById(m.nodes)[m.root].renderBounds)
    ensures Contains(NodesById(m.nodes)[m.root].renderBounds, n.bounds)
  {
    hide PacksOk, ExactStorage, DistinctNodes, NodeOk, Tree, NestedBounds, NodesById, Contains, BoxOk;
    var byId := NodesById(m.nodes);
    NodesByIdMembers(m.nodes);
    NodesHaveTiles(m.nodes, PackTable(m.packs));
    var p := SomePath(byId.Keys, ChildrenOf(byId), m.root, n.id);
    RootContains(m, p);
    ContainsTransitive(byId[m.root].renderBounds, n.renderBounds, n.bounds);
  }

  lemma {:induction false} NodeCount(nodes: seq<Node>)
    requires DistinctNodes(nodes)
    ensures |NodesById(nodes)| == |nodes|
  {
    if nodes != [] {
      var rest, last := nodes[..|nodes| - 1], nodes[|nodes| - 1];
      NodeCount(rest);
      NodesByIdMembers(rest);
      assert last.id !in NodesById(rest);
    }
  }

  /** The packs of an accepted manifest hold the source records and the proxies, and nothing else. */
  lemma RecordsConserved(m: Manifest)
    requires Sound(m)
    ensures PackRecords(m.packs) == m.sourceCount + m.statistics.proxyRecords
  {
    hide NodesOk, Hierarchy, NodeOk;
    NodesHaveTiles(m.nodes, PackTable(m.packs));
    PackTableMembers(m.packs);
    forall p | p in m.packs ensures RecordsIn(m.nodes, p.id) == p.recordCount {
      PackStorage(m.nodes, PackTable(m.packs), p.id);
      StoredLengths(RangesOf(m.nodes, p.id), p.byteLength);
    }
    SumPacks(m.nodes, m.packs);
    forall n | n in m.nodes ensures exists p :: p in m.packs && p.id == TileOf(n).pack {
      assert PackTable(m.packs)[TileOf(n).pack] in m.packs;
    }
    EveryRecordInOnePack(m.nodes, m.packs);
  }

  lemma {:induction false} SumPacks(nodes: seq<Node>, packs: seq<Pack>)
    requires HasTiles(nodes) && forall p | p in packs :: RecordsIn(nodes, p.id) == p.recordCount
    ensures RecordsInAll(nodes, packs) == PackRecords(packs)
  {
    if packs != [] {
      SumPacks(nodes, packs[1..]);
    }
  }

  /** The leaves alone describe the whole source population. */
  function LeafPopulation(nodes: seq<Node>): int {
    if nodes == [] then 0
    else LeafPopulation(nodes[..|nodes| - 1])
         + (if nodes[|nodes| - 1].tile.Some? then nodes[|nodes| - 1].gaussianCount else 0)
  }

  lemma {:induction false} LeavesDescribeSource(nodes: seq<Node>, packs: Packs)
    requires NodesOk(nodes, packs)
    ensures LeafPopulation(nodes) == TileRecords(nodes)
  {
    if nodes != [] {
      assert nodes[|nodes| - 1] in nodes;
      LeavesDescribeSource(nodes[..|nodes| - 1], packs);
    }
  }
}
