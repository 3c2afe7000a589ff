/**
 * The GeoJSON to OSM XML 0.6 converter of the server: every Polygon
 * feature (RFC 7946 section 3.1.6: the first linear ring is the exterior,
 * the others are holes) becomes nodes with negative ids, one closed way per
 * ring and, when it has holes, a multipolygon relation. The model stops at
 * the object tree that is handed to the XML serialiser.
 */
module ToOsm {
  import opened Wrappers

  /** A GeoJSON position `[longitude, latitude]` (further elements are ignored). */
  datatype Position = Position(lon: real, lat: real)

  type Ring = seq<Position>

  /** Only the geometry type matters: every type other than Polygon is skipped. */
  datatype Geometry = Polygon(rings: seq<Ring>) | OtherGeometry

  datatype Feature = Feature(geometry: Geometry)

  datatype Tag = Tag(k: string, v: string)

  datatype Node = Node(id: int, lat: real, lon: real)

  datatype Way = Way(id: int, refs: seq<int>, tags: seq<Tag>)

  datatype Member = Member(kind: string, ref: int, role: string)

  datatype Relation = Relation(id: int, tags: seq<Tag>, members: seq<Member>)

  /** The `osm` element: attributes `version` and `generator`, then the three element lists. */
  datatype Osm = Osm(version: string, generator: string, nodes: seq<Node>, ways: seq<Way>, relations: seq<Relation>)

  const SourceTag := Tag("source", "ÚGKK SR LLS")
  const WoodTag := Tag("natural", "wood")
  const MultipolygonTag := Tag("type", "multipolygon")

  /** `coordinates.slice(0, coordinates.length - 1).length`: the closing position is dropped. */
  function NodeCount(ring: Ring): nat {
    if |ring| == 0 then 0 else |ring| - 1
  }

  /** `coordinatesToNodes`: node `k` gets id `-(start + k)` and the `k`-th position. */
  function CoordinatesToNodes(ring: Ring, start: int): (nodes: seq<Node>)
    ensures |nodes| == NodeCount(ring)
  {
    seq(NodeCount(ring), k requires 0 <= k < NodeCount(ring) => Node(-(start + k), ring[k].lat, ring[k].lon))
  }

  function NodePosition(n: Node): Position {
    Position(n.lon, n.lat)
  }

  /**
   * Converting a ring to nodes and reading the nodes' positions back gives
   * the ring without its closing position, and the ids count down from
   * `-start` in steps of one.
   */
  lemma NodesKeepRingPositions(ring: Ring, start: int)
    ensures var nodes := CoordinatesToNodes(ring, start);
      && (forall k :: 0 <= k < |nodes| ==> NodePosition(nodes[k]) == ring[k] && nodes[k].id == -(start + k))
      && |nodes| == (if ring == [] then 0 else |ring| - 1)
  {
  }

  /** `coordinatesToWay`: refs of the ring's nodes, then the first node again; `natural=wood` only when `simple`. */
  function CoordinatesToWay(ring: Ring, start: int, wayId: int, simple: bool): (w: Way)
    ensures w.id == wayId
    ensures |w.refs| == NodeCount(ring) + 1
    ensures w.refs[0] == w.refs[|w.refs| - 1] == -start
    ensures |w.tags| >= 1 && w.tags[0] == SourceTag
    ensures WoodTag in w.tags <==> simple
  {
    Way(wayId,
        seq(NodeCount(ring), k requires 0 <= k < NodeCount(ring) => -(start + k)) + [-start],
        [SourceTag] + (if simple then [WoodTag] else []))
  }

  /**
   * The way of a ring refers to the ring's nodes in order and closes on the
   * first one; for a ring of at least two positions every ref is the id of
   * one of those nodes.
   */
  lemma WayRefsAreRingNodes(ring: Ring, start: int, wayId: int, simple: bool)
    ensures var nodes := CoordinatesToNodes(ring, start);
      var w := CoordinatesToWay(ring, start, wayId, simple);
      && (forall k :: 0 <= k < |nodes| ==> w.refs[k] == nodes[k].id)
      && (|ring| >= 2 ==> forall j :: 0 <= j < |w.refs| ==> w.refs[j] in NodeIds(nodes))
  {
    var nodes := CoordinatesToNodes(ring, start);
    var w := CoordinatesToWay(ring, start, wayId, simple);
    if |ring| >= 2 {
      forall j | 0 <= j < |w.refs|
        ensures w.refs[j] in NodeIds(nodes)
      {
        if j < |nodes| {
          assert NodeIds(nodes)[j] == w.refs[j];
        } else {
          assert NodeIds(nodes)[0] == w.refs[j];
        }
      }
    }
  }

  /** `createRelation`: the outer way, then for hole `k` the way `outerWayId - (k + 1)`. */
  function CreateRelation(polygon: seq<Ring>, relationId: int, outerWayId: int): (r: Relation)
    ensures r.id == relationId
    ensures r.tags == [MultipolygonTag, WoodTag, SourceTag]
    ensures |r.members| == (if polygon == [] then 1 else |polygon|)
    ensures r.members[0] == Member("way", outerWayId, "outer")
    ensures forall m :: 1 <= m < |r.members| ==> r.members[m] == Member("way", outerWayId - m, "inner")
  {
    var holes := if polygon == [] then 0 else |polygon| - 1;
    Relation(relationId, [MultipolygonTag, WoodTag, SourceTag],
             [Member("way", outerWayId, "outer")]
             + seq(holes, k requires 0 <= k < holes => Member("way", outerWayId - (k + 1), "inner")))
  }

  /** The converter's running state: the three output lists and the two counters. */
  datatype Acc = Acc(nodes: seq<Node>, ways: seq<Way>, relations: seq<Relation>, nodeIdStart: int, wayId: int)

  const Start := Acc([], [], [], 1, -1)

  /** Emitting one ring: its nodes and its way, and the node counter moves past the whole ring. */
  function PushRing(a: Acc, ring: Ring, wayId: int, simple: bool): Acc {
    Acc(a.nodes + CoordinatesToNodes(ring, a.nodeIdStart),
        a.ways + [CoordinatesToWay(ring, a.nodeIdStart, wayId, simple)],
        a.relations, a.nodeIdStart + |ring|, a.wayId)
  }

  /** The first `m` holes of a polygon whose outer way is `outerWayId`; hole `j` gets way id `outerWayId - 1 - j`. */
  function Holes(a: Acc, holes: seq<Ring>, outerWayId: int, m: nat): Acc
    requires m <= |holes|
  {
    if m == 0 then a else PushRing(Holes(a, holes, outerWayId, m - 1), holes[m - 1], outerWayId - 1 - (m - 1), false)
  }

  predicate IsEmptyPolygon(f: Feature) {
    f.geometry.Polygon? && f.geometry.rings == []
  }

  /** One `forEach` step for feature `i` (a Polygon without rings never reaches it). */
  function FeatureStep(a: Acc, f: Feature, i: nat): Acc {
    if !f.geometry.Polygon? || f.geometry.rings == [] then a
    else
      var rings := f.geometry.rings;
      var simple := |rings| == 1;
      var outer := PushRing(a, rings[0], a.wayId, simple);
      var withHoles :=
        if simple then outer
        else
          var h := Holes(outer, rings[1..], a.wayId, |rings| - 1);
          h.(relations := h.relations + [CreateRelation(rings, -1 - i, a.wayId)]);
      withHoles.(wayId := a.wayId - |rings|)
  }

  /** The state after the first `n` features. */
  function Convert(features: seq<Feature>, n: nat): Acc
    requires n <= |features|
  {
    if n == 0 then Start else FeatureStep(Convert(features, n - 1), features[n - 1], n - 1)
  }

  /** Some Polygon among the features has no ring at all. */
  predicate HasEmptyPolygon(features: seq<Feature>)
    decreases |features|
  {
    features != [] && (HasEmptyPolygon(features[..|features| - 1]) || IsEmptyPolygon(features[|features| - 1]))
  }

  /** The object tree handed to `stringify`, or the TypeError a ring-less Polygon raises. */
  function Converted(features: seq<Feature>): Result<Osm, string> {
    if HasEmptyPolygon(features) then Err("TypeError")
    else
      var a := Convert(features, |features|);
      Ok(Osm("0.6", "geojson-to-osm", a.nodes, a.ways, a.relations))
  }

  /** `geojsonToOsmXml` up to serialisation: the `forEach` walk with its two counters. */
  method GeojsonToOsmXml(features: seq<Feature>) returns (r: Result<Osm, string>)
    ensures r == Converted(features)
  {
    var nodes: seq<Node> := [];
    var ways: seq<Way> := [];
    var relations: seq<Relation> := [];
    var nodeIdStart := 1;
    var wayId := -1;
    var i := 0;
    while i < |features|
      invariant 0 <= i <= |features|
      invariant !HasEmptyPolygon(features[..i])
      invariant Acc(nodes, ways, relations, nodeIdStart, wayId) == Convert(features, i)
    {
      assert features[..i + 1][..i] == features[..i];
      var feature := features[i];
      if feature.geometry.Polygon? {
        if feature.geometry.rings == [] {
          // `coordinates[0]` is undefined, so `coordinatesToNodes` throws.
          assert HasEmptyPolygon(features[..i + 1]);
          EmptyPolygonPrefix(features, i + 1);
          r := Err("TypeError");
          return;
        }
        nodes, ways, relations, nodeIdStart, wayId :=
          PushPolygon(nodes, ways, relations, nodeIdStart, wayId, feature, i);
      } else {
        assert !IsEmptyPolygon(feature);
      }
      assert !HasEmptyPolygon(features[..i + 1]);
      i := i + 1;
    }
    assert features[..|features|] == features;
    r := Ok(Osm("0.6", "geojson-to-osm", nodes, ways, relations));
  }

  /** The `forEach` callback for a Polygon feature `i` with at least one ring. */
  method PushPolygon(nodes: seq<Node>, ways: seq<Way>, relations: seq<Relation>, nodeIdStart: int, wayId: int,
                     feature: Feature, i: nat)
    returns (nodes': seq<Node>, ways': seq<Way>, relations': seq<Relation>, nodeIdStart': int, wayId': int)
    requires feature.geometry.Polygon? && feature.geometry.rings != []
    ensures Acc(nodes', ways', relations', nodeIdStart', wayId')
         == FeatureStep(Acc(nodes, ways, relations, nodeIdStart, wayId), feature, i)
  {
    var rings := feature.geometry.rings;
    var outerNodes := CoordinatesToNodes(rings[0], nodeIdStart);
    var simple := |rings| == 1;
    var outerWay := CoordinatesToWay(rings[0], nodeIdStart, wayId, simple);
    nodeIdStart' := nodeIdStart + |rings[0]|;
    nodes' := nodes + outerNodes;
    ways' := ways + [outerWay];
    relations' := relations;
    if !simple {
      ghost var outer := Acc(nodes', ways', relations', nodeIdStart', wayId);
      var holes := rings[1..];
      var j := 0;
      while j < |holes|
        invariant 0 <= j <= |holes|
        invariant Acc(nodes', ways', relations', nodeIdStart', wayId) == Holes(outer, holes, wayId, j)
      {
        var holeNodes := CoordinatesToNodes(holes[j], nodeIdStart');
        var holeWay := CoordinatesToWay(holes[j], nodeIdStart', wayId - 1 - j, false);
        nodeIdStart' := nodeIdStart' + |holes[j]|;
        nodes' := nodes' + holeNodes;
        ways' := ways' + [holeWay];
        j := j + 1;
      }
      relations' := relations' + [CreateRelation(rings, -1 - i, wayId)];
    }
    wayId' := wayId - |rings|;
  }

  lemma {:induction false} EmptyPolygonPrefix(features: seq<Feature>, n: nat)
    requires n <= |features| && HasEmptyPolygon(features[..n])
    ensures HasEmptyPolygon(features)
    decreases |features| - n
  {
    if n < |features| {
      assert features[..n + 1][..n] == features[..n];
      EmptyPolygonPrefix(features, n + 1);
    } else {
      assert features[..n] == features;
    }
  }

  // ---- well-formedness of the output -------------------------------------------------

  /** Node ids strictly decrease along the list, so no id repeats. */
  predicate NodeIdsDescending(nodes: seq<Node>) {
    forall a, b :: 0 <= a < b < |nodes| ==> nodes[a].id > nodes[b].id
  }

  /** Every node id is negative and above `-start`: the node counter has moved past it. */
  predicate NodeIdsAbove(nodes: seq<Node>, start: int) {
    forall k :: 0 <= k < |nodes| ==> -start < nodes[k].id <= -1
  }

  /** The `k`-th way has id `-1 - k`: way ids are negative, distinct and gap-free. */
  predicate WaysNumbered(ways: seq<Way>) {
    forall k :: 0 <= k < |ways| ==> ways[k].id == -1 - k
  }

  /** Every way ends on the node it starts with. */
  predicate WaysClosed(ways: seq<Way>) {
    forall k :: 0 <= k < |ways| ==> |ways[k].refs| >= 1 && ways[k].refs[0] == ways[k].refs[|ways[k].refs| - 1]
  }

  /** Relation ids strictly decrease and lie in `[-n, -1]` after `n` features. */
  predicate RelationIdsValid(relations: seq<Relation>, n: nat) {
    && (forall a, b :: 0 <= a < b < |relations| ==> relations[a].id > relations[b].id)
    && (forall k :: 0 <= k < |relations| ==> -(n as int) <= relations[k].id <= -1)
  }

  /** Every relation member refers to an emitted way (ids in `(wayId, -1]` are exactly the emitted ones). */
  predicate MembersAreWays(relations: seq<Relation>, wayId: int) {
    forall k, m :: 0 <= k < |relations| && 0 <= m < |relations[k].members| ==>
      wayId < relations[k].members[m].ref <= -1
  }

  /** The ids of `nodes`, in order. */
  function NodeIds(nodes: seq<Node>): (ids: seq<int>)
    ensures |ids| == |nodes| && forall k :: 0 <= k < |nodes| ==> ids[k] == nodes[k].id
  {
    seq(|nodes|, k requires 0 <= k < |nodes| => nodes[k].id)
  }

  /** Every ref of every way is the id of an emitted node. */
  predicate RefsAreNodes(nodes: seq<Node>, ways: seq<Way>) {
    forall w, j :: 0 <= w < |ways| && 0 <= j < |ways[w].refs| ==> ways[w].refs[j] in NodeIds(nodes)
  }

  /** The invariant the two counters keep between features. */
  predicate ValidAcc(a: Acc, n: nat) {
    && a.nodeIdStart >= 1
    && NodeIdsDescending(a.nodes) && NodeIdsAbove(a.nodes, a.nodeIdStart)
    && |a.ways| == -1 - a.wayId && WaysNumbered(a.ways) && WaysClosed(a.ways)
    && RelationIdsValid(a.relations, n) && MembersAreWays(a.relations, a.wayId)
  }

  /** The properties of a converted document, stated on the output alone. */
  predicate ValidOsm(osm: Osm, n: nat) {
    && osm.version == "0.6"
    && NodeIdsDescending(osm.nodes) && (forall k :: 0 <= k < |osm.nodes| ==> osm.nodes[k].id <= -1)
    && WaysNumbered(osm.ways) && WaysClosed(osm.ways)
    && RelationIdsValid(osm.relations, n) && MembersAreWays(osm.relations, -1 - |osm.ways|)
  }

  /** Every ring has at least two positions (RFC 7946 asks for at least four). */
  predicate ProperRings(features: seq<Feature>, n: nat)
    requires n <= |features|
  {
    forall i, r :: 0 <= i < n && features[i].geometry.Polygon? && 0 <= r < |features[i].geometry.rings| ==>
      |features[i].geometry.rings[r]| >= 2
  }

  lemma AppendNodesValid(nodes: seq<Node>, start: int, ring: Ring)
    requires start >= 1 && NodeIdsDescending(nodes) && NodeIdsAbove(nodes, start)
    ensures var b := nodes + CoordinatesToNodes(ring, start);
      NodeIdsDescending(b) && NodeIdsAbove(b, start + |ring|)
  {
    var added := CoordinatesToNodes(ring, start);
    var b := nodes + added;
    assert forall k :: 0 <= k < |added| ==> added[k].id == -(start + k);
    assert forall k :: 0 <= k < |b| ==> b[k] == if k < |nodes| then nodes[k] else added[k - |nodes|];
  }

  lemma AppendWayValid(ways: seq<Way>, w: Way)
    requires WaysNumbered(ways) && WaysClosed(ways)
    requires w.id == -1 - |ways| && |w.refs| >= 1 && w.refs[0] == w.refs[|w.refs| - 1]
    ensures WaysNumbered(ways + [w]) && WaysClosed(ways + [w])
  {
    assert forall k :: 0 <= k < |ways| ==> (ways + [w])[k] == ways[k];
  }

  lemma AppendRingRefs(nodes: seq<Node>, ways: seq<Way>, ring: Ring, start: int, wayId: int, simple: bool)
    requires RefsAreNodes(nodes, ways) && |ring| >= 2
    ensures RefsAreNodes(nodes + CoordinatesToNodes(ring, start), ways + [CoordinatesToWay(ring, start, wayId, simple)])
  {
    var added := CoordinatesToNodes(ring, start);
    var w := CoordinatesToWay(ring, start, wayId, simple);
    WayRefsAreRingNodes(ring, start, wayId, simple);
    RefsAppend(nodes, ways, added, w);
  }

  lemma RefsAppend(nodes: seq<Node>, ways: seq<Way>, added: seq<Node>, w: Way)
    requires RefsAreNodes(nodes, ways)
    requires forall j :: 0 <= j < |w.refs| ==> w.refs[j] in NodeIds(added)
    ensures RefsAreNodes(nodes + added, ways + [w])
  {
    assert NodeIds(nodes + added) == NodeIds(nodes) + NodeIds(added);
    assert forall v :: 0 <= v < |ways| ==> (ways + [w])[v] == ways[v];
  }

  lemma PushRingValid(a: Acc, ring: Ring, simple: bool)
    requires a.nodeIdStart >= 1 && NodeIdsDescending(a.nodes) && NodeIdsAbove(a.nodes, a.nodeIdStart)
    requires WaysNumbered(a.ways) && WaysClosed(a.ways)
    ensures var b := PushRing(a, ring, -1 - |a.ways|, simple);
      && b.nodeIdStart >= a.nodeIdStart && NodeIdsDescending(b.nodes) && NodeIdsAbove(b.nodes, b.nodeIdStart)
      && WaysNumbered(b.ways) && WaysClosed(b.ways) && |b.ways| == |a.ways| + 1
      && b.relations == a.relations && b.wayId == a.wayId
      && (RefsAreNodes(a.nodes, a.ways) && |ring| >= 2 ==> RefsAreNodes(b.nodes, b.ways))
  {
    AppendNodesValid(a.nodes, a.nodeIdStart, ring);
    AppendWayValid(a.ways, CoordinatesToWay(ring, a.nodeIdStart, -1 - |a.ways|, simple));
    if RefsAreNodes(a.nodes, a.ways) && |ring| >= 2 {
      AppendRingRefs(a.nodes, a.ways, ring, a.nodeIdStart, -1 - |a.ways|, simple);
    }
  }

  lemma {:induction false} HolesValid(a: Acc, holes: seq<Ring>, outerWayId: int, m: nat)
    requires m <= |holes|
    requires a.nodeIdStart >= 1 && NodeIdsDescending(a.nodes) && NodeIdsAbove(a.nodes, a.nodeIdStart)
    requires WaysNumbered(a.ways) && WaysClosed(a.ways) && |a.ways| == -outerWayId
    ensures var b := Holes(a, holes, outerWayId, m);
      && b.nodeIdStart >= a.nodeIdStart && NodeIdsDescending(b.nodes) && NodeIdsAbove(b.nodes, b.nodeIdStart)
      && WaysNumbered(b.ways) && WaysClosed(b.ways) && |b.ways| == |a.ways| + m
      && b.relations == a.relations && b.wayId == a.wayId
  {
    if m > 0 {
      HolesValid(a, holes, outerWayId, m - 1);
      var b := Holes(a, holes, outerWayId, m - 1);
      assert outerWayId - 1 - (m - 1) == -1 - |b.ways|;
      PushRingValid(b, holes[m - 1], false);
    }
  }

  lemma AppendRelationValid(relations: seq<Relation>, i: nat, rings: seq<Ring>, outerWayId: int)
    requires |rings| >= 2 && outerWayId <= -1
    requires RelationIdsValid(relations, i) && MembersAreWays(relations, outerWayId)
    ensures var b := relations + [CreateRelation(rings, -1 - i, outerWayId)];
      RelationIdsValid(b, i + 1) && MembersAreWays(b, outerWayId - |rings|)
  {
    var b := relations + [CreateRelation(rings, -1 - i, outerWayId)];
    assert forall k :: 0 <= k < |relations| ==> b[k] == relations[k];
  }

  /** Every ring of a Polygon feature has at least two positions. */
  predicate ProperFeature(f: Feature) {
    f.geometry.Polygon? ==> forall r :: 0 <= r < |f.geometry.rings| ==> |f.geometry.rings[r]| >= 2
  }

  lemma SingleRingStepValid(a: Acc, f: Feature, i: nat)
    requires ValidAcc(a, i) && f.geometry.Polygon? && |f.geometry.rings| == 1
    ensures ValidAcc(FeatureStep(a, f, i), i + 1)
    ensures RefsAreNodes(a.nodes, a.ways) && ProperFeature(f) ==> RefsAreNodes(FeatureStep(a, f, i).nodes, FeatureStep(a, f, i).ways)
  {
    var ring := f.geometry.rings[0];
    PushRingValid(a, ring, true);
    assert FeatureStep(a, f, i) == PushRing(a, ring, a.wayId, true).(wayId := a.wayId - 1);
  }

  lemma MultiRingStepValid(a: Acc, f: Feature, i: nat)
    requires ValidAcc(a, i) && f.geometry.Polygon? && |f.geometry.rings| >= 2
    ensures ValidAcc(FeatureStep(a, f, i), i + 1)
  {
    var rings := f.geometry.rings;
    var W := a.wayId;
    PushRingValid(a, rings[0], false);
    var outer := PushRing(a, rings[0], W, false);
    HolesValid(outer, rings[1..], W, |rings| - 1);
    var h := Holes(outer, rings[1..], W, |rings| - 1);
    AppendRelationValid(a.relations, i, rings, W);
    assert FeatureStep(a, f, i) == Acc(h.nodes, h.ways, a.relations + [CreateRelation(rings, -1 - i, W)], h.nodeIdStart, W - |rings|);
  }

  lemma {:induction false} HolesRefs(a: Acc, holes: seq<Ring>, outerWayId: int, m: nat)
    requires m <= |holes| && RefsAreNodes(a.nodes, a.ways)
    requires forall h :: 0 <= h < m ==> |holes[h]| >= 2
    ensures RefsAreNodes(Holes(a, holes, outerWayId, m).nodes, Holes(a, holes, outerWayId, m).ways)
  {
    if m > 0 {
      HolesRefs(a, holes, outerWayId, m - 1);
      var b := Holes(a, holes, outerWayId, m - 1);
      AppendRingRefs(b.nodes, b.ways, holes[m - 1], b.nodeIdStart, outerWayId - 1 - (m - 1), false);
    }
  }

  lemma MultiRingStepRefs(a: Acc, f: Feature, i: nat)
    requires f.geometry.Polygon? && |f.geometry.rings| >= 2
    requires RefsAreNodes(a.nodes, a.ways) && ProperFeature(f)
    ensures RefsAreNodes(FeatureStep(a, f, i).nodes, FeatureStep(a, f, i).ways)
  {
    var rings := f.geometry.rings;
    var holes := rings[1..];
    var W := a.wayId;
    AppendRingRefs(a.nodes, a.ways, rings[0], a.nodeIdStart, W, false);
    var outer := PushRing(a, rings[0], W, false);
    assert forall k :: 0 <= k < |rings| - 1 ==> |holes[k]| >= 2 by {
      assert forall k :: 0 <= k < |rings| - 1 ==> holes[k] == rings[k + 1];
    }
    HolesRefs(outer, holes, W, |rings| - 1);
    var h := Holes(outer, holes, W, |rings| - 1);
    assert FeatureStep(a, f, i).nodes == h.nodes && FeatureStep(a, f, i).ways == h.ways;
  }

  lemma FeatureStepValid(a: Acc, f: Feature, i: nat)
    requires ValidAcc(a, i)
    ensures ValidAcc(FeatureStep(a, f, i), i + 1)
    ensures RefsAreNodes(a.nodes, a.ways) && ProperFeature(f) ==> RefsAreNodes(FeatureStep(a, f, i).nodes, FeatureStep(a, f, i).ways)
  {
    if !f.geometry.Polygon? || f.geometry.rings == [] {
      assert FeatureStep(a, f, i) == a;
    } else if |f.geometry.rings| == 1 {
      SingleRingStepValid(a, f, i);
    } else {
      MultiRingStepValid(a, f, i);
      if RefsAreNodes(a.nodes, a.ways) && ProperFeature(f) {
        MultiRingStepRefs(a, f, i);
      }
    }
  }

  lemma {:induction false} ConvertValid(features: seq<Feature>, n: nat)
    requires n <= |features|
    ensures ValidAcc(Convert(features, n), n)
    ensures ProperRings(features, n) ==> RefsAreNodes(Convert(features, n).nodes, Convert(features, n).ways)
  {
    if n > 0 {
      ConvertValid(features, n - 1);
      var a := Convert(features, n - 1);
      FeatureStepValid(a, features[n - 1], n - 1);
      assert Convert(features, n) == FeatureStep(a, features[n - 1], n - 1);
    }
  }

  /**
   * The converter fails exactly when some Polygon has no ring; otherwise its
   * document is valid in the sense of `ValidOsm`, has one way per ring, one
   * relation per Polygon with holes and `|ring| - 1` nodes per ring, and,
   * when every ring has at least two positions, every way ref names a node.
   */
  lemma ConvertedIsValid(features: seq<Feature>)
    ensures Converted(features).Err? <==> HasEmptyPolygon(features)
    ensures Converted(features).Ok? ==> var osm := Converted(features).value;
      && ValidOsm(osm, |features|)
      && |osm.ways| == RingTotal(features, |features|)
      && |osm.relations| == MultipolygonTotal(features, |features|)
      && |osm.nodes| == NodeTotal(features, |features|)
      && (ProperRings(features, |features|) ==> RefsAreNodes(osm.nodes, osm.ways))
  {
    ConvertValid(features, |features|);
    ConvertCounts(features, |features|);
  }

  /** A Polygon feature's relation lists that feature's ways in ring order: outer first, then the holes. */
  lemma RelationMembersAreFeatureWays(a: Acc, f: Feature, i: nat)
    requires ValidAcc(a, i)
    requires f.geometry.Polygon? && |f.geometry.rings| >= 2
    ensures var b := FeatureStep(a, f, i);
      var rel := b.relations[|b.relations| - 1];
      && |b.relations| == |a.relations| + 1
      && |b.ways| == |a.ways| + |f.geometry.rings|
      && rel.id == -1 - i
      && |rel.members| == |f.geometry.rings|
      && (forall m :: 0 <= m < |rel.members| ==> rel.members[m].ref == b.ways[|a.ways| + m].id)
      && rel.members[0].role == "outer"
      && (forall m :: 1 <= m < |rel.members| ==> rel.members[m].role == "inner")
  {
    var rings := f.geometry.rings;
    PushRingValid(a, rings[0], false);
    var outer := PushRing(a, rings[0], a.wayId, false);
    HolesValid(outer, rings[1..], a.wayId, |rings| - 1);
  }

  // ---- counts ------------------------------------------------------------------------

  function RingCount(f: Feature): nat {
    if f.geometry.Polygon? then |f.geometry.rings| else 0
  }

  function RingNodes(rings: seq<Ring>): nat {
    if rings == [] then 0 else RingNodes(rings[..|rings| - 1]) + NodeCount(rings[|rings| - 1])
  }

  /** Rings of the Polygon features among the first `n`. */
  function RingTotal(features: seq<Feature>, n: nat): nat
    requires n <= |features|
  {
    if n == 0 then 0 else RingTotal(features, n - 1) + RingCount(features[n - 1])
  }

  /** Polygon features with more than one ring among the first `n`. */
  function MultipolygonTotal(features: seq<Feature>, n: nat): nat
    requires n <= |features|
  {
    if n == 0 then 0 else MultipolygonTotal(features, n - 1) + (if RingCount(features[n - 1]) > 1 then 1 else 0)
  }

  /** Sum of `|ring| - 1` over the rings of the Polygon features among the first `n`. */
  function NodeTotal(features: seq<Feature>, n: nat): nat
    requires n <= |features|
  {
    if n == 0 then 0
    else NodeTotal(features, n - 1) + (if features[n - 1].geometry.Polygon? then RingNodes(features[n - 1].geometry.rings) else 0)
  }

  lemma {:induction false} HolesCount(a: Acc, holes: seq<Ring>, outerWayId: int, m: nat)
    requires m <= |holes|
    ensures |Holes(a, holes, outerWayId, m).ways| == |a.ways| + m
    ensures |Holes(a, holes, outerWayId, m).nodes| == |a.nodes| + RingNodes(holes[..m])
    ensures Holes(a, holes, outerWayId, m).relations == a.relations
  {
    if m > 0 {
      HolesCount(a, holes, outerWayId, m - 1);
      assert holes[..m][..m - 1] == holes[..m - 1];
    }
  }

  lemma RingNodesSplit(rings: seq<Ring>)
    requires rings != []
    ensures RingNodes(rings) == NodeCount(rings[0]) + RingNodes(rings[1..])
    decreases |rings|
  {
    if |rings| > 1 {
      RingNodesSplit(rings[..|rings| - 1]);
      assert rings[..|rings| - 1][1..] == rings[1..][..|rings[1..]| - 1];
    } else {
      assert rings[..0] == [] && rings[1..] == [];
    }
  }

  /** One feature adds its rings as ways, one relation if it has holes, and `|ring| - 1` nodes per ring. */
  lemma FeatureStepCounts(a: Acc, f: Feature, i: nat)
    ensures var b := FeatureStep(a, f, i);
      && |b.ways| == |a.ways| + RingCount(f)
      && |b.relations| == |a.relations| + (if RingCount(f) > 1 then 1 else 0)
      && |b.nodes| == |a.nodes| + (if f.geometry.Polygon? then RingNodes(f.geometry.rings) else 0)
  {
    if f.geometry.Polygon? && f.geometry.rings != [] {
      var rings := f.geometry.rings;
      var outer := PushRing(a, rings[0], a.wayId, |rings| == 1);
      HolesCount(outer, rings[1..], a.wayId, |rings| - 1);
      assert rings[1..][..|rings| - 1] == rings[1..];
      RingNodesSplit(rings);
    } else if f.geometry.Polygon? {
      assert RingNodes(f.geometry.rings) == 0;
    }
  }

  /** Ways = rings of Polygon features; relations = Polygon features with holes; nodes = sum of `|ring| - 1`. */
  lemma {:induction false} ConvertCounts(features: seq<Feature>, n: nat)
    requires n <= |features|
    ensures |Convert(features, n).ways| == RingTotal(features, n)
    ensures |Convert(features, n).relations| == MultipolygonTotal(features, n)
    ensures |Convert(features, n).nodes| == NodeTotal(features, n)
  {
    if n > 0 {
      ConvertCounts(features, n - 1);
      FeatureStepCounts(Convert(features, n - 1), features[n - 1], n - 1);
    }
  }
}
