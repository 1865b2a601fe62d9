/**
 * The overlay builder of ViewController.swift: the free functions
 * `makePoint`, `makePolygon`, `makeMKOverlay` and `makeMKOverlays`, which
 * turn a decoded feature tree into map overlays. MapKit's types are replaced
 * by plain datatypes with the same fields.
 *
 * Swift traps when an array is indexed out of range; the positions read by
 * `makePoint` (`arr[0]`, `arr[1]`) and the outer ring read by `makePolygon`
 * (`points[0]`) are therefore preconditions here, gathered for whole trees
 * in `FeatureDrawable`.
 */
module ViewController {
  import opened Wrappers
  import opened JsonModel
  import G = GeojsonDecoder

  /** `CLLocationCoordinate2D`. */
  datatype Coordinate = Coordinate(latitude: Double, longitude: Double)

  /** `MKPolyline`. */
  datatype Polyline = Polyline(coordinates: seq<Coordinate>)

  /** `MKPolygon`: an outer boundary and, optionally, interior polygons (holes). */
  datatype Polygon = Polygon(coordinates: seq<Coordinate>, interiorPolygons: Option<seq<Polygon>>)

  /** `MKOverlay`, limited to the two shapes the builder makes. */
  datatype Overlay = PolylineOverlay(polyline: Polyline) | PolygonOverlay(polygon: Polygon)

  /** A position `makePoint` can read without trapping. */
  predicate Readable(position: seq<Double>) {
    |position| >= 2
  }

  predicate AllReadable(positions: seq<seq<Double>>) {
    forall i :: 0 <= i < |positions| ==> Readable(positions[i])
  }

  /** What `makePolygon` reads without trapping: an outer ring, and readable positions in every ring. */
  predicate PolygonReadable(rings: seq<seq<seq<Double>>>) {
    |rings| >= 1 && forall r :: 0 <= r < |rings| ==> AllReadable(rings[r])
  }

  /**
   * `makePoint`: GeoJSON positions are (longitude, latitude), map
   * coordinates (latitude, longitude), so the first two numbers swap places.
   */
  function MakePoint(arr: seq<Double>): (c: Coordinate)
    requires Readable(arr)
    ensures c.latitude == arr[1] && c.longitude == arr[0]
  {
    Coordinate(arr[1], arr[0])
  }

  /** The GeoJSON position of a coordinate: longitude first. */
  function Position(c: Coordinate): seq<Double> {
    [c.longitude, c.latitude]
  }

  /** `makePoint` keeps the first two numbers of a position, swapped, and drops the rest (an altitude). */
  lemma MakePointInverse(arr: seq<Double>, c: Coordinate)
    requires Readable(arr)
    ensures Position(MakePoint(arr)) == arr[..2]
    ensures MakePoint(Position(c)) == c
  {
  }

  /** `makePoint` applied to every position, in order. */
  function MakeCoordinates(positions: seq<seq<Double>>): (cs: seq<Coordinate>)
    requires AllReadable(positions)
    ensures |cs| == |positions|
    ensures forall i :: 0 <= i < |positions| ==> cs[i] == MakePoint(positions[i])
  {
    if positions == [] then [] else [MakePoint(positions[0])] + MakeCoordinates(positions[1..])
  }

  function Positions(cs: seq<Coordinate>): (r: seq<seq<Double>>)
    ensures |r| == |cs|
  {
    if cs == [] then [] else [Position(cs[0])] + Positions(cs[1..])
  }

  /** Mapping positions to coordinates keeps their order and loses nothing but altitudes. */
  lemma {:induction false} MakeCoordinatesInverse(positions: seq<seq<Double>>)
    requires AllReadable(positions)
    ensures |Positions(MakeCoordinates(positions))| == |positions|
    ensures forall i :: 0 <= i < |positions| ==> Positions(MakeCoordinates(positions))[i] == positions[i][..2]
  {
    if positions != [] {
      MakeCoordinatesInverse(positions[1..]);
      forall i | 0 <= i < |positions| ensures Positions(MakeCoordinates(positions))[i] == positions[i][..2] {
        if i > 0 {
          assert MakeCoordinates(positions)[1..] == MakeCoordinates(positions[1..]);
          assert positions[i] == positions[1..][i - 1];
        }
      }
    }
  }

  /**
   * `makePolygon`: ring 0 is the outer boundary; interior polygons are nil
   * when there is one ring, and otherwise one plain polygon per further ring.
   */
  function MakePolygon(rings: seq<seq<seq<Double>>>): (p: Polygon)
    requires PolygonReadable(rings)
    ensures p.coordinates == MakeCoordinates(rings[0])
    ensures p.interiorPolygons.None? <==> |rings| == 1
    ensures p.interiorPolygons.Some? ==>
              && |p.interiorPolygons.value| == |rings| - 1
              && forall i :: 0 <= i < |rings| - 1 ==> p.interiorPolygons.value[i] == Polygon(MakeCoordinates(rings[i + 1]), None)
  {
    var outerCoords := MakeCoordinates(rings[0]);
    var innerPolys := if |rings| > 1 then Some(MakeHoles(rings[1..])) else None;
    Polygon(outerCoords, innerPolys)
  }

  /** The interior polygons: one per ring after the first, each without holes of its own. */
  function MakeHoles(rings: seq<seq<seq<Double>>>): (holes: seq<Polygon>)
    requires forall r :: 0 <= r < |rings| ==> AllReadable(rings[r])
    ensures |holes| == |rings|
    ensures forall r :: 0 <= r < |rings| ==> holes[r] == Polygon(MakeCoordinates(rings[r]), None)
  {
    if rings == [] then [] else [Polygon(MakeCoordinates(rings[0]), None)] + MakeHoles(rings[1..])
  }

  /** The rings of a polygon in order: its boundary first, then the boundary of each interior polygon. */
  function Rings(p: Polygon): seq<seq<Coordinate>> {
    [p.coordinates] + if p.interiorPolygons.Some? then HoleRings(p.interiorPolygons.value) else []
  }

  function HoleRings(holes: seq<Polygon>): (r: seq<seq<Coordinate>>)
    ensures |r| == |holes|
  {
    if holes == [] then [] else [holes[0].coordinates] + HoleRings(holes[1..])
  }

  /** `makePolygon` keeps every ring and their order: ring `i` of the polygon is ring `i` of the input, mapped pointwise. */
  lemma MakePolygonRings(rings: seq<seq<seq<Double>>>)
    requires PolygonReadable(rings)
    ensures |Rings(MakePolygon(rings))| == |rings|
    ensures forall i :: 0 <= i < |rings| ==> Rings(MakePolygon(rings))[i] == MakeCoordinates(rings[i])
  {
    if |rings| > 1 {
      HoleRingsOfHoles(rings[1..]);
      forall i | 1 <= i < |rings| ensures Rings(MakePolygon(rings))[i] == MakeCoordinates(rings[i]) {
        assert rings[i] == rings[1..][i - 1];
      }
    }
  }

  lemma {:induction false} HoleRingsOfHoles(rings: seq<seq<seq<Double>>>)
    requires forall r :: 0 <= r < |rings| ==> AllReadable(rings[r])
    ensures forall r :: 0 <= r < |rings| ==> HoleRings(MakeHoles(rings))[r] == MakeCoordinates(rings[r])
  {
    if rings != [] {
      HoleRingsOfHoles(rings[1..]);
      assert MakeHoles(rings)[1..] == MakeHoles(rings[1..]);
      forall r | 1 <= r < |rings| ensures HoleRings(MakeHoles(rings))[r] == MakeCoordinates(rings[r]) {
        assert rings[r] == rings[1..][r - 1];
      }
    }
  }

  /** The geometries the overlay builder draws. */
  predicate Supported(g: G.Geom) {
    g.LineString? || g.Polygon?
  }

  /** A geometry `makeMKOverlay` handles without trapping. */
  predicate Drawable(g: G.Geom) {
    match g
    case LineString(positions) => AllReadable(positions)
    case Polygon(rings) => PolygonReadable(rings)
    case _ => true
  }

  /**
   * `makeMKOverlay`: a polyline through a `LineString`'s positions, a polygon
   * for a `Polygon`, and nothing for any other geometry.
   */
  function MakeOverlay(g: G.Geom): (o: Option<Overlay>)
    requires Drawable(g)
    ensures o.Some? <==> Supported(g)
    ensures g.LineString? ==>
              && o.value.PolylineOverlay?
              && |o.value.polyline.coordinates| == |g.positions|
              && forall i :: 0 <= i < |g.positions| ==> o.value.polyline.coordinates[i] == MakePoint(g.positions[i])
    ensures g.Polygon? ==> o.value == PolygonOverlay(MakePolygon(g.rings))
  {
    match g
    case Point(_) => None
    case LineString(points) => Some(PolylineOverlay(Polyline(MakeCoordinates(points))))
    case Polygon(points) => Some(PolygonOverlay(MakePolygon(points)))
    case _ => None
  }

  /** A feature tree `makeMKOverlays` walks without trapping. */
  predicate FeatureDrawable(f: G.GeoFeature) {
    match f
    case Feature(g, _, _) => g.None? || Drawable(g.value)
    case FeatureCollection(fs, _, _) => forall i :: 0 <= i < |fs| ==> FeatureDrawable(fs[i])
  }

  /**
   * `makeMKOverlays`: a leaf feature gives the overlay of its geometry, if it
   * has one and it is drawn; a collection gives its children's overlays in order.
   */
  function MakeOverlays(f: G.GeoFeature): (r: seq<Overlay>)
    requires FeatureDrawable(f)
    ensures f.Feature? ==> |r| <= 1
    ensures f.Feature? ==> (|r| == 0 <==> f.geometry.None? || !Supported(f.geometry.value))
    ensures f.Feature? && f.geometry.Some? && Supported(f.geometry.value) ==> r == [MakeOverlay(f.geometry.value).value]
    decreases f, 1
  {
    match f
    case Feature(geom, _, _) =>
      if geom.Some? && MakeOverlay(geom.value).Some? then [MakeOverlay(geom.value).value] else []
    case FeatureCollection(features, _, _) =>
      MakeOverlaysEach(features)
  }

  /** The children's overlays, appended in order (a flat map over the children). */
  function MakeOverlaysEach(fs: seq<G.GeoFeature>): seq<Overlay>
    requires forall i :: 0 <= i < |fs| ==> FeatureDrawable(fs[i])
    decreases fs, 0
  {
    if fs == [] then [] else MakeOverlays(fs[0]) + MakeOverlaysEach(fs[1..])
  }

  /** The concatenation of a sequence of overlay lists, appending each list after the ones before it. */
  function Flatten(lists: seq<seq<Overlay>>): seq<Overlay> {
    if lists == [] then [] else Flatten(lists[..|lists| - 1]) + lists[|lists| - 1]
  }

  function TotalLength(lists: seq<seq<Overlay>>): nat {
    if lists == [] then 0 else |lists[0]| + TotalLength(lists[1..])
  }

  /** The overlays of each child, in the children's order. */
  function ChildOverlays(fs: seq<G.GeoFeature>): (r: seq<seq<Overlay>>)
    requires forall i :: 0 <= i < |fs| ==> FeatureDrawable(fs[i])
    ensures |r| == |fs|
    ensures forall i :: 0 <= i < |fs| ==> r[i] == MakeOverlays(fs[i])
  {
    seq(|fs|, i requires 0 <= i < |fs| => MakeOverlays(fs[i]))
  }

  lemma {:induction false} FlattenCons(head: seq<Overlay>, tail: seq<seq<Overlay>>)
    ensures Flatten([head] + tail) == head + Flatten(tail)
    decreases |tail|
  {
    if tail != [] {
      var all := [head] + tail;
      assert all[..|all| - 1] == [head] + tail[..|tail| - 1];
      FlattenCons(head, tail[..|tail| - 1]);
    } else {
      assert ([head] + tail)[..0] == [];
    }
  }

  lemma {:induction false} FlattenLength(lists: seq<seq<Overlay>>)
    ensures |Flatten(lists)| == TotalLength(lists)
  {
    if lists != [] {
      FlattenLength(lists[1..]);
      FlattenCons(lists[0], lists[1..]);
      assert [lists[0]] + lists[1..] == lists;
    }
  }

  /**
   * The overlays of a feature collection are its children's overlays,
   * concatenated in order, and their number is the sum of the children's.
   */
  lemma {:induction false} CollectionOverlaysConcatenate(fs: seq<G.GeoFeature>)
    requires forall i :: 0 <= i < |fs| ==> FeatureDrawable(fs[i])
    ensures MakeOverlaysEach(fs) == Flatten(ChildOverlays(fs))
    ensures |MakeOverlaysEach(fs)| == TotalLength(ChildOverlays(fs))
  {
    if fs != [] {
      CollectionOverlaysConcatenate(fs[1..]);
      assert ChildOverlays(fs) == [MakeOverlays(fs[0])] + ChildOverlays(fs[1..]);
      FlattenCons(MakeOverlays(fs[0]), ChildOverlays(fs[1..]));
    }
    FlattenLength(ChildOverlays(fs));
  }

  /** The number of leaf features whose geometry is drawn, counted independently of the builder. */
  function DrawnLeaves(f: G.GeoFeature): nat
    decreases f, 1
  {
    match f
    case Feature(g, _, _) => if g.Some? && Supported(g.value) then 1 else 0
    case FeatureCollection(fs, _, _) => DrawnLeavesEach(fs)
  }

  function DrawnLeavesEach(fs: seq<G.GeoFeature>): nat
    decreases fs, 0
  {
    if fs == [] then 0 else DrawnLeaves(fs[0]) + DrawnLeavesEach(fs[1..])
  }

  /** A tree gives exactly one overlay per leaf with a `LineString` or `Polygon` geometry. */
  lemma {:induction false} OverlayCount(f: G.GeoFeature)
    requires FeatureDrawable(f)
    ensures |MakeOverlays(f)| == DrawnLeaves(f)
    decreases f, 1
  {
    if f.FeatureCollection? {
      OverlayCountEach(f.features);
    }
  }

  lemma {:induction false} OverlayCountEach(fs: seq<G.GeoFeature>)
    requires forall i :: 0 <= i < |fs| ==> FeatureDrawable(fs[i])
    ensures |MakeOverlaysEach(fs)| == DrawnLeavesEach(fs)
    decreases fs, 0
  {
    if fs != [] {
      OverlayCount(fs[0]);
      OverlayCountEach(fs[1..]);
    }
  }

  /** Every leaf of the tree has no geometry or a `Point`. */
  predicate OnlyPoints(f: G.GeoFeature) {
    match f
    case Feature(g, _, _) => g.None? || g.value.Point?
    case FeatureCollection(fs, _, _) => forall i :: 0 <= i < |fs| ==> OnlyPoints(fs[i])
  }

  /** A tree of point features is walked without trapping and gives no overlays. */
  lemma {:induction false} PointsGiveNoOverlays(f: G.GeoFeature)
    requires OnlyPoints(f)
    ensures FeatureDrawable(f) && MakeOverlays(f) == []
    decreases f, 1
  {
    if f.FeatureCollection? {
      PointsGiveNoOverlaysEach(f.features);
    }
  }

  lemma {:induction false} PointsGiveNoOverlaysEach(fs: seq<G.GeoFeature>)
    requires forall i :: 0 <= i < |fs| ==> OnlyPoints(fs[i])
    ensures (forall i :: 0 <= i < |fs| ==> FeatureDrawable(fs[i])) && MakeOverlaysEach(fs) == []
    decreases fs, 0
  {
    if fs != [] {
      forall i | 0 <= i < |fs| ensures FeatureDrawable(fs[i]) {
        PointsGiveNoOverlays(fs[i]);
      }
      PointsGiveNoOverlays(fs[0]);
      PointsGiveNoOverlaysEach(fs[1..]);
    }
  }

  /** Two point features in a collection decode, and the collection gives no overlays and does not trap. */
  lemma PointCollectionExample()
    ensures var point := JObject(map["type" := JString("Point"), "coordinates" := JArray([JNumber(1.0), JNumber(2.0)])]);
            var feature := JObject(map["type" := JString("Feature"), "geometry" := point, "properties" := JObject(map[])]);
            var r := G.DecodeFeature(JObject(map["type" := JString("FeatureCollection"), "features" := JArray([feature, feature])]));
            && r.Ok? && |r.value.features| == 2
            && FeatureDrawable(r.value) && MakeOverlays(r.value) == []
  {
    var coords := JArray([JNumber(1.0), JNumber(2.0)]);
    var pointMembers := map["type" := JString("Point"), "coordinates" := coords];
    var featureMembers := map["type" := JString("Feature"), "geometry" := JObject(pointMembers), "properties" := JObject(map[])];
    var collectionMembers := map["type" := JString("FeatureCollection"), "features" := JArray([JObject(featureMembers), JObject(featureMembers)])];
    assert coords == G.EncodeCoords1([1.0, 2.0]);
    G.CoordinatesDecode(pointMembers, G.Point([1.0, 2.0]));
    G.FeatureGeometryDecode(featureMembers);
    G.FeatureCollectionDecode(collectionMembers);
    var r := G.DecodeFeature(JObject(collectionMembers));
    assert OnlyPoints(r.value.features[0]) && OnlyPoints(r.value.features[1]);
    PointsGiveNoOverlays(r.value);
  }

  /**
   * The decoder does not establish what the builder needs: a line with a
   * one-number position, and a polygon with no rings (an empty `coordinates`
   * array), both decode, and `makeMKOverlays` would trap on either.
   */
  lemma DecodedButNotDrawable()
    ensures var line := JObject(map["type" := JString("LineString"), "coordinates" := JArray([JArray([JNumber(1.0)])])]);
            var r := G.DecodeFeature(JObject(map["type" := JString("Feature"), "geometry" := line]));
            r.Ok? && !FeatureDrawable(r.value)
    ensures var polygon := JObject(map["type" := JString("Polygon"), "coordinates" := JArray([])]);
            var r := G.DecodeFeature(JObject(map["type" := JString("Feature"), "geometry" := polygon]));
            r.Ok? && !FeatureDrawable(r.value)
  {
    var lineMembers := map["type" := JString("LineString"), "coordinates" := JArray([JArray([JNumber(1.0)])])];
    assert G.EncodeCoords1([1.0]) == JArray([JNumber(1.0)]);
    assert EncodeEach([[1.0]], G.EncodeCoords1) == [G.EncodeCoords1([1.0])] + EncodeEach([], G.EncodeCoords1);
    G.CoordinatesDecode(lineMembers, G.LineString([[1.0]]));
    G.FeatureGeometryDecode(map["type" := JString("Feature"), "geometry" := JObject(lineMembers)]);
    var polygonMembers := map["type" := JString("Polygon"), "coordinates" := JArray([])];
    assert JArray([]) == G.EncodeCoords3([]);
    G.CoordinatesDecode(polygonMembers, G.Polygon([]));
    G.FeatureGeometryDecode(map["type" := JString("Feature"), "geometry" := JObject(polygonMembers)]);
  }
}
