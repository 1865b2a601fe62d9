/**
 * The GeoJSON decoder of GeojsonDecoder.swift: `Geom.init(from:)`,
 * `DecodableValue.init(from:)` and `GeoFeature.init(from:)`, which turn a
 * parsed JSON value into the typed geometry and feature trees of RFC 7946
 * (sections 3.1 to 3.3).
 *
 * A call of a throwing `init(from:)` ends in one of three ways, kept apart by
 * `Outcome`: a value, a thrown error, or a runtime trap. Traps come from the
 * source's `try!` on required fields; because every nested decode
 * (`geometries`, `features`, a feature's `geometry`) also runs under `try!`,
 * an error that would be thrown by a top-level call traps when it occurs
 * inside a collection or a feature.
 */
module GeojsonDecoder {
  import opened Wrappers
  import opened JsonModel

  /** The source's own error type. `DecodeError` is declared but never thrown. */
  datatype GeoJSONError =
    | InvalidGeometryType(raw: string)
    | InvalidFeatureType(raw: string)
    | DecodeError

  /**
   * An error thrown out of `init(from:)`: a `GeoJSONError`, or the
   * `DecodingError` that `container(keyedBy:)` throws when the value is not
   * a JSON object (`typeMismatch`) or is JSON null (`valueNotFound`).
   */
  datatype Thrown = GeoJSON(error: GeoJSONError) | TypeMismatch | ValueNotFound

  /** How a call of a throwing `init(from:)` ends. `Trap` is the crash of a failed `try!`. */
  datatype Outcome<+T> = Ok(value: T) | Throw(thrown: Thrown) | Trap

  /** What `container(keyedBy:)` throws for a value that is not a JSON object. */
  function NotAnObject(j: Json): Thrown {
    if j.JNull? then ValueNotFound else TypeMismatch
  }

  /** `try!` around a decode: a failed decode traps, a successful one is wrapped by `k`. */
  function OrTrap<T, U>(o: Option<T>, k: T -> U): Outcome<U> {
    match o
    case Some(x) => Ok(k(x))
    case None => Trap
  }

  /** The required string member `type`, read by both keyed decoders. */
  function TypeField(members: map<string, Json>): Option<string> {
    DecodeField(members, "type", DecodeString)
  }

  // ---------------------------------------------------------------------------
  // Geometry objects (RFC 7946 section 3.1)
  // ---------------------------------------------------------------------------

  /** `Geom`: seven variants, each holding its coordinates at a fixed array depth. */
  datatype Geom =
    | Point(position: seq<Double>)
    | MultiPoint(positions: seq<seq<Double>>)
    | LineString(positions: seq<seq<Double>>)
    | MultiLineString(lines: seq<seq<seq<Double>>>)
    | Polygon(rings: seq<seq<seq<Double>>>)
    | MultiPolygon(polygons: seq<seq<seq<seq<Double>>>>)
    | GeometryCollection(geometries: seq<Geom>)

  /** The `type` strings `Geom.init(from:)` accepts; matching is exact and case-sensitive. */
  const GeometryTypes: set<string> :=
    {"Point", "MultiPoint", "LineString", "MultiLineString", "Polygon", "MultiPolygon", "GeometryCollection"}

  /** The `type` string that names a variant. */
  function GeomType(g: Geom): (t: string)
    ensures t in GeometryTypes
  {
    match g
    case Point(_) => "Point"
    case MultiPoint(_) => "MultiPoint"
    case LineString(_) => "LineString"
    case MultiLineString(_) => "MultiLineString"
    case Polygon(_) => "Polygon"
    case MultiPolygon(_) => "MultiPolygon"
    case GeometryCollection(_) => "GeometryCollection"
  }

  /** `decode([Double].self)`: a position. */
  function DecodeCoords1(j: Json): Option<seq<Double>> {
    DecodeArray(j, DecodeDouble)
  }

  /** `decode([[Double]].self)`: a sequence of positions. */
  function DecodeCoords2(j: Json): Option<seq<seq<Double>>> {
    DecodeArray(j, DecodeCoords1)
  }

  /** `decode([[[Double]]].self)`: a sequence of lines or rings. */
  function DecodeCoords3(j: Json): Option<seq<seq<seq<Double>>>> {
    DecodeArray(j, DecodeCoords2)
  }

  /** `decode([[[[Double]]]].self)`: a sequence of polygons. */
  function DecodeCoords4(j: Json): Option<seq<seq<seq<seq<Double>>>>> {
    DecodeArray(j, DecodeCoords3)
  }

  function EncodeCoords1(p: seq<Double>): Json {
    EncodeArray(p, EncodeDouble)
  }

  function EncodeCoords2(p: seq<seq<Double>>): Json {
    EncodeArray(p, EncodeCoords1)
  }

  function EncodeCoords3(p: seq<seq<seq<Double>>>): Json {
    EncodeArray(p, EncodeCoords2)
  }

  function EncodeCoords4(p: seq<seq<seq<seq<Double>>>>): Json {
    EncodeArray(p, EncodeCoords3)
  }

  /**
   * Each coordinate decoder accepts exactly the arrays nested to its own
   * depth, numbers at the bottom, and nothing else: no depth is coerced.
   */
  lemma CoordsInverse()
    ensures Inverse(DecodeCoords1, EncodeCoords1)
    ensures Inverse(DecodeCoords2, EncodeCoords2)
    ensures Inverse(DecodeCoords3, EncodeCoords3)
    ensures Inverse(DecodeCoords4, EncodeCoords4)
  {
    forall j, x ensures DecodeCoords1(j) == Some(x) <==> j == EncodeCoords1(x) {
      DecodeArrayExact(j, DecodeDouble, EncodeDouble, x);
    }
    forall j, x ensures DecodeCoords2(j) == Some(x) <==> j == EncodeCoords2(x) {
      DecodeArrayExact(j, DecodeCoords1, EncodeCoords1, x);
    }
    forall j, x ensures DecodeCoords3(j) == Some(x) <==> j == EncodeCoords3(x) {
      DecodeArrayExact(j, DecodeCoords2, EncodeCoords2, x);
    }
    forall j, x ensures DecodeCoords4(j) == Some(x) <==> j == EncodeCoords4(x) {
      DecodeArrayExact(j, DecodeCoords3, EncodeCoords3, x);
    }
  }

  /** `Geom.init(from:)`. */
  function DecodeGeom(j: Json): (r: Outcome<Geom>)
    ensures r.Throw? <==> !j.JObject? || (TypeField(j.members).Some? && TypeField(j.members).value !in GeometryTypes)
    ensures r.Throw? ==> r.thrown == if j.JObject? then GeoJSON(InvalidGeometryType(TypeField(j.members).value)) else NotAnObject(j)
    ensures r.Ok? ==> j.JObject? && TypeField(j.members) == Some(GeomType(r.value))
    decreases j, 1
  {
    match j
    case JObject(members) =>
      (match TypeField(members)
      case None => Trap
      case Some(t) =>
        if t == "Point" then
          OrTrap(DecodeField(members, "coordinates", DecodeCoords1), p => Point(p))
        else if t == "MultiPoint" then
          OrTrap(DecodeField(members, "coordinates", DecodeCoords2), p => MultiPoint(p))
        else if t == "LineString" then
          OrTrap(DecodeField(members, "coordinates", DecodeCoords2), p => LineString(p))
        else if t == "MultiLineString" then
          OrTrap(DecodeField(members, "coordinates", DecodeCoords3), p => MultiLineString(p))
        else if t == "Polygon" then
          OrTrap(DecodeField(members, "coordinates", DecodeCoords3), p => Polygon(p))
        else if t == "MultiPolygon" then
          OrTrap(DecodeField(members, "coordinates", DecodeCoords4), p => MultiPolygon(p))
        else if t == "GeometryCollection" then
          if "geometries" in members && members["geometries"].JArray? then
            OrTrap(DecodeGeomEach(members["geometries"].items), gs => GeometryCollection(gs))
          else
            Trap
        else
          Throw(GeoJSON(InvalidGeometryType(t))))
    case _ => Throw(NotAnObject(j))
  }

  /**
   * `decode([Geom].self)` on the elements of a JSON array: fails as soon as one element does not decode.
   * Written out rather than as `DecodeEach(items, DecodeGeom)` because `DecodeGeom` calls back into this
   * function, and termination checking has to see that recursion directly.
   */
  function DecodeGeomEach(items: seq<Json>): (r: Option<seq<Geom>>)
    decreases items
  {
    if items == [] then Some([])
    else
      match DecodeGeom(items[0])
      case Ok(g) =>
        (match DecodeGeomEach(items[1..])
         case Some(gs) => Some([g] + gs)
         case None => None)
      case _ => None
  }

  /** The `coordinates` member that encodes a non-collection geometry, at its variant's depth. */
  function CoordinatesJson(g: Geom): Json
    requires !g.GeometryCollection?
  {
    match g
    case Point(p) => EncodeCoords1(p)
    case MultiPoint(p) => EncodeCoords2(p)
    case LineString(p) => EncodeCoords2(p)
    case MultiLineString(p) => EncodeCoords3(p)
    case Polygon(p) => EncodeCoords3(p)
    case MultiPolygon(p) => EncodeCoords4(p)
  }

  /** The GeoJSON object of a geometry: its `type` and its `coordinates` or `geometries`. */
  function EncodeGeom(g: Geom): Json {
    match g
    case GeometryCollection(gs) =>
      JObject(map["type" := JString("GeometryCollection"), "geometries" := JArray(EncodeGeomEach(gs))])
    case _ =>
      JObject(map["type" := JString(GeomType(g)), "coordinates" := CoordinatesJson(g)])
  }

  function EncodeGeomEach(gs: seq<Geom>): (r: seq<Json>)
    ensures |r| == |gs|
  {
    if gs == [] then [] else [EncodeGeom(gs[0])] + EncodeGeomEach(gs[1..])
  }

  /**
   * For a non-collection type, decoding succeeds with `g` exactly when
   * `coordinates` is present and holds `g`'s coordinates at `g`'s depth;
   * together with `DecodeGeom`'s contract, every other object of that type traps.
   */
  lemma CoordinatesDecode(members: map<string, Json>, g: Geom)
    requires !g.GeometryCollection?
    requires TypeField(members) == Some(GeomType(g))
    ensures DecodeGeom(JObject(members)) == Ok(g) <==> "coordinates" in members && members["coordinates"] == CoordinatesJson(g)
  {
    CoordsInverse();
  }

  /** A decoded array of geometries has one geometry per element, in order, and exists only when every element decodes. */
  lemma {:induction false} DecodeGeomEachElementwise(items: seq<Json>)
    ensures DecodeGeomEach(items).Some? <==> forall i :: 0 <= i < |items| ==> DecodeGeom(items[i]).Ok?
    ensures DecodeGeomEach(items).Some? ==>
              |DecodeGeomEach(items).value| == |items| &&
              forall i :: 0 <= i < |items| ==> DecodeGeomEach(items).value[i] == DecodeGeom(items[i]).value
  {
    if items != [] {
      DecodeGeomEachElementwise(items[1..]);
      if DecodeGeomEach(items).Some? {
        forall i | 0 < i < |items| ensures DecodeGeom(items[i]).Ok? {
          assert items[i] == items[1..][i - 1];
        }
      }
      if forall i :: 0 <= i < |items| ==> DecodeGeom(items[i]).Ok? {
        assert DecodeGeom(items[0]).Ok?;
        assert forall i :: 0 <= i < |items[1..]| ==> DecodeGeom(items[1..][i]).Ok?;
      }
    }
  }

  /**
   * `"GeometryCollection"` decodes `geometries` element by element, keeping
   * order and length. A missing or non-array `geometries`, or one element
   * that fails for whatever reason, traps.
   */
  lemma GeometryCollectionDecode(members: map<string, Json>)
    requires TypeField(members) == Some("GeometryCollection")
    ensures DecodeGeom(JObject(members)).Ok? <==>
              "geometries" in members && members["geometries"].JArray? &&
              forall i :: 0 <= i < |members["geometries"].items| ==> DecodeGeom(members["geometries"].items[i]).Ok?
    ensures !DecodeGeom(JObject(members)).Ok? ==> DecodeGeom(JObject(members)) == Trap
    ensures DecodeGeom(JObject(members)).Ok? ==>
              var items := members["geometries"].items;
              var g := DecodeGeom(JObject(members)).value;
              g.GeometryCollection? && |g.geometries| == |items| &&
              forall i :: 0 <= i < |items| ==> DecodeGeom(items[i]) == Ok(g.geometries[i])
  {
    if "geometries" in members && members["geometries"].JArray? {
      DecodeGeomEachElementwise(members["geometries"].items);
    }
  }

  /** A geometry object without a string `type` traps rather than throwing. */
  lemma GeometryTypeMissingTraps(members: map<string, Json>)
    requires TypeField(members).None?
    ensures DecodeGeom(JObject(members)) == Trap
  {
  }

  /** Decoding the encoding of any geometry gives the geometry back. */
  lemma {:induction false} GeomRoundTrip(g: Geom)
    ensures DecodeGeom(EncodeGeom(g)) == Ok(g)
    decreases g, 1
  {
    if g.GeometryCollection? {
      GeomEachRoundTrip(g.geometries);
    } else {
      CoordinatesDecode(EncodeGeom(g).members, g);
    }
  }

  lemma {:induction false} GeomEachRoundTrip(gs: seq<Geom>)
    ensures DecodeGeomEach(EncodeGeomEach(gs)) == Some(gs)
    decreases gs, 0
  {
    if gs != [] {
      GeomRoundTrip(gs[0]);
      GeomEachRoundTrip(gs[1..]);
      assert EncodeGeomEach(gs)[1..] == EncodeGeomEach(gs[1..]);
      assert [gs[0]] + gs[1..] == gs;
    }
  }

  // ---------------------------------------------------------------------------
  // Generic property values
  // ---------------------------------------------------------------------------

  /** `DecodableValue`: JSON's data model, used for a feature's `properties`. */
  datatype DecodableValue =
    | Str(s: string)
    | Number(n: Double)
    | Bool(b: bool)
    | Array(items: seq<DecodableValue>)
    | Dict(entries: map<string, DecodableValue>)
    | Null

  /**
   * `DecodableValue.init(from:)`: tries string, number, bool, array and
   * dictionary in that order and falls back to `Null`; it never fails.
   */
  function DecodeValue(j: Json): (v: DecodableValue)
    ensures v.Str? <==> j.JString?
    ensures v.Number? <==> j.JNumber?
    ensures v.Bool? <==> j.JBool?
    ensures v.Array? <==> j.JArray?
    ensures v.Dict? <==> j.JObject?
    ensures v.Null? <==> j.JNull?
    ensures v.Str? ==> v.s == j.s
    ensures v.Number? ==> v.n == j.n
    ensures v.Bool? ==> v.b == j.b
    ensures v.Array? ==> |v.items| == |j.items|
    ensures v.Dict? ==> v.entries.Keys == j.members.Keys
    decreases j, 1
  {
    match DecodeString(j)
    case Some(s) => Str(s)
    case None =>
      match DecodeDouble(j)
      case Some(n) => Number(n)
      case None =>
        match DecodeBool(j)
        case Some(b) => Bool(b)
        case None =>
          match ValueArray(j)
          case Some(a) => Array(a)
          case None =>
            match ValueDict(j)
            case Some(d) => Dict(d)
            case None => Null
  }

  /** `decode([DecodableValue].self)`: succeeds on any JSON array, since no element can fail. */
  function ValueArray(j: Json): Option<seq<DecodableValue>>
    decreases j, 0
  {
    match j
    case JArray(items) => Some(seq(|items|, i requires 0 <= i < |items| => DecodeValue(items[i])))
    case _ => None
  }

  /** `decode([String: DecodableValue].self)`: succeeds on any JSON object, keeping every key. */
  function ValueDict(j: Json): Option<map<string, DecodableValue>>
    decreases j, 0
  {
    match j
    case JObject(members) => Some(map k | k in members :: DecodeValue(members[k]))
    case _ => None
  }

  /** At most one of the five attempts succeeds on any JSON value, so their order never decides the variant. */
  lemma ValueAttemptsExclusive(j: Json)
    ensures (if DecodeString(j).Some? then 1 else 0) + (if DecodeDouble(j).Some? then 1 else 0)
          + (if DecodeBool(j).Some? then 1 else 0) + (if ValueArray(j).Some? then 1 else 0)
          + (if ValueDict(j).Some? then 1 else 0) <= 1
  {
  }

  /** The JSON value a `DecodableValue` stands for. */
  function EncodeValue(v: DecodableValue): Json {
    match v
    case Str(s) => JString(s)
    case Number(n) => JNumber(n)
    case Bool(b) => JBool(b)
    case Array(items) => JArray(seq(|items|, i requires 0 <= i < |items| => EncodeValue(items[i])))
    case Dict(entries) => JObject(map k | k in entries :: EncodeValue(entries[k]))
    case Null => JNull
  }

  /** Decoding loses nothing: the JSON value is recovered from its decoding. */
  lemma {:induction false} DecodeValueLossless(j: Json)
    ensures EncodeValue(DecodeValue(j)) == j
  {
    match j
    case JArray(items) =>
      forall i | 0 <= i < |items| ensures EncodeValue(DecodeValue(items[i])) == items[i] {
        DecodeValueLossless(items[i]);
      }
    case JObject(members) =>
      forall k | k in members ensures EncodeValue(DecodeValue(members[k])) == members[k] {
        DecodeValueLossless(members[k]);
      }
    case _ =>
  }

  /** Every `DecodableValue` is the decoding of some JSON value, namely its encoding. */
  lemma {:induction false} DecodeValueRoundTrip(v: DecodableValue)
    ensures DecodeValue(EncodeValue(v)) == v
  {
    match v
    case Array(items) =>
      forall i | 0 <= i < |items| ensures DecodeValue(EncodeValue(items[i])) == items[i] {
        DecodeValueRoundTrip(items[i]);
      }
    case Dict(entries) =>
      forall k | k in entries ensures DecodeValue(EncodeValue(entries[k])) == entries[k] {
        DecodeValueRoundTrip(entries[k]);
      }
    case _ =>
  }

  // ---------------------------------------------------------------------------
  // Features and feature collections (RFC 7946 sections 3.2 and 3.3)
  // ---------------------------------------------------------------------------

  /** `GeoFeature`: a leaf feature with a nullable geometry, or a collection of features. */
  datatype GeoFeature =
    | Feature(geometry: Option<Geom>, properties: map<string, DecodableValue>, id: Option<string>)
    | FeatureCollection(features: seq<GeoFeature>, properties: map<string, DecodableValue>, id: Option<string>)

  /** The `type` strings `GeoFeature.init(from:)` accepts. */
  const FeatureTypes: set<string> := {"Feature", "FeatureCollection"}

  function FeatureType(f: GeoFeature): (t: string)
    ensures t in FeatureTypes
  {
    if f.Feature? then "Feature" else "FeatureCollection"
  }

  /** The lenient `id` read: a missing or non-string `id` is nil rather than an error. */
  function DecodeId(members: map<string, Json>): (r: Option<string>)
    ensures r.Some? <==> "id" in members && members["id"].JString?
    ensures r.Some? ==> members["id"] == JString(r.value)
  {
    DecodeField(members, "id", DecodeString)
  }

  /** The lenient `properties` read: a missing or non-object `properties` is the empty map rather than an error. */
  function DecodeProperties(members: map<string, Json>): (r: map<string, DecodableValue>)
    ensures "properties" !in members || !members["properties"].JObject? ==> r == map[]
    ensures "properties" in members && members["properties"].JObject? ==> r.Keys == members["properties"].members.Keys
  {
    DecodeField(members, "properties", ValueDict).GetOr(map[])
  }

  /** A `properties` object is kept whole: each of its values is recovered from its decoding. */
  lemma PropertiesLossless(members: map<string, Json>)
    requires "properties" in members && members["properties"].JObject?
    ensures forall k :: k in DecodeProperties(members) ==>
              EncodeValue(DecodeProperties(members)[k]) == members["properties"].members[k]
  {
    forall k | k in DecodeProperties(members)
      ensures EncodeValue(DecodeProperties(members)[k]) == members["properties"].members[k]
    {
      DecodeValueLossless(members["properties"].members[k]);
    }
  }

  /**
   * The nullable `geometry` read, done with a required-key decode of an
   * optional geometry: JSON null is nil; a missing key,
   * or a value that `Geom.init(from:)` does not decode, fails.
   */
  function DecodeNullableGeom(members: map<string, Json>): Option<Option<Geom>> {
    if "geometry" !in members then None
    else if members["geometry"].JNull? then Some(None)
    else
      match DecodeGeom(members["geometry"])
      case Ok(g) => Some(Some(g))
      case _ => None
  }

  /** `GeoFeature.init(from:)`. */
  function DecodeFeature(j: Json): (r: Outcome<GeoFeature>)
    ensures r.Throw? <==> !j.JObject? || (TypeField(j.members).Some? && TypeField(j.members).value !in FeatureTypes)
    ensures r.Throw? ==> r.thrown == if j.JObject? then GeoJSON(InvalidFeatureType(TypeField(j.members).value)) else NotAnObject(j)
    ensures r.Ok? ==> j.JObject? && TypeField(j.members) == Some(FeatureType(r.value))
    ensures r.Ok? ==> r.value.id == DecodeId(j.members) && r.value.properties == DecodeProperties(j.members)
    decreases j, 1
  {
    match j
    case JObject(members) =>
      (match TypeField(members)
      case None => Trap
      case Some(t) =>
        var id := DecodeId(members);
        var properties := DecodeProperties(members);
        if t == "Feature" then
          OrTrap(DecodeNullableGeom(members), g => Feature(g, properties, id))
        else if t == "FeatureCollection" then
          if "features" in members && members["features"].JArray? then
            OrTrap(DecodeFeatureEach(members["features"].items), fs => FeatureCollection(fs, properties, id))
          else
            Trap
        else
          Throw(GeoJSON(InvalidFeatureType(t))))
    case _ => Throw(NotAnObject(j))
  }

  /**
   * `decode([GeoFeature].self)` on the elements of a JSON array: fails as soon as one element does not decode.
   * Written out rather than as `DecodeEach(items, DecodeFeature)` because `DecodeFeature` calls back into this
   * function, and termination checking has to see that recursion directly.
   */
  function DecodeFeatureEach(items: seq<Json>): Option<seq<GeoFeature>>
    decreases items
  {
    if items == [] then Some([])
    else
      match DecodeFeature(items[0])
      case Ok(f) =>
        (match DecodeFeatureEach(items[1..])
         case Some(fs) => Some([f] + fs)
         case None => None)
      case _ => None
  }

  /** A decoded array of features has one feature per element, in order, and exists only when every element decodes. */
  lemma {:induction false} DecodeFeatureEachElementwise(items: seq<Json>)
    ensures DecodeFeatureEach(items).Some? <==> forall i :: 0 <= i < |items| ==> DecodeFeature(items[i]).Ok?
    ensures DecodeFeatureEach(items).Some? ==>
              |DecodeFeatureEach(items).value| == |items| &&
              forall i :: 0 <= i < |items| ==> DecodeFeatureEach(items).value[i] == DecodeFeature(items[i]).value
  {
    if items != [] {
      DecodeFeatureEachElementwise(items[1..]);
      if DecodeFeatureEach(items).Some? {
        forall i | 0 < i < |items| ensures DecodeFeature(items[i]).Ok? {
          assert items[i] == items[1..][i - 1];
        }
      }
      if forall i :: 0 <= i < |items| ==> DecodeFeature(items[i]).Ok? {
        assert DecodeFeature(items[0]).Ok?;
        assert forall i :: 0 <= i < |items[1..]| ==> DecodeFeature(items[1..][i]).Ok?;
      }
    }
  }

  /**
   * A `"Feature"` decodes its `geometry`: JSON null gives no geometry and a
   * geometry `Geom.init(from:)` decodes is kept; a missing `geometry`, or any
   * failure to decode it, traps.
   */
  lemma FeatureGeometryDecode(members: map<string, Json>)
    requires TypeField(members) == Some("Feature")
    ensures "geometry" in members && members["geometry"] == JNull ==>
              DecodeFeature(JObject(members)) == Ok(Feature(None, DecodeProperties(members), DecodeId(members)))
    ensures "geometry" in members && DecodeGeom(members["geometry"]).Ok? ==>
              DecodeFeature(JObject(members)) ==
              Ok(Feature(Some(DecodeGeom(members["geometry"]).value), DecodeProperties(members), DecodeId(members)))
    ensures "geometry" !in members || (members["geometry"] != JNull && !DecodeGeom(members["geometry"]).Ok?) ==>
              DecodeFeature(JObject(members)) == Trap
  {
  }

  /**
   * `"FeatureCollection"` decodes `features` element by element, keeping
   * order and length. A missing or non-array `features`, or one element that
   * fails for whatever reason, traps.
   */
  lemma FeatureCollectionDecode(members: map<string, Json>)
    requires TypeField(members) == Some("FeatureCollection")
    ensures DecodeFeature(JObject(members)).Ok? <==>
              "features" in members && members["features"].JArray? &&
              forall i :: 0 <= i < |members["features"].items| ==> DecodeFeature(members["features"].items[i]).Ok?
    ensures !DecodeFeature(JObject(members)).Ok? ==> DecodeFeature(JObject(members)) == Trap
    ensures DecodeFeature(JObject(members)).Ok? ==>
              var items := members["features"].items;
              var f := DecodeFeature(JObject(members)).value;
              f.FeatureCollection? && |f.features| == |items| &&
              forall i :: 0 <= i < |items| ==> DecodeFeature(items[i]) == Ok(f.features[i])
  {
    if "features" in members && members["features"].JArray? {
      DecodeFeatureEachElementwise(members["features"].items);
    }
  }

  /** An empty `features` array is an empty collection, not an error. */
  lemma EmptyFeatureCollection(members: map<string, Json>)
    requires TypeField(members) == Some("FeatureCollection")
    requires "features" in members && members["features"] == JArray([])
    ensures DecodeFeature(JObject(members)) == Ok(FeatureCollection([], DecodeProperties(members), DecodeId(members)))
  {
  }

  /**
   * `id` and `properties` never decide how decoding ends: removing them
   * leaves the outcome as it was, except that the decoded feature then has
   * no id and empty properties.
   */
  lemma OptionalFieldsLenient(members: map<string, Json>)
    ensures var r := DecodeFeature(JObject(members));
            var s := DecodeFeature(JObject(members - {"id", "properties"}));
            && (r.Throw? ==> r == s)
            && (r.Trap? <==> s.Trap?)
            && (r.Ok? <==> s.Ok?)
            && (r.Ok? ==>
                  && s.value.id.None? && s.value.properties == map[]
                  && r.value == s.value.(properties := DecodeProperties(members), id := DecodeId(members)))
  {
    var rest := members - {"id", "properties"};
    assert TypeField(rest) == TypeField(members);
    assert DecodeNullableGeom(rest) == DecodeNullableGeom(members);
    assert ("features" in rest) == ("features" in members);
    if "features" in members {
      assert rest["features"] == members["features"];
    }
  }

  /**
   * A geometry type that is not one of the seven throws
   * `invalidGeometryType` carrying that string at the top level, but traps
   * when the same object sits in a `GeometryCollection` or a feature's `geometry`.
   */
  lemma UnknownGeometryTypeThrowsOnlyAtTop(t: string, geometry: map<string, Json>)
    requires t !in GeometryTypes
    requires TypeField(geometry) == Some(t)
    ensures DecodeGeom(JObject(geometry)) == Throw(GeoJSON(InvalidGeometryType(t)))
    ensures DecodeGeom(JObject(map["type" := JString("GeometryCollection"), "geometries" := JArray([JObject(geometry)])])) == Trap
    ensures DecodeFeature(JObject(map["type" := JString("Feature"), "geometry" := JObject(geometry)])) == Trap
  {
    GeometryCollectionDecode(map["type" := JString("GeometryCollection"), "geometries" := JArray([JObject(geometry)])]);
  }

  /**
   * A feature type other than `"Feature"` and `"FeatureCollection"` throws
   * `invalidFeatureType` carrying that string at the top level, but traps
   * inside a `FeatureCollection`.
   */
  lemma UnknownFeatureTypeThrowsOnlyAtTop(t: string, feature: map<string, Json>)
    requires t !in FeatureTypes
    requires TypeField(feature) == Some(t)
    ensures DecodeFeature(JObject(feature)) == Throw(GeoJSON(InvalidFeatureType(t)))
    ensures DecodeFeature(JObject(map["type" := JString("FeatureCollection"), "features" := JArray([JObject(feature)])])) == Trap
  {
    FeatureCollectionDecode(map["type" := JString("FeatureCollection"), "features" := JArray([JObject(feature)])]);
  }

  /** Neither decoder ever throws `GeoJSONError.decodeError`. */
  lemma NeverDecodeError(j: Json)
    ensures DecodeGeom(j) != Throw(GeoJSON(DecodeError))
    ensures DecodeFeature(j) != Throw(GeoJSON(DecodeError))
  {
  }

  /** The GeoJSON object of a feature; an absent id is left out and an absent geometry is JSON null. */
  function EncodeFeature(f: GeoFeature): Json {
    match f
    case Feature(g, properties, id) =>
      JObject(FeatureMembers("Feature", "geometry", if g.Some? then EncodeGeom(g.value) else JNull, properties, id))
    case FeatureCollection(fs, properties, id) =>
      JObject(FeatureMembers("FeatureCollection", "features", JArray(EncodeFeatureEach(fs)), properties, id))
  }

  function FeatureMembers(t: string, key: string, payload: Json, properties: map<string, DecodableValue>, id: Option<string>)
    : map<string, Json>
  {
    var m := map["type" := JString(t), key := payload, "properties" := EncodeValue(Dict(properties))];
    if id.Some? then m["id" := JString(id.value)] else m
  }

  function EncodeFeatureEach(fs: seq<GeoFeature>): (r: seq<Json>)
    ensures |r| == |fs|
  {
    if fs == [] then [] else [EncodeFeature(fs[0])] + EncodeFeatureEach(fs[1..])
  }

  /** Decoding the encoding of any feature tree gives the tree back. */
  lemma {:induction false} FeatureRoundTrip(f: GeoFeature)
    ensures DecodeFeature(EncodeFeature(f)) == Ok(f)
    decreases f, 1
  {
    DecodeValueRoundTrip(Dict(f.properties));
    match f
    case Feature(g, _, _) =>
      if g.Some? {
        GeomRoundTrip(g.value);
      }
    case FeatureCollection(fs, _, _) =>
      FeatureEachRoundTrip(fs);
  }

  lemma {:induction false} FeatureEachRoundTrip(fs: seq<GeoFeature>)
    ensures DecodeFeatureEach(EncodeFeatureEach(fs)) == Some(fs)
    decreases fs, 0
  {
    if fs != [] {
      FeatureRoundTrip(fs[0]);
      FeatureEachRoundTrip(fs[1..]);
      assert EncodeFeatureEach(fs)[1..] == EncodeFeatureEach(fs[1..]);
      assert [fs[0]] + fs[1..] == fs;
    }
  }

  /** Matching on `type` is case-sensitive: `"point"` is not `"Point"`. */
  lemma GeometryTypeCaseSensitive()
    ensures DecodeGeom(JObject(map["type" := JString("point"), "coordinates" := JArray([JNumber(1.0), JNumber(2.0)])]))
            == Throw(GeoJSON(InvalidGeometryType("point")))
  {
  }

  /** A point feature with an empty `properties` object and a string id. */
  lemma PointFeatureExample()
    ensures DecodeFeature(JObject(map[
              "type" := JString("Feature"),
              "geometry" := JObject(map["type" := JString("Point"), "coordinates" := JArray([JNumber(1.0), JNumber(2.0)])]),
              "properties" := JObject(map[]),
              "id" := JString("f1")]))
            == Ok(Feature(Some(Point([1.0, 2.0])), map[], Some("f1")))
  {
    var coords := JArray([JNumber(1.0), JNumber(2.0)]);
    assert coords == EncodeCoords1([1.0, 2.0]);
    CoordinatesDecode(map["type" := JString("Point"), "coordinates" := coords], Point([1.0, 2.0]));
  }
}
