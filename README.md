# GeoJSON viewer: decoder and overlay builder

A Dafny model of the core of a macOS GeoJSON viewer. There are two parts.

The **decoder** (GeojsonDecoder.swift) turns an already-parsed JSON value into typed trees, following RFC 7946 sections 3.1 to 3.3:

- `Geom` has seven geometry variants. Each keeps its `coordinates` at a fixed array depth, and `GeometryCollection` nests further geometries.
- `DecodableValue` is a generic value used for a feature's `properties`.
- `GeoFeature` is either a leaf `Feature`, whose geometry may be absent, or a `FeatureCollection` of features.

The **overlay builder** (the free functions at the top of ViewController.swift) maps a decoded tree to map overlays. MapKit's types are replaced by plain datatypes (`Coordinate`, `Polyline`, `Polygon`, `Overlay`).

Files:

- `wrappers.dfy`: `Option`.
- `json_model.dfy`: the JSON value, plus the typed reads that Foundation's `JSONDecoder` containers perform. For example, `decode([T].self)` becomes `DecodeArray`, and `decode(T.self, forKey:)` becomes `DecodeField`.
- `geojson_decoder.dfy`: the three decoders, their inverse encoders and the properties proved about them.
- `view_controller.dfy`: `makePoint`, `makePolygon`, `makeMKOverlay` and `makeMKOverlays`, with their properties.

A call to a throwing `init(from:)` can end in three ways. `Outcome` keeps them apart:

- `Ok`: a decoded value.
- `Throw`: an error thrown to the caller. This is either `GeoJSONError.invalidGeometryType` / `invalidFeatureType`, or the `DecodingError` that `container(keyedBy:)` throws when the value is not an object or is null.
- `Trap`: a crash from a failed `try!`.

Required fields (`type`, `coordinates`, `geometries`, `geometry`, `features`) are read with `try!`. So a missing or malformed required field traps instead of throwing. Every nested decode also runs under `try!`, so an unknown type throws only at the top-level call; the same object inside a collection or a feature's `geometry` traps.

The optional fields are read with `try?` and never cause a failure:

- `id`: a missing or non-string value becomes nil.
- `properties`: a missing or non-object value becomes an empty map.

A feature's `geometry` is read with `decode(Geom?.self, forKey:)`, not `decodeIfPresent`. So JSON null gives no geometry, while a missing `geometry` key traps.

A missing or non-string `type` traps, because lines 51 and 119 read it with `try!`. `GeoJSONError.decodeError` is declared but never thrown, and `NeverDecodeError` proves this.

## Model

| member | source | states |
|---|---|---|
| `JsonModel.DecodeArrayExact` | GeojsonViewer/GeojsonDecoder.swift:55-65 | Decoding an array with an exact element decoder is exact: it yields `xs` if and only if the JSON is the array that encodes `xs`. |
| `GeojsonDecoder.CoordsInverse` | GeojsonViewer/GeojsonDecoder.swift:55-65 | The `[Double]`, `[[Double]]`, `[[[Double]]]` and `[[[[Double]]]]` reads accept exactly the arrays nested to their own depth, with numbers at the bottom. Each inverts its encoder, so no depth is coerced. |
| `GeojsonDecoder.DecodeGeom` | GeojsonViewer/GeojsonDecoder.swift:48-71 | Throws if and only if the value is not an object (`typeMismatch`, or `valueNotFound` for null), or its `type` is a string outside the seven. The error thrown is `invalidGeometryType` carrying exactly that string. On success, `type` names the decoded variant. |
| `GeojsonDecoder.CoordinatesDecode` | GeojsonViewer/GeojsonDecoder.swift:53-65 | For each non-collection type string, decoding yields `g` if and only if `coordinates` is present and holds `g`'s coordinates at that variant's depth (Point 1, MultiPoint/LineString 2, MultiLineString/Polygon 3, MultiPolygon 4). Any other such object traps. |
| `GeojsonDecoder.GeometryCollectionDecode` | GeojsonViewer/GeojsonDecoder.swift:66-67 | `GeometryCollection` succeeds if and only if `geometries` is an array whose every element decodes. Then the order and length are kept, and element `i` is the decoding of item `i`. Otherwise it traps. |
| `GeojsonDecoder.GeometryTypeMissingTraps` | GeojsonViewer/GeojsonDecoder.swift:51 | A geometry object without a string `type` traps. |
| `GeojsonDecoder.GeomRoundTrip` | GeojsonViewer/GeojsonDecoder.swift:48-71 | Every geometry, nested collections included, decodes back from its GeoJSON encoding. |
| `GeojsonDecoder.GeometryTypeCaseSensitive` | GeojsonViewer/GeojsonDecoder.swift:53-69 | `"point"` is not `"Point"`: it throws `invalidGeometryType("point")`. |
| `GeojsonDecoder.UnknownGeometryTypeThrowsOnlyAtTop` | GeojsonViewer/GeojsonDecoder.swift:53-69 | An unknown geometry type throws `invalidGeometryType(t)` at the top level. The same object inside a `GeometryCollection` or a feature's `geometry` traps. |
| `GeojsonDecoder.DecodeValue` | GeojsonViewer/GeojsonDecoder.swift:82-99 | Never fails. A JSON string, number, bool, array, object or null gives `Str`, `Number`, `Bool`, `Array`, `Dict` or `Null` respectively, and the reverse also holds. Scalars are kept, array lengths are kept and object keys are kept. |
| `GeojsonDecoder.ValueAttemptsExclusive` | GeojsonViewer/GeojsonDecoder.swift:86-97 | At most one of the five ordered attempts (string, number, bool, array, dictionary) succeeds on any value. So the order of the attempts never changes the variant chosen. |
| `GeojsonDecoder.DecodeValueLossless` | GeojsonViewer/GeojsonDecoder.swift:82-99 | The JSON value can be recovered from its decoding, element by element and key by key. |
| `GeojsonDecoder.DecodeValueRoundTrip` | GeojsonViewer/GeojsonDecoder.swift:74-99 | Every `DecodableValue` is the decoding of its own encoding. So the decoder is a bijection between JSON values and `DecodableValue`. |
| `GeojsonDecoder.DecodeId` | GeojsonViewer/GeojsonDecoder.swift:120 | `id` is present exactly when the member exists and is a JSON string, and it then carries that string. Otherwise it is nil. |
| `GeojsonDecoder.DecodeProperties` | GeojsonViewer/GeojsonDecoder.swift:121 | A missing or non-object `properties` gives the empty map. An object gives a map with the same keys. |
| `GeojsonDecoder.PropertiesLossless` | GeojsonViewer/GeojsonDecoder.swift:121 | Every value of a `properties` object is recovered from its decoding. |
| `GeojsonDecoder.DecodeFeature` | GeojsonViewer/GeojsonDecoder.swift:116-133 | Throws if and only if the value is not an object, or its `type` is a string other than `Feature`/`FeatureCollection`. The error thrown is `invalidFeatureType` carrying that string. On success, `type` names the variant, and `id` and `properties` are the lenient decodings of those members. |
| `GeojsonDecoder.FeatureGeometryDecode` | GeojsonViewer/GeojsonDecoder.swift:124-126 | A `Feature` with `geometry: null` has no geometry. A geometry that decodes is kept. A missing `geometry`, or any failure to decode it, traps. |
| `GeojsonDecoder.FeatureCollectionDecode` | GeojsonViewer/GeojsonDecoder.swift:127-129 | `FeatureCollection` succeeds if and only if `features` is an array whose every element decodes. Then the order and length are kept, and child `i` is the decoding of item `i`. Otherwise it traps. |
| `GeojsonDecoder.EmptyFeatureCollection` | GeojsonViewer/GeojsonDecoder.swift:127-129 | An empty `features` array gives an empty collection, not an error. |
| `GeojsonDecoder.OptionalFieldsLenient` | GeojsonViewer/GeojsonDecoder.swift:120-129 | Removing `id` and `properties` leaves the outcome unchanged: the same success, the same thrown error, or a trap. The only difference is that the decoded feature then has a nil id and empty properties. |
| `GeojsonDecoder.UnknownFeatureTypeThrowsOnlyAtTop` | GeojsonViewer/GeojsonDecoder.swift:123-131 | An unknown feature type throws `invalidFeatureType(t)` at the top level, but traps inside a `FeatureCollection`. |
| `GeojsonDecoder.NeverDecodeError` | GeojsonViewer/GeojsonDecoder.swift:13-17 | Neither decoder ever throws `decodeError`. |
| `GeojsonDecoder.FeatureRoundTrip` | GeojsonViewer/GeojsonDecoder.swift:116-133 | Every feature tree decodes back from its GeoJSON encoding. |
| `GeojsonDecoder.PointFeatureExample` | GeojsonViewer/GeojsonDecoder.swift:116-126 | A point feature with `properties: {}` and `id: "f1"` decodes to a `Feature` with that point, empty properties and id `f1`. |
| `ViewController.MakePoint` | GeojsonViewer/ViewController.swift:12-14 | Latitude is `arr[1]` and longitude is `arr[0]`, so the axis order is swapped. It needs at least two numbers. |
| `ViewController.MakePointInverse` | GeojsonViewer/ViewController.swift:12-14 | Going back to a position gives the first two numbers of the input. Any other numbers (an altitude) are dropped, and a coordinate survives the round trip unchanged. |
| `ViewController.MakeCoordinates` | GeojsonViewer/ViewController.swift:17 | `map(makePoint)` keeps the length, and element `i` is `makePoint` of position `i`. |
| `ViewController.MakeCoordinatesInverse` | GeojsonViewer/ViewController.swift:36 | Mapping positions to coordinates keeps their order and loses nothing but altitudes. |
| `ViewController.MakePolygon` | GeojsonViewer/ViewController.swift:16-28 | The boundary is ring 0, mapped pointwise. Interior polygons are nil exactly when there is one ring. Otherwise there is one hole polygon per later ring, in order. |
| `ViewController.MakeHoles` | GeojsonViewer/ViewController.swift:20-25 | One hole polygon per ring, in order, each without interior polygons of its own. |
| `ViewController.MakePolygonRings` | GeojsonViewer/ViewController.swift:16-28 | The polygon has as many rings as the input, and ring `i` is input ring `i` mapped pointwise. |
| `ViewController.MakeOverlay` | GeojsonViewer/ViewController.swift:30-43 | Gives an overlay if and only if the geometry is a `LineString` or a `Polygon`. A line gives a polyline with the same positions in order, and a polygon gives `makePolygon` of its rings. |
| `ViewController.MakeOverlays` | GeojsonViewer/ViewController.swift:45-56 | A leaf feature gives at most one overlay. It gives none exactly when its geometry is nil or not supported, and otherwise exactly `makeMKOverlay` of its geometry. |
| `ViewController.CollectionOverlaysConcatenate` | GeojsonViewer/ViewController.swift:53-54 | A collection's overlays are the concatenation, in order, of its children's overlays. Their number is the sum of the children's counts. |
| `ViewController.OverlayCount` | GeojsonViewer/ViewController.swift:45-56 | A tree gives exactly one overlay per leaf whose geometry is a `LineString` or a `Polygon`. |
| `ViewController.PointsGiveNoOverlays` | GeojsonViewer/ViewController.swift:30-56 | A tree whose leaves hold only points (or no geometry) never traps and gives no overlays. |
| `ViewController.PointCollectionExample` | GeojsonViewer/ViewController.swift:45-56 | A decoded collection of two point features gives an empty overlay list and no failure. |
| `ViewController.DecodedButNotDrawable` | GeojsonViewer/ViewController.swift:12-17 | A line with a one-number position, and a polygon with no rings, both decode. The builder would trap on either, at `arr[1]` or at `points[0]`. |

## Left out

- JSON text parsing and the inner workings of `JSONDecoder`. The model starts from a parsed `Json` value, and JSON objects are maps, so keys are unique. Only the typed reads the decoders perform are modelled.
- Numbers are opaque `real` values. Converting a JSON number to a Swift `Double` (rounding, out-of-range numbers) is not modelled, and nothing computes on coordinates.
- Swift compares `String`s by canonical equivalence. The model compares character sequences.
- A thrown `DecodingError` keeps only its kind (`typeMismatch`, `valueNotFound`). Its coding path and debug context are left out.
- Inside `geometries` and `features`, which element fails first is not modelled. Any failure there traps, so the outcome is the same either way.
- The overlay builder's array-index traps (`arr[1]` in `makePoint`, `points[0]` in `makePolygon`) are `requires` clauses (`Readable`, `PolygonReadable`, `FeatureDrawable`), not a trap outcome. The decoder does not establish them; see `DecodedButNotDrawable`.
- MapKit: `MKPolyline`, `MKPolygon` and `CLLocationCoordinate2D` become plain datatypes. `MKOverlay` bounding rectangles are left out.
- The `ViewController` class (`viewDidLoad`, `refresh` with its bounding-rect union and `setVisibleMapRect`, and `mapView(_:rendererFor:)`) and `GeojsonWindowController.swift` are user-interface code and are not part of this model.
- The commented-out `MKMapPoint` extension in GeojsonDecoder.swift.
