/**
 * An already-parsed JSON document, and the typed reads that Foundation's
 * `JSONDecoder` containers perform on it (`decode(String.self)`,
 * `decode([T].self)`, `decode(T.self, forKey:)`). Parsing JSON text is not
 * part of this model; the decoders start from a `Json` value.
 */
module JsonModel {
  import opened Wrappers

  /** A JSON number as Swift's `Double`: an opaque value that is carried, never computed on. */
  type Double = real

  /** A JSON value. An object's keys are unique, so its members form a map. */
  datatype Json =
    | JNull
    | JBool(b: bool)
    | JNumber(n: Double)
    | JString(s: string)
    | JArray(items: seq<Json>)
    | JObject(members: map<string, Json>)

  /** `decode(String.self)`: succeeds on a JSON string only. */
  function DecodeString(j: Json): Option<string> {
    if j.JString? then Some(j.s) else None
  }

  /** `decode(Double.self)`: succeeds on a JSON number only (JSON booleans are not numbers to `JSONDecoder`). */
  function DecodeDouble(j: Json): Option<Double> {
    if j.JNumber? then Some(j.n) else None
  }

  /** `decode(Bool.self)`: succeeds on a JSON boolean only (numbers are not booleans to `JSONDecoder`). */
  function DecodeBool(j: Json): Option<bool> {
    if j.JBool? then Some(j.b) else None
  }

  /** The inverse of `DecodeDouble`. */
  function EncodeDouble(x: Double): Json {
    JNumber(x)
  }

  /**
   * `decode(T.self, forKey: key)` on a keyed container: a missing key fails
   * (`keyNotFound`), otherwise the member's value is decoded with `f`.
   */
  function DecodeField<T>(members: map<string, Json>, key: string, f: Json -> Option<T>): Option<T> {
    if key in members then f(members[key]) else None
  }

  /**
   * `decode([T].self)`: succeeds on a JSON array whose every element decodes
   * with `f`, and then keeps the elements in order; anything else fails.
   */
  function DecodeArray<T>(j: Json, f: Json -> Option<T>): Option<seq<T>> {
    match j
    case JArray(items) => DecodeEach(items, f)
    case _ => None
  }

  function DecodeEach<T>(items: seq<Json>, f: Json -> Option<T>): (r: Option<seq<T>>)
    ensures r.Some? ==> |r.value| == |items|
  {
    if items == [] then Some([])
    else
      match f(items[0])
      case None => None
      case Some(x) =>
        match DecodeEach(items[1..], f)
        case None => None
        case Some(xs) => Some([x] + xs)
  }

  /** The JSON array whose elements are `e` of the elements of `xs`, in order. */
  function EncodeArray<T>(xs: seq<T>, e: T -> Json): Json {
    JArray(EncodeEach(xs, e))
  }

  function EncodeEach<T>(xs: seq<T>, e: T -> Json): (r: seq<Json>)
    ensures |r| == |xs|
  {
    if xs == [] then [] else [e(xs[0])] + EncodeEach(xs[1..], e)
  }

  /** `f` decodes exactly the JSON values that `e` produces, and decodes `e(x)` back to `x`. */
  ghost predicate Inverse<T(!new)>(f: Json -> Option<T>, e: T -> Json) {
    forall j, x :: f(j) == Some(x) <==> j == e(x)
  }

  /**
   * Decoding an array element by element with an exact decoder is itself
   * exact: it yields `xs` precisely on the encoding of `xs`.
   */
  lemma {:induction false} DecodeEachExact<T(!new)>(items: seq<Json>, f: Json -> Option<T>, e: T -> Json, xs: seq<T>)
    requires Inverse(f, e)
    ensures DecodeEach(items, f) == Some(xs) <==> items == EncodeEach(xs, e)
  {
    if items != [] && xs != [] {
      DecodeEachExact(items[1..], f, e, xs[1..]);
      if DecodeEach(items, f) == Some(xs) {
        assert f(items[0]) == Some(xs[0]);
        assert DecodeEach(items[1..], f) == Some(xs[1..]);
      }
      if items == EncodeEach(xs, e) {
        assert f(items[0]) == Some(xs[0]);
        assert items[1..] == EncodeEach(xs[1..], e);
        assert [xs[0]] + xs[1..] == xs;
      }
    }
  }

  /** `DecodeArray` with an exact element decoder is exact: array nesting is neither added nor dropped. */
  lemma DecodeArrayExact<T(!new)>(j: Json, f: Json -> Option<T>, e: T -> Json, xs: seq<T>)
    requires Inverse(f, e)
    ensures DecodeArray(j, f) == Some(xs) <==> j == EncodeArray(xs, e)
  {
    if j.JArray? {
      DecodeEachExact(j.items, f, e, xs);
    }
  }
}
