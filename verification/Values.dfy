/** The value model (crates/auradb-core/src/value.rs): values, their JSON encoding, the
    keys equality indexes derive from it, and dotted document paths. */
module Values {
  import opened Wrappers

  /** A 64-bit float: a finite number or one of the values JSON cannot carry. */
  datatype Float64 = Finite(value: real) | NaN | PosInf | NegInf

  datatype Value =
    | Null
    | Bool(b: bool)
    | Int(i: int)
    | Float(f: Float64)
    | Text(s: string)
    | Bytes(bytes: seq<int>)
    | Timestamp(ms: int)
    | Vector(v: seq<Float64>)
    | Array(items: seq<Value>)
    | Object(fields: map<string, Value>)

  datatype Json =
    | JNull
    | JBool(b: bool)
    | JInt(i: int)
    | JFloat(r: real)
    | JString(s: string)
    | JArray(items: seq<Json>)
    | JObject(fields: map<string, Json>)

  const VECTOR_KEY := "$vector"
  const TIMESTAMP_KEY := "$timestamp"
  const BYTES_KEY := "$bytes"

  /** A byte in a byte string. */
  predicate IsByte(i: int) {
    0 <= i < 256
  }

  /** Values as the source's types allow them: byte strings hold bytes. */
  ghost predicate Typed(v: Value) {
    match v
    case Bytes(bytes) => forall k :: 0 <= k < |bytes| ==> IsByte(bytes[k])
    case Array(items) => forall k :: 0 <= k < |items| ==> Typed(items[k])
    case Object(fields) => forall k :: k in fields ==> Typed(fields[k])
    case _ => true
  }

  // ---- to JSON ----

  function FloatToJson(f: Float64): Json {
    match f case Finite(r) => JFloat(r) case _ => JNull
  }

  function ToJson(v: Value): Json {
    match v
    case Null => JNull
    case Bool(b) => JBool(b)
    case Int(i) => JInt(i)
    case Float(f) => FloatToJson(f)
    case Text(s) => JString(s)
    case Bytes(bytes) => JObject(map[BYTES_KEY := JArray(seq(|bytes|, k requires 0 <= k < |bytes| => JInt(bytes[k])))])
    case Timestamp(ms) => JObject(map[TIMESTAMP_KEY := JInt(ms)])
    case Vector(v) => JObject(map[VECTOR_KEY := JArray(seq(|v|, k requires 0 <= k < |v| => FloatToJson(v[k])))])
    case Array(items) => JArray(seq(|items|, k requires 0 <= k < |items| => ToJson(items[k])))
    case Object(fields) => JObject(map k | k in fields :: ToJson(fields[k]))
  }

  // ---- from JSON ----

  predicate IsNumber(j: Json) {
    j.JInt? || j.JFloat?
  }

  /** `as_f64`, then narrowed to the vector's 32-bit element type. */
  function Narrowed(narrow: real -> real, j: Json): Float64 {
    match j
    case JInt(i) => Finite(narrow(i as real))
    case JFloat(r) => Finite(narrow(r))
    case _ => NaN
  }

  predicate VectorJson(j: Json) {
    j.JArray? && forall k :: 0 <= k < |j.items| ==> IsNumber(j.items[k])
  }

  predicate BytesJson(j: Json) {
    j.JArray? && forall k :: 0 <= k < |j.items| ==> j.items[k].JInt? && IsByte(j.items[k].i)
  }

  /** The reserved single-key objects that stand for vectors, timestamps and byte strings. */
  predicate Reserved(fields: map<string, Json>) {
    && |fields| == 1
    && ( || (VECTOR_KEY in fields && VectorJson(fields[VECTOR_KEY]))
         || (TIMESTAMP_KEY in fields && fields[TIMESTAMP_KEY].JInt?)
         || (BYTES_KEY in fields && BytesJson(fields[BYTES_KEY])))
  }

  function FromReserved(narrow: real -> real, fields: map<string, Json>): Value
    requires Reserved(fields)
  {
    if VECTOR_KEY in fields && VectorJson(fields[VECTOR_KEY]) then
      var items := fields[VECTOR_KEY].items;
      Vector(seq(|items|, k requires 0 <= k < |items| => Narrowed(narrow, items[k])))
    else if TIMESTAMP_KEY in fields && fields[TIMESTAMP_KEY].JInt? then
      Timestamp(fields[TIMESTAMP_KEY].i)
    else
      var items := fields[BYTES_KEY].items;
      Bytes(seq(|items|, k requires 0 <= k < |items| && items[k].JInt? => items[k].i))
  }

  function FromJson(narrow: real -> real, j: Json): Value
    decreases j
  {
    match j
    case JNull => Null
    case JBool(b) => Bool(b)
    case JInt(i) => Int(i)
    case JFloat(r) => Float(Finite(r))
    case JString(s) => Text(s)
    case JArray(items) => Array(seq(|items|, k requires 0 <= k < |items| => FromJson(narrow, items[k])))
    case JObject(fields) =>
      if Reserved(fields) then FromReserved(narrow, fields)
      else Object(map k | k in fields :: FromJson(narrow, fields[k]))
  }

  // ---- the round trip ----

  /** A value whose array encoding reads as a list of numbers. */
  predicate NumberList(v: Value) {
    v.Array? && forall k :: 0 <= k < |v.items| ==> v.items[k].Int? || (v.items[k].Float? && v.items[k].f.Finite?)
  }

  predicate ByteList(v: Value) {
    v.Array? && forall k :: 0 <= k < |v.items| ==> v.items[k].Int? && IsByte(v.items[k].i)
  }

  /** A one-key object that reads back as a vector, a timestamp or a byte string. */
  predicate Mimics(fields: map<string, Value>) {
    && |fields| == 1
    && ( || (VECTOR_KEY in fields && NumberList(fields[VECTOR_KEY]))
         || (TIMESTAMP_KEY in fields && fields[TIMESTAMP_KEY].Int?)
         || (BYTES_KEY in fields && ByteList(fields[BYTES_KEY])))
  }

  /** Every number is finite, every vector element survives narrowing, and no object poses as an extension value. */
  ghost predicate Faithful(narrow: real -> real, v: Value) {
    match v
    case Float(f) => f.Finite?
    case Vector(v) => forall k :: 0 <= k < |v| ==> v[k].Finite? && narrow(v[k].value) == v[k].value
    case Array(items) => forall k :: 0 <= k < |items| ==> Faithful(narrow, items[k])
    case Object(fields) => !Mimics(fields) && forall k :: k in fields ==> Faithful(narrow, fields[k])
    case _ => true
  }

  lemma SingleKey<V>(key: string, v: V)
    ensures |map[key := v]| == 1
  {
    assert (map[key := v]).Keys == {key};
  }

  lemma KeysDiffer()
    ensures VECTOR_KEY != TIMESTAMP_KEY && VECTOR_KEY != BYTES_KEY && TIMESTAMP_KEY != BYTES_KEY
  {
    assert VECTOR_KEY[1] == 'v' && TIMESTAMP_KEY[1] == 't' && BYTES_KEY[1] == 'b';
  }

  lemma NumbersEncode(v: Value)
    ensures IsNumber(ToJson(v)) <==> v.Int? || (v.Float? && v.f.Finite?)
    ensures ToJson(v).JInt? <==> v.Int?
    ensures v.Int? ==> ToJson(v) == JInt(v.i)
    ensures ToJson(v).JArray? <==> v.Array?
  {
  }

  lemma ListsEncode(v: Value)
    ensures VectorJson(ToJson(v)) <==> NumberList(v)
    ensures BytesJson(ToJson(v)) <==> ByteList(v)
  {
    NumbersEncode(v);
    if v.Array? {
      var items := ToJson(v).items;
      forall k | 0 <= k < |items| ensures items[k] == ToJson(v.items[k]) {
        NumbersEncode(v.items[k]);
      }
      assert forall k :: 0 <= k < |items| ==>
        (IsNumber(items[k]) <==> v.items[k].Int? || (v.items[k].Float? && v.items[k].f.Finite?)) by {
        forall k | 0 <= k < |items| { NumbersEncode(v.items[k]); }
      }
      assert forall k :: 0 <= k < |items| ==>
        (items[k].JInt? && IsByte(items[k].i) <==> v.items[k].Int? && IsByte(v.items[k].i)) by {
        forall k | 0 <= k < |items| { NumbersEncode(v.items[k]); }
      }
    }
  }

  /** Exactly the mimicking objects are read as extension values. */
  lemma MimicsEncode(fields: map<string, Value>)
    ensures Reserved(ToJson(Object(fields)).fields) <==> Mimics(fields)
  {
    var encoded := ToJson(Object(fields)).fields;
    assert encoded.Keys == fields.Keys;
    assert |encoded| == |fields|;
    if VECTOR_KEY in fields { ListsEncode(fields[VECTOR_KEY]); }
    if TIMESTAMP_KEY in fields { NumbersEncode(fields[TIMESTAMP_KEY]); }
    if BYTES_KEY in fields { ListsEncode(fields[BYTES_KEY]); }
  }

  lemma BytesRoundTrip(narrow: real -> real, bytes: seq<int>)
    requires forall k :: 0 <= k < |bytes| ==> IsByte(bytes[k])
    ensures FromJson(narrow, ToJson(Bytes(bytes))) == Bytes(bytes)
  {
    KeysDiffer();
    var fields := ToJson(Bytes(bytes)).fields;
    SingleKey(BYTES_KEY, fields[BYTES_KEY]);
    assert Reserved(fields);
  }

  lemma TimestampRoundTrip(narrow: real -> real, ms: int)
    ensures FromJson(narrow, ToJson(Timestamp(ms))) == Timestamp(ms)
  {
    KeysDiffer();
    SingleKey(TIMESTAMP_KEY, JInt(ms));
    assert Reserved(ToJson(Timestamp(ms)).fields);
  }

  lemma VectorRoundTrip(narrow: real -> real, v: seq<Float64>)
    ensures FromJson(narrow, ToJson(Vector(v))) == Vector(v) <==> Faithful(narrow, Vector(v))
  {
    KeysDiffer();
    var fields := ToJson(Vector(v)).fields;
    SingleKey(VECTOR_KEY, fields[VECTOR_KEY]);
    var items := fields[VECTOR_KEY].items;
    if forall k :: 0 <= k < |v| ==> v[k].Finite? {
      assert VectorJson(fields[VECTOR_KEY]) && Reserved(fields);
      var back := FromReserved(narrow, fields).v;
      assert |back| == |v| && forall k :: 0 <= k < |v| ==> back[k] == Finite(narrow(v[k].value));
      if back == v {
        forall k | 0 <= k < |v| ensures narrow(v[k].value) == v[k].value {
          assert back[k] == v[k];
        }
      }
    } else {
      var k :| 0 <= k < |v| && !v[k].Finite?;
      assert items[k] == JNull;
      assert !Reserved(fields);
    }
  }

  /** Decoding the encoding of a value gives the value back exactly when the value is faithful. */
  lemma {:induction false} RoundTrip(narrow: real -> real, v: Value)
    requires Typed(v)
    ensures FromJson(narrow, ToJson(v)) == v <==> Faithful(narrow, v)
  {
    match v
    case Bytes(bytes) => BytesRoundTrip(narrow, bytes);
    case Timestamp(ms) => TimestampRoundTrip(narrow, ms);
    case Vector(v) => VectorRoundTrip(narrow, v);
    case Array(items) =>
      forall k | 0 <= k < |items| ensures FromJson(narrow, ToJson(items[k])) == items[k] <==> Faithful(narrow, items[k]) {
        RoundTrip(narrow, items[k]);
      }
      ArrayRoundTrip(narrow, items);
    case Object(fields) =>
      forall k | k in fields ensures FromJson(narrow, ToJson(fields[k])) == fields[k] <==> Faithful(narrow, fields[k]) {
        RoundTrip(narrow, fields[k]);
      }
      ObjectRoundTrip(narrow, fields);
    case _ =>
  }

  /** An object that looks like an encoded timestamp comes back as one. */
  lemma MimicIsMisread(narrow: real -> real)
    ensures FromJson(narrow, ToJson(Object(map[TIMESTAMP_KEY := Int(5)]))) == Timestamp(5)
  {
    var fields := map[TIMESTAMP_KEY := Int(5)];
    assert ToJson(Object(fields)) == ToJson(Timestamp(5)) by {
      assert ToJson(Object(fields)).fields == map[TIMESTAMP_KEY := JInt(5)];
    }
    TimestampRoundTrip(narrow, 5);
  }

  lemma ArrayRoundTrip(narrow: real -> real, items: seq<Value>)
    requires forall k :: 0 <= k < |items| ==> (FromJson(narrow, ToJson(items[k])) == items[k] <==> Faithful(narrow, items[k]))
    ensures FromJson(narrow, ToJson(Array(items))) == Array(items) <==> Faithful(narrow, Array(items))
  {
    var back := FromJson(narrow, ToJson(Array(items))).items;
    assert |back| == |items| && forall k :: 0 <= k < |items| ==> back[k] == FromJson(narrow, ToJson(items[k]));
    if back == items {
      forall k | 0 <= k < |items| ensures Faithful(narrow, items[k]) {
        assert back[k] == items[k];
      }
    }
  }

  lemma ObjectRoundTrip(narrow: real -> real, fields: map<string, Value>)
    requires forall k :: k in fields ==> (FromJson(narrow, ToJson(fields[k])) == fields[k] <==> Faithful(narrow, fields[k]))
    ensures FromJson(narrow, ToJson(Object(fields))) == Object(fields) <==> Faithful(narrow, Object(fields))
  {
    MimicsEncode(fields);
    if !Mimics(fields) {
      var back := FromJson(narrow, ToJson(Object(fields))).fields;
      assert back.Keys == fields.Keys && forall k :: k in fields ==> back[k] == FromJson(narrow, ToJson(fields[k]));
      if back == fields {
        forall k | k in fields ensures Faithful(narrow, fields[k]) {
          assert back[k] == fields[k];
        }
      }
    }
  }

  // ---- index keys ----

  /** The key of an equality index: the value's JSON.  The source stores its text, which
      determines the JSON and is determined by it. */
  type Key = Json

  function IndexKey(v: Value): Key {
    ToJson(v)
  }

  // ---- document paths ----

  /** The part of a path before its first dot, and the part after it if there is one. */
  function SplitOnce(path: string): (r: (string, Option<string>))
    ensures r.1.None? <==> '.' !in path
    ensures r.1.None? ==> r.0 == path
    ensures r.1.Some? ==> path == r.0 + ['.'] + r.1.value && '.' !in r.0
  {
    if path == [] then ([], None)
    else if path[0] == '.' then ([], Some(path[1..]))
    else
      var rest := SplitOnce(path[1..]);
      ([path[0]] + rest.0, rest.1)
  }

  /** `Value::get_path`: every segment must step into an object. */
  function ValuePath(v: Value, path: string): Option<Value>
    decreases |path|
  {
    if !v.Object? then None
    else
      var (head, rest) := SplitOnce(path);
      if head !in v.fields then None
      else if rest.None? then Some(v.fields[head])
      else ValuePath(v.fields[head], rest.value)
  }

  type Document = map<string, Value>

  function GetField(d: Document, field: string): Option<Value> {
    if field in d then Some(d[field]) else None
  }

  /** `Record::get_path`. */
  function GetPath(d: Document, path: string): Option<Value> {
    var (head, rest) := SplitOnce(path);
    if head !in d then None
    else if rest.None? then Some(d[head])
    else ValuePath(d[head], rest.value)
  }

  // ---- what a path means ----

  /** Step from object to object by one name after the other. */
  ghost function Follow(v: Value, names: seq<string>): Option<Value>
    decreases |names|
  {
    if names == [] then Some(v)
    else if v.Object? && names[0] in v.fields then Follow(v.fields[names[0]], names[1..])
    else None
  }

  /** The names with dots between them. */
  ghost function Joined(names: seq<string>): string
    requires names != []
    decreases |names|
  {
    if |names| == 1 then names[0] else names[0] + ['.'] + Joined(names[1..])
  }

  lemma {:induction false} SplitAtDot(a: string, b: string)
    requires '.' !in a
    ensures SplitOnce(a + ['.'] + b) == (a, Some(b))
  {
    var path := a + ['.'] + b;
    if a == [] {
      assert path[0] == '.' && path[1..] == b;
    } else {
      assert path[0] == a[0] && path[1..] == a[1..] + ['.'] + b;
      SplitAtDot(a[1..], b);
      assert [a[0]] + a[1..] == a;
    }
  }

  lemma {:induction false} ValuePathFollows(v: Value, names: seq<string>)
    requires names != [] && forall i :: 0 <= i < |names| ==> '.' !in names[i]
    ensures ValuePath(v, Joined(names)) == Follow(v, names)
    decreases |names|
  {
    if |names| == 1 {
      if v.Object? && names[0] in v.fields {
        assert Follow(v.fields[names[0]], names[1..]) == Some(v.fields[names[0]]);
      }
    } else {
      SplitAtDot(names[0], Joined(names[1..]));
      if v.Object? && names[0] in v.fields {
        ValuePathFollows(v.fields[names[0]], names[1..]);
      }
    }
  }

  /** A dotted path finds what following its names through nested objects finds. */
  lemma PathFollowsNames(d: Document, names: seq<string>)
    requires names != [] && forall i :: 0 <= i < |names| ==> '.' !in names[i]
    ensures GetPath(d, Joined(names)) == Follow(Object(d), names)
  {
    hide ValuePath, Follow;
    ValuePathFollows(Object(d), names);
    PathIsValuePath(d, Joined(names));
  }

  lemma PathIsValuePath(d: Document, path: string)
    ensures GetPath(d, path) == ValuePath(Object(d), path)
  {
  }
}
