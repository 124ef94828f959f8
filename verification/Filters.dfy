/** Filter evaluation (crates/auradb-query/src/eval.rs). */
module Filters {
  import opened Wrappers
  import opened Values
  import Analyzer

  /** What evaluation takes from outside: the integer-to-float conversion and the character tables. */
  datatype Env = Env(asFloat: int -> real, ct: Analyzer.CharTable)

  datatype CompareOp = Eq | Ne | Lt | Lte | Gt | Gte | In

  datatype Filter =
    | And(filters: seq<Filter>)
    | Or(filters: seq<Filter>)
    | Not(filter: Filter)
    | Compare(field: string, op: CompareOp, value: Value)
    | Contains(field: string, substring: string)
    | Exists(field: string)
    | ContainsText(field: string, query: string)

  datatype Record = Record(id: RecordId, fields: Document)

  datatype Ordering = Less | Equal | Greater

  // ---- equality ----

  function AsF64(env: Env, v: Value): Option<Float64> {
    match v
    case Int(i) => Some(Finite(env.asFloat(i)))
    case Float(f) => Some(f)
    case _ => None
  }

  predicate IsNumeric(v: Value) {
    v.Int? || v.Float?
  }

  /** Whether a value holds a NaN anywhere, which no value equals. */
  predicate HasNaN(v: Value) {
    match v
    case Float(f) => f.NaN?
    case Vector(v) => exists k :: 0 <= k < |v| && v[k].NaN?
    case Array(items) => exists k :: 0 <= k < |items| && HasNaN(items[k])
    case Object(fields) => exists k :: k in fields && HasNaN(fields[k])
    case _ => false
  }

  /** `values_equal`: equality with int/float and timestamp/int coercion. */
  predicate ValuesEqual(env: Env, a: Value, b: Value) {
    if IsNumeric(a) && IsNumeric(b) then
      var x, y := AsF64(env, a).value, AsF64(env, b).value;
      x == y && !x.NaN?
    else if a.Timestamp? && b.Int? then a.ms == b.i
    else if a.Int? && b.Timestamp? then a.i == b.ms
    else a == b && !HasNaN(a)
  }

  // ---- order ----

  function CompareInts(a: int, b: int): Ordering {
    if a < b then Less else if a == b then Equal else Greater
  }

  function CompareReals(a: real, b: real): Ordering {
    if a < b then Less else if a == b then Equal else Greater
  }

  function FloatRank(f: Float64): int {
    match f case NegInf => -1 case PosInf => 1 case _ => 0
  }

  function CompareFloats(a: Float64, b: Float64): Option<Ordering> {
    if a.NaN? || b.NaN? then None
    else if a.Finite? && b.Finite? then Some(CompareReals(a.value, b.value))
    else Some(CompareInts(FloatRank(a), FloatRank(b)))
  }

  function CompareText(a: string, b: string): Ordering {
    if a == [] then (if b == [] then Equal else Less)
    else if b == [] then Greater
    else if a[0] != b[0] then (if a[0] < b[0] then Less else Greater)
    else CompareText(a[1..], b[1..])
  }

  function CompareBools(a: bool, b: bool): Ordering {
    if a == b then Equal else if b then Less else Greater
  }

  /** `order`: comparable pairs only. */
  function Order(env: Env, a: Value, b: Value): Option<Ordering> {
    if IsNumeric(a) && IsNumeric(b) then CompareFloats(AsF64(env, a).value, AsF64(env, b).value)
    else match (a, b)
      case (Timestamp(x), Timestamp(y)) => Some(CompareInts(x, y))
      case (Timestamp(x), Int(y)) => Some(CompareInts(x, y))
      case (Int(x), Timestamp(y)) => Some(CompareInts(x, y))
      case (Text(x), Text(y)) => Some(CompareText(x, y))
      case (Bool(x), Bool(y)) => Some(CompareBools(x, y))
      case (Null, Null) => Some(Equal)
      case _ => None
  }

  // ---- evaluation ----

  predicate CompareValues(env: Env, actual: Value, op: CompareOp, expected: Value) {
    match op
    case Eq => ValuesEqual(env, actual, expected)
    case Ne => !ValuesEqual(env, actual, expected)
    case In => expected.Array? && exists k :: 0 <= k < |expected.items| && ValuesEqual(env, actual, expected.items[k])
    case Lt => Order(env, actual, expected) == Some(Less)
    case Lte => Order(env, actual, expected) in {Some(Less), Some(Equal)}
    case Gt => Order(env, actual, expected) == Some(Greater)
    case Gte => Order(env, actual, expected) in {Some(Greater), Some(Equal)}
  }

  predicate IsSubstring(sub: string, s: string) {
    sub <= s || (s != [] && IsSubstring(sub, s[1..]))
  }

  /** Every token of the query, of which there is at least one, occurs in the text. */
  predicate TextMatches(ct: Analyzer.CharTable, text: string, query: string) {
    var terms := Analyzer.Tokenize(ct, query);
    terms != [] && forall t :: t in terms ==> t in Analyzer.Tokenize(ct, text)
  }

  /** `matches`. */
  predicate Matches(env: Env, doc: Document, filter: Filter) {
    match filter
    case And(filters) => forall k :: 0 <= k < |filters| ==> Matches(env, doc, filters[k])
    case Or(filters) => exists k :: 0 <= k < |filters| && Matches(env, doc, filters[k])
    case Not(f) => !Matches(env, doc, f)
    case Exists(field) => GetPath(doc, field).Some? && !GetPath(doc, field).value.Null?
    case Contains(field, sub) =>
      GetPath(doc, field).Some? && GetPath(doc, field).value.Text? && IsSubstring(sub, GetPath(doc, field).value.s)
    case Compare(field, op, value) =>
      GetPath(doc, field).Some? && CompareValues(env, GetPath(doc, field).value, op, value)
    case ContainsText(field, query) =>
      GetPath(doc, field).Some? && GetPath(doc, field).value.Text? && TextMatches(env.ct, GetPath(doc, field).value.s, query)
  }

  // ---- where equality and index keys part ----

  /** Pairs that `values_equal` may equate although their index keys differ. */
  predicate Coerced(a: Value, b: Value) {
    || (a.Int? && b.Float?) || (a.Float? && b.Int?)
    || (a.Timestamp? && b.Int?) || (a.Int? && b.Timestamp?)
    || (a.Int? && b.Int? && a.i != b.i)
  }

  /** Equal values have equal index keys except across a coercion, where they never do. */
  lemma KeyMismatch(env: Env, a: Value, b: Value)
    requires ValuesEqual(env, a, b)
    ensures IndexKey(a) != IndexKey(b) <==> Coerced(a, b)
  {
    if (a.Timestamp? && b.Int?) || (a.Int? && b.Timestamp?) {
      assert ToJson(a).JObject? != ToJson(b).JObject?;
    }
  }
}
