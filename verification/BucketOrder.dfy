/** The bucket order of facets and groups (crates/auradb-query/src/aggregate.rs): descending
    count, then ascending value, then type name and key. */
module BucketOrder {
  import opened Sequences
  import opened Wrappers
  import opened Values
  import opened Filters
  import opened Comparisons
  import opened Facets
  import opened Sorting

  /** A facet bucket, or a group with its metrics. */
  datatype Bucket = Bucket(value: Value, count: nat, metrics: seq<Value>)

  function TypeName(v: Value): string {
    match v
    case Null => "null"
    case Bool(_) => "bool"
    case Int(_) => "int"
    case Float(_) => "float"
    case Text(_) => "string"
    case Bytes(_) => "bytes"
    case Timestamp(_) => "timestamp"
    case Vector(_) => "vector"
    case Array(_) => "array"
    case Object(_) => "document"
  }

  /** Values that do not compare fall back to their type name and the text of their key. */
  function CompareKeys(env: Env, keyText: ScalarKey -> string, a: Value, b: Value): Ordering {
    match Order(env, a, b)
    case Some(o) => o
    case None =>
      var names := CompareText(TypeName(a), TypeName(b));
      if names != Equal then names
      else match (ScalarKeyOf(a), ScalarKeyOf(b))
        case (Keyed(x), Keyed(y)) => CompareText(keyText(x), keyText(y))
        case (Keyed(_), _) => Greater
        case (_, Keyed(_)) => Less
        case _ => Equal
  }

  /** `order_buckets` */
  function CompareBuckets(env: Env, keyText: ScalarKey -> string, a: Bucket, b: Bucket): Ordering {
    if a.count > b.count then Less
    else if a.count < b.count then Greater
    else CompareKeys(env, keyText, a.value, b.value)
  }

  function BucketLe(env: Env, keyText: ScalarKey -> string): (Bucket, Bucket) -> bool {
    (a, b) => CompareBuckets(env, keyText, a, b) != Greater
  }

  // ---- when it is a total order ----

  predicate IsScalar(v: Value) {
    v.Bool? || v.Int? || v.Float? || v.Text? || v.Timestamp?
  }

  /** A number with a place among the floats. */
  predicate IsNumber(v: Value) {
    v.Int? || (v.Float? && !v.f.NaN?)
  }

  predicate IsNaN(v: Value) {
    v.Float? && v.f.NaN?
  }

  function Kind(v: Value): int {
    match v case Bool(_) => 0 case Int(_) => 1 case Float(_) => 1 case Text(_) => 2 case _ => 3
  }

  function FloatOf(env: Env, v: Value): Float64
    requires IsNumeric(v)
  {
    AsF64(env, v).value
  }

  predicate Below(a: Float64, b: Float64) {
    CompareFloats(a, b) == Some(Less)
  }

  /** The key text puts float `v` before the NaN `nan`. */
  predicate TextBefore(keyText: ScalarKey -> string, v: Value, nan: Value)
    requires v.Float? && nan.Float?
  {
    CompareText(keyText(KFloat(v.f)), keyText(KFloat(nan.f))) == Less
  }

  /** Two different values do not tie: no two numbers with one float, no integer that is a timestamp's
      number, no float with the key text of a NaN. */
  predicate PairApart(env: Env, keyText: ScalarKey -> string, v: Value, w: Value) {
    && (IsNumber(v) && IsNumber(w) && FloatOf(env, v) == FloatOf(env, w) ==> v == w)
    && (v.Int? && w.Timestamp? ==> v.i != w.ms)
    && (IsNaN(v) && w.Float? && !w.f.NaN? ==> keyText(KFloat(v.f)) != keyText(KFloat(w.f)))
  }

  /** No circle through a timestamp below an integer: there is no text, every float lies below the
      integer, and every integer with a larger float is above the timestamp too. */
  predicate TimestampFits(env: Env, v: Value, t: Value, w: Value) {
    v.Int? && t.Timestamp? && t.ms < v.i ==>
      && !w.Text?
      && (w.Float? && !w.f.NaN? ==> Below(w.f, FloatOf(env, v)))
      && (w.Int? && env.asFloat(v.i) < env.asFloat(w.i) ==> t.ms < w.i)
  }

  /** No circle through a NaN: a float whose key text comes first lies below every integer, and so does
      the text of every float below it. */
  predicate NaNFits(env: Env, keyText: ScalarKey -> string, nan: Value, v: Value, w: Value) {
    IsNaN(nan) && v.Float? && !v.f.NaN? && TextBefore(keyText, v, nan) ==>
      && (w.Int? ==> Below(v.f, FloatOf(env, w)))
      && (w.Float? && Below(w.f, v.f) ==> TextBefore(keyText, w, nan))
  }

  /** The values of equal-count buckets neither tie nor run in a circle. */
  ghost predicate Sortable(env: Env, keyText: ScalarKey -> string, buckets: set<Bucket>) {
    && (forall x, y :: x in buckets && y in buckets && x.count == y.count ==> PairApart(env, keyText, x.value, y.value))
    && (forall x, y, z :: x in buckets && y in buckets && z in buckets && x.count == y.count == z.count ==>
          TimestampFits(env, x.value, y.value, z.value) && NaNFits(env, keyText, x.value, y.value, z.value))
  }

  /** Scalar buckets, one per value. */
  ghost predicate OnePerScalar(buckets: set<Bucket>) {
    && (forall b :: b in buckets ==> IsScalar(b.value))
    && (forall a, b :: a in buckets && b in buckets && a.value == b.value ==> a == b)
  }

  lemma {:induction false} TextIsTransitive(a: string, b: string, c: string)
    requires CompareText(a, b) != Greater && CompareText(b, c) != Greater
    ensures CompareText(a, c) != Greater
  {
    if a != [] && b != [] && c != [] && a[0] == b[0] && b[0] == c[0] {
      TextIsTransitive(a[1..], b[1..], c[1..]);
    }
  }

  /** Where the type names stand among each other. */
  function NameRank(v: Value): int {
    match v case Bool(_) => 0 case Float(_) => 1 case Int(_) => 2 case Text(_) => 3 case _ => 4
  }

  lemma NamesAreRanked(a: Value, b: Value)
    requires IsScalar(a) && IsScalar(b)
    ensures CompareText(TypeName(a), TypeName(b)) == CompareInts(NameRank(a), NameRank(b))
  {
    assert "bool"[0] == 'b' && "int"[0] == 'i' && "float"[0] == 'f' && "string"[0] == 's' && "timestamp"[0] == 't';
    TextIsOrdered(TypeName(a), TypeName(b));
  }

  /** What decides between two scalars: their order where they have one, else their type names, and
      between a float and a NaN the key texts. */
  lemma Decides(env: Env, keyText: ScalarKey -> string, a: Value, b: Value)
    requires IsScalar(a) && IsScalar(b)
    ensures var o := CompareKeys(env, keyText, a, b);
            if Order(env, a, b).Some? then o == Order(env, a, b).value
            else if NameRank(a) != NameRank(b) then o == CompareInts(NameRank(a), NameRank(b))
            else a.Float? && b.Float? && o == CompareText(keyText(KFloat(a.f)), keyText(KFloat(b.f)))
  {
    hide CompareText;
    NamesAreRanked(a, b);
  }

  /** Comparing both ways gives opposite answers, and a tie only where two values are not apart. */
  lemma KeysOpposite(env: Env, keyText: ScalarKey -> string, a: Value, b: Value)
    requires IsScalar(a) && IsScalar(b)
    ensures CompareKeys(env, keyText, a, b) == Less <==> CompareKeys(env, keyText, b, a) == Greater
    ensures CompareKeys(env, keyText, a, b) == Equal <==> CompareKeys(env, keyText, b, a) == Equal
    ensures CompareKeys(env, keyText, a, a) == Equal
    ensures PairApart(env, keyText, a, b) && PairApart(env, keyText, b, a) && CompareKeys(env, keyText, a, b) == Equal ==> a == b
    ensures CompareKeys(env, keyText, a, b) != Equal ==> PairApart(env, keyText, a, b)
  {
    hide CompareKeys, CompareText;
    Decides(env, keyText, a, b);
    Decides(env, keyText, b, a);
    Decides(env, keyText, a, a);
    if a.Text? && b.Text? {
      TextIsOrdered(a.s, b.s);
      TextIsOrdered(b.s, a.s);
    }
    if a.Text? {
      TextIsOrdered(a.s, a.s);
    }
    if a.Float? {
      TextIsOrdered(keyText(KFloat(a.f)), keyText(KFloat(a.f)));
    }
    if a.Float? && b.Float? {
      TextIsOrdered(keyText(KFloat(a.f)), keyText(KFloat(b.f)));
      TextIsOrdered(keyText(KFloat(b.f)), keyText(KFloat(a.f)));
    }
  }

  predicate Fits(env: Env, keyText: ScalarKey -> string, a: Value, b: Value, c: Value) {
    TimestampFits(env, a, b, c) && NaNFits(env, keyText, a, b, c)
  }

  /** Three values that fit in every order. */
  predicate AllFit(env: Env, keyText: ScalarKey -> string, a: Value, b: Value, c: Value) {
    && Fits(env, keyText, a, b, c) && Fits(env, keyText, a, c, b) && Fits(env, keyText, b, a, c)
    && Fits(env, keyText, b, c, a) && Fits(env, keyText, c, a, b) && Fits(env, keyText, c, b, a)
  }

  predicate Precedes(env: Env, keyText: ScalarKey -> string, a: Value, b: Value) {
    CompareKeys(env, keyText, a, b) == Less
  }

  /** Values that fit never run in a circle. */
  lemma NoCircle(env: Env, keyText: ScalarKey -> string, a: Value, b: Value, c: Value)
    requires IsScalar(a) && IsScalar(b) && IsScalar(c) && AllFit(env, keyText, a, b, c)
    requires Precedes(env, keyText, a, b) && Precedes(env, keyText, b, c)
    ensures !Precedes(env, keyText, c, a)
  {
    hide CompareKeys, CompareText, AllFit;
    Decides(env, keyText, a, b);
    Decides(env, keyText, b, c);
    Decides(env, keyText, c, a);
    if a.Text? && b.Text? && c.Text? {
      TextIsTransitive(a.s, b.s, c.s);
      TextIsOrdered(a.s, c.s);
      TextIsOrdered(c.s, a.s);
    } else if a.Float? && b.Float? && c.Float? {
      FloatsRunStraight(env, keyText, a, b, c);
    } else {
      MixedRunStraight(env, keyText, a, b, c);
    }
  }

  lemma FloatsRunStraight(env: Env, keyText: ScalarKey -> string, a: Value, b: Value, c: Value)
    requires a.Float? && b.Float? && c.Float? && AllFit(env, keyText, a, b, c)
    requires Precedes(env, keyText, a, b) && Precedes(env, keyText, b, c)
    ensures !Precedes(env, keyText, c, a)
  {
    hide CompareKeys, CompareText;
    Decides(env, keyText, a, b);
    Decides(env, keyText, b, c);
    Decides(env, keyText, c, a);
    TextIsOrdered(keyText(KFloat(a.f)), keyText(KFloat(b.f)));
    TextIsOrdered(keyText(KFloat(b.f)), keyText(KFloat(c.f)));
    TextIsOrdered(keyText(KFloat(c.f)), keyText(KFloat(a.f)));
  }

  lemma MixedRunStraight(env: Env, keyText: ScalarKey -> string, a: Value, b: Value, c: Value)
    requires IsScalar(a) && IsScalar(b) && IsScalar(c) && AllFit(env, keyText, a, b, c)
    requires !(a.Text? && b.Text? && c.Text?) && !(a.Float? && b.Float? && c.Float?)
    requires Precedes(env, keyText, a, b) && Precedes(env, keyText, b, c)
    ensures !Precedes(env, keyText, c, a)
  {
    hide CompareKeys, CompareText;
    Decides(env, keyText, a, b);
    Decides(env, keyText, b, c);
    Decides(env, keyText, c, a);
  }

  ghost predicate Circle(env: Env, keyText: ScalarKey -> string, a: Value, b: Value, c: Value) {
    Precedes(env, keyText, a, b) && Precedes(env, keyText, b, c) && Precedes(env, keyText, c, a)
  }

  /** Values that do not fit tie or run in a circle. */
  lemma MisfitTurns(env: Env, keyText: ScalarKey -> string, a: Value, b: Value, c: Value)
    requires IsScalar(a) && IsScalar(b) && IsScalar(c) && !Fits(env, keyText, a, b, c)
    requires a != c ==> CompareKeys(env, keyText, a, c) != Equal
    requires b != c ==> CompareKeys(env, keyText, b, c) != Equal
    ensures Circle(env, keyText, a, c, b) || Circle(env, keyText, c, b, a)
  {
    hide CompareKeys, TimestampFits, NaNFits, Circle;
    if !TimestampFits(env, a, b, c) {
      TimestampTurns(env, keyText, a, b, c);
    } else {
      NaNTurns(env, keyText, a, b, c);
    }
  }

  lemma TimestampTurns(env: Env, keyText: ScalarKey -> string, a: Value, b: Value, c: Value)
    requires IsScalar(a) && IsScalar(b) && IsScalar(c) && !TimestampFits(env, a, b, c)
    requires a != c ==> CompareKeys(env, keyText, a, c) != Equal
    requires b != c ==> CompareKeys(env, keyText, b, c) != Equal
    ensures Circle(env, keyText, a, c, b) || Circle(env, keyText, c, b, a)
  {
    hide CompareKeys, CompareText;
    Decides(env, keyText, a, b);
    Decides(env, keyText, b, a);
    KeysOpposite(env, keyText, a, c);
    KeysOpposite(env, keyText, b, c);
    Decides(env, keyText, a, c);
    Decides(env, keyText, b, c);
  }

  lemma NaNTurns(env: Env, keyText: ScalarKey -> string, a: Value, b: Value, c: Value)
    requires IsScalar(a) && IsScalar(b) && IsScalar(c) && !NaNFits(env, keyText, a, b, c)
    requires a != c ==> CompareKeys(env, keyText, a, c) != Equal
    requires b != c ==> CompareKeys(env, keyText, b, c) != Equal
    ensures Circle(env, keyText, a, c, b) || Circle(env, keyText, c, b, a)
  {
    hide CompareKeys, CompareText;
    Decides(env, keyText, a, b);
    Decides(env, keyText, b, a);
    Decides(env, keyText, a, c);
    Decides(env, keyText, b, c);
    KeysOpposite(env, keyText, a, c);
    KeysOpposite(env, keyText, b, c);
    if a.Float? && b.Float? {
      TextIsOrdered(keyText(KFloat(a.f)), keyText(KFloat(b.f)));
    }
    if a.Float? && c.Float? {
      TextIsOrdered(keyText(KFloat(a.f)), keyText(KFloat(c.f)));
      TextIsOrdered(keyText(KFloat(c.f)), keyText(KFloat(a.f)));
    }
  }

  // ---- the exact condition ----

  lemma SortableOrders(env: Env, keyText: ScalarKey -> string, buckets: set<Bucket>)
    requires OnePerScalar(buckets) && Sortable(env, keyText, buckets)
    ensures TotalOn(BucketLe(env, keyText), buckets) && StrictOn(BucketLe(env, keyText), buckets)
  {
    hide CompareKeys, PairApart, TimestampFits, NaNFits;
    var le := BucketLe(env, keyText);
    forall x, y | x in buckets && y in buckets ensures (le(x, y) || le(y, x)) && (le(x, y) && le(y, x) ==> x == y) {
      KeysOpposite(env, keyText, x.value, y.value);
    }
    forall x, y, z | x in buckets && y in buckets && z in buckets && le(x, y) && le(y, z) ensures le(x, z) {
      if x.count == y.count == z.count && x != y && y != z {
        KeysOpposite(env, keyText, x.value, y.value);
        KeysOpposite(env, keyText, y.value, z.value);
        KeysOpposite(env, keyText, x.value, z.value);
        NoCircle(env, keyText, x.value, y.value, z.value);
      }
    }
  }

  lemma OrderedIsSortable(env: Env, keyText: ScalarKey -> string, buckets: set<Bucket>)
    requires OnePerScalar(buckets)
    requires TotalOn(BucketLe(env, keyText), buckets) && StrictOn(BucketLe(env, keyText), buckets)
    ensures Sortable(env, keyText, buckets)
  {
    hide CompareKeys, PairApart, TimestampFits, NaNFits;
    var le := BucketLe(env, keyText);
    forall x, y | x in buckets && y in buckets && x.count == y.count ensures PairApart(env, keyText, x.value, y.value) {
      KeysOpposite(env, keyText, x.value, y.value);
      SelfApart(env, keyText, x.value);
      assert x != y ==> !(le(x, y) && le(y, x));
    }
    forall x, y, z | x in buckets && y in buckets && z in buckets && x.count == y.count == z.count
      ensures Fits(env, keyText, x.value, y.value, z.value)
    {
      KeysOpposite(env, keyText, x.value, z.value);
      KeysOpposite(env, keyText, y.value, z.value);
      KeysOpposite(env, keyText, x.value, y.value);
      assert x != z ==> !(le(x, z) && le(z, x));
      assert y != z ==> !(le(y, z) && le(z, y));
      assert le(x, z) && le(z, y) ==> le(x, y);
      assert le(z, y) && le(y, x) ==> le(z, x);
      if !Fits(env, keyText, x.value, y.value, z.value) {
        MisfitTurns(env, keyText, x.value, y.value, z.value);
      }
    }
  }

  lemma SelfApart(env: Env, keyText: ScalarKey -> string, v: Value)
    ensures PairApart(env, keyText, v, v)
  {
  }

  /** The comparator is a total order without ties on a set of scalar buckets if and only if the values
      of equal-count buckets are apart and fit together. */
  lemma BucketsAreOrdered(env: Env, keyText: ScalarKey -> string, buckets: set<Bucket>)
    requires OnePerScalar(buckets)
    ensures TotalOn(BucketLe(env, keyText), buckets) && StrictOn(BucketLe(env, keyText), buckets)
            <==> Sortable(env, keyText, buckets)
  {
    hide Sortable, OnePerScalar, TotalOn, StrictOn, BucketLe;
    if Sortable(env, keyText, buckets) {
      SortableOrders(env, keyText, buckets);
    }
    if TotalOn(BucketLe(env, keyText), buckets) && StrictOn(BucketLe(env, keyText), buckets) {
      OrderedIsSortable(env, keyText, buckets);
    }
  }

  predicate SameFloat(env: Env, v: Value, w: Value) {
    IsNumeric(v) && IsNumeric(w) && FloatOf(env, v) == FloatOf(env, w)
  }

  /** Values of one kind in which different values order strictly: booleans, texts, timestamps, or
      numbers with different floats. */
  lemma OneKindSorts(env: Env, keyText: ScalarKey -> string, buckets: set<Bucket>, kind: int)
    requires forall b :: b in buckets ==> IsScalar(b.value) && !IsNaN(b.value) && Kind(b.value) == kind
    requires forall x, y :: x in buckets && y in buckets && SameFloat(env, x.value, y.value) ==> x.value == y.value
    ensures Sortable(env, keyText, buckets)
  {
    hide CompareFloats, TextBefore;
    forall x, y | x in buckets && y in buckets && x.count == y.count ensures PairApart(env, keyText, x.value, y.value) {
    }
    forall x, y, z | x in buckets && y in buckets && z in buckets && x.count == y.count == z.count
      ensures TimestampFits(env, x.value, y.value, z.value) && NaNFits(env, keyText, x.value, y.value, z.value)
    {
      assert Kind(x.value) == Kind(y.value) == kind;
    }
  }

  /** Integers, timestamps and text together can run in a circle, so nothing sorts them. */
  lemma ComparatorCanCycle(env: Env, keyText: ScalarKey -> string)
    ensures var a, b, c := Bucket(Int(5), 1, []), Bucket(Text("x"), 1, []), Bucket(Timestamp(1), 1, []);
            && CompareBuckets(env, keyText, a, b) == Less
            && CompareBuckets(env, keyText, b, c) == Less
            && CompareBuckets(env, keyText, c, a) == Less
  {
    NamesAreRanked(Int(5), Text("x"));
    NamesAreRanked(Text("x"), Timestamp(1));
  }

  // ---- ranking ----

  /** `out` is the first `limit` of the buckets in some order. */
  ghost predicate SomeOf(buckets: set<Bucket>, limit: nat, out: seq<Bucket>) {
    exists all :: multiset(all) == multiset(buckets) && out == Take(all, limit)
  }

  lemma SomeAreOf(buckets: set<Bucket>, limit: nat, out: seq<Bucket>, b: Bucket)
    requires SomeOf(buckets, limit, out) && b in out
    ensures b in buckets
  {
    var all :| multiset(all) == multiset(buckets) && out == Take(all, limit);
    assert b in multiset(all);
  }

  /** `out` is the first `limit` of the buckets in bucket order. */
  ghost predicate RankedTop(env: Env, keyText: ScalarKey -> string, buckets: set<Bucket>, limit: nat, out: seq<Bucket>) {
    exists all :: multiset(all) == multiset(buckets) && SortedBy(BucketLe(env, keyText), all) && out == Take(all, limit)
  }

  lemma RankedIsUnique(env: Env, keyText: ScalarKey -> string, buckets: set<Bucket>, limit: nat,
                       a: seq<Bucket>, b: seq<Bucket>)
    requires OnePerScalar(buckets) && Sortable(env, keyText, buckets)
    requires RankedTop(env, keyText, buckets, limit, a) && RankedTop(env, keyText, buckets, limit, b)
    ensures a == b
  {
    hide Sortable, OnePerScalar, BucketLe;
    var le := BucketLe(env, keyText);
    BucketsAreOrdered(env, keyText, buckets);
    var x :| multiset(x) == multiset(buckets) && SortedBy(le, x) && a == Take(x, limit);
    var y :| multiset(y) == multiset(buckets) && SortedBy(le, y) && b == Take(y, limit);
    forall e | e in Elements(x) ensures e in buckets {
      assert e in multiset(x);
    }
    SortedIsUnique(le, x, y, buckets);
  }

  // ---- what the ranking shows ----

  /** The order of values under one count: the smaller first where the two compare, else the type
      names alphabetically, and a float and a NaN by their key texts. */
  ghost predicate ValueFirst(env: Env, keyText: ScalarKey -> string, a: Value, b: Value) {
    if Comparable(a, b) then Under(env, a, b)
    else if TypeName(a) != TypeName(b) then TextUnder(TypeName(a), TypeName(b))
    else a.Float? && b.Float? && TextUnder(keyText(KFloat(a.f)), keyText(KFloat(b.f)))
  }

  /** `a` has the larger count, or the count of `b` and the earlier value. */
  ghost predicate ComesFirst(env: Env, keyText: ScalarKey -> string, a: Bucket, b: Bucket) {
    a.count >= b.count && (a.count == b.count ==> ValueFirst(env, keyText, a.value, b.value))
  }

  /** Counts never rise and equal counts go by value; what was cut off would have come after everything kept. */
  ghost predicate InBucketOrder(env: Env, keyText: ScalarKey -> string, buckets: set<Bucket>, out: seq<Bucket>) {
    && (forall i, j :: 0 <= i < j < |out| ==> ComesFirst(env, keyText, out[i], out[j]))
    && (forall i, b :: 0 <= i < |out| && b in buckets && b !in out ==> ComesFirst(env, keyText, out[i], b))
  }

  lemma FirstMeaning(env: Env, keyText: ScalarKey -> string, a: Value, b: Value)
    requires IsScalar(a) && IsScalar(b)
    ensures CompareKeys(env, keyText, a, b) == Less <==> ValueFirst(env, keyText, a, b)
  {
    hide CompareText, TextUnder, Under, Comparable, Order;
    OrderMeaning(env, a, b);
    Decides(env, keyText, a, b);
    NamesAreRanked(a, b);
    TextOrderIsFirstDifference(TypeName(a), TypeName(b));
    TextIsOrdered(TypeName(a), TypeName(b));
    if a.Float? && b.Float? {
      TextOrderIsFirstDifference(keyText(KFloat(a.f)), keyText(KFloat(b.f)));
    }
  }

  /** Of two different buckets of a sortable set, the one sorted first has the larger count, or the
      same count and the earlier value. */
  lemma SortedFirst(env: Env, keyText: ScalarKey -> string, buckets: set<Bucket>, a: Bucket, b: Bucket)
    requires OnePerScalar(buckets) && Sortable(env, keyText, buckets) && a in buckets && b in buckets && a != b
    requires BucketLe(env, keyText)(a, b)
    ensures ComesFirst(env, keyText, a, b)
  {
    hide CompareKeys, PairApart, TimestampFits, NaNFits, ValueFirst;
    FirstMeaning(env, keyText, a.value, b.value);
    KeysOpposite(env, keyText, a.value, b.value);
  }

  lemma ListedOnce(all: seq<Bucket>, buckets: set<Bucket>, i: int, j: int)
    requires multiset(all) == multiset(buckets) && 0 <= i < j < |all|
    ensures all[i] != all[j] && all[i] in buckets && all[j] in buckets
  {
    assert all == all[..j] + [all[j]] + all[j + 1..];
    assert multiset(all) == multiset(all[..j]) + multiset{all[j]} + multiset(all[j + 1..]);
    assert all[i] in all[..j] && all[i] in multiset(all[..j]) && multiset(buckets)[all[j]] <= 1;
    assert all[i] in multiset(all) && all[j] in multiset(all);
  }

  /** What a reader of the ranked buckets sees, without the comparator that sorted them. */
  lemma RankedReads(env: Env, keyText: ScalarKey -> string, buckets: set<Bucket>, limit: nat, out: seq<Bucket>)
    requires OnePerScalar(buckets) && Sortable(env, keyText, buckets) && RankedTop(env, keyText, buckets, limit, out)
    ensures InBucketOrder(env, keyText, buckets, out)
  {
    hide OnePerScalar, Sortable, BucketLe, ComesFirst;
    var le := BucketLe(env, keyText);
    var all :| multiset(all) == multiset(buckets) && SortedBy(le, all) && out == Take(all, limit);
    forall i, j | 0 <= i < j < |all| ensures ComesFirst(env, keyText, all[i], all[j]) {
      ListedOnce(all, buckets, i, j);
      SortedFirst(env, keyText, buckets, all[i], all[j]);
    }
    forall i, b | 0 <= i < |out| && b in buckets && b !in out ensures ComesFirst(env, keyText, out[i], b) {
      assert b in multiset(all);
      var j :| 0 <= j < |all| && all[j] == b;
      assert out[i] == all[i];
    }
  }

  /** Sorting and truncating the buckets, in whatever order the hash map yields them. */
  method RankBuckets(env: Env, keyText: ScalarKey -> string, listed: seq<Bucket>, ghost buckets: set<Bucket>, limit: nat)
    returns (out: seq<Bucket>)
    requires multiset(listed) == multiset(buckets)
    ensures |out| == if limit < |buckets| then limit else |buckets|
    ensures SomeOf(buckets, limit, out)
    ensures OnePerScalar(buckets) && Sortable(env, keyText, buckets) ==>
              RankedTop(env, keyText, buckets, limit, out) && InBucketOrder(env, keyText, buckets, out)
  {
    hide Sortable, OnePerScalar, BucketLe, SortBy, SortedBy, InBucketOrder;
    var sorted := SortBy(BucketLe(env, keyText), listed);
    SortPermutes(BucketLe(env, keyText), listed);
    assert |sorted| == |multiset(sorted)| == |multiset(buckets)| == |buckets|;
    if OnePerScalar(buckets) && Sortable(env, keyText, buckets) {
      BucketsAreOrdered(env, keyText, buckets);
      forall e | e in Elements(listed) ensures e in buckets {
        assert e in multiset(listed);
      }
      SortSorted(BucketLe(env, keyText), listed, buckets);
    }
    out := Take(sorted, limit);
    if OnePerScalar(buckets) && Sortable(env, keyText, buckets) {
      RankedReads(env, keyText, buckets, limit, out);
    }
  }

  // ---- what the buckets count ----

  /** One bucket for every scalar a record holds, with the number of records that hold it. */
  ghost predicate CountsOf(buckets: set<Bucket>, records: seq<Record>, field: string) {
    && OnePerScalar(buckets)
    && (forall b :: b in buckets ==> b.count == |Holding(records, field, b.value)| && b.count > 0)
    && (forall i :: 0 <= i < |records| && HoldsScalar(records[i], field) ==> HasBucket(buckets, GetPath(records[i].fields, field).value))
  }

  predicate HoldsScalar(r: Record, field: string) {
    GetPath(r.fields, field).Some? && IsScalar(GetPath(r.fields, field).value)
  }

  /** Holds something other than null that is no scalar. */
  predicate HoldsCompound(r: Record, field: string) {
    && GetPath(r.fields, field).Some?
    && !GetPath(r.fields, field).value.Null?
    && !IsScalar(GetPath(r.fields, field).value)
  }

  lemma CompoundsHaveNoKey(records: seq<Record>, field: string)
    ensures (exists i :: 0 <= i < |records| && KeyAt(records[i], field).NotScalar?)
       <==> (exists i :: 0 <= i < |records| && HoldsCompound(records[i], field))
  {
    hide GetPath;
    assert forall r :: KeyAt(r, field).NotScalar? <==> HoldsCompound(r, field);
  }

  ghost function KeyOfScalar(v: Value): (k: ScalarKey)
    requires IsScalar(v)
    ensures ValueOf(k) == v
  {
    ScalarKeyOf(v).key
  }

  ghost predicate HasBucket(buckets: set<Bucket>, v: Value) {
    exists b :: b in buckets && b.value == v
  }

  /** The buckets returned: each counts the records that hold its value, no value comes twice, and
      below the limit no scalar that a record holds is left out. */
  ghost predicate TellsCounts(records: seq<Record>, field: string, limit: nat, out: seq<Bucket>) {
    && (forall b :: b in out ==> IsScalar(b.value) && b.count == |Holding(records, field, b.value)| && b.count > 0)
    && (forall i, j :: 0 <= i < j < |out| ==> out[i].value != out[j].value)
    && (|out| < limit ==>
          forall i :: 0 <= i < |records| && HoldsScalar(records[i], field) ==>
                        HasBucket(Elements(out), GetPath(records[i].fields, field).value))
  }

  lemma SomeTellCounts(buckets: set<Bucket>, records: seq<Record>, field: string, limit: nat, out: seq<Bucket>)
    requires CountsOf(buckets, records, field) && SomeOf(buckets, limit, out)
    ensures TellsCounts(records, field, limit, out)
  {
    hide GetPath, Holding, IsScalar;
    var all :| multiset(all) == multiset(buckets) && out == Take(all, limit);
    forall b ensures b in all <==> b in buckets {
      assert b in multiset(all) <==> b in multiset(buckets);
    }
    forall i, j | 0 <= i < j < |out| ensures out[i].value != out[j].value {
      ListedOnce(all, buckets, i, j);
    }
    if |out| < limit {
      assert out == all;
      assert Elements(out) == buckets;
    }
  }
}
