/** What the range operators mean (crates/auradb-query/src/eval.rs), told from the values alone: numbers
    as reals between the infinities, times as integers, texts by their first difference. */
module Comparisons {
  import opened Wrappers
  import opened Values
  import opened Filters

  ghost predicate FloatUnder(x: Float64, y: Float64) {
    match (x, y)
    case (Finite(a), Finite(b)) => a < b
    case (NegInf, Finite(_)) => true
    case (NegInf, PosInf) => true
    case (Finite(_), PosInf) => true
    case _ => false
  }

  /** The texts agree up to place `k`, where `a` has ended or has the smaller character. */
  ghost predicate PartsBelow(a: string, b: string, k: nat) {
    && k <= |a| && k < |b| && a[..k] == b[..k]
    && (k == |a| || a[k] < b[k])
  }

  ghost predicate TextUnder(a: string, b: string) {
    exists k: nat :: PartsBelow(a, b, k)
  }

  /** Milliseconds since the epoch: a timestamp, or an integer compared with one. */
  ghost function Instant(v: Value): int
    requires v.Timestamp? || v.Int?
  {
    if v.Timestamp? then v.ms else v.i
  }

  ghost predicate Instants(a: Value, b: Value) {
    (a.Timestamp? && (b.Timestamp? || b.Int?)) || (a.Int? && b.Timestamp?)
  }

  ghost predicate Numbers(a: Value, b: Value) {
    IsNumeric(a) && IsNumeric(b) && a != Float(NaN) && b != Float(NaN)
  }

  /** A number as a float: an integer by the conversion, a float itself. */
  ghost function FloatValue(env: Env, v: Value): Float64
    requires IsNumeric(v)
  {
    if v.Int? then Finite(env.asFloat(v.i)) else v.f
  }

  /** The pairs that have an order at all. */
  ghost predicate Comparable(a: Value, b: Value) {
    Numbers(a, b) || Instants(a, b) || (a.Text? && b.Text?) || (a.Bool? && b.Bool?) || (a.Null? && b.Null?)
  }

  /** `a` is the smaller of a comparable pair. */
  ghost predicate Under(env: Env, a: Value, b: Value) {
    || (Numbers(a, b) && FloatUnder(FloatValue(env, a), FloatValue(env, b)))
    || (Instants(a, b) && Instant(a) < Instant(b))
    || (a.Text? && b.Text? && TextUnder(a.s, b.s))
    || (a.Bool? && b.Bool? && !a.b && b.b)
  }

  predicate IsRange(op: CompareOp) {
    op.Lt? || op.Lte? || op.Gt? || op.Gte?
  }

  /** The stored value stands in the named relation to the bound. */
  ghost predicate Stands(env: Env, stored: Value, op: CompareOp, bound: Value)
    requires IsRange(op)
  {
    match op
    case Lt => Under(env, stored, bound)
    case Lte => Comparable(stored, bound) && !Under(env, bound, stored)
    case Gt => Under(env, bound, stored)
    case Gte => Comparable(stored, bound) && !Under(env, stored, bound)
  }

  // ---- texts ----

  lemma {:induction false} TextOrderIsFirstDifference(a: string, b: string)
    ensures CompareText(a, b) == Less <==> TextUnder(a, b)
    ensures CompareText(a, b) == Greater <==> TextUnder(b, a)
  {
    if a == [] || b == [] || a[0] != b[0] {
      DecidedAtOnce(a, b);
      DecidedAtOnce(b, a);
    } else {
      TextOrderIsFirstDifference(a[1..], b[1..]);
      DecidedLater(a, b);
      DecidedLater(b, a);
    }
  }

  lemma DecidedAtOnce(a: string, b: string)
    requires a == [] || b == [] || a[0] != b[0]
    ensures TextUnder(a, b) <==> PartsBelow(a, b, 0)
  {
    forall k: nat | PartsBelow(a, b, k) ensures k == 0 {
      assert a[..k] == b[..k];
    }
  }

  lemma DecidedLater(a: string, b: string)
    requires a != [] && b != [] && a[0] == b[0]
    ensures TextUnder(a, b) <==> TextUnder(a[1..], b[1..])
  {
    forall k: nat | PartsBelow(a, b, k) ensures k > 0 && PartsBelow(a[1..], b[1..], k - 1) {
      assert a[1..][..k - 1] == a[..k][1..] && b[1..][..k - 1] == b[..k][1..];
    }
    forall k: nat | PartsBelow(a[1..], b[1..], k) ensures PartsBelow(a, b, k + 1) {
      assert a[..k + 1] == [a[0]] + a[1..][..k] && b[..k + 1] == [b[0]] + b[1..][..k];
    }
  }

  lemma {:induction false} TextIsOrdered(a: string, b: string)
    ensures CompareText(a, b) == Equal <==> a == b
    ensures CompareText(a, b) == Less <==> CompareText(b, a) == Greater
  {
    if a != [] && b != [] && a[0] == b[0] {
      TextIsOrdered(a[1..], b[1..]);
      assert a == [a[0]] + a[1..] && b == [b[0]] + b[1..];
    }
  }

  // ---- the operators ----

  /** `order` tells exactly where two values stand, and tells nothing of a pair that is not comparable. */
  lemma OrderMeaning(env: Env, a: Value, b: Value)
    ensures Order(env, a, b) == Some(Less) <==> Under(env, a, b)
    ensures Order(env, a, b) == Some(Greater) <==> Under(env, b, a)
    ensures Order(env, a, b) == Some(Equal) <==> Comparable(a, b) && !Under(env, a, b) && !Under(env, b, a)
    ensures Order(env, a, b).Some? <==> Comparable(a, b)
  {
    hide CompareText, TextUnder;
    if a.Text? && b.Text? {
      TextOrderIsFirstDifference(a.s, b.s);
    }
  }

  /** The four range operators hold exactly of values that stand as they say. */
  lemma RangeMeaning(env: Env, stored: Value, op: CompareOp, bound: Value)
    requires IsRange(op)
    ensures CompareValues(env, stored, op, bound) <==> Stands(env, stored, op, bound)
    ensures !Comparable(stored, bound) ==> !CompareValues(env, stored, op, bound)
  {
    hide Under, Comparable, ValuesEqual, Order;
    OrderMeaning(env, stored, bound);
    OrderMeaning(env, bound, stored);
    UnderIsOneWay(env, stored, bound);
    UnderIsOneWay(env, bound, stored);
  }

  /** A comparable pair is under, over or equal, and only one of the three. */
  lemma UnderIsOneWay(env: Env, a: Value, b: Value)
    ensures !(Under(env, a, b) && Under(env, b, a))
    ensures Comparable(a, b) <==> Comparable(b, a)
    ensures Under(env, a, b) ==> Comparable(a, b)
    ensures Comparable(a, b) ==> (ValuesEqual(env, a, b) <==> !Under(env, a, b) && !Under(env, b, a))
  {
    hide CompareText, TextUnder;
    if a.Text? && b.Text? {
      TextOrderIsFirstDifference(a.s, b.s);
      TextOrderIsFirstDifference(b.s, a.s);
      TextIsOrdered(a.s, b.s);
    }
  }

  /** Between finite numbers the operators are the ones of the reals. */
  lemma NumbersCompareAsReals(env: Env, a: Value, b: Value, x: real, y: real)
    requires IsNumeric(a) && IsNumeric(b) && FloatValue(env, a) == Finite(x) && FloatValue(env, b) == Finite(y)
    ensures CompareValues(env, a, Lt, b) <==> x < y
    ensures CompareValues(env, a, Lte, b) <==> x <= y
    ensures CompareValues(env, a, Gt, b) <==> x > y
    ensures CompareValues(env, a, Gte, b) <==> x >= y
    ensures CompareValues(env, a, Eq, b) <==> x == y
  {
    hide Order;
    RangeMeaning(env, a, Lt, b);
    RangeMeaning(env, a, Lte, b);
    RangeMeaning(env, a, Gt, b);
    RangeMeaning(env, a, Gte, b);
  }

  // ---- equality ----

  ghost predicate SameFloats(x: Float64, y: Float64) {
    (x.Finite? && y.Finite? && x.value == y.value) || (x.PosInf? && y.PosInf?) || (x.NegInf? && y.NegInf?)
  }

  /** Equal part by part, floats as numbers: a NaN is equal to nothing. */
  ghost predicate SameValue(a: Value, b: Value)
    decreases a
  {
    match (a, b)
    case (Float(x), Float(y)) => SameFloats(x, y)
    case (Vector(v), Vector(w)) => |v| == |w| && forall k :: 0 <= k < |v| ==> SameFloats(v[k], w[k])
    case (Array(v), Array(w)) => |v| == |w| && forall k :: 0 <= k < |v| ==> SameValue(v[k], w[k])
    case (Object(f), Object(g)) => f.Keys == g.Keys && forall k :: k in f ==> SameValue(f[k], g[k])
    case (_, _) => a == b
  }

  lemma {:induction false} SameIsEqual(a: Value, b: Value)
    ensures SameValue(a, b) <==> a == b && !HasNaN(a)
    decreases a
  {
    match (a, b)
    case (Array(v), Array(w)) =>
      if |v| == |w| {
        forall k | 0 <= k < |v| ensures SameValue(v[k], w[k]) <==> v[k] == w[k] && !HasNaN(v[k]) {
          SameIsEqual(v[k], w[k]);
        }
        assert v == w <==> forall k :: 0 <= k < |v| ==> v[k] == w[k];
      }
    case (Object(f), Object(g)) =>
      if f.Keys == g.Keys {
        forall k | k in f ensures SameValue(f[k], g[k]) <==> f[k] == g[k] && !HasNaN(f[k]) {
          SameIsEqual(f[k], g[k]);
        }
        assert f == g <==> forall k :: k in f ==> f[k] == g[k];
      }
    case (Vector(v), Vector(w)) =>
      if |v| == |w| {
        assert v == w <==> forall k :: 0 <= k < |v| ==> v[k] == w[k];
      }
    case (_, _) =>
  }

  /** `eq` is equality of floats between numbers, of instants between times, and part by part otherwise. */
  lemma EqualMeaning(env: Env, a: Value, b: Value)
    ensures IsNumeric(a) && IsNumeric(b) ==> (ValuesEqual(env, a, b) <==> SameFloats(FloatValue(env, a), FloatValue(env, b)))
    ensures Instants(a, b) ==> (ValuesEqual(env, a, b) <==> Instant(a) == Instant(b))
    ensures !(IsNumeric(a) && IsNumeric(b)) && !Instants(a, b) ==> (ValuesEqual(env, a, b) <==> SameValue(a, b))
  {
    SameIsEqual(a, b);
  }

  // ---- substrings ----

  ghost predicate OccursAt(sub: string, s: string, k: nat) {
    k + |sub| <= |s| && s[k..k + |sub|] == sub
  }

  /** `contains` holds exactly when the substring stands somewhere in the text. */
  lemma {:induction false} ContainsIsOccurrence(sub: string, s: string)
    ensures IsSubstring(sub, s) <==> exists k: nat :: OccursAt(sub, s, k)
  {
    assert sub <= s <==> OccursAt(sub, s, 0);
    if s == [] {
      assert forall k: nat :: OccursAt(sub, s, k) ==> k == 0;
    } else {
      ContainsIsOccurrence(sub, s[1..]);
      forall k: nat | OccursAt(sub, s[1..], k) ensures OccursAt(sub, s, k + 1) {
        assert s[1..][k..k + |sub|] == s[k + 1..k + 1 + |sub|];
      }
      forall k: nat | k > 0 && OccursAt(sub, s, k) ensures OccursAt(sub, s[1..], k - 1) {
        assert s[1..][k - 1..k - 1 + |sub|] == s[k..k + |sub|];
      }
    }
  }
}
