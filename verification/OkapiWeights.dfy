/** The Okapi BM25 weight of a term (crates/auradb-index/src/lib.rs), in exact arithmetic, and how it
    moves with what it is computed from. */
module OkapiWeights {
  /** Okapi BM25: the logarithm, the term saturation and the length normalization. */
  datatype Okapi = Okapi(ln: real -> real, k1: real, b: real)
  {
    function Idf(n: nat, df: nat): real {
      ln((n as real - df as real + 0.5) / (df as real + 0.5) + 1.0)
    }

    function Denominator(tf: nat, ratio: real): real {
      tf as real + k1 * (1.0 - b + b * ratio)
    }

    /** The weight of a term, from the collection size, its document frequency, its frequency in the
        document, and the document's length as a share of the average. */
    function Weigh(n: nat, df: nat, tf: nat, ratio: real): real {
      var denominator := Denominator(tf, ratio);
      if denominator == 0.0 then 0.0 else Idf(n, df) * (tf as real * (k1 + 1.0)) / denominator
    }

    /** The ranges the two parameters are meant for. */
    predicate InRange() {
      k1 >= 0.0 && 0.0 <= b <= 1.0
    }
  }

  // ---- arithmetic ----

  lemma ScaleBelow(a: real, b: real, n: real)
    requires n > 0.0 && a < b
    ensures a * n < b * n
  {
    assert (b - a) * n > 0.0;
  }

  lemma Cancel(a: real, b: real, d: real)
    requires d > 0.0
    ensures a * d == b * d <==> a == b
  {
    if a < b {
      ScaleBelow(a, b, d);
    } else if b < a {
      ScaleBelow(b, a, d);
    }
  }

  lemma Positive(a: real, b: real)
    requires a > 0.0 && b > 0.0
    ensures a * b > 0.0
  {
  }

  lemma NotPositive(x: real, u: real)
    requires x <= 0.0 && u > 0.0
    ensures x * u <= 0.0
  {
  }

  lemma Factor(a: real, b: real)
    requires b > 0.0 && a * b > 0.0
    ensures a > 0.0
  {
    if a <= 0.0 {
      NotPositive(a, b);
    }
  }

  lemma DividedOrder(a: real, b: real, d: real)
    requires a < b && d > 0.0
    ensures a / d < b / d
  {
    var x, y := a / d, b / d;
    assert x * d == a && y * d == b;
    if y < x {
      ScaleBelow(y, x, d);
    }
  }

  // ---- the logarithm ----

  /** All that is asked of the logarithm. */
  ghost predicate Logarithm(ln: real -> real) {
    ln(1.0) == 0.0 && forall x, y :: 0.0 < x < y ==> ln(x) < ln(y)
  }

  /** Rarer terms weigh more: the inverse document frequency is positive and grows with the collection. */
  lemma IdfGrows(w: Okapi, n: nat, m: nat, df: nat)
    requires Logarithm(w.ln) && df <= n <= m
    ensures 0.0 < w.Idf(n, df) <= w.Idf(m, df) && (n < m ==> w.Idf(n, df) < w.Idf(m, df))
  {
    var d := df as real + 0.5;
    var a, b := n as real - df as real + 0.5, m as real - df as real + 0.5;
    assert a > 0.0 && b >= a && d > 0.0;
    DividedOrder(0.0, a, d);
    assert a / d > 0.0;
    if n < m {
      DividedOrder(a, b, d);
    }
  }

  lemma Reciprocal(a: real, b: real, c: real, d: real)
    requires 0.0 < a <= b && 0.0 < c < d
    ensures a / d < b / c
  {
    var x, y := a / d, b / c;
    assert x * d == a && y * c == b;
    Factor(y, c);
    Spread(x, y, c, d);
  }

  lemma Spread(x: real, y: real, c: real, d: real)
    requires y > 0.0 && 0.0 < c < d && x * d <= y * c
    ensures x < y
  {
    Positive(y, d - c);
    assert (y - x) * d == y * c + y * (d - c) - x * d;
    Factor(y - x, d);
  }

  /** A term in fewer documents of the same collection has the larger inverse document frequency. */
  lemma IdfFalls(w: Okapi, n: nat, df: nat, more: nat)
    requires Logarithm(w.ln) && df < more <= n
    ensures 0.0 < w.Idf(n, more) < w.Idf(n, df)
  {
    IdfGrows(w, n, n, more);
    Reciprocal(n as real - more as real + 0.5, n as real - df as real + 0.5, df as real + 0.5, more as real + 0.5);
    DividedOrder(0.0, n as real - more as real + 0.5, more as real + 0.5);
  }

  // ---- saturation ----

  /** A weight `x` of which a term that occurs `t` times gets the share t / (t + k). */
  function Saturated(x: real, t: real, k: real): real
    requires t + k > 0.0
  {
    x * t / (t + k)
  }

  lemma SaturatedTimes(x: real, t: real, k: real)
    requires t + k > 0.0
    ensures Saturated(x, t, k) * (t + k) == x * t
  {
  }

  /** What is left over of the full weight. */
  lemma SaturatedRest(x: real, t: real, k: real)
    requires x > 0.0 && t > 0.0 && k >= 0.0
    ensures 0.0 < Saturated(x, t, k) <= x
    ensures Saturated(x, t, k) < x <==> k > 0.0
  {
    hide Saturated;
    var y := Saturated(x, t, k);
    SaturatedTimes(x, t, k);
    Positive(x, t);
    Factor(y, t + k);
    assert y * (t + k) == y * t + y * k;
    assert (x - y) * t == x * t - y * t;
    if k > 0.0 {
      Positive(y, k);
      Factor(x - y, t);
    } else {
      Cancel(y, x, t);
    }
  }

  lemma SaturatedRises(x: real, t: real, u: real, k: real)
    requires x > 0.0 && 0.0 < t < u && k >= 0.0
    ensures Saturated(x, t, k) <= Saturated(x, u, k)
    ensures Saturated(x, t, k) < Saturated(x, u, k) <==> k > 0.0
  {
    hide Saturated;
    var y, z := Saturated(x, t, k), Saturated(x, u, k);
    SaturatedTimes(x, t, k);
    SaturatedTimes(x, u, k);
    SaturatedRest(x, t, k);
    SaturatedRest(x, u, k);
    Gap(x, t, u, k, y, z);
    if k > 0.0 {
      Positive(x - y, u - t);
      Factor(z - y, u + k);
    }
  }

  lemma Gap(x: real, t: real, u: real, k: real, y: real, z: real)
    requires y * (t + k) == x * t && z * (u + k) == x * u
    ensures (z - y) * (u + k) == (x - y) * (u - t)
  {
    assert (z - y) * (u + k) == z * (u + k) - y * (u + k);
    assert y * (u + k) == y * (t + k) + y * (u - t);
    assert x * u - x * t == x * (u - t);
    assert (x - y) * (u - t) == x * (u - t) - y * (u - t);
  }

  lemma SaturatedFalls(x: real, t: real, k: real, l: real)
    requires x > 0.0 && t > 0.0 && 0.0 <= k < l
    ensures Saturated(x, t, l) < Saturated(x, t, k)
  {
    Positive(x, t);
    Reciprocal(x * t, x * t, t + k, t + l);
  }

  // ---- the weight ----

  function LengthFactor(b: real, ratio: real): real {
    1.0 - b + b * ratio
  }

  function Damping(w: Okapi, ratio: real): real {
    w.k1 * LengthFactor(w.b, ratio)
  }

  /** The parameters for which BM25 is meant, with some saturation. */
  ghost predicate Proper(w: Okapi) {
    Logarithm(w.ln) && w.k1 > 0.0 && 0.0 <= w.b <= 1.0
  }

  lemma FactorIs(b: real, r: real, s: real)
    requires 0.0 <= b <= 1.0 && 0.0 <= r <= s
    ensures 0.0 <= LengthFactor(b, r) <= LengthFactor(b, s)
    ensures LengthFactor(b, r) > 0.0 <==> b < 1.0 || r > 0.0
    ensures LengthFactor(b, r) < LengthFactor(b, s) <==> b > 0.0 && r < s
  {
    assert LengthFactor(b, s) - LengthFactor(b, r) == b * (s - r);
    if b > 0.0 && r < s {
      Positive(b, s - r);
    }
    if b > 0.0 && r > 0.0 {
      Positive(b, r);
    }
  }

  lemma DampingIs(w: Okapi, r: real, s: real)
    requires w.k1 > 0.0 && 0.0 <= w.b <= 1.0 && 0.0 <= r <= s
    ensures 0.0 <= Damping(w, r) <= Damping(w, s)
    ensures Damping(w, r) > 0.0 <==> w.b < 1.0 || r > 0.0
    ensures Damping(w, r) < Damping(w, s) <==> w.b > 0.0 && r < s
  {
    hide LengthFactor;
    FactorIs(w.b, r, s);
    var p, q := LengthFactor(w.b, r), LengthFactor(w.b, s);
    if p > 0.0 {
      Positive(w.k1, p);
    }
    assert w.k1 * q - w.k1 * p == w.k1 * (q - p);
    if q > p {
      Positive(w.k1, q - p);
    }
  }

  lemma WeighIsSaturated(w: Okapi, n: nat, df: nat, tf: nat, ratio: real)
    requires w.k1 > 0.0 && 0.0 <= w.b <= 1.0 && ratio >= 0.0 && tf > 0
    ensures Damping(w, ratio) >= 0.0
    ensures w.Weigh(n, df, tf, ratio) == Saturated(w.Idf(n, df) * (w.k1 + 1.0), tf as real, Damping(w, ratio))
  {
    hide Okapi.Idf;
    DampingIs(w, ratio, ratio);
    var i, t, k := w.Idf(n, df), tf as real, w.k1 + 1.0;
    assert i * (t * k) == i * k * t;
  }

  lemma NoTermNoWeight(w: Okapi, n: nat, df: nat, ratio: real)
    ensures w.Weigh(n, df, 0, ratio) == 0.0
  {
    hide Okapi.Idf;
    assert w.Idf(n, df) * (0.0 * (w.k1 + 1.0)) == 0.0;
  }

  /** A term that occurs weighs something, and never more than its full weight; it reaches the full weight
      only where length does not damp it. */
  lemma WeightIsBounded(w: Okapi, n: nat, df: nat, tf: nat, ratio: real)
    requires Proper(w) && df <= n && tf > 0 && ratio >= 0.0
    ensures 0.0 < w.Weigh(n, df, tf, ratio) <= w.Idf(n, df) * (w.k1 + 1.0)
    ensures w.Weigh(n, df, tf, ratio) < w.Idf(n, df) * (w.k1 + 1.0) <==> w.b < 1.0 || ratio > 0.0
  {
    hide Okapi.Idf, Okapi.Weigh, Saturated, Damping;
    IdfGrows(w, n, n, df);
    Positive(w.Idf(n, df), w.k1 + 1.0);
    WeighIsSaturated(w, n, df, tf, ratio);
    DampingIs(w, ratio, ratio);
    SaturatedRest(w.Idf(n, df) * (w.k1 + 1.0), tf as real, Damping(w, ratio));
  }

  /** More occurrences never weigh less, and weigh strictly more exactly where length damps the weight. */
  lemma OftenWeighsMore(w: Okapi, n: nat, df: nat, tf: nat, more: nat, ratio: real)
    requires Proper(w) && df <= n && 0 < tf < more && ratio >= 0.0
    ensures w.Weigh(n, df, tf, ratio) <= w.Weigh(n, df, more, ratio)
    ensures w.Weigh(n, df, tf, ratio) < w.Weigh(n, df, more, ratio) <==> w.b < 1.0 || ratio > 0.0
  {
    hide Okapi.Idf, Okapi.Weigh, Saturated, Damping;
    IdfGrows(w, n, n, df);
    Positive(w.Idf(n, df), w.k1 + 1.0);
    WeighIsSaturated(w, n, df, tf, ratio);
    WeighIsSaturated(w, n, df, more, ratio);
    DampingIs(w, ratio, ratio);
    SaturatedRises(w.Idf(n, df) * (w.k1 + 1.0), tf as real, more as real, Damping(w, ratio));
  }

  /** In a longer document a term never weighs more, and strictly less exactly when lengths count. */
  lemma LongerWeighsLess(w: Okapi, n: nat, df: nat, tf: nat, ratio: real, longer: real)
    requires Proper(w) && df <= n && tf > 0 && 0.0 <= ratio < longer
    ensures w.Weigh(n, df, tf, longer) <= w.Weigh(n, df, tf, ratio)
    ensures w.Weigh(n, df, tf, longer) < w.Weigh(n, df, tf, ratio) <==> w.b > 0.0
  {
    hide Okapi.Idf, Okapi.Weigh, Saturated, Damping;
    IdfGrows(w, n, n, df);
    Positive(w.Idf(n, df), w.k1 + 1.0);
    WeighIsSaturated(w, n, df, tf, ratio);
    WeighIsSaturated(w, n, df, tf, longer);
    DampingIs(w, ratio, longer);
    if w.b > 0.0 {
      SaturatedFalls(w.Idf(n, df) * (w.k1 + 1.0), tf as real, Damping(w, ratio), Damping(w, longer));
    }
  }

  /** A term of fewer documents weighs strictly more. */
  lemma RarerWeighsMore(w: Okapi, n: nat, df: nat, more: nat, tf: nat, ratio: real)
    requires Proper(w) && df < more <= n && tf > 0 && ratio >= 0.0
    ensures w.Weigh(n, more, tf, ratio) < w.Weigh(n, df, tf, ratio)
  {
    hide Okapi.Idf, Okapi.Weigh, Saturated, Damping, Logarithm;
    IdfFalls(w, n, df, more);
    WeighIsSaturated(w, n, df, tf, ratio);
    WeighIsSaturated(w, n, more, tf, ratio);
    ScaleBelow(w.Idf(n, more), w.Idf(n, df), w.k1 + 1.0);
    SaturatedScales(w.Idf(n, more) * (w.k1 + 1.0), w.Idf(n, df) * (w.k1 + 1.0), tf as real, Damping(w, ratio));
  }

  lemma SaturatedScales(x: real, y: real, t: real, k: real)
    requires x < y && t > 0.0 && k >= 0.0
    ensures Saturated(x, t, k) < Saturated(y, t, k)
  {
    ScaleBelow(x, y, t);
    DividedOrder(x * t, y * t, t + k);
  }
}
