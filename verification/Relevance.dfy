/** Ranked-retrieval metrics over exact reals (crates/auradb-query/src/relevance.rs). */
module Relevance {
  import opened Sequences
  import opened Ranking
  import opened Sorting

  type DocId = string

  type Judgments = map<DocId, nat>

  function Pow2(g: nat): nat {
    if g == 0 then 1 else 2 * Pow2(g - 1)
  }

  /** Exponential gain. */
  function Gain(g: nat): real {
    Pow2(g) as real - 1.0
  }

  lemma {:induction false} GainGrows(a: nat, b: nat)
    requires a <= b
    ensures 0.0 <= Gain(a) <= Gain(b) && (a > 0 ==> Gain(a) >= 1.0) && Gain(0) == 0.0
  {
    if a > 0 {
      GainGrows(a - 1, b - 1);
    } else if b > 0 {
      GainGrows(a, b - 1);
    }
  }

  function GradeOf(grades: Judgments, id: DocId): nat {
    if id in grades then grades[id] else 0
  }

  function GradesOf(grades: Judgments, ids: seq<DocId>): seq<nat> {
    MapSeq((id: DocId) => GradeOf(grades, id), ids)
  }

  /** The position discount, log2(i + 2) in the source: positive and never falling. */
  ghost predicate Discount(log: nat -> real) {
    (forall i: nat :: log(i) > 0.0) && (forall i: nat, j: nat :: i <= j ==> log(i) <= log(j))
  }

  /** The discounted gain of grades in rank order, the first standing at rank `off`. */
  function Total(log: nat -> real, s: seq<nat>, off: nat): real
    requires Discount(log)
  {
    if s == [] then 0.0 else Gain(s[0]) / log(off) + Total(log, s[1..], off + 1)
  }

  lemma {:induction false} TotalSnoc(log: nat -> real, s: seq<nat>, g: nat, off: nat)
    requires Discount(log)
    ensures Total(log, s + [g], off) == Total(log, s, off) + Gain(g) / log(off + |s|)
  {
    if s != [] {
      assert (s + [g])[1..] == s[1..] + [g];
      TotalSnoc(log, s[1..], g, off + 1);
    } else {
      assert (s + [g])[1..] == [];
    }
  }

  /** `dcg_at_k` */
  method DcgAtK(log: nat -> real, ranked: seq<DocId>, grades: Judgments, k: nat) returns (dcg: real)
    requires Discount(log)
    ensures dcg == Total(log, GradesOf(grades, Take(ranked, k)), 0)
  {
    hide Pow2, Discount;
    dcg := 0.0;
    var top := Take(ranked, k);
    var i := 0;
    while i < |top|
      invariant 0 <= i <= |top| && dcg == Total(log, GradesOf(grades, top[..i]), 0)
    {
      var grade := GradeOf(grades, top[i]);
      TotalSnoc(log, GradesOf(grades, top[..i]), grade, 0);
      assert GradesOf(grades, top[..i + 1]) == GradesOf(grades, top[..i]) + [grade];
      GainGrows(0, grade);
      Positive(log, i);
      if grade > 0 {
        dcg := dcg + Gain(grade) / log(i);
      }
      i := i + 1;
    }
    assert top[..i] == top;
  }

  lemma Positive(log: nat -> real, i: nat)
    requires Discount(log)
    ensures log(i) > 0.0
  {
  }

  // ---- the ideal ----

  predicate Descending(s: seq<nat>) {
    forall i, j :: 0 <= i < j < |s| ==> s[i] >= s[j]
  }

  /** Every positively judged document, once. */
  ghost predicate ListsPositive(grades: Judgments, ids: seq<DocId>) {
    NoRepeats(ids) && forall id :: id in ids <==> id in grades && grades[id] > 0
  }

  /** The positive grades, best first. */
  ghost predicate IsIdeal(grades: Judgments, s: seq<nat>) {
    Descending(s) && exists ids :: ListsPositive(grades, ids) && multiset(s) == multiset(GradesOf(grades, ids))
  }

  method IdealGrades(grades: Judgments) returns (ideal: seq<nat>)
    ensures IsIdeal(grades, ideal)
  {
    var ids: seq<DocId> := [];
    var todo := grades.Keys;
    while todo != {}
      invariant todo <= grades.Keys && NoRepeats(ids)
      invariant forall id :: id in ids <==> id in grades.Keys - todo && grades[id] > 0
      decreases |todo|
    {
      var id :| id in todo;
      if grades[id] > 0 {
        ids := ids + [id];
      }
      todo := todo - {id};
    }
    var listed := GradesOf(grades, ids);
    var ge := (a: nat, b: nat) => a >= b;
    ideal := SortBy(ge, listed);
    SortPermutes(ge, listed);
    SortSorted(ge, listed, Elements(listed));
  }

  lemma WithoutKeeps(ids: seq<DocId>, k: nat, id: DocId)
    requires k < |ids| && id in ids && id != ids[k]
    ensures id in Without(ids, k)
  {
    var rest := Without(ids, k);
    var j :| 0 <= j < |ids| && ids[j] == id;
    assert rest == ids[..k] + ids[k + 1..];
    assert id == if j < k then rest[j] else rest[j - 1];
  }

  lemma GradesWithout(grades: Judgments, ids: seq<DocId>, k: nat)
    requires k < |ids|
    ensures multiset(GradesOf(grades, ids)) == multiset(GradesOf(grades, Without(ids, k))) + multiset{GradeOf(grades, ids[k])}
  {
    MapWithout((id: DocId) => GradeOf(grades, id), ids, k);
  }

  /** A duplicate-free list inside another maps to a smaller multiset. */
  lemma {:induction false} MappedWithin(grades: Judgments, a: seq<DocId>, b: seq<DocId>, v: nat)
    requires NoRepeats(a) && (forall id :: id in a && GradeOf(grades, id) == v ==> id in b)
    ensures multiset(GradesOf(grades, a))[v] <= multiset(GradesOf(grades, b))[v]
    decreases |a|
  {
    hide GradesOf, GradeOf, Without;
    if a == [] {
      assert GradesOf(grades, a) == [] by { NoGrades(grades); }
    } else {
      var rest := a[1..];
      assert Without(a, 0) == rest by { HeadOff(a); }
      GradesWithout(grades, a, 0);
      if GradeOf(grades, a[0]) != v {
        MappedWithin(grades, rest, b, v);
      } else {
        var k :| 0 <= k < |b| && b[k] == a[0];
        GradesWithout(grades, b, k);
        forall id | id in rest && GradeOf(grades, id) == v ensures id in Without(b, k) {
          WithoutKeeps(b, k, id);
        }
        MappedWithin(grades, rest, Without(b, k), v);
      }
    }
  }

  lemma NoGrades(grades: Judgments)
    ensures GradesOf(grades, []) == []
  {
  }

  lemma HeadOff(a: seq<DocId>)
    requires a != []
    ensures Without(a, 0) == a[1..]
  {
  }

  /** Only one ideal sequence of grades exists. */
  lemma IdealIsUnique(grades: Judgments, s: seq<nat>, t: seq<nat>)
    requires IsIdeal(grades, s) && IsIdeal(grades, t)
    ensures s == t
  {
    hide GradesOf;
    var a :| ListsPositive(grades, a) && multiset(s) == multiset(GradesOf(grades, a));
    var b :| ListsPositive(grades, b) && multiset(t) == multiset(GradesOf(grades, b));
    forall v: nat ensures multiset(s)[v] == multiset(t)[v] {
      MappedWithin(grades, a, b, v);
      MappedWithin(grades, b, a, v);
    }
    SortedIsUnique((x: nat, y: nat) => x >= y, s, t, Elements(s));
  }

  // ---- rearrangement ----

  /** Every positive grade of `a` is matched by one in `b`. */
  ghost predicate Within(a: seq<nat>, b: seq<nat>) {
    forall v: nat :: v > 0 ==> multiset(a)[v] <= multiset(b)[v]
  }

  lemma {:induction false} TotalSet(log: nat -> real, s: seq<nat>, i: nat, g: nat, off: nat)
    requires Discount(log) && i < |s|
    ensures Total(log, s[i := g], off) == Total(log, s, off) - Gain(s[i]) / log(off + i) + Gain(g) / log(off + i)
  {
    hide Gain;
    if i == 0 {
      assert s[i := g][1..] == s[1..];
    } else {
      assert s[i := g][1..] == s[1..][i - 1 := g];
      TotalSet(log, s[1..], i - 1, g, off + 1);
    }
  }

  lemma BetterEarlier(x: real, y: real, p: real, q: real)
    requires 0.0 <= x <= y && 0.0 < p <= q
    ensures x / p + y / q <= y / p + x / q
  {
    var u, v := 1.0 / p, 1.0 / q;
    assert u * p == 1.0 && v * q == 1.0 && u > 0.0 && v > 0.0;
    assert u * q >= u * p;
    assert (u - v) * q >= 0.0;
    assert x / p == x * u && y / q == y * v && y / p == y * u && x / q == x * v;
    assert (y - x) * (u - v) >= 0.0;
  }

  /** Moving a better grade to the front gains. */
  lemma SwapGains(log: nat -> real, a: seq<nat>, p: nat, off: nat)
    requires Discount(log) && p < |a| && a[p] >= a[0]
    ensures Total(log, a, off) <= Total(log, a[0 := a[p]][p := a[0]], off)
    ensures multiset(a[0 := a[p]][p := a[0]]) == multiset(a)
  {
    hide Gain, Total;
    if p == 0 {
      assert a[0 := a[p]][p := a[0]] == a;
    } else {
      var b := a[0 := a[p]];
      TotalSet(log, a, 0, a[p], off);
      TotalSet(log, b, p, a[0], off);
      GainGrows(0, a[0]);
      GainGrows(a[0], a[p]);
      BetterEarlier(Gain(a[0]), Gain(a[p]), log(off), log(off + p));
    }
  }

  /** Every grade is worth more than twice the one below it. */
  lemma GradesMoreThanDouble(g: nat)
    ensures Gain(0) == 0.0 && Gain(g + 1) == 2.0 * Gain(g) + 1.0
  {
  }

  lemma {:induction false} GainIsStrict(a: nat, b: nat)
    requires a < b
    ensures 0.0 <= Gain(a) < Gain(b)
  {
    hide Gain;
    GainGrows(0, a);
    GradesMoreThanDouble(b - 1);
    if a < b - 1 {
      GainIsStrict(a, b - 1);
    }
  }

  lemma StrictlyEarlier(x: real, y: real, p: real, q: real)
    requires 0.0 <= x < y && 0.0 < p < q
    ensures x / p + y / q < y / p + x / q
  {
    var u, v := 1.0 / p, 1.0 / q;
    assert u * p == 1.0 && v * q == 1.0 && u > 0.0 && v > 0.0;
    assert (u - v) * q == u * (q - p) > 0.0;
    assert u > v;
    assert x / p == x * u && y / q == y * v && y / p == y * u && x / q == x * v;
    assert (y - x) * (u - v) > 0.0;
  }

  /** Moving a better graded document up, in exchange for a worse one, strictly raises the gain wherever the
      discount rises in between. */
  lemma BetterFirstGainsMore(log: nat -> real, s: seq<nat>, i: nat, j: nat)
    requires Discount(log) && i < j < |s| && s[i] < s[j] && log(i) < log(j)
    ensures Total(log, s, 0) < Total(log, s[i := s[j]][j := s[i]], 0)
  {
    hide Gain, Total;
    var b := s[i := s[j]];
    TotalSet(log, s, i, s[j], 0);
    TotalSet(log, b, j, s[i], 0);
    GainIsStrict(s[i], s[j]);
    StrictlyEarlier(Gain(s[i]), Gain(s[j]), log(i), log(j));
  }

  lemma {:induction false} ZerosTotalNothing(log: nat -> real, a: seq<nat>, off: nat)
    requires Discount(log) && forall i :: 0 <= i < |a| ==> a[i] == 0
    ensures Total(log, a, off) == 0.0
  {
    if a != [] {
      ZerosTotalNothing(log, a[1..], off + 1);
    }
  }

  lemma HeadsDrop(a: seq<nat>, b: seq<nat>)
    requires Within(a, b) && a != [] && b != [] && (a[0] == b[0] || b[0] !in a)
    ensures Within(a[1..], b[1..])
  {
    assert a == [a[0]] + a[1..] && b == [b[0]] + b[1..];
    forall v: nat | v > 0 ensures multiset(a[1..])[v] <= multiset(b[1..])[v] {
      assert multiset(a)[v] <= multiset(b)[v];
      if v == b[0] && a[0] != b[0] {
        assert v !in multiset(a[1..]);
      }
    }
  }

  lemma HeadIsBest(a: seq<nat>, b: seq<nat>)
    requires Within(a, b) && Descending(b) && a != [] && b != []
    ensures a[0] <= b[0]
  {
    if a[0] > 0 {
      assert a[0] in multiset(a) && multiset(a)[a[0]] > 0;
      assert a[0] in multiset(b);
      var i :| 0 <= i < |b| && b[i] == a[0];
    }
  }

  lemma NothingWithin(a: seq<nat>, b: seq<nat>)
    requires Within(a, b) && b == []
    ensures forall i :: 0 <= i < |a| ==> a[i] == 0
  {
    forall i | 0 <= i < |a| ensures a[i] == 0 {
      assert a[i] in multiset(a) && multiset(a)[a[i]] > 0;
    }
  }

  /** The rearrangement inequality: no order of no selection of the grades of `b` beats `b` itself. */
  lemma {:induction false} Rearranged(log: nat -> real, a: seq<nat>, b: seq<nat>, off: nat)
    requires Discount(log) && Within(a, b) && Descending(b)
    ensures Total(log, a, off) <= Total(log, Take(b, |a|), off)
    decreases |a|
  {
    hide Gain, Within, Descending, Total, Discount;
    if a == [] {
      TotalOfNone(log, off);
    } else if b == [] {
      TotalOfNone(log, off);
      NothingWithin(a, b);
      ZerosTotalNothing(log, a, off);
    } else {
      HeadIsBest(a, b);
      var c := a;
      if p :| 0 <= p < |a| && a[p] == b[0] {
        SwapGains(log, a, p, off);
        c := a[0 := a[p]][p := a[0]];
        assert Within(c, b) by { SameWithin(a, c, b); }
      }
      HeadsDrop(c, b);
      TailDescends(b);
      Rearranged(log, c[1..], b[1..], off + 1);
      assert Take(b, |a|)[1..] == Take(b[1..], |a| - 1) && Take(b, |a|)[0] == b[0];
      HeadGains(log, c[0], b[0], off);
      TotalHead(log, c, off);
      TotalHead(log, Take(b, |a|), off);
    }
  }

  lemma TotalOfNone(log: nat -> real, off: nat)
    requires Discount(log)
    ensures Total(log, [], off) == 0.0
  {
  }

  lemma TotalHead(log: nat -> real, s: seq<nat>, off: nat)
    requires Discount(log) && s != []
    ensures log(off) > 0.0 && Total(log, s, off) == Gain(s[0]) / log(off) + Total(log, s[1..], off + 1)
  {
  }

  lemma SameWithin(a: seq<nat>, c: seq<nat>, b: seq<nat>)
    requires multiset(a) == multiset(c) && Within(a, b)
    ensures Within(c, b)
  {
  }

  lemma TailDescends(b: seq<nat>)
    requires Descending(b) && b != []
    ensures Descending(b[1..])
  {
  }

  lemma HeadGains(log: nat -> real, x: nat, y: nat, off: nat)
    requires Discount(log) && x <= y
    ensures log(off) > 0.0 && Gain(x) / log(off) <= Gain(y) / log(off)
  {
    GainGrows(x, y);
    Divides(Gain(x), Gain(y), log(off));
  }

  lemma Divides(x: real, y: real, p: real)
    requires x <= y && p > 0.0
    ensures x / p <= y / p
  {
    assert y / p - x / p == (y - x) / p;
  }

  lemma {:induction false} TotalIsPositive(log: nat -> real, s: seq<nat>, off: nat)
    requires Discount(log)
    ensures Total(log, s, off) >= 0.0 && (s != [] && s[0] > 0 ==> Total(log, s, off) > 0.0)
  {
    hide Pow2;
    if s != [] {
      TotalIsPositive(log, s[1..], off + 1);
      GainGrows(0, s[0]);
      Divides(0.0, Gain(s[0]), log(off));
      if s[0] > 0 {
        GainGrows(s[0], s[0]);
        assert Gain(s[0]) / log(off) * log(off) == Gain(s[0]);
      }
    }
  }

  lemma {:induction false} LongerTotalsMore(log: nat -> real, s: seq<nat>, m: nat, k: nat, off: nat)
    requires Discount(log) && m <= k
    ensures Total(log, Take(s, m), off) <= Total(log, Take(s, k), off)
    decreases m
  {
    hide Gain;
    TotalIsPositive(log, Take(s, k), off);
    if m > 0 && s != [] {
      LongerTotalsMore(log, s[1..], m - 1, k - 1, off + 1);
      assert Take(s, m)[1..] == Take(s[1..], m - 1) && Take(s, k)[1..] == Take(s[1..], k - 1);
    }
  }

  // ---- NDCG ----

  function Normalized(dcg: real, idcg: real): real {
    if idcg == 0.0 then 0.0 else dcg / idcg
  }

  /** The grades of a duplicate-free ranking are matched by the ideal's. */
  lemma RankingWithinIdeal(grades: Judgments, ids: seq<DocId>, ideal: seq<nat>)
    requires NoRepeats(ids) && IsIdeal(grades, ideal)
    ensures Within(GradesOf(grades, ids), ideal)
  {
    hide GradesOf;
    var all :| ListsPositive(grades, all) && multiset(ideal) == multiset(GradesOf(grades, all));
    forall v: nat | v > 0 ensures multiset(GradesOf(grades, ids))[v] <= multiset(ideal)[v] {
      MappedWithin(grades, ids, all, v);
    }
  }

  /** A ranking whose first `k` documents are different gains no more than the ideal. */
  lemma DcgIsBounded(log: nat -> real, ranked: seq<DocId>, grades: Judgments, ideal: seq<nat>, k: nat)
    requires Discount(log) && NoRepeats(Take(ranked, k)) && IsIdeal(grades, ideal)
    ensures 0.0 <= Total(log, GradesOf(grades, Take(ranked, k)), 0) <= Total(log, Take(ideal, k), 0)
  {
    hide Gain, Total, Within;
    var top := Take(ranked, k);
    TotalIsPositive(log, GradesOf(grades, top), 0);
    RankingWithinIdeal(grades, top, ideal);
    Rearranged(log, GradesOf(grades, top), ideal, 0);
    LongerTotalsMore(log, ideal, |top|, k, 0);
  }

  lemma Ratio(x: real, y: real)
    requires 0.0 <= x <= y
    ensures 0.0 <= Normalized(x, y) <= 1.0
  {
    if y > 0.0 {
      Divides(0.0, x, y);
      Divides(x, y, y);
    }
  }

  /** The score of a ranking against an ideal. */
  function Ndcg(log: nat -> real, ranked: seq<DocId>, grades: Judgments, ideal: seq<nat>, k: nat): real
    requires Discount(log)
  {
    Normalized(Total(log, GradesOf(grades, Take(ranked, k)), 0), Total(log, Take(ideal, k), 0))
  }

  /** `ndcg_at_k`: a score in [0, 1] for every judgment map and every ranking without duplicates among
      its first `k`. */
  method NdcgAtK(log: nat -> real, ranked: seq<DocId>, grades: Judgments, k: nat) returns (ndcg: real, ghost ideal: seq<nat>)
    requires Discount(log)
    ensures IsIdeal(grades, ideal)
    ensures ndcg == Ndcg(log, ranked, grades, ideal, k)
    ensures NoRepeats(Take(ranked, k)) ==> 0.0 <= ndcg <= 1.0
  {
    hide Gain, Discount, IsIdeal, NoRepeats, GradesOf;
    var dcg := DcgAtK(log, ranked, grades, k);
    var best := IdealGrades(grades);
    ideal := best;
    var top := Take(best, k);
    var idcg := 0.0;
    var i := 0;
    while i < |top|
      invariant 0 <= i <= |top| && idcg == Total(log, top[..i], 0)
    {
      Positive(log, i);
      TotalSnoc(log, top[..i], top[i], 0);
      assert top[..i + 1] == top[..i] + [top[i]];
      idcg := idcg + Gain(top[i]) / log(i);
      i := i + 1;
    }
    assert top[..i] == top;
    if NoRepeats(Take(ranked, k)) {
      DcgIsBounded(log, ranked, grades, best, k);
      Ratio(dcg, idcg);
    }
    ndcg := if idcg == 0.0 then 0.0 else dcg / idcg;
  }

  lemma FirstIsIdeal(grades: Judgments, ids: seq<DocId>, ideal: seq<nat>)
    requires ListsPositive(grades, ids) && Descending(GradesOf(grades, ids)) && IsIdeal(grades, ideal)
    ensures GradesOf(grades, ids) == ideal
  {
    hide GradesOf;
    assert IsIdeal(grades, GradesOf(grades, ids));
    IdealIsUnique(grades, GradesOf(grades, ids), ideal);
  }

  lemma RestIsUnjudged(grades: Judgments, ranked: seq<DocId>, p: nat, i: nat)
    requires NoRepeats(ranked) && p <= i < |ranked| && ListsPositive(grades, ranked[..p])
    ensures GradeOf(grades, ranked[i]) == 0
  {
    assert ranked[i] !in ranked[..p];
  }

  lemma ListedIsPositive(grades: Judgments, ids: seq<DocId>, i: nat)
    requires ListsPositive(grades, ids) && i < |ids|
    ensures GradeOf(grades, ids[i]) > 0
  {
    assert ids[i] in ids;
  }

  /** Listing the positively judged documents first, best first, gains the ideal: a score of 1. */
  lemma IdealRankingScoresOne(log: nat -> real, ranked: seq<DocId>, grades: Judgments, ideal: seq<nat>, k: nat, p: nat)
    requires Discount(log) && NoRepeats(Take(ranked, k)) && IsIdeal(grades, ideal) && p <= |ranked|
    requires ListsPositive(grades, ranked[..p]) && Descending(GradesOf(grades, ranked[..p]))
    ensures Total(log, GradesOf(grades, Take(ranked, k)), 0) == Total(log, Take(ideal, k), 0)
    ensures k > 0 && p > 0 ==> Ndcg(log, ranked, grades, ideal, k) == 1.0
  {
    hide Gain, Total, Discount, IsIdeal, ListsPositive, Descending, NoRepeats;
    FirstIsIdeal(grades, ranked[..p], ideal);
    var top := GradesOf(grades, Take(ranked, k));
    if k <= p {
      assert top == Take(ideal, k);
    } else {
      assert top[..p] == ideal && Take(ideal, k) == ideal;
      forall i: nat | p <= i < |top| ensures top[i] == 0 {
        assert Take(ranked, k)[..p] == ranked[..p];
        RestIsUnjudged(grades, Take(ranked, k), p, i);
      }
      PaddingTotalsNothing(log, top, p, 0);
    }
    if k > 0 && p > 0 {
      assert Take(ideal, k)[0] == ideal[0] == GradeOf(grades, ranked[..p][0]);
      ListedIsPositive(grades, ranked[..p], 0);
      TotalIsPositive(log, Take(ideal, k), 0);
      Whole(Total(log, Take(ideal, k), 0));
    }
  }

  lemma Whole(x: real)
    requires x > 0.0
    ensures Normalized(x, x) == 1.0
  {
  }

  lemma {:induction false} PaddingTotalsNothing(log: nat -> real, s: seq<nat>, p: nat, off: nat)
    requires Discount(log) && p <= |s| && forall i :: p <= i < |s| ==> s[i] == 0
    ensures Total(log, s, off) == Total(log, s[..p], off)
    decreases p
  {
    hide Gain;
    if p == 0 {
      ZerosTotalNothing(log, s, off);
    } else {
      assert s[1..][..p - 1] == s[..p][1..];
      PaddingTotalsNothing(log, s[1..], p - 1, off + 1);
    }
  }

  // ---- rankings with duplicates ----

  /** The different documents of a list. */
  function Distinct(ids: seq<DocId>): seq<DocId> {
    if ids == [] then []
    else
      var rest := Distinct(ids[..|ids| - 1]);
      if ids[|ids| - 1] in rest then rest else rest + [ids[|ids| - 1]]
  }

  lemma {:induction false} DistinctIs(ids: seq<DocId>)
    ensures NoRepeats(Distinct(ids)) && |Distinct(ids)| <= |ids|
    ensures forall id :: id in Distinct(ids) <==> id in ids
    ensures !NoRepeats(ids) ==> |Distinct(ids)| < |ids|
  {
    if ids != [] {
      var front, last := ids[..|ids| - 1], ids[|ids| - 1];
      DistinctIs(front);
      assert ids == front + [last];
      if last !in Distinct(front) && NoRepeats(front) {
        assert forall i :: 0 <= i < |front| ==> front[i] != last;
        assert NoRepeats(ids);
      }
    }
  }

  function Ones(n: nat): seq<nat> {
    seq(n, _ => 1)
  }

  lemma OnesGainMore(log: nat -> real, m: nat, n: nat)
    requires Discount(log) && m < n
    ensures Total(log, Ones(m), 0) < Total(log, Ones(n), 0)
    decreases n
  {
    assert Ones(n) == Ones(n - 1) + [1];
    TotalSnoc(log, Ones(n - 1), 1, 0);
    assert Gain(1) == 1.0 && |Ones(n - 1)| == n - 1;
    Positive(log, n - 1);
    Reciprocal(log(n - 1));
    if m < n - 1 {
      OnesGainMore(log, m, n - 1);
    }
  }

  lemma Reciprocal(p: real)
    requires p > 0.0
    ensures 1.0 / p > 0.0
  {
    assert 1.0 / p * p == 1.0;
  }

  lemma AboveOne(x: real, y: real)
    requires 0.0 < x < y
    ensures Normalized(y, x) > 1.0
  {
    assert y / x * x == y;
  }

  /** A duplicate among the first `k` scores above 1 once every one of those documents is judged relevant. */
  lemma DuplicatesScoreAboveOne(log: nat -> real, ranked: seq<DocId>, k: nat) returns (grades: Judgments, ideal: seq<nat>)
    requires Discount(log) && !NoRepeats(Take(ranked, k))
    ensures IsIdeal(grades, ideal) && Ndcg(log, ranked, grades, ideal, k) > 1.0
  {
    hide Gain, Total, Discount;
    var top := Take(ranked, k);
    var ids := Distinct(top);
    DistinctIs(top);
    grades, ideal := map id | id in top :: 1, Ones(|ids|);
    assert GradesOf(grades, top) == Ones(|top|) && GradesOf(grades, ids) == ideal;
    assert ListsPositive(grades, ids);
    assert IsIdeal(grades, ideal);
    assert Take(ideal, k) == ideal;
    assert top[0] in ids;
    OnesGainMore(log, |ids|, |top|);
    TotalIsPositive(log, ideal, 0);
    AboveOne(Total(log, ideal, 0), Total(log, Ones(|top|), 0));
  }

  /** A ranking scores at most 1 under every judgment map if and only if its first `k` documents are
      different. */
  lemma BoundedExactly(log: nat -> real, ranked: seq<DocId>, k: nat)
    requires Discount(log)
    ensures (forall grades: Judgments, ideal: seq<nat> :: IsIdeal(grades, ideal) ==> Ndcg(log, ranked, grades, ideal, k) <= 1.0)
            <==> NoRepeats(Take(ranked, k))
  {
    hide Ndcg, IsIdeal, Discount;
    if NoRepeats(Take(ranked, k)) {
      forall grades: Judgments, ideal: seq<nat> | IsIdeal(grades, ideal) ensures Ndcg(log, ranked, grades, ideal, k) <= 1.0 {
        DcgIsBounded(log, ranked, grades, ideal, k);
        NdcgIsRatio(log, ranked, grades, ideal, k);
      }
    } else {
      var grades, ideal := DuplicatesScoreAboveOne(log, ranked, k);
    }
  }

  lemma NdcgIsRatio(log: nat -> real, ranked: seq<DocId>, grades: Judgments, ideal: seq<nat>, k: nat)
    requires Discount(log)
    requires 0.0 <= Total(log, GradesOf(grades, Take(ranked, k)), 0) <= Total(log, Take(ideal, k), 0)
    ensures Ndcg(log, ranked, grades, ideal, k) <= 1.0
  {
    Ratio(Total(log, GradesOf(grades, Take(ranked, k)), 0), Total(log, Take(ideal, k), 0));
  }
}
