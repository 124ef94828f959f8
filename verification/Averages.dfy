/** Averages over numeric fields (crates/auradb-query/src/aggregate.rs), in exact arithmetic with the
    infinities and NaN of floats. */
module Averages {
  import opened Wrappers
  import opened Values
  import opened Filters
  import opened Comparisons

  const ZERO := Finite(0.0)

  function Add(a: Float64, b: Float64): Float64 {
    if a.NaN? || b.NaN? then NaN
    else if a.Finite? && b.Finite? then Finite(a.value + b.value)
    else if a.Finite? then b
    else if b.Finite? || a == b then a
    else NaN
  }

  lemma AddIsAssociative(a: Float64, b: Float64, c: Float64)
    ensures Add(Add(a, b), c) == Add(a, Add(b, c)) && Add(a, b) == Add(b, a) && Add(a, ZERO) == a
  {
  }

  function DivideBy(a: Float64, n: nat): Float64
    requires n > 0
  {
    if a.Finite? then Finite(a.value / n as real) else a
  }

  function Total(numbers: seq<Float64>): Float64 {
    if numbers == [] then ZERO else Add(Total(numbers[..|numbers| - 1]), numbers[|numbers| - 1])
  }

  /** The integers and floats a field holds, in record order. */
  function NumbersAt(env: Env, records: seq<Record>, field: string): seq<Float64> {
    if records == [] then []
    else
      var rest := NumbersAt(env, records[..|records| - 1], field);
      rest + NumberAt(env, records[|records| - 1], field)
  }

  /** The number a record counts with, if any. */
  function NumberAt(env: Env, r: Record, field: string): seq<Float64> {
    var v := GetPath(r.fields, field);
    if v.Some? && AsF64(env, v.value).Some? then [AsF64(env, v.value).value] else []
  }

  lemma AtMostOne(env: Env, r: Record, field: string)
    ensures |NumberAt(env, r, field)| <= 1
  {
  }

  function Average(numbers: seq<Float64>): Value {
    if numbers == [] then Null else Float(DivideBy(Total(numbers), |numbers|))
  }

  /** The averaging loop: skips what is not a number, and gives null for no numbers. */
  method ComputeAverage(env: Env, records: seq<Record>, field: string) returns (value: Value)
    ensures value == Average(NumbersAt(env, records, field))
  {
    hide Add, NumberAt, DivideBy;
    var sum, n, i := ZERO, 0, 0;
    while i < |records|
      invariant 0 <= i <= |records|
      invariant n == |NumbersAt(env, records[..i], field)| && sum == Total(NumbersAt(env, records[..i], field))
    {
      assert records[..i + 1][..i] == records[..i];
      ghost var before := NumbersAt(env, records[..i], field);
      var number := NumberAt(env, records[i], field);
      AtMostOne(env, records[i], field);
      if number != [] {
        assert before + number == before + [number[0]];
        assert (before + [number[0]])[..|before|] == before;
        sum := Add(sum, number[0]);
        n := n + 1;
      } else {
        assert before + [] == before;
      }
      i := i + 1;
    }
    assert records[..i] == records;
    value := if n == 0 then Null else Float(DivideBy(sum, n));
  }

  // ---- which numbers count ----

  predicate HoldsNumber(r: Record, field: string) {
    GetPath(r.fields, field).Some? && IsNumeric(GetPath(r.fields, field).value)
  }

  ghost function NumberPlaces(records: seq<Record>, field: string): set<int> {
    set i | 0 <= i < |records| && HoldsNumber(records[i], field)
  }

  /** The float a record holds. */
  ghost function HeldNumber(env: Env, r: Record, field: string): Float64
    requires HoldsNumber(r, field)
  {
    FloatValue(env, GetPath(r.fields, field).value)
  }

  lemma NumberOfRecord(env: Env, r: Record, field: string)
    ensures NumberAt(env, r, field) == if HoldsNumber(r, field) then [HeldNumber(env, r, field)] else []
  {
    hide GetPath;
  }

  /** Every record that holds an integer or a float counts once, with that number, and no other counts. */
  lemma {:induction false} NumbersAreHeld(env: Env, records: seq<Record>, field: string, x: Float64)
    ensures |NumbersAt(env, records, field)| == |NumberPlaces(records, field)|
    ensures x in NumbersAt(env, records, field)
       <==> exists i :: 0 <= i < |records| && HoldsNumber(records[i], field) && HeldNumber(env, records[i], field) == x
  {
    hide NumberAt, HoldsNumber, HeldNumber;
    if records != [] {
      var last := |records| - 1;
      var front, r := records[..last], records[last];
      NumbersAreHeld(env, front, field, x);
      NumberOfRecord(env, r, field);
      var here: set<int> := if HoldsNumber(r, field) then {last} else {};
      assert NumberPlaces(records, field) == NumberPlaces(front, field) + here;
      assert forall i :: 0 <= i < last ==> front[i] == records[i];
      assert x in NumbersAt(env, records, field) <==> x in NumbersAt(env, front, field) || x in NumberAt(env, r, field);
    }
  }

  // ---- what an average is ----

  ghost predicate AllWithin(numbers: seq<Float64>, lo: real, hi: real) {
    forall x :: x in numbers ==> x.Finite? && lo <= x.value <= hi
  }

  function Times(x: real, n: nat): real {
    x * n as real
  }

  lemma TimesNext(x: real, n: nat)
    ensures Times(x, 0) == 0.0 && Times(x, n + 1) == Times(x, n) + x
  {
    assert (n + 1) as real == n as real + 1.0;
  }

  lemma {:induction false} TotalWithin(numbers: seq<Float64>, lo: real, hi: real)
    requires AllWithin(numbers, lo, hi)
    ensures Total(numbers).Finite? && Times(lo, |numbers|) <= Total(numbers).value <= Times(hi, |numbers|)
  {
    hide Times;
    if numbers == [] {
      TimesNext(lo, 0);
      TimesNext(hi, 0);
    } else {
      var front := numbers[..|numbers| - 1];
      TotalWithin(front, lo, hi);
      assert numbers[|numbers| - 1] in numbers;
      TimesNext(lo, |front|);
      TimesNext(hi, |front|);
    }
  }

  /** The average of finite numbers lies between any bounds of them. */
  lemma AverageIsBetween(numbers: seq<Float64>, lo: real, hi: real)
    requires numbers != [] && AllWithin(numbers, lo, hi)
    ensures var a := Average(numbers); a.Float? && a.f.Finite? && lo <= a.f.value <= hi
  {
    hide Times, Total, DivideBy;
    TotalWithin(numbers, lo, hi);
    QuotientWithin(Total(numbers), |numbers|, lo, hi);
  }

  lemma QuotientWithin(total: Float64, n: nat, lo: real, hi: real)
    requires n > 0 && total.Finite? && Times(lo, n) <= total.value <= Times(hi, n)
    ensures DivideBy(total, n).Finite? && lo <= DivideBy(total, n).value <= hi
  {
    var d := n as real;
    var q := total.value / d;
    assert q * d == total.value;
    if q < lo {
      ScaleOrders(q, lo, d);
    }
    if hi < q {
      ScaleOrders(hi, q, d);
    }
  }

  lemma ScaleOrders(a: real, b: real, d: real)
    requires d > 0.0 && a < b
    ensures a * d < b * d
  {
    assert (b - a) * d > 0.0;
  }
}
