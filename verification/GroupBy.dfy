/** GROUP BY with count, average and min/max metrics (crates/auradb-query/src/aggregate.rs). */
module GroupBy {
  import opened Sequences
  import opened Wrappers
  import opened Values
  import opened Filters
  import opened Comparisons
  import opened Facets
  import opened BucketOrder
  import opened Averages
  import Sums

  // ---- metrics ----

  /** A count, or a field's average, or its least or greatest value. */
  datatype Metric = Count | Mean(field: string) | Extremum(field: string, wantMin: bool)

  /** The field's non-null values, in record order. */
  function ValuesAt(records: seq<Record>, field: string): seq<Value> {
    if records == [] then []
    else
      var rest := ValuesAt(records[..|records| - 1], field);
      var v := GetPath(records[|records| - 1].fields, field);
      if v.Some? && !v.value.Null? then rest + [v.value] else rest
  }

  predicate Beats(env: Env, v: Value, cur: Value, wantMin: bool) {
    Order(env, v, cur) == Some(if wantMin then Less else Greater)
  }

  /** The running best: a later value replaces it only by beating it. */
  function Extreme(env: Env, values: seq<Value>, wantMin: bool): Option<Value> {
    if values == [] then None
    else
      var v := values[|values| - 1];
      match Extreme(env, values[..|values| - 1], wantMin)
      case None => Some(v)
      case Some(cur) => if Beats(env, v, cur, wantMin) then Some(v) else Some(cur)
  }

  function MetricOf(env: Env, m: Metric, records: seq<Record>): Value {
    match m
    case Count => Int(|records|)
    case Mean(field) => Average(NumbersAt(env, records, field))
    case Extremum(field, wantMin) =>
      var best := Extreme(env, ValuesAt(records, field), wantMin);
      if best.Some? then best.value else Null
  }

  /** `compute_metric` */
  method ComputeMetric(env: Env, m: Metric, matched: seq<Record>) returns (value: Value)
    ensures value == MetricOf(env, m, matched)
  {
    hide Order, GetPath, NumbersAt, Average;
    if m.Count? {
      return Int(|matched|);
    }
    if m.Mean? {
      value := ComputeAverage(env, matched, m.field);
      return;
    }
    var best: Option<Value> := None;
    var i := 0;
    while i < |matched|
      invariant 0 <= i <= |matched|
      invariant best == Extreme(env, ValuesAt(matched[..i], m.field), m.wantMin)
    {
      assert matched[..i + 1][..i] == matched[..i];
      var v := GetPath(matched[i].fields, m.field);
      if v.Some? && !v.value.Null? {
        ghost var before := ValuesAt(matched[..i], m.field);
        assert (before + [v.value])[..|before|] == before;
        if best.None? || Beats(env, v.value, best.value, m.wantMin) {
          best := Some(v.value);
        }
      }
      i := i + 1;
    }
    assert matched[..i] == matched;
    value := if best.Some? then best.value else Null;
  }

  /** Values of one orderable kind. */
  ghost predicate Orderable(kind: int, values: seq<Value>) {
    forall v :: v in values ==> Plain(v) && Kind(v) == kind
  }

  predicate Plain(v: Value) {
    v.Bool? || v.Int? || (v.Float? && !v.f.NaN?) || v.Text? || v.Timestamp?
  }

  lemma OrderIsTotal(env: Env, a: Value, b: Value)
    requires Plain(a) && Plain(b) && Kind(a) == Kind(b)
    ensures Order(env, a, b).Some? && Order(env, a, a) == Some(Equal)
    ensures Order(env, a, b) == Some(Less) <==> Order(env, b, a) == Some(Greater)
  {
    if a.Text? {
      TextIsOrdered(a.s, b.s);
      TextIsOrdered(a.s, a.s);
    }
  }

  lemma OrderIsTransitive(env: Env, a: Value, b: Value, c: Value)
    requires Plain(a) && Plain(b) && Plain(c) && Kind(a) == Kind(b) == Kind(c)
    requires Order(env, a, b) != Some(Greater) && Order(env, b, c) != Some(Greater)
    ensures Order(env, a, c) != Some(Greater)
  {
    if a.Text? {
      TextIsTransitive(a.s, b.s, c.s);
    }
  }

  /** One of the values, and none of them beats it. */
  ghost predicate IsExtreme(env: Env, values: seq<Value>, wantMin: bool, best: Value) {
    best in values && forall v :: v in values ==> !Beats(env, v, best, wantMin)
  }

  /** A value not beaten by one that is itself not beaten by a third. */
  lemma UnbeatenChain(env: Env, a: Value, b: Value, c: Value, wantMin: bool)
    requires Plain(a) && Plain(b) && Plain(c) && Kind(a) == Kind(b) == Kind(c)
    requires !Beats(env, a, b, wantMin) && !Beats(env, b, c, wantMin)
    ensures !Beats(env, a, c, wantMin)
  {
    hide Order, Plain, Kind;
    OrderIsTotal(env, a, b);
    OrderIsTotal(env, b, c);
    OrderIsTotal(env, a, c);
    if wantMin {
      OrderIsTotal(env, c, b);
      OrderIsTotal(env, b, a);
      if Order(env, c, b) != Some(Greater) && Order(env, b, a) != Some(Greater) {
        OrderIsTransitive(env, c, b, a);
      }
    } else {
      OrderIsTransitive(env, a, b, c);
    }
  }

  lemma ExtremeStep(env: Env, kind: int, front: seq<Value>, v: Value, cur: Value, wantMin: bool)
    requires Orderable(kind, front + [v]) && IsExtreme(env, front, wantMin, cur)
    ensures IsExtreme(env, front + [v], wantMin, if Beats(env, v, cur, wantMin) then v else cur)
  {
    hide Order, Plain, Kind;
    assert cur in front + [v] && v in front + [v];
    OrderIsTotal(env, v, v);
    if Beats(env, v, cur, wantMin) {
      OrderIsTotal(env, v, cur);
      OrderIsTotal(env, cur, v);
      forall w | w in front ensures !Beats(env, w, v, wantMin) {
        assert w in front + [v];
        UnbeatenChain(env, w, cur, v, wantMin);
      }
    }
  }

  /** Over values of one kind, the running best is extreme. */
  lemma {:induction false} ExtremeIsExtreme(env: Env, kind: int, values: seq<Value>, wantMin: bool)
    requires Orderable(kind, values)
    ensures values != [] <==> Extreme(env, values, wantMin).Some?
    ensures values != [] ==> IsExtreme(env, values, wantMin, Extreme(env, values, wantMin).value)
  {
    hide Beats, Plain, Kind, IsExtreme;
    if values != [] {
      var front, v := values[..|values| - 1], values[|values| - 1];
      assert values == front + [v];
      ExtremeIsExtreme(env, kind, front, wantMin);
      if front == [] {
        OnlyIsExtreme(env, kind, v, wantMin);
        assert values == [v];
      } else {
        ExtremeStep(env, kind, front, v, Extreme(env, front, wantMin).value, wantMin);
      }
    }
  }

  /** The minimum is a value that no value is under, and the maximum one that is under no value. */
  lemma ExtremeMeaning(env: Env, kind: int, values: seq<Value>)
    requires Orderable(kind, values) && values != []
    ensures var least := Extreme(env, values, true);
            least.Some? && least.value in values && forall v :: v in values ==> !Under(env, v, least.value)
    ensures var most := Extreme(env, values, false);
            most.Some? && most.value in values && forall v :: v in values ==> !Under(env, most.value, v)
    ensures forall v, w :: v in values && w in values ==> Comparable(v, w)
  {
    hide Order, Under, Extreme;
    ExtremeIsExtreme(env, kind, values, true);
    ExtremeIsExtreme(env, kind, values, false);
    forall v, w | v in values && w in values ensures Comparable(v, w) {
      assert Plain(v) && Plain(w) && Kind(v) == Kind(w);
    }
    var least, most := Extreme(env, values, true).value, Extreme(env, values, false).value;
    forall v | v in values ensures !Under(env, v, least) && !Under(env, most, v) {
      assert !Beats(env, v, least, true) && !Beats(env, v, most, false);
      OrderMeaning(env, v, least);
      OrderMeaning(env, v, most);
    }
  }

  lemma OnlyIsExtreme(env: Env, kind: int, v: Value, wantMin: bool)
    requires Plain(v)
    ensures IsExtreme(env, [v], wantMin, v)
  {
    hide Order, Plain, Kind;
    OrderIsTotal(env, v, v);
  }

  // ---- groups ----

  type Members = map<ScalarKey, (Value, seq<Record>)>

  /** The matched records of one group, in order. */
  function MembersOf(matched: seq<Record>, field: string, k: ScalarKey): seq<Record> {
    if matched == [] then []
    else
      var rest := MembersOf(matched[..|matched| - 1], field, k);
      var r := matched[|matched| - 1];
      if KeyAt(r, field) == Keyed(k) then rest + [r] else rest
  }

  ghost predicate Grouped(g: Members, matched: seq<Record>, field: string) {
    forall k :: (k in g <==> MembersOf(matched, field, k) != [])
             && (k in g ==> g[k] == (ValueOf(k), MembersOf(matched, field, k)))
  }

  method GroupRecords(matched: seq<Record>, field: string) returns (groups: Option<Members>)
    ensures groups.None? <==> exists i :: 0 <= i < |matched| && KeyAt(matched[i], field).NotScalar?
    ensures groups.Some? ==> Grouped(groups.value, matched, field)
  {
    hide KeyAt;
    var g: Members := map[];
    var i := 0;
    while i < |matched|
      invariant 0 <= i <= |matched| && Grouped(g, matched[..i], field)
      invariant forall j :: 0 <= j < i ==> !KeyAt(matched[j], field).NotScalar?
    {
      assert matched[..i + 1][..i] == matched[..i] && [] + [matched[i]] == [matched[i]];
      match KeyAt(matched[i], field) {
        case NotScalar => return None;
        case NoKey =>
        case Keyed(k) => g := g[k := if k in g then (g[k].0, g[k].1 + [matched[i]]) else (ValueOf(k), [matched[i]])];
      }
      i := i + 1;
    }
    assert matched[..i] == matched;
    groups := Some(g);
  }

  /** The records that fall into some group. */
  function KeyedRecords(matched: seq<Record>, field: string): seq<Record> {
    if matched == [] then []
    else
      var rest := KeyedRecords(matched[..|matched| - 1], field);
      var r := matched[|matched| - 1];
      if KeyAt(r, field).Keyed? then rest + [r] else rest
  }

  /** A record occurs in its own group as often as it was matched, and in no other. */
  lemma {:induction false} MembersExact(matched: seq<Record>, field: string, k: ScalarKey, r: Record)
    ensures multiset(MembersOf(matched, field, k))[r] == if KeyAt(r, field) == Keyed(k) then multiset(matched)[r] else 0
  {
    hide KeyAt;
    if matched != [] {
      var last := |matched| - 1;
      MembersExact(matched[..last], field, k, r);
      assert matched == matched[..last] + [matched[last]];
    }
  }

  lemma {:induction false} SizesAddUp(keys: set<ScalarKey>, matched: seq<Record>, field: string)
    requires forall r :: r in matched && KeyAt(r, field).Keyed? ==> KeyAt(r, field).key in keys
    ensures Sums.Sum(keys, (k: ScalarKey) => |MembersOf(matched, field, k)|) == |KeyedRecords(matched, field)|
  {
    hide KeyAt;
    var f := (k: ScalarKey) => |MembersOf(matched, field, k)|;
    if matched == [] {
      Sums.SumZero(keys, f);
    } else {
      var front, r := matched[..|matched| - 1], matched[|matched| - 1];
      var f0 := (k: ScalarKey) => |MembersOf(front, field, k)|;
      SizesAddUp(keys, front, field);
      if KeyAt(r, field).Keyed? {
        var k := KeyAt(r, field).key;
        Sums.SumTake(keys, f, k);
        Sums.SumTake(keys, f0, k);
        Sums.SumSame(keys - {k}, f, f0);
      } else {
        Sums.SumSame(keys, f, f0);
      }
    }
  }

  /** The groups partition the keyed records: sizes add up, and every record sits in its group alone. */
  lemma GroupsPartition(g: Members, matched: seq<Record>, field: string)
    requires Grouped(g, matched, field)
    ensures Sums.Sum(g.Keys, (k: ScalarKey) => |MembersOf(matched, field, k)|) == |KeyedRecords(matched, field)|
    ensures forall k, r :: k in g ==>
              multiset(g[k].1)[r] == if KeyAt(r, field) == Keyed(k) then multiset(matched)[r] else 0
    ensures forall r :: r in matched && KeyAt(r, field).Keyed? ==> KeyAt(r, field).key in g
  {
    hide KeyAt, MembersOf;
    forall r | r in matched && KeyAt(r, field).Keyed? ensures KeyAt(r, field).key in g {
      MembersExact(matched, field, KeyAt(r, field).key, r);
      assert r in multiset(matched);
    }
    SizesAddUp(g.Keys, matched, field);
    forall k, r | k in g ensures multiset(g[k].1)[r] == if KeyAt(r, field) == Keyed(k) then multiset(matched)[r] else 0 {
      MembersExact(matched, field, k, r);
    }
  }

  // ---- extremes over groups ----

  lemma {:induction false} ValueHeld(records: seq<Record>, field: string, v: Value)
    ensures v in ValuesAt(records, field)
            <==> exists i :: 0 <= i < |records| && GetPath(records[i].fields, field) == Some(v) && !v.Null?
  {
    hide GetPath;
    if records != [] {
      var last := |records| - 1;
      var front := records[..last];
      ValueHeld(front, field, v);
      if i :| 0 <= i < |records| && GetPath(records[i].fields, field) == Some(v) && !v.Null? {
        if i < last {
          assert front[i] == records[i];
        }
      }
    }
  }

  lemma {:induction false} KeyedExact(matched: seq<Record>, field: string, r: Record)
    ensures r in KeyedRecords(matched, field) <==> r in matched && KeyAt(r, field).Keyed?
  {
    hide KeyAt;
    if matched != [] {
      var last := |matched| - 1;
      KeyedExact(matched[..last], field, r);
      assert matched == matched[..last] + [matched[last]];
    }
  }

  /** The values of a field over the keyed records are those over the groups. */
  lemma ValuesSplit(g: Members, matched: seq<Record>, groupField: string, field: string, v: Value)
    requires Grouped(g, matched, groupField)
    ensures v in ValuesAt(KeyedRecords(matched, groupField), field) <==> exists k :: k in g && v in ValuesAt(g[k].1, field)
  {
    hide KeyAt, MembersOf, ValuesAt, KeyedRecords, GetPath;
    var all := KeyedRecords(matched, groupField);
    ValueHeld(all, field, v);
    GroupsPartition(g, matched, groupField);
    if v in ValuesAt(all, field) {
      var i :| 0 <= i < |all| && GetPath(all[i].fields, field) == Some(v) && !v.Null?;
      KeyedExact(matched, groupField, all[i]);
      var k := KeyAt(all[i], groupField).key;
      assert all[i] in multiset(g[k].1);
      var j :| 0 <= j < |g[k].1| && g[k].1[j] == all[i];
      ValueHeld(g[k].1, field, v);
    }
    if k :| k in g && v in ValuesAt(g[k].1, field) {
      ValueHeld(g[k].1, field, v);
      var i :| 0 <= i < |g[k].1| && GetPath(g[k].1[i].fields, field) == Some(v) && !v.Null?;
      var r := g[k].1[i];
      assert r in multiset(g[k].1) && r in multiset(matched);
      KeyedExact(matched, groupField, r);
      var j :| 0 <= j < |all| && all[j] == r;
    }
  }

  predicate Ties(env: Env, best: Option<Value>, v: Value) {
    best.Some? && Order(env, best.value, v) == Some(Equal)
  }

  /** The extreme of the keyed records is the extreme of the groups' extremes: no group's beats it
      and some group's ties with it. */
  lemma GroupExtremes(env: Env, g: Members, matched: seq<Record>, groupField: string, field: string, wantMin: bool, kind: int)
    requires Grouped(g, matched, groupField) && Orderable(kind, ValuesAt(KeyedRecords(matched, groupField), field))
    ensures var all := Extreme(env, ValuesAt(KeyedRecords(matched, groupField), field), wantMin);
            && (forall k :: k in g ==>
                  var best := Extreme(env, ValuesAt(g[k].1, field), wantMin);
                  best.Some? ==> all.Some? && !Beats(env, best.value, all.value, wantMin))
            && (all.Some? ==> exists k :: k in g && Ties(env, Extreme(env, ValuesAt(g[k].1, field), wantMin), all.value))
  {
    hide KeyedRecords, MembersOf, ValuesAt, Grouped, Extreme, Order, Plain, Kind;
    var values := ValuesAt(KeyedRecords(matched, groupField), field);
    ExtremeIsExtreme(env, kind, values, wantMin);
    forall k | k in g
      ensures Orderable(kind, ValuesAt(g[k].1, field))
      ensures var best := Extreme(env, ValuesAt(g[k].1, field), wantMin); best.Some? ==> best.value in values
    {
      forall v | v in ValuesAt(g[k].1, field) ensures v in values {
        ValuesSplit(g, matched, groupField, field, v);
      }
      ExtremeIsExtreme(env, kind, ValuesAt(g[k].1, field), wantMin);
    }
    if values != [] {
      var all := Extreme(env, values, wantMin).value;
      ValuesSplit(g, matched, groupField, field, all);
      var k :| k in g && all in ValuesAt(g[k].1, field);
      ExtremeIsExtreme(env, kind, ValuesAt(g[k].1, field), wantMin);
      var best := Extreme(env, ValuesAt(g[k].1, field), wantMin).value;
      OrderIsTotal(env, best, all);
      OrderIsTotal(env, all, best);
      assert !Beats(env, all, best, wantMin) && !Beats(env, best, all, wantMin);
      var o := Order(env, best, all).value;
      assert o.Less? || o.Equal? || o.Greater?;
    }
  }

  // ---- totals over groups ----

  /** The groups' totals added up in some order of the groups. */
  function GroupTotals(env: Env, matched: seq<Record>, groupField: string, field: string, order: seq<ScalarKey>): Float64 {
    if order == [] then ZERO
    else
      var last := |order| - 1;
      Add(GroupTotals(env, matched, groupField, field, order[..last]),
          Total(NumbersAt(env, MembersOf(matched, groupField, order[last]), field)))
  }

  function GroupCounts(env: Env, matched: seq<Record>, groupField: string, field: string, order: seq<ScalarKey>): nat {
    if order == [] then 0
    else
      var last := |order| - 1;
      GroupCounts(env, matched, groupField, field, order[..last]) + |NumbersAt(env, MembersOf(matched, groupField, order[last]), field)|
  }

  lemma TotalSnoc(env: Env, records: seq<Record>, r: Record, field: string)
    ensures var had, more := NumbersAt(env, records, field), NumberAt(env, r, field);
            NumbersAt(env, records + [r], field) == had + more && Total(had + more) == Add(Total(had), Total(more))
  {
    hide Add, NumberAt;
    var had, more := NumbersAt(env, records, field), NumberAt(env, r, field);
    assert (records + [r])[..|records|] == records;
    AtMostOne(env, r, field);
    if more == [] {
      assert had + more == had;
      AddIsAssociative(Total(had), ZERO, ZERO);
    } else {
      assert had + more == had + [more[0]] && (had + [more[0]])[..|had|] == had;
      assert more == [more[0]] && [more[0]][..0] == [];
      AddIsAssociative(more[0], ZERO, ZERO);
      AddIsAssociative(ZERO, more[0], ZERO);
    }
  }

  /** One more record changes the total of its own group alone. */
  lemma {:induction false} OneGroupGrows(env: Env, matched: seq<Record>, r: Record, groupField: string, field: string, order: seq<ScalarKey>)
    requires NoRepeats(order)
    ensures var mine := KeyAt(r, groupField).Keyed? && KeyAt(r, groupField).key in order;
            var more := if mine then NumberAt(env, r, field) else [];
            && GroupTotals(env, matched + [r], groupField, field, order)
               == Add(GroupTotals(env, matched, groupField, field, order), Total(more))
            && GroupCounts(env, matched + [r], groupField, field, order) == GroupCounts(env, matched, groupField, field, order) + |more|
  {
    hide Add, NumberAt, KeyAt, NumbersAt, Total;
    TotalEmpty();
    if order == [] {
      AddIsAssociative(ZERO, ZERO, ZERO);
    } else {
      var last := |order| - 1;
      var front, k := order[..last], order[last];
      OneGroupGrows(env, matched, r, groupField, field, front);
      assert (matched + [r])[..|matched|] == matched;
      var members := MembersOf(matched, groupField, k);
      var t, u, x := GroupTotals(env, matched, groupField, field, front), Total(NumbersAt(env, members, field)),
                     Total(NumberAt(env, r, field));
      TotalSnoc(env, members, r, field);
      AddIsAssociative(t, u, x);
      AddIsAssociative(t, x, u);
      AddIsAssociative(u, x, t);
      AddIsAssociative(t, u, ZERO);
      AddIsAssociative(t, ZERO, u);
      assert k !in front;
    }
  }

  lemma TotalEmpty()
    ensures Total([]) == ZERO
  {
  }

  /** Whatever order the groups come in, their totals and counts add up to those of the keyed records,
      so the overall average is the groups' averages weighed by their counts. */
  lemma {:induction false} TotalsAddUp(env: Env, matched: seq<Record>, groupField: string, field: string, order: seq<ScalarKey>)
    requires NoRepeats(order) && forall r :: r in matched && KeyAt(r, groupField).Keyed? ==> KeyAt(r, groupField).key in order
    ensures var numbers := NumbersAt(env, KeyedRecords(matched, groupField), field);
            && GroupTotals(env, matched, groupField, field, order) == Total(numbers)
            && GroupCounts(env, matched, groupField, field, order) == |numbers|
  {
    hide Add, NumberAt, KeyAt, NumbersAt, Total;
    if matched == [] {
      NoTotals(env, groupField, field, order);
    } else {
      var front, r := matched[..|matched| - 1], matched[|matched| - 1];
      assert matched == front + [r] && r in matched;
      TotalsAddUp(env, front, groupField, field, order);
      OneGroupGrows(env, front, r, groupField, field, order);
      TotalSnoc(env, KeyedRecords(front, groupField), r, field);
      TotalEmpty();
      AddIsAssociative(Total(NumbersAt(env, KeyedRecords(front, groupField), field)), ZERO, ZERO);
    }
  }

  lemma {:induction false} NoTotals(env: Env, groupField: string, field: string, order: seq<ScalarKey>)
    ensures GroupTotals(env, [], groupField, field, order) == ZERO == Total(NumbersAt(env, [], field))
    ensures GroupCounts(env, [], groupField, field, order) == 0 == |NumbersAt(env, [], field)|
  {
    if order != [] {
      NoTotals(env, groupField, field, order[..|order| - 1]);
    }
  }

  // ---- the result ----

  function MetricsOf(env: Env, metrics: seq<Metric>, records: seq<Record>): seq<Value> {
    if metrics == [] then []
    else MetricsOf(env, metrics[..|metrics| - 1], records) + [MetricOf(env, metrics[|metrics| - 1], records)]
  }

  method ComputeMetrics(env: Env, metrics: seq<Metric>, records: seq<Record>) returns (values: seq<Value>)
    ensures values == MetricsOf(env, metrics, records)
  {
    hide MetricOf;
    values := [];
    var i := 0;
    while i < |metrics|
      invariant 0 <= i <= |metrics| && values == MetricsOf(env, metrics[..i], records)
    {
      assert metrics[..i + 1][..i] == metrics[..i];
      var v := ComputeMetric(env, metrics[i], records);
      values := values + [v];
      i := i + 1;
    }
    assert metrics[..i] == metrics;
  }

  ghost function GroupBucket(env: Env, metrics: seq<Metric>, g: Members, k: ScalarKey): Bucket
    requires k in g
  {
    Bucket(g[k].0, |g[k].1|, MetricsOf(env, metrics, g[k].1))
  }

  ghost function GroupBuckets(env: Env, metrics: seq<Metric>, g: Members): set<Bucket> {
    set k | k in g :: GroupBucket(env, metrics, g, k)
  }

  lemma BucketsApart(env: Env, metrics: seq<Metric>, g: Members, j: ScalarKey, k: ScalarKey)
    requires WellKeyed(g) && j in g && k in g && GroupBucket(env, metrics, g, j).value == GroupBucket(env, metrics, g, k).value
    ensures j == k
  {
    hide MetricsOf;
    assert ScalarKeyOf(ValueOf(j)) == Keyed(j) && ScalarKeyOf(ValueOf(k)) == Keyed(k);
  }

  lemma GroupsHold(env: Env, metrics: seq<Metric>, g: Members)
    requires WellKeyed(g)
    ensures OnePerScalar(GroupBuckets(env, metrics, g))
    ensures |GroupBuckets(env, metrics, g)| == |g|
  {
    hide MetricsOf, GroupBucket;
    var buckets := GroupBuckets(env, metrics, g);
    forall b | b in buckets ensures IsScalar(b.value) {
      var k :| k in g && b == GroupBucket(env, metrics, g, k);
      GroupBucketValue(env, metrics, g, k);
    }
    forall a, b | a in buckets && b in buckets && a.value == b.value ensures a == b {
      var j :| j in g && a == GroupBucket(env, metrics, g, j);
      var k :| k in g && b == GroupBucket(env, metrics, g, k);
      BucketsApart(env, metrics, g, j, k);
    }
    ImageSize(env, metrics, g, g.Keys);
  }

  lemma GroupBucketValue(env: Env, metrics: seq<Metric>, g: Members, k: ScalarKey)
    requires WellKeyed(g) && k in g
    ensures GroupBucket(env, metrics, g, k).value == ValueOf(k)
  {
  }

  lemma {:induction false} ImageSize(env: Env, metrics: seq<Metric>, g: Members, keys: set<ScalarKey>)
    requires WellKeyed(g) && keys <= g.Keys
    ensures |set k | k in keys :: GroupBucket(env, metrics, g, k)| == |keys|
    decreases |keys|
  {
    hide MetricsOf, GroupBucket;
    var image := set k | k in keys :: GroupBucket(env, metrics, g, k);
    if keys != {} {
      var x :| x in keys;
      var rest := set k | k in keys - {x} :: GroupBucket(env, metrics, g, k);
      ImageSize(env, metrics, g, keys - {x});
      if GroupBucket(env, metrics, g, x) in rest {
        var k :| k in keys - {x} && GroupBucket(env, metrics, g, k) == GroupBucket(env, metrics, g, x);
        BucketsApart(env, metrics, g, k, x);
      }
      assert image == rest + {GroupBucket(env, metrics, g, x)};
    }
  }

  /** The size of a group is the number of records that hold its value. */
  lemma {:induction false} MembersCountPlaces(matched: seq<Record>, field: string, k: ScalarKey)
    ensures |MembersOf(matched, field, k)| == Tally(matched, field, k)
  {
    if matched != [] {
      MembersCountPlaces(matched[..|matched| - 1], field, k);
    }
  }

  /** The group buckets count, for every scalar held, the records that hold it. */
  lemma GroupsCount(env: Env, metrics: seq<Metric>, g: Members, matched: seq<Record>, field: string)
    requires Grouped(g, matched, field)
    ensures CountsOf(GroupBuckets(env, metrics, g), matched, field)
  {
    hide KeyAt, GetPath, Tally, IsScalar, MetricsOf, MembersOf;
    assert WellKeyed(g);
    GroupsHold(env, metrics, g);
    var buckets := GroupBuckets(env, metrics, g);
    forall b | b in buckets ensures b.count == |Holding(matched, field, b.value)| && b.count > 0 {
      var k :| k in g && b == GroupBucket(env, metrics, g, k);
      MembersCountPlaces(matched, field, k);
      TallyCountsPlaces(matched, field, k);
    }
    forall i | 0 <= i < |matched| && HoldsScalar(matched[i], field)
      ensures HasBucket(buckets, GetPath(matched[i].fields, field).value)
    {
      var k := KeyOfScalar(GetPath(matched[i].fields, field).value);
      MembersCountPlaces(matched, field, k);
      TallyCountsPlaces(matched, field, k);
      assert i in Holding(matched, field, ValueOf(k));
      assert GroupBucket(env, metrics, g, k) in buckets;
    }
  }

  /** One value per metric, each taken over the records that hold the bucket's value, in order. */
  ghost predicate TellsMetrics(env: Env, metrics: seq<Metric>, matched: seq<Record>, field: string, b: Bucket) {
    && IsScalar(b.value) && |b.metrics| == |metrics|
    && forall i :: 0 <= i < |metrics| ==> b.metrics[i] == MetricOf(env, metrics[i], MembersOf(matched, field, KeyOfScalar(b.value)))
  }

  lemma {:induction false} MetricsOneByOne(env: Env, metrics: seq<Metric>, records: seq<Record>)
    ensures |MetricsOf(env, metrics, records)| == |metrics|
    ensures forall i :: 0 <= i < |metrics| ==> MetricsOf(env, metrics, records)[i] == MetricOf(env, metrics[i], records)
  {
    hide MetricOf;
    if metrics != [] {
      MetricsOneByOne(env, metrics[..|metrics| - 1], records);
    }
  }

  lemma GroupsTellMetrics(env: Env, metrics: seq<Metric>, g: Members, matched: seq<Record>, field: string, b: Bucket)
    requires Grouped(g, matched, field) && b in GroupBuckets(env, metrics, g)
    ensures TellsMetrics(env, metrics, matched, field, b)
  {
    hide KeyAt, MetricsOf, MetricOf, MembersOf;
    var k :| k in g && b == GroupBucket(env, metrics, g, k);
    MetricsOneByOne(env, metrics, g[k].1);
    assert ScalarKeyOf(ValueOf(k)) == Keyed(k);
  }

  method ListGroups(env: Env, metrics: seq<Metric>, g: Members) returns (listed: seq<Bucket>)
    requires WellKeyed(g)
    ensures multiset(listed) == multiset(GroupBuckets(env, metrics, g))
  {
    hide MetricsOf, WellKeyed;
    listed := [];
    var todo := g.Keys;
    ghost var done: set<Bucket> := {};
    assert g.Keys - todo == {};
    while todo != {}
      invariant todo <= g.Keys
      invariant done == set k | k in g.Keys - todo :: GroupBucket(env, metrics, g, k)
      invariant multiset(listed) == multiset(done)
      decreases |todo|
    {
      var k :| k in todo;
      var values := ComputeMetrics(env, metrics, g[k].1);
      var b := Bucket(g[k].0, |g[k].1|, values);
      assert b == GroupBucket(env, metrics, g, k);
      assert b !in done by {
        if b in done {
          var j :| j in g.Keys - todo && b == GroupBucket(env, metrics, g, j);
          BucketsApart(env, metrics, g, j, k);
        }
      }
      assert g.Keys - (todo - {k}) == (g.Keys - todo) + {k};
      listed := listed + [b];
      done := done + {b};
      todo := todo - {k};
    }
    assert done == GroupBuckets(env, metrics, g);
  }

  /** `compute_groups`: the top groups and the number of all of them. */
  method ComputeGroups(env: Env, keyText: ScalarKey -> string, matched: seq<Record>, field: string, metrics: seq<Metric>, limit: nat)
    returns (out: Option<(seq<Bucket>, nat)>, ghost groups: Members)
    ensures out.None? <==> exists i :: 0 <= i < |matched| && HoldsCompound(matched[i], field)
    ensures out.Some? ==> TellsCounts(matched, field, limit, out.value.0)
                          && forall b :: b in out.value.0 ==> TellsMetrics(env, metrics, matched, field, b)
    ensures out.Some? ==> Grouped(groups, matched, field) && out.value.1 == |groups|
                          && SomeOf(GroupBuckets(env, metrics, groups), limit, out.value.0)
                          && |out.value.0| == if limit < |groups| then limit else |groups|
    ensures out.Some? && Sortable(env, keyText, GroupBuckets(env, metrics, groups)) ==>
              && RankedTop(env, keyText, GroupBuckets(env, metrics, groups), limit, out.value.0)
              && InBucketOrder(env, keyText, GroupBuckets(env, metrics, groups), out.value.0)
  {
    hide KeyAt, MembersOf, GroupBuckets, Sortable, OnePerScalar, RankedTop, SomeOf, InBucketOrder, TellsCounts, TellsMetrics,
      HoldsCompound;
    CompoundsHaveNoKey(matched, field);
    groups := map[];
    var g := GroupRecords(matched, field);
    if g.None? {
      out := None;
    } else {
      groups := g.value;
      assert WellKeyed(g.value);
      var listed := ListGroups(env, metrics, g.value);
      var top := RankBuckets(env, keyText, listed, GroupBuckets(env, metrics, g.value), limit);
      GroupsHold(env, metrics, g.value);
      GroupsCount(env, metrics, g.value, matched, field);
      SomeTellCounts(GroupBuckets(env, metrics, g.value), matched, field, limit, top);
      forall b | b in top ensures TellsMetrics(env, metrics, matched, field, b) {
        SomeAreOf(GroupBuckets(env, metrics, g.value), limit, top, b);
        GroupsTellMetrics(env, metrics, g.value, matched, field, b);
      }
      out := Some((top, |g.value|));
    }
  }
}
