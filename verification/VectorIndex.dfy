/** Exact vector search, and the approximate preview that must agree with it. */
module VectorIndex {
  import opened Sequences
  import opened Wrappers
  import opened Ranking
  import opened HnswSearch
  import opened HnswGraph
  import opened HnswIndex

  type Entry = (RecordId, Vector)

  /** `e` lists the vectors of a hash map in some order. */
  ghost predicate Enumerates(e: seq<Entry>, entries: map<RecordId, Vector>) {
    && |e| == |entries|
    && (forall i :: 0 <= i < |e| ==> e[i].0 in entries && entries[e[i].0] == e[i].1)
    && (forall i, j :: 0 <= i < j < |e| ==> e[i].0 != e[j].0)
  }

  ghost function SomeOrder(entries: map<RecordId, Vector>): (e: seq<Entry>)
    ensures Enumerates(e, entries)
    decreases |entries|
  {
    if entries == map[] then []
    else
      var id :| id in entries;
      var rest := entries - {id};
      assert entries.Keys == rest.Keys + {id};
      [(id, entries[id])] + SomeOrder(rest)
  }

  ghost function IdsOf(e: seq<Entry>): set<RecordId> {
    set i | 0 <= i < |e| :: e[i].0
  }

  lemma {:induction false} DistinctCount(e: seq<Entry>)
    requires forall i, j :: 0 <= i < j < |e| ==> e[i].0 != e[j].0
    ensures |IdsOf(e)| == |e|
  {
    if e != [] {
      var last := |e| - 1;
      DistinctCount(e[..last]);
      assert IdsOf(e) == IdsOf(e[..last]) + {e[last].0};
    }
  }

  lemma SubsetSame<T>(a: set<T>, b: set<T>)
    requires a <= b && |a| == |b|
    ensures a == b
  {
    assert b == (b - a) + a;
    assert |b - a| == 0;
  }

  /** An enumeration misses nothing. */
  lemma EnumeratesAll(e: seq<Entry>, entries: map<RecordId, Vector>)
    requires Enumerates(e, entries)
    ensures IdsOf(e) == entries.Keys
  {
    DistinctCount(e);
    SubsetSame(IdsOf(e), entries.Keys);
  }

  lemma EntryCounts(e: seq<Entry>, x: Entry)
    requires forall i, j :: 0 <= i < j < |e| ==> e[i].0 != e[j].0
    ensures multiset(e)[x] == if x in e then 1 else 0
  {
    if x in e {
      var i :| 0 <= i < |e| && e[i] == x;
      assert e == e[..i] + [x] + e[i + 1..];
      assert x !in e[..i] && x !in e[i + 1..];
    }
  }

  lemma EnumeratesContains(e: seq<Entry>, entries: map<RecordId, Vector>, x: Entry)
    requires Enumerates(e, entries)
    ensures x in e <==> x.0 in entries && entries[x.0] == x.1
  {
    EnumeratesAll(e, entries);
    if x.0 in entries && entries[x.0] == x.1 {
      var i :| 0 <= i < |e| && e[i].0 == x.0;
      assert e[i] == x;
    }
  }

  /** Two enumerations of one map are permutations of each other. */
  lemma EnumerationsPermute(a: seq<Entry>, b: seq<Entry>, entries: map<RecordId, Vector>)
    requires Enumerates(a, entries) && Enumerates(b, entries)
    ensures multiset(a) == multiset(b)
  {
    forall x ensures multiset(a)[x] == multiset(b)[x] {
      EntryCounts(a, x);
      EntryCounts(b, x);
      EnumeratesContains(a, entries, x);
      EnumeratesContains(b, entries, x);
    }
  }

  /** Only vectors of the query's dimension are compared. */
  function OfDim(e: seq<Entry>, dim: nat): seq<Entry> {
    if e == [] then []
    else (if |e[0].1| == dim then [e[0]] else []) + OfDim(e[1..], dim)
  }

  lemma {:induction false} OfDimSplit(e: seq<Entry>, x: Entry, dim: nat)
    ensures OfDim(e + [x], dim) == OfDim(e, dim) + (if |x.1| == dim then [x] else [])
  {
    if e != [] {
      OfDimSplit(e[1..], x, dim);
      assert (e + [x])[1..] == e[1..] + [x];
    }
  }

  lemma {:induction false} OfDimCounts(e: seq<Entry>, dim: nat, x: Entry)
    ensures multiset(OfDim(e, dim))[x] == if |x.1| == dim then multiset(e)[x] else 0
  {
    if e != [] {
      OfDimCounts(e[1..], dim, x);
      assert e == [e[0]] + e[1..];
    }
  }

  lemma OfDimPermutes(a: seq<Entry>, b: seq<Entry>, dim: nat)
    requires multiset(a) == multiset(b)
    ensures multiset(OfDim(a, dim)) == multiset(OfDim(b, dim))
  {
    forall x ensures multiset(OfDim(a, dim))[x] == multiset(OfDim(b, dim))[x] {
      OfDimCounts(a, dim, x);
      OfDimCounts(b, dim, x);
    }
  }

  lemma {:induction false} OfDimAll(e: seq<Entry>, dim: nat)
    requires forall i :: 0 <= i < |e| ==> |e[i].1| == dim
    ensures OfDim(e, dim) == e
  {
    if e != [] {
      OfDimAll(e[1..], dim);
    }
  }

  function Scores(metric: Metric, query: Vector, e: seq<Entry>): seq<Ranked<Neighbor>> {
    MapSeq((x: Entry) => Score(metric, query, x), e)
  }

  lemma {:induction false} OfDimDistinct(metric: Metric, query: Vector, e: seq<Entry>, dim: nat)
    requires forall i, j :: 0 <= i < j < |e| ==> e[i].0 != e[j].0
    ensures DistinctIds(Scores(metric, query, OfDim(e, dim)))
    ensures forall x :: x in OfDim(e, dim) ==> x in e
  {
    if e != [] {
      var rest := OfDim(e[1..], dim);
      OfDimDistinct(metric, query, e[1..], dim);
      forall k | 0 <= k < |rest| ensures rest[k].0 != e[0].0 {
        assert rest[k] in e[1..];
      }
    }
  }

  /** The exact answer: every vector of the query's dimension, fully sorted, cut to `k`. */
  ghost function ExactAnswer(metric: Metric, query: Vector, entries: map<RecordId, Vector>, k: nat): seq<Neighbor> {
    FullSort(metric, query, OfDim(SomeOrder(entries), |query|), k)
  }

  /** The exact answer does not depend on how the hash map enumerates its entries. */
  lemma AnyOrder(metric: Metric, query: Vector, entries: map<RecordId, Vector>, k: nat, e: seq<Entry>)
    requires Enumerates(e, entries)
    ensures FullSort(metric, query, OfDim(e, |query|), k) == ExactAnswer(metric, query, entries, k)
  {
    hide Sort, OfDim;
    var some, dim := SomeOrder(entries), |query|;
    EnumerationsPermute(e, some, entries);
    OfDimPermutes(e, some, dim);
    PermutedMap((x: Entry) => Score(metric, query, x), OfDim(e, dim), OfDim(some, dim));
    OfDimDistinct(metric, query, e, dim);
    OrderIndependent(Scores(metric, query, OfDim(e, dim)), Scores(metric, query, OfDim(some, dim)));
  }

  // ---- what the exact answer is ----

  /** A vector of the query's dimension, with its similarity and its distance. */
  ghost predicate Describes(metric: Metric, query: Vector, entries: map<RecordId, Vector>, x: Neighbor) {
    && x.id in entries && |entries[x.id]| == |query|
    && x.score == metric.similarity(query, entries[x.id]) && x.distance == metric.distance(query, entries[x.id])
  }

  /** More similar, or as similar with the smaller id. */
  ghost predicate Outranks(x: Neighbor, score: real, id: RecordId) {
    x.score > score || (x.score == score && x.id < id)
  }

  ghost predicate IsListed(out: seq<Neighbor>, id: RecordId) {
    exists i :: 0 <= i < |out| && out[i].id == id
  }

  /** The most similar vectors of the query's dimension, best first; one is left out only when `k` outrank it. */
  ghost predicate MostSimilar(metric: Metric, query: Vector, entries: map<RecordId, Vector>, k: nat, out: seq<Neighbor>) {
    && |out| <= k
    && (forall i :: 0 <= i < |out| ==> Describes(metric, query, entries, out[i]))
    && (forall i, j :: 0 <= i < j < |out| ==> Outranks(out[i], out[j].score, out[j].id))
    && (forall id :: id in entries && |entries[id]| == |query| && !IsListed(out, id) ==>
          |out| == k && forall i :: 0 <= i < |out| ==> Outranks(out[i], metric.similarity(query, entries[id]), id))
  }

  lemma ScoredEntry(metric: Metric, query: Vector, e: seq<Entry>, x: Ranked<Neighbor>) returns (i: nat)
    requires x in Scores(metric, query, e)
    ensures i < |e| && x == Score(metric, query, e[i])
  {
    hide Score;
    i :| 0 <= i < |Scores(metric, query, e)| && Scores(metric, query, e)[i] == x;
  }

  lemma ScoreOf(metric: Metric, query: Vector, e: Entry)
    ensures var x := Score(metric, query, e);
            && x.item == Neighbor(e.0, metric.similarity(query, e.1), metric.distance(query, e.1)) && x.id == e.0
            && x.key == -metric.similarity(query, e.1)
  {
  }

  lemma OfDimHolds(e: seq<Entry>, dim: nat, x: Entry)
    ensures x in OfDim(e, dim) <==> x in e && |x.1| == dim
  {
    hide OfDim;
    OfDimCounts(e, dim, x);
    assert x in OfDim(e, dim) <==> x in multiset(OfDim(e, dim));
    assert x in e <==> x in multiset(e);
  }

  /** The exact answer, told by similarities alone. */
  lemma ExactMeaning(metric: Metric, query: Vector, entries: map<RecordId, Vector>, k: nat)
    ensures MostSimilar(metric, query, entries, k, ExactAnswer(metric, query, entries, k))
  {
    hide Sort, OfDim, Score, Scores, Describes, Outranks;
    var order, dim := SomeOrder(entries), |query|;
    var some := OfDim(order, dim);
    var scores := Scores(metric, query, some);
    var sorted := Sort(scores);
    var out := ExactAnswer(metric, query, entries, k);
    assert out == Items(Take(sorted, k)) by { AnswerIsSorted(metric, query, entries, k); }
    OfDimDistinct(metric, query, order, dim);
    DistinctPermutes(scores, sorted);
    forall i | 0 <= i < |sorted| ensures Describes(metric, query, entries, sorted[i].item) && Plainly(sorted[i]) {
      InOther(sorted, scores, sorted[i]);
      SortedDescribes(metric, query, entries, sorted[i]);
    }
    forall i, j | 0 <= i < j < |sorted| ensures Outranks(sorted[i].item, sorted[j].item.score, sorted[j].item.id) {
      RanksApart(sorted[i], sorted[j]);
    }
    forall id | id in entries && |entries[id]| == |query| && !IsListed(out, id)
      ensures |out| == k && forall i :: 0 <= i < |out| ==> Outranks(out[i], metric.similarity(query, entries[id]), id)
    {
      var x := Score(metric, query, (id, entries[id]));
      HasScore(metric, query, entries, id);
      InOther(scores, sorted, x);
      var j :| 0 <= j < |sorted| && sorted[j] == x;
      ScoreOf(metric, query, (id, entries[id]));
    }
  }

  lemma AnswerIsSorted(metric: Metric, query: Vector, entries: map<RecordId, Vector>, k: nat)
    ensures ExactAnswer(metric, query, entries, k)
            == Items(Take(Sort(Scores(metric, query, OfDim(SomeOrder(entries), |query|))), k))
  {
    hide Sort, OfDim, Score;
  }

  /** The rank of an answer is that of its score and id. */
  ghost predicate Plainly(x: Ranked<Neighbor>) {
    x.key == -x.item.score && x.id == x.item.id
  }

  lemma RanksApart(a: Ranked<Neighbor>, b: Ranked<Neighbor>)
    requires Plainly(a) && Plainly(b) && Le(a, b) && a.id != b.id
    ensures Outranks(a.item, b.item.score, b.item.id)
  {
  }

  lemma SortedDescribes(metric: Metric, query: Vector, entries: map<RecordId, Vector>, x: Ranked<Neighbor>)
    requires x in Scores(metric, query, OfDim(SomeOrder(entries), |query|))
    ensures Describes(metric, query, entries, x.item) && Plainly(x)
  {
    hide OfDim, Score, Scores;
    var order := SomeOrder(entries);
    var some := OfDim(order, |query|);
    var i := ScoredEntry(metric, query, some, x);
    OfDimHolds(order, |query|, some[i]);
    ScoreOf(metric, query, some[i]);
  }

  lemma HasScore(metric: Metric, query: Vector, entries: map<RecordId, Vector>, id: RecordId)
    requires id in entries && |entries[id]| == |query|
    ensures Score(metric, query, (id, entries[id])) in Scores(metric, query, OfDim(SomeOrder(entries), |query|))
  {
    hide OfDim, Score;
    var order, x := SomeOrder(entries), (id, entries[id]);
    EnumeratesContains(order, entries, x);
    OfDimHolds(order, |query|, x);
    var some := OfDim(order, |query|);
    var i :| 0 <= i < |some| && some[i] == x;
    assert Scores(metric, query, some)[i] == Score(metric, query, x);
  }

  method Enumerate(entries: map<RecordId, Vector>) returns (e: seq<Entry>)
    ensures Enumerates(e, entries)
  {
    e := [];
    var rest := entries.Keys;
    while rest != {}
      invariant rest <= entries.Keys && |e| + |rest| == |entries|
      invariant forall i :: 0 <= i < |e| ==> e[i].0 in entries && e[i].0 !in rest && entries[e[i].0] == e[i].1
      invariant forall i, j :: 0 <= i < j < |e| ==> e[i].0 != e[j].0
      decreases |rest|
    {
      var id :| id in rest;
      e := e + [(id, entries[id])];
      rest := rest - {id};
    }
  }

  /** Build a graph by inserting the entries in order, each at the layer drawn for it. */
  method BuildGraph(entries: seq<Entry>, draws: seq<nat>, metric: Metric, m: nat, efConstruction: nat) returns (h: Hnsw)
    requires |draws| == |entries|
    ensures fresh(h) && h.metric == metric && h.m == m && h.efConstruction == efConstruction
    ensures h.Valid() && AllEntries(h.View()) == entries
    ensures m > 0 && efConstruction > 0 && |entries| <= 2 * m + 1 ==> BaseConnected(h.links)
  {
    hide BaseConnected, LinksOk, Inserted;
    h := new Hnsw(metric, m, efConstruction);
    EmptyConnected();
    var i := 0;
    while i < |entries|
      invariant 0 <= i <= |entries| && fresh(h) && h.Valid()
      invariant AllEntries(h.View()) == entries[..i]
      invariant m > 0 && efConstruction > 0 && |entries| <= 2 * m + 1 ==> BaseConnected(h.links)
    {
      ghost var before := h.View();
      ghost var _, _, _ := h.Insert(entries[i].0, entries[i].1, draws[i]);
      OneMoreEntry(before, h.View(), entries[i]);
      assert entries[..i + 1] == entries[..i] + [entries[i]];
      i := i + 1;
    }
    assert entries[..i] == entries;
  }

  lemma EmptyConnected()
    ensures BaseConnected([])
  {
  }

  lemma OneMoreEntry(g: Graph, g': Graph, x: Entry)
    requires |g.ids| == |g.vectors| && g'.ids == g.ids + [x.0] && g'.vectors == g.vectors + [x.1]
    ensures AllEntries(g') == AllEntries(g) + [x]
  {
  }

  datatype MetricName = Cosine | Euclidean | DotProduct

  datatype VectorError = NoVectorIndex | DimensionMismatch | InvalidM | InvalidEfConstruction

  /** `HnswParams::validate`. */
  function ValidateParams(m: nat, efConstruction: nat): Option<VectorError> {
    if m == 0 || m > 512 then Some(InvalidM)
    else if efConstruction == 0 || efConstruction > 4096 then Some(InvalidEfConstruction)
    else None
  }

  /** What the approximate graphs of a collection are cached under. */
  datatype AnnKey = AnnKey(field: string, metric: MetricName, m: nat, efConstruction: nat)

  /** A well-formed graph over exactly these vectors, connected at the base while they are few. */
  ghost predicate BuiltFrom(b: Built, key: AnnKey, entries: map<RecordId, Vector>) {
    && WellFormed(b.graph, b.entry, b.maxLayer, key.m)
    && Enumerates(AllEntries(b.graph), entries)
    && (key.m > 0 && key.efConstruction > 0 && |entries| <= 2 * key.m + 1 ==> BaseConnected(b.graph.links))
  }

  function BeamWidth(k: nat, efSearch: nat): nat {
    if efSearch < k then k else efSearch
  }

  /** `out` is what a beam search of the graph answers. */
  ghost predicate BeamAnswers(metric: Metric, b: Built, query: Vector, k: nat, efSearch: nat, out: seq<Neighbor>) {
    if k == 0 || b.graph.ids == [] then out == []
    else b.entry.Some? && Approximates(metric, b.graph, b.entry.value, b.maxLayer, query, k, BeamWidth(k, efSearch), out)
  }

  /** Few vectors, all of the query's dimension, under a beam that covers them. */
  ghost predicate Covered(key: AnnKey, entries: map<RecordId, Vector>, query: Vector, k: nat, efSearch: nat) {
    && key.m > 0 && key.efConstruction > 0
    && (forall id :: id in entries ==> |entries[id]| == |query|)
    && |entries| <= 2 * key.m + 1 && |entries| <= BeamWidth(k, efSearch)
  }

  /** `ExactVectorIndex::nearest`: exact search through the bounded heap. */
  method ExactNearest(metric: Metric, entries: map<RecordId, Vector>, query: Vector, k: nat) returns (out: seq<Neighbor>)
    ensures out == ExactAnswer(metric, query, entries, k)
    ensures MostSimilar(metric, query, entries, k, out)
  {
    hide Sort, ExactAnswer, OfDim, MostSimilar;
    ExactMeaning(metric, query, entries, k);
    var order := Enumerate(entries);
    var candidates := OfDim(order, |query|);
    OfDimDistinct(metric, query, order, |query|);
    var top := BoundedTopK(Scores(metric, query, candidates), k);
    AnyOrder(metric, query, entries, k, order);
    out := Items(top);
  }

  /** Build the graph a cache miss asks for, over the vectors in hash order. */
  method BuildFor(metric: Metric, key: AnnKey, entries: map<RecordId, Vector>, draws: seq<nat>) returns (h: Hnsw)
    requires |draws| == |entries|
    ensures fresh(h) && h.metric == metric && h.m == key.m && h.efConstruction == key.efConstruction
    ensures BuiltFrom(h.Value(), key, entries)
  {
    hide BaseConnected, WellFormed, Enumerates, LinksOk;
    var order := Enumerate(entries);
    OrderLength(order, entries);
    h := BuildGraph(order, draws, metric, key.m, key.efConstruction);
  }

  /** Ask a graph.  Over at most `2m + 1` vectors of the query's dimension, with a beam that covers
      them, it answers exactly as exact search does, whatever layers were drawn while building. */
  method AskGraph(h: Hnsw, ghost key: AnnKey, ghost entries: map<RecordId, Vector>, query: Vector, k: nat, efSearch: nat)
    returns (out: seq<Neighbor>)
    requires h.m == key.m && BuiltFrom(h.Value(), key, entries)
    ensures BeamAnswers(h.metric, h.Value(), query, k, efSearch, out)
    ensures Covered(key, entries, query, k, efSearch) ==> out == ExactAnswer(h.metric, query, entries, k)
  {
    hide BaseConnected, ExactAnswer, FullSort, Approximates, Enumerates, LinksOk;
    EnumeratedGraph(h.View(), entries);
    WellSized(h.View(), h.entry, h.maxLayer, h.m);
    out := h.Nearest(query, k, efSearch);
    if Covered(key, entries, query, k, efSearch) {
      AllDims(AllEntries(h.View()), entries, |query|);
      AnyOrder(h.metric, query, entries, k, AllEntries(h.View()));
    }
  }

  lemma WellSized(g: Graph, entry: Option<nat>, maxLayer: nat, m: nat)
    requires WellFormed(g, entry, maxLayer, m)
    ensures Sized(g)
  {
  }

  lemma OrderLength(e: seq<Entry>, entries: map<RecordId, Vector>)
    requires Enumerates(e, entries)
    ensures |e| == |entries|
  {
  }

  lemma EnumeratedGraph(g: Graph, entries: map<RecordId, Vector>)
    requires Enumerates(AllEntries(g), entries)
    ensures |g.ids| == |entries|
    ensures |g.vectors| == |g.ids| ==> NoRepeats(g.ids)
  {
    assert |AllEntries(g)| == |g.ids|;
    if |g.vectors| == |g.ids| {
      forall i, j | 0 <= i < j < |g.ids| ensures g.ids[i] != g.ids[j] {
        assert AllEntries(g)[i].0 == g.ids[i] && AllEntries(g)[j].0 == g.ids[j];
      }
    }
  }

  lemma AllDims(e: seq<Entry>, entries: map<RecordId, Vector>, dim: nat)
    requires Enumerates(e, entries) && forall id :: id in entries ==> |entries[id]| == dim
    ensures OfDim(e, dim) == e
  {
    OfDimAll(e, dim);
  }
}
