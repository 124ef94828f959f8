/** The indexes of one collection as the object the source updates in place
    (`CollectionIndexes` of crates/auradb-index/src/lib.rs). */
module IndexObjects {
  import opened Wrappers
  import opened Values
  import opened Filters
  import opened Indexes
  import opened CollectionIndexes
  import opened HnswSearch
  import opened HnswIndex
  import opened VectorIndex
  import Analyzer
  import TextIndex

  /** Visit every entry of a map of indexes, in whatever order, and replace it. */
  method ForEach<V>(m: map<string, V>, f: (string, V) -> V) returns (r: map<string, V>)
    ensures r == map k | k in m :: f(k, m[k])
  {
    r := m;
    var todo := m.Keys;
    while todo != {}
      invariant todo <= m.Keys && r.Keys == m.Keys
      invariant forall k :: k in m ==> r[k] == if k in todo then m[k] else f(k, m[k])
      decreases |todo|
    {
      var k :| k in todo;
      r := r[k := f(k, r[k])];
      todo := todo - {k};
    }
  }

  method MakeUniquesWith(m: map<string, Unique>, r: Record) returns (m': map<string, Unique>)
    ensures m' == UniquesWith(m, r)
  {
    m' := ForEach(m, (f: string, x: Unique) => UniqueInsert(x, f, r));
  }

  method MakeSecondaryWith(m: map<string, PostingLists>, r: Record) returns (m': map<string, PostingLists>)
    ensures m' == SecondaryWith(m, r)
  {
    m' := ForEach(m, (f: string, x: PostingLists) => PostingInsert(x, FieldKey(r, f), r.id));
  }

  method MakePathsWith(m: map<string, PostingLists>, r: Record) returns (m': map<string, PostingLists>)
    ensures m' == PathsWith(m, r)
  {
    m' := ForEach(m, (f: string, x: PostingLists) => PostingInsert(x, PathKey(r, f), r.id));
  }

  method MakeVectorsWith(m: map<string, VectorMap>, r: Record) returns (m': map<string, VectorMap>)
    ensures m' == VectorsWith(m, r)
  {
    m' := ForEach(m, (f: string, x: VectorMap) => VectorInsert(x, f, r));
  }

  method MakeTextWith(ct: Analyzer.CharTable, m: map<string, TextIndex.TextState>, r: Record) returns (m': map<string, TextIndex.TextState>)
    ensures m' == TextWith(ct, m, r)
  {
    m' := ForEach(m, (f: string, x: TextIndex.TextState) => TextInsert(ct, x, f, r));
  }

  method MakeUniquesWithout(m: map<string, Unique>, r: Record) returns (m': map<string, Unique>)
    ensures m' == UniquesWithout(m, r)
  {
    m' := ForEach(m, (f: string, x: Unique) => UniqueRemove(x, f, r));
  }

  method MakeSecondaryWithout(m: map<string, PostingLists>, r: Record) returns (m': map<string, PostingLists>)
    ensures m' == SecondaryWithout(m, r)
  {
    m' := ForEach(m, (f: string, x: PostingLists) => PostingRemove(x, GetField(r.fields, f), r.id));
  }

  method MakePathsWithout(m: map<string, PostingLists>, r: Record) returns (m': map<string, PostingLists>)
    ensures m' == PathsWithout(m, r)
  {
    m' := ForEach(m, (f: string, x: PostingLists) => PostingRemove(x, GetPath(r.fields, f), r.id));
  }

  method MakeVectorsWithout(m: map<string, VectorMap>, r: Record) returns (m': map<string, VectorMap>)
    ensures m' == VectorsWithout(m, r)
  {
    m' := ForEach(m, (f: string, x: VectorMap) => x - {r.id});
  }

  method MakeTextWithout(ct: Analyzer.CharTable, m: map<string, TextIndex.TextState>, r: Record) returns (m': map<string, TextIndex.TextState>)
    ensures m' == TextWithout(ct, m, r)
  {
    m' := ForEach(m, (f: string, x: TextIndex.TextState) => TextRemove(ct, x, f, r));
  }

  method Emptied<V>(m: map<string, V>, empty: V) returns (m': map<string, V>)
    ensures m' == map f | f in m :: empty
  {
    m' := ForEach(m, (f: string, x: V) => empty);
  }

  class IndexSet {
    const ct: Analyzer.CharTable
    const dims: map<string, nat>
    const metrics: MetricName -> Metric
    var unique: map<string, Unique>
    var secondary: map<string, PostingLists>
    var docPath: map<string, PostingLists>
    var vectors: map<string, VectorMap>
    var text: map<string, TextIndex.TextState>

    /** Approximate graphs built on demand. */
    var cache: map<AnnKey, Hnsw>

    /** The records the indexes stand for. */
    ghost var live: Live

    function View(): State
      reads this
    {
      State(unique, secondary, docPath, vectors, text)
    }

    /** The cached graphs as values. */
    ghost function Graphs(): map<AnnKey, Built>
      reads this, cache.Values
    {
      map key | key in cache :: cache[key].Value()
    }

    ghost function Contents(): Collection
      reads this, cache.Values
    {
      Collection(View(), live, Graphs())
    }

    /** Every cached graph carries the parameters it is cached under. */
    ghost predicate Labelled()
      reads this, cache.Values
    {
      forall key :: key in cache ==>
        cache[key].metric == metrics(key.metric) && cache[key].m == key.m && cache[key].efConstruction == key.efConstruction
    }

    /** Indexes and cached graphs stand for exactly the live records. */
    ghost predicate Valid()
      reads this, cache.Values
    {
      Consistent(ct, Contents()) && Labelled() && dims.Keys == vectors.Keys
    }

    /** Empty indexes for the roles a schema gives its fields. */
    constructor (ct: Analyzer.CharTable, metrics: MetricName -> Metric, uniqueFields: set<string>, secondaryFields: set<string>,
                 paths: set<string>, dims: map<string, nat>, textFields: set<string>)
      ensures this.ct == ct && this.metrics == metrics && this.dims == dims && live == map[] && cache == map[] && Valid()
      ensures unique.Keys == uniqueFields && secondary.Keys == secondaryFields && docPath.Keys == paths
      ensures vectors.Keys == dims.Keys && text.Keys == textFields
    {
      hide Mirrors;
      this.ct, this.metrics, this.dims := ct, metrics, dims;
      unique := map f | f in uniqueFields :: map[];
      secondary := map f | f in secondaryFields :: map[];
      docPath := map f | f in paths :: map[];
      vectors := map f | f in dims :: map[];
      text := map f | f in textFields :: TextIndex.EMPTY;
      cache := map[];
      live := map[];
      new;
      ClearMirrors(ct, View());
      assert View() == ClearAll(View());
    }

    /** `check_unique`. */
    method CheckUnique(r: Record, replacing: Option<RecordId>) returns (ok: bool)
      ensures ok == Admits(View(), r, replacing)
    {
      hide FieldKey;
      var todo := unique.Keys;
      while todo != {}
        invariant todo <= unique.Keys
        invariant forall f :: f in unique && f !in todo ==> AdmitsField(unique[f], f, r, replacing)
        decreases |todo|
      {
        var f :| f in todo;
        if !AdmitsField(unique[f], f, r, replacing) {
          return false;
        }
        todo := todo - {f};
      }
      return true;
    }

    /** `insert`: the caller has checked uniqueness.  Every cached graph is dropped. */
    method Insert(r: Record)
      requires Valid() && r.id !in live && !Clashes(unique.Keys, live, r)
      modifies this
      ensures Contents() == Collection(InsertAll(ct, old(View()), r), old(live)[r.id := r], map[])
      ensures cache == map[] && Valid()
    {
      hide Mirrors, InsertAll, Clashes, BuiltFrom, VectorsOf, FieldKey;
      KeysFree(ct, View(), live, r);
      InsertMirrors(ct, View(), live, r);
      InsertedFields(ct, View(), r);
      cache := map[];
      InsertIntoIndexes(r);
      live := live[r.id := r];
    }

    method InsertIntoIndexes(r: Record)
      modifies this`unique, this`secondary, this`docPath, this`vectors, this`text
      ensures View() == InsertAll(ct, old(View()), r)
    {
      hide UniquesWith, SecondaryWith, PathsWith, VectorsWith, TextWith;
      unique := MakeUniquesWith(unique, r);
      secondary := MakeSecondaryWith(secondary, r);
      docPath := MakePathsWith(docPath, r);
      vectors := MakeVectorsWith(vectors, r);
      text := MakeTextWith(ct, text, r);
    }

    /** `remove` of a live record.  Every cached graph is dropped. */
    method Remove(r: Record)
      requires Valid() && r.id in live && live[r.id] == r
      modifies this
      ensures Contents() == Collection(RemoveAll(ct, old(View()), r), old(live) - {r.id}, map[])
      ensures cache == map[] && Valid()
    {
      hide Mirrors, RemoveAll, BuiltFrom, VectorsOf;
      RemoveMirrors(ct, View(), live, r);
      RemovedFields(ct, View(), r);
      cache := map[];
      RemoveFromIndexes(r);
      live := live - {r.id};
    }

    method RemoveFromIndexes(r: Record)
      modifies this`unique, this`secondary, this`docPath, this`vectors, this`text
      ensures View() == RemoveAll(ct, old(View()), r)
    {
      hide UniquesWithout, SecondaryWithout, PathsWithout, VectorsWithout, TextWithout;
      unique := MakeUniquesWithout(unique, r);
      secondary := MakeSecondaryWithout(secondary, r);
      docPath := MakePathsWithout(docPath, r);
      vectors := MakeVectorsWithout(vectors, r);
      text := MakeTextWithout(ct, text, r);
    }

    /** The engine's upsert: check, drop the record it replaces, insert. */
    method Upsert(r: Record, existing: Option<Record>) returns (ok: bool)
      requires Valid()
      requires existing == if r.id in live then Some(live[r.id]) else None
      modifies this
      ensures ok <==> !Clashes(old(unique.Keys), old(live), r)
      ensures Contents() == Apply(ct, old(Contents()), Put(r)) && Valid()
    {
      hide Mirrors, InsertAll, RemoveAll, Clashes, CacheCurrent, Labelled;
      var replacing := if existing.Some? then Some(r.id) else None;
      AdmitsIsExact(ct, View(), live, r, replacing);
      ok := CheckUnique(r, replacing);
      if !ok {
        return;
      }
      MirrorsIds(ct, View(), live);
      FewerClashes(unique.Keys, live, r, r.id);
      if existing.Some? {
        RemovedFields(ct, View(), existing.value);
        Remove(existing.value);
      }
      ghost var before := live;
      Insert(r);
      assert old(live)[r.id := r] == before[r.id := r];
    }

    /** One record of a rebuild. */
    method AdmitNew(r: Record) returns (ok: bool)
      requires Valid() && r.id !in live
      modifies this
      ensures ok == Admits(old(View()), r, None) && (ok <==> !Clashes(old(unique.Keys), old(live), r))
      ensures if ok then cache == map[] && Contents() == Collection(InsertAll(ct, old(View()), r), old(live)[r.id := r], map[])
              else Contents() == old(Contents()) && cache == old(cache)
      ensures Valid() && SameFields(old(View()), View())
    {
      hide Mirrors, InsertAll, Clashes, CacheCurrent, Labelled;
      AdmitsIsExact(ct, View(), live, r, None);
      ok := CheckUnique(r, None);
      if ok {
        InsertedFields(ct, View(), r);
        Insert(r);
      }
    }

    method EmptyIndexes()
      modifies this`unique, this`secondary, this`docPath, this`vectors, this`text
      ensures View() == ClearAll(old(View()))
    {
      unique := Emptied(unique, map[]);
      secondary := Emptied(secondary, map[]);
      docPath := Emptied(docPath, map[]);
      vectors := Emptied(vectors, map[]);
      text := Emptied(text, TextIndex.EMPTY);
    }

    method Clear()
      modifies this
      requires dims.Keys == vectors.Keys
      ensures Contents() == Collection(ClearAll(old(View())), map[], map[]) && cache == map[]
      ensures Valid() && SameFields(old(View()), View())
    {
      hide Mirrors, BuiltFrom, VectorsOf, ClearAll;
      ClearMirrors(ct, View());
      cache := map[];
      EmptyIndexes();
      live := map[];
    }

    /** `rebuild`: succeeds exactly when no two records clash, and then stands for all of them. */
    method Rebuild(records: seq<Record>) returns (ok: bool)
      requires DistinctRecords(records) && dims.Keys == vectors.Keys
      modifies this
      ensures Contents() == Refill(ct, Collection(ClearAll(old(View())), map[], map[]), records)
      ensures cache == map[] && Valid() && SameFields(old(View()), View())
      ensures ok ==> live == LiveOf(records)
      ensures ok <==> forall i, j :: 0 <= i < j < |records| ==> !Clash(old(unique.Keys), records[i], records[j])
    {
      hide Mirrors, Clash, Clashes, InsertAll, ClearAll, CacheCurrent, Labelled, Admits;
      Clear();
      ghost var fields, cleared := unique.Keys, Contents();
      var n := 0;
      assert records[..0] == [] && records[0..] == records;
      while n < |records|
        invariant 0 <= n <= |records| && Valid() && live == LiveOf(records[..n]) && cache == map[]
        invariant SameFields(old(View()), View()) && unique.Keys == fields
        invariant forall i, j :: 0 <= i < j < n ==> !Clash(fields, records[i], records[j])
        invariant Refill(ct, Contents(), records[n..]) == Refill(ct, cleared, records)
      {
        NotAmong(records, n);
        ClashesAmong(fields, records, n);
        assert records[n..][0] == records[n] && records[n..][1..] == records[n + 1..];
        ok := AdmitNew(records[n]);
        if !ok {
          return;
        }
        LiveOfSnoc(records, n);
        n := n + 1;
      }
      assert records[..n] == records && records[n..] == [];
      ok := true;
    }

    // ---- vector search ----

    /** What both vector searches refuse. */
    ghost predicate Searchable(field: string, query: Vector)
      reads this
    {
      field in vectors && field in dims && |query| == dims[field]
    }

    /** `vector_nearest`: exact search. */
    method Nearest(field: string, query: Vector, k: nat, metric: MetricName) returns (r: Result<seq<Neighbor>, VectorError>)
      requires Valid()
      ensures field !in vectors ==> r == Err(NoVectorIndex)
      ensures field in vectors && !Searchable(field, query) ==> r == Err(DimensionMismatch)
      ensures Searchable(field, query) ==> r == Ok(ExactAnswer(metrics(metric), query, vectors[field], k))
    {
      hide ExactAnswer, Consistent;
      if field !in vectors {
        return Err(NoVectorIndex);
      }
      if |query| != dims[field] {
        return Err(DimensionMismatch);
      }
      var out := ExactNearest(metrics(metric), vectors[field], query, k);
      r := Ok(out);
    }

    /** `vector_ann_nearest`: the approximate preview, over a graph built from the field's current
        vectors.  It answers exactly as exact search does where that graph is covered. */
    method AnnNearest(field: string, query: Vector, k: nat, metric: MetricName, m: nat, efConstruction: nat, efSearch: nat,
                      draws: seq<nat>) returns (r: Result<seq<Neighbor>, VectorError>, ghost built: Built)
      requires Valid() && (field in vectors ==> |draws| == |vectors[field]|)
      modifies this`cache
      ensures Valid()
      ensures field !in vectors ==> r == Err(NoVectorIndex) && Contents() == old(Contents())
      ensures field in vectors && !Searchable(field, query) ==> r == Err(DimensionMismatch) && Contents() == old(Contents())
      ensures Searchable(field, query) && !(1 <= m <= 512) ==> r == Err(InvalidM) && Contents() == old(Contents())
      ensures Searchable(field, query) && 1 <= m <= 512 && !(1 <= efConstruction <= 4096) ==>
                r == Err(InvalidEfConstruction) && Contents() == old(Contents())
      ensures Searchable(field, query) && 1 <= m <= 512 && 1 <= efConstruction <= 4096 ==>
                var key := AnnKey(field, metric, m, efConstruction);
                && Contents() == Apply(ct, old(Contents()), AnnQuery(key, built))
                && key in Graphs() && r.Ok? && BeamAnswers(metrics(metric), Graphs()[key], query, k, efSearch, r.value)
                && (Covered(key, vectors[field], query, k, efSearch) ==>
                      r.value == ExactAnswer(metrics(metric), query, vectors[field], k))
    {
      hide ExactAnswer, Consistent, BeamAnswers, Covered, Apply;
      built := Built(Graph([], [], []), None, 0);
      if field !in vectors {
        return Err(NoVectorIndex), built;
      }
      if |query| != dims[field] {
        return Err(DimensionMismatch), built;
      }
      var invalid := ValidateParams(m, efConstruction);
      if invalid.Some? {
        return Err(invalid.value), built;
      }
      var key := AnnKey(field, metric, m, efConstruction);
      var h := GraphFor(key, draws);
      built := h.Value();
      var out := AskGraph(h, key, vectors[field], query, k, efSearch);
      r := Ok(out);
    }

    /** The graph cached under a key, built on first use from the field's current vectors. */
    method GraphFor(key: AnnKey, draws: seq<nat>) returns (h: Hnsw)
      requires Valid() && key.field in vectors && |draws| == |vectors[key.field]|
      modifies this`cache
      ensures Valid() && key in cache && cache[key] == h
      ensures h.metric == metrics(key.metric) && h.m == key.m && BuiltFrom(h.Value(), key, vectors[key.field])
      ensures Contents() == Apply(ct, old(Contents()), AnnQuery(key, h.Value()))
    {
      hide BuiltFrom, Consistent, Apply;
      if key in cache {
        h := cache[key];
        CachedIsBuilt(ct, Contents(), key);
        QueryKeeps(ct, Contents(), key, h.Value());
        return;
      }
      h := BuildFor(metrics(key.metric), key, vectors[key.field], draws);
      Remember(key, h);
    }

    method Remember(key: AnnKey, h: Hnsw)
      requires Valid() && key !in cache && key.field in vectors && BuiltFrom(h.Value(), key, vectors[key.field])
      requires h.metric == metrics(key.metric) && h.m == key.m && h.efConstruction == key.efConstruction
      modifies this`cache
      ensures Valid() && cache == old(cache)[key := h]
      ensures Contents() == Apply(ct, old(Contents()), AnnQuery(key, h.Value()))
    {
      hide BuiltFrom, Consistent, Apply, Labelled;
      QueryKeeps(ct, Contents(), key, h.Value());
      PutGraph(key, h);
    }

    method PutGraph(key: AnnKey, h: Hnsw)
      requires Labelled() && h.metric == metrics(key.metric) && h.m == key.m && h.efConstruction == key.efConstruction
      modifies this`cache
      ensures cache == old(cache)[key := h] && Labelled()
      ensures Graphs() == old(Graphs())[key := h.Value()]
    {
      ghost var before := Graphs();
      cache := cache[key := h];
      assert Graphs() == before[key := h.Value()];
    }
  }
}
