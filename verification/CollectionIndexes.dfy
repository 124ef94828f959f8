/** All indexes of one collection, kept in step with its live records
    (`CollectionIndexes` of crates/auradb-index/src/lib.rs). */
module CollectionIndexes {
  import opened Sequences
  import opened Wrappers
  import opened Values
  import opened Filters
  import opened Indexes
  import opened HnswIndex
  import opened VectorIndex
  import Analyzer
  import TextIndex

  datatype State = State(
    unique: map<string, Unique>,
    secondary: map<string, PostingLists>,
    docPath: map<string, PostingLists>,
    vectors: map<string, VectorMap>,
    text: map<string, TextIndex.TextState>)

  function UniquesWith(m: map<string, Unique>, r: Record): map<string, Unique> {
    map f | f in m :: UniqueInsert(m[f], f, r)
  }

  function SecondaryWith(m: map<string, PostingLists>, r: Record): map<string, PostingLists> {
    map f | f in m :: PostingInsert(m[f], FieldKey(r, f), r.id)
  }

  function PathsWith(m: map<string, PostingLists>, r: Record): map<string, PostingLists> {
    map f | f in m :: PostingInsert(m[f], PathKey(r, f), r.id)
  }

  function VectorsWith(m: map<string, VectorMap>, r: Record): map<string, VectorMap> {
    map f | f in m :: VectorInsert(m[f], f, r)
  }

  function TextWith(ct: Analyzer.CharTable, m: map<string, TextIndex.TextState>, r: Record): map<string, TextIndex.TextState> {
    map f | f in m :: TextInsert(ct, m[f], f, r)
  }

  function UniquesWithout(m: map<string, Unique>, r: Record): map<string, Unique> {
    map f | f in m :: UniqueRemove(m[f], f, r)
  }

  function SecondaryWithout(m: map<string, PostingLists>, r: Record): map<string, PostingLists> {
    map f | f in m :: PostingRemove(m[f], GetField(r.fields, f), r.id)
  }

  function PathsWithout(m: map<string, PostingLists>, r: Record): map<string, PostingLists> {
    map f | f in m :: PostingRemove(m[f], GetPath(r.fields, f), r.id)
  }

  function VectorsWithout(m: map<string, VectorMap>, r: Record): map<string, VectorMap> {
    map f | f in m :: m[f] - {r.id}
  }

  function TextWithout(ct: Analyzer.CharTable, m: map<string, TextIndex.TextState>, r: Record): map<string, TextIndex.TextState> {
    map f | f in m :: TextRemove(ct, m[f], f, r)
  }

  function InsertAll(ct: Analyzer.CharTable, s: State, r: Record): State {
    State(UniquesWith(s.unique, r),
          SecondaryWith(s.secondary, r),
          PathsWith(s.docPath, r),
          VectorsWith(s.vectors, r),
          TextWith(ct, s.text, r))
  }

  function RemoveAll(ct: Analyzer.CharTable, s: State, r: Record): State {
    State(UniquesWithout(s.unique, r),
          SecondaryWithout(s.secondary, r),
          PathsWithout(s.docPath, r),
          VectorsWithout(s.vectors, r),
          TextWithout(ct, s.text, r))
  }

  function ClearAll(s: State): State {
    State(
      map f | f in s.unique :: map[],
      map f | f in s.secondary :: map[],
      map p | p in s.docPath :: map[],
      map f | f in s.vectors :: map[],
      map f | f in s.text :: TextIndex.EMPTY)
  }

  /** Which fields and paths carry an index, fixed by the schema. */
  ghost predicate SameFields(a: State, b: State) {
    && a.unique.Keys == b.unique.Keys && a.secondary.Keys == b.secondary.Keys
    && a.docPath.Keys == b.docPath.Keys && a.vectors.Keys == b.vectors.Keys && a.text.Keys == b.text.Keys
  }

  ghost predicate UniquesMirror(m: map<string, Unique>, live: Live) {
    forall f :: f in m ==> UniqueMirrors(m[f], f, live)
  }

  ghost predicate SecondaryMirror(m: map<string, PostingLists>, live: Live) {
    forall f :: f in m ==> PostingsMirror(m[f], (r: Record) => FieldKey(r, f), live)
  }

  ghost predicate PathsMirror(m: map<string, PostingLists>, live: Live) {
    forall p :: p in m ==> PostingsMirror(m[p], (r: Record) => PathKey(r, p), live)
  }

  ghost predicate VectorsMirror(m: map<string, VectorMap>, live: Live) {
    forall f :: f in m ==> m[f] == VectorsOf(live, f)
  }

  ghost predicate TextMirror(ct: Analyzer.CharTable, m: map<string, TextIndex.TextState>, live: Live) {
    forall f :: f in m ==> TextIndex.Reflects(m[f], DocsOf(ct, live, f))
  }

  /** Every index is the inverse image of the live records. */
  ghost predicate Mirrors(ct: Analyzer.CharTable, s: State, live: Live) {
    && LiveOk(live)
    && UniquesMirror(s.unique, live)
    && SecondaryMirror(s.secondary, live)
    && PathsMirror(s.docPath, live)
    && VectorsMirror(s.vectors, live)
    && TextMirror(ct, s.text, live)
  }

  lemma PostingsInsertMirror(a: map<string, PostingLists>, b: map<string, PostingLists>, live: Live, r: Record)
    requires SecondaryMirror(a, live) && PathsMirror(b, live) && r.id !in live
    ensures SecondaryMirror(SecondaryWith(a, r), live[r.id := r]) && PathsMirror(PathsWith(b, r), live[r.id := r])
  {
    hide PostingsMirror, FieldKey, PathKey, PostingInsert;
    forall f | f in a { PostingInsertMirrors(a[f], (x: Record) => FieldKey(x, f), live, r); }
    forall p | p in b { PostingInsertMirrors(b[p], (x: Record) => PathKey(x, p), live, r); }
  }

  lemma PostingsRemoveMirror(a: map<string, PostingLists>, b: map<string, PostingLists>, live: Live, r: Record)
    requires SecondaryMirror(a, live) && PathsMirror(b, live) && r.id in live && live[r.id] == r
    ensures SecondaryMirror(SecondaryWithout(a, r), live - {r.id}) && PathsMirror(PathsWithout(b, r), live - {r.id})
  {
    hide PostingsMirror, PostingRemove, IndexKey;
    forall f | f in a { PostingRemoveMirrors(a[f], (x: Record) => FieldKey(x, f), live, r, GetField(r.fields, f)); }
    forall p | p in b { PostingRemoveMirrors(b[p], (x: Record) => PathKey(x, p), live, r, GetPath(r.fields, p)); }
  }

  lemma UniquesInsertMirror(m: map<string, Unique>, live: Live, r: Record)
    requires UniquesMirror(m, live) && LiveOk(live) && r.id !in live
    requires forall f :: f in m && FieldKey(r, f).Some? ==> FieldKey(r, f).value !in m[f]
    ensures UniquesMirror(UniquesWith(m, r), live[r.id := r])
  {
    hide UniqueMirrors, UniqueInsert, FieldKey;
    forall f | f in m { UniqueInsertMirrors(m[f], f, live, r); }
  }

  lemma UniquesRemoveMirror(m: map<string, Unique>, live: Live, r: Record)
    requires UniquesMirror(m, live) && LiveOk(live) && r.id in live && live[r.id] == r
    ensures UniquesMirror(UniquesWithout(m, r), live - {r.id})
  {
    hide UniqueMirrors, UniqueRemove, FieldKey;
    forall f | f in m { UniqueRemoveMirrors(m[f], f, live, r); }
  }

  lemma VectorsKeepMirror(m: map<string, VectorMap>, live: Live, r: Record)
    requires VectorsMirror(m, live)
    ensures r.id !in live ==> VectorsMirror(VectorsWith(m, r), live[r.id := r])
    ensures VectorsMirror(VectorsWithout(m, r), live - {r.id})
  {
    hide VectorInsert, VectorsOf;
    forall f | f in m { VectorRemoveMirrors(f, live, r.id); }
    if r.id !in live {
      forall f | f in m { VectorInsertMirrors(f, live, r); }
    }
  }

  lemma TextKeepMirror(ct: Analyzer.CharTable, m: map<string, TextIndex.TextState>, live: Live, r: Record)
    requires TextMirror(ct, m, live)
    ensures r.id !in live ==> TextMirror(ct, TextWith(ct, m, r), live[r.id := r])
    ensures r.id in live && live[r.id] == r ==> TextMirror(ct, TextWithout(ct, m, r), live - {r.id})
  {
    hide TextInsert, TextRemove, DocsOf, TextIndex.Reflects;
    if r.id !in live {
      forall f | f in m { TextInsertMirrors(ct, m[f], f, live, r); }
    } else if live[r.id] == r {
      forall f | f in m { TextRemoveMirrors(ct, m[f], f, live, r); }
    }
  }

  lemma InsertMirrors(ct: Analyzer.CharTable, s: State, live: Live, r: Record)
    requires Mirrors(ct, s, live) && r.id !in live
    requires forall f :: f in s.unique && FieldKey(r, f).Some? ==> FieldKey(r, f).value !in s.unique[f]
    ensures Mirrors(ct, InsertAll(ct, s, r), live[r.id := r])
    ensures SameFields(s, InsertAll(ct, s, r))
  {
    hide FieldKey, UniquesMirror, SecondaryMirror, PathsMirror, VectorsMirror, TextMirror;
    UniquesInsertMirror(s.unique, live, r);
    PostingsInsertMirror(s.secondary, s.docPath, live, r);
    VectorsKeepMirror(s.vectors, live, r);
    TextKeepMirror(ct, s.text, live, r);
  }

  lemma RemoveMirrors(ct: Analyzer.CharTable, s: State, live: Live, r: Record)
    requires Mirrors(ct, s, live) && r.id in live && live[r.id] == r
    ensures Mirrors(ct, RemoveAll(ct, s, r), live - {r.id})
    ensures SameFields(s, RemoveAll(ct, s, r))
  {
    hide UniquesMirror, SecondaryMirror, PathsMirror, VectorsMirror, TextMirror;
    UniquesRemoveMirror(s.unique, live, r);
    PostingsRemoveMirror(s.secondary, s.docPath, live, r);
    VectorsKeepMirror(s.vectors, live, r);
    TextKeepMirror(ct, s.text, live, r);
  }

  lemma ClearMirrors(ct: Analyzer.CharTable, s: State)
    ensures Mirrors(ct, ClearAll(s), map[]) && SameFields(s, ClearAll(s))
  {
    hide UniquesMirror, TextMirror, VectorsMirror, FieldKey, PathKey, PostingsMirror;
    ClearedUniques(s.unique);
    ClearedVectors(s.vectors);
    ClearedTexts(ct, s.text);
    forall f | f in s.secondary ensures PostingsMirror(map[], (r: Record) => FieldKey(r, f), map[]) {
      NothingPosted((r: Record) => FieldKey(r, f));
    }
    forall p | p in s.docPath ensures PostingsMirror(map[], (r: Record) => PathKey(r, p), map[]) {
      NothingPosted((r: Record) => PathKey(r, p));
    }
  }

  lemma ClearedUniques(m: map<string, Unique>)
    ensures UniquesMirror(map f | f in m :: map[], map[])
  {
    hide UniqueMirrors;
    forall f ensures UniqueMirrors(map[], f, map[]) {
      NothingUnique(f);
    }
  }

  lemma ClearedVectors(m: map<string, VectorMap>)
    ensures VectorsMirror(map f | f in m :: map[], map[])
  {
    hide HasVector;
    forall f ensures VectorsOf(map[], f) == map[] {
    }
  }

  lemma ClearedTexts(ct: Analyzer.CharTable, m: map<string, TextIndex.TextState>)
    ensures TextMirror(ct, map f | f in m :: TextIndex.EMPTY, map[])
  {
    hide TextIndex.Reflects, HasText;
    TextIndex.EmptyReflects();
    forall f ensures DocsOf(ct, map[], f) == map[] {
    }
  }

  lemma NothingUnique(f: string)
    ensures UniqueMirrors(map[], f, map[])
  {
  }

  lemma NothingPosted(keyOf: Record -> Option<Key>)
    ensures PostingsMirror(map[], keyOf, map[])
  {
  }

  // ---- uniqueness ----

  /** `check_unique` passes: no unique key of `r` belongs to a record other than `r` or the one it replaces. */
  predicate Admits(s: State, r: Record, replacing: Option<RecordId>) {
    forall f :: f in s.unique ==> AdmitsField(s.unique[f], f, r, replacing)
  }

  predicate AdmitsField(m: Unique, f: string, r: Record, replacing: Option<RecordId>) {
    FieldKey(r, f).Some? && FieldKey(r, f).value in m ==>
      var holder := m[FieldKey(r, f).value];
      Some(holder) == replacing || holder == r.id
  }

  /** Another live record already holds one of `r`'s unique keys. */
  ghost predicate Clashes(fields: set<string>, live: Live, r: Record) {
    exists f, id :: f in fields && id in live && id != r.id && FieldKey(r, f).Some? && FieldKey(live[id], f) == FieldKey(r, f)
  }

  /** The index-based check is exact: it refuses a record if and only if a live record really clashes. */
  lemma AdmitsIsExact(ct: Analyzer.CharTable, s: State, live: Live, r: Record, replacing: Option<RecordId>)
    requires Mirrors(ct, s, live) && (replacing.Some? ==> replacing.value == r.id)
    ensures Admits(s, r, replacing) <==> !Clashes(s.unique.Keys, live, r)
  {
    hide TextIndex.Reflects, FieldKey, PostingsMirror;
    if !Admits(s, r, replacing) {
      var f :| f in s.unique && !AdmitsField(s.unique[f], f, r, replacing);
      var id := s.unique[f][FieldKey(r, f).value];
      assert UniqueMirrors(s.unique[f], f, live);
      assert f in s.unique.Keys && id in live && id != r.id && FieldKey(live[id], f) == FieldKey(r, f);
    }
  }

  /** After the record with the same id is gone, an admitted record's unique keys are free. */
  lemma KeysFree(ct: Analyzer.CharTable, s: State, live: Live, r: Record)
    requires Mirrors(ct, s, live) && !Clashes(s.unique.Keys, live, r) && r.id !in live
    ensures forall f :: f in s.unique && FieldKey(r, f).Some? ==> FieldKey(r, f).value !in s.unique[f]
  {
    hide TextIndex.Reflects, FieldKey, PostingsMirror;
    forall f | f in s.unique && FieldKey(r, f).Some? ensures FieldKey(r, f).value !in s.unique[f] {
      assert UniqueMirrors(s.unique[f], f, live);
    }
  }

  // ---- whole runs ----

  /** An approximate query carries the graph its cache miss would build. */
  datatype Op =
    | Put(record: Record)
    | Delete(id: RecordId)
    | Rebuild(records: seq<Record>)
    | AnnQuery(key: AnnKey, built: Built)

  /** The indexes, the records they stand for, and the cached approximate graphs. */
  datatype Collection = Collection(state: State, live: Live, cache: map<AnnKey, Built>)

  /** Insert records one by one until the uniqueness check refuses one. */
  ghost function Refill(ct: Analyzer.CharTable, c: Collection, records: seq<Record>): Collection
    decreases records
  {
    if records == [] || !Admits(c.state, records[0], None) then c
    else Refill(ct, Collection(InsertAll(ct, c.state, records[0]), c.live[records[0].id := records[0]], map[]), records[1..])
  }

  /** One guarded operation: an upsert that clashes and a deletion of a missing record change nothing,
      whatever changes the vectors drops every cached graph, and a query caches what it builds. */
  ghost function Apply(ct: Analyzer.CharTable, c: Collection, op: Op): Collection {
    match op
    case Put(r) =>
      if !Admits(c.state, r, if r.id in c.live then Some(r.id) else None) then c
      else
        var s := if r.id in c.live then RemoveAll(ct, c.state, c.live[r.id]) else c.state;
        Collection(InsertAll(ct, s, r), c.live[r.id := r], map[])
    case Delete(id) =>
      if id in c.live then Collection(RemoveAll(ct, c.state, c.live[id]), c.live - {id}, map[]) else c
    case Rebuild(records) =>
      Refill(ct, Collection(ClearAll(c.state), map[], map[]), records)
    case AnnQuery(key, built) =>
      if key !in c.cache && key.field in c.state.vectors && BuiltFrom(built, key, c.state.vectors[key.field])
      then c.(cache := c.cache[key := built])
      else c
  }

  ghost function Run(ct: Analyzer.CharTable, c: Collection, ops: seq<Op>): Collection
    decreases ops
  {
    if ops == [] then c else Run(ct, Apply(ct, c, ops[0]), ops[1..])
  }

  ghost predicate DistinctRecords(records: seq<Record>) {
    forall i, j :: 0 <= i < j < |records| ==> records[i].id != records[j].id
  }

  /** A rebuild reads a store, which holds a record once. */
  ghost predicate FromStore(op: Op) {
    op.Rebuild? ==> DistinctRecords(op.records)
  }

  /** Every cached graph was built from exactly the vectors the live records hold now. */
  ghost predicate CacheCurrent(cache: map<AnnKey, Built>, live: Live) {
    forall key :: key in cache ==> BuiltFrom(cache[key], key, VectorsOf(live, key.field))
  }

  /** Indexes and cached graphs alike stand for the live records. */
  ghost predicate Consistent(ct: Analyzer.CharTable, c: Collection) {
    Mirrors(ct, c.state, c.live) && CacheCurrent(c.cache, c.live)
  }

  lemma PutMirrors(ct: Analyzer.CharTable, c: Collection, r: Record)
    requires Mirrors(ct, c.state, c.live)
    requires Admits(c.state, r, if r.id in c.live then Some(r.id) else None)
    ensures var c' := Apply(ct, c, Put(r)); Mirrors(ct, c'.state, c'.live) && SameFields(c.state, c'.state)
    ensures !Clashes(c.state.unique.Keys, c.live, r)
  {
    hide Mirrors, InsertAll, RemoveAll, Clashes, Admits;
    AdmitsIsExact(ct, c.state, c.live, r, if r.id in c.live then Some(r.id) else None);
    if r.id in c.live {
      var s := RemoveAll(ct, c.state, c.live[r.id]);
      MirrorsIds(ct, c.state, c.live);
      RemoveMirrors(ct, c.state, c.live, c.live[r.id]);
      FewerClashes(c.state.unique.Keys, c.live, r, r.id);
      KeysFree(ct, s, c.live - {r.id}, r);
      InsertMirrors(ct, s, c.live - {r.id}, r);
      assert (c.live - {r.id})[r.id := r] == c.live[r.id := r];
    } else {
      KeysFree(ct, c.state, c.live, r);
      InsertMirrors(ct, c.state, c.live, r);
    }
  }

  lemma MirrorsIds(ct: Analyzer.CharTable, s: State, live: Live)
    requires Mirrors(ct, s, live)
    ensures LiveOk(live)
  {
  }

  lemma FewerClashes(fields: set<string>, live: Live, r: Record, id: RecordId)
    requires !Clashes(fields, live, r)
    ensures !Clashes(fields, live - {id}, r)
  {
  }

  /** A refused record ends a rebuild early; what was inserted is still mirrored. */
  lemma {:induction false} RefillMirrors(ct: Analyzer.CharTable, c: Collection, records: seq<Record>)
    requires Mirrors(ct, c.state, c.live) && DistinctRecords(records) && c.cache == map[]
    requires forall r :: r in records ==> r.id !in c.live
    ensures var c' := Refill(ct, c, records); Mirrors(ct, c'.state, c'.live) && SameFields(c.state, c'.state) && c'.cache == map[]
    decreases records
  {
    hide Mirrors, InsertAll, Admits;
    if records != [] && Admits(c.state, records[0], None) {
      var r := records[0];
      var next := Collection(InsertAll(ct, c.state, r), c.live[r.id := r], map[]);
      AdmitsIsExact(ct, c.state, c.live, r, None);
      KeysFree(ct, c.state, c.live, r);
      InsertMirrors(ct, c.state, c.live, r);
      forall x | x in records[1..] ensures x.id !in next.live {
        var i :| 1 <= i < |records| && records[i] == x;
      }
      RefillMirrors(ct, next, records[1..]);
    }
  }

  lemma CachedIsBuilt(ct: Analyzer.CharTable, c: Collection, key: AnnKey)
    requires Consistent(ct, c) && key in c.cache && key.field in c.state.vectors
    ensures BuiltFrom(c.cache[key], key, c.state.vectors[key.field])
  {
    hide BuiltFrom, UniquesMirror, SecondaryMirror, PathsMirror, TextMirror;
  }

  lemma QueryKeeps(ct: Analyzer.CharTable, c: Collection, key: AnnKey, built: Built)
    requires Consistent(ct, c)
    ensures Consistent(ct, Apply(ct, c, AnnQuery(key, built)))
    ensures key in c.cache ==> Apply(ct, c, AnnQuery(key, built)) == c
    ensures key !in c.cache && key.field in c.state.vectors && BuiltFrom(built, key, c.state.vectors[key.field]) ==>
              Apply(ct, c, AnnQuery(key, built)) == c.(cache := c.cache[key := built])
  {
    hide BuiltFrom, UniquesMirror, SecondaryMirror, PathsMirror, TextMirror;
  }

  lemma ApplyMirrors(ct: Analyzer.CharTable, c: Collection, op: Op)
    requires Consistent(ct, c) && FromStore(op)
    ensures Consistent(ct, Apply(ct, c, op)) && SameFields(c.state, Apply(ct, c, op).state)
  {
    hide Mirrors, InsertAll, RemoveAll, ClearAll, Admits, BuiltFrom;
    match op
    case Put(r) =>
      if Admits(c.state, r, if r.id in c.live then Some(r.id) else None) {
        PutMirrors(ct, c, r);
      }
    case Delete(id) =>
      if id in c.live {
        MirrorsIds(ct, c.state, c.live);
        RemoveMirrors(ct, c.state, c.live, c.live[id]);
      }
    case Rebuild(records) =>
      ClearMirrors(ct, c.state);
      RefillMirrors(ct, Collection(ClearAll(c.state), map[], map[]), records);
    case AnnQuery(key, built) =>
      QueryKeeps(ct, c, key, built);
  }

  /** Over every run of upserts, deletions, rebuilds and approximate queries, refused or not, every
      index stays the inverse image of the live records and every cached graph is one built from
      exactly the vectors they hold. */
  lemma {:induction false} RunMirrors(ct: Analyzer.CharTable, c: Collection, ops: seq<Op>)
    requires Consistent(ct, c) && forall op :: op in ops ==> FromStore(op)
    ensures Consistent(ct, Run(ct, c, ops)) && SameFields(c.state, Run(ct, c, ops).state)
    decreases ops
  {
    hide Consistent, Apply, FromStore;
    if ops != [] {
      ApplyMirrors(ct, c, ops[0]);
      RunMirrors(ct, Apply(ct, c, ops[0]), ops[1..]);
    }
  }

  /** No two live records of a run ever share a unique key. */
  lemma RunKeepsUnique(ct: Analyzer.CharTable, c: Collection, ops: seq<Op>, f: string, a: RecordId, b: RecordId)
    requires Consistent(ct, c) && f in c.state.unique && forall op :: op in ops ==> FromStore(op)
    requires var live := Run(ct, c, ops).live;
             a in live && b in live && FieldKey(live[a], f).Some? && FieldKey(live[a], f) == FieldKey(live[b], f)
    ensures a == b
  {
    hide Run, UniqueMirrors, FieldKey, TextIndex.Reflects, PostingsMirror, BuiltFrom;
    RunMirrors(ct, c, ops);
    var c' := Run(ct, c, ops);
    assert f in c'.state.unique.Keys;
    UniqueIsInjective(c'.state.unique[f], f, c'.live, a, b);
  }

  // ---- agreement with a rebuild ----

  ghost predicate SamePostings(a: PostingLists, b: PostingLists) {
    forall k :: multiset(Postings(a, k)) == multiset(Postings(b, k))
  }

  /** Two states mirroring the same records agree: identical unique maps, vectors and text indexes,
      and posting lists that differ at most in their order and in emptied lists left behind. */
  ghost predicate Agree(a: State, b: State) {
    && SameFields(a, b)
    && a.unique == b.unique && a.vectors == b.vectors && a.text == b.text
    && (forall f :: f in a.secondary ==> SamePostings(a.secondary[f], b.secondary[f]))
    && (forall p :: p in a.docPath ==> SamePostings(a.docPath[p], b.docPath[p]))
  }

  lemma UniqueDetermined(a: Unique, b: Unique, f: string, live: Live)
    requires UniqueMirrors(a, f, live) && UniqueMirrors(b, f, live)
    ensures a == b
  {
    hide FieldKey;
    forall k | k in a ensures k in b && b[k] == a[k] { }
    forall k | k in b ensures k in a { }
    assert a.Keys == b.Keys;
  }

  lemma NoRepeatsCount(ids: seq<RecordId>, id: RecordId)
    requires NoRepeats(ids)
    ensures multiset(ids)[id] == if id in ids then 1 else 0
  {
    if id in ids {
      var i :| 0 <= i < |ids| && ids[i] == id;
      assert id !in ids[..i] && id !in ids[i + 1..];
      CountOnce(ids, i);
    }
  }

  lemma PostingsDetermined(a: PostingLists, b: PostingLists, keyOf: Record -> Option<Key>, live: Live)
    requires PostingsMirror(a, keyOf, live) && PostingsMirror(b, keyOf, live)
    ensures SamePostings(a, b)
  {
    forall k ensures multiset(Postings(a, k)) == multiset(Postings(b, k)) {
      forall id ensures multiset(Postings(a, k))[id] == multiset(Postings(b, k))[id] {
        NoRepeatsCount(Postings(a, k), id);
        NoRepeatsCount(Postings(b, k), id);
        assert id in Postings(a, k) <==> id in live && keyOf(live[id]) == Some(k);
        assert id in Postings(b, k) <==> id in live && keyOf(live[id]) == Some(k);
      }
    }
  }

  lemma MirrorsAgree(ct: Analyzer.CharTable, a: State, b: State, live: Live)
    requires Mirrors(ct, a, live) && Mirrors(ct, b, live) && SameFields(a, b)
    ensures Agree(a, b)
  {
    hide UniqueMirrors, PostingsMirror, TextIndex.Reflects, SamePostings, FieldKey, PathKey;
    forall f | f in a.unique ensures a.unique[f] == b.unique[f] {
      assert f in b.unique.Keys;
      UniqueDetermined(a.unique[f], b.unique[f], f, live);
    }
    forall f | f in a.secondary ensures SamePostings(a.secondary[f], b.secondary[f]) {
      assert f in b.secondary.Keys;
      PostingsDetermined(a.secondary[f], b.secondary[f], (r: Record) => FieldKey(r, f), live);
    }
    forall p | p in a.docPath ensures SamePostings(a.docPath[p], b.docPath[p]) {
      assert p in b.docPath.Keys;
      PostingsDetermined(a.docPath[p], b.docPath[p], (r: Record) => PathKey(r, p), live);
    }
    forall f | f in a.text ensures a.text[f] == b.text[f] {
      assert f in b.text.Keys;
      TextIndex.ReflectsDetermines(a.text[f], b.text[f], DocsOf(ct, live, f));
    }
    forall f | f in a.vectors ensures a.vectors[f] == b.vectors[f] {
      assert f in b.vectors.Keys;
    }
    assert a.unique == b.unique && a.text == b.text && a.vectors == b.vectors;
  }

  lemma RemovedFields(ct: Analyzer.CharTable, s: State, r: Record)
    ensures SameFields(s, RemoveAll(ct, s, r))
  {
  }

  lemma InsertedFields(ct: Analyzer.CharTable, s: State, r: Record)
    ensures SameFields(s, InsertAll(ct, s, r))
  {
  }

  ghost function LiveOf(records: seq<Record>): Live {
    if records == [] then map[]
    else
      var last := records[|records| - 1];
      LiveOf(records[..|records| - 1])[last.id := last]
  }

  lemma LiveOfSnoc(records: seq<Record>, n: nat)
    requires n < |records|
    ensures LiveOf(records[..n + 1]) == LiveOf(records[..n])[records[n].id := records[n]]
  {
    assert records[..n + 1][..n] == records[..n];
  }

  lemma {:induction false} LiveOfHas(records: seq<Record>)
    requires forall i, j :: 0 <= i < j < |records| ==> records[i].id != records[j].id
    ensures forall i :: 0 <= i < |records| ==> records[i].id in LiveOf(records) && LiveOf(records)[records[i].id] == records[i]
    ensures forall id :: id in LiveOf(records) ==> exists i :: 0 <= i < |records| && records[i].id == id
  {
    if records != [] {
      LiveOfHas(records[..|records| - 1]);
    }
  }

  /** Two records share a unique key. */
  ghost predicate Clash(fields: set<string>, a: Record, b: Record) {
    exists f :: f in fields && FieldKey(b, f).Some? && FieldKey(a, f) == FieldKey(b, f)
  }

  lemma NotAmong(records: seq<Record>, n: nat)
    requires n < |records| && forall i, j :: 0 <= i < j < |records| ==> records[i].id != records[j].id
    ensures records[n].id !in LiveOf(records[..n])
  {
    LiveOfHas(records[..n]);
  }

  lemma ClashesAmong(fields: set<string>, records: seq<Record>, n: nat)
    requires n < |records| && forall i, j :: 0 <= i < j < |records| ==> records[i].id != records[j].id
    ensures Clashes(fields, LiveOf(records[..n]), records[n]) <==> exists i :: 0 <= i < n && Clash(fields, records[i], records[n])
  {
    hide FieldKey;
    LiveOfHas(records[..n]);
    var live, r := LiveOf(records[..n]), records[n];
    if Clashes(fields, live, r) {
      var f, id :| f in fields && id in live && id != r.id && FieldKey(r, f).Some? && FieldKey(live[id], f) == FieldKey(r, f);
      var i :| 0 <= i < n && records[..n][i].id == id;
      assert records[i] == live[id];
      assert Clash(fields, records[i], r);
    }
    if i :| 0 <= i < n && Clash(fields, records[i], r) {
      var f :| f in fields && FieldKey(r, f).Some? && FieldKey(records[i], f) == FieldKey(r, f);
      assert records[..n][i] == records[i];
      assert records[i].id in live && records[i].id != r.id;
    }
  }

  // ---- small collections ----

  /** A collection with one secondary index after inserting some records. */
  function SecondaryOver(ct: Analyzer.CharTable, field: string, records: seq<Record>): State {
    if records == [] then State(map[], map[field := map[]], map[], map[], map[])
    else InsertAll(ct, SecondaryOver(ct, field, records[..|records| - 1]), records[|records| - 1])
  }

  lemma {:induction false} SecondaryMirrors(ct: Analyzer.CharTable, field: string, records: seq<Record>)
    requires DistinctRecords(records)
    ensures var s := SecondaryOver(ct, field, records);
            && Mirrors(ct, s, LiveOf(records))
            && s.unique.Keys == {} && s.secondary.Keys == {field} && s.docPath.Keys == {} && s.vectors.Keys == {} && s.text.Keys == {}
  {
    hide Mirrors, InsertAll;
    if records == [] {
      var s := SecondaryOver(ct, field, []);
      assert s == ClearAll(s);
      ClearMirrors(ct, s);
    } else {
      var n := |records| - 1;
      SecondaryMirrors(ct, field, records[..n]);
      NotAmong(records, n);
      assert records[..n + 1] == records;
      LiveOfSnoc(records, n);
      InsertedFields(ct, SecondaryOver(ct, field, records[..n]), records[n]);
      InsertMirrors(ct, SecondaryOver(ct, field, records[..n]), LiveOf(records[..n]), records[n]);
    }
  }

  // ---- lookups ----

  predicate HasEqualityIndex(s: State, field: string) {
    field in s.unique || field in s.secondary || field in s.docPath
  }

  /** The posting list of a key, whichever index serves the field. */
  function ListAt(s: State, field: string, k: Key): seq<RecordId> {
    if field in s.unique then (if k in s.unique[field] then [s.unique[field][k]] else [])
    else if field in s.secondary then Postings(s.secondary[field], k)
    else if field in s.docPath then Postings(s.docPath[field], k)
    else []
  }

  /** `lookup_eq` */
  function Lookup(s: State, field: string, value: Value): Option<seq<RecordId>> {
    if HasEqualityIndex(s, field) then Some(ListAt(s, field, IndexKey(value))) else None
  }
}
