/** The equality, vector and text indexes of one collection, as values: what an insertion and a
    removal do to each of them, and what it means for them to mirror the live records. */
module Indexes {
  import opened Sequences
  import opened Wrappers
  import opened Values
  import opened Filters
  import Analyzer
  import TextIndex

  type Live = map<RecordId, Record>

  /** Live records are stored under their own id. */
  ghost predicate LiveOk(live: Live) {
    forall id :: id in live ==> live[id].id == id
  }

  type Unique = map<Key, RecordId>

  type PostingLists = map<Key, seq<RecordId>>

  type VectorMap = map<RecordId, seq<Float64>>

  /** What an index posts a value under; nulls are not indexed. */
  function KeyOf(v: Option<Value>): Option<Key> {
    if v.Some? && !v.value.Null? then Some(IndexKey(v.value)) else None
  }

  function FieldKey(r: Record, field: string): Option<Key> {
    KeyOf(GetField(r.fields, field))
  }

  function PathKey(r: Record, path: string): Option<Key> {
    KeyOf(GetPath(r.fields, path))
  }

  // ---- unique maps ----

  function UniqueInsert(m: Unique, field: string, r: Record): Unique {
    match FieldKey(r, field) case Some(k) => m[k := r.id] case None => m
  }

  function UniqueRemove(m: Unique, field: string, r: Record): Unique {
    match GetField(r.fields, field)
    case Some(v) =>
      var k := IndexKey(v);
      if k in m && m[k] == r.id then m - {k} else m
    case None => m
  }

  /** The map is the inverse image of the live records: it sends every key to the one record holding it. */
  ghost predicate UniqueMirrors(m: Unique, field: string, live: Live) {
    && (forall k :: k in m ==> m[k] in live && FieldKey(live[m[k]], field) == Some(k))
    && (forall id :: id in live && FieldKey(live[id], field).Some? ==>
          var k := FieldKey(live[id], field).value; k in m && m[k] == id)
  }

  lemma UniqueInsertMirrors(m: Unique, field: string, live: Live, r: Record)
    requires UniqueMirrors(m, field, live) && LiveOk(live) && r.id !in live
    requires FieldKey(r, field).Some? ==> FieldKey(r, field).value !in m
    ensures UniqueMirrors(UniqueInsert(m, field, r), field, live[r.id := r])
  {
    hide FieldKey;
  }

  lemma UniqueRemoveMirrors(m: Unique, field: string, live: Live, r: Record)
    requires UniqueMirrors(m, field, live) && LiveOk(live) && r.id in live && live[r.id] == r
    ensures UniqueMirrors(UniqueRemove(m, field, r), field, live - {r.id})
    ensures FieldKey(r, field).Some? ==> FieldKey(r, field).value !in UniqueRemove(m, field, r)
  {
    hide IndexKey;
    var m' := UniqueRemove(m, field, r);
    forall id | id in live - {r.id} && FieldKey(live[id], field).Some?
      ensures var k := FieldKey(live[id], field).value; k in m' && m'[k] == id
    {
    }
  }

  /** No two live records share a unique key. */
  lemma UniqueIsInjective(m: Unique, field: string, live: Live, a: RecordId, b: RecordId)
    requires UniqueMirrors(m, field, live) && a in live && b in live
    requires FieldKey(live[a], field).Some? && FieldKey(live[a], field) == FieldKey(live[b], field)
    ensures a == b
  {
    hide FieldKey;
    var k := FieldKey(live[a], field).value;
    assert m[k] == a;
  }

  // ---- posting lists ----

  function Postings(m: PostingLists, k: Key): seq<RecordId> {
    if k in m then m[k] else []
  }

  function PostingInsert(m: PostingLists, k: Option<Key>, id: RecordId): PostingLists {
    if k.Some? then m[k.value := Postings(m, k.value) + [id]] else m
  }

  function Retain(ids: seq<RecordId>, id: RecordId): seq<RecordId> {
    if ids == [] then [] else (if ids[0] == id then [] else [ids[0]]) + Retain(ids[1..], id)
  }

  /** Removal looks the stored value up even when it is null; an emptied list stays behind. */
  function PostingRemove(m: PostingLists, v: Option<Value>, id: RecordId): PostingLists {
    if v.Some? && IndexKey(v.value) in m
    then m[IndexKey(v.value) := Retain(m[IndexKey(v.value)], id)]
    else m
  }

  /** Every list holds exactly the live records under its key, each once. */
  ghost predicate PostingsMirror(m: PostingLists, keyOf: Record -> Option<Key>, live: Live) {
    && (forall k :: k in m ==> NoRepeats(m[k]))
    && (forall k, id :: id in Postings(m, k) <==> id in live && keyOf(live[id]) == Some(k))
  }

  lemma {:induction false} RetainIs(ids: seq<RecordId>, id: RecordId)
    ensures forall x :: x in Retain(ids, id) <==> x in ids && x != id
    ensures NoRepeats(ids) ==> NoRepeats(Retain(ids, id))
    ensures |Retain(ids, id)| <= |ids|
  {
    if ids != [] {
      RetainIs(ids[1..], id);
      assert forall x :: x in ids <==> x == ids[0] || x in ids[1..];
      if NoRepeats(ids) && ids[0] != id {
        assert ids[0] !in ids[1..];
        ConsNoRepeats(ids[0], Retain(ids[1..], id));
      }
    }
  }

  lemma ConsNoRepeats(x: RecordId, rest: seq<RecordId>)
    requires x !in rest && NoRepeats(rest)
    ensures NoRepeats([x] + rest)
  {
  }

  lemma PostingInsertMirrors(m: PostingLists, keyOf: Record -> Option<Key>, live: Live, r: Record)
    requires PostingsMirror(m, keyOf, live) && r.id !in live
    ensures PostingsMirror(PostingInsert(m, keyOf(r), r.id), keyOf, live[r.id := r])
  {
    var m', live' := PostingInsert(m, keyOf(r), r.id), live[r.id := r];
    forall k, id ensures id in Postings(m', k) <==> id in live' && keyOf(live'[id]) == Some(k) {
      assert id in Postings(m, k) <==> id in live && keyOf(live[id]) == Some(k);
    }
    if keyOf(r).Some? {
      assert r.id !in Postings(m, keyOf(r).value);
    }
  }

  lemma PostingRemoveDrops(m: PostingLists, v: Option<Value>, id: RecordId)
    requires forall k :: k in m ==> NoRepeats(m[k])
    ensures var m' := PostingRemove(m, v, id);
            && (forall k :: k in m' ==> NoRepeats(m'[k]))
            && (forall k, x :: x in Postings(m', k) <==> x in Postings(m, k) && !(x == id && v.Some? && k == IndexKey(v.value)))
  {
    hide IndexKey, Retain, NoRepeats;
    if v.Some? && IndexKey(v.value) in m {
      RetainIs(m[IndexKey(v.value)], id);
    }
  }

  lemma PostingRemoveMirrors(m: PostingLists, keyOf: Record -> Option<Key>, live: Live, r: Record, v: Option<Value>)
    requires PostingsMirror(m, keyOf, live) && r.id in live && live[r.id] == r && keyOf(r) == KeyOf(v)
    ensures PostingsMirror(PostingRemove(m, v, r.id), keyOf, live - {r.id})
  {
    hide IndexKey, PostingRemove, Postings, NoRepeats;
    var m', live' := PostingRemove(m, v, r.id), live - {r.id};
    PostingRemoveDrops(m, v, r.id);
    forall k, id ensures id in Postings(m', k) <==> id in live' && keyOf(live'[id]) == Some(k) {
      assert id in Postings(m, k) <==> id in live && keyOf(live[id]) == Some(k);
    }
  }

  // ---- vectors ----

  ghost function VectorsOf(live: Live, field: string): VectorMap {
    map id | id in live && HasVector(live[id], field) :: live[id].fields[field].v
  }

  predicate HasVector(r: Record, field: string) {
    field in r.fields && r.fields[field].Vector?
  }

  function VectorInsert(m: VectorMap, field: string, r: Record): VectorMap {
    if HasVector(r, field) then m[r.id := r.fields[field].v] else m
  }

  lemma VectorInsertMirrors(field: string, live: Live, r: Record)
    requires r.id !in live
    ensures VectorInsert(VectorsOf(live, field), field, r) == VectorsOf(live[r.id := r], field)
  {
  }

  lemma VectorRemoveMirrors(field: string, live: Live, id: RecordId)
    ensures VectorsOf(live, field) - {id} == VectorsOf(live - {id}, field)
  {
  }

  // ---- text ----

  predicate HasText(r: Record, field: string) {
    field in r.fields && r.fields[field].Text?
  }

  ghost function DocsOf(ct: Analyzer.CharTable, live: Live, field: string): TextIndex.Docs {
    map id | id in live && HasText(live[id], field) :: Analyzer.Tokenize(ct, live[id].fields[field].s)
  }

  function TextInsert(ct: Analyzer.CharTable, st: TextIndex.TextState, field: string, r: Record): TextIndex.TextState {
    if HasText(r, field) then TextIndex.AddState(st, r.id, Analyzer.Tokenize(ct, r.fields[field].s)) else st
  }

  function TextRemove(ct: Analyzer.CharTable, st: TextIndex.TextState, field: string, r: Record): TextIndex.TextState {
    if HasText(r, field) then TextIndex.RemoveState(st, r.id, Analyzer.Tokenize(ct, r.fields[field].s)) else st
  }

  lemma TextInsertMirrors(ct: Analyzer.CharTable, st: TextIndex.TextState, field: string, live: Live, r: Record)
    requires TextIndex.Reflects(st, DocsOf(ct, live, field)) && r.id !in live
    ensures TextIndex.Reflects(TextInsert(ct, st, field, r), DocsOf(ct, live[r.id := r], field))
  {
    hide TextIndex.Reflects, TextIndex.AddState, Analyzer.Tokenize;
    var docs, docs' := DocsOf(ct, live, field), DocsOf(ct, live[r.id := r], field);
    if HasText(r, field) {
      var tokens := Analyzer.Tokenize(ct, r.fields[field].s);
      assert docs' == docs[r.id := tokens];
      TextIndex.AddReflects(st, docs, r.id, tokens);
    } else {
      assert docs' == docs;
    }
  }

  lemma TextRemoveMirrors(ct: Analyzer.CharTable, st: TextIndex.TextState, field: string, live: Live, r: Record)
    requires TextIndex.Reflects(st, DocsOf(ct, live, field)) && r.id in live && live[r.id] == r
    ensures TextIndex.Reflects(TextRemove(ct, st, field, r), DocsOf(ct, live - {r.id}, field))
  {
    hide TextIndex.Reflects, TextIndex.RemoveState, Analyzer.Tokenize;
    var docs, docs' := DocsOf(ct, live, field), DocsOf(ct, live - {r.id}, field);
    if HasText(r, field) {
      assert docs' == docs - {r.id};
      TextIndex.RemoveReflects(st, docs, r.id, Analyzer.Tokenize(ct, r.fields[field].s));
    } else {
      assert docs' == docs;
    }
  }
}
