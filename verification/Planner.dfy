/** Access-path selection and find execution (crates/auradb-query/src/planner.rs and exec.rs):
    swapping a scan for an index seed, and exactly when that preserves the result. */
module Planner {
  import opened Sequences
  import opened Wrappers
  import opened Values
  import opened Filters
  import opened Comparisons
  import opened Indexes
  import opened CollectionIndexes
  import opened Sums
  import Analyzer
  import TextIndex
  import TextSearch

  datatype Access =
    | PointLookup(field: string, value: Value)
    | IndexLookup(field: string, value: Value)
    | DocumentPath(field: string, value: Value)
    | FullText(field: string, query: string)
    | Scan

  /** What the planner reads of the schema: which names are unique fields, which are indexed paths. */
  datatype Schema = Schema(uniqueFields: set<string>, paths: set<string>)

  /** `collect_candidates`: only conjunctions are descended into. */
  function Candidates(schema: Schema, s: State, filter: Filter): seq<Access> {
    match filter
    case Compare(field, op, value) =>
      if op.Eq? && HasEqualityIndex(s, field) then
        if field in schema.uniqueFields then [PointLookup(field, value)]
        else if field in schema.paths then [DocumentPath(field, value)]
        else [IndexLookup(field, value)]
      else []
    case ContainsText(field, query) => if field in s.text then [FullText(field, query)] else []
    case And(filters) => CandidatesOfAll(schema, s, filters)
    case _ => []
  }

  function CandidatesOfAll(schema: Schema, s: State, filters: seq<Filter>): seq<Access> {
    if filters == [] then [] else Candidates(schema, s, filters[0]) + CandidatesOfAll(schema, s, filters[1..])
  }

  /** Every path the planner may choose for a filter. */
  function Paths(schema: Schema, s: State, filter: Option<Filter>): seq<Access> {
    (if filter.Some? then Candidates(schema, s, filter.value) else []) + [Scan]
  }

  /** `plan_find` without a ranked clause: the first of the cheapest candidates, under any estimates. */
  method PlanFind(schema: Schema, s: State, filter: Option<Filter>, cost: Access -> real) returns (chosen: Access)
    ensures exists k :: 0 <= k < |Paths(schema, s, filter)| && Paths(schema, s, filter)[k] == chosen
              && (forall j :: 0 <= j < |Paths(schema, s, filter)| ==> cost(chosen) <= cost(Paths(schema, s, filter)[j]))
              && (forall j :: 0 <= j < k ==> cost(chosen) < cost(Paths(schema, s, filter)[j]))
  {
    hide Candidates, CandidatesOfAll;
    var paths := Paths(schema, s, filter);
    var best, i := 0, 1;
    while i < |paths|
      invariant 0 <= best < i <= |paths|
      invariant forall j :: 0 <= j < i ==> cost(paths[best]) <= cost(paths[j])
      invariant forall j :: 0 <= j < best ==> cost(paths[best]) < cost(paths[j])
    {
      if cost(paths[i]) < cost(paths[best]) {
        best := i;
      }
      i := i + 1;
    }
    chosen := paths[best];
  }

  // ---- what an access path yields ----

  /** Indexed field names hold no dot, so reading a field and resolving its path are the same. */
  ghost predicate Undotted(s: State) {
    && (forall f :: f in s.unique || f in s.secondary ==> '.' !in f)
    && (forall f :: f in s.text ==> '.' !in f)
  }

  predicate MatchesOpt(env: Env, doc: Document, filter: Option<Filter>) {
    filter.Some? ==> Matches(env, doc, filter.value)
  }

  /** The record is posted under the probe's key. */
  predicate Posted(doc: Document, field: string, value: Value) {
    KeyOf(GetPath(doc, field)) == Some(IndexKey(value))
  }

  predicate IsLookup(a: Access) {
    a.PointLookup? || a.IndexLookup? || a.DocumentPath?
  }

  /** The candidates an access path hands to the residual filter. */
  ghost predicate Seeds(env: Env, live: Live, a: Access, id: RecordId) {
    && id in live
    && var doc := live[id].fields;
       match a
       case Scan => true
       case FullText(field, query) => Matches(env, doc, ContainsText(field, query))
       case _ => Posted(doc, a.field, a.value)
  }

  lemma UniqueLookup(m: Unique, field: string, live: Live, k: Key)
    requires UniqueMirrors(m, field, live)
    ensures var ids := if k in m then [m[k]] else [];
            NoRepeats(ids) && forall id :: id in ids <==> id in live && FieldKey(live[id], field) == Some(k)
  {
    hide FieldKey;
  }

  ghost predicate ListIs(ids: seq<RecordId>, live: Live, field: string, k: Key) {
    NoRepeats(ids) && forall id :: id in ids <==> id in live && PathKey(live[id], field) == Some(k)
  }

  /** Every list holds exactly the live records posted under its key, each once. */
  ghost predicate ListsMirror(s: State, live: Live, field: string) {
    forall k :: ListIs(ListAt(s, field, k), live, field, k)
  }

  lemma UndottedPath(doc: Document, field: string)
    requires '.' !in field
    ensures GetPath(doc, field) == GetField(doc, field)
  {
  }

  lemma UniqueList(s: State, live: Live, field: string, k: Key)
    requires field in s.unique && UniqueMirrors(s.unique[field], field, live) && '.' !in field
    ensures ListIs(ListAt(s, field, k), live, field, k)
  {
    hide IndexKey, UniqueMirrors, GetPath, GetField;
    UniqueLookup(s.unique[field], field, live, k);
    forall id | id in live ensures PathKey(live[id], field) == FieldKey(live[id], field) {
      UndottedPath(live[id].fields, field);
    }
  }

  lemma SecondaryList(s: State, live: Live, field: string, k: Key)
    requires field !in s.unique && field in s.secondary && '.' !in field
    requires PostingsMirror(s.secondary[field], (r: Record) => FieldKey(r, field), live)
    ensures ListIs(ListAt(s, field, k), live, field, k)
  {
    hide IndexKey, GetPath, GetField;
    forall id | id in live ensures PathKey(live[id], field) == FieldKey(live[id], field) {
      UndottedPath(live[id].fields, field);
    }
  }

  lemma PathList(s: State, live: Live, field: string, k: Key)
    requires field !in s.unique && field !in s.secondary && field in s.docPath
    requires PostingsMirror(s.docPath[field], (r: Record) => PathKey(r, field), live)
    ensures ListIs(ListAt(s, field, k), live, field, k)
  {
    hide IndexKey, GetPath;
  }

  lemma IndexListsMirror(ct: Analyzer.CharTable, s: State, live: Live, field: string)
    requires Mirrors(ct, s, live) && Undotted(s) && HasEqualityIndex(s, field)
    ensures ListsMirror(s, live, field)
  {
    hide IndexKey, TextMirror, VectorsMirror, UniqueMirrors, PostingsMirror, ListIs, ListAt;
    forall k ensures ListIs(ListAt(s, field, k), live, field, k) {
      if field in s.unique {
        UniqueList(s, live, field, k);
      } else if field in s.secondary {
        SecondaryList(s, live, field, k);
      } else {
        PathList(s, live, field, k);
      }
    }
  }

  /** A lookup yields exactly the live records posted under the probe's key, each once. */
  lemma LookupIsPosted(ct: Analyzer.CharTable, s: State, live: Live, field: string, value: Value)
    requires Mirrors(ct, s, live) && Undotted(s) && HasEqualityIndex(s, field)
    ensures Lookup(s, field, value).Some?
    ensures var ids := Lookup(s, field, value).value;
            NoRepeats(ids) && forall id :: id in ids <==> id in live && Posted(live[id].fields, field, value)
  {
    hide IndexKey, Mirrors, Undotted, GetPath;
    IndexListsMirror(ct, s, live, field);
    assert ListIs(ListAt(s, field, IndexKey(value)), live, field, IndexKey(value));
  }

  /** The inverted index finds exactly the records the `contains_text` filter matches. */
  lemma TextHits(env: Env, s: State, live: Live, field: string, query: string, id: RecordId)
    requires Mirrors(env.ct, s, live) && Undotted(s) && field in s.text
    requires Analyzer.Tokenize(env.ct, query) != []
    ensures TextSearch.HasAll(s.text[field].postings, TextSearch.Dedup(Analyzer.Tokenize(env.ct, query)), id)
       <==> id in live && Matches(env, live[id].fields, ContainsText(field, query))
  {
    hide Analyzer.Tokenize, UniquesMirror, SecondaryMirror, PathsMirror, VectorsMirror, Count;
    var docs, p := DocsOf(env.ct, live, field), s.text[field].postings;
    var terms := Analyzer.Tokenize(env.ct, query);
    assert TextIndex.Reflects(s.text[field], docs);
    forall t ensures TextSearch.Contains(p, t, id) <==> id in docs && t in docs[id] {
      assert TextIndex.Tf(p, t, id) == TextIndex.DocCount(docs, t, id);
      if id in docs {
        CountIn(docs[id], t);
      }
    }
    var first := terms[0];
    assert first in TextSearch.Dedup(terms);
  }

  method SelectCandidates(env: Env, s: State, live: Live, a: Access) returns (ids: seq<RecordId>)
    requires Mirrors(env.ct, s, live) && Undotted(s)
    requires IsLookup(a) ==> HasEqualityIndex(s, a.field)
    requires a.FullText? ==> a.field in s.text
    ensures NoRepeats(ids) && forall id :: id in ids <==> Seeds(env, live, a, id)
  {
    hide Mirrors, Undotted, Posted, Lookup, Matches;
    if a.Scan? {
      ids := Keys(live);
    } else if a.FullText? {
      ids := TextCandidates(env, s, live, a.field, a.query);
    } else {
      LookupIsPosted(env.ct, s, live, a.field, a.value);
      ids := Lookup(s, a.field, a.value).value;
    }
  }

  method Keys(live: Live) returns (ids: seq<RecordId>)
    ensures NoRepeats(ids) && forall id :: id in ids <==> id in live
  {
    ids := [];
    var todo := live.Keys;
    while todo != {}
      invariant todo <= live.Keys && NoRepeats(ids) && forall id :: id in ids <==> id in live && id !in todo
      decreases |todo|
    {
      var id :| id in todo;
      ids := ids + [id];
      todo := todo - {id};
    }
  }

  method TextCandidates(env: Env, s: State, live: Live, field: string, query: string) returns (ids: seq<RecordId>)
    requires Mirrors(env.ct, s, live) && Undotted(s) && field in s.text
    ensures NoRepeats(ids)
    ensures forall id :: id in ids <==> id in live && Matches(env, live[id].fields, ContainsText(field, query))
  {
    hide Mirrors, Undotted, Analyzer.Tokenize, TextSearch.HasAll;
    var terms := TextSearch.Dedup(Analyzer.Tokenize(env.ct, query));
    var hits := TextSearch.SearchOver(s.text[field].postings, terms);
    ids := HitIds(hits);
    if Analyzer.Tokenize(env.ct, query) == [] {
      assert terms == [];
    } else {
      assert terms != [] by { assert Analyzer.Tokenize(env.ct, query)[0] in terms; }
      HitsDistinct(s.text[field].postings, terms, hits);
      forall id ensures id in ids <==> id in live && Matches(env, live[id].fields, ContainsText(field, query)) {
        TextHits(env, s, live, field, query, id);
        ListedIsIn(hits, id);
        assert TextSearch.Listed(hits, id) <==> TextSearch.HasAll(s.text[field].postings, terms, id);
      }
    }
  }

  function HitIds(hits: seq<(RecordId, nat)>): (ids: seq<RecordId>)
    ensures |ids| == |hits| && forall i :: 0 <= i < |hits| ==> ids[i] == hits[i].0
  {
    seq(|hits|, i requires 0 <= i < |hits| => hits[i].0)
  }

  lemma ListedIsIn(hits: seq<(RecordId, nat)>, id: RecordId)
    ensures TextSearch.Listed(hits, id) <==> id in HitIds(hits)
  {
    if TextSearch.Listed(hits, id) {
      var k :| 0 <= k < |hits| && hits[k].0 == id;
      assert HitIds(hits)[k] == id;
    }
  }

  lemma HitsDistinct(p: TextIndex.Postings, terms: seq<string>, hits: seq<(RecordId, nat)>)
    requires TextSearch.Answers(p, terms, hits)
    ensures NoRepeats(HitIds(hits))
  {
    hide TextSearch.HasAll, TextSearch.TfSum;
    forall i, j | 0 <= i < j < |hits| ensures hits[i].0 != hits[j].0 {
      assert TextSearch.Before(hits[i], hits[j]);
    }
  }

  // ---- candidates are implied by the filter ----

  /** The filter term an access path was seeded from. */
  ghost predicate TermHolds(env: Env, doc: Document, a: Access) {
    match a
    case Scan => true
    case FullText(field, query) => Matches(env, doc, ContainsText(field, query))
    case _ => Matches(env, doc, Compare(a.field, Eq, a.value))
  }

  ghost predicate Indexed(s: State, a: Access) {
    && (IsLookup(a) ==> HasEqualityIndex(s, a.field))
    && (a.FullText? ==> a.field in s.text)
  }

  /** Every record the filter matches satisfies the term behind every candidate. */
  lemma {:induction false} CandidateImplied(env: Env, schema: Schema, s: State, filter: Filter, a: Access, doc: Document)
    requires a in Candidates(schema, s, filter)
    ensures Indexed(s, a) && !a.Scan?
    ensures Matches(env, doc, filter) ==> TermHolds(env, doc, a)
    decreases filter, 1
  {
    match filter
    case And(filters) => CandidateOfAllImplied(env, schema, s, filters, a, doc);
    case _ =>
  }

  lemma {:induction false} CandidateOfAllImplied(env: Env, schema: Schema, s: State, filters: seq<Filter>, a: Access, doc: Document)
    requires a in CandidatesOfAll(schema, s, filters)
    ensures Indexed(s, a) && !a.Scan?
    ensures (forall k :: 0 <= k < |filters| ==> Matches(env, doc, filters[k])) ==> TermHolds(env, doc, a)
    decreases filters, 0
  {
    hide TermHolds, Matches, Indexed;
    if a in Candidates(schema, s, filters[0]) {
      CandidateImplied(env, schema, s, filters[0], a, doc);
    } else {
      CandidateOfAllImplied(env, schema, s, filters[1..], a, doc);
    }
  }

  /** Every term an index can serve is offered to the planner, from within conjunctions too. */
  lemma IndexedTermsAreOffered(schema: Schema, s: State, field: string, value: Value, query: string, filters: seq<Filter>, k: nat, a: Access)
    ensures HasEqualityIndex(s, field) ==>
              exists c :: c in Candidates(schema, s, Compare(field, Eq, value)) && IsLookup(c) && c.field == field && c.value == value
    ensures field in s.text ==> FullText(field, query) in Candidates(schema, s, ContainsText(field, query))
    ensures k < |filters| && a in Candidates(schema, s, filters[k]) ==> a in Candidates(schema, s, And(filters))
  {
    if HasEqualityIndex(s, field) {
      assert Candidates(schema, s, Compare(field, Eq, value))[0] in Candidates(schema, s, Compare(field, Eq, value));
    }
    if k < |filters| && a in Candidates(schema, s, filters[k]) {
      OfferedInAll(schema, s, filters, k, a);
    }
  }

  lemma {:induction false} OfferedInAll(schema: Schema, s: State, filters: seq<Filter>, k: nat, a: Access)
    requires k < |filters| && a in Candidates(schema, s, filters[k])
    ensures a in CandidatesOfAll(schema, s, filters)
  {
    hide Candidates;
    if k > 0 {
      OfferedInAll(schema, s, filters[1..], k - 1, a);
    }
  }

  // ---- what an index seed misses ----

  /** The stored value equals the probe only through a coercion, or both are null: the index holds no such pair. */
  predicate Missed(env: Env, doc: Document, field: string, value: Value) {
    && GetPath(doc, field).Some?
    && var stored := GetPath(doc, field).value;
       ValuesEqual(env, stored, value) && (stored.Null? || Coerced(stored, value))
  }

  predicate MissedBy(env: Env, doc: Document, a: Access) {
    IsLookup(a) && Missed(env, doc, a.field, a.value)
  }

  lemma EqTermSeeds(env: Env, doc: Document, field: string, value: Value)
    requires Matches(env, doc, Compare(field, Eq, value))
    ensures Posted(doc, field, value) <==> !Missed(env, doc, field, value)
  {
    hide IndexKey;
    KeyMismatch(env, GetPath(doc, field).value, value);
  }

  /** Of the records a filter matches, an access path misses exactly the coerced ones. */
  lemma SeedsAllButMissed(env: Env, schema: Schema, s: State, live: Live, filter: Option<Filter>, a: Access, id: RecordId)
    requires a in Paths(schema, s, filter) && id in live && MatchesOpt(env, live[id].fields, filter)
    ensures Indexed(s, a)
    ensures Seeds(env, live, a, id) <==> !MissedBy(env, live[id].fields, a)
  {
    hide Candidates, Matches, Missed, Posted;
    if !a.Scan? {
      CandidateImplied(env, schema, s, filter.value, a, live[id].fields);
      if IsLookup(a) {
        EqTermSeeds(env, live[id].fields, a.field, a.value);
      }
    }
  }

  // ---- running a find ----

  /** The records a full scan with the filter returns. */
  ghost function ScanResult(env: Env, live: Live, filter: Option<Filter>): set<RecordId> {
    set id | id in live && MatchesOpt(env, live[id].fields, filter)
  }

  /** Some record the filter matches is missed by the chosen path. */
  ghost predicate SomethingMissed(env: Env, live: Live, filter: Option<Filter>, a: Access) {
    exists id :: id in live && MatchesOpt(env, live[id].fields, filter) && MissedBy(env, live[id].fields, a)
  }

  /** A range filter on one field. */
  predicate RangeFilter(filter: Option<Filter>) {
    filter.Some? && filter.value.Compare? && IsRange(filter.value.op)
  }

  /** The records whose value stands in the filter's relation to its bound. */
  ghost function InRange(env: Env, live: Live, filter: Option<Filter>): set<RecordId>
    requires RangeFilter(filter)
  {
    var f := filter.value;
    set id | id in live && GetPath(live[id].fields, f.field).Some?
             && Stands(env, GetPath(live[id].fields, f.field).value, f.op, f.value)
  }

  /** No index serves a range filter, and the scan finds exactly the records in range. */
  lemma RangesAreScanned(env: Env, schema: Schema, s: State, live: Live, filter: Option<Filter>, a: Access)
    requires RangeFilter(filter) && a in Paths(schema, s, filter)
    ensures a.Scan? && ScanResult(env, live, filter) == InRange(env, live, filter)
  {
    hide CompareValues, Stands, GetPath;
    forall id | id in live && GetPath(live[id].fields, filter.value.field).Some?
      ensures MatchesOpt(env, live[id].fields, filter)
         <==> Stands(env, GetPath(live[id].fields, filter.value.field).value, filter.value.op, filter.value.value)
    {
      RangeMeaning(env, GetPath(live[id].fields, filter.value.field).value, filter.value.op, filter.value.value);
    }
  }

  /** The residual filter, re-applied to every candidate. */
  method FilterCandidates(env: Env, live: Live, filter: Option<Filter>, ids: seq<RecordId>) returns (matched: seq<RecordId>)
    requires NoRepeats(ids)
    ensures NoRepeats(matched)
    ensures forall id :: id in matched <==> id in ids && id in live && MatchesOpt(env, live[id].fields, filter)
  {
    hide Matches;
    matched := [];
    var i := 0;
    while i < |ids|
      invariant 0 <= i <= |ids| && NoRepeats(matched)
      invariant forall id :: id in matched <==> id in ids[..i] && id in live && MatchesOpt(env, live[id].fields, filter)
    {
      var id := ids[i];
      assert id !in ids[..i];
      if id in live && (filter.None? || Matches(env, live[id].fields, filter.value)) {
        matched := matched + [id];
      }
      assert ids[..i + 1] == ids[..i] + [id];
      i := i + 1;
    }
    assert ids[..i] == ids;
  }

  /** `run_find` for unranked queries: whatever the statistics, the matched set never holds a wrong or
      repeated record, and it equals the full scan's exactly when the chosen path misses no coerced match. */
  method RunFind(env: Env, schema: Schema, s: State, live: Live, filter: Option<Filter>, cost: Access -> real)
    returns (matched: seq<RecordId>, chosen: Access)
    requires Mirrors(env.ct, s, live) && Undotted(s)
    ensures chosen in Paths(schema, s, filter)
    ensures NoRepeats(matched) && Elements(matched) <= ScanResult(env, live, filter)
    ensures Elements(matched) == ScanResult(env, live, filter) <==> !SomethingMissed(env, live, filter, chosen)
    ensures RangeFilter(filter) ==> Elements(matched) == InRange(env, live, filter)
  {
    hide Mirrors, Undotted, Paths, MissedBy, MatchesOpt, Seeds, InRange;
    chosen := PlanFind(schema, s, filter, cost);
    PathsIndexed(env, schema, s, filter, chosen);
    var ids := SelectCandidates(env, s, live, chosen);
    matched := FilterCandidates(env, live, filter, ids);
    forall id | id in live && MatchesOpt(env, live[id].fields, filter)
      ensures id in matched <==> !MissedBy(env, live[id].fields, chosen)
    {
      SeedsAllButMissed(env, schema, s, live, filter, chosen, id);
    }
    if Elements(matched) == ScanResult(env, live, filter) {
      forall id | id in live && MatchesOpt(env, live[id].fields, filter) ensures !MissedBy(env, live[id].fields, chosen) {
        assert id in Elements(matched);
      }
    }
    if RangeFilter(filter) {
      RangesAreScanned(env, schema, s, live, filter, chosen);
      ScanMissesNothing(env, live, filter);
    }
  }

  lemma ScanMissesNothing(env: Env, live: Live, filter: Option<Filter>)
    ensures !SomethingMissed(env, live, filter, Scan)
  {
  }

  lemma PathsIndexed(env: Env, schema: Schema, s: State, filter: Option<Filter>, a: Access)
    requires a in Paths(schema, s, filter)
    ensures Indexed(s, a)
  {
    hide Candidates;
    if !a.Scan? {
      CandidateImplied(env, schema, s, filter.value, a, map[]);
    }
  }

  // ---- the connectives ----

  ghost function Matching(env: Env, live: Live, filter: Filter): set<RecordId> {
    ScanResult(env, live, Some(filter))
  }

  /** `and`, `or` and `not` are intersection, union and complement of what their parts match. */
  lemma ConnectivesAreSets(env: Env, live: Live, filters: seq<Filter>, f: Filter)
    ensures forall id :: id in Matching(env, live, And(filters)) <==>
              id in live && forall k :: 0 <= k < |filters| ==> id in Matching(env, live, filters[k])
    ensures forall id :: id in Matching(env, live, Or(filters)) <==>
              exists k :: 0 <= k < |filters| && id in Matching(env, live, filters[k])
    ensures Matching(env, live, Not(f)) == live.Keys - Matching(env, live, f)
  {
    hide CompareValues, GetPath, IsSubstring, TextMatches;
  }

  /** `in` is the union of its equalities. */
  lemma InIsUnion(env: Env, live: Live, field: string, items: seq<Value>)
    ensures forall id :: id in Matching(env, live, Compare(field, In, Array(items))) <==>
              exists k :: 0 <= k < |items| && id in Matching(env, live, Compare(field, Eq, items[k]))
  {
    hide ValuesEqual, GetPath, Order;
  }

  /** A record that has the field passes exactly one of `eq` and `ne`, and one that lacks it passes no comparison. */
  lemma ComparisonsNeedTheField(env: Env, live: Live, field: string, value: Value, op: CompareOp, id: RecordId)
    requires id in live
    ensures GetPath(live[id].fields, field).None? ==> id !in Matching(env, live, Compare(field, op, value))
    ensures GetPath(live[id].fields, field).Some? ==>
              (id in Matching(env, live, Compare(field, Ne, value)) <==> id !in Matching(env, live, Compare(field, Eq, value)))
  {
    hide GetPath, ValuesEqual, Order;
  }

  /** `exists` finds the records that have the field and do not hold null there. */
  lemma ExistsIsNotNull(env: Env, live: Live, field: string, id: RecordId)
    requires id in live
    ensures id in Matching(env, live, Exists(field)) <==>
              GetPath(live[id].fields, field).Some? && id !in Matching(env, live, Compare(field, Eq, Null))
  {
    hide GetPath;
  }

  /** `contains` finds the records whose text has the substring somewhere. */
  lemma ContainsFindsText(env: Env, live: Live, field: string, sub: string, id: RecordId)
    requires id in live
    ensures id in Matching(env, live, Contains(field, sub)) <==>
              GetPath(live[id].fields, field).Some? && GetPath(live[id].fields, field).value.Text?
              && exists k: nat :: OccursAt(sub, GetPath(live[id].fields, field).value.s, k)
  {
    hide GetPath, IsSubstring, OccursAt;
    if GetPath(live[id].fields, field).Some? && GetPath(live[id].fields, field).value.Text? {
      ContainsIsOccurrence(sub, GetPath(live[id].fields, field).value.s);
    }
  }

  /** Only an indexed field can be looked up. */
  lemma LookupNeedsIndex(s: State, field: string, value: Value)
    ensures Lookup(s, field, value).Some? <==> HasEqualityIndex(s, field)
  {
    hide IndexKey, ListAt;
  }

  // ---- when nothing can be missed ----

  /** A probe no coercion reaches. */
  predicate PlainProbe(v: Value) {
    !v.Null? && !v.Int? && !v.Float? && !v.Timestamp?
  }

  /** A probe that is neither null, a number nor a timestamp is never missed, in any store. */
  lemma PlainProbesAreExact(env: Env, live: Live, filter: Option<Filter>, a: Access)
    requires IsLookup(a) ==> PlainProbe(a.value)
    ensures !SomethingMissed(env, live, filter, a)
  {
  }

  /** The source's own coercion example, with an index on the field: the planner offers the index for a
      probe of 42.0, the lookup yields nothing, and a scan would have found the stored integer 42. */
  lemma CoercedProbeIsMissed(env: Env)
    requires env.asFloat(42) == 42.0
    ensures var r := Record(1, map["views" := Int(42)]);
            var probe := Float(Finite(42.0));
            var filter := Compare("views", Eq, probe);
            var s, live := SecondaryOver(env.ct, "views", [r]), LiveOf([r]);
            && Mirrors(env.ct, s, live) && Undotted(s)
            && IndexLookup("views", probe) in Paths(Schema({}, {}), s, Some(filter))
            && Lookup(s, "views", probe).Some? && Elements(Lookup(s, "views", probe).value) == {}
            && ScanResult(env, live, Some(filter)) == {1}
            && SomethingMissed(env, live, Some(filter), IndexLookup("views", probe))
  {
    hide Mirrors, SecondaryOver, LiveOf, IndexKey, GetPath, ListAt;
    var r := Record(1, map["views" := Int(42)]);
    var probe := Float(Finite(42.0));
    var filter := Compare("views", Eq, probe);
    var s, live := SecondaryOver(env.ct, "views", [r]), LiveOf([r]);
    SecondaryMirrors(env.ct, "views", [r]);
    OneRecord(r);
    ViewsIs42(r.fields);
    assert HasEqualityIndex(s, "views");
    LookupIsPosted(env.ct, s, live, "views", probe);
    var ids := Lookup(s, "views", probe).value;
    IntIsNotFloatKey();
    assert forall id :: id in Elements(ids) ==> id in ids;
    assert MissedBy(env, live[1].fields, IndexLookup("views", probe));
  }

  lemma OneRecord(r: Record)
    ensures LiveOf([r]) == map[r.id := r]
  {
    assert [r][..0] == [];
  }

  lemma ViewsIs42(doc: Document)
    requires doc == map["views" := Int(42)]
    ensures '.' !in "views" && GetPath(doc, "views") == Some(Int(42))
  {
  }

  lemma IntIsNotFloatKey()
    ensures IndexKey(Int(42)) != IndexKey(Float(Finite(42.0)))
  {
  }
}
