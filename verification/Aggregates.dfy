/** Facets, GROUP BY and min/max metrics (crates/auradb-query/src/aggregate.rs). */
module Aggregates {
  import opened Wrappers
  import opened Values
  import opened Filters
  import opened Indexes
  import opened CollectionIndexes
  import opened Facets
  import opened BucketOrder
  import opened Planner

  // ---- facets ----

  function FacetBucket(g: Groups, k: ScalarKey): Bucket
    requires k in g
  {
    Bucket(g[k].0, g[k].1, [])
  }

  ghost function FacetBuckets(g: Groups): set<Bucket> {
    set k | k in g :: FacetBucket(g, k)
  }

  lemma FacetsApart(g: Groups, j: ScalarKey, k: ScalarKey)
    requires WellKeyed(g) && j in g && k in g && FacetBucket(g, j).value == FacetBucket(g, k).value
    ensures j == k
  {
    assert ScalarKeyOf(ValueOf(j)) == Keyed(j) && ScalarKeyOf(ValueOf(k)) == Keyed(k);
  }

  lemma FacetsHold(g: Groups)
    requires WellKeyed(g)
    ensures OnePerScalar(FacetBuckets(g))
  {
    forall a, b | a in FacetBuckets(g) && b in FacetBuckets(g) && a.value == b.value ensures a == b {
      var j :| j in g && a == FacetBucket(g, j);
      var k :| k in g && b == FacetBucket(g, k);
      FacetsApart(g, j, k);
    }
  }

  /** The buckets of a tally count, for every scalar held, the records that hold it. */
  lemma FacetsCount(g: Groups, matched: seq<Record>, field: string)
    requires Tallied(g, matched, field)
    ensures CountsOf(FacetBuckets(g), matched, field)
  {
    hide KeyAt, GetPath, Tally, IsScalar;
    assert WellKeyed(g);
    FacetsHold(g);
    var buckets := FacetBuckets(g);
    forall b | b in buckets ensures b.count == |Holding(matched, field, b.value)| && b.count > 0 {
      var k :| k in g && b == FacetBucket(g, k);
      TallyCountsPlaces(matched, field, k);
    }
    forall i | 0 <= i < |matched| && HoldsScalar(matched[i], field)
      ensures HasBucket(buckets, GetPath(matched[i].fields, field).value)
    {
      var k := KeyOfScalar(GetPath(matched[i].fields, field).value);
      TallyCountsPlaces(matched, field, k);
      assert i in Holding(matched, field, ValueOf(k));
      assert FacetBucket(g, k) in buckets;
    }
  }

  method ListFacets(g: Groups) returns (listed: seq<Bucket>)
    requires WellKeyed(g)
    ensures multiset(listed) == multiset(FacetBuckets(g))
  {
    hide FacetBucket, WellKeyed;
    listed := [];
    var todo := g.Keys;
    ghost var done: set<Bucket> := {};
    assert g.Keys - todo == {};
    while todo != {}
      invariant todo <= g.Keys
      invariant done == set k | k in g.Keys - todo :: FacetBucket(g, k)
      invariant multiset(listed) == multiset(done)
      decreases |todo|
    {
      var k :| k in todo;
      var b := FacetBucket(g, k);
      assert b !in done by {
        if b in done {
          var j :| j in g.Keys - todo && b == FacetBucket(g, j);
          FacetsApart(g, j, k);
        }
      }
      assert g.Keys - (todo - {k}) == (g.Keys - todo) + {k};
      listed := listed + [b];
      done := done + {b};
      todo := todo - {k};
    }
    assert done == FacetBuckets(g);
  }

  /** The facet a scan of the matched records gives: an error when one holds a non-scalar, else
      the top buckets of their tally (in whatever order, should the values not sort). */
  ghost predicate FacetOf(env: Env, keyText: ScalarKey -> string, matched: seq<Record>, field: string, limit: nat,
                          out: Option<seq<Bucket>>) {
    exists scan: Option<Groups> ::
      && ScanOutcome(scan, matched, field)
      && (out.None? <==> scan.None?)
      && (scan.Some? ==> SomeOf(FacetBuckets(scan.value), limit, out.value) && TellsCounts(matched, field, limit, out.value))
      && (scan.Some? && Sortable(env, keyText, FacetBuckets(scan.value)) ==>
            && RankedTop(env, keyText, FacetBuckets(scan.value), limit, out.value)
            && InBucketOrder(env, keyText, FacetBuckets(scan.value), out.value))
  }

  /** `compute_facet` */
  method ComputeFacet(env: Env, keyText: ScalarKey -> string, s: State, live: Live, matched: seq<Record>,
                      field: string, limit: nat, canUseIndex: bool)
    returns (out: Option<seq<Bucket>>, usedIndex: bool)
    requires Mirrors(env.ct, s, live) && Undotted(s) && LiveOk(live)
    requires canUseIndex ==> Lists(matched, live)
    ensures usedIndex == (canUseIndex && HasEqualityIndex(s, field))
    ensures !usedIndex || PathsAgree(s, live, field) ==>
              && FacetOf(env, keyText, matched, field, limit, out)
              && (out.None? <==> exists i :: 0 <= i < |matched| && HoldsCompound(matched[i], field))
  {
    hide Mirrors, Tallied, WeighedGroups, PathsAgree, RankedTop, SomeOf, Sortable, OnePerScalar, FacetBuckets, InBucketOrder,
      TellsCounts, KeyAt, HoldsCompound;
    CompoundsHaveNoKey(matched, field);
    usedIndex := canUseIndex && HasEqualityIndex(s, field);
    var groups: Option<Groups>;
    if usedIndex {
      var entries, keys := FacetPostings(s, field);
      groups := IndexGroups(live, entries, field);
      if PathsAgree(s, live, field) {
        IndexIsScan(env.ct, s, live, field, matched, keys, entries, groups);
      }
      assert groups.Some? ==> WellKeyed(groups.value) by { OutcomeKeyed(groups, live, entries, field); }
    } else {
      groups := ScanGroups(matched, field);
      assert groups.Some? ==> WellKeyed(groups.value) by { ScanKeyed(groups, matched, field); }
    }
    if groups.None? {
      out := None;
    } else {
      var listed := ListFacets(groups.value);
      var top := RankBuckets(env, keyText, listed, FacetBuckets(groups.value), limit);
      FacetsHold(groups.value);
      if !usedIndex || PathsAgree(s, live, field) {
        assert ScanOutcome(groups, matched, field);
        FacetsCount(groups.value, matched, field);
        SomeTellCounts(FacetBuckets(groups.value), matched, field, limit, top);
      }
      out := Some(top);
    }
  }

  lemma OutcomeKeyed(groups: Option<Groups>, live: Live, entries: seq<(RecordId, nat)>, field: string)
    requires IndexOutcome(groups, live, entries, field)
    ensures groups.Some? ==> WellKeyed(groups.value)
  {
    hide Represented, Weighed, KeyAt;
  }

  lemma ScanKeyed(groups: Option<Groups>, matched: seq<Record>, field: string)
    requires ScanOutcome(groups, matched, field)
    ensures groups.Some? ==> WellKeyed(groups.value)
  {
    hide Tally, KeyAt;
  }

  /** Where the paths agree, the index's outcome is the scan's. */
  lemma IndexIsScan(ct: Analyzer.CharTable, s: State, live: Live, field: string, matched: seq<Record>,
                    keys: seq<Key>, entries: seq<(RecordId, nat)>, index: Option<Groups>)
    requires Mirrors(ct, s, live) && Undotted(s) && HasEqualityIndex(s, field) && LiveOk(live)
    requires Lists(matched, live) && PostingEntries(s, field, keys, entries)
    requires IndexOutcome(index, live, entries, field) && PathsAgree(s, live, field)
    ensures ScanOutcome(index, matched, field)
  {
    hide KeyAt, Mirrors, Tallied, WeighedGroups, Separated, ListAt, Lists;
    IndexListsMirror(ct, s, live, field);
    ScanFails(live, matched, field);
    IndexFails(s, live, field, keys, entries);
    if index.Some? {
      SeparatedSuffices(s, live, field, keys, entries, index.value);
      ScanIsGroups(index.value, matched, live, field);
    }
  }
}
