/** Terms facets (crates/auradb-query/src/aggregate.rs): counted by a scan or straight from
    posting-list lengths. */
module Facets {
  import opened Sequences
  import opened Wrappers
  import opened Values
  import opened Filters
  import opened Indexes
  import opened CollectionIndexes
  import opened Planner

  /** The type-tagged bucket key of a scalar. */
  datatype ScalarKey = KBool(b: bool) | KInt(i: int) | KFloat(f: Float64) | KText(s: string) | KTimestamp(ms: int)

  datatype KeyResult = NoKey | Keyed(key: ScalarKey) | NotScalar

  /** `scalar_key`: nulls are skipped, non-scalars are an error. */
  function ScalarKeyOf(v: Value): KeyResult {
    match v
    case Null => NoKey
    case Bool(b) => Keyed(KBool(b))
    case Int(i) => Keyed(KInt(i))
    case Float(f) => Keyed(KFloat(f))
    case Text(s) => Keyed(KText(s))
    case Timestamp(ms) => Keyed(KTimestamp(ms))
    case _ => NotScalar
  }

  function ValueOf(k: ScalarKey): Value {
    match k
    case KBool(b) => Bool(b)
    case KInt(i) => Int(i)
    case KFloat(f) => Float(f)
    case KText(s) => Text(s)
    case KTimestamp(ms) => Timestamp(ms)
  }

  function KeyAt(r: Record, field: string): KeyResult {
    if GetPath(r.fields, field).None? then NoKey else ScalarKeyOf(GetPath(r.fields, field).value)
  }

  type Groups = map<ScalarKey, (Value, nat)>

  /** Every group carries the value of its key. */
  ghost predicate WellKeyed<V>(g: map<ScalarKey, (Value, V)>) {
    forall k :: k in g ==> g[k].0 == ValueOf(k)
  }

  /** The live records holding a value. */
  ghost function Holders(live: Live, field: string, k: ScalarKey): set<RecordId> {
    set id | id in live && KeyAt(live[id], field) == Keyed(k)
  }

  /** One group per value held, with the number of its holders. */
  ghost predicate GroupsAre(g: Groups, live: Live, field: string) {
    forall k :: (k in g <==> Holders(live, field, k) != {})
             && (k in g ==> g[k] == (ValueOf(k), |Holders(live, field, k)|))
  }

  lemma GroupsDetermined(a: Groups, b: Groups, live: Live, field: string)
    requires GroupsAre(a, live, field) && GroupsAre(b, live, field)
    ensures a == b
  {
    hide Holders;
    forall k ensures k in a <==> k in b { }
    assert a.Keys == b.Keys;
  }

  // ---- the scan path ----

  function Tally(records: seq<Record>, field: string, k: ScalarKey): nat {
    if records == [] then 0
    else Tally(records[..|records| - 1], field, k) + (if KeyAt(records[|records| - 1], field) == Keyed(k) then 1 else 0)
  }

  ghost predicate Tallied(g: Groups, records: seq<Record>, field: string) {
    forall k :: (k in g <==> Tally(records, field, k) > 0) && (k in g ==> g[k] == (ValueOf(k), Tally(records, field, k)))
  }

  method ScanGroups(matched: seq<Record>, field: string) returns (groups: Option<Groups>)
    ensures ScanOutcome(groups, matched, field)
  {
    hide KeyAt;
    var g: Groups := map[];
    var i := 0;
    while i < |matched|
      invariant 0 <= i <= |matched| && Tallied(g, matched[..i], field)
      invariant forall j :: 0 <= j < i ==> !KeyAt(matched[j], field).NotScalar?
    {
      assert matched[..i + 1][..i] == matched[..i];
      match KeyAt(matched[i], field) {
        case NotScalar => return None;
        case NoKey =>
        case Keyed(k) => g := g[k := if k in g then (g[k].0, g[k].1 + 1) else (ValueOf(k), 1)];
      }
      i := i + 1;
    }
    assert matched[..i] == matched;
    groups := Some(g);
  }

  /** Where the records hold a value. */
  ghost function Holding(records: seq<Record>, field: string, v: Value): set<int> {
    set i | 0 <= i < |records| && GetPath(records[i].fields, field) == Some(v)
  }

  lemma KeyIsValue(r: Record, field: string, k: ScalarKey)
    ensures KeyAt(r, field) == Keyed(k) <==> GetPath(r.fields, field) == Some(ValueOf(k))
  {
    hide GetPath;
  }

  /** The tally of a key is the number of records that hold its value. */
  lemma {:induction false} TallyCountsPlaces(records: seq<Record>, field: string, k: ScalarKey)
    ensures Tally(records, field, k) == |Holding(records, field, ValueOf(k))|
  {
    hide KeyAt, GetPath, ValueOf;
    if records != [] {
      var last := |records| - 1;
      var front := records[..last];
      TallyCountsPlaces(front, field, k);
      KeyIsValue(records[last], field, k);
      var here: set<int> := if KeyAt(records[last], field) == Keyed(k) then {last} else {};
      assert Holding(records, field, ValueOf(k)) == Holding(front, field, ValueOf(k)) + here;
    }
  }

  /** `records` lists the live records, each once. */
  ghost predicate Lists(records: seq<Record>, live: Live) {
    && (forall i :: 0 <= i < |records| ==> records[i].id in live && live[records[i].id] == records[i])
    && (forall i, j :: 0 <= i < j < |records| ==> records[i].id != records[j].id)
    && (forall id :: id in live ==> live[id] in records)
  }

  ghost function HoldersIn(records: seq<Record>, field: string, k: ScalarKey): set<RecordId> {
    set i | 0 <= i < |records| && KeyAt(records[i], field) == Keyed(k) :: records[i].id
  }

  lemma {:induction false} TallyIsCount(records: seq<Record>, field: string, k: ScalarKey)
    requires forall i, j :: 0 <= i < j < |records| ==> records[i].id != records[j].id
    ensures Tally(records, field, k) == |HoldersIn(records, field, k)|
  {
    hide KeyAt, HoldersIn;
    if records == [] {
      assert HoldersIn([], field, k) == {} by { NoHolders(field, k); }
    } else {
      var last := |records| - 1;
      TallyIsCount(records[..last], field, k);
      HoldersStep(records, field, k);
    }
  }

  lemma NoHolders(field: string, k: ScalarKey)
    ensures HoldersIn([], field, k) == {}
  {
  }

  lemma HoldersStep(records: seq<Record>, field: string, k: ScalarKey)
    requires records != [] && forall i, j :: 0 <= i < j < |records| ==> records[i].id != records[j].id
    ensures var last := |records| - 1;
            var before := HoldersIn(records[..last], field, k);
            && records[last].id !in before
            && HoldersIn(records, field, k) == if KeyAt(records[last], field) == Keyed(k) then before + {records[last].id} else before
  {
    hide KeyAt;
    var last := |records| - 1;
    var before := HoldersIn(records[..last], field, k);
    forall id | id in HoldersIn(records, field, k) ensures id in before || (id == records[last].id && KeyAt(records[last], field) == Keyed(k)) {
      var i :| 0 <= i < |records| && KeyAt(records[i], field) == Keyed(k) && records[i].id == id;
      assert i < last ==> records[..last][i] == records[i];
    }
    forall id | id in before ensures id in HoldersIn(records, field, k) {
      var i :| 0 <= i < last && KeyAt(records[..last][i], field) == Keyed(k) && records[..last][i].id == id;
      assert records[i] == records[..last][i];
    }
  }

  /** Over all live records, tallying is counting holders. */
  lemma ScanIsGroups(g: Groups, records: seq<Record>, live: Live, field: string)
    requires Lists(records, live) && LiveOk(live)
    ensures Tallied(g, records, field) <==> GroupsAre(g, live, field)
  {
    hide KeyAt, Tally;
    forall k ensures Tally(records, field, k) == |Holders(live, field, k)| {
      TallyIsCount(records, field, k);
      assert HoldersIn(records, field, k) == Holders(live, field, k) by {
        forall id | id in Holders(live, field, k) ensures id in HoldersIn(records, field, k) {
          var i :| 0 <= i < |records| && records[i] == live[id];
          assert records[i].id in HoldersIn(records, field, k);
        }
      }
    }
    forall k ensures Tally(records, field, k) > 0 <==> Holders(live, field, k) != {} {
      assert Tally(records, field, k) == |Holders(live, field, k)|;
    }
  }

  // ---- the index path ----

  /** Records posted together fall into the same bucket. */
  ghost predicate Separated(live: Live, field: string) {
    forall a, b :: a in live && b in live && PathKey(live[a], field).Some? && PathKey(live[a], field) == PathKey(live[b], field)
      ==> KeyAt(live[a], field) == KeyAt(live[b], field)
  }

  lemma BucketIsPosted(r: Record, field: string, k: ScalarKey)
    ensures KeyAt(r, field).NoKey? <==> PathKey(r, field).None?
    ensures KeyAt(r, field) == Keyed(k) ==> PathKey(r, field) == Some(IndexKey(ValueOf(k)))
  {
  }

  /** Values for which index keys and bucket keys tell apart the same things. */
  ghost predicate PlainScalar(v: Value) {
    v.Null? || v.Bool? || v.Int? || (v.Float? && v.f.Finite?) || v.Text? || v.Timestamp?
  }

  /** Finite scalars are never posted together unless they are equal. */
  lemma PlainIsSeparated(live: Live, field: string)
    requires forall id :: id in live && GetPath(live[id].fields, field).Some? ==> PlainScalar(GetPath(live[id].fields, field).value)
    ensures Separated(live, field)
  {
    hide GetPath;
    forall a, b | a in live && b in live && PathKey(live[a], field).Some? && PathKey(live[a], field) == PathKey(live[b], field)
      ensures KeyAt(live[a], field) == KeyAt(live[b], field)
    {
      KeysTellApart(GetPath(live[a].fields, field).value, GetPath(live[b].fields, field).value);
    }
  }

  lemma KeysTellApart(a: Value, b: Value)
    requires PlainScalar(a) && PlainScalar(b) && IndexKey(a) == IndexKey(b)
    ensures a == b
  {
    if a.Timestamp? && b.Timestamp? {
      assert ToJson(a).fields[TIMESTAMP_KEY] == JInt(a.ms) && ToJson(b).fields[TIMESTAMP_KEY] == JInt(b.ms);
    }
  }

  /** One entry per non-empty posting list: a representative and the length of the list. */
  ghost predicate PostingEntries(s: State, field: string, keys: seq<Key>, entries: seq<(RecordId, nat)>)
    requires HasEqualityIndex(s, field)
  {
    && |keys| == |entries|
    && (forall i, j :: 0 <= i < j < |keys| ==> keys[i] != keys[j])
    && (forall i :: 0 <= i < |keys| ==>
          var ids := ListAt(s, field, keys[i]); ids != [] && entries[i] == (ids[0], |ids|))
    && (forall k :: ListAt(s, field, k) != [] ==> k in keys)
  }

  predicate HeadsList(ids: seq<RecordId>, e: (RecordId, nat)) {
    ids != [] && e == (ids[0], |ids|)
  }

  ghost predicate HeadsSomeList(s: State, field: string, e: (RecordId, nat)) {
    exists k :: HeadsList(ListAt(s, field, k), e)
  }

  /** `facet_postings`, in whatever order the hash map yields its lists. */
  method FacetPostings(s: State, field: string) returns (entries: seq<(RecordId, nat)>, ghost keys: seq<Key>)
    requires HasEqualityIndex(s, field)
    ensures PostingEntries(s, field, keys, entries)
    ensures forall e :: e in entries ==> HeadsSomeList(s, field, e)
  {
    entries, keys := [], [];
    var all := if field in s.unique then s.unique[field].Keys
               else if field in s.secondary then s.secondary[field].Keys else s.docPath[field].Keys;
    var todo := all;
    while todo != {}
      invariant todo <= all && |keys| == |entries|
      invariant forall i, j :: 0 <= i < j < |keys| ==> keys[i] != keys[j]
      invariant forall i :: 0 <= i < |keys| ==>
                  var ids := ListAt(s, field, keys[i]); keys[i] !in todo && ids != [] && entries[i] == (ids[0], |ids|)
      invariant forall k :: ListAt(s, field, k) != [] ==> k in keys || k in todo
      decreases |todo|
    {
      var k :| k in todo;
      var ids := ListAt(s, field, k);
      if ids != [] {
        entries := entries + [(ids[0], |ids|)];
        keys := keys + [k];
      }
      todo := todo - {k};
    }
    forall e | e in entries ensures HeadsSomeList(s, field, e) {
      var i :| 0 <= i < |entries| && entries[i] == e;
      assert HeadsList(ListAt(s, field, keys[i]), e);
    }
  }

  /** The total weight of the entries whose representative holds bucket key `k`. */
  function Weighed(live: Live, entries: seq<(RecordId, nat)>, field: string, k: ScalarKey): nat {
    if entries == [] then 0
    else
      var e := entries[|entries| - 1];
      Weighed(live, entries[..|entries| - 1], field, k)
      + (if e.0 in live && KeyAt(live[e.0], field) == Keyed(k) then e.1 else 0)
  }

  ghost predicate Represented(live: Live, entries: seq<(RecordId, nat)>, field: string, k: ScalarKey) {
    exists i :: 0 <= i < |entries| && entries[i].0 in live && KeyAt(live[entries[i].0], field) == Keyed(k)
  }

  ghost predicate WeighedGroups(g: Groups, live: Live, entries: seq<(RecordId, nat)>, field: string) {
    forall k :: (k in g <==> Represented(live, entries, field, k))
             && (k in g ==> g[k] == (ValueOf(k), Weighed(live, entries, field, k)))
  }

  lemma {:induction false} UnrepresentedWeighsNothing(live: Live, entries: seq<(RecordId, nat)>, field: string, k: ScalarKey)
    requires !Represented(live, entries, field, k)
    ensures Weighed(live, entries, field, k) == 0
  {
    hide KeyAt;
    if entries != [] {
      var last := |entries| - 1;
      assert entries[last].0 in live ==> KeyAt(live[entries[last].0], field) != Keyed(k);
      forall i | 0 <= i < last && entries[..last][i].0 in live ensures KeyAt(live[entries[..last][i].0], field) != Keyed(k) {
        assert entries[i] == entries[..last][i];
      }
      UnrepresentedWeighsNothing(live, entries[..last], field, k);
    }
  }

  lemma WeighStep(g: Groups, live: Live, entries: seq<(RecordId, nat)>, field: string, i: nat)
    requires i < |entries| && WeighedGroups(g, live, entries[..i], field)
    ensures var e := entries[i];
            var key := if e.0 in live then KeyAt(live[e.0], field) else NoKey;
            WeighedGroups(
              if key.Keyed? then g[key.key := if key.key in g then (g[key.key].0, g[key.key].1 + e.1) else (ValueOf(key.key), e.1)]
              else g, live, entries[..i + 1], field)
  {
    hide KeyAt;
    var e := entries[i];
    assert entries[..i + 1][..i] == entries[..i];
    var key := if e.0 in live then KeyAt(live[e.0], field) else NoKey;
    forall k ensures Represented(live, entries[..i + 1], field, k) <==> (Represented(live, entries[..i], field, k) || key == Keyed(k)) {
      if Represented(live, entries[..i], field, k) {
        var j :| 0 <= j < i && entries[..i][j].0 in live && KeyAt(live[entries[..i][j].0], field) == Keyed(k);
        assert entries[..i + 1][j] == entries[..i][j];
      }
      if key == Keyed(k) {
        assert entries[..i + 1][i] == e;
      }
    }
    if key.Keyed? && key.key !in g {
      UnrepresentedWeighsNothing(live, entries[..i], field, key.key);
    }
  }

  method IndexGroups(live: Live, entries: seq<(RecordId, nat)>, field: string) returns (groups: Option<Groups>)
    ensures IndexOutcome(groups, live, entries, field)
  {
    hide KeyAt, WeighedGroups;
    var g: Groups := map[];
    var i := 0;
    NothingWeighed(live, field);
    assert entries[..0] == [];
    while i < |entries|
      invariant 0 <= i <= |entries| && WeighedGroups(g, live, entries[..i], field)
      invariant forall j :: 0 <= j < i && entries[j].0 in live ==> !KeyAt(live[entries[j].0], field).NotScalar?
    {
      WeighStep(g, live, entries, field, i);
      var e := entries[i];
      if e.0 in live {
        match KeyAt(live[e.0], field) {
          case NotScalar => return None;
          case NoKey =>
          case Keyed(k) => g := g[k := if k in g then (g[k].0, g[k].1 + e.1) else (ValueOf(k), e.1)];
        }
      }
      i := i + 1;
    }
    assert entries[..i] == entries;
    groups := Some(g);
  }

  lemma NothingWeighed(live: Live, field: string)
    ensures WeighedGroups(map[], live, [], field)
  {
  }

  // ---- the two paths compared ----

  /** A value's bucket key is carried only by the representative of its own list. */
  lemma OnlyOwnList(s: State, live: Live, field: string, keys: seq<Key>, entries: seq<(RecordId, nat)>, k: ScalarKey, j: nat)
    requires HasEqualityIndex(s, field) && PostingEntries(s, field, keys, entries) && ListsMirror(s, live, field) && j < |keys|
    requires entries[j].0 in live && KeyAt(live[entries[j].0], field) == Keyed(k)
    ensures keys[j] == IndexKey(ValueOf(k))
  {
    hide KeyAt, PathKey, IndexKey, ListAt;
    BucketIsPosted(live[entries[j].0], field, k);
    assert ListIs(ListAt(s, field, keys[j]), live, field, keys[j]);
    assert entries[j].0 in ListAt(s, field, keys[j]);
  }

  lemma {:induction false} OneWeighs(live: Live, entries: seq<(RecordId, nat)>, field: string, k: ScalarKey, i: nat)
    requires i < |entries| && entries[i].0 in live && KeyAt(live[entries[i].0], field) == Keyed(k)
    requires forall j :: 0 <= j < |entries| && j != i && entries[j].0 in live ==> KeyAt(live[entries[j].0], field) != Keyed(k)
    ensures Weighed(live, entries, field, k) == entries[i].1
  {
    hide KeyAt;
    var last := |entries| - 1;
    var front := entries[..last];
    forall j | 0 <= j < last ensures front[j] == entries[j] { }
    if i == last {
      UnrepresentedWeighsNothing(live, front, field, k);
    } else {
      assert front[i] == entries[i];
      OneWeighs(live, front, field, k, i);
    }
  }

  lemma {:induction false} NoRepeatsSize(ids: seq<RecordId>)
    requires NoRepeats(ids)
    ensures |ids| == |Elements(ids)|
  {
    if ids != [] {
      var last := |ids| - 1;
      NoRepeatsSize(ids[..last]);
      assert Elements(ids) == Elements(ids[..last]) + {ids[last]};
    }
  }

  /** With the lists separated, a held value weighs the number of its holders. */
  lemma HeldIsWeighed(s: State, live: Live, field: string, keys: seq<Key>, entries: seq<(RecordId, nat)>, k: ScalarKey)
    requires HasEqualityIndex(s, field) && PostingEntries(s, field, keys, entries) && ListsMirror(s, live, field)
    requires Separated(live, field) && Holders(live, field, k) != {}
    ensures Represented(live, entries, field, k) && Weighed(live, entries, field, k) == |Holders(live, field, k)|
  {
    hide KeyAt, PathKey, IndexKey, ListAt, Weighed;
    var id :| id in Holders(live, field, k);
    var pk := IndexKey(ValueOf(k));
    var list := ListAt(s, field, pk);
    BucketIsPosted(live[id], field, k);
    assert ListIs(list, live, field, pk);
    assert id in list;
    var i :| 0 <= i < |keys| && keys[i] == pk;
    assert list[0] in list;
    forall j | 0 <= j < |entries| && j != i && entries[j].0 in live ensures KeyAt(live[entries[j].0], field) != Keyed(k) {
      if KeyAt(live[entries[j].0], field) == Keyed(k) {
        OnlyOwnList(s, live, field, keys, entries, k, j);
      }
    }
    OneWeighs(live, entries, field, k, i);
    forall x ensures x in list <==> x in Holders(live, field, k) {
      if x in Holders(live, field, k) {
        BucketIsPosted(live[x], field, k);
      }
    }
    assert Elements(list) == Holders(live, field, k);
    NoRepeatsSize(list);
  }

  lemma SeparatedSuffices(s: State, live: Live, field: string, keys: seq<Key>, entries: seq<(RecordId, nat)>, g: Groups)
    requires HasEqualityIndex(s, field) && PostingEntries(s, field, keys, entries) && ListsMirror(s, live, field)
    requires WeighedGroups(g, live, entries, field) && Separated(live, field)
    ensures GroupsAre(g, live, field)
  {
    hide KeyAt, PathKey, IndexKey, ListAt, Weighed, ListsMirror, PostingEntries, Separated;
    forall k ensures (k in g <==> Holders(live, field, k) != {})
                     && (k in g ==> g[k] == (ValueOf(k), |Holders(live, field, k)|))
    {
      if Represented(live, entries, field, k) {
        var i :| 0 <= i < |entries| && entries[i].0 in live && KeyAt(live[entries[i].0], field) == Keyed(k);
        assert entries[i].0 in Holders(live, field, k);
      }
      if Holders(live, field, k) != {} {
        HeldIsWeighed(s, live, field, keys, entries, k);
      }
    }
  }

  /** A list that mixes two buckets loses one of them. */
  lemma SeparatedNeeded(s: State, live: Live, field: string, keys: seq<Key>, entries: seq<(RecordId, nat)>, g: Groups)
    requires HasEqualityIndex(s, field) && PostingEntries(s, field, keys, entries) && ListsMirror(s, live, field)
    requires WeighedGroups(g, live, entries, field) && GroupsAre(g, live, field)
    requires forall id :: id in live ==> !KeyAt(live[id], field).NotScalar?
    ensures Separated(live, field)
  {
    hide KeyAt, PathKey, IndexKey, ListAt, Weighed;
    forall a, b | a in live && b in live && PathKey(live[a], field).Some? && PathKey(live[a], field) == PathKey(live[b], field)
      ensures KeyAt(live[a], field) == KeyAt(live[b], field)
    {
      var pk := PathKey(live[a], field).value;
      RepresentsAll(s, live, field, keys, entries, g, a, pk);
      RepresentsAll(s, live, field, keys, entries, g, b, pk);
    }
  }

  lemma RepresentsAll(s: State, live: Live, field: string, keys: seq<Key>, entries: seq<(RecordId, nat)>, g: Groups,
                      a: RecordId, pk: Key)
    requires HasEqualityIndex(s, field) && PostingEntries(s, field, keys, entries) && ListsMirror(s, live, field)
    requires WeighedGroups(g, live, entries, field) && GroupsAre(g, live, field)
    requires a in live && PathKey(live[a], field) == Some(pk) && !KeyAt(live[a], field).NotScalar?
    ensures ListAt(s, field, pk) != [] && ListAt(s, field, pk)[0] in live
    ensures KeyAt(live[a], field) == KeyAt(live[ListAt(s, field, pk)[0]], field)
  {
    hide KeyAt, PathKey, IndexKey, ListAt, Weighed;
    BucketIsPosted(live[a], field, KBool(true));
    var k := KeyAt(live[a], field).key;
    BucketIsPosted(live[a], field, k);
    assert a in Holders(live, field, k);
    assert k in g;
    var j :| 0 <= j < |entries| && entries[j].0 in live && KeyAt(live[entries[j].0], field) == Keyed(k);
    OnlyOwnList(s, live, field, keys, entries, k, j);
    assert ListIs(ListAt(s, field, pk), live, field, pk);
  }

  ghost predicate HoldsNonScalar(live: Live, field: string) {
    exists id :: id in live && KeyAt(live[id], field).NotScalar?
  }

  /** Some posting list starts with a record whose value is not a scalar. */
  ghost predicate ListStartsNonScalar(s: State, live: Live, field: string) {
    exists k :: ListAt(s, field, k) != [] && ListAt(s, field, k)[0] in live && KeyAt(live[ListAt(s, field, k)[0]], field).NotScalar?
  }

  /** When the index path answers as the scan does. */
  ghost predicate PathsAgree(s: State, live: Live, field: string) {
    if HoldsNonScalar(live, field) then ListStartsNonScalar(s, live, field) else Separated(live, field)
  }

  /** The scan's groups and the index's groups, as the two loops leave them. */
  ghost predicate ScanOutcome(out: Option<Groups>, matched: seq<Record>, field: string) {
    && (out.None? <==> exists i :: 0 <= i < |matched| && KeyAt(matched[i], field).NotScalar?)
    && (out.Some? ==> Tallied(out.value, matched, field))
  }

  ghost predicate IndexOutcome(out: Option<Groups>, live: Live, entries: seq<(RecordId, nat)>, field: string) {
    && (out.None? <==> exists i :: 0 <= i < |entries| && entries[i].0 in live && KeyAt(live[entries[i].0], field).NotScalar?)
    && (out.Some? ==> WeighedGroups(out.value, live, entries, field))
  }

  /** Counting a field's values from its posting lists gives what counting them by a scan gives,
      errors included, exactly when records posted together share a bucket or both paths fail. */
  lemma PathsAgreeExactly(ct: Analyzer.CharTable, s: State, live: Live, field: string, matched: seq<Record>,
                          keys: seq<Key>, entries: seq<(RecordId, nat)>, scan: Option<Groups>, index: Option<Groups>)
    requires Mirrors(ct, s, live) && Planner.Undotted(s) && HasEqualityIndex(s, field) && LiveOk(live)
    requires Lists(matched, live) && PostingEntries(s, field, keys, entries)
    requires ScanOutcome(scan, matched, field) && IndexOutcome(index, live, entries, field)
    ensures scan == index <==> PathsAgree(s, live, field)
  {
    hide KeyAt, Mirrors, Tallied, WeighedGroups, Separated, ListAt;
    IndexListsMirror(ct, s, live, field);
    ScanFails(live, matched, field);
    IndexFails(s, live, field, keys, entries);
    if scan.Some? {
      ScanIsGroups(scan.value, matched, live, field);
    }
    if scan.Some? && index.Some? {
      if scan == index {
        SeparatedNeeded(s, live, field, keys, entries, index.value);
      }
      if Separated(live, field) {
        SeparatedSuffices(s, live, field, keys, entries, index.value);
        GroupsDetermined(scan.value, index.value, live, field);
      }
    }
  }

  /** A NaN and an infinity are posted under one key but are different buckets: over these two records
      the index never answers as the scan does. */
  lemma MixedListIsMiscounted(ct: Analyzer.CharTable, matched: seq<Record>, keys: seq<Key>, entries: seq<(RecordId, nat)>,
                              scan: Option<Groups>, index: Option<Groups>)
    requires var records := [Record(1, map["x" := Float(NaN)]), Record(2, map["x" := Float(PosInf)])];
             var s := SecondaryOver(ct, "x", records);
             && HasEqualityIndex(s, "x") && Lists(matched, LiveOf(records)) && PostingEntries(s, "x", keys, entries)
             && ScanOutcome(scan, matched, "x") && IndexOutcome(index, LiveOf(records), entries, "x")
    ensures scan != index
  {
    hide Mirrors, SecondaryOver, LiveOf, Lists, PostingEntries, ScanOutcome, IndexOutcome, ListStartsNonScalar, GetPath;
    var records := [Record(1, map["x" := Float(NaN)]), Record(2, map["x" := Float(PosInf)])];
    var s, live := SecondaryOver(ct, "x", records), LiveOf(records);
    SecondaryMirrors(ct, "x", records);
    LiveOfHas(records);
    MirrorsIds(ct, s, live);
    assert live[records[0].id] == records[0] && live[records[1].id] == records[1];
    assert 1 in live && 2 in live && live[1] == records[0] && live[2] == records[1];
    forall id | id in live ensures id == 1 || id == 2 {
      var i :| 0 <= i < |records| && records[i].id == id;
    }
    UndottedPath(live[1].fields, "x");
    UndottedPath(live[2].fields, "x");
    assert KeyAt(live[1], "x") == Keyed(KFloat(NaN)) && KeyAt(live[2], "x") == Keyed(KFloat(PosInf));
    assert PathKey(live[1], "x") == PathKey(live[2], "x") == Some(JNull);
    assert !HoldsNonScalar(live, "x") && !Separated(live, "x");
    PathsAgreeExactly(ct, s, live, "x", matched, keys, entries, scan, index);
  }

  lemma ScanFails(live: Live, matched: seq<Record>, field: string)
    requires Lists(matched, live)
    ensures HoldsNonScalar(live, field) <==> exists i :: 0 <= i < |matched| && KeyAt(matched[i], field).NotScalar?
  {
    hide KeyAt;
    if HoldsNonScalar(live, field) {
      var id :| id in live && KeyAt(live[id], field).NotScalar?;
      var i :| 0 <= i < |matched| && matched[i] == live[id];
    }
  }

  lemma IndexFails(s: State, live: Live, field: string, keys: seq<Key>, entries: seq<(RecordId, nat)>)
    requires HasEqualityIndex(s, field) && PostingEntries(s, field, keys, entries)
    ensures ListStartsNonScalar(s, live, field)
            <==> exists i :: 0 <= i < |entries| && entries[i].0 in live && KeyAt(live[entries[i].0], field).NotScalar?
    ensures ListStartsNonScalar(s, live, field) ==> HoldsNonScalar(live, field)
  {
    hide KeyAt, ListAt;
    if ListStartsNonScalar(s, live, field) {
      var k :| ListAt(s, field, k) != [] && ListAt(s, field, k)[0] in live && KeyAt(live[ListAt(s, field, k)[0]], field).NotScalar?;
      var i :| 0 <= i < |keys| && keys[i] == k;
      assert entries[i].0 in live && KeyAt(live[entries[i].0], field).NotScalar?;
    }
    if i :| 0 <= i < |entries| && entries[i].0 in live && KeyAt(live[entries[i].0], field).NotScalar? {
      assert ListAt(s, field, keys[i])[0] in live;
    }
  }
}
