/** The text index of one field as the object the source updates in place. */
module TextField {
  import opened Wrappers
  import opened Analyzer
  import opened TextIndex
  import opened TextSearch

  /** A persisted text index: hash maps written out in some order.  Snapshots from before length
      statistics existed carry no lengths. */
  datatype TextSnapshot = TextSnapshot(postings: seq<(string, seq<(RecordId, nat)>)>, docLengths: seq<(RecordId, nat)>)

  ghost predicate ListsMap<K, V>(list: seq<(K, V)>, m: map<K, V>) {
    && (forall i :: 0 <= i < |list| ==> list[i].0 in m && m[list[i].0] == list[i].1)
    && (forall i, j :: 0 <= i < j < |list| ==> list[i].0 != list[j].0)
    && (forall k :: k in m ==> (k, m[k]) in list)
  }

  ghost predicate ListsPostings(list: seq<(string, seq<(RecordId, nat)>)>, p: Postings) {
    && (forall i :: 0 <= i < |list| ==> list[i].0 in p && ListsMap(list[i].1, p[list[i].0]))
    && (forall i, j :: 0 <= i < j < |list| ==> list[i].0 != list[j].0)
    && (forall t :: t in p ==> exists i :: 0 <= i < |list| && list[i].0 == t)
  }

  /** `snap` is what `snapshot` writes for `st`, with or without lengths. */
  ghost predicate Snapshots(snap: TextSnapshot, st: TextState) {
    && ListsPostings(snap.postings, st.postings)
    && (snap.docLengths == [] || ListsMap(snap.docLengths, st.docLengths))
  }

  method ReadMap<K(==), V>(list: seq<(K, V)>, ghost m: map<K, V>) returns (r: map<K, V>)
    requires ListsMap(list, m)
    ensures r == m
  {
    r := map[];
    var i := 0;
    while i < |list|
      invariant 0 <= i <= |list|
      invariant forall k :: k in r <==> exists j :: 0 <= j < i && list[j].0 == k
      invariant forall k :: k in r ==> k in m && r[k] == m[k]
    {
      r := r[list[i].0 := list[i].1];
      i := i + 1;
    }
    forall k | k in m ensures k in r {
      assert (k, m[k]) in list;
    }
    assert r.Keys == m.Keys;
  }

  method ReadPostings(list: seq<(string, seq<(RecordId, nat)>)>, ghost p: Postings) returns (r: Postings)
    requires ListsPostings(list, p)
    ensures r == p
  {
    hide ListsMap;
    r := map[];
    var i := 0;
    while i < |list|
      invariant 0 <= i <= |list|
      invariant forall t :: t in r <==> exists j :: 0 <= j < i && list[j].0 == t
      invariant forall t :: t in r ==> t in p && r[t] == p[t]
    {
      var posting := ReadMap(list[i].1, p[list[i].0]);
      r := r[list[i].0 := posting];
      i := i + 1;
    }
    assert r.Keys == p.Keys;
  }

  lemma {:induction false} ListTotal(list: seq<(RecordId, nat)>, m: map<RecordId, nat>)
    requires ListsMap(list, m)
    ensures ListSum(list) == TotalOf(m)
  {
    hide ListsMap, TotalOf;
    if list == [] {
      NothingListed(m);
    } else {
      var last := |list| - 1;
      ListDrop(list, m);
      ListTotal(list[..last], m - {list[last].0});
      TotalDrop(m, list[last].0);
    }
  }

  lemma NothingListed(m: map<RecordId, nat>)
    requires ListsMap([], m)
    ensures TotalOf(m) == 0
  {
    assert m == map[];
  }

  lemma ListDrop(list: seq<(RecordId, nat)>, m: map<RecordId, nat>)
    requires ListsMap(list, m) && list != []
    ensures var last := |list| - 1; ListsMap(list[..last], m - {list[last].0}) && list[last].0 in m && m[list[last].0] == list[last].1
  {
    var last := |list| - 1;
    var m' := m - {list[last].0};
    forall k | k in m' ensures (k, m'[k]) in list[..last] {
      assert (k, m[k]) in list;
      var j :| 0 <= j < |list| && list[j] == (k, m[k]);
      assert j != last;
      assert list[..last][j] == (k, m[k]);
    }
  }

  function ListSum(list: seq<(RecordId, nat)>): nat {
    if list == [] then 0 else ListSum(list[..|list| - 1]) + list[|list| - 1].1
  }

  method AddUp(list: seq<(RecordId, nat)>) returns (total: nat)
    ensures total == ListSum(list)
  {
    total := 0;
    var i := 0;
    while i < |list|
      invariant 0 <= i <= |list| && total == ListSum(list[..i])
    {
      assert list[..i + 1][..i] == list[..i];
      total := total + list[i].1;
      i := i + 1;
    }
    assert list[..i] == list;
  }

  class TextIndexObject {
    const ct: CharTable
    var postings: Postings
    var docLengths: map<RecordId, nat>
    var total: nat

    function View(): TextState
      reads this
    {
      TextState(postings, docLengths, total)
    }

    constructor (ct: CharTable)
      ensures this.ct == ct && View() == EMPTY
    {
      this.ct, postings, docLengths, total := ct, map[], map[], 0;
    }

    method Add(id: RecordId, text: string)
      modifies this
      ensures View() == AddState(old(View()), id, Tokenize(ct, text))
    {
      hide Tokenize, AddOne;
      var tokens := Tokenize(ct, text);
      var len, i := 0, 0;
      while i < |tokens|
        invariant 0 <= i <= |tokens| && len == i
        invariant docLengths == old(docLengths) && total == old(total)
        invariant AddTokens(postings, id, tokens[i..]) == AddTokens(old(postings), id, tokens)
      {
        assert tokens[i..][0] == tokens[i] && tokens[i..][1..] == tokens[i + 1..];
        postings := AddOne(postings, id, tokens[i]);
        len := len + 1;
        i := i + 1;
      }
      if len > 0 {
        docLengths := docLengths[id := (if id in docLengths then docLengths[id] else 0) + len];
        total := total + len;
      }
    }

    method Remove(id: RecordId, text: string)
      modifies this
      ensures View() == RemoveState(old(View()), id, Tokenize(ct, text))
    {
      hide Tokenize, DropOne;
      var tokens := Tokenize(ct, text);
      var len, i := 0, 0;
      while i < |tokens|
        invariant 0 <= i <= |tokens| && len == i
        invariant docLengths == old(docLengths) && total == old(total)
        invariant DropTokens(postings, id, tokens[i..]) == DropTokens(old(postings), id, tokens)
      {
        assert tokens[i..][0] == tokens[i] && tokens[i..][1..] == tokens[i + 1..];
        postings := DropOne(postings, id, tokens[i]);
        len := len + 1;
        i := i + 1;
      }
      if id in docLengths {
        var existing := docLengths[id];
        var dec := if len < existing then len else existing;
        total := if dec <= total then total - dec else 0;
        docLengths := if existing <= len then docLengths - {id} else docLengths[id := existing - len];
      }
    }

    /** `rebuild_lengths`: on a consistent index it changes nothing. */
    method RebuildLengths()
      modifies this`docLengths, this`total
      ensures SumsOver(postings, postings.Keys, docLengths) && total == TotalOf(docLengths)
      ensures forall docs :: Reflects(old(View()), docs) ==> View() == old(View())
    {
      var lengths := SumLengths(postings);
      total := SumValues(lengths);
      docLengths := lengths;
      forall docs | Reflects(old(View()), docs) ensures View() == old(View()) {
        RebuiltIsSame(old(View()), docs, lengths);
      }
    }

    /** `from_snapshot` for a text field: the index comes back exactly, whether or not the snapshot
        carries length statistics. */
    method Restore(snap: TextSnapshot, ghost st: TextState, ghost docs: Docs)
      requires Snapshots(snap, st) && Reflects(st, docs)
      modifies this
      ensures View() == st
    {
      hide Reflects, ListsMap, ListsPostings, SumsOver;
      postings := ReadPostings(snap.postings, st.postings);
      if snap.docLengths == [] {
        docLengths := SumLengths(postings);
        RebuiltIsSame(st, docs, docLengths);
        total := SumValues(docLengths);
      } else {
        docLengths := ReadMap(snap.docLengths, st.docLengths);
        total := AddUp(snap.docLengths);
        ListTotal(snap.docLengths, st.docLengths);
      }
      TotalIs(st, docs);
    }

    /** `analyzed_view`: the postings as a non-default analyzer would have indexed them. */
    method AnalyzedView(preset: Preset) returns (view: Option<Postings>)
      requires Clean(postings)
      ensures view.None? <==> !preset.IsPerToken()
      ensures view.Some? ==> ViewOf(postings, preset, postings.Keys, view.value)
    {
      if !preset.IsPerToken() {
        return None;
      }
      hide ViewOf, MapDefaultToken, Clean, Added;
      var v: Postings := map[];
      var todo := postings.Keys;
      EmptyView(postings, preset);
      assert postings.Keys - todo == {};
      while todo != {}
        invariant todo <= postings.Keys && ViewOf(postings, preset, postings.Keys - todo, v)
        decreases |todo|
      {
        var t :| t in todo;
        OneDone(postings.Keys, todo, t);
        ViewClean(postings, preset, postings.Keys - todo, v);
        MapsIs(preset, t, t);
        CleanPosting(postings, t);
        ghost var before := v;
        v := MergeUnder(v, MapDefaultToken(preset, t).value, postings[t]);
        ViewStep(postings, preset, postings.Keys - todo, before, t, v);
        OneDone(postings.Keys, todo, t);
        todo := todo - {t};
      }
      assert postings.Keys - todo == postings.Keys;
      view := Some(v);
    }

    /** `search`: the unranked-clause search over the default tokens. */
    method Search(query: string) returns (out: seq<(RecordId, nat)>)
      ensures var terms := Dedup(Tokenize(ct, query));
              (terms == [] ==> out == []) && (terms != [] ==> Answers(postings, terms, out))
    {
      hide Tokenize, Answers;
      out := SearchOver(postings, Dedup(Tokenize(ct, query)));
    }

    /** `text_search_analyzed` with term-frequency ranking: over a consistent index it answers as the
        index of the analyzed corpus would, which for an index over texts holds their index terms. */
    method SearchAnalyzed(query: string, preset: Preset, ghost docs: Docs) returns (out: Option<seq<(RecordId, nat)>>)
      requires Reflects(View(), docs)
      ensures out.None? <==> !preset.IsPerToken()
      ensures preset.IsPerToken() ==> AnalyzedAnswer(ct, preset, query, MapDocs(preset, docs), out.value)
      ensures preset.IsPerToken() ==> forall texts :: docs == TokensOf(ct, texts) ==>
                AnalyzedAnswer(ct, preset, query, TermsOf(ct, preset, texts), out.value)
    {
      hide IndexTerms, Answers, ViewOf, IndexOf, MapDocs, TokensOf, TermsOf;
      var view := AnalyzedView(preset);
      if view.None? {
        return None;
      }
      var terms := Dedup(IndexTerms(ct, preset, query));
      var hits := SearchOver(view.value, terms);
      out := Some(hits);
      ViewAgrees(View(), docs, preset, view.value);
      forall texts | docs == TokensOf(ct, texts) ensures MapDocs(preset, docs) == TermsOf(ct, preset, texts) {
        AnalyzedTexts(ct, preset, texts);
      }
    }
  }

  lemma OneDone(all: set<string>, todo: set<string>, t: string)
    requires t in todo && todo <= all
    ensures all - (todo - {t}) == all - todo + {t} && t !in all - todo
  {
  }

  lemma TotalIs(st: TextState, docs: Docs)
    requires Reflects(st, docs)
    ensures st.total == TotalOf(st.docLengths)
  {
  }

  lemma CleanPosting(p: Postings, t: string)
    requires Clean(p) && t in p
    ensures p[t] != map[] && forall i :: i in p[t] ==> p[t][i] > 0
  {
  }

  lemma EmptyView(p: Postings, preset: Preset)
    requires preset.IsPerToken()
    ensures ViewOf(p, preset, {}, map[])
  {
  }

  lemma ViewClean(p: Postings, preset: Preset, terms: set<string>, view: Postings)
    requires preset.IsPerToken() && ViewOf(p, preset, terms, view)
    ensures Clean(view)
  {
  }
}
