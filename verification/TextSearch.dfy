/** The text index as an object, analyzer views over its postings, and ranked search. */
module TextSearch {
  import opened Sequences
  import opened Wrappers
  import opened Sums
  import opened Ranking
  import opened Analyzer
  import opened TextIndex

  function At(m: map<RecordId, nat>, id: RecordId): nat {
    if id in m then m[id] else 0
  }

  /** Add every frequency of `posting` onto `base`. */
  method Merge(base: map<RecordId, nat>, posting: map<RecordId, nat>) returns (merged: map<RecordId, nat>)
    ensures merged.Keys == base.Keys + posting.Keys
    ensures forall i: RecordId :: At(merged, i) == At(base, i) + At(posting, i)
  {
    hide Merging;
    merged := base;
    var todo := posting.Keys;
    MergingStart(base, posting);
    while todo != {}
      invariant todo <= posting.Keys && Merging(base, posting, todo, merged)
      decreases |todo|
    {
      var id :| id in todo;
      MergingStep(base, posting, todo, merged, id);
      merged := merged[id := At(merged, id) + posting[id]];
      todo := todo - {id};
    }
    MergingDone(base, posting, merged);
  }

  ghost predicate Merging(base: map<RecordId, nat>, posting: map<RecordId, nat>, todo: set<RecordId>, merged: map<RecordId, nat>) {
    && merged.Keys == base.Keys + (posting.Keys - todo)
    && forall i: RecordId :: At(merged, i) == At(base, i) + (if i in todo then 0 else At(posting, i))
  }

  lemma MergingStart(base: map<RecordId, nat>, posting: map<RecordId, nat>)
    ensures Merging(base, posting, posting.Keys, base)
  {
  }

  lemma MergingStep(base: map<RecordId, nat>, posting: map<RecordId, nat>, todo: set<RecordId>, merged: map<RecordId, nat>,
                    id: RecordId)
    requires id in todo && todo <= posting.Keys && Merging(base, posting, todo, merged)
    ensures Merging(base, posting, todo - {id}, merged[id := At(merged, id) + posting[id]])
  {
    var merged' := merged[id := At(merged, id) + posting[id]];
    assert merged'.Keys == merged.Keys + {id};
    forall i: RecordId ensures At(merged', i) == At(base, i) + (if i in todo - {id} then 0 else At(posting, i)) {
      assert At(merged, i) == At(base, i) + (if i in todo then 0 else At(posting, i));
    }
  }

  lemma MergingDone(base: map<RecordId, nat>, posting: map<RecordId, nat>, merged: map<RecordId, nat>)
    requires Merging(base, posting, {}, merged)
    ensures merged.Keys == base.Keys + posting.Keys
    ensures forall i: RecordId :: At(merged, i) == At(base, i) + At(posting, i)
  {
  }

  // ---- lengths recomputed from postings ----

  /** `lengths` holds, for every posted document, the sum of its frequencies over `terms`. */
  ghost predicate SumsOver(p: Postings, terms: set<string>, lengths: map<RecordId, nat>) {
    && terms <= p.Keys
    && (forall i: RecordId :: i in lengths <==> exists t :: t in terms && i in Posting(p, t))
    && (forall i: RecordId :: At(lengths, i) == Sum(terms, (t: string) => Tf(p, t, i)))
  }

  lemma SumsOverStep(p: Postings, done: set<string>, lengths: map<RecordId, nat>, t: string, lengths': map<RecordId, nat>)
    requires SumsOver(p, done, lengths) && t in p && t !in done
    requires lengths'.Keys == lengths.Keys + p[t].Keys
    requires forall i: RecordId :: At(lengths', i) == At(lengths, i) + At(p[t], i)
    ensures SumsOver(p, done + {t}, lengths')
  {
    forall i: RecordId ensures i in lengths' <==> exists u :: u in done + {t} && i in Posting(p, u) {
      if i in lengths' {
        if i in lengths {
          var u :| u in done && i in Posting(p, u);
          assert u in done + {t};
        } else {
          assert t in done + {t} && i in Posting(p, t);
        }
      }
    }
    forall i: RecordId ensures At(lengths', i) == Sum(done + {t}, (u: string) => Tf(p, u, i)) {
      SumAdd(done, (u: string) => Tf(p, u, i), t);
    }
  }

  method SumLengths(p: Postings) returns (lengths: map<RecordId, nat>)
    ensures SumsOver(p, p.Keys, lengths)
  {
    hide SumsOver;
    lengths := map[];
    var todo := p.Keys;
    NothingSummed(p);
    assert p.Keys - todo == {};
    while todo != {}
      invariant todo <= p.Keys && SumsOver(p, p.Keys - todo, lengths)
      decreases |todo|
    {
      var t :| t in todo;
      ghost var before := lengths;
      lengths := Merge(lengths, p[t]);
      SumsOverStep(p, p.Keys - todo, before, t, lengths);
      assert p.Keys - (todo - {t}) == p.Keys - todo + {t};
      todo := todo - {t};
    }
    assert p.Keys - todo == p.Keys;
  }

  lemma NothingSummed(p: Postings)
    ensures SumsOver(p, {}, map[])
  {
  }

  method SumValues(lengths: map<RecordId, nat>) returns (total: nat)
    ensures total == TotalOf(lengths)
  {
    total := 0;
    var todo := lengths.Keys;
    ghost var f := (i: RecordId) => if i in lengths then lengths[i] else 0;
    while todo != {}
      invariant todo <= lengths.Keys && total + Sum(todo, f) == Sum(lengths.Keys, f)
      decreases |todo|
    {
      var id :| id in todo;
      SumTake(todo, f, id);
      total := total + lengths[id];
      todo := todo - {id};
    }
  }

  /** Lengths rebuilt from the postings of a consistent index are the ones it already has. */
  lemma RebuiltIsSame(st: TextState, docs: Docs, lengths: map<RecordId, nat>)
    requires Reflects(st, docs) && SumsOver(st.postings, st.postings.Keys, lengths)
    ensures lengths == st.docLengths
  {
    hide Mirrors, Sum, Lengths, TotalOf;
    forall i: RecordId ensures (i in lengths <==> i in st.docLengths) && At(lengths, i) == At(st.docLengths, i) {
      LengthIsTfSum(st, docs, i);
      PostedIffLong(st, docs, i);
    }
    assert forall i: RecordId :: i in lengths ==> lengths[i] == st.docLengths[i] by {
      forall i: RecordId | i in lengths ensures lengths[i] == st.docLengths[i] {
        assert At(lengths, i) == At(st.docLengths, i);
      }
    }
    assert lengths.Keys == st.docLengths.Keys;
  }

  lemma PostedIffLong(st: TextState, docs: Docs, i: RecordId)
    requires Reflects(st, docs)
    ensures i in st.docLengths <==> exists t :: t in st.postings.Keys && i in Posting(st.postings, t)
  {
    hide Count;
    if i in st.docLengths {
      var t := docs[i][0];
      CountIn(docs[i], t);
      assert Tf(st.postings, t, i) == DocCount(docs, t, i);
      assert t in st.postings.Keys && i in Posting(st.postings, t);
    }
    if t :| t in st.postings.Keys && i in Posting(st.postings, t) {
      assert Tf(st.postings, t, i) == DocCount(docs, t, i);
      CountIn(docs[i], t);
    }
  }

  // ---- analyzer views ----

  /** How often preset `preset` indexes default token `t` under `out`. */
  function Maps(preset: Preset, t: string, out: string): nat
    requires preset.IsPerToken()
  {
    Count(MapDefaultToken(preset, t).value, out)
  }

  function Product(m: nat, n: nat): nat {
    m * n
  }

  ghost function Weight(p: Postings, preset: Preset, out: string, id: RecordId): string -> nat
    requires preset.IsPerToken()
  {
    (t: string) => Product(Maps(preset, t, out), Tf(p, t, id))
  }

  /** `view` holds the postings of `terms` merged under their mapped terms. */
  ghost predicate ViewOf(p: Postings, preset: Preset, terms: set<string>, view: Postings)
    requires preset.IsPerToken()
  {
    && Clean(view)
    && forall out: string, i: RecordId :: Tf(view, out, i) == Sum(terms, Weight(p, preset, out, i))
  }

  function MapDocs(preset: Preset, docs: Docs): Docs
    requires preset.IsPerToken()
  {
    map i | i in docs :: MapTokens(preset, docs[i])
  }

  ghost function MappedWeight(preset: Preset, tokens: seq<string>, out: string): string -> nat
    requires preset.IsPerToken()
  {
    (t: string) => Product(Maps(preset, t, out), Count(tokens, t))
  }

  /** The mapped stream counts a term as often as the tokens mapped to it occur. */
  lemma {:induction false} MappedCount(preset: Preset, tokens: seq<string>, terms: set<string>, out: string)
    requires preset.IsPerToken() && forall t :: t in tokens ==> t in terms
    ensures Count(MapTokens(preset, tokens), out) == Sum(terms, MappedWeight(preset, tokens, out))
  {
    hide Maps, MapDefaultToken, Count;
    var g := MappedWeight(preset, tokens, out);
    if tokens == [] {
      forall t | t in terms ensures g(t) == 0 { NoCount(t); }
      NoCount(out);
      SumZero(terms, g);
    } else {
      var first, rest := tokens[0], tokens[1..];
      var f := MappedWeight(preset, rest, out);
      MappedCount(preset, rest, terms, out);
      MapsIs(preset, first, out);
      CountConcat(MapDefaultToken(preset, first).value, MapTokens(preset, rest), out);
      forall t | t in terms ensures g(t) == f(t) + (if t == first then Maps(preset, first, out) else 0) {
        CountHead(tokens, t);
        OneMore(Maps(preset, t, out), Count(rest, t));
      }
      SumBump(terms, f, g, first, Maps(preset, first, out));
    }
  }

  lemma CountHead(tokens: seq<string>, t: string)
    requires tokens != []
    ensures Count(tokens, t) == Count(tokens[1..], t) + (if t == tokens[0] then 1 else 0)
  {
  }

  lemma MapsIs(preset: Preset, t: string, out: string)
    requires preset.IsPerToken()
    ensures Maps(preset, t, out) == Count(MapDefaultToken(preset, t).value, out)
    ensures MapDefaultToken(preset, t).Some?
  {
  }

  lemma OneMore(m: nat, n: nat)
    ensures Product(m, n + 1) == Product(m, n) + m && Product(n + 1, m) == Product(n, m) + m && Product(m, 0) == 0 == Product(0, m)
  {
  }

  /** A non-default analyzer over the persisted postings sees exactly the postings a re-indexed
      corpus would have: same terms, same documents, same frequencies. */
  lemma ViewIsReindex(p: Postings, docs: Docs, preset: Preset, view: Postings)
    requires preset.IsPerToken() && Mirrors(p, docs) && ViewOf(p, preset, p.Keys, view)
    ensures Mirrors(view, MapDocs(preset, docs))
  {
    hide Count, Maps, Clean;
    forall out: string, i: RecordId ensures Tf(view, out, i) == DocCount(MapDocs(preset, docs), out, i) {
      ViewCount(p, docs, preset, out, i);
    }
  }

  lemma ViewCount(p: Postings, docs: Docs, preset: Preset, out: string, i: RecordId)
    requires preset.IsPerToken() && Mirrors(p, docs)
    ensures Sum(p.Keys, Weight(p, preset, out, i)) == DocCount(MapDocs(preset, docs), out, i)
  {
    hide Count, Maps, Clean;
    if i in docs {
      var tokens := docs[i];
      forall t | t in tokens ensures t in p.Keys {
        CountIn(tokens, t);
        assert Tf(p, t, i) == DocCount(docs, t, i);
      }
      MappedCount(preset, tokens, p.Keys, out);
      SumSame(p.Keys, Weight(p, preset, out, i), MappedWeight(preset, tokens, out));
    } else {
      assert forall t: string :: Tf(p, t, i) == DocCount(docs, t, i) == 0;
      SumZero(p.Keys, Weight(p, preset, out, i));
    }
  }

  /** A view of the index equals the postings of the index of the analyzed corpus. */
  lemma ViewAgrees(st: TextState, docs: Docs, preset: Preset, view: Postings)
    requires preset.IsPerToken() && Reflects(st, docs) && ViewOf(st.postings, preset, st.postings.Keys, view)
    ensures view == IndexOf(MapDocs(preset, docs)).postings
  {
    hide Tf, DocCount, Clean, MapDocs, IndexOf;
    ViewIsReindex(st.postings, docs, preset, view);
    IndexReflects(MapDocs(preset, docs));
    TfDetermines(view, IndexOf(MapDocs(preset, docs)).postings);
  }

  /** No document holds a token the preset drops. */
  ghost predicate NothingDropped(preset: Preset, docs: Docs) {
    forall i, t :: i in docs && t in docs[i] ==> !Drops(preset, t)
  }

  /** The default length statistics are those of the analyzed corpus exactly when nothing is dropped. */
  lemma StatisticsAgree(st: TextState, docs: Docs, preset: Preset)
    requires preset.IsPerToken() && Reflects(st, docs)
    ensures st.docLengths == IndexOf(MapDocs(preset, docs)).docLengths <==> NothingDropped(preset, docs)
    ensures NothingDropped(preset, docs) ==> st.total == IndexOf(MapDocs(preset, docs)).total
  {
    hide Tf, DocCount, Clean, IndexOf, MapTokens, Drops, TotalOf;
    var mapped := MapDocs(preset, docs);
    IndexReflects(mapped);
    forall i | i in docs ensures |mapped[i]| <= |docs[i]| && (|mapped[i]| == |docs[i]| <==> forall t :: t in docs[i] ==> !Drops(preset, t)) {
      MapTokensLength(preset, docs[i]);
    }
    if Lengths(docs) == Lengths(mapped) {
      forall i | i in docs ensures |mapped[i]| == |docs[i]| {
        assert docs[i] != [] ==> i in Lengths(docs);
      }
    }
    if NothingDropped(preset, docs) {
      assert Lengths(docs) == Lengths(mapped);
    }
  }

  /** Every token of every document is dropped: nothing is left to search. */
  ghost predicate EverythingDropped(preset: Preset, docs: Docs) {
    forall i, t :: i in docs && t in docs[i] ==> Drops(preset, t)
  }

  lemma NothingLeft(docs: Docs, preset: Preset)
    requires preset.IsPerToken() && EverythingDropped(preset, docs)
    ensures IndexOf(MapDocs(preset, docs)).postings == map[] && IndexOf(MapDocs(preset, docs)).docLengths == map[]
  {
    hide IndexOf, Drops, MapTokens, TotalOf, Count;
    var mapped := MapDocs(preset, docs);
    IndexReflects(mapped);
    forall i | i in docs ensures mapped[i] == [] {
      MappedIsEmpty(preset, docs[i]);
    }
    forall t: string, i: RecordId ensures Tf(IndexOf(mapped).postings, t, i) == Tf(map[], t, i) {
      assert Tf(IndexOf(mapped).postings, t, i) == DocCount(mapped, t, i);
      NoCount(t);
    }
    TfDetermines(IndexOf(mapped).postings, map[]);
  }

  lemma {:induction false} MappedIsEmpty(preset: Preset, tokens: seq<string>)
    requires preset.IsPerToken()
    ensures MapTokens(preset, tokens) == [] <==> forall t :: t in tokens ==> Drops(preset, t)
  {
    hide FoldPlural, Fold, IsStopword;
    if tokens != [] {
      MappedIsEmpty(preset, tokens[1..]);
      assert MapDefaultToken(preset, tokens[0]).value == [] <==> Drops(preset, tokens[0]);
      assert forall t :: t in tokens <==> t == tokens[0] || t in tokens[1..];
    }
  }

  // ---- over the texts themselves ----

  /** What an index over `texts` reflects: the default tokens of every text. */
  function TokensOf(ct: CharTable, texts: map<RecordId, string>): Docs {
    map i | i in texts :: Tokenize(ct, texts[i])
  }

  /** What indexing `texts` under the preset would reflect. */
  function TermsOf(ct: CharTable, preset: Preset, texts: map<RecordId, string>): Docs {
    map i | i in texts :: IndexTerms(ct, preset, texts[i])
  }

  lemma AnalyzedTexts(ct: CharTable, preset: Preset, texts: map<RecordId, string>)
    requires preset.IsPerToken()
    ensures MapDocs(preset, TokensOf(ct, texts)) == TermsOf(ct, preset, texts)
  {
    hide Tokenize, IndexTerms, MapTokens;
    forall i | i in texts ensures MapTokens(preset, Tokenize(ct, texts[i])) == IndexTerms(ct, preset, texts[i]) {
      PerToken(ct, preset, texts[i]);
    }
  }

  // ---- building the view ----

  /** Merge one posting list under each of the mapped terms in `outs`. */
  method MergeUnder(view: Postings, outs: seq<string>, posting: map<RecordId, nat>) returns (view': Postings)
    requires Clean(view) && posting != map[] && forall i :: i in posting ==> posting[i] > 0
    ensures Clean(view') && Added(view, view', outs, posting)
  {
    hide Clean, Tf, Count, At;
    view' := view;
    var k := 0;
    NoOuts(view, posting);
    assert outs[..0] == [];
    while k < |outs|
      invariant 0 <= k <= |outs| && Clean(view')
      invariant Added(view, view', outs[..k], posting)
    {
      ghost var before := view';
      var merged := Merge(Posting(view', outs[k]), posting);
      view' := view'[outs[k] := merged];
      assert outs[..k + 1] == outs[..k] + [outs[k]];
      UnderStep(view, before, outs[..k], outs[k], posting, merged);
      k := k + 1;
    }
    assert outs[..k] == outs;
  }

  ghost predicate Added(view: Postings, view': Postings, outs: seq<string>, posting: map<RecordId, nat>) {
    forall out: string, i: RecordId :: Tf(view', out, i) == Tf(view, out, i) + Product(Count(outs, out), At(posting, i))
  }

  lemma NoOuts(view: Postings, posting: map<RecordId, nat>)
    ensures Added(view, view, [], posting)
  {
  }

  lemma UnderStep(view: Postings, now: Postings, outs: seq<string>, out: string, posting: map<RecordId, nat>,
                  merged: map<RecordId, nat>)
    requires Clean(now) && Added(view, now, outs, posting)
    requires posting != map[] && forall i :: i in posting ==> posting[i] > 0
    requires merged.Keys == Posting(now, out).Keys + posting.Keys
    requires forall i: RecordId :: At(merged, i) == At(Posting(now, out), i) + At(posting, i)
    ensures Clean(now[out := merged]) && Added(view, now[out := merged], outs + [out], posting)
  {
    hide Count, Clean, Tf, At;
    var now' := now[out := merged];
    CleanStep(now, out, posting, merged);
    forall o: string, i: RecordId ensures Tf(now', o, i) == Tf(view, o, i) + Product(Count(outs + [out], o), At(posting, i)) {
      CountConcat(outs, [out], o);
      CountOne(out, o);
      assert Tf(now, o, i) == Tf(view, o, i) + Product(Count(outs, o), At(posting, i));
      MergedTf(now, out, posting, merged, o, i);
      OneMore(At(posting, i), Count(outs, o));
    }
  }

  lemma MergedTf(now: Postings, out: string, posting: map<RecordId, nat>, merged: map<RecordId, nat>, o: string, i: RecordId)
    requires At(merged, i) == At(Posting(now, out), i) + At(posting, i)
    ensures Tf(now[out := merged], o, i) == Tf(now, o, i) + (if o == out then At(posting, i) else 0)
  {
  }

  lemma CountOne(a: string, b: string)
    ensures Count([a], b) == if a == b then 1 else 0
  {
  }

  lemma CleanStep(now: Postings, out: string, posting: map<RecordId, nat>, merged: map<RecordId, nat>)
    requires Clean(now) && posting != map[] && forall i :: i in posting ==> posting[i] > 0
    requires merged.Keys == Posting(now, out).Keys + posting.Keys
    requires forall i: RecordId :: At(merged, i) == At(Posting(now, out), i) + At(posting, i)
    ensures Clean(now[out := merged])
  {
    assert merged != map[] by {
      var i :| i in posting;
      assert i in merged.Keys;
    }
    forall i | i in merged ensures merged[i] > 0 {
      assert At(merged, i) == At(Posting(now, out), i) + At(posting, i);
    }
  }

  lemma ViewStep(p: Postings, preset: Preset, done: set<string>, view: Postings, t: string, view': Postings)
    requires preset.IsPerToken() && ViewOf(p, preset, done, view) && t in p && t !in done && Clean(view')
    requires Added(view, view', MapDefaultToken(preset, t).value, p[t])
    ensures ViewOf(p, preset, done + {t}, view')
  {
    hide Clean, Count;
    forall out: string, i: RecordId ensures Tf(view', out, i) == Sum(done + {t}, Weight(p, preset, out, i)) {
      assert Tf(view, out, i) == Sum(done, Weight(p, preset, out, i));
      assert At(p[t], i) == Tf(p, t, i);
      SumAdd(done, Weight(p, preset, out, i), t);
    }
  }

  // ---- search over a postings view ----

  /** The distinct terms of a query.  The source also sorts them, which no result depends on. */
  function Dedup(terms: seq<string>): (r: seq<string>)
    ensures forall t :: t in r <==> t in terms
    ensures forall i, j :: 0 <= i < j < |r| ==> r[i] != r[j]
  {
    if terms == [] then []
    else
      var rest := Dedup(terms[1..]);
      assert forall t :: t in terms <==> t == terms[0] || t in terms[1..];
      if terms[0] in rest then rest else [terms[0]] + rest
  }

  function Contains(p: Postings, term: string, id: RecordId): bool {
    id in Posting(p, term)
  }

  function TfSum(p: Postings, terms: seq<string>, id: RecordId): nat {
    if terms == [] then 0 else Tf(p, terms[0], id) + TfSum(p, terms[1..], id)
  }

  function Matched(p: Postings, terms: seq<string>, id: RecordId): nat {
    if terms == [] then 0 else (if Contains(p, terms[0], id) then 1 else 0) + Matched(p, terms[1..], id)
  }

  lemma {:induction false} MatchedSnoc(p: Postings, terms: seq<string>, t: string, id: RecordId)
    ensures Matched(p, terms + [t], id) == Matched(p, terms, id) + (if Contains(p, t, id) then 1 else 0)
    ensures TfSum(p, terms + [t], id) == TfSum(p, terms, id) + Tf(p, t, id)
  {
    hide Contains, Tf;
    if terms == [] {
      assert terms + [t] == [t];
    } else {
      MatchedSnoc(p, terms[1..], t, id);
      assert (terms + [t])[0] == terms[0] && (terms + [t])[1..] == terms[1..] + [t];
    }
  }

  lemma {:induction false} MatchedAll(p: Postings, terms: seq<string>, id: RecordId)
    ensures Matched(p, terms, id) <= |terms|
    ensures Matched(p, terms, id) == |terms| <==> forall t :: t in terms ==> Contains(p, t, id)
  {
    hide Contains;
    if terms != [] {
      MatchedAll(p, terms[1..], id);
      assert forall t :: t in terms <==> t == terms[0] || t in terms[1..];
    }
  }

  datatype Hit = Hit(id: RecordId, matched: nat, score: nat)

  /** What the accumulator holds after the terms seen so far. */
  ghost predicate Accumulated(p: Postings, terms: seq<string>, acc: map<RecordId, (nat, nat)>) {
    forall id: RecordId ::
      && (id in acc <==> Matched(p, terms, id) > 0)
      && (id in acc ==> acc[id] == (Matched(p, terms, id), TfSum(p, terms, id)))
  }

  method AccumulateTerm(p: Postings, ghost before: seq<string>, term: string, acc: map<RecordId, (nat, nat)>)
    returns (acc': map<RecordId, (nat, nat)>)
    requires Accumulated(p, before, acc)
    ensures Accumulated(p, before + [term], acc')
  {
    hide Accumulated, Accumulating;
    acc' := acc;
    var posting := Posting(p, term);
    var todo := posting.Keys;
    AccumulatingStarts(posting, acc);
    while todo != {}
      invariant todo <= posting.Keys && Accumulating(posting, acc, todo, acc')
      decreases |todo|
    {
      var id :| id in todo;
      var had := if id in acc' then acc'[id] else (0, 0);
      AccumulatingStep(posting, acc, todo, acc', id);
      acc' := acc'[id := (had.0 + 1, had.1 + posting[id])];
      todo := todo - {id};
    }
    AccumulatingDone(p, before, term, acc, acc');
  }

  /** The accumulator with the documents of `todo` still to be met. */
  ghost predicate Accumulating(posting: map<RecordId, nat>, acc: map<RecordId, (nat, nat)>, todo: set<RecordId>,
                               acc': map<RecordId, (nat, nat)>)
  {
    forall id: RecordId ::
      if id in posting && id !in todo
      then id in acc' && acc'[id] == (if id in acc then (acc[id].0 + 1, acc[id].1 + posting[id]) else (1, posting[id]))
      else (id in acc' <==> id in acc) && (id in acc ==> acc'[id] == acc[id])
  }

  lemma AccumulatingStarts(posting: map<RecordId, nat>, acc: map<RecordId, (nat, nat)>)
    ensures Accumulating(posting, acc, posting.Keys, acc)
  {
  }

  lemma AccumulatingStep(posting: map<RecordId, nat>, acc: map<RecordId, (nat, nat)>, todo: set<RecordId>,
                         acc': map<RecordId, (nat, nat)>, id: RecordId)
    requires id in todo && todo <= posting.Keys && Accumulating(posting, acc, todo, acc')
    ensures var had := if id in acc' then acc'[id] else (0, 0);
            Accumulating(posting, acc, todo - {id}, acc'[id := (had.0 + 1, had.1 + posting[id])])
  {
  }

  lemma AccumulatingDone(p: Postings, before: seq<string>, term: string, acc: map<RecordId, (nat, nat)>, acc': map<RecordId, (nat, nat)>)
    requires Accumulated(p, before, acc) && Accumulating(Posting(p, term), acc, {}, acc')
    ensures Accumulated(p, before + [term], acc')
  {
    hide Matched, TfSum;
    forall id: RecordId
      ensures && (id in acc' <==> Matched(p, before + [term], id) > 0)
              && (id in acc' ==> acc'[id] == (Matched(p, before + [term], id), TfSum(p, before + [term], id)))
    {
      MatchedSnoc(p, before, term, id);
      NoneMatched(p, before, id);
    }
  }

  lemma {:induction false} NoneMatched(p: Postings, terms: seq<string>, id: RecordId)
    ensures Matched(p, terms, id) == 0 ==> TfSum(p, terms, id) == 0
  {
    if terms != [] {
      NoneMatched(p, terms[1..], id);
    }
  }

  predicate HasAll(p: Postings, terms: seq<string>, id: RecordId) {
    forall t :: t in terms ==> Contains(p, t, id)
  }

  ghost predicate Listed<V>(out: seq<(RecordId, V)>, id: RecordId) {
    exists k :: 0 <= k < |out| && out[k].0 == id
  }

  /** A ranked answer: exactly the documents holding every term, each with its summed frequency,
      by score descending and id ascending. */
  ghost predicate Answers(p: Postings, terms: seq<string>, out: seq<(RecordId, nat)>) {
    && (forall id: RecordId :: Listed(out, id) <==> HasAll(p, terms, id))
    && (forall k :: 0 <= k < |out| ==> out[k].1 == TfSum(p, terms, out[k].0))
    && (forall j, k :: 0 <= j < k < |out| ==> Before(out[j], out[k]))
  }

  predicate Before(a: (RecordId, nat), b: (RecordId, nat)) {
    a.1 > b.1 || (a.1 == b.1 && a.0 < b.0)
  }

  function RankHit(id: RecordId, score: nat): Ranked<(RecordId, nat)> {
    Ranked(-(score as real), id, (id, score))
  }

  /** The hits among the documents already looked at. */
  ghost predicate Collected(acc: map<RecordId, (nat, nat)>, need: nat, todo: set<RecordId>, hits: seq<Ranked<(RecordId, nat)>>) {
    && DistinctIds(hits)
    && (forall k :: 0 <= k < |hits| ==>
          && hits[k].id in acc && hits[k].id !in todo
          && acc[hits[k].id].0 == need && hits[k] == RankHit(hits[k].id, acc[hits[k].id].1))
    && (forall id :: id in acc && id !in todo && acc[id].0 == need ==> RankHit(id, acc[id].1) in hits)
  }

  method CollectHits(acc: map<RecordId, (nat, nat)>, need: nat) returns (hits: seq<Ranked<(RecordId, nat)>>)
    ensures Collected(acc, need, {}, hits)
  {
    hits := [];
    var todo := acc.Keys;
    while todo != {}
      invariant todo <= acc.Keys && Collected(acc, need, todo, hits)
      decreases |todo|
    {
      var id :| id in todo;
      if acc[id].0 == need {
        hits := hits + [RankHit(id, acc[id].1)];
      }
      todo := todo - {id};
    }
  }

  lemma SortedHitsAnswer(p: Postings, terms: seq<string>, acc: map<RecordId, (nat, nat)>, hits: seq<Ranked<(RecordId, nat)>>)
    requires terms != [] && Accumulated(p, terms, acc) && Collected(acc, |terms|, {}, hits)
    ensures Answers(p, terms, Items(Sort(hits)))
  {
    hide Sort, Matched, TfSum, Contains;
    var sorted := Sort(hits);
    var out := Items(sorted);
    DistinctPermutes(hits, sorted);
    forall k | 0 <= k < |out|
      ensures out[k].1 == TfSum(p, terms, out[k].0) && HasAll(p, terms, out[k].0) && sorted[k] == RankHit(out[k].0, out[k].1)
    {
      InOther(sorted, hits, sorted[k]);
      MatchedAll(p, terms, sorted[k].id);
    }
    forall id: RecordId ensures Listed(out, id) <==> HasAll(p, terms, id) {
      MatchedAll(p, terms, id);
      if HasAll(p, terms, id) {
        var h := RankHit(id, acc[id].1);
        InOther(hits, sorted, h);
        var k :| 0 <= k < |sorted| && sorted[k] == h;
        assert out[k].0 == id;
      }
    }
    forall j, k | 0 <= j < k < |out| ensures Before(out[j], out[k]) {
      assert Le(sorted[j], sorted[k]) && sorted[j].id != sorted[k].id;
    }
  }

  /** `search_over`: boolean-AND search ranked by summed term frequency. */
  method SearchOver(p: Postings, terms: seq<string>) returns (out: seq<(RecordId, nat)>)
    ensures terms == [] ==> out == []
    ensures terms != [] ==> Answers(p, terms, out)
  {
    hide Accumulated, Answers, Sort, Collected;
    if terms == [] {
      return [];
    }
    var acc: map<RecordId, (nat, nat)> := map[];
    var i := 0;
    NothingAccumulated(p);
    assert terms[..0] == [];
    while i < |terms|
      invariant 0 <= i <= |terms| && Accumulated(p, terms[..i], acc)
    {
      assert terms[..i + 1] == terms[..i] + [terms[i]];
      acc := AccumulateTerm(p, terms[..i], terms[i], acc);
      i := i + 1;
    }
    assert terms[..i] == terms;
    var hits := CollectHits(acc, |terms|);
    SortedHitsAnswer(p, terms, acc, hits);
    out := Items(Sort(hits));
  }

  lemma NothingAccumulated(p: Postings)
    ensures Accumulated(p, [], map[])
  {
  }

  /** What a query answers over documents indexed under the preset's terms: nothing without a term, else
      every document that holds all its terms. */
  ghost predicate AnalyzedAnswer(ct: CharTable, preset: Preset, query: string, docs: Docs, out: seq<(RecordId, nat)>) {
    var terms := Dedup(IndexTerms(ct, preset, query));
    if terms == [] then out == [] else Answers(IndexOf(docs).postings, terms, out)
  }

  /** The postings and the terms determine the answer. */
  lemma AnswersUnique(p: Postings, terms: seq<string>, a: seq<(RecordId, nat)>, b: seq<(RecordId, nat)>)
    requires Answers(p, terms, a) && Answers(p, terms, b)
    ensures a == b
  {
    AnswerWithin(p, terms, a, b);
    AnswerWithin(p, terms, b, a);
    ListedOnce(Before, a, b);
  }

  lemma AnswerWithin(p: Postings, terms: seq<string>, a: seq<(RecordId, nat)>, b: seq<(RecordId, nat)>)
    requires Answers(p, terms, a) && Answers(p, terms, b)
    ensures Elements(a) <= Elements(b)
  {
    hide HasAll, TfSum;
    forall x | x in a ensures x in b {
      assert Listed(a, x.0);
      var k :| 0 <= k < |b| && b[k].0 == x.0;
      assert b[k] == x;
    }
  }
}
