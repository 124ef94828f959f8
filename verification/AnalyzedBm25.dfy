/** BM25 under a query-time analyzer (`text_search_analyzed` of crates/auradb-index/src/lib.rs): postings
    of the analyzed corpus, ranked by the length statistics of the default one. */
module AnalyzedBm25 {
  import opened Sequences
  import opened Wrappers
  import opened Sums
  import opened Analyzer
  import opened TextIndex
  import opened TextSearch
  import opened TextField
  import opened OkapiWeights
  import opened Bm25

  /** `text_search_analyzed` with BM25 ranking: it ranks the postings of the analyzed corpus by default
      lengths, and answers as that corpus's own index would where every document loses the same share of
      its tokens and none all of them, or where nothing is left. */
  method SearchAnalyzedBm25(ti: TextIndexObject, w: Okapi, query: string, preset: Preset, requireAll: bool, ghost docs: Docs)
    returns (out: Option<seq<(RecordId, real)>>)
    requires Reflects(ti.View(), docs)
    ensures out.None? <==> !preset.IsPerToken()
    ensures preset.IsPerToken() ==>
              var terms := Dedup(IndexTerms(ti.ct, preset, query));
              var reindexed := IndexOf(MapDocs(preset, docs));
              && (NothingDropped(preset, docs) <==> ti.docLengths == reindexed.docLengths)
              && Bm25Answer(w, ti.View(), reindexed.postings, terms, requireAll, out.value)
              && (SameShares(preset, docs) || EverythingDropped(preset, docs) ==>
                    Bm25Answer(w, reindexed, reindexed.postings, terms, requireAll, out.value))
              && (Proper(w) ==> BetterFirst(w, ti.View(), reindexed.postings, terms, out.value))
    ensures preset.IsPerToken() ==>
              forall texts :: docs == TokensOf(ti.ct, texts) ==> MapDocs(preset, docs) == TermsOf(ti.ct, preset, texts)
  {
    hide IndexTerms, Bm25Answer, ViewOf, IndexOf, MapDocs, TokensOf, TermsOf, NothingDropped, EverythingDropped, SameShares,
      Proper, BetterFirst, FrequenciesFit;
    var view := ti.AnalyzedView(preset);
    if view.None? {
      return None;
    }
    var terms := Dedup(IndexTerms(ti.ct, preset, query));
    var st := ti.View();
    var hits := Bm25Over(w, st, view.value, terms, requireAll);
    out := Some(hits);
    ViewAgrees(st, docs, preset, view.value);
    StatisticsAgree(st, docs, preset);
    FrequenciesStayBound(st, docs, preset, terms);
    if SameShares(preset, docs) || EverythingDropped(preset, docs) {
      SameAnswers(st, docs, preset, w, terms, requireAll, hits);
    }
    forall texts | docs == TokensOf(ti.ct, texts) ensures MapDocs(preset, docs) == TermsOf(ti.ct, preset, texts) {
      AnalyzedTexts(ti.ct, preset, texts);
    }
  }

  /** No document loses all its tokens, and every document loses the same share of them. */
  ghost predicate SameShares(preset: Preset, docs: Docs) {
    preset.IsPerToken() &&
    var mapped := MapDocs(preset, docs);
    && (forall i :: i in docs && docs[i] != [] ==> mapped[i] != [])
    && (forall i :: i in docs ==> Product(|mapped[i]|, TotalOf(Lengths(docs))) == Product(|docs[i]|, TotalOf(Lengths(mapped))))
  }

  /** A preset that drops nothing loses the same share of every document: none. */
  lemma NothingDroppedIsSameShares(preset: Preset, docs: Docs)
    requires preset.IsPerToken() && NothingDropped(preset, docs)
    ensures SameShares(preset, docs)
  {
    hide MapTokens, Drops, TotalOf, Product;
    var mapped := MapDocs(preset, docs);
    forall i | i in docs ensures |mapped[i]| == |docs[i]| {
      MapTokensLength(preset, docs[i]);
    }
    assert Lengths(mapped) == Lengths(docs);
  }

  lemma SameAnswers(st: TextState, docs: Docs, preset: Preset, w: Okapi, terms: seq<string>, requireAll: bool, out: seq<(RecordId, real)>)
    requires preset.IsPerToken() && Reflects(st, docs) && (SameShares(preset, docs) || EverythingDropped(preset, docs))
    ensures var reindexed := IndexOf(MapDocs(preset, docs));
            Bm25Answer(w, st, reindexed.postings, terms, requireAll, out) <==> Bm25Answer(w, reindexed, reindexed.postings, terms, requireAll, out)
  {
    hide Reflects, IndexOf, MapDocs, SameShares, EverythingDropped, RankedAnswer, LengthRatio;
    var reindexed := IndexOf(MapDocs(preset, docs));
    if SameShares(preset, docs) {
      SharesAreRatios(st, docs, preset);
      if terms != [] && st.docLengths != map[] {
        SameStatistics(w, st, reindexed, reindexed.postings, terms, requireAll, out);
      }
    } else {
      NothingLeft(docs, preset);
      if terms != [] && st.docLengths != map[] {
        NothingAnswered(w, st, terms, requireAll, out);
      }
    }
  }

  lemma NothingAnswered(w: Okapi, st: TextState, terms: seq<string>, requireAll: bool, out: seq<(RecordId, real)>)
    requires st.docLengths != map[] && terms != []
    ensures RankedAnswer(w, st, map[], terms, requireAll, out) <==> out == []
  {
    hide Score;
    forall id: RecordId ensures !Eligible(map[], terms, requireAll, id) {
      assert terms[0] in terms && !Contains(map[], terms[0], id);
    }
    assert out == [] || Listed(out, out[0].0);
  }

  /** Scores read nothing of the index but its size and the length ratios. */
  ghost predicate SameNumbers(a: TextState, b: TextState) {
    a.docLengths != map[] && b.docLengths != map[] && |a.docLengths| == |b.docLengths|
    && forall id: RecordId :: LengthRatio(a, id) == LengthRatio(b, id)
  }

  lemma SameStatistics(w: Okapi, a: TextState, b: TextState, p: Postings, terms: seq<string>, requireAll: bool, out: seq<(RecordId, real)>)
    requires SameNumbers(a, b)
    ensures RankedAnswer(w, a, p, terms, requireAll, out) <==> RankedAnswer(w, b, p, terms, requireAll, out)
  {
    hide Eligible, Contains, Score, LengthRatio;
    forall id: RecordId ensures Score(w, a, p, terms, id) == Score(w, b, p, terms, id) {
      SameScore(w, a, b, p, terms, id);
    }
  }

  lemma {:induction false} SameScore(w: Okapi, a: TextState, b: TextState, p: Postings, terms: seq<string>, id: RecordId)
    requires SameNumbers(a, b)
    ensures Score(w, a, p, terms, id) == Score(w, b, p, terms, id)
  {
    hide Contains, LengthRatio, Okapi.Weigh;
    if terms != [] {
      SameScore(w, a, b, p, terms[..|terms| - 1], id);
    }
  }

  // ---- length ratios ----

  /** A corpus of non-empty documents has at least as many tokens as documents. */
  lemma {:induction false} TotalAtLeast(lengths: map<RecordId, nat>)
    requires forall i :: i in lengths ==> lengths[i] >= 1
    ensures TotalOf(lengths) >= |lengths|
    decreases lengths.Keys
  {
    hide TotalOf;
    if lengths != map[] {
      var i :| i in lengths;
      TotalAtLeast(lengths - {i});
      TotalDrop(lengths, i);
      assert lengths.Keys == (lengths - {i}).Keys + {i};
      assert |lengths| == |lengths.Keys| && |lengths - {i}| == |(lengths - {i}).Keys|;
    }
  }

  function Mean(total: nat, n: nat): real
    requires n > 0
  {
    total as real / n as real
  }

  function Share(part: nat, n: nat, total: nat): real
    requires total > 0
  {
    part as real * n as real / total as real
  }

  /** Over a consistent index a ratio is the document's share of all tokens, times the number of documents. */
  lemma RatioIsShare(st: TextState, docs: Docs, id: RecordId)
    requires Reflects(st, docs) && st.docLengths != map[]
    ensures |st.docLengths| > 0 && st.total > 0
    ensures LengthRatio(st, id) == Share(At(st.docLengths, id), |st.docLengths|, st.total)
  {
    hide Mirrors, TotalOf, Share, AverageLength;
    TotalAtLeast(st.docLengths);
    AverageIsMean(st.docLengths, st.total);
    ShareIsQuotient(At(st.docLengths, id), |st.docLengths|, st.total);
  }

  lemma AverageIsMean(lengths: map<RecordId, nat>, total: nat)
    requires lengths != map[] && total >= |lengths|
    ensures |lengths| > 0 && total > 0 && AverageLength(lengths, total) == Mean(total, |lengths|)
  {
    AverageIsPlain(total as real, |lengths| as real);
  }

  lemma ShareIsQuotient(part: nat, n: nat, total: nat)
    requires n > 0 && total > 0
    ensures Mean(total, n) > 0.0 && part as real / Mean(total, n) == Share(part, n, total)
  {
    QuotientOfQuotient(part as real, total as real, n as real);
  }

  lemma AverageIsPlain(t: real, n: real)
    requires n > 0.0 && t >= n
    ensures t / n >= 1.0
  {
    var q := t / n;
    assert q * n == t;
    if q < 1.0 {
      ScaleBelow(q, 1.0, n);
    }
  }

  lemma QuotientOfQuotient(a: real, t: real, n: real)
    requires t > 0.0 && n > 0.0
    ensures t / n > 0.0 && a / (t / n) == a * n / t
  {
    var q := t / n;
    assert q * n == t;
    assert q > 0.0;
    var x := a / q;
    assert x * q == a;
    assert a * n == x * q * n == x * (q * n) == x * t;
  }

  /** Two shares are equal exactly when their cross products are. */
  lemma CrossProducts(a: nat, b: nat, n: nat, t: nat, u: nat)
    requires n > 0 && t > 0 && u > 0
    ensures Share(a, n, t) == Share(b, n, u) <==> Product(b, t) == Product(a, u)
  {
    hide Product;
    var x, y, m, v, w := a as real, b as real, n as real, t as real, u as real;
    var p, q := Share(a, n, t), Share(b, n, u);
    assert p * v == x * m;
    assert q * w == y * m;
    ProductAsReal(a, u);
    ProductAsReal(b, t);
    SharesCross(x, y, m, v, w, p, q);
  }

  lemma ProductAsReal(a: nat, b: nat)
    ensures Product(a, b) as real == a as real * b as real
  {
  }

  lemma SharesCross(x: real, y: real, m: real, v: real, w: real, p: real, q: real)
    requires m > 0.0 && v > 0.0 && w > 0.0 && p * v == x * m && q * w == y * m
    ensures p == q <==> x * w == y * v
  {
    Swapped(p, v, x, m, w);
    Swapped(q, w, y, m, v);
    assert v * w == w * v;
    Cancel(p, q, v * w);
    Cancel(x * w, y * v, m);
  }

  lemma Swapped(p: real, v: real, x: real, m: real, w: real)
    requires p * v == x * m
    ensures p * (v * w) == x * w * m
  {
    assert p * (v * w) == p * v * w;
    assert x * m * w == x * w * m;
  }

  /** Where no document is lost, the shares decide whether the ratios agree. */
  lemma SharesAgree(st: TextState, docs: Docs, preset: Preset, id: RecordId)
    requires preset.IsPerToken() && Reflects(st, docs) && st.docLengths != map[] && id in docs
    requires var reindexed := IndexOf(MapDocs(preset, docs)); reindexed.docLengths.Keys == st.docLengths.Keys
    ensures var mapped := MapDocs(preset, docs);
            LengthRatio(st, id) == LengthRatio(IndexOf(mapped), id)
            <==> Product(|mapped[id]|, TotalOf(Lengths(docs))) == Product(|docs[id]|, TotalOf(Lengths(mapped)))
  {
    hide IndexOf, MapTokens, Mirrors, TotalOf, LengthRatio, Share, Product;
    var mapped := MapDocs(preset, docs);
    var re := IndexOf(mapped);
    IndexReflects(mapped);
    SameKeysSameSize(st.docLengths, re.docLengths);
    RatioIsShare(st, docs, id);
    RatioIsShare(re, mapped, id);
    assert At(st.docLengths, id) == |docs[id]| && At(re.docLengths, id) == |mapped[id]|;
    CrossProducts(|docs[id]|, |mapped[id]|, |st.docLengths|, st.total, re.total);
  }

  lemma SameKeysSameSize(a: map<RecordId, nat>, b: map<RecordId, nat>)
    requires a.Keys == b.Keys
    ensures |a| == |b| && (a != map[] ==> b != map[])
  {
    assert |a| == |a.Keys| && |b| == |b.Keys|;
    assert a != map[] ==> a.Keys != {};
  }

  lemma SharesAreRatios(st: TextState, docs: Docs, preset: Preset)
    requires preset.IsPerToken() && Reflects(st, docs) && SameShares(preset, docs)
    ensures var reindexed := IndexOf(MapDocs(preset, docs));
            && (st.docLengths == map[] <==> reindexed.docLengths == map[])
            && (st.docLengths != map[] ==> SameNumbers(st, reindexed))
  {
    hide IndexOf, MapTokens, Mirrors, TotalOf, LengthRatio, Product;
    var mapped := MapDocs(preset, docs);
    var re := IndexOf(mapped);
    IndexReflects(mapped);
    KeysStay(docs, preset);
    assert re.docLengths.Keys == st.docLengths.Keys;
    SameKeysSameSize(st.docLengths, re.docLengths);
    SameKeysSameSize(re.docLengths, st.docLengths);
    if st.docLengths != map[] {
      forall id: RecordId ensures LengthRatio(st, id) == LengthRatio(re, id) {
        if id in docs {
          SharesAgree(st, docs, preset, id);
        } else {
          NoRatio(st, id);
          NoRatio(re, id);
        }
      }
    }
  }

  lemma NoRatio(st: TextState, id: RecordId)
    requires st.docLengths != map[] && id !in st.docLengths
    ensures LengthRatio(st, id) == 0.0
  {
  }

  /** A corpus in which no document loses all its tokens keeps its documents. */
  lemma KeysStay(docs: Docs, preset: Preset)
    requires preset.IsPerToken() && forall i :: i in docs && docs[i] != [] ==> MapDocs(preset, docs)[i] != []
    ensures Lengths(MapDocs(preset, docs)).Keys == Lengths(docs).Keys
  {
    hide MapTokens;
    forall i | i in docs ensures MapDocs(preset, docs)[i] != [] <==> docs[i] != [] {
      MapTokensLength(preset, docs[i]);
    }
  }

  /** Where stopwords are dropped, the default lengths bound the analyzed ones from above. */
  lemma DefaultLengthIsBound(st: TextState, docs: Docs, preset: Preset, id: RecordId)
    requires preset.IsPerToken() && Reflects(st, docs)
    ensures At(IndexOf(MapDocs(preset, docs)).docLengths, id) <= At(st.docLengths, id)
  {
    hide Clean, Tf, DocCount, MapTokens, IndexOf, TotalOf;
    IndexReflects(MapDocs(preset, docs));
    if id in docs {
      MapTokensLength(preset, docs[id]);
    }
  }

  // ---- exactly when the answers agree ----

  /** A document that weighs differently in two states is answered differently. */
  lemma Disagree(w: Okapi, a: TextState, b: TextState, p: Postings, t: string, id: RecordId) returns (out: seq<(RecordId, real)>)
    requires a.docLengths != map[] && b.docLengths != map[] && Contains(p, t, id)
    requires Contribution(w, a, p, t, id) != Contribution(w, b, p, t, id)
    ensures Bm25Answer(w, a, p, [t], true, out) && !Bm25Answer(w, b, p, [t], true, out)
  {
    hide Contribution, Contains;
    out := SomeAnswer(w, a, p, [t], true);
    OneTerm(w, a, p, t, id);
    OneTerm(w, b, p, t, id);
    assert HasAll(p, [t], id) && Eligible(p, [t], true, id);
    assert Listed(out, id);
  }

  lemma OneTerm(w: Okapi, st: TextState, p: Postings, t: string, id: RecordId)
    requires st.docLengths != map[] && Contains(p, t, id)
    ensures Score(w, st, p, [t], id) == Contribution(w, st, p, t, id)
  {
    hide Contribution, Contains;
    assert [t][..0] == [];
  }

  /** The term a document keeps is posted for it. */
  lemma KeptIsPosted(docs: Docs, id: RecordId)
    requires id in docs && docs[id] != []
    ensures Contains(IndexOf(docs).postings, docs[id][0], id) && id in IndexOf(docs).docLengths
    ensures IndexOf(docs).docLengths[id] == |docs[id]|
  {
    hide IndexOf, Count, TotalOf;
    IndexReflects(docs);
    CountIn(docs[id], docs[id][0]);
    assert Tf(IndexOf(docs).postings, docs[id][0], id) == DocCount(docs, docs[id][0], id);
  }

  // ---- the logarithm ----


  /** Without saturation and normalization a weight is the inverse document frequency. */
  lemma PlainWeight(w: Okapi, n: nat, df: nat, tf: nat, ratio: real)
    requires w.k1 == 0.0 && w.b == 0.0 && tf > 0
    ensures w.Weigh(n, df, tf, ratio) == w.Idf(n, df)
  {
    var t := tf as real;
    assert w.Denominator(tf, ratio) == t;
    var x := w.Idf(n, df) * (t * 1.0) / t;
    assert x * t == w.Idf(n, df) * t;
    Cancel(x, w.Idf(n, df), t);
  }

  /** With both parameters at 1 a weight falls with the length ratio. */
  lemma FullWeight(w: Okapi, n: nat, df: nat, tf: nat, r: real, s: real)
    requires w.k1 == 1.0 && w.b == 1.0 && tf > 0 && w.Idf(n, df) > 0.0 && r >= 0.0 && s >= 0.0
    ensures w.Weigh(n, df, tf, r) == w.Weigh(n, df, tf, s) ==> r == s
  {
    var t := tf as real;
    assert w.Denominator(tf, r) == t + r && w.Denominator(tf, s) == t + s;
    var a := w.Idf(n, df) * (t * 2.0);
    Positive(w.Idf(n, df), t * 2.0);
    OverDifferent(a, t + r, t + s);
  }

  lemma OverDifferent(a: real, u: real, v: real)
    requires a > 0.0 && u > 0.0 && v > 0.0
    ensures a / u == a / v ==> u == v
  {
    var x := a / u;
    assert x * u == a;
    if x == a / v {
      assert x * v == a;
      assert x > 0.0 by {
        if x <= 0.0 {
          NotPositive(x, u);
        }
      }
      assert u * x == v * x;
      Cancel(u, v, x);
    }
  }

  // ---- disagreement ----

  /** No term is posted for more documents than there are. */
  lemma FrequencyBound(docs: Docs, t: string)
    ensures |Posting(IndexOf(docs).postings, t)| <= |IndexOf(docs).docLengths|
  {
    hide IndexOf;
    var st := IndexOf(docs);
    IndexReflects(docs);
    forall i | i in Posting(st.postings, t) ensures i in st.docLengths {
      assert t in st.postings.Keys;
      PostedIffLong(st, docs, i);
    }
    SubsetSize(Posting(st.postings, t).Keys, st.docLengths.Keys);
    assert |Posting(st.postings, t)| == |Posting(st.postings, t).Keys| && |st.docLengths| == |st.docLengths.Keys|;
  }

  /** Nor are there more documents after analysis, so no analyzed term is posted for more than there were. */
  lemma FrequenciesStayBound(st: TextState, docs: Docs, preset: Preset, terms: seq<string>)
    requires preset.IsPerToken() && Reflects(st, docs)
    ensures FrequenciesFit(st, IndexOf(MapDocs(preset, docs)).postings, terms)
  {
    hide IndexOf, MapTokens, Mirrors, TotalOf;
    var mapped := MapDocs(preset, docs);
    var re := IndexOf(mapped);
    IndexReflects(mapped);
    forall k | k in re.docLengths ensures k in st.docLengths {
      MapTokensLength(preset, docs[k]);
    }
    SubsetSize(re.docLengths.Keys, st.docLengths.Keys);
    assert |re.docLengths| == |re.docLengths.Keys| && |st.docLengths| == |st.docLengths.Keys|;
    forall t | t in terms ensures |Posting(re.postings, t)| <= |st.docLengths| {
      FrequencyBound(mapped, t);
    }
  }

  lemma PostedOften(docs: Docs, t: string, id: RecordId)
    requires Contains(IndexOf(docs).postings, t, id)
    ensures Tf(IndexOf(docs).postings, t, id) > 0
  {
    hide IndexOf, TotalOf;
    IndexReflects(docs);
    assert t in IndexOf(docs).postings;
  }

  lemma RatioIsPositive(st: TextState, id: RecordId)
    requires st.docLengths != map[]
    ensures LengthRatio(st, id) >= 0.0
  {
  }

  /** A document with another length ratio is scored differently at k1 = b = 1. */
  lemma RatioDisagrees(ln: real -> real, st: TextState, mapped: Docs, id: RecordId) returns (out: seq<(RecordId, real)>)
    requires Logarithm(ln) && id in mapped && mapped[id] != [] && st.docLengths != map[] && IndexOf(mapped).docLengths != map[]
    requires |st.docLengths| == |IndexOf(mapped).docLengths| && LengthRatio(st, id) != LengthRatio(IndexOf(mapped), id)
    ensures var re := IndexOf(mapped);
            && Bm25Answer(Okapi(ln, 1.0, 1.0), st, re.postings, [mapped[id][0]], true, out)
            && !Bm25Answer(Okapi(ln, 1.0, 1.0), re, re.postings, [mapped[id][0]], true, out)
  {
    hide IndexOf, Contains, Bm25Answer, LengthRatio, Logarithm, Okapi.Weigh, Okapi.Idf;
    var re, t, w := IndexOf(mapped), mapped[id][0], Okapi(ln, 1.0, 1.0);
    KeptIsPosted(mapped, id);
    PostedOften(mapped, t, id);
    FrequencyBound(mapped, t);
    var n, df := |st.docLengths|, |Posting(re.postings, t)|;
    IdfGrows(w, n, n, df);
    RatioIsPositive(st, id);
    RatioIsPositive(re, id);
    FullWeight(w, n, df, Tf(re.postings, t, id), LengthRatio(st, id), LengthRatio(re, id));
    out := Disagree(w, st, re, re.postings, t, id);
  }

  /** A document of a collection of another size is scored differently at k1 = b = 0. */
  lemma SizeDisagrees(ln: real -> real, st: TextState, mapped: Docs, id: RecordId) returns (out: seq<(RecordId, real)>)
    requires Logarithm(ln) && id in mapped && mapped[id] != [] && st.docLengths != map[] && IndexOf(mapped).docLengths != map[]
    requires |st.docLengths| > |IndexOf(mapped).docLengths|
    ensures var re := IndexOf(mapped);
            && Bm25Answer(Okapi(ln, 0.0, 0.0), st, re.postings, [mapped[id][0]], true, out)
            && !Bm25Answer(Okapi(ln, 0.0, 0.0), re, re.postings, [mapped[id][0]], true, out)
  {
    hide IndexOf, Contains, Bm25Answer, LengthRatio, Logarithm, Okapi.Weigh, Okapi.Idf;
    var re, t, w := IndexOf(mapped), mapped[id][0], Okapi(ln, 0.0, 0.0);
    KeptIsPosted(mapped, id);
    PostedOften(mapped, t, id);
    FrequencyBound(mapped, t);
    var df, tf := |Posting(re.postings, t)|, Tf(re.postings, t, id);
    IdfGrows(w, |re.docLengths|, |st.docLengths|, df);
    PlainWeight(w, |st.docLengths|, df, tf, LengthRatio(st, id));
    PlainWeight(w, |re.docLengths|, df, tf, LengthRatio(re, id));
    out := Disagree(w, st, re, re.postings, t, id);
  }

  /** A document that loses every token makes the analyzed collection smaller. */
  lemma LostIsSmaller(st: TextState, docs: Docs, preset: Preset, i: RecordId)
    requires preset.IsPerToken() && Reflects(st, docs) && i in docs && docs[i] != [] && MapDocs(preset, docs)[i] == []
    ensures |st.docLengths| > |IndexOf(MapDocs(preset, docs)).docLengths| && st.docLengths != map[]
  {
    hide IndexOf, MapTokens, Mirrors, TotalOf;
    var mapped := MapDocs(preset, docs);
    var re := IndexOf(mapped);
    IndexReflects(mapped);
    forall k | k in re.docLengths ensures k in st.docLengths && k != i {
      MapTokensLength(preset, docs[k]);
    }
    assert i in st.docLengths;
    SubsetSize(re.docLengths.Keys, st.docLengths.Keys - {i});
    assert |re.docLengths| == |re.docLengths.Keys| && |st.docLengths| == |st.docLengths.Keys|;
  }

  ghost predicate AnswersAgree(ln: real -> real, st: TextState, reindexed: TextState) {
    forall w: Okapi, terms: seq<string>, requireAll: bool, out: seq<(RecordId, real)> :: w.ln == ln && w.InRange() ==>
      (Bm25Answer(w, st, reindexed.postings, terms, requireAll, out) <==> Bm25Answer(w, reindexed, reindexed.postings, terms, requireAll, out))
  }

  /** For every query and all parameters in their ranges the answers are those of the analyzed corpus's
      own index, if and only if every document loses the same share of its tokens and none all of them,
      or nothing is left. */
  lemma AnswersAgreeExactly(ln: real -> real, st: TextState, docs: Docs, preset: Preset)
    requires Logarithm(ln) && preset.IsPerToken() && Reflects(st, docs)
    ensures AnswersAgree(ln, st, IndexOf(MapDocs(preset, docs))) <==> SameShares(preset, docs) || EverythingDropped(preset, docs)
  {
    hide Reflects, IndexOf, MapDocs, Bm25Answer, SameShares, EverythingDropped, Logarithm;
    var re := IndexOf(MapDocs(preset, docs));
    if SameShares(preset, docs) || EverythingDropped(preset, docs) {
      forall w: Okapi, terms: seq<string>, requireAll: bool, out: seq<(RecordId, real)>
        ensures Bm25Answer(w, st, re.postings, terms, requireAll, out) <==> Bm25Answer(w, re, re.postings, terms, requireAll, out)
      {
        SameAnswers(st, docs, preset, w, terms, requireAll, out);
      }
    } else {
      var w, t, out := UnequalSharesDisagree(ln, st, docs, preset);
    }
  }

  lemma UnequalSharesDisagree(ln: real -> real, st: TextState, docs: Docs, preset: Preset)
    returns (w: Okapi, t: string, out: seq<(RecordId, real)>)
    requires Logarithm(ln) && preset.IsPerToken() && Reflects(st, docs)
    requires !SameShares(preset, docs) && !EverythingDropped(preset, docs)
    ensures w.ln == ln && w.InRange()
    ensures var re := IndexOf(MapDocs(preset, docs));
            Bm25Answer(w, st, re.postings, [t], true, out) && !Bm25Answer(w, re, re.postings, [t], true, out)
  {
    hide IndexOf, MapTokens, Bm25Answer, Drops, Mirrors, TotalOf, Logarithm, LengthRatio, Product;
    var mapped := MapDocs(preset, docs);
    var re := IndexOf(mapped);
    IndexReflects(mapped);
    if forall i :: i in docs && docs[i] != [] ==> mapped[i] != [] {
      var i :| i in docs && Product(|mapped[i]|, TotalOf(Lengths(docs))) != Product(|docs[i]|, TotalOf(Lengths(mapped)));
      MapTokensLength(preset, docs[i]);
      NonEmptyHere(docs[i], mapped[i], TotalOf(Lengths(docs)), TotalOf(Lengths(mapped)));
      KeysStay(docs, preset);
      assert i in st.docLengths;
      SameKeysSameSize(st.docLengths, re.docLengths);
      SharesAgree(st, docs, preset, i);
      w, t := Okapi(ln, 1.0, 1.0), mapped[i][0];
      out := RatioDisagrees(ln, st, mapped, i);
    } else {
      var i :| i in docs && docs[i] != [] && mapped[i] == [];
      var j, v :| j in docs && v in docs[j] && !Drops(preset, v);
      MappedIsEmpty(preset, docs[j]);
      LostIsSmaller(st, docs, preset, i);
      KeptIsPosted(mapped, j);
      w, t := Okapi(ln, 0.0, 0.0), mapped[j][0];
      out := SizeDisagrees(ln, st, mapped, j);
    }
  }

  lemma NonEmptyHere(tokens: seq<string>, mapped: seq<string>, t: nat, u: nat)
    requires |mapped| <= |tokens| && Product(|mapped|, t) != Product(|tokens|, u) && (tokens != [] ==> mapped != [])
    ensures tokens != [] && mapped != []
  {
  }

  // ---- a corpus that disagrees ----

  const WITH_THE: Docs := map[1 := ["the", "cat"], 2 := ["dog"]]
  const WITHOUT_THE: Docs := map[1 := ["cat"], 2 := ["dog"]]

  /** "the cat" and "dog": by default the first document is longer than the average, without its stopword
      it is not, and at the default parameters it scores 0.88 of what the analyzed corpus gives it. */
  lemma StopwordChangesScore(ln: real -> real)
    requires Logarithm(ln)
    ensures var st, reindexed := IndexOf(WITH_THE), IndexOf(MapDocs(EnglishBasic, WITH_THE));
            var w := Okapi(ln, DEFAULT_K1, DEFAULT_B);
            && Reflects(st, WITH_THE) && ln(2.0) > 0.0
            && Bm25Answer(w, st, reindexed.postings, ["cat"], true, [(1, 0.88 * ln(2.0))])
            && Bm25Answer(w, reindexed, reindexed.postings, ["cat"], true, [(1, ln(2.0))])
  {
    hide IndexOf, Bm25Answer, MapDocs, Reflects, Okapi.Weigh;
    var w := Okapi(ln, DEFAULT_K1, DEFAULT_B);
    WithoutThe();
    IndexReflects(WITH_THE);
    DefaultWeights(w);
    CatScores(w, WITH_THE, 2, 4.0 / 3.0);
    CatScores(w, WITHOUT_THE, 1, 1.0);
  }

  lemma WithoutThe()
    ensures MapDocs(EnglishBasic, WITH_THE) == WITHOUT_THE
  {
    hide MapTokens;
    TheCat();
  }

  lemma CatScores(w: Okapi, docs: Docs, n: nat, ratio: real)
    requires docs.Keys == {1, 2} && |docs[1]| == n > 0 && |docs[2]| == 1 && ratio == n as real / ((n as real + 1.0) / 2.0)
    ensures Bm25Answer(w, IndexOf(docs), IndexOf(WITHOUT_THE).postings, ["cat"], true, [(1, w.Weigh(2, 1, 1, ratio))])
  {
    hide IndexOf, Bm25Answer, Posting, Contains, Okapi.Weigh;
    TwoDocuments(docs, n);
    CatPosted();
    OneHit(w, IndexOf(docs), IndexOf(WITHOUT_THE).postings, n, ratio);
  }

  lemma TwoDocuments(docs: Docs, n: nat)
    requires docs.Keys == {1, 2} && |docs[1]| == n > 0 && |docs[2]| == 1
    ensures var st := IndexOf(docs); st.docLengths == map[1 := n, 2 := 1] && st.total == n + 1 && |st.docLengths| == 2
  {
    hide IndexOf, Mirrors, TotalOf;
    IndexReflects(docs);
    assert Lengths(docs) == map[1 := n, 2 := 1];
    TwoLengths(n, 1);
  }

  lemma CatPosted()
    ensures var p := IndexOf(WITHOUT_THE).postings;
            Posting(p, "cat") == map[1 := 1] && forall id: RecordId :: Contains(p, "cat", id) <==> id == 1
  {
    hide IndexOf, TotalOf, Mirrors, Posting, Contains;
    IndexReflects(WITHOUT_THE);
    OnlyCat(IndexOf(WITHOUT_THE).postings);
  }

  lemma TwoLengths(a: nat, b: nat)
    ensures TotalOf(map[1 := a, 2 := b]) == a + b && |map[1 := a, 2 := b]| == 2
  {
    var m := map[1 := a, 2 := b];
    TotalDrop(m, 2);
    assert m - {2} == map[1 := a];
    TotalDrop(map[1 := a], 1);
    assert map[1 := a] - {1} == map[];
    assert m.Keys == {1, 2} && |m| == |m.Keys|;
  }

  lemma DefaultWeights(w: Okapi)
    requires Logarithm(w.ln) && w.k1 == DEFAULT_K1 && w.b == DEFAULT_B
    ensures w.ln(2.0) > 0.0
    ensures w.Weigh(2, 1, 1, 4.0 / 3.0) == 0.88 * w.ln(2.0) && w.Weigh(2, 1, 1, 1.0) == w.ln(2.0)
  {
    assert w.Idf(2, 1) == w.ln(2.0);
    assert w.Denominator(1, 4.0 / 3.0) == 2.5;
    assert w.Denominator(1, 1.0) == 2.2;
  }

  lemma OnlyCat(p: Postings)
    requires TextIndex.Mirrors(p, WITHOUT_THE)
    ensures Posting(p, "cat") == map[1 := 1] && forall id: RecordId :: Contains(p, "cat", id) <==> id == 1
  {
    assert "cat"[0] == 'c' && "dog"[0] == 'd';
    forall id: RecordId ensures Tf(p, "cat", id) == if id == 1 then 1 else 0 {
      assert Tf(p, "cat", id) == DocCount(WITHOUT_THE, "cat", id);
    }
    forall id: RecordId ensures Contains(p, "cat", id) <==> id == 1 {
      assert Tf(p, "cat", id) == if id == 1 then 1 else 0;
    }
    var posting := Posting(p, "cat");
    assert Contains(p, "cat", 1) && Tf(p, "cat", 1) == 1;
    forall id | id in posting ensures id == 1 {
      assert Contains(p, "cat", id);
    }
    assert posting.Keys == {1};
    assert posting == map[1 := 1];
  }

  lemma OneHit(w: Okapi, st: TextState, p: Postings, n: nat, ratio: real)
    requires st.docLengths == map[1 := n, 2 := 1] && st.total == n + 1 && |st.docLengths| == 2 && n > 0
    requires Posting(p, "cat") == map[1 := 1] && forall id: RecordId :: Contains(p, "cat", id) <==> id == 1
    requires ratio == n as real / ((n as real + 1.0) / 2.0)
    ensures Bm25Answer(w, st, p, ["cat"], true, [(1, w.Weigh(2, 1, 1, ratio))])
  {
    hide Contains, Okapi.Weigh;
    assert 1 in st.docLengths && |Posting(p, "cat")| == 1 && Tf(p, "cat", 1) == 1;
    assert LengthRatio(st, 1) == ratio;
    OneTerm(w, st, p, "cat", 1);
    var out := [(1, w.Weigh(2, 1, 1, ratio))];
    assert out[0].0 == 1;
    forall id: RecordId ensures Listed(out, id) <==> Eligible(p, ["cat"], true, id) {
      assert "cat" in ["cat"];
    }
  }

  lemma TheCat()
    ensures MapTokens(EnglishBasic, ["the", "cat"]) == ["cat"] && MapTokens(EnglishBasic, ["dog"]) == ["dog"]
  {
    hide IsStopword, FoldPlural;
    CatIsKept();
    DogIsKept();
    assert ["the", "cat"][1..] == ["cat"] && ["cat"][1..] == [] && ["dog"][1..] == [];
  }

  lemma CatIsKept()
    ensures IsStopword("the") && !IsStopword("cat") && FoldPlural("cat") == "cat"
  {
    assert "the" == ENGLISH_STOPWORDS[22];
  }

  lemma DogIsKept()
    ensures !IsStopword("dog") && FoldPlural("dog") == "dog"
  {
  }
}
