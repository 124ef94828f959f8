/** BM25 ranking over a postings view (`bm25_over` of crates/auradb-index/src/lib.rs), in exact
    arithmetic over a logarithm of which only the order is known. */
module Bm25 {
  import opened Sequences
  import opened Wrappers
  import opened Ranking
  import opened TextIndex
  import opened TextSearch
  import opened OkapiWeights

  const DEFAULT_K1 := 1.2
  const DEFAULT_B := 0.75

  function AverageLength(lengths: map<RecordId, nat>, total: nat): (average: real)
    requires lengths != map[]
    ensures average >= 1.0
  {
    var avg := total as real / |lengths| as real;
    if avg < 1.0 then 1.0 else avg
  }

  function LengthRatio(st: TextState, id: RecordId): real
    requires st.docLengths != map[]
  {
    At(st.docLengths, id) as real / AverageLength(st.docLengths, st.total)
  }

  function Contribution(w: Okapi, st: TextState, p: Postings, term: string, id: RecordId): real
    requires st.docLengths != map[]
  {
    w.Weigh(|st.docLengths|, |Posting(p, term)|, Tf(p, term, id), LengthRatio(st, id))
  }

  function Score(w: Okapi, st: TextState, p: Postings, terms: seq<string>, id: RecordId): real
    requires st.docLengths != map[]
  {
    if terms == [] then 0.0
    else
      var t := terms[|terms| - 1];
      Score(w, st, p, terms[..|terms| - 1], id) + (if Contains(p, t, id) then Contribution(w, st, p, t, id) else 0.0)
  }

  /** What the accumulator holds after the terms seen so far. */
  ghost predicate Gathered(w: Okapi, st: TextState, p: Postings, terms: seq<string>, acc: map<RecordId, (real, nat)>)
    requires st.docLengths != map[]
  {
    forall id: RecordId ::
      && (id in acc <==> Matched(p, terms, id) > 0)
      && (id in acc ==> acc[id] == (Score(w, st, p, terms, id), Matched(p, terms, id)))
  }

  lemma {:induction false} UnmatchedScoresNothing(w: Okapi, st: TextState, p: Postings, terms: seq<string>, id: RecordId)
    requires st.docLengths != map[] && Matched(p, terms, id) == 0
    ensures Score(w, st, p, terms, id) == 0.0
  {
    hide Contribution, Contains;
    if terms != [] {
      var front, t := terms[..|terms| - 1], terms[|terms| - 1];
      assert terms == front + [t];
      MatchedSnoc(p, front, t, id);
      UnmatchedScoresNothing(w, st, p, front, id);
    }
  }

  method GatherTerm(w: Okapi, st: TextState, p: Postings, ghost before: seq<string>, term: string, acc: map<RecordId, (real, nat)>)
    returns (acc': map<RecordId, (real, nat)>)
    requires st.docLengths != map[] && Gathered(w, st, p, before, acc)
    ensures Gathered(w, st, p, before + [term], acc')
  {
    hide Gathered, Gathering, Contribution;
    acc' := acc;
    var posting := Posting(p, term);
    var todo := posting.Keys;
    GatheringStarts(w, st, p, term, acc);
    while todo != {}
      invariant todo <= posting.Keys && Gathering(w, st, p, term, acc, todo, acc')
      decreases |todo|
    {
      var id :| id in todo;
      var had := if id in acc' then acc'[id] else (0.0, 0);
      GatheringStep(w, st, p, term, acc, todo, acc', id);
      acc' := acc'[id := (had.0 + Contribution(w, st, p, term, id), had.1 + 1)];
      todo := todo - {id};
    }
    GatheringDone(w, st, p, before, term, acc, acc');
  }

  /** The accumulator with the documents of `todo` still to be met. */
  ghost predicate Gathering(w: Okapi, st: TextState, p: Postings, term: string, acc: map<RecordId, (real, nat)>,
                            todo: set<RecordId>, acc': map<RecordId, (real, nat)>)
    requires st.docLengths != map[]
  {
    forall id: RecordId ::
      if id in Posting(p, term) && id !in todo
      then
        && id in acc'
        && var had := if id in acc then acc[id] else (0.0, 0);
           acc'[id] == (had.0 + Contribution(w, st, p, term, id), had.1 + 1)
      else (id in acc' <==> id in acc) && (id in acc ==> acc'[id] == acc[id])
  }

  lemma GatheringStarts(w: Okapi, st: TextState, p: Postings, term: string, acc: map<RecordId, (real, nat)>)
    requires st.docLengths != map[]
    ensures Gathering(w, st, p, term, acc, Posting(p, term).Keys, acc)
  {
    hide Contribution;
  }

  lemma GatheringStep(w: Okapi, st: TextState, p: Postings, term: string, acc: map<RecordId, (real, nat)>,
                      todo: set<RecordId>, acc': map<RecordId, (real, nat)>, id: RecordId)
    requires st.docLengths != map[] && id in todo && todo <= Posting(p, term).Keys
    requires Gathering(w, st, p, term, acc, todo, acc')
    ensures var had := if id in acc' then acc'[id] else (0.0, 0);
            Gathering(w, st, p, term, acc, todo - {id}, acc'[id := (had.0 + Contribution(w, st, p, term, id), had.1 + 1)])
  {
    hide Contribution;
  }

  lemma GatheringDone(w: Okapi, st: TextState, p: Postings, before: seq<string>, term: string,
                      acc: map<RecordId, (real, nat)>, acc': map<RecordId, (real, nat)>)
    requires st.docLengths != map[] && Gathered(w, st, p, before, acc) && Gathering(w, st, p, term, acc, {}, acc')
    ensures Gathered(w, st, p, before + [term], acc')
  {
    hide Matched, Score, Contribution;
    forall id: RecordId
      ensures && (id in acc' <==> Matched(p, before + [term], id) > 0)
              && (id in acc' ==> acc'[id] == (Score(w, st, p, before + [term], id), Matched(p, before + [term], id)))
    {
      MatchedSnoc(p, before, term, id);
      ScoreSnoc(w, st, p, before, term, id);
      if Matched(p, before, id) == 0 {
        UnmatchedScoresNothing(w, st, p, before, id);
      }
    }
  }

  lemma ScoreSnoc(w: Okapi, st: TextState, p: Postings, terms: seq<string>, t: string, id: RecordId)
    requires st.docLengths != map[]
    ensures Score(w, st, p, terms + [t], id)
            == Score(w, st, p, terms, id) + (if Contains(p, t, id) then Contribution(w, st, p, t, id) else 0.0)
  {
    assert (terms + [t])[..|terms|] == terms;
  }

  // ---- which document scores higher ----

  /** No term is in more documents than there are. */
  ghost predicate FrequenciesFit(st: TextState, p: Postings, terms: seq<string>) {
    forall t :: t in terms ==> |Posting(p, t)| <= |st.docLengths|
  }

  /** What tells in favour of `a` for one term: more occurrences, or as many in a shorter document. */
  ghost predicate Favours(w: Okapi, st: TextState, p: Postings, t: string, a: RecordId, b: RecordId) {
    || Tf(p, t, a) > Tf(p, t, b)
    || (Tf(p, t, a) > 0 && At(st.docLengths, a) < At(st.docLengths, b) && w.b > 0.0)
  }

  /** `a` is no longer than `b`, holds every term as often, and some term favours it. */
  ghost predicate Outdoes(w: Okapi, st: TextState, p: Postings, terms: seq<string>, a: RecordId, b: RecordId) {
    && At(st.docLengths, a) <= At(st.docLengths, b)
    && (w.b < 1.0 || At(st.docLengths, a) > 0)
    && (forall t :: t in terms ==> Tf(p, t, a) >= Tf(p, t, b))
    && (exists t :: t in terms && Favours(w, st, p, t, a, b))
  }

  lemma RatioGrows(st: TextState, a: RecordId, b: RecordId)
    requires st.docLengths != map[] && At(st.docLengths, a) <= At(st.docLengths, b)
    ensures 0.0 <= LengthRatio(st, a) <= LengthRatio(st, b)
    ensures LengthRatio(st, a) < LengthRatio(st, b) <==> At(st.docLengths, a) < At(st.docLengths, b)
    ensures LengthRatio(st, a) > 0.0 <==> At(st.docLengths, a) > 0
  {
    hide AverageLength;
    var avg := AverageLength(st.docLengths, st.total);
    var x, y := At(st.docLengths, a), At(st.docLengths, b);
    if x < y {
      DividedOrder(x as real, y as real, avg);
    }
    if x > 0 {
      DividedOrder(0.0, x as real, avg);
    }
  }

  /** The weight of a term, whether the document holds it or not. */
  function TermWeight(w: Okapi, st: TextState, p: Postings, t: string, id: RecordId): real
    requires st.docLengths != map[]
  {
    if Contains(p, t, id) then Contribution(w, st, p, t, id) else 0.0
  }

  lemma TermWeightIs(w: Okapi, st: TextState, p: Postings, t: string, id: RecordId)
    requires st.docLengths != map[]
    ensures TermWeight(w, st, p, t, id) == w.Weigh(|st.docLengths|, |Posting(p, t)|, Tf(p, t, id), LengthRatio(st, id))
  {
    hide Okapi.Weigh, LengthRatio;
    if !Contains(p, t, id) {
      NoTermNoWeight(w, |st.docLengths|, |Posting(p, t)|, LengthRatio(st, id));
    }
  }

  /** As many occurrences or more, in a document as short or shorter. */
  lemma WeighsAtLeast(w: Okapi, n: nat, df: nat, tf: nat, more: nat, ratio: real, longer: real)
    requires Proper(w) && df <= n && tf <= more && 0.0 <= ratio <= longer
    ensures w.Weigh(n, df, tf, longer) <= w.Weigh(n, df, more, ratio)
    ensures tf < more && (w.b < 1.0 || ratio > 0.0) ==> w.Weigh(n, df, tf, longer) < w.Weigh(n, df, more, ratio)
    ensures tf > 0 && ratio < longer && w.b > 0.0 ==> w.Weigh(n, df, tf, longer) < w.Weigh(n, df, more, ratio)
  {
    hide Okapi.Weigh, Logarithm;
    NoTermNoWeight(w, n, df, ratio);
    NoTermNoWeight(w, n, df, longer);
    if more > 0 {
      WeightIsBounded(w, n, df, more, ratio);
    }
    if 0 < tf {
      if tf < more {
        OftenWeighsMore(w, n, df, tf, more, ratio);
      }
      if ratio < longer {
        LongerWeighsLess(w, n, df, tf, ratio, longer);
      }
    }
  }

  lemma TermFavours(w: Okapi, st: TextState, p: Postings, t: string, a: RecordId, b: RecordId)
    requires st.docLengths != map[] && Proper(w) && |Posting(p, t)| <= |st.docLengths|
    requires At(st.docLengths, a) <= At(st.docLengths, b) && (w.b < 1.0 || At(st.docLengths, a) > 0)
    requires Tf(p, t, a) >= Tf(p, t, b)
    ensures TermWeight(w, st, p, t, b) <= TermWeight(w, st, p, t, a)
    ensures Favours(w, st, p, t, a, b) ==> TermWeight(w, st, p, t, b) < TermWeight(w, st, p, t, a)
  {
    hide Okapi.Weigh, LengthRatio, TermWeight, Proper, At, Tf;
    TermWeightIs(w, st, p, t, a);
    TermWeightIs(w, st, p, t, b);
    RatioGrows(st, a, b);
    WeighsAtLeast(w, |st.docLengths|, |Posting(p, t)|, Tf(p, t, b), Tf(p, t, a), LengthRatio(st, a), LengthRatio(st, b));
  }

  /** Document by document, the scores add up the same way. */
  lemma {:induction false} ScoreFavours(w: Okapi, st: TextState, p: Postings, terms: seq<string>, a: RecordId, b: RecordId)
    requires st.docLengths != map[] && Proper(w) && FrequenciesFit(st, p, terms)
    requires At(st.docLengths, a) <= At(st.docLengths, b) && (w.b < 1.0 || At(st.docLengths, a) > 0)
    requires forall t :: t in terms ==> Tf(p, t, a) >= Tf(p, t, b)
    ensures Score(w, st, p, terms, b) <= Score(w, st, p, terms, a)
    ensures (exists t :: t in terms && Favours(w, st, p, t, a, b)) ==> Score(w, st, p, terms, b) < Score(w, st, p, terms, a)
  {
    hide Contribution, Contains, Favours, Proper, At, Tf;
    if terms != [] {
      var front, t := terms[..|terms| - 1], terms[|terms| - 1];
      assert terms == front + [t] && t in terms;
      ScoreFavours(w, st, p, front, a, b);
      TermFavours(w, st, p, t, a, b);
    }
  }

  /** A document that outdoes another scores strictly higher. */
  lemma OutdoingScoresMore(w: Okapi, st: TextState, p: Postings, terms: seq<string>, a: RecordId, b: RecordId)
    requires st.docLengths != map[] && Proper(w) && FrequenciesFit(st, p, terms) && Outdoes(w, st, p, terms, a, b)
    ensures Score(w, st, p, terms, b) < Score(w, st, p, terms, a)
  {
    hide Score, Favours, Proper, At, Tf;
    ScoreFavours(w, st, p, terms, a, b);
  }

  /** A term of fewer documents adds more to a document's score than one that occurs there as often. */
  lemma RarerTermAddsMore(w: Okapi, st: TextState, p: Postings, rare: string, common: string, id: RecordId)
    requires st.docLengths != map[] && Proper(w) && |Posting(p, rare)| < |Posting(p, common)| <= |st.docLengths|
    requires Tf(p, rare, id) == Tf(p, common, id) > 0
    ensures Contribution(w, st, p, common, id) < Contribution(w, st, p, rare, id)
  {
    hide Okapi.Weigh, LengthRatio, Proper;
    RatioGrows(st, id, id);
    RarerWeighsMore(w, |st.docLengths|, |Posting(p, rare)|, |Posting(p, common)|, Tf(p, rare, id), LengthRatio(st, id));
  }

  // ---- answers ----

  /** Every term under AND semantics, some term under OR. */
  predicate Eligible(p: Postings, terms: seq<string>, requireAll: bool, id: RecordId) {
    if requireAll then HasAll(p, terms, id) else HasSome(p, terms, id)
  }

  predicate HasSome(p: Postings, terms: seq<string>, id: RecordId) {
    exists t :: t in terms && Contains(p, t, id)
  }

  lemma {:induction false} MatchedSome(p: Postings, terms: seq<string>, id: RecordId)
    ensures Matched(p, terms, id) > 0 <==> HasSome(p, terms, id)
  {
    hide Contains;
    if terms != [] {
      MatchedSome(p, terms[1..], id);
      assert forall t :: t in terms <==> t == terms[0] || t in terms[1..];
    }
  }

  predicate Above(a: (RecordId, real), b: (RecordId, real)) {
    a.1 > b.1 || (a.1 == b.1 && a.0 < b.0)
  }

  /** Exactly the eligible documents with their scores, by score descending and id ascending. */
  ghost predicate RankedAnswer(w: Okapi, st: TextState, p: Postings, terms: seq<string>, requireAll: bool, out: seq<(RecordId, real)>)
    requires st.docLengths != map[]
  {
    && (forall id: RecordId :: Listed(out, id) <==> Eligible(p, terms, requireAll, id))
    && (forall k :: 0 <= k < |out| ==> out[k].1 == Score(w, st, p, terms, out[k].0))
    && (forall j, k :: 0 <= j < k < |out| ==> Above(out[j], out[k]))
  }

  function RankScore(id: RecordId, score: real): Ranked<(RecordId, real)> {
    Ranked(-score, id, (id, score))
  }

  predicate Passes(requireAll: bool, need: nat, matched: nat) {
    !requireAll || matched == need
  }

  ghost predicate Kept(acc: map<RecordId, (real, nat)>, requireAll: bool, need: nat, todo: set<RecordId>, hits: seq<Ranked<(RecordId, real)>>) {
    && DistinctIds(hits)
    && (forall k :: 0 <= k < |hits| ==>
          && hits[k].id in acc && hits[k].id !in todo
          && Passes(requireAll, need, acc[hits[k].id].1) && hits[k] == RankScore(hits[k].id, acc[hits[k].id].0))
    && (forall id :: id in acc && id !in todo && Passes(requireAll, need, acc[id].1) ==> RankScore(id, acc[id].0) in hits)
  }

  method KeepHits(acc: map<RecordId, (real, nat)>, requireAll: bool, need: nat) returns (hits: seq<Ranked<(RecordId, real)>>)
    ensures Kept(acc, requireAll, need, {}, hits)
  {
    hits := [];
    var todo := acc.Keys;
    while todo != {}
      invariant todo <= acc.Keys && Kept(acc, requireAll, need, todo, hits)
      decreases |todo|
    {
      var id :| id in todo;
      if Passes(requireAll, need, acc[id].1) {
        hits := hits + [RankScore(id, acc[id].0)];
      }
      todo := todo - {id};
    }
  }

  lemma KeptIsAnswer(w: Okapi, st: TextState, p: Postings, terms: seq<string>, requireAll: bool,
                     acc: map<RecordId, (real, nat)>, hits: seq<Ranked<(RecordId, real)>>)
    requires st.docLengths != map[] && terms != [] && Gathered(w, st, p, terms, acc) && Kept(acc, requireAll, |terms|, {}, hits)
    ensures RankedAnswer(w, st, p, terms, requireAll, Items(Sort(hits)))
  {
    hide Sort, Matched, Score, Contains, HasAll, HasSome;
    var sorted := Sort(hits);
    var out := Items(sorted);
    DistinctPermutes(hits, sorted);
    forall id: RecordId ensures Eligible(p, terms, requireAll, id) <==> id in acc && Passes(requireAll, |terms|, acc[id].1) {
      EligibleIsMatched(p, terms, requireAll, id);
    }
    forall k | 0 <= k < |out|
      ensures out[k].1 == Score(w, st, p, terms, out[k].0) && Eligible(p, terms, requireAll, out[k].0)
      ensures sorted[k] == RankScore(out[k].0, out[k].1)
    {
      InOther(sorted, hits, sorted[k]);
    }
    forall id: RecordId ensures Listed(out, id) <==> Eligible(p, terms, requireAll, id) {
      if Eligible(p, terms, requireAll, id) {
        var h := RankScore(id, acc[id].0);
        InOther(hits, sorted, h);
        var k :| 0 <= k < |sorted| && sorted[k] == h;
        assert out[k].0 == id;
      }
    }
    forall j, k | 0 <= j < k < |out| ensures Above(out[j], out[k]) {
      assert Le(sorted[j], sorted[k]) && sorted[j].id != sorted[k].id;
    }
  }

  lemma EligibleIsMatched(p: Postings, terms: seq<string>, requireAll: bool, id: RecordId)
    requires terms != []
    ensures Eligible(p, terms, requireAll, id)
            <==> Matched(p, terms, id) > 0 && Passes(requireAll, |terms|, Matched(p, terms, id))
  {
    hide Matched, Contains;
    MatchedAll(p, terms, id);
    MatchedSome(p, terms, id);
  }

  /** What a search answers: nothing for an empty query or an empty corpus. */
  ghost predicate Bm25Answer(w: Okapi, st: TextState, p: Postings, terms: seq<string>, requireAll: bool, out: seq<(RecordId, real)>) {
    if terms == [] || st.docLengths == map[] then out == [] else RankedAnswer(w, st, p, terms, requireAll, out)
  }

  /** Whoever outdoes another in the answer stands before it. */
  ghost predicate BetterFirst(w: Okapi, st: TextState, p: Postings, terms: seq<string>, out: seq<(RecordId, real)>) {
    forall j, k :: 0 <= j < |out| && 0 <= k < |out| && Outdoes(w, st, p, terms, out[j].0, out[k].0) ==> j < k
  }

  lemma AnswersPutBetterFirst(w: Okapi, st: TextState, p: Postings, terms: seq<string>, requireAll: bool, out: seq<(RecordId, real)>)
    requires Proper(w) && FrequenciesFit(st, p, terms) && Bm25Answer(w, st, p, terms, requireAll, out)
    ensures BetterFirst(w, st, p, terms, out)
  {
    hide Outdoes, Proper, FrequenciesFit, Score, Eligible;
    if out != [] {
      forall j, k | 0 <= j < |out| && 0 <= k < |out| && Outdoes(w, st, p, terms, out[j].0, out[k].0) ensures j < k {
        OutdoingScoresMore(w, st, p, terms, out[j].0, out[k].0);
      }
    }
  }

  /** `bm25_over` */
  method Bm25Over(w: Okapi, st: TextState, p: Postings, terms: seq<string>, requireAll: bool)
    returns (out: seq<(RecordId, real)>)
    ensures Bm25Answer(w, st, p, terms, requireAll, out)
    ensures Proper(w) && FrequenciesFit(st, p, terms) ==> BetterFirst(w, st, p, terms, out)
  {
    hide Gathered, RankedAnswer, Sort, Kept, Proper, FrequenciesFit, BetterFirst;
    if terms == [] || |st.docLengths| == 0 {
      NoAnswer(w, st, p, terms);
      return [];
    }
    var acc: map<RecordId, (real, nat)> := map[];
    var i := 0;
    NothingGathered(w, st, p);
    assert terms[..0] == [];
    while i < |terms|
      invariant 0 <= i <= |terms| && Gathered(w, st, p, terms[..i], acc)
    {
      assert terms[..i + 1] == terms[..i] + [terms[i]];
      acc := GatherTerm(w, st, p, terms[..i], terms[i], acc);
      i := i + 1;
    }
    assert terms[..i] == terms;
    var hits := KeepHits(acc, requireAll, |terms|);
    KeptIsAnswer(w, st, p, terms, requireAll, acc, hits);
    out := Items(Sort(hits));
    if Proper(w) && FrequenciesFit(st, p, terms) {
      AnswersPutBetterFirst(w, st, p, terms, requireAll, out);
    }
  }

  lemma NoAnswer(w: Okapi, st: TextState, p: Postings, terms: seq<string>)
    ensures BetterFirst(w, st, p, terms, [])
  {
  }

  lemma NothingGathered(w: Okapi, st: TextState, p: Postings)
    requires st.docLengths != map[]
    ensures Gathered(w, st, p, [], map[])
  {
  }

  // ---- every search has an answer ----

  ghost function PostedIds(p: Postings): set<RecordId> {
    set t, id | t in p && id in p[t] :: id
  }

  lemma SomeGathering(w: Okapi, st: TextState, p: Postings, terms: seq<string>) returns (acc: map<RecordId, (real, nat)>)
    requires st.docLengths != map[]
    ensures Gathered(w, st, p, terms, acc)
  {
    hide Score, Matched;
    acc := map id | id in PostedIds(p) && Matched(p, terms, id) > 0 :: (Score(w, st, p, terms, id), Matched(p, terms, id));
    forall id: RecordId | Matched(p, terms, id) > 0 ensures id in PostedIds(p) {
      MatchedSome(p, terms, id);
    }
  }

  lemma {:induction false} SomeHits(acc: map<RecordId, (real, nat)>, requireAll: bool, need: nat, todo: set<RecordId>)
    returns (hits: seq<Ranked<(RecordId, real)>>)
    requires todo <= acc.Keys
    ensures Kept(acc, requireAll, need, todo, hits)
    decreases acc.Keys - todo
  {
    if acc.Keys - todo == {} {
      assert forall id :: id in acc ==> id in todo || id in acc.Keys - todo;
      hits := [];
    } else {
      var id :| id in acc.Keys - todo;
      hits := SomeHits(acc, requireAll, need, todo + {id});
      if Passes(requireAll, need, acc[id].1) {
        hits := hits + [RankScore(id, acc[id].0)];
      }
    }
  }

  lemma SomeAnswer(w: Okapi, st: TextState, p: Postings, terms: seq<string>, requireAll: bool) returns (out: seq<(RecordId, real)>)
    ensures Bm25Answer(w, st, p, terms, requireAll, out)
  {
    hide Gathered, Kept, RankedAnswer, Sort;
    if terms == [] || st.docLengths == map[] {
      out := [];
    } else {
      var acc := SomeGathering(w, st, p, terms);
      var hits := SomeHits(acc, requireAll, |terms|, {});
      KeptIsAnswer(w, st, p, terms, requireAll, acc, hits);
      out := Items(Sort(hits));
    }
  }

  /** The index and the terms determine the answer, whatever order hash maps iterate in. */
  lemma RankedAnswerUnique(w: Okapi, st: TextState, p: Postings, terms: seq<string>, requireAll: bool,
                           a: seq<(RecordId, real)>, b: seq<(RecordId, real)>)
    requires st.docLengths != map[]
    requires RankedAnswer(w, st, p, terms, requireAll, a) && RankedAnswer(w, st, p, terms, requireAll, b)
    ensures a == b
  {
    AnswerWithin(w, st, p, terms, requireAll, a, b);
    AnswerWithin(w, st, p, terms, requireAll, b, a);
    ListedOnce(Above, a, b);
  }

  lemma AnswerWithin(w: Okapi, st: TextState, p: Postings, terms: seq<string>, requireAll: bool,
                     a: seq<(RecordId, real)>, b: seq<(RecordId, real)>)
    requires st.docLengths != map[]
    requires RankedAnswer(w, st, p, terms, requireAll, a) && RankedAnswer(w, st, p, terms, requireAll, b)
    ensures Elements(a) <= Elements(b)
  {
    hide Eligible, Score;
    forall x | x in a ensures x in b {
      assert Listed(a, x.0);
      var k :| 0 <= k < |b| && b[k].0 == x.0;
      assert b[k] == x;
    }
  }
}
