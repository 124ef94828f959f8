/** English plurals under the `english_basic` preset (crates/auradb-index/src/analyzer.rs): which
    plurals share their singular's term, and that searching for one finds the other. */
module Plurals {
  import opened Wrappers
  import opened Sums
  import opened Analyzer
  import opened TextIndex
  import opened TextSearch

  /** Nothing but the letters a to z. */
  ghost predicate Lower(w: string) {
    forall i :: 0 <= i < |w| ==> 'a' <= w[i] <= 'z'
  }

  /** Ends in the sound that takes `es`. */
  ghost predicate Hisses(w: string) {
    |w| >= 2 && (w[|w| - 1] in "sxz" || (w[|w| - 1] == 'h' && w[|w| - 2] in "cs"))
  }

  /** Ends in an s that the fold takes for a plural's. */
  ghost predicate BareS(t: string) {
    |t| >= 4 && t[|t| - 1] == 's' && t[|t| - 2] !in "suin"
  }

  // ---- endings ----

  lemma EndsInOne(t: string, a: char)
    ensures EndsWith(t, [a]) <==> |t| >= 1 && t[|t| - 1] == a
  {
    if |t| >= 1 {
      assert t[|t| - 1..] == [t[|t| - 1]];
    }
  }

  lemma EndsInTwo(t: string, a: char, b: char)
    ensures EndsWith(t, [a, b]) <==> |t| >= 2 && t[|t| - 2] == a && t[|t| - 1] == b
  {
    if |t| >= 2 {
      assert t[|t| - 2..] == [t[|t| - 2], t[|t| - 1]];
    }
  }

  lemma EndsInThree(t: string, a: char, b: char, c: char)
    ensures EndsWith(t, [a, b, c]) <==> |t| >= 3 && t[|t| - 3] == a && t[|t| - 2] == b && t[|t| - 1] == c
  {
    if |t| >= 3 {
      assert t[|t| - 3..] == [t[|t| - 3], t[|t| - 2], t[|t| - 1]];
    }
  }

  lemma SibilantIsHissing(w: string)
    requires |w| >= 2
    ensures Sibilant(w) <==> Hisses(w)
  {
    hide EndsWith;
    EndsInOne(w, 's');
    EndsInOne(w, 'x');
    EndsInOne(w, 'z');
    EndsInTwo(w, 'c', 'h');
    EndsInTwo(w, 's', 'h');
  }

  lemma PluralEndings(t: string)
    requires |t| >= 4
    ensures EndsWith(t, "s") && !EndsWith(t, "ss") && !EndsWith(t, "us") && !EndsWith(t, "is") && !EndsWith(t, "ns") <==> BareS(t)
    ensures EndsWith(t, "ies") <==> t[|t| - 3] == 'i' && t[|t| - 2] == 'e' && t[|t| - 1] == 's'
    ensures EndsWith(t, "es") <==> t[|t| - 2] == 'e' && t[|t| - 1] == 's'
  {
    hide EndsWith;
    EndsInOne(t, 's');
    EndsInTwo(t, 's', 's');
    EndsInTwo(t, 'u', 's');
    EndsInTwo(t, 'i', 's');
    EndsInTwo(t, 'n', 's');
    EndsInTwo(t, 'e', 's');
    EndsInThree(t, 'i', 'e', 's');
  }

  // ---- the fold ----

  /** The fold leaves a token alone exactly when it is short, has other characters, or does not end in
      a plural's s: protected endings stay. */
  lemma FoldedExactly(t: string)
    ensures FoldPlural(t) == t <==> !(Lower(t) && BareS(t))
  {
    hide EndsWith, Sibilant;
    if |t| >= 4 {
      PluralEndings(t);
    }
  }

  /** `policies` and `policy` have one term. */
  lemma PluralOfY(w: string)
    requires Lower(w) && |w| >= 2
    ensures FoldPlural(w + "ies") == w + "y" == FoldPlural(w + "y")
  {
    hide EndsWith, Sibilant;
    var p := w + "ies";
    PluralEndings(p);
    assert p[..|p| - 3] == w;
    FoldedExactly(w + "y");
  }

  /** `boxes` has the term `box`; the singular keeps that term exactly when it does not look like a plural
      itself, as `bias` does. */
  lemma PluralOfHiss(w: string)
    requires Lower(w) && Hisses(w)
    ensures FoldPlural(w + "es") == w
    ensures FoldPlural(w + "es") == FoldPlural(w) <==> !BareS(w)
  {
    hide EndsWith, Sibilant;
    var p := w + "es";
    PluralEndings(p);
    assert p[..|p| - 2] == w;
    SibilantIsHissing(w);
    assert p[|p| - 3] == w[|w| - 1];
    FoldedExactly(w);
  }

  /** A word to which a plain `s` may be added and taken away again: no protected ending, not `ie` after two
      letters, not `e` after a hiss. */
  ghost predicate TakesS(w: string)
    requires |w| >= 3
  {
    && w[|w| - 1] !in "suin"
    && !(|w| >= 4 && w[|w| - 2] == 'i' && w[|w| - 1] == 'e')
    && !(w[|w| - 1] == 'e' && Hisses(w[..|w| - 1]))
  }

  /** `backups` and `backup` have one term, and a word with a plain `s` shares its term with the word
      without it exactly when that word takes one. */
  lemma PluralOfPlain(w: string)
    requires Lower(w) && |w| >= 3
    ensures TakesS(w) ==> FoldPlural(w + "s") == w == FoldPlural(w)
    ensures FoldPlural(w + "s") == FoldPlural(w) <==> TakesS(w)
  {
    hide EndsWith, Sibilant, Hisses;
    var p := w + "s";
    PluralEndings(p);
    assert p[..|p| - 1] == w && p[..|p| - 2] == w[..|w| - 1] && p[..|p| - 3] == w[..|w| - 2];
    SibilantIsHissing(w[..|w| - 1]);
    FoldedExactly(w);
    FoldIsShort(w);
    NoIBeforeHiss(w[..|w| - 1]);
  }

  lemma NoIBeforeHiss(w: string)
    requires |w| >= 2
    ensures Hisses(w) ==> w[|w| - 1] != 'i'
  {
  }

  lemma FoldIsShort(t: string)
    ensures |FoldPlural(t)| <= |t|
    ensures FoldPlural(t) != t ==> |t| >= 4 && t[|t| - 1] == 's'
  {
    hide EndsWith, Sibilant;
    FoldedExactly(t);
  }

  /** The fold does collapse some singulars, and parts some plurals from their word. */
  lemma SomePluralsPart()
    ensures FoldPlural("bias") == "bia" && FoldPlural("biases") == "bias"
    ensures FoldPlural("house") == "house" && FoldPlural("houses") != "house"
  {
    hide FoldPlural;
    assert "bia" + "s" == "bias" && "bias" + "es" == "biases" && "house" + "s" == "houses";
    PluralOfPlain("bia");
    PluralOfHiss("bias");
    assert "house"[..4] == "hous";
    PluralOfPlain("house");
    FoldedExactly("house");
  }

  // ---- terms ----

  /** A plural that shares its singular's term: by the three rules, the three ways to form one. */
  ghost predicate RegularPlural(plural: string, word: string) {
    && Lower(word)
    && ( || (exists w :: |w| >= 2 && Lower(w) && word == w + "y" && plural == w + "ies")
         || (Hisses(word) && !BareS(word) && plural == word + "es")
         || (|word| >= 3 && TakesS(word) && plural == word + "s"))
  }

  lemma NoPluralStopword(t: string)
    requires IsStopword(t) && |t| >= 4 && t[|t| - 1] == 's'
    ensures t == "this"
  {
    var i :| 0 <= i < |ENGLISH_STOPWORDS| && ENGLISH_STOPWORDS[i] == t;
  }

  lemma PluralSharesTerm(plural: string, word: string)
    requires RegularPlural(plural, word)
    ensures FoldPlural(plural) == word == FoldPlural(word)
    ensures EnglishTerm(plural) == [word] && EnglishTerm(word) == if IsStopword(word) then [] else [word]
  {
    hide FoldPlural, IsStopword, Hisses;
    if Hisses(word) && !BareS(word) && plural == word + "es" {
      PluralOfHiss(word);
      FoldedExactly(word);
    } else if |word| >= 3 && TakesS(word) && plural == word + "s" {
      PluralOfPlain(word);
    } else {
      var w :| |w| >= 2 && Lower(w) && word == w + "y" && plural == w + "ies";
      PluralOfY(w);
    }
    PluralLooks(plural, word);
    if IsStopword(plural) {
      NoPluralStopword(plural);
    }
  }

  lemma PluralLooks(plural: string, word: string)
    requires RegularPlural(plural, word)
    ensures |plural| >= 4 && plural[|plural| - 1] == 's' && plural != "this"
  {
    assert "this"[|"this"| - 2] == 'i';
  }

  // ---- queries ----

  lemma FirstTerms(tokens: seq<string>)
    ensures EnglishTerms([]) == []
    ensures tokens != [] ==> EnglishTerms(tokens) == EnglishTerm(tokens[0]) + EnglishTerms(tokens[1..])
  {
    hide EnglishTerm;
  }

  lemma {:induction false} TermsOfConcat(a: seq<string>, b: seq<string>)
    ensures EnglishTerms(a + b) == EnglishTerms(a) + EnglishTerms(b)
  {
    hide EnglishTerm, EnglishTerms;
    FirstTerms(a);
    if a == [] {
      assert a + b == b;
    } else {
      var head, x, y := EnglishTerm(a[0]), EnglishTerms(a[1..]), EnglishTerms(b);
      TermsOfConcat(a[1..], b);
      FirstTerms(a + b);
      assert (a + b)[0] == a[0] && (a + b)[1..] == a[1..] + b;
      assert head + (x + y) == head + x + y;
    }
  }

  lemma OneTermOf(t: string)
    ensures EnglishTerms([t]) == EnglishTerm(t)
  {
    hide EnglishTerm;
    assert EnglishTerms([t]) == EnglishTerm(t) + EnglishTerms([t][1..]);
  }

  /** The two queries differ in one token: where the one has the plural, the other has the word. */
  ghost predicate OnePlural(ct: CharTable, one: string, other: string, a: seq<string>, plural: string, word: string, b: seq<string>) {
    Tokenize(ct, one) == a + [plural] + b && Tokenize(ct, other) == a + [word] + b
  }

  lemma PluralQuery(ct: CharTable, one: string, other: string, a: seq<string>, plural: string, word: string, b: seq<string>)
    requires OnePlural(ct, one, other, a, plural, word, b) && RegularPlural(plural, word) && !IsStopword(word)
    ensures IndexTerms(ct, EnglishBasic, one) == IndexTerms(ct, EnglishBasic, other)
  {
    hide EnglishTerm, Tokenize, RegularPlural, IsStopword;
    PluralSharesTerm(plural, word);
    OneTermOf(plural);
    OneTermOf(word);
    TermsOfConcat(a, [plural]);
    TermsOfConcat(a + [plural], b);
    TermsOfConcat(a, [word]);
    TermsOfConcat(a + [word], b);
  }

  /** A query with the plural answers as the query with the word, over any documents. */
  lemma PluralAnswersAlike(ct: CharTable, docs: Docs, one: string, other: string, a: seq<string>, plural: string, word: string, b: seq<string>,
                           x: seq<(RecordId, nat)>, y: seq<(RecordId, nat)>)
    requires OnePlural(ct, one, other, a, plural, word, b) && RegularPlural(plural, word) && !IsStopword(word)
    requires AnalyzedAnswer(ct, EnglishBasic, one, docs, x) && AnalyzedAnswer(ct, EnglishBasic, other, docs, y)
    ensures x == y
  {
    hide IndexTerms, RegularPlural, IsStopword, OnePlural, Answers, IndexOf;
    PluralQuery(ct, one, other, a, plural, word, b);
    var terms := Dedup(IndexTerms(ct, EnglishBasic, one));
    if terms != [] {
      AnswersUnique(IndexOf(docs).postings, terms, x, y);
    }
  }

  // ---- documents ----

  lemma {:induction false} MappedHolds(tokens: seq<string>, word: string)
    ensures word in MapTokens(EnglishBasic, tokens) <==> exists t :: t in tokens && EnglishTerm(t) == [word]
  {
    hide EnglishTerm;
    if tokens != [] {
      MappedHolds(tokens[1..], word);
      EnglishTermIsOne(tokens[0]);
      assert forall t :: t in tokens <==> t == tokens[0] || t in tokens[1..];
    }
  }

  lemma EnglishTermIsOne(t: string)
    ensures |EnglishTerm(t)| <= 1
  {
    hide IsStopword, FoldPlural;
  }

  lemma PostedIffHeld(docs: Docs, t: string, id: RecordId)
    ensures Contains(IndexOf(docs).postings, t, id) <==> id in docs && t in docs[id]
  {
    hide IndexOf, TotalOf, Count;
    IndexReflects(docs);
    assert Tf(IndexOf(docs).postings, t, id) == DocCount(docs, t, id);
    if id in docs {
      CountIn(docs[id], t);
    }
  }

  /** Searching for a word finds exactly the documents that hold a token with its term: those with the word and
      those with a plural of it alike. */
  lemma WordFindsPlurals(ct: CharTable, docs: Docs, query: string, word: string, out: seq<(RecordId, nat)>, id: RecordId)
    requires Tokenize(ct, query) == [word] && EnglishTerm(word) == [word]
    requires AnalyzedAnswer(ct, EnglishBasic, query, MapDocs(EnglishBasic, docs), out)
    ensures Listed(out, id) <==> id in docs && exists t :: t in docs[id] && EnglishTerm(t) == [word]
    ensures id in docs && word in docs[id] ==> Listed(out, id)
    ensures id in docs && (exists p :: p in docs[id] && RegularPlural(p, word)) ==> Listed(out, id)
  {
    hide IndexOf, EnglishTerm, RegularPlural, Tokenize, TfSum;
    var mapped := MapDocs(EnglishBasic, docs);
    OneTermOf(word);
    DedupOne(word);
    PostedIffHeld(mapped, word, id);
    if id in docs {
      MappedHolds(docs[id], word);
      if p :| p in docs[id] && RegularPlural(p, word) {
        PluralSharesTerm(p, word);
      }
    }
  }

  lemma DedupOne(t: string)
    ensures Dedup([t]) == [t]
  {
    assert [t][1..] == [] && Dedup([]) == [];
  }
}
