/** Accent folding under the `ascii_fold` preset (crates/auradb-index/src/analyzer.rs): what it leaves,
    what it replaces, and that queries differing only in accents answer alike. */
module Folding {
  import opened Sequences
  import opened Wrappers
  import opened Analyzer
  import opened TextIndex
  import opened TextSearch

  predicate IsAscii(s: string) {
    forall i :: 0 <= i < |s| ==> s[i] as int < 0x80
  }

  lemma FoldCharIsAscii(c: char)
    ensures c as int < 0x80 ==> FoldChar(c) == [c]
    ensures FoldChar(c) == [c] || (IsAscii(FoldChar(c)) && 1 <= |FoldChar(c)| <= 2)
  {
  }

  lemma {:induction false} FoldConcat(a: string, b: string)
    ensures Fold(a + b) == Fold(a) + Fold(b)
  {
    hide FoldChar;
    if a == [] {
      assert a + b == b;
    } else {
      FoldConcat(a[1..], b);
      assert (a + b)[0] == a[0] && (a + b)[1..] == a[1..] + b;
      assert FoldChar(a[0]) + (Fold(a[1..]) + Fold(b)) == FoldChar(a[0]) + Fold(a[1..]) + Fold(b);
    }
  }

  /** ASCII text stays as it is. */
  lemma {:induction false} FoldKeepsAscii(s: string)
    requires IsAscii(s)
    ensures Fold(s) == s
  {
    hide FoldChar;
    if s != [] {
      FoldCharIsAscii(s[0]);
      FoldKeepsAscii(s[1..]);
      assert s == [s[0]] + s[1..];
    }
  }

  /** Folding twice is folding once. */
  lemma {:induction false} FoldIsIdempotent(s: string)
    ensures Fold(Fold(s)) == Fold(s)
  {
    hide FoldChar;
    if s != [] {
      FoldIsIdempotent(s[1..]);
      FoldConcat(FoldChar(s[0]), Fold(s[1..]));
      FoldCharIsAscii(s[0]);
      if FoldChar(s[0]) == [s[0]] {
        assert Fold([s[0]]) == FoldChar(s[0]) + Fold([s[0]][1..]) == [s[0]];
      } else {
        FoldKeepsAscii(FoldChar(s[0]));
      }
    }
  }

  /** An accented letter folds to the letter under the accent, a ligature to its two letters. */
  lemma FoldedFrontVowels(c: char)
    ensures c in "àáâãäåāăą" ==> Fold([c]) == "a"
    ensures c in "èéêëēĕėęě" ==> Fold([c]) == "e"
    ensures c in "ìíîïīĭįı" ==> Fold([c]) == "i"
  {
    hide FlatMap;
    FoldOne(c);
  }

  lemma FoldedBackVowels(c: char)
    ensures c in "òóôõöøōŏő" ==> Fold([c]) == "o"
    ensures c in "ùúûüūŭůűų" ==> Fold([c]) == "u"
  {
    hide FlatMap;
    FoldOne(c);
  }

  lemma FoldedConsonants(c: char)
    ensures c in "çćĉċč" ==> Fold([c]) == "c"
    ensures c in "ñńņň" ==> Fold([c]) == "n"
  {
    hide FlatMap;
    FoldOne(c);
  }

  lemma FoldedRest(c: char)
    ensures c in "ýÿ" ==> Fold([c]) == "y"
    ensures c == 'ß' ==> Fold([c]) == "ss"
    ensures c == 'æ' ==> Fold([c]) == "ae"
    ensures c == 'œ' ==> Fold([c]) == "oe"
  {
    hide FlatMap;
    FoldOne(c);
  }

  lemma FoldOne(c: char)
    ensures Fold([c]) == FoldChar(c)
  {
    hide FoldChar;
    assert FlatMap(FoldChar, [c][1..]) == [];
  }

  /** Queries whose tokens differ only in accents have the same terms, so they answer alike. */
  lemma AccentsDoNotMatter(ct: CharTable, docs: Docs, one: string, other: string, x: seq<(RecordId, nat)>, y: seq<(RecordId, nat)>)
    requires MapSeq(Fold, Tokenize(ct, one)) == MapSeq(Fold, Tokenize(ct, other))
    requires AnalyzedAnswer(ct, AsciiFold, one, docs, x) && AnalyzedAnswer(ct, AsciiFold, other, docs, y)
    ensures x == y
  {
    hide Tokenize, Fold, Answers, IndexOf;
    var terms := Dedup(IndexTerms(ct, AsciiFold, one));
    if terms != [] {
      AnswersUnique(IndexOf(docs).postings, terms, x, y);
    }
  }
}
