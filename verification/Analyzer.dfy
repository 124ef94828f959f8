/** Tokenization and the query-time analyzers (crates/auradb-index/src/analyzer.rs). */
module Analyzer {
  import opened Sequences
  import opened Wrappers

  /** Character classes and case folding, left abstract. */
  datatype CharTable = CharTable(isAlphanumeric: char -> bool, isWhitespace: char -> bool, lowercase: string -> string)

  datatype Preset = Default | Simple | AsciiFold | Keyword | EnglishBasic
  {
    predicate IsPerToken() {
      !Keyword?
    }
  }

  /** A token with the byte span of the input it came from. */
  datatype Token = Token(text: string, start: nat, end: nat)

  /** The bytes a character takes in UTF-8. */
  function Width(c: char): nat {
    var n := c as int;
    if n < 0x80 then 1 else if n < 0x800 then 2 else if n < 0x1_0000 then 3 else 4
  }

  /** How many code points fit the payload of a UTF-8 sequence: 7 bits of one byte, else 5w + 1 of w bytes. */
  ghost function Capacity(w: nat): nat {
    if w == 0 then 0 else if w == 1 then PowerOfTwo(7) else PowerOfTwo(5 * w + 1)
  }

  ghost function PowerOfTwo(n: nat): nat {
    if n == 0 then 1 else 2 * PowerOfTwo(n - 1)
  }

  /** The width is the least that holds the character. */
  lemma WidthIsLeast(c: char)
    ensures 1 <= Width(c) <= 4 && Capacity(Width(c) - 1) <= c as int < Capacity(Width(c))
  {
    assert PowerOfTwo(7) == 0x80 && PowerOfTwo(11) == 0x800;
    assert PowerOfTwo(16) == 32 * PowerOfTwo(11);
    assert PowerOfTwo(21) == 32 * PowerOfTwo(16);
  }

  function Bytes(s: string): nat {
    if s == [] then 0 else Bytes(s[..|s| - 1]) + Width(s[|s| - 1])
  }

  /** Byte offsets keep the order of character positions. */
  lemma {:induction false} BytesGrow(text: string, a: nat, b: nat)
    requires a < b <= |text|
    ensures Bytes(text[..a]) < Bytes(text[..b])
    decreases b
  {
    assert text[..b][..b - 1] == text[..b - 1];
    if a < b - 1 {
      BytesGrow(text, a, b - 1);
    }
  }

  function Texts(tokens: seq<Token>): (r: seq<string>)
    ensures |r| == |tokens| && forall i :: 0 <= i < |tokens| ==> r[i] == tokens[i].text
  {
    seq(|tokens|, i requires 0 <= i < |tokens| => tokens[i].text)
  }

  // ---- the engine tokenizer ----

  /** The pieces between separators, as `str::split` yields them: one more than there are separators. */
  function SplitPieces(ct: CharTable, text: string): (r: seq<string>)
    ensures r != []
  {
    if text == [] then [[]]
    else
      var rest := SplitPieces(ct, text[1..]);
      if ct.isAlphanumeric(text[0]) then [[text[0]] + rest[0]] + rest[1..]
      else [[]] + rest
  }

  function NonEmpty(pieces: seq<string>): seq<string> {
    if pieces == [] then []
    else (if pieces[0] == [] then [] else [pieces[0]]) + NonEmpty(pieces[1..])
  }

  /** The runs of alphanumeric characters, in order. */
  function Runs(ct: CharTable, text: string): seq<string> {
    NonEmpty(SplitPieces(ct, text))
  }

  /** `tokenize`. */
  function Tokenize(ct: CharTable, text: string): seq<string> {
    MapSeq(ct.lowercase, Runs(ct, text))
  }

  // ---- folding ----

  /** One character of the fixed ASCII-folding table. */
  function FoldChar(c: char): string {
    if c in "àáâãäåāăą" then "a"
    else if c in "çćĉċč" then "c"
    else if c in "èéêëēĕėęě" then "e"
    else if c in "ìíîïīĭįı" then "i"
    else if c in "ñńņň" then "n"
    else if c in "òóôõöøōŏő" then "o"
    else if c in "ùúûüūŭůűų" then "u"
    else if c in "ýÿ" then "y"
    else if c == 'ß' then "ss"
    else if c == 'æ' then "ae"
    else if c == 'œ' then "oe"
    else [c]
  }

  function Fold(s: string): string {
    FlatMap(FoldChar, s)
  }

  function FlatMap(f: char -> string, s: string): string {
    if s == [] then [] else f(s[0]) + FlatMap(f, s[1..])
  }

  lemma {:induction false} FlatMapSnoc(f: char -> string, a: string, c: char)
    ensures FlatMap(f, a + [c]) == FlatMap(f, a) + f(c)
  {
    if a == [] {
      assert a + [c] == [c];
      assert FlatMap(f, [c]) == f(c) + [];
    } else {
      FlatMapSnoc(f, a[1..], c);
      assert (a + [c])[0] == a[0] && (a + [c])[1..] == a[1..] + [c];
      assert f(a[0]) + (FlatMap(f, a[1..]) + f(c)) == f(a[0]) + FlatMap(f, a[1..]) + f(c);
    }
  }

  /** `ascii_fold`, as the source's loop builds it. */
  method FoldText(s: string) returns (out: string)
    ensures out == Fold(s)
  {
    hide FoldChar;
    out := [];
    var i := 0;
    while i < |s|
      invariant 0 <= i <= |s| && out == Fold(s[..i])
    {
      FlatMapSnoc(FoldChar, s[..i], s[i]);
      assert s[..i + 1] == s[..i] + [s[i]];
      out := out + FoldChar(s[i]);
      i := i + 1;
    }
    assert s[..i] == s;
  }

  const ENGLISH_STOPWORDS: seq<string> := [
    "a", "an", "and", "are", "as", "at", "be", "but", "by", "for", "if", "in", "into", "is", "it",
    "no", "not", "of", "on", "or", "such", "that", "the", "their", "then", "there", "these",
    "they", "this", "to", "was", "will", "with"
  ]

  predicate IsStopword(token: string) {
    token in ENGLISH_STOPWORDS
  }

  predicate EndsWith(s: string, suffix: string) {
    |s| >= |suffix| && s[|s| - |suffix|..] == suffix
  }

  /** `fold_plural`: the first rule that applies. */
  function FoldPlural(token: string): string {
    var n := |token|;
    if n < 4 || !(forall i :: 0 <= i < n ==> 'a' <= token[i] <= 'z') then token
    else if EndsWith(token, "ies") && n - 3 >= 2 then token[..n - 3] + "y"
    else if EndsWith(token, "es") && n - 2 >= 2 && Sibilant(token[..n - 2]) then token[..n - 2]
    else if EndsWith(token, "s") && !EndsWith(token, "ss") && !EndsWith(token, "us")
            && !EndsWith(token, "is") && !EndsWith(token, "ns") then token[..n - 1]
    else token
  }

  predicate Sibilant(stem: string) {
    EndsWith(stem, "s") || EndsWith(stem, "x") || EndsWith(stem, "z") || EndsWith(stem, "ch") || EndsWith(stem, "sh")
  }

  // ---- the analyzers ----

  /** The split shared by the presets, with the span of every run. */
  method SplitAlphanumeric(ct: CharTable, text: string, fold: bool) returns (out: seq<Token>)
    ensures Texts(out) == (if fold then MapSeq(Fold, Tokenize(ct, text)) else Tokenize(ct, text))
    ensures Spans(ct, text, out, fold)
  {
    hide Runs, Fold, Analyzed, ClosedRuns, LastPiece, Spans, Scanned;
    out := [];
    var runStart: Option<nat> := None;
    var i := 0;
    ScanStart(ct, text, fold);
    while i < |text|
      invariant 0 <= i <= |text| && (runStart.Some? ==> runStart.value < i)
      invariant Scanned(ct, text, i, runStart, out, fold)
    {
      if ct.isAlphanumeric(text[i]) {
        ScanAlnum(ct, text, i, runStart, out, fold);
        if runStart.None? {
          runStart := Some(i);
        }
      } else {
        ScanOther(ct, text, i, runStart, out, fold);
        if runStart.Some? {
          out := out + [MakeToken(ct, text, runStart.value, i, fold)];
          runStart := None;
        }
      }
      i := i + 1;
    }
    ScanDone(ct, text, runStart, out, fold);
    if runStart.Some? {
      out := out + [MakeToken(ct, text, runStart.value, |text|, fold)];
    }
  }

  function MakeToken(ct: CharTable, text: string, start: nat, end: nat, fold: bool): Token
    requires start <= end <= |text|
  {
    var lowered := ct.lowercase(text[start..end]);
    Token(if fold then Fold(lowered) else lowered, Bytes(text[..start]), Bytes(text[..end]))
  }

  /** `t` is what the run of alphanumeric characters from `a` to `b` analyzes to, with its byte span. */
  ghost predicate RunToken(ct: CharTable, text: string, t: Token, fold: bool, a: nat, b: nat) {
    a < b <= |text| && AllAlnum(ct, text[a..b]) && Stems(ct, text, t, fold, a, b)
  }

  /** The token carries the lowercased characters from `a` to `b`, and the byte offsets where they start and end. */
  ghost predicate Stems(ct: CharTable, text: string, t: Token, fold: bool, a: nat, b: nat)
    requires a <= b <= |text|
  {
    && t.start == Bytes(text[..a]) && t.end == Bytes(text[..b])
    && t.text == (if fold then Fold(ct.lowercase(text[a..b])) else ct.lowercase(text[a..b]))
  }

  ghost predicate FromRun(ct: CharTable, text: string, t: Token, fold: bool) {
    exists a: nat, b: nat :: RunToken(ct, text, t, fold, a, b)
  }

  /** Every token is what its own span of the input analyzes to; spans are non-empty runs, in order, apart. */
  ghost predicate Spans(ct: CharTable, text: string, tokens: seq<Token>, fold: bool) {
    && (forall i :: 0 <= i < |tokens| ==> FromRun(ct, text, tokens[i], fold))
    && (forall i, j :: 0 <= i < j < |tokens| ==> tokens[i].end < tokens[j].start)
  }

  ghost predicate AllAlnum(ct: CharTable, s: string) {
    forall i :: 0 <= i < |s| ==> ct.isAlphanumeric(s[i])
  }

  function Analyzed(ct: CharTable, fold: bool, runs: seq<string>): seq<string> {
    if fold then MapSeq(Fold, MapSeq(ct.lowercase, runs)) else MapSeq(ct.lowercase, runs)
  }

  /** Where the scan may still cut: the start of the open run, else the current position. */
  function OpenAt(i: nat, runStart: Option<nat>): (r: nat)
    ensures r <= i
  {
    if runStart.Some? && runStart.value < i then runStart.value else i
  }

  ghost predicate EndBefore(tokens: seq<Token>, offset: nat) {
    forall k :: 0 <= k < |tokens| ==> tokens[k].end < offset
  }

  /** The scan so far: closed runs are in `out`, an open run starts at `runStart`. */
  ghost predicate Scanned(ct: CharTable, text: string, i: nat, runStart: Option<nat>, out: seq<Token>, fold: bool)
    requires i <= |text|
  {
    && Spans(ct, text, out, fold)
    && EndBefore(out, Bytes(text[..OpenAt(i, runStart)]))
    && (runStart.Some? ==> runStart.value < i && AllAlnum(ct, text[runStart.value..i]))
    && Texts(out) == Analyzed(ct, fold, ClosedRuns(ct, text[..i]))
    && LastPiece(ct, text[..i]) == (if runStart.Some? then text[runStart.value..i] else [])
  }

  function Closed(out: seq<Token>, ct: CharTable, text: string, i: nat, runStart: Option<nat>, fold: bool): seq<Token>
    requires i <= |text| && (runStart.Some? ==> runStart.value <= i)
  {
    if runStart.Some? then out + [MakeToken(ct, text, runStart.value, i, fold)] else out
  }

  lemma ScanStart(ct: CharTable, text: string, fold: bool)
    ensures Scanned(ct, text, 0, None, [], fold)
  {
    assert text[..0] == [];
  }

  lemma ScanAlnum(ct: CharTable, text: string, i: nat, runStart: Option<nat>, out: seq<Token>, fold: bool)
    requires i < |text| && ct.isAlphanumeric(text[i]) && Scanned(ct, text, i, runStart, out, fold)
    ensures Scanned(ct, text, i + 1, if runStart.None? then Some(i) else runStart, out, fold)
  {
    hide ClosedRuns, LastPiece, Analyzed, Spans;
    var start := if runStart.None? then i else runStart.value;
    assert text[..i + 1] == text[..i] + [text[i]];
    RunsSnoc(ct, text[..i], text[i]);
    assert text[start..i + 1] == text[start..i] + [text[i]];
  }

  lemma ScanOther(ct: CharTable, text: string, i: nat, runStart: Option<nat>, out: seq<Token>, fold: bool)
    requires i < |text| && !ct.isAlphanumeric(text[i]) && Scanned(ct, text, i, runStart, out, fold)
    ensures Scanned(ct, text, i + 1, None, Closed(out, ct, text, i, runStart, fold), fold)
  {
    hide ClosedRuns, LastPiece, Analyzed, Spans, Bytes;
    assert text[..i + 1] == text[..i] + [text[i]];
    RunsSnoc(ct, text[..i], text[i]);
    BytesGrow(text, i, i + 1);
    CloseRun(ct, text, i, runStart, out, fold);
  }

  /** Closing the open run completes the tokens of the scanned prefix. */
  lemma CloseRun(ct: CharTable, text: string, i: nat, runStart: Option<nat>, out: seq<Token>, fold: bool)
    requires i <= |text| && Scanned(ct, text, i, runStart, out, fold)
    ensures var out' := Closed(out, ct, text, i, runStart, fold);
            && Texts(out') == Analyzed(ct, fold, Runs(ct, text[..i]))
            && Spans(ct, text, out', fold)
            && EndBefore(out', Bytes(text[..i]) + 1)
  {
    hide ClosedRuns, LastPiece, Runs, Bytes, Fold;
    RunsSplit(ct, text[..i]);
    if runStart.Some? {
      var run := text[runStart.value..i];
      AnalyzedSnoc(ct, fold, ClosedRuns(ct, text[..i]), run);
      BytesGrow(text, runStart.value, i);
      assert RunToken(ct, text, MakeToken(ct, text, runStart.value, i, fold), fold, runStart.value, i);
    } else {
      assert ClosedRuns(ct, text[..i]) + [] == ClosedRuns(ct, text[..i]);
    }
  }

  lemma AnalyzedSnoc(ct: CharTable, fold: bool, runs: seq<string>, run: string)
    ensures var lowered := ct.lowercase(run);
            Analyzed(ct, fold, runs + [run]) == Analyzed(ct, fold, runs) + [if fold then Fold(lowered) else lowered]
  {
  }

  lemma ScanDone(ct: CharTable, text: string, runStart: Option<nat>, out: seq<Token>, fold: bool)
    requires Scanned(ct, text, |text|, runStart, out, fold)
    ensures var out' := Closed(out, ct, text, |text|, runStart, fold);
            && Texts(out') == (if fold then MapSeq(Fold, Tokenize(ct, text)) else Tokenize(ct, text))
            && Spans(ct, text, out', fold)
  {
    hide Spans, Runs;
    assert text[..|text|] == text;
    CloseRun(ct, text, |text|, runStart, out, fold);
  }

  // ---- how the runs of a text grow with it ----

  /** `c` joins the last piece. */
  function Extend(p: seq<string>, c: char): seq<string>
    requires p != []
  {
    p[..|p| - 1] + [p[|p| - 1] + [c]]
  }

  lemma ExtendCommutes(p: seq<string>, x: char, c: char)
    requires p != []
    ensures var q := Extend(p, c);
            && [[x] + q[0]] + q[1..] == Extend([[x] + p[0]] + p[1..], c)
            && [[]] + q == Extend([[]] + p, c)
  {
    if |p| == 1 {
      assert [x] + (p[0] + [c]) == [x] + p[0] + [c];
    }
  }

  lemma {:induction false} SplitSnoc(ct: CharTable, a: string, c: char)
    ensures var p := SplitPieces(ct, a);
            SplitPieces(ct, a + [c]) == if ct.isAlphanumeric(c) then Extend(p, c) else p + [[]]
  {
    hide Extend;
    if a == [] {
      assert a + [c] == [c] && [c][1..] == [];
      ExtendSingle(c);
      var p: seq<string> := [[]];
      assert SplitPieces(ct, []) == p;
      assert [c] + p[0] == [c] && p[1..] == [];
      assert [[c]] + [] == [[c]];
    } else {
      var x, rest := a[0], SplitPieces(ct, a[1..]);
      SplitSnoc(ct, a[1..], c);
      assert (a + [c])[0] == x && (a + [c])[1..] == a[1..] + [c];
      ExtendCommutes(rest, x, c);
      assert (rest + [[]])[0] == rest[0] && (rest + [[]])[1..] == rest[1..] + [[]];
    }
  }

  lemma ExtendSingle(c: char)
    ensures Extend([[]], c) == [[c]]
  {
    var p: seq<string> := [[]];
    assert p[..0] == [] && p[0] + [c] == [c];
  }

  lemma {:induction false} NonEmptyConcat(a: seq<string>, b: seq<string>)
    ensures NonEmpty(a + b) == NonEmpty(a) + NonEmpty(b)
  {
    if a == [] {
      assert a + b == b;
    } else {
      var head := if a[0] == [] then [] else [a[0]];
      NonEmptyConcat(a[1..], b);
      assert (a + b)[0] == a[0] && (a + b)[1..] == a[1..] + b;
      assert NonEmpty(a + b) == head + (NonEmpty(a[1..]) + NonEmpty(b));
      assert NonEmpty(a) == head + NonEmpty(a[1..]);
    }
  }

  /** The piece a scan is in the middle of. */
  function LastPiece(ct: CharTable, a: string): string {
    var p := SplitPieces(ct, a);
    p[|p| - 1]
  }

  function ClosedRuns(ct: CharTable, a: string): seq<string> {
    var p := SplitPieces(ct, a);
    NonEmpty(p[..|p| - 1])
  }

  lemma RunsSplit(ct: CharTable, a: string)
    ensures Runs(ct, a) == ClosedRuns(ct, a) + (if LastPiece(ct, a) == [] then [] else [LastPiece(ct, a)])
  {
    var p := SplitPieces(ct, a);
    assert p == p[..|p| - 1] + [p[|p| - 1]];
    NonEmptyConcat(p[..|p| - 1], [p[|p| - 1]]);
  }

  lemma RunsSnoc(ct: CharTable, a: string, c: char)
    ensures ct.isAlphanumeric(c) ==> ClosedRuns(ct, a + [c]) == ClosedRuns(ct, a) && LastPiece(ct, a + [c]) == LastPiece(ct, a) + [c]
    ensures !ct.isAlphanumeric(c) ==> ClosedRuns(ct, a + [c]) == Runs(ct, a) && LastPiece(ct, a + [c]) == []
  {
    SplitSnoc(ct, a, c);
    var p, q := SplitPieces(ct, a), SplitPieces(ct, a + [c]);
    if ct.isAlphanumeric(c) {
      assert q[..|q| - 1] == p[..|p| - 1];
    } else {
      assert q[..|q| - 1] == p;
    }
  }

  // ---- retrieval terms ----

  function EnglishTerm(token: string): seq<string> {
    if IsStopword(token) then [] else [FoldPlural(token)]
  }

  /** Stopwords dropped, plurals folded. */
  function EnglishTerms(tokens: seq<string>): seq<string> {
    if tokens == [] then [] else EnglishTerm(tokens[0]) + EnglishTerms(tokens[1..])
  }

  function AlnumOnly(ct: CharTable, text: string): string {
    if text == [] then []
    else (if ct.isAlphanumeric(text[0]) then [text[0]] else []) + AlnumOnly(ct, text[1..])
  }

  /** `index_terms`: what a text is indexed under. */
  function IndexTerms(ct: CharTable, preset: Preset, text: string): seq<string> {
    match preset
    case Default => Tokenize(ct, text)
    case Simple => Tokenize(ct, text)
    case AsciiFold => MapSeq(Fold, Tokenize(ct, text))
    case EnglishBasic => EnglishTerms(Tokenize(ct, text))
    case Keyword =>
      var kept := AlnumOnly(ct, text);
      var term := Flatten(seq(|kept|, i requires 0 <= i < |kept| => ct.lowercase([kept[i]])));
      if term == [] then [] else [term]
  }

  /** The terms one default token is indexed under, for per-token presets. */
  function MapDefaultToken(preset: Preset, token: string): Option<seq<string>> {
    match preset
    case Default => Some([token])
    case Simple => Some([token])
    case AsciiFold => Some([Fold(token)])
    case EnglishBasic => Some(EnglishTerm(token))
    case Keyword => None
  }

  function Flatten<T>(ss: seq<seq<T>>): seq<T> {
    if ss == [] then [] else ss[0] + Flatten(ss[1..])
  }

  /** The terms a stream of default tokens maps to. */
  function MapTokens(preset: Preset, tokens: seq<string>): seq<string>
    requires preset.IsPerToken()
  {
    if tokens == [] then [] else MapDefaultToken(preset, tokens[0]).value + MapTokens(preset, tokens[1..])
  }

  lemma {:induction false} MapTokensIs(preset: Preset, tokens: seq<string>)
    requires preset.IsPerToken()
    ensures preset.Default? || preset.Simple? ==> MapTokens(preset, tokens) == tokens
    ensures preset.AsciiFold? ==> MapTokens(preset, tokens) == MapSeq(Fold, tokens)
    ensures preset.EnglishBasic? ==> MapTokens(preset, tokens) == EnglishTerms(tokens)
  {
    hide EnglishTerm, Fold;
    if tokens != [] {
      MapTokensIs(preset, tokens[1..]);
      assert MapSeq(Fold, tokens) == [Fold(tokens[0])] + MapSeq(Fold, tokens[1..]);
    }
  }

  /** Every preset but `keyword` is a per-token transform of the default tokenization. */
  lemma PerToken(ct: CharTable, preset: Preset, text: string)
    requires preset.IsPerToken()
    ensures IndexTerms(ct, preset, text) == MapTokens(preset, Tokenize(ct, text))
  {
    MapTokensIs(preset, Tokenize(ct, text));
  }

  /** The only tokens a per-token preset indexes under nothing. */
  predicate Drops(preset: Preset, token: string) {
    preset.EnglishBasic? && IsStopword(token)
  }

  /** A mapped stream is never longer, and as long exactly when nothing is dropped. */
  lemma {:induction false} MapTokensLength(preset: Preset, tokens: seq<string>)
    requires preset.IsPerToken()
    ensures |MapTokens(preset, tokens)| <= |tokens|
    ensures |MapTokens(preset, tokens)| == |tokens| <==> forall t :: t in tokens ==> !Drops(preset, t)
  {
    hide FoldPlural, Fold, IsStopword;
    if tokens != [] {
      MapTokensLength(preset, tokens[1..]);
      assert |MapDefaultToken(preset, tokens[0]).value| == if Drops(preset, tokens[0]) then 0 else 1;
      assert forall t :: t in tokens <==> t == tokens[0] || t in tokens[1..];
    }
  }

  ghost predicate AllSpace(ct: CharTable, s: string) {
    forall i :: 0 <= i < |s| ==> ct.isWhitespace(s[i])
  }

  /** What is left of a text when the whitespace around it is trimmed. */
  ghost predicate Trimmed(ct: CharTable, text: string, a: nat, b: nat) {
    && a < b <= |text| && AllSpace(ct, text[..a]) && AllSpace(ct, text[b..])
    && !ct.isWhitespace(text[a]) && !ct.isWhitespace(text[b - 1])
  }

  ghost predicate WholeField(ct: CharTable, text: string, out: seq<Token>) {
    if AllSpace(ct, text) then out == []
    else exists a: nat, b: nat :: Trimmed(ct, text, a, b) && |out| == 1 && Stems(ct, text, out[0], false, a, b)
  }

  /** `keyword_token`: the trimmed text as one token, if anything is left of it. */
  method KeywordToken(ct: CharTable, text: string) returns (out: seq<Token>)
    ensures WholeField(ct, text, out)
  {
    var a := 0;
    while a < |text| && ct.isWhitespace(text[a])
      invariant 0 <= a <= |text| && AllSpace(ct, text[..a])
    {
      assert text[..a + 1] == text[..a] + [text[a]];
      a := a + 1;
    }
    if a == |text| {
      assert text[..a] == text;
      return [];
    }
    var b := |text|;
    while ct.isWhitespace(text[b - 1])
      invariant a < b <= |text| && AllSpace(ct, text[b..])
      decreases b
    {
      assert text[b - 1..] == [text[b - 1]] + text[b..];
      b := b - 1;
    }
    out := [MakeToken(ct, text, a, b, false)];
    assert Trimmed(ct, text, a, b);
  }

  /** `analyze`: the index terms for the per-token presets, the trimmed whole for `keyword`. */
  method Analyze(ct: CharTable, preset: Preset, text: string) returns (out: seq<Token>)
    ensures preset.IsPerToken() ==> Texts(out) == IndexTerms(ct, preset, text)
    ensures preset.IsPerToken() && !preset.EnglishBasic? ==> Spans(ct, text, out, preset.AsciiFold?)
    ensures preset.EnglishBasic? ==> exists split :: Spans(ct, text, split, false) && Selected(split, out)
    ensures preset.Keyword? ==> WholeField(ct, text, out)
  {
    hide Tokenize, Fold, EnglishTerms, WholeField, Spans, Selected;
    if preset.Keyword? {
      out := KeywordToken(ct, text);
      return;
    }
    out := SplitAlphanumeric(ct, text, preset.AsciiFold?);
    if preset.EnglishBasic? {
      out := EnglishTokens(out);
    }
  }

  /** `out` keeps, in order, the tokens of `split` that are no stopwords, each with the span it had. */
  ghost predicate Selected(split: seq<Token>, out: seq<Token>) {
    && |out| <= |split|
    && (forall i :: 0 <= i < |out| ==> exists j :: i <= j < |split| && SameSpan(split[j], out[i]))
    && (forall j :: 0 <= j < |split| && !IsStopword(split[j].text) ==> exists i :: 0 <= i < |out| && SameSpan(split[j], out[i]))
  }

  ghost predicate SameSpan(from: Token, t: Token) {
    !IsStopword(from.text) && t == Token(FoldPlural(from.text), from.start, from.end)
  }

  lemma SelectedSnoc(split: seq<Token>, out: seq<Token>, t: Token)
    requires Selected(split, out)
    ensures IsStopword(t.text) ==> Selected(split + [t], out)
    ensures !IsStopword(t.text) ==> Selected(split + [t], out + [Token(FoldPlural(t.text), t.start, t.end)])
  {
    hide IsStopword, FoldPlural, SameSpan;
    var split', folded := split + [t], Token(FoldPlural(t.text), t.start, t.end);
    assert split'[|split|] == t;
    forall i | 0 <= i < |out| ensures exists j :: i <= j < |split'| && SameSpan(split'[j], out[i]) {
      var j :| i <= j < |split| && SameSpan(split[j], out[i]);
      assert split'[j] == split[j];
    }
    forall j | 0 <= j < |split| && !IsStopword(split'[j].text) ensures exists i :: 0 <= i < |out| && SameSpan(split'[j], out[i]) {
      assert split'[j] == split[j];
    }
    if !IsStopword(t.text) {
      var out' := out + [folded];
      assert SameSpan(t, folded) by { SpanOfItself(t); }
      assert out'[|out|] == folded;
      forall j | 0 <= j < |split'| && !IsStopword(split'[j].text) ensures exists i :: 0 <= i < |out'| && SameSpan(split'[j], out'[i]) {
        if j < |split| {
          var i :| 0 <= i < |out| && SameSpan(split'[j], out[i]);
          assert out'[i] == out[i];
        }
      }
      forall i | 0 <= i < |out'| ensures exists j :: i <= j < |split'| && SameSpan(split'[j], out'[i]) {
        if i < |out| {
          assert out'[i] == out[i];
        }
      }
    }
  }

  lemma SpanOfItself(t: Token)
    requires !IsStopword(t.text)
    ensures SameSpan(t, Token(FoldPlural(t.text), t.start, t.end))
  {
  }

  /** `english_basic_tokens`, after the split. */
  method EnglishTokens(split: seq<Token>) returns (out: seq<Token>)
    ensures Texts(out) == EnglishTerms(Texts(split))
    ensures Selected(split, out)
  {
    hide IsStopword, FoldPlural, Selected;
    out := [];
    var i := 0;
    NothingSelected();
    assert split[..0] == [];
    while i < |split|
      invariant 0 <= i <= |split|
      invariant Texts(out) == EnglishTerms(Texts(split[..i]))
      invariant Selected(split[..i], out)
    {
      var t := split[i];
      SelectedSnoc(split[..i], out, t);
      assert split[..i + 1] == split[..i] + [t];
      EnglishSnoc(Texts(split[..i]), t.text);
      assert Texts(split[..i + 1]) == Texts(split[..i]) + [t.text];
      if !IsStopword(t.text) {
        out := out + [Token(FoldPlural(t.text), t.start, t.end)];
      }
      i := i + 1;
    }
    assert split[..i] == split;
  }

  lemma NothingSelected()
    ensures Selected([], [])
  {
  }

  lemma {:induction false} EnglishSnoc(tokens: seq<string>, t: string)
    ensures EnglishTerms(tokens + [t]) == EnglishTerms(tokens) + EnglishTerm(t)
  {
    hide EnglishTerm;
    if tokens == [] {
      assert tokens + [t] == [t] && [t][1..] == [];
      assert EnglishTerm(t) + [] == EnglishTerm(t) == [] + EnglishTerm(t);
    } else {
      var head, rest := EnglishTerm(tokens[0]), EnglishTerms(tokens[1..]);
      EnglishSnoc(tokens[1..], t);
      assert (tokens + [t])[0] == tokens[0] && (tokens + [t])[1..] == tokens[1..] + [t];
      assert head + (rest + EnglishTerm(t)) == head + rest + EnglishTerm(t);
    }
  }

  // ---- the keyword term ----

  /** Lowercasing goes character by character. */
  ghost predicate LowersEach(ct: CharTable) {
    ct.lowercase([]) == [] && forall a: string, b: string :: ct.lowercase(a + b) == ct.lowercase(a) + ct.lowercase(b)
  }

  lemma {:induction false} PiecesHoldAlnum(ct: CharTable, text: string)
    ensures Flatten(SplitPieces(ct, text)) == AlnumOnly(ct, text)
  {
    if text == [] {
      FlattenHead([[]]);
    } else {
      var rest := SplitPieces(ct, text[1..]);
      PiecesHoldAlnum(ct, text[1..]);
      FlattenHead(rest);
      FlattenHead(SplitPieces(ct, text));
      if ct.isAlphanumeric(text[0]) {
        var pieces := [[text[0]] + rest[0]] + rest[1..];
        assert pieces[0] == [text[0]] + rest[0] && pieces[1..] == rest[1..];
        assert [text[0]] + rest[0] + Flatten(rest[1..]) == [text[0]] + (rest[0] + Flatten(rest[1..]));
      } else {
        var pieces := [[]] + rest;
        assert pieces[0] == [] && pieces[1..] == rest;
      }
    }
  }

  lemma FlattenHead(ss: seq<string>)
    requires ss != []
    ensures Flatten(ss) == ss[0] + Flatten(ss[1..])
  {
  }

  lemma {:induction false} FlattenNonEmpty(pieces: seq<string>)
    ensures Flatten(NonEmpty(pieces)) == Flatten(pieces)
  {
    if pieces != [] {
      var rest := NonEmpty(pieces[1..]);
      FlattenNonEmpty(pieces[1..]);
      FlattenHead(pieces);
      if pieces[0] == [] {
        assert NonEmpty(pieces) == [] + rest == rest;
      } else {
        var all := [pieces[0]] + rest;
        assert NonEmpty(pieces) == all;
        FlattenHead(all);
        assert all[0] == pieces[0] && all[1..] == rest;
      }
    }
  }

  lemma {:induction false} LoweredRuns(ct: CharTable, runs: seq<string>)
    requires LowersEach(ct)
    ensures Flatten(MapSeq(ct.lowercase, runs)) == ct.lowercase(Flatten(runs))
  {
    if runs != [] {
      var lowered := MapSeq(ct.lowercase, runs);
      LoweredRuns(ct, runs[1..]);
      FlattenHead(runs);
      FlattenHead(lowered);
      assert lowered[1..] == MapSeq(ct.lowercase, runs[1..]);
    }
  }

  lemma {:induction false} LoweredChars(ct: CharTable, s: string)
    requires LowersEach(ct)
    ensures Flatten(seq(|s|, i requires 0 <= i < |s| => ct.lowercase([s[i]]))) == ct.lowercase(s)
  {
    if s != [] {
      var each := seq(|s|, i requires 0 <= i < |s| => ct.lowercase([s[i]]));
      var rest := s[1..];
      LoweredChars(ct, rest);
      FlattenHead(each);
      assert each[1..] == seq(|rest|, i requires 0 <= i < |rest| => ct.lowercase([rest[i]]));
      assert s == [s[0]] + rest;
      assert ct.lowercase(s) == ct.lowercase([s[0]]) + ct.lowercase(rest);
    }
  }

  /** The keyword term of a text is its default tokens run together, so texts that differ only in what
      separates their words share it. */
  lemma KeywordJoinsTokens(ct: CharTable, text: string)
    requires LowersEach(ct)
    ensures var joined := Flatten(Tokenize(ct, text)); IndexTerms(ct, Keyword, text) == if joined == [] then [] else [joined]
  {
    hide AlnumOnly, SplitPieces, NonEmpty, Flatten;
    PiecesHoldAlnum(ct, text);
    FlattenNonEmpty(SplitPieces(ct, text));
    LoweredRuns(ct, Runs(ct, text));
    LoweredChars(ct, AlnumOnly(ct, text));
  }
}
