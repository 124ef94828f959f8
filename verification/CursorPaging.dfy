/** Keyset paging of ranked results (crates/auradb-query/src/cursor.rs): a client pages with
    tokens while rows come and go between its calls. */
module CursorPaging {
  import opened Sequences
  import opened Wrappers
  import opened BigEndian
  import opened CursorToken
  import opened Sorting

  /** A ranked row; a score is a 32-bit float's bit pattern. */
  datatype Row = Row(id: U128, score: Option<U32>)

  /** Where a score stands among the reals, infinities included; a NaN stands nowhere. */
  type Scale = U32 -> Option<real>

  const NEG_INFINITY: U32 := 0xff80_0000

  function ScoreOf(r: Row): U32 {
    if r.score.Some? then r.score.value else NEG_INFINITY
  }

  /** `after_key`: ordered strictly after the key, by score descending, then id ascending. */
  predicate AfterKey(num: Scale, r: Row, score: U32, id: U128) {
    var a, b := num(ScoreOf(r)), num(score);
    if a.None? || b.None? || a == b then r.id > id else a.value < b.value
  }

  predicate After(num: Scale, r: Row, q: Row) {
    AfterKey(num, r, ScoreOf(q), q.id)
  }

  // ---- evaluation ----

  /** Every row carries a number. */
  ghost predicate Scored(num: Scale, rows: seq<Row>) {
    forall r :: r in rows ==> r.score.Some? && num(r.score.value).Some?
  }

  ghost predicate Ranked(num: Scale, rows: seq<Row>) {
    Scored(num, rows) && forall i, j :: 0 <= i < j < |rows| ==> After(num, rows[j], rows[i])
  }

  lemma AfterTransitive(num: Scale, a: Row, b: Row, c: Row)
    requires Scored(num, [a, b, c]) && After(num, a, b) && After(num, b, c)
    ensures After(num, a, c)
  {
    assert a in [a, b, c] && b in [a, b, c] && c in [a, b, c];
  }

  /** The executor's comparator: scores descending, incomparable ones tying, then ids. */
  function RowLe(num: Scale): (Row, Row) -> bool {
    (a: Row, b: Row) =>
      if a.score.None? || b.score.None? then
        (if a.score == b.score then a.id <= b.id else a.score.Some?)
      else
        var x, y := num(a.score.value), num(b.score.value);
        if x.None? || y.None? || x == y then a.id <= b.id else x.value > y.value
  }

  function Evaluate(num: Scale, matched: seq<Row>, limit: Option<nat>): seq<Row> {
    var sorted := SortBy(RowLe(num), matched);
    if limit.Some? && limit.value < |sorted| then sorted[..limit.value] else sorted
  }

  lemma RowsAreTotal(num: Scale, all: set<Row>)
    requires forall r :: r in all ==> r.score.Some? && num(r.score.value).Some?
    ensures TotalOn(RowLe(num), all)
  {
  }

  /** The executor's order is the strict order paging relies on. */
  lemma EvaluationIsRanked(num: Scale, matched: seq<Row>, limit: Option<nat>)
    requires Scored(num, matched) && DistinctBy((r: Row) => r.id, matched)
    ensures Ranked(num, Evaluate(num, matched, limit))
    ensures |Evaluate(num, matched, limit)| == if limit.Some? && limit.value < |matched| then limit.value else |matched|
    ensures var rows := Evaluate(num, matched, limit);
            forall r :: r in matched && r !in rows ==> forall i :: 0 <= i < |rows| ==> After(num, r, rows[i])
  {
    hide SortBy, TotalOn;
    var all := Elements(matched);
    var sorted := SortBy(RowLe(num), matched);
    RowsAreTotal(num, all);
    SortSorted(RowLe(num), matched, all);
    SortPermutes(RowLe(num), matched);
    DistinctPermuted((r: Row) => r.id, matched, sorted);
    forall r | r in sorted ensures r in matched {
      InBoth(matched, sorted, r);
    }
    forall i, j | 0 <= i < j < |sorted| ensures After(num, sorted[j], sorted[i]) {
      assert RowLe(num)(sorted[i], sorted[j]) && sorted[i] in matched && sorted[j] in matched;
    }
    assert |sorted| == |multiset(sorted)| == |multiset(matched)| == |matched|;
    forall r | r in matched ensures r in sorted {
      InBoth(matched, sorted, r);
    }
  }

  /** Rows without a score, or with a comparable one. */
  ghost predicate ScoredOrNot(num: Scale, rows: set<Row>) {
    forall r :: r in rows && r.score.Some? ==> num(r.score.value).Some?
  }

  lemma MixedRowsAreTotal(num: Scale, all: set<Row>)
    requires ScoredOrNot(num, all)
    ensures TotalOn(RowLe(num), all)
  {
  }

  /** Scored rows come first, and rows without a score go by id. */
  lemma UnscoredGoById(num: Scale, matched: seq<Row>, limit: Option<nat>)
    requires ScoredOrNot(num, Elements(matched))
    ensures var rows := Evaluate(num, matched, limit);
            forall i, j :: 0 <= i < j < |rows| && rows[i].score.None? ==> rows[j].score.None? && rows[i].id <= rows[j].id
  {
    hide SortBy, TotalOn;
    var all := Elements(matched);
    var sorted := SortBy(RowLe(num), matched);
    MixedRowsAreTotal(num, all);
    SortSorted(RowLe(num), matched, all);
    forall i, j | 0 <= i < j < |sorted| && sorted[i].score.None? ensures sorted[j].score.None? && sorted[i].id <= sorted[j].id {
      assert RowLe(num)(sorted[i], sorted[j]);
    }
  }

  // ---- one page ----

  datatype Page = Page(rows: seq<Row>, next: Option<string>, startRank: U64)

  /** The first row after the key. */
  function FirstAfter(num: Scale, rows: seq<Row>, score: U32, id: U128): (i: nat)
    ensures i <= |rows|
    ensures i < |rows| ==> AfterKey(num, rows[i], score, id)
    ensures forall j :: 0 <= j < i ==> !AfterKey(num, rows[j], score, id)
  {
    if rows == [] || AfterKey(num, rows[0], score, id) then 0
    else
      var k := FirstAfter(num, rows[1..], score, id);
      assert forall j :: 0 < j < 1 + k ==> rows[j] == rows[1..][j - 1];
      1 + k
  }

  function Wrap(n: nat): U64 {
    n % 0x1_0000_0000_0000_0000
  }

  function Slice(fp: U64, rows: seq<Row>, start: nat, base: U64, size: nat): Page
    requires start <= |rows| && size > 0
  {
    var end := if start + size < |rows| then start + size else |rows|;
    Page(rows[start..end],
         if end < |rows| then
           var last := rows[end - 1];
           Some(Encode(State(Wrap(base + (end - start)), last.id, ScoreOf(last), fp)))
         else None,
         base)
  }

  /** What a page call answers over the evaluated rows. */
  ghost function Paginate(num: Scale, fp: U64, rows: seq<Row>, size: nat, cursor: Option<string>): Result<Page, Error> {
    if size == 0 then Err(EmptyPage)
    else match cursor
      case None => Ok(Slice(fp, rows, 0, 0, size))
      case Some(token) =>
        match Decode(token)
        case Err(e) => Err(e)
        case Ok(c) =>
          if c.fingerprint != fp then Err(WrongQuery)
          else Ok(Slice(fp, rows, FirstAfter(num, rows, c.score, c.id), c.rank, size))
  }

  method CutPage(fp: U64, ordered: seq<Row>, start: nat, base: U64, size: nat) returns (p: Page)
    requires start <= |ordered| && size > 0
    ensures p == Slice(fp, ordered, start, base, size)
  {
    hide Encode;
    var end := if start + size < |ordered| then start + size else |ordered|;
    var next: Option<string> := None;
    if end < |ordered| {
      var last := ordered[end - 1];
      var token := EncodeToken(State(Wrap(base + (end - start)), last.id, ScoreOf(last), fp));
      next := Some(token);
    }
    p := Page(ordered[start..end], next, base);
  }

  /** `paginate_ranked` */
  method PaginateRanked(num: Scale, fp: U64, matched: seq<Row>, limit: Option<nat>, size: nat, cursor: Option<string>)
    returns (r: Result<Page, Error>)
    ensures r == Paginate(num, fp, Evaluate(num, matched, limit), size, cursor)
  {
    hide Evaluate, Decode, Slice;
    if size == 0 {
      return Err(EmptyPage);
    }
    var ordered := Evaluate(num, matched, limit);
    var start, base := 0, 0;
    if cursor.Some? {
      var st := DecodeToken(cursor.value);
      if st.Err? {
        return Err(st.error);
      }
      if st.value.fingerprint != fp {
        return Err(WrongQuery);
      }
      start, base := FirstAfter(num, ordered, st.value.score, st.value.id), st.value.rank;
    }
    var page := CutPage(fp, ordered, start, base, size);
    r := Ok(page);
  }

  // ---- a client's run ----

  /** One call: the rows as they rank at that moment, and the page size asked for. */
  datatype Call = Call(rows: seq<Row>, size: nat)

  /** The pages so far, the ranks they reported and the token in hand. */
  datatype Trace = Trace(pages: seq<seq<Row>>, ranks: seq<U64>, next: Option<string>)

  function Flat(pages: seq<seq<Row>>): seq<Row> {
    if pages == [] then [] else Flat(pages[..|pages| - 1]) + pages[|pages| - 1]
  }

  /** The client calls until a page comes without a token, then stops. */
  ghost predicate Finished(calls: seq<Call>, t: Trace) {
    calls != [] && t.next.None?
  }

  ghost function Play(num: Scale, fp: U64, calls: seq<Call>): Trace {
    if calls == [] then Trace([], [], None)
    else
      var front, call := calls[..|calls| - 1], calls[|calls| - 1];
      var t := Play(num, fp, front);
      if Finished(front, t) then t
      else match Paginate(num, fp, call.rows, call.size, t.next)
        case Ok(p) => Trace(t.pages + [p.rows], t.ranks + [p.startRank], p.next)
        case Err(_) => t
  }

  ghost predicate CallsOk(num: Scale, calls: seq<Call>) {
    forall c :: c in calls ==> Ranked(num, c.rows) && c.size > 0
  }

  /** The continuation after `rows`. */
  function KeyOf(fp: U64, rows: seq<Row>): State
    requires rows != []
  {
    State(Wrap(|rows|), rows[|rows| - 1].id, ScoreOf(rows[|rows| - 1]), fp)
  }

  /** A token in hand is the key of the last row returned, with the count of rows as its rank. */
  ghost predicate TokenOk(fp: U64, t: Trace) {
    var rows := Flat(t.pages);
    t.next.Some? ==> rows != [] && Decode(t.next.value) == Ok(KeyOf(fp, rows))
  }

  lemma {:induction false} SuffixAfter(num: Scale, rows: seq<Row>, score: U32, id: U128, i: nat)
    requires Ranked(num, rows) && num(score).Some? && i < |rows|
    ensures i >= FirstAfter(num, rows, score, id) <==> AfterKey(num, rows[i], score, id)
  {
    var k := FirstAfter(num, rows, score, id);
    if k < i {
      assert After(num, rows[i], rows[k]) && rows[i] in rows && rows[k] in rows;
    }
  }

  lemma FlatStep(pages: seq<seq<Row>>, page: seq<Row>)
    ensures Flat(pages + [page]) == Flat(pages) + page
  {
    assert (pages + [page])[..|pages|] == pages;
  }

  lemma SliceShape(fp: U64, rows: seq<Row>, start: nat, base: U64, size: nat)
    requires start <= |rows| && size > 0
    ensures var p := Slice(fp, rows, start, base, size);
            && start + |p.rows| <= |rows| && p.rows == rows[start..start + |p.rows|]
            && (p.next.None? <==> start + |p.rows| == |rows|)
            && (p.next.Some? ==> p.rows != [])
            && (p.next.Some? ==> Decode(p.next.value) == Ok(KeyOf(fp, p.rows).(rank := Wrap(base + |p.rows|))))
  {
    hide Encode, Decode;
    var p := Slice(fp, rows, start, base, size);
    if p.next.Some? {
      TokenRoundTrip(KeyOf(fp, p.rows).(rank := Wrap(base + |p.rows|)));
    }
  }

  lemma WrapAdds(a: nat, b: nat)
    ensures Wrap(Wrap(a) + b) == Wrap(a + b)
  {
  }

  /** Where the next page starts. */
  ghost function StartOf(num: Scale, all: seq<Row>, rows: seq<Row>): nat {
    if rows == [] then 0 else FirstAfter(num, all, ScoreOf(rows[|rows| - 1]), rows[|rows| - 1].id)
  }

  /** The rows a page call returns, and the token it leaves. */
  lemma PageStep(num: Scale, fp: U64, call: Call, t: Trace)
    requires call.size > 0 && TokenOk(fp, t)
    requires t.next.None? ==> t.pages == []
    ensures Paginate(num, fp, call.rows, call.size, t.next).Ok?
    ensures var p := Paginate(num, fp, call.rows, call.size, t.next).value;
            && Sliced(num, call, t, Trace(t.pages + [p.rows], t.ranks + [p.startRank], p.next))
            && TokenOk(fp, Trace(t.pages + [p.rows], t.ranks + [p.startRank], p.next))
  {
    hide Encode, Decode, Flat, Slice, Wrap, FirstAfter;
    var rows := Flat(t.pages);
    FlatEmpty();
    var start := StartOf(num, call.rows, rows);
    assert Wrap(0) == 0 by { WrapSmall(); }
    assert start <= |call.rows|;
    SliceShape(fp, call.rows, start, Wrap(|rows|), call.size);
    var p := Slice(fp, call.rows, start, Wrap(|rows|), call.size);
    assert p.startRank == Wrap(|rows|) by { SliceRank(fp, call.rows, start, Wrap(|rows|), call.size); }
    assert Paginate(num, fp, call.rows, call.size, t.next) == Ok(p);
    FlatStep(t.pages, p.rows);
    WrapAdds(|rows|, |p.rows|);
  }

  lemma WrapSmall()
    ensures Wrap(0) == 0
  {
  }

  lemma SliceRank(fp: U64, rows: seq<Row>, start: nat, base: U64, size: nat)
    requires start <= |rows| && size > 0
    ensures Slice(fp, rows, start, base, size).startRank == base
  {
    hide Encode;
  }

  /** One more page sliced off the evaluated rows. */
  ghost predicate Sliced(num: Scale, call: Call, t: Trace, t': Trace) {
    var rows := Flat(t.pages);
    var start := StartOf(num, call.rows, rows);
    && |t'.pages| == |t.pages| + 1 && t'.pages[..|t.pages|] == t.pages && t'.ranks == t.ranks + [Wrap(|rows|)]
    && var page := t'.pages[|t.pages|];
       && start + |page| <= |call.rows| && page == call.rows[start..start + |page|]
       && (t'.next.None? <==> start + |page| == |call.rows|)
       && (t'.next.Some? ==> page != [])
       && Flat(t'.pages) == rows + page
  }

  lemma FlatEmpty()
    ensures Flat([]) == []
  {
  }

  lemma {:induction false} PlayKeepsToken(num: Scale, fp: U64, calls: seq<Call>)
    requires CallsOk(num, calls)
    ensures var t := Play(num, fp, calls); TokenOk(fp, t) && (calls == [] ==> t.pages == [] && t.next.None?)
  {
    hide TokenOk, Paginate, Ranked;
    if calls == [] {
      assert TokenOk(fp, Trace([], [], None)) by { EmptyToken(fp); }
    } else {
      var front, call := calls[..|calls| - 1], calls[|calls| - 1];
      PlayKeepsToken(num, fp, front);
      var t := Play(num, fp, front);
      if !Finished(front, t) {
        PageStep(num, fp, call, t);
      }
    }
  }

  lemma EmptyToken(fp: U64)
    ensures TokenOk(fp, Trace([], [], None))
  {
  }

  /** A run's last call: nothing if the client had stopped, else one more page. */
  lemma PlayStep(num: Scale, fp: U64, calls: seq<Call>)
    requires CallsOk(num, calls) && calls != []
    ensures var front := calls[..|calls| - 1];
            var t, t' := Play(num, fp, front), Play(num, fp, calls);
            if Finished(front, t) then t' == t
            else Sliced(num, calls[|calls| - 1], t, t') && (front == [] <==> Flat(t.pages) == [])
  {
    hide TokenOk, Paginate, Ranked;
    var front, call := calls[..|calls| - 1], calls[|calls| - 1];
    PlayKeepsToken(num, fp, front);
    var t := Play(num, fp, front);
    if !Finished(front, t) {
      PageStep(num, fp, call, t);
      TokenHasRows(fp, t);
      FlatEmpty();
    }
  }

  lemma TokenHasRows(fp: U64, t: Trace)
    requires TokenOk(fp, t)
    ensures t.next.Some? ==> Flat(t.pages) != []
  {
  }

  // ---- what every run keeps ----

  /** Whatever happens between calls, the rows returned keep descending: each ranks strictly
      after all before it. */
  lemma {:induction false} ReturnedAreRanked(num: Scale, fp: U64, calls: seq<Call>)
    requires CallsOk(num, calls)
    ensures Ranked(num, Flat(Play(num, fp, calls).pages))
  {
    hide After, AfterKey, Play, FirstAfter;
    if calls == [] {
      assert Play(num, fp, calls).pages == [] by { PlayEmpty(num, fp); }
    } else {
      var front, call := calls[..|calls| - 1], calls[|calls| - 1];
      ReturnedAreRanked(num, fp, front);
      PlayStep(num, fp, calls);
      var t, t' := Play(num, fp, front), Play(num, fp, calls);
      if !Finished(front, t) {
        var rows, page := Flat(t.pages), t'.pages[|t.pages|];
        forall r | r in page ensures r in call.rows { }
        forall i, j | 0 <= i < |rows| && 0 <= j < |page| ensures After(num, page[j], rows[i]) {
          PageComesAfter(num, call.rows, rows, page, i, j);
        }
      }
    }
  }

  lemma PlayEmpty(num: Scale, fp: U64)
    ensures Play(num, fp, []) == Trace([], [], None)
  {
  }

  lemma ScoredThree(num: Scale, all: seq<Row>, rows: seq<Row>, a: Row, b: Row, c: Row)
    requires Scored(num, all) && Scored(num, rows) && a in all && b in rows && c in rows
    ensures Scored(num, [a, b, c]) && num(ScoreOf(b)).Some?
  {
  }

  lemma PageComesAfter(num: Scale, all: seq<Row>, rows: seq<Row>, page: seq<Row>, i: nat, j: nat)
    requires Ranked(num, all) && Ranked(num, rows) && i < |rows| && j < |page|
    requires var start := FirstAfter(num, all, ScoreOf(rows[|rows| - 1]), rows[|rows| - 1].id);
             start + |page| <= |all| && page == all[start..start + |page|]
    ensures After(num, page[j], rows[i])
  {
    hide FirstAfter, AfterKey, Scored;
    var last := rows[|rows| - 1];
    var start := FirstAfter(num, all, ScoreOf(last), last.id);
    assert page[j] == all[start + j];
    assert last in rows && rows[i] in rows && page[j] in all;
    ScoredThree(num, all, rows, page[j], last, rows[i]);
    SuffixAfter(num, all, ScoreOf(last), last.id, start + j);
    assert After(num, page[j], last);
    if i < |rows| - 1 {
      AfterTransitive(num, page[j], last, rows[i]);
    }
  }

  /** The rows with this id have one score in all evaluations; others may change theirs. */
  ghost predicate StableScore(calls: seq<Call>, id: U128) {
    forall a, b, x, y :: a in calls && b in calls && x in a.rows && y in b.rows && x.id == id == y.id ==> x.score == y.score
  }

  /** A row whose own score never changes is not returned twice, whatever happens to the others. */
  lemma NoRowTwice(num: Scale, fp: U64, calls: seq<Call>, i: nat, j: nat)
    requires CallsOk(num, calls)
    requires var rows := Flat(Play(num, fp, calls).pages); i < j < |rows| && StableScore(calls, rows[i].id)
    ensures var rows := Flat(Play(num, fp, calls).pages); rows[i].id != rows[j].id
  {
    hide Play, Flat;
    var rows := Flat(Play(num, fp, calls).pages);
    ReturnedAreRanked(num, fp, calls);
    var a := RowWasListed(num, fp, calls, rows[i]);
    var b := RowWasListed(num, fp, calls, rows[j]);
    assert rows[i] in rows && rows[j] in rows && After(num, rows[j], rows[i]);
  }

  lemma {:induction false} RowWasListed(num: Scale, fp: U64, calls: seq<Call>, r: Row) returns (c: Call)
    requires CallsOk(num, calls) && r in Flat(Play(num, fp, calls).pages)
    ensures c in calls && r in c.rows
  {
    hide Play, FirstAfter, Ranked;
    PlayEmpty(num, fp);
    var front, call := calls[..|calls| - 1], calls[|calls| - 1];
    PlayStep(num, fp, calls);
    if r in Flat(Play(num, fp, front).pages) {
      c := RowWasListed(num, fp, front, r);
    } else {
      c := call;
    }
  }

  /** A row present in every evaluation is waiting after the token until it is returned. */
  lemma {:induction false} WaitsAfterToken(num: Scale, fp: U64, calls: seq<Call>, r: Row)
    requires CallsOk(num, calls) && (forall c :: c in calls ==> r in c.rows)
    ensures var t := Play(num, fp, calls); var rows := Flat(t.pages);
            calls != [] ==> r in rows || (t.next.Some? && rows != [] && After(num, r, rows[|rows| - 1]))
  {
    hide Play, After, AfterKey, FirstAfter, Ranked;
    if calls != [] {
      var front, call := calls[..|calls| - 1], calls[|calls| - 1];
      WaitsAfterToken(num, fp, front, r);
      PlayStep(num, fp, calls);
      var t, t' := Play(num, fp, front), Play(num, fp, calls);
      ReturnedAreRanked(num, fp, front);
      LastIsScored(num, Flat(t.pages));
      if !Finished(front, t) && r !in Flat(t.pages) {
        WaitsThroughPage(num, call, t, t', r);
      }
    }
  }

  lemma WaitsThroughPage(num: Scale, call: Call, t: Trace, t': Trace, r: Row)
    requires Ranked(num, call.rows) && Sliced(num, call, t, t') && r in call.rows
    requires var rows := Flat(t.pages);
             rows != [] ==> After(num, r, rows[|rows| - 1]) && num(ScoreOf(rows[|rows| - 1])).Some?
    ensures var rows := Flat(t'.pages); r in rows || (t'.next.Some? && rows != [] && After(num, r, rows[|rows| - 1]))
  {
    hide After, AfterKey, FirstAfter;
    var rows, page := Flat(t.pages), t'.pages[|t.pages|];
    var i :| 0 <= i < |call.rows| && call.rows[i] == r;
    var start := StartOf(num, call.rows, rows);
    if rows != [] {
      AfterIsKey(num, r, rows[|rows| - 1]);
      SuffixAfter(num, call.rows, ScoreOf(rows[|rows| - 1]), rows[|rows| - 1].id, i);
    }
    if i < start + |page| {
      assert page[i - start] == r;
    } else if page != [] {
      assert After(num, call.rows[i], call.rows[start + |page| - 1]);
    }
  }

  lemma LastIsScored(num: Scale, rows: seq<Row>)
    requires Ranked(num, rows)
    ensures rows != [] ==> num(ScoreOf(rows[|rows| - 1])).Some?
  {
    if rows != [] {
      assert rows[|rows| - 1] in rows;
    }
  }

  lemma AfterIsKey(num: Scale, r: Row, q: Row)
    ensures After(num, r, q) == AfterKey(num, r, ScoreOf(q), q.id)
  {
  }

  /** A finished run returns every row that was there throughout with one score, exactly once. */
  lemma PresentRowsComeOnce(num: Scale, fp: U64, calls: seq<Call>, r: Row)
    requires CallsOk(num, calls) && StableScore(calls, r.id) && (forall c :: c in calls ==> r in c.rows)
    requires Finished(calls, Play(num, fp, calls))
    ensures multiset(Flat(Play(num, fp, calls).pages))[r] == 1
  {
    hide Play, Flat, Ranked, After, StableScore;
    var rows := Flat(Play(num, fp, calls).pages);
    WaitsAfterToken(num, fp, calls, r);
    var i: nat :| i < |rows| && rows[i] == r;
    forall k: nat | k < i ensures rows[k] != r {
      if rows[k] == r {
        NoRowTwice(num, fp, calls, k, i);
      }
    }
    forall k: nat | i < k < |rows| ensures rows[k] != r {
      NoRowTwice(num, fp, calls, i, k);
    }
    CountOnce(rows, i);
  }

  /** Every page reports the number of rows before it as its first rank. */
  lemma {:induction false} RanksCountRows(num: Scale, fp: U64, calls: seq<Call>)
    requires CallsOk(num, calls)
    ensures var t := Play(num, fp, calls);
            |t.ranks| == |t.pages| && forall i :: 0 <= i < |t.pages| ==> t.ranks[i] == Wrap(|Flat(t.pages[..i])|)
  {
    hide Play, Flat, Ranked, FirstAfter, Wrap;
    PlayEmpty(num, fp);
    if calls != [] {
      var front := calls[..|calls| - 1];
      RanksCountRows(num, fp, front);
      PlayStep(num, fp, calls);
      var t, t' := Play(num, fp, front), Play(num, fp, calls);
      if !Finished(front, t) {
        forall i | 0 <= i < |t'.pages| ensures t'.ranks[i] == Wrap(|Flat(t'.pages[..i])|) {
          if i < |t.pages| {
            assert t'.pages[..i] == t.pages[..i];
          }
        }
      }
    }
  }

  /** Over data that stays put, a key resumes right after its row. */
  lemma ResumesAfterRow(num: Scale, all: seq<Row>, n: nat)
    requires Ranked(num, all) && n <= |all|
    ensures StartOf(num, all, all[..n]) == n
  {
    hide FirstAfter;
    if n > 0 {
      var last := all[n - 1];
      var k := FirstAfter(num, all, ScoreOf(last), last.id);
      assert last in all;
      SuffixAfter(num, all, ScoreOf(last), last.id, n - 1);
      if n < |all| {
        SuffixAfter(num, all, ScoreOf(last), last.id, n);
        assert After(num, all[n], all[n - 1]);
      }
    }
  }

  /** Over data that stays put, whatever the page sizes, the pages so far are a prefix of the ranked
      list, and a finished run's pages are the whole of it. */
  lemma {:induction false} FixedDataPages(num: Scale, fp: U64, calls: seq<Call>, all: seq<Row>)
    requires CallsOk(num, calls) && Ranked(num, all) && (forall c :: c in calls ==> c.rows == all)
    ensures var t := Play(num, fp, calls);
            && |Flat(t.pages)| <= |all| && Flat(t.pages) == all[..|Flat(t.pages)|]
            && (calls != [] ==> (t.next.None? <==> Flat(t.pages) == all))
  {
    hide Play, Ranked, FirstAfter, StartOf;
    PlayEmpty(num, fp);
    FlatEmpty();
    if calls != [] {
      var front := calls[..|calls| - 1];
      FixedDataPages(num, fp, front, all);
      PlayStep(num, fp, calls);
      var t, t' := Play(num, fp, front), Play(num, fp, calls);
      if !Finished(front, t) {
        var n := |Flat(t.pages)|;
        ResumesAfterRow(num, all, n);
        var page := t'.pages[|t.pages|];
        assert all[..n] + all[n..n + |page|] == all[..n + |page|];
      }
    }
  }

  /** A run that has not finished returned something with its last call, so over data that stays
      put it finishes. */
  lemma {:induction false} RunsMakeProgress(num: Scale, fp: U64, calls: seq<Call>)
    requires CallsOk(num, calls)
    ensures var t := Play(num, fp, calls); t.next.Some? ==> |Flat(t.pages)| >= |calls|
  {
    hide Play, Ranked, FirstAfter, StartOf, Flat;
    PlayEmpty(num, fp);
    if calls != [] {
      var front := calls[..|calls| - 1];
      RunsMakeProgress(num, fp, front);
      PlayStep(num, fp, calls);
    }
  }
}
