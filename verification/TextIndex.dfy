/** The inverted index over one text field (`TextIndex` of crates/auradb-index/src/lib.rs). */
module TextIndex {
  import opened Wrappers
  import opened Sums

  /** term -> (record id -> term frequency). */
  type Postings = map<string, map<RecordId, nat>>

  datatype TextState = TextState(postings: Postings, docLengths: map<RecordId, nat>, total: nat)

  /** The token stream of every indexed document. */
  type Docs = map<RecordId, seq<string>>

  const EMPTY := TextState(map[], map[], 0)

  function Posting(p: Postings, term: string): map<RecordId, nat> {
    if term in p then p[term] else map[]
  }

  function Tf(p: Postings, term: string, id: RecordId): nat {
    if id in Posting(p, term) then Posting(p, term)[id] else 0
  }

  // ---- adding and removing ----

  function AddOne(p: Postings, id: RecordId, term: string): Postings {
    p[term := Posting(p, term)[id := Tf(p, term, id) + 1]]
  }

  function AddTokens(p: Postings, id: RecordId, tokens: seq<string>): Postings
    decreases tokens
  {
    if tokens == [] then p else AddTokens(AddOne(p, id, tokens[0]), id, tokens[1..])
  }

  function AddState(st: TextState, id: RecordId, tokens: seq<string>): TextState {
    var p := AddTokens(st.postings, id, tokens);
    if tokens == [] then st.(postings := p)
    else
      var had := if id in st.docLengths then st.docLengths[id] else 0;
      TextState(p, st.docLengths[id := had + |tokens|], st.total + |tokens|)
  }

  function DropOne(p: Postings, id: RecordId, term: string): Postings {
    if term !in p then p
    else
      var rest := p[term] - {id};
      if rest == map[] then p - {term} else p[term := rest]
  }

  function DropTokens(p: Postings, id: RecordId, tokens: seq<string>): Postings
    decreases tokens
  {
    if tokens == [] then p else DropTokens(DropOne(p, id, tokens[0]), id, tokens[1..])
  }

  function RemoveState(st: TextState, id: RecordId, tokens: seq<string>): TextState {
    var p := DropTokens(st.postings, id, tokens);
    if id !in st.docLengths then st.(postings := p)
    else
      var existing, len := st.docLengths[id], |tokens|;
      var dec := if len < existing then len else existing;
      TextState(p,
                if existing <= len then st.docLengths - {id} else st.docLengths[id := existing - len],
                if dec <= st.total then st.total - dec else 0)
  }

  // ---- what the index means ----

  /** No posting list is empty and no frequency is zero. */
  ghost predicate Clean(p: Postings) {
    forall t :: t in p ==> p[t] != map[] && forall i :: i in p[t] ==> p[t][i] > 0
  }

  ghost predicate Mirrors(p: Postings, docs: Docs) {
    && Clean(p)
    && forall t: string, i: RecordId :: Tf(p, t, i) == DocCount(docs, t, i)
  }

  function DocCount(docs: Docs, term: string, id: RecordId): nat {
    if id in docs then Count(docs[id], term) else 0
  }

  /** Documents without tokens have no length entry. */
  ghost function Lengths(docs: Docs): map<RecordId, nat> {
    map i | i in docs && docs[i] != [] :: |docs[i]|
  }

  ghost function TotalOf(lengths: map<RecordId, nat>): nat {
    Sum(lengths.Keys, (i: RecordId) => if i in lengths then lengths[i] else 0)
  }

  /** The index is exactly the inverted image of `docs`. */
  ghost predicate Reflects(st: TextState, docs: Docs) {
    && Mirrors(st.postings, docs)
    && st.docLengths == Lengths(docs)
    && st.total == TotalOf(st.docLengths)
  }

  lemma PostingDetermined(p: Postings, q: Postings, t: string)
    requires Clean(p) && Clean(q) && forall i: RecordId :: Tf(p, t, i) == Tf(q, t, i)
    ensures t in p <==> t in q
    ensures Posting(p, t) == Posting(q, t)
  {
    var a, b := Posting(p, t), Posting(q, t);
    forall i: RecordId ensures (i in a <==> i in b) && (i in a ==> a[i] == b[i]) {
      assert Tf(p, t, i) == Tf(q, t, i);
    }
    assert a == b;
  }

  /** Frequencies determine the postings. */
  lemma TfDetermines(p: Postings, q: Postings)
    requires Clean(p) && Clean(q) && forall t: string, i: RecordId :: Tf(p, t, i) == Tf(q, t, i)
    ensures p == q
  {
    forall t: string ensures (t in p <==> t in q) && (t in p ==> p[t] == q[t]) {
      PostingDetermined(p, q, t);
    }
    assert p == q;
  }

  /** The documents determine the whole index: two histories with the same documents agree. */
  lemma ReflectsDetermines(a: TextState, b: TextState, docs: Docs)
    requires Reflects(a, docs) && Reflects(b, docs)
    ensures a == b
  {
    TfDetermines(a.postings, b.postings);
  }

  lemma AddOneTf(p: Postings, id: RecordId, term: string)
    requires Clean(p)
    ensures Clean(AddOne(p, id, term))
    ensures forall t: string, i: RecordId ::
              Tf(AddOne(p, id, term), t, i) == Tf(p, t, i) + (if t == term && i == id then 1 else 0)
  {
  }

  lemma {:induction false} AddTokensTf(p: Postings, id: RecordId, tokens: seq<string>)
    requires Clean(p)
    ensures Clean(AddTokens(p, id, tokens))
    ensures forall t: string, i: RecordId ::
              Tf(AddTokens(p, id, tokens), t, i) == Tf(p, t, i) + (if i == id then Count(tokens, t) else 0)
    decreases tokens
  {
    hide Clean, Tf, AddOne;
    if tokens != [] {
      AddOneTf(p, id, tokens[0]);
      AddTokensTf(AddOne(p, id, tokens[0]), id, tokens[1..]);
    }
  }

  lemma DropOneTf(p: Postings, id: RecordId, term: string)
    requires Clean(p)
    ensures Clean(DropOne(p, id, term))
    ensures forall t: string, i: RecordId ::
              Tf(DropOne(p, id, term), t, i) == if t == term && i == id then 0 else Tf(p, t, i)
  {
    if term in p {
      assert forall i :: i in p[term] && i != id ==> i in p[term] - {id};
    }
  }

  lemma {:induction false} DropTokensTf(p: Postings, id: RecordId, tokens: seq<string>)
    requires Clean(p)
    ensures Clean(DropTokens(p, id, tokens))
    ensures forall t: string, i: RecordId ::
              Tf(DropTokens(p, id, tokens), t, i) == if i == id && t in tokens then 0 else Tf(p, t, i)
    decreases tokens
  {
    hide Clean, Tf, DropOne;
    if tokens != [] {
      DropOneTf(p, id, tokens[0]);
      DropTokensTf(DropOne(p, id, tokens[0]), id, tokens[1..]);
      assert forall t :: t in tokens <==> t == tokens[0] || t in tokens[1..];
    }
  }

  lemma TotalAdd(lengths: map<RecordId, nat>, id: RecordId, n: nat)
    requires id !in lengths
    ensures TotalOf(lengths[id := n]) == TotalOf(lengths) + n
  {
    var lengths' := lengths[id := n];
    var f := (i: RecordId) => if i in lengths then lengths[i] else 0;
    var g := (i: RecordId) => if i in lengths' then lengths'[i] else 0;
    assert lengths'.Keys == lengths.Keys + {id};
    SumAdd(lengths.Keys, g, id);
    SumSame(lengths.Keys, f, g);
  }

  lemma TotalDrop(lengths: map<RecordId, nat>, id: RecordId)
    requires id in lengths
    ensures TotalOf(lengths) == TotalOf(lengths - {id}) + lengths[id]
  {
    TotalAdd(lengths - {id}, id, lengths[id]);
    assert (lengths - {id})[id := lengths[id]] == lengths;
  }

  /** Adding a document that is not indexed yet. */
  lemma AddReflects(st: TextState, docs: Docs, id: RecordId, tokens: seq<string>)
    requires Reflects(st, docs) && id !in docs
    ensures Reflects(AddState(st, id, tokens), docs[id := tokens])
  {
    hide Count, AddTokens, Tf, Clean, TotalOf;
    var docs' := docs[id := tokens];
    AddTokensTf(st.postings, id, tokens);
    if tokens == [] {
      assert AddTokens(st.postings, id, []) == st.postings by { NoTokens(st.postings, id); }
      assert Lengths(docs') == Lengths(docs);
    } else {
      assert Lengths(docs') == Lengths(docs)[id := |tokens|];
      TotalAdd(st.docLengths, id, |tokens|);
    }
    forall t: string, i: RecordId ensures Tf(AddState(st, id, tokens).postings, t, i) == DocCount(docs', t, i) {
      assert Tf(st.postings, t, i) == DocCount(docs, t, i);
      NoCount(t);
    }
  }

  lemma NoTokens(p: Postings, id: RecordId)
    ensures AddTokens(p, id, []) == p
  {
  }

  lemma NoCount(t: string)
    ensures Count([], t) == 0
  {
  }

  /** Removing a document under the text it was indexed with. */
  lemma RemoveReflects(st: TextState, docs: Docs, id: RecordId, tokens: seq<string>)
    requires Reflects(st, docs) && id in docs && docs[id] == tokens
    ensures Reflects(RemoveState(st, id, tokens), docs - {id})
  {
    hide Count, DropTokens, Tf, Clean, TotalOf;
    var docs' := docs - {id};
    DropTokensTf(st.postings, id, tokens);
    if tokens == [] {
      assert Lengths(docs') == Lengths(docs);
    } else {
      assert Lengths(docs') == Lengths(docs) - {id};
      TotalDrop(st.docLengths, id);
    }
    forall t: string, i: RecordId ensures Tf(RemoveState(st, id, tokens).postings, t, i) == DocCount(docs', t, i) {
      assert Tf(st.postings, t, i) == DocCount(docs, t, i);
      if i == id {
        CountIn(tokens, t);
      }
    }
  }

  /** Removing a document right after adding it restores the index exactly. */
  lemma RemoveUndoesAdd(st: TextState, docs: Docs, id: RecordId, tokens: seq<string>)
    requires Reflects(st, docs) && id !in docs
    ensures RemoveState(AddState(st, id, tokens), id, tokens) == st
  {
    hide Reflects, AddState, RemoveState;
    AddReflects(st, docs, id, tokens);
    RemoveReflects(AddState(st, id, tokens), docs[id := tokens], id, tokens);
    assert docs[id := tokens] - {id} == docs;
    ReflectsDetermines(RemoveState(AddState(st, id, tokens), id, tokens), st, docs);
  }

  lemma EmptyReflects()
    ensures Reflects(EMPTY, map[])
  {
    forall t: string, i: RecordId ensures Tf(EMPTY.postings, t, i) == 0 { }
    assert Lengths(map[]) == map[];
  }

  /** The index of a corpus, built by adding its documents one by one. */
  ghost function IndexOf(docs: Docs): TextState
    decreases docs.Keys
  {
    if docs == map[] then EMPTY
    else
      var id :| id in docs;
      AddState(IndexOf(docs - {id}), id, docs[id])
  }

  lemma {:induction false} IndexReflects(docs: Docs)
    ensures Reflects(IndexOf(docs), docs)
    decreases docs.Keys
  {
    hide Reflects, AddState;
    if docs == map[] {
      EmptyReflects();
    } else {
      var id :| id in docs && IndexOf(docs) == AddState(IndexOf(docs - {id}), id, docs[id]);
      IndexReflects(docs - {id});
      AddReflects(IndexOf(docs - {id}), docs - {id}, id, docs[id]);
      assert (docs - {id})[id := docs[id]] == docs;
    }
  }

  /** Every document's length is the sum of its term frequencies. */
  lemma LengthIsTfSum(st: TextState, docs: Docs, id: RecordId)
    requires Reflects(st, docs)
    ensures (if id in st.docLengths then st.docLengths[id] else 0)
         == Sum(st.postings.Keys, (t: string) => Tf(st.postings, t, id))
  {
    hide Count;
    var p := st.postings;
    var f := (t: string) => Tf(p, t, id);
    if id in docs {
      var tokens := docs[id];
      forall t | t in tokens ensures t in p.Keys {
        CountIn(tokens, t);
        assert Tf(p, t, id) == DocCount(docs, t, id);
      }
      CountsSum(tokens, p.Keys);
      SumSame(p.Keys, f, (t: string) => Count(tokens, t));
    } else {
      SumZero(p.Keys, f);
    }
  }
}
