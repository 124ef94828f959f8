/** The graph as the source keeps it: an object that insertions update in place. */
module HnswIndex {
  import opened Sequences
  import opened Wrappers
  import opened Ranking
  import opened HnswSearch
  import opened HnswGraph

  datatype Neighbor = Neighbor(id: RecordId, score: real, distance: real)

  /** A record under the ranked order of vector search: score descending, then id ascending. */
  function Score(metric: Metric, query: Vector, entry: (RecordId, Vector)): Ranked<Neighbor> {
    var s := metric.similarity(query, entry.1);
    Ranked(-s, entry.0, Neighbor(entry.0, s, metric.distance(query, entry.1)))
  }

  /** The full sort of the given entries, cut to the first `k`. */
  function FullSort(metric: Metric, query: Vector, entries: seq<(RecordId, Vector)>, k: nat): seq<Neighbor> {
    Items(Take(Sort(MapSeq((e: (RecordId, Vector)) => Score(metric, query, e), entries)), k))
  }

  function EntryOf(g: Graph, n: nat): (RecordId, Vector) {
    if n < |g.ids| && n < |g.vectors| then (g.ids[n], g.vectors[n]) else (0, [])
  }

  function Entries(g: Graph, nodes: seq<nat>): seq<(RecordId, Vector)> {
    MapSeq(n => EntryOf(g, n), nodes)
  }

  ghost function AllEntries(g: Graph): seq<(RecordId, Vector)> {
    Entries(g, Range(|g.ids|))
  }

  ghost function Range(n: nat): (r: seq<nat>)
    ensures |r| == n && forall i :: 0 <= i < n ==> r[i] == i
  {
    seq(n, i => i)
  }

  method Drain(s: set<nat>) returns (out: seq<nat>)
    ensures NoRepeats(out) && Elements(out) == s
  {
    out := [];
    var rest := s;
    while rest != {}
      invariant NoRepeats(out) && rest <= s && Elements(out) == s - rest
      decreases |rest|
    {
      var x :| x in rest;
      assert x !in out by {
        assert x !in Elements(out);
      }
      assert Elements(out + [x]) == Elements(out) + {x};
      out := out + [x];
      rest := rest - {x};
    }
  }

  // ---- what a search on one layer sees ----

  /** Nodes an insertion of `idx` may start a layer-`l` search from. */
  ghost predicate EntryOk(links: Links, idx: nat, eps: set<nat>, l: nat) {
    eps != {} && forall e :: e in eps ==> e != idx && HasLayer(links, e, l)
  }

  ghost function Eligible(links: Links, idx: nat, l: nat): set<nat> {
    set n | n in Nodes(|links|) && n != idx && HasLayer(links, n, l)
  }

  lemma EligibleClosed(links: Links, m: nat, idx: nat, l: nat)
    requires LinksOk(links, m) && Unlinked(links, idx)
    ensures Closed(links, l, Eligible(links, idx, l))
  {
    forall n, x | n in Eligible(links, idx, l) && x in Adj(links, n, l) ensures x in Eligible(links, idx, l) {
      assert AdjOk(links, n, l, m);
    }
  }

  /** A search never leaves the layer and never meets the node being inserted. */
  lemma SearchStays(metric: Metric, g: Graph, m: nat, idx: nat, query: Vector, eps: set<nat>, ef: nat, l: nat,
                    visited: set<nat>, kept: set<nat>)
    requires LinksOk(g.links, m) && Unlinked(g.links, idx) && EntryOk(g.links, idx, eps, l)
    requires SearchResult(metric, g, query, eps, ef, l, visited, kept)
    ensures kept <= Eligible(g.links, idx, l)
    ensures kept != {} ==> EntryOk(g.links, idx, kept, l)
  {
    hide LinksOk, Unlinked, Best, Expanded;
    EligibleClosed(g.links, m, idx, l);
    assert eps <= Eligible(g.links, idx, l);
    assert visited <= Eligible(g.links, idx, l);
    BestShape(metric, g, query, ef, visited, kept);
  }

  ghost predicate SameLayer(g: Graph, g': Graph, l: nat) {
    g.vectors == g'.vectors && forall n: nat :: Adj(g.links, n, l) == Adj(g'.links, n, l)
  }

  lemma ClosedSame(g: Graph, g': Graph, l: nat, c: set<nat>)
    requires SameLayer(g, g', l)
    ensures Closed(g.links, l, c) == Closed(g'.links, l, c)
  {
  }

  /** A search depends on the links of its own layer only. */
  lemma SearchSame(metric: Metric, g: Graph, g': Graph, query: Vector, eps: set<nat>, ef: nat, l: nat,
                   visited: set<nat>, kept: set<nat>)
    requires SameLayer(g, g', l) && SearchResult(metric, g, query, eps, ef, l, visited, kept)
    ensures SearchResult(metric, g', query, eps, ef, l, visited, kept)
  {
    hide Closed;
    forall c: set<nat> | eps <= c && Closed(g'.links, l, c) ensures visited <= c {
      ClosedSame(g, g', l, c);
    }
    assert forall n: nat :: Dist(metric, g, query, n) == Dist(metric, g', query, n);
    assert Best(metric, g', query, ef, visited, kept);
  }

  /** The neighbours of a new node: the closest `m` of what a beam search from `eps` found on its layer. */
  ghost predicate FromSearch(metric: Metric, g: Graph, query: Vector, m: nat, ef: nat, l: nat, eps: set<nat>,
                             found: set<nat>, choice: seq<nat>) {
    exists visited: set<nat>, order: seq<nat> ::
      && NoRepeats(order) && Elements(order) == found
      && SearchResult(metric, g, query, eps, ef, l, visited, found)
      && choice == Closest(metric, g, query, order, m)
  }

  /** One greedy step: a search of width 1 from `a` on layer `l` ends at `b`. */
  ghost predicate Greedy(metric: Metric, g: Graph, query: Vector, l: nat, a: nat, b: nat) {
    exists visited :: SearchResult(metric, g, query, {a}, 1, l, visited, {b})
  }

  /** Greedy steps on the layers from `top` down to just above `floor` lead from `start` to `node`. */
  ghost predicate Descended(metric: Metric, g: Graph, query: Vector, start: nat, top: nat, floor: nat, node: nat)
    decreases top - floor, 0
  {
    if top <= floor then node == start else DescendedPast(metric, g, query, start, top, floor + 1, node)
  }

  ghost predicate DescendedPast(metric: Metric, g: Graph, query: Vector, start: nat, top: nat, l: nat, node: nat)
    decreases top - l, 1
  {
    exists mid :: Descended(metric, g, query, start, top, l, mid) && Greedy(metric, g, query, l, mid, node)
  }

  /** Where the search on layer `l` of an insertion starts: at the end of the descent on the first
      layer, and then at what the layer above found. */
  ghost function EntriesAt(start: nat, node: nat, found: map<nat, set<nat>>, l: nat): set<nat> {
    if l + 1 !in found then {node} else if found[l + 1] == {} then {start} else found[l + 1]
  }

  // ---- joining one neighbour at a time ----

  lemma ClosestSame(metric: Metric, g: Graph, g': Graph, base: Vector, s: seq<nat>, k: nat)
    requires g.ids == g'.ids && g.vectors == g'.vectors
    ensures Closest(metric, g, base, s, k) == Closest(metric, g', base, s, k)
  {
    hide Sort;
    assert Keyed(metric, g, base, s) == Keyed(metric, g', base, s);
  }

  function SetAdj(links: Links, n: nat, l: nat, adj: seq<nat>): Links
    requires HasLayer(links, n, l)
  {
    links[n := links[n][l := adj]]
  }

  lemma SetAdjTwice(links: Links, n: nat, l: nat, a: seq<nat>, b: seq<nat>)
    requires HasLayer(links, n, l)
    ensures SetAdj(SetAdj(links, n, l, a), n, l, b) == SetAdj(links, n, l, b)
  {
    assert links[n][l := a][l := b] == links[n][l := b];
  }

  lemma JoinStep(metric: Metric, g: Graph, m: nat, idx: nat, chosen: map<nat, seq<nat>>, l: nat,
                 choice: seq<nat>, i: nat, links: Links)
    requires Sized(g) && HasLayer(g.links, idx, l) && i < |choice| && ChoiceOk(g, m, idx, l, choice)
    requires Effect(metric, g, m, idx, chosen[l := choice[..i]], links)
    ensures var nb := choice[i];
            && nb in choice && HasLayer(links, nb, l) && HasLayer(links, idx, l) && nb != idx
            && links[nb][l] == g.links[nb][l]
            && links[idx][l] == choice[..i]
            && var links1 := SetAdj(links, idx, l, choice[..i] + [nb]);
               var links2 := SetAdj(links1, nb, l, Trim(metric, g, nb, g.links[nb][l] + [idx], MaxDegree(m, l)));
               Effect(metric, g, m, idx, chosen[l := choice[..i + 1]], links2)
  {
    hide Trim;
    var nb := choice[i];
    assert choice[..i + 1] == choice[..i] + [nb];
    assert nb !in choice[..i];
    assert HasLayer(g.links, nb, l);
    var links1 := SetAdj(links, idx, l, choice[..i] + [nb]);
    var links2 := SetAdj(links1, nb, l, Trim(metric, g, nb, g.links[nb][l] + [idx], MaxDegree(m, l)));
    forall n: nat, k: nat | HasLayer(g.links, n, k)
      ensures links2[n][k] == Expected(metric, g, m, idx, chosen[l := choice[..i + 1]], n, k)
    {
      assert links[n][k] == Expected(metric, g, m, idx, chosen[l := choice[..i]], n, k);
    }
  }

  lemma JoinStart(metric: Metric, g: Graph, m: nat, idx: nat, chosen: map<nat, seq<nat>>, l: nat, links: Links)
    requires Sized(g) && HasLayer(g.links, idx, l) && g.links[idx][l] == [] && l !in chosen
    requires Effect(metric, g, m, idx, chosen, links)
    ensures Effect(metric, g, m, idx, chosen[l := []], links)
  {
    hide Trim;
  }

  lemma EffectShaped(metric: Metric, g: Graph, m: nat, idx: nat, chosen: map<nat, seq<nat>>, links: Links)
    requires LinksOk(g.links, m) && Unlinked(g.links, idx)
    requires ChoicesOk(g, m, idx, chosen) && Effect(metric, g, m, idx, chosen, links)
    ensures Shaped(Graph(g.ids, g.vectors, links))
    ensures forall l: nat :: l !in chosen ==> SameLayer(Graph(g.ids, g.vectors, links), g, l)
  {
    hide Trim, ChoicesOk;
    EffectLinksOk(metric, g, m, idx, chosen, links);
    forall n: nat, l: nat, x | HasLayer(links, n, l) && x in links[n][l] ensures x < |links| {
      assert AdjOk(links, n, l, m);
    }
    forall l: nat | l !in chosen ensures SameLayer(Graph(g.ids, g.vectors, links), g, l) {
      forall n: nat ensures Adj(links, n, l) == Adj(g.links, n, l) {
        assert HasLayer(g.links, n, l) == HasLayer(links, n, l);
      }
    }
  }

  /** A graph as a value: its nodes and links, entry node and top layer. */
  datatype Built = Built(graph: Graph, entry: Option<nat>, maxLayer: nat)

  class Hnsw {
    const metric: Metric
    const m: nat
    const efConstruction: nat
    var ids: seq<RecordId>
    var vectors: seq<Vector>
    var links: Links
    var entry: Option<nat>
    var maxLayer: nat

    ghost predicate Valid()
      reads this
    {
      WellFormed(View(), entry, maxLayer, m)
    }

    function View(): Graph
      reads this
    {
      Graph(ids, vectors, links)
    }

    /** Everything an insertion changes. */
    function Value(): Built
      reads this
    {
      Built(View(), entry, maxLayer)
    }

    constructor (metric: Metric, m: nat, efConstruction: nat)
      ensures this.metric == metric && this.m == m && this.efConstruction == efConstruction
      ensures View() == Graph([], [], []) && entry == None && maxLayer == 0
      ensures Valid()
    {
      this.metric, this.m, this.efConstruction := metric, m, efConstruction;
      ids, vectors, links := [], [], [];
      entry, maxLayer := None, 0;
    }

    /** Re-prune a node's neighbours to the closest `budget`. */
    method Prune(n: nat, layer: nat, budget: nat)
      requires n < |vectors| && HasLayer(links, n, layer)
      modifies this`links
      ensures links == SetAdj(old(links), n, layer, Closest(metric, old(View()), vectors[n], old(links[n][layer]), budget))
    {
      var adj := Closest(metric, View(), vectors[n], links[n][layer], budget);
      links := SetAdj(links, n, layer, adj);
    }

    /** Connect the new node both ways to its chosen neighbours on one layer. */
    method Join(ghost g: Graph, idx: nat, ghost chosen: map<nat, seq<nat>>, layer: nat, choice: seq<nat>)
      requires ids == g.ids && vectors == g.vectors
      requires Sized(g) && HasLayer(g.links, idx, layer) && g.links[idx][layer] == [] && layer !in chosen
      requires ChoiceOk(g, m, idx, layer, choice) && Effect(metric, g, m, idx, chosen, links)
      modifies this`links
      ensures Effect(metric, g, m, idx, chosen[layer := choice], links)
    {
      hide Trim, Closest, Effect;
      JoinStart(metric, g, m, idx, chosen, layer, links);
      assert choice[..0] == [];
      var i := 0;
      while i < |choice|
        invariant 0 <= i <= |choice|
        invariant Effect(metric, g, m, idx, chosen[layer := choice[..i]], links)
      {
        var nb := choice[i];
        EffectShape(metric, g, m, idx, chosen[layer := choice[..i]], links);
        JoinStep(metric, g, m, idx, chosen, layer, choice, i, links);
        links := SetAdj(links, idx, layer, links[idx][layer] + [nb]);
        ghost var before := links;
        links := SetAdj(links, nb, layer, links[nb][layer] + [idx]);
        var budget := MaxDegree(m, layer);
        if |links[nb][layer]| > budget {
          ClosestSame(metric, View(), g, vectors[nb], links[nb][layer], budget);
          TrimLong(metric, g, nb, links[nb][layer], budget);
          SetAdjTwice(before, nb, layer, links[nb][layer], Trim(metric, g, nb, links[nb][layer], budget));
          Prune(nb, layer, budget);
        } else {
          TrimShort(metric, g, nb, links[nb][layer], budget);
        }
        i := i + 1;
      }
      assert choice[..i] == choice;
    }

    /** Greedy descent (`ef = 1`) from layer `top` to just above layer `floor`. */
    method Descend(ghost idx: nat, query: Vector, start: nat, top: nat, floor: nat) returns (node: nat)
      requires Shaped(View()) && LinksOk(links, m) && Unlinked(links, idx)
      requires EntryOk(links, idx, {start}, top)
      ensures EntryOk(links, idx, {node}, if top < floor then top else floor)
      ensures Descended(metric, View(), query, start, top, floor, node)
    {
      hide LinksOk, Unlinked, InRange, SearchResult;
      node := start;
      var lc := top;
      while lc > floor
        invariant lc <= top && (floor <= top ==> floor <= lc) && (top <= floor ==> lc == top)
        invariant EntryOk(links, idx, {node}, lc)
        invariant Descended(metric, View(), query, start, top, lc, node)
      {
        var found, visited := SearchLayer(metric, View(), query, {node}, 1, lc);
        SearchStays(metric, View(), m, idx, query, {node}, 1, lc, visited, found);
        SomethingKept(metric, View(), query, {node}, 1, lc, visited, found);
        SingleKept(metric, View(), query, {node}, lc, visited, found);
        var best := PeekClosest(metric, View(), query, found);
        assert Greedy(metric, View(), query, lc, node, best);
        assert DescendedPast(metric, View(), query, start, top, lc, best);
        node := best;
        lc := lc - 1;
      }
    }

    /** Search one layer for the new node and connect it there. */
    method ConnectLayer(ghost g: Graph, idx: nat, query: Vector, start: nat, ep: set<nat>, layer: nat,
                        ghost chosen: map<nat, seq<nat>>) returns (ep': set<nat>, choice: seq<nat>, ghost found: set<nat>)
      requires ids == g.ids && vectors == g.vectors
      requires Sized(g) && LinksOk(g.links, m) && Unlinked(g.links, idx)
      requires HasLayer(g.links, idx, layer) && g.links[idx][layer] == [] && layer !in chosen
      requires ChoicesOk(g, m, idx, chosen) && Effect(metric, g, m, idx, chosen, links)
      requires EntryOk(g.links, idx, ep, layer) && EntryOk(g.links, idx, {start}, layer)
      modifies this`links
      ensures Effect(metric, g, m, idx, chosen[layer := choice], links)
      ensures ChoicesOk(g, m, idx, chosen[layer := choice])
      ensures FromSearch(metric, g, query, m, efConstruction, layer, ep, found, choice)
      ensures m > 0 && efConstruction > 0 ==> choice != []
      ensures EntryOk(g.links, idx, ep', layer) && ep' == if found == {} then {start} else found
    {
      hide LinksOk, Unlinked, InRange, Effect, SearchResult, Closest, SameLayer;
      EffectShaped(metric, g, m, idx, chosen, links);
      EffectShape(metric, g, m, idx, chosen, links);
      var candidates, visited := SearchLayer(metric, View(), query, ep, efConstruction, layer);
      SearchSame(metric, View(), g, query, ep, efConstruction, layer, visited, candidates);
      SearchStays(metric, g, m, idx, query, ep, efConstruction, layer, visited, candidates);
      if efConstruction > 0 {
        SomethingKept(metric, g, query, ep, efConstruction, layer, visited, candidates);
      }
      var order := Drain(candidates);
      found := candidates;
      choice := Closest(metric, View(), query, order, m);
      ClosestSame(metric, View(), g, query, order, m);
      ChoiceFromSearch(metric, g, m, idx, query, layer, order);
      assert FromSearch(metric, g, query, m, efConstruction, layer, ep, found, choice);
      Join(g, idx, chosen, layer, choice);
      ep' := if candidates == {} then {start} else candidates;
    }

    /** Connect the new node on every layer from `top` down to the base. */
    method ConnectDown(ghost g: Graph, idx: nat, query: Vector, start: nat, node: nat, top: nat)
      returns (ghost chosen: map<nat, seq<nat>>, ghost found: map<nat, set<nat>>)
      requires ids == g.ids && vectors == g.vectors && links == g.links
      requires Sized(g) && LinksOk(g.links, m) && Unlinked(g.links, idx)
      requires HasLayer(g.links, idx, top) && forall l :: 0 <= l <= top ==> g.links[idx][l] == []
      requires EntryOk(g.links, idx, {node}, top) && EntryOk(g.links, idx, {start}, top)
      modifies this`links
      ensures Inserted(metric, g, m, efConstruction, idx, query, start, node, top, chosen, found, links)
      ensures m > 0 && efConstruction > 0 ==> chosen[0] != []
    {
      hide LinksOk, Unlinked, Effect, ChoicesOk, FromSearch, Searched, EntriesAt;
      chosen, found := map[], map[];
      NothingJoined(metric, g, m, idx);
      NothingSearched(metric, g, query, m, efConstruction, start, node, top);
      var lc, ep := top + 1, {node};
      while lc > 0
        invariant 0 <= lc <= top + 1
        invariant Searched(metric, g, query, m, efConstruction, start, node, lc, top, chosen, found)
        invariant ChoicesOk(g, m, idx, chosen) && Effect(metric, g, m, idx, chosen, links)
        invariant lc == 0 ==> 0 in chosen
        invariant lc == 0 && m > 0 && efConstruction > 0 ==> chosen[0] != []
        invariant EntryOk(g.links, idx, ep, if lc == 0 then 0 else lc - 1)
        invariant lc > 0 ==> lc - 1 !in chosen && ep == EntriesAt(start, node, found, lc - 1)
      {
        lc := lc - 1;
        var choice;
        ghost var kept;
        ep, choice, kept := ConnectLayer(g, idx, query, start, ep, lc, chosen);
        SearchedStep(metric, g, query, m, efConstruction, start, node, lc, top, chosen, found, choice, kept);
        chosen, found := chosen[lc := choice], found[lc := kept];
        SearchedKeys(metric, g, query, m, efConstruction, start, node, lc, top, chosen, found);
      }
    }

    /** `insert`: any layer may be drawn.  The graph stays well formed, and while it has at most
        `2m + 1` nodes its base layer stays connected. */
    method Insert(id: RecordId, vector: Vector, layer: nat)
      returns (ghost chosen: map<nat, seq<nat>>, ghost found: map<nat, set<nat>>, ghost node: nat)
      requires Valid()
      modifies this
      ensures Valid()
      ensures ids == old(ids) + [id] && vectors == old(vectors) + [vector]
      ensures if old(entry).None? then links == [Empties(layer + 1)] && entry == Some(0) && maxLayer == layer
              else
                && Descended(metric, Isolated(old(View()), id, vector, layer), vector, old(entry).value, old(maxLayer), layer, node)
                && Inserted(metric, Isolated(old(View()), id, vector, layer), m, efConstruction, |old(ids)|, vector,
                            old(entry).value, node, if layer < old(maxLayer) then layer else old(maxLayer), chosen, found, links)
                && entry == (if layer > old(maxLayer) then Some(|old(ids)|) else old(entry))
                && maxLayer == (if layer > old(maxLayer) then layer else old(maxLayer))
      ensures m > 0 && efConstruction > 0 && |ids| <= 2 * m + 1 && BaseConnected(old(links)) ==> BaseConnected(links)
    {
      hide LinksOk, Unlinked, Inserted, BaseConnected, Descended;
      ghost var was := View();
      var idx := |ids|;
      IsolatedOk(was, m, id, vector, layer);
      IsolatedUnlinked(was, m, id, vector, layer);
      ids, vectors, links := ids + [id], vectors + [vector], links + [Empties(layer + 1)];
      ghost var g := View();
      assert g == Isolated(was, id, vector, layer);
      chosen, found, node := map[], map[], 0;
      if entry.None? {
        entry, maxLayer := Some(idx), layer;
        SingleConnected(layer);
        return;
      }
      var start, top := entry.value, maxLayer;
      ShapedFromLinks(g, m);
      var bottom := Descend(idx, vector, start, top, layer);
      node := bottom;
      var from := if layer < top then layer else top;
      chosen, found := ConnectDown(g, idx, vector, start, bottom, from);
      if layer > maxLayer {
        maxLayer, entry := layer, Some(idx);
      }
      InsertedLinksOk(metric, g, m, efConstruction, idx, vector, start, node, from, chosen, found, links);
      if m > 0 && efConstruction > 0 && |ids| <= 2 * m + 1 && BaseConnected(old(links)) {
        InsertedConnects(metric, was, m, efConstruction, id, vector, layer, start, node, from, chosen, found, links);
      }
    }

    /** `nearest`: the beam's candidates re-ranked by exact similarity. */
    method Nearest(query: Vector, k: nat, efSearch: nat) returns (out: seq<Neighbor>)
      requires Valid()
      ensures k == 0 || ids == [] ==> out == []
      ensures k > 0 && ids != [] ==>
                Approximates(metric, View(), entry.value, maxLayer, query, k, if efSearch < k then k else efSearch, out)
      ensures BaseConnected(links) && |ids| <= (if efSearch < k then k else efSearch) && NoRepeats(ids) ==>
                out == FullSort(metric, query, AllEntries(View()), k)
    {
      hide LinksOk, BaseConnected, FullSort, SearchResult, Sort;
      if ids == [] || k == 0 {
        NothingRanked(metric, View(), query, k);
        return [];
      }
      ghost var idx := |links|;
      var start := entry.value;
      ShapedFromLinks(View(), m);
      ShapedUnlinked(links);
      var node := Descend(idx, query, start, maxLayer, 0);
      ghost var ep := {node};
      var ef := if efSearch < k then k else efSearch;
      var candidates, visited := SearchLayer(metric, View(), query, {node}, ef, 0);
      var found := Drain(candidates);
      out := FullSort(metric, query, Entries(View(), found), k);
      SearchStays(metric, View(), m, idx, query, ep, ef, 0, visited, candidates);
      assert BeamAnswer(metric, View(), query, k, ef, node, visited, found, out);
      if BaseConnected(links) && |ids| <= ef && NoRepeats(ids) {
        WideBeamIsReachability(metric, View(), query, ep, ef, 0, visited, candidates);
        ConnectedFills(links, candidates);
        EveryNodeFound(metric, View(), query, k, found);
      }
    }
  }

  /** Node `idx` was joined on every layer from `top` down, each time to the closest nodes of a search
      that starts from what the layer above found, and on layer `top` from `node`. */
  ghost predicate Inserted(metric: Metric, g: Graph, m: nat, ef: nat, idx: nat, query: Vector, start: nat, node: nat, top: nat,
                           chosen: map<nat, seq<nat>>, found: map<nat, set<nat>>, links: Links) {
    && ChoicesOk(g, m, idx, chosen)
    && Effect(metric, g, m, idx, chosen, links)
    && Searched(metric, g, query, m, ef, start, node, 0, top, chosen, found)
  }

  /** The layers from `top` down to `bottom` have been searched and chosen from. */
  ghost predicate Searched(metric: Metric, g: Graph, query: Vector, m: nat, ef: nat, start: nat, node: nat, bottom: nat, top: nat,
                           chosen: map<nat, seq<nat>>, found: map<nat, set<nat>>) {
    && (forall l: nat :: (l in chosen <==> bottom <= l <= top) && (l in found <==> bottom <= l <= top))
    && forall l: nat :: bottom <= l <= top ==>
         FromSearch(metric, g, query, m, ef, l, EntriesAt(start, node, found, l), found[l], chosen[l])
  }

  lemma SearchedStep(metric: Metric, g: Graph, query: Vector, m: nat, ef: nat, start: nat, node: nat, l: nat, top: nat,
                     chosen: map<nat, seq<nat>>, found: map<nat, set<nat>>, choice: seq<nat>, kept: set<nat>)
    requires l <= top && Searched(metric, g, query, m, ef, start, node, l + 1, top, chosen, found)
    requires FromSearch(metric, g, query, m, ef, l, EntriesAt(start, node, found, l), kept, choice)
    ensures Searched(metric, g, query, m, ef, start, node, l, top, chosen[l := choice], found[l := kept])
    ensures l > 0 ==> EntriesAt(start, node, found[l := kept], l - 1) == if kept == {} then {start} else kept
  {
    hide FromSearch;
    var found' := found[l := kept];
    forall i: nat | l <= i <= top ensures EntriesAt(start, node, found', i) == EntriesAt(start, node, found, i) { }
  }

  lemma NothingJoined(metric: Metric, g: Graph, m: nat, idx: nat)
    requires Sized(g)
    ensures Effect(metric, g, m, idx, map[], g.links) && ChoicesOk(g, m, idx, map[])
  {
  }

  lemma NothingSearched(metric: Metric, g: Graph, query: Vector, m: nat, ef: nat, start: nat, node: nat, top: nat)
    ensures Searched(metric, g, query, m, ef, start, node, top + 1, top, map[], map[])
    ensures EntriesAt(start, node, map[], top) == {node}
  {
  }

  lemma SearchedKeys(metric: Metric, g: Graph, query: Vector, m: nat, ef: nat, start: nat, node: nat, l: nat, top: nat,
                     chosen: map<nat, seq<nat>>, found: map<nat, set<nat>>)
    requires l <= top && Searched(metric, g, query, m, ef, start, node, l, top, chosen, found)
    ensures l in chosen && (l > 0 ==> l - 1 !in chosen)
  {
  }

  lemma InsertedLinksOk(metric: Metric, g: Graph, m: nat, ef: nat, idx: nat, query: Vector, start: nat, node: nat, top: nat,
                        chosen: map<nat, seq<nat>>, found: map<nat, set<nat>>, links: Links)
    requires LinksOk(g.links, m) && Unlinked(g.links, idx)
    requires Inserted(metric, g, m, ef, idx, query, start, node, top, chosen, found, links)
    ensures LinksOk(links, m) && SameShape(g.links, links)
  {
    hide LinksOk, Unlinked, ChoicesOk, FromSearch, Effect;
    EffectLinksOk(metric, g, m, idx, chosen, links);
    EffectShape(metric, g, m, idx, chosen, links);
  }

  lemma InsertedConnects(metric: Metric, g: Graph, m: nat, ef: nat, id: RecordId, vector: Vector, layer: nat,
                         start: nat, node: nat, top: nat, chosen: map<nat, seq<nat>>, found: map<nat, set<nat>>, links: Links)
    requires Sized(g) && LinksOk(g.links, m) && BaseConnected(g.links) && |g.links| + 1 <= 2 * m + 1
    requires forall n :: 0 <= n < |g.links| ==> |g.links[n]| >= 1
    requires Inserted(metric, Isolated(g, id, vector, layer), m, ef, |g.links|, vector, start, node, top, chosen, found, links)
    requires chosen[0] != []
    ensures BaseConnected(links)
  {
    hide LinksOk, ChoicesOk, FromSearch, Effect, BaseConnected;
    InsertConnects(metric, g, m, id, vector, layer, chosen, links);
  }

  lemma SingleConnected(layer: nat)
    ensures BaseConnected([Empties(layer + 1)]) && LinksOk([Empties(layer + 1)], 0)
  {
    var links := [Empties(layer + 1)];
    forall s: set<nat> | s != {} && s <= Nodes(1) && Closed(links, 0, s) ensures s == Nodes(1) {
      var x :| x in s;
      assert x == 0;
    }
  }

  lemma ShapedFromLinks(g: Graph, m: nat)
    requires Sized(g) && LinksOk(g.links, m)
    ensures Shaped(g)
  {
    forall n: nat, l: nat, x | HasLayer(g.links, n, l) && x in g.links[n][l] ensures x < |g.links| {
      assert AdjOk(g.links, n, l, m);
    }
  }

  lemma ShapedUnlinked(links: Links)
    requires InRange(links)
    ensures Unlinked(links, |links|)
  {
  }

  // ---- exactness ----

  /** The exact ranking of the nodes a base-layer beam search from `node` kept. */
  ghost predicate BeamAnswer(metric: Metric, g: Graph, query: Vector, k: nat, ef: nat, node: nat, visited: set<nat>,
                             found: seq<nat>, out: seq<Neighbor>) {
    && NoRepeats(found) && Elements(found) <= Nodes(|g.links|)
    && SearchResult(metric, g, query, {node}, ef, 0, visited, Elements(found))
    && out == FullSort(metric, query, Entries(g, found), k)
  }

  /** The answer ranks what the beam keeps when started where the greedy descent from the entry ends. */
  ghost predicate Approximates(metric: Metric, g: Graph, entry: nat, maxLayer: nat, query: Vector, k: nat, ef: nat, out: seq<Neighbor>) {
    exists node, visited, found ::
      Descended(metric, g, query, entry, maxLayer, 0, node) && BeamAnswer(metric, g, query, k, ef, node, visited, found, out)
  }

  lemma SingleKept(metric: Metric, g: Graph, query: Vector, eps: set<nat>, l: nat, visited: set<nat>, kept: set<nat>)
    requires SearchResult(metric, g, query, eps, 1, l, visited, kept) && kept != {}
    ensures forall x :: x in kept ==> kept == {x}
  {
    hide Reached, Expanded, Dist;
    assert |kept| == 1;
    forall x | x in kept ensures kept == {x} {
      assert |kept - {x}| == 0;
    }
  }

  lemma NothingRanked(metric: Metric, g: Graph, query: Vector, k: nat)
    requires Sized(g) && (g.ids == [] || k == 0)
    ensures FullSort(metric, query, AllEntries(g), k) == []
  {
  }

  lemma SameElements(a: seq<nat>, b: seq<nat>)
    requires NoRepeats(a) && NoRepeats(b) && Elements(a) == Elements(b)
    ensures multiset(a) == multiset(b)
  {
    CountsOfDistinct(a);
    CountsOfDistinct(b);
    forall x ensures multiset(a)[x] == multiset(b)[x] {
      assert x in a <==> x in Elements(a);
      assert x in b <==> x in Elements(b);
    }
  }

  lemma DistinctEntries(metric: Metric, g: Graph, query: Vector)
    requires Sized(g) && NoRepeats(g.ids)
    ensures DistinctIds(MapSeq((e: (RecordId, Vector)) => Score(metric, query, e), AllEntries(g)))
  {
  }

  /** Ranking all nodes in any order is the full sort. */
  lemma EveryNodeFound(metric: Metric, g: Graph, query: Vector, k: nat, found: seq<nat>)
    requires Sized(g) && NoRepeats(g.ids) && NoRepeats(found) && Elements(found) == Nodes(|g.ids|)
    ensures FullSort(metric, query, Entries(g, found), k) == FullSort(metric, query, AllEntries(g), k)
  {
    hide Sort;
    var f := (e: (RecordId, Vector)) => Score(metric, query, e);
    var all := Range(|g.ids|);
    assert Elements(all) == Nodes(|g.ids|) by {
      forall i: nat | i < |g.ids| ensures i in all {
        assert all[i] == i;
      }
    }
    SameElements(found, all);
    PermutedMap(n => EntryOf(g, n), found, all);
    PermutedMap(f, Entries(g, found), AllEntries(g));
    DistinctEntries(metric, g, query);
    OrderIndependent(MapSeq(f, AllEntries(g)), MapSeq(f, Entries(g, found)));
  }

  lemma ChoiceFromSearch(metric: Metric, g: Graph, m: nat, idx: nat, query: Vector, l: nat, found: seq<nat>)
    requires NoRepeats(found) && Elements(found) <= Eligible(g.links, idx, l)
    ensures ChoiceOk(g, m, idx, l, Closest(metric, g, query, found, m))
    ensures m > 0 && Elements(found) != {} ==> Closest(metric, g, query, found, m) != []
  {
    hide Closest;
    ClosestChooses(metric, g, query, found, m);
    forall x | x in Closest(metric, g, query, found, m) ensures x != idx && HasLayer(g.links, x, l) {
      assert x in Elements(found);
    }
  }

  lemma EffectShape(metric: Metric, g: Graph, m: nat, idx: nat, chosen: map<nat, seq<nat>>, links: Links)
    requires Effect(metric, g, m, idx, chosen, links)
    ensures SameShape(g.links, links)
  {
  }

  lemma TrimLong(metric: Metric, g: Graph, n: nat, adj: seq<nat>, budget: nat)
    requires n < |g.vectors| && |adj| > budget
    ensures Trim(metric, g, n, adj, budget) == Closest(metric, g, g.vectors[n], adj, budget)
  {
    hide Closest;
  }

  lemma TrimShort(metric: Metric, g: Graph, n: nat, adj: seq<nat>, budget: nat)
    requires n < |g.vectors| && |adj| <= budget
    ensures Trim(metric, g, n, adj, budget) == adj
  {
    hide Closest;
  }
}
