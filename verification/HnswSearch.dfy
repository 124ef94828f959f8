/** The layered proximity graph (crates/auradb-index/src/hnsw.rs) and its beam search. */
module HnswSearch {
  import opened Sequences
  import opened Wrappers
  import Values

  type Vector = seq<Values.Float64>

  /** A similarity metric, left abstract: higher similarity is closer. */
  datatype Metric = Metric(similarity: (Vector, Vector) -> real, distance: (Vector, Vector) -> real)

  /** `links[n][l]` is the adjacency list of node `n` at layer `l`. */
  datatype Graph = Graph(ids: seq<RecordId>, vectors: seq<Vector>, links: seq<seq<seq<nat>>>)

  predicate HasLayer(links: seq<seq<seq<nat>>>, n: nat, layer: nat) {
    n < |links| && layer < |links[n]|
  }

  /** The adjacency of a node; a missing node or layer has none. */
  function Adj(links: seq<seq<seq<nat>>>, n: nat, layer: nat): seq<nat> {
    if HasLayer(links, n, layer) then links[n][layer] else []
  }

  ghost predicate InRange(links: seq<seq<seq<nat>>>) {
    forall n: nat, l: nat, x :: HasLayer(links, n, l) && x in links[n][l] ==> x < |links|
  }

  ghost predicate Shaped(g: Graph) {
    |g.ids| == |g.vectors| == |g.links| && InRange(g.links)
  }

  ghost function Nodes(n: nat): (s: set<nat>)
    ensures |s| == n && forall i: nat :: i in s <==> i < n
  {
    if n == 0 then {} else Nodes(n - 1) + {n - 1}
  }

  /** `-similarity`: lower is closer. */
  function Dist(metric: Metric, g: Graph, query: Vector, n: nat): real {
    if n < |g.vectors| then -metric.similarity(query, g.vectors[n]) else 0.0
  }

  /** The query is at least as similar to node `a` as to node `b`. */
  ghost predicate AsSimilar(metric: Metric, g: Graph, query: Vector, a: nat, b: nat) {
    a < |g.vectors| && b < |g.vectors| ==> metric.similarity(query, g.vectors[a]) >= metric.similarity(query, g.vectors[b])
  }

  lemma CloserIsMoreSimilar(metric: Metric, g: Graph, query: Vector, a: nat, b: nat)
    requires a < |g.vectors| && b < |g.vectors|
    ensures Dist(metric, g, query, a) <= Dist(metric, g, query, b) <==> AsSimilar(metric, g, query, a, b)
  {
  }

  ghost predicate Closed(links: seq<seq<seq<nat>>>, layer: nat, s: set<nat>) {
    forall n, x :: n in s && x in Adj(links, n, layer) ==> x in s
  }

  /** Everything in `s` is reachable from the entry points: it lies in every closed set around them. */
  ghost predicate Reached(links: seq<seq<seq<nat>>>, layer: nat, entryPoints: set<nat>, s: set<nat>) {
    forall c: set<nat> :: entryPoints <= c && Closed(links, layer, c) ==> s <= c
  }

  /** `kept` are the `ef` closest of `visited`. */
  ghost predicate Best(metric: Metric, g: Graph, query: Vector, ef: nat, visited: set<nat>, kept: set<nat>) {
    && kept <= visited
    && |kept| <= ef
    && forall v :: v in visited && v !in kept ==>
         |kept| == ef && forall r :: r in kept ==> Dist(metric, g, query, r) <= Dist(metric, g, query, v)
  }

  ghost predicate Expanded(links: seq<seq<seq<nat>>>, layer: nat, visited: set<nat>, done: set<nat>) {
    forall n, x :: n in done && x in Adj(links, n, layer) ==> x in visited
  }

  /** What a beam search promises about the nodes it visited and the ones it returns. */
  ghost predicate SearchResult(metric: Metric, g: Graph, query: Vector, entryPoints: set<nat>, ef: nat,
                               layer: nat, visited: set<nat>, kept: set<nat>) {
    && entryPoints <= visited
    && Reached(g.links, layer, entryPoints, visited)
    && Best(metric, g, query, ef, visited, kept)
    && Expanded(g.links, layer, visited, kept)
  }

  // ---- the two heaps ----

  /** The heaps order nodes by distance, then by index. */
  predicate NoFarther(metric: Metric, g: Graph, query: Vector, a: nat, b: nat) {
    var x, y := Dist(metric, g, query, a), Dist(metric, g, query, b);
    x < y || (x == y && a <= b)
  }

  lemma ClosestExists(metric: Metric, g: Graph, query: Vector, s: set<nat>) returns (c: nat)
    requires s != {}
    ensures c in s && forall x :: x in s ==> NoFarther(metric, g, query, c, x)
  {
    var first :| first in s;
    c := first;
    if s != {first} {
      var d := ClosestExists(metric, g, query, s - {first});
      if !NoFarther(metric, g, query, c, d) {
        c := d;
      }
      assert forall x :: x in s ==> x == first || x in s - {first};
    }
  }

  lemma FarthestExists(metric: Metric, g: Graph, query: Vector, s: set<nat>) returns (c: nat)
    requires s != {}
    ensures c in s && forall x :: x in s ==> NoFarther(metric, g, query, x, c)
  {
    var first :| first in s;
    c := first;
    if s != {first} {
      var d := FarthestExists(metric, g, query, s - {first});
      if !NoFarther(metric, g, query, d, c) {
        c := d;
      }
      assert forall x :: x in s ==> x == first || x in s - {first};
    }
  }

  method PeekClosest(metric: Metric, g: Graph, query: Vector, s: set<nat>) returns (c: nat)
    requires s != {}
    ensures c in s && forall x :: x in s ==> NoFarther(metric, g, query, c, x)
  {
    ghost var _ := ClosestExists(metric, g, query, s);
    c :| c in s && forall x :: x in s ==> NoFarther(metric, g, query, c, x);
  }

  method PeekFarthest(metric: Metric, g: Graph, query: Vector, s: set<nat>) returns (c: nat)
    requires s != {}
    ensures c in s && forall x :: x in s ==> NoFarther(metric, g, query, x, c)
  {
    ghost var _ := FarthestExists(metric, g, query, s);
    c :| c in s && forall x :: x in s ==> NoFarther(metric, g, query, x, c);
  }

  /** No node left out is closer than one still held. */
  ghost predicate LeftOut(metric: Metric, g: Graph, query: Vector, visited: set<nat>, held: set<nat>) {
    forall v, r :: v in visited && v !in held && r in held ==>
      Dist(metric, g, query, r) <= Dist(metric, g, query, v)
  }

  /** Evict the farthest results until at most `ef` are left. */
  method Shrink(metric: Metric, g: Graph, query: Vector, ef: nat, ghost visited: set<nat>, results: set<nat>)
    returns (kept: set<nat>)
    requires results <= visited
    requires visited != results ==> |results| >= ef
    requires ef > 0 ==> LeftOut(metric, g, query, visited, results)
    ensures kept <= results && Best(metric, g, query, ef, visited, kept)
  {
    hide Dist;
    kept := results;
    while |kept| > ef
      invariant kept <= results
      invariant visited != kept ==> |kept| >= ef
      invariant ef > 0 ==> LeftOut(metric, g, query, visited, kept)
      decreases |kept|
    {
      var far := PeekFarthest(metric, g, query, kept);
      kept := kept - {far};
    }
  }

  // ---- the search ----

  ghost predicate BeamOk(metric: Metric, g: Graph, query: Vector, eps: set<nat>, ef: nat, layer: nat,
                         visited: set<nat>, frontier: set<nat>, results: set<nat>) {
    && eps <= visited <= Nodes(|g.links|)
    && frontier <= visited
    && Reached(g.links, layer, eps, visited)
    && Best(metric, g, query, ef, visited, results)
  }

  lemma RejectBest(metric: Metric, g: Graph, query: Vector, ef: nat, visited: set<nat>, results: set<nat>, far: nat, nb: nat)
    requires Best(metric, g, query, ef, visited, results) && |results| >= ef
    requires far in results && forall x :: x in results ==> NoFarther(metric, g, query, x, far)
    requires Dist(metric, g, query, nb) >= Dist(metric, g, query, far)
    ensures Best(metric, g, query, ef, visited + {nb}, results)
  {
    hide Dist;
  }

  lemma AcceptLeftOut(metric: Metric, g: Graph, query: Vector, ef: nat, visited: set<nat>, results: set<nat>, nb: nat)
    requires Best(metric, g, query, ef, visited, results) && ef > 0
    requires |results| < ef || exists far :: far in results && Dist(metric, g, query, nb) < Dist(metric, g, query, far)
    ensures LeftOut(metric, g, query, visited + {nb}, results + {nb})
  {
    hide Dist;
    forall v, r | v in visited + {nb} && v !in results + {nb} && r in results + {nb}
      ensures Dist(metric, g, query, r) <= Dist(metric, g, query, v)
    {
      if r == nb {
        assert |results| == ef;
      }
    }
  }

  /** Meet one neighbour of the expanded node. */
  method Meet(metric: Metric, g: Graph, query: Vector, ghost eps: set<nat>, ef: nat, ghost layer: nat, ghost cand: nat,
              visited: set<nat>, frontier: set<nat>, results: set<nat>, nb: nat)
    returns (visited': set<nat>, frontier': set<nat>, results': set<nat>)
    requires BeamOk(metric, g, query, eps, ef, layer, visited, frontier, results)
    requires cand in visited && nb in Adj(g.links, cand, layer) && nb < |g.links|
    ensures BeamOk(metric, g, query, eps, ef, layer, visited', frontier', results')
    ensures visited' == visited + {nb} && frontier <= frontier'
    ensures results' - frontier' <= results - frontier
    ensures nb in visited ==> frontier' == frontier
  {
    hide Dist, NoFarther;
    visited', frontier', results' := visited + {nb}, frontier, results;
    if nb in visited {
      assert visited' == visited;
      return;
    }
    ReachNeighbour(g.links, layer, eps, visited, cand, nb);
    if |results| < ef || results == {} {
      frontier', results' := frontier + {nb}, results + {nb};
      BestSize(metric, g, query, ef, visited, results);
      if ef > 0 { AcceptLeftOut(metric, g, query, ef, visited, results, nb); }
      results' := Shrink(metric, g, query, ef, visited', results');
    } else {
      var far := PeekFarthest(metric, g, query, results);
      if Dist(metric, g, query, nb) < Dist(metric, g, query, far) {
        frontier', results' := frontier + {nb}, results + {nb};
        if ef > 0 { AcceptLeftOut(metric, g, query, ef, visited, results, nb); }
        results' := Shrink(metric, g, query, ef, visited', results');
      } else {
        RejectBest(metric, g, query, ef, visited, results, far, nb);
      }
    }
  }

  lemma BestSize(metric: Metric, g: Graph, query: Vector, ef: nat, visited: set<nat>, results: set<nat>)
    requires Best(metric, g, query, ef, visited, results)
    ensures results != visited ==> |results| == ef
  {
  }

  lemma ReachNeighbour(links: seq<seq<seq<nat>>>, layer: nat, eps: set<nat>, visited: set<nat>, cand: nat, nb: nat)
    requires Reached(links, layer, eps, visited) && cand in visited && nb in Adj(links, cand, layer)
    ensures Reached(links, layer, eps, visited + {nb})
  {
  }

  method Expand(metric: Metric, g: Graph, query: Vector, ghost eps: set<nat>, ef: nat, layer: nat, cand: nat,
                visited: set<nat>, frontier: set<nat>, results: set<nat>)
    returns (visited': set<nat>, frontier': set<nat>, results': set<nat>)
    requires Shaped(g) && BeamOk(metric, g, query, eps, ef, layer, visited, frontier, results)
    requires cand in visited
    ensures BeamOk(metric, g, query, eps, ef, layer, visited', frontier', results')
    ensures visited <= visited' && Elements(Adj(g.links, cand, layer)) <= visited'
    ensures results' - frontier' <= results - frontier
    ensures visited' == visited ==> frontier' == frontier
  {
    hide BeamOk;
    visited', frontier', results' := visited, frontier, results;
    var adj := Adj(g.links, cand, layer);
    var i := 0;
    while i < |adj|
      invariant 0 <= i <= |adj|
      invariant BeamOk(metric, g, query, eps, ef, layer, visited', frontier', results')
      invariant visited <= visited' && forall k :: 0 <= k < i ==> adj[k] in visited'
      invariant results' - frontier' <= results - frontier
      invariant visited' == visited ==> frontier' == frontier
    {
      visited', frontier', results' :=
        Meet(metric, g, query, eps, ef, layer, cand, visited', frontier', results', adj[i]);
      i := i + 1;
    }
  }

  lemma NobodyNearer(metric: Metric, g: Graph, query: Vector, frontier: set<nat>, results: set<nat>, cand: nat, far: nat)
    requires cand in frontier && forall x :: x in frontier ==> NoFarther(metric, g, query, cand, x)
    requires far in results && forall x :: x in results ==> NoFarther(metric, g, query, x, far)
    requires Dist(metric, g, query, cand) > Dist(metric, g, query, far)
    ensures results - frontier == results
  {
    hide Dist;
    assert forall x :: x in results ==> x !in frontier;
  }

  lemma ProgressSize(all: set<nat>, visited: set<nat>, visited': set<nat>)
    requires visited < visited' <= all
    ensures |all - visited'| < |all - visited|
  {
    var x :| x in visited' && x !in visited;
    SubsetSize(all - visited', all - visited - {x});
  }

  /** `search_layer`: visits each node at most once, and returns the `ef` closest of what it
      visited, all of whose neighbours it has met. */
  method SearchLayer(metric: Metric, g: Graph, query: Vector, entryPoints: set<nat>, ef: nat, layer: nat)
    returns (kept: set<nat>, ghost visited: set<nat>)
    requires Shaped(g) && forall e :: e in entryPoints ==> e < |g.links|
    ensures SearchResult(metric, g, query, entryPoints, ef, layer, visited, kept)
    ensures forall r, v :: r in kept && v in visited && v !in kept ==> AsSimilar(metric, g, query, r, v)
    ensures visited <= Nodes(|g.links|)
    ensures |kept| <= ef && kept <= Nodes(|g.links|)
  {
    hide Dist, NoFarther, Reached, Best, BeamOk, AsSimilar;
    ghost var eps := entryPoints;
    var seen, frontier, results := entryPoints, entryPoints, entryPoints;
    results := Shrink(metric, g, query, ef, seen, results);
    StartBeam(metric, g, query, eps, ef, layer, results);
    while frontier != {}
      invariant BeamOk(metric, g, query, eps, ef, layer, seen, frontier, results)
      invariant Expanded(g.links, layer, seen, results - frontier)
      decreases |Nodes(|g.links|) - seen|, |frontier|
    {
      var cand := PeekClosest(metric, g, query, frontier);
      if results != {} && |results| >= ef {
        var far := PeekFarthest(metric, g, query, results);
        if Dist(metric, g, query, cand) > Dist(metric, g, query, far) {
          NobodyNearer(metric, g, query, frontier, results, cand, far);
          break;
        }
      }
      ghost var before, seenBefore := frontier, seen;
      BeamShape(metric, g, query, eps, ef, layer, seen, frontier, results);
      frontier := frontier - {cand};
      PopBeam(metric, g, query, eps, ef, layer, seen, before, results, cand);
      seen, frontier, results := Expand(metric, g, query, eps, ef, layer, cand, seen, frontier, results);
      BeamShape(metric, g, query, eps, ef, layer, seen, frontier, results);
      if seen != seenBefore {
        ProgressSize(Nodes(|g.links|), seenBefore, seen);
      }
    }
    BeamShape(metric, g, query, eps, ef, layer, seen, frontier, results);
    kept, visited := results, seen;
    FinishBeam(metric, g, query, eps, ef, layer, seen, frontier, results);
    BestShape(metric, g, query, ef, visited, kept);
    BestAreMostSimilar(metric, g, query, ef, visited, kept);
  }

  lemma BestAreMostSimilar(metric: Metric, g: Graph, query: Vector, ef: nat, visited: set<nat>, kept: set<nat>)
    requires Best(metric, g, query, ef, visited, kept)
    ensures forall r, v :: r in kept && v in visited && v !in kept ==> AsSimilar(metric, g, query, r, v)
  {
    hide Dist;
    forall r, v | r in kept && v in visited && v !in kept ensures AsSimilar(metric, g, query, r, v) {
      if r < |g.vectors| && v < |g.vectors| {
        CloserIsMoreSimilar(metric, g, query, r, v);
      }
    }
  }

  lemma BestShape(metric: Metric, g: Graph, query: Vector, ef: nat, visited: set<nat>, kept: set<nat>)
    requires Best(metric, g, query, ef, visited, kept)
    ensures kept <= visited && |kept| <= ef
  {
  }

  lemma StartBeam(metric: Metric, g: Graph, query: Vector, eps: set<nat>, ef: nat, layer: nat, results: set<nat>)
    requires eps <= Nodes(|g.links|) && Best(metric, g, query, ef, eps, results)
    ensures BeamOk(metric, g, query, eps, ef, layer, eps, eps, results)
    ensures results - eps == {}
  {
    hide Dist;
  }

  lemma BeamShape(metric: Metric, g: Graph, query: Vector, eps: set<nat>, ef: nat, layer: nat,
                  visited: set<nat>, frontier: set<nat>, results: set<nat>)
    requires BeamOk(metric, g, query, eps, ef, layer, visited, frontier, results)
    ensures frontier <= visited <= Nodes(|g.links|) && eps <= visited && results <= visited
  {
  }

  lemma PopBeam(metric: Metric, g: Graph, query: Vector, eps: set<nat>, ef: nat, layer: nat,
                visited: set<nat>, frontier: set<nat>, results: set<nat>, cand: nat)
    requires BeamOk(metric, g, query, eps, ef, layer, visited, frontier, results)
    ensures BeamOk(metric, g, query, eps, ef, layer, visited, frontier - {cand}, results)
  {
  }

  lemma FinishBeam(metric: Metric, g: Graph, query: Vector, eps: set<nat>, ef: nat, layer: nat,
                   visited: set<nat>, frontier: set<nat>, results: set<nat>)
    requires BeamOk(metric, g, query, eps, ef, layer, visited, frontier, results)
    requires Expanded(g.links, layer, visited, results)
    ensures SearchResult(metric, g, query, eps, ef, layer, visited, results)
  {
  }

  // ---- consequences ----

  /** A beam at least as wide as the graph returns exactly the nodes reachable from its entry points. */
  lemma WideBeamIsReachability(metric: Metric, g: Graph, query: Vector, eps: set<nat>, ef: nat, layer: nat,
                               visited: set<nat>, kept: set<nat>)
    requires SearchResult(metric, g, query, eps, ef, layer, visited, kept)
    requires visited <= Nodes(|g.links|) && ef >= |g.links|
    ensures kept == visited && eps <= kept && Closed(g.links, layer, kept)
    ensures Reached(g.links, layer, eps, kept)
  {
    if kept != visited {
      var v :| v in visited && v !in kept;
      SubsetSize(kept + {v}, Nodes(|g.links|));
      assert false;
    }
  }

  /** A search from somewhere finds something. */
  lemma SomethingKept(metric: Metric, g: Graph, query: Vector, eps: set<nat>, ef: nat, layer: nat,
                      visited: set<nat>, kept: set<nat>)
    requires SearchResult(metric, g, query, eps, ef, layer, visited, kept)
    requires eps != {} && ef > 0
    ensures kept != {}
  {
    hide Dist;
    var e :| e in eps;
    assert e in visited;
  }
}
