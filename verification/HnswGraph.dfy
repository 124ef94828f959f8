/** How an insertion changes the graph, and what every insertion keeps. */
module HnswGraph {
  import opened Sequences
  import opened Wrappers
  import opened Ranking
  import opened HnswSearch

  type Links = seq<seq<seq<nat>>>

  function MaxDegree(m: nat, layer: nat): nat {
    if layer == 0 then 2 * m else m
  }

  // ---- choosing neighbours ----

  function Keyed(metric: Metric, g: Graph, base: Vector, s: seq<nat>): (r: seq<Ranked<nat>>)
    ensures Items(r) == s
  {
    seq(|s|, i requires 0 <= i < |s| =>
      Ranked(Dist(metric, g, base, s[i]), if s[i] < |g.ids| then g.ids[s[i]] else 0, s[i]))
  }

  /** The `k` nodes of `s` closest to `base`, closest first. */
  function Closest(metric: Metric, g: Graph, base: Vector, s: seq<nat>, k: nat): seq<nat> {
    Items(Take(Sort(Keyed(metric, g, base, s)), k))
  }

  lemma CountsOfDistinct(s: seq<nat>)
    ensures NoRepeats(s) <==> forall x :: multiset(s)[x] <= 1
  {
    if NoRepeats(s) {
      forall x ensures multiset(s)[x] <= 1 {
        if x in s {
          var i :| 0 <= i < |s| && s[i] == x;
          assert s == s[..i] + [x] + s[i + 1..];
          assert x !in s[..i] && x !in s[i + 1..];
        }
      }
    }
    if !NoRepeats(s) {
      var i, j :| 0 <= i < j < |s| && s[i] == s[j];
      CountTwice(s, i, j);
    }
  }

  /** Choosing keeps to the candidates, without repeats, and leaves out only farther ones. */
  lemma ClosestChooses(metric: Metric, g: Graph, base: Vector, s: seq<nat>, k: nat)
    requires NoRepeats(s)
    ensures var r := Closest(metric, g, base, s, k);
            && NoRepeats(r) && |r| == (if k < |s| then k else |s|)
            && (forall x :: x in r ==> x in s)
            && (forall x, y :: x in r && y in s && y !in r ==>
                  Dist(metric, g, base, x) <= Dist(metric, g, base, y) && AsSimilar(metric, g, base, x, y))
  {
    hide Sort, Dist, AsSimilar;
    var keyed := Keyed(metric, g, base, s);
    var sorted := Sort(keyed);
    var r := Closest(metric, g, base, s, k);
    SameLength(sorted, keyed);
    PermutedItems(sorted, keyed);
    var all := Items(sorted);
    CountsOfDistinct(s);
    CountsOfDistinct(all);
    assert r == all[..|r|];
    forall x | x in r ensures x in s {
      InOther(all, s, x);
    }
    forall x, y | x in r && y in s && y !in r
      ensures Dist(metric, g, base, x) <= Dist(metric, g, base, y) && AsSimilar(metric, g, base, x, y)
    {
      InOther(s, all, y);
      var i :| 0 <= i < |r| && r[i] == x;
      var j :| 0 <= j < |all| && all[j] == y;
      assert i < j;
      KeyIsDist(metric, g, base, s, sorted[i]);
      KeyIsDist(metric, g, base, s, sorted[j]);
      CloserOrOutside(metric, g, base, x, y);
    }
  }

  lemma CloserOrOutside(metric: Metric, g: Graph, base: Vector, x: nat, y: nat)
    requires Dist(metric, g, base, x) <= Dist(metric, g, base, y)
    ensures AsSimilar(metric, g, base, x, y)
  {
    hide Dist;
    if x < |g.vectors| && y < |g.vectors| {
      CloserIsMoreSimilar(metric, g, base, x, y);
    }
  }

  lemma KeyIsDist(metric: Metric, g: Graph, base: Vector, s: seq<nat>, x: Ranked<nat>)
    requires x in Sort(Keyed(metric, g, base, s))
    ensures x.key == Dist(metric, g, base, x.item)
  {
    hide Sort, Dist;
    InOther(Sort(Keyed(metric, g, base, s)), Keyed(metric, g, base, s), x);
  }

  /** An adjacency list cut back to the layer's budget. */
  function Trim(metric: Metric, g: Graph, n: nat, adj: seq<nat>, budget: nat): seq<nat>
    requires n < |g.vectors|
  {
    if |adj| > budget then Closest(metric, g, g.vectors[n], adj, budget) else adj
  }

  lemma TrimOk(metric: Metric, g: Graph, n: nat, adj: seq<nat>, budget: nat)
    requires n < |g.vectors| && NoRepeats(adj)
    ensures var r := Trim(metric, g, n, adj, budget);
            NoRepeats(r) && |r| <= budget && forall x :: x in r ==> x in adj
  {
    hide Closest;
    ClosestChooses(metric, g, g.vectors[n], adj, budget);
  }

  // ---- well-formedness ----

  ghost predicate AdjOk(links: Links, n: nat, l: nat, m: nat)
    requires HasLayer(links, n, l)
  {
    && NoRepeats(links[n][l])
    && |links[n][l]| <= (if l == 0 then 2 * m else m)
    && forall x :: x in links[n][l] ==> x != n && HasLayer(links, x, l)
  }

  ghost predicate LinksOk(links: Links, m: nat) {
    forall n: nat, l: nat :: HasLayer(links, n, l) ==> AdjOk(links, n, l, m)
  }

  ghost predicate Sized(g: Graph) {
    |g.ids| == |g.vectors| == |g.links|
  }

  /** The entry node sits on the top layer and no node reaches higher. */
  ghost predicate TopOk(links: Links, entry: Option<nat>, maxLayer: nat) {
    && (forall n :: 0 <= n < |links| ==> 1 <= |links[n]| <= maxLayer + 1)
    && (if entry.None? then links == [] else entry.value < |links| && |links[entry.value]| == maxLayer + 1)
  }

  ghost predicate WellFormed(g: Graph, entry: Option<nat>, maxLayer: nat, m: nat) {
    Sized(g) && LinksOk(g.links, m) && TopOk(g.links, entry, maxLayer)
  }

  // ---- one insertion ----

  function Empties(layers: nat): (r: seq<seq<nat>>)
    ensures |r| == layers && forall l :: 0 <= l < layers ==> r[l] == []
  {
    seq(layers, _ => [])
  }

  /** The graph with an isolated new node. */
  function Isolated(g: Graph, id: RecordId, vector: Vector, layer: nat): Graph {
    Graph(g.ids + [id], g.vectors + [vector], g.links + [Empties(layer + 1)])
  }

  lemma IsolatedOk(g: Graph, m: nat, id: RecordId, vector: Vector, layer: nat)
    requires Sized(g) && LinksOk(g.links, m)
    ensures var h := Isolated(g, id, vector, layer); Sized(h) && LinksOk(h.links, m)
  {
    var h := Isolated(g, id, vector, layer);
    forall n: nat, l: nat | HasLayer(h.links, n, l) ensures AdjOk(h.links, n, l, m) {
      if n < |g.links| {
        assert AdjOk(g.links, n, l, m);
      }
    }
  }

  /** The adjacency after node `idx` was joined to `chosen[l]` on each layer `l` of `chosen`. */
  function Expected(metric: Metric, g: Graph, m: nat, idx: nat, chosen: map<nat, seq<nat>>, n: nat, l: nat): seq<nat>
    requires Sized(g) && HasLayer(g.links, n, l)
  {
    if l !in chosen then g.links[n][l]
    else if n == idx then chosen[l]
    else if n in chosen[l] then Trim(metric, g, n, g.links[n][l] + [idx], MaxDegree(m, l))
    else g.links[n][l]
  }

  ghost predicate SameShape(links: Links, links': Links) {
    |links'| == |links| && forall n :: 0 <= n < |links| ==> |links'[n]| == |links[n]|
  }

  /** `links` is `g` with node `idx` joined as `chosen` says, and nothing else changed. */
  ghost predicate Effect(metric: Metric, g: Graph, m: nat, idx: nat, chosen: map<nat, seq<nat>>, links: Links) {
    && Sized(g) && SameShape(g.links, links)
    && forall n: nat, l: nat :: HasLayer(g.links, n, l) ==> links[n][l] == Expected(metric, g, m, idx, chosen, n, l)
  }

  /** A choice of neighbours for `idx` on layer `l`. */
  ghost predicate ChoiceOk(g: Graph, m: nat, idx: nat, l: nat, choice: seq<nat>) {
    && NoRepeats(choice) && |choice| <= m
    && forall x :: x in choice ==> x != idx && HasLayer(g.links, x, l)
  }

  ghost predicate ChoicesOk(g: Graph, m: nat, idx: nat, chosen: map<nat, seq<nat>>) {
    forall l :: l in chosen ==> HasLayer(g.links, idx, l) && ChoiceOk(g, m, idx, l, chosen[l])
  }

  /** Nothing points at `idx` yet. */
  ghost predicate Unlinked(links: Links, idx: nat) {
    forall n: nat, l: nat :: HasLayer(links, n, l) ==> idx !in links[n][l]
  }

  lemma EffectAdjOk(metric: Metric, g: Graph, m: nat, idx: nat, chosen: map<nat, seq<nat>>, links: Links, n: nat, l: nat)
    requires LinksOk(g.links, m) && Unlinked(g.links, idx)
    requires ChoicesOk(g, m, idx, chosen) && Effect(metric, g, m, idx, chosen, links)
    requires HasLayer(links, n, l)
    ensures AdjOk(links, n, l, m)
  {
    hide Trim;
    assert AdjOk(g.links, n, l, m);
    var adj := g.links[n][l] + [idx];
    if l in chosen && n != idx && n in chosen[l] {
      assert NoRepeats(adj);
      TrimOk(metric, g, n, adj, MaxDegree(m, l));
    }
    forall x | x in links[n][l] ensures x != n && HasLayer(links, x, l) {
      assert x in g.links[n][l] || x == idx || (n == idx && l in chosen && x in chosen[l]);
    }
  }

  /** Joining a node keeps every adjacency list well formed. */
  lemma EffectLinksOk(metric: Metric, g: Graph, m: nat, idx: nat, chosen: map<nat, seq<nat>>, links: Links)
    requires LinksOk(g.links, m) && Unlinked(g.links, idx)
    requires ChoicesOk(g, m, idx, chosen) && Effect(metric, g, m, idx, chosen, links)
    ensures LinksOk(links, m)
  {
    hide AdjOk, Effect, ChoicesOk;
    forall n: nat, l: nat | HasLayer(links, n, l) ensures AdjOk(links, n, l, m) {
      EffectAdjOk(metric, g, m, idx, chosen, links, n, l);
    }
  }

  // ---- the base layer of a small graph ----

  /** Layer 0 is connected: no proper non-empty set of nodes is closed under its links. */
  ghost predicate BaseConnected(links: Links) {
    forall s: set<nat> :: s != {} && s <= Nodes(|links|) && Closed(links, 0, s) ==> s == Nodes(|links|)
  }

  lemma DistinctBounded(s: seq<nat>, bound: set<nat>)
    requires NoRepeats(s) && forall x :: x in s ==> x in bound
    ensures |s| <= |bound|
  {
    if s != [] {
      forall x | x in s[1..] ensures x in bound - {s[0]} {
        var i :| 0 <= i < |s[1..]| && s[1..][i] == x;
        assert s[i + 1] == x;
      }
      DistinctBounded(s[1..], bound - {s[0]});
    }
  }

  /** With at most `2m + 1` nodes the base layer never runs over its budget. */
  lemma NoBaseTrim(metric: Metric, g: Graph, m: nat, idx: nat, n: nat)
    requires Sized(g) && LinksOk(g.links, m) && Unlinked(g.links, idx)
    requires idx < |g.links| <= 2 * m + 1 && HasLayer(g.links, n, 0) && n != idx
    ensures Trim(metric, g, n, g.links[n][0] + [idx], MaxDegree(m, 0)) == g.links[n][0] + [idx]
  {
    hide Closest;
    var adj := g.links[n][0] + [idx];
    assert AdjOk(g.links, n, 0, m);
    assert NoRepeats(adj);
    DistinctBounded(adj, Nodes(|g.links|) - {n});
  }

  /** A node joined both ways to a connected base layer is part of it. */
  lemma JoinConnects(links: Links, links': Links, nb: nat)
    requires BaseConnected(links) && |links'| == |links| + 1 && nb < |links|
    requires forall n, x :: 0 <= n < |links| && x in Adj(links, n, 0) ==> x in Adj(links', n, 0) && x < |links|
    requires nb in Adj(links', |links|, 0) && |links| in Adj(links', nb, 0)
    ensures BaseConnected(links')
  {
    forall s: set<nat> | s != {} && s <= Nodes(|links'|) && Closed(links', 0, s) ensures s == Nodes(|links'|) {
      JoinFills(links, links', nb, s);
    }
  }

  lemma JoinFills(links: Links, links': Links, nb: nat, s: set<nat>)
    requires BaseConnected(links) && |links'| == |links| + 1 && nb < |links|
    requires forall n, x :: 0 <= n < |links| && x in Adj(links, n, 0) ==> x in Adj(links', n, 0) && x < |links|
    requires nb in Adj(links', |links|, 0) && |links| in Adj(links', nb, 0)
    requires s != {} && s <= Nodes(|links'|) && Closed(links', 0, s)
    ensures s == Nodes(|links'|)
  {
    hide Adj, BaseConnected, Closed, Nodes;
    var idx := |links|;
    var t := s - {idx};
    NodesStep(idx, nb);
    if idx in s {
      FollowLink(links', s, idx, nb);
    }
    assert t != {};
    RestClosed(links, links', s);
    ConnectedFills(links, t);
    FollowLink(links', s, nb, idx);
  }

  lemma NodesStep(n: nat, i: nat)
    requires i < n
    ensures Nodes(n + 1) == Nodes(n) + {n} && n !in Nodes(n) && i in Nodes(n)
  {
  }

  lemma FollowLink(links: Links, s: set<nat>, n: nat, x: nat)
    requires Closed(links, 0, s) && n in s && x in Adj(links, n, 0)
    ensures x in s
  {
  }

  lemma RestClosed(links: Links, links': Links, s: set<nat>)
    requires forall n, x :: 0 <= n < |links| && x in Adj(links, n, 0) ==> x in Adj(links', n, 0) && x < |links|
    requires s <= Nodes(|links| + 1) && Closed(links', 0, s)
    ensures Closed(links, 0, s - {|links|})
  {
    hide Adj;
    forall n, x | n in s - {|links|} && x in Adj(links, n, 0) ensures x in s - {|links|} {
      assert n < |links|;
      assert x in Adj(links', n, 0);
    }
  }

  lemma ConnectedFills(links: Links, s: set<nat>)
    requires BaseConnected(links) && s != {} && s <= Nodes(|links|) && Closed(links, 0, s)
    ensures s == Nodes(|links|)
  {
  }

  lemma InsertConnects(metric: Metric, g: Graph, m: nat, id: RecordId, vector: Vector, layer: nat,
                       chosen: map<nat, seq<nat>>, links: Links)
    requires Sized(g) && LinksOk(g.links, m) && |g.links| + 1 <= 2 * m + 1
    requires forall n :: 0 <= n < |g.links| ==> |g.links[n]| >= 1
    requires BaseConnected(g.links)
    requires var h := Isolated(g, id, vector, layer);
             ChoicesOk(h, m, |g.links|, chosen) && Effect(metric, h, m, |g.links|, chosen, links)
    requires 0 in chosen && chosen[0] != []
    ensures BaseConnected(links)
  {
    hide Trim, BaseConnected;
    var h, idx, nb := Isolated(g, id, vector, layer), |g.links|, chosen[0][0];
    IsolatedOk(g, m, id, vector, layer);
    IsolatedUnlinked(g, m, id, vector, layer);
    NoBaseTrim(metric, h, m, idx, nb);
    assert HasLayer(h.links, idx, 0) && HasLayer(h.links, nb, 0);
    assert Adj(links, idx, 0) == chosen[0] && Adj(links, nb, 0) == g.links[nb][0] + [idx];
    forall n, x | 0 <= n < |g.links| && x in Adj(g.links, n, 0) ensures x in Adj(links, n, 0) && x < |g.links| {
      assert AdjOk(g.links, n, 0, m);
      NoBaseTrim(metric, h, m, idx, n);
      assert HasLayer(h.links, n, 0);
    }
    JoinConnects(g.links, links, nb);
  }

  lemma IsolatedUnlinked(g: Graph, m: nat, id: RecordId, vector: Vector, layer: nat)
    requires Sized(g) && LinksOk(g.links, m)
    ensures Unlinked(Isolated(g, id, vector, layer).links, |g.links|)
  {
    var h := Isolated(g, id, vector, layer);
    forall n: nat, l: nat | HasLayer(h.links, n, l) ensures |g.links| !in h.links[n][l] {
      if n < |g.links| {
        assert AdjOk(g.links, n, l, m);
      }
    }
  }
}
