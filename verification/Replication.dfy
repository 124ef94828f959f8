/** A cluster with an engine behind every node (crates/auradb-replication/src/multi.rs): a driver takes
    committed entries and applies them, a writer waits for the commit index to reach its proposal and
    then applies its own batch inline, and a restarted node replays its committed log. */
module Replication {
  import opened RaftNode
  import opened RaftCluster
  import opened RaftHistory
  import opened RaftSafety
  import opened RaftApply
  import opened Engines

  /** A node's durable engine, the entries its driver has taken and not yet applied, and the entries
      its writers have proposed and wait for. */
  datatype Site = Site(engine: Engine, pending: seq<Entry>, waiting: set<Entry>)

  /** A Raft event, one entry applied by the driver, a waiting writer that applies its batch, or one
      that returns an error. */
  datatype Move =
    | RaftMove(event: Event)
    | Drained(id: NodeId)
    | Inlined(id: NodeId, entry: Entry)
    | GaveUp(id: NodeId, entry: Entry)

  /** `replicate` returns as soon as the commit index reaches the proposal, whatever was committed there. */
  predicate Returns(n: Node, s: Site, entry: Entry) {
    entry in s.waiting && 1 <= entry.index <= Min(n.commitIndex, |n.log|)
  }

  /** The entry a proposal leaves behind, to be waited for. */
  function ProposedEntry(n: Node, command: Command): set<Entry> {
    match ProposeReply(n, command)
    case Proposed(index) => {Entry(n.Term(), index, command)}
    case _ => {}
  }

  datatype Deployment = Deployment(cluster: Cluster, sites: map<NodeId, Site>)

  /** What a move does to the site of node `id`, whose state before it is `n`. */
  function SiteAfter(base: nat, id: NodeId, n: Node, s: Site, m: Move): Site {
    match m
    case RaftMove(TookCommitted(x)) => if x == id then s.(pending := s.pending + Taken(n)) else s
    case RaftMove(Restarted(x, _)) =>
      if x == id then Site(Replay(base, s.engine, n.log[..Min(n.hard.commitIndex, |n.log|)]), [], {}) else s
    case RaftMove(ProposedAt(x, command)) =>
      if x == id then s.(waiting := s.waiting + ProposedEntry(n, command)) else s
    case RaftMove(_) => s
    case Drained(x) =>
      if x == id && s.pending != [] then s.(engine := ApplyEntry(base, s.engine, s.pending[0]), pending := s.pending[1..]) else s
    case Inlined(x, entry) =>
      if x == id && Returns(n, s, entry)
      then s.(engine := ApplyEntry(base, s.engine, entry), waiting := s.waiting - {entry}) else s
    case GaveUp(x, entry) => if x == id then s.(waiting := s.waiting - {entry}) else s
  }

  ghost predicate NextMove(base: NodeId -> nat, d: Deployment, m: Move, d': Deployment) {
    && (if m.RaftMove? then Next(d.cluster, m.event, d'.cluster) else d'.cluster == d.cluster)
    && d.sites.Keys == d.cluster.nodes.Keys
    && d'.sites == map id | id in d.sites :: SiteAfter(base(id), id, d.cluster.nodes[id], d.sites[id], m)
  }

  ghost predicate FreshSites(base: NodeId -> nat, d: Deployment) {
    d.sites.Keys == d.cluster.nodes.Keys && forall id :: id in d.sites ==> d.sites[id] == Site(Engine(base(id), []), [], {})
  }

  ghost predicate RunOf(base: NodeId -> nat, ds: seq<Deployment>, moves: seq<Move>) {
    && |ds| == |moves| + 1 && Init(ds[0].cluster) && FreshSites(base, ds[0])
    && forall k :: 0 <= k < |moves| ==> NextMove(base, ds[k], moves[k], ds[k + 1])
  }

  // ---- one site ----

  /** A node's committed entries. */
  ghost function Committed(n: Node): seq<Entry> {
    n.log[..Min(n.commitIndex, |n.log|)]
  }

  ghost predicate QueueAt(s: Site, log: seq<Entry>, taken: nat, p: nat) {
    p <= taken <= |log| && s.pending == log[p..taken]
  }

  /** The engine holds the writes up to its watermark, and every write before the queue. */
  ghost predicate SiteOkAt(base: nat, s: Site, log: seq<Entry>, taken: nat, p: nat) {
    && Indexed(log) && Holds(base, s.engine, log) && QueueAt(s, log, taken, p)
    && (s.engine.watermark - base < p ==> HoldsTo(base, s.engine, log, p))
  }

  ghost predicate SiteOk(base: nat, s: Site, log: seq<Entry>, taken: nat) {
    exists p: nat :: SiteOkAt(base, s, log, taken, p)
  }

  lemma SiteGrows(base: nat, s: Site, log: seq<Entry>, log': seq<Entry>, taken: nat)
    requires SiteOk(base, s, log, taken) && log <= log' && Indexed(log')
    ensures SiteOk(base, s, log', taken)
  {
    hide Holds, Writes;
    var p: nat :| SiteOkAt(base, s, log, taken, p);
    HoldsGrows(base, s.engine, log, log');
    assert log'[p..taken] == log[p..taken];
    assert log'[..p] == log[..p];
    assert SiteOkAt(base, s, log', taken, p);
  }

  lemma SiteTakes(base: nat, s: Site, log: seq<Entry>, taken: nat)
    requires SiteOk(base, s, log, taken)
    ensures SiteOk(base, s.(pending := s.pending + log[taken..]), log, |log|)
  {
    hide Holds, HoldsTo, Indexed;
    var p: nat :| SiteOkAt(base, s, log, taken, p);
    assert log[p..taken] + log[taken..] == log[p..];
    assert SiteOkAt(base, s.(pending := s.pending + log[taken..]), log, |log|, p);
  }

  lemma SiteDrains(base: nat, s: Site, log: seq<Entry>, taken: nat)
    requires SiteOk(base, s, log, taken) && s.pending != []
    ensures SiteOk(base, s.(engine := ApplyEntry(base, s.engine, s.pending[0]), pending := s.pending[1..]), log, taken)
  {
    hide Holds, ApplyEntry;
    var p: nat :| SiteOkAt(base, s, log, taken, p);
    assert s.pending[0] == log[p] && s.pending[1..] == log[p + 1..taken];
    HoldsHere(base, s.engine, log);
    if p + 1 <= s.engine.watermark - base {
      ApplyOld(base, s.engine, log, p);
    } else {
      ApplyNext(base, s.engine, log, p);
    }
    assert SiteOkAt(base, s.(engine := ApplyEntry(base, s.engine, s.pending[0]), pending := s.pending[1..]), log, taken, p + 1);
  }

  lemma SiteRestarts(base: nat, s: Site, log: seq<Entry>, taken: nat)
    requires SiteOk(base, s, log, taken)
    ensures var e := Replay(base, s.engine, log);
            SiteOk(base, Site(e, [], {}), log, |log|) && e.applied == Writes(log)
  {
    hide ApplyEntry, Replay;
    var p: nat :| SiteOkAt(base, s, log, taken, p);
    assert log[..|log|] == log;
    ReplayCompletes(base, s.engine, log, |log|);
    assert SiteOkAt(base, Site(Replay(base, s.engine, log), [], {}), log, |log|, |log|);
  }

  lemma SiteInlines(base: nat, s: Site, log: seq<Entry>, taken: nat, entry: Entry)
    requires SiteOk(base, s, log, taken) && Holds(base, s.engine, log) && 1 <= entry.index <= |log|
    requires entry.command == NOOP || InTurn(base, s.engine, log, entry)
    ensures SiteOk(base, s.(engine := ApplyEntry(base, s.engine, entry)), log, taken)
  {
    var p: nat :| SiteOkAt(base, s, log, taken, p);
    var s' := s.(engine := ApplyEntry(base, s.engine, entry));
    if s'.engine != s.engine {
      InlineExactly(base, s.engine, log, entry);
      InlinePastQueue(base, s.engine, log, p, entry.index);
    }
    assert SiteOkAt(base, s', log, taken, p);
  }

  /** Who waits has no part in what an engine holds. */
  lemma SiteWaits(base: nat, s: Site, log: seq<Entry>, taken: nat, waiting: set<Entry>)
    requires SiteOk(base, s, log, taken)
    ensures SiteOk(base, s.(waiting := waiting), log, taken)
  {
    var p: nat :| SiteOkAt(base, s, log, taken, p);
    assert SiteOkAt(base, s.(waiting := waiting), log, taken, p);
  }

  /** A write the queue is already past has been applied. */
  lemma InlinePastQueue(base: nat, e: Engine, log: seq<Entry>, p: nat, i: LogIndex)
    requires Indexed(log) && Holds(base, e, log) && p <= |log| && (e.watermark - base < p ==> HoldsTo(base, e, log, p))
    requires 1 <= i <= |log| && log[i - 1].command != NOOP && e.watermark - base < i
    ensures p < i
  {
    var w := e.watermark - base;
    if i <= p {
      WritesGrow(log, w, i - 1);
      WritesSnoc(log, i - 1);
      WritesGrow(log, i, p);
    }
  }

  // ---- the cluster run under a deployment's run ----

  /** `states[at[k]]` is the cluster of the `k`-th deployment. */
  ghost predicate Projects(ds: seq<Deployment>, states: seq<Cluster>, at: seq<nat>) {
    |at| == |ds| && forall k :: 0 <= k < |ds| ==> at[k] < |states| && states[at[k]] == ds[k].cluster
  }

  ghost predicate Follows(moves: seq<Move>, events: seq<Event>, at: seq<nat>) {
    && |at| == |moves| + 1
    && forall k :: 0 <= k < |moves| ==>
         if moves[k].RaftMove? then at[k + 1] == at[k] + 1 <= |events| && events[at[k]] == moves[k].event else at[k + 1] == at[k]
  }

  /** One more move of the deployment is at most one more event of the cluster. */
  lemma MoveProjects(ds: seq<Deployment>, moves: seq<Move>, states: seq<Cluster>, events: seq<Event>, at: seq<nat>,
                     m: Move, d: Deployment)
    returns (states': seq<Cluster>, events': seq<Event>, at': seq<nat>)
    requires Run(states, events) && Projects(ds, states, at) && Follows(moves, events, at) && at[|moves|] == |events|
    requires if m.RaftMove? then Next(ds[|moves|].cluster, m.event, d.cluster) else d.cluster == ds[|moves|].cluster
    ensures Run(states', events') && Projects(ds + [d], states', at') && Follows(moves + [m], events', at')
    ensures at'[|moves| + 1] == |events'|
  {
    hide Next, Init, Follows;
    FollowsSize(moves, events, at);
    if m.RaftMove? {
      states', events', at' := states + [d.cluster], events + [m.event], at + [|events| + 1];
    } else {
      states', events', at' := states, events, at + [|events|];
    }
    FollowsMore(moves, events, at, m, events', at');
  }

  lemma FollowsSize(moves: seq<Move>, events: seq<Event>, at: seq<nat>)
    requires Follows(moves, events, at)
    ensures |at| == |moves| + 1
  {
  }

  lemma FollowsMore(moves: seq<Move>, events: seq<Event>, at: seq<nat>, m: Move, events': seq<Event>, at': seq<nat>)
    requires Follows(moves, events, at) && at[|moves|] == |events|
    requires if m.RaftMove? then events' == events + [m.event] && at' == at + [|events| + 1] else events' == events && at' == at + [|events|]
    ensures Follows(moves + [m], events', at')
  {
    forall k | 0 <= k < |moves| + 1
      ensures var x := (moves + [m])[k];
              if x.RaftMove? then at'[k + 1] == at'[k] + 1 <= |events'| && events'[at'[k]] == x.event else at'[k + 1] == at'[k]
    {
      if k < |moves| {
        assert at'[k] == at[k] && at'[k + 1] == at[k + 1] && (moves + [m])[k] == moves[k];
      }
    }
  }

  /** Leaving out the engine moves of a deployment's run gives a run of the cluster. */
  lemma {:induction false} ClusterRun(base: NodeId -> nat, ds: seq<Deployment>, moves: seq<Move>)
    returns (states: seq<Cluster>, events: seq<Event>, at: seq<nat>)
    requires RunOf(base, ds, moves)
    ensures Run(states, events) && Projects(ds, states, at) && Follows(moves, events, at) && at[|moves|] == |events|
    decreases moves
  {
    hide Next, Init, SiteAfter, FreshSites;
    if moves == [] {
      states, events, at := [ds[0].cluster], [], [0];
    } else {
      hide Follows, Projects, Run;
      var last := |moves| - 1;
      var ds0, moves0 := ds[..last + 1], moves[..last];
      assert RunOf(base, ds0, moves0);
      states, events, at := ClusterRun(base, ds0, moves0);
      assert NextMove(base, ds[last], moves[last], ds[last + 1]) && ds0[last] == ds[last];
      assert ds0 + [ds[last + 1]] == ds && moves0 + [moves[last]] == moves;
      states, events, at := MoveProjects(ds0, moves0, states, events, at, moves[last], ds[last + 1]);
    }
  }

  // ---- whole runs ----

  /** Every inline write of the run was the committed entry of its index, with no earlier committed
      write missing from its engine. */
  ghost predicate InlinesInTurn(base: NodeId -> nat, ds: seq<Deployment>, moves: seq<Move>)
    requires |ds| == |moves| + 1
  {
    forall k :: 0 <= k < |moves| ==> MoveInTurn(base, ds[k], moves[k])
  }

  ghost predicate MoveInTurn(base: NodeId -> nat, d: Deployment, m: Move) {
    m.Inlined? && m.id in d.sites && m.id in d.cluster.nodes ==>
      var log, e := Committed(d.cluster.nodes[m.id]), d.sites[m.id].engine;
      Returns(d.cluster.nodes[m.id], d.sites[m.id], m.entry) ==>
        m.entry.command == NOOP || InTurn(base(m.id), e, log, m.entry)
  }

  ghost predicate AllSitesOk(base: NodeId -> nat, d: Deployment) {
    d.sites.Keys == d.cluster.nodes.Keys
    && forall id :: id in d.sites ==> SiteOk(base(id), d.sites[id], Committed(d.cluster.nodes[id]), d.cluster.nodes[id].lastApplied)
  }

  /** What a cluster step does to the committed log and the applied index of node `a`. */
  ghost predicate Steps(n: Node, n': Node, e: Event, a: NodeId) {
    && Committed(n) <= Committed(n') && Indexed(Committed(n')) && n.lastApplied <= |Committed(n)|
    && n.hard.commitIndex == n.commitIndex == |Committed(n)|
    && (if e == TookCommitted(a) || (e.Restarted? && e.id == a)
        then Committed(n') == Committed(n) && n'.lastApplied == |Committed(n)| else n'.lastApplied == n.lastApplied)
  }

  lemma NodeStep(states: seq<Cluster>, events: seq<Event>, i: nat, a: NodeId)
    requires Run(states, events) && i < |events| && NodeAt(states, i, a)
    ensures NodeAt(states, i + 1, a) && Steps(states[i].nodes[a], states[i + 1].nodes[a], events[i], a)
  {
    hide Init, React, CommittedLog;
    AppliedBound(states, events, i, a);
    CommitsAreForever(states, events, i, i + 1, a);
    AppliedBound(states, events, i + 1, a);
    CommittedSame(states, i, a);
    CommittedSame(states, i + 1, a);
    CommittedIndexed(states, events, i + 1, a);
    var n, e := states[i].nodes[a], events[i];
    assert Next(states[i], e, states[i + 1]);
    if Actor(e) == a {
      if e.TookCommitted? {
        TookReact(n, a);
      } else if e.Restarted? {
        RestartReact(n, e);
        assert states[i + 1].nodes[a].commitIndex == n.commitIndex by { RestartCommit(n, e); }
      } else {
        ReactApplies(n, e);
      }
    }
  }

  lemma MoveSteps(base: NodeId -> nat, ds: seq<Deployment>, moves: seq<Move>, k: nat, id: NodeId)
    requires RunOf(base, ds, moves) && k < |moves| && moves[k].RaftMove? && id in ds[k].cluster.nodes
    ensures id in ds[k + 1].cluster.nodes
    ensures Steps(ds[k].cluster.nodes[id], ds[k + 1].cluster.nodes[id], moves[k].event, id)
  {
    hide RunOf, Run, Steps;
    var states, events, at := ClusterRun(base, ds, moves);
    assert at[k + 1] == at[k] + 1 && ds[k + 1].cluster == states[at[k + 1]];
    NodeStep(states, events, at[k], id);
  }

  lemma RestartCommit(n: Node, e: Event)
    requires e.Restarted?
    ensures React(n, e).commitIndex == n.hard.commitIndex
  {
  }

  lemma CommittedSame(states: seq<Cluster>, i: nat, a: NodeId)
    requires NodeAt(states, i, a)
    ensures CommittedLog(states, i, a) == Committed(states[i].nodes[a])
  {
  }

  lemma CommittedIndexed(states: seq<Cluster>, events: seq<Event>, i: nat, a: NodeId)
    requires Run(states, events) && NodeAt(states, i, a)
    ensures Indexed(Committed(states[i].nodes[a]))
  {
    hide Run, HistoryOk, MessageOk, Keeps, CommitOk, OutboxOk, LeaderOk, CandidateOk;
    var hs := RunInv(states, events);
    assert Inv(hs[i], states[i]);
    var n := states[i].nodes[a];
    forall j | 0 <= j < |Committed(n)| ensures Committed(n)[j].index == j + 1 {
      assert MatchesAt(hs[i], n.log, j);
    }
  }

  /** A Raft event keeps every site, whether it is the acting node's or not. */
  lemma RaftSiteOk(base: nat, id: NodeId, n: Node, n': Node, s: Site, e: Event)
    requires SiteOk(base, s, Committed(n), n.lastApplied) && Steps(n, n', e, id)
    ensures SiteOk(base, SiteAfter(base, id, n, s, RaftMove(e)), Committed(n'), n'.lastApplied)
  {
    hide SiteOk, Replay;
    var log := Committed(n);
    if e == TookCommitted(id) {
      assert Taken(n) == log[n.lastApplied..];
      SiteTakes(base, s, log, n.lastApplied);
    } else if e.Restarted? && e.id == id {
      SiteRestarts(base, s, log, n.lastApplied);
    } else {
      SiteGrows(base, s, log, Committed(n'), n.lastApplied);
      if e.ProposedAt? && e.id == id {
        SiteWaits(base, s, Committed(n'), n.lastApplied, s.waiting + ProposedEntry(n, e.command));
      }
    }
  }

  lemma EngineSiteOk(base: NodeId -> nat, d: Deployment, m: Move, id: NodeId)
    requires !m.RaftMove? && AllSitesOk(base, d) && MoveInTurn(base, d, m) && id in d.sites
    ensures SiteOk(base(id), SiteAfter(base(id), id, d.cluster.nodes[id], d.sites[id], m),
                   Committed(d.cluster.nodes[id]), d.cluster.nodes[id].lastApplied)
  {
    hide SiteOk, ApplyEntry, Holds;
    var n, s := d.cluster.nodes[id], d.sites[id];
    var log := Committed(n);
    if m.Drained? && m.id == id && s.pending != [] {
      SiteDrains(base(id), s, log, n.lastApplied);
    } else if m.Inlined? && m.id == id && Returns(n, s, m.entry) {
      SiteHolds(base(id), s, log, n.lastApplied);
      SiteInlines(base(id), s, log, n.lastApplied, m.entry);
      SiteWaits(base(id), s.(engine := ApplyEntry(base(id), s.engine, m.entry)), log, n.lastApplied, s.waiting - {m.entry});
    } else if m.GaveUp? && m.id == id {
      SiteWaits(base(id), s, log, n.lastApplied, s.waiting - {m.entry});
    }
  }

  lemma SiteHolds(base: nat, s: Site, log: seq<Entry>, taken: nat)
    requires SiteOk(base, s, log, taken)
    ensures Holds(base, s.engine, log)
  {
    var p: nat :| SiteOkAt(base, s, log, taken, p);
  }

  lemma {:induction false} RunSitesOk(base: NodeId -> nat, ds: seq<Deployment>, moves: seq<Move>, k: nat)
    requires RunOf(base, ds, moves) && InlinesInTurn(base, ds, moves) && k < |ds|
    ensures AllSitesOk(base, ds[k])
  {
    hide SiteOk, SiteAfter, Next, Init, Committed, Steps, MoveInTurn;
    if k == 0 {
      forall id | id in ds[0].sites
        ensures SiteOk(base(id), ds[0].sites[id], Committed(ds[0].cluster.nodes[id]), ds[0].cluster.nodes[id].lastApplied)
      {
        FreshSiteOk(base, ds[0], id);
      }
    } else {
      RunSitesOk(base, ds, moves, k - 1);
      var d, m, d' := ds[k - 1], moves[k - 1], ds[k];
      assert NextMove(base, d, m, d') && MoveInTurn(base, d, m);
      forall id | id in d'.sites
        ensures id in d'.cluster.nodes
        ensures SiteOk(base(id), d'.sites[id], Committed(d'.cluster.nodes[id]), d'.cluster.nodes[id].lastApplied)
      {
        if m.RaftMove? {
          MoveSteps(base, ds, moves, k - 1, id);
          RaftSiteOk(base(id), id, d.cluster.nodes[id], d'.cluster.nodes[id], d.sites[id], m.event);
        } else {
          EngineSiteOk(base, d, m, id);
        }
      }
      SameNodes(d.cluster, m, d'.cluster);
    }
  }

  lemma SameNodes(c: Cluster, m: Move, c': Cluster)
    requires if m.RaftMove? then Next(c, m.event, c') else c' == c
    ensures c'.nodes.Keys == c.nodes.Keys
  {
    hide React;
  }

  lemma FreshSiteOk(base: NodeId -> nat, d: Deployment, id: NodeId)
    requires Init(d.cluster) && FreshSites(base, d) && id in d.sites
    ensures SiteOk(base(id), d.sites[id], Committed(d.cluster.nodes[id]), d.cluster.nodes[id].lastApplied)
  {
    var n := d.cluster.nodes[id];
    assert Fresh(n);
    assert SiteOkAt(base(id), d.sites[id], Committed(n), n.lastApplied, 0);
  }

  // ---- the theorems ----

  ghost predicate AllHold(base: NodeId -> nat, d: Deployment) {
    && d.sites.Keys == d.cluster.nodes.Keys
    && forall id :: id in d.sites ==> Holds(base(id), d.sites[id].engine, Committed(d.cluster.nodes[id]))
  }

  /** In every state of a run every engine holds exactly the committed writes up to its watermark, in log
      order, none twice, none missing, across crashes, if and only if every inline write came in turn. */
  lemma EnginesArePrefixes(base: NodeId -> nat, ds: seq<Deployment>, moves: seq<Move>)
    requires RunOf(base, ds, moves)
    ensures InlinesInTurn(base, ds, moves) <==> forall k :: 0 <= k < |ds| ==> AllHold(base, ds[k])
  {
    hide NextMove, MoveInTurn, AllHold, Init, FreshSites;
    if InlinesInTurn(base, ds, moves) {
      forall k | 0 <= k < |ds| ensures AllHold(base, ds[k]) {
        RunSitesOk(base, ds, moves, k);
        OkHold(base, ds[k]);
      }
    }
    if forall k :: 0 <= k < |ds| ==> AllHold(base, ds[k]) {
      forall k | 0 <= k < |moves| ensures MoveInTurn(base, ds[k], moves[k]) {
        RunIndexed(base, ds, moves, k);
        HoldingWasInTurn(base, ds[k], moves[k], ds[k + 1]);
      }
    }
  }

  lemma RunIndexed(base: NodeId -> nat, ds: seq<Deployment>, moves: seq<Move>, k: nat)
    requires RunOf(base, ds, moves) && k < |ds|
    ensures forall id :: id in ds[k].cluster.nodes ==> Indexed(Committed(ds[k].cluster.nodes[id]))
  {
    hide RunOf, Run, Indexed, Committed;
    var states, events, at := ClusterRun(base, ds, moves);
    forall id | id in ds[k].cluster.nodes ensures Indexed(Committed(ds[k].cluster.nodes[id])) {
      CommittedIndexed(states, events, at[k], id);
    }
  }

  lemma OkHold(base: NodeId -> nat, d: Deployment)
    requires AllSitesOk(base, d)
    ensures AllHold(base, d)
  {
    hide SiteOk, Holds, Committed;
    forall id | id in d.sites ensures Holds(base(id), d.sites[id].engine, Committed(d.cluster.nodes[id])) {
      SiteHolds(base(id), d.sites[id], Committed(d.cluster.nodes[id]), d.cluster.nodes[id].lastApplied);
    }
  }

  lemma HoldingWasInTurn(base: NodeId -> nat, d: Deployment, m: Move, d': Deployment)
    requires NextMove(base, d, m, d') && AllHold(base, d) && AllHold(base, d')
    requires forall id :: id in d.cluster.nodes ==> Indexed(Committed(d.cluster.nodes[id]))
    ensures MoveInTurn(base, d, m)
  {
    hide Next, Holds, InTurn, Indexed, ApplyEntry;
    if m.Inlined? && m.id in d.sites {
      var n, s := d.cluster.nodes[m.id], d.sites[m.id];
      var log := Committed(n);
      if Returns(n, s, m.entry) && m.entry.command != NOOP {
        assert d'.sites[m.id].engine == ApplyEntry(base(m.id), s.engine, m.entry);
        InlineExactly(base(m.id), s.engine, log, m.entry);
      }
    }
  }

  // ---- what a writer could check ----

  ghost predicate LoggedAt(ds: seq<Deployment>, j: nat, id: NodeId, entry: Entry) {
    && j < |ds| && id in ds[j].cluster.nodes
    && 1 <= entry.index <= |ds[j].cluster.nodes[id].log| && ds[j].cluster.nodes[id].log[entry.index - 1] == entry
  }

  lemma ProposalIsLogged(n: Node, command: Command, entry: Entry)
    requires entry in ProposedEntry(n, command)
    ensures entry.index == |n.log| + 1 && ProposeNode(n, command).log == n.log + [entry]
  {
    hide SendAppends, CommitScan;
    var a := LeaderAppend(n, command);
    SendAppendsOnlySends(MaybeAdvanceCommit(a.node), a.node.config.peers);
  }

  /** An entry someone waits for was in that node's log when it was proposed. */
  lemma {:induction false} WaitingWasLogged(base: NodeId -> nat, ds: seq<Deployment>, moves: seq<Move>, k: nat, id: NodeId, entry: Entry)
    returns (j: nat)
    requires RunOf(base, ds, moves) && k < |ds| && id in ds[k].sites && entry in ds[k].sites[id].waiting
    ensures LoggedAt(ds, j, id, entry)
  {
    hide Init, ProposeNode, ProposedEntry, Replay, ApplyEntry, Returns;
    if k > 0 {
      var d, m := ds[k - 1], moves[k - 1];
      assert NextMove(base, d, m, ds[k]);
      if entry in d.sites[id].waiting {
        j := WaitingWasLogged(base, ds, moves, k - 1, id, entry);
      } else {
        ProposalIsLogged(d.cluster.nodes[id], m.event.command, entry);
        j := k;
      }
    } else {
      assert false;
    }
  }

  /** When the commit index reaches a proposal, what is committed there is the proposal exactly when it
      has the term it was proposed in. */
  lemma TermTells(base: NodeId -> nat, ds: seq<Deployment>, moves: seq<Move>, k: nat, id: NodeId, entry: Entry)
    requires RunOf(base, ds, moves) && k < |ds| && id in ds[k].sites && id in ds[k].cluster.nodes
    requires Returns(ds[k].cluster.nodes[id], ds[k].sites[id], entry)
    ensures var log := Committed(ds[k].cluster.nodes[id]);
            log[entry.index - 1] == entry <==> log[entry.index - 1].term == entry.term
  {
    hide RunOf, Run;
    var j := WaitingWasLogged(base, ds, moves, k, id, entry);
    var states, events, at := ClusterRun(base, ds, moves);
    var x, y := ds[j].cluster.nodes[id].log, ds[k].cluster.nodes[id].log;
    var i := entry.index - 1;
    if y[i].term == entry.term {
      LogsMatch(states, events, at[j], at[k], id, id, i);
      assert x[..i + 1][i] == y[..i + 1][i];
    }
  }

  /** A driver that has drained its queue and taken all there is has applied every committed write. */
  lemma DrainedIsComplete(base: NodeId -> nat, ds: seq<Deployment>, moves: seq<Move>, k: nat, id: NodeId)
    requires RunOf(base, ds, moves) && InlinesInTurn(base, ds, moves) && k < |ds| && id in ds[k].sites && id in ds[k].cluster.nodes
    requires ds[k].sites[id].pending == [] && ds[k].cluster.nodes[id].lastApplied >= |Committed(ds[k].cluster.nodes[id])|
    ensures ds[k].sites[id].engine.applied == Writes(Committed(ds[k].cluster.nodes[id]))
  {
    hide RunOf, InlinesInTurn, Writes, Committed;
    RunSitesOk(base, ds, moves, k);
    var s, n := ds[k].sites[id], ds[k].cluster.nodes[id];
    var log := Committed(n);
    var p: nat :| SiteOkAt(base(id), s, log, n.lastApplied, p);
    assert p == |log| && log[..|log|] == log;
    HoldsHere(base(id), s.engine, log);
  }

  /** A restarted node has every committed write in its engine, whatever was lost with its queue. */
  lemma RestartIsComplete(base: NodeId -> nat, ds: seq<Deployment>, moves: seq<Move>, k: nat, id: NodeId)
    requires RunOf(base, ds, moves) && InlinesInTurn(base, ds, moves) && k < |moves| && id in ds[k].sites
    requires moves[k].RaftMove? && moves[k].event.Restarted? && moves[k].event.id == id
    ensures id in ds[k + 1].sites && id in ds[k + 1].cluster.nodes
    ensures ds[k + 1].sites[id].engine.applied == Writes(Committed(ds[k + 1].cluster.nodes[id]))
  {
    hide SiteOk, Replay, Next, Committed, InlinesInTurn;
    RunSitesOk(base, ds, moves, k);
    MoveSteps(base, ds, moves, k, id);
    assert NextMove(base, ds[k], moves[k], ds[k + 1]);
    var n, s := ds[k].cluster.nodes[id], ds[k].sites[id];
    SiteRestarts(base(id), s, Committed(n), n.lastApplied);
    RestartReads(n);
  }

  lemma RestartReads(n: Node)
    requires n.hard.commitIndex == n.commitIndex
    ensures n.log[..Min(n.hard.commitIndex, |n.log|)] == Committed(n)
  {
  }
}
