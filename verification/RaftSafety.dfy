/** The safety of whole runs of a Raft cluster: whatever messages are lost, duplicated,
    delayed or reordered, and whichever nodes crash and recover. */
module RaftSafety {
  import opened Sequences
  import opened RaftNode
  import opened RaftCluster
  import opened RaftHistory
  import opened RaftSteps
  import opened RaftHandlers

  // ---- one event ----

  lemma RecoverFine(h: History, voters: set<NodeId>, n: Node, draw: nat)
    requires Fine(h, voters, n)
    ensures Moves(h, h, voters, n, Recover(n.config, n.log, n.hard, draw))
  {
    hide HistoryOk, Keeps, Matches, CommitOk;
    ExtendsSelf(h, n.config.id, n.Term());
  }

  lemma ReactFine(h: History, voters: set<NodeId>, n: Node, e: Event) returns (h': History)
    requires Fine(h, voters, n) && Actor(e) == n.config.id
    requires e.Delivered? ==> MessageOk(h, voters, e.packet)
    ensures Moves(h, h', voters, n, React(n, e))
    ensures e.Delivered? ==> Step(n, e.packet.from, e.packet.message).ok
  {
    hide HistoryOk, MessageOk, Tick, Campaign, ProposeNode, Step, Recover, Keeps, Matches, CommitOk;
    h' := h;
    ExtendsSelf(h, n.config.id, n.Term());
    match e
    case Ticked(_, draw) => h' := TickFine(h, voters, n, draw);
    case Campaigned(_, draw) => h' := CampaignFine(h, voters, n, draw);
    case ProposedAt(_, command) => h' := ProposeFine(h, voters, n, command);
    case Delivered(p) => h' := StepFine(h, voters, n, p);
    case Restarted(_, draw) => RecoverFine(h, voters, n, draw);
    case TookCommitted(_) =>
  }

  /** What was recorded stays recorded. */
  ghost predicate Later(h: History, h': History) {
    && (forall t :: t in h.elected ==> t in h'.elected && Grew(h.elected[t], h'.elected[t]))
    && (forall s :: s in h.acks ==> s in h'.acks && h.acks[s] <= h'.acks[s])
  }

  lemma LaterTransitive(a: History, b: History, c: History)
    requires Later(a, b) && Later(b, c)
    ensures Later(a, c)
  {
  }

  lemma EmptiedFine(h: History, voters: set<NodeId>, n: Node)
    requires Fine(h, voters, n)
    ensures NodeOk(h, voters, n.(outbox := []))
  {
    hide HistoryOk, Keeps, Matches, CommitOk;
    assert VoteRecorded(h, n.(outbox := []));
  }

  lemma NextInv(h: History, c: Cluster, e: Event, c': Cluster) returns (h': History)
    requires Inv(h, c) && Next(c, e, c')
    ensures Inv(h', c') && Later(h, h')
    ensures e.Delivered? ==> Step(c.nodes[e.packet.to], e.packet.from, e.packet.message).ok
  {
    hide HistoryOk, NodeOk, MessageOk, React, Step;
    var voters, id := c.nodes.Keys, Actor(e);
    var n := React(c.nodes[id], e);
    h' := ReactFine(h, voters, c.nodes[id], e);
    assert c'.nodes.Keys == voters;
    forall i | i in c'.nodes ensures c'.nodes[i].config.id == i && NodeOk(h', voters, c'.nodes[i]) {
      if i == id {
        EmptiedFine(h', voters, n);
      } else {
        BystanderStable(h, h', id, n.Term(), voters, c.nodes[i]);
      }
    }
    forall p | p in c'.sent ensures MessageOk(h', voters, p) {
      if p in c.sent {
        MessageStable(h, h', id, n.Term(), voters, p);
      } else {
        QueuedOk(h', voters, n, p);
      }
    }
  }

  lemma QueuedOk(h: History, voters: set<NodeId>, n: Node, p: Packet)
    requires Fine(h, voters, n) && p in Packets(n.config.id, n.outbox)
    ensures MessageOk(h, voters, p)
  {
    hide HistoryOk, MessageOk, Keeps, Matches, CommitOk;
    var e :| e in n.outbox && p == Packet(n.config.id, e.to, e.message);
  }

  // ---- runs ----

  const NO_HISTORY := History(map[], map[], map[], map[])

  lemma InitInv(c: Cluster)
    requires Init(c)
    ensures Inv(NO_HISTORY, c)
  {
    hide MessageOk, LeaderOk, CandidateOk, Quorum, Justifies;
    forall id | id in c.nodes ensures NodeOk(NO_HISTORY, c.nodes.Keys, c.nodes[id]) {
      var n := c.nodes[id];
      assert Fresh(n);
      assert VoteRecorded(NO_HISTORY, n);
    }
  }

  /** One history per state of a run. */
  ghost predicate Explains(hs: seq<History>, states: seq<Cluster>) {
    && |hs| == |states|
    && (forall i :: 0 <= i < |hs| ==> Inv(hs[i], states[i]))
    && (forall i, j :: 0 <= i <= j < |hs| ==> Later(hs[i], hs[j]))
  }

  lemma {:induction false} RunInv(states: seq<Cluster>, events: seq<Event>) returns (hs: seq<History>)
    requires Run(states, events)
    ensures Explains(hs, states)
    decreases |events|
  {
    hide Inv, Init, Next, Later;
    if events == [] {
      InitInv(states[0]);
      hs := [NO_HISTORY];
      LaterSelf(NO_HISTORY);
    } else {
      var last := |events| - 1;
      var before := RunInv(states[..|events|], events[..last]);
      assert states[last + 1 - 1] == states[..|events|][last];
      var h := NextInv(before[last], states[last], events[last], states[last + 1]);
      hs := before + [h];
      LaterSelf(h);
      forall i | 0 <= i < |before| ensures Later(before[i], h) {
        LaterTransitive(before[i], before[last], h);
      }
    }
  }

  lemma LaterSelf(h: History)
    ensures Later(h, h)
  {
  }

  // ---- the theorems ----

  ghost predicate LeaderAt(states: seq<Cluster>, i: nat, id: NodeId, term: Term) {
    i < |states| && id in states[i].nodes && states[i].nodes[id].role.Leader? && states[i].nodes[id].Term() == term
  }

  /** Election Safety: over a whole run, a term has at most one leader. */
  lemma ElectionSafety(states: seq<Cluster>, events: seq<Event>, i: nat, j: nat, a: NodeId, b: NodeId, term: Term)
    requires Run(states, events)
    requires LeaderAt(states, i, a, term) && LeaderAt(states, j, b, term)
    ensures a == b
  {
    hide Run, HistoryOk, MessageOk;
    var hs := RunInv(states, events);
    assert Inv(hs[i], states[i]) && Inv(hs[j], states[j]);
    assert i <= j ==> Later(hs[i], hs[j]);
    assert j <= i ==> Later(hs[j], hs[i]);
  }

  ghost predicate NodeAt(states: seq<Cluster>, i: nat, id: NodeId) {
    i < |states| && id in states[i].nodes
  }

  lemma MatchesLater(h: History, h': History, log: seq<Entry>)
    requires Later(h, h') && Matches(h, log)
    ensures Matches(h', log)
  {
    forall j | 0 <= j < |log| ensures MatchesAt(h', log, j) {
      assert MatchesAt(h, log, j);
    }
  }

  /** Log Matching: whenever two logs of a run, taken at any times, agree on the term of an
      index, they agree on everything up to it. */
  lemma LogsMatch(states: seq<Cluster>, events: seq<Event>, i: nat, j: nat, a: NodeId, b: NodeId, k: nat)
    requires Run(states, events) && NodeAt(states, i, a) && NodeAt(states, j, b)
    requires var x, y := states[i].nodes[a].log, states[j].nodes[b].log;
             k < |x| && k < |y| && x[k].term == y[k].term
    ensures states[i].nodes[a].log[..k + 1] == states[j].nodes[b].log[..k + 1]
  {
    hide Run, HistoryOk, MessageOk, Matches;
    var hs := RunInv(states, events);
    var last := |hs| - 1;
    assert Inv(hs[i], states[i]) && Inv(hs[j], states[j]);
    MatchesLater(hs[i], hs[last], states[i].nodes[a].log);
    MatchesLater(hs[j], hs[last], states[j].nodes[b].log);
    LogMatching(hs[last], states[i].nodes[a].log, states[j].nodes[b].log, k);
  }

  lemma CommitLater(h: History, h': History, voters: set<NodeId>, log: seq<Entry>, k: nat, term: Term)
    requires Later(h, h') && CommitOk(h, voters, log, k, term)
    ensures CommitOk(h', voters, log, k, term)
  {
    if k > 0 {
      var t: nat, i: nat :| t <= term && Justifies(h, voters, log, k, t, i);
      SubsetSize(Ackers(h, voters, t, i), Ackers(h', voters, t, i));
      assert Justifies(h', voters, log, k, t, i);
    }
  }

  /** Two committed prefixes under one history agree. */
  lemma CommitsAgree(h: History, voters: set<NodeId>, x: seq<Entry>, m: nat, u: Term, y: seq<Entry>, n: nat, w: Term)
    requires HistoryOk(h, voters) && CommitOk(h, voters, x, m, u) && CommitOk(h, voters, y, n, w) && m <= n
    ensures x[..m] <= y[..n]
  {
    hide HistoryOk;
    if m > 0 {
      var t: nat, i: nat :| t <= u && Justifies(h, voters, x, m, t, i);
      var s: nat, j: nat :| s <= w && Justifies(h, voters, y, n, s, j);
      assert x[..m] == Prefix(h, t, i)[..m] && y[..n] == Prefix(h, s, j)[..n];
      if t <= s {
        PrefixInLeader(h, voters, t, i, s);
      } else {
        PrefixInLeader(h, voters, s, j, t);
      }
    }
  }

  lemma VotersFixed(states: seq<Cluster>, events: seq<Event>, i: nat)
    requires Run(states, events) && i < |states|
    ensures states[i].nodes.Keys == states[0].nodes.Keys
  {
    if i > 0 {
      VotersFixed(states, events, i - 1);
      assert Next(states[i - 1], events[i - 1], states[i]);
    }
  }

  /** The entries node `id` knows to be committed in state `i`. */
  ghost function CommittedLog(states: seq<Cluster>, i: nat, id: NodeId): seq<Entry>
    requires NodeAt(states, i, id)
  {
    var n := states[i].nodes[id];
    n.log[..Min(n.commitIndex, |n.log|)]
  }

  lemma CommitAt(states: seq<Cluster>, events: seq<Event>, hs: seq<History>, i: nat, a: NodeId)
    requires Run(states, events) && Explains(hs, states) && NodeAt(states, i, a)
    ensures var n := states[i].nodes[a];
            && n.commitIndex <= |n.log|
            && CommitOk(hs[|hs| - 1], states[0].nodes.Keys, n.log, n.commitIndex, n.Term())
    ensures HistoryOk(hs[|hs| - 1], states[0].nodes.Keys)
  {
    hide Run, HistoryOk, MessageOk, Matches, Keeps, Later, Justifies;
    var last, n := |hs| - 1, states[i].nodes[a];
    VotersFixed(states, events, i);
    VotersFixed(states, events, last);
    assert Inv(hs[i], states[i]) && Inv(hs[last], states[last]);
    assert Later(hs[i], hs[last]);
    CommitLater(hs[i], hs[last], states[0].nodes.Keys, n.log, n.commitIndex, n.Term());
  }

  /** State Machine Safety: what any two nodes ever hold committed, at any two times of a
      run, is one a prefix of the other.  No committed entry is lost, changed or reordered. */
  lemma StateMachineSafety(states: seq<Cluster>, events: seq<Event>, i: nat, j: nat, a: NodeId, b: NodeId)
    requires Run(states, events) && NodeAt(states, i, a) && NodeAt(states, j, b)
    ensures CommittedLog(states, i, a) <= CommittedLog(states, j, b)
         || CommittedLog(states, j, b) <= CommittedLog(states, i, a)
  {
    hide Run, HistoryOk, CommitOk, Explains;
    var hs := RunInv(states, events);
    assert |hs| == |states| by { ExplainsLength(hs, states); }
    CommitAt(states, events, hs, i, a);
    CommitAt(states, events, hs, j, b);
    var h, voters, x, y := hs[|hs| - 1], states[0].nodes.Keys, states[i].nodes[a], states[j].nodes[b];
    if x.commitIndex <= y.commitIndex {
      CommitsAgree(h, voters, x.log, x.commitIndex, x.Term(), y.log, y.commitIndex, y.Term());
    } else {
      CommitsAgree(h, voters, y.log, y.commitIndex, y.Term(), x.log, x.commitIndex, x.Term());
    }
  }

  lemma ExplainsLength(hs: seq<History>, states: seq<Cluster>)
    requires Explains(hs, states)
    ensures |hs| == |states|
  {
  }

  /** Leader Completeness: a leader's log holds everything that any node, at any earlier or
      later time, knew to be committed while in a lower term. */
  lemma LeadersAreComplete(states: seq<Cluster>, events: seq<Event>, i: nat, j: nat, a: NodeId, b: NodeId)
    requires Run(states, events) && NodeAt(states, i, a) && NodeAt(states, j, b)
    requires states[j].nodes[b].role.Leader?
    requires states[i].nodes[a].Term() < states[j].nodes[b].Term()
    ensures CommittedLog(states, i, a) <= states[j].nodes[b].log
  {
    hide Run, HistoryOk, MessageOk, Matches, Keeps;
    var hs := RunInv(states, events);
    CommitAt(states, events, hs, i, a);
    var h, voters, x, y := hs[|hs| - 1], states[0].nodes.Keys, states[i].nodes[a], states[j].nodes[b];
    assert Inv(hs[j], states[j]) && Later(hs[j], h);
    CommittedInBase(h, voters, x.log, x.commitIndex, x.Term(), y.Term());
    LeaderHoldsBase(hs[j], states[j].nodes.Keys, y);
  }

  lemma LeaderHoldsBase(h: History, voters: set<NodeId>, n: Node)
    requires HistoryOk(h, voters) && NodeOk(h, voters, n) && n.role.Leader?
    ensures n.Term() in h.elected && h.elected[n.Term()].base <= n.log
  {
    assert ElectionOk(h, voters, n.Term(), h.elected[n.Term()]);
  }

  lemma CommittedInBase(h: History, voters: set<NodeId>, log: seq<Entry>, k: nat, term: Term, u: Term)
    requires HistoryOk(h, voters) && CommitOk(h, voters, log, k, term)
    requires u in h.elected && term < u
    ensures log[..k] <= h.elected[u].base
  {
    hide HistoryOk;
    if k > 0 {
      var t: nat, i: nat :| t <= term && Justifies(h, voters, log, k, t, i);
      LeaderCompleteness(h, voters, t, i, u);
      assert log[..k] == Prefix(h, t, i)[..k];
    }
  }

  /** Delivering a message never fails, so the error paths of log storage are dead in every run. */
  lemma DeliveryNeverFails(states: seq<Cluster>, events: seq<Event>, i: nat)
    requires Run(states, events) && i < |events|
    requires events[i].Delivered? && events[i].packet.to in states[i].nodes
    ensures Step(states[i].nodes[events[i].packet.to], events[i].packet.from, events[i].packet.message).ok
  {
    hide Inv, Step, Init;
    var hs := RunInv(states, events);
    assert Next(states[i], events[i], states[i + 1]);
    var _ := NextInv(hs[i], states[i], events[i], states[i + 1]);
  }

  // ---- commitment only moves forward ----

  lemma StepForward(states: seq<Cluster>, events: seq<Event>, i: nat, a: NodeId)
    requires Run(states, events) && i < |events| && NodeAt(states, i, a)
    ensures NodeAt(states, i + 1, a)
    ensures states[i].nodes[a].commitIndex <= states[i + 1].nodes[a].commitIndex
    ensures states[i].nodes[a].Term() <= states[i + 1].nodes[a].Term()
  {
    hide HistoryOk, MessageOk, React, Init, Keeps, Matches, CommitOk, Extends;
    var hs := RunInv(states, events);
    var c, e := states[i], events[i];
    assert Next(c, e, states[i + 1]) && Inv(hs[i], c);
    var _ := ReactFine(hs[i], c.nodes.Keys, c.nodes[Actor(e)], e);
  }

  /** A node's committed log only ever grows, across crashes too, and its term never goes back. */
  lemma {:induction false} CommitsAreForever(states: seq<Cluster>, events: seq<Event>, i: nat, j: nat, a: NodeId)
    requires Run(states, events) && i <= j < |states| && NodeAt(states, i, a)
    ensures NodeAt(states, j, a)
    ensures CommittedLog(states, i, a) <= CommittedLog(states, j, a)
    ensures states[i].nodes[a].commitIndex <= states[j].nodes[a].commitIndex
    ensures states[i].nodes[a].Term() <= states[j].nodes[a].Term()
    decreases j - i
  {
    hide Run, Explains;
    if i < j {
      RunLength(states, events);
      CommitsAreForever(states, events, i, j - 1, a);
      StepForward(states, events, j - 1, a);
    }
    StateMachineSafety(states, events, i, j, a, a);
    var hs := RunInv(states, events);
    CommitAt(states, events, hs, i, a);
    CommitAt(states, events, hs, j, a);
  }

  lemma RunLength(states: seq<Cluster>, events: seq<Event>)
    requires Run(states, events)
    ensures |states| == |events| + 1
  {
  }
}
