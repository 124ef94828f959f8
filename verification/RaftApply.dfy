/** What a node hands to its state machine over a run, and what a restart of the node skips. */
module RaftApply {
  import opened RaftNode
  import opened RaftCluster
  import opened RaftHistory
  import opened RaftSafety

  /** The entries node `id` handed to its state machine during the events from `i` to `j`. */
  ghost function Applied(states: seq<Cluster>, events: seq<Event>, id: NodeId, i: nat, j: nat): seq<Entry>
    requires i <= j <= |events| && |events| < |states|
    decreases j - i
  {
    if i == j then []
    else
      Applied(states, events, id, i, j - 1) +
      (if events[j - 1] == TookCommitted(id) && id in states[j - 1].nodes then Taken(states[j - 1].nodes[id]) else [])
  }

  ghost function AppliedLog(states: seq<Cluster>, i: nat, id: NodeId): seq<Entry>
    requires NodeAt(states, i, id)
  {
    var n := states[i].nodes[id];
    n.log[..Min(n.lastApplied, |n.log|)]
  }

  lemma {:induction false} SendAppendsOnlySends(n: Node, peers: seq<NodeId>)
    ensures SendAppends(n, peers) == n.(outbox := SendAppends(n, peers).outbox)
    decreases peers
  {
    if peers != [] {
      SendAppendsOnlySends(SendAppendTo(n, peers[0]), peers[1..]);
    }
  }

  lemma {:induction false} SendVoteRequestsOnlySends(n: Node, peers: seq<NodeId>)
    ensures SendVoteRequests(n, peers) == n.(outbox := SendVoteRequests(n, peers).outbox)
    decreases peers
  {
    if peers != [] {
      SendVoteRequestsOnlySends(Send(n, peers[0], RequestVote(n.Term(), |n.log|, LastTerm(n.log))), peers[1..]);
    }
  }

  lemma LeadApplies(n: Node)
    ensures BecomeLeader(n).node.lastApplied == n.lastApplied
  {
    var a := LeaderAppend(StartLeading(n), NOOP);
    SendAppendsOnlySends(MaybeAdvanceCommit(a.node), a.node.config.peers);
  }

  lemma CampaignApplies(n: Node, draw: nat)
    ensures Campaign(n, draw).lastApplied == n.lastApplied
  {
    var c := StartCampaign(n, draw);
    LeadApplies(c);
    SendVoteRequestsOnlySends(c, c.config.peers);
  }

  lemma TickApplies(n: Node, draw: nat)
    ensures Tick(n, draw).lastApplied == n.lastApplied
  {
    hide SendAppends, Campaign;
    SendAppendsOnlySends(n.(timers := n.timers.(heartbeatElapsed := 0)), n.config.peers);
    CampaignApplies(n.(timers := n.timers.(electionElapsed := n.timers.electionElapsed + 1)), draw);
  }

  lemma ProposeApplies(n: Node, command: Command)
    ensures ProposeNode(n, command).lastApplied == n.lastApplied
  {
    hide SendAppends, CommitScan;
    var a := LeaderAppend(n, command);
    SendAppendsOnlySends(MaybeAdvanceCommit(a.node), a.node.config.peers);
  }

  lemma ReactApplies(n: Node, e: Event)
    requires !e.Restarted? && !e.TookCommitted?
    ensures React(n, e).lastApplied == n.lastApplied
  {
    hide Tick, Campaign, ProposeNode, Step;
    match e
    case Ticked(_, draw) => TickApplies(n, draw);
    case Campaigned(_, draw) => CampaignApplies(n, draw);
    case ProposedAt(_, command) => ProposeApplies(n, command);
    case Delivered(p) => StepApplies(n, p.from, p.message);
  }

  lemma StepApplies(n: Node, from: NodeId, message: Message)
    ensures Step(n, from, message).node.lastApplied == n.lastApplied
  {
    var m := AdoptTerm(n, message.term);
    if message.RequestVoteResp? {
      LeadApplies(m.(votes := m.votes[from := message.granted]));
    }
  }

  lemma AppliedBound(states: seq<Cluster>, events: seq<Event>, i: nat, a: NodeId)
    requires Run(states, events) && NodeAt(states, i, a)
    ensures var n := states[i].nodes[a]; n.lastApplied <= n.commitIndex <= |n.log| && n.hard.commitIndex == n.commitIndex
  {
    hide Run, HistoryOk, MessageOk, Keeps, Matches, Justifies;
    var hs := RunInv(states, events);
    assert Inv(hs[i], states[i]);
  }

  /** The entries a step moves the applied index of `a` past. */
  ghost function StepPasses(c: Cluster, e: Event, a: NodeId): seq<Entry> {
    if (e == TookCommitted(a) || (e.Restarted? && e.id == a)) && a in c.nodes then Taken(c.nodes[a]) else []
  }

  lemma AppliedStep(states: seq<Cluster>, events: seq<Event>, i: nat, a: NodeId)
    requires Run(states, events) && i < |events| && NodeAt(states, i, a) && NodeAt(states, i + 1, a)
    ensures AppliedLog(states, i + 1, a) == AppliedLog(states, i, a) + StepPasses(states[i], events[i], a)
  {
    hide Init, React;
    AppliedBound(states, events, i, a);
    AppliedBound(states, events, i + 1, a);
    CommitsAreForever(states, events, i, i + 1, a);
    var n, n', e := states[i].nodes[a], states[i + 1].nodes[a], events[i];
    assert Next(states[i], e, states[i + 1]);
    if Actor(e) == a {
      if e.TookCommitted? {
        TookReact(n, a);
      } else if e.Restarted? {
        RestartReact(n, e);
      } else {
        ReactApplies(n, e);
        assert n'.log[..n.lastApplied] == CommittedLog(states, i + 1, a)[..n.lastApplied];
        assert n.log[..n.lastApplied] == CommittedLog(states, i, a)[..n.lastApplied];
      }
    }
  }

  lemma RestartReact(n: Node, e: Event)
    requires e.Restarted?
    ensures React(n, e).log == n.log && React(n, e).lastApplied == n.hard.commitIndex
  {
  }

  lemma TookReact(n: Node, a: NodeId)
    ensures React(n, TookCommitted(a)) == n.(lastApplied := n.commitIndex)
  {
  }

  /** The entries the applied index of `id` moved past during the events from `i` to `j`: those handed
      to the state machine, and those a restart jumped over. */
  ghost function Passed(states: seq<Cluster>, events: seq<Event>, id: NodeId, i: nat, j: nat): seq<Entry>
    requires i <= j <= |events| && |events| < |states|
    decreases j - i
  {
    if i == j then [] else Passed(states, events, id, i, j - 1) + StepPasses(states[j - 1], events[j - 1], id)
  }

  /** In every window, the applied index moves over exactly the committed entries not yet applied:
      in log order, none twice, none left out. */
  lemma {:induction false} AppliedAccounted(states: seq<Cluster>, events: seq<Event>, i: nat, j: nat, a: NodeId)
    requires Run(states, events) && |states| == |events| + 1
    requires i <= j < |states| && NodeAt(states, i, a) && NodeAt(states, j, a)
    ensures AppliedLog(states, i, a) + Passed(states, events, a, i, j) == AppliedLog(states, j, a)
    decreases j - i
  {
    hide Run, AppliedLog, CommittedLog, Taken, StepPasses;
    if i < j {
      CommitsAreForever(states, events, i, j - 1, a);
      AppliedAccounted(states, events, i, j - 1, a);
      AppliedStep(states, events, j - 1, a);
    }
  }

  ghost predicate RestartAt(events: seq<Event>, k: nat, a: NodeId) {
    k < |events| && events[k].Restarted? && events[k].id == a
  }

  /** Every restart of `a` in the window found it with all it knew committed already applied. */
  ghost predicate NothingSkipped(states: seq<Cluster>, events: seq<Event>, i: nat, j: nat, a: NodeId)
    requires j <= |events| && |events| < |states|
  {
    forall k: nat :: i <= k < j && RestartAt(events, k, a) && a in states[k].nodes ==>
      states[k].nodes[a].lastApplied == states[k].nodes[a].commitIndex
  }

  lemma TakenIsLag(n: Node)
    requires n.lastApplied <= n.commitIndex <= |n.log|
    ensures Taken(n) == [] <==> n.lastApplied == n.commitIndex
  {
  }

  lemma {:induction false} PassedIsApplied(states: seq<Cluster>, events: seq<Event>, i: nat, j: nat, a: NodeId)
    requires Run(states, events) && |states| == |events| + 1
    requires i <= j < |states| && NodeAt(states, i, a)
    ensures |Applied(states, events, a, i, j)| <= |Passed(states, events, a, i, j)|
    ensures NothingSkipped(states, events, i, j, a) ==> Applied(states, events, a, i, j) == Passed(states, events, a, i, j)
    ensures !NothingSkipped(states, events, i, j, a) ==> |Applied(states, events, a, i, j)| < |Passed(states, events, a, i, j)|
    decreases j - i
  {
    hide Run, Taken;
    if i < j {
      CommitsAreForever(states, events, i, j - 1, a);
      PassedIsApplied(states, events, i, j - 1, a);
      AppliedBound(states, events, j - 1, a);
      TakenIsLag(states[j - 1].nodes[a]);
      if !NothingSkipped(states, events, i, j, a) && NothingSkipped(states, events, i, j - 1, a) {
        assert RestartAt(events, j - 1, a);
      }
    }
  }

  /** The state machine is handed exactly the committed entries of a window, in log order, none twice
      and none skipped, if and only if every restart of the node found nothing waiting to be applied. */
  lemma AppliedOnce(states: seq<Cluster>, events: seq<Event>, i: nat, j: nat, a: NodeId)
    requires Run(states, events) && |states| == |events| + 1
    requires i <= j < |states| && NodeAt(states, i, a) && NodeAt(states, j, a)
    ensures AppliedLog(states, i, a) + Applied(states, events, a, i, j) == AppliedLog(states, j, a)
            <==> NothingSkipped(states, events, i, j, a)
  {
    hide Run, AppliedLog, Applied, Passed, NothingSkipped;
    AppliedAccounted(states, events, i, j, a);
    PassedIsApplied(states, events, i, j, a);
  }
}
