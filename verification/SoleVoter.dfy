/** A cluster of one voter: campaigning and proposing commit at once. */
module SoleVoter {
  import opened Wrappers
  import opened RaftNode
  import opened RaftCluster
  import opened RaftSafety
  import opened RaftApply

  /** A lone node whose terms do not run ahead of its own. */
  predicate Sole(n: Node) {
    n.config.peers == [] && LastTerm(n.log) <= n.Term() && n.commitIndex <= |n.log|
  }

  /** It leads and knows its whole log committed. */
  predicate Settled(n: Node) {
    && Sole(n) && n.role.Leader?
    && n.commitIndex == |n.log| == n.hard.commitIndex
    && n.matchIndex == map[n.config.id := |n.log|]
  }

  lemma SoleCommit(n: Node)
    requires n.config.peers == [] && n.log != [] && LastTerm(n.log) == n.Term() && n.commitIndex < |n.log|
    requires n.matchIndex == map[n.config.id := |n.log|]
    ensures MaybeAdvanceCommit(n) == SetCommit(n, |n.log|)
  {
    assert Replicated(n.matchIndex, |n.log|) == {n.config.id};
    assert MayCommit(n, |n.log|);
  }

  /** Appending to the leader's log and committing, in a cluster of one. */
  lemma SoleAppend(n: Node, command: Command)
    requires Sole(n) && n.role.Leader? && n.matchIndex.Keys == {n.config.id}
    ensures var e := Entry(n.Term(), |n.log| + 1, command);
            var a := LeaderAppend(n, command);
            && a.ok
            && BroadcastAppend(MaybeAdvanceCommit(a.node)) ==
               SetCommit(n.(log := n.log + [e], matchIndex := map[n.config.id := |n.log| + 1]), |n.log| + 1)
  {
    var a := LeaderAppend(n, command).node;
    assert a.matchIndex == map[n.config.id := |n.log| + 1];
    SoleCommit(a);
  }

  /** A lone node's campaign wins at once and commits its no-op with everything before it. */
  lemma SoleCampaign(n: Node, draw: nat)
    requires Sole(n)
    ensures var m := Campaign(n, draw);
            && Settled(m) && m.Term() == n.Term() + 1 && m.config == n.config && m.lastApplied == n.lastApplied
            && m.log == n.log + [Entry(n.Term() + 1, |n.log| + 1, NOOP)] && m.outbox == n.outbox
  {
    hide MaybeAdvanceCommit;
    var s := StartLeading(StartCampaign(n, draw));
    assert s.matchIndex.Keys == {n.config.id};
    SoleAppend(s, NOOP);
  }

  lemma SolePropose(n: Node, command: Command)
    requires Settled(n)
    ensures var m := ProposeNode(n, command);
            && Settled(m) && m.Term() == n.Term() && m.config == n.config && m.lastApplied == n.lastApplied
            && m.log == n.log + [Entry(n.Term(), |n.log| + 1, command)] && m.outbox == n.outbox
  {
    hide MaybeAdvanceCommit;
    SoleAppend(n, command);
  }

  // ---- a restart that skips committed entries ----

  function Single(n: Node): Cluster {
    Cluster(map[n.config.id := n], {})
  }

  lemma SingleNext(n: Node, e: Event)
    requires !e.Delivered? && e.id == n.config.id && React(n, e).outbox == [] && React(n, e).config == n.config
    ensures Next(Single(n), e, Single(React(n, e)))
  {
    hide React;
    assert React(n, e).(outbox := []) == React(n, e);
  }

  /** A lone node commits a command and restarts before anything is taken: the node comes back with
      its applied index past the command, which was never handed to the state machine. */
  lemma RestartCanSkip(command: Command) returns (states: seq<Cluster>, events: seq<Event>, id: NodeId)
    ensures Run(states, events) && |states| == |events| + 1 && |states| == 4 && NodeAt(states, 0, id) && NodeAt(states, 3, id)
    ensures Applied(states, events, id, 0, 3) == [] && |AppliedLog(states, 3, id)| == 2
    ensures AppliedLog(states, 3, id)[1].command == command
    ensures !NothingSkipped(states, events, 0, 3, id)
  {
    hide Campaign, ProposeNode;
    var config := RaftConfig(1, [], 1, 1, 1);
    id := 1;
    var n0 := Recover(config, [], HardState(0, None, 0), 0);
    SoleCampaign(n0, 0);
    var n1 := Campaign(n0, 0);
    SolePropose(n1, command);
    var n2 := ProposeNode(n1, command);
    var n3 := Recover(config, n2.log, n2.hard, 0);
    events := [Campaigned(1, 0), ProposedAt(1, command), Restarted(1, 0)];
    states := [Single(n0), Single(n1), Single(n2), Single(n3)];
    SingleNext(n0, events[0]);
    SingleNext(n1, events[1]);
    SingleNext(n2, events[2]);
    assert Fresh(n0);
    assert Init(states[0]);
    assert RestartAt(events, 2, id);
    assert Applied(states, events, id, 0, 2) == Applied(states, events, id, 0, 1) == Applied(states, events, id, 0, 0) == [];
  }
}
