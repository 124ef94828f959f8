/** Three voters: a deposed leader's proposal is overwritten, the commit index reaches it all the same,
    and the waiting writer applies a batch that was never committed. */
module Overwritten {
  import opened Wrappers
  import opened RaftNode
  import opened RaftCluster
  import opened Engines
  import opened Replication
  import opened Scripts

  function Blank(id: NodeId, p: NodeId, q: NodeId): Node {
    Node(RaftConfig(id, [p, q], 1, 1, 1), [], HardState(0, None, 0), Follower, None, 0, 0, Timers(0, 0, 1), map[], map[], map[], [])
  }

  function Entries(term: Term, log: seq<Entry>, commit: LogIndex): Message {
    AppendEntries(term, 0, 0, log, commit)
  }

  function First(term: Term): Entry {
    Entry(term, 1, NOOP)
  }

  // ---- one node, step by step ----

  lemma Starts(id: NodeId, p: NodeId, q: NodeId)
    ensures Recover(RaftConfig(id, [p, q], 1, 1, 1), [], HardState(0, None, 0), 0) == Blank(id, p, q) && Fresh(Blank(id, p, q))
  {
  }

  /** A candidate that has heard from nobody. */
  ghost predicate Running(n: Node, id: NodeId, p: NodeId, q: NodeId, term: Term) {
    && n.config == RaftConfig(id, [p, q], 1, 1, 1) && n.log == [] && n.hard == HardState(term, Some(id), 0)
    && n.role == Candidate && n.commitIndex == 0 && n.votes == map[id := true] && n.outbox == []
  }

  /** A leader whose proposals nobody has acknowledged. */
  ghost predicate Leading(n: Node, id: NodeId, p: NodeId, q: NodeId, term: Term, log: seq<Entry>) {
    && n.config == RaftConfig(id, [p, q], 1, 1, 1) && n.log == log && n.hard == HardState(term, Some(id), 0)
    && n.role == Leader && n.commitIndex == 0 && n.outbox == []
    && n.nextIndex == map[p := 1, q := 1] && n.matchIndex == map[p := 0, q := 0, id := |log|]
  }

  lemma Campaigns(n: Node, id: NodeId, p: NodeId, q: NodeId)
    requires n.config == RaftConfig(id, [p, q], 1, 1, 1) && n.log == [] && n.outbox == [] && n.commitIndex == n.hard.commitIndex == 0
    ensures var c := Campaign(n, 0);
            Running(c.(outbox := []), id, p, q, n.Term() + 1) && Envelope(p, RequestVote(n.Term() + 1, 0, 0)) in c.outbox
            && Envelope(q, RequestVote(n.Term() + 1, 0, 0)) in c.outbox
  {
    var c, ask := StartCampaign(n, 0), RequestVote(n.Term() + 1, 0, 0);
    assert [p, q][1..] == [q] && [q][1..] == [];
    var s := Send(c, p, ask);
    var t := Send(s, q, ask);
    assert SendVoteRequests(s, [q]) == SendVoteRequests(t, []) == t;
    assert Campaign(n, 0) == t;
    assert t.outbox == [Envelope(p, ask), Envelope(q, ask)];
  }

  lemma Grants(n: Node, from: NodeId, term: Term)
    requires n.log == [] && n.Term() < term && n.outbox == []
    ensures var v := Step(n, from, RequestVote(term, 0, 0)).node;
            && v.outbox == [Envelope(from, RequestVoteResp(term, true))]
            && v.config == n.config && v.log == [] && v.commitIndex == n.commitIndex
            && v.hard == HardState(term, Some(from), n.hard.commitIndex)
  {
  }

  /** Nothing is on a majority yet. */
  lemma NothingCommits(n: Node, id: NodeId, p: NodeId, q: NodeId)
    requires n.config == RaftConfig(id, [p, q], 1, 1, 1) && n.matchIndex == map[p := 0, q := 0, id := |n.log|] && id != p && id != q
    ensures MaybeAdvanceCommit(n) == n
  {
    forall k | n.commitIndex + 1 <= k <= |n.log| ensures !MayCommit(n, k) {
      assert Replicated(n.matchIndex, k) == {id};
    }
  }

  lemma SendsTwo(n: Node, p: NodeId, q: NodeId)
    ensures SendAppends(n, [p, q]) == SendAppendTo(SendAppendTo(n, p), q)
  {
    hide SendAppendTo;
    var s := SendAppendTo(n, p);
    assert [p, q][1..] == [q] && [q][1..] == [];
    assert SendAppends(s, [q]) == SendAppends(SendAppendTo(s, q), []);
  }

  lemma WholeLog(n: Node, peer: NodeId)
    requires peer in n.nextIndex && n.nextIndex[peer] == 1
    ensures AppendMessage(n, peer) == Entries(n.Term(), n.log, n.commitIndex)
  {
    assert n.log[0..] == n.log;
  }

  lemma Sends(n: Node, id: NodeId, p: NodeId, q: NodeId)
    requires n.config == RaftConfig(id, [p, q], 1, 1, 1) && n.nextIndex == map[p := 1, q := 1] && n.outbox == []
    ensures var m := Entries(n.Term(), n.log, n.commitIndex);
            BroadcastAppend(n) == n.(outbox := [Envelope(p, m), Envelope(q, m)])
  {
    hide AppendMessage, SendAppends;
    SendsTwo(n, p, q);
    WholeLog(n, p);
    WholeLog(SendAppendTo(n, p), q);
  }

  lemma Wins(n: Node, id: NodeId, p: NodeId, q: NodeId, term: Term, from: NodeId)
    requires Running(n, id, p, q, term) && id != p && id != q && p != q && from != id
    ensures var l := Step(n, from, RequestVoteResp(term, true)).node;
            Leading(l.(outbox := []), id, p, q, term, [First(term)])
  {
    hide BecomeLeader, AdoptTerm;
    var m := n.(votes := n.votes[from := true]);
    assert AdoptTerm(n, term) == n by { NoNewTerm(n, term); }
    assert YesVotes(m.votes) == {id, from};
    Crowned(m, id, p, q, term);
  }

  lemma NoNewTerm(n: Node, term: Term)
    requires term <= n.Term()
    ensures AdoptTerm(n, term) == n
  {
  }

  lemma Crowned(n: Node, id: NodeId, p: NodeId, q: NodeId, term: Term)
    requires Running(n.(votes := map[id := true]), id, p, q, term) && id != p && id != q && p != q
    ensures Leading(BecomeLeader(n).node.(outbox := []), id, p, q, term, [First(term)])
  {
    hide MaybeAdvanceCommit, BroadcastAppend;
    var s := StartLeading(n);
    assert s.matchIndex == map[p := 0, q := 0, id := 0] && s.nextIndex == map[p := 1, q := 1];
    var a := LeaderAppend(s, NOOP);
    assert Leading(a.node, id, p, q, term, [First(term)]);
    NothingCommits(a.node, id, p, q);
    Sends(a.node, id, p, q);
  }

  lemma Proposes(n: Node, id: NodeId, p: NodeId, q: NodeId, term: Term, log: seq<Entry>, command: Command)
    requires Leading(n, id, p, q, term, log) && id != p && id != q && p != q && LastTerm(log) <= term
    ensures var entry := Entry(term, |log| + 1, command);
            var l := ProposeNode(n, command);
            && Leading(l.(outbox := []), id, p, q, term, log + [entry]) && ProposedEntry(n, command) == {entry}
            && Envelope(p, Entries(term, log + [entry], 0)) in l.outbox && Envelope(q, Entries(term, log + [entry], 0)) in l.outbox
  {
    hide MaybeAdvanceCommit, BroadcastAppend;
    var a := LeaderAppend(n, command);
    assert Leading(a.node, id, p, q, term, log + [Entry(term, |log| + 1, command)]);
    NothingCommits(a.node, id, p, q);
    Sends(a.node, id, p, q);
  }

  /** Storing two entries of term 2 over a log that holds nothing of that term. */
  lemma Stores(log: seq<Entry>, x: Entry, y: Entry)
    requires x.index == 1 && y.index == 2 && x.term == y.term == 2 && forall e :: e in log ==> e.term < 2
    ensures StoreEntries(log, [x, y]) == Appended([x, y], true)
  {
    assert [x, y][1..] == [y] && [y][1..] == [];
    assert log == [] || log[0] in log;
    assert TruncateFrom(log, 1) == [];
    assert [] + [x] == [x] && [x] + [y] == [x, y];
    assert StoreEntry(log, x) == Appended([x], true);
    assert StoreEntry([x], y) == Appended([x, y], true);
    assert StoreEntries([x], [y]) == StoreEntries([x, y], []) == Appended([x, y], true);
  }

  lemma Accepts(n: Node, x: Entry, y: Entry, commit: LogIndex)
    requires x.index == 1 && y.index == 2 && x.term == y.term == 2 && forall e :: e in n.log ==> e.term < 2
    requires n.Term() <= 2 && n.commitIndex == n.hard.commitIndex == 0 && commit <= 2 && n.outbox == []
    ensures var f := Step(n, 2, Entries(2, [x, y], commit)).node;
            && f.outbox == [Envelope(2, AppendEntriesResp(2, true, 2))] && f.config == n.config
            && f.log == [x, y] && f.commitIndex == f.hard.commitIndex == commit
  {
    hide StoreEntries;
    Stores(n.log, x, y);
  }

  lemma Commits(n: Node, x: Entry, y: Entry)
    requires Leading(n, 2, 1, 3, 2, [x, y]) && y.term == 2
    ensures var l := Step(n, 3, AppendEntriesResp(2, true, 2)).node;
            && l.outbox == [] && l.role == Leader && l.config == n.config && l.log == [x, y] && l.Term() == 2
            && l.commitIndex == 2 && 1 in l.nextIndex && l.nextIndex[1] == 1
  {
    hide CommitScan;
    var m := n.(matchIndex := n.matchIndex[3 := 2], nextIndex := n.nextIndex[3 := 3]);
    assert m.matchIndex == map[1 := 0, 3 := 2, 2 := 2];
    assert Replicated(m.matchIndex, 2) == {2, 3};
    assert MayCommit(m, 2);
  }

  /** The next heartbeat carries the commit index to node 1. */
  lemma Beats(n: Node)
    requires n.role == Leader && n.config == RaftConfig(2, [1, 3], 1, 1, 1) && 1 in n.nextIndex && n.nextIndex[1] == 1 && n.outbox == []
    ensures Envelope(1, Entries(n.Term(), n.log, n.commitIndex)) in Tick(n, 0).outbox
  {
    var m := n.(timers := n.timers.(heartbeatElapsed := 0));
    assert [1, 3][1..] == [3] && [3][1..] == [];
    assert n.log[0..] == n.log;
    var s := SendAppendTo(m, 1);
    assert s.outbox == [Envelope(1, Entries(n.Term(), n.log, n.commitIndex))];
    assert BroadcastAppend(m) == SendAppendTo(s, 3);
    assert s.outbox[0] in BroadcastAppend(m).outbox;
  }

  // ---- the run ----

  ghost predicate Trio(d: Deployment) {
    d.cluster.nodes.Keys == {1, 2, 3} && d.sites.Keys == {1, 2, 3}
  }

  lemma Begins() returns (ds: seq<Deployment>, moves: seq<Move>, d: Deployment)
    ensures RunTo(ds, moves, d) && Trio(d) && d.sites[1] == IDLE
    ensures d.cluster.nodes[1] == Blank(1, 2, 3) && d.cluster.nodes[2] == Blank(2, 1, 3) && d.cluster.nodes[3] == Blank(3, 1, 2)
  {
    hide RunTo, Init, Blank;
    var nodes := map[1 := Blank(1, 2, 3), 2 := Blank(2, 1, 3), 3 := Blank(3, 1, 2)];
    AllStart(nodes);
    ds, moves, d := Begin(nodes);
  }

  lemma AllStart(nodes: map<NodeId, Node>)
    requires nodes == map[1 := Blank(1, 2, 3), 2 := Blank(2, 1, 3), 3 := Blank(3, 1, 2)]
    ensures Init(Cluster(nodes, {}))
  {
    hide Fresh;
    Starts(1, 2, 3);
    Starts(2, 1, 3);
    Starts(3, 1, 2);
    assert nodes.Keys == {1, 2, 3};
  }

  /** A node with an empty log and nothing committed. */
  ghost predicate Empty(n: Node, id: NodeId, p: NodeId, q: NodeId, term: Term) {
    && n.config == RaftConfig(id, [p, q], 1, 1, 1) && n.log == [] && n.Term() == term
    && n.commitIndex == n.hard.commitIndex == 0 && n.outbox == []
  }

  /** `b` may still vote in a term after `term`. */
  ghost predicate MayVote(n: Node, term: Term) {
    n.log == [] && n.Term() <= term && n.commitIndex == n.hard.commitIndex == 0 && n.outbox == []
  }

  /** Candidate `a` asks `b`, which has an empty log and an older term, and wins with its vote. */
  lemma Election(ds: seq<Deployment>, moves: seq<Move>, d: Deployment, a: NodeId, b: NodeId, p: NodeId, q: NodeId, term: Term)
    returns (ds': seq<Deployment>, moves': seq<Move>, d': Deployment)
    requires RunTo(ds, moves, d) && a in d.cluster.nodes && b in d.cluster.nodes && Apart(a, p, q) && (b == p || b == q)
    requires Empty(d.cluster.nodes[a], a, p, q, term) && MayVote(d.cluster.nodes[b], term)
    ensures RunTo(ds', moves', d') && d'.sites == d.sites && d'.cluster.nodes.Keys == d.cluster.nodes.Keys
    ensures Leading(d'.cluster.nodes[a], a, p, q, term + 1, [First(term + 1)])
    ensures MayVote(d'.cluster.nodes[b], term + 1) && d'.cluster.nodes[b].Term() == term + 1
    ensures d'.cluster.nodes[b].config == d.cluster.nodes[b].config
    ensures forall x :: x in d.cluster.nodes && x != a && x != b ==> d'.cluster.nodes[x] == d.cluster.nodes[x]
  {
    hide RunTo, Running, Leading, Empty, MayVote, Step, Packets;
    var grant := RequestVoteResp(term + 1, true);
    var d2;
    ds', moves', d2 := Voted(ds, moves, d, a, b, p, q, term);
    Wins(d2.cluster.nodes[a], a, p, q, term + 1, b);
    ds', moves', d' := Act(ds', moves', d2, Delivered(Packet(b, a, grant)));
  }

  lemma Voted(ds: seq<Deployment>, moves: seq<Move>, d: Deployment, a: NodeId, b: NodeId, p: NodeId, q: NodeId, term: Term)
    returns (ds': seq<Deployment>, moves': seq<Move>, d': Deployment)
    requires RunTo(ds, moves, d) && a in d.cluster.nodes && b in d.cluster.nodes && Apart(a, p, q) && (b == p || b == q)
    requires Empty(d.cluster.nodes[a], a, p, q, term) && MayVote(d.cluster.nodes[b], term)
    ensures RunTo(ds', moves', d') && d'.sites == d.sites && d'.cluster.nodes.Keys == d.cluster.nodes.Keys
    ensures Running(d'.cluster.nodes[a], a, p, q, term + 1) && Packet(b, a, RequestVoteResp(term + 1, true)) in d'.cluster.sent
    ensures MayVote(d'.cluster.nodes[b], term + 1) && d'.cluster.nodes[b].Term() == term + 1
    ensures d'.cluster.nodes[b].config == d.cluster.nodes[b].config
    ensures forall x :: x in d.cluster.nodes && x != a && x != b ==> d'.cluster.nodes[x] == d.cluster.nodes[x]
  {
    hide RunTo, Running, Empty, Step, Packets;
    var ask, grant := RequestVote(term + 1, 0, 0), RequestVoteResp(term + 1, true);
    var d1;
    ds', moves', d1 := Asked(ds, moves, d, a, b, p, q, term);
    Grants(d1.cluster.nodes[b], a, term + 1);
    ds', moves', d' := Act(ds', moves', d1, Delivered(Packet(a, b, ask)));
    PacketOf(b, [Envelope(a, grant)], Envelope(a, grant));
  }

  lemma Asked(ds: seq<Deployment>, moves: seq<Move>, d: Deployment, a: NodeId, b: NodeId, p: NodeId, q: NodeId, term: Term)
    returns (ds': seq<Deployment>, moves': seq<Move>, d': Deployment)
    requires RunTo(ds, moves, d) && a in d.cluster.nodes && (b == p || b == q) && Empty(d.cluster.nodes[a], a, p, q, term)
    ensures RunTo(ds', moves', d') && d'.sites == d.sites && d'.cluster.nodes.Keys == d.cluster.nodes.Keys
    ensures Running(d'.cluster.nodes[a], a, p, q, term + 1) && Packet(a, b, RequestVote(term + 1, 0, 0)) in d'.cluster.sent
    ensures forall x :: x in d.cluster.nodes && x != a ==> d'.cluster.nodes[x] == d.cluster.nodes[x]
  {
    hide RunTo, Campaign, Packets, Running;
    Campaigns(d.cluster.nodes[a], a, p, q);
    ds', moves', d' := Act(ds, moves, d, Campaigned(a, 0));
    PacketOf(a, Campaign(d.cluster.nodes[a], 0).outbox, Envelope(b, RequestVote(term + 1, 0, 0)));
  }

  predicate Apart(a: NodeId, p: NodeId, q: NodeId) {
    a != p && a != q && p != q
  }

  /** Node 1 leads and a writer on it waits for its proposal at index 2. */
  lemma FirstProposes(b: Command) returns (ds: seq<Deployment>, moves: seq<Move>, d: Deployment)
    ensures RunTo(ds, moves, d) && Trio(d) && d.sites[1] == IDLE.(waiting := {Entry(1, 2, b)})
    ensures Leading(d.cluster.nodes[1], 1, 2, 3, 1, [First(1), Entry(1, 2, b)])
    ensures Empty(d.cluster.nodes[2], 2, 1, 3, 1) && Empty(d.cluster.nodes[3], 3, 1, 2, 0)
  {
    hide RunTo, Leading, ProposeNode, ProposedEntry, Packets;
    var d0, d1;
    ds, moves, d0 := Begins();
    ds, moves, d1 := Election(ds, moves, d0, 1, 2, 2, 3, 0);
    Proposes(d1.cluster.nodes[1], 1, 2, 3, 1, [First(1)], b);
    assert [First(1)] + [Entry(1, 2, b)] == [First(1), Entry(1, 2, b)];
    ds, moves, d := Act(ds, moves, d1, ProposedAt(1, b));
    assert {} + {Entry(1, 2, b)} == {Entry(1, 2, b)};
  }

  /** Node 2 wins the next term without node 1 and proposes at the same index. */
  lemma SecondProposes(b: Command, c: Command) returns (ds: seq<Deployment>, moves: seq<Move>, d: Deployment)
    ensures RunTo(ds, moves, d) && Trio(d) && d.sites[1] == IDLE.(waiting := {Entry(1, 2, b)})
    ensures Leading(d.cluster.nodes[1], 1, 2, 3, 1, [First(1), Entry(1, 2, b)])
    ensures Leading(d.cluster.nodes[2], 2, 1, 3, 2, [First(2), Entry(2, 2, c)]) && Empty(d.cluster.nodes[3], 3, 1, 2, 2)
    ensures Packet(2, 3, Entries(2, [First(2), Entry(2, 2, c)], 0)) in d.cluster.sent
  {
    hide RunTo, Leading, ProposeNode, ProposedEntry, Packets;
    var d0, d1;
    ds, moves, d0 := FirstProposes(b);
    ds, moves, d1 := Election(ds, moves, d0, 2, 3, 1, 3, 1);
    Proposes(d1.cluster.nodes[2], 2, 1, 3, 2, [First(2)], c);
    assert [First(2)] + [Entry(2, 2, c)] == [First(2), Entry(2, 2, c)];
    PacketOf(2, ProposeNode(d1.cluster.nodes[2], c).outbox, Envelope(3, Entries(2, [First(2), Entry(2, 2, c)], 0)));
    ds, moves, d := Act(ds, moves, d1, ProposedAt(2, c));
  }

  /** Node 3 acknowledges, node 2 commits, and its next heartbeat is on the way to node 1. */
  lemma SecondCommits(b: Command, c: Command) returns (ds: seq<Deployment>, moves: seq<Move>, d: Deployment)
    ensures RunTo(ds, moves, d) && Trio(d) && d.sites[1] == IDLE.(waiting := {Entry(1, 2, b)})
    ensures Leading(d.cluster.nodes[1], 1, 2, 3, 1, [First(1), Entry(1, 2, b)])
    ensures Packet(2, 1, Entries(2, [First(2), Entry(2, 2, c)], 2)) in d.cluster.sent
  {
    hide RunTo, Step, Tick, Packets;
    var log, ack := [First(2), Entry(2, 2, c)], AppendEntriesResp(2, true, 2);
    var d0, d1, d2;
    ds, moves, d0 := SecondProposes(b, c);
    Accepts(d0.cluster.nodes[3], First(2), Entry(2, 2, c), 0);
    ds, moves, d1 := Act(ds, moves, d0, Delivered(Packet(2, 3, Entries(2, log, 0))));
    PacketOf(3, [Envelope(2, ack)], Envelope(2, ack));
    Commits(d1.cluster.nodes[2], First(2), Entry(2, 2, c));
    ds, moves, d2 := Act(ds, moves, d1, Delivered(Packet(3, 2, ack)));
    Beats(d2.cluster.nodes[2]);
    PacketOf(2, Tick(d2.cluster.nodes[2], 0).outbox, Envelope(1, Entries(2, log, 2)));
    ds, moves, d := Act(ds, moves, d2, Ticked(2, 0));
  }

  /** One message overwrites the proposal on node 1 and commits what replaced it. */
  lemma FirstOverwritten(b: Command, c: Command) returns (ds: seq<Deployment>, moves: seq<Move>, d: Deployment)
    ensures RunTo(ds, moves, d) && Trio(d) && d.sites[1] == IDLE.(waiting := {Entry(1, 2, b)})
    ensures var n := d.cluster.nodes[1]; n.log == [First(2), Entry(2, 2, c)] && n.commitIndex == n.hard.commitIndex == 2
  {
    hide RunTo, Step, Packets;
    var d0;
    ds, moves, d0 := SecondCommits(b, c);
    assert forall e :: e in d0.cluster.nodes[1].log ==> e.term < 2;
    Accepts(d0.cluster.nodes[1], First(2), Entry(2, 2, c), 2);
    ds, moves, d := Act(ds, moves, d0, Delivered(Packet(2, 1, Entries(2, [First(2), Entry(2, 2, c)], 2))));
  }

  lemma LogWrites(c: Command)
    requires c != NOOP
    ensures Writes([First(2), Entry(2, 2, c)]) == [Entry(2, 2, c)] && Writes([First(2)]) == []
  {
    var w := [First(2), Entry(2, 2, c)];
    assert w[..0] == [] && w[..2] == w && w[..1] == [First(2)];
    WritesSnoc(w, 0);
    WritesSnoc(w, 1);
  }

  /** A watermark at the end of the log makes replay a no-op. */
  lemma ReplayIgnores(e: Engine, c: Command)
    requires e.watermark == 2
    ensures Replay(0, e, [First(2), Entry(2, 2, c)]) == e
  {
    var w := [First(2), Entry(2, 2, c)];
    assert w[..1] == [First(2)] && [First(2)][..0] == [];
    assert Replay(0, e, []) == e;
    assert Replay(0, e, [First(2)]) == e;
  }

  /** A run after which node 1's engine holds a batch that was never committed, and neither has nor will
      ever have the committed one, although no earlier write was missing: not even a restart helps. */
  lemma OverwrittenIsApplied(b: Command, c: Command) returns (ds: seq<Deployment>, moves: seq<Move>)
    requires b != NOOP && c != NOOP
    ensures RunOf(Zero(), ds, moves) && !InlinesInTurn(Zero(), ds, moves)
    ensures |moves| > 0 && moves[|moves| - 1] == RaftMove(Restarted(1, 0))
    ensures var d := ds[|moves|];
            && 1 in d.sites && 1 in d.cluster.nodes && d.sites[1].engine.applied == [Entry(1, 2, b)]
            && Committed(d.cluster.nodes[1]) == [First(2), Entry(2, 2, c)] && Writes(Committed(d.cluster.nodes[1])) == [Entry(2, 2, c)]
            && NothingBefore(0, Engine(0, []), Committed(d.cluster.nodes[1]), 2)
  {
    hide InlinesInTurn, NextMove, Init, FreshSites, Writes, Replay;
    var log := [First(2), Entry(2, 2, c)];
    var d1, d2;
    ds, moves, d1 := FirstInlined(b, c);
    assert log[..2] == log && log[0..1] == [First(2)];
    ReplayIgnores(d1.sites[1].engine, c);
    LogWrites(c);
    ds, moves, d2 := Act(ds, moves, d1, Restarted(1, 0));
    assert Committed(d2.cluster.nodes[1]) == log;
    NotHeld(ds, moves, d2, b, c);
  }

  /** The waiting writer returns, since the commit index has reached its proposal, and applies its batch. */
  lemma FirstInlined(b: Command, c: Command) returns (ds: seq<Deployment>, moves: seq<Move>, d: Deployment)
    requires b != NOOP
    ensures RunTo(ds, moves, d) && Trio(d) && d.sites[1].engine == Engine(2, [Entry(1, 2, b)])
    ensures var n := d.cluster.nodes[1]; n.log == [First(2), Entry(2, 2, c)] && n.commitIndex == n.hard.commitIndex == 2
  {
    hide RunTo;
    var d0;
    ds, moves, d0 := FirstOverwritten(b, c);
    assert ApplyEntry(0, Engine(0, []), Entry(1, 2, b)) == Engine(2, [Entry(1, 2, b)]);
    ds, moves, d := Work(ds, moves, d0, Inlined(1, Entry(1, 2, b)));
  }

  lemma NotHeld(ds: seq<Deployment>, moves: seq<Move>, d: Deployment, b: Command, c: Command)
    requires RunTo(ds, moves, d) && 1 in d.sites && d.sites[1].engine == Engine(2, [Entry(1, 2, b)]) && c != NOOP
    requires Committed(d.cluster.nodes[1]) == [First(2), Entry(2, 2, c)]
    ensures !InlinesInTurn(Zero(), ds, moves)
  {
    hide InlinesInTurn, NextMove, Init, FreshSites, Writes, Committed;
    var log := [First(2), Entry(2, 2, c)];
    LogWrites(c);
    assert log[..2] == log;
    EnginesArePrefixes(Zero(), ds, moves);
    assert !Holds(0, d.sites[1].engine, log);
    assert !AllHold(Zero(), ds[|moves|]);
  }
}
