/** Two voters, two writes committed together, the later one applied inline first: a run of the
    cluster in which the earlier write never reaches the leader's engine. */
module LostWrite {
  import opened Wrappers
  import opened RaftNode
  import opened RaftCluster
  import opened Engines
  import opened Replication
  import opened Scripts

  function Config(id: NodeId, peer: NodeId): RaftConfig {
    RaftConfig(id, [peer], 1, 1, 1)
  }

  function Blank(id: NodeId, peer: NodeId): Node {
    Node(Config(id, peer), [], HardState(0, None, 0), Follower, None, 0, 0, Timers(0, 0, 1), map[], map[], map[], [])
  }

  function Running(): Node {
    Blank(1, 2).(hard := HardState(1, Some(1), 0), role := Candidate, votes := map[1 := true])
  }

  /** The leader with the follower known to hold `held` entries and `commit` of its own committed. */
  function Leading(log: seq<Entry>, held: LogIndex, commit: LogIndex, taken: LogIndex): Node {
    Node(Config(1, 2), log, HardState(1, Some(1), commit), Leader, Some(1), commit, taken, Timers(0, 0, 1),
         map[2 := held + 1], map[2 := held, 1 := |log|], map[1 := true, 2 := true], [])
  }

  function Voter(): Node {
    Blank(2, 1).(hard := HardState(1, Some(1), 0))
  }

  function Following(log: seq<Entry>): Node {
    Voter().(log := log, leaderId := Some(1))
  }

  const FIRST := [Entry(1, 1, NOOP)]

  function Whole(a: Command, b: Command): seq<Entry> {
    [Entry(1, 1, NOOP), Entry(1, 2, a), Entry(1, 3, b)]
  }

  // ---- the messages ----

  const ASK := RequestVote(1, 0, 0)
  const GRANT := RequestVoteResp(1, true)
  const HELD := AppendEntriesResp(1, true, 3)

  function Entries(log: seq<Entry>): Message {
    AppendEntries(1, 0, 0, log, 0)
  }

  // ---- one node, step by step ----

  lemma Starts(id: NodeId, peer: NodeId)
    ensures Recover(Config(id, peer), [], HardState(0, None, 0), 0) == Blank(id, peer) && Fresh(Blank(id, peer))
  {
  }

  lemma Runs()
    ensures Campaign(Blank(1, 2), 0) == Running().(outbox := [Envelope(2, ASK)])
  {
    assert Config(1, 2).peers[1..] == [];
  }

  lemma Votes()
    ensures Step(Blank(2, 1), 1, ASK) == Outcome(Voter().(outbox := [Envelope(1, GRANT)]), true)
  {
  }

  /** Nothing past the commit index is on both nodes yet. */
  lemma NothingCommits(n: Node)
    requires n.config == Config(1, 2) && n.matchIndex == map[2 := 0, 1 := |n.log|]
    ensures MaybeAdvanceCommit(n) == n
  {
    forall k | n.commitIndex + 1 <= k <= |n.log| ensures !MayCommit(n, k) {
      assert Replicated(n.matchIndex, k) == {1};
    }
  }

  lemma Sends(n: Node)
    requires n.config == Config(1, 2) && n.Term() == 1 && n.nextIndex == map[2 := 1] && n.commitIndex == 0 && n.outbox == []
    ensures BroadcastAppend(n) == n.(outbox := [Envelope(2, Entries(n.log))])
  {
    assert n.config.peers[1..] == [];
    assert n.log[0..] == n.log;
  }

  lemma Leads()
    ensures Step(Running(), 2, GRANT) == Outcome(Leading(FIRST, 0, 0, 0).(outbox := [Envelope(2, Entries(FIRST))]), true)
  {
    hide MaybeAdvanceCommit, BroadcastAppend;
    var m := Running().(votes := map[1 := true, 2 := true]);
    assert Running().votes[2 := true] == m.votes;
    assert YesVotes(m.votes) == {1, 2};
    var p := LeaderAppend(StartLeading(m), NOOP);
    assert StartLeading(m).matchIndex == map[2 := 0, 1 := 0] && StartLeading(m).nextIndex == map[2 := 1];
    assert p.node == Leading(FIRST, 0, 0, 0);
    NothingCommits(p.node);
    Sends(p.node);
  }

  lemma Proposes(log: seq<Entry>, command: Command)
    requires LastTerm(log) <= 1
    ensures var log' := log + [Entry(1, |log| + 1, command)];
            ProposeNode(Leading(log, 0, 0, 0), command) == Leading(log', 0, 0, 0).(outbox := [Envelope(2, Entries(log'))])
  {
    hide MaybeAdvanceCommit, BroadcastAppend;
    var p := LeaderAppend(Leading(log, 0, 0, 0), command);
    assert p.node == Leading(log + [Entry(1, |log| + 1, command)], 0, 0, 0);
    NothingCommits(p.node);
    Sends(p.node);
  }

  lemma Stores(a: Command, b: Command)
    ensures StoreEntries([], Whole(a, b)) == Appended(Whole(a, b), true)
  {
    var w := Whole(a, b);
    assert StoreEntries(w[..3], w[3..]) == Appended(w, true);
    assert w[..2] + [w[2]] == w[..3] && w[2..][1..] == w[3..];
    assert StoreEntries(w[..2], w[2..]) == Appended(w, true);
    assert w[..1] + [w[1]] == w[..2] && w[1..][1..] == w[2..];
    assert StoreEntries(w[..1], w[1..]) == Appended(w, true);
    assert [] + [w[0]] == w[..1];
  }

  lemma Follows(a: Command, b: Command)
    ensures Step(Voter(), 1, Entries(Whole(a, b))) == Outcome(Following(Whole(a, b)).(outbox := [Envelope(1, HELD)]), true)
  {
    hide StoreEntries;
    Stores(a, b);
  }

  lemma Commits(a: Command, b: Command)
    ensures Step(Leading(Whole(a, b), 0, 0, 0), 2, HELD) == Outcome(Leading(Whole(a, b), 3, 3, 0), true)
  {
    hide CommitScan;
    var n := Leading(Whole(a, b), 0, 0, 0);
    var m := n.(matchIndex := n.matchIndex[2 := 3], nextIndex := n.nextIndex[2 := 4]);
    assert m.matchIndex == map[2 := 3, 1 := 3] && m.nextIndex == map[2 := 4];
    CommitsAll(m);
  }

  lemma CommitsAll(n: Node)
    requires n.config == Config(1, 2) && n.Term() == 1 && n.commitIndex == 0
    requires |n.log| == 3 && n.log[2].term == 1 && n.matchIndex == map[2 := 3, 1 := 3]
    ensures MaybeAdvanceCommit(n) == SetCommit(n, 3)
  {
    assert Replicated(n.matchIndex, 3) == {1, 2};
    assert MayCommit(n, 3);
  }

  // ---- the run ----

  /** Two nodes, and the site of the first. */
  ghost predicate Pair(d: Deployment, one: Node, two: Node, site: Site) {
    d.cluster.nodes == map[1 := one, 2 := two] && d.sites.Keys == {1, 2} && d.sites[1] == site
  }

  lemma Begins() returns (ds: seq<Deployment>, moves: seq<Move>, d: Deployment)
    ensures RunTo(ds, moves, d) && Pair(d, Blank(1, 2), Blank(2, 1), IDLE)
  {
    hide RunTo;
    Starts(1, 2);
    Starts(2, 1);
    var nodes := map[1 := Blank(1, 2), 2 := Blank(2, 1)];
    assert nodes.Keys == {1, 2};
    ds, moves, d := Begin(nodes);
  }

  /** An event of node 1 that leaves it in state `one'`. */
  lemma FirstActs(ds: seq<Deployment>, moves: seq<Move>, d: Deployment, one: Node, two: Node, site: Site, e: Event, one': Node)
    returns (ds': seq<Deployment>, moves': seq<Move>, d': Deployment)
    requires RunTo(ds, moves, d) && Pair(d, one, two, site) && Actor(e) == 1 && (e.Delivered? ==> e.packet in d.cluster.sent)
    requires React(one, e).(outbox := []) == one'
    ensures RunTo(ds', moves', d') && Pair(d', one', two, SiteAfter(0, 1, one, site, RaftMove(e)))
    ensures d'.cluster.sent == d.cluster.sent + Packets(1, React(one, e).outbox)
  {
    hide RunTo, React, Packets, SiteAfter;
    ds', moves', d' := Act(ds, moves, d, e);
    assert map[1 := one, 2 := two][1 := one'] == map[1 := one', 2 := two];
  }

  /** A message to node 2 that leaves it in state `two'`. */
  lemma SecondActs(ds: seq<Deployment>, moves: seq<Move>, d: Deployment, one: Node, two: Node, site: Site, message: Message, two': Node)
    returns (ds': seq<Deployment>, moves': seq<Move>, d': Deployment)
    requires RunTo(ds, moves, d) && Pair(d, one, two, site) && Packet(1, 2, message) in d.cluster.sent
    requires Step(two, 1, message).node.(outbox := []) == two'
    ensures RunTo(ds', moves', d') && Pair(d', one, two', site)
    ensures d'.cluster.sent == d.cluster.sent + Packets(2, Step(two, 1, message).node.outbox)
  {
    hide RunTo, Step, Packets, SiteAfter;
    ds', moves', d' := Act(ds, moves, d, Delivered(Packet(1, 2, message)));
    assert map[1 := one, 2 := two][2 := two'] == map[1 := one, 2 := two'];
  }

  /** Node 1 is elected. */
  lemma Elected() returns (ds: seq<Deployment>, moves: seq<Move>, d: Deployment)
    ensures RunTo(ds, moves, d) && Pair(d, Leading(FIRST, 0, 0, 0), Voter(), IDLE)
  {
    hide Campaign, Step, Packets, RunTo;
    ds, moves, d := Begins();
    Runs();
    ds, moves, d := FirstActs(ds, moves, d, Blank(1, 2), Blank(2, 1), IDLE, Campaigned(1, 0), Running());
    PacketOf(1, [Envelope(2, ASK)], Envelope(2, ASK));
    Votes();
    ds, moves, d := SecondActs(ds, moves, d, Running(), Blank(2, 1), IDLE, ASK, Voter());
    PacketOf(2, [Envelope(1, GRANT)], Envelope(1, GRANT));
    Leads();
    ds, moves, d := FirstActs(ds, moves, d, Running(), Voter(), IDLE, Delivered(Packet(2, 1, GRANT)), Leading(FIRST, 0, 0, 0));
  }

  lemma ProposedNext(ds: seq<Deployment>, moves: seq<Move>, d: Deployment, log: seq<Entry>, command: Command, waiting: set<Entry>)
    returns (ds': seq<Deployment>, moves': seq<Move>, d': Deployment)
    requires LastTerm(log) <= 1 && RunTo(ds, moves, d)
    requires Pair(d, Leading(log, 0, 0, 0), Voter(), IDLE.(waiting := waiting))
    ensures var entry := Entry(1, |log| + 1, command);
            && RunTo(ds', moves', d') && Pair(d', Leading(log + [entry], 0, 0, 0), Voter(), IDLE.(waiting := waiting + {entry}))
            && Packet(1, 2, Entries(log + [entry])) in d'.cluster.sent
  {
    hide ProposeNode, Packets, RunTo;
    var log' := log + [Entry(1, |log| + 1, command)];
    Proposes(log, command);
    ds', moves', d' := FirstActs(ds, moves, d, Leading(log, 0, 0, 0), Voter(), IDLE.(waiting := waiting),
                                 ProposedAt(1, command), Leading(log', 0, 0, 0));
    PacketOf(1, [Envelope(2, Entries(log'))], Envelope(2, Entries(log')));
  }

  /** It logs both writes before the follower has heard of either; the first writer gives up in between. */
  lemma BothLogged(a: Command, b: Command) returns (ds: seq<Deployment>, moves: seq<Move>, d: Deployment)
    ensures RunTo(ds, moves, d) && Pair(d, Leading(Whole(a, b), 0, 0, 0), Voter(), IDLE.(waiting := {Entry(1, 3, b)}))
    ensures Packet(1, 2, Entries(Whole(a, b))) in d.cluster.sent
  {
    hide RunTo, Entries;
    ds, moves, d := Elected();
    ds, moves, d := ProposedNext(ds, moves, d, FIRST, a, {});
    assert FIRST + [Entry(1, 2, a)] + [Entry(1, 3, b)] == Whole(a, b);
    ds, moves, d := Work(ds, moves, d, GaveUp(1, Entry(1, 2, a)));
    assert {} + {Entry(1, 2, a)} - {Entry(1, 2, a)} == {};
    ds, moves, d := ProposedNext(ds, moves, d, FIRST + [Entry(1, 2, a)], b, {});
    assert {} + {Entry(1, 3, b)} == {Entry(1, 3, b)};
  }

  /** One exchange commits both. */
  lemma BothCommitted(a: Command, b: Command) returns (ds: seq<Deployment>, moves: seq<Move>, d: Deployment)
    ensures RunTo(ds, moves, d)
    ensures Pair(d, Leading(Whole(a, b), 3, 3, 0), Following(Whole(a, b)), IDLE.(waiting := {Entry(1, 3, b)}))
  {
    hide Step, Packets, RunTo;
    var log, site := Whole(a, b), IDLE.(waiting := {Entry(1, 3, b)});
    ds, moves, d := BothLogged(a, b);
    Follows(a, b);
    ds, moves, d := SecondActs(ds, moves, d, Leading(log, 0, 0, 0), Voter(), site, Entries(log), Following(log));
    PacketOf(2, [Envelope(1, HELD)], Envelope(1, HELD));
    Commits(a, b);
    ds, moves, d := FirstActs(ds, moves, d, Leading(log, 0, 0, 0), Following(log), site, Delivered(Packet(2, 1, HELD)), Leading(log, 3, 3, 0));
  }

  /** The driver takes all three entries, and the second writer applies its batch before it gets to them. */
  lemma SecondInlined(a: Command, b: Command) returns (ds: seq<Deployment>, moves: seq<Move>, d: Deployment)
    requires b != NOOP
    ensures RunTo(ds, moves, d) && 1 in d.sites && 1 in d.cluster.nodes && d.cluster.nodes[1] == Leading(Whole(a, b), 3, 3, 3)
    ensures d.sites[1].engine == Engine(3, [Entry(1, 3, b)]) && d.sites[1].pending == Whole(a, b)
  {
    hide Packets, RunTo;
    var log, site := Whole(a, b), IDLE.(waiting := {Entry(1, 3, b)});
    ds, moves, d := BothCommitted(a, b);
    assert Taken(Leading(log, 3, 3, 0)) == log && [] + log == log;
    ds, moves, d := FirstActs(ds, moves, d, Leading(log, 3, 3, 0), Following(log), site, TookCommitted(1), Leading(log, 3, 3, 3));
    assert ApplyEntry(0, Engine(0, []), Entry(1, 3, b)) == Engine(3, [Entry(1, 3, b)]);
    ds, moves, d := Work(ds, moves, d, Inlined(1, Entry(1, 3, b)));
  }

  lemma DrainOne(ds: seq<Deployment>, moves: seq<Move>, d: Deployment, one: Node, engine: Engine, pending: seq<Entry>)
    returns (ds': seq<Deployment>, moves': seq<Move>, d': Deployment)
    requires RunTo(ds, moves, d) && 1 in d.sites && 1 in d.cluster.nodes && d.cluster.nodes[1] == one
    requires d.sites[1].engine == engine && d.sites[1].pending == pending
    requires pending != [] && ApplyEntry(0, engine, pending[0]) == engine
    ensures RunTo(ds', moves', d') && 1 in d'.sites && 1 in d'.cluster.nodes && d'.cluster.nodes[1] == one
    ensures d'.sites[1].engine == engine && d'.sites[1].pending == pending[1..]
  {
    hide RunTo;
    ds', moves', d' := Work(ds, moves, d, Drained(1));
  }

  /** A run after which the leader's driver has nothing left to take or apply, both writes are
      committed, and the engine holds the later one alone. */
  lemma InlineCanLose(a: Command, b: Command) returns (ds: seq<Deployment>, moves: seq<Move>)
    requires a != NOOP && b != NOOP
    ensures RunOf(Zero(), ds, moves) && !InlinesInTurn(Zero(), ds, moves)
    ensures var d := ds[|moves|];
            && 1 in d.sites && 1 in d.cluster.nodes
            && d.sites[1].pending == [] && d.cluster.nodes[1].lastApplied == 3 == |Committed(d.cluster.nodes[1])|
            && d.sites[1].engine.applied == [Entry(1, 3, b)]
            && Writes(Committed(d.cluster.nodes[1])) == [Entry(1, 2, a), Entry(1, 3, b)]
  {
    hide InlinesInTurn, NextMove, Init, FreshSites;
    var log, engine := Whole(a, b), Engine(3, [Entry(1, 3, b)]);
    var one := Leading(log, 3, 3, 3);
    var d;
    ds, moves, d := SecondInlined(a, b);
    ds, moves, d := DrainOne(ds, moves, d, one, engine, log);
    ds, moves, d := DrainOne(ds, moves, d, one, engine, log[1..]);
    ds, moves, d := DrainOne(ds, moves, d, one, engine, log[1..][1..]);
    assert log[1..][1..][1..] == [];
    assert Committed(one) == log;
    WholeWrites(a, b);
    if InlinesInTurn(Zero(), ds, moves) {
      DrainedIsComplete(Zero(), ds, moves, |moves|, 1);
    }
  }

  lemma WholeWrites(a: Command, b: Command)
    requires a != NOOP && b != NOOP
    ensures Writes(Whole(a, b)) == [Entry(1, 2, a), Entry(1, 3, b)]
  {
    var w := Whole(a, b);
    assert w[..0] == [] && w[..3] == w;
    WritesSnoc(w, 0);
    WritesSnoc(w, 1);
    WritesSnoc(w, 2);
  }
}
