/** The handlers of a Raft node, one by one: each keeps the invariant, possibly after
    recording in the history what it did. */
module RaftHandlers {
  import opened Sequences
  import opened Wrappers
  import opened RaftNode
  import opened RaftCluster
  import opened RaftHistory
  import opened RaftSteps

  /** Node `n` may become `n'`, its term and commit index never going back, while the history grows from `h` to `h'`. */
  ghost predicate Moves(h: History, h': History, voters: set<NodeId>, n: Node, n': Node) {
    && n'.config == n.config
    && n'.Term() >= n.Term() && n'.commitIndex >= n.commitIndex
    && Extends(h, h', n'.config.id, n'.Term())
    && Fine(h', voters, n')
  }

  // ---- campaigning ----

  ghost function WithCampaign(h: History, s: Slot, log: seq<Entry>): History {
    h.(campaigns := h.campaigns[s := log])
  }

  lemma WithCampaignExtends(h: History, id: NodeId, cur: Term, log: seq<Entry>)
    requires Slot(cur, id) !in h.campaigns
    ensures Extends(h, WithCampaign(h, Slot(cur, id), log), id, cur)
  {
  }

  lemma WithCampaignOk(h: History, voters: set<NodeId>, n: Node)
    requires Fine(h, voters, n)
    ensures var cur, id := n.Term() + 1, n.config.id;
            var h' := WithCampaign(h, Slot(cur, id), n.log);
            HistoryOk(h', voters) && Extends(h, h', id, cur) && NothingAhead(h', id, cur)
    ensures Keeps(WithCampaign(h, Slot(n.Term() + 1, n.config.id), n.log), n.config.id, n.log, n.Term() + 1)
  {
    hide ElectionOk, VoteOk, Keeps, Matches, CommitOk, LeaderOk, CandidateOk, OutboxOk, VoteRecorded, ConfigOk, Extends;
    var cur, id := n.Term() + 1, n.config.id;
    var h' := WithCampaign(h, Slot(cur, id), n.log);
    WithCampaignExtends(h, id, cur, n.log);
    HistoryStable(h, h', id, cur, voters);
    MatchesStable(h, h', id, cur, n.log);
    KeepsStable(h, h', id, cur, id, n.log, cur);
  }

  ghost function Campaigned(h: History, n: Node): History {
    var s := Slot(n.Term() + 1, n.config.id);
    WithVote(WithCampaign(h, s, n.log), s, n.config.id)
  }

  lemma CampaignHistory(h: History, voters: set<NodeId>, n: Node)
    requires Fine(h, voters, n)
    ensures HistoryOk(Campaigned(h, n), voters)
    ensures Extends(h, Campaigned(h, n), n.config.id, n.Term() + 1)
    ensures NothingAhead(Campaigned(h, n), n.config.id, n.Term() + 1)
  {
    hide Extends, Keeps, ElectionOk, VoteOk, AcksOk, Matches, TermsBelow, LeaderOk, CandidateOk, OutboxOk, CommitOk;
    var cur, id := n.Term() + 1, n.config.id;
    var h1 := WithCampaign(h, Slot(cur, id), n.log);
    WithCampaignOk(h, voters, n);
    WithVoteOk(h1, voters, id, cur, id);
    ExtendsTransitive(h, h1, Campaigned(h, n), id, cur);
  }

  lemma NotYetElected(h: History, voters: set<NodeId>, n: Node)
    requires Fine(h, voters, n) && n.Term() + 1 in h.elected
    ensures h.elected[n.Term() + 1].leader != n.config.id
  {
    assert ElectionOk(h, voters, n.Term() + 1, h.elected[n.Term() + 1]);
  }

  lemma StartCampaignFine(h: History, voters: set<NodeId>, n: Node, draw: nat)
    requires Fine(h, voters, n)
    ensures Moves(h, Campaigned(h, n), voters, n, StartCampaign(n, draw))
  {
    hide ElectionOk, VoteOk, AcksOk, Keeps, Matches, Justifies, LeaderOk, CandidateOk, MessageOk, TermsBelow, Extends, Quorum;
    var h', m, id, cur := Campaigned(h, n), StartCampaign(n, draw), n.config.id, n.Term() + 1;
    CampaignHistory(h, voters, n);
    MatchesStable(h, h', id, cur, n.log);
    KeepsSameAcks(h, h', id, cur, n.log, cur);
    KeepsLater(h', id, n.log, cur, cur + 1);
    CommitStable(h, h', id, cur, voters, n.log, m.log, n.commitIndex, n.Term(), cur);
    OutboxStable(h, h', id, cur, voters, n);
    CampaignCandidateOk(h, voters, n, draw);
    assert VoteRecorded(h', m) && OutboxOk(h', voters, m);
  }

  lemma CampaignCandidateOk(h: History, voters: set<NodeId>, n: Node, draw: nat)
    requires Fine(h, voters, n)
    ensures CandidateOk(Campaigned(h, n), voters, StartCampaign(n, draw))
  {
    if n.Term() + 1 in h.elected {
      NotYetElected(h, voters, n);
    }
  }

  // ---- winning ----

  ghost function Won(h: History, n: Node, log': seq<Entry>): History {
    h.(elected := h.elected[n.Term() := Election(n.config.id, n.log, YesVotes(n.votes), log')],
       acks := h.acks[Slot(n.Term(), n.config.id) := |log'|])
  }

  lemma NobodyWon(h: History, voters: set<NodeId>, n: Node)
    requires Fine(h, voters, n) && n.role.Candidate?
    requires |YesVotes(n.votes)| >= n.config.Majority()
    ensures n.Term() !in h.elected && Quorum(YesVotes(n.votes), voters)
  {
    MajorityOf(n.config, voters);
    if n.Term() in h.elected {
      OneWinner(h, voters, n.Term(), YesVotes(n.votes), n.config.id);
    }
  }

  lemma WonExtends(h: History, voters: set<NodeId>, n: Node, log': seq<Entry>)
    requires Fine(h, voters, n) && n.Term() !in h.elected
    ensures Extends(h, Won(h, n, log'), n.config.id, n.Term())
  {
    hide ElectionOk, VoteOk, Keeps, Matches, TermsBelow, LeaderOk, CandidateOk, OutboxOk, CommitOk, VoteRecorded;
    assert Slot(n.Term(), n.config.id) !in h.acks;
  }

  /** Appending an entry of the leader's own term keeps Log Matching. */
  lemma MatchesOwnAppend(h: History, log: seq<Entry>, e: Entry)
    requires Matches(h, log) && e.index == |log| + 1
    requires e.term in h.elected && log + [e] <= h.elected[e.term].log
    ensures Matches(h, log + [e])
  {
    var log' := log + [e];
    forall j | 0 <= j < |log'| ensures MatchesAt(h, log', j) {
      if j < |log| {
        assert MatchesAt(h, log, j);
        assert log'[..j + 1] == log[..j + 1];
      } else {
        assert log'[..j + 1] == log';
      }
    }
  }

  lemma WonElectionOk(h: History, voters: set<NodeId>, n: Node, e: Entry)
    requires Fine(h, voters, n) && n.role.Candidate?
    requires n.Term() !in h.elected && Quorum(YesVotes(n.votes), voters)
    requires e.index == |n.log| + 1 && e.term == n.Term()
    ensures var h' := Won(h, n, n.log + [e]);
            ElectionOk(h', voters, n.Term(), h'.elected[n.Term()])
  {
    hide Extends, Keeps, Matches, AcksOk, LeaderOk, OutboxOk, CommitOk, VoteRecorded;
    var h', cur, id := Won(h, n, n.log + [e]), n.Term(), n.config.id;
    WonExtends(h, voters, n, n.log + [e]);
    WonMatches(h, voters, n, e);
    forall v | v in YesVotes(n.votes) ensures Keeps(h', v, n.log, cur) {
      assert VoteOk(h, Slot(cur, v));
      KeepsStable(h, h', id, cur, v, n.log, cur);
    }
  }

  lemma WonHistory(h: History, voters: set<NodeId>, n: Node, e: Entry)
    requires Fine(h, voters, n) && n.role.Candidate?
    requires n.Term() !in h.elected && Quorum(YesVotes(n.votes), voters)
    requires e.index == |n.log| + 1 && e.term == n.Term()
    ensures HistoryOk(Won(h, n, n.log + [e]), voters)
  {
    hide Keeps, Matches, ElectionOk, VoteOk, TermsBelow, LeaderOk, CandidateOk, OutboxOk, CommitOk, VoteRecorded, Quorum;
    var h' := Won(h, n, n.log + [e]);
    WonExtends(h, voters, n, n.log + [e]);
    HistoryStable(h, h', n.config.id, n.Term(), voters);
    WonElectionOk(h, voters, n, e);
  }

  /** A leader's own log keeps everything it acknowledged. */
  lemma LeaderKeeps(h: History, h': History, voters: set<NodeId>, id: NodeId, cur: Term, log: seq<Entry>)
    requires HistoryOk(h, voters) && Extends(h, h', id, cur) && Keeps(h, id, log, cur + 1)
    requires cur in h'.elected && log <= h'.elected[cur].log
    ensures Keeps(h', id, h'.elected[cur].log, cur + 1)
  {
    hide ElectionOk, VoteOk, Matches, TermsBelow;
    forall t: nat, i: nat | AckedBelow(h', id, t, i, cur + 1) && Inherited(h', t, i, cur + 1)
      ensures Prefix(h', t, i) <= h'.elected[cur].log
    {
      if t < cur {
        assert Slot(t, id) in h.acks && t in h.elected;
        assert Grew(h.elected[t], h'.elected[t]);
        AnchoredStable(h, h', id, cur, t, i);
        assert AckedBelow(h, id, t, i, cur + 1) && Inherited(h, t, i, cur + 1);
      }
    }
  }

  /** The freshly elected leader with its no-op, before it commits or sends. */
  function Crowned(n: Node, e: Entry): Node {
    var s := StartLeading(n);
    s.(log := n.log + [e], matchIndex := s.matchIndex[n.config.id := |n.log| + 1])
  }

  lemma CrownedLeaderOk(h: History, voters: set<NodeId>, n: Node, e: Entry)
    requires ConfigOk(n.config, n.config.id, voters)
    ensures LeaderOk(Won(h, n, n.log + [e]), voters, Crowned(n, e))
  {
    assert forall p :: p in n.config.peers ==> p in Elements(n.config.peers);
  }

  lemma WonMatches(h: History, voters: set<NodeId>, n: Node, e: Entry)
    requires Fine(h, voters, n) && n.Term() !in h.elected
    requires e.index == |n.log| + 1 && e.term == n.Term()
    ensures Matches(Won(h, n, n.log + [e]), n.log + [e])
  {
    var h' := Won(h, n, n.log + [e]);
    WonExtends(h, voters, n, n.log + [e]);
    MatchesStable(h, h', n.config.id, n.Term(), n.log);
    MatchesOwnAppend(h', n.log, e);
  }

  lemma CrownedFine(h: History, voters: set<NodeId>, n: Node, e: Entry)
    requires Fine(h, voters, n) && n.role.Candidate?
    requires n.Term() !in h.elected && Quorum(YesVotes(n.votes), voters)
    requires e.index == |n.log| + 1 && e.term == n.Term()
    ensures Moves(h, Won(h, n, n.log + [e]), voters, n, Crowned(n, e))
  {
    hide HistoryOk, ElectionOk, Keeps, Matches, Justifies, MessageOk, CandidateOk, TermsBelow, Quorum, LeaderOk, ConfigOk;
    var log', m := n.log + [e], Crowned(n, e);
    var h', id, cur := Won(h, n, log'), n.config.id, n.Term();
    WonExtends(h, voters, n, log');
    WonHistory(h, voters, n, e);
    SelfStable(h, h', voters, n);
    LeaderKeeps(h, h', voters, id, cur, n.log);
    WonMatches(h, voters, n, e);
    ExtendsSelf(h', id, cur);
    CommitStable(h', h', id, cur, voters, n.log, log', n.commitIndex, cur, cur);
    CrownedLeaderOk(h, voters, n, e);
    assert VoteRecorded(h', m) && TermsUpTo(log', cur);
    assert OutboxOk(h', voters, m);
  }

  lemma LastTermBound(h: History, voters: set<NodeId>, n: Node)
    requires NodeOk(h, voters, n)
    ensures LastTerm(n.log) <= n.Term()
  {
  }

  lemma BecomeLeaderFine(h: History, voters: set<NodeId>, n: Node) returns (h': History)
    requires Fine(h, voters, n) && n.role.Candidate?
    requires |YesVotes(n.votes)| >= n.config.Majority()
    ensures Moves(h, h', voters, n, BecomeLeader(n).node) && BecomeLeader(n).ok
  {
    hide HistoryOk, Extends, Quorum, CommitOk, MaybeAdvanceCommit, SendAppends, SendAppendTo;
    var e := Entry(n.Term(), |n.log| + 1, NOOP);
    NobodyWon(h, voters, n);
    LastTermBound(h, voters, n);
    h' := Won(h, n, n.log + [e]);
    CrownedFine(h, voters, n, e);
    var m := Crowned(n, e);
    assert LeaderAppend(StartLeading(n), NOOP) == Outcome(m, true);
    AdvanceCommitFine(h', voters, m);
    SendAppendsFine(h', voters, MaybeAdvanceCommit(m), m.config.peers);
  }

  lemma CampaignFine(h: History, voters: set<NodeId>, n: Node, draw: nat) returns (h': History)
    requires Fine(h, voters, n)
    ensures Moves(h, h', voters, n, Campaign(n, draw))
  {
    hide HistoryOk, NodeOk, Extends;
    var h1, m := Campaigned(h, n), StartCampaign(n, draw);
    StartCampaignFine(h, voters, n, draw);
    if m.config.Majority() <= 1 {
      assert YesVotes(m.votes) == {n.config.id};
      h' := BecomeLeaderFine(h1, voters, m);
      ExtendsTransitive(h, h1, h', n.config.id, m.Term());
    } else {
      h' := h1;
      SendVoteRequestsFine(h1, voters, m, m.config.peers);
    }
  }

  lemma TickFine(h: History, voters: set<NodeId>, n: Node, draw: nat) returns (h': History)
    requires Fine(h, voters, n)
    ensures Moves(h, h', voters, n, Tick(n, draw))
  {
    hide HistoryOk, NodeOk, Extends, StartCampaign, Campaign, SendAppends;
    h' := h;
    ExtendsSelf(h, n.config.id, n.Term());
    if n.role.Leader? {
      var m := n.(timers := n.timers.(heartbeatElapsed := 0));
      RetimedFine(h, voters, n, m.timers);
      RetimedFine(h, voters, n, n.timers.(heartbeatElapsed := n.timers.heartbeatElapsed + 1));
      SendAppendsFine(h, voters, m, m.config.peers);
    } else {
      var timers := n.timers.(electionElapsed := n.timers.electionElapsed + 1);
      RetimedFine(h, voters, n, timers);
      if timers.electionElapsed >= n.timers.electionTimeout {
        h' := CampaignFine(h, voters, n.(timers := timers), draw);
      }
    }
  }

  lemma RetimedFine(h: History, voters: set<NodeId>, n: Node, timers: Timers)
    requires Fine(h, voters, n)
    ensures Fine(h, voters, n.(timers := timers))
  {
    hide HistoryOk, Keeps, Matches, CommitOk, MessageOk, NothingAhead, TermsUpTo;
  }

  // ---- proposing ----

  ghost function Lengthened(h: History, cur: Term, id: NodeId, log': seq<Entry>): History
    requires cur in h.elected
  {
    h.(elected := h.elected[cur := h.elected[cur].(log := log')],
       acks := h.acks[Slot(cur, id) := |log'|])
  }

  lemma LengthenedExtends(h: History, voters: set<NodeId>, n: Node, e: Entry)
    requires Fine(h, voters, n) && n.role.Leader?
    ensures Extends(h, Lengthened(h, n.Term(), n.config.id, n.log + [e]), n.config.id, n.Term())
  {
    hide HistoryOk, Extends, Lengthened, Keeps, Matches, TermsBelow, CandidateOk, OutboxOk, CommitOk, VoteRecorded, NothingAhead;
    OwnAckBound(h, voters, n);
    LongerExtends(h, n.Term(), n.config.id, n.log + [e]);
  }

  lemma OwnAckBound(h: History, voters: set<NodeId>, n: Node)
    requires HistoryOk(h, voters) && n.Term() in h.elected
    ensures Slot(n.Term(), n.config.id) in h.acks ==> h.acks[Slot(n.Term(), n.config.id)] <= |h.elected[n.Term()].log|
  {
    hide ElectionOk, VoteOk, Keeps, Matches, TermsBelow;
  }

  lemma LongerExtends(h: History, cur: Term, id: NodeId, log': seq<Entry>)
    requires cur in h.elected && h.elected[cur].leader == id && h.elected[cur].log <= log'
    requires Slot(cur, id) in h.acks ==> h.acks[Slot(cur, id)] <= |log'|
    ensures Extends(h, Lengthened(h, cur, id, log'), id, cur)
  {
    var h' := Lengthened(h, cur, id, log');
    assert ElectionsExtend(h, h', id, cur);
    assert AcksExtend(h, h', Slot(cur, id));
  }

  lemma LengthenedMatches(h: History, voters: set<NodeId>, n: Node, e: Entry)
    requires Fine(h, voters, n) && n.role.Leader?
    requires e.index == |n.log| + 1 && e.term == n.Term()
    ensures Matches(Lengthened(h, n.Term(), n.config.id, n.log + [e]), n.log + [e])
  {
    hide Extends, Matches, Keeps, ElectionOk, VoteOk, CandidateOk, OutboxOk, CommitOk, VoteRecorded;
    var h' := Lengthened(h, n.Term(), n.config.id, n.log + [e]);
    LengthenedExtends(h, voters, n, e);
    MatchesStable(h, h', n.config.id, n.Term(), n.log);
    MatchesOwnAppend(h', n.log, e);
  }

  lemma LengthenedElectionOk(h: History, voters: set<NodeId>, n: Node, e: Entry)
    requires Fine(h, voters, n) && n.role.Leader?
    requires e.index == |n.log| + 1 && e.term == n.Term()
    ensures var h' := Lengthened(h, n.Term(), n.config.id, n.log + [e]);
            ElectionOk(h', voters, n.Term(), h'.elected[n.Term()])
  {
    hide Extends, Keeps, CommitOk, CandidateOk, OutboxOk, VoteRecorded, ConfigOk, VoteOk, Matches, NothingAhead, TermsUpTo;
    var h', id, cur := Lengthened(h, n.Term(), n.config.id, n.log + [e]), n.config.id, n.Term();
    var x := h.elected[cur];
    assert ElectionOk(h, voters, cur, x);
    LengthenedExtends(h, voters, n, e);
    LengthenedMatches(h, voters, n, e);
    forall v | v in x.electors ensures Keeps(h', v, x.base, cur) {
      KeepsStable(h, h', id, cur, v, x.base, cur);
    }
  }

  lemma LengthenedHistory(h: History, voters: set<NodeId>, n: Node, e: Entry)
    requires Fine(h, voters, n) && n.role.Leader?
    requires e.index == |n.log| + 1 && e.term == n.Term()
    ensures HistoryOk(Lengthened(h, n.Term(), n.config.id, n.log + [e]), voters)
  {
    hide Keeps, Matches, ElectionOk, VoteOk, TermsBelow, CommitOk, OutboxOk;
    var h' := Lengthened(h, n.Term(), n.config.id, n.log + [e]);
    LengthenedExtends(h, voters, n, e);
    HistoryStable(h, h', n.config.id, n.Term(), voters);
    LengthenedElectionOk(h, voters, n, e);
  }

  lemma LeaderAppendFine(h: History, voters: set<NodeId>, n: Node, command: Command) returns (h': History)
    requires Fine(h, voters, n) && n.role.Leader?
    ensures Moves(h, h', voters, n, LeaderAppend(n, command).node) && LeaderAppend(n, command).ok
    ensures LeaderAppend(n, command).node.role.Leader?
  {
    hide HistoryOk, Extends, Keeps, Matches, Justifies, MessageOk, CandidateOk, TermsBelow, Quorum, NothingAhead;
    var e, id, cur := Entry(n.Term(), |n.log| + 1, command), n.config.id, n.Term();
    var log' := n.log + [e];
    LastTermBound(h, voters, n);
    h' := Lengthened(h, cur, id, log');
    var m := n.(log := log', matchIndex := n.matchIndex[id := |log'|]);
    assert LeaderAppend(n, command) == Outcome(m, true);
    LengthenedExtends(h, voters, n, e);
    LengthenedHistory(h, voters, n, e);
    LengthenedMatches(h, voters, n, e);
    SelfStable(h, h', voters, n);
    LeaderKeeps(h, h', voters, id, cur, n.log);
    ExtendsSelf(h', id, cur);
    CommitStable(h', h', id, cur, voters, n.log, log', n.commitIndex, cur, cur);
    assert LeaderOk(h', voters, m);
    assert VoteRecorded(h', m) && TermsUpTo(log', cur);
    assert OutboxOk(h', voters, m);
  }

  lemma ProposeFine(h: History, voters: set<NodeId>, n: Node, command: Command) returns (h': History)
    requires Fine(h, voters, n)
    ensures Moves(h, h', voters, n, ProposeNode(n, command))
  {
    hide HistoryOk, NodeOk, Extends, LeaderAppend, MaybeAdvanceCommit, SendAppends;
    if n.role.Leader? {
      h' := LeaderAppendFine(h, voters, n, command);
      var m := LeaderAppend(n, command).node;
      AdvanceCommitFine(h', voters, m);
      SendAppendsFine(h', voters, MaybeAdvanceCommit(m), m.config.peers);
    } else {
      h' := h;
      ExtendsSelf(h, n.config.id, n.Term());
    }
  }

  // ---- messages ----

  lemma GrantFine(h: History, voters: set<NodeId>, n: Node, p: Packet) returns (h': History)
    requires Fine(h, voters, n) && MessageOk(h, voters, p) && p.message.RequestVote?
    requires p.message.term == n.Term()
    requires Grants(n, p.from, p.message.term, p.message.lastLogIndex, p.message.lastLogTerm)
    ensures Moves(h, h', voters, n, RecordGrant(n, p.from))
    ensures Slot(n.Term(), n.config.id) in h'.voted && h'.voted[Slot(n.Term(), n.config.id)] == p.from
  {
    hide Extends, Keeps, Matches, CommitOk, TermsBelow, Quorum, ElectionOk, VoteOk, AcksOk, ConfigOk, NothingAhead, UpToDate, TermsUpTo;
    var id, cur, m := n.config.id, n.Term(), RecordGrant(n, p.from);
    if n.hard.votedFor.Some? {
      h' := h;
      ExtendsSelf(h, id, cur);
    } else {
      h' := WithVote(h, Slot(cur, id), p.from);
      if cur !in h.elected {
        GrantCarries(h, voters, n, h.campaigns[Slot(cur, p.from)]);
      }
      WithVoteOk(h, voters, id, cur, p.from);
      SelfStable(h, h', voters, n);
      assert n.role.Leader? ==> LeaderOk(h', voters, m);
      assert n.role.Candidate? ==> CandidateOk(h', voters, m);
      assert OutboxOk(h', voters, m);
    }
  }

  lemma RequestVoteFine(h: History, voters: set<NodeId>, n: Node, p: Packet) returns (h': History)
    requires Fine(h, voters, n) && MessageOk(h, voters, p) && p.message.RequestVote?
    requires p.message.term <= n.Term()
    ensures Moves(h, h', voters, n,
                  HandleRequestVote(n, p.from, p.message.term, p.message.lastLogIndex, p.message.lastLogTerm))
  {
    hide HistoryOk, NodeOk, Extends;
    SelfIsVoter(h, voters, n);
    if Grants(n, p.from, p.message.term, p.message.lastLogIndex, p.message.lastLogTerm) {
      h' := GrantFine(h, voters, n, p);
      SendFine(h', voters, RecordGrant(n, p.from), p.from, RequestVoteResp(n.Term(), true));
    } else {
      h' := h;
      ExtendsSelf(h, n.config.id, n.Term());
      SendFine(h, voters, n, p.from, RequestVoteResp(n.Term(), false));
    }
  }

  lemma VoteRespFine(h: History, voters: set<NodeId>, n: Node, p: Packet) returns (h': History)
    requires Fine(h, voters, n) && MessageOk(h, voters, p) && p.message.RequestVoteResp?
    requires p.to == n.config.id
    ensures var o := HandleVoteResp(n, p.from, p.message.term, p.message.granted);
            Moves(h, h', voters, n, o.node) && o.ok
  {
    hide HistoryOk, Extends, Keeps, Matches, CommitOk, LeaderOk, BecomeLeader, NothingAhead, TermsUpTo;
    h' := h;
    ExtendsSelf(h, n.config.id, n.Term());
    if n.role.Candidate? && p.message.term == n.Term() {
      var m := n.(votes := n.votes[p.from := p.message.granted]);
      assert CandidateOk(h, voters, m);
      assert VoteRecorded(h, m) && OutboxOk(h, voters, m);
      if |YesVotes(m.votes)| >= m.config.Majority() {
        h' := BecomeLeaderFine(h, voters, m);
      }
    }
  }

  lemma AppendRespFine(h: History, voters: set<NodeId>, n: Node, p: Packet)
    requires Fine(h, voters, n) && MessageOk(h, voters, p) && p.message.AppendEntriesResp?
    ensures Moves(h, h, voters, n,
                  HandleAppendResp(n, p.from, p.message.term, p.message.success, p.message.matchIndex))
  {
    hide Fine, Extends, MessageOk, MaybeAdvanceCommit, AppendMessage;
    ExtendsSelf(h, n.config.id, n.Term());
    var from, i := p.from, p.message.matchIndex;
    if n.role.Leader? && p.message.term == n.Term() {
      if p.message.success {
        var m := n.(matchIndex := n.matchIndex[from := i], nextIndex := n.nextIndex[from := i + 1]);
        AckTracked(h, voters, n, p, m);
        AdvanceCommitFine(h, voters, m);
      } else {
        var m := n.(nextIndex := n.nextIndex[from := BackOff(NextFor(n, from))]);
        RefusalTracked(h, voters, n, p, m);
        SendAppendFine(h, voters, m, from);
      }
    }
  }

  lemma AckTracked(h: History, voters: set<NodeId>, n: Node, p: Packet, m: Node)
    requires Fine(h, voters, n) && n.role.Leader? && MessageOk(h, voters, p)
    requires p.message.AppendEntriesResp? && p.message.term == n.Term() && p.message.success
    requires m == n.(matchIndex := n.matchIndex[p.from := p.message.matchIndex],
                     nextIndex := n.nextIndex[p.from := p.message.matchIndex + 1])
    ensures Fine(h, voters, m)
  {
    hide Keeps, Matches, CommitOk, TermsBelow, Quorum, ElectionOk, VoteOk, NothingAhead, ConfigOk, OutboxOk, CandidateOk;
    assert LeaderOk(h, voters, m);
    TrackedFine(h, voters, n, m);
  }

  lemma RefusalTracked(h: History, voters: set<NodeId>, n: Node, p: Packet, m: Node)
    requires Fine(h, voters, n) && n.role.Leader?
    requires m == n.(nextIndex := n.nextIndex[p.from := BackOff(NextFor(n, p.from))])
    ensures Fine(h, voters, m)
  {
    hide HistoryOk, Keeps, Matches, CommitOk, TermsBelow, Quorum, NothingAhead, ConfigOk, OutboxOk, CandidateOk;
    assert LeaderOk(h, voters, m);
    TrackedFine(h, voters, n, m);
  }

  lemma TrackedFine(h: History, voters: set<NodeId>, n: Node, m: Node)
    requires Fine(h, voters, n) && n.role.Leader?
    requires m == n.(matchIndex := m.matchIndex, nextIndex := m.nextIndex)
    requires LeaderOk(h, voters, m)
    ensures Fine(h, voters, m)
  {
    hide HistoryOk, Keeps, Matches, CommitOk, MessageOk, NothingAhead, TermsUpTo;
    assert VoteRecorded(h, m) && OutboxOk(h, voters, m);
  }

  // ---- AppendEntries ----

  ghost function Acknowledged(h: History, s: Slot, i: nat): History {
    if s in h.acks && h.acks[s] >= i then h else h.(acks := h.acks[s := i])
  }

  /** The log of a follower that stored the leader's log up to `q`. */
  function Merged(log: seq<Entry>, lead: seq<Entry>, q: nat): seq<Entry>
    requires q <= |lead|
  {
    if lead[..q] <= log then log else lead[..q]
  }

  /** What both the old log and the leader's log hold survives the merge. */
  lemma MergedHolds(log: seq<Entry>, lead: seq<Entry>, q: nat, prefix: seq<Entry>)
    requires q <= |lead| && prefix <= log && prefix <= lead
    ensures prefix <= Merged(log, lead, q)
  {
  }

  lemma AcknowledgedExtends(h: History, id: NodeId, cur: Term, q: nat)
    ensures Extends(h, Acknowledged(h, Slot(cur, id), q), id, cur)
  {
  }

  lemma AcknowledgedOk(h: History, voters: set<NodeId>, id: NodeId, cur: Term, q: nat)
    requires HistoryOk(h, voters) && NothingAhead(h, id, cur)
    requires cur in h.elected && q <= |h.elected[cur].log|
    ensures var h' := Acknowledged(h, Slot(cur, id), q);
            HistoryOk(h', voters) && Extends(h, h', id, cur)
  {
    hide Extends, Keeps, Matches, ElectionOk, VoteOk, TermsBelow;
    AcknowledgedExtends(h, id, cur, q);
    HistoryStable(h, Acknowledged(h, Slot(cur, id), q), id, cur, voters);
  }

  /** Following a leader loses nothing the node acknowledged, unless a leader in between had dropped it. */
  lemma MergedKeeps(h: History, voters: set<NodeId>, id: NodeId, cur: Term, log: seq<Entry>, q: nat)
    requires HistoryOk(h, voters) && Keeps(h, id, log, cur + 1)
    requires cur in h.elected && q <= |h.elected[cur].log|
    ensures Keeps(Acknowledged(h, Slot(cur, id), q), id, Merged(log, h.elected[cur].log, q), cur + 1)
  {
    var h', lead := Acknowledged(h, Slot(cur, id), q), h.elected[cur].log;
    forall t: nat, i: nat | AckedBelow(h', id, t, i, cur + 1) && Inherited(h', t, i, cur + 1)
      ensures Prefix(h', t, i) <= Merged(log, lead, q)
    {
      MergedKeepsAt(h, voters, id, cur, log, q, t, i);
    }
  }

  lemma MergedKeepsAt(h: History, voters: set<NodeId>, id: NodeId, cur: Term, log: seq<Entry>, q: nat, t: Term, i: nat)
    requires HistoryOk(h, voters) && Keeps(h, id, log, cur + 1)
    requires cur in h.elected && q <= |h.elected[cur].log|
    requires var h' := Acknowledged(h, Slot(cur, id), q);
             AckedBelow(h', id, t, i, cur + 1) && Inherited(h', t, i, cur + 1)
    ensures Prefix(h, t, i) <= Merged(log, h.elected[cur].log, q)
  {
    hide Matches, VoteOk, TermsBelow, Quorum;
    var lead := h.elected[cur].log;
    assert Inherited(h, t, i, cur + 1);
    if AckedBelow(h, id, t, i, cur + 1) {
      assert Prefix(h, t, i) <= log;
      assert ElectionOk(h, voters, cur, h.elected[cur]);
      MergedHolds(log, lead, q, Prefix(h, t, i));
    }
  }

  lemma MergedCommit(h: History, voters: set<NodeId>, log: seq<Entry>, k: nat, cur: Term, q: nat)
    requires HistoryOk(h, voters) && CommitOk(h, voters, log, k, cur)
    requires cur in h.elected && q <= |h.elected[cur].log|
    ensures CommitOk(h, voters, Merged(log, h.elected[cur].log, q), k, cur)
  {
    hide HistoryOk, Justifies;
    CommittedInLeader(h, voters, log, k, cur, cur);
    MergedHolds(log, h.elected[cur].log, q, log[..k]);
    ExtendsSelf(h, 0, 0);
    CommitStable(h, h, 0, 0, voters, log, Merged(log, h.elected[cur].log, q), k, cur, cur);
  }

  lemma MergedMatches(h: History, voters: set<NodeId>, log: seq<Entry>, cur: Term, q: nat)
    requires HistoryOk(h, voters) && Matches(h, log) && TermsUpTo(log, cur)
    requires cur in h.elected && q <= |h.elected[cur].log|
    ensures Matches(h, h.elected[cur].log)
    ensures Matches(h, Merged(log, h.elected[cur].log, q)) && TermsUpTo(Merged(log, h.elected[cur].log, q), cur)
  {
    var lead := h.elected[cur].log;
    assert ElectionOk(h, voters, cur, h.elected[cur]);
    MatchesPrefix(h, lead, q);
    forall j | 0 <= j < q ensures lead[..q][j].term <= cur {
      OwnEntries(h, voters, cur, j);
    }
  }

  /** A follower that stored entries, before it adopts the leader's commit index. */
  lemma StoredFine(h: History, voters: set<NodeId>, n: Node, q: nat)
    requires Fine(h, voters, n) && n.role.Follower?
    requires n.Term() in h.elected && q <= |h.elected[n.Term()].log|
    ensures var h' := Acknowledged(h, Slot(n.Term(), n.config.id), q);
            Moves(h, h', voters, n, n.(log := Merged(n.log, h.elected[n.Term()].log, q)))
  {
    hide HistoryOk, Keeps, Matches, TermsUpTo, CommitOk, MessageOk, Extends;
    var id, cur := n.config.id, n.Term();
    var h', log' := Acknowledged(h, Slot(cur, id), q), Merged(n.log, h.elected[cur].log, q);
    AcknowledgedOk(h, voters, id, cur, q);
    MergedKeeps(h, voters, id, cur, n.log, q);
    MergedMatches(h, voters, n.log, cur, q);
    MatchesStable(h, h', id, cur, log');
    MergedCommit(h, voters, n.log, n.commitIndex, cur, q);
    WholeCommitStable(h, h', id, cur, voters, log', n.commitIndex, cur);
    OutboxStable(h, h', id, cur, voters, n);
    var m := n.(log := log');
    assert VoteRecorded(h', m) && OutboxOk(h', voters, m);
  }

  lemma WholeCommitStable(h: History, h': History, id: NodeId, cur: Term, voters: set<NodeId>,
                          log: seq<Entry>, k: nat, term: Term)
    requires Extends(h, h', id, cur) && CommitOk(h, voters, log, k, term)
    ensures CommitOk(h', voters, log, k, term)
  {
    CommitStable(h, h', id, cur, voters, log, log, k, term, term);
  }

  lemma LeaderMatches(h: History, voters: set<NodeId>, t: Term)
    requires HistoryOk(h, voters) && t in h.elected
    ensures Matches(h, h.elected[t].log)
  {
    hide Matches, Keeps, VoteOk, AcksOk;
    assert ElectionOk(h, voters, t, h.elected[t]);
  }

  lemma SliceEnds(h: History, lead: seq<Entry>, p: nat, q: nat)
    requires Matches(h, lead) && p <= q <= |lead|
    ensures LastEntryIndex(p, lead[p..q]) == q
  {
    if p < q {
      assert MatchesAt(h, lead, q - 1);
    }
  }

  /** What the follower stores is the merge of its log with the leader's. */
  lemma StoredIsMerged(h: History, voters: set<NodeId>, n: Node, p: Packet)
    requires Fine(h, voters, n) && MessageOk(h, voters, p) && p.message.AppendEntries?
    requires p.message.term == n.Term()
    requires TermAt(n.log, p.message.prevLogIndex) == Some(p.message.prevLogTerm)
    ensures var a, lead := p.message, h.elected[n.Term()].log;
            var q := a.prevLogIndex + |a.entries|;
            && StoreEntries(n.log, a.entries) == Appended(Merged(n.log, lead, q), true)
            && LastEntryIndex(a.prevLogIndex, a.entries) == q
  {
    hide HistoryOk, Matches, Keeps, CommitOk, LeaderOk, CandidateOk, OutboxOk, StoreEntries, NothingAhead, VoteRecorded, LastEntryIndex, TermsUpTo;
    var a, lead := p.message, h.elected[n.Term()].log;
    var q := a.prevLogIndex + |a.entries|;
    LeaderMatches(h, voters, n.Term());
    if a.prevLogIndex > 0 {
      LogMatching(h, n.log, lead, a.prevLogIndex - 1);
    }
    StoreSlice(h, voters, n.log, lead, a.prevLogIndex, q);
    SliceEnds(h, lead, a.prevLogIndex, q);
  }

  lemma AdoptCommitFine(h: History, voters: set<NodeId>, n: Node, lead: seq<Entry>, k: nat)
    requires Fine(h, voters, n)
    requires CommitOk(h, voters, lead, k, n.Term()) && lead[..k] <= n.log
    ensures Fine(h, voters, AdoptCommit(n, k)) && AdoptCommit(n, k).config == n.config
    ensures AdoptCommit(n, k).Term() == n.Term() && AdoptCommit(n, k).commitIndex >= n.commitIndex
  {
    hide HistoryOk, Justifies, NodeOk;
    if k > n.commitIndex {
      ExtendsSelf(h, 0, 0);
      CommitStable(h, h, 0, 0, voters, lead, n.log, k, n.Term(), n.Term());
      SetCommitFine(h, voters, n, k);
    }
  }

  lemma FollowFine(h: History, voters: set<NodeId>, n: Node, from: NodeId, term: Term)
    requires Fine(h, voters, n) && term >= n.Term()
    ensures Fine(h, voters, FollowLeader(n, from, term))
  {
    hide HistoryOk, NodeOk;
    var m := BecomeFollower(n, term, Some(from));
    StepDownFine(h, voters, n, term, Some(from));
    RetimedFine(h, voters, m, m.timers.(electionElapsed := 0));
  }

  lemma SelfIsVoter(h: History, voters: set<NodeId>, n: Node)
    requires Fine(h, voters, n)
    ensures n.config.id in voters
  {
  }

  /** The accepting path of AppendEntries. */
  lemma AcceptFine(h: History, voters: set<NodeId>, n: Node, p: Packet) returns (h': History)
    requires Fine(h, voters, n) && n.role.Follower?
    requires MessageOk(h, voters, p) && p.message.AppendEntries? && p.message.term == n.Term()
    requires TermAt(n.log, p.message.prevLogIndex) == Some(p.message.prevLogTerm)
    ensures var a := p.message;
            var stored := StoreEntries(n.log, a.entries);
            var c := AdoptCommit(n.(log := stored.log), a.leaderCommit);
            && stored.ok
            && Moves(h, h', voters, n,
                     Send(c, p.from, AppendEntriesResp(c.Term(), true, LastEntryIndex(a.prevLogIndex, a.entries))))
  {
    hide HistoryOk, NodeOk, Extends, CommitOk, StoreEntries, AdoptCommit;
    var a, id, cur := p.message, n.config.id, n.Term();
    var lead, q := h.elected[cur].log, a.prevLogIndex + |a.entries|;
    SelfIsVoter(h, voters, n);
    StoredIsMerged(h, voters, n, p);
    StoredFine(h, voters, n, q);
    h' := Acknowledged(h, Slot(cur, id), q);
    var s := n.(log := Merged(n.log, lead, q));
    WholeCommitStable(h, h', id, cur, voters, lead, a.leaderCommit, cur);
    assert lead[..a.leaderCommit] <= lead[..q] <= s.log;
    AdoptCommitFine(h', voters, s, lead, a.leaderCommit);
    SendFine(h', voters, AdoptCommit(s, a.leaderCommit), p.from, AppendEntriesResp(cur, true, q));
  }

  lemma AppendEntriesFine(h: History, voters: set<NodeId>, n: Node, p: Packet) returns (h': History)
    requires Fine(h, voters, n) && MessageOk(h, voters, p) && p.message.AppendEntries?
    requires p.message.term <= n.Term()
    ensures var a := p.message;
            var o := HandleAppendEntries(n, p.from, a.term, a.prevLogIndex, a.prevLogTerm, a.entries, a.leaderCommit);
            Moves(h, h', voters, n, o.node) && o.ok
  {
    hide HistoryOk, NodeOk, Extends, StoreEntries, AdoptCommit, CommitOk;
    var a, id, cur := p.message, n.config.id, n.Term();
    h' := h;
    ExtendsSelf(h, id, cur);
    SelfIsVoter(h, voters, n);
    if a.term < cur {
      SendFine(h, voters, n, p.from, AppendEntriesResp(cur, false, 0));
    } else {
      var m := FollowLeader(n, p.from, a.term);
      FollowFine(h, voters, n, p.from, a.term);
      if TermAt(m.log, a.prevLogIndex) != Some(a.prevLogTerm) {
        SendFine(h, voters, m, p.from, AppendEntriesResp(cur, false, 0));
      } else {
        h' := AcceptFine(h, voters, m, p);
      }
    }
  }

  // ---- any message ----

  lemma StepFine(h: History, voters: set<NodeId>, n: Node, p: Packet) returns (h': History)
    requires Fine(h, voters, n) && MessageOk(h, voters, p) && p.to == n.config.id
    ensures Moves(h, h', voters, n, Step(n, p.from, p.message).node) && Step(n, p.from, p.message).ok
  {
    hide HistoryOk, NodeOk, Extends, MessageOk, HandleRequestVote, HandleVoteResp, HandleAppendEntries, HandleAppendResp;
    StepDownFine(h, voters, n, p.message.term, None);
    var m := AdoptTerm(n, p.message.term);
    match p.message
    case RequestVote(_, _, _) => h' := RequestVoteFine(h, voters, m, p);
    case RequestVoteResp(_, _) => h' := VoteRespFine(h, voters, m, p);
    case AppendEntries(_, _, _, _, _) => h' := AppendEntriesFine(h, voters, m, p);
    case AppendEntriesResp(_, _, _) => AppendRespFine(h, voters, m, p); h' := h;
  }
}
