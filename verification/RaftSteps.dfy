/** Every handler of a Raft node preserves the history invariant. */
module RaftSteps {
  import opened Sequences
  import opened Wrappers
  import opened RaftNode
  import opened RaftCluster
  import opened RaftHistory

  ghost predicate Fine(h: History, voters: set<NodeId>, n: Node) {
    HistoryOk(h, voters) && NodeOk(h, voters, n)
  }

  lemma ExtendsSelf(h: History, id: NodeId, cur: Term)
    ensures Extends(h, h, id, cur)
  {
  }

  // ---- terms along a log ----

  /** In a leader's log exactly the entries past its starting log carry its term. */
  lemma OwnEntries(h: History, voters: set<NodeId>, t: Term, j: nat)
    requires HistoryOk(h, voters) && t in h.elected && j < |h.elected[t].log|
    ensures h.elected[t].log[j].term == t <==> |h.elected[t].base| <= j
    ensures h.elected[t].log[j].term <= t
  {
    var e := h.elected[t];
    assert ElectionOk(h, voters, t, e);
    assert j < |e.base| ==> e.base[j] == e.log[j];
  }

  /** Terms never decrease along a log. */
  lemma TermsOrdered(h: History, voters: set<NodeId>, log: seq<Entry>, j: nat, k: nat)
    requires HistoryOk(h, voters) && Matches(h, log)
    requires j <= k < |log|
    ensures log[j].term <= log[k].term
  {
    assert MatchesAt(h, log, k);
    var t := log[k].term;
    assert log[j] == log[..k + 1][j] == h.elected[t].log[j];
    OwnEntries(h, voters, t, j);
  }

  /** Two logs that agree on the term of one index agree up to it. */
  lemma LogMatching(h: History, a: seq<Entry>, b: seq<Entry>, j: nat)
    requires Matches(h, a) && Matches(h, b)
    requires j < |a| && j < |b| && a[j].term == b[j].term
    ensures a[..j + 1] == b[..j + 1]
  {
    assert MatchesAt(h, a, j) && MatchesAt(h, b, j);
  }

  lemma MatchesPrefix(h: History, log: seq<Entry>, k: nat)
    requires Matches(h, log) && k <= |log|
    ensures Matches(h, log[..k])
  {
    forall j | 0 <= j < k ensures MatchesAt(h, log[..k], j) {
      assert MatchesAt(h, log, j);
      assert log[..k][..j + 1] == log[..j + 1];
    }
  }

  // ---- storing a leader's entries ----

  /** Storing a slice of the leader's log leaves the local log as it was if it already
      holds the leader's log up to the end of the slice, and otherwise makes it exactly that. */
  lemma {:induction false} StoreSlice(h: History, voters: set<NodeId>, log: seq<Entry>, lead: seq<Entry>, p: nat, q: nat)
    requires HistoryOk(h, voters) && Matches(h, log) && Matches(h, lead)
    requires p <= q <= |lead| && lead[..p] <= log
    ensures StoreEntries(log, lead[p..q]) == Appended(if lead[..q] <= log then log else lead[..q], true)
    decreases q - p
  {
    if p < q {
      var e := lead[p];
      assert MatchesAt(h, lead, p);
      assert lead[p..q][0] == e && lead[p..q][1..] == lead[p + 1..q];
      if p < |log| && log[p].term == e.term {
        LogMatching(h, log, lead, p);
        StoreSlice(h, voters, log, lead, p + 1, q);
      } else {
        StoreFirstNew(h, voters, log, lead, p);
        MatchesPrefix(h, lead, p + 1);
        StoreSlice(h, voters, lead[..p + 1], lead, p + 1, q);
        SliceNotHeld(log, lead, p, q);
      }
    }
  }

  lemma SliceNotHeld(log: seq<Entry>, lead: seq<Entry>, p: nat, q: nat)
    requires p < q <= |lead|
    requires !(p < |log| && log[p].term == lead[p].term)
    ensures !(lead[..q] <= log)
    ensures lead[..q] <= lead[..p + 1] ==> lead[..q] == lead[..p + 1]
  {
    assert lead[..q][p] == lead[p];
  }

  lemma StoreFirstNew(h: History, voters: set<NodeId>, log: seq<Entry>, lead: seq<Entry>, p: nat)
    requires HistoryOk(h, voters) && Matches(h, lead)
    requires p < |lead| && lead[..p] <= log
    requires !(p < |log| && log[p].term == lead[p].term)
    ensures StoreEntry(log, lead[p]) == Appended(lead[..p + 1], true)
  {
    hide ElectionOk, VoteOk, AcksOk;
    assert MatchesAt(h, lead, p);
    assert TruncateFrom(log, p + 1) == lead[..p];
    assert lead[..p] + [lead[p]] == lead[..p + 1];
    if p > 0 {
      TermsOrdered(h, voters, lead, p - 1, p);
      assert LastTerm(lead[..p]) == lead[p - 1].term;
    }
  }

  // ---- changes that record nothing ----

  /** A later horizon only weakens the promise, as long as nothing was acknowledged in between. */
  lemma KeepsLater(h: History, v: NodeId, log: seq<Entry>, hi: Term, hi': Term)
    requires Keeps(h, v, log, hi) && hi <= hi'
    requires forall t :: t >= hi ==> Slot(t, v) !in h.acks
    ensures Keeps(h, v, log, hi')
  {
    forall t: nat, i: nat | AckedBelow(h, v, t, i, hi') && Inherited(h, t, i, hi')
      ensures Prefix(h, t, i) <= log
    {
      assert AckedBelow(h, v, t, i, hi) && Inherited(h, t, i, hi);
    }
  }

  lemma StepDownFine(h: History, voters: set<NodeId>, n: Node, term: Term, leader: Option<NodeId>)
    requires Fine(h, voters, n)
    ensures Fine(h, voters, BecomeFollower(n, term, leader))
  {
    hide HistoryOk, Matches, Keeps, Justifies, LeaderOk, CandidateOk, MessageOk, Extends;
    var m := BecomeFollower(n, term, leader);
    ExtendsSelf(h, n.config.id, n.Term());
    KeepsLater(h, n.config.id, n.log, n.Term() + 1, m.Term() + 1);
    CommitStable(h, h, n.config.id, n.Term(), voters, n.log, m.log, n.commitIndex, n.Term(), m.Term());
  }

  lemma SendFine(h: History, voters: set<NodeId>, n: Node, to: NodeId, message: Message)
    requires Fine(h, voters, n)
    requires MessageOk(h, voters, Packet(n.config.id, to, message))
    ensures Fine(h, voters, Send(n, to, message))
  {
    hide HistoryOk, Matches, Keeps, CommitOk, MessageOk, TermsUpTo, NothingAhead;
  }

  lemma AppendMessageOk(h: History, voters: set<NodeId>, n: Node, peer: NodeId)
    requires Fine(h, voters, n) && n.role.Leader?
    ensures MessageOk(h, voters, Packet(n.config.id, peer, AppendMessage(n, peer)))
  {
    hide HistoryOk, Matches, Keeps, OutboxOk, CandidateOk, NothingAhead, VoteRecorded, TermsBelow, Quorum, Justifies;
    var next := NextFor(n, peer);
    assert 1 <= next <= |n.log| + 1;
    assert n.log[next - 1..] == n.log[next - 1..(next - 1) + |n.log[next - 1..]|];
  }

  lemma SendAppendFine(h: History, voters: set<NodeId>, n: Node, peer: NodeId)
    requires Fine(h, voters, n) && n.role.Leader?
    ensures Fine(h, voters, SendAppendTo(n, peer)) && SendAppendTo(n, peer).role.Leader?
  {
    AppendMessageOk(h, voters, n, peer);
    SendFine(h, voters, n, peer, AppendMessage(n, peer));
  }

  lemma {:induction false} SendAppendsFine(h: History, voters: set<NodeId>, n: Node, peers: seq<NodeId>)
    requires Fine(h, voters, n) && n.role.Leader?
    ensures Fine(h, voters, SendAppends(n, peers))
    ensures SendAppends(n, peers) == n.(outbox := SendAppends(n, peers).outbox)
    decreases peers
  {
    if peers != [] {
      SendAppendFine(h, voters, n, peers[0]);
      SendAppendsFine(h, voters, SendAppendTo(n, peers[0]), peers[1..]);
    }
  }

  lemma {:induction false} SendVoteRequestsFine(h: History, voters: set<NodeId>, n: Node, peers: seq<NodeId>)
    requires Fine(h, voters, n) && n.role.Candidate?
    ensures Fine(h, voters, SendVoteRequests(n, peers))
    ensures SendVoteRequests(n, peers) == n.(outbox := SendVoteRequests(n, peers).outbox)
    decreases peers
  {
    if peers != [] {
      var request := RequestVote(n.Term(), |n.log|, LastTerm(n.log));
      SendFine(h, voters, n, peers[0], request);
      SendVoteRequestsFine(h, voters, Send(n, peers[0], request), peers[1..]);
    }
  }

  // ---- committing ----

  lemma MajorityOf(config: RaftConfig, voters: set<NodeId>)
    requires ConfigOk(config, config.id, voters)
    ensures config.Majority() == |voters| / 2 + 1
  {
    DistinctSize(config.peers);
    assert voters == Elements(config.peers) + {config.id};
  }

  lemma {:induction false} DistinctSize<T>(s: seq<T>)
    requires NoRepeats(s)
    ensures |Elements(s)| == |s|
  {
    if s != [] {
      DistinctSize(s[1..]);
      assert Elements(s) == Elements(s[1..]) + {s[0]};
    }
  }

  lemma LeaderCommitOk(h: History, voters: set<NodeId>, n: Node, k: LogIndex)
    requires Fine(h, voters, n) && n.role.Leader?
    requires 0 < k <= |n.log| && MayCommit(n, k)
    ensures CommitOk(h, voters, n.log, k, n.Term())
  {
    var t := n.Term();
    OwnEntries(h, voters, t, k - 1);
    assert Anchored(h, t, k);
    var q := Replicated(n.matchIndex, k);
    MajorityOf(n.config, voters);
    SubsetSize(q, Ackers(h, voters, t, k));
    assert Justifies(h, voters, n.log, k, t, k);
  }

  lemma SetCommitFine(h: History, voters: set<NodeId>, n: Node, k: LogIndex)
    requires Fine(h, voters, n) && n.commitIndex <= k
    requires CommitOk(h, voters, n.log, k, n.Term())
    ensures Fine(h, voters, SetCommit(n, k))
  {
    hide HistoryOk, Matches, Keeps, CommitOk, MessageOk, TermsUpTo, NothingAhead, ConfigOk;
    var m := SetCommit(n, k);
    assert m.log == n.log && m.Term() == n.Term() && m.config == n.config && m.role == n.role;
    assert VoteRecorded(h, m);
    assert n.role.Leader? ==> LeaderOk(h, voters, m);
    assert n.role.Candidate? ==> CandidateOk(h, voters, m);
  }

  lemma AdvanceCommitFine(h: History, voters: set<NodeId>, n: Node)
    requires Fine(h, voters, n) && n.role.Leader?
    ensures var m := MaybeAdvanceCommit(n);
            && Fine(h, voters, m) && m.role.Leader?
            && m.config == n.config && m.Term() == n.Term() && m.commitIndex >= n.commitIndex
  {
    hide Fine, CommitOk;
    var c := CommitScan(n, n.commitIndex + 1, n.commitIndex);
    if c > n.commitIndex {
      LeaderCommitOk(h, voters, n, c);
      SetCommitFine(h, voters, n, c);
    }
  }

  // ---- voting ----

  /** A vote given under the up-to-date rule carries what the voter acknowledged. */
  lemma GrantCarries(h: History, voters: set<NodeId>, n: Node, log: seq<Entry>)
    requires Fine(h, voters, n)
    requires n.Term() !in h.elected
    requires Matches(h, log) && TermsBelow(log, n.Term())
    requires UpToDate(LastTerm(log), |log|, n.log)
    ensures Keeps(h, n.config.id, log, n.Term())
  {
    hide HistoryOk, Matches, TermsBelow, CommitOk, LeaderOk, CandidateOk, OutboxOk, UpToDate, NothingAhead, VoteRecorded, ConfigOk;
    forall t: nat, i: nat | AckedBelow(h, n.config.id, t, i, n.Term()) && Inherited(h, t, i, n.Term())
      ensures Prefix(h, t, i) <= log
    {
      HeldHere(h, n.config.id, n.log, n.Term(), t, i);
      NewerLogHolds(h, voters, n.log, log, n.Term(), t, i);
    }
  }

  lemma HeldHere(h: History, v: NodeId, log: seq<Entry>, hi: Term, t: Term, i: nat)
    requires hi !in h.elected && Keeps(h, v, log, hi + 1)
    requires AckedBelow(h, v, t, i, hi) && Inherited(h, t, i, hi)
    ensures Prefix(h, t, i) <= log
  {
    assert AckedBelow(h, v, t, i, hi + 1);
    assert Inherited(h, t, i, hi + 1);
  }

  lemma NewerLogHolds(h: History, voters: set<NodeId>, mine: seq<Entry>, log: seq<Entry>, hi: Term, t: Term, i: nat)
    requires HistoryOk(h, voters) && Matches(h, mine) && Matches(h, log) && TermsBelow(log, hi)
    requires UpToDate(LastTerm(log), |log|, mine)
    requires Anchored(h, t, i) && Prefix(h, t, i) <= mine && Inherited(h, t, i, hi)
    ensures Prefix(h, t, i) <= log
  {
    hide ElectionOk, VoteOk, AcksOk;
    OwnEntries(h, voters, t, i - 1);
    assert mine[i - 1] == Prefix(h, t, i)[i - 1];
    TermsOrdered(h, voters, mine, i - 1, |mine| - 1);
    assert log != [];
    var u := LastTerm(log);
    if u == LastTerm(mine) {
      SameLastTerm(h, mine, log);
    } else {
      StartsFromBase(h, voters, log);
      assert Prefix(h, t, i) <= h.elected[u].base;
    }
  }

  lemma SameLastTerm(h: History, mine: seq<Entry>, log: seq<Entry>)
    requires Matches(h, mine) && Matches(h, log)
    requires mine != [] && |mine| <= |log| && LastTerm(mine) == LastTerm(log)
    ensures mine <= log
  {
    assert MatchesAt(h, mine, |mine| - 1) && mine[..|mine|] == mine;
    assert MatchesAt(h, log, |log| - 1) && log[..|log|] == log;
  }

  /** A log ending in term `u` holds all the leader of `u` started from. */
  lemma StartsFromBase(h: History, voters: set<NodeId>, log: seq<Entry>)
    requires HistoryOk(h, voters) && Matches(h, log) && log != []
    ensures LastTerm(log) in h.elected && h.elected[LastTerm(log)].base <= log
  {
    var j, u := |log| - 1, LastTerm(log);
    assert MatchesAt(h, log, j) && log[..j + 1] == log;
    assert ElectionOk(h, voters, u, h.elected[u]);
    OwnEntries(h, voters, u, j);
  }

  ghost function WithVote(h: History, s: Slot, c: NodeId): History {
    h.(voted := h.voted[s := c])
  }

  lemma WithVoteExtends(h: History, id: NodeId, cur: Term, c: NodeId)
    requires Slot(cur, id) !in h.voted
    ensures Extends(h, WithVote(h, Slot(cur, id), c), id, cur)
  {
  }

  lemma WithVoteOk(h: History, voters: set<NodeId>, id: NodeId, cur: Term, c: NodeId)
    requires HistoryOk(h, voters) && NothingAhead(h, id, cur)
    requires Slot(cur, id) !in h.voted && Slot(cur, c) in h.campaigns
    requires cur !in h.elected ==> Keeps(h, id, h.campaigns[Slot(cur, c)], cur)
    ensures HistoryOk(WithVote(h, Slot(cur, id), c), voters)
    ensures Extends(h, WithVote(h, Slot(cur, id), c), id, cur)
  {
    hide Extends, Keeps, Matches, ElectionOk, TermsBelow;
    var h' := WithVote(h, Slot(cur, id), c);
    WithVoteExtends(h, id, cur, c);
    HistoryStable(h, h', id, cur, voters);
    if cur !in h.elected {
      KeepsStable(h, h', id, cur, id, h.campaigns[Slot(cur, c)], cur);
    }
  }

  /** What was in the history stays right when it grows; only additions need checking. */
  lemma HistoryStable(h: History, h': History, id: NodeId, cur: Term, voters: set<NodeId>)
    requires HistoryOk(h, voters) && Extends(h, h', id, cur) && NothingAhead(h, id, cur)
    ensures forall t :: t in h.elected && h'.elected[t] == h.elected[t] ==> ElectionOk(h', voters, t, h'.elected[t])
    ensures forall s :: s in h.voted ==> VoteOk(h', s)
    ensures forall s :: s in h.campaigns ==> Matches(h', h'.campaigns[s]) && TermsBelow(h'.campaigns[s], s.term)
  {
    hide Keeps, Matches, ElectionOk, TermsBelow;
    forall t | t in h.elected && h'.elected[t] == h.elected[t] ensures ElectionOk(h', voters, t, h'.elected[t]) {
      ElectionStable(h, h', id, cur, voters, t);
    }
    forall s | s in h.voted ensures VoteOk(h', s) {
      assert VoteOk(h, s);
      if s.term !in h'.elected {
        KeepsStable(h, h', id, cur, s.node, h.campaigns[Slot(s.term, h.voted[s])], s.term);
      }
    }
    forall s | s in h.campaigns ensures Matches(h', h'.campaigns[s]) {
      MatchesStable(h, h', id, cur, h.campaigns[s]);
    }
  }

  lemma ElectionStable(h: History, h': History, id: NodeId, cur: Term, voters: set<NodeId>, t: Term)
    requires HistoryOk(h, voters) && Extends(h, h', id, cur) && NothingAhead(h, id, cur)
    requires t in h.elected && h'.elected[t] == h.elected[t]
    ensures ElectionOk(h', voters, t, h'.elected[t])
  {
    hide Keeps, Matches, VoteOk, TermsBelow;
    var e := h.elected[t];
    assert ElectionOk(h, voters, t, e);
    MatchesStable(h, h', id, cur, e.log);
    forall v | v in e.electors ensures Keeps(h', v, e.base, t) {
      KeepsStable(h, h', id, cur, v, e.base, t);
    }
  }

  /** The acting node itself, when its own log, term and role records did not change. */
  lemma SelfStable(h: History, h': History, voters: set<NodeId>, n: Node)
    requires Fine(h, voters, n) && Extends(h, h', n.config.id, n.Term())
    ensures Matches(h', n.log) && NothingAhead(h', n.config.id, n.Term())
    ensures CommitOk(h', voters, n.log, n.commitIndex, n.Term())
    ensures OutboxOk(h', voters, n)
    ensures h'.acks == h.acks ==> Keeps(h', n.config.id, n.log, n.Term() + 1)
  {
    hide Extends, Matches, Keeps, Justifies, OutboxOk, LeaderOk, CandidateOk, ElectionOk, VoteOk, NothingAhead, VoteRecorded;
    var id, cur := n.config.id, n.Term();
    MatchesStable(h, h', id, cur, n.log);
    CommitStable(h, h', id, cur, voters, n.log, n.log, n.commitIndex, cur, cur);
    OutboxStable(h, h', id, cur, voters, n);
    NothingAheadStable(h, h', id, cur);
    if h'.acks == h.acks {
      KeepsSameAcks(h, h', id, cur, n.log, cur + 1);
    }
  }

  lemma NothingAheadStable(h: History, h': History, id: NodeId, cur: Term)
    requires Extends(h, h', id, cur) && NothingAhead(h, id, cur)
    ensures NothingAhead(h', id, cur)
  {
    hide ElectionsExtend;
  }

  lemma KeepsSameAcks(h: History, h': History, id: NodeId, cur: Term, log: seq<Entry>, hi: Term)
    requires Extends(h, h', id, cur) && Keeps(h, id, log, hi) && h'.acks == h.acks
    requires AcksOk(h)
    ensures Keeps(h', id, log, hi)
  {
    forall t: nat, i: nat | AckedBelow(h', id, t, i, hi) && Inherited(h', t, i, hi)
      ensures Prefix(h', t, i) <= log
    {
      assert Slot(t, id) in h.acks && t in h.elected;
      assert Grew(h.elected[t], h'.elected[t]);
      AnchoredStable(h, h', id, cur, t, i);
      assert AckedBelow(h, id, t, i, hi) && Inherited(h, t, i, hi);
    }
  }
}
