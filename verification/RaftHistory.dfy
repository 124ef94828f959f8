/** What a cluster has done so far, and the invariant that ties its present state to it.

    The history exists only in the proof.  It remembers every vote, the log each candidate
    campaigned with, every election with the log its winner went on to build, and how far
    each node has acknowledged the leader of each term. */
module RaftHistory {
  import opened Sequences
  import opened Wrappers
  import opened RaftNode
  import opened RaftCluster

  datatype Slot = Slot(term: Term, node: NodeId)

  /** `base` is the winner's log when it won; `log` is `base` plus all it appended since. */
  datatype Election = Election(leader: NodeId, base: seq<Entry>, electors: set<NodeId>, log: seq<Entry>)

  datatype History = History(
    voted: map<Slot, NodeId>,
    campaigns: map<Slot, seq<Entry>>,
    elected: map<Term, Election>,
    acks: map<Slot, nat>)

  ghost function Ack(h: History, t: Term, v: NodeId): nat {
    if Slot(t, v) in h.acks then h.acks[Slot(t, v)] else 0
  }

  ghost predicate Quorum(q: set<NodeId>, voters: set<NodeId>) {
    q <= voters && |q| >= |voters| / 2 + 1
  }

  /** Log Matching, in its strongest form: a log up to an entry of term `t` is what the
      leader of `t` had up to that entry. */
  ghost predicate MatchesAt(h: History, log: seq<Entry>, j: nat)
    requires j < |log|
  {
    && log[j].index == j + 1
    && log[j].term in h.elected
    && log[..j + 1] <= h.elected[log[j].term].log
  }

  ghost predicate Matches(h: History, log: seq<Entry>) {
    forall j :: 0 <= j < |log| ==> MatchesAt(h, log, j)
  }

  ghost predicate TermsUpTo(log: seq<Entry>, t: Term) {
    forall j :: 0 <= j < |log| ==> log[j].term <= t
  }

  ghost predicate TermsBelow(log: seq<Entry>, t: Term) {
    forall j :: 0 <= j < |log| ==> log[j].term < t
  }

  /** Index `i` holds an entry the leader of `t` created itself. */
  ghost predicate Anchored(h: History, t: Term, i: nat) {
    t in h.elected && |h.elected[t].base| < i <= |h.elected[t].log|
  }

  ghost function Prefix(h: History, t: Term, i: nat): seq<Entry>
    requires Anchored(h, t, i)
  {
    h.elected[t].log[..i]
  }

  /** Every leader elected strictly between `t` and `hi` started from the first `i` entries of `t`. */
  ghost predicate Inherited(h: History, t: Term, i: nat, hi: Term)
    requires Anchored(h, t, i)
  {
    forall u :: u in h.elected && t < u < hi ==> Prefix(h, t, i) <= h.elected[u].base
  }

  ghost predicate AckedBelow(h: History, v: NodeId, t: Term, i: nat, hi: Term) {
    Anchored(h, t, i) && t < hi && i <= Ack(h, t, v)
  }

  /** What `v` acknowledged in terms below `hi` is in `log`, provided no leader in between dropped it. */
  ghost predicate Keeps(h: History, v: NodeId, log: seq<Entry>, hi: Term) {
    forall t: nat, i: nat :: AckedBelow(h, v, t, i, hi) && Inherited(h, t, i, hi) ==> Prefix(h, t, i) <= log
  }

  // ---- commitment ----

  ghost function Ackers(h: History, voters: set<NodeId>, t: Term, i: nat): set<NodeId> {
    set v | v in voters && Ack(h, t, v) >= i
  }

  /** A quorum acknowledged an entry of the leader's own term. */
  ghost predicate CommittedAt(h: History, voters: set<NodeId>, t: Term, i: nat) {
    Anchored(h, t, i) && Quorum(Ackers(h, voters, t, i), voters)
  }

  ghost predicate Justifies(h: History, voters: set<NodeId>, log: seq<Entry>, k: nat, t: Term, i: nat) {
    CommittedAt(h, voters, t, i) && k <= i && Prefix(h, t, i)[..k] <= log
  }

  /** The first `k` entries of `log` are committed by a leader of term at most `term`. */
  ghost predicate CommitOk(h: History, voters: set<NodeId>, log: seq<Entry>, k: nat, term: Term) {
    && k <= |log|
    && (k > 0 ==> exists t: nat, i: nat :: t <= term && Justifies(h, voters, log, k, t, i))
  }

  // ---- the invariant ----

  ghost predicate ElectionOk(h: History, voters: set<NodeId>, t: Term, e: Election) {
    && Quorum(e.electors, voters)
    && (forall v :: v in e.electors ==> Slot(t, v) in h.voted && h.voted[Slot(t, v)] == e.leader)
    && Slot(t, e.leader) in h.campaigns
    && h.campaigns[Slot(t, e.leader)] == e.base
    && |e.base| < |e.log| && e.base <= e.log
    && TermsBelow(e.base, t)
    && (forall j :: |e.base| <= j < |e.log| ==> e.log[j].term == t)
    && Matches(h, e.log)
    && (forall v :: v in e.electors ==> Keeps(h, v, e.base, t))
  }

  /** An undecided vote binds the log it was given to. */
  ghost predicate VoteOk(h: History, s: Slot)
    requires s in h.voted
  {
    var c := Slot(s.term, h.voted[s]);
    c in h.campaigns && (s.term !in h.elected ==> Keeps(h, s.node, h.campaigns[c], s.term))
  }

  ghost predicate AcksOk(h: History) {
    forall s :: s in h.acks ==> s.term in h.elected && h.acks[s] <= |h.elected[s.term].log|
  }

  ghost predicate HistoryOk(h: History, voters: set<NodeId>) {
    && (forall t :: t in h.elected ==> ElectionOk(h, voters, t, h.elected[t]))
    && (forall s :: s in h.voted ==> VoteOk(h, s))
    && (forall s :: s in h.campaigns ==> Matches(h, h.campaigns[s]) && TermsBelow(h.campaigns[s], s.term))
    && AcksOk(h)
  }

  ghost predicate MessageOk(h: History, voters: set<NodeId>, p: Packet) {
    && p.from in voters
    && match p.message
       case RequestVote(term, lastLogIndex, lastLogTerm) =>
         && Slot(term, p.from) in h.campaigns
         && lastLogIndex == |h.campaigns[Slot(term, p.from)]|
         && lastLogTerm == LastTerm(h.campaigns[Slot(term, p.from)])
       case RequestVoteResp(term, granted) =>
         granted ==> Slot(term, p.from) in h.voted && h.voted[Slot(term, p.from)] == p.to
       case AppendEntries(term, prev, prevTerm, entries, leaderCommit) =>
         && term in h.elected
         && prev + |entries| <= |h.elected[term].log|
         && entries == h.elected[term].log[prev..prev + |entries|]
         && TermAt(h.elected[term].log, prev) == Some(prevTerm)
         && leaderCommit <= prev + |entries|
         && CommitOk(h, voters, h.elected[term].log, leaderCommit, term)
       case AppendEntriesResp(term, success, matchIndex) =>
         success ==> matchIndex <= Ack(h, term, p.from)
  }

  /** Votes, campaigns and acknowledgements never run ahead of the node's term. */
  ghost predicate NothingAhead(h: History, id: NodeId, term: Term) {
    forall t :: t > term ==>
      Slot(t, id) !in h.voted && Slot(t, id) !in h.campaigns && Slot(t, id) !in h.acks
  }

  ghost predicate VoteRecorded(h: History, n: Node) {
    var s := Slot(n.Term(), n.config.id);
    if n.hard.votedFor.Some? then s in h.voted && h.voted[s] == n.hard.votedFor.value
    else s !in h.voted
  }

  ghost predicate LeaderOk(h: History, voters: set<NodeId>, n: Node) {
    && n.Term() in h.elected
    && h.elected[n.Term()].leader == n.config.id
    && n.log == h.elected[n.Term()].log
    && (forall p :: p in n.matchIndex ==> p in voters && n.matchIndex[p] <= Ack(h, n.Term(), p))
    && (forall p :: p in n.nextIndex ==> 1 <= n.nextIndex[p] <= |n.log| + 1)
  }

  ghost predicate CandidateOk(h: History, voters: set<NodeId>, n: Node) {
    var s := Slot(n.Term(), n.config.id);
    && s in h.campaigns && h.campaigns[s] == n.log
    && (n.Term() in h.elected ==> h.elected[n.Term()].leader != n.config.id)
    && (forall v :: v in n.votes && n.votes[v] ==>
          v in voters && Slot(n.Term(), v) in h.voted && h.voted[Slot(n.Term(), v)] == n.config.id)
  }

  ghost predicate OutboxOk(h: History, voters: set<NodeId>, n: Node) {
    forall e :: e in n.outbox ==> MessageOk(h, voters, Packet(n.config.id, e.to, e.message))
  }

  ghost predicate NodeOk(h: History, voters: set<NodeId>, n: Node) {
    && ConfigOk(n.config, n.config.id, voters)
    && Matches(h, n.log)
    && TermsUpTo(n.log, n.Term())
    && NothingAhead(h, n.config.id, n.Term())
    && VoteRecorded(h, n)
    && Keeps(h, n.config.id, n.log, n.Term() + 1)
    && (n.role.Leader? ==> LeaderOk(h, voters, n))
    && (n.role.Candidate? ==> CandidateOk(h, voters, n))
    && CommitOk(h, voters, n.log, n.commitIndex, n.Term())
    && n.hard.commitIndex == n.commitIndex
    && n.lastApplied <= n.commitIndex
    && OutboxOk(h, voters, n)
  }

  ghost predicate Inv(h: History, c: Cluster) {
    && HistoryOk(h, c.nodes.Keys)
    && (forall id :: id in c.nodes ==> c.nodes[id].config.id == id && NodeOk(h, c.nodes.Keys, c.nodes[id]))
    && (forall p :: p in c.sent ==> MessageOk(h, c.nodes.Keys, p))
  }

  // ---- what one node's action in its term may add ----

  ghost predicate Grew(e: Election, e': Election) {
    e'.leader == e.leader && e'.base == e.base && e'.electors == e.electors && e.log <= e'.log
  }

  /** Recorded values stay, and only slot `mine` may be added. */
  ghost predicate OnlyMine<T(!new)>(m: map<Slot, T>, m': map<Slot, T>, mine: Slot) {
    && (forall s :: s in m ==> s in m' && m'[s] == m[s])
    && (forall s :: s in m' && s !in m ==> s == mine)
  }

  ghost predicate ElectionsExtend(h: History, h': History, id: NodeId, cur: Term) {
    && (forall t :: t in h.elected ==> t in h'.elected && Grew(h.elected[t], h'.elected[t]))
    && (forall t :: t in h.elected && (t != cur || h.elected[t].leader != id) ==> h'.elected[t] == h.elected[t])
    && (forall t :: t in h'.elected && t !in h.elected ==> t == cur && h'.elected[t].leader == id)
  }

  ghost predicate AcksExtend(h: History, h': History, mine: Slot) {
    && (forall s :: s in h.acks ==> s in h'.acks && h.acks[s] <= h'.acks[s])
    && (forall s :: s in h'.acks && s != mine ==> s in h.acks && h'.acks[s] == h.acks[s])
  }

  /** `h'` adds to `h` only what node `id` may record while in term `cur`. */
  ghost predicate Extends(h: History, h': History, id: NodeId, cur: Term) {
    && OnlyMine(h.voted, h'.voted, Slot(cur, id))
    && OnlyMine(h.campaigns, h'.campaigns, Slot(cur, id))
    && ElectionsExtend(h, h', id, cur)
    && AcksExtend(h, h', Slot(cur, id))
  }

  lemma OnlyMineTransitive<T(!new)>(a: map<Slot, T>, b: map<Slot, T>, c: map<Slot, T>, mine: Slot)
    requires OnlyMine(a, b, mine) && OnlyMine(b, c, mine)
    ensures OnlyMine(a, c, mine)
  {
  }

  lemma ElectionsExtendTransitive(a: History, b: History, c: History, id: NodeId, cur: Term)
    requires ElectionsExtend(a, b, id, cur) && ElectionsExtend(b, c, id, cur)
    ensures ElectionsExtend(a, c, id, cur)
  {
  }

  lemma ExtendsTransitive(a: History, b: History, c: History, id: NodeId, cur: Term)
    requires Extends(a, b, id, cur) && Extends(b, c, id, cur)
    ensures Extends(a, c, id, cur)
  {
    hide OnlyMine, ElectionsExtend;
    OnlyMineTransitive(a.voted, b.voted, c.voted, Slot(cur, id));
    OnlyMineTransitive(a.campaigns, b.campaigns, c.campaigns, Slot(cur, id));
    ElectionsExtendTransitive(a, b, c, id, cur);
  }

  // ---- stability under such additions ----

  lemma MatchesStable(h: History, h': History, id: NodeId, cur: Term, log: seq<Entry>)
    requires Extends(h, h', id, cur) && Matches(h, log)
    ensures Matches(h', log)
  {
    hide OnlyMine, AcksExtend;
    forall j | 0 <= j < |log| ensures MatchesAt(h', log, j) {
      assert MatchesAt(h, log, j);
    }
  }

  lemma AnchoredStable(h: History, h': History, id: NodeId, cur: Term, t: Term, i: nat)
    requires Extends(h, h', id, cur) && Anchored(h, t, i)
    ensures Anchored(h', t, i) && Prefix(h', t, i) == Prefix(h, t, i)
  {
    hide OnlyMine, AcksExtend;
  }

  /** Promises about acknowledgements in terms where `v` can acknowledge no more survive. */
  lemma KeepsStable(h: History, h': History, id: NodeId, cur: Term, v: NodeId, log: seq<Entry>, hi: Term)
    requires Extends(h, h', id, cur) && Keeps(h, v, log, hi)
    requires AcksOk(h)
    requires v != id || hi <= cur
    ensures Keeps(h', v, log, hi)
  {
    forall t: nat, i: nat | AckedBelow(h', v, t, i, hi) && Inherited(h', t, i, hi)
      ensures Prefix(h', t, i) <= log
    {
      KeepsStableAt(h, h', id, cur, v, t, i, hi);
      assert AckedBelow(h, v, t, i, hi) && Inherited(h, t, i, hi);
    }
  }

  lemma KeepsStableAt(h: History, h': History, id: NodeId, cur: Term, v: NodeId, t: Term, i: nat, hi: Term)
    requires Extends(h, h', id, cur)
    requires AcksOk(h)
    requires v != id || hi <= cur
    requires AckedBelow(h', v, t, i, hi) && Inherited(h', t, i, hi)
    ensures AckedBelow(h, v, t, i, hi) && Inherited(h, t, i, hi)
    ensures Prefix(h', t, i) == Prefix(h, t, i)
  {
    hide OnlyMine;
    assert Slot(t, v) != Slot(cur, id);
    assert Slot(t, v) in h.acks && t in h.elected;
    assert Grew(h.elected[t], h'.elected[t]);
    AnchoredStable(h, h', id, cur, t, i);
  }

  lemma CommittedStable(h: History, h': History, id: NodeId, cur: Term, voters: set<NodeId>, t: Term, i: nat)
    requires Extends(h, h', id, cur) && CommittedAt(h, voters, t, i)
    ensures CommittedAt(h', voters, t, i) && Prefix(h', t, i) == Prefix(h, t, i)
  {
    hide OnlyMine, ElectionsExtend;
    AnchoredStable(h, h', id, cur, t, i);
    SubsetSize(Ackers(h, voters, t, i), Ackers(h', voters, t, i));
  }

  lemma CommitStable(h: History, h': History, id: NodeId, cur: Term, voters: set<NodeId>,
                     log: seq<Entry>, log': seq<Entry>, k: nat, term: Term, term': Term)
    requires Extends(h, h', id, cur) && CommitOk(h, voters, log, k, term)
    requires log[..k] <= log' && term <= term'
    ensures CommitOk(h', voters, log', k, term')
  {
    hide Extends, Quorum, Ackers;
    if k > 0 {
      var t: nat, i: nat :| t <= term && Justifies(h, voters, log, k, t, i);
      CommittedStable(h, h', id, cur, voters, t, i);
      assert Justifies(h', voters, log', k, t, i);
    }
  }

  lemma MessageStable(h: History, h': History, id: NodeId, cur: Term, voters: set<NodeId>, p: Packet)
    requires Extends(h, h', id, cur) && MessageOk(h, voters, p)
    ensures MessageOk(h', voters, p)
  {
    hide CommitOk;
    if p.message.AppendEntries? {
      var t := p.message.term;
      assert Grew(h.elected[t], h'.elected[t]);
      CommitStable(h, h', id, cur, voters, h.elected[t].log, h'.elected[t].log, p.message.leaderCommit, t, t);
    }
  }

  lemma OutboxStable(h: History, h': History, id: NodeId, cur: Term, voters: set<NodeId>, n: Node)
    requires Extends(h, h', id, cur) && OutboxOk(h, voters, n)
    ensures OutboxOk(h', voters, n)
  {
    hide Extends, MessageOk;
    forall e | e in n.outbox ensures MessageOk(h', voters, Packet(n.config.id, e.to, e.message)) {
      MessageStable(h, h', id, cur, voters, Packet(n.config.id, e.to, e.message));
    }
  }

  lemma LeaderStable(h: History, h': History, id: NodeId, cur: Term, voters: set<NodeId>, n: Node)
    requires Extends(h, h', id, cur) && LeaderOk(h, voters, n)
    requires n.config.id != id
    ensures LeaderOk(h', voters, n)
  {
    assert h'.elected[n.Term()] == h.elected[n.Term()];
  }

  lemma RolesStable(h: History, h': History, id: NodeId, cur: Term, voters: set<NodeId>, n: Node)
    requires Extends(h, h', id, cur)
    requires n.config.id != id
    requires NothingAhead(h, n.config.id, n.Term()) && VoteRecorded(h, n)
    requires n.role.Candidate? ==> CandidateOk(h, voters, n)
    ensures NothingAhead(h', n.config.id, n.Term()) && VoteRecorded(h', n)
    ensures n.role.Candidate? ==> CandidateOk(h', voters, n)
  {
  }

  /** Another node's action leaves this node's part of the invariant alone. */
  lemma BystanderStable(h: History, h': History, id: NodeId, cur: Term, voters: set<NodeId>, n: Node)
    requires HistoryOk(h, voters) && Extends(h, h', id, cur) && NodeOk(h, voters, n)
    requires n.config.id != id
    ensures NodeOk(h', voters, n)
  {
    hide Extends, Matches, Keeps, Justifies, OutboxOk, LeaderOk, CandidateOk, VoteRecorded, NothingAhead, ElectionOk, VoteOk;
    MatchesStable(h, h', id, cur, n.log);
    KeepsStable(h, h', id, cur, n.config.id, n.log, n.Term() + 1);
    CommitStable(h, h', id, cur, voters, n.log, n.log, n.commitIndex, n.Term(), n.Term());
    OutboxStable(h, h', id, cur, voters, n);
    RolesStable(h, h', id, cur, voters, n);
    if n.role.Leader? {
      LeaderStable(h, h', id, cur, voters, n);
    }
  }

  // ---- consequences of the invariant ----

  lemma QuorumsMeet(a: set<NodeId>, b: set<NodeId>, voters: set<NodeId>) returns (v: NodeId)
    requires Quorum(a, voters) && Quorum(b, voters)
    ensures v in a && v in b
  {
    if a !! b {
      assert |a + b| == |a| + |b|;
      SubsetSize(a + b, voters);
      assert false;
    }
    v :| v in a && v in b;
  }

  /** Two winners of one term are the same node. */
  lemma OneWinner(h: History, voters: set<NodeId>, t: Term, q: set<NodeId>, c: NodeId)
    requires HistoryOk(h, voters) && t in h.elected && Quorum(q, voters)
    requires forall v :: v in q ==> Slot(t, v) in h.voted && h.voted[Slot(t, v)] == c
    ensures h.elected[t].leader == c
  {
    assert ElectionOk(h, voters, t, h.elected[t]);
    var v := QuorumsMeet(h.elected[t].electors, q, voters);
  }

  /** Leader Completeness: a committed prefix is in the starting log of every later leader. */
  lemma {:induction false} LeaderCompleteness(h: History, voters: set<NodeId>, t: Term, i: nat, u: Term)
    requires HistoryOk(h, voters) && CommittedAt(h, voters, t, i)
    requires u in h.elected && t < u
    ensures Prefix(h, t, i) <= h.elected[u].base
    decreases u
  {
    hide Matches, TermsBelow, VoteOk, AcksOk;
    forall w | w in h.elected && t < w < u ensures Prefix(h, t, i) <= h.elected[w].base {
      LeaderCompleteness(h, voters, t, i, w);
    }
    assert ElectionOk(h, voters, u, h.elected[u]);
    var v := QuorumsMeet(Ackers(h, voters, t, i), h.elected[u].electors, voters);
    assert Keeps(h, v, h.elected[u].base, u);
    assert AckedBelow(h, v, t, i, u) && Inherited(h, t, i, u);
  }

  lemma PrefixInLeader(h: History, voters: set<NodeId>, t: Term, i: nat, u: Term)
    requires HistoryOk(h, voters) && CommittedAt(h, voters, t, i)
    requires u in h.elected && t <= u
    ensures Prefix(h, t, i) <= h.elected[u].log
  {
    hide Keeps, Matches, TermsBelow, Quorum, Ackers, VoteOk, AcksOk;
    if t < u {
      LeaderCompleteness(h, voters, t, i, u);
      assert ElectionOk(h, voters, u, h.elected[u]);
    }
  }

  /** A committed prefix is in the log of the leader of any term from there on. */
  lemma CommittedInLeader(h: History, voters: set<NodeId>, log: seq<Entry>, k: nat, term: Term, u: Term)
    requires HistoryOk(h, voters) && CommitOk(h, voters, log, k, term)
    requires u in h.elected && term <= u
    ensures log[..k] <= h.elected[u].log
  {
    hide HistoryOk, Quorum;
    if k > 0 {
      var t: nat, i: nat :| t <= term && Justifies(h, voters, log, k, t, i);
      PrefixInLeader(h, voters, t, i, u);
      assert log[..k] == Prefix(h, t, i)[..k];
    }
  }
}
