/** What Raft messages and timers achieve (crates/auradb-raft/src/node.rs): a leader repairs any follower
    of its term, silence leads to a campaign, and a majority of votes to a leader. */
module RaftProgress {
  import opened Sequences
  import opened Wrappers
  import opened RaftNode
  import opened RaftCluster
  import opened RaftHistory
  import opened RaftSteps
  import opened RaftSafety

  // ---- one exchange between a leader and a follower ----

  /** The follower's reply to what the leader sends it now. */
  function Reply(n: Node, f: Node): Node {
    Step(f, n.config.id, AppendMessage(n, f.config.id)).node
  }

  /** The follower once its reply is on the way. */
  function FollowerAfter(n: Node, f: Node): Node {
    Reply(n, f).(outbox := [])
  }

  /** The leader once the reply has arrived, its own messages not yet collected. */
  function Answered(n: Node, f: Node): Node {
    var out := Reply(n, f).outbox;
    if out == [] then n else Step(n, f.config.id, out[|out| - 1].message).node
  }

  function LeaderAfter(n: Node, f: Node): Node {
    Answered(n, f).(outbox := [])
  }

  function Exchanges(n: Node, f: Node, k: nat): (Node, Node)
    decreases k
  {
    if k == 0 then (n, f) else Exchanges(LeaderAfter(n, f), FollowerAfter(n, f), k - 1)
  }

  /** A leader and a node that has not moved past its term; equal terms at an index mean equal logs up to it. */
  ghost predicate Paired(h: History, voters: set<NodeId>, n: Node, f: Node) {
    && HistoryOk(h, voters) && Matches(h, n.log) && Matches(h, f.log)
    && n.role.Leader? && f.Term() <= n.Term() && n.config.id != f.config.id
    && n.outbox == [] && f.outbox == []
    && 1 <= NextFor(n, f.config.id) <= |n.log| + 1
  }

  /** The follower's log agrees with the leader's up to where the leader's message starts. */
  ghost predicate Agrees(n: Node, f: Node) {
    var prev := NextFor(n, f.config.id) - 1;
    0 <= prev <= |f.log| && prev <= |n.log| && n.log[..prev] == f.log[..prev]
  }

  lemma MessageIs(h: History, voters: set<NodeId>, n: Node, f: Node)
    requires Paired(h, voters, n, f)
    ensures var m := AppendMessage(n, f.config.id);
            var prev := NextFor(n, f.config.id) - 1;
            && m == AppendEntries(n.Term(), prev, if prev == 0 then 0 else n.log[prev - 1].term, n.log[prev..], n.commitIndex)
  {
    hide HistoryOk, Matches;
  }

  /** The consistency check asks just whether the logs agree up to where the message starts. */
  lemma CheckIsAgreement(h: History, voters: set<NodeId>, n: Node, f: Node)
    requires Paired(h, voters, n, f)
    ensures TermAt(f.log, AppendMessage(n, f.config.id).prevLogIndex) == Some(AppendMessage(n, f.config.id).prevLogTerm)
            <==> Agrees(n, f)
  {
    hide HistoryOk, Matches, AppendMessage;
    MessageIs(h, voters, n, f);
    var prev := NextFor(n, f.config.id) - 1;
    if 0 < prev <= |f.log| {
      if f.log[prev - 1].term == n.log[prev - 1].term {
        LogMatching(h, f.log, n.log, prev - 1);
      }
      if Agrees(n, f) {
        assert n.log[..prev][prev - 1] == f.log[..prev][prev - 1];
      }
    }
  }

  /** A node that hears from a leader of its own or a later term. */
  function Hearing(f: Node, from: NodeId, term: Term): Node {
    FollowLeader(AdoptTerm(f, term), from, term)
  }

  lemma HearingKeeps(f: Node, from: NodeId, term: Term)
    requires f.Term() <= term
    ensures var g := Hearing(f, from, term);
            g.log == f.log && g.Term() == term && g.config == f.config && g.outbox == f.outbox && g.commitIndex == f.commitIndex
  {
  }

  lemma StepRefuses(f: Node, from: NodeId, term: Term, prev: LogIndex, prevTerm: Term, entries: seq<Entry>, commit: LogIndex)
    requires f.Term() <= term && TermAt(f.log, prev) != Some(prevTerm)
    ensures Step(f, from, AppendEntries(term, prev, prevTerm, entries, commit))
            == Outcome(Send(Hearing(f, from, term), from, AppendEntriesResp(term, false, 0)), true)
  {
    hide StoreEntries, AdoptCommit;
    HearingKeeps(f, from, term);
  }

  lemma StepAccepts(f: Node, from: NodeId, term: Term, prev: LogIndex, prevTerm: Term, entries: seq<Entry>, commit: LogIndex)
    requires f.Term() <= term && TermAt(f.log, prev) == Some(prevTerm) && StoreEntries(f.log, entries).ok
    ensures var c := AdoptCommit(Hearing(f, from, term).(log := StoreEntries(f.log, entries).log), commit);
            Step(f, from, AppendEntries(term, prev, prevTerm, entries, commit))
            == Outcome(Send(c, from, AppendEntriesResp(c.Term(), true, LastEntryIndex(prev, entries))), true)
  {
    hide StoreEntries, AdoptCommit, LastEntryIndex;
    HearingKeeps(f, from, term);
  }

  lemma CommitKeeps(n: Node, commit: LogIndex)
    ensures var c := AdoptCommit(n, commit); c.log == n.log && c.Term() == n.Term() && c.config == n.config && c.outbox == n.outbox
  {
  }

  lemma FollowerRefuses(h: History, voters: set<NodeId>, n: Node, f: Node)
    requires Paired(h, voters, n, f) && !Agrees(n, f)
    ensures var r := Reply(n, f);
            && r.outbox == [Envelope(n.config.id, AppendEntriesResp(n.Term(), false, 0))]
            && r.log == f.log && r.Term() == n.Term() && r.config == f.config
  {
    hide HistoryOk, Matches, AppendMessage, Agrees, Step, Hearing;
    MessageIs(h, voters, n, f);
    CheckIsAgreement(h, voters, n, f);
    HearingKeeps(f, n.config.id, n.Term());
    var m := AppendMessage(n, f.config.id);
    StepRefuses(f, n.config.id, n.Term(), m.prevLogIndex, m.prevLogTerm, m.entries, m.leaderCommit);
  }

  lemma FollowerAccepts(h: History, voters: set<NodeId>, n: Node, f: Node)
    requires Paired(h, voters, n, f) && Agrees(n, f)
    ensures var r := Reply(n, f);
            && r.outbox == [Envelope(n.config.id, AppendEntriesResp(n.Term(), true, |n.log|))]
            && r.log == (if n.log <= f.log then f.log else n.log) && r.Term() == n.Term() && r.config == f.config
  {
    hide HistoryOk, Matches, AppendMessage, Agrees, StoreEntries, Step, Hearing, AdoptCommit;
    MessageIs(h, voters, n, f);
    CheckIsAgreement(h, voters, n, f);
    StoresAll(h, voters, n, f);
    LastIndexIs(h, n.log, NextFor(n, f.config.id) - 1);
    HearingKeeps(f, n.config.id, n.Term());
    var m := AppendMessage(n, f.config.id);
    StepAccepts(f, n.config.id, n.Term(), m.prevLogIndex, m.prevLogTerm, m.entries, m.leaderCommit);
    CommitKeeps(Hearing(f, n.config.id, n.Term()).(log := StoreEntries(f.log, m.entries).log), m.leaderCommit);
  }

  lemma StoresAll(h: History, voters: set<NodeId>, n: Node, f: Node)
    requires Paired(h, voters, n, f) && Agrees(n, f)
    ensures StoreEntries(f.log, n.log[NextFor(n, f.config.id) - 1..]) == Appended(if n.log <= f.log then f.log else n.log, true)
  {
    hide HistoryOk, Matches, StoreEntries;
    var prev := NextFor(n, f.config.id) - 1;
    assert n.log[prev..|n.log|] == n.log[prev..] && n.log[..|n.log|] == n.log;
    StoreSlice(h, voters, f.log, n.log, prev, |n.log|);
  }

  lemma LastIndexIs(h: History, log: seq<Entry>, prev: nat)
    requires Matches(h, log) && prev <= |log|
    ensures LastEntryIndex(prev, log[prev..]) == |log|
  {
    if prev < |log| {
      assert MatchesAt(h, log, |log| - 1);
    }
  }

  /** A refused leader sends again from exactly one entry earlier: the old suffix and one entry more. */
  lemma RefusedSendsMore(h: History, voters: set<NodeId>, n: Node, f: Node)
    requires Paired(h, voters, n, f) && !Agrees(n, f)
    ensures Paired(h, voters, LeaderAfter(n, f), FollowerAfter(n, f))
    ensures LeaderAfter(n, f).log == n.log && FollowerAfter(n, f).log == f.log
    ensures var was, now := AppendMessage(n, f.config.id), AppendMessage(LeaderAfter(n, f), f.config.id);
            && Answered(n, f).outbox == [Envelope(f.config.id, now)]
            && was.prevLogIndex > 0 && now.prevLogIndex == was.prevLogIndex - 1
            && |now.entries| == |was.entries| + 1 && now.entries[1..] == was.entries
    ensures NextFor(LeaderAfter(n, f), f.config.id) == NextFor(n, f.config.id) - 1
  {
    hide HistoryOk, Matches, AppendMessage, Reply, Step;
    FollowerRefuses(h, voters, n, f);
    LeaderRefused(n, f.config.id);
    var l := LeaderAfter(n, f);
    MessageIs(h, voters, n, f);
    MessageIs(h, voters, l, FollowerAfter(n, f));
    SameMessage(Answered(n, f), l, f.config.id);
  }

  lemma LeaderRefused(n: Node, p: NodeId)
    requires n.role.Leader? && NextFor(n, p) > 1 && n.outbox == []
    ensures var l := Step(n, p, AppendEntriesResp(n.Term(), false, 0)).node;
            && l.role == n.role && l.log == n.log && l.Term() == n.Term() && l.config == n.config
            && NextFor(l, p) == NextFor(n, p) - 1 && l.outbox == [Envelope(p, AppendMessage(l, p))]
  {
    hide AppendMessage;
    var m := n.(nextIndex := n.nextIndex[p := NextFor(n, p) - 1]);
    SameMessage(Send(m, p, AppendMessage(m, p)), m, p);
  }

  lemma SameMessage(a: Node, b: Node, p: NodeId)
    requires b == a.(outbox := [])
    ensures AppendMessage(a, p) == AppendMessage(b, p)
  {
  }

  /** An accepted message leaves the follower with the leader's whole log, and the leader knowing it. */
  lemma AcceptedHolds(h: History, voters: set<NodeId>, n: Node, f: Node)
    requires Paired(h, voters, n, f) && Agrees(n, f)
    ensures FollowerAfter(n, f).log == if n.log <= f.log then f.log else n.log
    ensures var l := LeaderAfter(n, f);
            l.log == n.log && f.config.id in l.matchIndex && l.matchIndex[f.config.id] == |n.log| && NextFor(l, f.config.id) == |n.log| + 1
  {
    hide HistoryOk, Matches, AppendMessage, Reply, Agrees, Step;
    FollowerAccepts(h, voters, n, f);
    LeaderAcknowledged(n, f.config.id, |n.log|);
  }

  lemma LeaderAcknowledged(n: Node, p: NodeId, i: LogIndex)
    requires n.role.Leader?
    ensures var l := Step(n, p, AppendEntriesResp(n.Term(), true, i)).node;
            l.log == n.log && p in l.matchIndex && l.matchIndex[p] == i && NextFor(l, p) == i + 1
  {
    hide CommitScan;
  }

  /** However far the logs have parted, alternating refusal and resend repairs the follower: if they agree
      on the first `m` entries, in at most as many rounds as the next index lies past `m`. */
  lemma {:induction false} CatchUp(h: History, voters: set<NodeId>, n: Node, f: Node, m: nat) returns (k: nat)
    requires Paired(h, voters, n, f) && m < NextFor(n, f.config.id) && m <= |f.log| && m <= |n.log| && n.log[..m] == f.log[..m]
    ensures 1 <= k <= NextFor(n, f.config.id) - m
    ensures var (n', f') := Exchanges(n, f, k);
            && n'.log == n.log && f'.log == (if n.log <= f.log then f.log else n.log)
            && f.config.id in n'.matchIndex && n'.matchIndex[f.config.id] == |n.log|
    decreases NextFor(n, f.config.id)
  {
    hide Paired, Agrees, LeaderAfter, FollowerAfter, AppendMessage, Answered;
    if Agrees(n, f) {
      k := 1;
      AcceptedHolds(h, voters, n, f);
      assert Exchanges(n, f, 1) == Exchanges(LeaderAfter(n, f), FollowerAfter(n, f), 0);
    } else {
      PartsLater(h, voters, n, f, m);
      RefusedSendsMore(h, voters, n, f);
      SameIds(h, voters, n, f);
      var rest := CatchUp(h, voters, LeaderAfter(n, f), FollowerAfter(n, f), m);
      k := rest + 1;
    }
  }

  lemma PartsLater(h: History, voters: set<NodeId>, n: Node, f: Node, m: nat)
    requires Paired(h, voters, n, f) && !Agrees(n, f) && m < NextFor(n, f.config.id)
    requires m <= |f.log| && m <= |n.log| && n.log[..m] == f.log[..m]
    ensures m < NextFor(n, f.config.id) - 1
  {
    hide HistoryOk, Matches;
  }

  lemma SameIds(h: History, voters: set<NodeId>, n: Node, f: Node)
    requires Paired(h, voters, n, f) && !Agrees(n, f)
    ensures FollowerAfter(n, f).config == f.config
  {
    hide Reply, Paired;
    FollowerRefuses(h, voters, n, f);
  }

  // ---- in every reachable state ----

  lemma {:induction false} NothingQueued(states: seq<Cluster>, events: seq<Event>, i: nat, a: NodeId)
    requires Run(states, events) && NodeAt(states, i, a)
    ensures states[i].nodes[a].outbox == []
  {
    hide React;
    if i == 0 {
      assert Fresh(states[0].nodes[a]);
    } else {
      assert Next(states[i - 1], events[i - 1], states[i]);
      if a != Actor(events[i - 1]) {
        NothingQueued(states, events, i - 1, a);
      }
    }
  }

  /** Nobody of the leader's term or below holds more than the leader's log and its last entry. */
  lemma NothingBeyond(h: History, voters: set<NodeId>, n: Node, f: Node)
    requires Fine(h, voters, n) && n.role.Leader? && Fine(h, voters, f) && f.Term() <= n.Term() && n.log <= f.log
    ensures f.log == n.log
  {
    hide Keeps, CommitOk, OutboxOk, VoteRecorded, NothingAhead, CandidateOk, VoteOk, AcksOk;
    var last := |n.log| - 1;
    assert n.log == h.elected[n.Term()].log && n.log != [];
    assert n.log[last].term == n.Term();
    assert |f.log| > |n.log| ==> MatchesAt(h, f.log, |n.log|);
    if |f.log| > |n.log| {
      TermsOrdered(h, voters, f.log, last, |n.log|);
    }
  }

  /** In every state of every run, a leader repairs every node that has not moved past its term: the
      node ends with exactly the leader's log. */
  lemma LeaderRepairs(states: seq<Cluster>, events: seq<Event>, i: nat, a: NodeId, b: NodeId) returns (k: nat)
    requires Run(states, events) && NodeAt(states, i, a) && NodeAt(states, i, b) && a != b
    requires states[i].nodes[a].role.Leader? && states[i].nodes[b].Term() <= states[i].nodes[a].Term()
    ensures var n, f := states[i].nodes[a], states[i].nodes[b];
            && 1 <= k <= NextFor(n, b)
            && var (n', f') := Exchanges(n, f, k);
               n'.log == n.log == f'.log && b in n'.matchIndex && n'.matchIndex[b] == |n.log|
  {
    hide Run, HistoryOk, Keeps, CommitOk, OutboxOk, VoteRecorded, NothingAhead, CandidateOk, MessageOk, Matches, Exchanges;
    var hs := RunInv(states, events);
    assert Inv(hs[i], states[i]);
    var n, f, voters := states[i].nodes[a], states[i].nodes[b], states[i].nodes.Keys;
    NothingQueued(states, events, i, a);
    NothingQueued(states, events, i, b);
    assert LeaderOk(hs[i], voters, n);
    assert Paired(hs[i], voters, n, f);
    assert n.log[..0] == f.log[..0];
    k := CatchUp(hs[i], voters, n, f, 0);
    if n.log <= f.log {
      NothingBeyond(hs[i], voters, n, f);
    }
  }

  // ---- timers ----

  /** A node that is left alone for `|draws|` ticks. */
  function Ticked(n: Node, draws: seq<nat>): Node
    decreases |draws|
  {
    if draws == [] then n else Tick(Ticked(n, draws[..|draws| - 1]), draws[|draws| - 1])
  }

  /** Ticks until the election timer runs out. */
  function Patience(n: Node): nat {
    if n.timers.electionElapsed + 1 < n.timers.electionTimeout then n.timers.electionTimeout - n.timers.electionElapsed else 1
  }

  /** Until then it only waits. */
  lemma {:induction false} OnlyWaits(n: Node, draws: seq<nat>)
    requires !n.role.Leader? && |draws| < Patience(n)
    ensures Ticked(n, draws) == n.(timers := n.timers.(electionElapsed := n.timers.electionElapsed + |draws|))
  {
    hide Campaign;
    if draws != [] {
      OnlyWaits(n, draws[..|draws| - 1]);
    }
  }

  /** A follower or candidate that hears nothing for its timeout, and not sooner, stands in the next term. */
  lemma SilenceCampaigns(n: Node, draws: seq<nat>)
    requires !n.role.Leader? && |draws| == Patience(n)
    ensures Ticked(n, draws).Term() == n.Term() + 1 && Ticked(n, draws).hard.votedFor == Some(n.config.id)
    ensures n.config.Majority() > 1 ==>
              && Ticked(n, draws).role == Candidate
              && forall p :: p in n.config.peers ==> Envelope(p, RequestVote(n.Term() + 1, |n.log|, LastTerm(n.log))) in Ticked(n, draws).outbox
  {
    hide Campaign, Tick;
    var front, draw := draws[..|draws| - 1], draws[|draws| - 1];
    OnlyWaits(n, front);
    var m := n.(timers := n.timers.(electionElapsed := n.timers.electionElapsed + |draws|));
    TimesOut(Ticked(n, front), draw);
    CampaignAsks(m, draw);
  }

  lemma TimesOut(n: Node, draw: nat)
    requires !n.role.Leader? && n.timers.electionElapsed + 1 >= n.timers.electionTimeout
    ensures Tick(n, draw) == Campaign(n.(timers := n.timers.(electionElapsed := n.timers.electionElapsed + 1)), draw)
  {
    hide Campaign;
  }

  lemma CampaignAsks(n: Node, draw: nat)
    ensures var c := Campaign(n, draw);
            && c.Term() == n.Term() + 1 && c.hard.votedFor == Some(n.config.id)
            && (n.config.Majority() > 1 ==>
                  && c.role == Candidate
                  && forall p :: p in n.config.peers ==> Envelope(p, RequestVote(n.Term() + 1, |n.log|, LastTerm(n.log))) in c.outbox)
  {
    hide SendVoteRequests, BecomeLeader;
    var s := StartCampaign(n, draw);
    if n.config.Majority() <= 1 {
      LeadKeepsTerm(s);
    } else {
      AsksEach(s, s.config.peers);
    }
  }

  lemma LeadKeepsTerm(n: Node)
    ensures var l := BecomeLeader(n).node; l.role == Leader && l.Term() == n.Term() && l.hard.votedFor == n.hard.votedFor
  {
    hide CommitScan, SendAppends;
    var a := LeaderAppend(StartLeading(n), NOOP);
    SendsEach(MaybeAdvanceCommit(a.node), a.node.config.peers);
  }

  lemma {:induction false} AsksEach(n: Node, peers: seq<NodeId>)
    ensures var s := SendVoteRequests(n, peers);
            && s == n.(outbox := s.outbox) && n.outbox <= s.outbox
            && forall p :: p in peers ==> Envelope(p, RequestVote(n.Term(), |n.log|, LastTerm(n.log))) in s.outbox
    decreases peers
  {
    if peers != [] {
      var e := Envelope(peers[0], RequestVote(n.Term(), |n.log|, LastTerm(n.log)));
      var m := Send(n, peers[0], e.message);
      AsksEach(m, peers[1..]);
      assert m.outbox[|n.outbox|] == e;
    }
  }

  lemma {:induction false} SendsEach(n: Node, peers: seq<NodeId>)
    ensures var s := SendAppends(n, peers);
            && s == n.(outbox := s.outbox) && n.outbox <= s.outbox
            && forall p :: p in peers ==> Envelope(p, AppendMessage(n, p)) in s.outbox
    decreases peers
  {
    hide AppendMessage;
    if peers != [] {
      var m := SendAppendTo(n, peers[0]);
      SendsEach(m, peers[1..]);
      assert m.outbox[|n.outbox|] == Envelope(peers[0], AppendMessage(n, peers[0]));
      forall p ensures AppendMessage(m, p) == AppendMessage(n, p) {
        SameBesidesOutbox(m, n, p);
      }
    }
  }

  lemma SameBesidesOutbox(a: Node, b: Node, p: NodeId)
    requires a == b.(outbox := a.outbox)
    ensures AppendMessage(a, p) == AppendMessage(b, p)
  {
  }

  /** Ticks until the next heartbeat. */
  function Rhythm(n: Node): nat {
    if n.timers.heartbeatElapsed + 1 < n.config.heartbeatInterval then n.config.heartbeatInterval - n.timers.heartbeatElapsed else 1
  }

  lemma {:induction false} OnlyCounts(n: Node, draws: seq<nat>)
    requires n.role.Leader? && |draws| < Rhythm(n)
    ensures Ticked(n, draws) == n.(timers := n.timers.(heartbeatElapsed := n.timers.heartbeatElapsed + |draws|))
  {
    hide SendAppends;
    if draws != [] {
      OnlyCounts(n, draws[..|draws| - 1]);
    }
  }

  /** A leader that is left alone sends every peer what it lacks each heartbeat interval, and not sooner. */
  lemma HeartbeatComes(n: Node, draws: seq<nat>, p: NodeId)
    requires n.role.Leader? && |draws| == Rhythm(n) && p in n.config.peers
    ensures var l := Ticked(n, draws);
            l.role == Leader && l.log == n.log && l.Term() == n.Term() && Envelope(p, AppendMessage(n, p)) in l.outbox
  {
    hide SendAppends, AppendMessage;
    var front := draws[..|draws| - 1];
    OnlyCounts(n, front);
    var m := Ticked(n, front);
    var b := m.(timers := m.timers.(heartbeatElapsed := 0));
    SendsEach(b, b.config.peers);
    SameButTimers(b, n, p);
  }

  lemma SameButTimers(a: Node, b: Node, p: NodeId)
    requires a == b.(timers := a.timers)
    ensures AppendMessage(a, p) == AppendMessage(b, p)
  {
  }

  // ---- elections ----

  /** Log `a` is at least as recent as log `b`: a later last term, or the same and no fewer entries. */
  ghost predicate AsRecent(a: seq<Entry>, b: seq<Entry>) {
    LastTerm(a) > LastTerm(b) || (LastTerm(a) == LastTerm(b) && |a| >= |b|)
  }

  /** A candidate gets a node's vote exactly when it is not behind in term, the node's vote in that term is
      free or already the candidate's, and its log is as recent; every asked node answers. */
  lemma VoteIsExact(c: Node, v: Node)
    requires c.role.Candidate? && v.outbox == []
    ensures var asked := Step(v, c.config.id, RequestVote(c.Term(), |c.log|, LastTerm(c.log))).node;
            var granted := && v.Term() <= c.Term()
                           && (v.Term() < c.Term() || v.hard.votedFor.None? || v.hard.votedFor == Some(c.config.id))
                           && AsRecent(c.log, v.log);
            && asked.outbox == [Envelope(c.config.id, RequestVoteResp(asked.Term(), granted))]
            && asked.Term() == (if v.Term() < c.Term() then c.Term() else v.Term())
            && (granted ==> asked.hard.votedFor == Some(c.config.id))
  {
    hide HandleAppendEntries, HandleVoteResp, HandleAppendResp;
  }

  /** The candidate after granted votes have come in from `voters`, one after the other. */
  function Counted(c: Node, voters: seq<NodeId>): Node
    decreases |voters|
  {
    if voters == [] then c
    else Step(Counted(c, voters[..|voters| - 1]), voters[|voters| - 1], RequestVoteResp(c.Term(), true)).node
  }

  /** While they and its own are fewer than a majority it only counts them. */
  lemma {:induction false} OnlyCollects(c: Node, voters: seq<NodeId>)
    requires c.role.Candidate? && c.votes == map[c.config.id := true]
    requires NoRepeats(voters) && c.config.id !in voters && |voters| + 1 < c.config.Majority()
    ensures var n := Counted(c, voters);
            n == c.(votes := n.votes) && YesVotes(n.votes) == Elements(voters) + {c.config.id} && |YesVotes(n.votes)| == |voters| + 1
  {
    hide Step, YesVotes, Elements, BecomeLeader;
    if voters == [] {
      OwnVote(c);
    } else {
      var front, v := voters[..|voters| - 1], voters[|voters| - 1];
      OnlyCollects(c, front);
      var n := Counted(c, front);
      LastIsNew(voters);
      OneMoreVote(n, v);
      VoteArrives(n, v);
      assert Elements(front) + {c.config.id} + {v} == Elements(voters) + {c.config.id};
    }
  }

  lemma LastIsNew(voters: seq<NodeId>)
    requires voters != [] && NoRepeats(voters)
    ensures var front, v := voters[..|voters| - 1], voters[|voters| - 1];
            Elements(voters) == Elements(front) + {v} && v !in Elements(front)
  {
  }

  lemma OwnVote(c: Node)
    requires c.votes == map[c.config.id := true]
    ensures YesVotes(c.votes) == Elements([]) + {c.config.id} && |YesVotes(c.votes)| == 1
  {
    assert YesVotes(c.votes) == {c.config.id};
  }

  lemma VoteArrives(n: Node, v: NodeId)
    requires n.role.Candidate?
    ensures var m := n.(votes := n.votes[v := true]);
            Step(n, v, RequestVoteResp(n.Term(), true)).node
            == if |YesVotes(m.votes)| >= n.config.Majority() then BecomeLeader(m).node else m
  {
    hide HandleAppendEntries, HandleRequestVote, HandleAppendResp, BecomeLeader, YesVotes;
  }

  lemma OneMoreVote(n: Node, v: NodeId)
    requires v !in YesVotes(n.votes)
    ensures YesVotes(n.votes[v := true]) == YesVotes(n.votes) + {v} && |YesVotes(n.votes[v := true])| == |YesVotes(n.votes)| + 1
  {
    assert YesVotes(n.votes[v := true]) == YesVotes(n.votes) + {v};
  }

  /** A majority is the least number that is more than half of the node and its peers. */
  lemma MajorityIsLeast(config: RaftConfig)
    ensures 2 * config.Majority() > |config.peers| + 1 >= 2 * (config.Majority() - 1)
  {
  }

  /** The vote that takes it past half of the cluster makes it leader, in its own term. */
  lemma MajorityWins(c: Node, voters: seq<NodeId>)
    requires c.role.Candidate? && c.votes == map[c.config.id := true]
    requires NoRepeats(voters) && c.config.id !in voters && voters != []
    requires 2 * (|voters| + 1) > |c.config.peers| + 1 >= 2 * |voters|
    ensures Counted(c, voters).role == Leader && Counted(c, voters).Term() == c.Term()
  {
    hide BecomeLeader, Step, YesVotes;
    MajorityIsLeast(c.config);
    var front, v := voters[..|voters| - 1], voters[|voters| - 1];
    OnlyCollects(c, front);
    var n := Counted(c, front);
    assert v !in Elements(front);
    OneMoreVote(n, v);
    VoteArrives(n, v);
    LeadKeepsTerm(n.(votes := n.votes[v := true]));
  }

  // ---- committing ----

  /** The leader and the peers that acknowledged the log up to `index`, counting what this reply tells. */
  ghost function Holders(n: Node, from: NodeId, matched: LogIndex, index: LogIndex): set<NodeId> {
    set p | p in n.matchIndex.Keys + {from} && (if p == from then matched >= index else n.matchIndex[p] >= index)
  }

  /** An entry of the leader's term that more than half of the cluster is known to hold is committed by the
      acknowledgement that tells so. */
  lemma MajorityCommits(n: Node, from: NodeId, matched: LogIndex, index: LogIndex)
    requires n.role.Leader? && 1 <= index <= |n.log| && n.log[index - 1].term == n.Term()
    requires 2 * |Holders(n, from, matched, index)| > |n.config.peers| + 1
    ensures Step(n, from, AppendEntriesResp(n.Term(), true, matched)).node.commitIndex >= index
  {
    MajorityIsLeast(n.config);
    var m := n.(matchIndex := n.matchIndex[from := matched], nextIndex := n.nextIndex[from := matched + 1]);
    assert Replicated(m.matchIndex, index) == Holders(n, from, matched, index);
    if index > m.commitIndex {
      assert MayCommit(m, index);
      assert CommitScan(m, m.commitIndex + 1, m.commitIndex) >= index;
    }
  }

  /** A follower that accepts a message knows committed what the leader does, as far as its log now reaches. */
  lemma AcceptingCommits(f: Node, from: NodeId, term: Term, prev: LogIndex, prevTerm: Term, entries: seq<Entry>, commit: LogIndex)
    requires f.Term() <= term && TermAt(f.log, prev) == Some(prevTerm) && StoreEntries(f.log, entries).ok
    ensures var g := Step(f, from, AppendEntries(term, prev, prevTerm, entries, commit)).node;
            g.commitIndex == if commit <= f.commitIndex then f.commitIndex else if commit < |g.log| then commit else |g.log|
  {
    hide Step, StoreEntries, LastEntryIndex;
    StepAccepts(f, from, term, prev, prevTerm, entries, commit);
    HearingKeeps(f, from, term);
  }
}
