/** The AuraDB Raft node (crates/auradb-raft): the log storage it owns, its state,
    and one function per handler giving the state that handler leaves behind.

    The class at the end of the file is the node as the source writes it: an object
    that updates its fields in place.  Every method is proved against the function
    of the same name. */
module RaftNode {

  type NodeId = nat
  type Term = nat
  type LogIndex = nat

  import opened Wrappers

  datatype CommandKind = Noop | Database | Schema | Metadata | Config

  datatype Command = Command(version: nat, kind: CommandKind, payload: seq<int>)

  const COMMAND_VERSION := 1

  const NOOP := Command(COMMAND_VERSION, Noop, [])

  datatype Entry = Entry(term: Term, index: LogIndex, command: Command)

  datatype HardState = HardState(currentTerm: Term, votedFor: Option<NodeId>, commitIndex: LogIndex)

  datatype Role = Follower | Candidate | Leader

  datatype Message =
    | RequestVote(term: Term, lastLogIndex: LogIndex, lastLogTerm: Term)
    | RequestVoteResp(term: Term, granted: bool)
    | AppendEntries(term: Term, prevLogIndex: LogIndex, prevLogTerm: Term,
                    entries: seq<Entry>, leaderCommit: LogIndex)
    | AppendEntriesResp(term: Term, success: bool, matchIndex: LogIndex)

  datatype Envelope = Envelope(to: NodeId, message: Message)

  datatype RaftConfig = RaftConfig(
    id: NodeId, peers: seq<NodeId>,
    electionTimeoutMin: nat, electionTimeoutMax: nat, heartbeatInterval: nat)
  {
    function Majority(): nat {
      (|peers| + 1) / 2 + 1
    }
  }

  datatype Timers = Timers(electionElapsed: nat, heartbeatElapsed: nat, electionTimeout: nat)

  /** The state of one node.  `log` and `hard` are what its storage holds. */
  datatype Node = Node(
    config: RaftConfig,
    log: seq<Entry>,
    hard: HardState,
    role: Role,
    leaderId: Option<NodeId>,
    commitIndex: LogIndex,
    lastApplied: LogIndex,
    timers: Timers,
    nextIndex: map<NodeId, LogIndex>,
    matchIndex: map<NodeId, LogIndex>,
    votes: map<NodeId, bool>,
    outbox: seq<Envelope>)
  {
    function Term(): Term {
      hard.currentTerm
    }
  }

  /** A node together with whether the handler reported success. */
  datatype Outcome = Outcome(node: Node, ok: bool)

  // ---- the log ----

  function LastTerm(log: seq<Entry>): Term {
    if log == [] then 0 else log[|log| - 1].term
  }

  function TermAt(log: seq<Entry>, index: LogIndex): Option<Term> {
    if index == 0 then Some(0)
    else if index <= |log| then Some(log[index - 1].term)
    else None
  }

  function EntriesFrom(log: seq<Entry>, index: LogIndex): seq<Entry> {
    if index == 0 then log
    else if index - 1 <= |log| then log[index - 1..]
    else []
  }

  function TruncateFrom(log: seq<Entry>, index: LogIndex): seq<Entry> {
    var keep := if index == 0 then 0 else index - 1;
    if keep < |log| then log[..keep] else log
  }

  /** Whether `entry` may extend a log: no index gap and no term regression. */
  predicate ValidSuffix(log: seq<Entry>, entry: Entry) {
    entry.index == |log| + 1 && entry.term >= LastTerm(log)
  }

  datatype Appended = Appended(log: seq<Entry>, ok: bool)

  function Append(log: seq<Entry>, entry: Entry): Appended {
    if ValidSuffix(log, entry) then Appended(log + [entry], true) else Appended(log, false)
  }

  /** Indices count up from 1 and terms never fall. */
  ghost predicate InSequence(log: seq<Entry>) {
    && (forall i :: 0 <= i < |log| ==> log[i].index == i + 1)
    && (forall i, j :: 0 <= i < j < |log| ==> log[i].term <= log[j].term)
  }

  /** An entry is appended exactly when that leaves no gap and no falling term. */
  lemma AppendKeepsSequence(log: seq<Entry>, entry: Entry)
    requires InSequence(log)
    ensures Append(log, entry).ok <==> InSequence(log + [entry])
    ensures Append(log, entry).log == if InSequence(log + [entry]) then log + [entry] else log
  {
    var longer := log + [entry];
    assert longer[|log|] == entry;
    assert log != [] ==> longer[|log| - 1] == log[|log| - 1];
    if ValidSuffix(log, entry) {
      forall i, j | 0 <= i < j < |longer| ensures longer[i].term <= longer[j].term {
        assert i < |log| - 1 ==> log[i].term <= log[|log| - 1].term;
      }
    }
  }

  /** One entry of an AppendEntries request against the local log. */
  function StoreEntry(log: seq<Entry>, entry: Entry): Appended {
    match TermAt(log, entry.index)
    case Some(existing) =>
      if existing == entry.term then Appended(log, true)
      else Append(TruncateFrom(log, entry.index), entry)
    case None => Append(log, entry)
  }

  /** All entries of an AppendEntries request, stopping at the first refusal. */
  function StoreEntries(log: seq<Entry>, entries: seq<Entry>): Appended
    decreases entries
  {
    if entries == [] then Appended(log, true)
    else
      var first := StoreEntry(log, entries[0]);
      if first.ok then StoreEntries(first.log, entries[1..]) else first
  }

  // ---- sending ----

  function Send(n: Node, to: NodeId, message: Message): Node {
    n.(outbox := n.outbox + [Envelope(to, message)])
  }

  function NextFor(n: Node, peer: NodeId): LogIndex {
    if peer in n.nextIndex then n.nextIndex[peer] else |n.log| + 1
  }

  function AppendMessage(n: Node, peer: NodeId): Message {
    var next := NextFor(n, peer);
    var prev := if next == 0 then 0 else next - 1;
    var prevTerm := match TermAt(n.log, prev) case Some(t) => t case None => 0;
    AppendEntries(n.Term(), prev, prevTerm, EntriesFrom(n.log, next), n.commitIndex)
  }

  function SendAppendTo(n: Node, peer: NodeId): Node {
    Send(n, peer, AppendMessage(n, peer))
  }

  function SendAppends(n: Node, peers: seq<NodeId>): Node
    decreases peers
  {
    if peers == [] then n else SendAppends(SendAppendTo(n, peers[0]), peers[1..])
  }

  function BroadcastAppend(n: Node): Node {
    SendAppends(n, n.config.peers)
  }

  function SendVoteRequests(n: Node, peers: seq<NodeId>): Node
    decreases peers
  {
    if peers == [] then n
    else SendVoteRequests(Send(n, peers[0], RequestVote(n.Term(), |n.log|, LastTerm(n.log))), peers[1..])
  }

  // ---- committing ----

  /** The nodes the leader believes to hold the log up to `index`. */
  function Replicated(matchIndex: map<NodeId, LogIndex>, index: LogIndex): set<NodeId> {
    set p | p in matchIndex && matchIndex[p] >= index
  }

  /** The Raft commit rule for one index. */
  predicate MayCommit(n: Node, index: LogIndex) {
    && |Replicated(n.matchIndex, index)| >= n.config.Majority()
    && TermAt(n.log, index) == Some(n.Term())
  }

  /** The highest index in `from..=|log|` the commit rule admits, or `best`. */
  function CommitScan(n: Node, from: LogIndex, best: LogIndex): (r: LogIndex)
    requires best < from
    ensures r == best || (from <= r <= |n.log| && MayCommit(n, r))
    ensures forall k :: from <= k <= |n.log| && MayCommit(n, k) ==> k <= r
    decreases |n.log| + 1 - from
  {
    if from > |n.log| then best
    else CommitScan(n, from + 1, if MayCommit(n, from) then from else best)
  }

  function SetCommit(n: Node, index: LogIndex): Node {
    n.(commitIndex := index, hard := n.hard.(commitIndex := index))
  }

  function MaybeAdvanceCommit(n: Node): Node {
    var c := CommitScan(n, n.commitIndex + 1, n.commitIndex);
    if c > n.commitIndex then SetCommit(n, c) else n
  }

  // ---- role transitions ----

  function BecomeFollower(n: Node, term: Term, leader: Option<NodeId>): Node {
    n.(hard := if term > n.Term() then n.hard.(currentTerm := term, votedFor := None) else n.hard,
       role := Follower,
       leaderId := if leader.Some? then leader else n.leaderId,
       votes := map[])
  }

  function PeerMap(peers: seq<NodeId>, index: LogIndex): map<NodeId, LogIndex> {
    map p | p in peers :: index
  }

  function StartLeading(n: Node): Node {
    n.(role := Leader,
       leaderId := Some(n.config.id),
       timers := n.timers.(heartbeatElapsed := 0),
       nextIndex := PeerMap(n.config.peers, |n.log| + 1),
       matchIndex := PeerMap(n.config.peers, 0)[n.config.id := |n.log|])
  }

  /** Append one entry of the current term to the leader's own log. */
  function LeaderAppend(n: Node, command: Command): Outcome {
    var a := Append(n.log, Entry(n.Term(), |n.log| + 1, command));
    if a.ok
    then Outcome(n.(log := a.log, matchIndex := n.matchIndex[n.config.id := |a.log|]), true)
    else Outcome(n, false)
  }

  function BecomeLeader(n: Node): Outcome {
    var a := LeaderAppend(StartLeading(n), NOOP);
    if a.ok then Outcome(BroadcastAppend(MaybeAdvanceCommit(a.node)), true) else a
  }

  function ResetElectionTimeout(n: Node, draw: nat): Node {
    var lo, hi := n.config.electionTimeoutMin, n.config.electionTimeoutMax;
    var span := (if hi > lo then hi - lo else 0) + 1;
    n.(timers := n.timers.(electionElapsed := 0, electionTimeout := lo + draw % span))
  }

  function StartCampaign(n: Node, draw: nat): Node {
    ResetElectionTimeout(
      n.(hard := n.hard.(currentTerm := n.Term() + 1, votedFor := Some(n.config.id)),
         role := Candidate,
         leaderId := None,
         votes := map[n.config.id := true]), draw)
  }

  function Campaign(n: Node, draw: nat): Node {
    var c := StartCampaign(n, draw);
    if c.config.Majority() <= 1 then BecomeLeader(c).node else SendVoteRequests(c, c.config.peers)
  }

  // ---- events ----

  function Tick(n: Node, draw: nat): Node {
    if n.role.Leader? then
      var h := n.timers.heartbeatElapsed + 1;
      if h >= n.config.heartbeatInterval
      then BroadcastAppend(n.(timers := n.timers.(heartbeatElapsed := 0)))
      else n.(timers := n.timers.(heartbeatElapsed := h))
    else
      var e := n.timers.electionElapsed + 1;
      var m := n.(timers := n.timers.(electionElapsed := e));
      if e >= n.timers.electionTimeout then Campaign(m, draw) else m
  }

  datatype Proposal = Proposed(index: LogIndex) | NotLeader(leader: Option<NodeId>) | Refused

  function ProposeNode(n: Node, command: Command): Node {
    if !n.role.Leader? then n
    else
      var a := LeaderAppend(n, command);
      if a.ok then BroadcastAppend(MaybeAdvanceCommit(a.node)) else n
  }

  function ProposeReply(n: Node, command: Command): Proposal {
    if !n.role.Leader? then NotLeader(n.leaderId)
    else if LeaderAppend(n, command).ok then Proposed(|n.log| + 1)
    else Refused
  }

  /** Whether a log ending in `(lastTerm, lastIndex)` is at least as recent as `log`. */
  predicate UpToDate(lastTerm: Term, lastIndex: LogIndex, log: seq<Entry>) {
    lastTerm > LastTerm(log) || (lastTerm == LastTerm(log) && lastIndex >= |log|)
  }

  predicate Grants(n: Node, from: NodeId, term: Term, lastLogIndex: LogIndex, lastLogTerm: Term) {
    && term >= n.Term()
    && (n.hard.votedFor.None? || n.hard.votedFor == Some(from))
    && UpToDate(lastLogTerm, lastLogIndex, n.log)
  }

  function RecordGrant(n: Node, from: NodeId): Node {
    n.(hard := n.hard.(votedFor := Some(from)), timers := n.timers.(electionElapsed := 0))
  }

  function HandleRequestVote(n: Node, from: NodeId, term: Term, lastLogIndex: LogIndex, lastLogTerm: Term): Node {
    var granted := Grants(n, from, term, lastLogIndex, lastLogTerm);
    var m := if granted then RecordGrant(n, from) else n;
    Send(m, from, RequestVoteResp(m.Term(), granted))
  }

  function YesVotes(votes: map<NodeId, bool>): set<NodeId> {
    set v | v in votes && votes[v]
  }

  function HandleVoteResp(n: Node, from: NodeId, term: Term, granted: bool): Outcome {
    if !n.role.Candidate? || term != n.Term() then Outcome(n, true)
    else
      var m := n.(votes := n.votes[from := granted]);
      if |YesVotes(m.votes)| >= m.config.Majority() then BecomeLeader(m) else Outcome(m, true)
  }

  function AdoptCommit(n: Node, leaderCommit: LogIndex): Node {
    if leaderCommit > n.commitIndex
    then SetCommit(n, if leaderCommit < |n.log| then leaderCommit else |n.log|)
    else n
  }

  function LastEntryIndex(prevLogIndex: LogIndex, entries: seq<Entry>): LogIndex {
    if entries == [] then prevLogIndex else entries[|entries| - 1].index
  }

  /** A follower that has accepted the sender as leader of the current term. */
  function FollowLeader(n: Node, from: NodeId, term: Term): Node {
    var m := BecomeFollower(n, term, Some(from));
    m.(timers := m.timers.(electionElapsed := 0))
  }

  function HandleAppendEntries(n: Node, from: NodeId, term: Term, prevLogIndex: LogIndex,
                               prevLogTerm: Term, entries: seq<Entry>, leaderCommit: LogIndex): Outcome {
    if term < n.Term() then Outcome(Send(n, from, AppendEntriesResp(n.Term(), false, 0)), true)
    else
      var m := FollowLeader(n, from, term);
      if TermAt(m.log, prevLogIndex) != Some(prevLogTerm)
      then Outcome(Send(m, from, AppendEntriesResp(m.Term(), false, 0)), true)
      else
        var stored := StoreEntries(m.log, entries);
        var s := m.(log := stored.log);
        if !stored.ok then Outcome(s, false)
        else
          var c := AdoptCommit(s, leaderCommit);
          Outcome(Send(c, from, AppendEntriesResp(c.Term(), true, LastEntryIndex(prevLogIndex, entries))), true)
  }

  function BackOff(next: LogIndex): LogIndex {
    if next <= 2 then 1 else next - 1
  }

  function HandleAppendResp(n: Node, from: NodeId, term: Term, success: bool, matchIndex: LogIndex): Node {
    if !n.role.Leader? || term != n.Term() then n
    else if success then
      MaybeAdvanceCommit(n.(matchIndex := n.matchIndex[from := matchIndex],
                            nextIndex := n.nextIndex[from := matchIndex + 1]))
    else
      SendAppendTo(n.(nextIndex := n.nextIndex[from := BackOff(NextFor(n, from))]), from)
  }

  /** Any message carrying a newer term makes the node step down and adopt it. */
  function AdoptTerm(n: Node, term: Term): Node {
    if term > n.Term() then BecomeFollower(n, term, None) else n
  }

  function Step(n: Node, from: NodeId, message: Message): Outcome {
    var m := AdoptTerm(n, message.term);
    match message
    case RequestVote(term, lastLogIndex, lastLogTerm) =>
      Outcome(HandleRequestVote(m, from, term, lastLogIndex, lastLogTerm), true)
    case RequestVoteResp(term, granted) => HandleVoteResp(m, from, term, granted)
    case AppendEntries(term, prevLogIndex, prevLogTerm, entries, leaderCommit) =>
      HandleAppendEntries(m, from, term, prevLogIndex, prevLogTerm, entries, leaderCommit)
    case AppendEntriesResp(term, success, matchIndex) =>
      Outcome(HandleAppendResp(m, from, term, success, matchIndex), true)
  }

  /** A node recovering from its storage: volatile state is lost. */
  function Recover(config: RaftConfig, log: seq<Entry>, hard: HardState, draw: nat): Node {
    ResetElectionTimeout(
      Node(config, log, hard, Follower, None, hard.commitIndex, hard.commitIndex,
           Timers(0, 0, 0), map[], map[], map[], []), draw)
  }

  function Min(a: nat, b: nat): nat {
    if a < b then a else b
  }

  /** The entries a caller takes for applying: committed and not yet taken. */
  function Taken(n: Node): seq<Entry> {
    if n.lastApplied < n.commitIndex
    then n.log[Min(n.lastApplied, |n.log|)..Min(n.commitIndex, |n.log|)]
    else []
  }

  // ---- the objects the source updates in place ----

  /** The in-memory log and hard state (`MemStorage`). */
  class MemStorage {
    var entries: seq<Entry>
    var hardState: HardState

    constructor (log: seq<Entry>, hard: HardState)
      ensures entries == log && hardState == hard
    {
      entries, hardState := log, hard;
    }

    method AppendEntry(entry: Entry) returns (ok: bool)
      modifies this
      ensures Appended(entries, ok) == Append(old(entries), entry)
      ensures hardState == old(hardState)
    {
      ok := ValidSuffix(entries, entry);
      if ok {
        entries := entries + [entry];
      }
    }

    method Truncate(index: LogIndex)
      modifies this
      ensures entries == TruncateFrom(old(entries), index)
      ensures hardState == old(hardState)
    {
      var keep := if index == 0 then 0 else index - 1;
      if keep < |entries| {
        entries := entries[..keep];
      }
    }

    method SaveHardState(hs: HardState)
      modifies this
      ensures entries == old(entries) && hardState == hs
    {
      hardState := hs;
    }
  }

  /** The node object (`RaftNode<MemStorage>`). */
  class Raft {
    const config: RaftConfig
    const storage: MemStorage
    var role: Role
    var leaderId: Option<NodeId>
    var commitIndex: LogIndex
    var lastApplied: LogIndex
    var timers: Timers
    var nextIndex: map<NodeId, LogIndex>
    var matchIndex: map<NodeId, LogIndex>
    var votes: map<NodeId, bool>
    var outbox: seq<Envelope>

    ghost function View(): Node
      reads this, storage
    {
      Node(config, storage.entries, storage.hardState, role, leaderId, commitIndex, lastApplied,
           timers, nextIndex, matchIndex, votes, outbox)
    }

    constructor (config: RaftConfig, storage: MemStorage, draw: nat)
      ensures this.config == config && this.storage == storage
      ensures View() == Recover(config, storage.entries, storage.hardState, draw)
    {
      this.config, this.storage := config, storage;
      role, leaderId := Follower, None;
      commitIndex, lastApplied := storage.hardState.commitIndex, storage.hardState.commitIndex;
      timers := Timers(0, 0, 0);
      nextIndex, matchIndex, votes, outbox := map[], map[], map[], [];
      new;
      ResetTimeout(draw);
    }

    method ResetTimeout(draw: nat)
      modifies this`timers
      ensures View() == ResetElectionTimeout(old(View()), draw)
    {
      var lo, hi := config.electionTimeoutMin, config.electionTimeoutMax;
      var span := (if hi > lo then hi - lo else 0) + 1;
      timers := timers.(electionElapsed := 0, electionTimeout := lo + draw % span);
    }

    method Enqueue(to: NodeId, message: Message)
      modifies this`outbox
      ensures View() == Send(old(View()), to, message)
    {
      outbox := outbox + [Envelope(to, message)];
    }

    method TakeMessages() returns (messages: seq<Envelope>)
      modifies this`outbox
      ensures messages == old(outbox) && View() == old(View()).(outbox := [])
    {
      messages, outbox := outbox, [];
    }

    method TakeCommitted() returns (taken: seq<Entry>)
      modifies this`lastApplied
      ensures taken == Taken(old(View()))
      ensures View() == old(View()).(lastApplied := commitIndex)
    {
      taken := [];
      var index := lastApplied + 1;
      while index <= commitIndex
        invariant lastApplied + 1 <= index
        invariant lastApplied < commitIndex ==> index <= commitIndex + 1
        invariant lastApplied >= commitIndex ==> taken == []
        invariant lastApplied < commitIndex ==>
          taken == storage.entries[Min(lastApplied, |storage.entries|)..Min(index - 1, |storage.entries|)]
      {
        if index <= |storage.entries| {
          taken := taken + [storage.entries[index - 1]];
        }
        index := index + 1;
      }
      lastApplied := commitIndex;
    }

    method SendAppend(peer: NodeId)
      modifies this`outbox
      ensures View() == SendAppendTo(old(View()), peer)
    {
      var next := if peer in nextIndex then nextIndex[peer] else |storage.entries| + 1;
      var prev := if next == 0 then 0 else next - 1;
      var found := TermAt(storage.entries, prev);
      Enqueue(peer, AppendEntries(storage.hardState.currentTerm, prev, if found.Some? then found.value else 0,
                                  EntriesFrom(storage.entries, next), commitIndex));
    }

    method Broadcast()
      modifies this`outbox
      ensures View() == BroadcastAppend(old(View()))
    {
      var i := 0;
      while i < |config.peers|
        invariant 0 <= i <= |config.peers|
        invariant SendAppends(View(), config.peers[i..]) == BroadcastAppend(old(View()))
      {
        assert config.peers[i..][1..] == config.peers[i + 1..];
        SendAppend(config.peers[i]);
        i := i + 1;
      }
    }

    method PersistCommit(index: LogIndex)
      modifies this`commitIndex, storage
      ensures View() == SetCommit(old(View()), index)
    {
      commitIndex := index;
      if storage.hardState.commitIndex != index {
        storage.SaveHardState(storage.hardState.(commitIndex := index));
      }
    }

    method AdvanceCommit()
      modifies this`commitIndex, storage
      ensures View() == MaybeAdvanceCommit(old(View()))
    {
      var n: LogIndex, newCommit: LogIndex := commitIndex + 1, commitIndex;
      while n <= |storage.entries|
        invariant newCommit < n
        invariant unchanged(this) && unchanged(storage)
        invariant CommitScan(View(), n, newCommit) == CommitScan(View(), commitIndex + 1, commitIndex)
        decreases |storage.entries| + 1 - n
      {
        if |Replicated(matchIndex, n)| >= config.Majority()
           && TermAt(storage.entries, n) == Some(storage.hardState.currentTerm) {
          newCommit := n;
        }
        n := n + 1;
      }
      if newCommit > commitIndex {
        PersistCommit(newCommit);
      }
    }

    method StepDown(term: Term, leader: Option<NodeId>)
      modifies this`role, this`leaderId, this`votes, storage
      ensures View() == BecomeFollower(old(View()), term, leader)
    {
      if term > storage.hardState.currentTerm {
        storage.SaveHardState(storage.hardState.(currentTerm := term, votedFor := None));
      }
      role := Follower;
      if leader.Some? {
        leaderId := leader;
      }
      votes := map[];
    }

    method TakeLead()
      modifies this
      ensures View() == StartLeading(old(View()))
    {
      role, leaderId := Leader, Some(config.id);
      timers := timers.(heartbeatElapsed := 0);
      var last := |storage.entries|;
      nextIndex := PeerMap(config.peers, last + 1);
      matchIndex := PeerMap(config.peers, 0)[config.id := last];
    }

    method AppendOwn(command: Command) returns (ok: bool)
      modifies this, storage
      ensures Outcome(View(), ok) == LeaderAppend(old(View()), command)
    {
      var last := |storage.entries|;
      ok := storage.AppendEntry(Entry(storage.hardState.currentTerm, last + 1, command));
      if ok {
        matchIndex := matchIndex[config.id := last + 1];
      }
    }

    method Lead() returns (ok: bool)
      modifies this, storage
      ensures Outcome(View(), ok) == BecomeLeader(old(View()))
    {
      hide MaybeAdvanceCommit, SendAppends, StartLeading, LeaderAppend;
      TakeLead();
      ok := AppendOwn(NOOP);
      if ok {
        AdvanceCommit();
        Broadcast();
      }
    }

    method Run(draw: nat)
      modifies this, storage
      ensures View() == Campaign(old(View()), draw)
    {
      storage.SaveHardState(storage.hardState.(currentTerm := storage.hardState.currentTerm + 1,
                                               votedFor := Some(config.id)));
      role, leaderId := Candidate, None;
      votes := map[config.id := true];
      ResetTimeout(draw);
      assert View() == StartCampaign(old(View()), draw);
      if config.Majority() <= 1 {
        var _ := Lead();
        return;
      }
      var i := 0;
      while i < |config.peers|
        invariant 0 <= i <= |config.peers|
        invariant SendVoteRequests(View(), config.peers[i..]) == Campaign(old(View()), draw)
      {
        assert config.peers[i..][1..] == config.peers[i + 1..];
        Enqueue(config.peers[i],
                RequestVote(storage.hardState.currentTerm, |storage.entries|, LastTerm(storage.entries)));
        i := i + 1;
      }
    }

    method Advance(draw: nat)
      modifies this, storage
      ensures View() == Tick(old(View()), draw)
    {
      if role.Leader? {
        timers := timers.(heartbeatElapsed := timers.heartbeatElapsed + 1);
        if timers.heartbeatElapsed >= config.heartbeatInterval {
          timers := timers.(heartbeatElapsed := 0);
          Broadcast();
        }
      } else {
        timers := timers.(electionElapsed := timers.electionElapsed + 1);
        if timers.electionElapsed >= timers.electionTimeout {
          Run(draw);
        }
      }
    }

    method Propose(command: Command) returns (reply: Proposal)
      modifies this, storage
      ensures View() == ProposeNode(old(View()), command)
      ensures reply == ProposeReply(old(View()), command)
    {
      if !role.Leader? {
        return NotLeader(leaderId);
      }
      var index := |storage.entries| + 1;
      var ok := AppendOwn(command);
      if !ok {
        return Refused;
      }
      AdvanceCommit();
      Broadcast();
      return Proposed(index);
    }

    method OnRequestVote(from: NodeId, term: Term, lastLogIndex: LogIndex, lastLogTerm: Term)
      modifies this, storage
      ensures View() == HandleRequestVote(old(View()), from, term, lastLogIndex, lastLogTerm)
    {
      var hs := storage.hardState;
      var granted := false;
      if term >= hs.currentTerm {
        var canVote := hs.votedFor.None? || hs.votedFor == Some(from);
        if canVote && UpToDate(lastLogTerm, lastLogIndex, storage.entries) {
          storage.SaveHardState(hs.(votedFor := Some(from)));
          timers := timers.(electionElapsed := 0);
          granted := true;
        }
      }
      Enqueue(from, RequestVoteResp(storage.hardState.currentTerm, granted));
    }

    method OnVoteResp(from: NodeId, term: Term, granted: bool) returns (ok: bool)
      modifies this, storage
      ensures Outcome(View(), ok) == HandleVoteResp(old(View()), from, term, granted)
    {
      if !role.Candidate? || term != storage.hardState.currentTerm {
        return true;
      }
      votes := votes[from := granted];
      if |YesVotes(votes)| >= config.Majority() {
        ok := Lead();
      } else {
        ok := true;
      }
    }

    method Store(entries: seq<Entry>) returns (ok: bool)
      modifies storage
      ensures Appended(storage.entries, ok) == StoreEntries(old(storage.entries), entries)
      ensures storage.hardState == old(storage.hardState)
    {
      var i := 0;
      while i < |entries|
        invariant 0 <= i <= |entries|
        invariant storage.hardState == old(storage.hardState)
        invariant StoreEntries(storage.entries, entries[i..]) == StoreEntries(old(storage.entries), entries)
      {
        var e := entries[i];
        assert entries[i..][0] == e && entries[i..][1..] == entries[i + 1..];
        var existing := TermAt(storage.entries, e.index);
        if existing.None? || existing.value != e.term {
          if existing.Some? {
            storage.Truncate(e.index);
          }
          ok := storage.AppendEntry(e);
          if !ok {
            return;
          }
        }
        i := i + 1;
      }
      return true;
    }

    method OnAppendEntries(from: NodeId, term: Term, prevLogIndex: LogIndex, prevLogTerm: Term,
                           entries: seq<Entry>, leaderCommit: LogIndex) returns (ok: bool)
      modifies this, storage
      ensures Outcome(View(), ok) ==
              HandleAppendEntries(old(View()), from, term, prevLogIndex, prevLogTerm, entries, leaderCommit)
    {
      if term < storage.hardState.currentTerm {
        Enqueue(from, AppendEntriesResp(storage.hardState.currentTerm, false, 0));
        return true;
      }
      StepDown(term, Some(from));
      timers := timers.(electionElapsed := 0);
      assert View() == FollowLeader(old(View()), from, term);
      if TermAt(storage.entries, prevLogIndex) != Some(prevLogTerm) {
        Enqueue(from, AppendEntriesResp(storage.hardState.currentTerm, false, 0));
        return true;
      }
      ok := Store(entries);
      if !ok {
        return;
      }
      if leaderCommit > commitIndex {
        PersistCommit(if leaderCommit < |storage.entries| then leaderCommit else |storage.entries|);
      }
      Enqueue(from, AppendEntriesResp(storage.hardState.currentTerm, true, LastEntryIndex(prevLogIndex, entries)));
    }

    method OnAppendResp(from: NodeId, term: Term, success: bool, matched: LogIndex)
      modifies this, storage
      ensures View() == HandleAppendResp(old(View()), from, term, success, matched)
    {
      if !role.Leader? || term != storage.hardState.currentTerm {
        return;
      }
      if success {
        matchIndex := matchIndex[from := matched];
        nextIndex := nextIndex[from := matched + 1];
        AdvanceCommit();
      } else {
        var next := if from in nextIndex then nextIndex[from] else |storage.entries| + 1;
        nextIndex := nextIndex[from := BackOff(next)];
        SendAppend(from);
      }
    }

    method Receive(from: NodeId, message: Message) returns (ok: bool)
      modifies this, storage
      ensures Outcome(View(), ok) == Step(old(View()), from, message)
    {
      if message.term > storage.hardState.currentTerm {
        StepDown(message.term, None);
      }
      assert View() == AdoptTerm(old(View()), message.term);
      ok := true;
      match message
      case RequestVote(term, lastLogIndex, lastLogTerm) =>
        OnRequestVote(from, term, lastLogIndex, lastLogTerm);
      case RequestVoteResp(term, granted) =>
        ok := OnVoteResp(from, term, granted);
      case AppendEntries(term, prevLogIndex, prevLogTerm, entries, leaderCommit) =>
        ok := OnAppendEntries(from, term, prevLogIndex, prevLogTerm, entries, leaderCommit);
      case AppendEntriesResp(term, success, matched) =>
        OnAppendResp(from, term, success, matched);
    }
  }
}
