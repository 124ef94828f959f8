/** The single-node cluster the server runs (crates/auradb-replication/src/node.rs): every write is
    proposed, committed at once by the lone voter, and applied to the engine; a crash may fall
    between the two, and bootstrapping replays the log. */
module SingleNode {
  import opened Wrappers
  import opened RaftNode
  import opened SoleVoter
  import opened Engines

  datatype Local = Local(node: Node, engine: Engine)

  /** `bootstrap`: recover the node from its storage, campaign, drain, and replay into the engine. */
  function Bootstrap(base: nat, s: Local, draw: nat): Local {
    var n := Campaign(Recover(s.node.config, s.node.log, s.node.hard, draw), draw);
    var m := n.(lastApplied := n.commitIndex, outbox := []);
    Local(m, Replay(base, s.engine, m.log[..Min(m.commitIndex, |m.log|)]))
  }

  /** `replicate`: propose and drain; the drained entries are dropped, as the engine applies inline. */
  function Replicated(s: Local, command: Command): Local {
    var n := ProposeNode(s.node, command);
    s.(node := n.(lastApplied := n.commitIndex, outbox := []))
  }

  /** A committed batch: replicate it, then apply it at the index it was given. */
  function Write(base: nat, s: Local, command: Command): Local {
    var r := Replicated(s, command);
    if r.node.log == [] then r
    else r.(engine := ApplyEntry(base, r.engine, r.node.log[|r.node.log| - 1]))
  }

  /** A write, a write the process dies in after its entry is durable, or a plain restart. */
  datatype Op = Wrote(command: Command) | Crashed(command: Command, draw: nat) | Rebooted(draw: nat)

  function Apply(base: nat, s: Local, op: Op): Local {
    match op
    case Wrote(c) => Write(base, s, c)
    case Crashed(c, draw) => Bootstrap(base, Replicated(s, c), draw)
    case Rebooted(draw) => Bootstrap(base, s, draw)
  }

  function RunOps(base: nat, s: Local, ops: seq<Op>): Local {
    if ops == [] then s else Apply(base, RunOps(base, s, ops[..|ops| - 1]), ops[|ops| - 1])
  }

  /** The commands of the writes that reached the log. */
  function Accepted(ops: seq<Op>): seq<Command> {
    if ops == [] then []
    else Accepted(ops[..|ops| - 1]) + (if ops[|ops| - 1].Rebooted? then [] else [ops[|ops| - 1].command])
  }

  function Commands(entries: seq<Entry>): seq<Command> {
    seq(|entries|, i requires 0 <= i < |entries| => entries[i].command)
  }

  /** A serving node: it leads, all it logged is committed, and the engine holds all of its writes. */
  ghost predicate Serving(base: nat, s: Local) {
    && Settled(s.node) && Indexed(s.node.log) && s.node.outbox == [] && s.node.lastApplied == s.node.commitIndex
    && HoldsTo(base, s.engine, s.node.log, |s.node.log|)
  }

  /** What a crash can leave behind: durable and committed, perhaps ahead of the engine. */
  ghost predicate Durable(base: nat, s: Local) {
    && s.node.config.peers == [] && LastTerm(s.node.log) <= s.node.Term() && s.node.hard.commitIndex <= |s.node.log|
    && Indexed(s.node.log) && Holds(base, s.engine, s.node.log)
  }

  lemma ServingIsDurable(base: nat, s: Local)
    requires Serving(base, s)
    ensures Durable(base, s)
  {
  }

  lemma IndexedSnoc(log: seq<Entry>, e: Entry)
    requires Indexed(log) && e.index == |log| + 1
    ensures Indexed(log + [e])
  {
  }

  /** Whatever a crash left, bootstrapping brings every logged write into the engine. */
  lemma BootstrapServes(base: nat, s: Local, draw: nat)
    requires Durable(base, s)
    ensures Serving(base, Bootstrap(base, s, draw)) && Writes(Bootstrap(base, s, draw).node.log) == Writes(s.node.log)
  {
    hide Campaign, Holds, Replay, HoldsTo;
    var n0 := Recover(s.node.config, s.node.log, s.node.hard, draw);
    SoleCampaign(n0, draw);
    var n := Campaign(n0, draw);
    var e := Entry(n0.Term() + 1, |n0.log| + 1, NOOP);
    IndexedSnoc(s.node.log, e);
    assert n.log == s.node.log + [e];
    WritesSnoc(n.log, |s.node.log|);
    assert n.log[..|s.node.log|] == s.node.log && n.log[..|n.log|] == n.log;
    HoldsGrows(base, s.engine, s.node.log, n.log);
    ReplayCompletes(base, s.engine, n.log, |n.log|);
    WatermarkBelow(base, s.engine, s.node.log);
  }

  lemma WatermarkBelow(base: nat, e: Engine, log: seq<Entry>)
    requires Holds(base, e, log)
    ensures e.watermark - base <= |log|
  {
  }

  lemma ReplicatedIsDurable(base: nat, s: Local, command: Command)
    requires Serving(base, s)
    ensures var r := Replicated(s, command);
            var e := Entry(s.node.Term(), |s.node.log| + 1, command);
            && Durable(base, r) && Settled(r.node) && r.node.log == s.node.log + [e] && r.engine == s.engine
            && r.node.outbox == [] && r.node.lastApplied == r.node.commitIndex
  {
    hide ProposeNode, Holds;
    SolePropose(s.node, command);
    IndexedSnoc(s.node.log, Entry(s.node.Term(), |s.node.log| + 1, command));
    HoldsGrows(base, s.engine, s.node.log, ProposeNode(s.node, command).log);
  }

  lemma WriteServes(base: nat, s: Local, command: Command)
    requires Serving(base, s)
    ensures var w := Write(base, s, command);
            Serving(base, w) && w.node.log == s.node.log + [Entry(s.node.Term(), |s.node.log| + 1, command)]
  {
    hide Replicated, ApplyEntry, Settled;
    ReplicatedIsDurable(base, s, command);
    var r := Replicated(s, command);
    GrowsTo(base, s.engine, s.node.log, r.node.log);
    ApplyNext(base, s.engine, r.node.log, |s.node.log|);
  }

  lemma GrowsTo(base: nat, e: Engine, log: seq<Entry>, log': seq<Entry>)
    requires HoldsTo(base, e, log, |log|) && log <= log'
    ensures HoldsTo(base, e, log', |log|)
  {
    HoldsGrows(base, e, log, log');
    assert log'[..|log|] == log[..|log|];
  }

  /** After every run of writes, crashes and restarts of the lone node, its engine holds exactly the
      accepted writes: each once, in the order they were accepted. */
  lemma {:induction false} EveryWriteArrives(base: nat, s: Local, ops: seq<Op>)
    requires Serving(base, s) && s.engine.applied == []
    requires forall op :: op in ops && !op.Rebooted? ==> op.command != NOOP
    ensures Serving(base, RunOps(base, s, ops))
    ensures Commands(RunOps(base, s, ops).engine.applied) == Accepted(ops)
  {
    hide Apply, Serving;
    if ops != [] {
      var front := ops[..|ops| - 1];
      EveryWriteArrives(base, s, front);
      OpArrives(base, RunOps(base, s, front), ops[|ops| - 1]);
    }
  }

  lemma OpArrives(base: nat, s: Local, op: Op)
    requires Serving(base, s) && (!op.Rebooted? ==> op.command != NOOP)
    ensures Serving(base, Apply(base, s, op))
    ensures Commands(Apply(base, s, op).engine.applied)
            == Commands(s.engine.applied) + (if op.Rebooted? then [] else [op.command])
  {
    hide Bootstrap, Write, Replicated, Serving, Durable, Settled, Writes, Commands;
    var s' := Apply(base, s, op);
    ServesAll(base, s);
    match op
    case Rebooted(draw) =>
      ServingIsDurable(base, s);
      BootstrapServes(base, s, draw);
      ServesAll(base, s');
    case Crashed(c, draw) =>
      var r := Replicated(s, c);
      ReplicatedIsDurable(base, s, c);
      BootstrapServes(base, r, draw);
      ServesAll(base, s');
      OneMoreWrite(s.node.log, r.node.log);
      OneMoreCommand(s.engine.applied, r.node.log[|s.node.log|]);
    case Wrote(c) =>
      WriteServes(base, s, c);
      ServesAll(base, s');
      OneMoreWrite(s.node.log, s'.node.log);
      OneMoreCommand(s.engine.applied, s'.node.log[|s.node.log|]);
  }

  lemma ServesAll(base: nat, s: Local)
    requires Serving(base, s)
    ensures s.engine.applied == Writes(s.node.log)
  {
    hide Writes;
    assert s.node.log[..|s.node.log|] == s.node.log;
  }

  lemma OneMoreCommand(entries: seq<Entry>, e: Entry)
    ensures Commands(entries + [e]) == Commands(entries) + [e.command]
  {
  }

  lemma OneMoreWrite(log: seq<Entry>, log': seq<Entry>)
    requires |log'| == |log| + 1 && log' == log + [log'[|log|]] && log'[|log|].command != NOOP
    ensures Writes(log') == Writes(log) + [log'[|log|]]
  {
    assert log'[..|log|] == log;
  }

  /** A fresh data directory serves after its first bootstrap, with nothing applied. */
  lemma FreshServes(base: nat, config: RaftConfig, draw: nat)
    requires config.peers == []
    ensures var s := Bootstrap(base, Local(Recover(config, [], HardState(0, None, 0), draw), Engine(base, [])), draw);
            Serving(base, s) && s.engine.applied == []
  {
    hide Bootstrap;
    var s := Local(Recover(config, [], HardState(0, None, 0), draw), Engine(base, []));
    assert Durable(base, s);
    BootstrapServes(base, s, draw);
    var b := Bootstrap(base, s, draw);
    assert b.node.log[..|b.node.log|] == b.node.log;
  }
}
