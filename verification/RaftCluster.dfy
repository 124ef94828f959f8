/** A cluster of Raft nodes over an unreliable network.

    Every message a node ever queued stays in `sent` and may be delivered at any later
    time, any number of times or never: loss, duplication, reordering and partitions
    are all runs of this system.  A node may also crash and recover from its storage. */
module RaftCluster {
  import opened Sequences
  import opened Wrappers
  import opened RaftNode

  datatype Packet = Packet(from: NodeId, to: NodeId, message: Message)

  datatype Cluster = Cluster(nodes: map<NodeId, Node>, sent: set<Packet>)

  datatype Event =
    | Ticked(id: NodeId, draw: nat)
    | Campaigned(id: NodeId, draw: nat)
    | ProposedAt(id: NodeId, command: Command)
    | Delivered(packet: Packet)
    | Restarted(id: NodeId, draw: nat)
    | TookCommitted(id: NodeId)

  /** Every node's peers are the other voters, each listed once. */
  ghost predicate ConfigOk(config: RaftConfig, id: NodeId, voters: set<NodeId>) {
    && config.id == id
    && id in voters
    && NoRepeats(config.peers)
    && Elements(config.peers) == voters - {id}
  }

  ghost predicate Fresh(n: Node) {
    exists draw: nat :: n == Recover(n.config, [], HardState(0, None, 0), draw)
  }

  ghost predicate Init(c: Cluster) {
    && c.sent == {}
    && forall id :: id in c.nodes ==> ConfigOk(c.nodes[id].config, id, c.nodes.Keys) && Fresh(c.nodes[id])
  }

  function Actor(e: Event): NodeId {
    if e.Delivered? then e.packet.to else e.id
  }

  /** The state the acting node is left in, its queued messages not yet collected. */
  function React(n: Node, e: Event): Node {
    match e
    case Ticked(_, draw) => Tick(n, draw)
    case Campaigned(_, draw) => Campaign(n, draw)
    case ProposedAt(_, command) => ProposeNode(n, command)
    case Delivered(p) => Step(n, p.from, p.message).node
    case Restarted(_, draw) => Recover(n.config, n.log, n.hard, draw)
    case TookCommitted(_) => n.(lastApplied := n.commitIndex)
  }

  function Packets(from: NodeId, outbox: seq<Envelope>): set<Packet> {
    set e | e in outbox :: Packet(from, e.to, e.message)
  }

  ghost predicate Next(c: Cluster, e: Event, c': Cluster) {
    var id := Actor(e);
    && id in c.nodes
    && (e.Delivered? ==> e.packet in c.sent)
    && var n := React(c.nodes[id], e);
       && c'.nodes == c.nodes[id := n.(outbox := [])]
       && c'.sent == c.sent + Packets(id, n.outbox)
  }

  /** A run: consecutive states are related by one event. */
  ghost predicate Run(states: seq<Cluster>, events: seq<Event>) {
    && |states| == |events| + 1
    && Init(states[0])
    && forall i :: 0 <= i < |events| ==> Next(states[i], events[i], states[i + 1])
  }
}
