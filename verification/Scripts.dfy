/** Runs of a deployment built move by move. */
module Scripts {
  import opened RaftNode
  import opened RaftCluster
  import opened Engines
  import opened Replication

  function Zero(): NodeId -> nat {
    (id: NodeId) => 0
  }

  const IDLE := Site(Engine(0, []), [], {})

  /** A run up to `d`. */
  ghost predicate RunTo(ds: seq<Deployment>, moves: seq<Move>, d: Deployment) {
    RunOf(Zero(), ds, moves) && ds[|moves|] == d && d.sites.Keys == d.cluster.nodes.Keys
  }

  lemma Begin(nodes: map<NodeId, Node>) returns (ds: seq<Deployment>, moves: seq<Move>, d: Deployment)
    requires Init(Cluster(nodes, {}))
    ensures RunTo(ds, moves, d) && moves == [] && d.cluster == Cluster(nodes, {}) && d.sites == map id | id in nodes :: IDLE
  {
    hide Init;
    d := Deployment(Cluster(nodes, {}), map id | id in nodes :: IDLE);
    ds, moves := [d], [];
  }

  lemma Extend(ds: seq<Deployment>, moves: seq<Move>, d: Deployment, m: Move, d': Deployment)
    returns (ds': seq<Deployment>, moves': seq<Move>)
    requires RunTo(ds, moves, d) && NextMove(Zero(), d, m, d') && d'.sites.Keys == d'.cluster.nodes.Keys
    ensures RunTo(ds', moves', d') && moves' == moves + [m]
  {
    hide NextMove;
    ds', moves' := ds + [d'], moves + [m];
  }

  /** Whose site a move may change. */
  function Mover(m: Move): NodeId {
    if m.RaftMove? then Actor(m.event) else m.id
  }

  lemma OthersStay(base: nat, id: NodeId, n: Node, s: Site, m: Move)
    requires id != Mover(m)
    ensures SiteAfter(base, id, n, s, m) == s
  {
  }

  lemma SitesAfter(d: Deployment, m: Move)
    requires d.sites.Keys == d.cluster.nodes.Keys && Mover(m) in d.sites
    ensures var id := Mover(m);
            (map x | x in d.sites :: SiteAfter(Zero()(x), x, d.cluster.nodes[x], d.sites[x], m))
            == d.sites[id := SiteAfter(0, id, d.cluster.nodes[id], d.sites[id], m)]
  {
    hide SiteAfter;
    forall x | x in d.sites && x != Mover(m) ensures SiteAfter(0, x, d.cluster.nodes[x], d.sites[x], m) == d.sites[x] {
      OthersStay(0, x, d.cluster.nodes[x], d.sites[x], m);
    }
  }

  /** A Raft event. */
  lemma Act(ds: seq<Deployment>, moves: seq<Move>, d: Deployment, e: Event)
    returns (ds': seq<Deployment>, moves': seq<Move>, d': Deployment)
    requires RunTo(ds, moves, d) && Actor(e) in d.cluster.nodes && (e.Delivered? ==> e.packet in d.cluster.sent)
    ensures RunTo(ds', moves', d') && moves' == moves + [RaftMove(e)] && Actor(e) in d.sites
    ensures var id := Actor(e);
            var n := React(d.cluster.nodes[id], e);
            && d'.cluster.nodes == d.cluster.nodes[id := n.(outbox := [])]
            && d'.cluster.sent == d.cluster.sent + Packets(id, n.outbox)
            && d'.sites == d.sites[id := SiteAfter(0, id, d.cluster.nodes[id], d.sites[id], RaftMove(e))]
  {
    hide RunOf, React, SiteAfter, Packets;
    var id := Actor(e);
    var n := React(d.cluster.nodes[id], e);
    SitesAfter(d, RaftMove(e));
    d' := Deployment(Cluster(d.cluster.nodes[id := n.(outbox := [])], d.cluster.sent + Packets(id, n.outbox)),
                     d.sites[id := SiteAfter(0, id, d.cluster.nodes[id], d.sites[id], RaftMove(e))]);
    ds', moves' := Extend(ds, moves, d, RaftMove(e), d');
  }

  /** A move of an engine or a writer. */
  lemma Work(ds: seq<Deployment>, moves: seq<Move>, d: Deployment, m: Move)
    returns (ds': seq<Deployment>, moves': seq<Move>, d': Deployment)
    requires RunTo(ds, moves, d) && !m.RaftMove? && m.id in d.sites
    ensures RunTo(ds', moves', d') && moves' == moves + [m] && d'.cluster == d.cluster
    ensures d'.sites == d.sites[m.id := SiteAfter(0, m.id, d.cluster.nodes[m.id], d.sites[m.id], m)]
  {
    hide RunOf, SiteAfter;
    SitesAfter(d, m);
    d' := d.(sites := d.sites[m.id := SiteAfter(0, m.id, d.cluster.nodes[m.id], d.sites[m.id], m)]);
    ds', moves' := Extend(ds, moves, d, m, d');
  }

  lemma PacketOf(from: NodeId, outbox: seq<Envelope>, e: Envelope)
    requires e in outbox
    ensures Packet(from, e.to, e.message) in Packets(from, outbox)
  {
  }
}
