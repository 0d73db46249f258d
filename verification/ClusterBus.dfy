/**
 The cluster as a transition system: one Server per node, a multiset of packets in
 flight that may be delayed, reordered or lost, and one step per handler. Every run of
 it keeps epoch dominance: no config epoch, stored or in flight, is ahead of the
 current epoch stored or sent with it.
 */
module ClusterBus {
  import opened ClusterNode

  datatype System = System(servers: map<NodeId, Server>, net: multiset<Packet>)

  datatype Label =
    | Deliver(p: Packet, now: int)                                    // clusterProcessPacket
    | Drop(p: Packet)                                                 // the link broke
    | SendPing(n: NodeId, to: NodeId, pong: bool)                     // clusterCron, clusterBroadcastPong
    | Failover(n: NodeId, situation: Situation)                       // clusterHandleSlaveFailover
    | SetSlot(n: NodeId, slot: nat, owner: NodeId, keys: nat, maxEpoch: nat) // CLUSTER SETSLOT NODE
    | Flag(n: NodeId, m: NodeId, failed: bool)                        // failure detection, from gossip
    | UpdateState(n: NodeId)                                          // clusterUpdateState

  function Actor(l: Label): NodeId {
    match l
    case Deliver(p, _) => p.to
    case Drop(p) => p.to
    case SendPing(n, _, _) => n
    case Failover(n, _) => n
    case SetSlot(n, _, _, _, _) => n
    case Flag(n, _, _) => n
    case UpdateState(n) => n
  }

  function Consumed(l: Label): multiset<Packet> {
    match l
    case Deliver(p, _) => multiset{p}
    case Drop(p) => multiset{p}
    case _ => multiset{}
  }

  /** The step can be taken by a node in state s. */
  predicate LocallyEnabled(s: Server, l: Label) {
    match l
    case Deliver(p, _) => PacketWellFormed(p) && p.sender != s.myself
    case SendPing(_, to, _) => to in s.nodes && to != s.myself
    case SetSlot(_, slot, _, _, maxEpoch) => slot < CLUSTER_SLOTS && KnownMax(s, maxEpoch)
    case Flag(_, m, _) => m in s.nodes && m != s.myself
    case _ => true
  }

  /** What the acting node does: its new state and the packets it sends. */
  ghost function Local(s: Server, l: Label, cfg: Config): (r: (Server, multiset<Packet>))
    requires WellFormed(s) && LocallyEnabled(s, l)
  {
    match l
    case Deliver(p, now) => ProcessPacket(s, p, now, cfg)
    case Drop(_) => (s, multiset{})
    case SendPing(_, to, pong) => (s, multiset{Header(s, if pong then Pong else Ping, to)})
    case Failover(_, e) =>
      var (s1, outcome) := HandleSlaveFailover(s, e, cfg);
      (s1, if outcome.Requested? then Broadcast(s1, AuthRequest(e.mfEnd)) else multiset{})
    case SetSlot(_, slot, owner, keys, maxEpoch) =>
      var r := SetSlotNode(s, slot, owner, keys, maxEpoch);
      (if r.Done? then r.server else s, multiset{})
    case Flag(_, m, failed) => (s.(nodes := s.nodes[m := s.nodes[m].(failed := failed)]), multiset{})
    case UpdateState(_) => (s.(size := ClusterSize(s)), multiset{})
  }

  ghost predicate SystemWellFormed(a: System) {
    && (forall n :: n in a.servers ==> ServerInPlace(a, n))
    && (forall p :: p in a.net ==> PacketInPlace(a, p))
  }

  ghost predicate ServerInPlace(a: System, n: NodeId)
    requires n in a.servers
  {
    && WellFormed(a.servers[n])
    && a.servers[n].myself == n
    && a.servers[n].nodes.Keys <= a.servers.Keys
  }

  predicate PacketInPlace(a: System, p: Packet) {
    PacketWellFormed(p) && p.sender in a.servers && p.to in a.servers && p.sender != p.to
  }

  ghost predicate Enabled(a: System, l: Label)
    requires SystemWellFormed(a)
  {
    Actor(l) in a.servers && Consumed(l) <= a.net && LocallyEnabled(a.servers[Actor(l)], l)
  }

  ghost function Apply(a: System, l: Label, cfg: Config): System
    requires SystemWellFormed(a) && Enabled(a, l)
  {
    var (s, sent) := Local(a.servers[Actor(l)], l, cfg);
    System(a.servers[Actor(l) := s], a.net - Consumed(l) + sent)
  }

  /** states[i] becomes states[i + 1] by labels[i]. */
  ghost predicate IsRun(states: seq<System>, labels: seq<Label>, cfg: Config) {
    && |states| == |labels| + 1
    && SystemWellFormed(states[0])
    && forall i :: 0 <= i < |labels| ==> IsStep(states[i], labels[i], states[i + 1], cfg)
  }

  ghost predicate IsStep(a: System, l: Label, b: System, cfg: Config) {
    SystemWellFormed(a) && Enabled(a, l) && b == Apply(a, l, cfg)
  }

  /** A step changes one server, and only by what the handler does. */
  lemma StepIsLocal(a: System, l: Label, b: System, cfg: Config)
    requires IsStep(a, l, b, cfg)
    ensures Actor(l) in a.servers && WellFormed(a.servers[Actor(l)]) && LocallyEnabled(a.servers[Actor(l)], l)
    ensures b.servers == a.servers[Actor(l) := Local(a.servers[Actor(l)], l, cfg).0]
  {
    hide Local, WellFormed, LocallyEnabled;
    assert ServerInPlace(a, Actor(l));
  }

  // ----- epoch dominance

  ghost predicate Dominated(s: Server) {
    && (forall m :: m in s.nodes ==> s.nodes[m].configEpoch <= s.currentEpoch)
    && s.authEpoch <= s.currentEpoch
    && s.lastVoteEpoch <= s.currentEpoch
  }

  predicate PacketDominated(p: Packet) {
    p.configEpoch <= p.currentEpoch && (p.kind.Update? ==> p.kind.epoch <= p.currentEpoch)
  }

  ghost predicate Dominance(a: System) {
    && (forall n :: n in a.servers ==> Dominated(a.servers[n]))
    && (forall p :: p in a.net ==> PacketDominated(p))
  }

  /** A packet a node in state s may put on the bus. */
  predicate SentBy(s: Server, p: Packet) {
    && PacketWellFormed(p)
    && PacketDominated(p)
    && p.sender == s.myself
    && p.to in s.nodes
    && p.to != s.myself
  }

  lemma HeaderSentBy(s: Server, kind: Kind, to: NodeId)
    requires WellFormed(s) && Dominated(s) && to in s.nodes && to != s.myself
    requires kind.Update? ==> kind.epoch <= s.currentEpoch && |kind.claims| == CLUSTER_SLOTS
    ensures SentBy(s, Header(s, kind, to))
  {
  }

  /** What one step keeps, seen from the acting node. */
  ghost predicate LocalKeeps(s: Server, r: (Server, multiset<Packet>)) {
    && WellFormed(r.0)
    && Dominated(r.0)
    && r.0.myself == s.myself
    && r.0.nodes.Keys == s.nodes.Keys
    && s.currentEpoch <= r.0.currentEpoch
    && s.authEpoch <= r.0.authEpoch
    && (forall m :: m in s.nodes ==> s.nodes[m].configEpoch <= r.0.nodes[m].configEpoch)
    && (forall p :: p in r.1 ==> SentBy(r.0, p))
  }

  lemma CorrectionSentBy(s: Server, p: Packet, cfg: Config, q: Packet)
    requires WellFormed(s) && Dominated(s) && PacketWellFormed(p) && p.sender in s.nodes && p.sender != s.myself
    requires q in Correction(s, p, cfg)
    ensures SentBy(s, q)
  {
    hide Header, Dirty, ObserveClaims, NewerOwner;
    var s2 := ObserveClaims(s, p, cfg);
    assert Dominated(s2);
    var n := NewerOwner(s2, p, 0).value;
    HeaderSentBy(s2, Update(n, s2.nodes[n].configEpoch, BitsOf(s2.slots, n)), p.sender);
  }

  lemma ProcessPingKeeps(s: Server, p: Packet, cfg: Config)
    requires WellFormed(s) && Dominated(s) && PacketWellFormed(p)
    requires p.sender in s.nodes && p.sender != s.myself && p.configEpoch <= s.currentEpoch
    ensures LocalKeeps(s, ProcessPing(s, p, cfg))
  {
    hide Header, ObserveClaims, Correction;
    var (s3, sent) := ProcessPing(s, p, cfg);
    assert WellFormed(s3) && Dominated(s3) && s3.nodes.Keys == s.nodes.Keys;
    HeaderSentBy(s, Pong, p.sender);
    forall q | q in sent ensures SentBy(s3, q) {
      if q in Correction(s, p, cfg) {
        CorrectionSentBy(s, p, cfg, q);
      }
    }
  }

  lemma VoteKeeps(s: Server, p: Packet, now: int, cfg: Config)
    requires WellFormed(s) && Dominated(s) && PacketWellFormed(p) && p.kind.AuthRequest?
    requires p.sender in s.nodes && p.sender != s.myself
    ensures LocalKeeps(s, Vote(s, p, now, cfg))
  {
    hide Header, GrantsVote;
    var (s1, _) := Vote(s, p, now, cfg);
    HeaderSentBy(s1, AuthAck, p.sender);
  }

  lemma ProcessUpdateKeeps(s: Server, p: Packet, cfg: Config)
    requires WellFormed(s) && Dominated(s) && PacketWellFormed(p) && p.kind.Update?
    requires p.kind.epoch <= s.currentEpoch
    ensures LocalKeeps(s, (ProcessUpdate(s, p, cfg), multiset{}))
  {
    hide SetNodeAsMaster, UpdateSlots;
  }

  lemma ProcessPacketKeeps(s: Server, p: Packet, now: int, cfg: Config)
    requires WellFormed(s) && Dominated(s) && PacketWellFormed(p) && PacketDominated(p)
    requires p.sender != s.myself
    ensures LocalKeeps(s, ProcessPacket(s, p, now, cfg))
  {
    hide ProcessPing, Vote, ProcessUpdate, CountsAck;
    if p.sender in s.nodes {
      var s1 := ObserveEpochs(s, p);
      assert WellFormed(s1) && Dominated(s1);
      match p.kind
      case Ping => ProcessPingKeeps(s1, p, cfg);
      case Pong => ProcessPingKeeps(s1, p, cfg);
      case AuthRequest(_) => VoteKeeps(s1, p, now, cfg);
      case Update(_, _, _) => ProcessUpdateKeeps(s1, p, cfg);
      case _ =>
    }
  }

  lemma BroadcastSentBy(s: Server, kind: Kind)
    requires WellFormed(s) && Dominated(s) && !kind.Update?
    ensures forall p :: p in Broadcast(s, kind) ==> SentBy(s, p)
  {
    hide Header, WellFormed, Dominated;
    forall m | m in s.nodes && m != s.myself ensures SentBy(s, Header(s, kind, m)) {
      HeaderSentBy(s, kind, m);
    }
  }

  lemma FailoverKeeps(s: Server, e: Situation, cfg: Config)
    requires WellFormed(s) && Dominated(s)
    ensures LocalKeeps(s, (HandleSlaveFailover(s, e, cfg).0, multiset{}))
  {
    hide ReplaceMaster, CanFailover, AuthTimeout;
  }

  lemma SetSlotKeeps(s: Server, slot: nat, owner: NodeId, keys: nat, maxEpoch: nat)
    requires WellFormed(s) && Dominated(s) && slot < CLUSTER_SLOTS
    ensures var r := SetSlotNode(s, slot, owner, keys, maxEpoch);
            r.Done? ==> LocalKeeps(s, (r.server, multiset{}))
  {
    hide PeerWellFormed;
    var r := SetSlotNode(s, slot, owner, keys, maxEpoch);
    if r.Done? {
      assert WellFormed(r.server);
      hide WellFormed;
    }
  }

  lemma LocalStepKeeps(s: Server, l: Label, cfg: Config)
    requires WellFormed(s) && Dominated(s) && LocallyEnabled(s, l)
    requires l.Deliver? ==> PacketDominated(l.p)
    ensures LocalKeeps(s, Local(s, l, cfg))
  {
    hide ProcessPacket, HandleSlaveFailover, Broadcast, SetSlotNode, ClusterSize;
    match l
    case Deliver(p, now) => ProcessPacketKeeps(s, p, now, cfg);
    case Failover(_, e) =>
      FailoverKeeps(s, e, cfg);
      BroadcastSentBy(HandleSlaveFailover(s, e, cfg).0, AuthRequest(e.mfEnd));
    case SetSlot(_, slot, owner, keys, maxEpoch) => SetSlotKeeps(s, slot, owner, keys, maxEpoch);
    case SendPing(_, to, pong) => HeaderSentBy(s, if pong then Pong else Ping, to);
    case _ =>
  }

  lemma StepKeepsDominance(a: System, l: Label, b: System, cfg: Config)
    requires IsStep(a, l, b, cfg) && Dominance(a)
    ensures SystemWellFormed(b) && Dominance(b)
  {
    hide Local, WellFormed, Dominated, PacketWellFormed, LocallyEnabled, PacketDominated;
    var n := Actor(l);
    var s := a.servers[n];
    assert ServerInPlace(a, n);
    LocalStepKeeps(s, l, cfg);
    ReplaceServer(a, n, Local(s, l, cfg), Consumed(l), b);
  }

  /** Replacing one server by what a step made of it, and adding what it sent, keeps the invariant. */
  lemma ReplaceServer(a: System, n: NodeId, r: (Server, multiset<Packet>), consumed: multiset<Packet>, b: System)
    requires SystemWellFormed(a) && Dominance(a) && n in a.servers && LocalKeeps(a.servers[n], r)
    requires b == System(a.servers[n := r.0], a.net - consumed + r.1)
    ensures SystemWellFormed(b) && Dominance(b)
  {
    hide LocalKeeps, WellFormed, Dominated, PacketWellFormed, PacketDominated;
    forall m | m in b.servers ensures ServerInPlace(b, m) && Dominated(b.servers[m]) {
      assert ServerInPlace(a, m) && Dominated(a.servers[m]);
      KeptServer(a.servers[n], r);
    }
    forall p | p in b.net ensures PacketInPlace(b, p) && PacketDominated(p) {
      if p in a.net {
        assert PacketInPlace(a, p) && PacketDominated(p);
      } else {
        KeptServer(a.servers[n], r);
        SentPacket(a.servers[n], r, p);
        assert ServerInPlace(a, n);
      }
    }
  }

  lemma KeptServer(s: Server, r: (Server, multiset<Packet>))
    requires LocalKeeps(s, r)
    ensures WellFormed(r.0) && Dominated(r.0) && r.0.myself == s.myself && r.0.nodes.Keys == s.nodes.Keys
  {
  }

  lemma SentPacket(s: Server, r: (Server, multiset<Packet>), p: Packet)
    requires LocalKeeps(s, r) && p in r.1
    ensures SentBy(r.0, p)
  {
  }

  /** Epoch dominance holds in every state of every run that starts with it. */
  lemma {:induction false} DominanceInEveryRun(states: seq<System>, labels: seq<Label>, cfg: Config, i: nat)
    requires IsRun(states, labels, cfg) && Dominance(states[0])
    requires i < |states|
    ensures SystemWellFormed(states[i]) && Dominance(states[i])
  {
    hide IsStep, SystemWellFormed, Dominance;
    if i > 0 {
      DominanceInEveryRun(states, labels, cfg, i - 1);
      StepKeepsDominance(states[i - 1], labels[i - 1], states[i], cfg);
    }
  }

  /** e is newer than every epoch the node has stored. */
  ghost predicate NewLocally(s: Server, e: nat) {
    && s.currentEpoch < e
    && s.authEpoch < e
    && s.lastVoteEpoch < e
    && forall m :: m in s.nodes ==> s.nodes[m].configEpoch < e
  }

  /** Whatever epoch s takes without consensus, on a collision or on a bump, is new to it. */
  ghost predicate TakesOnlyNewEpochs(s: Server)
    requires s.myself in s.nodes
  {
    && (forall m :: m in s.nodes && Collides(s, m)
          ==> NewLocally(s, HandleCollision(s, m).nodes[s.myself].configEpoch))
    && (forall e: nat :: KnownMax(s, e) && BumpConfigEpoch(s, e) != s
          ==> NewLocally(s, BumpConfigEpoch(s, e).nodes[s.myself].configEpoch))
    && (forall e: nat :: KnownMax(s, e) && BumpConfigEpoch(s, e) == s
          ==> s.nodes[s.myself].configEpoch == e == s.currentEpoch)
  }

  lemma DominatedTakesOnlyNewEpochs(s: Server)
    requires s.myself in s.nodes && Dominated(s)
    ensures TakesOnlyNewEpochs(s)
  {
  }

  /**
   In every reachable state a node that gives itself a config epoch without consensus,
   on a collision or on closing an imported slot, gets one newer than every epoch it
   knows; and it declines to only when it already has the greatest.
   */
  lemma UnilateralEpochIsNew(states: seq<System>, labels: seq<Label>, cfg: Config, i: nat, n: NodeId)
    requires IsRun(states, labels, cfg) && Dominance(states[0]) && i < |states|
    requires n in states[i].servers
    ensures var s := states[i].servers[n]; s.myself in s.nodes && TakesOnlyNewEpochs(s)
  {
    hide IsRun, TakesOnlyNewEpochs;
    DominanceInEveryRun(states, labels, cfg, i);
    assert ServerInPlace(states[i], n);
    DominatedTakesOnlyNewEpochs(states[i].servers[n]);
  }
}
