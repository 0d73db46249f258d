/**
 The state of one cluster node and what every handler of the cluster bus does to it,
 on values. A node name is a fixed-length byte string compared with memcmp, so it is
 modelled by the number it spells; a pointer to a node is that node's name.

 The slot table is the only record of slot ownership here. The per-node bitmaps and
 slot counters of the program are kept by the class in ClusterServer.dfy, which proves
 that they always agree with the table.
 */
module ClusterNode {
  import opened Prelude

  type NodeId = nat

  const CLUSTER_SLOTS: nat := 16384

  datatype Peer = Peer(
    master: bool,
    slaveof: Option<NodeId>,
    failed: bool,
    configEpoch: nat,
    votedTime: int)

  datatype Server = Server(
    myself: NodeId,
    currentEpoch: nat,
    lastVoteEpoch: nat,
    nodes: map<NodeId, Peer>,
    slots: seq<Option<NodeId>>,
    importing: seq<Option<NodeId>>,
    migrating: seq<Option<NodeId>>,
    size: nat,
    authTime: int,
    authCount: nat,
    authSent: bool,
    authEpoch: nat)

  datatype Config = Config(nodeTimeout: int, noRedirection: bool, allowReplicaMigration: bool)

  datatype Kind =
    | Ping
    | Pong
    | AuthRequest(forceAck: bool)
    | AuthAck
    | Update(about: NodeId, epoch: nat, claims: seq<bool>)
    | Other

  datatype Packet = Packet(
    kind: Kind,
    sender: NodeId,
    to: NodeId,
    currentEpoch: nat,
    configEpoch: nat,
    slots: seq<bool>,
    slaveof: Option<NodeId>)

  /** Every pointer resolves, and a replica knows its master. */
  ghost predicate WellFormed(s: Server) {
    && |s.slots| == |s.importing| == |s.migrating| == CLUSTER_SLOTS
    && s.myself in s.nodes
    && (forall j :: 0 <= j < |s.slots| && s.slots[j].Some? ==> s.slots[j].value in s.nodes)
    && (forall m :: m in s.nodes ==> PeerWellFormed(s.nodes.Keys, s.nodes[m]))
    && (s.nodes[s.myself].master || s.nodes[s.myself].slaveof.Some?)
  }

  predicate PeerWellFormed(known: set<NodeId>, p: Peer) {
    && (p.master ==> p.slaveof.None?)
    && (p.slaveof.Some? ==> p.slaveof.value in known)
  }

  predicate PacketWellFormed(p: Packet) {
    && |p.slots| == CLUSTER_SLOTS
    && (p.kind.Update? ==> |p.kind.claims| == CLUSTER_SLOTS)
  }

  /** The fields the election and the epochs live in, apart from the peers' records. */
  predicate SameElection(s: Server, r: Server) {
    && r.myself == s.myself
    && r.currentEpoch == s.currentEpoch
    && r.lastVoteEpoch == s.lastVoteEpoch
    && r.authCount == s.authCount
    && r.authSent == s.authSent
    && r.authEpoch == s.authEpoch
  }

  ghost predicate SameConfigEpochs(s: Server, r: Server) {
    && r.nodes.Keys == s.nodes.Keys
    && forall m :: m in s.nodes ==> r.nodes[m].configEpoch == s.nodes[m].configEpoch
  }

  // ----- reading the slot table

  /** node->slots: the bitmap of the slots bound to id. */
  function BitsOf(slots: seq<Option<NodeId>>, id: NodeId): (r: seq<bool>)
    ensures |r| == |slots|
    ensures forall j :: 0 <= j < |r| ==> r[j] == (slots[j] == Some(id))
  {
    seq(|slots|, j requires 0 <= j < |slots| => slots[j] == Some(id))
  }

  /** node->numslots */
  function NumSlots(slots: seq<Option<NodeId>>, id: NodeId): nat {
    Count(slots, Some(id))
  }

  // ----- outgoing packets

  /** A replica speaks for its master. */
  function Spokesman(s: Server): (m: NodeId)
    requires WellFormed(s)
    ensures m in s.nodes
  {
    var me := s.nodes[s.myself];
    if !me.master && me.slaveof.Some? then me.slaveof.value else s.myself
  }

  function Header(s: Server, kind: Kind, to: NodeId): (p: Packet)
    requires WellFormed(s)
  {
    var m := Spokesman(s);
    Packet(kind, s.myself, to, s.currentEpoch, s.nodes[m].configEpoch, BitsOf(s.slots, m),
           s.nodes[s.myself].slaveof)
  }

  function Broadcast(s: Server, kind: Kind): multiset<Packet>
    requires WellFormed(s)
  {
    multiset(set m | m in s.nodes.Keys && m != s.myself :: Header(s, kind, m))
  }

  // ----- config epochs

  predicate KnownMax(s: Server, e: nat) {
    && s.currentEpoch <= e
    && (forall m | m in s.nodes :: s.nodes[m].configEpoch <= e)
    && (e == s.currentEpoch || exists m | m in s.nodes :: s.nodes[m].configEpoch == e)
  }

  function WithEpoch(s: Server, m: NodeId, e: nat): (r: Server)
    requires m in s.nodes
    ensures r.nodes.Keys == s.nodes.Keys
  {
    s.(nodes := s.nodes[m := s.nodes[m].(configEpoch := e)])
  }

  /** Take the next epoch for ourselves. */
  function TakeNextEpoch(s: Server): Server
    requires s.myself in s.nodes
  {
    WithEpoch(s.(currentEpoch := s.currentEpoch + 1), s.myself, s.currentEpoch + 1)
  }

  function BumpConfigEpoch(s: Server, maxEpoch: nat): Server
    requires s.myself in s.nodes
  {
    var mine := s.nodes[s.myself].configEpoch;
    if mine == 0 || mine != maxEpoch then TakeNextEpoch(s) else s
  }

  predicate Collides(s: Server, sender: NodeId)
    requires s.myself in s.nodes && sender in s.nodes
  {
    && s.nodes[sender].configEpoch == s.nodes[s.myself].configEpoch
    && s.nodes[sender].master
    && s.nodes[s.myself].master
    && s.myself < sender
  }

  function HandleCollision(s: Server, sender: NodeId): Server
    requires s.myself in s.nodes && sender in s.nodes
  {
    if Collides(s, sender) then TakeNextEpoch(s) else s
  }

  /** What every packet of a known sender does first. */
  function ObserveEpochs(s: Server, p: Packet): (r: Server)
    requires p.sender in s.nodes
    ensures r == s.(currentEpoch := r.currentEpoch, nodes := r.nodes)
    ensures r.nodes.Keys == s.nodes.Keys
    ensures r.currentEpoch >= s.currentEpoch && r.currentEpoch >= p.currentEpoch
    ensures WellFormed(s) ==> WellFormed(r)
  {
    var s1 := s.(currentEpoch := if p.currentEpoch > s.currentEpoch then p.currentEpoch else s.currentEpoch);
    if p.configEpoch > s.nodes[p.sender].configEpoch then WithEpoch(s1, p.sender, p.configEpoch) else s1
  }

  // ----- roles

  function SetNodeAsMaster(s: Server, n: NodeId): (r: Server)
    requires WellFormed(s) && n in s.nodes
    ensures WellFormed(r) && SameElection(s, r) && SameConfigEpochs(s, r)
  {
    if s.nodes[n].master then s
    else s.(nodes := s.nodes[n := s.nodes[n].(master := true, slaveof := None)])
  }

  /** clusterSetMaster: this node becomes a replica of n. */
  function SetMaster(s: Server, n: NodeId): (r: Server)
    requires WellFormed(s) && n in s.nodes && n != s.myself
    ensures WellFormed(r) && SameElection(s, r) && SameConfigEpochs(s, r)
    ensures r.slots == s.slots
  {
    var me := s.nodes[s.myself];
    var s1 := s.(nodes := s.nodes[s.myself := me.(master := false, slaveof := Some(n))]);
    if me.master then s1.(importing := seq(CLUSTER_SLOTS, _ => None), migrating := seq(CLUSTER_SLOTS, _ => None))
    else s1
  }

  function WithoutSlotsOf(slots: seq<Option<NodeId>>, n: NodeId): (r: seq<Option<NodeId>>)
    ensures |r| == |slots|
    ensures forall j :: 0 <= j < |r| ==> r[j] == if slots[j] == Some(n) then None else slots[j]
  {
    seq(|slots|, j requires 0 <= j < |slots| => if slots[j] == Some(n) then None else slots[j])
  }

  /** The role switch a PING, PONG or MEET header can announce. */
  function ObserveRole(s: Server, p: Packet): (r: Server)
    requires WellFormed(s) && p.sender in s.nodes && p.sender != s.myself
    ensures WellFormed(r) && SameElection(s, r) && SameConfigEpochs(s, r)
  {
    if p.slaveof.None? then SetNodeAsMaster(s, p.sender)
    else
      var s1 := if s.nodes[p.sender].master
                then s.(slots := WithoutSlotsOf(s.slots, p.sender),
                        nodes := s.nodes[p.sender := s.nodes[p.sender].(master := false)])
                else s;
      if p.slaveof.value in s1.nodes
      then s1.(nodes := s1.nodes[p.sender := s1.nodes[p.sender].(slaveof := p.slaveof)])
      else s1
  }

  // ----- slot claims

  /** The claim of sender takes slot j over from its present owner. */
  predicate Takes(s: Server, sender: NodeId, epoch: nat, claims: seq<bool>, j: nat)
    requires WellFormed(s) && |claims| == CLUSTER_SLOTS && j < CLUSTER_SLOTS
  {
    && claims[j]
    && s.slots[j] != Some(sender)
    && s.importing[j].None?
    && (s.slots[j].None? || s.nodes[s.slots[j].value].configEpoch < epoch)
  }

  function Rebound(s: Server, sender: NodeId, epoch: nat, claims: seq<bool>): (r: seq<Option<NodeId>>)
    requires WellFormed(s) && |claims| == CLUSTER_SLOTS
    ensures |r| == CLUSTER_SLOTS
    ensures forall j :: 0 <= j < |r| ==>
              r[j] == if Takes(s, sender, epoch, claims, j) then Some(sender) else s.slots[j]
  {
    seq(CLUSTER_SLOTS, j requires 0 <= j < CLUSTER_SLOTS =>
      if Takes(s, sender, epoch, claims, j) then Some(sender) else s.slots[j])
  }

  /** The master whose slots this node watches: itself, or the one it replicates. */
  function CurMaster(s: Server): (m: NodeId)
    requires WellFormed(s)
    ensures m in s.nodes
  {
    if s.nodes[s.myself].master then s.myself else s.nodes[s.myself].slaveof.value
  }

  /** The claim takes over slot j, and CurMaster loses it. */
  predicate TakesFromUs(s: Server, sender: NodeId, epoch: nat, claims: seq<bool>, j: nat)
    requires WellFormed(s) && |claims| == CLUSTER_SLOTS && j < CLUSTER_SLOTS
  {
    Takes(s, sender, epoch, claims, j) && s.slots[j] == Some(CurMaster(s))
  }

  /** The node is left without slots by this claim and follows the claimant. */
  ghost predicate FollowsClaimant(s: Server, sender: NodeId, epoch: nat, claims: seq<bool>, cfg: Config)
    requires WellFormed(s) && |claims| == CLUSTER_SLOTS
  {
    && !cfg.noRedirection
    && (exists j: nat :: j < CLUSTER_SLOTS && TakesFromUs(s, sender, epoch, claims, j))
    && NumSlots(Rebound(s, sender, epoch, claims), CurMaster(s)) == 0
    && (cfg.allowReplicaMigration
        || (forall j: nat :: j < CLUSTER_SLOTS && claims[j] ==> TakesFromUs(s, sender, epoch, claims, j)))
  }

  ghost function UpdateSlots(s: Server, sender: NodeId, epoch: nat, claims: seq<bool>, cfg: Config): (r: Server)
    requires WellFormed(s) && sender in s.nodes && |claims| == CLUSTER_SLOTS
    ensures WellFormed(r) && SameElection(s, r) && SameConfigEpochs(s, r)
    ensures r.slots == if sender == s.myself then s.slots else Rebound(s, sender, epoch, claims)
  {
    if sender == s.myself then s
    else
      var s1 := s.(slots := Rebound(s, sender, epoch, claims));
      if FollowsClaimant(s, sender, epoch, claims, cfg) then SetMaster(s1, sender) else s1
  }

  /** A call of clusterUpdateSlotsConfigWith in state s. */
  datatype Claim = Claim(s: Server, sender: NodeId, epoch: nat, slots: seq<bool>)

  ghost predicate ClaimWellFormed(c: Claim) {
    WellFormed(c.s) && c.sender in c.s.nodes && |c.slots| == CLUSTER_SLOTS
  }

  /** The call deletes the keys of slot j, of which the node holds keys[j]: it lost the slot but stays a master. */
  ghost predicate Purges(c: Claim, keys: seq<nat>, cfg: Config, j: nat)
    requires ClaimWellFormed(c) && |keys| == CLUSTER_SLOTS
  {
    && j < CLUSTER_SLOTS && c.sender != c.s.myself
    && Takes(c.s, c.sender, c.epoch, c.slots, j) && c.s.slots[j] == Some(c.s.myself) && keys[j] > 0
    && !cfg.noRedirection && !FollowsClaimant(c.s, c.sender, c.epoch, c.slots, cfg)
  }

  /** The call turns this node into a replica although it still has slots, which clusterSetMaster asserts it has not. */
  ghost predicate AssertionFails(c: Claim, cfg: Config)
    requires ClaimWellFormed(c)
  {
    && c.sender != c.s.myself && FollowsClaimant(c.s, c.sender, c.epoch, c.slots, cfg)
    && NumSlots(Rebound(c.s, c.sender, c.epoch, c.slots), c.s.myself) != 0
  }

  // ----- packets

  /** The sender's claim differs from what this node has recorded for it, or for its master. */
  predicate Dirty(s: Server, p: Packet)
    requires WellFormed(s) && p.sender in s.nodes
  {
    var sender := s.nodes[p.sender];
    if sender.master then BitsOf(s.slots, p.sender) != p.slots
    else sender.slaveof.Some? && BitsOf(s.slots, sender.slaveof.value) != p.slots
  }

  /** Slot j is claimed by p although its owner has a newer configuration. */
  predicate StaleClaim(s: Server, p: Packet, j: nat)
    requires WellFormed(s) && PacketWellFormed(p) && j < CLUSTER_SLOTS
  {
    && p.slots[j]
    && s.slots[j].Some?
    && s.slots[j].value != p.sender
    && s.nodes[s.slots[j].value].configEpoch > p.configEpoch
  }

  /** The owner of the first slot, from j on, that p claims with an old configuration. */
  function NewerOwner(s: Server, p: Packet, j: nat): (r: Option<NodeId>)
    requires WellFormed(s) && PacketWellFormed(p) && j <= CLUSTER_SLOTS
    ensures r.Some? ==> r.value in s.nodes
    decreases CLUSTER_SLOTS - j
  {
    if j == CLUSTER_SLOTS then None
    else if StaleClaim(s, p, j) then s.slots[j]
    else NewerOwner(s, p, j + 1)
  }

  function UpdateAbout(s: Server, n: NodeId, to: NodeId): Packet
    requires WellFormed(s) && n in s.nodes
  {
    Header(s, Update(n, s.nodes[n].configEpoch, BitsOf(s.slots, n)), to)
  }

  /** The role and the slots a PING, PONG or MEET announces. */
  ghost function ObserveClaims(s: Server, p: Packet, cfg: Config): (r: Server)
    requires WellFormed(s) && PacketWellFormed(p) && p.sender in s.nodes && p.sender != s.myself
    ensures WellFormed(r) && SameElection(s, r) && SameConfigEpochs(s, r)
  {
    var s1 := ObserveRole(s, p);
    if s1.nodes[p.sender].master && Dirty(s1, p)
    then UpdateSlots(s1, p.sender, p.configEpoch, p.slots, cfg) else s1
  }

  /** The slot claim a PING, PONG or MEET makes this node look at. */
  ghost function PingClaim(s: Server, p: Packet): (r: Option<Claim>)
    requires WellFormed(s) && PacketWellFormed(p) && p.sender in s.nodes && p.sender != s.myself
    ensures r.Some? ==> ClaimWellFormed(r.value)
  {
    var s1 := ObserveRole(s, p);
    if s1.nodes[p.sender].master && Dirty(s1, p) then Some(Claim(s1, p.sender, p.configEpoch, p.slots)) else None
  }

  /** The UPDATE packet that corrects the sender's claims, if one is due. */
  ghost function Correction(s: Server, p: Packet, cfg: Config): (r: multiset<Packet>)
    requires WellFormed(s) && PacketWellFormed(p) && p.sender in s.nodes && p.sender != s.myself
  {
    var s2 := ObserveClaims(s, p, cfg);
    var newer := if Dirty(ObserveRole(s, p), p) then NewerOwner(s2, p, 0) else None;
    if newer.Some? then multiset{UpdateAbout(s2, newer.value, p.sender)} else multiset{}
  }

  /** The rest of PING, PONG and MEET processing, once the epochs have been observed. */
  ghost function ProcessPing(s: Server, p: Packet, cfg: Config): (r: (Server, multiset<Packet>))
    requires WellFormed(s) && PacketWellFormed(p) && p.sender in s.nodes && p.sender != s.myself
  {
    var reply := if p.kind.Ping? then multiset{Header(s, Pong, p.sender)} else multiset{};
    var s2 := ObserveClaims(s, p, cfg);
    var s3 := if s2.nodes[s2.myself].master && s2.nodes[p.sender].master
                 && p.configEpoch == s2.nodes[s2.myself].configEpoch
              then HandleCollision(s2, p.sender) else s2;
    (s3, reply + Correction(s, p, cfg))
  }

  /** The candidate's claims are as new as the configuration of the present owners. */
  predicate ClaimsCurrent(s: Server, claims: seq<bool>, epoch: nat)
    requires WellFormed(s) && |claims| == CLUSTER_SLOTS
  {
    forall j :: 0 <= j < CLUSTER_SLOTS && claims[j] && s.slots[j].Some?
      ==> s.nodes[s.slots[j].value].configEpoch <= epoch
  }

  /** Every condition clusterSendFailoverAuthIfNeeded puts on a vote. */
  predicate GrantsVote(s: Server, p: Packet, now: int, cfg: Config)
    requires WellFormed(s) && PacketWellFormed(p) && p.kind.AuthRequest? && p.sender in s.nodes
  {
    var node := s.nodes[p.sender];
    && s.nodes[s.myself].master
    && NumSlots(s.slots, s.myself) > 0
    && p.currentEpoch >= s.currentEpoch
    && s.lastVoteEpoch != s.currentEpoch
    && !node.master
    && node.slaveof.Some?
    && (s.nodes[node.slaveof.value].failed || p.kind.forceAck)
    && now - s.nodes[node.slaveof.value].votedTime >= cfg.nodeTimeout * 2
    && ClaimsCurrent(s, p.slots, p.configEpoch)
  }

  function Vote(s: Server, p: Packet, now: int, cfg: Config): (r: (Server, multiset<Packet>))
    requires WellFormed(s) && PacketWellFormed(p) && p.kind.AuthRequest? && p.sender in s.nodes
    ensures r.0.slots == s.slots && SameConfigEpochs(s, r.0) && WellFormed(r.0)
  {
    if GrantsVote(s, p, now, cfg) then
      var m := s.nodes[p.sender].slaveof.value;
      var s1 := s.(lastVoteEpoch := s.currentEpoch,
                   nodes := s.nodes[m := s.nodes[m].(votedTime := now)]);
      (s1, multiset{Header(s1, AuthAck, p.sender)})
    else (s, multiset{})
  }

  predicate CountsAck(s: Server, p: Packet)
    requires p.sender in s.nodes
  {
    && s.nodes[p.sender].master
    && NumSlots(s.slots, p.sender) > 0
    && p.currentEpoch >= s.authEpoch
  }

  ghost function ProcessUpdate(s: Server, p: Packet, cfg: Config): (r: Server)
    requires WellFormed(s) && PacketWellFormed(p) && p.kind.Update?
    ensures WellFormed(r)
  {
    var n := p.kind.about;
    if n !in s.nodes || s.nodes[n].configEpoch >= p.kind.epoch then s
    else
      var s1 := WithEpoch(SetNodeAsMaster(s, n), n, p.kind.epoch);
      UpdateSlots(s1, n, p.kind.epoch, p.kind.claims, cfg)
  }

  ghost function UpdateClaim(s: Server, p: Packet): (r: Option<Claim>)
    requires WellFormed(s) && PacketWellFormed(p) && p.kind.Update?
    ensures r.Some? ==> ClaimWellFormed(r.value)
  {
    var n := p.kind.about;
    if n !in s.nodes || s.nodes[n].configEpoch >= p.kind.epoch then None
    else
      Some(Claim(WithEpoch(SetNodeAsMaster(s, n), n, p.kind.epoch), n, p.kind.epoch, p.kind.claims))
  }

  /** The slot claim of a packet, in the state in which it is looked at. */
  ghost function PacketClaim(s: Server, p: Packet): (r: Option<Claim>)
    requires WellFormed(s) && PacketWellFormed(p) && p.sender != s.myself
    ensures r.Some? ==> ClaimWellFormed(r.value)
  {
    if p.sender !in s.nodes then None
    else
      var s1 := ObserveEpochs(s, p);
      match p.kind
      case Ping => PingClaim(s1, p)
      case Pong => PingClaim(s1, p)
      case Update(_, _, _) => UpdateClaim(s1, p)
      case _ => None
  }

  /** clusterProcessPacket: the new state and the packets it makes this node send. */
  ghost function ProcessPacket(s: Server, p: Packet, now: int, cfg: Config): (r: (Server, multiset<Packet>))
    requires WellFormed(s) && PacketWellFormed(p) && p.sender != s.myself
  {
    if p.sender !in s.nodes then (s, multiset{})
    else
      var s1 := ObserveEpochs(s, p);
      match p.kind
      case Ping => ProcessPing(s1, p, cfg)
      case Pong => ProcessPing(s1, p, cfg)
      case AuthRequest(_) => Vote(s1, p, now, cfg)
      case AuthAck => (if CountsAck(s1, p) then s1.(authCount := s1.authCount + 1) else s1, multiset{})
      case Update(_, _, _) => (ProcessUpdate(s1, p, cfg), multiset{})
      case Other => (s1, multiset{})
  }

  // ----- the failover of a replica

  /** What the clock, the replication link and the manual failover state say at one call. */
  datatype Situation = Situation(
    now: int, mfEnd: bool, mfCanStart: bool, noFailover: bool, dataTooOld: bool,
    delay: nat, rankDelay: nat)

  datatype Outcome = Idle | Scheduled | Requested | Won

  function AuthTimeout(cfg: Config): int {
    if cfg.nodeTimeout * 2 < 2000 then 2000 else cfg.nodeTimeout * 2
  }

  predicate CanFailover(s: Server, e: Situation)
    requires WellFormed(s)
  {
    var me, manual := s.nodes[s.myself], e.mfEnd && e.mfCanStart;
    && !me.master
    && me.slaveof.Some?
    && (s.nodes[me.slaveof.value].failed || manual)
    && (!e.noFailover || manual)
    && NumSlots(s.slots, me.slaveof.value) > 0
    && (!e.dataTooOld || manual)
  }

  function Quorum(s: Server): nat {
    s.size / 2 + 1
  }

  /** clusterFailoverReplaceYourMaster: take over every slot of the old master. */
  function ReplaceMaster(s: Server): (r: Server)
    requires WellFormed(s)
    ensures WellFormed(r) && SameElection(s, r) && SameConfigEpochs(s, r)
  {
    var was := s.nodes[s.myself].slaveof;
    if s.nodes[s.myself].master || was.None? then s
    else
      SetNodeAsMaster(s, s.myself).(slots :=
        seq(CLUSTER_SLOTS, j requires 0 <= j < CLUSTER_SLOTS =>
          if s.slots[j] == was then Some(s.myself) else s.slots[j]))
  }

  function HandleSlaveFailover(s: Server, e: Situation, cfg: Config): (r: (Server, Outcome))
    requires WellFormed(s)
    ensures WellFormed(r.0)
  {
    var age := e.now - s.authTime;
    if !CanFailover(s, e) then (s, Idle)
    else if age > AuthTimeout(cfg) * 2 then
      (s.(authTime := if e.mfEnd then e.now else e.now + e.delay, authCount := 0, authSent := false), Scheduled)
    else
      var s1 := if !s.authSent && !e.mfEnd then s.(authTime := s.authTime + e.rankDelay) else s;
      if e.now < s1.authTime || age > AuthTimeout(cfg) then (s1, Idle)
      else if !s1.authSent then
        (s1.(currentEpoch := s1.currentEpoch + 1, authEpoch := s1.currentEpoch + 1, authSent := true), Requested)
      else if s1.authCount >= Quorum(s1) then
        var mine := s1.nodes[s1.myself].configEpoch;
        (ReplaceMaster(if mine < s1.authEpoch then WithEpoch(s1, s1.myself, s1.authEpoch) else s1), Won)
      else (s1, Idle)
  }

  // ----- administration

  /** CLUSTER SETSLOT <slot> NODE <id>, with the number of keys this node holds in the slot. */
  datatype SetSlotError = NotMaster | UnknownNode | HoldsKeys

  datatype SetSlotResult = Done(server: Server) | Refused(error: SetSlotError)

  function SetSlotNode(s: Server, slot: nat, n: NodeId, keys: nat, maxEpoch: nat): (r: SetSlotResult)
    requires WellFormed(s) && slot < CLUSTER_SLOTS
    ensures r.Done? ==> WellFormed(r.server)
  {
    if !s.nodes[s.myself].master then Refused(NotMaster)
    else if n !in s.nodes then Refused(UnknownNode)
    else if s.slots[slot] == Some(s.myself) && n != s.myself && keys != 0 then Refused(HoldsKeys)
    else
      var s1 := if keys == 0 then s.(migrating := s.migrating[slot := None]) else s;
      var s2 := s1.(slots := s1.slots[slot := Some(n)]);
      if n == s.myself && s.importing[slot].Some?
      then Done(BumpConfigEpoch(s2, maxEpoch).(importing := s2.importing[slot := None]))
      else Done(s2)
  }

  /** What CLUSTER ADDSLOTS objects to in the slots it is asked for, in their order. */
  datatype AddSlotsError = BadSlot(slot: nat) | Busy(slot: nat) | Repeated(slot: nat)

  function FirstProblem(s: Server, asked: seq<nat>, i: nat): Option<AddSlotsError>
    requires |s.slots| == CLUSTER_SLOTS && i <= |asked|
    decreases |asked| - i
  {
    if i == |asked| then None
    else if asked[i] >= CLUSTER_SLOTS then Some(BadSlot(asked[i]))
    else if s.slots[asked[i]].Some? then Some(Busy(asked[i]))
    else if asked[i] in asked[..i] then Some(Repeated(asked[i]))
    else FirstProblem(s, asked, i + 1)
  }

  predicate AllFree(s: Server, asked: set<nat>) {
    forall j :: j in asked ==> j < |s.slots| && s.slots[j].None?
  }

  /** The state once every asked slot, all of them free, was bound to this node. */
  function WithSlots(s: Server, asked: set<nat>): Server
    requires |s.importing| == |s.slots|
  {
    s.(slots := seq(|s.slots|, j requires 0 <= j < |s.slots| => if j in asked then Some(s.myself) else s.slots[j]),
       importing := seq(|s.slots|, j requires 0 <= j < |s.slots| => if j in asked then None else s.importing[j]))
  }

  /** server.cluster->size: the masters that serve at least one slot. */
  function ClusterSize(s: Server): nat {
    |set m | m in s.nodes && s.nodes[m].master && NumSlots(s.slots, m) > 0|
  }
}
