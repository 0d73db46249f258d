/**
 A replica serves no slots of its own. clusterSetMaster asserts it of the node that turns
 into a replica, or changes its master; here it is shown that no step of the bus, failover
 or SETSLOT breaks it, and that CLUSTER ADDSLOTS, which does not look at the role of the
 node, does.
 */
module ReplicaSlots {
  import opened Prelude
  import opened ClusterNode
  import opened ClusterBus

  ghost predicate ReplicaOwnsNothing(s: Server) {
    s.myself in s.nodes && (!s.nodes[s.myself].master ==> Some(s.myself) !in s.slots)
  }

  lemma OwnsNothing(slots: seq<Option<NodeId>>, n: NodeId)
    ensures NumSlots(slots, n) == 0 <==> Some(n) !in slots
  {
    CountZero(slots, Some(n));
  }

  lemma RebindingKeeps(s: Server, sender: NodeId, epoch: nat, claims: seq<bool>)
    requires WellFormed(s) && |claims| == CLUSTER_SLOTS && sender != s.myself && Some(s.myself) !in s.slots
    ensures Some(s.myself) !in Rebound(s, sender, epoch, claims)
  {
    hide Takes;
  }

  /** The assertion of clusterSetMaster holds whenever a slot claim makes this node follow the claimant. */
  lemma AssertionHolds(c: Claim, cfg: Config)
    requires ClaimWellFormed(c) && ReplicaOwnsNothing(c.s)
    ensures !AssertionFails(c, cfg)
  {
    hide Takes, TakesFromUs, NumSlots;
    if c.sender != c.s.myself && !c.s.nodes[c.s.myself].master {
      RebindingKeeps(c.s, c.sender, c.epoch, c.slots);
      OwnsNothing(Rebound(c.s, c.sender, c.epoch, c.slots), c.s.myself);
    }
  }

  lemma ClaimKeeps(s: Server, sender: NodeId, epoch: nat, claims: seq<bool>, cfg: Config)
    requires WellFormed(s) && sender in s.nodes && |claims| == CLUSTER_SLOTS && ReplicaOwnsNothing(s)
    ensures ReplicaOwnsNothing(UpdateSlots(s, sender, epoch, claims, cfg))
  {
    hide Takes, TakesFromUs, NumSlots, FollowsClaimant;
    if sender != s.myself {
      if FollowsClaimant(s, sender, epoch, claims, cfg) {
        var c := Claim(s, sender, epoch, claims);
        AssertionHolds(c, cfg);
        OwnsNothing(Rebound(s, sender, epoch, claims), s.myself);
      } else if !s.nodes[s.myself].master {
        RebindingKeeps(s, sender, epoch, claims);
      }
    }
  }

  lemma RoleKeeps(s: Server, p: Packet)
    requires WellFormed(s) && p.sender in s.nodes && p.sender != s.myself && ReplicaOwnsNothing(s)
    ensures ReplicaOwnsNothing(ObserveRole(s, p))
  {
  }

  lemma PingKeeps(s: Server, p: Packet, cfg: Config)
    requires WellFormed(s) && PacketWellFormed(p) && p.sender in s.nodes && p.sender != s.myself
    requires ReplicaOwnsNothing(s)
    ensures ReplicaOwnsNothing(ProcessPing(s, p, cfg).0)
    ensures PingClaim(s, p).Some? ==> !AssertionFails(PingClaim(s, p).value, cfg)
  {
    hide ObserveRole, UpdateSlots, Dirty, Correction, Header, WellFormed, AssertionFails;
    RoleKeeps(s, p);
    var s1 := ObserveRole(s, p);
    if s1.nodes[p.sender].master && Dirty(s1, p) {
      ClaimKeeps(s1, p.sender, p.configEpoch, p.slots, cfg);
      AssertionHolds(PingClaim(s, p).value, cfg);
    }
  }

  lemma UpdateKeeps(s: Server, p: Packet, cfg: Config)
    requires WellFormed(s) && PacketWellFormed(p) && p.kind.Update? && ReplicaOwnsNothing(s)
    ensures ReplicaOwnsNothing(ProcessUpdate(s, p, cfg))
    ensures UpdateClaim(s, p).Some? ==> !AssertionFails(UpdateClaim(s, p).value, cfg)
  {
    hide UpdateSlots, AssertionFails;
    var n := p.kind.about;
    if n in s.nodes && s.nodes[n].configEpoch < p.kind.epoch {
      var s1 := WithEpoch(SetNodeAsMaster(s, n), n, p.kind.epoch);
      assert ReplicaOwnsNothing(s1);
      ClaimKeeps(s1, n, p.kind.epoch, p.kind.claims, cfg);
      AssertionHolds(UpdateClaim(s, p).value, cfg);
    }
  }

  /** Processing a packet keeps it, and no packet makes the assertion fail. */
  lemma PacketKeeps(s: Server, p: Packet, now: int, cfg: Config)
    requires WellFormed(s) && PacketWellFormed(p) && p.sender != s.myself && ReplicaOwnsNothing(s)
    ensures ReplicaOwnsNothing(ProcessPacket(s, p, now, cfg).0)
    ensures PacketClaim(s, p).Some? ==> !AssertionFails(PacketClaim(s, p).value, cfg)
  {
    hide ProcessPing, ProcessUpdate, PingClaim, UpdateClaim, CountsAck, GrantsVote, WellFormed, AssertionFails, Header;
    if p.sender in s.nodes {
      var s1 := ObserveEpochs(s, p);
      assert ReplicaOwnsNothing(s1);
      match p.kind
      case Ping => PingKeeps(s1, p, cfg);
      case Pong => PingKeeps(s1, p, cfg);
      case Update(_, _, _) => UpdateKeeps(s1, p, cfg);
      case _ =>
    }
  }

  lemma FailoverKeeps(s: Server, e: Situation, cfg: Config)
    requires WellFormed(s) && ReplicaOwnsNothing(s)
    ensures ReplicaOwnsNothing(HandleSlaveFailover(s, e, cfg).0)
  {
    hide CanFailover, AuthTimeout;
  }

  lemma SetSlotKeeps(s: Server, slot: nat, n: NodeId, keys: nat, maxEpoch: nat)
    requires WellFormed(s) && slot < CLUSTER_SLOTS && ReplicaOwnsNothing(s)
    ensures var r := SetSlotNode(s, slot, n, keys, maxEpoch); r.Done? ==> ReplicaOwnsNothing(r.server)
  {
    hide NumSlots;
  }

  lemma StepKeeps(a: System, l: Label, b: System, cfg: Config, n: NodeId)
    requires IsStep(a, l, b, cfg) && n in a.servers && ReplicaOwnsNothing(a.servers[n])
    ensures n in b.servers && ReplicaOwnsNothing(b.servers[n])
  {
    hide ProcessPacket, HandleSlaveFailover, SetSlotNode, Header, Broadcast, WellFormed, ClusterSize;
    if n == Actor(l) {
      var s := a.servers[n];
      assert ServerInPlace(a, n);
      match l
      case Deliver(p, now) => PacketKeeps(s, p, now, cfg);
      case Failover(_, e) => FailoverKeeps(s, e, cfg);
      case SetSlot(_, slot, owner, keys, maxEpoch) => SetSlotKeeps(s, slot, owner, keys, maxEpoch);
      case _ =>
    }
  }

  /** In every state of every run no replica owns a slot, if none does at the start. */
  lemma {:induction false} InEveryRun(states: seq<System>, labels: seq<Label>, cfg: Config, i: nat, n: NodeId)
    requires IsRun(states, labels, cfg) && i < |states| && n in states[0].servers
    requires ReplicaOwnsNothing(states[0].servers[n])
    ensures n in states[i].servers && ReplicaOwnsNothing(states[i].servers[n])
  {
    hide IsStep, SystemWellFormed, ReplicaOwnsNothing;
    if i > 0 {
      InEveryRun(states, labels, cfg, i - 1, n);
      StepKeeps(states[i - 1], labels[i - 1], states[i], cfg, n);
    }
  }

  /** Hence the assertion never fails in a run, whatever packets arrive. */
  lemma NeverAborts(states: seq<System>, labels: seq<Label>, cfg: Config, i: nat)
    requires IsRun(states, labels, cfg) && i < |labels| && labels[i].Deliver?
    requires var n := labels[i].p.to; n in states[0].servers && ReplicaOwnsNothing(states[0].servers[n])
    ensures var p := labels[i].p;
            && p.to in states[i].servers && WellFormed(states[i].servers[p.to]) && PacketWellFormed(p)
            && p.sender != states[i].servers[p.to].myself
            && var claim := PacketClaim(states[i].servers[p.to], p);
               claim.Some? ==> !AssertionFails(claim.value, cfg)
  {
    hide ProcessPacket, PacketClaim, AssertionFails, ReplicaOwnsNothing;
    var p := labels[i].p;
    InEveryRun(states, labels, cfg, i, p.to);
    assert IsStep(states[i], labels[i], states[i + 1], cfg);
    assert ServerInPlace(states[i], p.to);
    PacketKeeps(states[i].servers[p.to], p, labels[i].now, cfg);
  }

  // ----- CLUSTER ADDSLOTS

  /** ADDSLOTS keeps replicas free of slots exactly when a master takes slots, or none is taken. */
  lemma AddSlotsKeepsIff(s: Server, asked: set<nat>)
    requires WellFormed(s) && AllFree(s, asked) && ReplicaOwnsNothing(s)
    ensures ReplicaOwnsNothing(WithSlots(s, asked)) <==> s.nodes[s.myself].master || asked == {}
  {
    if asked != {} {
      var j :| j in asked;
      assert WithSlots(s, asked).slots[j] == Some(s.myself);
    }
  }

  /** A replica that took a slot this way fails the assertion as soon as its master loses its last slot to another. */
  lemma AddSlotsThenClaimAborts(s: Server, asked: set<nat>, sender: NodeId, epoch: nat, claims: seq<bool>, j: nat,
                                cfg: Config)
    requires WellFormed(s) && AllFree(s, asked) && j in asked && |claims| == CLUSTER_SLOTS && !claims[j]
    requires var s1 := WithSlots(s, asked);
             && WellFormed(s1) && sender in s1.nodes && sender != s1.myself
             && FollowsClaimant(s1, sender, epoch, claims, cfg)
    ensures AssertionFails(Claim(WithSlots(s, asked), sender, epoch, claims), cfg)
  {
    hide NumSlots, FollowsClaimant;
    var s1 := WithSlots(s, asked);
    var slots := Rebound(s1, sender, epoch, claims);
    assert slots[j] == Some(s.myself);
    OwnsNothing(slots, s.myself);
  }

  /** The slot claim that makes a replica with a slot of its own abort. */
  lemma OneSlotAborts()
    ensures var peer := (master: bool, of: Option<NodeId>) => Peer(master, of, false, 0, 0);
            var nodes := map[0 := peer(true, None), 1 := peer(false, Some(0)), 2 := peer(true, None)];
            var free := seq(CLUSTER_SLOTS, _ => None);
            var s := Server(1, 0, 0, nodes, free[0 := Some(0)], free, free, 1, 0, 0, false, 0);
            var claim := Claim(WithSlots(s, {5}), 2, 1, seq(CLUSTER_SLOTS, _ => false)[0 := true]);
            && WellFormed(s) && ReplicaOwnsNothing(s) && AllFree(s, {5})
            && ClaimWellFormed(claim) && AssertionFails(claim, Config(1000, false, true))
  {
    var peer := (master: bool, of: Option<NodeId>) => Peer(master, of, false, 0, 0);
    var nodes := map[0 := peer(true, None), 1 := peer(false, Some(0)), 2 := peer(true, None)];
    var free: seq<Option<NodeId>> := seq(CLUSTER_SLOTS, _ => None);
    var s := Server(1, 0, 0, nodes, free[0 := Some(0)], free, free, 1, 0, 0, false, 0);
    var claims := seq(CLUSTER_SLOTS, _ => false)[0 := true];
    var s1, cfg := WithSlots(s, {5}), Config(1000, false, true);
    assert WellFormed(s) && WellFormed(s1);
    assert TakesFromUs(s1, 2, 1, claims, 0);
    var slots := Rebound(s1, 2, 1, claims);
    assert Some(0) !in slots;
    OwnsNothing(slots, 0);
    AddSlotsThenClaimAborts(s, {5}, 2, 1, claims, 5, cfg);
  }
}
