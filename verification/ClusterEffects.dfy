/**
 What the handlers of the cluster bus do, told by the tables of a node before and after: when
 a slot changes hands, who is recorded as what, when the node gives up and follows another
 master, when it takes a new epoch, and what it sends.
 */
module ClusterEffects {
  import opened Prelude
  import opened ClusterNode
  import Replicas = ReplicaSlots

  function Greater(a: nat, b: nat): nat {
    if a < b then b else a
  }

  /** The config epoch on record for m, once the header of p has been looked at. */
  function Recorded(s: Server, p: Packet, m: NodeId): nat
    requires m in s.nodes
  {
    if m == p.sender then Greater(s.nodes[m].configEpoch, p.configEpoch) else s.nodes[m].configEpoch
  }

  /** A packet of a known sender raises the current epoch and the config epoch of the sender, never lowers them. */
  lemma Observed(s: Server, p: Packet)
    requires WellFormed(s) && p.sender in s.nodes
    ensures var r := ObserveEpochs(s, p);
            && r == s.(currentEpoch := Greater(s.currentEpoch, p.currentEpoch), nodes := r.nodes)
            && r.nodes.Keys == s.nodes.Keys
            && (forall m :: m in s.nodes ==> r.nodes[m] == s.nodes[m].(configEpoch := Recorded(s, p, m)))
  {
  }

  /** A packet somebody the node knows sent it. */
  ghost predicate Heard(s: Server, p: Packet) {
    WellFormed(s) && PacketWellFormed(p) && p.sender in s.nodes && p.sender != s.myself
  }

  ghost predicate Announcement(s: Server, p: Packet) {
    Heard(s, p) && (p.kind.Ping? || p.kind.Pong?)
  }

  // ----- who owns the slots

  /** Nobody has slot j, or a node other than n with an older configuration, and the node is not importing it. */
  predicate UpForGrabs(s: Server, p: Packet, n: NodeId, epoch: nat, j: nat) {
    && j < |s.slots| && j < |s.importing| && s.importing[j] == None
    && (s.slots[j] == None
        || (s.slots[j].value in s.nodes && s.slots[j].value != n && Recorded(s, p, s.slots[j].value) < epoch))
  }

  /**
   A master that announces itself gets the slots it claims that are up for grabs, and no
   others; a node that announces itself as a replica loses those it had as a master.
   */
  function OwnerAfterPing(s: Server, p: Packet, j: nat): Option<NodeId>
    requires j < |s.slots| && j < |p.slots| && p.sender in s.nodes
  {
    if p.slaveof == None then
      if p.slots[j] && UpForGrabs(s, p, p.sender, p.configEpoch, j) then Some(p.sender) else s.slots[j]
    else if s.nodes[p.sender].master && s.slots[j] == Some(p.sender) then None
    else s.slots[j]
  }

  lemma SlotsAfterPing(s: Server, p: Packet, now: int, cfg: Config)
    requires Announcement(s, p)
    ensures var r := ProcessPacket(s, p, now, cfg).0;
            |r.slots| == CLUSTER_SLOTS && forall j :: 0 <= j < CLUSTER_SLOTS ==> r.slots[j] == OwnerAfterPing(s, p, j)
  {
    hide ProcessPing, ObserveClaims, ObserveEpochs, PeerWellFormed, OwnerAfterPing, ClaimedOwner;
    Observed(s, p);
    ClaimedSlots(ObserveEpochs(s, p), p, cfg);
    forall j | 0 <= j < CLUSTER_SLOTS
      ensures ClaimedOwner(ObserveEpochs(s, p), p, j) == OwnerAfterPing(s, p, j)
    {
      ObservedOwner(s, p, j);
    }
  }

  /** The same, once the epochs have been observed. */
  function ClaimedOwner(s: Server, p: Packet, j: nat): Option<NodeId>
    requires WellFormed(s) && PacketWellFormed(p) && p.sender in s.nodes && j < CLUSTER_SLOTS
  {
    if p.slaveof == None then
      if Takes(s, p.sender, p.configEpoch, p.slots, j) then Some(p.sender) else s.slots[j]
    else if s.nodes[p.sender].master && s.slots[j] == Some(p.sender) then None
    else s.slots[j]
  }

  lemma ObservedOwner(s: Server, p: Packet, j: nat)
    requires Announcement(s, p) && j < CLUSTER_SLOTS
    ensures ClaimedOwner(ObserveEpochs(s, p), p, j) == OwnerAfterPing(s, p, j)
  {
    hide ObserveEpochs, PeerWellFormed;
    Observed(s, p);
    if s.slots[j].Some? {
      assert s.slots[j].value in s.nodes;
    }
  }

  lemma ClaimedSlots(s: Server, p: Packet, cfg: Config)
    requires Announcement(s, p)
    ensures var r := ObserveClaims(s, p, cfg);
            |r.slots| == CLUSTER_SLOTS && forall j :: 0 <= j < CLUSTER_SLOTS ==> r.slots[j] == ClaimedOwner(s, p, j)
    ensures ProcessPing(s, p, cfg).0.slots == ObserveClaims(s, p, cfg).slots
  {
    hide FollowsClaimant, Correction, Header, PeerWellFormed;
    var s1 := ObserveRole(s, p);
    if p.slaveof == None {
      assert s1.slots == s.slots && s1.importing == s.importing && SameConfigEpochs(s, s1);
      forall j | 0 <= j < CLUSTER_SLOTS
        ensures Takes(s1, p.sender, p.configEpoch, p.slots, j) == Takes(s, p.sender, p.configEpoch, p.slots, j)
      {
      }
      if !Dirty(s1, p) {
        assert forall j :: 0 <= j < CLUSTER_SLOTS ==> BitsOf(s1.slots, p.sender)[j] == p.slots[j];
      }
    }
  }

  /** An UPDATE about a node gives it, if it is news, the slots it claims that are up for grabs. */
  function OwnerAfterUpdate(s: Server, p: Packet, j: nat): Option<NodeId>
    requires p.kind.Update? && j < |s.slots| && j < |p.kind.claims|
  {
    var n := p.kind.about;
    if n in s.nodes && n != s.myself && Recorded(s, p, n) < p.kind.epoch && p.kind.claims[j]
       && UpForGrabs(s, p, n, p.kind.epoch, j)
    then Some(n) else s.slots[j]
  }

  lemma SlotsAfterUpdate(s: Server, p: Packet, now: int, cfg: Config)
    requires Heard(s, p) && p.kind.Update?
    ensures var r := ProcessPacket(s, p, now, cfg).0;
            |r.slots| == CLUSTER_SLOTS && forall j :: 0 <= j < CLUSTER_SLOTS ==> r.slots[j] == OwnerAfterUpdate(s, p, j)
  {
    hide FollowsClaimant, ObserveEpochs, PeerWellFormed, SetMaster, Recorded, Takes, UpForGrabs, SetNodeAsMaster,
         WithEpoch;
    Observed(s, p);
    var s1, n := ObserveEpochs(s, p), p.kind.about;
    if n in s.nodes && Recorded(s, p, n) < p.kind.epoch {
      MadeMaster(s1, n, p.kind.epoch);
      forall j | 0 <= j < CLUSTER_SLOTS
        ensures Takes(WithEpoch(SetNodeAsMaster(s1, n), n, p.kind.epoch), n, p.kind.epoch, p.kind.claims, j)
           <==> p.kind.claims[j] && UpForGrabs(s, p, n, p.kind.epoch, j)
      {
        GrabbedByUpdate(s, p, j);
      }
    }
  }

  lemma MadeMaster(s: Server, n: NodeId, epoch: nat)
    requires WellFormed(s) && n in s.nodes
    ensures var r := WithEpoch(SetNodeAsMaster(s, n), n, epoch);
            && WellFormed(r) && r == s.(nodes := r.nodes) && r.nodes.Keys == s.nodes.Keys
            && r.nodes[n] == s.nodes[n].(master := true, slaveof := None, configEpoch := epoch)
            && (forall m :: m in s.nodes && m != n ==> r.nodes[m] == s.nodes[m])
  {
  }

  lemma GrabbedByUpdate(s: Server, p: Packet, j: nat)
    requires Heard(s, p) && p.kind.Update? && p.kind.about in s.nodes && j < CLUSTER_SLOTS
    ensures var s1, n := ObserveEpochs(s, p), p.kind.about;
            var s2 := WithEpoch(SetNodeAsMaster(s1, n), n, p.kind.epoch);
            && WellFormed(s2)
            && (Takes(s2, n, p.kind.epoch, p.kind.claims, j)
                <==> p.kind.claims[j] && UpForGrabs(s, p, n, p.kind.epoch, j))
  {
    hide ObserveEpochs, SetNodeAsMaster, WithEpoch, PeerWellFormed;
    Observed(s, p);
    MadeMaster(ObserveEpochs(s, p), p.kind.about, p.kind.epoch);
    if s.slots[j].Some? {
      assert s.slots[j].value in s.nodes;
    }
  }

  /** No other packet, and none of an unknown sender, touches the slot table. */
  lemma SlotsAfterOthers(s: Server, p: Packet, now: int, cfg: Config)
    requires WellFormed(s) && PacketWellFormed(p) && p.sender != s.myself
    requires p.sender !in s.nodes || !(p.kind.Ping? || p.kind.Pong? || p.kind.Update?)
    ensures ProcessPacket(s, p, now, cfg).0.slots == s.slots
  {
    hide GrantsVote, CountsAck, Header;
  }

  // ----- roles, epochs and open slots

  /** What p says its sender is; a master nobody has told this node about is not recorded. */
  function SelfPortrait(s: Server, p: Packet): Peer
    requires p.sender in s.nodes
  {
    var was := s.nodes[p.sender];
    if p.slaveof == None then was.(master := true, slaveof := None)
    else was.(master := false, slaveof := if p.slaveof.value in s.nodes then p.slaveof else was.slaveof)
  }

  /** The master whose slots are the node's business: its own or those of the master it replicates. */
  function Home(s: Server): NodeId
    requires s.myself in s.nodes && (s.nodes[s.myself].master || s.nodes[s.myself].slaveof.Some?)
  {
    if s.nodes[s.myself].master then s.myself else s.nodes[s.myself].slaveof.value
  }

  predicate Lost(s: Server, after: seq<Option<NodeId>>, j: nat)
    requires s.myself in s.nodes && (s.nodes[s.myself].master || s.nodes[s.myself].slaveof.Some?)
  {
    j < |s.slots| && j < |after| && s.slots[j] == Some(Home(s)) && after[j] != Some(Home(s))
  }

  /**
   The node follows the claiming master: that master took slots of ours, we have none left,
   and unless replicas may move freely it took from us all it claims.
   */
  ghost predicate GivesUp(s: Server, claims: seq<bool>, after: seq<Option<NodeId>>, cfg: Config)
    requires s.myself in s.nodes && (s.nodes[s.myself].master || s.nodes[s.myself].slaveof.Some?)
  {
    && !cfg.noRedirection
    && (exists j: nat :: Lost(s, after, j))
    && Some(Home(s)) !in after
    && (cfg.allowReplicaMigration || forall j: nat :: j < |claims| && claims[j] ==> Lost(s, after, j))
  }

  lemma RoleObserved(s: Server, p: Packet)
    requires Heard(s, p)
    ensures var r := ObserveRole(s, p);
            && r == s.(nodes := s.nodes[p.sender := SelfPortrait(s, p)], slots := r.slots)
            && (p.slaveof == None ==> r.slots == s.slots)
  {
    hide WithoutSlotsOf;
    assert PeerWellFormed(s.nodes.Keys, s.nodes[p.sender]);
    assert s.nodes == s.nodes[p.sender := s.nodes[p.sender]];
  }

  /** Following the claimant, as the handler decides it, is giving up. */
  lemma FollowingIsGivingUp(s: Server, n: NodeId, epoch: nat, claims: seq<bool>, cfg: Config)
    requires WellFormed(s) && n in s.nodes && |claims| == CLUSTER_SLOTS
    ensures FollowsClaimant(s, n, epoch, claims, cfg) <==> GivesUp(s, claims, Rebound(s, n, epoch, claims), cfg)
  {
    hide NumSlots, PeerWellFormed, Takes;
    var after := Rebound(s, n, epoch, claims);
    forall j: nat | j < CLUSTER_SLOTS
      ensures TakesFromUs(s, n, epoch, claims, j) <==> Lost(s, after, j)
    {
      TakesOthers(s, n, epoch, claims, j);
    }
    Replicas.OwnsNothing(after, Home(s));
  }

  lemma TakesOthers(s: Server, n: NodeId, epoch: nat, claims: seq<bool>, j: nat)
    requires WellFormed(s) && |claims| == CLUSTER_SLOTS && j < CLUSTER_SLOTS
    ensures Takes(s, n, epoch, claims, j) ==> s.slots[j] != Some(n)
  {
  }

  /** The slots a master imports and migrates are forgotten when it turns into a replica. */
  predicate OpenAfter(s: Server, open: seq<Option<NodeId>>, gives: bool, after: seq<Option<NodeId>>)
    requires s.myself in s.nodes
  {
    if gives && s.nodes[s.myself].master
    then |after| == CLUSTER_SLOTS && forall j :: 0 <= j < |after| ==> after[j] == None
    else after == open
  }

  /** The record a node keeps about itself, when it follows n or not. */
  function SelfAfter(s: Server, n: NodeId, gives: bool): Peer
    requires s.myself in s.nodes
  {
    if gives then s.nodes[s.myself].(master := false, slaveof := Some(n)) else s.nodes[s.myself]
  }

  /** What accepting slot claims changes apart from the slot table. */
  ghost predicate Followed(s: Server, r: Server, n: NodeId, gives: bool)
    requires s.myself in s.nodes
  {
    && r == s.(slots := r.slots, nodes := s.nodes[s.myself := SelfAfter(s, n, gives)], importing := r.importing,
               migrating := r.migrating)
    && OpenAfter(s, s.importing, gives, r.importing) && OpenAfter(s, s.migrating, gives, r.migrating)
  }

  lemma ClaimFollowed(s: Server, n: NodeId, epoch: nat, claims: seq<bool>, cfg: Config)
    requires WellFormed(s) && n in s.nodes && |claims| == CLUSTER_SLOTS
    ensures var r := UpdateSlots(s, n, epoch, claims, cfg);
            Followed(s, r, n, n != s.myself && GivesUp(s, claims, r.slots, cfg))
  {
    hide FollowsClaimant, GivesUp, Rebound, PeerWellFormed;
    assert s.nodes == s.nodes[s.myself := s.nodes[s.myself]];
    FollowingIsGivingUp(s, n, epoch, claims, cfg);
  }

  lemma NothingGiven(s: Server, claims: seq<bool>, cfg: Config)
    requires WellFormed(s)
    ensures !GivesUp(s, claims, s.slots, cfg)
  {
  }

  lemma GivesUpAlike(s: Server, t: Server, claims: seq<bool>, after: seq<Option<NodeId>>, cfg: Config)
    requires WellFormed(s) && WellFormed(t) && t.myself == s.myself && t.slots == s.slots
    requires t.nodes[s.myself].master == s.nodes[s.myself].master
             && t.nodes[s.myself].slaveof == s.nodes[s.myself].slaveof
    ensures GivesUp(t, claims, after, cfg) <==> GivesUp(s, claims, after, cfg)
  {
    hide PeerWellFormed;
    assert forall j: nat :: Lost(t, after, j) <==> Lost(s, after, j);
  }

  lemma PortraitOfMaster(s: Server, p: Packet)
    requires p.sender in s.nodes
    ensures SelfPortrait(s, p).master <==> p.slaveof == None
  {
  }

  lemma ClaimsObserved(s: Server, p: Packet, cfg: Config)
    requires Announcement(s, p)
    ensures var r, s1 := ObserveClaims(s, p, cfg), s.(nodes := s.nodes[p.sender := SelfPortrait(s, p)]);
            Followed(s1, r, p.sender, p.slaveof == None && GivesUp(s, p.slots, r.slots, cfg))
  {
    hide Dirty, SelfPortrait, UpdateSlots, PeerWellFormed, ObserveRole, GivesUp;
    RoleObserved(s, p);
    PortraitOfMaster(s, p);
    var s1, r := ObserveRole(s, p), ObserveClaims(s, p, cfg);
    assert s1.nodes == s1.nodes[s.myself := s1.nodes[s.myself]];
    if p.slaveof == None {
      ClaimFollowed(s1, p.sender, p.configEpoch, p.slots, cfg);
      NothingGiven(s, p.slots, cfg);
      GivesUpAlike(s, s1, p.slots, r.slots, cfg);
    }
  }

  /**
   The keys of a slot are deleted if and only if the node just lost the slot, stays what it
   is, and holds keys in it.
   */
  lemma PurgesIff(c: Claim, keys: seq<nat>, cfg: Config, j: nat)
    requires ClaimWellFormed(c) && |keys| == CLUSTER_SLOTS && j < CLUSTER_SLOTS
    ensures var after := UpdateSlots(c.s, c.sender, c.epoch, c.slots, cfg).slots;
            Purges(c, keys, cfg, j) <==>
              && c.s.slots[j] == Some(c.s.myself) && after[j] != Some(c.s.myself) && keys[j] > 0
              && !cfg.noRedirection && !GivesUp(c.s, c.slots, after, cfg)
  {
    hide FollowsClaimant, GivesUp, PeerWellFormed, Takes;
    FollowingIsGivingUp(c.s, c.sender, c.epoch, c.slots, cfg);
  }

  /** Two masters with the config epoch just announced: the one with the smaller name takes a new epoch. */
  predicate Clash(s: Server, p: Packet)
    requires s.myself in s.nodes && p.sender in s.nodes
  {
    && s.nodes[s.myself].master && p.slaveof == None && s.myself < p.sender
    && s.nodes[s.myself].configEpoch == p.configEpoch == Recorded(s, p, p.sender)
  }

  /**
   PING and PONG. The sender is recorded as it describes itself, with the greater of the two
   epochs; the node follows it or not; it takes the next epoch on a clash and keeps its own
   otherwise; no other record changes.
   */
  lemma StateAfterPing(s: Server, p: Packet, now: int, cfg: Config)
    requires Announcement(s, p)
    ensures var r := ProcessPacket(s, p, now, cfg).0;
            var gives := p.slaveof == None && GivesUp(s, p.slots, r.slots, cfg);
            var clash := !gives && Clash(s, p);
            && r == s.(currentEpoch := Greater(s.currentEpoch, p.currentEpoch) + if clash then 1 else 0,
                       nodes := r.nodes, slots := r.slots, importing := r.importing, migrating := r.migrating)
            && OpenAfter(s, s.importing, gives, r.importing) && OpenAfter(s, s.migrating, gives, r.migrating)
            && r.nodes.Keys == s.nodes.Keys
            && (forall m :: m in s.nodes && m != s.myself && m != p.sender ==> r.nodes[m] == s.nodes[m])
            && r.nodes[p.sender] == SelfPortrait(s, p).(configEpoch := Recorded(s, p, p.sender))
            && r.nodes[s.myself] == SelfAfter(s, p.sender, gives).(configEpoch :=
                 if clash then r.currentEpoch else s.nodes[s.myself].configEpoch)
  {
    hide ObserveEpochs, ObserveClaims, Correction, Header, GivesUp, PeerWellFormed;
    Observed(s, p);
    var s1 := ObserveEpochs(s, p);
    var s2 := ObserveClaims(s1, p, cfg);
    ClaimsObserved(s1, p, cfg);
    GivesUpAlike(s, s1, p.slots, s2.slots, cfg);
  }

  /** UPDATE is news if it is about a node on record with an older configuration. */
  predicate News(s: Server, p: Packet)
    requires p.kind.Update?
  {
    p.kind.about in s.nodes && Recorded(s, p, p.kind.about) < p.kind.epoch
  }

  /** The record of m after an UPDATE, before the node decides whom it follows. */
  function PeerAfterUpdate(s: Server, p: Packet, m: NodeId): Peer
    requires p.kind.Update? && m in s.nodes
  {
    if News(s, p) && m == p.kind.about then s.nodes[m].(master := true, slaveof := None, configEpoch := p.kind.epoch)
    else s.nodes[m].(configEpoch := Recorded(s, p, m))
  }

  /** UPDATE. What is news makes its subject a master with the new epoch, which the node may have to follow. */
  lemma StateAfterUpdate(s: Server, p: Packet, now: int, cfg: Config)
    requires Heard(s, p) && p.kind.Update?
    ensures var r, n := ProcessPacket(s, p, now, cfg).0, p.kind.about;
            var gives := News(s, p) && n != s.myself && GivesUp(s, p.kind.claims, r.slots, cfg);
            && r == s.(currentEpoch := Greater(s.currentEpoch, p.currentEpoch), nodes := r.nodes, slots := r.slots,
                       importing := r.importing, migrating := r.migrating)
            && OpenAfter(s, s.importing, gives, r.importing) && OpenAfter(s, s.migrating, gives, r.migrating)
            && r.nodes.Keys == s.nodes.Keys
            && (forall m :: m in s.nodes && m != s.myself ==> r.nodes[m] == PeerAfterUpdate(s, p, m))
            && r.nodes[s.myself] ==
                 if gives then s.nodes[s.myself].(master := false, slaveof := Some(n))
                 else PeerAfterUpdate(s, p, s.myself)
  {
    hide ObserveEpochs, ProcessUpdate, GivesUp, PeerWellFormed;
    Observed(s, p);
    var s1, n := ObserveEpochs(s, p), p.kind.about;
    var r := ProcessUpdate(s1, p, cfg);
    UpdateFollowed(s1, p, cfg);
    if News(s, p) {
      GivesUpAlike(s, s1, p.kind.claims, r.slots, cfg);
    }
  }

  /** The state in which the slot claims of an UPDATE are looked at. */
  function Renewed(s: Server, p: Packet): Server
    requires p.kind.Update? && p.kind.about in s.nodes
  {
    var n := p.kind.about;
    s.(nodes := s.nodes[n := s.nodes[n].(master := true, slaveof := None, configEpoch := p.kind.epoch)])
  }

  lemma UpdateFollowed(s: Server, p: Packet, cfg: Config)
    requires Heard(s, p) && p.kind.Update?
    ensures var r, n := ProcessUpdate(s, p, cfg), p.kind.about;
            if n in s.nodes && s.nodes[n].configEpoch < p.kind.epoch
            then Followed(Renewed(s, p), r, n, n != s.myself && GivesUp(s, p.kind.claims, r.slots, cfg))
            else r == s
  {
    hide UpdateSlots, GivesUp, PeerWellFormed, SetNodeAsMaster, WithEpoch, Followed;
    var n := p.kind.about;
    if n in s.nodes && s.nodes[n].configEpoch < p.kind.epoch {
      MadeMaster(s, n, p.kind.epoch);
      var s1 := WithEpoch(SetNodeAsMaster(s, n), n, p.kind.epoch);
      assert s1.nodes == Renewed(s, p).nodes;
      ClaimFollowed(s1, n, p.kind.epoch, p.kind.claims, cfg);
      if n != s.myself {
        GivesUpAlike(s, s1, p.kind.claims, UpdateSlots(s1, n, p.kind.epoch, p.kind.claims, cfg).slots, cfg);
      }
    }
  }

  /** A vote counts if it comes from a master that serves slots and is not from before the election. */
  lemma StateAfterAck(s: Server, p: Packet, now: int, cfg: Config)
    requires Heard(s, p) && p.kind.AuthAck?
    ensures var (r, sent) := ProcessPacket(s, p, now, cfg);
            var counts := s.nodes[p.sender].master && Some(p.sender) in s.slots && s.authEpoch <= p.currentEpoch;
            && r == s.(currentEpoch := Greater(s.currentEpoch, p.currentEpoch), nodes := r.nodes,
                       authCount := s.authCount + if counts then 1 else 0)
            && r.nodes == (map m | m in s.nodes :: s.nodes[m].(configEpoch := Recorded(s, p, m)))
            && sent == multiset{}
  {
    hide ObserveEpochs, NumSlots;
    Observed(s, p);
    Replicas.OwnsNothing(s.slots, p.sender);
  }

  // ----- what is sent

  /**
   A packet with a header that is true in state s: a replica speaks with the epoch and the
   slots of its master, everybody else with their own.
   */
  predicate Truthful(s: Server, q: Packet) {
    && s.myself in s.nodes && (s.nodes[s.myself].master || s.nodes[s.myself].slaveof.Some?) && Home(s) in s.nodes
    && q.sender == s.myself && q.currentEpoch == s.currentEpoch && q.slaveof == s.nodes[s.myself].slaveof
    && q.configEpoch == s.nodes[Home(s)].configEpoch
    && |q.slots| == |s.slots| && (forall j :: 0 <= j < |q.slots| ==> (q.slots[j] <==> s.slots[j] == Some(Home(s))))
  }

  /** The packet of the given kind and target with a true header is the one that is built. */
  lemma HeaderIsTruthful(s: Server, q: Packet)
    requires WellFormed(s)
    ensures Truthful(s, q) <==> q == Header(s, q.kind, q.to)
  {
    assert PeerWellFormed(s.nodes.Keys, s.nodes[s.myself]);
    if Truthful(s, q) {
      assert q.slots == BitsOf(s.slots, Home(s));
    }
  }

  /** Slot j is claimed by p although it belongs, in state s, to another node with a newer configuration. */
  predicate Overtaken(s: Server, p: Packet, j: nat) {
    && j < |s.slots| && j < |p.slots| && p.slots[j]
    && s.slots[j].Some? && s.slots[j].value != p.sender && s.slots[j].value in s.nodes
    && p.configEpoch < s.nodes[s.slots[j].value].configEpoch
  }

  /** j is the first such slot. */
  predicate FirstOvertaken(s: Server, p: Packet, j: nat) {
    Overtaken(s, p, j) && forall i: nat :: i < j ==> !Overtaken(s, p, i)
  }

  lemma {:induction false} NewerOwnerIff(s: Server, p: Packet, k: nat)
    requires WellFormed(s) && PacketWellFormed(p) && k <= CLUSTER_SLOTS
    requires forall i: nat :: i < k ==> !Overtaken(s, p, i)
    ensures var o := NewerOwner(s, p, k);
            if o.Some? then exists j: nat :: j < CLUSTER_SLOTS && FirstOvertaken(s, p, j) && s.slots[j] == o
            else forall j: nat :: !Overtaken(s, p, j)
    decreases CLUSTER_SLOTS - k
  {
    hide PeerWellFormed;
    if k < CLUSTER_SLOTS {
      assert StaleClaim(s, p, k) <==> Overtaken(s, p, k);
      if StaleClaim(s, p, k) {
        assert FirstOvertaken(s, p, k);
      } else {
        NewerOwnerIff(s, p, k + 1);
      }
    }
  }

  /** The slots p claims are not those the node, before and after, has recorded for the sender or for its master. */
  predicate Disagrees(s: Server, r: Server, p: Packet) {
    if p.slaveof == None then
      exists j :: 0 <= j < |p.slots| && j < |s.slots| && p.slots[j] != (s.slots[j] == Some(p.sender))
    else
      && p.sender in r.nodes && r.nodes[p.sender].slaveof.Some?
      && exists j :: 0 <= j < |p.slots| && j < |r.slots| && p.slots[j] != (r.slots[j] == r.nodes[p.sender].slaveof)
  }

  lemma DirtyIff(s: Server, p: Packet, cfg: Config)
    requires Announcement(s, p)
    ensures Dirty(ObserveRole(s, p), p) <==> Disagrees(s, ObserveClaims(s, p, cfg), p)
  {
    hide UpdateSlots, ObserveRole, PeerWellFormed;
    RoleObserved(s, p);
    PortraitOfMaster(s, p);
    var s1 := ObserveRole(s, p);
    var of := if p.slaveof == None then Some(p.sender) else s1.nodes[p.sender].slaveof;
    if of.Some? {
      BitsDiffer(s1.slots, of.value, p.slots);
    }
  }

  lemma BitsDiffer(slots: seq<Option<NodeId>>, n: NodeId, bits: seq<bool>)
    requires |bits| == |slots|
    ensures BitsOf(slots, n) != bits <==> exists j :: 0 <= j < |bits| && bits[j] != (slots[j] == Some(n))
  {
    if forall j :: 0 <= j < |bits| ==> bits[j] == (slots[j] == Some(n)) {
      assert BitsOf(slots, n) == bits;
    }
  }

  /** q tells the sender of p about the owner of the first slot it claims with an old configuration. */
  ghost predicate Corrects(r: Server, p: Packet, q: Packet, j: nat) {
    && FirstOvertaken(r, p, j) && Truthful(r, q) && q.to == p.sender && q.kind.Update?
    && q.kind.about == r.slots[j].value && q.kind.epoch == r.nodes[r.slots[j].value].configEpoch
    && |q.kind.claims| == |r.slots|
    && (forall i :: 0 <= i < |r.slots| ==> (q.kind.claims[i] <==> r.slots[i] == r.slots[j]))
  }

  lemma CorrectsIff(r: Server, p: Packet, q: Packet, j: nat)
    requires WellFormed(r) && FirstOvertaken(r, p, j)
    ensures Corrects(r, p, q, j) <==> q == UpdateAbout(r, r.slots[j].value, p.sender)
  {
    hide Truthful, Header, PeerWellFormed, FirstOvertaken;
    assert Overtaken(r, p, j) by { FirstIsOvertaken(r, p, j); }
    var n := r.slots[j].value;
    HeaderIsTruthful(r, q);
    HeaderFields(r, q.kind, q.to);
    HeaderFields(r, Update(n, r.nodes[n].configEpoch, BitsOf(r.slots, n)), p.sender);
    if Corrects(r, p, q, j) {
      assert q.kind.claims == BitsOf(r.slots, n);
    }
  }

  lemma FirstIsOvertaken(s: Server, p: Packet, j: nat)
    requires FirstOvertaken(s, p, j)
    ensures Overtaken(s, p, j)
  {
  }

  lemma HeaderFields(s: Server, kind: Kind, to: NodeId)
    requires WellFormed(s)
    ensures Header(s, kind, to).kind == kind && Header(s, kind, to).to == to
  {
  }

  /** The state in which a packet is judged: its epochs are on record. */
  function Seen(s: Server, p: Packet): Server {
    s.(currentEpoch := Greater(s.currentEpoch, p.currentEpoch),
       nodes := map m | m in s.nodes :: s.nodes[m].(configEpoch := Recorded(s, p, m)))
  }

  lemma SeenIsObserved(s: Server, p: Packet)
    requires WellFormed(s) && p.sender in s.nodes
    ensures ObserveEpochs(s, p) == Seen(s, p)
  {
    hide ObserveEpochs;
    Observed(s, p);
    assert ObserveEpochs(s, p).nodes == Seen(s, p).nodes;
  }

  /** The state r after an announcement, but for the epoch taken on a clash. */
  function BeforeClash(s: Server, p: Packet, r: Server): Server
    requires s.myself in s.nodes && s.myself in r.nodes
  {
    r.(currentEpoch := Greater(s.currentEpoch, p.currentEpoch),
       nodes := r.nodes[s.myself := r.nodes[s.myself].(configEpoch := s.nodes[s.myself].configEpoch)])
  }

  lemma ClashUndone(s: Server, p: Packet, cfg: Config)
    requires Announcement(s, p)
    ensures var s1 := ObserveEpochs(s, p);
            && Announcement(s1, p) && s.myself in ProcessPing(s1, p, cfg).0.nodes
            && BeforeClash(s, p, ProcessPing(s1, p, cfg).0) == ObserveClaims(s1, p, cfg)
  {
    hide ObserveEpochs, ObserveClaims, Correction, Header, PeerWellFormed;
    Observed(s, p);
    var s1 := ObserveEpochs(s, p);
    var s2 := ObserveClaims(s1, p, cfg);
    assert s2.nodes[s.myself].configEpoch == s1.nodes[s.myself].configEpoch == s.nodes[s.myself].configEpoch;
    assert BeforeClash(s, p, ProcessPing(s1, p, cfg).0).nodes == s2.nodes;
  }

  /**
   A PING is answered by one PONG with a true header; PING and PONG are answered by one UPDATE
   about the owner of the first slot the sender claims with an old configuration, if what it
   claims is not what was recorded; and nothing else is sent.
   */
  lemma SentAfterPing(s: Server, p: Packet, now: int, cfg: Config, q: Packet)
    requires Announcement(s, p)
    ensures var (r, sent) := ProcessPacket(s, p, now, cfg);
            && sent[q] <= 1 && s.myself in r.nodes
            && (q in sent <==>
                  || (p.kind.Ping? && q.kind.Pong? && q.to == p.sender && Truthful(Seen(s, p), q))
                  || (var s2 := BeforeClash(s, p, r);
                      Disagrees(s, s2, p) && exists j: nat :: Corrects(s2, p, q, j)))
  {
    hide ObserveEpochs, ObserveClaims, Correction, Truthful, Header, Corrects, Disagrees, PeerWellFormed,
         HandleCollision;
    Observed(s, p);
    SeenIsObserved(s, p);
    ClashUndone(s, p, cfg);
    var s1 := ObserveEpochs(s, p);
    HeaderIsTruthful(s1, q);
    HeaderFields(s1, Pong, p.sender);
    SeenDisagrees(s, s1, ObserveClaims(s1, p, cfg), p);
    CorrectionIff(s1, p, cfg, q);
  }

  lemma SeenDisagrees(s: Server, s1: Server, r: Server, p: Packet)
    requires s.slots == s1.slots
    ensures Disagrees(s, r, p) <==> Disagrees(s1, r, p)
  {
  }

  lemma CorrectionIff(s: Server, p: Packet, cfg: Config, q: Packet)
    requires Announcement(s, p)
    ensures var s2 := ObserveClaims(s, p, cfg);
            && Correction(s, p, cfg)[q] <= 1 && (q in Correction(s, p, cfg) ==> q.kind.Update?)
            && (q in Correction(s, p, cfg) <==> Disagrees(s, s2, p) && exists j: nat :: Corrects(s2, p, q, j))
  {
    hide ObserveClaims, Dirty, Disagrees, Corrects, FirstOvertaken, Overtaken, NewerOwner, Header, PeerWellFormed;
    var s2 := ObserveClaims(s, p, cfg);
    var newer := NewerOwner(s2, p, 0);
    DirtyIff(s, p, cfg);
    NewerOwnerIff(s2, p, 0);
    forall i: nat | Corrects(s2, p, q, i)
      ensures FirstOvertaken(s2, p, i) && Overtaken(s2, p, i)
    {
      CorrectsFirst(s2, p, q, i);
    }
    if newer.Some? {
      var j: nat :| j < CLUSTER_SLOTS && FirstOvertaken(s2, p, j) && s2.slots[j] == newer;
      CorrectsIff(s2, p, q, j);
      HeaderFields(s2, Update(newer.value, s2.nodes[newer.value].configEpoch, BitsOf(s2.slots, newer.value)), p.sender);
      forall i: nat | Corrects(s2, p, q, i)
        ensures i == j
      {
        FirstIsUnique(s2, p, i, j);
      }
    }
  }

  lemma CorrectsFirst(r: Server, p: Packet, q: Packet, j: nat)
    requires Corrects(r, p, q, j)
    ensures FirstOvertaken(r, p, j) && Overtaken(r, p, j)
  {
    FirstIsOvertaken(r, p, j);
  }

  lemma FirstIsUnique(s: Server, p: Packet, i: nat, j: nat)
    requires FirstOvertaken(s, p, i) && FirstOvertaken(s, p, j)
    ensures i == j
  {
  }
}
