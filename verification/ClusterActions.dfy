/**
 What a node does of its own accord or on command, told by its tables before and after: the
 failover of a replica, CLUSTER SETSLOT NODE, CLUSTER ADDSLOTS and the size of the cluster;
 and, for every step of every run, the reasons for which a slot can change hands at all.
 */
module ClusterActions {
  import opened Prelude
  import opened ClusterNode
  import opened ClusterBus
  import opened ClusterEffects
  import Replicas = ReplicaSlots

  // ----- failover

  predicate Manual(e: Situation) {
    e.mfEnd && e.mfCanStart
  }

  /** A replica of m may stand for election: m serves slots and is failing, or the failover was asked for. */
  predicate MayStand(s: Server, e: Situation, m: NodeId) {
    && s.myself in s.nodes && !s.nodes[s.myself].master && s.nodes[s.myself].slaveof == Some(m)
    && Some(m) in s.slots && m in s.nodes
    && (Manual(e) || (s.nodes[m].failed && !e.noFailover && !e.dataTooOld))
  }

  /** How long an election may take, in milliseconds. */
  function Patience(cfg: Config): int {
    if 2 * cfg.nodeTimeout <= 2000 then 2000 else 2 * cfg.nodeTimeout
  }

  /** The moment from which votes are asked for, once the rank among the replicas is known. */
  function StartTime(s: Server, e: Situation): int {
    if s.authSent || e.mfEnd then s.authTime else s.authTime + e.rankDelay
  }

  /** When a replica does what, and what each of it leaves behind. */
  lemma FailoverIff(s: Server, e: Situation, cfg: Config)
    requires WellFormed(s)
    ensures var (r, outcome) := HandleSlaveFailover(s, e, cfg);
            var age, stands := e.now - s.authTime, exists m :: MayStand(s, e, m);
            var open := stands && age <= Patience(cfg) && StartTime(s, e) <= e.now;
            && (outcome.Scheduled? <==> stands && age > 2 * Patience(cfg))
            && (outcome.Requested? <==> open && !s.authSent)
            && (outcome.Won? <==> open && s.authSent && 2 * s.authCount > s.size)
            && (outcome.Scheduled? ==>
                  r == s.(authTime := e.now + (if e.mfEnd then 0 else e.delay), authCount := 0, authSent := false))
            && (outcome.Requested? ==>
                  r == s.(authTime := StartTime(s, e), currentEpoch := s.currentEpoch + 1,
                          authEpoch := s.currentEpoch + 1, authSent := true))
            && (outcome.Idle? ==>
                  r == s.(authTime := if stands && age <= 2 * Patience(cfg) then StartTime(s, e) else s.authTime))
  {
    hide NumSlots, PeerWellFormed, ReplaceMaster;
    var me := s.nodes[s.myself];
    if me.slaveof.Some? {
      var m := me.slaveof.value;
      assert PeerWellFormed(s.nodes.Keys, me);
      Replicas.OwnsNothing(s.slots, m);
      assert CanFailover(s, e) <==> MayStand(s, e, m);
      assert forall k :: MayStand(s, e, k) ==> k == m;
    }
  }

  /** The winner is a master with the slots of its old master and its own, under the epoch it was elected for. */
  lemma WinnerTakesAll(s: Server, e: Situation, cfg: Config, m: NodeId)
    requires WellFormed(s) && HandleSlaveFailover(s, e, cfg).1.Won? && s.nodes[s.myself].slaveof == Some(m)
    ensures var r := HandleSlaveFailover(s, e, cfg).0;
            && r == s.(slots := r.slots, nodes := s.nodes[s.myself := r.nodes[s.myself]])
            && r.nodes[s.myself] ==
                 s.nodes[s.myself].(master := true, slaveof := None,
                                    configEpoch := Greater(s.nodes[s.myself].configEpoch, s.authEpoch))
            && |r.slots| == CLUSTER_SLOTS
            && (forall j :: 0 <= j < CLUSTER_SLOTS ==>
                  r.slots[j] == if s.slots[j] == Some(m) then Some(s.myself) else s.slots[j])
  {
    hide NumSlots, PeerWellFormed;
  }

  /** A request for votes goes once to every node known, is forced if the failover is manual, and is true. */
  lemma RequestsSent(s: Server, e: Situation, cfg: Config, q: Packet)
    requires WellFormed(s)
    ensures var (r, sent) := Local(s, Failover(s.myself, e), cfg);
            && sent[q] <= 1
            && (q in sent <==>
                  && HandleSlaveFailover(s, e, cfg).1.Requested? && q.kind == AuthRequest(e.mfEnd)
                  && q.to in s.nodes && q.to != s.myself && Truthful(r, q))
  {
    hide HandleSlaveFailover, Header, Truthful, PeerWellFormed;
    var (r, outcome) := HandleSlaveFailover(s, e, cfg);
    if outcome.Requested? {
      FailoverIff(s, e, cfg);
      HeaderIsTruthful(r, q);
      var kind := AuthRequest(e.mfEnd);
      forall m | m in s.nodes
        ensures Header(r, kind, m).to == m && Header(r, kind, m).kind == kind
      {
        HeaderFields(r, kind, m);
      }
    }
  }

  /** The next epoch is taken if and only if both are masters, with one epoch, and the other has the greater name. */
  lemma CollisionIff(s: Server, n: NodeId)
    requires s.myself in s.nodes && n in s.nodes
    ensures var me, other := s.nodes[s.myself], s.nodes[n];
            var e := s.currentEpoch + 1;
            HandleCollision(s, n) ==
              if me.master && other.master && me.configEpoch == other.configEpoch && s.myself < n
              then s.(currentEpoch := e, nodes := s.nodes[s.myself := me.(configEpoch := e)])
              else s
  {
  }

  // ----- CLUSTER SETSLOT NODE

  /** The node's own config epoch is missing or not the greatest it knows of. */
  predicate Behind(s: Server)
    requires s.myself in s.nodes
  {
    var mine := s.nodes[s.myself].configEpoch;
    mine == 0 || mine < s.currentEpoch || exists m :: m in s.nodes && mine < s.nodes[m].configEpoch
  }

  /**
   SETSLOT NODE is refused by a replica, for an unknown node, and for giving away a slot with
   keys. Otherwise the slot is bound; it no longer migrates if it is empty; and a node that
   gets the slot it was importing has imported it, under an epoch as great as any it knows.
   */
  lemma SetSlotIff(s: Server, slot: nat, n: NodeId, keys: nat, maxEpoch: nat)
    requires WellFormed(s) && slot < CLUSTER_SLOTS && KnownMax(s, maxEpoch)
    ensures var r, me := SetSlotNode(s, slot, n, keys, maxEpoch), s.nodes[s.myself];
            var bumps := n == s.myself && s.importing[slot].Some? && Behind(s);
            && (r == Refused(NotMaster) <==> !me.master)
            && (r == Refused(UnknownNode) <==> me.master && n !in s.nodes)
            && (r == Refused(HoldsKeys) <==>
                  me.master && n in s.nodes && s.slots[slot] == Some(s.myself) && n != s.myself && keys > 0)
            && (r.Done? ==>
                  r.server == s.(slots := s.slots[slot := Some(n)],
                                 migrating := if keys == 0 then s.migrating[slot := None] else s.migrating,
                                 importing := if n == s.myself then s.importing[slot := None] else s.importing,
                                 currentEpoch := s.currentEpoch + if bumps then 1 else 0,
                                 nodes := if bumps then s.nodes[s.myself := me.(configEpoch := s.currentEpoch + 1)]
                                          else s.nodes))
  {
    hide PeerWellFormed;
    if s.importing[slot] == None {
      assert s.importing == s.importing[slot := None];
    }
    assert Behind(s) <==> s.nodes[s.myself].configEpoch == 0 || s.nodes[s.myself].configEpoch != maxEpoch;
  }

  // ----- CLUSTER ADDSLOTS

  /** Nothing is wrong with the i-th slot asked for. */
  predicate Fine(s: Server, asked: seq<nat>, i: nat) {
    i < |asked| && asked[i] < |s.slots| && s.slots[asked[i]] == None && forall k :: 0 <= k < i ==> asked[k] != asked[i]
  }

  /** What is wrong with it, when nothing is wrong with those before it. */
  ghost predicate Objection(s: Server, asked: seq<nat>, i: nat, error: AddSlotsError) {
    && (forall k: nat :: k < i ==> Fine(s, asked, k)) && !Fine(s, asked, i)
    && i < |asked| && error.slot == asked[i]
    && (error.BadSlot? <==> asked[i] >= |s.slots|)
    && (error.Busy? <==> asked[i] < |s.slots| && s.slots[asked[i]].Some?)
  }

  /** ADDSLOTS objects to the first slot that is out of range, bound or repeated, and to nothing else. */
  lemma {:induction false} AddSlotsIff(s: Server, asked: seq<nat>, n: nat)
    requires |s.slots| == CLUSTER_SLOTS && n <= |asked| && forall i: nat :: i < n ==> Fine(s, asked, i)
    ensures var problem := FirstProblem(s, asked, n);
            if problem == None then forall i: nat :: i < |asked| ==> Fine(s, asked, i)
            else exists i: nat :: Objection(s, asked, i, problem.value)
    decreases |asked| - n
  {
    if n < |asked| {
      if Fine(s, asked, n) {
        assert asked[n] !in asked[..n];
        assert FirstProblem(s, asked, n) == FirstProblem(s, asked, n + 1);
        AddSlotsIff(s, asked, n + 1);
      } else {
        assert asked[n] < |s.slots| && s.slots[asked[n]] == None ==> asked[n] in asked[..n];
        assert Objection(s, asked, n, FirstProblem(s, asked, n).value);
      }
    }
  }

  /** The slots asked for, and no others, are bound to the node and no longer imported. */
  lemma AddSlotsBinds(s: Server, asked: set<nat>)
    requires WellFormed(s)
    ensures var r := WithSlots(s, asked);
            && r == s.(slots := r.slots, importing := r.importing) && |r.slots| == |r.importing| == CLUSTER_SLOTS
            && (forall j :: 0 <= j < CLUSTER_SLOTS ==>
                  if j in asked then r.slots[j] == Some(s.myself) && r.importing[j] == None
                  else r.slots[j] == s.slots[j] && r.importing[j] == s.importing[j])
  {
  }

  /** The size of the cluster is the number of masters with a slot. */
  lemma SizeIsServingMasters(s: Server)
    ensures ClusterSize(s) == |set m | m in s.nodes && s.nodes[m].master && Some(m) in s.slots|
  {
    hide NumSlots;
    forall m: NodeId
      ensures NumSlots(s.slots, m) > 0 <==> Some(m) in s.slots
    {
      Replicas.OwnsNothing(s.slots, m);
    }
    assert (set m | m in s.nodes && s.nodes[m].master && NumSlots(s.slots, m) > 0)
        == (set m | m in s.nodes && s.nodes[m].master && Some(m) in s.slots);
  }

  // ----- why slots change hands

  /** A reason for which the step binds slot j to owner, in the state before it. */
  ghost predicate Reason(s: Server, l: Label, j: nat, owner: Option<NodeId>) {
    && s.myself in s.nodes && j < |s.slots|
    && match l
       case Deliver(p, _) =>
         && p.sender in s.nodes && j < |p.slots|
         && (match p.kind
             case Update(n, epoch, claims) =>
               && owner == Some(n) && j < |claims| && claims[j] && n in s.nodes && Recorded(s, p, n) < epoch
               && UpForGrabs(s, p, n, epoch, j)
             case _ =>
               && (p.kind.Ping? || p.kind.Pong?)
               && if p.slaveof == None
                  then owner == Some(p.sender) && p.slots[j] && UpForGrabs(s, p, p.sender, p.configEpoch, j)
                  else owner == None && s.slots[j] == Some(p.sender) && s.nodes[p.sender].master)
       case Failover(_, e) =>
         && s.authSent && 2 * s.authCount > s.size && owner == Some(s.myself)
         && s.slots[j].Some? && MayStand(s, e, s.slots[j].value)
       case SetSlot(_, slot, n, keys, _) =>
         && j == slot && owner == Some(n) && s.nodes[s.myself].master
         && (s.slots[j] == Some(s.myself) ==> keys == 0)
       case _ => false
  }

  lemma PacketReason(s: Server, p: Packet, now: int, cfg: Config, j: nat)
    requires WellFormed(s) && PacketWellFormed(p) && p.sender != s.myself && j < CLUSTER_SLOTS
    ensures var r := ProcessPacket(s, p, now, cfg).0;
            && |r.slots| == CLUSTER_SLOTS
            && (r.slots[j] != s.slots[j] ==> Reason(s, Deliver(p, now), j, r.slots[j]))
  {
    hide ProcessPacket, UpForGrabs, Recorded, PeerWellFormed;
    if Announcement(s, p) {
      SlotsAfterPing(s, p, now, cfg);
    } else if Heard(s, p) && p.kind.Update? {
      SlotsAfterUpdate(s, p, now, cfg);
    } else {
      SlotsAfterOthers(s, p, now, cfg);
    }
  }

  lemma FailoverReason(s: Server, n: NodeId, e: Situation, cfg: Config, j: nat)
    requires WellFormed(s) && j < CLUSTER_SLOTS
    ensures var r := HandleSlaveFailover(s, e, cfg).0;
            && |r.slots| == CLUSTER_SLOTS
            && (r.slots[j] != s.slots[j] ==> Reason(s, Failover(n, e), j, r.slots[j]))
  {
    hide HandleSlaveFailover, PeerWellFormed;
    FailoverIff(s, e, cfg);
    if HandleSlaveFailover(s, e, cfg).1.Won? {
      var m :| MayStand(s, e, m);
      WinnerTakesAll(s, e, cfg, m);
    }
  }

  /**
   In every run, a slot changes hands in the table of a node only for one of these reasons: a
   master with a newer configuration than the recorded owner claims it, itself or through an
   UPDATE; the owner announces that it became a replica; the node itself won the election to
   replace the owner; or an administrator says so.
   */
  lemma EveryChangeHasAReason(states: seq<System>, labels: seq<Label>, cfg: Config, i: nat, v: NodeId, j: nat)
    requires IsRun(states, labels, cfg) && i < |labels| && v in states[i].servers && j < CLUSTER_SLOTS
    ensures v in states[i + 1].servers
    ensures var s, r := states[i].servers[v], states[i + 1].servers[v];
            && |s.slots| == |r.slots| == CLUSTER_SLOTS
            && (r.slots[j] != s.slots[j] ==> v == Actor(labels[i]) && Reason(s, labels[i], j, r.slots[j]))
  {
    hide Local, LocallyEnabled, Reason, PeerWellFormed, IsStep, SystemWellFormed;
    assert IsStep(states[i], labels[i], states[i + 1], cfg);
    InPlace(states[i], labels[i], states[i + 1], cfg, v);
    StepIsLocal(states[i], labels[i], states[i + 1], cfg);
    LocalReason(states[i].servers[Actor(labels[i])], labels[i], cfg, j);
  }

  lemma InPlace(a: System, l: Label, b: System, cfg: Config, v: NodeId)
    requires IsStep(a, l, b, cfg) && v in a.servers
    ensures |a.servers[v].slots| == CLUSTER_SLOTS
  {
    assert ServerInPlace(a, v);
  }

  lemma LocalReason(s: Server, l: Label, cfg: Config, j: nat)
    requires WellFormed(s) && LocallyEnabled(s, l) && j < CLUSTER_SLOTS
    ensures var r := Local(s, l, cfg).0;
            |r.slots| == CLUSTER_SLOTS && (r.slots[j] != s.slots[j] ==> Reason(s, l, j, r.slots[j]))
  {
    hide ProcessPacket, HandleSlaveFailover, Broadcast, Header, ClusterSize, PeerWellFormed, Reason, SetSlotNode;
    match l {
      case Deliver(p, now) => PacketReason(s, p, now, cfg, j);
      case Failover(n, e) => FailoverReason(s, n, e, cfg, j);
      case SetSlot(_, _, _, _, _) => SetSlotReason(s, l, j);
      case _ =>
    }
  }

  lemma SetSlotReason(s: Server, l: Label, j: nat)
    requires WellFormed(s) && l.SetSlot? && LocallyEnabled(s, l) && j < CLUSTER_SLOTS
    ensures var r := SetSlotNode(s, l.slot, l.owner, l.keys, l.maxEpoch);
            r.Done? ==>
              && |r.server.slots| == CLUSTER_SLOTS
              && (r.server.slots[j] != s.slots[j] ==> Reason(s, l, j, r.server.slots[j]))
  {
    hide SetSlotNode, PeerWellFormed;
    SetSlotIff(s, l.slot, l.owner, l.keys, l.maxEpoch);
  }
}
