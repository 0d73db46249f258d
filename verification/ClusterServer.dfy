/**
 The cluster state as the program keeps it: slots, importing and migrating are arrays
 updated in place, and every node record carries its own slot bitmap and slot counter
 beside the slot table. Valid() says that bitmaps and counters agree with the table;
 every method keeps it and does to the state exactly what the function of the same name
 in ClusterNode does.
 */
module ClusterServer {
  import opened Prelude
  import opened ClusterNode
  import opened SlotRanges

  datatype Node = Node(peer: Peer, bits: seq<bool>, numslots: nat)

  /** Every bitmap and every counter says what the slot table says. */
  ghost predicate Agrees(nodes: map<NodeId, Node>, slots: seq<Option<NodeId>>) {
    forall m :: m in nodes ==> nodes[m].bits == BitsOf(slots, m) && nodes[m].numslots == NumSlots(slots, m)
  }

  function PeersOf(nodes: map<NodeId, Node>): (r: map<NodeId, Peer>)
    ensures r.Keys == nodes.Keys
  {
    map m | m in nodes :: nodes[m].peer
  }

  lemma PeersKept(nodes: map<NodeId, Node>, n: NodeId, bits: seq<bool>, numslots: nat)
    requires n in nodes
    ensures PeersOf(nodes[n := nodes[n].(bits := bits, numslots := numslots)]) == PeersOf(nodes)
  {
  }

  function Gains(n: Node, slot: nat): Node
    requires slot < |n.bits|
  {
    n.(bits := n.bits[slot := true], numslots := n.numslots + if n.bits[slot] then 0 else 1)
  }

  function Loses(n: Node, slot: nat): Node
    requires slot < |n.bits| && (n.bits[slot] ==> n.numslots > 0)
  {
    n.(bits := n.bits[slot := false], numslots := n.numslots - if n.bits[slot] then 1 else 0)
  }

  /** Changing one slot changes the bitmaps and counters of its old and its new owner only. */
  lemma SlotChange(slots: seq<Option<NodeId>>, slot: nat, owner: Option<NodeId>, id: NodeId)
    requires slot < |slots|
    ensures BitsOf(slots[slot := owner], id) == BitsOf(slots, id)[slot := owner == Some(id)]
    ensures NumSlots(slots[slot := owner], id)
         == NumSlots(slots, id) - (if slots[slot] == Some(id) then 1 else 0) + (if owner == Some(id) then 1 else 0)
  {
    CountUpdate(slots, slot, owner, Some(id));
  }

  lemma AgreesOnceAdded(nodes: map<NodeId, Node>, slots: seq<Option<NodeId>>, n: NodeId, slot: nat)
    requires Agrees(nodes, slots) && n in nodes && slot < |slots| && slots[slot].None?
    ensures Agrees(nodes[n := Gains(nodes[n], slot)], slots[slot := Some(n)])
  {
    hide NumSlots;
    forall m | m in nodes
      ensures BitsOf(slots[slot := Some(n)], m) == BitsOf(slots, m)[slot := n == m]
      ensures NumSlots(slots[slot := Some(n)], m) == NumSlots(slots, m) + if n == m then 1 else 0
    {
      SlotChange(slots, slot, Some(n), m);
    }
  }

  lemma AgreesOnceDeleted(nodes: map<NodeId, Node>, slots: seq<Option<NodeId>>, slot: nat)
    requires Agrees(nodes, slots) && slot < |slots| && slots[slot].Some? && slots[slot].value in nodes
    ensures var n := slots[slot].value;
            && nodes[n].bits[slot] && nodes[n].numslots > 0
            && Agrees(nodes[n := Loses(nodes[n], slot)], slots[slot := None])
  {
    hide NumSlots;
    var n := slots[slot].value;
    CountZeroMeansAbsent(slots, slot);
    forall m | m in nodes
      ensures BitsOf(slots[slot := None], m) == BitsOf(slots, m)[slot := false]
      ensures NumSlots(slots[slot := None], m) == NumSlots(slots, m) - if n == m then 1 else 0
    {
      SlotChange(slots, slot, None, m);
    }
  }

  lemma CountZeroMeansAbsent(slots: seq<Option<NodeId>>, slot: nat)
    requires slot < |slots| && slots[slot].Some?
    ensures NumSlots(slots, slots[slot].value) > 0
  {
    CountZero(slots, slots[slot]);
  }

  lemma WellFormedOnceBound(s: Server, slot: nat, owner: Option<NodeId>)
    requires WellFormed(s) && slot < CLUSTER_SLOTS && (owner.Some? ==> owner.value in s.nodes)
    ensures WellFormed(s.(slots := s.slots[slot := owner]))
  {
  }

  lemma BitAgrees(nodes: map<NodeId, Node>, slots: seq<Option<NodeId>>, n: NodeId, j: nat)
    requires Agrees(nodes, slots) && n in nodes && j < |slots|
    ensures |nodes[n].bits| == |slots| && nodes[n].bits[j] == (slots[j] == Some(n))
    ensures nodes[n].numslots == NumSlots(slots, n)
  {
  }

  /** The table half way through clusterDelNodeSlots. */
  function DeletedUpTo(slots: seq<Option<NodeId>>, n: NodeId, j: nat): seq<Option<NodeId>>
    requires j <= |slots|
  {
    WithoutSlotsOf(slots, n)[..j] + slots[j..]
  }

  lemma DeletedUpToStep(slots: seq<Option<NodeId>>, n: NodeId, j: nat)
    requires j < |slots|
    ensures |DeletedUpTo(slots, n, j)| == |slots| && DeletedUpTo(slots, n, j)[j] == slots[j]
    ensures DeletedUpTo(slots, n, j + 1) == if slots[j] == Some(n) then DeletedUpTo(slots, n, j)[j := None]
            else DeletedUpTo(slots, n, j)
    ensures NumSlots(slots[j..], n) == NumSlots(slots[j + 1..], n) + if slots[j] == Some(n) then 1 else 0
  {
    assert slots[j..][1..] == slots[j + 1..];
  }

  lemma DeletedUpToEnds(slots: seq<Option<NodeId>>, n: NodeId)
    ensures DeletedUpTo(slots, n, 0) == slots
    ensures DeletedUpTo(slots, n, |slots|) == WithoutSlotsOf(slots, n)
    ensures slots[0..] == slots && slots[|slots|..] == []
  {
  }

  /** The table half way through clusterUpdateSlotsConfigWith. */
  function ReboundUpTo(s: Server, sender: NodeId, epoch: nat, claims: seq<bool>, j: nat): seq<Option<NodeId>>
    requires WellFormed(s) && |claims| == CLUSTER_SLOTS && j <= CLUSTER_SLOTS
  {
    Rebound(s, sender, epoch, claims)[..j] + s.slots[j..]
  }

  lemma ReboundUpToStep(s: Server, sender: NodeId, epoch: nat, claims: seq<bool>, j: nat)
    requires WellFormed(s) && |claims| == CLUSTER_SLOTS && j < CLUSTER_SLOTS
    ensures var now := ReboundUpTo(s, sender, epoch, claims, j);
            && |now| == CLUSTER_SLOTS && now[j] == s.slots[j]
            && ReboundUpTo(s, sender, epoch, claims, j + 1)
               == if Takes(s, sender, epoch, claims, j) then now[j := None][j := Some(sender)] else now
  {
    hide Takes;
    var now, next := ReboundUpTo(s, sender, epoch, claims, j), ReboundUpTo(s, sender, epoch, claims, j + 1);
    if Takes(s, sender, epoch, claims, j) {
      assert next == now[j := None][j := Some(sender)];
    } else {
      assert next == now;
    }
  }

  lemma ReboundUpToEnds(s: Server, sender: NodeId, epoch: nat, claims: seq<bool>)
    requires WellFormed(s) && |claims| == CLUSTER_SLOTS
    ensures ReboundUpTo(s, sender, epoch, claims, 0) == s.slots
    ensures ReboundUpTo(s, sender, epoch, claims, CLUSTER_SLOTS) == Rebound(s, sender, epoch, claims)
  {
    hide Takes;
  }

  /** sender_slots after j slots. */
  function ClaimedUpTo(claims: seq<bool>, j: nat): nat
    requires j <= |claims|
  {
    if j == 0 then 0 else ClaimedUpTo(claims, j - 1) + if claims[j - 1] then 1 else 0
  }

  /** migrated_our_slots after j slots. */
  function OursUpTo(s: Server, sender: NodeId, epoch: nat, claims: seq<bool>, j: nat): nat
    requires WellFormed(s) && |claims| == CLUSTER_SLOTS && j <= CLUSTER_SLOTS
  {
    if j == 0 then 0
    else OursUpTo(s, sender, epoch, claims, j - 1) + if TakesFromUs(s, sender, epoch, claims, j - 1) then 1 else 0
  }

  /** dirty_slots after j slots. */
  function DirtyUpTo(s: Server, sender: NodeId, epoch: nat, claims: seq<bool>, keys: seq<nat>, j: nat): seq<nat>
    requires WellFormed(s) && |claims| == |keys| == CLUSTER_SLOTS && j <= CLUSTER_SLOTS
  {
    if j == 0 then []
    else
      DirtyUpTo(s, sender, epoch, claims, keys, j - 1)
      + if Takes(s, sender, epoch, claims,
                 j - 1) && s.slots[j - 1] == Some(s.myself) && keys[j - 1] > 0 then [j - 1] else []
  }

  lemma {:induction false} CountersMean(s: Server, sender: NodeId, epoch: nat, claims: seq<bool>, j: nat)
    requires WellFormed(s) && |claims| == CLUSTER_SLOTS && j <= CLUSTER_SLOTS
    ensures OursUpTo(s, sender, epoch, claims, j) <= ClaimedUpTo(claims, j)
    ensures OursUpTo(s, sender, epoch, claims, j) > 0 <==>
              exists i: nat :: i < j && TakesFromUs(s, sender, epoch, claims, i)
    ensures OursUpTo(s, sender, epoch, claims, j) == ClaimedUpTo(claims, j)
            <==> forall i: nat :: i < j && claims[i] ==> TakesFromUs(s, sender, epoch, claims, i)
  {
    if j > 0 {
      CountersMean(s, sender, epoch, claims, j - 1);
      assert TakesFromUs(s, sender, epoch, claims, j - 1) ==> claims[j - 1];
      hide TakesFromUs, WellFormed;
    }
  }

  lemma {:induction false} DirtyMeans(s: Server, sender: NodeId, epoch: nat, claims: seq<bool>, keys: seq<nat>,
                                      j: nat, i: nat)
    requires WellFormed(s) && |claims| == |keys| == CLUSTER_SLOTS && j <= CLUSTER_SLOTS
    ensures i in DirtyUpTo(s, sender, epoch, claims, keys, j)
            <==> i < j && Takes(s, sender, epoch, claims, i) && s.slots[i] == Some(s.myself) && keys[i] > 0
  {
    hide Takes;
    if j > 0 {
      DirtyMeans(s, sender, epoch, claims, keys, j - 1, i);
    }
  }

  /** The counters decide exactly the case in which the node follows the claimant. */
  lemma FollowsByCounters(s: Server, sender: NodeId, epoch: nat, claims: seq<bool>, cfg: Config)
    requires WellFormed(s) && |claims| == CLUSTER_SLOTS
    ensures FollowsClaimant(s, sender, epoch, claims, cfg) <==>
              && !cfg.noRedirection
              && OursUpTo(s, sender, epoch, claims, CLUSTER_SLOTS) > 0
              && NumSlots(Rebound(s, sender, epoch, claims), CurMaster(s)) == 0
              && (cfg.allowReplicaMigration
                  || ClaimedUpTo(claims, CLUSTER_SLOTS) == OursUpTo(s, sender, epoch, claims, CLUSTER_SLOTS))
  {
    hide Takes, TakesFromUs, NumSlots, OursUpTo, ClaimedUpTo;
    CountersMean(s, sender, epoch, claims, CLUSTER_SLOTS);
  }

  /** In a table changed only below j, the claim takes slot j exactly when it did before. */
  lemma TakesHere(s: Server, v: Server, sender: NodeId, epoch: nat, claims: seq<bool>, j: nat)
    requires WellFormed(s) && WellFormed(v) && |claims| == CLUSTER_SLOTS && j < CLUSTER_SLOTS
    requires v.nodes == s.nodes && v.importing == s.importing && v.slots[j] == s.slots[j]
    ensures Takes(v, sender, epoch, claims, j) == Takes(s, sender, epoch, claims, j)
  {
  }

  function Handed(slots: seq<Option<NodeId>>, from: NodeId, to: NodeId): (r: seq<Option<NodeId>>)
    ensures |r| == |slots|
    ensures forall j :: 0 <= j < |r| ==> r[j] == if slots[j] == Some(from) then Some(to) else slots[j]
  {
    seq(|slots|, j requires 0 <= j < |slots| => if slots[j] == Some(from) then Some(to) else slots[j])
  }

  /** The table half way through clusterFailoverReplaceYourMaster. */
  function HandedUpTo(slots: seq<Option<NodeId>>, from: NodeId, to: NodeId, j: nat): seq<Option<NodeId>>
    requires j <= |slots|
  {
    Handed(slots, from, to)[..j] + slots[j..]
  }

  lemma HandedUpToStep(slots: seq<Option<NodeId>>, from: NodeId, to: NodeId, j: nat)
    requires j < |slots|
    ensures var now := HandedUpTo(slots, from, to, j);
            && |now| == |slots| && now[j] == slots[j]
            && HandedUpTo(slots, from, to, j + 1) == if slots[j] == Some(from) then now[j := None][j := Some(to)]
               else now
  {
    var now, next := HandedUpTo(slots, from, to, j), HandedUpTo(slots, from, to, j + 1);
    if slots[j] == Some(from) {
      assert next == now[j := None][j := Some(to)];
    } else {
      assert next == now;
    }
  }

  lemma HandedUpToEnds(slots: seq<Option<NodeId>>, from: NodeId, to: NodeId)
    ensures HandedUpTo(slots, from, to, 0) == slots
    ensures HandedUpTo(slots, from, to, |slots|) == Handed(slots, from, to)
  {
  }

  lemma ReplaceMasterHands(s: Server)
    requires WellFormed(s) && !s.nodes[s.myself].master
    ensures ReplaceMaster(s)
              == SetNodeAsMaster(s, s.myself).(slots := Handed(s.slots, s.nodes[s.myself].slaveof.value, s.myself))
  {
    assert ReplaceMaster(s).slots == Handed(s.slots, s.nodes[s.myself].slaveof.value, s.myself);
  }

  /** The state half way through binding the slots of CLUSTER ADDSLOTS. */
  function BoundUpTo(s: Server, asked: set<nat>, j: nat): Server
    requires j <= |s.slots| == |s.importing|
  {
    var r := WithSlots(s, asked);
    s.(slots := r.slots[..j] + s.slots[j..], importing := r.importing[..j] + s.importing[j..])
  }

  lemma BoundUpToStep(s: Server, asked: set<nat>, j: nat)
    requires j < |s.slots| == |s.importing|
    ensures var now := BoundUpTo(s, asked, j);
            && |now.slots| == |now.importing| == |s.slots| && now.slots[j] == s.slots[j]
            && BoundUpTo(s, asked, j + 1)
               == if j in asked
                  then now.(slots := now.slots[j := Some(s.myself)], importing := now.importing[j := None])
                  else now
  {
  }

  lemma BoundUpToEnds(s: Server, asked: set<nat>)
    requires |s.slots| == |s.importing|
    ensures BoundUpTo(s, asked, 0) == s && BoundUpTo(s, asked, |s.slots|) == WithSlots(s, asked)
  {
  }

  lemma SlotsLength(s: Server)
    requires WellFormed(s)
    ensures |s.slots| == |s.importing| == CLUSTER_SLOTS
  {
  }

  // ----- adding and deleting nodes

  const NO_SLOTS := seq(CLUSTER_SLOTS, _ => false)

  const NOWHERE: seq<Option<NodeId>> := seq(CLUSTER_SLOTS, _ => None)

  /** createClusterNode: a node nothing is known about. */
  function NewPeer(master: bool): Peer {
    Peer(master, None, false, 0, 0)
  }

  /** A node that no slot is bound to has the empty bitmap. */
  lemma UnknownHasNothing(slots: seq<Option<NodeId>>, n: NodeId)
    requires |slots| == CLUSTER_SLOTS && Some(n) !in slots
    ensures BitsOf(slots, n) == NO_SLOTS && NumSlots(slots, n) == 0
  {
    CountZero(slots, Some(n));
  }

  /** clusterDelNode, on values: nothing names n any more. */
  function Forgotten(s: Server, n: NodeId): (r: Server)
    ensures r.nodes.Keys == s.nodes.Keys - {n}
    ensures forall m :: m in r.nodes ==> r.nodes[m].slaveof != Some(n)
    ensures Some(n) !in r.slots && Some(n) !in r.importing && Some(n) !in r.migrating
  {
    s.(nodes := Orphaned(s.nodes, n), slots := WithoutSlotsOf(s.slots, n),
       importing := WithoutSlotsOf(s.importing, n), migrating := WithoutSlotsOf(s.migrating, n))
  }

  /** freeClusterNode: the replicas of n have no known master, and n is gone. */
  function Orphaned(nodes: map<NodeId, Peer>, n: NodeId): (r: map<NodeId, Peer>)
    ensures r.Keys == nodes.Keys - {n}
  {
    map m | m in nodes && m != n :: if nodes[m].slaveof == Some(n) then nodes[m].(slaveof := None) else nodes[m]
  }

  /** The state half way through the loop of clusterDelNode. */
  function HalfForgotten(s: Server, n: NodeId, j: nat): Server
    requires j <= |s.slots| == |s.importing| == |s.migrating|
  {
    s.(slots := DeletedUpTo(s.slots, n, j), importing := DeletedUpTo(s.importing, n, j),
       migrating := DeletedUpTo(s.migrating, n, j))
  }

  lemma ForgottenIsWellFormed(s: Server, n: NodeId)
    requires WellFormed(s) && n != s.myself && s.nodes[s.myself].slaveof != Some(n)
    ensures WellFormed(Forgotten(s, n))
  {
    var r := Forgotten(s, n);
    forall m | m in r.nodes ensures PeerWellFormed(r.nodes.Keys, r.nodes[m]) {
      assert PeerWellFormed(s.nodes.Keys, s.nodes[m]);
    }
  }

  class Cluster {
    const cfg: Config
    var myself: NodeId
    var currentEpoch: nat
    var lastVoteEpoch: nat
    var nodes: map<NodeId, Node>
    var slots: array<Option<NodeId>>
    var importing: array<Option<NodeId>>
    var migrating: array<Option<NodeId>>
    var size: nat
    var authTime: int
    var authCount: nat
    var authSent: bool
    var authEpoch: nat

    ghost function View(): Server
      reads this, slots, importing, migrating
    {
      Server(myself, currentEpoch, lastVoteEpoch, PeersOf(nodes),
             slots[..], importing[..], migrating[..], size, authTime, authCount, authSent, authEpoch)
    }

    ghost predicate Valid()
      reads this, slots, importing, migrating
    {
      && slots != importing && slots != migrating && importing != migrating
      && WellFormed(View())
      && Agrees(nodes, slots[..])
    }

    /** clusterInit without a saved configuration: a lone master without slots. */
    constructor (id: NodeId, cfg: Config)
      ensures Valid() && this.cfg == cfg
      ensures View() == Server(id, 0, 0, map[id := NewPeer(true)], NOWHERE, NOWHERE, NOWHERE, 1, 0, 0, false, 0)
      ensures fresh(slots) && fresh(importing) && fresh(migrating)
    {
      this.cfg, myself, currentEpoch, lastVoteEpoch := cfg, id, 0, 0;
      nodes := map[id := Node(NewPeer(true), NO_SLOTS, 0)];
      slots := new Option<NodeId>[CLUSTER_SLOTS](_ => None);
      importing := new Option<NodeId>[CLUSTER_SLOTS](_ => None);
      migrating := new Option<NodeId>[CLUSTER_SLOTS](_ => None);
      size, authTime, authCount, authSent, authEpoch := 1, 0, 0, false, 0;
      new;
      assert slots[..] == importing[..] == migrating[..] == NOWHERE;
      UnknownHasNothing(slots[..], id);
    }

    /** clusterAddNode of a node just created. */
    method AddNode(n: NodeId, master: bool)
      requires Valid() && n !in nodes
      modifies this`nodes
      ensures Valid()
      ensures View() == old(View()).(nodes := old(View()).nodes[n := NewPeer(master)])
    {
      hide NumSlots, BitsOf;
      UnknownHasNothing(slots[..], n);
      nodes := nodes[n := Node(NewPeer(master), NO_SLOTS, 0)];
      assert View().nodes == old(View()).nodes[n := NewPeer(master)];
    }

    /** clusterDelNode. CLUSTER FORGET refuses this node itself and the master it replicates. */
    method DelNode(n: NodeId)
      requires Valid() && n in nodes && n != myself && nodes[myself].peer.slaveof != Some(n)
      modifies this`nodes, slots, importing, migrating
      ensures Valid()
      ensures View() == Forgotten(old(View()), n)
    {
      hide Agrees, PeerWellFormed, NumSlots, DeletedUpTo, WellFormed;
      ghost var was := View();
      ForgottenIsWellFormed(was, n);
      DeletedUpToEnds(was.slots, n);
      DeletedUpToEnds(was.importing, n);
      DeletedUpToEnds(was.migrating, n);
      for j := 0 to CLUSTER_SLOTS
        invariant Valid() && View() == HalfForgotten(was, n, j)
      {
        ForgetSlot(n, j, was);
      }
      FreeNode(n);
    }

    /** One round of the loop of clusterDelNode. */
    method ForgetSlot(n: NodeId, j: nat, ghost was: Server)
      requires Valid() && j < CLUSTER_SLOTS && |was.slots| == |was.importing| == |was.migrating| == CLUSTER_SLOTS
      requires View() == HalfForgotten(was, n, j)
      modifies this`nodes, slots, importing, migrating
      ensures Valid() && View() == HalfForgotten(was, n, j + 1) && nodes.Keys == old(nodes.Keys)
    {
      hide Agrees, PeerWellFormed, NumSlots, DeletedUpTo, PeersOf;
      DeletedUpToStep(was.slots, n, j);
      DeletedUpToStep(was.importing, n, j);
      DeletedUpToStep(was.migrating, n, j);
      if importing[j] == Some(n) { importing[j] := None; }
      if migrating[j] == Some(n) { migrating[j] := None; }
      assert importing[..] == DeletedUpTo(was.importing, n, j + 1);
      assert migrating[..] == DeletedUpTo(was.migrating, n, j + 1);
      assert slots[..] == old(slots[..]);
      if slots[j] == Some(n) {
        var _ := DelSlot(j);
      }
    }

    /** freeClusterNode, once nothing names n but its replicas. */
    method FreeNode(n: NodeId)
      requires Valid() && n in nodes && WellFormed(View().(nodes := Orphaned(View().nodes, n)))
      modifies this`nodes
      ensures Valid()
      ensures View() == old(View()).(nodes := Orphaned(old(View()).nodes, n))
    {
      hide NumSlots, BitsOf, WellFormed;
      nodes := map m | m in nodes && m != n ::
        if nodes[m].peer.slaveof == Some(n) then nodes[m].(peer := nodes[m].peer.(slaveof := None)) else nodes[m];
      assert View().nodes == Orphaned(old(View()).nodes, n);
    }

    /** clusterNodeSetSlotBit: returns the old value of the bit. */
    method SetSlotBit(n: NodeId, slot: nat) returns (was: bool)
      requires n in nodes && slot < |nodes[n].bits|
      modifies this`nodes
      ensures was == old(nodes)[n].bits[slot]
      ensures nodes == old(nodes)[n := Gains(old(nodes)[n], slot)]
    {
      was := nodes[n].bits[slot];
      nodes := nodes[n := nodes[n].(bits := nodes[n].bits[slot := true])];
      if !was {
        nodes := nodes[n := nodes[n].(numslots := nodes[n].numslots + 1)];
      }
    }

    /** clusterNodeClearSlotBit: returns the old value of the bit. */
    method ClearSlotBit(n: NodeId, slot: nat) returns (was: bool)
      requires n in nodes && slot < |nodes[n].bits| && (nodes[n].bits[slot] ==> nodes[n].numslots > 0)
      modifies this`nodes
      ensures was == old(nodes)[n].bits[slot]
      ensures nodes == old(nodes)[n := Loses(old(nodes)[n], slot)]
    {
      was := nodes[n].bits[slot];
      nodes := nodes[n := nodes[n].(bits := nodes[n].bits[slot := false])];
      if was {
        nodes := nodes[n := nodes[n].(numslots := nodes[n].numslots - 1)];
      }
    }

    /** clusterAddSlot */
    method AddSlot(n: NodeId, slot: nat) returns (ok: bool)
      requires Valid() && n in nodes && slot < CLUSTER_SLOTS
      modifies this`nodes, slots
      ensures Valid()
      ensures ok == old(slots[slot]).None? && nodes.Keys == old(nodes.Keys)
      ensures View() == old(View()).(slots := if ok then old(slots[..])[slot := Some(n)] else old(slots[..]))
    {
      if slots[slot].Some? {
        return false;
      }
      hide Agrees, PeerWellFormed, NumSlots, BitsOf, PeersOf;
      BitAgrees(nodes, slots[..], n, slot);
      PeersKept(nodes, n, Gains(nodes[n], slot).bits, Gains(nodes[n], slot).numslots);
      AgreesOnceAdded(nodes, slots[..], n, slot);
      WellFormedOnceBound(View(), slot, Some(n));
      hide WellFormed;
      var _ := SetSlotBit(n, slot);
      slots[slot] := Some(n);
      assert slots[..] == old(slots[..])[slot := Some(n)];
      assert View() == old(View()).(slots := slots[..]);
      ok := true;
    }

    /** clusterDelSlot: the bit of the owner is always set, so its assertion never fires. */
    method DelSlot(slot: nat) returns (ok: bool)
      requires Valid() && slot < CLUSTER_SLOTS
      modifies this`nodes, slots
      ensures Valid()
      ensures ok == old(slots[slot]).Some? && nodes.Keys == old(nodes.Keys)
      ensures View() == old(View()).(slots := old(slots[..])[slot := None])
    {
      if slots[slot].None? {
        assert slots[..] == slots[..][slot := None];
        return false;
      }
      hide Agrees, PeerWellFormed, NumSlots, BitsOf, PeersOf;
      var n := slots[slot].value;
      BitAgrees(nodes, slots[..], n, slot);
      AgreesOnceDeleted(nodes, slots[..], slot);
      PeersKept(nodes, n, Loses(nodes[n], slot).bits, Loses(nodes[n], slot).numslots);
      WellFormedOnceBound(View(), slot, None);
      hide WellFormed;
      var bit := ClearSlotBit(n, slot);
      assert bit;
      slots[slot] := None;
      assert slots[..] == old(slots[..])[slot := None];
      assert View() == old(View()).(slots := slots[..]);
      ok := true;
    }

    /** clusterDelNodeSlots */
    method DelNodeSlots(n: NodeId) returns (deleted: nat)
      requires Valid() && n in nodes
      modifies this`nodes, slots
      ensures Valid()
      ensures View() == old(View()).(slots := WithoutSlotsOf(old(slots[..]), n))
      ensures deleted == NumSlots(old(slots[..]), n)
    {
      hide Agrees, PeerWellFormed, NumSlots, DeletedUpTo;
      deleted := 0;
      ghost var was := View();
      DeletedUpToEnds(was.slots, n);
      for j := 0 to CLUSTER_SLOTS
        invariant Valid() && n in nodes
        invariant View() == was.(slots := DeletedUpTo(was.slots, n, j))
        invariant deleted + NumSlots(was.slots[j..], n) == NumSlots(was.slots, n)
      {
        DeletedUpToStep(was.slots, n, j);
        BitAgrees(nodes, slots[..], n, j);
        if nodes[n].bits[j] {
          var _ := DelSlot(j);
          deleted := deleted + 1;
        }
      }
      NoSlotsLeft(n);
    }

    lemma NoSlotsLeft(n: NodeId)
      ensures NumSlots([], n) == 0
    {
    }

    /** clusterCloseAllSlots */
    method CloseAllSlots()
      requires Valid()
      modifies importing, migrating
      ensures Valid()
      ensures View()
                == old(View()).(importing := seq(CLUSTER_SLOTS, _ => None),
                                migrating := seq(CLUSTER_SLOTS, _ => None))
    {
      hide Agrees;
      forall j | 0 <= j < importing.Length { importing[j] := None; }
      forall j | 0 <= j < migrating.Length { migrating[j] := None; }
      assert importing[..] == seq(CLUSTER_SLOTS, _ => None);
      assert migrating[..] == seq(CLUSTER_SLOTS, _ => None);
      assert slots[..] == old(slots[..]);
    }

    /** Replacing the shared part of one record leaves every bitmap and counter as it was. */
    method SetPeer(n: NodeId, peer: Peer)
      requires Valid() && n in nodes && WellFormed(View().(nodes := View().nodes[n := peer]))
      modifies this`nodes
      ensures Valid() && nodes.Keys == old(nodes.Keys)
      ensures View() == old(View()).(nodes := old(View()).nodes[n := peer])
    {
      hide PeerWellFormed, NumSlots, WellFormed;
      nodes := nodes[n := nodes[n].(peer := peer)];
      assert View().nodes == old(View()).nodes[n := peer];
    }

    /** clusterSetMaster. aborts: its assertion that this node has no slots does not hold. */
    method SetMasterOfMyself(n: NodeId) returns (aborts: bool)
      requires Valid() && n in nodes && n != myself
      modifies this`nodes, importing, migrating
      ensures Valid()
      ensures View() == SetMaster(old(View()), n)
      ensures aborts == (NumSlots(old(slots[..]), old(myself)) != 0)
    {
      hide Agrees, PeerWellFormed, NumSlots;
      ghost var was := View();
      BitAgrees(nodes, slots[..], myself, 0);
      aborts := nodes[myself].numslots != 0;
      var me := nodes[myself].peer;
      if me.master {
        CloseAllSlots();
      }
      RoleChange(View(), n);
      SetPeer(myself, me.(master := false, slaveof := Some(n)));
    }

    lemma RoleChange(s: Server, n: NodeId)
      requires WellFormed(s) && n in s.nodes && n != s.myself
      ensures WellFormed(s.(nodes := s.nodes[s.myself := s.nodes[s.myself].(master := false, slaveof := Some(n))]))
    {
    }

    /**
     clusterUpdateSlotsConfigWith. keys[j] is the number of keys this node holds in slot
     j; purged lists the slots whose keys are deleted, aborts says that an assertion fails.
     */
    method UpdateSlotsConfigWith(sender: NodeId, epoch: nat, claims: seq<bool>,
                                 keys: seq<nat>) returns (purged: seq<nat>, aborts: bool)
      requires Valid() && sender in nodes && |claims| == |keys| == CLUSTER_SLOTS
      modifies this`nodes, slots, importing, migrating
      ensures Valid()
      ensures View() == UpdateSlots(old(View()), sender, epoch, claims, cfg)
      ensures var claim := Claim(old(View()), sender, epoch, claims);
              && ClaimWellFormed(claim)
              && (forall j: nat :: j in purged <==> Purges(claim, keys, cfg, j))
              && (aborts <==> AssertionFails(claim, cfg))
    {
      hide Agrees, PeerWellFormed, NumSlots, ReboundUpTo, OursUpTo, ClaimedUpTo, DirtyUpTo, FollowsClaimant, Takes,
          TakesFromUs;
      purged, aborts := [], false;
      if sender == myself {
        return;
      }
      ghost var was := View();
      var curmaster := if nodes[myself].peer.master then myself else nodes[myself].peer.slaveof.value;
      assert curmaster == CurMaster(was);
      var senderSlots, migratedOurs, dirty := 0, 0, [];
      ReboundUpToEnds(was, sender, epoch, claims);
      CountersStart(was, sender, epoch, claims, keys);
      for j := 0 to CLUSTER_SLOTS
        invariant Valid() && sender in nodes
        invariant View() == was.(slots := ReboundUpTo(was, sender, epoch, claims, j))
        invariant senderSlots == ClaimedUpTo(claims, j)
        invariant migratedOurs == OursUpTo(was, sender, epoch, claims, j)
        invariant dirty == DirtyUpTo(was, sender, epoch, claims, keys, j)
      {
        ReboundUpToStep(was, sender, epoch, claims, j);
        CountersStep(was, sender, epoch, claims, keys, j);
        TakesHere(was, View(), sender, epoch, claims, j);
        var takes := TakesSlot(sender, epoch, claims, j);
        assert slots[..][j] == was.slots[j];
        if claims[j] {
          senderSlots := senderSlots + 1;
          if takes {
            if slots[j] == Some(myself) && keys[j] > 0 {
              dirty := dirty + [j];
            }
            if slots[j] == Some(curmaster) {
              migratedOurs := migratedOurs + 1;
            }
            var _ := DelSlot(j);
            var _ := AddSlot(sender, j);
          }
        }
      }
      FollowsByCounters(was, sender, epoch, claims, cfg);
      forall i: nat {
        DirtyMeans(was, sender, epoch, claims, keys, CLUSTER_SLOTS, i);
      }
      if cfg.noRedirection {
        return;
      }
      BitAgrees(nodes, slots[..], curmaster, 0);
      if migratedOurs > 0 && nodes[curmaster].numslots == 0
         && (cfg.allowReplicaMigration || senderSlots == migratedOurs)
      {
        aborts := SetMasterOfMyself(sender);
      } else {
        purged := dirty;
      }
    }

    /** The test the loop of clusterUpdateSlotsConfigWith puts on one slot. */
    method TakesSlot(sender: NodeId, epoch: nat, claims: seq<bool>, j: nat) returns (r: bool)
      requires Valid() && |claims| == CLUSTER_SLOTS && j < CLUSTER_SLOTS
      ensures r == Takes(View(), sender, epoch, claims, j)
    {
      r := claims[j] && slots[j] != Some(sender) && importing[j].None?
           && (slots[j].None? || nodes[slots[j].value].peer.configEpoch < epoch);
    }

    lemma CountersStart(s: Server, sender: NodeId, epoch: nat, claims: seq<bool>, keys: seq<nat>)
      requires WellFormed(s) && |claims| == |keys| == CLUSTER_SLOTS
      ensures ClaimedUpTo(claims, 0) == OursUpTo(s, sender, epoch, claims, 0) == 0
      ensures DirtyUpTo(s, sender, epoch, claims, keys, 0) == []
    {
    }

    lemma CountersStep(s: Server, sender: NodeId, epoch: nat, claims: seq<bool>, keys: seq<nat>, j: nat)
      requires WellFormed(s) && |claims| == |keys| == CLUSTER_SLOTS && j < CLUSTER_SLOTS
      ensures ClaimedUpTo(claims, j + 1) == ClaimedUpTo(claims, j) + if claims[j] then 1 else 0
      ensures Takes(s, sender, epoch, claims, j) ==> claims[j]
      ensures OursUpTo(s, sender, epoch, claims, j + 1)
           == OursUpTo(s, sender, epoch, claims, j)
              + if Takes(s, sender, epoch, claims, j) && s.slots[j] == Some(CurMaster(s)) then 1 else 0
      ensures DirtyUpTo(s, sender, epoch, claims, keys, j + 1)
           == DirtyUpTo(s, sender, epoch, claims, keys, j)
              + if Takes(s, sender, epoch, claims, j) && s.slots[j] == Some(s.myself) && keys[j] > 0 then [j] else []
    {
    }

    // ----- epochs

    /** clusterGetMaxEpoch */
    method GetMaxEpoch() returns (max: nat)
      requires Valid()
      ensures KnownMax(View(), max)
    {
      hide Agrees, WellFormed;
      max := 0;
      var todo := nodes.Keys;
      while todo != {}
        invariant todo <= nodes.Keys
        invariant forall m :: m in nodes && m !in todo ==> nodes[m].peer.configEpoch <= max
        invariant max == 0 || exists m :: m in nodes && nodes[m].peer.configEpoch == max
        decreases todo
      {
        var m :| m in todo;
        if nodes[m].peer.configEpoch > max {
          max := nodes[m].peer.configEpoch;
        }
        todo := todo - {m};
      }
      ghost var v := View();
      assert forall m :: m in nodes ==> v.nodes[m] == nodes[m].peer;
      if max < currentEpoch {
        max := currentEpoch;
      } else if max > currentEpoch {
        var m :| m in nodes && nodes[m].peer.configEpoch == max;
        assert v.nodes[m].configEpoch == max;
      }
    }

    lemma EpochChange(s: Server, m: NodeId, e: nat)
      requires WellFormed(s) && m in s.nodes
      ensures WellFormed(WithEpoch(s, m, e))
    {
    }

    method TakeEpoch()
      requires Valid()
      modifies this`nodes, this`currentEpoch
      ensures Valid()
      ensures View() == TakeNextEpoch(old(View()))
    {
      hide Agrees;
      currentEpoch := currentEpoch + 1;
      EpochChange(View(), myself, currentEpoch);
      SetPeer(myself, nodes[myself].peer.(configEpoch := currentEpoch));
    }

    /** clusterBumpConfigEpochWithoutConsensus */
    method BumpConfigEpochWithoutConsensus() returns (bumped: bool, ghost max: nat)
      requires Valid()
      modifies this`nodes, this`currentEpoch
      ensures Valid() && KnownMax(old(View()), max)
      ensures View() == BumpConfigEpoch(old(View()), max)
      ensures bumped <==> old(nodes)[myself].peer.configEpoch == 0 || old(nodes)[myself].peer.configEpoch != max
    {
      hide Agrees, PeerWellFormed;
      var maxEpoch := GetMaxEpoch();
      max := maxEpoch;
      assert View().nodes[myself] == nodes[myself].peer;
      bumped := nodes[myself].peer.configEpoch == 0 || nodes[myself].peer.configEpoch != maxEpoch;
      if bumped {
        TakeEpoch();
      }
    }

    /** clusterHandleConfigEpochCollision */
    method HandleConfigEpochCollision(sender: NodeId)
      requires Valid() && sender in nodes
      modifies this`nodes, this`currentEpoch
      ensures Valid()
      ensures View() == HandleCollision(old(View()), sender)
    {
      hide Agrees, PeerWellFormed;
      if nodes[sender].peer.configEpoch != nodes[myself].peer.configEpoch
         || !nodes[sender].peer.master || !nodes[myself].peer.master {
        return;
      }
      if sender <= myself {
        return;
      }
      TakeEpoch();
    }

    // ----- votes

    /** clusterBuildMessageHdr */
    method BuildMessageHdr(kind: Kind, to: NodeId) returns (p: Packet)
      requires Valid()
      ensures p == Header(View(), kind, to)
    {
      hide PeerWellFormed, NumSlots;
      var me := nodes[myself].peer;
      var master := if !me.master && me.slaveof.Some? then me.slaveof.value else myself;
      assert master == Spokesman(View());
      assert View().nodes[master] == nodes[master].peer && View().nodes[myself] == nodes[myself].peer;
      p := Packet(kind, myself, to, currentEpoch, nodes[master].peer.configEpoch, nodes[master].bits, me.slaveof);
    }

    /** The claim check of clusterSendFailoverAuthIfNeeded. */
    method CheckClaims(claims: seq<bool>, epoch: nat) returns (ok: bool)
      requires Valid() && |claims| == CLUSTER_SLOTS
      ensures ok == ClaimsCurrent(View(), claims, epoch)
    {
      hide Agrees, PeerWellFormed;
      ghost var v := View();
      for j := 0 to CLUSTER_SLOTS
        invariant forall i :: 0 <= i < j && claims[i] && v.slots[i].Some? ==>
                    v.nodes[v.slots[i].value].configEpoch <= epoch
      {
        assert v.slots[j] == slots[j];
        if claims[j] && slots[j].Some? && nodes[slots[j].value].peer.configEpoch > epoch {
          assert v.nodes[v.slots[j].value].configEpoch > epoch;
          return false;
        }
      }
      return true;
    }

    /** clusterSendFailoverAuthIfNeeded */
    method SendFailoverAuthIfNeeded(request: Packet, now: int) returns (sent: multiset<Packet>)
      requires Valid() && PacketWellFormed(request) && request.kind.AuthRequest? && request.sender in nodes
      modifies this`nodes, this`lastVoteEpoch
      ensures Valid()
      ensures (View(), sent) == Vote(old(View()), request, now, cfg)
    {
      hide NumSlots, ClaimsCurrent, BitsOf;
      sent := multiset{};
      ghost var was := View();
      var node := nodes[request.sender].peer;
      assert node == was.nodes[request.sender];
      assert nodes[myself].numslots == NumSlots(was.slots, was.myself);
      if !nodes[myself].peer.master || nodes[myself].numslots == 0 { return; }
      if request.currentEpoch < currentEpoch { return; }
      if lastVoteEpoch == currentEpoch { return; }
      if node.master || node.slaveof.None? { return; }
      var master := node.slaveof.value;
      assert nodes[master].peer == was.nodes[master];
      if !nodes[master].peer.failed && !request.kind.forceAck { return; }
      if now - nodes[master].peer.votedTime < cfg.nodeTimeout * 2 { return; }
      var current := CheckClaims(request.slots, request.configEpoch);
      if !current { return; }
      lastVoteEpoch := currentEpoch;
      assert WellFormed(View().(nodes := View().nodes[master := nodes[master].peer.(votedTime := now)])) by {
        VotedTimeChange(View(), master, now);
      }
      hide WellFormed;
      SetPeer(master, nodes[master].peer.(votedTime := now));
      var ack := BuildMessageHdr(AuthAck, request.sender);
      sent := multiset{ack};
    }

    lemma VotedTimeChange(s: Server, m: NodeId, now: int)
      requires WellFormed(s) && m in s.nodes
      ensures WellFormed(s.(nodes := s.nodes[m := s.nodes[m].(votedTime := now)]))
    {
    }

    // ----- failover

    method SetNodeMaster(n: NodeId)
      requires Valid() && n in nodes
      modifies this`nodes
      ensures Valid() && nodes.Keys == old(nodes.Keys)
      ensures View() == SetNodeAsMaster(old(View()), n)
    {
      hide Agrees;
      if nodes[n].peer.master {
        return;
      }
      assert WellFormed(SetNodeAsMaster(View(), n));
      assert View().nodes.Keys == nodes.Keys;
      SetPeer(n, nodes[n].peer.(master := true, slaveof := None));
    }

    /** clusterFailoverReplaceYourMaster */
    method FailoverReplaceYourMaster()
      requires Valid()
      modifies this`nodes, slots
      ensures Valid()
      ensures View() == ReplaceMaster(old(View()))
    {
      hide Agrees, PeerWellFormed, NumSlots, HandedUpTo, SetNodeAsMaster;
      ghost var first := View();
      if nodes[myself].peer.master || nodes[myself].peer.slaveof.None? {
        return;
      }
      var oldmaster := nodes[myself].peer.slaveof.value;
      ReplaceMasterHands(View());
      assert oldmaster in nodes by { MasterKnown(View()); }
      SetNodeMaster(myself);
      ghost var was := View();
      HandedUpToEnds(was.slots, oldmaster, myself);
      for j := 0 to CLUSTER_SLOTS
        invariant Valid() && oldmaster in nodes
        invariant View() == was.(slots := HandedUpTo(was.slots, oldmaster, was.myself, j))
      {
        HandedUpToStep(was.slots, oldmaster, myself, j);
        BitAgrees(nodes, slots[..], oldmaster, j);
        if nodes[oldmaster].bits[j] {
          var _ := DelSlot(j);
          var _ := AddSlot(myself, j);
        }
      }
      assert was.slots == first.slots by { SameSlots(first); }
    }

    lemma MasterKnown(s: Server)
      requires WellFormed(s) && s.nodes[s.myself].slaveof.Some?
      ensures s.nodes[s.myself].slaveof.value in s.nodes
    {
      assert PeerWellFormed(s.nodes.Keys, s.nodes[s.myself]);
    }

    lemma SameSlots(s: Server)
      requires WellFormed(s)
      ensures SetNodeAsMaster(s, s.myself).slots == s.slots
    {
    }

    /** The conditions clusterHandleSlaveFailover puts on any failover. */
    method CheckFailover(e: Situation) returns (ok: bool)
      requires Valid()
      ensures ok == CanFailover(View(), e)
    {
      hide Agrees, NumSlots, PeerWellFormed;
      ghost var was := View();
      var manual := e.mfEnd && e.mfCanStart;
      var me := nodes[myself].peer;
      assert me == was.nodes[was.myself];
      if me.master || me.slaveof.None? { return false; }
      MasterKnown(View());
      var master := nodes[me.slaveof.value];
      BitAgrees(nodes, slots[..], me.slaveof.value, 0);
      assert master.peer == was.nodes[me.slaveof.value] && master.numslots == NumSlots(was.slots, me.slaveof.value);
      if (!master.peer.failed && !manual) || (e.noFailover && !manual) || master.numslots == 0 { return false; }
      if e.dataTooOld && !manual { return false; }
      return true;
    }

    /** The quorum branch of clusterHandleSlaveFailover. */
    method TakeOver()
      requires Valid()
      modifies this`nodes, slots
      ensures Valid()
      ensures var s := old(View());
              View() == ReplaceMaster(if s.nodes[s.myself].configEpoch < s.authEpoch
                                      then WithEpoch(s, s.myself, s.authEpoch) else s)
    {
      hide Agrees, ReplaceMaster, PeerWellFormed;
      ghost var was := View();
      assert nodes[myself].peer == was.nodes[was.myself];
      if nodes[myself].peer.configEpoch < authEpoch {
        EpochChange(View(), myself, authEpoch);
        SetPeer(myself, nodes[myself].peer.(configEpoch := authEpoch));
      }
      FailoverReplaceYourMaster();
    }

    /** clusterHandleSlaveFailover */
    method HandleFailover(e: Situation) returns (outcome: Outcome, sent: multiset<Packet>)
      requires Valid()
      modifies this, slots
      ensures Valid() && slots == old(slots) && importing == old(importing) && migrating == old(migrating)
      ensures (View(), outcome) == HandleSlaveFailover(old(View()), e, cfg)
      ensures sent == if outcome.Requested? then Broadcast(View(), AuthRequest(e.mfEnd)) else multiset{}
    {
      hide Agrees, CanFailover, ReplaceMaster, Broadcast, WellFormed, PeersOf, AuthTimeout, WithEpoch;
      outcome, sent := Idle, multiset{};
      var age := e.now - authTime;
      var can := CheckFailover(e);
      if !can { return; }
      if age > AuthTimeout(cfg) * 2 {
        ScheduleElection(if e.mfEnd then e.now else e.now + e.delay);
        outcome := Scheduled;
        return;
      }
      if !authSent && !e.mfEnd {
        DelayElection(e.rankDelay);
      }
      if e.now < authTime { return; }
      if age > AuthTimeout(cfg) { return; }
      if !authSent {
        sent := StartElection(e.mfEnd);
        outcome := Requested;
        return;
      }
      if authCount >= size / 2 + 1 {
        TakeOver();
        outcome := Won;
      }
    }

    method ScheduleElection(time: int)
      requires Valid()
      modifies this`authTime, this`authCount, this`authSent
      ensures Valid()
      ensures View() == old(View()).(authTime := time, authCount := 0, authSent := false)
    {
      hide Agrees, PeerWellFormed, PeersOf;
      authTime, authCount, authSent := time, 0, false;
    }

    method DelayElection(delay: nat)
      requires Valid()
      modifies this`authTime
      ensures Valid()
      ensures View() == old(View()).(authTime := old(authTime) + delay)
    {
      hide Agrees, PeerWellFormed, PeersOf;
      authTime := authTime + delay;
    }

    method StartElection(force: bool) returns (sent: multiset<Packet>)
      requires Valid()
      modifies this`currentEpoch, this`authEpoch, this`authSent
      ensures Valid()
      ensures View() == old(View()).(currentEpoch := old(currentEpoch) + 1, authEpoch := old(currentEpoch) + 1,
                                     authSent := true)
      ensures sent == Broadcast(View(), AuthRequest(force))
    {
      hide Agrees, PeerWellFormed, PeersOf, Broadcast;
      currentEpoch := currentEpoch + 1;
      authEpoch := currentEpoch;
      sent := RequestFailoverAuth(force);
      authSent := true;
    }

    /** clusterRequestFailoverAuth: one request per known node, built after the new epoch was taken. */
    method RequestFailoverAuth(force: bool) returns (sent: multiset<Packet>)
      requires Valid()
      ensures sent == Broadcast(View(), AuthRequest(force))
      ensures sent == Broadcast(View().(authSent := true), AuthRequest(force))
    {
      hide Agrees, PeerWellFormed, Header, WellFormed;
      var todo, packets := nodes.Keys - {myself}, {};
      while todo != {}
        invariant todo <= nodes.Keys - {myself}
        invariant packets == set m | m in nodes.Keys - {myself} - todo :: Header(View(), AuthRequest(force), m)
        decreases todo
      {
        var m :| m in todo;
        var p := BuildMessageHdr(AuthRequest(force), m);
        packets := packets + {p};
        todo := todo - {m};
      }
      assert packets == set m | m in View().nodes.Keys && m != myself :: Header(View(), AuthRequest(force), m);
      sent := multiset(packets);
      SentFlagInvisible(View(), force);
    }

    lemma SentFlagInvisible(s: Server, force: bool)
      requires WellFormed(s)
      ensures WellFormed(s.(authSent := true))
      ensures Broadcast(s.(authSent := true), AuthRequest(force)) == Broadcast(s, AuthRequest(force))
    {
      var r := s.(authSent := true);
      assert forall m :: m in s.nodes ==> Header(r, AuthRequest(force), m) == Header(s, AuthRequest(force), m);
      assert (set m | m in s.nodes.Keys && m != s.myself :: Header(r, AuthRequest(force), m))
          == (set m | m in s.nodes.Keys && m != s.myself :: Header(s, AuthRequest(force), m));
    }

    // ----- packets

    /** The epochs any packet of a known sender carries. */
    method ObservePacketEpochs(p: Packet)
      requires Valid() && p.sender in nodes
      modifies this`nodes, this`currentEpoch
      ensures Valid() && nodes.Keys == old(nodes.Keys)
      ensures View() == ObserveEpochs(old(View()), p)
    {
      hide Agrees, PeerWellFormed;
      assert nodes[p.sender].peer == View().nodes[p.sender];
      if p.currentEpoch > currentEpoch {
        currentEpoch := p.currentEpoch;
      }
      if p.configEpoch > nodes[p.sender].peer.configEpoch {
        EpochChange(View(), p.sender, p.configEpoch);
        SetPeer(p.sender, nodes[p.sender].peer.(configEpoch := p.configEpoch));
      }
    }

    /** The role a PING, PONG or MEET header announces. */
    method ObservePacketRole(p: Packet)
      requires Valid() && p.sender in nodes && p.sender != myself
      modifies this`nodes, slots
      ensures Valid() && nodes.Keys == old(nodes.Keys)
      ensures View() == ObserveRole(old(View()), p)
    {
      hide Agrees, WithoutSlotsOf, NumSlots;
      ghost var was := View();
      assert was.nodes.Keys == nodes.Keys && nodes[p.sender].peer == was.nodes[p.sender];
      if p.slaveof.None? {
        SetNodeMaster(p.sender);
        return;
      }
      if nodes[p.sender].peer.master {
        var _ := DelNodeSlots(p.sender);
        assert View().nodes == was.nodes && View().nodes.Keys == nodes.Keys;
        SetPeer(p.sender, nodes[p.sender].peer.(master := false));
      }
      if p.slaveof.value in nodes && nodes[p.sender].peer.slaveof != p.slaveof {
        SetPeer(p.sender, nodes[p.sender].peer.(slaveof := p.slaveof));
      }
      assert View().nodes == ObserveRole(was, p).nodes;
    }

    /** memcmp of the claimed bitmap with the recorded one. */
    method IsDirty(p: Packet) returns (dirty: bool)
      requires Valid() && p.sender in nodes
      ensures dirty == Dirty(View(), p)
    {
      hide PeerWellFormed, NumSlots;
      var sender := nodes[p.sender].peer;
      assert sender == View().nodes[p.sender];
      assert sender.slaveof.Some? ==> sender.slaveof.value in nodes by { SlaveofKnown(View(), p.sender); }
      if sender.master {
        dirty := nodes[p.sender].bits != p.slots;
      } else if sender.slaveof.Some? {
        dirty := nodes[sender.slaveof.value].bits != p.slots;
      } else {
        dirty := false;
      }
    }

    lemma SlaveofKnown(s: Server, m: NodeId)
      requires WellFormed(s) && m in s.nodes
      ensures s.nodes[m].slaveof.Some? ==> s.nodes[m].slaveof.value in s.nodes
    {
      assert PeerWellFormed(s.nodes.Keys, s.nodes[m]);
    }

    /** The scan for a slot the sender claims with an old configuration. */
    method FindNewerOwner(p: Packet) returns (owner: Option<NodeId>)
      requires Valid() && PacketWellFormed(p)
      ensures owner == NewerOwner(View(), p, 0)
    {
      hide Agrees, PeerWellFormed;
      ghost var v := View();
      for j := 0 to CLUSTER_SLOTS
        invariant NewerOwner(v, p, 0) == NewerOwner(v, p, j)
      {
        assert v.slots[j] == slots[j];
        if p.slots[j] {
          if slots[j] == Some(p.sender) || slots[j].None? { continue; }
          assert nodes[slots[j].value].peer == v.nodes[slots[j].value];
          if nodes[slots[j].value].peer.configEpoch > p.configEpoch {
            return slots[j];
          }
        }
      }
      return None;
    }

    /** What looking at a slot claim does beside changing the cluster state. */
    ghost predicate Consequences(claim: Option<Claim>, keys: seq<nat>, purged: seq<nat>, aborts: bool)
      requires |keys| == CLUSTER_SLOTS && (claim.Some? ==> ClaimWellFormed(claim.value))
    {
      match claim
      case None => purged == [] && !aborts
      case Some(c) =>
        && (forall j: nat :: j in purged <==> Purges(c, keys, cfg, j))
        && (aborts <==> AssertionFails(c, cfg))
    }

    /** The role and the slot claims a PING, PONG or MEET announces. */
    method ObservePacketClaims(p: Packet, keys: seq<nat>) returns (dirty: bool, purged: seq<nat>, aborts: bool)
      requires Valid() && PacketWellFormed(p) && p.sender in nodes && p.sender != myself && |keys| == CLUSTER_SLOTS
      modifies this`nodes, slots, importing, migrating
      ensures Valid() && View() == ObserveClaims(old(View()), p, cfg) && dirty == Dirty(ObserveRole(old(View()), p), p)
      ensures Consequences(PingClaim(old(View()), p), keys, purged, aborts)
    {
      hide Agrees, PeerWellFormed, UpdateSlots, ObserveRole, Dirty, FollowsClaimant, Purges, AssertionFails;
      purged, aborts := [], false;
      ObservePacketRole(p);
      ghost var s1 := View();
      dirty := IsDirty(p);
      assert nodes[p.sender].peer == s1.nodes[p.sender];
      if nodes[p.sender].peer.master && dirty {
        purged, aborts := UpdateSlotsConfigWith(p.sender, p.configEpoch, p.slots, keys);
      }
    }

    /** PING, PONG and MEET, once the epochs have been observed. */
    method ProcessPingPacket(p: Packet, keys: seq<nat>)
      returns (sent: multiset<Packet>, purged: seq<nat>, aborts: bool)
      requires Valid() && PacketWellFormed(p) && p.sender in nodes && p.sender != myself && |keys| == CLUSTER_SLOTS
      modifies this, slots, importing, migrating
      ensures Valid() && slots == old(slots) && importing == old(importing) && migrating == old(migrating)
      ensures (View(), sent) == ProcessPing(old(View()), p, cfg)
      ensures Consequences(PingClaim(old(View()), p), keys, purged, aborts)
    {
      hide Agrees, PeerWellFormed, ObserveClaims, ObserveRole, Dirty, NewerOwner, Header, HandleCollision, PingClaim,
           Consequences;
      sent := multiset{};
      ghost var was := View();
      if p.kind.Ping? {
        var pong := BuildMessageHdr(Pong, p.sender);
        sent := multiset{pong};
      }
      ghost var reply := sent;
      var dirty;
      dirty, purged, aborts := ObservePacketClaims(p, keys);
      ghost var s2 := View();
      assert s2.nodes.Keys == nodes.Keys && nodes[p.sender].peer == s2.nodes[p.sender]
             && nodes[myself].peer == s2.nodes[s2.myself];
      if dirty {
        var newer := FindNewerOwner(p);
        if newer.Some? {
          var update := BuildUpdate(newer.value, p.sender);
          sent := sent + multiset{update};
        }
      }
      assert sent == reply + Correction(was, p, cfg);
      if nodes[myself].peer.master && nodes[p.sender].peer.master && p.configEpoch == nodes[myself].peer.configEpoch {
        HandleConfigEpochCollision(p.sender);
      }
    }

    /** clusterSendUpdate */
    method BuildUpdate(n: NodeId, to: NodeId) returns (p: Packet)
      requires Valid() && n in nodes
      ensures n in View().nodes && p == UpdateAbout(View(), n, to)
    {
      hide PeerWellFormed, NumSlots, Header;
      assert nodes[n].peer == View().nodes[n];
      p := BuildMessageHdr(Update(n, nodes[n].peer.configEpoch, nodes[n].bits), to);
    }

    /** clusterProcessPacket */
    method ProcessOnePacket(p: Packet, now: int, keys: seq<nat>)
      returns (sent: multiset<Packet>, purged: seq<nat>, aborts: bool)
      requires Valid() && PacketWellFormed(p) && p.sender != myself && |keys| == CLUSTER_SLOTS
      modifies this, slots, importing, migrating
      ensures Valid() && slots == old(slots) && importing == old(importing) && migrating == old(migrating)
      ensures (View(), sent) == ProcessPacket(old(View()), p, now, cfg)
      ensures Consequences(PacketClaim(old(View()), p), keys, purged, aborts)
    {
      hide Agrees, PeerWellFormed, UpdateSlots, ObserveEpochs, ProcessPing, Vote, PingClaim, UpdateClaim, Purges,
           AssertionFails;
      sent, purged, aborts := multiset{}, [], false;
      assert View().nodes.Keys == nodes.Keys;
      if p.sender !in nodes {
        return;
      }
      ObservePacketEpochs(p);
      ghost var s1 := View();
      assert s1.nodes.Keys == nodes.Keys && nodes[p.sender].peer == s1.nodes[p.sender];
      match p.kind
      case Ping =>
        sent, purged, aborts := ProcessPingPacket(p, keys);
      case Pong =>
        sent, purged, aborts := ProcessPingPacket(p, keys);
      case AuthRequest(_) =>
        sent := SendFailoverAuthIfNeeded(p, now);
      case AuthAck =>
        BitAgrees(nodes, slots[..], p.sender, 0);
        if nodes[p.sender].peer.master && nodes[p.sender].numslots > 0 && p.currentEpoch >= authEpoch {
          authCount := authCount + 1;
        }
      case Update(about, epoch, claims) =>
        purged, aborts := ProcessUpdatePacket(p, keys);
      case Other =>
    }

    /** The UPDATE case of clusterProcessPacket. */
    method ProcessUpdatePacket(p: Packet, keys: seq<nat>) returns (purged: seq<nat>, aborts: bool)
      requires Valid() && PacketWellFormed(p) && p.kind.Update? && |keys| == CLUSTER_SLOTS
      modifies this, slots, importing, migrating
      ensures Valid() && slots == old(slots) && importing == old(importing) && migrating == old(migrating)
      ensures View() == ProcessUpdate(old(View()), p, cfg)
      ensures Consequences(UpdateClaim(old(View()), p), keys, purged, aborts)
    {
      hide Agrees, PeerWellFormed, UpdateSlots, FollowsClaimant, Takes, Purges, AssertionFails;
      purged, aborts := [], false;
      var n := p.kind.about;
      assert View().nodes.Keys == nodes.Keys;
      if n !in nodes {
        return;
      }
      assert nodes[n].peer == View().nodes[n];
      if nodes[n].peer.configEpoch >= p.kind.epoch {
        return;
      }
      SetNodeMaster(n);
      EpochChange(View(), n, p.kind.epoch);
      SetPeer(n, nodes[n].peer.(configEpoch := p.kind.epoch));
      purged, aborts := UpdateSlotsConfigWith(n, p.kind.epoch, p.kind.claims, keys);
    }

    // ----- CLUSTER ADDSLOTS

    /** The checks CLUSTER ADDSLOTS makes before it binds anything. */
    method CheckAsked(asked: seq<nat>) returns (error: Option<AddSlotsError>)
      requires Valid()
      ensures |View().slots| == CLUSTER_SLOTS && error == FirstProblem(View(), asked, 0)
      ensures error.None? ==> AllFree(View(), set j | j in asked)
    {
      hide Agrees, PeerWellFormed, NumSlots;
      for i := 0 to |asked|
        invariant FirstProblem(View(), asked, i) == FirstProblem(View(), asked, 0)
        invariant forall k :: 0 <= k < i ==> asked[k] < CLUSTER_SLOTS && slots[asked[k]].None?
      {
        if asked[i] >= CLUSTER_SLOTS { return Some(BadSlot(asked[i])); }
        if slots[asked[i]].Some? { return Some(Busy(asked[i])); }
        if asked[i] in asked[..i] { return Some(Repeated(asked[i])); }
      }
      error := None;
    }

    /** CLUSTER ADDSLOTS: all the slots or, with the first objection, none. The role of the node is not looked at. */
    method AddSlotsCommand(asked: seq<nat>) returns (error: Option<AddSlotsError>)
      requires Valid()
      modifies this`nodes, slots, importing
      ensures Valid() && |old(View()).slots| == |old(View()).importing| == CLUSTER_SLOTS
      ensures error == FirstProblem(old(View()), asked, 0)
      ensures error.None? ==> AllFree(old(View()), set j | j in asked)
      ensures View() == if error.None? then WithSlots(old(View()), set j | j in asked) else old(View())
    {
      hide Agrees, PeerWellFormed, NumSlots, WellFormed, FirstProblem;
      SlotsLength(View());
      error := CheckAsked(asked);
      if error.Some? { return; }
      ghost var was, all := View(), set j | j in asked;
      BoundUpToEnds(was, all);
      for j := 0 to CLUSTER_SLOTS
        invariant Valid() && View() == BoundUpTo(was, all, j)
      {
        BindNext(j, j in asked, was, all);
      }
    }

    /** One round of the loop that binds the slots. */
    method BindNext(j: nat, asked: bool, ghost was: Server, ghost all: set<nat>)
      requires Valid() && j < CLUSTER_SLOTS && asked == (j in all) && AllFree(was, all)
      requires |was.slots| == |was.importing| == CLUSTER_SLOTS && View() == BoundUpTo(was, all, j)
      modifies this`nodes, slots, importing
      ensures Valid() && View() == BoundUpTo(was, all, j + 1)
    {
      hide Agrees, PeerWellFormed, NumSlots;
      assert myself in nodes;
      if asked {
        importing[j] := None;
        assert slots[..] == old(slots[..]) && importing[..] == old(importing[..])[j := None];
        var ok := AddSlot(myself, j);
        assert ok;
      }
      BoundUpToStep(was, all, j);
    }

    // ----- CLUSTER SETSLOT NODE

    method SetSlotNodeCommand(slot: nat, n: NodeId, keys: nat) returns (error: Option<SetSlotError>, ghost max: nat)
      requires Valid() && slot < CLUSTER_SLOTS
      modifies this`nodes, this`currentEpoch, slots, importing, migrating
      ensures Valid() && KnownMax(old(View()), max)
      ensures var r := SetSlotNode(old(View()), slot, n, keys, max);
              if r.Done? then error.None? && View() == r.server else error == Some(r.error) && View() == old(View())
    {
      hide Agrees, PeerWellFormed, KnownMax, BumpConfigEpoch;
      var m0 := GetMaxEpoch();
      max := m0;
      ghost var was := View();
      assert was.nodes.Keys == nodes.Keys && nodes[myself].peer == was.nodes[was.myself];
      if !nodes[myself].peer.master { return Some(NotMaster), max; }
      if n !in nodes { return Some(UnknownNode), max; }
      if slots[slot] == Some(myself) && n != myself && keys != 0 { return Some(HoldsKeys), max; }
      CloseMigrating(slot, keys);
      BindSlot(slot, n);
      ghost var s2 := View();
      hide PeersOf;
      if n == myself && importing[slot].Some? {
        MaxSame(was, s2, max);
        CloseImporting(slot, max);
      }
      error := None;
    }

    /** Unbind the slot and bind it to n. */
    method BindSlot(slot: nat, n: NodeId)
      requires Valid() && slot < CLUSTER_SLOTS && n in nodes
      modifies this`nodes, slots
      ensures Valid() && nodes.Keys == old(nodes.Keys)
      ensures View() == old(View()).(slots := old(slots[..])[slot := Some(n)])
    {
      hide Agrees, PeerWellFormed, PeersOf;
      ghost var table := slots[..];
      var _ := DelSlot(slot);
      assert View().slots == table[slot := None];
      var _ := AddSlot(n, slot);
      assert table[slot := None][slot := Some(n)] == table[slot := Some(n)];
    }

    /** A slot without keys is no longer migrating once it is assigned. */
    method CloseMigrating(slot: nat, keys: nat)
      requires Valid() && slot < CLUSTER_SLOTS
      modifies migrating
      ensures Valid()
      ensures View() == if keys == 0 then old(View()).(migrating := old(migrating[..])[slot := None]) else old(View())
    {
      hide Agrees, PeerWellFormed;
      if keys == 0 && migrating[slot].Some? {
        migrating[slot] := None;
      }
      assert migrating[..] == if keys == 0 then old(migrating[..])[slot := None] else old(migrating[..]);
      assert importing[..] == old(importing[..]) && slots[..] == old(slots[..]);
    }

    /** The slot was imported by hand: take a new epoch and stop importing. */
    method CloseImporting(slot: nat, ghost max: nat)
      requires Valid() && slot < CLUSTER_SLOTS && KnownMax(View(), max)
      modifies this`nodes, this`currentEpoch, importing
      ensures Valid()
      ensures View() == BumpConfigEpoch(old(View()), max).(importing := old(importing[..])[slot := None])
    {
      hide Agrees, PeerWellFormed, BumpConfigEpoch;
      ghost var was := View();
      var _, m1 := BumpConfigEpochWithoutConsensus();
      MaxUnique(was, was, max, m1);
      hide KnownMax;
      ghost var s2 := View();
      importing[slot] := None;
      assert importing[..] == s2.importing[slot := None];
      assert slots[..] == s2.slots && migrating[..] == s2.migrating;
      assert s2.importing == was.importing by { BumpKeeps(was, max); }
    }

    lemma BumpKeeps(s: Server, max: nat)
      requires WellFormed(s)
      ensures BumpConfigEpoch(s, max).importing == s.importing
    {
    }

    lemma MaxSame(s: Server, r: Server, e: nat)
      requires r.nodes == s.nodes && r.currentEpoch == s.currentEpoch && KnownMax(s, e)
      ensures KnownMax(r, e)
    {
    }

    lemma MaxUnique(s: Server, r: Server, e: nat, f: nat)
      requires r.nodes == s.nodes && r.currentEpoch == s.currentEpoch && KnownMax(s, e) && KnownMax(r, f)
      ensures e == f
    {
    }

    // ----- printing

    /** The slot part of clusterGenNodeDescription: from the node's own bitmap, unless it has no slots. */
    method DescribeNode(n: NodeId) returns (ranges: seq<(nat, nat)>)
      requires Valid() && n in nodes
      ensures ranges == Ranges(BitsOf(slots[..], n))
    {
      hide PeerWellFormed, RangesTo;
      BitAgrees(nodes, slots[..], n, 0);
      assert nodes[n].bits == BitsOf(slots[..], n);
      if nodes[n].numslots > 0 {
        ranges := NodeRanges(nodes[n].bits);
      } else {
        ranges := [];
        CountZero(slots[..], Some(n));
        NoBitsNoRanges(nodes[n].bits, |nodes[n].bits|);
      }
    }

    /** clusterGenNodesSlotsInfo gives every node that is not filtered out what DescribeNode gives it. */
    method DescribeNodes(filtered: set<NodeId>) returns (info: map<NodeId, seq<(nat, nat)>>)
      requires Valid()
      ensures forall m :: m in info ==> m !in filtered && info[m] != []
      ensures forall m :: m in nodes && m !in filtered ==> InfoOf(info, m) == Ranges(BitsOf(slots[..], m))
    {
      hide PeerWellFormed, NumSlots, Ranges, BitsOf;
      info := GenNodesSlotsInfo(slots[..], filtered);
    }
  }
}
