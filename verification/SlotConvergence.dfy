/**
 Slot claims converge. A node that starts with an empty slot table binds every slot to
 the claimant with the greatest config epoch among those it has heard, whatever the
 order and the repetition of the announcements; so any two nodes that heard the same
 masters have the same table.
 */
module SlotConvergence {
  import opened Prelude
  import opened ClusterNode

  datatype Announcement = Announcement(epoch: nat, slots: seq<bool>)

  type Claims = map<NodeId, Announcement>

  ghost predicate ValidClaims(claims: Claims) {
    && (forall m :: m in claims ==> |claims[m].slots| == CLUSTER_SLOTS)
    && (forall m, n :: m in claims && n in claims && m != n ==> claims[m].epoch != claims[n].epoch)
  }

  /** p is a PING or PONG of a claiming master. */
  ghost predicate Announces(claims: Claims, p: Packet) {
    && (p.kind.Ping? || p.kind.Pong?)
    && p.slaveof.None?
    && p.sender in claims
    && p.configEpoch == claims[p.sender].epoch
    && p.slots == claims[p.sender].slots
  }

  ghost predicate Claimed(claims: Claims, m: NodeId, j: nat) {
    m in claims && j < |claims[m].slots| && claims[m].slots[j]
  }

  /** owner is the claimant of slot j with the greatest epoch among heard, or there is none. */
  ghost predicate IsBest(claims: Claims, heard: set<NodeId>, j: nat, owner: Option<NodeId>) {
    match owner
    case None => forall m :: m in heard ==> !Claimed(claims, m, j)
    case Some(o) =>
      && o in heard && Claimed(claims, o, j)
      && forall m :: m in heard && Claimed(claims, m, j) ==> claims[m].epoch <= claims[o].epoch
  }

  /** The table of s is what the announcements of heard make it. */
  ghost predicate Converged(s: Server, claims: Claims, heard: set<NodeId>) {
    && WellFormed(s)
    && heard <= claims.Keys <= s.nodes.Keys
    && s.myself !in claims
    && (forall j :: 0 <= j < CLUSTER_SLOTS ==> s.importing[j].None?)
    && (forall m :: m in claims ==> s.nodes[m].configEpoch <= claims[m].epoch)
    && (forall m :: m in heard ==> s.nodes[m].configEpoch == claims[m].epoch)
    && (forall j :: 0 <= j < CLUSTER_SLOTS ==> IsBest(claims, heard, j, s.slots[j]))
  }

  /** What handling an announcement leaves of the state after the epochs have been observed. */
  lemma PingFrame(s: Server, p: Packet, cfg: Config, claims: Claims)
    requires WellFormed(s) && PacketWellFormed(p) && Announces(claims, p)
    requires p.sender in s.nodes && p.sender != s.myself
    ensures var r := ProcessPing(s, p, cfg).0;
            && WellFormed(r) && r.myself == s.myself && r.nodes.Keys == s.nodes.Keys
            && (forall m :: m in s.nodes && m != s.myself ==> r.nodes[m].configEpoch == s.nodes[m].configEpoch)
            && r.slots == ObserveClaims(s, p, cfg).slots
            && r.importing == ObserveClaims(s, p, cfg).importing
  {
    hide ObserveClaims, Header, Correction;
  }

  /** The slots after the announcement, in terms of those before; skipping an unchanged claim makes no difference. */
  lemma ClaimsRebind(s: Server, p: Packet, cfg: Config, claims: Claims)
    requires WellFormed(s) && PacketWellFormed(p) && Announces(claims, p)
    requires p.sender in s.nodes && p.sender != s.myself
    requires forall j :: 0 <= j < CLUSTER_SLOTS ==> s.importing[j].None?
    ensures var r := ObserveClaims(s, p, cfg);
            && |r.importing| == |r.slots| == CLUSTER_SLOTS
            && (forall j :: 0 <= j < CLUSTER_SLOTS ==> r.importing[j].None?)
            && (forall j :: 0 <= j < CLUSTER_SLOTS ==>
                  r.slots[j] == if Takes(s, p.sender, p.configEpoch, p.slots, j) then Some(p.sender) else s.slots[j])
  {
    hide FollowsClaimant, PeerWellFormed;
    var s1 := SetNodeAsMaster(s, p.sender);
    assert ObserveRole(s, p) == s1 && s1.slots == s.slots && s1.importing == s.importing;
    forall j | 0 <= j < CLUSTER_SLOTS
      ensures Takes(s1, p.sender, p.configEpoch, p.slots, j) == Takes(s, p.sender, p.configEpoch, p.slots, j)
    {
    }
    if !Dirty(s1, p) {
      assert forall j :: 0 <= j < CLUSTER_SLOTS ==> BitsOf(s1.slots, p.sender)[j] == p.slots[j];
    }
  }

  lemma AnnouncementConverges(s: Server, p: Packet, now: int, cfg: Config, claims: Claims, heard: set<NodeId>)
    requires ValidClaims(claims) && Converged(s, claims, heard) && Announces(claims, p)
    requires PacketWellFormed(p)
    ensures p.sender != s.myself && Converged(ProcessPacket(s, p, now, cfg).0, claims, heard + {p.sender})
  {
    hide ObserveClaims, Header, Correction, PeerWellFormed, ProcessPing, IsBest, Takes;
    var s1 := ObserveEpochs(s, p);
    PingFrame(s1, p, cfg, claims);
    ClaimsRebind(s1, p, cfg, claims);
    var r := ProcessPing(s1, p, cfg).0;
    assert ProcessPacket(s, p, now, cfg).0 == r;
    var heard' := heard + {p.sender};
    forall j | 0 <= j < CLUSTER_SLOTS ensures IsBest(claims, heard', j, r.slots[j]) {
      assert IsBest(claims, heard, j, s.slots[j]);
      BestStep(s1, p, claims, heard, j);
    }
  }

  /** Letting the claim of p take slot j, or not, leaves the best claimant in place. */
  lemma BestStep(s: Server, p: Packet, claims: Claims, heard: set<NodeId>, j: nat)
    requires WellFormed(s) && PacketWellFormed(p) && Announces(claims, p) && ValidClaims(claims) && j < CLUSTER_SLOTS
    requires s.importing[j].None? && heard <= claims.Keys <= s.nodes.Keys
    requires forall m :: m in heard ==> s.nodes[m].configEpoch == claims[m].epoch
    requires IsBest(claims, heard, j, s.slots[j])
    ensures IsBest(claims, heard + {p.sender}, j,
                   if Takes(s, p.sender, p.configEpoch, p.slots, j) then Some(p.sender) else s.slots[j])
  {
    hide PeerWellFormed;
  }

  ghost function AfterAnnouncements(s: Server, ps: seq<Packet>, cfg: Config, claims: Claims, heard: set<NodeId>)
    : (r: Server)
    requires ValidClaims(claims) && Converged(s, claims, heard)
    requires forall p :: p in ps ==> PacketWellFormed(p) && Announces(claims, p)
    ensures Converged(r, claims, heard + Senders(ps))
    decreases |ps|
  {
    if ps == [] then
      assert heard + Senders([]) == heard;
      s
    else
      AnnouncementConverges(s, ps[0], 0, cfg, claims, heard);
      assert heard + {ps[0].sender} + Senders(ps[1..]) == heard + Senders(ps);
      AfterAnnouncements(ProcessPacket(s, ps[0], 0, cfg).0, ps[1..], cfg, claims, heard + {ps[0].sender})
  }

  ghost function Senders(ps: seq<Packet>): set<NodeId> {
    if ps == [] then {} else {ps[0].sender} + Senders(ps[1..])
  }

  /** A node that knows the claimants but has no slot bound or importing. */
  ghost predicate EmptyTable(s: Server, claims: Claims) {
    && WellFormed(s)
    && claims.Keys <= s.nodes.Keys && s.myself !in claims
    && (forall j :: 0 <= j < CLUSTER_SLOTS ==> s.slots[j].None? && s.importing[j].None?)
    && (forall m :: m in claims ==> s.nodes[m].configEpoch <= claims[m].epoch)
  }

  /** Any order, any repetition: each slot goes to its claimant of greatest epoch among those heard. */
  lemma GreatestEpochOwns(s: Server, ps: seq<Packet>, cfg: Config, claims: Claims)
    requires ValidClaims(claims) && EmptyTable(s, claims)
    requires forall p :: p in ps ==> PacketWellFormed(p) && Announces(claims, p)
    ensures Converged(s, claims, {})
    ensures Converged(AfterAnnouncements(s, ps, cfg, claims, {}), claims, Senders(ps))
  {
    hide AfterAnnouncements;
    assert Converged(s, claims, {});
    assert {} + Senders(ps) == Senders(ps);
  }

  /** Two nodes that heard the same masters, in whatever order, have the same slot table. */
  lemma TablesAgree(s: Server, t: Server, ps: seq<Packet>, qs: seq<Packet>, cfg: Config, claims: Claims)
    requires ValidClaims(claims) && EmptyTable(s, claims) && EmptyTable(t, claims)
    requires forall p :: p in ps + qs ==> PacketWellFormed(p) && Announces(claims, p)
    requires Senders(ps) == Senders(qs)
    ensures Converged(s, claims, {}) && Converged(t, claims, {})
    ensures AfterAnnouncements(s, ps, cfg, claims, {}).slots == AfterAnnouncements(t, qs, cfg, claims, {}).slots
  {
    hide AfterAnnouncements;
    GreatestEpochOwns(s, ps, cfg, claims);
    GreatestEpochOwns(t, qs, cfg, claims);
    var a, b := AfterAnnouncements(s, ps, cfg, claims, {}), AfterAnnouncements(t, qs, cfg, claims, {});
    forall j | 0 <= j < CLUSTER_SLOTS ensures a.slots[j] == b.slots[j] {
      assert IsBest(claims, Senders(ps), j, a.slots[j]);
      assert IsBest(claims, Senders(qs), j, b.slots[j]);
    }
  }
}
