/**
 When a vote is granted, stated on the state of the voter and the request alone, and what
 that means for whole runs: every vote ever given was about a master its voter had flagged
 as failing, or forced, and votes about one master are spaced in time.
 */
module ClusterVotes {
  import opened Prelude
  import opened ClusterNode
  import opened ClusterBus
  import opened ElectionSafety
  import Effects = ClusterEffects
  import Replicas = ReplicaSlots

  /** The request was sent in an epoch the node has not left behind, and in which it has not voted yet. */
  predicate FreshEpoch(s: Server, p: Packet) {
    s.currentEpoch <= p.currentEpoch && s.lastVoteEpoch != p.currentEpoch
  }

  /** The sender is, as far as the node knows, a replica of m. */
  predicate ReplicaOf(s: Server, c: NodeId, m: NodeId) {
    c in s.nodes && m in s.nodes && !s.nodes[c].master && s.nodes[c].slaveof == Some(m)
  }

  /** Some slot the request claims belongs to a node with a newer configuration. */
  predicate Outdated(s: Server, p: Packet) {
    exists j :: 0 <= j < |p.slots| && j < |s.slots| && p.slots[j] && s.slots[j].Some?
      && s.slots[j].value in s.nodes && s.nodes[s.slots[j].value].configEpoch > p.configEpoch
  }

  /** Everything that must hold for a vote about master m to be given to the sender of request p. */
  ghost predicate VoteDue(s: Server, p: Packet, now: int, cfg: Config, m: NodeId) {
    && p.kind.AuthRequest? && s.myself in s.nodes && s.nodes[s.myself].master
    && Some(s.myself) in s.slots
    && FreshEpoch(s, p)
    && ReplicaOf(s, p.sender, m)
    && (s.nodes[m].failed || p.kind.forceAck)
    && now - s.nodes[m].votedTime >= 2 * cfg.nodeTimeout
    && !Outdated(s, p)
  }

  /** The step is the delivery of a request for which a vote about m is due. */
  ghost predicate VotesAbout(s: Server, l: Label, cfg: Config, m: NodeId) {
    l.Deliver? && VoteDue(s, l.p, l.now, cfg, m)
  }

  /** Looking at the epochs of the request changes none of this. */
  lemma ObservedAlike(s: Server, p: Packet)
    requires WellFormed(s) && p.sender in s.nodes
    ensures var s1 := ObserveEpochs(s, p);
            && s1 == s.(currentEpoch := if p.currentEpoch > s.currentEpoch then p.currentEpoch else s.currentEpoch,
                        nodes := s1.nodes)
            && s1.nodes.Keys == s.nodes.Keys
            && (forall m :: m in s.nodes ==> s1.nodes[m] == s.nodes[m].(configEpoch := s1.nodes[m].configEpoch))
            && (forall m :: m in s.nodes ==>
                  (s1.nodes[m].configEpoch > p.configEpoch <==> s.nodes[m].configEpoch > p.configEpoch))
  {
  }

  lemma CurrentUnlessOutdated(s: Server, p: Packet)
    requires WellFormed(s) && PacketWellFormed(p) && p.sender in s.nodes
    ensures ClaimsCurrent(ObserveEpochs(s, p), p.slots, p.configEpoch) <==> !Outdated(s, p)
  {
    hide ObserveEpochs;
    ObservedAlike(s, p);
    var s1 := ObserveEpochs(s, p);
    forall j | 0 <= j < CLUSTER_SLOTS && p.slots[j] && s.slots[j].Some?
      ensures s1.nodes[s.slots[j].value].configEpoch > p.configEpoch
         <==> s.nodes[s.slots[j].value].configEpoch > p.configEpoch
    {
      assert s.slots[j].value in s.nodes;
    }
  }

  /** The step is a vote exactly if one is due about some master. */
  lemma VotesIff(s: Server, l: Label, cfg: Config)
    requires WellFormed(s) && LocallyEnabled(s, l)
    ensures Votes(s, l, cfg) <==> exists m :: VotesAbout(s, l, cfg, m)
  {
    hide ObserveEpochs, ClaimsCurrent, Outdated, NumSlots;
    if l.Deliver? && l.p.kind.AuthRequest? && l.p.sender in s.nodes {
      var p, s1 := l.p, ObserveEpochs(s, l.p);
      ObservedAlike(s, p);
      CurrentUnlessOutdated(s, p);
      Replicas.OwnsNothing(s.slots, s.myself);
      if s.nodes[p.sender].slaveof.Some? {
        var m := s.nodes[p.sender].slaveof.value;
        assert m in s.nodes;
        assert GrantsVote(s1, p, l.now, cfg) <==> VoteDue(s, p, l.now, cfg, m);
        assert VotesAbout(s, l, cfg, m) <==> VoteDue(s, p, l.now, cfg, m);
        assert forall k :: VotesAbout(s, l, cfg, k) ==> k == m;
      } else {
        assert forall k :: !VotesAbout(s, l, cfg, k);
      }
    }
  }

  /**
   An acknowledgement leaves a node in a step if and only if the step delivers a request for
   which a vote is due. Then there is exactly one, to the candidate and for its epoch, the
   voter remembers epoch and time of the vote, and nothing else about any node but the config
   epoch announced by the candidate changes.
   */
  lemma AckSentIff(s: Server, l: Label, cfg: Config)
    requires WellFormed(s) && LocallyEnabled(s, l)
    ensures var (r, sent) := Local(s, l, cfg);
            && ((exists q :: q in sent && q.kind.AuthAck?) <==> exists m :: VotesAbout(s, l, cfg, m))
            && (forall m :: VotesAbout(s, l, cfg, m) ==>
                  && (exists ack: Packet :: IsAck(ack, s.myself, l.p) && sent == multiset{ack})
                  && r.lastVoteEpoch == l.p.currentEpoch == r.currentEpoch
                  && VoteTime(s, r, m, l.now))
  {
    hide Local, GrantsVote, VoteDue, ElectionEffect, WellFormed;
    StepEffect(s, l, cfg);
    VotesIff(s, l, cfg);
    var (r, sent) := Local(s, l, cfg);
    if Votes(s, l, cfg) {
      var ack :| IsAck(ack, s.myself, l.p) && sent == multiset{ack};
      assert ack in sent && ack.kind.AuthAck?;
    }
    forall m | VotesAbout(s, l, cfg, m)
      ensures r.lastVoteEpoch == l.p.currentEpoch == r.currentEpoch && VoteTime(s, r, m, l.now)
    {
      VoteLeaves(s, l, cfg, m);
    }
  }

  /** Of all the nodes only m has a new vote time. */
  ghost predicate VoteTime(s: Server, r: Server, m: NodeId, now: int) {
    && r.nodes.Keys == s.nodes.Keys
    && r == s.(currentEpoch := r.currentEpoch, lastVoteEpoch := r.lastVoteEpoch, nodes := r.nodes)
    && (forall n :: n in s.nodes ==>
          r.nodes[n] == s.nodes[n].(votedTime := if n == m then now else s.nodes[n].votedTime,
                                    configEpoch := r.nodes[n].configEpoch))
  }

  lemma VoteLeaves(s: Server, l: Label, cfg: Config, m: NodeId)
    requires WellFormed(s) && LocallyEnabled(s, l) && VotesAbout(s, l, cfg, m)
    ensures var r := Local(s, l, cfg).0;
            r.lastVoteEpoch == l.p.currentEpoch == r.currentEpoch && VoteTime(s, r, m, l.now)
  {
    hide ObserveEpochs, ClaimsCurrent, Outdated, NumSlots, BitsOf;
    VotesIff(s, l, cfg);
    ObservedAlike(s, l.p);
  }

  // ----- vote times

  ghost predicate SameVoteTimes(s: Server, r: Server) {
    r.nodes.Keys == s.nodes.Keys && forall n :: n in s.nodes ==> r.nodes[n].votedTime == s.nodes[n].votedTime
  }

  lemma PacketKeepsTimes(s: Server, l: Label, cfg: Config)
    requires WellFormed(s) && LocallyEnabled(s, l) && l.Deliver? && !Votes(s, l, cfg)
    ensures SameVoteTimes(s, ProcessPacket(s, l.p, l.now, cfg).0)
  {
    hide ProcessPing, ProcessUpdate, GrantsVote, NumSlots, BitsOf, PeerWellFormed, Effects.GivesUp;
    if Effects.Announcement(s, l.p) {
      hide ProcessPacket;
      Effects.StateAfterPing(s, l.p, l.now, cfg);
    } else if Effects.Heard(s, l.p) && l.p.kind.Update? {
      hide ProcessPacket;
      Effects.StateAfterUpdate(s, l.p, l.now, cfg);
    }
  }

  lemma FailoverKeepsTimes(s: Server, e: Situation, cfg: Config)
    requires WellFormed(s)
    ensures SameVoteTimes(s, HandleSlaveFailover(s, e, cfg).0)
  {
    hide CanFailover, AuthTimeout, NumSlots, PeerWellFormed;
  }

  /** No step but a vote changes the times of votes. */
  lemma OtherStepsKeepTimes(s: Server, l: Label, cfg: Config)
    requires WellFormed(s) && LocallyEnabled(s, l) && !Votes(s, l, cfg)
    ensures SameVoteTimes(s, Local(s, l, cfg).0)
  {
    hide ProcessPacket, HandleSlaveFailover, Broadcast, Header, ClusterSize, Votes, PeerWellFormed;
    match l
    case Deliver(_, _) => PacketKeepsTimes(s, l, cfg);
    case Failover(_, e) => FailoverKeepsTimes(s, e, cfg);
    case _ =>
  }

  // ----- whole runs

  /** In step i node v votes for candidate c, about its master m. */
  ghost predicate VotesAt(states: seq<System>, labels: seq<Label>, cfg: Config, i: nat, v: NodeId, c: NodeId,
                          m: NodeId) {
    && i < |labels| < |states| && v == Actor(labels[i]) && v in states[i].servers
    && labels[i].Deliver? && labels[i].p.sender == c && VotesAbout(states[i].servers[v], labels[i], cfg, m)
  }

  /**
   Every vote on record was given in a step in which the voter had the candidate down as the
   replica of a master that it held to be failing, or that the request was forced about.
   */
  lemma {:induction false} EveryVoteWasDue(states: seq<System>, labels: seq<Label>, cfg: Config, n: nat, v: NodeId,
                                           e: nat)
    requires IsRun(states, labels, cfg) && n <= |labels| && (v, e) in HistoryAt(states, labels, cfg, n).votes
    ensures exists i: nat, m :: i < n && labels[i].Deliver? && labels[i].p.currentEpoch == e
              && VotesAt(states, labels, cfg, i, v, HistoryAt(states, labels, cfg, n).votes[(v, e)], m)
  {
    hide IsStep, Votes, VotesAbout, Counts, FailoverOutcome;
    var h := HistoryAt(states, labels, cfg, n - 1);
    var l := labels[n - 1];
    assert IsStep(states[n - 1], l, states[n], cfg);
    StepIsLocal(states[n - 1], l, states[n], cfg);
    var s := states[n - 1].servers[Actor(l)];
    VotesDeliver(s, l, cfg);
    if Votes(s, l, cfg) && (v, e) == (Actor(l), l.p.currentEpoch) {
      VotesIff(s, l, cfg);
      var m :| VotesAbout(s, l, cfg, m);
      assert VotesAt(states, labels, cfg, n - 1, v, l.p.sender, m);
    } else {
      EveryVoteWasDue(states, labels, cfg, n - 1, v, e);
    }
  }

  lemma VotesDeliver(s: Server, l: Label, cfg: Config)
    requires WellFormed(s) && LocallyEnabled(s, l)
    ensures Votes(s, l, cfg) ==> l.Deliver?
  {
    hide GrantsVote;
  }

  /** The time of the last vote about m that v has on record, if v is in the cluster and knows m. */
  ghost function LastVote(a: System, v: NodeId, m: NodeId): Option<int> {
    if v in a.servers && m in a.servers[v].nodes then Some(a.servers[v].nodes[m].votedTime) else None
  }

  lemma TimeAfterStep(a: System, l: Label, b: System, cfg: Config, v: NodeId, m: NodeId)
    requires IsStep(a, l, b, cfg)
    ensures v == Actor(l) && VotesAbout(a.servers[v], l, cfg, m) ==> LastVote(b, v, m) == Some(l.now)
    ensures !(v == Actor(l) && VotesAbout(a.servers[v], l, cfg, m)) ==> LastVote(b, v, m) == LastVote(a, v, m)
  {
    hide IsStep, Local, Votes;
    StepIsLocal(a, l, b, cfg);
    if v == Actor(l) {
      var s := a.servers[v];
      VotesIff(s, l, cfg);
      if Votes(s, l, cfg) {
        var k :| VotesAbout(s, l, cfg, k);
        VoteLeaves(s, l, cfg, k);
      } else {
        OtherStepsKeepTimes(s, l, cfg);
      }
    }
  }

  /** After a vote about m the time on record is that of the vote or of a later one, each at least as late. */
  lemma {:induction false} TimeSinceVote(states: seq<System>, labels: seq<Label>, cfg: Config, i: nat, j: nat,
                                         v: NodeId, c: NodeId, m: NodeId)
    requires IsRun(states, labels, cfg) && cfg.nodeTimeout >= 0 && i < j <= |labels|
    requires VotesAt(states, labels, cfg, i, v, c, m)
    ensures LastVote(states[j], v, m).Some? && LastVote(states[j], v, m).value >= labels[i].now
    decreases j
  {
    hide IsStep, LastVote;
    var l := labels[j - 1];
    assert IsStep(states[j - 1], l, states[j], cfg);
    StepIsLocal(states[j - 1], l, states[j], cfg);
    TimeAfterStep(states[j - 1], l, states[j], cfg, v, m);
    if j - 1 > i {
      TimeSinceVote(states, labels, cfg, i, j - 1, v, c, m);
      if v == Actor(l) && VotesAbout(states[j - 1].servers[v], l, cfg, m) {
        TimeOnRecord(states[j - 1], v, m);
      }
    }
  }

  lemma TimeOnRecord(a: System, v: NodeId, m: NodeId)
    requires v in a.servers && m in a.servers[v].nodes
    ensures LastVote(a, v, m) == Some(a.servers[v].nodes[m].votedTime)
  {
  }

  /** In every run two votes of a node about the same master are at least two node timeouts apart. */
  lemma VotesAreSpaced(states: seq<System>, labels: seq<Label>, cfg: Config, i: nat, j: nat, v: NodeId, c: NodeId,
                       d: NodeId, m: NodeId)
    requires IsRun(states, labels, cfg) && cfg.nodeTimeout >= 0 && i < j
    requires VotesAt(states, labels, cfg, i, v, c, m) && VotesAt(states, labels, cfg, j, v, d, m)
    ensures labels[j].now - labels[i].now >= 2 * cfg.nodeTimeout
  {
    hide IsRun, LastVote;
    TimeSinceVote(states, labels, cfg, i, j, v, c, m);
    TimeOnRecord(states[j], v, m);
  }
}
