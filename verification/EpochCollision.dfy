/**
 Config epoch collisions resolve themselves. With a fixed set of n masters and no other
 source of epochs, the master with the greatest name never moves, and a run of any
 length, with packets delayed and reordered at will, contains at most 2^n - n - 1
 collision bumps.
 */
module EpochCollision {
  import opened Prelude
  import opened CollisionTraces
  import opened ClusterNode
  import opened ClusterBus

  /** The config epoch node m has for itself. */
  ghost function Own(a: System, m: NodeId): nat {
    if m in a.servers && m in a.servers[m].nodes then a.servers[m].nodes[m].configEpoch else 0
  }

  // ----- one step, seen from the acting node

  /** e is what s has stored for m, or what the packet it is processing says about m. */
  ghost predicate StoredBy(s: Server, l: Label, m: NodeId, e: nat) {
    || (m in s.nodes && e == s.nodes[m].configEpoch)
    || (l.Deliver? && l.p.sender == m && e == l.p.configEpoch)
    || (l.Deliver? && l.p.kind.Update? && l.p.kind.about == m && e == l.p.kind.epoch)
  }

  /** Sent packets carry the sender's own epoch; UPDATE packets an epoch the sender had stored. */
  ghost predicate SendsOwnEpoch(s: Server, l: Label, q: Packet) {
    && s.myself in s.nodes
    && q.configEpoch == s.nodes[s.myself].configEpoch
    && (q.kind.Update? ==> q.kind.about in s.nodes && StoredBy(s, l, q.kind.about, q.kind.epoch))
  }

  /** The step is a collision bump: a larger name was seen with our own epoch. */
  ghost predicate CollisionBump(s: Server, l: Label, r: Server) {
    && s.myself in s.nodes && s.myself in r.nodes
    && l.Deliver?
    && s.myself < l.p.sender
    && l.p.configEpoch == s.nodes[s.myself].configEpoch
    && s.nodes[s.myself].configEpoch < r.nodes[s.myself].configEpoch
  }

  ghost predicate EpochEffect(s: Server, l: Label, r: (Server, multiset<Packet>)) {
    && s.myself in s.nodes && r.0.nodes.Keys == s.nodes.Keys
    && (r.0.nodes[s.myself].configEpoch == s.nodes[s.myself].configEpoch || CollisionBump(s, l, r.0))
    && (forall m :: m in s.nodes && m != s.myself ==> StoredBy(s, l, m, r.0.nodes[m].configEpoch))
    && (forall q :: q in r.1 ==> SendsOwnEpoch(s, l, q))
  }

  /** The step cannot create an epoch except by a collision, and no UPDATE runs ahead of us. */
  ghost predicate OnlyCollisions(s: Server, l: Label) {
    && !l.Failover? && !l.SetSlot?
    && (l.Deliver? && l.p.kind.Update? && l.p.kind.about == s.myself && s.myself in s.nodes
        ==> l.p.kind.epoch <= s.nodes[s.myself].configEpoch)
  }

  lemma CorrectionEpochs(s: Server, p: Packet, cfg: Config)
    requires WellFormed(s) && PacketWellFormed(p) && p.sender in s.nodes && p.sender != s.myself
    requires ObserveClaims(s, p, cfg).nodes[s.myself].master
    ensures forall q :: q in Correction(s, p, cfg) ==>
              && q.configEpoch == s.nodes[s.myself].configEpoch
              && q.kind.Update? && q.kind.about in s.nodes && q.kind.epoch == s.nodes[q.kind.about].configEpoch
  {
    hide ObserveClaims, ObserveRole, Dirty, NewerOwner, BitsOf;
  }

  /** s is the state after the epochs of p have been observed. */
  lemma PingEpochs(s: Server, p: Packet, cfg: Config, r: (Server, multiset<Packet>))
    requires WellFormed(s) && Dominated(s) && PacketWellFormed(p) && p.sender in s.nodes && p.sender != s.myself
    requires r == ProcessPing(s, p, cfg) && s.myself in r.0.nodes && s.nodes[s.myself].master
             && r.0.nodes[s.myself].master
    ensures r.0.nodes.Keys == s.nodes.Keys
    ensures r.0.nodes[s.myself].configEpoch == s.nodes[s.myself].configEpoch
            || (s.myself < p.sender && p.configEpoch == s.nodes[s.myself].configEpoch < r.0.nodes[s.myself].configEpoch)
    ensures forall m :: m in s.nodes && m != s.myself ==> r.0.nodes[m].configEpoch == s.nodes[m].configEpoch
    ensures forall q :: q in r.1 ==>
              && q.configEpoch == s.nodes[s.myself].configEpoch
              && (q.kind.Update? ==> q.kind.about in s.nodes && q.kind.epoch == s.nodes[q.kind.about].configEpoch)
  {
    hide ObserveClaims, Correction, BitsOf, PeerWellFormed;
    CorrectionEpochs(s, p, cfg);
  }

  lemma VoteEpochs(s: Server, p: Packet, now: int, cfg: Config)
    requires WellFormed(s) && PacketWellFormed(p) && p.kind.AuthRequest? && p.sender in s.nodes
    requires s.nodes[s.myself].master
    ensures var r := Vote(s, p, now, cfg);
            && SameConfigEpochs(s, r.0)
            && forall q :: q in r.1 ==>
                 q.kind.AuthAck? && q.configEpoch == s.nodes[s.myself].configEpoch
  {
    hide GrantsVote, BitsOf, WellFormed;
  }

  lemma UpdateEpochs(s: Server, p: Packet, cfg: Config)
    requires WellFormed(s) && PacketWellFormed(p) && p.kind.Update?
    ensures var r := ProcessUpdate(s, p, cfg);
            && r.nodes.Keys == s.nodes.Keys
            && forall m :: m in s.nodes ==>
                 r.nodes[m].configEpoch == s.nodes[m].configEpoch
                 || (m == p.kind.about && s.nodes[m].configEpoch < r.nodes[m].configEpoch == p.kind.epoch)
  {
    hide UpdateSlots, SetNodeAsMaster, WellFormed;
  }

  /** The effect after the epochs were observed, and observing them, add up to the effect of the packet. */
  lemma AfterObserving(s: Server, l: Label, s1: Server, r: (Server, multiset<Packet>))
    requires l.Deliver? && l.p.sender in s.nodes && l.p.sender != s.myself && s.myself in s.nodes
             && s1 == ObserveEpochs(s, l.p)
    requires r.0.nodes.Keys == s1.nodes.Keys
    requires r.0.nodes[s.myself].configEpoch == s1.nodes[s.myself].configEpoch
             || (s.myself < l.p.sender
                 && l.p.configEpoch == s1.nodes[s.myself].configEpoch < r.0.nodes[s.myself].configEpoch)
    requires forall m :: m in s1.nodes && m != s.myself ==>
               r.0.nodes[m].configEpoch == s1.nodes[m].configEpoch
               || (l.p.kind.Update? && m == l.p.kind.about && r.0.nodes[m].configEpoch == l.p.kind.epoch)
    requires forall q :: q in r.1 ==>
               && q.configEpoch == s1.nodes[s.myself].configEpoch
               && (q.kind.Update? ==> q.kind.about in s1.nodes && q.kind.epoch == s1.nodes[q.kind.about].configEpoch)
    ensures EpochEffect(s, l, r)
  {
    hide WellFormed;
    assert s1.nodes[s.myself] == s.nodes[s.myself];
    assert forall m :: m in s.nodes ==> StoredBy(s, l, m, s1.nodes[m].configEpoch);
  }

  ghost predicate Processed(s: Server, l: Label, cfg: Config, r: (Server, multiset<Packet>)) {
    && WellFormed(s) && Dominated(s) && LocallyEnabled(s, l) && l.Deliver? && OnlyCollisions(s, l)
    && PacketDominated(l.p)
    && r == ProcessPacket(s, l.p, l.now, cfg)
    && s.nodes[s.myself].master && s.myself in r.0.nodes && r.0.nodes[s.myself].master
  }

  lemma PingCase(s: Server, l: Label, cfg: Config, r: (Server, multiset<Packet>))
    requires Processed(s, l, cfg, r) && l.p.sender in s.nodes && (l.p.kind.Ping? || l.p.kind.Pong?)
    ensures EpochEffect(s, l, r)
  {
    hide ProcessPing, EpochEffect;
    var s1 := ObserveEpochs(s, l.p);
    assert WellFormed(s1) && Dominated(s1) && s1.nodes[s.myself] == s.nodes[s.myself];
    hide WellFormed;
    PingEpochs(s1, l.p, cfg, r);
    AfterObserving(s, l, s1, r);
  }

  lemma VoteCase(s: Server, l: Label, cfg: Config, r: (Server, multiset<Packet>))
    requires Processed(s, l, cfg, r) && l.p.sender in s.nodes && l.p.kind.AuthRequest?
    ensures EpochEffect(s, l, r)
  {
    hide Vote, EpochEffect;
    var s1 := ObserveEpochs(s, l.p);
    assert WellFormed(s1) && s1.nodes[s.myself] == s.nodes[s.myself];
    hide WellFormed;
    VoteEpochs(s1, l.p, l.now, cfg);
    AfterObserving(s, l, s1, r);
  }

  lemma UpdateCase(s: Server, l: Label, cfg: Config, r: (Server, multiset<Packet>))
    requires Processed(s, l, cfg, r) && l.p.sender in s.nodes && l.p.kind.Update?
    ensures EpochEffect(s, l, r)
  {
    hide ProcessUpdate, EpochEffect;
    var s1 := ObserveEpochs(s, l.p);
    assert WellFormed(s1) && s1.nodes[s.myself] == s.nodes[s.myself];
    hide WellFormed;
    UpdateEpochs(s1, l.p, cfg);
    AfterObserving(s, l, s1, r);
  }

  lemma PacketEpochs(s: Server, l: Label, cfg: Config, r: (Server, multiset<Packet>))
    requires Processed(s, l, cfg, r)
    ensures EpochEffect(s, l, r)
  {
    hide EpochEffect, ProcessPing, Vote, ProcessUpdate, CountsAck, ObserveEpochs;
    if l.p.sender !in s.nodes {
      UnknownSender(s, l);
    } else {
      match l.p.kind
      case Ping => PingCase(s, l, cfg, r);
      case Pong => PingCase(s, l, cfg, r);
      case AuthRequest(_) => VoteCase(s, l, cfg, r);
      case Update(_, _, _) => UpdateCase(s, l, cfg, r);
      case _ => AfterObserving(s, l, ObserveEpochs(s, l.p), r);
    }
  }

  lemma UnknownSender(s: Server, l: Label)
    requires s.myself in s.nodes
    ensures EpochEffect(s, l, (s, multiset{}))
  {
  }

  lemma StepEpochs(s: Server, l: Label, cfg: Config, r: (Server, multiset<Packet>))
    requires WellFormed(s) && Dominated(s) && LocallyEnabled(s, l) && OnlyCollisions(s, l)
    requires l.Deliver? ==> PacketDominated(l.p)
    requires r == Local(s, l, cfg)
    requires s.nodes[s.myself].master && s.myself in r.0.nodes && r.0.nodes[s.myself].master
    ensures EpochEffect(s, l, r)
  {
    hide ProcessPacket, BitsOf, WellFormed, Dominated, ClusterSize;
    if l.Deliver? {
      PacketEpochs(s, l, cfg, r);
    }
  }

  // ----- one step, seen from the whole cluster

  /** Nobody, and no packet, knows an epoch of m beyond the one m has now. */
  ghost predicate Bounded(a: System) {
    && (forall n, m :: n in a.servers && m in a.servers[n].nodes ==> a.servers[n].nodes[m].configEpoch <= Own(a, m))
    && (forall p :: p in a.net ==> PacketBounded(a, p))
  }

  ghost predicate PacketBounded(a: System, p: Packet) {
    && p.configEpoch <= Own(a, p.sender)
    && (p.kind.Update? ==> p.kind.epoch <= Own(a, p.kind.about))
  }

  ghost predicate AllMasters(a: System) {
    forall m :: m in a.servers ==> m in a.servers[m].nodes && a.servers[m].nodes[m].master
  }

  /** A step of the collision regime: every node is a master before and after, and takes no other epoch. */
  ghost predicate CollisionStep(a: System, l: Label, b: System, cfg: Config) {
    IsStep(a, l, b, cfg) && AllMasters(a) && AllMasters(b) && !l.Failover? && !l.SetSlot?
  }

  ghost predicate OwnEffect(a: System, l: Label, b: System) {
    && Actor(l) in a.servers && b.servers.Keys == a.servers.Keys
    && (forall m :: m != Actor(l) ==> Own(b, m) == Own(a, m))
    && (Own(b, Actor(l)) == Own(a, Actor(l))
        || (l.Deliver? && l.p in a.net && Actor(l) < l.p.sender && l.p.sender in a.servers
            && l.p.configEpoch == Own(a, Actor(l)) < Own(b, Actor(l))))
    && (forall q :: q in b.net ==> q in a.net || q.configEpoch == Own(a, q.sender))
  }

  /** What the proofs below need to know about one step. */
  ghost predicate Facts(a: System, l: Label, b: System, s: Server, r: (Server, multiset<Packet>)) {
    && Actor(l) in a.servers && s == a.servers[Actor(l)]
    && s.myself == Actor(l)
    && b == System(a.servers[Actor(l) := r.0], a.net - Consumed(l) + r.1)
    && LocalKeeps(s, r) && EpochEffect(s, l, r)
    && (l.Deliver? ==> l.p in a.net && l.p.sender in a.servers)
  }

  lemma StepFacts(a: System, l: Label, b: System, cfg: Config, s: Server, r: (Server, multiset<Packet>))
    requires CollisionStep(a, l, b, cfg) && Dominance(a) && Bounded(a)
    requires s == a.servers[Actor(l)] && r == Local(s, l, cfg)
    ensures Facts(a, l, b, s, r)
  {
    hide Local, EpochEffect, LocalKeeps;
    assert ServerInPlace(a, Actor(l));
    LocalStepKeeps(s, l, cfg);
    assert b.servers[Actor(l)] == r.0;
    assert r.0.myself == s.myself by { KeepsMyself(s, r); }
    assert l.Deliver? ==> l.p in a.net && PacketInPlace(a, l.p);
    assert OnlyCollisions(s, l) by {
      if l.Deliver? && l.p.kind.Update? {
        assert PacketBounded(a, l.p);
      }
    }
    StepEpochs(s, l, cfg, r);
  }

  lemma KeepsMyself(s: Server, r: (Server, multiset<Packet>))
    requires LocalKeeps(s, r)
    ensures r.0.myself == s.myself
  {
  }

  lemma OwnPart(s: Server, l: Label, r: (Server, multiset<Packet>))
    requires LocalKeeps(s, r) && EpochEffect(s, l, r)
    ensures s.myself in s.nodes && s.myself in r.0.nodes
    ensures r.0.nodes[s.myself].configEpoch == s.nodes[s.myself].configEpoch || CollisionBump(s, l, r.0)
  {
  }

  lemma SentPart(s: Server, l: Label, r: (Server, multiset<Packet>), q: Packet)
    requires LocalKeeps(s, r) && EpochEffect(s, l, r) && q in r.1
    ensures SendsOwnEpoch(s, l, q) && q.sender == s.myself
  {
    assert SentBy(r.0, q);
  }

  lemma TablePart(s: Server, l: Label, r: (Server, multiset<Packet>), m: NodeId)
    requires LocalKeeps(s, r) && EpochEffect(s, l, r) && m in r.0.nodes && m != s.myself
    ensures StoredBy(s, l, m, r.0.nodes[m].configEpoch)
  {
  }

  lemma FactsOwn(a: System, l: Label, b: System, s: Server, r: (Server, multiset<Packet>))
    requires Facts(a, l, b, s, r)
    ensures OwnEffect(a, l, b)
  {
    hide LocalKeeps, EpochEffect;
    var n := Actor(l);
    OwnPart(s, l, r);
    assert Own(a, n) == s.nodes[n].configEpoch && Own(b, n) == r.0.nodes[n].configEpoch;
    assert forall m :: m != n ==> Own(b, m) == Own(a, m);
    forall q | q in b.net ensures q in a.net || q.configEpoch == Own(a, q.sender) {
      if q !in a.net {
        SentPart(s, l, r, q);
      }
    }
  }

  /** What node s may have stored about m is bounded by what m has now. */
  lemma StoredIsBounded(a: System, l: Label, s: Server, m: NodeId, e: nat)
    requires Bounded(a) && Actor(l) in a.servers && s == a.servers[Actor(l)]
    requires l.Deliver? ==> l.p in a.net
    requires StoredBy(s, l, m, e)
    ensures e <= Own(a, m)
  {
    hide Own;
    if l.Deliver? {
      assert PacketBounded(a, l.p);
    }
  }

  lemma FactsKeepBounded(a: System, l: Label, b: System, s: Server, r: (Server, multiset<Packet>))
    requires Facts(a, l, b, s, r) && Bounded(a)
    ensures Bounded(b)
  {
    hide LocalKeeps, EpochEffect, StoredBy;
    FactsOwn(a, l, b, s, r);
    assert forall m :: Own(a, m) <= Own(b, m);
    forall n, m | n in b.servers && m in b.servers[n].nodes
      ensures b.servers[n].nodes[m].configEpoch <= Own(b, m)
    {
      if n == Actor(l) && m != n {
        TablePart(s, l, r, m);
        StoredIsBounded(a, l, s, m, r.0.nodes[m].configEpoch);
      }
    }
    forall q | q in b.net ensures PacketBounded(b, q) {
      if q in a.net {
        assert PacketBounded(a, q);
      } else {
        SentPart(s, l, r, q);
        if q.kind.Update? {
          StoredIsBounded(a, l, s, q.kind.about, q.kind.epoch);
        }
      }
    }
  }

  lemma StepOwn(a: System, l: Label, b: System, cfg: Config)
    requires CollisionStep(a, l, b, cfg) && Dominance(a) && Bounded(a)
    ensures OwnEffect(a, l, b) && Bounded(b)
  {
    hide Local, Facts, OwnEffect, Bounded, Dominance;
    var s := a.servers[Actor(l)];
    var r := Local(s, l, cfg);
    StepFacts(a, l, b, cfg, s, r);
    FactsOwn(a, l, b, s, r);
    FactsKeepBounded(a, l, b, s, r);
  }

  // ----- whole runs

  /** A run of the collision regime, from a state in which nothing is in flight. */
  ghost predicate CollisionRun(states: seq<System>, labels: seq<Label>, cfg: Config) {
    && |states| == |labels| + 1
    && SystemWellFormed(states[0]) && Dominance(states[0]) && Bounded(states[0])
    && states[0].net == multiset{}
    && forall i :: 0 <= i < |labels| ==> CollisionStep(states[i], labels[i], states[i + 1], cfg)
  }

  /** The same run with the facts about its own epochs only. */
  ghost predicate OwnRun(states: seq<System>, labels: seq<Label>) {
    && |states| == |labels| + 1
    && states[0].net == multiset{}
    && forall i :: 0 <= i < |labels| ==> OwnEffect(states[i], labels[i], states[i + 1])
  }

  lemma {:induction false} BoundedInRun(states: seq<System>, labels: seq<Label>, cfg: Config, i: nat)
    requires CollisionRun(states, labels, cfg) && i < |states|
    ensures Dominance(states[i]) && Bounded(states[i])
  {
    hide IsStep, SystemWellFormed, Dominance, Bounded, AllMasters;
    if i > 0 {
      BoundedInRun(states, labels, cfg, i - 1);
      assert CollisionStep(states[i - 1], labels[i - 1], states[i], cfg);
      StepOwn(states[i - 1], labels[i - 1], states[i], cfg);
      StepKeepsDominance(states[i - 1], labels[i - 1], states[i], cfg);
    }
  }

  lemma IsOwnRun(states: seq<System>, labels: seq<Label>, cfg: Config)
    requires CollisionRun(states, labels, cfg)
    ensures OwnRun(states, labels)
  {
    hide CollisionStep, OwnEffect, SystemWellFormed, Dominance, Bounded;
    forall i | 0 <= i < |labels| ensures OwnEffect(states[i], labels[i], states[i + 1]) {
      BoundedInRun(states, labels, cfg, i);
      StepOwn(states[i], labels[i], states[i + 1], cfg);
    }
  }

  /** Every packet in flight carries an epoch its sender once had. */
  lemma {:induction false} PacketsAreHeld(states: seq<System>, labels: seq<Label>, k: nat, p: Packet)
    requires OwnRun(states, labels) && k < |states| && p in states[k].net
    ensures exists j :: 0 <= j <= k && Own(states[j], p.sender) == p.configEpoch
  {
    hide Own;
    if k > 0 {
      assert OwnEffect(states[k - 1], labels[k - 1], states[k]);
      if p in states[k - 1].net {
        PacketsAreHeld(states, labels, k - 1, p);
      } else {
        assert Own(states[k - 1], p.sender) == p.configEpoch;
      }
    }
  }

  lemma {:induction false} SameServers(states: seq<System>, labels: seq<Label>, k: nat)
    requires OwnRun(states, labels) && k < |states|
    ensures states[k].servers.Keys == states[0].servers.Keys
  {
    if k > 0 {
      hide Own;
      SameServers(states, labels, k - 1);
      assert OwnEffect(states[k - 1], labels[k - 1], states[k]);
    }
  }

  // ----- the own epochs alone

  ghost function TraceOf(states: seq<System>): (r: seq<Epochs>)
    ensures |r| == |states|
    ensures forall i :: 0 <= i < |states| ==> r[i].Keys == states[i].servers.Keys
    ensures forall i, m :: 0 <= i < |states| && m in states[i].servers ==> r[i][m] == Own(states[i], m)
  {
    seq(|states|, i requires 0 <= i < |states| => map m | m in states[i].servers :: Own(states[i], m))
  }

  lemma StepMoves(states: seq<System>, labels: seq<Label>, i: nat)
    requires OwnRun(states, labels) && i < |labels|
    ensures Moves(TraceOf(states), i)
  {
    hide Own;
    var trace := TraceOf(states);
    var a, l, b := states[i], labels[i], states[i + 1];
    var n := Actor(l);
    assert OwnEffect(a, l, b);
    assert trace[i + 1] == trace[i][n := trace[i + 1][n]];
    if Own(a, n) == Own(b, n) {
      assert trace[i + 1] == trace[i];
    } else {
      PacketsAreHeld(states, labels, i, l.p);
      var j :| 0 <= j <= i && Own(states[j], l.p.sender) == l.p.configEpoch;
      SameServers(states, labels, i);
      SameServers(states, labels, j);
      assert MoveOf(trace, i, n, l.p.sender, j);
    }
  }

  lemma RunIsTrace(states: seq<System>, labels: seq<Label>)
    requires OwnRun(states, labels)
    ensures CollisionTrace(TraceOf(states), states[0].servers.Keys)
  {
    hide Moves, OwnEffect, Own;
    forall i | 0 <= i < |states| ensures states[i].servers.Keys == states[0].servers.Keys {
      SameServers(states, labels, i);
    }
    forall i: nat | i + 1 < |states| ensures Moves(TraceOf(states), i) {
      StepMoves(states, labels, i);
    }
  }

  /**
   Collision resolution terminates. In a run over n masters in which nothing else makes
   epochs, at most 2^n - n - 1 steps change any node's config epoch, and the node with
   the greatest name keeps the epoch it started with.
   */
  lemma CollisionsAreBounded(states: seq<System>, labels: seq<Label>, cfg: Config)
    requires CollisionRun(states, labels, cfg)
    ensures var n := |states[0].servers.Keys|;
            |BumpsOf(TraceOf(states), states[0].servers.Keys, |labels|)| <= Pow2(n) - n - 1
    ensures forall m, i ::
              m in states[0].servers && (forall x :: x in states[0].servers ==> x <= m) && 0 <= i < |states| ==>
                Own(states[i], m) == Own(states[0], m)
  {
    var trace, N := TraceOf(states), states[0].servers.Keys;
    hide CollisionStep, SystemWellFormed, Dominance, Bounded, OwnRun, CollisionTrace, Own, BumpsOf;
    IsOwnRun(states, labels, cfg);
    RunIsTrace(states, labels);
    BumpBound(trace, N, N, |labels|);
    forall m, i | m in N && (forall x :: x in N ==> x <= m) && 0 <= i < |states|
      ensures Own(states[i], m) == Own(states[0], m)
    {
      GreatestStays(trace, N, m, i);
      SameKeys(trace, N, i);
    }
  }
}
