/**
 Election safety: at most one replica reaches the quorum branch of
 clusterHandleSlaveFailover with a given failover_auth_epoch.

 The electorate may differ from epoch to epoch. What a run has to satisfy is stated as
 a condition on its steps: votes of epoch e come from electorate(e), a winner of epoch
 e believes the cluster to be at least that large, and no acknowledgement is counted
 between the moment an election is scheduled and the moment it starts. The program
 zeroes the vote counter only when it schedules the election, so the last condition is
 needed: StaleAcksElect shows what happens without it.
 */
module ElectionSafety {
  import opened Prelude
  import opened ClusterNode
  import opened ClusterBus

  // ----- the steps that matter to an election

  /** The step is a granted vote. */
  ghost predicate Votes(s: Server, l: Label, cfg: Config) {
    WellFormed(s) && LocallyEnabled(s, l)
    && l.Deliver? && l.p.kind.AuthRequest? && l.p.sender in s.nodes
    && GrantsVote(ObserveEpochs(s, l.p), l.p, l.now, cfg)
  }

  /** The step is an acknowledgement that increments failover_auth_count. */
  ghost predicate Counts(s: Server, l: Label) {
    l.Deliver? && l.p.kind.AuthAck? && l.p.sender in s.nodes && CountsAck(ObserveEpochs(s, l.p), l.p)
  }

  ghost function FailoverOutcome(s: Server, l: Label, cfg: Config): Outcome {
    if l.Failover? && WellFormed(s) then HandleSlaveFailover(s, l.situation, cfg).1 else Idle
  }

  /** What a step does to the election fields of the acting node. */
  ghost predicate ElectionEffect(s: Server, l: Label, cfg: Config, r: Server) {
    var outcome := FailoverOutcome(s, l, cfg);
    && r.lastVoteEpoch == (if Votes(s, l, cfg) then l.p.currentEpoch else s.lastVoteEpoch)
    && r.authCount == (if Counts(s, l) then s.authCount + 1 else if outcome.Scheduled? then 0 else s.authCount)
    && r.authSent == (if outcome.Scheduled? then false else if outcome.Requested? then true else s.authSent)
    && r.authEpoch == (if outcome.Requested? then s.currentEpoch + 1 else s.authEpoch)
    && (Votes(s, l, cfg) ==> s.lastVoteEpoch != l.p.currentEpoch && s.currentEpoch <= l.p.currentEpoch)
    && (outcome.Requested? ==> !s.authSent)
  }

  /** Which election packets a step sends: one acknowledgement for a vote, requests for an election. */
  ghost predicate ElectionTraffic(s: Server, l: Label, cfg: Config, sent: multiset<Packet>) {
    && (Votes(s, l, cfg) ==> exists ack: Packet :: IsAck(ack, s.myself, l.p) && sent == multiset{ack})
    && (forall p :: p in sent && p.kind.AuthAck? ==> Votes(s, l, cfg))
    && (forall p :: p in sent && p.kind.AuthRequest? ==>
          FailoverOutcome(s, l, cfg).Requested? && p.currentEpoch == s.currentEpoch + 1)
  }

  predicate IsAck(ack: Packet, voter: NodeId, request: Packet) {
    ack.kind.AuthAck? && ack.sender == voter && ack.to == request.sender && ack.currentEpoch == request.currentEpoch
  }

  ghost predicate Effect(s: Server, l: Label, cfg: Config, r: (Server, multiset<Packet>)) {
    ElectionEffect(s, l, cfg, r.0) && ElectionTraffic(s, l, cfg, r.1)
  }

  lemma VoteEffect(s: Server, l: Label, cfg: Config)
    requires WellFormed(s) && LocallyEnabled(s, l) && l.Deliver? && l.p.kind.AuthRequest?
    ensures Effect(s, l, cfg, Local(s, l, cfg))
  {
    hide ClaimsCurrent, BitsOf, ObserveEpochs, NumSlots, WellFormed;
    if l.p.sender in s.nodes {
      var s1 := ObserveEpochs(s, l.p);
      if GrantsVote(s1, l.p, l.now, cfg) {
        var (s2, sent) := Vote(s1, l.p, l.now, cfg);
        var ack := Header(s2, AuthAck, l.p.sender);
        assert sent == multiset{ack} && IsAck(ack, s.myself, l.p);
      }
    }
  }

  lemma PingEffect(s: Server, l: Label, cfg: Config)
    requires WellFormed(s) && LocallyEnabled(s, l) && l.Deliver? && (l.p.kind.Ping? || l.p.kind.Pong?)
    ensures Effect(s, l, cfg, Local(s, l, cfg))
  {
    hide ObserveClaims, ObserveEpochs, Correction, BitsOf, WellFormed;
    if l.p.sender in s.nodes {
      CorrectionIsUpdate(ObserveEpochs(s, l.p), l.p, cfg);
    }
  }

  lemma CorrectionIsUpdate(s: Server, p: Packet, cfg: Config)
    requires WellFormed(s) && PacketWellFormed(p) && p.sender in s.nodes && p.sender != s.myself
    ensures forall q :: q in Correction(s, p, cfg) ==> q.kind.Update?
  {
    hide ObserveClaims, ObserveRole, Dirty, NewerOwner, BitsOf, WellFormed;
  }

  lemma OtherPacketEffect(s: Server, l: Label, cfg: Config)
    requires WellFormed(s) && LocallyEnabled(s, l) && l.Deliver?
    requires l.p.kind.AuthAck? || l.p.kind.Update? || l.p.kind.Other?
    ensures Effect(s, l, cfg, Local(s, l, cfg))
  {
    hide ObserveEpochs, UpdateSlots, SetNodeAsMaster, CountsAck, WellFormed;
  }

  lemma FailoverEffect(s: Server, l: Label, cfg: Config)
    requires WellFormed(s) && LocallyEnabled(s, l) && l.Failover?
    ensures Effect(s, l, cfg, Local(s, l, cfg))
  {
    hide CanFailover, ReplaceMaster, AuthTimeout, BitsOf, WellFormed;
  }

  lemma StepEffect(s: Server, l: Label, cfg: Config)
    requires WellFormed(s) && LocallyEnabled(s, l)
    ensures Effect(s, l, cfg, Local(s, l, cfg))
  {
    match l
    case Deliver(p, _) =>
      hide Effect, Local;
      match p.kind {
        case Ping => PingEffect(s, l, cfg);
        case Pong => PingEffect(s, l, cfg);
        case AuthRequest(_) => VoteEffect(s, l, cfg);
        case _ => OtherPacketEffect(s, l, cfg);
      }
    case Failover(_, _) =>
      hide Effect, Local;
      FailoverEffect(s, l, cfg);
    case _ =>
      hide ClusterSize, BitsOf, WellFormed;
  }

  // ----- the history of a run

  /** votes[v, e]: whom v voted for in epoch e. heard[c]: whose votes c has counted in its present election. */
  datatype History = History(votes: map<(NodeId, nat), NodeId>, heard: map<NodeId, set<NodeId>>)

  ghost function Record(h: History, a: System, l: Label, cfg: Config): History {
    var n := Actor(l);
    if n !in a.servers then h else
    var s := a.servers[n];
    if Votes(s, l, cfg) then h.(votes := h.votes[(n, l.p.currentEpoch) := l.p.sender])
    else if Counts(s, l) then h.(heard := h.heard[n := Heard(h, n) + {l.p.sender}])
    else if FailoverOutcome(s, l, cfg).Scheduled? then h.(heard := h.heard[n := {}])
    else h
  }

  function Heard(h: History, c: NodeId): set<NodeId> {
    if c in h.heard then h.heard[c] else {}
  }

  predicate VotedFor(h: History, v: NodeId, e: nat, c: NodeId) {
    (v, e) in h.votes && h.votes[(v, e)] == c
  }

  // ----- the conditions on a run

  type Electorate = nat -> set<NodeId>

  /** Votes come from the electorate of their epoch, and winners do not underestimate it. */
  ghost predicate AgreedElectorate(s: Server, l: Label, cfg: Config, electorate: Electorate) {
    && (Votes(s, l, cfg) ==> s.myself in electorate(l.p.currentEpoch))
    && (FailoverOutcome(s, l, cfg).Won? ==> |electorate(s.authEpoch)| <= s.size)
  }

  ghost predicate StepMeetsConditions(a: System, l: Label, cfg: Config, electorate: Electorate)
    requires Actor(l) in a.servers
  {
    var s := a.servers[Actor(l)];
    AgreedElectorate(s, l, cfg, electorate) && (Counts(s, l) ==> s.authSent)
  }

  // ----- the invariant

  ghost predicate VoteRecorded(a: System, h: History, electorate: Electorate, v: NodeId, e: nat)
    requires (v, e) in h.votes
  {
    var c := h.votes[(v, e)];
    && v in a.servers && v in electorate(e) && e <= a.servers[v].lastVoteEpoch
    && c in a.servers && e <= a.servers[c].authEpoch
  }

  ghost predicate AckJustified(a: System, h: History, p: Packet) {
    && a.net[p] == 1
    && VotedFor(h, p.sender, p.currentEpoch, p.to)
    && p.sender !in HeardNow(a, h, p.to, p.currentEpoch)
    && forall q :: q in a.net && q.kind.AuthAck? && q.sender == p.sender && q.currentEpoch == p.currentEpoch ==> q == p
  }

  /** The voters whose acknowledgements of epoch e candidate c has counted. */
  ghost function HeardNow(a: System, h: History, c: NodeId, e: nat): set<NodeId> {
    if c in a.servers && a.servers[c].authEpoch == e then Heard(h, c) else {}
  }

  ghost predicate CandidateJustified(a: System, h: History, c: NodeId)
    requires c in a.servers
  {
    var s := a.servers[c];
    && s.authCount == |Heard(h, c)|
    && (!s.authSent ==> Heard(h, c) == {})
    && forall v :: v in Heard(h, c) ==> VotedFor(h, v, s.authEpoch, c)
  }

  ghost predicate VotesRecorded(a: System, h: History, electorate: Electorate) {
    forall v, e :: (v, e) in h.votes ==> VoteRecorded(a, h, electorate, v, e)
  }

  ghost predicate RequestsJustified(a: System) {
    forall p :: p in a.net && p.kind.AuthRequest? ==>
      p.sender in a.servers && p.currentEpoch <= a.servers[p.sender].authEpoch
  }

  ghost predicate AcksJustified(a: System, h: History) {
    forall p :: p in a.net && p.kind.AuthAck? ==> AckJustified(a, h, p)
  }

  ghost predicate CandidatesJustified(a: System, h: History) {
    forall c :: c in a.servers ==> CandidateJustified(a, h, c)
  }

  ghost predicate Inv(a: System, h: History, electorate: Electorate) {
    VotesRecorded(a, h, electorate) && RequestsJustified(a) && AcksJustified(a, h) && CandidatesJustified(a, h)
  }

  /** Nothing has been voted, counted or sent yet. */
  ghost predicate NoElectionYet(a: System) {
    && (forall c :: c in a.servers ==> a.servers[c].authCount == 0)
    && (forall p :: p in a.net ==> !p.kind.AuthRequest? && !p.kind.AuthAck?)
  }

  /** Everything the proofs below need to know about one step. */
  ghost predicate Facts(a: System, l: Label, b: System, cfg: Config, electorate: Electorate,
                        r: (Server, multiset<Packet>)) {
    && Actor(l) in a.servers
    && Consumed(l) <= a.net
    && StepMeetsConditions(a, l, cfg, electorate)
    && b == System(a.servers[Actor(l) := r.0], a.net - Consumed(l) + r.1)
    && a.servers[Actor(l)].myself == Actor(l)
    && LocalKeeps(a.servers[Actor(l)], r)
    && Effect(a.servers[Actor(l)], l, cfg, r)
  }

  lemma StepFacts(a: System, l: Label, b: System, cfg: Config, electorate: Electorate)
    requires IsStep(a, l, b, cfg) && Dominance(a) && StepMeetsConditions(a, l, cfg, electorate)
    ensures Facts(a, l, b, cfg, electorate, Local(a.servers[Actor(l)], l, cfg))
  {
    hide Local, LocalKeeps, Effect, StepMeetsConditions;
    var s := a.servers[Actor(l)];
    assert ServerInPlace(a, Actor(l));
    LocalStepKeeps(s, l, cfg);
    StepEffect(s, l, cfg);
  }

  /** A vote is recorded under an epoch the voter has never voted in. */
  lemma VoteIsFirst(a: System, l: Label, b: System, cfg: Config, h: History, electorate: Electorate,
                    r: (Server, multiset<Packet>))
    requires Facts(a, l, b, cfg, electorate, r) && Dominance(a) && Inv(a, h, electorate)
    requires Votes(a.servers[Actor(l)], l, cfg)
    ensures (Actor(l), l.p.currentEpoch) !in h.votes
  {
    hide GrantsVote, WellFormed;
    assert Dominated(a.servers[Actor(l)]);
  }

  lemma KeepsVotes(a: System, l: Label, b: System, cfg: Config, h: History, electorate: Electorate,
                   r: (Server, multiset<Packet>))
    requires Facts(a, l, b, cfg, electorate, r) && Dominance(a) && Inv(a, h, electorate)
    ensures VotesRecorded(b, Record(h, a, l, cfg), electorate)
  {
    hide GrantsVote, CountsAck, WellFormed, AckJustified, CandidateJustified, HandleSlaveFailover;
    if Votes(a.servers[Actor(l)], l, cfg) {
      assert l.p in a.net;
      VoteIsFirst(a, l, b, cfg, h, electorate, r);
    }
  }

  lemma KeepsRequests(a: System, l: Label, b: System, cfg: Config, h: History, electorate: Electorate,
                      r: (Server, multiset<Packet>))
    requires Facts(a, l, b, cfg, electorate, r) && Dominance(a) && Inv(a, h, electorate)
    ensures RequestsJustified(b)
  {
    hide GrantsVote, CountsAck, WellFormed, AckJustified, CandidateJustified, HandleSlaveFailover, VoteRecorded;
    forall p | p in b.net && p.kind.AuthRequest?
      ensures p.sender in b.servers && p.currentEpoch <= b.servers[p.sender].authEpoch
    {
      assert p in a.net || p in r.1;
    }
  }

  lemma HeardNowGrows(a: System, l: Label, b: System, cfg: Config, h: History, electorate: Electorate,
                      r: (Server, multiset<Packet>), c: NodeId, e: nat, v: NodeId)
    requires Facts(a, l, b, cfg, electorate, r) && Inv(a, h, electorate)
    requires v in HeardNow(b, Record(h, a, l, cfg), c, e) && v !in HeardNow(a, h, c, e)
    ensures Counts(a.servers[Actor(l)], l) && c == Actor(l) && v == l.p.sender && e == l.p.currentEpoch
  {
    hide WellFormed, GrantsVote, HandleSlaveFailover, VoteRecorded, LocallyEnabled, ElectionTraffic,
         LocalKeeps, AckJustified, CountsAck;
    assert CandidateJustified(a, h, c);
    if Counts(a.servers[Actor(l)], l) {
      CountedAckIsCurrent(a, l, h, electorate);
    }
  }

  /** The acknowledgement of a fresh vote is the only one of its voter and epoch. */
  lemma NewAckJustified(a: System, l: Label, b: System, cfg: Config, h: History, electorate: Electorate,
                        r: (Server, multiset<Packet>), p: Packet)
    requires Facts(a, l, b, cfg, electorate, r) && Dominance(a) && Inv(a, h, electorate)
    requires Votes(a.servers[Actor(l)], l, cfg) && r.1 == multiset{p} && IsAck(p, Actor(l), l.p)
    ensures AckJustified(b, Record(h, a, l, cfg), p)
  {
    hide WellFormed, GrantsVote, HandleSlaveFailover, VoteRecorded, CountsAck, LocallyEnabled, ElectionTraffic,
         LocalKeeps, ElectionEffect, CandidateJustified, AckJustified;
    var h' := Record(h, a, l, cfg);
    VoteIsFirst(a, l, b, cfg, h, electorate, r);
    assert VotedFor(h', p.sender, p.currentEpoch, p.to);
    if p.sender in HeardNow(b, h', p.to, p.currentEpoch) {
      assert p.sender !in HeardNow(a, h, p.to, p.currentEpoch) by {
        HeardNowVoted(a, h, electorate, p.to, p.currentEpoch);
      }
      HeardNowGrows(a, l, b, cfg, h, electorate, r, p.to, p.currentEpoch, p.sender);
    }
    NoOtherAck(a, h, electorate, p);
    assert b.net == a.net - multiset{l.p} + multiset{p};
    AckAlone(a, h', b, l.p, p);
  }

  lemma HeardNowVoted(a: System, h: History, electorate: Electorate, c: NodeId, e: nat)
    requires Inv(a, h, electorate)
    ensures forall v :: v in HeardNow(a, h, c, e) ==> VotedFor(h, v, e, c)
  {
    hide VoteRecorded, AckJustified;
    if c in a.servers {
      assert CandidateJustified(a, h, c);
    }
  }

  /** No acknowledgement in flight has a voter and an epoch that were not recorded as a vote. */
  lemma NoOtherAck(a: System, h: History, electorate: Electorate, p: Packet)
    requires Inv(a, h, electorate) && (p.sender, p.currentEpoch) !in h.votes
    ensures forall q :: q in a.net && q.kind.AuthAck? ==> q.sender != p.sender || q.currentEpoch != p.currentEpoch
  {
    hide VoteRecorded, CandidateJustified;
  }

  lemma AckAlone(a: System, h: History, b: System, request: Packet, p: Packet)
    requires p.kind.AuthAck? && b.net == a.net - multiset{request} + multiset{p}
    requires forall q :: q in a.net && q.kind.AuthAck? ==> q.sender != p.sender || q.currentEpoch != p.currentEpoch
    requires VotedFor(h, p.sender, p.currentEpoch, p.to) && p.sender !in HeardNow(b, h, p.to, p.currentEpoch)
    ensures AckJustified(b, h, p)
  {
    assert p !in a.net;
    assert b.net[p] == 1;
  }

  lemma OldAckJustified(a: System, l: Label, b: System, cfg: Config, h: History, electorate: Electorate,
                        r: (Server, multiset<Packet>), p: Packet)
    requires Facts(a, l, b, cfg, electorate, r) && Dominance(a) && Inv(a, h, electorate)
    requires p in a.net - Consumed(l) && p.kind.AuthAck?
    requires forall q :: q in r.1 && q.kind.AuthAck? ==> q.sender != p.sender || q.currentEpoch != p.currentEpoch
    ensures AckJustified(b, Record(h, a, l, cfg), p)
  {
    var h' := Record(h, a, l, cfg);
    hide WellFormed, GrantsVote, HandleSlaveFailover, VoteRecorded, CountsAck, LocallyEnabled, ElectionTraffic,
         LocalKeeps, ElectionEffect, CandidateJustified;
    assert AckJustified(a, h, p);
    assert VotedFor(h', p.sender, p.currentEpoch, p.to) by {
      if Votes(a.servers[Actor(l)], l, cfg) {
        VoteIsFirst(a, l, b, cfg, h, electorate, r);
      }
    }
    if p.sender in HeardNow(b, h', p.to, p.currentEpoch) {
      HeardNowGrows(a, l, b, cfg, h, electorate, r, p.to, p.currentEpoch, p.sender);
    }
    AckStays(a, h, b, h', Consumed(l), r.1, p);
  }

  lemma AckStays(a: System, h: History, b: System, h': History, consumed: multiset<Packet>, sent: multiset<Packet>,
                 p: Packet)
    requires p.kind.AuthAck? && p in a.net - consumed && b.net == a.net - consumed + sent
    requires forall q :: q in sent && q.kind.AuthAck? ==> q.sender != p.sender || q.currentEpoch != p.currentEpoch
    requires AckJustified(a, h, p)
    requires VotedFor(h', p.sender, p.currentEpoch, p.to) && p.sender !in HeardNow(b, h', p.to, p.currentEpoch)
    ensures AckJustified(b, h', p)
  {
    assert p !in sent;
    forall q | q in b.net && q.kind.AuthAck? && q.sender == p.sender && q.currentEpoch == p.currentEpoch
      ensures q == p
    {
      assert q in a.net;
    }
  }

  lemma KeepsAcks(a: System, l: Label, b: System, cfg: Config, h: History, electorate: Electorate,
                  r: (Server, multiset<Packet>))
    requires Facts(a, l, b, cfg, electorate, r) && Dominance(a) && Inv(a, h, electorate)
    ensures AcksJustified(b, Record(h, a, l, cfg))
  {
    var h' := Record(h, a, l, cfg);
    hide WellFormed, GrantsVote, HandleSlaveFailover, VoteRecorded, CountsAck, AckJustified, LocalKeeps, Record, Inv;
    forall p | p in b.net && p.kind.AuthAck? ensures AckJustified(b, h', p) {
      if p in r.1 {
        NewAckJustified(a, l, b, cfg, h, electorate, r, p);
      } else {
        assert p in a.net - Consumed(l);
        forall q | q in r.1 && q.kind.AuthAck? ensures q.sender != p.sender || q.currentEpoch != p.currentEpoch {
          NewAckJustified(a, l, b, cfg, h, electorate, r, q);
          assert AckIsUnique(b, h', q, p) by { AckUnique(b, h', q, p); }
        }
        OldAckJustified(a, l, b, cfg, h, electorate, r, p);
      }
    }
  }

  predicate AckIsUnique(a: System, h: History, p: Packet, q: Packet) {
    q in a.net && q.kind.AuthAck? && q.sender == p.sender && q.currentEpoch == p.currentEpoch ==> q == p
  }

  lemma AckUnique(a: System, h: History, p: Packet, q: Packet)
    requires AckJustified(a, h, p)
    ensures AckIsUnique(a, h, p, q)
  {
  }

  lemma KeepsCandidate(a: System, l: Label, b: System, cfg: Config, h: History, electorate: Electorate,
                       r: (Server, multiset<Packet>), c: NodeId)
    requires Facts(a, l, b, cfg, electorate, r) && Dominance(a) && Inv(a, h, electorate)
    requires c in b.servers
    ensures CandidateJustified(b, Record(h, a, l, cfg), c)
  {
    hide WellFormed, GrantsVote, HandleSlaveFailover, CountsAck, LocallyEnabled, ElectionTraffic, LocalKeeps,
         VotesRecorded, RequestsJustified, AcksJustified, Dominance, AgreedElectorate, ObserveEpochs;
    assert CandidateJustified(a, h, c);
    if Votes(a.servers[Actor(l)], l, cfg) {
      VoteIsFirst(a, l, b, cfg, h, electorate, r);
    } else if Counts(a.servers[Actor(l)], l) {
      CountedAckIsCurrent(a, l, h, electorate);
    }
  }

  /** A counted acknowledgement belongs to the candidate's present election, and its voter is new. */
  lemma CountedAckIsCurrent(a: System, l: Label, h: History, electorate: Electorate)
    requires Actor(l) in a.servers && Consumed(l) <= a.net && Inv(a, h, electorate)
    requires Counts(a.servers[Actor(l)], l)
    ensures l.p.currentEpoch == a.servers[Actor(l)].authEpoch
    ensures VotedFor(h, l.p.sender, l.p.currentEpoch, Actor(l))
    ensures l.p.sender !in Heard(h, Actor(l))
  {
    hide WellFormed, NumSlots;
    assert l.p in a.net;
    assert AckJustified(a, h, l.p);
    assert VoteRecorded(a, h, electorate, l.p.sender, l.p.currentEpoch);
  }

  lemma KeepsCandidates(a: System, l: Label, b: System, cfg: Config, h: History, electorate: Electorate,
                        r: (Server, multiset<Packet>))
    requires Facts(a, l, b, cfg, electorate, r) && Dominance(a) && Inv(a, h, electorate)
    ensures CandidatesJustified(b, Record(h, a, l, cfg))
  {
    hide Record, CandidateJustified, Facts, Dominance, Inv;
    forall c | c in b.servers ensures CandidateJustified(b, Record(h, a, l, cfg), c) {
      KeepsCandidate(a, l, b, cfg, h, electorate, r, c);
    }
  }

  lemma FactsKeepInv(a: System, l: Label, b: System, cfg: Config, h: History, electorate: Electorate,
                     r: (Server, multiset<Packet>))
    requires Facts(a, l, b, cfg, electorate, r) && Dominance(a) && Inv(a, h, electorate)
    ensures Inv(b, Record(h, a, l, cfg), electorate)
  {
    hide Record, VotesRecorded, RequestsJustified, AcksJustified, CandidatesJustified, Facts, Dominance;
    KeepsVotes(a, l, b, cfg, h, electorate, r);
    KeepsRequests(a, l, b, cfg, h, electorate, r);
    KeepsAcks(a, l, b, cfg, h, electorate, r);
    KeepsCandidates(a, l, b, cfg, h, electorate, r);
  }

  lemma StepKeepsInv(a: System, l: Label, b: System, cfg: Config, h: History, electorate: Electorate)
    requires IsStep(a, l, b, cfg) && Dominance(a) && StepMeetsConditions(a, l, cfg, electorate)
             && Inv(a, h, electorate)
    ensures Inv(b, Record(h, a, l, cfg), electorate)
  {
    hide Record, Inv, StepMeetsConditions, Facts, Dominance, Local;
    StepFacts(a, l, b, cfg, electorate);
    FactsKeepInv(a, l, b, cfg, h, electorate, Local(a.servers[Actor(l)], l, cfg));
  }

  // ----- whole runs

  ghost predicate MeetsConditions(states: seq<System>, labels: seq<Label>, cfg: Config, electorate: Electorate) {
    |labels| <= |states| && forall i :: 0 <= i < |labels| ==>
      Actor(labels[i]) in states[i].servers && StepMeetsConditions(states[i], labels[i], cfg, electorate)
  }

  /** In step i node c reaches the quorum branch with election epoch e. */
  ghost predicate WinsAt(states: seq<System>, labels: seq<Label>, cfg: Config, i: nat, c: NodeId, e: nat) {
    && i < |labels| < |states|
    && c == Actor(labels[i])
    && c in states[i].servers
    && FailoverOutcome(states[i].servers[c], labels[i], cfg).Won?
    && e == states[i].servers[c].authEpoch
  }

  ghost function HistoryAt(states: seq<System>, labels: seq<Label>, cfg: Config, i: nat): History
    requires i <= |labels| <= |states|
  {
    if i == 0 then History(map[], map[])
    else
      Record(HistoryAt(states, labels, cfg, i - 1), states[i - 1], labels[i - 1], cfg)
  }

  lemma {:induction false} InvInEveryRun(states: seq<System>, labels: seq<Label>, cfg: Config,
                                         electorate: Electorate, i: nat)
    requires IsRun(states, labels, cfg) && Dominance(states[0]) && NoElectionYet(states[0])
    requires MeetsConditions(states, labels, cfg, electorate) && i <= |labels|
    ensures Dominance(states[i]) && Inv(states[i], HistoryAt(states, labels, cfg, i), electorate)
  {
    hide IsStep, SystemWellFormed, Dominance, StepMeetsConditions, Record;
    DominanceInEveryRun(states, labels, cfg, i);
    if i == 0 {
      assert Inv(states[0], History(map[], map[]), electorate);
    } else {
      hide Inv;
      InvInEveryRun(states, labels, cfg, electorate, i - 1);
      StepKeepsInv(states[i - 1], labels[i - 1], states[i], cfg, HistoryAt(states, labels, cfg, i - 1), electorate);
    }
  }

  lemma StepKeepsVotes(a: System, l: Label, b: System, cfg: Config, h: History, electorate: Electorate, v: NodeId,
                       e: nat, c: NodeId)
    requires IsStep(a, l, b, cfg) && Dominance(a) && StepMeetsConditions(a, l, cfg, electorate)
             && Inv(a, h, electorate)
    requires VotedFor(h, v, e, c)
    ensures VotedFor(Record(h, a, l, cfg), v, e, c)
  {
    hide Local, Inv, Facts, StepMeetsConditions, Dominance, GrantsVote, WellFormed, HandleSlaveFailover, CountsAck;
    if Votes(a.servers[Actor(l)], l, cfg) {
      StepFacts(a, l, b, cfg, electorate);
      VoteIsFirst(a, l, b, cfg, h, electorate, Local(a.servers[Actor(l)], l, cfg));
    }
  }

  lemma {:induction false} VotesStay(states: seq<System>, labels: seq<Label>, cfg: Config, electorate: Electorate,
                                     i: nat, j: nat, v: NodeId, e: nat, c: NodeId)
    requires IsRun(states, labels, cfg) && Dominance(states[0]) && NoElectionYet(states[0])
    requires MeetsConditions(states, labels, cfg, electorate) && i <= j <= |labels|
    requires VotedFor(HistoryAt(states, labels, cfg, i), v, e, c)
    ensures VotedFor(HistoryAt(states, labels, cfg, j), v, e, c)
    decreases j
  {
    hide IsStep, SystemWellFormed, Dominance, StepMeetsConditions, Record, Inv, VotedFor;
    if i < j {
      VotesStay(states, labels, cfg, electorate, i, j - 1, v, e, c);
      InvInEveryRun(states, labels, cfg, electorate, j - 1);
      StepKeepsVotes(states[j - 1], labels[j - 1], states[j], cfg, HistoryAt(states, labels, cfg, j - 1),
                     electorate, v, e, c);
    }
  }

  /** The members of the electorate of epoch e that voted for c in it. */
  ghost function Voters(h: History, electorate: Electorate, c: NodeId, e: nat): set<NodeId> {
    set v | v in electorate(e) && VotedFor(h, v, e, c)
  }

  /** Whoever reaches the quorum branch holds the votes of a majority of its electorate. */
  lemma WinnerHasMajority(a: System, l: Label, b: System, cfg: Config, h: History, electorate: Electorate)
    requires IsStep(a, l, b, cfg) && StepMeetsConditions(a, l, cfg, electorate) && Inv(a, h, electorate)
    requires FailoverOutcome(a.servers[Actor(l)], l, cfg).Won?
    ensures var s := a.servers[Actor(l)];
            2 * |Voters(h, electorate, Actor(l), s.authEpoch)| > |electorate(s.authEpoch)|
  {
    hide Local, AckJustified, WellFormed, CanFailover, ReplaceMaster;
    var c := Actor(l);
    var s := a.servers[c];
    assert CandidateJustified(a, h, c);
    forall v | v in Heard(h, c) ensures v in Voters(h, electorate, c, s.authEpoch) {
      assert VoteRecorded(a, h, electorate, v, s.authEpoch);
    }
    SubsetSize(Heard(h, c), Voters(h, electorate, c, s.authEpoch));
  }

  /** Two majorities of one electorate share a voter, and a voter has one vote per epoch. */
  lemma MajoritiesMeet(h: History, electorate: Electorate, c1: NodeId, c2: NodeId, e: nat)
    requires 2 * |Voters(h, electorate, c1, e)| > |electorate(e)|
    requires 2 * |Voters(h, electorate, c2, e)| > |electorate(e)|
    ensures c1 == c2
  {
    if c1 != c2 {
      var a, b := Voters(h, electorate, c1, e), Voters(h, electorate, c2, e);
      assert a !! b;
      assert |a + b| == |a| + |b|;
      SubsetSize(a + b, electorate(e));
    }
  }

  lemma MajorityStays(states: seq<System>, labels: seq<Label>, cfg: Config, electorate: Electorate, i: nat, j: nat,
                      c: NodeId, e: nat)
    requires IsRun(states, labels, cfg) && Dominance(states[0]) && NoElectionYet(states[0])
    requires MeetsConditions(states, labels, cfg, electorate) && i <= j <= |labels| && i < |labels|
    requires WinsAt(states, labels, cfg, i, c, e)
    ensures 2 * |Voters(HistoryAt(states, labels, cfg, j), electorate, c, e)| > |electorate(e)|
  {
    hide IsStep, SystemWellFormed, Dominance, StepMeetsConditions, Record, Inv, FailoverOutcome, HistoryAt, VotedFor;
    var hi, hj := HistoryAt(states, labels, cfg, i), HistoryAt(states, labels, cfg, j);
    InvInEveryRun(states, labels, cfg, electorate, i);
    WinnerHasMajority(states[i], labels[i], states[i + 1], cfg, hi, electorate);
    forall v | v in Voters(hi, electorate, c, e) ensures v in Voters(hj, electorate, c, e) {
      VotesStay(states, labels, cfg, electorate, i, j, v, e, c);
    }
    SubsetSize(Voters(hi, electorate, c, e), Voters(hj, electorate, c, e));
  }

  /**
   Election safety. In every run in which each vote of epoch e comes from
   electorate(e), winners do not underestimate that electorate, and no acknowledgement
   is counted while an election is only scheduled, two replicas that reach the quorum
   branch with the same election epoch are the same replica.
   */
  lemma AtMostOneWinnerPerEpoch(states: seq<System>, labels: seq<Label>, cfg: Config, electorate: Electorate,
                                i: nat, j: nat, c1: NodeId, c2: NodeId, e: nat)
    requires IsRun(states, labels, cfg) && Dominance(states[0]) && NoElectionYet(states[0])
    requires MeetsConditions(states, labels, cfg, electorate)
    requires i <= j < |labels|
    requires WinsAt(states, labels, cfg, i, c1, e) && WinsAt(states, labels, cfg, j, c2, e)
    ensures c1 == c2
  {
    hide IsStep, SystemWellFormed, MeetsConditions, Dominance, WinsAt, HistoryAt, Voters;
    MajorityStays(states, labels, cfg, electorate, i, j, c1, e);
    MajorityStays(states, labels, cfg, electorate, j, j, c2, e);
    MajoritiesMeet(HistoryAt(states, labels, cfg, j), electorate, c1, c2, e);
  }

  // ----- why acknowledgements between scheduling and start must be excluded

  ghost function ProcessAll(s: Server, ps: seq<Packet>, cfg: Config): (r: Server)
    requires WellFormed(s) && forall i :: 0 <= i < |ps| ==> LateAck(s, ps[i])
    ensures WellFormed(r) && r == s.(currentEpoch := r.currentEpoch, nodes := r.nodes,
                                     authCount := s.authCount + |ps|)
    ensures SameRoles(s, r)
    decreases |ps|
  {
    if ps == [] then s
    else
      assert LateAck(s, ps[0]);
      var s1 := ProcessPacket(s, ps[0], 0, cfg).0;
      assert s1 == s.(currentEpoch := s1.currentEpoch, nodes := s1.nodes, authCount := s.authCount + 1);
      assert SameRoles(s, s1);
      assert forall i :: 0 <= i < |ps[1..]| ==> ps[1..][i] == ps[i + 1];
      assert forall p :: LateAck(s, p) ==> LateAck(s1, p);
      ProcessAll(s1, ps[1..], cfg)
  }

  ghost predicate SameRoles(s: Server, r: Server) {
    && r.nodes.Keys == s.nodes.Keys
    && forall m :: m in s.nodes ==> r.nodes[m] == s.nodes[m].(configEpoch := r.nodes[m].configEpoch)
  }

  /** An acknowledgement of the election that s was running before it scheduled another. */
  predicate LateAck(s: Server, p: Packet) {
    && PacketWellFormed(p) && p.kind.AuthAck?
    && p.sender in s.nodes && p.sender != s.myself
    && s.nodes[p.sender].master && NumSlots(s.slots, p.sender) > 0
    && p.currentEpoch == s.authEpoch
  }

  /** The clock stands between the scheduled start of the election and its timeout. */
  predicate OnTime(s: Server, e: Situation, cfg: Config) {
    s.authTime + e.rankDelay <= e.now <= s.authTime + AuthTimeout(cfg)
  }

  /**
   With acknowledgements in the window the election breaks: a replica that has
   scheduled a new election, and then hears as many late votes of its previous one as
   make a quorum, wins the new epoch on the very next call after starting it, before
   any node has seen the request and so without a single vote of that epoch.
   */
  lemma StaleAcksElect(s: Server, late: seq<Packet>, e: Situation, cfg: Config)
    requires WellFormed(s) && Dominated(s) && !s.authSent && s.authCount == 0
    requires forall i :: 0 <= i < |late| ==> LateAck(s, late[i])
    requires |late| >= Quorum(s)
    requires CanFailover(s, e) && OnTime(s, e, cfg)
    ensures var s1 := ProcessAll(s, late, cfg);
            var (s2, o2) := HandleSlaveFailover(s1, e, cfg);
            var (s3, o3) := HandleSlaveFailover(s2, e.(rankDelay := 0), cfg);
            o2.Requested? && o3.Won? && s2.authEpoch > s1.currentEpoch
            && s3.nodes[s3.myself].configEpoch >= s2.authEpoch
  {
    hide ReplaceMaster, ProcessAll;
    var s1 := ProcessAll(s, late, cfg);
    assert CanFailover(s1, e) by {
      assert s1.nodes[s1.myself].slaveof == s.nodes[s.myself].slaveof;
    }
    var (s2, o2) := HandleSlaveFailover(s1, e, cfg);
    assert o2.Requested? && s2.authCount >= Quorum(s2);
    assert CanFailover(s2, e.(rankDelay := 0));
  }
}
