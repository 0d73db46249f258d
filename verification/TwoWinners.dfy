/**
 Why election safety excludes acknowledgements that arrive between the scheduling and
 the start of an election. A run of a cluster of three masters and two replicas of the
 failed one, in which everything else that ElectionSafety asks for holds, and in which
 both replicas reach the quorum branch in epoch 2: the second by the votes of that
 epoch, the first by two late votes of epoch 1.
 */
module TwoWinners {
  import opened Prelude
  import opened ClusterNode
  import opened ClusterBus
  import opened ElectionSafety

  const FAILED: NodeId := 0
  const VOTER1: NodeId := 1
  const VOTER2: NodeId := 2
  const FIRST: NodeId := 3
  const SECOND: NodeId := 4

  const CFG := Config(1000, false, true)

  /** One slot for each of the three masters. */
  function Table(): (r: seq<Option<NodeId>>)
    ensures |r| == CLUSTER_SLOTS
    ensures forall j :: 0 <= j < |r| ==> r[j] == if j < 3 then Some(j) else None
  {
    seq(CLUSTER_SLOTS, j requires 0 <= j < CLUSTER_SLOTS => if j < 3 then Some(j) else None)
  }

  function Nowhere(): (r: seq<Option<NodeId>>)
    ensures |r| == CLUSTER_SLOTS
  {
    seq(CLUSTER_SLOTS, _ => None)
  }

  function Peers(votedTime: int): (r: map<NodeId, Peer>)
    ensures r.Keys == {FAILED, VOTER1, VOTER2, FIRST, SECOND}
  {
    map[FAILED := Peer(true, None, true, 0, votedTime),
        VOTER1 := Peer(true, None, false, 0, 0),
        VOTER2 := Peer(true, None, false, 0, 0),
        FIRST := Peer(false, Some(FAILED), false, 0, 0),
        SECOND := Peer(false, Some(FAILED), false, 0, 0)]
  }

  predicate Known(n: NodeId) {
    n <= SECOND
  }

  /** A node that has voted at votedTime in epoch vote, or runs the election of epoch auth. */
  function Member(me: NodeId, epoch: nat, vote: nat, votedTime: int, authTime: int, count: nat, sent: bool,
                  auth: nat): Server {
    Server(me, epoch, vote, Peers(votedTime), Table(), Nowhere(), Nowhere(), 3, authTime, count, sent, auth)
  }

  function Voter(me: NodeId, epoch: nat, votedTime: int): Server {
    Member(me, epoch, epoch, votedTime, 0, 0, false, 0)
  }

  function Candidate(me: NodeId, epoch: nat, authTime: int, count: nat, sent: bool, auth: nat): Server {
    Member(me, epoch, 0, 0, authTime, count, sent, auth)
  }

  /** A call of clusterHandleSlaveFailover with the shortest delay it may choose. */
  function Call(now: int): Situation {
    Situation(now, false, false, false, false, 500, 0)
  }

  function Request(from: NodeId, to: NodeId, epoch: nat): Packet {
    Packet(AuthRequest(false), from, to, epoch, 0, BitsOf(Table(), FAILED), Some(FAILED))
  }

  function Ack(from: NodeId, to: NodeId, epoch: nat): Packet {
    Packet(AuthAck, from, to, epoch, 0, BitsOf(Table(), from), None)
  }

  lemma MemberWellFormed(me: NodeId, epoch: nat, vote: nat, votedTime: int, authTime: int, count: nat, sent: bool,
                         auth: nat)
    requires Known(me)
    ensures WellFormed(Member(me, epoch, vote, votedTime, authTime, count, sent, auth))
  {
  }

  lemma Serves(n: NodeId)
    requires n <= VOTER2
    ensures NumSlots(Table(), n) > 0
  {
    CountZero(Table(), Some(n));
    assert Table()[n] == Some(n);
  }

  // ----- what each step does to the node that takes it

  lemma Requests(me: NodeId, epoch: nat, time: int, count: nat, auth: nat)
    requires me == FIRST || me == SECOND
    ensures var s, s1 := Candidate(me, epoch, time, count, false, auth),
                         Candidate(me, epoch + 1, time, count, true, epoch + 1);
            && WellFormed(s) && WellFormed(s1)
            && HandleSlaveFailover(s, Call(time), CFG) == (s1, Requested)
  {
    hide WellFormed, NumSlots, BitsOf, Table, Nowhere;
    MemberWellFormed(me, epoch, 0, 0, time, count, false, auth);
    MemberWellFormed(me, epoch + 1, 0, 0, time, count, true, epoch + 1);
    Serves(FAILED);
  }

  lemma Asks(me: NodeId, to: NodeId, epoch: nat, time: int, count: nat)
    requires (me == FIRST || me == SECOND) && Known(to) && to != me
    ensures var s := Candidate(me, epoch, time, count, true, epoch);
            WellFormed(s) && Request(me, to, epoch) in Broadcast(s, AuthRequest(false))
  {
    hide WellFormed, NumSlots, BitsOf, Table, Nowhere;
    MemberWellFormed(me, epoch, 0, 0, time, count, true, epoch);
    var s := Candidate(me, epoch, time, count, true, epoch);
    assert to in s.nodes.Keys;
    assert Header(s, AuthRequest(false), to) == Request(me, to, epoch);
  }

  lemma Schedules(me: NodeId, epoch: nat, time: int, count: nat, auth: nat, now: int)
    requires (me == FIRST || me == SECOND) && now > time + 4000
    ensures var s := Candidate(me, epoch, time, count, true, auth);
            && WellFormed(s)
            && HandleSlaveFailover(s, Call(now), CFG) == (Candidate(me, epoch, now + 500, 0, false, auth), Scheduled)
  {
    hide WellFormed, NumSlots, BitsOf, Table, Nowhere;
    MemberWellFormed(me, epoch, 0, 0, time, count, true, auth);
    Serves(FAILED);
  }

  lemma Wins(me: NodeId, epoch: nat, time: int)
    requires me == FIRST || me == SECOND
    ensures var s := Candidate(me, epoch, time, 2, true, epoch);
            WellFormed(s) && HandleSlaveFailover(s, Call(time), CFG).1.Won?
  {
    hide ReplaceMaster, WellFormed, NumSlots, BitsOf, Table, Nowhere;
    MemberWellFormed(me, epoch, 0, 0, time, 2, true, epoch);
    Serves(FAILED);
  }

  lemma PacketsWellFormed(from: NodeId, to: NodeId, epoch: nat)
    ensures PacketWellFormed(Request(from, to, epoch)) && PacketWellFormed(Ack(from, to, epoch))
  {
  }

  lemma AsksRightly(me: NodeId, candidate: NodeId, epoch: nat, votedTime: int, now: int)
    requires (me == VOTER1 || me == VOTER2) && (candidate == FIRST || candidate == SECOND)
    requires now >= votedTime + 2000
    ensures var s1 := Member(me, epoch + 1, epoch, votedTime, 0, 0, false, 0);
            var p := Request(candidate, me, epoch + 1);
            WellFormed(s1) && PacketWellFormed(p) && GrantsVote(s1, p, now, CFG)
  {
    hide WellFormed, NumSlots, Nowhere;
    MemberWellFormed(me, epoch + 1, epoch, votedTime, 0, 0, false, 0);
    PacketsWellFormed(candidate, me, epoch + 1);
    Serves(me);
  }

  lemma Grants(me: NodeId, candidate: NodeId, epoch: nat, votedTime: int, now: int)
    requires (me == VOTER1 || me == VOTER2) && (candidate == FIRST || candidate == SECOND)
    requires now >= votedTime + 2000
    ensures var s := Voter(me, epoch, votedTime);
            var p := Request(candidate, me, epoch + 1);
            && WellFormed(s) && PacketWellFormed(p)
            && ProcessPacket(s, p, now, CFG)
               == (Voter(me, epoch + 1, now), multiset{Ack(me, candidate, epoch + 1)})
  {
    hide WellFormed, NumSlots, BitsOf, Table, Nowhere, GrantsVote;
    MemberWellFormed(me, epoch, epoch, votedTime, 0, 0, false, 0);
    MemberWellFormed(me, epoch + 1, epoch + 1, now, 0, 0, false, 0);
    AsksRightly(me, candidate, epoch, votedTime, now);
    var p := Request(candidate, me, epoch + 1);
    var s1 := ObserveEpochs(Voter(me, epoch, votedTime), p);
    assert s1 == Member(me, epoch + 1, epoch, votedTime, 0, 0, false, 0);
    assert s1.nodes[FAILED := s1.nodes[FAILED].(votedTime := now)] == Peers(now);
  }

  lemma Learns(me: NodeId, from: NodeId, time: int, epoch: nat, now: int)
    requires (me == FIRST || me == SECOND) && (from == FIRST || from == SECOND) && me != from
    ensures var s := Candidate(me, 0, time, 0, false, 0);
            && WellFormed(s) && PacketWellFormed(Request(from, me, epoch))
            && ProcessPacket(s, Request(from, me, epoch), now, CFG)
               == (Candidate(me, epoch, time, 0, false, 0), multiset{})
  {
    hide WellFormed, NumSlots, BitsOf, Table, Nowhere;
    MemberWellFormed(me, 0, 0, 0, time, 0, false, 0);
    PacketsWellFormed(from, me, epoch);
  }

  lemma Hears(me: NodeId, from: NodeId, epoch: nat, time: int, count: nat, sent: bool, now: int)
    requires (me == FIRST || me == SECOND) && (from == VOTER1 || from == VOTER2)
    ensures var s := Candidate(me, epoch, time, count, sent, epoch);
            && WellFormed(s) && PacketWellFormed(Ack(from, me, epoch))
            && ProcessPacket(s, Ack(from, me, epoch), now, CFG)
               == (Candidate(me, epoch, time, count + 1, sent, epoch), multiset{})
  {
    hide WellFormed, NumSlots, BitsOf, Table, Nowhere;
    MemberWellFormed(me, epoch, 0, 0, time, count, sent, epoch);
    PacketsWellFormed(from, me, epoch);
    Serves(from);
  }

  // ----- the run

  /** The electorate of every epoch. */
  function Masters(e: nat): set<NodeId> {
    {FAILED, VOTER1, VOTER2}
  }

  lemma MemberAgrees(s: Server, l: Label)
    requires Known(s.myself) && s.size == 3 && exists votedTime :: s.nodes == Peers(votedTime)
    ensures AgreedElectorate(s, l, CFG, Masters)
  {
    hide WellFormed, HandleSlaveFailover, NumSlots, ClaimsCurrent;
    assert |Masters(s.authEpoch)| == 3;
  }

  type Members = map<NodeId, Server>

  /** The run ends with these members, and at least these packets in flight. */
  ghost predicate Reaches(states: seq<System>, labels: seq<Label>, members: Members, flying: multiset<Packet>) {
    && IsRun(states, labels, CFG) && Dominance(states[0]) && NoElectionYet(states[0])
    && (forall i :: 0 <= i < |labels| ==> AgreedAt(states[i], labels[i]))
    && states[|labels|].servers == members
    && flying <= states[|labels|].net
  }

  ghost predicate AgreedAt(a: System, l: Label) {
    Actor(l) in a.servers && AgreedElectorate(a.servers[Actor(l)], l, CFG, Masters)
  }

  lemma Extend(states: seq<System>, labels: seq<Label>, members: Members, flying: multiset<Packet>, l: Label,
               s: Server, sent: multiset<Packet>)
    returns (states1: seq<System>, labels1: seq<Label>)
    requires Reaches(states, labels, members, flying) && Actor(l) in members && Consumed(l) <= flying
    requires WellFormed(members[Actor(l)]) && LocallyEnabled(members[Actor(l)], l)
    requires Local(members[Actor(l)], l, CFG).0 == s && sent <= Local(members[Actor(l)], l, CFG).1
    requires AgreedElectorate(members[Actor(l)], l, CFG, Masters)
    ensures Reaches(states1, labels1, members[Actor(l) := s], flying - Consumed(l) + sent)
    ensures states < states1 && labels1 == labels + [l]
  {
    hide SystemWellFormed, Local, LocallyEnabled, AgreedElectorate, Dominance, WellFormed;
    var n := |labels|;
    DominanceInEveryRun(states, labels, CFG, n);
    var a := states[n];
    assert Enabled(a, l);
    var b := Apply(a, l, CFG);
    states1, labels1 := states + [b], labels + [l];
    forall i | 0 <= i < |labels1| ensures IsStep(states1[i], labels1[i], states1[i + 1], CFG) {
      if i < n {
        assert IsStep(states[i], labels[i], states[i + 1], CFG);
      }
    }
    forall i | 0 <= i < |labels1| ensures AgreedAt(states1[i], labels1[i]) {
      if i < n {
        assert AgreedAt(states[i], labels[i]);
      }
    }
  }

  lemma RequestStep(states: seq<System>, labels: seq<Label>, members: Members, flying: multiset<Packet>,
                    me: NodeId, other: NodeId, epoch: nat, time: int, count: nat, auth: nat)
    returns (states1: seq<System>, labels1: seq<Label>)
    requires (me == FIRST && other == SECOND) || (me == SECOND && other == FIRST)
    requires Reaches(states, labels, members, flying) && me in members
    requires members[me] == Candidate(me, epoch, time, count, false, auth)
    ensures Reaches(states1, labels1, members[me := Candidate(me, epoch + 1, time, count, true, epoch + 1)],
                    flying + multiset{Request(me, VOTER1, epoch + 1), Request(me, VOTER2, epoch + 1),
                                      Request(me, other, epoch + 1)})
    ensures states < states1 && labels1 == labels + [Failover(me, Call(time))]
  {
    hide Reaches, HandleSlaveFailover, Broadcast, WellFormed, AgreedElectorate;
    var s1 := Candidate(me, epoch + 1, time, count, true, epoch + 1);
    Requests(me, epoch, time, count, auth);
    Asks(me, VOTER1, epoch + 1, time, count);
    Asks(me, VOTER2, epoch + 1, time, count);
    Asks(me, other, epoch + 1, time, count);
    var l := Failover(me, Call(time));
    var sent := multiset{Request(me, VOTER1, epoch + 1), Request(me, VOTER2, epoch + 1),
                         Request(me, other, epoch + 1)};
    assert sent <= Broadcast(s1, AuthRequest(false));
    MemberAgrees(members[me], l);
    states1, labels1 := Extend(states, labels, members, flying, l, s1, sent);
    assert flying - multiset{} + sent == flying + sent;
  }

  lemma ScheduleStep(states: seq<System>, labels: seq<Label>, members: Members, flying: multiset<Packet>,
                     me: NodeId, epoch: nat, time: int, count: nat, auth: nat, now: int)
    returns (states1: seq<System>, labels1: seq<Label>)
    requires (me == FIRST || me == SECOND) && now > time + 4000
    requires Reaches(states, labels, members, flying) && me in members
    requires members[me] == Candidate(me, epoch, time, count, true, auth)
    ensures Reaches(states1, labels1, members[me := Candidate(me, epoch, now + 500, 0, false, auth)], flying)
    ensures states < states1 && labels1 == labels + [Failover(me, Call(now))]
  {
    hide Reaches, HandleSlaveFailover, WellFormed, AgreedElectorate;
    Schedules(me, epoch, time, count, auth, now);
    var l := Failover(me, Call(now));
    MemberAgrees(members[me], l);
    states1, labels1 := Extend(states, labels, members, flying, l, Candidate(me, epoch, now + 500, 0, false, auth),
                               multiset{});
    assert flying - multiset{} + multiset{} == flying;
  }

  lemma GrantStep(states: seq<System>, labels: seq<Label>, members: Members, flying: multiset<Packet>,
                  me: NodeId, candidate: NodeId, epoch: nat, votedTime: int, now: int)
    returns (states1: seq<System>, labels1: seq<Label>)
    requires (me == VOTER1 || me == VOTER2) && (candidate == FIRST || candidate == SECOND)
    requires now >= votedTime + 2000
    requires Reaches(states, labels, members, flying) && me in members
    requires members[me] == Voter(me, epoch, votedTime) && Request(candidate, me, epoch + 1) in flying
    ensures Reaches(states1, labels1, members[me := Voter(me, epoch + 1, now)],
                    flying - multiset{Request(candidate, me, epoch + 1)} + multiset{Ack(me, candidate, epoch + 1)})
    ensures states < states1 && labels1 == labels + [Deliver(Request(candidate, me, epoch + 1), now)]
  {
    hide Reaches, ProcessPacket, WellFormed, AgreedElectorate, PacketWellFormed;
    Grants(me, candidate, epoch, votedTime, now);
    var l := Deliver(Request(candidate, me, epoch + 1), now);
    MemberAgrees(members[me], l);
    states1, labels1 := Extend(states, labels, members, flying, l, Voter(me, epoch + 1, now),
                               multiset{Ack(me, candidate, epoch + 1)});
  }

  lemma LearnStep(states: seq<System>, labels: seq<Label>, members: Members, flying: multiset<Packet>,
                  me: NodeId, from: NodeId, time: int, epoch: nat, now: int)
    returns (states1: seq<System>, labels1: seq<Label>)
    requires (me == FIRST || me == SECOND) && (from == FIRST || from == SECOND) && me != from
    requires Reaches(states, labels, members, flying) && me in members
    requires members[me] == Candidate(me, 0, time, 0, false, 0) && Request(from, me, epoch) in flying
    ensures Reaches(states1, labels1, members[me := Candidate(me, epoch, time, 0, false, 0)],
                    flying - multiset{Request(from, me, epoch)})
    ensures states < states1 && labels1 == labels + [Deliver(Request(from, me, epoch), now)]
  {
    hide Reaches, ProcessPacket, WellFormed, AgreedElectorate, PacketWellFormed;
    Learns(me, from, time, epoch, now);
    var l := Deliver(Request(from, me, epoch), now);
    MemberAgrees(members[me], l);
    states1, labels1 := Extend(states, labels, members, flying, l, Candidate(me, epoch, time, 0, false, 0),
                               multiset{});
    assert flying - multiset{Request(from, me, epoch)} + multiset{} == flying - multiset{Request(from, me, epoch)};
  }

  lemma HearStep(states: seq<System>, labels: seq<Label>, members: Members, flying: multiset<Packet>,
                 me: NodeId, from: NodeId, epoch: nat, time: int, count: nat, sent: bool)
    returns (states1: seq<System>, labels1: seq<Label>)
    requires (me == FIRST || me == SECOND) && (from == VOTER1 || from == VOTER2)
    requires Reaches(states, labels, members, flying) && me in members
    requires members[me] == Candidate(me, epoch, time, count, sent, epoch) && Ack(from, me, epoch) in flying
    ensures Reaches(states1, labels1, members[me := Candidate(me, epoch, time, count + 1, sent, epoch)],
                    flying - multiset{Ack(from, me, epoch)})
    ensures states < states1 && labels1 == labels + [Deliver(Ack(from, me, epoch), time)]
  {
    hide Reaches, ProcessPacket, WellFormed, AgreedElectorate, PacketWellFormed;
    Hears(me, from, epoch, time, count, sent, time);
    var l := Deliver(Ack(from, me, epoch), time);
    MemberAgrees(members[me], l);
    states1, labels1 := Extend(states, labels, members, flying, l,
                               Candidate(me, epoch, time, count + 1, sent, epoch), multiset{});
    assert flying - multiset{Ack(from, me, epoch)} + multiset{} == flying - multiset{Ack(from, me, epoch)};
  }

  lemma RunEnds(states: seq<System>, labels: seq<Label>, members: Members, flying: multiset<Packet>)
    requires Reaches(states, labels, members, flying)
    ensures |states| == |labels| + 1 && states[|labels|].servers == members
  {
  }

  lemma WinStep(states: seq<System>, labels: seq<Label>, members: Members, flying: multiset<Packet>,
                me: NodeId, epoch: nat, time: int)
    returns (states1: seq<System>, labels1: seq<Label>, won: Server)
    requires me == FIRST || me == SECOND
    requires Reaches(states, labels, members, flying) && me in members
    requires members[me] == Candidate(me, epoch, time, 2, true, epoch)
    ensures Reaches(states1, labels1, members[me := won], flying)
    ensures states < states1 && labels1 == labels + [Failover(me, Call(time))]
    ensures WinsAt(states1, labels1, CFG, |labels|, me, epoch)
  {
    hide HandleSlaveFailover, WellFormed, AgreedElectorate, Reaches;
    Wins(me, epoch, time);
    var l := Failover(me, Call(time));
    MemberAgrees(members[me], l);
    won := HandleSlaveFailover(members[me], Call(time), CFG).0;
    RunEnds(states, labels, members, flying);
    states1, labels1 := Extend(states, labels, members, flying, l, won, multiset{});
    RunEnds(states1, labels1, members[me := won], flying - multiset{} + multiset{});
    assert flying - multiset{} + multiset{} == flying;
  }

  /** A freshly configured cluster: FIRST may start an election at 10000, SECOND at 15500. */
  function Fresh(): Members {
    map[FAILED := Member(FAILED, 0, 0, 0, 0, 0, false, 0),
        VOTER1 := Voter(VOTER1, 0, 0),
        VOTER2 := Voter(VOTER2, 0, 0),
        FIRST := Candidate(FIRST, 0, 10000, 0, false, 0),
        SECOND := Candidate(SECOND, 0, 15500, 0, false, 0)]
  }

  lemma FreshInPlace(a: System, n: NodeId, time: int)
    requires a == System(Fresh(), multiset{}) && Known(n) && a.servers[n] == Member(n, 0, 0, 0, time, 0, false, 0)
    ensures ServerInPlace(a, n) && Dominated(a.servers[n])
  {
    hide WellFormed, Table, Nowhere;
    MemberWellFormed(n, 0, 0, 0, time, 0, false, 0);
  }

  lemma Start()
    ensures Reaches([System(Fresh(), multiset{})], [], Fresh(), multiset{})
  {
    hide ServerInPlace, Dominated, Peers, Table, Nowhere;
    var a := System(Fresh(), multiset{});
    FreshInPlace(a, FAILED, 0);
    FreshInPlace(a, VOTER1, 0);
    FreshInPlace(a, VOTER2, 0);
    FreshInPlace(a, FIRST, 10000);
    FreshInPlace(a, SECOND, 15500);
  }

  /** FIRST asks for epoch 1; both voters grant it, but their acknowledgements are late. */
  lemma FirstElection() returns (states: seq<System>, labels: seq<Label>, members: Members)
    ensures Reaches(states, labels, members, multiset{Ack(VOTER1, FIRST, 1), Ack(VOTER2, FIRST, 1)})
    ensures members == Fresh()[FIRST := Candidate(FIRST, 1, 10000, 0, true, 1)]
                              [VOTER1 := Voter(VOTER1, 1, 10000)][VOTER2 := Voter(VOTER2, 1, 10000)]
                              [SECOND := Candidate(SECOND, 1, 15500, 0, false, 0)]
  {
    hide Reaches, Member, Table;
    Start();
    states, labels, members := [System(Fresh(), multiset{})], [], Fresh();
    var r1, r2, r3 := Request(FIRST, VOTER1, 1), Request(FIRST, VOTER2, 1), Request(FIRST, SECOND, 1);
    var a1, a2 := Ack(VOTER1, FIRST, 1), Ack(VOTER2, FIRST, 1);
    states, labels := RequestStep(states, labels, members, multiset{}, FIRST, SECOND, 0, 10000, 0, 0);
    members := members[FIRST := Candidate(FIRST, 1, 10000, 0, true, 1)];
    assert multiset{} + multiset{r1, r2, r3} == multiset{r1, r2, r3};
    states, labels := GrantStep(states, labels, members, multiset{r1, r2, r3}, VOTER1, FIRST, 0, 0, 10000);
    members := members[VOTER1 := Voter(VOTER1, 1, 10000)];
    assert multiset{r1, r2, r3} - multiset{r1} + multiset{a1} == multiset{r2, r3, a1};
    states, labels := GrantStep(states, labels, members, multiset{r2, r3, a1}, VOTER2, FIRST, 0, 0, 10000);
    members := members[VOTER2 := Voter(VOTER2, 1, 10000)];
    assert multiset{r2, r3, a1} - multiset{r2} + multiset{a2} == multiset{r3, a1, a2};
    states, labels := LearnStep(states, labels, members, multiset{r3, a1, a2}, SECOND, FIRST, 15500, 1, 10000);
    members := members[SECOND := Candidate(SECOND, 1, 15500, 0, false, 0)];
    assert multiset{r3, a1, a2} - multiset{r3} == multiset{a1, a2};
  }

  /** FIRST schedules another election, hears the two late votes, and starts it as epoch 2. */
  lemma LateVotes() returns (states: seq<System>, labels: seq<Label>, members: Members)
    ensures Reaches(states, labels, members, multiset{})
    ensures members == Fresh()[VOTER1 := Voter(VOTER1, 1, 10000)][VOTER2 := Voter(VOTER2, 1, 10000)]
                              [SECOND := Candidate(SECOND, 1, 15500, 0, false, 0)]
                              [FIRST := Candidate(FIRST, 2, 15500, 2, true, 2)]
  {
    hide Reaches, Member, Table;
    states, labels, members := FirstElection();
    var a1, a2 := Ack(VOTER1, FIRST, 1), Ack(VOTER2, FIRST, 1);
    states, labels := ScheduleStep(states, labels, members, multiset{a1, a2}, FIRST, 1, 10000, 0, 1, 15000);
    members := members[FIRST := Candidate(FIRST, 1, 15500, 0, false, 1)];
    states, labels := HearStep(states, labels, members, multiset{a1, a2}, FIRST, VOTER1, 1, 15500, 0, false);
    members := members[FIRST := Candidate(FIRST, 1, 15500, 1, false, 1)];
    assert multiset{a1, a2} - multiset{a1} == multiset{a2};
    states, labels := HearStep(states, labels, members, multiset{a2}, FIRST, VOTER2, 1, 15500, 1, false);
    members := members[FIRST := Candidate(FIRST, 1, 15500, 2, false, 1)];
    states, labels := RequestStep(states, labels, members, multiset{a2} - multiset{a2}, FIRST, SECOND, 1, 15500, 2, 1);
    members := members[FIRST := Candidate(FIRST, 2, 15500, 2, true, 2)];
    FewerPackets(states, labels, members, multiset{a2} - multiset{a2}
                 + multiset{Request(FIRST, VOTER1, 2), Request(FIRST, VOTER2, 2), Request(FIRST, SECOND, 2)},
                 multiset{});
  }

  lemma FewerPackets(states: seq<System>, labels: seq<Label>, members: Members, flying: multiset<Packet>,
                     fewer: multiset<Packet>)
    requires Reaches(states, labels, members, flying) && fewer <= flying
    ensures Reaches(states, labels, members, fewer)
  {
  }

  /** SECOND, which has heard of epoch 1 only, asks for epoch 2 and gets both votes. */
  lemma SecondElection() returns (states: seq<System>, labels: seq<Label>, members: Members)
    ensures Reaches(states, labels, members, multiset{}) && FIRST in members && SECOND in members
    ensures members[FIRST] == Candidate(FIRST, 2, 15500, 2, true, 2)
    ensures members[SECOND] == Candidate(SECOND, 2, 15500, 2, true, 2)
  {
    hide Reaches, Member, Table;
    states, labels, members := LateVotes();
    var r1, r2, r3 := Request(SECOND, VOTER1, 2), Request(SECOND, VOTER2, 2), Request(SECOND, FIRST, 2);
    var a1, a2 := Ack(VOTER1, SECOND, 2), Ack(VOTER2, SECOND, 2);
    states, labels := RequestStep(states, labels, members, multiset{}, SECOND, FIRST, 1, 15500, 0, 0);
    members := members[SECOND := Candidate(SECOND, 2, 15500, 0, true, 2)];
    assert multiset{} + multiset{r1, r2, r3} == multiset{r1, r2, r3};
    states, labels := GrantStep(states, labels, members, multiset{r1, r2, r3}, VOTER1, SECOND, 1, 10000, 15500);
    members := members[VOTER1 := Voter(VOTER1, 2, 15500)];
    assert multiset{r1, r2, r3} - multiset{r1} + multiset{a1} == multiset{r2, r3, a1};
    states, labels := GrantStep(states, labels, members, multiset{r2, r3, a1}, VOTER2, SECOND, 1, 10000, 15500);
    members := members[VOTER2 := Voter(VOTER2, 2, 15500)];
    assert multiset{r2, r3, a1} - multiset{r2} + multiset{a2} == multiset{r3, a1, a2};
    states, labels := HearStep(states, labels, members, multiset{r3, a1, a2}, SECOND, VOTER1, 2, 15500, 0, true);
    members := members[SECOND := Candidate(SECOND, 2, 15500, 1, true, 2)];
    assert multiset{r3, a1, a2} - multiset{a1} == multiset{r3, a2};
    states, labels := HearStep(states, labels, members, multiset{r3, a2}, SECOND, VOTER2, 2, 15500, 1, true);
    members := members[SECOND := Candidate(SECOND, 2, 15500, 2, true, 2)];
    FewerPackets(states, labels, members, multiset{r3, a2} - multiset{a2}, multiset{});
  }

  /**
   Without the condition on late acknowledgements election safety is false: in this run
   one electorate serves every epoch and every winner knows its size, and two different
   replicas reach the quorum branch with election epoch 2.
   */
  lemma BothWinEpochTwo() returns (states: seq<System>, labels: seq<Label>, i: nat, j: nat)
    ensures IsRun(states, labels, CFG) && Dominance(states[0]) && NoElectionYet(states[0])
    ensures forall k :: 0 <= k < |labels| ==> AgreedAt(states[k], labels[k])
    ensures WinsAt(states, labels, CFG, i, SECOND, 2) && WinsAt(states, labels, CFG, j, FIRST, 2)
  {
    var members, won;
    states, labels, members := SecondElection();
    i := |labels|;
    states, labels, won := WinStep(states, labels, members, multiset{}, SECOND, 2, 15500);
    j := |labels|;
    states, labels, won := WinStep(states, labels, members[SECOND := won], multiset{}, FIRST, 2, 15500);
    hide WinsAt;
  }
}
