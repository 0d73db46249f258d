/**
 Short runs of the server in which the service of blocked clients falls short of what its
 comments promise: clients that trade places, a client that is answered before one that
 blocked earlier, and a client that is forgotten.
 */
module BlockedCases {
  import opened Prelude
  import opened BlockedIndex
  import opened BlockedService
  import opened BlockedSpec
  import opened BlockedOrder
  import opened Blocked

  const KEY: Key := "k"
  const SOURCE: Key := "s"

  // ----- choosing from short lists

  lemma IsOnly(e: Entry, clients: Clients, t: BlockType, u: BlockType)
    requires Is(e, clients, t) && t != u
    ensures !Is(e, clients, u)
  {
  }

  function Chosen(e: Entry, clients: Clients, t: BlockType, yes: bool): seq<Entry> {
    if Is(e, clients, t) == yes then [e] else []
  }

  lemma SelectOne(a: Entry, clients: Clients, t: BlockType, yes: bool)
    ensures Select([a], clients, t, yes) == Chosen(a, clients, t, yes)
  {
    SelectNothing(clients, t, yes);
    assert [] + [a] == [a];
    SelectSnoc([], a, clients, t, yes);
  }

  lemma SelectTwo(a: Entry, b: Entry, clients: Clients, t: BlockType, yes: bool)
    ensures Select([a, b], clients, t, yes) == Chosen(a, clients, t, yes) + Chosen(b, clients, t, yes)
  {
    hide Is, Select;
    assert [a, b] == [a] + [b];
    SelectOne(a, clients, t, yes);
    SelectSnoc([a], b, clients, t, yes);
  }

  /** A client for a sorted set with one member stands between two clients for a list: they trade places. */
  lemma OneBetween(list: seq<Entry>, clients: Clients)
    requires |list| == 3 && Is(list[0], clients, OnList) && Is(list[1], clients, OnZset) && Is(list[2], clients, OnList)
    ensures ZsetStop(list, clients, 1, 0) == 2
    ensures AfterVisiting(list, clients, OnZset, 2) == [list[2], list[0]]
    ensures Served(list, clients, OnZset, 2) == [list[1]]
  {
    hide Select, Is;
    IsOnly(list[0], clients, OnList, OnZset);
    StartVisiting(list, clients, OnZset);
    ServedStep(list, clients, OnZset, 0);
    ServedStep(list, clients, OnZset, 1);
    assert ZsetStop(list, clients, 1, 1) == ZsetStop(list, clients, 1, 2) == 2;
    assert list[..2] == [list[0], list[1]];
    SelectTwo(list[0], list[1], clients, OnZset, false);
  }

  /** Two clients for a list with one element stand between two for a sorted set: these trade places. */
  lemma TwoBetween(list: seq<Entry>, clients: Clients, db: Db)
    requires |list| == 4 && Is(list[0], clients, OnZset) && Is(list[1], clients, OnList) && Is(list[2], clients, OnList)
    requires Is(list[3], clients, OnZset) && Length(db, KEY) == 1 && clients[list[1].client].target == None
    ensures ListStop(list, clients, db, KEY, 0) == 2
    ensures AfterVisiting(list, clients, OnList, 2) == [list[2], list[3], list[0]]
    ensures Served(list, clients, OnList, 2) == [list[1]]
  {
    hide Select;
    StartVisiting(list, clients, OnList);
    ServedStep(list, clients, OnList, 0);
    ServedStep(list, clients, OnList, 1);
    UsesOne(db, list[1], clients);
    NothingUsed(db, KEY, clients);
    assert FindsNothing(list, clients, db, KEY, 2);
    assert ListStop(list, clients, db, KEY, 1) == ListStop(list, clients, db, KEY, 2) == 2;
    assert list[..2] == [list[0], list[1]];
    SelectTwo(list[0], list[1], clients, OnList, false);
  }

  lemma UsesOne(db: Db, e: Entry, clients: Clients)
    requires e.client in clients && clients[e.client].target == None
    ensures Used(db, KEY, [e], clients) == 1
  {
    assert [e][..0] == [];
  }

  // ----- clients in a queue

  /** The list of KEY once one more client has blocked for it. */
  lemma OneMoreWaits(w0: Waiting, w1: Waiting, ks: map<Key, nat>, c: ClientId, k: Key)
    requires Appended(w0, w1, ks, c) && (forall q :: q in ks <==> q in [k])
    ensures k in ks && ListOf(w1, k) == ListOf(w0, k) + [Entry(ks[k], c)]
    ensures forall q :: q != k ==> ListOf(w1, q) == ListOf(w0, q)
  {
    assert k in [k];
  }

  /** The clients 0, 1, ... of the list, in this order, with the types they block for; nobody waits elsewhere. */
  ghost predicate InQueue(waiting: Waiting, clients: Clients, types: seq<BlockType>) {
    var list := ListOf(waiting, KEY);
    && |list| == |types|
    && (forall i: nat :: i < |list| ==> list[i].client == i && Is(list[i], clients, types[i]))
    && (forall i: nat :: i < |types| && i in clients ==> clients[i].target == None && clients[i].from == Head)
    && (forall k :: k != KEY ==> ListOf(waiting, k) == [])
  }

  lemma QueueGrows(w0: Waiting, c0: Clients, w1: Waiting, c1: Clients, types: seq<BlockType>, t: BlockType)
    requires InQueue(w0, c0, types) && |types| in c0 && |types| in c1 && c1 == c0[|types| := c1[|types|]]
    requires Appended(w0, w1, c1[|types|].keys, |types|) && (forall q :: q in c1[|types|].keys <==> q in [KEY])
    requires c1[|types|].btype == t && c1[|types|].target == None && c1[|types|].from == Head
    ensures InQueue(w1, c1, types + [t])
  {
    OneMoreWaits(w0, w1, c1[|types|].keys, |types|, KEY);
    var list0, list1 := ListOf(w0, KEY), ListOf(w1, KEY);
    forall i: nat | i < |list1|
      ensures list1[i].client == i && Is(list1[i], c1, (types + [t])[i])
    {
      if i < |list0| {
        assert list1[i] == list0[i];
      }
    }
  }

  /** What a server without data that nobody has called upon looks like, whoever is blocked. */
  ghost predicate Quiet(s: Server)
    reads s
  {
    && s.Coherent() && ReadyRight(s.readyKeys, s.readyDict) && s.readyKeys == [] && s.db == map[] && s.replies == []
    && NobodyMissed(s.db, s.waiting, s.clients, s.readyDict, {})
  }

  lemma NothingHeld(waiting: Waiting, clients: Clients, ready: set<Key>)
    ensures NobodyMissed(map[], waiting, clients, ready, {})
  {
  }

  function Below(n: nat): (r: set<ClientId>)
    ensures forall c: nat :: c in r <==> c < n
  {
    if n == 0 then {} else Below(n - 1) + {n - 1}
  }

  /** A server with clients that block on KEY, for the given types in this order, and one more client. */
  method Queue(types: seq<BlockType>) returns (s: Server)
    requires forall i :: 0 <= i < |types| ==> types[i] != NotBlocked
    ensures fresh(s) && Quiet(s) && InQueue(s.waiting, s.clients, types)
    ensures |types| in s.clients && s.clients[|types|] == NewClient()
  {
    hide Appended, NobodyMissed, ReadyRight, Agree, NodesBelow, CountersRight, TypesRight, QueueRight, InQueue;
    s := new Server(Below(|types| + 1), map[]);
    EmptyQueue(s.clients);
    for n := 0 to |types|
      invariant fresh(s) && Quiet(s) && InQueue(s.waiting, s.clients, types[..n])
      invariant forall i :: n <= i <= |types| ==> i in s.clients && s.clients[i] == NewClient()
    {
      ghost var w, c := s.waiting, s.clients;
      s.BlockForKeys(n, types[n], [KEY], None, Head, Head);
      NothingHeld(s.waiting, s.clients, s.readyDict);
      QueueGrows(w, c, s.waiting, s.clients, types[..n], types[n]);
      assert types[..n + 1] == types[..n] + [types[n]];
    }
    assert types[..|types|] == types;
  }

  lemma EmptyQueue(clients: Clients)
    ensures InQueue(map[], clients, [])
  {
  }

  // ----- two clients trade places

  /** Client a was ahead of client b, and now b is ahead of a. */
  ghost predicate TradedPlaces(s0: State, s: State, t: BlockType, a: ClientId, b: ClientId) {
    exists x: Entry, y: Entry ::
      && x.client == a && y.client == b
      && Select(ListOf(s0.waiting, KEY), s0.clients, t, true) == [x, y]
      && Select(ListOf(s.waiting, KEY), s.clients, t, true) == [y, x]
  }

  /**
   Clients 0 and 2 block on a list at a key, client 1 between them on a sorted set there.
   A sorted set with one member appears, and client 1 is served. From then on client 2 is
   ahead of client 0.
   */
  method Overtaken() returns (s: Server, ghost s0: State)
    ensures s.Coherent() && TradedPlaces(s0, s.View(), OnList, 0, 2)
    ensures s.replies == [Member(1, KEY)]
    ensures 1 in s0.clients && s.clients == s0.clients[1 := Freed(s0.clients[1])]
  {
    hide NobodyMissed, ReadyRight, Agree, NodesBelow, CountersRight, TypesRight, QueueRight, InQueue, ZsetServed,
         TradedPlaces;
    s := Queue([OnList, OnZset, OnList]);
    s.GenericSetKey(KEY, ZsetObj(1));
    s0 := s.View();
    s.ServeClientsBlockedOnSortedSetKey(KEY, {});
    TheyTrade(s0, s.View());
  }

  lemma TheyTrade(s0: State, s: State)
    requires InQueue(s0.waiting, s0.clients, [OnList, OnZset, OnList]) && ZsetServed(KEY, s0, s)
    requires Card(s0.db, KEY) == 1 && s0.replies == []
    ensures TradedPlaces(s0, s, OnList, 0, 2)
    ensures s.replies == [Member(1, KEY)]
    ensures 1 in s0.clients && s.clients == s0.clients[1 := Freed(s0.clients[1])]
  {
    hide Select, AfterVisiting, OthersLeft, ZsetStop, Taken;
    var list := ListOf(s0.waiting, KEY);
    OneBetween(list, s0.clients);
    assert list[1] in [list[1]];
    assert s.clients == s0.clients[1 := Freed(s0.clients[1])];
    assert Members([list[1]], KEY) == [Member(1, KEY)];
    assert list == [list[0], list[1]] + [list[2]];
    SelectTwo(list[0], list[1], s0.clients, OnList, true);
    SelectSnoc([list[0], list[1]], list[2], s0.clients, OnList, true);
    SelectTwo(list[2], list[0], s.clients, OnList, true);
    assert Select(ListOf(s.waiting, KEY), s.clients, OnList, true) == [list[2], list[0]];
  }

  /**
   The same for a list: clients 0 and 3 block on a sorted set at a key, clients 1 and 2
   between them on a list there. A list with one element appears, client 1 takes it, and
   client 2 finds nothing. From then on client 3 is ahead of client 0.
   */
  method OvertakenAtList() returns (s: Server, ghost s0: State)
    ensures s.Coherent() && TradedPlaces(s0, s.View(), OnZset, 0, 3)
    ensures s.replies == [Popped(1, KEY, "x")]
    ensures 1 in s0.clients && s.clients == s0.clients[1 := Freed(s0.clients[1])]
  {
    hide NobodyMissed, ReadyRight, Agree, NodesBelow, CountersRight, TypesRight, QueueRight, InQueue, ListServed,
         TradedPlaces, NoEmptyLists, OnlyNewReady, Waits;
    s := Queue([OnZset, OnList, OnList, OnZset]);
    s.GenericSetKey(KEY, ListObj(["x"]));
    s0 := s.View();
    assert [] + s.readyKeys == s.readyKeys;
    NobodyMissedWhile(s.db, s.waiting, s.clients, s.readyDict);
    s.ServeClientsBlockedOnListKey(KEY, [], {});
    TheyTradeAtList(s0, s.View());
  }

  lemma NobodyMissedWhile(db: Db, waiting: Waiting, clients: Clients, ready: set<Key>)
    requires forall k :: k in db ==> k == KEY
    ensures NobodyMissed(db, waiting, clients, ready, {} + {KEY}) && NoEmptyLists(db, {KEY})
  {
  }

  lemma TheyTradeAtList(s0: State, s: State)
    requires InQueue(s0.waiting, s0.clients, [OnZset, OnList, OnList, OnZset]) && ListServed(KEY, s0, s)
    requires s0.db == map[KEY := ListObj(["x"])] && s0.replies == []
    ensures TradedPlaces(s0, s, OnZset, 0, 3)
    ensures s.replies == [Popped(1, KEY, "x")]
    ensures 1 in s0.clients && s.clients == s0.clients[1 := Freed(s0.clients[1])]
  {
    hide Select, AfterVisiting, OthersLeft, ListStop;
    var list := ListOf(s0.waiting, KEY);
    TwoBetween(list, s0.clients, s0.db);
    assert list[1] in [list[1]];
    assert s.clients == s0.clients[1 := Freed(s0.clients[1])];
    ServedOne(s0.db, s0.replies, KEY, list[1], s0.clients);
    assert list == ([list[0], list[1]] + [list[2]]) + [list[3]];
    SelectTwo(list[0], list[1], s0.clients, OnZset, true);
    SelectSnoc([list[0], list[1]], list[2], s0.clients, OnZset, true);
    SelectSnoc([list[0], list[1]] + [list[2]], list[3], s0.clients, OnZset, true);
    assert [list[2], list[3], list[0]] == [list[2], list[3]] + [list[0]];
    SelectTwo(list[2], list[3], s.clients, OnZset, true);
    SelectSnoc([list[2], list[3]], list[0], s.clients, OnZset, true);
    assert Select(ListOf(s.waiting, KEY), s.clients, OnZset, true) == [list[3], list[0]];
  }

  lemma ServedOne(db: Db, replies: seq<Reply>, key: Key, e: Entry, clients: Clients)
    requires e.client in clients && HasElements(db, key)
    ensures ServedAll(db, replies, key, [e], clients)
         == (ServedDb(db, key, clients[e.client]), replies + [ServedReply(db, key, e.client, clients[e.client])])
  {
    hide ServedDb, ServedReply;
    assert [e][..0] == [];
  }

  // ----- one call answers the later of two clients

  /** e lists the nodes of the clients 0 to 3. */
  predicate FourNodes(e: seq<Entry>) {
    |e| == 4 && forall i: nat :: i < 4 ==> e[i].client == i
  }

  /** Who is blocked on what, and who waits for KEY and for SOURCE. */
  ghost predicate Stand(s: State, types: seq<BlockType>, key: seq<Entry>, source: seq<Entry>)
    requires |types| == 4
  {
    && (forall i: nat :: i < 4 ==> i in s.clients && s.clients[i].btype == types[i])
    && (s.clients[2].btype == OnList ==> s.clients[2].target == None && s.clients[2].from == Head)
    && (s.clients[3].btype == OnList ==> s.clients[3].target == Some(KEY) && s.clients[3].from == Head)
    && ListOf(s.waiting, KEY) == key && ListOf(s.waiting, SOURCE) == source
  }

  ghost predicate First(s: State, e: seq<Entry>) {
    && FourNodes(e) && Stand(s, [OnList, OnZset, OnList, OnList], [e[0], e[1], e[2]], [e[3]])
    && s.db == map[KEY := ZsetObj(1), SOURCE := ListObj(["x"])] && s.replies == []
  }

  ghost predicate Second(s: State, e: seq<Entry>) {
    && FourNodes(e) && Stand(s, [OnList, NotBlocked, OnList, OnList], [e[2], e[0]], [e[3]])
    && s.db == map[SOURCE := ListObj(["x"])] && s.replies == [Member(1, KEY)]
  }

  ghost predicate Third(s: State, e: seq<Entry>) {
    && FourNodes(e) && Stand(s, [OnList, NotBlocked, OnList, NotBlocked], [e[2], e[0]], [])
    && s.db == map[KEY := ListObj(["x"])] && s.replies == [Member(1, KEY), Moved(3, SOURCE, "x")]
  }

  ghost predicate Last(s: State, e: seq<Entry>) {
    && FourNodes(e) && Stand(s, [OnList, NotBlocked, NotBlocked, NotBlocked], [e[0]], [])
    && s.db == map[] && s.replies == [Member(1, KEY), Moved(3, SOURCE, "x"), Popped(2, KEY, "x")]
  }

  /** The sorted set goes to client 1, and clients 0 and 2 trade places. */
  lemma ServesZset(s: State, s1: State, e: seq<Entry>, wakes: ClientId -> bool)
    requires First(s, e) && KeyServed(KEY, s, s1, wakes)
    ensures Second(s1, e)
  {
    hide Select, AfterVisiting, ZsetStop, Served;
    OneBetween([e[0], e[1], e[2]], s.clients);
    assert e[1] in [e[1]];
    assert Members([e[1]], KEY) == [Member(1, KEY)];
    assert LeftBehind(s.waiting, s1.waiting, s1.clients, SOURCE);
    SelectOne(e[3], s1.clients, NotBlocked, false);
    assert s1.db == s.db - {KEY};
  }

  /** A list with one element and one client in front that takes it. */
  lemma TakesIt(list: seq<Entry>, clients: Clients, db: Db, key: Key)
    requires list != [] && Is(list[0], clients, OnList) && Length(db, key) == 1
    requires Consumes(db, key, clients[list[0].client]) && (forall i :: 0 < i < |list| ==> Is(list[i], clients, OnList))
    ensures ListStop(list, clients, db, key, 0) == 1
    ensures Served(list, clients, OnList, 1) == [list[0]]
    ensures AfterVisiting(list, clients, OnList, 1) == list[1..]
  {
    hide Select, Length, Consumes;
    StartVisiting(list, clients, OnList);
    ServedStep(list, clients, OnList, 0);
    NothingUsed(db, key, clients);
    assert [list[0]][..0] == [];
    assert Used(db, key, [list[0]], clients) == 1;
    assert ListStop(list, clients, db, key, 1) == 1;
    assert list[..1] == [list[0]];
    SelectOne(list[0], clients, OnList, false);
  }

  /** Client 3 moves the element from SOURCE to KEY. */
  lemma ServesMove(s: State, s1: State, e: seq<Entry>, wakes: ClientId -> bool)
    requires Second(s, e) && KeyServed(SOURCE, s, s1, wakes)
    ensures Third(s1, e)
  {
    hide Select, AfterVisiting, ListStop, Served, ServedAll;
    TakesIt([e[3]], s.clients, s.db, SOURCE);
    ServedOne(s.db, s.replies, SOURCE, e[3], s.clients);
    assert e[3] in [e[3]];
    assert LeftBehind(s.waiting, s1.waiting, s1.clients, KEY);
    SelectTwo(e[2], e[0], s1.clients, NotBlocked, false);
  }

  /** Client 2 takes it there. */
  lemma ServesPop(s: State, s1: State, e: seq<Entry>, wakes: ClientId -> bool)
    requires Third(s, e) && KeyServed(KEY, s, s1, wakes)
    ensures Last(s1, e)
  {
    hide Select, AfterVisiting, ListStop, Served, ServedAll;
    TakesIt([e[2], e[0]], s.clients, s.db, KEY);
    ServedOne(s.db, s.replies, KEY, e[2], s.clients);
    assert e[2] in [e[2]];
    assert LeftBehind(s.waiting, s1.waiting, s1.clients, SOURCE);
    SelectNothing(s1.clients, NotBlocked, false);
  }

  /** From there on nothing but serving KEY changes anything. */
  lemma {:induction false} OnlyKeyIsLeft(s: State, keys: seq<Key>, s1: State, e: seq<Entry>, wakes: ClientId -> bool)
    requires Third(s, e) && ServedInTurn(s, keys, s1, wakes)
    ensures s1 == s || Last(s1, e)
    decreases |keys|
  {
    hide Stand, ListServed, ZsetServed, StreamServed;
    if keys != [] {
      var n := |keys| - 1;
      var s2 :| ServedInTurn(s, keys[..n], s2, wakes) && KeyServed(keys[n], s2, s1, wakes);
      OnlyKeyIsLeft(s, keys[..n], s2, e, wakes);
      if s2 == s && keys[n] == KEY {
        ServesPop(s, s1, e, wakes);
      }
    }
  }

  lemma CallEnds(s0: State, keys: seq<Key>, s: State, e: seq<Entry>, wakes: ClientId -> bool)
    requires First(s0, e) && [KEY, SOURCE] <= keys && ServedInTurn(s0, keys, s, wakes)
    requires !(HasElements(s.db, KEY) && Waits(s.waiting, s.clients, KEY, OnList))
    ensures Last(s, e)
  {
    hide First, Second, Third, Last, KeyServed, ServedInTurn, Waits;
    assert keys == [KEY, SOURCE] + keys[2..];
    var s2 := InTurnSplits(s0, [KEY, SOURCE], keys[2..], s, wakes);
    assert [KEY, SOURCE] == [KEY] + [SOURCE];
    var s1 := InTurnSplits(s0, [KEY], [SOURCE], s2, wakes);
    OneInTurn(s0, KEY, s1, wakes);
    OneInTurn(s1, SOURCE, s2, wakes);
    ServesZset(s0, s1, e, wakes);
    ServesMove(s1, s2, e, wakes);
    OnlyKeyIsLeft(s2, keys[2..], s, e, wakes);
    ThereIsMore(s2, e);
  }

  lemma ThereIsMore(s: State, e: seq<Entry>)
    requires Third(s, e)
    ensures HasElements(s.db, KEY) && Waits(s.waiting, s.clients, KEY, OnList)
  {
    assert e[2] in ListOf(s.waiting, KEY) && Is(e[2], s.clients, OnList);
  }

  lemma OneInTurn(s: State, key: Key, s1: State, wakes: ClientId -> bool)
    requires ServedInTurn(s, [key], s1, wakes)
    ensures KeyServed(key, s, s1, wakes)
  {
    hide KeyServed;
    assert [key][..0] == [];
  }

  lemma LaterComesFirst(s0: State, s: State, e: seq<Entry>)
    requires First(s0, e) && Last(s, e)
    ensures !InOrder(s0, s, KEY, OnList) && Straddled(ListOf(s0.waiting, KEY), s0.clients)
  {
    var list := ListOf(s0.waiting, KEY);
    assert Is(list[0], s0.clients, OnList) && Is(list[1], s0.clients, OnZset) && Is(list[2], s0.clients, OnList);
    assert Ahead(s0, KEY, OnList, 0, 2);
    assert Answers(s.replies[2], 2, KEY);
    assert !AheadFirst(0, 2, KEY, |s0.replies|, s);
  }

  /** The four clients are blocked, and a sorted set and a list have appeared. */
  method TwoKeysAppear() returns (s: Server, ghost e: seq<Entry>)
    ensures fresh(s) && s.Coherent() && ReadyRight(s.readyKeys, s.readyDict) && NoEmptyLists(s.db, {})
    ensures s.readyKeys == [KEY, SOURCE] && First(s.View(), e)
  {
    hide NobodyMissed, ReadyRight, Agree, NodesBelow, CountersRight, TypesRight, QueueRight, InQueue, Waits,
         NoEmptyLists, First, Appended, Stand;
    s := Queue([OnList, OnZset, OnList]);
    ghost var w, c := s.waiting, s.clients;
    s.BlockForKeys(3, OnList, [SOURCE], Some(KEY), Head, Head);
    e := ListOf(s.waiting, KEY) + ListOf(s.waiting, SOURCE);
    AllWait(w, c, s.View(), e);
    ghost var s0 := s.View();
    NothingReady(s.readyDict);
    NothingEmpty();
    s.GenericSetKey(KEY, ZsetObj(1));
    s.GenericSetKey(SOURCE, ListObj(["x"]));
    DataAppears(s0, s.View(), e);
  }

  /**
   Clients 0 and 2 block on a list at a key, client 1 between them on a sorted set there, and
   client 3 waits to move an element of another list to that key. A sorted set with one
   member appears at the key, and an element in the other list. One call then serves client
   1, moves the element, and gives it to client 2 while client 0 goes on waiting.
   */
  method AnsweredOutOfOrder() returns (s: Server, ghost s0: State)
    ensures s.Coherent() && !InOrder(s0, s.View(), KEY, OnList) && Straddled(ListOf(s0.waiting, KEY), s0.clients)
    ensures s.replies == [Member(1, KEY), Moved(3, SOURCE, "x"), Popped(2, KEY, "x")]
    ensures 0 in s.clients && s.clients[0].btype == OnList && Waits(s.waiting, s.clients, KEY, OnList)
  {
    hide ReadyRight, Agree, NodesBelow, CountersRight, TypesRight, QueueRight, InOrder, Straddled, Waits, NoEmptyLists,
         First, ServedInTurn, Accounted, Contents, AllGiven, Calm, Last;
    ghost var e;
    s, e := TwoKeysAppear();
    s0 := s.View();
    NotYetMissed(s0, e, s.readyDict);
    ghost var done := s.HandleClientsBlockedOnKeys(_ => false);
    CallEnds(s0, done, s.View(), e, _ => false);
    LaterComesFirst(s0, s.View(), e);
    FirstStillWaits(s.View(), e);
  }

  lemma NotYetMissed(s: State, e: seq<Entry>, ready: set<Key>)
    requires First(s, e)
    ensures !Missed(s, ready, KEY)
  {
  }

  lemma NothingEmpty()
    ensures NoEmptyLists(map[], {})
  {
  }

  lemma FirstStillWaits(s: State, e: seq<Entry>)
    requires Last(s, e)
    ensures s.replies == [Member(1, KEY), Moved(3, SOURCE, "x"), Popped(2, KEY, "x")]
    ensures 0 in s.clients && s.clients[0].btype == OnList && Waits(s.waiting, s.clients, KEY, OnList)
  {
    assert e[0] in ListOf(s.waiting, KEY) && Is(e[0], s.clients, OnList);
  }

  /** The four clients once the last of them has blocked. */
  lemma AllWait(w0: Waiting, c0: Clients, s: State, e: seq<Entry>)
    requires InQueue(w0, c0, [OnList, OnZset, OnList]) && 3 in s.clients && s.clients == c0[3 := s.clients[3]]
    requires Appended(w0, s.waiting, s.clients[3].keys, 3) && (forall q :: q in s.clients[3].keys <==> q in [SOURCE])
    requires s.clients[3].btype == OnList && s.clients[3].target == Some(KEY) && s.clients[3].from == Head
    requires e == ListOf(s.waiting, KEY) + ListOf(s.waiting, SOURCE)
    ensures FourNodes(e) && Stand(s, [OnList, OnZset, OnList, OnList], [e[0], e[1], e[2]], [e[3]])
    ensures Waits(s.waiting, s.clients, KEY, OnZset) && Waits(s.waiting, s.clients, SOURCE, OnList)
  {
    OneMoreWaits(w0, s.waiting, s.clients[3].keys, 3, SOURCE);
    var list := ListOf(w0, KEY);
    assert Is(list[0], c0, OnList) && Is(list[1], c0, OnZset) && Is(list[2], c0, OnList);
    assert list == [e[0], e[1], e[2]];
    assert list[1] in list && e[3] in [e[3]];
  }

  lemma DataAppears(s0: State, s: State, e: seq<Entry>)
    requires FourNodes(e) && Stand(s0, [OnList, OnZset, OnList, OnList], [e[0], e[1], e[2]], [e[3]])
    requires s.waiting == s0.waiting && s.clients == s0.clients
    requires s.db == map[][KEY := ZsetObj(1)][SOURCE := ListObj(["x"])] && s.replies == []
    ensures First(s, e)
  {
  }

  // ----- a client is forgotten

  lemma NothingIsRight()
    ensures ReadyRight([], {})
  {
  }

  lemma FirstWaits(waiting: Waiting, clients: Clients)
    requires InQueue(waiting, clients, [OnList])
    ensures 0 in clients && clients[0].btype == OnList && Waits(waiting, clients, KEY, OnList)
  {
    var list := ListOf(waiting, KEY);
    assert Is(list[0], clients, OnList) && list[0] in list;
  }

  /**
   Client 0 blocks on a list at a key that does not exist. The key is set to a string, and
   then SORT stores a list over it. No signal is sent, the ready keys are handled, and the
   client goes on waiting for a list that has an element.
   */
  method Forgotten() returns (s: Server)
    ensures s.Coherent() && s.readyKeys == [] && HasElements(s.db, KEY) && Waits(s.waiting, s.clients, KEY, OnList)
    ensures 0 in s.clients && s.clients[0].btype == OnList && s.replies == []
  {
    hide NobodyMissed, ReadyRight, Agree, NodesBelow, CountersRight, TypesRight, QueueRight, Accounted, InOrder,
         Contents, AllGiven, Waits, Missed, InQueue, ServedInTurn, Calm;
    s := Queue([OnList]);
    FirstWaits(s.waiting, s.clients);
    s.GenericSetKey(KEY, PlainObj);
    var _ := s.HandleClientsBlockedOnKeys(_ => false);
    NothingIsRight();
    s.GenericSetKey(KEY, ListObj(["x"]));
    var _ := s.HandleClientsBlockedOnKeys(_ => false);
  }
}
