/**
 What serving one ready key does to the clients, the lists they wait in, the database and
 the replies, for each kind of object: whom it serves is decided by the object and by the
 list of waiting clients alone.
 */
module BlockedSpec {
  import opened BlockedIndex
  import opened BlockedService

  // ----- where the visit of a sorted set stops

  /** From position n on: right behind the client that takes the last of m members, or at the end. */
  function ZsetStop(list: seq<Entry>, clients: Clients, m: nat, n: nat): (r: nat)
    requires n <= |list|
    ensures n <= r <= |list|
    decreases |list| - n
  {
    if n == |list| || |Served(list, clients, OnZset, n)| == m then n else ZsetStop(list, clients, m, n + 1)
  }

  lemma {:induction false} ServedGrows(list: seq<Entry>, clients: Clients, t: BlockType, i: nat, n: nat)
    requires i <= n <= |list|
    ensures Served(list, clients, t, i) <= Served(list, clients, t, n)
  {
    assert list[..n] == list[..i] + list[i..n];
    SelectAppend(list[..i], list[i..n], clients, t, true);
  }

  /** One more client adds at most one. */
  lemma ServedStep(list: seq<Entry>, clients: Clients, t: BlockType, n: nat)
    requires n < |list|
    ensures Served(list, clients, t, n + 1)
         == Served(list, clients, t, n) + if Is(list[n], clients, t) then [list[n]] else []
  {
    assert list[..n + 1] == list[..n] + [list[n]];
    SelectSnoc(list[..n], list[n], clients, t, true);
  }

  /** It is the least such position; nothing before it has used up the members. */
  lemma {:induction false} ZsetStopIsLeast(list: seq<Entry>, clients: Clients, m: nat, n: nat)
    requires n <= |list| && |Served(list, clients, OnZset, n)| <= m
    ensures var r := ZsetStop(list, clients, m, n);
            && |Served(list, clients, OnZset, r)| <= m
            && (r < |list| ==> |Served(list, clients, OnZset, r)| == m)
            && (forall j :: n <= j < r ==> |Served(list, clients, OnZset, j)| < m)
    decreases |list| - n
  {
    if n < |list| && |Served(list, clients, OnZset, n)| != m {
      ServedStep(list, clients, OnZset, n);
      ZsetStopIsLeast(list, clients, m, n + 1);
    }
  }

  /** The clients served are the first m of those that wait for a sorted set, or all of them. */
  lemma ZsetServesTheFirst(list: seq<Entry>, clients: Clients, m: nat)
    ensures var all, served := Select(list, clients, OnZset, true),
                               Served(list, clients, OnZset, ZsetStop(list, clients, m, 0));
            served == all[..if m <= |all| then m else |all|]
  {
    var n := ZsetStop(list, clients, m, 0);
    StartVisiting(list, clients, OnZset);
    ZsetStopIsLeast(list, clients, m, 0);
    ServedGrows(list, clients, OnZset, n, |list|);
    assert list[..|list|] == list;
  }

  /**
   Clients of another type keep their order unless the client that takes the last member
   stands between two of them.
   */
  lemma ZsetKeepsOrderIff(list: seq<Entry>, clients: Clients, m: nat, other: BlockType)
    requires other != OnZset && NodesDistinct(list)
    ensures Select(AfterVisiting(list, clients, OnZset, ZsetStop(list, clients, m, 0)), clients, other, true)
            == Select(list, clients, other, true)
        <==> !LastBetween(list, clients, m, other)
  {
    hide Select, AfterVisiting, NodesDistinct, Between, LastBetween;
    OtherTypeKeepsOrderIff(list, clients, OnZset, other, ZsetStop(list, clients, m, 0));
    StopIsLast(list, clients, m, other);
  }

  lemma StopIsLast(list: seq<Entry>, clients: Clients, m: nat, other: BlockType)
    ensures Between(list, clients, other, ZsetStop(list, clients, m, 0)) <==> LastBetween(list, clients, m, other)
  {
    hide Served, Is, ZsetStop;
    var n := ZsetStop(list, clients, m, 0);
    StartVisiting(list, clients, OnZset);
    ZsetStopIsLeast(list, clients, m, 0);
    forall i | 0 <= i < |list|
      ensures |Served(list, clients, OnZset, i)| < m <==> i < n
    {
      if n <= i {
        ServedGrows(list, clients, OnZset, n, i);
      }
    }
  }

  /** Two clients of the type, the first with fewer than m sorted-set clients ahead of it, the second with m. */
  ghost predicate LastBetween(list: seq<Entry>, clients: Clients, m: nat, other: BlockType) {
    exists i, j :: 0 <= i < j < |list| && Is(list[i], clients, other) && Is(list[j], clients, other)
      && |Served(list, clients, OnZset, i)| < m <= |Served(list, clients, OnZset, j)|
  }

  // ----- where the visit of a list stops

  /** Serving the client uses up an element of the list at key: not if it moves it back or cannot move it. */
  predicate Consumes(db: Db, key: Key, client: Client) {
    client.target.None?
    || (client.target.value != key && (client.target.value !in db || db[client.target.value].ListObj?))
  }

  function Used(db: Db, key: Key, entries: seq<Entry>, clients: Clients): nat {
    if entries == [] then 0
    else
      var last := entries[|entries| - 1];
      Used(db, key, entries[..|entries| - 1], clients)
      + if last.client in clients && Consumes(db, key, clients[last.client]) then 1 else 0
  }

  function Length(db: Db, key: Key): nat {
    if key in db && db[key].ListObj? then |db[key].elems| else 0
  }

  /** The client at n is the first, from n on, that finds nothing left. */
  predicate FindsNothing(list: seq<Entry>, clients: Clients, db: Db, key: Key, n: nat)
    requires n < |list|
  {
    Is(list[n], clients, OnList) && Used(db, key, Served(list, clients, OnList, n), clients) == Length(db, key)
  }

  /** From position n on: the first client blocked on a list that finds nothing left, or the end. */
  function ListStop(list: seq<Entry>, clients: Clients, db: Db, key: Key, n: nat): (r: nat)
    requires n <= |list|
    ensures n <= r <= |list|
    decreases |list| - n
  {
    if n == |list| || FindsNothing(list, clients, db, key, n) then n else ListStop(list, clients, db, key, n + 1)
  }

  lemma {:induction false} ListStopIsLeast(list: seq<Entry>, clients: Clients, db: Db, key: Key, n: nat)
    requires n <= |list|
    ensures var r := ListStop(list, clients, db, key, n);
            && (r < |list| ==> FindsNothing(list, clients, db, key, r))
            && forall j :: n <= j < r ==> !FindsNothing(list, clients, db, key, j)
    decreases |list| - n
  {
    if n < |list| && !FindsNothing(list, clients, db, key, n) {
      ListStopIsLeast(list, clients, db, key, n + 1);
    }
  }

  /** Ahead of position i a client blocked on a list has come to an emptied list. */
  predicate StarvedAhead(list: seq<Entry>, clients: Clients, db: Db, key: Key, i: nat)
    requires i <= |list|
  {
    exists x :: 0 <= x < i && Is(list[x], clients, OnList)
      && Used(db, key, Served(list, clients, OnList, x), clients) >= Length(db, key)
  }

  /** Two clients of the type, the list used up for a client ahead of the second but for none ahead of the first. */
  ghost predicate EmptyBetween(list: seq<Entry>, clients: Clients, db: Db, key: Key, other: BlockType) {
    exists i, j :: 0 <= i < j < |list| && Is(list[i], clients, other) && Is(list[j], clients, other)
      && !StarvedAhead(list, clients, db, key, i) && StarvedAhead(list, clients, db, key, j)
  }

  lemma NothingUsed(db: Db, key: Key, clients: Clients)
    ensures Used(db, key, [], clients) == 0
  {
  }

  lemma UsedSnoc(db: Db, key: Key, entries: seq<Entry>, clients: Clients, e: Entry)
    ensures Used(db, key, entries + [e], clients) <= Used(db, key, entries, clients) + 1
  {
    assert (entries + [e])[..|entries + [e]| - 1] == entries;
  }

  /** Up to where the visit stops no more is used than there is. */
  lemma {:induction false} UsedUpTo(list: seq<Entry>, clients: Clients, db: Db, key: Key, x: nat)
    requires x <= |list| && !StarvedAhead(list, clients, db, key, x)
    ensures Used(db, key, Served(list, clients, OnList, x), clients) <= Length(db, key)
  {
    hide Is, Length, Consumes, Served, Used;
    StartVisiting(list, clients, OnList);
    NothingUsed(db, key, clients);
    if x > 0 {
      assert !StarvedAhead(list, clients, db, key, x - 1);
      UsedUpTo(list, clients, db, key, x - 1);
      ServedStep(list, clients, OnList, x - 1);
      var before := Served(list, clients, OnList, x - 1);
      UsedSnoc(db, key, before, clients, list[x - 1]);
      assert before + [] == before;
    }
  }

  /** Where the visit stops, in terms of what the clients ahead use up. */
  lemma StopIsStarved(list: seq<Entry>, clients: Clients, db: Db, key: Key, i: nat)
    requires i < |list|
    ensures var n := ListStop(list, clients, db, key, 0);
            && (i <= n <==> !StarvedAhead(list, clients, db, key, i))
            && (n < i <==> StarvedAhead(list, clients, db, key, i))
  {
    hide Is, Length, Served, Used, ListStop;
    var n := ListStop(list, clients, db, key, 0);
    ListStopIsLeast(list, clients, db, key, 0);
    if i <= n && StarvedAhead(list, clients, db, key, i) {
      FirstStarved(list, clients, db, key, i);
    }
  }

  /** The first client ahead that comes to an emptied list finds exactly nothing. */
  lemma {:induction false} FirstStarved(list: seq<Entry>, clients: Clients, db: Db, key: Key, i: nat)
    requires i <= |list| && StarvedAhead(list, clients, db, key, i)
    ensures exists x :: 0 <= x < i && FindsNothing(list, clients, db, key, x)
  {
    hide Is, Length, Served, Used;
    if StarvedAhead(list, clients, db, key, i - 1) {
      FirstStarved(list, clients, db, key, i - 1);
    } else {
      UsedUpTo(list, clients, db, key, i - 1);
      assert FindsNothing(list, clients, db, key, i - 1);
    }
  }

  /** Clients of another type keep their order unless the first that finds nothing stands between two of them. */
  lemma ListKeepsOrderIff(list: seq<Entry>, clients: Clients, db: Db, key: Key, other: BlockType)
    requires other != OnList && NodesDistinct(list)
    ensures Select(AfterVisiting(list, clients, OnList, ListStop(list, clients, db, key, 0)), clients, other, true)
            == Select(list, clients, other, true)
        <==> !EmptyBetween(list, clients, db, key, other)
  {
    hide Select, AfterVisiting, NodesDistinct, ListStop, StarvedAhead;
    var n := ListStop(list, clients, db, key, 0);
    OtherTypeKeepsOrderIff(list, clients, OnList, other, n);
    ListStopIsLeast(list, clients, db, key, 0);
    forall i | 0 <= i < |list|
      ensures i <= n <==> !StarvedAhead(list, clients, db, key, i)
    {
      StopIsStarved(list, clients, db, key, i);
    }
  }

  // ----- serving several clients in turn

  /** The database and the replies once the clients of these entries were served, one after the other. */
  function ServedAll(db: Db, replies: seq<Reply>, key: Key, entries: seq<Entry>, clients: Clients): (Db, seq<Reply>) {
    if entries == [] then (db, replies)
    else
      var (d, rs) := ServedAll(db, replies, key, entries[..|entries| - 1], clients);
      var c := entries[|entries| - 1].client;
      if c in clients && HasElements(d, key)
      then (ServedDb(d, key, clients[c]), rs + [ServedReply(d, key, c, clients[c])]) else (d, rs)
  }

  lemma ServedAllSnoc(db: Db, replies: seq<Reply>, key: Key, entries: seq<Entry>, clients: Clients, e: Entry)
    requires e.client in clients && HasElements(ServedAll(db, replies, key, entries, clients).0, key)
    ensures var (d, rs) := ServedAll(db, replies, key, entries, clients);
            ServedAll(db, replies, key, entries + [e], clients)
            == (ServedDb(d, key, clients[e.client]), rs + [ServedReply(d, key, e.client, clients[e.client])])
  {
    assert (entries + [e])[..|entries + [e]| - 1] == entries;
  }

  /** No element is lost or given twice. */
  lemma {:induction false} ServedAllConserves(db: Db, replies: seq<Reply>, key: Key, entries: seq<Entry>,
                                              clients: Clients)
    ensures var (d, rs) := ServedAll(db, replies, key, entries, clients);
            Contents(d) + AllGiven(rs) == Contents(db) + AllGiven(replies)
  {
    hide Contents, AllGiven, ServedDb, ServedReply, Given;
    if entries != [] {
      var init, c := entries[..|entries| - 1], entries[|entries| - 1].client;
      ServedAllConserves(db, replies, key, init, clients);
      var (d, rs) := ServedAll(db, replies, key, init, clients);
      if c in clients && HasElements(d, key) {
        ServingConserves(d, key, c, clients[c]);
        OneMoreGiven(rs, ServedReply(d, key, c, clients[c]));
      }
    }
  }

  /** Serving lists creates and changes lists only. */
  ghost predicate SameOthers(db: Db, d: Db) {
    && (forall k :: k in db && !db[k].ListObj? ==> k in d && d[k] == db[k])
    && (forall k :: k in d && !d[k].ListObj? ==> k in db && d[k] == db[k])
  }

  lemma ServedDbCounts(db: Db, key: Key, client: Client)
    requires HasElements(db, key)
    ensures var d := ServedDb(db, key, client);
            && SameOthers(db, d) && key in d && d[key].ListObj?
            && Length(d, key) == Length(db, key) - (if Consumes(db, key, client) then 1 else 0)
            && (forall k :: k != key && HasElements(db, k) ==> HasElements(d, k))
  {
  }

  lemma SameOthersConsume(db: Db, d: Db, key: Key, client: Client)
    requires SameOthers(db, d)
    ensures Consumes(d, key, client) == Consumes(db, key, client)
  {
  }

  lemma SameOthersChain(a: Db, b: Db, c: Db)
    requires SameOthers(a, b) && SameOthers(b, c)
    ensures SameOthers(a, c)
  {
  }

  /** What is left of the list once the clients of these entries were served. */
  lemma {:induction false} ServedAllCounts(db: Db, replies: seq<Reply>, key: Key, entries: seq<Entry>,
                                           clients: Clients)
    requires key in db && db[key].ListObj?
    requires |ServedAll(db, replies, key, entries, clients).1| == |replies| + |entries|
    ensures var (d, rs) := ServedAll(db, replies, key, entries, clients);
            && SameOthers(db, d) && key in d && d[key].ListObj?
            && Length(d, key) + Used(db, key, entries, clients) == Length(db, key)
            && (forall k :: k != key && HasElements(db, k) ==> HasElements(d, k))
  {
    hide ServedDb, ServedReply, SameOthers, Consumes, Length;
    if entries == [] {
      assert SameOthers(db, db) by { NothingChanged(db); }
    } else {
      var init, c := entries[..|entries| - 1], entries[|entries| - 1].client;
      ServedAllBound(db, replies, key, init, clients);
      ServedAllCounts(db, replies, key, init, clients);
      var (d, rs) := ServedAll(db, replies, key, init, clients);
      ServedDbCounts(d, key, clients[c]);
      SameOthersConsume(db, d, key, clients[c]);
      SameOthersChain(db, d, ServedDb(d, key, clients[c]));
    }
  }

  lemma NothingChanged(db: Db)
    ensures SameOthers(db, db)
  {
  }

  lemma {:induction false} ServedAllBound(db: Db, replies: seq<Reply>, key: Key, entries: seq<Entry>, clients: Clients)
    ensures |ServedAll(db, replies, key, entries, clients).1| <= |replies| + |entries|
  {
    if entries != [] {
      ServedAllBound(db, replies, key, entries[..|entries| - 1], clients);
    }
  }

  // ----- the effect of serving a key

  /** The list of k lost the clients that are no longer blocked, and is otherwise as it was. */
  predicate LeftBehind(w0: Waiting, w: Waiting, clients: Clients, k: Key) {
    ListOf(w, k) == StillBlocked(ListOf(w0, k), clients)
  }

  ghost predicate OthersLeft(w0: Waiting, w: Waiting, clients: Clients, key: Key) {
    forall k :: k != key ==> LeftBehind(w0, w, clients, k)
  }

  function StillBlocked(list: seq<Entry>, clients: Clients): seq<Entry> {
    Select(list, clients, NotBlocked, false)
  }

  /** serveClientsBlockedOnListKey: those it can serve are served in turn; an emptied list is deleted. */
  ghost predicate ListServed(key: Key, s0: State, s: State) {
    var list := ListOf(s0.waiting, key);
    var n := ListStop(list, s0.clients, s0.db, key, 0);
    var served := Served(list, s0.clients, OnList, n);
    var (d, rs) := ServedAll(s0.db, s0.replies, key, served, s0.clients);
    && ListOf(s.waiting, key) == AfterVisiting(list, s0.clients, OnList, n)
    && OthersLeft(s0.waiting, s.waiting, s.clients, key)
    && Released(served, s0.clients, s.clients)
    && RepliesFollow(served, key, s0.replies, rs) && s.replies == rs
    && s.db == (if Length(d, key) == 0 then d - {key} else d)
  }

  function Members(served: seq<Entry>, key: Key): seq<Reply> {
    seq(|served|, i requires 0 <= i < |served| => Member(served[i].client, key))
  }

  function Card(db: Db, key: Key): nat {
    if key in db && db[key].ZsetObj? then db[key].card else 0
  }

  /** The sorted set with taken members less; an emptied one is deleted. */
  function Taken(db: Db, key: Key, taken: nat): Db
    requires taken <= Card(db, key)
  {
    if taken == 0 then db
    else if taken == db[key].card then db - {key}
    else db[key := ZsetObj(db[key].card - taken)]
  }

  /** serveClientsBlockedOnSortedSetKey: one member each for the first clients that wait for one. */
  ghost predicate ZsetServed(key: Key, s0: State, s: State) {
    var list := ListOf(s0.waiting, key);
    var n := ZsetStop(list, s0.clients, Card(s0.db, key), 0);
    var served := Served(list, s0.clients, OnZset, n);
    && ListOf(s.waiting, key) == AfterVisiting(list, s0.clients, OnZset, n)
    && OthersLeft(s0.waiting, s.waiting, s.clients, key)
    && Released(served, s0.clients, s.clients)
    && s.replies == s0.replies + Members(served, key)
    && |served| <= Card(s0.db, key) && s.db == Taken(s0.db, key, |served|)
  }

  /** serveClientsBlockedOnStreamKey: of the clients in the list those for which the stream has news are let go. */
  ghost predicate StreamServed(key: Key, s0: State, s: State, wakes: ClientId -> bool) {
    && OnlyWoken(ListOf(s0.waiting, key), s0.clients, wakes, s.clients)
    && (forall k :: LeftBehind(s0.waiting, s.waiting, s.clients, k))
    && s.db == s0.db && s.replies == s0.replies
  }

  /** Of the clients in the list those blocked for a stream with news were let go; no other client changed. */
  ghost predicate OnlyWoken(list: seq<Entry>, clients0: Clients, wakes: ClientId -> bool, clients: Clients) {
    && clients.Keys == clients0.Keys
    && forall d :: d in clients0 ==>
         clients[d] == if clients0[d].btype == OnStream && wakes(d) && Listed(list, d) then Freed(clients0[d])
                       else clients0[d]
  }

  /** The body of the loop of handleClientsBlockedOnKeys. */
  ghost predicate KeyServed(key: Key, s0: State, s: State, wakes: ClientId -> bool) {
    if key !in s0.db then s == s0
    else
      match s0.db[key]
      case ListObj(_) => ListServed(key, s0, s)
      case ZsetObj(_) => ZsetServed(key, s0, s)
      case StreamObj => StreamServed(key, s0, s, wakes)
      case PlainObj => s == s0
  }

  /** s is what serving the keys one after the other makes of s0. */
  ghost predicate ServedInTurn(s0: State, keys: seq<Key>, s: State, wakes: ClientId -> bool)
    decreases |keys|
  {
    if keys == [] then s == s0
    else
      var n := |keys| - 1;
      exists s1 :: ServedInTurn(s0, keys[..n], s1, wakes) && KeyServed(keys[n], s1, s, wakes)
  }

  /** A first part and the rest. */
  lemma {:induction false} InTurnSplits(s0: State, a: seq<Key>, b: seq<Key>, s: State, wakes: ClientId -> bool)
    returns (s1: State)
    requires ServedInTurn(s0, a + b, s, wakes)
    ensures ServedInTurn(s0, a, s1, wakes) && ServedInTurn(s1, b, s, wakes)
    decreases |b|
  {
    hide KeyServed;
    if b == [] {
      assert a + b == a;
      s1 := s;
    } else {
      var n := |b| - 1;
      assert (a + b)[..|a + b| - 1] == a + b[..n] && (a + b)[|a + b| - 1] == b[n];
      var s2 :| ServedInTurn(s0, a + b[..n], s2, wakes) && KeyServed(b[n], s2, s, wakes);
      s1 := InTurnSplits(s0, a, b[..n], s2, wakes);
    }
  }

  lemma NothingInTurn(s: State, wakes: ClientId -> bool)
    ensures ServedInTurn(s, [], s, wakes)
  {
  }

  lemma OneMoreInTurn(s0: State, keys: seq<Key>, s: State, key: Key, s1: State, wakes: ClientId -> bool)
    requires ServedInTurn(s0, keys, s, wakes) && KeyServed(key, s, s1, wakes)
    ensures ServedInTurn(s0, keys + [key], s1, wakes)
  {
    hide KeyServed;
    assert (keys + [key])[..|keys + [key]| - 1] == keys;
  }

  // ----- a client leaves

  function Drop(list: seq<Entry>, c: ClientId): seq<Entry> {
    if list == [] then []
    else
      var init, last := list[..|list| - 1], list[|list| - 1];
      if last.client == c then Drop(init, c) else Drop(init, c) + [last]
  }

  lemma {:induction false} DropBlocked(list: seq<Entry>, clients: Clients, c: ClientId)
    requires c in clients && clients[c].btype != NotBlocked
    ensures StillBlocked(list, clients[c := Freed(clients[c])]) == Drop(StillBlocked(list, clients), c)
  {
    if list != [] {
      var init, last := list[..|list| - 1], list[|list| - 1];
      DropBlocked(init, clients, c);
      var before := StillBlocked(init, clients);
      if !Is(last, clients, NotBlocked) {
        assert (before + [last])[..|before + [last]| - 1] == before;
      }
    }
  }

  lemma {:induction false} DropAbsent(list: seq<Entry>, c: ClientId)
    requires forall i :: 0 <= i < |list| ==> list[i].client != c
    ensures Drop(list, c) == list
  {
    if list != [] {
      DropAbsent(list[..|list| - 1], c);
    }
  }

  lemma {:induction false} DropAppend(a: seq<Entry>, b: seq<Entry>, c: ClientId)
    ensures Drop(a + b, c) == Drop(a, c) + Drop(b, c)
    decreases |b|
  {
    if b == [] {
      assert a + b == a;
    } else {
      assert (a + b)[..|a + b| - 1] == a + b[..|b| - 1];
      DropAppend(a, b[..|b| - 1], c);
    }
  }

  /** Deleting the node of a client drops the client, when it is nowhere else in the list. */
  lemma DropNode(list: seq<Entry>, i: nat)
    requires i < |list| && NodesDistinct(list) && ClientsDistinct(list)
    ensures RemoveNode(list, list[i].node) == Drop(list, list[i].client)
  {
    hide RemoveNode, NodesDistinct, Drop;
    RemoveNodeRemoves(list, i);
    var c, before, behind := list[i].client, list[..i], list[i + 1..];
    assert list == before + ([list[i]] + behind);
    DropAppend(before, [list[i]] + behind, c);
    DropAppend([list[i]], behind, c);
    DropAbsent(before, c);
    DropAbsent(behind, c);
    DropSelf(list[i]);
  }

  lemma DropSelf(e: Entry)
    ensures Drop([e], e.client) == []
  {
  }

  ghost predicate AllBlockedIn(list: seq<Entry>, clients: Clients) {
    forall i :: 0 <= i < |list| ==> list[i].client in clients && clients[list[i].client].btype != NotBlocked
  }

  lemma {:induction false} AllStay(list: seq<Entry>, clients: Clients)
    requires AllBlockedIn(list, clients)
    ensures StillBlocked(list, clients) == list
  {
    if list != [] {
      AllStay(list[..|list| - 1], clients);
    }
  }

  /** Unblocking a client takes it out of every list and leaves the rest of each list in place. */
  lemma ClientLeaves(w0: Waiting, w: Waiting, w1: Waiting, clients: Clients, c: ClientId, k: Key)
    requires Agree(w, clients) && c in clients && clients[c].btype != NotBlocked && ClientsDistinct(ListOf(w, k))
    requires LeftBehind(w0, w, clients, k) && Removed(w, w1, clients[c].keys)
    ensures LeftBehind(w0, w1, clients[c := Freed(clients[c])], k)
  {
    hide StillBlocked, Drop, RemoveNode, ClientsDistinct, NodesDistinct;
    DropBlocked(ListOf(w0, k), clients, c);
    if k in clients[c].keys {
      var e := Entry(clients[c].keys[k], c);
      assert e in w[k];
      var i :| 0 <= i < |w[k]| && w[k][i] == e;
      DropNode(w[k], i);
    } else {
      forall i | 0 <= i < |ListOf(w, k)|
        ensures ListOf(w, k)[i].client != c
      {
        assert ListOf(w, k)[i] in w[k];
      }
      DropAbsent(ListOf(w, k), c);
    }
  }

  // ----- elements

  lemma {:induction false} MembersGiveNothing(replies: seq<Reply>, served: seq<Entry>, key: Key)
    ensures AllGiven(replies + Members(served, key)) == AllGiven(replies)
  {
    hide AllGiven, Members;
    if served == [] {
      NoMembers(key);
      assert replies + [] == replies;
    } else {
      var init, last := served[..|served| - 1], served[|served| - 1];
      MembersGiveNothing(replies, init, key);
      assert served == init + [last];
      OneMoreMember(replies, init, last, key);
      OneMoreGiven(replies + Members(init, key), Member(last.client, key));
    }
  }

  lemma NoMembers(key: Key)
    ensures Members([], key) == []
  {
  }

  lemma OneMoreMember(replies: seq<Reply>, served: seq<Entry>, e: Entry, key: Key)
    ensures replies + Members(served + [e], key) == (replies + Members(served, key)) + [Member(e.client, key)]
  {
    assert Members(served + [e], key) == Members(served, key) + [Member(e.client, key)];
  }

  /** Objects that are not lists play no part in what lists hold. */
  lemma TakenHoldsTheSame(db: Db, key: Key, taken: nat)
    requires taken <= Card(db, key)
    ensures Contents(Taken(db, key, taken)) == Contents(db)
    ensures forall k :: k in Taken(db, key, taken) && Taken(db, key, taken)[k].ListObj? ==>
              k in db && db[k] == Taken(db, key, taken)[k]
    ensures forall k :: k in db && db[k].ListObj? ==> k in Taken(db, key, taken) && Taken(db, key, taken)[k] == db[k]
  {
    hide Contents;
    if taken != 0 {
      ContentsSplit(db, key);
      ContentsUpdate(db, key, ZsetObj(db[key].card - taken));
    }
  }

  /** Serving a key neither loses nor duplicates an element. */
  lemma KeyConserves(key: Key, s0: State, s: State, wakes: ClientId -> bool)
    requires KeyServed(key, s0, s, wakes)
    ensures Contents(s.db) + AllGiven(s.replies) == Contents(s0.db) + AllGiven(s0.replies)
  {
    hide Contents, AllGiven, Served, ListStop, ZsetStop, ServedAll, Released, OthersLeft, AfterVisiting, Taken, Members,
         OnlyWoken, LeftBehind;
    if key in s0.db {
      var list := ListOf(s0.waiting, key);
      match s0.db[key]
      case ListObj(_) =>
        var served := Served(list, s0.clients, OnList, ListStop(list, s0.clients, s0.db, key, 0));
        ServedAllConserves(s0.db, s0.replies, key, served, s0.clients);
        ServedAllCounts(s0.db, s0.replies, key, served, s0.clients);
        var d := ServedAll(s0.db, s0.replies, key, served, s0.clients).0;
        if Length(d, key) == 0 {
          EmptyHoldsNothing(d, key);
        }
      case ZsetObj(_) =>
        var served := Served(list, s0.clients, OnZset, ZsetStop(list, s0.clients, Card(s0.db, key), 0));
        MembersGiveNothing(s0.replies, served, key);
        TakenHoldsTheSame(s0.db, key, |served|);
      case _ =>
    }
  }

  lemma EmptyHoldsNothing(db: Db, key: Key)
    requires key in db && db[key].ListObj? && Length(db, key) == 0
    ensures Contents(db - {key}) == Contents(db)
  {
    hide Contents;
    ContentsSplit(db, key);
  }

  // ----- members of sorted sets

  /** How many members of the sorted set at k the replies hand out. */
  function MembersGiven(replies: seq<Reply>, k: Key): nat {
    if replies == [] then 0
    else
      var last := replies[|replies| - 1];
      MembersGiven(replies[..|replies| - 1], k) + if last.Member? && last.key == k then 1 else 0
  }

  lemma MembersGivenSnoc(replies: seq<Reply>, reply: Reply, k: Key)
    ensures MembersGiven(replies + [reply], k)
         == MembersGiven(replies, k) + if reply.Member? && reply.key == k then 1 else 0
  {
    assert (replies + [reply])[..|replies + [reply]| - 1] == replies;
  }

  lemma {:induction false} MembersGivenTo(replies: seq<Reply>, served: seq<Entry>, key: Key, k: Key)
    ensures MembersGiven(replies + Members(served, key), k)
         == MembersGiven(replies, k) + if k == key then |served| else 0
  {
    hide MembersGiven, Members;
    if served == [] {
      NoMembers(key);
      assert replies + [] == replies;
    } else {
      var init, last := served[..|served| - 1], served[|served| - 1];
      MembersGivenTo(replies, init, key, k);
      assert served == init + [last];
      OneMoreMember(replies, init, last, key);
      MembersGivenSnoc(replies + Members(init, key), Member(last.client, key), k);
    }
  }

  lemma {:induction false} ListsGiveNoMembers(db: Db, replies: seq<Reply>, key: Key, entries: seq<Entry>,
                                              clients: Clients, k: Key)
    ensures MembersGiven(ServedAll(db, replies, key, entries, clients).1, k) == MembersGiven(replies, k)
  {
    hide MembersGiven, ServedDb;
    if entries != [] {
      var init, c := entries[..|entries| - 1], entries[|entries| - 1].client;
      ListsGiveNoMembers(db, replies, key, init, clients, k);
      var (d, rs) := ServedAll(db, replies, key, init, clients);
      if c in clients && HasElements(d, key) {
        MembersGivenSnoc(rs, ServedReply(d, key, c, clients[c]), k);
      }
    }
  }

  /** A sorted set loses a member for every client that gets one, and is gone with its last; nothing else changes. */
  lemma TakenCounts(db: Db, key: Key, taken: nat)
    requires taken <= Card(db, key) && (key in db && db[key].ZsetObj? ==> db[key].card > 0)
    ensures var d := Taken(db, key, taken);
            && Card(d, key) + taken == Card(db, key)
            && (forall k :: k != key ==> (k in d <==> k in db) && (k in d ==> d[k] == db[k]))
            && (key in d <==> key in db && (db[key].ZsetObj? ==> Card(d, key) > 0))
  {
  }

  /** Serving a key neither loses nor duplicates a member of a sorted set. */
  lemma KeyConservesMembers(key: Key, s0: State, s: State, wakes: ClientId -> bool, k: Key)
    requires KeyServed(key, s0, s, wakes)
    ensures Card(s.db, k) + MembersGiven(s.replies, k) == Card(s0.db, k) + MembersGiven(s0.replies, k)
  {
    hide MembersGiven, Served, ListStop, ZsetStop, ServedAll, Released, OthersLeft, AfterVisiting, Members, OnlyWoken,
         LeftBehind;
    if key in s0.db {
      var list := ListOf(s0.waiting, key);
      match s0.db[key]
      case ListObj(_) =>
        var served := Served(list, s0.clients, OnList, ListStop(list, s0.clients, s0.db, key, 0));
        ServedAllCounts(s0.db, s0.replies, key, served, s0.clients);
        ListsGiveNoMembers(s0.db, s0.replies, key, served, s0.clients, k);
      case ZsetObj(_) =>
        var served := Served(list, s0.clients, OnZset, ZsetStop(list, s0.clients, Card(s0.db, key), 0));
        MembersGivenTo(s0.replies, served, key, k);
      case _ =>
    }
  }

  /** Nor does a whole round over the ready keys. */
  lemma {:induction false} MembersConserved(s0: State, keys: seq<Key>, s: State, wakes: ClientId -> bool, k: Key)
    requires ServedInTurn(s0, keys, s, wakes)
    ensures Card(s.db, k) + MembersGiven(s.replies, k) == Card(s0.db, k) + MembersGiven(s0.replies, k)
    decreases |keys|
  {
    hide KeyServed, Card, MembersGiven;
    if keys != [] {
      var n := |keys| - 1;
      var s1 :| ServedInTurn(s0, keys[..n], s1, wakes) && KeyServed(keys[n], s1, s, wakes);
      MembersConserved(s0, keys[..n], s1, wakes, k);
      KeyConservesMembers(keys[n], s1, s, wakes, k);
    }
  }
}
