/**
 What serving clients blocked on a key means on values: the elements that move, the order
 in which clients are served, and why nobody is left waiting for what is there.
 */
module BlockedService {
  import opened Prelude
  import opened BlockedIndex

  type Elem = string

  datatype Obj = ListObj(elems: seq<Elem>) | ZsetObj(card: nat) | StreamObj | PlainObj

  /** What a client was told: an element it popped or moved, that its target has the wrong type, or a member. */
  datatype Reply =
    | Popped(client: ClientId, key: Key, value: Elem)
    | Moved(client: ClientId, key: Key, value: Elem)
    | WrongType(client: ClientId, key: Key)
    | Member(client: ClientId, key: Key)

  type Db = map<Key, Obj>

  /** What serving a key reads and changes, apart from counters and queues. */
  datatype State = State(waiting: Waiting, clients: Clients, db: Db, replies: seq<Reply>)

  // ----- elements

  function PopValue(elems: seq<Elem>, side: Side): Elem
    requires elems != []
  {
    if side.Head? then elems[0] else elems[|elems| - 1]
  }

  function PopRest(elems: seq<Elem>, side: Side): seq<Elem>
    requires elems != []
  {
    if side.Head? then elems[1..] else elems[..|elems| - 1]
  }

  function Push(elems: seq<Elem>, v: Elem, side: Side): seq<Elem> {
    if side.Head? then [v] + elems else elems + [v]
  }

  lemma PushToEmpty(v: Elem, side: Side)
    ensures Push([], v, side) == [v]
  {
  }

  /** Undoing a pop. */
  lemma PushPop(elems: seq<Elem>, side: Side)
    requires elems != []
    ensures Push(PopRest(elems, side), PopValue(elems, side), side) == elems
    ensures multiset(elems) == multiset(PopRest(elems, side)) + multiset{PopValue(elems, side)}
  {
    if side.Head? {
      assert elems == [elems[0]] + elems[1..];
    } else {
      assert elems == elems[..|elems| - 1] + [elems[|elems| - 1]];
    }
  }

  function ElemsOf(o: Obj): multiset<Elem> {
    if o.ListObj? then multiset(o.elems) else multiset{}
  }

  /** Every element of every list of the database. */
  ghost function Contents(db: Db): multiset<Elem> {
    if db == map[] then multiset{}
    else
      var k :| k in db;
      ElemsOf(db[k]) + Contents(db - {k})
  }

  lemma ContentsPick(db: Db) returns (k: Key)
    requires db != map[]
    ensures k in db && Contents(db) == ElemsOf(db[k]) + Contents(db - {k})
  {
    k :| k in db && Contents(db) == ElemsOf(db[k]) + Contents(db - {k});
  }

  lemma {:induction false} ContentsSplit(db: Db, k: Key)
    requires k in db
    ensures Contents(db) == ElemsOf(db[k]) + Contents(db - {k})
    decreases |db|
  {
    hide Contents, ElemsOf;
    var q := ContentsPick(db);
    if q != k {
      ContentsSplit(db - {q}, k);
      ContentsSplit(db - {k}, q);
      assert (db - {q}) - {k} == (db - {k}) - {q};
    }
  }

  lemma ContentsUpdate(db: Db, k: Key, o: Obj)
    ensures Contents(db[k := o]) == ElemsOf(o) + Contents(db - {k})
    ensures k !in db ==> db - {k} == db
  {
    ContentsSplit(db[k := o], k);
    assert db[k := o] - {k} == db - {k};
  }

  // ----- serving one client

  /** The database after serving a client blocked on the list at key. */
  function ServedDb(db: Db, key: Key, client: Client): Db
    requires key in db && db[key].ListObj? && db[key].elems != []
  {
    var v, db1 := PopValue(db[key].elems, client.from), db[key := ListObj(PopRest(db[key].elems, client.from))];
    match client.target
    case None => db1
    case Some(dst) =>
      if dst !in db1 then db1[dst := ListObj([v])]
      else if db1[dst].ListObj? then db1[dst := ListObj(Push(db1[dst].elems, v, client.to))]
      else db
  }

  function ServedReply(db: Db, key: Key, c: ClientId, client: Client): Reply
    requires key in db && db[key].ListObj? && db[key].elems != []
  {
    var v := PopValue(db[key].elems, client.from);
    match client.target
    case None => Popped(c, key, v)
    case Some(dst) => if dst in db && !db[dst].ListObj? then WrongType(c, key) else Moved(c, key, v)
  }

  /**
   What a client blocked on the list at key gets, and what it leaves, element by element.
   The element is the first or the last of the list; the rest of the list stays in order. A
   client that moves it puts it in front of or behind the elements of the target, which may be
   the same list, or no list yet; if the target is something else, nothing is moved.
   */
  ghost predicate Delivered(db: Db, db1: Db, key: Key, c: ClientId, client: Client, reply: Reply)
    requires key in db && db[key].ListObj? && db[key].elems != []
  {
    var elems, n := db[key].elems, |db[key].elems| - 1;
    var v := if client.from.Head? then elems[0] else elems[n];
    var rest := if client.from.Head? then elems[1..] else elems[..n];
    match client.target
    case None => reply == Popped(c, key, v) && db1 == db[key := ListObj(rest)]
    case Some(dst) =>
      if dst in db && !db[dst].ListObj? then reply == WrongType(c, key) && db1 == db
      else
        var onto := if dst == key then rest else if dst in db then db[dst].elems else [];
        var moved := if client.to.Head? then [v] + onto else onto + [v];
        && reply == Moved(c, key, v)
        && db1 == if dst == key then db[key := ListObj(moved)] else db[key := ListObj(rest)][dst := ListObj(moved)]
  }

  lemma ServingDelivers(db: Db, key: Key, c: ClientId, client: Client)
    requires key in db && db[key].ListObj? && db[key].elems != []
    ensures Delivered(db, ServedDb(db, key, client), key, c, client, ServedReply(db, key, c, client))
  {
    var v, rest := PopValue(db[key].elems, client.from), PopRest(db[key].elems, client.from);
    PushToEmpty(v, client.to);
    if client.target == Some(key) {
      var moved := ListObj(Push(rest, v, client.to));
      assert db[key := ListObj(rest)][key := moved] == db[key := moved];
    }
  }

  /** BLMOVE from one end of a list to the other end of the same list rotates it. */
  lemma MovingRotates(db: Db, db1: Db, key: Key, c: ClientId, client: Client, reply: Reply)
    requires key in db && db[key].ListObj? && db[key].elems != [] && client.target == Some(key)
    requires client.from != client.to && Delivered(db, db1, key, c, client, reply)
    ensures var elems, n := db[key].elems, |db[key].elems| - 1;
            db1 == db[key := ListObj(if client.from.Head? then elems[1..] + [elems[0]] else [elems[n]] + elems[..n])]
  {
  }

  /** What leaves the database with a reply. */
  function Given(reply: Reply): multiset<Elem> {
    if reply.Popped? then multiset{reply.value} else multiset{}
  }

  function AllGiven(replies: seq<Reply>): multiset<Elem> {
    if replies == [] then multiset{} else AllGiven(replies[..|replies| - 1]) + Given(replies[|replies| - 1])
  }

  /** Popping takes exactly the value popped. */
  lemma PoppedContents(db: Db, key: Key, side: Side)
    requires key in db && db[key].ListObj? && db[key].elems != []
    ensures Contents(db[key := ListObj(PopRest(db[key].elems, side))]) + multiset{PopValue(db[key].elems, side)}
         == Contents(db)
  {
    hide Contents;
    PushPop(db[key].elems, side);
    ContentsSplit(db, key);
    ContentsUpdate(db, key, ListObj(PopRest(db[key].elems, side)));
  }

  /** Pushing onto a list, or onto a key that is not there, adds exactly the value. */
  lemma PushedContents(db: Db, dst: Key, v: Elem, side: Side)
    requires dst in db ==> db[dst].ListObj?
    ensures Contents(db[dst := ListObj(Push(if dst in db then db[dst].elems else [], v, side))])
         == Contents(db) + multiset{v}
  {
    hide Contents, Push;
    var elems := if dst in db then db[dst].elems else [];
    ContentsUpdate(db, dst, ListObj(Push(elems, v, side)));
    PushAdds(elems, v, side);
    if dst in db {
      ContentsSplit(db, dst);
    }
  }

  lemma PushFirst(v: Elem, side: Side)
    ensures Push([], v, side) == [v]
  {
  }

  /** Serving one client neither loses nor duplicates an element. */
  lemma ServingConserves(db: Db, key: Key, c: ClientId, client: Client)
    requires key in db && db[key].ListObj? && db[key].elems != []
    ensures Contents(ServedDb(db, key, client)) + Given(ServedReply(db, key, c, client)) == Contents(db)
  {
    hide Contents, Push, PopRest, PopValue;
    var v := PopValue(db[key].elems, client.from);
    var db1 := db[key := ListObj(PopRest(db[key].elems, client.from))];
    PoppedContents(db, key, client.from);
    if client.target.Some? && (client.target.value in db1 ==> db1[client.target.value].ListObj?) {
      PushedContents(db1, client.target.value, v, client.to);
      PushFirst(v, client.to);
    }
  }

  lemma PushAdds(elems: seq<Elem>, v: Elem, side: Side)
    ensures multiset(Push(elems, v, side)) == multiset(elems) + multiset{v}
  {
  }

  // ----- the order of service

  predicate Is(e: Entry, clients: Clients, t: BlockType) {
    e.client in clients && clients[e.client].btype == t
  }

  /** The entries whose client blocks for type t, in order; or the others. */
  function Select(list: seq<Entry>, clients: Clients, t: BlockType, yes: bool): seq<Entry> {
    if list == [] then []
    else
      var init, last := list[..|list| - 1], list[|list| - 1];
      if Is(last, clients, t) == yes then Select(init, clients, t, yes) + [last] else Select(init, clients, t, yes)
  }

  lemma SelectNothing(clients: Clients, t: BlockType, yes: bool)
    ensures Select([], clients, t, yes) == []
  {
  }

  lemma SelectSnoc(list: seq<Entry>, e: Entry, clients: Clients, t: BlockType, yes: bool)
    ensures Select(list + [e], clients, t, yes)
         == if Is(e, clients, t) == yes then Select(list, clients, t, yes) + [e] else Select(list, clients, t, yes)
  {
    assert (list + [e])[..|list + [e]| - 1] == list;
  }

  lemma {:induction false} SelectAppend(a: seq<Entry>, b: seq<Entry>, clients: Clients, t: BlockType, yes: bool)
    ensures Select(a + b, clients, t, yes) == Select(a, clients, t, yes) + Select(b, clients, t, yes)
    decreases |b|
  {
    if b == [] {
      assert a + b == a;
    } else {
      assert (a + b)[..|a + b| - 1] == a + b[..|b| - 1];
      SelectAppend(a, b[..|b| - 1], clients, t, yes);
    }
  }

  lemma {:induction false} SelectMembers(list: seq<Entry>, clients: Clients, t: BlockType, yes: bool)
    ensures forall e :: e in Select(list, clients, t, yes) <==> e in list && Is(e, clients, t) == yes
  {
    if list != [] {
      SelectMembers(list[..|list| - 1], clients, t, yes);
      assert list == list[..|list| - 1] + [list[|list| - 1]];
    }
  }

  /** The list after the first n of its clients were visited: those of type t left, the others went to the tail. */
  function AfterVisiting(list: seq<Entry>, clients: Clients, t: BlockType, n: nat): seq<Entry>
    requires n <= |list|
  {
    list[n..] + Select(list[..n], clients, t, false)
  }

  lemma {:induction false} SelectNone(list: seq<Entry>, clients: Clients, t: BlockType, other: BlockType)
    requires t != other
    ensures Select(Select(list, clients, t, false), clients, t, true) == []
    ensures Select(Select(list, clients, t, false), clients, other, true) == Select(list, clients, other, true)
  {
    if list != [] {
      var init, last := list[..|list| - 1], list[|list| - 1];
      SelectNone(init, clients, t, other);
      if Is(last, clients, t) {
      } else {
        SelectSnoc(Select(init, clients, t, false), last, clients, t, true);
        SelectSnoc(Select(init, clients, t, false), last, clients, other, true);
      }
    }
  }

  /** Clients of the type served stay in blocking order: those not yet visited, as they were. */
  lemma SameTypeKeepsOrder(list: seq<Entry>, clients: Clients, t: BlockType, n: nat)
    requires n <= |list|
    ensures Select(AfterVisiting(list, clients, t, n), clients, t, true) == Select(list[n..], clients, t, true)
  {
    var other := if t == OnList then OnZset else OnList;
    SelectAppend(list[n..], Select(list[..n], clients, t, false), clients, t, true);
    SelectNone(list[..n], clients, t, other);
  }

  /** What a visit that stops at n makes of the clients of another type. */
  lemma VisitSwaps(list: seq<Entry>, clients: Clients, t: BlockType, other: BlockType, n: nat)
    requires n <= |list| && t != other
    ensures var seen, rest := Select(list[..n], clients, other, true), Select(list[n..], clients, other, true);
            && Select(AfterVisiting(list, clients, t, n), clients, other, true) == rest + seen
            && Select(list, clients, other, true) == seen + rest
  {
    hide Select;
    SelectAppend(list[n..], Select(list[..n], clients, t, false), clients, other, true);
    SelectNone(list[..n], clients, t, other);
    assert list == list[..n] + list[n..];
    SelectAppend(list[..n], list[n..], clients, other, true);
  }

  /** Two clients of another type trade places exactly when the visit stops between them. */
  lemma OtherTypeKeepsOrderIff(list: seq<Entry>, clients: Clients, t: BlockType, other: BlockType, n: nat)
    requires n <= |list| && t != other && NodesDistinct(list)
    ensures Select(AfterVisiting(list, clients, t, n), clients, other, true) == Select(list, clients, other, true)
        <==> !Between(list, clients, other, n)
  {
    hide Select, AfterVisiting, Is;
    var seen, rest := Select(list[..n], clients, other, true), Select(list[n..], clients, other, true);
    VisitSwaps(list, clients, t, other, n);
    SelectMembers(list[..n], clients, other, true);
    SelectMembers(list[n..], clients, other, true);
    if seen != [] && rest != [] {
      assert seen[0] in seen && rest[0] in rest;
      var i :| 0 <= i < n && list[..n][i] == seen[0];
      var j :| 0 <= j < |list| - n && list[n..][j] == rest[0];
      assert list[i].node != list[n + j].node;
      assert (rest + seen)[0] == rest[0] && (seen + rest)[0] == seen[0];
      assert Is(list[i], clients, other) && Is(list[n + j], clients, other);
    } else {
      forall i, j | 0 <= i < n <= j < |list|
        ensures !(Is(list[i], clients, other) && Is(list[j], clients, other))
      {
        assert list[i] in list[..n] && list[j] in list[n..];
      }
    }
  }

  /** Position n has clients of type t on both sides. */
  ghost predicate Between(list: seq<Entry>, clients: Clients, t: BlockType, n: nat) {
    exists i, j :: 0 <= i < n <= j < |list| && Is(list[i], clients, t) && Is(list[j], clients, t)
  }

  // ----- nobody is left waiting for what is there

  /** Some client blocked for type t is in the list of k. */
  ghost predicate Waits(waiting: Waiting, clients: Clients, k: Key, t: BlockType) {
    exists e :: e in ListOf(waiting, k) && Is(e, clients, t)
  }

  predicate HasElements(db: Db, k: Key) {
    k in db && db[k].ListObj? && db[k].elems != []
  }

  /** Every list with elements that a list-blocked client waits for is queued as ready; except one being served. */
  ghost predicate NobodyMissed(db: Db, waiting: Waiting, clients: Clients, ready: set<Key>, serving: set<Key>) {
    forall k :: HasElements(db, k) && k !in serving && Waits(waiting, clients, k, OnList) ==> k in ready
  }

  /** Empty lists are deleted; except one being served. */
  ghost predicate NoEmptyLists(db: Db, serving: set<Key>) {
    forall k :: k in db && db[k].ListObj? && k !in serving ==> db[k].elems != []
  }

  ghost predicate WaitsLess(waiting: Waiting, clients: Clients, waiting1: Waiting, clients1: Clients) {
    forall k :: Waits(waiting1, clients1, k, OnList) ==> Waits(waiting, clients, k, OnList)
  }

  /** Serving a client keeps every other key accounted for: only a target it creates is new,
      and that one is signalled. */
  lemma ServingMissesNobody(s: State, key: Key, client: Client, ready: set<Key>, waiting1: Waiting,
                            clients1: Clients, ready1: set<Key>, missed: set<Key>)
    requires HasElements(s.db, key) && NobodyMissed(s.db, s.waiting, s.clients, ready, missed + {key})
    requires NoEmptyLists(s.db, {key}) && WaitsLess(s.waiting, s.clients, waiting1, clients1) && ready <= ready1
    requires client.target.Some? && client.target.value !in s.db && client.target.value in s.waiting ==>
               client.target.value in ready1
    ensures NobodyMissed(ServedDb(s.db, key, client), waiting1, clients1, ready1, missed + {key})
    ensures NoEmptyLists(ServedDb(s.db, key, client), {key})
  {
    var db1 := ServedDb(s.db, key, client);
    forall k | HasElements(db1, k) && k !in missed + {key} && Waits(waiting1, clients1, k, OnList)
      ensures k in ready1
    {
      assert Waits(s.waiting, s.clients, k, OnList);
      assert k in s.waiting;
      if HasElements(s.db, k) {
        assert k in ready;
      } else {
        assert k !in s.db;
      }
    }
  }

  lemma ServedKeepsList(db: Db, key: Key, client: Client)
    requires HasElements(db, key)
    ensures key in ServedDb(db, key, client) && ServedDb(db, key, client)[key].ListObj?
  {
  }

  lemma OneMoreGiven(replies: seq<Reply>, reply: Reply)
    ensures AllGiven(replies + [reply]) == AllGiven(replies) + Given(reply)
  {
    assert (replies + [reply])[..|replies + [reply]| - 1] == replies;
  }

  // ----- one pass over the clients of a key

  /** The entries served so far: those of type t among the first n. */
  function Served(list: seq<Entry>, clients: Clients, t: BlockType, n: nat): seq<Entry>
    requires n <= |list|
  {
    Select(list[..n], clients, t, true)
  }

  /** The i-th reply goes to the i-th entry served. */
  ghost predicate RepliesFollow(served: seq<Entry>, key: Key, before: seq<Reply>, replies: seq<Reply>) {
    && |replies| == |before| + |served|
    && before <= replies
    && forall i :: 0 <= i < |served| ==>
         replies[|before| + i].client == served[i].client && replies[|before| + i].key == key
  }

  /** A client after unblockClient. */
  function Freed(client: Client): Client {
    Client(NotBlocked, map[], None, client.from, client.to, true)
  }

  ghost predicate Listed(list: seq<Entry>, d: ClientId) {
    exists e :: e in list && e.client == d
  }

  /** The clients served were let go, and no other client changed. */
  ghost predicate Released(served: seq<Entry>, clients0: Clients, clients: Clients) {
    && clients.Keys == clients0.Keys
    && forall d :: d in clients0 ==>
         clients[d] == if Listed(served, d) then Freed(clients0[d]) else clients0[d]
  }

  ghost predicate ClientsDistinct(list: seq<Entry>) {
    forall i, j :: 0 <= i < j < |list| ==> list[i].client != list[j].client
  }

  /** The n-th client has not been touched when its turn comes. */
  lemma NextUntouched(list: seq<Entry>, clients0: Clients, clients: Clients, t: BlockType, n: nat)
    requires n < |list| && ClientsDistinct(list) && Released(Served(list, clients0, t, n), clients0, clients)
    requires list[n].client in clients0
    ensures list[n].client in clients && clients[list[n].client] == clients0[list[n].client]
  {
    SelectMembers(list[..n], clients0, t, true);
  }

  /** A client of another type goes from the head to the tail. */
  lemma VisitRotates(list: seq<Entry>, clients: Clients, t: BlockType, n: nat)
    requires n < |list| && !Is(list[n], clients, t)
    ensures var cur := AfterVisiting(list, clients, t, n);
            cur != [] && cur[0] == list[n] && AfterVisiting(list, clients, t, n + 1) == Rotate(cur)
    ensures Served(list, clients, t, n + 1) == Served(list, clients, t, n)
  {
    assert list[..n + 1] == list[..n] + [list[n]];
    SelectSnoc(list[..n], list[n], clients, t, false);
    SelectSnoc(list[..n], list[n], clients, t, true);
  }

  /** A client of the type leaves from the head. */
  lemma VisitServes(list: seq<Entry>, clients: Clients, t: BlockType, n: nat)
    requires n < |list| && Is(list[n], clients, t)
    ensures var cur := AfterVisiting(list, clients, t, n);
            cur != [] && cur[0] == list[n] && AfterVisiting(list, clients, t, n + 1) == cur[1..]
    ensures Served(list, clients, t, n + 1) == Served(list, clients, t, n) + [list[n]]
  {
    assert list[..n + 1] == list[..n] + [list[n]];
    SelectSnoc(list[..n], list[n], clients, t, false);
    SelectSnoc(list[..n], list[n], clients, t, true);
  }

  lemma OneMoreReply(served: seq<Entry>, e: Entry, key: Key, before: seq<Reply>, replies: seq<Reply>, reply: Reply)
    requires RepliesFollow(served, key, before, replies) && reply.client == e.client && reply.key == key
    ensures RepliesFollow(served + [e], key, before, replies + [reply])
  {
    var all, sent := served + [e], replies + [reply];
    forall i | 0 <= i < |all|
      ensures sent[|before| + i].client == all[i].client && sent[|before| + i].key == key
    {
      if i < |served| {
        assert all[i] == served[i] && sent[|before| + i] == replies[|before| + i];
      }
    }
  }

  lemma OneMoreReleased(served: seq<Entry>, e: Entry, clients0: Clients, clients: Clients)
    requires Released(served, clients0, clients) && e.client in clients0 && clients[e.client] == clients0[e.client]
    ensures Released(served + [e], clients0, clients[e.client := Freed(clients[e.client])])
  {
    forall d
      ensures Listed(served + [e], d) <==> Listed(served, d) || d == e.client
    {
      if Listed(served, d) {
        var x :| x in served && x.client == d;
        assert x in served + [e];
      }
      assert e in served + [e];
    }
  }

  lemma StartVisiting(list: seq<Entry>, clients: Clients, t: BlockType)
    ensures AfterVisiting(list, clients, t, 0) == list && Served(list, clients, t, 0) == []
  {
  }

  /** Once every client was visited, none that is blocked on a list is left. */
  lemma NobodyWaits(list: seq<Entry>, clients0: Clients, clients: Clients, waiting: Waiting, key: Key)
    requires ListOf(waiting, key) == AfterVisiting(list, clients0, OnList, |list|)
    requires Released(Served(list, clients0, OnList, |list|), clients0, clients)
    ensures !Waits(waiting, clients, key, OnList)
  {
    assert list[..|list|] == list;
    SelectMembers(list, clients0, OnList, false);
    forall e | e in ListOf(waiting, key)
      ensures !Is(e, clients, OnList)
    {
      assert !Is(e, clients0, OnList);
    }
  }

  lemma FinishKey(s: State, ready: set<Key>, key: Key, missed: set<Key>)
    requires NobodyMissed(s.db, s.waiting, s.clients, ready, missed + {key}) && NoEmptyLists(s.db, {key})
    requires key in s.db && s.db[key].ListObj?
    requires s.db[key].elems == [] || !Waits(s.waiting, s.clients, key, OnList)
    ensures var db1 := if s.db[key].elems == [] then s.db - {key} else s.db;
            NobodyMissed(db1, s.waiting, s.clients, ready, missed) && NoEmptyLists(db1, {})
            && Contents(db1) == Contents(s.db)
  {
    hide Waits, Contents;
    ContentsSplit(s.db, key);
  }

  /** How the served and the remaining clients divide those that waited. */
  lemma ServedInOrder(list: seq<Entry>, clients: Clients, t: BlockType, n: nat)
    requires n <= |list|
    ensures var all, served := Select(list, clients, t, true), Served(list, clients, t, n);
            && all == served + Select(AfterVisiting(list, clients, t, n), clients, t, true)
            && (n == |list| ==> served == all)
  {
    assert list == list[..n] + list[n..];
    SelectAppend(list[..n], list[n..], clients, t, true);
    SameTypeKeepsOrder(list, clients, t, n);
    assert n == |list| ==> list[..n] == list;
  }
}
