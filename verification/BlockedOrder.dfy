/**
 The order of service over a whole run of handleClientsBlockedOnKeys: keys are served one
 after the other, a client may wait for several of them, and serving one key may make
 another ready. Clients that block for the same type are still answered for a key in the
 order in which they blocked for it.
 */
module BlockedOrder {
  import opened BlockedIndex
  import opened BlockedService
  import opened BlockedSpec

  predicate Answers(reply: Reply, c: ClientId, k: Key) {
    reply.client == c && reply.key == k
  }

  /** Once b was answered for k, a is blocked no more, and whatever a was told for k it was told before. */
  ghost predicate AheadFirst(a: ClientId, b: ClientId, k: Key, from: nat, s: State) {
    forall p :: from <= p < |s.replies| && Answers(s.replies[p], b, k) ==>
      && a in s.clients && s.clients[a].btype == NotBlocked
      && forall q :: from <= q < |s.replies| && Answers(s.replies[q], a, k) ==> q < p
  }

  /** Of two clients that waited for k and block for type t, the one ahead comes first. */
  ghost predicate InOrder(s0: State, s: State, k: Key, t: BlockType) {
    forall a, b :: Ahead(s0, k, t, a, b) ==> AheadFirst(a, b, k, |s0.replies|, s)
  }

  /** Client a is ahead of client b among those of type t that wait for k. */
  ghost predicate Ahead(s: State, k: Key, t: BlockType, a: ClientId, b: ClientId) {
    var list := ListOf(s.waiting, k);
    exists i, j :: 0 <= i < j < |list| && list[i].client == a && list[j].client == b
      && Is(list[i], s.clients, t) && Is(list[j], s.clients, t)
  }

  ghost predicate LessBlocked(c0: Clients, c: Clients) {
    && c.Keys == c0.Keys
    && forall d :: d in c0 ==> c[d] == c0[d] || (c0[d].btype != NotBlocked && c[d] == Freed(c0[d]))
  }

  predicate Replied(t: BlockType) {
    t == OnList || t == OnZset
  }

  ghost predicate Answered(s0: State, s: State, c: ClientId) {
    exists p :: |s0.replies| <= p < |s.replies| && s.replies[p].client == c
  }

  /** The p-th reply goes to a client that waited for its key and is blocked no more. */
  ghost predicate Due(s0: State, s: State, p: nat)
    requires p < |s.replies|
  {
    var c := s.replies[p].client;
    && c in s0.clients && Replied(s0.clients[c].btype) && Listed(ListOf(s0.waiting, s.replies[p].key), c)
    && c in s.clients && s.clients[c].btype == NotBlocked
  }

  /**
   Every client is as it was or was let go; those blocked on lists and sorted sets exactly
   with one answer each, to a key they waited for.
   */
  ghost predicate Accounted(s0: State, s: State) {
    && LessBlocked(s0.clients, s.clients)
    && s0.replies <= s.replies
    && (forall p: nat :: |s0.replies| <= p < |s.replies| ==> Due(s0, s, p))
    && (forall p: nat, q: nat :: |s0.replies| <= p < q < |s.replies| ==> s.replies[p].client != s.replies[q].client)
    && (forall c :: c in s0.clients && Replied(s0.clients[c].btype) && s.clients[c] != s0.clients[c] ==>
          Answered(s0, s, c))
  }

  /** Among the clients of type t still blocked, those waiting for k stand as they stood. */
  ghost predicate OrderKept(s0: State, s: State, k: Key, t: BlockType) {
    Select(ListOf(s.waiting, k), s.clients, t, true) == Select(ListOf(s0.waiting, k), s.clients, t, true)
  }

  // ----- what serving one key does to the order

  /** t is the type of the clients served, in the order of served; NotBlocked if none is. */
  ghost predicate Effect(key: Key, s: State, s1: State, t: BlockType, served: seq<Entry>) {
    && (served == [] || Replied(t))
    && served <= Select(ListOf(s.waiting, key), s.clients, t, true)
    && RepliesFollow(served, key, s.replies, s1.replies)
    && LessBlocked(s.clients, s1.clients)
    && (forall d :: d in s.clients && Replied(s.clients[d].btype) ==>
          (s1.clients[d] != s.clients[d] <==> Listed(served, d)))
    && (forall k, u :: Replied(u) && (k != key || t == NotBlocked || u == t) ==> OrderKept(s, s1, k, u))
  }

  lemma {:induction false} SelectTwice(list: seq<Entry>, c: Clients, c1: Clients, t: BlockType)
    requires LessBlocked(c, c1) && t != NotBlocked
    ensures Select(Select(list, c, t, true), c1, t, true) == Select(list, c1, t, true)
  {
    if list != [] {
      var init, last := list[..|list| - 1], list[|list| - 1];
      SelectTwice(init, c, c1, t);
      if Is(last, c, t) {
        SelectSnoc(Select(init, c, t, true), last, c1, t, true);
      }
    }
  }

  lemma SelectEmpty(list: seq<Entry>, c: Clients, t: BlockType)
    requires forall e :: e in list ==> !Is(e, c, t)
    ensures Select(list, c, t, true) == []
  {
    SelectMembers(list, c, t, true);
    if Select(list, c, t, true) != [] {
      assert Select(list, c, t, true)[0] in Select(list, c, t, true);
    }
  }

  lemma ReleasedIsLess(served: seq<Entry>, c: Clients, c1: Clients, t: BlockType)
    requires Released(served, c, c1) && t != NotBlocked && forall e :: e in served ==> Is(e, c, t)
    ensures LessBlocked(c, c1)
    ensures forall d :: d in c ==> (c1[d] != c[d] <==> Listed(served, d))
  {
    forall d | d in c && Listed(served, d)
      ensures c[d].btype != NotBlocked
    {
      var e :| e in served && e.client == d;
    }
  }

  /** The clients of the served type keep their order in the list that was visited. */
  lemma VisitKeepsOrder(list: seq<Entry>, c: Clients, c1: Clients, t: BlockType, n: nat)
    requires n <= |list| && t != NotBlocked && Released(Served(list, c, t, n), c, c1)
    ensures Select(AfterVisiting(list, c, t, n), c1, t, true) == Select(list, c1, t, true)
  {
    hide Select;
    var others := Select(list[..n], c, t, false);
    SelectMembers(list[..n], c, t, true);
    SelectMembers(list[..n], c, t, false);
    assert list == list[..n] + list[n..];
    SelectAppend(list[..n], list[n..], c1, t, true);
    SelectAppend(list[n..], others, c1, t, true);
    forall e | e in list[..n]
      ensures !Is(e, c1, t)
    {
      if Is(e, c, t) {
        assert Listed(Served(list, c, t, n), e.client);
      }
    }
    SelectEmpty(list[..n], c1, t);
    SelectEmpty(others, c1, t);
  }

  lemma OthersKeepOrder(s: State, s1: State, key: Key, k: Key, u: BlockType)
    requires OthersLeft(s.waiting, s1.waiting, s1.clients, key) && k != key && u != NotBlocked
    ensures OrderKept(s, s1, k, u)
  {
    hide Select;
    assert LeftBehind(s.waiting, s1.waiting, s1.clients, k);
    SelectNone(ListOf(s.waiting, k), s1.clients, NotBlocked, u);
  }

  lemma VisitEffect(key: Key, s: State, s1: State, t: BlockType, n: nat)
    requires var list := ListOf(s.waiting, key);
             && Replied(t) && n <= |list| && ListOf(s1.waiting, key) == AfterVisiting(list, s.clients, t, n)
             && OthersLeft(s.waiting, s1.waiting, s1.clients, key)
             && Released(Served(list, s.clients, t, n), s.clients, s1.clients)
             && RepliesFollow(Served(list, s.clients, t, n), key, s.replies, s1.replies)
    ensures Effect(key, s, s1, t, Served(ListOf(s.waiting, key), s.clients, t, n))
  {
    hide Select, AfterVisiting, OthersLeft, RepliesFollow, LessBlocked, Listed, Released;
    var list := ListOf(s.waiting, key);
    var served := Served(list, s.clients, t, n);
    assert list[..|list|] == list;
    ServedGrows(list, s.clients, t, n, |list|);
    SelectMembers(list[..n], s.clients, t, true);
    ReleasedIsLess(served, s.clients, s1.clients, t);
    VisitKeepsOrder(list, s.clients, s1.clients, t, n);
    forall k, u | Replied(u) && (k != key || u == t)
      ensures OrderKept(s, s1, k, u)
    {
      if k != key {
        OthersKeepOrder(s, s1, key, k, u);
      }
    }
  }

  lemma MembersFollow(served: seq<Entry>, key: Key, replies: seq<Reply>)
    ensures RepliesFollow(served, key, replies, replies + Members(served, key))
  {
  }

  lemma NothingServed(key: Key, s: State, s1: State)
    requires LessBlocked(s.clients, s1.clients) && s1.replies == s.replies
    requires forall d :: d in s.clients && Replied(s.clients[d].btype) ==> s1.clients[d] == s.clients[d]
    requires forall k :: LeftBehind(s.waiting, s1.waiting, s1.clients, k)
    ensures Effect(key, s, s1, NotBlocked, [])
  {
    hide Select;
    forall k, u | Replied(u)
      ensures OrderKept(s, s1, k, u)
    {
      assert LeftBehind(s.waiting, s1.waiting, s1.clients, k);
      SelectNone(ListOf(s.waiting, k), s1.clients, NotBlocked, u);
    }
  }

  lemma NothingHappened(key: Key, s: State)
    ensures Effect(key, s, s, NotBlocked, [])
  {
  }

  predicate IsZset(db: Db, k: Key) {
    k in db && db[k].ZsetObj?
  }

  /** Whatever the object at key is, serving it has such an effect, and makes no sorted set. */
  lemma KeyEffect(key: Key, s: State, s1: State, wakes: ClientId -> bool) returns (t: BlockType, served: seq<Entry>)
    requires KeyServed(key, s, s1, wakes)
    ensures Effect(key, s, s1, t, served) && t != OnStream
    ensures t == OnZset <==> IsZset(s.db, key)
    ensures forall k :: IsZset(s1.db, k) ==> IsZset(s.db, k)
  {
    hide Select, AfterVisiting, OthersLeft, RepliesFollow, LessBlocked, Listed, Released, Effect, OrderKept, Served,
         ListStop, ZsetStop, ServedAll, Length;
    var list := ListOf(s.waiting, key);
    if key !in s.db || s.db[key].PlainObj? {
      t, served := NotBlocked, [];
      NothingHappened(key, s);
    } else if s.db[key].ListObj? {
      var n := ListStop(list, s.clients, s.db, key, 0);
      t, served := OnList, Served(list, s.clients, OnList, n);
      VisitEffect(key, s, s1, OnList, n);
      ListMakesNoZset(key, s, s1);
    } else if s.db[key].ZsetObj? {
      var n := ZsetStop(list, s.clients, Card(s.db, key), 0);
      t, served := OnZset, Served(list, s.clients, OnZset, n);
      MembersFollow(served, key, s.replies);
      VisitEffect(key, s, s1, OnZset, n);
    } else {
      t, served := NotBlocked, [];
      WokenIsLess(list, s.clients, wakes, s1.clients);
      NothingServed(key, s, s1);
    }
  }

  lemma WokenIsLess(list: seq<Entry>, c: Clients, wakes: ClientId -> bool, c1: Clients)
    requires OnlyWoken(list, c, wakes, c1)
    ensures LessBlocked(c, c1)
    ensures forall d :: d in c && Replied(c[d].btype) ==> c1[d] == c[d]
  {
  }

  lemma ListMakesNoZset(key: Key, s: State, s1: State)
    requires ListServed(key, s, s1) && key in s.db && s.db[key].ListObj?
    ensures forall k :: IsZset(s1.db, k) ==> IsZset(s.db, k)
  {
    var list := ListOf(s.waiting, key);
    var served := Served(list, s.clients, OnList, ListStop(list, s.clients, s.db, key, 0));
    hide Served, ListStop, ServedAll, Released, OthersLeft, AfterVisiting;
    ServedAllCounts(s.db, s.replies, key, served, s.clients);
  }

  // ----- chaining

  lemma LessChains(a: Clients, b: Clients, c: Clients)
    requires LessBlocked(a, b) && LessBlocked(b, c)
    ensures LessBlocked(a, c)
  {
  }

  lemma OrderChains(s0: State, s: State, s1: State, k: Key, t: BlockType)
    requires OrderKept(s0, s, k, t) && OrderKept(s, s1, k, t) && LessBlocked(s.clients, s1.clients) && t != NotBlocked
    ensures OrderKept(s0, s1, k, t)
  {
    hide Select, LessBlocked;
    SelectTwice(ListOf(s.waiting, k), s.clients, s1.clients, t);
    SelectTwice(ListOf(s0.waiting, k), s.clients, s1.clients, t);
  }

  lemma {:induction false} SelectDistinct(list: seq<Entry>, c: Clients, t: BlockType)
    requires ClientsDistinct(list)
    ensures ClientsDistinct(Select(list, c, t, true))
  {
    if list != [] {
      var init, last := list[..|list| - 1], list[|list| - 1];
      SelectDistinct(init, c, t);
      SelectMembers(init, c, t, true);
      var chosen := Select(init, c, t, true);
      forall i | 0 <= i < |chosen|
        ensures chosen[i].client != last.client
      {
        assert chosen[i] in chosen;
      }
    }
  }

  /** Choosing keeps the order: where two chosen entries of a list come to stand. */
  lemma SelectPositions(list: seq<Entry>, c: Clients, t: BlockType, i: nat, j: nat) returns (y: nat, x: nat)
    requires i < j < |list| && Is(list[i], c, t) && Is(list[j], c, t)
    ensures var chosen := Select(list, c, t, true);
            y < x < |chosen| && chosen[y] == list[i] && chosen[x] == list[j]
  {
    hide Select, Is;
    var before := Select(list[..j], c, t, true);
    SelectMembers(list[..j], c, t, true);
    assert list[i] in list[..j];
    y :| y < |before| && before[y] == list[i];
    x := |before|;
    assert list == list[..j] + [list[j]] + list[j + 1..];
    SelectSnoc(list[..j], list[j], c, t, true);
    SelectAppend(list[..j] + [list[j]], list[j + 1..], c, t, true);
  }

  /** Whom a new reply goes to. */
  lemma NewReply(key: Key, s: State, s1: State, t: BlockType, served: seq<Entry>, p: nat)
    requires Effect(key, s, s1, t, served) && |s.replies| <= p < |s1.replies|
    ensures var x := p - |s.replies|;
            && x < |served| && s1.replies[p].client == served[x].client && s1.replies[p].key == key
            && Is(served[x], s.clients, t) && Replied(t) && served[x] in ListOf(s.waiting, key)
  {
    hide OrderKept, LessBlocked, Listed;
    SelectMembers(ListOf(s.waiting, key), s.clients, t, true);
    var x := p - |s.replies|;
    assert s1.replies[|s.replies| + x] == s1.replies[p];
    assert served[x] == Select(ListOf(s.waiting, key), s.clients, t, true)[x];
    assert served[x] in Select(ListOf(s.waiting, key), s.clients, t, true);
  }

  lemma OldReply(key: Key, s: State, s1: State, t: BlockType, served: seq<Entry>, p: nat)
    requires Effect(key, s, s1, t, served) && p < |s.replies|
    ensures p < |s1.replies| && s1.replies[p] == s.replies[p]
  {
  }

  lemma ServedDistinct(key: Key, s: State, s1: State, t: BlockType, served: seq<Entry>)
    requires Effect(key, s, s1, t, served) && ClientsDistinct(ListOf(s.waiting, key))
    ensures ClientsDistinct(served)
  {
    hide OrderKept, LessBlocked, Listed, Select;
    SelectDistinct(ListOf(s.waiting, key), s.clients, t);
    forall i, j | 0 <= i < j < |served|
      ensures served[i].client != served[j].client
    {
      var all := Select(ListOf(s.waiting, key), s.clients, t, true);
      assert served[i] == all[i] && served[j] == all[j];
    }
  }

  /** Of two clients waiting for the key just served, the one ahead was served before. */
  lemma ServedAhead(s0: State, key: Key, s: State, s1: State, t: BlockType, served: seq<Entry>, i: nat, j: nat, x: nat)
    returns (y: nat)
    requires Effect(key, s, s1, t, served) && OrderKept(s0, s, key, t) && ClientsDistinct(ListOf(s.waiting, key))
    requires i < j < |ListOf(s0.waiting, key)| && x < |served|
    requires var list := ListOf(s0.waiting, key);
             Is(list[i], s.clients, t) && Is(list[j], s.clients, t) && served[x].client == list[j].client
    ensures y < x && served[y].client == ListOf(s0.waiting, key)[i].client
  {
    hide RepliesFollow, LessBlocked, Listed, Select;
    var z;
    y, z := SelectPositions(ListOf(s0.waiting, key), s.clients, t, i, j);
    SelectDistinct(ListOf(s.waiting, key), s.clients, t);
    var all := Select(ListOf(s.waiting, key), s.clients, t, true);
    assert served[x] == all[x];
    assert z == x;
    assert served[y] == all[y];
  }

  /** What the step leaves of a client that was let go before it. */
  lemma StaysFree(key: Key, s: State, s1: State, t: BlockType, served: seq<Entry>, a: ClientId, q: nat)
    requires Effect(key, s, s1, t, served) && a in s.clients && s.clients[a].btype == NotBlocked
    ensures a in s1.clients && s1.clients[a].btype == NotBlocked
    ensures |s.replies| <= q < |s1.replies| ==> s1.replies[q].client != a
  {
    hide OrderKept, Listed, Select, RepliesFollow;
    if |s.replies| <= q < |s1.replies| {
      NewReply(key, s, s1, t, served, q);
    }
  }

  lemma StepKeepsAhead(s0: State, key: Key, s: State, s1: State, t: BlockType, served: seq<Entry>, k: Key,
                       u: BlockType, a: ClientId, b: ClientId, p: nat)
    requires Effect(key, s, s1, t, served) && LessBlocked(s0.clients, s.clients)
    requires ClientsDistinct(ListOf(s.waiting, key)) && (k == key && u == t ==> OrderKept(s0, s, k, u))
    requires Ahead(s0, k, u, a, b) && AheadFirst(a, b, k, |s0.replies|, s) && Replied(u)
    requires |s0.replies| <= |s.replies| && |s0.replies| <= p < |s1.replies| && Answers(s1.replies[p], b, k)
    ensures a in s1.clients && s1.clients[a].btype == NotBlocked
    ensures forall q :: |s0.replies| <= q < |s1.replies| && Answers(s1.replies[q], a, k) ==> q < p
  {
    hide Effect, Select, OrderKept;
    var list := ListOf(s0.waiting, k);
    var i, j :| 0 <= i < j < |list| && list[i].client == a && list[j].client == b
      && Is(list[i], s0.clients, u) && Is(list[j], s0.clients, u);
    if p < |s.replies| {
      OldReply(key, s, s1, t, served, p);
      StaysFree(key, s, s1, t, served, a, p);
      forall q | |s0.replies| <= q < |s1.replies| && Answers(s1.replies[q], a, k)
        ensures q < p
      {
        StaysFree(key, s, s1, t, served, a, q);
        OldReply(key, s, s1, t, served, q);
      }
    } else {
      NewReply(key, s, s1, t, served, p);
      var x := p - |s.replies|;
      assert s.clients[b] == s0.clients[b];
      if s.clients[a] == s0.clients[a] {
        var y := ServedAhead(s0, key, s, s1, t, served, i, j, x);
        ServedIsFree(key, s, s1, t, served, y);
        ServedDistinct(key, s, s1, t, served);
        forall q | |s.replies| <= q < |s1.replies| && Answers(s1.replies[q], a, k)
          ensures q < p
        {
          NewReply(key, s, s1, t, served, q);
        }
      } else {
        StaysFree(key, s, s1, t, served, a, p);
        forall q | |s0.replies| <= q < |s1.replies| && Answers(s1.replies[q], a, k)
          ensures q < p
        {
          StaysFree(key, s, s1, t, served, a, q);
        }
      }
    }
  }

  lemma ServedIsFree(key: Key, s: State, s1: State, t: BlockType, served: seq<Entry>, y: nat)
    requires Effect(key, s, s1, t, served) && y < |served|
    ensures served[y].client in s1.clients && s1.clients[served[y].client].btype == NotBlocked
    ensures served[y].client in s.clients && s1.clients[served[y].client] != s.clients[served[y].client]
  {
    hide OrderKept, Select;
    NewReply(key, s, s1, t, served, |s.replies| + y);
    assert served[y] in served && Listed(served, served[y].client);
  }

  lemma StepKeepsInOrder(s0: State, key: Key, s: State, s1: State, t: BlockType, served: seq<Entry>, k: Key,
                         u: BlockType)
    requires Effect(key, s, s1, t, served) && LessBlocked(s0.clients, s.clients) && |s0.replies| <= |s.replies|
    requires ClientsDistinct(ListOf(s.waiting, key)) && (k == key && u == t ==> OrderKept(s0, s, k, u))
    requires InOrder(s0, s, k, u) && Replied(u)
    ensures InOrder(s0, s1, k, u)
  {
    hide Effect, LessBlocked, ClientsDistinct, OrderKept, Ahead;
    forall a, b | Ahead(s0, k, u, a, b)
      ensures AheadFirst(a, b, k, |s0.replies|, s1)
    {
      assert AheadFirst(a, b, k, |s0.replies|, s);
      forall p | |s0.replies| <= p < |s1.replies| && Answers(s1.replies[p], b, k)
        ensures a in s1.clients && s1.clients[a].btype == NotBlocked
        ensures forall q :: |s0.replies| <= q < |s1.replies| && Answers(s1.replies[q], a, k) ==> q < p
      {
        StepKeepsAhead(s0, key, s, s1, t, served, k, u, a, b, p);
      }
    }
  }

  // ----- who is answered

  /** A client still blocked waits where it waited. */
  lemma WaitedBefore(s0: State, s: State, key: Key, c: ClientId)
    requires Agree(s0.waiting, s0.clients) && Agree(s.waiting, s.clients) && LessBlocked(s0.clients, s.clients)
    requires Listed(ListOf(s.waiting, key), c) && c in s.clients && s.clients[c].btype != NotBlocked
    ensures c in s0.clients && s.clients[c] == s0.clients[c] && Listed(ListOf(s0.waiting, key), c)
  {
    hide ListsAreGood;
    var e :| e in ListOf(s.waiting, key) && e.client == c;
    assert Entry(s0.clients[c].keys[key], c) in s0.waiting[key];
  }

  lemma StepKeepsDue(s0: State, key: Key, s: State, s1: State, t: BlockType, served: seq<Entry>, p: nat)
    requires Agree(s0.waiting, s0.clients) && Agree(s.waiting, s.clients) && Accounted(s0, s)
    requires Effect(key, s, s1, t, served) && |s0.replies| <= p < |s1.replies|
    ensures Due(s0, s1, p)
  {
    hide Agree, Effect;
    if p < |s.replies| {
      OldReply(key, s, s1, t, served, p);
      assert Due(s0, s, p);
      StaysFree(key, s, s1, t, served, s.replies[p].client, p);
    } else {
      NewReply(key, s, s1, t, served, p);
      var x := p - |s.replies|;
      WaitedBefore(s0, s, key, served[x].client);
      ServedIsFree(key, s, s1, t, served, x);
    }
  }

  lemma StepKeepsSingle(s0: State, key: Key, s: State, s1: State, t: BlockType, served: seq<Entry>, p: nat, q: nat)
    requires Accounted(s0, s) && Effect(key, s, s1, t, served) && ClientsDistinct(ListOf(s.waiting, key))
    requires |s0.replies| <= p < q < |s1.replies|
    ensures s1.replies[p].client != s1.replies[q].client
  {
    hide Effect, LessBlocked, Answered;
    if q < |s.replies| {
      OldReply(key, s, s1, t, served, p);
      OldReply(key, s, s1, t, served, q);
    } else if p < |s.replies| {
      OldReply(key, s, s1, t, served, p);
      assert Due(s0, s, p);
      StaysFree(key, s, s1, t, served, s.replies[p].client, q);
    } else {
      NewReply(key, s, s1, t, served, p);
      NewReply(key, s, s1, t, served, q);
      ServedDistinct(key, s, s1, t, served);
    }
  }

  lemma StepKeepsAnswered(s0: State, key: Key, s: State, s1: State, t: BlockType, served: seq<Entry>, c: ClientId)
    requires Accounted(s0, s) && Effect(key, s, s1, t, served)
    requires c in s0.clients && Replied(s0.clients[c].btype) && s1.clients[c] != s0.clients[c]
    ensures Answered(s0, s1, c)
  {
    hide OrderKept, Select, Due;
    if s.clients[c] != s0.clients[c] {
      assert Answered(s0, s, c);
      var p :| |s0.replies| <= p < |s.replies| && s.replies[p].client == c;
      OldReply(key, s, s1, t, served, p);
    } else {
      var e :| e in served && e.client == c;
      var i :| 0 <= i < |served| && served[i] == e;
      assert s1.replies[|s.replies| + i].client == c;
    }
  }

  lemma StepKeepsAccounted(s0: State, key: Key, s: State, s1: State, t: BlockType, served: seq<Entry>)
    requires Agree(s0.waiting, s0.clients) && Agree(s.waiting, s.clients) && Accounted(s0, s)
    requires Effect(key, s, s1, t, served) && ClientsDistinct(ListOf(s.waiting, key))
    ensures Accounted(s0, s1)
  {
    hide Agree, Due, Answered, ClientsDistinct, OrderKept, Select, Listed;
    LessChains(s0.clients, s.clients, s1.clients);
    forall p: nat | |s0.replies| <= p < |s1.replies|
      ensures Due(s0, s1, p)
    {
      StepKeepsDue(s0, key, s, s1, t, served, p);
    }
    forall p: nat, q: nat | |s0.replies| <= p < q < |s1.replies|
      ensures s1.replies[p].client != s1.replies[q].client
    {
      StepKeepsSingle(s0, key, s, s1, t, served, p, q);
    }
    forall c | c in s0.clients && Replied(s0.clients[c].btype) && s1.clients[c] != s0.clients[c]
      ensures Answered(s0, s1, c)
    {
      StepKeepsAnswered(s0, key, s, s1, t, served, c);
    }
  }

  // ----- a sorted set, and the clients for a list that wait at it

  /** A client for a sorted set stands between two clients for a list. */
  ghost predicate Straddled(list: seq<Entry>, clients: Clients) {
    exists i, x, j :: 0 <= i < x < j < |list| && Is(list[i], clients, OnList) && Is(list[x], clients, OnZset)
      && Is(list[j], clients, OnList)
  }

  /** Where the chosen entries come from, in order. */
  lemma {:induction false} SelectEmbeds(list: seq<Entry>, clients: Clients, t: BlockType, yes: bool)
    returns (at: seq<nat>)
    ensures var chosen := Select(list, clients, t, yes);
            && |at| == |chosen|
            && (forall x :: 0 <= x < |at| ==> at[x] < |list| && chosen[x] == list[at[x]])
            && (forall x, y :: 0 <= x < y < |at| ==> at[x] < at[y])
  {
    hide Is;
    at := [];
    if list != [] {
      var n := |list| - 1;
      at := SelectEmbeds(list[..n], clients, t, yes);
      if Is(list[n], clients, t) == yes {
        at := at + [n];
      }
    }
  }

  lemma LeavingKeepsUnstraddled(list: seq<Entry>, c: Clients, c1: Clients)
    requires LessBlocked(c, c1) && !Straddled(list, c)
    ensures !Straddled(StillBlocked(list, c1), c1)
  {
    hide Select;
    var rest := StillBlocked(list, c1);
    var at := SelectEmbeds(list, c1, NotBlocked, false);
    forall i, x, j | 0 <= i < x < j < |rest| && Is(rest[i], c1, OnList) && Is(rest[x], c1, OnZset)
      ensures !Is(rest[j], c1, OnList)
    {
      assert rest[i] == list[at[i]] && rest[x] == list[at[x]] && rest[j] == list[at[j]];
      assert at[i] < at[x] < at[j];
      assert Is(list[at[i]], c, OnList) && Is(list[at[x]], c, OnZset);
    }
  }

  /** Between two places with a different number of clients of the type ahead stands one of them. */
  lemma {:induction false} OneInBetween(list: seq<Entry>, clients: Clients, t: BlockType, i: nat, j: nat)
    requires i <= j <= |list| && |Served(list, clients, t, i)| < |Served(list, clients, t, j)|
    ensures exists x :: i <= x < j && Is(list[x], clients, t)
  {
    hide Served, Is;
    ServedStep(list, clients, t, j - 1);
    if !Is(list[j - 1], clients, t) {
      OneInBetween(list, clients, t, i, j - 1);
    }
  }

  /** Then the clients for a list keep their order when the sorted set is served. */
  lemma UnstraddledKeepsOrder(list: seq<Entry>, clients: Clients, m: nat)
    requires !Straddled(list, clients)
    ensures !LastBetween(list, clients, m, OnList)
  {
    hide Served;
    forall i, j | 0 <= i < j < |list| && Is(list[i], clients, OnList) && Is(list[j], clients, OnList)
      ensures !(|Served(list, clients, OnZset, i)| < m <= |Served(list, clients, OnZset, j)|)
    {
      if |Served(list, clients, OnZset, i)| < |Served(list, clients, OnZset, j)| {
        OneInBetween(list, clients, OnZset, i, j);
      }
    }
  }

  lemma UnstraddledOrderKept(key: Key, s: State, s1: State)
    requires ZsetServed(key, s, s1) && LessBlocked(s.clients, s1.clients)
    requires NodesDistinct(ListOf(s.waiting, key)) && !Straddled(ListOf(s.waiting, key), s.clients)
    ensures OrderKept(s, s1, key, OnList)
  {
    hide Select, AfterVisiting, LessBlocked, Straddled, NodesDistinct, OthersLeft, Released, Taken, LastBetween;
    var list := ListOf(s.waiting, key);
    UnstraddledKeepsOrder(list, s.clients, Card(s.db, key));
    ZsetKeepsOrderIff(list, s.clients, Card(s.db, key), OnList);
    SelectTwice(list, s.clients, s1.clients, OnList);
    SelectTwice(ListOf(s1.waiting, key), s.clients, s1.clients, OnList);
  }

  /** A sorted set that is still there was served to everyone who waits for one, or is empty. */
  lemma NoneLeftToStraddle(key: Key, s: State, s1: State)
    requires ZsetServed(key, s, s1) && LessBlocked(s.clients, s1.clients) && IsZset(s.db, key) && IsZset(s1.db, key)
    requires !Straddled(ListOf(s.waiting, key), s.clients)
    ensures !Straddled(ListOf(s1.waiting, key), s1.clients)
  {
    hide Select, Straddled, OthersLeft, Released, ZsetStop, Is, LessBlocked;
    var list, card := ListOf(s.waiting, key), Card(s.db, key);
    var n := ZsetStop(list, s.clients, card, 0);
    StartVisiting(list, s.clients, OnZset);
    ZsetStopIsLeast(list, s.clients, card, 0);
    FewerStraddle(list, s.clients, s1.clients);
    if n == |list| {
      assert list[..n] == list && list[n..] == [];
      SelectMembers(list, s.clients, OnZset, false);
      var rest := ListOf(s1.waiting, key);
      forall x | 0 <= x < |rest|
        ensures !Is(rest[x], s1.clients, OnZset)
      {
        assert rest[x] in Select(list, s.clients, OnZset, false);
        NoNewType(rest[x], s.clients, s1.clients, OnZset);
      }
      NobodyStraddles(rest, s1.clients);
    } else {
      assert n == 0;
    }
  }

  lemma NoNewType(e: Entry, c: Clients, c1: Clients, t: BlockType)
    requires LessBlocked(c, c1) && t != NotBlocked
    ensures Is(e, c1, t) ==> Is(e, c, t)
  {
  }

  lemma FewerStraddle(list: seq<Entry>, c: Clients, c1: Clients)
    requires LessBlocked(c, c1) && !Straddled(list, c)
    ensures !Straddled(list, c1)
  {
    hide Is, LessBlocked;
    forall e: Entry
      ensures Is(e, c1, OnList) ==> Is(e, c, OnList)
      ensures Is(e, c1, OnZset) ==> Is(e, c, OnZset)
    {
      NoNewType(e, c, c1, OnList);
      NoNewType(e, c, c1, OnZset);
    }
  }

  lemma NobodyStraddles(list: seq<Entry>, clients: Clients)
    requires forall x :: 0 <= x < |list| ==> !Is(list[x], clients, OnZset)
    ensures !Straddled(list, clients)
  {
  }

  /** Serving a key leaves the lists of the others alone, but for the clients let go. */
  lemma OtherListsLeft(key: Key, s: State, s1: State, wakes: ClientId -> bool, k: Key)
    requires KeyServed(key, s, s1, wakes) && k != key
    ensures s1 == s || LeftBehind(s.waiting, s1.waiting, s1.clients, k)
  {
    hide StillBlocked, AfterVisiting, Served, ListStop, ZsetStop, ServedAll, Taken, Released;
  }

  // ----- any number of keys

  /** The key is no sorted set, or none of those who wait for one stands between two clients for a list. */
  ghost predicate Calm(s: State, k: Key) {
    IsZset(s.db, k) ==> !Straddled(ListOf(s.waiting, k), s.clients)
  }

  ghost predicate ListsInOrder(s0: State, s: State, k: Key) {
    OrderKept(s0, s, k, OnList) && InOrder(s0, s, k, OnList) && Calm(s, k)
  }

  ghost predicate ZsetsInOrder(s0: State, s: State, k: Key) {
    (IsZset(s.db, k) ==> IsZset(s0.db, k) && OrderKept(s0, s, k, OnZset)) && InOrder(s0, s, k, OnZset)
  }

  /** What serving any number of keys has made of s0. */
  ghost predicate Handled(s0: State, s: State) {
    && Accounted(s0, s)
    && (forall k :: Calm(s0, k) ==> ListsInOrder(s0, s, k))
    && (forall k :: ZsetsInOrder(s0, s, k))
  }

  lemma NothingHandled(s: State)
    ensures Handled(s, s)
  {
    hide Select, Straddled;
  }

  lemma StepKeepsCalm(key: Key, s: State, s1: State, wakes: ClientId -> bool, t: BlockType, served: seq<Entry>, k: Key)
    requires KeyServed(key, s, s1, wakes) && Effect(key, s, s1, t, served) && Agree(s.waiting, s.clients)
    requires Calm(s, k) && (forall q :: IsZset(s1.db, q) ==> IsZset(s.db, q))
    requires (t == OnZset <==> IsZset(s.db, key)) && t != OnStream
    ensures Calm(s1, k) && OrderKept(s, s1, k, OnList)
  {
    hide OrderKept, Straddled, Select, ListServed, ZsetServed, StreamServed, LessBlocked, RepliesFollow, Listed,
         NodesDistinct;
    assert LessBlocked(s.clients, s1.clients);
    if k != key {
      OtherListsLeft(key, s, s1, wakes, k);
      if IsZset(s1.db, k) && s1 != s {
        LeavingKeepsUnstraddled(ListOf(s.waiting, k), s.clients, s1.clients);
      }
    } else if IsZset(s.db, key) {
      DistinctNodes(s.waiting, s.clients, key);
      UnstraddledOrderKept(key, s, s1);
      if IsZset(s1.db, key) {
        NoneLeftToStraddle(key, s, s1);
      }
    }
  }

  lemma DistinctNodes(waiting: Waiting, clients: Clients, k: Key)
    requires Agree(waiting, clients)
    ensures NodesDistinct(ListOf(waiting, k))
  {
  }

  lemma HandledStep(s0: State, key: Key, s: State, s1: State, wakes: ClientId -> bool)
    requires Handled(s0, s) && KeyServed(key, s, s1, wakes)
    requires Agree(s0.waiting, s0.clients) && Agree(s.waiting, s.clients)
    requires ClientsDistinct(ListOf(s.waiting, key))
    ensures Handled(s0, s1)
  {
    hide Agree, Accounted, KeyServed, Effect, InOrder, OrderKept, ClientsDistinct, Calm;
    var t, served := KeyEffect(key, s, s1, wakes);
    StepKeepsAccounted(s0, key, s, s1, t, served);
    AccountedIsLess(s0, s);
    forall k | Calm(s0, k)
      ensures ListsInOrder(s0, s1, k)
    {
      assert ListsInOrder(s0, s, k);
      StepKeepsCalm(key, s, s1, wakes, t, served, k);
      StepKeepsInOrder(s0, key, s, s1, t, served, k, OnList);
      EffectIsLess(key, s, s1, t, served);
      OrderChains(s0, s, s1, k, OnList);
    }
    forall k
      ensures ZsetsInOrder(s0, s1, k)
    {
      assert ZsetsInOrder(s0, s, k);
      StepKeepsInOrder(s0, key, s, s1, t, served, k, OnZset);
      if IsZset(s1.db, k) {
        OrderStep(s0, key, s, s1, t, served, k, OnZset);
      }
    }
  }

  lemma EffectIsLess(key: Key, s: State, s1: State, t: BlockType, served: seq<Entry>)
    requires Effect(key, s, s1, t, served)
    ensures LessBlocked(s.clients, s1.clients)
  {
    hide OrderKept, LessBlocked, RepliesFollow, Select, Listed;
  }

  lemma AccountedIsLess(s0: State, s: State)
    requires Accounted(s0, s)
    ensures LessBlocked(s0.clients, s.clients) && |s0.replies| <= |s.replies|
  {
  }

  lemma OrderStep(s0: State, key: Key, s: State, s1: State, t: BlockType, served: seq<Entry>, k: Key, u: BlockType)
    requires Effect(key, s, s1, t, served) && OrderKept(s0, s, k, u) && Replied(u)
    requires k != key || t == NotBlocked || u == t
    ensures OrderKept(s0, s1, k, u)
  {
    hide OrderKept, LessBlocked, RepliesFollow, Select, Listed;
    OrderChains(s0, s, s1, k, u);
  }
}
