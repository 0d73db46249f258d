/**
 Clients that block on keys: blocking, unblocking, signalling and serving them, as the
 server does it in place. The tables of BlockedIndex, the counters, the queue of ready
 keys and the queue of unblocked clients stay in agreement through every operation.
 */
module Blocked {
  import opened Prelude
  import opened BlockedIndex
  import opened BlockedService
  import opened BlockedSpec
  import opened BlockedOrder

  // ----- the rest of the invariant

  predicate NoDup<T(==)>(s: seq<T>) {
    forall i, j :: 0 <= i < j < |s| ==> s[i] != s[j]
  }

  function OfType(clients: Clients, t: BlockType): set<ClientId> {
    set c | c in clients && clients[c].btype == t
  }

  function AllBlocked(clients: Clients): set<ClientId> {
    set c | c in clients && clients[c].btype != NotBlocked
  }

  /** blocked_clients and blocked_clients_by_type hold the true counts. */
  ghost predicate CountersRight(clients: Clients, total: nat, byType: map<BlockType, nat>) {
    && total == |AllBlocked(clients)|
    && forall t :: t != NotBlocked ==> t in byType && byType[t] == |OfType(clients, t)|
  }

  /** A client waits for keys exactly while it is blocked, and has a target only then. */
  ghost predicate TypesRight(clients: Clients) {
    forall c :: c in clients ==>
      (clients[c].keys == map[] <==> clients[c].btype == NotBlocked)
      && (clients[c].btype == NotBlocked ==> clients[c].target == None)
  }

  /** CLIENT_UNBLOCKED is set exactly for the clients in the queue, which holds each once. */
  ghost predicate QueueRight(clients: Clients, queue: seq<ClientId>) {
    && NoDup(queue)
    && (forall c :: c in queue ==> c in clients && clients[c].unblocked)
    && (forall c :: c in clients && clients[c].unblocked ==> c in queue)
  }

  /** The list of ready keys and the dictionary beside it hold the same keys, each once. */
  ghost predicate ReadyRight(keys: seq<Key>, dict: set<Key>) {
    NoDup(keys) && forall k :: k in dict <==> k in keys
  }

  /** getBlockedTypeByType */
  function BlockTypeOf(o: Obj): BlockType {
    match o
    case ListObj(_) => OnList
    case ZsetObj(_) => OnZset
    case StreamObj => OnStream
    case PlainObj => NotBlocked
  }

  // ----- counting

  lemma Retyped(clients: Clients, c: ClientId, client: Client)
    requires c in clients
    ensures var clients1 := clients[c := client];
            var old_, new_ := clients[c].btype, client.btype;
            && (forall t ::
                  OfType(clients1, t) == (if t == new_ then OfType(clients, t) + {c} else OfType(clients, t) - {c}))
            && AllBlocked(clients1)
                 == (if new_ != NotBlocked then AllBlocked(clients) + {c} else AllBlocked(clients) - {c})
            && (forall t :: c in OfType(clients, t) <==> t == old_)
            && (c in AllBlocked(clients) <==> old_ != NotBlocked)
  {
  }

  lemma CountsWhenBlocked(clients: Clients, c: ClientId, client: Client, total: nat, byType: map<BlockType, nat>)
    requires c in clients && clients[c].btype == NotBlocked && client.btype != NotBlocked
             && CountersRight(clients, total, byType)
    ensures CountersRight(clients[c := client], total + 1, byType[client.btype := byType[client.btype] + 1])
  {
    hide OfType, AllBlocked;
    Retyped(clients, c, client);
    forall t | t != NotBlocked
      ensures |OfType(clients[c := client], t)| == |OfType(clients, t)| + if t == client.btype then 1 else 0
    {
      assert c !in OfType(clients, t);
    }
  }

  lemma CountsWhenUnblocked(clients: Clients, c: ClientId, client: Client, total: nat, byType: map<BlockType, nat>)
    requires c in clients && clients[c].btype != NotBlocked && client.btype == NotBlocked
             && CountersRight(clients, total, byType)
    ensures total > 0 && byType[clients[c].btype] > 0
    ensures CountersRight(clients[c := client], total - 1, byType[clients[c].btype := byType[clients[c].btype] - 1])
  {
    hide OfType, AllBlocked;
    Retyped(clients, c, client);
    assert c in AllBlocked(clients) && c in OfType(clients, clients[c].btype);
    forall t | t != NotBlocked
      ensures |OfType(clients[c := client], t)| == |OfType(clients, t)| - if t == clients[c].btype then 1 else 0
    {
      assert t != clients[c].btype ==> OfType(clients, t) - {c} == OfType(clients, t);
    }
  }

  lemma CountsWhenSame(clients: Clients, c: ClientId, client: Client, total: nat, byType: map<BlockType, nat>)
    requires c in clients && clients[c].btype == client.btype && CountersRight(clients, total, byType)
    ensures CountersRight(clients[c := client], total, byType)
  {
    hide OfType, AllBlocked;
    Retyped(clients, c, client);
    forall t
      ensures OfType(clients[c := client], t) == OfType(clients, t)
    {
      assert c in OfType(clients, t) <==> t == client.btype;
    }
    assert AllBlocked(clients[c := client]) == AllBlocked(clients);
  }

  /** Each key of ks got the client at the tail of its list; no other list changed. */
  ghost predicate Appended(w0: Waiting, w1: Waiting, ks: map<Key, nat>, c: ClientId) {
    forall k :: ListOf(w1, k) == if k in ks then ListOf(w0, k) + [Entry(ks[k], c)] else ListOf(w0, k)
  }

  lemma {:induction false} RemoveNodeMembers(list: seq<Entry>, node: nat)
    ensures forall e :: e in RemoveNode(list, node) ==> e in list
  {
    if list != [] {
      RemoveNodeMembers(list[1..], node);
      assert list == [list[0]] + list[1..];
    }
  }

  lemma NodesStayBelow(w: Waiting, k: Key, node: nat, next: nat)
    requires NodesBelow(w, next) && k in w
    ensures NodesBelow(Without(w, k, node), next)
  {
    RemoveNodeMembers(w[k], node);
  }

  /** One round of unblockClientWaitingData. */
  lemma LeaveList(w0: Waiting, w: Waiting, clients: Clients, c: ClientId, keys: map<Key, nat>, rest: map<Key, nat>,
                  k: Key, next: nat)
    requires c in clients && k in rest && (forall q :: q in rest ==> q in keys && rest[q] == keys[q])
    requires Agree(w, clients[c := clients[c].(keys := rest)]) && NodesBelow(w, next)
    requires Removed(w0, w, keys - rest.Keys)
    ensures k in w
    ensures var w1, rest1 := Without(w, k, rest[k]), rest - {k};
            && Agree(w1, clients[c := clients[c].(keys := rest1)]) && NodesBelow(w1, next)
            && Removed(w0, w1, keys - rest1.Keys)
  {
    hide Agree, NodesBelow, Removed, Without;
    var clients1 := clients[c := clients[c].(keys := rest)];
    RemovedKeyAgrees(w, clients1, c, k);
    assert clients1[c := WithoutKey(clients1[c], k)] == clients[c := clients[c].(keys := rest - {k})];
    NodesStayBelow(w, k, rest[k], next);
    RemovedMore(w0, w, keys - rest.Keys, k, rest[k]);
    assert (keys - rest.Keys)[k := rest[k]] == keys - (rest - {k}).Keys;
  }

  lemma QueueTaken(clients: Clients, queue: seq<ClientId>)
    requires queue != [] && QueueRight(clients, queue)
    ensures queue[0] in clients && QueueRight(clients[queue[0] := clients[queue[0]].(unblocked := false)], queue[1..])
  {
    assert queue[0] in queue;
    assert queue == [queue[0]] + queue[1..];
    assert queue[0] !in queue[1..];
  }

  lemma AppendedNothing(w: Waiting, c: ClientId)
    ensures Appended(w, w, map[], c)
  {
  }

  lemma AppendedMore(w0: Waiting, w: Waiting, ks: map<Key, nat>, c: ClientId, k: Key, node: nat)
    requires Appended(w0, w, ks, c) && k !in ks
    ensures Appended(w0, w[k := ListOf(w, k) + [Entry(node, c)]], ks[k := node], c)
  {
  }

  // ----- the server

  function NewClient(): Client {
    Client(NotBlocked, map[], None, Head, Head, false)
  }

  class Server {
    var waiting: Waiting
    var clients: Clients
    var nextNode: nat
    var blockedClients: nat
    var byType: map<BlockType, nat>
    var readyKeys: seq<Key>
    var readyDict: set<Key>
    var unblocked: seq<ClientId>
    var db: Db
    var replies: seq<Reply>

    constructor (clients: set<ClientId>, db: Db)
      ensures Coherent() && ReadyRight(readyKeys, readyDict) && this.db == db && this.clients.Keys == clients
      ensures readyKeys == [] && replies == [] && NobodyMissed(this.db, waiting, this.clients, readyDict, {})
      ensures waiting == map[] && nextNode == 0 && forall c :: c in clients ==> this.clients[c] == NewClient()
    {
      waiting, nextNode, blockedClients := map[], 0, 0;
      this.clients := map c | c in clients :: NewClient();
      byType := map[OnList := 0, OnZset := 0, OnStream := 0];
      readyKeys, readyDict, unblocked, replies := [], {}, [], [];
      this.db := db;
      new;
      assert AllBlocked(this.clients) == {};
      forall t | t != NotBlocked
        ensures t in byType && byType[t] == |OfType(this.clients, t)|
      {
        assert OfType(this.clients, t) == {};
      }
    }

    ghost function View(): State
      reads this`waiting, this`clients, this`db, this`replies
    {
      State(waiting, clients, db, replies)
    }

    ghost function Tables(): Index
      reads this`waiting, this`clients, this`nextNode
    {
      Index(waiting, KeysOfAll(clients), nextNode)
    }

    /** Everything but the ready keys. */
    ghost predicate Coherent()
      reads this`waiting, this`clients, this`nextNode, this`blockedClients, this`byType, this`unblocked
    {
      && Agree(waiting, clients) && NodesBelow(waiting, nextNode)
      && CountersRight(clients, blockedClients, byType)
      && TypesRight(clients)
      && QueueRight(clients, unblocked)
    }

    /** blockForKeys, one round of its loop: one key for one client. */
    method WaitForKey(c: ClientId, k: Key)
      requires Agree(waiting, clients) && NodesBelow(waiting, nextNode) && c in clients
      modifies this`waiting, this`clients, this`nextNode
      ensures Agree(waiting, clients) && NodesBelow(waiting, nextNode)
      ensures if k in old(clients)[c].keys then waiting == old(waiting) && clients == old(clients)
              else waiting == old(waiting)[k := ListOf(old(waiting), k) + [Entry(old(nextNode), c)]]
                   && clients == old(clients)[c := WithKey(old(clients)[c], k, old(nextNode))]
      ensures Tables() == Joined(old(Tables()), c, k)
    {
      hide Agree, NodesBelow, ListOf;
      ghost var keys: map<Key, nat> := clients[c].keys[k := nextNode];
      assert KeysOfAll(clients[c := WithKey(clients[c], k, nextNode)]) == KeysOfAll(clients)[c := keys];
      if k in clients[c].keys { return; }
      AddedKeyAgrees(waiting, clients, c, k, nextNode);
      clients := clients[c := WithKey(clients[c], k, nextNode)];
      waiting := waiting[k := ListOf(waiting, k) + [Entry(nextNode, c)]];
      nextNode := nextNode + 1;
    }

    /** blockClient */
    method BlockClient(c: ClientId, btype: BlockType)
      requires c in clients && clients[c].btype == NotBlocked && btype != NotBlocked
      requires CountersRight(clients, blockedClients, byType)
      modifies this`clients, this`blockedClients, this`byType
      ensures clients == old(clients)[c := old(clients)[c].(btype := btype)]
      ensures CountersRight(clients, blockedClients, byType)
      ensures blockedClients == old(blockedClients) + 1
    {
      hide CountersRight;
      CountsWhenBlocked(clients, c, clients[c].(btype := btype), blockedClients, byType);
      assert btype in byType by { CounterThere(clients, blockedClients, byType, btype); }
      blockedClients := blockedClients + 1;
      byType := byType[btype := byType[btype] + 1];
      clients := clients[c := clients[c].(btype := btype)];
    }

    /** The loop of blockForKeys. */
    method WaitForKeys(c: ClientId, keys: seq<Key>)
      requires Agree(waiting, clients) && NodesBelow(waiting, nextNode) && c in clients && clients[c].keys == map[]
      modifies this`waiting, this`clients, this`nextNode
      ensures Agree(waiting, clients) && NodesBelow(waiting, nextNode)
      ensures c in clients && clients == old(clients)[c := old(clients)[c].(keys := clients[c].keys)]
      ensures forall k :: k in clients[c].keys <==> k in keys
      ensures Appended(old(waiting), waiting, clients[c].keys, c)
      ensures Tables() == JoinedAll(old(Tables()), c, keys)
    {
      hide Agree, NodesBelow, Appended, ListOf, Joined, KeysOfAll;
      assert keys[..0] == [];
      HasKeys(clients, c);
      AppendedNothing(waiting, c);
      for j := 0 to |keys|
        invariant Agree(waiting, clients) && NodesBelow(waiting, nextNode)
        invariant c in clients && clients == old(clients)[c := old(clients)[c].(keys := clients[c].keys)]
        invariant forall k :: k in clients[c].keys <==> k in keys[..j]
        invariant Appended(old(waiting), waiting, clients[c].keys, c)
        invariant Tables() == JoinedAll(old(Tables()), c, keys[..j])
      {
        HasKeys(clients, c);
        JoinedOneMore(old(Tables()), c, keys, j);
        if keys[j] !in clients[c].keys {
          AppendedMore(old(waiting), waiting, clients[c].keys, c, keys[j], nextNode);
        }
        WaitForKey(c, keys[j]);
        assert keys[..j + 1] == keys[..j] + [keys[j]];
      }
      assert keys[..|keys|] == keys;
    }

    /** blockForKeys */
    method BlockForKeys(c: ClientId, btype: BlockType, keys: seq<Key>, target: Option<Key>, from: Side, to: Side)
      requires Coherent() && c in clients && clients[c].btype == NotBlocked && btype != NotBlocked && keys != []
      modifies this`waiting, this`clients, this`nextNode, this`blockedClients, this`byType
      ensures Coherent()
      ensures c in clients && (forall k :: k in clients[c].keys <==> k in keys)
      ensures clients
                == old(clients)[c := Client(btype, clients[c].keys, target, from, to, old(clients)[c].unblocked)]
      ensures Appended(old(waiting), waiting, clients[c].keys, c) && c in old(Tables()).keys
      ensures Tables() == JoinedAll(old(Tables()), c, keys)
      ensures blockedClients == old(blockedClients) + 1
      ensures NobodyMissed(db, waiting, clients, readyDict, {}) <==>
                && NobodyMissed(db, old(waiting), old(clients), readyDict, {})
                && (btype == OnList ==> forall k :: k in keys && HasElements(db, k) ==> k in readyDict)
    {
      hide Agree, NodesBelow, CountersRight, QueueRight, Appended, NobodyMissed, HasElements, KeysOfAll, JoinedAll;
      ghost var c0, w0 := clients, waiting;
      HasKeys(clients, c);
      SameKeys(clients, c, clients[c].(target := target, from := from, to := to));
      RecordChanged(waiting, clients, c, clients[c].(target := target, from := from, to := to));
      clients := clients[c := clients[c].(target := target, from := from, to := to)];
      WaitForKeys(c, keys);
      assert keys[0] in clients[c].keys;
      SameKeys(clients, c, clients[c].(btype := btype));
      CountsWhenSame(c0, c, clients[c], blockedClients, byType);
      assert clients == c0[c := clients[c]];
      RecordChanged(waiting, clients, c, clients[c].(btype := btype));
      BlockClient(c, btype);
      assert clients == c0[c := clients[c]];
      QueueKept(c0, c, clients[c], unblocked);
      BlockingMissesNobodyIff(db, w0, c0, waiting, clients, c, readyDict);
    }

    /** The loop of unblockClientWaitingData: the client leaves every list at the node it remembers. */
    method LeaveLists(c: ClientId)
      requires Agree(waiting, clients) && NodesBelow(waiting, nextNode) && c in clients
      modifies this`waiting
      ensures Agree(waiting, clients[c := clients[c].(keys := map[])]) && NodesBelow(waiting, nextNode)
      ensures Removed(old(waiting), waiting, clients[c].keys)
    {
      hide Agree, NodesBelow, Removed;
      var keys := clients[c].keys;
      var rest := keys;
      RemovedNothing(waiting, keys);
      assert clients[c := clients[c].(keys := rest)] == clients;
      while rest != map[]
        invariant forall k :: k in rest ==> k in keys && rest[k] == keys[k]
        invariant Agree(waiting, clients[c := clients[c].(keys := rest)]) && NodesBelow(waiting, nextNode)
        invariant Removed(old(waiting), waiting, keys - rest.Keys)
        decreases |rest|
      {
        var k: Key :| k in rest;
        LeaveList(old(waiting), waiting, clients, c, keys, rest, k, nextNode);
        waiting := Without(waiting, k, rest[k]);
        rest := rest - {k};
      }
      assert keys - rest.Keys == keys;
    }

    /** unblockClientWaitingData */
    method UnblockClientWaitingData(c: ClientId)
      requires Agree(waiting, clients) && NodesBelow(waiting, nextNode) && c in clients && clients[c].keys != map[]
      modifies this`waiting, this`clients
      ensures Agree(waiting, clients) && NodesBelow(waiting, nextNode)
      ensures clients == old(clients)[c := old(clients)[c].(keys := map[], target := None)]
      ensures Removed(old(waiting), waiting, old(clients)[c].keys)
    {
      hide Agree, NodesBelow, Removed;
      LeaveLists(c);
      ghost var left := clients[c := clients[c].(keys := map[])];
      RecordChanged(waiting, left, c, clients[c].(keys := map[], target := None));
      clients := clients[c := clients[c].(keys := map[], target := None)];
      assert left[c := clients[c]] == clients;
    }

    /** queueClientForReprocessing */
    method QueueClientForReprocessing(c: ClientId)
      requires c in clients && QueueRight(clients, unblocked)
      modifies this`clients, this`unblocked
      ensures QueueRight(clients, unblocked)
      ensures clients == old(clients)[c := old(clients)[c].(unblocked := true)]
      ensures unblocked == if old(clients)[c].unblocked then old(unblocked) else old(unblocked) + [c]
    {
      if !clients[c].unblocked {
        assert c !in unblocked;
        clients := clients[c := clients[c].(unblocked := true)];
        unblocked := unblocked + [c];
      } else {
        assert clients == clients[c := clients[c].(unblocked := true)];
      }
    }

    /** The head of the loop of processUnblockedClients: the first client leaves the queue. */
    method NextUnblocked() returns (c: ClientId)
      requires Coherent() && unblocked != []
      modifies this`clients, this`unblocked
      ensures Coherent()
      ensures c == old(unblocked)[0] && unblocked == old(unblocked)[1..]
      ensures c in old(clients) && clients == old(clients)[c := old(clients)[c].(unblocked := false)]
    {
      hide Agree, NodesBelow, CountersRight;
      c := unblocked[0];
      assert c in unblocked;
      RecordChanged(waiting, clients, c, clients[c].(unblocked := false));
      CountsWhenSame(clients, c, clients[c].(unblocked := false), blockedClients, byType);
      QueueTaken(clients, unblocked);
      clients := clients[c := clients[c].(unblocked := false)];
      unblocked := unblocked[1..];
    }

    /** unblockClient, for the types that wait for keys. */
    method UnblockClient(c: ClientId)
      requires Coherent() && c in clients && clients[c].btype != NotBlocked
      modifies this`waiting, this`clients, this`blockedClients, this`byType, this`unblocked
      ensures Coherent()
      ensures clients == old(clients)[c := Freed(old(clients)[c])]
      ensures Removed(old(waiting), waiting, old(clients)[c].keys)
      ensures blockedClients == old(blockedClients) - 1
      ensures unblocked == if old(clients)[c].unblocked then old(unblocked) else old(unblocked) + [c]
    {
      hide Agree, NodesBelow, CountersRight, QueueRight, Removed;
      ghost var c0 := clients;
      UnblockClientWaitingData(c);
      ghost var freed := Freed(c0[c]);
      RecordChanged(waiting, clients, c, freed);
      assert clients[c := freed] == c0[c := freed];
      CountsWhenUnblocked(c0, c, freed, blockedClients, byType);
      assert clients[c].btype in byType by { CounterThere(c0, blockedClients, byType, clients[c].btype); }
      blockedClients := blockedClients - 1;
      byType := byType[clients[c].btype := byType[clients[c].btype] - 1];
      clients := clients[c := clients[c].(btype := NotBlocked)];
      assert clients == c0[c := clients[c]];
      QueueKept(c0, c, clients[c], unblocked);
      QueueClientForReprocessing(c);
      assert clients == c0[c := freed];
    }

    /**
     signalKeyAsReady; pending are the ready keys already taken off the server's list but
     not yet served.
     */
    method SignalKeyAsReady(k: Key, o: Obj, ghost pending: seq<Key>)
      requires Coherent() && ReadyRight(pending + readyKeys, readyDict)
      modifies this`readyKeys, this`readyDict
      ensures ReadyRight(pending + readyKeys, readyDict)
      ensures var t := BlockTypeOf(o);
              if t != NotBlocked && byType[t] > 0 && k in waiting && k !in old(readyDict)
              then readyKeys == old(readyKeys) + [k] && readyDict == old(readyDict) + {k}
              else readyKeys == old(readyKeys) && readyDict == old(readyDict)
    {
      hide Agree, NodesBelow, TypesRight, QueueRight, OfType, AllBlocked;
      var t := BlockTypeOf(o);
      if t == NotBlocked { return; }
      if byType[t] == 0 { return; }
      if k !in waiting { return; }
      if k in readyDict { return; }
      assert pending + (readyKeys + [k]) == (pending + readyKeys) + [k];
      readyKeys := readyKeys + [k];
      readyDict := readyDict + {k};
    }

    /** The pop, the push to a target, and the reply; the list at key is not empty. */
    method ServeValue(key: Key, c: ClientId, ghost pending: seq<Key>)
      requires Coherent() && ReadyRight(pending + readyKeys, readyDict)
      requires HasElements(db, key) && c in clients && clients[c].btype == OnList
      modifies this`db, this`replies, this`readyKeys, this`readyDict
      ensures ReadyRight(pending + readyKeys, readyDict)
      ensures db == ServedDb(old(db), key, clients[c])
      ensures replies == old(replies) + [ServedReply(old(db), key, c, clients[c])]
      ensures old(readyKeys) <= readyKeys && |readyKeys| <= |old(readyKeys)| + 1 && old(readyDict) <= readyDict
      ensures OnlyNewReady(old(db), old(readyDict), readyDict)
      ensures var target := clients[c].target;
              target.Some? && target.value !in old(db) && target.value in waiting ==> target.value in readyDict
    {
      hide Agree, NodesBelow, TypesRight, QueueRight, AllBlocked, ReadyRight;
      ghost var db0 := db;
      var client := clients[c];
      var v := PopValue(db[key].elems, client.from);
      PushPop(db[key].elems, client.from);
      db := db[key := ListObj(PopRest(db[key].elems, client.from))];
      match client.target {
        case None => replies := replies + [Popped(c, key, v)];
        case Some(dst) =>
          if dst in db && !db[dst].ListObj? {
            db := db[key := ListObj(Push(db[key].elems, v, client.from))];
            assert db == db0;
            replies := replies + [WrongType(c, key)];
          } else {
            if dst !in db {
              TypeCounted(clients, c, blockedClients, byType);
              db := db[dst := ListObj([])];
              SignalKeyAsReady(dst, db[dst], pending);
              assert db[dst := ListObj([v])] == db0[key := db[key]][dst := ListObj([v])];
            }
            PushToEmpty(v, client.to);
            db := db[dst := ListObj(Push(db[dst].elems, v, client.to))];
            replies := replies + [Moved(c, key, v)];
          }
      }
    }

    /** Serving one client blocked on the list at key, and letting it go. */
    method ServeClient(key: Key, c: ClientId, ghost pending: seq<Key>, ghost missed: set<Key>)
      requires Coherent() && ReadyRight(pending + readyKeys, readyDict)
      requires HasElements(db, key) && c in clients && clients[c].btype == OnList
      requires NobodyMissed(db, waiting, clients, readyDict, missed + {key}) && NoEmptyLists(db, {key})
      modifies this`waiting, this`clients, this`blockedClients, this`byType, this`unblocked
      modifies this`db, this`replies, this`readyKeys, this`readyDict
      ensures Coherent() && ReadyRight(pending + readyKeys, readyDict)
      ensures NobodyMissed(db, waiting, clients, readyDict, missed + {key}) && NoEmptyLists(db, {key})
      ensures clients == old(clients)[c := Freed(old(clients)[c])]
              && Removed(old(waiting), waiting, old(clients)[c].keys)
      ensures db == ServedDb(old(db), key, old(clients)[c])
      ensures replies == old(replies) + [ServedReply(old(db), key, c, old(clients)[c])]
      ensures Delivered(old(db), db, key, c, old(clients)[c], replies[|replies| - 1])
      ensures OnlyNewReady(old(db), old(readyDict), readyDict)
      ensures blockedClients + |readyKeys| <= old(blockedClients) + |old(readyKeys)|
    {
      hide Agree, NodesBelow, TypesRight, QueueRight, CountersRight, ReadyRight, Removed, ServedDb, ServedReply,
          NobodyMissed, NoEmptyLists, OnlyNewReady, Delivered;
      ghost var s0, ready0 := View(), readyDict;
      ServingDelivers(db, key, c, clients[c]);
      ServeValue(key, c, pending);
      UnblockClient(c);
      UnblockedWaitsLess(s0.waiting, s0.clients, waiting, c, s0.clients[c].keys);
      ServingMissesNobody(s0, key, s0.clients[c], ready0, waiting, clients, readyDict, missed);
    }

    /**
     In the middle of serving the list: n of the clients that waited were visited, and
     those among them that block on a list were served in turn.
     */
    ghost predicate Serving(p: Pass, n: nat)
      reads this
    {
      var list := ListOf(p.s0.waiting, p.key);
      && n <= |list|
      && Coherent() && ReadyRight(p.pending + readyKeys, readyDict)
      && NobodyMissed(db, waiting, clients, readyDict, p.missed + {p.key}) && NoEmptyLists(db, {p.key})
      && OnlyNewReady(p.s0.db, p.ready, readyDict)
      && p.key in db && db[p.key].ListObj?
      && ListOf(waiting, p.key) == AfterVisiting(list, p.s0.clients, OnList, n)
      && OthersLeft(p.s0.waiting, waiting, clients, p.key)
      && Released(Served(list, p.s0.clients, OnList, n), p.s0.clients, clients)
      && ServedSoFar(p, n)
      && blockedClients + |readyKeys| <= p.bound
    }

    /** What was given out, and that the visit does not stop before n. */
    ghost predicate ServedSoFar(p: Pass, n: nat)
      requires n <= |ListOf(p.s0.waiting, p.key)|
      reads this
    {
      var list := ListOf(p.s0.waiting, p.key);
      && ServedPart(p, n, View())
      && ListStop(list, p.s0.clients, p.s0.db, p.key, n) == ListStop(list, p.s0.clients, p.s0.db, p.key, 0)
    }

    /** The client at the head is of another type: it goes to the tail. */
    method VisitOther(key: Key, ghost p: Pass, ghost n: nat)
      requires p.key == key && Serving(p, n) && n < |ListOf(p.s0.waiting, key)|
      requires !Is(ListOf(p.s0.waiting, key)[n], p.s0.clients, OnList) && key in waiting
      modifies this`waiting
      ensures Serving(p, n + 1)
    {
      hide Agree, NodesBelow, TypesRight, QueueRight, CountersRight, ReadyRight, NoEmptyLists, Released, OnlyNewReady,
           RepliesFollow, AfterVisiting, Served, ServedAll, NobodyMissed, LeftBehind, FindsNothing;
      ghost var list := ListOf(p.s0.waiting, key);
      VisitRotates(list, p.s0.clients, OnList, n);
      StopPassesOther(list, p.s0.clients, p.s0.db, key, n);
      RotatedAgrees(waiting, clients, key);
      RotatedNodes(waiting, key, nextNode);
      RotatedMissesNobody(db, waiting, clients, readyDict, key, p.missed + {key});
      ghost var w0 := waiting;
      waiting := waiting[key := Rotate(waiting[key])];
      OthersUntouched(p.s0.waiting, w0, waiting, clients, key);
    }

    /** The client at the head is blocked on a list: it is served. */
    method VisitListClient(key: Key, ghost p: Pass, ghost n: nat)
      requires p.key == key && Serving(p, n) && n < |ListOf(p.s0.waiting, key)| && ListPass(p)
      requires Is(ListOf(p.s0.waiting, key)[n], p.s0.clients, OnList) && key in waiting && db[key].elems != []
      requires var c := ListOf(p.s0.waiting, key)[n].client; c in clients && clients[c] == p.s0.clients[c]
      modifies this`waiting, this`clients, this`blockedClients, this`byType, this`unblocked
      modifies this`db, this`replies, this`readyKeys, this`readyDict
      ensures Serving(p, n + 1)
    {
      hide Agree, NodesBelow, TypesRight, QueueRight, CountersRight, ReadyRight, NoEmptyLists, Released, OnlyNewReady,
           RepliesFollow, AfterVisiting, Served, ServedAll, NobodyMissed, Removed, ServedDb, ServedReply, OthersLeft,
           FindsNothing, ListStop;
      ghost var list := ListOf(p.s0.waiting, key);
      VisitServes(list, p.s0.clients, OnList, n);
      var c := waiting[key][0].client;
      assert waiting[key][0] == list[n];
      HeadLeaves(waiting, clients, key);
      ghost var s := View();
      ghost var ready0 := readyDict;
      OneMoreServed(p, n, s);
      ServedKeepsList(db, key, clients[c]);
      OneMoreReleased(Served(list, p.s0.clients, OnList, n), list[n], p.s0.clients, clients);
      ServeClient(key, c, pending := p.pending, missed := p.missed);
      HeadLeft(s.waiting, waiting, s.clients[c].keys, key);
      ClientLeavesOthers(p.s0.waiting, s.waiting, waiting, s.clients, c, key);
      NewReadyChains(p, n, s, ready0, readyDict);
    }

    /** The loop over the clients waiting for key. */
    method ServeWaitingClients(key: Key, ghost p: Pass) returns (ghost n: nat)
      requires p == Pass(key, p.pending, View(), readyDict, blockedClients + |readyKeys|, p.missed)
      requires key in waiting && Serving(p, 0) && ListPass(p)
      modifies this`waiting, this`clients, this`blockedClients, this`byType, this`unblocked
      modifies this`db, this`replies, this`readyKeys, this`readyDict
      ensures Serving(p, n) && n == ListStop(ListOf(p.s0.waiting, key), p.s0.clients, p.s0.db, key, 0)
      ensures n < |ListOf(p.s0.waiting, key)| ==> db[key].elems == []
    {
      hide Agree, NodesBelow, TypesRight, QueueRight, CountersRight, ReadyRight, NobodyMissed, NoEmptyLists, Released,
           RepliesFollow, AfterVisiting, Served, ServedAll, ClientsDistinct, OthersLeft, FindsNothing, OnlyNewReady,
           ListStop;
      ghost var list, clients0 := waiting[key], clients;
      ListFacts(waiting, clients, key);
      var numclients := |waiting[key]|;
      n := 0;
      while numclients > 0
        invariant n + numclients == |list|
        invariant Serving(p, n)
      {
        numclients := numclients - 1;
        HeadIsNext(list, clients0, OnList, n);
        NextUntouched(list, clients0, clients, OnList, n);
        var receiver := waiting[key][0].client;
        if clients[receiver].btype != OnList {
          VisitOther(key, p, n);
        } else {
          if db[key].elems == [] {
            StopsHere(p, n, View());
            return;
          }
          VisitListClient(key, p, n);
        }
        n := n + 1;
      }
      StopsAtEnd(list, clients0, p.s0.db, key);
    }

    /**
     serveClientsBlockedOnListKey. The clients blocked on a list are served in the order
     in which they blocked, as far as the elements go; afterwards the list is gone or
     nobody waits for it, and every list that became available on the way is queued.
     */
    method ServeClientsBlockedOnListKey(key: Key, ghost pending: seq<Key>, ghost missed: set<Key>)
      requires Coherent() && ReadyRight(pending + readyKeys, readyDict) && key in db && db[key].ListObj?
      requires NobodyMissed(db, waiting, clients, readyDict, missed + {key}) && NoEmptyLists(db, {key})
      modifies this`waiting, this`clients, this`blockedClients, this`byType, this`unblocked
      modifies this`db, this`replies, this`readyKeys, this`readyDict
      ensures Coherent() && ReadyRight(pending + readyKeys, readyDict)
      ensures NobodyMissed(db, waiting, clients, readyDict, missed) && NoEmptyLists(db, {})
      ensures ListServed(key, old(View()), View())
      ensures key in db ==> !Waits(waiting, clients, key, OnList)
      ensures OnlyNewReady(old(db), old(readyDict), readyDict)
      ensures blockedClients + |readyKeys| <= old(blockedClients) + |old(readyKeys)|
    {
      hide Agree, NodesBelow, TypesRight, QueueRight, CountersRight, ReadyRight, NobodyMissed, NoEmptyLists, Released,
           RepliesFollow, AfterVisiting, Served, ServedAll, Select, Waits, OthersLeft, OnlyNewReady, ListStop, Contents;
      ghost var p := Pass(key, pending, View(), readyDict, blockedClients + |readyKeys|, missed);
      ghost var list, clients0 := ListOf(waiting, key), clients;
      StartServing(p);
      ghost var n := 0;
      if key in waiting {
        n := ServeWaitingClients(key, p);
      }
      if n == |list| {
        NobodyWaits(list, clients0, clients, waiting, key);
      }
      FinishKey(View(), readyDict, key, missed);
      if db[key].elems == [] {
        db := db - {key};
      }
    }

    /** unblockClient, and what it means for the keys that are waited for. */
    method Release(c: ClientId, ghost missed: set<Key>)
      requires Coherent() && c in clients && clients[c].btype != NotBlocked
      requires NobodyMissed(db, waiting, clients, readyDict, missed)
      modifies this`waiting, this`clients, this`blockedClients, this`byType, this`unblocked
      ensures Coherent() && NobodyMissed(db, waiting, clients, readyDict, missed)
      ensures clients == old(clients)[c := Freed(old(clients)[c])]
              && Removed(old(waiting), waiting, old(clients)[c].keys)
      ensures blockedClients < old(blockedClients)
    {
      hide Agree, NodesBelow, TypesRight, QueueRight, CountersRight, NobodyMissed, Removed;
      ghost var w0, c0 := waiting, clients;
      UnblockClient(c);
      UnblockedWaitsLess(w0, c0, waiting, c, c0[c].keys);
      LessMissesNobody(db, w0, c0, readyDict, missed, waiting, clients);
    }

    /** In the middle of serving the sorted set: n of the clients that waited were visited. */
    ghost predicate ServingZset(p: Pass, n: nat)
      reads this
    {
      var list := ListOf(p.s0.waiting, p.key);
      && n <= |list|
      && Coherent() && NobodyMissed(db, waiting, clients, readyDict, p.missed) && NoEmptyLists(db, {})
      && ListOf(waiting, p.key) == AfterVisiting(list, p.s0.clients, OnZset, n)
      && OthersLeft(p.s0.waiting, waiting, clients, p.key)
      && Released(Served(list, p.s0.clients, OnZset, n), p.s0.clients, clients)
      && MembersGone(p, n)
      && blockedClients <= p.bound
    }

    /** The members handed out, and that the visit does not stop before n. */
    ghost predicate MembersGone(p: Pass, n: nat)
      requires n <= |ListOf(p.s0.waiting, p.key)|
      reads this
    {
      var list, card := ListOf(p.s0.waiting, p.key), Card(p.s0.db, p.key);
      var served := Served(list, p.s0.clients, OnZset, n);
      && |served| <= card && db == Taken(p.s0.db, p.key, |served|)
      && replies == p.s0.replies + Members(served, p.key)
      && ZsetStop(list, p.s0.clients, card, n) == ZsetStop(list, p.s0.clients, card, 0)
    }

    method RotateZsetHead(key: Key, ghost p: Pass, ghost n: nat)
      requires p.key == key && ServingZset(p, n) && n < |ListOf(p.s0.waiting, key)| && key in waiting
      requires !Is(ListOf(p.s0.waiting, key)[n], p.s0.clients, OnZset)
      requires |Served(ListOf(p.s0.waiting, key), p.s0.clients, OnZset, n)| < Card(p.s0.db, key)
      modifies this`waiting
      ensures ServingZset(p, n + 1)
      ensures Served(ListOf(p.s0.waiting, key), p.s0.clients, OnZset, n + 1)
           == Served(ListOf(p.s0.waiting, key), p.s0.clients, OnZset, n)
    {
      hide Agree, NodesBelow, TypesRight, QueueRight, CountersRight, NoEmptyLists, Released, AfterVisiting, Served,
           NobodyMissed, LeftBehind, Taken, Members;
      VisitRotates(ListOf(p.s0.waiting, key), p.s0.clients, OnZset, n);
      RotatedAgrees(waiting, clients, key);
      RotatedNodes(waiting, key, nextNode);
      RotatedMissesNobody(db, waiting, clients, readyDict, key, p.missed);
      ghost var w0 := waiting;
      waiting := waiting[key := Rotate(waiting[key])];
      OthersUntouched(p.s0.waiting, w0, waiting, clients, key);
    }

    /** One member is popped from the sorted set for the client at the head. */
    method ServeZsetHead(key: Key, ghost p: Pass, ghost n: nat)
      requires p.key == key && ServingZset(p, n) && n < |ListOf(p.s0.waiting, key)| && key in waiting
      requires key in db && db[key].ZsetObj? && db[key].card > 0
      requires |Served(ListOf(p.s0.waiting, key), p.s0.clients, OnZset, n)| < Card(p.s0.db, key)
      requires Is(ListOf(p.s0.waiting, key)[n], p.s0.clients, OnZset)
      requires var c := ListOf(p.s0.waiting, key)[n].client; c in clients && clients[c] == p.s0.clients[c]
      modifies this`waiting, this`clients, this`blockedClients, this`byType, this`unblocked, this`db, this`replies
      ensures ServingZset(p, n + 1)
      ensures |Served(ListOf(p.s0.waiting, key), p.s0.clients, OnZset, n + 1)|
           == |Served(ListOf(p.s0.waiting, key), p.s0.clients, OnZset, n)| + 1
    {
      hide Agree, NodesBelow, TypesRight, QueueRight, CountersRight, NoEmptyLists, Released, AfterVisiting, Served,
           NobodyMissed, Removed, OthersLeft, Members;
      ghost var list := ListOf(p.s0.waiting, key);
      VisitServes(list, p.s0.clients, OnZset, n);
      var c := waiting[key][0].client;
      assert waiting[key][0] == list[n];
      HeadLeaves(waiting, clients, key);
      ghost var served := Served(list, p.s0.clients, OnZset, n);
      OneMoreReleased(served, list[n], p.s0.clients, clients);
      OneMoreMember(p.s0.replies, served, list[n], key);
      OneMoreTaken(p.s0.db, key, |served|);
      OtherObjectChanged(db, key, ZsetObj(db[key].card - 1), waiting, clients, readyDict, p.missed);
      db := if db[key].card == 1 then db - {key} else db[key := ZsetObj(db[key].card - 1)];
      replies := replies + [Member(c, key)];
      ghost var w0, clients0 := waiting, clients;
      Release(c, p.missed);
      HeadLeft(w0, waiting, clients0[c].keys, key);
      ClientLeavesOthers(p.s0.waiting, w0, waiting, clients0, c, key);
    }

    /**
     serveClientsBlockedOnSortedSetKey. One member each for the first clients that wait
     for one. It stops behind the client that takes the last member, so clients blocked
     for other types may end up behind ones that came later.
     */
    method ServeClientsBlockedOnSortedSetKey(key: Key, ghost missed: set<Key>)
      requires Coherent() && key in db && db[key].ZsetObj?
      requires NobodyMissed(db, waiting, clients, readyDict, missed) && NoEmptyLists(db, {})
      modifies this`waiting, this`clients, this`blockedClients, this`byType, this`unblocked, this`db, this`replies
      ensures Coherent() && NobodyMissed(db, waiting, clients, readyDict, missed) && NoEmptyLists(db, {})
      ensures ZsetServed(key, old(View()), View())
      ensures blockedClients <= old(blockedClients)
    {
      hide Agree, NodesBelow, TypesRight, QueueRight, CountersRight, NobodyMissed, NoEmptyLists, Released,
           AfterVisiting, Served, ClientsDistinct, OthersLeft, Members;
      ghost var p := Pass(key, [], View(), readyDict, blockedClients, missed);
      ghost var list, clients0, card := ListOf(waiting, key), clients, db[key].card;
      StartServingZset(p);
      if key !in waiting { return; }
      ListFacts(waiting, clients, key);
      var numclients, zcard := |waiting[key]|, db[key].card;
      ghost var n: nat := 0;
      while numclients > 0 && zcard > 0
        invariant n + numclients == |list|
        invariant ServingZset(p, n)
        invariant zcard + |Served(list, clients0, OnZset, n)| == card
        decreases numclients
      {
        numclients := numclients - 1;
        HeadIsNext(list, clients0, OnZset, n);
        NextUntouched(list, clients0, clients, OnZset, n);
        var receiver := waiting[key][0].client;
        if clients[receiver].btype != OnZset {
          RotateZsetHead(key, p, n);
        } else {
          ServeZsetHead(key, p, n);
          zcard := zcard - 1;
        }
        n := n + 1;
      }
      assert n == ZsetStop(list, clients0, card, n);
    }

    /**
     serveClientsBlockedOnStreamKey; wakes says whether the stream has news for a client.
     Exactly the clients that wait for the stream and have news are let go.
     */
    method ServeClientsBlockedOnStreamKey(key: Key, wakes: ClientId -> bool, ghost missed: set<Key>)
      requires Coherent() && NobodyMissed(db, waiting, clients, readyDict, missed)
      modifies this`waiting, this`clients, this`blockedClients, this`byType, this`unblocked
      ensures Coherent() && NobodyMissed(db, waiting, clients, readyDict, missed)
      ensures StreamServed(key, old(View()), View(), wakes)
      ensures blockedClients <= old(blockedClients)
    {
      hide Agree, NodesBelow, TypesRight, QueueRight, CountersRight, NobodyMissed, Removed, LeftBehind;
      var list := ListOf(waiting, key);
      ghost var w0 := waiting;
      EveryoneStays(waiting, clients);
      for i := 0 to |list|
        invariant Coherent() && NobodyMissed(db, waiting, clients, readyDict, missed)
                  && blockedClients <= old(blockedClients)
        invariant OnlyWoken(list[..i], old(clients), wakes, clients)
        invariant forall k :: LeftBehind(w0, waiting, clients, k)
      {
        var c := list[i].client;
        assert list[..i + 1] == list[..i] + [list[i]];
        if c in clients && clients[c].btype == OnStream && wakes(c) {
          ghost var w, clients0 := waiting, clients;
          Release(c, missed);
          ClientLeavesAll(w0, w, waiting, clients0, clients, c);
        }
      }
      assert list[..|list|] == list;
    }

    /** The body of the inner loop of handleClientsBlockedOnKeys, after the key left the dictionary. */
    method ServeKey(key: Key, ghost pending: seq<Key>, wakes: ClientId -> bool, ghost missed: set<Key>)
      requires Coherent() && ReadyRight(pending + readyKeys, readyDict)
      requires NobodyMissed(db, waiting, clients, readyDict, missed + {key}) && NoEmptyLists(db, {})
      requires StillMissed(db, readyDict, missed) && key !in missed
      modifies this`waiting, this`clients, this`blockedClients, this`byType, this`unblocked
      modifies this`db, this`replies, this`readyKeys, this`readyDict
      ensures Coherent() && ReadyRight(pending + readyKeys, readyDict)
      ensures NobodyMissed(db, waiting, clients, readyDict, missed) && NoEmptyLists(db, {})
      ensures StillMissed(db, readyDict, missed)
      ensures KeyServed(key, old(View()), View(), wakes)
      ensures blockedClients + |readyKeys| <= old(blockedClients) + |old(readyKeys)|
    {
      hide Coherent, ReadyRight, NobodyMissed, ListServed, ZsetServed, StreamServed, StillMissed, OnlyNewReady, Waits,
           NoEmptyLists;
      ghost var s0, ready0 := View(), readyDict;
      if key in db {
        match db[key] {
          case ListObj(_) =>
            NoEmptyListsBut(db, key);
            ServeClientsBlockedOnListKey(key, pending, missed);
            ListKeepsMissed(key, s0, View(), ready0, readyDict, missed);
          case ZsetObj(_) =>
            NotServing(db, key, waiting, clients, readyDict, missed);
            ServeClientsBlockedOnSortedSetKey(key, missed);
            ZsetKeepsMissed(key, s0, View(), readyDict, missed);
          case StreamObj =>
            NotServing(db, key, waiting, clients, readyDict, missed);
            ServeClientsBlockedOnStreamKey(key, wakes, missed);
            StreamKeepsMissed(key, s0, View(), wakes, readyDict, missed);
          case PlainObj => NotServing(db, key, waiting, clients, readyDict, missed);
        }
      } else {
        NotServing(db, key, waiting, clients, readyDict, missed);
      }
    }

    /**
     handleClientsBlockedOnKeys. Serving BLMOVE may queue new keys while the queue is
     served; it still ends, because every key taken off the queue, and every key put on
     it, is paid for by the key or by a client that stops being blocked. When it ends, a
     client blocked on a list waits for a list with elements only if the key had been
     missed before, and a key missed before stays missed while somebody waits for it.
     Clients of one type are answered for a key in the order in which they blocked for it,
     unless they block on a list, the key was a sorted set at first, and somebody waiting
     for that stood between them. All this comes from serving the ready keys in turn, and
     after them the keys that became ready on the way.
     */
    method HandleClientsBlockedOnKeys(wakes: ClientId -> bool) returns (ghost done: seq<Key>)
      requires Coherent() && ReadyRight(readyKeys, readyDict) && NoEmptyLists(db, {})
      modifies this`waiting, this`clients, this`blockedClients, this`byType, this`unblocked
      modifies this`db, this`replies, this`readyKeys, this`readyDict
      ensures Coherent() && readyKeys == [] && readyDict == {} && NoEmptyLists(db, {})
      ensures forall k :: HasElements(db, k) && Waits(waiting, clients, k, OnList)
                <==> Missed(old(View()), old(readyDict), k) && Waits(waiting, clients, k, OnList)
      ensures Contents(db) + AllGiven(replies) == Contents(old(db)) + AllGiven(old(replies))
      ensures Accounted(old(View()), View())
      ensures forall k :: Calm(old(View()), k) ==> InOrder(old(View()), View(), k, OnList)
      ensures forall k :: InOrder(old(View()), View(), k, OnZset)
      ensures old(readyKeys) <= done && ServedInTurn(old(View()), done, View(), wakes)
      ensures old(readyKeys) == [] ==> View() == old(View())
    {
      hide NodesBelow, CountersRight, TypesRight, QueueRight, ReadyRight, NobodyMissed, NoEmptyLists, Contents,
           AllGiven, Waits, HasElements, Handled, StillMissed, KeyServed, Agree, Accounted, InOrder, ServedInTurn, Calm;
      ghost var s0, missed := View(), MissedKeys(View(), readyDict);
      done := [];
      StartHandling(s0, readyDict);
      NothingInTurn(s0, wakes);
      assert [] + readyKeys == readyKeys;
      while readyKeys != []
        invariant Handling(s0, missed, []) && ServedInTurn(s0, done, View(), wakes)
        invariant old(readyKeys) <= done || (done == [] && readyKeys == old(readyKeys))
        invariant old(readyKeys) == [] ==> readyKeys == [] && View() == s0
        decreases blockedClients + |readyKeys|
      {
        var l := readyKeys;
        assert [] + readyKeys == l;
        readyKeys := [];
        assert l + readyKeys == l;
        done := HandleAll(s0, missed, l, wakes, done);
      }
      assert [] + readyKeys == readyKeys;
      NothingReady(readyDict);
      HandledInOrder(s0, View());
      NobodyMissedAtAll(s0, old(readyDict), View(), missed);
    }

    /** In the middle of handling the ready keys; l are those taken off the queue but not yet served. */
    ghost predicate Handling(s0: State, missed: set<Key>, l: seq<Key>)
      reads this
    {
      && Coherent() && ReadyRight(l + readyKeys, readyDict) && NoEmptyLists(db, {})
      && Agree(s0.waiting, s0.clients)
      && NobodyMissed(db, waiting, clients, readyDict, missed) && StillMissed(db, readyDict, missed)
      && Handled(s0, View())
      && Contents(db) + AllGiven(replies) == Contents(s0.db) + AllGiven(s0.replies)
    }

    /** The inner loop, over the keys taken off the queue; before: those served earlier in the call. */
    method HandleAll(ghost s0: State, ghost missed: set<Key>, keys: seq<Key>, wakes: ClientId -> bool,
                     ghost before: seq<Key>)
      returns (ghost done: seq<Key>)
      requires Handling(s0, missed, keys) && ServedInTurn(s0, before, View(), wakes) && keys != [] && readyKeys == []
      modifies this`waiting, this`clients, this`blockedClients, this`byType, this`unblocked
      modifies this`db, this`replies, this`readyKeys, this`readyDict
      ensures Handling(s0, missed, []) && ServedInTurn(s0, done, View(), wakes) && done == before + keys
      ensures blockedClients + |readyKeys| < old(blockedClients) + |keys|
    {
      hide Coherent, ReadyRight, NobodyMissed, NoEmptyLists, Contents, AllGiven, Handled, StillMissed, KeyServed,
           Agree, ServedInTurn;
      var l := keys;
      done := before;
      while l != []
        invariant Handling(s0, missed, l) && ServedInTurn(s0, done, View(), wakes) && done + l == before + keys
        invariant blockedClients + |l| + |readyKeys| <= old(blockedClients) + |keys|
        invariant l == [] ==> blockedClients + |readyKeys| < old(blockedClients) + |keys|
        decreases |l|
      {
        ghost var s := View();
        HandleNext(s0, missed, l, wakes);
        OneMoreInTurn(s0, done, s, l[0], View(), wakes);
        assert done + [l[0]] + l[1..] == done + l;
        done := done + [l[0]];
        l := l[1..];
      }
    }

    /** One round of the inner loop. */
    method HandleNext(ghost s0: State, ghost missed: set<Key>, l: seq<Key>, wakes: ClientId -> bool)
      requires l != [] && Handling(s0, missed, l)
      modifies this`waiting, this`clients, this`blockedClients, this`byType, this`unblocked
      modifies this`db, this`replies, this`readyKeys, this`readyDict
      ensures Handling(s0, missed, l[1..]) && KeyServed(l[0], old(View()), View(), wakes)
      ensures blockedClients + |readyKeys| <= old(blockedClients) + |old(readyKeys)|
    {
      hide NodesBelow, CountersRight, TypesRight, QueueRight, ReadyRight, NobodyMissed, NoEmptyLists, Contents,
           AllGiven, Handled, StillMissed, KeyServed, Agree, ClientsDistinct;
      var key := l[0];
      assert l + readyKeys == [key] + l[1..] + readyKeys;
      KeyIsReady(key, l[1..], readyKeys, readyDict, db, missed);
      ReadyTaken(key, l[1..], readyKeys, readyDict);
      NobodyMissedBut(db, key, waiting, clients, readyDict, missed);
      readyDict := readyDict - {key};
      ghost var s := View();
      DistinctLists(waiting, clients, key);
      ServeKey(key, l[1..], wakes, missed);
      KeyConserves(key, s, View(), wakes);
      HandledStep(s0, key, s, View(), wakes);
    }

    /** dbAdd: a key that is created is signalled. */
    method DbAdd(key: Key, o: Obj)
      requires Coherent() && ReadyRight(readyKeys, readyDict) && key !in db
      modifies this`db, this`readyKeys, this`readyDict
      ensures ReadyRight(readyKeys, readyDict) && db == old(db)[key := o]
      ensures old(readyDict) <= readyDict && readyDict <= old(readyDict) + {key}
      ensures readyKeys == old(readyKeys) + if key in readyDict - old(readyDict) then [key] else []
      ensures o.ListObj? && Waits(waiting, clients, key, OnList) ==> key in readyDict
      ensures o.ZsetObj? && Waits(waiting, clients, key, OnZset) ==> key in readyDict
      ensures o.StreamObj? && Waits(waiting, clients, key, OnStream) ==> key in readyDict
      ensures o.PlainObj? ==> readyKeys == old(readyKeys) && readyDict == old(readyDict)
    {
      hide Agree, NodesBelow, TypesRight, QueueRight, CountersRight, ReadyRight, Waits;
      assert [] + readyKeys == readyKeys;
      var t := BlockTypeOf(o);
      if t != NotBlocked && Waits(waiting, clients, key, t) {
        WaitsIsCounted(waiting, clients, key, t, blockedClients, byType);
      }
      db := db[key := o];
      SignalKeyAsReady(key, o, []);
      assert [] + readyKeys == readyKeys;
    }

    /**
     genericSetKey. A key that exists is overwritten without a signal, so a list stored
     over an object that is not a list with elements can be missed: exactly when a client
     blocked on a list waits for the key and the key is not queued for another reason.
     */
    method GenericSetKey(key: Key, o: Obj)
      requires Coherent() && ReadyRight(readyKeys, readyDict)
      modifies this`db, this`readyKeys, this`readyDict
      ensures ReadyRight(readyKeys, readyDict) && db == old(db)[key := o]
      ensures old(readyDict) <= readyDict && readyDict <= old(readyDict) + {key}
      ensures readyKeys == old(readyKeys) + if key in readyDict - old(readyDict) then [key] else []
      ensures key !in old(db) && BlockTypeOf(o) != NotBlocked && Waits(waiting, clients, key, BlockTypeOf(o)) ==>
                key in readyDict
      ensures key in old(db) || BlockTypeOf(o) == NotBlocked ==>
                readyKeys == old(readyKeys) && readyDict == old(readyDict)
      ensures old(NobodyMissed(db, waiting, clients, readyDict, {})) ==>
                (NobodyMissed(db, waiting, clients, readyDict, {}) <==>
                   || key !in old(db) || HasElements(old(db), key) || key in old(readyDict)
                   || !(o.ListObj? && o.elems != []) || !Waits(waiting, clients, key, OnList))
      ensures NoEmptyLists(old(db), {}) && o != ListObj([]) ==> NoEmptyLists(db, {})
    {
      hide Coherent, ReadyRight, Waits, NobodyMissed, NoEmptyLists;
      ghost var db0, ready0 := db, readyDict;
      if key !in db {
        DbAdd(key, o);
      } else {
        db := db[key := o];
      }
      SetMissesNobodyIff(db0, key, o, waiting, clients, ready0, readyDict);
    }

    /** dbDelete */
    method DbDelete(key: Key)
      modifies this`db
      ensures db == old(db) - {key}
      ensures forall missed :: old(NobodyMissed(db, waiting, clients, readyDict, missed)) ==>
                NobodyMissed(db, waiting, clients, readyDict, missed)
      ensures NoEmptyLists(old(db), {}) ==> NoEmptyLists(db, {})
    {
      hide Waits;
      db := db - {key};
    }

    /** A push to a list, as RPUSH and LPUSH do it: the key is signalled only when it is created. */
    method PushValue(key: Key, v: Elem, side: Side) returns (ok: bool)
      requires Coherent() && ReadyRight(readyKeys, readyDict)
      requires NobodyMissed(db, waiting, clients, readyDict, {}) && NoEmptyLists(db, {})
      modifies this`db, this`readyKeys, this`readyDict
      ensures ReadyRight(readyKeys, readyDict) && NobodyMissed(db, waiting, clients, readyDict, {})
              && NoEmptyLists(db, {})
      ensures ok <==> key !in old(db) || old(db)[key].ListObj?
      ensures db == if !ok then old(db)
                    else old(db)[key := ListObj(Push(if key in old(db) then old(db)[key].elems else [], v, side))]
    {
      hide Coherent, ReadyRight, Waits, NobodyMissed, NoEmptyLists;
      if key in db && !db[key].ListObj? { return false; }
      ghost var db0, ready0 := db, readyDict;
      if key !in db {
        DbAdd(key, ListObj([]));
      }
      ghost var elems := Push(db[key].elems, v, side);
      db := db[key := ListObj(Push(db[key].elems, v, side))];
      assert db == db0[key := ListObj(elems)];
      PushMissesNobody(db0, key, elems, waiting, clients, ready0, readyDict);
      return true;
    }
  }

  // ----- serving

  /** A pass over the clients of a key, as it started; missed are keys with waiting clients that are not queued. */
  datatype Pass = Pass(key: Key, pending: seq<Key>, s0: State, ready: set<Key>, bound: nat, missed: set<Key>)

  ghost predicate ListPass(p: Pass) {
    p.key in p.s0.db && p.s0.db[p.key].ListObj?
  }

  /** Only keys that did not exist became ready. */
  ghost predicate OnlyNewReady(db: Db, ready0: set<Key>, ready: set<Key>) {
    forall k :: k in ready && k !in ready0 ==> k !in db
  }

  lemma NewReadyChains(p: Pass, n: nat, s: State, ready0: set<Key>, ready: set<Key>)
    requires n <= |ListOf(p.s0.waiting, p.key)| && ListPass(p) && ServedPart(p, n, s)
    requires OnlyNewReady(p.s0.db, p.ready, ready0) && OnlyNewReady(s.db, ready0, ready)
    ensures OnlyNewReady(p.s0.db, p.ready, ready)
  {
    hide Served, ServedAll;
    ServedAllKeeps(p.s0.db, p.s0.replies, p.key, Served(ListOf(p.s0.waiting, p.key), p.s0.clients, OnList, n),
                   p.s0.clients);
  }

  /** The part of the invariant of the pass that is about the database and the replies. */
  ghost predicate ServedPart(p: Pass, n: nat, s: State)
    requires n <= |ListOf(p.s0.waiting, p.key)|
  {
    var served := Served(ListOf(p.s0.waiting, p.key), p.s0.clients, OnList, n);
    && (s.db, s.replies) == ServedAll(p.s0.db, p.s0.replies, p.key, served, p.s0.clients)
    && RepliesFollow(served, p.key, p.s0.replies, s.replies)
  }

  lemma {:induction false} ServedAllKeeps(db: Db, replies: seq<Reply>, key: Key, entries: seq<Entry>,
                                          clients: Clients)
    ensures forall k :: k in db ==> k in ServedAll(db, replies, key, entries, clients).0
  {
    if entries != [] {
      ServedAllKeeps(db, replies, key, entries[..|entries| - 1], clients);
    }
  }

  lemma StartServing(p: Pass)
    requires ListPass(p) && Agree(p.s0.waiting, p.s0.clients) && TypesRight(p.s0.clients)
    ensures var list := ListOf(p.s0.waiting, p.key);
            && list == AfterVisiting(list, p.s0.clients, OnList, 0)
            && OthersLeft(p.s0.waiting, p.s0.waiting, p.s0.clients, p.key)
            && Released(Served(list, p.s0.clients, OnList, 0), p.s0.clients, p.s0.clients)
            && ServedPart(p, 0, p.s0) && OnlyNewReady(p.s0.db, p.ready, p.ready)
  {
    hide LeftBehind, Agree, TypesRight;
    StartVisiting(ListOf(p.s0.waiting, p.key), p.s0.clients, OnList);
    EveryoneStays(p.s0.waiting, p.s0.clients);
  }

  lemma StartServingZset(p: Pass)
    requires Agree(p.s0.waiting, p.s0.clients) && TypesRight(p.s0.clients)
    ensures var list := ListOf(p.s0.waiting, p.key);
            && list == AfterVisiting(list, p.s0.clients, OnZset, 0)
            && OthersLeft(p.s0.waiting, p.s0.waiting, p.s0.clients, p.key)
            && Released(Served(list, p.s0.clients, OnZset, 0), p.s0.clients, p.s0.clients)
            && Served(list, p.s0.clients, OnZset, 0) == []
            && p.s0.replies + Members([], p.key) == p.s0.replies
  {
    hide LeftBehind, Agree, TypesRight;
    StartVisiting(ListOf(p.s0.waiting, p.key), p.s0.clients, OnZset);
    EveryoneStays(p.s0.waiting, p.s0.clients);
  }

  lemma StopPassesOther(list: seq<Entry>, clients: Clients, db: Db, key: Key, n: nat)
    requires n < |list| && !Is(list[n], clients, OnList)
    ensures ListStop(list, clients, db, key, n) == ListStop(list, clients, db, key, n + 1)
  {
  }

  lemma StopsAtEnd(list: seq<Entry>, clients: Clients, db: Db, key: Key)
    ensures ListStop(list, clients, db, key, |list|) == |list|
  {
  }

  /** Nothing is left for the client at n. */
  lemma StopsHere(p: Pass, n: nat, s: State)
    requires n < |ListOf(p.s0.waiting, p.key)| && ListPass(p) && ServedPart(p, n, s)
    requires p.key in s.db && s.db[p.key].ListObj? && s.db[p.key].elems == []
    requires Is(ListOf(p.s0.waiting, p.key)[n], p.s0.clients, OnList)
    ensures ListStop(ListOf(p.s0.waiting, p.key), p.s0.clients, p.s0.db, p.key, n) == n
  {
    hide Served, ServedAll, Used;
    ServedAllCounts(p.s0.db, p.s0.replies, p.key, Served(ListOf(p.s0.waiting, p.key), p.s0.clients, OnList, n),
                    p.s0.clients);
  }

  /** The client at n is served next. */
  lemma OneMoreServed(p: Pass, n: nat, s: State)
    requires var list := ListOf(p.s0.waiting, p.key);
             && n < |list| && ListPass(p) && ServedPart(p, n, s) && HasElements(s.db, p.key)
             && Is(list[n], p.s0.clients, OnList)
             && Served(list, p.s0.clients, OnList, n + 1) == Served(list, p.s0.clients, OnList, n) + [list[n]]
    ensures var list := ListOf(p.s0.waiting, p.key);
            var c := list[n].client;
            && ServedPart(p, n + 1, s.(db := ServedDb(s.db, p.key, p.s0.clients[c]),
                                       replies := s.replies + [ServedReply(s.db, p.key, c, p.s0.clients[c])]))
            && ListStop(list, p.s0.clients, p.s0.db, p.key, n) == ListStop(list, p.s0.clients, p.s0.db, p.key, n + 1)
  {
    hide Served, ServedAll, Used, RepliesFollow, ServedDb, ServedReply;
    var list := ListOf(p.s0.waiting, p.key);
    var served, c := Served(list, p.s0.clients, OnList, n), list[n].client;
    RepliesCount(served, p.key, p.s0.replies, s.replies);
    ServedAllCounts(p.s0.db, p.s0.replies, p.key, served, p.s0.clients);
    ServedAllSnoc(p.s0.db, p.s0.replies, p.key, served, p.s0.clients, list[n]);
    ReplyNames(s.db, p.key, c, p.s0.clients[c]);
    OneMoreReply(served, list[n], p.key, p.s0.replies, s.replies, ServedReply(s.db, p.key, c, p.s0.clients[c]));
  }

  lemma RepliesCount(served: seq<Entry>, key: Key, before: seq<Reply>, replies: seq<Reply>)
    requires RepliesFollow(served, key, before, replies)
    ensures |replies| == |before| + |served|
  {
  }

  lemma OthersUntouched(w0: Waiting, w: Waiting, w1: Waiting, clients: Clients, key: Key)
    requires OthersLeft(w0, w, clients, key) && forall k :: k != key ==> ListOf(w1, k) == ListOf(w, k)
    ensures OthersLeft(w0, w1, clients, key)
  {
    forall k | k != key
      ensures LeftBehind(w0, w1, clients, k)
    {
      assert LeftBehind(w0, w, clients, k);
    }
  }

  lemma DistinctLists(waiting: Waiting, clients: Clients, k: Key)
    requires Agree(waiting, clients)
    ensures ClientsDistinct(ListOf(waiting, k))
  {
    hide Agree;
    if k in waiting {
      ListFacts(waiting, clients, k);
    }
  }

  lemma ClientLeavesOthers(w0: Waiting, w: Waiting, w1: Waiting, clients: Clients, c: ClientId, key: Key)
    requires Agree(w, clients) && c in clients && clients[c].btype != NotBlocked
    requires OthersLeft(w0, w, clients, key) && Removed(w, w1, clients[c].keys)
    ensures OthersLeft(w0, w1, clients[c := Freed(clients[c])], key)
  {
    hide Agree, Removed, LeftBehind, ClientsDistinct;
    var clients1 := clients[c := Freed(clients[c])];
    forall k | k != key
      ensures LeftBehind(w0, w1, clients1, k)
    {
      DistinctLists(w, clients, k);
      ClientLeaves(w0, w, w1, clients, c, k);
    }
  }

  lemma ClientLeavesAll(w0: Waiting, w: Waiting, w1: Waiting, clients: Clients, clients1: Clients, c: ClientId)
    requires Agree(w, clients) && c in clients && clients[c].btype != NotBlocked
    requires (forall k :: LeftBehind(w0, w, clients, k)) && Removed(w, w1, clients[c].keys)
    requires clients1 == clients[c := Freed(clients[c])]
    ensures forall k :: LeftBehind(w0, w1, clients1, k)
  {
    hide Agree, Removed, LeftBehind, ClientsDistinct;
    forall k
      ensures LeftBehind(w0, w1, clients1, k)
    {
      DistinctLists(w, clients, k);
      ClientLeaves(w0, w, w1, clients, c, k);
    }
  }

  /** Whoever is in a list is blocked. */
  lemma EveryoneStays(waiting: Waiting, clients: Clients)
    requires Agree(waiting, clients) && TypesRight(clients)
    ensures forall k :: LeftBehind(waiting, waiting, clients, k)
  {
    hide StillBlocked, ListsAreGood;
    forall k
      ensures LeftBehind(waiting, waiting, clients, k)
    {
      var list := ListOf(waiting, k);
      forall i | 0 <= i < |list|
        ensures list[i].client in clients && clients[list[i].client].btype != NotBlocked
      {
        assert list[i] in waiting[k];
      }
      AllStay(list, clients);
    }
  }

  lemma OneMoreTaken(db: Db, key: Key, taken: nat)
    requires taken < Card(db, key)
    ensures Card(Taken(db, key, taken), key) == Card(db, key) - taken
    ensures var d := Taken(db, key, taken);
            key in d && d[key].ZsetObj?
            && Taken(db, key, taken + 1)
               == if d[key].card == 1 then d - {key} else d[key := ZsetObj(d[key].card - 1)]
  {
    var d := Taken(db, key, taken);
    if d[key].card == 1 {
      assert d - {key} == db - {key};
    } else {
      assert d[key := ZsetObj(d[key].card - 1)] == db[key := ZsetObj(db[key].card - taken - 1)];
    }
  }

  // ----- keys that were missed

  /** A client blocked on a list waits for k, which has elements and is not queued. */
  ghost predicate Missed(s: State, ready: set<Key>, k: Key) {
    HasElements(s.db, k) && Waits(s.waiting, s.clients, k, OnList) && k !in ready
  }

  ghost function MissedKeys(s: State, ready: set<Key>): set<Key> {
    set k | k in s.db && Missed(s, ready, k)
  }

  ghost predicate StillMissed(db: Db, ready: set<Key>, missed: set<Key>) {
    forall k :: k in missed ==> HasElements(db, k) && k !in ready
  }

  lemma StartHandling(s: State, ready: set<Key>)
    ensures NobodyMissed(s.db, s.waiting, s.clients, ready, MissedKeys(s, ready))
    ensures StillMissed(s.db, ready, MissedKeys(s, ready)) && Handled(s, s)
  {
    hide Waits, Handled;
    NothingHandled(s);
  }

  lemma NobodyMissedAtAll(s0: State, ready0: set<Key>, s: State, missed: set<Key>)
    requires NobodyMissed(s.db, s.waiting, s.clients, {}, missed) && StillMissed(s.db, {}, missed)
    requires missed == MissedKeys(s0, ready0)
    ensures forall k :: HasElements(s.db, k) && Waits(s.waiting, s.clients, k, OnList)
              <==> Missed(s0, ready0, k) && Waits(s.waiting, s.clients, k, OnList)
  {
    hide Waits;
    forall k | Missed(s0, ready0, k)
      ensures HasElements(s.db, k)
    {
      assert k in missed;
    }
  }

  lemma ListKeepsMissed(key: Key, s0: State, s: State, ready0: set<Key>, ready: set<Key>, missed: set<Key>)
    requires key in s0.db && s0.db[key].ListObj? && ListServed(key, s0, s) && OnlyNewReady(s0.db, ready0, ready)
    requires StillMissed(s0.db, ready0, missed) && key !in missed
    ensures StillMissed(s.db, ready, missed)
  {
    var list := ListOf(s0.waiting, key);
    var served := Served(list, s0.clients, OnList, ListStop(list, s0.clients, s0.db, key, 0));
    hide Served, ListStop, ServedAll, Released, OthersLeft, AfterVisiting;
    ServedAllCounts(s0.db, s0.replies, key, served, s0.clients);
  }

  lemma ZsetKeepsMissed(key: Key, s0: State, s: State, ready: set<Key>, missed: set<Key>)
    requires ZsetServed(key, s0, s) && StillMissed(s0.db, ready, missed)
    ensures StillMissed(s.db, ready, missed)
  {
    hide Served, ZsetStop, Released, OthersLeft, AfterVisiting, Members;
  }

  lemma StreamKeepsMissed(key: Key, s0: State, s: State, wakes: ClientId -> bool, ready: set<Key>, missed: set<Key>)
    requires StreamServed(key, s0, s, wakes) && StillMissed(s0.db, ready, missed)
    ensures StillMissed(s.db, ready, missed)
  {
  }

  lemma KeyIsReady(key: Key, rest: seq<Key>, more: seq<Key>, dict: set<Key>, db: Db, missed: set<Key>)
    requires ReadyRight([key] + rest + more, dict) && StillMissed(db, dict, missed)
    ensures key in dict && key !in missed && StillMissed(db, dict - {key}, missed)
  {
    assert ([key] + rest + more)[0] == key;
  }

  lemma HandledInOrder(s0: State, s: State)
    requires Handled(s0, s)
    ensures Accounted(s0, s)
    ensures forall k :: Calm(s0, k) ==> InOrder(s0, s, k, OnList)
    ensures forall k :: InOrder(s0, s, k, OnZset)
  {
    hide Accounted, InOrder, OrderKept, Calm;
    forall k | Calm(s0, k)
      ensures InOrder(s0, s, k, OnList)
    {
      assert ListsInOrder(s0, s, k);
    }
    forall k
      ensures InOrder(s0, s, k, OnZset)
    {
      assert ZsetsInOrder(s0, s, k);
    }
  }

  /** When storing an object leaves nobody missed. */
  lemma SetMissesNobodyIff(db: Db, key: Key, o: Obj, waiting: Waiting, clients: Clients, ready: set<Key>,
                           ready1: set<Key>)
    requires ready <= ready1 <= ready + {key} && (key in db ==> ready1 == ready)
    requires key !in db && o.ListObj? && Waits(waiting, clients, key, OnList) ==> key in ready1
    ensures NobodyMissed(db, waiting, clients, ready, {}) ==>
              (NobodyMissed(db[key := o], waiting, clients, ready1, {}) <==>
                 || key !in db || HasElements(db, key) || key in ready
                 || !(o.ListObj? && o.elems != []) || !Waits(waiting, clients, key, OnList))
    ensures NoEmptyLists(db, {}) && o != ListObj([]) ==> NoEmptyLists(db[key := o], {})
  {
    hide Waits;
    if NobodyMissed(db, waiting, clients, ready, {}) && NobodyMissed(db[key := o], waiting, clients, ready1, {})
       && o.ListObj? && o.elems != [] {
      assert HasElements(db[key := o], key);
    }
  }

  lemma PushMissesNobody(db: Db, key: Key, elems: seq<Elem>, waiting: Waiting, clients: Clients, ready: set<Key>,
                         ready1: set<Key>)
    requires NobodyMissed(db, waiting, clients, ready, {}) && NoEmptyLists(db, {}) && ready <= ready1 && elems != []
    requires key in db ==> db[key].ListObj?
    requires key !in db && Waits(waiting, clients, key, OnList) ==> key in ready1
    ensures NobodyMissed(db[key := ListObj(elems)], waiting, clients, ready1, {})
            && NoEmptyLists(db[key := ListObj(elems)], {})
  {
    hide Waits;
  }

  lemma WaitsIsCounted(waiting: Waiting, clients: Clients, k: Key, t: BlockType, total: nat,
                       byType: map<BlockType, nat>)
    requires t != NotBlocked && Waits(waiting, clients, k, t) && CountersRight(clients, total, byType)
    ensures k in waiting && t in byType && byType[t] > 0
  {
    var e :| e in ListOf(waiting, k) && Is(e, clients, t);
    TypeCounted(clients, e.client, total, byType);
  }

  lemma NothingReady(dict: set<Key>)
    requires ReadyRight([], dict)
    ensures dict == {}
  {
  }

  /** A client that blocks on lists leaves nobody missed exactly when those of them with elements are queued. */
  lemma BlockingMissesNobodyIff(db: Db, w0: Waiting, clients0: Clients, w1: Waiting, clients1: Clients, c: ClientId,
                                ready: set<Key>)
    requires c in clients1 && clients1 == clients0[c := clients1[c]] && Appended(w0, w1, clients1[c].keys, c)
    requires c in clients0 && clients0[c].btype == NotBlocked && Agree(w0, clients0) && TypesRight(clients0)
    ensures NobodyMissed(db, w1, clients1, ready, {}) <==>
              && NobodyMissed(db, w0, clients0, ready, {})
              && (clients1[c].btype == OnList ==>
                    forall k :: k in clients1[c].keys && HasElements(db, k) ==> k in ready)
  {
    hide HasElements, Agree, TypesRight, Waits, Appended;
    forall k
      ensures Waits(w1, clients1, k, OnList) <==>
                || Waits(w0, clients0, k, OnList) || (k in clients1[c].keys && clients1[c].btype == OnList)
    {
      WaitsOnceBlocked(w0, clients0, w1, clients1, c, k);
    }
  }

  lemma WaitsOnceBlocked(w0: Waiting, clients0: Clients, w1: Waiting, clients1: Clients, c: ClientId, k: Key)
    requires c in clients1 && clients1 == clients0[c := clients1[c]] && Appended(w0, w1, clients1[c].keys, c)
    requires c in clients0 && clients0[c].btype == NotBlocked && Agree(w0, clients0) && TypesRight(clients0)
    ensures Waits(w1, clients1, k, OnList) <==>
              || Waits(w0, clients0, k, OnList) || (k in clients1[c].keys && clients1[c].btype == OnList)
  {
    hide Agree, TypesRight;
    NotListed(w0, clients0, c, k);
    if Waits(w1, clients1, k, OnList) {
      var e :| e in ListOf(w1, k) && Is(e, clients1, OnList);
      assert e.client != c ==> e in ListOf(w0, k) && Is(e, clients0, OnList);
    }
    if Waits(w0, clients0, k, OnList) {
      var e :| e in ListOf(w0, k) && Is(e, clients0, OnList);
      assert e in ListOf(w1, k) && Is(e, clients1, OnList);
    }
    if k in clients1[c].keys && clients1[c].btype == OnList {
      var e := Entry(clients1[c].keys[k], c);
      assert e in ListOf(w1, k) && Is(e, clients1, OnList);
    }
  }

  lemma NotListed(waiting: Waiting, clients: Clients, c: ClientId, k: Key)
    requires Agree(waiting, clients) && TypesRight(clients) && c in clients && clients[c].btype == NotBlocked
    ensures forall e :: e in ListOf(waiting, k) ==> e.client != c
  {
  }

  lemma ListFacts(waiting: Waiting, clients: Clients, k: Key)
    requires Agree(waiting, clients) && k in waiting
    ensures ClientsDistinct(waiting[k]) && forall i :: 0 <= i < |waiting[k]| ==> waiting[k][i].client in clients
  {
    hide NodesDistinct;
    forall i, j | 0 <= i < j < |waiting[k]|
      ensures waiting[k][i].client != waiting[k][j].client
    {
      OncePerList(waiting, clients, k, i, j);
    }
    forall i | 0 <= i < |waiting[k]|
      ensures waiting[k][i].client in clients
    {
      assert waiting[k][i] in waiting[k];
    }
  }

  lemma HeadIsNext(list: seq<Entry>, clients: Clients, t: BlockType, n: nat)
    requires n < |list|
    ensures var cur := AfterVisiting(list, clients, t, n); cur != [] && cur[0] == list[n]
  {
  }

  lemma RotatedNodes(waiting: Waiting, k: Key, next: nat)
    requires NodesBelow(waiting, next) && k in waiting
    ensures NodesBelow(waiting[k := Rotate(waiting[k])], next)
  {
    RotatedList(waiting[k]);
  }

  lemma RotatedMissesNobody(db: Db, waiting: Waiting, clients: Clients, ready: set<Key>, k: Key, serving: set<Key>)
    requires NobodyMissed(db, waiting, clients, ready, serving) && k in waiting
    ensures NobodyMissed(db, waiting[k := Rotate(waiting[k])], clients, ready, serving)
  {
    hide HasElements, Is, Rotate;
    var w1 := waiting[k := Rotate(waiting[k])];
    RotatedList(waiting[k]);
    forall q | HasElements(db, q) && q !in serving && Waits(w1, clients, q, OnList)
      ensures q in ready
    {
      var e :| e in ListOf(w1, q) && Is(e, clients, OnList);
      assert e in ListOf(waiting, q);
      assert Waits(waiting, clients, q, OnList);
    }
  }

  lemma LessMissesNobody(db: Db, waiting: Waiting, clients: Clients, ready: set<Key>, serving: set<Key>,
                         w1: Waiting, clients1: Clients)
    requires NobodyMissed(db, waiting, clients, ready, serving) && WaitsLess(waiting, clients, w1, clients1)
    ensures NobodyMissed(db, w1, clients1, ready, serving)
  {
    hide HasElements, Waits;
  }

  /** Objects that are not lists play no part in what lists hold. */
  lemma OtherObjectChanged(db: Db, key: Key, o: Obj, waiting: Waiting, clients: Clients, ready: set<Key>,
                           missed: set<Key>)
    requires key in db && !db[key].ListObj? && !o.ListObj?
    requires NobodyMissed(db, waiting, clients, ready, missed) && NoEmptyLists(db, {})
    ensures NobodyMissed(db[key := o], waiting, clients, ready, missed) && NoEmptyLists(db[key := o], {})
    ensures NobodyMissed(db - {key}, waiting, clients, ready, missed) && NoEmptyLists(db - {key}, {})
  {
    hide Waits;
  }

  lemma NotServing(db: Db, key: Key, waiting: Waiting, clients: Clients, ready: set<Key>, missed: set<Key>)
    requires NobodyMissed(db, waiting, clients, ready, missed + {key}) && !HasElements(db, key)
    ensures NobodyMissed(db, waiting, clients, ready, missed)
  {
    hide Waits;
  }

  lemma ReadyTaken(key: Key, rest: seq<Key>, more: seq<Key>, dict: set<Key>)
    requires ReadyRight([key] + rest + more, dict)
    ensures ReadyRight(rest + more, dict - {key})
  {
    var all := [key] + rest + more;
    assert all[1..] == rest + more;
    assert all == [key] + (rest + more);
    assert forall j :: 0 < j < |all| ==> all[0] != all[j];
    assert key !in all[1..];
  }

  lemma NobodyMissedBut(db: Db, key: Key, waiting: Waiting, clients: Clients, ready: set<Key>, missed: set<Key>)
    requires NobodyMissed(db, waiting, clients, ready, missed)
    ensures NobodyMissed(db, waiting, clients, ready - {key}, missed + {key})
  {
    hide Waits;
  }

  lemma NoEmptyListsBut(db: Db, key: Key)
    requires NoEmptyLists(db, {})
    ensures NoEmptyLists(db, {key})
  {
  }

  /** The head of a list remembers that it is there. */
  lemma HeadLeaves(waiting: Waiting, clients: Clients, k: Key)
    requires Agree(waiting, clients) && k in waiting
    ensures waiting[k] != []
    ensures var e := waiting[k][0];
            e.client in clients && k in clients[e.client].keys && clients[e.client].keys[k] == e.node
  {
    assert waiting[k][0] in waiting[k];
  }

  lemma HeadLeft(w0: Waiting, w1: Waiting, ks: map<Key, nat>, k: Key)
    requires Removed(w0, w1, ks) && k in w0 && w0[k] != [] && k in ks && ks[k] == w0[k][0].node
    ensures ListOf(w1, k) == w0[k][1..]
  {
  }

  lemma ReplyNames(db: Db, key: Key, c: ClientId, client: Client)
    requires HasElements(db, key)
    ensures ServedReply(db, key, c, client).client == c && ServedReply(db, key, c, client).key == key
  {
  }

  lemma UnblockedWaitsLess(w0: Waiting, clients: Clients, w1: Waiting, c: ClientId, ks: map<Key, nat>)
    requires Removed(w0, w1, ks) && c in clients
    ensures WaitsLess(w0, clients, w1, clients[c := Freed(clients[c])])
  {
    var clients1 := clients[c := Freed(clients[c])];
    forall k | Waits(w1, clients1, k, OnList)
      ensures Waits(w0, clients, k, OnList)
    {
      var e :| e in ListOf(w1, k) && Is(e, clients1, OnList);
      if k in ks {
        RemoveNodeMembers(ListOf(w0, k), ks[k]);
      }
      assert e in ListOf(w0, k) && Is(e, clients, OnList);
    }
  }

  lemma TypeCounted(clients: Clients, c: ClientId, total: nat, byType: map<BlockType, nat>)
    requires CountersRight(clients, total, byType) && c in clients && clients[c].btype != NotBlocked
    ensures clients[c].btype in byType && byType[clients[c].btype] > 0
  {
    assert c in OfType(clients, clients[c].btype);
  }

  lemma CounterThere(clients: Clients, total: nat, byType: map<BlockType, nat>, t: BlockType)
    requires CountersRight(clients, total, byType) && t != NotBlocked
    ensures t in byType
  {
  }

  /** Agreement only reads the keys of a client. */
  lemma HasKeys(clients: Clients, c: ClientId)
    requires c in clients
    ensures c in KeysOfAll(clients) && KeysOfAll(clients)[c] == clients[c].keys
  {
  }

  lemma SameKeys(clients: Clients, c: ClientId, client: Client)
    requires c in clients && clients[c].keys == client.keys
    ensures KeysOfAll(clients[c := client]) == KeysOfAll(clients)
  {
  }

  lemma RecordChanged(waiting: Waiting, clients: Clients, c: ClientId, client: Client)
    requires Agree(waiting, clients) && c in clients && clients[c].keys == client.keys
    ensures Agree(waiting, clients[c := client])
  {
    var clients1 := clients[c := client];
    forall k: Key, e: Entry | k in waiting && e in waiting[k]
      ensures e.client in clients1 && k in clients1[e.client].keys && clients1[e.client].keys[k] == e.node
    {
      assert e.client in clients;
    }
  }

  lemma QueueKept(clients: Clients, c: ClientId, client: Client, queue: seq<ClientId>)
    requires QueueRight(clients, queue) && c in clients && clients[c].unblocked == client.unblocked
    ensures QueueRight(clients[c := client], queue)
  {
  }
}
