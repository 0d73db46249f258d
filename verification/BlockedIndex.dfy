/**
 The two tables behind blocking commands: for every key the list of clients waiting for
 it, and for every client the keys it waits for, each with the list node that holds the
 client. List nodes are named by numbers, so that a node keeps its name while its list is
 rotated around it.
 */
module BlockedIndex {
  import opened Prelude

  type Key = string
  type ClientId = nat

  datatype BlockType = NotBlocked | OnList | OnZset | OnStream
  datatype Side = Head | Tail

  /** A node of a list of waiting clients. */
  datatype Entry = Entry(node: nat, client: ClientId)

  /** bpop.keys, bpop.target and the sides of BLMOVE; unblocked is the CLIENT_UNBLOCKED flag. */
  datatype Client = Client(
    btype: BlockType,
    keys: map<Key, nat>,
    target: Option<Key>,
    from: Side,
    to: Side,
    unblocked: bool)

  type Waiting = map<Key, seq<Entry>>
  type Clients = map<ClientId, Client>

  predicate NodesDistinct(list: seq<Entry>) {
    forall i, j :: 0 <= i < j < |list| ==> list[i].node != list[j].node
  }

  ghost predicate ListsAreSound(waiting: Waiting, clients: Clients) {
    forall k, e :: k in waiting && e in waiting[k] ==>
      e.client in clients && k in clients[e.client].keys && clients[e.client].keys[k] == e.node
  }

  ghost predicate ClientsAreListed(waiting: Waiting, clients: Clients) {
    forall c, k :: c in clients && k in clients[c].keys ==>
      k in waiting && Entry(clients[c].keys[k], c) in waiting[k]
  }

  ghost predicate ListsAreGood(waiting: Waiting) {
    forall k :: k in waiting ==> waiting[k] != [] && NodesDistinct(waiting[k])
  }

  /** A client has key k in its table exactly when it is in the list of k, at the node it remembers. */
  ghost predicate Agree(waiting: Waiting, clients: Clients) {
    ListsAreSound(waiting, clients) && ClientsAreListed(waiting, clients) && ListsAreGood(waiting)
  }

  ghost predicate NodesBelow(waiting: Waiting, next: nat) {
    forall k, e :: k in waiting && e in waiting[k] ==> e.node < next
  }

  /** No client is twice in one list. */
  lemma OncePerList(waiting: Waiting, clients: Clients, k: Key, i: nat, j: nat)
    requires Agree(waiting, clients) && k in waiting && i < j < |waiting[k]|
    ensures waiting[k][i].client != waiting[k][j].client
  {
    assert waiting[k][i] in waiting[k] && waiting[k][j] in waiting[k];
  }

  // ----- blocking: one more key for a client

  function ListOf(waiting: Waiting, k: Key): seq<Entry> {
    if k in waiting then waiting[k] else []
  }

  function WithKey(client: Client, k: Key, node: nat): Client {
    client.(keys := client.keys[k := node])
  }

  /** The client waits for one more key, at the tail of its list, in the new node next. */
  lemma AddedKeyAgrees(waiting: Waiting, clients: Clients, c: ClientId, k: Key, next: nat)
    requires Agree(waiting, clients) && NodesBelow(waiting, next) && c in clients && k !in clients[c].keys
    ensures var waiting1 := waiting[k := ListOf(waiting, k) + [Entry(next, c)]];
            Agree(waiting1, clients[c := WithKey(clients[c], k, next)]) && NodesBelow(waiting1, next + 1)
  {
    var waiting1, clients1 := waiting[k := ListOf(waiting, k) + [Entry(next, c)]],
                              clients[c := WithKey(clients[c], k, next)];
    forall q: Key, e: Entry | q in waiting1 && e in waiting1[q]
      ensures e.client in clients1 && q in clients1[e.client].keys && clients1[e.client].keys[q] == e.node
    {
      if e != Entry(next, c) {
        assert q in waiting && e in waiting[q];
      }
    }
  }

  // ----- unblocking: one key less

  function RemoveNode(list: seq<Entry>, node: nat): seq<Entry> {
    if list == [] then []
    else if list[0].node == node then list[1..]
    else [list[0]] + RemoveNode(list[1..], node)
  }

  /** listDelNode at the node of an entry: that entry goes, the others stay, in order. */
  lemma {:induction false} RemoveNodeRemoves(list: seq<Entry>, i: nat)
    requires i < |list| && NodesDistinct(list)
    ensures RemoveNode(list, list[i].node) == list[..i] + list[i + 1..]
  {
    if i > 0 {
      RemoveNodeRemoves(list[1..], i - 1);
      assert list[1..][..i - 1] == list[1..i];
    }
  }

  lemma RemovedList(list: seq<Entry>, e: Entry)
    requires e in list && NodesDistinct(list)
    ensures var r := RemoveNode(list, e.node);
            NodesDistinct(r) && (forall x :: x in r <==> x in list && x != e) && |r| == |list| - 1
  {
    var i :| 0 <= i < |list| && list[i] == e;
    RemoveNodeRemoves(list, i);
    CutMembers(list, i);
  }

  lemma CutMembers(list: seq<Entry>, i: nat)
    requires i < |list| && NodesDistinct(list)
    ensures forall x :: x in list[..i] + list[i + 1..] <==> x in list && x != list[i]
  {
    var r := list[..i] + list[i + 1..];
    forall x
      ensures x in r <==> x in list && x != list[i]
    {
      if x in r {
        var j :| 0 <= j < |r| && r[j] == x;
        assert x == list[if j < i then j else j + 1];
      }
      if x in list && x != list[i] {
        var j :| 0 <= j < |list| && list[j] == x;
        assert x == r[if j < i then j else j - 1];
      }
    }
  }

  /** The list of k without the node, or no list at all when it was the last. */
  function Without(waiting: Waiting, k: Key, node: nat): Waiting
    requires k in waiting
  {
    var list := RemoveNode(waiting[k], node);
    if list == [] then waiting - {k} else waiting[k := list]
  }

  function WithoutKey(client: Client, k: Key): Client {
    client.(keys := client.keys - {k})
  }

  lemma RemovedKeyAgrees(waiting: Waiting, clients: Clients, c: ClientId, k: Key)
    requires Agree(waiting, clients) && c in clients && k in clients[c].keys
    ensures k in waiting
    ensures Agree(Without(waiting, k, clients[c].keys[k]), clients[c := WithoutKey(clients[c], k)])
  {
    var node := clients[c].keys[k];
    var e := Entry(node, c);
    assert k in waiting && e in waiting[k];
    RemovedList(waiting[k], e);
    var waiting1, clients1 := Without(waiting, k, node), clients[c := WithoutKey(clients[c], k)];
    forall q: Key, x: Entry | q in waiting1 && x in waiting1[q]
      ensures x.client in clients1 && q in clients1[x.client].keys && clients1[x.client].keys[q] == x.node
    {
      assert q in waiting && x in waiting[q];
      assert q == k ==> x != e;
    }
    forall d, q | d in clients1 && q in clients1[d].keys
      ensures q in waiting1 && Entry(clients1[d].keys[q], d) in waiting1[q]
    {
      assert d in clients && q in clients[d].keys;
      assert Entry(clients[d].keys[q], d) in waiting[q];
      if q == k {
        assert Entry(clients[d].keys[q], d) != e;
      }
    }
  }

  // ----- the two tables together

  type KeyTable = map<ClientId, map<Key, nat>>

  /** blocking_keys, the bpop.keys of every client, and the number of the next node. */
  datatype Index = Index(waiting: Waiting, keys: KeyTable, next: nat)

  function KeysOfAll(clients: Clients): KeyTable {
    map c | c in clients :: clients[c].keys
  }

  /** One round of the loop of blockForKeys. */
  function Joined(x: Index, c: ClientId, k: Key): Index
    requires c in x.keys
  {
    if k in x.keys[c] then x
    else
      var keys: map<Key, nat> := x.keys[c][k := x.next];
      Index(x.waiting[k := ListOf(x.waiting, k) + [Entry(x.next, c)]], x.keys[c := keys], x.next + 1)
  }

  /** The whole loop. */
  function JoinedAll(x: Index, c: ClientId, ks: seq<Key>): (r: Index)
    requires c in x.keys
    ensures c in r.keys
  {
    if ks == [] then x else Joined(JoinedAll(x, c, ks[..|ks| - 1]), c, ks[|ks| - 1])
  }

  lemma JoinedAlready(x: Index, c: ClientId, k: Key)
    requires c in x.keys && k in x.keys[c]
    ensures Joined(x, c, k) == x
  {
  }

  lemma JoinedOneMore(x: Index, c: ClientId, ks: seq<Key>, i: nat)
    requires c in x.keys && i < |ks|
    ensures JoinedAll(x, c, ks[..i + 1]) == Joined(JoinedAll(x, c, ks[..i]), c, ks[i])
  {
    assert ks[..i + 1][..i] == ks[..i];
  }

  /** One round of the loop of unblockClientWaitingData. */
  function Left(x: Index, c: ClientId, k: Key): Index
    requires c in x.keys && k in x.keys[c] && k in x.waiting
  {
    x.(waiting := Without(x.waiting, k, x.keys[c][k]), keys := x.keys[c := x.keys[c] - {k}])
  }

  /** Each key of ks lost the node it names; no other list changed. */
  ghost predicate Removed(w0: Waiting, w1: Waiting, ks: map<Key, nat>) {
    forall k :: ListOf(w1, k) == if k in ks then RemoveNode(ListOf(w0, k), ks[k]) else ListOf(w0, k)
  }

  lemma RemovedNothing(w: Waiting, ks: map<Key, nat>)
    ensures Removed(w, w, ks - ks.Keys)
  {
  }

  lemma RemovedMore(w0: Waiting, w: Waiting, ks: map<Key, nat>, k: Key, node: nat)
    requires Removed(w0, w, ks) && k !in ks && k in w
    ensures Removed(w0, Without(w, k, node), ks[k := node])
  {
  }

  /** In the middle of that loop: x is what x0 has become, and c has left some of its lists. */
  ghost predicate Leaving(x0: Index, x: Index, c: ClientId) {
    && x.next == x0.next && c in x0.keys && c in x.keys && x.keys == x0.keys[c := x.keys[c]]
    && (forall k :: k in x.keys[c] ==> k in x0.keys[c] && x.keys[c][k] == x0.keys[c][k])
    && Removed(x0.waiting, x.waiting, x0.keys[c] - x.keys[c].Keys)
  }

  lemma LeavingStarts(x: Index, c: ClientId)
    requires c in x.keys
    ensures Leaving(x, x, c)
  {
    hide Removed;
    RemovedNothing(x.waiting, x.keys[c]);
  }

  lemma LeavingStep(x0: Index, x: Index, c: ClientId, k: Key)
    requires Leaving(x0, x, c) && k in x.keys[c] && k in x.waiting
    ensures Leaving(x0, Left(x, c, k), c)
  {
    hide Removed, Without;
    var keys, x1 := x0.keys[c], Left(x, c, k);
    RemovedMore(x0.waiting, x.waiting, keys - x.keys[c].Keys, k, keys[k]);
    assert (keys - x.keys[c].Keys)[k := keys[k]] == keys - x1.keys[c].Keys;
  }

  lemma LeavingEnds(x0: Index, x: Index, c: ClientId)
    requires Leaving(x0, x, c) && x.keys[c].Keys == {}
    ensures x.next == x0.next && x.keys == x0.keys[c := map[]] && Removed(x0.waiting, x.waiting, x0.keys[c])
  {
    hide Removed;
    assert x0.keys[c] - x.keys[c].Keys == x0.keys[c] && x.keys[c] == map[];
  }

  /** Leaving the lists in another order leaves the same table, if it has no empty lists. */
  lemma RemovedIsUnique(w0: Waiting, w1: Waiting, w2: Waiting, ks: map<Key, nat>)
    requires Removed(w0, w1, ks) && Removed(w0, w2, ks) && ListsAreGood(w1) && ListsAreGood(w2)
    ensures w1 == w2
  {
    hide RemoveNode, NodesDistinct;
    forall k
      ensures k in w1 <==> k in w2
      ensures k in w1 ==> w1[k] == w2[k]
    {
      assert ListOf(w1, k) == ListOf(w2, k);
    }
  }

  // ----- rotating

  function Rotate(list: seq<Entry>): seq<Entry> {
    if |list| <= 1 then list else list[1..] + [list[0]]
  }

  /** listRotateHeadToTail keeps every node, so every remembered node stays right. */
  lemma RotatedAgrees(waiting: Waiting, clients: Clients, k: Key)
    requires Agree(waiting, clients) && k in waiting
    ensures Agree(waiting[k := Rotate(waiting[k])], clients)
  {
    var list := waiting[k];
    RotatedList(list);
    var waiting1 := waiting[k := Rotate(list)];
    forall q: Key, e: Entry | q in waiting1 && e in waiting1[q]
      ensures e.client in clients && q in clients[e.client].keys && clients[e.client].keys[q] == e.node
    {
      assert q in waiting && e in waiting[q];
    }
  }

  lemma RotatedList(list: seq<Entry>)
    ensures NodesDistinct(list) ==> NodesDistinct(Rotate(list))
    ensures forall e :: e in Rotate(list) <==> e in list
    ensures |Rotate(list)| == |list|
  {
    if |list| > 1 {
      assert list == [list[0]] + list[1..];
    }
  }
}
