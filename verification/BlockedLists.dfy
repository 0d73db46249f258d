/**
 The lists of waiting clients in the heap: blocking_keys as a table of linked lists, and
 for every client the keys it waits for, each with a pointer to the list node that holds
 the client. Adding a client, deleting it at the node it remembers and rotating a list do
 to these what the functions of BlockedIndex do to the tables with numbered nodes: the
 number of a node is its name, and a node keeps its name wherever it goes.
 */
module BlockedLists {
  import opened BlockedIndex
  import opened AdList

  type Cell = Node<ClientId>

  /** The entries the nodes stand for. */
  ghost function Named(nodes: seq<Cell>, names: map<Cell, Entry>): (r: seq<Entry>)
    requires AllNamed(nodes, names)
    ensures |r| == |nodes| && forall i :: 0 <= i < |r| ==> r[i] == names[nodes[i]]
  {
    seq(|nodes|, i requires 0 <= i < |nodes| => names[nodes[i]])
  }

  ghost predicate NamesDistinct(names: map<Cell, Entry>) {
    forall m, n :: m in names && n in names && m != n ==> names[m].node != names[n].node
  }

  lemma NamedDistinct(nodes: seq<Cell>, names: map<Cell, Entry>)
    requires AllNamed(nodes, names) && NamesDistinct(names) && Distinct(nodes)
    ensures NodesDistinct(Named(nodes, names))
  {
    forall i, j | 0 <= i < j < |nodes|
      ensures names[nodes[i]].node != names[nodes[j]].node
    {
      assert nodes[i] in nodes && nodes[j] in nodes;
    }
  }

  /** Deleting a node deletes the entry of its name. */
  lemma NamedWithout(nodes: seq<Cell>, names: map<Cell, Entry>, i: nat)
    requires AllNamed(nodes, names) && NamesDistinct(names) && Distinct(nodes) && i < |nodes|
    ensures AllNamed(nodes[..i] + nodes[i + 1..], names)
    ensures Named(nodes[..i] + nodes[i + 1..], names) == RemoveNode(Named(nodes, names), names[nodes[i]].node)
  {
    hide Distinct, NamesDistinct, NodesDistinct, RemoveNode;
    NamedDistinct(nodes, names);
    var all, rest := Named(nodes, names), nodes[..i] + nodes[i + 1..];
    forall j | 0 <= j < |rest| ensures rest[j] in nodes {
      assert rest[j] == nodes[if j < i then j else j + 1];
    }
    assert Named(rest, names) == all[..i] + all[i + 1..];
    RemoveNodeRemoves(all, i);
  }

  lemma NamedRotated(nodes: seq<Cell>, names: map<Cell, Entry>, turned: seq<Cell>)
    requires AllNamed(nodes, names)
    requires turned == if |nodes| <= 1 then nodes else nodes[1..] + [nodes[0]]
    ensures (forall n :: n in turned <==> n in nodes) && AllNamed(turned, names)
    ensures Named(turned, names) == Rotate(Named(nodes, names))
  {
    if |nodes| > 1 {
      assert nodes == [nodes[0]] + nodes[1..];
    }
  }

  lemma NamedMore(nodes: seq<Cell>, names: map<Cell, Entry>, node: Cell, e: Entry)
    requires AllNamed(nodes, names) && node !in names
    ensures AllNamed(nodes + [node], names[node := e]) && AllNamed(nodes, names[node := e])
    ensures Named(nodes + [node], names[node := e]) == Named(nodes, names) + [e]
    ensures Named(nodes, names[node := e]) == Named(nodes, names)
  {
    assert forall i :: 0 <= i < |nodes| ==> nodes[i] in nodes;
  }

  type Shapes = map<Key, seq<Cell>>
  type Stored = map<ClientId, map<Key, Cell>>

  /** No list is empty or shares a node with another, and every node has a name of its own. */
  ghost predicate Apart(shapes: Shapes, names: map<Cell, Entry>, next: nat) {
    && (forall k :: k in shapes ==> shapes[k] != [] && Distinct(shapes[k]) && AllNamed(shapes[k], names))
    && (forall k, q :: k in shapes && q in shapes && k != q ==> Disjoint(shapes[k], shapes[q]))
    && NamesDistinct(names) && (forall n :: n in names ==> names[n].node < next)
  }

  ghost predicate AllNamed(nodes: seq<Cell>, names: map<Cell, Entry>) {
    forall n :: n in nodes ==> n in names
  }

  ghost predicate Disjoint(a: seq<Cell>, b: seq<Cell>) {
    forall n :: n in a ==> n !in b
  }

  /** What a client remembers for a key is the node that holds it, and every node is remembered by its client. */
  ghost predicate Remembered(shapes: Shapes, stored: Stored, names: map<Cell, Entry>) {
    && (forall c, k :: c in stored && k in stored[c] ==> Remembers(shapes, names, c, k, stored[c][k]))
    && (forall k, n :: k in shapes && n in shapes[k] ==> HeldBy(stored, names, k, n))
  }

  ghost predicate HeldBy(stored: Stored, names: map<Cell, Entry>, k: Key, n: Cell) {
    && n in names && names[n].client in stored
    && k in stored[names[n].client] && stored[names[n].client][k] == n
  }

  ghost predicate Remembers(shapes: Shapes, names: map<Cell, Entry>, c: ClientId, k: Key, node: Cell) {
    k in shapes && node in shapes[k] && node in names && names[node].client == c
  }

  /** blocking_keys, with nodes named by numbers. */
  ghost function WaitingOf(shapes: Shapes, names: map<Cell, Entry>): Waiting
    requires forall k :: k in shapes ==> AllNamed(shapes[k], names)
  {
    map k | k in shapes :: Named(shapes[k], names)
  }

  /** bpop.keys, with nodes named by numbers. */
  ghost function KeysOf(keys: map<Key, Cell>, names: map<Cell, Entry>): map<Key, nat> {
    map k | k in keys && keys[k] in names :: names[keys[k]].node
  }

  ghost function AllKeysOf(stored: Stored, names: map<Cell, Entry>): KeyTable {
    map c | c in stored :: KeysOf(stored[c], names)
  }

  lemma KeysAre(shapes: Shapes, stored: Stored, names: map<Cell, Entry>, c: ClientId)
    requires Remembered(shapes, stored, names) && c in stored
    ensures c in AllKeysOf(stored, names)
    ensures var keys := AllKeysOf(stored, names)[c];
            && keys.Keys == stored[c].Keys
            && forall k :: k in stored[c] ==> stored[c][k] in names && keys[k] == names[stored[c][k]].node
  {
    StoredNamed(shapes, stored, names, c);
  }

  /** The lists and what the clients remember agree, as the tables with numbered nodes do. */
  lemma HeapAgrees(shapes: Shapes, stored: Stored, names: map<Cell, Entry>, next: nat, clients: Clients)
    requires Apart(shapes, names, next) && Remembered(shapes, stored, names)
    requires KeysOfAll(clients) == AllKeysOf(stored, names)
    ensures (forall k :: k in shapes ==> AllNamed(shapes[k], names)) && Agree(WaitingOf(shapes, names), clients)
    ensures NodesBelow(WaitingOf(shapes, names), next)
  {
    hide Distinct, NamesDistinct, Disjoint, Apart, Remembered, NodesDistinct, KeysOfAll, AllKeysOf;
    AllShapesNamed(shapes, names, next);
    ApartNames(shapes, names, next);
    var waiting := WaitingOf(shapes, names);
    forall k | k in waiting
      ensures waiting[k] != [] && NodesDistinct(waiting[k])
    {
      ApartAt(shapes, names, next, k);
      NamedDistinct(shapes[k], names);
    }
    forall k: Key, e: Entry | k in waiting && e in waiting[k]
      ensures e.client in clients && k in clients[e.client].keys && clients[e.client].keys[k] == e.node && e.node < next
    {
      var i :| 0 <= i < |waiting[k]| && waiting[k][i] == e;
      EntryRemembered(shapes, stored, names, next, k, i, clients);
    }
    forall c, k | c in clients && k in clients[c].keys
      ensures k in waiting && Entry(clients[c].keys[k], c) in waiting[k]
    {
      KeyListed(shapes, stored, names, c, k, clients);
      var i :| 0 <= i < |shapes[k]| && shapes[k][i] == stored[c][k];
      assert waiting[k][i] == Entry(clients[c].keys[k], c);
    }
  }

  lemma EntryRemembered(shapes: Shapes, stored: Stored, names: map<Cell, Entry>, next: nat, k: Key, i: nat,
                        clients: Clients)
    requires Apart(shapes, names, next) && Remembered(shapes, stored, names) && k in shapes && i < |shapes[k]|
    requires KeysOfAll(clients) == AllKeysOf(stored, names)
    ensures shapes[k][i] in names
    ensures var e := names[shapes[k][i]];
            && e.client in clients && k in clients[e.client].keys && clients[e.client].keys[k] == e.node
            && e.node < next
  {
    hide Distinct, NamesDistinct, Disjoint, AllNamed, Remembered;
    var n := shapes[k][i];
    assert HeldBy(stored, names, k, n) by { NodeHeld(shapes, stored, names, k, n); }
    var c := names[n].client;
    KeysAre(shapes, stored, names, c);
    assert c in AllKeysOf(stored, names) && c in KeysOfAll(clients);
  }

  lemma NodeHeld(shapes: Shapes, stored: Stored, names: map<Cell, Entry>, k: Key, n: Cell)
    requires Remembered(shapes, stored, names) && k in shapes && n in shapes[k]
    ensures HeldBy(stored, names, k, n)
  {
  }

  lemma KeyListed(shapes: Shapes, stored: Stored, names: map<Cell, Entry>, c: ClientId, k: Key, clients: Clients)
    requires Remembered(shapes, stored, names) && KeysOfAll(clients) == AllKeysOf(stored, names)
    requires c in clients && k in clients[c].keys
    ensures c in stored && k in stored[c] && k in shapes && stored[c][k] in shapes[k] && stored[c][k] in names
    ensures names[stored[c][k]] == Entry(clients[c].keys[k], c)
  {
    hide Remembered;
    assert c in KeysOfAll(clients) && c in AllKeysOf(stored, names);
    KeysAre(shapes, stored, names, c);
    RememberedAt(shapes, stored, names, c, k);
  }

  lemma NothingStored(clients: set<ClientId>, stored: Stored)
    requires stored == map c | c in clients :: map[]
    ensures AllKeysOf(stored, map[]) == map c | c in clients :: map[]
    ensures Apart(map[], map[], 0) && Remembered(map[], stored, map[]) && WaitingOf(map[], map[]) == map[]
  {
    assert KeysOf(map[], map[]) == map[];
  }

  lemma KeysMore(keys: map<Key, Cell>, names: map<Cell, Entry>, e: Entry, node: Cell)
    requires node !in names && forall q :: q in keys ==> keys[q] in names
    ensures KeysOf(keys, names[node := e]) == KeysOf(keys, names)
  {
  }

  lemma KeysPlus(keys: map<Key, Cell>, names: map<Cell, Entry>, k: Key, node: Cell)
    requires node in names
    ensures var more: map<Key, nat> := KeysOf(keys, names)[k := names[node].node];
            KeysOf(keys[k := node], names) == more
  {
  }

  lemma KeysLess(keys: map<Key, Cell>, names: map<Cell, Entry>, k: Key)
    ensures KeysOf(keys - {k}, names) == KeysOf(keys, names) - {k}
  {
  }

  lemma StoredNamed(shapes: Shapes, stored: Stored, names: map<Cell, Entry>, c: ClientId)
    requires Remembered(shapes, stored, names) && c in stored
    ensures forall k :: k in stored[c] ==> stored[c][k] in names
  {
    forall k | k in stored[c]
      ensures stored[c][k] in names
    {
      assert Remembers(shapes, names, c, k, stored[c][k]);
    }
  }

  lemma KeysWithNode(shapes: Shapes, stored: Stored, names: map<Cell, Entry>, c: ClientId, k: Key, node: Cell,
                     next: nat)
    requires Remembered(shapes, stored, names) && c in stored && node !in names
    ensures var keys: map<Key, nat> := AllKeysOf(stored, names)[c][k := next];
            AllKeysOf(stored[c := stored[c][k := node]], names[node := Entry(next, c)])
              == AllKeysOf(stored, names)[c := keys]
  {
    hide KeysOf, Remembered;
    var names1 := names[node := Entry(next, c)];
    forall d | d in stored
      ensures KeysOf(stored[d], names1) == KeysOf(stored[d], names)
    {
      StoredNamed(shapes, stored, names, d);
      KeysMore(stored[d], names, Entry(next, c), node);
    }
    KeysPlus(stored[c], names1, k, node);
  }

  lemma KeysWithoutKey(stored: Stored, names: map<Cell, Entry>, c: ClientId, k: Key)
    requires c in stored
    ensures AllKeysOf(stored[c := stored[c] - {k}], names)
         == AllKeysOf(stored, names)[c := AllKeysOf(stored, names)[c] - {k}]
  {
    hide KeysOf;
    KeysLess(stored[c], names, k);
  }

  /** The tables once client c has joined the list of k in a new node. */
  lemma JoinedTables(shapes: Shapes, stored: Stored, names: map<Cell, Entry>, next: nat, c: ClientId, k: Key,
                     node: Cell, nodes: seq<Cell>)
    requires Apart(shapes, names, next) && Remembered(shapes, stored, names) && c in stored && k !in stored[c]
    requires node !in names && nodes == (if k in shapes then shapes[k] else []) + [node] && Distinct(nodes)
    ensures (forall q :: q in shapes ==> AllNamed(shapes[q], names)) && c in AllKeysOf(stored, names)
    ensures k !in AllKeysOf(stored, names)[c]
    ensures var shapes1, stored1, names1 := shapes[k := nodes], stored[c := stored[c][k := node]],
                                            names[node := Entry(next, c)];
            && Apart(shapes1, names1, next + 1) && Remembered(shapes1, stored1, names1)
            && (forall q :: q in shapes1 ==> AllNamed(shapes1[q], names1))
            && Index(WaitingOf(shapes1, names1), AllKeysOf(stored1, names1), next + 1)
               == Joined(Index(WaitingOf(shapes, names), AllKeysOf(stored, names), next), c, k)
  {
    hide Distinct, Named, Apart, Remembered, AllNamed, WaitingOf, AllKeysOf, ListOf;
    AllShapesNamed(shapes, names, next);
    KeysAre(shapes, stored, names, c);
    JoinedShapes(shapes, stored, names, next, c, k, node, nodes);
    AllShapesNamed(shapes[k := nodes], names[node := Entry(next, c)], next + 1);
    KeysWithNode(shapes, stored, names, c, k, node, next);
  }

  /** The lists without the node at i of the list of k. */
  ghost function ShapeLess(shapes: Shapes, k: Key, i: nat): Shapes
    requires k in shapes && i < |shapes[k]|
  {
    var rest := shapes[k][..i] + shapes[k][i + 1..];
    if rest == [] then shapes - {k} else shapes[k := rest]
  }

  /** The tables once client c has left the list of k at the node it remembers. */
  lemma LeftTables(shapes: Shapes, stored: Stored, names: map<Cell, Entry>, next: nat, c: ClientId, k: Key, i: nat)
    requires Apart(shapes, names, next) && Remembered(shapes, stored, names) && c in stored && k in stored[c]
    requires k in shapes && i < |shapes[k]| && shapes[k][i] == stored[c][k]
    ensures (forall q :: q in shapes ==> AllNamed(shapes[q], names)) && c in AllKeysOf(stored, names)
    ensures k in AllKeysOf(stored, names)[c] && k in WaitingOf(shapes, names)
    ensures var shapes1, stored1 := ShapeLess(shapes, k, i), stored[c := stored[c] - {k}];
            && Apart(shapes1, names, next) && Remembered(shapes1, stored1, names)
            && (forall q :: q in shapes1 ==> AllNamed(shapes1[q], names))
            && Index(WaitingOf(shapes1, names), AllKeysOf(stored1, names), next)
               == Left(Index(WaitingOf(shapes, names), AllKeysOf(stored, names), next), c, k)
  {
    hide Distinct, Named, Apart, Remembered, AllNamed, WaitingOf, AllKeysOf, Without;
    AllShapesNamed(shapes, names, next);
    KeysAre(shapes, stored, names, c);
    ApartAt(shapes, names, next, k);
    CutDistinct(shapes[k], i);
    LeftShapes(shapes, stored, names, next, c, k, i, shapes[k][..i] + shapes[k][i + 1..]);
    AllShapesNamed(ShapeLess(shapes, k, i), names, next);
    KeysWithoutKey(stored, names, c, k);
  }

  lemma CutDistinct(nodes: seq<Cell>, i: nat)
    requires Distinct(nodes) && i < |nodes|
    ensures Distinct(nodes[..i] + nodes[i + 1..])
  {
  }

  lemma ApartFrom(shapes: Shapes, names: map<Cell, Entry>, next: nat, p: Key, q: Key)
    requires Apart(shapes, names, next) && p in shapes && q in shapes && p != q
    ensures Disjoint(shapes[p], shapes[q])
  {
  }

  lemma ApartAt(shapes: Shapes, names: map<Cell, Entry>, next: nat, k: Key)
    requires Apart(shapes, names, next) && k in shapes
    ensures shapes[k] != [] && Distinct(shapes[k]) && AllNamed(shapes[k], names)
  {
  }

  /** A list with some of its nodes, in another order or not. */
  lemma ApartWithin(shapes: Shapes, names: map<Cell, Entry>, next: nat, k: Key, nodes: seq<Cell>)
    requires Apart(shapes, names, next) && k in shapes && nodes != [] && Distinct(nodes)
    requires forall n :: n in nodes ==> n in shapes[k]
    ensures Apart(shapes[k := nodes], names, next)
  {
    hide Distinct, NamesDistinct;
    var shapes1 := shapes[k := nodes];
    forall p, q | p in shapes1 && q in shapes1 && p != q
      ensures Disjoint(shapes1[p], shapes1[q])
    {
      ApartFrom(shapes, names, next, p, q);
    }
  }

  lemma ApartWithout(shapes: Shapes, names: map<Cell, Entry>, next: nat, k: Key)
    requires Apart(shapes, names, next)
    ensures Apart(shapes - {k}, names, next)
  {
    hide Distinct, NamesDistinct, Disjoint, AllNamed;
  }

  lemma WaitingAt(shapes: Shapes, names: map<Cell, Entry>, next: nat, k: Key, nodes: seq<Cell>)
    requires Apart(shapes, names, next) && Apart(shapes[k := nodes], names, next) && AllNamed(nodes, names)
    ensures WaitingOf(shapes[k := nodes], names) == WaitingOf(shapes, names)[k := Named(nodes, names)]
  {
    hide Distinct, NamesDistinct, Disjoint, AllNamed, Named;
    ApartAt(shapes[k := nodes], names, next, k);
  }

  lemma RememberedWithin(shapes: Shapes, stored: Stored, names: map<Cell, Entry>, k: Key, nodes: seq<Cell>)
    requires Remembered(shapes, stored, names) && k in shapes && forall n :: n in shapes[k] <==> n in nodes
    ensures Remembered(shapes[k := nodes], stored, names)
  {
    forall q, n | q in shapes[k := nodes] && n in shapes[k := nodes][q]
      ensures HeldBy(stored, names, q, n)
    {
      assert q in shapes && n in shapes[q];
    }
    forall c, q | c in stored && q in stored[c]
      ensures Remembers(shapes[k := nodes], names, c, q, stored[c][q])
    {
      assert Remembers(shapes, names, c, q, stored[c][q]);
    }
  }

  lemma RotatedShapes(shapes: Shapes, stored: Stored, names: map<Cell, Entry>, next: nat, k: Key, turned: seq<Cell>)
    requires Apart(shapes, names, next) && Remembered(shapes, stored, names) && k in shapes && Distinct(turned)
    requires turned == if |shapes[k]| <= 1 then shapes[k] else shapes[k][1..] + [shapes[k][0]]
    ensures var shapes1 := shapes[k := turned];
            && Apart(shapes1, names, next) && Remembered(shapes1, stored, names)
            && WaitingOf(shapes1, names) == WaitingOf(shapes, names)[k := Rotate(WaitingOf(shapes, names)[k])]
  {
    hide Distinct, NamesDistinct, Named, Apart, Remembered, AllNamed;
    ApartAt(shapes, names, next, k);
    NamedRotated(shapes[k], names, turned);
    ApartWithin(shapes, names, next, k, turned);
    RememberedWithin(shapes, stored, names, k, turned);
    WaitingAt(shapes, names, next, k, turned);
    NamedAt(shapes, names, next, k);
  }

  lemma NamedAt(shapes: Shapes, names: map<Cell, Entry>, next: nat, k: Key)
    requires Apart(shapes, names, next) && k in shapes
    ensures AllNamed(shapes[k], names) && WaitingOf(shapes, names)[k] == Named(shapes[k], names)
  {
    hide Distinct, NamesDistinct, Disjoint, Named;
  }

  /** One client leaves one list at the node it remembers. */
  lemma LeftShapes(shapes: Shapes, stored: Stored, names: map<Cell, Entry>, next: nat, c: ClientId, k: Key, i: nat,
                   rest: seq<Cell>)
    requires Apart(shapes, names, next) && Remembered(shapes, stored, names) && c in stored && k in stored[c]
    requires k in shapes && i < |shapes[k]| && shapes[k][i] == stored[c][k] && Distinct(rest)
    requires rest == shapes[k][..i] + shapes[k][i + 1..] && stored[c][k] in names
    ensures var shapes1 := if rest == [] then shapes - {k} else shapes[k := rest];
            && Apart(shapes1, names, next) && Remembered(shapes1, stored[c := stored[c] - {k}], names)
            && k in WaitingOf(shapes, names)
            && WaitingOf(shapes1, names) == Without(WaitingOf(shapes, names), k, names[stored[c][k]].node)
  {
    hide Distinct, NamesDistinct, Named, Apart, Remembered, RemoveNode;
    ApartAt(shapes, names, next, k);
    NamedAt(shapes, names, next, k);
    ApartNames(shapes, names, next);
    NamedWithout(shapes[k], names, i);
    RememberedLess(shapes, stored, names, next, c, k, i, rest);
    if rest == [] {
      ApartWithout(shapes, names, next, k);
      WaitingLess(shapes, names, next, k);
    } else {
      assert forall n :: n in rest ==> n in shapes[k];
      ApartWithin(shapes, names, next, k, rest);
      WaitingAt(shapes, names, next, k, rest);
    }
  }

  lemma ApartNames(shapes: Shapes, names: map<Cell, Entry>, next: nat)
    requires Apart(shapes, names, next)
    ensures NamesDistinct(names)
  {
  }

  lemma WaitingLess(shapes: Shapes, names: map<Cell, Entry>, next: nat, k: Key)
    requires Apart(shapes, names, next) && Apart(shapes - {k}, names, next)
    ensures WaitingOf(shapes - {k}, names) == WaitingOf(shapes, names) - {k}
  {
    hide Distinct, NamesDistinct, Disjoint, Named;
  }

  lemma RememberedLess(shapes: Shapes, stored: Stored, names: map<Cell, Entry>, next: nat, c: ClientId, k: Key,
                       i: nat, rest: seq<Cell>)
    requires Remembered(shapes, stored, names) && c in stored && k in stored[c] && k in shapes && i < |shapes[k]|
    requires shapes[k][i] == stored[c][k] && rest == shapes[k][..i] + shapes[k][i + 1..] && Distinct(shapes[k])
    ensures Remembered(if rest == [] then shapes - {k} else shapes[k := rest], stored[c := stored[c] - {k}], names)
  {
    var shapes1, stored1 := if rest == [] then shapes - {k} else shapes[k := rest], stored[c := stored[c] - {k}];
    assert Remembers(shapes, names, c, k, stored[c][k]);
    forall q, n | q in shapes1 && n in shapes1[q]
      ensures HeldBy(stored1, names, q, n)
    {
      if q == k {
        var j :| 0 <= j < |rest| && rest[j] == n;
        assert n == shapes[k][if j < i then j else j + 1] && n != shapes[k][i];
      }
      assert q in shapes && n in shapes[q] && HeldBy(stored, names, q, n);
    }
    forall d, q | d in stored1 && q in stored1[d]
      ensures Remembers(shapes1, names, d, q, stored1[d][q])
    {
      var node := stored1[d][q];
      assert Remembers(shapes, names, d, q, node);
      if q == k {
        assert node != shapes[k][i];
        var j :| 0 <= j < |shapes[k]| && shapes[k][j] == node;
        assert rest[if j < i then j else j - 1] == node;
      }
    }
  }

  /** One client joins the tail of one list, in a new node. */
  lemma JoinedShapes(shapes: Shapes, stored: Stored, names: map<Cell, Entry>, next: nat, c: ClientId, k: Key,
                     node: Cell, nodes: seq<Cell>)
    requires Apart(shapes, names, next) && Remembered(shapes, stored, names) && c in stored && k !in stored[c]
    requires node !in names && nodes == (if k in shapes then shapes[k] else []) + [node] && Distinct(nodes)
    ensures var shapes1, names1 := shapes[k := nodes], names[node := Entry(next, c)];
            && Apart(shapes1, names1, next + 1)
            && Remembered(shapes1, stored[c := stored[c][k := node]], names1)
            && WaitingOf(shapes1, names1)
               == WaitingOf(shapes, names)[k := ListOf(WaitingOf(shapes, names), k) + [Entry(next, c)]]
  {
    hide Distinct, Named, Apart, Remembered;
    JoinedApart(shapes, names, next, c, k, node, nodes);
    JoinedRemembered(shapes, stored, names, next, c, k, node, nodes);
    JoinedWaiting(shapes, names, next, c, k, node, nodes);
  }

  lemma JoinedApart(shapes: Shapes, names: map<Cell, Entry>, next: nat, c: ClientId, k: Key, node: Cell,
                    nodes: seq<Cell>)
    requires Apart(shapes, names, next) && node !in names && Distinct(nodes)
    requires nodes == (if k in shapes then shapes[k] else []) + [node]
    ensures Apart(shapes[k := nodes], names[node := Entry(next, c)], next + 1)
  {
    hide Distinct;
    var shapes1, names1 := shapes[k := nodes], names[node := Entry(next, c)];
    forall p, q | p in shapes1 && q in shapes1 && p != q
      ensures Disjoint(shapes1[p], shapes1[q])
    {
      if p in shapes {
        ApartAt(shapes, names, next, p);
      }
      if q in shapes {
        ApartAt(shapes, names, next, q);
      }
      if p in shapes && q in shapes {
        ApartFrom(shapes, names, next, p, q);
      }
    }
  }

  lemma JoinedRemembered(shapes: Shapes, stored: Stored, names: map<Cell, Entry>, next: nat, c: ClientId, k: Key,
                         node: Cell, nodes: seq<Cell>)
    requires Remembered(shapes, stored, names) && c in stored && k !in stored[c] && node !in names
    requires nodes == (if k in shapes then shapes[k] else []) + [node]
    ensures Remembered(shapes[k := nodes], stored[c := stored[c][k := node]], names[node := Entry(next, c)])
  {
    var shapes1, stored1, names1 := shapes[k := nodes], stored[c := stored[c][k := node]],
                                    names[node := Entry(next, c)];
    forall q, n | q in shapes1 && n in shapes1[q]
      ensures HeldBy(stored1, names1, q, n)
    {
      if n != node {
        assert q in shapes && n in shapes[q] && HeldBy(stored, names, q, n);
      }
    }
    forall d, q | d in stored1 && q in stored1[d]
      ensures Remembers(shapes1, names1, d, q, stored1[d][q])
    {
      if !(d == c && q == k) {
        assert Remembers(shapes, names, d, q, stored[d][q]);
      }
    }
  }

  lemma JoinedWaiting(shapes: Shapes, names: map<Cell, Entry>, next: nat, c: ClientId, k: Key, node: Cell,
                      nodes: seq<Cell>)
    requires Apart(shapes, names, next) && node !in names
    requires nodes == (if k in shapes then shapes[k] else []) + [node]
    requires Apart(shapes[k := nodes], names[node := Entry(next, c)], next + 1)
    ensures WaitingOf(shapes[k := nodes], names[node := Entry(next, c)])
         == WaitingOf(shapes, names)[k := ListOf(WaitingOf(shapes, names), k) + [Entry(next, c)]]
  {
    hide Distinct, NamesDistinct, Disjoint, Named;
    var names1 := names[node := Entry(next, c)];
    forall q | q in shapes
      ensures AllNamed(shapes[q], names) && AllNamed(shapes[q], names1)
      ensures Named(shapes[q], names1) == Named(shapes[q], names)
    {
      NamedMore(shapes[q], names, node, Entry(next, c));
    }
    NamedMore(if k in shapes then shapes[k] else [], names, node, Entry(next, c));
    NamedNothing(names);
  }

  lemma NamedNothing(names: map<Cell, Entry>)
    ensures Named([], names) == []
  {
  }

  lemma AllShapesNamed(shapes: Shapes, names: map<Cell, Entry>, next: nat)
    requires Apart(shapes, names, next)
    ensures forall k :: k in shapes ==> AllNamed(shapes[k], names)
  {
  }

  lemma ShapeFacts(shapes: Shapes, names: map<Cell, Entry>, next: nat, k: Key)
    requires Apart(shapes, names, next) && k in shapes
    ensures AllNamed(shapes[k], names) && forall q :: q in shapes && q != k ==> Disjoint(shapes[q], shapes[k])
  {
  }

  /** No two keys have the same list. */
  ghost predicate ListsDiffer(lists: map<Key, List<ClientId>>) {
    forall k, q :: k in lists && q in lists && k != q ==> lists[k] != lists[q]
  }

  ghost predicate ValuesRight(names: map<Cell, Entry>)
    reads set n | n in names :: n`value
  {
    forall n :: n in names ==> n.value == names[n].client
  }

  ghost function Cells(lists: map<Key, List<ClientId>>): set<Cell>
    reads lists.Values`nodes
  {
    set k, n | k in lists && n in lists[k].nodes :: n
  }

  ghost function ShapeCells(shape: Shapes): set<Cell> {
    set k, n | k in shape && n in shape[k] :: n
  }

  lemma CellsInShape(lists: map<Key, List<ClientId>>)
    ensures Cells(lists) == ShapeCells(ShapeOf(lists))
  {
  }

  lemma FewerCells(shape: Shapes, k: Key, rest: seq<Cell>)
    requires k in shape && forall n :: n in rest ==> n in shape[k]
    ensures ShapeCells(shape - {k}) <= ShapeCells(shape) && ShapeCells(shape[k := rest]) <= ShapeCells(shape)
  {
  }

  lemma OneMoreCell(shape: Shapes, k: Key, node: Cell)
    ensures ShapeCells(shape[k := (if k in shape then shape[k] else []) + [node]]) == ShapeCells(shape) + {node}
  {
    var shape1 := shape[k := (if k in shape then shape[k] else []) + [node]];
    forall n
      ensures n in ShapeCells(shape1) <==> n in ShapeCells(shape) + {node}
    {
      assert node in shape1[k];
      if n in ShapeCells(shape) {
        var q :| q in shape && n in shape[q];
        assert q in shape1 && n in shape1[q];
      }
    }
  }

  lemma FewerValues(a: map<Key, List<ClientId>>, b: map<Key, List<ClientId>>)
    requires forall k :: k in b ==> k in a && b[k] == a[k]
    ensures b.Values <= a.Values
  {
  }

  ghost predicate AllValid(lists: map<Key, List<ClientId>>)
    reads lists.Values, Cells(lists)
  {
    forall k :: k in lists ==> (forall n :: n in lists[k].nodes ==> n in Cells(lists)) && lists[k].Valid()
  }

  ghost function ShapeOf(lists: map<Key, List<ClientId>>): (r: Shapes)
    reads lists.Values`nodes
    ensures r.Keys == lists.Keys && forall k :: k in lists ==> r[k] == lists[k].nodes
  {
    map k | k in lists :: lists[k].nodes
  }

  function Turned(nodes: seq<Cell>): seq<Cell> {
    if |nodes| <= 1 then nodes else nodes[1..] + [nodes[0]]
  }

  lemma TurnedMembers(nodes: seq<Cell>)
    ensures forall n :: n in Turned(nodes) <==> n in nodes
  {
    if |nodes| > 1 {
      assert nodes == [nodes[0]] + nodes[1..];
    }
  }

  lemma NothingShared()
    ensures forall nodes: seq<Cell> :: Disjoint(nodes, [])
  {
  }

  lemma OneShapeChanged(shape: Shapes, shape1: Shapes, k: Key, nodes: seq<Cell>)
    requires shape1.Keys == shape.Keys + {k} && shape1[k] == nodes
    requires forall q :: q in shape && q != k ==> shape1[q] == shape[q]
    ensures shape1 == shape[k := nodes]
  {
  }

  class WaitingLists {
    var lists: map<Key, List<ClientId>>
    var stored: Stored
    ghost var names: map<Cell, Entry>
    ghost var next: nat

    ghost predicate Valid()
      reads this, lists.Values, Cells(lists), names.Keys
    {
      && ListsDiffer(lists) && ValuesRight(names) && AllValid(lists)
      && Apart(ShapeOf(lists), names, next) && Remembered(ShapeOf(lists), stored, names)
    }

    /** blocking_keys, with nodes named by numbers. */
    ghost function View(): Waiting
      requires Valid()
      reads this, lists.Values, Cells(lists), names.Keys
    {
      WaitingOf(ShapeOf(lists), names)
    }

    /** Both tables, with nodes named by numbers. */
    ghost function Tables(): Index
      requires Valid()
      reads this, lists.Values, Cells(lists), names.Keys
    {
      Index(View(), AllKeysOf(stored, names), next)
    }

    /** The lists and what the clients remember agree with each other. */
    lemma TablesAgree(clients: Clients)
      requires Valid() && KeysOfAll(clients) == Tables().keys
      ensures Agree(Tables().waiting, clients) && NodesBelow(Tables().waiting, Tables().next)
    {
      hide Linked, Distinct, Apart, Remembered, Named, AllNamed, ListsDiffer, AllValid, WaitingOf, AllKeysOf, KeysOfAll,
           ValuesRight, Agree, NodesBelow;
      HeapAgrees(ShapeOf(lists), stored, names, next, clients);
    }

    constructor (clients: set<ClientId>)
      ensures Valid() && Tables() == Index(map[], map c | c in clients :: map[], 0)
      ensures lists == map[]
    {
      lists, names, next := map[], map[], 0;
      stored := map c | c in clients :: map[];
      new;
      NothingStored(clients, stored);
      assert ShapeOf(lists) == map[];
    }

    /** listRotateHeadToTail on one list, with the links of the others as they were. */
    method TurnList(k: Key)
      requires k in lists && ListsDiffer(lists) && AllValid(lists)
      requires forall q :: q in lists && q != k ==> Disjoint(lists[q].nodes, lists[k].nodes)
      modifies lists[k], lists[k].nodes`prev, lists[k].nodes`next
      ensures AllValid(lists) && lists[k].nodes == Turned(old(lists[k].nodes)) && Distinct(lists[k].nodes)
      ensures forall q :: q in lists && q != k ==> lists[q].nodes == old(ShapeOf(lists))[q]
    {
      hide Linked, Distinct;
      var l := lists[k];
      ghost var shape := ShapeOf(lists);
      TurnedMembers(l.nodes);
      l.RotateHeadToTail();
      forall q | q in lists && q != k
        ensures lists[q].nodes == shape[q] && lists[q].Valid()
      {
        assert old(lists[q].Valid()) && lists[q] != l;
        forall i | 0 <= i < |shape[q]|
          ensures unchanged(shape[q][i])
        {
          assert shape[q][i] in shape[q] && shape[q][i] !in shape[k];
        }
        assert lists[q].nodes == shape[q];
        assert Linked(shape[q]);
        assert Distinct(shape[q]);
      }
    }

    /** listRotateHeadToTail on the list of a key: no remembered node changes. */
    method RotateHead(k: Key)
      requires Valid() && k in lists
      modifies ListsOf(k), CellsOf(k)`prev, CellsOf(k)`next
      ensures Valid() && k in old(Tables()).waiting
      ensures Tables() == old(Tables()).(waiting := old(Tables()).waiting[k := Rotate(old(Tables()).waiting[k])])
    {
      hide Linked, Distinct, Apart, Remembered, Rotate, Named, AllNamed, ListsDiffer, AllValid;
      ghost var shape := ShapeOf(lists);
      ShapeFacts(shape, names, next, k);
      AllShapesNamed(shape, names, next);
      TurnList(k);
      OneShapeChanged(shape, ShapeOf(lists), k, Turned(shape[k]));
      RotatedShapes(shape, stored, names, next, k, Turned(shape[k]));
    }

    /** listDelNode on one list, with the links of the others as they were. */
    method CutList(k: Key, node: Cell, ghost i: nat)
      requires k in lists && ListsDiffer(lists) && AllValid(lists) && i < |lists[k].nodes| && lists[k].nodes[i] == node
      requires forall q :: q in lists && q != k ==> Disjoint(lists[q].nodes, lists[k].nodes)
      modifies lists[k], lists[k].nodes`prev, lists[k].nodes`next
      ensures AllValid(lists) && Distinct(lists[k].nodes)
      ensures lists[k].nodes == old(lists[k].nodes)[..i] + old(lists[k].nodes)[i + 1..]
      ensures forall q :: q in lists && q != k ==> lists[q].nodes == old(ShapeOf(lists))[q]
    {
      hide Linked, Distinct;
      var l := lists[k];
      ghost var shape := ShapeOf(lists);
      l.DelNode(node, i);
      assert forall n :: n in l.nodes ==> n in shape[k];
      forall q | q in lists && q != k
        ensures lists[q].nodes == shape[q] && lists[q].Valid()
      {
        assert old(lists[q].Valid()) && lists[q] != l;
        forall j | 0 <= j < |shape[q]|
          ensures unchanged(shape[q][j])
        {
          assert shape[q][j] in shape[q] && shape[q][j] !in shape[k];
        }
        assert lists[q].nodes == shape[q];
        assert Linked(shape[q]);
        assert Distinct(shape[q]);
      }
    }

    /** The node leaves the list of k, and the list the table if it was the last. */
    method TakeOut(k: Key, node: Cell, ghost i: nat)
      requires k in lists && ListsDiffer(lists) && AllValid(lists) && i < |lists[k].nodes| && lists[k].nodes[i] == node
      requires forall q :: q in lists && q != k ==> Disjoint(lists[q].nodes, lists[k].nodes)
      modifies this`lists, ListsOf(k), CellsOf(k)`prev, CellsOf(k)`next
      ensures ListsDiffer(lists) && AllValid(lists)
      ensures ShapeOf(lists) == ShapeLess(old(ShapeOf(lists)), k, i)
      ensures lists.Values <= old(lists.Values) && Cells(lists) <= old(Cells(lists))
    {
      hide Linked, Distinct, AllNamed, ListsDiffer, AllValid, Disjoint, Cells, ShapeCells;
      CellsInShape(lists);
      ghost var shape, lists0 := ShapeOf(lists), lists;
      CutList(k, node, i);
      ghost var rest := lists[k].nodes;
      OneShapeChanged(shape, ShapeOf(lists), k, rest);
      DropIfEmpty(k);
      assert shape[k := rest] - {k} == shape - {k};
      FewerCells(shape, k, rest);
      CellsInShape(lists);
      FewerValues(lists0, lists);
    }

    /** One key of unblockClientWaitingData: the client leaves the list at the node it remembers. */
    method Leave(c: ClientId, k: Key)
      requires Valid() && c in stored && k in stored[c]
      modifies this`lists, this`stored, ListsOf(k), CellsOf(k)`prev, CellsOf(k)`next
      ensures Valid() && stored == old(stored)[c := old(stored)[c] - {k}] && stored.Keys == old(stored.Keys)
      ensures lists.Values <= old(lists.Values) && Cells(lists) <= old(Cells(lists))
      ensures c in old(Tables()).keys && k in old(Tables()).keys[c] && k in old(Tables()).waiting
      ensures Tables() == Left(old(Tables()), c, k)
    {
      hide Linked, Distinct, Apart, Remembered, Named, AllNamed, ListsDiffer, RemoveNode, ValuesRight, WaitingOf,
           Without, AllValid, Disjoint, AllKeysOf, KeysOf, Left, Cells, ShapeLess;
      ghost var shape := ShapeOf(lists);
      RememberedAt(shape, stored, names, c, k);
      ShapeFacts(shape, names, next, k);
      var node := stored[c][k];
      ghost var i :| 0 <= i < |shape[k]| && shape[k][i] == node;
      LeftTables(shape, stored, names, next, c, k, i);
      TakeOut(k, node, i);
      Remember(stored[c := stored[c] - {k}]);
    }

    /** An emptied list leaves the table. */
    method DropIfEmpty(k: Key)
      requires k in lists && ListsDiffer(lists) && AllValid(lists)
      modifies this`lists
      ensures ListsDiffer(lists) && AllValid(lists)
      ensures ShapeOf(lists)
           == if old(lists[k].nodes) == [] then old(ShapeOf(lists)) - {k} else old(ShapeOf(lists))
      ensures forall q :: q in lists ==> q in old(lists) && lists[q] == old(lists)[q]
    {
      hide Linked, Distinct, ListsDiffer, AllNamed;
      EmptyAt(lists, k);
      if lists[k].len == 0 {
        FewerDiffer(lists, k);
        FewerValid(lists, k);
        lists := lists - {k};
      }
    }

    /** listAddNodeTail on one list, with the links of the others as they were. */
    method GrowList(k: Key, c: ClientId) returns (node: Cell)
      requires k in lists && ListsDiffer(lists) && AllValid(lists)
      requires forall q :: q in lists && q != k ==> Disjoint(lists[q].nodes, lists[k].nodes)
      modifies lists[k], lists[k].nodes`prev, lists[k].nodes`next
      ensures fresh(node) && node.value == c && lists[k].nodes == old(lists[k].nodes) + [node]
      ensures AllValid(lists) && Distinct(lists[k].nodes)
      ensures forall q :: q in lists && q != k ==> lists[q].nodes == old(ShapeOf(lists))[q]
    {
      hide Linked, Distinct;
      var l := lists[k];
      ghost var shape := ShapeOf(lists);
      l.AddNodeTail(c);
      node := l.tail;
      assert l.nodes == l.nodes[..|l.nodes| - 1] + [node];
      forall q | q in lists && q != k
        ensures lists[q].nodes == shape[q] && lists[q].Valid()
      {
        assert old(lists[q].Valid()) && lists[q] != l;
        forall j | 0 <= j < |shape[q]|
          ensures unchanged(shape[q][j])
        {
          assert shape[q][j] in shape[q] && shape[q][j] !in shape[k];
        }
        assert lists[q].nodes == shape[q];
        assert Linked(shape[q]);
        assert Distinct(shape[q]);
      }
    }

    /** A key nobody waits for yet gets a list. */
    method ListFor(k: Key)
      requires ListsDiffer(lists) && AllValid(lists)
      modifies this`lists
      ensures k in lists && ListsDiffer(lists) && AllValid(lists)
      ensures k in old(lists) ==> lists == old(lists)
      ensures k !in old(lists) ==> fresh(lists[k]) && lists == old(lists)[k := lists[k]] && lists[k].nodes == []
    {
      hide Linked, Distinct;
      if k !in lists {
        NoLinks<ClientId>();
        var l := new List<ClientId>();
        lists := lists[k := l];
      }
    }

    /** The client joins the tail of the list of k, which is made if need be. */
    method PutIn(k: Key, c: ClientId) returns (node: Cell)
      requires ListsDiffer(lists) && AllValid(lists)
      requires k in lists ==> forall q :: q in lists && q != k ==> Disjoint(lists[q].nodes, lists[k].nodes)
      modifies this`lists, ListsOf(k), CellsOf(k)`prev, CellsOf(k)`next
      ensures ListsDiffer(lists) && AllValid(lists) && fresh(node) && node.value == c
      ensures var shape := old(ShapeOf(lists));
              var nodes := (if k in shape then shape[k] else []) + [node];
              Distinct(nodes) && ShapeOf(lists) == shape[k := nodes]
      ensures forall q :: q in lists ==> (q in old(lists) && lists[q] == old(lists)[q]) || fresh(lists[q])
      ensures forall n :: n in Cells(lists) ==> n in old(Cells(lists)) || fresh(n)
    {
      hide Linked, Distinct, ListsDiffer, AllValid, Disjoint, Cells, ShapeCells;
      CellsInShape(lists);
      ghost var shape := ShapeOf(lists);
      ListFor(k);
      NothingShared();
      node := GrowList(k, c);
      OneShapeChanged(shape, ShapeOf(lists), k, lists[k].nodes);
      OneMoreCell(shape, k, node);
      CellsInShape(lists);
    }

    /** One key of blockForKeys: the client joins the tail of the list and remembers the node. */
    method Add(c: ClientId, k: Key)
      requires Valid() && c in stored && k !in stored[c]
      modifies this, ListsOf(k), CellsOf(k)`prev, CellsOf(k)`next
      ensures Valid() && stored.Keys == old(stored.Keys)
      ensures forall q :: q in lists ==> (q in old(lists) && lists[q] == old(lists)[q]) || fresh(lists[q])
      ensures forall n :: n in Cells(lists) ==> n in old(Cells(lists)) || fresh(n)
      ensures c in old(Tables()).keys && k !in old(Tables()).keys[c] && Tables() == Joined(old(Tables()), c, k)
    {
      hide Linked, Distinct, Apart, Remembered, Named, AllNamed, ListsDiffer, WaitingOf, ListOf, AllValid, Disjoint,
           AllKeysOf, KeysOf, Joined, Cells, ValuesRight;
      ghost var shape := ShapeOf(lists);
      if k in shape {
        ShapeFacts(shape, names, next, k);
      }
      var node := PutIn(k, c);
      JoinedTables(shape, stored, names, next, c, k, node, ShapeOf(lists)[k]);
      Record(node, c, stored[c := stored[c][k := node]]);
    }

    /** The loop of blockForKeys: a key named twice counts once. */
    method WaitForKeys(c: ClientId, keys: seq<Key>)
      requires Valid() && c in stored
      modifies this, lists.Values, Cells(lists)`prev, Cells(lists)`next
      ensures Valid() && stored.Keys == old(stored.Keys)
      ensures c in old(Tables()).keys && Tables() == JoinedAll(old(Tables()), c, keys)
    {
      hide Linked, Distinct, Apart, Remembered, Named, AllNamed, ListsDiffer, WaitingOf, ListOf, AllValid, Disjoint,
           AllKeysOf, KeysOf, ValuesRight, Joined, Cells, CellsOf, ListsOf, Tables, Valid;
      StoredKeys(c);
      assert keys[..0] == [];
      for j := 0 to |keys|
        invariant Valid() && stored.Keys == old(stored.Keys)
        invariant forall q :: q in lists ==> lists[q] in old(lists.Values) || fresh(lists[q])
        invariant forall n :: n in Cells(lists) ==> n in old(Cells(lists)) || fresh(n)
        invariant Tables() == JoinedAll(old(Tables()), c, keys[..j])
      {
        JoinedOneMore(old(Tables()), c, keys, j);
        StoredKeys(c);
        if keys[j] !in stored[c] {
          PartsOf(keys[j]);
          Add(c, keys[j]);
        } else {
          JoinedAlready(Tables(), c, keys[j]);
        }
      }
      assert keys[..|keys|] == keys;
    }

    lemma StoredKeys(c: ClientId)
      requires Valid() && c in stored
      ensures c in Tables().keys && Tables().keys[c].Keys == stored[c].Keys
    {
      hide Linked, Distinct, Apart, Remembered, AllKeysOf, WaitingOf, Named, AllNamed;
      KeysAre(ShapeOf(lists), stored, names, c);
    }

    lemma PartsOf(k: Key)
      ensures ListsOf(k) <= lists.Values && CellsOf(k) <= Cells(lists)
    {
    }

    /** The loop of unblockClientWaitingData: the client leaves every list at the node it remembers. */
    method LeaveLists(c: ClientId)
      requires Valid() && c in stored
      modifies this`lists, this`stored, lists.Values, Cells(lists)`prev, Cells(lists)`next
      ensures Valid() && c in old(Tables()).keys && Tables().next == old(Tables()).next
      ensures Tables().keys == old(Tables()).keys[c := map[]]
      ensures Removed(old(Tables()).waiting, Tables().waiting, old(Tables()).keys[c])
    {
      hide Linked, Distinct, Apart, Remembered, Named, AllNamed, ListsDiffer, WaitingOf, ListOf, AllValid, Disjoint,
           AllKeysOf, KeysOf, ValuesRight, Removed, Without, Left, Leaving, Cells, CellsOf, ListsOf, Tables, Valid;
      StoredKeys(c);
      ghost var x0 := Tables();
      LeavingStarts(x0, c);
      while stored[c].Keys != {}
        invariant Valid() && c in stored && Leaving(x0, Tables(), c)
        invariant lists.Values <= old(lists.Values) && Cells(lists) <= old(Cells(lists))
        decreases stored[c].Keys
      {
        var k: Key :| k in stored[c];
        PartsOf(k);
        ghost var x := Tables();
        Leave(c, k);
        LeavingStep(x0, x, c, k);
      }
      StoredKeys(c);
      LeavingEnds(x0, Tables(), c);
    }

    /** What the clients remember has no part in the lists. */
    method Remember(stored1: Stored)
      requires AllValid(lists)
      modifies this`stored
      ensures AllValid(lists) && stored == stored1
    {
      hide Linked, Distinct;
      stored := stored1;
    }

    /** A new node gets the next number as its name, and its client remembers it. */
    method Record(node: Cell, c: ClientId, stored1: Stored)
      requires AllValid(lists) && ValuesRight(names) && node !in names && node.value == c
      modifies this`names, this`next, this`stored
      ensures AllValid(lists) && ValuesRight(names) && stored == stored1
      ensures names == old(names)[node := Entry(old(next), c)] && next == old(next) + 1
    {
      hide Linked, Distinct;
      names := names[node := Entry(next, c)];
      next := next + 1;
      stored := stored1;
    }

    ghost function ListsOf(k: Key): set<List<ClientId>>
      reads this
    {
      if k in lists then {lists[k]} else {}
    }

    ghost function CellsOf(k: Key): set<Cell>
      reads this, ListsOf(k)
    {
      if k in lists then set n | n in lists[k].nodes else {}
    }
  }

  lemma RememberedAt(shapes: Shapes, stored: Stored, names: map<Cell, Entry>, c: ClientId, k: Key)
    requires Remembered(shapes, stored, names) && c in stored && k in stored[c]
    ensures Remembers(shapes, names, c, k, stored[c][k])
  {
  }

  lemma EmptyAt(lists: map<Key, List<ClientId>>, k: Key)
    requires AllValid(lists) && k in lists
    ensures lists[k].len == 0 <==> lists[k].nodes == []
  {
    hide Linked, Distinct;
  }

  lemma FewerValid(lists: map<Key, List<ClientId>>, k: Key)
    requires AllValid(lists) && k in lists
    ensures AllValid(lists - {k}) && ShapeOf(lists - {k}) == ShapeOf(lists) - {k}
  {
    hide Linked, Distinct;
    forall q | q in lists - {k}
      ensures (forall n :: n in lists[q].nodes ==> n in Cells(lists - {k})) && lists[q].Valid()
    {
      assert q in lists && lists[q] == (lists - {k})[q];
    }
  }

  lemma FewerDiffer(lists: map<Key, List<ClientId>>, k: Key)
    requires ListsDiffer(lists)
    ensures ListsDiffer(lists - {k})
  {
  }
}
