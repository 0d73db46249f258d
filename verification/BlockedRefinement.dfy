/**
 The server of Blocked names list nodes by numbers; the program has pointers. Here the heap
 lists of BlockedLists run beside the server: whenever a client blocks or is let go, and
 whenever a list is rotated, both have the same tables afterwards.
 */
module BlockedRefinement {
  import opened Prelude
  import opened BlockedIndex
  import opened BlockedService
  import opened Blocked
  import opened BlockedLists

  /** The heap lists stand for the tables of the server. */
  ghost predicate Implements(w: WaitingLists, s: Server)
    reads w, w.lists.Values, Cells(w.lists), w.names.Keys, s
  {
    w.Valid() && s.Coherent() && w.Tables() == s.Tables()
  }

  method Start(clients: set<ClientId>, db: Db) returns (s: Server, w: WaitingLists)
    ensures fresh(s) && fresh(w) && Implements(w, s)
  {
    s := new Server(clients, db);
    w := new WaitingLists(clients);
    NewKeys(s.clients);
  }

  lemma NewKeys(clients: Clients)
    requires forall c :: c in clients ==> clients[c] == NewClient()
    ensures KeysOfAll(clients) == map c | c in clients.Keys :: map[]
  {
  }

  /** blockForKeys */
  method Block(s: Server, w: WaitingLists, c: ClientId, btype: BlockType, keys: seq<Key>, target: Option<Key>,
               from: Side, to: Side)
    requires Implements(w, s)
    requires c in s.clients && s.clients[c].btype == NotBlocked && btype != NotBlocked && keys != []
    modifies s, w, w.lists.Values, Cells(w.lists)`prev, Cells(w.lists)`next
    ensures Implements(w, s) && c in s.clients && s.clients[c].btype == btype
    ensures forall k :: k in s.clients[c].keys <==> k in keys
  {
    hide Appended, NobodyMissed, HasElements, JoinedAll, KeysOfAll, WaitingLists.Valid, WaitingLists.Tables,
         Server.Coherent;
    HasKeys(s.clients, c);
    StoredToo(w, c);
    s.BlockForKeys(c, btype, keys, target, from, to);
    w.WaitForKeys(c, keys);
  }

  lemma StoredToo(w: WaitingLists, c: ClientId)
    requires w.Valid() && c in w.Tables().keys
    ensures c in w.stored
  {
  }

  /** unblockClient */
  method Unblock(s: Server, w: WaitingLists, c: ClientId)
    requires Implements(w, s) && c in s.clients && s.clients[c].btype != NotBlocked
    modifies s, w, w.lists.Values, Cells(w.lists)`prev, Cells(w.lists)`next
    ensures Implements(w, s) && s.clients == old(s.clients)[c := Freed(old(s.clients)[c])]
  {
    hide Agree, NodesBelow, CountersRight, TypesRight, QueueRight, KeysOfAll, Removed, WaitingLists.Valid,
         WaitingLists.Tables, Server.Coherent;
    HasKeys(s.clients, c);
    StoredToo(w, c);
    ghost var x, clients := s.Tables(), s.clients;
    s.UnblockClient(c);
    w.LeaveLists(c);
    FreedKeys(clients, c);
    w.TablesAgree(s.clients);
    ServerAgrees(s);
    LeftAlike(x, w.Tables(), s.Tables(), c, s.clients);
  }

  lemma ServerAgrees(s: Server)
    requires s.Coherent()
    ensures Agree(s.waiting, s.clients)
  {
  }

  lemma LeftAlike(x: Index, y: Index, z: Index, c: ClientId, clients: Clients)
    requires c in x.keys && y.keys == z.keys && y.next == z.next
    requires Removed(x.waiting, y.waiting, x.keys[c]) && Removed(x.waiting, z.waiting, x.keys[c])
    requires Agree(y.waiting, clients) && Agree(z.waiting, clients)
    ensures y == z
  {
    hide Removed, ListsAreSound, ClientsAreListed, ListsAreGood;
    RemovedIsUnique(x.waiting, y.waiting, z.waiting, x.keys[c]);
  }

  lemma FreedKeys(clients: Clients, c: ClientId)
    requires c in clients
    ensures KeysOfAll(clients[c := Freed(clients[c])]) == KeysOfAll(clients)[c := map[]]
  {
  }

  /** A client of another type at the head of the list goes to its tail. */
  method RotateBoth(s: Server, w: WaitingLists, k: Key)
    requires Implements(w, s) && k in s.waiting
    modifies s, w.lists.Values, Cells(w.lists)`prev, Cells(w.lists)`next
    ensures Implements(w, s) && s.waiting == old(s.waiting)[k := Rotate(old(s.waiting)[k])]
    ensures s.clients == old(s.clients)
  {
    hide Agree, NodesBelow, CountersRight, TypesRight, QueueRight, KeysOfAll, Rotate, WaitingLists.Valid,
         WaitingLists.Tables, Cells, WaitingLists.CellsOf, WaitingLists.ListsOf;
    ListedToo(w, k);
    w.PartsOf(k);
    RotatedAgrees(s.waiting, s.clients, k);
    RotatedNodes(s.waiting, k, s.nextNode);
    s.waiting := s.waiting[k := Rotate(s.waiting[k])];
    w.RotateHead(k);
  }

  lemma ListedToo(w: WaitingLists, k: Key)
    requires w.Valid() && k in w.Tables().waiting
    ensures k in w.lists
  {
  }
}
