/**
 Where a request is sent. Each answer of getNodeByQuery is given exactly in the states
 described here by the slot table, the open slots and the keys present; a redirection names
 the node that serves the slot, and following it reaches that node in one hop.
 */
module ClusterRouting {
  import opened Prelude
  import opened ClusterNode
  import opened Resharding

  ghost predicate Asks(r: Router, q: Request, hash: Hash) {
    TableShape(r) && HashInRange(hash, Keys(q))
  }

  /** The slot of the first key, for a request that names keys. */
  function SlotOf(q: Request, hash: Hash): nat
    requires Keys(q) != []
  {
    hash(Keys(q)[0])
  }

  /** Some key is in another slot than the first. */
  predicate Mixed(q: Request, hash: Hash) {
    exists i, j :: 0 <= i < |Keys(q)| && 0 <= j < |Keys(q)| && hash(Keys(q)[i]) != hash(Keys(q)[j])
  }

  predicate Lacks(r: Router, q: Request) {
    exists k :: k in Keys(q) && k !in r.keys
  }

  predicate NamesTwoKeys(q: Request) {
    exists a, b :: a in Keys(q) && b in Keys(q) && a != b
  }

  lemma KeyFacts(r: Router, q: Request, hash: Hash)
    requires Asks(r, q, hash) && Keys(q) != []
    ensures SlotOf(q, hash) < CLUSTER_SLOTS
    ensures CrossesSlots(hash, Keys(q)) <==> Mixed(q, hash)
    ensures SomeMissing(r, Keys(q)) <==> Lacks(r, q)
    ensures SeveralKeys(Keys(q)) <==> NamesTwoKeys(q)
  {
    hide Flatten;
    var ks := Keys(q);
    assert ks[0] in ks;
    forall i | 0 <= i < |ks| && ks[i] != ks[0] && hash(ks[i]) != hash(ks[0])
      ensures Mixed(q, hash)
    {
    }
    forall i | 0 <= i < |ks|
      ensures ks[i] in ks
    {
    }
  }

  // ----- when each answer is given

  /** Keys of one slot, which somebody serves. */
  ghost predicate Routable(r: Router, q: Request, hash: Hash, owner: NodeId)
    requires Asks(r, q, hash)
  {
    Keys(q) != [] && SlotOf(q, hash) < CLUSTER_SLOTS && r.slots[SlotOf(q, hash)] == Some(owner) && !Mixed(q, hash)
  }

  /** The node takes the request at all, with the cluster in the state it knows. */
  predicate Up(r: Router, q: Request) {
    r.stateOk || (r.allowReadsWhenDown && !q.write)
  }

  /** The answers that are errors. */
  lemma ErrorsIff(r: Router, q: Request, hash: Hash)
    requires Asks(r, q, hash)
    ensures var route := RouteOf(r, q, hash);
            && (route.DownUnbound? <==> Keys(q) != [] && SlotOf(q, hash) < CLUSTER_SLOTS
                                        && r.slots[SlotOf(q, hash)] == None)
            && (route.CrossSlot? <==> Keys(q) != [] && SlotOf(q, hash) < CLUSTER_SLOTS
                                      && r.slots[SlotOf(q, hash)] != None && Mixed(q, hash))
            && (route.DownState? <==>
                  !r.stateOk && !r.allowReadsWhenDown && exists owner :: Routable(r, q, hash, owner))
            && (route.DownReadOnly? <==>
                  !r.stateOk && r.allowReadsWhenDown && q.write && exists owner :: Routable(r, q, hash, owner))
  {
    hide Flatten, CrossesSlots, SomeMissing, SeveralKeys, Mixed, Lacks, NamesTwoKeys;
    if Keys(q) != [] {
      KeyFacts(r, q, hash);
      var owner := r.slots[SlotOf(q, hash)];
      if owner.Some? && !Mixed(q, hash) {
        assert Routable(r, q, hash, owner.value);
      }
    }
  }

  /** ASK is given by the owner of a slot it is handing over, for keys it lacks, and names the node it hands to. */
  lemma AskIff(r: Router, q: Request, hash: Hash, n: NodeId)
    requires Asks(r, q, hash)
    ensures RouteOf(r, q, hash) == Ask(n) <==>
              && Routable(r, q, hash, r.myself) && Up(r, q) && !q.isMigrate
              && r.migrating[SlotOf(q, hash)] == Some(n) && Lacks(r, q)
  {
    hide Flatten, CrossesSlots, SomeMissing, SeveralKeys, Mixed, Lacks, NamesTwoKeys;
    if Keys(q) != [] {
      KeyFacts(r, q, hash);
    }
  }

  /** The node receives the slot and is not its owner. */
  predicate Receives(r: Router, slot: nat)
    requires TableShape(r) && slot < CLUSTER_SLOTS
  {
    r.importing[slot].Some? && !(r.slots[slot] == Some(r.myself) && r.migrating[slot].Some?)
  }

  /** TRYAGAIN is given by the receiver of a slot, after ASKING, for several keys of which it lacks one. */
  lemma TryAgainIff(r: Router, q: Request, hash: Hash)
    requires Asks(r, q, hash)
    ensures RouteOf(r, q, hash).TryAgain? <==>
              && (exists owner :: Routable(r, q, hash, owner)) && Up(r, q) && !q.isMigrate
              && Receives(r, SlotOf(q, hash)) && q.asking && NamesTwoKeys(q) && Lacks(r, q)
  {
    hide Flatten, CrossesSlots, SomeMissing, SeveralKeys, Mixed, Lacks, NamesTwoKeys;
    if Keys(q) != [] {
      KeyFacts(r, q, hash);
      var owner := r.slots[SlotOf(q, hash)];
      if owner.Some? && !Mixed(q, hash) {
        assert Routable(r, q, hash, owner.value);
      }
    }
  }

  /** The request may be answered by a replica of the owner. */
  predicate ReadsFromReplica(r: Router, q: Request, owner: NodeId) {
    q.readonly && !q.write && !q.transactionWrites && r.replicaOf == Some(owner)
  }

  /**
   MOVED is given by a node that does not own the slot, neither receives it for this client
   nor replicates it, and names the owner.
   */
  lemma MovedIff(r: Router, q: Request, hash: Hash, n: NodeId)
    requires Asks(r, q, hash)
    ensures RouteOf(r, q, hash) == Moved(n) <==>
              && n != r.myself && Routable(r, q, hash, n) && Up(r, q)
              && !(Receives(r, SlotOf(q, hash)) && (q.isMigrate || q.asking))
              && !ReadsFromReplica(r, q, n)
  {
    hide Flatten, CrossesSlots, SomeMissing, SeveralKeys, Mixed, Lacks, NamesTwoKeys;
    if Keys(q) != [] {
      KeyFacts(r, q, hash);
    }
  }

  // ----- clients that follow the answers

  /** Nothing is being moved in or out of the slot. */
  predicate Closed(r: Router, slot: nat)
    requires TableShape(r) && slot < CLUSTER_SLOTS
  {
    r.migrating[slot].None? && r.importing[slot].None?
  }

  /** A write of a slot that is not being moved is served by its owner and by nobody else. */
  lemma OnlyOwnerWrites(r: Router, q: Request, hash: Hash, owner: NodeId)
    requires Asks(r, q, hash) && Routable(r, q, hash, owner) && Closed(r, SlotOf(q, hash)) && r.stateOk && q.write
    ensures RouteOf(r, q, hash) == if owner == r.myself then Serve else Moved(owner)
  {
    hide Flatten, CrossesSlots, SomeMissing, SeveralKeys, Mixed, Lacks, NamesTwoKeys;
    KeyFacts(r, q, hash);
  }

  /**
   Two nodes with the same slot table: whoever a client asks for a slot that neither is
   moving, it is served there or sent to a node that serves it; one redirection is enough.
   */
  lemma OneHop(a: Router, b: Router, q: Request, hash: Hash)
    requires Asks(a, q, hash) && Asks(b, q, hash) && a.slots == b.slots && Keys(q) != []
    requires var slot := SlotOf(q, hash); slot < CLUSTER_SLOTS && Closed(a, slot) && Closed(b, slot)
    requires a.stateOk && b.stateOk && RouteOf(a, q, hash) == Moved(b.myself)
    ensures RouteOf(b, q, hash).Serve?
  {
    hide Flatten, CrossesSlots, SomeMissing, SeveralKeys, Mixed, Lacks, NamesTwoKeys;
    KeyFacts(a, q, hash);
    KeyFacts(b, q, hash);
  }

  /** Two nodes with the same slot table send a write to the same place. */
  lemma SamePlace(a: Router, b: Router, q: Request, hash: Hash, owner: NodeId)
    requires Asks(a, q, hash) && Asks(b, q, hash) && a.slots == b.slots && q.write && a.stateOk && b.stateOk
    requires Routable(a, q, hash, owner)
    requires Closed(a, SlotOf(q, hash)) && Closed(b, SlotOf(q, hash)) && a.myself != owner && b.myself != owner
    ensures RouteOf(a, q, hash) == RouteOf(b, q, hash) == Moved(owner)
  {
    hide Keys, Mixed, RouteOf;
    OnlyOwnerWrites(a, q, hash, owner);
    OnlyOwnerWrites(b, q, hash, owner);
  }

  /**
   During a handover a client that is told ASK, and asks there with ASKING for one key,
   is served by the node it was sent to, if that node receives the slot.
   */
  lemma AskingIsServed(source: Router, target: Router, q: Request, hash: Hash)
    requires Asks(source, q, hash) && Asks(target, q, hash) && Keys(q) != [] && !NamesTwoKeys(q)
    requires RouteOf(source, q, hash) == Ask(target.myself) && target.stateOk
    requires SlotOf(q, hash) < CLUSTER_SLOTS && Receives(target, SlotOf(q, hash))
             && target.slots[SlotOf(q, hash)].Some?
    ensures RouteOf(target, q.(asking := true), hash).Serve?
  {
    hide CrossesSlots, SomeMissing, SeveralKeys, Mixed, Lacks, NamesTwoKeys;
    KeyFacts(source, q, hash);
    KeyFacts(target, q, hash);
    assert Keys(q.(asking := true)) == Keys(q);
  }

  // ----- the commands that open and close a slot are those of the node

  /** What routing sees of a node. */
  function RouterOf(s: Server, keys: set<Key>, stateOk: bool, allowReadsWhenDown: bool): Router
    requires s.myself in s.nodes
  {
    Router(s.myself, s.slots, s.migrating, s.importing, keys, stateOk, allowReadsWhenDown, s.nodes[s.myself].slaveof)
  }

  /** CLUSTER SETSLOT NODE with the node itself, at a receiver, is the step CloseTarget. */
  lemma ClosingTarget(s: Server, w: World, hash: Hash, slot: nat, held: nat, maxEpoch: nat, up: bool, readsDown: bool)
    requires WellFormed(s) && slot < CLUSTER_SLOTS && s.nodes[s.myself].master && s.importing[slot].Some?
    requires w.target == RouterOf(s, w.target.keys, up, readsDown) && s.migrating[slot].None? && TableShape(w.source)
    requires !(s.slots[slot] == Some(s.myself) && held != 0)
    ensures SetSlotNode(s, slot, s.myself, held, maxEpoch).Done?
    ensures var t := SetSlotNode(s, slot, s.myself, held, maxEpoch).server;
            t.myself in t.nodes && RouterOf(t, w.target.keys, up, readsDown) == Next(w, CloseTarget, hash, slot).target
  {
  }

  /** CLUSTER SETSLOT NODE with the target, at the owner, is the step CloseSource; with keys left it is refused. */
  lemma ClosingSource(s: Server, w: World, hash: Hash, slot: nat, held: nat, maxEpoch: nat, up: bool, readsDown: bool)
    requires WellFormed(s) && slot < CLUSTER_SLOTS && s.nodes[s.myself].master && s.slots[slot] == Some(s.myself)
    requires w.source == RouterOf(s, w.source.keys, up, readsDown) && TableShape(w.target)
    requires w.target.myself in s.nodes && w.target.myself != s.myself
    requires held == 0 <==> SlotKeys(w.source, hash, slot) == {}
    ensures var r := SetSlotNode(s, slot, w.target.myself, held, maxEpoch);
            if held != 0 then r == Refused(HoldsKeys)
            else
              && r.Done? && r.server.myself in r.server.nodes && Enabled(w, CloseSource, hash, slot)
              && RouterOf(r.server, w.source.keys, up, readsDown) == Next(w, CloseSource, hash, slot).source
  {
  }
}
