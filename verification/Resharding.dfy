/**
 Moving a slot between two nodes never splits a key. The first part is the routing
 decision of getNodeByQuery; the second a transition system of the node that owns the
 slot, the node it goes to, their clients, MIGRATE and the commands that open and close the
 handover, SETSLOT MIGRATING, IMPORTING and NODE.
 */
module Resharding {
  import opened Prelude
  import opened ClusterNode

  type Key = string
  type Hash = Key -> nat

  /** What a node consults to route a request. */
  datatype Router = Router(
    myself: NodeId,
    slots: seq<Option<NodeId>>,
    migrating: seq<Option<NodeId>>,
    importing: seq<Option<NodeId>>,
    keys: set<Key>,
    stateOk: bool,
    allowReadsWhenDown: bool,
    replicaOf: Option<NodeId>)

  /** commands: the keys of each queued command; a plain command is a list of one. */
  datatype Request = Request(
    commands: seq<seq<Key>>,
    isMigrate: bool,
    asking: bool,
    readonly: bool,
    write: bool,
    transactionWrites: bool)

  datatype Route =
    | Serve
    | Ask(node: NodeId)
    | Moved(node: NodeId)
    | TryAgain
    | CrossSlot
    | DownUnbound
    | DownState
    | DownReadOnly

  predicate TableShape(r: Router) {
    |r.slots| == |r.migrating| == |r.importing| == CLUSTER_SLOTS
  }

  predicate HashInRange(hash: Hash, ks: seq<Key>) {
    forall i :: 0 <= i < |ks| ==> hash(ks[i]) < CLUSTER_SLOTS
  }

  predicate SeveralKeys(ks: seq<Key>) {
    exists i :: 0 <= i < |ks| && ks[i] != ks[0]
  }

  predicate SomeMissing(r: Router, ks: seq<Key>) {
    exists i :: 0 <= i < |ks| && ks[i] !in r.keys
  }

  predicate CrossesSlots(hash: Hash, ks: seq<Key>) {
    exists i :: 0 <= i < |ks| && ks[i] != ks[0] && hash(ks[i]) != hash(ks[0])
  }

  /** The node owns the slot and is handing it over. */
  predicate IsMigrating(r: Router, slot: nat)
    requires TableShape(r) && slot < CLUSTER_SLOTS
  {
    r.slots[slot] == Some(r.myself) && r.migrating[slot].Some?
  }

  predicate IsImporting(r: Router, slot: nat)
    requires TableShape(r) && slot < CLUSTER_SLOTS
  {
    !IsMigrating(r, slot) && r.importing[slot].Some?
  }

  /** getNodeByQuery, by what it decides on. */
  function RouteOf(r: Router, q: Request, hash: Hash): Route
    requires TableShape(r) && HashInRange(hash, Flatten(q.commands))
  {
    var ks := Flatten(q.commands);
    if ks == [] then Serve
    else
      var slot := hash(ks[0]);
      var owner := r.slots[slot];
      if owner.None? then DownUnbound
      else if CrossesSlots(hash, ks) then CrossSlot
      else
        var migrating, importing, missing := IsMigrating(r, slot), IsImporting(r, slot), SomeMissing(r, ks);
        if !r.stateOk && !r.allowReadsWhenDown then DownState
        else if !r.stateOk && q.write then DownReadOnly
        else if (migrating || importing) && q.isMigrate then Serve
        else if migrating && missing then Ask(r.migrating[slot].value)
        else if importing && q.asking then
          if SeveralKeys(ks) && missing then TryAgain else Serve
        else if q.readonly && !q.write && !q.transactionWrites && r.replicaOf == owner then Serve
        else if owner != Some(r.myself) then Moved(owner.value)
        else Serve
  }

  /** The running variables of the double loop of getNodeByQuery after some of the keys. */
  ghost predicate Seen(r: Router, hash: Hash, ks: seq<Key>, first: Option<Key>, slot: nat, owner: Option<NodeId>,
                       migrating: bool, importing: bool, multiple: bool, missing: nat)
    requires TableShape(r)
  {
    if ks == [] then first.None? && owner.None? && !migrating && !importing && !multiple && missing == 0
    else
      && first == Some(ks[0]) && slot == hash(ks[0]) && slot < CLUSTER_SLOTS
      && owner.Some? && owner == r.slots[slot]
      && !CrossesSlots(hash, ks)
      && migrating == IsMigrating(r, slot) && importing == IsImporting(r, slot)
      && multiple == SeveralKeys(ks)
      && (migrating || importing ==> (missing > 0 <==> SomeMissing(r, ks)))
  }

  lemma OneMoreKey(r: Router, hash: Hash, ks: seq<Key>, k: Key)
    ensures SeveralKeys(ks + [k]) <==> SeveralKeys(ks) || (ks != [] && k != ks[0])
    ensures SomeMissing(r, ks + [k]) <==> SomeMissing(r, ks) || k !in r.keys
    ensures CrossesSlots(hash, ks + [k])
            <==> CrossesSlots(hash, ks) || (ks != [] && k != ks[0] && hash(k) != hash(ks[0]))
  {
    var t := ks + [k];
    assert t[|ks|] == k && forall i :: 0 <= i < |ks| ==> t[i] == ks[i];
    if SeveralKeys(ks) {
      var i :| 0 <= i < |ks| && ks[i] != ks[0];
      assert t[i] != t[0];
    }
    if SomeMissing(r, ks) {
      var i :| 0 <= i < |ks| && ks[i] !in r.keys;
      assert t[i] !in r.keys;
    }
    if CrossesSlots(hash, ks) {
      var i :| 0 <= i < |ks| && ks[i] != ks[0] && hash(ks[i]) != hash(ks[0]);
      assert t[i] != t[0] && hash(t[i]) != hash(t[0]);
    }
  }

  /** A verdict on some of the keys stands whatever keys follow. */
  lemma MoreKeys(hash: Hash, ks: seq<Key>, rest: seq<Key>)
    requires CrossesSlots(hash, ks)
    ensures CrossesSlots(hash, ks + rest)
  {
    var i :| 0 <= i < |ks| && ks[i] != ks[0] && hash(ks[i]) != hash(ks[0]);
    assert (ks + rest)[i] == ks[i] && (ks + rest)[0] == ks[0];
  }

  /** The keys looked at before key j of command i, and those still to come. */
  lemma Cursor(commands: seq<seq<Key>>, i: nat, j: nat)
    requires i < |commands| && j <= |commands[i]|
    ensures Flatten(commands)
              == Flatten(commands[..i]) + commands[i][..j] + (commands[i][j..] + Flatten(commands[i + 1..]))
    ensures j == |commands[i]| ==> Flatten(commands[..i]) + commands[i][..j] == Flatten(commands[..i + 1])
    ensures j < |commands[i]| ==>
              Flatten(commands[..i]) + commands[i][..j + 1]
                == Flatten(commands[..i]) + commands[i][..j] + [commands[i][j]]
  {
    var c := commands[i];
    assert commands == commands[..i] + ([c] + commands[i + 1..]);
    FlattenAppend(commands[..i], [c] + commands[i + 1..]);
    assert ([c] + commands[i + 1..])[1..] == commands[i + 1..];
    assert c == c[..j] + c[j..];
    if j == |c| {
      assert commands[..i + 1] == commands[..i] + [c];
      FlattenSnoc(commands[..i], c);
      assert c[..j] == c;
    } else {
      assert c[..j + 1] == c[..j] + [c[j]];
    }
  }

  /** The verdict the loop over the keys can already reach. */
  ghost predicate EarlyVerdict(r: Router, hash: Hash, ks: seq<Key>, route: Route)
    requires TableShape(r) && HashInRange(hash, ks)
  {
    && ks != []
    && if r.slots[hash(ks[0])].None? then route.DownUnbound? else route.CrossSlot? && CrossesSlots(hash, ks)
  }

  /** The double loop of getNodeByQuery. */
  method ScanKeys(r: Router, commands: seq<seq<Key>>, hash: Hash)
    returns (verdict: Option<Route>, slot: nat, owner: Option<NodeId>, migrating: bool, importing: bool,
             multiple: bool, missing: nat, ghost first: Option<Key>)
    requires TableShape(r) && HashInRange(hash, Flatten(commands))
    ensures verdict.Some? ==> EarlyVerdict(r, hash, Flatten(commands), verdict.value)
    ensures verdict.None? ==>
              Seen(r, hash, Flatten(commands), first, slot, owner, migrating, importing, multiple, missing)
  {
    hide Flatten, CrossesSlots, SomeMissing, SeveralKeys;
    ghost var all := Flatten(commands);
    var firstKey: Option<Key> := None;
    first, owner, verdict := None, None, None;
    slot, missing := 0, 0;
    migrating, importing, multiple := false, false, false;
    var i := 0;
    FlattenNothing(commands);
    NothingSeen(r, hash);
    while i < |commands|
      invariant i <= |commands| && first == firstKey
      invariant Seen(r, hash, Flatten(commands[..i]), first, slot, owner, migrating, importing, multiple, missing)
    {
      var ks := commands[i];
      var j := 0;
      assert Flatten(commands[..i]) + ks[..0] == Flatten(commands[..i]);
      while j < |ks|
        invariant j <= |ks| && first == firstKey
        invariant Seen(r, hash, Flatten(commands[..i]) + ks[..j], first, slot, owner, migrating, importing,
                       multiple, missing)
      {
        ghost var seen := Flatten(commands[..i]) + ks[..j];
        Cursor(commands, i, j);
        OneMoreKey(r, hash, seen, ks[j]);
        var key := ks[j];
        assert all[|seen|] == key && all[0] == (seen + [key])[0];
        var thisSlot := hash(key);
        if firstKey.None? {
          firstKey, slot, owner := Some(key), thisSlot, r.slots[thisSlot];
          first := firstKey;
          if owner.None? {
            verdict := Some(DownUnbound);
            return;
          }
          if owner == Some(r.myself) && r.migrating[slot].Some? {
            migrating := true;
          } else if r.importing[slot].Some? {
            importing := true;
          }
        } else if firstKey.value != key {
          if slot != thisSlot {
            MoreKeys(hash, seen + [key], all[|seen| + 1..]);
            assert seen + [key] + all[|seen| + 1..] == all;
            verdict := Some(CrossSlot);
            return;
          }
          multiple := true;
        }
        if (migrating || importing) && key !in r.keys {
          missing := missing + 1;
        }
        j := j + 1;
      }
      Cursor(commands, i, |ks|);
      i := i + 1;
    }
  }

  lemma FlattenNothing(commands: seq<seq<Key>>)
    ensures Flatten(commands[..0]) == [] && commands[..|commands|] == commands
  {
  }

  lemma NothingSeen(r: Router, hash: Hash)
    ensures !SeveralKeys([]) && !SomeMissing(r, []) && !CrossesSlots(hash, [])
  {
  }

  /** getNodeByQuery */
  method GetNodeByQuery(r: Router, q: Request, hash: Hash) returns (route: Route)
    requires TableShape(r) && HashInRange(hash, Flatten(q.commands))
    ensures route == RouteOf(r, q, hash)
  {
    hide Flatten, CrossesSlots, SomeMissing, SeveralKeys;
    var verdict, slot, owner, migrating, importing, multiple, missing, _ := ScanKeys(r, q.commands, hash);
    if verdict.Some? { return verdict.value; }
    if owner.None? { return Serve; }
    if !r.stateOk {
      if !r.allowReadsWhenDown { return DownState; }
      if q.write { return DownReadOnly; }
    }
    if (migrating || importing) && q.isMigrate { return Serve; }
    if migrating && missing > 0 { return Ask(r.migrating[slot].value); }
    if importing && q.asking {
      if multiple && missing > 0 { return TryAgain; } else { return Serve; }
    }
    if q.readonly && !(q.write || q.transactionWrites) && r.replicaOf == owner { return Serve; }
    if owner != Some(r.myself) { return Moved(owner.value); }
    return Serve;
  }

  // ----- the handover of one slot

  /** asked: the requests the source has answered with ASK. */
  datatype World = World(source: Router, target: Router, asked: set<seq<seq<Key>>>)

  datatype Step =
    | AtSource(q: Request, after: set<Key>)  // a client request; after: the keys present once it ran
    | AtTarget(q: Request, after: set<Key>)
    | Migrate(ks: set<Key>)                  // MIGRATE, as an atomic move
    | Expire(atSource: bool, ks: set<Key>)   // keys that vanish by themselves
    | OpenSource(to: NodeId)                 // SETSLOT MIGRATING <to> at the source
    | OpenTarget(from: NodeId)               // SETSLOT IMPORTING <from> at the target
    | CloseTarget                            // SETSLOT NODE <target> at the target
    | CloseSource                            // SETSLOT NODE <target> at the source

  /** SETSLOT MIGRATING, refused by a node that does not own the slot. */
  function SetSlotMigrating(r: Router, slot: nat, to: NodeId): Router
    requires TableShape(r) && slot < CLUSTER_SLOTS
  {
    if r.slots[slot] != Some(r.myself) then r else r.(migrating := r.migrating[slot := Some(to)])
  }

  /** SETSLOT IMPORTING, refused by the node that owns the slot. */
  function SetSlotImporting(r: Router, slot: nat, from: NodeId): Router
    requires TableShape(r) && slot < CLUSTER_SLOTS
  {
    if r.slots[slot] == Some(r.myself) then r else r.(importing := r.importing[slot := Some(from)])
  }

  function Keys(q: Request): seq<Key> {
    Flatten(q.commands)
  }

  /** A command touches only the keys it names. */
  ghost predicate Executes(before: set<Key>, after: set<Key>, ks: seq<Key>) {
    forall k :: k !in ks ==> (k in after <==> k in before)
  }

  /** What a client or the administrator may do in w. ASKING is sent only after an ASK. */
  ghost predicate Enabled(w: World, st: Step, hash: Hash, slot: nat)
    requires TableShape(w.source) && TableShape(w.target)
  {
    match st
    case AtSource(q, after) =>
      HashInRange(hash, Keys(q)) && !q.isMigrate && Executes(w.source.keys, after, Keys(q))
    case AtTarget(q, after) =>
      HashInRange(hash, Keys(q)) && !q.isMigrate && Executes(w.target.keys, after, Keys(q))
      && (q.asking ==> q.commands in w.asked)
    case Migrate(ks) => ks <= w.source.keys && slot < CLUSTER_SLOTS && w.source.migrating[slot].Some?
    case Expire(_, _) => true
    case OpenSource(_) => true
    case OpenTarget(_) => true
    case CloseTarget => true
    case CloseSource => SlotKeys(w.source, hash, slot) == {}
  }

  ghost function Next(w: World, st: Step, hash: Hash, slot: nat): World
    requires TableShape(w.source) && TableShape(w.target) && slot < CLUSTER_SLOTS && Enabled(w, st, hash, slot)
  {
    match st
    case AtSource(q, after) =>
      var route := RouteOf(w.source, q, hash);
      if route.Serve? then w.(source := w.source.(keys := after))
      else if route.Ask? then w.(asked := w.asked + {q.commands})
      else w
    case AtTarget(q, after) =>
      if RouteOf(w.target, q, hash).Serve? then w.(target := w.target.(keys := after)) else w
    case Migrate(ks) =>
      w.(source := w.source.(keys := w.source.keys - ks), target := w.target.(keys := w.target.keys + ks))
    case Expire(atSource, ks) =>
      if atSource then w.(source := w.source.(keys := w.source.keys - ks))
      else w.(target := w.target.(keys := w.target.keys - ks))
    case OpenSource(to) => w.(source := SetSlotMigrating(w.source, slot, to))
    case OpenTarget(from) => w.(target := SetSlotImporting(w.target, slot, from))
    case CloseTarget =>
      w.(target := w.target.(slots := w.target.slots[slot := Some(w.target.myself)],
                             importing := w.target.importing[slot := None]))
    case CloseSource =>
      w.(source := w.source.(slots := w.source.slots[slot := Some(w.target.myself)],
                             migrating := w.source.migrating[slot := None]))
  }

  ghost function SlotKeys(r: Router, hash: Hash, slot: nat): set<Key> {
    set k | k in r.keys && hash(k) == slot
  }

  predicate Masters(w: World) {
    && TableShape(w.source) && TableShape(w.target)
    && w.source.myself != w.target.myself
    && w.source.replicaOf.None? && w.target.replicaOf.None?
  }

  /** The source serves the slot alone: the handover has not begun there. */
  predicate Unopened(w: World, slot: nat)
    requires Masters(w) && slot < CLUSTER_SLOTS
  {
    w.source.slots[slot] == Some(w.source.myself) && w.source.migrating[slot].None?
  }

  predicate SourceOpen(w: World, slot: nat)
    requires Masters(w) && slot < CLUSTER_SLOTS
  {
    IsMigrating(w.source, slot)
  }

  predicate SourceClosed(w: World, slot: nat)
    requires Masters(w) && slot < CLUSTER_SLOTS
  {
    w.source.slots[slot] == Some(w.target.myself) && w.source.importing[slot].None?
  }

  predicate TargetWaits(w: World, slot: nat)
    requires Masters(w) && slot < CLUSTER_SLOTS
  {
    w.target.slots[slot] == Some(w.source.myself)
  }

  predicate TargetOpen(w: World, slot: nat)
    requires Masters(w) && slot < CLUSTER_SLOTS
  {
    TargetWaits(w, slot) && w.target.importing[slot].Some?
  }

  predicate TargetClosed(w: World, slot: nat)
    requires Masters(w) && slot < CLUSTER_SLOTS
  {
    w.target.slots[slot] == Some(w.target.myself)
  }

  /** The request was answered with ASK because the source lacked one of its keys, and still lacks it. */
  ghost predicate Lacked(w: World, hash: Hash, slot: nat, commands: seq<seq<Key>>) {
    var ks := Flatten(commands);
    ks != [] && (hash(ks[0]) == slot ==> SomeMissing(w.source, ks) && !CrossesSlots(hash, ks))
  }

  ghost predicate OtherSlot(hash: Hash, slot: nat, commands: seq<seq<Key>>) {
    var ks := Flatten(commands);
    ks != [] && hash(ks[0]) != slot
  }

  ghost predicate Inv(w: World, hash: Hash, slot: nat) {
    && slot < CLUSTER_SLOTS
    && Masters(w)
    && w.source.importing[slot].None?
    && (Unopened(w, slot) || SourceOpen(w, slot) || SourceClosed(w, slot))
    && (TargetWaits(w, slot) || TargetClosed(w, slot))
    && (Unopened(w, slot) ==>
          && TargetWaits(w, slot) && SlotKeys(w.target, hash, slot) == {}
          && forall c :: c in w.asked ==> OtherSlot(hash, slot, c))
    && (SourceClosed(w, slot) || TargetClosed(w, slot) ==> SlotKeys(w.source, hash, slot) == {})
    && SlotKeys(w.source, hash, slot) !! SlotKeys(w.target, hash, slot)
    && (forall c :: c in w.asked ==> Lacked(w, hash, slot, c))
  }

  /** What a served request can do to the keys of the slot, at the source. */
  lemma SourceServesOnlyItsKeys(w: World, q: Request, after: set<Key>, hash: Hash, slot: nat)
    requires Inv(w, hash, slot) && Enabled(w, AtSource(q, after), hash, slot)
    requires RouteOf(w.source, q, hash).Serve? && !Unopened(w, slot)
    ensures forall k :: k in after && hash(k) == slot ==> k in w.source.keys
  {
    hide Flatten;
    var ks := Keys(q);
    forall k | k in after && hash(k) == slot ensures k in w.source.keys {
      if k in ks {
        SameSlot(hash, ks, k);
      }
    }
  }

  /** Without crossing slots every key of a request is in the slot of the first. */
  lemma SameSlot(hash: Hash, ks: seq<Key>, k: Key)
    requires k in ks && !CrossesSlots(hash, ks)
    ensures hash(k) == hash(ks[0])
  {
    var i :| 0 <= i < |ks| && ks[i] == k;
  }

  /** What a served request can do to the keys of the slot, at the target. */
  lemma TargetTakesOnlyFreeKeys(w: World, q: Request, after: set<Key>, hash: Hash, slot: nat)
    requires Inv(w, hash, slot) && Enabled(w, AtTarget(q, after), hash, slot)
    requires RouteOf(w.target, q, hash).Serve?
    ensures forall k :: k in after && hash(k) == slot ==>
              k in w.target.keys || (k !in w.source.keys && !Unopened(w, slot))
  {
    hide Flatten;
    var ks := Keys(q);
    forall k | k in after && hash(k) == slot
      ensures k in w.target.keys || (k !in w.source.keys && !Unopened(w, slot))
    {
      if k in ks {
        SameSlot(hash, ks, k);
        assert k in w.source.keys ==> k in SlotKeys(w.source, hash, slot);
        assert q.asking ==> Lacked(w, hash, slot, q.commands);
      }
    }
  }

  /** Once it is handing the slot over, the source loses keys of it and never gains one. */
  lemma ShrinkKeepsLacked(w: World, v: World, hash: Hash, slot: nat)
    requires Inv(w, hash, slot)
    requires forall k :: k in v.source.keys && hash(k) == slot ==> k in w.source.keys
    ensures forall c :: c in w.asked ==> Lacked(v, hash, slot, c)
  {
    hide Flatten;
    forall c | c in w.asked ensures Lacked(v, hash, slot, c) {
      assert Lacked(w, hash, slot, c);
      var ks := Flatten(c);
      if hash(ks[0]) == slot {
        var i :| 0 <= i < |ks| && ks[i] !in w.source.keys;
        SameSlot(hash, ks, ks[i]);
        assert ks[i] !in v.source.keys;
      }
    }
  }

  /**
   The one thing the administrator must check, as the code does not: the slot is given to
   the target only once the source, which is handing it over, has no key of it left.
   */
  ghost predicate Careful(w: World, st: Step, hash: Hash, slot: nat)
    requires TableShape(w.source) && slot < CLUSTER_SLOTS
  {
    st.CloseTarget? ==>
      && SlotKeys(w.source, hash, slot) == {}
      && (w.source.slots[slot] == Some(w.source.myself) ==> IsMigrating(w.source, slot))
  }

  lemma StepKeepsInv(w: World, st: Step, hash: Hash, slot: nat)
    requires Inv(w, hash, slot) && Enabled(w, st, hash, slot) && Careful(w, st, hash, slot)
    ensures Inv(Next(w, st, hash, slot), hash, slot)
  {
    hide RouteOf, Lacked, OtherSlot, Flatten;
    var v := Next(w, st, hash, slot);
    match st
    case AtSource(q, after) =>
      if RouteOf(w.source, q, hash).Serve? {
        if Unopened(w, slot) {
          OthersAreLacked(w, v, hash, slot);
        } else {
          SourceServesOnlyItsKeys(w, q, after, hash, slot);
          ShrinkKeepsLacked(w, v, hash, slot);
        }
      } else if RouteOf(w.source, q, hash).Ask? {
        AskMeansLacking(w, q, hash, slot);
        LackedFrame(w, v, hash, slot);
      }
    case AtTarget(q, after) =>
      if RouteOf(w.target, q, hash).Serve? {
        TargetTakesOnlyFreeKeys(w, q, after, hash, slot);
        LackedFrame(w, v, hash, slot);
      }
    case Migrate(ks) =>
      ShrinkKeepsLacked(w, v, hash, slot);
      forall k | k in SlotKeys(v.source, hash, slot)
        ensures k in SlotKeys(w.source, hash, slot) && k !in v.target.keys
      {
        assert k in SlotKeys(w.target, hash, slot) || k !in w.target.keys;
      }
    case Expire(atSource, ks) =>
      ShrinkKeepsLacked(w, v, hash, slot);
      assert SlotKeys(v.source, hash, slot) <= SlotKeys(w.source, hash, slot);
      assert SlotKeys(v.target, hash, slot) <= SlotKeys(w.target, hash, slot);
    case OpenSource(_) =>
      ShrinkKeepsLacked(w, v, hash, slot);
      assert SlotKeys(v.source, hash, slot) == SlotKeys(w.source, hash, slot);
    case OpenTarget(_) =>
      ShrinkKeepsLacked(w, v, hash, slot);
      assert SlotKeys(v.target, hash, slot) == SlotKeys(w.target, hash, slot);
    case CloseTarget =>
      ShrinkKeepsLacked(w, v, hash, slot);
      assert SlotKeys(v.target, hash, slot) == SlotKeys(w.target, hash, slot);
    case CloseSource =>
      ShrinkKeepsLacked(w, v, hash, slot);
      assert SlotKeys(v.source, hash, slot) == SlotKeys(w.source, hash, slot);
  }

  lemma OthersAreLacked(w: World, v: World, hash: Hash, slot: nat)
    requires forall c :: c in w.asked ==> OtherSlot(hash, slot, c)
    ensures forall c :: c in w.asked ==> Lacked(v, hash, slot, c)
  {
    hide Flatten;
  }

  lemma LackedFrame(w: World, v: World, hash: Hash, slot: nat)
    requires v.source.keys == w.source.keys
    ensures forall c :: Lacked(w, hash, slot, c) ==> Lacked(v, hash, slot, c)
  {
    hide Flatten;
  }

  lemma AskMeansLacking(w: World, q: Request, hash: Hash, slot: nat)
    requires Masters(w) && slot < CLUSTER_SLOTS && HashInRange(hash, Keys(q)) && RouteOf(w.source, q, hash).Ask?
    ensures Lacked(w, hash, slot, q.commands)
    ensures Unopened(w, slot) ==> OtherSlot(hash, slot, q.commands)
  {
    hide Flatten;
  }

  /** w after the steps, each enabled and careful. */
  ghost predicate CarefulRun(w: World, steps: seq<Step>, v: World, hash: Hash, slot: nat)
    decreases |steps|
  {
    if steps == [] then v == w
    else
      && slot < CLUSTER_SLOTS && TableShape(w.source) && TableShape(w.target)
      && Enabled(w, steps[0], hash, slot) && Careful(w, steps[0], hash, slot)
      && CarefulRun(Next(w, steps[0], hash, slot), steps[1..], v, hash, slot)
  }

  /** No key of the slot is ever present on both nodes. */
  lemma {:induction false} NeverSplit(w: World, steps: seq<Step>, v: World, hash: Hash, slot: nat)
    requires Inv(w, hash, slot) && CarefulRun(w, steps, v, hash, slot)
    ensures Inv(v, hash, slot)
    ensures forall k :: hash(k) == slot ==> k !in v.source.keys || k !in v.target.keys
    decreases |steps|
  {
    hide Enabled, Next, Careful;
    if steps != [] {
      StepKeepsInv(w, steps[0], hash, slot);
      NeverSplit(Next(w, steps[0], hash, slot), steps[1..], v, hash, slot);
    } else {
      assert forall k :: k in v.source.keys && hash(k) == slot ==> k in SlotKeys(v.source, hash, slot);
    }
  }

  /** Before a handover: the source owns the slot, both tables say so, and only it has keys of the slot. */
  ghost predicate Settled(w: World, hash: Hash, slot: nat) {
    && slot < CLUSTER_SLOTS && Masters(w) && w.asked == {}
    && Unopened(w, slot) && w.source.importing[slot].None?
    && TargetWaits(w, slot) && SlotKeys(w.target, hash, slot) == {}
  }

  /**
   From a settled slot, whatever the order in which the two nodes are opened, used and
   closed, no key of the slot is ever present on both.
   */
  lemma HandoverNeverSplits(w: World, steps: seq<Step>, v: World, hash: Hash, slot: nat)
    requires Settled(w, hash, slot) && CarefulRun(w, steps, v, hash, slot)
    ensures forall k :: hash(k) == slot ==> k !in v.source.keys || k !in v.target.keys
  {
    hide CarefulRun;
    NeverSplit(w, steps, v, hash, slot);
  }

  /** While the slot is open a request naming several keys runs only where all of them are. */
  lemma SeveralKeysRunTogether(w: World, q: Request, hash: Hash, slot: nat)
    requires Inv(w, hash, slot) && HashInRange(hash, Keys(q)) && !q.isMigrate
    requires Keys(q) != [] && SeveralKeys(Keys(q)) && hash(Keys(q)[0]) == slot
    ensures SourceOpen(w, slot) && RouteOf(w.source, q, hash).Serve? ==>
              forall k :: k in Keys(q) ==> k in w.source.keys
    ensures TargetOpen(w, slot) && RouteOf(w.target, q, hash).Serve? ==>
              forall k :: k in Keys(q) ==> k in w.target.keys
  {
    hide Flatten;
    var ks := Keys(q);
    forall k, r | k in ks && r in {w.source, w.target} && k !in r.keys ensures SomeMissing(r, ks) {
      var i :| 0 <= i < |ks| && ks[i] == k;
    }
  }

  /** A plain write of one key. */
  function WriteOf(k: Key): Request {
    Request([[k]], false, false, false, true, false)
  }

  ghost predicate Split(w: World, hash: Hash, slot: nat) {
    exists k :: k in w.source.keys && k in w.target.keys && hash(k) == slot
  }

  /** No careful continuation of w ever has a key of the slot on both nodes. */
  ghost predicate SafeForever(w: World, hash: Hash, slot: nat) {
    forall steps, v :: CarefulRun(w, steps, v, hash, slot) ==> !Split(v, hash, slot)
  }

  /**
   SETSLOT NODE at the target is not checked by the code. With an open slot it keeps the
   handover safe if and only if the source has no key of the slot left; otherwise one
   write of a remaining key at the target already puts that key on both nodes.
   */
  lemma ClosingTargetIsSafeIff(w: World, hash: Hash, slot: nat)
    requires Inv(w, hash, slot) && !Unopened(w, slot) && TargetOpen(w, slot)
    requires w.target.stateOk && w.target.migrating[slot].None?
    ensures SlotKeys(w.source, hash, slot) == {} <==> SafeForever(Next(w, CloseTarget, hash, slot), hash, slot)
  {
    var closed := Next(w, CloseTarget, hash, slot);
    if SlotKeys(w.source, hash, slot) == {} {
      StepKeepsInv(w, CloseTarget, hash, slot);
      forall steps, v | CarefulRun(closed, steps, v, hash, slot) ensures !Split(v, hash, slot) {
        NeverSplit(closed, steps, v, hash, slot);
      }
    } else {
      var k :| k in SlotKeys(w.source, hash, slot);
      OneWriteSplits(closed, k, hash, slot);
    }
  }

  lemma OneWriteSplits(w: World, k: Key, hash: Hash, slot: nat)
    requires Masters(w) && slot < CLUSTER_SLOTS && TargetClosed(w, slot) && w.target.stateOk
    requires w.target.importing[slot].None? && w.target.migrating[slot].None?
    requires k in w.source.keys && hash(k) == slot
    ensures !SafeForever(w, hash, slot)
  {
    var st := AtTarget(WriteOf(k), w.target.keys + {k});
    FlattenOne(k);
    assert Keys(WriteOf(k)) == [k];
    assert RouteOf(w.target, WriteOf(k), hash).Serve?;
    var v := Next(w, st, hash, slot);
    assert CarefulRun(v, [], v, hash, slot);
    assert [st][1..] == [];
    assert CarefulRun(w, [st], v, hash, slot);
    assert Split(v, hash, slot);
  }

  lemma FlattenOne(k: Key)
    ensures Flatten([[k]]) == [k]
  {
    assert [[k]][1..] == [];
  }
}
