/**
 The doubly linked list of adlist.c, in the heap. The ghost field nodes is the sequence of
 node objects the links spell out; every operation says what becomes of that sequence, so
 a pointer to a node stays good as long as the node is in it.
 */
module AdList {
  class Node<T> {
    var value: T
    var prev: Node?<T>
    var next: Node?<T>

    constructor (value: T)
      ensures this.value == value && prev == null && next == null
    {
      this.value, prev, next := value, null, null;
    }
  }

  /** The node at position i, or null past either end. */
  function At<T>(nodes: seq<Node<T>>, i: int): Node?<T> {
    if 0 <= i < |nodes| then nodes[i] else null
  }

  ghost predicate Distinct<T>(nodes: seq<Node<T>>) {
    forall i, j :: 0 <= i < j < |nodes| ==> nodes[i] != nodes[j]
  }

  ghost predicate Linked<T>(nodes: seq<Node<T>>)
    reads nodes
  {
    && (forall i {:trigger nodes[i].prev} :: 0 <= i < |nodes| ==> nodes[i].prev == At(nodes, i - 1))
    && (forall i {:trigger nodes[i].next} :: 0 <= i < |nodes| ==> nodes[i].next == At(nodes, i + 1))
  }

  /** The links of s as they are after node i was unlinked from its neighbours. */
  ghost predicate Bypassed<T>(s: seq<Node<T>>, i: nat)
    reads s
  {
    && (forall j {:trigger s[j].prev} :: 0 <= j < |s| && j != i ==>
          s[j].prev == if j == i + 1 then At(s, i - 1) else At(s, j - 1))
    && (forall j {:trigger s[j].next} :: 0 <= j < |s| && j != i ==>
          s[j].next == if j == i - 1 then At(s, i + 1) else At(s, j + 1))
  }

  /** The neighbours of node i are linked to each other. */
  method Unlink<T>(node: Node<T>, ghost s: seq<Node<T>>, ghost i: nat)
    requires i < |s| && s[i] == node && Distinct(s) && Linked(s)
    modifies s`prev, s`next
    ensures Bypassed(s, i) && node.prev == old(node.prev) && node.next == old(node.next)
  {
    if node.prev != null {
      assert node.prev == s[i - 1];
      node.prev.next := node.next;
    }
    if node.next != null {
      assert node.next == s[i + 1];
      node.next.prev := node.prev;
    }
  }

  lemma DeletedLinks<T>(s: seq<Node<T>>, i: nat, t: seq<Node<T>>)
    requires i < |s| && Distinct(s) && Bypassed(s, i) && t == s[..i] + s[i + 1..]
    ensures Distinct(t) && Linked(t)
  {
    forall j | 0 <= j < |t|
      ensures t[j].prev == At(t, j - 1) && t[j].next == At(t, j + 1)
    {
      var k := if j < i then j else j + 1;
      assert t[j] == s[k];
    }
  }

  /** The links of s with a new node hung between positions at - 1 and at. */
  ghost predicate Spliced<T>(s: seq<Node<T>>, at: nat, node: Node<T>)
    reads s, node
  {
    && node.prev == At(s, at - 1) && node.next == At(s, at)
    && (forall j {:trigger s[j].prev} :: 0 <= j < |s| ==> s[j].prev == if j == at then node else At(s, j - 1))
    && (forall j {:trigger s[j].next} :: 0 <= j < |s| ==> s[j].next == if j == at - 1 then node else At(s, j + 1))
  }

  /** The neighbours of a new node are linked to it. */
  method Splice<T>(node: Node<T>, ghost s: seq<Node<T>>, ghost at: nat)
    requires at <= |s| && node !in s && Distinct(s) && Linked(s)
    requires node.prev == At(s, at - 1) && node.next == At(s, at)
    modifies s`prev, s`next
    ensures Spliced(s, at, node)
  {
    if node.prev != null {
      assert node.prev == s[at - 1];
      node.prev.next := node;
    }
    if node.next != null {
      assert node.next == s[at];
      node.next.prev := node;
    }
  }

  lemma InsertedLinks<T>(s: seq<Node<T>>, at: nat, node: Node<T>, t: seq<Node<T>>)
    requires at <= |s| && Distinct(s) && node !in s && Spliced(s, at, node) && t == s[..at] + [node] + s[at..]
    ensures Distinct(t) && Linked(t)
  {
    forall j | 0 <= j < |t|
      ensures t[j].prev == At(t, j - 1) && t[j].next == At(t, j + 1)
    {
      if j != at {
        assert t[j] == s[if j < at then j else j - 1];
      }
    }
  }

  /** The links of s after its first node was moved behind its last. */
  ghost predicate TurnedOnce<T>(s: seq<Node<T>>)
    reads s
  {
    && (forall j {:trigger s[j].prev} :: 0 <= j < |s| ==>
          s[j].prev == if j == 0 then At(s, |s| - 1) else if j == 1 then null else At(s, j - 1))
    && (forall j {:trigger s[j].next} :: 0 <= j < |s| ==>
          s[j].next == if j == 0 then null else if j == |s| - 1 then At(s, 0) else At(s, j + 1))
  }

  lemma TurnedLinks<T>(s: seq<Node<T>>, t: seq<Node<T>>)
    requires |s| > 1 && Distinct(s) && TurnedOnce(s) && t == s[1..] + [s[0]]
    ensures Distinct(t) && Linked(t)
  {
    forall j | 0 <= j < |t|
      ensures t[j].prev == At(t, j - 1) && t[j].next == At(t, j + 1)
    {
      assert t[j] == if j < |t| - 1 then s[j + 1] else s[0];
      if j > 0 {
        assert t[j - 1] == s[j];
      }
      if j < |t| - 1 {
        assert t[j + 1] == if j < |t| - 2 then s[j + 2] else s[0];
      }
    }
  }

  /** The links of s and o after o was hung behind s. */
  ghost predicate Hung<T>(s: seq<Node<T>>, o: seq<Node<T>>)
    requires o != []
    reads s, o
  {
    && (forall j {:trigger s[j].prev} :: 0 <= j < |s| ==> s[j].prev == At(s, j - 1))
    && (forall j {:trigger s[j].next} :: 0 <= j < |s| ==> s[j].next == if j == |s| - 1 then o[0] else At(s, j + 1))
    && (forall j {:trigger o[j].next} :: 0 <= j < |o| ==> o[j].next == At(o, j + 1))
    && (forall j {:trigger o[j].prev} :: 0 <= j < |o| ==>
        o[j].prev == if j == 0 then At(s, |s| - 1) else At(o, j - 1))
  }

  method Hang<T>(first: Node<T>, last: Node?<T>, ghost s: seq<Node<T>>, ghost o: seq<Node<T>>)
    requires o != [] && first == o[0] && last == At(s, |s| - 1)
    requires Distinct(s) && Distinct(o) && (forall n :: n in s ==> n !in o) && Linked(s) && Linked(o)
    modifies s`next, o`prev
    ensures Hung(s, o)
  {
    forall i, j | 0 <= i < |s| && 0 <= j < |o|
      ensures s[i] != o[j]
    {
      assert s[i] in s && o[j] in o;
    }
    first.prev := last;
    if last != null {
      last.next := first;
    }
  }

  lemma JoinedLinks<T>(s: seq<Node<T>>, o: seq<Node<T>>, t: seq<Node<T>>)
    requires o != [] && Distinct(s) && Distinct(o) && (forall n :: n in s ==> n !in o) && Hung(s, o) && t == s + o
    ensures Distinct(t) && Linked(t)
  {
    forall j | 0 <= j < |t|
      ensures t[j].prev == At(t, j - 1) && t[j].next == At(t, j + 1)
    {
      if j < |s| {
        assert t[j] == s[j];
      } else {
        assert t[j] == o[j - |s|];
      }
    }
    forall i, j | 0 <= i < j < |t|
      ensures t[i] != t[j]
    {
      if i < |s| <= j {
        assert s[i] in s && o[j - |s|] in o;
      }
    }
  }

  lemma NoLinks<T>()
    ensures Distinct<T>([]) && Linked<T>([])
  {
  }

  lemma LinksAt<T>(s: seq<Node<T>>, i: nat)
    requires i < |s| && Linked(s)
    ensures s[i].prev == At(s, i - 1) && s[i].next == At(s, i + 1)
  {
  }

  lemma NodesApart<T>(s: seq<Node<T>>, i: nat)
    requires i < |s| && Distinct(s)
    ensures s[0] == s[i] <==> i == 0
    ensures s[|s| - 1] == s[i] <==> i == |s| - 1
  {
  }

  class List<T> {
    var head: Node?<T>
    var tail: Node?<T>
    var len: nat
    ghost var nodes: seq<Node<T>>

    ghost predicate Valid()
      reads this, nodes
    {
      && len == |nodes|
      && head == At(nodes, 0) && tail == At(nodes, |nodes| - 1)
      && Distinct(nodes) && Linked(nodes)
    }

    ghost function Values(): seq<T>
      reads this, nodes
    {
      seq(|nodes|, i requires 0 <= i < |nodes| reads this, nodes => nodes[i].value)
    }

    /** listCreate */
    constructor ()
      ensures Valid() && nodes == []
    {
      head, tail, len := null, null, 0;
      nodes := [];
    }

    /** listAddNodeHead */
    method AddNodeHead(value: T)
      requires Valid()
      modifies this, nodes`prev, nodes`next
      ensures Valid()
      ensures |nodes| == |old(nodes)| + 1 && fresh(nodes[0]) && nodes[1..] == old(nodes) && nodes[0].value == value
    {
      var node := new Node(value);
      if len == 0 {
        head, tail := node, node;
      } else {
        node.next := head;
        head.prev := node;
        head := node;
      }
      len := len + 1;
      nodes := [node] + nodes;
      forall i | 0 <= i < |nodes|
        ensures nodes[i].prev == At(nodes, i - 1) && nodes[i].next == At(nodes, i + 1)
      {
        assert i > 0 ==> nodes[i] == old(nodes)[i - 1];
      }
    }

    /** listAddNodeTail */
    method AddNodeTail(value: T)
      requires Valid()
      modifies this, nodes`prev, nodes`next
      ensures Valid()
      ensures |nodes| == |old(nodes)| + 1 && nodes[..|nodes| - 1] == old(nodes)
      ensures fresh(nodes[|nodes| - 1]) && nodes[|nodes| - 1].value == value
    {
      var node := new Node(value);
      if len == 0 {
        head, tail := node, node;
      } else {
        node.prev := tail;
        tail.next := node;
        tail := node;
      }
      len := len + 1;
      nodes := nodes + [node];
      forall i | 0 <= i < |nodes|
        ensures nodes[i].prev == At(nodes, i - 1) && nodes[i].next == At(nodes, i + 1)
      {
        assert i < |old(nodes)| ==> nodes[i] == old(nodes)[i];
      }
    }

    /** listInsertNode; i is where old_node is. */
    method InsertNode(oldNode: Node<T>, value: T, after: bool, ghost i: nat)
      requires Valid() && i < |nodes| && nodes[i] == oldNode
      modifies this, nodes`prev, nodes`next
      ensures Valid()
      ensures var at := if after then i + 1 else i;
              && |nodes| == |old(nodes)| + 1 && fresh(nodes[at]) && nodes[at].value == value
              && nodes == old(nodes)[..at] + [nodes[at]] + old(nodes)[at..]
    {
      hide Linked, Distinct, Spliced;
      ghost var at := if after then i + 1 else i;
      LinksAt(nodes, i);
      NodesApart(nodes, i);
      var node := new Node(value);
      if after {
        node.prev := oldNode;
        node.next := oldNode.next;
        if tail == oldNode {
          tail := node;
        }
      } else {
        node.next := oldNode;
        node.prev := oldNode.prev;
        if head == oldNode {
          head := node;
        }
      }
      ghost var s := nodes;
      assert node.prev == At(s, at - 1) && node.next == At(s, at);
      assert head == (if at == 0 then node else s[0]) && tail == if at == |s| then node else s[|s| - 1];
      Splice(node, s, at);
      len := len + 1;
      nodes := nodes[..at] + [node] + nodes[at..];
      InsertedLinks(s, at, node, nodes);
    }

    /** listDelNode */
    method DelNode(node: Node<T>, ghost i: nat)
      requires Valid() && i < |nodes| && nodes[i] == node
      modifies this, nodes`prev, nodes`next
      ensures Valid()
      ensures nodes == old(nodes)[..i] + old(nodes)[i + 1..]
      ensures node.prev == old(node.prev) && node.next == old(node.next)
    {
      ghost var s := nodes;
      assert node.prev == At(s, i - 1) && node.next == At(s, i + 1);
      Unlink(node, s, i);
      if node.prev == null {
        head := node.next;
      }
      if node.next == null {
        tail := node.prev;
      }
      len := len - 1;
      nodes := nodes[..i] + nodes[i + 1..];
      DeletedLinks(s, i, nodes);
    }

    /** listRotateTailToHead: the same nodes, the last one first. */
    method RotateTailToHead()
      requires Valid()
      modifies this, nodes`prev, nodes`next
      ensures Valid()
      ensures nodes == if |old(nodes)| <= 1 then old(nodes)
                       else [old(nodes)[|old(nodes)| - 1]] + old(nodes)[..|old(nodes)| - 1]
    {
      if len <= 1 { return; }
      var last := tail;
      assert last == nodes[len - 1] && last.prev == nodes[len - 2];
      tail := last.prev;
      tail.next := null;
      head.prev := last;
      last.prev := null;
      last.next := head;
      head := last;
      nodes := [last] + nodes[..len - 1];
      forall j | 0 <= j < |nodes|
        ensures nodes[j].prev == At(nodes, j - 1) && nodes[j].next == At(nodes, j + 1)
      {
        assert j > 0 ==> nodes[j] == old(nodes)[j - 1];
      }
    }

    /** listRotateHeadToTail: the same nodes, the first one last. */
    method RotateHeadToTail()
      requires Valid()
      modifies this, nodes`prev, nodes`next
      ensures Valid()
      ensures nodes == if |old(nodes)| <= 1 then old(nodes) else old(nodes)[1..] + [old(nodes)[0]]
    {
      if len <= 1 { return; }
      var first := head;
      ghost var s := nodes;
      assert first == nodes[0] && first.next == nodes[1];
      head := first.next;
      head.prev := null;
      tail.next := first;
      first.next := null;
      first.prev := tail;
      tail := first;
      nodes := nodes[1..] + [first];
      TurnedLinks(s, nodes);
    }

    /** listJoin: the nodes of the other list move to the end of this one. */
    method Join(other: List<T>)
      requires Valid() && other.Valid() && this != other && (forall n :: n in nodes ==> n !in other.nodes)
      modifies this, other, nodes`prev, nodes`next, other.nodes`prev, other.nodes`next
      ensures Valid() && other.Valid()
      ensures nodes == old(nodes) + old(other.nodes) && other.nodes == []
    {
      hide Linked, Distinct, Hung;
      if other.len == 0 { return; }
      ghost var s, o := nodes, other.nodes;
      Hang(other.head, tail, s, o);
      if tail == null {
        head := other.head;
      }
      tail := other.tail;
      len := len + other.len;
      nodes := nodes + other.nodes;
      other.head, other.tail, other.len, other.nodes := null, null, 0, [];
      assert forall n :: n in s ==> n !in o;
      JoinedLinks(s, o, nodes);
      NoLinks<T>();
    }
  }

  // ----- iterating

  datatype Direction = StartHead | StartTail

  class Iter<T> {
    var next: Node?<T>
    var direction: Direction

    /** listRewind and listRewindTail */
    constructor (list: List<T>, direction: Direction)
      ensures this.direction == direction && next == if direction.StartHead? then list.head else list.tail
    {
      this.direction := direction;
      next := if direction.StartHead? then list.head else list.tail;
    }

    /** listNext: the current node, after stepping past it. */
    method Next() returns (current: Node?<T>)
      modifies this`next
      ensures current == old(next)
      ensures next == if current == null then null else if direction.StartHead? then current.next else current.prev
    {
      current := next;
      if current != null {
        if direction.StartHead? {
          next := current.next;
        } else {
          next := current.prev;
        }
      }
    }
  }

  /** The nodes whose value is not dropped, in order; values are those of the nodes. */
  ghost function Kept<T>(nodes: seq<Node<T>>, values: seq<T>, drop: T -> bool): seq<Node<T>>
    requires |values| == |nodes|
  {
    if nodes == [] then []
    else
      var n := |nodes| - 1;
      Kept(nodes[..n], values[..n], drop) + if drop(values[n]) then [] else [nodes[n]]
  }

  /** A node is kept if and only if its value is not dropped. */
  lemma {:induction false} KeptAre<T>(nodes: seq<Node<T>>, values: seq<T>, drop: T -> bool, node: Node<T>)
    requires |values| == |nodes|
    ensures node in Kept(nodes, values, drop) <==> exists i :: 0 <= i < |nodes| && nodes[i] == node && !drop(values[i])
  {
    if nodes != [] {
      var n := |nodes| - 1;
      KeptAre(nodes[..n], values[..n], drop, node);
      if node in Kept(nodes[..n], values[..n], drop) {
        var i :| 0 <= i < n && nodes[..n][i] == node && !drop(values[..n][i]);
        assert nodes[i] == node && !drop(values[i]);
      } else {
        assert forall i :: 0 <= i < n ==> nodes[..n][i] == nodes[i] && values[..n][i] == values[i];
      }
    }
  }

  lemma KeptSnoc<T>(nodes: seq<Node<T>>, values: seq<T>, i: nat, drop: T -> bool)
    requires i < |nodes| == |values|
    ensures Kept(nodes[..i + 1], values[..i + 1], drop)
         == Kept(nodes[..i], values[..i], drop) + if drop(values[i]) then [] else [nodes[i]]
  {
    assert nodes[..i + 1][..i] == nodes[..i] && values[..i + 1][..i] == values[..i];
  }

  /** A walk that was given the first j nodes of s: of these only kept are left. */
  ghost predicate WalkAt<T>(list: List<T>, s: seq<Node<T>>, values: seq<T>, drop: T -> bool, j: nat,
                            kept: seq<Node<T>>, next: Node?<T>)
    reads list, list.nodes
  {
    && |values| == |s| && j <= |s| && list.Valid()
    && kept == Kept(s[..j], values[..j], drop) && list.nodes == kept + s[j..]
    && next == At(s, j)
  }

  /** One round: the node is given out, the iterator steps past it, and then it may be deleted. */
  method VisitNode<T>(list: List<T>, iter: Iter<T>, drop: T -> bool,
                      ghost s: seq<Node<T>>, ghost values: seq<T>, ghost j: nat, ghost kept0: seq<Node<T>>)
    returns (value: T, ghost kept: seq<Node<T>>)
    requires WalkAt(list, s, values, drop, j, kept0, iter.next) && iter.direction == StartHead && j < |s|
    requires s[j].value == values[j]
    modifies list, list.nodes`prev, list.nodes`next, iter`next
    ensures WalkAt(list, s, values, drop, j + 1, kept, iter.next) && value == values[j]
    ensures forall n :: n in list.nodes ==> n in old(list.nodes)
  {
    hide Distinct, Linked, Kept;
    ghost var nodes := list.nodes;
    assert nodes[|kept0|] == s[j];
    LinksAt(nodes, |kept0|);
    assert At(nodes, |kept0| + 1) == At(s, j + 1);
    KeptSnoc(s, values, j, drop);
    var node := iter.Next();
    value := node.value;
    if drop(value) {
      list.DelNode(node, |kept0|);
      kept := kept0;
      assert nodes[..|kept0|] == kept0 && nodes[|kept0| + 1..] == s[j + 1..];
    } else {
      kept := kept0 + [node];
      assert nodes == kept + s[j + 1..];
    }
  }

  lemma WalkStarts<T>(list: List<T>, values: seq<T>, drop: T -> bool)
    requires list.Valid() && |values| == |list.nodes|
    ensures WalkAt(list, list.nodes, values, drop, 0, [], list.head)
  {
    hide Distinct, Linked;
    assert [] + list.nodes[0..] == list.nodes;
  }

  lemma WalkEnds<T>(list: List<T>, s: seq<Node<T>>, values: seq<T>, drop: T -> bool, kept: seq<Node<T>>,
                    next: Node?<T>)
    requires WalkAt(list, s, values, drop, |s|, kept, next)
    ensures list.Valid() && list.nodes == Kept(s, values, drop) && next == null
  {
    hide Distinct, Linked, Kept;
    assert s[..|s|] == s && values[..|s|] == values && kept + s[|s|..] == kept;
  }

  /**
   A forward walk that deletes the node it was just given, whenever drop says so: every
   node the list had at the start is visited exactly once, in order, and exactly the
   dropped ones are gone.
   */
  method DeleteWhileIterating<T>(list: List<T>, drop: T -> bool) returns (visited: seq<T>)
    requires list.Valid()
    modifies list, list.nodes`prev, list.nodes`next
    ensures list.Valid() && list.nodes == Kept(old(list.nodes), old(list.Values()), drop)
    ensures visited == old(list.Values())
  {
    hide Distinct, Linked, Kept, WalkAt;
    ghost var s, values, j, kept := list.nodes, list.Values(), 0, [];
    var iter := new Iter(list, StartHead);
    WalkStarts(list, values, drop);
    visited := [];
    while iter.next != null
      invariant 0 <= j <= |s| && visited == values[..j]
      invariant WalkAt(list, s, values, drop, j, kept, iter.next) && iter.direction == StartHead
      invariant forall n :: n in list.nodes ==> n in s
      decreases |s| - j
    {
      NotOver(list, s, values, drop, j, kept, iter.next);
      assert forall i :: 0 <= i < |list.nodes| ==> list.nodes[i] in list.nodes;
      var value;
      value, kept := VisitNode(list, iter, drop, s, values, j, kept);
      visited := visited + [value];
      j := j + 1;
    }
    Over(list, s, values, drop, j, kept, iter.next);
    WalkEnds(list, s, values, drop, kept, iter.next);
  }

  lemma NotOver<T>(list: List<T>, s: seq<Node<T>>, values: seq<T>, drop: T -> bool, j: nat, kept: seq<Node<T>>,
                   next: Node?<T>)
    requires WalkAt(list, s, values, drop, j, kept, next) && next != null
    ensures j < |s|
  {
  }

  lemma Over<T>(list: List<T>, s: seq<Node<T>>, values: seq<T>, drop: T -> bool, j: nat, kept: seq<Node<T>>,
                next: Node?<T>)
    requires WalkAt(list, s, values, drop, j, kept, next) && next == null
    ensures j == |s|
  {
  }

  // ----- iterating from the tail

  function Reversed<T>(s: seq<T>): (r: seq<T>)
    ensures |r| == |s| && forall i :: 0 <= i < |s| ==> r[i] == s[|s| - 1 - i]
  {
    seq(|s|, i requires 0 <= i < |s| => s[|s| - 1 - i])
  }

  lemma {:induction false} KeptAppend<T>(a: seq<Node<T>>, va: seq<T>, b: seq<Node<T>>, vb: seq<T>, drop: T -> bool)
    requires |va| == |a| && |vb| == |b|
    ensures Kept(a + b, va + vb, drop) == Kept(a, va, drop) + Kept(b, vb, drop)
    decreases |b|
  {
    if b == [] {
      assert a + b == a && va + vb == va;
    } else {
      var n := |b| - 1;
      assert (a + b)[..|a + b| - 1] == a + b[..n] && (va + vb)[..|a + b| - 1] == va + vb[..n];
      KeptAppend(a, va, b[..n], vb[..n], drop);
    }
  }

  lemma KeptCons<T>(nodes: seq<Node<T>>, values: seq<T>, j: nat, drop: T -> bool)
    requires 0 < j <= |nodes| == |values|
    ensures Kept(nodes[j - 1..], values[j - 1..], drop)
         == (if drop(values[j - 1]) then [] else [nodes[j - 1]]) + Kept(nodes[j..], values[j..], drop)
  {
    assert nodes[j - 1..] == [nodes[j - 1]] + nodes[j..] && values[j - 1..] == [values[j - 1]] + values[j..];
    KeptAppend([nodes[j - 1]], [values[j - 1]], nodes[j..], values[j..], drop);
    assert Kept([nodes[j - 1]], [values[j - 1]], drop) == if drop(values[j - 1]) then [] else [nodes[j - 1]];
  }

  /** A walk from the tail that was given all but the first j nodes of s: of these only kept are left. */
  ghost predicate BackAt<T>(list: List<T>, s: seq<Node<T>>, values: seq<T>, drop: T -> bool, j: nat,
                            kept: seq<Node<T>>, next: Node?<T>)
    reads list, list.nodes
  {
    && |values| == |s| && j <= |s| && list.Valid()
    && kept == Kept(s[j..], values[j..], drop) && list.nodes == s[..j] + kept
    && next == At(s, j - 1)
  }

  method VisitNodeBack<T>(list: List<T>, iter: Iter<T>, drop: T -> bool,
                          ghost s: seq<Node<T>>, ghost values: seq<T>, ghost j: nat, ghost kept0: seq<Node<T>>)
    returns (value: T, ghost kept: seq<Node<T>>)
    requires BackAt(list, s, values, drop, j, kept0, iter.next) && iter.direction == StartTail && 0 < j
    requires s[j - 1].value == values[j - 1]
    modifies list, list.nodes`prev, list.nodes`next, iter`next
    ensures BackAt(list, s, values, drop, j - 1, kept, iter.next) && value == values[j - 1]
    ensures forall n :: n in list.nodes ==> n in old(list.nodes)
  {
    hide Distinct, Linked, Kept;
    ghost var nodes := list.nodes;
    assert nodes[j - 1] == s[j - 1];
    LinksAt(nodes, j - 1);
    assert At(nodes, j - 2) == At(s, j - 2);
    KeptCons(s, values, j, drop);
    var node := iter.Next();
    value := node.value;
    if drop(value) {
      list.DelNode(node, j - 1);
      kept := kept0;
      assert nodes[..j - 1] == s[..j - 1] && nodes[j..] == kept0;
    } else {
      kept := [node] + kept0;
      assert nodes == s[..j - 1] + kept;
    }
  }

  lemma BackStarts<T>(list: List<T>, values: seq<T>, drop: T -> bool)
    requires list.Valid() && |values| == |list.nodes|
    ensures BackAt(list, list.nodes, values, drop, |values|, [], list.tail)
  {
    hide Distinct, Linked;
  }

  lemma BackOver<T>(list: List<T>, s: seq<Node<T>>, values: seq<T>, drop: T -> bool, j: nat, kept: seq<Node<T>>,
                    next: Node?<T>)
    requires BackAt(list, s, values, drop, j, kept, next)
    ensures next != null <==> j > 0
    ensures j == 0 ==> list.Valid() && list.nodes == Kept(s, values, drop)
  {
    hide Distinct, Linked, Kept;
    assert s[0..] == s && values[0..] == values && s[..0] + kept == kept;
  }

  /** The same walk from the tail: every node is visited exactly once, the last one first. */
  method DeleteWhileIteratingBack<T>(list: List<T>, drop: T -> bool) returns (visited: seq<T>)
    requires list.Valid()
    modifies list, list.nodes`prev, list.nodes`next
    ensures list.Valid() && list.nodes == Kept(old(list.nodes), old(list.Values()), drop)
    ensures visited == Reversed(old(list.Values()))
  {
    hide Distinct, Linked, Kept, BackAt;
    ghost var s, values, kept := list.nodes, list.Values(), [];
    ghost var j := |values|;
    var iter := new Iter(list, StartTail);
    BackStarts(list, values, drop);
    BackOver(list, s, values, drop, j, kept, iter.next);
    visited := [];
    while iter.next != null
      invariant 0 <= j <= |s| && visited == Reversed(values[j..])
      invariant BackAt(list, s, values, drop, j, kept, iter.next) && iter.direction == StartTail
      invariant iter.next != null <==> j > 0
      invariant forall n :: n in list.nodes ==> n in s
      decreases j
    {
      assert forall i :: 0 <= i < |list.nodes| ==> list.nodes[i] in list.nodes;
      var value;
      value, kept := VisitNodeBack(list, iter, drop, s, values, j, kept);
      visited := visited + [value];
      j := j - 1;
      BackOver(list, s, values, drop, j, kept, iter.next);
    }
    BackOver(list, s, values, drop, j, kept, iter.next);
    assert values[0..] == values;
  }
}
