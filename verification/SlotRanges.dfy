/**
 The slot ranges of the CLUSTER NODES output, printed in two ways: from the bitmap of
 one node, and for all nodes at once in one pass over the slot table. Both yield the
 maximal runs of the node's slots.
 */
module SlotRanges {
  import opened Prelude
  import opened ClusterNode

  type Range = (nat, nat)

  /** The maximal runs of set bits among the first k, in ascending order. */
  function RangesTo(bits: seq<bool>, k: nat): (r: seq<Range>)
    requires k <= |bits|
    ensures k > 0 && bits[k - 1] ==> r != [] && r[|r| - 1].1 == k - 1
  {
    if k == 0 then []
    else
      var r := RangesTo(bits, k - 1);
      if !bits[k - 1] then r
      else if k >= 2 && bits[k - 2] then r[..|r| - 1] + [(r[|r| - 1].0, k - 1)]
      else r + [(k - 1, k - 1)]
  }

  function Ranges(bits: seq<bool>): seq<Range> {
    RangesTo(bits, |bits|)
  }

  // ----- what the ranges are

  /** (a, b) is a run that cannot be extended on either side within the first k bits. */
  predicate MaximalRun(bits: seq<bool>, k: nat, a: nat, b: nat) {
    && a <= b < k <= |bits|
    && (forall j :: a <= j <= b ==> bits[j])
    && (a == 0 || !bits[a - 1])
    && (b + 1 == k || !bits[b + 1])
  }

  ghost predicate ExactlyMaximalRuns(bits: seq<bool>, k: nat, r: seq<Range>) {
    && (forall i :: 0 <= i < |r| ==> MaximalRun(bits, k, r[i].0, r[i].1))
    && (forall a: nat, b: nat :: MaximalRun(bits, k, a, b) ==> (a, b) in r)
    && (forall i, j :: 0 <= i < j < |r| ==> r[i].1 < r[j].0)
  }

  /** The ranges are exactly the maximal runs, in ascending order. */
  lemma {:induction false} RangesAreMaximalRuns(bits: seq<bool>, k: nat)
    requires k <= |bits|
    ensures ExactlyMaximalRuns(bits, k, RangesTo(bits, k))
  {
    if k > 0 {
      RangesAreMaximalRuns(bits, k - 1);
      var p := RangesTo(bits, k - 1);
      if !bits[k - 1] {
        ClearBit(bits, k, p);
      } else if k >= 2 && bits[k - 2] {
        ExtendRun(bits, k, p);
      } else {
        NewRun(bits, k, p);
      }
    }
  }

  lemma ClearBit(bits: seq<bool>, k: nat, p: seq<Range>)
    requires 0 < k <= |bits| && !bits[k - 1] && ExactlyMaximalRuns(bits, k - 1, p)
    ensures ExactlyMaximalRuns(bits, k, p)
  {
    forall a: nat, b: nat | MaximalRun(bits, k, a, b) ensures (a, b) in p {
      assert bits[b];
      assert MaximalRun(bits, k - 1, a, b);
    }
  }

  lemma NewRun(bits: seq<bool>, k: nat, p: seq<Range>)
    requires 0 < k <= |bits| && bits[k - 1] && (k == 1 || !bits[k - 2]) && ExactlyMaximalRuns(bits, k - 1, p)
    ensures ExactlyMaximalRuns(bits, k, p + [(k - 1, k - 1)])
  {
    forall i | 0 <= i < |p| ensures MaximalRun(bits, k, p[i].0, p[i].1) {
      assert MaximalRun(bits, k - 1, p[i].0, p[i].1);
      assert bits[p[i].1];
    }
    forall a: nat, b: nat | MaximalRun(bits, k, a, b) ensures (a, b) in p + [(k - 1, k - 1)] {
      if b < k - 1 {
        assert bits[b];
        assert MaximalRun(bits, k - 1, a, b);
      }
    }
  }

  lemma ExtendRun(bits: seq<bool>, k: nat, p: seq<Range>)
    requires 2 <= k <= |bits| && bits[k - 1] && bits[k - 2] && ExactlyMaximalRuns(bits, k - 1, p)
    requires p != [] && p[|p| - 1].1 == k - 2
    ensures ExactlyMaximalRuns(bits, k, p[..|p| - 1] + [(p[|p| - 1].0, k - 1)])
  {
    var x, q := p[|p| - 1].0, p[..|p| - 1];
    assert MaximalRun(bits, k - 1, x, k - 2);
    forall i | 0 <= i < |q| ensures MaximalRun(bits, k, q[i].0, q[i].1) && q[i].1 < x {
      assert MaximalRun(bits, k - 1, q[i].0, q[i].1) && p[i].1 < p[|p| - 1].0;
    }
    forall a: nat, b: nat | MaximalRun(bits, k, a, b) ensures (a, b) in q + [(x, k - 1)] {
      if b == k - 1 {
        assert a == x;
      } else {
        assert !bits[b + 1] && b != k - 2;
        assert MaximalRun(bits, k - 1, a, b);
        var i :| 0 <= i < |p| && p[i] == (a, b);
        assert q[i] == (a, b);
      }
    }
  }

  // ----- how they grow

  /** Bits a to b - 1 are all set, and the one before them is not. */
  ghost predicate IsRun(bits: seq<bool>, a: nat, b: nat) {
    && a < b <= |bits|
    && (forall j :: a <= j < b ==> bits[j])
    && (a == 0 || !bits[a - 1])
  }

  lemma {:induction false} RunEnds(bits: seq<bool>, a: nat, b: nat)
    requires IsRun(bits, a, b)
    ensures RangesTo(bits, b) == RangesTo(bits, a) + [(a, b - 1)]
    decreases b
  {
    if a < b - 1 {
      RunEnds(bits, a, b - 1);
    }
  }

  lemma {:induction false} NoBits(bits: seq<bool>, a: nat, b: nat)
    requires a <= b <= |bits| && forall j :: a <= j < b ==> !bits[j]
    ensures RangesTo(bits, b) == RangesTo(bits, a)
    decreases b
  {
    if a < b {
      NoBits(bits, a, b - 1);
    }
  }

  lemma NoBitsNoRanges(bits: seq<bool>, k: nat)
    requires k <= |bits| && forall j :: 0 <= j < |bits| ==> !bits[j]
    ensures RangesTo(bits, k) == []
  {
    NoBits(bits, 0, k);
  }

  // ----- one node

  /** The state of the per-node scan before bit j: start is -1 outside a run. */
  ghost predicate Scanned(bits: seq<bool>, ranges: seq<Range>, start: int, j: nat) {
    if start == -1 then j <= |bits| && ranges == RangesTo(bits, j) && (j == 0 || j == |bits| || !bits[j - 1])
    else 0 <= start && j < |bits| && IsRun(bits, start, j) && ranges == RangesTo(bits, start)
  }

  method NodeRanges(bits: seq<bool>) returns (ranges: seq<Range>)
    ensures ranges == Ranges(bits)
  {
    ranges := [];
    var start, j := -1, 0;
    while j < |bits|
      invariant Scanned(bits, ranges, start, j)
      decreases |bits| - j
    {
      hide RangesTo;
      ghost var j0, start0, ranges0 := j, start, ranges;
      if bits[j] && start == -1 {
        start := j;
      }
      if start != -1 && (!bits[j] || j == |bits| - 1) {
        if bits[j] && j == |bits| - 1 {
          j := j + 1;
        }
        RunEnds(bits, start, j);
        ranges := ranges + [(start, j - 1)];
        start := -1;
      }
      if j < |bits| {
        if start == -1 {
          NoBits(bits, j, j + 1);
        }
        j := j + 1;
      }
    }
  }

  // ----- all nodes

  function InfoOf(info: map<NodeId, seq<Range>>, id: NodeId): seq<Range> {
    if id in info then info[id] else []
  }

  /** info holds, for every node not filtered out, its ranges among the first k slots. */
  ghost predicate Collected(table: seq<Option<NodeId>>, filtered: set<NodeId>, info: map<NodeId, seq<Range>>,
                            k: nat) {
    && k <= |table|
    && (forall m :: m in info ==> m !in filtered && info[m] != [])
    && (forall m :: m !in filtered ==> InfoOf(info, m) == RangesTo(BitsOf(table, m), k))
  }

  lemma CollectRun(table: seq<Option<NodeId>>, filtered: set<NodeId>, info: map<NodeId, seq<Range>>, n: NodeId,
                   a: nat, b: nat)
    requires Collected(table, filtered, info, a) && a < b <= |table| && IsRun(BitsOf(table, n), a, b)
    ensures Collected(table, filtered,
                      if n in filtered then info else info[n := InfoOf(info, n) + [(a, b - 1)]], b)
  {
    hide RangesTo;
    RunEnds(BitsOf(table, n), a, b);
    forall m | m != n ensures RangesTo(BitsOf(table, m), b) == RangesTo(BitsOf(table, m), a) {
      forall j | a <= j < b ensures !BitsOf(table, m)[j] {
        assert BitsOf(table, n)[j];
      }
      NoBits(BitsOf(table, m), a, b);
    }
  }

  lemma CollectUnbound(table: seq<Option<NodeId>>, filtered: set<NodeId>, info: map<NodeId, seq<Range>>, k: nat)
    requires Collected(table, filtered, info, k) && k < |table| && table[k].None?
    ensures Collected(table, filtered, info, k + 1)
  {
    hide RangesTo;
    forall m: NodeId ensures RangesTo(BitsOf(table, m), k + 1) == RangesTo(BitsOf(table, m), k) {
      NoBits(BitsOf(table, m), k, k + 1);
    }
  }

  /** The state of the one-pass scan before slot i: inside a run of n from start, or between runs. */
  ghost predicate Passing(table: seq<Option<NodeId>>, filtered: set<NodeId>, info: map<NodeId, seq<Range>>,
                          n: Option<NodeId>, start: nat, i: nat) {
    if n.None? then i <= |table| && Collected(table, filtered, info, i) && (i == 0 || table[i - 1].None?)
    else start < i <= |table| && Collected(table, filtered, info, start) && IsRun(BitsOf(table, n.value), start, i)
  }

  /** Starting over at slot i with whatever owner it has. */
  lemma StartRun(table: seq<Option<NodeId>>, filtered: set<NodeId>, info: map<NodeId, seq<Range>>, i: nat)
    requires Collected(table, filtered, info, i) && i < |table|
    requires i == 0 || table[i].None? || table[i - 1] != table[i]
    ensures Passing(table, filtered, info, table[i], i, i + 1)
  {
    hide RangesTo;
    if table[i].None? {
      CollectUnbound(table, filtered, info, i);
    } else {
      assert BitsOf(table, table[i].value)[i];
    }
  }

  method GenNodesSlotsInfo(table: seq<Option<NodeId>>, filtered: set<NodeId>) returns (info: map<NodeId, seq<Range>>)
    ensures forall m :: m in info ==> m !in filtered && info[m] != []
    ensures forall m :: m !in filtered ==> InfoOf(info, m) == Ranges(BitsOf(table, m))
  {
    info := map[];
    var n: Option<NodeId> := None;
    var start, i := 0, 0;
    while i <= |table|
      invariant i <= |table| && Passing(table, filtered, info, n, start, i)
      decreases |table| - i
    {
      hide RangesTo, IsRun, Collected;
      if n.None? {
        if i == |table| { break; }
        StartRun(table, filtered, info, i);
        n := table[i];
        start := i;
        i := i + 1;
        continue;
      }
      if i == |table| || n != table[i] {
        CollectRun(table, filtered, info, n.value, start, i);
        assert table[i - 1] == n by { RunOwner(table, n.value, start, i); }
        if n.value !in filtered {
          info := info[n.value := InfoOf(info, n.value) + [(start, i - 1)]];
        }
        if i == |table| {
          n := None;
          break;
        }
        StartRun(table, filtered, info, i);
        n := table[i];
        start := i;
      } else {
        ExtendPass(table, n.value, start, i);
      }
      i := i + 1;
    }
  }

  lemma RunOwner(table: seq<Option<NodeId>>, n: NodeId, a: nat, b: nat)
    requires IsRun(BitsOf(table, n), a, b)
    ensures table[b - 1] == Some(n)
  {
    assert BitsOf(table, n)[b - 1];
  }

  lemma ExtendPass(table: seq<Option<NodeId>>, n: NodeId, a: nat, b: nat)
    requires IsRun(BitsOf(table, n), a, b) && b < |table| && table[b] == Some(n)
    ensures IsRun(BitsOf(table, n), a, b + 1)
  {
    assert BitsOf(table, n)[b];
  }
}
