/**
 The combinatorics of config epoch collisions, on the epochs alone: a trace lists, state
 by state, the epoch every node has for itself. A node leaves an epoch only when a node
 with a larger name has had it, and then for a greater one.
 */
module CollisionTraces {
  import opened Prelude

  type Name = nat

  type Epochs = map<Name, nat>

  /** In step i node n leaves an epoch that x, with a larger name, had in state j. */
  ghost predicate MoveOf(trace: seq<Epochs>, i: nat, n: Name, x: Name, j: nat)
    requires i + 1 < |trace|
  {
    && j <= i && n < x
    && n in trace[i] && x in trace[j] && n in trace[i + 1]
    && trace[j][x] == trace[i][n] < trace[i + 1][n]
    && trace[i + 1] == trace[i][n := trace[i + 1][n]]
  }

  ghost predicate Moves(trace: seq<Epochs>, i: nat)
    requires i + 1 < |trace|
  {
    trace[i + 1] == trace[i] || exists n, x, j :: MoveOf(trace, i, n, x, j)
  }

  ghost predicate CollisionTrace(trace: seq<Epochs>, N: set<Name>) {
    && |trace| > 0
    && (forall i :: 0 <= i < |trace| ==> trace[i].Keys == N)
    && (forall i: nat :: i + 1 < |trace| ==> Moves(trace, i))
  }

  // ----- counting

  ghost function At(trace: seq<Epochs>, m: Name, i: nat): nat
    requires i < |trace|
  {
    if m in trace[i] then trace[i][m] else 0
  }

  /** The epochs node m had for itself in the first k + 1 states. */
  ghost function Held(trace: seq<Epochs>, m: Name, k: nat): set<nat>
    requires k < |trace|
    decreases k
  {
    if k == 0 then {At(trace, m, 0)} else Held(trace, m, k - 1) + {At(trace, m, k)}
  }

  /** The steps among the first k in which node m moved to another epoch. */
  ghost function Bumps(trace: seq<Epochs>, m: Name, k: nat): (r: set<nat>)
    requires k < |trace|
    ensures forall i :: i in r ==> i < k
    decreases k
  {
    if k == 0 then {}
    else if At(trace, m, k - 1) == At(trace, m, k) then Bumps(trace, m, k - 1)
    else Bumps(trace, m, k - 1) + {k - 1}
  }

  /** The epochs node m gave up in the first k steps. */
  ghost function Abandoned(trace: seq<Epochs>, m: Name, k: nat): set<nat>
    requires k < |trace|
    decreases k
  {
    if k == 0 then {}
    else if At(trace, m, k - 1) == At(trace, m, k) then Abandoned(trace, m, k - 1)
    else Abandoned(trace, m, k - 1) + {At(trace, m, k - 1)}
  }

  lemma {:induction false} HeldContains(trace: seq<Epochs>, m: Name, i: nat, k: nat)
    requires i <= k < |trace|
    ensures At(trace, m, i) in Held(trace, m, k)
  {
    if i < k {
      HeldContains(trace, m, i, k - 1);
    }
  }

  lemma UnionSize<T>(a: set<T>, b: set<T>)
    ensures |a + b| <= |a| + |b|
  {
    assert a + b == a + (b - a);
    SubsetSize(b - a, b);
  }

  lemma OneMoreOfEach(held: set<nat>, bumps: set<nat>, e: nat, i: nat)
    requires |held| <= |bumps| + 1 && i !in bumps
    ensures |held + {e}| <= |bumps + {i}| + 1
  {
    UnionSize(held, {e});
  }

  lemma HeldUnfold(trace: seq<Epochs>, m: Name, k: nat)
    requires k < |trace|
    ensures k == 0 ==>
      && Held(trace, m, k) == {At(trace, m, 0)} && Bumps(trace, m, k) == {} && Abandoned(trace, m, k) == {}
    ensures k > 0 ==>
      && Held(trace, m, k) == Held(trace, m, k - 1) + {At(trace, m, k)}
      && At(trace, m, k - 1) in Held(trace, m, k - 1)
      && (At(trace, m, k - 1) == At(trace, m, k) ==>
            Bumps(trace, m, k) == Bumps(trace, m, k - 1) && Abandoned(trace, m, k) == Abandoned(trace, m, k - 1))
      && (At(trace, m, k - 1) != At(trace, m, k) ==>
            && Bumps(trace, m, k) == Bumps(trace, m, k - 1) + {k - 1}
            && Abandoned(trace, m, k) == Abandoned(trace, m, k - 1) + {At(trace, m, k - 1)})
  {
  }

  lemma {:induction false} HeldAtMostBumps(trace: seq<Epochs>, m: Name, k: nat)
    requires k < |trace|
    ensures |Held(trace, m, k)| <= |Bumps(trace, m, k)| + 1
    decreases k
  {
    hide *;
    HeldUnfold(trace, m, k);
    if k > 0 {
      HeldAtMostBumps(trace, m, k - 1);
      if At(trace, m, k - 1) == At(trace, m, k) {
        assert Held(trace, m, k) == Held(trace, m, k - 1);
      } else {
        OneMoreOfEach(Held(trace, m, k - 1), Bumps(trace, m, k - 1), At(trace, m, k), k - 1);
      }
    }
  }

  /** In a step of a trace only one node's epoch changes, and it grows. */
  lemma StepGrows(trace: seq<Epochs>, N: set<Name>, m: Name, i: nat)
    requires CollisionTrace(trace, N) && i + 1 < |trace|
    ensures At(trace, m, i) <= At(trace, m, i + 1)
  {
    assert Moves(trace, i);
  }

  /** Own epochs only grow, so every bump gives up another epoch. */
  lemma {:induction false} BumpsAreAbandoned(trace: seq<Epochs>, N: set<Name>, m: Name, k: nat)
    requires CollisionTrace(trace, N) && k < |trace|
    ensures |Bumps(trace, m, k)| == |Abandoned(trace, m, k)|
    ensures forall e :: e in Abandoned(trace, m, k) ==> e < At(trace, m, k)
    decreases k
  {
    hide *;
    HeldUnfold(trace, m, k);
    if k > 0 {
      BumpsAreAbandoned(trace, N, m, k - 1);
      StepGrows(trace, N, m, k - 1);
    }
  }

  /** The epochs ever held by the nodes in S. */
  ghost function HeldBy(trace: seq<Epochs>, S: set<Name>, k: nat): set<nat>
    requires k < |trace|
  {
    set m, e | m in S && e in Held(trace, m, k) :: e
  }

  /** A node gives up only epochs that a node with a larger name once had. */
  lemma {:induction false} AbandonedIsHeldAbove(trace: seq<Epochs>, N: set<Name>, m: Name, i: nat, k: nat, e: nat)
    requires CollisionTrace(trace, N) && i <= k < |trace| && e in Abandoned(trace, m, i)
    ensures exists x :: x in N && m < x && e in Held(trace, x, k)
  {
    if e in Abandoned(trace, m, i - 1) {
      AbandonedIsHeldAbove(trace, N, m, i - 1, k, e);
    } else {
      assert Moves(trace, i - 1);
      var n, x, j :| MoveOf(trace, i - 1, n, x, j);
      assert n == m && x in N && e == At(trace, x, j);
      HeldContains(trace, x, j, k);
    }
  }

  lemma {:induction false} Minimum(S: set<Name>) returns (x: Name)
    requires S != {}
    ensures x in S && forall y :: y in S ==> x <= y
    decreases |S|
  {
    var y :| y in S;
    var T := S - {y};
    if T == {} {
      x := y;
      assert S == {y};
    } else {
      assert |T| < |S|;
      var z := Minimum(T);
      x := if y < z then y else z;
      assert S == T + {y};
    }
  }

  /** The steps in which some node of S moves. */
  ghost function BumpsOf(trace: seq<Epochs>, S: set<Name>, k: nat): set<nat>
    requires k < |trace|
  {
    set m, i | m in S && i in Bumps(trace, m, k) :: i
  }

  /** S holds, with each of its nodes, all those with larger names. */
  ghost predicate UpwardClosed(N: set<Name>, S: set<Name>) {
    S <= N && forall m, x :: m in S && x in N && m < x ==> x in S
  }

  /** One more node at most doubles the epochs held. */
  lemma OneMore(trace: seq<Epochs>, N: set<Name>, T: set<Name>, x: Name, k: nat)
    requires CollisionTrace(trace, N) && x in N && k < |trace| && T == set y | y in N && x < y
    ensures |HeldBy(trace, T + {x}, k)| <= 2 * |HeldBy(trace, T, k)| + 1
    ensures |BumpsOf(trace, T + {x}, k)| <= |BumpsOf(trace, T, k)| + |HeldBy(trace, T, k)|
  {
    hide CollisionTrace, Held, Bumps, Abandoned;
    forall e | e in Abandoned(trace, x, k) ensures e in HeldBy(trace, T, k) {
      AbandonedIsHeldAbove(trace, N, x, k, k, e);
    }
    SubsetSize(Abandoned(trace, x, k), HeldBy(trace, T, k));
    BumpsAreAbandoned(trace, N, x, k);
    HeldAtMostBumps(trace, x, k);
    assert HeldBy(trace, T + {x}, k) == HeldBy(trace, T, k) + Held(trace, x, k);
    assert BumpsOf(trace, T + {x}, k) == BumpsOf(trace, T, k) + Bumps(trace, x, k);
    UnionSize(HeldBy(trace, T, k), Held(trace, x, k));
    UnionSize(BumpsOf(trace, T, k), Bumps(trace, x, k));
  }

  /** The bound, by adding nodes in the order of falling names. */
  lemma {:induction false} BumpBound(trace: seq<Epochs>, N: set<Name>, S: set<Name>, k: nat)
    requires CollisionTrace(trace, N) && UpwardClosed(N, S) && k < |trace|
    ensures |HeldBy(trace, S, k)| <= Pow2(|S|) - 1
    ensures |BumpsOf(trace, S, k)| <= Pow2(|S|) - |S| - 1
    decreases |S|
  {
    hide CollisionTrace, Held, Bumps;
    if S == {} {
      assert HeldBy(trace, S, k) == {} && BumpsOf(trace, S, k) == {};
    } else {
      var x := Minimum(S);
      var T := S - {x};
      BumpBound(trace, N, T, k);
      assert T == set y | y in N && x < y;
      OneMore(trace, N, T, x, k);
      assert T + {x} == S;
    }
  }

  /** The greatest name never moves. */
  lemma GreatestStays(trace: seq<Epochs>, N: set<Name>, m: Name, k: nat)
    requires CollisionTrace(trace, N) && m in N && k < |trace|
    requires forall x :: x in N ==> x <= m
    ensures trace[k][m] == trace[0][m]
  {
    if k > 0 {
      GreatestStays(trace, N, m, k - 1);
      assert Moves(trace, k - 1);
    }
  }

  lemma SameKeys(trace: seq<Epochs>, N: set<Name>, i: nat)
    requires CollisionTrace(trace, N) && i < |trace|
    ensures trace[i].Keys == N
  {
  }
}
