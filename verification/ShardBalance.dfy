/** The greedy shard balancer as functions on the assignment: what it computes, that it
    terminates, and how little it moves. */
module ShardBalance {
  import opened Sets

  /** Loads must stay below the sentinel with which the scan for the least loaded group starts. */
  const SENTINEL := 257

  /** The number of shards that the assignment gives to a group. */
  function Load(shards: seq<int>, g: int): nat {
    multiset(shards)[g]
  }

  /** The least gid among the least loaded groups. */
  ghost predicate IsLeast(shards: seq<int>, gs: set<int>, g: int) {
    g in gs && forall h :: h in gs ==> Load(shards, g) < Load(shards, h) || (Load(shards, g) == Load(shards, h) && g <= h)
  }

  /** The least gid among the most loaded groups. */
  ghost predicate IsMost(shards: seq<int>, gs: set<int>, g: int) {
    g in gs && forall h :: h in gs ==> Load(shards, g) > Load(shards, h) || (Load(shards, g) == Load(shards, h) && g <= h)
  }

  ghost predicate Owned(shards: seq<int>, gs: set<int>) {
    forall i :: 0 <= i < |shards| ==> shards[i] in gs
  }

  ghost predicate Balanced(shards: seq<int>, gs: set<int>) {
    forall g, h :: g in gs && h in gs ==> Load(shards, g) <= Load(shards, h) + 1
  }

  lemma {:induction false} LeastExists(shards: seq<int>, gs: set<int>)
    requires gs != {}
    ensures exists g :: IsLeast(shards, gs, g)
    decreases gs
  {
    var x := Pick(gs);
    if gs - {x} == {} {
      assert gs == {x} && IsLeast(shards, gs, x);
    } else {
      LeastExists(shards, gs - {x});
      var y :| IsLeast(shards, gs - {x}, y);
      var g := if Load(shards, x) < Load(shards, y) || (Load(shards, x) == Load(shards, y) && x < y) then x else y;
      assert IsLeast(shards, gs, g) by { assert forall h :: h in gs ==> h == x || h in gs - {x}; }
    }
  }

  lemma {:induction false} MostExists(shards: seq<int>, gs: set<int>)
    requires gs != {}
    ensures exists g :: IsMost(shards, gs, g)
    decreases gs
  {
    var x := Pick(gs);
    if gs - {x} == {} {
      assert gs == {x} && IsMost(shards, gs, x);
    } else {
      MostExists(shards, gs - {x});
      var y :| IsMost(shards, gs - {x}, y);
      var g := if Load(shards, x) > Load(shards, y) || (Load(shards, x) == Load(shards, y) && x < y) then x else y;
      assert IsMost(shards, gs, g) by { assert forall h :: h in gs ==> h == x || h in gs - {x}; }
    }
  }

  ghost function Least(shards: seq<int>, gs: set<int>): (g: int)
    requires gs != {}
    ensures IsLeast(shards, gs, g)
  {
    LeastExists(shards, gs);
    var g :| IsLeast(shards, gs, g);
    g
  }

  ghost function Most(shards: seq<int>, gs: set<int>): (g: int)
    requires gs != {}
    ensures IsMost(shards, gs, g)
  {
    MostExists(shards, gs);
    var g :| IsMost(shards, gs, g);
    g
  }

  /** The choice is unique, so the order in which the groups are visited cannot matter. */
  lemma ChoiceIsUnique(shards: seq<int>, gs: set<int>, g: int)
    requires gs != {}
    ensures IsLeast(shards, gs, g) <==> g == Least(shards, gs)
    ensures IsMost(shards, gs, g) <==> g == Most(shards, gs)
  {
  }

  // ---------------------------------------------------------------- what the balancer computes

  /** After the first loop reached shard `i`: shards of no live group went to the then least loaded. */
  ghost function Assigned(shards: seq<int>, gs: set<int>, i: nat): (r: seq<int>)
    requires gs != {} && i <= |shards|
    ensures |r| == |shards|
  {
    if i == 0 then shards else
    var s := Assigned(shards, gs, i - 1);
    if s[i - 1] in gs then s else s[i - 1 := Least(s, gs)]
  }

  /** The shards below `i` have a live owner, kept where there was one; the others are untouched. */
  ghost predicate AssignedBelow(shards: seq<int>, r: seq<int>, gs: set<int>, i: nat)
    requires |r| == |shards| && i <= |shards|
  {
    && (forall j :: i <= j < |shards| ==> r[j] == shards[j])
    && (forall j :: 0 <= j < i ==> r[j] in gs && (shards[j] in gs ==> r[j] == shards[j]))
  }

  lemma AssignOne(shards: seq<int>, s: seq<int>, gs: set<int>, i: nat, g: int)
    requires |s| == |shards| && i < |shards| && AssignedBelow(shards, s, gs, i) && g in gs
    ensures AssignedBelow(shards, if s[i] in gs then s else s[i := g], gs, i + 1)
  {
  }

  lemma {:induction false} AssignedShape(shards: seq<int>, gs: set<int>, i: nat)
    requires gs != {} && i <= |shards|
    ensures AssignedBelow(shards, Assigned(shards, gs, i), gs, i)
  {
    if i > 0 {
      AssignedShape(shards, gs, i - 1);
      var s := Assigned(shards, gs, i - 1);
      AssignOne(shards, s, gs, i - 1, Least(s, gs));
    }
  }

  function FirstOf(shards: seq<int>, g: int): (i: nat)
    requires g in shards
    ensures i < |shards| && shards[i] == g && g !in shards[..i]
  {
    if shards[0] == g then 0 else FirstOf(shards[1..], g) + 1
  }

  predicate Uneven(shards: seq<int>, mg: int, lg: int) {
    Load(shards, mg) >= Load(shards, lg) + 2
  }

  /** One move of the second loop: the first shard of the most loaded group to the least loaded. */
  ghost function Moved(shards: seq<int>, gs: set<int>): seq<int>
    requires gs != {} && Uneven(shards, Most(shards, gs), Least(shards, gs))
  {
    shards[FirstOf(shards, Most(shards, gs)) := Least(shards, gs)]
  }

  ghost function SumSquares(shards: seq<int>, gs: set<int>): nat {
    if gs == {} then 0 else
    var g := Pick(gs);
    SumSquares(shards, gs - {g}) + Load(shards, g) * Load(shards, g)
  }

  lemma {:induction false} SumSquaresSplit(shards: seq<int>, gs: set<int>, g: int)
    requires g in gs
    ensures SumSquares(shards, gs) == SumSquares(shards, gs - {g}) + Load(shards, g) * Load(shards, g)
    decreases gs
  {
    var x := Pick(gs);
    if x != g {
      SumSquaresSplit(shards, gs - {x}, g);
      SumSquaresSplit(shards, gs - {g}, x);
      assert gs - {x} - {g} == gs - {g} - {x};
    }
  }

  lemma {:induction false} SumSquaresSame(s: seq<int>, t: seq<int>, gs: set<int>)
    requires forall g :: g in gs ==> Load(s, g) == Load(t, g)
    ensures SumSquares(s, gs) == SumSquares(t, gs)
    decreases gs
  {
    if gs != {} {
      var g := Pick(gs);
      SumSquaresSplit(s, gs, g);
      SumSquaresSplit(t, gs, g);
      SumSquaresSame(s, t, gs - {g});
    }
  }

  /** Every move lowers the sum of the squared loads. */
  lemma MoveLowersSquares(shards: seq<int>, gs: set<int>)
    requires gs != {} && Uneven(shards, Most(shards, gs), Least(shards, gs))
    ensures SumSquares(Moved(shards, gs), gs) < SumSquares(shards, gs)
  {
    var m, l, t := Most(shards, gs), Least(shards, gs), Moved(shards, gs);
    MoveLoads(shards, gs);
    var rest := gs - {m} - {l};
    SumSquaresSplit(shards, gs, m);
    SumSquaresSplit(shards, gs - {m}, l);
    SumSquaresSplit(t, gs, m);
    SumSquaresSplit(t, gs - {m}, l);
    SumSquaresSame(shards, t, rest);
    SquaresFall(Load(shards, m), Load(shards, l));
  }

  lemma SquaresFall(m: nat, l: nat)
    requires m >= l + 2
    ensures (m - 1) * (m - 1) + (l + 1) * (l + 1) < m * m + l * l
  {
  }

  /** A move takes one shard from the most loaded group and gives it to the least loaded. */
  lemma MoveLoads(shards: seq<int>, gs: set<int>)
    requires gs != {} && Uneven(shards, Most(shards, gs), Least(shards, gs))
    ensures var m, l, t := Most(shards, gs), Least(shards, gs), Moved(shards, gs);
            && m != l && Load(t, m) == Load(shards, m) - 1 && Load(t, l) == Load(shards, l) + 1
            && forall h :: h != m && h != l ==> Load(t, h) == Load(shards, h)
  {
  }

  /** The second loop. */
  ghost function Levelled(shards: seq<int>, gs: set<int>): seq<int>
    requires gs != {}
    decreases SumSquares(shards, gs)
  {
    if !Uneven(shards, Most(shards, gs), Least(shards, gs)) then shards else
    MoveLowersSquares(shards, gs);
    Levelled(Moved(shards, gs), gs)
  }

  /** The whole of Rebalance. */
  ghost function Rebalanced(shards: seq<int>, gs: set<int>): seq<int> {
    if gs == {} then seq(|shards|, _ => 0) else Levelled(Assigned(shards, gs, |shards|), gs)
  }

  // ---------------------------------------------------------------- every shard owned, loads even

  lemma {:induction false} LevelledIsBalanced(shards: seq<int>, gs: set<int>)
    requires gs != {}
    ensures var r := Levelled(shards, gs);
            |r| == |shards| && Balanced(r, gs) && (Owned(shards, gs) ==> Owned(r, gs))
    decreases SumSquares(shards, gs)
  {
    if Uneven(shards, Most(shards, gs), Least(shards, gs)) {
      MoveLowersSquares(shards, gs);
      LevelledIsBalanced(Moved(shards, gs), gs);
    }
  }

  /** From any assignment, Rebalance ends with every shard owned by a live group and loads
      that differ by at most one. */
  lemma RebalancedIsBalanced(shards: seq<int>, gs: set<int>)
    requires gs != {}
    ensures var r := Rebalanced(shards, gs);
            |r| == |shards| && Owned(r, gs) && Balanced(r, gs)
  {
    AssignedShape(shards, gs, |shards|);
    assert Owned(Assigned(shards, gs, |shards|), gs);
    LevelledIsBalanced(Assigned(shards, gs, |shards|), gs);
  }

  // ---------------------------------------------------------------- minimal movement

  ghost function Total(shards: seq<int>, gs: set<int>): nat {
    if gs == {} then 0 else
    var g := Pick(gs);
    Total(shards, gs - {g}) + Load(shards, g)
  }

  lemma {:induction false} TotalSplit(shards: seq<int>, gs: set<int>, g: int)
    requires g in gs
    ensures Total(shards, gs) == Total(shards, gs - {g}) + Load(shards, g)
    decreases gs
  {
    var x := Pick(gs);
    if x != g {
      TotalSplit(shards, gs - {x}, g);
      TotalSplit(shards, gs - {g}, x);
      assert gs - {x} - {g} == gs - {g} - {x};
    }
  }

  lemma {:induction false} TotalSame(s: seq<int>, t: seq<int>, gs: set<int>)
    requires forall g :: g in gs ==> Load(s, g) == Load(t, g)
    ensures Total(s, gs) == Total(t, gs)
    decreases gs
  {
    if gs != {} {
      var g := Pick(gs);
      TotalSplit(s, gs, g);
      TotalSplit(t, gs, g);
      TotalSame(s, t, gs - {g});
    }
  }

  /** The loads of the owners add up to the number of shards. */
  lemma {:induction false} TotalIsAll(shards: seq<int>, gs: set<int>)
    requires Owned(shards, gs)
    ensures Total(shards, gs) == |shards|
    decreases |shards|
  {
    if shards == [] {
      TotalEmpty(gs);
    } else {
      var init, x := shards[..|shards| - 1], shards[|shards| - 1];
      assert shards == init + [x];
      TotalIsAll(init, gs);
      TotalSplit(shards, gs, x);
      TotalSplit(init, gs, x);
      TotalSame(shards, init, gs - {x});
    }
  }

  lemma {:induction false} TotalEmpty(gs: set<int>)
    ensures Total([], gs) == 0
    decreases gs
  {
    if gs != {} {
      var g := Pick(gs);
      TotalEmpty(gs - {g});
    }
  }

  lemma {:induction false} TotalBounds(shards: seq<int>, gs: set<int>, lo: nat, hi: nat)
    requires forall g :: g in gs ==> lo <= Load(shards, g) <= hi
    ensures lo * |gs| <= Total(shards, gs) <= hi * |gs|
    decreases gs
  {
    if gs != {} {
      var g := Pick(gs);
      TotalSplit(shards, gs, g);
      TotalBounds(shards, gs - {g}, lo, hi);
      var k := |gs - {g}|;
      assert |gs| == k + 1;
      OneMore(lo, k);
      OneMore(hi, k);
    }
  }

  /** While a newcomer is being served: the others are even among themselves, and none has less. */
  ghost predicate Serving(shards: seq<int>, gs: set<int>, g: int) {
    && g !in gs && gs != {} && Owned(shards, gs + {g}) && Balanced(shards, gs)
    && forall h :: h in gs ==> Load(shards, g) <= Load(shards, h)
  }

  /** Every move goes from an old group to the newcomer. */
  lemma ServingMove(shards: seq<int>, gs: set<int>, g: int)
    requires Serving(shards, gs, g) && Uneven(shards, Most(shards, gs + {g}), Least(shards, gs + {g}))
    ensures Most(shards, gs + {g}) in gs && Least(shards, gs + {g}) == g
    ensures Serving(Moved(shards, gs + {g}), gs, g)
  {
    MoveLoads(shards, gs + {g});
    var m := Most(shards, gs + {g});
    var h := Pick(gs);
    assert Load(shards, g) <= Load(shards, h);
    assert m in gs + {g} && Least(shards, gs + {g}) in gs + {g} && g in gs + {g};
  }

  lemma {:induction false} ServingEnds(shards: seq<int>, gs: set<int>, g: int)
    requires Serving(shards, gs, g)
    ensures var r := Levelled(shards, gs + {g});
            |r| == |shards| && Serving(r, gs, g) && (forall i :: 0 <= i < |r| ==> r[i] == shards[i] || r[i] == g)
    decreases SumSquares(shards, gs + {g})
  {
    if Uneven(shards, Most(shards, gs + {g}), Least(shards, gs + {g})) {
      MoveLowersSquares(shards, gs + {g});
      ServingMove(shards, gs, g);
      ServingEnds(Moved(shards, gs + {g}), gs, g);
    }
  }

  lemma {:induction false} AssignedIsIdle(shards: seq<int>, gs: set<int>, i: nat)
    requires gs != {} && i <= |shards| && Owned(shards, gs)
    ensures Assigned(shards, gs, i) == shards
  {
    if i > 0 { AssignedIsIdle(shards, gs, i - 1); }
  }

  lemma {:induction false} LoadIsCount(shards: seq<int>, g: int)
    ensures Load(shards, g) == |set i | 0 <= i < |shards| && shards[i] == g|
    decreases |shards|
  {
    if shards != [] {
      var init, x := shards[..|shards| - 1], shards[|shards| - 1];
      assert shards == init + [x];
      LoadIsCount(init, g);
      var js := set i | 0 <= i < |init| && init[i] == g;
      assert (set i | 0 <= i < |shards| && shards[i] == g) == js + if x == g then {|init|} else {};
    }
  }

  /** The shards whose owner differs. */
  function Changed(s: seq<int>, t: seq<int>): set<int>
    requires |s| == |t|
  {
    set i | 0 <= i < |s| && s[i] != t[i]
  }

  /** When shards move only onto a group that had none, the moves are its load. */
  lemma ChangedIsLoad(s: seq<int>, r: seq<int>, g: int)
    requires |s| == |r| && g !in s && forall i :: 0 <= i < |r| ==> r[i] == s[i] || r[i] == g
    ensures |Changed(s, r)| == Load(r, g)
  {
    LoadIsCount(r, g);
    assert Changed(s, r) == (set i | 0 <= i < |r| && r[i] == g);
  }

  lemma NewcomerIsServed(shards: seq<int>, gs: set<int>, g: int)
    requires gs != {} && g !in gs && Owned(shards, gs) && Balanced(shards, gs)
    ensures g !in shards && Serving(shards, gs, g) && Rebalanced(shards, gs + {g}) == Levelled(shards, gs + {g})
  {
    assert g !in shards;
    assert Load(shards, g) == 0;
    AssignedIsIdle(shards, gs + {g}, |shards|);
  }

  /** Joining one group to a balanced, fully assigned configuration moves shards only onto the
      newcomer, and exactly the rounded-down fair share of them. */
  lemma JoinMovesLeast(shards: seq<int>, gs: set<int>, g: int)
    requires gs != {} && g !in gs && Owned(shards, gs) && Balanced(shards, gs)
    ensures var r := Rebalanced(shards, gs + {g});
            && |r| == |shards|
            && (forall i :: 0 <= i < |r| && r[i] != shards[i] ==> r[i] == g)
            && |Changed(shards, r)| == |shards| / (|gs| + 1)
  {
    NewcomerIsServed(shards, gs, g);
    ServingEnds(shards, gs, g);
    LevelledIsBalanced(shards, gs + {g});
    var r := Levelled(shards, gs + {g});
    ChangedIsLoad(shards, r, g);
    FairShare(r, gs, g);
  }

  lemma FairShare(r: seq<int>, gs: set<int>, g: int)
    requires Serving(r, gs, g) && Balanced(r, gs + {g})
    ensures Load(r, g) == |r| / (|gs| + 1)
  {
    var m := Load(r, g);
    TotalIsAll(r, gs + {g});
    TotalSplit(r, gs + {g}, g);
    assert gs + {g} - {g} == gs;
    forall h | h in gs ensures m <= Load(r, h) <= m + 1 {
      assert h in gs + {g} && g in gs + {g};
    }
    TotalBounds(r, gs, m, m + 1);
    Quotient(|r|, m, |gs|);
  }

  lemma Quotient(n: nat, m: nat, k: nat)
    requires m * k + m <= n <= m * k + k + m
    ensures n / (k + 1) == m
  {
    var r := n - (m * k + m);
    assert n == m * (k + 1) + r && 0 <= r < k + 1;
    DivisionIsUnique(k + 1, m, r);
  }

  lemma DivisionIsUnique(d: nat, q: nat, r: nat)
    requires r < d
    ensures (q * d + r) / d == q
  {
    var n := q * d + r;
    var q' := n / d;
    assert n == q' * d + n % d;
    if q' > q {
      ProductGap(q', q, d);
    } else if q > q' {
      ProductGap(q, q', d);
    }
  }

  lemma ProductGap(a: nat, b: nat, d: nat)
    requires a > b
    ensures a * d >= b * d + d
    decreases a
  {
    OneMore(d, a - 1);
    if a - 1 > b { ProductGap(a - 1, b, d); }
  }

  lemma OneMore(d: nat, k: nat)
    ensures d * (k + 1) == d * k + d && (k + 1) * d == k * d + d
  {
  }

  lemma OneAssigned(s: seq<int>, gs: set<int>, i: nat)
    requires gs != {} && i < |s| && s[i] !in gs && Balanced(s, gs)
    ensures Balanced(s[i := Least(s, gs)], gs)
  {
    var l := Least(s, gs);
    var t := s[i := l];
    forall h | h in gs ensures Load(t, h) == Load(s, h) + if h == l then 1 else 0 { }
    forall g, h | g in gs && h in gs ensures Load(t, g) <= Load(t, h) + 1 {
      assert Load(s, l) <= Load(s, h);
    }
  }

  /** Giving an orphaned shard to the least loaded of even groups keeps them even. */
  lemma {:induction false} AssignedStaysBalanced(shards: seq<int>, gs: set<int>, i: nat)
    requires gs != {} && i <= |shards| && Balanced(shards, gs)
    ensures Balanced(Assigned(shards, gs, i), gs)
  {
    if i > 0 {
      AssignedStaysBalanced(shards, gs, i - 1);
      var s, r := Assigned(shards, gs, i - 1), Assigned(shards, gs, i);
      if s[i - 1] !in gs {
        OneAssigned(s, gs, i - 1);
        assert r == s[i - 1 := Least(s, gs)];
      } else {
        assert r == s;
      }
    }
  }

  /** Removing groups from a balanced, fully assigned configuration moves exactly the leavers'
      shards; the second loop makes no move. */
  lemma LeaveMovesLeast(shards: seq<int>, gs: set<int>, leavers: set<int>)
    requires Owned(shards, gs) && Balanced(shards, gs) && gs - leavers != {}
    ensures var r := Rebalanced(shards, gs - leavers);
            && |r| == |shards|
            && r == Assigned(shards, gs - leavers, |shards|)
            && (forall i :: 0 <= i < |r| ==> (r[i] != shards[i] <==> shards[i] in leavers))
  {
    AssignedStaysBalanced(shards, gs - leavers, |shards|);
    AssignedShape(shards, gs - leavers, |shards|);
  }
}
