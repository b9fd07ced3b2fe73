/** Which shards the balancer moves, and where: no group both gives and receives, the shards a group
    gives up are its lowest-numbered ones, and ties go to the lowest group ids. */
module ShardMoves {
  import opened Sets
  import opened ShardBalance

  /** Group `h` has given up a shard, or received one, between two assignments. */
  predicate Gave(s: seq<int>, r: seq<int>, h: int)
    requires |s| == |r|
  {
    exists i :: 0 <= i < |s| && s[i] == h && r[i] != h
  }

  predicate Received(s: seq<int>, r: seq<int>, h: int)
    requires |s| == |r|
  {
    exists i :: 0 <= i < |s| && s[i] != h && r[i] == h
  }

  /** Of two shards of one owner the lower-numbered one moves first. */
  ghost predicate LowestFirst(s: seq<int>, r: seq<int>)
    requires |s| == |r|
  {
    forall i, j :: 0 <= i < j < |s| && s[i] == s[j] && r[j] != s[j] ==> r[i] != s[i]
  }

  /** A group that gave is still among the most loaded, up to one shard, and no group with a lower
      id has more. */
  ghost predicate GiversHigh(s: seq<int>, r: seq<int>, gs: set<int>)
    requires |s| == |r|
  {
    && (forall h, g :: h in gs && g in gs && Gave(s, r, h) ==> Load(r, g) <= Load(r, h) + 1)
    && (forall h, g :: h in gs && g in gs && Gave(s, r, h) && g < h ==> Load(r, g) <= Load(r, h))
  }

  /** A group that received is still among the least loaded, up to one shard, and no group with a
      lower id has less. */
  ghost predicate ReceiversLow(s: seq<int>, r: seq<int>, gs: set<int>)
    requires |s| == |r|
  {
    && (forall h, g :: h in gs && g in gs && Received(s, r, h) ==> Load(r, h) <= Load(r, g) + 1)
    && (forall h, g :: h in gs && g in gs && Received(s, r, h) && g < h ==> Load(r, h) <= Load(r, g))
  }

  ghost predicate OneWay(s: seq<int>, r: seq<int>)
    requires |s| == |r|
  {
    forall h :: !(Gave(s, r, h) && Received(s, r, h))
  }

  ghost predicate Fair(s: seq<int>, r: seq<int>, gs: set<int>) {
    && |s| == |r| && Owned(s, gs) && Owned(r, gs)
    && LowestFirst(s, r) && OneWay(s, r) && GiversHigh(s, r, gs) && ReceiversLow(s, r, gs)
  }

  /** A move gives to a group that never gave, from a group that never received. */
  lemma MoveEnds(s: seq<int>, r: seq<int>, gs: set<int>)
    requires Fair(s, r, gs) && gs != {} && Uneven(r, Most(r, gs), Least(r, gs))
    ensures !Received(s, r, Most(r, gs)) && !Gave(s, r, Least(r, gs))
  {
  }

  lemma MoveChanges(s: seq<int>, r: seq<int>, gs: set<int>, h: int)
    requires Fair(s, r, gs) && gs != {} && Uneven(r, Most(r, gs), Least(r, gs))
    ensures var t := Moved(r, gs);
            && |t| == |r|
            && (Gave(s, t, h) <==> Gave(s, r, h) || h == Most(r, gs))
            && (Received(s, t, h) <==> Received(s, r, h) || h == Least(r, gs))
  {
    var m, l, t := Most(r, gs), Least(r, gs), Moved(r, gs);
    var f := FirstOf(r, m);
    MoveEnds(s, r, gs);
    assert r[f] == m && s[f] == m;
    assert t[f] == l && m != l;
    if i :| 0 <= i < |s| && s[i] == h && r[i] != h { assert i != f && t[i] != h; }
    if i :| 0 <= i < |s| && s[i] != h && r[i] == h { assert i != f && t[i] == h; }
  }

  lemma MoveLowest(s: seq<int>, r: seq<int>, gs: set<int>)
    requires Fair(s, r, gs) && gs != {} && Uneven(r, Most(r, gs), Least(r, gs))
    ensures LowestFirst(s, Moved(r, gs))
  {
    var m, t := Most(r, gs), Moved(r, gs);
    var f := FirstOf(r, m);
    MoveEnds(s, r, gs);
    assert s[f] == m;
    forall i, j | 0 <= i < j < |s| && s[i] == s[j] && t[j] != s[j] ensures t[i] != s[i] {
      if j == f { assert r[i] in r[..f]; }
    }
  }

  lemma MoveGivers(s: seq<int>, r: seq<int>, gs: set<int>, h: int, g: int)
    requires Fair(s, r, gs) && gs != {} && Uneven(r, Most(r, gs), Least(r, gs)) && h in gs && g in gs
    requires Gave(s, r, h) || h == Most(r, gs)
    ensures var t := Moved(r, gs); Load(t, g) <= Load(t, h) + 1 && (g < h ==> Load(t, g) <= Load(t, h))
  {
    var m, l := Most(r, gs), Least(r, gs);
    MoveLoads(r, gs);
    MoveEnds(s, r, gs);
    assert IsMost(r, gs, m) && IsLeast(r, gs, l);
    assert h != m ==> Load(r, m) <= Load(r, h) + 1;
  }

  lemma MoveReceivers(s: seq<int>, r: seq<int>, gs: set<int>, h: int, g: int)
    requires Fair(s, r, gs) && gs != {} && Uneven(r, Most(r, gs), Least(r, gs)) && h in gs && g in gs
    requires Received(s, r, h) || h == Least(r, gs)
    ensures var t := Moved(r, gs); Load(t, h) <= Load(t, g) + 1 && (g < h ==> Load(t, h) <= Load(t, g))
  {
    var m, l := Most(r, gs), Least(r, gs);
    MoveLoads(r, gs);
    MoveEnds(s, r, gs);
    assert IsMost(r, gs, m) && IsLeast(r, gs, l);
    assert h != l ==> Load(r, h) <= Load(r, l) + 1;
  }

  lemma MoveIsFair(s: seq<int>, r: seq<int>, gs: set<int>)
    requires Fair(s, r, gs) && gs != {} && Uneven(r, Most(r, gs), Least(r, gs))
    ensures Fair(s, Moved(r, gs), gs)
  {
    var t := Moved(r, gs);
    MoveLoads(r, gs);
    MoveEnds(s, r, gs);
    MoveLowest(s, r, gs);
    forall h ensures !(Gave(s, t, h) && Received(s, t, h)) { MoveChanges(s, r, gs, h); }
    forall h, g | h in gs && g in gs && Gave(s, t, h)
      ensures Load(t, g) <= Load(t, h) + 1 && (g < h ==> Load(t, g) <= Load(t, h))
    {
      MoveChanges(s, r, gs, h);
      MoveGivers(s, r, gs, h, g);
    }
    forall h, g | h in gs && g in gs && Received(s, t, h)
      ensures Load(t, h) <= Load(t, g) + 1 && (g < h ==> Load(t, h) <= Load(t, g))
    {
      MoveChanges(s, r, gs, h);
      MoveReceivers(s, r, gs, h, g);
    }
  }

  lemma {:induction false} LevelledIsFair(s: seq<int>, r: seq<int>, gs: set<int>)
    requires gs != {} && Fair(s, r, gs)
    ensures Fair(s, Levelled(r, gs), gs)
    decreases SumSquares(r, gs)
  {
    if Uneven(r, Most(r, gs), Least(r, gs)) {
      MoveLowersSquares(r, gs);
      MoveIsFair(s, r, gs);
      LevelledIsFair(s, Moved(r, gs), gs);
    }
  }

  /** Shard `i` stays with a live group or goes to the group that is least loaded when it is looked
      at; the assignment then is `mid[..i] + shards[i..]`. */
  ghost predicate GreedyAt(shards: seq<int>, gs: set<int>, mid: seq<int>, i: nat)
    requires |mid| == |shards| && i < |shards|
  {
    if shards[i] in gs then mid[i] == shards[i] else IsLeast(mid[..i] + shards[i..], gs, mid[i])
  }

  ghost predicate Greedy(shards: seq<int>, gs: set<int>, mid: seq<int>) {
    |mid| == |shards| && forall i :: 0 <= i < |shards| ==> GreedyAt(shards, gs, mid, i)
  }

  /** The choice for a shard depends on the shards before it only. */
  lemma GreedyStays(shards: seq<int>, gs: set<int>, s: seq<int>, r: seq<int>, i: nat)
    requires |s| == |r| == |shards| && i < |shards| && (forall j :: 0 <= j <= i ==> s[j] == r[j])
    requires GreedyAt(shards, gs, s, i)
    ensures GreedyAt(shards, gs, r, i)
  {
    assert s[..i] == r[..i];
  }

  lemma AssignedOnce(shards: seq<int>, gs: set<int>, i: nat, j: nat)
    requires gs != {} && i < |shards| && j < |shards| && j != i
    ensures Assigned(shards, gs, i + 1)[j] == Assigned(shards, gs, i)[j]
  {
  }

  lemma AssignedAt(shards: seq<int>, gs: set<int>, i: nat)
    requires gs != {} && i < |shards|
    ensures GreedyAt(shards, gs, Assigned(shards, gs, i + 1), i)
  {
    var s, r := Assigned(shards, gs, i), Assigned(shards, gs, i + 1);
    AssignedShape(shards, gs, i);
    assert s == s[..i] + shards[i..];
    assert r[..i] == s[..i];
  }

  /** Once looked at, a shard is not changed again. */
  lemma {:induction false} AssignedStays(shards: seq<int>, gs: set<int>, i: nat, n: nat, j: nat)
    requires gs != {} && j < i <= n <= |shards|
    ensures Assigned(shards, gs, n)[j] == Assigned(shards, gs, i)[j]
  {
    if i < n {
      AssignedStays(shards, gs, i, n - 1, j);
      AssignedOnce(shards, gs, n - 1, j);
    }
  }

  lemma AssignedIsGreedy(shards: seq<int>, gs: set<int>, n: nat, i: nat)
    requires gs != {} && i < n <= |shards|
    ensures GreedyAt(shards, gs, Assigned(shards, gs, n), i)
  {
    AssignedAt(shards, gs, i);
    var s, r := Assigned(shards, gs, i + 1), Assigned(shards, gs, n);
    forall j | 0 <= j <= i ensures s[j] == r[j] { AssignedStays(shards, gs, i + 1, n, j); }
    GreedyStays(shards, gs, s, r, i);
  }

  lemma SameLeast(shards: seq<int>, gs: set<int>, g: int, h: int)
    requires IsLeast(shards, gs, g) && IsLeast(shards, gs, h)
    ensures g == h
  {
  }

  /** The rule leaves no choice. */
  lemma {:induction false} GreedyIsUnique(shards: seq<int>, gs: set<int>, a: seq<int>, b: seq<int>, n: nat)
    requires Greedy(shards, gs, a) && Greedy(shards, gs, b) && n <= |shards|
    ensures a[..n] == b[..n]
  {
    if n > 0 {
      GreedyIsUnique(shards, gs, a, b, n - 1);
      assert GreedyAt(shards, gs, a, n - 1) && GreedyAt(shards, gs, b, n - 1);
      if shards[n - 1] !in gs { SameLeast(a[..n - 1] + shards[n - 1..], gs, a[n - 1], b[n - 1]); }
      assert a[..n] == a[..n - 1] + [a[n - 1]] && b[..n] == b[..n - 1] + [b[n - 1]];
    }
  }

  /** From any assignment: shards without a live owner go one by one to the least loaded group, and
      from there no group both gives and receives, a group gives up its lowest-numbered shards,
      ties are settled in favour of the lower group ids, and the loads end even. */
  lemma RebalanceIsFair(shards: seq<int>, gs: set<int>) returns (mid: seq<int>)
    requires gs != {}
    ensures Greedy(shards, gs, mid) && Fair(mid, Rebalanced(shards, gs), gs) && Balanced(Rebalanced(shards, gs), gs)
  {
    mid := Assigned(shards, gs, |shards|);
    forall i | 0 <= i < |shards| ensures GreedyAt(shards, gs, mid, i) { AssignedIsGreedy(shards, gs, |shards|, i); }
    AssignedShape(shards, gs, |shards|);
    LevelledIsFair(mid, mid, gs);
    LevelledIsBalanced(mid, gs);
  }

  // ---------------------------------------------------------------- joining one group

  /** The shards of group `h` that moved. */
  function GivenUp(s: seq<int>, r: seq<int>, h: int): set<int>
    requires |s| == |r|
  {
    set i | 0 <= i < |s| && s[i] == h && r[i] != h
  }

  function Holds(s: seq<int>, h: int): set<int> {
    set i | 0 <= i < |s| && s[i] == h
  }

  lemma GivenUpCount(s: seq<int>, r: seq<int>, h: int)
    requires |s| == |r| && !Received(s, r, h)
    ensures Load(s, h) == Load(r, h) + |GivenUp(s, r, h)|
  {
    LoadIsCount(s, h);
    LoadIsCount(r, h);
    assert Holds(s, h) == Holds(r, h) + GivenUp(s, r, h) && Holds(r, h) !! GivenUp(s, r, h);
  }

  /** A shard moves exactly when fewer shards of its owner come before it than the owner gives up. */
  lemma MovesByRank(s: seq<int>, r: seq<int>, i: nat)
    requires |s| == |r| && i < |s| && LowestFirst(s, r) && !Received(s, r, s[i])
    ensures r[i] != s[i] <==> Load(s[..i], s[i]) < Load(s, s[i]) - Load(r, s[i])
  {
    var h := s[i];
    var before, given := Holds(s[..i], h), GivenUp(s, r, h);
    GivenUpCount(s, r, h);
    LoadIsCount(s[..i], h);
    if r[i] != h {
      assert before <= given - {i};
      SubsetSize(before, given - {i});
    } else {
      assert given <= before;
      SubsetSize(given, before);
    }
  }

  /** The rounded-down share of `n` shards for each of `k + 1` groups, and what is left over. */
  function EvenPart(n: nat, k: nat): nat {
    n / (k + 1)
  }

  function LeftOver(n: nat, k: nat): nat {
    n % (k + 1)
  }

  /** Old groups above `h` that have more than `m` shards. */
  function RicherAbove(shards: seq<int>, gs: set<int>, h: int, m: nat): set<int> {
    set x | x in gs && x > h && Load(shards, x) > m
  }

  /** What group `h` keeps when one group joins the groups `gs`: the rounded-down share, and one more
      if it had more and is among the last that did, as many as the division leaves over. */
  ghost function Keeps(shards: seq<int>, gs: set<int>, h: int): nat {
    var m, rest := EvenPart(|shards|, |gs|), LeftOver(|shards|, |gs|);
    if Load(shards, h) > m && |RicherAbove(shards, gs, h, m)| < rest then m + 1 else m
  }

  lemma RicherSplit(r: seq<int>, gs: set<int>, m: nat, g: int)
    requires g in gs
    ensures |RicherAmong(r, gs, m)| == |RicherAmong(r, gs - {g}, m)| + if Load(r, g) > m then 1 else 0
  {
    var less := RicherAmong(r, gs - {g}, m);
    if Load(r, g) > m {
      assert RicherAmong(r, gs, m) == less + {g};
    } else {
      assert RicherAmong(r, gs, m) == less;
    }
  }

  lemma {:induction false} TwoLevels(r: seq<int>, gs: set<int>, m: nat)
    requires forall h :: h in gs ==> m <= Load(r, h) <= m + 1
    ensures Total(r, gs) == m * |gs| + |RicherAmong(r, gs, m)|
    decreases gs
  {
    if gs == {} {
      assert RicherAmong(r, gs, m) == {};
    } else {
      var g := Pick(gs);
      var k := |gs - {g}|;
      TotalSplit(r, gs, g);
      TwoLevels(r, gs - {g}, m);
      RicherSplit(r, gs, m, g);
      OneMore(m, k);
      assert |gs| == k + 1;
      assert m <= Load(r, g) <= m + 1;
    }
  }

  function RicherAmong(r: seq<int>, gs: set<int>, m: nat): set<int> {
    set x | x in gs && Load(r, x) > m
  }

  lemma JoinedLevels(r: seq<int>, gs: set<int>, g: int)
    requires Serving(r, gs, g) && Balanced(r, gs + {g})
    ensures var m := EvenPart(|r|, |gs|);
            && (forall h :: h in gs ==> m <= Load(r, h) <= m + 1)
            && |RicherAmong(r, gs, m)| == LeftOver(|r|, |gs|)
  {
    var m := EvenPart(|r|, |gs|);
    FairShare(r, gs, g);
    forall h | h in gs ensures m <= Load(r, h) <= m + 1 { assert h in gs + {g} && g in gs + {g}; }
    TotalIsAll(r, gs + {g});
    TotalSplit(r, gs + {g}, g);
    assert gs + {g} - {g} == gs;
    TwoLevels(r, gs, m);
    Remainder(|r|, |gs|, m, |RicherAmong(r, gs, m)|);
  }

  lemma JoinIsFair(shards: seq<int>, gs: set<int>, g: int)
    requires gs != {} && g !in gs && Owned(shards, gs) && Balanced(shards, gs)
    ensures Fair(shards, Rebalanced(shards, gs + {g}), gs + {g})
  {
    NewcomerIsServed(shards, gs, g);
    StartsFair(shards, gs + {g});
    LevelledIsFair(shards, shards, gs + {g});
  }

  /** After a join no old group has received a shard. */
  lemma OnlyNewcomerReceives(shards: seq<int>, gs: set<int>, g: int, h: int)
    requires gs != {} && g !in gs && Owned(shards, gs) && Balanced(shards, gs) && h in gs
    ensures var r := Rebalanced(shards, gs + {g}); |r| == |shards| && !Received(shards, r, h)
  {
    NewcomerIsServed(shards, gs, g);
    ServingEnds(shards, gs, g);
  }

  /** After a join the old groups are on two levels. */
  lemma AfterJoin(shards: seq<int>, gs: set<int>, g: int)
    requires gs != {} && g !in gs && Owned(shards, gs) && Balanced(shards, gs)
    ensures var r, m := Rebalanced(shards, gs + {g}), EvenPart(|shards|, |gs|);
            && |r| == |shards| && (forall h :: h in gs ==> m <= Load(r, h) <= m + 1)
            && |RicherAmong(r, gs, m)| == LeftOver(|shards|, |gs|)
  {
    NewcomerIsServed(shards, gs, g);
    ServingEnds(shards, gs, g);
    LevelledIsBalanced(shards, gs + {g});
    JoinedLevels(Levelled(shards, gs + {g}), gs, g);
  }

  lemma StartsFair(shards: seq<int>, gs: set<int>)
    requires Owned(shards, gs)
    ensures Fair(shards, shards, gs)
  {
  }

  lemma Remainder(n: nat, k: nat, m: nat, x: nat)
    requires n == m * k + x + m && m == EvenPart(n, k)
    ensures x == LeftOver(n, k)
  {
    OneMore(m, k);
    assert n == (k + 1) * (n / (k + 1)) + n % (k + 1);
  }

  /** Every old group keeps what the rule says. */
  lemma JoinKeeps(shards: seq<int>, gs: set<int>, g: int, h: int)
    requires gs != {} && g !in gs && Owned(shards, gs) && Balanced(shards, gs) && h in gs
    ensures Load(Rebalanced(shards, gs + {g}), h) == Keeps(shards, gs, h)
  {
    var r, m := Rebalanced(shards, gs + {g}), EvenPart(|shards|, |gs|);
    AfterJoin(shards, gs, g);
    JoinIsFair(shards, gs, g);
    forall x | x in gs ensures !Received(shards, r, x) { OnlyNewcomerReceives(shards, gs, g, x); }
    KeepsByOrder(shards, r, gs, g, h, m);
  }

  lemma KeepsByOrder(s: seq<int>, r: seq<int>, gs: set<int>, g: int, h: int, m: nat)
    requires Fair(s, r, gs + {g}) && h in gs && forall x :: x in gs ==> !Received(s, r, x) && m <= Load(r, x) <= m + 1
    ensures Load(r, h) > m <==> Load(s, h) > m && |RicherAbove(s, gs, h, m)| < |RicherAmong(r, gs, m)|
  {
    var rich, above := RicherAmong(r, gs, m), RicherAbove(s, gs, h, m);
    GivenUpCount(s, r, h);
    if Load(r, h) > m {
      forall x | x in above ensures x in rich - {h} { StaysRich(s, r, gs + {g}, h, x, m); }
      SubsetSize(above, rich - {h});
    } else if Load(s, h) > m {
      forall x | x in rich ensures x in above {
        GivenUpCount(s, r, x);
        if x < h { StaysRich(s, r, gs + {g}, x, h, m); }
      }
      SubsetSize(rich, above);
    }
  }

  /** A group that gave down to `m` has no richer group below it. */
  lemma StaysRich(s: seq<int>, r: seq<int>, gs: set<int>, h: int, x: int, m: nat)
    requires Fair(s, r, gs) && h in gs && x in gs && h < x && Load(r, h) > m && Load(s, x) > m
    requires !Received(s, r, x)
    ensures Load(r, x) > m
  {
    GivenUpCount(s, r, x);
    if Load(r, x) <= m {
      var i := Pick(GivenUp(s, r, x));
      assert Gave(s, r, x);
    }
  }

  /** The result of a join in closed form: shard `i` goes to the newcomer exactly when fewer shards
      of its owner come before it than the owner has above what it keeps, and stays otherwise. */
  lemma JoinIsExact(shards: seq<int>, gs: set<int>, g: int, i: nat)
    requires gs != {} && g !in gs && Owned(shards, gs) && Balanced(shards, gs) && i < |shards|
    ensures var r, h := Rebalanced(shards, gs + {g}), shards[i];
            && |r| == |shards|
            && r[i] == if Load(shards[..i], h) < Load(shards, h) - Keeps(shards, gs, h) then g else h
  {
    var r := Rebalanced(shards, gs + {g});
    JoinIsFair(shards, gs, g);
    JoinMovesLeast(shards, gs, g);
    OnlyNewcomerReceives(shards, gs, g, shards[i]);
    JoinKeeps(shards, gs, g, shards[i]);
    MovesByRank(shards, r, i);
  }

  /** When groups leave an even, full assignment, the leavers' shards go in turn to the group that is
      then least loaded, the others stay, and the rule leaves no choice. */
  lemma LeaveIsExact(shards: seq<int>, gs: set<int>, leavers: set<int>, r: seq<int>)
    requires Owned(shards, gs) && Balanced(shards, gs) && gs - leavers != {}
    ensures Greedy(shards, gs - leavers, r) <==> r == Rebalanced(shards, gs - leavers)
  {
    var left := gs - leavers;
    var t := Rebalanced(shards, left);
    LeaveMovesLeast(shards, gs, leavers);
    forall i | 0 <= i < |shards| ensures GreedyAt(shards, left, t, i) { AssignedIsGreedy(shards, left, |shards|, i); }
    if Greedy(shards, left, r) {
      GreedyIsUnique(shards, left, r, t, |shards|);
      assert r[..|shards|] == r && t[..|shards|] == t;
    }
  }
}
