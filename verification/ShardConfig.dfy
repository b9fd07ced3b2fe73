/** The shard configuration object: balancing in place, joins, leaves and the test's check. */
module ShardConfig {
  import opened Sets
  import opened ShardBalance
  import M = ShardMoves

  datatype Config = Config(num: nat, shards: seq<int>, groups: map<int, seq<string>>)

  /** What Join and Leave do besides returning: the source exits the process on misuse. */
  datatype Outcome = Done(ok: bool) | Fatal

  predicate Share(ss: seq<string>, ts: seq<string>) {
    exists i, j :: 0 <= i < |ss| && 0 <= j < |ts| && ss[i] == ts[j]
  }

  lemma ShareSymmetric(ss: seq<string>, ts: seq<string>)
    ensures Share(ss, ts) <==> Share(ts, ss)
  {
  }

  /** The groups `gs` of `servers` are new, and with them no server is in two groups. */
  ghost predicate Fit(groups: map<int, seq<string>>, servers: map<int, seq<string>>, gs: set<int>)
    requires gs <= servers.Keys
  {
    && gs !! groups.Keys
    && (forall g, h :: g in gs && h in groups ==> !Share(groups[h], servers[g]))
    && (forall g, h :: g in gs && h in gs && g != h ==> !Share(servers[h], servers[g]))
  }

  /** Some new group, no gid joins twice, and no server is in two groups afterwards. */
  ghost predicate CanJoin(groups: map<int, seq<string>>, servers: map<int, seq<string>>) {
    servers.Keys != {} && Fit(groups, servers, servers.Keys)
  }

  /** Some group leaves, all of them present, none twice. */
  ghost predicate CanLeave(groups: map<int, seq<string>>, gids: seq<int>) {
    && gids != []
    && (forall i :: 0 <= i < |gids| ==> gids[i] in groups)
    && (forall i, j :: 0 <= i < j < |gids| ==> gids[i] != gids[j])
  }

  /** No server is in two groups. */
  ghost predicate Separate(groups: map<int, seq<string>>) {
    forall g, h :: g in groups && h in groups && g != h ==> !Share(groups[g], groups[h])
  }

  /** The entries of a map under some of its keys. */
  function Only(servers: map<int, seq<string>>, gs: set<int>): map<int, seq<string>> {
    servers - (servers.Keys - gs)
  }

  function Gids(gids: seq<int>): set<int> {
    set g | g in gids
  }

  ghost function JoinBalanced(c: Config, servers: map<int, seq<string>>): Config {
    var groups := c.groups + servers;
    Config(c.num + 1, Rebalanced(c.shards, groups.Keys), groups)
  }

  ghost function LeaveBalanced(c: Config, gids: seq<int>): Config {
    var groups := c.groups - Gids(gids);
    Config(c.num + 1, Rebalanced(c.shards, groups.Keys), groups)
  }

  /** The conditions of the test's check against the expected groups. */
  ghost predicate Passes(c: Config, expected: seq<int>) {
    && |c.groups| == |expected|
    && (forall i :: 0 <= i < |expected| ==> expected[i] in c.groups)
    && (|expected| > 0 ==> Owned(c.shards, c.groups.Keys))
    && Balanced(c.shards, c.groups.Keys)
  }

  // ---------------------------------------------------------------- runs of configurations

  datatype Step = Join(servers: map<int, seq<string>>) | Leave(gids: seq<int>)

  ghost predicate Legal(c: Config, s: Step) {
    match s
    case Join(servers) => CanJoin(c.groups, servers)
    case Leave(gids) => CanLeave(c.groups, gids)
  }

  ghost function Apply(c: Config, s: Step): Config {
    match s
    case Join(servers) => JoinBalanced(c, servers)
    case Leave(gids) => LeaveBalanced(c, gids)
  }

  ghost function After(n: nat, steps: seq<Step>): Config {
    if steps == [] then Config(0, seq(n, _ => 0), map[]) else Apply(After(n, steps[..|steps| - 1]), steps[|steps| - 1])
  }

  ghost predicate LegalSteps(n: nat, steps: seq<Step>) {
    steps == [] || (LegalSteps(n, steps[..|steps| - 1]) && Legal(After(n, steps[..|steps| - 1]), steps[|steps| - 1]))
  }

  /** A configuration is even: with groups, every shard is owned and loads differ by at most one;
      without groups, no shard is assigned. */
  ghost predicate Even(c: Config) {
    if c.groups.Keys == {} then forall i :: 0 <= i < |c.shards| ==> c.shards[i] == 0
    else Owned(c.shards, c.groups.Keys) && Balanced(c.shards, c.groups.Keys)
  }

  lemma EvenStep(c: Config, s: Step)
    ensures var d := Apply(c, s); Even(d) && d.num == c.num + 1 && |d.shards| == |c.shards|
  {
    var d := Apply(c, s);
    if d.groups.Keys != {} { RebalancedIsBalanced(c.shards, d.groups.Keys); }
  }

  lemma {:induction false} EvenAfter(n: nat, steps: seq<Step>)
    ensures var c := After(n, steps); Even(c) && c.num == |steps| && |c.shards| == n
  {
    if steps != [] {
      EvenAfter(n, steps[..|steps| - 1]);
      EvenStep(After(n, steps[..|steps| - 1]), steps[|steps| - 1]);
    }
  }

  lemma SeparateStep(c: Config, s: Step)
    requires Separate(c.groups) && Legal(c, s)
    ensures Separate(Apply(c, s).groups)
  {
    var d := Apply(c, s);
    if s.Join? {
      forall g, h | g in d.groups && h in d.groups && g != h ensures !Share(d.groups[g], d.groups[h]) {
        ShareSymmetric(d.groups[g], d.groups[h]);
      }
    }
  }

  lemma {:induction false} SeparateAfter(n: nat, steps: seq<Step>)
    requires LegalSteps(n, steps)
    ensures Separate(After(n, steps).groups)
  {
    if steps != [] {
      SeparateAfter(n, steps[..|steps| - 1]);
      SeparateStep(After(n, steps[..|steps| - 1]), steps[|steps| - 1]);
    }
  }

  /** Every configuration reached by successful joins and leaves numbers its steps, has no server
      in two groups, and passes the check exactly for listings of its groups; without groups no
      shard is assigned. */
  lemma {:induction false} ConfigurationRuns(n: nat, steps: seq<Step>, expected: seq<int>)
    requires LegalSteps(n, steps)
    ensures var c := After(n, steps);
            && c.num == |steps| && |c.shards| == n && Separate(c.groups)
            && (Passes(c, expected) <==> |expected| == |c.groups| && forall i :: 0 <= i < |expected| ==> expected[i] in c.groups)
            && (c.groups.Keys == {} ==> forall i :: 0 <= i < n ==> c.shards[i] == 0)
  {
    EvenAfter(n, steps);
    SeparateAfter(n, steps);
    PassesWhenEven(After(n, steps), expected);
  }

  lemma PassesWhenEven(c: Config, expected: seq<int>)
    requires Even(c)
    ensures Passes(c, expected) <==> |expected| == |c.groups| && forall i :: 0 <= i < |expected| ==> expected[i] in c.groups
  {
    if |expected| > 0 && expected[0] in c.groups { assert c.groups.Keys != {}; }
  }

  /** One group joining an even configuration moves only onto itself, its rounded-down share. */
  lemma {:induction false} JoinConfigMovesLeast(c: Config, gid: int, servers: seq<string>)
    requires c.groups.Keys != {} && Owned(c.shards, c.groups.Keys) && Balanced(c.shards, c.groups.Keys)
    requires gid !in c.groups
    ensures var d := JoinBalanced(c, map[gid := servers]);
            && |d.shards| == |c.shards|
            && (forall i :: 0 <= i < |c.shards| && d.shards[i] != c.shards[i] ==> d.shards[i] == gid)
            && |Changed(c.shards, d.shards)| == |c.shards| / (|c.groups| + 1)
  {
    var gs := c.groups.Keys;
    var d := JoinBalanced(c, map[gid := servers]);
    assert d.groups.Keys == gs + {gid};
    assert |c.groups| == |gs|;
    JoinMovesLeast(c.shards, gs, gid);
  }

  lemma {:induction false} JoinRunMovesLeast(n: nat, steps: seq<Step>, gid: int, servers: seq<string>)
    requires LegalSteps(n, steps) && After(n, steps).groups.Keys != {}
    requires Legal(After(n, steps), Join(map[gid := servers]))
    ensures var c, d := After(n, steps), Apply(After(n, steps), Join(map[gid := servers]));
            && |d.shards| == |c.shards| == n
            && (forall i :: 0 <= i < n && d.shards[i] != c.shards[i] ==> d.shards[i] == gid)
            && |Changed(c.shards, d.shards)| == |c.shards| / (|c.groups| + 1)
  {
    EvenAfter(n, steps);
    JoinConfigMovesLeast(After(n, steps), gid, servers);
  }

  /** The configuration after a join, shard by shard: the newcomer gets the lowest-numbered shards
      of each old group, as many as the group has above what it keeps. */
  lemma {:induction false} JoinRunIsExact(n: nat, steps: seq<Step>, gid: int, servers: seq<string>, i: nat)
    requires LegalSteps(n, steps) && After(n, steps).groups.Keys != {} && i < n
    requires Legal(After(n, steps), Join(map[gid := servers]))
    ensures var c, d := After(n, steps), Apply(After(n, steps), Join(map[gid := servers]));
            && |d.shards| == |c.shards| == n
            && var h := c.shards[i];
               d.shards[i] == if Load(c.shards[..i], h) < Load(c.shards, h) - M.Keeps(c.shards, c.groups.Keys, h) then gid else h
  {
    var c := After(n, steps);
    EvenAfter(n, steps);
    assert (c.groups + map[gid := servers]).Keys == c.groups.Keys + {gid};
    M.JoinIsExact(c.shards, c.groups.Keys, gid, i);
  }

  /** The configuration after groups left: their shards go in turn to the group then least loaded. */
  lemma {:induction false} LeaveRunIsExact(n: nat, steps: seq<Step>, gids: seq<int>, r: seq<int>)
    requires LegalSteps(n, steps) && Legal(After(n, steps), Leave(gids))
    requires After(n, steps).groups.Keys - Gids(gids) != {}
    ensures var c, d := After(n, steps), Apply(After(n, steps), Leave(gids));
            M.Greedy(c.shards, d.groups.Keys, r) <==> r == d.shards
  {
    var c := After(n, steps);
    EvenAfter(n, steps);
    assert Apply(c, Leave(gids)).groups.Keys == c.groups.Keys - Gids(gids);
    M.LeaveIsExact(c.shards, c.groups.Keys, Gids(gids), r);
  }

  /** Groups leaving a reached configuration give away exactly their own shards. */
  lemma {:induction false} LeaveRunMovesLeast(n: nat, steps: seq<Step>, gids: seq<int>)
    requires LegalSteps(n, steps) && Legal(After(n, steps), Leave(gids))
    requires After(n, steps).groups.Keys - Gids(gids) != {}
    ensures var c, d := After(n, steps), Apply(After(n, steps), Leave(gids));
            && |d.shards| == |c.shards| == n
            && (forall i :: 0 <= i < n ==> (d.shards[i] != c.shards[i] <==> c.shards[i] in gids))
  {
    var c := After(n, steps);
    EvenAfter(n, steps);
    LeaveMovesLeast(c.shards, c.groups.Keys, Gids(gids));
    assert Apply(c, Leave(gids)).groups.Keys == c.groups.Keys - Gids(gids);
  }

  // ---------------------------------------------------------------- the object

  lemma {:induction false} LoadBound(shards: seq<int>, g: int)
    ensures Load(shards, g) <= |shards|
    decreases |shards|
  {
    if shards != [] {
      assert shards == shards[..|shards| - 1] + [shards[|shards| - 1]];
      LoadBound(shards[..|shards| - 1], g);
    }
  }

  lemma LoadMore(shards: seq<int>, x: int, g: int)
    ensures Load(shards + [x], g) == Load(shards, g) + if x == g then 1 else 0
  {
  }

  function CountOf(counts: map<int, nat>, g: int): nat {
    if g in counts then counts[g] else 0
  }

  ghost predicate Ascending(order: seq<int>) {
    forall i, j :: 0 <= i < j < |order| ==> order[i] < order[j]
  }

  function Insert(order: seq<int>, g: int): (r: seq<int>)
    requires Ascending(order) && g !in order
    ensures Ascending(r) && Gids(r) == Gids(order) + {g}
  {
    if order == [] || g < order[0] then
      var r := [g] + order;
      assert forall x :: x in r <==> x == g || x in order;
      r
    else
      var t := Insert(order[1..], g);
      var r := [order[0]] + t;
      assert order == [order[0]] + order[1..];
      assert forall x :: x in t <==> x in Gids(t);
      assert forall x :: x in order[1..] <==> x in Gids(order[1..]);
      assert forall x :: x in r <==> x == order[0] || x in t;
      assert forall k :: 0 <= k < |t| ==> order[0] < t[k] by {
        forall k | 0 <= k < |t| ensures order[0] < t[k] { assert t[k] in Gids(t); }
      }
      r
  }

  /** The group ids in order, gathered in any iteration order of the map. */
  method SortedGids(groups: map<int, seq<string>>) returns (order: seq<int>)
    ensures Ascending(order) && Gids(order) == groups.Keys
    ensures order == [] <==> groups.Keys == {}
  {
    order := [];
    var todo := groups.Keys;
    while todo != {}
      invariant todo <= groups.Keys
      invariant Ascending(order) && Gids(order) == groups.Keys - todo
      invariant order == [] <==> groups.Keys - todo == {}
    {
      var g := AnyOf(todo);
      assert g !in Gids(order);
      order := Insert(order, g);
      todo := todo - {g};
    }
  }

  /** One step of the scan: a later gid wins only with a strictly smaller (larger) load. */
  lemma ScanStep(shards: seq<int>, gs: set<int>, g: int, mg: int, lg: int)
    requires IsMost(shards, gs, mg) && IsLeast(shards, gs, lg) && forall h :: h in gs ==> h < g
    ensures IsMost(shards, gs + {g}, if Load(shards, g) > Load(shards, mg) then g else mg)
    ensures IsLeast(shards, gs + {g}, if Load(shards, g) < Load(shards, lg) then g else lg)
  {
  }

  /** One more group joins: it fits exactly when it is new and meets no server already in use. */
  lemma JoinOne(groups: map<int, seq<string>>, servers: map<int, seq<string>>, done: set<int>, g: int)
    requires done <= servers.Keys && g in servers && g !in done && Fit(groups, servers, done)
    ensures var now := groups + Only(servers, done);
            && (Fit(groups, servers, done + {g}) <==> g !in now && forall h :: h in now ==> !Share(now[h], servers[g]))
            && now[g := servers[g]] == groups + Only(servers, done + {g})
            && (g in now ==> g in groups)
  {
    var now := groups + Only(servers, done);
    forall h | h in done ensures h in now && now[h] == servers[h] { }
    forall h | h in groups && h !in done ensures h in now && now[h] == groups[h] { }
    forall h | h in done ensures Share(servers[h], servers[g]) <==> Share(servers[g], servers[h]) {
      ShareSymmetric(servers[g], servers[h]);
    }
  }

  class ShardConfig {
    var num: nat
    const shards: array<int>
    var groups: map<int, seq<string>>

    ghost function View(): Config
      reads this, shards
    {
      Config(num, shards[..], groups)
    }

    constructor (n: nat)
      requires n < SENTINEL
      ensures fresh(shards) && shards.Length == n && View() == After(n, [])
    {
      num, groups := 0, map[];
      shards := new int[n](_ => 0);
    }

    /** How many shards each group id owns. */
    method Counts() returns (counts: map<int, nat>)
      ensures forall g :: CountOf(counts, g) == Load(shards[..], g)
    {
      counts := map[];
      for i := 0 to shards.Length
        invariant forall g :: CountOf(counts, g) == Load(shards[..i], g)
      {
        assert shards[..i + 1] == shards[..i] + [shards[i]];
        ghost var before := counts;
        counts := counts[shards[i] := CountOf(counts, shards[i]) + 1];
        forall g ensures CountOf(counts, g) == Load(shards[..i + 1], g) {
          assert CountOf(before, g) == Load(shards[..i], g);
          LoadMore(shards[..i], shards[i], g);
        }
      }
      assert shards[..shards.Length] == shards[..];
    }

    /** Most and least loaded group and their loads; the sentinels when there is no group. */
    method Analyze() returns (mg: int, mn: int, lg: int, ln: int)
      requires shards.Length < SENTINEL
      ensures groups.Keys == {} ==> (mg, mn, lg, ln) == (-1, -1, -1, SENTINEL)
      ensures groups.Keys != {} ==>
                && mg == Most(shards[..], groups.Keys) && mn == Load(shards[..], mg)
                && lg == Least(shards[..], groups.Keys) && ln == Load(shards[..], lg)
    {
      var counts := Counts();
      mg, mn, lg, ln := -1, -1, -1, SENTINEL;
      var order := SortedGids(groups);
      for i := 0 to |order|
        invariant i == 0 ==> (mg, mn, lg, ln) == (-1, -1, -1, SENTINEL)
        invariant i > 0 ==> IsMost(shards[..], Gids(order[..i]), mg) && mn == Load(shards[..], mg)
        invariant i > 0 ==> IsLeast(shards[..], Gids(order[..i]), lg) && ln == Load(shards[..], lg)
      {
        var g := order[i];
        LoadBound(shards[..], g);
        ghost var gs := Gids(order[..i]);
        assert order[..i + 1] == order[..i] + [g];
        assert Gids(order[..i + 1]) == gs + {g};
        if i > 0 { ScanStep(shards[..], gs, g, mg, lg); }
        if CountOf(counts, g) < ln {
          ln, lg := CountOf(counts, g), g;
        }
        if CountOf(counts, g) > mn {
          mn, mg := CountOf(counts, g), g;
        }
      }
      assert order[..|order|] == order;
      if groups.Keys != {} {
        ChoiceIsUnique(shards[..], groups.Keys, mg);
        ChoiceIsUnique(shards[..], groups.Keys, lg);
      }
    }

    /** Balances in place. */
    method Rebalance()
      requires shards.Length < SENTINEL
      modifies shards
      ensures shards[..] == Rebalanced(old(shards[..]), groups.Keys)
    {
      if |groups| < 1 {
        for i := 0 to shards.Length
          invariant forall j :: 0 <= j < i ==> shards[j] == 0
        {
          shards[i] := 0;
        }
        return;
      }
      AssignOrphans();
      MoveToLeast();
    }

    /** The first loop of Rebalance. */
    method AssignOrphans()
      requires shards.Length < SENTINEL && groups.Keys != {}
      modifies shards
      ensures shards[..] == Assigned(old(shards[..]), groups.Keys, shards.Length)
    {
      for i := 0 to shards.Length
        invariant shards[..] == Assigned(old(shards[..]), groups.Keys, i)
      {
        ghost var before := shards[..];
        if shards[i] !in groups {
          var _, _, lg, _ := Analyze();
          shards[i] := lg;
          assert shards[..] == before[i := lg];
        }
      }
    }

    /** The second loop of Rebalance. */
    method MoveToLeast()
      requires shards.Length < SENTINEL && groups.Keys != {}
      modifies shards
      ensures shards[..] == Levelled(old(shards[..]), groups.Keys)
    {
      while true
        invariant Levelled(shards[..], groups.Keys) == Levelled(old(shards[..]), groups.Keys)
        decreases SumSquares(shards[..], groups.Keys)
      {
        ghost var before := shards[..];
        var mg, mn, lg, ln := Analyze();
        if mn < ln + 2 {
          break;
        }
        MoveLowersSquares(before, groups.Keys);
        ghost var first := FirstOf(before, mg);
        var i := 0;
        while shards[i] != mg
          invariant i <= first && shards[..] == before
          decreases first - i
        {
          assert i < first;
          i := i + 1;
        }
        assert i == first;
        shards[i] := lg;
        assert shards[..] == Moved(before, groups.Keys);
      }
    }

    /** Whether the servers `ss` meet those of a present group. */
    method Clashes(ss: seq<string>) returns (clash: bool)
      ensures clash <==> exists h :: h in groups && Share(groups[h], ss)
    {
      var todo := groups.Keys;
      while todo != {}
        invariant todo <= groups.Keys
        invariant forall h :: h in groups.Keys - todo ==> !Share(groups[h], ss)
      {
        var h := AnyOf(todo);
        for i := 0 to |groups[h]|
          invariant forall k, l :: 0 <= k < i && 0 <= l < |ss| ==> groups[h][k] != ss[l]
        {
          for j := 0 to |ss|
            invariant forall l :: 0 <= l < j ==> groups[h][i] != ss[l]
          {
            if groups[h][i] == ss[j] {
              assert Share(groups[h], ss);
              return true;
            }
          }
        }
        todo := todo - {h};
      }
      return false;
    }

    /** Succeeds exactly when the groups can join, whatever order the map is visited in. The groups
        `done` joined before the call ended: all of them, or those visited before one that is
        present already or has a server in use. */
    method Join(servers: map<int, seq<string>>) returns (r: Outcome, ghost done: set<int>)
      modifies this`groups, this`num
      ensures r == Done(true) <==> CanJoin(old(groups), servers)
      ensures r == Done(true) ==> done == servers.Keys && groups == old(groups) + servers && num == old(num) + 1
      ensures r != Done(true) ==> num == old(num)
      ensures done <= servers.Keys && done !! old(groups).Keys && groups == old(groups) + Only(servers, done)
      ensures r == Done(false) ==> exists g :: g in servers.Keys - done && g in old(groups)
      ensures r == Fatal ==>
                servers.Keys == {} || exists g, h :: g in servers.Keys - done && h in groups && Share(groups[h], servers[g])
    {
      done := {};
      var todo := servers.Keys;
      var changed := false;
      while todo != {}
        invariant todo <= servers.Keys && done == servers.Keys - todo && (changed <==> done != {})
        invariant Fit(old(groups), servers, done) && groups == old(groups) + Only(servers, done)
        invariant num == old(num)
      {
        var g := AnyOf(todo);
        JoinOne(old(groups), servers, done, g);
        if g in groups {
          return Done(false), done;
        }
        var clash := Clashes(servers[g]);
        if clash {
          return Fatal, done;
        }
        groups := groups[g := servers[g]];
        todo, done := todo - {g}, done + {g};
        changed := true;
      }
      if !changed {
        return Fatal, done;
      }
      num := num + 1;
      return Done(true), done;
    }

    /** Succeeds exactly when the groups can leave. The first `left` of them left before the call
        ended: all of them, or those before one that was not there or had left already. */
    method Leave(gids: seq<int>) returns (r: Outcome, ghost left: nat)
      modifies this`groups, this`num
      ensures r == Done(true) <==> CanLeave(old(groups), gids)
      ensures r == Done(true) ==> left == |gids| && groups == old(groups) - Gids(gids) && num == old(num) + 1
      ensures r != Done(true) ==> num == old(num)
      ensures left <= |gids| && groups == old(groups) - Gids(gids[..left])
      ensures left > 0 ==> CanLeave(old(groups), gids[..left])
      ensures r == Done(false) ==> left < |gids| && (gids[left] !in old(groups) || gids[left] in gids[..left])
      ensures r == Fatal <==> gids == []
    {
      left := 0;
      var changed := false;
      for i := 0 to |gids|
        invariant (changed <==> i > 0) && left == i
        invariant groups == old(groups) - Gids(gids[..i]) && num == old(num)
        invariant forall k :: 0 <= k < i ==> gids[k] in old(groups)
        invariant forall k, l :: 0 <= k < l < i ==> gids[k] != gids[l]
      {
        assert gids[..i + 1] == gids[..i] + [gids[i]];
        if gids[i] !in groups {
          assert gids[i] !in old(groups) || gids[i] in gids[..i];
          return Done(false), left;
        }
        groups := groups - {gids[i]};
        changed, left := true, left + 1;
      }
      assert gids[..|gids|] == gids;
      if !changed {
        return Fatal, left;
      }
      num := num + 1;
      return Done(true), left;
    }

    method JoinBalance(servers: map<int, seq<string>>) returns (r: Outcome, ghost done: set<int>)
      requires shards.Length < SENTINEL
      modifies this`groups, this`num, shards
      ensures r == Done(true) <==> CanJoin(old(groups), servers)
      ensures r == Done(true) ==> View() == JoinBalanced(old(View()), servers)
      ensures r != Done(true) ==> num == old(num) && shards[..] == old(shards[..])
      ensures done <= servers.Keys && done !! old(groups).Keys && groups == old(groups) + Only(servers, done)
      ensures r == Done(false) ==> exists g :: g in servers.Keys - done && g in old(groups)
    {
      r, done := Join(servers);
      if r == Done(true) {
        Rebalance();
      }
    }

    method LeaveBalance(gids: seq<int>) returns (r: Outcome, ghost left: nat)
      requires shards.Length < SENTINEL
      modifies this`groups, this`num, shards
      ensures r == Done(true) <==> CanLeave(old(groups), gids)
      ensures r == Done(true) ==> View() == LeaveBalanced(old(View()), gids)
      ensures r != Done(true) ==> num == old(num) && shards[..] == old(shards[..])
      ensures left <= |gids| && groups == old(groups) - Gids(gids[..left])
      ensures r == Done(false) ==> left < |gids| && (gids[left] !in old(groups) || gids[left] in gids[..left])
    {
      r, left := Leave(gids);
      if r == Done(true) {
        Rebalance();
      }
    }

    /** The test's check; false stands for a failed test. */
    method CheckConfig(expected: seq<int>) returns (ok: bool)
      requires shards.Length < SENTINEL
      ensures ok <==> Passes(View(), expected)
    {
      if |groups| != |expected| {
        return false;
      }
      for i := 0 to |expected|
        invariant forall k :: 0 <= k < i ==> expected[k] in groups
      {
        if expected[i] !in groups {
          return false;
        }
      }
      if |expected| > 0 {
        for i := 0 to shards.Length
          invariant forall k :: 0 <= k < i ==> shards[k] in groups
        {
          if shards[i] !in groups {
            assert shards[..][i] !in groups.Keys;
            return false;
          }
        }
      }
      ok := CheckEven();
    }

    method CheckEven() returns (ok: bool)
      requires shards.Length < SENTINEL
      ensures ok <==> Balanced(shards[..], groups.Keys)
    {
      var counts := Counts();
      var min, max := SENTINEL, 0;
      var todo := groups.Keys;
      ghost var maxg, ming := 0, 0;
      while todo != {}
        invariant todo <= groups.Keys
        invariant forall g :: g in groups.Keys - todo ==> min <= Load(shards[..], g) <= max
        invariant max == 0 || (maxg in groups.Keys && Load(shards[..], maxg) == max)
        invariant min == SENTINEL || (ming in groups.Keys && Load(shards[..], ming) == min)
      {
        var g := AnyOf(todo);
        assert CountOf(counts, g) == Load(shards[..], g);
        if CountOf(counts, g) > max {
          max, maxg := CountOf(counts, g), g;
        }
        if CountOf(counts, g) < min {
          min, ming := CountOf(counts, g), g;
        }
        todo := todo - {g};
      }
      ok := max <= min + 1;
    }
  }
}
