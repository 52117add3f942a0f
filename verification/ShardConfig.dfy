/** The shard configuration: joining, leaving and rebalancing in place, and what every
    sequence of successful changes keeps. */
module ShardConfig {
  import opened Basics
  import opened ShardSpec

  type Groups = map<int, seq<string>>

  /** A call either changes the configuration, is refused, or ends the process. */
  datatype Outcome = Changed | Refused | Fatal

  /** Whether two lists of servers have one in common. */
  predicate Overlap(a: seq<string>, b: seq<string>)
    ensures Overlap(a, b) <==> exists server :: server in a && server in b
  {
    exists i :: 0 <= i < |a| && a[i] in b
  }

  /** Whether some group already runs one of these servers. */
  predicate Shares(groups: Groups, servers: seq<string>) {
    exists x :: x in groups && Overlap(groups[x], servers)
  }

  /** No server is in two groups. */
  ghost predicate Disjoint(groups: Groups) {
    forall g, h :: g in groups && h in groups && g != h ==> !Overlap(groups[g], groups[h])
  }

  /** The groups to add are new, and no server would be in two groups. */
  ghost predicate CanJoin(groups: Groups, servers: Groups) {
    && servers != map[] && groups.Keys !! servers.Keys
    && (forall g, h :: g in servers && h in groups ==> !Overlap(groups[h], servers[g]))
    && (forall g, h :: g in servers && h in servers && g != h ==> !Overlap(servers[h], servers[g]))
  }

  ghost predicate CanLeave(groups: Groups, gids: seq<int>) {
    && gids != [] && (forall i :: 0 <= i < |gids| ==> gids[i] in groups)
    && (forall i, j :: 0 <= i < j < |gids| ==> gids[i] != gids[j])
  }

  lemma OverlapSymmetric()
    ensures forall a, b :: Overlap(a, b) ==> Overlap(b, a)
  {
    forall a: seq<string>, b | Overlap(a, b) ensures Overlap(b, a) {
      var i :| 0 <= i < |a| && a[i] in b;
      var j :| 0 <= j < |b| && b[j] == a[i];
    }
  }

  /** The groups after some of a refused call's groups have been added. */
  ghost predicate PartlyJoined(before: Groups, servers: Groups, after: Groups) {
    && before.Keys <= after.Keys <= before.Keys + servers.Keys
    && forall g :: g in after ==> after[g] == if g in before then before[g] else servers[g]
  }

  function Without(groups: Groups, gids: seq<int>): Groups {
    groups - (set g | g in gids)
  }

  /** The groups after a refused call has removed those before the first that is missing. */
  ghost predicate PartlyLeft(before: Groups, gids: seq<int>, after: Groups) {
    exists k :: 0 <= k <= |gids| && after == Without(before, gids[..k]) && (k < |gids| ==> gids[k] !in after)
  }

  lemma NonEmpty<T>(s: set<T>)
    requires s != {}
    ensures exists x :: x in s
  {
  }

  class Configuration {
    var num: nat
    const shards: array<int>
    var groups: Groups

    /** The scan for the least loaded group starts from 257 shards. */
    ghost predicate Valid() {
      1 <= shards.Length <= 256
    }

    ghost function Gids(): seq<int>
      reads this
    {
      Order(groups.Keys)
    }

    constructor (n: nat)
      requires 1 <= n <= 256
      ensures Valid() && shards.Length == n && fresh(shards)
      ensures num == 0 && groups == map[] && shards[..] == seq(n, _ => 0)
    {
      shards := new int[n](_ => 0);
      num, groups := 0, map[];
    }

    /** The group ids in increasing order. */
    method SortedGids() returns (gs: seq<int>)
      ensures gs == Order(groups.Keys)
    {
      gs := [];
      var rest := groups.Keys;
      while rest != {}
        invariant Sorted(gs) && rest <= groups.Keys
        invariant forall g :: g in gs <==> g in groups.Keys && g !in rest
        decreases rest
      {
        var k := Choose(rest);
        InsertSorted(gs, k);
        gs := Insert(gs, k);
        rest := rest - {k};
      }
      ListUnique(gs, Order(groups.Keys), groups.Keys);
    }

    method Counts() returns (counts: map<int, nat>)
      ensures forall g :: (if g in counts then counts[g] else 0) == Count(shards[..], g)
    {
      counts := map[];
      for i := 0 to shards.Length
        invariant forall g :: (if g in counts then counts[g] else 0) == Count(shards[..i], g)
      {
        var g := shards[i];
        assert shards[..i + 1][..i] == shards[..i];
        counts := counts[g := (if g in counts then counts[g] else 0) + 1];
      }
      assert shards[..shards.Length] == shards[..];
    }

    /** The most and the least loaded group with their loads. */
    method Analyze() returns (mg: int, mn: int, lg: int, ln: int)
      requires Valid()
      ensures groups == map[] ==> mg == -1 && mn == -1 && lg == -1 && ln == 257
      ensures groups != map[] ==>
                && mg == Most(shards[..], Gids()) && mn == Count(shards[..], mg)
                && lg == Least(shards[..], Gids()) && ln == Count(shards[..], lg)
    {
      var counts := Counts();
      mn, mg, ln, lg := -1, -1, 257, -1;
      var gs := SortedGids();
      ghost var sh := shards[..];
      for i := 0 to |gs|
        invariant i == 0 ==> mg == -1 && mn == -1 && lg == -1 && ln == 257
        invariant i > 0 ==> mg == Most(sh, gs[..i]) && mn == Count(sh, mg)
        invariant i > 0 ==> lg == Least(sh, gs[..i]) && ln == Count(sh, lg)
      {
        var g := gs[i];
        var n := if g in counts then counts[g] else 0;
        CountPositive(sh, g);
        if i > 0 {
          ScanStep(sh, gs, i);
        }
        if n < ln {
          ln, lg := n, g;
        }
        if n > mn {
          mn, mg := n, g;
        }
      }
      assert gs[..|gs|] == gs;
      if groups != map[] {
        NonEmpty(groups.Keys);
      }
    }

    method LeastLoaded() returns (lg: int)
      requires Valid()
      ensures groups == map[] ==> lg == -1
      ensures groups != map[] ==> lg == Least(shards[..], Gids())
    {
      var _, _, l, _ := Analyze();
      lg := l;
    }

    method Unassign()
      modifies shards
      ensures shards[..] == seq(shards.Length, _ => 0)
    {
      for s := 0 to shards.Length
        invariant forall i :: 0 <= i < s ==> shards[i] == 0
      {
        shards[s] := 0;
      }
    }

    /** Gives every shard without a group to the least loaded one. */
    method AssignAll()
      requires Valid() && groups != map[]
      modifies shards
      ensures Gids() != [] && shards[..] == AssignFrom(old(shards[..]), Gids(), 0)
    {
      NonEmpty(groups.Keys);
      ghost var gs := Gids();
      var copy := shards[..];
      for s := 0 to shards.Length
        invariant forall i :: s <= i < shards.Length ==> shards[i] == copy[i]
        invariant AssignFrom(shards[..], gs, s) == AssignFrom(copy, gs, 0)
      {
        ghost var before := shards[..];
        AssignStep(before, gs, s);
        if copy[s] !in groups {
          var lg := LeastLoaded();
          shards[s] := lg;
          assert shards[..] == before[s := lg];
        }
      }
    }

    /** Moves the first shard of mg to lg. */
    method MoveShard(mg: int, lg: int)
      requires mg in shards[..]
      modifies shards
      ensures shards[..] == old(shards[..])[First(old(shards[..]), mg) := lg]
    {
      var s := 0;
      while shards[s] != mg
        invariant 0 <= s <= First(shards[..], mg) && shards[..] == old(shards[..])
        decreases shards.Length - s
      {
        s := s + 1;
      }
      shards[s] := lg;
    }

    /** Moves shards from the most to the least loaded group while they differ by two. */
    method LevelOut()
      requires Valid() && groups != map[] && Gids() != []
      modifies shards
      ensures shards[..] == Level(old(shards[..]), Gids())
    {
      ghost var gs := Gids();
      var mg, mn, lg, ln := Analyze();
      while mn >= ln + 2
        invariant mg == Most(shards[..], gs) && mn == Count(shards[..], mg)
        invariant lg == Least(shards[..], gs) && ln == Count(shards[..], lg)
        invariant Level(shards[..], gs) == Level(old(shards[..]), gs)
        decreases SumSquares(shards[..], gs)
      {
        LevelStep(shards[..], gs);
        MoveShard(mg, lg);
        mg, mn, lg, ln := Analyze();
      }
    }

    method Rebalance()
      requires Valid()
      modifies shards
      ensures shards[..] == Rebalanced(old(shards[..]), Gids())
    {
      if groups == map[] {
        Unassign();
        return;
      }
      AssignAll();
      LevelOut();
    }

    /** Adds groups. The map is walked in any order, so a refused call may already have
        added some of them. */
    method Join(servers: Groups) returns (out: Outcome)
      modifies this`num, this`groups
      ensures out == Changed <==> CanJoin(old(groups), servers)
      ensures out == Changed ==> groups == old(groups) + servers && num == old(num) + 1
      ensures out != Changed ==> num == old(num) && PartlyJoined(old(groups), servers, groups)
      ensures out == Refused ==> exists g :: g in servers && g in old(groups)
      ensures out == Fatal ==>
                servers == map[] || exists g :: g in servers && g !in groups && Shares(groups, servers[g])
    {
      ghost var before := groups;
      var rest := servers.Keys;
      while rest != {}
        invariant rest <= servers.Keys && before.Keys !! (servers.Keys - rest)
        invariant groups.Keys == before.Keys + (servers.Keys - rest)
        invariant forall g :: g in groups ==> groups[g] == if g in before then before[g] else servers[g]
        invariant forall g, h :: g in servers.Keys - rest && h in before ==> !Overlap(before[h], servers[g])
        invariant forall g, h :: g in servers.Keys - rest && h in servers.Keys - rest && g != h ==>
                    !Overlap(servers[h], servers[g])
        invariant num == old(num)
        decreases rest
      {
        var gid := Choose(rest);
        if gid in groups {
          return Refused;
        }
        if Shares(groups, servers[gid]) {
          return Fatal;
        }
        OverlapSymmetric();
        groups := groups[gid := servers[gid]];
        rest := rest - {gid};
      }
      assert servers.Keys - rest == servers.Keys;
      assert groups.Keys == (before + servers).Keys;
      assert forall g :: g in groups ==> groups[g] == (before + servers)[g];
      assert groups == before + servers;
      if servers == map[] {
        return Fatal;
      }
      num := num + 1;
      return Changed;
    }

    /** Removes groups; a refused call may already have removed some of them. */
    method Leave(gids: seq<int>) returns (out: Outcome)
      modifies this`num, this`groups
      ensures out == Changed <==> CanLeave(old(groups), gids)
      ensures out == Changed ==> groups == Without(old(groups), gids) && num == old(num) + 1
      ensures out != Changed ==> num == old(num) && PartlyLeft(old(groups), gids, groups)
      ensures out == Fatal <==> gids == []
    {
      for i := 0 to |gids|
        invariant num == old(num)
        invariant groups == Without(old(groups), gids[..i])
        invariant forall k :: 0 <= k < i ==> gids[k] in old(groups)
        invariant forall k, l :: 0 <= k < l < i ==> gids[k] != gids[l]
      {
        var gid := gids[i];
        assert forall g :: g in gids[..i + 1] <==> g in gids[..i] || g == gid;
        if gid !in groups {
          if gid in old(groups) {
            var k :| 0 <= k < i && gids[k] == gid;
          }
          assert groups == Without(old(groups), gids[..i]);
          return Refused;
        }
        groups := groups - {gid};
      }
      assert gids[..|gids|] == gids;
      if |gids| == 0 {
        assert groups == Without(old(groups), gids[..0]);
        return Fatal;
      }
      num := num + 1;
      return Changed;
    }

    ghost function Snapshot(): Config
      reads this, shards
    {
      Config(num, shards[..], groups)
    }

    method JoinBalance(servers: Groups) returns (out: Outcome)
      requires Valid()
      modifies this, shards
      ensures out == Changed <==> CanJoin(old(groups), servers)
      ensures out == Changed ==> Snapshot() == Joined(old(Snapshot()), servers)
      ensures out != Changed ==>
                shards[..] == old(shards[..]) && num == old(num) && PartlyJoined(old(groups), servers, groups)
    {
      out := Join(servers);
      if out == Changed {
        Rebalance();
        MergedKeys(old(groups), servers);
        assert num == old(num) + 1 && groups == old(groups) + servers;
        assert shards[..] == Rebalanced(old(shards[..]), Order(old(groups).Keys + servers.Keys));
      }
    }

    method LeaveBalance(gids: seq<int>) returns (out: Outcome)
      requires Valid()
      modifies this, shards
      ensures out == Changed <==> CanLeave(old(groups), gids)
      ensures out == Changed ==> Snapshot() == Departed(old(Snapshot()), gids)
      ensures out != Changed ==>
                shards[..] == old(shards[..]) && num == old(num) && PartlyLeft(old(groups), gids, groups)
    {
      out := Leave(gids);
      if out == Changed {
        Rebalance();
        assert num == old(num) + 1 && groups == Without(old(groups), gids);
        assert shards[..] == Rebalanced(old(shards[..]), Order(Without(old(groups), gids).Keys));
      }
    }

    method IsMember(gid: int) returns (b: bool)
      ensures b <==> gid in shards[..]
    {
      for s := 0 to shards.Length
        invariant gid !in shards[..s]
      {
        if shards[s] == gid {
          return true;
        }
      }
      assert shards[..shards.Length] == shards[..];
      return false;
    }

    /** The harness's check of a configuration against the groups it should have. */
    method CheckConfig(expected: seq<int>) returns (ok: bool)
      requires Valid()
      ensures ok <==>
              && |groups| == |expected| && (forall i :: 0 <= i < |expected| ==> expected[i] in groups)
              && (expected != [] ==> Assigned(shards[..], Gids()))
              && Balanced(shards[..], Gids())
    {
      if |groups| != |expected| {
        return false;
      }
      for i := 0 to |expected|
        invariant forall j :: 0 <= j < i ==> expected[j] in groups
      {
        if expected[i] !in groups {
          return false;
        }
      }
      ghost var gs := Gids();
      if |expected| > 0 {
        for s := 0 to shards.Length
          invariant forall i :: 0 <= i < s ==> shards[i] in gs
        {
          OrderHas(groups.Keys, shards[s]);
          if shards[s] !in groups {
            assert shards[..][s] !in gs;
            return false;
          }
        }
      }
      var min, max := Spread();
      return max <= min + 1;
    }

    /** The smallest and the largest load; they tell whether the groups are balanced. */
    method Spread() returns (min: int, max: int)
      requires Valid()
      ensures max <= min + 1 <==> Balanced(shards[..], Gids())
    {
      var counts := Counts();
      min, max := 257, 0;
      ghost var sh := shards[..];
      var rest := groups.Keys;
      while rest != {}
        invariant rest <= groups.Keys
        invariant forall g :: g in groups.Keys && g !in rest ==> min <= Count(sh, g) <= max
        invariant min == 257 || Attained(sh, groups.Keys, min)
        invariant max == 0 || Attained(sh, groups.Keys, max)
        invariant max <= 256
        decreases rest
      {
        var g := Choose(rest);
        CountPositive(sh, g);
        var n := if g in counts then counts[g] else 0;
        if n > max {
          max := n;
        }
        if n < min {
          min := n;
        }
        rest := rest - {g};
      }
      if max > min + 1 {
        ghost var g :| g in groups.Keys && Count(sh, g) == min;
        ghost var h :| h in groups.Keys && Count(sh, h) == max;
        OrderHas(groups.Keys, g);
        OrderHas(groups.Keys, h);
      }
    }
  }

  /** Some group has exactly n shards. */
  ghost predicate Attained(sh: seq<int>, gids: set<int>, n: int) {
    exists g :: g in gids && Count(sh, g) == n
  }

  // ----- runs of changes

  datatype Config = Config(num: nat, shards: seq<int>, groups: Groups)

  datatype Change = Join(servers: Groups) | Leave(gids: seq<int>)

  ghost function Joined(c: Config, servers: Groups): Config {
    Config(c.num + 1, Rebalanced(c.shards, Order(c.groups.Keys + servers.Keys)), c.groups + servers)
  }

  ghost function Departed(c: Config, gids: seq<int>): Config {
    var groups := Without(c.groups, gids);
    Config(c.num + 1, Rebalanced(c.shards, Order(groups.Keys)), groups)
  }

  ghost predicate Step(c: Config, ch: Change, c': Config) {
    match ch
    case Join(servers) => CanJoin(c.groups, servers) && c' == Joined(c, servers)
    case Leave(gids) => CanLeave(c.groups, gids) && c' == Departed(c, gids)
  }

  /** A run of successful changes from the empty configuration of n shards. */
  ghost predicate Run(n: nat, run: seq<Config>, changes: seq<Change>) {
    && |run| == |changes| + 1
    && run[0] == Config(0, seq(n, _ => 0), map[])
    && forall i :: 0 <= i < |changes| ==> Step(run[i], changes[i], run[i + 1])
  }

  ghost predicate Good(c: Config) {
    && Disjoint(c.groups)
    && (if c.groups == map[] then forall s :: 0 <= s < |c.shards| ==> c.shards[s] == 0
        else Assigned(c.shards, Order(c.groups.Keys)) && Balanced(c.shards, Order(c.groups.Keys)))
  }

  lemma StepGood(c: Config, ch: Change, c': Config)
    requires Good(c) && Step(c, ch, c')
    ensures Good(c') && c'.num == c.num + 1 && |c'.shards| == |c.shards|
  {
    var gs := Order(c'.groups.Keys);
    if ch.Join? {
      MergedKeys(c.groups, ch.servers);
    }
    RebalanceCorrect(c.shards, gs);
    StepDisjoint(c, ch, c');
    if c'.groups != map[] {
      NonEmpty(c'.groups.Keys);
    }
  }

  lemma StepDisjoint(c: Config, ch: Change, c': Config)
    requires Disjoint(c.groups) && Step(c, ch, c')
    ensures Disjoint(c'.groups)
  {
    OverlapSymmetric();
  }

  /** After any sequence of successful changes every shard is on a group and the groups are
      balanced, no server is in two groups, the number counts the changes, and with at least
      one and at most n groups the groups that own shards are exactly the groups. */
  lemma {:induction false} ConfigRun(n: nat, run: seq<Config>, changes: seq<Change>, i: nat)
    requires Run(n, run, changes) && i < |run|
    ensures Good(run[i]) && run[i].num == i && |run[i].shards| == n
    ensures forall g, h, server :: g in run[i].groups && h in run[i].groups && server in run[i].groups[g] ==>
              g == h || server !in run[i].groups[h]
    ensures 1 <= |run[i].groups| <= n ==> forall g :: g in run[i].shards <==> g in run[i].groups
  {
    if i > 0 {
      ConfigRun(n, run, changes, i - 1);
      StepGood(run[i - 1], changes[i - 1], run[i - 1 + 1]);
    }
    if 1 <= |run[i].groups| <= n {
      var gs := Order(run[i].groups.Keys);
      forall g ensures g in run[i].shards <==> g in run[i].groups {
        EveryGroupServes(run[i].shards, gs, g);
      }
    }
  }

  /** A join that follows a run moves shards only to the new groups, as few as any balanced
      assignment could, and gives a single new group its rounded-down share. */
  lemma JoinMoves(c: Config, servers: Groups)
    requires Good(c) && c.groups != map[] && CanJoin(c.groups, servers)
    ensures var c' := Joined(c, servers);
            && |c'.shards| == |c.shards|
            && (forall s :: 0 <= s < |c.shards| && c'.shards[s] != c.shards[s] ==>
                  c.shards[s] in c.groups && c'.shards[s] in servers)
            && (var gs := Order(c'.groups.Keys);
                forall t :: |t| == |c.shards| && Assigned(t, gs) && Balanced(t, gs) ==>
                  Moved(c.shards, c'.shards) <= Moved(c.shards, t))
            && (|servers| == 1 ==> forall x :: x in servers ==>
                  Count(c'.shards, x) == |c.shards| / (|c.groups| + 1))
  {
    var os, ns, gs := Order(c.groups.Keys), Order(servers.Keys), Order(c.groups.Keys + servers.Keys);
    NonEmpty(c.groups.Keys);
    MergedKeys(c.groups, servers);
    RebalanceCorrect(c.shards, gs);
    JoinMovesFewest(c.shards, gs, os, ns, Rebalanced(c.shards, gs));
    forall t | |t| == |c.shards| && Assigned(t, gs) && Balanced(t, gs)
      ensures Moved(c.shards, Rebalanced(c.shards, gs)) <= Moved(c.shards, t)
    {
      JoinMovesFewest(c.shards, gs, os, ns, t);
    }
    if |servers| == 1 {
      forall x | x in servers ensures Count(Rebalanced(c.shards, gs), x) == |c.shards| / (|c.groups| + 1) {
        SingleShare(c, servers, x);
      }
    }
  }

  lemma SingleShare(c: Config, servers: Groups, x: int)
    requires Good(c) && c.groups != map[] && CanJoin(c.groups, servers) && |servers| == 1 && x in servers
    ensures Count(Joined(c, servers).shards, x) == |c.shards| / (|c.groups| + 1)
  {
    NonEmpty(c.groups.Keys);
    OnlyElement(servers.Keys, x);
    MergedKeys(c.groups, servers);
    SingleShareOf(c.shards, c.groups.Keys, x);
  }

  lemma SingleShareOf(sh: seq<int>, gids: set<int>, x: int)
    requires x !in gids && gids != {} && Assigned(sh, Order(gids)) && Balanced(sh, Order(gids))
    ensures Count(Rebalanced(sh, Order(gids + {x})), x) == |sh| / (|gids| + 1)
  {
    var os, gs := Order(gids), Order(gids + {x});
    assert |gs| == |gids| + 1;
    NonEmpty(gids);
    JoinSingleShare(sh, gs, os, x);
  }

  lemma MergedKeys(a: Groups, b: Groups)
    ensures (a + b).Keys == a.Keys + b.Keys
  {
  }

  lemma OnlyElement<T>(s: set<T>, x: T)
    requires |s| == 1 && x in s
    ensures s == {x}
  {
    assert |s - {x}| == 0;
  }

  /** A leave that follows a run moves exactly the shards of the departed groups. */
  lemma LeaveMoves(c: Config, gids: seq<int>)
    requires Good(c) && CanLeave(c.groups, gids) && Departed(c, gids).groups != map[]
    ensures var c' := Departed(c, gids);
            |c'.shards| == |c.shards| &&
            forall s :: 0 <= s < |c.shards| ==> (c'.shards[s] != c.shards[s] <==> c.shards[s] in gids)
  {
    var groups := Departed(c, gids).groups;
    NonEmpty(groups.Keys);
    LeaveMovesOnlyDeparted(c.shards, Order(groups.Keys));
  }
}
