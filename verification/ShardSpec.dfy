/** Assignments of shards to groups and what rebalancing does to them. An assignment is the
    sequence of group ids of the shards; the groups are a strictly increasing sequence. */
module ShardSpec {
  import opened Basics

  function Count(sh: seq<int>, g: int): nat {
    if sh == [] then 0 else Count(sh[..|sh| - 1], g) + if sh[|sh| - 1] == g then 1 else 0
  }

  lemma {:induction false} CountUpdate(sh: seq<int>, i: nat, v: int, g: int)
    requires i < |sh|
    ensures Count(sh[i := v], g) == Count(sh, g) - (if sh[i] == g then 1 else 0) + (if v == g then 1 else 0)
  {
    var t := sh[i := v];
    if i == |sh| - 1 {
      assert t[..|sh| - 1] == sh[..|sh| - 1];
    } else {
      assert t[..|sh| - 1] == sh[..|sh| - 1][i := v];
      CountUpdate(sh[..|sh| - 1], i, v, g);
    }
  }

  lemma {:induction false} CountPositive(sh: seq<int>, g: int)
    ensures Count(sh, g) > 0 <==> g in sh
    ensures Count(sh, g) <= |sh|
  {
    if sh != [] {
      CountPositive(sh[..|sh| - 1], g);
      assert sh == sh[..|sh| - 1] + [sh[|sh| - 1]];
    }
  }

  // ----- groups in order

  ghost predicate Sorted(gs: seq<int>) {
    forall i, j :: 0 <= i < j < |gs| ==> gs[i] < gs[j]
  }

  function Insert(gs: seq<int>, g: int): seq<int> {
    if gs == [] || gs[|gs| - 1] < g then gs + [g] else Insert(gs[..|gs| - 1], g) + [gs[|gs| - 1]]
  }

  lemma {:induction false} InsertSorted(gs: seq<int>, g: int)
    requires Sorted(gs) && g !in gs
    ensures Sorted(Insert(gs, g)) && |Insert(gs, g)| == |gs| + 1
    ensures forall x :: x in Insert(gs, g) <==> x == g || x in gs
  {
    if !(gs == [] || gs[|gs| - 1] < g) {
      var front, last := gs[..|gs| - 1], gs[|gs| - 1];
      assert gs == front + [last];
      InsertSorted(front, g);
      var r := Insert(front, g);
      forall i | 0 <= i < |r| ensures r[i] < last {
        assert r[i] in r;
      }
    }
  }

  ghost predicate Lists(gs: seq<int>, s: set<int>) {
    Sorted(gs) && forall g :: g in gs <==> g in s
  }

  lemma ListFront(gs: seq<int>, s: set<int>)
    requires Lists(gs, s) && gs != []
    ensures var last := gs[|gs| - 1];
            last in s && Lists(gs[..|gs| - 1], s - {last}) && forall g :: g in s ==> g <= last
  {
    var front, last := gs[..|gs| - 1], gs[|gs| - 1];
    assert gs == front + [last];
    assert last in gs;
    forall g | g in s ensures g <= last {
      assert g in gs;
    }
    forall g ensures g in front <==> g in s - {last} {
      assert g in s <==> g in gs;
    }
  }

  lemma {:induction false} ListUnique(a: seq<int>, b: seq<int>, s: set<int>)
    requires Lists(a, s) && Lists(b, s)
    ensures a == b
    decreases |a|
  {
    assert a != [] ==> a[0] in a;
    assert b != [] ==> b[0] in b;
    if a != [] {
      ListFront(a, s);
      ListFront(b, s);
      ListUnique(a[..|a| - 1], b[..|b| - 1], s - {a[|a| - 1]});
      assert a == a[..|a| - 1] + [a[|a| - 1]] && b == b[..|b| - 1] + [b[|b| - 1]];
    }
  }

  /** The groups in increasing order. */
  ghost function Order(s: set<int>): (gs: seq<int>)
    ensures Lists(gs, s) && |gs| == |s|
  {
    ListExists(s);
    var gs :| Lists(gs, s) && |gs| == |s|;
    gs
  }

  lemma OrderHas(s: set<int>, g: int)
    ensures g in Order(s) <==> g in s
  {
    var gs := Order(s);
    assert Lists(gs, s);
  }

  lemma {:induction false} ListExists(s: set<int>)
    ensures exists gs :: Lists(gs, s) && |gs| == |s|
    decreases s
  {
    if s == {} {
      assert Lists([], s);
    } else {
      var g := Pick(s);
      ListExists(s - {g});
      var gs :| Lists(gs, s - {g}) && |gs| == |s - {g}|;
      InsertSorted(gs, g);
      assert Lists(Insert(gs, g), s);
    }
  }

  // ----- least and most loaded

  /** The least loaded group, the lowest id winning a tie. */
  function Least(sh: seq<int>, gs: seq<int>): (l: int)
    requires gs != []
    ensures l in gs && forall g :: g in gs ==> Count(sh, l) <= Count(sh, g)
    ensures Sorted(gs) ==> forall g :: g in gs && Count(sh, g) == Count(sh, l) ==> l <= g
  {
    var last := gs[|gs| - 1];
    if |gs| == 1 then last
    else
      assert gs == gs[..|gs| - 1] + [last];
      var l := Least(sh, gs[..|gs| - 1]);
      if Count(sh, last) < Count(sh, l) then last else l
  }

  /** The most loaded group, the lowest id winning a tie. */
  function Most(sh: seq<int>, gs: seq<int>): (m: int)
    requires gs != []
    ensures m in gs && forall g :: g in gs ==> Count(sh, g) <= Count(sh, m)
    ensures Sorted(gs) ==> forall g :: g in gs && Count(sh, g) == Count(sh, m) ==> m <= g
  {
    var last := gs[|gs| - 1];
    if |gs| == 1 then last
    else
      assert gs == gs[..|gs| - 1] + [last];
      var m := Most(sh, gs[..|gs| - 1]);
      if Count(sh, last) > Count(sh, m) then last else m
  }

  /** Looking at one more group changes the answers as a scan does. */
  lemma ScanStep(sh: seq<int>, gs: seq<int>, i: nat)
    requires 0 < i < |gs|
    ensures var l := Least(sh, gs[..i]);
            Least(sh, gs[..i + 1]) == if Count(sh, gs[i]) < Count(sh, l) then gs[i] else l
    ensures var m := Most(sh, gs[..i]);
            Most(sh, gs[..i + 1]) == if Count(sh, gs[i]) > Count(sh, m) then gs[i] else m
  {
    assert gs[..i + 1][..i] == gs[..i];
  }

  ghost predicate Assigned(sh: seq<int>, gs: seq<int>) {
    forall s :: 0 <= s < |sh| ==> sh[s] in gs
  }

  /** No group has two shards more than another. */
  ghost predicate Balanced(sh: seq<int>, gs: seq<int>) {
    forall g, h :: g in gs && h in gs ==> Count(sh, g) <= Count(sh, h) + 1
  }

  // ----- rebalancing

  /** Each shard from s on whose group is gone goes to the least loaded group. */
  function AssignFrom(sh: seq<int>, gs: seq<int>, s: nat): (r: seq<int>)
    requires gs != [] && s <= |sh|
    ensures |r| == |sh|
    ensures forall i :: 0 <= i < |sh| && (i < s || sh[i] in gs) ==> r[i] == sh[i]
    ensures forall i :: s <= i < |sh| ==> r[i] in gs
    decreases |sh| - s
  {
    if s == |sh| then sh
    else if sh[s] in gs then AssignFrom(sh, gs, s + 1)
    else AssignFrom(sh[s := Least(sh, gs)], gs, s + 1)
  }

  lemma AssignStep(sh: seq<int>, gs: seq<int>, s: nat)
    requires gs != [] && s < |sh|
    ensures AssignFrom(sh, gs, s) == AssignFrom(if sh[s] in gs then sh else sh[s := Least(sh, gs)], gs, s + 1)
  {
  }

  /** The first shard of group g. */
  function First(sh: seq<int>, g: int): (i: nat)
    requires g in sh
    ensures i < |sh| && sh[i] == g && forall j :: 0 <= j < i ==> sh[j] != g
  {
    if sh[0] == g then 0
    else
      assert sh == [sh[0]] + sh[1..];
      1 + First(sh[1..], g)
  }

  ghost predicate Uneven(sh: seq<int>, gs: seq<int>) {
    gs != [] && Count(sh, Most(sh, gs)) >= Count(sh, Least(sh, gs)) + 2
  }

  /** One shard moves from the most to the least loaded group. */
  ghost function MoveOne(sh: seq<int>, gs: seq<int>): (r: seq<int>)
    requires Uneven(sh, gs)
    ensures |r| == |sh|
  {
    CountPositive(sh, Most(sh, gs));
    sh[First(sh, Most(sh, gs)) := Least(sh, gs)]
  }

  /** Squaring, one step at a time. */
  function Square(n: nat): nat {
    if n == 0 then 0 else Square(n - 1) + 2 * n - 1
  }

  lemma {:induction false} SquareIsProduct(n: nat)
    ensures Square(n) == n * n
  {
    if n > 0 {
      SquareIsProduct(n - 1);
    }
  }

  /** The sum of the squared loads. */
  ghost function SumSquares(sh: seq<int>, gs: seq<int>): nat {
    if gs == [] then 0 else SumSquares(sh, gs[..|gs| - 1]) + Square(Count(sh, gs[|gs| - 1]))
  }

  /** The measure is the sum of the squared loads. */
  lemma {:induction false} SumSquaresIsSum(sh: seq<int>, gs: seq<int>)
    ensures SumSquares(sh, gs) == Sum(seq(|gs|, i requires 0 <= i < |gs| => Count(sh, gs[i]) * Count(sh, gs[i])))
  {
    if gs != [] {
      var n := |gs| - 1;
      SumSquaresIsSum(sh, gs[..n]);
      SquareIsProduct(Count(sh, gs[n]));
      var all := seq(|gs|, i requires 0 <= i < |gs| => Count(sh, gs[i]) * Count(sh, gs[i]));
      assert all[..n] == seq(n, i requires 0 <= i < n => Count(sh, gs[..n][i]) * Count(sh, gs[..n][i]));
    }
  }

  lemma MoveCounts(sh: seq<int>, gs: seq<int>, g: int)
    requires Uneven(sh, gs)
    ensures Count(MoveOne(sh, gs), g) ==
            Count(sh, g) - (if g == Most(sh, gs) then 1 else 0) + (if g == Least(sh, gs) then 1 else 0)
    ensures Most(sh, gs) != Least(sh, gs)
  {
    CountPositive(sh, Most(sh, gs));
    CountUpdate(sh, First(sh, Most(sh, gs)), Least(sh, gs), g);
  }

  /** Taking one shard from m and giving one to l changes two squares. */
  lemma {:induction false} SquaresDelta(sh: seq<int>, sh': seq<int>, m: int, l: int, part: seq<int>)
    requires Sorted(part) && m != l && Count(sh, m) > 0
    requires forall g :: Count(sh', g) == Count(sh, g) - (if g == m then 1 else 0) + (if g == l then 1 else 0)
    ensures SumSquares(sh', part) == SumSquares(sh, part)
              - (if m in part then 2 * Count(sh, m) - 1 else 0) + (if l in part then 2 * Count(sh, l) + 1 else 0)
  {
    if part != [] {
      var front, last := part[..|part| - 1], part[|part| - 1];
      assert part == front + [last];
      SquaresDelta(sh, sh', m, l, front);
      assert last !in front;
      SquareDelta(Count(sh, last), Count(sh', last), last == m, last == l);
    }
  }

  lemma SquareDelta(n: nat, n': nat, down: bool, up: bool)
    requires !(down && up) && n' == n - (if down then 1 else 0) + (if up then 1 else 0)
    ensures Square(n') == Square(n) - (if down then 2 * n - 1 else 0) + (if up then 2 * n + 1 else 0)
  {
  }

  /** Every move strictly lowers the sum of squared loads. */
  lemma MoveDecreases(sh: seq<int>, gs: seq<int>)
    requires Uneven(sh, gs) && Sorted(gs)
    ensures SumSquares(MoveOne(sh, gs), gs) < SumSquares(sh, gs)
  {
    var m, l := Most(sh, gs), Least(sh, gs);
    forall g ensures Count(MoveOne(sh, gs), g) == Count(sh, g) - (if g == m then 1 else 0) + (if g == l then 1 else 0) {
      MoveCounts(sh, gs, g);
    }
    SquaresDelta(sh, MoveOne(sh, gs), m, l, gs);
  }

  /** Moves until no group has two shards more than another. */
  ghost function Level(sh: seq<int>, gs: seq<int>): (r: seq<int>)
    requires gs != [] && Sorted(gs)
    ensures |r| == |sh|
    decreases SumSquares(sh, gs)
  {
    if !Uneven(sh, gs) then sh
    else
      MoveDecreases(sh, gs);
      Level(MoveOne(sh, gs), gs)
  }

  lemma LevelStep(sh: seq<int>, gs: seq<int>)
    requires Sorted(gs) && Uneven(sh, gs)
    ensures Level(sh, gs) == Level(MoveOne(sh, gs), gs)
    ensures SumSquares(MoveOne(sh, gs), gs) < SumSquares(sh, gs)
    ensures Most(sh, gs) in sh && MoveOne(sh, gs) == sh[First(sh, Most(sh, gs)) := Least(sh, gs)]
  {
    MoveDecreases(sh, gs);
    CountPositive(sh, Most(sh, gs));
  }

  ghost function Rebalanced(sh: seq<int>, gs: seq<int>): (r: seq<int>)
    requires Sorted(gs)
    ensures |r| == |sh|
  {
    if gs == [] then seq(|sh|, _ => 0) else Level(AssignFrom(sh, gs, 0), gs)
  }

  // ----- correctness

  lemma EvenIffBalanced(sh: seq<int>, gs: seq<int>)
    requires gs != []
    ensures !Uneven(sh, gs) <==> Balanced(sh, gs)
  {
  }

  lemma {:induction false} LevelCorrect(sh: seq<int>, gs: seq<int>)
    requires gs != [] && Sorted(gs) && Assigned(sh, gs)
    ensures Assigned(Level(sh, gs), gs) && Balanced(Level(sh, gs), gs)
    decreases SumSquares(sh, gs)
  {
    EvenIffBalanced(sh, gs);
    if Uneven(sh, gs) {
      MoveDecreases(sh, gs);
      LevelCorrect(MoveOne(sh, gs), gs);
    }
  }

  /** Rebalancing any assignment over at least one group leaves every shard on a group and no
      group with two shards more than another; doing it again changes nothing. */
  lemma RebalanceCorrect(sh: seq<int>, gs: seq<int>)
    requires Sorted(gs)
    ensures var r := Rebalanced(sh, gs);
            && (gs != [] ==> Assigned(r, gs) && Balanced(r, gs))
            && Rebalanced(r, gs) == r
  {
    if gs != [] {
      LevelCorrect(AssignFrom(sh, gs, 0), gs);
      var r := Rebalanced(sh, gs);
      EvenIffBalanced(r, gs);
      assert AssignFrom(r, gs, 0) == r;
    }
  }

  // ----- leaving

  /** Giving shards to the least loaded group keeps the groups balanced. */
  lemma {:induction false} AssignKeepsBalance(sh: seq<int>, gs: seq<int>, s: nat)
    requires gs != [] && s <= |sh| && Balanced(sh, gs)
    ensures Balanced(AssignFrom(sh, gs, s), gs)
    decreases |sh| - s
  {
    if s < |sh| {
      if sh[s] in gs {
        AssignKeepsBalance(sh, gs, s + 1);
      } else {
        var l := Least(sh, gs);
        var sh' := sh[s := l];
        forall g | g in gs ensures Count(sh', g) == Count(sh, g) + if g == l then 1 else 0 {
          CountUpdate(sh, s, l, g);
        }
        AssignKeepsBalance(sh', gs, s + 1);
      }
    }
  }

  /** Stability on leave: from an assignment balanced over the groups that stay, rebalancing
      moves exactly the shards of the departed groups, and any assignment that uses only the
      remaining groups has to move those. */
  lemma LeaveMovesOnlyDeparted(sh: seq<int>, gs: seq<int>)
    requires gs != [] && Sorted(gs) && Balanced(sh, gs)
    ensures var r := Rebalanced(sh, gs);
            && r == AssignFrom(sh, gs, 0)
            && (forall s :: 0 <= s < |sh| ==> (r[s] != sh[s] <==> sh[s] !in gs))
    ensures forall t :: |t| == |sh| && Assigned(t, gs) ==> Moved(sh, Rebalanced(sh, gs)) <= Moved(sh, t)
  {
    AssignKeepsBalance(sh, gs, 0);
    EvenIffBalanced(AssignFrom(sh, gs, 0), gs);
    var r := Rebalanced(sh, gs);
    forall t | |t| == |sh| && Assigned(t, gs) ensures Moved(sh, r) <= Moved(sh, t) {
      MovedMonotone(sh, r, t);
    }
  }

  /** How many shards change group. */
  ghost function Moved(a: seq<int>, b: seq<int>): nat
    requires |a| == |b|
  {
    if a == [] then 0
    else Moved(a[..|a| - 1], b[..|b| - 1]) + if a[|a| - 1] != b[|b| - 1] then 1 else 0
  }

  lemma {:induction false} MovedMonotone(a: seq<int>, b: seq<int>, c: seq<int>)
    requires |a| == |b| == |c|
    requires forall s :: 0 <= s < |a| && a[s] != b[s] ==> a[s] != c[s]
    ensures Moved(a, b) <= Moved(a, c)
  {
    if a != [] {
      MovedMonotone(a[..|a| - 1], b[..|b| - 1], c[..|c| - 1]);
    }
  }

  // ----- joining

  /** While new groups are being filled, the old groups are balanced, so are the new ones, and
      no new group has more shards than an old one. */
  ghost predicate Filling(sh: seq<int>, gs: seq<int>, os: seq<int>) {
    && (forall g, h :: g in gs && h in gs && (g in os <==> h in os) ==> Count(sh, g) <= Count(sh, h) + 1)
    && (forall g, h :: g in gs && h in gs && g !in os && h in os ==> Count(sh, g) <= Count(sh, h))
  }

  lemma FillingStep(sh: seq<int>, gs: seq<int>, os: seq<int>)
    requires Uneven(sh, gs) && Filling(sh, gs, os)
    ensures Most(sh, gs) in os && Least(sh, gs) !in os
    ensures Filling(MoveOne(sh, gs), gs, os)
  {
    var m, l, sh' := Most(sh, gs), Least(sh, gs), MoveOne(sh, gs);
    forall g ensures Count(sh', g) == Count(sh, g) - (if g == m then 1 else 0) + (if g == l then 1 else 0) {
      MoveCounts(sh, gs, g);
    }
  }

  lemma {:induction false} LevelFills(sh: seq<int>, gs: seq<int>, os: seq<int>)
    requires gs != [] && Sorted(gs) && Filling(sh, gs, os)
    ensures var r := Level(sh, gs);
            && Filling(r, gs, os)
            && forall s :: 0 <= s < |sh| && r[s] != sh[s] ==> sh[s] in os && r[s] !in os && r[s] in gs
    decreases SumSquares(sh, gs)
  {
    if Uneven(sh, gs) {
      LevelStep(sh, gs);
      FillingStep(sh, gs, os);
      var sh', r := MoveOne(sh, gs), Level(sh, gs);
      LevelFills(sh', gs, os);
      forall s | 0 <= s < |sh| && r[s] != sh[s] ensures sh[s] in os && r[s] !in os && r[s] in gs {
        if sh'[s] == sh[s] {
          assert r[s] != sh'[s];
        }
      }
    }
  }

  /** A configuration of old groups, and groups that hold nothing yet. */
  ghost predicate ReadyToJoin(sh: seq<int>, gs: seq<int>, os: seq<int>) {
    && Sorted(os) && os != [] && Assigned(sh, os) && Balanced(sh, os)
    && Sorted(gs) && forall g :: g in os ==> g in gs
  }

  lemma JoinFills(sh: seq<int>, gs: seq<int>, os: seq<int>)
    requires ReadyToJoin(sh, gs, os)
    ensures var r := Rebalanced(sh, gs);
            && Filling(r, gs, os)
            && forall s :: 0 <= s < |sh| && r[s] != sh[s] ==> r[s] !in os && r[s] in gs
  {
    forall g | g in gs && g !in os ensures Count(sh, g) == 0 {
      CountPositive(sh, g);
    }
    assert os[0] in os;
    assert AssignFrom(sh, gs, 0) == sh;
    LevelFills(sh, gs, os);
  }

  /** The shards held by a list of groups. */
  ghost function Load(sh: seq<int>, xs: seq<int>): nat {
    if xs == [] then 0 else Load(sh, xs[..|xs| - 1]) + Count(sh, xs[|xs| - 1])
  }

  ghost function InGroups(sh: seq<int>, xs: seq<int>): nat {
    if sh == [] then 0 else InGroups(sh[..|sh| - 1], xs) + if sh[|sh| - 1] in xs then 1 else 0
  }

  lemma {:induction false} LoadEmpty(xs: seq<int>)
    ensures Load([], xs) == 0
  {
    if xs != [] {
      LoadEmpty(xs[..|xs| - 1]);
    }
  }

  lemma {:induction false} LoadSnoc(sh: seq<int>, v: int, xs: seq<int>)
    requires Sorted(xs)
    ensures Load(sh + [v], xs) == Load(sh, xs) + if v in xs then 1 else 0
  {
    if xs != [] {
      var front, last := xs[..|xs| - 1], xs[|xs| - 1];
      assert xs == front + [last];
      LoadSnoc(sh, v, front);
      assert (sh + [v])[..|sh|] == sh;
    }
  }

  /** The loads of distinct groups add up to the shards on those groups. */
  lemma {:induction false} LoadIsInGroups(sh: seq<int>, xs: seq<int>)
    requires Sorted(xs)
    ensures Load(sh, xs) == InGroups(sh, xs)
  {
    if sh == [] {
      LoadEmpty(xs);
    } else {
      LoadIsInGroups(sh[..|sh| - 1], xs);
      assert sh == sh[..|sh| - 1] + [sh[|sh| - 1]];
      LoadSnoc(sh[..|sh| - 1], sh[|sh| - 1], xs);
    }
  }

  lemma {:induction false} InGroupsSplit(sh: seq<int>, gs: seq<int>, os: seq<int>, ns: seq<int>)
    requires Assigned(sh, gs)
    requires forall g :: g in gs <==> g in os || g in ns
    requires forall g :: !(g in os && g in ns)
    ensures InGroups(sh, os) + InGroups(sh, ns) == |sh| == InGroups(sh, gs)
  {
    if sh != [] {
      InGroupsSplit(sh[..|sh| - 1], gs, os, ns);
      assert sh[|sh| - 1] in gs;
    }
  }

  /** A larger load comes with a group that has more. */
  lemma {:induction false} HeavierGroup(a: seq<int>, b: seq<int>, xs: seq<int>) returns (g: int)
    requires Load(a, xs) > Load(b, xs)
    ensures g in xs && Count(a, g) > Count(b, g)
  {
    var last := xs[|xs| - 1];
    if Count(a, last) > Count(b, last) {
      g := last;
    } else {
      g := HeavierGroup(a, b, xs[..|xs| - 1]);
      assert g in xs;
    }
  }

  lemma {:induction false} MovedInto(a: seq<int>, b: seq<int>, ns: seq<int>)
    requires |a| == |b|
    requires forall s :: 0 <= s < |a| ==> a[s] !in ns
    ensures Moved(a, b) >= InGroups(b, ns)
    ensures (forall s :: 0 <= s < |a| && a[s] != b[s] ==> b[s] in ns) ==> Moved(a, b) == InGroups(b, ns)
  {
    if a != [] {
      MovedInto(a[..|a| - 1], b[..|b| - 1], ns);
    }
  }

  /** Minimal movement on join: rebalancing after a join moves shards only from old groups to
      new ones, and no balanced assignment over the same groups moves fewer shards. */
  lemma JoinMovesFewest(sh: seq<int>, gs: seq<int>, os: seq<int>, ns: seq<int>, t: seq<int>)
    requires ReadyToJoin(sh, gs, os)
    requires Sorted(ns) && (forall g :: g in gs <==> g in os || g in ns) && (forall g :: !(g in os && g in ns))
    requires |t| == |sh| && Assigned(t, gs) && Balanced(t, gs)
    ensures var r := Rebalanced(sh, gs);
            && (forall s :: 0 <= s < |sh| && r[s] != sh[s] ==> sh[s] in os && r[s] in ns)
            && Moved(sh, r) <= Moved(sh, t)
  {
    var r := Rebalanced(sh, gs);
    JoinFills(sh, gs, os);
    RebalanceCorrect(sh, gs);
    assert os[0] in os;
    MovedInto(sh, r, ns);
    MovedInto(sh, t, ns);
    InGroupsSplit(r, gs, os, ns);
    InGroupsSplit(t, gs, os, ns);
    LoadIsInGroups(r, ns);
    LoadIsInGroups(t, ns);
    LoadIsInGroups(r, os);
    LoadIsInGroups(t, os);
    if Load(r, ns) > Load(t, ns) {
      var g := HeavierGroup(r, t, ns);
      var h := HeavierGroup(t, r, os);
      assert false;
    }
  }

  lemma TimesSucc(k: nat, c: nat)
    ensures (k + 1) * c == k * c + c
  {
  }

  lemma {:induction false} LoadBounds(sh: seq<int>, xs: seq<int>, low: nat, high: nat)
    requires forall g :: g in xs ==> low <= Count(sh, g) <= high
    ensures |xs| * low <= Load(sh, xs) <= |xs| * high
  {
    if xs != [] {
      var front := xs[..|xs| - 1];
      assert xs[|xs| - 1] in xs;
      LoadBounds(sh, front, low, high);
      TimesSucc(|front|, low);
      TimesSucc(|front|, high);
    }
  }

  lemma {:induction false} LoadStrict(sh: seq<int>, xs: seq<int>, x: int, high: nat)
    requires x in xs && Count(sh, x) < high
    requires forall g :: g in xs ==> Count(sh, g) <= high
    ensures Load(sh, xs) < |xs| * high
  {
    var front, last := xs[..|xs| - 1], xs[|xs| - 1];
    TimesSucc(|front|, high);
    assert last in xs;
    if last == x {
      LoadBounds(sh, front, 0, high);
    } else {
      LoadStrict(sh, front, x, high);
    }
  }

  lemma Quotient(n: nat, k: nat, c: nat)
    requires k > 0 && k * c <= n < k * (c + 1)
    ensures c == n / k
  {
    var q := n / k;
    assert k * q <= n < k * q + k;
    assert c < q ==> k * (c + 1) <= k * q;
    assert q < c ==> k * (q + 1) <= k * c;
  }

  /** A single new group x ends with the rounded-down share of the shards. */
  lemma JoinSingleShare(sh: seq<int>, gs: seq<int>, os: seq<int>, x: int)
    requires ReadyToJoin(sh, gs, os)
    requires x !in os && forall g :: g in gs <==> g in os || g == x
    ensures Count(Rebalanced(sh, gs), x) == |sh| / |gs|
  {
    var r := Rebalanced(sh, gs);
    JoinFills(sh, gs, os);
    RebalanceCorrect(sh, gs);
    var c := Count(r, x);
    assert x in gs;
    forall g | g in gs ensures c <= Count(r, g) <= c + 1 {}
    LoadBounds(r, gs, c, c + 1);
    LoadStrict(r, gs, x, c + 1);
    LoadIsInGroups(r, gs);
    InGroupsSplit(r, gs, os, [x]);
    Quotient(|sh|, |gs|, c);
  }

  /** With no more groups than shards, a balanced assignment uses exactly the groups. */
  lemma EveryGroupServes(sh: seq<int>, gs: seq<int>, g: int)
    requires Sorted(gs) && gs != [] && |gs| <= |sh| && Assigned(sh, gs) && Balanced(sh, gs)
    ensures g in sh <==> g in gs
  {
    CountPositive(sh, g);
    if g in gs && Count(sh, g) == 0 {
      LoadStrict(sh, gs, g, 1);
      LoadIsInGroups(sh, gs);
      InGroupsSplit(sh, gs, gs, []);
      assert false;
    }
  }
}
