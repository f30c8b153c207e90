/** The group stage engine: points from the coefficient list, ranking
    vectors and the comparator that orders a table, validation of tables
    and games, the recompute of team standings, and the stage lifecycle on
    the store (create, add a stage, add games, play or reset a game,
    destroy the last stage, remove). */
module Groups {
  import opened Core
  import opened Schema
  import TeamStats
  import Matches
  import Series

  // ------------------------------------------------------------ points

  /** The coefficient of each outcome slot (win, win in overtime, draw,
      loss in overtime, loss). A list of two is [win, loss], of three
      [win, draw, loss], of four [win, win in overtime, loss in overtime,
      loss]; any other list is used as it is. Without its own overtime
      coefficient an overtime result counts as the plain one, and without
      a draw coefficient a draw is worth nothing. */
  function ExpandKoeffs(k: seq<int>): (e: seq<int>)
    ensures 2 <= |k| <= 5 ==> |e| == 5 && e[0] == k[0] && e[4] == k[|k| - 1]
    ensures |k| == 2 || |k| == 3 ==> |e| == 5 && e[1] == e[0] && e[3] == e[4]
    ensures |k| == 4 ==> |e| == 5 && e[1] == k[1] && e[3] == k[2]
    ensures |k| == 2 || |k| == 4 ==> |e| == 5 && e[2] == 0
    ensures |k| == 3 ==> |e| == 5 && e[2] == k[1]
    ensures !(2 <= |k| <= 4) ==> e == k
  {
    if |k| == 2 then [k[0], k[0], 0, k[1], k[1]]
    else if |k| == 3 then [k[0], k[0], k[1], k[2], k[2]]
    else if |k| == 4 then [k[0], k[1], 0, k[2], k[3]]
    else k
  }

  /** The weighted sum of the tallies, left to right. `None` is the NaN the
      runtime produces as soon as a tally has no coefficient. */
  function Dot(stat: seq<int>, e: seq<int>): (r: Option<int>)
    ensures r.Some? <==> |stat| <= |e|
  {
    if stat == [] then Some(0)
    else
      var n := |stat| - 1;
      var acc := Dot(stat[..n], e);
      if acc.None? || n >= |e| then None else Some(acc.value + stat[n] * e[n])
  }

  /** A team's points for its outcome tallies. */
  function Points(k: seq<int>, stat: seq<int>): Option<int> {
    Dot(stat, ExpandKoeffs(k))
  }

  /** Over the five outcome slots the points are a number exactly when the
      coefficient list has at least two entries. */
  lemma PointsDefined(k: seq<int>, stat: seq<int>)
    requires |stat| == 5
    ensures Points(k, stat).Some? <==> |k| >= 2
  {
    if !(2 <= |k| <= 4) {
      assert ExpandKoeffs(k) == k;
    }
  }

  /** Points are additive: the points of a sum of tallies are the sum of
      the points. */
  lemma {:induction false} DotAdd(a: seq<int>, b: seq<int>, e: seq<int>)
    requires |a| == |b| <= |e|
    ensures Dot(TeamStats.AddSeq(a, b), e) == Some(Dot(a, e).value + Dot(b, e).value)
  {
    if a != [] {
      var n := |a| - 1;
      var sum := TeamStats.AddSeq(a, b);
      assert sum[..n] == TeamStats.AddSeq(a[..n], b[..n]);
      DotAdd(a[..n], b[..n], e);
      assert sum[n] * e[n] == a[n] * e[n] + b[n] * e[n] by {
        assert sum[n] == a[n] + b[n];
        Distributes(a[n], b[n], e[n]);
      }
    }
  }

  lemma Distributes(x: int, y: int, z: int)
    ensures (x + y) * z == x * z + y * z
  {
  }

  lemma PointsAdd(k: seq<int>, a: seq<int>, b: seq<int>)
    requires |a| == |b| == 5 && |k| >= 2
    ensures Points(k, TeamStats.AddSeq(a, b)) == Some(Points(k, a).value + Points(k, b).value)
  {
    PointsDefined(k, a);
    DotAdd(a, b, ExpandKoeffs(k));
  }

  /** Under the default coefficients [1, 0] a team's points are its wins,
      in regular time and in overtime. */
  lemma DefaultPointsAreWins(stat: seq<int>)
    requires |stat| == 5
    ensures Points([1, 0], stat) == Some(stat[0] + stat[1])
  {
    var e := ExpandKoeffs([1, 0]);
    assert e == [1, 1, 0, 0, 0];
    assert stat[..4][..3][..2][..1][..0] == [];
    assert stat[..2][..1] == stat[..1] && stat[..3][..2] == stat[..2] && stat[..4][..3] == stat[..3];
    assert stat[..5][..4] == stat[..4] && stat[..1][..0] == [];
    assert Dot(stat[..1], e) == Some(stat[0]);
    assert Dot(stat[..2], e) == Some(stat[0] + stat[1]);
    assert Dot(stat[..3], e) == Some(stat[0] + stat[1]);
    assert Dot(stat[..4], e) == Some(stat[0] + stat[1]);
    assert stat[..5] == stat;
  }

  // ----------------------------------------------------------- ranking

  /** The value one criterion ranks by: the points, the games won, or for
      every other criterion the seed. */
  function CriterionValue(c: PlacesCriteria, seed: Option<int>, points: Option<int>, wins: int): Option<int> {
    match c
    case Points => points
    case Wins => Some(wins)
    case _ => seed
  }

  /** The ranking vector: one value per criterion, in the group's order. */
  function RangeCriteria(cs: seq<PlacesCriteria>, seed: Option<int>, points: Option<int>, wins: int)
    : (r: seq<Option<int>>)
    ensures |r| == |cs| && forall i :: 0 <= i < |cs| ==> r[i] == CriterionValue(cs[i], seed, points, wins)
  {
    seq(|cs|, i requires 0 <= i < |cs| => CriterionValue(cs[i], seed, points, wins))
  }

  /** The comparator's difference at criterion `i`, `b[i] - a[i]`; `None`
      when it is zero or NaN (an undefined value, or `a` too short), both of
      which the search for a truthy difference passes over. */
  function DiffAt(a: seq<Option<int>>, b: seq<Option<int>>, i: nat): Option<int>
    requires i < |b|
  {
    if i < |a| && a[i].Some? && b[i].Some? && b[i].value != a[i].value then Some(b[i].value - a[i].value)
    else None
  }

  /** The first truthy difference from criterion `i` on, along `b`. */
  function FirstDiff(a: seq<Option<int>>, b: seq<Option<int>>, i: nat): (d: Option<int>)
    ensures d.Some? ==> d.value != 0
    ensures d.None? <==> forall j :: i <= j < |b| ==> DiffAt(a, b, j).None?
    ensures d.Some? ==> exists j :: i <= j < |b| && DiffAt(a, b, j) == d
                                    && forall l :: i <= l < j ==> DiffAt(a, b, l).None?
    decreases |b| - i
  {
    if i >= |b| then None
    else if DiffAt(a, b, i).Some? then DiffAt(a, b, i)
    else FirstDiff(a, b, i + 1)
  }

  function Negate(d: Option<int>): Option<int> {
    if d.Some? then Some(-d.value) else None
  }

  /** Between vectors of the same length, swapping the two sides negates
      the comparator. */
  lemma {:induction false} FirstDiffAntisymmetric(a: seq<Option<int>>, b: seq<Option<int>>, i: nat)
    requires |a| == |b|
    ensures FirstDiff(b, a, i) == Negate(FirstDiff(a, b, i))
    decreases |b| - i
  {
    if i < |b| {
      FirstDiffAntisymmetric(a, b, i + 1);
    }
  }

  predicate Defined(a: seq<Option<int>>) {
    forall i :: 0 <= i < |a| ==> a[i].Some?
  }

  function Values(a: seq<Option<int>>): (v: seq<int>)
    requires Defined(a)
    ensures |v| == |a| && forall i :: 0 <= i < |a| ==> Some(v[i]) == a[i]
  {
    seq(|a|, i requires 0 <= i < |a| => a[i].value)
  }

  /** `x` is lexicographically above `y`: equal up to some position,
      where `x` is larger. */
  predicate LexAbove(x: seq<int>, y: seq<int>) {
    exists i :: 0 <= i < |x| && i < |y| && x[..i] == y[..i] && x[i] > y[i]
  }

  /** The first truthy difference is the one at the first criterion
      where the two vectors differ. */
  lemma {:induction false} FirstDiffAt(a: seq<Option<int>>, b: seq<Option<int>>, s: nat, i: nat)
    requires s <= i < |b| && DiffAt(a, b, i).Some? && forall l :: s <= l < i ==> DiffAt(a, b, l).None?
    ensures FirstDiff(a, b, s) == DiffAt(a, b, i)
    decreases i - s
  {
    if s < i {
      FirstDiffAt(a, b, s + 1, i);
    }
  }

  /** With every value defined, the comparator puts `a` after `b` exactly
      when `b` is lexicographically above `a`, and gives no preference
      exactly when the vectors are equal. */
  lemma FirstDiffLex(a: seq<Option<int>>, b: seq<Option<int>>)
    requires |a| == |b| && Defined(a) && Defined(b)
    ensures var d := FirstDiff(a, b, 0);
            && (d.Some? && d.value > 0 <==> LexAbove(Values(b), Values(a)))
            && (d.None? <==> a == b)
  {
    var d := FirstDiff(a, b, 0);
    var va, vb := Values(a), Values(b);
    if LexAbove(vb, va) {
      var i :| 0 <= i < |vb| && i < |va| && vb[..i] == va[..i] && vb[i] > va[i];
      forall l | 0 <= l < i
        ensures DiffAt(a, b, l).None?
      {
        assert vb[..i][l] == va[..i][l];
      }
      FirstDiffAt(a, b, 0, i);
    }
    if d.Some? && d.value > 0 {
      var j :| 0 <= j < |b| && DiffAt(a, b, j) == d && forall l :: 0 <= l < j ==> DiffAt(a, b, l).None?;
      forall l | 0 <= l < j
        ensures vb[l] == va[l]
      {
        assert DiffAt(a, b, l).None?;
      }
      assert vb[..j] == va[..j];
    }
    if d.None? {
      forall j | 0 <= j < |b|
        ensures a[j] == b[j]
      {
        assert DiffAt(a, b, j).None?;
      }
    }
  }

  /** The sort comparator on two team ids: the stats of the second team
      must exist, and those of the first too once the second has any
      criterion to read. A team without stats makes the runtime throw. */
  function Compare(stats: map<TeamId, GroupTeamStat>, x: TeamId, y: TeamId): (r: Result<Option<int>>)
    ensures r.Err? <==> y !in stats || (x !in stats && |stats[y].rangeCriteria| > 0)
    ensures r.Err? ==> r.error == Crash
    ensures r.Ok? && x !in stats ==> r.value.None?
  {
    if y !in stats then Err(Crash)
    else if x !in stats then (if |stats[y].rangeCriteria| > 0 then Err(Crash) else Ok(None))
    else Ok(FirstDiff(stats[x].rangeCriteria, stats[y].rangeCriteria, 0))
  }

  /** The comparator's verdict that `x` goes after `y`. */
  predicate After(stats: map<TeamId, GroupTeamStat>, x: TeamId, y: TeamId)
    requires x in stats && y in stats
  {
    var d := FirstDiff(stats[x].rangeCriteria, stats[y].rangeCriteria, 0);
    d.Some? && d.value > 0
  }

  /** Every team of the table has stats, all with ranking vectors of one
      length: the comparator is then antisymmetric. */
  predicate Rankable(stats: map<TeamId, GroupTeamStat>, table: Table) {
    forall x, y :: x in table && y in table ==>
      x in stats && y in stats && |stats[x].rangeCriteria| == |stats[y].rangeCriteria|
  }

  /** No team goes after its successor. */
  predicate Ranked(stats: map<TeamId, GroupTeamStat>, t: Table) {
    forall i :: 0 <= i < |t| - 1 ==> RankedAt(stats, t, i)
  }

  predicate RankedAt(stats: map<TeamId, GroupTeamStat>, t: Table, i: nat)
    requires i + 1 < |t|
  {
    t[i] in stats && t[i + 1] in stats && !After(stats, t[i], t[i + 1])
  }

  /** The comparator gives no preference between any two teams. */
  predicate Tied(stats: map<TeamId, GroupTeamStat>, table: Table) {
    forall x, y :: x in table && y in table ==>
      x in stats && y in stats && FirstDiff(stats[x].rangeCriteria, stats[y].rangeCriteria, 0).None?
  }

  lemma InsertRanked(stats: map<TeamId, GroupTeamStat>, p: Table, j: nat, x: TeamId)
    requires Ranked(stats, p) && j <= |p| && x in stats
    requires 0 < j ==> p[j - 1] in stats && !After(stats, p[j - 1], x)
    requires j < |p| ==> p[j] in stats && !After(stats, x, p[j])
    ensures Ranked(stats, p[..j] + [x] + p[j..])
  {
    var t := p[..j] + [x] + p[j..];
    forall i | 0 <= i < |t| - 1
      ensures RankedAt(stats, t, i)
    {
      if i + 1 < j {
        assert t[i] == p[i] && t[i + 1] == p[i + 1] && RankedAt(stats, p, i);
      } else if i + 1 == j {
        assert t[i] == p[j - 1] && t[i + 1] == x;
      } else if i == j {
        assert t[i] == x && t[i + 1] == p[j];
      } else {
        assert t[i] == p[i - 1] && t[i + 1] == p[i] && RankedAt(stats, p, i - 1);
      }
    }
  }

  /** One pass of the insertion sort: move `s[i]` left, one swap at a
      time, past every team the comparator puts after it. */
  method InsertAt(s: Table, i: nat, stats: map<TeamId, GroupTeamStat>) returns (r: Result<Table>, ghost j: nat)
    requires i < |s|
    ensures r.Err? ==> r.error == Crash && exists k :: 0 <= k <= i && s[k] !in stats
    ensures i == 0 || (forall k :: 0 <= k <= i ==> s[k] in stats) ==> r.Ok?
    ensures r.Ok? ==> j <= i && r.value == s[..j] + [s[i]] + s[j..i] + s[i + 1..]
    ensures r.Ok? && 0 < j && s[j - 1] in stats && s[i] in stats ==> !After(stats, s[j - 1], s[i])
    ensures r.Ok? && j < i ==> s[j] in stats && s[i] in stats && After(stats, s[j], s[i])
  {
    var t := s;
    var x := s[i];
    var k := i;
    while k > 0
      invariant 0 <= k <= i && t == s[..k] + [x] + s[k..i] + s[i + 1..]
      invariant k < i ==> s[k] in stats && x in stats && After(stats, s[k], x)
    {
      assert t[k - 1] == s[k - 1] && t[k] == x;
      var c := Compare(stats, t[k - 1], t[k]);
      if c.Err? {
        return Err(c.error), k;
      }
      if !(c.value.Some? && c.value.value > 0) {
        break;
      }
      t := t[k - 1 := x][k := s[k - 1]];
      assert t == s[..k - 1] + [x] + s[k - 1..i] + s[i + 1..];
      k := k - 1;
    }
    j := k;
    r := Ok(t);
  }

  /** One pass of the insertion sort only moves `s[i]` within the prefix:
      the table stays a permutation of the input and the rest is untouched. */
  lemma InsertPermutes(table: Table, s: Table, i: nat, j: nat, next: Table)
    requires |s| == |table| && j <= i < |s|
    requires multiset(s) == multiset(table) && s[i..] == table[i..]
    requires next == s[..j] + [s[i]] + s[j..i] + s[i + 1..]
    ensures multiset(next) == multiset(table) && next[i + 1..] == table[i + 1..]
  {
    var a, b, x, rest := s[..j], s[j..i], s[i], s[i + 1..];
    assert s == a + b + [x] + rest;
    assert multiset(s) == multiset(a) + multiset(b) + multiset([x]) + multiset(rest);
    assert multiset(next) == multiset(a) + multiset([x]) + multiset(b) + multiset(rest);
    assert next[i + 1..] == rest;
  }

  /** One pass of the insertion sort extends the ranked prefix by one. */
  lemma InsertExtendsRanked(stats: map<TeamId, GroupTeamStat>, table: Table, s: Table, i: nat, j: nat, next: Table)
    requires |s| == |table| && j <= i < |s|
    requires multiset(s) == multiset(table) && Rankable(stats, table) && Ranked(stats, s[..i])
    requires next == s[..j] + [s[i]] + s[j..i] + s[i + 1..]
    requires 0 < j && s[j - 1] in stats && s[i] in stats ==> !After(stats, s[j - 1], s[i])
    requires j < i ==> s[j] in stats && s[i] in stats && After(stats, s[j], s[i])
    ensures Ranked(stats, next[..i + 1])
  {
    var p, x := s[..i], s[i];
    assert x in multiset(table);
    if j > 0 {
      assert s[j - 1] in multiset(table);
    }
    if j < i {
      assert s[j] in multiset(table);
      FirstDiffAntisymmetric(stats[x].rangeCriteria, stats[s[j]].rangeCriteria, 0);
    }
    assert p[..j] == s[..j] && p[j..] == s[j..i];
    InsertRanked(stats, p, j, x);
    assert next[..i + 1] == p[..j] + [x] + p[j..];
  }

  /** When the comparator ties every pair, a pass moves nothing. */
  lemma InsertKeepsTied(stats: map<TeamId, GroupTeamStat>, table: Table, i: nat, j: nat)
    requires j <= i < |table| && Tied(stats, table)
    requires j < i ==> table[j] in stats && table[i] in stats && After(stats, table[j], table[i])
    ensures j == i
  {
  }

  /** Two permutations of each other have the same members. */
  lemma SameMembers(s: Table, t: Table)
    requires multiset(s) == multiset(t)
    ensures forall x :: x in s <==> x in t
  {
    forall x
      ensures x in s <==> x in t
    {
      assert x in s <==> x in multiset(s);
    }
  }

  /** One outer step of the sort: insert `s[i]` into the sorted prefix,
      keeping the loop's invariants. */
  method SortStep(table: Table, stats: map<TeamId, GroupTeamStat>, s: Table, i: nat) returns (r: Result<Table>)
    requires |s| == |table| && i < |s|
    requires multiset(s) == multiset(table) && s[i..] == table[i..]
    requires Rankable(stats, table) ==> Ranked(stats, s[..i])
    requires Tied(stats, table) ==> s == table
    ensures r.Err? ==> r.error == Crash && exists x :: x in table && x !in stats
    ensures (forall x :: x in table ==> x in stats) ==> r.Ok?
    ensures r.Ok? ==> |r.value| == |table| && multiset(r.value) == multiset(table)
    ensures r.Ok? ==> r.value[i + 1..] == table[i + 1..]
    ensures r.Ok? && Rankable(stats, table) ==> Ranked(stats, r.value[..i + 1])
    ensures r.Ok? && Tied(stats, table) ==> r.value == table
    ensures i == 0 ==> r == Ok(s)
  {
    SameMembers(s, table);
    var next, j := InsertAt(s, i, stats);
    if next.Err? {
      return Err(next.error);
    }
    InsertPermutes(table, s, i, j, next.value);
    if Rankable(stats, table) {
      InsertExtendsRanked(stats, table, s, i, j, next.value);
    }
    if Tied(stats, table) {
      InsertKeepsTied(stats, table, i, j);
      assert next.value == s[..i] + [s[i]] + s[i + 1..];
    }
    if i == 0 {
      assert next.value == [s[0]] + s[1..] == s;
    }
    r := next;
  }

  /** Sort one table by the comparator, best first; a stable insertion
      sort stands in for the runtime's sort. A team without stats makes the
      comparator throw. */
  method SortTable(table: Table, stats: map<TeamId, GroupTeamStat>) returns (r: Result<Table>)
    ensures |table| <= 1 ==> r == Ok(table)
    ensures (forall x :: x in table ==> x in stats) ==> r.Ok?
    ensures r.Err? ==> r.error == Crash && exists x :: x in table && x !in stats
    ensures r.Ok? ==> multiset(r.value) == multiset(table)
    ensures r.Ok? && Rankable(stats, table) ==> Ranked(stats, r.value)
    ensures r.Ok? && Tied(stats, table) ==> r.value == table
  {
    var s := table;
    var i := 0;
    while i < |s|
      invariant |s| == |table| && 0 <= i <= |s|
      invariant multiset(s) == multiset(table)
      invariant s[i..] == table[i..]
      invariant Rankable(stats, table) ==> Ranked(stats, s[..i])
      invariant Tied(stats, table) ==> s == table
      invariant |table| <= 1 ==> s == table
    {
      var next := SortStep(table, stats, s, i);
      if next.Err? {
        return next;
      }
      s := next.value;
      i := i + 1;
    }
    assert s[..i] == s;
    r := Ok(s);
  }

  // ---------------------------------------------------- starting stats

  /** The standing a team starts with: its seed and nothing earned. */
  function StartStat(seed: int): GroupTeamStat {
    GroupTeamStat(Some(seed), Some(0), [0, 0, 0, 0, 0], [0, 0], [0, 0], [Some(0)])
  }

  /** The starting standings, one per listed team, built left to right; a
      team listed twice keeps the seed of its last position. */
  function StartingStats(teams: seq<TeamId>): (r: map<TeamId, GroupTeamStat>)
    ensures r.Keys == SetOf(teams)
  {
    if teams == [] then map[]
    else StartingStats(teams[..|teams| - 1])[teams[|teams| - 1] := StartStat(|teams|)]
  }

  /** The team at position `i`, listed nowhere after it, is seeded `i + 1`
      with nothing earned; with no repeated ids, team `i` has seed `i + 1`. */
  lemma {:induction false} StartingSeed(teams: seq<TeamId>, i: nat)
    requires i < |teams| && forall j :: i < j < |teams| ==> teams[j] != teams[i]
    ensures teams[i] in StartingStats(teams) && StartingStats(teams)[teams[i]] == StartStat(i + 1)
  {
    var n := |teams| - 1;
    if i < n {
      StartingSeed(teams[..n], i);
    }
  }

  // ------------------------------------------------------------ checks

  /** All tables one after the other (`flat`). */
  function Flat(tables: seq<Table>): seq<TeamId> {
    if tables == [] then [] else Flat(tables[..|tables| - 1]) + tables[|tables| - 1]
  }

  lemma {:induction false} FlatMembers(tables: seq<Table>)
    ensures forall x :: x in Flat(tables) <==> exists i :: 0 <= i < |tables| && x in tables[i]
  {
    if tables != [] {
      var n := |tables| - 1;
      FlatMembers(tables[..n]);
      forall x
        ensures x in Flat(tables) <==> exists i :: 0 <= i < |tables| && x in tables[i]
      {
        if x in Flat(tables[..n]) {
          var i :| 0 <= i < n && x in tables[..n][i];
          assert x in tables[i];
        }
        if exists i :: 0 <= i < |tables| && x in tables[i] {
          var i :| 0 <= i < |tables| && x in tables[i];
          if i < n {
            assert x in tables[..n][i];
          }
        }
      }
    }
  }

  /** A list has no more distinct elements than entries. */
  lemma {:induction false} SetOfBound(s: seq<TeamId>)
    ensures |SetOf(s)| <= |s|
  {
    if s != [] {
      var n := |s| - 1;
      SetOfBound(s[..n]);
      assert SetOf(s) == SetOf(s[..n]) + {s[n]};
    }
  }

  /** A list has exactly as many distinct elements as entries exactly when
      no entry repeats. */
  lemma SetOfDistinct(s: seq<TeamId>)
    ensures |SetOf(s)| == |s| <==> Distinct(s)
  {
    if Distinct(s) {
      DistinctCard(s);
      assert SetOf(s) == set x | x in s;
    } else {
      var i, j :| 0 <= i < j < |s| && s[i] == s[j];
      var t := s[..j] + s[j + 1..];
      assert s == s[..j] + [s[j]] + s[j + 1..];
      assert s[j] == t[i];
      assert SetOf(s) == SetOf(t);
      SetOfBound(t);
    }
  }

  /** The table check: at least one table, every team a member of the
      group, and no team twice. */
  predicate CheckTables(teams: seq<TeamId>, tables: seq<Table>) {
    && |tables| > 0
    && (forall x :: x in Flat(tables) ==> x in teams)
    && |Flat(tables)| == |SetOf(Flat(tables))|
  }

  /** Tables pass the check exactly when there is one, they hold only
      members, and no team appears twice, in one table or in two. */
  lemma CheckTablesMeaning(teams: seq<TeamId>, tables: seq<Table>)
    ensures CheckTables(teams, tables) <==>
              && |tables| > 0
              && (forall i, x :: 0 <= i < |tables| && x in tables[i] ==> x in teams)
              && Distinct(Flat(tables))
  {
    SetOfDistinct(Flat(tables));
    FlatMembers(tables);
    assert (forall x :: x in Flat(tables) ==> x in teams) <==>
           (forall i, x :: 0 <= i < |tables| && x in tables[i] ==> x in teams);
  }

  /** Every match is between members. */
  predicate CheckMatches(teams: seq<TeamId>, infos: seq<Matches.MatchInfo>) {
    forall i :: 0 <= i < |infos| ==> infos[i].homeTeamId in teams && infos[i].awayTeamId in teams
  }

  /** Every series is between members. */
  predicate CheckSeries(teams: seq<TeamId>, infos: seq<Series.SeriaInfo>) {
    forall i :: 0 <= i < |infos| ==> infos[i].upSeedTeamId in teams && infos[i].downSeedTeamId in teams
  }

  // -------------------------------------------------------- stage info

  /** The tables of the latest stage that has any. */
  function LatestTables(progress: seq<StageProgress>): (r: Option<seq<Table>>)
    ensures r.None? <==> forall i :: 0 <= i < |progress| ==> progress[i].tables.None?
    ensures r.Some? ==> exists i :: 0 <= i < |progress| && progress[i].tables == r
                                    && forall j :: i < j < |progress| ==> progress[j].tables.None?
  {
    if progress == [] then None
    else
      var n := |progress| - 1;
      if progress[n].tables.Some? then progress[n].tables
      else
        var r := LatestTables(progress[..n]);
        assert forall i :: 0 <= i < n ==> progress[..n][i] == progress[i];
        assert r.Some? ==> exists i :: 0 <= i < |progress| && progress[i].tables == r
                                       && forall j :: i < j < |progress| ==> progress[j].tables.None? by {
          if r.Some? {
            var i :| 0 <= i < n && progress[..n][i].tables == r
                     && forall j :: i < j < n ==> progress[..n][j].tables.None?;
            assert forall j :: i < j < |progress| ==> progress[j].tables.None?;
          }
        }
        r
  }

  datatype StageInfo = StageInfo(tables: seq<Table>, games: StageGames)

  /** The current stage: its games, and the tables of the latest stage that
      has them. With no stage, or no stage with tables, the lookup
      dereferences undefined and throws. */
  function GetStageInfo(progress: seq<StageProgress>): (r: Result<StageInfo>)
    ensures r.Err? <==> progress == [] || forall i :: 0 <= i < |progress| ==> progress[i].tables.None?
    ensures r.Err? ==> r.error == Crash
    ensures r.Ok? ==> r.value.games == progress[|progress| - 1].games
    ensures r.Ok? && progress[|progress| - 1].tables.Some? ==> r.value.tables == progress[|progress| - 1].tables.value
    ensures r.Ok? ==> exists i :: 0 <= i < |progress| && progress[i].tables == Some(r.value.tables)
  {
    if progress == [] then Err(Crash)
    else
      var last := progress[|progress| - 1];
      if last.tables.Some? then Ok(StageInfo(last.tables.value, last.games))
      else
        match LatestTables(progress)
        case None => Err(Crash)
        case Some(t) => Ok(StageInfo(t, last.games))
  }

  /** An absent list reads as empty (a destructuring default of `[]`). */
  function Listed<T>(o: Option<seq<T>>): seq<T> {
    if o.Some? then o.value else []
  }

  function PendingMatch(db: Db, listed: seq<Id>): Id -> bool {
    k => k in db.matches && k in listed && !db.matches[k].isComplete
  }

  function PendingSeria(db: Db, listed: seq<Id>): Id -> bool {
    k => k in db.series && k in listed && !db.series[k].isComplete
  }

  /** The stage is complete when, among the group's matches and series,
      none that the stage lists is incomplete (the count of such is zero). */
  predicate StageComplete(db: Db, gid: Id, games: StageGames) {
    && CountIf(MatchIdsOf(db, gid), PendingMatch(db, Listed(games.matches))) == 0
    && CountIf(SeriaIdsOf(db, gid), PendingSeria(db, Listed(games.series))) == 0
  }

  /** Nothing is counted exactly when no member satisfies the filter. */
  lemma NoneCounted(s: seq<Id>, p: Id -> bool)
    ensures CountIf(s, p) == 0 <==> forall k :: k in s ==> !p(k)
  {
    CountIfZero(s, p);
    if CountIf(s, p) == 0 {
      forall k | k in s
        ensures !p(k)
      {
        var i :| 0 <= i < |s| && s[i] == k;
      }
    }
  }

  predicate MatchesDone(db: Db, gid: Id, listed: seq<Id>) {
    forall k :: (k in db.matches && k < db.nextId && db.matches[k].belongId == Some(gid) && k in listed)
                ==> db.matches[k].isComplete
  }

  predicate SeriesDone(db: Db, gid: Id, listed: seq<Id>) {
    forall k :: (k in db.series && k < db.nextId && db.series[k].belongId == Some(gid) && k in listed)
                ==> db.series[k].isComplete
  }

  /** A stage is complete exactly when every match and every series of the
      group that the stage lists is complete. */
  lemma StageCompleteMeaning(db: Db, gid: Id, games: StageGames)
    ensures StageComplete(db, gid, games) <==>
              MatchesDone(db, gid, Listed(games.matches)) && SeriesDone(db, gid, Listed(games.series))
  {
    NoneCounted(MatchIdsOf(db, gid), PendingMatch(db, Listed(games.matches)));
    NoneCounted(SeriaIdsOf(db, gid), PendingSeria(db, Listed(games.series)));
  }

  // ---------------------------------------------------------- recompute

  /** A team's tallies from each of the listed series, in order. */
  function SeriesStats(db: Db, ids: seq<Id>, t: TeamId): (r: seq<TeamStat>)
    requires forall k :: k in ids ==> k in db.series
    ensures |r| == |ids|
    ensures forall i :: 0 <= i < |ids| ==> Series.GetTeamStatByMatches(db, ids[i], t) == Ok(r[i]) && r[i].WellFormed()
  {
    seq(|ids|, i requires 0 <= i < |ids| => Series.GetTeamStatByMatches(db, ids[i], t).value)
  }

  /** The loop collecting a team's tallies from every series of the group. */
  method CollectSeriesStats(db: Db, ids: seq<Id>, t: TeamId) returns (stats: seq<TeamStat>)
    requires forall k :: k in ids ==> k in db.series
    ensures stats == SeriesStats(db, ids, t)
  {
    stats := [];
    var i := 0;
    while i < |ids|
      invariant 0 <= i <= |ids| && stats == SeriesStats(db, ids[..i], t)
    {
      var s := Series.GetTeamStatByMatches(db, ids[i], t);
      stats := stats + [s.value];
      i := i + 1;
    }
    assert ids[..i] == ids;
  }

  /** The element-wise sum of a first tally and the rest, left to right. */
  function SumStats(first: TeamStat, rest: seq<TeamStat>): (r: TeamStat)
    requires first.WellFormed() && forall i :: 0 <= i < |rest| ==> rest[i].WellFormed()
    ensures r.WellFormed()
  {
    if rest == [] then first
    else TeamStats.Plus(SumStats(first, rest[..|rest| - 1]), rest[|rest| - 1])
  }

  /** The convolution: fold every further tally into the first. */
  method Convolve(first: TeamStat, rest: seq<TeamStat>) returns (acc: TeamStat)
    requires first.WellFormed() && forall i :: 0 <= i < |rest| ==> rest[i].WellFormed()
    ensures acc == SumStats(first, rest)
  {
    acc := first;
    var i := 0;
    while i < |rest|
      invariant 0 <= i <= |rest| && acc == SumStats(first, rest[..i])
    {
      TakeOneMore(rest, i);
      acc := TeamStats.Plus(acc, rest[i]);
      i := i + 1;
    }
    assert rest[..i] == rest;
  }

  /** The games a tally records, won and lost together. */
  function GamesOf(s: TeamStat): int
    requires s.WellFormed()
  {
    s.totalGames[0] + s.totalGames[1]
  }

  function IsCompleteSeria(db: Db): Id -> bool {
    k => k in db.series && db.series[k].isComplete
  }

  /** Every complete series adds one game to every team's tally, won or
      lost, whether or not the team played in it. */
  lemma {:induction false} SeriesGamesCharged(db: Db, first: TeamStat, ids: seq<Id>, t: TeamId)
    requires first.WellFormed() && forall k :: k in ids ==> k in db.series
    ensures GamesOf(SumStats(first, SeriesStats(db, ids, t))) == GamesOf(first) + CountIf(ids, IsCompleteSeria(db))
  {
    if ids != [] {
      var n := |ids| - 1;
      SeriesGamesCharged(db, first, ids[..n], t);
      assert SeriesStats(db, ids, t)[..n] == SeriesStats(db, ids[..n], t);
    }
  }

  /** A team's tallies over the group: its direct group matches, then each
      series of the group. */
  function Recomputed(db: Db, gid: Id, t: TeamId): (r: TeamStat)
    ensures r.WellFormed()
  {
    var byMatches := TeamStats.TeamStatByMatches(t, MatchesAt(db.matches, MatchIdsOf(db, gid)));
    SumStats(byMatches, SeriesStats(db, SeriaIdsOf(db, gid), t))
  }

  /** A team is charged one game per counted group match and one per
      complete group series. */
  lemma GamesCharged(db: Db, gid: Id, t: TeamId)
    ensures GamesOf(Recomputed(db, gid, t))
            == TeamStats.CountCounted(t, MatchesAt(db.matches, MatchIdsOf(db, gid)))
               + CountIf(SeriaIdsOf(db, gid), IsCompleteSeria(db))
  {
    var byMatches := TeamStats.TeamStatByMatches(t, MatchesAt(db.matches, MatchIdsOf(db, gid)));
    SeriesGamesCharged(db, byMatches, SeriaIdsOf(db, gid), t);
  }

  /** A team's new standing from its tallies: the seed carried over from its
      previous standing (undefined without one), the points, and the
      ranking vector built from them. */
  function Standing(g: Group, t: TeamId, s: TeamStat): GroupTeamStat
    requires s.WellFormed()
  {
    var seed := if t in g.stats then g.stats[t].seed else None;
    var points := Points(g.pointKoeffs, s.totalMatchesStat);
    GroupTeamStat(seed, points, s.totalMatchesStat, s.totalScore, s.totalGames,
                  RangeCriteria(g.placesCriteria, seed, points, s.totalGames[0]))
  }

  /** A recomputed ranking vector has one entry per criterion; with a seed
      and at least two coefficients every entry is a number. */
  lemma StandingRanking(g: Group, t: TeamId, s: TeamStat)
    requires s.WellFormed()
    ensures |Standing(g, t, s).rangeCriteria| == |g.placesCriteria|
    ensures t in g.stats && g.stats[t].seed.Some? && |g.pointKoeffs| >= 2 ==> Defined(Standing(g, t, s).rangeCriteria)
  {
    PointsDefined(g.pointKoeffs, s.totalMatchesStat);
  }

  /** The new standings of a recompute over `teamIds`: those teams get
      their standing from the group's games; every other team keeps its
      previous one. */
  predicate Restated(db: Db, gid: Id, g: Group, teamIds: seq<TeamId>, stats: map<TeamId, GroupTeamStat>) {
    && stats.Keys == g.stats.Keys + SetOf(teamIds)
    && (forall t :: t in teamIds ==> stats[t] == Standing(g, t, Recomputed(db, gid, t)))
    && (forall t :: t in g.stats && t !in teamIds ==> stats[t] == g.stats[t])
  }

  lemma RestatedUnique(db: Db, gid: Id, g: Group, teamIds: seq<TeamId>, a: map<TeamId, GroupTeamStat>,
                       b: map<TeamId, GroupTeamStat>)
    requires Restated(db, gid, g, teamIds, a) && Restated(db, gid, g, teamIds, b)
    ensures a == b
  {
  }

  function NewStatsOf(db: Db, gid: Id, g: Group, teamIds: seq<TeamId>): (stats: map<TeamId, GroupTeamStat>)
    ensures Restated(db, gid, g, teamIds, stats)
  {
    map t | t in g.stats.Keys + SetOf(teamIds) ::
      if t in teamIds then Standing(g, t, Recomputed(db, gid, t)) else g.stats[t]
  }

  /** The recompute loop: the listed teams get their standing from the
      group's games; every other team keeps its previous one. */
  method NewStats(db: Db, gid: Id, g: Group, teamIds: seq<TeamId>) returns (stats: map<TeamId, GroupTeamStat>)
    ensures stats == NewStatsOf(db, gid, g, teamIds)
  {
    var matches := MatchesAt(db.matches, MatchIdsOf(db, gid));
    var series := SeriaIdsOf(db, gid);
    stats := g.stats;
    var i := 0;
    assert teamIds[..0] == [];
    while i < |teamIds|
      invariant 0 <= i <= |teamIds|
      invariant Overlaid(g.stats, teamIds[..i], StandingsOf(db, gid, g), stats)
    {
      var t := teamIds[i];
      var byMatches := TeamStats.TeamStatByMatches(t, matches);
      var bySeries := CollectSeriesStats(db, series, t);
      var sum := Convolve(byMatches, bySeries);
      OverlaidStep(g.stats, teamIds, i, StandingsOf(db, gid, g), stats);
      stats := stats[t := Standing(g, t, sum)];
      i := i + 1;
    }
    assert teamIds[..i] == teamIds;
    OverlaidNewStats(db, gid, g, teamIds, stats);
  }

  /** The recomputed standing of every team, as a function. */
  function StandingsOf(db: Db, gid: Id, g: Group): TeamId -> GroupTeamStat {
    t => Standing(g, t, Recomputed(db, gid, t))
  }

  /** The loop's overlay is the specified recompute. */
  lemma OverlaidNewStats(db: Db, gid: Id, g: Group, teamIds: seq<TeamId>, stats: map<TeamId, GroupTeamStat>)
    requires Overlaid(g.stats, teamIds, StandingsOf(db, gid, g), stats)
    ensures stats == NewStatsOf(db, gid, g, teamIds)
  {
    assert Restated(db, gid, g, teamIds, stats);
    RestatedUnique(db, gid, g, teamIds, stats, NewStatsOf(db, gid, g, teamIds));
  }

  // --------------------------------------------------------- completion

  /** `sorted` is each table of `tables` put in order: the same teams, ranked
      whenever the comparator can rank them, untouched when all tie. */
  predicate SortedTables(stats: map<TeamId, GroupTeamStat>, tables: seq<Table>, sorted: seq<Table>) {
    && |sorted| == |tables|
    && forall i :: 0 <= i < |tables| ==>
         && multiset(sorted[i]) == multiset(tables[i])
         && (Rankable(stats, tables[i]) ==> Ranked(stats, sorted[i]))
         && (Tied(stats, tables[i]) ==> sorted[i] == tables[i])
  }

  /** Every team of the tables has a standing. */
  predicate TablesStatted(stats: map<TeamId, GroupTeamStat>, tables: seq<Table>) {
    forall i, x :: 0 <= i < |tables| && x in tables[i] ==> x in stats
  }

  /** Sort every table of a stage. */
  method SortTables(tables: seq<Table>, stats: map<TeamId, GroupTeamStat>) returns (r: Result<seq<Table>>)
    ensures TablesStatted(stats, tables) ==> r.Ok?
    ensures r.Err? ==> r.error == Crash && !TablesStatted(stats, tables)
    ensures r.Ok? ==> SortedTables(stats, tables, r.value)
  {
    var sorted := [];
    var i := 0;
    while i < |tables|
      invariant 0 <= i <= |tables|
      invariant SortedTables(stats, tables[..i], sorted)
    {
      var s := SortTable(tables[i], stats);
      if s.Err? {
        var x :| x in tables[i] && x !in stats;
        return Err(s.error);
      }
      sorted := sorted + [s.value];
      i := i + 1;
    }
    assert tables[..i] == tables;
    r := Ok(sorted);
  }

  /** `sorted` is the progress with every stage's tables sorted and all
      else as it was. */
  predicate SortedProgress(stats: map<TeamId, GroupTeamStat>, progress: seq<StageProgress>, sorted: seq<StageProgress>) {
    && |sorted| == |progress|
    && forall i :: 0 <= i < |progress| ==>
         && sorted[i].games == progress[i].games
         && sorted[i].tables.Some? == progress[i].tables.Some?
         && (progress[i].tables.Some? ==> SortedTables(stats, progress[i].tables.value, sorted[i].tables.value))
  }

  /** Every team of every stage's tables has a standing. */
  predicate ProgressStatted(stats: map<TeamId, GroupTeamStat>, progress: seq<StageProgress>) {
    forall i :: 0 <= i < |progress| && progress[i].tables.Some? ==> TablesStatted(stats, progress[i].tables.value)
  }

  /** The completion results: every stage's tables sorted in place, a null
      table list left null. Sorting in place also reorders the tables of
      the group's progress, so the new progress is returned. */
  method CompletionResults(progress: seq<StageProgress>, stats: map<TeamId, GroupTeamStat>)
    returns (r: Result<seq<StageProgress>>)
    ensures ProgressStatted(stats, progress) ==> r.Ok?
    ensures r.Err? ==> r.error == Crash && !ProgressStatted(stats, progress)
    ensures r.Ok? ==> SortedProgress(stats, progress, r.value)
  {
    var sorted := [];
    var i := 0;
    while i < |progress|
      invariant 0 <= i <= |progress|
      invariant SortedProgress(stats, progress[..i], sorted)
    {
      var stage := progress[i];
      if stage.tables.Some? {
        var s := SortTables(stage.tables.value, stats);
        if s.Err? {
          assert !TablesStatted(stats, progress[i].tables.value);
          return Err(s.error);
        }
        sorted := sorted + [stage.(tables := Some(s.value))];
      } else {
        sorted := sorted + [stage];
      }
      i := i + 1;
    }
    assert progress[..i] == progress;
    r := Ok(sorted);
  }

  /** The frozen result: the tables of every stage. */
  function Results(progress: seq<StageProgress>): (r: seq<Option<seq<Table>>>)
    ensures |r| == |progress| && forall i :: 0 <= i < |progress| ==> r[i] == progress[i].tables
  {
    seq(|progress|, i requires 0 <= i < |progress| => progress[i].tables)
  }

  /** What every stored group satisfies: it has a stage, its result is set
      exactly when it is complete, and a complete group is on its last
      stage. */
  predicate GroupInv(g: Group) {
    && |g.progress| > 0
    && (g.result.Some? <==> g.isComplete)
    && (g.isComplete ==> |g.progress| == g.stages)
  }

  /** The teams a recompute covers: the listed ones, or all. */
  function Covered(g: Group, teams: Option<seq<TeamId>>): seq<TeamId> {
    if teams.Some? then teams.value else g.teams
  }

  /** Recompute and store a group: new standings for the covered teams, the
      completion flag, and on completion the frozen, sorted result. */
  method UpdateGroup(db: Db, gid: Id, g: Group, teams: Option<seq<TeamId>>) returns (r: Result<(Db, Group)>)
    requires gid in db.groups
    ensures GetStageInfo(g.progress).Err? ==> r == Err(Crash)
    ensures r.Err? ==> r.error == Crash
    ensures r.Ok? ==>
              var (db', g') := r.value;
              var stage := GetStageInfo(g.progress);
              && stage.Ok?
              && db' == db.(groups := db.groups[gid := g'])
              && g' == g.(stats := g'.stats, isComplete := g'.isComplete, result := g'.result, progress := g'.progress)
              && g'.stats == NewStatsOf(db, gid, g, Covered(g, teams))
              && (g'.isComplete <==> StageComplete(db, gid, stage.value.games) && g.stages == |g.progress|)
              && (!g'.isComplete ==> g'.result.None? && g'.progress == g.progress)
              && (g'.isComplete ==> SortedProgress(g'.stats, g.progress, g'.progress)
                                    && g'.result == Some(Results(g'.progress)))
    ensures r.Ok? && |g.progress| > 0 ==> GroupInv(r.value.1)
    ensures var stage := GetStageInfo(g.progress);
            r.Err? ==> stage.Err? || (&& StageComplete(db, gid, stage.value.games) && g.stages == |g.progress|
                                      && !ProgressStatted(NewStatsOf(db, gid, g, Covered(g, teams)), g.progress))
    ensures GetStageInfo(g.progress).Ok? && ProgressStatted(NewStatsOf(db, gid, g, Covered(g, teams)), g.progress)
            ==> r.Ok?
  {
    var stats := NewStats(db, gid, g, Covered(g, teams));
    var stage := GetStageInfo(g.progress);
    if stage.Err? {
      return Err(stage.error);
    }
    var isComplete := StageComplete(db, gid, stage.value.games) && g.stages == |g.progress|;
    var g' := g.(stats := stats, isComplete := isComplete, result := None);
    if isComplete {
      var sorted := CompletionResults(g.progress, stats);
      if sorted.Err? {
        return Err(sorted.error);
      }
      g' := g'.(progress := sorted.value, result := Some(Results(sorted.value)));
    }
    r := Ok((db.(groups := db.groups[gid := g']), g'));
  }

  /** What a recompute over the store `db` makes of group `g`: new standings
      for the covered teams; complete exactly when the current stage's games
      are all done and it is the last planned stage; on completion the
      stages re-sorted by the new standings and the result frozen from
      them, otherwise no result and the stages as they were. */
  ghost predicate Refreshed(db: Db, gid: Id, g: Group, covered: seq<TeamId>, g': Group) {
    && GetStageInfo(g.progress).Ok?
    && g' == g.(stats := g'.stats, isComplete := g'.isComplete, result := g'.result, progress := g'.progress)
    && g'.stats == NewStatsOf(db, gid, g, covered)
    && (g'.isComplete <==> StageComplete(db, gid, GetStageInfo(g.progress).value.games) && g.stages == |g.progress|)
    && (!g'.isComplete ==> g'.result.None? && g'.progress == g.progress)
    && (g'.isComplete ==> SortedProgress(g'.stats, g.progress, g'.progress) && g'.result == Some(Results(g'.progress)))
    && GroupInv(g')
  }

  // -------------------------------------------------------------- games

  /** New games as a caller passes them; either list may be absent. */
  datatype Games = Games(matches: Option<seq<Matches.MatchInfo>>, series: Option<seq<Series.SeriaInfo>>)

  /** The caller's matches, each made to belong to the group. */
  function StampedMatches(infos: seq<Matches.MatchInfo>, gid: Id): (r: seq<Matches.MatchInfo>)
    ensures |r| == |infos| && forall i :: 0 <= i < |infos| ==> r[i] == infos[i].(belongId := Some(gid))
  {
    seq(|infos|, i requires 0 <= i < |infos| => infos[i].(belongId := Some(gid)))
  }

  /** The caller's series, each made to belong to the group. */
  function StampedSeries(infos: seq<Series.SeriaInfo>, gid: Id): (r: seq<Series.SeriaInfo>)
    ensures |r| == |infos| && forall i :: 0 <= i < |infos| ==> r[i] == infos[i].(belongId := Some(gid))
  {
    seq(|infos|, i requires 0 <= i < |infos| => infos[i].(belongId := Some(gid)))
  }

  /** The error of the first match whose create fails. */
  function MatchesError(teams: set<TeamId>, infos: seq<Matches.MatchInfo>): Option<Error> {
    FirstError(infos, info => Matches.CreateError(teams, info))
  }

  lemma MatchesErrorStep(teams: set<TeamId>, infos: seq<Matches.MatchInfo>, i: nat)
    requires i < |infos| && MatchesError(teams, infos[..i]).None?
    ensures MatchesError(teams, infos[..i + 1]) == Matches.CreateError(teams, infos[i])
  {
    TakeOneMore(infos, i);
  }

  /** The store after one match was created per element of `infos`, in
      order, under the next ids. */
  ghost predicate MatchesCreated(db: Db, db': Db, infos: seq<Matches.MatchInfo>, ids: seq<Id>) {
    && |ids| == |infos| && db'.Valid()
    && db' == db.(matches := db'.matches, nextId := db.nextId + |infos|)
    && (forall i :: 0 <= i < |ids| ==> ids[i] == db.nextId + i)
    && (forall i :: 0 <= i < |ids| ==> ids[i] in db'.matches && db'.matches[ids[i]] == Matches.NewMatch(infos[i]))
    && (forall k :: k in db'.matches <==> k in db.matches || db.nextId <= k < db.nextId + |infos|)
    && (forall k :: k in db.matches ==> db'.matches[k] == db.matches[k])
  }

  /** The creation loop over matches, stopping at the first failure. */
  method CreateMatches(db: Db, infos: seq<Matches.MatchInfo>) returns (r: Result<(Db, seq<Id>)>)
    requires db.Valid()
    ensures var e := MatchesError(db.teams, infos);
            (r.Err? <==> e.Some?) && (r.Err? ==> e == Some(r.error))
    ensures r.Ok? ==> MatchesCreated(db, r.value.0, infos, r.value.1)
  {
    var cur := db;
    var ids := [];
    var i := 0;
    while i < |infos|
      invariant 0 <= i <= |infos|
      invariant MatchesError(db.teams, infos[..i]).None?
      invariant MatchesCreated(db, cur, infos[..i], ids)
    {
      var created := CreateNextMatch(db, cur, infos, i, ids);
      if created.Err? {
        FirstErrorPrefix(infos, info => Matches.CreateError(db.teams, info), i + 1);
        return Err(created.error);
      }
      var (next, id) := created.value;
      cur := next;
      ids := ids + [id];
      i := i + 1;
    }
    assert infos[..i] == infos;
    r := Ok((cur, ids));
  }

  /** One turn of the creation loop: create the match of `infos[i]`. */
  method CreateNextMatch(db: Db, cur: Db, infos: seq<Matches.MatchInfo>, i: nat, ids: seq<Id>)
    returns (r: Result<(Db, Id)>)
    requires i < |infos| && MatchesCreated(db, cur, infos[..i], ids)
    requires MatchesError(db.teams, infos[..i]).None?
    ensures r.Err? ==> MatchesError(db.teams, infos[..i + 1]) == Some(r.error)
    ensures r.Ok? ==> && MatchesError(db.teams, infos[..i + 1]).None?
                      && MatchesCreated(db, r.value.0, infos[..i + 1], ids + [r.value.1])
  {
    r := Matches.Create(cur, infos[i]);
    MatchesErrorStep(db.teams, infos, i);
    if r.Ok? {
      MatchesCreatedStep(db, cur, infos, i, ids);
    }
  }

  lemma MatchesCreatedStep(db: Db, cur: Db, infos: seq<Matches.MatchInfo>, i: nat, ids: seq<Id>)
    requires i < |infos| && MatchesCreated(db, cur, infos[..i], ids) && Matches.Create(cur, infos[i]).Ok?
    ensures var (next, id) := Matches.Create(cur, infos[i]).value;
            MatchesCreated(db, next, infos[..i + 1], ids + [id])
  {
    var (next, id) := Matches.Create(cur, infos[i]).value;
    var pre := infos[..i + 1];
    TakeOneMore(infos, i);
    assert id == db.nextId + i;
    forall j | 0 <= j < |ids + [id]|
      ensures (ids + [id])[j] in next.matches && next.matches[(ids + [id])[j]] == Matches.NewMatch(pre[j])
    {
      if j < i {
        assert pre[j] == infos[..i][j];
      }
    }
  }

  /** The stage's id list after pushing `ids`; a list that was absent is
      created only when there is something to push. */
  function Append(before: Option<seq<Id>>, ids: seq<Id>): (r: Option<seq<Id>>)
    ensures ids == [] ==> r == before
    ensures ids != [] ==> r.Some? && r.value == Listed(before) + ids
  {
    if ids == [] then before else Some(Listed(before) + ids)
  }

  /** The error of adding games: the first failing match create, then the
      first failing series create. */
  function GamesError(teams: set<TeamId>, gid: Id, games: Games): Option<Error> {
    var e := MatchesError(teams, StampedMatches(Listed(games.matches), gid));
    if e.Some? then e else Series.CreateAllError(teams, StampedSeries(Listed(games.series), gid))
  }

  /** The group after `mids` and `sids` were pushed onto its current stage. */
  function WithGames(g: Group, mids: seq<Id>, sids: seq<Id>): (g': Group)
    requires |g.progress| > 0
    ensures g'.(progress := g.progress) == g && |g'.progress| == |g.progress|
    ensures g'.progress[..|g.progress| - 1] == g.progress[..|g.progress| - 1]
    ensures g'.progress[|g.progress| - 1].tables == g.progress[|g.progress| - 1].tables
  {
    var n := |g.progress| - 1;
    var last := g.progress[n];
    g.(progress := g.progress[n := StageProgress(last.tables,
        StageGames(Append(last.games.matches, mids), Append(last.games.series, sids)))])
  }

  /** The store after the games were created and the group stored. */
  ghost predicate GamesAdded(db: Db, db': Db, gid: Id, g: Group, games: Games, g': Group, mids: seq<Id>, sids: seq<Id>) {
    var mi, si := StampedMatches(Listed(games.matches), gid), StampedSeries(Listed(games.series), gid);
    && |g.progress| > 0 && |mids| == |mi| && |sids| == |si|
    && g' == WithGames(g, mids, sids)
    && db'.Valid() && Series.Grown(db, db') && db'.playoffs == db.playoffs && db'.groups == db.groups[gid := g']
    && (forall i :: 0 <= i < |mids| ==>
          db.nextId <= mids[i] && mids[i] in db'.matches && db'.matches[mids[i]] == Matches.NewMatch(mi[i]))
    && (forall i :: 0 <= i < |sids| ==> Series.CreatedAt(db, db', si[i], sids[i]))
  }

  /** Create the new games, owned by the group, and push their ids onto the
      current stage. With both lists absent nothing is created and nothing
      is stored: the group is returned as it was given. */
  method AddGames(db: Db, gid: Id, g: Group, games: Games) returns (r: Result<(Db, Group)>, ghost mids: seq<Id>, ghost sids: seq<Id>)
    requires db.Valid() && gid in db.groups
    ensures g.progress == [] ==> r == Err(Crash)
    ensures g.progress != [] && games.matches.None? && games.series.None? ==> r == Ok((db, g))
    ensures g.progress != [] && (games.matches.Some? || games.series.Some?) ==>
              var e := GamesError(db.teams, gid, games);
              (r.Err? <==> e.Some?) && (r.Err? ==> e == Some(r.error))
    ensures r.Ok? && (games.matches.Some? || games.series.Some?) ==>
              GamesAdded(db, r.value.0, gid, g, games, r.value.1, mids, sids)
  {
    mids, sids := [], [];
    if g.progress == [] {
      return Err(Crash), mids, sids;
    }
    if games.matches.None? && games.series.None? {
      return Ok((db, g)), mids, sids;
    }
    var mi := StampedMatches(Listed(games.matches), gid);
    var si := StampedSeries(Listed(games.series), gid);
    var createdMatches := CreateMatches(db, mi);
    if createdMatches.Err? {
      return Err(createdMatches.error), mids, sids;
    }
    var (db1, ms) := createdMatches.value;
    var createdSeries := Series.CreateAll(db1, si);
    if createdSeries.Err? {
      return Err(createdSeries.error), mids, sids;
    }
    var (db2, ss) := createdSeries.value;
    mids, sids := ms, ss;
    var g' := WithGames(g, ms, ss);
    var db' := db2.(groups := db2.groups[gid := g']);
    GamesAddedFrom(db, db1, db2, gid, g, games, ms, ss);
    r := Ok((db', g'));
  }

  lemma GamesAddedFrom(db: Db, db1: Db, db2: Db, gid: Id, g: Group, games: Games, mids: seq<Id>, sids: seq<Id>)
    requires db.Valid() && gid in db.groups && |g.progress| > 0
    requires MatchesCreated(db, db1, StampedMatches(Listed(games.matches), gid), mids)
    requires Series.AllCreated(db1, db2, StampedSeries(Listed(games.series), gid), sids)
    requires db2.playoffs == db1.playoffs && db2.groups == db1.groups
    ensures GamesAdded(db, db2.(groups := db2.groups[gid := WithGames(g, mids, sids)]), gid, g, games,
                       WithGames(g, mids, sids), mids, sids)
  {
    var g' := WithGames(g, mids, sids);
    var db' := db2.(groups := db2.groups[gid := g']);
    var si := StampedSeries(Listed(games.series), gid);
    Series.AllCreatedFrame(db1, db2, si, sids, db2.playoffs, db'.groups);
    assert Series.Grown(db, db1);
    Series.GrownTrans(db, db1, db');
    MatchesStillCreated(db, db1, db', StampedMatches(Listed(games.matches), gid), mids);
    SeriesCreatedSince(db, db1, db', si, sids);
  }

  /** Matches created before the series stay as created. */
  lemma MatchesStillCreated(db: Db, db1: Db, db': Db, infos: seq<Matches.MatchInfo>, mids: seq<Id>)
    requires MatchesCreated(db, db1, infos, mids) && Series.Grown(db1, db')
    ensures forall i :: 0 <= i < |mids| ==>
              db.nextId <= mids[i] && mids[i] in db'.matches && db'.matches[mids[i]] == Matches.NewMatch(infos[i])
  {
  }

  /** Series created after `db1` were created after any earlier `db`. */
  lemma SeriesCreatedSince(db: Db, db1: Db, db': Db, infos: seq<Series.SeriaInfo>, sids: seq<Id>)
    requires Series.AllCreated(db1, db', infos, sids) && db.nextId <= db1.nextId
    ensures forall i :: 0 <= i < |sids| ==> Series.CreatedAt(db, db', infos[i], sids[i])
  {
    forall i | 0 <= i < |sids|
      ensures Series.CreatedAt(db, db', infos[i], sids[i])
    {
      assert Series.CreatedAt(db1, db', infos[i], sids[i]);
    }
  }

  // ------------------------------------------------------------- create

  /** What a caller passes to create a group; every field it gives
      overrides the default. */
  datatype GroupInfo = GroupInfo(
    teams: seq<TeamId>,
    stages: Option<int>,
    placesCriteria: Option<seq<PlacesCriteria>>,
    pointKoeffs: Option<seq<int>>)

  function OrElse<T>(o: Option<T>, d: T): T {
    if o.Some? then o.value else d
  }

  /** A new group: one stage with the given tables and no games, starting
      standings, no result; one stage, ranking by points and one point per
      win unless the caller says otherwise. */
  function NewGroup(info: GroupInfo, tables: Option<seq<Table>>): Group {
    Group(info.teams, OrElse(info.stages, 1), OrElse(info.placesCriteria, [PlacesCriteria.Points]), OrElse(info.pointKoeffs, [1, 0]),
          [StageProgress(tables, StageGames(None, None))], StartingStats(info.teams), None, false)
  }

  function TeamError(teams: set<TeamId>, t: TeamId): Option<Error> {
    if t in teams then None else Some(Error(BadRequest, TeamNotExist(t)))
  }

  /** The validation errors of create, in the order they are checked. */
  function CreateError(teams: set<TeamId>, info: GroupInfo, games: Games, tables: Option<seq<Table>>): Option<Error> {
    var missing := FirstError(info.teams, t => TeamError(teams, t));
    if |info.teams| == 0 then Some(Error(BadRequest, GroupWithoutTeams))
    else if missing.Some? then missing
    else if tables.Some? && !CheckTables(info.teams, tables.value) then Some(Error(BadRequest, IncorrectGroupTables))
    else if !CheckMatches(info.teams, Listed(games.matches)) then Some(Error(BadRequest, IncorrectGroupMatches))
    else if !CheckSeries(info.teams, Listed(games.series)) then Some(Error(BadRequest, IncorrectGroupSeries))
    else None
  }

  /** Create passes validation exactly when the group has teams, all
      existing, the tables pass their check, and every game is between
      members; of several unknown teams, the one listed first is reported. */
  lemma CreateErrorMeaning(teams: set<TeamId>, info: GroupInfo, games: Games, tables: Option<seq<Table>>)
    ensures CreateError(teams, info, games, tables).None? <==>
              && |info.teams| > 0
              && (forall i :: 0 <= i < |info.teams| ==> info.teams[i] in teams)
              && (tables.Some? ==> CheckTables(info.teams, tables.value))
              && CheckMatches(info.teams, Listed(games.matches))
              && CheckSeries(info.teams, Listed(games.series))
    ensures forall i :: 0 <= i < |info.teams| && info.teams[i] !in teams && (forall j :: 0 <= j < i ==> info.teams[j] in teams) ==>
              CreateError(teams, info, games, tables) == Some(Error(BadRequest, TeamNotExist(info.teams[i])))
  {
    var f := t => TeamError(teams, t);
    assert forall i :: 0 <= i < |info.teams| ==> (f(info.teams[i]).None? <==> info.teams[i] in teams);
    forall i | 0 <= i < |info.teams| && info.teams[i] !in teams && (forall j :: 0 <= j < i ==> info.teams[j] in teams)
      ensures CreateError(teams, info, games, tables) == Some(Error(BadRequest, TeamNotExist(info.teams[i])))
    {
      var s := info.teams[..i + 1];
      assert s[..|s| - 1] == info.teams[..i];
      assert FirstError(info.teams[..i], f).None?;
      FirstErrorPrefix(info.teams, f, i + 1);
    }
  }

  /** A group as create makes it: the fields the caller gave, or their
      defaults, starting standings, no result, and a single stage of the
      given tables. */
  ghost predicate FreshGroup(info: GroupInfo, tables: Option<seq<Table>>, g: Group) {
    && g.teams == info.teams && g.stages == OrElse(info.stages, 1)
    && g.placesCriteria == OrElse(info.placesCriteria, [PlacesCriteria.Points])
    && g.pointKoeffs == OrElse(info.pointKoeffs, [1, 0])
    && g.stats == StartingStats(info.teams) && g.result.None? && !g.isComplete
    && |g.progress| == 1 && g.progress[0].tables == tables
    && GroupInv(g)
  }

  /** The store after create: the new group under the next id, and its
      first games, if any were given, created and listed on its stage. */
  ghost predicate GroupCreated(db: Db, info: GroupInfo, games: Games, tables: Option<seq<Table>>,
                               db': Db, g: Group, mids: seq<Id>, sids: seq<Id>)
  {
    var db1 := db.(groups := db.groups[db.nextId := NewGroup(info, tables)], nextId := db.nextId + 1);
    && db.nextId !in db.groups && db'.groups == db.groups[db.nextId := g] && db'.Valid()
    && FreshGroup(info, tables, g)
    && (games.matches.None? && games.series.None? ==> db' == db1 && g == NewGroup(info, tables))
    && (games.matches.Some? || games.series.Some? ==> GamesAdded(db1, db', db.nextId, NewGroup(info, tables), games, g, mids, sids))
  }

  /** Listing games on the new group's stage keeps it fresh. */
  lemma FreshWithGames(info: GroupInfo, tables: Option<seq<Table>>, mids: seq<Id>, sids: seq<Id>)
    ensures FreshGroup(info, tables, NewGroup(info, tables))
    ensures FreshGroup(info, tables, WithGames(NewGroup(info, tables), mids, sids))
  {
    var g := NewGroup(info, tables);
    var g' := WithGames(g, mids, sids);
    assert g'.(progress := g.progress) == g;
  }

  /** Create a group under a fresh id and add its first games. */
  method Create(db: Db, info: GroupInfo, games: Games, tables: Option<seq<Table>>)
    returns (r: Result<(Db, Group)>, ghost mids: seq<Id>, ghost sids: seq<Id>)
    requires db.Valid()
    ensures var e := CreateError(db.teams, info, games, tables);
            e.Some? ==> r == Err(e.value)
    ensures var e := GamesError(db.teams, db.nextId, games);
            CreateError(db.teams, info, games, tables).None? && (games.matches.Some? || games.series.Some?) ==>
              (r.Err? <==> e.Some?) && (r.Err? ==> e == Some(r.error))
    ensures CreateError(db.teams, info, games, tables).None? && games.matches.None? && games.series.None? ==> r.Ok?
    ensures r.Ok? ==> GroupCreated(db, info, games, tables, r.value.0, r.value.1, mids, sids)
  {
    mids, sids := [], [];
    var e := CreateError(db.teams, info, games, tables);
    if e.Some? {
      return Err(e.value), mids, sids;
    }
    var (gid, db1) := db.Fresh();
    var g := NewGroup(info, tables);
    db1 := db1.(groups := db1.groups[gid := g]);
    r, mids, sids := AddGames(db1, gid, g, games);
    if r.Ok? && (games.matches.Some? || games.series.Some?) {
      assert db1 == db.(groups := db.groups[db.nextId := g], nextId := db.nextId + 1);
      NewGroupAdded(db, info, tables, games, r.value.0, r.value.1, mids, sids);
    } else if r.Ok? {
      NewGroupAlone(db, info, tables, games, mids, sids);
    }
  }

  /** A new group without games is stored as it was built. */
  lemma NewGroupAlone(db: Db, info: GroupInfo, tables: Option<seq<Table>>, games: Games, mids: seq<Id>, sids: seq<Id>)
    requires db.Valid() && games.matches.None? && games.series.None?
    ensures var g := NewGroup(info, tables);
            GroupCreated(db, info, games, tables, db.(groups := db.groups[db.nextId := g], nextId := db.nextId + 1), g, mids, sids)
  {
    FreshWithGames(info, tables, mids, sids);
  }

  /** A new group with its first games created is stored with the fields
      the caller gave and a single stage. */
  lemma NewGroupAdded(db: Db, info: GroupInfo, tables: Option<seq<Table>>, games: Games,
                      db': Db, g': Group, mids: seq<Id>, sids: seq<Id>)
    requires db.Valid() && (games.matches.Some? || games.series.Some?)
    requires GamesAdded(db.(groups := db.groups[db.nextId := NewGroup(info, tables)], nextId := db.nextId + 1),
                        db', db.nextId, NewGroup(info, tables), games, g', mids, sids)
    ensures GroupCreated(db, info, games, tables, db', g', mids, sids)
  {
    var db1 := db.(groups := db.groups[db.nextId := NewGroup(info, tables)], nextId := db.nextId + 1);
    GamesAddedStore(db1, db', db.nextId, NewGroup(info, tables), games, g', mids, sids);
    FreshWithGames(info, tables, mids, sids);
    assert db'.groups == db.groups[db.nextId := g'];
  }

  /** Adding games stores the group with the new ids and leaves a valid store. */
  lemma GamesAddedStore(db: Db, db': Db, gid: Id, g: Group, games: Games, g': Group, mids: seq<Id>, sids: seq<Id>)
    requires GamesAdded(db, db', gid, g, games, g', mids, sids)
    ensures db'.Valid() && db'.groups == db.groups[gid := g'] && |g.progress| > 0 && g' == WithGames(g, mids, sids)
  {
  }

  // ---------------------------------------------------------- add stage

  /** The guards of adding a stage, in order: the group exists, it is not
      on its last stage, the stage info can be read, and the current stage
      is complete. */
  function AddStageError(db: Db, gid: Id): Option<Error> {
    if gid !in db.groups then Some(Crash)
    else
      var g := db.groups[gid];
      if |g.progress| == g.stages then Some(Error(Conflict, LastGroupStage))
      else
        match GetStageInfo(g.progress)
        case Err(e) => Some(e)
        case Ok(stage) =>
          if !StageComplete(db, gid, stage.games) then Some(Error(Conflict, IncompleteGroupStage)) else None
  }

  /** The group with a new empty stage of the given tables. */
  function Pushed(g: Group, tables: Option<seq<Table>>): (g': Group)
    ensures |g'.progress| == |g.progress| + 1 && g'.progress[..|g.progress|] == g.progress
  {
    g.(progress := g.progress + [StageProgress(tables, StageGames(None, None))])
  }

  /** Add a stage as written: the new stage is pushed onto the fetched
      group, which only the game creation stores. With both game lists
      absent that stores nothing, so the stage is returned but lost. */
  method AddStage(db: Db, gid: Id, games: Games, tables: Option<seq<Table>>)
    returns (r: Result<(Db, Group)>, ghost mids: seq<Id>, ghost sids: seq<Id>)
    requires db.Valid()
    ensures AddStageError(db, gid).Some? ==> r == Err(AddStageError(db, gid).value)
    ensures AddStageError(db, gid).None? && games.matches.None? && games.series.None? ==>
              r == Ok((db, Pushed(db.groups[gid], tables)))
    ensures AddStageError(db, gid).None? && games.matches.None? && games.series.None? ==>
              r.Ok? && gid in r.value.0.groups
              && |r.value.0.groups[gid].progress| + 1 == |r.value.1.progress|
    ensures AddStageError(db, gid).None? && (games.matches.Some? || games.series.Some?) ==>
              var e := GamesError(db.teams, gid, games);
              (r.Err? <==> e.Some?) && (r.Err? ==> e == Some(r.error))
    ensures r.Ok? && (games.matches.Some? || games.series.Some?) ==>
              gid in db.groups && GamesAdded(db, r.value.0, gid, Pushed(db.groups[gid], tables), games, r.value.1, mids, sids)
  {
    mids, sids := [], [];
    var e := AddStageError(db, gid);
    if e.Some? {
      return Err(e.value), mids, sids;
    }
    var g := Pushed(db.groups[gid], tables);
    r, mids, sids := AddGames(db, gid, g, games);
  }

  /** Add a stage so that it is always stored: with both game lists absent
      the group with its new stage is written directly. */
  method AddStageStored(db: Db, gid: Id, games: Games, tables: Option<seq<Table>>)
    returns (r: Result<(Db, Group)>, ghost mids: seq<Id>, ghost sids: seq<Id>)
    requires db.Valid()
    ensures AddStageError(db, gid).Some? ==> r == Err(AddStageError(db, gid).value)
    ensures AddStageError(db, gid).None? && (games.matches.Some? || games.series.Some?) ==>
              var e := GamesError(db.teams, gid, games);
              (r.Err? <==> e.Some?) && (r.Err? ==> e == Some(r.error))
    ensures AddStageError(db, gid).None? && games.matches.None? && games.series.None? ==> r.Ok?
    ensures r.Ok? ==>
              var (db', g') := r.value;
              && gid in db.groups && db'.groups == db.groups[gid := g'] && db'.Valid()
              && |g'.progress| == |db.groups[gid].progress| + 1
              && g'.progress[..|db.groups[gid].progress|] == db.groups[gid].progress
              && g'.progress[|db.groups[gid].progress|].tables == tables
              && g'.stats == db.groups[gid].stats && g'.stages == db.groups[gid].stages
    ensures r.Ok? && games.matches.None? && games.series.None? ==>
              r.value == (db.(groups := db.groups[gid := Pushed(db.groups[gid], tables)]), Pushed(db.groups[gid], tables))
    ensures r.Ok? && (games.matches.Some? || games.series.Some?) ==>
              GamesAdded(db, r.value.0, gid, Pushed(db.groups[gid], tables), games, r.value.1, mids, sids)
  {
    mids, sids := [], [];
    var e := AddStageError(db, gid);
    if e.Some? {
      return Err(e.value), mids, sids;
    }
    var g := Pushed(db.groups[gid], tables);
    if games.matches.None? && games.series.None? {
      return Ok((db.(groups := db.groups[gid := g]), g)), mids, sids;
    }
    r, mids, sids := AddGames(db, gid, g, games);
  }

  /** Every game given is between members of the group. */
  predicate GamesChecked(g: Group, games: Games) {
    CheckMatches(g.teams, Listed(games.matches)) && CheckSeries(g.teams, Listed(games.series))
  }

  /** Add games to the current stage: both lists default to empty, so the
      group is always stored. */
  method AddGamesToStage(db: Db, gid: Id, games: Games)
    returns (r: Result<(Db, Group)>, ghost mids: seq<Id>, ghost sids: seq<Id>)
    requires db.Valid()
    ensures gid !in db.groups ==> r == Err(Crash)
    ensures gid in db.groups ==>
              var g := db.groups[gid];
              && (!CheckMatches(g.teams, Listed(games.matches)) ==> r == Err(Error(BadRequest, IncorrectGroupMatches)))
              && (CheckMatches(g.teams, Listed(games.matches)) && !CheckSeries(g.teams, Listed(games.series)) ==>
                    r == Err(Error(BadRequest, IncorrectGroupSeries)))
              && (GamesChecked(g, games) && g.progress == [] ==> r == Err(Crash))
              && (GamesChecked(g, games) && g.progress != [] ==>
                    var e := GamesError(db.teams, gid, games);
                    (r.Err? <==> e.Some?) && (r.Err? ==> e == Some(r.error)))
    ensures r.Ok? ==>
              var (db', g') := r.value;
              && gid in db.groups && GamesAdded(db, db', gid, db.groups[gid], games, g', mids, sids)
              && g'.stats == db.groups[gid].stats && g'.isComplete == db.groups[gid].isComplete
  {
    mids, sids := [], [];
    if gid !in db.groups {
      return Err(Crash), mids, sids;
    }
    var g := db.groups[gid];
    var matches, series := Listed(games.matches), Listed(games.series);
    if !CheckMatches(g.teams, matches) {
      return Err(Error(BadRequest, IncorrectGroupMatches)), mids, sids;
    }
    if !CheckSeries(g.teams, series) {
      return Err(Error(BadRequest, IncorrectGroupSeries)), mids, sids;
    }
    r, mids, sids := AddGames(db, gid, g, Games(Some(matches), Some(series)));
  }

  // ------------------------------------------------------ destroy stage

  /** The error removing one match as `owner` throws. */
  function MatchRemoveError(db: Db, id: Id, owner: Option<Id>): Option<Error> {
    match Matches.Remove(db, id, owner)
    case Ok(_) => None
    case Err(e) => Some(e)
  }

  /** The error a removal loop over match ids throws: the first id that
      names no match (or one removed already), or a match owned elsewhere. */
  function RemoveMatchesError(db: Db, ids: seq<Id>, owner: Option<Id>): (e: Option<Error>)
    ensures e.None? <==> Distinct(ids) && forall i :: 0 <= i < |ids| ==> MatchRemoveError(db, ids[i], owner).None?
  {
    if ids == [] then None
    else
      var pre := ids[..|ids| - 1];
      var x := ids[|ids| - 1];
      var e := RemoveMatchesError(db, pre, owner);
      if e.Some? then e
      else if x in pre then Some(Crash)
      else MatchRemoveError(db, x, owner)
  }

  lemma {:induction false} RemoveMatchStep(db: Db, ids: seq<Id>, owner: Option<Id>, i: nat)
    requires i < |ids| && RemoveMatchesError(db, ids[..i], owner).None?
    ensures var cur := db.(matches := db.matches - SetOf(ids[..i]));
            && MatchRemoveError(cur, ids[i], owner) == RemoveMatchesError(db, ids[..i + 1], owner)
            && (MatchRemoveError(cur, ids[i], owner).None? ==>
                  cur.(matches := cur.matches - {ids[i]}) == db.(matches := db.matches - SetOf(ids[..i + 1])))
  {
    var pre := ids[..i];
    var x := ids[i];
    TakeOneMore(ids, i);
    assert SetOf(ids[..i + 1]) == SetOf(pre) + {x};
  }

  lemma {:induction false} FirstRemoveMatchError(db: Db, ids: seq<Id>, owner: Option<Id>, n: nat)
    requires n <= |ids| && RemoveMatchesError(db, ids[..n], owner).Some?
    ensures RemoveMatchesError(db, ids, owner) == RemoveMatchesError(db, ids[..n], owner)
    decreases |ids| - n
  {
    if n < |ids| {
      var pre := ids[..|ids| - 1];
      assert pre[..n] == ids[..n];
      FirstRemoveMatchError(db, pre, owner, n);
    } else {
      assert ids[..n] == ids;
    }
  }

  /** The match removal loop: remove each listed match, as `owner`,
      stopping at the first failure. */
  method RemoveMatches(db: Db, ids: seq<Id>, owner: Option<Id>) returns (r: Result<Db>)
    ensures (r.Err? <==> RemoveMatchesError(db, ids, owner).Some?) && (r.Err? ==> Some(r.error) == RemoveMatchesError(db, ids, owner))
    ensures r.Ok? ==> r.value == db.(matches := db.matches - SetOf(ids))
  {
    var cur := db;
    var i := 0;
    while i < |ids|
      invariant 0 <= i <= |ids|
      invariant cur == db.(matches := db.matches - SetOf(ids[..i]))
      invariant RemoveMatchesError(db, ids[..i], owner).None?
    {
      RemoveMatchStep(db, ids, owner, i);
      var removed := Matches.Remove(cur, ids[i], owner);
      if removed.Err? {
        FirstRemoveMatchError(db, ids, owner, i + 1);
        return Err(removed.error);
      }
      cur := removed.value.0;
      i := i + 1;
    }
    assert ids[..i] == ids;
    r := Ok(cur);
  }

  /** The store once a stage's matches and series (with their matches) are
      removed. */
  function GamesRemoved(db: Db, games: StageGames): Db {
    Series.WithoutSeries(db.(matches := db.matches - SetOf(Listed(games.matches))), SetOf(Listed(games.series)))
  }

  /** The stage's own games are gone and nothing else is touched but the
      matches of removed series. */
  lemma GamesRemovedMeaning(db: Db, games: StageGames)
    ensures var db' := GamesRemoved(db, games);
            && (db.Valid() ==> db'.Valid())
            && db' == db.(matches := db'.matches, series := db'.series)
            && (forall k :: k in db'.series <==> k in db.series && k !in Listed(games.series))
            && (forall k :: k in db'.matches ==> k in db.matches && k !in Listed(games.matches) && db'.matches[k] == db.matches[k])
            && (forall k :: k in db.matches && k !in Listed(games.matches) && db.matches[k].belongId.None? ==> k in db'.matches)
  {
  }

  /** The guards of dropping the last stage, in order: the group exists,
      it has at least two stages, the stage info can be read, and every
      listed match and then every listed series is removable by the group. */
  function DestroyError(db: Db, gid: Id): Option<Error> {
    if gid !in db.groups then Some(Crash)
    else
      var g := db.groups[gid];
      if |g.progress| < 2 then Some(Error(Conflict, CannotRemoveStage))
      else
        match GetStageInfo(g.progress)
        case Err(e) => Some(e)
        case Ok(stage) =>
          var mids := Listed(stage.games.matches);
          var e := RemoveMatchesError(db, mids, Some(gid));
          if e.Some? then e
          else Series.RemoveAllError(db.(matches := db.matches - SetOf(mids)), Listed(stage.games.series), Some(gid))
  }

  /** What destroying the last stage of group gid leaves: the stage's games
      removed from the store, the group cut to its earlier stages and then
      recomputed over the teams. */
  ghost predicate StageDestroyed(db: Db, gid: Id, db': Db, g': Group) {
    && DestroyError(db, gid).None?
    && var g := db.groups[gid];
       var n := |g.progress|;
       var cut := g.(progress := g.progress[..n - 1]);
       var db2 := GamesRemoved(db, g.progress[n - 1].games);
       && db' == db2.(groups := db.groups[gid := g']) && db'.Valid()
       && |g'.progress| == n - 1
       && g'.stats == NewStatsOf(db2, gid, cut, g.teams)
       && (!g'.isComplete ==> g'.progress == cut.progress && g'.result.None?)
       && GroupInv(g')
       && Refreshed(db2, gid, cut, g.teams, g')
  }

  /** Drop the current stage: remove its games, then recompute the group
      over the stages left. */
  method DestroyLastStage(db: Db, gid: Id) returns (r: Result<(Db, Group)>)
    requires db.Valid()
    ensures gid !in db.groups ==> r == Err(Crash)
    ensures gid in db.groups && |db.groups[gid].progress| < 2 ==> r == Err(Error(Conflict, CannotRemoveStage))
    ensures DestroyError(db, gid).Some? ==> r == Err(DestroyError(db, gid).value)
    ensures DestroyError(db, gid).None? && r.Err? ==> r.error == Crash
    ensures DestroyError(db, gid).None? && r.Err? ==>
              var g := db.groups[gid];
              var n := |g.progress|;
              RecomputeMayFail(GamesRemoved(db, g.progress[n - 1].games), gid, g.(progress := g.progress[..n - 1]), g.teams)
    ensures r.Ok? ==> StageDestroyed(db, gid, r.value.0, r.value.1)
  {
    if gid !in db.groups {
      return Err(Crash);
    }
    var g := db.groups[gid];
    var n := |g.progress|;
    if n < 2 {
      return Err(Error(Conflict, CannotRemoveStage));
    }
    var stage := GetStageInfo(g.progress);
    if stage.Err? {
      return Err(stage.error);
    }
    var games := stage.value.games;
    var db1 := RemoveMatches(db, Listed(games.matches), Some(gid));
    if db1.Err? {
      return Err(db1.error);
    }
    var db2 := Series.RemoveSeries(db1.value, Listed(games.series), Some(gid));
    if db2.Err? {
      return Err(db2.error);
    }
    GamesRemovedMeaning(db, games);
    r := RecomputeAll(db2.value, gid, g.(progress := g.progress[..n - 1]));
  }

  /** The only ways a recompute can throw: no stage of the progress has
      tables, or the group completes and a table holds a team without a
      standing, which the sort of the results may trip over. */
  ghost predicate RecomputeMayFail(db: Db, gid: Id, g: Group, teams: seq<TeamId>) {
    var stage := GetStageInfo(g.progress);
    || stage.Err?
    || (&& StageComplete(db, gid, stage.value.games) && g.stages == |g.progress|
        && !ProgressStatted(NewStatsOf(db, gid, g, teams), g.progress))
  }

  /** Recompute and store a group over all its teams. */
  method RecomputeAll(db: Db, gid: Id, g: Group) returns (r: Result<(Db, Group)>)
    requires db.Valid() && gid in db.groups && |g.progress| > 0
    ensures r.Err? ==> r.error == Crash && RecomputeMayFail(db, gid, g, g.teams)
    ensures GetStageInfo(g.progress).Ok? && ProgressStatted(NewStatsOf(db, gid, g, g.teams), g.progress) ==> r.Ok?
    ensures r.Ok? ==>
              var (db', g') := r.value;
              && db' == db.(groups := db.groups[gid := g']) && db'.Valid()
              && |g'.progress| == |g.progress|
              && g'.stats == NewStatsOf(db, gid, g, g.teams)
              && (!g'.isComplete ==> g'.progress == g.progress && g'.result.None?)
              && GroupInv(g')
    ensures r.Ok? ==> Refreshed(db, gid, g, g.teams, r.value.1)
  {
    r := UpdateGroup(db, gid, g, None);
  }

  // ------------------------------------------------------ play and reset

  /** The error playing a game of a group is known to end in before any
      series is played: a missing group or stage, a game not listed in the
      current stage, a match the update refuses, or an equal series score. */
  function PlayError(db: Db, gid: Id, gameId: Id, home: int, away: int): Option<Error>
    requires db.Valid()
  {
    if gid !in db.groups || GetStageInfo(db.groups[gid].progress).Err? then Some(Crash)
    else
      var games := GetStageInfo(db.groups[gid].progress).value.games;
      if gameId in Listed(games.matches) then
        var u := Matches.Update(db, gameId, Matches.SetScore(Score(Some(home), Some(away))), Some(gid));
        if u.Err? then Some(u.error) else None
      else if gameId !in Listed(games.series) then Some(Error(BadRequest, IncorrectGroupGame(gameId)))
      else if home == away then Some(Error(BadRequest, EqualScoreInSeriaMatch))
      else None
  }

  /** A game of the current stage played: a listed match scored, or else the
      listed series' next match played; the group recomputed over the two
      teams involved in the store the play left. */
  ghost predicate GamePlayed(db: Db, gid: Id, gameId: Id, home: int, away: int, db': Db, g': Group)
    requires db.Valid()
  {
    && gid in db.groups && GetStageInfo(db.groups[gid].progress).Ok?
    && var g := db.groups[gid];
       var games := GetStageInfo(g.progress).value.games;
       && db'.Valid() && db'.groups == db.groups[gid := g']
       && (gameId in Listed(games.matches) ==>
             var u := Matches.Update(db, gameId, Matches.SetScore(Score(Some(home), Some(away))), Some(gid));
             && u.Ok? && db' == u.value.0.(groups := db'.groups)
             && u.value.1.score == Score(Some(home), Some(away))
             && Refreshed(u.value.0, gid, g, [u.value.1.homeTeamId, u.value.1.awayTeamId], g'))
       && (gameId !in Listed(games.matches) ==>
             && gameId in Listed(games.series) && gameId in db.series && home != away
             && Series.SeriaFrame(db, db'.(groups := db.groups), gameId)
             && Refreshed(db'.(groups := db.groups), gid, g,
                          [db.series[gameId].upSeedTeamId, db.series[gameId].downSeedTeamId], g'))
  }

  /** How a play that passed the checks of PlayError runs on: a listed match
      is scored and the group recomputed in the store the update left;
      otherwise the series plays its next match (its outcome stated by
      Series.PlayOutcome), a series error is returned as it is, and on
      success the group is recomputed in the store the play left. */
  ghost predicate PlayFlow(db: Db, gid: Id, gameId: Id, home: int, away: int,
                           step: Result<(Db, Seria)>, r: Result<(Db, Group)>)
    requires db.Valid() && PlayError(db, gid, gameId, home, away).None?
  {
    var g := db.groups[gid];
    var games := GetStageInfo(g.progress).value.games;
    && (gameId in Listed(games.matches) ==>
          var u := Matches.Update(db, gameId, Matches.SetScore(Score(Some(home), Some(away))), Some(gid));
          u.Ok? && RecomputeOutcome(u.value.0, gid, g, [u.value.1.homeTeamId, u.value.1.awayTeamId], r))
    && (gameId !in Listed(games.matches) ==>
          && Series.PlayOutcome(db, gameId, home, away, Some(gid), step)
          && (step.Err? ==> r == Err(step.error))
          && (step.Ok? ==> RecomputeOutcome(step.value.0, gid, g, [step.value.1.upSeedTeamId, step.value.1.downSeedTeamId], r)))
  }

  /** Play a game of the current stage: a listed match gets the score, a
      listed series plays its next match; then the standings of the two
      teams involved are recomputed. Any other game is refused. */
  method PlayGroupGame(db: Db, gid: Id, gameId: Id, home: int, away: int)
    returns (r: Result<(Db, Group)>, ghost step: Result<(Db, Seria)>)
    requires db.Valid()
    ensures PlayError(db, gid, gameId, home, away).Some? ==> r == Err(PlayError(db, gid, gameId, home, away).value)
    ensures PlayError(db, gid, gameId, home, away).None? ==> PlayFlow(db, gid, gameId, home, away, step, r)
    ensures r.Ok? ==> GamePlayed(db, gid, gameId, home, away, r.value.0, r.value.1)
  {
    step := Err(Crash);
    if gid !in db.groups {
      return Err(Crash), step;
    }
    var g := db.groups[gid];
    var stage := GetStageInfo(g.progress);
    if stage.Err? {
      return Err(stage.error), step;
    }
    var games := stage.value.games;
    if gameId in Listed(games.matches) {
      r := PlayStageMatch(db, gid, g, gameId, home, away);
      return;
    }
    if gameId in Listed(games.series) {
      r, step := PlayStageSeria(db, gid, g, gameId, home, away);
      return;
    }
    return Err(Error(BadRequest, IncorrectGroupGame(gameId))), step;
  }

  /** What recomputing group g over some teams in store db returns: the
      group refreshed and stored; or Crash, only when the group completes and
      a team of its tables has no standings to be sorted by. */
  ghost predicate RecomputeOutcome(db: Db, gid: Id, g: Group, teams: seq<TeamId>, r: Result<(Db, Group)>) {
    && GetStageInfo(g.progress).Ok?
    && (r.Ok? ==> && r.value.0 == db.(groups := db.groups[gid := r.value.1])
                  && Refreshed(db, gid, g, teams, r.value.1))
    && (r.Err? ==> && r.error == Crash
                   && StageComplete(db, gid, GetStageInfo(g.progress).value.games) && g.stages == |g.progress|
                   && !ProgressStatted(NewStatsOf(db, gid, g, teams), g.progress))
    && (ProgressStatted(NewStatsOf(db, gid, g, teams), g.progress) ==> r.Ok?)
  }

  /** Recompute the standings of the two teams of a game just changed in
      a store whose groups are untouched. */
  method RecomputeTeams(db: Db, gid: Id, g: Group, teams: seq<TeamId>) returns (r: Result<(Db, Group)>)
    requires db.Valid() && gid in db.groups && g == db.groups[gid] && GetStageInfo(g.progress).Ok?
    ensures RecomputeOutcome(db, gid, g, teams, r)
    ensures r.Ok? ==> r.value.0.Valid()
  {
    r := UpdateGroup(db, gid, g, Some(teams));
  }

  /** Play a listed match of the current stage and recompute its two teams. */
  method PlayStageMatch(db: Db, gid: Id, g: Group, gameId: Id, home: int, away: int) returns (r: Result<(Db, Group)>)
    requires db.Valid() && gid in db.groups && g == db.groups[gid] && GetStageInfo(g.progress).Ok?
    ensures var u := Matches.Update(db, gameId, Matches.SetScore(Score(Some(home), Some(away))), Some(gid));
            && (u.Err? ==> r == Err(u.error))
            && (u.Ok? ==> RecomputeOutcome(u.value.0, gid, g, [u.value.1.homeTeamId, u.value.1.awayTeamId], r))
            && (r.Ok? ==>
                  var (db', g') := r.value;
                  && db'.Valid() && db'.groups == db.groups[gid := g']
                  && u.Ok? && db' == u.value.0.(groups := db'.groups)
                  && u.value.1.score == Score(Some(home), Some(away))
                  && Refreshed(u.value.0, gid, g, [u.value.1.homeTeamId, u.value.1.awayTeamId], g'))
  {
    var u := Matches.Update(db, gameId, Matches.SetScore(Score(Some(home), Some(away))), Some(gid));
    if u.Err? {
      return Err(u.error);
    }
    var (db1, m) := u.value;
    assert db1.Valid() && db1.groups == db.groups;
    r := RecomputeTeams(db1, gid, g, [m.homeTeamId, m.awayTeamId]);
  }

  /** Play the next match of a listed series of the current stage and
      recompute its two teams. */
  method PlayStageSeria(db: Db, gid: Id, g: Group, gameId: Id, home: int, away: int)
    returns (r: Result<(Db, Group)>, ghost step: Result<(Db, Seria)>)
    requires db.Valid() && gid in db.groups && g == db.groups[gid] && GetStageInfo(g.progress).Ok?
    ensures home == away ==> r == Err(Error(BadRequest, EqualScoreInSeriaMatch))
    ensures && Series.PlayOutcome(db, gameId, home, away, Some(gid), step)
            && (step.Err? ==> r == Err(step.error))
            && (step.Ok? ==> RecomputeOutcome(step.value.0, gid, g, [step.value.1.upSeedTeamId, step.value.1.downSeedTeamId], r))
    ensures r.Ok? ==>
              var (db', g') := r.value;
              && db'.Valid() && db'.groups == db.groups[gid := g']
              && gameId in db.series && home != away
              && Series.SeriaFrame(db, db'.(groups := db.groups), gameId)
              && Refreshed(db'.(groups := db.groups), gid, g,
                           [db.series[gameId].upSeedTeamId, db.series[gameId].downSeedTeamId], g')
  {
    var played := Series.PlayMatch(db, gameId, home, away, Some(gid));
    step := played;
    if played.Err? {
      return Err(played.error), step;
    }
    var (db1, s) := played.value;
    r := RecomputeTeams(db1, gid, g, [s.upSeedTeamId, s.downSeedTeamId]);
  }

  /** The error resetting a game of a group is known to end in before any
      series is touched: a missing group or stage, a game not listed in the
      current stage, or a match the reset refuses. */
  function ResetError(db: Db, gid: Id, gameId: Id): Option<Error>
    requires db.Valid()
  {
    if gid !in db.groups || GetStageInfo(db.groups[gid].progress).Err? then Some(Crash)
    else
      var games := GetStageInfo(db.groups[gid].progress).value.games;
      if gameId in Listed(games.matches) then
        var u := Matches.Reset(db, gameId, Some(gid));
        if u.Err? then Some(u.error) else None
      else if gameId !in Listed(games.series) then Some(Error(BadRequest, IncorrectGroupGame(gameId)))
      else None
  }

  /** A game of the current stage reset: a listed match cleared, or else the
      listed series' last played match reset; the group recomputed over the
      two teams involved in the store the reset left. */
  ghost predicate GameReset(db: Db, gid: Id, gameId: Id, db': Db, g': Group)
    requires db.Valid()
  {
    && gid in db.groups && GetStageInfo(db.groups[gid].progress).Ok?
    && var g := db.groups[gid];
       var games := GetStageInfo(g.progress).value.games;
       && db'.Valid() && db'.groups == db.groups[gid := g']
       && (gameId in Listed(games.matches) ==>
             var u := Matches.Reset(db, gameId, Some(gid));
             && u.Ok? && db' == u.value.0.(groups := db'.groups)
             && u.value.1.score == NoScore && !u.value.1.isComplete
             && Refreshed(u.value.0, gid, g, [u.value.1.homeTeamId, u.value.1.awayTeamId], g'))
       && (gameId !in Listed(games.matches) ==>
             && gameId in Listed(games.series) && gameId in db.series
             && Series.SeriaFrame(db, db'.(groups := db.groups), gameId)
             && Refreshed(db'.(groups := db.groups), gid, g,
                          [db.series[gameId].upSeedTeamId, db.series[gameId].downSeedTeamId], g'))
  }

  /** How a reset that passed the checks of ResetError runs on: a listed
      match is cleared and the group recomputed in the store the reset left;
      otherwise the series resets its last played match (its outcome stated
      by Series.ResetOutcome), a series error is returned as it is, and on
      success the group is recomputed in the store the reset left. */
  ghost predicate ResetFlow(db: Db, gid: Id, gameId: Id, step: Result<(Db, Seria)>, r: Result<(Db, Group)>)
    requires db.Valid() && ResetError(db, gid, gameId).None?
  {
    var g := db.groups[gid];
    var games := GetStageInfo(g.progress).value.games;
    && (gameId in Listed(games.matches) ==>
          var u := Matches.Reset(db, gameId, Some(gid));
          u.Ok? && RecomputeOutcome(u.value.0, gid, g, [u.value.1.homeTeamId, u.value.1.awayTeamId], r))
    && (gameId !in Listed(games.matches) ==>
          && Series.ResetOutcome(db, gameId, Some(gid), step)
          && (step.Err? ==> r == Err(step.error))
          && (step.Ok? ==> RecomputeOutcome(step.value.0, gid, g, [step.value.1.upSeedTeamId, step.value.1.downSeedTeamId], r)))
  }

  /** Reset a game of the current stage: a listed match loses its score, a
      listed series has its last played match reset; then the standings of
      the two teams involved are recomputed. Any other game is refused. */
  method ResetGroupGame(db: Db, gid: Id, gameId: Id) returns (r: Result<(Db, Group)>, ghost step: Result<(Db, Seria)>)
    requires db.Valid()
    ensures ResetError(db, gid, gameId).Some? ==> r == Err(ResetError(db, gid, gameId).value)
    ensures ResetError(db, gid, gameId).None? ==> ResetFlow(db, gid, gameId, step, r)
    ensures r.Ok? ==> GameReset(db, gid, gameId, r.value.0, r.value.1)
  {
    step := Err(Crash);
    if gid !in db.groups {
      return Err(Crash), step;
    }
    var g := db.groups[gid];
    var stage := GetStageInfo(g.progress);
    if stage.Err? {
      return Err(stage.error), step;
    }
    var games := stage.value.games;
    if gameId in Listed(games.matches) {
      r := ResetStageMatch(db, gid, g, gameId);
      return;
    }
    if gameId in Listed(games.series) {
      r, step := ResetStageSeria(db, gid, g, gameId);
      return;
    }
    return Err(Error(BadRequest, IncorrectGroupGame(gameId))), step;
  }

  /** Reset a listed match of the current stage and recompute its two teams. */
  method ResetStageMatch(db: Db, gid: Id, g: Group, gameId: Id) returns (r: Result<(Db, Group)>)
    requires db.Valid() && gid in db.groups && g == db.groups[gid] && GetStageInfo(g.progress).Ok?
    ensures var u := Matches.Reset(db, gameId, Some(gid));
            && (u.Err? ==> r == Err(u.error))
            && (u.Ok? ==> RecomputeOutcome(u.value.0, gid, g, [u.value.1.homeTeamId, u.value.1.awayTeamId], r))
            && (r.Ok? ==>
                  var (db', g') := r.value;
                  && db'.Valid() && db'.groups == db.groups[gid := g']
                  && u.Ok? && db' == u.value.0.(groups := db'.groups)
                  && u.value.1.score == NoScore && !u.value.1.isComplete
                  && Refreshed(u.value.0, gid, g, [u.value.1.homeTeamId, u.value.1.awayTeamId], g'))
  {
    var u := Matches.Reset(db, gameId, Some(gid));
    if u.Err? {
      return Err(u.error);
    }
    var (db1, m) := u.value;
    assert db1.Valid() && db1.groups == db.groups;
    r := RecomputeTeams(db1, gid, g, [m.homeTeamId, m.awayTeamId]);
  }

  /** Reset the last played match of a listed series of the current stage
      and recompute its two teams. */
  method ResetStageSeria(db: Db, gid: Id, g: Group, gameId: Id) returns (r: Result<(Db, Group)>, ghost step: Result<(Db, Seria)>)
    requires db.Valid() && gid in db.groups && g == db.groups[gid] && GetStageInfo(g.progress).Ok?
    ensures && Series.ResetOutcome(db, gameId, Some(gid), step)
            && (step.Err? ==> r == Err(step.error))
            && (step.Ok? ==> RecomputeOutcome(step.value.0, gid, g, [step.value.1.upSeedTeamId, step.value.1.downSeedTeamId], r))
    ensures r.Ok? ==>
              var (db', g') := r.value;
              && db'.Valid() && db'.groups == db.groups[gid := g']
              && gameId in db.series
              && Series.SeriaFrame(db, db'.(groups := db.groups), gameId)
              && Refreshed(db'.(groups := db.groups), gid, g,
                           [db.series[gameId].upSeedTeamId, db.series[gameId].downSeedTeamId], g')
  {
    var reset := Series.ResetLastMatch(db, gameId, Some(gid));
    step := reset;
    if reset.Err? {
      return Err(reset.error), step;
    }
    var (db1, s) := reset.value;
    r := RecomputeTeams(db1, gid, g, [s.upSeedTeamId, s.downSeedTeamId]);
  }

  // ------------------------------------------------------------- remove

  /** The games a group owns can all be removed on its behalf. */
  lemma OwnedGamesRemovable(db: Db, gid: Id)
    ensures RemoveMatchesError(db, MatchIdsOf(db, gid), Some(gid)).None?
    ensures Series.RemoveAllError(db, SeriaIdsOf(db, gid), Some(gid)).None?
  {
    var mids := MatchIdsOf(db, gid);
    forall i | 0 <= i < |mids|
      ensures MatchRemoveError(db, mids[i], Some(gid)).None?
    {
      assert mids[i] in mids;
    }
    var sids := SeriaIdsOf(db, gid);
    forall i | 0 <= i < |sids|
      ensures Series.RemoveError(db, sids[i], Some(gid)).None?
    {
      assert sids[i] in sids;
    }
  }

  /** Remove a group with every match and series it owns (and the matches
      of those series); a missing group removes nothing of its own. */
  method Remove(db: Db, gid: Id) returns (db': Db, removed: Option<Group>)
    requires db.Valid()
    ensures db' == Series.WithoutSeries(db.(matches := db.matches - SetOf(MatchIdsOf(db, gid))), SetOf(SeriaIdsOf(db, gid)))
                     .(groups := db.groups - {gid})
    ensures removed == (if gid in db.groups then Some(db.groups[gid]) else None)
    ensures db'.Valid() && gid !in db'.groups
    ensures forall k :: k in db'.matches ==> db'.matches[k].belongId != Some(gid)
    ensures forall k :: k in db'.series ==> db'.series[k].belongId != Some(gid)
  {
    OwnedGamesRemovable(db, gid);
    var mids := MatchIdsOf(db, gid);
    var db1 := RemoveMatches(db, mids, Some(gid));
    var cur := db1.value;
    assert SeriaIdsOf(cur, gid) == SeriaIdsOf(db, gid);
    var sids := SeriaIdsOf(cur, gid);
    OwnedGamesRemovable(cur, gid);
    var db2 := Series.RemoveSeries(cur, sids, Some(gid));
    db' := db2.value.(groups := db2.value.groups - {gid});
    removed := if gid in db.groups then Some(db.groups[gid]) else None;
  }
}
