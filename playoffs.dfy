/** The single-elimination playoff. A playoff holds its seeded teams, a
    schema (one series duration per round) and its progress: the series ids
    of each round played so far. Each round pairs first against last; when
    every series of the current round is complete the winners are re-seeded
    and the next round is created, and a one-series round completes the
    playoff. */
module Playoffs {
  import opened Core
  import opened Schema
  import Matches
  import Series

  // ------------------------------------------------------------ validation

  function Pow2(n: nat): (p: nat)
    ensures p >= 1
  {
    if n == 0 then 1 else 2 * Pow2(n - 1)
  }

  lemma Pow2Step(m: nat)
    requires m >= 1
    ensures Pow2(m) == 2 * Pow2(m - 1)
  {
  }

  /** A schema names at least one round and only the four series durations. */
  predicate SchemaValid(schema: seq<int>) {
    |schema| > 0 && forall i :: 0 <= i < |schema| ==> IsSeriaDuration(schema[i])
  }

  /** One team per slot of a full bracket of `|schema|` rounds. */
  predicate TeamsAmountValid(teams: seq<TeamId>, schema: seq<int>) {
    |teams| > 1 && |teams| == Pow2(|schema|)
  }

  // --------------------------------------------------------------- couples

  /** The pairs of a round: first against last, then inward. */
  function Couples(teams: seq<TeamId>): (cs: seq<(TeamId, TeamId)>)
    requires |teams| % 2 == 0
    ensures |cs| == |teams| / 2
    decreases |teams|
  {
    if teams == [] then []
    else [(teams[0], teams[|teams| - 1])] + Couples(teams[1..|teams| - 1])
  }

  /** Pair `i` sets the `i`-th seed against the `i`-th from the bottom. */
  lemma {:induction false} CouplesAt(teams: seq<TeamId>, i: nat)
    requires |teams| % 2 == 0 && i < |teams| / 2
    ensures Couples(teams)[i] == (teams[i], teams[|teams| - 1 - i])
    decreases |teams|
  {
    if i > 0 {
      var inner := teams[1..|teams| - 1];
      CouplesAt(inner, i - 1);
      assert Couples(teams)[i] == Couples(inner)[i - 1];
    }
  }

  /** The teams of a list of pairs, put back in seeding order. */
  function Unpaired(cs: seq<(TeamId, TeamId)>): (teams: seq<TeamId>)
    ensures |teams| == 2 * |cs|
  {
    if cs == [] then [] else [cs[0].0] + Unpaired(cs[1..]) + [cs[0].1]
  }

  /** Pairing loses and repeats no team: unpairing gives the teams back. */
  lemma {:induction false} UnpairedCouples(teams: seq<TeamId>)
    requires |teams| % 2 == 0
    ensures Unpaired(Couples(teams)) == teams
    decreases |teams|
  {
    if teams != [] {
      var inner := teams[1..|teams| - 1];
      UnpairedCouples(inner);
      CouplesRest(teams);
      assert teams == [teams[0]] + inner + [teams[|teams| - 1]];
    }
  }

  /** Unpairing a round undoes its outermost pair first. */
  lemma CouplesRest(teams: seq<TeamId>)
    requires |teams| % 2 == 0 && teams != []
    ensures Unpaired(Couples(teams)) == [teams[0]] + Unpaired(Couples(teams[1..|teams| - 1])) + [teams[|teams| - 1]]
  {
    var cs := Couples(teams);
    assert cs[1..] == Couples(teams[1..|teams| - 1]);
  }

  /** The pairs of a round, or none for an odd number of teams. */
  function RoundCouplesOf(teams: seq<TeamId>): seq<(TeamId, TeamId)> {
    if |teams| % 2 != 0 then [] else Couples(teams)
  }

  /** The pairing loop: take the first and the last team off the buffer
      until it is empty. */
  method RoundCouples(teams: seq<TeamId>) returns (result: seq<(TeamId, TeamId)>)
    ensures |teams| % 2 != 0 ==> result == []
    ensures |teams| % 2 == 0 ==> result == Couples(teams)
  {
    if |teams| % 2 != 0 {
      return [];
    }
    var buffer := teams;
    result := [];
    while |buffer| > 0
      invariant |buffer| % 2 == 0
      invariant result + Couples(buffer) == Couples(teams)
      decreases |buffer|
    {
      result := result + [(buffer[0], buffer[|buffer| - 1])];
      buffer := buffer[1..|buffer| - 1];
    }
  }

  // ------------------------------------------------------------ re-seeding

  /** First position of `x` in `s`, or -1. */
  function IndexOf(s: seq<TeamId>, x: TeamId): (i: int)
    ensures -1 <= i < |s|
    ensures i >= 0 ==> s[i] == x && forall j :: 0 <= j < i ==> s[j] != x
    ensures i == -1 <==> x !in s
  {
    if s == [] then -1
    else if s[0] == x then 0
    else
      var k := IndexOf(s[1..], x);
      if k < 0 then -1 else k + 1
  }

  /** The seed index of a series winner; a null winner is found nowhere. */
  function SeedIndex(sortedTeams: seq<TeamId>, w: Option<TeamId>): int {
    if w.None? then -1 else IndexOf(sortedTeams, w.value)
  }

  function Digit(d: nat): char
    requires d < 10
  {
    "0123456789"[d]
  }

  /** The decimal spelling of a natural number. */
  function Decimal(n: nat): (s: string)
    ensures |s| >= 1
  {
    if n < 10 then [Digit(n)] else Decimal(n / 10) + [Digit(n % 10)]
  }

  /** The string an index turns into when an array without a comparator is
      sorted. */
  function IndexKey(i: int): string {
    if i < 0 then "-" + Decimal(-i) else Decimal(i)
  }

  /** Code-unit order of strings: a prefix comes first, otherwise the first
      differing character decides. */
  predicate StrLe(a: string, b: string)
    decreases |a|
  {
    a == [] || (b != [] && (a[0] < b[0] || (a[0] == b[0] && StrLe(a[1..], b[1..]))))
  }

  lemma {:induction false} StrLeTotal(a: string, b: string)
    ensures StrLe(a, b) || StrLe(b, a)
    decreases |a|
  {
    if a != [] && b != [] && a[0] == b[0] {
      StrLeTotal(a[1..], b[1..]);
    }
  }

  /** Each index's key is at most the next one's. */
  predicate SortedByKey(s: seq<int>) {
    forall i :: 0 <= i < |s| - 1 ==> StrLe(IndexKey(s[i]), IndexKey(s[i + 1]))
  }

  function Insert(x: int, s: seq<int>): (r: seq<int>)
    ensures |r| == |s| + 1 && multiset(r) == multiset(s) + multiset{x}
    ensures r[0] == x || (s != [] && r[0] == s[0])
    ensures SortedByKey(s) ==> SortedByKey(r)
  {
    if s == [] then [x]
    else if StrLe(IndexKey(x), IndexKey(s[0])) then [x] + s
    else
      StrLeTotal(IndexKey(x), IndexKey(s[0]));
      assert s == [s[0]] + s[1..];
      [s[0]] + Insert(x, s[1..])
  }

  /** Sorting the seed indices as strings. */
  function SortByKey(s: seq<int>): (r: seq<int>)
    ensures |r| == |s| && multiset(r) == multiset(s) && SortedByKey(r)
  {
    if s == [] then []
    else
      assert s == [s[0]] + s[1..];
      Insert(s[0], SortByKey(s[1..]))
  }

  /** The team at a seed index; an index that is not a position of the
      seeding reads as no team. */
  function TeamAt(sortedTeams: seq<TeamId>, i: int): TeamId {
    if 0 <= i < |sortedTeams| then sortedTeams[i] else ""
  }

  function SeedIndices(winners: seq<Option<TeamId>>, sortedTeams: seq<TeamId>): (idx: seq<int>)
    ensures |idx| == |winners| && forall i :: 0 <= i < |winners| ==> idx[i] == SeedIndex(sortedTeams, winners[i])
  {
    seq(|winners|, i requires 0 <= i < |winners| => SeedIndex(sortedTeams, winners[i]))
  }

  function TeamsAt(sortedTeams: seq<TeamId>, idx: seq<int>): (teams: seq<TeamId>)
    ensures |teams| == |idx| && forall i :: 0 <= i < |idx| ==> teams[i] == TeamAt(sortedTeams, idx[i])
  {
    seq(|idx|, i requires 0 <= i < |idx| => TeamAt(sortedTeams, idx[i]))
  }

  /** The winners re-seeded: replaced by their seed indices, sorted, and
      turned back into teams. */
  function SortedTeams(winners: seq<Option<TeamId>>, sortedTeams: seq<TeamId>): (teams: seq<TeamId>)
    ensures |teams| == |winners|
  {
    TeamsAt(sortedTeams, SortByKey(SeedIndices(winners, sortedTeams)))
  }

  lemma TeamsAtCons(sortedTeams: seq<TeamId>, y: int, t: seq<int>)
    ensures TeamsAt(sortedTeams, [y] + t) == [TeamAt(sortedTeams, y)] + TeamsAt(sortedTeams, t)
  {
  }

  /** Inserting an index adds its team. */
  lemma {:induction false} InsertTeams(sortedTeams: seq<TeamId>, x: int, s: seq<int>)
    ensures multiset(TeamsAt(sortedTeams, Insert(x, s)))
            == multiset(TeamsAt(sortedTeams, s)) + multiset{TeamAt(sortedTeams, x)}
  {
    if s == [] {
    } else if StrLe(IndexKey(x), IndexKey(s[0])) {
      TeamsAtCons(sortedTeams, x, s);
    } else {
      InsertTeams(sortedTeams, x, s[1..]);
      TeamsAtCons(sortedTeams, s[0], Insert(x, s[1..]));
      TeamsAtCons(sortedTeams, s[0], s[1..]);
      assert s == [s[0]] + s[1..];
    }
  }

  /** Sorting the indices permutes their teams. */
  lemma {:induction false} SortTeams(sortedTeams: seq<TeamId>, s: seq<int>)
    ensures multiset(TeamsAt(sortedTeams, SortByKey(s))) == multiset(TeamsAt(sortedTeams, s))
  {
    if s != [] {
      SortTeams(sortedTeams, s[1..]);
      InsertTeams(sortedTeams, s[0], SortByKey(s[1..]));
      TeamsAtCons(sortedTeams, s[0], s[1..]);
      assert s == [s[0]] + s[1..];
    }
  }

  /** The values of winners that are all present. */
  function WinnerTeams(winners: seq<Option<TeamId>>): (teams: seq<TeamId>)
    requires forall i :: 0 <= i < |winners| ==> winners[i].Some?
    ensures |teams| == |winners| && forall i :: 0 <= i < |winners| ==> teams[i] == winners[i].value
  {
    seq(|winners|, i requires 0 <= i < |winners| => winners[i].value)
  }

  /** When every winner is a seeded team, re-seeding is a permutation of the
      winners. */
  lemma SortedTeamsPermutation(winners: seq<Option<TeamId>>, sortedTeams: seq<TeamId>)
    requires forall i :: 0 <= i < |winners| ==> winners[i].Some? && winners[i].value in sortedTeams
    ensures multiset(SortedTeams(winners, sortedTeams)) == multiset(WinnerTeams(winners))
  {
    var idx := SeedIndices(winners, sortedTeams);
    SortTeams(sortedTeams, idx);
    assert TeamsAt(sortedTeams, idx) == WinnerTeams(winners);
  }

  /** With distinct seeds, the re-seeded teams are ordered by their seed
      index compared as a string. */
  lemma SortedTeamsOrdered(winners: seq<Option<TeamId>>, sortedTeams: seq<TeamId>)
    requires Distinct(sortedTeams)
    requires forall i :: 0 <= i < |winners| ==> winners[i].Some? && winners[i].value in sortedTeams
    ensures var teams := SortedTeams(winners, sortedTeams);
            forall i :: 0 <= i < |teams| - 1 ==>
              StrLe(IndexKey(IndexOf(sortedTeams, teams[i])), IndexKey(IndexOf(sortedTeams, teams[i + 1])))
  {
    var idx := SeedIndices(winners, sortedTeams);
    var sorted := SortByKey(idx);
    forall i | 0 <= i < |sorted|
      ensures 0 <= sorted[i] < |sortedTeams|
      ensures IndexOf(sortedTeams, TeamAt(sortedTeams, sorted[i])) == sorted[i]
    {
      assert sorted[i] in multiset(idx);
      var j :| 0 <= j < |idx| && idx[j] == sorted[i];
      var k := sorted[i];
      var found := IndexOf(sortedTeams, sortedTeams[k]);
      assert sortedTeams[found] == sortedTeams[k];
    }
  }

  /** String order is not numeric order: index 10 sorts before index 2. */
  lemma TenBeforeTwo()
    ensures SortByKey([2, 10]) == [10, 2]
  {
    assert IndexKey(10) == "10" && IndexKey(2) == "2";
    assert StrLe("10", "2") && !StrLe("2", "10");
    assert SortByKey([10]) == [10];
    assert SortByKey([2, 10]) == Insert(2, [10]);
  }

  /** So the eleventh seed goes before the third. */
  lemma TenthIndexBeforeSecond(sortedTeams: seq<TeamId>)
    requires |sortedTeams| >= 11 && Distinct(sortedTeams)
    ensures SortedTeams([Some(sortedTeams[2]), Some(sortedTeams[10])], sortedTeams) == [sortedTeams[10], sortedTeams[2]]
  {
    assert IndexOf(sortedTeams, sortedTeams[2]) == 2;
    assert IndexOf(sortedTeams, sortedTeams[10]) == 10;
    var idx := SeedIndices([Some(sortedTeams[2]), Some(sortedTeams[10])], sortedTeams);
    assert idx == [2, 10];
    TenBeforeTwo();
  }

  // ----------------------------------------------------------- the store

  function Last(progress: seq<seq<Id>>): seq<Id>
    requires progress != []
  {
    progress[|progress| - 1]
  }

  /** What the playoff asks series create for one pair of a round. */
  function RoundInfo(c: (TeamId, TeamId), duration: Option<int>, pid: Id): Series.SeriaInfo {
    Series.SeriaInfo(c.0, c.1, duration, None, Some(pid))
  }

  /** The duration of the round that follows `progress`: the schema entry
      at its index; past the end of the schema there is none. */
  function RoundDuration(schema: seq<int>, progress: seq<seq<Id>>): Option<int> {
    if |progress| < |schema| then Some(schema[|progress|]) else None
  }

  /** What the playoff asks series create for, one pair of the round after another. */
  function RoundInfos(couples: seq<(TeamId, TeamId)>, duration: Option<int>, pid: Id): (infos: seq<Series.SeriaInfo>)
    ensures |infos| == |couples| && forall i :: 0 <= i < |couples| ==> infos[i] == RoundInfo(couples[i], duration, pid)
  {
    seq(|couples|, i requires 0 <= i < |couples| => RoundInfo(couples[i], duration, pid))
  }

  /** The error of the first pair whose series create fails. */
  function RoundError(teams: set<TeamId>, pid: Id, duration: Option<int>, couples: seq<(TeamId, TeamId)>): Option<Error> {
    Series.CreateAllError(teams, RoundInfos(couples, duration, pid))
  }

  /** The store after a new round: the playoff's progress has the new
      round appended and nothing else of it changes. */
  ghost predicate NewRound(db: Db, db': Db, pid: Id, progress: seq<seq<Id>>, duration: Option<int>,
                           couples: seq<(TeamId, TeamId)>) {
    && pid in db.playoffs && pid in db'.playoffs
    && var p' := db'.playoffs[pid];
    && |p'.progress| == |progress| + 1
    && p' == db.playoffs[pid].(progress := progress + [p'.progress[|progress|]])
    && db'.playoffs == db.playoffs[pid := p']
    && Series.AllCreated(db, db', RoundInfos(couples, duration, pid), p'.progress[|progress|])
  }

  /** Create the series of the next round, append their ids to the
      progress and store it. */
  method CreateNewRound(db: Db, pid: Id, schema: seq<int>, progress: seq<seq<Id>>, teams: seq<TeamId>)
    returns (r: Result<(Db, Playoff)>)
    requires db.Valid() && pid in db.playoffs
    ensures var e := RoundError(db.teams, pid, RoundDuration(schema, progress), RoundCouplesOf(teams));
            (r.Err? <==> e.Some?) && (r.Err? ==> e == Some(r.error))
    ensures r.Ok? ==> && NewRound(db, r.value.0, pid, progress, RoundDuration(schema, progress), RoundCouplesOf(teams))
                      && r.value.1 == r.value.0.playoffs[pid]
  {
    var couples := RoundCouples(teams);
    var duration := if |progress| < |schema| then Some(schema[|progress|]) else None;
    var created := Series.CreateAll(db, RoundInfos(couples, duration, pid));
    if created.Err? {
      return Err(created.error);
    }
    var (cur, ids) := created.value;
    var p' := db.playoffs[pid].(progress := progress + [ids]);
    Series.AllCreatedFrame(db, cur, RoundInfos(couples, duration, pid), ids, cur.playoffs[pid := p'], cur.groups);
    r := Ok((cur.(playoffs := cur.playoffs[pid := p']), p'));
  }

  // ---------------------------------------------------- the current round

  /** The listed ids that name stored series, ascending. */
  function StoredAmong(ks: seq<Id>, ids: seq<Id>): (r: seq<Id>)
    requires forall i, j :: 0 <= i < j < |ks| ==> ks[i] < ks[j]
    ensures forall k :: k in r <==> k in ks && k in ids
    ensures forall i, j :: 0 <= i < j < |r| ==> r[i] < r[j]
  {
    if ks == [] then []
    else
      var pre := ks[..|ks| - 1];
      var rest := StoredAmong(pre, ids);
      var k := ks[|ks| - 1];
      assert forall i :: 0 <= i < |pre| ==> pre[i] < k;
      assert forall x :: x in rest ==> x < k;
      forall i | 0 <= i < |rest| ensures rest[i] < k { assert rest[i] in rest; }
      rest + (if k in ids then [k] else [])
  }

  /** A query by id list: the stored series among `ids`, in storage order;
      an id that names no series is skipped. */
  function SeriesByIds(db: Db, ids: seq<Id>): (r: seq<Id>)
    ensures forall k :: k in r <==> k in db.series && k < db.nextId && k in ids
    ensures Distinct(r)
  {
    StoredAmong(KeysBelow(db.series, db.nextId), ids)
  }

  /** When every listed id is stored and none repeats, the query finds
      them all. */
  lemma SeriesByIdsAll(db: Db, ids: seq<Id>)
    requires db.Valid() && Distinct(ids) && forall i :: 0 <= i < |ids| ==> ids[i] in db.series
    ensures |SeriesByIds(db, ids)| == |ids|
  {
    var r := SeriesByIds(db, ids);
    forall x | x in ids
      ensures x in r
    {
      assert x in db.series;
    }
    SameElementsSameLength(r, ids);
  }

  predicate AllComplete(db: Db, ids: seq<Id>)
    requires forall i :: 0 <= i < |ids| ==> ids[i] in db.series
  {
    forall i :: 0 <= i < |ids| ==> db.series[ids[i]].isComplete
  }

  function Winners(db: Db, ids: seq<Id>): (ws: seq<Option<TeamId>>)
    requires forall i :: 0 <= i < |ids| ==> ids[i] in db.series
    ensures |ws| == |ids| && forall i :: 0 <= i < |ids| ==> ws[i] == db.series[ids[i]].winnerId
  {
    seq(|ids|, i requires 0 <= i < |ids| => db.series[ids[i]].winnerId)
  }

  // ------------------------------------------------------------ invariant

  /** No series id appears twice in the bracket. */
  predicate RoundsDistinct(progress: seq<seq<Id>>) {
    forall j1, i1, j2, i2 ::
      && 0 <= j1 < |progress| && 0 <= i1 < |progress[j1]|
      && 0 <= j2 < |progress| && 0 <= i2 < |progress[j2]|
      && (j1 != j2 || i1 != i2)
      ==> progress[j1][i1] != progress[j2][i2]
  }

  /** Every series of round `j` is stored, belongs to the playoff and is
      played over the duration the schema gives round `j`. */
  predicate RoundsStored(db: Db, pid: Id, p: Playoff) {
    forall j, i :: 0 <= j < |p.progress| && 0 <= i < |p.progress[j]| ==>
      && p.progress[j][i] in db.series
      && db.series[p.progress[j][i]].belongId == Some(pid)
      && j < |p.schema| && db.series[p.progress[j][i]].duration == p.schema[j]
  }

  /** The shape of a bracket of 2^K teams: round `j` (from 0) holds
      2^(K-1-j) series, so there are at most K rounds, and every schema
      index used is within the schema. */
  predicate PlayoffInv(db: Db, pid: Id) {
    && pid in db.playoffs
    && var p := db.playoffs[pid];
    && SchemaValid(p.schema) && |p.sortedTeams| == Pow2(|p.schema|)
    && 1 <= |p.progress| <= |p.schema|
    && (forall j :: 0 <= j < |p.progress| ==> |p.progress[j]| == Pow2(|p.schema| - 1 - j))
    && RoundsDistinct(p.progress)
    && RoundsStored(db, pid, p)
  }

  /** The series of a round just created: fresh, stored, owned by the
      playoff, of duration `d`, under ascending ids. */
  predicate FreshRound(db: Db, db': Db, pid: Id, d: int, ids: seq<Id>) {
    && (forall i :: 0 <= i < |ids| ==>
          && db.nextId <= ids[i] && ids[i] in db'.series
          && db'.series[ids[i]].belongId == Some(pid) && db'.series[ids[i]].duration == d)
    && (forall i, j :: 0 <= i < j < |ids| ==> ids[i] < ids[j])
  }

  /** What a new round leaves behind, in plain terms. */
  lemma NewRoundFacts(db: Db, db': Db, pid: Id, progress: seq<seq<Id>>, duration: Option<int>,
                      couples: seq<(TeamId, TeamId)>)
    requires NewRound(db, db', pid, progress, duration, couples)
    ensures pid in db.playoffs && pid in db'.playoffs && |db'.playoffs[pid].progress| == |progress| + 1
    ensures var p' := db'.playoffs[pid];
            var ids := p'.progress[|progress|];
            && p' == db.playoffs[pid].(progress := progress + [ids])
            && |ids| == |couples| && Series.Grown(db, db') && db'.Valid()
            && (duration.Some? ==> FreshRound(db, db', pid, duration.value, ids))
  {
    var p' := db'.playoffs[pid];
    var ids := p'.progress[|progress|];
    forall i | 0 <= i < |ids| && duration.Some?
      ensures db'.series[ids[i]].belongId == Some(pid) && db'.series[ids[i]].duration == duration.value
    {
      var info := RoundInfos(couples, duration, pid)[i];
      assert db'.series[ids[i]] == Series.StartedSeria(info, ids[i]);
    }
  }

  /** A new round of the right size, built on a well-shaped bracket, keeps
      the shape. */
  lemma NewRoundInv(db: Db, db': Db, pid: Id, ids: seq<Id>)
    requires db.Valid() && pid in db.playoffs && pid in db'.playoffs && Series.Grown(db, db')
    requires var p := db.playoffs[pid];
             && SchemaValid(p.schema) && |p.sortedTeams| == Pow2(|p.schema|) && |p.progress| < |p.schema|
             && (forall j :: 0 <= j < |p.progress| ==> |p.progress[j]| == Pow2(|p.schema| - 1 - j))
             && RoundsDistinct(p.progress) && RoundsStored(db, pid, p)
             && |ids| == Pow2(|p.schema| - 1 - |p.progress|)
             && db'.playoffs[pid] == p.(progress := p.progress + [ids])
             && FreshRound(db, db', pid, p.schema[|p.progress|], ids)
    ensures PlayoffInv(db', pid)
  {
    var p := db.playoffs[pid];
    var n := |p.progress|;
    var K := |p.schema|;
    var p' := db'.playoffs[pid];
    forall j | 0 <= j < |p'.progress|
      ensures |p'.progress[j]| == Pow2(K - 1 - j)
    {
      if j < n {
        assert p'.progress[j] == p.progress[j];
      } else {
        assert p'.progress[j] == ids;
      }
    }
    NewRoundStored(db, db', pid, p, ids);
    NewRoundDistinct(db, p.progress, ids);
  }

  lemma NewRoundStored(db: Db, db': Db, pid: Id, p: Playoff, ids: seq<Id>)
    requires RoundsStored(db, pid, p) && Series.Grown(db, db') && |p.progress| < |p.schema|
    requires FreshRound(db, db', pid, p.schema[|p.progress|], ids)
    ensures RoundsStored(db', pid, p.(progress := p.progress + [ids]))
  {
    var q := p.(progress := p.progress + [ids]);
    var n := |p.progress|;
    forall j, i | 0 <= j < |q.progress| && 0 <= i < |q.progress[j]|
      ensures && q.progress[j][i] in db'.series
              && db'.series[q.progress[j][i]].belongId == Some(pid)
              && j < |q.schema| && db'.series[q.progress[j][i]].duration == q.schema[j]
    {
      if j < n {
        assert q.progress[j] == p.progress[j];
      } else {
        assert q.progress[j] == ids;
      }
    }
  }

  lemma NewRoundDistinct(db: Db, progress: seq<seq<Id>>, ids: seq<Id>)
    requires db.Valid() && RoundsDistinct(progress)
    requires forall j, i :: 0 <= j < |progress| && 0 <= i < |progress[j]| ==> progress[j][i] in db.series
    requires forall i :: 0 <= i < |ids| ==> db.nextId <= ids[i]
    requires forall i, j :: 0 <= i < j < |ids| ==> ids[i] < ids[j]
    ensures RoundsDistinct(progress + [ids])
  {
    var q := progress + [ids];
    var n := |progress|;
    forall j1, i1, j2, i2 |
      && 0 <= j1 < |q| && 0 <= i1 < |q[j1]|
      && 0 <= j2 < |q| && 0 <= i2 < |q[j2]|
      && (j1 != j2 || i1 != i2)
      ensures q[j1][i1] != q[j2][i2]
    {
      if j1 < n && j2 < n {
        assert q[j1] == progress[j1] && q[j2] == progress[j2];
      } else if j1 < n {
        assert q[j1][i1] == progress[j1][i1] && progress[j1][i1] in db.series && q[j2] == ids;
      } else if j2 < n {
        assert q[j2][i2] == progress[j2][i2] && progress[j2][i2] in db.series && q[j1] == ids;
      } else {
        assert q[j1] == ids && q[j2] == ids;
        assert i1 < i2 || i2 < i1;
      }
    }
  }

  // --------------------------------------------------------------- upsert

  /** What advancing the bracket of playoff pid returns from store db: the
      store and playoff unchanged while the current round is open, the final's
      result on the playoff after a one-series round, else the next round of
      the re-seeded winners or the error building it. */
  ghost predicate Upserted(db: Db, pid: Id, r: Result<(Db, Playoff)>) {
    && db.Valid() && pid in db.playoffs && db.playoffs[pid].progress != []
    && var p := db.playoffs[pid];
    && var cur := SeriesByIds(db, Last(p.progress));
    && (!AllComplete(db, cur) ==> r == Ok((db, p)))
    && (AllComplete(db, cur) && |cur| == 1 ==>
          var p' := p.(isComplete := db.series[cur[0]].isComplete, winnerId := db.series[cur[0]].winnerId);
          r == Ok((db.(playoffs := db.playoffs[pid := p']), p')))
    && (AllComplete(db, cur) && |cur| != 1 ==>
          var couples := RoundCouplesOf(SortedTeams(Winners(db, cur), p.sortedTeams));
          var e := RoundError(db.teams, pid, RoundDuration(p.schema, p.progress), couples);
          && (r.Err? <==> e.Some?) && (r.Err? ==> e == Some(r.error))
          && (r.Ok? ==> NewRound(db, r.value.0, pid, p.progress, RoundDuration(p.schema, p.progress), couples)))
  }

  /** Advance the bracket once the current round is over: a one-series
      round completes the playoff with that series' winner; a larger round
      yields the next round, built from its winners re-seeded. While a
      series of the round is open, nothing changes. */
  method UpsertSeries(db: Db, pid: Id) returns (r: Result<(Db, Playoff)>)
    requires db.Valid() && pid in db.playoffs && db.playoffs[pid].progress != []
    ensures Upserted(db, pid, r)
    ensures r.Ok? ==> r.value.0.Valid() && r.value.1 == r.value.0.playoffs[pid] && Advanced(db, r.value.0, pid)
    ensures r.Ok? && PlayoffInv(db, pid) ==> PlayoffInv(r.value.0, pid) && Decided(db, r.value.0, pid)
  {
    var p := db.playoffs[pid];
    var cur := SeriesByIds(db, Last(p.progress));
    if !AllComplete(db, cur) {
      return Ok((db, p));
    }
    if |cur| == 1 {
      r := FinishPlayoff(db, pid, cur);
      return;
    }
    r := AdvanceRound(db, pid, cur);
  }

  /** The final is over: the playoff takes its completion and winner. */
  method FinishPlayoff(db: Db, pid: Id, cur: seq<Id>) returns (r: Result<(Db, Playoff)>)
    requires db.Valid() && pid in db.playoffs && db.playoffs[pid].progress != []
    requires var p := db.playoffs[pid];
             && cur == SeriesByIds(db, Last(p.progress)) && AllComplete(db, cur) && |cur| == 1
    ensures var p := db.playoffs[pid];
            var p' := p.(isComplete := db.series[cur[0]].isComplete, winnerId := db.series[cur[0]].winnerId);
            r == Ok((db.(playoffs := db.playoffs[pid := p']), p'))
    ensures r.Ok? ==> r.value.0.Valid() && r.value.1 == r.value.0.playoffs[pid] && Advanced(db, r.value.0, pid)
    ensures r.Ok? && PlayoffInv(db, pid) ==> PlayoffInv(r.value.0, pid) && Decided(db, r.value.0, pid)
  {
    var p := db.playoffs[pid];
    var s := db.series[cur[0]];
    var p' := p.(isComplete := s.isComplete, winnerId := s.winnerId);
    r := Ok((db.(playoffs := db.playoffs[pid := p']), p'));
    if PlayoffInv(db, pid) {
      LastRoundFound(db, pid);
      assert cur[0] in Last(p.progress);
      assert RoundsStored(r.value.0, pid, p');
    }
  }

  /** The next round, built from the winners of the finished current round,
      re-seeded. */
  method AdvanceRound(db: Db, pid: Id, cur: seq<Id>) returns (r: Result<(Db, Playoff)>)
    requires db.Valid() && pid in db.playoffs && db.playoffs[pid].progress != []
    requires var p := db.playoffs[pid];
             && cur == SeriesByIds(db, Last(p.progress)) && AllComplete(db, cur) && |cur| != 1
    ensures var p := db.playoffs[pid];
            var couples := RoundCouplesOf(SortedTeams(Winners(db, cur), p.sortedTeams));
            var e := RoundError(db.teams, pid, RoundDuration(p.schema, p.progress), couples);
            && (r.Err? <==> e.Some?) && (r.Err? ==> e == Some(r.error))
            && (r.Ok? ==> NewRound(db, r.value.0, pid, p.progress, RoundDuration(p.schema, p.progress), couples))
    ensures r.Ok? ==> && r.value.0.Valid() && Advanced(db, r.value.0, pid) && r.value.1 == r.value.0.playoffs[pid]
                      && Decided(db, r.value.0, pid)
    ensures r.Ok? && PlayoffInv(db, pid) ==> PlayoffInv(r.value.0, pid)
  {
    var p := db.playoffs[pid];
    var teams := SortedTeams(Winners(db, cur), p.sortedTeams);
    r := CreateNewRound(db, pid, p.schema, p.progress, teams);
    if r.Ok? {
      var duration := RoundDuration(p.schema, p.progress);
      NewRoundFacts(db, r.value.0, pid, p.progress, duration, RoundCouplesOf(teams));
      var ids := r.value.0.playoffs[pid].progress[|p.progress|];
      assert r.value.0.playoffs[pid].progress[..|p.progress|] == p.progress;
      if PlayoffInv(db, pid) {
        LastRoundFound(db, pid);
        NextRoundInv(db, r.value.0, pid, teams, ids);
      }
    }
  }

  /** The current round of a well-shaped bracket is found whole. */
  lemma LastRoundFound(db: Db, pid: Id)
    requires db.Valid() && PlayoffInv(db, pid)
    ensures var p := db.playoffs[pid];
            var last := Last(p.progress);
            && Distinct(last) && (forall i :: 0 <= i < |last| ==> last[i] in db.series)
            && |last| == Pow2(|p.schema| - |p.progress|)
            && |SeriesByIds(db, last)| == |last|
  {
    var p := db.playoffs[pid];
    var n := |p.progress|;
    var last := Last(p.progress);
    assert p.progress[n - 1] == last;
    forall i1, i2 | 0 <= i1 < i2 < |last| ensures last[i1] != last[i2] {
      assert p.progress[n - 1] == last;
    }
    SeriesByIdsAll(db, last);
  }

  /** A next round built from the winners of a finished round of more than
      one series keeps the bracket's shape. */
  lemma NextRoundInv(db: Db, db': Db, pid: Id, teams: seq<TeamId>, ids: seq<Id>)
    requires db.Valid() && PlayoffInv(db, pid) && Series.Grown(db, db')
    requires var p := db.playoffs[pid];
             && |teams| == |Last(p.progress)| != 1 && |ids| == |RoundCouplesOf(teams)|
             && pid in db'.playoffs && db'.playoffs[pid] == p.(progress := p.progress + [ids])
             && (|p.progress| < |p.schema| ==> FreshRound(db, db', pid, p.schema[|p.progress|], ids))
    requires |Last(db.playoffs[pid].progress)| == Pow2(|db.playoffs[pid].schema| - |db.playoffs[pid].progress|)
    ensures PlayoffInv(db', pid)
  {
    var p := db.playoffs[pid];
    var n := |p.progress|;
    var K := |p.schema|;
    assert Pow2(0) == 1;
    assert n < K;
    Pow2Step(K - n);
    assert |teams| % 2 == 0 && |RoundCouplesOf(teams)| == |teams| / 2;
    assert |ids| == Pow2(K - 1 - n);
    NewRoundInv(db, db', pid, ids);
  }

  /** What any bracket operation may do to the playoff: keep its teams and
      schema, keep or extend its progress by one round, and never clear a
      completion. */
  ghost predicate Advanced(db: Db, db': Db, pid: Id) {
    && pid in db.playoffs && pid in db'.playoffs
    && var p := db.playoffs[pid];
    && var p' := db'.playoffs[pid];
    && p'.sortedTeams == p.sortedTeams && p'.schema == p.schema
    && (p'.progress == p.progress || (|p'.progress| == |p.progress| + 1 && p'.progress[..|p.progress|] == p.progress))
    && (p.isComplete ==> p'.isComplete)
  }

  /** The playoff's status only ever changes to that of a complete
      one-series final round. */
  ghost predicate Decided(db: Db, db': Db, pid: Id) {
    && pid in db.playoffs && pid in db'.playoffs
    && var p := db.playoffs[pid];
    && var p' := db'.playoffs[pid];
    && ((p'.isComplete, p'.winnerId) != (p.isComplete, p.winnerId) ==>
          && p.progress != [] && |Last(p.progress)| == 1
          && Last(p.progress)[0] in db'.series && db'.series[Last(p.progress)[0]].isComplete
          && p'.isComplete && p'.winnerId == db'.series[Last(p.progress)[0]].winnerId)
  }

  // ------------------------------------------------------ series results

  /** The guard of the three result operations: the playoff must have a
      current round and the series must be in it. */
  function SeriaCheck(db: Db, pid: Id, seriaId: Id): (e: Option<Error>)
    ensures e.None? <==> pid in db.playoffs && db.playoffs[pid].progress != [] && seriaId in Last(db.playoffs[pid].progress)
  {
    if pid !in db.playoffs || db.playoffs[pid].progress == [] then Some(Crash)
    else if seriaId !in Last(db.playoffs[pid].progress) then Some(Error(BadRequest, InvalidSeriaId))
    else None
  }

  /** A result written to one series (its owner and duration kept) leaves
      the bracket's shape intact. */
  lemma SeriaStepKeepsInv(db: Db, db1: Db, pid: Id, seriaId: Id)
    requires PlayoffInv(db, pid) && Series.SeriaFrame(db, db1, seriaId)
    requires seriaId in db.series && seriaId in db1.series
    requires db1.series[seriaId].belongId == db.series[seriaId].belongId
    requires db1.series[seriaId].duration == db.series[seriaId].duration
    ensures PlayoffInv(db1, pid)
  {
    var p := db.playoffs[pid];
    forall j, i | 0 <= j < |p.progress| && 0 <= i < |p.progress[j]|
      ensures && p.progress[j][i] in db1.series
              && db1.series[p.progress[j][i]].belongId == Some(pid)
              && j < |p.schema| && db1.series[p.progress[j][i]].duration == p.schema[j]
    {
    }
  }

  /** Play the next match of a series of the current round, then advance
      the bracket. */
  method PlayMatch(db: Db, pid: Id, seriaId: Id, home: int, away: int)
    returns (r: Result<(Db, Playoff)>, ghost step: Result<(Db, Seria)>)
    requires db.Valid()
    ensures SeriaCheck(db, pid, seriaId).Some? ==> r == Err(SeriaCheck(db, pid, seriaId).value)
    ensures SeriaCheck(db, pid, seriaId).None? ==>
              && Series.PlayOutcome(db, seriaId, home, away, Some(pid), step)
              && (step.Err? ==> r == Err(step.error))
              && (step.Ok? ==> Upserted(step.value.0, pid, r))
    ensures SeriaCheck(db, pid, seriaId).None? && home == away ==> r == Err(Error(BadRequest, EqualScoreInSeriaMatch))
    ensures r.Ok? ==> && SeriaCheck(db, pid, seriaId).None? && home != away
                      && r.value.0.Valid() && Advanced(db, r.value.0, pid) && r.value.1 == r.value.0.playoffs[pid]
    ensures r.Ok? && PlayoffInv(db, pid) ==> PlayoffInv(r.value.0, pid) && Decided(db, r.value.0, pid)
  {
    var check := SeriaCheck(db, pid, seriaId);
    if check.Some? {
      return Err(check.value), Err(check.value);
    }
    var played := Series.PlayMatch(db, seriaId, home, away, Some(pid));
    step := played;
    if played.Err? {
      return Err(played.error), step;
    }
    var db1 := played.value.0;
    if PlayoffInv(db, pid) {
      SeriaStepKeepsInv(db, db1, pid, seriaId);
    }
    r := UpsertSeries(db1, pid);
  }

  /** Rewrite the last played match of a series of the current round, then
      advance the bracket. */
  method ChangeLastMatch(db: Db, pid: Id, seriaId: Id, home: int, away: int)
    returns (r: Result<(Db, Playoff)>, ghost step: Result<(Db, Seria)>)
    requires db.Valid()
    ensures SeriaCheck(db, pid, seriaId).Some? ==> r == Err(SeriaCheck(db, pid, seriaId).value)
    ensures SeriaCheck(db, pid, seriaId).None? ==>
              && Series.ChangeOutcome(db, seriaId, Score(Some(home), Some(away)), Some(pid), step)
              && (step.Err? ==> r == Err(step.error))
              && (step.Ok? ==> Upserted(step.value.0, pid, r))
    ensures r.Ok? ==> && SeriaCheck(db, pid, seriaId).None?
                      && r.value.0.Valid() && Advanced(db, r.value.0, pid) && r.value.1 == r.value.0.playoffs[pid]
    ensures r.Ok? && PlayoffInv(db, pid) ==> PlayoffInv(r.value.0, pid) && Decided(db, r.value.0, pid)
  {
    var check := SeriaCheck(db, pid, seriaId);
    if check.Some? {
      return Err(check.value), Err(check.value);
    }
    var changed := Series.ChangeLastMatch(db, seriaId, Score(Some(home), Some(away)), Some(pid));
    step := changed;
    if changed.Err? {
      return Err(changed.error), step;
    }
    var db1 := changed.value.0;
    if PlayoffInv(db, pid) {
      SeriaStepKeepsInv(db, db1, pid, seriaId);
    }
    r := UpsertSeries(db1, pid);
  }

  /** Reset the last played match of a series of the current round, then
      advance the bracket. */
  method ResetLastMatch(db: Db, pid: Id, seriaId: Id)
    returns (r: Result<(Db, Playoff)>, ghost step: Result<(Db, Seria)>)
    requires db.Valid()
    ensures SeriaCheck(db, pid, seriaId).Some? ==> r == Err(SeriaCheck(db, pid, seriaId).value)
    ensures SeriaCheck(db, pid, seriaId).None? ==>
              && Series.ResetOutcome(db, seriaId, Some(pid), step)
              && (step.Err? ==> r == Err(step.error))
              && (step.Ok? ==> Upserted(step.value.0, pid, r))
    ensures r.Ok? ==> && SeriaCheck(db, pid, seriaId).None?
                      && r.value.0.Valid() && Advanced(db, r.value.0, pid) && r.value.1 == r.value.0.playoffs[pid]
    ensures r.Ok? && PlayoffInv(db, pid) ==> PlayoffInv(r.value.0, pid) && Decided(db, r.value.0, pid)
  {
    var check := SeriaCheck(db, pid, seriaId);
    if check.Some? {
      return Err(check.value), Err(check.value);
    }
    var reset := Series.ResetLastMatch(db, seriaId, Some(pid));
    step := reset;
    if reset.Err? {
      return Err(reset.error), step;
    }
    var db1 := reset.value.0;
    if PlayoffInv(db, pid) {
      SeriaStepKeepsInv(db, db1, pid, seriaId);
    }
    r := UpsertSeries(db1, pid);
  }

  // -------------------------------------------------------------- removal

  /** The error destroying the current round throws, if any. */
  function DestroyError(db: Db, pid: Id): Option<Error> {
    if pid !in db.playoffs then Some(Crash)
    else if |db.playoffs[pid].progress| < 2 then Some(Error(Conflict, CannotRemoveRound))
    else Series.RemoveAllError(db, Last(db.playoffs[pid].progress), Some(pid))
  }

  /** Remove the series of the current round and drop the round from the
      progress. The playoff's status is left as it was. */
  method DestroyLastRound(db: Db, pid: Id) returns (r: Result<(Db, Playoff)>)
    requires db.Valid()
    ensures (r.Err? <==> DestroyError(db, pid).Some?) && (r.Err? ==> Some(r.error) == DestroyError(db, pid))
    ensures r.Ok? ==> var p := db.playoffs[pid];
                      var p' := p.(progress := p.progress[..|p.progress| - 1]);
                      && r.value.1 == p'
                      && r.value.0 == Series.WithoutSeries(db, SetOf(Last(p.progress))).(playoffs := db.playoffs[pid := p'])
    ensures PlayoffInv(db, pid) && |db.playoffs[pid].progress| >= 2 ==> r.Ok? && PlayoffInv(r.value.0, pid)
  {
    if pid !in db.playoffs {
      return Err(Crash);
    }
    var p := db.playoffs[pid];
    if |p.progress| < 2 {
      return Err(Error(Conflict, CannotRemoveRound));
    }
    var removed := Series.RemoveSeries(db, Last(p.progress), Some(pid));
    if removed.Err? {
      return Err(removed.error);
    }
    var p' := p.(progress := p.progress[..|p.progress| - 1]);
    r := Ok((removed.value.(playoffs := removed.value.playoffs[pid := p']), p'));
    if PlayoffInv(db, pid) {
      LastRoundRemovable(db, pid);
      DestroyKeepsInv(db, r.value.0, pid);
    }
  }

  /** On a well-shaped bracket the current round can always be removed on
      the playoff's behalf. */
  lemma LastRoundRemovable(db: Db, pid: Id)
    requires db.Valid() && PlayoffInv(db, pid)
    ensures Series.RemoveAllError(db, Last(db.playoffs[pid].progress), Some(pid)).None?
  {
    var p := db.playoffs[pid];
    var n := |p.progress|;
    var last := Last(p.progress);
    LastRoundFound(db, pid);
    forall i | 0 <= i < |last|
      ensures Series.RemoveError(db, last[i], Some(pid)).None?
    {
      assert last[i] == p.progress[n - 1][i];
    }
  }

  /** Without its current round, a well-shaped bracket of two rounds or
      more keeps the shape. */
  lemma DestroyKeepsInv(db: Db, db': Db, pid: Id)
    requires db.Valid() && PlayoffInv(db, pid) && |db.playoffs[pid].progress| >= 2
    requires var p := db.playoffs[pid];
             && db'.Valid() && pid in db'.playoffs
             && db'.playoffs[pid] == p.(progress := p.progress[..|p.progress| - 1])
             && (forall k :: k in db'.series <==> k in db.series && k !in SetOf(Last(p.progress)))
             && (forall k :: k in db'.series ==> db'.series[k] == db.series[k])
    ensures PlayoffInv(db', pid)
  {
    var p := db.playoffs[pid];
    var n := |p.progress|;
    var p' := db'.playoffs[pid];
    DestroyStored(db, db', pid, p);
    RoundsDistinctPrefix(p.progress, n - 1);
    forall j | 0 <= j < |p'.progress|
      ensures |p'.progress[j]| == Pow2(|p.schema| - 1 - j)
    {
      assert p'.progress[j] == p.progress[j];
    }
  }

  /** The earlier rounds survive the removal of the current one. */
  lemma DestroyStored(db: Db, db': Db, pid: Id, p: Playoff)
    requires |p.progress| >= 2 && RoundsDistinct(p.progress) && RoundsStored(db, pid, p)
    requires forall k :: k in db'.series <==> k in db.series && k !in SetOf(Last(p.progress))
    requires forall k :: k in db'.series ==> db'.series[k] == db.series[k]
    ensures RoundsStored(db', pid, p.(progress := p.progress[..|p.progress| - 1]))
  {
    var n := |p.progress|;
    var last := Last(p.progress);
    var p' := p.(progress := p.progress[..n - 1]);
    forall j, i | 0 <= j < |p'.progress| && 0 <= i < |p'.progress[j]|
      ensures && p'.progress[j][i] in db'.series
              && db'.series[p'.progress[j][i]].belongId == Some(pid)
              && j < |p'.schema| && db'.series[p'.progress[j][i]].duration == p'.schema[j]
    {
      var x := p.progress[j][i];
      assert p'.progress[j][i] == x;
      forall k | 0 <= k < |last| ensures last[k] != x {
        assert last[k] == p.progress[n - 1][k];
      }
      assert x in db.series;
      assert x !in SetOf(last);
    }
    assert RoundsStored(db', pid, p');
  }

  /** A prefix of a bracket without repeats has none either. */
  lemma RoundsDistinctPrefix(progress: seq<seq<Id>>, m: nat)
    requires m <= |progress| && RoundsDistinct(progress)
    ensures RoundsDistinct(progress[..m])
  {
    var q := progress[..m];
    forall j1, i1, j2, i2 |
      && 0 <= j1 < |q| && 0 <= i1 < |q[j1]|
      && 0 <= j2 < |q| && 0 <= i2 < |q[j2]|
      && (j1 != j2 || i1 != i2)
      ensures q[j1][i1] != q[j2][i2]
    {
      assert q[j1] == progress[j1] && q[j2] == progress[j2];
    }
  }

  /** Remove a playoff with every series it owns (and their matches);
      return the removed playoff, or nothing when there was none. */
  method Remove(db: Db, pid: Id) returns (db': Db, removed: Option<Playoff>)
    requires db.Valid()
    ensures db' == Series.WithoutSeries(db, SetOf(SeriaIdsOf(db, pid))).(playoffs := db.playoffs - {pid})
    ensures removed == (if pid in db.playoffs then Some(db.playoffs[pid]) else None)
    ensures db'.Valid() && pid !in db'.playoffs
    ensures forall k :: k in db'.series ==> db'.series[k].belongId != Some(pid)
  {
    var owned := SeriaIdsOf(db, pid);
    OwnedRemovable(db, pid);
    var cascade := Series.RemoveSeries(db, owned, Some(pid));
    db' := cascade.value.(playoffs := cascade.value.playoffs - {pid});
    removed := if pid in db.playoffs then Some(db.playoffs[pid]) else None;
  }

  /** The series a playoff owns can all be removed on its behalf. */
  lemma OwnedRemovable(db: Db, pid: Id)
    ensures Series.RemoveAllError(db, SeriaIdsOf(db, pid), Some(pid)).None?
  {
    var owned := SeriaIdsOf(db, pid);
    forall i | 0 <= i < |owned|
      ensures Series.RemoveError(db, owned[i], Some(pid)).None?
    {
      assert owned[i] in owned;
    }
  }

  // ------------------------------------------------------------- creation

  /** The error creating a playoff throws, if any: an invalid schema, a team
      count other than 2^rounds, or the first failing series of round one. */
  function CreateError(db: Db, schema: seq<int>, sortedTeams: seq<TeamId>): Option<Error> {
    if !SchemaValid(schema) then Some(Error(BadRequest, PlayoffSchemaNotValid))
    else if !TeamsAmountValid(sortedTeams, schema) then Some(Error(BadRequest, TeamsAmountNotValid))
    else RoundError(db.teams, db.nextId, Some(schema[0]), Couples(sortedTeams))
  }

  /** The playoff as first stored, before its first round. */
  function Blank(schema: seq<int>, sortedTeams: seq<TeamId>): Playoff {
    Playoff(sortedTeams, schema, [], None, false)
  }

  /** What creating a playoff leaves: a valid schema and team count, a blank
      playoff stored under the next id, and its first round built from the
      seeded couples. */
  ghost predicate Created(db: Db, schema: seq<int>, sortedTeams: seq<TeamId>, db': Db, p': Playoff) {
    && SchemaValid(schema) && TeamsAmountValid(sortedTeams, schema)
    && var pid := db.nextId;
    && var db0 := db.(playoffs := db.playoffs[pid := Blank(schema, sortedTeams)], nextId := pid + 1);
    && pid !in db.playoffs
    && NewRound(db0, db', pid, [], Some(schema[0]), Couples(sortedTeams))
    && db'.Valid() && PlayoffInv(db', pid) && p' == db'.playoffs[pid]
  }

  /** Create a playoff and its first round: the seeds paired first against
      last, every series over the first schema duration. */
  method Create(db: Db, schema: seq<int>, sortedTeams: seq<TeamId>) returns (r: Result<(Db, Playoff)>)
    requires db.Valid()
    ensures (r.Err? <==> CreateError(db, schema, sortedTeams).Some?)
            && (r.Err? ==> Some(r.error) == CreateError(db, schema, sortedTeams))
    ensures r.Ok? ==> Created(db, schema, sortedTeams, r.value.0, r.value.1)
  {
    if !SchemaValid(schema) {
      return Err(Error(BadRequest, PlayoffSchemaNotValid));
    }
    if !TeamsAmountValid(sortedTeams, schema) {
      return Err(Error(BadRequest, TeamsAmountNotValid));
    }
    var (pid, db1) := db.Fresh();
    var db0 := db1.(playoffs := db.playoffs[pid := Blank(schema, sortedTeams)]);
    Pow2Step(|schema|);
    assert RoundCouplesOf(sortedTeams) == Couples(sortedTeams);
    assert RoundDuration(schema, []) == Some(schema[0]);
    assert db0 == db.(playoffs := db.playoffs[pid := Blank(schema, sortedTeams)], nextId := pid + 1);
    r := CreateNewRound(db0, pid, schema, [], sortedTeams);
    if r.Ok? {
      FirstRoundCreated(db0, r.value.0, pid, schema, sortedTeams);
    }
  }

  lemma FirstRoundCreated(db0: Db, db': Db, pid: Id, schema: seq<int>, sortedTeams: seq<TeamId>)
    requires db0.Valid() && pid in db0.playoffs && db0.playoffs[pid] == Blank(schema, sortedTeams)
    requires SchemaValid(schema) && TeamsAmountValid(sortedTeams, schema)
    requires NewRound(db0, db', pid, [], Some(schema[0]), Couples(sortedTeams))
    ensures db'.Valid() && PlayoffInv(db', pid)
  {
    NewRoundFacts(db0, db', pid, [], Some(schema[0]), Couples(sortedTeams));
    Pow2Step(|schema|);
    var ids := db'.playoffs[pid].progress[0];
    FirstRoundInv(db0, db', pid, ids);
  }

  /** The first round of a valid playoff has the bracket's shape. */
  lemma FirstRoundInv(db: Db, db': Db, pid: Id, ids: seq<Id>)
    requires db.Valid() && pid in db.playoffs && pid in db'.playoffs && Series.Grown(db, db')
    requires var p := db.playoffs[pid];
             && SchemaValid(p.schema) && |p.sortedTeams| == Pow2(|p.schema|) && p.progress == []
             && |ids| == |p.sortedTeams| / 2
             && db'.playoffs[pid] == p.(progress := [ids])
             && FreshRound(db, db', pid, p.schema[0], ids)
    ensures PlayoffInv(db', pid)
  {
    var p := db.playoffs[pid];
    Pow2Step(|p.schema|);
    assert p.progress + [ids] == [ids];
    NewRoundInv(db, db', pid, ids);
  }
}
