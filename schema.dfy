/** The stored documents (one datatype per collection) and the store itself:
    a map per collection, the set of existing team ids, and the counter from
    which fresh document ids are drawn. */
module Schema {
  import opened Core

  /** A map name, or the null / undefined a match gets when its series has no
      pool or the pool has run dry. */
  type MapSlot = Option<string>

  /** A score pair; each side is null until the match is played. */
  datatype Score = Score(home: Option<int>, away: Option<int>)

  const NoScore := Score(None, None)

  datatype Match = Match(
    homeTeamId: TeamId,
    awayTeamId: TeamId,
    belongId: Option<Id>,
    mapName: MapSlot,
    roundsAmount: int,
    winnerId: Option<TeamId>,
    score: Score,
    isComplete: bool,
    isOvertime: Option<bool>)

  /** The four allowed "best of N" durations. */
  predicate IsSeriaDuration(d: int) {
    d == 1 || d == 3 || d == 5 || d == 7
  }

  datatype Seria = Seria(
    upSeedTeamId: TeamId,
    downSeedTeamId: TeamId,
    belongId: Option<Id>,
    duration: int,
    mapPool: Option<seq<MapSlot>>,
    matchOrder: seq<Id>,
    winnerId: Option<TeamId>,
    isComplete: bool)

  datatype Playoff = Playoff(
    sortedTeams: seq<TeamId>,
    schema: seq<int>,
    progress: seq<seq<Id>>,
    winnerId: Option<TeamId>,
    isComplete: bool)

  datatype PlacesCriteria =
    | Points | Wins | WinsInRegTime | WinsInOt | WinsPercent
    | Losts | LostsInRegTime | LostsInOt | LostsPercent
    | ScoresEarned | ScoresMissed | ScoresDifference | Draws | Seed

  /** Per-team tallies: five outcome slots (win, win in overtime, draw, loss in
      overtime, loss), games won/lost, and score for/against. */
  datatype TeamStat = TeamStat(totalMatchesStat: seq<int>, totalGames: seq<int>, totalScore: seq<int>)
  {
    predicate WellFormed() {
      |totalMatchesStat| == 5 && |totalGames| == 2 && |totalScore| == 2
    }
  }

  /** A team's standing in a group. `None` stands for a value the runtime
      computes as undefined or NaN: the seed of a team the group never
      seeded, the points under a coefficient list too short for the five
      outcome slots, and the ranking values derived from them. */
  datatype GroupTeamStat = GroupTeamStat(
    seed: Option<int>,
    points: Option<int>,
    totalMatchesStat: seq<int>,
    totalScore: seq<int>,
    totalGames: seq<int>,
    rangeCriteria: seq<Option<int>>)

  type Table = seq<TeamId>

  datatype StageGames = StageGames(matches: Option<seq<Id>>, series: Option<seq<Id>>)

  datatype StageProgress = StageProgress(tables: Option<seq<Table>>, games: StageGames)

  datatype Group = Group(
    teams: seq<TeamId>,
    stages: int,
    placesCriteria: seq<PlacesCriteria>,
    pointKoeffs: seq<int>,
    progress: seq<StageProgress>,
    stats: map<TeamId, GroupTeamStat>,
    result: Option<seq<Option<seq<Table>>>>,
    isComplete: bool)

  /** The whole store. */
  datatype Db = Db(
    matches: map<Id, Match>,
    series: map<Id, Seria>,
    playoffs: map<Id, Playoff>,
    groups: map<Id, Group>,
    teams: set<TeamId>,
    nextId: nat)
  {
    /** Every stored id was drawn from the counter, so the counter is fresh. */
    predicate Valid() {
      && (forall id :: id in matches ==> id < nextId)
      && (forall id :: id in series ==> id < nextId)
      && (forall id :: id in playoffs ==> id < nextId)
      && (forall id :: id in groups ==> id < nextId)
    }

    /** Draw a fresh document id. */
    function Fresh(): (r: (Id, Db))
      ensures r.0 == nextId && r.1 == this.(nextId := nextId + 1)
      ensures Valid() ==> r.1.Valid() && r.0 !in matches && r.0 !in series
                          && r.0 !in playoffs && r.0 !in groups
    {
      (nextId, this.(nextId := nextId + 1))
    }
  }

  /** The keys of `m` below `n`, ascending: the order in which a query
      returns documents (their creation order). */
  function KeysBelow<T>(m: map<Id, T>, n: nat): (ks: seq<Id>)
    ensures forall k :: k in ks <==> k in m && k < n
    ensures forall i, j :: 0 <= i < j < |ks| ==> ks[i] < ks[j]
    ensures forall i :: 0 <= i < |ks| ==> ks[i] < n
  {
    if n == 0 then []
    else KeysBelow(m, n - 1) + (if n - 1 in m then [n - 1] else [])
  }

  /** The ids among `ks` of the documents whose owner, as `belongId`
      reads it, is `owner`, in the order of `ks` (a query by owner). */
  function OwnedBy<D>(m: map<Id, D>, ks: seq<Id>, belongId: D -> Option<Id>, owner: Id): (ids: seq<Id>)
    requires forall k :: k in ks ==> k in m
    requires forall i, j :: 0 <= i < j < |ks| ==> ks[i] < ks[j]
    ensures forall k :: k in ids <==> k in ks && belongId(m[k]) == Some(owner)
    ensures forall i, j :: 0 <= i < j < |ids| ==> ids[i] < ids[j]
  {
    if ks == [] then []
    else
      var pre := ks[..|ks| - 1];
      var rest := OwnedBy(m, pre, belongId, owner);
      var k := ks[|ks| - 1];
      assert forall i :: 0 <= i < |pre| ==> pre[i] < k;
      assert forall x :: x in rest ==> x < k;
      forall i | 0 <= i < |rest| ensures rest[i] < k { assert rest[i] in rest; }
      rest + (if belongId(m[k]) == Some(owner) then [k] else [])
  }

  /** The ids of all matches whose `belongId` is `owner`. */
  function MatchIdsOf(db: Db, owner: Id): (ids: seq<Id>)
    ensures forall k :: k in ids <==> k in db.matches && k < db.nextId && db.matches[k].belongId == Some(owner)
    ensures Distinct(ids)
  {
    OwnedBy(db.matches, KeysBelow(db.matches, db.nextId), (x: Match) => x.belongId, owner)
  }

  /** The ids of all series whose `belongId` is `owner`. */
  function SeriaIdsOf(db: Db, owner: Id): (ids: seq<Id>)
    ensures forall k :: k in ids <==> k in db.series && k < db.nextId && db.series[k].belongId == Some(owner)
    ensures Distinct(ids)
  {
    OwnedBy(db.series, KeysBelow(db.series, db.nextId), (x: Seria) => x.belongId, owner)
  }

  /** The documents behind a list of ids, in that order. */
  function MatchesAt(m: map<Id, Match>, ids: seq<Id>): (ms: seq<Match>)
    requires forall k :: k in ids ==> k in m
    ensures |ms| == |ids| && forall i :: 0 <= i < |ids| ==> ms[i] == m[ids[i]]
  {
    seq(|ids|, i requires 0 <= i < |ids| => m[ids[i]])
  }
}
