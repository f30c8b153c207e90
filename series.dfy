/** The best-of-N series engine. A series owns its matches (their `belongId`
    is the series id); `matchOrder` lists them in play order and `mapPool`
    holds the maps not yet handed to a match. After every played or changed
    match, reconciliation adds or removes one trailing match so that the
    number of unplayed matches is exactly what the leader still needs. */
module Series {
  import opened Core
  import opened Schema
  import Matches
  import TeamStats

  // ---------------------------------------------------------------- rules

  /** Wins needed to take a best-of-`duration` series. */
  function Threshold(duration: int): (t: int)
    ensures IsSeriaDuration(duration) ==> t >= 1 && 2 * t - 1 == duration
  {
    (duration + 1) / 2
  }

  predicate IsHomeWin(m: Match) {
    m.isComplete && m.winnerId == Some(m.homeTeamId)
  }

  predicate IsAwayWin(m: Match) {
    m.isComplete && m.winnerId == Some(m.awayTeamId)
  }

  predicate IsIncomplete(m: Match) {
    !m.isComplete
  }

  /** Complete matches won by the home side and by the away side. */
  function GetScore(ms: seq<Match>): (int, int) {
    (CountIf(ms, IsHomeWin), CountIf(ms, IsAwayWin))
  }

  function Leader(score: (int, int)): (l: int)
    ensures l >= score.0 && l >= score.1 && (l == score.0 || l == score.1)
  {
    if score.0 >= score.1 then score.0 else score.1
  }

  /** The side whose count reached the threshold, the up seed checked first. */
  function GetWinnerId(s: Seria, score: (int, int)): (w: Option<TeamId>)
    ensures w.Some? <==> score.0 == Threshold(s.duration) || score.1 == Threshold(s.duration)
    ensures score.0 == Threshold(s.duration) ==> w == Some(s.upSeedTeamId)
    ensures score.0 != Threshold(s.duration) && score.1 == Threshold(s.duration) ==> w == Some(s.downSeedTeamId)
  {
    var t := Threshold(s.duration);
    if score.0 == t || score.1 == t then
      if score.0 == t then Some(s.upSeedTeamId) else Some(s.downSeedTeamId)
    else None
  }

  /** Unplayed matches still missing (positive) or in excess (negative). */
  function Gap(t: int, ms: seq<Match>): int {
    t - Leader(GetScore(ms)) - CountIf(ms, IsIncomplete)
  }

  /** Complete matches first, then incomplete ones. */
  predicate Ordered(ms: seq<Match>) {
    forall i, j :: 0 <= i < j < |ms| && ms[j].isComplete ==> ms[i].isComplete
  }

  /** Index of the first incomplete match, or -1 (the forward `find`). */
  function FirstIncompleteIndex(ms: seq<Match>): (k: int)
    ensures -1 <= k < |ms|
    ensures k >= 0 ==> !ms[k].isComplete
    ensures forall j :: 0 <= j < |ms| && (k == -1 || j < k) ==> ms[j].isComplete
  {
    if ms == [] then -1
    else if !ms[0].isComplete then 0
    else
      var k := FirstIncompleteIndex(ms[1..]);
      if k == -1 then -1 else k + 1
  }

  /** Index of the last complete match, or -1 (the `find` over the reversed list). */
  function LastCompleteIndex(ms: seq<Match>): (k: int)
    ensures -1 <= k < |ms|
    ensures k >= 0 ==> ms[k].isComplete
    ensures forall j :: k < j < |ms| ==> !ms[j].isComplete
  {
    if ms == [] then -1
    else if ms[|ms| - 1].isComplete then |ms| - 1
    else LastCompleteIndex(ms[..|ms| - 1])
  }

  lemma LastCompleteIndexIs(ms: seq<Match>, k: int)
    requires -1 <= k < |ms| && (k >= 0 ==> ms[k].isComplete)
    requires forall j :: k < j < |ms| ==> !ms[j].isComplete
    ensures LastCompleteIndex(ms) == k
  {
  }

  /** A side at the threshold won the last complete match. This holds of
      every series the engine builds and rules out a side beyond the
      threshold after one changed match. */
  predicate LastWinRule(ms: seq<Match>, t: int) {
    var k := LastCompleteIndex(ms);
    && (CountIf(ms, IsHomeWin) == t ==> k >= 0 && IsHomeWin(ms[k]))
    && (CountIf(ms, IsAwayWin) == t ==> k >= 0 && IsAwayWin(ms[k]))
  }

  // ------------------------------------------------------------ the store

  /** A match id the series can see: stored and owned by the series. */
  predicate Found(db: Db, seriaId: Id, mid: Id) {
    mid in db.matches && db.matches[mid].belongId == Some(seriaId)
  }

  predicate OrderFound(db: Db, seriaId: Id, order: seq<Id>) {
    forall i :: 0 <= i < |order| ==> Found(db, seriaId, order[i])
  }

  /** The matches of the series in `matchOrder`, or `None` when an id is not
      among the series' matches (the lookup then yields undefined and the
      next dereference throws). */
  function SortedMatches(db: Db, seriaId: Id, order: seq<Id>): (r: Option<seq<Match>>)
    ensures r.Some? <==> OrderFound(db, seriaId, order)
    ensures r.Some? ==> r.value == MatchesAt(db.matches, order)
  {
    if OrderFound(db, seriaId, order) then Some(MatchesAt(db.matches, order)) else None
  }

  /** The invariant of a series: its matches are all there, in order, and
      as many are unplayed as the leader still needs; the stored status
      agrees with the score. */
  predicate SeriaInv(db: Db, seriaId: Id) {
    && seriaId in db.series
    && IsSeriaDuration(db.series[seriaId].duration)
    && OrderFound(db, seriaId, db.series[seriaId].matchOrder)
    && Distinct(db.series[seriaId].matchOrder)
    && Settled(db.series[seriaId], MatchesAt(db.matches, db.series[seriaId].matchOrder))
  }

  /** The part of the invariant about the listed matches alone. */
  predicate Settled(s: Seria, ms: seq<Match>) {
    var t := Threshold(s.duration);
    && Ordered(ms)
    && LastWinRule(ms, t)
    && Gap(t, ms) == 0
    && s.isComplete == (Leader(GetScore(ms)) == t)
    && s.winnerId == GetWinnerId(s, GetScore(ms))
  }

  /** What reconciliation starts from: at most one unplayed match too many
      or too few. */
  predicate NearlySettled(t: int, ms: seq<Match>) {
    && Ordered(ms)
    && LastWinRule(ms, t)
    && Leader(GetScore(ms)) <= t
    && -1 <= Gap(t, ms) <= 1
  }

  /** What an operation on series `seriaId` may change: that series, its own
      and unowned matches, and fresh ids. */
  predicate SeriaFrame(db: Db, db': Db, seriaId: Id) {
    && db'.teams == db.teams && db'.playoffs == db.playoffs && db'.groups == db.groups
    && db'.nextId >= db.nextId
    && (forall k :: k in db.series && k != seriaId ==> k in db'.series && db'.series[k] == db.series[k])
    && (forall k :: k in db'.series && k != seriaId ==> k in db.series)
    && (forall k :: k in db.matches && db.matches[k].belongId.Some? && db.matches[k].belongId != Some(seriaId)
          ==> k in db'.matches && db'.matches[k] == db.matches[k])
    && (forall k :: k in db'.matches && k !in db.matches ==> db'.matches[k].belongId == Some(seriaId) && k >= db.nextId)
    && (forall k :: k in db.matches && k in db'.matches ==> db'.matches[k].belongId == db.matches[k].belongId)
  }

  /** Work on one series leaves the invariant of every other series intact. */
  lemma {:induction false} SeriaInvFrame(db: Db, db': Db, seriaId: Id, other: Id)
    requires SeriaInv(db, other) && SeriaFrame(db, db', seriaId) && other != seriaId
    ensures SeriaInv(db', other)
  {
    var s := db.series[other];
    assert db'.series[other] == s;
    forall i | 0 <= i < |s.matchOrder|
      ensures Found(db', other, s.matchOrder[i]) && db'.matches[s.matchOrder[i]] == db.matches[s.matchOrder[i]]
    {
      assert Found(db, other, s.matchOrder[i]);
    }
    assert MatchesAt(db'.matches, s.matchOrder) == MatchesAt(db.matches, s.matchOrder);
  }

  // ------------------------------------------------------- reconciliation

  /** The series with its status recomputed from the given matches. */
  function Settle(s: Seria, ms: seq<Match>): Seria {
    var score := GetScore(ms);
    s.(isComplete := Leader(score) == Threshold(s.duration), winnerId := GetWinnerId(s, score))
  }

  /** The state reconciliation starts from: the listed matches are the
      series' matches in order, with at most one unplayed match too many or
      too few. */
  predicate ReadyToSettle(db: Db, seriaId: Id, s: Seria, ms: seq<Match>) {
    && IsSeriaDuration(s.duration)
    && OrderFound(db, seriaId, s.matchOrder)
    && Distinct(s.matchOrder)
    && ms == MatchesAt(db.matches, s.matchOrder)
    && NearlySettled(Threshold(s.duration), ms)
  }

  function Head(pool: seq<MapSlot>): MapSlot {
    if pool == [] then None else pool[0]
  }

  function Tail(pool: seq<MapSlot>): seq<MapSlot> {
    if pool == [] then [] else pool[1..]
  }

  function NextMatchInfo(s: Seria, seriaId: Id, pool: seq<MapSlot>): Matches.MatchInfo {
    Matches.MatchInfo(s.upSeedTeamId, s.downSeedTeamId, Head(pool), Some(seriaId))
  }

  /** Reconciliation: add one trailing match (map shifted from the front of
      the pool) when unplayed matches are missing, remove the last match of
      `matchOrder` (its map pushed back to the front of the pool) when there
      are too many, then store pool, order and status. `ms` is the caller's
      list of the series' matches. */
  method Reconcile(db: Db, seriaId: Id, s: Seria, ms: seq<Match>) returns (r: Result<(Db, Seria)>)
    requires db.Valid() && seriaId in db.series
    ensures var t := Threshold(s.duration);
            var settled := Settle(s, ms);
            var order := s.matchOrder;
            && (Gap(t, ms) > 0 && s.mapPool.None? ==> r == Err(Crash))
            && (Gap(t, ms) > 0 && s.mapPool.Some? ==>
                  var info := NextMatchInfo(s, seriaId, s.mapPool.value);
                  && (r.Err? <==> Matches.CreateError(db.teams, info).Some?)
                  && (r.Err? ==> r.error == Matches.CreateError(db.teams, info).value)
                  && (r.Ok? ==>
                        var s' := settled.(mapPool := Some(Tail(s.mapPool.value)), matchOrder := order + [db.nextId]);
                        r.value == (db.(matches := db.matches[db.nextId := Matches.NewMatch(info)],
                                        series := db.series[seriaId := s'], nextId := db.nextId + 1), s')))
            && (Gap(t, ms) < 0 && order == [] ==> r == Err(Crash))
            && (Gap(t, ms) < 0 && order != [] ==>
                  var last := order[|order| - 1];
                  && (last !in db.matches ==> r == Err(Crash))
                  && (last in db.matches && !Matches.OwnerAllows(db.matches[last].belongId, Some(seriaId)) ==>
                        r == Err(Error(Conflict, ReadonlySeria)))
                  && var allowed := last in db.matches && Matches.OwnerAllows(db.matches[last].belongId, Some(seriaId));
                  && (allowed && s.mapPool.None? ==> r == Err(Crash))
                  && (allowed && s.mapPool.Some? ==>
                        var s' := settled.(mapPool := Some([db.matches[last].mapName] + s.mapPool.value),
                                           matchOrder := order[..|order| - 1]);
                        r == Ok((db.(matches := db.matches - {last}, series := db.series[seriaId := s']), s'))))
            && (Gap(t, ms) == 0 ==> r == Ok((db.(series := db.series[seriaId := settled]), settled)))
    ensures r.Ok? ==> r.value.0.Valid() && r.value.0.series[seriaId] == r.value.1
    ensures r.Ok? ==> r.value.1.upSeedTeamId == s.upSeedTeamId && r.value.1.downSeedTeamId == s.downSeedTeamId
                      && r.value.1.belongId == s.belongId && r.value.1.duration == s.duration
    ensures r.Ok? ==> SeriaFrame(db, r.value.0, seriaId)
    ensures r.Ok? && s.mapPool.Some? && (Gap(Threshold(s.duration), ms) <= 0 || s.mapPool.value != []) ==>
              r.value.1.mapPool.Some?
              && |r.value.1.mapPool.value| + |r.value.1.matchOrder| == |s.mapPool.value| + |s.matchOrder|
    ensures r.Ok? && ReadyToSettle(db, seriaId, s, ms) ==> SeriaInv(r.value.0, seriaId)
  {
    var gap := Gap(Threshold(s.duration), ms);
    if gap > 0 {
      r := AddMissingMatch(db, seriaId, s, ms);
    } else if gap < 0 {
      r := DropExtraMatch(db, seriaId, s, ms);
    } else {
      var settled := Settle(s, ms);
      var db' := db.(series := db.series[seriaId := settled]);
      FrameAfterDrop(db, seriaId, -1, settled);
      if ReadyToSettle(db, seriaId, s, ms) {
        assert MatchesAt(db'.matches, settled.matchOrder) == ms;
      }
      r := Ok((db', settled));
    }
  }

  /** What every successful reconciliation keeps: a valid store holding
      the new series, same teams, owner and duration, nothing else touched,
      and the series invariant when the start state was ready to settle. */
  ghost predicate Resettled(db: Db, seriaId: Id, s: Seria, ms: seq<Match>, db': Db, s': Seria)
    requires seriaId in db.series
  {
    && db'.Valid() && seriaId in db'.series && db'.series[seriaId] == s'
    && s'.upSeedTeamId == s.upSeedTeamId && s'.downSeedTeamId == s.downSeedTeamId
    && s'.belongId == s.belongId && s'.duration == s.duration
    && SeriaFrame(db, db', seriaId)
    && (ReadyToSettle(db, seriaId, s, ms) ==> SeriaInv(db', seriaId))
  }

  /** One match short: create it with the front map of the pool. */
  method AddMissingMatch(db: Db, seriaId: Id, s: Seria, ms: seq<Match>) returns (r: Result<(Db, Seria)>)
    requires db.Valid() && seriaId in db.series && Gap(Threshold(s.duration), ms) > 0
    ensures s.mapPool.None? ==> r == Err(Crash)
    ensures s.mapPool.Some? ==>
              var info := NextMatchInfo(s, seriaId, s.mapPool.value);
              && (r.Err? <==> Matches.CreateError(db.teams, info).Some?)
              && (r.Err? ==> r.error == Matches.CreateError(db.teams, info).value)
              && (r.Ok? ==>
                    var s' := Settle(s, ms).(mapPool := Some(Tail(s.mapPool.value)), matchOrder := s.matchOrder + [db.nextId]);
                    r.value == (db.(matches := db.matches[db.nextId := Matches.NewMatch(info)],
                                    series := db.series[seriaId := s'], nextId := db.nextId + 1), s'))
    ensures r.Ok? ==> Resettled(db, seriaId, s, ms, r.value.0, r.value.1)
  {
    if s.mapPool.None? {
      return Err(Crash);
    }
    var info := NextMatchInfo(s, seriaId, s.mapPool.value);
    var created := Matches.Create(db, info);
    if created.Err? {
      return Err(created.error);
    }
    var (db1, id) := created.value;
    var s' := Settle(s, ms).(mapPool := Some(Tail(s.mapPool.value)), matchOrder := s.matchOrder + [id]);
    var db' := db1.(series := db.series[seriaId := s']);
    FrameAfterAdd(db, seriaId, Matches.NewMatch(info), s');
    if ReadyToSettle(db, seriaId, s, ms) {
      AddedKeepsInv(db, seriaId, s, ms, db', s');
    }
    r := Ok((db', s'));
  }

  /** One match too many: remove the last one and give its map back. */
  method DropExtraMatch(db: Db, seriaId: Id, s: Seria, ms: seq<Match>) returns (r: Result<(Db, Seria)>)
    requires db.Valid() && seriaId in db.series && Gap(Threshold(s.duration), ms) < 0
    ensures var order := s.matchOrder;
            && (order == [] ==> r == Err(Crash))
            && (order != [] ==>
                  var last := order[|order| - 1];
                  && (last !in db.matches ==> r == Err(Crash))
                  && (last in db.matches && !Matches.OwnerAllows(db.matches[last].belongId, Some(seriaId)) ==>
                        r == Err(Error(Conflict, ReadonlySeria)))
                  && var allowed := last in db.matches && Matches.OwnerAllows(db.matches[last].belongId, Some(seriaId));
                  && (allowed && s.mapPool.None? ==> r == Err(Crash))
                  && (allowed && s.mapPool.Some? ==>
                        var s' := Settle(s, ms).(mapPool := Some([db.matches[last].mapName] + s.mapPool.value),
                                                 matchOrder := order[..|order| - 1]);
                        r == Ok((db.(matches := db.matches - {last}, series := db.series[seriaId := s']), s'))))
    ensures r.Ok? ==> Resettled(db, seriaId, s, ms, r.value.0, r.value.1)
  {
    var order := s.matchOrder;
    if order == [] {
      return Err(Crash);
    }
    var last := order[|order| - 1];
    var removed := Matches.Remove(db, last, Some(seriaId));
    if removed.Err? {
      return Err(removed.error);
    }
    if s.mapPool.None? {
      return Err(Crash);
    }
    var (db1, m) := removed.value;
    var s' := Settle(s, ms).(mapPool := Some([m.mapName] + s.mapPool.value), matchOrder := order[..|order| - 1]);
    var db' := db1.(series := db.series[seriaId := s']);
    FrameAfterDrop(db, seriaId, last, s');
    if ReadyToSettle(db, seriaId, s, ms) {
      RemovedKeepsInv(db, seriaId, s, ms, db', s');
    }
    r := Ok((db', s'));
  }

  lemma FrameAfterAdd(db: Db, seriaId: Id, x: Match, s': Seria)
    requires db.Valid() && seriaId in db.series && x.belongId == Some(seriaId)
    ensures var db' := db.(matches := db.matches[db.nextId := x], series := db.series[seriaId := s'],
                           nextId := db.nextId + 1);
            db'.Valid() && SeriaFrame(db, db', seriaId)
  {
  }

  /** Removing one match the series may remove (none when `last` is not an
      id) and storing the series. */
  lemma FrameAfterDrop(db: Db, seriaId: Id, last: int, s': Seria)
    requires db.Valid() && seriaId in db.series
    requires last in db.matches ==> Matches.OwnerAllows(db.matches[last].belongId, Some(seriaId))
    ensures var db' := db.(matches := if last >= 0 then db.matches - {last} else db.matches,
                           series := db.series[seriaId := s']);
            db'.Valid() && SeriaFrame(db, db', seriaId)
  {
  }

  /** Appending an unplayed match keeps order, score and the last win. */
  lemma AppendIncomplete(ms: seq<Match>, x: Match, t: int)
    requires Ordered(ms) && LastWinRule(ms, t) && !x.isComplete
    ensures Ordered(ms + [x]) && LastWinRule(ms + [x], t)
    ensures GetScore(ms + [x]) == GetScore(ms)
    ensures CountIf(ms + [x], IsIncomplete) == CountIf(ms, IsIncomplete) + 1
  {
    CountIfAppend(ms, x, IsHomeWin);
    CountIfAppend(ms, x, IsAwayWin);
    CountIfAppend(ms, x, IsIncomplete);
    LastCompleteIndexIs(ms + [x], LastCompleteIndex(ms));
  }

  /** One unplayed match missing: appending one settles the series. */
  lemma SettleByAppend(s: Seria, ms: seq<Match>, x: Match, s': Seria)
    requires NearlySettled(Threshold(s.duration), ms) && Gap(Threshold(s.duration), ms) == 1 && !x.isComplete
    requires s' == Settle(s, ms).(mapPool := s'.mapPool, matchOrder := s'.matchOrder)
    ensures Settled(s', ms + [x])
  {
    AppendIncomplete(ms, x, Threshold(s.duration));
  }

  /** Dropping a trailing unplayed match keeps order, score and the last win. */
  lemma DropIncomplete(ms: seq<Match>, y: Match, t: int)
    requires Ordered(ms + [y]) && LastWinRule(ms + [y], t) && !y.isComplete
    ensures Ordered(ms) && LastWinRule(ms, t)
    ensures GetScore(ms + [y]) == GetScore(ms)
    ensures CountIf(ms + [y], IsIncomplete) == CountIf(ms, IsIncomplete) + 1
  {
    assert forall i :: 0 <= i < |ms| ==> (ms + [y])[i] == ms[i];
    CountIfAppend(ms, y, IsHomeWin);
    CountIfAppend(ms, y, IsAwayWin);
    CountIfAppend(ms, y, IsIncomplete);
    LastCompleteIndexIs(ms + [y], LastCompleteIndex(ms));
  }

  /** In an ordered list with an unplayed match, the last match is unplayed. */
  lemma LastIsIncomplete(ms: seq<Match>)
    requires Ordered(ms) && CountIf(ms, IsIncomplete) > 0
    ensures ms != [] && !ms[|ms| - 1].isComplete
  {
    CountIfZero(ms, IsIncomplete);
    var j :| 0 <= j < |ms| && IsIncomplete(ms[j]);
  }

  /** One unplayed match too many: the last match is unplayed, and dropping
      it settles the series. */
  lemma SettleByDrop(s: Seria, ms: seq<Match>, s': Seria)
    requires NearlySettled(Threshold(s.duration), ms) && Gap(Threshold(s.duration), ms) == -1
    requires s' == Settle(s, ms).(mapPool := s'.mapPool, matchOrder := s'.matchOrder)
    ensures ms != [] && !ms[|ms| - 1].isComplete
    ensures Settled(s', ms[..|ms| - 1])
  {
    LastIsIncomplete(ms);
    var ms' := ms[..|ms| - 1];
    assert ms == ms' + [ms[|ms| - 1]];
    DropIncomplete(ms', ms[|ms| - 1], Threshold(s.duration));
  }

  lemma AddedKeepsInv(db: Db, seriaId: Id, s: Seria, ms: seq<Match>, db': Db, s': Seria)
    requires db.Valid() && ReadyToSettle(db, seriaId, s, ms)
    requires Gap(Threshold(s.duration), ms) == 1
    requires db'.series == db.series[seriaId := s']
    requires s' == Settle(s, ms).(mapPool := s'.mapPool, matchOrder := s'.matchOrder)
    requires db.nextId in db'.matches && db'.matches == db.matches[db.nextId := db'.matches[db.nextId]]
    requires !db'.matches[db.nextId].isComplete && db'.matches[db.nextId].belongId == Some(seriaId)
    requires s'.matchOrder == s.matchOrder + [db.nextId]
    ensures SeriaInv(db', seriaId)
  {
    var order := s.matchOrder;
    var x := db'.matches[db.nextId];
    forall i | 0 <= i < |order| ensures order[i] != db.nextId && Found(db', seriaId, order[i]) {
      assert Found(db, seriaId, order[i]);
    }
    assert OrderFound(db', seriaId, s'.matchOrder);
    assert Distinct(s'.matchOrder);
    assert MatchesAt(db'.matches, s'.matchOrder) == ms + [x];
    SettleByAppend(s, ms, x, s');
  }

  lemma RemovedKeepsInv(db: Db, seriaId: Id, s: Seria, ms: seq<Match>, db': Db, s': Seria)
    requires db.Valid() && ReadyToSettle(db, seriaId, s, ms)
    requires Gap(Threshold(s.duration), ms) == -1
    requires db'.series == db.series[seriaId := s']
    requires s' == Settle(s, ms).(mapPool := s'.mapPool, matchOrder := s'.matchOrder)
    requires s.matchOrder != [] && db'.matches == db.matches - {s.matchOrder[|s.matchOrder| - 1]}
    requires s'.matchOrder == s.matchOrder[..|s.matchOrder| - 1]
    ensures SeriaInv(db', seriaId)
  {
    var order := s.matchOrder;
    var n := |order|;
    var last := order[n - 1];
    forall i | 0 <= i < n - 1 ensures order[i] != last && Found(db', seriaId, order[i]) {
      assert Found(db, seriaId, order[i]);
    }
    assert OrderFound(db', seriaId, s'.matchOrder);
    assert MatchesAt(db'.matches, s'.matchOrder) == ms[..n - 1];
    SettleByDrop(s, ms, s');
  }

  /** Frames compose. */
  lemma SeriaFrameTrans(db: Db, db1: Db, db2: Db, seriaId: Id)
    requires db.Valid() && SeriaFrame(db, db1, seriaId) && SeriaFrame(db1, db2, seriaId)
    ensures SeriaFrame(db, db2, seriaId)
  {
  }

  /** Rewriting one listed match changes one element of the list. */
  lemma MatchesAtUpdate(m: map<Id, Match>, order: seq<Id>, k: int, u: Match)
    requires forall x :: x in order ==> x in m
    requires Distinct(order) && 0 <= k < |order|
    ensures MatchesAt(m[order[k] := u], order) == MatchesAt(m, order)[k := u]
  {
  }

  // ------------------------------------------------------ play and change

  /** Playing the first unplayed match of a settled, unfinished series (with
      a winner) leaves at most one unplayed match missing. */
  lemma PlayKeepsNearlySettled(s: Seria, ms: seq<Match>, k: int, u: Match)
    requires IsSeriaDuration(s.duration) && Settled(s, ms) && !s.isComplete
    requires k == FirstIncompleteIndex(ms) && k >= 0
    requires IsHomeWin(u) || IsAwayWin(u)
    ensures NearlySettled(Threshold(s.duration), ms[k := u])
    ensures Gap(Threshold(s.duration), ms[k := u]) >= 0
  {
    PlayKeepsNearlySettledAt(Threshold(s.duration), ms, k, u);
  }

  /** The same over the threshold alone: below it, a win in the first
      unplayed match moves one match from unplayed to won. */
  lemma PlayKeepsNearlySettledAt(t: int, ms: seq<Match>, k: int, u: Match)
    requires Ordered(ms) && LastWinRule(ms, t) && Gap(t, ms) == 0 && Leader(GetScore(ms)) < t
    requires k == FirstIncompleteIndex(ms) && k >= 0
    requires IsHomeWin(u) || IsAwayWin(u)
    ensures NearlySettled(t, ms[k := u]) && Gap(t, ms[k := u]) >= 0
  {
    var ms' := ms[k := u];
    OrderedSuffix(ms, k);
    assert Ordered(ms');
    LastCompleteIndexIs(ms', k);
    assert !IsHomeWin(ms[k]) && !IsAwayWin(ms[k]) && IsIncomplete(ms[k]) && !IsIncomplete(u);
    CountIfUpdate(ms, k, u, IsHomeWin);
    CountIfUpdate(ms, k, u, IsAwayWin);
    CountIfUpdate(ms, k, u, IsIncomplete);
    var (h, a) := GetScore(ms);
    var (h', a') := GetScore(ms');
    assert h' == h + (if IsHomeWin(u) then 1 else 0) && a' == a + (if IsAwayWin(u) then 1 else 0);
    assert CountIf(ms', IsIncomplete) == CountIf(ms, IsIncomplete) - 1;
    assert ms'[k] == u;
  }

  /** Rewriting the last complete match keeps complete matches first. */
  lemma ChangeKeepsOrder(ms: seq<Match>, j: int, u: Match)
    requires Ordered(ms) && j == LastCompleteIndex(ms) && j >= 0
    ensures Ordered(ms[j := u])
    ensures LastCompleteIndex(ms[j := u]) == if u.isComplete then j else j - 1
  {
    var ms' := ms[j := u];
    forall i | 0 <= i < j ensures ms[i].isComplete { }
    if u.isComplete {
      LastCompleteIndexIs(ms', j);
    } else if j > 0 {
      LastCompleteIndexIs(ms', j - 1);
    } else {
      LastCompleteIndexIs(ms', -1);
    }
  }

  /** After an unplayed match of an ordered list, every match is unplayed. */
  lemma OrderedSuffix(ms: seq<Match>, k: int)
    requires Ordered(ms) && 0 <= k < |ms| && !ms[k].isComplete
    ensures forall j :: k < j < |ms| ==> !ms[j].isComplete
  {
  }

  /** Rewriting the last complete match: a side reaching the threshold can
      only do so by winning the rewritten match, and no side passes it. */
  lemma ChangeKeepsLastWin(ms: seq<Match>, j: int, u: Match, t: int)
    requires Ordered(ms) && LastWinRule(ms, t) && j == LastCompleteIndex(ms) && j >= 0
    requires CountIf(ms, IsHomeWin) <= t && CountIf(ms, IsAwayWin) <= t
    ensures LastWinRule(ms[j := u], t)
    ensures CountIf(ms[j := u], IsHomeWin) <= t && CountIf(ms[j := u], IsAwayWin) <= t
  {
    var ms' := ms[j := u];
    ChangeKeepsOrder(ms, j, u);
    CountIfUpdate(ms, j, u, IsHomeWin);
    CountIfUpdate(ms, j, u, IsAwayWin);
    if CountIf(ms', IsHomeWin) == t {
      assert IsHomeWin(u) && ms'[j] == u;
    }
    if CountIf(ms', IsAwayWin) == t {
      assert IsAwayWin(u) && ms'[j] == u;
    }
  }

  /** Rewriting the last complete match of a settled series leaves at most
      one unplayed match missing or in excess; when one is in excess, the
      rewritten match is not the last of the list. */
  lemma ChangeKeepsNearlySettled(ms: seq<Match>, j: int, u: Match, t: int)
    requires Ordered(ms) && LastWinRule(ms, t) && Gap(t, ms) == 0
    requires j == LastCompleteIndex(ms) && j >= 0
    ensures NearlySettled(t, ms[j := u])
    ensures Gap(t, ms[j := u]) < 0 ==> j < |ms| - 1
  {
    var ms' := ms[j := u];
    ChangeKeepsOrder(ms, j, u);
    ChangeKeepsLastWin(ms, j, u, t);
    CountIfUpdate(ms, j, u, IsHomeWin);
    CountIfUpdate(ms, j, u, IsAwayWin);
    CountIfUpdate(ms, j, u, IsIncomplete);
    var (h, a) := GetScore(ms);
    var (h', a') := GetScore(ms');
    assert h - 1 <= h' <= h + 1 && a - 1 <= a' <= a + 1;
    assert Leader((h, a)) - 1 <= Leader((h', a')) <= Leader((h, a)) + 1;
    assert ms[j].isComplete;
    if j == |ms| - 1 {
      CountIfZero(ms, IsIncomplete);
    }
  }

  /** Unplaying the last complete match of a settled series leaves both
      sides below the threshold. */
  lemma ReopenKeepsBelowThreshold(ms: seq<Match>, j: int, u: Match, t: int)
    requires Ordered(ms) && LastWinRule(ms, t) && Gap(t, ms) == 0
    requires j == LastCompleteIndex(ms) && j >= 0 && !u.isComplete
    ensures CountIf(ms[j := u], IsHomeWin) < t && CountIf(ms[j := u], IsAwayWin) < t
  {
    CountIfUpdate(ms, j, u, IsHomeWin);
    CountIfUpdate(ms, j, u, IsAwayWin);
  }

  /** Whether matches between the two seeds can be created. */
  predicate TeamsOk(db: Db, s: Seria) {
    Matches.CreateError(db.teams, Matches.MatchInfo(s.upSeedTeamId, s.downSeedTeamId, None, None)).None?
  }

  /** A series invariant that holds keeps an unfinished series playable. */
  lemma UnfinishedHasUnplayed(s: Seria, ms: seq<Match>)
    requires IsSeriaDuration(s.duration) && Settled(s, ms) && !s.isComplete
    ensures FirstIncompleteIndex(ms) >= 0
  {
    CountIfZero(ms, IsIncomplete);
  }

  /** The rewritten match: the new score and the derived fields. */
  function Rewritten(m: Match, score: Score): Match {
    Matches.Derive(m.(score := score))
  }

  /** Score the `k`-th listed match, put the result in its place in the
      list, and reconcile (the shared tail of play and change). */
  method RewriteMatch(db: Db, seriaId: Id, ms: seq<Match>, k: int, score: Score) returns (r: Result<(Db, Seria)>)
    requires db.Valid() && seriaId in db.series
    requires OrderFound(db, seriaId, db.series[seriaId].matchOrder)
    requires ms == MatchesAt(db.matches, db.series[seriaId].matchOrder) && 0 <= k < |ms|
    ensures r.Ok? ==> var (db', s') := r.value;
                      && db'.Valid() && SeriaFrame(db, db', seriaId) && seriaId in db'.series && db'.series[seriaId] == s'
                      && s'.upSeedTeamId == db.series[seriaId].upSeedTeamId
                      && s'.downSeedTeamId == db.series[seriaId].downSeedTeamId
                      && s'.belongId == db.series[seriaId].belongId && s'.duration == db.series[seriaId].duration
    ensures var s := db.series[seriaId];
            var ms' := ms[k := Rewritten(ms[k], score)];
            var t := Threshold(s.duration);
            IsSeriaDuration(s.duration) && Distinct(s.matchOrder) && NearlySettled(t, ms') ==>
              && (r.Ok? ==> SeriaInv(r.value.0, seriaId))
              && (r.Ok? && (Gap(t, ms') >= 0 || k < |ms| - 1) ==>
                    s.matchOrder[k] in r.value.0.matches && r.value.0.matches[s.matchOrder[k]] == ms'[k])
              && (((Gap(t, ms') > 0 ==> s.mapPool.Some? && TeamsOk(db, s)) &&
                   (Gap(t, ms') < 0 ==> s.mapPool.Some?)) ==> r.Ok?)
    ensures r.Ok? ==> var ms' := ms[k := Rewritten(ms[k], score)];
                      && r.value.1.isComplete == (Leader(GetScore(ms')) == Threshold(db.series[seriaId].duration))
                      && r.value.1.winnerId == GetWinnerId(db.series[seriaId], GetScore(ms'))
  {
    var s := db.series[seriaId];
    var mid := s.matchOrder[k];
    assert Found(db, seriaId, mid);
    var updated := Matches.Update(db, mid, Matches.SetScore(score), Some(seriaId));
    var (db1, u) := updated.value;
    assert u == Rewritten(ms[k], score);
    var ms' := ms[k := u];
    assert OrderFound(db1, seriaId, s.matchOrder);
    if Distinct(s.matchOrder) {
      MatchesAtUpdate(db.matches, s.matchOrder, k, u);
    }
    r := ReconcileAt(db, db1, seriaId, s, ms', k);
  }

  /** Reconcile a series after its `k`-th listed match was rewritten in
      `db1`. */
  method ReconcileAt(db: Db, db1: Db, seriaId: Id, s: Seria, ms: seq<Match>, k: int) returns (r: Result<(Db, Seria)>)
    requires db.Valid() && db1.Valid() && seriaId in db.series && s == db.series[seriaId]
    requires db1 == db.(matches := db1.matches) && SeriaFrame(db, db1, seriaId)
    requires OrderFound(db1, seriaId, s.matchOrder) && 0 <= k < |ms| == |s.matchOrder|
    requires db1.matches[s.matchOrder[k]] == ms[k]
    requires Distinct(s.matchOrder) ==> ms == MatchesAt(db1.matches, s.matchOrder)
    ensures r.Ok? ==> var (db', s') := r.value;
                      && db'.Valid() && SeriaFrame(db, db', seriaId) && seriaId in db'.series && db'.series[seriaId] == s'
                      && s'.upSeedTeamId == s.upSeedTeamId && s'.downSeedTeamId == s.downSeedTeamId
                      && s'.belongId == s.belongId && s'.duration == s.duration
    ensures var t := Threshold(s.duration);
            IsSeriaDuration(s.duration) && Distinct(s.matchOrder) && NearlySettled(t, ms) ==>
              && (r.Ok? ==> SeriaInv(r.value.0, seriaId))
              && (r.Ok? && (Gap(t, ms) >= 0 || k < |ms| - 1) ==>
                    s.matchOrder[k] in r.value.0.matches && r.value.0.matches[s.matchOrder[k]] == ms[k])
              && (((Gap(t, ms) > 0 ==> s.mapPool.Some? && TeamsOk(db, s)) &&
                   (Gap(t, ms) < 0 ==> s.mapPool.Some?)) ==> r.Ok?)
    ensures r.Ok? ==> && r.value.1.isComplete == (Leader(GetScore(ms)) == Threshold(s.duration))
                      && r.value.1.winnerId == GetWinnerId(s, GetScore(ms))
  {
    r := Reconcile(db1, seriaId, s, ms);
    if r.Ok? {
      SeriaFrameTrans(db, db1, r.value.0, seriaId);
    }
    if IsSeriaDuration(s.duration) && Distinct(s.matchOrder) && NearlySettled(Threshold(s.duration), ms) {
      assert ReadyToSettle(db1, seriaId, s, ms);
      if r.Ok? && k < |ms| - 1 {
        assert s.matchOrder[k] != s.matchOrder[|ms| - 1];
      }
    }
  }

  /** What playing the next match of a series returns: the error in the order the checks run, and on
      success the next unplayed match scored and the series recomputed. */
  ghost predicate PlayOutcome(db: Db, seriaId: Id, home: int, away: int, owner: Option<Id>, r: Result<(Db, Seria)>)
    requires db.Valid()
  {
    && (home == away ==> r == Err(Error(BadRequest, EqualScoreInSeriaMatch)))
    && (home != away && seriaId !in db.series ==> r == Err(Crash))
    && (home != away && seriaId in db.series ==>
          var s := db.series[seriaId];
          && (!Matches.OwnerAllows(s.belongId, owner) ==> r == Err(Error(Conflict, ReadonlyPlayoff)))
          && (Matches.OwnerAllows(s.belongId, owner) && s.mapPool.None? ==> r == Err(Error(Conflict, MapPoolIsEmpty)))
          && (Matches.OwnerAllows(s.belongId, owner) && s.mapPool.Some? && s.isComplete ==>
                r == Err(Error(NotFound, SeriaIsComplete))))
    && (r.Ok? ==> home != away && seriaId in db.series && Matches.OwnerAllows(db.series[seriaId].belongId, owner))
    && (r.Ok? ==> var (db', s') := r.value;
                  && db'.Valid() && SeriaFrame(db, db', seriaId) && seriaId in db'.series && db'.series[seriaId] == s'
                  && s'.upSeedTeamId == db.series[seriaId].upSeedTeamId
                  && s'.downSeedTeamId == db.series[seriaId].downSeedTeamId
                  && s'.belongId == db.series[seriaId].belongId && s'.duration == db.series[seriaId].duration)
    && (r.Ok? && SeriaInv(db, seriaId) ==>
          && SeriaInv(r.value.0, seriaId)
          && var order := db.series[seriaId].matchOrder;
          && var k := FirstIncompleteIndex(MatchesAt(db.matches, order));
          && 0 <= k < |order| && order[k] in r.value.0.matches
          && r.value.0.matches[order[k]].score == Score(Some(home), Some(away))
          && r.value.0.matches[order[k]].isComplete)
    && ((&& SeriaInv(db, seriaId) && home != away && TeamsOk(db, db.series[seriaId])
         && Matches.OwnerAllows(db.series[seriaId].belongId, owner)
         && db.series[seriaId].mapPool.Some? && !db.series[seriaId].isComplete) ==> r.Ok?)
  }

  /** Play the next match of a series with an unequal score. */
  method PlayMatch(db: Db, seriaId: Id, home: int, away: int, owner: Option<Id>) returns (r: Result<(Db, Seria)>)
    requires db.Valid()
    ensures PlayOutcome(db, seriaId, home, away, owner, r)
  {
    if home == away {
      return Err(Error(BadRequest, EqualScoreInSeriaMatch));
    }
    if seriaId !in db.series {
      return Err(Crash);
    }
    var s := db.series[seriaId];
    if !Matches.OwnerAllows(s.belongId, owner) {
      return Err(Error(Conflict, ReadonlyPlayoff));
    }
    if s.mapPool.None? {
      return Err(Error(Conflict, MapPoolIsEmpty));
    }
    if s.isComplete {
      return Err(Error(NotFound, SeriaIsComplete));
    }
    var sorted := SortedMatches(db, seriaId, s.matchOrder);
    if sorted.None? {
      return Err(Crash);
    }
    var ms := sorted.value;
    var k := FirstIncompleteIndex(ms);
    if SeriaInv(db, seriaId) {
      UnfinishedHasUnplayed(s, ms);
    }
    if k == -1 {
      return Err(Crash);
    }
    var score := Score(Some(home), Some(away));
    if SeriaInv(db, seriaId) {
      var u := Rewritten(ms[k], score);
      assert IsHomeWin(u) || IsAwayWin(u);
      PlayKeepsNearlySettled(s, ms, k, u);
    }
    r := RewriteMatch(db, seriaId, ms, k, score);
  }

  /** What rewriting the last complete match of a series returns: the error in the order the checks
      run, and on success that match rewritten and the series recomputed. */
  ghost predicate ChangeOutcome(db: Db, seriaId: Id, score: Score, owner: Option<Id>, r: Result<(Db, Seria)>)
    requires db.Valid()
  {
    && (seriaId !in db.series ==> r == Err(Crash))
    && (seriaId in db.series ==>
          var s := db.series[seriaId];
          && (!Matches.OwnerAllows(s.belongId, owner) ==> r == Err(Error(Conflict, ReadonlyPlayoff)))
          && (Matches.OwnerAllows(s.belongId, owner) && SortedMatches(db, seriaId, s.matchOrder).None? ==>
                r == Err(Crash))
          && (Matches.OwnerAllows(s.belongId, owner) && OrderFound(db, seriaId, s.matchOrder)
              && LastCompleteIndex(MatchesAt(db.matches, s.matchOrder)) == -1 ==>
                r == Err(Error(NotFound, SeriaIsEmpty))))
    && (r.Ok? ==> seriaId in db.series && Matches.OwnerAllows(db.series[seriaId].belongId, owner))
    && (r.Ok? ==> var (db', s') := r.value;
                  && db'.Valid() && SeriaFrame(db, db', seriaId) && seriaId in db'.series && db'.series[seriaId] == s'
                  && s'.upSeedTeamId == db.series[seriaId].upSeedTeamId
                  && s'.downSeedTeamId == db.series[seriaId].downSeedTeamId
                  && s'.belongId == db.series[seriaId].belongId && s'.duration == db.series[seriaId].duration)
    && (r.Ok? && SeriaInv(db, seriaId) ==>
          && SeriaInv(r.value.0, seriaId)
          && var order := db.series[seriaId].matchOrder;
          && var j := LastCompleteIndex(MatchesAt(db.matches, order));
          && 0 <= j < |order| && order[j] in r.value.0.matches
          && r.value.0.matches[order[j]] == Rewritten(db.matches[order[j]], score)
          && (!Matches.ScoreComplete(score) ==> !r.value.1.isComplete && r.value.1.winnerId.None?))
    && ((&& SeriaInv(db, seriaId) && TeamsOk(db, db.series[seriaId])
         && Matches.OwnerAllows(db.series[seriaId].belongId, owner) && db.series[seriaId].mapPool.Some?
         && LastCompleteIndex(MatchesAt(db.matches, db.series[seriaId].matchOrder)) >= 0) ==> r.Ok?)
  }

  /** Rewrite the score of the last complete match (a null pair resets it),
      with no check on equal scores or on completion. */
  method ChangeLastMatch(db: Db, seriaId: Id, score: Score, owner: Option<Id>) returns (r: Result<(Db, Seria)>)
    requires db.Valid()
    ensures ChangeOutcome(db, seriaId, score, owner, r)
  {
    if seriaId !in db.series {
      return Err(Crash);
    }
    var s := db.series[seriaId];
    if !Matches.OwnerAllows(s.belongId, owner) {
      return Err(Error(Conflict, ReadonlyPlayoff));
    }
    var sorted := SortedMatches(db, seriaId, s.matchOrder);
    if sorted.None? {
      return Err(Crash);
    }
    var ms := sorted.value;
    var j := LastCompleteIndex(ms);
    if j == -1 {
      return Err(Error(NotFound, SeriaIsEmpty));
    }
    if SeriaInv(db, seriaId) {
      var u := Rewritten(ms[j], score);
      ChangeKeepsNearlySettled(ms, j, u, Threshold(s.duration));
      if !u.isComplete {
        ReopenKeepsBelowThreshold(ms, j, u, Threshold(s.duration));
      }
    }
    r := RewriteMatch(db, seriaId, ms, j, score);
  }

  /** What resetting the last complete match of a series returns: the error in the order the checks
      run, and on success that match cleared and the series open again. */
  ghost predicate ResetOutcome(db: Db, seriaId: Id, owner: Option<Id>, r: Result<(Db, Seria)>)
    requires db.Valid()
  {
    && (seriaId !in db.series ==> r == Err(Crash))
    && (seriaId in db.series ==>
          var s := db.series[seriaId];
          && (!Matches.OwnerAllows(s.belongId, owner) ==> r == Err(Error(Conflict, ReadonlyPlayoff)))
          && (Matches.OwnerAllows(s.belongId, owner) && SortedMatches(db, seriaId, s.matchOrder).None? ==>
                r == Err(Crash))
          && (Matches.OwnerAllows(s.belongId, owner) && OrderFound(db, seriaId, s.matchOrder)
              && LastCompleteIndex(MatchesAt(db.matches, s.matchOrder)) == -1 ==>
                r == Err(Error(NotFound, SeriaIsEmpty))))
    && (r.Ok? ==> seriaId in db.series && Matches.OwnerAllows(db.series[seriaId].belongId, owner))
    && (r.Ok? ==> var (db', s') := r.value;
                  && db'.Valid() && SeriaFrame(db, db', seriaId) && seriaId in db'.series && db'.series[seriaId] == s'
                  && s'.upSeedTeamId == db.series[seriaId].upSeedTeamId
                  && s'.downSeedTeamId == db.series[seriaId].downSeedTeamId
                  && s'.belongId == db.series[seriaId].belongId && s'.duration == db.series[seriaId].duration)
    && (r.Ok? && SeriaInv(db, seriaId) ==>
          && SeriaInv(r.value.0, seriaId)
          && !r.value.1.isComplete && r.value.1.winnerId.None?
          && var order := db.series[seriaId].matchOrder;
          && var j := LastCompleteIndex(MatchesAt(db.matches, order));
          && 0 <= j < |order| && order[j] in r.value.0.matches
          && !r.value.0.matches[order[j]].isComplete
          && r.value.0.matches[order[j]].score == NoScore)
    && ((&& SeriaInv(db, seriaId) && TeamsOk(db, db.series[seriaId])
         && Matches.OwnerAllows(db.series[seriaId].belongId, owner) && db.series[seriaId].mapPool.Some?
         && LastCompleteIndex(MatchesAt(db.matches, db.series[seriaId].matchOrder)) >= 0) ==> r.Ok?)
  }

  /** Reset the last complete match: a change to the null score pair. */
  method ResetLastMatch(db: Db, seriaId: Id, owner: Option<Id>) returns (r: Result<(Db, Seria)>)
    requires db.Valid()
    ensures ResetOutcome(db, seriaId, owner, r)
  {
    r := ChangeLastMatch(db, seriaId, NoScore, owner);
  }

  // --------------------------------------------------------------- create

  /** What a caller passes to create a series; an absent duration means
      best of one, an absent pool means null. */
  datatype SeriaInfo = SeriaInfo(
    upSeedTeamId: TeamId,
    downSeedTeamId: TeamId,
    duration: Option<int>,
    mapPool: Option<seq<string>>,
    belongId: Option<Id>)

  function DurationOf(info: SeriaInfo): int {
    if info.duration.Some? then info.duration.value else 1
  }

  /** A list of map names as the slots of a stored pool. */
  function Slots(names: seq<string>): (p: seq<MapSlot>)
    ensures |p| == |names| && forall i :: 0 <= i < |names| ==> p[i] == Some(names[i])
  {
    seq(|names|, i requires 0 <= i < |names| => Some(names[i]))
  }

  /** A pool after `n` shifts (a shift of an empty pool leaves it empty). */
  function Shifted(pool: seq<MapSlot>, n: nat): (p: seq<MapSlot>)
    ensures |p| == if n <= |pool| then |pool| - n else 0
  {
    if n <= |pool| then pool[n..] else []
  }

  lemma ShiftedStep(pool: seq<MapSlot>, n: nat)
    ensures Tail(Shifted(pool, n)) == Shifted(pool, n + 1)
    ensures Head(Shifted(pool, n)) == if n < |pool| then pool[n] else None
  {
  }

  /** The map the `j`-th shift of a nullable pool yields. */
  function PoolSlot(pool: Option<seq<string>>, j: nat): MapSlot {
    if pool.Some? then Head(Shifted(Slots(pool.value), j)) else None
  }

  /** Ids `id + 1 .. id + n`: the matches created right after the series. */
  function StartOrder(id: Id, n: nat): (order: seq<Id>)
    ensures |order| == n && forall j :: 0 <= j < n ==> order[j] == id + 1 + j
  {
    seq(n, j requires 0 <= j < n => id + 1 + j)
  }

  /** The series create stores: the caller's fields over the defaults, the
      starting matches in order, and what the starting matches left of the pool. */
  function StartedSeria(info: SeriaInfo, id: Id): (s: Seria)
    requires IsSeriaDuration(DurationOf(info))
    ensures info.mapPool.Some? && |info.mapPool.value| == DurationOf(info) ==>
              s.mapPool.Some? && |s.mapPool.value| + |s.matchOrder| == |info.mapPool.value|
  {
    var t := Threshold(DurationOf(info));
    Seria(info.upSeedTeamId, info.downSeedTeamId, info.belongId, DurationOf(info),
          if info.mapPool.Some? then Some(Shifted(Slots(info.mapPool.value), t)) else None,
          StartOrder(id, t), None, false)
  }

  function StartMatch(info: SeriaInfo, id: Id, j: nat): (m: Match)
    ensures m.belongId == Some(id) && !m.isComplete && m.mapName == PoolSlot(info.mapPool, j)
  {
    Matches.NewMatch(Matches.MatchInfo(info.upSeedTeamId, info.downSeedTeamId, PoolSlot(info.mapPool, j), Some(id)))
  }

  /** The loop of create: `t` unplayed matches between the two seeds, owned
      by series `id`, each with the next map of the pool. */
  method CreateStartMatches(db: Db, info: SeriaInfo, id: Id, t: nat) returns (r: Result<Db>)
    requires db.Valid() && db.nextId == id + 1 && t >= 1
    ensures var e := Matches.CreateError(db.teams,
                                         Matches.MatchInfo(info.upSeedTeamId, info.downSeedTeamId, None, None));
            (r.Err? <==> e.Some?) && (r.Err? ==> e == Some(r.error))
    ensures r.Ok? ==> var db' := r.value;
                      && db'.Valid() && db'.nextId == id + 1 + t
                      && db'.teams == db.teams && db'.series == db.series
                      && db'.playoffs == db.playoffs && db'.groups == db.groups
                      && (forall k :: k in db'.matches <==> k in db.matches || id < k <= id + t)
                      && (forall k :: k in db.matches ==> db'.matches[k] == db.matches[k])
                      && (forall j :: 0 <= j < t ==> db'.matches[id + 1 + j] == StartMatch(info, id, j))
  {
    var full := if info.mapPool.Some? then Some(Slots(info.mapPool.value)) else None;
    var noTeamError := Matches.CreateError(db.teams,
                                           Matches.MatchInfo(info.upSeedTeamId, info.downSeedTeamId, None, None));
    var cur := db;
    var pool := full;
    var i := 0;
    while i < t
      invariant 0 <= i <= t
      invariant StartedBelow(db, cur, info, id, i)
      invariant i > 0 ==> noTeamError.None?
      invariant pool == if full.Some? then Some(Shifted(full.value, i)) else None
    {
      var slot := if pool.Some? then Head(pool.value) else None;
      if full.Some? {
        ShiftedStep(full.value, i);
      }
      pool := if pool.Some? then Some(Tail(pool.value)) else None;
      var next := CreateStartMatch(db, cur, info, id, i, slot);
      if next.Err? {
        return Err(next.error);
      }
      cur := next.value;
      i := i + 1;
    }
    r := Ok(cur);
  }

  /** The first `i` starting matches of series `id` are in the store under
      the ids after `id`, and nothing else changed. */
  ghost predicate StartedBelow(db: Db, cur: Db, info: SeriaInfo, id: Id, i: nat) {
    && cur.Valid() && cur.nextId == id + 1 + i
    && cur.teams == db.teams && cur.series == db.series
    && cur.playoffs == db.playoffs && cur.groups == db.groups
    && (forall k :: k in cur.matches <==> k in db.matches || id < k <= id + i)
    && (forall k :: k in db.matches ==> cur.matches[k] == db.matches[k])
    && (forall j :: 0 <= j < i ==> cur.matches[id + 1 + j] == StartMatch(info, id, j))
  }

  /** One turn of the loop of create: the `i`-th starting match. */
  method CreateStartMatch(db: Db, cur: Db, info: SeriaInfo, id: Id, i: nat, slot: MapSlot) returns (r: Result<Db>)
    requires db.Valid() && db.nextId == id + 1 && StartedBelow(db, cur, info, id, i)
    requires slot == PoolSlot(info.mapPool, i)
    ensures var e := Matches.CreateError(db.teams,
                                         Matches.MatchInfo(info.upSeedTeamId, info.downSeedTeamId, None, None));
            (r.Err? <==> e.Some?) && (r.Err? ==> e == Some(r.error))
    ensures r.Ok? ==> StartedBelow(db, r.value, info, id, i + 1)
  {
    var created := Matches.Create(cur, Matches.MatchInfo(info.upSeedTeamId, info.downSeedTeamId, slot, Some(id)));
    if created.Err? {
      return Err(created.error);
    }
    r := Ok(created.value.0);
  }

  /** The store after create: series `id` as create stores it, its `t`
      starting matches under the next `t` ids, and nothing else changed. */
  ghost predicate Started(db: Db, db': Db, info: SeriaInfo, id: Id) {
    var t := Threshold(DurationOf(info));
    && IsSeriaDuration(DurationOf(info))
    && id == db.nextId && id !in db.series && db'.nextId == id + 1 + t
    && db'.series == db.series[id := StartedSeria(info, id)]
    && (forall k :: k in db'.matches <==> k in db.matches || id < k <= id + t)
    && (forall k :: k in db.matches ==> db'.matches[k] == db.matches[k])
    && (forall j :: 0 <= j < t ==> db'.matches[id + 1 + j] == StartMatch(info, id, j))
    && db'.teams == db.teams && db'.playoffs == db.playoffs && db'.groups == db.groups
  }

  lemma StartedIs(db: Db, cur: Db, info: SeriaInfo, id: Id, s: Seria)
    requires db.Valid() && id == db.nextId && IsSeriaDuration(DurationOf(info))
    requires var t := Threshold(DurationOf(info));
             && cur.nextId == id + 1 + t
             && cur.teams == db.teams && cur.series == db.series[id := s]
             && cur.playoffs == db.playoffs && cur.groups == db.groups
             && (forall k :: k in cur.matches <==> k in db.matches || id < k <= id + t)
             && (forall k :: k in db.matches ==> cur.matches[k] == db.matches[k])
             && (forall j :: 0 <= j < t ==> cur.matches[id + 1 + j] == StartMatch(info, id, j))
    ensures Started(db, cur.(series := cur.series[id := StartedSeria(info, id)]), info, id)
  {
  }

  /** The error create throws for `info`, if any: the duration, then the
      pool length, then the team checks of the first match. */
  function CreateError(teams: set<TeamId>, info: SeriaInfo): Option<Error> {
    var d := DurationOf(info);
    if !IsSeriaDuration(d) then Some(Error(BadRequest, WrongSeriaDuration))
    else if info.mapPool.Some? && |info.mapPool.value| != d then Some(Error(BadRequest, MapsNotMatch))
    else Matches.CreateError(teams, Matches.MatchInfo(info.upSeedTeamId, info.downSeedTeamId, None, None))
  }

  /** Create a series: validate duration and pool, store the series under a
      fresh id, then create as many unplayed matches as a side needs wins,
      each with the next map of the pool. */
  method Create(db: Db, info: SeriaInfo) returns (r: Result<(Db, Id)>)
    requires db.Valid()
    ensures var d := DurationOf(info);
            && (!IsSeriaDuration(d) ==> r == Err(Error(BadRequest, WrongSeriaDuration)))
            && (IsSeriaDuration(d) && info.mapPool.Some? && |info.mapPool.value| != d ==>
                  r == Err(Error(BadRequest, MapsNotMatch)))
            && (IsSeriaDuration(d) && (info.mapPool.Some? ==> |info.mapPool.value| == d) ==>
                  var e := Matches.CreateError(db.teams,
                                               Matches.MatchInfo(info.upSeedTeamId, info.downSeedTeamId, None, None));
                  (r.Err? <==> e.Some?) && (r.Err? ==> e == Some(r.error)))
    ensures (r.Err? <==> CreateError(db.teams, info).Some?) && (r.Err? ==> CreateError(db.teams, info) == Some(r.error))
    ensures r.Ok? ==> r.value.1 == db.nextId && Started(db, r.value.0, info, r.value.1)
    ensures r.Ok? ==> r.value.0.Valid() && SeriaInv(r.value.0, r.value.1)
    ensures r.Ok? && info.mapPool.Some? ==>
              var s' := r.value.0.series[r.value.1];
              s'.mapPool.Some? && |s'.mapPool.value| + |s'.matchOrder| == |info.mapPool.value|
  {
    var d := DurationOf(info);
    if !IsSeriaDuration(d) {
      return Err(Error(BadRequest, WrongSeriaDuration));
    }
    if info.mapPool.Some? && |info.mapPool.value| != d {
      return Err(Error(BadRequest, MapsNotMatch));
    }
    var (id, db1) := db.Fresh();
    var full := if info.mapPool.Some? then Some(Slots(info.mapPool.value)) else None;
    var s := Seria(info.upSeedTeamId, info.downSeedTeamId, info.belongId, d, full, [], None, false);
    var t := Threshold(d);
    var started := CreateStartMatches(db1.(series := db.series[id := s]), info, id, t);
    if started.Err? {
      return Err(started.error);
    }
    var cur := started.value;
    var s' := StartedSeria(info, id);
    var db' := cur.(series := cur.series[id := s']);
    StartedStoreSettled(cur, info, id);
    StartedIs(db, cur, info, id, s);
    r := Ok((db', id));
  }

  /** The store create leaves behind satisfies the invariant for the new series. */
  lemma StartedStoreSettled(cur: Db, info: SeriaInfo, id: Id)
    requires IsSeriaDuration(DurationOf(info)) && cur.Valid() && id < cur.nextId
    requires forall j: nat :: j < Threshold(DurationOf(info)) ==>
               id + 1 + j in cur.matches && cur.matches[id + 1 + j] == StartMatch(info, id, j)
    ensures var db' := cur.(series := cur.series[id := StartedSeria(info, id)]);
            db'.Valid() && SeriaInv(db', id)
  {
    var s' := StartedSeria(info, id);
    var db' := cur.(series := cur.series[id := s']);
    var t := Threshold(DurationOf(info));
    forall j | 0 <= j < t
      ensures s'.matchOrder[j] in db'.matches
      ensures db'.matches[s'.matchOrder[j]].belongId == Some(id) && !db'.matches[s'.matchOrder[j]].isComplete
    {
      var m := StartMatch(info, id, j);
      assert s'.matchOrder[j] == id + 1 + j;
    }
    StartedSeriaSettled(db', id, t);
  }

  /** Every match of a freshly created series is unplayed, and as many as
      a side needs wins: the invariant holds from the start. */
  lemma StartedSeriaSettled(db: Db, id: Id, t: int)
    requires id in db.series && IsSeriaDuration(db.series[id].duration) && t == Threshold(db.series[id].duration)
    requires db.series[id].matchOrder == StartOrder(id, t)
    requires !db.series[id].isComplete && db.series[id].winnerId.None?
    requires var order := db.series[id].matchOrder;
             forall j :: 0 <= j < |order| ==> order[j] in db.matches && db.matches[order[j]].belongId == Some(id)
                                              && !db.matches[order[j]].isComplete
    ensures SeriaInv(db, id)
  {
    var s := db.series[id];
    assert OrderFound(db, id, s.matchOrder);
    var ms := MatchesAt(db.matches, s.matchOrder);
    CountIfZero(ms, IsHomeWin);
    CountIfZero(ms, IsAwayWin);
    CountIfAll(ms, IsIncomplete);
    LastCompleteIndexIs(ms, -1);
  }

  // ------------------------------------------------------ map pool update

  /** The error the owner-checked update of match `mid` raises, if any. */
  function SetMapError(db: Db, seriaId: Id, mid: Id): Option<Error> {
    if mid !in db.matches then Some(Crash)
    else if !Matches.OwnerAllows(db.matches[mid].belongId, Some(seriaId)) then Some(Error(Conflict, ReadonlySeria))
    else None
  }

  /** The error of the first listed match the series may not update. */
  function OrderError(db: Db, seriaId: Id, order: seq<Id>): (e: Option<Error>)
    ensures e.None? <==> forall i :: 0 <= i < |order| ==> SetMapError(db, seriaId, order[i]).None?
  {
    FirstError(order, mid => SetMapError(db, seriaId, mid))
  }

  /** A match given a map, its derived fields recomputed (the update the
      map pool loop performs). */
  function WithMap(m: Match, slot: MapSlot): Match {
    Matches.Derive(Matches.ApplyPatch(m, Matches.SetMap(slot)))
  }

  /** Each listed match in turn gets the next map of the pool (an exhausted
      pool yields none). */
  function SetMaps(m: map<Id, Match>, order: seq<Id>, pool: seq<MapSlot>): (m': map<Id, Match>)
    requires forall i :: 0 <= i < |order| ==> order[i] in m
    ensures m'.Keys == m.Keys
  {
    if order == [] then m
    else
      var n := |order| - 1;
      var prev := SetMaps(m, order[..n], pool);
      assert forall k :: k in order[..n] ==> k in order;
      prev[order[n] := WithMap(prev[order[n]], Head(Shifted(pool, n)))]
  }

  /** Giving maps keeps every match's owner and leaves the unlisted matches
      as they were. */
  lemma {:induction false} SetMapsKeeps(m: map<Id, Match>, order: seq<Id>, pool: seq<MapSlot>)
    requires forall i :: 0 <= i < |order| ==> order[i] in m
    ensures var m' := SetMaps(m, order, pool);
            && (forall k :: k in m ==> m'[k].belongId == m[k].belongId)
            && (forall k :: k in m && k !in order ==> m'[k] == m[k])
  {
    if order != [] {
      var n := |order| - 1;
      assert forall k :: k in order[..n] ==> k in order;
      SetMapsKeeps(m, order[..n], pool);
    }
  }

  /** With distinct ids, the `i`-th listed match gets the `i`-th map. */
  lemma {:induction false} SetMapsAt(m: map<Id, Match>, order: seq<Id>, pool: seq<MapSlot>, i: nat)
    requires forall j :: 0 <= j < |order| ==> order[j] in m
    requires Distinct(order) && i < |order|
    ensures SetMaps(m, order, pool)[order[i]] == WithMap(m[order[i]], Head(Shifted(pool, i)))
  {
    var n := |order| - 1;
    var pre := order[..n];
    DistinctInit(order);
    assert forall k :: k in pre ==> k in order;
    var prev := SetMaps(m, pre, pool);
    assert SetMaps(m, order, pool) == prev[order[n] := WithMap(prev[order[n]], Head(Shifted(pool, n)))];
    if i < n {
      assert pre[i] == order[i];
      SetMapsAt(m, pre, pool, i);
    } else {
      SetMapsKeeps(m, pre, pool);
    }
  }

  /** The loop of the map pool update: each listed match, in order, is
      updated with the next map of the pool. */
  method SetMapsLoop(db: Db, seriaId: Id, order: seq<Id>, names: seq<string>) returns (r: Result<(Db, seq<MapSlot>)>)
    ensures var e := OrderError(db, seriaId, order);
            (r.Err? <==> e.Some?) && (r.Err? ==> e == Some(r.error))
    ensures r.Ok? ==> r.value.0 == db.(matches := SetMaps(db.matches, order, Slots(names)))
                      && r.value.1 == Shifted(Slots(names), |order|)
  {
    var pool := Slots(names);
    var cur := db;
    var i := 0;
    while i < |order|
      invariant 0 <= i <= |order|
      invariant pool == Shifted(Slots(names), i)
      invariant OrderError(db, seriaId, order[..i]).None?
      invariant cur == db.(matches := SetMaps(db.matches, order[..i], Slots(names)))
    {
      var slot := Head(pool);
      ShiftedStep(Slots(names), i);
      pool := Tail(pool);
      var updated := Matches.Update(cur, order[i], Matches.SetMap(slot), Some(seriaId));
      SetMapsStep(db, seriaId, order, names, i);
      if updated.Err? {
        FirstErrorPrefix(order, mid => SetMapError(db, seriaId, mid), i + 1);
        return Err(updated.error);
      }
      cur := updated.value.0;
      i := i + 1;
    }
    assert order[..i] == order;
    r := Ok((cur, pool));
  }

  /** One turn of the map pool loop: the next listed match either stops the
      loop with the first error of the list or gets the next map. */
  lemma SetMapsStep(db: Db, seriaId: Id, order: seq<Id>, names: seq<string>, i: nat)
    requires i < |order| && OrderError(db, seriaId, order[..i]).None?
    ensures var cur := db.(matches := SetMaps(db.matches, order[..i], Slots(names)));
            var u := Matches.Update(cur, order[i], Matches.SetMap(Head(Shifted(Slots(names), i))), Some(seriaId));
            && (u.Err? ==> OrderError(db, seriaId, order[..i + 1]) == Some(u.error))
            && (u.Ok? ==> OrderError(db, seriaId, order[..i + 1]).None?
                          && u.value.0 == db.(matches := SetMaps(db.matches, order[..i + 1], Slots(names))))
  {
    var f := mid => SetMapError(db, seriaId, mid);
    var pre, mid := order[..i], order[i];
    TakeOneMore(order, i);
    assert OrderError(db, seriaId, order[..i + 1]) == f(mid);
    if mid in db.matches {
      SetMapsKeeps(db.matches, pre, Slots(names));
    }
    if OrderError(db, seriaId, order[..i + 1]).None? {
      OrderErrorListed(db, seriaId, order[..i + 1]);
      var prev := SetMaps(db.matches, pre, Slots(names));
      var slot := Head(Shifted(Slots(names), i));
      var next := prev[mid := WithMap(prev[mid], slot)];
      assert SetMaps(db.matches, order[..i + 1], Slots(names)) == next;
    }
  }

  /** Every match of a list the series may update exists. */
  lemma OrderErrorListed(db: Db, seriaId: Id, order: seq<Id>)
    requires OrderError(db, seriaId, order).None?
    ensures forall j :: 0 <= j < |order| ==> order[j] in db.matches
  {
    forall j | 0 <= j < |order|
      ensures order[j] in db.matches
    {
      assert SetMapError(db, seriaId, order[j]).None?;
    }
  }

  /** Replace the map pool of a series that has not begun: the pool must have
      one map per possible match; the listed matches take its maps in order
      and the series keeps the rest. */
  method UpdateMapPool(db: Db, seriaId: Id, names: seq<string>) returns (r: Result<(Db, Seria)>)
    ensures seriaId !in db.series ==> r == Err(Crash)
    ensures seriaId in db.series ==>
              var s := db.series[seriaId];
              var begun := Leader(GetScore(MatchesAt(db.matches, MatchIdsOf(db, seriaId)))) > 0;
              && (|names| != s.duration ==> r == Err(Error(BadRequest, MapsNotMatch)))
              && (|names| == s.duration && begun ==> r == Err(Error(Conflict, MapPoolUpdateDisallowed)))
              && (|names| == s.duration && !begun ==>
                    var e := OrderError(db, seriaId, s.matchOrder);
                    (r.Err? <==> e.Some?) && (r.Err? ==> e == Some(r.error)))
    ensures r.Ok? ==> && seriaId in db.series && OrderError(db, seriaId, db.series[seriaId].matchOrder).None?
                      && var s := db.series[seriaId];
                      && r.value.1 == s.(mapPool := Some(Shifted(Slots(names), |s.matchOrder|)))
                      && r.value.0 == db.(matches := SetMaps(db.matches, s.matchOrder, Slots(names)),
                                          series := db.series[seriaId := r.value.1])
    ensures r.Ok? ==> SeriaFrame(db, r.value.0, seriaId)
    ensures r.Ok? && |db.series[seriaId].matchOrder| <= db.series[seriaId].duration ==>
              |r.value.1.mapPool.value| + |r.value.1.matchOrder| == r.value.1.duration
  {
    if seriaId !in db.series {
      return Err(Crash);
    }
    var s := db.series[seriaId];
    if |names| != s.duration {
      return Err(Error(BadRequest, MapsNotMatch));
    }
    var owned := MatchesAt(db.matches, MatchIdsOf(db, seriaId));
    if Leader(GetScore(owned)) > 0 {
      return Err(Error(Conflict, MapPoolUpdateDisallowed));
    }
    var updated := SetMapsLoop(db, seriaId, s.matchOrder, names);
    if updated.Err? {
      return Err(updated.error);
    }
    var (db', pool) := updated.value;
    var s' := s.(mapPool := Some(pool));
    SetMapsFrame(db, seriaId, names, s');
    r := Ok((db'.(series := db.series[seriaId := s']), s'));
  }

  /** A match whose derived fields agree with its score keeps its outcome
      when it gets a map. */
  lemma WithMapKeepsOutcome(m: Match, slot: MapSlot)
    requires Matches.Consistent(m)
    ensures WithMap(m, slot) == m.(mapName := slot)
  {
  }

  /** Matches that differ only in their maps leave the status as it was. */
  lemma {:induction false} SameOutcomesSettled(s: Seria, ms: seq<Match>, ms': seq<Match>)
    requires Settled(s, ms) && |ms| == |ms'|
    requires forall i :: 0 <= i < |ms| ==> ms'[i] == ms[i].(mapName := ms'[i].mapName)
    ensures Settled(s, ms')
  {
    CountIfSame(ms, ms', IsHomeWin);
    CountIfSame(ms, ms', IsAwayWin);
    CountIfSame(ms, ms', IsIncomplete);
    LastCompleteIndexIs(ms', LastCompleteIndex(ms));
  }

  /** The derived fields of every listed match agree with its score (true of
      every match the match service writes). */
  predicate ListedConsistent(db: Db, seriaId: Id)
    requires seriaId in db.series
  {
    var order := db.series[seriaId].matchOrder;
    forall i :: 0 <= i < |order| ==> order[i] in db.matches && Matches.Consistent(db.matches[order[i]])
  }

  /** A successful map pool update keeps the series invariant. */
  lemma {:induction false} SetMapsKeepsInv(db: Db, seriaId: Id, names: seq<string>, s': Seria)
    requires SeriaInv(db, seriaId) && ListedConsistent(db, seriaId)
    requires s' == db.series[seriaId].(mapPool := s'.mapPool)
    ensures var order := db.series[seriaId].matchOrder;
            SeriaInv(db.(matches := SetMaps(db.matches, order, Slots(names)), series := db.series[seriaId := s']),
                     seriaId)
  {
    var order := db.series[seriaId].matchOrder;
    var m' := SetMaps(db.matches, order, Slots(names));
    var db' := db.(matches := m', series := db.series[seriaId := s']);
    forall i | 0 <= i < |order|
      ensures m'[order[i]] == db.matches[order[i]].(mapName := Head(Shifted(Slots(names), i)))
    {
      SetMapsAt(db.matches, order, Slots(names), i);
      WithMapKeepsOutcome(db.matches[order[i]], Head(Shifted(Slots(names), i)));
    }
    assert OrderFound(db', seriaId, order);
    SameOutcomesSettled(s', MatchesAt(db.matches, order), MatchesAt(m', order));
  }

  /** A map pool update touches only the matches of its own series. */
  lemma SetMapsFrame(db: Db, seriaId: Id, names: seq<string>, s': Seria)
    requires seriaId in db.series && OrderError(db, seriaId, db.series[seriaId].matchOrder).None?
    ensures var order := db.series[seriaId].matchOrder;
            SeriaFrame(db, db.(matches := SetMaps(db.matches, order, Slots(names)), series := db.series[seriaId := s']),
                       seriaId)
  {
    var order := db.series[seriaId].matchOrder;
    SetMapsKeeps(db.matches, order, Slots(names));
    forall k | k in db.matches && db.matches[k].belongId.Some? && db.matches[k].belongId != Some(seriaId)
      ensures k !in order
    {
      forall i | 0 <= i < |order| ensures order[i] != k {
        assert SetMapError(db, seriaId, order[i]).None?;
      }
    }
  }

  // --------------------------------------------------------------- remove

  /** The match table without the matches owned by `owner`. */
  function WithoutOwned(m: map<Id, Match>, owner: Id): (m': map<Id, Match>)
    ensures forall k :: k in m' <==> k in m && m[k].belongId != Some(owner)
    ensures forall k :: k in m' ==> m'[k] == m[k]
  {
    map k | k in m && m[k].belongId != Some(owner) :: m[k]
  }

  /** The loop of removal: remove each listed match, owned by the series. */
  method RemoveMatches(db: Db, seriaId: Id, ids: seq<Id>) returns (db': Db)
    requires Distinct(ids) && forall i :: 0 <= i < |ids| ==> Found(db, seriaId, ids[i])
    ensures db' == db.(matches := db'.matches)
    ensures forall k :: k in db'.matches <==> k in db.matches && k !in ids
    ensures forall k :: k in db'.matches ==> db'.matches[k] == db.matches[k]
  {
    db' := db;
    var i := 0;
    while i < |ids|
      invariant 0 <= i <= |ids|
      invariant db' == db.(matches := db'.matches)
      invariant forall k :: k in db'.matches <==> k in db.matches && k !in ids[..i]
      invariant forall k :: k in db'.matches ==> db'.matches[k] == db.matches[k]
    {
      assert Found(db, seriaId, ids[i]) && ids[i] !in ids[..i];
      var removed := Matches.Remove(db', ids[i], Some(seriaId));
      assert removed.Ok?;
      db' := removed.value.0;
      TakeOneMore(ids, i);
      i := i + 1;
    }
    assert ids[..i] == ids;
  }

  /** The error remove throws, if any. */
  function RemoveError(db: Db, seriaId: Id, owner: Option<Id>): Option<Error> {
    if seriaId !in db.series then Some(Crash)
    else if !Matches.OwnerAllows(db.series[seriaId].belongId, owner) then Some(Error(Conflict, ReadonlyPlayoff))
    else None
  }

  /** Remove a series with all its matches and return the removed series. */
  method Remove(db: Db, seriaId: Id, owner: Option<Id>) returns (r: Result<(Db, Seria)>)
    requires db.Valid()
    ensures seriaId !in db.series ==> r == Err(Crash)
    ensures seriaId in db.series && !Matches.OwnerAllows(db.series[seriaId].belongId, owner) ==>
              r == Err(Error(Conflict, ReadonlyPlayoff))
    ensures r.Ok? <==> seriaId in db.series && Matches.OwnerAllows(db.series[seriaId].belongId, owner)
    ensures (r.Err? <==> RemoveError(db, seriaId, owner).Some?) && (r.Err? ==> RemoveError(db, seriaId, owner) == Some(r.error))
    ensures r.Ok? ==> r.value.1 == db.series[seriaId]
                      && r.value.0 == db.(matches := WithoutOwned(db.matches, seriaId), series := db.series - {seriaId})
  {
    if seriaId !in db.series {
      return Err(Crash);
    }
    var s := db.series[seriaId];
    if !Matches.OwnerAllows(s.belongId, owner) {
      return Err(Error(Conflict, ReadonlyPlayoff));
    }
    var ids := MatchIdsOf(db, seriaId);
    var cur := RemoveMatches(db, seriaId, ids);
    assert cur.matches == WithoutOwned(db.matches, seriaId);
    r := Ok((cur.(series := cur.series - {seriaId}), s));
  }

  /** After removal no match is left that the series owned, and only the
      series and its own matches are gone. */
  lemma RemovedFrame(db: Db, seriaId: Id)
    requires db.Valid() && seriaId in db.series
    ensures var db' := db.(matches := WithoutOwned(db.matches, seriaId), series := db.series - {seriaId});
            && db'.Valid() && SeriaFrame(db, db', seriaId)
            && forall k :: k in db'.matches ==> db'.matches[k].belongId != Some(seriaId)
  {
  }

  /** Removing a series keeps the invariant of every other series. */
  lemma RemovedKeepsOthers(db: Db, seriaId: Id, other: Id)
    requires db.Valid() && seriaId in db.series && SeriaInv(db, other) && other != seriaId
    ensures SeriaInv(db.(matches := WithoutOwned(db.matches, seriaId), series := db.series - {seriaId}), other)
  {
    RemovedFrame(db, seriaId);
    SeriaInvFrame(db, db.(matches := WithoutOwned(db.matches, seriaId), series := db.series - {seriaId}), seriaId, other);
  }

  // ----------------------------------------------------------- team stats

  /** A team's tallies over the matches of a series; the games pair is
      replaced by the series outcome for the team (a loss for every team but
      the winner once the series is complete). */
  function GetTeamStatByMatches(db: Db, seriaId: Id, teamId: TeamId): (r: Result<TeamStat>)
    ensures r.Ok? <==> seriaId in db.series
    ensures r.Ok? ==>
              var s := db.series[seriaId];
              var stat := TeamStats.TeamStatByMatches(teamId, MatchesAt(db.matches, MatchIdsOf(db, seriaId)));
              && r.value.WellFormed()
              && r.value.totalMatchesStat == stat.totalMatchesStat && r.value.totalScore == stat.totalScore
              && r.value.totalGames[0] + r.value.totalGames[1] == (if s.isComplete then 1 else 0)
              && (r.value.totalGames[0] == 1 <==> s.isComplete && s.winnerId == Some(teamId))
  {
    if seriaId !in db.series then Err(Crash)
    else
      var s := db.series[seriaId];
      var stat := TeamStats.TeamStatByMatches(teamId, MatchesAt(db.matches, MatchIdsOf(db, seriaId)));
      var winSeria := if s.isComplete && Some(teamId) == s.winnerId then 1 else 0;
      var lostSeria := if s.isComplete && Some(teamId) != s.winnerId then 1 else 0;
      Ok(stat.(totalGames := [winSeria, lostSeria]))
  }

  /** In a complete series exactly one of the two seeds is credited with
      the series win. */
  lemma CompleteSeriaHasOneWinner(db: Db, seriaId: Id)
    requires SeriaInv(db, seriaId) && db.series[seriaId].isComplete
    requires db.series[seriaId].upSeedTeamId != db.series[seriaId].downSeedTeamId
    ensures var s := db.series[seriaId];
            GetTeamStatByMatches(db, seriaId, s.upSeedTeamId).value.totalGames[0]
            + GetTeamStatByMatches(db, seriaId, s.downSeedTeamId).value.totalGames[0] == 1
  {
  }

  // ------------------------------------------------- store growth, removal loop

  /** The store after creations only: nothing stored before is changed or
      lost, and everything new has a fresh id. */
  predicate Grown(db: Db, db': Db) {
    && db'.teams == db.teams && db'.nextId >= db.nextId
    && (forall k :: k in db.series ==> k in db'.series && db'.series[k] == db.series[k])
    && (forall k :: k in db'.series && k !in db.series ==> k >= db.nextId)
    && (forall k :: k in db.matches ==> k in db'.matches && db'.matches[k] == db.matches[k])
    && (forall k :: k in db'.matches && k !in db.matches ==> k >= db.nextId)
  }

  lemma GrownTrans(db1: Db, db2: Db, db3: Db)
    requires Grown(db1, db2) && Grown(db2, db3)
    ensures Grown(db1, db3)
  {
  }

  lemma {:induction false} GrownKeepsSeriaInv(db: Db, db': Db, x: Id)
    requires Grown(db, db') && SeriaInv(db, x)
    ensures SeriaInv(db', x)
  {
    var order := db.series[x].matchOrder;
    forall i | 0 <= i < |order|
      ensures Found(db', x, order[i]) && db'.matches[order[i]] == db.matches[order[i]]
    {
      assert Found(db, x, order[i]);
    }
    assert MatchesAt(db'.matches, order) == MatchesAt(db.matches, order);
  }

  lemma StartedGrown(db: Db, db': Db, info: SeriaInfo, id: Id)
    requires db.Valid() && Started(db, db', info, id)
    ensures Grown(db, db')
  {
  }

  /** The error of the first series whose create fails. */
  function CreateAllError(teams: set<TeamId>, infos: seq<SeriaInfo>): Option<Error> {
    FirstError(infos, info => CreateError(teams, info))
  }

  /** The store after one series was created per element of `infos`, in
      order, under the ascending fresh ids `ids`. */
  /** The series `id` was created from `info` after `db` and is in its
      starting state in `db'`. */
  ghost predicate CreatedAt(db: Db, db': Db, info: SeriaInfo, id: Id) {
    && db.nextId <= id && id in db'.series && SeriaInv(db', id)
    && IsSeriaDuration(DurationOf(info))
    && db'.series[id] == StartedSeria(info, id)
  }

  ghost predicate AllCreated(db: Db, db': Db, infos: seq<SeriaInfo>, ids: seq<Id>) {
    && |ids| == |infos| && db'.Valid() && Grown(db, db')
    && (forall i :: 0 <= i < |ids| ==> CreatedAt(db, db', infos[i], ids[i]))
    && (forall i, j :: 0 <= i < j < |ids| ==> ids[i] < ids[j])
    && (forall k :: k in db'.series && k !in db.series ==> k in ids)
  }

  /** A created series stays as created while the store only grows. */
  lemma CreatedAtGrown(db: Db, cur: Db, next: Db, info: SeriaInfo, x: Id)
    requires CreatedAt(db, cur, info, x) && Grown(cur, next)
    ensures CreatedAt(db, next, info, x)
  {
    GrownKeepsSeriaInv(cur, next, x);
  }

  lemma AllCreatedStep(db: Db, cur: Db, next: Db, infos: seq<SeriaInfo>, i: nat, ids: seq<Id>, id: Id)
    requires i < |infos| && AllCreated(db, cur, infos[..i], ids)
    requires id == cur.nextId && next.Valid() && SeriaInv(next, id)
    requires Started(cur, next, infos[i], id)
    ensures AllCreated(db, next, infos[..i + 1], ids + [id])
  {
    var info := infos[i];
    StartedGrown(cur, next, info, id);
    GrownTrans(db, cur, next);
    assert CreatedAt(db, next, info, id) by {
      assert next.series[id] == StartedSeria(info, id);
    }
    EachCreatedStep(db, cur, next, infos[..i], ids, info, id);
    TakeOneMore(infos, i);
    forall j | 0 <= j < |ids|
      ensures ids[j] < id
    {
      assert CreatedAt(db, cur, infos[..i][j], ids[j]);
    }
    AscendingSnoc(ids, id);
  }

  /** An ascending list stays ascending with a larger id at its end. */
  lemma AscendingSnoc(ids: seq<Id>, id: Id)
    requires forall i, j :: 0 <= i < j < |ids| ==> ids[i] < ids[j]
    requires forall i :: 0 <= i < |ids| ==> ids[i] < id
    ensures forall i, j :: 0 <= i < j < |ids + [id]| ==> (ids + [id])[i] < (ids + [id])[j]
  {
  }

  /** The series created so far stay created, and one more joins them. */
  lemma EachCreatedStep(db: Db, cur: Db, next: Db, infos: seq<SeriaInfo>, ids: seq<Id>, info: SeriaInfo, id: Id)
    requires |ids| == |infos| && forall j :: 0 <= j < |ids| ==> CreatedAt(db, cur, infos[j], ids[j])
    requires Grown(cur, next) && CreatedAt(db, next, info, id)
    ensures forall j :: 0 <= j < |ids| + 1 ==> CreatedAt(db, next, (infos + [info])[j], (ids + [id])[j])
  {
    forall j | 0 <= j < |ids| + 1
      ensures CreatedAt(db, next, (infos + [info])[j], (ids + [id])[j])
    {
      if j < |ids| {
        CreatedAtGrown(db, cur, next, infos[j], ids[j]);
      }
    }
  }

  /** The creation loop's state after its first `i` turns. */
  ghost predicate CreatedSoFar(db: Db, cur: Db, infos: seq<SeriaInfo>, i: nat, ids: seq<Id>) {
    i <= |infos| && AllCreated(db, cur, infos[..i], ids)
  }

  /** A creation loop: one series per element of `infos`, in order,
      stopping at the first failure. */
  method CreateAll(db: Db, infos: seq<SeriaInfo>) returns (r: Result<(Db, seq<Id>)>)
    requires db.Valid()
    ensures var e := CreateAllError(db.teams, infos);
            (r.Err? <==> e.Some?) && (r.Err? ==> e == Some(r.error))
    ensures r.Ok? ==> && r.value.0.playoffs == db.playoffs && r.value.0.groups == db.groups
                      && AllCreated(db, r.value.0, infos, r.value.1)
  {
    var cur := db;
    var ids := [];
    var i := 0;
    while i < |infos|
      invariant 0 <= i <= |infos|
      invariant cur.playoffs == db.playoffs && cur.groups == db.groups
      invariant CreateAllError(db.teams, infos[..i]).None?
      invariant CreatedSoFar(db, cur, infos, i, ids)
    {
      var created := CreateNext(db, cur, infos, i, ids);
      if created.Err? {
        CreateAllErrorPrefix(db.teams, infos, i + 1);
        return Err(created.error);
      }
      var (next, id) := created.value;
      cur := next;
      ids := ids + [id];
      i := i + 1;
    }
    assert infos[..i] == infos;
    r := Ok((cur, ids));
  }

  /** One turn of the creation loop: create the series of `infos[i]`. */
  method CreateNext(db: Db, cur: Db, infos: seq<SeriaInfo>, i: nat, ids: seq<Id>) returns (r: Result<(Db, Id)>)
    requires i < |infos| && CreatedSoFar(db, cur, infos, i, ids)
    requires CreateAllError(db.teams, infos[..i]).None?
    ensures r.Err? ==> CreateAllError(db.teams, infos[..i + 1]) == Some(r.error)
    ensures r.Ok? ==> && CreateAllError(db.teams, infos[..i + 1]).None?
                      && r.value.0.playoffs == cur.playoffs && r.value.0.groups == cur.groups
                      && CreatedSoFar(db, r.value.0, infos, i + 1, ids + [r.value.1])
  {
    r := Create(cur, infos[i]);
    CreateAllErrorStep(db.teams, infos, i);
    if r.Ok? {
      var (next, id) := r.value;
      AllCreatedStep(db, cur, next, infos, i, ids, id);
    }
  }

  /** An error among the first `n` creations is the error of the whole list. */
  lemma CreateAllErrorPrefix(teams: set<TeamId>, infos: seq<SeriaInfo>, n: nat)
    requires n <= |infos| && CreateAllError(teams, infos[..n]).Some?
    ensures CreateAllError(teams, infos) == CreateAllError(teams, infos[..n])
  {
    FirstErrorPrefix(infos, info => CreateError(teams, info), n);
  }

  lemma CreateAllErrorStep(teams: set<TeamId>, infos: seq<SeriaInfo>, i: nat)
    requires i < |infos| && CreateAllError(teams, infos[..i]).None?
    ensures CreateAllError(teams, infos[..i + 1]) == CreateError(teams, infos[i])
  {
    TakeOneMore(infos, i);
  }

  /** Series creation does not depend on the playoff and group tables. */
  lemma {:induction false} AllCreatedFrame(db: Db, cur: Db, infos: seq<SeriaInfo>, ids: seq<Id>,
                                           pl: map<Id, Playoff>, gr: map<Id, Group>)
    requires AllCreated(db, cur, infos, ids)
    requires (forall k :: k in pl ==> k < cur.nextId) && (forall k :: k in gr ==> k < cur.nextId)
    ensures AllCreated(db, cur.(playoffs := pl, groups := gr), infos, ids)
  {
    var cur' := cur.(playoffs := pl, groups := gr);
    forall j | 0 <= j < |ids|
      ensures CreatedAt(db, cur', infos[j], ids[j])
    {
      CreatedAtFrame(db, cur, infos[j], ids[j], pl, gr);
    }
  }

  lemma CreatedAtFrame(db: Db, cur: Db, info: SeriaInfo, x: Id, pl: map<Id, Playoff>, gr: map<Id, Group>)
    requires CreatedAt(db, cur, info, x)
    ensures CreatedAt(db, cur.(playoffs := pl, groups := gr), info, x)
  {
    var cur' := cur.(playoffs := pl, groups := gr);
    var order := cur.series[x].matchOrder;
    assert OrderFound(cur', x, order);
    assert MatchesAt(cur'.matches, order) == MatchesAt(cur.matches, order);
  }

  /** The store without the series in `gone` and the matches they own. */
  function WithoutSeries(db: Db, gone: set<Id>): (db': Db)
    ensures db.Valid() ==> db'.Valid()
    ensures db' == db.(series := db'.series, matches := db'.matches)
    ensures forall k :: k in db'.series <==> k in db.series && k !in gone
    ensures forall k :: k in db'.matches <==> k in db.matches && !(db.matches[k].belongId.Some? && db.matches[k].belongId.value in gone)
    ensures forall k :: k in db'.series ==> db'.series[k] == db.series[k]
    ensures forall k :: k in db'.matches ==> db'.matches[k] == db.matches[k]
  {
    db.(series := db.series - gone,
        matches := map k | k in db.matches && !(db.matches[k].belongId.Some? && db.matches[k].belongId.value in gone)
                         :: db.matches[k])
  }

  /** The error a removal loop over `ids` throws: the first id that names no
      series (or one removed already), or whose owner is not `owner`. */
  function RemoveAllError(db: Db, ids: seq<Id>, owner: Option<Id>): (e: Option<Error>)
    ensures e.None? <==> Distinct(ids) && forall i :: 0 <= i < |ids| ==> RemoveError(db, ids[i], owner).None?
  {
    if ids == [] then None
    else
      var pre := ids[..|ids| - 1];
      var x := ids[|ids| - 1];
      var e := RemoveAllError(db, pre, owner);
      if e.Some? then e
      else if x in pre then Some(Crash)
      else RemoveError(db, x, owner)
  }

  /** The removal loop: remove each listed series, as `owner`, stopping at
      the first failure. */
  method RemoveSeries(db: Db, ids: seq<Id>, owner: Option<Id>) returns (r: Result<Db>)
    requires db.Valid()
    ensures (r.Err? <==> RemoveAllError(db, ids, owner).Some?) && (r.Err? ==> Some(r.error) == RemoveAllError(db, ids, owner))
    ensures r.Ok? ==> r.value == WithoutSeries(db, SetOf(ids))
  {
    var cur := db;
    var i := 0;
    while i < |ids|
      invariant 0 <= i <= |ids|
      invariant cur == WithoutSeries(db, SetOf(ids[..i])) && cur.Valid()
      invariant RemoveAllError(db, ids[..i], owner).None?
    {
      RemoveStep(db, ids, owner, i);
      var removed := Remove(cur, ids[i], owner);
      if removed.Err? {
        FirstRemoveError(db, ids, owner, i + 1);
        return Err(removed.error);
      }
      cur := removed.value.0;
      i := i + 1;
    }
    assert ids[..i] == ids;
    r := Ok(cur);
  }

  /** One step of the removal loop: the next id fails as the loop's error
      says, or its removal leaves the store without one more series. */
  lemma RemoveStep(db: Db, ids: seq<Id>, owner: Option<Id>, i: nat)
    requires i < |ids| && db.Valid() && RemoveAllError(db, ids[..i], owner).None?
    ensures var cur := WithoutSeries(db, SetOf(ids[..i]));
            && RemoveError(cur, ids[i], owner) == RemoveAllError(db, ids[..i + 1], owner)
            && (RemoveError(cur, ids[i], owner).None? ==>
                  && ids[i] in cur.series
                  && cur.(matches := WithoutOwned(cur.matches, ids[i]), series := cur.series - {ids[i]})
                     == WithoutSeries(db, SetOf(ids[..i + 1])))
  {
    TakeOneMore(ids, i);
    var cur := WithoutSeries(db, SetOf(ids[..i]));
    var x := ids[i];
    assert RemoveError(cur, x, owner) == RemoveAllError(db, ids[..i + 1], owner) by {
      if x in ids[..i] {
        assert x !in cur.series;
      }
    }
    if RemoveError(cur, x, owner).None? {
      assert SetOf(ids[..i + 1]) == SetOf(ids[..i]) + {x};
      RemoveOneMore(db, SetOf(ids[..i]), x);
    }
  }

  /** Removing the series one by one is removing them all at once. */
  lemma RemoveOneMore(db: Db, gone: set<Id>, x: Id)
    ensures var cur := WithoutSeries(db, gone);
            cur.(matches := WithoutOwned(cur.matches, x), series := cur.series - {x}) == WithoutSeries(db, gone + {x})
  {
    var cur := WithoutSeries(db, gone);
    var next := cur.(matches := WithoutOwned(cur.matches, x), series := cur.series - {x});
    var want := WithoutSeries(db, gone + {x});
    assert next.series == want.series;
    assert next.matches == want.matches;
  }

  /** A failure within the first `n` ids is the failure of the whole loop. */
  lemma {:induction false} FirstRemoveError(db: Db, ids: seq<Id>, owner: Option<Id>, n: nat)
    requires n <= |ids| && RemoveAllError(db, ids[..n], owner).Some?
    ensures RemoveAllError(db, ids, owner) == RemoveAllError(db, ids[..n], owner)
    decreases |ids| - n
  {
    if n < |ids| {
      var pre := ids[..|ids| - 1];
      assert pre[..n] == ids[..n];
      FirstRemoveError(db, pre, owner, n);
    } else {
      assert ids[..n] == ids;
    }
  }
}
