/** The document store the services work on: one map per collection, the
    set of known team ids and the id counter. Every operation computes its
    outcome on a snapshot and commits it only when it succeeds, so a failed
    operation writes nothing. */
module Store {
  import opened Core
  import opened Schema
  import Matches
  import Series
  import Playoffs
  import Groups

  /** A committed result in the shape the services return it: the store
      after the operation next to its value. */
  function Outcome<X>(r: Result<X>, db: Db): Result<(Db, X)> {
    if r.Ok? then Ok((db, r.value)) else Err(r.error)
  }

  class Store {
    var matches: map<Id, Match>
    var series: map<Id, Seria>
    var playoffs: map<Id, Playoff>
    var groups: map<Id, Group>
    var teams: set<TeamId>
    var nextId: nat

    /** The current contents as one value. */
    function State(): Db
      reads this
    {
      Db(matches, series, playoffs, groups, teams, nextId)
    }

    /** Every stored id is below the counter. */
    predicate Valid()
      reads this
    {
      State().Valid()
    }

    /** An empty store that knows the given teams. */
    constructor (known: set<TeamId>)
      ensures State() == Db(map[], map[], map[], map[], known, 0) && Valid()
    {
      matches, series, playoffs, groups := map[], map[], map[], map[];
      teams, nextId := known, 0;
    }

    method Commit(db: Db)
      modifies this
      ensures State() == db
    {
      matches, series, playoffs, groups := db.matches, db.series, db.playoffs, db.groups;
      teams, nextId := db.teams, db.nextId;
    }

    // ----------------------------------------------------------- matches

    method CreateMatch(info: Matches.MatchInfo) returns (r: Result<Id>)
      requires Valid()
      modifies this
      ensures Valid()
      ensures r.Err? <==> Matches.CreateError(old(teams), info).Some?
      ensures r.Err? ==> State() == old(State()) && Matches.CreateError(old(teams), info) == Some(r.error)
      ensures r.Ok? ==> && r.value == old(nextId) && r.value !in old(matches)
                        && State() == old(State()).(matches := old(matches)[r.value := Matches.NewMatch(info)],
                                                    nextId := old(nextId) + 1)
    {
      var out := Matches.Create(State(), info);
      if out.Err? {
        return Err(out.error);
      }
      Commit(out.value.0);
      r := Ok(out.value.1);
    }

    /** Update a match from outside any series or group: only a match
        that belongs to nothing may be changed. */
    method UpdateMatch(id: Id, p: Matches.Patch) returns (r: Result<Match>)
      requires Valid()
      modifies this
      ensures Valid()
      ensures r.Ok? <==> id in old(matches) && old(matches)[id].belongId.None?
      ensures id !in old(matches) ==> r == Err(Crash)
      ensures id in old(matches) && old(matches)[id].belongId.Some? ==> r == Err(Error(Conflict, ReadonlySeria))
      ensures r.Err? ==> State() == old(State())
      ensures r.Ok? ==> State() == old(State()).(matches := old(matches)[id := r.value])
                        && r.value.isComplete == Matches.ScoreComplete(r.value.score)
                        && var m := old(matches)[id];
                        && r.value.(isComplete := m.isComplete, winnerId := m.winnerId, isOvertime := m.isOvertime)
                           == Matches.ApplyPatch(m, p)
      ensures Outcome(r, State()) == Matches.Update(old(State()), id, p, None)
    {
      var out := Matches.Update(State(), id, p, None);
      if out.Err? {
        return Err(out.error);
      }
      Commit(out.value.0);
      r := Ok(out.value.1);
    }

    method RemoveMatch(id: Id) returns (r: Result<Match>)
      requires Valid()
      modifies this
      ensures Valid()
      ensures r.Ok? <==> id in old(matches) && old(matches)[id].belongId.None?
      ensures r.Err? ==> State() == old(State())
      ensures id !in old(matches) ==> r == Err(Crash)
      ensures id in old(matches) && old(matches)[id].belongId.Some? ==> r == Err(Error(Conflict, ReadonlySeria))
      ensures r.Ok? ==> r.value == old(matches)[id] && State() == old(State()).(matches := old(matches) - {id})
      ensures Outcome(r, State()) == Matches.Remove(old(State()), id, None)
    {
      var out := Matches.Remove(State(), id, None);
      if out.Err? {
        return Err(out.error);
      }
      Commit(out.value.0);
      r := Ok(out.value.1);
    }

    // ------------------------------------------------------------ series

    method CreateSeria(info: Series.SeriaInfo) returns (r: Result<Id>)
      requires Valid()
      modifies this
      ensures Valid()
      ensures (r.Err? <==> Series.CreateError(old(teams), info).Some?)
              && (r.Err? ==> State() == old(State()) && Series.CreateError(old(teams), info) == Some(r.error))
      ensures r.Ok? ==> r.value == old(nextId) && Series.Started(old(State()), State(), info, r.value)
                        && Series.SeriaInv(State(), r.value)
      ensures r.Ok? && info.mapPool.Some? ==>
                series[r.value].mapPool.Some?
                && |series[r.value].mapPool.value| + |series[r.value].matchOrder| == |info.mapPool.value|
    {
      var out := Series.Create(State(), info);
      if out.Err? {
        return Err(out.error);
      }
      Commit(out.value.0);
      r := Ok(out.value.1);
    }

    method PlaySeriaMatch(seriaId: Id, home: int, away: int) returns (r: Result<Seria>)
      requires Valid()
      modifies this
      ensures Valid()
      ensures home == away ==> r == Err(Error(BadRequest, EqualScoreInSeriaMatch))
      ensures r.Err? ==> State() == old(State())
      ensures r.Ok? ==> && seriaId in old(series) && old(series)[seriaId].belongId.None?
                        && Series.SeriaFrame(old(State()), State(), seriaId) && seriaId in series && series[seriaId] == r.value
      ensures r.Ok? && Series.SeriaInv(old(State()), seriaId) ==> Series.SeriaInv(State(), seriaId)
      ensures Series.PlayOutcome(old(State()), seriaId, home, away, None, Outcome(r, State()))
    {
      var out := Series.PlayMatch(State(), seriaId, home, away, None);
      if out.Err? {
        return Err(out.error);
      }
      Commit(out.value.0);
      r := Ok(out.value.1);
    }

    method ChangeSeriaLastMatch(seriaId: Id, score: Score) returns (r: Result<Seria>)
      requires Valid()
      modifies this
      ensures Valid()
      ensures r.Err? ==> State() == old(State())
      ensures r.Ok? ==> && seriaId in old(series) && old(series)[seriaId].belongId.None?
                        && Series.SeriaFrame(old(State()), State(), seriaId) && seriaId in series && series[seriaId] == r.value
      ensures r.Ok? && Series.SeriaInv(old(State()), seriaId) ==> Series.SeriaInv(State(), seriaId)
      ensures Series.ChangeOutcome(old(State()), seriaId, score, None, Outcome(r, State()))
    {
      var out := Series.ChangeLastMatch(State(), seriaId, score, None);
      if out.Err? {
        return Err(out.error);
      }
      Commit(out.value.0);
      r := Ok(out.value.1);
    }

    method ResetSeriaLastMatch(seriaId: Id) returns (r: Result<Seria>)
      requires Valid()
      modifies this
      ensures Valid()
      ensures r.Err? ==> State() == old(State())
      ensures r.Ok? ==> && seriaId in old(series) && old(series)[seriaId].belongId.None?
                        && Series.SeriaFrame(old(State()), State(), seriaId) && seriaId in series && series[seriaId] == r.value
      ensures r.Ok? && Series.SeriaInv(old(State()), seriaId) ==>
                Series.SeriaInv(State(), seriaId) && !r.value.isComplete
      ensures Series.ResetOutcome(old(State()), seriaId, None, Outcome(r, State()))
    {
      var out := Series.ResetLastMatch(State(), seriaId, None);
      if out.Err? {
        return Err(out.error);
      }
      Commit(out.value.0);
      r := Ok(out.value.1);
    }

    method UpdateMapPool(seriaId: Id, names: seq<string>) returns (r: Result<Seria>)
      requires Valid()
      modifies this
      ensures Valid()
      ensures seriaId !in old(series) ==> r == Err(Crash)
      ensures seriaId in old(series) ==>
                var s := old(series)[seriaId];
                var begun := Series.Leader(Series.GetScore(MatchesAt(old(matches), MatchIdsOf(old(State()), seriaId)))) > 0;
                && (|names| != s.duration ==> r == Err(Error(BadRequest, MapsNotMatch)))
                && (|names| == s.duration && begun ==> r == Err(Error(Conflict, MapPoolUpdateDisallowed)))
                && (|names| == s.duration && !begun ==>
                      var e := Series.OrderError(old(State()), seriaId, s.matchOrder);
                      (r.Err? <==> e.Some?) && (r.Err? ==> e == Some(r.error)))
      ensures r.Err? ==> State() == old(State())
      ensures r.Ok? ==> && seriaId in old(series)
                        && var s := old(series)[seriaId];
                        && r.value == s.(mapPool := Some(Series.Shifted(Series.Slots(names), |s.matchOrder|)))
                        && State() == old(State()).(matches := Series.SetMaps(old(matches), s.matchOrder, Series.Slots(names)),
                                                    series := old(series)[seriaId := r.value])
    {
      var out := Series.UpdateMapPool(State(), seriaId, names);
      if out.Err? {
        return Err(out.error);
      }
      Commit(out.value.0);
      r := Ok(out.value.1);
    }

    method RemoveSeria(seriaId: Id) returns (r: Result<Seria>)
      requires Valid()
      modifies this
      ensures Valid()
      ensures r.Ok? <==> seriaId in old(series) && old(series)[seriaId].belongId.None?
      ensures r.Err? ==> State() == old(State()) && Series.RemoveError(old(State()), seriaId, None) == Some(r.error)
      ensures r.Ok? ==> && r.value == old(series)[seriaId]
                        && State() == old(State()).(matches := Series.WithoutOwned(old(matches), seriaId),
                                                    series := old(series) - {seriaId})
    {
      var out := Series.Remove(State(), seriaId, None);
      if out.Err? {
        return Err(out.error);
      }
      Commit(out.value.0);
      r := Ok(out.value.1);
    }

    // ---------------------------------------------------------- playoffs

    method CreatePlayoff(schema: seq<int>, sortedTeams: seq<TeamId>) returns (r: Result<Playoff>)
      requires Valid()
      modifies this
      ensures Valid()
      ensures (r.Err? <==> Playoffs.CreateError(old(State()), schema, sortedTeams).Some?)
              && (r.Err? ==> State() == old(State()) && Playoffs.CreateError(old(State()), schema, sortedTeams) == Some(r.error))
      ensures r.Ok? ==> && Playoffs.Created(old(State()), schema, sortedTeams, State(), r.value)
                        && old(nextId) in playoffs && playoffs[old(nextId)] == r.value
    {
      var out := Playoffs.Create(State(), schema, sortedTeams);
      if out.Err? {
        return Err(out.error);
      }
      Commit(out.value.0);
      r := Ok(out.value.1);
    }

    method PlayPlayoffMatch(pid: Id, seriaId: Id, home: int, away: int)
      returns (r: Result<Playoff>, ghost step: Result<(Db, Seria)>)
      requires Valid()
      modifies this
      ensures Valid()
      ensures Playoffs.SeriaCheck(old(State()), pid, seriaId).Some? ==>
                r == Err(Playoffs.SeriaCheck(old(State()), pid, seriaId).value)
      ensures Playoffs.SeriaCheck(old(State()), pid, seriaId).None? && home == away ==>
                r == Err(Error(BadRequest, EqualScoreInSeriaMatch))
      ensures Playoffs.SeriaCheck(old(State()), pid, seriaId).None? ==>
                && Series.PlayOutcome(old(State()), seriaId, home, away, Some(pid), step)
                && (step.Err? ==> r == Err(step.error))
                && (step.Ok? ==> Playoffs.Upserted(step.value.0, pid, Outcome(r, State())))
      ensures r.Err? ==> State() == old(State())
      ensures r.Ok? ==> pid in playoffs && playoffs[pid] == r.value && Playoffs.Advanced(old(State()), State(), pid)
      ensures r.Ok? && Playoffs.PlayoffInv(old(State()), pid) ==>
                Playoffs.PlayoffInv(State(), pid) && Playoffs.Decided(old(State()), State(), pid)
    {
      var out;
      out, step := Playoffs.PlayMatch(State(), pid, seriaId, home, away);
      if out.Err? {
        return Err(out.error), step;
      }
      Commit(out.value.0);
      r := Ok(out.value.1);
    }

    method ChangePlayoffLastMatch(pid: Id, seriaId: Id, home: int, away: int)
      returns (r: Result<Playoff>, ghost step: Result<(Db, Seria)>)
      requires Valid()
      modifies this
      ensures Valid()
      ensures Playoffs.SeriaCheck(old(State()), pid, seriaId).Some? ==>
                r == Err(Playoffs.SeriaCheck(old(State()), pid, seriaId).value)
      ensures Playoffs.SeriaCheck(old(State()), pid, seriaId).None? ==>
                && Series.ChangeOutcome(old(State()), seriaId, Score(Some(home), Some(away)), Some(pid), step)
                && (step.Err? ==> r == Err(step.error))
                && (step.Ok? ==> Playoffs.Upserted(step.value.0, pid, Outcome(r, State())))
      ensures r.Err? ==> State() == old(State())
      ensures r.Ok? ==> pid in playoffs && playoffs[pid] == r.value && Playoffs.Advanced(old(State()), State(), pid)
      ensures r.Ok? && Playoffs.PlayoffInv(old(State()), pid) ==>
                Playoffs.PlayoffInv(State(), pid) && Playoffs.Decided(old(State()), State(), pid)
    {
      var out;
      out, step := Playoffs.ChangeLastMatch(State(), pid, seriaId, home, away);
      if out.Err? {
        return Err(out.error), step;
      }
      Commit(out.value.0);
      r := Ok(out.value.1);
    }

    method ResetPlayoffLastMatch(pid: Id, seriaId: Id)
      returns (r: Result<Playoff>, ghost step: Result<(Db, Seria)>)
      requires Valid()
      modifies this
      ensures Valid()
      ensures Playoffs.SeriaCheck(old(State()), pid, seriaId).Some? ==>
                r == Err(Playoffs.SeriaCheck(old(State()), pid, seriaId).value)
      ensures Playoffs.SeriaCheck(old(State()), pid, seriaId).None? ==>
                && Series.ResetOutcome(old(State()), seriaId, Some(pid), step)
                && (step.Err? ==> r == Err(step.error))
                && (step.Ok? ==> Playoffs.Upserted(step.value.0, pid, Outcome(r, State())))
      ensures r.Err? ==> State() == old(State())
      ensures r.Ok? ==> pid in playoffs && playoffs[pid] == r.value && Playoffs.Advanced(old(State()), State(), pid)
      ensures r.Ok? && Playoffs.PlayoffInv(old(State()), pid) ==>
                Playoffs.PlayoffInv(State(), pid) && Playoffs.Decided(old(State()), State(), pid)
    {
      var out;
      out, step := Playoffs.ResetLastMatch(State(), pid, seriaId);
      if out.Err? {
        return Err(out.error), step;
      }
      Commit(out.value.0);
      r := Ok(out.value.1);
    }

    method DestroyLastRound(pid: Id) returns (r: Result<Playoff>)
      requires Valid()
      modifies this
      ensures Valid()
      ensures (r.Err? <==> Playoffs.DestroyError(old(State()), pid).Some?)
              && (r.Err? ==> State() == old(State()) && Playoffs.DestroyError(old(State()), pid) == Some(r.error))
      ensures r.Ok? ==> && pid in old(playoffs)
                        && var p := old(playoffs)[pid];
                        && r.value == p.(progress := p.progress[..|p.progress| - 1])
                        && State() == Series.WithoutSeries(old(State()), SetOf(Playoffs.Last(p.progress))).(playoffs := old(playoffs)[pid := r.value])
      ensures Playoffs.PlayoffInv(old(State()), pid) && |old(playoffs)[pid].progress| >= 2 ==>
                r.Ok? && Playoffs.PlayoffInv(State(), pid)
    {
      var out := Playoffs.DestroyLastRound(State(), pid);
      if out.Err? {
        return Err(out.error);
      }
      Commit(out.value.0);
      r := Ok(out.value.1);
    }

    method RemovePlayoff(pid: Id) returns (removed: Option<Playoff>)
      requires Valid()
      modifies this
      ensures Valid()
      ensures removed == (if pid in old(playoffs) then Some(old(playoffs)[pid]) else None)
      ensures State() == Series.WithoutSeries(old(State()), SetOf(SeriaIdsOf(old(State()), pid))).(playoffs := old(playoffs) - {pid})
      ensures pid !in playoffs && forall k :: k in series ==> series[k].belongId != Some(pid)
    {
      var db;
      db, removed := Playoffs.Remove(State(), pid);
      Commit(db);
    }

    // ------------------------------------------------------------ groups

    method CreateGroup(info: Groups.GroupInfo, games: Groups.Games, tables: Option<seq<Table>>)
      returns (r: Result<Group>, ghost mids: seq<Id>, ghost sids: seq<Id>)
      requires Valid()
      modifies this
      ensures Valid()
      ensures Groups.CreateError(old(teams), info, games, tables).Some? ==>
                r == Err(Groups.CreateError(old(teams), info, games, tables).value)
      ensures var e := Groups.GamesError(old(teams), old(nextId), games);
              Groups.CreateError(old(teams), info, games, tables).None? && (games.matches.Some? || games.series.Some?) ==>
                (r.Err? <==> e.Some?) && (r.Err? ==> e == Some(r.error))
      ensures Groups.CreateError(old(teams), info, games, tables).None? && games.matches.None? && games.series.None? ==> r.Ok?
      ensures r.Err? ==> State() == old(State())
      ensures r.Ok? ==> Groups.GroupCreated(old(State()), info, games, tables, State(), r.value, mids, sids)
    {
      var db := State();
      var out;
      out, mids, sids := Groups.Create(db, info, games, tables);
      if out.Err? {
        return Err(out.error), mids, sids;
      }
      Commit(out.value.0);
      r := Ok(out.value.1);
    }

    method AddGroupStage(gid: Id, games: Groups.Games, tables: Option<seq<Table>>)
      returns (r: Result<Group>, ghost mids: seq<Id>, ghost sids: seq<Id>)
      requires Valid()
      modifies this
      ensures Valid()
      ensures Groups.AddStageError(old(State()), gid).Some? ==> r == Err(Groups.AddStageError(old(State()), gid).value)
      ensures r.Err? ==> State() == old(State())
      ensures Groups.AddStageError(old(State()), gid).None? && games.matches.None? && games.series.None? ==>
                r == Ok(Groups.Pushed(old(groups)[gid], tables)) && State() == old(State())
      ensures Groups.AddStageError(old(State()), gid).None? && (games.matches.Some? || games.series.Some?) ==>
                var e := Groups.GamesError(old(teams), gid, games);
                (r.Err? <==> e.Some?) && (r.Err? ==> e == Some(r.error))
      ensures r.Ok? && (games.matches.Some? || games.series.Some?) ==>
                gid in old(groups)
                && Groups.GamesAdded(old(State()), State(), gid, Groups.Pushed(old(groups)[gid], tables), games, r.value, mids, sids)
    {
      var out;
      out, mids, sids := Groups.AddStage(State(), gid, games, tables);
      if out.Err? {
        return Err(out.error), mids, sids;
      }
      Commit(out.value.0);
      r := Ok(out.value.1);
    }

    method AddGamesToGroupStage(gid: Id, games: Groups.Games)
      returns (r: Result<Group>, ghost mids: seq<Id>, ghost sids: seq<Id>)
      requires Valid()
      modifies this
      ensures Valid()
      ensures gid !in old(groups) ==> r == Err(Crash)
      ensures gid in old(groups) ==>
                var g := old(groups)[gid];
                && (!Groups.CheckMatches(g.teams, Groups.Listed(games.matches)) ==> r == Err(Error(BadRequest, IncorrectGroupMatches)))
                && (Groups.CheckMatches(g.teams, Groups.Listed(games.matches)) && !Groups.CheckSeries(g.teams, Groups.Listed(games.series)) ==>
                      r == Err(Error(BadRequest, IncorrectGroupSeries)))
                && (Groups.GamesChecked(g, games) && g.progress == [] ==> r == Err(Crash))
                && (Groups.GamesChecked(g, games) && g.progress != [] ==>
                      var e := Groups.GamesError(old(teams), gid, games);
                      (r.Err? <==> e.Some?) && (r.Err? ==> e == Some(r.error)))
      ensures r.Err? ==> State() == old(State())
      ensures r.Ok? ==> && gid in old(groups)
                        && Groups.GamesAdded(old(State()), State(), gid, old(groups)[gid], games, r.value, mids, sids)
                        && r.value.stats == old(groups)[gid].stats && r.value.isComplete == old(groups)[gid].isComplete
    {
      var out;
      out, mids, sids := Groups.AddGamesToStage(State(), gid, games);
      if out.Err? {
        return Err(out.error), mids, sids;
      }
      Commit(out.value.0);
      r := Ok(out.value.1);
    }

    method DestroyLastGroupStage(gid: Id) returns (r: Result<Group>)
      requires Valid()
      modifies this
      ensures Valid()
      ensures Groups.DestroyError(old(State()), gid).Some? ==> r == Err(Groups.DestroyError(old(State()), gid).value)
      ensures r.Err? ==> State() == old(State())
      ensures Groups.DestroyError(old(State()), gid).None? && r.Err? ==>
                && r.error == Crash
                && var g := old(groups)[gid];
                   var n := |g.progress|;
                   Groups.RecomputeMayFail(Groups.GamesRemoved(old(State()), g.progress[n - 1].games), gid,
                                           g.(progress := g.progress[..n - 1]), g.teams)
      ensures r.Ok? ==> Groups.StageDestroyed(old(State()), gid, State(), r.value)
    {
      var out := Groups.DestroyLastStage(State(), gid);
      if out.Err? {
        return Err(out.error);
      }
      Commit(out.value.0);
      r := Ok(out.value.1);
    }

    method PlayGroupGame(gid: Id, gameId: Id, home: int, away: int)
      returns (r: Result<Group>, ghost step: Result<(Db, Seria)>)
      requires Valid()
      modifies this
      ensures Valid()
      ensures Groups.PlayError(old(State()), gid, gameId, home, away).Some? ==>
                r == Err(Groups.PlayError(old(State()), gid, gameId, home, away).value)
      ensures Groups.PlayError(old(State()), gid, gameId, home, away).None? ==> Groups.PlayFlow(old(State()), gid, gameId, home, away, step, Outcome(r, State()))
      ensures r.Err? ==> State() == old(State())
      ensures r.Ok? ==> gid in old(groups) && groups == old(groups)[gid := r.value]
      ensures r.Ok? ==> Groups.GamePlayed(old(State()), gid, gameId, home, away, State(), r.value)
    {
      var out;
      out, step := Groups.PlayGroupGame(State(), gid, gameId, home, away);
      if out.Err? {
        return Err(out.error), step;
      }
      Commit(out.value.0);
      r := Ok(out.value.1);
    }

    method ResetGroupGame(gid: Id, gameId: Id)
      returns (r: Result<Group>, ghost step: Result<(Db, Seria)>)
      requires Valid()
      modifies this
      ensures Valid()
      ensures Groups.ResetError(old(State()), gid, gameId).Some? ==>
                r == Err(Groups.ResetError(old(State()), gid, gameId).value)
      ensures Groups.ResetError(old(State()), gid, gameId).None? ==> Groups.ResetFlow(old(State()), gid, gameId, step, Outcome(r, State()))
      ensures r.Err? ==> State() == old(State())
      ensures r.Ok? ==> gid in old(groups) && groups == old(groups)[gid := r.value]
      ensures r.Ok? ==> Groups.GameReset(old(State()), gid, gameId, State(), r.value)
    {
      var out;
      out, step := Groups.ResetGroupGame(State(), gid, gameId);
      if out.Err? {
        return Err(out.error), step;
      }
      Commit(out.value.0);
      r := Ok(out.value.1);
    }

    method RemoveGroup(gid: Id) returns (removed: Option<Group>)
      requires Valid()
      modifies this
      ensures Valid()
      ensures removed == (if gid in old(groups) then Some(old(groups)[gid]) else None)
      ensures State() == Series.WithoutSeries(old(State()).(matches := old(matches) - SetOf(MatchIdsOf(old(State()), gid))),
                                              SetOf(SeriaIdsOf(old(State()), gid))).(groups := old(groups) - {gid})
      ensures gid !in groups
      ensures forall k :: k in matches ==> matches[k].belongId != Some(gid)
      ensures forall k :: k in series ==> series[k].belongId != Some(gid)
    {
      var db;
      db, removed := Groups.Remove(State(), gid);
      Commit(db);
    }
  }
}
