/** The match service: derivation of completion, winner and overtime from a
    nullable score pair, and the guarded create / update / remove writes on the
    match table. Each write is one guard followed by one store update, so each
    is a function from the store to the new store (or the error it throws). */
module Matches {
  import opened Core
  import opened Schema

  /** Relational comparison and `+` turn a null side into 0. */
  function Num(v: Option<int>): int {
    if v.Some? then v.value else 0
  }

  /** The winner: none while incomplete or tied, otherwise the side with the
      higher score. */
  function GetWinner(m: Match, isComplete: bool): (w: Option<TeamId>)
    ensures !isComplete ==> w.None?
    ensures isComplete ==> (w.None? <==> Num(m.score.home) == Num(m.score.away))
    ensures w.Some? ==>
              || (w.value == m.homeTeamId && Num(m.score.home) > Num(m.score.away))
              || (w.value == m.awayTeamId && Num(m.score.away) > Num(m.score.home))
  {
    if !isComplete then None
    else if Num(m.score.home) > Num(m.score.away) then Some(m.homeTeamId)
    else if Num(m.score.away) > Num(m.score.home) then Some(m.awayTeamId)
    else None
  }

  /** Overtime status: none while incomplete; otherwise whether more rounds
      were played than the regulation amount. */
  function GetOTStatus(m: Match, isComplete: bool): (ot: Option<bool>)
    ensures ot.None? <==> !isComplete
    ensures ot == Some(true) <==> isComplete && Num(m.score.home) + Num(m.score.away) > m.roundsAmount
  {
    if !isComplete then None
    else if Num(m.score.home) + Num(m.score.away) > m.roundsAmount then Some(true)
    else Some(false)
  }

  /** A match is complete exactly when both score sides are set. */
  predicate ScoreComplete(s: Score) {
    s.home.Some? && s.away.Some?
  }

  /** The three derived fields written by every update. */
  function Derive(m: Match): (d: Match)
    ensures d.isComplete <==> ScoreComplete(m.score)
    ensures d.winnerId.Some? ==> d.isComplete
    ensures d.isOvertime.Some? <==> d.isComplete
    ensures d.(isComplete := m.isComplete, winnerId := m.winnerId, isOvertime := m.isOvertime) == m
  {
    var c := ScoreComplete(m.score);
    m.(isComplete := c, winnerId := GetWinner(m, c), isOvertime := GetOTStatus(m, c))
  }

  /** The derived fields agree with the score. */
  predicate Consistent(m: Match) {
    Derive(m) == m
  }

  /** Deriving twice changes nothing more. */
  lemma DeriveIdempotent(m: Match)
    ensures Consistent(Derive(m))
  {
  }

  /** The same match seen from the other side. */
  function Swap(m: Match): Match {
    m.(homeTeamId := m.awayTeamId, awayTeamId := m.homeTeamId,
       score := Score(m.score.away, m.score.home))
  }

  /** Winner and overtime do not depend on which side is called home. */
  lemma DeriveSymmetric(m: Match)
    ensures Derive(Swap(m)).winnerId == Derive(m).winnerId
    ensures Derive(Swap(m)).isOvertime == Derive(m).isOvertime
    ensures Derive(Swap(m)).isComplete == Derive(m).isComplete
  {
  }

  /** The fields a caller may set when creating a match; every one of them
      overrides the corresponding default. */
  datatype MatchInfo = MatchInfo(homeTeamId: TeamId, awayTeamId: TeamId, mapName: MapSlot, belongId: Option<Id>)

  /** A fresh match: no score, 30 regulation rounds, no winner, not complete. */
  function NewMatch(info: MatchInfo): (m: Match)
    ensures Consistent(m) && !m.isComplete && m.score == NoScore
    ensures m.homeTeamId == info.homeTeamId && m.awayTeamId == info.awayTeamId
    ensures m.mapName == info.mapName && m.belongId == info.belongId && m.roundsAmount == 30
  {
    Match(info.homeTeamId, info.awayTeamId, info.belongId, info.mapName, 30, None, NoScore, false, None)
  }

  /** The error `create` throws, if any: empty id, then equal ids, then the
      first id that names no team. */
  function CreateError(teams: set<TeamId>, info: MatchInfo): Option<Error> {
    if info.homeTeamId == "" || info.awayTeamId == "" then Some(Error(BadRequest, EmptyTeamId))
    else if info.homeTeamId == info.awayTeamId then Some(Error(BadRequest, EqualTeamIds))
    else if info.homeTeamId !in teams then Some(Error(BadRequest, TeamNotExist(info.homeTeamId)))
    else if info.awayTeamId !in teams then Some(Error(BadRequest, TeamNotExist(info.awayTeamId)))
    else None
  }

  /** Create a match under a fresh id (the store never reuses an id). */
  function Create(db: Db, info: MatchInfo): (r: Result<(Db, Id)>)
    requires db.Valid()
    ensures r.Err? <==> info.homeTeamId == "" || info.awayTeamId == "" || info.homeTeamId == info.awayTeamId
                        || info.homeTeamId !in db.teams || info.awayTeamId !in db.teams
    ensures r.Err? ==> r.error.kind == BadRequest && CreateError(db.teams, info) == Some(r.error)
    ensures r.Ok? ==> r.value.1 == db.nextId && r.value.1 !in db.matches
                      && r.value.0 == db.(matches := db.matches[db.nextId := NewMatch(info)], nextId := db.nextId + 1)
    ensures r.Ok? ==> r.value.0.Valid()
  {
    match CreateError(db.teams, info)
    case Some(e) => Err(e)
    case None =>
      var (id, db1) := db.Fresh();
      Ok((db1.(matches := db.matches[id := NewMatch(info)]), id))
  }

  /** The owner rule: a match that belongs to a series or group can only be
      changed by a caller that names that owner. */
  predicate OwnerAllows(belongId: Option<Id>, owner: Option<Id>) {
    belongId.None? || belongId == owner
  }

  /** The fields a caller may patch. */
  datatype Patch = SetScore(score: Score) | SetMap(mapName: MapSlot)

  function ApplyPatch(m: Match, p: Patch): Match {
    match p
    case SetScore(s) => m.(score := s)
    case SetMap(n) => m.(mapName := n)
  }

  /** Update a match: the patched field, then the three derived fields. */
  function Update(db: Db, id: Id, p: Patch, owner: Option<Id>): (r: Result<(Db, Match)>)
    ensures id !in db.matches ==> r == Err(Crash)
    ensures id in db.matches && !OwnerAllows(db.matches[id].belongId, owner)
            ==> r == Err(Error(Conflict, ReadonlySeria))
    ensures r.Ok? <==> id in db.matches && OwnerAllows(db.matches[id].belongId, owner)
    ensures r.Ok? ==> r.value.0 == db.(matches := db.matches[id := r.value.1])
    ensures r.Ok? ==> var m := db.matches[id];
                      var u := r.value.1;
                      && Consistent(u)
                      && u.isComplete == ScoreComplete(u.score)
                      && u.(isComplete := m.isComplete, winnerId := m.winnerId, isOvertime := m.isOvertime)
                         == ApplyPatch(m, p)
  {
    if id !in db.matches then Err(Crash)
    else
      var m := db.matches[id];
      if !OwnerAllows(m.belongId, owner) then Err(Error(Conflict, ReadonlySeria))
      else
        var u := Derive(ApplyPatch(m, p));
        Ok((db.(matches := db.matches[id := u]), u))
  }

  /** Reset a match to unplayed. */
  function Reset(db: Db, id: Id, owner: Option<Id>): (r: Result<(Db, Match)>)
    ensures r.Ok? <==> id in db.matches && OwnerAllows(db.matches[id].belongId, owner)
    ensures r.Ok? ==> var u := r.value.1;
                      && !u.isComplete && u.winnerId.None? && u.isOvertime.None? && u.score == NoScore
                      && r.value.0 == db.(matches := db.matches[id := u])
    ensures id !in db.matches ==> r == Err(Crash)
    ensures id in db.matches && !OwnerAllows(db.matches[id].belongId, owner)
            ==> r == Err(Error(Conflict, ReadonlySeria))
  {
    Update(db, id, SetScore(NoScore), owner)
  }

  /** Remove a match and return the removed document. */
  function Remove(db: Db, id: Id, owner: Option<Id>): (r: Result<(Db, Match)>)
    ensures id !in db.matches ==> r == Err(Crash)
    ensures id in db.matches && !OwnerAllows(db.matches[id].belongId, owner)
            ==> r == Err(Error(Conflict, ReadonlySeria))
    ensures r.Ok? <==> id in db.matches && OwnerAllows(db.matches[id].belongId, owner)
    ensures r.Ok? ==> r.value.1 == db.matches[id] && r.value.0 == db.(matches := db.matches - {id})
  {
    if id !in db.matches then Err(Crash)
    else if !OwnerAllows(db.matches[id].belongId, owner) then Err(Error(Conflict, ReadonlySeria))
    else Ok((db.(matches := db.matches - {id}), db.matches[id]))
  }

  /** Playing a match with an unequal score completes it with the higher side
      as winner. */
  lemma {:induction false} PlayedMatchHasWinner(db: Db, id: Id, home: int, away: int, owner: Option<Id>)
    requires id in db.matches && OwnerAllows(db.matches[id].belongId, owner) && home != away
    ensures var r := Update(db, id, SetScore(Score(Some(home), Some(away))), owner);
            && r.Ok? && r.value.1.isComplete
            && r.value.1.winnerId == Some(if home > away then db.matches[id].homeTeamId else db.matches[id].awayTeamId)
  {
  }
}
