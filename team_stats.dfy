/** One team's tallies over a list of matches: a fold that, for every complete
    match the team took part in, bumps one of five outcome slots and one of two
    games slots and adds the team's and the opponent's score. */
module TeamStats {
  import opened Core
  import opened Schema

  const Zero := TeamStat([0, 0, 0, 0, 0], [0, 0], [0, 0])

  /** A null score side adds nothing when the runtime adds it to a number. */
  function ScoreValue(v: Option<int>): int {
    if v.Some? then v.value else 0
  }

  /** Only complete matches of the team contribute. */
  predicate Counted(teamId: TeamId, m: Match) {
    (teamId == m.homeTeamId || teamId == m.awayTeamId) && m.isComplete
  }

  predicate Won(teamId: TeamId, m: Match) {
    m.winnerId == Some(teamId)
  }

  predicate Overtime(m: Match) {
    m.isOvertime == Some(true)
  }

  /** The outcome slot a counted match goes to. The four cases of the source's
      switch already cover every combination, so a draw (no winner) lands in a
      loss slot and slot 2 is never chosen. */
  function OutcomeSlot(teamId: TeamId, m: Match): (slot: nat)
    ensures slot == 0 <==> Won(teamId, m) && !Overtime(m)
    ensures slot == 1 <==> Won(teamId, m) && Overtime(m)
    ensures slot == 3 <==> !Won(teamId, m) && Overtime(m)
    ensures slot == 4 <==> !Won(teamId, m) && !Overtime(m)
  {
    if Won(teamId, m) && !Overtime(m) then 0
    else if Won(teamId, m) then 1
    else if Overtime(m) then 3
    else 4
  }

  /** Games slot: 0 for a win, 1 otherwise. */
  function GamesSlot(teamId: TeamId, m: Match): (slot: nat)
    ensures slot < 2
  {
    if Won(teamId, m) then 0 else 1
  }

  /** The team's own side of the score and the opponent's. */
  function OwnScore(teamId: TeamId, m: Match): int {
    if teamId == m.homeTeamId then ScoreValue(m.score.home) else ScoreValue(m.score.away)
  }

  function OpponentScore(teamId: TeamId, m: Match): int {
    if teamId == m.homeTeamId then ScoreValue(m.score.away) else ScoreValue(m.score.home)
  }

  /** Element-wise sum of two equally long vectors. */
  function AddSeq(a: seq<int>, b: seq<int>): (r: seq<int>)
    requires |a| == |b|
    ensures |r| == |a| && forall i :: 0 <= i < |a| ==> r[i] == a[i] + b[i]
  {
    seq(|a|, i requires 0 <= i < |a| => a[i] + b[i])
  }

  function Plus(a: TeamStat, b: TeamStat): (r: TeamStat)
    requires a.WellFormed() && b.WellFormed()
    ensures r.WellFormed()
  {
    TeamStat(AddSeq(a.totalMatchesStat, b.totalMatchesStat),
             AddSeq(a.totalGames, b.totalGames),
             AddSeq(a.totalScore, b.totalScore))
  }

  /** One step of the fold. */
  function Step(teamId: TeamId, acc: TeamStat, m: Match): (r: TeamStat)
    requires acc.WellFormed()
    ensures r.WellFormed()
  {
    if !Counted(teamId, m) then acc
    else
      var o := OutcomeSlot(teamId, m);
      var g := GamesSlot(teamId, m);
      TeamStat(acc.totalMatchesStat[o := acc.totalMatchesStat[o] + 1],
               acc.totalGames[g := acc.totalGames[g] + 1],
               [acc.totalScore[0] + OwnScore(teamId, m), acc.totalScore[1] + OpponentScore(teamId, m)])
  }

  function CountCounted(teamId: TeamId, ms: seq<Match>): (n: nat)
    ensures n <= |ms|
  {
    if ms == [] then 0
    else CountCounted(teamId, ms[..|ms| - 1]) + (if Counted(teamId, ms[|ms| - 1]) then 1 else 0)
  }

  /** The fold of the source: a left-to-right reduce from all-zero tallies.
      Its contract: the tallies never go negative, the draw slot stays 0, and
      each counted match adds exactly one to the outcome slots and one to the
      games slots. */
  function TeamStatByMatches(teamId: TeamId, ms: seq<Match>): (r: TeamStat)
    ensures r.WellFormed()
    ensures r.totalMatchesStat[2] == 0
    ensures forall i :: 0 <= i < 5 ==> r.totalMatchesStat[i] >= 0
    ensures r.totalGames[0] >= 0 && r.totalGames[1] >= 0
    ensures r.totalMatchesStat[0] + r.totalMatchesStat[1] + r.totalMatchesStat[3] + r.totalMatchesStat[4]
            == CountCounted(teamId, ms)
    ensures r.totalGames[0] + r.totalGames[1] == CountCounted(teamId, ms)
  {
    if ms == [] then Zero
    else
      var acc := TeamStatByMatches(teamId, ms[..|ms| - 1]);
      Step(teamId, acc, ms[|ms| - 1])
  }

  /** A match contributes nothing unless it is complete and the team plays in it. */
  lemma UncountedMatchAddsNothing(teamId: TeamId, ms: seq<Match>, m: Match)
    requires !Counted(teamId, m)
    ensures TeamStatByMatches(teamId, ms + [m]) == TeamStatByMatches(teamId, ms)
  {
    assert (ms + [m])[..|ms + [m]| - 1] == ms;
  }

  /** Where a counted match goes: a win without overtime to outcome slot 0 and
      games slot 0, a win in overtime to 1 and 0, a non-win in overtime to 3
      and 1, any other non-win (a draw included) to 4 and 1; the score pair
      grows by the team's side and the opponent's side. */
  lemma CountedMatchSlots(teamId: TeamId, ms: seq<Match>, m: Match)
    requires Counted(teamId, m)
    ensures var before := TeamStatByMatches(teamId, ms);
            var after := TeamStatByMatches(teamId, ms + [m]);
            var o := if Won(teamId, m) && !Overtime(m) then 0
                     else if Won(teamId, m) then 1
                     else if Overtime(m) then 3 else 4;
            var g := if Won(teamId, m) then 0 else 1;
            && after.totalMatchesStat == before.totalMatchesStat[o := before.totalMatchesStat[o] + 1]
            && after.totalGames == before.totalGames[g := before.totalGames[g] + 1]
            && after.totalScore[0] == before.totalScore[0] + OwnScore(teamId, m)
            && after.totalScore[1] == before.totalScore[1] + OpponentScore(teamId, m)
  {
    assert (ms + [m])[..|ms + [m]| - 1] == ms;
    assert TeamStatByMatches(teamId, ms + [m]) == Step(teamId, TeamStatByMatches(teamId, ms), m);
    StepSlots(teamId, TeamStatByMatches(teamId, ms), m);
  }

  lemma StepSlots(teamId: TeamId, acc: TeamStat, m: Match)
    requires acc.WellFormed() && Counted(teamId, m)
    ensures var after := Step(teamId, acc, m);
            var o := if Won(teamId, m) && !Overtime(m) then 0
                     else if Won(teamId, m) then 1
                     else if Overtime(m) then 3 else 4;
            var g := if Won(teamId, m) then 0 else 1;
            && after.totalMatchesStat == acc.totalMatchesStat[o := acc.totalMatchesStat[o] + 1]
            && after.totalGames == acc.totalGames[g := acc.totalGames[g] + 1]
            && after.totalScore[0] == acc.totalScore[0] + OwnScore(teamId, m)
            && after.totalScore[1] == acc.totalScore[1] + OpponentScore(teamId, m)
  {
  }

  lemma PlusZero(a: TeamStat)
    requires a.WellFormed()
    ensures Plus(a, Zero) == a && Plus(Zero, a) == a
  {
    assert AddSeq(a.totalMatchesStat, Zero.totalMatchesStat) == a.totalMatchesStat;
    assert AddSeq(a.totalGames, Zero.totalGames) == a.totalGames;
    assert AddSeq(a.totalScore, Zero.totalScore) == a.totalScore;
    assert AddSeq(Zero.totalMatchesStat, a.totalMatchesStat) == a.totalMatchesStat;
    assert AddSeq(Zero.totalGames, a.totalGames) == a.totalGames;
    assert AddSeq(Zero.totalScore, a.totalScore) == a.totalScore;
  }

  lemma PlusComm(a: TeamStat, b: TeamStat)
    requires a.WellFormed() && b.WellFormed()
    ensures Plus(a, b) == Plus(b, a)
  {
    assert AddSeq(a.totalMatchesStat, b.totalMatchesStat) == AddSeq(b.totalMatchesStat, a.totalMatchesStat);
    assert AddSeq(a.totalGames, b.totalGames) == AddSeq(b.totalGames, a.totalGames);
    assert AddSeq(a.totalScore, b.totalScore) == AddSeq(b.totalScore, a.totalScore);
  }

  lemma PlusAssoc(a: TeamStat, b: TeamStat, c: TeamStat)
    requires a.WellFormed() && b.WellFormed() && c.WellFormed()
    ensures Plus(Plus(a, b), c) == Plus(a, Plus(b, c))
  {
    var l := Plus(Plus(a, b), c);
    var r := Plus(a, Plus(b, c));
    assert l.totalMatchesStat == r.totalMatchesStat;
    assert l.totalGames == r.totalGames;
    assert l.totalScore == r.totalScore;
  }

  /** One fold step adds the match's own contribution. */
  lemma StepIsPlus(teamId: TeamId, acc: TeamStat, m: Match)
    requires acc.WellFormed()
    ensures Step(teamId, acc, m) == Plus(acc, Step(teamId, Zero, m))
  {
    var l := Step(teamId, acc, m);
    var r := Plus(acc, Step(teamId, Zero, m));
    if Counted(teamId, m) {
      assert l.totalMatchesStat == r.totalMatchesStat;
      assert l.totalGames == r.totalGames;
      assert l.totalScore == r.totalScore;
    } else {
      PlusZero(acc);
    }
  }

  /** The fold over a concatenation is the sum of the folds. */
  lemma {:induction false} FoldConcat(teamId: TeamId, a: seq<Match>, b: seq<Match>)
    ensures TeamStatByMatches(teamId, a + b)
            == Plus(TeamStatByMatches(teamId, a), TeamStatByMatches(teamId, b))
  {
    if b == [] {
      assert a + b == a;
      PlusZero(TeamStatByMatches(teamId, a));
    } else {
      var b' := b[..|b| - 1];
      var x := b[|b| - 1];
      assert (a + b)[..|a + b| - 1] == a + b';
      assert (a + b)[|a + b| - 1] == x;
      FoldConcat(teamId, a, b');
      var fa := TeamStatByMatches(teamId, a);
      var fb' := TeamStatByMatches(teamId, b');
      var cx := Step(teamId, Zero, x);
      StepIsPlus(teamId, Plus(fa, fb'), x);
      StepIsPlus(teamId, fb', x);
      PlusAssoc(fa, fb', cx);
    }
  }

  /** Taking one occurrence of `x` out of both sides keeps two equal multisets equal. */
  lemma RemoveOne<T>(a: seq<T>, x: T, b1: seq<T>, b2: seq<T>)
    requires multiset(a + [x]) == multiset(b1 + [x] + b2)
    ensures multiset(a) == multiset(b1 + b2)
  {
    calc {
      multiset(a);
      multiset(a + [x]) - multiset{x};
      multiset(b1 + [x] + b2) - multiset{x};
      { assert multiset(b1 + [x] + b2) == multiset(b1 + b2) + multiset{x}; }
      multiset(b1 + b2);
    }
  }

  /** Moving one match from the middle to the end does not change the fold. */
  lemma MoveToEnd(teamId: TeamId, b1: seq<Match>, x: Match, b2: seq<Match>)
    ensures TeamStatByMatches(teamId, b1 + [x] + b2) == TeamStatByMatches(teamId, b1 + b2 + [x])
  {
    var f1 := TeamStatByMatches(teamId, b1);
    var f2 := TeamStatByMatches(teamId, b2);
    var cx := TeamStatByMatches(teamId, [x]);
    FoldConcat(teamId, b1 + b2, [x]);
    FoldConcat(teamId, b1, b2);
    FoldConcat(teamId, b1 + [x], b2);
    FoldConcat(teamId, b1, [x]);
    PlusAssoc(f1, cx, f2);
    PlusComm(cx, f2);
    PlusAssoc(f1, f2, cx);
  }

  /** The result is a sum, so it does not depend on the order of the matches. */
  lemma {:induction false} FoldOrderIndependent(teamId: TeamId, a: seq<Match>, b: seq<Match>)
    requires multiset(a) == multiset(b)
    ensures TeamStatByMatches(teamId, a) == TeamStatByMatches(teamId, b)
  {
    if a == [] {
      assert b == [] by { assert |multiset(b)| == 0; }
    } else {
      var a' := a[..|a| - 1];
      var x := a[|a| - 1];
      assert a == a' + [x];
      assert x in multiset(b);
      var i :| 0 <= i < |b| && b[i] == x;
      var b1, b2 := b[..i], b[i + 1..];
      assert b == b1 + [x] + b2;
      RemoveOne(a', x, b1, b2);
      FoldOrderIndependent(teamId, a', b1 + b2);
      MoveToEnd(teamId, b1, x, b2);
      assert (b1 + b2 + [x])[..|b1 + b2 + [x]| - 1] == b1 + b2;
    }
  }

  /** Every match is between `x` and `y`. */
  predicate Between(ms: seq<Match>, x: TeamId, y: TeamId) {
    forall i :: 0 <= i < |ms| ==>
      (ms[i].homeTeamId == x && ms[i].awayTeamId == y) || (ms[i].homeTeamId == y && ms[i].awayTeamId == x)
  }

  /** Head to head, one side's score for is the other side's score against. */
  lemma {:induction false} HeadToHeadScores(ms: seq<Match>, x: TeamId, y: TeamId)
    requires x != y && Between(ms, x, y)
    ensures TeamStatByMatches(x, ms).totalScore[0] == TeamStatByMatches(y, ms).totalScore[1]
    ensures TeamStatByMatches(x, ms).totalScore[1] == TeamStatByMatches(y, ms).totalScore[0]
  {
    if ms != [] {
      HeadToHeadScores(ms[..|ms| - 1], x, y);
    }
  }

  /** Head to head and with a winner in every complete match, one side's wins
      are the other side's losses. */
  lemma {:induction false} HeadToHeadGames(ms: seq<Match>, x: TeamId, y: TeamId)
    requires x != y && Between(ms, x, y)
    requires forall i :: 0 <= i < |ms| && ms[i].isComplete ==>
               ms[i].winnerId == Some(x) || ms[i].winnerId == Some(y)
    ensures TeamStatByMatches(x, ms).totalGames[0] == TeamStatByMatches(y, ms).totalGames[1]
    ensures TeamStatByMatches(x, ms).totalGames[1] == TeamStatByMatches(y, ms).totalGames[0]
  {
    if ms != [] {
      HeadToHeadGames(ms[..|ms| - 1], x, y);
    }
  }

  /** A complete drawn match counts as a loss for both teams. */
  lemma {:induction false} DrawIsLossForBoth(m: Match)
    requires m.isComplete && m.winnerId.None? && m.homeTeamId != m.awayTeamId
    ensures TeamStatByMatches(m.homeTeamId, [m]).totalGames == [0, 1]
    ensures TeamStatByMatches(m.awayTeamId, [m]).totalGames == [0, 1]
  {
    assert [m][..0] == [];
  }
}
