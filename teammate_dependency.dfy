/**
 * Teammate dependency (src/data_collection/calculate_teammate_dependency.py):
 * for a star scoring at least 20 points a game, how much each teammate's
 * averages change in the games the star missed. Only teammates with at
 * least three such games and a points swing of at least two are stored.
 *
 * The season's box-score rows (`player_game_stats` joined with `games` and
 * restricted to the season) are the input; the upserts into
 * `teammate_dependency` for this star and season are the returned map from
 * teammate id to row, which is what the table holds for that star
 * afterwards.
 */
module TeammateDependency {
  import opened Wrappers

  /** One box-score row of the season; statistics may be NULL. */
  datatype BoxLine = BoxLine(
    playerId: int, gameId: int, teamId: int, date: int,
    minutes: Option<real>, points: Option<real>, rebounds: Option<real>, assists: Option<real>)

  /** `minutes_played >= 15`; a NULL compares false. */
  predicate Qualifies(l: BoxLine) {
    l.minutes.Some? && l.minutes.value >= 15.0
  }

  // ---- SQL aggregates ------------------------------------------------------

  function Present(xs: seq<Option<real>>): (r: seq<real>)
    ensures |r| <= |xs|
  {
    if |xs| == 0 then []
    else Present(xs[..|xs| - 1]) + (if xs[|xs| - 1].Some? then [xs[|xs| - 1].value] else [])
  }

  function SumReal(xs: seq<real>): real {
    if |xs| == 0 then 0.0 else SumReal(xs[..|xs| - 1]) + xs[|xs| - 1]
  }

  /** SQL `AVG`: the mean of the non-NULL values, NULL when there are none. */
  function Avg(xs: seq<Option<real>>): (r: Option<real>)
    ensures r.None? <==> |Present(xs)| == 0
  {
    var p := Present(xs);
    if |p| == 0 then None else Some(SumReal(p) / |p| as real)
  }

  /** `float(avg) if row and avg else 0.0`: a NULL (or zero) average reads as 0. */
  function AvgOrZero(xs: seq<Option<real>>): real {
    var a := Avg(xs);
    if a.Some? && a.value != 0.0 then a.value else 0.0
  }

  function Points(ls: seq<BoxLine>): seq<Option<real>> { seq(|ls|, i requires 0 <= i < |ls| => ls[i].points) }
  function Rebounds(ls: seq<BoxLine>): seq<Option<real>> { seq(|ls|, i requires 0 <= i < |ls| => ls[i].rebounds) }
  function Assists(ls: seq<BoxLine>): seq<Option<real>> { seq(|ls|, i requires 0 <= i < |ls| => ls[i].assists) }

  // ---- row selections ------------------------------------------------------

  /** A player's qualifying rows, in table order. */
  function QualifyingLines(lines: seq<BoxLine>, player: int): (r: seq<BoxLine>)
    ensures forall l :: l in r <==> l in lines && l.playerId == player && Qualifies(l)
  {
    if |lines| == 0 then []
    else
      var l := lines[|lines| - 1];
      QualifyingLines(lines[..|lines| - 1], player) + (if l.playerId == player && Qualifies(l) then [l] else [])
  }

  /** The `EXISTS` subquery: the star logged 15 minutes in that game. */
  predicate StarPlayed(lines: seq<BoxLine>, star: int, gameId: int) {
    exists l :: l in lines && l.playerId == star && l.gameId == gameId && Qualifies(l)
  }

  /** The rows of `ls` in whose game the star played (`withStar`) or did not. */
  function ByStar(ls: seq<BoxLine>, lines: seq<BoxLine>, star: int, withStar: bool): (r: seq<BoxLine>)
    ensures |r| <= |ls|
    ensures forall l :: l in r <==> l in ls && StarPlayed(lines, star, l.gameId) == withStar
  {
    if |ls| == 0 then []
    else
      var l := ls[|ls| - 1];
      ByStar(ls[..|ls| - 1], lines, star, withStar) + (if StarPlayed(lines, star, l.gameId) == withStar then [l] else [])
  }

  /** Every qualifying game of a teammate is counted exactly once, with or without the star. */
  lemma {:induction false} WithWithoutPartition(ls: seq<BoxLine>, lines: seq<BoxLine>, star: int)
    ensures |ByStar(ls, lines, star, true)| + |ByStar(ls, lines, star, false)| == |ls|
    decreases |ls|
  {
    if |ls| > 0 {
      WithWithoutPartition(ls[..|ls| - 1], lines, star);
    }
  }

  /** A row with the greatest date, the first one in table order when several share it. */
  function LatestLine(ls: seq<BoxLine>): (l: BoxLine)
    requires |ls| > 0
    ensures l in ls
    ensures forall m :: m in ls ==> m.date <= l.date
  {
    if |ls| == 1 then ls[0]
    else
      var rest := LatestLine(ls[1..]);
      assert forall m :: m in ls ==> m == ls[0] || m in ls[1..];
      if ls[0].date >= rest.date then ls[0] else rest
  }

  function LinesOf(lines: seq<BoxLine>, player: int): (r: seq<BoxLine>)
    ensures forall l :: l in r <==> l in lines && l.playerId == player
  {
    if |lines| == 0 then []
    else
      var l := lines[|lines| - 1];
      LinesOf(lines[..|lines| - 1], player) + (if l.playerId == player then [l] else [])
  }

  /** The distinct entries of `ids`, in order of first appearance. */
  function Distinct(ids: seq<int>): (r: seq<int>)
    ensures forall x :: x in r <==> x in ids
    ensures forall i, j :: 0 <= i < j < |r| ==> r[i] != r[j]
  {
    if |ids| == 0 then []
    else
      var front := Distinct(ids[..|ids| - 1]);
      var x := ids[|ids| - 1];
      assert forall y :: y in ids <==> y in ids[..|ids| - 1] || y == x;
      if x in front then front else front + [x]
  }

  /** The player ids of the qualifying rows for `team`, other than the star, with repeats. */
  function TeamRowIds(lines: seq<BoxLine>, team: int, star: int): (r: seq<int>)
    ensures forall p :: p in r <==> exists l :: l in lines && l.teamId == team && l.playerId == p && p != star && Qualifies(l)
  {
    if |lines| == 0 then []
    else
      var l := lines[|lines| - 1];
      var front := TeamRowIds(lines[..|lines| - 1], team, star);
      assert forall m :: m in lines <==> m in lines[..|lines| - 1] || m == l;
      front + (if l.teamId == team && l.playerId != star && Qualifies(l) then [l.playerId] else [])
  }

  /** The third query (lines 57-66): other players who logged 15 minutes for the team, once each. */
  function Teammates(lines: seq<BoxLine>, team: int, star: int): (r: seq<int>)
    ensures forall j, k :: 0 <= j < k < |r| ==> r[j] != r[k]
    ensures forall p :: p in r <==> exists l :: l in lines && l.teamId == team && l.playerId == p && p != star && Qualifies(l)
  {
    Distinct(TeamRowIds(lines, team, star))
  }

  // ---- one teammate (lines 74-165) -----------------------------------------

  datatype Dependency = Dependency(
    gamesWith: nat, gamesWithout: nat,
    ppgWith: real, ppgWithout: real, ppgBoost: real,
    rpgWith: real, rpgWithout: real, rpgBoost: real,
    apgWith: real, apgWithout: real, apgBoost: real)

  function Abs(x: real): real { if x < 0.0 then -x else x }

  /** The row upserted for a teammate, or `None` when one of the two `continue`s skips it. */
  function Assess(lines: seq<BoxLine>, star: int, mate: int): (r: Option<Dependency>)
    ensures r.Some? ==> r.value.gamesWithout >= 3 && Abs(r.value.ppgBoost) >= 2.0
    ensures r.Some? ==> r.value.ppgBoost == r.value.ppgWithout - r.value.ppgWith
    ensures r.Some? ==> r.value.rpgBoost == r.value.rpgWithout - r.value.rpgWith
    ensures r.Some? ==> r.value.apgBoost == r.value.apgWithout - r.value.apgWith
  {
    var games := QualifyingLines(lines, mate);
    var with, without := ByStar(games, lines, star, true), ByStar(games, lines, star, false);
    if |without| < 3 then None
    else
      var ppgWith, ppgWithout := AvgOrZero(Points(with)), AvgOrZero(Points(without));
      var rpgWith, rpgWithout := AvgOrZero(Rebounds(with)), AvgOrZero(Rebounds(without));
      var apgWith, apgWithout := AvgOrZero(Assists(with)), AvgOrZero(Assists(without));
      if Abs(ppgWithout - ppgWith) < 2.0 then None
      else Some(Dependency(|with|, |without|,
        ppgWith, ppgWithout, ppgWithout - ppgWith,
        rpgWith, rpgWithout, rpgWithout - rpgWith,
        apgWith, apgWithout, apgWithout - apgWith))
  }

  /** The rows stored for the first teammates of the list. */
  function Written(lines: seq<BoxLine>, star: int, mates: seq<int>): (w: map<int, Dependency>)
    ensures forall m :: m in w <==> m in mates && Assess(lines, star, m).Some?
    ensures forall m :: m in w ==> Assess(lines, star, m) == Some(w[m])
  {
    if |mates| == 0 then map[]
    else
      var m := mates[|mates| - 1];
      var front := Written(lines, star, mates[..|mates| - 1]);
      assert forall x :: x in mates <==> x in mates[..|mates| - 1] || x == m;
      var a := Assess(lines, star, m);
      if a.Some? then front[m := a.value] else front
  }

  // ---- the whole run --------------------------------------------------------

  datatype Outcome =
    | NotFound                 // no 15-minute game of the star this season
    | AverageRaised            // the star's average is NULL: `float(None)` raises
    | NotStar(ppg: real)       // under 20 points a game: nothing is written
    | Computed(written: map<int, Dependency>, found: nat)

  /** What `calculate_dependency_for_player` does for a star and the season's rows. */
  function DependencyOutcome(lines: seq<BoxLine>, star: int): (o: Outcome)
    ensures o.Computed? ==> forall m :: m in o.written ==>
      o.written[m].gamesWithout >= 3 && Abs(o.written[m].ppgBoost) >= 2.0
  {
    var starGames := QualifyingLines(lines, star);
    if |starGames| == 0 then NotFound
    else
      var ppg := Avg(Points(starGames));
      if ppg.None? then AverageRaised
      else if ppg.value < 20.0 then NotStar(ppg.value)
      else
        var team := LatestLine(LinesOf(lines, star)).teamId;
        var w := Written(lines, star, Teammates(lines, team, star));
        Computed(w, |w|)
  }

  /**
   * The source's loop over the teammates: the two `continue`s, one upsert
   * per remaining teammate, and the `dependencies_found` counter.
   */
  method CalculateDependencyForPlayer(lines: seq<BoxLine>, star: int) returns (o: Outcome)
    ensures o == DependencyOutcome(lines, star)
    ensures o.Computed? ==> o.found == |o.written|
  {
    var starGames := QualifyingLines(lines, star);
    if |starGames| == 0 {
      return NotFound;
    }
    var ppg := Avg(Points(starGames));
    if ppg.None? {
      return AverageRaised;
    }
    if ppg.value < 20.0 {
      return NotStar(ppg.value);
    }
    var starLines := LinesOf(lines, star);
    assert starGames[0] in starLines;
    var team := LatestLine(starLines).teamId;
    var mates := Teammates(lines, team, star);
    var written, found := StoreDependencies(lines, star, mates);
    o := Computed(written, found);
  }

  /** The loop of lines 74-165 over a list of distinct teammates. */
  method StoreDependencies(lines: seq<BoxLine>, star: int, mates: seq<int>) returns (written: map<int, Dependency>, found: nat)
    requires forall j, k :: 0 <= j < k < |mates| ==> mates[j] != mates[k]
    ensures written == Written(lines, star, mates)
    ensures found == |written|
  {
    written, found := map[], 0;
    for i := 0 to |mates|
      invariant written == Written(lines, star, mates[..i])
      invariant found == |written|
    {
      var mate := mates[i];
      WrittenStep(lines, star, mates, i);
      var games := QualifyingLines(lines, mate);
      var without := ByStar(games, lines, star, false);
      if |without| < 3 {
        continue;
      }
      var row := Assess(lines, star, mate);
      if row.None? {
        continue;
      }
      written := written[mate := row.value];
      found := found + 1;
    }
    assert mates[..|mates|] == mates;
  }

  /** One more teammate: stored when assessed, and never one already stored. */
  lemma WrittenStep(lines: seq<BoxLine>, star: int, mates: seq<int>, i: nat)
    requires i < |mates|
    requires forall j, k :: 0 <= j < k < |mates| ==> mates[j] != mates[k]
    ensures mates[i] !in Written(lines, star, mates[..i])
    ensures Written(lines, star, mates[..i + 1]) ==
      var a := Assess(lines, star, mates[i]);
      var w := Written(lines, star, mates[..i]);
      if a.Some? then w[mates[i] := a.value] else w
    ensures |ByStar(QualifyingLines(lines, mates[i]), lines, star, false)| < 3 ==> Assess(lines, star, mates[i]).None?
  {
    assert mates[..i + 1][..i] == mates[..i];
  }

  // ---- properties ------------------------------------------------------------

  /** Nothing is written for a player we cannot find or who is not a star. */
  lemma NonStarWritesNothing(lines: seq<BoxLine>, star: int)
    requires var a := Avg(Points(QualifyingLines(lines, star))); a.None? || a.value < 20.0
    ensures !DependencyOutcome(lines, star).Computed?
  {
  }

  /** The games with and without the star add up to the teammate's qualifying games. */
  lemma GamesAddUp(lines: seq<BoxLine>, star: int, mate: int)
    requires Assess(lines, star, mate).Some?
    ensures Assess(lines, star, mate).value.gamesWith + Assess(lines, star, mate).value.gamesWithout
      == |QualifyingLines(lines, mate)|
  {
    WithWithoutPartition(QualifyingLines(lines, mate), lines, star);
  }

  /** A stored teammate played for the star's latest team and is not the star. */
  lemma WrittenAreTeammates(lines: seq<BoxLine>, star: int, m: int)
    requires DependencyOutcome(lines, star).Computed?
    requires m in DependencyOutcome(lines, star).written
    ensures m != star
    ensures |LinesOf(lines, star)| > 0
    ensures exists l :: l in lines && l.teamId == LatestLine(LinesOf(lines, star)).teamId && l.playerId == m && Qualifies(l)
  {
    var starGames := QualifyingLines(lines, star);
    assert starGames[0] in LinesOf(lines, star);
  }
}
