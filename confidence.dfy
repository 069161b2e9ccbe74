/**
 * The confidence score of a prediction (`calculate_confidence`,
 * src/predictions/predict_games.py): four components, each tiered and
 * floored, are added up and the total is clamped to an integer in [0, 100].
 *
 *   stability     0..30  spread of the player's points, season and career
 *   completeness  0..20  share of the expected features that are present
 *   experience    0..25  season games minus deductions for little history
 *   roster        0..25  recent trades or signings and a new-team penalty
 *
 * The database lookups become inputs: the career spread, the career game
 * count, the latest injury return and the latest transaction. A lookup that
 * can raise is a `Lookup`; a lookup whose failure is silently ignored is an
 * `Option` whose `None` covers both "no row" and "raised".
 */
module Confidence {
  import opened Wrappers

  type NonNeg = r: real | r >= 0.0

  /** Count, mean and standard deviation of a set of games' points. */
  datatype PointsSpread = PointsSpread(count: nat, mean: real, std: NonNeg)

  /** The result of a query whose exception is caught and handled. */
  datatype Lookup<T> = Failed | Found(value: T)

  /** Which optional arguments the caller supplied (`conn and player_id`, `target_date`, `season`). */
  datatype Context = Context(connected: bool, hasDate: bool, hasSeason: bool)

  /** The most recent return from injury within 60 days: days since the return and `games_missed`. */
  datatype InjuryReturn = InjuryReturn(daysSinceReturn: int, gamesMissed: Option<int>)

  datatype TransactionKind = Trade | Signing

  /** The most recent trade or signing within 30 days. */
  datatype Transaction = Transaction(kind: TransactionKind, daysSince: int)

  /** The first row of the feature table: `None` is a NaN cell; an absent key an absent column. */
  type FeatureRow = map<string, Option<real>>

  // ---- stability (lines 88-128) ------------------------------------------

  function Max0(x: real): real { if x > 0.0 then x else 0.0 }

  /** `max(0, 30 - 60 * cv)` with `cv = std / mean`, or 15 when the mean is not positive. */
  function CvScore(s: PointsSpread): (r: real)
    ensures 0.0 <= r <= 30.0
    ensures s.mean <= 0.0 ==> r == 15.0
    ensures s.mean > 0.0 && s.std == 0.0 ==> r == 30.0
  {
    if s.mean > 0.0 then Max0(30.0 - s.std / s.mean * 60.0) else 15.0
  }

  /** For a fixed positive mean, a wider spread never scores higher. */
  lemma CvScoreAntitone(a: PointsSpread, b: PointsSpread)
    requires a.mean == b.mean > 0.0 && a.std <= b.std
    ensures CvScore(b) <= CvScore(a)
  {
    assert b.std / b.mean >= a.std / a.mean by {
      var m := a.mean;
      assert b.std / m - a.std / m == (b.std - a.std) / m;
    }
  }

  /** The season part: 10 with fewer than five games, otherwise the spread score. */
  function SeasonStability(season: PointsSpread): (r: real)
    ensures 0.0 <= r <= 30.0
    ensures season.count < 5 ==> r == 10.0
    ensures season.count >= 5 && season.mean <= 0.0 ==> r == 15.0
  {
    if season.count >= 5 then CvScore(season) else 10.0
  }

  /**
   * The career part: 0 without a connection; the season part when the query
   * raised or found fewer than 20 career games; otherwise the career spread score.
   */
  function CareerStability(ctx: Context, seasonScore: real, career: Lookup<PointsSpread>): real {
    if !ctx.connected then 0.0
    else match career
      case Failed => seasonScore
      case Found(c) => if c.count >= 20 then CvScore(c) else seasonScore
  }

  function StabilityScore(ctx: Context, season: PointsSpread, career: Lookup<PointsSpread>): (r: real)
    ensures 0.0 <= r <= 30.0
  {
    var s := SeasonStability(season);
    s * 0.75 + CareerStability(ctx, s, career) * 0.25
  }

  /** The career part stays 0 without a connection and falls back to the season part with little history. */
  lemma CareerFallsBackToSeason(ctx: Context, season: PointsSpread, career: Lookup<PointsSpread>)
    ensures !ctx.connected ==> StabilityScore(ctx, season, career) == SeasonStability(season) * 0.75
    ensures ctx.connected && (career.Failed? || career.value.count < 20) ==>
      StabilityScore(ctx, season, career) == SeasonStability(season)
  {
  }

  // ---- completeness (lines 129-155) --------------------------------------

  const ExpectedFeatures: seq<string> := [
    "is_playoff",
    "points_l5", "rebounds_total_l5", "assists_l5",
    "points_l10", "rebounds_total_l10", "assists_l10",
    "points_l20", "rebounds_total_l20", "assists_l20",
    "points_l5_weighted", "rebounds_total_l5_weighted", "assists_l5_weighted",
    "points_l10_weighted", "rebounds_total_l10_weighted", "assists_l10_weighted",
    "points_l20_weighted", "rebounds_total_l20_weighted", "assists_l20_weighted",
    "star_teammate_out", "star_teammate_ppg", "games_without_star",
    "playoff_games_career", "playoff_performance_boost",
    "is_home", "days_rest", "is_back_to_back", "games_played_season",
    "offensive_rating_team", "defensive_rating_team", "pace_team",
    "offensive_rating_opp", "defensive_rating_opp", "pace_opp",
    "opp_field_goal_pct", "opp_three_point_pct",
    "opp_team_turnovers_per_game", "opp_team_steals_per_game",
    "opp_points_allowed_to_position", "opp_rebounds_allowed_to_position",
    "opp_assists_allowed_to_position", "opp_blocks_allowed_to_position",
    "opp_three_pointers_allowed_to_position",
    "opp_position_turnovers_vs_team", "opp_position_steals_vs_team",
    "opp_position_turnovers_overall", "opp_position_steals_overall",
    "arena_altitude", "altitude_away"]

  predicate Present(row: FeatureRow, name: string) {
    name in row && row[name].Some?
  }

  /** How many of `names` are present and not NaN in the row. */
  function Available(row: FeatureRow, names: seq<string>): (r: nat)
    ensures r <= |names|
    ensures r == |names| <==> forall k :: 0 <= k < |names| ==> Present(row, names[k])
  {
    if names == [] then 0
    else Available(row, names[..|names| - 1]) + (if Present(row, names[|names| - 1]) then 1 else 0)
  }

  function CompletenessScore(row: FeatureRow): (r: real)
    ensures 0.0 <= r <= 20.0
    ensures r == 20.0 <==> forall k :: 0 <= k < |ExpectedFeatures| ==> Present(row, ExpectedFeatures[k])
  {
    assert |ExpectedFeatures| == 49;
    Available(row, ExpectedFeatures) as real / 49.0 * 20.0
  }

  // ---- experience (lines 157-230) ----------------------------------------

  /** `coming_off_injury`: returned within 30 days after missing at least five games. */
  predicate ComingOffInjury(ctx: Context, injury: Option<InjuryReturn>) {
    ctx.connected && ctx.hasDate && injury.Some?
    && injury.value.daysSinceReturn <= 30 && injury.value.gamesMissed.GetOr(0) >= 5
  }

  function GamesMissed(ctx: Context, injury: Option<InjuryReturn>): int {
    if ctx.connected && ctx.hasDate && injury.Some? then injury.value.gamesMissed.GetOr(0) else 0
  }

  /** `career_games_count`: 0 without a connection, the season count when the query raised. */
  function CareerGames(ctx: Context, count: Lookup<nat>, seasonGames: nat): nat {
    if !ctx.connected then 0
    else match count
      case Failed => seasonGames
      case Found(n) => n
  }

  function SeasonTier(seasonGames: nat): int {
    if seasonGames >= 20 then 25 else if seasonGames >= 10 then 20 else if seasonGames >= 5 then 15 else 10
  }

  function Deductions(careerGames: nat, seasonGames: nat, injured: bool, missed: int): int {
    var career := if careerGames < 20 then 10 else if careerGames < 50 then 5 else 0;
    var recent :=
      if seasonGames < 5 then
        (if injured then (if missed >= 20 then 8 else if missed >= 10 then 5 else 3) else 2)
      else if seasonGames < 10 then (if injured then 3 else 1)
      else 0;
    career + recent
  }

  function ExperienceScore(ctx: Context, seasonGames: nat, careerCount: Lookup<nat>, injury: Option<InjuryReturn>): (r: int)
    ensures 0 <= r <= 25
  {
    var d := Deductions(CareerGames(ctx, careerCount, seasonGames), seasonGames,
      ComingOffInjury(ctx, injury), GamesMissed(ctx, injury));
    if SeasonTier(seasonGames) - d > 0 then SeasonTier(seasonGames) - d else 0
  }

  /** Full experience needs twenty season games and fifty career games. */
  lemma FullExperience(ctx: Context, seasonGames: nat, careerCount: Lookup<nat>, injury: Option<InjuryReturn>)
    ensures ExperienceScore(ctx, seasonGames, careerCount, injury) == 25 <==>
      seasonGames >= 20 && CareerGames(ctx, careerCount, seasonGames) >= 50
  {
  }

  /** The injury deductions only apply to a player who did come off an injury. */
  lemma InjuryOnlyHurts(ctx: Context, seasonGames: nat, careerCount: Lookup<nat>, injury: Option<InjuryReturn>)
    ensures ExperienceScore(ctx, seasonGames, careerCount, injury) <= ExperienceScore(ctx, seasonGames, careerCount, None)
    ensures !ComingOffInjury(ctx, injury) ==>
      ExperienceScore(ctx, seasonGames, careerCount, injury) == ExperienceScore(ctx, seasonGames, careerCount, None)
  {
  }

  // ---- roster (lines 232-274) --------------------------------------------

  /** What a trade or signing costs, by days since it happened. */
  function TransactionPenalty(t: Transaction): (r: int)
    ensures 0 <= r <= 15
    ensures t.daysSince > 21 ==> r == 0
    ensures t.kind == Signing ==> r <= 12
  {
    match t.kind
      case Trade => if t.daysSince <= 7 then 15 else if t.daysSince <= 14 then 10 else if t.daysSince <= 21 then 5 else 0
      case Signing => if t.daysSince <= 7 then 12 else if t.daysSince <= 14 then 8 else if t.daysSince <= 21 then 4 else 0
  }

  /** The games with the current team that the feature table reports, falling back to the season count. */
  function GamesWithTeam(row: FeatureRow, seasonGames: nat): Option<real> {
    if "games_played_season" !in row then None
    else Some(row["games_played_season"].GetOr(seasonGames as real))
  }

  /** The −8 for a player new to the team: fewer than three games with it but at least five this season. */
  function NewTeamPenalty(row: FeatureRow, seasonGames: nat): int {
    var g := GamesWithTeam(row, seasonGames);
    if g.Some? && g.value < 3.0 && seasonGames >= 5 then 8 else 0
  }

  function RosterScore(ctx: Context, transaction: Option<Transaction>, row: FeatureRow, seasonGames: nat): (r: int)
    ensures 0 <= r <= 25
    ensures r == 25 <==>
      NewTeamPenalty(row, seasonGames) == 0
      && (!(ctx.connected && ctx.hasDate && ctx.hasSeason) || transaction.None? || TransactionPenalty(transaction.value) == 0)
  {
    var t := if ctx.connected && ctx.hasDate && ctx.hasSeason && transaction.Some? then TransactionPenalty(transaction.value) else 0;
    var s := 25 - t - NewTeamPenalty(row, seasonGames);
    if s > 0 then s else 0
  }

  // ---- total (line 276) ----------------------------------------------------

  /** Everything `calculate_confidence` reads. */
  datatype Inputs = Inputs(
    ctx: Context, row: FeatureRow, season: PointsSpread, career: Lookup<PointsSpread>,
    careerCount: Lookup<nat>, injury: Option<InjuryReturn>, transaction: Option<Transaction>)

  function Total(x: Inputs): real {
    StabilityScore(x.ctx, x.season, x.career) + CompletenessScore(x.row)
    + ExperienceScore(x.ctx, x.season.count, x.careerCount, x.injury) as real
    + RosterScore(x.ctx, x.transaction, x.row, x.season.count) as real
  }

  /** `int(max(0, min(100, score)))`; the argument is never negative, so truncation is the floor. */
  function ConfidenceOf(x: Inputs): (r: int)
    ensures 0 <= r <= 100
  {
    var t := Total(x);
    var c := if t < 0.0 then 0.0 else if t > 100.0 then 100.0 else t;
    c.Floor
  }

  /** The four bounded components already sum into [0, 100], so the clamp never changes the score. */
  lemma ClampNeverBinds(x: Inputs)
    ensures 0.0 <= Total(x) <= 100.0
    ensures ConfidenceOf(x) == Total(x).Floor
  {
  }

  /** A fully connected veteran with every feature, a steady season and no news scores 100. */
  lemma PerfectScore(x: Inputs)
    requires x.ctx.connected && x.season.count >= 20 && x.season.mean > 0.0 && x.season.std == 0.0
    requires x.career.Found? && x.career.value.count >= 20 && x.career.value.mean > 0.0 && x.career.value.std == 0.0
    requires x.careerCount == Found(50)
    requires forall k :: 0 <= k < |ExpectedFeatures| ==> Present(x.row, ExpectedFeatures[k])
    requires x.transaction.None? && NewTeamPenalty(x.row, x.season.count) == 0
    ensures ConfidenceOf(x) == 100
  {
    assert Total(x) == 100.0;
  }

  /**
   * The score as the source accumulates it: stability, completeness,
   * experience and roster added to a running `score` one after another.
   */
  method CalculateConfidence(x: Inputs) returns (confidence: int)
    ensures 0 <= confidence <= 100
    ensures confidence == ConfidenceOf(x)
  {
    var score := 0.0;
    var seasonCv := SeasonStability(x.season);
    var careerCv := CareerStability(x.ctx, seasonCv, x.career);
    score := score + seasonCv * 0.75 + careerCv * 0.25;
    assert score == StabilityScore(x.ctx, x.season, x.career);
    score := score + CompletenessScore(x.row);

    var seasonGames := x.season.count;
    var seasonScore := SeasonTier(seasonGames);
    var deductions := 0;
    var careerGames := CareerGames(x.ctx, x.careerCount, seasonGames);
    if careerGames < 20 {
      deductions := deductions + 10;
    } else if careerGames < 50 {
      deductions := deductions + 5;
    }
    var injured := ComingOffInjury(x.ctx, x.injury);
    var missed := GamesMissed(x.ctx, x.injury);
    if seasonGames < 5 {
      if injured {
        deductions := deductions + (if missed >= 20 then 8 else if missed >= 10 then 5 else 3);
      } else {
        deductions := deductions + 2;
      }
    } else if seasonGames < 10 {
      deductions := deductions + (if injured then 3 else 1);
    }
    assert deductions == Deductions(careerGames, seasonGames, injured, missed);
    var experience := if seasonScore - deductions > 0 then seasonScore - deductions else 0;
    assert experience == ExperienceScore(x.ctx, x.season.count, x.careerCount, x.injury);
    score := score + experience as real;

    var transactionScore := 25;
    if x.ctx.connected && x.ctx.hasDate && x.ctx.hasSeason && x.transaction.Some? {
      transactionScore := transactionScore - TransactionPenalty(x.transaction.value);
    }
    transactionScore := transactionScore - NewTeamPenalty(x.row, seasonGames);
    var roster := if transactionScore > 0 then transactionScore else 0;
    assert roster == RosterScore(x.ctx, x.transaction, x.row, x.season.count);
    score := score + roster as real;
    assert score == Total(x);

    var clamped := if score < 0.0 then 0.0 else if score > 100.0 then 100.0 else score;
    confidence := clamped.Floor;
  }
}
