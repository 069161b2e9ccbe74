/**
 * Teammate boosts (src/predictions/apply_teammate_boost.py): for every
 * injured star, each prediction row of a player who depends on that star
 * has its predicted points, rebounds and assists raised by the stored
 * boosts, in place.
 *
 * The prediction DataFrame is an array of rows. The two queries are
 * functions over the tables: the injured stars (latest report `Out`, a
 * season scoring average of at least 20) and each star's boost map (the
 * `teammate_dependency` rows whose `teammate_id` is the star, keyed by the
 * benefiting `player_id`).
 */
module TeammateBoost {
  import opened Wrappers
  import Recovery
  import TeammateDependency

  /** The three additive boosts of one dependency row. */
  datatype Boost = Boost(ppg: real, rpg: real, apg: real)

  /** `get_teammate_boosts(star)`: benefiting player id to boosts. */
  type BoostMap = map<int, Boost>

  /** A prediction row; `other` stands for every column the boosts do not touch. */
  datatype Prediction = Prediction(playerId: int, points: real, rebounds: real, assists: real, other: seq<string>)

  // ---- the two queries -------------------------------------------------------

  /** A season's averages pass `HAVING AVG(points) >= 20`; no rows or only NULLs fail it. */
  predicate SeasonStar(season: seq<TeammateDependency.BoxLine>, player: int) {
    var avg := TeammateDependency.Avg(TeammateDependency.Points(TeammateDependency.LinesOf(season, player)));
    avg.Some? && avg.value >= 20.0
  }

  /** `get_injured_stars` (lines 6-35): the distinct players whose latest report says `Out` and who average 20. */
  function InjuredStars(t: Recovery.Table, season: seq<TeammateDependency.BoxLine>): (s: set<int>)
    ensures forall p :: p in s ==> SeasonStar(season, p)
    ensures forall id :: (id in t && t[id].status.Out? && Recovery.IsLatest(t, id) && SeasonStar(season, t[id].playerId))
                         ==> t[id].playerId in s
  {
    set id | id in t && t[id].status.Out? && Recovery.IsLatest(t, id) && SeasonStar(season, t[id].playerId) :: t[id].playerId
  }

  /** An injured star's latest `Out` report is also one the recovery check would look at. */
  lemma InjuredStarIsRecoveryCandidate(t: Recovery.Table, season: seq<TeammateDependency.BoxLine>, p: int)
    requires p in InjuredStars(t, season)
    ensures exists id :: id in Recovery.Candidates(t) && t[id].playerId == p && t[id].status.Out?
  {
    var id :| id in t && t[id].status.Out? && Recovery.IsLatest(t, id) && SeasonStar(season, t[id].playerId) && t[id].playerId == p;
    assert id in Recovery.Candidates(t);
  }

  /** An earlier `Out` does not count: a player none of whose latest reports says `Out` is not an injured star. */
  lemma OnlyLatestReportCounts(t: Recovery.Table, season: seq<TeammateDependency.BoxLine>, p: int)
    requires forall id :: id in t && t[id].playerId == p && Recovery.IsLatest(t, id) ==> !t[id].status.Out?
    ensures p !in InjuredStars(t, season)
  {
  }

  /** The key of `teammate_dependency`: (`player_id`, `teammate_id`, `season`). */
  datatype DependencyKey = DependencyKey(player: int, teammate: int, season: string)

  type DependencyTable = map<DependencyKey, TeammateDependency.Dependency>

  /** `get_teammate_boosts` (lines 37-64): the rows for the star and season, keyed by the benefiting player. */
  function TeammateBoosts(table: DependencyTable, star: int, season: string): (m: BoostMap)
    ensures forall p :: p in m <==> DependencyKey(p, star, season) in table
    ensures forall p :: p in m ==> var d := table[DependencyKey(p, star, season)];
      m[p] == Boost(d.ppgBoost, d.rpgBoost, d.apgBoost)
  {
    map p | p in (set k | k in table && k.teammate == star && k.season == season :: k.player)
      :: var d := table[DependencyKey(p, star, season)]; Boost(d.ppgBoost, d.rpgBoost, d.apgBoost)
  }

  /** The table after a dependency run for `star` upserted its rows (`ON CONFLICT ... DO UPDATE`). */
  function Upserted(table: DependencyTable, star: int, season: string, written: map<int, TeammateDependency.Dependency>): (u: DependencyTable)
    ensures forall m :: m in written ==> DependencyKey(m, star, season) in u && u[DependencyKey(m, star, season)] == written[m]
    ensures forall k :: k in u ==> k in table || (k.teammate == star && k.season == season && k.player in written)
    ensures forall k :: k in table && !(k.teammate == star && k.season == season && k.player in written) ==> k in u && u[k] == table[k]
  {
    table + map m | m in written :: DependencyKey(m, star, season) := written[m]
  }

  /**
   * Reading back a run's rows: when the table held no rows for the star and
   * season before, the boosts read back are exactly the stored teammates' boosts.
   */
  lemma BoostsReadBack(table: DependencyTable, star: int, season: string, w: map<int, TeammateDependency.Dependency>)
    requires forall k :: k in table ==> k.teammate != star || k.season != season
    ensures var m := TeammateBoosts(Upserted(table, star, season, w), star, season);
      m.Keys == w.Keys &&
      forall p :: p in m ==> m[p] == Boost(w[p].ppgBoost, w[p].rpgBoost, w[p].apgBoost)
  {
    var u := Upserted(table, star, season, w);
    var m := TeammateBoosts(u, star, season);
    forall p | p in m
      ensures p in w
    {
      assert DependencyKey(p, star, season) in u;
    }
    forall p | p in w
      ensures p in m
    {
      assert DependencyKey(p, star, season) in u;
    }
  }

  /** Only teammates whose points swing by two or more are ever boosted. */
  lemma BoostsComeFromDependencyRun(table: DependencyTable, lines: seq<TeammateDependency.BoxLine>, star: int, season: string)
    requires forall k :: k in table ==> k.teammate != star || k.season != season
    requires TeammateDependency.DependencyOutcome(lines, star).Computed?
    ensures var w := TeammateDependency.DependencyOutcome(lines, star).written;
      var m := TeammateBoosts(Upserted(table, star, season, w), star, season);
      m.Keys == w.Keys && forall p :: p in m ==> TeammateDependency.Abs(m[p].ppg) >= 2.0
  {
    var w := TeammateDependency.DependencyOutcome(lines, star).written;
    assert forall p :: p in w ==> TeammateDependency.Abs(w[p].ppgBoost) >= 2.0;
    BoostsReadBack(table, star, season, w);
  }

  // ---- applying the boosts ------------------------------------------------------

  const NoBoost := Boost(0.0, 0.0, 0.0)

  function Plus(a: Boost, b: Boost): Boost {
    Boost(a.ppg + b.ppg, a.rpg + b.rpg, a.apg + b.apg)
  }

  /** The boost a star's map gives a player: its entry, or nothing. */
  function BoostFor(m: BoostMap, player: int): Boost {
    if player in m then m[player] else NoBoost
  }

  /** All the boosts a player receives from a list of injured stars, added up. */
  function TotalBoost(stars: seq<BoostMap>, player: int): Boost {
    if |stars| == 0 then NoBoost
    else Plus(TotalBoost(stars[..|stars| - 1], player), BoostFor(stars[|stars| - 1], player))
  }

  /** A row raised by a boost; nothing else in it changes. */
  function Raise(r: Prediction, b: Boost): (s: Prediction)
    ensures s.playerId == r.playerId && s.other == r.other
    ensures s.points == r.points + b.ppg && s.rebounds == r.rebounds + b.rpg && s.assists == r.assists + b.apg
  {
    r.(points := r.points + b.ppg, rebounds := r.rebounds + b.rpg, assists := r.assists + b.apg)
  }

  /** The predictions after every injured star's boosts were applied. */
  function Boosted(rows: seq<Prediction>, stars: seq<BoostMap>): (r: seq<Prediction>)
    ensures |r| == |rows|
    ensures forall i :: 0 <= i < |rows| ==> r[i] == Raise(rows[i], TotalBoost(stars, rows[i].playerId))
  {
    seq(|rows|, i requires 0 <= i < |rows| => Raise(rows[i], TotalBoost(stars, rows[i].playerId)))
  }

  /** The rows of `rows` whose player is in the map. */
  function Matches(rows: seq<Prediction>, m: BoostMap): nat {
    if |rows| == 0 then 0
    else Matches(rows[..|rows| - 1], m) + (if rows[|rows| - 1].playerId in m then 1 else 0)
  }

  /** `total_adjustments`: one per (star, row) pair adjusted. */
  function Adjustments(rows: seq<Prediction>, stars: seq<BoostMap>): nat {
    if |stars| == 0 then 0
    else Adjustments(rows, stars[..|stars| - 1]) + Matches(rows, stars[|stars| - 1])
  }

  /**
   * `apply_boosts_to_predictions`: the outer loop over injured stars; a star
   * whose map is empty adjusts nothing, as the source's early `continue` does.
   */
  method ApplyBoostsToPredictions(rows: array<Prediction>, stars: seq<BoostMap>) returns (adjustments: nat)
    modifies rows
    ensures rows[..] == Boosted(old(rows[..]), stars)
    ensures adjustments == Adjustments(old(rows[..]), stars)
  {
    ghost var start := rows[..];
    adjustments := 0;
    for j := 0 to |stars|
      invariant forall i :: 0 <= i < rows.Length ==> rows[i] == Raise(start[i], TotalBoost(stars[..j], start[i].playerId))
      invariant adjustments == Adjustments(start, stars[..j])
    {
      ghost var mid := rows[..];
      var count := ApplyStar(rows, stars[j]);
      forall i | 0 <= i < rows.Length
        ensures rows[i] == Raise(start[i], TotalBoost(stars[..j + 1], start[i].playerId))
      {
        assert mid[i] == Raise(start[i], TotalBoost(stars[..j], start[i].playerId));
        StarStep(stars, j, start[i]);
      }
      MatchesSamePlayers(mid, start, stars[j]);
      assert stars[..j + 1][..j] == stars[..j];
      adjustments := adjustments + count;
    }
    assert stars[..|stars|] == stars;
  }

  /** The inner loop: one star's boosts added to every matching row. */
  method ApplyStar(rows: array<Prediction>, boosts: BoostMap) returns (count: nat)
    modifies rows
    ensures forall i :: 0 <= i < rows.Length ==> rows[i] == Raise(old(rows[i]), BoostFor(boosts, old(rows[i]).playerId))
    ensures count == Matches(old(rows[..]), boosts)
  {
    ghost var start := rows[..];
    count := 0;
    for idx := 0 to rows.Length
      invariant forall i :: 0 <= i < idx ==> rows[i] == Raise(start[i], BoostFor(boosts, start[i].playerId))
      invariant forall i :: idx <= i < rows.Length ==> rows[i] == start[i]
      invariant count == Matches(start[..idx], boosts)
    {
      assert start[..idx + 1][..idx] == start[..idx];
      var row := rows[idx];
      if row.playerId in boosts {
        var boost := boosts[row.playerId];
        rows[idx] := row.(points := row.points + boost.ppg,
                          rebounds := row.rebounds + boost.rpg,
                          assists := row.assists + boost.apg);
        count := count + 1;
      } else {
        RaiseNothing(row);
      }
    }
    assert start[..rows.Length] == start;
  }

  lemma RaiseNothing(r: Prediction)
    ensures Raise(r, NoBoost) == r
  {
  }

  lemma RaiseRaise(r: Prediction, a: Boost, b: Boost)
    ensures Raise(Raise(r, a), b) == Raise(r, Plus(a, b))
  {
  }

  /** One more star's boosts on top of those of the stars before it. */
  lemma StarStep(stars: seq<BoostMap>, j: nat, r: Prediction)
    requires j < |stars|
    ensures Raise(Raise(r, TotalBoost(stars[..j], r.playerId)), BoostFor(stars[j], r.playerId))
         == Raise(r, TotalBoost(stars[..j + 1], r.playerId))
  {
    assert stars[..j + 1][..j] == stars[..j];
    RaiseRaise(r, TotalBoost(stars[..j], r.playerId), BoostFor(stars[j], r.playerId));
  }

  /** Matches only looks at player ids. */
  lemma {:induction false} MatchesSamePlayers(a: seq<Prediction>, b: seq<Prediction>, m: BoostMap)
    requires |a| == |b| && forall i :: 0 <= i < |a| ==> a[i].playerId == b[i].playerId
    ensures Matches(a, m) == Matches(b, m)
    decreases |a|
  {
    if |a| > 0 {
      MatchesSamePlayers(a[..|a| - 1], b[..|b| - 1], m);
    }
  }

  // ---- properties ------------------------------------------------------------

  /** With no injured star, the predictions come back unchanged. */
  lemma NoStarsNoChange(rows: seq<Prediction>)
    ensures Boosted(rows, []) == rows
    ensures Adjustments(rows, []) == 0
  {
    assert forall i :: 0 <= i < |rows| ==> Raise(rows[i], NoBoost) == rows[i];
  }

  /** A player in no star's map keeps every prediction. */
  lemma {:induction false} UnmatchedUnchanged(stars: seq<BoostMap>, player: int)
    requires forall k :: 0 <= k < |stars| ==> player !in stars[k]
    ensures TotalBoost(stars, player) == NoBoost
  {
    if |stars| > 0 {
      UnmatchedUnchanged(stars[..|stars| - 1], player);
    }
  }

  /** Boosts from several stars accumulate: applying two lists in turn is applying both. */
  lemma {:induction false} TotalBoostConcat(a: seq<BoostMap>, b: seq<BoostMap>, player: int)
    ensures TotalBoost(a + b, player) == Plus(TotalBoost(a, player), TotalBoost(b, player))
    decreases |b|
  {
    if |b| == 0 {
      assert a + b == a;
    } else {
      var n := |b| - 1;
      assert (a + b)[..|a + b| - 1] == a + b[..n];
      TotalBoostConcat(a, b[..n], player);
    }
  }

  lemma BoostedTwice(rows: seq<Prediction>, a: seq<BoostMap>, b: seq<BoostMap>)
    ensures Boosted(Boosted(rows, a), b) == Boosted(rows, a + b)
  {
    forall i | 0 <= i < |rows|
      ensures Boosted(Boosted(rows, a), b)[i] == Boosted(rows, a + b)[i]
    {
      TotalBoostConcat(a, b, rows[i].playerId);
      RaiseRaise(rows[i], TotalBoost(a, rows[i].playerId), TotalBoost(b, rows[i].playerId));
    }
  }

  /** Every adjustment is a (star, row) pair, so there are at most stars × rows of them. */
  lemma {:induction false} AdjustmentsBound(rows: seq<Prediction>, stars: seq<BoostMap>)
    ensures Adjustments(rows, stars) <= |stars| * |rows|
    decreases |stars|
  {
    if |stars| > 0 {
      AdjustmentsBound(rows, stars[..|stars| - 1]);
      MatchesBound(rows, stars[|stars| - 1]);
      assert |stars| * |rows| == (|stars| - 1) * |rows| + |rows|;
    }
  }

  lemma {:induction false} MatchesBound(rows: seq<Prediction>, m: BoostMap)
    ensures Matches(rows, m) <= |rows|
    decreases |rows|
  {
    if |rows| > 0 {
      MatchesBound(rows[..|rows| - 1], m);
    }
  }
}
