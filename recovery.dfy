/**
 * The injury recovery check (src/data_collection/mark_recovered_players.py):
 * every still-active latest injury report whose player appeared in a
 * completed game on the target date becomes `Healthy`, with the return date
 * and the number of league game dates missed recorded.
 *
 * The `injuries` table is a map from `injury_id` (its primary key) to the
 * row; the games and box-score tables are sequences; the UPDATE statements
 * become the returned map. Dates are day numbers.
 */
module Recovery {
  import opened Wrappers

  /** `injury_status`; any other text the injury feed reports is kept as it is. */
  datatype InjuryStatus = Out | DayToDay | Questionable | Healthy | Other(text: string)

  datatype Injury = Injury(
    playerId: int, reportDate: int, status: InjuryStatus,
    returnDate: Option<int>, gamesMissed: Option<int>)

  /** A game row: its id, date and whether `game_status = 'completed'`. */
  datatype Game = Game(gameId: int, date: int, completed: bool)

  /** A row of `player_game_stats`: who appeared in which game. */
  datatype Appearance = Appearance(playerId: int, gameId: int)

  type Table = map<int, Injury>

  /** `injury_status IN ('Out', 'Day-To-Day', 'Questionable')`. */
  predicate ActiveStatus(status: InjuryStatus) {
    status.Out? || status.DayToDay? || status.Questionable?
  }

  /** The report is the player's latest (`report_date = MAX(report_date)` over the player's rows). */
  predicate IsLatest(t: Table, id: int)
    requires id in t
  {
    forall k :: k in t && t[k].playerId == t[id].playerId ==> t[k].reportDate <= t[id].reportDate
  }

  /** The first query (lines 20-30): active statuses on the player's latest report. */
  function Candidates(t: Table): (c: set<int>)
    ensures forall id :: id in c <==> id in t && ActiveStatus(t[id].status) && IsLatest(t, id)
  {
    set id | id in t && ActiveStatus(t[id].status) && IsLatest(t, id)
  }

  /** The ids of the games completed on `target`. */
  function CompletedOn(games: seq<Game>, target: int): (ids: set<int>)
    ensures forall id :: id in ids <==> exists g :: g in games && g.gameId == id && g.date == target && g.completed
  {
    set g | g in games && g.date == target && g.completed :: g.gameId
  }

  /** Some box-score row of `player` belongs to one of the games `ids`. */
  function AppearsIn(stats: seq<Appearance>, player: int, ids: set<int>): (r: bool)
    ensures r <==> exists s :: s in stats && s.playerId == player && s.gameId in ids
  {
    if |stats| == 0 then false
    else (stats[0].playerId == player && stats[0].gameId in ids) || AppearsIn(stats[1..], player, ids)
  }

  /** The second query (lines 46-55): the player has a box-score row of a completed game on `target`. */
  predicate Played(player: int, target: int, games: seq<Game>, stats: seq<Appearance>) {
    AppearsIn(stats, player, CompletedOn(games, target))
  }

  /** The distinct dates of completed league games in `[from, before)`. */
  function MissedDates(from: int, before: int, games: seq<Game>): (d: set<int>)
    ensures forall x :: x in d <==> from <= x < before && exists g :: g in games && g.date == x && g.completed
  {
    set g | g in games && from <= g.date < before && g.completed :: g.date
  }

  /** `COUNT(DISTINCT g.game_date)` of lines 58-66; the report date itself counts. */
  function GamesMissed(from: int, before: int, games: seq<Game>): nat {
    |MissedDates(from, before, games)|
  }

  predicate Recovers(t: Table, id: int, target: int, games: seq<Game>, stats: seq<Appearance>) {
    id in Candidates(t) && Played(t[id].playerId, target, games, stats)
  }

  /** The UPDATE of lines 68-74: exactly three fields are rewritten. */
  function Healed(r: Injury, target: int, games: seq<Game>): (h: Injury)
    ensures h.playerId == r.playerId && h.reportDate == r.reportDate
    ensures h.status == Healthy && h.returnDate == Some(target)
    ensures h.gamesMissed == Some(GamesMissed(r.reportDate, target, games))
  {
    r.(status := Healthy, returnDate := Some(target), gamesMissed := Some(GamesMissed(r.reportDate, target, games)))
  }

  /** The table after the check: recovering rows healed, every other row as it was. */
  function Marked(t: Table, target: int, games: seq<Game>, stats: seq<Appearance>): (u: Table)
    ensures u.Keys == t.Keys
    ensures forall id :: id in t && Recovers(t, id, target, games, stats) ==> u[id] == Healed(t[id], target, games)
    ensures forall id :: id in t && !Recovers(t, id, target, games, stats) ==> u[id] == t[id]
  {
    map id | id in t :: if Recovers(t, id, target, games, stats) then Healed(t[id], target, games) else t[id]
  }

  /** The candidates in `c` whose player appeared in a completed game on `target`. */
  function PlayedAmong(t: Table, c: set<int>, target: int, games: seq<Game>, stats: seq<Appearance>): (r: set<int>)
    requires c <= t.Keys
    ensures r <= c
    ensures forall id :: id in r <==> id in c && Played(t[id].playerId, target, games, stats)
  {
    set id | id in c && Played(t[id].playerId, target, games, stats)
  }

  /** The rows the check heals: `recovered` counts them. */
  function RecoveredIds(t: Table, target: int, games: seq<Game>, stats: seq<Appearance>): (r: set<int>)
    ensures r <= Candidates(t)
    ensures forall id :: id in r <==> Recovers(t, id, target, games, stats)
  {
    PlayedAmong(t, Candidates(t), target, games, stats)
  }

  /** `t` with exactly the rows of `healed` healed. */
  function HealRows(t: Table, healed: set<int>, target: int, games: seq<Game>): (u: Table)
    ensures u.Keys == t.Keys
  {
    map id | id in t :: if id in healed then Healed(t[id], target, games) else t[id]
  }

  /**
   * `mark_recovered_players` for a given target date: the loop of lines
   * 45-79 over the candidates, in whatever order the query returns them.
   */
  method MarkRecoveredPlayers(t: Table, target: int, games: seq<Game>, stats: seq<Appearance>)
    returns (updated: Table, recovered: nat, stillInjured: nat)
    ensures updated == Marked(t, target, games, stats)
    ensures recovered == |RecoveredIds(t, target, games, stats)|
    ensures recovered + stillInjured == |Candidates(t)|
  {
    var candidates := Candidates(t);
    ghost var rec := RecoveredIds(t, target, games, stats);
    if |candidates| == 0 {
      MarkedIsIdentity(t, target, games, stats);
      return t, 0, 0;
    }
    updated, recovered, stillInjured := HealCandidates(t, candidates, target, games, stats);
    MarkedIsAfterAll(t, target, games, stats, rec, updated);
  }

  /** The loop of lines 45-79 over a set of candidate rows, with its two counters. */
  method HealCandidates(t: Table, candidates: set<int>, target: int, games: seq<Game>, stats: seq<Appearance>)
    returns (updated: Table, recovered: nat, stillInjured: nat)
    requires candidates <= t.Keys
    ensures updated == HealRows(t, PlayedAmong(t, candidates, target, games, stats), target, games)
    ensures recovered == |PlayedAmong(t, candidates, target, games, stats)|
    ensures recovered + stillInjured == |candidates|
  {
    ghost var rec := PlayedAmong(t, candidates, target, games, stats);
    updated, recovered, stillInjured := t, 0, 0;
    var remaining := candidates;
    ProgressStart(t, candidates, rec, target, games);
    while remaining != {}
      invariant remaining <= candidates
      invariant Progress(t, candidates, rec, remaining, updated, recovered, stillInjured, target, games)
      decreases |remaining|
    {
      Inhabited(remaining);
      var id :| id in remaining;
      var played := Played(t[id].playerId, target, games, stats);
      if played {
        HealedStep(t, candidates, rec, remaining, updated, recovered, stillInjured, target, games, id);
        updated := updated[id := Healed(t[id], target, games)];
        recovered := recovered + 1;
      } else {
        SkippedStep(t, candidates, rec, remaining, updated, recovered, stillInjured, target, games, id);
        stillInjured := stillInjured + 1;
      }
      remaining := remaining - {id};
    }
    ProgressEnd(t, candidates, rec, updated, recovered, stillInjured, target, games);
  }

  /** A non-empty set has a member, so the loop can pick the next candidate. */
  lemma Inhabited(s: set<int>)
    requires s != {}
    ensures exists x :: x in s
  {
    if forall x :: x !in s {
      assert false;
    }
  }

  lemma ProgressStart(t: Table, candidates: set<int>, rec: set<int>, target: int, games: seq<Game>)
    requires rec <= candidates
    ensures Progress(t, candidates, rec, candidates, t, 0, 0, target, games)
  {
    assert rec - candidates == {} && candidates - candidates == {};
    assert HealRows(t, {}, target, games) == t;
  }

  lemma ProgressEnd(t: Table, candidates: set<int>, rec: set<int>,
                    updated: Table, recovered: nat, stillInjured: nat, target: int, games: seq<Game>)
    requires Progress(t, candidates, rec, {}, updated, recovered, stillInjured, target, games)
    ensures updated == HealRows(t, rec, target, games)
    ensures recovered == |rec| && recovered + stillInjured == |candidates|
  {
    assert rec - {} == rec && candidates - {} == candidates;
  }

  /** The loop invariant: the candidates handled so far are those outside `remaining`. */
  predicate Progress(t: Table, candidates: set<int>, rec: set<int>, remaining: set<int>,
                     updated: Table, recovered: nat, stillInjured: nat, target: int, games: seq<Game>) {
    && updated == HealRows(t, rec - remaining, target, games)
    && recovered == |rec - remaining|
    && recovered + stillInjured == |candidates - remaining|
  }

  lemma HealedStep(t: Table, candidates: set<int>, rec: set<int>, remaining: set<int>,
                   updated: Table, recovered: nat, stillInjured: nat, target: int, games: seq<Game>, id: int)
    requires rec <= candidates <= t.Keys && remaining <= candidates && id in remaining && id in rec
    requires Progress(t, candidates, rec, remaining, updated, recovered, stillInjured, target, games)
    ensures Progress(t, candidates, rec, remaining - {id},
      updated[id := Healed(t[id], target, games)], recovered + 1, stillInjured, target, games)
  {
    TakeOne(candidates, rec, remaining, id);
    HealOneMore(t, rec - remaining, target, games, id);
  }

  lemma SkippedStep(t: Table, candidates: set<int>, rec: set<int>, remaining: set<int>,
                    updated: Table, recovered: nat, stillInjured: nat, target: int, games: seq<Game>, id: int)
    requires rec <= candidates && remaining <= candidates && id in remaining && id !in rec
    requires Progress(t, candidates, rec, remaining, updated, recovered, stillInjured, target, games)
    ensures Progress(t, candidates, rec, remaining - {id}, updated, recovered, stillInjured + 1, target, games)
  {
    TakeOne(candidates, rec, remaining, id);
  }

  lemma HealOneMore(t: Table, healed: set<int>, target: int, games: seq<Game>, id: int)
    requires id in t
    ensures HealRows(t, healed + {id}, target, games) == HealRows(t, healed, target, games)[id := Healed(t[id], target, games)]
  {
  }

  /** Taking one more candidate out of the remaining ones. */
  lemma TakeOne(candidates: set<int>, rec: set<int>, remaining: set<int>, id: int)
    requires rec <= candidates && remaining <= candidates && id in remaining
    ensures |candidates - (remaining - {id})| == |candidates - remaining| + 1
    ensures id in rec ==> rec - (remaining - {id}) == (rec - remaining) + {id}
    ensures id in rec ==> |rec - (remaining - {id})| == |rec - remaining| + 1
    ensures id !in rec ==> rec - (remaining - {id}) == rec - remaining
  {
    assert candidates - (remaining - {id}) == (candidates - remaining) + {id};
  }

  lemma MarkedIsIdentity(t: Table, target: int, games: seq<Game>, stats: seq<Appearance>)
    requires RecoveredIds(t, target, games, stats) == {}
    ensures Marked(t, target, games, stats) == t
  {
    var u := Marked(t, target, games, stats);
    forall id | id in t ensures u[id] == t[id] {
      assert id !in RecoveredIds(t, target, games, stats);
    }
  }

  lemma MarkedIsAfterAll(t: Table, target: int, games: seq<Game>, stats: seq<Appearance>, rec: set<int>, updated: Table)
    requires rec == RecoveredIds(t, target, games, stats)
    requires updated == HealRows(t, rec, target, games)
    ensures updated == Marked(t, target, games, stats)
  {
  }

  // ---- properties ------------------------------------------------------------

  /** Nothing but status, return date and games missed ever changes, and no row appears or vanishes. */
  lemma OnlyRecoveryFieldsChange(t: Table, target: int, games: seq<Game>, stats: seq<Appearance>, id: int)
    requires id in t
    ensures id in Marked(t, target, games, stats)
    ensures Marked(t, target, games, stats)[id].playerId == t[id].playerId
    ensures Marked(t, target, games, stats)[id].reportDate == t[id].reportDate
    ensures Marked(t, target, games, stats)[id] != t[id] ==>
      Marked(t, target, games, stats)[id].status == Healthy && id in Candidates(t)
  {
  }

  /** Healing a row keeps every player's latest report date, so the latest-report test is unchanged. */
  lemma LatestPreserved(t: Table, target: int, games: seq<Game>, stats: seq<Appearance>, id: int)
    requires id in t
    ensures IsLatest(Marked(t, target, games, stats), id) <==> IsLatest(t, id)
  {
    var u := Marked(t, target, games, stats);
    assert forall k :: k in t ==> u[k].playerId == t[k].playerId && u[k].reportDate == t[k].reportDate;
  }

  /** A second run for the same date recovers nobody and changes nothing. */
  lemma RerunChangesNothing(t: Table, target: int, games: seq<Game>, stats: seq<Appearance>)
    ensures RecoveredIds(Marked(t, target, games, stats), target, games, stats) == {}
    ensures Marked(Marked(t, target, games, stats), target, games, stats) == Marked(t, target, games, stats)
  {
    var u := Marked(t, target, games, stats);
    forall id | id in u ensures !Recovers(u, id, target, games, stats) {
      LatestPreserved(t, target, games, stats, id);
      if Recovers(t, id, target, games, stats) {
        assert u[id].status == Healthy;
      } else {
        assert u[id] == t[id];
      }
    }
    assert Marked(u, target, games, stats) == u;
  }

  /** A completed game on the report date itself counts towards the games missed. */
  lemma ReportDateCounts(from: int, before: int, games: seq<Game>, g: Game)
    requires g in games && g.completed && g.date == from && from < before
    ensures GamesMissed(from, before, games) >= 1
  {
    assert from in MissedDates(from, before, games);
  }
}
