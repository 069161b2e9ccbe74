/**
 * The game collector of src/data_collection/collect_games.py: the league's
 * per-team game rows are grouped by game id, each game with exactly two
 * valid team rows is turned into one game record, and the record is
 * upserted into the games table.
 *
 * The league endpoint's rows and the `teams` table's ids are inputs; the
 * games table is a map from game id to record, and an insert that raises
 * is an input set of failing ids.
 */
module CollectGames {
  import opened Wrappers
  import opened Text

  /** A row of the game finder: one team's line of one game. */
  datatype FinderRow = FinderRow(gameId: string, gameDate: string, teamId: int, matchup: string, points: Option<int>)

  datatype TeamEntry = TeamEntry(teamId: int, matchup: string, score: Option<int>)

  /** `games_dict[game_id]`: the date of its first row and the team entries in row order. */
  datatype Group = Group(gameDate: string, teams: seq<TeamEntry>)

  /** `games_dict`, with its keys in insertion order. */
  datatype Grouping = Grouping(groups: map<string, Group>, order: seq<string>)

  datatype GameRecord = GameRecord(gameId: string, gameDate: string, season: string, homeTeam: int, awayTeam: int,
                                   homeScore: Option<int>, awayScore: Option<int>, status: string, gameType: string)

  function EntryOf(r: FinderRow): TeamEntry {
    TeamEntry(r.teamId, r.matchup, r.points)
  }

  /** The grouping loop over the finder rows, rows of unknown teams ignored. */
  function GroupingOf(rows: seq<FinderRow>, valid: set<int>): (g: Grouping)
    ensures forall id :: id in g.order <==> id in g.groups
  {
    if rows == [] then Grouping(map[], [])
    else
      var g := GroupingOf(rows[..|rows| - 1], valid);
      var r := rows[|rows| - 1];
      if r.teamId !in valid then g
      else if r.gameId in g.groups then
        Grouping(g.groups[r.gameId := Group(g.groups[r.gameId].gameDate, g.groups[r.gameId].teams + [EntryOf(r)])], g.order)
      else
        Grouping(g.groups[r.gameId := Group(r.gameDate, [EntryOf(r)])], g.order + [r.gameId])
  }

  predicate NoRepeats(s: seq<string>) {
    forall i, j :: 0 <= i < j < |s| ==> s[i] != s[j]
  }

  /** Number of rows of a valid team under game id `id`. */
  function ValidRowsOf(rows: seq<FinderRow>, valid: set<int>, id: string): (n: nat)
    ensures n <= |rows|
  {
    if rows == [] then 0
    else
      var r := rows[|rows| - 1];
      ValidRowsOf(rows[..|rows| - 1], valid, id) + (if r.gameId == id && r.teamId in valid then 1 else 0)
  }

  /**
   * The grouping lists each game once, in first-appearance order; every
   * entry is a valid team's; and a game's entries are its valid rows, so
   * their number is its count of valid rows.
   */
  lemma {:induction false} GroupingFaithful(rows: seq<FinderRow>, valid: set<int>)
    ensures var g := GroupingOf(rows, valid);
      NoRepeats(g.order)
      && (forall id :: id in g.groups <==> id in g.order)
      && (forall id :: id in g.groups ==> forall e :: e in g.groups[id].teams ==> e.teamId in valid)
      && (forall id :: id in g.groups ==> |g.groups[id].teams| == ValidRowsOf(rows, valid, id))
      && (forall id :: id !in g.groups ==> ValidRowsOf(rows, valid, id) == 0)
  {
    if rows != [] {
      GroupingFaithful(rows[..|rows| - 1], valid);
    }
  }

  /** The grouping loop. */
  method GroupRows(rows: seq<FinderRow>, valid: set<int>) returns (groups: map<string, Group>, order: seq<string>)
    ensures Grouping(groups, order) == GroupingOf(rows, valid)
  {
    groups, order := map[], [];
    for i := 0 to |rows|
      invariant Grouping(groups, order) == GroupingOf(rows[..i], valid)
    {
      assert rows[..i + 1][..i] == rows[..i];
      var r := rows[i];
      if r.teamId in valid {
        if r.gameId !in groups {
          groups := groups[r.gameId := Group(r.gameDate, [])];
          order := order + [r.gameId];
        }
        groups := groups[r.gameId := Group(groups[r.gameId].gameDate, groups[r.gameId].teams + [EntryOf(r)])];
        assert [] + [EntryOf(r)] == [EntryOf(r)];
      }
    }
    assert rows[..|rows|] == rows;
  }

  /** `game_type` from the id's prefix. */
  function GameType(gameId: string): (t: string)
    ensures t == "playoffs" <==> "004" <= gameId
    ensures t == "play_in" <==> "005" <= gameId
    ensures t == "regular_season" <==> !("004" <= gameId) && !("005" <= gameId)
  {
    if "004" <= gameId then assert gameId[2] == '4'; "playoffs"
    else if "005" <= gameId then "play_in"
    else "regular_season"
  }

  /** `game_status`: completed exactly when the home score is known. */
  function GameStatus(homeScore: Option<int>): (s: string)
    ensures s == "completed" <==> homeScore.Some?
    ensures s == "scheduled" <==> homeScore.None?
  {
    if homeScore.Some? then "completed" else "scheduled"
  }

  /** The game a group becomes, or None when it is skipped: not exactly two teams, or a team not valid. */
  function RecordOf(id: string, g: Group, season: string, valid: set<int>): (r: Option<GameRecord>)
    ensures r.Some? <==> |g.teams| == 2 && g.teams[0].teamId in valid && g.teams[1].teamId in valid
    ensures r.Some? ==> r.value.gameId == id && r.value.gameDate == g.gameDate && r.value.season == season
    ensures r.Some? && Contains(g.teams[0].matchup, "vs.") ==>
      r.value.homeTeam == g.teams[0].teamId && r.value.awayTeam == g.teams[1].teamId && r.value.homeScore == g.teams[0].score
    ensures r.Some? && !Contains(g.teams[0].matchup, "vs.") ==>
      r.value.homeTeam == g.teams[1].teamId && r.value.awayTeam == g.teams[0].teamId && r.value.homeScore == g.teams[1].score
    ensures r.Some? ==> (r.value.status == "completed" <==> r.value.homeScore.Some?)
  {
    if |g.teams| != 2 then None
    else
      var t1, t2 := g.teams[0], g.teams[1];
      if t1.teamId !in valid || t2.teamId !in valid then None
      else if Contains(t1.matchup, "vs.") then
        Some(GameRecord(id, g.gameDate, season, t1.teamId, t2.teamId, t1.score, t2.score, GameStatus(t1.score), GameType(id)))
      else
        Some(GameRecord(id, g.gameDate, season, t2.teamId, t1.teamId, t2.score, t1.score, GameStatus(t2.score), GameType(id)))
  }

  /**
   * `INSERT … ON CONFLICT (game_id) DO UPDATE`: a new game is inserted
   * whole; an existing one keeps its date, season and teams and takes the
   * new scores, status and type.
   */
  function Upsert(table: map<string, GameRecord>, r: GameRecord): (t: map<string, GameRecord>)
    ensures t.Keys == table.Keys + {r.gameId}
    ensures forall id :: id in table && id != r.gameId ==> t[id] == table[id]
  {
    if r.gameId in table then
      var e := table[r.gameId];
      table[r.gameId := GameRecord(e.gameId, e.gameDate, e.season, e.homeTeam, e.awayTeam,
                                   r.homeScore, r.awayScore, r.status, r.gameType)]
    else table[r.gameId := r]
  }

  /** Upserting the same game twice is upserting it once. */
  lemma UpsertIdempotent(table: map<string, GameRecord>, r: GameRecord)
    ensures Upsert(Upsert(table, r), r) == Upsert(table, r)
  {
  }

  /** What the insertion loop leaves: the table and the two counters, plus the games whose insert raised. */
  datatype Outcome = Outcome(table: map<string, GameRecord>, count: nat, skipped: nat, failed: nat)

  /** The insertion loop over the first games of `order`. */
  function Insert(order: seq<string>, groups: map<string, Group>, season: string, valid: set<int>,
                  failing: set<string>, table: map<string, GameRecord>): (o: Outcome)
    requires forall id :: id in order ==> id in groups
    ensures o.count + o.skipped + o.failed == |order|
  {
    if order == [] then Outcome(table, 0, 0, 0)
    else
      var id := order[|order| - 1];
      var o := Insert(order[..|order| - 1], groups, season, valid, failing, table);
      match RecordOf(id, groups[id], season, valid)
      case None => Outcome(o.table, o.count, o.skipped + 1, o.failed)
      case Some(rec) =>
        if id in failing then Outcome(o.table, o.count, o.skipped, o.failed + 1)
        else Outcome(Upsert(o.table, rec), o.count + 1, o.skipped, o.failed)
  }

  /** `collect_games`: group the rows, then insert every game with two valid teams. */
  method CollectGames(rows: seq<FinderRow>, valid: set<int>, season: string, failing: set<string>,
                      table: map<string, GameRecord>) returns (o: Outcome)
    ensures var g := GroupingOf(rows, valid); o == Insert(g.order, g.groups, season, valid, failing, table)
  {
    var groups, order := GroupRows(rows, valid);
    GroupingFaithful(rows, valid);
    o := Outcome(table, 0, 0, 0);
    for i := 0 to |order|
      invariant o == Insert(order[..i], groups, season, valid, failing, table)
    {
      assert order[..i + 1][..i] == order[..i];
      var id := order[i];
      var rec := RecordOf(id, groups[id], season, valid);
      if rec.None? {
        o := o.(skipped := o.skipped + 1);
      } else if id in failing {
        o := o.(failed := o.failed + 1);
      } else {
        o := o.(table := Upsert(o.table, rec.value), count := o.count + 1);
      }
    }
    assert order[..|order|] == order;
  }

  lemma {:induction false} InsertedAreInTable(order: seq<string>, groups: map<string, Group>, season: string,
                                              valid: set<int>, failing: set<string>, table: map<string, GameRecord>)
    requires forall id :: id in order ==> id in groups
    ensures forall id :: id in order && id !in failing && RecordOf(id, groups[id], season, valid).Some? ==>
      id in Insert(order, groups, season, valid, failing, table).table
    ensures forall id :: id in Insert(order, groups, season, valid, failing, table).table ==> id in table || id in order
  {
    if order != [] {
      InsertedAreInTable(order[..|order| - 1], groups, season, valid, failing, table);
      assert order == order[..|order| - 1] + [order[|order| - 1]];
    }
  }

  /**
   * After collection, a game is in the table exactly when it was there
   * before or it has exactly two valid rows and its insert did not raise.
   */
  lemma CollectedGames(rows: seq<FinderRow>, valid: set<int>, season: string, failing: set<string>,
                       table: map<string, GameRecord>, id: string)
    requires id !in table
    ensures var g := GroupingOf(rows, valid);
      id in Insert(g.order, g.groups, season, valid, failing, table).table
      ==> ValidRowsOf(rows, valid, id) == 2
    ensures var g := GroupingOf(rows, valid);
      ValidRowsOf(rows, valid, id) == 2 && id !in failing
      ==> id in Insert(g.order, g.groups, season, valid, failing, table).table
  {
    var g := GroupingOf(rows, valid);
    GroupingFaithful(rows, valid);
    InsertedAreInTable(g.order, g.groups, season, valid, failing, table);
    if id in Insert(g.order, g.groups, season, valid, failing, table).table {
      assert id in g.order;
      InsertedNeedRecord(g.order, g.groups, season, valid, failing, table, id);
    }
    if ValidRowsOf(rows, valid, id) == 2 && id !in failing {
      assert id in g.groups;
      var teams := g.groups[id].teams;
      assert teams[0] in teams && teams[1] in teams;
    }
  }

  lemma {:induction false} InsertedNeedRecord(order: seq<string>, groups: map<string, Group>, season: string,
                                              valid: set<int>, failing: set<string>, table: map<string, GameRecord>, id: string)
    requires forall k :: k in order ==> k in groups
    requires id !in table && id in groups
    requires id in Insert(order, groups, season, valid, failing, table).table
    ensures |groups[id].teams| == 2
  {
    if order != [] {
      var last := order[|order| - 1];
      var front := order[..|order| - 1];
      assert forall k :: k in front ==> k in order;
      var o := Insert(front, groups, season, valid, failing, table);
      if id in o.table {
        InsertedNeedRecord(front, groups, season, valid, failing, table, id);
      }
    }
  }
}
