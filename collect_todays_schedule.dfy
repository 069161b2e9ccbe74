/**
 * The scoreboard collector of src/data_collection/collect_todays_schedule.py:
 * each row of the NBA scoreboard's game header becomes a stored game, its
 * status read from the status text and its scores from the points columns.
 *
 * The request and its JSON are not part of this model: the rows, and
 * whether the points columns are present, are inputs.
 */
module CollectTodaysSchedule {
  import opened Wrappers
  import opened Text
  import CollectGames
  import CollectScheduleHtml

  type Status = CollectScheduleHtml.Status

  /** A value of the scoreboard's row set: a JSON number, a string or null. */
  datatype Cell = Num(n: int) | Str(s: string) | Null

  /** `int(value)`: `None` is the `ValueError` of an unparsable string or the `TypeError` of null. */
  function CellToInt(c: Cell): (r: Option<int>)
    ensures c.Null? ==> r.None?
    ensures c.Num? ==> r == Some(c.n)
  {
    match c
    case Num(n) => Some(n)
    case Str(s) => ParseInt(s)
    case Null => None
  }

  /** The columns of one game header row that the collectors read. */
  datatype ScoreboardRow = ScoreboardRow(gameId: string, homeTeam: Cell, visitorTeam: Cell, statusText: string,
                                         ptsHome: Cell, ptsAway: Cell)

  /** Whether the `PTS_HOME` and `PTS_AWAY` columns are in the header. */
  datatype Columns = Columns(ptsHome: bool, ptsAway: bool)

  /** The scoreboard's status: 'pm' or 'am' first, then 'final', in the lower-cased status text. */
  function ScoreboardStatus(text: string): (s: Status)
    ensures s == CollectScheduleHtml.Scheduled <==> Contains(Lower(text), "pm") || Contains(Lower(text), "am")
    ensures s == CollectScheduleHtml.Completed <==>
      !Contains(Lower(text), "pm") && !Contains(Lower(text), "am") && Contains(Lower(text), "final")
  {
    var t := Lower(text);
    if Contains(t, "pm") || Contains(t, "am") then CollectScheduleHtml.Scheduled
    else if Contains(t, "final") then CollectScheduleHtml.Completed
    else CollectScheduleHtml.InProgress
  }

  /**
   * The scores of a row: only a completed game has them, each read from its
   * column when the column exists and left `None` when it does not convert.
   */
  function RowScores(r: ScoreboardRow, cols: Columns): (sc: CollectScheduleHtml.Scores)
    ensures ScoreboardStatus(r.statusText) != CollectScheduleHtml.Completed ==> sc.home.None? && sc.away.None?
    ensures sc.home.Some? <==>
      ScoreboardStatus(r.statusText) == CollectScheduleHtml.Completed && cols.ptsHome && CellToInt(r.ptsHome).Some?
    ensures sc.away.Some? <==>
      ScoreboardStatus(r.statusText) == CollectScheduleHtml.Completed && cols.ptsAway && CellToInt(r.ptsAway).Some?
  {
    if ScoreboardStatus(r.statusText) != CollectScheduleHtml.Completed then CollectScheduleHtml.Scores(None, None)
    else CollectScheduleHtml.Scores(if cols.ptsHome then CellToInt(r.ptsHome) else None,
                                    if cols.ptsAway then CellToInt(r.ptsAway) else None)
  }

  /** The stored game of a row; `None` when a team id does not convert, which aborts the run. */
  function RowRecord(r: ScoreboardRow, cols: Columns, date: string, season: string): (g: Option<CollectGames.GameRecord>)
    ensures g.Some? <==> CellToInt(r.homeTeam).Some? && CellToInt(r.visitorTeam).Some?
    ensures g.Some? ==> g.value.gameId == r.gameId && g.value.gameType == "regular_season" && g.value.season == season
  {
    match (CellToInt(r.homeTeam), CellToInt(r.visitorTeam))
    case (Some(home), Some(away)) =>
      var sc := RowScores(r, cols);
      Some(CollectGames.GameRecord(r.gameId, date, season, home, away, sc.home, sc.away,
                                   CollectScheduleHtml.StatusName(ScoreboardStatus(r.statusText)), "regular_season"))
    case _ => None
  }

  predicate Convertible(rows: seq<ScoreboardRow>) {
    forall k :: 0 <= k < |rows| ==> CellToInt(rows[k].homeTeam).Some? && CellToInt(rows[k].visitorTeam).Some?
  }

  /** The table after upserting every row, in order. */
  function StoreRows(rows: seq<ScoreboardRow>, cols: Columns, date: string, season: string,
                     table: map<string, CollectGames.GameRecord>): map<string, CollectGames.GameRecord>
    requires Convertible(rows)
  {
    if rows == [] then table
    else
      var front := rows[..|rows| - 1];
      assert Convertible(front) by {
        assert forall k :: 0 <= k < |front| ==> front[k] == rows[k];
      }
      CollectScheduleHtml.ScheduleUpsert(StoreRows(front, cols, date, season, table),
                                         RowRecord(rows[|rows| - 1], cols, date, season).value)
  }

  /** Number of rows whose status is `s`. */
  function CountStatus(rows: seq<ScoreboardRow>, s: Status): (n: nat)
    ensures n <= |rows|
  {
    if rows == [] then 0
    else CountStatus(rows[..|rows| - 1], s) + (if ScoreboardStatus(rows[|rows| - 1].statusText) == s then 1 else 0)
  }

  lemma {:induction false} CountsPartition(rows: seq<ScoreboardRow>)
    ensures CountStatus(rows, CollectScheduleHtml.Scheduled) + CountStatus(rows, CollectScheduleHtml.Completed)
          + CountStatus(rows, CollectScheduleHtml.InProgress) == |rows|
  {
    if rows != [] {
      CountsPartition(rows[..|rows| - 1]);
    }
  }

  lemma ConvertibleStep(rows: seq<ScoreboardRow>, i: nat)
    requires i < |rows| && Convertible(rows[..i])
    ensures Convertible(rows[..i + 1]) <==> CellToInt(rows[i].homeTeam).Some? && CellToInt(rows[i].visitorTeam).Some?
    ensures !(CellToInt(rows[i].homeTeam).Some? && CellToInt(rows[i].visitorTeam).Some?) ==> !Convertible(rows)
  {
    assert forall k :: 0 <= k < i ==> rows[..i + 1][k] == rows[..i][k];
  }

  /** The table and the three counters at the end of a run. */
  datatype Outcome = Outcome(table: map<string, CollectGames.GameRecord>, scheduled: nat, completed: nat, inProgress: nat)

  /** The outcome of processing convertible `rows` in order. */
  function RunOf(rows: seq<ScoreboardRow>, cols: Columns, date: string, season: string,
                 table: map<string, CollectGames.GameRecord>): Outcome
    requires Convertible(rows)
  {
    Outcome(StoreRows(rows, cols, date, season, table), CountStatus(rows, CollectScheduleHtml.Scheduled),
            CountStatus(rows, CollectScheduleHtml.Completed), CountStatus(rows, CollectScheduleHtml.InProgress))
  }

  /** One more convertible row: the table gains its record and one counter, the one of its status, goes up. */
  lemma AppendRow(rows: seq<ScoreboardRow>, r: ScoreboardRow, cols: Columns, date: string, season: string,
                  table: map<string, CollectGames.GameRecord>)
    requires Convertible(rows)
    requires CellToInt(r.homeTeam).Some? && CellToInt(r.visitorTeam).Some?
    ensures Convertible(rows + [r])
    ensures var before := RunOf(rows, cols, date, season, table);
      var status := ScoreboardStatus(r.statusText);
      RunOf(rows + [r], cols, date, season, table)
      == Outcome(CollectScheduleHtml.ScheduleUpsert(before.table, RowRecord(r, cols, date, season).value),
                 before.scheduled + (if status == CollectScheduleHtml.Scheduled then 1 else 0),
                 before.completed + (if status == CollectScheduleHtml.Completed then 1 else 0),
                 before.inProgress + (if status == CollectScheduleHtml.InProgress then 1 else 0))
  {
    var k := rows + [r];
    assert k[..|k| - 1] == rows && k[|k| - 1] == r;
    ConvertibleStep(k, |rows|);
  }

  /**
   * `collect_schedule`'s loop. A row whose team id does not convert raises,
   * and the run ends without committing: `None`, the table as it was.
   * Otherwise every row is upserted and counted under its status, and the
   * counts add up to the number of rows.
   */
  method CollectSchedule(rows: seq<ScoreboardRow>, cols: Columns, date: string, season: string,
                         table: map<string, CollectGames.GameRecord>) returns (o: Option<Outcome>)
    ensures o.Some? <==> Convertible(rows)
    ensures o.Some? ==> o.value == RunOf(rows, cols, date, season, table)
    ensures o.Some? ==> o.value.scheduled + o.value.completed + o.value.inProgress == |rows|
  {
    var stored := table;
    var scheduled, completed, inProgress := 0, 0, 0;
    for i := 0 to |rows|
      invariant Convertible(rows[..i])
      invariant Outcome(stored, scheduled, completed, inProgress) == RunOf(rows[..i], cols, date, season, table)
    {
      var record := RowRecord(rows[i], cols, date, season);
      ConvertibleStep(rows, i);
      if record.None? {
        return None;
      }
      AppendRow(rows[..i], rows[i], cols, date, season, table);
      assert rows[..i] + [rows[i]] == rows[..i + 1];
      match ScoreboardStatus(rows[i].statusText) {
        case Scheduled => scheduled := scheduled + 1;
        case Completed => completed := completed + 1;
        case InProgress => inProgress := inProgress + 1;
      }
      stored := CollectScheduleHtml.ScheduleUpsert(stored, record.value);
    }
    assert rows[..|rows|] == rows;
    CountsPartition(rows);
    o := Some(Outcome(stored, scheduled, completed, inProgress));
  }

  /** Every row of a run ends up in the table, and no stored game is lost. */
  lemma {:induction false} RowsStored(rows: seq<ScoreboardRow>, cols: Columns, date: string, season: string,
                                      table: map<string, CollectGames.GameRecord>)
    requires Convertible(rows)
    ensures table.Keys <= StoreRows(rows, cols, date, season, table).Keys
    ensures forall k :: 0 <= k < |rows| ==> rows[k].gameId in StoreRows(rows, cols, date, season, table)
  {
    if rows != [] {
      var front := rows[..|rows| - 1];
      var last := rows[|rows| - 1];
      assert Convertible(front) by {
        assert forall k :: 0 <= k < |front| ==> front[k] == rows[k];
      }
      RowsStored(front, cols, date, season, table);
      var before := StoreRows(front, cols, date, season, table);
      var r := RowRecord(last, cols, date, season).value;
      var t := CollectScheduleHtml.ScheduleUpsert(before, r);
      assert t == StoreRows(rows, cols, date, season, table);
      assert t.Keys == before.Keys + {last.gameId};
      forall k | 0 <= k < |rows|
        ensures rows[k].gameId in t
      {
        if k < |front| {
          assert rows[k] == front[k];
        }
      }
    }
  }

  /** Every game a run adds is a regular-season game of the run's season. */
  lemma {:induction false} StoredRowsAreRegularSeason(rows: seq<ScoreboardRow>, cols: Columns, date: string, season: string,
                                                      table: map<string, CollectGames.GameRecord>)
    requires Convertible(rows)
    ensures forall id :: id in StoreRows(rows, cols, date, season, table) && id !in table ==>
      StoreRows(rows, cols, date, season, table)[id].gameType == "regular_season"
      && StoreRows(rows, cols, date, season, table)[id].season == season
  {
    if rows != [] {
      var front := rows[..|rows| - 1];
      assert Convertible(front) by {
        assert forall k :: 0 <= k < |front| ==> front[k] == rows[k];
      }
      StoredRowsAreRegularSeason(front, cols, date, season, table);
      var before := StoreRows(front, cols, date, season, table);
      var r := RowRecord(rows[|rows| - 1], cols, date, season).value;
      var t := CollectScheduleHtml.ScheduleUpsert(before, r);
      assert t == StoreRows(rows, cols, date, season, table);
      forall id | id in t && id !in table
        ensures t[id].gameType == "regular_season" && t[id].season == season
      {
        if id != r.gameId {
          assert t[id] == before[id];
        } else if id in before {
          assert t[id].gameType == before[id].gameType && t[id].season == before[id].season;
        }
      }
    }
  }

  /**
   * The two orders of the status tests disagree: a status text holding both
   * "final" and "pm" is completed on the schedule page and scheduled on the
   * scoreboard.
   */
  lemma StatusOrdersDiffer()
    ensures CollectScheduleHtml.PageStatus("final pm") == CollectScheduleHtml.Completed
    ensures ScoreboardStatus("final pm") == CollectScheduleHtml.Scheduled
  {
    var t := "final pm";
    assert Lower(t) == t;
    assert CollectScheduleHtml.Head500(t) == t;
    ContainsAt(t, "final", 0);
    ContainsAt(t, "pm", 6);
  }
}
