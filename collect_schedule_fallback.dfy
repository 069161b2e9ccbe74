/**
 * The fallback scoreboard collector of
 * src/data_collection/collect_schedule_fallback.py. It reads the same game
 * header as the scoreboard collector, but skips rows whose team ids are
 * still null (games the API has not populated yet) instead of failing on
 * them.
 *
 * The request, its three attempts and its JSON are not part of this model:
 * the rows are an input.
 */
module CollectScheduleFallback {
  import opened Wrappers
  import CollectGames
  import CollectScheduleHtml
  import opened CollectTodaysSchedule

  /** A row the loop skips: its home or visitor team id is null. */
  predicate Skipped(r: ScoreboardRow) {
    r.homeTeam.Null? || r.visitorTeam.Null?
  }

  /** The rows the loop processes, in order. */
  function Kept(rows: seq<ScoreboardRow>): (kept: seq<ScoreboardRow>)
    ensures |kept| <= |rows|
  {
    if rows == [] then []
    else Kept(rows[..|rows| - 1]) + (if Skipped(rows[|rows| - 1]) then [] else [rows[|rows| - 1]])
  }

  /** Number of skipped rows. */
  function SkippedCount(rows: seq<ScoreboardRow>): (n: nat)
    ensures n <= |rows|
  {
    if rows == [] then 0
    else SkippedCount(rows[..|rows| - 1]) + (if Skipped(rows[|rows| - 1]) then 1 else 0)
  }

  /** Every row is either skipped or kept, and a kept row is a row of the input. */
  lemma {:induction false} KeptAndSkipped(rows: seq<ScoreboardRow>)
    ensures |Kept(rows)| + SkippedCount(rows) == |rows|
    ensures forall k :: 0 <= k < |Kept(rows)| ==> Kept(rows)[k] in rows && !Skipped(Kept(rows)[k])
  {
    if rows != [] {
      var front := rows[..|rows| - 1];
      KeptAndSkipped(front);
      assert forall r :: r in front ==> r in rows;
    }
  }

  /** One row is kept exactly when neither of its team ids is null. */
  lemma KeptSingle(r: ScoreboardRow)
    ensures Kept([r]) == if Skipped(r) then [] else [r]
  {
    assert [r][..0] == [];
  }

  /**
   * Filtering distributes over concatenation: with `KeptSingle`, the kept
   * rows are the input's unskipped rows in their original order.
   */
  lemma {:induction false} KeptConcat(a: seq<ScoreboardRow>, b: seq<ScoreboardRow>)
    ensures Kept(a + b) == Kept(a) + Kept(b)
    decreases |b|
  {
    if b == [] {
      assert a + b == a;
    } else {
      var bf := b[..|b| - 1];
      var last := b[|b| - 1];
      assert (a + b)[..|a + b| - 1] == a + bf;
      assert (a + b)[|a + b| - 1] == last;
      KeptConcat(a, bf);
    }
  }

  /** With no null team id the fallback keeps every row, so it behaves as the scoreboard collector. */
  lemma {:induction false} NothingSkipped(rows: seq<ScoreboardRow>)
    requires forall k :: 0 <= k < |rows| ==> !Skipped(rows[k])
    ensures Kept(rows) == rows
  {
    if rows != [] {
      var front := rows[..|rows| - 1];
      assert forall k :: 0 <= k < |front| ==> front[k] == rows[k];
      NothingSkipped(front);
    }
  }

  lemma KeptStep(rows: seq<ScoreboardRow>, i: nat)
    requires i < |rows|
    ensures Kept(rows[..i + 1]) == Kept(rows[..i]) + (if Skipped(rows[i]) then [] else [rows[i]])
    ensures Skipped(rows[i]) ==> Kept(rows[..i + 1]) == Kept(rows[..i])
  {
    assert rows[..i + 1][..i] == rows[..i];
    assert Kept(rows[..i]) + [] == Kept(rows[..i]);
  }

  lemma {:induction false} KeptPrefixConvertible(rows: seq<ScoreboardRow>, i: nat)
    requires i <= |rows| && Convertible(Kept(rows))
    ensures Convertible(Kept(rows[..i]))
    decreases |rows| - i
  {
    if i < |rows| {
      KeptPrefixConvertible(rows, i + 1);
      KeptStep(rows, i);
      var k := Kept(rows[..i]);
      assert forall j :: 0 <= j < |k| ==> Kept(rows[..i + 1])[j] == k[j];
    } else {
      assert rows[..i] == rows;
    }
  }

  /** A kept row of a convertible run is convertible. */
  lemma KeptRowConvertible(rows: seq<ScoreboardRow>, i: nat)
    requires i < |rows| && !Skipped(rows[i]) && Convertible(Kept(rows))
    ensures CellToInt(rows[i].homeTeam).Some? && CellToInt(rows[i].visitorTeam).Some?
  {
    KeptPrefixConvertible(rows, i + 1);
    KeptStep(rows, i);
    var kept := Kept(rows[..i + 1]);
    assert kept[|kept| - 1] == rows[i];
  }

  /**
   * `collect_schedule_fallback`'s loop. Skipped rows are passed over; a
   * kept row whose team id does not convert raises and the run ends without
   * committing (`None`). Otherwise every kept row is upserted and counted
   * under its status, and the counts add up to the number of kept rows.
   */
  method CollectFallback(rows: seq<ScoreboardRow>, cols: Columns, date: string, season: string,
                         table: map<string, CollectGames.GameRecord>) returns (o: Option<Outcome>)
    ensures o.Some? <==> Convertible(Kept(rows))
    ensures o.Some? ==> o.value == RunOf(Kept(rows), cols, date, season, table)
    ensures o.Some? ==> o.value.scheduled + o.value.completed + o.value.inProgress == |Kept(rows)|
  {
    var stored := table;
    var scheduled, completed, inProgress := 0, 0, 0;
    ghost var kept: seq<ScoreboardRow> := [];
    for i := 0 to |rows|
      invariant kept == Kept(rows[..i])
      invariant Convertible(kept)
      invariant Outcome(stored, scheduled, completed, inProgress) == RunOf(kept, cols, date, season, table)
    {
      KeptStep(rows, i);
      if Skipped(rows[i]) {
        continue;
      }
      var record := RowRecord(rows[i], cols, date, season);
      if record.None? {
        if Convertible(Kept(rows)) {
          KeptRowConvertible(rows, i);
        }
        return None;
      }
      AppendRow(kept, rows[i], cols, date, season, table);
      kept := kept + [rows[i]];
      match ScoreboardStatus(rows[i].statusText) {
        case Scheduled => scheduled := scheduled + 1;
        case Completed => completed := completed + 1;
        case InProgress => inProgress := inProgress + 1;
      }
      stored := CollectScheduleHtml.ScheduleUpsert(stored, record.value);
    }
    assert rows[..|rows|] == rows;
    CountsPartition(Kept(rows));
    o := Some(Outcome(stored, scheduled, completed, inProgress));
  }
}
