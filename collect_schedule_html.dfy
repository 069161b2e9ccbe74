/**
 * The ESPN schedule scraper of src/data_collection/collect_schedule_html.py:
 * team abbreviations are normalised to the database's, each game gets an
 * NBA-style id, and the status and score are read from the page text.
 *
 * Fetching and parsing the pages is not part of this model: the page text,
 * the score pattern's matches and the games table's answers to the id
 * queries are inputs.
 */
module CollectScheduleHtml {
  import opened Wrappers
  import opened Text
  import CollectGames
  import opened EspnAbbreviations

  // ---- season label (lines 121-127) ----------------------------------------

  /** `str(n)[-2:]`. */
  function LastTwo(s: string): string {
    if |s| >= 2 then s[|s| - 2..] else s
  }

  /** The label of the season starting in autumn of `start`: "2024-25". */
  function SeasonOfStart(start: int): string {
    IntToString(start) + "-" + LastTwo(IntToString(start + 1))
  }

  /** The season of a date: from October on, the season starting that year, otherwise the one that started the year before. */
  function SeasonLabel(year: int, month: int): (s: string)
    ensures s == SeasonOfStart(if month >= 10 then year else year - 1)
  {
    if month >= 10 then IntToString(year) + "-" + LastTwo(IntToString(year + 1))
    else IntToString(year - 1) + "-" + LastTwo(IntToString(year))
  }

  lemma FourDigits(n: nat)
    requires 1000 <= n <= 9999
    ensures |NatToString(n)| == 4
  {
    assert |NatToString(n / 1000)| == 1;
    assert NatToString(n / 100) == NatToString(n / 1000) + [DigitChar((n / 100) % 10)];
    assert NatToString(n / 10) == NatToString(n / 100) + [DigitChar((n / 10) % 10)];
  }

  lemma LastTwoValue(s: string)
    requires |s| >= 2 && AllDigits(s)
    ensures AllDigits(LastTwo(s))
    ensures DigitsValue(LastTwo(s)) == DigitsValue(s) % 100
  {
    var t := LastTwo(s);
    assert t[0] == s[|s| - 2] && t[1] == s[|s| - 1];
    TwoDigitsValue(t);
    DropTwoValue(s);
    HundredRemainder(DigitsValue(s[..|s| - 2]), DigitsValue(t));
  }

  /** A two-digit string is worth ten times its first digit plus its second. */
  lemma TwoDigitsValue(t: string)
    requires |t| == 2 && AllDigits(t)
    ensures DigitsValue(t) == DigitValue(t[0]) * 10 + DigitValue(t[1]) < 100
  {
    var h := t[..1];
    assert h[..0] == [] && h[0] == t[0];
    assert DigitsValue(h) == DigitValue(t[0]);
  }

  /** A digit string is worth a hundred times all but its last two digits, plus those two. */
  lemma DropTwoValue(s: string)
    requires |s| >= 2 && AllDigits(s)
    ensures DigitsValue(s) == DigitsValue(s[..|s| - 2]) * 100 + (DigitValue(s[|s| - 2]) * 10 + DigitValue(s[|s| - 1]))
  {
    var u := s[..|s| - 1];
    var w := s[..|s| - 2];
    assert u[..|u| - 1] == w && u[|u| - 1] == s[|s| - 2];
    assert DigitsValue(u) == DigitsValue(w) * 10 + DigitValue(s[|s| - 2]);
  }

  /** The remainder of `a * 100 + x` by 100 is `x` when `x` is below 100. */
  lemma HundredRemainder(a: nat, x: nat)
    requires x < 100
    ensures (a * 100 + x) % 100 == x
  {
  }



  lemma LastTwoDigitsValue(n: nat)
    requires n >= 10
    ensures AllDigits(LastTwo(NatToString(n)))
    ensures DigitsValue(LastTwo(NatToString(n))) == n % 100
  {
    NatToStringValue(n);
    assert |NatToString(n / 10)| >= 1;
    LastTwoValue(NatToString(n));
  }

  /**
   * For a four-digit start year the label reads back: its first four
   * characters are the start year, then a dash, then the last two digits of
   * the year after.
   */
  lemma SeasonLabelReadsBack(year: int, month: int)
    requires 1001 <= year <= 9998
    ensures var start := if month >= 10 then year else year - 1;
      var s := SeasonLabel(year, month);
      |s| == 7 && s[4] == '-' && ParseInt(s[..4]) == Some(start)
      && AllDigits(s[5..]) && DigitsValue(s[5..]) == (start + 1) % 100
  {
    var start := if month >= 10 then year else year - 1;
    var s := SeasonLabel(year, month);
    FourDigits(start);
    LastTwoDigitsValue(start + 1);
    FourDigits(start + 1);
    assert s[..4] == NatToString(start);
    assert s[5..] == LastTwo(NatToString(start + 1));
    ParseIntOfNat(start);
  }

  // ---- status and score (lines 283-305) ------------------------------------

  /** The status of a game, stored as 'scheduled', 'completed' or 'in_progress'. */
  datatype Status = Scheduled | Completed | InProgress

  function StatusName(s: Status): string {
    match s
    case Scheduled => "scheduled"
    case Completed => "completed"
    case InProgress => "in_progress"
  }

  /** The first 500 characters, lower-cased. */
  function Head500(text: string): string {
    Lower(if |text| > 500 then text[..500] else text)
  }

  /** The page's status: 'final' first, then 'pm' or 'am', in the lower-cased first 500 characters. */
  function PageStatus(text: string): (s: Status)
    ensures s == Completed <==> Contains(Head500(text), "final")
    ensures s == Scheduled <==> !Contains(Head500(text), "final") && (Contains(Head500(text), "pm") || Contains(Head500(text), "am"))
  {
    var head := Head500(text);
    if Contains(head, "final") then Completed
    else if Contains(head, "pm") || Contains(head, "am") then Scheduled
    else InProgress
  }

  datatype Scores = Scores(home: Option<int>, away: Option<int>)

  /**
   * The scores of a completed page: the last "a - b" match of its first 1000
   * characters, home b and away a; the home score is set before the away
   * score is parsed, so a failure there leaves the home score. Other
   * statuses have no scores.
   */
  function PageScores(text: string, matches: seq<(string, string)>): (r: Scores)
    ensures PageStatus(text) != Completed ==> r == Scores(None, None)
    ensures |matches| == 0 ==> r == Scores(None, None)
    ensures r.away.Some? ==> r.home.Some?
  {
    if PageStatus(text) != Completed || |matches| == 0 then Scores(None, None)
    else
      var last := matches[|matches| - 1];
      var home := ParseInt(last.1);
      if home.None? then Scores(None, None)
      else Scores(home, ParseInt(last.0))
  }

  lemma DigitsParse(s: string)
    requires |s| > 0 && AllDigits(s)
    ensures ParseInt(s) == Some(DigitsValue(s) as int)
  {
    assert !IsSpace(s[0]) && !IsSpace(s[|s| - 1]);
    assert TrimRight(s) == s;
  }

  /** The pattern's matches are digit strings, so a completed page with a match always has both scores. */
  lemma DigitMatchesGiveScores(text: string, matches: seq<(string, string)>)
    requires PageStatus(text) == Completed && |matches| > 0
    requires var last := matches[|matches| - 1]; |last.0| > 0 && |last.1| > 0 && AllDigits(last.0) && AllDigits(last.1)
    ensures var last := matches[|matches| - 1];
      PageScores(text, matches) == Scores(Some(DigitsValue(last.1) as int), Some(DigitsValue(last.0) as int))
  {
    var last := matches[|matches| - 1];
    DigitsParse(last.0);
    DigitsParse(last.1);
  }

  // ---- storing the games (lines 332-376) -----------------------------------

  /** `ON CONFLICT (game_id) DO UPDATE` of the schedule collectors: only status and scores change on a stored game. */
  function ScheduleUpsert(table: map<string, CollectGames.GameRecord>, r: CollectGames.GameRecord): (t: map<string, CollectGames.GameRecord>)
    ensures t.Keys == table.Keys + {r.gameId}
    ensures forall id :: id in table && id != r.gameId ==> t[id] == table[id]
    ensures r.gameId in table ==> t[r.gameId] == table[r.gameId].(status := r.status, homeScore := r.homeScore, awayScore := r.awayScore)
    ensures r.gameId !in table ==> t[r.gameId] == r
  {
    if r.gameId in table then
      table[r.gameId := table[r.gameId].(status := r.status, homeScore := r.homeScore, awayScore := r.awayScore)]
    else table[r.gameId := r]
  }

  /** A game whose teams, id, status and scores the page gave. */
  datatype FoundGame = FoundGame(gameId: string, homeTeam: int, awayTeam: int, status: Status, scores: Scores)

  /** Number of games whose status is `s`. */
  function CountOf(games: seq<FoundGame>, s: Status): (n: nat)
    ensures n <= |games|
  {
    if games == [] then 0
    else CountOf(games[..|games| - 1], s) + (if games[|games| - 1].status == s then 1 else 0)
  }

  /** Every game is counted under exactly one status. */
  lemma {:induction false} CountsPartition(games: seq<FoundGame>)
    ensures CountOf(games, Scheduled) + CountOf(games, Completed) + CountOf(games, InProgress) == |games|
  {
    if games != [] {
      CountsPartition(games[..|games| - 1]);
    }
  }

  function RecordOfFound(g: FoundGame, date: string, season: string): CollectGames.GameRecord {
    CollectGames.GameRecord(g.gameId, date, season, g.homeTeam, g.awayTeam,
                            g.scores.home, g.scores.away, StatusName(g.status), "regular_season")
  }

  /** The storing loop over the first games of `games`. */
  function StoreAll(games: seq<FoundGame>, date: string, season: string,
                    table: map<string, CollectGames.GameRecord>): map<string, CollectGames.GameRecord>
  {
    if games == [] then table
    else ScheduleUpsert(StoreAll(games[..|games| - 1], date, season, table), RecordOfFound(games[|games| - 1], date, season))
  }

  /**
   * The storing loop: every valid game is counted under its status and
   * upserted with the run's season label.
   */
  method StoreGames(games: seq<FoundGame>, date: string, season: string,
                    table: map<string, CollectGames.GameRecord>)
    returns (stored: map<string, CollectGames.GameRecord>, scheduled: nat, completed: nat, inProgress: nat)
    ensures stored == StoreAll(games, date, season, table)
    ensures scheduled == CountOf(games, Scheduled)
    ensures completed == CountOf(games, Completed)
    ensures inProgress == CountOf(games, InProgress)
    ensures scheduled + completed + inProgress == |games|
  {
    stored, scheduled, completed, inProgress := table, 0, 0, 0;
    for i := 0 to |games|
      invariant stored == StoreAll(games[..i], date, season, table)
      invariant scheduled == CountOf(games[..i], Scheduled)
      invariant completed == CountOf(games[..i], Completed)
      invariant inProgress == CountOf(games[..i], InProgress)
    {
      assert games[..i + 1][..i] == games[..i];
      var g := games[i];
      match g.status {
        case Scheduled => scheduled := scheduled + 1;
        case Completed => completed := completed + 1;
        case InProgress => inProgress := inProgress + 1;
      }
      stored := ScheduleUpsert(stored, RecordOfFound(g, date, season));
    }
    assert games[..|games|] == games;
    CountsPartition(games);
  }

  /** The collector stores every game it found, and stores each as a regular-season game. */
  lemma {:induction false} StoredAreRegularSeason(games: seq<FoundGame>, date: string, season: string,
                                                  table: map<string, CollectGames.GameRecord>)
    requires forall id :: id in table ==> table[id].gameType == "regular_season"
    ensures forall id :: id in StoreAll(games, date, season, table) ==>
      StoreAll(games, date, season, table)[id].gameType == "regular_season"
  {
    if games != [] {
      var front := StoreAll(games[..|games| - 1], date, season, table);
      StoredAreRegularSeason(games[..|games| - 1], date, season, table);
      var r := RecordOfFound(games[|games| - 1], date, season);
      var t := ScheduleUpsert(front, r);
      forall id | id in t
        ensures t[id].gameType == "regular_season"
      {
        if id != r.gameId {
          assert t[id] == front[id];
        } else if id in front {
          assert t[id].gameType == front[id].gameType;
        } else {
          assert t[id] == r;
        }
      }
    }
  }

  /** Every game found ends up in the table, and no stored game is lost. */
  lemma {:induction false} FoundGamesStored(games: seq<FoundGame>, date: string, season: string,
                                            table: map<string, CollectGames.GameRecord>)
    ensures var t := StoreAll(games, date, season, table);
      table.Keys <= t.Keys && forall k :: 0 <= k < |games| ==> games[k].gameId in t
  {
    if games != [] {
      var front := games[..|games| - 1];
      FoundGamesStored(front, date, season, table);
      assert forall k :: 0 <= k < |front| ==> front[k] == games[k];
    }
  }
}

/**
 * `construct_nba_game_id` of src/data_collection/collect_schedule_html.py:
 * the ids given to scraped games, allocated from the `used_ids` set of a
 * collection run.
 */
module NbaGameIds {
  import opened Wrappers
  import opened Text

  // ---- game ids (lines 71-108) ---------------------------------------------

  /** `f"{sequence:03d}"`: three digits at least, the sign counted in the width. */
  function Seq3(n: int): string {
    if n >= 0 then ZeroPad(n, 3) else "-" + ZeroPad(-n, 2)
  }

  lemma Seq3Sign(n: int)
    ensures |Seq3(n)| > 0 && (Seq3(n)[0] == '-' <==> n < 0)
  {
  }

  lemma PaddedInjective(a: nat, b: nat, w: nat)
    requires ZeroPad(a, w) == ZeroPad(b, w)
    ensures a == b
  {
    ZeroPadValue(a, w);
    ZeroPadValue(b, w);
  }

  lemma Seq3Injective(a: int, b: int)
    requires Seq3(a) == Seq3(b)
    ensures a == b
  {
    Seq3Sign(a);
    Seq3Sign(b);
    if a >= 0 {
      PaddedInjective(a, b, 3);
    } else {
      assert Seq3(a)[1..] == ZeroPad(-a, 2);
      assert Seq3(b)[1..] == ZeroPad(-b, 2);
      PaddedInjective(-a, -b, 2);
    }
  }

  /** `f"002{target_date.strftime('%y')}"`. */
  function IdPrefix(year: int): string {
    "002" + ZeroPad(year % 100, 2)
  }

  /** `last_id[-3:]`. */
  function Last3(s: string): string {
    if |s| >= 3 then s[|s| - 3..] else s
  }

  /** The first sequence number to try: one past the last id's, or 1. `None` when the last id does not end in a number. */
  function StartSequence(lastId: Option<string>): (r: Option<int>)
    ensures lastId.None? ==> r == Some(1)
  {
    if lastId.None? then Some(1)
    else match ParseInt(Last3(lastId.value))
      case None => None
      case Some(n) => Some(n + 1)
  }

  /** `used_ids` of the collection run. */
  class GameIdAllocator {
    var used: set<string>

    constructor ()
      ensures used == {}
    {
      used := {};
    }

    /**
     * `construct_nba_game_id`. `existing` is the id of a stored game with
     * the same date and teams, `lastId` the greatest stored id with the
     * year's prefix. A stored game keeps its id; otherwise the id is the
     * prefix and the least sequence number from the start whose id is not
     * used yet, and it becomes used. `None` is the `ValueError` of a last id
     * that does not end in a number.
     */
    method Construct(existing: Option<string>, year: int, lastId: Option<string>) returns (id: Option<string>, sequence: int)
      modifies this
      ensures existing.Some? ==> id == existing && used == old(used)
      ensures existing.None? && StartSequence(lastId).None? ==> id.None? && used == old(used)
      ensures existing.None? && StartSequence(lastId).Some? ==>
        && id == Some(IdPrefix(year) + Seq3(sequence))
        && sequence >= StartSequence(lastId).value
        && id.value !in old(used)
        && (forall t :: StartSequence(lastId).value <= t < sequence ==> IdPrefix(year) + Seq3(t) in old(used))
        && used == old(used) + {id.value}
    {
      if existing.Some? {
        return existing, 0;
      }
      var start := StartSequence(lastId);
      if start.None? {
        return None, 0;
      }
      sequence := LeastUnused(used, IdPrefix(year), start.value);
      id := Some(IdPrefix(year) + Seq3(sequence));
      used := used + {id.value};
    }
  }

  /** The least sequence number from `start` whose id is not in `taken`: the `while True` loop. */
  method LeastUnused(taken: set<string>, prefix: string, start: int) returns (n: int)
    ensures n >= start && prefix + Seq3(n) !in taken
    ensures forall t :: start <= t < n ==> prefix + Seq3(t) in taken
  {
    n := start;
    ghost var tried: set<string> := {};
    while prefix + Seq3(n) in taken
      invariant n >= start
      invariant tried == IdsBetween(prefix, start, n)
      invariant tried <= taken
      decreases |taken - tried|
    {
      var next := prefix + Seq3(n);
      NotYetTried(prefix, start, n, n);
      assert taken - (tried + {next}) < taken - tried;
      tried := tried + {next};
      n := n + 1;
    }
    IdsBetweenMembers(prefix, start, n);
  }

  /** The ids of sequence numbers `lo` to `hi - 1`. */
  ghost function IdsBetween(prefix: string, lo: int, hi: int): set<string>
    decreases hi - lo
  {
    if hi <= lo then {} else IdsBetween(prefix, lo, hi - 1) + {prefix + Seq3(hi - 1)}
  }

  lemma {:induction false} IdsBetweenMembers(prefix: string, lo: int, hi: int)
    ensures forall t :: lo <= t < hi ==> prefix + Seq3(t) in IdsBetween(prefix, lo, hi)
    decreases hi - lo
  {
    if hi > lo {
      IdsBetweenMembers(prefix, lo, hi - 1);
    }
  }

  lemma {:induction false} NotYetTried(prefix: string, lo: int, hi: int, n: int)
    requires n >= hi
    ensures prefix + Seq3(n) !in IdsBetween(prefix, lo, hi)
    decreases hi - lo
  {
    if hi > lo {
      NotYetTried(prefix, lo, hi - 1, n);
      if prefix + Seq3(hi - 1) == prefix + Seq3(n) {
        assert (prefix + Seq3(hi - 1))[|prefix|..] == Seq3(hi - 1);
        assert (prefix + Seq3(n))[|prefix|..] == Seq3(n);
        Seq3Injective(hi - 1, n);
      }
    }
  }
}
