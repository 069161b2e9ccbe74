/**
 * Loading one game's box score into player_game_stats, as
 * src/data_collection/collect_player_stats.py:139-216 does it (and
 * collect_batch.py:182-260 word for word): the request is tried up to three
 * times; each row of the returned frame is skipped when an id is 0 or
 * missing, when its player is unknown and cannot be added, or when the
 * player did not play; otherwise it is inserted, a second row for the same
 * player being ignored.
 *
 * The database is the players table (by player id) and the stored rows of
 * the game (by player id); the `BoxScoreTraditionalV3` and
 * `CommonPlayerInfo` responses are inputs.
 */
module BoxScore {
  import opened Wrappers
  import opened Text
  import opened PyValues
  import opened PlayerInfo

  /** The cells of a box-score row the collectors read; `stats` holds the sixteen counting columns in insert order. */
  datatype StatRow = StatRow(personId: Value, teamId: Value, position: Value, minutes: Value, stats: seq<Value>)

  /** A row of player_game_stats. */
  datatype StatRecord = StatRecord(playerId: int, gameId: string, teamId: int, isStarter: bool, minutes: real,
                                   stats: seq<Option<int>>)

  /** An id that passes `not id`: present and not 0. */
  predicate Truthy(id: Option<int>) {
    id.Some? && id.value != 0
  }

  /** Both ids of a row convert and neither is 0. */
  predicate IdsOk(r: StatRow) {
    Truthy(SafeInt(r.personId)) && Truthy(SafeInt(r.teamId))
  }

  /** The player id of a row whose ids are fine. */
  function PlayerOf(r: StatRow): int
    requires IdsOk(r)
  {
    SafeInt(r.personId).value
  }

  /** A printed integer is none of the texts that mean "no position". */
  lemma IntTextIsNotBlank(i: int)
    ensures IntToString(i) != "" && IntToString(i) != "None" && IntToString(i) != "nan"
  {
    var n: nat := if i < 0 then -i else i;
    var d := NatToString(n);
    assert IsDigit(d[0]);
    if i >= 0 {
      assert IntToString(i)[0] == d[0];
    } else {
      assert IntToString(i)[0] == '-';
    }
  }

  /**
   * `is_starter`: the `str` of the position is none of '', 'None' and
   * 'nan', so a missing position (None or NaN) is never a start and a
   * numeric one always is.
   */
  function IsStarter(position: Value): (b: bool)
    ensures IsNA(position) ==> !b
    ensures position.Str? ==> (b <==> position.s != "" && position.s != "None" && position.s != "nan")
    ensures position.Int? ==> b
  {
    var p := StrOf(position);
    assert position.Int? ==> p != "" && p != "None" && p != "nan" by {
      if position.Int? {
        IntTextIsNotBlank(position.i);
      }
    }
    p != "" && p != "None" && p != "nan"
  }

  /** `parse_minutes` gives a value other than `None` and 0. */
  predicate Played(r: StatRow) {
    var m := ParseMinutes(r.minutes);
    m.Some? && m.value != 0.0
  }

  /** The sixteen counting columns through `safe_int`. */
  function StatsOf(cells: seq<Value>): (r: seq<Option<int>>)
    ensures |r| == |cells|
    ensures forall k :: 0 <= k < |cells| ==> r[k] == SafeInt(cells[k])
  {
    seq(|cells|, k requires 0 <= k < |cells| => SafeInt(cells[k]))
  }

  /** The `CommonPlayerInfo` response for a player; a player not in the map raises. */
  function InfoFor(infos: map<int, InfoResponse>, playerId: int): InfoResponse {
    if playerId in infos then infos[playerId] else Failed
  }

  /**
   * What the loop reads from a row: `Skip` when an id is missing or 0,
   * otherwise the ids, the minutes when played (present and not 0), the
   * starter flag and the counting columns.
   */
  datatype RowView = Skip | Keep(playerId: int, teamId: int, minutes: Option<real>, isStarter: bool,
                                 stats: seq<Option<int>>)

  /** The conversions of one row. */
  function View(r: StatRow): (v: RowView)
    ensures v.Skip? <==> !IdsOk(r)
    ensures v.Keep? ==> v.playerId == PlayerOf(r) && v.playerId != 0 && v.teamId != 0
    ensures v.Keep? ==> (v.minutes.Some? <==> Played(r))
    ensures v.Keep? && v.minutes.Some? ==> v.minutes.value == ParseMinutes(r.minutes).value != 0.0
    ensures v.Keep? ==> v.isStarter == IsStarter(r.position) && v.stats == StatsOf(r.stats)
  {
    if !IdsOk(r) then Skip
    else Keep(PlayerOf(r), SafeInt(r.teamId).value, if Played(r) then ParseMinutes(r.minutes) else None,
              IsStarter(r.position), StatsOf(r.stats))
  }

  /** The players table, the game's stored rows, and the `game_inserts` and `players_added` counters. */
  datatype GameState = GameState(players: map<int, PlayerRecord>, stored: map<int, StatRecord>, inserts: nat, added: nat)

  /**
   * The record `add_missing_player` would insert for each player that
   * `CommonPlayerInfo` finds; the players it does not find are absent.
   */
  function FoundRecords(infos: map<int, InfoResponse>): (found: map<int, PlayerRecord>)
    ensures forall p :: p in found <==> InfoFor(infos, p).Found?
    ensures forall p :: p in found ==> found[p] == MissingPlayerRecord(p, InfoFor(infos, p).info)
  {
    map p | p in infos && infos[p].Found? :: MissingPlayerRecord(p, infos[p].info)
  }

  /** The row's player is unknown and found by `CommonPlayerInfo`: the player is added. */
  predicate Adds(v: RowView, players: map<int, PlayerRecord>, found: map<int, PlayerRecord>) {
    v.Keep? && v.playerId !in players && v.playerId in found
  }

  /** The row is inserted: its player is known or found, and played. */
  predicate Inserts(v: RowView, players: map<int, PlayerRecord>, found: map<int, PlayerRecord>) {
    v.Keep? && v.minutes.Some? && (v.playerId in players || v.playerId in found)
  }

  /** The row inserted for a row that passes every filter. */
  function RecordOf(v: RowView, gameId: string): StatRecord
    requires v.Keep? && v.minutes.Some?
  {
    StatRecord(v.playerId, gameId, v.teamId, v.isStarter, v.minutes.value, v.stats)
  }

  /**
   * One row of the frame. The player is looked up first and added when
   * unknown (the row is dropped when that fails); only then are the minutes
   * checked, so a player may be added for a row that is not inserted.
   * The insert has `ON CONFLICT DO NOTHING`, and counts either way.
   */
  function RowStep(st: GameState, v: RowView, gameId: string, found: map<int, PlayerRecord>): GameState {
    var adds := Adds(v, st.players, found);
    var inserts := Inserts(v, st.players, found);
    GameState(if adds then st.players[v.playerId := found[v.playerId]] else st.players,
              if inserts && v.playerId !in st.stored then st.stored[v.playerId := RecordOf(v, gameId)] else st.stored,
              if inserts then st.inserts + 1 else st.inserts,
              if adds then st.added + 1 else st.added)
  }

  /** The frame's rows one after another. */
  function GameRun(rows: seq<StatRow>, gameId: string, found: map<int, PlayerRecord>, st: GameState): GameState
  {
    if rows == [] then st
    else RowStep(GameRun(rows[..|rows| - 1], gameId, found, st), View(rows[|rows| - 1]), gameId, found)
  }

  /**
   * The inner loop over the frame's rows
   * (src/data_collection/collect_player_stats.py:154-210).
   */
  method LoadRows(rows: seq<StatRow>, gameId: string, infos: map<int, InfoResponse>,
                  players: map<int, PlayerRecord>, stored: map<int, StatRecord>)
    returns (players': map<int, PlayerRecord>, stored': map<int, StatRecord>, inserts: nat, added: nat)
    ensures GameState(players', stored', inserts, added) ==
            GameRun(rows, gameId, FoundRecords(infos), GameState(players, stored, 0, 0))
  {
    ghost var found := FoundRecords(infos);
    players', stored', inserts, added := players, stored, 0, 0;
    for i := 0 to |rows|
      invariant GameState(players', stored', inserts, added) == GameRun(rows[..i], gameId, found, GameState(players, stored, 0, 0))
    {
      assert rows[..i + 1][..i] == rows[..i];
      players', stored', inserts, added := LoadRow(rows[i], gameId, infos, players', stored', inserts, added);
    }
    assert rows[..|rows|] == rows;
  }

  /** One row of the loop: its ids, the player looked up if missing, the minutes, the insert. */
  method LoadRow(r: StatRow, gameId: string, infos: map<int, InfoResponse>,
                 players: map<int, PlayerRecord>, stored: map<int, StatRecord>, inserts: nat, added: nat)
    returns (players': map<int, PlayerRecord>, stored': map<int, StatRecord>, inserts': nat, added': nat)
    ensures GameState(players', stored', inserts', added') ==
            RowStep(GameState(players, stored, inserts, added), View(r), gameId, FoundRecords(infos))
  {
    players', stored', inserts', added' := players, stored, inserts, added;
    var playerId := SafeInt(r.personId);
    var teamId := SafeInt(r.teamId);
    if !Truthy(playerId) || !Truthy(teamId) {
      return;
    }
    var pid := playerId.value;
    if pid !in players' {
      var response := InfoFor(infos, pid);
      if response.Found? {
        players' := players'[pid := MissingPlayerRecord(pid, response.info)];
        added' := added' + 1;
      } else {
        return;
      }
    }
    var isStarter := IsStarter(r.position);
    var minutes := ParseMinutes(r.minutes);
    if minutes == Some(0.0) || minutes.None? {
      return;
    }
    if pid !in stored' {
      stored' := stored'[pid := StatRecord(pid, gameId, teamId.value, isStarter, minutes.value, StatsOf(r.stats))];
    }
    inserts' := inserts' + 1;
  }

  /** A row that gets inserted: both ids fine, minutes played, and the player known or found. */
  predicate Qualifies(r: StatRow, players: map<int, PlayerRecord>, found: map<int, PlayerRecord>) {
    IdsOk(r) && Played(r) && (PlayerOf(r) in players || PlayerOf(r) in found)
  }

  /** The players of the qualifying rows. */
  function QualifyingIds(rows: seq<StatRow>, players: map<int, PlayerRecord>, found: map<int, PlayerRecord>): set<int>
  {
    if rows == [] then {}
    else
      var r := rows[|rows| - 1];
      QualifyingIds(rows[..|rows| - 1], players, found) + (if Qualifies(r, players, found) then {PlayerOf(r)} else {})
  }

  /** The unknown players some row names and `CommonPlayerInfo` finds. */
  function AddedIds(rows: seq<StatRow>, players: map<int, PlayerRecord>, found: map<int, PlayerRecord>): set<int>
  {
    if rows == [] then {}
    else
      var r := rows[|rows| - 1];
      AddedIds(rows[..|rows| - 1], players, found) +
      (if IdsOk(r) && PlayerOf(r) !in players && PlayerOf(r) in found then {PlayerOf(r)} else {})
  }

  /** What holds of a stored row: its ids are those of a qualifying row of this game. */
  predicate Sound(rec: StatRecord, pid: int, gameId: string, players: map<int, PlayerRecord>) {
    rec.playerId == pid && pid != 0 && rec.gameId == gameId && rec.teamId != 0 && rec.minutes != 0.0 && pid in players
  }

  /** The player a row adds, if any. */
  function AddedBy(v: RowView, players: map<int, PlayerRecord>, found: map<int, PlayerRecord>): set<int> {
    if Adds(v, players, found) then {v.playerId} else {}
  }

  /** How the players table relates to the one a run started from, once `added` players are in. */
  predicate PlayersFrom(st: GameState, players: map<int, PlayerRecord>, added: set<int>, found: map<int, PlayerRecord>) {
    TableFrom(st.players, players, added, found) && st.added == |added|
  }

  /**
   * The table `cur` is `players` with each of the `added` players, none of
   * them there before, as its found record.
   */
  predicate TableFrom(cur: map<int, PlayerRecord>, players: map<int, PlayerRecord>, added: set<int>,
                      found: map<int, PlayerRecord>) {
    && cur.Keys == players.Keys + added
    && (forall p :: p in added ==> p !in players)
    && (forall p :: p in players ==> cur[p] == players[p])
    && (forall p :: p in cur && p !in players ==> p in found && cur[p] == found[p])
  }

  lemma RowStepPlayers(st: GameState, v: RowView, gameId: string, found: map<int, PlayerRecord>,
                       players: map<int, PlayerRecord>, added: set<int>)
    requires PlayersFrom(st, players, added, found)
    ensures PlayersFrom(RowStep(st, v, gameId, found), players, added + AddedBy(v, players, found), found)
  {
    if Adds(v, st.players, found) {
      assert AddedBy(v, players, found) == {v.playerId};
      assert RowStep(st, v, gameId, found).players == st.players[v.playerId := found[v.playerId]];
      assert RowStep(st, v, gameId, found).added == st.added + 1;
      PlayersAdd(st.players, players, added, found, v.playerId);
      FreshCard(added, v.playerId);
    } else {
      assert RowStep(st, v, gameId, found).players == st.players;
      assert added + AddedBy(v, players, found) == added;
    }
  }

  /** Adding one found player keeps the players table in step with the set of added ones. */
  lemma PlayersAdd(cur: map<int, PlayerRecord>, players: map<int, PlayerRecord>, added: set<int>,
                   found: map<int, PlayerRecord>, pid: int)
    requires TableFrom(cur, players, added, found)
    requires pid !in cur && pid in found
    ensures TableFrom(cur[pid := found[pid]], players, added + {pid}, found)
  {
  }

  lemma FreshCard(s: set<int>, x: int)
    requires x !in s
    ensures |s + {x}| == |s| + 1
  {
  }

  /**
   * The players table after loading a frame: it gains exactly the unknown
   * players that some row names and the API finds, each as its
   * `add_missing_player` record and counted once, and nothing that was
   * there before changes.
   */
  lemma {:induction false} PlayersEffect(rows: seq<StatRow>, gameId: string, found: map<int, PlayerRecord>,
                                          players: map<int, PlayerRecord>, stored: map<int, StatRecord>)
    ensures PlayersFrom(GameRun(rows, gameId, found, GameState(players, stored, 0, 0)), players,
                        AddedIds(rows, players, found), found)
  {
    if rows != [] {
      var front := rows[..|rows| - 1];
      var r := rows[|rows| - 1];
      PlayersEffect(front, gameId, found, players, stored);
      var st := GameRun(front, gameId, found, GameState(players, stored, 0, 0));
      RowStepPlayers(st, View(r), gameId, found, players, AddedIds(front, players, found));
      ViewAdds(r, players, found);
    }
  }

  /** A row names an added player exactly when its view adds one. */
  lemma ViewAdds(r: StatRow, players: map<int, PlayerRecord>, found: map<int, PlayerRecord>)
    ensures (if IdsOk(r) && PlayerOf(r) !in players && PlayerOf(r) in found then {PlayerOf(r)} else {}) ==
            AddedBy(View(r), players, found)
  {
  }

  /** How the game's rows relate to the ones a run started from, once the `qualifying` players are in. */
  predicate StoredFrom(st: GameState, stored: map<int, StatRecord>, qualifying: set<int>, gameId: string) {
    RowsFrom(st.stored, st.players, stored, qualifying, gameId)
  }

  /** The rows `cur` are those of `stored` and one sound row for each `qualifying` player not already there. */
  predicate RowsFrom(cur: map<int, StatRecord>, players: map<int, PlayerRecord>, stored: map<int, StatRecord>,
                     qualifying: set<int>, gameId: string) {
    && cur.Keys == stored.Keys + qualifying
    && (forall p :: p in stored ==> cur[p] == stored[p])
    && (forall p :: p in cur && p !in stored ==> Sound(cur[p], p, gameId, players))
  }

  /** The player a row inserts, if any, judged against the table a run started from. */
  function InsertedBy(v: RowView, players: map<int, PlayerRecord>, found: map<int, PlayerRecord>): set<int> {
    if Inserts(v, players, found) then {v.playerId} else {}
  }

  /** A players table that only grows keeps every stored row sound. */
  lemma RowsMorePlayers(cur: map<int, StatRecord>, players: map<int, PlayerRecord>, players': map<int, PlayerRecord>,
                        stored: map<int, StatRecord>, qualifying: set<int>, gameId: string)
    requires RowsFrom(cur, players, stored, qualifying, gameId)
    requires players.Keys <= players'.Keys
    ensures RowsFrom(cur, players', stored, qualifying, gameId)
  {
  }

  /** Inserting a sound row for a new player records that player as qualifying. */
  lemma RowsInsert(cur: map<int, StatRecord>, players: map<int, PlayerRecord>, stored: map<int, StatRecord>,
                   qualifying: set<int>, gameId: string, pid: int, rec: StatRecord)
    requires RowsFrom(cur, players, stored, qualifying, gameId)
    requires pid !in cur && Sound(rec, pid, gameId, players)
    ensures RowsFrom(cur[pid := rec], players, stored, qualifying + {pid}, gameId)
  {
  }

  /** A second insert for a player already stored changes nothing (`ON CONFLICT DO NOTHING`). */
  lemma RowsConflict(cur: map<int, StatRecord>, players: map<int, PlayerRecord>, stored: map<int, StatRecord>,
                     qualifying: set<int>, gameId: string, pid: int)
    requires RowsFrom(cur, players, stored, qualifying, gameId)
    requires pid in cur
    ensures RowsFrom(cur, players, stored, qualifying + {pid}, gameId)
  {
  }

  lemma RowStepStored(st: GameState, v: RowView, gameId: string, found: map<int, PlayerRecord>,
                      players: map<int, PlayerRecord>, added: set<int>,
                      stored: map<int, StatRecord>, qualifying: set<int>)
    requires PlayersFrom(st, players, added, found)
    requires StoredFrom(st, stored, qualifying, gameId)
    requires v.Keep? ==> v.playerId != 0 && v.teamId != 0 && (v.minutes.Some? ==> v.minutes.value != 0.0)
    ensures StoredFrom(RowStep(st, v, gameId, found), stored, qualifying + InsertedBy(v, players, found), gameId)
    ensures RowStep(st, v, gameId, found).inserts <= st.inserts + 1
  {
    var st' := RowStep(st, v, gameId, found);
    assert st'.players.Keys >= st.players.Keys;
    RowsMorePlayers(st.stored, st.players, st'.players, stored, qualifying, gameId);
    if Inserts(v, st.players, found) {
      assert Inserts(v, players, found);
      assert InsertedBy(v, players, found) == {v.playerId};
      if v.playerId in st.stored {
        assert st'.stored == st.stored;
        RowsConflict(st.stored, st'.players, stored, qualifying, gameId, v.playerId);
      } else {
        assert st'.stored == st.stored[v.playerId := RecordOf(v, gameId)];
        RowsInsert(st.stored, st'.players, stored, qualifying, gameId, v.playerId, RecordOf(v, gameId));
      }
    } else {
      assert !Inserts(v, players, found);
      assert st'.stored == st.stored;
      assert qualifying + InsertedBy(v, players, found) == qualifying;
    }
  }

  /**
   * The game's rows after loading a frame: they gain exactly the players of
   * the qualifying rows, each a sound record, rows stored before are kept
   * as they were, and at most one insert is counted per row.
   */
  lemma {:induction false} StoredEffect(rows: seq<StatRow>, gameId: string, found: map<int, PlayerRecord>,
                                         players: map<int, PlayerRecord>, stored: map<int, StatRecord>)
    ensures StoredFrom(GameRun(rows, gameId, found, GameState(players, stored, 0, 0)), stored,
                       QualifyingIds(rows, players, found), gameId)
    ensures GameRun(rows, gameId, found, GameState(players, stored, 0, 0)).inserts <= |rows|
  {
    if rows != [] {
      var front := rows[..|rows| - 1];
      var r := rows[|rows| - 1];
      StoredEffect(front, gameId, found, players, stored);
      PlayersEffect(front, gameId, found, players, stored);
      var st := GameRun(front, gameId, found, GameState(players, stored, 0, 0));
      ViewInserts(r, players, found);
      RowStepStored(st, View(r), gameId, found, players, AddedIds(front, players, found),
                    stored, QualifyingIds(front, players, found));
    }
  }

  /** A row qualifies exactly when its view is inserted, and its view then has the ids a stored row needs. */
  lemma ViewInserts(r: StatRow, players: map<int, PlayerRecord>, found: map<int, PlayerRecord>)
    ensures (if Qualifies(r, players, found) then {PlayerOf(r)} else {}) == InsertedBy(View(r), players, found)
    ensures View(r).Keep? ==> View(r).playerId != 0 && View(r).teamId != 0 &&
                              (View(r).minutes.Some? ==> View(r).minutes.value != 0.0)
  {
  }

  /** The number of qualifying rows, a player named twice counting twice. */
  function QualifyingCount(rows: seq<StatRow>, players: map<int, PlayerRecord>, found: map<int, PlayerRecord>): (n: nat)
    ensures n <= |rows|
  {
    if rows == [] then 0
    else QualifyingCount(rows[..|rows| - 1], players, found) + (if Qualifies(rows[|rows| - 1], players, found) then 1 else 0)
  }

  /**
   * `game_inserts` counts every qualifying row, including a second row for
   * a player whose insert hits the conflict and stores nothing.
   */
  lemma {:induction false} InsertsEffect(rows: seq<StatRow>, gameId: string, found: map<int, PlayerRecord>,
                                          players: map<int, PlayerRecord>, stored: map<int, StatRecord>)
    ensures GameRun(rows, gameId, found, GameState(players, stored, 0, 0)).inserts == QualifyingCount(rows, players, found)
  {
    if rows != [] {
      var front := rows[..|rows| - 1];
      var r := rows[|rows| - 1];
      InsertsEffect(front, gameId, found, players, stored);
      PlayersEffect(front, gameId, found, players, stored);
      var st := GameRun(front, gameId, found, GameState(players, stored, 0, 0));
      ViewInserts(r, players, found);
      assert Inserts(View(r), st.players, found) == Inserts(View(r), players, found);
    }
  }

  /** The qualifying ids are the players of the qualifying rows, in either direction. */
  lemma {:induction false} QualifyingIdsMembers(rows: seq<StatRow>, players: map<int, PlayerRecord>,
                                                found: map<int, PlayerRecord>, p: int)
    ensures p in QualifyingIds(rows, players, found) <==>
      exists k :: 0 <= k < |rows| && Qualifies(rows[k], players, found) && PlayerOf(rows[k]) == p
  {
    if rows != [] {
      var front := rows[..|rows| - 1];
      QualifyingIdsMembers(front, players, found, p);
      if p in QualifyingIds(front, players, found) {
        var k :| 0 <= k < |front| && Qualifies(front[k], players, found) && PlayerOf(front[k]) == p;
        assert rows[k] == front[k];
      }
      if exists k :: 0 <= k < |rows| && Qualifies(rows[k], players, found) && PlayerOf(rows[k]) == p {
        var k :| 0 <= k < |rows| && Qualifies(rows[k], players, found) && PlayerOf(rows[k]) == p;
        if k < |front| {
          assert front[k] == rows[k];
        }
      }
    }
  }

  /** The three attempts of `max_retries`. */
  const MaxRetries: nat := 3

  /** What one request for a box score gives: it raises, or a frame arrives. */
  datatype Response = Raised | Frame(rows: seq<StatRow>)

  /** The response to attempt `k`; attempts past the given responses raise. */
  function ResponseAt(responses: seq<Response>, k: nat): Response {
    if k < |responses| then responses[k] else Raised
  }

  /** The first frame among attempts `k`, `k + 1`, … below `MaxRetries`. */
  function FirstFrame(responses: seq<Response>, k: nat): (f: Option<seq<StatRow>>)
    decreases MaxRetries - k
  {
    if k >= MaxRetries then None
    else if ResponseAt(responses, k).Frame? then Some(ResponseAt(responses, k).rows)
    else FirstFrame(responses, k + 1)
  }

  /** A game gives up exactly when all three attempts raise. */
  lemma FirstFrameNone(responses: seq<Response>)
    ensures FirstFrame(responses, 0).None? <==> forall k :: 0 <= k < MaxRetries ==> ResponseAt(responses, k).Raised?
    ensures FirstFrame(responses, 0).Some? ==>
      exists k :: 0 <= k < MaxRetries && ResponseAt(responses, k) == Frame(FirstFrame(responses, 0).value)
  {
    assert FirstFrame(responses, 3).None?;
  }

  /**
   * The retry loop: request until a frame arrives or `MaxRetries` attempts
   * have raised. The waits between attempts are not modelled.
   */
  method FetchBoxScore(responses: seq<Response>) returns (frame: Option<seq<StatRow>>, attempts: nat)
    ensures frame == FirstFrame(responses, 0)
    ensures 1 <= attempts <= MaxRetries
    ensures frame.None? ==> attempts == MaxRetries
    ensures frame.Some? ==> ResponseAt(responses, attempts - 1) == Frame(frame.value)
  {
    var retryCount := 0;
    var success := false;
    frame := None;
    while retryCount < MaxRetries && !success
      invariant 0 <= retryCount <= MaxRetries
      invariant !success ==> frame.None? && FirstFrame(responses, 0) == FirstFrame(responses, retryCount)
      invariant success ==> retryCount < MaxRetries && frame == FirstFrame(responses, 0)
      invariant success ==> frame.Some? && ResponseAt(responses, retryCount) == Frame(frame.value)
      decreases MaxRetries - retryCount, if success then 0 else 1
    {
      var response := ResponseAt(responses, retryCount);
      if response.Frame? {
        frame := Some(response.rows);
        success := true;
      } else {
        retryCount := retryCount + 1;
      }
    }
    attempts := if success then retryCount + 1 else retryCount;
  }
}
