/**
 * The season collector `collect_player_stats_for_season`
 * (src/data_collection/collect_player_stats.py:118-229): each completed game
 * of the season is fetched with up to three attempts and, when a frame
 * arrives, loaded row by row; a game whose three attempts all raise is
 * listed as failed.
 *
 * The list of completed games, every box-score response and every
 * `CommonPlayerInfo` response are inputs; the commit, the sleeps and the
 * progress output are not part of this model.
 */
module CollectPlayerStats {
  import opened Wrappers
  import opened PlayerInfo
  import opened BoxScore

  /** The players table, the stored rows of every game, and the run's counters and failed list. */
  datatype SeasonState = SeasonState(players: map<int, PlayerRecord>, stats: map<string, map<int, StatRecord>>,
                                     count: nat, totalInserts: nat, playersAdded: nat, failed: seq<string>)

  /** The box-score responses for a game; a game with none listed raises on every attempt. */
  function ResponsesFor(responses: map<string, seq<Response>>, gameId: string): seq<Response> {
    if gameId in responses then responses[gameId] else []
  }

  /** The rows already stored for a game. */
  function StoredOf(stats: map<string, map<int, StatRecord>>, gameId: string): map<int, StatRecord> {
    if gameId in stats then stats[gameId] else map[]
  }

  /** A game whose three attempts all raise. */
  predicate GameFails(responses: map<string, seq<Response>>, gameId: string) {
    FirstFrame(ResponsesFor(responses, gameId), 0).None?
  }

  /**
   * One game: given up and listed when no frame arrives, otherwise loaded
   * and counted, its inserts and added players added to the totals.
   */
  function SeasonStep(st: SeasonState, gameId: string, responses: map<string, seq<Response>>,
                      found: map<int, PlayerRecord>): SeasonState
  {
    var frame := FirstFrame(ResponsesFor(responses, gameId), 0);
    if frame.None? then st.(failed := st.failed + [gameId])
    else
      var g := GameRun(frame.value, gameId, found, GameState(st.players, StoredOf(st.stats, gameId), 0, 0));
      SeasonState(g.players, st.stats[gameId := g.stored], st.count + 1, st.totalInserts + g.inserts,
                  st.playersAdded + g.added, st.failed)
  }

  /** The games one after another. */
  function SeasonRun(games: seq<string>, responses: map<string, seq<Response>>, found: map<int, PlayerRecord>,
                     st: SeasonState): SeasonState
  {
    if games == [] then st
    else SeasonStep(SeasonRun(games[..|games| - 1], responses, found, st), games[|games| - 1], responses, found)
  }

  /** The games whose three attempts all raise, in order. */
  function FailedGames(games: seq<string>, responses: map<string, seq<Response>>): (failed: seq<string>)
    ensures |failed| <= |games|
  {
    if games == [] then []
    else
      var g := games[|games| - 1];
      FailedGames(games[..|games| - 1], responses) + (if GameFails(responses, g) then [g] else [])
  }

  /** `collect_player_stats_for_season`'s loop over the completed games, from an empty run. */
  method CollectSeason(games: seq<string>, responses: map<string, seq<Response>>, infos: map<int, InfoResponse>,
                       players: map<int, PlayerRecord>, stats: map<string, map<int, StatRecord>>)
    returns (st: SeasonState)
    ensures st == SeasonRun(games, responses, FoundRecords(infos), SeasonState(players, stats, 0, 0, 0, []))
  {
    ghost var found := FoundRecords(infos);
    var players', stats' := players, stats;
    var count, totalInserts, playersAdded := 0, 0, 0;
    var failed: seq<string> := [];
    for i := 0 to |games|
      invariant SeasonState(players', stats', count, totalInserts, playersAdded, failed) ==
                SeasonRun(games[..i], responses, found, SeasonState(players, stats, 0, 0, 0, []))
    {
      assert games[..i + 1][..i] == games[..i];
      var gameId := games[i];
      ghost var before := SeasonState(players', stats', count, totalInserts, playersAdded, failed);
      assert SeasonRun(games[..i + 1], responses, found, SeasonState(players, stats, 0, 0, 0, [])) ==
             SeasonStep(before, gameId, responses, found);
      var frame, _ := FetchBoxScore(ResponsesFor(responses, gameId));
      if frame.None? {
        failed := failed + [gameId];
      } else {
        var p, s, inserts, added := LoadRows(frame.value, gameId, infos, players', StoredOf(stats', gameId));
        players', stats' := p, stats'[gameId := s];
        count, totalInserts, playersAdded := count + 1, totalInserts + inserts, playersAdded + added;
      }
      assert SeasonState(players', stats', count, totalInserts, playersAdded, failed) ==
             SeasonStep(before, gameId, responses, found);
    }
    assert games[..|games|] == games;
    st := SeasonState(players', stats', count, totalInserts, playersAdded, failed);
  }

  /**
   * From an empty run, `failed_games` lists exactly the games whose three
   * attempts all raised, in order, and `count` the others.
   */
  lemma {:induction false} SeasonCounts(games: seq<string>, responses: map<string, seq<Response>>,
                                         found: map<int, PlayerRecord>, players: map<int, PlayerRecord>,
                                         stats: map<string, map<int, StatRecord>>)
    ensures SeasonRun(games, responses, found, SeasonState(players, stats, 0, 0, 0, [])).failed == FailedGames(games, responses)
    ensures SeasonRun(games, responses, found, SeasonState(players, stats, 0, 0, 0, [])).count + |FailedGames(games, responses)| == |games|
  {
    if games != [] {
      SeasonCounts(games[..|games| - 1], responses, found, players, stats);
    }
  }

  /** A game is listed as failed exactly when its three attempts all raise. */
  lemma {:induction false} FailedGamesMembers(games: seq<string>, responses: map<string, seq<Response>>, g: string)
    ensures g in FailedGames(games, responses) <==> g in games && GameFails(responses, g)
  {
    if games != [] {
      var front := games[..|games| - 1];
      FailedGamesMembers(front, responses, g);
      assert games == front + [games[|games| - 1]];
    }
  }

  /** A game that fails leaves the players table and the stored rows as they were. */
  lemma FailedGameChangesNothing(st: SeasonState, gameId: string, responses: map<string, seq<Response>>,
                                 found: map<int, PlayerRecord>)
    requires GameFails(responses, gameId)
    ensures SeasonStep(st, gameId, responses, found).players == st.players
    ensures SeasonStep(st, gameId, responses, found).stats == st.stats
    ensures SeasonStep(st, gameId, responses, found).count == st.count
  {
  }
}
