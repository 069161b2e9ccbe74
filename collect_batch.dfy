/**
 * The batch collector `collect_batch` of
 * src/data_collection/collect_batch.py:149-319: the completed games with
 * fewer than `min_players` stored rows are split into empty and incomplete
 * ones, at most `batch_size` of them are re-collected, and the batch stops
 * with `False` once `max_failures` games in a row have failed all three
 * attempts.
 *
 * The missing-games query, every box-score response and every
 * `CommonPlayerInfo` response are inputs; the final re-query of missing
 * games only chooses between two messages, and the sleeps and progress
 * output are not part of this model.
 */
module CollectBatch {
  import opened Wrappers
  import opened PlayerInfo
  import opened BoxScore
  import CollectPlayerStats

  /** A row of `get_missing_games`: the game, its season and how many stat rows it has. */
  datatype MissingGame = MissingGame(gameId: string, season: string, playerCount: nat)

  /** The missing games that have no stat row at all. */
  function EmptyGames(missing: seq<MissingGame>): (e: seq<MissingGame>)
    ensures |e| <= |missing|
  {
    if missing == [] then []
    else EmptyGames(missing[..|missing| - 1]) +
         (if missing[|missing| - 1].playerCount == 0 then [missing[|missing| - 1]] else [])
  }

  /** The missing games that have some stat rows, too few of them. */
  function IncompleteGames(missing: seq<MissingGame>): (e: seq<MissingGame>)
    ensures |e| <= |missing|
  {
    if missing == [] then []
    else IncompleteGames(missing[..|missing| - 1]) +
         (if missing[|missing| - 1].playerCount > 0 then [missing[|missing| - 1]] else [])
  }

  /** Every missing game is empty or incomplete, and not both. */
  lemma {:induction false} MissingPartition(missing: seq<MissingGame>, g: MissingGame)
    ensures |EmptyGames(missing)| + |IncompleteGames(missing)| == |missing|
    ensures g in missing <==> g in EmptyGames(missing) || g in IncompleteGames(missing)
    ensures !(g in EmptyGames(missing) && g in IncompleteGames(missing))
    ensures g in EmptyGames(missing) ==> g.playerCount == 0
    ensures g in IncompleteGames(missing) ==> g.playerCount > 0
  {
    if missing != [] {
      var front := missing[..|missing| - 1];
      MissingPartition(front, g);
      assert missing == front + [missing[|missing| - 1]];
    }
  }

  /** Python's `s[:n]`: a negative `n` drops that many from the end. */
  function Batch(missing: seq<MissingGame>, batchSize: int): (b: seq<MissingGame>)
    ensures b <= missing
    ensures batchSize >= 0 ==> |b| == if batchSize < |missing| then batchSize else |missing|
    ensures batchSize < 0 ==> |b| == if |missing| + batchSize > 0 then |missing| + batchSize else 0
  {
    if batchSize >= 0 then
      if batchSize < |missing| then missing[..batchSize] else missing
    else if |missing| + batchSize > 0 then missing[..|missing| + batchSize]
    else []
  }

  /**
   * The database and the batch's counters: games completed, inserts of
   * completed games, players added, the failed games, the games still
   * incomplete with their insert counts, the failures in a row, and whether
   * the batch stopped.
   */
  datatype BatchState = BatchState(players: map<int, PlayerRecord>, stats: map<string, map<int, StatRecord>>,
                                   count: nat, totalInserts: nat, playersAdded: nat, failed: seq<string>,
                                   incomplete: seq<(string, nat)>, consecutive: nat, stopped: bool)

  /** The stored rows after the `DELETE` that a game with existing rows gets first. */
  function Cleared(stats: map<string, map<int, StatRecord>>, g: MissingGame): map<string, map<int, StatRecord>> {
    if g.playerCount > 0 then stats[g.gameId := map[]] else stats
  }

  /** A game whose three attempts all raise. */
  predicate Fails(responses: map<string, seq<Response>>, g: MissingGame) {
    CollectPlayerStats.GameFails(responses, g.gameId)
  }

  /**
   * One game of the batch. The delete stays even when the game then fails.
   * A failure is listed and counted in a row, stopping the batch at
   * `max_failures`; a frame is loaded, and the game is complete when it
   * then has `min_players` rows, otherwise noted as incomplete. Either way
   * the failures in a row start again from 0. Players added by the rows
   * count in both cases.
   */
  function BatchStep(st: BatchState, g: MissingGame, responses: map<string, seq<Response>>,
                     found: map<int, PlayerRecord>, minPlayers: int, maxFailures: int): BatchState
  {
    if st.stopped then st
    else
      var stats := Cleared(st.stats, g);
      var frame := FirstFrame(CollectPlayerStats.ResponsesFor(responses, g.gameId), 0);
      if frame.None? then
        st.(stats := stats, failed := st.failed + [g.gameId], consecutive := st.consecutive + 1,
            stopped := st.consecutive + 1 >= maxFailures)
      else
        var run := GameRun(frame.value, g.gameId, found,
                           GameState(st.players, CollectPlayerStats.StoredOf(stats, g.gameId), 0, 0));
        var complete := |run.stored| >= minPlayers;
        st.(players := run.players, stats := stats[g.gameId := run.stored],
            count := if complete then st.count + 1 else st.count,
            totalInserts := if complete then st.totalInserts + run.inserts else st.totalInserts,
            playersAdded := st.playersAdded + run.added,
            incomplete := if complete then st.incomplete else st.incomplete + [(g.gameId, run.inserts)],
            consecutive := 0)
  }

  /** The games of the batch one after another; a stopped batch takes no further step. */
  function BatchRun(games: seq<MissingGame>, responses: map<string, seq<Response>>, found: map<int, PlayerRecord>,
                    minPlayers: int, maxFailures: int, st: BatchState): BatchState
  {
    if games == [] then st
    else BatchStep(BatchRun(games[..|games| - 1], responses, found, minPlayers, maxFailures, st),
                   games[|games| - 1], responses, found, minPlayers, maxFailures)
  }

  /** The state a batch starts from. */
  function Start(players: map<int, PlayerRecord>, stats: map<string, map<int, StatRecord>>): BatchState {
    BatchState(players, stats, 0, 0, 0, [], [], 0, false)
  }

  /** Once a prefix of the batch has stopped, the rest of the batch changes nothing. */
  lemma {:induction false} StoppedStays(games: seq<MissingGame>, i: nat, responses: map<string, seq<Response>>,
                                         found: map<int, PlayerRecord>, minPlayers: int, maxFailures: int,
                                         st: BatchState)
    requires i <= |games|
    requires BatchRun(games[..i], responses, found, minPlayers, maxFailures, st).stopped
    ensures BatchRun(games, responses, found, minPlayers, maxFailures, st) ==
            BatchRun(games[..i], responses, found, minPlayers, maxFailures, st)
    decreases |games| - i
  {
    if i == |games| {
      assert games[..i] == games;
    } else {
      assert games[..i + 1][..i] == games[..i];
      StoppedStays(games, i + 1, responses, found, minPlayers, maxFailures, st);
    }
  }

  /**
   * `collect_batch`: an empty missing list returns `True` at once; otherwise
   * the batch's games are collected in order, returning `False` as soon as
   * the failures in a row reach `max_failures` and `True` after the last.
   */
  method CollectBatchRun(missing: seq<MissingGame>, batchSize: int, maxFailures: int, minPlayers: int,
                         responses: map<string, seq<Response>>, infos: map<int, InfoResponse>,
                         players: map<int, PlayerRecord>, stats: map<string, map<int, StatRecord>>)
    returns (ok: bool, st: BatchState)
    ensures st == BatchRun(Batch(missing, batchSize), responses, FoundRecords(infos), minPlayers, maxFailures,
                           Start(players, stats))
    ensures ok <==> !st.stopped
  {
    st := Start(players, stats);
    if |missing| == 0 {
      return true, st;
    }
    var games := Batch(missing, batchSize);
    ghost var found := FoundRecords(infos);
    for i := 0 to |games|
      invariant !st.stopped
      invariant st == BatchRun(games[..i], responses, found, minPlayers, maxFailures, Start(players, stats))
    {
      assert games[..i + 1][..i] == games[..i];
      st := CollectGame(st, games[i], minPlayers, maxFailures, responses, infos);
      if st.stopped {
        StoppedStays(games, i + 1, responses, found, minPlayers, maxFailures, Start(players, stats));
        return false, st;
      }
    }
    assert games[..|games|] == games;
    return true, st;
  }

  /**
   * The body of the batch loop for one game (src/data_collection/collect_batch.py:182-294):
   * the delete, the attempts, the row loop, the completeness check and the
   * failure accounting.
   */
  method CollectGame(st: BatchState, g: MissingGame, minPlayers: int, maxFailures: int,
                     responses: map<string, seq<Response>>, infos: map<int, InfoResponse>)
    returns (st': BatchState)
    requires !st.stopped
    ensures st' == BatchStep(st, g, responses, FoundRecords(infos), minPlayers, maxFailures)
  {
    var stats := st.stats;
    if g.playerCount > 0 {
      stats := stats[g.gameId := map[]];
    }
    var frame, _ := FetchBoxScore(CollectPlayerStats.ResponsesFor(responses, g.gameId));
    if frame.None? {
      var consecutive := st.consecutive + 1;
      st' := st.(stats := stats, failed := st.failed + [g.gameId], consecutive := consecutive,
                 stopped := consecutive >= maxFailures);
    } else {
      var players, stored, inserts, added := LoadRows(frame.value, g.gameId, infos, st.players,
                                                      CollectPlayerStats.StoredOf(stats, g.gameId));
      var count, totalInserts, incomplete := st.count, st.totalInserts, st.incomplete;
      if |stored| >= minPlayers {
        totalInserts := totalInserts + inserts;
        count := count + 1;
      } else {
        incomplete := incomplete + [(g.gameId, inserts)];
      }
      st' := st.(players := players, stats := stats[g.gameId := stored], count := count,
                 totalInserts := totalInserts, playersAdded := st.playersAdded + added,
                 incomplete := incomplete, consecutive := 0);
    }
  }

  /** The number of games at the end of `games` that failed, one after another. */
  function TrailingFailures(games: seq<MissingGame>, responses: map<string, seq<Response>>): (n: nat)
    ensures n <= |games|
  {
    if games == [] || !Fails(responses, games[|games| - 1]) then 0
    else TrailingFailures(games[..|games| - 1], responses) + 1
  }

  /** The `j`-th game fails and closes a run of at least `max_failures` failures in a row. */
  predicate StopsAt(games: seq<MissingGame>, j: nat, responses: map<string, seq<Response>>, maxFailures: int)
    requires 0 < j <= |games|
  {
    Fails(responses, games[j - 1]) && TrailingFailures(games[..j], responses) >= maxFailures
  }

  /**
   * While the batch runs, the failures-in-a-row counter is the number of
   * failing games at the end of the prefix; the batch has stopped exactly
   * when some game closed a run of `max_failures` failures.
   */
  lemma {:induction false} StopsIff(games: seq<MissingGame>, responses: map<string, seq<Response>>,
                                    found: map<int, PlayerRecord>, minPlayers: int, maxFailures: int,
                                    players: map<int, PlayerRecord>, stats: map<string, map<int, StatRecord>>)
    ensures var st := BatchRun(games, responses, found, minPlayers, maxFailures, Start(players, stats));
      && (!st.stopped ==> st.consecutive == TrailingFailures(games, responses))
      && (st.stopped <==> exists j :: 0 < j <= |games| && StopsAt(games, j, responses, maxFailures))
  {
    if games != [] {
      var front := games[..|games| - 1];
      var g := games[|games| - 1];
      StopsIff(front, responses, found, minPlayers, maxFailures, players, stats);
      var st := BatchRun(front, responses, found, minPlayers, maxFailures, Start(players, stats));
      StepStops(st, g, responses, found, minPlayers, maxFailures);
      StopsAtPrefix(games, responses, maxFailures);
      assert games[..|games|] == games;
      if st.stopped {
        var j :| 0 < j <= |front| && StopsAt(front, j, responses, maxFailures);
        assert StopsAt(games, j, responses, maxFailures);
      } else {
        assert forall j :: 0 < j < |games| ==> !StopsAt(games, j, responses, maxFailures);
        assert TrailingFailures(games, responses) == if Fails(responses, g) then st.consecutive + 1 else 0;
        assert StopsAt(games, |games|, responses, maxFailures) <==>
               Fails(responses, g) && st.consecutive + 1 >= maxFailures;
        if StopsAt(games, |games|, responses, maxFailures) {
          assert exists j :: 0 < j <= |games| && StopsAt(games, j, responses, maxFailures);
        }
      }
    }
  }

  /** How one step moves the stop flag and the failures-in-a-row counter. */
  lemma StepStops(st: BatchState, g: MissingGame, responses: map<string, seq<Response>>,
                  found: map<int, PlayerRecord>, minPlayers: int, maxFailures: int)
    ensures var st' := BatchStep(st, g, responses, found, minPlayers, maxFailures);
      && (st.stopped ==> st' == st)
      && (!st.stopped ==> st'.stopped == (Fails(responses, g) && st.consecutive + 1 >= maxFailures))
      && (!st.stopped ==> st'.consecutive == if Fails(responses, g) then st.consecutive + 1 else 0)
  {
  }

  /** Whether an earlier game stops the batch does not depend on the games after it. */
  lemma StopsAtPrefix(games: seq<MissingGame>, responses: map<string, seq<Response>>, maxFailures: int)
    requires games != []
    ensures forall j :: 0 < j < |games| ==>
      StopsAt(games, j, responses, maxFailures) == StopsAt(games[..|games| - 1], j, responses, maxFailures)
  {
    forall j | 0 < j < |games| ensures games[..|games| - 1][..j] == games[..j] {}
  }

  /**
   * Every game of a batch that ran to its end is exactly one of: complete,
   * failed or still incomplete.
   */
  lemma {:induction false} BatchCounts(games: seq<MissingGame>, responses: map<string, seq<Response>>,
                                       found: map<int, PlayerRecord>, minPlayers: int, maxFailures: int,
                                       players: map<int, PlayerRecord>, stats: map<string, map<int, StatRecord>>)
    ensures var st := BatchRun(games, responses, found, minPlayers, maxFailures, Start(players, stats));
      && st.count + |st.failed| + |st.incomplete| <= |games|
      && (!st.stopped ==> st.count + |st.failed| + |st.incomplete| == |games|)
  {
    if games != [] {
      BatchCounts(games[..|games| - 1], responses, found, minPlayers, maxFailures, players, stats);
    }
  }

  /** Every game that it lists as failed fails all three attempts. */
  lemma {:induction false} FailedFail(games: seq<MissingGame>, responses: map<string, seq<Response>>,
                                      found: map<int, PlayerRecord>, minPlayers: int, maxFailures: int,
                                      players: map<int, PlayerRecord>, stats: map<string, map<int, StatRecord>>)
    ensures forall id :: id in BatchRun(games, responses, found, minPlayers, maxFailures, Start(players, stats)).failed ==>
      exists k :: 0 <= k < |games| && games[k].gameId == id && Fails(responses, games[k])
  {
    if games != [] {
      var front := games[..|games| - 1];
      FailedFail(front, responses, found, minPlayers, maxFailures, players, stats);
      assert forall k :: 0 <= k < |front| ==> games[k] == front[k];
    }
  }
}
