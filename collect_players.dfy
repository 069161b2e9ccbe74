/**
 * The players collector `collect_players` of
 * src/data_collection/collect_players.py:23-123: every active player of the
 * static player list is looked up with `CommonPlayerInfo` and upserted into
 * the players table, every field of an existing row being overwritten.
 *
 * The static list and every `CommonPlayerInfo` response are inputs; the
 * periodic commits and the output are not part of this model.
 */
module CollectPlayers {
  import opened Wrappers
  import opened PyValues
  import opened PlayerInfo
  import BoxScore

  /** An entry of the static player list; a missing name key holds ''. */
  datatype ListedPlayer = ListedPlayer(id: Value, fullName: Value, firstName: Value, lastName: Value, isActive: bool)

  /** `[p for p in all_players if p['is_active']]`. */
  function ActivePlayers(all: seq<ListedPlayer>): (active: seq<ListedPlayer>)
    ensures |active| <= |all|
    ensures forall k :: 0 <= k < |active| ==> active[k].isActive && active[k] in all
  {
    if all == [] then []
    else ActivePlayers(all[..|all| - 1]) + (if all[|all| - 1].isActive then [all[|all| - 1]] else [])
  }

  /** An active player of the list is kept. */
  lemma {:induction false} ActiveKept(all: seq<ListedPlayer>, p: ListedPlayer)
    ensures p in ActivePlayers(all) <==> p in all && p.isActive
  {
    if all != [] {
      var front := all[..|all| - 1];
      ActiveKept(front, p);
      assert all == front + [all[|all| - 1]];
    }
  }

  /**
   * The upserted row: the list's names, active, and the `CommonPlayerInfo`
   * cells through this file's stricter `safe_int`, with the shared height
   * and draft parsing.
   */
  function ListedRecord(playerId: int, p: ListedPlayer, info: InfoRow): (r: PlayerRecord)
    ensures r.playerId == playerId && r.isActive == p.isActive
    ensures r.fullName == Some(StrOf(p.fullName))
    ensures r.teamId == SafeIntStrict(info.teamId) && r.weightLbs == SafeIntStrict(info.weight)
    ensures r.heightInches == HeightInches(SafeStr(info.height))
    ensures Undrafted(SafeStr(info.draftYear)) ==> r.draft == Draft(None, None, None)
  {
    PlayerRecord(playerId, Some(StrOf(p.fullName)), SafeStr(p.firstName), SafeStr(p.lastName), p.isActive,
                 SafeIntStrict(info.teamId), SafeStr(info.jersey), SafeStr(info.position),
                 HeightInches(SafeStr(info.height)), SafeIntStrict(info.weight), SafeStr(info.birthdate),
                 DraftOf(SafeStr(info.draftYear), SafeStr(info.draftRound), SafeStr(info.draftNumber)))
  }

  /** What happens to one active player: an upsert, a counted error, or nothing for an empty frame. */
  datatype PlayerOutcome = Upsert(playerId: int, record: PlayerRecord) | Error | NoInfo

  /**
   * `int(player['id'])` raising, or `CommonPlayerInfo` raising, is an error;
   * an empty frame does nothing; a first row gives the upsert.
   */
  function OutcomeOf(p: ListedPlayer, infos: map<int, InfoResponse>): PlayerOutcome {
    var id := SafeInt(p.id);
    if id.None? then Error
    else
      match BoxScore.InfoFor(infos, id.value)
      case Failed => Error
      case Empty => NoInfo
      case Found(info) => Upsert(id.value, ListedRecord(id.value, p, info))
  }

  /** The players table and the `count` and `errors` counters. */
  datatype PlayersState = PlayersState(players: map<int, PlayerRecord>, count: nat, errors: nat)

  /** One active player; the upsert overwrites an existing row. */
  function PlayerStep(st: PlayersState, o: PlayerOutcome): PlayersState {
    match o
    case Upsert(id, record) => PlayersState(st.players[id := record], st.count + 1, st.errors)
    case Error => st.(errors := st.errors + 1)
    case NoInfo => st
  }

  /** The active players one after another. */
  function PlayersRun(active: seq<ListedPlayer>, infos: map<int, InfoResponse>, st: PlayersState): PlayersState {
    if active == [] then st
    else PlayerStep(PlayersRun(active[..|active| - 1], infos, st), OutcomeOf(active[|active| - 1], infos))
  }

  /** `collect_players`: the filter, then the loop over the active players. */
  method CollectPlayersRun(all: seq<ListedPlayer>, infos: map<int, InfoResponse>, players: map<int, PlayerRecord>)
    returns (st: PlayersState)
    ensures st == PlayersRun(ActivePlayers(all), infos, PlayersState(players, 0, 0))
  {
    var active := ActivePlayers(all);
    var table := players;
    var count, errors := 0, 0;
    for i := 0 to |active|
      invariant PlayersState(table, count, errors) == PlayersRun(active[..i], infos, PlayersState(players, 0, 0))
    {
      assert active[..i + 1][..i] == active[..i];
      var player := active[i];
      var playerId := SafeInt(player.id);
      if playerId.None? {
        errors := errors + 1;
        continue;
      }
      var response := BoxScore.InfoFor(infos, playerId.value);
      match response {
        case Failed =>
          errors := errors + 1;
        case Empty =>
        case Found(info) =>
          table := table[playerId.value := ListedRecord(playerId.value, player, info)];
          count := count + 1;
      }
    }
    assert active[..|active|] == active;
    st := PlayersState(table, count, errors);
  }

  /** The ids of the upserted players, in order. */
  function UpsertedIds(active: seq<ListedPlayer>, infos: map<int, InfoResponse>): (ids: seq<int>)
    ensures |ids| <= |active|
  {
    if active == [] then []
    else
      var o := OutcomeOf(active[|active| - 1], infos);
      UpsertedIds(active[..|active| - 1], infos) + (if o.Upsert? then [o.playerId] else [])
  }

  /** The number of players whose id or lookup raised. */
  function ErrorCount(active: seq<ListedPlayer>, infos: map<int, InfoResponse>): (n: nat)
    ensures n <= |active|
  {
    if active == [] then 0
    else ErrorCount(active[..|active| - 1], infos) + (if OutcomeOf(active[|active| - 1], infos).Error? then 1 else 0)
  }

  /**
   * `count` is the number of players found by `CommonPlayerInfo` and
   * `errors` the number that raised; the rest had an empty frame. The table
   * gains the upserted ids and keeps every other row as it was.
   */
  lemma {:induction false} PlayersEffect(active: seq<ListedPlayer>, infos: map<int, InfoResponse>,
                                          players: map<int, PlayerRecord>)
    ensures var st := PlayersRun(active, infos, PlayersState(players, 0, 0));
      && st.count == |UpsertedIds(active, infos)|
      && st.errors == ErrorCount(active, infos)
      && st.count + st.errors <= |active|
      && st.players.Keys == players.Keys + (set k | 0 <= k < |UpsertedIds(active, infos)| :: UpsertedIds(active, infos)[k])
      && (forall p :: p in players && p !in UpsertedIds(active, infos) ==> st.players[p] == players[p])
  {
    if active != [] {
      var front := active[..|active| - 1];
      PlayersEffect(front, infos, players);
      var o := OutcomeOf(active[|active| - 1], infos);
      var ids := UpsertedIds(active, infos);
      var ids0 := UpsertedIds(front, infos);
      if o.Upsert? {
        assert ids == ids0 + [o.playerId];
        assert (set k | 0 <= k < |ids| :: ids[k]) == (set k | 0 <= k < |ids0| :: ids0[k]) + {o.playerId} by {
          assert forall k :: 0 <= k < |ids0| ==> ids[k] == ids0[k];
          assert ids[|ids0|] == o.playerId;
        }
      } else {
        assert ids == ids0;
      }
    }
  }

  /** Every upserted id is that of an active player of the list whose info was found. */
  lemma {:induction false} UpsertedAreActive(all: seq<ListedPlayer>, infos: map<int, InfoResponse>, id: int)
    requires id in UpsertedIds(ActivePlayers(all), infos)
    ensures exists p :: p in all && p.isActive && SafeInt(p.id) == Some(id) && BoxScore.InfoFor(infos, id).Found?
  {
    var active := ActivePlayers(all);
    var k := UpsertedIndex(active, infos, id);
    assert active[k] in all && active[k].isActive;
  }

  /** Some active player carries an upserted id. */
  lemma {:induction false} UpsertedIndex(active: seq<ListedPlayer>, infos: map<int, InfoResponse>, id: int) returns (k: nat)
    requires id in UpsertedIds(active, infos)
    ensures k < |active| && SafeInt(active[k].id) == Some(id) && BoxScore.InfoFor(infos, id).Found?
  {
    var front := active[..|active| - 1];
    if id in UpsertedIds(front, infos) {
      k := UpsertedIndex(front, infos, id);
      assert active[k] == front[k];
    } else {
      k := |active| - 1;
    }
  }

  /**
   * The draft fields of this file agree with those of `add_missing_player`:
   * on text the two `safe_int`s coincide.
   */
  lemma DraftRuleShared(t: string)
    ensures SafeIntStrict(Str(t)) == SafeInt(Str(t))
  {
    SafeIntStrictDiffers(Str(t));
  }

  /**
   * The team rules differ: a `TEAM_ID` that is the text "0" is stored as
   * team 0 here, while `add_missing_player` stores no team.
   */
  lemma TeamRulesDiffer(playerId: int, p: ListedPlayer, info: InfoRow)
    requires info.teamId == Str("0")
    ensures ListedRecord(playerId, p, info).teamId == Some(0)
    ensures MissingPlayerRecord(playerId, info).teamId.None?
  {
    SafeIntReadsBack(0);
    assert Text.IntToString(0) == "0";
  }
}
