/**
 * The players-table record built from a `CommonPlayerInfo` row: the parsing
 * inside `add_missing_player` (src/data_collection/collect_player_stats.py:
 * 57-92, repeated in collect_batch.py:58-93) and the height and draft
 * parsing that src/data_collection/collect_players.py:63-81 shares with it.
 *
 * The request itself is not part of this model: its outcome is an input.
 */
module PlayerInfo {
  import opened Wrappers
  import opened Text
  import opened PyValues

  /** The cells of the first `CommonPlayerInfo` row; a missing key holds the default `get` supplies. */
  datatype InfoRow = InfoRow(displayFirstLast: Value, firstName: Value, lastName: Value, teamId: Value,
                             jersey: Value, position: Value, height: Value, weight: Value,
                             birthdate: Value, draftYear: Value, draftRound: Value, draftNumber: Value)

  /** What `CommonPlayerInfo` gives for a player: an exception, an empty frame, or a first row. */
  datatype InfoResponse = Failed | Empty | Found(info: InfoRow)

  /** A row of the players table. */
  datatype PlayerRecord = PlayerRecord(playerId: int, fullName: Option<string>, firstName: Option<string>,
                                       lastName: Option<string>, isActive: bool, teamId: Option<int>,
                                       jersey: Option<string>, position: Option<string>,
                                       heightInches: Option<int>, weightLbs: Option<int>,
                                       birthDate: Option<string>, draft: Draft)

  /** Draft year, round and number. */
  datatype Draft = Draft(year: Option<int>, round: Option<int>, number: Option<int>)

  /**
   * The height in inches: a text "F-I" that splits on '-' into exactly two
   * integers gives 12·F + I; anything else, and any `int` that raises, gives
   * `None`.
   */
  function HeightInches(height: Option<string>): (r: Option<int>)
    ensures height.None? || '-' !in height.value ==> r.None?
    ensures r.Some? ==> |Split(height.value, '-')| == 2
    ensures r.Some? ==> r == HeightOfParts(Split(height.value, '-'))
  {
    if height.Some? && height.value != "" && '-' in height.value then
      var parts := Split(height.value, '-');
      if |parts| == 2 then HeightOfParts(parts) else None
    else None
  }

  /** 12 · feet + inches, once both pieces parse. */
  function HeightOfParts(parts: seq<string>): Option<int>
    requires |parts| == 2
  {
    match (ParseInt(parts[0]), ParseInt(parts[1]))
    case (Some(feet), Some(inches)) => Some(feet * 12 + inches)
    case _ => None
  }

  /** Every height written as "F-I" reads back as 12·F + I. */
  lemma HeightReadsBack(feet: nat, inches: nat)
    ensures HeightInches(Some(NatToString(feet) + "-" + NatToString(inches))) == Some(12 * feet + inches)
  {
    var f := NatToString(feet);
    var i := NatToString(inches);
    assert '-' !in f && '-' !in i;
    var h := f + "-" + i;
    assert h[|f|] == '-';
    SplitPair(f, '-', i);
    assert Split(h, '-') == [f, i];
    assert HeightOfParts([f, i]) == Some(12 * feet + inches) by {
      NatToStringValue(feet);
      NatToStringValue(inches);
      ParseDigits(f);
      ParseDigits(i);
    }
  }

  /** A text split on '-' into two pieces has its only '-' between them. */
  lemma OnlyDash(h: string)
    requires |Split(h, '-')| == 2
    ensures forall k :: 0 <= k < |h| && h[k] == '-' ==> k == |Split(h, '-')[0]|
  {
    var parts := Split(h, '-');
    JoinSplit(h, '-');
    SplitPartsFree(h, '-');
    assert h == parts[0] + "-" + parts[1];
    forall k | 0 <= k < |h| && k != |parts[0]|
      ensures h[k] != '-'
    {
      if k < |parts[0]| {
        assert h[k] == parts[0][k];
      } else if k > |parts[0]| {
        assert h[k] == parts[1][k - |parts[0]| - 1];
      }
    }
  }

  /** A height with more than one '-' is not a height. */
  lemma HeightNeedsOneDash(a: string, b: string, c: string)
    ensures HeightInches(Some(a + "-" + b + "-" + c)).None?
  {
    var h := a + "-" + b + "-" + c;
    assert h[|a|] == '-';
    assert h[|a| + 1 + |b|] == '-';
    if |Split(h, '-')| == 2 {
      OnlyDash(h);
    }
  }

  /** The draft year reads "undrafted" in any letter case. */
  predicate Undrafted(year: Option<string>) {
    year.Some? && year.value != "" && Lower(year.value) == "undrafted"
  }

  /** `safe_int` of a `safe_str` result: `None` stays `None`. */
  function IntOfText(t: Option<string>): Option<int> {
    if t.None? then None else SafeInt(Str(t.value))
  }

  /**
   * The draft fields: an undrafted player has none of the three, otherwise
   * each is the `safe_int` of its text.
   */
  function DraftOf(year: Option<string>, round: Option<string>, number: Option<string>): (d: Draft)
    ensures Undrafted(year) ==> d == Draft(None, None, None)
    ensures !Undrafted(year) ==> d == Draft(IntOfText(year), IntOfText(round), IntOfText(number))
  {
    if Undrafted(year) then Draft(None, None, None)
    else Draft(IntOfText(year), IntOfText(round), IntOfText(number))
  }

  /** A draft year that is a number is never taken for "undrafted", and is kept. */
  lemma DraftYearKept(year: nat, round: Option<string>, number: Option<string>)
    ensures DraftOf(Some(NatToString(year)), round, number).year == Some(year)
  {
    var y := NatToString(year);
    assert !Undrafted(Some(y)) by {
      assert |Lower(y)| == |y|;
      if |y| == 9 {
        assert Lower(y)[0] == LowerChar(y[0]) && IsDigit(y[0]);
      }
    }
    SafeIntReadsBack(year);
  }

  /**
   * The record `add_missing_player` inserts: `safe_str`/`safe_int` of the
   * cells, a team id of 0 replaced by `None`, inactive, with the parsed
   * height and draft.
   */
  function MissingPlayerRecord(playerId: int, info: InfoRow): (r: PlayerRecord)
    ensures r.playerId == playerId && !r.isActive
    ensures r.teamId != Some(0)
    ensures SafeInt(info.teamId) != Some(0) ==> r.teamId == SafeInt(info.teamId)
    ensures r.heightInches == HeightInches(SafeStr(info.height))
    ensures Undrafted(SafeStr(info.draftYear)) ==> r.draft == Draft(None, None, None)
  {
    var team := SafeInt(info.teamId);
    PlayerRecord(playerId, SafeStr(info.displayFirstLast), SafeStr(info.firstName), SafeStr(info.lastName),
                 false, if team == Some(0) then None else team,
                 SafeStr(info.jersey), SafeStr(info.position), HeightInches(SafeStr(info.height)),
                 SafeInt(info.weight), SafeStr(info.birthdate),
                 DraftOf(SafeStr(info.draftYear), SafeStr(info.draftRound), SafeStr(info.draftNumber)))
  }
}
