/**
 * The cache-management dialog of
 * app/src/components/settings/CacheManagementModal.tsx: the prediction
 * entries grouped by date (lines 86-111), the selection and delete handlers
 * (lines 221-258, 272-297), the time-period sort key (lines 196-197) and the
 * label helpers (lines 329-347). Rendering, the days-ago column computed
 * from the clock, and the engine's `sort` are not part of this model.
 */
module CacheModal {
  import opened Wrappers
  import opened Text
  import opened JsText
  import CacheKeys

  /** The kind of a listed entry. */
  datatype EntryKind = Prediction | PickFinder | Trends

  function KindName(k: EntryKind): string {
    match k
    case Prediction => "prediction"
    case PickFinder => "pickFinder"
    case Trends => "trends"
  }

  /** An entry handed to the dialog: its cache key, kind, size, time and model list. */
  datatype Entry = Entry(date: string, kind: EntryKind, size: nat, cachedAt: int, models: Option<string>)

  /** The date of a key: the part before the models marker when there is one. */
  function BaseDateOf(date: string): string {
    if Contains(date, CacheKeys.ModelsTag) then SplitOn(date, CacheKeys.ModelsTag)[0] else date
  }

  /** The grouping key: the base date, '-', the kind. */
  function GroupKey(e: Entry): string {
    BaseDateOf(e.date) + "-" + KindName(e.kind)
  }

  /** The number of '|'-separated model names; none when there is no (or an empty) model list. */
  function ModelCount(e: Entry): (n: nat)
    ensures n == 0 <==> e.models.None? || e.models.value == ""
  {
    if e.models.Some? && e.models.value != "" then |Split(e.models.value, '|')| else 0
  }

  /** A row of the dialog: the entries sharing a grouping key. */
  datatype Group = Group(key: string, baseDate: string, totalSize: nat, cachedAt: int, modelCount: nat,
                         originalKeys: seq<string>)

  function Max(a: int, b: int): int {
    if a >= b then a else b
  }

  /** The row an entry opens. */
  function NewGroup(e: Entry): Group {
    Group(GroupKey(e), BaseDateOf(e.date), e.size, e.cachedAt, ModelCount(e), [e.date])
  }

  /** An entry joining a row: sizes added, the latest time and the largest model count kept, its key appended. */
  function Merge(g: Group, e: Entry): Group {
    g.(totalSize := g.totalSize + e.size, cachedAt := Max(g.cachedAt, e.cachedAt),
       modelCount := Max(g.modelCount, ModelCount(e)) as nat, originalKeys := g.originalKeys + [e.date])
  }

  /** The position of the row with a key, as the `Map` lookup finds it. */
  function FindGroup(groups: seq<Group>, key: string): (r: Option<nat>)
    ensures r.Some? ==> r.value < |groups| && groups[r.value].key == key
    ensures r.None? ==> forall i :: 0 <= i < |groups| ==> groups[i].key != key
  {
    if groups == [] then None
    else if groups[0].key == key then Some(0)
    else
      var rest := FindGroup(groups[1..], key);
      if rest.None? then None else Some(rest.value + 1)
  }

  /** One entry of the `forEach`: into its row if there is one, else a new row at the end. */
  function GroupStep(groups: seq<Group>, e: Entry): seq<Group> {
    match FindGroup(groups, GroupKey(e))
    case None => groups + [NewGroup(e)]
    case Some(i) => groups[i := Merge(groups[i], e)]
  }

  /** The rows after every entry, in the order their keys first appear. */
  function GroupRun(entries: seq<Entry>): seq<Group> {
    if entries == [] then [] else GroupStep(GroupRun(entries[..|entries| - 1]), entries[|entries| - 1])
  }

  /** The grouping loop. */
  method GroupEntries(entries: seq<Entry>) returns (groups: seq<Group>)
    ensures groups == GroupRun(entries)
  {
    groups := [];
    for i := 0 to |entries|
      invariant groups == GroupRun(entries[..i])
    {
      assert entries[..i + 1][..i] == entries[..i];
      assert GroupRun(entries[..i + 1]) == GroupStep(GroupRun(entries[..i]), entries[i]);
      ghost var before := groups;
      var entry := entries[i];
      var key := GroupKey(entry);
      var existing := FindGroup(groups, key);
      if existing.Some? {
        var g := groups[existing.value];
        groups := groups[existing.value := Merge(g, entry)];
      } else {
        groups := groups + [NewGroup(entry)];
      }
      assert groups == GroupStep(before, entry);
    }
    assert entries[..|entries|] == entries;
  }

  // ---- the reference: a row is the set of entries with its key ------------

  /** The entries with a grouping key, in order. */
  function Members(entries: seq<Entry>, key: string): seq<Entry> {
    if entries == [] then []
    else
      var last := entries[|entries| - 1];
      Members(entries[..|entries| - 1], key) + (if GroupKey(last) == key then [last] else [])
  }

  function SizeTotal(es: seq<Entry>): nat {
    if es == [] then 0 else SizeTotal(es[..|es| - 1]) + es[|es| - 1].size
  }

  function LatestCachedAt(es: seq<Entry>): int
    requires es != []
  {
    if |es| == 1 then es[0].cachedAt else Max(LatestCachedAt(es[..|es| - 1]), es[|es| - 1].cachedAt)
  }

  function MostModels(es: seq<Entry>): nat
    requires es != []
  {
    if |es| == 1 then ModelCount(es[0]) else Max(MostModels(es[..|es| - 1]), ModelCount(es[|es| - 1])) as nat
  }

  function Dates(es: seq<Entry>): seq<string> {
    if es == [] then [] else Dates(es[..|es| - 1]) + [es[|es| - 1].date]
  }

  /** A row summarises its members: summed size, latest time, largest model count, their keys in order. */
  predicate Summarises(g: Group, ms: seq<Entry>) {
    ms != [] && g.totalSize == SizeTotal(ms) && g.cachedAt == LatestCachedAt(ms) &&
    g.modelCount == MostModels(ms) && g.originalKeys == Dates(ms) && g.baseDate == BaseDateOf(ms[0].date)
  }

  /** The rows of a list of entries: distinct keys, one per key that occurs, each summarising its members. */
  predicate GroupsOf(groups: seq<Group>, entries: seq<Entry>) {
    (forall i, j :: 0 <= i < j < |groups| ==> groups[i].key != groups[j].key) &&
    (forall k :: 0 <= k < |entries| ==> FindGroup(groups, GroupKey(entries[k])).Some?) &&
    (forall i :: 0 <= i < |groups| ==> Summarises(groups[i], Members(entries, groups[i].key)))
  }

  /** A key with members is the key of one of the entries. */
  lemma {:induction false} MemberWitness(entries: seq<Entry>, key: string) returns (k: nat)
    requires Members(entries, key) != []
    ensures k < |entries| && GroupKey(entries[k]) == key
  {
    var front := entries[..|entries| - 1];
    if GroupKey(entries[|entries| - 1]) == key {
      k := |entries| - 1;
    } else {
      k := MemberWitness(front, key);
    }
  }

  /** The rows of the grouping are exactly the groups of entries sharing a key. */
  lemma {:induction false} GroupRunGroups(entries: seq<Entry>)
    ensures GroupsOf(GroupRun(entries), entries)
  {
    if entries != [] {
      var front := entries[..|entries| - 1];
      var e := entries[|entries| - 1];
      GroupRunGroups(front);
      assert entries == front + [e];
      assert GroupRun(entries) == GroupStep(GroupRun(front), e);
      StepGroups(GroupRun(front), front, e, entries, GroupRun(entries));
    }
  }

  /** One more entry, into its row or into a new one, keeps the rows the groups. */
  lemma StepGroups(groups: seq<Group>, front: seq<Entry>, e: Entry, entries: seq<Entry>, next: seq<Group>)
    requires GroupsOf(groups, front)
    requires entries == front + [e] && next == GroupStep(groups, e)
    ensures GroupsOf(next, entries)
  {
    var key := GroupKey(e);
    var found := FindGroup(groups, key);
    if found.None? {
      NoRowNoMembers(groups, front, key);
      NewRowGroups(groups, front, e);
    } else {
      MergedRowGroups(groups, front, e, found.value);
    }
  }

  /** A key without a row has no members. */
  lemma NoRowNoMembers(groups: seq<Group>, entries: seq<Entry>, key: string)
    requires GroupsOf(groups, entries) && FindGroup(groups, key).None?
    ensures Members(entries, key) == []
  {
    if Members(entries, key) != [] {
      var k := MemberWitness(entries, key);
    }
  }

  /** An entry whose key has no row opens one, and the rows stay the groups. */
  lemma NewRowGroups(groups: seq<Group>, front: seq<Entry>, e: Entry)
    requires GroupsOf(groups, front)
    requires FindGroup(groups, GroupKey(e)).None? && Members(front, GroupKey(e)) == []
    ensures GroupsOf(groups + [NewGroup(e)], front + [e])
  {
    NewRowDistinct(groups, e);
    NewRowSummaries(groups, front, e);
    NewRowFound(groups, front, e);
  }

  /** The new row's key is not among the others. */
  lemma NewRowDistinct(groups: seq<Group>, e: Entry)
    requires forall i, j :: 0 <= i < j < |groups| ==> groups[i].key != groups[j].key
    requires FindGroup(groups, GroupKey(e)).None?
    ensures var next := groups + [NewGroup(e)];
      forall i, j :: 0 <= i < j < |next| ==> next[i].key != next[j].key
  {
    var next := groups + [NewGroup(e)];
    forall i, j | 0 <= i < j < |next| ensures next[i].key != next[j].key {
      assert next[i] == groups[i];
      if j < |groups| {
        assert next[j] == groups[j];
      }
    }
  }

  /** After a new row every row summarises its members. */
  lemma NewRowSummaries(groups: seq<Group>, front: seq<Entry>, e: Entry)
    requires forall i :: 0 <= i < |groups| ==> Summarises(groups[i], Members(front, groups[i].key))
    requires FindGroup(groups, GroupKey(e)).None? && Members(front, GroupKey(e)) == []
    ensures var next := groups + [NewGroup(e)];
      forall i :: 0 <= i < |next| ==> Summarises(next[i], Members(front + [e], next[i].key))
  {
    var entries := front + [e];
    var next := groups + [NewGroup(e)];
    assert entries[..|entries| - 1] == front;
    forall i | 0 <= i < |next| ensures Summarises(next[i], Members(entries, next[i].key)) {
      if i < |groups| {
        assert next[i] == groups[i];
        assert groups[i].key != GroupKey(e);
        assert Members(entries, groups[i].key) == Members(front, groups[i].key);
      } else {
        assert next[i] == NewGroup(e);
        assert Members(entries, GroupKey(e)) == [e];
      }
    }
  }

  /** After a new row every entry finds its row. */
  lemma NewRowFound(groups: seq<Group>, front: seq<Entry>, e: Entry)
    requires forall k :: 0 <= k < |front| ==> FindGroup(groups, GroupKey(front[k])).Some?
    ensures var next := groups + [NewGroup(e)];
      forall k :: 0 <= k < |front + [e]| ==> FindGroup(next, GroupKey((front + [e])[k])).Some?
  {
    var entries := front + [e];
    var next := groups + [NewGroup(e)];
    forall k | 0 <= k < |entries| ensures FindGroup(next, GroupKey(entries[k])).Some? {
      if k < |front| {
        assert entries[k] == front[k];
        var i := FindGroup(groups, GroupKey(front[k])).value;
        assert next[i] == groups[i];
        assert next[i].key == GroupKey(front[k]);
      } else {
        assert next[|groups|].key == GroupKey(e);
      }
    }
  }

  /** An entry whose key has a row joins it, and the rows stay the groups. */
  lemma MergedRowGroups(groups: seq<Group>, front: seq<Entry>, e: Entry, at: nat)
    requires GroupsOf(groups, front)
    requires at < |groups| && groups[at].key == GroupKey(e)
    ensures GroupsOf(groups[at := Merge(groups[at], e)], front + [e])
  {
    MergedRowSummaries(groups, front, e, at);
    MergedRowFound(groups, front, e, at);
  }

  /** After a merge every row still summarises its members. */
  lemma MergedRowSummaries(groups: seq<Group>, front: seq<Entry>, e: Entry, at: nat)
    requires GroupsOf(groups, front)
    requires at < |groups| && groups[at].key == GroupKey(e)
    ensures var next := groups[at := Merge(groups[at], e)];
      forall i :: 0 <= i < |next| ==> Summarises(next[i], Members(front + [e], next[i].key))
  {
    var entries := front + [e];
    var next := groups[at := Merge(groups[at], e)];
    assert entries[..|entries| - 1] == front;
    forall i | 0 <= i < |next| ensures Summarises(next[i], Members(entries, next[i].key)) {
      var ms := Members(front, groups[i].key);
      if i == at {
        assert Members(entries, groups[i].key) == ms + [e];
        assert (ms + [e])[..|ms|] == ms;
        assert (ms + [e])[0] == ms[0];
      } else {
        assert Members(entries, groups[i].key) == ms;
      }
    }
  }

  /** After a merge every entry still finds its row. */
  lemma MergedRowFound(groups: seq<Group>, front: seq<Entry>, e: Entry, at: nat)
    requires GroupsOf(groups, front)
    requires at < |groups| && groups[at].key == GroupKey(e)
    ensures var next := groups[at := Merge(groups[at], e)];
      forall k :: 0 <= k < |front + [e]| ==> FindGroup(next, GroupKey((front + [e])[k])).Some?
  {
    var entries := front + [e];
    var next := groups[at := Merge(groups[at], e)];
    forall k | 0 <= k < |entries| ensures FindGroup(next, GroupKey(entries[k])).Some? {
      if k < |front| {
        assert entries[k] == front[k];
        var i := FindGroup(groups, GroupKey(front[k])).value;
        assert next[i].key == GroupKey(front[k]);
      } else {
        assert next[at].key == GroupKey(e);
      }
    }
  }

  // ---- totals ---------------------------------------------------------------

  /** The total of the size column. */
  function RowsSize(rows: seq<Group>): nat {
    if rows == [] then 0 else RowsSize(rows[..|rows| - 1]) + rows[|rows| - 1].totalSize
  }

  lemma {:induction false} RowsSizeUpdate(rows: seq<Group>, i: nat, g: Group)
    requires i < |rows|
    ensures RowsSize(rows[i := g]) + rows[i].totalSize == RowsSize(rows) + g.totalSize
  {
    var front := rows[..|rows| - 1];
    if i < |rows| - 1 {
      RowsSizeUpdate(front, i, g);
      assert rows[i := g][..|rows| - 1] == front[i := g];
    } else {
      assert rows[i := g][..|rows| - 1] == front;
    }
  }

  /** The rows' sizes add up to the sizes of all the entries. */
  lemma {:induction false} GroupSizesTotal(entries: seq<Entry>)
    ensures RowsSize(GroupRun(entries)) == SizeTotal(entries)
  {
    if entries != [] {
      var front := entries[..|entries| - 1];
      var e := entries[|entries| - 1];
      GroupSizesTotal(front);
      var groups := GroupRun(front);
      match FindGroup(groups, GroupKey(e))
      case None =>
        assert (groups + [NewGroup(e)])[..|groups|] == groups;
      case Some(i) =>
        RowsSizeUpdate(groups, i, Merge(groups[i], e));
    }
  }

  // ---- the selection --------------------------------------------------------

  /** `togglePrediction` / `toggleModelPerf`: the one value changes membership, no other does. */
  function Toggle(selected: set<string>, x: string): (r: set<string>)
    ensures x in r <==> x !in selected
    ensures forall y :: y != x ==> (y in r <==> y in selected)
  {
    if x in selected then selected - {x} else selected + {x}
  }

  /** Toggling twice gives back the selection. */
  lemma ToggleTwice(selected: set<string>, x: string)
    ensures Toggle(Toggle(selected, x), x) == selected
  {
    var once := Toggle(selected, x);
    var twice := Toggle(once, x);
    assert forall y :: y in twice <==> y in selected;
  }

  /** The base dates of the rows. */
  function BaseDates(rows: seq<Group>): set<string> {
    set i | 0 <= i < |rows| :: rows[i].baseDate
  }

  /** Select-all: clears when as many values are selected as there are rows, else selects every row. */
  function SelectAll(selected: set<string>, rows: seq<Group>): set<string> {
    if |selected| == |rows| then {} else BaseDates(rows)
  }

  /** Rows with distinct dates have as many dates as rows. */
  lemma {:induction false} BaseDatesCount(rows: seq<Group>)
    requires forall i, j :: 0 <= i < j < |rows| ==> rows[i].baseDate != rows[j].baseDate
    ensures |BaseDates(rows)| == |rows|
  {
    if rows != [] {
      var front := rows[..|rows| - 1];
      BaseDatesCount(front);
      assert BaseDates(rows) == BaseDates(front) + {rows[|rows| - 1].baseDate} by {
        forall x | x in BaseDates(rows) ensures x in BaseDates(front) + {rows[|rows| - 1].baseDate} {
          var i :| 0 <= i < |rows| && rows[i].baseDate == x;
          if i < |front| {
            assert front[i] == rows[i];
          }
        }
        forall x | x in BaseDates(front) ensures x in BaseDates(rows) {
          var i :| 0 <= i < |front| && front[i].baseDate == x;
          assert rows[i] == front[i];
        }
        assert rows[|rows| - 1].baseDate in BaseDates(rows);
      }
      assert rows[|rows| - 1].baseDate !in BaseDates(front);
    }
  }

  /**
   * On rows with distinct dates, a partial selection becomes every row, and
   * pressing select-all once more clears it.
   */
  lemma SelectAllTwice(selected: set<string>, rows: seq<Group>)
    requires forall i, j :: 0 <= i < j < |rows| ==> rows[i].baseDate != rows[j].baseDate
    requires |selected| != |rows|
    ensures forall i :: 0 <= i < |rows| ==> rows[i].baseDate in SelectAll(selected, rows)
    ensures SelectAll(SelectAll(selected, rows), rows) == {}
  {
    BaseDatesCount(rows);
  }

  /** The keys the delete button passes: the original keys of the selected rows, row by row. */
  function SelectedKeys(rows: seq<Group>, selected: set<string>): seq<string> {
    if rows == [] then []
    else
      var last := rows[|rows| - 1];
      SelectedKeys(rows[..|rows| - 1], selected) + (if last.baseDate in selected then last.originalKeys else [])
  }

  /** A key is passed exactly when it is an original key of a selected row. */
  lemma {:induction false} SelectedKeysMembers(rows: seq<Group>, selected: set<string>, key: string)
    ensures key in SelectedKeys(rows, selected) <==>
      exists i :: 0 <= i < |rows| && rows[i].baseDate in selected && key in rows[i].originalKeys
  {
    if rows != [] {
      var front := rows[..|rows| - 1];
      SelectedKeysMembers(front, selected, key);
      if exists i :: 0 <= i < |front| && front[i].baseDate in selected && key in front[i].originalKeys {
        var i :| 0 <= i < |front| && front[i].baseDate in selected && key in front[i].originalKeys;
        assert rows[i] == front[i];
      }
      if exists i :: 0 <= i < |rows| && rows[i].baseDate in selected && key in rows[i].originalKeys {
        var i :| 0 <= i < |rows| && rows[i].baseDate in selected && key in rows[i].originalKeys;
        if i < |front| {
          assert front[i] == rows[i];
        }
      }
    }
  }

  /**
   * `handleDeletePredictions`: nothing happens without a selection; otherwise
   * the keys of the selected rows are collected, row by row.
   */
  method KeysToDelete(rows: seq<Group>, selected: set<string>) returns (request: Option<seq<string>>)
    ensures selected == {} ==> request.None?
    ensures selected != {} ==> request == Some(SelectedKeys(rows, selected))
  {
    if |selected| == 0 {
      return None;
    }
    var keys: seq<string> := [];
    for i := 0 to |rows|
      invariant keys == SelectedKeys(rows[..i], selected)
    {
      assert rows[..i + 1][..i] == rows[..i];
      if rows[i].baseDate in selected {
        keys := keys + rows[i].originalKeys;
      }
    }
    assert rows[..|rows|] == rows;
    request := Some(keys);
  }

  /** Equal grouping keys mean equal base dates: the kind names end in different letters. */
  lemma GroupKeySameDate(a: Entry, b: Entry)
    requires GroupKey(a) == GroupKey(b)
    ensures BaseDateOf(a.date) == BaseDateOf(b.date)
  {
    var ka := GroupKey(a);
    assert ka[|ka| - 1] == KindName(a.kind)[|KindName(a.kind)| - 1];
    assert ka[|ka| - 1] == KindName(b.kind)[|KindName(b.kind)| - 1];
    assert a.kind == b.kind;
    assert ka[..|BaseDateOf(a.date)|] == BaseDateOf(a.date);
    assert ka[..|BaseDateOf(b.date)|] == BaseDateOf(b.date);
  }

  /** Every member of a key has its date among the first member's dates. */
  lemma {:induction false} MembersShareDate(entries: seq<Entry>, key: string, k: nat)
    requires k < |entries| && GroupKey(entries[k]) == key
    ensures Members(entries, key) != []
    ensures BaseDateOf(Members(entries, key)[0].date) == BaseDateOf(entries[k].date)
    ensures entries[k].date in Dates(Members(entries, key))
  {
    var front := entries[..|entries| - 1];
    var last := entries[|entries| - 1];
    var ms := Members(front, key);
    var tail := if GroupKey(last) == key then [last] else [];
    assert Members(entries, key) == ms + tail;
    if k < |front| {
      assert front[k] == entries[k];
      MembersShareDate(front, key, k);
      DatesAppend(ms, tail);
    } else {
      assert tail == [last] && entries[k] == last;
      if ms != [] {
        assert GroupKey(ms[0]) == key by {
          MembersHaveKey(front, key);
        }
        GroupKeySameDate(ms[0], last);
      }
      DatesAppend(ms, [last]);
      assert Dates([last]) == [last.date];
    }
  }

  lemma {:induction false} MembersHaveKey(entries: seq<Entry>, key: string)
    ensures forall m :: m in Members(entries, key) ==> GroupKey(m) == key
  {
    if entries != [] {
      MembersHaveKey(entries[..|entries| - 1], key);
    }
  }

  lemma {:induction false} DatesAppend(a: seq<Entry>, b: seq<Entry>)
    ensures a != [] ==> (a + b)[0] == a[0]
    ensures Dates(a + b) == Dates(a) + Dates(b)
    ensures forall d :: d in Dates(a) ==> d in Dates(a + b)
    decreases |b|
  {
    if b != [] {
      assert (a + b)[..|a + b| - 1] == a + b[..|b| - 1];
      DatesAppend(a, b[..|b| - 1]);
    } else {
      assert a + b == a;
    }
  }

  /**
   * Selecting the date of an entry passes that entry's key to the delete:
   * every listed key whose base date is selected is among the keys passed.
   */
  lemma DeleteCoversSelected(entries: seq<Entry>, selected: set<string>, k: nat)
    requires k < |entries| && BaseDateOf(entries[k].date) in selected
    ensures entries[k].date in SelectedKeys(GroupRun(entries), selected)
  {
    var rows := GroupRun(entries);
    GroupRunGroups(entries);
    var key := GroupKey(entries[k]);
    var i := FindGroup(rows, key).value;
    MembersShareDate(entries, key, k);
    SelectedKeysMembers(rows, selected, entries[k].date);
  }

  // ---- sorting and labels ---------------------------------------------------

  datatype SortDirection = Asc | Desc

  /** The sort handlers: the current field flips direction, another field is taken descending. */
  function HandleSort<F(==)>(field: F, direction: SortDirection, clicked: F): (r: (F, SortDirection))
    ensures r.0 == clicked
    ensures clicked == field ==> r.1 != direction
    ensures clicked != field ==> r.1 == Desc
  {
    if clicked == field then (field, if direction == Asc then Desc else Asc) else (clicked, Desc)
  }

  /** Clicking the same field twice gives back the order. */
  lemma SortClickTwice<F>(field: F, direction: SortDirection, clicked: F)
    ensures var once := HandleSort(field, direction, clicked);
      HandleSort(once.0, once.1, clicked).0 == clicked &&
      (clicked == field ==> HandleSort(once.0, once.1, clicked).1 == direction)
  {
  }

  /** The numeric sort key of a time period: 'all' is 999999, any other its `parseInt` (`None` for NaN). */
  function TimePeriodValue(timePeriod: string): Option<int> {
    if timePeriod == "all" then Some(999999) else ParseIntJs(timePeriod)
  }

  /** A period written as a number below 999999 sorts before 'all' in ascending order. */
  lemma AllSortsLast(days: nat)
    requires days < 999999
    ensures TimePeriodValue(NatToString(days)) == Some(days as int)
    ensures TimePeriodValue("all").value - TimePeriodValue(NatToString(days)).value > 0
  {
    ParseIntJsOfNat(days);
    assert NatToString(days) != "all" by {
      assert IsDigit(NatToString(days)[0]);
    }
  }

  /** A number as JavaScript prints it, NaN for `None`. */
  function NumberText(n: Option<int>): string {
    if n.None? then "NaN" else IntToString(n.value)
  }

  /** `formatTimePeriod`. */
  function FormatTimePeriod(timePeriod: string): string {
    if timePeriod == "all" then "All time" else "Last " + NumberText(ParseIntJs(timePeriod)) + " days"
  }

  /** A period written as a number is labelled with that number. */
  lemma PeriodLabel(days: nat)
    ensures FormatTimePeriod(NatToString(days)) == "Last " + NatToString(days) + " days"
    ensures FormatTimePeriod("all") == "All time"
  {
    AllSortsLast(0);
    ParseIntJsOfNat(days);
    assert NatToString(days) != "all" by {
      assert IsDigit(NatToString(days)[0]);
    }
  }

  /** The labels of the known stats. */
  function StatLabel(stat: string): Option<string> {
    match stat
    case "points" => Some("Points")
    case "rebounds" => Some("Rebounds")
    case "assists" => Some("Assists")
    case "steals" => Some("Steals")
    case "blocks" => Some("Blocks")
    case "turnovers" => Some("Turnovers")
    case "threePointers" => Some("3-Pointers")
    case "overall" => Some("Overall")
    case _ => None
  }

  /** `formatStat`: a known stat's label, any other stat unchanged. */
  function FormatStat(stat: string): (r: string)
    ensures StatLabel(stat).Some? ==> r == StatLabel(stat).value
    ensures StatLabel(stat).None? ==> r == stat
  {
    if StatLabel(stat).Some? then StatLabel(stat).value else stat
  }

  /** A stat is shown unchanged exactly when it is not a known one: every label differs from its key. */
  lemma StatShownAsIs(stat: string)
    ensures FormatStat(stat) == stat <==> StatLabel(stat).None?
  {
    if StatLabel(stat).Some? {
      assert StatLabel(stat).value[0] != stat[0];
    }
  }
}
