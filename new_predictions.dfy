/**
 * The new-predictions notifier of app/src/hooks/useNewPredictions.ts: the
 * prediction counts of today and tomorrow are fetched (lines 34-66), each
 * count is compared with the count remembered for its date, a notice goes
 * out when the count has grown from a non-zero count, and the remembered
 * counts are updated and persisted per user (lines 19-31 and 71-105).
 * Dates are the 'yyyy-MM-dd' strings the hook formats; the database answers
 * are a parameter, one per date.
 */
module NewPredictions {
  import opened Wrappers
  import opened Text
  import LocalStorageCleanup

  /** The two dates checked: today's and tomorrow's. */
  function DatesToCheck(today: string, tomorrow: string): (dates: seq<string>)
    ensures |dates| == 2
    ensures forall d :: d in dates <==> d == today || d == tomorrow
  {
    [today, tomorrow]
  }

  /** The query runs only for a signed-in user outside do-not-disturb. */
  predicate QueryEnabled(user: Option<string>, doNotDisturb: bool) {
    user.Some? && !doNotDisturb
  }

  /** The answer to one count query: the count (null when absent) and whether it failed. */
  datatype CountResponse = CountResponse(count: Option<int>, failed: bool)

  predicate Usable(r: CountResponse) {
    !r.failed && r.count.Some?
  }

  /** A JavaScript `Map<string, number>` as its entries in insertion order. */
  type Entries = seq<(string, int)>

  predicate DistinctKeys(m: Entries) {
    forall i, j :: 0 <= i < j < |m| ==> m[i].0 != m[j].0
  }

  predicate HasKey(m: Entries, k: string) {
    exists i :: 0 <= i < |m| && m[i].0 == k
  }

  /** `map.set(k, v)`: an existing key keeps its place with the new value, a new key goes last. */
  function MapSet(m: Entries, k: string, v: int): (r: Entries)
    requires DistinctKeys(m)
    ensures DistinctKeys(r)
    ensures (k, v) in r
    ensures forall e :: e in r ==> e.0 == k || e in m
    ensures forall e :: e in m && e.0 != k ==> e in r
    decreases |m|
  {
    if |m| == 0 then [(k, v)]
    else if m[0].0 == k then [(k, v)] + m[1..]
    else
      var rest := MapSet(m[1..], k, v);
      assert forall e :: e in rest ==> e.0 == k || e in m[1..];
      [m[0]] + rest
  }

  /**
   * The counts the query function collects: one entry per date whose query
   * succeeded with a count, later dates overwriting earlier equal ones.
   */
  function Fetched(dates: seq<string>, responses: seq<CountResponse>): (m: Entries)
    requires |responses| == |dates|
    ensures DistinctKeys(m)
    ensures forall e :: e in m ==> e.0 in dates
    decreases |dates|
  {
    if |dates| == 0 then []
    else
      var n := |dates| - 1;
      var front := Fetched(dates[..n], responses[..n]);
      if Usable(responses[n]) then MapSet(front, dates[n], responses[n].count.value) else front
  }

  /**
   * For distinct dates, a date's count is collected exactly when its query
   * succeeded with a count, and it is that count.
   */
  lemma {:induction false} FetchedExactly(dates: seq<string>, responses: seq<CountResponse>, k: nat)
    requires |responses| == |dates| && k < |dates|
    requires forall i, j :: 0 <= i < j < |dates| ==> dates[i] != dates[j]
    ensures HasKey(Fetched(dates, responses), dates[k]) <==> Usable(responses[k])
    ensures Usable(responses[k]) ==> (dates[k], responses[k].count.value) in Fetched(dates, responses)
    decreases |dates|
  {
    var n := |dates| - 1;
    var front := Fetched(dates[..n], responses[..n]);
    if k < n {
      FetchedExactly(dates[..n], responses[..n], k);
      if Usable(responses[n]) {
        var r := MapSet(front, dates[n], responses[n].count.value);
        assert dates[k] != dates[n];
        if Usable(responses[k]) {
          assert (dates[k], responses[k].count.value) in r;
        }
      }
    }
  }

  /**
   * The query function: no user gives an empty map, otherwise the dates are
   * queried in order and each usable count is set.
   */
  method FetchCounts(user: Option<string>, dates: seq<string>, responses: seq<CountResponse>) returns (counts: Entries)
    requires |responses| == |dates|
    ensures counts == if user.None? then [] else Fetched(dates, responses)
  {
    if user.None? {
      return [];
    }
    counts := [];
    for i := 0 to |dates|
      invariant counts == Fetched(dates[..i], responses[..i])
    {
      assert dates[..i + 1][..i] == dates[..i];
      assert responses[..i + 1][..i] == responses[..i];
      if !responses[i].failed && responses[i].count.Some? {
        counts := MapSet(counts, dates[i], responses[i].count.value);
      }
    }
    assert dates[..|dates|] == dates && responses[..|responses|] == responses;
  }

  /** One refetch: nothing when the query is disabled, otherwise the counts collected. */
  method Poll(user: Option<string>, doNotDisturb: bool, dates: seq<string>, responses: seq<CountResponse>)
    returns (data: Option<Entries>)
    requires |responses| == |dates|
    ensures data.None? <==> !QueryEnabled(user, doNotDisturb)
    ensures data.Some? ==> data.value == Fetched(dates, responses)
  {
    if !QueryEnabled(user, doNotDisturb) {
      return None;
    }
    var counts := FetchCounts(user, dates, responses);
    return Some(counts);
  }

  /** A notification: the date, its dateLabel, the number of new predictions, the text and the tag. */
  datatype Notice = Notice(date: string, dateLabel: string, newCount: int, message: string, tag: string)

  const NoticeTitle: string := "New Predictions Available"

  /** `previous.get(date) || 0`: the remembered count, 0 for a date never seen. */
  function PrevCount(previous: map<string, int>, date: string): int {
    if date in previous then previous[date] else 0
  }

  /** A notice goes out when the count has grown from a non-zero count. */
  predicate Fires(count: int, previousCount: int) {
    count > previousCount && previousCount > 0
  }

  /** The text of a notice: "{n} new prediction(s) available for {dateLabel}". */
  function NoticeMessage(newCount: int, dateLabel: string): string {
    IntToString(newCount) + " new prediction" + (if newCount > 1 then "s" else "") + " available for " + dateLabel
  }

  /** The notice for a date whose count grew from `previousCount`. */
  function MakeNotice(today: string, date: string, count: int, previousCount: int): (n: Notice)
    ensures n.newCount == count - previousCount
    ensures n.dateLabel == (if date == today then "today" else "tomorrow")
    ensures n.date == date && n.tag == "new-predictions-" + date
  {
    var dateLabel := if date == today then "today" else "tomorrow";
    Notice(date, dateLabel, count - previousCount, NoticeMessage(count - previousCount, dateLabel), "new-predictions-" + date)
  }

  /**
   * The effect's work for one entry: the notice if it fires, and the count
   * remembered for the date afterwards.
   */
  function Step(previous: map<string, int>, today: string, date: string, count: int): (r: (map<string, int>, Option<Notice>))
    ensures r.1.Some? <==> Fires(count, PrevCount(previous, date))
    ensures r.1.Some? ==> r.1.value.newCount > 0 && r.1.value.date == date
    ensures r.0.Keys == previous.Keys + {date} && r.0[date] == count
    ensures forall d :: d in previous && d != date ==> r.0[d] == previous[d]
  {
    var previousCount := PrevCount(previous, date);
    var notice := if Fires(count, previousCount) then Some(MakeNotice(today, date, count, previousCount)) else None;
    (previous[date := count], notice)
  }

  /** The notices of a run with the remembered counts, in the order of the entries. */
  function Run(previous: map<string, int>, today: string, data: Entries): (map<string, int>, seq<Notice>)
    decreases |data|
  {
    if |data| == 0 then (previous, [])
    else
      var n := |data| - 1;
      var front := Run(previous, today, data[..n]);
      var step := Step(front.0, today, data[n].0, data[n].1);
      (step.0, front.1 + (if step.1.Some? then [step.1.value] else []))
  }

  /**
   * The notices as each entry would be judged against the counts remembered
   * before the effect ran.
   */
  function Announcements(previous: map<string, int>, today: string, data: Entries): seq<Notice>
    decreases |data|
  {
    if |data| == 0 then []
    else
      var n := |data| - 1;
      var (d, c) := data[n];
      Announcements(previous, today, data[..n]) +
      (if Fires(c, PrevCount(previous, d)) then [MakeNotice(today, d, c, PrevCount(previous, d))] else [])
  }

  /** Every notice announces a positive number of new predictions. */
  lemma {:induction false} NoticesPositive(previous: map<string, int>, today: string, data: Entries)
    ensures forall k :: 0 <= k < |Run(previous, today, data).1| ==> Run(previous, today, data).1[k].newCount > 0
    decreases |data|
  {
    if |data| > 0 {
      NoticesPositive(previous, today, data[..|data| - 1]);
    }
  }

  /** Afterwards every fetched date remembers its fetched count. */
  lemma {:induction false} RunRemembers(previous: map<string, int>, today: string, data: Entries)
    requires DistinctKeys(data)
    ensures forall k :: 0 <= k < |data| ==> data[k].0 in Run(previous, today, data).0 && Run(previous, today, data).0[data[k].0] == data[k].1
    decreases |data|
  {
    if |data| > 0 {
      var n := |data| - 1;
      RunRemembers(previous, today, data[..n]);
      var front := Run(previous, today, data[..n]).0;
      assert Run(previous, today, data).0 == front[data[n].0 := data[n].1];
      forall k | 0 <= k < n ensures data[k].0 in front && front[data[k].0] == data[k].1 && data[k].0 != data[n].0 {
        assert data[..n][k] == data[k];
      }
    }
  }

  /** Every date not fetched keeps what it had, remembered or not. */
  lemma {:induction false} RunKeepsOthers(previous: map<string, int>, today: string, data: Entries, d: string)
    requires !HasKey(data, d)
    ensures d in Run(previous, today, data).0 <==> d in previous
    ensures d in previous ==> Run(previous, today, data).0[d] == previous[d]
    decreases |data|
  {
    if |data| > 0 {
      var n := |data| - 1;
      assert !HasKey(data[..n], d) by {
        forall i | 0 <= i < n ensures data[..n][i].0 != d {
          assert data[..n][i] == data[i];
        }
      }
      assert d != data[n].0;
      RunKeepsOthers(previous, today, data[..n], d);
    }
  }

  /**
   * With distinct dates each entry is judged against the count remembered
   * before the effect ran, so the notices are the announcements.
   */
  lemma {:induction false} RunAnnounces(previous: map<string, int>, today: string, data: Entries)
    requires DistinctKeys(data)
    ensures Run(previous, today, data).1 == Announcements(previous, today, data)
    decreases |data|
  {
    if |data| > 0 {
      var n := |data| - 1;
      RunAnnounces(previous, today, data[..n]);
      var d := data[n].0;
      assert !HasKey(data[..n], d);
      RunKeepsOthers(previous, today, data[..n], d);
      assert PrevCount(Run(previous, today, data[..n]).0, d) == PrevCount(previous, d);
    }
  }

  /** Nothing is announced when no entry's count grew from a non-zero remembered count. */
  lemma {:induction false} NothingAnnounced(previous: map<string, int>, today: string, data: Entries)
    requires forall k :: 0 <= k < |data| ==> !Fires(data[k].1, PrevCount(previous, data[k].0))
    ensures Announcements(previous, today, data) == []
    decreases |data|
  {
    if |data| > 0 {
      NothingAnnounced(previous, today, data[..|data| - 1]);
    }
  }

  /** Dates seen for the first time never notify. */
  lemma FirstSeenSilent(previous: map<string, int>, today: string, data: Entries)
    requires DistinctKeys(data)
    requires forall k :: 0 <= k < |data| ==> data[k].0 !in previous
    ensures Run(previous, today, data).1 == []
  {
    RunAnnounces(previous, today, data);
    NothingAnnounced(previous, today, data);
  }

  /** Processing the same counts a second time never notifies. */
  lemma SecondRunSilent(previous: map<string, int>, today: string, data: Entries)
    requires DistinctKeys(data)
    ensures Run(Run(previous, today, data).0, today, data).1 == []
  {
    var after := Run(previous, today, data).0;
    RunRemembers(previous, today, data);
    RunAnnounces(after, today, data);
    NothingAnnounced(after, today, data);
  }

  /** The local-storage key of a user's remembered counts. */
  function CountsKey(userId: string): (key: string)
    ensures key == LocalStorageCleanup.NotifiedKey("prediction-counts", userId)
  {
    "courtvision-notified-prediction-counts-" + userId
  }

  class NotificationTracker {
    /** `previousPredictionCountsRef`: the count remembered per date. */
    var previous: map<string, int>
    /** Whether the remembered counts were read from local storage yet. */
    var initialized: bool
    /** The remembered counts persisted in local storage, per storage key. */
    var persisted: map<string, map<string, int>>
    /** The notifications sent so far. */
    var sent: seq<Notice>

    constructor (persisted: map<string, map<string, int>>)
      ensures previous == map[] && !initialized && sent == [] && this.persisted == persisted
    {
      previous := map[];
      initialized := false;
      this.persisted := persisted;
      sent := [];
    }

    /** The first effect: once a user is signed in, their persisted counts are read, if any. */
    method Load(userId: Option<string>)
      modifies this
      ensures if !old(initialized) && LocalStorageCleanup.SignedIn(userId) then
                initialized &&
                previous == (if CountsKey(userId.value) in persisted then persisted[CountsKey(userId.value)] else old(previous))
              else initialized == old(initialized) && previous == old(previous)
      ensures persisted == old(persisted) && sent == old(sent)
    {
      if !initialized && userId.Some? && userId.value != "" {
        var key := CountsKey(userId.value);
        if key in persisted {
          previous := persisted[key];
        }
        initialized := true;
      }
    }

    /**
     * The update effect: without data or a signed-in user nothing happens;
     * otherwise each entry is judged in order, its notice (if any) is sent and
     * its count remembered, and the remembered counts are persisted.
     */
    method ProcessCounts(data: Option<Entries>, userId: Option<string>, today: string)
      modifies this
      ensures if data.None? || !LocalStorageCleanup.SignedIn(userId) then
                previous == old(previous) && sent == old(sent) && persisted == old(persisted)
              else
                previous == Run(old(previous), today, data.value).0 &&
                sent == old(sent) + Run(old(previous), today, data.value).1 &&
                persisted == old(persisted)[CountsKey(userId.value) := previous]
      ensures initialized == old(initialized)
    {
      if data.None? || userId.None? || userId.value == "" {
        return;
      }
      var entries := data.value;
      ghost var start := previous;
      ghost var sentBefore := sent;
      for i := 0 to |entries|
        invariant previous == Run(start, today, entries[..i]).0
        invariant sent == sentBefore + Run(start, today, entries[..i]).1
        invariant persisted == old(persisted) && initialized == old(initialized)
      {
        assert entries[..i + 1][..i] == entries[..i];
        var (dateStr, count) := entries[i];
        Observe(dateStr, count, today);
      }
      assert entries[..|entries|] == entries;
      persisted := persisted[CountsKey(userId.value) := previous];
    }

    /** One entry of `forEach`: its notice, if it fires, is sent and its count remembered. */
    method Observe(dateStr: string, count: int, today: string)
      modifies this
      ensures previous == Step(old(previous), today, dateStr, count).0
      ensures var notice := Step(old(previous), today, dateStr, count).1;
        sent == old(sent) + (if notice.Some? then [notice.value] else [])
      ensures persisted == old(persisted) && initialized == old(initialized)
    {
      var previousCount := if dateStr in previous then previous[dateStr] else 0;
      if count > previousCount && previousCount > 0 {
        var dateLabel := if dateStr == today then "today" else "tomorrow";
        var newCount := count - previousCount;
        sent := sent + [Notice(dateStr, dateLabel, newCount, NoticeMessage(newCount, dateLabel), "new-predictions-" + dateStr)];
      }
      previous := previous[dateStr := count];
    }
  }
}
