/**
 * The notification-state cleanup of app/src/lib/localStorageCleanup.ts: on
 * login every notification key of another user is removed (lines 8-47), on
 * logout every notification key (lines 52-71). The login rule as written
 * (`Removes`) compares only the last '-' piece of a key with the user's id;
 * the cleanup method applies the corrected rule (`RemovesStale`), which
 * agrees with it for ids without '-'. Local storage is the map field of
 * `LocalStorage`; the logging is not part of this model.
 */
module LocalStorageCleanup {
  import opened Wrappers
  import opened Text
  import opened JsText
  import Sets

  /** The prefix of every notification key, "courtvision-notified-{type}-{userId}". */
  const NotifiedPrefix: string := "courtvision-notified-"

  /** A key the login cleanup looks at. */
  predicate Listed(key: string) {
    StartsWith(key, NotifiedPrefix) && '-' in key
  }

  /** A user id that passes `if (currentUserId)`: present and not empty. */
  predicate SignedIn(currentUserId: Option<string>) {
    currentUserId.Some? && currentUserId.value != ""
  }

  /**
   * The login cleanup as written removes a listed key when it splits on '-'
   * into at least four parts, a user is signed in, and the last part is not
   * that user's id.
   */
  predicate Removes(key: string, currentUserId: Option<string>) {
    var parts := Split(key, '-');
    Listed(key) && |parts| >= 4 && SignedIn(currentUserId) && parts[|parts| - 1] != currentUserId.value
  }

  /** The key under which a user's notification state of one type is kept. */
  function NotifiedKey(kind: string, userId: string): string {
    NotifiedPrefix + kind + "-" + userId
  }

  class LocalStorage {
    /** The stored items. */
    var items: map<string, string>

    constructor (items: map<string, string>)
      ensures this.items == items
    {
      this.items := items;
    }

    /**
     * `cleanupLocalStorage` with the key-ownership test corrected: exactly the
     * keys `RemovesStale` picks go, everything else stays, and the count is
     * the number removed. For user ids without '-' this is the rule as
     * written (`RulesAgree`).
     */
    method CleanupLocalStorage(currentUserId: Option<string>) returns (removedCount: nat)
      modifies this
      ensures items == old(items) - RemovedKeys(old(items).Keys, currentUserId)
      ensures removedCount == |RemovedKeys(old(items).Keys, currentUserId)|
      ensures removedCount == |old(items).Keys| - |items.Keys|
    {
      removedCount := 0;
      var all := items;
      var unseen := all.Keys;
      ghost var removed: set<string> := {};
      while unseen != {}
        invariant unseen <= all.Keys
        invariant removed == RemovedKeys(all.Keys - unseen, currentUserId)
        invariant items == all - removed
        invariant removedCount == |removed|
        decreases unseen
      {
        var key :| key in unseen;
        CleanupStep(all, unseen, key, removed, currentUserId);
        var remove := false;
        if StartsWith(key, NotifiedPrefix) && '-' in key {
          var parts := Split(key, '-');
          if |parts| >= 4 && SignedIn(currentUserId) {
            var suffix := "-" + currentUserId.value;
            remove := !(|suffix| <= |key| && key[|key| - |suffix|..] == suffix);
          }
        }
        assert remove == RemovesStale(key, currentUserId);
        if remove {
          items := items - {key};
          removed := removed + {key};
          removedCount := removedCount + 1;
        }
        unseen := unseen - {key};
      }
      Sets.MinusSize(all, removed);
    }

    /** `clearNotificationStorage`: exactly the keys with the notification prefix go. */
    method ClearNotificationStorage() returns (clearedCount: nat)
      modifies this
      ensures items == old(items) - NotificationKeys(old(items).Keys)
      ensures clearedCount == |old(items).Keys| - |items.Keys|
    {
      clearedCount := 0;
      var all := items;
      var unseen := all.Keys;
      ghost var removed: set<string> := {};
      while unseen != {}
        invariant unseen <= all.Keys
        invariant removed == NotificationKeys(all.Keys - unseen)
        invariant items == all - removed
        invariant clearedCount == |removed|
        decreases unseen
      {
        var key :| key in unseen;
        ClearStep(all, unseen, key, removed);
        if StartsWith(key, NotifiedPrefix) {
          items := items - {key};
          removed := removed + {key};
          clearedCount := clearedCount + 1;
        }
        unseen := unseen - {key};
      }
      Sets.MinusSize(all, removed);
    }
  }

  /** The keys among `keys` the corrected login cleanup removes. */
  function RemovedKeys(keys: set<string>, currentUserId: Option<string>): set<string> {
    set k | k in keys && RemovesStale(k, currentUserId)
  }

  /** The keys among `keys` with the notification prefix. */
  function NotificationKeys(keys: set<string>): set<string> {
    set k | k in keys && StartsWith(k, NotifiedPrefix)
  }

  /** One key of the login cleanup looked at: the keys removed so far, their number and the items left. */
  lemma CleanupStep(all: map<string, string>, unseen: set<string>, key: string, removed: set<string>, currentUserId: Option<string>)
    requires key in unseen && unseen <= all.Keys && removed == RemovedKeys(all.Keys - unseen, currentUserId)
    ensures var now := if RemovesStale(key, currentUserId) then removed + {key} else removed;
      now == RemovedKeys(all.Keys - (unseen - {key}), currentUserId) &&
      |now| == |removed| + (if RemovesStale(key, currentUserId) then 1 else 0) &&
      all - now == (all - removed) - (if RemovesStale(key, currentUserId) then {key} else {})
  {
    var now := if RemovesStale(key, currentUserId) then removed + {key} else removed;
    assert now == RemovedKeys(all.Keys - (unseen - {key}), currentUserId) by {
      assert all.Keys - (unseen - {key}) == (all.Keys - unseen) + {key};
    }
    if RemovesStale(key, currentUserId) {
      assert key !in removed;
      Sets.GrowByOne(removed, key);
      Sets.MinusOneMore(all, removed, key);
    }
  }

  /** One key of the logout cleanup looked at. */
  lemma ClearStep(all: map<string, string>, unseen: set<string>, key: string, removed: set<string>)
    requires key in unseen && unseen <= all.Keys && removed == NotificationKeys(all.Keys - unseen)
    ensures var now := if StartsWith(key, NotifiedPrefix) then removed + {key} else removed;
      now == NotificationKeys(all.Keys - (unseen - {key})) &&
      |now| == |removed| + (if StartsWith(key, NotifiedPrefix) then 1 else 0) &&
      all - now == (all - removed) - (if StartsWith(key, NotifiedPrefix) then {key} else {})
  {
    var now := if StartsWith(key, NotifiedPrefix) then removed + {key} else removed;
    assert now == NotificationKeys(all.Keys - (unseen - {key})) by {
      assert all.Keys - (unseen - {key}) == (all.Keys - unseen) + {key};
    }
    if StartsWith(key, NotifiedPrefix) {
      assert key !in removed;
      Sets.GrowByOne(removed, key);
      Sets.MinusOneMore(all, removed, key);
    }
  }

  /** Without a signed-in user, and for keys without the prefix, nothing is removed. */
  lemma NothingRemovedWithout(key: string, currentUserId: Option<string>)
    ensures !SignedIn(currentUserId) ==> !Removes(key, currentUserId) && !RemovesStale(key, currentUserId)
    ensures !StartsWith(key, NotifiedPrefix) ==> !Removes(key, currentUserId) && !RemovesStale(key, currentUserId)
  {
  }

  /** Every notification key is listed by the login cleanup. */
  lemma KeyListed(kind: string, userId: string)
    ensures Listed(NotifiedKey(kind, userId))
  {
    var key := NotifiedKey(kind, userId);
    assert key[..|NotifiedPrefix|] == NotifiedPrefix;
    assert key[|NotifiedPrefix| - 1] == '-';
  }

  /** The last '-' piece of a notification key is what follows the key's last '-'. */
  lemma KeyLast(kind: string, front: string, last: string)
    requires '-' !in last
    ensures var parts := Split(NotifiedKey(kind, front + "-" + last), '-'); parts[|parts| - 1] == last
  {
    var a := NotifiedPrefix + kind + "-" + front;
    assert NotifiedKey(kind, front + "-" + last) == a + "-" + last;
    SplitLast(a, '-', last);
  }

  /**
   * Another user's key is removed; the signed-in user's own key survives when
   * the id has no '-'.
   */
  lemma OtherUsersRemoved(kind: string, userId: string, currentUserId: string)
    requires '-' !in userId && currentUserId != ""
    ensures Removes(NotifiedKey(kind, userId), Some(currentUserId)) <==> userId != currentUserId
  {
    assert NotifiedKey(kind, userId) == (NotifiedPrefix + kind) + "-" + userId;
    SplitLast(NotifiedPrefix + kind, '-', userId);
    KeyListed(kind, userId);
    FourParts(kind, userId);
  }

  /** Every notification key has at least four parts. */
  lemma FourParts(kind: string, userId: string)
    ensures |Split(NotifiedKey(kind, userId), '-')| >= 4
  {
    var tail := kind + "-" + userId;
    assert NotifiedKey(kind, userId) == NotifiedPrefix + tail;
    PrefixSplit(tail);
    assert tail[|kind|] == '-';
  }

  /** The prefix contributes the two pieces "courtvision" and "notified". */
  lemma PrefixSplit(tail: string)
    ensures Split(NotifiedPrefix + tail, '-') == ["courtvision", "notified"] + Split(tail, '-')
  {
    var p1 := "courtvision";
    var p2 := "notified";
    var t2 := p2 + "-" + tail;
    assert NotifiedPrefix == p1 + "-" + p2 + "-";
    assert NotifiedPrefix + tail == p1 + "-" + t2;
    SplitCons(p2, '-', tail);
    SplitCons(p1, '-', t2);
  }

  /**
   * As written, a signed-in user whose id contains '-' loses their own
   * notification keys: only the last '-' piece of the key is compared.
   */
  lemma OwnKeyRemoved(kind: string, first: string, last: string)
    requires first != "" && '-' !in last
    ensures Removes(NotifiedKey(kind, first + "-" + last), Some(first + "-" + last))
  {
    KeyLast(kind, first, last);
    KeyListed(kind, first + "-" + last);
    FourParts(kind, first + "-" + last);
    assert |last| < |first + "-" + last|;
  }

  /**
   * The rule the cleanup evidently intends: a listed key is stale when a user
   * is signed in and the key does not end with "-" and that user's id.
   */
  predicate RemovesStale(key: string, currentUserId: Option<string>) {
    var suffix := if currentUserId.Some? then "-" + currentUserId.value else "";
    Listed(key) && |Split(key, '-')| >= 4 && SignedIn(currentUserId) &&
    !(|suffix| <= |key| && key[|key| - |suffix|..] == suffix)
  }

  /** With the intended rule the signed-in user's own keys are kept, whatever the id. */
  lemma OwnKeyKept(kind: string, userId: string)
    ensures !RemovesStale(NotifiedKey(kind, userId), Some(userId))
  {
    var key := NotifiedKey(kind, userId);
    var suffix := "-" + userId;
    assert key == NotifiedPrefix + kind + suffix;
    assert key[|key| - |suffix|..] == suffix;
  }

  /** For ids without '-' the intended rule agrees with the cleanup as written on every user's key. */
  lemma RulesAgree(kind: string, userId: string, currentUserId: string)
    requires '-' !in userId && '-' !in currentUserId && currentUserId != ""
    ensures RemovesStale(NotifiedKey(kind, userId), Some(currentUserId)) <==>
      Removes(NotifiedKey(kind, userId), Some(currentUserId))
  {
    var key := NotifiedKey(kind, userId);
    var suffix := "-" + currentUserId;
    OtherUsersRemoved(kind, userId, currentUserId);
    FourParts(kind, userId);
    if userId == currentUserId {
      OwnKeyKept(kind, userId);
    } else if |suffix| <= |key| && key[|key| - |suffix|..] == suffix {
      SameTail(NotifiedPrefix + kind, userId, currentUserId, key);
    }
  }

  /** Two '-'-free ids that both end a string right after a '-' are equal. */
  lemma SameTail(a: string, u: string, v: string, key: string)
    requires '-' !in u && '-' !in v && key == a + "-" + u
    requires |"-" + v| <= |key| && key[|key| - |"-" + v|..] == "-" + v
    ensures u == v
  {
    var n := |key|;
    assert key[n - |v| - 1] == '-' && key[n - |u| - 1] == '-';
    assert |u| == |v|;
    assert key[n - |u|..] == u;
    assert key[n - |v|..] == key[n - |v| - 1..][1..] == v;
  }
}
