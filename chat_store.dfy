/**
 * The browser store of chat histories: one record per (user, feature) pair, kept under the
 * composite key `userId_featureKey`. Store failures are an input (`failed`): they are logged and
 * swallowed, so a failing save or clear changes nothing and a failing load finds nothing.
 */
module ChatStore {
  import opened Wrappers
  import opened Text
  import opened Types

  /** A stored history; `lastUpdated` is the clock reading at the save. */
  datatype HistoryRecord = HistoryRecord(
    id: string,
    userId: string,
    featureKey: FeatureKey,
    history: seq<ChatMessage>,
    lastUpdated: int)

  /** `getCompositeKey`: the user id, an underscore, the feature key's value. */
  function CompositeKey(userId: string, featureKey: FeatureKey): string
  {
    userId + "_" + FeatureKeyValue(featureKey)
  }

  /** With no underscore after it, the separator is the last underscore of the key. */
  lemma LastUnderscore(u: string, v: string)
    requires '_' !in v
    ensures LastIndexOf(u + "_" + v, '_') == |u|
  {
    var s := u + "_" + v;
    assert s[|u|] == '_';
    assert s[|u| + 1..] == v;
  }

  /** Feature keys hold no underscore, so distinct (user, feature) pairs never share a key. */
  lemma CompositeKeyInjective(u1: string, f1: FeatureKey, u2: string, f2: FeatureKey)
    requires CompositeKey(u1, f1) == CompositeKey(u2, f2)
    ensures u1 == u2 && f1 == f2
  {
    var k := CompositeKey(u1, f1);
    LastUnderscore(u1, FeatureKeyValue(f1));
    LastUnderscore(u2, FeatureKeyValue(f2));
    assert |u1| == |u2|;
    assert u1 == k[..|u1|] == u2;
    assert FeatureKeyValue(f1) == k[|u1| + 1..] == FeatureKeyValue(f2);
    FeatureKeyValueInjective(f1, f2);
  }

  /** Every record is stored under the composite key of its own user and feature. */
  predicate WellKeyed(m: map<string, HistoryRecord>)
  {
    forall k :: k in m ==> m[k].id == k && k == CompositeKey(m[k].userId, m[k].featureKey)
  }

  /** The records after `saveChatHistory`. */
  function Saved(m: map<string, HistoryRecord>, userId: string, featureKey: FeatureKey,
                 history: seq<ChatMessage>, now: int, failed: bool): (r: map<string, HistoryRecord>)
    ensures userId == [] || failed ==> r == m
    ensures userId != [] && !failed ==> CompositeKey(userId, featureKey) in r && r.Keys == m.Keys + {CompositeKey(userId, featureKey)}
    ensures forall k :: k in m && k != CompositeKey(userId, featureKey) ==> k in r && r[k] == m[k]
  {
    if userId == [] || failed then m
    else
      var key := CompositeKey(userId, featureKey);
      m[key := HistoryRecord(key, userId, featureKey, history, now)]
  }

  /** What `loadChatHistory` returns: the stored history, or nothing. */
  function Loaded(m: map<string, HistoryRecord>, userId: string, featureKey: FeatureKey, failed: bool): (r: Option<seq<ChatMessage>>)
    ensures userId == [] || failed ==> r.None?
    ensures r.Some? <==> userId != [] && !failed && CompositeKey(userId, featureKey) in m
    ensures r.Some? ==> r.value == m[CompositeKey(userId, featureKey)].history
  {
    if userId == [] || failed then None
    else
      var key := CompositeKey(userId, featureKey);
      if key in m then Some(m[key].history) else None
  }

  /** The records after `clearChatHistory`. */
  function Cleared(m: map<string, HistoryRecord>, userId: string, featureKey: FeatureKey, failed: bool): (r: map<string, HistoryRecord>)
    ensures userId == [] || failed ==> r == m
    ensures userId != [] && !failed ==> r.Keys == m.Keys - {CompositeKey(userId, featureKey)}
    ensures forall k :: k in r ==> k in m && r[k] == m[k]
  {
    if userId == [] || failed then m
    else m - {CompositeKey(userId, featureKey)}
  }

  /** The records after `clearAllUserChatHistory`: those of other users. */
  function ClearedAll(m: map<string, HistoryRecord>, userId: string, failed: bool): (r: map<string, HistoryRecord>)
    ensures userId == [] || failed ==> r == m
    ensures userId != [] && !failed ==> forall k :: k in r <==> k in m && m[k].userId != userId
    ensures forall k :: k in r ==> k in m && r[k] == m[k]
  {
    if userId == [] || failed then m
    else map k | k in m && m[k].userId != userId :: m[k]
  }

  /** The store as the page sees it. */
  class ChatHistoryStore {
    var records: map<string, HistoryRecord>

    ghost predicate Valid()
      reads this
    {
      WellKeyed(records)
    }

    constructor ()
      ensures records == map[] && Valid()
    {
      records := map[];
    }

    /** `saveChatHistory`: puts the record under its key, replacing any earlier one. */
    method SaveChatHistory(userId: string, featureKey: FeatureKey, history: seq<ChatMessage>, now: int, failed: bool)
      requires Valid()
      modifies this`records
      ensures Valid()
      ensures records == Saved(old(records), userId, featureKey, history, now, failed)
    {
      if userId == [] {
        return;
      }
      if failed {
        return;
      }
      var key := CompositeKey(userId, featureKey);
      records := records[key := HistoryRecord(key, userId, featureKey, history, now)];
    }

    /** `loadChatHistory`. */
    method LoadChatHistory(userId: string, featureKey: FeatureKey, failed: bool) returns (h: Option<seq<ChatMessage>>)
      ensures h == Loaded(records, userId, featureKey, failed)
    {
      if userId == [] {
        return None;
      }
      if failed {
        return None;
      }
      var key := CompositeKey(userId, featureKey);
      if key in records {
        h := Some(records[key].history);
      } else {
        h := None;
      }
    }

    /** `clearChatHistory`: deletes the one record. */
    method ClearChatHistory(userId: string, featureKey: FeatureKey, failed: bool)
      requires Valid()
      modifies this`records
      ensures Valid()
      ensures records == Cleared(old(records), userId, featureKey, failed)
    {
      if userId == [] || failed {
        return;
      }
      records := records - {CompositeKey(userId, featureKey)};
    }

    /** `clearAllUserChatHistory`: walks the user's records and deletes them one at a time. */
    method ClearAllUserChatHistory(userId: string, failed: bool)
      requires Valid()
      modifies this`records
      ensures Valid()
      ensures records == ClearedAll(old(records), userId, failed)
    {
      if userId == [] || failed {
        return;
      }
      var pending := set k | k in records && records[k].userId == userId;
      ghost var start := records;
      while pending != {}
        invariant pending <= start.Keys
        invariant forall k :: k in pending ==> start[k].userId == userId
        invariant forall k :: k in records <==> k in start && (start[k].userId != userId || k in pending)
        invariant forall k :: k in records ==> records[k] == start[k]
        decreases pending
      {
        var k :| k in pending;
        records := records - {k};
        pending := pending - {k};
      }
      assert records == ClearedAll(start, userId, false);
    }
  }

  // ---------------------------------------------------------------------
  // What a sequence of calls observes

  /** Saving and then loading the same pair gives back the saved history. */
  lemma LoadAfterSave(m: map<string, HistoryRecord>, userId: string, featureKey: FeatureKey, history: seq<ChatMessage>, now: int)
    requires userId != []
    ensures Loaded(Saved(m, userId, featureKey, history, now, false), userId, featureKey, false) == Some(history)
  {
  }

  /** A save leaves what every other pair loads unchanged. */
  lemma SaveKeepsOthers(m: map<string, HistoryRecord>, userId: string, featureKey: FeatureKey, history: seq<ChatMessage>,
                        now: int, failed: bool, otherUser: string, otherKey: FeatureKey, loadFailed: bool)
    requires (otherUser, otherKey) != (userId, featureKey)
    ensures Loaded(Saved(m, userId, featureKey, history, now, failed), otherUser, otherKey, loadFailed)
         == Loaded(m, otherUser, otherKey, loadFailed)
  {
    if CompositeKey(otherUser, otherKey) == CompositeKey(userId, featureKey) {
      CompositeKeyInjective(otherUser, otherKey, userId, featureKey);
    }
  }

  /** A save keeps every record under its own key. */
  lemma SaveKeepsWellKeyed(m: map<string, HistoryRecord>, userId: string, featureKey: FeatureKey, history: seq<ChatMessage>, now: int, failed: bool)
    requires WellKeyed(m)
    ensures WellKeyed(Saved(m, userId, featureKey, history, now, failed))
  {
  }

  /** Nothing loads from an empty store. */
  lemma NothingSavedLoadsNothing(userId: string, featureKey: FeatureKey, failed: bool)
    ensures Loaded(map[], userId, featureKey, failed).None?
  {
  }

  /** After clearing a pair it loads nothing, and every other pair loads as before. */
  lemma ClearRemovesOnlyItsPair(m: map<string, HistoryRecord>, userId: string, featureKey: FeatureKey,
                                otherUser: string, otherKey: FeatureKey)
    requires userId != []
    ensures Loaded(Cleared(m, userId, featureKey, false), userId, featureKey, false).None?
    ensures (otherUser, otherKey) != (userId, featureKey) ==>
      Loaded(Cleared(m, userId, featureKey, false), otherUser, otherKey, false) == Loaded(m, otherUser, otherKey, false)
  {
    if (otherUser, otherKey) != (userId, featureKey) && CompositeKey(otherUser, otherKey) == CompositeKey(userId, featureKey) {
      CompositeKeyInjective(otherUser, otherKey, userId, featureKey);
    }
  }

  /** After clearing a user, none of their features loads anything; other users' features load as before. */
  lemma ClearAllRemovesOnlyThatUser(m: map<string, HistoryRecord>, userId: string, featureKey: FeatureKey, otherUser: string)
    requires WellKeyed(m) && userId != []
    ensures Loaded(ClearedAll(m, userId, false), userId, featureKey, false).None?
    ensures otherUser != userId ==>
      Loaded(ClearedAll(m, userId, false), otherUser, featureKey, false) == Loaded(m, otherUser, featureKey, false)
  {
    var key := CompositeKey(userId, featureKey);
    if key in m {
      CompositeKeyInjective(m[key].userId, m[key].featureKey, userId, featureKey);
    }
    var other := CompositeKey(otherUser, featureKey);
    if other in m {
      CompositeKeyInjective(m[other].userId, m[other].featureKey, otherUser, featureKey);
    }
  }
}
