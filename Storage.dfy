// Browser local storage as both scripts use it: a map from key to the JSON
// value stored under it (the text `JSON.stringify` wrote, read back by
// `JSON.parse`), and the append-to-array pattern behind every event log.

module Storage {
  import opened JsValues

  type Store = map<string, Json>

  /** The referral context (written by both scripts). */
  const ReferralKey := "trackwarranty_referral"
  /** The unbounded event log. */
  const AnalyticsKey := "trackwarranty_analytics"
  /** The event log kept when no analytics hook is installed, capped at the last entries. */
  const GaFallbackKey := "ga_fallback_events"
  const GaFallbackCap := 50

  /**
   * `JSON.parse(localStorage.getItem(key) || '[]')` as an array: no entry
   * reads as the empty array; a stored value that is not an array gives None,
   * because calling `push` on it raises a TypeError.
   */
  function ReadLog(store: Store, key: string): Option<seq<Json>>
  {
    if key !in store then Some([])
    else if store[key].JArr? then Some(store[key].elems)
    else None
  }

  /** Writing one key leaves the log under any other key as it reads. */
  lemma ReadLogOtherWrite(store: Store, written: string, value: Json, key: string)
    requires written != key
    ensures ReadLog(store[written := value], key) == ReadLog(store, key)
  {
  }

  /** Every key other than `key` holds what it held before. */
  predicate OthersUnchanged(before: Store, after: Store, key: string)
  {
    after - {key} == before - {key}
  }

  /**
   * Reads the array under `key`, pushes `entry` and writes the array back.
   * When the stored value is not an array the push throws and nothing is written.
   */
  function AppendLog(store: Store, key: string, entry: Json): (r: Store)
    ensures ReadLog(store, key).Some? ==> ReadLog(r, key) == Some(ReadLog(store, key).value + [entry])
    ensures ReadLog(store, key).None? ==> r == store
    ensures OthersUnchanged(store, r, key)
  {
    match ReadLog(store, key)
    case Some(log) => store[key := JArr(log + [entry])]
    case None => store
  }

  /** `s.slice(-n)`: the last `n` elements, or all of them when there are fewer. */
  function LastN<T>(s: seq<T>, n: nat): seq<T>
  {
    if |s| <= n then s else s[|s| - n..]
  }

  /** Pushes `entry` and writes back only the last `cap` entries. */
  function AppendCapped(store: Store, key: string, entry: Json, cap: nat): (r: Store)
    ensures ReadLog(store, key).Some? ==> ReadLog(r, key) == Some(LastN(ReadLog(store, key).value + [entry], cap))
    ensures ReadLog(store, key).None? ==> r == store
    ensures OthersUnchanged(store, r, key)
  {
    match ReadLog(store, key)
    case Some(log) => store[key := JArr(LastN(log + [entry], cap))]
    case None => store
  }

  /**
   * The capped log: at most `cap` entries, the newest entry last, the
   * survivors are the newest entries in their original order, and nothing is
   * dropped while there is room.
   */
  lemma CappedLogFacts<T>(log: seq<T>, entry: T, cap: nat)
    requires cap > 0
    ensures var r := LastN(log + [entry], cap);
      && |r| <= cap
      && |r| > 0 && r[|r| - 1] == entry
      && (exists d :: 0 <= d <= |log| && r == (log + [entry])[d..])
      && (|log| < cap ==> r == log + [entry])
      && (|log| >= cap ==> r == log[|log| + 1 - cap..] + [entry])
  {
    var s := log + [entry];
    var r := LastN(s, cap);
    if |s| <= cap {
      assert r == s[0..];
    } else {
      assert r == s[|s| - cap..];
      assert s[|s| - cap..] == log[|log| + 1 - cap..] + [entry];
    }
  }
}
