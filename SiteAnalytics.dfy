// The event logs of the landing page script (script.js): the unbounded
// analytics log in local storage, and the analytics hook `gtag` with its
// capped local fallback log.

module SiteAnalytics {
  import opened JsValues
  import opened Storage

  /** What the logging functions read from the page: the clock, the path, the agent and the referrer. */
  datatype Page = Page(now: int, pathname: string, userAgent: string, referrer: string)

  // ----- the analytics log -----

  /**
   * The entry `trackEvent` logs: the event name and the caller's properties
   * spread first, then `timestamp`, `page` and `user_agent`, which win over
   * properties of the same name.
   */
  function EventEntry(eventName: string, properties: map<string, Json>, page: Page): (e: Json)
    ensures e.JObj? && e.fields.Keys == {"event", "properties"} && e.fields["event"] == JStr(eventName)
    ensures var p := e.fields["properties"];
      && p.JObj?
      && p.fields.Keys == properties.Keys + {"timestamp", "page", "user_agent"}
      && p.fields["timestamp"] == JNum(page.now)
      && p.fields["page"] == JStr(page.pathname)
      && p.fields["user_agent"] == JStr(page.userAgent)
      && forall k :: k in properties && k !in {"timestamp", "page", "user_agent"} ==> p.fields[k] == properties[k]
  {
    JObj(map[
      "event" := JStr(eventName),
      "properties" := JObj(properties + map[
        "timestamp" := JNum(page.now), "page" := JStr(page.pathname), "user_agent" := JStr(page.userAgent)])])
  }

  /** `trackEvent`: one entry pushed onto the analytics log. */
  function TrackEvent(store: Store, eventName: string, properties: map<string, Json>, page: Page): (r: Store)
    ensures ReadLog(store, AnalyticsKey).Some? ==>
      ReadLog(r, AnalyticsKey) == Some(ReadLog(store, AnalyticsKey).value + [EventEntry(eventName, properties, page)])
    ensures ReadLog(store, AnalyticsKey).None? ==> r == store
    ensures OthersUnchanged(store, r, AnalyticsKey)
  {
    AppendLog(store, AnalyticsKey, EventEntry(eventName, properties, page))
  }

  /** The entry `trackPageView` logs: the path and the referral fields of the record. */
  function PageViewEntry(referralData: map<string, Json>, page: Page): Json
  {
    JObj(map[
      "event" := JStr("page_view"),
      "page" := JStr(page.pathname),
      "invite_code" := FieldOf(referralData, "inviteCode"),
      "referrer_name" := FieldOf(referralData, "referrerName"),
      "utm_source" := FieldOf(referralData, "utmSource"),
      "timestamp" := JNum(page.now)])
  }

  /**
   * A property of the referral record. JavaScript reads a missing one as
   * undefined and `JSON.stringify` then drops that key from the entry; the
   * model writes null instead, so the entry always has all six keys.
   */
  function FieldOf(record: map<string, Json>, key: string): Json
  {
    if key in record then record[key] else JNull
  }

  /** `trackPageView`: one page-view entry pushed onto the analytics log. */
  function TrackPageView(store: Store, referralData: map<string, Json>, page: Page): (r: Store)
    ensures ReadLog(store, AnalyticsKey).Some? ==>
      ReadLog(r, AnalyticsKey) == Some(ReadLog(store, AnalyticsKey).value + [PageViewEntry(referralData, page)])
    ensures ReadLog(store, AnalyticsKey).None? ==> r == store
    ensures OthersUnchanged(store, r, AnalyticsKey)
  {
    AppendLog(store, AnalyticsKey, PageViewEntry(referralData, page))
  }

  /** The entry `trackDownloadClick` logs; the invite code is the link's `data-invite-code` attribute or null. */
  function DownloadClickEntry(platform: string, inviteCode: Option<string>, page: Page): Json
  {
    JObj(map[
      "event" := JStr("download_click"),
      "platform" := JStr(platform),
      "invite_code" := ToJson(inviteCode),
      "timestamp" := JNum(page.now),
      "page" := JStr(page.pathname),
      "referrer" := JStr(page.referrer)])
  }

  /** `trackDownloadClick`: one download entry pushed onto the analytics log. */
  function TrackDownloadClick(store: Store, platform: string, inviteCode: Option<string>, page: Page): (r: Store)
    ensures ReadLog(store, AnalyticsKey).Some? ==>
      ReadLog(r, AnalyticsKey) == Some(ReadLog(store, AnalyticsKey).value + [DownloadClickEntry(platform, inviteCode, page)])
    ensures ReadLog(store, AnalyticsKey).None? ==> r == store
    ensures OthersUnchanged(store, r, AnalyticsKey)
  {
    AppendLog(store, AnalyticsKey, DownloadClickEntry(platform, inviteCode, page))
  }

  // ----- the analytics hook and its fallback log (trackGAEvent) -----

  /** One `gtag('event', name, parameters)` call. */
  datatype GaCall = GaCall(eventName: string, parameters: map<string, Json>)

  /** What `trackGAEvent` did: the store afterwards, and the call made to `gtag`, if it was there. */
  datatype GaOutcome = GaOutcome(store: Store, sent: Option<GaCall>)

  /** The parameters sent to `gtag`: the site tag first, then the caller's parameters, which win. */
  function GtagParameters(parameters: map<string, Json>): (r: map<string, Json>)
    ensures r.Keys == parameters.Keys + {"custom_parameter_1"}
    ensures forall k :: k in parameters ==> r[k] == parameters[k]
    ensures "custom_parameter_1" !in parameters ==> r["custom_parameter_1"] == JStr("trackwarranty_website")
  {
    map["custom_parameter_1" := JStr("trackwarranty_website")] + parameters
  }

  /** The entry the fallback log keeps for one event. */
  function FallbackEntry(eventName: string, parameters: map<string, Json>, now: int): Json
  {
    JObj(map["event" := JStr(eventName), "parameters" := JObj(parameters), "timestamp" := JNum(now)])
  }

  /**
   * `trackGAEvent`: with `gtag` present the event goes to it and storage is
   * untouched; otherwise the event is pushed onto the fallback log, of which
   * only the last 50 entries are written back.
   */
  function TrackGAEvent(store: Store, gtagAvailable: bool, eventName: string, parameters: map<string, Json>, now: int): (r: GaOutcome)
    ensures gtagAvailable ==> r.store == store && r.sent == Some(GaCall(eventName, GtagParameters(parameters)))
    ensures !gtagAvailable ==> r.sent.None? && OthersUnchanged(store, r.store, GaFallbackKey)
    ensures !gtagAvailable && ReadLog(store, GaFallbackKey).None? ==> r.store == store
    ensures !gtagAvailable && ReadLog(store, GaFallbackKey).Some? ==>
      ReadLog(r.store, GaFallbackKey) ==
        Some(LastN(ReadLog(store, GaFallbackKey).value + [FallbackEntry(eventName, parameters, now)], GaFallbackCap))
  {
    if gtagAvailable then GaOutcome(store, Some(GaCall(eventName, GtagParameters(parameters))))
    else GaOutcome(AppendCapped(store, GaFallbackKey, FallbackEntry(eventName, parameters, now), GaFallbackCap), None)
  }

  /**
   * The no-hook branch, spelled out: the fallback log keeps at most 50
   * entries, the new event is the last, the survivors keep their order, and
   * nothing is dropped while the log has room.
   */
  lemma FallbackLogSpec(store: Store, eventName: string, parameters: map<string, Json>, now: int)
    requires ReadLog(store, GaFallbackKey).Some?
    ensures var log := ReadLog(store, GaFallbackKey).value;
      var e := FallbackEntry(eventName, parameters, now);
      var r := ReadLog(TrackGAEvent(store, false, eventName, parameters, now).store, GaFallbackKey).value;
      && |r| <= GaFallbackCap
      && r[|r| - 1] == e
      && (exists d :: 0 <= d <= |log| && r == (log + [e])[d..])
      && (|log| < GaFallbackCap ==> r == log + [e])
  {
    var log := ReadLog(store, GaFallbackKey).value;
    CappedLogFacts(log, FallbackEntry(eventName, parameters, now), GaFallbackCap);
  }

  /** Capping a suffix that is at least as long as the cap gives the same entries as capping the whole. */
  lemma LastNOfSuffix<T>(w: seq<T>, d: nat, n: nat)
    requires d <= |w| && |w| - d >= n
    ensures LastN(w[d..], n) == LastN(w, n)
  {
    if |w| > n {
      assert w[d..][|w| - d - n..] == w[|w| - n..];
    }
  }

  /** Capping in between and capping again at the end keeps the same entries as capping once at the end. */
  lemma LastNAbsorb<T>(s: seq<T>, t: seq<T>, n: nat)
    ensures LastN(LastN(s, n) + t, n) == LastN(s + t, n)
  {
    if |s| > n {
      var d := |s| - n;
      assert LastN(s, n) + t == (s + t)[d..];
      LastNOfSuffix(s + t, d, n);
    }
  }

  /** One `trackGAEvent` call of a run: the event, its parameters and the clock when it was made. */
  datatype GaEvent = GaEvent(name: string, parameters: map<string, Json>, at: int)

  /** The fallback entries a run of events pushes, in order, each stamped with its own time. */
  function FallbackEntries(events: seq<GaEvent>): seq<Json>
  {
    seq(|events|, k requires 0 <= k < |events| => FallbackEntry(events[k].name, events[k].parameters, events[k].at))
  }

  /** The store after a run of events sent through `trackGAEvent` without the hook. */
  function FallbackRun(store: Store, events: seq<GaEvent>): Store
    decreases |events|
  {
    if |events| == 0 then store
    else FallbackRun(TrackGAEvent(store, false, events[0].name, events[0].parameters, events[0].at).store, events[1..])
  }

  /**
   * However many events arrive, the fallback log afterwards holds the last 50
   * of all the entries ever pushed onto it, in order.
   */
  lemma {:induction false} FallbackRunSpec(store: Store, events: seq<GaEvent>)
    requires ReadLog(store, GaFallbackKey).Some?
    requires |events| > 0
    ensures ReadLog(FallbackRun(store, events), GaFallbackKey) ==
      Some(LastN(ReadLog(store, GaFallbackKey).value + FallbackEntries(events), GaFallbackCap))
    decreases |events|
  {
    var log := ReadLog(store, GaFallbackKey).value;
    var e0 := FallbackEntry(events[0].name, events[0].parameters, events[0].at);
    var s1 := TrackGAEvent(store, false, events[0].name, events[0].parameters, events[0].at).store;
    var rest := events[1..];
    assert FallbackEntries(events) == [e0] + FallbackEntries(rest);
    if |rest| == 0 {
      assert FallbackEntries(events) == [e0];
    } else {
      FallbackRunSpec(s1, rest);
      LastNAbsorb(log + [e0], FallbackEntries(rest), GaFallbackCap);
      assert log + [e0] + FallbackEntries(rest) == log + FallbackEntries(events);
    }
  }

  /**
   * A run of at most 50 events without the hook survives whole: the fallback
   * log ends with exactly its entries, in the order they were sent.
   */
  lemma FallbackRunKeepsRun(store: Store, events: seq<GaEvent>)
    requires ReadLog(store, GaFallbackKey).Some?
    requires 0 < |events| <= GaFallbackCap
    ensures ReadLog(FallbackRun(store, events), GaFallbackKey).Some?
    ensures var r := ReadLog(FallbackRun(store, events), GaFallbackKey).value;
      |r| >= |events| && r[|r| - |events|..] == FallbackEntries(events)
  {
    FallbackRunSpec(store, events);
    var s := ReadLog(store, GaFallbackKey).value + FallbackEntries(events);
    var r := LastN(s, GaFallbackCap);
    assert s[|s| - |events|..] == FallbackEntries(events);
    if |s| > GaFallbackCap {
      assert r[|r| - |events|..] == s[|s| - |events|..];
    }
  }
}
