// The invite landing page (invite-handler.js): the `InviteHandler` object,
// which resolves the referral from the URL, persists it, detects the
// platform, builds the store and deep links, and logs events; and the URL
// clean-up `handleSpecialUrls` that runs on load.

module Invite {
  import opened JsValues
  import opened UrlCodec
  import opened Storage
  import opened Devices

  const IosStoreLink := "https://apps.apple.com/app/trackwarranty"
  const AndroidStoreLink := "https://play.google.com/store/apps/details?id=app.trackwarranty"
  const DeepLinkScheme := "trackwarranty://"
  const DefaultInviteCode := "WELCOME"

  /** The `/invite/` path marker, matched without regard to ASCII case. */
  const InviteMarker := "/invite/"

  /** `window.location`: its path, its decoded query and its full text. */
  datatype Location = Location(pathname: string, query: Query, href: string)

  /** The five UTM query values, each a `string | null`. */
  datatype Utm = Utm(source: Option<string>, medium: Option<string>, campaign: Option<string>,
                     content: Option<string>, term: Option<string>)

  /** The initial `{}`: every field reads as undefined, which the handler treats like null. */
  const NoUtm := Utm(None, None, None, None, None)

  /** What the page knows besides the URL when an event is logged. */
  datatype PageContext = PageContext(now: int, userAgent: string, referrer: string, href: string)

  /** Which download buttons `updateDownloadButtons` shows. */
  datatype DownloadButtons =
    | IosComingSoon                        // the inactive App Store badge only
    | AndroidAvailable(playUrl: string)   // the active Play Store badge only
    | AllOptions(playUrl: string)         // the active Play Store badge and the inactive App Store badge

  // ----- the invite path `/\/invite\/([A-Z0-9]+)/i` -----

  /** `/invite/` (any ASCII case) starts at position `i` of the path. */
  predicate MarkerAt(path: string, i: int)
  {
    0 <= i && i + |InviteMarker| <= |path| && LowerAscii(path[i..i + |InviteMarker|]) == InviteMarker
  }

  /** The regular expression matches starting at position `i`: the marker and at least one letter or digit. */
  predicate CandidateAt(path: string, i: int)
  {
    MarkerAt(path, i) && i + |InviteMarker| < |path| && IsAsciiAlnum(path[i + |InviteMarker|])
  }

  predicate AllAlnum(s: string)
  {
    forall k :: 0 <= k < |s| ==> IsAsciiAlnum(s[k])
  }

  /** The longest prefix of ASCII letters and digits (the greedy `[A-Z0-9]+`). */
  function AlnumRun(s: string): (r: string)
    ensures StartsWith(s, r) && AllAlnum(r)
    ensures |r| == |s| || !IsAsciiAlnum(s[|r|])
    decreases |s|
  {
    if |s| > 0 && IsAsciiAlnum(s[0]) then [s[0]] + AlnumRun(s[1..]) else ""
  }

  /** The captured code of the leftmost match of the invite pattern in the path, if any. */
  function MatchInvitePath(path: string): Option<string>
    decreases |path|
  {
    if |path| == 0 then None
    else if CandidateAt(path, 0) then Some(AlnumRun(path[|InviteMarker|..]))
    else MatchInvitePath(path[1..])
  }

  lemma CandidateShift(path: string, i: nat)
    requires |path| > 0
    ensures CandidateAt(path, i + 1) <==> CandidateAt(path[1..], i)
  {
    if i + 1 + |InviteMarker| <= |path| {
      assert path[1..][i..i + |InviteMarker|] == path[i + 1..i + 1 + |InviteMarker|];
    }
  }

  /**
   * The match is the regular expression's: None exactly when no position
   * starts the marker followed by a letter or digit; otherwise the code is the
   * maximal run of letters and digits after the leftmost such position.
   */
  lemma {:induction false} MatchInvitePathSpec(path: string)
    ensures MatchInvitePath(path).None? <==> forall i :: 0 <= i < |path| ==> !CandidateAt(path, i)
    ensures MatchInvitePath(path).Some? ==>
      exists i :: 0 <= i < |path| && CandidateAt(path, i)
        && (forall j :: 0 <= j < i ==> !CandidateAt(path, j))
        && MatchInvitePath(path).value == AlnumRun(path[i + |InviteMarker|..])
    decreases |path|
  {
    if |path| > 0 && !CandidateAt(path, 0) {
      MatchInvitePathSpec(path[1..]);
      forall i | 0 <= i < |path| - 1 ensures CandidateAt(path, i + 1) <==> CandidateAt(path[1..], i) {
        CandidateShift(path, i);
      }
      if MatchInvitePath(path).None? {
        forall i | 0 <= i < |path| ensures !CandidateAt(path, i) {
          if i > 0 { assert !CandidateAt(path[1..], i - 1); }
        }
      } else {
        var i :| 0 <= i < |path[1..]| && CandidateAt(path[1..], i)
          && (forall j :: 0 <= j < i ==> !CandidateAt(path[1..], j))
          && MatchInvitePath(path[1..]).value == AlnumRun(path[1..][i + |InviteMarker|..]);
        assert path[1..][i + |InviteMarker|..] == path[i + 1 + |InviteMarker|..];
        forall j | 0 <= j < i + 1 ensures !CandidateAt(path, j) {
          if j > 0 { assert !CandidateAt(path[1..], j - 1); }
        }
        assert CandidateAt(path, i + 1);
      }
    }
  }

  lemma MarkerIsLower()
    ensures LowerAscii(InviteMarker) == InviteMarker
  {
    var m := InviteMarker;
    forall k | 0 <= k < |m| ensures LowerChar(m[k]) == m[k] {
      assert !IsAsciiUpper(m[k]);
    }
  }

  lemma {:induction false} AlnumRunOfAlnum(s: string)
    requires AllAlnum(s)
    ensures AlnumRun(s) == s
    decreases |s|
  {
    if |s| > 0 {
      AlnumRunOfAlnum(s[1..]);
    }
  }

  /** A path that is the marker followed by letters and digits yields exactly those letters and digits. */
  lemma MatchInvitePathOfCode(prefix: string, code: string)
    requires code != "" && AllAlnum(code)
    requires forall i :: 0 <= i < |prefix| ==> !CandidateAt(prefix + InviteMarker + code, i)
    ensures MatchInvitePath(prefix + InviteMarker + code) == Some(code)
  {
    var path := prefix + InviteMarker + code;
    var n := |prefix|;
    assert path[n..n + |InviteMarker|] == InviteMarker;
    assert path[n + |InviteMarker|] == code[0];
    MarkerIsLower();
    assert CandidateAt(path, n);
    MatchInvitePathSpec(path);
    var i :| 0 <= i < |path| && CandidateAt(path, i)
      && (forall j :: 0 <= j < i ==> !CandidateAt(path, j))
      && MatchInvitePath(path).value == AlnumRun(path[i + |InviteMarker|..]);
    assert i == n;
    assert path[n + |InviteMarker|..] == code;
    AlnumRunOfAlnum(code);
  }

  // ----- parseUrl -----

  /** `urlParams.get('code') || urlParams.get('invite') || 'WELCOME'`. */
  function QueryInviteCode(q: Query): string
  {
    OrElse(OrElse(Get(q, "code"), Get(q, "invite")), Some(DefaultInviteCode)).value
  }

  /** The invite code `parseUrl` assigns: the path code if the path matches, else the query's. */
  function ResolveInviteCode(loc: Location): string
  {
    match MatchInvitePath(loc.pathname)
    case Some(code) => code
    case None => QueryInviteCode(loc.query)
  }

  /** `urlParams.get('ref') || urlParams.get('referrer')`. */
  function ResolveReferrer(q: Query): Option<string>
  {
    OrElse(Get(q, "ref"), Get(q, "referrer"))
  }

  function ReadUtm(q: Query): Utm
  {
    Utm(Get(q, "utm_source"), Get(q, "utm_medium"), Get(q, "utm_campaign"), Get(q, "utm_content"), Get(q, "utm_term"))
  }

  function UtmJson(utm: Utm): Json
  {
    JObj(map["source" := ToJson(utm.source), "medium" := ToJson(utm.medium), "campaign" := ToJson(utm.campaign),
             "content" := ToJson(utm.content), "term" := ToJson(utm.term)])
  }

  /** The record `parseUrl` writes under `trackwarranty_referral`. */
  function ReferralRecord(inviteCode: Option<string>, referrerName: Option<string>, utm: Utm, now: int, landingUrl: string): Json
  {
    JObj(map["inviteCode" := ToJson(inviteCode), "referrerName" := ToJson(referrerName), "utmParams" := UtmJson(utm),
             "timestamp" := JNum(now), "landingUrl" := JStr(landingUrl)])
  }

  /**
   * The precedence of the invite code: a path match wins; then a non-empty
   * `code`, then a non-empty `invite`, then "WELCOME". It is never empty.
   */
  lemma ResolveInviteCodeSpec(loc: Location)
    ensures ResolveInviteCode(loc) != ""
    ensures MatchInvitePath(loc.pathname).Some? ==> ResolveInviteCode(loc) == MatchInvitePath(loc.pathname).value
    ensures MatchInvitePath(loc.pathname).None? ==>
      ResolveInviteCode(loc) ==
        if Present(Get(loc.query, "code")) then Get(loc.query, "code").value
        else if Present(Get(loc.query, "invite")) then Get(loc.query, "invite").value
        else DefaultInviteCode
  {
    if MatchInvitePath(loc.pathname).Some? {
      MatchInvitePathSpec(loc.pathname);
      var i :| 0 <= i < |loc.pathname| && CandidateAt(loc.pathname, i)
        && MatchInvitePath(loc.pathname).value == AlnumRun(loc.pathname[i + |InviteMarker|..]);
      assert loc.pathname[i + |InviteMarker|..][0] == loc.pathname[i + |InviteMarker|];
    }
  }

  /** The path code wins over whatever the query says. */
  lemma PathCodeBeatsQuery(prefix: string, code: string, q: Query, href: string)
    requires code != "" && AllAlnum(code)
    requires forall i :: 0 <= i < |prefix| ==> !CandidateAt(prefix + InviteMarker + code, i)
    ensures ResolveInviteCode(Location(prefix + InviteMarker + code, q, href)) == code
  {
    MatchInvitePathOfCode(prefix, code);
  }

  // ----- store and deep links -----

  /** `code` then `ref`, each only when present: the parameters of the iOS link and of the deep link. */
  function CodeRefParams(inviteCode: Option<string>, referrerName: Option<string>): Query
  {
    var p0: Query := [];
    var p1 := if Present(inviteCode) then Append(p0, "code", inviteCode.value) else p0;
    if Present(referrerName) then Append(p1, "ref", referrerName.value) else p1
  }

  /** What the iOS and deep-link parameters hold: `code` exactly when present, `ref` exactly when present, `code` first. */
  lemma CodeRefParamsSpec(inviteCode: Option<string>, referrerName: Option<string>)
    ensures var q := CodeRefParams(inviteCode, referrerName);
      && Get(q, "code") == (if Present(inviteCode) then inviteCode else None)
      && Get(q, "ref") == (if Present(referrerName) then referrerName else None)
      && |q| == (if Present(inviteCode) then 1 else 0) + (if Present(referrerName) then 1 else 0)
      && (|q| == 2 ==> q[0].0 == "code" && q[1].0 == "ref")
  {
    var q := CodeRefParams(inviteCode, referrerName);
    if Present(inviteCode) && Present(referrerName) {
      assert q == [("code", inviteCode.value), ("ref", referrerName.value)];
      assert q[1..] == [("ref", referrerName.value)];
    } else if Present(inviteCode) {
      assert q == [("code", inviteCode.value)];
      assert q[1..] == [];
    } else if Present(referrerName) {
      assert q == [("ref", referrerName.value)];
      assert q[1..] == [];
    }
  }

  /** The App Store link: the base, `?`, then the flat `code`/`ref` parameters, with no nested encoding. */
  function IosStoreUrl(inviteCode: Option<string>, referrerName: Option<string>): string
  {
    IosStoreLink + "?" + Serialize(CodeRefParams(inviteCode, referrerName))
  }

  /**
   * The record the Android link nests in its `referrer` parameter, in its key
   * order; `String(null)` makes an absent invite code or referrer the text "null".
   */
  function AndroidReferrerData(inviteCode: Option<string>, referrerName: Option<string>, utm: Utm): Query
  {
    [("utm_source", OrElse(utm.source, Some("referral")).value),
     ("utm_medium", "invite_link"),
     ("utm_campaign", "referral_program"),
     ("utm_content", NullableText(inviteCode)),
     ("invite_code", NullableText(inviteCode)),
     ("referrer_name", NullableText(referrerName))]
  }

  /** The Play Store link: the base, `&referrer=`, then the URI-component encoding of the serialized record. */
  function AndroidStoreUrl(inviteCode: Option<string>, referrerName: Option<string>, utm: Utm): string
  {
    AndroidStoreLink + "&referrer=" + Escape(Serialize(AndroidReferrerData(inviteCode, referrerName, utm)), Component)
  }

  /** The custom-scheme link `trackwarranty://invite?` with the `code`/`ref` parameters. */
  function DeepLink(inviteCode: Option<string>, referrerName: Option<string>): string
  {
    DeepLinkScheme + "invite?" + Serialize(CodeRefParams(inviteCode, referrerName))
  }

  /** The iOS link is the base and `?`, and its query parses back to the `code`/`ref` parameters. */
  lemma IosStoreUrlSpec(inviteCode: Option<string>, referrerName: Option<string>)
    ensures var u := IosStoreUrl(inviteCode, referrerName);
      && StartsWith(u, IosStoreLink + "?")
      && Parse(u[|IosStoreLink| + 1..]) == CodeRefParams(inviteCode, referrerName)
  {
    var u := IosStoreUrl(inviteCode, referrerName);
    assert u[|IosStoreLink| + 1..] == Serialize(CodeRefParams(inviteCode, referrerName));
    ParseSerialize(CodeRefParams(inviteCode, referrerName));
  }

  /**
   * The Android link is the base and `&referrer=`; decoding the rest once as a
   * URI component and parsing it gives back the referrer record.
   */
  lemma AndroidStoreUrlSpec(inviteCode: Option<string>, referrerName: Option<string>, utm: Utm)
    ensures var u := AndroidStoreUrl(inviteCode, referrerName, utm);
      var prefix := AndroidStoreLink + "&referrer=";
      && StartsWith(u, prefix)
      && Parse(Unescape(u[|prefix|..], Component)) == AndroidReferrerData(inviteCode, referrerName, utm)
  {
    NestedQueryRoundTrip(AndroidStoreLink + "&referrer=", AndroidReferrerData(inviteCode, referrerName, utm));
  }

  /**
   * The referrer record holds six keys in order, with `utm_medium=invite_link`
   * and `utm_campaign=referral_program`, the UTM source defaulting to
   * `referral`, and a missing code or referrer written as `null`.
   */
  lemma AndroidReferrerDataSpec(inviteCode: Option<string>, referrerName: Option<string>, utm: Utm)
    ensures var data := AndroidReferrerData(inviteCode, referrerName, utm);
      && |data| == 6
      && data[1] == ("utm_medium", "invite_link") && data[2] == ("utm_campaign", "referral_program")
      && data[0] == ("utm_source", if Present(utm.source) then utm.source.value else "referral")
      && data[3] == ("utm_content", if inviteCode.Some? then inviteCode.value else "null")
      && data[4] == ("invite_code", if inviteCode.Some? then inviteCode.value else "null")
      && data[5] == ("referrer_name", if referrerName.Some? then referrerName.value else "null")
  {
  }

  /** The deep link is `trackwarranty://invite?` and a query that parses back to the `code`/`ref` parameters. */
  lemma DeepLinkSpec(inviteCode: Option<string>, referrerName: Option<string>)
    ensures var u := DeepLink(inviteCode, referrerName);
      var prefix := DeepLinkScheme + "invite?";
      && StartsWith(u, prefix)
      && Parse(u[|prefix|..]) == CodeRefParams(inviteCode, referrerName)
  {
    var prefix := DeepLinkScheme + "invite?";
    var u := DeepLink(inviteCode, referrerName);
    assert u[|prefix|..] == Serialize(CodeRefParams(inviteCode, referrerName));
    ParseSerialize(CodeRefParams(inviteCode, referrerName));
  }

  // ----- events -----

  /** `{...properties, timestamp, user_agent, referrer, url}`: the fixed keys override the caller's. */
  function EventProperties(properties: map<string, Json>, ctx: PageContext): (r: map<string, Json>)
    ensures forall k :: k in properties && k !in {"timestamp", "user_agent", "referrer", "url"} ==> k in r && r[k] == properties[k]
    ensures r.Keys == properties.Keys + {"timestamp", "user_agent", "referrer", "url"}
    ensures r["timestamp"] == JNum(ctx.now) && r["user_agent"] == JStr(ctx.userAgent)
    ensures r["referrer"] == JStr(ctx.referrer) && r["url"] == JStr(ctx.href)
  {
    properties + map["timestamp" := JNum(ctx.now), "user_agent" := JStr(ctx.userAgent),
                     "referrer" := JStr(ctx.referrer), "url" := JStr(ctx.href)]
  }

  /**
   * The log grew by exactly one entry, named `name`, whose properties are the
   * caller's `properties` plus the four fixed keys.
   */
  predicate LoggedOne(before: seq<Json>, after: Option<seq<Json>>, name: string, properties: map<string, Json>)
  {
    && after.Some? && |after.value| == |before| + 1 && after.value[..|before|] == before
    && var e := after.value[|before|];
    && e.JObj? && "event" in e.fields && e.fields["event"] == JStr(name)
    && "properties" in e.fields && e.fields["properties"].JObj?
    && e.fields["properties"].fields.Keys == properties.Keys + {"timestamp", "user_agent", "referrer", "url"}
    && forall k :: k in properties ==> e.fields["properties"].fields[k] == properties[k]
  }

  function PlatformJson(p: Option<Platform>): Json
  {
    match p
    case None => JNull
    case Some(pl) => JStr(pl.Name())
  }

  /** `HandleSpecialUrls`'s rewrite of the query: `code` takes the `path_code` value and `path_code` goes. */
  function RewriteSpecialQuery(path: string, q: Query): Option<Query>
  {
    if path == "/invite.html" && Present(Get(q, "path_code")) && !Present(Get(q, "code"))
    then Some(Delete(Set(q, "code", Get(q, "path_code").value), "path_code"))
    else None
  }

  /**
   * `handleSpecialUrls`: the URL passed to `history.replaceState`, or None
   * when the URL is left as it is.
   */
  function HandleSpecialUrls(path: string, q: Query): Option<string>
  {
    match RewriteSpecialQuery(path, q)
    case Some(q2) => Some(path + "?" + Serialize(q2))
    case None => None
  }

  /**
   * The clean-up acts only on `/invite.html` with a non-empty `path_code` and
   * no non-empty `code`; then the new URL is the path and a query in which
   * `code` is the old `path_code`, `path_code` is gone, and every other name
   * reads as before.
   */
  lemma HandleSpecialUrlsSpec(path: string, q: Query, other: string)
    ensures HandleSpecialUrls(path, q).Some? <==>
      path == "/invite.html" && Present(Get(q, "path_code")) && !Present(Get(q, "code"))
    ensures HandleSpecialUrls(path, q).Some? ==>
      var u := HandleSpecialUrls(path, q).value;
      var q2 := Parse(u[|path| + 1..]);
      && StartsWith(u, path + "?")
      && Get(q2, "code") == Get(q, "path_code")
      && !Has(q2, "path_code")
      && (other != "code" && other != "path_code" ==> Get(q2, other) == Get(q, other))
  {
    if HandleSpecialUrls(path, q).Some? {
      var pc := Get(q, "path_code").value;
      var q1 := Set(q, "code", pc);
      var q2 := Delete(q1, "path_code");
      var u := path + "?" + Serialize(q2);
      assert u[|path| + 1..] == Serialize(q2);
      ParseSerialize(q2);
      SetFacts(q, "code", pc, other);
      GetAfterDelete(q1, "path_code", "code");
      GetAfterDelete(q1, "path_code", other);
    }
  }

  // ----- the handler object -----

  /** The platform decision of `detectPlatform`: iOS first, then Android, else desktop. */
  function PlatformOf(nav: Navigator): (p: Platform)
    ensures p == IOS <==> AppleMobileAgent(nav.userAgent) || TouchMac(nav)
    ensures p == Android <==> !AppleMobileAgent(nav.userAgent) && !TouchMac(nav) && AndroidAgent(nav.userAgent)
    ensures p == Desktop <==> !AppleMobileAgent(nav.userAgent) && !TouchMac(nav) && !AndroidAgent(nav.userAgent)
  {
    if AppleMobileAgent(nav.userAgent) || TouchMac(nav) then IOS
    else if AndroidAgent(nav.userAgent) then Android
    else Desktop
  }

  class InviteHandler {
    var inviteCode: Option<string>
    var referrerName: Option<string>
    var utmParams: Utm
    var platform: Option<Platform>

    /** The fields start out null; the page's script then runs `Init` on the new object. */
    constructor ()
      ensures inviteCode == None && referrerName == None && utmParams == NoUtm && platform == None
    {
      inviteCode := None;
      referrerName := None;
      utmParams := NoUtm;
      platform := None;
    }

    /**
     * `parseUrl`: sets the invite code, the referrer and the UTM values from
     * the URL and overwrites the stored referral record with them, whatever
     * was stored before.
     */
    method ParseUrl(loc: Location, now: int, store: Store) returns (store': Store)
      modifies this
      ensures inviteCode == Some(ResolveInviteCode(loc)) && Present(inviteCode)
      ensures referrerName == ResolveReferrer(loc.query)
      ensures utmParams == ReadUtm(loc.query)
      ensures platform == old(platform)
      ensures store' == store[ReferralKey := ReferralRecord(inviteCode, referrerName, utmParams, now, loc.href)]
    {
      var pathMatch := MatchInvitePath(loc.pathname);
      if pathMatch.Some? {
        inviteCode := pathMatch;
      } else {
        inviteCode := Some(QueryInviteCode(loc.query));
      }
      ResolveInviteCodeSpec(loc);
      referrerName := OrElse(Get(loc.query, "ref"), Get(loc.query, "referrer"));
      utmParams := Utm(Get(loc.query, "utm_source"), Get(loc.query, "utm_medium"), Get(loc.query, "utm_campaign"),
                       Get(loc.query, "utm_content"), Get(loc.query, "utm_term"));
      var referralData := ReferralRecord(inviteCode, referrerName, utmParams, now, loc.href);
      store' := store[ReferralKey := referralData];
    }

    /** `detectPlatform`: records exactly one of the three platforms. */
    method DetectPlatform(nav: Navigator)
      modifies this`platform
      ensures platform == Some(PlatformOf(nav))
    {
      if AppleMobileAgent(nav.userAgent) || TouchMac(nav) {
        platform := Some(IOS);
      } else if AndroidAgent(nav.userAgent) {
        platform := Some(Android);
      } else {
        platform := Some(Desktop);
      }
    }

    /** `buildAppStoreUrl(p)`; `appStoreLinks[p]` is undefined (None) for a name other than "ios" or "android". */
    function BuildAppStoreUrl(p: string): (r: Option<string>)
      reads this
      ensures p == "ios" ==> r == Some(IosStoreUrl(inviteCode, referrerName))
      ensures p == "android" ==> r == Some(AndroidStoreUrl(inviteCode, referrerName, utmParams))
      ensures p != "ios" && p != "android" ==> r == None
    {
      if p == "ios" then Some(IosStoreUrl(inviteCode, referrerName))
      else if p == "android" then Some(AndroidStoreUrl(inviteCode, referrerName, utmParams))
      else None
    }

    /** `buildDeepLink`. */
    function BuildDeepLink(): string
      reads this
    {
      DeepLink(inviteCode, referrerName)
    }

    /** `attemptAppOpen`: the deep link loaded into the hidden frame, or None on desktop. */
    method AttemptAppOpen() returns (link: Option<string>)
      ensures platform == Some(Desktop) <==> link.None?
      ensures link.Some? ==> link.value == DeepLink(inviteCode, referrerName)
    {
      if platform == Some(Desktop) {
        return None;
      }
      link := Some(BuildDeepLink());
    }

    /** `updateDownloadButtons`: iOS gets the inactive App Store badge, Android the Play Store link, anything else both. */
    function DownloadButtonChoice(): (b: DownloadButtons)
      reads this
      ensures platform == Some(IOS) <==> b == IosComingSoon
      ensures platform == Some(Android) <==> b.AndroidAvailable?
      ensures !b.IosComingSoon? ==> Some(b.playUrl) == BuildAppStoreUrl("android")
    {
      if platform == Some(IOS) then IosComingSoon
      else if platform == Some(Android) then AndroidAvailable(BuildAppStoreUrl("android").value)
      else AllOptions(BuildAppStoreUrl("android").value)
    }

    /** `trackEvent`: appends one entry to the stored analytics log and changes nothing else. */
    function TrackEvent(store: Store, eventName: string, properties: map<string, Json>, ctx: PageContext): (r: Store)
      ensures var entry := JObj(map["event" := JStr(eventName), "properties" := JObj(EventProperties(properties, ctx))]);
        && (ReadLog(store, AnalyticsKey).Some? ==> ReadLog(r, AnalyticsKey) == Some(ReadLog(store, AnalyticsKey).value + [entry]))
        && (ReadLog(store, AnalyticsKey).None? ==> r == store)
        && OthersUnchanged(store, r, AnalyticsKey)
    {
      var analyticsData := JObj(map["event" := JStr(eventName), "properties" := JObj(EventProperties(properties, ctx))]);
      AppendLog(store, AnalyticsKey, analyticsData)
    }

    /** An event whose properties avoid the four fixed keys is logged with exactly those properties. */
    lemma TrackEventLogs(store: Store, eventName: string, properties: map<string, Json>, ctx: PageContext)
      requires forall k :: k in properties ==> k != "timestamp" && k != "user_agent" && k != "referrer" && k != "url"
      ensures ReadLog(store, AnalyticsKey).Some? ==>
        LoggedOne(ReadLog(store, AnalyticsKey).value, ReadLog(TrackEvent(store, eventName, properties, ctx), AnalyticsKey),
                  eventName, properties)
    {
    }

    /**
     * `setupEventHandlers`: logs `invite_page_view` with the handler's fields
     * and leaves every other stored key alone; the two listeners it then
     * registers are `OnVisibilityChange` and `TrackDownload`. When the stored
     * log is not an array, `push` throws inside that first `trackEvent`:
     * nothing is stored, no listener is registered and `listening` is false.
     */
    method SetupEventHandlers(store: Store, ctx: PageContext) returns (store': Store, listening: bool)
      ensures listening <==> ReadLog(store, AnalyticsKey).Some?
      ensures store' == TrackEvent(store, "invite_page_view", PageViewProperties(), ctx)
      ensures !listening ==> store' == store
      ensures OthersUnchanged(store, store', AnalyticsKey)
      ensures listening ==>
        LoggedOne(ReadLog(store, AnalyticsKey).value, ReadLog(store', AnalyticsKey), "invite_page_view", PageViewProperties())
    {
      TrackEventLogs(store, "invite_page_view", PageViewProperties(), ctx);
      store' := TrackEvent(store, "invite_page_view", PageViewProperties(), ctx);
      listening := ReadLog(store, AnalyticsKey).Some?;
    }

    /** The `invite_page_view` event `setupEventHandlers` logs. */
    function PageViewProperties(): map<string, Json>
      reads this
    {
      map["invite_code" := ToJson(inviteCode), "referrer_name" := ToJson(referrerName),
          "platform" := PlatformJson(platform), "utm_source" := ToJson(utmParams.source)]
    }

    /**
     * The `visibilitychange` handler: when the page is hidden it appends a
     * `page_hidden` entry carrying the invite code and the platform; when it
     * becomes visible nothing is logged.
     */
    function OnVisibilityChange(store: Store, hidden: bool, ctx: PageContext): (r: Store)
      reads this
      ensures !hidden ==> r == store
      ensures ReadLog(store, AnalyticsKey).None? ==> r == store
      ensures OthersUnchanged(store, r, AnalyticsKey)
      ensures hidden && ReadLog(store, AnalyticsKey).Some? ==>
        LoggedOne(ReadLog(store, AnalyticsKey).value, ReadLog(r, AnalyticsKey), "page_hidden",
                  map["invite_code" := ToJson(inviteCode), "platform" := PlatformJson(platform)])
    {
      if hidden then
        var properties := map["invite_code" := ToJson(inviteCode), "platform" := PlatformJson(platform)];
        TrackEventLogs(store, "page_hidden", properties, ctx);
        TrackEvent(store, "page_hidden", map["invite_code" := ToJson(inviteCode), "platform" := PlatformJson(platform)], ctx)
      else store
    }

    /**
     * `window.trackDownload(platform)`: appends a `download_clicked` entry
     * carrying the invite code, the clicked platform, the referrer and the
     * UTM source.
     */
    function TrackDownload(store: Store, platformName: string, ctx: PageContext): (r: Store)
      reads this
      ensures ReadLog(store, AnalyticsKey).None? ==> r == store
      ensures OthersUnchanged(store, r, AnalyticsKey)
      ensures ReadLog(store, AnalyticsKey).Some? ==>
        LoggedOne(ReadLog(store, AnalyticsKey).value, ReadLog(r, AnalyticsKey), "download_clicked",
                  map["invite_code" := ToJson(inviteCode), "platform" := JStr(platformName),
                      "referrer_name" := ToJson(referrerName), "utm_source" := ToJson(utmParams.source)])
    {
      var properties := map["invite_code" := ToJson(inviteCode), "platform" := JStr(platformName),
                            "referrer_name" := ToJson(referrerName), "utm_source" := ToJson(utmParams.source)];
      TrackEventLogs(store, "download_clicked", properties, ctx);
      TrackEvent(store, "download_clicked", properties, ctx)
    }

    /**
     * `init`: parse the URL, detect the platform, choose the download buttons,
     * log the page view and attempt the deep link, in that order. A throw in
     * the page-view step (a stored log that is not an array) ends `init`
     * there: `completed` is false and no deep link is attempted. `parsedAt`
     * is the clock when `parseUrl` stamps the stored record; `ctx.now` is the
     * later reading that stamps the page-view event.
     */
    method Init(loc: Location, nav: Navigator, parsedAt: int, ctx: PageContext, store: Store)
      returns (store': Store, buttons: DownloadButtons, completed: bool, deepLink: Option<string>)
      modifies this
      ensures inviteCode == Some(ResolveInviteCode(loc)) && referrerName == ResolveReferrer(loc.query)
      ensures utmParams == ReadUtm(loc.query) && platform == Some(PlatformOf(nav))
      ensures buttons == DownloadButtonChoice()
      ensures completed <==> ReadLog(store, AnalyticsKey).Some?
      ensures deepLink == if !completed || PlatformOf(nav) == Desktop then None else Some(DeepLink(inviteCode, referrerName))
      ensures store' == TrackEvent(store[ReferralKey := ReferralRecord(inviteCode, referrerName, utmParams, parsedAt, loc.href)],
                                   "invite_page_view", PageViewProperties(), ctx)
      ensures !completed ==> store' == store[ReferralKey := ReferralRecord(inviteCode, referrerName, utmParams, parsedAt, loc.href)]
    {
      var s1 := ParseUrl(loc, parsedAt, store);
      ReadLogOtherWrite(store, ReferralKey, ReferralRecord(inviteCode, referrerName, utmParams, parsedAt, loc.href), AnalyticsKey);
      DetectPlatform(nav);
      buttons := DownloadButtonChoice();
      store', completed := SetupEventHandlers(s1, ctx);
      if completed {
        deepLink := AttemptAppOpen();
      } else {
        deepLink := None;
      }
    }
  }
}
