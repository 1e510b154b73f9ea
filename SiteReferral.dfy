// Referral handling of the landing page script (script.js): the referral
// record merged from the URL and local storage, the store links rewritten
// with it, the device test, the app deep link, the referral badge text and
// the shareable referral link.

module SiteReferral {
  import opened JsValues
  import opened UrlCodec
  import opened Storage
  import opened Devices

  // ----- the referral record (getReferralData) -----

  /** The fields of the referral record, in the order `Object.keys` visits them. */
  const ReferralFields: seq<string> :=
    ["inviteCode", "referrerName", "utmSource", "utmMedium", "utmCampaign", "timestamp"]

  /** The same six names as a set. */
  const RecordKeys: set<string> :=
    {"inviteCode", "referrerName", "utmSource", "utmMedium", "utmCampaign", "timestamp"}

  /** A property read `record[key]`; a missing property is `undefined`, which behaves as null here. */
  function Field(record: map<string, Json>, key: string): Json
  {
    if key in record then record[key] else JNull
  }

  /**
   * `stored[key]` on the parsed stored value: an object's property; a
   * number, string, boolean or array has no such property (undefined).
   * On null the read throws a TypeError, so null is excluded here and the
   * throw is modelled by `MergeStored`.
   */
  function StoredField(stored: Json, key: string): (r: Json)
    requires !stored.JNull?
    ensures stored.JObj? ==> r == Field(stored.fields, key)
    ensures !stored.JObj? ==> !Truthy(r)
  {
    match stored
    case JObj(fields) => Field(fields, key)
    case _ => JNull
  }

  /**
   * The merge reads `stored[key]` only for a falsy field of the URL record,
   * so it throws exactly when the stored value is null and some URL field is
   * falsy.
   */
  predicate MergeThrows(fromUrl: map<string, Json>, stored: Json)
  {
    stored.JNull? && exists k :: k in fromUrl && !Truthy(fromUrl[k])
  }

  /**
   * The value the query string and the clock give the field `key` of the
   * record: `code || invite`, `ref || referrer`, the three UTM values, and
   * the current time as the timestamp.
   */
  function UrlValue(q: Query, now: int, key: string): Json
  {
    if key == "inviteCode" then ToJson(OrElse(Get(q, "code"), Get(q, "invite")))
    else if key == "referrerName" then ToJson(OrElse(Get(q, "ref"), Get(q, "referrer")))
    else if key == "utmSource" then ToJson(Get(q, "utm_source"))
    else if key == "utmMedium" then ToJson(Get(q, "utm_medium"))
    else if key == "utmCampaign" then ToJson(Get(q, "utm_campaign"))
    else JNum(now)
  }

  /** The record read from the query string and the clock, before any merge. */
  function UrlReferral(q: Query, now: int): (r: map<string, Json>)
    ensures r.Keys == RecordKeys
    ensures Truthy(r["inviteCode"]) <==> Present(Get(q, "code")) || Present(Get(q, "invite"))
    ensures Truthy(r["referrerName"]) <==> Present(Get(q, "ref")) || Present(Get(q, "referrer"))
    ensures r["timestamp"] == JNum(now)
  {
    map k | k in RecordKeys :: UrlValue(q, now, k)
  }

  /**
   * One field after the merge: a truthy URL value stays; a falsy one is
   * replaced by the stored value when that is truthy.
   */
  function MergeAt(fromUrl: map<string, Json>, stored: Json, key: string): Json
    requires key in fromUrl
    requires Truthy(fromUrl[key]) || !stored.JNull?
  {
    if Truthy(fromUrl[key]) then fromUrl[key]
    else if Truthy(StoredField(stored, key)) then StoredField(stored, key)
    else fromUrl[key]
  }

  /**
   * The URL record merged over the stored value, when the merge does not
   * throw: each field keeps a truthy URL value, takes the stored value only
   * where the URL value is falsy, and is truthy exactly when one of the two is.
   */
  function Merged(fromUrl: map<string, Json>, stored: Json): (r: map<string, Json>)
    requires !MergeThrows(fromUrl, stored)
    ensures r.Keys == fromUrl.Keys
    ensures forall k :: k in fromUrl && Truthy(fromUrl[k]) ==> r[k] == fromUrl[k]
    ensures forall k :: k in fromUrl && !Truthy(fromUrl[k]) ==>
      !stored.JNull? && (r[k] == fromUrl[k] || r[k] == StoredField(stored, k))
      && (Truthy(r[k]) <==> Truthy(StoredField(stored, k)))
  {
    map k | k in fromUrl :: MergeAt(fromUrl, stored, k)
  }

  /** A null stored value whose fields are never read leaves the URL record as it is. */
  lemma MergedOverNull(fromUrl: map<string, Json>)
    requires !MergeThrows(fromUrl, JNull)
    ensures Merged(fromUrl, JNull) == fromUrl
  {
  }

  /** Whether `getReferralData` throws while merging the stored record. */
  predicate ReferralThrows(q: Query, now: int, store: Store)
  {
    ReferralKey in store && MergeThrows(UrlReferral(q, now), store[ReferralKey])
  }

  /** A stored null throws unless every field of the URL record is truthy. */
  lemma NullStoredThrows(q: Query, now: int, store: Store)
    requires ReferralKey in store && store[ReferralKey].JNull?
    ensures !Present(Get(q, "code")) && !Present(Get(q, "invite")) ==> ReferralThrows(q, now, store)
    ensures now == 0 ==> ReferralThrows(q, now, store)
  {
    var fromUrl := UrlReferral(q, now);
    assert "inviteCode" in fromUrl && "timestamp" in fromUrl;
  }

  /** The record `getReferralData` returns: the URL record, merged over the stored one when there is one. */
  function ReferralData(q: Query, now: int, store: Store): (r: map<string, Json>)
    requires !ReferralThrows(q, now, store)
    ensures r.Keys == RecordKeys
  {
    if ReferralKey in store then Merged(UrlReferral(q, now), store[ReferralKey]) else UrlReferral(q, now)
  }

  /** The six field names are pairwise distinct, and each is in the set. */
  lemma ReferralFieldsDistinct()
    ensures forall a, b :: 0 <= a < b < |ReferralFields| ==> ReferralFields[a] != ReferralFields[b]
    ensures forall j :: 0 <= j < |ReferralFields| ==> ReferralFields[j] in RecordKeys
  {
  }

  /** Every name of the set is one of the six fields. */
  lemma RecordKeysListed(k: string)
    requires k in RecordKeys
    ensures k in ReferralFields
  {
  }

  /** A record that agrees with the merge on each of the six fields is the merge. */
  lemma MergedByFields(fromUrl: map<string, Json>, stored: Json, m: map<string, Json>)
    requires fromUrl.Keys == RecordKeys
    requires m.Keys == fromUrl.Keys
    requires forall j :: 0 <= j < |ReferralFields| ==>
      Truthy(fromUrl[ReferralFields[j]]) || !stored.JNull?
    requires forall j :: 0 <= j < |ReferralFields| ==> m[ReferralFields[j]] == MergeAt(fromUrl, stored, ReferralFields[j])
    requires !MergeThrows(fromUrl, stored)
    ensures m == Merged(fromUrl, stored)
  {
    forall k | k in fromUrl
      ensures m[k] == Merged(fromUrl, stored)[k]
    {
      RecordKeysListed(k);
      var j :| 0 <= j < |ReferralFields| && ReferralFields[j] == k;
    }
  }

  /** No field is falsy when the stored value is null: the merge does not throw. */
  lemma NoThrowFromFields(fromUrl: map<string, Json>, stored: Json)
    requires fromUrl.Keys == RecordKeys
    requires forall j :: 0 <= j < |ReferralFields| ==> Truthy(fromUrl[ReferralFields[j]]) || !stored.JNull?
    ensures !MergeThrows(fromUrl, stored)
  {
    if stored.JNull? {
      forall k | k in fromUrl
        ensures Truthy(fromUrl[k])
      {
        RecordKeysListed(k);
        var j :| 0 <= j < |ReferralFields| && ReferralFields[j] == k;
      }
    }
  }

  /**
   * The `Object.keys(referralData).forEach` loop of `getReferralData`: each
   * falsy field of the record is overwritten with the stored value when that
   * is truthy; reading a field of a null stored value throws (None).
   */
  method MergeStored(fromUrl: map<string, Json>, stored: Json) returns (merged: Option<map<string, Json>>)
    requires fromUrl.Keys == RecordKeys
    ensures merged.None? <==> MergeThrows(fromUrl, stored)
    ensures merged.Some? ==> !MergeThrows(fromUrl, stored) && merged.value == Merged(fromUrl, stored)
  {
    var referralData := fromUrl;
    var keys := ReferralFields;
    ReferralFieldsDistinct();
    var i := 0;
    while i < |keys|
      invariant 0 <= i <= |keys|
      invariant referralData.Keys == fromUrl.Keys
      invariant forall j :: 0 <= j < i ==> Truthy(fromUrl[keys[j]]) || !stored.JNull?
      invariant forall j :: 0 <= j < |keys| ==>
        referralData[keys[j]] == if j < i then MergeAt(fromUrl, stored, keys[j]) else fromUrl[keys[j]]
    {
      var key := keys[i];
      if !Truthy(referralData[key]) {
        if stored.JNull? {
          assert key in fromUrl && !Truthy(fromUrl[key]);
          return None;
        }
        if Truthy(StoredField(stored, key)) {
          referralData := referralData[key := StoredField(stored, key)];
        }
      }
      i := i + 1;
    }
    NoThrowFromFields(fromUrl, stored);
    MergedByFields(fromUrl, stored, referralData);
    merged := Some(referralData);
  }

  /**
   * `getReferralData`: builds the URL record, merges the stored record into
   * it when there is one, and writes the result back only when it names an
   * invite code or a referrer. When the merge throws, nothing is returned
   * and storage is unchanged.
   */
  method GetReferralData(q: Query, now: int, store: Store) returns (referralData: Option<map<string, Json>>, store': Store)
    ensures referralData.None? <==> ReferralThrows(q, now, store)
    ensures referralData.None? ==> store' == store
    ensures referralData.Some? ==> !ReferralThrows(q, now, store) && referralData.value == ReferralData(q, now, store)
    ensures referralData.Some? ==>
      store' == if Truthy(Field(referralData.value, "inviteCode")) || Truthy(Field(referralData.value, "referrerName"))
                then store[ReferralKey := JObj(referralData.value)] else store
  {
    var data := UrlReferral(q, now);
    if ReferralKey in store {
      var merged := MergeStored(data, store[ReferralKey]);
      if merged.None? {
        return None, store;
      }
      data := merged.value;
    }
    referralData := Some(data);
    if Truthy(Field(data, "inviteCode")) || Truthy(Field(data, "referrerName")) {
      store' := store[ReferralKey := JObj(data)];
    } else {
      store' := store;
    }
  }

  /**
   * The precedence the merge gives: URL values win, stored values fill only
   * the gaps, and the timestamp is the current time whenever that is not 0.
   */
  lemma ReferralDataSpec(q: Query, now: int, store: Store)
    requires !ReferralThrows(q, now, store)
    ensures ReferralData(q, now, store).Keys == RecordKeys
    ensures now != 0 ==> ReferralData(q, now, store)["timestamp"] == JNum(now)
    ensures Present(Get(q, "code")) ==> ReferralData(q, now, store)["inviteCode"] == JStr(Get(q, "code").value)
    ensures !Present(Get(q, "code")) && Present(Get(q, "invite")) ==>
      ReferralData(q, now, store)["inviteCode"] == JStr(Get(q, "invite").value)
    ensures (!Present(Get(q, "code")) && !Present(Get(q, "invite")) && ReferralKey in store
             && !store[ReferralKey].JNull? && Truthy(StoredField(store[ReferralKey], "inviteCode"))) ==>
      ReferralData(q, now, store)["inviteCode"] == StoredField(store[ReferralKey], "inviteCode")
    ensures ReferralKey !in store ==> ReferralData(q, now, store) == UrlReferral(q, now)
  {
    var fromUrl := UrlReferral(q, now);
    assert "timestamp" in fromUrl && "inviteCode" in fromUrl;
  }

  // ----- store links (buildReferralUrl) -----

  /** A parsed URL: the parts `buildReferralUrl` reads or changes, with the decoded query. */
  datatype Url = Url(origin: string, hostname: string, pathname: string, query: Query, hash: string)

  /** A pair holding the text of `v`, when `v` is truthy; nothing otherwise. */
  function OptPair(name: string, v: Json): (r: Query)
    ensures |r| <= 1
    ensures Truthy(v) <==> r == [(name, ToText(v))]
  {
    if Truthy(v) then [(name, ToText(v))] else []
  }

  /** `if (v) params.set(name, v)`. */
  function SetIf(q: Query, name: string, v: Json): Query
  {
    if Truthy(v) then Set(q, name, ToText(v)) else q
  }

  /** The nested `referrer` parameter the Play Store link gets. */
  function ReferrerParams(data: map<string, Json>): Query
  {
    var p := SetIf(SetIf(SetIf([], "invite_code", Field(data, "inviteCode")),
                         "referrer_name", Field(data, "referrerName")),
                   "utm_source", Field(data, "utmSource"));
    Set(Set(p, "utm_medium", "website"), "utm_campaign", "referral_program")
  }

  /** `set` on a name no pair has appends the pair. */
  lemma SetAbsent(q: Query, name: string, v: string)
    requires forall k :: 0 <= k < |q| ==> q[k].0 != name
    ensures Set(q, name, v) == q + [(name, v)]
  {
  }

  /** A conditional `set` on a name no pair has appends the optional pair. */
  lemma SetIfAbsent(q: Query, name: string, v: Json)
    requires forall k :: 0 <= k < |q| ==> q[k].0 != name
    ensures SetIf(q, name, v) == q + OptPair(name, v)
  {
    if Truthy(v) {
      SetAbsent(q, name, ToText(v));
    }
  }

  /** The referrer parameters in order: the present referral fields, then the fixed medium and campaign. */
  lemma ReferrerParamsSpec(data: map<string, Json>)
    ensures ReferrerParams(data) ==
      OptPair("invite_code", Field(data, "inviteCode")) + OptPair("referrer_name", Field(data, "referrerName"))
      + OptPair("utm_source", Field(data, "utmSource"))
      + [("utm_medium", "website"), ("utm_campaign", "referral_program")]
  {
    var o1 := OptPair("invite_code", Field(data, "inviteCode"));
    var o2 := OptPair("referrer_name", Field(data, "referrerName"));
    var o3 := OptPair("utm_source", Field(data, "utmSource"));
    var p0: Query := [];
    SetIfAbsent(p0, "invite_code", Field(data, "inviteCode"));
    assert p0 + o1 == o1;
    SetIfAbsent(o1, "referrer_name", Field(data, "referrerName"));
    var p2: Query := o1 + o2;
    assert forall k :: 0 <= k < |p2| ==> p2[k].0 in {"invite_code", "referrer_name"};
    SetIfAbsent(p2, "utm_source", Field(data, "utmSource"));
    var p3: Query := p2 + o3;
    assert forall k :: 0 <= k < |p3| ==> p3[k].0 in {"invite_code", "referrer_name", "utm_source"};
    SetAbsent(p3, "utm_medium", "website");
    var p4: Query := p3 + [("utm_medium", "website")];
    assert forall k :: 0 <= k < |p4| ==> p4[k].0 in {"invite_code", "referrer_name", "utm_source", "utm_medium"};
    SetAbsent(p4, "utm_campaign", "referral_program");
  }

  /** The referrer parameters always carry the fixed medium and campaign. */
  lemma ReferrerParamsFixed(data: map<string, Json>)
    ensures Get(ReferrerParams(data), "utm_medium") == Some("website")
    ensures Get(ReferrerParams(data), "utm_campaign") == Some("referral_program")
  {
    var p := SetIf(SetIf(SetIf([], "invite_code", Field(data, "inviteCode")),
                         "referrer_name", Field(data, "referrerName")),
                   "utm_source", Field(data, "utmSource"));
    var p4 := Set(p, "utm_medium", "website");
    SetFacts(p, "utm_medium", "website", "utm_medium");
    SetFacts(p4, "utm_campaign", "referral_program", "utm_medium");
    SetFacts(p4, "utm_campaign", "referral_program", "utm_campaign");
  }

  /**
   * `buildReferralUrl`: an App Store URL gets `code` and `ref` set from the
   * record's truthy fields; a Play Store URL gets `referrer` set to the
   * serialized referrer parameters (that string is never empty, so the
   * `toString()` guard always passes); any other URL is returned as it is.
   */
  function BuildReferralUrl(u: Url, data: map<string, Json>): Url
  {
    if Contains(u.hostname, "apps.apple.com") then
      var q1 := if Truthy(Field(data, "inviteCode")) then Set(u.query, "code", ToText(Field(data, "inviteCode"))) else u.query;
      var q2 := if Truthy(Field(data, "referrerName")) then Set(q1, "ref", ToText(Field(data, "referrerName"))) else q1;
      u.(query := q2)
    else if Contains(u.hostname, "play.google.com") then
      var referrer := Serialize(ReferrerParams(data));
      if referrer != "" then u.(query := Set(u.query, "referrer", referrer)) else u
    else u
  }

  /** A non-empty query serializes to a non-empty string. */
  lemma SerializeNonEmpty(q: Query)
    requires |q| > 0
    ensures Serialize(q) != ""
  {
    assert |SerializePair(q[0])| > 0 by {
      assert SerializePair(q[0]) == Escape(q[0].0, Form) + "=" + Escape(q[0].1, Form);
    }
    if |q| > 1 {
      assert Serialize(q) == SerializePair(q[0]) + "&" + Serialize(q[1..]);
    }
  }

  /** The App Store branch: only `code` and `ref` may change, each only when the record's value is truthy. */
  lemma AppStoreUrlSpec(u: Url, data: map<string, Json>, other: string)
    requires Contains(u.hostname, "apps.apple.com")
    ensures var r := BuildReferralUrl(u, data);
      && r == u.(query := r.query)
      && Get(r.query, "code") == (if Truthy(Field(data, "inviteCode")) then Some(ToText(Field(data, "inviteCode"))) else Get(u.query, "code"))
      && Get(r.query, "ref") == (if Truthy(Field(data, "referrerName")) then Some(ToText(Field(data, "referrerName"))) else Get(u.query, "ref"))
      && (other != "code" && other != "ref" ==> Get(r.query, other) == Get(u.query, other))
  {
    var ic := ToText(Field(data, "inviteCode"));
    var rn := ToText(Field(data, "referrerName"));
    var q1 := if Truthy(Field(data, "inviteCode")) then Set(u.query, "code", ic) else u.query;
    SetFacts(u.query, "code", ic, "ref");
    SetFacts(u.query, "code", ic, other);
    SetFacts(q1, "ref", rn, "code");
    SetFacts(q1, "ref", rn, other);
  }

  /**
   * The Play Store branch: `referrer` is always set, and it parses back to
   * the referrer parameters, which always end with `utm_medium=website` and
   * `utm_campaign=referral_program`; no other parameter changes.
   */
  lemma PlayStoreUrlSpec(u: Url, data: map<string, Json>, other: string)
    requires !Contains(u.hostname, "apps.apple.com") && Contains(u.hostname, "play.google.com")
    ensures var r := BuildReferralUrl(u, data);
      && r == u.(query := r.query)
      && Get(r.query, "referrer").Some?
      && Parse(Get(r.query, "referrer").value) == ReferrerParams(data)
      && Get(ReferrerParams(data), "utm_medium") == Some("website")
      && Get(ReferrerParams(data), "utm_campaign") == Some("referral_program")
      && (other != "referrer" ==> Get(r.query, other) == Get(u.query, other))
  {
    var rp := ReferrerParams(data);
    ReferrerParamsFixed(data);
    SerializeNonEmpty(rp);
    ParseSerialize(rp);
    SetFacts(u.query, "referrer", Serialize(rp), other);
  }

  /** Any other host: the URL comes back unchanged. */
  lemma OtherUrlUnchanged(u: Url, data: map<string, Json>)
    requires !Contains(u.hostname, "apps.apple.com") && !Contains(u.hostname, "play.google.com")
    ensures BuildReferralUrl(u, data) == u
  {
  }

  // ----- device and deep link -----

  /** `detectPlatform` of script.js: iOS first, then Android, else desktop. */
  function DetectPlatform(nav: Navigator): (p: Platform)
    ensures p == IOS <==> AppleMobileAgent(nav.userAgent) || TouchMac(nav)
    ensures p == Android <==> !AppleMobileAgent(nav.userAgent) && !TouchMac(nav) && AndroidAgent(nav.userAgent)
    ensures p == Desktop <==> !AppleMobileAgent(nav.userAgent) && !TouchMac(nav) && !AndroidAgent(nav.userAgent)
  {
    if AppleMobileAgent(nav.userAgent) || TouchMac(nav) then IOS
    else if AndroidAgent(nav.userAgent) then Android
    else Desktop
  }

  /** The query of the deep link: `code`, then `ref`, each only when truthy. */
  function DeepLinkParams(inviteCode: Json, referrerName: Json): Query
  {
    var p := if Truthy(inviteCode) then Append([], "code", ToText(inviteCode)) else [];
    if Truthy(referrerName) then Append(p, "ref", ToText(referrerName)) else p
  }

  /** The deep link `attemptDeepLink` loads in a hidden frame; none on a desktop. */
  function AttemptDeepLink(inviteCode: Json, referrerName: Json, nav: Navigator): Option<string>
  {
    if DetectPlatform(nav) == Desktop then None
    else Some("trackwarranty://invite?" + Serialize(DeepLinkParams(inviteCode, referrerName)))
  }

  /** No deep link on a desktop; otherwise one whose query parses back to the truthy `code` and `ref`. */
  lemma AttemptDeepLinkSpec(inviteCode: Json, referrerName: Json, nav: Navigator)
    ensures AttemptDeepLink(inviteCode, referrerName, nav).None? <==> DetectPlatform(nav) == Desktop
    ensures AttemptDeepLink(inviteCode, referrerName, nav).Some? ==>
      exists s :: AttemptDeepLink(inviteCode, referrerName, nav).value == "trackwarranty://invite?" + s
        && Parse(s) == OptPair("code", inviteCode) + OptPair("ref", referrerName)
  {
    var params := DeepLinkParams(inviteCode, referrerName);
    assert params == OptPair("code", inviteCode) + OptPair("ref", referrerName);
    ParseSerialize(params);
  }

  // ----- referral badge (showReferralBadge) -----

  const DefaultBadge := "Special invite bonus included!"

  /** The badge text `showReferralBadge` shows, or None when the badge stays hidden. */
  function BadgeMessage(data: map<string, Json>): Option<string>
  {
    var inviteCode := Field(data, "inviteCode");
    var referrerName := Field(data, "referrerName");
    if Truthy(inviteCode) || Truthy(referrerName) then
      var message := DefaultBadge;
      Some(if Truthy(referrerName) then ToText(referrerName) + " invited you - bonus included!"
           else if Truthy(inviteCode) then "Invite code " + ToText(inviteCode) + " - bonus included!"
           else message)
    else None
  }

  /**
   * The badge shows exactly when the record has an invite code or a
   * referrer; a referrer's name takes precedence over the code, and the
   * default text is never the one shown.
   */
  lemma BadgeMessageSpec(data: map<string, Json>)
    ensures BadgeMessage(data).None? <==> !Truthy(Field(data, "inviteCode")) && !Truthy(Field(data, "referrerName"))
    ensures Truthy(Field(data, "referrerName")) ==>
      BadgeMessage(data) == Some(ToText(Field(data, "referrerName")) + " invited you - bonus included!")
    ensures !Truthy(Field(data, "referrerName")) && Truthy(Field(data, "inviteCode")) ==>
      BadgeMessage(data) == Some("Invite code " + ToText(Field(data, "inviteCode")) + " - bonus included!")
    ensures BadgeMessage(data) != Some(DefaultBadge)
  {
    var m := BadgeMessage(data);
    if Truthy(Field(data, "referrerName")) {
      var t := ToText(Field(data, "referrerName")) + " invited you - bonus included!";
      assert t[|t| - 30] == ' ';
      assert DefaultBadge[0] == 'S';
      if |t| == |DefaultBadge| {
        assert t[0] == ' ';
      }
    } else if Truthy(Field(data, "inviteCode")) {
      var t := "Invite code " + ToText(Field(data, "inviteCode")) + " - bonus included!";
      assert t[0] == 'I';
    }
  }

  // ----- shareable link (generateReferralLink) -----

  /** The query of a shared link: optional `code` and `ref`, then the source and the fixed medium and campaign. */
  function ShareParams(inviteCode: Json, referrerName: Json, utmSource: string): Query
  {
    var p := DeepLinkParams(inviteCode, referrerName);
    Append(Append(Append(p, "utm_source", utmSource), "utm_medium", "referral"), "utm_campaign", "user_referral")
  }

  /** `generateReferralLink`: `<origin>/invite/<code>?<params>`, the code written as a template literal writes it. */
  function GenerateReferralLink(origin: string, inviteCode: Json, referrerName: Json, utmSource: string := "direct"): string
  {
    origin + "/invite/" + ToText(inviteCode) + "?" + Serialize(ShareParams(inviteCode, referrerName, utmSource))
  }

  /**
   * The link's query parses back to the present `code` and `ref` followed by
   * `utm_source`, `utm_medium=referral` and `utm_campaign=user_referral`.
   */
  lemma GenerateReferralLinkSpec(origin: string, inviteCode: Json, referrerName: Json, utmSource: string)
    ensures exists s ::
      && GenerateReferralLink(origin, inviteCode, referrerName, utmSource) == origin + "/invite/" + ToText(inviteCode) + "?" + s
      && Parse(s) == OptPair("code", inviteCode) + OptPair("ref", referrerName)
           + [("utm_source", utmSource), ("utm_medium", "referral"), ("utm_campaign", "user_referral")]
  {
    var params := ShareParams(inviteCode, referrerName, utmSource);
    var p := DeepLinkParams(inviteCode, referrerName);
    assert p == OptPair("code", inviteCode) + OptPair("ref", referrerName);
    var tail: Query := [("utm_source", utmSource), ("utm_medium", "referral"), ("utm_campaign", "user_referral")];
    assert params == p + tail;
    ParseSerialize(params);
  }
}
