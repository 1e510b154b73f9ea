// How the two scripts meet: both read the same device fields, the landing
// page's share links are read back by the invite page, and both write the
// same local-storage record, in different shapes.

module Interplay {
  import opened JsValues
  import opened UrlCodec
  import opened Storage
  import opened Devices
  import SiteReferral
  import Invite

  /** Both scripts' `detectPlatform` reach the same verdict on every device. */
  lemma PlatformsAgree(nav: Navigator)
    ensures SiteReferral.DetectPlatform(nav) == Invite.PlatformOf(nav)
  {
  }

  /**
   * A share link made with a code of letters and digits, opened on the
   * invite page, gives the handler that code, the referrer (when there is
   * one) and the share method as the UTM source.
   */
  lemma ShareLinkResolves(origin: string, code: string, referrer: string, utmSource: string)
    requires code != "" && Invite.AllAlnum(code)
    ensures var params := SiteReferral.ShareParams(JStr(code), JStr(referrer), utmSource);
      var link := SiteReferral.GenerateReferralLink(origin, JStr(code), JStr(referrer), utmSource);
      var loc := Invite.Location("/invite/" + code, Parse(Serialize(params)), link);
      && link == origin + "/invite/" + code + "?" + Serialize(params)
      && Invite.ResolveInviteCode(loc) == code
      && Invite.ResolveReferrer(loc.query) == (if referrer != "" then Some(referrer) else None)
      && Invite.ReadUtm(loc.query).source == Some(utmSource)
      && Invite.ReadUtm(loc.query).medium == Some("referral")
  {
    var params := SiteReferral.ShareParams(JStr(code), JStr(referrer), utmSource);
    var link := SiteReferral.GenerateReferralLink(origin, JStr(code), JStr(referrer), utmSource);
    ParseSerialize(params);
    InvitePathResolves(code, params, link);
    ShareQueryFacts(code, referrer, utmSource);
  }

  /** The invite page reads the code of the path `/invite/<code>`, whatever the query. */
  lemma InvitePathResolves(code: string, q: Query, href: string)
    requires code != "" && Invite.AllAlnum(code)
    ensures Invite.ResolveInviteCode(Invite.Location("/invite/" + code, q, href)) == code
  {
    Invite.PathCodeBeatsQuery("", code, q, href);
    assert "" + Invite.InviteMarker + code == "/invite/" + code;
  }

  /** What the invite page reads from a share link's parameters. */
  lemma ShareQueryFacts(code: string, referrer: string, utmSource: string)
    requires code != ""
    ensures var q := SiteReferral.ShareParams(JStr(code), JStr(referrer), utmSource);
      && Invite.ResolveReferrer(q) == (if referrer != "" then Some(referrer) else None)
      && Get(q, "utm_source") == Some(utmSource)
      && Get(q, "utm_medium") == Some("referral")
  {
    SharedParamsForm(code, referrer, utmSource);
    if referrer != "" {
      ReadsWithReferrer(code, referrer, utmSource);
    } else {
      ReadsWithoutReferrer(code, utmSource);
    }
  }

  /** The reads from `code`, `ref` and the UTM pairs. */
  lemma ReadsWithReferrer(code: string, referrer: string, utmSource: string)
    requires referrer != ""
    ensures var q: Query := [("code", code), ("ref", referrer), ("utm_source", utmSource),
                             ("utm_medium", "referral"), ("utm_campaign", "user_referral")];
      && Invite.ResolveReferrer(q) == Some(referrer)
      && Get(q, "utm_source") == Some(utmSource)
      && Get(q, "utm_medium") == Some("referral")
  {
    var q: Query := [("code", code), ("ref", referrer), ("utm_source", utmSource),
                     ("utm_medium", "referral"), ("utm_campaign", "user_referral")];
    GetOfFirst(q, 1, "ref");
    GetOfFirst(q, 2, "utm_source");
    GetOfFirst(q, 3, "utm_medium");
  }

  /** The reads from `code` and the UTM pairs: no referrer. */
  lemma ReadsWithoutReferrer(code: string, utmSource: string)
    ensures var q: Query := [("code", code), ("utm_source", utmSource),
                             ("utm_medium", "referral"), ("utm_campaign", "user_referral")];
      && Invite.ResolveReferrer(q) == None
      && Get(q, "utm_source") == Some(utmSource)
      && Get(q, "utm_medium") == Some("referral")
  {
    var q: Query := [("code", code), ("utm_source", utmSource),
                     ("utm_medium", "referral"), ("utm_campaign", "user_referral")];
    GetOfFirst(q, 1, "utm_source");
    GetOfFirst(q, 2, "utm_medium");
    NotHas(q, "ref");
    NotHas(q, "referrer");
  }

  /** A share link's parameters: `code`, `ref` when there is a referrer, then the three UTM pairs. */
  lemma SharedParamsForm(code: string, referrer: string, utmSource: string)
    requires code != ""
    ensures referrer != "" ==>
      (SiteReferral.ShareParams(JStr(code), JStr(referrer), utmSource) ==
       [("code", code), ("ref", referrer), ("utm_source", utmSource), ("utm_medium", "referral"), ("utm_campaign", "user_referral")])
    ensures referrer == "" ==>
      (SiteReferral.ShareParams(JStr(code), JStr(referrer), utmSource) ==
       [("code", code), ("utm_source", utmSource), ("utm_medium", "referral"), ("utm_campaign", "user_referral")])
  {
    var p0: Query := [("code", code)];
    assert SiteReferral.DeepLinkParams(JStr(code), JStr(referrer)) ==
      if referrer != "" then p0 + [("ref", referrer)] else p0;
  }

  /** `get` of a name no pair carries is null. */
  lemma {:induction false} NotHas(q: Query, name: string)
    requires forall j :: 0 <= j < |q| ==> q[j].0 != name
    ensures Get(q, name) == None
    decreases |q|
  {
    if |q| > 0 {
      NotHas(q[1..], name);
    }
  }

  /** `get` finds the first pair with the name. */
  lemma {:induction false} GetOfFirst(q: Query, k: nat, name: string)
    requires k < |q| && q[k].0 == name
    requires forall j :: 0 <= j < k ==> q[j].0 != name
    ensures Get(q, name) == Some(q[k].1)
    decreases k
  {
    if k > 0 {
      GetOfFirst(q[1..], k - 1, name);
    }
  }

  /**
   * The record the invite page stores keeps its UTM values under
   * `utmParams`, a key the landing page's merge never reads: a stored UTM
   * source never reaches the landing page's record, while the stored invite
   * code fills in when the URL has none.
   */
  lemma InviteRecordIntoMerge(q: Query, now: int, store: Store, inviteCode: string, referrerName: Option<string>,
                              utm: Invite.Utm, storedAt: int, landingUrl: string)
    requires inviteCode != ""
    ensures var stored := store[ReferralKey := Invite.ReferralRecord(Some(inviteCode), referrerName, utm, storedAt, landingUrl)];
      && SiteReferral.ReferralData(q, now, stored)["utmSource"] == ToJson(Get(q, "utm_source"))
      && (!Present(Get(q, "code")) && !Present(Get(q, "invite")) ==>
            SiteReferral.ReferralData(q, now, stored)["inviteCode"] == JStr(inviteCode))
  {
    var record := Invite.ReferralRecord(Some(inviteCode), referrerName, utm, storedAt, landingUrl);
    InviteRecordShape(inviteCode, referrerName, utm, storedAt, landingUrl);
    MergeOverRecord(q, now, store[ReferralKey := record], inviteCode);
  }

  /** The invite page's record has an `inviteCode` and no top-level `utmSource`. */
  lemma InviteRecordShape(inviteCode: string, referrerName: Option<string>, utm: Invite.Utm, storedAt: int, landingUrl: string)
    ensures var r := Invite.ReferralRecord(Some(inviteCode), referrerName, utm, storedAt, landingUrl);
      && r.JObj? && "utmSource" !in r.fields && "inviteCode" in r.fields && r.fields["inviteCode"] == JStr(inviteCode)
  {
  }

  /** The landing page's merge over a stored object with an invite code and no UTM source. */
  lemma MergeOverRecord(q: Query, now: int, stored: Store, inviteCode: string)
    requires inviteCode != ""
    requires ReferralKey in stored && stored[ReferralKey].JObj?
    requires "utmSource" !in stored[ReferralKey].fields
    requires "inviteCode" in stored[ReferralKey].fields && stored[ReferralKey].fields["inviteCode"] == JStr(inviteCode)
    ensures SiteReferral.ReferralData(q, now, stored)["utmSource"] == ToJson(Get(q, "utm_source"))
    ensures !Present(Get(q, "code")) && !Present(Get(q, "invite")) ==>
      SiteReferral.ReferralData(q, now, stored)["inviteCode"] == JStr(inviteCode)
  {
    var record := stored[ReferralKey];
    var fromUrl := SiteReferral.UrlReferral(q, now);
    assert SiteReferral.ReferralData(q, now, stored) == SiteReferral.Merged(fromUrl, record);
    assert SiteReferral.StoredField(record, "utmSource") == JNull;
    assert SiteReferral.StoredField(record, "inviteCode") == JStr(inviteCode);
  }
}
