# TrackWarranty landing and invite pages: a verified model

TrackWarranty's marketing site has two scripts. `script.js` runs the landing
page. It holds a rotating product demo and form validation. It resolves a
referral from the URL and from local storage and rewrites the store links
with that referral. It also chooses the referral badge text, builds share
links, and installs analytics trackers: an unbounded event log, an analytics
hook with a capped fallback log, scroll depth, section views, form start and
engagement time. `invite-handler.js` runs the invite page. Its `InviteHandler`
object reads the invite code, the referrer and the UTM values from the URL. It
stores them, detects the device, builds the App Store, Play Store and
deep-link URLs, and logs page events. Next to it, `handleSpecialUrls` cleans up
the invite page's URL.

The model turns the browser into values:
- local storage is a map from key to JSON value (`Storage.Store`);
- `Date.now()`, `navigator` and `window.location` are parameters;
- a query string is its list of decoded name/value pairs.

State that the scripts change in place becomes a Dafny class:
- the demo counter;
- the scroll-depth and section-view sets;
- the per-form start flag;
- the engagement flags;
- the four fields of `InviteHandler`.

The result of each closure step is proved against a specification function.
Loops become methods with invariants: the merge in `getReferralData`, the
pass in `validateForm`, and the marker and entry loops of the trackers.
Conditional expressions become functions, and lemmas state what they
promise.

The modules follow the scripts:
- `JsValues`: JavaScript values, truthiness, `||`, `String()`, `trim` and `includes`;
- `UrlCodec`: `URLSearchParams` and percent-encoding;
- `Storage`: the stored logs;
- `Devices`: the navigator tests;
- `Carousel`, `FormValidation`, `SiteReferral`, `SiteAnalytics`, `Trackers` and `Classifiers`: `script.js`;
- `Invite`: `invite-handler.js`;
- `Interplay`: how the two pages meet.

Where the code and its design notes differ, the model follows the code:
- `buildAppStoreUrl` for a platform other than `ios` or `android` reads
  `appStoreLinks[platform]`, which is undefined. It does not return a base
  URL, so the model returns None.
- The merged `timestamp` of `getReferralData` comes from the current call
  only when the clock is not 0. At 0 the value is falsy, so a truthy stored
  timestamp takes its place.
- The invite page stores its UTM values nested under `utmParams`. The
  landing page reads a top-level `utmSource`, so an invite page's UTM source
  never reaches the landing page's record (`Interplay.InviteRecordIntoMerge`).

## Model

| member | source | states |
|---|---|---|
| JsValues.OrElse | script.js:553-554 | JavaScript `a` or-else `b` on string-or-null values: the first operand when it is a non-empty string, else the second; the result is always one of the two, and truthy exactly when either is |
| JsValues.ToJson | script.js:553-557 | a string-or-null query value stored in a record is truthy exactly when it is a non-empty string |
| JsValues.NullableText | invite-handler.js:195-204 | `String()` of a string-or-null record value: the text "null" for null, the string itself otherwise, so the text is "null" exactly for null and for the string "null" |
| JsValues.NullTextAmbiguous | invite-handler.js:195-204 | a null value and the string "null" give the same text, and no other value does |
| JsValues.NatToText | script.js:999 | the decimal text of a form index is non-empty and all digits |
| JsValues.NatToTextRoundTrip | script.js:999 | the decimal text of a form index reads back as that index |
| JsValues.IntToText | script.js:811-813 | `String()` of an integer is non-empty, starts with a minus sign exactly when the integer is negative, and the digits after any sign read back as its magnitude |
| JsValues.TrimStart | script.js:500 | the result is a suffix of the input that does not start with white space; everything removed is white space |
| JsValues.TrimEnd | script.js:500 | the result is a prefix of the input that does not end with white space; everything removed is white space |
| JsValues.TrimEmptyIff | script.js:500 | `value.trim()` is empty exactly when every character of the value is white space |
| JsValues.ContainsEmpty | script.js:1133 | every string includes the empty string, so `includes(hostname)` with an empty host name is always true |
| JsValues.LowerAscii | script.js:1162 | `toLowerCase` keeps the length and lowers each ASCII capital, leaving every other character alone; no ASCII capital remains, and a character is an ASCII letter or digit after lowering exactly when it was one before |
| JsValues.LowerAsciiIdempotent | script.js:1162 | lowering an already lowered text changes nothing |
| UrlCodec.Get | invite-handler.js:36 | `URLSearchParams.get` gives null exactly when no pair has the name |
| UrlCodec.Delete | invite-handler.js:324 | after `delete` no pair has the name, and the query is not longer |
| UrlCodec.GetAfterDelete | invite-handler.js:324 | after `delete` the deleted name reads null and every other name reads as before |
| UrlCodec.DeleteTwice | invite-handler.js:324 | deleting a name twice is the same as deleting it once |
| UrlCodec.SetFacts | invite-handler.js:323 | after `set` the name reads the new value, every other name reads as before, and the pairs with other names are unchanged in order |
| UrlCodec.SetNewIsAppend | script.js:611-615 | `set` on a name the query lacks appends one pair |
| UrlCodec.Append | script.js:785-786 | `append` adds exactly one pair at the end and keeps the rest |
| UrlCodec.GetAppend | script.js:831-835 | after `append` a name reads its first earlier value, else the appended value for that name, else null |
| UrlCodec.Escape | invite-handler.js:205 | percent-encoding leaves no `&` or `=` that could split a query, and never shortens the text |
| UrlCodec.UnescapeEscape | invite-handler.js:205 | decoding an encoded text gives the text back, in both encoding modes |
| UrlCodec.ParseSerialize | invite-handler.js:204 | parsing `URLSearchParams.toString()` gives back the same pairs in the same order |
| UrlCodec.NestedQueryRoundTrip | invite-handler.js:204-205 | a query serialized and then URI-component encoded after a prefix decodes once and parses back to the same pairs |
| Storage.AppendLog | invite-handler.js:290-292 | pushing onto a stored log adds exactly the entry at its end and keeps the earlier entries; a non-array value is left as it is; no other key changes |
| Storage.AppendCapped | script.js:1182-1184 | pushing onto the capped log writes the last `cap` entries of the old log plus the entry; no other key changes |
| Storage.CappedLogFacts | script.js:1184 | `slice(-50)` after a push keeps at most 50 entries, the newest last, the survivors a suffix in their old order, nothing dropped while there is room |
| Devices.Platform.Name | invite-handler.js:72-80 | the platform name is one of "ios", "android" and "desktop" |
| Carousel.NextStep | script.js:85 | from any non-negative step the next step is in 1..4 |
| Carousel.AdvancedClosedForm | script.js:85 | from a step in 1..4, `n` advances move the counter `n` places round the four-step cycle |
| Carousel.FourAdvancesReturn | script.js:85 | any multiple of four advances brings the counter back to its start |
| Carousel.SolutionDemo.constructor | script.js:71 | the counter starts at step 1 |
| Carousel.SolutionDemo.AdvanceDemo | script.js:73-86 | shows the current step, then moves the counter to the next step in 1..4 (4 or more wraps to 1) |
| Carousel.SolutionDemo.SelectStep | script.js:88-93 | a click on the step at position `i` shows step `i + 1` and leaves the counter on the step after it |
| FormValidation.ValidEmailHasShape | script.js:389-391 | every address the check accepts has the form x@y.z, with x, y and z non-empty and free of white space and `@` |
| FormValidation.ShapeIsValidEmail | script.js:389-391 | every address of the form x@y.z with such parts is accepted |
| FormValidation.IsValidEmailSpec | script.js:389-391 | `isValidEmail` accepts exactly the strings the regular expression matches |
| FormValidation.InputInvalidSpec | script.js:500-523 | the two checks on one input flag it exactly when its value trims to empty, or when it is a non-empty e-mail value that is not x@y.z |
| FormValidation.CheckInput | script.js:497-524 | one input ends with the error style exactly when it is invalid |
| FormValidation.ValidateForm | script.js:492-527 | each required input is flagged exactly when it is invalid, and the form is valid exactly when no input is |
| Classifiers.ButtonType | script.js:1125-1143 | the label is one of seven; download, WhatsApp, e-mail, form submit and plain button each hold exactly under their own test, first match winning; an internal link contains the host name |
| Classifiers.ExternalLinkSpec | script.js:1126-1137 | a link is external exactly when no earlier test matches and the host name does not occur in it |
| Classifiers.NoHostnameMeansInternal | script.js:1133 | with an empty host name every remaining link counts as internal |
| Classifiers.FirstRule | script.js:1154-1161 | the first class-name rule that matches gives the name; there is no name exactly when no rule matches |
| Classifiers.SectionNameSpec | script.js:1152-1163 | the section name is the id when set, else the first of the eight class fragments that occurs, in order, else the lower-cased tag name |
| Classifiers.ContainingSection | script.js:1145-1150 | no enclosing section gives "unknown"; otherwise the enclosing section's name |
| SiteAnalytics.EventEntry | script.js:880-888 | the entry holds the event name and the caller's properties, with `timestamp`, `page` and `user_agent` overriding properties of the same name |
| SiteAnalytics.TrackEvent | script.js:879-895 | the analytics log gains exactly that entry at its end; a non-array log leaves storage as it was; no other key changes |
| SiteAnalytics.TrackPageView | script.js:671-686 | the analytics log gains exactly the page-view entry at its end; a non-array log leaves storage as it was; no other key changes |
| SiteAnalytics.TrackDownloadClick | script.js:653-669 | the analytics log gains exactly the download entry at its end; a non-array log leaves storage as it was; no other key changes |
| SiteAnalytics.GtagParameters | script.js:1169-1172 | the hook receives the caller's parameters unchanged plus the site tag, which a caller's own `custom_parameter_1` overrides |
| SiteAnalytics.TrackGAEvent | script.js:1166-1188 | with the hook present storage is untouched and `gtag` gets the event name and the tagged parameters; without it nothing is sent, the fallback log becomes the last 50 of old plus new, and a non-array fallback log leaves storage as it was |
| SiteAnalytics.FallbackLogSpec | script.js:1176-1184 | without the hook the fallback log has at most 50 entries, the new event last, survivors in order, none dropped while there is room |
| SiteAnalytics.LastNAbsorb | script.js:1184 | capping after every push keeps the same entries as capping once at the end |
| SiteAnalytics.FallbackRunKeepsRun | script.js:1182-1184 | a run of at most 50 events without the hook survives whole at the end of the fallback log, in order |
| SiteAnalytics.FallbackRunSpec | script.js:1182-1184 | after any run of events without the hook, each stamped with its own clock reading, the fallback log is the last 50 of all entries ever pushed, in order |
| SiteReferral.StoredField | script.js:563-565 | a field of a non-null stored value is the object's property, and nothing truthy when the stored value is not an object |
| SiteReferral.MergedOverNull | script.js:562-567 | a stored null whose fields are never read leaves the URL record as it is |
| SiteReferral.NullStoredThrows | script.js:562-564 | a stored null makes the merge throw when the URL names no invite code, and whenever the clock reads 0 |
| SiteReferral.UrlReferral | script.js:552-559 | the URL record has the six fields; its invite code is truthy exactly when `code` or `invite` is non-empty, likewise the referrer with `ref` or `referrer`; its timestamp is the clock |
| SiteReferral.Merged | script.js:562-569 | when the merge does not throw, each field keeps a truthy URL value, otherwise takes a truthy stored value, and is truthy exactly when one of the two is |
| SiteReferral.ReferralData | script.js:547-569 | when the merge does not throw, the resolved record has exactly the six fields |
| SiteReferral.MergeStored | script.js:562-568 | the `forEach` over the six keys throws exactly when the stored value is null and some URL field is falsy, and otherwise computes the merge of the URL record over the stored value |
| SiteReferral.GetReferralData | script.js:547-577 | throws, leaving storage unchanged, exactly when the merge throws; otherwise returns the merged record and writes it back exactly when its invite code or referrer is truthy, and otherwise leaves storage unchanged |
| SiteReferral.ReferralDataSpec | script.js:552-568 | when the merge does not throw, a non-empty `code`, then `invite`, then a truthy stored code decides the invite code; the timestamp is the clock whenever the clock is not 0; with nothing stored the record is the URL record |
| SiteReferral.ReferrerParamsSpec | script.js:610-615 | the nested referrer query is the present invite code, referrer name and UTM source, in that order, then `utm_medium=website` and `utm_campaign=referral_program` |
| SiteReferral.ReferrerParamsFixed | script.js:614-615 | the nested referrer query always has `utm_medium=website` and `utm_campaign=referral_program` |
| SiteReferral.SerializeNonEmpty | script.js:617 | a non-empty query serializes to a non-empty string, so the `toString()` guard always passes |
| SiteReferral.AppStoreUrlSpec | script.js:600-607 | an App Store URL gets `code` and `ref` only from truthy fields, keeps them otherwise, and changes nothing else |
| SiteReferral.PlayStoreUrlSpec | script.js:608-619 | a Play Store URL always gets a `referrer` that parses back to the nested query with the fixed medium and campaign; no other parameter changes |
| SiteReferral.OtherUrlUnchanged | script.js:597-623 | a URL on any other host comes back unchanged |
| SiteReferral.DetectPlatform | script.js:764-776 | iOS exactly for an iPad, iPhone or iPod agent or a touch Mac; Android exactly for a remaining Android agent; desktop otherwise |
| SiteReferral.AttemptDeepLinkSpec | script.js:779-788 | no deep link on a desktop; otherwise `trackwarranty://invite?` and a query that parses back to the truthy `code`, then `ref` |
| SiteReferral.BadgeMessageSpec | script.js:807-814 | the badge shows exactly when the record has an invite code or a referrer; the referrer's name wins over the code; the default text is never shown |
| SiteReferral.GenerateReferralLinkSpec | script.js:827-838 | the share link is origin, `/invite/`, the code, `?` and a query that parses back to the truthy `code`, `ref`, then the source, `utm_medium=referral` and `utm_campaign=user_referral` |
| Trackers.ScrollEvent | script.js:953-956 | the `scroll` event carries the marker as its depth and the time on the page, which is never negative when the clock has not gone back |
| Trackers.NewMarkersBound | script.js:950-959 | one check reports at most as many markers as it checks |
| Trackers.ScrollEventsLogged | script.js:953-956 | without the hook the scroll events of one check all reach the fallback log, which ends with one entry per reported marker, in order, carrying that marker and the time on the page |
| Trackers.NewMarkersSpec | script.js:950-959 | over increasing markers one check reports exactly the markers reached and not tracked before, in increasing order |
| Trackers.ScrollDepthMarkersIncreasing | script.js:942 | the page's five markers increase |
| Trackers.ScrollDepthTracker.constructor | script.js:943 | no depth is tracked at first |
| Trackers.ScrollDepthTracker.TrackScrollDepth | script.js:945-960 | reports the newly reached markers in order, adds exactly those to the tracked set, and sends one `scroll` event per reported marker, in the same order |
| Trackers.ScrollDepthTracker.CheckMarkers | script.js:950-959 | the marker loop reports what the specification says, adds exactly the reported markers, and sends one `scroll` event per reported marker |
| Trackers.ScrollSessionSpec | script.js:942-959 | over a page's life no marker is reported twice or after being tracked, and only after a check that reached it |
| Trackers.NewSectionsSpec | script.js:1041-1053 | a batch reports no section twice and none seen before, only visible ones, and leaves every visible section viewed |
| Trackers.SectionViewEvent | script.js:1047-1050 | the `section_view` event carries the section name and the time on the page, which is never negative when the clock has not gone back |
| Trackers.SectionViewTracker.constructor | script.js:1038 | no section is viewed at first |
| Trackers.SectionViewTracker.OnEntries | script.js:1040-1055 | the observer callback reports what the specification says, adds exactly the reported names, and sends one `section_view` event per reported name, in the same order |
| Trackers.FormName | script.js:999 | the form name is never empty: the id when set, else the class name when set, else `form_` followed by digits that read back as the index |
| Trackers.FormNameDistinct | script.js:999 | two unnamed forms at different positions get different names |
| Trackers.FormStartEvent | script.js:1006-1009 | the `form_start` event carries the form's name and the name of its enclosing section, or "unknown" without one |
| Trackers.FormStartTracker.constructor | script.js:1002 | a form is not started at first |
| Trackers.FormStartTracker.OnInput | script.js:1003-1011 | the first input reports `form_start` with the form's name and its section and later inputs report nothing |
| Trackers.RunReportsNonNegative | script.js:1061-1104 | under a clock that never goes back no engagement report is negative |
| Trackers.TimeoutReportsOnce | script.js:1075-1083 | after the inactivity timer has reported, a second firing reports nothing |
| Trackers.HiddenKeepsEngagement | script.js:1092-1098 | hiding the page reports the engaged time without changing the state, so a later timer report counts from the same start |
| Trackers.EngagementTracker.constructor | script.js:1062-1063 | the visitor starts engaged since the set-up time |
| Trackers.EngagementTracker.ResetInactivityTimer | script.js:1067-1073 | activity re-engages an inactive visitor from now and leaves an engaged one alone |
| Trackers.EngagementTracker.OnInactivityTimeout | script.js:1075-1083 | the timer reports the engaged time and marks the visitor inactive, only when engaged |
| Trackers.EngagementTracker.OnVisibilityChange | script.js:1092-1103 | hiding an engaged page reports the engaged time; showing it restarts engagement from now |
| Invite.AlnumRun | invite-handler.js:32 | the greedy `[A-Z0-9]+` run is the longest prefix of ASCII letters and digits |
| Invite.MatchInvitePathSpec | invite-handler.js:32 | the path matches exactly when `/invite/` in any case followed by a letter or digit occurs; the code is the run after the leftmost such place |
| Invite.MatchInvitePathOfCode | invite-handler.js:32-34 | a path ending in `/invite/` and a code of letters and digits yields exactly that code |
| Invite.ResolveInviteCodeSpec | invite-handler.js:32-37 | the invite code is never empty: the path match, else a non-empty `code`, else a non-empty `invite`, else "WELCOME" |
| Invite.PathCodeBeatsQuery | invite-handler.js:32-36 | a path code wins over anything in the query |
| Invite.CodeRefParamsSpec | invite-handler.js:184-191 | the store and deep-link query has `code` exactly when the code is present, `ref` exactly when the referrer is, `code` first |
| Invite.IosStoreUrlSpec | invite-handler.js:184-192 | the App Store link is the base, `?`, and a flat query that parses back to the `code`/`ref` pairs |
| Invite.AndroidStoreUrlSpec | invite-handler.js:193-205 | the Play Store link is the base and `&referrer=`; decoding the rest once and parsing it gives back the referrer record |
| Invite.AndroidReferrerDataSpec | invite-handler.js:195-202 | the referrer record has six keys in order with `utm_medium=invite_link` and `utm_campaign=referral_program`, the source defaulting to "referral", and a null code or referrer written as "null" |
| Invite.DeepLinkSpec | invite-handler.js:236-242 | the deep link is `trackwarranty://invite?` and a query that parses back to the `code`/`ref` pairs |
| Invite.EventProperties | invite-handler.js:278-287 | an event's properties are the caller's, with `timestamp`, `user_agent`, `referrer` and `url` added and overriding |
| Invite.HandleSpecialUrlsSpec | invite-handler.js:308-331 | the URL is rewritten exactly on `/invite.html` with a non-empty `path_code` and no non-empty `code`; `code` then reads the old `path_code`, `path_code` is gone, other names read as before |
| Invite.PlatformOf | invite-handler.js:65-81 | iOS exactly for an iPad, iPhone or iPod agent or a touch Mac; Android exactly for a remaining Android agent; desktop otherwise |
| Invite.InviteHandler.constructor | invite-handler.js:5-13 | the handler's fields start out null and empty |
| Invite.InviteHandler.ParseUrl | invite-handler.js:27-63 | sets the resolved invite code, the referrer (`ref`, else `referrer`) and the five UTM values, and overwrites the stored referral record whatever it held |
| Invite.InviteHandler.DetectPlatform | invite-handler.js:65-84 | records exactly the platform the three-way test gives |
| Invite.InviteHandler.BuildAppStoreUrl | invite-handler.js:180-209 | "ios" gives the App Store link, "android" the Play Store link, any other name nothing |
| Invite.InviteHandler.AttemptAppOpen | invite-handler.js:211-224 | no deep link is loaded exactly on a desktop; otherwise the deep link of the current fields |
| Invite.InviteHandler.DownloadButtonChoice | invite-handler.js:136-142 | iOS gets only the inactive App Store badge, Android only the Play Store link, any other platform both; every Play Store link is the Android store URL |
| Invite.InviteHandler.TrackEvent | invite-handler.js:276-298 | the analytics log gains exactly one entry at its end; a non-array log leaves storage as it was; no other key changes |
| Invite.InviteHandler.TrackEventLogs | invite-handler.js:278-292 | an event whose properties avoid the four fixed keys is logged with exactly those properties plus the four |
| Invite.InviteHandler.SetupEventHandlers | invite-handler.js:244-274 | logs one `invite_page_view` entry with the invite code, referrer, platform and UTM source and registers the listeners; a non-array log makes it throw, storing nothing and registering nothing; no other key changes |
| Invite.InviteHandler.OnVisibilityChange | invite-handler.js:254-261 | hiding the page logs one `page_hidden` entry with the invite code and platform; showing it logs nothing; a non-array log leaves storage as it was |
| Invite.InviteHandler.TrackDownload | invite-handler.js:264-273 | a download click logs one `download_clicked` entry with the invite code, platform, referrer and UTM source; a non-array log leaves storage as it was |
| Invite.InviteHandler.Init | invite-handler.js:19-25 | runs the URL parse, the platform test, the button choice, the page-view log and the app-open attempt in order, with their combined effect; the stored record and the page-view event carry their own clock readings; a non-array log stops it after the referral record is stored, so no deep link is attempted |
| Interplay.PlatformsAgree | invite-handler.js:65-81 | both scripts' `detectPlatform` give the same platform on every device |
| Interplay.ShareLinkResolves | script.js:827-838 | a share link with a letters-and-digits code, opened on the invite page, yields that code, the referrer when given, the share source and `utm_medium=referral` |
| Interplay.InviteRecordIntoMerge | script.js:562-569 | over the invite page's stored record the landing page takes the UTM source from its own URL only, and the stored invite code when its URL has none |

## Left out

- DOM work is not modelled because it is presentation: element lookups, class and style changes, `innerHTML` markup, `updateUI` texts and avatars, the badge elements, modals and notifications. Only the branch the code chooses is modelled (for example `DownloadButtons` and `BadgeMessage`).
- Timers and their delays are not modelled because they are scheduling. This covers the 1000 ms button delay, the 4000 ms demo interval, the 100 ms scroll debounce, the 30000 ms inactivity timeout and the clean-up timers. Each callback's state change is modelled instead. Re-arming the inactivity timer on every activity is left to the caller.
- The IntersectionObserver's own threshold is not modelled because it is host behaviour. The callback's ratio test and the once-only set are modelled.
- `animateCounter` is not modelled because it is floating-point animation.
- The scroll percentage is taken as an already-rounded integer. `Math.round` of a float division, and the NaN or infinity when the page does not scroll, are not modelled.
- `gtag`'s own behaviour, `console.log`, `navigator.clipboard`, `window.open` and `history.replaceState` are not modelled because they are browser services. The model returns the parameters sent to `gtag` and the URL passed to `replaceState` instead.
- Local storage is a map per page load. A real store's text, `JSON.stringify` key order, storage exceptions and cross-tab races are not modelled. Stored text that `JSON.parse` rejects is not modelled: the store holds parsed values. A stored referral value that is a number, string, boolean or array has no fields. A stored null makes reading a field throw; that throw ends `getReferralData` (`SiteReferral.MergeStored`), and what the page does after it is not modelled. A log that is not an array makes `push` throw, so nothing is written; on the invite page that ends `init` (`Invite.InviteHandler.Init`).
- Each callback reads the clock once. `Date.now()` in a tracker's event parameters and the one `trackGAEvent` stamps on its fallback entry are separate readings in the code; the model uses one reading for both, and for every marker of one scroll check.
- JsValues.IntToText: integers from 1e21 up, which `String()` prints in exponent notation, are printed as plain digits, because the clock and the counters stay far below that.
- `URL` parsing and printing of a full URL string are not modelled. `buildReferralUrl` works on an already-parsed URL whose query is its list of decoded pairs.
- Percent-encoding covers ASCII only. Characters outside ASCII are passed through instead of being written as UTF-8 bytes, and malformed escapes in input are not modelled because the round trips start from encoded text.
- The regular expressions are modelled as explicit character tests. Apart from that, JavaScript's `\s` is modelled as the ECMAScript WhiteSpace and LineTerminator code points, and `toLowerCase` only lowers ASCII letters. The tag name of an HTML element is ASCII.
- `updateDownloadLinks` is not modelled beyond `buildReferralUrl`, because it only sets attributes.
- `setupReferralTracking`, `setupDownloadTracking`, `trackDownloadClickGA`, `trackReferralGA`, the payload of `setupClickTracking` and the form submit and focus events are not modelled. They are wiring that calls the modelled functions with DOM values.
- `shareReferralLink` is not modelled because it is clipboard and window work around `generateReferralLink`, which is modelled.
- The form handlers (`handleEarlyAccess`, `handleB2BContact`, `handleEnterpriseInquiry`, `sendFormToWhatsApp`, `openWhatsAppChat`), navigation, modals and notification texts are not modelled because they are DOM and timers only.
