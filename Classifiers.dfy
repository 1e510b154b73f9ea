// The labels the landing page script (script.js) attaches to analytics
// events: the kind of a clicked button or link, and the name of the page
// section an element sits in.

module Classifiers {
  import opened JsValues

  // ----- getButtonType -----

  /** The labels `getButtonType` can give. */
  const ButtonTypes: set<string> :=
    {"app_download", "whatsapp_contact", "email_contact", "internal_link", "external_link", "form_submit", "button"}

  /**
   * `getButtonType` for an element whose `href` is `href` (None for an
   * element without one), whose `type` is `buttonType`, on a page served
   * from `hostname`. The first matching test decides.
   */
  function ButtonType(href: Option<string>, buttonType: string, hostname: string): (r: string)
    ensures r in ButtonTypes
    ensures r == "app_download" <==> Present(href) && (Contains(href.value, "apps.apple.com") || Contains(href.value, "play.google.com"))
    ensures r == "whatsapp_contact" <==>
      (Present(href) && !Contains(href.value, "apps.apple.com")
       && !Contains(href.value, "play.google.com") && Contains(href.value, "wa.me"))
    ensures r == "email_contact" <==>
      (Present(href) && !Contains(href.value, "apps.apple.com") && !Contains(href.value, "play.google.com")
       && !Contains(href.value, "wa.me") && StartsWith(href.value, "mailto:"))
    ensures r == "internal_link" ==> Present(href) && Contains(href.value, hostname)
    ensures r == "form_submit" <==> !Present(href) && buttonType == "submit"
    ensures r == "button" <==> !Present(href) && buttonType != "submit"
  {
    if Present(href) then
      var h := href.value;
      if Contains(h, "apps.apple.com") || Contains(h, "play.google.com") then "app_download"
      else if Contains(h, "wa.me") then "whatsapp_contact"
      else if StartsWith(h, "mailto:") then "email_contact"
      else if Contains(h, hostname) then "internal_link"
      else "external_link"
    else if buttonType == "submit" then "form_submit"
    else "button"
  }

  /**
   * On a page without a host name (opened from a file, say) every other link
   * counts as internal, because every string includes the empty string.
   */
  lemma NoHostnameMeansInternal(href: string, buttonType: string)
    requires href != ""
    requires !Contains(href, "apps.apple.com") && !Contains(href, "play.google.com")
    requires !Contains(href, "wa.me") && !StartsWith(href, "mailto:")
    ensures ButtonType(Some(href), buttonType, "") == "internal_link"
  {
    ContainsEmpty(href);
  }

  /** A link that leaves the site: none of the earlier tests matches and the host name does not occur in it. */
  lemma ExternalLinkSpec(href: Option<string>, buttonType: string, hostname: string)
    ensures ButtonType(href, buttonType, hostname) == "external_link" <==>
      Present(href) && !Contains(href.value, "apps.apple.com") && !Contains(href.value, "play.google.com")
      && !Contains(href.value, "wa.me") && !StartsWith(href.value, "mailto:") && !Contains(href.value, hostname)
  {
  }

  // ----- getSectionName / getContainingSection -----

  /** The parts of a section element `getSectionName` reads. */
  datatype Section = Section(id: string, className: string, tagName: string)

  /** The class-name fragments tested in order, with the name each stands for. */
  const SectionRules: seq<(string, string)> := [
    ("hero", "hero"), ("problem", "problem"), ("solution", "solution"), ("social-proof", "social_proof"),
    ("enterprise", "enterprise"), ("download", "download"), ("navbar", "navigation"), ("footer", "footer")]

  /** The name of the first rule whose fragment occurs in the class name. */
  function FirstRule(rules: seq<(string, string)>, className: string): (r: Option<string>)
    ensures r.None? <==> forall k :: 0 <= k < |rules| ==> !Contains(className, rules[k].0)
    ensures r.Some? ==> exists k ::
      && 0 <= k < |rules| && Contains(className, rules[k].0) && r.value == rules[k].1
      && forall j :: 0 <= j < k ==> !Contains(className, rules[j].0)
    decreases |rules|
  {
    if |rules| == 0 then None
    else if Contains(className, rules[0].0) then Some(rules[0].1)
    else
      var r := FirstRule(rules[1..], className);
      assert forall k :: 1 <= k < |rules| ==> rules[k] == rules[1..][k - 1];
      r
  }

  /** One step of the rule table: the head rule if it matches, else the rest. */
  lemma FirstRuleStep(rule: (string, string), rest: seq<(string, string)>, className: string)
    ensures FirstRule([rule] + rest, className) ==
      if Contains(className, rule.0) then Some(rule.1) else FirstRule(rest, className)
  {
    assert ([rule] + rest)[1..] == rest;
  }

  /** `getSectionName`: the id when there is one, else the first matching class fragment, else the tag name in lower case. */
  function SectionName(section: Section): string
  {
    var c := section.className;
    if section.id != "" then section.id
    else if Contains(c, "hero") then "hero"
    else if Contains(c, "problem") then "problem"
    else if Contains(c, "solution") then "solution"
    else if Contains(c, "social-proof") then "social_proof"
    else if Contains(c, "enterprise") then "enterprise"
    else if Contains(c, "download") then "download"
    else if Contains(c, "navbar") then "navigation"
    else if Contains(c, "footer") then "footer"
    else LowerAscii(section.tagName)
  }

  /** The chain of tests is the rule table read in order. */
  lemma SectionNameSpec(section: Section)
    ensures SectionName(section) ==
      if section.id != "" then section.id
      else match FirstRule(SectionRules, section.className)
        case Some(name) => name
        case None => LowerAscii(section.tagName)
  {
    var c := section.className;
    var none: seq<(string, string)> := [];
    var r7 := [("footer", "footer")] + none;
    var r6 := [("navbar", "navigation")] + r7;
    var r5 := [("download", "download")] + r6;
    var r4 := [("enterprise", "enterprise")] + r5;
    var r3 := [("social-proof", "social_proof")] + r4;
    var r2 := [("solution", "solution")] + r3;
    var r1 := [("problem", "problem")] + r2;
    var r0 := [("hero", "hero")] + r1;
    assert r0 == SectionRules;
    FirstRuleStep(("hero", "hero"), r1, c);
    FirstRuleStep(("problem", "problem"), r2, c);
    FirstRuleStep(("solution", "solution"), r3, c);
    FirstRuleStep(("social-proof", "social_proof"), r4, c);
    FirstRuleStep(("enterprise", "enterprise"), r5, c);
    FirstRuleStep(("download", "download"), r6, c);
    FirstRuleStep(("navbar", "navigation"), r7, c);
    FirstRuleStep(("footer", "footer"), none, c);
  }

  /** `getContainingSection`: the name of the closest enclosing section, or `unknown` when there is none. */
  function ContainingSection(closest: Option<Section>): (r: string)
    ensures closest.None? ==> r == "unknown"
    ensures closest.Some? ==> r == SectionName(closest.value)
  {
    match closest
    case None => "unknown"
    case Some(s) => SectionName(s)
  }
}
