// The engagement trackers the landing page script (script.js) installs:
// scroll-depth markers and viewed sections reported once each, the
// first-input flag of each form, and the engaged/inactive state behind the
// engagement-time events.

module Trackers {
  import opened JsValues
  import opened Storage
  import Classifiers
  import SiteAnalytics

  // ----- scroll depth (setupScrollDepthTracking) -----

  /** The scroll percentages reported, in the order they are checked. */
  const ScrollDepthMarkers: seq<int> := [25, 50, 75, 90, 100]

  /**
   * The markers one `trackScrollDepth` call reports, in marker order: each
   * marker reached and not yet tracked; a reported marker counts as tracked
   * for the rest of the call.
   */
  function NewMarkers(markers: seq<int>, tracked: set<int>, scrollPercent: int): seq<int>
    decreases |markers|
  {
    if |markers| == 0 then []
    else if scrollPercent >= markers[0] && markers[0] !in tracked then
      [markers[0]] + NewMarkers(markers[1..], tracked + {markers[0]}, scrollPercent)
    else NewMarkers(markers[1..], tracked, scrollPercent)
  }

  predicate Increasing(s: seq<int>)
  {
    forall i, j :: 0 <= i < j < |s| ==> s[i] < s[j]
  }

  /**
   * Over increasing markers, one call reports exactly the markers reached and
   * not tracked before, in increasing order.
   */
  lemma {:induction false} NewMarkersSpec(markers: seq<int>, tracked: set<int>, scrollPercent: int)
    requires Increasing(markers)
    ensures var r := NewMarkers(markers, tracked, scrollPercent);
      && (forall m :: m in r <==> m in markers && scrollPercent >= m && m !in tracked)
      && Increasing(r)
    decreases |markers|
  {
    if |markers| > 0 {
      var m0 := markers[0];
      var rest := markers[1..];
      assert Increasing(rest);
      assert forall m :: m in rest ==> m0 < m;
      if scrollPercent >= m0 && m0 !in tracked {
        NewMarkersSpec(rest, tracked + {m0}, scrollPercent);
        var tail := NewMarkers(rest, tracked + {m0}, scrollPercent);
        assert forall m :: m in tail ==> m in rest;
        assert NewMarkers(markers, tracked, scrollPercent) == [m0] + tail;
        ConsIncreasing(m0, tail);
      } else {
        NewMarkersSpec(rest, tracked, scrollPercent);
        var tail := NewMarkers(rest, tracked, scrollPercent);
        assert forall m :: m in tail ==> m in rest;
      }
    }
  }

  /** A value below every element of an increasing sequence can go in front of it. */
  lemma ConsIncreasing(m0: int, tail: seq<int>)
    requires Increasing(tail) && forall m :: m in tail ==> m0 < m
    ensures Increasing([m0] + tail)
  {
    var r := [m0] + tail;
    forall i, j | 0 <= i < j < |r|
      ensures r[i] < r[j]
    {
      if i == 0 {
        assert r[j] == tail[j - 1] && tail[j - 1] in tail;
      } else {
        assert r[i] == tail[i - 1] && r[j] == tail[j - 1];
      }
    }
  }

  /** The set of a sequence's elements. */
  function Elements(s: seq<int>): set<int>
  {
    set m | m in s
  }

  /**
   * The `trackGAEvent('scroll', …)` call for one reported marker: the depth
   * and the time since the page started, at clock reading `now`.
   */
  function ScrollEvent(marker: int, now: int, pageStart: int): (e: SiteAnalytics.GaEvent)
    ensures e.name == "scroll" && e.at == now
    ensures e.parameters.Keys == {"scroll_depth", "engagement_time_msec"}
    ensures e.parameters["scroll_depth"] == JNum(marker)
    ensures now >= pageStart ==> e.parameters["engagement_time_msec"].JNum? && e.parameters["engagement_time_msec"].n >= 0
  {
    SiteAnalytics.GaEvent("scroll", map["scroll_depth" := JNum(marker), "engagement_time_msec" := JNum(now - pageStart)], now)
  }

  class ScrollDepthTracker {
    /** The closure's `trackedDepths` set. */
    var trackedDepths: set<int>

    constructor ()
      ensures trackedDepths == {}
    {
      trackedDepths := {};
    }

    /**
     * `trackScrollDepth` for the rounded scroll percentage: reports, in order,
     * the markers it newly reaches and adds them to the tracked set.
     */
    method TrackScrollDepth(scrollPercent: int, now: int, pageStart: int) returns (reported: seq<int>, events: seq<SiteAnalytics.GaEvent>)
      modifies this
      ensures reported == NewMarkers(ScrollDepthMarkers, old(trackedDepths), scrollPercent)
      ensures trackedDepths == old(trackedDepths) + Elements(reported)
      ensures |events| == |reported| && forall j :: 0 <= j < |events| ==> events[j] == ScrollEvent(reported[j], now, pageStart)
    {
      reported, events := CheckMarkers(ScrollDepthMarkers, scrollPercent, now, pageStart);
    }

    /** The `forEach` over the markers, in the order given, with the event sent for each reported one. */
    method CheckMarkers(markers: seq<int>, scrollPercent: int, now: int, pageStart: int)
      returns (reported: seq<int>, events: seq<SiteAnalytics.GaEvent>)
      modifies this
      ensures reported == NewMarkers(markers, old(trackedDepths), scrollPercent)
      ensures trackedDepths == old(trackedDepths) + Elements(reported)
      ensures |events| == |reported| && forall j :: 0 <= j < |events| ==> events[j] == ScrollEvent(reported[j], now, pageStart)
    {
      reported := [];
      events := [];
      var i := 0;
      while i < |markers|
        invariant 0 <= i <= |markers|
        invariant reported + NewMarkers(markers[i..], trackedDepths, scrollPercent)
                  == NewMarkers(markers, old(trackedDepths), scrollPercent)
        invariant trackedDepths == old(trackedDepths) + Elements(reported)
        invariant |events| == |reported| && forall j :: 0 <= j < |events| ==> events[j] == ScrollEvent(reported[j], now, pageStart)
      {
        var marker := markers[i];
        assert markers[i..][1..] == markers[i + 1..];
        if scrollPercent >= marker && marker !in trackedDepths {
          trackedDepths := trackedDepths + {marker};
          reported := reported + [marker];
          events := events + [ScrollEvent(marker, now, pageStart)];
        }
        i := i + 1;
      }
    }
  }

  /** One check never reports more markers than it checks. */
  lemma {:induction false} NewMarkersBound(markers: seq<int>, tracked: set<int>, scrollPercent: int)
    ensures |NewMarkers(markers, tracked, scrollPercent)| <= |markers|
    decreases |markers|
  {
    if |markers| > 0 {
      NewMarkersBound(markers[1..], tracked + {markers[0]}, scrollPercent);
      NewMarkersBound(markers[1..], tracked, scrollPercent);
    }
  }

  /**
   * The scroll events one check sends while the hook is missing all reach
   * the fallback log: it ends with one entry per reported marker, in order,
   * each carrying that marker as its `scroll_depth`.
   */
  lemma ScrollEventsLogged(store: Store, events: seq<SiteAnalytics.GaEvent>, tracked: set<int>, scrollPercent: int, now: int, pageStart: int)
    requires ReadLog(store, GaFallbackKey).Some?
    requires var reported := NewMarkers(ScrollDepthMarkers, tracked, scrollPercent);
      |events| == |reported| && forall j :: 0 <= j < |events| ==> events[j] == ScrollEvent(reported[j], now, pageStart)
    ensures ReadLog(SiteAnalytics.FallbackRun(store, events), GaFallbackKey).Some?
    ensures var r := ReadLog(SiteAnalytics.FallbackRun(store, events), GaFallbackKey).value;
      && |r| >= |events|
      && forall j :: 0 <= j < |events| ==>
        r[|r| - |events| + j] == SiteAnalytics.FallbackEntry("scroll",
          map["scroll_depth" := JNum(NewMarkers(ScrollDepthMarkers, tracked, scrollPercent)[j]),
              "engagement_time_msec" := JNum(now - pageStart)], now)
  {
    if |events| > 0 {
      NewMarkersBound(ScrollDepthMarkers, tracked, scrollPercent);
      SiteAnalytics.FallbackRunKeepsRun(store, events);
      var r := ReadLog(SiteAnalytics.FallbackRun(store, events), GaFallbackKey).value;
      var reported := NewMarkers(ScrollDepthMarkers, tracked, scrollPercent);
      forall j | 0 <= j < |events|
        ensures r[|r| - |events| + j] == SiteAnalytics.FallbackEntry("scroll",
          map["scroll_depth" := JNum(reported[j]), "engagement_time_msec" := JNum(now - pageStart)], now)
      {
        assert r[|r| - |events|..][j] == r[|r| - |events| + j];
        assert SiteAnalytics.FallbackEntries(events)[j]
          == SiteAnalytics.FallbackEntry(events[j].name, events[j].parameters, events[j].at);
        assert events[j] == ScrollEvent(reported[j], now, pageStart);
      }
    }
  }

  predicate NoRepeats<T(==)>(s: seq<T>)
  {
    forall i, j :: 0 <= i < j < |s| ==> s[i] != s[j]
  }

  /** The page's markers are checked in increasing order. */
  lemma ScrollDepthMarkersIncreasing()
    ensures Increasing(ScrollDepthMarkers)
  {
  }

  /** Every marker reported across successive scroll checks, in reporting order. */
  function ScrollSession(markers: seq<int>, tracked: set<int>, percents: seq<int>): seq<int>
    decreases |percents|
  {
    if |percents| == 0 then []
    else
      var now := NewMarkers(markers, tracked, percents[0]);
      now + ScrollSession(markers, tracked + Elements(now), percents[1..])
  }

  /**
   * Over a page's life each marker is reported at most once, never one that
   * was already tracked, and only after a check that reached it.
   */
  lemma {:induction false} ScrollSessionSpec(markers: seq<int>, tracked: set<int>, percents: seq<int>)
    requires Increasing(markers)
    ensures NoRepeats(ScrollSession(markers, tracked, percents))
    ensures forall m :: m in ScrollSession(markers, tracked, percents) ==> m !in tracked && m in markers
    ensures forall m :: m in ScrollSession(markers, tracked, percents) ==> exists k :: 0 <= k < |percents| && percents[k] >= m
    decreases |percents|
  {
    if |percents| > 0 {
      var now := NewMarkers(markers, tracked, percents[0]);
      var tracked' := tracked + Elements(now);
      NewMarkersSpec(markers, tracked, percents[0]);
      ScrollSessionSpec(markers, tracked', percents[1..]);
      var later := ScrollSession(markers, tracked', percents[1..]);
      var r := now + later;
      assert ScrollSession(markers, tracked, percents) == r;
      forall i, j | 0 <= i < j < |r|
        ensures r[i] != r[j]
      {
        if j >= |now| && i < |now| {
          assert now[i] in now && now[i] in Elements(now);
          assert r[j] == later[j - |now|] && later[j - |now|] in later;
        } else if j >= |now| {
          assert r[i] == later[i - |now|] && r[j] == later[j - |now|];
        }
      }
      forall m | m in r
        ensures exists k :: 0 <= k < |percents| && percents[k] >= m
      {
        if m in now {
          assert percents[0] >= m;
        } else {
          var k :| 0 <= k < |percents[1..]| && percents[1..][k] >= m;
          assert percents[k + 1] >= m;
        }
      }
    }
  }

  // ----- section views (setupSectionViewTracking) -----

  /** An observer entry: whether the section intersects, how much of it is visible, and its name. */
  datatype Entry = Entry(isIntersecting: bool, intersectionRatio: real, sectionName: string)

  /** The entries that count as a view: intersecting, more than half visible. */
  predicate Visible(e: Entry)
  {
    e.isIntersecting && e.intersectionRatio > 0.5
  }

  /** The section names one batch of entries reports, in entry order, each the first time it is seen. */
  function NewSections(viewed: set<string>, entries: seq<Entry>): seq<string>
    decreases |entries|
  {
    if |entries| == 0 then []
    else
      var e := entries[0];
      if Visible(e) && e.sectionName !in viewed then [e.sectionName] + NewSections(viewed + {e.sectionName}, entries[1..])
      else NewSections(viewed, entries[1..])
  }

  function Names(s: seq<string>): set<string>
  {
    set n | n in s
  }

  /**
   * A batch reports no name twice and none seen before; every name it
   * reports belongs to a visible entry, and every visible entry's name is
   * viewed afterwards.
   */
  lemma {:induction false} NewSectionsSpec(viewed: set<string>, entries: seq<Entry>)
    ensures NoRepeats(NewSections(viewed, entries))
    ensures forall n :: n in NewSections(viewed, entries) ==> n !in viewed
    ensures forall n :: n in NewSections(viewed, entries) ==>
      exists k :: 0 <= k < |entries| && Visible(entries[k]) && entries[k].sectionName == n
    ensures forall k :: 0 <= k < |entries| && Visible(entries[k]) ==>
      entries[k].sectionName in viewed + Names(NewSections(viewed, entries))
    decreases |entries|
  {
    if |entries| > 0 {
      var e := entries[0];
      var rest := entries[1..];
      var viewed' := if Visible(e) && e.sectionName !in viewed then viewed + {e.sectionName} else viewed;
      NewSectionsSpec(viewed', rest);
      var tail := NewSections(viewed', rest);
      var r := NewSections(viewed, entries);
      assert r == if Visible(e) && e.sectionName !in viewed then [e.sectionName] + tail else tail;
      forall n | n in r
        ensures exists k :: 0 <= k < |entries| && Visible(entries[k]) && entries[k].sectionName == n
      {
        if n in tail {
          var k :| 0 <= k < |rest| && Visible(rest[k]) && rest[k].sectionName == n;
          assert entries[k + 1] == rest[k];
        } else {
          assert entries[0] == e;
        }
      }
      forall k | 0 <= k < |entries| && Visible(entries[k])
        ensures entries[k].sectionName in viewed + Names(r)
      {
        if k > 0 {
          assert entries[k] == rest[k - 1];
        }
      }
      if Visible(e) && e.sectionName !in viewed {
        forall i, j | 0 <= i < j < |r|
          ensures r[i] != r[j]
        {
          if i == 0 {
            assert r[j] == tail[j - 1] && tail[j - 1] in tail;
          } else {
            assert r[i] == tail[i - 1] && r[j] == tail[j - 1];
          }
        }
      }
    }
  }

  /**
   * The `trackGAEvent('section_view', …)` call for one newly viewed section:
   * its name and the time since the page started, at clock reading `now`.
   */
  function SectionViewEvent(name: string, now: int, pageStart: int): (e: SiteAnalytics.GaEvent)
    ensures e.name == "section_view" && e.at == now
    ensures e.parameters.Keys == {"section_name", "view_time"}
    ensures e.parameters["section_name"] == JStr(name)
    ensures now >= pageStart ==> e.parameters["view_time"].JNum? && e.parameters["view_time"].n >= 0
  {
    SiteAnalytics.GaEvent("section_view", map["section_name" := JStr(name), "view_time" := JNum(now - pageStart)], now)
  }

  class SectionViewTracker {
    /** The `viewedSections` set. */
    var viewedSections: set<string>

    constructor ()
      ensures viewedSections == {}
    {
      viewedSections := {};
    }

    /** The observer callback for one batch of entries: the section names it reports, in order. */
    method OnEntries(entries: seq<Entry>, now: int, pageStart: int) returns (reported: seq<string>, events: seq<SiteAnalytics.GaEvent>)
      modifies this
      ensures reported == NewSections(old(viewedSections), entries)
      ensures viewedSections == old(viewedSections) + Names(reported)
      ensures |events| == |reported| && forall j :: 0 <= j < |events| ==> events[j] == SectionViewEvent(reported[j], now, pageStart)
    {
      reported := [];
      events := [];
      var i := 0;
      while i < |entries|
        invariant 0 <= i <= |entries|
        invariant reported + NewSections(viewedSections, entries[i..]) == NewSections(old(viewedSections), entries)
        invariant viewedSections == old(viewedSections) + Names(reported)
        invariant |events| == |reported| && forall j :: 0 <= j < |events| ==> events[j] == SectionViewEvent(reported[j], now, pageStart)
      {
        var entry := entries[i];
        assert entries[i..][1..] == entries[i + 1..];
        if entry.isIntersecting && entry.intersectionRatio > 0.5 {
          if entry.sectionName !in viewedSections {
            viewedSections := viewedSections + {entry.sectionName};
            reported := reported + [entry.sectionName];
            events := events + [SectionViewEvent(entry.sectionName, now, pageStart)];
          }
        }
        i := i + 1;
      }
    }
  }

  // ----- form start (setupFormAnalytics) -----

  /** `form.id || form.className || \`form_${index}\``. */
  function FormName(id: string, className: string, index: nat): (r: string)
    ensures r != ""
    ensures id != "" ==> r == id
    ensures id == "" && className != "" ==> r == className
    ensures id == "" && className == "" ==>
      && |r| > 5 && r[..5] == "form_"
      && (forall k :: 5 <= k < |r| ==> '0' <= r[k] <= '9')
      && ParseDecimal(r[5..]) == index
  {
    NatToTextRoundTrip(index);
    assert ("form_" + NatToText(index))[5..] == NatToText(index);
    if id != "" then id else if className != "" then className else "form_" + NatToText(index)
  }

  /** Two forms without id or class at different positions get different names. */
  lemma FormNameDistinct(i: nat, j: nat)
    requires i != j
    ensures FormName("", "", i) != FormName("", "", j)
  {
  }

  /**
   * The `trackGAEvent('form_start', …)` call: the form's name and the name of
   * the section holding it, as `getContainingSection(form)` gives it.
   */
  function FormStartEvent(formName: string, closest: Option<Classifiers.Section>, now: int): (e: SiteAnalytics.GaEvent)
    ensures e.name == "form_start" && e.at == now
    ensures e.parameters.Keys == {"form_name", "form_location"}
    ensures e.parameters["form_name"] == JStr(formName)
    ensures closest.None? ==> e.parameters["form_location"] == JStr("unknown")
    ensures closest.Some? ==> e.parameters["form_location"] == JStr(Classifiers.SectionName(closest.value))
  {
    SiteAnalytics.GaEvent("form_start",
      map["form_name" := JStr(formName), "form_location" := JStr(Classifiers.ContainingSection(closest))], now)
  }

  class FormStartTracker {
    const formName: string
    /** The per-form `formStarted` flag. */
    var formStarted: bool

    constructor (name: string)
      ensures formName == name && !formStarted
    {
      formName := name;
      formStarted := false;
    }

    /** The `input` listener: the first input reports `form_start` with the form's name; later ones report nothing. */
    method OnInput(closest: Option<Classifiers.Section>, now: int) returns (report: Option<string>, event: Option<SiteAnalytics.GaEvent>)
      modifies this
      ensures report == if old(formStarted) then None else Some(formName)
      ensures event == if old(formStarted) then None else Some(FormStartEvent(formName, closest, now))
      ensures formStarted
    {
      report := None;
      event := None;
      if !formStarted {
        formStarted := true;
        report := Some(formName);
        event := Some(FormStartEvent(formName, closest, now));
      }
    }
  }

  // ----- engagement (setupEngagementTracking) -----

  /** `isEngaged` and `engagementStartTime`. */
  datatype Engagement = Engagement(isEngaged: bool, startTime: int)

  /** What happens to the page: user activity, the inactivity timer firing, or a visibility change. */
  datatype Signal = Activity | InactivityTimeout | VisibilityChange(hidden: bool)

  /** A `user_engagement` event: the engaged time and whether it was sent because the page was hidden. */
  datatype Report = Report(engagementTime: int, hidden: bool)

  datatype StepResult = StepResult(next: Engagement, report: Option<Report>)

  /** The effect of one signal at time `now` on the engagement state. */
  function Step(e: Engagement, signal: Signal, now: int): StepResult
  {
    match signal
    case Activity =>
      if !e.isEngaged then StepResult(Engagement(true, now), None) else StepResult(e, None)
    case InactivityTimeout =>
      if e.isEngaged then StepResult(e.(isEngaged := false), Some(Report(now - e.startTime, false)))
      else StepResult(e, None)
    case VisibilityChange(hidden) =>
      if hidden && e.isEngaged then StepResult(e, Some(Report(now - e.startTime, true)))
      else if !hidden then StepResult(Engagement(true, now), None)
      else StepResult(e, None)
  }

  /** The reports a run of timed signals produces, in order. */
  function Run(e: Engagement, signals: seq<(Signal, int)>): seq<Report>
    decreases |signals|
  {
    if |signals| == 0 then []
    else
      var s := Step(e, signals[0].0, signals[0].1);
      (if s.report.Some? then [s.report.value] else []) + Run(s.next, signals[1..])
  }

  /** The signal times never go back, nor before `start`. */
  predicate Monotone(start: int, signals: seq<(Signal, int)>)
  {
    (forall i :: 0 <= i < |signals| ==> start <= signals[i].1)
    && (forall i, j :: 0 <= i < j < |signals| ==> signals[i].1 <= signals[j].1)
  }

  /** Under a clock that never goes back, no engagement report is negative. */
  lemma {:induction false} RunReportsNonNegative(e: Engagement, signals: seq<(Signal, int)>)
    requires Monotone(e.startTime, signals)
    ensures forall i :: 0 <= i < |Run(e, signals)| ==> Run(e, signals)[i].engagementTime >= 0
    decreases |signals|
  {
    if |signals| > 0 {
      var s := Step(e, signals[0].0, signals[0].1);
      assert s.next.startTime <= signals[0].1;
      var rest := signals[1..];
      assert Monotone(s.next.startTime, rest) by {
        assert forall i :: 0 <= i < |rest| ==> rest[i] == signals[i + 1];
      }
      RunReportsNonNegative(s.next, rest);
    }
  }

  /** Once the inactivity timer has reported, it reports nothing again until the user is back. */
  lemma TimeoutReportsOnce(e: Engagement, t1: int, t2: int)
    ensures Step(Step(e, InactivityTimeout, t1).next, InactivityTimeout, t2).report.None?
    ensures !Step(e, InactivityTimeout, t1).next.isEngaged
  {
  }

  /**
   * Hiding the page reports the engaged time but leaves the state as it was,
   * so a later timer report counts the same span again from the same start.
   */
  lemma HiddenKeepsEngagement(e: Engagement, t1: int, t2: int)
    requires e.isEngaged
    ensures Step(e, VisibilityChange(true), t1) == StepResult(e, Some(Report(t1 - e.startTime, true)))
    ensures Step(Step(e, VisibilityChange(true), t1).next, InactivityTimeout, t2).report == Some(Report(t2 - e.startTime, false))
  {
  }

  class EngagementTracker {
    var isEngaged: bool
    var engagementStartTime: int

    /** The closure's initial state: engaged since the set-up time. */
    constructor (now: int)
      ensures isEngaged && engagementStartTime == now
    {
      engagementStartTime := now;
      isEngaged := true;
    }

    function State(): Engagement
      reads this
    {
      Engagement(isEngaged, engagementStartTime)
    }

    /** `resetInactivityTimer` on user activity; re-arming the timer is left to the caller. */
    method ResetInactivityTimer(now: int)
      modifies this
      ensures State() == Step(old(State()), Activity, now).next
    {
      if !isEngaged {
        isEngaged := true;
        engagementStartTime := now;
      }
    }

    /** The inactivity timer's callback. */
    method OnInactivityTimeout(now: int) returns (report: Option<Report>)
      modifies this
      ensures StepResult(State(), report) == Step(old(State()), InactivityTimeout, now)
    {
      report := None;
      if isEngaged {
        var engagementTime := now - engagementStartTime;
        report := Some(Report(engagementTime, false));
        isEngaged := false;
      }
    }

    /** The `visibilitychange` listener. */
    method OnVisibilityChange(hidden: bool, now: int) returns (report: Option<Report>)
      modifies this
      ensures StepResult(State(), report) == Step(old(State()), VisibilityChange(hidden), now)
    {
      report := None;
      if hidden && isEngaged {
        var engagementTime := now - engagementStartTime;
        report := Some(Report(engagementTime, true));
      } else if !hidden {
        engagementStartTime := now;
        isEngaged := true;
      }
    }
  }
}
