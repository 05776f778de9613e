/**
 * static/js/main.js: the order in which the page's initialisers run, and the
 * delayed check that marks the nav link of the section in view (the same
 * loop is `updateActiveNavLink` in static/js/script.js). The page is a map
 * from element id to that element's box; a missing id is a missing section.
 */
module Boot {
  import opened Wrappers
  import Navigation

  /** The sections examined, in this order. */
  const SECTION_ORDER: seq<string> := ["about", "services", "contact"]
  /** The probe sits this many pixels below the top of the viewport. */
  const PROBE_OFFSET := 100

  /** `probe >= top && probe < top + height`: the box is half open at the bottom. */
  predicate Contains(b: Navigation.Box, probe: int) {
    b.top <= probe < b.top + b.height
  }

  /** The section `id` exists and its box holds the probe. */
  predicate InView(page: map<string, Navigation.Box>, id: string, probe: int) {
    id in page && Contains(page[id], probe)
  }

  /** Position in `order` of the first section in view, or `|order|` when none is. */
  function FirstInView(order: seq<string>, page: map<string, Navigation.Box>, probe: int): (k: nat)
    ensures k <= |order|
    ensures k < |order| ==> InView(page, order[k], probe)
    ensures forall j :: 0 <= j < k ==> !InView(page, order[j], probe)
  {
    if |order| == 0 then 0
    else if InView(page, order[0], probe) then 0
    else
      var k := 1 + FirstInView(order[1..], page, probe);
      assert forall j :: 1 <= j < k ==> order[j] == order[1..][j - 1];
      k
  }

  /** The section whose link the check activates at scroll offset `scrollY`, if any. */
  function DetectedSection(scrollY: int, page: map<string, Navigation.Box>): Option<string> {
    var k := FirstInView(SECTION_ORDER, page, scrollY + PROBE_OFFSET);
    if k < |SECTION_ORDER| then Some(SECTION_ORDER[k]) else None
  }

  /**
   * The detected section is one of the three, exists and holds the probe, and
   * every section before it in the order is missing or does not hold the probe.
   * No section is detected exactly when none of the three holds the probe.
   */
  lemma DetectedSectionSpec(scrollY: int, page: map<string, Navigation.Box>)
    ensures var d := DetectedSection(scrollY, page);
      d.Some? ==>
        exists k :: 0 <= k < |SECTION_ORDER| && SECTION_ORDER[k] == d.value &&
          InView(page, d.value, scrollY + PROBE_OFFSET) &&
          forall j :: 0 <= j < k ==> !InView(page, SECTION_ORDER[j], scrollY + PROBE_OFFSET)
    ensures DetectedSection(scrollY, page).None? <==>
      forall j :: 0 <= j < |SECTION_ORDER| ==> !InView(page, SECTION_ORDER[j], scrollY + PROBE_OFFSET)
  {
    var k := FirstInView(SECTION_ORDER, page, scrollY + PROBE_OFFSET);
    if k < |SECTION_ORDER| {
      assert SECTION_ORDER[k] == DetectedSection(scrollY, page).value;
    }
  }

  /** A missing `about` does not end the search: `services` is still found. */
  lemma MissingSectionSkipped(scrollY: int, page: map<string, Navigation.Box>)
    requires "about" !in page
    requires InView(page, "services", scrollY + PROBE_OFFSET)
    ensures DetectedSection(scrollY, page) == Some("services")
  {
    assert !InView(page, SECTION_ORDER[0], scrollY + PROBE_OFFSET);
    assert InView(page, SECTION_ORDER[1], scrollY + PROBE_OFFSET);
  }

  /**
   * Boxes are half open: with `about` at [0, 500) and `services` at
   * [500, 1000), the probe at 500 (scrollY 400) belongs to `services`, and
   * one pixel less to `about`.
   */
  lemma BoundaryBelongsToNextSection()
    ensures var page := map["about" := Navigation.Box(0, 500), "services" := Navigation.Box(500, 500)];
      DetectedSection(400, page) == Some("services") && DetectedSection(399, page) == Some("about")
  {
    var page := map["about" := Navigation.Box(0, 500), "services" := Navigation.Box(500, 500)];
    assert !InView(page, SECTION_ORDER[0], 500) && InView(page, SECTION_ORDER[1], 500);
    assert InView(page, SECTION_ORDER[0], 499);
  }

  /**
   * The check itself: walk the sections in order, skip missing ones
   * (`continue`), and activate the link of the first one holding the probe
   * (`break`). Returns the section it activated, if any; at most one
   * `setActiveNavLink` call is made.
   */
  method UpdateActiveNavLink(scrollY: int, page: map<string, Navigation.Box>, links: seq<Navigation.NavLink>)
    returns (activated: Option<string>)
    requires Navigation.Distinct(links)
    modifies set l | l in links
    ensures activated == DetectedSection(scrollY, page)
    ensures activated.Some? ==>
      Navigation.Classes(links) == Navigation.Activate(Navigation.Sections(links), old(Navigation.Classes(links)), activated.value)
    ensures activated.None? ==> Navigation.Classes(links) == old(Navigation.Classes(links))
  {
    var sections := SECTION_ORDER;
    var scrollPosition := scrollY + PROBE_OFFSET;
    activated := None;
    var i := 0;
    while i < |sections|
      invariant 0 <= i <= |sections|
      invariant forall j :: 0 <= j < i ==> !InView(page, sections[j], scrollPosition)
      invariant activated == None
      invariant Navigation.Classes(links) == old(Navigation.Classes(links))
    {
      var sectionId := sections[i];
      if sectionId !in page {
        i := i + 1;
        continue;
      }
      var section := page[sectionId];
      var sectionTop := section.top;
      var sectionHeight := section.height;
      if scrollPosition >= sectionTop && scrollPosition < sectionTop + sectionHeight {
        Navigation.SetActiveNavLink(links, sectionId);
        activated := Some(sectionId);
        assert FirstInView(sections, page, scrollPosition) == i;
        break;
      }
      i := i + 1;
    }
    if activated.None? {
      assert FirstInView(sections, page, scrollPosition) == |sections|;
    }
  }

  // ---------------------------------------------------------------
  // Start-up order
  // ---------------------------------------------------------------

  /** What start-up does, one step at a time. */
  datatype Step =
    | InitNavigation | InitAnimations | InitGallery | InitForms | InitServiceCards
    | ScheduleScrollRefresh      // setTimeout(() => ScrollTrigger.refresh(), 500)
    | ScheduleSectionCheck       // setTimeout(<the section check>, 1000)

  predicate IsInitialiser(s: Step) {
    s.InitNavigation? || s.InitAnimations? || s.InitGallery? || s.InitForms? || s.InitServiceCards?
  }

  /** The initialisers in the order the page calls them. */
  const INIT_ORDER: seq<Step> := [InitNavigation, InitAnimations, InitGallery, InitForms, InitServiceCards]

  /** The `DOMContentLoaded` handler of main.js; `scrollTriggerLoaded` is `typeof ScrollTrigger !== 'undefined'`. */
  function MainJsStart(scrollTriggerLoaded: bool): (steps: seq<Step>)
    ensures |steps| == |INIT_ORDER| + (if scrollTriggerLoaded then 2 else 1)
    ensures steps[..|INIT_ORDER|] == INIT_ORDER && steps[|steps| - 1] == ScheduleSectionCheck
  {
    INIT_ORDER + (if scrollTriggerLoaded then [ScheduleScrollRefresh] else []) + [ScheduleSectionCheck]
  }

  /**
   * static/js/script.js registers the same handler, but its 1000 ms timer is
   * set outside the handler, when the script runs, so it is scheduled first.
   */
  function ScriptJsStart(scrollTriggerLoaded: bool): (steps: seq<Step>)
    ensures |steps| == |INIT_ORDER| + (if scrollTriggerLoaded then 2 else 1)
    ensures steps[0] == ScheduleSectionCheck && steps[1..1 + |INIT_ORDER|] == INIT_ORDER
  {
    [ScheduleSectionCheck] + INIT_ORDER + (if scrollTriggerLoaded then [ScheduleScrollRefresh] else [])
  }

  /**
   * The initialiser calls among `steps`, in order: each initialiser as often
   * as `steps` calls it, and nothing else.
   */
  function Initialisers(steps: seq<Step>): (r: seq<Step>)
    ensures |r| <= |steps|
    ensures forall i :: 0 <= i < |r| ==> IsInitialiser(r[i])
  {
    if |steps| == 0 then []
    else (if IsInitialiser(steps[0]) then [steps[0]] else []) + Initialisers(steps[1..])
  }

  /** Every initialiser is kept as often as `steps` calls it. */
  lemma {:induction false} InitialisersKeepCalls(steps: seq<Step>, s: Step)
    requires IsInitialiser(s)
    ensures multiset(Initialisers(steps))[s] == multiset(steps)[s]
    decreases |steps|
  {
    if |steps| > 0 {
      InitialisersKeepCalls(steps[1..], s);
      assert steps == [steps[0]] + steps[1..];
    }
  }

  /** `idx` picks `r` out of `steps` left to right. */
  ghost predicate PicksOut(r: seq<Step>, steps: seq<Step>, idx: seq<nat>) {
    |idx| == |r| &&
    (forall k :: 0 <= k < |idx| ==> idx[k] < |steps| && steps[idx[k]] == r[k]) &&
    (forall k, l :: 0 <= k < l < |idx| ==> idx[k] < idx[l])
  }

  /** The initialisers keep the order in which `steps` calls them. */
  lemma {:induction false} InitialisersInOrder(steps: seq<Step>)
    ensures exists idx :: PicksOut(Initialisers(steps), steps, idx)
    decreases |steps|
  {
    if |steps| == 0 {
      var none: seq<nat> := [];
      assert Initialisers(steps) == [];
      assert PicksOut(Initialisers(steps), steps, none);
    } else {
      InitialisersInOrder(steps[1..]);
      var tail := Initialisers(steps[1..]);
      var rest :| PicksOut(tail, steps[1..], rest);
      var shifted := Shifted(rest);
      PicksOutShifted(tail, steps, rest);
      if IsInitialiser(steps[0]) {
        PicksOutCons(tail, steps, shifted);
        assert Initialisers(steps) == [steps[0]] + tail;
        assert PicksOut(Initialisers(steps), steps, [0] + shifted);
      } else {
        assert Initialisers(steps) == tail;
        assert PicksOut(Initialisers(steps), steps, shifted);
      }
    }
  }

  /** Each index moved one place on. */
  ghost function Shifted(idx: seq<nat>): (r: seq<nat>)
    ensures |r| == |idx| && forall k :: 0 <= k < |idx| ==> r[k] == idx[k] + 1
  {
    seq(|idx|, k requires 0 <= k < |idx| => idx[k] + 1)
  }

  /** What is picked out of the rest of `steps` is picked out of `steps` one place on. */
  lemma PicksOutShifted(r: seq<Step>, steps: seq<Step>, idx: seq<nat>)
    requires |steps| > 0 && PicksOut(r, steps[1..], idx)
    ensures PicksOut(r, steps, Shifted(idx))
  {
    var shifted := Shifted(idx);
    forall k | 0 <= k < |idx|
      ensures shifted[k] < |steps| && steps[shifted[k]] == r[k]
    {
      assert steps[idx[k] + 1] == steps[1..][idx[k]];
    }
  }

  /** The first step, picked before indices that all come after it. */
  lemma PicksOutCons(r: seq<Step>, steps: seq<Step>, idx: seq<nat>)
    requires |steps| > 0 && PicksOut(r, steps, idx) && forall k :: 0 <= k < |idx| ==> idx[k] > 0
    ensures PicksOut([steps[0]] + r, steps, [0] + idx)
  {
  }

  lemma {:induction false} InitialisersAppend(a: seq<Step>, b: seq<Step>)
    ensures Initialisers(a + b) == Initialisers(a) + Initialisers(b)
    decreases |a|
  {
    if |a| > 0 {
      assert (a + b)[1..] == a[1..] + b;
      InitialisersAppend(a[1..], b);
    } else {
      assert a + b == b;
    }
  }

  /** Keeping only the initialisers of a sequence of initialisers keeps all of it. */
  lemma {:induction false} OnlyInitialisers(steps: seq<Step>)
    requires forall i :: 0 <= i < |steps| ==> IsInitialiser(steps[i])
    ensures Initialisers(steps) == steps
    decreases |steps|
  {
    if |steps| > 0 {
      OnlyInitialisers(steps[1..]);
      assert steps == [steps[0]] + steps[1..];
    }
  }

  /** The two scheduled steps are not initialisers. */
  lemma SchedulingIsNotInitialising(scrollTriggerLoaded: bool)
    ensures Initialisers(if scrollTriggerLoaded then [ScheduleScrollRefresh] else []) == []
    ensures Initialisers([ScheduleSectionCheck]) == []
  {
    assert [ScheduleSectionCheck][1..] == [];
    assert [ScheduleScrollRefresh][1..] == [];
  }

  /**
   * Both start-up sequences call navigation, animations, gallery, forms and
   * service cards once each and in that order.
   */
  lemma StartUpOrder(scrollTriggerLoaded: bool)
    ensures Initialisers(MainJsStart(scrollTriggerLoaded)) == INIT_ORDER
    ensures Initialisers(ScriptJsStart(scrollTriggerLoaded)) == INIT_ORDER
  {
    var tail: seq<Step> := if scrollTriggerLoaded then [ScheduleScrollRefresh] else [];
    var check: seq<Step> := [ScheduleSectionCheck];
    OnlyInitialisers(INIT_ORDER);
    SchedulingIsNotInitialising(scrollTriggerLoaded);
    InitialisersAppend(INIT_ORDER, tail);
    InitialisersAppend(INIT_ORDER + tail, check);
    InitialisersAppend(check, INIT_ORDER + tail);
    assert MainJsStart(scrollTriggerLoaded) == (INIT_ORDER + tail) + check;
    assert ScriptJsStart(scrollTriggerLoaded) == check + (INIT_ORDER + tail);
  }

  /**
   * The two start-ups do the same steps, only the section check moves: main.js
   * schedules it last, script.js first. The ScrollTrigger refresh is scheduled
   * exactly when ScrollTrigger is loaded.
   */
  lemma StartUpSteps(scrollTriggerLoaded: bool)
    ensures var main := MainJsStart(scrollTriggerLoaded);
      main[|main| - 1] == ScheduleSectionCheck &&
      ScriptJsStart(scrollTriggerLoaded) == [ScheduleSectionCheck] + main[..|main| - 1]
    ensures ScheduleScrollRefresh in MainJsStart(scrollTriggerLoaded) <==> scrollTriggerLoaded
  {
    var tail: seq<Step> := if scrollTriggerLoaded then [ScheduleScrollRefresh] else [];
    var check: seq<Step> := [ScheduleSectionCheck];
    assert MainJsStart(scrollTriggerLoaded) == (INIT_ORDER + tail) + check;
    assert ScriptJsStart(scrollTriggerLoaded) == check + (INIT_ORDER + tail);
    assert ScheduleScrollRefresh !in INIT_ORDER;
  }
}
