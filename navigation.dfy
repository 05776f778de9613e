/**
 * static/js/modules/navigation.js (static/js/script.js:50-104 has the same
 * three functions): the navbar's `scrolled` class, `scrollToSection` and
 * `setActiveNavLink`. Links are objects whose class lists are changed in
 * place; `document.getElementById` is a map from section id to its box.
 */
module Navigation {
  import opened Wrappers

  const ACTIVE_CLASS := "active"
  const SCROLLED_CLASS := "scrolled"
  /** The navbar is `scrolled` strictly past this many pixels. */
  const SCROLL_THRESHOLD := 10

  /** A section element's `offsetTop` and `offsetHeight`. */
  datatype Box = Box(top: int, height: int)

  /** A `.nav-link` element. */
  class NavLink {
    const section: Option<string>   // its `data-section` attribute, when it has one
    var classes: set<string>        // its classList

    constructor (section: Option<string>, classes: set<string>)
      ensures this.section == section && this.classes == classes
    {
      this.section := section;
      this.classes := classes;
    }
  }

  /** `document.querySelectorAll('.nav-link')` never lists an element twice. */
  ghost predicate Distinct(links: seq<NavLink>) {
    forall i, j :: 0 <= i < j < |links| ==> links[i] != links[j]
  }

  function Sections(links: seq<NavLink>): (r: seq<Option<string>>)
    ensures |r| == |links| && forall i :: 0 <= i < |links| ==> r[i] == links[i].section
  {
    seq(|links|, i requires 0 <= i < |links| => links[i].section)
  }

  ghost function Classes(links: seq<NavLink>): (r: seq<set<string>>)
    reads set l | l in links
    ensures |r| == |links| && forall i :: 0 <= i < |links| ==> r[i] == links[i].classes
  {
    seq(|links|, i reads set l | l in links requires 0 <= i < |links| => links[i].classes)
  }

  /** `querySelector('.nav-link[data-section="id"]')`: the first link whose attribute is `id`, or `|sections|`. */
  function FirstLinkFor(sections: seq<Option<string>>, id: string): (k: nat)
    ensures k <= |sections|
    ensures k < |sections| ==> sections[k] == Some(id)
    ensures forall j :: 0 <= j < k ==> sections[j] != Some(id)
  {
    if |sections| == 0 then 0
    else if sections[0] == Some(id) then 0
    else
      var k := 1 + FirstLinkFor(sections[1..], id);
      assert forall j :: 1 <= j < k ==> sections[j] == sections[1..][j - 1];
      k
  }

  /** The class lists after `setActiveNavLink(id)`, as a function of those before. */
  function Activate(sections: seq<Option<string>>, classes: seq<set<string>>, id: string): (after: seq<set<string>>)
    requires |sections| == |classes|
    ensures |after| == |classes|
    ensures forall i :: 0 <= i < |after| ==> (ACTIVE_CLASS in after[i] <==> i == FirstLinkFor(sections, id))
    ensures forall i :: 0 <= i < |after| ==> after[i] - {ACTIVE_CLASS} == classes[i] - {ACTIVE_CLASS}
  {
    var k := FirstLinkFor(sections, id);
    seq(|classes|, i requires 0 <= i < |classes| =>
      if i == k then (classes[i] - {ACTIVE_CLASS}) + {ACTIVE_CLASS} else classes[i] - {ACTIVE_CLASS})
  }

  /**
   * After `setActiveNavLink(id)` at most one link is active; it is the first
   * link for `id`, and there is none when no link carries `id`.
   */
  lemma AtMostOneActive(sections: seq<Option<string>>, classes: seq<set<string>>, id: string, i: nat, j: nat)
    requires |sections| == |classes|
    requires i < |classes| && j < |classes|
    requires ACTIVE_CLASS in Activate(sections, classes, id)[i] && ACTIVE_CLASS in Activate(sections, classes, id)[j]
    ensures i == j && sections[i] == Some(id)
    ensures forall k :: 0 <= k < i ==> sections[k] != Some(id)
  {
  }

  /** An id that no link carries leaves every link inactive. */
  lemma UnknownIdClearsAll(sections: seq<Option<string>>, classes: seq<set<string>>, id: string)
    requires |sections| == |classes|
    requires Some(id) !in sections
    ensures forall i :: 0 <= i < |classes| ==> ACTIVE_CLASS !in Activate(sections, classes, id)[i]
  {
  }

  /** Calling `setActiveNavLink(id)` twice is calling it once. */
  lemma ActivateIdempotent(sections: seq<Option<string>>, classes: seq<set<string>>, id: string)
    requires |sections| == |classes|
    ensures Activate(sections, Activate(sections, classes, id), id) == Activate(sections, classes, id)
  {
    var once := Activate(sections, classes, id);
    var twice := Activate(sections, once, id);
    forall i | 0 <= i < |classes| ensures twice[i] == once[i] {
      assert twice[i] - {ACTIVE_CLASS} == once[i] - {ACTIVE_CLASS};
      assert ACTIVE_CLASS in twice[i] <==> ACTIVE_CLASS in once[i];
    }
  }

  /** The last of `setActiveNavLink(a)` then `setActiveNavLink(b)` wins. */
  lemma ActivateLastWins(sections: seq<Option<string>>, classes: seq<set<string>>, a: string, b: string)
    requires |sections| == |classes|
    ensures Activate(sections, Activate(sections, classes, a), b) == Activate(sections, classes, b)
  {
    var first := Activate(sections, classes, a);
    var second := Activate(sections, first, b);
    var direct := Activate(sections, classes, b);
    forall i | 0 <= i < |classes| ensures second[i] == direct[i] {
      assert second[i] - {ACTIVE_CLASS} == direct[i] - {ACTIVE_CLASS};
      assert ACTIVE_CLASS in second[i] <==> ACTIVE_CLASS in direct[i];
    }
  }

  /** `setActiveNavLink`: clear `active` everywhere (the `forEach`), then set it on the first link for `id`. */
  method SetActiveNavLink(links: seq<NavLink>, id: string)
    requires Distinct(links)
    modifies set l | l in links
    ensures Classes(links) == Activate(Sections(links), old(Classes(links)), id)
  {
    var i := 0;
    while i < |links|
      invariant 0 <= i <= |links|
      invariant forall j :: 0 <= j < i ==> links[j].classes == old(links[j].classes) - {ACTIVE_CLASS}
      invariant forall j :: i <= j < |links| ==> links[j].classes == old(links[j].classes)
    {
      links[i].classes := links[i].classes - {ACTIVE_CLASS};
      i := i + 1;
    }
    var k := FirstLinkFor(Sections(links), id);
    if k < |links| {
      links[k].classes := links[k].classes + {ACTIVE_CLASS};
    }
  }

  /** The scroll listener's effect on the navbar's class list. */
  function AfterScroll(classes: set<string>, scrollY: int): set<string> {
    if scrollY > SCROLL_THRESHOLD then classes + {SCROLLED_CLASS} else classes - {SCROLLED_CLASS}
  }

  /** The navbar's class list after a series of scroll events, oldest first. */
  function AfterScrolls(classes: set<string>, events: seq<int>): set<string>
    decreases |events|
  {
    if |events| == 0 then classes else AfterScrolls(AfterScroll(classes, events[0]), events[1..])
  }

  /** The navbar is `scrolled` exactly when the last scroll event was past the threshold; no other class changes. */
  lemma {:induction false} ScrolledFollowsLastEvent(classes: set<string>, events: seq<int>)
    requires |events| > 0
    ensures SCROLLED_CLASS in AfterScrolls(classes, events) <==> events[|events| - 1] > SCROLL_THRESHOLD
    ensures AfterScrolls(classes, events) - {SCROLLED_CLASS} == classes - {SCROLLED_CLASS}
    decreases |events|
  {
    var next := AfterScroll(classes, events[0]);
    if |events| > 1 {
      ScrolledFollowsLastEvent(next, events[1..]);
      assert events[1..][|events[1..]| - 1] == events[|events| - 1];
    } else {
      assert AfterScrolls(next, events[1..]) == next;
    }
  }

  /** `.navbar`: `initNavigation` shows it and registers the scroll listener. */
  class Navbar {
    var classes: set<string>
    const offsetHeight: int

    constructor (classes: set<string>, offsetHeight: int)
      ensures this.classes == classes && this.offsetHeight == offsetHeight
    {
      this.classes := classes;
      this.offsetHeight := offsetHeight;
    }

    /** The scroll listener. */
    method OnScroll(scrollY: int)
      modifies this
      ensures classes == AfterScroll(old(classes), scrollY)
    {
      if scrollY > SCROLL_THRESHOLD {
        classes := classes + {SCROLLED_CLASS};
      } else {
        classes := classes - {SCROLLED_CLASS};
      }
    }
  }

  /**
   * `scrollToSection(id)`: an unknown id changes nothing; otherwise the
   * scroll target is the section's top less the navbar's height, and the
   * id's link becomes active.
   */
  method ScrollToSection(id: string, page: map<string, Box>, navbar: Navbar, links: seq<NavLink>)
    returns (target: Option<int>)
    requires Distinct(links)
    modifies set l | l in links
    ensures target == if id in page then Some(page[id].top - navbar.offsetHeight) else None
    ensures Classes(links) == if id in page then Activate(Sections(links), old(Classes(links)), id) else old(Classes(links))
  {
    if id !in page {
      return None;
    }
    var section := page[id];
    var sectionPosition := section.top - navbar.offsetHeight;
    target := Some(sectionPosition);
    SetActiveNavLink(links, id);
  }
}
