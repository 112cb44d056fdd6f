/** The page navigation bar: the "scrolled" style flag, the scroll-spy that
    highlights the section under the top of the viewport, and the click
    handler that scrolls to a section. The page layout is a parameter: a
    map from element id to the element's vertical box, in which a missing
    id stands for `document.getElementById` returning null. */
module Navbar {
  import opened Wrappers

  /** The ids of `NAV_ITEMS`, in menu order. */
  const NavIds: seq<string> := ["home", "history", "achievements", "partners", "campus", "admission"]

  /** Height of the fixed bar, subtracted from a section's top when
      scrolling to it. */
  const BarHeight: real := 80.0
  /** Scroll distance past which the bar switches to its scrolled style. */
  const ScrolledThreshold: real := 50.0
  /** How far below the top of the viewport the spy probes. */
  const ProbeOffset: real := 100.0

  /** An element's `offsetTop` and `offsetHeight`. */
  datatype Box = Box(offsetTop: real, offsetHeight: real)

  type Layout = map<string, Box>

  /** The element with this id exists and its interval
      `[offsetTop, offsetTop + offsetHeight)` contains the probe. */
  predicate Hit(layout: Layout, id: string, probe: real) {
    id in layout && layout[id].offsetTop <= probe
    && layout[id].offsetTop + layout[id].offsetHeight > probe
  }

  /** The active section after the spy has walked `ids` in order, starting
      from `current`: every hit overwrites the previous choice. */
  function SpyPick(ids: seq<string>, layout: Layout, probe: real, current: string): string {
    if ids == [] then current
    else if Hit(layout, ids[|ids| - 1], probe) then ids[|ids| - 1]
    else SpyPick(ids[..|ids| - 1], layout, probe, current)
  }

  /** With no section hit, the spy keeps the current section. */
  lemma {:induction false} SpyPickNoHit(ids: seq<string>, layout: Layout, probe: real, current: string)
    requires forall i :: 0 <= i < |ids| ==> !Hit(layout, ids[i], probe)
    ensures SpyPick(ids, layout, probe, current) == current
  {
    if ids != [] {
      var init := ids[..|ids| - 1];
      assert forall i :: 0 <= i < |init| ==> init[i] == ids[i];
      SpyPickNoHit(init, layout, probe, current);
    }
  }

  /** The spy's choice is the LAST hit section in list order: a hit at `k`
      with no hit after it is what the spy picks. */
  lemma {:induction false} SpyPickLastHit(ids: seq<string>, layout: Layout, probe: real, current: string, k: nat)
    requires k < |ids| && Hit(layout, ids[k], probe)
    requires forall j :: k < j < |ids| ==> !Hit(layout, ids[j], probe)
    ensures SpyPick(ids, layout, probe, current) == ids[k]
  {
    if k < |ids| - 1 {
      var init := ids[..|ids| - 1];
      assert !Hit(layout, ids[|ids| - 1], probe);
      assert init[k] == ids[k];
      assert forall j :: k < j < |init| ==> init[j] == ids[j];
      SpyPickLastHit(init, layout, probe, current, k);
    }
  }

  /** The spy only ever picks the current section or one of the listed ids
      that is hit. */
  lemma {:induction false} SpyPickIsHitOrCurrent(ids: seq<string>, layout: Layout, probe: real, current: string)
    ensures var r := SpyPick(ids, layout, probe, current);
      r == current || (r in ids && Hit(layout, r, probe))
  {
    if ids != [] && !Hit(layout, ids[|ids| - 1], probe) {
      SpyPickIsHitOrCurrent(ids[..|ids| - 1], layout, probe, current);
    }
  }

  class NavState {
    var activeSection: string
    var scrolled: bool

    constructor ()
      ensures activeSection == "home" && !scrolled
    {
      activeSection, scrolled := "home", false;
    }

    /** `handleScroll`: the scrolled flag follows `scrollY > 50`, then every
        section, in menu order, whose box contains `scrollY + 100` becomes
        the active one in turn. */
    method HandleScroll(scrollY: real, layout: Layout)
      modifies this
      ensures scrolled <==> scrollY > ScrolledThreshold
      ensures activeSection == SpyPick(NavIds, layout, scrollY + ProbeOffset, old(activeSection))
    {
      scrolled := scrollY > ScrolledThreshold;
      var probe := scrollY + ProbeOffset;
      ghost var start := activeSection;
      var i := 0;
      while i < |NavIds|
        invariant 0 <= i <= |NavIds|
        invariant scrolled <==> scrollY > ScrolledThreshold
        invariant activeSection == SpyPick(NavIds[..i], layout, probe, start)
      {
        if Hit(layout, NavIds[i], probe) {
          activeSection := NavIds[i];
        }
        assert NavIds[..i + 1][..i] == NavIds[..i];
        i := i + 1;
      }
      assert NavIds[..|NavIds|] == NavIds;
    }

    /** `scrollToSection(id)`: for an existing element, the window scroll
        target is 80 above its top and the section becomes active; for a
        missing id there is no scroll and nothing changes. */
    method ScrollToSection(id: string, layout: Layout) returns (scrollTop: Option<real>)
      modifies this`activeSection
      ensures id in layout ==> scrollTop == Some(layout[id].offsetTop - BarHeight) && activeSection == id
      ensures id !in layout ==> scrollTop == None && activeSection == old(activeSection)
    {
      if id in layout {
        scrollTop := Some(layout[id].offsetTop - BarHeight);
        activeSection := id;
      } else {
        scrollTop := None;
      }
    }
  }

  /** Scrolling to a section and then receiving the scroll event at the
      target keeps that section active when its box is taller than 20
      and no later menu section also contains the probe. The window is
      taken to land exactly at `offsetTop - 80`; the browser clamps the
      target to `[0, max scroll]`, so near the top or the bottom of the
      page the probe lies elsewhere (for "home" at `offsetTop` 0 the
      window stays at 0 and the probe is 100). */
  lemma ScrollThenSpyAgrees(layout: Layout, k: nat, current: string)
    requires k < |NavIds| && NavIds[k] in layout
    requires layout[NavIds[k]].offsetHeight > ProbeOffset - BarHeight
    requires forall j :: k < j < |NavIds| ==>
      !Hit(layout, NavIds[j], layout[NavIds[k]].offsetTop - BarHeight + ProbeOffset)
    ensures SpyPick(NavIds, layout, layout[NavIds[k]].offsetTop - BarHeight + ProbeOffset, current) == NavIds[k]
  {
    SpyPickLastHit(NavIds, layout, layout[NavIds[k]].offsetTop - BarHeight + ProbeOffset, current, k);
  }
}
