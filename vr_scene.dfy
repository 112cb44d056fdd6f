/** The VR overlay's mutable session: the screen and its back stack, the
    active content section, the selected campus, the tour reset token and
    the per-frame controller bookkeeping (`lastBack`, `lastNavStep`,
    `scrollOffset`). Its methods are the overlay's open reset,
    `transitionState`, `goBackState`, the controller part of the frame
    handler and `onRaySelect`; each is tied to the value-level rules of
    module VrOverlay. */
module VrScene {
  import opened Wrappers
  import opened VrOverlay
  import Text

  // ---------------------------------------------------------------------------
  // Ray-selection keys
  // ---------------------------------------------------------------------------

  /** A scene object on the selecting ray's path to the root: its
      `userData.__vrKey` and `userData.__campusIdx` (`None` when absent or not
      a finite number). */
  datatype SceneNode = SceneNode(vrKey: Option<string>, campusIdx: Option<int>)

  predicate HasKey(n: SceneNode) {
    n.vrKey.Some? && n.vrKey.value != ""
  }

  /** The walk up the parent chain: the first object, from the hit object
      towards the root, that carries a key. */
  method FindKeyed(chain: seq<SceneNode>) returns (found: Option<nat>)
    ensures found.Some? ==> found.value < |chain| && HasKey(chain[found.value])
    ensures found.Some? ==> forall j :: 0 <= j < found.value ==> !HasKey(chain[j])
    ensures found.None? ==> forall j :: 0 <= j < |chain| ==> !HasKey(chain[j])
  {
    var cur := 0;
    while cur < |chain| && !HasKey(chain[cur])
      invariant cur <= |chain|
      invariant forall j :: 0 <= j < cur ==> !HasKey(chain[j])
    {
      cur := cur + 1;
    }
    found := if cur < |chain| then Some(cur) else None;
  }

  /** `Number(segment)` for the numerals the scene writes into its keys: a
      run of digits (the empty string reads as 0); anything else is treated
      as not a number. */
  function ParseIndex(segment: string): Option<int> {
    if Text.AllDigits(segment) then Some(Text.DigitsValue(segment)) else None
  }

  const CardPrefix: string := "campus:card:"

  /** What a selected key asks for. */
  datatype RayAction =
    | ShowSection(section: Section)
    | SelectCard(keyIdx: Option<int>)
    | NextCampusKey
    | PrevCampusKey
    | EnterCampus
    | Ignore

  /** The dispatch in `onRaySelect`. */
  function Classify(key: string): (a: RayAction)
    ensures a.SelectCard? <==> Text.StartsWith(key, CardPrefix)
    ensures a.ShowSection? ==> key == NavKey(a.section)
  {
    if key != [] && key[0] == 'n' then
      assert !Text.StartsWith(key, CardPrefix) by { assert CardPrefix[0] == 'c'; }
      NavAction(key)
    else if Text.StartsWith(key, CardPrefix) then SelectCard(ParseIndex(Text.AfterLast(key, ':')))
    else if key == "campus:next" then NextCampusKey
    else if key == "campus:prev" then PrevCampusKey
    else if key == "campus:enter" then EnterCampus
    else Ignore
  }

  /** The five `nav:` keys. */
  function NavAction(key: string): (a: RayAction)
    ensures a.ShowSection? ==> key == NavKey(a.section)
    ensures !a.SelectCard?
  {
    if key == "nav:intro" then ShowSection(Intro)
    else if key == "nav:history" then ShowSection(History)
    else if key == "nav:achievements" then ShowSection(Achievements)
    else if key == "nav:partners" then ShowSection(Partners)
    else if key == "nav:campus" then ShowSection(Campus)
    else Ignore
  }

  /** The key the navigation panel gives each section's button. */
  function NavKey(s: Section): string {
    match s
    case Intro => "nav:intro"
    case History => "nav:history"
    case Achievements => "nav:achievements"
    case Partners => "nav:partners"
    case Campus => "nav:campus"
  }

  /** Every navigation button selects its own section. */
  lemma NavKeysClassify(s: Section)
    ensures Classify(NavKey(s)) == ShowSection(s)
  {
  }

  /** A card key `campus:card:<n>` carries its index back. */
  lemma {:induction false} CardKeyRoundTrip(n: nat)
    ensures Classify(CardPrefix + Text.Decimal(n)) == SelectCard(Some(n))
  {
    var d := Text.Decimal(n);
    var key := CardPrefix + d;
    assert key[..|CardPrefix|] == CardPrefix;
    assert key[0] == 'c';
    AfterLastOfDigits(CardPrefix, d);
    Text.DecimalRoundTrip(n);
  }

  lemma {:induction false} AfterLastOfDigits(prefix: string, d: string)
    requires prefix != [] && prefix[|prefix| - 1] == ':'
    requires Text.AllDigits(d)
    ensures Text.AfterLast(prefix + d, ':') == d
    decreases |d|
  {
    var key := prefix + d;
    if d == [] {
      assert key == prefix;
    } else {
      assert key[..|key| - 1] == prefix + d[..|d| - 1];
      assert key[|key| - 1] == d[|d| - 1];
      AfterLastOfDigits(prefix, d[..|d| - 1]);
      assert d[..|d| - 1] + [d[|d| - 1]] == d;
    }
  }

  // ---------------------------------------------------------------------------
  // The per-frame scroll rule
  // ---------------------------------------------------------------------------

  const NavDeadZone: real := 0.35
  const ScrollDeadZone: real := 0.15
  const NavStepIntervalMs: real := 250.0
  const ScrollSpeed: real := 0.65

  function Abs(x: real): real {
    if x < 0.0 then -x else x
  }

  /** The scroll velocity: the right stick outside its dead zone; otherwise
      the left stick, unless it just stepped the section. */
  function ScrollVelocity(ly: real, ry: real, navTriggered: bool): (vy: real)
    ensures Abs(ry) > ScrollDeadZone ==> vy == ry
    ensures Abs(ry) <= ScrollDeadZone && (navTriggered || Abs(ly) <= ScrollDeadZone) ==> vy == 0.0
    ensures Abs(ry) <= ScrollDeadZone && !navTriggered && Abs(ly) > ScrollDeadZone ==> vy == ly
  {
    var useRy := if Abs(ry) > ScrollDeadZone then ry else 0.0;
    var useLy := if !navTriggered && useRy == 0.0 && Abs(ly) > ScrollDeadZone then ly else 0.0;
    if useRy != 0.0 then useRy else useLy
  }

  /** The new scroll offset: moved by the velocity over the frame time and
      never below zero. */
  function ScrollAfter(offset: real, vy: real, delta: real): (r: real)
    requires offset >= 0.0
    ensures r >= 0.0
    ensures vy == 0.0 ==> r == offset
    ensures vy != 0.0 && offset + vy * ScrollSpeed * delta >= 0.0 ==> r == offset + vy * ScrollSpeed * delta
  {
    if vy == 0.0 then offset
    else if offset + vy * ScrollSpeed * delta < 0.0 then 0.0
    else offset + vy * ScrollSpeed * delta
  }

  // ---------------------------------------------------------------------------
  // The session
  // ---------------------------------------------------------------------------

  class Session {
    var screen: Screen
    var backStack: seq<Screen>
    var activeSection: Section
    var selectedCampusIndex: int
    /** Incremented to reset the tour's locomotion offset. */
    var resetToken: nat
    var lastBack: bool
    var lastNavStep: real
    var scrollOffset: real

    ghost predicate Valid()
      reads this
    {
      scrollOffset >= 0.0 && selectedCampusIndex >= 0
    }

    function Screens(): ScreenState
      reads this
    {
      ScreenState(screen, backStack)
    }

    constructor ()
      ensures Valid()
      ensures Screens() == Opened && activeSection == Intro && selectedCampusIndex == 0
      ensures resetToken == 0 && !lastBack && lastNavStep == 0.0 && scrollOffset == 0.0
    {
      screen, backStack := Scroll, [];
      activeSection, selectedCampusIndex := Intro, 0;
      resetToken, lastBack, lastNavStep, scrollOffset := 0, false, 0.0, 0.0;
    }

    /** Opening the overlay: back to the scrolling screen on the first
        section and campus, with an empty back stack. The scene is mounted
        afresh, so its reset token, back-button memory, last step time and
        scroll offset start again from zero. */
    method Open()
      requires Valid()
      modifies this
      ensures Valid()
      ensures Screens() == Opened && activeSection == Intro && selectedCampusIndex == 0
      ensures resetToken == 0 && !lastBack && lastNavStep == 0.0 && scrollOffset == 0.0
    {
      screen, backStack := Scroll, [];
      selectedCampusIndex := 0;
      activeSection := Intro;
      resetToken, lastBack, lastNavStep, scrollOffset := 0, false, 0.0, 0.0;
    }

    /** `transitionState(next)` */
    method TransitionState(next: Option<Screen>)
      modifies this`screen, this`backStack
      ensures Screens() == Transition(old(Screens()), next)
    {
      if next.Some? && next.value != screen {
        backStack := backStack + [screen];
        screen := next.value;
      }
    }

    /** `goBackState()` */
    method GoBackState() returns (wentBack: bool)
      modifies this`screen, this`backStack
      ensures (Screens(), wentBack) == GoBack(old(Screens()))
    {
      if |backStack| == 0 {
        return false;
      }
      screen := backStack[|backStack| - 1];
      backStack := backStack[..|backStack| - 1];
      wentBack := true;
    }

    /** The back-button part of a frame. `rendered` is the screen the frame
        handler was rendered with. On a rising edge the tour's reset token is
        bumped when in the tour, then the screen goes back one level, or, with
        nothing to go back to, the session asks to exit. */
    method BackButtonFrame(rendered: Screen, bPressed: bool) returns (exitRequested: bool)
      modifies this`screen, this`backStack, this`resetToken, this`lastBack
      ensures lastBack == bPressed
      ensures !BackFires(bPressed, old(lastBack)) ==>
        !exitRequested && Screens() == old(Screens()) && resetToken == old(resetToken)
      ensures BackFires(bPressed, old(lastBack)) ==>
        && (Screens(), !exitRequested) == GoBack(old(Screens()))
        && resetToken == old(resetToken) + (if rendered == Tour then 1 else 0)
    {
      exitRequested := false;
      if bPressed && !lastBack {
        if rendered == Tour {
          resetToken := resetToken + 1;
        }
        var wentBack := GoBackState();
        if !wentBack {
          exitRequested := true;
        }
      }
      lastBack := bPressed;
    }

    /** The joystick part of a frame, active on the scrolling screen: a left
        stick past its dead zone steps the section at most once per 250 ms
        and resets the scroll; then the content scrolls. */
    method JoystickFrame(rendered: Screen, ly: real, ry: real, now: real, delta: real) returns (navTriggered: bool)
      requires Valid()
      modifies this`activeSection, this`lastNavStep, this`scrollOffset
      ensures Valid()
      ensures rendered != Scroll ==>
        !navTriggered && activeSection == old(activeSection)
        && lastNavStep == old(lastNavStep) && scrollOffset == old(scrollOffset)
      ensures rendered == Scroll ==> navTriggered == (Abs(ly) > NavDeadZone && now - old(lastNavStep) > NavStepIntervalMs)
      ensures navTriggered ==>
        && activeSection == StepSection(old(activeSection), if ly > 0.0 then 1 else -1)
        && lastNavStep == now
        && scrollOffset == ScrollAfter(0.0, ScrollVelocity(ly, ry, true), delta)
      ensures rendered == Scroll && !navTriggered ==>
        && activeSection == old(activeSection) && lastNavStep == old(lastNavStep)
        && scrollOffset == ScrollAfter(old(scrollOffset), ScrollVelocity(ly, ry, false), delta)
    {
      navTriggered := false;
      if rendered != Scroll {
        return;
      }
      if Abs(ly) > NavDeadZone && now - lastNavStep > NavStepIntervalMs {
        var dir := if ly > 0.0 then 1 else -1;
        activeSection := StepSection(activeSection, dir);
        lastNavStep := now;
        scrollOffset := 0.0;
        navTriggered := true;
      }
      var vy := ScrollVelocity(ly, ry, navTriggered);
      if vy != 0.0 {
        scrollOffset := ScrollAfter(scrollOffset, vy, delta);
      }
    }

    /** The effect keyed on the screen and the section: after a commit that
        changed either, the scroll offset starts again from 0. */
    method ScreenOrSectionCommitted(prevScreen: Screen, prevSection: Section)
      requires Valid()
      modifies this`scrollOffset
      ensures Valid()
      ensures screen != prevScreen || activeSection != prevSection ==> scrollOffset == 0.0
      ensures screen == prevScreen && activeSection == prevSection ==> scrollOffset == old(scrollOffset)
    {
      if screen != prevScreen || activeSection != prevSection {
        scrollOffset := 0.0;
      }
    }

    /** One frame of the controller bindings: the back button, then the
        joysticks, both read against the screen the frame started on;
        then the commit of what they set, with its scroll reset. */
    method Frame(bPressed: bool, ly: real, ry: real, now: real, delta: real) returns (exitRequested: bool)
      requires Valid()
      modifies this
      ensures Valid()
      ensures lastBack == bPressed
      ensures selectedCampusIndex == old(selectedCampusIndex)
      ensures !BackFires(bPressed, old(lastBack)) ==>
        !exitRequested && Screens() == old(Screens()) && resetToken == old(resetToken)
      ensures BackFires(bPressed, old(lastBack)) ==>
        && (Screens(), !exitRequested) == GoBack(old(Screens()))
        && resetToken == old(resetToken) + (if old(screen) == Tour then 1 else 0)
      ensures old(screen) != Scroll ==>
        activeSection == old(activeSection) && lastNavStep == old(lastNavStep)
      ensures old(screen) == Scroll && Abs(ly) > NavDeadZone && now - old(lastNavStep) > NavStepIntervalMs ==>
        && activeSection == StepSection(old(activeSection), if ly > 0.0 then 1 else -1)
        && lastNavStep == now
      ensures old(screen) == Scroll && !(Abs(ly) > NavDeadZone && now - old(lastNavStep) > NavStepIntervalMs) ==>
        activeSection == old(activeSection) && lastNavStep == old(lastNavStep)
      ensures screen != old(screen) || activeSection != old(activeSection) ==> scrollOffset == 0.0
      ensures screen == old(screen) && activeSection == old(activeSection) && old(screen) != Scroll ==>
        scrollOffset == old(scrollOffset)
      ensures screen == old(screen) && activeSection == old(activeSection) && old(screen) == Scroll ==>
        scrollOffset ==
          if Abs(ly) > NavDeadZone && now - old(lastNavStep) > NavStepIntervalMs
          then ScrollAfter(0.0, ScrollVelocity(ly, ry, true), delta)
          else ScrollAfter(old(scrollOffset), ScrollVelocity(ly, ry, false), delta)
    {
      var rendered, section := screen, activeSection;
      exitRequested := BackButtonFrame(rendered, bPressed);
      var _ := JoystickFrame(rendered, ly, ry, now, delta);
      ScreenOrSectionCommitted(rendered, section);
    }

    /** `onRaySelect(obj)` over the path from the hit object to the root,
        with `campusCount` campuses loaded, then the commit of what it set,
        with its scroll reset. */
    method RaySelect(chain: seq<SceneNode>, campusCount: nat)
      requires Valid()
      modifies this`activeSection, this`selectedCampusIndex, this`screen, this`backStack, this`resetToken
      modifies this`scrollOffset
      ensures Valid()
      ensures screen != old(screen) || activeSection != old(activeSection) ==> scrollOffset == 0.0
      ensures screen == old(screen) && activeSection == old(activeSection) ==> scrollOffset == old(scrollOffset)
      ensures
        var found := FirstKeyed(chain);
        if found.None? then Unchanged(this, old(activeSection), old(selectedCampusIndex), old(Screens()), old(resetToken))
        else
          var node := chain[found.value];
          match Classify(node.vrKey.value)
          case ShowSection(s) =>
            activeSection == s && selectedCampusIndex == old(selectedCampusIndex)
            && Screens() == old(Screens()) && resetToken == old(resetToken)
          case SelectCard(keyIdx) =>
            && selectedCampusIndex == CardSelectIndex(node.campusIdx, keyIdx, campusCount)
            && activeSection == Campus
            && Screens() == Transition(old(Screens()), Some(Tour))
            && resetToken == old(resetToken) + 1
          case NextCampusKey =>
            selectedCampusIndex == NextCampus(old(selectedCampusIndex), campusCount)
            && activeSection == old(activeSection) && Screens() == old(Screens()) && resetToken == old(resetToken)
          case PrevCampusKey =>
            selectedCampusIndex == PrevCampus(old(selectedCampusIndex))
            && activeSection == old(activeSection) && Screens() == old(Screens()) && resetToken == old(resetToken)
          case EnterCampus =>
            activeSection == old(activeSection) && selectedCampusIndex == old(selectedCampusIndex)
            && (if old(selectedCampusIndex) < campusCount
                then Screens() == Transition(old(Screens()), Some(Tour)) && resetToken == old(resetToken) + 1
                else Screens() == old(Screens()) && resetToken == old(resetToken))
          case Ignore =>
            Unchanged(this, old(activeSection), old(selectedCampusIndex), old(Screens()), old(resetToken))
    {
      var rendered, section := screen, activeSection;
      var found := FindKeyed(chain);
      FindKeyedIsFirst(chain, found);
      if found.None? {
        return;
      }
      var node := chain[found.value];
      var key := node.vrKey.value;
      match Classify(key) {
        case ShowSection(s) =>
          activeSection := s;
        case SelectCard(keyIdx) =>
          selectedCampusIndex := CardSelectIndex(node.campusIdx, keyIdx, campusCount);
          activeSection := Campus;
          TransitionState(Some(Tour));
          resetToken := resetToken + 1;
        case NextCampusKey =>
          selectedCampusIndex := NextCampus(selectedCampusIndex, campusCount);
        case PrevCampusKey =>
          selectedCampusIndex := PrevCampus(selectedCampusIndex);
        case EnterCampus =>
          if selectedCampusIndex < campusCount {
            TransitionState(Some(Tour));
            resetToken := resetToken + 1;
          }
        case Ignore =>
      }
      ScreenOrSectionCommitted(rendered, section);
    }
  }

  /** Nothing that ray selection can change has changed. */
  ghost predicate Unchanged(s: Session, section: Section, campus: int, screens: ScreenState, token: nat)
    reads s
  {
    s.activeSection == section && s.selectedCampusIndex == campus && s.Screens() == screens && s.resetToken == token
  }

  /** The value-level statement of what `FindKeyed` returns. */
  function FirstKeyed(chain: seq<SceneNode>): (r: Option<nat>)
    ensures r.Some? ==> r.value < |chain| && HasKey(chain[r.value])
    ensures r.None? ==> forall j :: 0 <= j < |chain| ==> !HasKey(chain[j])
    decreases |chain|
  {
    if chain == [] then None
    else if HasKey(chain[0]) then Some(0)
    else match FirstKeyed(chain[1..])
      case None => None
      case Some(i) => Some(i + 1)
  }

  /** Any index with no keyed object before it is the one `FirstKeyed` finds. */
  lemma {:induction false} FindKeyedIsFirst(chain: seq<SceneNode>, found: Option<nat>)
    requires found.Some? ==> found.value < |chain| && HasKey(chain[found.value])
    requires found.Some? ==> forall j :: 0 <= j < found.value ==> !HasKey(chain[j])
    requires found.None? ==> forall j :: 0 <= j < |chain| ==> !HasKey(chain[j])
    ensures FirstKeyed(chain) == found
    decreases |chain|
  {
    if chain != [] && !HasKey(chain[0]) {
      var rest: Option<nat> := if found.Some? then Some(found.value - 1) else None;
      FindKeyedIsFirst(chain[1..], rest);
    }
  }
}
