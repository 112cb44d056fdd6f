/** The non-graphics logic of the VR overlay, as values: its URL helpers
    (`vrApiUrl`, `vrPublicUrl`), the three-screen state with its back stack
    (`transitionState`, `goBackState`), stepping through the five content
    sections, the campus index rules (`safeIndex`, the ray-selection
    clamps), and rising-edge detection of the back button. The stateful
    session that applies them is in module VrScene. */
module VrOverlay {
  import opened Wrappers
  import ApiConfig

  // ---------------------------------------------------------------------------
  // URLs
  // ---------------------------------------------------------------------------

  /** `vrApiUrl(path)`. `resolved` is what `resolveVrApiBase()` returned. */
  function VrApiUrl(resolved: Option<string>, path: Option<string>): string {
    ApiConfig.JoinUrl(ApiConfig.TrimTrailingSlashes(if ApiConfig.Truthy(resolved) then resolved.value else ""), path)
  }

  /** `vrPublicUrl(filePath)` */
  function VrPublicUrl(resolved: Option<string>, filePath: Option<string>): string {
    VrApiUrl(resolved, Some("public/" + ApiConfig.TrimLeadingSlashes(if ApiConfig.Truthy(filePath) then filePath.value else "")))
  }

  /** The base never ends with a slash; an empty path returns it; any other
      path is joined with exactly one slash after its leading slashes are
      removed. */
  lemma VrApiUrlShape(resolved: Option<string>, path: Option<string>)
    ensures var b := ApiConfig.TrimTrailingSlashes(if ApiConfig.Truthy(resolved) then resolved.value else "");
      && (b == [] || b[|b| - 1] != '/')
      && (!ApiConfig.Truthy(path) ==> VrApiUrl(resolved, path) == b)
      && (ApiConfig.Truthy(path) ==> VrApiUrl(resolved, path) == b + "/" + ApiConfig.TrimLeadingSlashes(path.value))
  {
  }

  /** `vrPublicUrl(f)` is the trimmed resolved base, one slash, `public/`
      and `f` without its leading slashes (a falsy `f` counts as ""), so it
      is never the bare base. */
  lemma VrPublicUrlShape(resolved: Option<string>, filePath: Option<string>)
    ensures var b := ApiConfig.TrimTrailingSlashes(if ApiConfig.Truthy(resolved) then resolved.value else "");
      var f := ApiConfig.TrimLeadingSlashes(if ApiConfig.Truthy(filePath) then filePath.value else "");
      && VrPublicUrl(resolved, filePath) == b + "/" + ("public/" + f)
      && VrPublicUrl(resolved, filePath) != b
  {
    var b := ApiConfig.TrimTrailingSlashes(if ApiConfig.Truthy(resolved) then resolved.value else "");
    var f := ApiConfig.TrimLeadingSlashes(if ApiConfig.Truthy(filePath) then filePath.value else "");
    var q := "public/" + f;
    assert q[0] == 'p';
    ApiConfig.JoinOfPlainPath(b, q);
  }

  /** When the resolver falls back to `apiUrl("")`, the VR URLs agree with
      the site-wide ones. */
  lemma {:induction false} VrApiUrlAgreesWithApiUrl(env: ApiConfig.Env, path: Option<string>)
    ensures VrApiUrl(Some(ApiConfig.ApiUrl(env, None)), path) == ApiConfig.ApiUrl(env, path)
  {
    var b := ApiConfig.ApiBaseUrl(env);
    assert ApiConfig.ApiUrl(env, None) == b;
    if b != [] {
      assert ApiConfig.TrimTrailingSlashes(b) == b;
    } else {
      assert ApiConfig.TrimTrailingSlashes("") == "";
    }
  }

  // ---------------------------------------------------------------------------
  // Screens and the back stack
  // ---------------------------------------------------------------------------

  datatype Screen = Scroll | CampusPicker | Tour

  /** The current screen and the stack of screens to go back to (top last). */
  datatype ScreenState = ScreenState(screen: Screen, backStack: seq<Screen>)

  /** The state the overlay is put in whenever it opens. */
  const Opened: ScreenState := ScreenState(Scroll, [])

  /** A move that `transitionState` actually performs. */
  predicate Effective(s: ScreenState, next: Option<Screen>) {
    next.Some? && next.value != s.screen
  }

  /** `transitionState(next)`: an empty target or the current screen changes
      nothing; otherwise the current screen is pushed and the target shown. */
  function Transition(s: ScreenState, next: Option<Screen>): (r: ScreenState)
    ensures !Effective(s, next) ==> r == s
    ensures Effective(s, next) ==> r.screen == next.value && r.backStack == s.backStack + [s.screen]
  {
    if Effective(s, next) then ScreenState(next.value, s.backStack + [s.screen]) else s
  }

  /** `goBackState()`: false and no change on an empty stack; otherwise the
      top of the stack is popped and becomes the screen. */
  function GoBack(s: ScreenState): (r: (ScreenState, bool))
    ensures r.1 <==> s.backStack != []
    ensures !r.1 ==> r.0 == s
    ensures r.1 ==> r.0.backStack == s.backStack[..|s.backStack| - 1] && r.0.screen == s.backStack[|s.backStack| - 1]
  {
    if s.backStack == [] then (s, false)
    else (ScreenState(s.backStack[|s.backStack| - 1], s.backStack[..|s.backStack| - 1]), true)
  }

  /** Going back undoes one effective move. */
  lemma BackUndoesTransition(s: ScreenState, next: Option<Screen>)
    requires Effective(s, next)
    ensures GoBack(Transition(s, next)) == (s, true)
  {
    assert (s.backStack + [s.screen])[..|s.backStack|] == s.backStack;
  }

  /** The state after a series of `transitionState` calls. */
  function TransitionAll(s: ScreenState, moves: seq<Option<Screen>>): ScreenState
    decreases |moves|
  {
    if moves == [] then s else TransitionAll(Transition(s, moves[0]), moves[1..])
  }

  /** How many of those calls push onto the stack. */
  function EffectiveCount(s: ScreenState, moves: seq<Option<Screen>>): nat
    decreases |moves|
  {
    if moves == [] then 0
    else (if Effective(s, moves[0]) then 1 else 0) + EffectiveCount(Transition(s, moves[0]), moves[1..])
  }

  /** The state after `k` calls of `goBackState`. */
  function GoBackTimes(s: ScreenState, k: nat): ScreenState
    decreases k
  {
    if k == 0 then s else GoBackTimes(GoBack(s).0, k - 1)
  }

  /** Transitions only push: the old stack stays underneath, and the first
      screen pushed is the starting screen. */
  lemma {:induction false} TransitionAllPushes(s: ScreenState, moves: seq<Option<Screen>>)
    ensures var t, n := TransitionAll(s, moves), EffectiveCount(s, moves);
      && |t.backStack| == |s.backStack| + n
      && t.backStack[..|s.backStack|] == s.backStack
      && (n == 0 ==> t.screen == s.screen)
      && (n > 0 ==> t.backStack[|s.backStack|] == s.screen)
    decreases |moves|
  {
    if moves != [] {
      var s1 := Transition(s, moves[0]);
      TransitionAllPushes(s1, moves[1..]);
      var t := TransitionAll(s1, moves[1..]);
      if Effective(s, moves[0]) {
        assert t.backStack[..|s1.backStack|][..|s.backStack|] == t.backStack[..|s.backStack|];
        assert t.backStack[..|s1.backStack|][|s.backStack|] == t.backStack[|s.backStack|];
      }
    }
  }

  /** Popping `|pushed|` times from a stack `base + pushed` leaves `base`
      and shows the first screen that was pushed. */
  lemma {:induction false} GoBackThroughPushed(cur: Screen, base: seq<Screen>, pushed: seq<Screen>)
    requires pushed != []
    ensures GoBackTimes(ScreenState(cur, base + pushed), |pushed|) == ScreenState(pushed[0], base)
    decreases |pushed|
  {
    var st := base + pushed;
    var s1 := GoBack(ScreenState(cur, st)).0;
    assert s1 == ScreenState(pushed[|pushed| - 1], base + pushed[..|pushed| - 1]) by {
      assert st[..|st| - 1] == base + pushed[..|pushed| - 1];
    }
    if |pushed| > 1 {
      GoBackThroughPushed(pushed[|pushed| - 1], base, pushed[..|pushed| - 1]);
    } else {
      assert base + pushed[..0] == base;
    }
  }

  /** Any series of forward moves followed by as many backs as the moves
      pushed returns to the starting screen and stack. */
  lemma ForwardThenBackRestores(s: ScreenState, moves: seq<Option<Screen>>)
    ensures GoBackTimes(TransitionAll(s, moves), EffectiveCount(s, moves)) == s
  {
    var t := TransitionAll(s, moves);
    var n := EffectiveCount(s, moves);
    TransitionAllPushes(s, moves);
    if n > 0 {
      var pushed := t.backStack[|s.backStack|..];
      assert t.backStack == s.backStack + pushed;
      GoBackThroughPushed(t.screen, s.backStack, pushed);
      assert t == ScreenState(t.screen, s.backStack + pushed);
    }
  }

  /** When every move changes the screen, k moves need exactly k backs. */
  lemma {:induction false} AllEffectiveCount(s: ScreenState, moves: seq<Option<Screen>>)
    requires forall i :: 0 <= i < |moves| ==> moves[i].Some?
    requires forall i :: 0 < i < |moves| ==> moves[i] != moves[i - 1]
    requires moves != [] ==> moves[0] != Some(s.screen)
    ensures EffectiveCount(s, moves) == |moves|
    decreases |moves|
  {
    if moves != [] {
      AllEffectiveCount(Transition(s, moves[0]), moves[1..]);
    }
  }

  // ---------------------------------------------------------------------------
  // Content sections and the joystick step
  // ---------------------------------------------------------------------------

  datatype Section = Intro | History | Achievements | Partners | Campus

  /** `["intro", "history", "achievements", "partners", "campus"]` */
  const SectionOrder: seq<Section> := [Intro, History, Achievements, Partners, Campus]

  function SectionIndex(s: Section): (i: nat)
    ensures i < |SectionOrder| && SectionOrder[i] == s
  {
    match s
    case Intro => 0
    case History => 1
    case Achievements => 2
    case Partners => 3
    case Campus => 4
  }

  function Clamp(x: int, lo: int, hi: int): int
    requires lo <= hi
  {
    if x < lo then lo else if x > hi then hi else x
  }

  /** One joystick step: the section at `indexOf(active) + dir`, kept
      within the list. */
  function StepSection(active: Section, dir: int): (r: Section)
    requires dir == 1 || dir == -1
    ensures SectionIndex(r) == Clamp(SectionIndex(active) + dir, 0, |SectionOrder| - 1)
  {
    SectionOrder[Clamp(SectionIndex(active) + dir, 0, |SectionOrder| - 1)]
  }

  /** A step down then a step up returns, except at the last section; and
      symmetrically. */
  lemma StepSectionUndo(s: Section)
    ensures s != Campus ==> StepSection(StepSection(s, 1), -1) == s
    ensures s != Intro ==> StepSection(StepSection(s, -1), 1) == s
  {
  }

  /** Four steps down reach the last section from anywhere. */
  lemma StepSectionReachesEnd(s: Section)
    ensures StepSection(StepSection(StepSection(StepSection(s, 1), 1), 1), 1) == Campus
  {
  }

  // ---------------------------------------------------------------------------
  // Campus indices
  // ---------------------------------------------------------------------------

  /** `safeIndex(i, fallback)` over a list of `count` campuses. */
  function SafeIndex(count: nat, i: int, fallback: int): (r: int)
    ensures count == 0 ==> r == 0
    ensures 0 <= i < count ==> r == i
    ensures count > 0 && fallback >= 0 ==> 0 <= r < count
  {
    if count == 0 then 0
    else if 0 <= i < count then i
    else if fallback < count - 1 then fallback else count - 1
  }

  /** The two campus cards' target indices. */
  function CardTargets(count: nat): (r: seq<int>)
    ensures |r| == 2
    ensures forall k :: 0 <= k < 2 ==> 0 <= r[k] <= if count == 0 then 0 else count - 1
    ensures count >= 2 ==> r == [0, 1]
    ensures count < 2 ==> r == [0, 0]
  {
    [SafeIndex(count, 0, 0), SafeIndex(count, 1, 0)]
  }

  /** The index chosen by a `campus:card:` selection: the mesh's own index
      when it is a number, otherwise the one in the key, clamped to
      `[0, max(0, count - 1)]`; 0 when neither is a number. */
  function CardSelectIndex(meshIdx: Option<int>, keyIdx: Option<int>, count: nat): (r: int)
    ensures 0 <= r <= if count == 0 then 0 else count - 1
    ensures meshIdx.Some? && 0 <= meshIdx.value < count ==> r == meshIdx.value
    ensures meshIdx.None? && keyIdx.Some? && 0 <= keyIdx.value < count ==> r == keyIdx.value
    ensures meshIdx.None? && keyIdx.None? ==> r == 0
    ensures meshIdx.Some? && meshIdx.value < 0 ==> r == 0
    ensures meshIdx.Some? && meshIdx.value >= count ==> r == if count == 0 then 0 else count - 1
    ensures meshIdx.None? && keyIdx.Some? && keyIdx.value < 0 ==> r == 0
    ensures meshIdx.None? && keyIdx.Some? && keyIdx.value >= count ==> r == if count == 0 then 0 else count - 1
  {
    var preferred := if meshIdx.Some? then meshIdx else keyIdx;
    if preferred.None? then 0
    else
      var lowered := if preferred.value < 0 then 0 else preferred.value;
      var hi := if count == 0 then 0 else count - 1;
      if lowered < hi then lowered else hi
  }

  /** `campus:next` as written: `Math.min(campuses.length - 1, i + 1)`. */
  function NextCampusAsWritten(i: int, count: nat): (r: int)
    ensures r <= count - 1 && r <= i + 1
    ensures r == count - 1 || r == i + 1
  {
    if count - 1 < i + 1 then count - 1 else i + 1
  }

  /** With no campuses loaded the written rule moves the index to -1. */
  lemma NextCampusAsWrittenLeavesRange()
    ensures NextCampusAsWritten(0, 0) == -1
  {
  }

  /** `campus:next`, kept inside `[0, max(0, count - 1)]`. */
  function NextCampus(i: int, count: nat): (r: int)
    ensures 0 <= r <= if count == 0 then 0 else count - 1
    ensures 0 <= i && i + 1 < count ==> r == i + 1
    ensures count > 0 && 0 <= i < count ==> r == NextCampusAsWritten(i, count)
  {
    var n := NextCampusAsWritten(i, count);
    if n < 0 then 0 else n
  }

  /** `campus:prev`: `Math.max(0, i - 1)`. */
  function PrevCampus(i: int): (r: int)
    ensures r >= 0 && r >= i - 1
    ensures i >= 1 ==> r == i - 1
    ensures i <= 0 ==> r == 0
  {
    if i - 1 < 0 then 0 else i - 1
  }

  /** Next then previous comes back, except at the last campus. */
  lemma NextThenPrev(i: int, count: nat)
    requires 0 <= i && i + 1 < count
    ensures PrevCampus(NextCampus(i, count)) == i
  {
  }

  /** Both moves keep a valid index valid. */
  lemma CampusMovesStayInRange(i: int, count: nat)
    requires 0 <= i <= if count == 0 then 0 else count - 1
    ensures 0 <= NextCampus(i, count) <= if count == 0 then 0 else count - 1
    ensures 0 <= PrevCampus(i) <= if count == 0 then 0 else count - 1
  {
  }

  // ---------------------------------------------------------------------------
  // The back button
  // ---------------------------------------------------------------------------

  /** The back action fires on a frame where B is pressed and was not pressed
      on the previous frame. */
  predicate BackFires(pressed: bool, wasPressed: bool) {
    pressed && !wasPressed
  }

  /** How often the back action fires over a series of frames. */
  function FireCount(wasPressed: bool, frames: seq<bool>): nat
    decreases |frames|
  {
    if frames == [] then 0
    else (if BackFires(frames[0], wasPressed) then 1 else 0) + FireCount(frames[0], frames[1..])
  }

  /** Holding B down fires exactly once. */
  lemma {:induction false} HoldFiresOnce(wasPressed: bool, k: nat)
    requires k > 0
    ensures FireCount(wasPressed, seq(k, _ => true)) == if wasPressed then 0 else 1
    decreases k
  {
    var frames := seq(k, _ => true);
    if k > 1 {
      HoldFiresOnce(true, k - 1);
      assert frames[1..] == seq(k - 1, _ => true);
    }
  }

  /** The action never fires on two frames in a row, so at most every other
      frame. */
  lemma {:induction false} FiresAtMostEveryOtherFrame(wasPressed: bool, frames: seq<bool>)
    ensures 2 * FireCount(wasPressed, frames) <= |frames| + (if wasPressed then 0 else 1)
    decreases |frames|
  {
    if frames != [] {
      FiresAtMostEveryOtherFrame(frames[0], frames[1..]);
    }
  }
}
