/** The landing-page carousel: the modular index arithmetic, the
    "animating" guard with its deferred index update, the swipe handlers and
    the fallback slide used when the backend returns no rows. Timers are not
    modelled; the deferred update is the separate step `CompleteSlide`. */
module Slider {
  import opened Wrappers

  datatype Direction = Next | Prev

  datatype Slide = Slide(title: string, description: string, imageUrl: string)

  /** The slide shown when the backend has none. */
  const DefaultSlide: Slide := Slide(
    "HỌC VIỆN CÔNG NGHỆ BƯU CHÍNH VIỄN THÔNG",
    "Cơ sở Giáo dục Đại học trọng điểm Quốc gia về Kỹ thuật, Công nghệ.",
    "")

  /** Minimum horizontal drag, in pixels, that counts as a swipe. */
  const MinSwipeDistance: real := 50.0

  // ---------------------------------------------------------------------------
  // Index arithmetic
  // ---------------------------------------------------------------------------

  /** `(i + 1) % n` or `(i - 1 + n) % n`. Both operands are non-negative for
      an index in range, where JavaScript's `%` and Dafny's agree. */
  function StepIndex(i: nat, dir: Direction, n: nat): (r: nat)
    requires i < n
    ensures r < n
  {
    if dir == Next then (i + 1) % n else (i - 1 + n) % n
  }

  /** Next wraps from the last slide to the first, Prev from the first to the
      last; otherwise each moves by one. */
  lemma StepIndexCases(i: nat, dir: Direction, n: nat)
    requires i < n
    ensures dir == Next ==> StepIndex(i, dir, n) == if i + 1 == n then 0 else i + 1
    ensures dir == Prev ==> StepIndex(i, dir, n) == if i == 0 then n - 1 else i - 1
  {
    if dir == Next {
      if i + 1 == n { ModUnique(i + 1, n, 1, 0); } else { ModUnique(i + 1, n, 0, i + 1); }
    } else {
      if i == 0 { ModUnique(n - 1, n, 0, n - 1); } else { ModUnique(i - 1 + n, n, 1, i - 1); }
    }
  }

  function Opposite(dir: Direction): Direction {
    if dir == Next then Prev else Next
  }

  /** A step and a step back restore the index. */
  lemma StepThenBack(i: nat, dir: Direction, n: nat)
    requires i < n
    ensures StepIndex(StepIndex(i, dir, n), Opposite(dir), n) == i
  {
    StepIndexCases(i, dir, n);
    StepIndexCases(StepIndex(i, dir, n), Opposite(dir), n);
  }

  /** `k` steps forward. */
  function StepsForward(i: nat, k: nat, n: nat): (r: nat)
    requires i < n
    ensures r < n
    decreases k
  {
    if k == 0 then i else StepIndex(StepsForward(i, k - 1, n), Next, n)
  }

  /** `k` steps forward land at `(i + k) mod n`. */
  lemma {:induction false} StepsForwardIsModular(i: nat, k: nat, n: nat)
    requires i < n
    ensures StepsForward(i, k, n) == (i + k) % n
    decreases k
  {
    if k == 0 {
      ModUnique(i, n, 0, i);
    } else {
      StepsForwardIsModular(i, k - 1, n);
      StepFromRemainder(i + k - 1, n);
    }
  }

  lemma StepFromRemainder(x: nat, n: nat)
    requires n > 0
    ensures StepIndex(x % n, Next, n) == (x + 1) % n
  {
    ModSucc(x, n);
  }

  /** `n` steps forward go all the way round. */
  lemma FullCycle(i: nat, n: nat)
    requires i < n
    ensures StepsForward(i, n, n) == i
  {
    StepsForwardIsModular(i, n, n);
    ModUnique(i + n, n, 1, i);
  }

  lemma MulAtLeast(a: int, n: int)
    requires a >= 1 && n > 0
    ensures a * n >= n
  {
    if a > 1 {
      MulAtLeast(a - 1, n);
      assert a * n == (a - 1) * n + n;
    }
  }

  /** The remainder is determined by any quotient-remainder split. */
  lemma ModUnique(x: int, n: int, q: int, r: int)
    requires n > 0 && 0 <= r < n && x == q * n + r
    ensures x % n == r
  {
    var q', r' := x / n, x % n;
    assert x == q' * n + r';
    if q' < q {
      assert (q - q') * n == q * n - q' * n;
      MulAtLeast(q - q', n);
    }
    if q' > q {
      assert (q' - q) * n == q' * n - q * n;
      MulAtLeast(q' - q, n);
    }
  }

  lemma ModSucc(x: nat, n: nat)
    requires n > 0
    ensures ((x % n) + 1) % n == (x + 1) % n
  {
    var q, r := x / n, x % n;
    assert x == q * n + r;
    if r + 1 < n {
      ModUnique(x + 1, n, q, r + 1);
      ModUnique(r + 1, n, 0, r + 1);
    } else {
      assert x + 1 == (q + 1) * n + 0;
      ModUnique(x + 1, n, q + 1, 0);
      ModUnique(r + 1, n, 1, 0);
    }
  }

  // ---------------------------------------------------------------------------
  // Loading and swiping
  // ---------------------------------------------------------------------------

  /** What the intro request produced: an array of rows, an object body
      (its `length` is undefined, so not above 0), a `null` body (reading its
      `length` throws) or a failed request. */
  datatype IntroResponse = Rows(rows: seq<Slide>) | ObjectBody | NullBody | Failed

  /** The slides after the request settles. */
  function SlidesAfterFetch(resp: IntroResponse): (r: seq<Slide>)
    ensures resp.Failed? || resp.NullBody? ==> r == []
    ensures resp.Rows? && resp.rows != [] ==> r == resp.rows
    ensures (resp.Rows? && resp.rows == []) || resp.ObjectBody? ==> r == [DefaultSlide]
  {
    match resp
    case Failed => []
    case NullBody => []
    case ObjectBody => [DefaultSlide]
    case Rows(rows) => if |rows| > 0 then rows else [DefaultSlide]
  }

  /** The direction a drag from `start` to `end` asks for. */
  function SwipeDirection(start: real, end: real): (r: Option<Direction>)
    ensures r == Some(Next) <==> start - end > MinSwipeDistance
    ensures r == Some(Prev) <==> start - end < -MinSwipeDistance
  {
    var distance := start - end;
    if distance > MinSwipeDistance then Some(Next)
    else if distance < -MinSwipeDistance then Some(Prev)
    else None
  }

  // ---------------------------------------------------------------------------
  // The component's state
  // ---------------------------------------------------------------------------

  class Carousel {
    var slides: seq<Slide>
    var index: nat
    var animating: bool
    var direction: Direction
    var loading: bool
    var touchStartX: real
    var touchEndX: real
    /** The deferred index update scheduled by `changeSlide`, if any. */
    var pending: Option<Direction>

    ghost predicate Valid()
      reads this
    {
      && (slides != [] ==> index < |slides|)
      && (slides == [] ==> index == 0)
      && (loading ==> slides == [] && !animating)
      && (pending.Some? <==> animating)
      && (pending.Some? ==> pending.value == direction && |slides| >= 2)
    }

    constructor ()
      ensures Valid()
      ensures slides == [] && index == 0 && !animating && direction == Next && loading
      ensures touchStartX == 0.0 && touchEndX == 0.0 && pending == None
    {
      slides, index, animating, direction, loading := [], 0, false, Next, true;
      touchStartX, touchEndX, pending := 0.0, 0.0, None;
    }

    /** The request for intro slides settles. */
    method FetchSettled(resp: IntroResponse)
      requires Valid() && loading
      modifies this`slides, this`loading
      ensures Valid() && !loading
      ensures slides == SlidesAfterFetch(resp)
    {
      slides := SlidesAfterFetch(resp);
      loading := false;
    }

    /** `changeSlide(dir)`: ignored while animating or with fewer than two
        slides; otherwise records the direction, starts animating and
        schedules the index update. */
    method ChangeSlide(dir: Direction)
      requires Valid()
      modifies this`direction, this`animating, this`pending
      ensures Valid()
      ensures old(animating) || |slides| <= 1 ==>
        direction == old(direction) && animating == old(animating) && pending == old(pending)
      ensures !old(animating) && |slides| > 1 ==>
        direction == dir && animating && pending == Some(dir)
    {
      if animating || |slides| <= 1 {
        return;
      }
      direction := dir;
      animating := true;
      pending := Some(dir);
    }

    /** The slide the animation brings in: the same modular rule as the
        direction it animates. */
    function IncomingIndex(): (r: nat)
      reads this
      requires Valid() && slides != []
      ensures r < |slides|
      ensures direction == Next ==> r == (index + 1) % |slides|
      ensures direction == Prev ==> r == (index - 1 + |slides|) % |slides|
    {
      StepIndex(index, direction, |slides|)
    }

    /** The deferred update runs: the index moves one step in the scheduled
        direction and the animation ends. */
    method CompleteSlide()
      requires Valid()
      modifies this`index, this`animating, this`pending
      ensures Valid()
      ensures old(pending).None? ==> index == old(index) && !animating && pending == None
      ensures old(pending).Some? ==>
        index == StepIndex(old(index), old(direction), |slides|) && !animating && pending == None
      ensures old(pending).Some? ==> index == old(IncomingIndex())
    {
      if pending.Some? {
        index := StepIndex(index, pending.value, |slides|);
        animating := false;
        pending := None;
      }
    }

    /** The auto-play tick. */
    method AutoPlayTick()
      requires Valid()
      modifies this`direction, this`animating, this`pending
      ensures Valid()
      ensures !old(animating) && |slides| > 1 ==> direction == Next && animating && pending == Some(Next)
      ensures old(animating) || |slides| <= 1 ==>
        direction == old(direction) && animating == old(animating) && pending == old(pending)
    {
      if |slides| > 1 && !animating {
        ChangeSlide(Next);
      }
    }

    method TouchStart(clientX: real)
      modifies this`touchStartX
      ensures touchStartX == clientX
    {
      touchStartX := clientX;
    }

    method TouchMove(clientX: real)
      modifies this`touchEndX
      ensures touchEndX == clientX
    {
      touchEndX := clientX;
    }

    /** `handleTouchEnd`: with either coordinate at 0 nothing happens (not
        even the reset); otherwise the swipe direction, if any, changes the
        slide and both coordinates go back to 0. */
    method TouchEnd()
      requires Valid()
      modifies this`touchStartX, this`touchEndX, this`direction, this`animating, this`pending
      ensures Valid()
      ensures old(touchStartX) == 0.0 || old(touchEndX) == 0.0 ==>
        touchStartX == old(touchStartX) && touchEndX == old(touchEndX)
        && direction == old(direction) && animating == old(animating) && pending == old(pending)
      ensures old(touchStartX) != 0.0 && old(touchEndX) != 0.0 ==>
        && touchStartX == 0.0 && touchEndX == 0.0
        && var swipe := SwipeDirection(old(touchStartX), old(touchEndX));
          if swipe.Some? && !old(animating) && |slides| > 1
          then direction == swipe.value && animating && pending == swipe
          else direction == old(direction) && animating == old(animating) && pending == old(pending)
    {
      if touchStartX == 0.0 || touchEndX == 0.0 {
        return;
      }
      var swipe := SwipeDirection(touchStartX, touchEndX);
      if swipe.Some? {
        ChangeSlide(swipe.value);
      }
      touchStartX := 0.0;
      touchEndX := 0.0;
    }
  }

  /** A change followed by its deferred update moves to the slide the
      animation showed as incoming. */
  method ChangeThenComplete(c: Carousel, dir: Direction)
    requires c.Valid() && !c.animating && |c.slides| > 1
    modifies c
    ensures c.Valid() && !c.animating && c.slides == old(c.slides)
    ensures c.index == StepIndex(old(c.index), dir, |c.slides|)
  {
    c.ChangeSlide(dir);
    assert c.IncomingIndex() == StepIndex(c.index, dir, |c.slides|);
    c.CompleteSlide();
  }
}
