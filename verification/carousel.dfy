/** The organisations carousel: which slide is shown, which dot is active,
    and which way the slide contents move when the carousel changes slide. */
module Carousel {
  import opened Common

  /** `current` is the shown slide's index, `n` the number of slides. */
  datatype State = State(current: nat, n: nat)

  /** The carousel is only set up when there is at least one slide, and it
      only ever shows one of them. */
  predicate Valid(s: State)
  {
    0 < s.n && s.current < s.n
  }

  /** The state the carousel starts in, before its first `goToSlide(0)`. */
  function Initial(n: nat): (s: State)
    requires n > 0
    ensures Valid(s) && s.current == 0
  {
    State(0, n)
  }

  /** Dot i carries the `active` class exactly when i is the shown slide. */
  function Dots(n: nat, current: nat): (dots: seq<bool>)
    ensures |dots| == n
    ensures forall i :: 0 <= i < n ==> (dots[i] <==> i == current)
  {
    seq(n, i => i == current)
  }

  /** Exactly one dot, the one at index k, is active. */
  predicate OnlyActive(dots: seq<bool>, k: nat)
  {
    && k < |dots|
    && dots[k]
    && forall i :: 0 <= i < |dots| && i != k ==> !dots[i]
  }

  /** What one slide change does. `direction` is +1 when moving to a higher
      index and -1 otherwise; the leaving slide's content slides out to
      `leavingX` and the entering slide's content comes in from
      `enteringFromX` (both px); the track moves to `-trackPercent`%. */
  datatype Move = Move(
    state: State,
    previous: nat,
    direction: int,
    trackPercent: int,
    leavingX: int,
    enteringFromX: int,
    dots: seq<bool>)

  /** `goToSlide(index)`. */
  function GoTo(s: State, index: nat): (m: Move)
    ensures m.state == State(index, s.n) && m.previous == s.current
    ensures m.direction == 1 || m.direction == -1
    ensures m.direction == 1 <==> index > s.current
    ensures m.leavingX == -m.enteringFromX
    ensures m.enteringFromX * m.direction == 30
    ensures m.trackPercent == 100 * index
    ensures index < s.n ==> OnlyActive(m.dots, index)
    ensures index >= s.n ==> forall i :: 0 <= i < |m.dots| ==> !m.dots[i]
  {
    var direction := if index > s.current then 1 else -1;
    Move(State(index, s.n), s.current, direction, index * 100,
         direction * -30, direction * 30, Dots(s.n, index))
  }

  /** The slide after the current one, wrapping to the first. */
  function NextIndex(s: State): (k: nat)
    requires s.n > 0
    ensures k < s.n
    ensures Valid(s) ==> (k == s.current + 1 || (s.current == s.n - 1 && k == 0))
  {
    (s.current + 1) % s.n
  }

  /** The slide before the current one, wrapping to the last. */
  function PrevIndex(s: State): (k: nat)
    requires s.n > 0
    ensures k < s.n
    ensures Valid(s) ==> (k + 1 == s.current || (s.current == 0 && k == s.n - 1))
  {
    PrevWraps(s.current, s.n);
    (s.current - 1 + s.n) % s.n
  }

  /** Adding n before taking the remainder steps back from c by one, or
      wraps from 0 to n - 1. */
  lemma PrevWraps(c: nat, n: nat)
    requires n > 0
    ensures 0 < c <= n ==> (c - 1 + n) % n == c - 1
    ensures c == 0 ==> (c - 1 + n) % n == n - 1
  {
    var x := c - 1 + n;
    if 0 < c <= n {
      assert n <= x < 2 * n;
      assert x == n + (c - 1);
    }
  }

  /** `nextSlide`. */
  function Next(s: State): (m: Move)
    requires s.n > 0
    ensures Valid(m.state) && m.state.n == s.n
    ensures Valid(s) ==> (m.direction == 1 <==> s.current < s.n - 1)
  {
    GoTo(s, NextIndex(s))
  }

  /** `prevSlide`. */
  function Prev(s: State): (m: Move)
    requires s.n > 0
    ensures Valid(m.state) && m.state.n == s.n
    ensures Valid(s) ==> (m.direction == 1 <==> s.current == 0 && s.n > 1)
  {
    GoTo(s, PrevIndex(s))
  }

  /** Next and Prev undo each other. */
  lemma NextPrevInverse(s: State)
    requires Valid(s)
    ensures Prev(Next(s).state).state == s
    ensures Next(Prev(s).state).state == s
  {
  }

  /** Moving to any slide keeps the carousel valid, and the dots always show
      the slide the carousel is on. */
  lemma GoToKeepsValid(s: State, index: nat)
    requires Valid(s) && index < s.n
    ensures Valid(GoTo(s, index).state)
    ensures OnlyActive(GoTo(s, index).dots, GoTo(s, index).state.current)
  {
  }

  /** `handleSwipe`: a touch that ended more than 50px left of where it
      started goes to the next slide, more than 50px right goes to the
      previous slide, anything shorter does nothing. */
  function Swipe(s: State, touchStartX: real, touchEndX: real): (m: Option<Move>)
    requires s.n > 0
    ensures m.None? <==> -50.0 <= touchStartX - touchEndX <= 50.0
    ensures touchStartX - touchEndX > 50.0 ==> m == Some(Next(s))
    ensures touchStartX - touchEndX < -50.0 ==> m == Some(Prev(s))
  {
    var swipeThreshold := 50.0;
    var diff := touchStartX - touchEndX;
    if diff > swipeThreshold then Some(Next(s))
    else if diff < -swipeThreshold then Some(Prev(s))
    else None
  }

  datatype Key = ArrowLeft | ArrowRight | OtherKey

  /** The keyboard handler: arrow keys move the carousel while its bounding
      box (rectTop..rectBottom, in viewport px) overlaps the viewport. */
  function Keyboard(s: State, key: Key, rectTop: real, rectBottom: real, innerHeight: real): (m: Option<Move>)
    requires s.n > 0
    ensures m.Some? <==> rectTop < innerHeight && rectBottom > 0.0 && key != OtherKey
    ensures m.Some? && key == ArrowLeft ==> m.value == Prev(s)
    ensures m.Some? && key == ArrowRight ==> m.value == Next(s)
  {
    var isInView := rectTop < innerHeight && rectBottom > 0.0;
    if !isInView then None
    else match key
      case ArrowLeft => Some(Prev(s))
      case ArrowRight => Some(Next(s))
      case OtherKey => None
  }

  /** While the carousel is in view, the left arrow followed by the right
      arrow, or the right arrow followed by the left, returns to the slide
      the carousel started on. */
  lemma ArrowKeysUndoEachOther(s: State, rectTop: real, rectBottom: real, innerHeight: real)
    requires Valid(s) && rectTop < innerHeight && rectBottom > 0.0
    ensures Keyboard(s, ArrowLeft, rectTop, rectBottom, innerHeight).Some?
    ensures Keyboard(s, ArrowRight, rectTop, rectBottom, innerHeight).Some?
    ensures Keyboard(Keyboard(s, ArrowLeft, rectTop, rectBottom, innerHeight).value.state,
                     ArrowRight, rectTop, rectBottom, innerHeight) == Some(Next(Prev(s).state))
    ensures Next(Prev(s).state).state == s
    ensures Keyboard(Keyboard(s, ArrowRight, rectTop, rectBottom, innerHeight).value.state,
                     ArrowLeft, rectTop, rectBottom, innerHeight) == Some(Prev(Next(s).state))
    ensures Prev(Next(s).state).state == s
  {
    NextPrevInverse(s);
  }

  /** A swipe leaves the carousel on a valid slide, whatever it did. */
  lemma SwipeKeepsValid(s: State, touchStartX: real, touchEndX: real)
    requires Valid(s)
    ensures Swipe(s, touchStartX, touchEndX).Some? ==> Valid(Swipe(s, touchStartX, touchEndX).value.state)
  {
  }
}
