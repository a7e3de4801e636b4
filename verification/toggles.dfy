/** Three small pieces of state the page keeps: the one-shot switch that lets
    the page scroll once the hero headline is shown, the rotating
    "proportions" statistic, and the species figure that alternates between
    a count and a percentage. */
module Toggles {

  // ---------------------------------------------------------------------
  // enableScroll
  // ---------------------------------------------------------------------

  /** `enabled` is `scrollEnabled`; `smoothScrolling` whether the smooth
      scroller runs; `indicatorShows` how many times the scroll indicator
      has been animated in. */
  datatype ScrollGate = ScrollGate(enabled: bool, smoothScrolling: bool, indicatorShows: nat)

  /** At construction scrolling is disabled and the smooth scroller is
      stopped, so the page cannot move. */
  const Locked := ScrollGate(false, false, 0)

  /** `enableScroll()`. `hasScroller` is whether the smooth scroller exists. */
  function EnableScroll(g: ScrollGate, hasScroller: bool): (g': ScrollGate)
    ensures g'.enabled
    ensures g.enabled ==> g' == g
    ensures !g.enabled ==> g'.indicatorShows == g.indicatorShows + 1
    ensures !g.enabled ==> (g'.smoothScrolling <==> g.smoothScrolling || hasScroller)
  {
    if g.enabled then g
    else ScrollGate(true, g.smoothScrolling || hasScroller, g.indicatorShows + 1)
  }

  /** Calling `enableScroll` k times in a row. */
  function EnableTimes(g: ScrollGate, hasScroller: bool, k: nat): ScrollGate
  {
    if k == 0 then g else EnableScroll(EnableTimes(g, hasScroller, k - 1), hasScroller)
  }

  /** However often it is called, the indicator is shown once and the
      smooth scroller is started: the switch is one-shot. */
  lemma {:induction false} EnableIsOneShot(hasScroller: bool, k: nat)
    requires k >= 1
    ensures EnableTimes(Locked, hasScroller, k) == ScrollGate(true, hasScroller, 1)
  {
    if k > 1 {
      EnableIsOneShot(hasScroller, k - 1);
    }
  }

  // ---------------------------------------------------------------------
  // Proportions rotation
  // ---------------------------------------------------------------------

  /** The index shown after one rotation of a list of len entries (the page
      lists 9). */
  function Rotate(i: nat, len: nat): (j: nat)
    requires len > 0
    ensures j < len
    ensures i < len ==> (j == i + 1 || (i == len - 1 && j == 0))
  {
    (i + 1) % len
  }

  /** The index shown after k rotations. */
  function RotateTimes(i: nat, len: nat, k: nat): nat
    requires len > 0
  {
    if k == 0 then i else Rotate(RotateTimes(i, len, k - 1), len)
  }

  /** Rotating a + b times is rotating a times, then b times. */
  lemma {:induction false} RotateTimesAdd(i: nat, len: nat, a: nat, b: nat)
    requires len > 0
    ensures RotateTimes(i, len, a + b) == RotateTimes(RotateTimes(i, len, a), len, b)
    decreases b
  {
    if b > 0 {
      RotateTimesAdd(i, len, a, b - 1);
    }
  }

  /** Before it wraps, k rotations advance the index by exactly k. */
  lemma {:induction false} RotateTimesAdvances(i: nat, len: nat, k: nat)
    requires len > 0 && i + k < len
    ensures RotateTimes(i, len, k) == i + k
  {
    if k > 0 {
      RotateTimesAdvances(i, len, k - 1);
    }
  }

  /** From index i, len - i rotations wrap around to the first entry. */
  lemma RotateTimesWraps(i: nat, len: nat)
    requires len > 0 && i < len
    ensures RotateTimes(i, len, len - i) == 0
  {
    RotateTimesAdvances(i, len, len - i - 1);
  }

  /** Every entry is shown within one full round, and a full round returns
      to where it started. */
  lemma RotationVisitsAll(i: nat, j: nat, len: nat)
    requires len > 0 && i < len && j < len
    ensures RotateTimes(i, len, len) == i
    ensures exists k :: 0 <= k < len && RotateTimes(i, len, k) == j
  {
    RotateTimesWraps(i, len);
    RotateTimesAdd(i, len, len - i, i);
    if i > 0 {
      RotateTimesAdvances(0, len, i);
    }
    if i <= j {
      RotateTimesAdvances(i, len, j - i);
      assert RotateTimes(i, len, j - i) == j;
    } else {
      RotateTimesAdd(i, len, len - i, j);
      if j > 0 {
        RotateTimesAdvances(0, len, j);
      }
      assert RotateTimes(i, len, len - i + j) == j;
    }
  }

  // ---------------------------------------------------------------------
  // Species counter
  // ---------------------------------------------------------------------

  /** The `yPercent` and opacity an element is tweened to. */
  datatype Pose = Pose(yPercent: real, opacity: real)

  /** `showNumber` and the poses the number and the percentage were last
      sent to. */
  datatype Species = Species(showNumber: bool, number: Pose, percent: Pose)

  const Shown := Pose(0.0, 1.0)

  /** Initial state: number shown, percentage parked below and hidden. */
  const SpeciesStart := Species(true, Shown, Pose(100.0, 0.0))

  /** The flag agrees with what is on screen: exactly one of the two figures
      is shown, and it is the number iff `showNumber`. */
  predicate Consistent(s: Species)
  {
    && (s.showNumber ==> s.number == Shown && s.percent.opacity == 0.0)
    && (!s.showNumber ==> s.percent == Shown && s.number.opacity == 0.0)
  }

  /** One tick of the alternation: the shown figure leaves (upwards for the
      number, downwards for the percentage) and the other comes in. */
  function Toggle(s: Species): (s': Species)
    ensures s'.showNumber == !s.showNumber
    ensures s.showNumber ==> s'.number == Pose(-100.0, 0.0) && s'.percent == Shown
    ensures !s.showNumber ==> s'.percent == Pose(100.0, 0.0) && s'.number == Shown
    ensures Consistent(s')
  {
    if s.showNumber then Species(false, Pose(-100.0, 0.0), Shown)
    else Species(true, Shown, Pose(100.0, 0.0))
  }

  /** The alternation is a 2-cycle: two ticks bring back the start. */
  lemma ToggleTwiceRestores()
    ensures Consistent(SpeciesStart)
    ensures Toggle(Toggle(SpeciesStart)) == SpeciesStart
    ensures Toggle(Toggle(Toggle(SpeciesStart))) == Toggle(SpeciesStart)
  {
  }
}
