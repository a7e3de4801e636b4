/** The carousel's auto-play timer. Every slide change restarts a 5-second
    interval; hovering the carousel stops it and leaving restarts it. The
    model keeps the set of intervals that are still scheduled, the handle the
    code holds in `autoPlayInterval`, and the next id `setInterval` returns. */
module Autoplay {
  import opened Common

  datatype Timers = Timers(live: set<nat>, handle: Option<nat>, nextId: nat)

  /** No interval is scheduled yet and `autoPlayInterval` is null. */
  const Idle := Timers({}, None, 1)

  /** Ids handed out so far are below `nextId`, so a new id is never live. */
  predicate Fresh(t: Timers)
  {
    && (forall id :: id in t.live ==> id < t.nextId)
    && (t.handle.Some? ==> t.handle.value < t.nextId)
  }

  /** At most one interval is scheduled, and it is the one the code holds. */
  predicate Tidy(t: Timers)
  {
    t.live == {} || (t.handle.Some? && t.live == {t.handle.value})
  }

  /** `setInterval(nextSlide, autoPlayDelay)` stored in `autoPlayInterval`. */
  function StartAutoPlay(t: Timers): (t': Timers)
    ensures t'.live == t.live + {t.nextId}
    ensures t'.handle == Some(t.nextId) && t'.nextId > t.nextId
    ensures Fresh(t) ==> Fresh(t') && |t'.live| == |t.live| + 1
  {
    Timers(t.live + {t.nextId}, Some(t.nextId), t.nextId + 1)
  }

  /** `if (autoPlayInterval) clearInterval(autoPlayInterval)`: cancels the
      held interval but keeps holding its (now stale) handle. */
  function ClearHeld(t: Timers): (t': Timers)
    ensures t'.handle == t.handle && t'.nextId == t.nextId
    ensures t.handle.None? ==> t'.live == t.live
    ensures t.handle.Some? ==> t'.live == t.live - {t.handle.value}
    ensures Fresh(t) ==> Fresh(t')
  {
    if t.handle.Some? then t.(live := t.live - {t.handle.value}) else t
  }

  /** `resetAutoPlay`, run by every `goToSlide`. */
  function ResetAutoPlay(t: Timers): (t': Timers)
    ensures t'.live == (if t.handle.Some? then t.live - {t.handle.value} else t.live) + {t.nextId}
    ensures t'.handle == Some(t.nextId)
    ensures Tidy(t) ==> Tidy(t')
  {
    StartAutoPlay(ClearHeld(t))
  }

  /** What can happen to the timers. `Navigate` is any `goToSlide`: a dot, a
      button, an arrow key, a long enough swipe, or an interval firing
      `nextSlide`. */
  datatype Event = Navigate | MouseEnter | MouseLeave

  /** One event, as written: `mouseleave` starts an interval without
      clearing the held one. */
  function Apply(t: Timers, e: Event): (t': Timers)
    ensures e == MouseEnter ==> t'.handle == t.handle && t'.live <= t.live
    ensures e != MouseEnter ==> t'.handle == Some(t.nextId) && t.nextId in t'.live
  {
    match e
    case Navigate => ResetAutoPlay(t)
    case MouseEnter => ClearHeld(t)
    case MouseLeave => StartAutoPlay(t)
  }

  function Run(t: Timers, events: seq<Event>): Timers
    decreases |events|
  {
    if events == [] then t else Run(Apply(t, events[0]), events[1..])
  }

  /** The set-up call `goToSlide(0)` leaves exactly one interval running. */
  lemma SetupStartsOne()
    ensures Run(Idle, [Navigate]).live == {1}
  {
  }

  /** Hover the carousel, change slide with an arrow key (or a dot, or a
      button), then move the pointer away: two intervals are now scheduled,
      and the older one is no longer held by anything, so nothing will ever
      clear it. */
  lemma HoverNavigateLeaveLeaks()
    ensures Run(Idle, [Navigate, MouseEnter, Navigate, MouseLeave]).live == {2, 3}
    ensures Run(Idle, [Navigate, MouseEnter, Navigate, MouseLeave]).handle == Some(3)
  {
  }

  /** The r-th event of a hover-navigate-leave cycle. */
  function CycleEvent(r: nat): Event
  {
    if r == 0 then MouseEnter else if r == 1 then Navigate else MouseLeave
  }

  /** The hover-navigate-leave cycle, k times. */
  function Cycles(k: nat): (events: seq<Event>)
    ensures |events| == 3 * k
    ensures forall j :: 0 <= j < |events| ==> events[j] == CycleEvent(j % 3)
  {
    if k == 0 then [] else Cycles(k - 1) + [MouseEnter, Navigate, MouseLeave]
  }

  /** One hover-navigate-leave cycle from a held, live interval leaves one
      interval more, again held and live. */
  lemma CycleLeaksOne(t: Timers) returns (t3: Timers)
    requires Fresh(t) && t.handle.Some? && t.handle.value in t.live
    ensures t3 == Run(t, [MouseEnter, Navigate, MouseLeave])
    ensures Fresh(t3) && t3.handle.Some? && t3.handle.value in t3.live
    ensures |t3.live| == |t.live| + 1
  {
    var h := t.handle.value;
    var t1 := ClearHeld(t);
    assert |t1.live| == |t.live| - 1;
    var t2 := ResetAutoPlay(t1);
    assert h !in t1.live;
    assert t2.live == t1.live + {t1.nextId};
    assert |t2.live| == |t.live|;
    t3 := StartAutoPlay(t2);
    assert Fresh(t2);
    var events := [MouseEnter, Navigate, MouseLeave];
    assert events[1..] == [Navigate, MouseLeave] && events[2..] == [MouseLeave];
    assert Run(t2, [MouseLeave]) == t3;
  }

  /** Each cycle adds one interval that can never be cleared: the leak grows
      without bound, while the newest interval stays held and live. */
  lemma {:induction false} LeakGrows(t: Timers, k: nat)
    requires Fresh(t) && t.handle.Some? && t.handle.value in t.live
    ensures |Run(t, Cycles(k)).live| == |t.live| + k
    ensures var e := Run(t, Cycles(k)); Fresh(e) && e.handle.Some? && e.handle.value in e.live
    decreases k
  {
    if k > 0 {
      LeakGrows(t, k - 1);
      var mid := Run(t, Cycles(k - 1));
      var t3 := CycleLeaksOne(mid);
      RunAppend(t, Cycles(k - 1), [MouseEnter, Navigate, MouseLeave]);
    }
  }

  /** Running two event sequences one after the other. */
  lemma {:induction false} RunAppend(t: Timers, a: seq<Event>, b: seq<Event>)
    ensures Run(t, a + b) == Run(Run(t, a), b)
    decreases |a|
  {
    if a != [] {
      assert (a + b)[0] == a[0];
      assert (a + b)[1..] == a[1..] + b;
      RunAppend(Apply(t, a[0]), a[1..], b);
    } else {
      assert a + b == b;
    }
  }

  // ---------------------------------------------------------------------
  // Corrected: `mouseleave` resets the auto-play, clearing the held
  // interval before starting a new one.
  // ---------------------------------------------------------------------

  function ApplyFixed(t: Timers, e: Event): (t': Timers)
    ensures e == MouseEnter ==> t'.handle == t.handle && |t'.live| <= |t.live|
    ensures e != MouseEnter ==> t'.handle == Some(t.nextId) && t.nextId in t'.live
    ensures Tidy(t) ==> Tidy(t')
  {
    match e
    case Navigate => ResetAutoPlay(t)
    case MouseEnter => ClearHeld(t)
    case MouseLeave => ResetAutoPlay(t)
  }

  function RunFixed(t: Timers, events: seq<Event>): Timers
    decreases |events|
  {
    if events == [] then t else RunFixed(ApplyFixed(t, events[0]), events[1..])
  }

  /** With the correction, whatever the user does, at most one interval is
      ever scheduled and it is always the held one. */
  lemma {:induction false} FixedNeverLeaks(t: Timers, events: seq<Event>)
    requires Tidy(t)
    ensures Tidy(RunFixed(t, events))
    ensures |RunFixed(t, events).live| <= 1
    decreases |events|
  {
    if events != [] {
      FixedNeverLeaks(ApplyFixed(t, events[0]), events[1..]);
    }
  }
}
