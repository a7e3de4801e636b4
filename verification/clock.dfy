/** The globe's animation clock: every frame adds the time since the last
    frame, in seconds, to the swarm's clock, and turns the particle system a
    fixed 0.002 rad about its vertical axis. */
module FrameClock {

  /** `time` drives the drift angles; `lastTime` is the previous frame's
      timestamp in ms; `rotationY` is the particle system's turn in rad. */
  datatype Clock = Clock(time: real, lastTime: real, rotationY: real)

  /** The turn added per frame, whatever the frame's length. */
  const TurnPerFrame: real := 0.002

  /** One animation frame at timestamp `now` (ms). */
  function Tick(c: Clock, now: real): (c': Clock)
    ensures c'.lastTime == now
    ensures (c'.time - c.time) * 1000.0 == now - c.lastTime
    ensures c'.rotationY - c.rotationY == TurnPerFrame
    ensures now >= c.lastTime ==> c'.time >= c.time
    ensures now > c.lastTime ==> c'.time > c.time
  {
    var deltaTime := (now - c.lastTime) / 1000.0;
    Clock(c.time + deltaTime, now, c.rotationY + TurnPerFrame)
  }

  /** The frames at the given timestamps, in order. */
  function Frames(c: Clock, stamps: seq<real>): Clock
    decreases |stamps|
  {
    if stamps == [] then c else Frames(Tick(c, stamps[0]), stamps[1..])
  }

  /** The per-frame deltas telescope: after any run of frames the clock has
      advanced by the wall time between the start and the last frame, while
      the turn has grown by a fixed amount per frame, so the rotation speed
      follows the frame rate and the drift does not. */
  lemma {:induction false} FramesTelescope(c: Clock, stamps: seq<real>)
    requires stamps != []
    ensures Frames(c, stamps).lastTime == stamps[|stamps| - 1]
    ensures (Frames(c, stamps).time - c.time) * 1000.0 == stamps[|stamps| - 1] - c.lastTime
    ensures Frames(c, stamps).rotationY == c.rotationY + TurnPerFrame * (|stamps| as real)
    decreases |stamps|
  {
    var c1 := Tick(c, stamps[0]);
    if |stamps| > 1 {
      FramesTelescope(c1, stamps[1..]);
      assert stamps[1..][|stamps[1..]| - 1] == stamps[|stamps| - 1];
      var e := Frames(c1, stamps[1..]);
      assert (e.time - c.time) * 1000.0 == (e.time - c1.time) * 1000.0 + (c1.time - c.time) * 1000.0;
    }
  }

  /** Each timestamp is at least the one before it, the first at least
      `start`. */
  predicate Ascending(start: real, stamps: seq<real>)
  {
    && (stamps != [] ==> start <= stamps[0])
    && forall i :: 0 < i < |stamps| ==> stamps[i - 1] <= stamps[i]
  }

  /** With timestamps that never go backwards, the clock never goes back. */
  lemma {:induction false} TimeNeverGoesBack(c: Clock, stamps: seq<real>)
    requires Ascending(c.lastTime, stamps)
    ensures Frames(c, stamps).time >= c.time
    decreases |stamps|
  {
    if stamps != [] {
      var c1 := Tick(c, stamps[0]);
      var rest := stamps[1..];
      assert Ascending(c1.lastTime, rest) by {
        forall i | 0 < i < |rest|
          ensures rest[i - 1] <= rest[i]
        {
          assert rest[i - 1] == stamps[i] && rest[i] == stamps[i + 1];
        }
        if rest != [] {
          assert rest[0] == stamps[1];
        }
      }
      TimeNeverGoesBack(c1, rest);
    }
  }
}
