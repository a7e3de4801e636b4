/** The globe canvas's pointer: where the last mouse move put it, in
    normalised device coordinates, or the sentinel once the mouse has left
    the canvas. */
module Pointer {
  import Swarm

  /** The pointer in normalised device coordinates: x grows to the right
      and y upwards, both -1..1 across the canvas. */
  datatype Ndc = Ndc(x: real, y: real)

  /** The canvas's bounding box in client pixels. */
  datatype Rect = Rect(left: real, top: real, width: real, height: real)

  predicate Inside(r: Rect, clientX: real, clientY: real)
  {
    r.left <= clientX <= r.left + r.width && r.top <= clientY <= r.top + r.height
  }

  /** Before any move and after a leave, both coordinates are 9999. */
  const Away := Ndc(Swarm.Sentinel, Swarm.Sentinel)

  predicate Active(n: Ndc)
  {
    n.x != Swarm.Sentinel
  }

  /** A mouse move over the canvas. */
  function Move(r: Rect, clientX: real, clientY: real): (n: Ndc)
    requires r.width > 0.0 && r.height > 0.0
    ensures Inside(r, clientX, clientY) ==> -1.0 <= n.x <= 1.0 && -1.0 <= n.y <= 1.0
    ensures clientX == r.left ==> n.x == -1.0
    ensures clientX == r.left + r.width ==> n.x == 1.0
    ensures clientY == r.top ==> n.y == 1.0
    ensures clientY == r.top + r.height ==> n.y == -1.0
  {
    Share(clientX - r.left, r.width);
    Share(clientY - r.top, r.height);
    Ndc(((clientX - r.left) / r.width) * 2.0 - 1.0, -((clientY - r.top) / r.height) * 2.0 + 1.0)
  }

  /** An offset within a length is a share of it in [0, 1], 0 at the start
      and 1 at the end. */
  lemma Share(d: real, w: real)
    requires w > 0.0
    ensures 0.0 <= d <= w ==> 0.0 <= d / w <= 1.0
    ensures d == 0.0 ==> d / w == 0.0
    ensures d == w ==> d / w == 1.0
  {
    if 0.0 <= d <= w {
      var q := d / w;
      assert q * w == d;
      if q < 0.0 {
        MulNeg(w, q);
      }
      if q > 1.0 {
        MulOver(w, q);
      }
    }
  }

  lemma MulNeg(w: real, q: real)
    requires w > 0.0 && q < 0.0
    ensures q * w < 0.0
  {
    assert (-q) * w > 0.0;
  }

  lemma MulOver(w: real, q: real)
    requires w > 0.0 && q > 1.0
    ensures q * w > w
  {
    assert (q - 1.0) * w > 0.0;
  }

  datatype Event = MouseMove(clientX: real, clientY: real) | MouseLeave

  function Apply(r: Rect, n: Ndc, e: Event): Ndc
    requires r.width > 0.0 && r.height > 0.0
  {
    match e
    case MouseMove(cx, cy) => Move(r, cx, cy)
    case MouseLeave => Away
  }

  function Run(r: Rect, n: Ndc, events: seq<Event>): Ndc
    requires r.width > 0.0 && r.height > 0.0
    decreases |events|
  {
    if events == [] then n else Run(r, Apply(r, n, events[0]), events[1..])
  }

  /** The browser only reports moves over the canvas. */
  predicate MovesInside(r: Rect, events: seq<Event>)
  {
    forall i :: 0 <= i < |events| && events[i].MouseMove? ==>
      Inside(r, events[i].clientX, events[i].clientY)
  }

  /** The pointer repels particles exactly when the last event was a move:
      never before the first move and never after a leave. */
  lemma {:induction false} ActiveIffLastMove(r: Rect, events: seq<Event>)
    requires r.width > 0.0 && r.height > 0.0
    requires MovesInside(r, events)
    ensures Active(Run(r, Away, events)) <==> (|events| > 0 && events[|events| - 1].MouseMove?)
    decreases |events|
  {
    if events != [] {
      var n := Apply(r, Away, events[0]);
      assert events[0].MouseMove? ==> Inside(r, events[0].clientX, events[0].clientY);
      if |events| == 1 {
        assert Run(r, n, events[1..]) == n;
      } else {
        assert MovesInside(r, events[1..]) by {
          forall i | 0 <= i < |events[1..]| && events[1..][i].MouseMove?
            ensures Inside(r, events[1..][i].clientX, events[1..][i].clientY)
          {
            assert events[1..][i] == events[i + 1];
          }
        }
        ActiveIffLastMove(r, events[1..]);
        AwayIrrelevant(r, n, events[1..]);
      }
    }
  }

  /** Once any event has arrived, the starting pointer is forgotten. */
  lemma {:induction false} AwayIrrelevant(r: Rect, n: Ndc, events: seq<Event>)
    requires r.width > 0.0 && r.height > 0.0
    requires events != []
    ensures Run(r, n, events) == Run(r, Away, events)
    decreases |events|
  {
  }
}
