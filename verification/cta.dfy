/** The call-to-action banner: while its section is pinned, the text travels
    from the right edge of the viewport until it is 10vw past the left edge. */
module Cta {
  import opened Common

  /** The text's width in vw for a text textWidth px wide on a viewport
      viewportWidth px wide. */
  function TextWidthVw(textWidth: real, viewportWidth: real): (w: real)
    requires viewportWidth > 0.0
    ensures w * viewportWidth == textWidth * 100.0
    ensures textWidth >= 0.0 ==> w >= 0.0
  {
    (textWidth / viewportWidth) * 100.0
  }

  /** How far the text travels, in vw: from 100vw to 10vw beyond the point
      where its right edge leaves the viewport. */
  function TotalTravel(textWidth: real, viewportWidth: real): (d: real)
    requires viewportWidth > 0.0
    ensures (d - 110.0) * viewportWidth == textWidth * 100.0
    ensures textWidth >= 0.0 ==> d >= 110.0
  {
    100.0 + TextWidthVw(textWidth, viewportWidth) + 10.0
  }

  /** The text's `x` in vw for progress p. */
  function XPos(p: real, textWidth: real, viewportWidth: real): (x: real)
    requires viewportWidth > 0.0
    ensures p == 0.0 ==> x == 100.0
    ensures p == 1.0 ==> x == -(TextWidthVw(textWidth, viewportWidth) + 10.0)
    ensures p == 1.0 ==> x + TextWidthVw(textWidth, viewportWidth) == -10.0
  {
    100.0 - (p * TotalTravel(textWidth, viewportWidth))
  }

  /** The text only ever moves left as the progress grows. */
  lemma XPosStrictlyDecreasing(p: real, q: real, textWidth: real, viewportWidth: real)
    requires viewportWidth > 0.0 && textWidth >= 0.0
    requires p < q
    ensures XPos(q, textWidth, viewportWidth) < XPos(p, textWidth, viewportWidth)
  {
    var d := TotalTravel(textWidth, viewportWidth);
    MulStrict(d, p, q);
    assert p * d == d * p && q * d == d * q;
  }

  /** Over [0,1] the text stays between its start at 100vw and its end. */
  lemma XPosBetweenEnds(p: real, textWidth: real, viewportWidth: real)
    requires viewportWidth > 0.0 && textWidth >= 0.0
    requires InUnit(p)
    ensures XPos(1.0, textWidth, viewportWidth) <= XPos(p, textWidth, viewportWidth) <= 100.0
  {
    var d := TotalTravel(textWidth, viewportWidth);
    MulMono(d, p, 1.0);
    MulMono(d, 0.0, p);
    assert p * d == d * p;
  }
}
