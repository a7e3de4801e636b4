/** The story slides that follow the mosaic: each slide's ScrollTrigger maps
    its progress to the image scale, the overlay darkness and the caption's
    opacity and vertical offset. Every slide but the last runs one table; the
    last slide runs a second table that also fades the whole slide out. */
module Story {
  import opened Common

  /** What one `onUpdate` call writes.
      `overlayAlpha` is the alpha of the overlay's `rgba(0,0,0,a)` background
      (`transparent` is alpha 0). `textY` is the caption's `y` in pixels.
      `wrapperOpacity` and `overlayOpacity` are written by the last slide
      only. */
  datatype Frame = Frame(
    imgScale: real,
    imgOpacity: real,
    wrapperOpacity: Option<real>,
    overlayAlpha: real,
    overlayOpacity: Option<real>,
    textOpacity: real,
    textY: Option<real>)

  /** Two frames agree on every property both of them write: what the styling
      layer sees cannot jump between them. */
  predicate Agree(a: Frame, b: Frame)
  {
    && a.imgScale == b.imgScale
    && a.imgOpacity == b.imgOpacity
    && Agrees(a.wrapperOpacity, b.wrapperOpacity)
    && a.overlayAlpha == b.overlayAlpha
    && Agrees(a.overlayOpacity, b.overlayOpacity)
    && a.textOpacity == b.textOpacity
    && Agrees(a.textY, b.textY)
  }

  /** The wrapper opacity the last slide writes in its first four phases. */
  function Wrapper(last: bool): (w: Option<real>)
    ensures w.Some? <==> last
    ensures w.Some? ==> w.value == 1.0
  {
    if last then Some(1.0) else None
  }

  // ---------------------------------------------------------------------
  // Phases, as functions of the local progress t in [0,1] of each phase.
  // ---------------------------------------------------------------------

  /** Entering: image at rest, caption hidden. The last slide also pins the
      caption 30px low; other slides leave its offset alone. */
  function Entering(last: bool): (f: Frame)
    ensures f.imgScale == 1.0 && f.overlayAlpha == 0.0 && f.textOpacity == 0.0
    ensures f.textY.Some? <==> last
  {
    Frame(1.0, 1.0, Wrapper(last), 0.0, None, 0.0, if last then Some(30.0) else None)
  }

  /** Caption appears and rises from 30px while the zoom starts. */
  function TextIn(t: real, last: bool): (f: Frame)
    ensures 0.0 <= t <= 1.0 ==>
      && 1.0 <= f.imgScale <= 1.08
      && 0.0 <= f.overlayAlpha <= 0.4
      && f.textOpacity == t
      && f.textY.Some? && 0.0 <= f.textY.value <= 30.0
  {
    Frame(1.0 + t * 0.08, 1.0, Wrapper(last), t * 0.4, None, t, Some(30.0 * (1.0 - t)))
  }

  /** Caption held fully visible (reading time) while the zoom continues. */
  function Hold(t: real, last: bool): (f: Frame)
    ensures 0.0 <= t <= 1.0 ==> 1.08 <= f.imgScale <= 1.12
    ensures f.overlayAlpha == 0.4 && f.textOpacity == 1.0 && f.textY == Some(0.0)
  {
    Frame(1.08 + t * 0.04, 1.0, Wrapper(last), 0.4, None, 1.0, Some(0.0))
  }

  /** Caption fades and rises away; overlay darkens from 0.4 to 0.6. */
  function TextOut(t: real, last: bool): (f: Frame)
    ensures 0.0 <= t <= 1.0 ==>
      && 1.12 <= f.imgScale <= 1.18
      && 0.4 <= f.overlayAlpha <= 0.6
      && 0.0 <= f.textOpacity <= 1.0
      && f.textY.Some? && -30.0 <= f.textY.value <= 0.0
  {
    Frame(1.12 + t * 0.06, 1.0, Wrapper(last), 0.4 + t * 0.2, None, 1.0 - t, Some(-30.0 * t))
  }

  /** Every slide but the last: keep zooming and darken while the next slide
      covers this one. */
  function Darken(t: real): (f: Frame)
    ensures 0.0 <= t <= 1.0 ==> 1.18 <= f.imgScale <= 1.30 && 0.6 <= f.overlayAlpha <= 1.0
    ensures f.textOpacity == 0.0 && f.imgOpacity == 1.0
  {
    Frame(1.18 + t * 0.12, 1.0, None, 0.6 + t * 0.4, None, 0.0, None)
  }

  /** The last slide: keep zooming and darkening while the image, its
      wrapper and the overlay fade out together to reveal the next section. */
  function FadeOut(t: real): (f: Frame)
    ensures 0.0 <= t <= 1.0 ==> 1.18 <= f.imgScale <= 1.30 && 0.6 <= f.overlayAlpha <= 1.0
    ensures 0.0 <= t <= 1.0 ==> 0.0 <= f.imgOpacity <= 1.0
    ensures f.wrapperOpacity == Some(f.imgOpacity) && f.overlayOpacity == Some(f.imgOpacity)
    ensures f.textOpacity == 0.0
  {
    Frame(1.18 + t * 0.12, 1.0 - t, Some(1.0 - t), 0.6 + t * 0.4, Some(1.0 - t), 0.0, None)
  }

  // ---------------------------------------------------------------------
  // The two tables. Each `<=` test places a boundary in the earlier phase.
  // ---------------------------------------------------------------------

  /** Every slide but the last, over progress p. */
  function Regular(p: real): (f: Frame)
    ensures InUnit(p) ==> 1.0 <= f.imgScale <= 1.30
    ensures InUnit(p) ==> 0.0 <= f.overlayAlpha <= 1.0
    ensures InUnit(p) ==> 0.0 <= f.textOpacity <= 1.0
    ensures InUnit(p) ==> (f.textOpacity == 0.0 <==> p <= 0.25 || p >= 0.7)
    ensures f.imgOpacity == 1.0
    ensures p == 0.0 ==> f.imgScale == 1.0 && f.overlayAlpha == 0.0
    ensures p == 1.0 ==> f.imgScale == 1.30 && f.overlayAlpha == 1.0
  {
    if p <= 0.25 then Entering(false)
    else if p <= 0.4 then TextIn((p - 0.25) / 0.15, false)
    else if p <= 0.55 then Hold((p - 0.4) / 0.15, false)
    else if p <= 0.7 then TextOut((p - 0.55) / 0.15, false)
    else Darken((p - 0.7) / 0.3)
  }

  /** The last slide, over progress p. */
  function Last(p: real): (f: Frame)
    ensures InUnit(p) ==> 1.0 <= f.imgScale <= 1.30
    ensures InUnit(p) ==> 0.0 <= f.overlayAlpha <= 1.0
    ensures InUnit(p) ==> 0.0 <= f.textOpacity <= 1.0
    ensures InUnit(p) ==> 0.0 <= f.imgOpacity <= 1.0
    ensures f.wrapperOpacity == Some(f.imgOpacity)
    ensures p <= 0.65 ==> f.imgOpacity == 1.0
    ensures 0.65 < p <= 1.0 ==> f.imgOpacity < 1.0
    ensures p == 1.0 ==> f.imgOpacity == 0.0 && f.overlayOpacity == Some(0.0)
    ensures p == 1.0 ==> f.imgScale == 1.30 && f.overlayAlpha == 1.0
  {
    if p <= 0.2 then Entering(true)
    else if p <= 0.35 then TextIn((p - 0.2) / 0.15, true)
    else if p <= 0.5 then Hold((p - 0.35) / 0.15, true)
    else if p <= 0.65 then TextOut((p - 0.5) / 0.15, true)
    else FadeOut((p - 0.65) / 0.35)
  }

  // ---------------------------------------------------------------------
  // Boundary agreement and continuity.
  // ---------------------------------------------------------------------

  /** Each phase ends where the next begins, for every slide. */
  lemma PhasesMeet(last: bool)
    ensures Agree(Entering(last), TextIn(0.0, last))
    ensures Agree(TextIn(1.0, last), Hold(0.0, last))
    ensures Agree(Hold(1.0, last), TextOut(0.0, last))
    ensures !last ==> Agree(TextOut(1.0, last), Darken(0.0))
    ensures last ==> Agree(TextOut(1.0, last), FadeOut(0.0))
  {
  }

  /** Over a regular slide the image scale never decreases, and it changes by
      at most 0.6 per unit of progress: no phase boundary makes it jump. */
  lemma RegularScaleRisesSmoothly(p: real, q: real)
    requires 0.0 <= p <= q <= 1.0
    ensures 0.0 <= Regular(q).imgScale - Regular(p).imgScale <= 0.6 * (q - p)
  {
  }

  /** The overlay of a regular slide never lightens, and darkens by at most
      3 per unit of progress. */
  lemma RegularOverlayRisesSmoothly(p: real, q: real)
    requires 0.0 <= p <= q <= 1.0
    ensures 0.0 <= Regular(q).overlayAlpha - Regular(p).overlayAlpha <= 3.0 * (q - p)
  {
  }

  /** The caption of a regular slide changes opacity by at most 20/3 per unit
      of progress. */
  lemma RegularTextSmooth(p: real, q: real)
    requires 0.0 <= p <= q <= 1.0
    ensures Abs(Regular(q).textOpacity - Regular(p).textOpacity) <= (20.0 / 3.0) * (q - p)
  {
  }

  /** Scale of the last slide: non-decreasing, at most 0.6 per unit. */
  lemma LastScaleRisesSmoothly(p: real, q: real)
    requires 0.0 <= p <= q <= 1.0
    ensures 0.0 <= Last(q).imgScale - Last(p).imgScale <= 0.6 * (q - p)
  {
  }

  /** Overlay of the last slide: non-decreasing, at most 3 per unit. */
  lemma LastOverlayRisesSmoothly(p: real, q: real)
    requires 0.0 <= p <= q <= 1.0
    ensures 0.0 <= Last(q).overlayAlpha - Last(p).overlayAlpha <= 3.0 * (q - p)
  {
  }

  /** Caption of the last slide: at most 20/3 per unit. */
  lemma LastTextSmooth(p: real, q: real)
    requires 0.0 <= p <= q <= 1.0
    ensures Abs(Last(q).textOpacity - Last(p).textOpacity) <= (20.0 / 3.0) * (q - p)
  {
  }

  /** From 0.65 on, the last slide's image fades linearly, reaching exactly 0
      at p = 1: the remaining opacity is the remaining progress over 0.35. */
  lemma LastFadesLinearly(p: real)
    requires 0.65 <= p <= 1.0
    ensures Last(p).imgOpacity * 0.35 == 1.0 - p
  {
  }
}
