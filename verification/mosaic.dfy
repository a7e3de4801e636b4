/** The mosaic: the centre tile zooms to fill the screen, its caption fades
    in, holds, then fades out while the overlay darkens. `fullScale` is the
    scale at which the centre tile covers the viewport. */
module Mosaic {
  import opened Common

  /** What one `onUpdate` call writes. `gridGap` is the grid's gap and
      padding in px (both get the same value); `itemOpacity`/`itemScale` are
      written to every tile but the centre one; `textVisible` is the caption's
      `visible` class (Some(true) adds it, Some(false) removes it, None leaves
      it); `zooming` is the centre tile's `zooming` class. */
  datatype Frame = Frame(
    zooming: bool,
    centerScale: real,
    gridGap: Option<real>,
    itemOpacity: Option<real>,
    itemScale: Option<real>,
    overlayAlpha: real,
    textOpacity: real,
    textY: Option<real>,
    textVisible: Option<bool>)

  /** The scale at which a tile of size w x h, measured before any transform,
      covers a vw x vh viewport, with a 15% margin. */
  function FullscreenScale(vw: real, vh: real, w: real, h: real): (s: real)
    requires w > 0.0 && h > 0.0
    ensures s * w >= 1.15 * vw && s * h >= 1.15 * vh
    ensures s * w == 1.15 * vw || s * h == 1.15 * vh
  {
    Max(vw / w, vh / h) * 1.15
  }

  /** A tile that starts no larger than the viewport in some direction zooms
      by at least 1.15: the zoom phase enlarges it. */
  lemma FullscreenScaleEnlarges(vw: real, vh: real, w: real, h: real)
    requires 0.0 < w <= vw && 0.0 < h
    ensures FullscreenScale(vw, vh, w, h) >= 1.15
  {
    var s := FullscreenScale(vw, vh, w, h);
    assert s * w >= 1.15 * vw >= 1.15 * w;
  }

  // ---------------------------------------------------------------------
  // Phases, as functions of the local progress t of each phase.
  // ---------------------------------------------------------------------

  /** 0 -> 0.3: the centre tile zooms from 1 to F; the grid closes its gaps
      and the other tiles fade and shrink to 80%. */
  function Zoom(t: real, F: real): (f: Frame)
    ensures t == 0.0 ==> f.centerScale == 1.0
    ensures t == 1.0 ==> f.centerScale == F
    ensures f.gridGap.Some? && f.itemOpacity.Some? && f.itemScale.Some?
    ensures 0.0 <= t <= 1.0 ==>
      && 0.0 <= f.gridGap.value <= 10.0
      && 0.0 <= f.itemOpacity.value <= 1.0
      && 0.8 <= f.itemScale.value <= 1.0
    ensures f.overlayAlpha == 0.0 && f.textOpacity == 0.0 && f.textVisible == Some(false)
  {
    Frame(false, 1.0 + (F - 1.0) * t, Some(10.0 * (1.0 - t)), Some(1.0 - t), Some(1.0 - t * 0.2),
          0.0, 0.0, None, Some(false))
  }

  /** 0.3 -> 0.55: the caption fades in and rises from 30px; the overlay
      darkens to 0.4 and the zoom continues by 5%. The `visible` class is
      added once t exceeds 0.1. */
  function TextIn(t: real, F: real): (f: Frame)
    ensures t == 0.0 ==> f.centerScale == F
    ensures t == 1.0 ==> f.centerScale == 1.05 * F
    ensures 0.0 <= t <= 1.0 ==> 0.0 <= f.overlayAlpha <= 0.4 && 0.0 <= f.textOpacity <= 1.0
    ensures f.gridGap == Some(0.0) && f.itemOpacity == Some(0.0) && f.itemScale.None?
    ensures f.textVisible == (if t > 0.1 then Some(true) else None)
  {
    Frame(false, F * (1.0 + t * 0.05), Some(0.0), Some(0.0), None,
          t * 0.4, t, Some(30.0 * (1.0 - t)), if t > 0.1 then Some(true) else None)
  }

  /** 0.55 -> 0.75: caption held; the zoom continues by a further 3%. */
  function Hold(t: real, F: real): (f: Frame)
    ensures t == 0.0 ==> f.centerScale == 1.05 * F
    ensures t == 1.0 ==> f.centerScale == 1.0815 * F
    ensures f.overlayAlpha == 0.4 && f.textOpacity == 1.0 && f.textY == Some(0.0)
    ensures f.textVisible == Some(true)
  {
    Frame(false, F * (1.05 * (1.0 + t * 0.03)), None, None, None, 0.4, 1.0, Some(0.0), Some(true))
  }

  /** 0.75 -> 1 as written: the caption fades and rises away, the overlay
      darkens to 0.9, and the zoom restarts from 1.08 F (not from 1.0815 F,
      where the hold phase ended) and grows by 7%. */
  function FadeOut(t: real, F: real): (f: Frame)
    ensures t == 0.0 ==> f.centerScale == 1.08 * F
    ensures t == 1.0 ==> f.centerScale == 1.1556 * F
    ensures 0.0 <= t <= 1.0 ==> 0.4 <= f.overlayAlpha <= 0.9 && 0.0 <= f.textOpacity <= 1.0
    ensures f.textVisible == (if t > 0.9 then Some(false) else None)
  {
    Frame(false, F * (1.08 * (1.0 + t * 0.07)), None, None, None,
          0.4 + t * 0.5, 1.0 - t, Some(-30.0 * t), if t > 0.9 then Some(false) else None)
  }

  /** The table as written, for progress p and full-screen scale F. */
  function Table(p: real, F: real): (f: Frame)
    ensures f.zooming <==> p > 0.05
    ensures p == 0.0 ==> f.centerScale == 1.0 && f.overlayAlpha == 0.0 && f.textOpacity == 0.0
    ensures p == 0.3 ==> f.centerScale == F
    ensures p == 0.75 ==> f.centerScale == 1.0815 * F
    ensures p == 1.0 ==> f.centerScale == 1.1556 * F && f.overlayAlpha == 0.9 && f.textOpacity == 0.0
    ensures InUnit(p) ==> 0.0 <= f.overlayAlpha <= 0.9 && 0.0 <= f.textOpacity <= 1.0
    ensures InUnit(p) ==> (f.textOpacity == 1.0 <==> 0.55 <= p <= 0.75)
  {
    var f :=
      if p <= 0.3 then Zoom(p / 0.3, F)
      else if p <= 0.55 then TextIn((p - 0.3) / 0.25, F)
      else if p <= 0.75 then Hold((p - 0.55) / 0.2, F)
      else FadeOut((p - 0.75) / 0.25, F);
    f.(zooming := p > 0.05)
  }

  /** Overlay alpha, caption opacity and caption offset agree at 0.3, 0.55
      and 0.75; the centre scale agrees at 0.3 and 0.55. */
  lemma PhasesMeet(F: real)
    ensures Zoom(1.0, F).centerScale == TextIn(0.0, F).centerScale == F
    ensures TextIn(1.0, F).centerScale == Hold(0.0, F).centerScale == 1.05 * F
    ensures Zoom(1.0, F).overlayAlpha == TextIn(0.0, F).overlayAlpha == 0.0
    ensures TextIn(1.0, F).overlayAlpha == Hold(0.0, F).overlayAlpha == 0.4
    ensures Hold(1.0, F).overlayAlpha == FadeOut(0.0, F).overlayAlpha == 0.4
    ensures Zoom(1.0, F).textOpacity == TextIn(0.0, F).textOpacity == 0.0
    ensures TextIn(1.0, F).textOpacity == Hold(0.0, F).textOpacity == 1.0
    ensures Hold(1.0, F).textOpacity == FadeOut(0.0, F).textOpacity == 1.0
    ensures TextIn(1.0, F).textY == Hold(0.0, F).textY == FadeOut(0.0, F).textY == Some(0.0)
  {
  }

  /** The discrepancy at 0.75: the table writes 1.0815 F at 0.75 (see
      `Table`), yet for any positive F its scale on (0.75, 0.754) stays
      below 1.0813 F, a gap of at least 0.0002 F that no nearness to 0.75
      closes, so the centre tile jumps back while the comments promise a
      continuing zoom. */
  lemma ScaleDropsAfterHold(F: real, p: real)
    requires F > 0.0
    requires 0.75 < p < 0.754
    ensures Table(p, F).centerScale < 1.0813 * F
  {
    var t := (p - 0.75) / 0.25;
    var k := 1.08 * (1.0 + t * 0.07);
    assert k < 1.0813;
    assert Table(p, F) == FadeOut(t, F).(zooming := true);
    MulStrict(F, k, 1.0813);
  }

  // ---------------------------------------------------------------------
  // Corrected table: the fade phase starts from the scale the hold phase
  // ends on and still reaches 1.1556 F at p = 1.
  // ---------------------------------------------------------------------

  /** 0.75 -> 1, corrected: scale runs linearly from 1.0815 F to 1.1556 F. */
  function FadeOutFixed(t: real, F: real): (f: Frame)
    ensures t == 0.0 ==> f.centerScale == 1.0815 * F
    ensures t == 1.0 ==> f.centerScale == 1.1556 * F
    ensures f.overlayAlpha == FadeOut(t, F).overlayAlpha
    ensures f.textOpacity == FadeOut(t, F).textOpacity && f.textY == FadeOut(t, F).textY
    ensures f.textVisible == FadeOut(t, F).textVisible
  {
    FadeOut(t, F).(centerScale := F * (1.0815 + t * 0.0741))
  }

  /** The corrected table: as written except for the scale after 0.75. */
  function FixedTable(p: real, F: real): (f: Frame)
    ensures p <= 0.75 ==> f == Table(p, F)
    ensures f.overlayAlpha == Table(p, F).overlayAlpha
    ensures f.textOpacity == Table(p, F).textOpacity
    ensures p == 1.0 ==> f.centerScale == Table(p, F).centerScale
  {
    if p <= 0.75 then Table(p, F)
    else FadeOutFixed((p - 0.75) / 0.25, F).(zooming := true)
  }

  /** The correction touches the scale only: the `zooming` class and the
      text's offset and visibility flag are those of the table as written. */
  lemma FixedTableKeepsText(p: real, F: real)
    ensures FixedTable(p, F).zooming == Table(p, F).zooming
    ensures FixedTable(p, F).textY == Table(p, F).textY
    ensures FixedTable(p, F).textVisible == Table(p, F).textVisible
  {
  }

  /** With the correction the scale joins the hold phase's end value
      continuously: from 0.75 on it rises from 1.0815 F (it never falls below
      it, see `FixedScaleSmooth`) by at most 0.3 F per unit of progress. */
  lemma FixedScaleJoinsHold(F: real, p: real)
    requires F > 0.0
    requires 0.75 <= p <= 1.0
    ensures FixedTable(p, F).centerScale - 1.0815 * F <= 0.3 * F * (p - 0.75)
  {
    var d := p - 0.75;
    MulMono(F, 0.0, d);
    if p > 0.75 {
      var t := d / 0.25;
      assert FixedTable(p, F).centerScale == F * (1.0815 + t * 0.0741);
      assert F * (1.0815 + t * 0.0741) - 1.0815 * F == 0.2964 * (F * d);
    }
  }

  /** The centre scale of the corrected table in closed form: a ramp from 1
      to F, then F times a piecewise-linear factor. */
  function FixedScale(p: real, F: real): real
  {
    if p <= 0.3 then 1.0 + (F - 1.0) * (p / 0.3) else F * LaterFactor(p)
  }

  /** The corrected centre scale after 0.3, divided by F. */
  function LaterFactor(p: real): (k: real)
    ensures 0.3 <= p <= 1.0 ==> 1.0 <= k <= 1.1556
  {
    if p <= 0.55 then 1.0 + (p - 0.3) / 0.25 * 0.05
    else if p <= 0.75 then 1.05 * (1.0 + (p - 0.55) / 0.2 * 0.03)
    else 1.0815 + (p - 0.75) / 0.25 * 0.0741
  }

  /** The corrected table writes exactly the closed-form scale. */
  lemma FixedTableScale(p: real, F: real)
    ensures FixedTable(p, F).centerScale == FixedScale(p, F)
  {
    if p <= 0.3 {
    } else if p <= 0.55 {
      assert FixedTable(p, F) == TextIn((p - 0.3) / 0.25, F).(zooming := true);
    } else if p <= 0.75 {
      assert FixedTable(p, F) == Hold((p - 0.55) / 0.2, F).(zooming := true);
    } else {
      assert FixedTable(p, F) == FadeOutFixed((p - 0.75) / 0.25, F).(zooming := true);
    }
  }

  /** With the correction, the centre scale never decreases when F >= 1 and
      never moves by more than 4 F per unit of progress: no boundary jumps. */
  lemma FixedScaleSmooth(F: real, p: real, q: real)
    requires F >= 1.0
    requires 0.0 <= p <= q <= 1.0
    ensures 0.0 <= FixedTable(q, F).centerScale - FixedTable(p, F).centerScale <= 4.0 * F * (q - p)
  {
    FixedTableScale(p, F);
    FixedTableScale(q, F);
    var g := F - 1.0;
    if q <= 0.3 {
      ZoomScaleStep(g, p, q);
    } else if 0.3 < p {
      LaterScaleStep(F, p, q);
    } else {
      ZoomScaleStep(g, p, 0.3);
      LaterScaleStep(F, 0.3, q);
    }
  }

  /** Within the zoom phase the scale rises with slope (F - 1) / 0.3. */
  lemma ZoomScaleStep(g: real, p: real, q: real)
    requires g >= 0.0
    requires 0.0 <= p <= q <= 0.3
    ensures 0.0 <= FixedScale(q, g + 1.0) - FixedScale(p, g + 1.0) <= 4.0 * (g + 1.0) * (q - p)
  {
    var F := g + 1.0;
    assert FixedScale(q, F) - FixedScale(p, F) == g * (q / 0.3) - g * (p / 0.3) == g * ((q - p) / 0.3);
    MulMono(g, 0.0, (q - p) / 0.3);
    assert g * ((q - p) / 0.3) <= (g + 1.0) * ((q - p) / 0.3);
  }

  /** From 0.3 on the scale is F times a factor that rises with slope at
      most 0.3. */
  lemma LaterScaleStep(F: real, p: real, q: real)
    requires F >= 1.0
    requires 0.3 <= p <= q <= 1.0
    ensures 0.0 <= FixedScale(q, F) - FixedScale(p, F) <= 4.0 * F * (q - p)
  {
    LaterFactorRises(p, q);
    FixedScaleLater(p, F);
    FixedScaleLater(q, F);
    ScaledStep(F, LaterFactor(p), LaterFactor(q), q - p);
  }

  /** From 0.3 on, both branches of the closed form give F times the later
      factor (at 0.3 the ramp has just reached F). */
  lemma FixedScaleLater(p: real, F: real)
    requires 0.3 <= p
    ensures FixedScale(p, F) == F * LaterFactor(p)
  {
    if p == 0.3 {
      assert LaterFactor(p) == 1.0;
    }
  }

  /** A factor rising by at most 0.3 w, scaled by F >= 1, rises by at most
      4 F w. */
  lemma ScaledStep(F: real, a: real, b: real, w: real)
    requires F >= 1.0
    requires 0.0 <= b - a <= 0.3 * w
    ensures 0.0 <= F * b - F * a <= 4.0 * F * w
  {
    assert F * b - F * a == F * (b - a);
    MulMono(F, 0.0, b - a);
    MulMono(F, b - a, 4.0 * w);
    assert F * (4.0 * w) == 4.0 * F * w;
  }

  /** The later factor rises with slope at most 0.3. */
  lemma LaterFactorRises(p: real, q: real)
    requires 0.3 <= p <= q <= 1.0
    ensures 0.0 <= LaterFactor(q) - LaterFactor(p) <= 0.3 * (q - p)
  {
  }
}
