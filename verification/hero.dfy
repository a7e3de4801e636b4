/** The hero parallax: while the stats section slides up over the hero, the
    hero moves up at a third of the scroll speed and its headline slides up
    and fades out twice as fast as the progress. */
module Hero {
  import opened Common

  /** `heroY` is the hero's `y` in px; `textYPercent` the headline's
      `yPercent`; `containerOpacity` the headline container's opacity. */
  datatype Frame = Frame(heroY: real, textYPercent: real, containerOpacity: real)

  /** The headline's own progress: twice the scroll progress, capped at 1. */
  function TextProgress(p: real): (t: real)
    ensures t <= 1.0 && t <= 2.0 * p
    ensures p >= 0.0 ==> 0.0 <= t
    ensures t == 1.0 <==> p >= 0.5
    ensures p <= 0.5 ==> t == 2.0 * p
  {
    Min(p * 2.0, 1.0)
  }

  /** The frame for progress p and a viewport innerHeight px tall. */
  function Parallax(p: real, innerHeight: real): (f: Frame)
    ensures f.containerOpacity == 1.0 - TextProgress(p)
    ensures f.textYPercent == -100.0 * (1.0 - f.containerOpacity)
    ensures InUnit(p) ==> 0.0 <= f.containerOpacity <= 1.0 && -100.0 <= f.textYPercent <= 0.0
    ensures p >= 0.5 ==> f.containerOpacity == 0.0 && f.textYPercent == -100.0
    ensures p == 0.0 ==> f == Frame(0.0, 0.0, 1.0)
    ensures p == 1.0 ==> f.heroY == -0.33 * innerHeight
  {
    var heroY := p * innerHeight * 0.33;
    var textProgress := TextProgress(p);
    Frame(-heroY, -100.0 * textProgress, 1.0 - textProgress)
  }

  /** Scrolling further down never moves the hero back down and never brings
      the headline back; the hero stays between its rest position and a
      third of a viewport up, and moves at a constant 0.33 viewport heights
      per unit of progress: a third of the scroll speed. */
  lemma ParallaxMonotone(p: real, q: real, innerHeight: real)
    requires 0.0 <= p <= q <= 1.0 && innerHeight >= 0.0
    ensures Parallax(p, innerHeight).heroY - Parallax(q, innerHeight).heroY == 0.33 * innerHeight * (q - p)
    ensures Parallax(q, innerHeight).heroY <= Parallax(p, innerHeight).heroY <= 0.0
    ensures -(innerHeight * 0.33) <= Parallax(q, innerHeight).heroY
    ensures Parallax(q, innerHeight).containerOpacity <= Parallax(p, innerHeight).containerOpacity
  {
    var k := innerHeight * 0.33;
    assert Parallax(p, innerHeight).heroY == -(p * k);
    assert Parallax(q, innerHeight).heroY == -(q * k);
    ShareOfDistance(k, p, q);
    assert q * k - p * k == k * (q - p);
  }

  /** Fractions p <= q of a distance k >= 0 are ordered and within [0, k]. */
  lemma ShareOfDistance(k: real, p: real, q: real)
    requires k >= 0.0 && 0.0 <= p <= q <= 1.0
    ensures -k <= -(q * k) <= -(p * k) <= 0.0
  {
    MulMono(k, p, q);
    MulMono(k, 0.0, p);
    MulMono(k, q, 1.0);
  }
}
