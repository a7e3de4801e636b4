/** The organisations carousel's container as the footer scrolls in: it
    shrinks to 85%, fades out and drops 30px, all linearly in the progress. */
module Shrink {
  import opened Common

  datatype Frame = Frame(scale: real, opacity: real, y: real)

  function Container(p: real): (f: Frame)
    ensures f.scale == 0.85 + 0.15 * f.opacity
    ensures f.y == 30.0 * (1.0 - f.opacity)
    ensures f.opacity + p == 1.0
    ensures InUnit(p) ==> 0.85 <= f.scale <= 1.0 && 0.0 <= f.opacity <= 1.0 && 0.0 <= f.y <= 30.0
    ensures p == 0.0 ==> f == Frame(1.0, 1.0, 0.0)
    ensures p == 1.0 ==> f == Frame(0.85, 0.0, 30.0)
  {
    var scale := 1.0 - (p * 0.15);
    var opacity := 1.0 - p;
    var y := p * 30.0;
    Frame(scale, opacity, y)
  }

  /** Further progress only ever shrinks, fades and lowers the container. */
  lemma ContainerMonotone(p: real, q: real)
    requires p <= q
    ensures Container(q).scale <= Container(p).scale
    ensures Container(q).opacity <= Container(p).opacity
    ensures Container(q).y >= Container(p).y
  {
  }
}
