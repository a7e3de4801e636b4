/** Small helpers shared by the phase tables and the particle arithmetic. */
module Common {

  /** A property a `gsap.set` call may leave alone: `None` means this frame
      does not write the property, so it keeps whatever value it had. */
  datatype Option<T> = None | Some(value: T)

  /** Two frames agree on an optional property when either of them leaves it
      alone or both write the same value. */
  predicate Agrees<T(==)>(a: Option<T>, b: Option<T>)
  {
    a.None? || b.None? || a.value == b.value
  }

  /** JavaScript's `Math.min` on two finite numbers. */
  function Min(a: real, b: real): (r: real)
    ensures r <= a && r <= b
    ensures r == a || r == b
  {
    if a <= b then a else b
  }

  /** JavaScript's `Math.max` on two finite numbers. */
  function Max(a: real, b: real): (r: real)
    ensures r >= a && r >= b
    ensures r == a || r == b
  {
    if a >= b then a else b
  }

  function Abs(a: real): (r: real)
    ensures r >= 0.0
    ensures r == a || r == -a
  {
    if a >= 0.0 then a else -a
  }

  /** Progress values a ScrollTrigger reports. */
  predicate InUnit(p: real)
  {
    0.0 <= p <= 1.0
  }

  /** Multiplying by a positive factor keeps a strict order. */
  lemma MulStrict(a: real, x: real, y: real)
    requires a > 0.0 && x < y
    ensures a * x < a * y
  {
    assert a * y - a * x == a * (y - x);
  }

  /** Multiplying by a non-negative factor keeps a weak order. */
  lemma MulMono(a: real, x: real, y: real)
    requires a >= 0.0 && x <= y
    ensures a * x <= a * y
  {
    assert a * y - a * x == a * (y - x);
  }
}
