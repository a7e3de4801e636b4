/** One frame of the globe's particle swarm. Every particle either is pushed
    away from the pointer and put back on its sphere, or eases towards a
    drifting target on that sphere. The square roots and the trigonometry of
    the frame are not modelled: their results come in as a `Measure`. */
module Swarm {
  import opened Common
  import opened Vec

  /** The tuning of one scene. `thetaRate` and `phiRate` multiply a
      particle's speed to give the rates of its two drift angles. */
  datatype Config = Config(
    repelRadius: real,
    repelStrength: real,
    returnSpeed: real,
    swarmAmount: real,
    thetaRate: real,
    phiRate: real)

  /** The globe built from the 3-D model. */
  const GlobeConfig := Config(4.0, 1.5, 0.08, 0.12, 0.3, 0.25)

  /** The procedurally generated fallback sphere. */
  const FallbackConfig := Config(2.5, 1.2, 0.08, 0.12, 0.9, 0.75)

  predicate Sane(c: Config)
  {
    c.repelRadius > 0.0 && c.repelStrength > 0.0 && 0.0 < c.returnSpeed < 1.0 && c.swarmAmount >= 0.0
  }

  lemma ConfigsSane()
    ensures Sane(GlobeConfig) && Sane(FallbackConfig)
  {
  }

  /** The pointer's x coordinate while it is off the canvas. */
  const Sentinel: real := 9999.0

  /** Particles closer than this to the centre are never moved, and a pushed
      position closer than this to the centre is not re-projected. */
  const MinRadius: real := 0.001

  /** The double nearest to pi, as JavaScript's `Math.PI`. */
  const Pi: real := 3.141592653589793

  /** How close the drifting polar angle may come to either pole. */
  const PoleMargin: real := 0.1

  // ---------------------------------------------------------------------
  // The pieces of one particle's update.
  // ---------------------------------------------------------------------

  /** The branch gate: a particle is pushed iff it is within the repel
      radius of the pointer and the pointer is on the canvas. */
  predicate Repels(c: Config, dist: real, mouseX: real)
  {
    dist < c.repelRadius && mouseX != Sentinel
  }

  /** The push: quadratic in how far inside the repel radius the particle
      is, full strength at the pointer and zero at the radius. */
  function Force(c: Config, dist: real): (f: real)
    requires c.repelRadius > 0.0
    ensures Sane(c) ==> f >= 0.0
    ensures Sane(c) && 0.0 <= dist < c.repelRadius ==> 0.0 < f <= c.repelStrength
    ensures dist == 0.0 ==> f == c.repelStrength
    ensures dist == c.repelRadius ==> f == 0.0
  {
    var u := 1.0 - dist / c.repelRadius;
    var w := u * u;
    ForceBounds(c, dist, u, w, w * c.repelStrength);
    w * c.repelStrength
  }

  /** The bounds of `Force`, over names for the share u left inside the
      radius, its square w and the force f. */
  lemma ForceBounds(c: Config, dist: real, u: real, w: real, f: real)
    requires c.repelRadius > 0.0 && u == 1.0 - dist / c.repelRadius
    requires w == u * u && f == w * c.repelStrength
    ensures Sane(c) ==> f >= 0.0
    ensures Sane(c) && 0.0 <= dist < c.repelRadius ==> 0.0 < f <= c.repelStrength
    ensures dist == 0.0 ==> f == c.repelStrength
    ensures dist == c.repelRadius ==> f == 0.0
  {
    var S := c.repelStrength;
    assert f == S * w;
    SquareNonNegative(u);
    if dist == 0.0 {
      assert u == 1.0;
      assert w == 1.0;
    }
    if dist == c.repelRadius {
      assert dist / c.repelRadius == 1.0;
      assert u == 0.0;
      assert w == 0.0;
    }
    if Sane(c) {
      calc {
        0.0;
      <=  { SquareNonNegative(u); }
        u * u;
      ==
        w;
      }
      calc {
        0.0;
      ==
        S * 0.0;
      <=  { MulMono(S, 0.0, w); }
        S * w;
      ==
        f;
      }
      if 0.0 <= dist < c.repelRadius {
        DivUnit(dist, c.repelRadius);
        assert 0.0 < u <= 1.0;
        calc {
          0.0;
        <  { UnitSquare(u); }
          u * u;
        ==
          w;
        }
        calc {
          w;
        ==
          u * u;
        <=  { UnitSquare(u); }
          1.0;
        }
        calc {
          0.0;
        ==
          S * 0.0;
        <  { MulStrict(S, 0.0, w); }
          S * w;
        ==
          f;
        }
        calc {
          f;
        ==
          S * w;
        <=  { MulMono(S, w, 1.0); }
          S * 1.0;
        ==
          S;
        }
      }
    }
  }

  /** A share of a positive whole that is less than the whole is in [0, 1). */
  lemma DivUnit(d: real, w: real)
    requires w > 0.0 && 0.0 <= d < w
    ensures 0.0 <= d / w < 1.0
  {
    var q := d / w;
    assert q * w == d;
    if q < 0.0 {
      MulStrict(w, q, 0.0);
    }
    if q >= 1.0 {
      MulMono(w, 1.0, q);
    }
  }

  /** A square of a value in (0, 1] lies in (0, 1]. */
  lemma UnitSquare(u: real)
    requires 0.0 < u <= 1.0
    ensures 0.0 < u * u <= 1.0
  {
    MulStrict(u, 0.0, u);
    MulMono(u, u, 1.0);
  }

  /** The further from the pointer, the weaker the push. */
  lemma ForceFallsWithDistance(c: Config, d1: real, d2: real)
    requires Sane(c)
    requires 0.0 <= d1 <= d2 <= c.repelRadius
    ensures Force(c, d2) <= Force(c, d1)
  {
    var R := c.repelRadius;
    var a := d1 / R;
    var b := d2 / R;
    DivMono(d1, d2, R);
    DivMono(d2, R, R);
    assert R / R == 1.0;
    assert a <= b <= 1.0;
    var u1 := 1.0 - a;
    var u2 := 1.0 - b;
    assert 0.0 <= u2 <= u1;
    var w1 := u1 * u1;
    var w2 := u2 * u2;
    MulMono(u2, u2, u1);
    MulMono(u1, u2, u1);
    assert u2 * u1 == u1 * u2;
    assert w2 <= w1;
    MulMono(c.repelStrength, w2, w1);
    assert Force(c, d1) == w1 * c.repelStrength;
    assert Force(c, d2) == w2 * c.repelStrength;
  }

  /** Dividing by a positive number keeps the order. */
  lemma DivMono(x: real, y: real, w: real)
    requires w > 0.0 && x <= y
    ensures x / w <= y / w
  {
    var a := x / w;
    var b := y / w;
    assert a * w == x && b * w == y;
    if a > b {
      MulStrict(w, b, a);
    }
  }

  /** `dist || 0.001`: the divisor used to normalise the separation. */
  function SafeLen(dist: real): (len: real)
    ensures len != 0.0
    ensures dist != 0.0 ==> len == dist
    ensures dist >= 0.0 ==> len > 0.0
  {
    if dist == 0.0 then 0.001 else dist
  }

  /** The pushed position: the particle moves by `force` along the
      direction from the pointer to the particle. */
  function Push(c: Config, pos: Vec3, pointer: Vec3, dist: real): (q: Vec3)
    requires c.repelRadius > 0.0
    ensures q == Add(pos, Times(Sub(pos, pointer), Force(c, dist) / SafeLen(dist)))
    ensures Sub(q, pointer) == Times(Sub(pos, pointer), 1.0 + Force(c, dist) / SafeLen(dist))
  {
    var d := Sub(pos, pointer);
    var force := Force(c, dist);
    var len := SafeLen(dist);
    AlongSeparation(pos, pointer, force / len);
    ScaledStep(pos, d, force, len);
    Vec3(pos.x + (d.x / len) * force, pos.y + (d.y / len) * force, pos.z + (d.z / len) * force)
  }

  /** Adding k times the pointer-to-particle vector scales that vector by
      1 + k. */
  lemma AlongSeparation(pos: Vec3, pointer: Vec3, k: real)
    ensures Sub(Add(pos, Times(Sub(pos, pointer), k)), pointer) == Times(Sub(pos, pointer), 1.0 + k)
  {
    var d := Sub(pos, pointer);
    assert d.x * (1.0 + k) == d.x + d.x * k;
    assert d.y * (1.0 + k) == d.y + d.y * k;
    assert d.z * (1.0 + k) == d.z + d.z * k;
  }

  /** Stepping each coordinate of pos by that coordinate of d over len,
      times f, is adding d scaled by f / len. */
  lemma ScaledStep(pos: Vec3, d: Vec3, f: real, len: real)
    requires len != 0.0
    ensures Vec3(pos.x + (d.x / len) * f, pos.y + (d.y / len) * f, pos.z + (d.z / len) * f)
      == Add(pos, Times(d, f / len))
  {
    assert (d.x / len) * f == d.x * (f / len);
    assert (d.y / len) * f == d.y * (f / len);
    assert (d.z / len) * f == d.z * (f / len);
    assert Add(pos, Times(d, f / len)) == Vec3(pos.x + d.x * (f / len), pos.y + d.y * (f / len), pos.z + d.z * (f / len));
  }

  /** Scales v, whose length is newRadius, to length radius: the result
      points the same way as v and lies on the sphere of that radius. */
  function Reproject(v: Vec3, newRadius: real, radius: real): (q: Vec3)
    requires newRadius != 0.0
    ensures q == Times(v, radius / newRadius)
    ensures newRadius * newRadius == Norm2(v) ==> Norm2(q) == radius * radius
  {
    Rescaled(v, newRadius, radius);
    Vec3((v.x / newRadius) * radius, (v.y / newRadius) * radius, (v.z / newRadius) * radius)
  }

  lemma Rescaled(v: Vec3, n: real, r: real)
    requires n != 0.0
    ensures Vec3((v.x / n) * r, (v.y / n) * r, (v.z / n) * r) == Times(v, r / n)
    ensures n * n == Norm2(v) ==> Norm2(Times(v, r / n)) == r * r
  {
    assert (v.x / n) * r == v.x * (r / n);
    assert (v.y / n) * r == v.y * (r / n);
    assert (v.z / n) * r == v.z * (r / n);
    if n * n == Norm2(v) {
      var N := Norm2(v);
      NormTimes(v, r / n);
      RescaledLength(r, n, N);
    }
  }

  /** One exponential-ease step of a coordinate towards its target. */
  function Ease(a: real, target: real, rate: real): (b: real)
    ensures target - b == (1.0 - rate) * (target - a)
    ensures 0.0 <= rate <= 1.0 ==> Min(a, target) <= b <= Max(a, target)
  {
    EaseBetween(a, target, rate);
    a + (target - a) * rate
  }

  lemma EaseBetween(a: real, target: real, rate: real)
    ensures 0.0 <= rate <= 1.0 ==> Min(a, target) <= a + (target - a) * rate <= Max(a, target)
  {
    if 0.0 <= rate <= 1.0 {
      var d := target - a;
      var m := PartOf(d, rate);
      assert a + (target - a) * rate == a + m;
      if a <= target {
        assert Min(a, target) == a && Max(a, target) == target;
        assert 0.0 <= m <= d;
      } else {
        assert Min(a, target) == target && Max(a, target) == a;
        assert d <= m <= 0.0;
      }
    }
  }

  /** A share r in [0, 1] of d lies between 0 and d. */
  lemma PartOf(d: real, r: real) returns (m: real)
    requires 0.0 <= r <= 1.0
    ensures m == d * r
    ensures d >= 0.0 ==> 0.0 <= m <= d
    ensures d <= 0.0 ==> d <= m <= 0.0
  {
    m := d * r;
    if d >= 0.0 {
      calc {
        0.0;
      ==
        d * 0.0;
      <=  { MulMono(d, 0.0, r); }
        d * r;
      ==
        m;
      }
      calc {
        m;
      ==
        d * r;
      <=  { MulMono(d, r, 1.0); }
        d * 1.0;
      ==
        d;
      }
    } else {
      var e := -d;
      calc {
        d;
      ==
        -(e * 1.0);
      <=  { MulMono(e, r, 1.0); }
        -(e * r);
      ==
        m;
      }
      calc {
        m;
      ==
        -(e * r);
      <=  { MulMono(e, 0.0, r); }
        -(e * 0.0);
      ==
        0.0;
      }
    }
  }

  function EaseVec(v: Vec3, target: Vec3, rate: real): (w: Vec3)
    ensures Sub(target, w) == Times(Sub(target, v), 1.0 - rate)
  {
    Vec3(Ease(v.x, target.x, rate), Ease(v.y, target.y, rate), Ease(v.z, target.z, rate))
  }

  /** The drifting polar angle, kept `PoleMargin` away from both poles. */
  function ClampPolar(phi: real): (r: real)
    ensures PoleMargin <= r <= Pi - PoleMargin
    ensures PoleMargin <= phi <= Pi - PoleMargin ==> r == phi
    ensures phi < PoleMargin ==> r == PoleMargin
    ensures phi > Pi - PoleMargin ==> r == Pi - PoleMargin
  {
    Max(PoleMargin, Min(Pi - PoleMargin, phi))
  }

  /** The two drift angles, given the sine and cosine the frame computed. */
  function Drift(c: Config, sinArg: real, cosArg: real): (offsets: (real, real))
    requires c.swarmAmount >= 0.0
    ensures -1.0 <= sinArg <= 1.0 ==> Abs(offsets.0) <= c.swarmAmount
    ensures -1.0 <= cosArg <= 1.0 ==> Abs(offsets.1) <= c.swarmAmount * 0.5
  {
    UnitTimes(sinArg, c.swarmAmount);
    UnitTimes(cosArg, c.swarmAmount);
    assert cosArg * c.swarmAmount * 0.5 == (cosArg * c.swarmAmount) * 0.5;
    (sinArg * c.swarmAmount, cosArg * c.swarmAmount * 0.5)
  }

  /** The arguments of the sine and cosine that drive a particle's two
      drift angles: each runs with the swarm clock at the particle's speed
      times the scene's rate, from the particle's own phase offset. */
  function DriftArguments(c: Config, time: real, speed: real, offsetTheta: real, offsetPhi: real): (args: (real, real))
    ensures time == 0.0 ==> args == (offsetTheta, offsetPhi)
    ensures c == GlobeConfig ==> args.0 == time * (speed * 0.3) + offsetTheta
    ensures c == GlobeConfig ==> args.1 == time * (speed * 0.25) + offsetPhi
    ensures c == FallbackConfig ==> args.0 == time * (speed * 0.9) + offsetTheta
    ensures c == FallbackConfig ==> args.1 == time * (speed * 0.75) + offsetPhi
  {
    assert time == 0.0 ==> time * (speed * c.thetaRate) == 0.0 && time * (speed * c.phiRate) == 0.0;
    (time * (speed * c.thetaRate) + offsetTheta, time * (speed * c.phiRate) + offsetPhi)
  }

  /** The drift arguments start at the particle's offsets and advance
      linearly with the clock, the theta argument at speed * thetaRate and
      the phi argument at speed * phiRate. */
  lemma DriftArgumentsAdvance(c: Config, t1: real, t2: real, speed: real, offsetTheta: real, offsetPhi: real)
    ensures DriftArguments(c, 0.0, speed, offsetTheta, offsetPhi) == (offsetTheta, offsetPhi)
    ensures DriftArguments(c, t2, speed, offsetTheta, offsetPhi).0 - DriftArguments(c, t1, speed, offsetTheta, offsetPhi).0
      == (t2 - t1) * (speed * c.thetaRate)
    ensures DriftArguments(c, t2, speed, offsetTheta, offsetPhi).1 - DriftArguments(c, t1, speed, offsetTheta, offsetPhi).1
      == (t2 - t1) * (speed * c.phiRate)
  {
    var a := speed * c.thetaRate;
    var b := speed * c.phiRate;
    assert t2 * a - t1 * a == (t2 - t1) * a;
    assert t2 * b - t1 * b == (t2 - t1) * b;
  }

  /** A value in [-1, 1] times k >= 0 is at most k in size. */
  lemma UnitTimes(s: real, k: real)
    requires k >= 0.0
    ensures -1.0 <= s <= 1.0 ==> Abs(s * k) <= k
  {
    if -1.0 <= s <= 1.0 {
      MulMono(k, -1.0, s);
      MulMono(k, s, 1.0);
      assert s * k == k * s;
    }
  }

  /** The drift target: the point at polar angle newPhi and azimuth
      newTheta on the sphere of the given radius, from their sines and
      cosines. */
  function Target(radius: real, sinPhi: real, cosPhi: real, sinTheta: real, cosTheta: real): Vec3
  {
    Vec3(radius * sinPhi * cosTheta, radius * cosPhi, radius * sinPhi * sinTheta)
  }

  /** Whenever the sines and cosines are those of real angles, the target is
      on the particle's own sphere. */
  lemma TargetOnSphere(radius: real, sinPhi: real, cosPhi: real, sinTheta: real, cosTheta: real)
    requires sinPhi * sinPhi + cosPhi * cosPhi == 1.0
    requires sinTheta * sinTheta + cosTheta * cosTheta == 1.0
    ensures Norm2(Target(radius, sinPhi, cosPhi, sinTheta, cosTheta)) == radius * radius
  {
    var t := Target(radius, sinPhi, cosPhi, sinTheta, cosTheta);
    var a := radius * sinPhi;
    assert t.x * t.x + t.z * t.z == (a * a) * (sinTheta * sinTheta + cosTheta * cosTheta);
    assert t.x * t.x + t.z * t.z == a * a;
    assert a * a + t.y * t.y == (radius * radius) * (sinPhi * sinPhi + cosPhi * cosPhi);
  }

  // ---------------------------------------------------------------------
  // One particle, one frame.
  // ---------------------------------------------------------------------

  /** `origin` is fixed for the particle's lifetime; `pos` moves. */
  datatype Particle = Particle(origin: Vec3, pos: Vec3)

  /** What the frame's square roots and trigonometry produce for one
      particle: `radius` = |origin|, `dist` = |pos - pointer|,
      `pushedRadius` = |pushed position| (only read when the particle is
      pushed), and `target`, the drifting point on the particle's sphere. */
  datatype Measure = Measure(radius: real, dist: real, pushedRadius: real, target: Vec3)

  /** `r` is the length of v: the square root the code computes. */
  predicate IsLength(r: real, v: Vec3)
  {
    r >= 0.0 && r * r == Norm2(v)
  }

  /** The measures are the true lengths for this particle and pointer. */
  predicate Measured(c: Config, pointer: Vec3, p: Particle, m: Measure)
    requires c.repelRadius > 0.0
  {
    && IsLength(m.radius, p.origin)
    && IsLength(m.dist, Sub(p.pos, pointer))
    && IsLength(m.pushedRadius, Push(c, p.pos, pointer, m.dist))
  }

  /** The new position of one particle. `mouseX` is the pointer's x in
      device coordinates (the sentinel while off the canvas); `pointer` is
      the pointer's point in the particles' space. */
  function Step(c: Config, mouseX: real, pointer: Vec3, p: Particle, m: Measure): (pos: Vec3)
    requires c.repelRadius > 0.0
    ensures m.radius < MinRadius ==> pos == p.pos
    ensures m.radius >= MinRadius && Repels(c, m.dist, mouseX) ==>
      pos == (if m.pushedRadius > MinRadius
              then Times(Push(c, p.pos, pointer, m.dist), m.radius / m.pushedRadius)
              else p.pos)
    ensures m.radius >= MinRadius && !Repels(c, m.dist, mouseX) ==>
      Sub(m.target, pos) == Times(Sub(m.target, p.pos), 1.0 - c.returnSpeed)
  {
    if m.radius < MinRadius then p.pos
    else if Repels(c, m.dist, mouseX) then
      var pushed := Push(c, p.pos, pointer, m.dist);
      if m.pushedRadius > MinRadius then Reproject(pushed, m.pushedRadius, m.radius) else p.pos
    else EaseVec(p.pos, m.target, c.returnSpeed)
  }

  /** A pushed particle is put back exactly on its own sphere. */
  lemma PushedStaysOnSphere(c: Config, mouseX: real, pointer: Vec3, p: Particle, m: Measure)
    requires c.repelRadius > 0.0
    requires Measured(c, pointer, p, m)
    requires m.radius >= MinRadius && Repels(c, m.dist, mouseX) && m.pushedRadius > MinRadius
    ensures Norm2(Step(c, mouseX, pointer, p, m)) == Norm2(p.origin)
  {
    var pushed := Push(c, p.pos, pointer, m.dist);
    var q := Reproject(pushed, m.pushedRadius, m.radius);
    assert Step(c, mouseX, pointer, p, m) == q;
    assert m.pushedRadius * m.pushedRadius == Norm2(pushed);
    assert Norm2(q) == m.radius * m.radius;
  }

  /** (r / n)^2 * N == r^2 when N == n^2 and n != 0. */
  lemma RescaledLength(r: real, n: real, N: real)
    requires n != 0.0 && N == n * n
    ensures (r / n) * (r / n) * N == r * r
  {
    var k := r / n;
    assert k * n == r;
    assert k * k * (n * n) == (k * n) * (k * n);
  }

  /** The push never brings a particle closer to the pointer, and moves it
      strictly further away unless it sits exactly on the pointer. */
  lemma PushMovesAway(c: Config, pos: Vec3, pointer: Vec3, dist: real)
    requires Sane(c)
    requires IsLength(dist, Sub(pos, pointer)) && dist < c.repelRadius
    ensures Norm2(Sub(Push(c, pos, pointer, dist), pointer)) >= Norm2(Sub(pos, pointer))
    ensures dist > 0.0 ==> Norm2(Sub(Push(c, pos, pointer, dist), pointer)) > Norm2(Sub(pos, pointer))
  {
    var d := Sub(pos, pointer);
    var k := PushIsRadial(c, pos, pointer, dist);
    var n := Norm2(d);
    var n' := Norm2(Times(d, 1.0 + k));
    NormTimes(d, 1.0 + k);
    Grow(1.0 + k, n, n');
    if dist > 0.0 {
      assert k > 0.0;
      assert n == dist * dist;
      assert n' == (1.0 + k) * (1.0 + k) * n;
      FarFromPointer(k, dist, n, n');
    }
  }

  /** Off the pointer (dist > 0, so its square n is positive), scaling the
      separation by 1 + k with k > 0 strictly lengthens it. */
  lemma FarFromPointer(k: real, dist: real, n: real, n': real)
    requires k > 0.0 && dist > 0.0 && n == dist * dist && n' == (1.0 + k) * (1.0 + k) * n
    ensures n' > n
  {
    var s := 1.0 + k;
    calc {
      n;
    ==
      dist * dist;
    >  { SquarePositive(dist); }
      0.0;
    }
    assert n' == s * s * n;
    GrowStrict(s, n, n');
  }

  /** Seen from the pointer, the push only lengthens the separation: it
      scales it by 1 + k with k >= 0, and k > 0 off the pointer. */
  lemma PushIsRadial(c: Config, pos: Vec3, pointer: Vec3, dist: real) returns (k: real)
    requires Sane(c) && 0.0 <= dist < c.repelRadius
    ensures Sub(Push(c, pos, pointer, dist), pointer) == Times(Sub(pos, pointer), 1.0 + k)
    ensures k >= 0.0
    ensures dist > 0.0 ==> k > 0.0
  {
    var f := Force(c, dist);
    var len := SafeLen(dist);
    k := f / len;
    DivSign(f, len);
  }

  lemma DivSign(f: real, len: real)
    requires f >= 0.0 && len > 0.0
    ensures f / len >= 0.0
    ensures f > 0.0 ==> f / len > 0.0
  {
    var q := f / len;
    assert q * len == f;
    if q < 0.0 {
      MulStrict(len, q, 0.0);
    }
  }

  lemma Grow(s: real, N: real, M: real)
    requires s >= 1.0 && N >= 0.0 && M == s * s * N
    ensures M >= N
  {
    MulMono(s, 1.0, s);
    MulMono(N, 1.0, s * s);
  }

  lemma GrowStrict(s: real, N: real, M: real)
    requires s > 1.0 && N > 0.0 && M == s * s * N
    ensures M > N
  {
    MulStrict(s, 1.0, s);
    MulStrict(N, 1.0, s * s);
  }

  lemma Shrink(s: real, N: real, M: real)
    requires 0.0 < s < 1.0 && N > 0.0 && M == s * s * N
    ensures M < N
  {
    MulStrict(s, s, 1.0);
    MulStrict(N, s * s, 1.0);
    assert s * s * N == N * (s * s);
  }

  /** A particle sitting exactly on the pointer is not moved by the push:
      the `0.001` divisor only avoids a division by zero. */
  lemma PushAtPointerIsStill(c: Config, pos: Vec3)
    requires c.repelRadius > 0.0
    ensures Push(c, pos, pos, 0.0) == pos
  {
  }

  /** With the pointer at the centre of the globe, a particle resting at
      its origin is pushed straight outwards along the ray from the centre,
      and the re-projection puts it back exactly where it was. */
  lemma CentredPushIsUndone(c: Config, mouseX: real, p: Particle, m: Measure)
    requires Sane(c) && mouseX != Sentinel
    requires p.pos == p.origin
    requires Measured(c, Vec3(0.0, 0.0, 0.0), p, m)
    requires MinRadius <= m.radius < c.repelRadius
    ensures Step(c, mouseX, Vec3(0.0, 0.0, 0.0), p, m) == p.pos
  {
    var r := m.radius;
    var k := CentredPushIsRadial(c, p, m);
    var s := m.pushedRadius;
    MulStrict(r, 1.0, 1.0 + k);
    assert m.pushedRadius > MinRadius;
    assert Repels(c, m.dist, mouseX);
    var pushed := Push(c, p.pos, Vec3(0.0, 0.0, 0.0), m.dist);
    assert Step(c, mouseX, Vec3(0.0, 0.0, 0.0), p, m) == Times(pushed, r / s);
    TimesTimes(p.pos, 1.0 + k, r / s);
    Cancel(1.0 + k, r, s);
    assert Times(pushed, r / s) == Times(p.pos, (1.0 + k) * (r / s));
    assert (1.0 + k) * (r / s) == 1.0;
    assert Times(pushed, r / s) == Times(p.pos, 1.0);
    assert Times(p.pos, 1.0) == p.pos;
  }

  /** With the pointer at the centre, the pushed position lies on the ray
      through the particle, (1 + k) times as far out. */
  lemma CentredPushIsRadial(c: Config, p: Particle, m: Measure) returns (k: real)
    requires Sane(c) && p.pos == p.origin
    requires Measured(c, Vec3(0.0, 0.0, 0.0), p, m)
    requires MinRadius <= m.radius < c.repelRadius
    ensures k > 0.0
    ensures m.dist == m.radius
    ensures Push(c, p.pos, Vec3(0.0, 0.0, 0.0), m.dist) == Times(p.pos, 1.0 + k)
    ensures m.pushedRadius == (1.0 + k) * m.radius
  {
    var o := Vec3(0.0, 0.0, 0.0);
    assert Sub(p.pos, o) == p.pos;
    SameLength(m.dist, m.radius);
    k := PushIsRadial(c, p.pos, o, m.dist);
    NormTimes(p.pos, 1.0 + k);
    ScaledRoot(1.0 + k, m.radius, Norm2(p.pos), Norm2(Times(p.pos, 1.0 + k)), m.pushedRadius);
  }

  /** If R is the length of a vector a times longer than one of length r,
      then R == a * r. */
  lemma ScaledRoot(a: real, r: real, n: real, N: real, R: real)
    requires a >= 0.0 && r >= 0.0 && R >= 0.0
    requires n == r * r && N == a * a * n && R * R == N
    ensures R == a * r
  {
    var s := a * r;
    MulMono(a, 0.0, r);
    ProductSquare(a, r, s, n);
    SameLength(R, s);
  }

  /** Two lengths with the same square are the same length. */
  lemma SameLength(a: real, b: real)
    requires a >= 0.0 && b >= 0.0 && a * a == b * b
    ensures a == b
  {
    if a < b {
      SquareStrict(a, b);
    } else if b < a {
      SquareStrict(b, a);
    }
  }

  lemma SquareStrict(a: real, b: real)
    requires 0.0 <= a < b
    ensures a * a < b * b
  {
    MulStrict(b - a, 0.0, b + a);
    assert (b - a) * (b + a) == b * b - a * a;
  }

  lemma ProductSquare(a: real, b: real, s: real, n: real)
    requires s == a * b && n == b * b
    ensures s * s == a * a * n
  {
    assert (a * b) * (a * b) == a * (b * (a * b));
    assert b * (a * b) == a * (b * b);
  }

  lemma Cancel(a: real, r: real, s: real)
    requires a > 0.0 && r > 0.0 && s == a * r
    ensures a * (r / s) == 1.0
  {
    MulStrict(a, 0.0, r);
    assert s > 0.0;
    var q := r / s;
    assert q * s == r;
    assert (a * q) * r == q * s;
    var aq := a * q;
    if aq < 1.0 {
      MulStrict(r, aq, 1.0);
    } else if aq > 1.0 {
      MulStrict(r, 1.0, aq);
    }
  }

  // ---------------------------------------------------------------------
  // Idle easing over several frames.
  // ---------------------------------------------------------------------

  function Pow(b: real, k: nat): real
  {
    if k == 0 then 1.0 else b * Pow(b, k - 1)
  }

  /** k idle frames towards a fixed target. */
  function EaseTimes(v: Vec3, target: Vec3, rate: real, k: nat): Vec3
  {
    if k == 0 then v else EaseVec(EaseTimes(v, target, rate, k - 1), target, rate)
  }

  /** After k idle frames the gap to the target is (1 - rate)^k times the
      first gap, coordinate by coordinate: same direction, geometrically
      smaller. */
  lemma {:induction false} EaseTimesGap(v: Vec3, target: Vec3, rate: real, k: nat)
    ensures Sub(target, EaseTimes(v, target, rate, k)) == Times(Sub(target, v), Pow(1.0 - rate, k))
  {
    if k > 0 {
      EaseTimesGap(v, target, rate, k - 1);
      var g := Sub(target, v);
      var b := 1.0 - rate;
      var q := Pow(b, k - 1);
      var w := EaseTimes(v, target, rate, k - 1);
      assert Sub(target, w) == Times(g, q);
      assert EaseTimes(v, target, rate, k) == EaseVec(w, target, rate);
      TimesTimes(g, q, b);
      assert Pow(b, k) == q * b;
    }
  }

  /** With the scenes' return speed the gap shrinks to 92% each frame. */
  lemma IdleGapShrinks(c: Config, v: Vec3, target: Vec3)
    requires c == GlobeConfig || c == FallbackConfig
    ensures Sub(target, EaseVec(v, target, c.returnSpeed)) == Times(Sub(target, v), 0.92)
  {
  }

  /** An idle frame strictly shrinks a nonzero gap to the target. */
  lemma IdleStepCloser(v: Vec3, target: Vec3, rate: real)
    requires 0.0 < rate < 1.0
    requires Norm2(Sub(target, v)) > 0.0
    ensures Norm2(Sub(target, EaseVec(v, target, rate))) < Norm2(Sub(target, v))
  {
    var b := 1.0 - rate;
    var g := Sub(target, v);
    assert Sub(target, EaseVec(v, target, rate)) == Times(g, b);
    var n := Norm2(g);
    var n' := Norm2(Times(g, b));
    NormTimes(g, b);
    Shrink(b, n, n');
    assert n' < n;
  }

  /** The idle step moves along the chord to its target, not along the
      arc: with the scenes' return speed, a particle at (1, 0, 0) easing
      towards (0, 1, 0) lands at (0.92, 0.08, 0) (see `Step`'s idle branch,
      which is exactly this ease). */
  lemma IdleStepOnChord()
    ensures EaseVec(Vec3(1.0, 0.0, 0.0), Vec3(0.0, 1.0, 0.0), GlobeConfig.returnSpeed) == Vec3(0.92, 0.08, 0.0)
    ensures FallbackConfig.returnSpeed == GlobeConfig.returnSpeed
  {
  }

  /** Both end points of that step lie on the unit sphere, while the point
      the step lands on lies strictly inside it: the idle step does not keep
      a particle on its sphere. */
  lemma ChordPointInsideSphere()
    ensures Norm2(Vec3(1.0, 0.0, 0.0)) == Norm2(Vec3(0.0, 1.0, 0.0)) == 1.0
    ensures Norm2(Vec3(0.92, 0.08, 0.0)) == 0.8528
  {
  }

  // ---------------------------------------------------------------------
  // A whole frame.
  // ---------------------------------------------------------------------

  /** One frame over the whole field: each particle's new position depends
      only on itself, and no particle's origin ever changes. */
  method StepField(c: Config, mouseX: real, pointer: Vec3, field: seq<Particle>, measures: seq<Measure>)
    returns (next: seq<Particle>)
    requires c.repelRadius > 0.0
    requires |measures| == |field|
    ensures |next| == |field|
    ensures forall i :: 0 <= i < |field| ==> next[i].origin == field[i].origin
    ensures forall i :: 0 <= i < |field| ==>
      next[i].pos == Step(c, mouseX, pointer, field[i], measures[i])
    ensures forall i :: 0 <= i < |field| && measures[i].radius < MinRadius ==> next[i] == field[i]
  {
    next := [];
    var i := 0;
    while i < |field|
      invariant 0 <= i <= |field|
      invariant |next| == i
      invariant forall j :: 0 <= j < i ==> next[j].origin == field[j].origin
      invariant forall j :: 0 <= j < i ==>
        next[j].pos == Step(c, mouseX, pointer, field[j], measures[j])
    {
      var pos := Step(c, mouseX, pointer, field[i], measures[i]);
      next := next + [field[i].(pos := pos)];
      i := i + 1;
    }
  }
}
