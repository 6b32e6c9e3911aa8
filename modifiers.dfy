/** The modifiers that rewrite one array of a pool in place every tick:
    `ConstantForce` on the velocities, `ColorByLifetime` on the colours and
    `SizeOverLifetime` on the sizes. */
module Modifiers {
  import opened Vectors
  import opened Particles
  import Curve

  /** `ConstantForce`: an acceleration in units per second squared. */
  datatype ConstantForce = ConstantForce(accelerationPerSecond: Vec3)

  /** `ColorByLifetime`: the colour curve is bevy's `CurveFixed<Vec4>`, of
      which only `sample` is used; it is given as that sampling function. */
  datatype ColorByLifetime = ColorByLifetime(sample: F32 -> Vec4)

  /** The `Range<f32>` a size curve yields. */
  datatype SizeRange = SizeRange(start: real, end: real)

  /** `SizeOverLifetime`: a curve of size ranges, given as its sampling function. */
  datatype SizeOverLifetime = SizeOverLifetime(sample: F32 -> SizeRange)

  /** The velocity change of one tick: the acceleration extended with a
      zero fourth component, times `dt`. */
  function DeltaVelocity(f: ConstantForce, dt: real): (d: Vec4)
    ensures d.w == 0.0
  {
    Scale(Extend(f.accelerationPerSecond, 0.0), dt)
  }

  /** Every vector moved by the same `d`. */
  function AddToAll(vs: seq<Vec4>, d: Vec4): (out: seq<Vec4>)
    ensures |out| == |vs|
  {
    seq(|vs|, i requires 0 <= i < |vs| => Add(vs[i], d))
  }

  /** `ConstantForce::apply`: adds one delta to every velocity; no other
      array changes. */
  method ApplyConstantForce(f: ConstantForce, particles: Particles, dt: real)
    modifies particles
    ensures particles.velocities == AddToAll(old(particles.velocities), DeltaVelocity(f, dt))
    ensures particles.positions == old(particles.positions) && particles.sizes == old(particles.sizes)
    ensures particles.colors == old(particles.colors) && particles.lifetimes == old(particles.lifetimes)
    ensures particles.startLifetimes == old(particles.startLifetimes)
  {
    var delta := DeltaVelocity(f, dt);
    ghost var target := AddToAll(particles.velocities, delta);
    for i := 0 to |particles.velocities|
      invariant |particles.velocities| == |target|
      invariant particles.velocities[..i] == target[..i]
      invariant particles.velocities[i..] == old(particles.velocities)[i..]
      invariant particles.positions == old(particles.positions) && particles.sizes == old(particles.sizes)
      invariant particles.colors == old(particles.colors) && particles.lifetimes == old(particles.lifetimes)
      invariant particles.startLifetimes == old(particles.startLifetimes)
    {
      particles.velocities := particles.velocities[i := Add(particles.velocities[i], delta)];
      assert particles.velocities[..i + 1] == particles.velocities[..i] + [target[i]];
    }
  }

  /** The delta has a zero `w`, so the angular velocity in `w` is not
      touched, and the linear part moves by the acceleration times `dt`. */
  lemma ConstantForceKeepsSpin(f: ConstantForce, vs: seq<Vec4>, dt: real)
    ensures forall i :: 0 <= i < |vs| ==> AddToAll(vs, DeltaVelocity(f, dt))[i].w == vs[i].w
    ensures forall i :: 0 <= i < |vs| ==>
      AddToAll(vs, DeltaVelocity(f, dt))[i].x == vs[i].x + f.accelerationPerSecond.x * dt &&
      AddToAll(vs, DeltaVelocity(f, dt))[i].y == vs[i].y + f.accelerationPerSecond.y * dt &&
      AddToAll(vs, DeltaVelocity(f, dt))[i].z == vs[i].z + f.accelerationPerSecond.z * dt
  {
  }

  /** Two ticks of `dt1` and `dt2` give the velocities of one tick of
      `dt1 + dt2`. */
  lemma ConstantForceComposes(f: ConstantForce, vs: seq<Vec4>, dt1: real, dt2: real)
    ensures AddToAll(AddToAll(vs, DeltaVelocity(f, dt1)), DeltaVelocity(f, dt2))
         == AddToAll(vs, DeltaVelocity(f, dt1 + dt2))
  {
    var a := f.accelerationPerSecond;
    assert a.x * dt1 + a.x * dt2 == a.x * (dt1 + dt2);
    assert a.y * dt1 + a.y * dt2 == a.y * (dt1 + dt2);
    assert a.z * dt1 + a.z * dt2 == a.z * (dt1 + dt2);
  }

  /** Gravity along `-y` over a positive tick lowers every vertical velocity
      and leaves the other components alone. */
  lemma GravityPullsDown(vs: seq<Vec4>, dt: real)
    requires dt > 0.0
    ensures var out := AddToAll(vs, DeltaVelocity(ConstantForce(Vec3(0.0, -9.8, 0.0)), dt));
      forall i :: 0 <= i < |vs| ==>
        out[i].y < vs[i].y && out[i].x == vs[i].x && out[i].z == vs[i].z && out[i].w == vs[i].w
  {
    ConstantForceKeepsSpin(ConstantForce(Vec3(0.0, -9.8, 0.0)), vs, dt);
  }

  /** The colours after `ColorByLifetime`: slot `i` with a ratio takes the
      curve's sample at that ratio, and the slots past the ratios keep theirs. */
  function Recolored(cs: seq<Vec4>, ratios: seq<F32>, sample: F32 -> Vec4): (out: seq<Vec4>)
    requires |ratios| <= |cs|
    ensures |out| == |cs|
  {
    seq(|cs|, i requires 0 <= i < |cs| => if i < |ratios| then sample(ratios[i]) else cs[i])
  }

  /** `ColorByLifetime::apply`: for every particle, writes the curve's
      sample at its lifetime ratio into its colour slot. Surplus colours
      past `len()` and every other array are left alone. */
  method ApplyColorByLifetime(m: ColorByLifetime, particles: Particles)
    requires particles.Valid()
    modifies particles
    ensures particles.colors == Recolored(old(particles.colors), Ratios(old(particles.startLifetimes)), m.sample)
    ensures particles.positions == old(particles.positions) && particles.sizes == old(particles.sizes)
    ensures particles.velocities == old(particles.velocities) && particles.lifetimes == old(particles.lifetimes)
    ensures particles.startLifetimes == old(particles.startLifetimes)
  {
    ghost var target := Recolored(particles.colors, Ratios(particles.startLifetimes), m.sample);
    for idx := 0 to particles.Len()
      invariant |particles.colors| == |target|
      invariant particles.colors[..idx] == target[..idx]
      invariant particles.colors[idx..] == old(particles.colors)[idx..]
      invariant particles.positions == old(particles.positions) && particles.sizes == old(particles.sizes)
      invariant particles.velocities == old(particles.velocities) && particles.lifetimes == old(particles.lifetimes)
      invariant particles.startLifetimes == old(particles.startLifetimes)
    {
      var lifetime := particles.LifetimeRatio(idx);
      particles.colors := particles.colors[idx := m.sample(lifetime)];
      assert particles.colors[..idx + 1] == particles.colors[..idx] + [target[idx]];
    }
    assert particles.colors == particles.colors[..particles.Len()] + particles.colors[particles.Len()..];
  }

  /** Applying `ColorByLifetime` twice is applying it once: it reads only
      the total lifetimes, which it does not write. */
  lemma ColorByLifetimeIdempotent(cs: seq<Vec4>, startLifetimes: seq<real>, sample: F32 -> Vec4)
    requires |startLifetimes| <= |cs|
    ensures var once := Recolored(cs, Ratios(startLifetimes), sample);
      Recolored(once, Ratios(startLifetimes), sample) == once
  {
  }

  /** Since every ratio is 0 (or NaN for a zero total lifetime), every
      recoloured slot gets the curve's colour at 0, whatever the age. */
  lemma ColorByLifetimeSamplesZero(cs: seq<Vec4>, startLifetimes: seq<real>, sample: F32 -> Vec4)
    requires |startLifetimes| <= |cs|
    ensures forall i :: 0 <= i < |startLifetimes| && startLifetimes[i] != 0.0 ==>
      Recolored(cs, Ratios(startLifetimes), sample)[i] == sample(Num(0.0))
    ensures forall i :: 0 <= i < |startLifetimes| && startLifetimes[i] == 0.0 ==>
      Recolored(cs, Ratios(startLifetimes), sample)[i] == sample(NaN)
  {
    RatiosIgnoreAge(startLifetimes);
  }

  /** `f32::lerp_unclamped(start, end, f)`: `start + f * (end - start)`,
      with no clamping of `f`. */
  function LerpUnclamped(start: real, end: real, f: real): real
  {
    start + f * (end - start)
  }

  /** The unclamped lerp is the weighted mean of its two ends, so factor 0
      gives `start` and factor 1 gives `end`. */
  lemma LerpUnclampedIsLerp(start: real, end: real, f: real)
    ensures LerpUnclamped(start, end, f) == Curve.Lerp(start, end, f)
    ensures LerpUnclamped(start, end, 0.0) == start
    ensures LerpUnclamped(start, end, 1.0) == end
  {
    assert start + f * (end - start) == (1.0 - f) * start + f * end;
  }

  /** The sizes after `SizeOverLifetime`, with one lerp factor per particle:
      slot `i` with a ratio becomes the curve's range at that ratio, lerped
      by the slot's factor; the other slots keep theirs. */
  function Resized(ss: seq<real>, ratios: seq<F32>, factors: seq<real>, sample: F32 -> SizeRange): (out: seq<real>)
    requires |ratios| <= |ss| && |ratios| <= |factors|
    ensures |out| == |ss|
  {
    seq(|ss|, i requires 0 <= i < |ss| =>
      if i < |ratios| then LerpUnclamped(sample(ratios[i]).start, sample(ratios[i]).end, factors[i]) else ss[i])
  }

  /** `SizeOverLifetime::apply`, given the per-particle lerp factors that
      `modifiers.rs` reads from the pool: every size becomes the sampled range
      lerped by the particle's factor; no other array changes. */
  method ApplySizeOverLifetime(m: SizeOverLifetime, particles: Particles, lerpFactors: seq<real>)
    requires particles.Valid() && particles.Len() <= |lerpFactors|
    modifies particles
    ensures particles.sizes == Resized(old(particles.sizes), Ratios(old(particles.startLifetimes)), lerpFactors, m.sample)
    ensures particles.positions == old(particles.positions) && particles.colors == old(particles.colors)
    ensures particles.velocities == old(particles.velocities) && particles.lifetimes == old(particles.lifetimes)
    ensures particles.startLifetimes == old(particles.startLifetimes)
  {
    ghost var target := Resized(particles.sizes, Ratios(particles.startLifetimes), lerpFactors, m.sample);
    for idx := 0 to particles.Len()
      invariant |particles.sizes| == |target|
      invariant particles.sizes[..idx] == target[..idx]
      invariant particles.sizes[idx..] == old(particles.sizes)[idx..]
      invariant particles.positions == old(particles.positions) && particles.colors == old(particles.colors)
      invariant particles.velocities == old(particles.velocities) && particles.lifetimes == old(particles.lifetimes)
      invariant particles.startLifetimes == old(particles.startLifetimes)
    {
      var lifetime := particles.LifetimeRatio(idx);
      var range := m.sample(lifetime);
      var lerpFactor := lerpFactors[idx];
      particles.sizes := particles.sizes[idx := LerpUnclamped(range.start, range.end, lerpFactor)];
      assert particles.sizes[..idx + 1] == particles.sizes[..idx] + [target[idx]];
    }
  }

  /** A particle with factor 0 gets the start of its sampled range and one
      with factor 1 the end. */
  lemma SizeOverLifetimeEnds(ss: seq<real>, startLifetimes: seq<real>, factors: seq<real>,
                             sample: F32 -> SizeRange, i: nat)
    requires |startLifetimes| <= |ss| && |startLifetimes| <= |factors| && i < |startLifetimes|
    ensures var r := sample(Ratios(startLifetimes)[i]);
      (factors[i] == 0.0 ==> Resized(ss, Ratios(startLifetimes), factors, sample)[i] == r.start) &&
      (factors[i] == 1.0 ==> Resized(ss, Ratios(startLifetimes), factors, sample)[i] == r.end)
  {
    var r := sample(Ratios(startLifetimes)[i]);
    LerpUnclampedIsLerp(r.start, r.end, factors[i]);
  }

  /** The modifiers whose `apply` compiles against the pool; a system runs
      one of them over every pool that carries it. */
  datatype Modifier =
    | Force(force: ConstantForce)
    | ColorOverLifetime(color: ColorByLifetime)

  /** What `apply` did to one pool. */
  twostate predicate Applied(m: Modifier, p: Particles, dt: real)
    reads p
  {
    match m
    case Force(f) =>
      p.velocities == AddToAll(old(p.velocities), DeltaVelocity(f, dt)) &&
      p.positions == old(p.positions) && p.sizes == old(p.sizes) && p.colors == old(p.colors) &&
      p.lifetimes == old(p.lifetimes) && p.startLifetimes == old(p.startLifetimes)
    case ColorOverLifetime(c) =>
      |old(p.startLifetimes)| <= |old(p.colors)| &&
      p.colors == Recolored(old(p.colors), Ratios(old(p.startLifetimes)), c.sample) &&
      p.positions == old(p.positions) && p.sizes == old(p.sizes) && p.velocities == old(p.velocities) &&
      p.lifetimes == old(p.lifetimes) && p.startLifetimes == old(p.startLifetimes)
  }

  /** `ParticleModifier::apply` dispatched on the modifier. */
  method Apply(m: Modifier, p: Particles, dt: real)
    requires p.Valid()
    modifies p
    ensures p.Valid() && Applied(m, p, dt)
  {
    match m
    case Force(f) =>
      ApplyConstantForce(f, p, dt);
    case ColorOverLifetime(c) =>
      ApplyColorByLifetime(c, p);
  }

  /** `apply_particle_modifier`: every (modifier, pool) pair of the query
      is applied with one shared `delta_time`; pairs are run one after the
      other here. */
  method ApplyParticleModifier(entries: seq<(Modifier, Particles)>, dt: real)
    requires forall i, j :: 0 <= i < j < |entries| ==> entries[i].1 != entries[j].1
    requires forall i :: 0 <= i < |entries| ==> entries[i].1.Valid()
    modifies set e | e in entries :: e.1
    ensures forall i :: 0 <= i < |entries| ==> entries[i].1.Valid() && Applied(entries[i].0, entries[i].1, dt)
  {
    for k := 0 to |entries|
      invariant forall i :: 0 <= i < k ==> entries[i].1.Valid() && Applied(entries[i].0, entries[i].1, dt)
      invariant forall i :: k <= i < |entries| ==> unchanged(entries[i].1)
    {
      Apply(entries[k].0, entries[k].1, dt);
    }
  }
}
