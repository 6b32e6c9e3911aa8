/** The particle pool: a structure-of-arrays container that spawns, merges,
    clears and advances a batch of particles, killing expired ones by
    swapping them to the end of the active region and truncating. */
module Particles {
  import opened Vectors
  import opened Wrappers

  /** The parameters of one spawned particle. The colour type is the host
      engine's and stays abstract (`C`); its RGBA conversion is passed to
      the spawn operations. */
  datatype ParticleParams<C> = ParticleParams(
    position: Vec3,
    rotation: real,
    size: real,
    velocity: Vec3,
    angularVelocity: real,
    color: C,
    lifetime: real)

  /** The view `get` hands out: one slot of five of the six arrays (the
      total lifetime is not part of it). */
  datatype Particle = Particle(
    position: Vec4,
    size: real,
    velocity: Vec4,
    color: Vec4,
    lifetime: real)

  /** One slot of all six arrays, used to state what `advance_particles`
      does to whole particles. */
  datatype ParticleRecord = ParticleRecord(
    position: Vec4,
    size: real,
    color: Vec4,
    velocity: Vec4,
    lifetime: real,
    startLifetime: real)

  /** `Vec::swap(i, j)` on a sequence. */
  function Swap<T>(s: seq<T>, i: nat, j: nat): (r: seq<T>)
    requires i < |s| && j < |s|
    ensures |r| == |s|
  {
    s[i := s[j]][j := s[i]]
  }

  /** `Vec::truncate(n)`: keeps the first `n` elements; a no-op when `n` is
      not smaller than the length. */
  function Truncate<T>(s: seq<T>, n: nat): (r: seq<T>)
    ensures |r| == if n < |s| then n else |s|
    ensures r <= s
  {
    if n < |s| then s[..n] else s
  }

  /** The position and velocity slots `spawn` pushes: the rotation and the
      angular velocity are packed into `w`. */
  function SpawnedPosition<C>(p: ParticleParams<C>): Vec4
  {
    Extend(p.position, p.rotation)
  }

  function SpawnedVelocity<C>(p: ParticleParams<C>): Vec4
  {
    Extend(p.velocity, p.angularVelocity)
  }

  /** What one tick does to a particle before the death test: the position
      (and, through `w`, the rotation) moves by `velocity * dt` and the age
      grows by `dt`. Nothing else changes. */
  function Step(p: ParticleRecord, dt: real): ParticleRecord
  {
    p.(position := Add(p.position, Scale(p.velocity, dt)), lifetime := p.lifetime + dt)
  }

  /** The death test of `advance_particles`: the age has reached the total lifetime. */
  predicate Expired(p: ParticleRecord)
  {
    p.lifetime >= p.startLifetime
  }

  /** Every particle advanced in its own slot, none dropped. */
  function StepAll(rs: seq<ParticleRecord>, dt: real): seq<ParticleRecord>
  {
    seq(|rs|, i requires 0 <= i < |rs| => Step(rs[i], dt))
  }

  /** Nobody expires during a tick of length `dt`. */
  predicate NoDeaths(rs: seq<ParticleRecord>, dt: real)
  {
    forall i :: 0 <= i < |rs| ==> !Expired(Step(rs[i], dt))
  }

  /** The specification of a tick: every particle advanced once, in the
      original order, keeping those that have not expired. The pool keeps
      these as a multiset, since the swap-remove does not preserve order. */
  function Survivors(rs: seq<ParticleRecord>, dt: real): (out: seq<ParticleRecord>)
    ensures |out| <= |rs|
  {
    if rs == [] then []
    else
      var q := Step(rs[0], dt);
      (if Expired(q) then [] else [q]) + Survivors(rs[1..], dt)
  }

  /** Survivors distribute over concatenation: the tick treats every
      particle on its own. */
  lemma {:induction false} SurvivorsAppend(a: seq<ParticleRecord>, b: seq<ParticleRecord>, dt: real)
    ensures Survivors(a + b, dt) == Survivors(a, dt) + Survivors(b, dt)
  {
    if a == [] {
      assert a + b == b;
    } else {
      assert (a + b)[1..] == a[1..] + b;
      SurvivorsAppend(a[1..], b, dt);
    }
  }

  /** A record survives exactly when it is the advanced form of some input
      particle that has not expired. */
  lemma {:induction false} SurvivorsMembership(rs: seq<ParticleRecord>, dt: real, x: ParticleRecord)
    ensures x in Survivors(rs, dt) <==>
            exists i :: 0 <= i < |rs| && x == Step(rs[i], dt) && !Expired(x)
  {
    if rs != [] {
      SurvivorsMembership(rs[1..], dt, x);
      if x in Survivors(rs[1..], dt) {
        var i :| 0 <= i < |rs[1..]| && x == Step(rs[1..][i], dt) && !Expired(x);
        assert x == Step(rs[i + 1], dt);
      }
      if exists i :: 0 <= i < |rs| && x == Step(rs[i], dt) && !Expired(x) {
        var i :| 0 <= i < |rs| && x == Step(rs[i], dt) && !Expired(x);
        if i > 0 {
          assert x == Step(rs[1..][i - 1], dt);
        }
      }
    }
  }

  /** Nobody dies exactly when no particle is dropped, and then the tick is
      the in-order advance of every particle. */
  lemma {:induction false} SurvivorsNoDeaths(rs: seq<ParticleRecord>, dt: real)
    ensures NoDeaths(rs, dt) <==> |Survivors(rs, dt)| == |rs|
    ensures NoDeaths(rs, dt) ==> Survivors(rs, dt) == StepAll(rs, dt)
  {
    if rs != [] {
      SurvivorsNoDeaths(rs[1..], dt);
      if NoDeaths(rs, dt) {
        assert NoDeaths(rs[1..], dt) by {
          forall i | 0 <= i < |rs[1..]| ensures !Expired(Step(rs[1..][i], dt)) {
            assert rs[1..][i] == rs[i + 1];
          }
        }
        assert StepAll(rs, dt) == [Step(rs[0], dt)] + StepAll(rs[1..], dt);
      } else {
        var i :| 0 <= i < |rs| && Expired(Step(rs[i], dt));
        if i > 0 {
          assert rs[1..][i - 1] == rs[i];
          assert !NoDeaths(rs[1..], dt);
        }
      }
    }
  }

  /** When the tick outlasts every particle, the pool ends up empty. */
  lemma {:induction false} AllExpiredLeavesNone(rs: seq<ParticleRecord>, dt: real)
    requires forall i :: 0 <= i < |rs| ==> Expired(Step(rs[i], dt))
    ensures Survivors(rs, dt) == []
  {
    if rs != [] {
      assert forall i :: 0 <= i < |rs[1..]| ==> rs[1..][i] == rs[i + 1];
      AllExpiredLeavesNone(rs[1..], dt);
    }
  }

  /** One iteration of the compaction loop on a survivor at `idx`: it is
      advanced in place and joins the processed prefix. */
  lemma AliveIteration(r: seq<ParticleRecord>, idx: nat, active: nat, dt: real)
    requires idx < active <= |r| && !Expired(Step(r[idx], dt))
    ensures var r' := r[idx := Step(r[idx], dt)];
            r'[..idx + 1] + Survivors(r'[idx + 1..active], dt)
            == r[..idx] + Survivors(r[idx..active], dt)
  {
    var r' := r[idx := Step(r[idx], dt)];
    assert r[idx..active][1..] == r[idx + 1..active];
    assert r'[idx + 1..active] == r[idx + 1..active];
    assert r'[..idx + 1] == r[..idx] + [Step(r[idx], dt)];
  }

  /** Moving a particle from the front to the back of a run does not change
      which particles survive. */
  lemma SurvivorsRotate(last: ParticleRecord, mid: seq<ParticleRecord>, dt: real)
    ensures multiset(Survivors([last] + mid, dt)) == multiset(Survivors(mid + [last], dt))
  {
    SurvivorsAppend([last], mid, dt);
    SurvivorsAppend(mid, [last], dt);
  }

  /** The unprocessed slots after a death: the last one moved into the hole
      and the dead one parked past the active region. */
  lemma DeadSuffix(r: seq<ParticleRecord>, idx: nat, active: nat, dt: real)
    requires idx < active <= |r| && Expired(Step(r[idx], dt))
    ensures var r' := Swap(r[idx := Step(r[idx], dt)], idx, active - 1);
            multiset(Survivors(r'[idx..active - 1], dt)) == multiset(Survivors(r[idx..active], dt))
  {
    var r' := Swap(r[idx := Step(r[idx], dt)], idx, active - 1);
    assert Survivors(r[idx..active], dt) == Survivors(r[idx + 1..active], dt) by {
      assert r[idx..active][1..] == r[idx + 1..active];
    }
    if idx < active - 1 {
      var mid := r[idx + 1..active - 1];
      var last := r[active - 1];
      assert r'[idx..active - 1] == [last] + mid;
      assert r[idx + 1..active] == mid + [last];
      SurvivorsRotate(last, mid, dt);
    } else {
      assert r[idx + 1..active] == [];
      assert r'[idx..active - 1] == [];
    }
  }

  /** The state of the compaction loop of `advance_particles`: the slots,
      the cursor `idx` and the end `active` of the region still alive.
      Slots below `idx` are processed survivors, slots in `[idx, active)`
      are not processed yet, and slots from `active` on are dead. */
  datatype Sweep = Sweep(slots: seq<ParticleRecord>, idx: nat, active: nat)

  predicate InRange(s: Sweep)
  {
    s.idx <= s.active <= |s.slots|
  }

  /** One iteration of the loop: slot `idx` is advanced; if it expired it is
      swapped with the last active slot and the active region shrinks,
      otherwise the cursor moves on. */
  function Visit(s: Sweep, dt: real): (t: Sweep)
    requires InRange(s) && s.idx < s.active
    ensures InRange(t) && |t.slots| == |s.slots|
    ensures t.active - t.idx == s.active - s.idx - 1
  {
    var c := s.slots[s.idx := Step(s.slots[s.idx], dt)];
    if Expired(c[s.idx]) then Sweep(Swap(c, s.idx, s.active - 1), s.idx, s.active - 1)
    else Sweep(c, s.idx + 1, s.active)
  }

  /** The rest of the loop, run until the cursor meets the end of the
      active region. */
  function Finish(s: Sweep, dt: real): (t: Sweep)
    requires InRange(s)
    ensures InRange(t) && t.idx == t.active && |t.slots| == |s.slots|
    ensures s.idx <= t.active <= s.active
    decreases s.active - s.idx
  {
    if s.idx == s.active then s else Finish(Visit(s, dt), dt)
  }

  /** The whole loop, from the cursor at 0 and every slot active. */
  function Swept(rs: seq<ParticleRecord>, dt: real): (t: Sweep)
    ensures InRange(t) && |t.slots| == |rs| && t.idx == t.active
  {
    Finish(Sweep(rs, 0, |rs|), dt)
  }

  /** The particles a tick leaves in the pool, in the order the pool keeps
      them: the active region once the loop is done. */
  function Tick(rs: seq<ParticleRecord>, dt: real): (out: seq<ParticleRecord>)
    ensures |out| <= |rs|
  {
    var t := Swept(rs, dt);
    t.slots[..t.active]
  }

  /** What a loop state still stands for: the processed survivors and the
      survivors-to-be of the unprocessed slots. */
  function Pending(s: Sweep, dt: real): seq<ParticleRecord>
    requires InRange(s)
  {
    s.slots[..s.idx] + Survivors(s.slots[s.idx..s.active], dt)
  }

  /** A survivor at the cursor joins the processed prefix. */
  lemma VisitSurvivor(s: Sweep, dt: real)
    requires InRange(s) && s.idx < s.active && !Expired(Step(s.slots[s.idx], dt))
    ensures Pending(Visit(s, dt), dt) == Pending(s, dt)
  {
    var t := Sweep(s.slots[s.idx := Step(s.slots[s.idx], dt)], s.idx + 1, s.active);
    assert Visit(s, dt) == t;
    AliveIteration(s.slots, s.idx, s.active, dt);
  }

  /** An expired particle at the cursor makes way for the last active one:
      the processed prefix is untouched and the unprocessed slots still hold
      the same survivors-to-be. */
  lemma VisitDeath(s: Sweep, dt: real)
    requires InRange(s) && s.idx < s.active && Expired(Step(s.slots[s.idx], dt))
    ensures multiset(Pending(Visit(s, dt), dt)) == multiset(Pending(s, dt))
  {
    var r' := Swap(s.slots[s.idx := Step(s.slots[s.idx], dt)], s.idx, s.active - 1);
    VisitDeathShape(s, dt);
    DeadSuffix(s.slots, s.idx, s.active, dt);
    SamePrefixSameMultiset(s.slots[..s.idx], Survivors(r'[s.idx..s.active - 1], dt),
                           Survivors(s.slots[s.idx..s.active], dt));
  }

  /** After a death the processed prefix is the same and the unprocessed
      slots are those of the swapped array, one fewer. */
  lemma VisitDeathShape(s: Sweep, dt: real)
    requires InRange(s) && s.idx < s.active && Expired(Step(s.slots[s.idx], dt))
    ensures var r' := Swap(s.slots[s.idx := Step(s.slots[s.idx], dt)], s.idx, s.active - 1);
            Pending(Visit(s, dt), dt) == s.slots[..s.idx] + Survivors(r'[s.idx..s.active - 1], dt)
  {
    var r' := Swap(s.slots[s.idx := Step(s.slots[s.idx], dt)], s.idx, s.active - 1);
    assert Visit(s, dt) == Sweep(r', s.idx, s.active - 1);
    assert r'[..s.idx] == s.slots[..s.idx];
  }

  lemma SamePrefixSameMultiset<T>(a: seq<T>, b: seq<T>, c: seq<T>)
    requires multiset(b) == multiset(c)
    ensures multiset(a + b) == multiset(a + c)
  {
  }

  /** One iteration neither loses nor invents a survivor. */
  lemma VisitKeepsPending(s: Sweep, dt: real)
    requires InRange(s) && s.idx < s.active
    ensures multiset(Pending(Visit(s, dt), dt)) == multiset(Pending(s, dt))
  {
    if Expired(Step(s.slots[s.idx], dt)) {
      VisitDeath(s, dt);
    } else {
      VisitSurvivor(s, dt);
    }
  }

  /** Neither does the rest of the loop. */
  lemma {:induction false} FinishKeepsPending(s: Sweep, dt: real)
    requires InRange(s)
    ensures multiset(Pending(Finish(s, dt), dt)) == multiset(Pending(s, dt))
    decreases s.active - s.idx
  {
    if s.idx < s.active {
      VisitKeepsPending(s, dt);
      FinishKeepsPending(Visit(s, dt), dt);
    }
  }

  /** When no unprocessed particle expires, the rest of the loop advances
      each of them in place and nothing is dropped. */
  lemma {:induction false} FinishNoDeaths(s: Sweep, dt: real)
    requires InRange(s) && s.active == |s.slots|
    requires forall k :: s.idx <= k < |s.slots| ==> !Expired(Step(s.slots[k], dt))
    ensures Finish(s, dt).slots == s.slots[..s.idx] + StepAll(s.slots[s.idx..], dt)
    ensures Finish(s, dt).active == |s.slots|
    decreases s.active - s.idx
  {
    if s.idx == s.active {
      assert s.slots[..s.idx] + StepAll(s.slots[s.idx..], dt) == s.slots;
    } else {
      var t := Visit(s, dt);
      FinishNoDeaths(t, dt);
      assert t.slots[..t.idx] + StepAll(t.slots[t.idx..], dt)
          == s.slots[..s.idx] + StepAll(s.slots[s.idx..], dt);
    }
  }

  /** The pool after a tick holds exactly the survivors of the tick, in
      some order, and all of them are alive. */
  lemma TickIsSurvivors(rs: seq<ParticleRecord>, dt: real)
    ensures multiset(Tick(rs, dt)) == multiset(Survivors(rs, dt))
    ensures |Tick(rs, dt)| == |Survivors(rs, dt)|
    ensures forall i :: 0 <= i < |Tick(rs, dt)| ==> !Expired(Tick(rs, dt)[i])
  {
    var start := Sweep(rs, 0, |rs|);
    var t := Swept(rs, dt);
    var out := Tick(rs, dt);
    var sv := Survivors(rs, dt);
    FinishKeepsPending(start, dt);
    assert Pending(start, dt) == sv by {
      assert rs[0..|rs|] == rs;
    }
    assert Pending(t, dt) == out by {
      assert t.slots[t.idx..t.active] == [];
    }
    assert |multiset(out)| == |multiset(sv)|;
    forall i | 0 <= i < |out| ensures !Expired(out[i]) {
      assert out[i] in multiset(out);
      SurvivorsMembership(rs, dt, out[i]);
    }
  }

  /** Nobody died iff the pool kept its size, and then every particle was
      advanced in place, in its own slot. */
  lemma TickNoDeaths(rs: seq<ParticleRecord>, dt: real)
    ensures NoDeaths(rs, dt) <==> |Tick(rs, dt)| == |rs|
    ensures NoDeaths(rs, dt) ==> Tick(rs, dt) == StepAll(rs, dt)
  {
    TickIsSurvivors(rs, dt);
    SurvivorsNoDeaths(rs, dt);
    if NoDeaths(rs, dt) {
      var t := Swept(rs, dt);
      FinishNoDeaths(Sweep(rs, 0, |rs|), dt);
      assert rs[..0] + StepAll(rs[0..], dt) == StepAll(rs, dt);
      assert t.slots[..t.active] == t.slots;
    }
  }

  /** The colour carried by each record. */
  function Colors(rs: seq<ParticleRecord>): (cs: seq<Vec4>)
    ensures |cs| == |rs|
  {
    seq(|rs|, i requires 0 <= i < |rs| => rs[i].color)
  }

  /** The loop only advances and swaps whole records, so the colours of
      all slots (dead ones included) are a permutation of those before. */
  lemma {:induction false} FinishPermutesColors(s: Sweep, dt: real)
    requires InRange(s)
    ensures multiset(Colors(Finish(s, dt).slots)) == multiset(Colors(s.slots))
    decreases s.active - s.idx
  {
    if s.idx < s.active {
      var c := s.slots[s.idx := Step(s.slots[s.idx], dt)];
      assert Colors(c) == Colors(s.slots);
      var t := Visit(s, dt);
      FinishPermutesColors(t, dt);
      if t.active < s.active {
        assert Colors(t.slots) == Colors(c)[s.idx := Colors(c)[s.active - 1]][s.active - 1 := Colors(c)[s.idx]];
      }
    }
  }

  lemma TickPermutesColors(rs: seq<ParticleRecord>, dt: real)
    ensures multiset(Colors(Swept(rs, dt).slots)) == multiset(Colors(rs))
  {
    FinishPermutesColors(Sweep(rs, 0, |rs|), dt);
  }

  /** Six parallel arrays read slot by slot as whole records; `colors` may
      be longer than the others and its surplus is not part of any record. */
  function Zip(ps: seq<Vec4>, ss: seq<real>, cs: seq<Vec4>, vs: seq<Vec4>, ls: seq<real>, sls: seq<real>)
    : (rs: seq<ParticleRecord>)
    requires |ss| == |ps| && |vs| == |ps| && |ls| == |ps| && |sls| == |ps| && |ps| <= |cs|
    ensures |rs| == |ps|
  {
    seq(|ps|, i requires 0 <= i < |ps| => ParticleRecord(ps[i], ss[i], cs[i], vs[i], ls[i], sls[i]))
  }

  /** Moving and ageing slot `idx` of the arrays advances record `idx`. */
  lemma ZipIntegrate(ps: seq<Vec4>, ss: seq<real>, cs: seq<Vec4>, vs: seq<Vec4>, ls: seq<real>, sls: seq<real>,
                     idx: nat, dt: real)
    requires |ss| == |ps| && |vs| == |ps| && |ls| == |ps| && |sls| == |ps| && |ps| <= |cs|
    requires idx < |ps|
    ensures var rs := Zip(ps, ss, cs, vs, ls, sls);
            Zip(ps[idx := Add(ps[idx], Scale(vs[idx], dt))], ss, cs, vs, ls[idx := ls[idx] + dt], sls)
            == rs[idx := Step(rs[idx], dt)]
  {
  }

  /** The colours of the records are the colours of the active slots. */
  lemma ZipColors(ps: seq<Vec4>, ss: seq<real>, cs: seq<Vec4>, vs: seq<Vec4>, ls: seq<real>, sls: seq<real>)
    requires |ss| == |ps| && |vs| == |ps| && |ls| == |ps| && |sls| == |ps| && |ps| <= |cs|
    ensures Colors(Zip(ps, ss, cs, vs, ls, sls)) == cs[..|ps|]
  {
  }

  /** When the records are the in-place advance of earlier ones, the arrays
      a step does not touch hold what they held. */
  lemma ZipStepAll(ps: seq<Vec4>, ss: seq<real>, cs: seq<Vec4>, vs: seq<Vec4>, ls: seq<real>, sls: seq<real>,
                   ps': seq<Vec4>, ss': seq<real>, cs': seq<Vec4>, vs': seq<Vec4>, ls': seq<real>, sls': seq<real>,
                   dt: real)
    requires |ss| == |ps| && |vs| == |ps| && |ls| == |ps| && |sls| == |ps| && |ps| <= |cs|
    requires |ss'| == |ps'| && |vs'| == |ps'| && |ls'| == |ps'| && |sls'| == |ps'| && |ps'| <= |cs'|
    requires Zip(ps', ss', cs', vs', ls', sls') == StepAll(Zip(ps, ss, cs, vs, ls, sls), dt)
    ensures ss' == ss && vs' == vs && sls' == sls && cs'[..|ps|] == cs[..|ps|]
  {
    var n := |ps|;
    forall i | 0 <= i < n
      ensures ss'[i] == ss[i] && vs'[i] == vs[i] && sls'[i] == sls[i] && cs'[i] == cs[i]
    {
      assert Zip(ps', ss', cs', vs', ls', sls')[i] == Step(Zip(ps, ss, cs, vs, ls, sls)[i], dt);
    }
  }

  /** `lifetime_ratio(idx)` over the total lifetimes: `particles.rs` reads the
      total lifetime twice (where the age was evidently meant for the second
      read) and divides `start - start` by `start`, so the ratio does not
      depend on the age. An `f32` `0.0 / 0.0` is NaN. */
  function LifetimeRatioOf(startLifetimes: seq<real>, idx: nat): F32
    requires idx < |startLifetimes|
  {
    var startLifetime := startLifetimes[idx];
    var lifetime := startLifetimes[idx];
    if startLifetime == 0.0 then NaN else Num((startLifetime - lifetime) / startLifetime)
  }

  /** The lifetime ratio of every slot. */
  function Ratios(startLifetimes: seq<real>): (rs: seq<F32>)
    ensures |rs| == |startLifetimes|
  {
    seq(|startLifetimes|, i requires 0 <= i < |startLifetimes| => LifetimeRatioOf(startLifetimes, i))
  }

  /** Every particle with a nonzero total lifetime has ratio 0 whatever its
      age, and one with a zero total lifetime has ratio NaN. */
  lemma RatiosIgnoreAge(startLifetimes: seq<real>)
    ensures forall i :: 0 <= i < |startLifetimes| && startLifetimes[i] != 0.0 ==>
      Ratios(startLifetimes)[i] == Num(0.0)
    ensures forall i :: 0 <= i < |startLifetimes| && startLifetimes[i] == 0.0 ==>
      Ratios(startLifetimes)[i] == NaN
  {
  }

  /** A batch of particles stored as six parallel arrays. */
  class Particles {
    // xyz: position; w: rotation
    var positions: seq<Vec4>
    var sizes: seq<real>
    var colors: seq<Vec4>
    // xyz: velocity; w: angular velocity
    var velocities: seq<Vec4>
    // age so far
    var lifetimes: seq<real>
    // total lifetime
    var startLifetimes: seq<real>

    /** The invariant every reachable pool keeps: five arrays of one length,
        and `colors` at least that long (a tick with deaths truncates the
        other five but not `colors`). */
    ghost predicate Valid()
      reads this
    {
      |sizes| == |positions| && |velocities| == |positions| &&
      |lifetimes| == |positions| && |startLifetimes| == |positions| &&
      |positions| <= |colors|
    }

    /** The number of particles, taken from `positions`. */
    function Len(): nat
      reads this
    {
      |positions|
    }

    /** The particles as whole records, slot by slot. */
    ghost function Records(): (rs: seq<ParticleRecord>)
      reads this
      requires Valid()
      ensures |rs| == |positions|
    {
      Zip(positions, sizes, colors, velocities, lifetimes, startLifetimes)
    }

    /** `Particles::new(capacity)`: an empty pool; the capacity is only an
        allocation hint. */
    constructor (capacity: nat)
      ensures Valid() && Len() == 0
      ensures positions == [] && sizes == [] && colors == []
      ensures velocities == [] && lifetimes == [] && startLifetimes == []
    {
      positions, sizes, colors := [], [], [];
      velocities, lifetimes, startLifetimes := [], [], [];
    }

    /** `get(idx)`: the particle at `idx`, or `None` where the Rust code panics
        because one of the five arrays read is too short. */
    function Get(idx: nat): (r: Option<Particle>)
      reads this
      ensures r.Some? <==>
        idx < |positions| && idx < |sizes| && idx < |velocities| && idx < |colors| && idx < |lifetimes|
      ensures r.Some? ==> (r.value.position == positions[idx] && r.value.size == sizes[idx] &&
        r.value.velocity == velocities[idx] && r.value.color == colors[idx] && r.value.lifetime == lifetimes[idx])
      ensures Valid() ==> (r.Some? <==> idx < Len())
    {
      if idx < |positions| && idx < |sizes| && idx < |velocities| && idx < |colors| && idx < |lifetimes| then
        Some(Particle(positions[idx], sizes[idx], velocities[idx], colors[idx], lifetimes[idx]))
      else
        None
    }

    /** `get_mut(idx)` followed by writing `update` of the particle through
        the returned references. `ok` is false where the Rust code panics, and
        then nothing changes. */
    method GetMut(idx: nat, update: Particle -> Particle) returns (ok: bool)
      modifies this
      ensures ok == old(Get(idx)).Some?
      ensures ok ==> var p := update(old(Get(idx)).value);
        positions == old(positions)[idx := p.position] &&
        sizes == old(sizes)[idx := p.size] &&
        velocities == old(velocities)[idx := p.velocity] &&
        colors == old(colors)[idx := p.color] &&
        lifetimes == old(lifetimes)[idx := p.lifetime]
      ensures !ok ==> (positions == old(positions) && sizes == old(sizes) &&
        velocities == old(velocities) && colors == old(colors) && lifetimes == old(lifetimes))
      ensures startLifetimes == old(startLifetimes)
    {
      var view := Get(idx);
      ok := view.Some?;
      if ok {
        var p := update(view.value);
        positions := positions[idx := p.position];
        sizes := sizes[idx := p.size];
        velocities := velocities[idx := p.velocity];
        colors := colors[idx := p.color];
        lifetimes := lifetimes[idx := p.lifetime];
      }
    }

    /** `spawn(params)`: pushes one slot onto each array; the new particle
        has age 0 and total lifetime `params.lifetime`. */
    method Spawn<C>(params: ParticleParams<C>, asRgba: C -> Vec4)
      modifies this
      ensures positions == old(positions) + [SpawnedPosition(params)]
      ensures sizes == old(sizes) + [params.size]
      ensures velocities == old(velocities) + [SpawnedVelocity(params)]
      ensures colors == old(colors) + [asRgba(params.color)]
      ensures lifetimes == old(lifetimes) + [0.0]
      ensures startLifetimes == old(startLifetimes) + [params.lifetime]
      ensures old(Valid()) ==> Valid()
      // After a tick with deaths the new colour lands past the surplus, so
      // the new particle reads the stale colour `flush` left in its slot.
      ensures old(Valid()) && old(Len()) < old(|colors|) ==>
        Get(old(Len())) == Some(Particle(SpawnedPosition(params), params.size, SpawnedVelocity(params),
                                         old(colors)[old(Len())], 0.0))
    {
      positions := positions + [Extend(params.position, params.rotation)];
      sizes := sizes + [params.size];
      velocities := velocities + [Extend(params.velocity, params.angularVelocity)];
      colors := colors + [asRgba(params.color)];
      lifetimes := lifetimes + [0.0];
      startLifetimes := startLifetimes + [params.lifetime];
    }

    /** `spawn_batch(batch)`: spawns every item in iteration order, so each
        array grows by the batch's length. */
    method SpawnBatch<C>(batch: seq<ParticleParams<C>>, asRgba: C -> Vec4)
      modifies this
      ensures positions == old(positions) + seq(|batch|, i requires 0 <= i < |batch| => SpawnedPosition(batch[i]))
      ensures sizes == old(sizes) + seq(|batch|, i requires 0 <= i < |batch| => batch[i].size)
      ensures velocities == old(velocities) + seq(|batch|, i requires 0 <= i < |batch| => SpawnedVelocity(batch[i]))
      ensures colors == old(colors) + seq(|batch|, i requires 0 <= i < |batch| => asRgba(batch[i].color))
      ensures lifetimes == old(lifetimes) + seq(|batch|, _ => 0.0)
      ensures startLifetimes == old(startLifetimes) + seq(|batch|, i requires 0 <= i < |batch| => batch[i].lifetime)
      ensures Len() == old(Len()) + |batch|
      ensures old(Valid()) ==> Valid()
    {
      var k := 0;
      while k < |batch|
        invariant 0 <= k <= |batch|
        invariant positions == old(positions) + seq(k, i requires 0 <= i < k => SpawnedPosition(batch[i]))
        invariant sizes == old(sizes) + seq(k, i requires 0 <= i < k => batch[i].size)
        invariant velocities == old(velocities) + seq(k, i requires 0 <= i < k => SpawnedVelocity(batch[i]))
        invariant colors == old(colors) + seq(k, i requires 0 <= i < k => asRgba(batch[i].color))
        invariant lifetimes == old(lifetimes) + seq(k, _ => 0.0)
        invariant startLifetimes == old(startLifetimes) + seq(k, i requires 0 <= i < k => batch[i].lifetime)
      {
        Spawn(batch[k], asRgba);
        k := k + 1;
      }
    }

    /** `merge(other)`: each array becomes this pool's array followed by the
        other pool's. */
    method Merge(other: Particles)
      modifies this
      ensures positions == old(positions) + old(other.positions)
      ensures sizes == old(sizes) + old(other.sizes)
      ensures velocities == old(velocities) + old(other.velocities)
      ensures lifetimes == old(lifetimes) + old(other.lifetimes)
      ensures colors == old(colors) + old(other.colors)
      ensures startLifetimes == old(startLifetimes) + old(other.startLifetimes)
      ensures old(Valid()) && old(other.Valid()) ==> Valid()
      // With surplus colours in this pool, the other pool's first particle
      // lands at slot `len()` but reads this pool's stale colour there.
      ensures old(Valid()) && old(Len()) < old(|colors|) && old(other.positions) != [] ==>
        positions[old(Len())] == old(other.positions)[0] && colors[old(Len())] == old(colors)[old(Len())]
    {
      var ps, ss, vs := other.positions, other.sizes, other.velocities;
      var ls, cs, sls := other.lifetimes, other.colors, other.startLifetimes;
      positions := positions + ps;
      sizes := sizes + ss;
      velocities := velocities + vs;
      lifetimes := lifetimes + ls;
      colors := colors + cs;
      startLifetimes := startLifetimes + sls;
    }

    /** `clear()`: empties all six arrays. */
    method Clear()
      modifies this
      ensures Valid() && Len() == 0
      ensures positions == [] && sizes == [] && colors == []
      ensures velocities == [] && lifetimes == [] && startLifetimes == []
    {
      positions := [];
      sizes := [];
      velocities := [];
      lifetimes := [];
      colors := [];
      startLifetimes := [];
    }

    /** `lifetime_ratio(idx)`, read from this pool's total lifetimes. */
    function LifetimeRatio(idx: nat): (r: F32)
      reads this
      requires idx < |startLifetimes|
      ensures startLifetimes[idx] != 0.0 <==> r == Num(0.0)
      ensures startLifetimes[idx] == 0.0 <==> r == NaN
    {
      LifetimeRatioOf(startLifetimes, idx)
    }

    /** `kill(idx, end)`: swaps slots `idx` and `end` of all six arrays, so a
        particle moves as a whole. */
    method Kill(idx: nat, end: nat)
      requires Valid() && idx < Len() && end < Len()
      modifies this
      ensures positions == Swap(old(positions), idx, end)
      ensures sizes == Swap(old(sizes), idx, end)
      ensures velocities == Swap(old(velocities), idx, end)
      ensures lifetimes == Swap(old(lifetimes), idx, end)
      ensures colors == Swap(old(colors), idx, end)
      ensures startLifetimes == Swap(old(startLifetimes), idx, end)
      ensures Valid() && Records() == Swap(old(Records()), idx, end)
    {
      positions := Swap(positions, idx, end);
      sizes := Swap(sizes, idx, end);
      velocities := Swap(velocities, idx, end);
      lifetimes := Swap(lifetimes, idx, end);
      colors := Swap(colors, idx, end);
      startLifetimes := Swap(startLifetimes, idx, end);
    }

    /** `flush(len)`: truncates five arrays to `len`; `colors` is left as it
        is, so after a tick with deaths it is longer than the others. */
    method Flush(len: nat)
      requires Valid()
      modifies this
      ensures positions == Truncate(old(positions), len)
      ensures sizes == Truncate(old(sizes), len)
      ensures velocities == Truncate(old(velocities), len)
      ensures lifetimes == Truncate(old(lifetimes), len)
      ensures startLifetimes == Truncate(old(startLifetimes), len)
      ensures colors == old(colors)
      ensures Valid() && Records() == Truncate(old(Records()), len)
    {
      positions := Truncate(positions, len);
      sizes := Truncate(sizes, len);
      velocities := Truncate(velocities, len);
      lifetimes := Truncate(lifetimes, len);
      startLifetimes := Truncate(startLifetimes, len);
    }

    /** The first half of one iteration of `advance_particles`: slot `idx`
        moves by its velocity times `dt` (rotation included) and ages by `dt`. */
    method Integrate(idx: nat, dt: real)
      requires Valid() && idx < Len()
      modifies this
      ensures positions == old(positions)[idx := Add(old(positions)[idx], Scale(old(velocities)[idx], dt))]
      ensures lifetimes == old(lifetimes)[idx := old(lifetimes)[idx] + dt]
      ensures sizes == old(sizes) && colors == old(colors) && velocities == old(velocities)
      ensures startLifetimes == old(startLifetimes)
      ensures Valid() && Records() == old(Records())[idx := Step(old(Records())[idx], dt)]
    {
      ZipIntegrate(positions, sizes, colors, velocities, lifetimes, startLifetimes, idx, dt);
      positions := positions[idx := Add(positions[idx], Scale(velocities[idx], dt))];
      lifetimes := lifetimes[idx := lifetimes[idx] + dt];
    }

    /** `advance_particles(dt)`: moves and ages every particle, swaps each
        expired one with the last unprocessed slot, and truncates once at
        the end if anything died. */
    method AdvanceParticles(dt: real)
      requires Valid()
      modifies this
      ensures Valid()
      ensures Records() == Tick(old(Records()), dt)
      ensures |colors| == old(|colors|)
      ensures colors[..old(Len())] == Colors(Swept(old(Records()), dt).slots)
      ensures colors[old(Len())..] == old(colors[Len()..])
      ensures NoDeaths(old(Records()), dt) ==>
        sizes == old(sizes) && velocities == old(velocities) &&
        startLifetimes == old(startLifetimes) && colors == old(colors)
    {
      ghost var orig := Records();
      ghost var n := |orig|;
      ghost var oldColors := colors;
      var activeCount: nat := Len();
      var idx: nat := 0;
      while idx < activeCount
        invariant Valid() && Len() == n && |colors| == |oldColors|
        invariant idx <= activeCount <= n
        invariant Finish(Sweep(Records(), idx, activeCount), dt) == Swept(orig, dt)
        invariant colors[n..] == oldColors[n..]
      {
        idx, activeCount := VisitSlot(idx, activeCount, dt);
      }
      ZipColors(positions, sizes, colors, velocities, lifetimes, startLifetimes);
      if activeCount < Len() {
        Flush(activeCount);
      }
      if NoDeaths(orig, dt) {
        TickNoDeaths(orig, dt);
        ZipStepAll(old(positions), old(sizes), old(colors), old(velocities), old(lifetimes), old(startLifetimes),
                   positions, sizes, colors, velocities, lifetimes, startLifetimes, dt);
        assert colors == colors[..n] + colors[n..];
        assert oldColors == oldColors[..n] + oldColors[n..];
      }
    }

    /** One iteration of the loop of `advance_particles` at cursor `idx`,
        with the active region ending at `active`. */
    method VisitSlot(idx: nat, active: nat, dt: real) returns (idx': nat, active': nat)
      requires Valid() && idx < active <= Len()
      modifies this
      ensures Valid() && Len() == old(Len()) && |colors| == old(|colors|)
      ensures InRange(Sweep(Records(), idx', active'))
      ensures Sweep(Records(), idx', active') == Visit(Sweep(old(Records()), idx, active), dt)
      ensures colors[Len()..] == old(colors[Len()..])
    {
      Integrate(idx, dt);
      if lifetimes[idx] >= startLifetimes[idx] {
        Kill(idx, active - 1);
        idx', active' := idx, active - 1;
      } else {
        idx', active' := idx + 1, active;
      }
    }

    /** `iter()`: a read-only iterator positioned at the first slot. */
    method Iter() returns (it: ParticleIter)
      ensures fresh(it) && it.particles == this && it.idx == 0
    {
      it := new ParticleIter(this);
    }

    /** `iter_mut()`: a mutable iterator positioned at the first slot. */
    method IterMut() returns (it: ParticleIterMut)
      ensures fresh(it) && it.particles == this && it.idx == 0
    {
      it := new ParticleIterMut(this);
    }

    /** Running `iter()` to exhaustion yields `get(0)`, ..., `get(len() - 1)`
        in order. */
    method Iterate() returns (views: seq<Particle>)
      requires Valid()
      ensures |views| == Len()
      ensures forall i :: 0 <= i < |views| ==> Get(i) == Some(views[i])
    {
      var it := Iter();
      views := [];
      while true
        invariant it.particles == this && it.idx == |views| <= Len()
        invariant forall i :: 0 <= i < |views| ==> Get(i) == Some(views[i])
        decreases Len() - it.idx
      {
        var r := it.Next();
        if r.None? {
          break;
        }
        views := views + [r.value];
      }
    }

    /** A `for` loop over `iter_mut()` that replaces each particle by
        `update` of it: every slot below `len()` is rewritten once, the total
        lifetimes and any surplus colours are untouched. */
    method ForEachMut(update: Particle -> Particle)
      requires Valid()
      modifies this
      ensures Valid() && Len() == old(Len()) && |colors| == old(|colors|)
      ensures forall i :: 0 <= i < Len() ==> Get(i) == Some(update(old(Get(i)).value))
      ensures startLifetimes == old(startLifetimes)
      ensures colors[Len()..] == old(colors[Len()..])
    {
      var it := IterMut();
      while true
        invariant it.particles == this && it.idx <= Len()
        invariant Valid() && Len() == old(Len()) && |colors| == old(|colors|)
        invariant forall i :: 0 <= i < it.idx ==> Get(i) == Some(update(old(Get(i)).value))
        invariant forall i :: it.idx <= i < Len() ==> Get(i) == old(Get(i))
        invariant startLifetimes == old(startLifetimes)
        invariant colors[Len()..] == old(colors[Len()..])
        decreases Len() - it.idx
      {
        var r := it.Next();
        if r.None? {
          break;
        }
        var ok := GetMut(r.value, update);
      }
    }
  }

  /** The read-only iterator: a cursor over the slots of one pool. */
  class ParticleIter {
    const particles: Particles
    var idx: nat

    constructor (particles: Particles)
      ensures this.particles == particles && idx == 0
    {
      this.particles := particles;
      idx := 0;
    }

    /** `next()`: the particle at the cursor, then one step on; `None` once
        the cursor reaches `len()`. */
    method Next() returns (r: Option<Particle>)
      requires particles.Valid()
      modifies this
      ensures old(idx) >= particles.Len() ==> r == None && idx == old(idx)
      ensures old(idx) < particles.Len() ==> r.Some? && r == particles.Get(old(idx)) && idx == old(idx) + 1
    {
      if idx >= particles.Len() {
        r := None;
      } else {
        r := particles.Get(idx);
        idx := idx + 1;
      }
    }
  }

  /** The mutable iterator: hands out the slot whose five references it
      yields. */
  class ParticleIterMut {
    const particles: Particles
    var idx: nat

    constructor (particles: Particles)
      ensures this.particles == particles && idx == 0
    {
      this.particles := particles;
      idx := 0;
    }

    /** `next()`: the slot at the cursor, then one step on; `None` once the
        cursor reaches `len()`. */
    method Next() returns (r: Option<nat>)
      modifies this
      ensures old(idx) >= particles.Len() ==> r == None && idx == old(idx)
      ensures old(idx) < particles.Len() ==> r == Some(old(idx)) && idx == old(idx) + 1
    {
      if idx >= particles.Len() {
        r := None;
      } else {
        r := Some(idx);
        idx := idx + 1;
      }
    }
  }

  /** `update_particles`: every pool of the query advances by the same
      `dt`; the pools are distinct components, so each is advanced on its own. */
  method UpdateParticles(pools: seq<Particles>, dt: real)
    requires forall i, j :: 0 <= i < j < |pools| ==> pools[i] != pools[j]
    requires forall i :: 0 <= i < |pools| ==> pools[i].Valid()
    modifies set p | p in pools
    ensures forall i :: 0 <= i < |pools| ==> Advanced(pools[i], dt)
  {
    var k := 0;
    while k < |pools|
      invariant 0 <= k <= |pools|
      invariant forall i :: 0 <= i < k ==> Advanced(pools[i], dt)
      invariant forall i :: k <= i < |pools| ==> unchanged(pools[i])
    {
      pools[k].AdvanceParticles(dt);
      k := k + 1;
    }
  }

  /** What one tick did to a pool: its records are the tick of the old
      ones, and its colours keep their length, with the active part the
      swept colours and the surplus untouched. */
  twostate predicate Advanced(p: Particles, dt: real)
    reads p
  {
    old(p.Valid()) && p.Valid() &&
    p.Records() == Tick(old(p.Records()), dt) &&
    |p.colors| == old(|p.colors|) && old(p.Len()) <= |p.colors| &&
    p.colors[..old(p.Len())] == Colors(Swept(old(p.Records()), dt).slots) &&
    p.colors[old(p.Len())..] == old(p.colors[p.Len()..])
  }
}
