# bevy_prototype_particles in Dafny

A model of the particle core of `bevy_prototype_particles` and proofs about it.

- **The `Particles` pool** (`src/particles.rs`): a structure-of-arrays container with six parallel
  arrays (positions with the rotation in `w`, sizes, colours, velocities with the angular velocity in
  `w`, ages and total lifetimes).
  - It is modelled as the class `Particles.Particles`, whose six `seq` fields the methods reassign.
  - The per-tick `advance_particles` keeps its `while` loop over `idx` and `active_count`. Dead
    particles are killed by a six-array swap with the last active slot, and one truncation follows.
- **The modifiers** (`src/modifiers.rs`): `ConstantForce`, `ColorByLifetime` and `SizeOverLifetime`
  are `for` loops that rewrite one array in place.
- **The curve combinator** (`src/curve.rs`): `MinMaxCurve::evaluate` and the stub `Curve::evaluate`,
  as pure functions.
- **Render packing** (`src/render.rs`):
  - `extract_particles` copies every pool the query matches (those that also carry a
    `ParticleMaterial`);
  - `prepare_particles` concatenates the copies into three shared `BufferVec`s through `batch_copy`,
    and records one instance range per pool;
  - `draw` looks a range up by its key.

The tick is specified in three layers:

- `Survivors` is the declarative meaning of a tick. Every particle is advanced once, in order, and
  those that have not expired are kept.
- `Visit`, `Finish`, `Swept` and `Tick` replay the swap-remove loop on values. `AdvanceParticles` is
  proved to produce exactly `Tick` of its old records.
- `TickIsSurvivors` proves that `Tick` is a permutation of `Survivors` and that everything left is
  alive.

Three behaviours of the code are modelled as written:

- **`flush` does not truncate `colors`.** After a tick with deaths the pool holds more colours than
  positions. `ColorsShiftAfterFlush` shows that colour `k` of pool `i` then sits in the colour buffer
  at its range's start plus `k` plus the surplus colours of the pools before `i`. That shift is zero
  for the first pool and positive once an earlier pool has a surplus.
- **`lifetime_ratio` reads the total lifetime twice.** It computes `(s - s) / s`: 0 for every nonzero
  total lifetime, and NaN (as `0.0 / 0.0` in `f32`) for a zero one.
- **`SizeOverLifetime::apply` reads a `lerp_factors` array that the pool does not have.** The model
  passes the factors in as a parameter.

The doc comment of `lifetime_ratio` (src/particles.rs:168-169) promises 0 for a newly spawned
particle and 1.0 or more when it is about to be killed. The code returns 0 (or NaN) at every age, and
the model follows the code.

After a tick with deaths, two more operations show the `flush` behaviour:

- **`spawn`.** It pushes the new colour past the surplus, so the new particle reads a stale colour
  (`Particles.Particles.Spawn`).
- **`merge`.** The other pool's particles are misaligned with their colours in the same way
  (`Particles.Particles.Merge`).

Files:

- `wrappers.dfy`: `Option`.
- `vectors.dfy`: `Vec3`, `Vec4` and an `f32` result that may be NaN.
- `curve.dfy`: the curve combinator.
- `particles.dfy`: the pool, the tick specification and the iterators.
- `modifiers.dfy`: the three modifiers and their dispatch.
- `render.dfy`: extraction, packing and the draw lookup.

## Model

| member | source | states |
|---|---|---|
| Curve.EvaluateCurve | src/curve.rs:29-31 | no contract of its own: the stub `Curve::evaluate` returns 0 at every time; `Curve.StubCurvesEvaluateToZero` states what that makes of `MinMaxCurve::evaluate` |
| Curve.Evaluate | src/curve.rs:11-22 | no contract of its own: `MinMaxCurve::evaluate`, one case per variant; its meaning is stated by `Curve.ConstantIgnoresInputs`, `Curve.SingleIgnoresFactor`, `Curve.RangeCurveIsLerp` and `Curve.RangeCurveBetween` |
| Curve.ConstantIgnoresInputs | src/curve.rs:13 | a `Constant(v)` curve evaluates to `v` for every time and lerp factor |
| Curve.SingleIgnoresFactor | src/curve.rs:14 | the `Curve` variant is the inner curve's value at the time, the same for any two lerp factors |
| Curve.RangeCurveIsLerp | src/curve.rs:15-20 | `RangeCurve` is the weighted mean `Lerp` of the min and max curves' values; factor 0 gives min's value, factor 1 gives max's |
| Curve.StubCurvesEvaluateToZero | src/curve.rs:29-31 | because `Curve::evaluate` returns 0, every non-`Constant` curve evaluates to 0 |
| Curve.Lerp | src/curve.rs:16-19 | the reference interpolation: factor 0 gives the first end, factor 1 the second |
| Curve.LerpBetween | src/curve.rs:15-20 | with a factor in [0, 1] the interpolation lies between its two ends |
| Curve.RangeCurveBetween | src/curve.rs:15-20 | with a factor in [0, 1], a range curve evaluates to a value between its min and max curves' values |
| Particles.Truncate | src/particles.rs:207-211 | `Vec::truncate(n)` keeps a prefix of length `min(n, len)` |
| Particles.SurvivorsAppend | src/particles.rs:180-189 | the survivors of a concatenation are the survivors of each part, in order |
| Particles.SurvivorsMembership | src/particles.rs:180-189 | a record survives iff it is the advanced form of some input particle and has not expired |
| Particles.SurvivorsNoDeaths | src/particles.rs:180-192 | nobody expires iff no particle is dropped, and then the survivors are the in-order advance of every particle |
| Particles.AllExpiredLeavesNone | src/particles.rs:180-192 | when every particle expires in the tick, nothing survives |
| Particles.AliveIteration | src/particles.rs:181-187 | a survivor at `idx` is advanced in place, and the processed prefix plus the survivors-to-be are unchanged |
| Particles.SurvivorsRotate | src/particles.rs:184 | moving the last active particle to the front of the unprocessed run keeps the survivors as a multiset |
| Particles.DeadSuffix | src/particles.rs:183-185 | after a death and the swap, the unprocessed slots (one fewer) have the same survivors-to-be as a multiset |
| Particles.Visit | src/particles.rs:181-188 | one iteration keeps `idx <= active <= len` and shrinks the unprocessed region by exactly one |
| Particles.Finish | src/particles.rs:180-189 | the loop ends with the cursor at the end of the active region, which has not grown |
| Particles.VisitSurvivor | src/particles.rs:186-188 | a survivor's iteration leaves the pending particles (processed prefix plus survivors-to-be) unchanged |
| Particles.VisitDeathShape | src/particles.rs:183-185 | after a death the processed prefix is the same and the unprocessed slots are those of the swapped array |
| Particles.VisitDeath | src/particles.rs:183-185 | a death's iteration leaves the pending particles unchanged as a multiset |
| Particles.VisitKeepsPending | src/particles.rs:180-189 | every iteration keeps the pending particles as a multiset |
| Particles.FinishKeepsPending | src/particles.rs:180-189 | so does the rest of the loop |
| Particles.FinishNoDeaths | src/particles.rs:180-189 | when no unprocessed particle expires, the loop advances each in place and the active region stays whole |
| Particles.TickIsSurvivors | src/particles.rs:177-193 | a tick keeps exactly the survivors as a multiset: each old particle that did not expire, advanced once; none left is expired |
| Particles.TickNoDeaths | src/particles.rs:190-192 | nobody died iff the pool kept its length, and then every particle was advanced in its own slot |
| Particles.FinishPermutesColors | src/particles.rs:196-203 | the loop only swaps whole slots, so the colour array (dead slots included) is a permutation of the old one |
| Particles.TickPermutesColors | src/particles.rs:178-189 | after the whole loop the colours are a permutation of the old colours |
| Particles.ZipIntegrate | src/particles.rs:181-182 | moving and ageing slot `idx` of the arrays is `Step` on record `idx` |
| Particles.ZipColors | src/particles.rs:45 | the records' colours are the colours of the active slots |
| Particles.ZipStepAll | src/particles.rs:181-182 | if the records are the in-place advance of earlier ones, then sizes, velocities, total lifetimes and the active colours are unchanged |
| Particles.RatiosIgnoreAge | src/particles.rs:170-174 | the ratio is `Num(0)` for every nonzero total lifetime, whatever the age, and NaN for a zero one |
| Particles.Particles.constructor | src/particles.rs:54-64 | `new` gives six empty arrays |
| Particles.Particles.Len | src/particles.rs:142-144 | no contract of its own: `len()` is the number of positions; `Particles.Particles.Get`, `Particles.ParticleIter.Next` and `Particles.Particles.Iterate` state which slots it makes reachable |
| Particles.Particles.Get | src/particles.rs:69-77 | `get(idx)` is defined iff `idx` is within every array it reads, and then holds those five slots; on a valid pool that is `idx < len()` |
| Particles.Particles.GetMut | src/particles.rs:83-91 | `get_mut(idx)` with a write-back succeeds iff `get(idx)` would, rewrites exactly slot `idx` of the five arrays, and otherwise changes nothing |
| Particles.Particles.Spawn | src/particles.rs:97-106 | `spawn` appends one slot to each array: packed position and velocity, converted colour, age 0, total lifetime `params.lifetime`. With surplus colours, the new particle reads the stale colour at slot `len()` |
| Particles.Particles.SpawnBatch | src/particles.rs:109-115 | `spawn_batch` appends the batch in order to each array, and `len` grows by the batch length |
| Particles.Particles.Merge | src/particles.rs:118-126 | `merge` makes each array the concatenation of this pool's and the other's. With surplus colours in this pool, the other pool's first particle sits at slot `len()` with this pool's stale colour |
| Particles.Particles.Clear | src/particles.rs:159-166 | `clear` empties all six arrays |
| Particles.Particles.LifetimeRatio | src/particles.rs:170-174 | `lifetime_ratio(idx)` is `Num(0)` iff the total lifetime is nonzero, and NaN iff it is zero |
| Particles.Particles.Kill | src/particles.rs:196-203 | `kill(idx, end)` swaps slots `idx` and `end` of all six arrays, so the records are swapped whole |
| Particles.Particles.Flush | src/particles.rs:206-212 | `flush(len)` truncates five arrays and leaves `colors` as it was |
| Particles.Particles.Integrate | src/particles.rs:181-182 | slot `idx` moves by velocity times `dt` (rotation included) and ages by `dt`; nothing else changes |
| Particles.Particles.VisitSlot | src/particles.rs:181-188 | one loop iteration is `Visit` on the loop state, and colours past `len()` are untouched |
| Particles.Particles.AdvanceParticles | src/particles.rs:177-193 | the records become `Tick` of the old records. Colours keep their length: the active part is the swept colours, the surplus is untouched. With no deaths, only positions and ages change |
| Particles.Particles.Iter | src/particles.rs:128-133 | `iter()` starts at slot 0 |
| Particles.Particles.IterMut | src/particles.rs:135-140 | `iter_mut()` starts at slot 0 |
| Particles.Particles.Iterate | src/particles.rs:221-232 | running `iter()` to exhaustion yields `get(0)`, ..., `get(len()-1)` in order |
| Particles.Particles.ForEachMut | src/particles.rs:240-260 | a loop over `iter_mut()` rewrites every slot below `len()` once, and leaves the total lifetimes and surplus colours alone |
| Particles.ParticleIter.constructor | src/particles.rs:216-219 | the iterator is over the given pool, at slot 0 |
| Particles.ParticleIter.Next | src/particles.rs:223-231 | `next()` is `None` at or past `len()`; otherwise it is `get(idx)` and the cursor steps by one |
| Particles.ParticleIterMut.constructor | src/particles.rs:235-238 | the iterator is over the given pool, at slot 0 |
| Particles.ParticleIterMut.Next | src/particles.rs:242-259 | `next()` is `None` at or past `len()`; otherwise it hands out slot `idx` and the cursor steps by one |
| Particles.UpdateParticles | src/particles.rs:262-271 | every pool is advanced by the same `dt`: its records become `Tick` of its old records; its colours keep their length, with the active part the swept colours and the surplus untouched |
| Modifiers.DeltaVelocity | src/modifiers.rs:53 | the velocity delta has a zero `w` |
| Modifiers.ApplyConstantForce | src/modifiers.rs:52-57 | every velocity gains the same delta; the other five arrays are unchanged |
| Modifiers.ConstantForceKeepsSpin | src/modifiers.rs:53-55 | the angular velocity in `w` is untouched, and `x`, `y`, `z` grow by acceleration times `dt` |
| Modifiers.ConstantForceComposes | src/modifiers.rs:52-57 | a tick of `dt1` then one of `dt2` give the velocities of a single tick of `dt1 + dt2` |
| Modifiers.GravityPullsDown | src/modifiers.rs:52-57 | a downward acceleration over a positive tick lowers every vertical velocity and leaves the other components alone |
| Modifiers.ApplyColorByLifetime | src/modifiers.rs:30-38 | slot `idx < len()` gets `sample(lifetime_ratio(idx))`; surplus colours and the other arrays are unchanged |
| Modifiers.ColorByLifetimeIdempotent | src/modifiers.rs:30-38 | recolouring twice is recolouring once |
| Modifiers.ColorByLifetimeSamplesZero | src/modifiers.rs:34-35 | every recoloured slot gets `sample(0)` (or `sample(NaN)` for a zero total lifetime), whatever its age |
| Modifiers.LerpUnclampedIsLerp | src/modifiers.rs:102-103 | `lerp_unclamped(start, end, f)` is the weighted mean of the ends: `start` at 0 and `end` at 1 |
| Modifiers.ApplySizeOverLifetime | src/modifiers.rs:95-106 | slot `idx < len()` becomes the sampled range lerped by its factor; the other arrays are unchanged |
| Modifiers.SizeOverLifetimeEnds | src/modifiers.rs:99-103 | factor 0 gives the sampled range's start, factor 1 its end |
| Modifiers.Apply | src/modifiers.rs:30-57 | the dispatched `apply` keeps the pool valid and does what that modifier's `apply` does |
| Modifiers.ApplyParticleModifier | src/modifiers.rs:112-121 | every (modifier, pool) pair is applied with the shared `dt` |
| Render.ExtractParticles | src/render.rs:169-183 | one extracted copy per pool the query matched, in query order, holding that pool's positions, sizes and colours |
| Render.FlattenLength | src/render.rs:231-234 | the concatenation's length is the sum of the pools' lengths |
| Render.FlattenAt | src/render.rs:231-234 | element `k` of pool `i` sits at the sum of the earlier pools' lengths plus `k` |
| Render.SumLensAgree | src/render.rs:210-213 | pools with equal array lengths have equal summed lengths |
| Render.OfSnoc | src/render.rs:231-239 | one more pool adds its arrays to the end of each per-pool list |
| Render.PrefixStep | src/render.rs:231-239 | one more pool adds its positions to the total, its range to the ranges, and its arrays to each concatenation |
| Render.PositionsOfPrefix | src/render.rs:231 | the per-pool lists of a prefix of the pools are prefixes of the lists |
| Render.RangesArePrefixSums | src/render.rs:235-238 | range `i` starts at the number of positions in the earlier pools and spans pool `i`'s positions |
| Render.TotalMonotone | src/render.rs:210-213 | the totals of prefixes grow with the prefix |
| Render.RangesBetweenTotals | src/render.rs:235-238 | range `i` runs from the total before pool `i` to the total up to and including it |
| Render.RangesTile | src/render.rs:230-239 | the ranges are contiguous: the first starts at 0, each ends where the next starts, and the last ends at the total |
| Render.RangesDisjoint | src/render.rs:230-239 | no range overlaps a later one, and every range lies within `0..total` |
| Render.RangesPointAtOwnPositions | src/render.rs:231-238 | range `i` of the position buffer holds exactly pool `i`'s positions |
| Render.SizesAligned | src/render.rs:233-238 | when each pool has as many sizes as positions (as every valid pool does), range `i` of the size buffer holds exactly pool `i`'s sizes |
| Render.ColorsAlignedWhenLengthsAgree | src/render.rs:234-238 | when each pool has as many colours as positions, range `i` of the colour buffer holds exactly pool `i`'s colours |
| Render.SurplusColors | src/render.rs:210-238 | when no pool has fewer colours than positions, the colour buffer gets at least as many values as there are instances, and strictly more once any pool has a surplus |
| Render.SurplusBefore | src/render.rs:210-238 | the same for the pools before pool `i` |
| Render.ColorsShiftAfterFlush | src/render.rs:230-238 | with surplus colours (left by `flush`), colour `k` of pool `i` sits at its range's start plus `k` plus a shift: the surplus of the pools before `i`, never negative and positive once any earlier pool has a surplus |
| Render.ColorsShiftExample | src/render.rs:234-238 | an instance: with two one-particle pools and one stale colour in the first, the second pool's range `1..2` reads the stale colour, not its own |
| Render.BufferVec.constructor | src/render.rs:196-198 | a new buffer is empty |
| Render.BufferVec.ReserveAndClear | src/render.rs:220-228 | `reserve_and_clear` empties the buffer |
| Render.BufferVec.Push | src/render.rs:250 | `push` appends one value |
| Render.BatchCopy | src/render.rs:248-252 | `batch_copy` appends the whole source, in order |
| Render.ParticleMeta.constructor | src/render.rs:193-203 | `default()` has three empty, distinct buffers and no ranges |
| Render.TotalCount | src/render.rs:210-213 | the total is the sum of the pools' position counts, which is the length of the concatenated positions |
| Render.PrepareParticles | src/render.rs:205-246 | with total 0: the ranges are empty and the buffers untouched. Otherwise: each buffer is the in-order concatenation of the pools' arrays and the ranges are the instance ranges |
| Render.AppendPool | src/render.rs:231-238 | one pool's arrays are appended to the buffers and its range from `start` is pushed |
| Render.DrawInstances | src/render.rs:350-361 | a draw happens iff `draw_key < ranges.len()` |
| Render.DrawIssuesPoolRange | src/render.rs:350-360 | below 2^32 instances, drawing pool `i` issues exactly its range, one instance per position |

## Left out

- **GPU work.** Shaders, pipelines, bind groups, `queue_particles`, `ParticleNode`, the
  `write_to_staging_buffer` calls, the `pass.set_*` calls and `pass.draw` are foreign calls into
  wgpu and bevy. Only the packing and the range lookup are modelled. `ParticleMeta`'s
  `view_bind_group` and the `ExtractedParticles` resource wrapper are not modelled.
- **`f32` arithmetic.** It is modelled with reals, so there is no rounding, overflow or infinity.
  NaN is modelled only where the code divides zero by zero, in `lifetime_ratio`.
- **Host-library code.** `Color::as_rgba_f32` and `CurveFixed::sample` are library code. They are
  passed in as functions (`asRgba` and `sample`). `f32::lerp_unclamped` is library code too; the model
  assumes `start + f * (end - start)`. Over reals every usual lerp form is the same weighted mean
  (`Modifiers.LerpUnclampedIsLerp` proves it equal to `Curve.Lerp`), so the choice does not matter
  there.
- **The clock.** `Time::delta_seconds_f64() as f32` is the `dt` parameter.
- **Pool capacity.** `capacity`, `reserve` and `Vec::with_capacity` only affect allocation. They
  are not modelled, and the constructor's `capacity` argument is ignored.
- Render.PrepareParticles: `BufferVec` is library code that is not shown. Any capacity check its
  `push` makes against the `reserve_and_clear(total_count)` reservation is not modelled, and every
  push is assumed to succeed. The reservation counts positions only, while `batch_copy` pushes every
  colour. So when a pool carries surplus colours, the real `prepare_particles` may fail there instead
  of packing the colours as modelled. `Render.ColorsShiftAfterFlush` and `Render.ColorsShiftExample`
  rest on the same assumption.
- Render.ExtractParticles: the `ParticleMaterial` filter of the query at src/render.rs:169 is not
  modelled. The ECS query is not part of this model, so the method is handed the pools the query
  matched, in query order.
- **Panics.**
  - `Particles.Particles.Get`: a panicking `get` is modelled as `None`.
  - `Particles.Particles.GetMut`: a panicking `get_mut` is modelled as `ok == false` with nothing
    changed.
- Particles.Particles.LifetimeRatio: the out-of-range panic of `lifetime_ratio` (src/particles.rs:171)
  is not modelled. The member requires `idx < |start_lifetimes|`, which every caller in the modelled
  code (`ColorByLifetime::apply` and `SizeOverLifetime::apply`, with `idx < len()`) meets.
- **The unsafe `ParticleIterMut`.** Its raw-pointer references are modelled as handing out the slot
  index. A mutation through them is modelled as `GetMut` on that index (`ForEachMut`).
- **`Particles.UpdateParticles` and `Modifiers.ApplyParticleModifier`.** They run their pools one
  after the other instead of through `par_for_each_mut`. The pools must be distinct, as ECS components
  of different entities are.
- **`Modifiers.ApplySizeOverLifetime`.** The Rust code reads `particles.lerp_factors`, a field that
  `Particles` does not have. The model takes the factors as a parameter, which must cover `len()`.
  For the same reason `SizeOverLifetime` is not one of the `Modifiers.Modifier` cases.
- **`Render.DrawInstances` and `Render.PrepareParticles`.** The `u64` instance counter is unbounded
  here, so its wrap-around past 2^64 is not modelled. The `as u32` casts in `draw` are modelled as
  keeping the low 32 bits.
- **Files not modelled.** `src/emitter.rs` (a stub), `src/material.rs` (asset registration),
  `src/rendering.rs` (old GPU plumbing), `src/modifiers/mod.rs` (declarations only), `src/lib.rs`
  (plugin registration) and `examples/` are not part of this model. The other modifier types of
  `src/modifiers.rs` have no `apply` and are not modelled either.
