/** Render packing: every pool's arrays are copied out, concatenated into
    three shared instance buffers, and each pool's instances are recorded
    as one contiguous range of those buffers, which `draw` later looks up. */
module Render {
  import opened Wrappers
  import opened Vectors
  import opened Particles

  /** The copy of one pool taken for rendering. */
  datatype ExtractedParticle = ExtractedParticle(positions: seq<Vec4>, sizes: seq<real>, colors: seq<Vec4>)

  /** A half-open instance range `start..end`. */
  datatype Range = Range(start: nat, end: nat)

  /** `extract_particles`: one copy per pool, in query order, holding the
      pool's positions, sizes and colours as they are. */
  method ExtractParticles(pools: seq<Particles>) returns (extracted: seq<ExtractedParticle>)
    ensures |extracted| == |pools|
    ensures forall i :: 0 <= i < |pools| ==>
      extracted[i] == ExtractedParticle(pools[i].positions, pools[i].sizes, pools[i].colors)
  {
    extracted := [];
    for k := 0 to |pools|
      invariant |extracted| == k
      invariant forall i :: 0 <= i < k ==>
        extracted[i] == ExtractedParticle(pools[i].positions, pools[i].sizes, pools[i].colors)
    {
      var particles := pools[k];
      extracted := extracted + [ExtractedParticle(particles.positions, particles.sizes, particles.colors)];
    }
  }

  /** The concatenation of a list of runs, built from the front as the
      buffers are filled. */
  function Flatten<T>(xss: seq<seq<T>>): seq<T>
    decreases |xss|
  {
    if xss == [] then [] else Flatten(xss[..|xss| - 1]) + xss[|xss| - 1]
  }

  /** The summed length of a list of runs. */
  function SumLens<T>(xss: seq<seq<T>>): nat
    decreases |xss|
  {
    if xss == [] then 0 else SumLens(xss[..|xss| - 1]) + |xss[|xss| - 1]|
  }

  lemma {:induction false} FlattenLength<T>(xss: seq<seq<T>>)
    ensures |Flatten(xss)| == SumLens(xss)
    decreases |xss|
  {
    if xss != [] {
      FlattenLength(xss[..|xss| - 1]);
    }
  }

  /** Element `k` of run `i` sits in the concatenation at the summed length
      of the runs before it, plus `k`. */
  lemma {:induction false} FlattenAt<T>(xss: seq<seq<T>>, i: nat, k: nat)
    requires i < |xss| && k < |xss[i]|
    ensures SumLens(xss[..i]) + k < |Flatten(xss)|
    ensures Flatten(xss)[SumLens(xss[..i]) + k] == xss[i][k]
    decreases |xss|
  {
    var pre := xss[..|xss| - 1];
    FlattenLength(xss);
    FlattenLength(pre);
    if i == |xss| - 1 {
      assert xss[..i] == pre;
    } else {
      assert pre[..i] == xss[..i] && pre[i] == xss[i];
      FlattenAt(pre, i, k);
    }
  }

  /** Two lists of runs with the same run lengths have the same summed length. */
  lemma {:induction false} SumLensAgree<T, U>(xss: seq<seq<T>>, yss: seq<seq<U>>)
    requires |xss| == |yss|
    requires forall i :: 0 <= i < |xss| ==> |xss[i]| == |yss[i]|
    ensures SumLens(xss) == SumLens(yss)
    decreases |xss|
  {
    if xss != [] {
      SumLensAgree(xss[..|xss| - 1], yss[..|yss| - 1]);
    }
  }

  function PositionsOf(ex: seq<ExtractedParticle>): (r: seq<seq<Vec4>>)
    ensures |r| == |ex|
  {
    seq(|ex|, i requires 0 <= i < |ex| => ex[i].positions)
  }

  function SizesOf(ex: seq<ExtractedParticle>): (r: seq<seq<real>>)
    ensures |r| == |ex|
  {
    seq(|ex|, i requires 0 <= i < |ex| => ex[i].sizes)
  }

  function ColorsOf(ex: seq<ExtractedParticle>): (r: seq<seq<Vec4>>)
    ensures |r| == |ex|
  {
    seq(|ex|, i requires 0 <= i < |ex| => ex[i].colors)
  }

  /** `total_count`: the number of instances, counted by positions only. */
  function Total(ex: seq<ExtractedParticle>): nat
  {
    SumLens(PositionsOf(ex))
  }

  /** One range per pool, in pool order: each starts where the previous
      pool's positions ended and spans the pool's positions. */
  function InstanceRanges(ex: seq<ExtractedParticle>): (rs: seq<Range>)
    ensures |rs| == |ex|
    decreases |ex|
  {
    if ex == [] then []
    else
      var pre := ex[..|ex| - 1];
      InstanceRanges(pre) + [Range(Total(pre), Total(pre) + |ex[|ex| - 1].positions|)]
  }

  /** Taking one more pool extends each per-pool list by that pool's entry. */
  lemma OfSnoc(ex: seq<ExtractedParticle>, i: nat)
    requires i < |ex|
    ensures PositionsOf(ex[..i + 1]) == PositionsOf(ex[..i]) + [ex[i].positions]
    ensures SizesOf(ex[..i + 1]) == SizesOf(ex[..i]) + [ex[i].sizes]
    ensures ColorsOf(ex[..i + 1]) == ColorsOf(ex[..i]) + [ex[i].colors]
    ensures ex[..i + 1][..i] == ex[..i]
  {
  }

  /** One more pool adds its positions to the total, its range to the
      ranges and its arrays to the end of each concatenation. */
  lemma PrefixStep(ex: seq<ExtractedParticle>, i: nat)
    requires i < |ex|
    ensures Total(ex[..i + 1]) == Total(ex[..i]) + |ex[i].positions|
    ensures InstanceRanges(ex[..i + 1])
         == InstanceRanges(ex[..i]) + [Range(Total(ex[..i]), Total(ex[..i]) + |ex[i].positions|)]
    ensures Flatten(PositionsOf(ex[..i + 1])) == Flatten(PositionsOf(ex[..i])) + ex[i].positions
    ensures Flatten(SizesOf(ex[..i + 1])) == Flatten(SizesOf(ex[..i])) + ex[i].sizes
    ensures Flatten(ColorsOf(ex[..i + 1])) == Flatten(ColorsOf(ex[..i])) + ex[i].colors
  {
    OfSnoc(ex, i);
    assert PositionsOf(ex[..i + 1])[..i] == PositionsOf(ex[..i]);
    assert SizesOf(ex[..i + 1])[..i] == SizesOf(ex[..i]);
    assert ColorsOf(ex[..i + 1])[..i] == ColorsOf(ex[..i]);
  }

  lemma PositionsOfPrefix(ex: seq<ExtractedParticle>, i: nat)
    requires i <= |ex|
    ensures PositionsOf(ex[..i]) == PositionsOf(ex)[..i]
    ensures ColorsOf(ex[..i]) == ColorsOf(ex)[..i]
  {
  }

  /** Range `i` starts at the number of positions of the pools before `i`
      and has as many instances as pool `i` has positions. */
  lemma {:induction false} RangesArePrefixSums(ex: seq<ExtractedParticle>, i: nat)
    requires i < |ex|
    ensures InstanceRanges(ex)[i] == Range(Total(ex[..i]), Total(ex[..i]) + |ex[i].positions|)
    decreases |ex|
  {
    var pre := ex[..|ex| - 1];
    if i < |ex| - 1 {
      RangesArePrefixSums(pre, i);
      assert pre[..i] == ex[..i];
    } else {
      assert pre == ex[..i];
    }
  }

  /** The totals of prefixes grow with the prefix. */
  lemma {:induction false} TotalMonotone(ex: seq<ExtractedParticle>, i: nat, j: nat)
    requires i <= j <= |ex|
    ensures Total(ex[..i]) <= Total(ex[..j])
    decreases j - i
  {
    if i < j {
      TotalMonotone(ex, i, j - 1);
      OfSnoc(ex, j - 1);
    }
  }

  /** Range `i` runs from the total of the pools before `i` to the total
      of the pools up to and including `i`. */
  lemma RangesBetweenTotals(ex: seq<ExtractedParticle>)
    ensures forall i :: 0 <= i < |ex| ==> InstanceRanges(ex)[i] == Range(Total(ex[..i]), Total(ex[..i + 1]))
  {
    forall i | 0 <= i < |ex|
      ensures InstanceRanges(ex)[i] == Range(Total(ex[..i]), Total(ex[..i + 1]))
    {
      RangesArePrefixSums(ex, i);
      OfSnoc(ex, i);
    }
  }

  /** The ranges tile `0..total` in pool order: the first starts at 0,
      each ends where the next starts, and the last ends at the total. */
  lemma RangesTile(ex: seq<ExtractedParticle>)
    ensures var rs := InstanceRanges(ex);
      (|ex| > 0 ==> rs[0].start == 0 && rs[|ex| - 1].end == Total(ex)) &&
      (forall i :: 0 <= i < |ex| - 1 ==> rs[i].end == rs[i + 1].start)
  {
    RangesBetweenTotals(ex);
    assert ex[..|ex|] == ex;
    if |ex| > 0 {
      assert ex[..0] == [];
    }
  }

  /** No range overlaps a later one, and every range lies within `0..total`. */
  lemma RangesDisjoint(ex: seq<ExtractedParticle>)
    ensures var rs := InstanceRanges(ex);
      (forall i, j :: 0 <= i < j < |ex| ==> rs[i].end <= rs[j].start) &&
      (forall i :: 0 <= i < |ex| ==> rs[i].start <= rs[i].end <= Total(ex))
  {
    var rs := InstanceRanges(ex);
    RangesBetweenTotals(ex);
    forall i, j | 0 <= i < j < |ex| ensures rs[i].end <= rs[j].start {
      RangesArePrefixSums(ex, j);
      TotalMonotone(ex, i + 1, j);
    }
    forall i | 0 <= i < |ex| ensures rs[i].start <= rs[i].end <= Total(ex) {
      TotalMonotone(ex, i, i + 1);
      TotalMonotone(ex, i + 1, |ex|);
      assert ex[..|ex|] == ex;
    }
  }

  /** Range `i` of the position buffer holds exactly pool `i`'s positions. */
  lemma RangesPointAtOwnPositions(ex: seq<ExtractedParticle>, i: nat, k: nat)
    requires i < |ex| && k < |ex[i].positions|
    ensures InstanceRanges(ex)[i].start + k < |Flatten(PositionsOf(ex))|
    ensures Flatten(PositionsOf(ex))[InstanceRanges(ex)[i].start + k] == ex[i].positions[k]
  {
    RangesArePrefixSums(ex, i);
    PositionsOfPrefix(ex, i);
    FlattenAt(PositionsOf(ex), i, k);
  }

  /** When every pool has as many sizes as positions, as a valid pool
      does, range `i` of the size buffer holds exactly pool `i`'s sizes. */
  lemma SizesAligned(ex: seq<ExtractedParticle>, i: nat, k: nat)
    requires forall j :: 0 <= j < |ex| ==> |ex[j].sizes| == |ex[j].positions|
    requires i < |ex| && k < |ex[i].positions|
    ensures InstanceRanges(ex)[i].start + k < |Flatten(SizesOf(ex))|
    ensures Flatten(SizesOf(ex))[InstanceRanges(ex)[i].start + k] == ex[i].sizes[k]
  {
    RangesArePrefixSums(ex, i);
    PositionsOfPrefix(ex, i);
    assert SizesOf(ex[..i]) == SizesOf(ex)[..i];
    SumLensAgree(SizesOf(ex)[..i], PositionsOf(ex)[..i]);
    FlattenAt(SizesOf(ex), i, k);
  }

  /** When every pool has as many colours as positions, range `i` of the
      colour buffer holds exactly pool `i`'s colours. */
  lemma ColorsAlignedWhenLengthsAgree(ex: seq<ExtractedParticle>, i: nat, k: nat)
    requires forall j :: 0 <= j < |ex| ==> |ex[j].colors| == |ex[j].positions|
    requires i < |ex| && k < |ex[i].positions|
    ensures InstanceRanges(ex)[i].start + k < |Flatten(ColorsOf(ex))|
    ensures Flatten(ColorsOf(ex))[InstanceRanges(ex)[i].start + k] == ex[i].colors[k]
  {
    RangesArePrefixSums(ex, i);
    PositionsOfPrefix(ex, i);
    SumLensAgree(ColorsOf(ex)[..i], PositionsOf(ex)[..i]);
    FlattenAt(ColorsOf(ex), i, k);
  }

  /** Pools that hold at least as many colours as positions put at least
      as many values in the colour buffer as there are instances, and
      strictly more once any pool holds a surplus colour. */
  lemma {:induction false} SurplusColors(ex: seq<ExtractedParticle>)
    requires forall j :: 0 <= j < |ex| ==> |ex[j].positions| <= |ex[j].colors|
    ensures Total(ex) <= SumLens(ColorsOf(ex))
    ensures (exists j :: 0 <= j < |ex| && |ex[j].positions| < |ex[j].colors|) ==> Total(ex) < SumLens(ColorsOf(ex))
    decreases |ex|
  {
    if ex != [] {
      var n := |ex| - 1;
      var pre := ex[..n];
      SurplusColors(pre);
      OfSnoc(ex, n);
      assert ex[..n + 1] == ex;
      assert PositionsOf(ex)[..n] == PositionsOf(pre);
      assert ColorsOf(ex)[..n] == ColorsOf(pre);
      if exists j :: 0 <= j < |ex| && |ex[j].positions| < |ex[j].colors| {
        var j :| 0 <= j < |ex| && |ex[j].positions| < |ex[j].colors|;
        if j < n {
          assert pre[j] == ex[j];
        }
      }
    }
  }

  /** After a tick with deaths a pool keeps surplus colours (`flush` does not
      truncate them), and `batch_copy` still packs every one of them. Colour
      `k` of pool `i` then sits in the colour buffer not at its range's start
      plus `k` but `shift` slots later, where `shift` is the number of surplus
      colours of the pools before `i`: never negative, and positive as soon
      as one earlier pool has a surplus, so pool `i`'s instances are drawn
      with colours that belong to earlier slots. */
  lemma ColorsShiftAfterFlush(ex: seq<ExtractedParticle>, i: nat, k: nat)
    requires forall j :: 0 <= j < |ex| ==> |ex[j].positions| <= |ex[j].colors|
    requires i < |ex| && k < |ex[i].colors|
    ensures var shift := SumLens(ColorsOf(ex[..i])) - Total(ex[..i]);
      shift >= 0 &&
      ((exists j :: 0 <= j < i && |ex[j].positions| < |ex[j].colors|) ==> shift > 0) &&
      InstanceRanges(ex)[i].start + shift + k < |Flatten(ColorsOf(ex))| &&
      Flatten(ColorsOf(ex))[InstanceRanges(ex)[i].start + shift + k] == ex[i].colors[k]
  {
    SurplusBefore(ex, i);
    RangesArePrefixSums(ex, i);
    PositionsOfPrefix(ex, i);
    FlattenAt(ColorsOf(ex), i, k);
  }

  /** `SurplusColors` for the pools before pool `i`. */
  lemma SurplusBefore(ex: seq<ExtractedParticle>, i: nat)
    requires forall j :: 0 <= j < |ex| ==> |ex[j].positions| <= |ex[j].colors|
    requires i <= |ex|
    ensures Total(ex[..i]) <= SumLens(ColorsOf(ex[..i]))
    ensures (exists j :: 0 <= j < i && |ex[j].positions| < |ex[j].colors|) ==> Total(ex[..i]) < SumLens(ColorsOf(ex[..i]))
  {
    var pre := ex[..i];
    SurplusColors(pre);
    if exists j :: 0 <= j < i && |ex[j].positions| < |ex[j].colors| {
      var j :| 0 <= j < i && |ex[j].positions| < |ex[j].colors|;
      assert pre[j] == ex[j];
    }
  }

  /** An instance of `ColorsShiftAfterFlush`: two one-particle pools, the
      first with one stale colour left by `flush`. The second pool's range
      is `1..2`, and slot 1 of the colour buffer holds the stale colour, not
      the second pool's own. */
  lemma ColorsShiftExample(p: Vec4, q: Vec4, c0: Vec4, stale: Vec4, c1: Vec4)
    requires stale != c1
    ensures var ex := [ExtractedParticle([p], [1.0], [c0, stale]), ExtractedParticle([q], [1.0], [c1])];
      InstanceRanges(ex)[1] == Range(1, 2) &&
      Flatten(ColorsOf(ex)) == [c0, stale, c1] &&
      Flatten(ColorsOf(ex))[InstanceRanges(ex)[1].start] != ex[1].colors[0]
  {
    var ex := [ExtractedParticle([p], [1.0], [c0, stale]), ExtractedParticle([q], [1.0], [c1])];
    assert ex[..1] == [ex[0]] && ex[..1][..0] == [];
    assert PositionsOf(ex[..1]) == [[p]];
    assert PositionsOf(ex[..1])[..0] == [];
    var cs := ColorsOf(ex);
    assert cs == [[c0, stale], [c1]];
    assert cs[..1] == [[c0, stale]] && cs[..1][..0] == [];
    assert Flatten(cs[..1]) == [c0, stale];
  }

  /** bevy's `BufferVec<T>`: a growable list of values staged for the GPU.
      Only its contents are modelled. */
  class BufferVec<T> {
    var values: seq<T>

    /** `BufferVec::new(usage)`: empty. */
    constructor ()
      ensures values == []
    {
      values := [];
    }

    /** `reserve_and_clear(capacity, device)`: drops every value. */
    method ReserveAndClear(capacity: nat)
      modifies this
      ensures values == []
    {
      values := [];
    }

    /** `push(value)`: appends one value. */
    method Push(value: T)
      modifies this
      ensures values == old(values) + [value]
    {
      values := values + [value];
    }
  }

  /** `batch_copy(src, dst)`: pushes every element of `src` in order. */
  method BatchCopy<T>(src: seq<T>, dst: BufferVec<T>)
    modifies dst
    ensures dst.values == old(dst.values) + src
  {
    for i := 0 to |src|
      invariant dst.values == old(dst.values) + src[..i]
    {
      dst.Push(src[i]);
      assert src[..i + 1] == src[..i] + [src[i]];
    }
  }

  /** `ParticleMeta`: the three shared instance buffers and the per-pool
      instance ranges (the bind group is GPU state and is not modelled). */
  class ParticleMeta {
    const positions: BufferVec<Vec4>
    const sizes: BufferVec<real>
    const colors: BufferVec<Vec4>
    var ranges: seq<Range>

    /** The two `Vec4` buffers are distinct objects. */
    ghost predicate Valid()
      reads this
    {
      positions != colors
    }

    /** `ParticleMeta::default()`: empty buffers and no ranges. */
    constructor ()
      ensures Valid() && fresh(positions) && fresh(sizes) && fresh(colors)
      ensures positions.values == [] && sizes.values == [] && colors.values == [] && ranges == []
    {
      positions := new BufferVec();
      sizes := new BufferVec();
      colors := new BufferVec();
      ranges := [];
    }
  }

  /** The counting loop of `prepare_particles`. */
  method TotalCount(ex: seq<ExtractedParticle>) returns (total: nat)
    ensures total == Total(ex)
    ensures total == |Flatten(PositionsOf(ex))|
  {
    total := 0;
    for i := 0 to |ex|
      invariant total == Total(ex[..i])
    {
      OfSnoc(ex, i);
      total := total + |ex[i].positions|;
    }
    assert ex[..|ex|] == ex;
    FlattenLength(PositionsOf(ex));
  }

  /** `prepare_particles`: clears the ranges; with no instances at all it
      stops there and leaves the buffers as they were. Otherwise each
      buffer becomes the in-order concatenation of every pool's array, and
      the ranges are the pools' instance ranges. */
  method PrepareParticles(meta: ParticleMeta, ex: seq<ExtractedParticle>)
    requires meta.Valid()
    modifies meta, meta.positions, meta.sizes, meta.colors
    ensures Total(ex) == 0 ==>
      meta.ranges == [] && meta.positions.values == old(meta.positions.values) &&
      meta.sizes.values == old(meta.sizes.values) && meta.colors.values == old(meta.colors.values)
    ensures Total(ex) != 0 ==>
      meta.ranges == InstanceRanges(ex) &&
      meta.positions.values == Flatten(PositionsOf(ex)) &&
      meta.sizes.values == Flatten(SizesOf(ex)) &&
      meta.colors.values == Flatten(ColorsOf(ex))
  {
    var totalCount := TotalCount(ex);
    meta.ranges := [];
    if totalCount == 0 {
      return;
    }
    meta.positions.ReserveAndClear(totalCount);
    meta.sizes.ReserveAndClear(totalCount);
    meta.colors.ReserveAndClear(totalCount);
    var start: nat := 0;
    for i := 0 to |ex|
      invariant start == Total(ex[..i])
      invariant meta.ranges == InstanceRanges(ex[..i])
      invariant meta.positions.values == Flatten(PositionsOf(ex[..i]))
      invariant meta.sizes.values == Flatten(SizesOf(ex[..i]))
      invariant meta.colors.values == Flatten(ColorsOf(ex[..i]))
    {
      PrefixStep(ex, i);
      AppendPool(meta, ex[i], start);
      start := start + |ex[i].positions|;
    }
    assert ex[..|ex|] == ex;
  }

  /** The body of the packing loop for one pool: its three arrays are
      copied to the ends of the buffers and its range, starting at `start`,
      is pushed. */
  method AppendPool(meta: ParticleMeta, particle: ExtractedParticle, start: nat)
    requires meta.Valid()
    modifies meta, meta.positions, meta.sizes, meta.colors
    ensures meta.ranges == old(meta.ranges) + [Range(start, start + |particle.positions|)]
    ensures meta.positions.values == old(meta.positions.values) + particle.positions
    ensures meta.sizes.values == old(meta.sizes.values) + particle.sizes
    ensures meta.colors.values == old(meta.colors.values) + particle.colors
  {
    BatchCopy(particle.positions, meta.positions);
    BatchCopy(particle.sizes, meta.sizes);
    BatchCopy(particle.colors, meta.colors);
    meta.ranges := meta.ranges + [Range(start, start + |particle.positions|)];
  }

  const U32_MODULUS: nat := 0x1_0000_0000

  /** The instances `draw` issues for `drawKey`: the key's range with both
      ends cast `as u32` (keeping the low 32 bits), or nothing when there is
      no range for the key. */
  function DrawInstances(ranges: seq<Range>, drawKey: nat): (r: Option<Range>)
    ensures r.Some? <==> drawKey < |ranges|
  {
    if drawKey < |ranges| then
      Some(Range(ranges[drawKey].start % U32_MODULUS, ranges[drawKey].end % U32_MODULUS))
    else
      None
  }

  /** While the total stays below 2^32 the casts lose nothing: drawing pool
      `i` issues exactly its range, one instance per position. */
  lemma DrawIssuesPoolRange(ex: seq<ExtractedParticle>, i: nat)
    requires i < |ex| && Total(ex) < U32_MODULUS
    ensures DrawInstances(InstanceRanges(ex), i) == Some(InstanceRanges(ex)[i])
    ensures InstanceRanges(ex)[i].end - InstanceRanges(ex)[i].start == |ex[i].positions|
  {
    RangesDisjoint(ex);
    RangesArePrefixSums(ex, i);
  }
}
