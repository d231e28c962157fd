/** photonzombie.world: the older coarse-graining, which returns the block centres as
    two axis arrays, and `create_particles`, which places particles at cells drawn
    with Boltzmann weights. The weights w = exp(beta·diff) and the sampled flat
    indexes are inputs. */
module ZombieWorld {
  import opened Common
  import opened Raster
  import opened ParticlesUtil

  /** `np.arange(0, m·c, c) + c/2`: the centres of m blocks along one axis. */
  function AxisCentres(m: nat, c: nat): (r: seq<real>)
    ensures |r| == m
    ensures forall k :: 0 <= k < m ==> r[k] == (k * c) as real + c as real / 2.0
  {
    seq(m, k requires 0 <= k < m => (k * c) as real + c as real / 2.0)
  }

  /** `coarse_grain(some_array, coarseness)`: the centres along each axis, and the block
      sums of the zero-padded array. */
  function CoarseGrainAxes(a: seq<seq<real>>, c: nat): (r: (seq<real>, seq<real>, seq<seq<real>>))
    requires c > 0 && IsMatrix(a)
    ensures |r.0| == Blocks(|a|, c) && |r.1| == Blocks(Width(a), c)
    ensures IsGrid(r.2, |r.0|, |r.1|)
  {
    (AxisCentres(Blocks(|a|, c), c), AxisCentres(Blocks(Width(a), c), c), CoarseGrain(a, c).1)
  }

  /** The two copies agree: the same block sums, and the row-major centre list of the
      newer copy is the grid the two axis arrays span. */
  lemma CoarseGrainAxesAgree(a: seq<seq<real>>, c: nat, k: nat)
    requires c > 0 && IsMatrix(a)
    requires k < Blocks(|a|, c) * Blocks(Width(a), c)
    ensures CoarseGrainAxes(a, c).2 == CoarseGrain(a, c).1
    ensures DecodeFlat(k, Blocks(Width(a), c)).0 < Blocks(|a|, c)
    ensures CoarseGrain(a, c).0[k] == (CoarseGrainAxes(a, c).0[DecodeFlat(k, Blocks(Width(a), c)).0],
                                       CoarseGrainAxes(a, c).1[DecodeFlat(k, Blocks(Width(a), c)).1])
  {
    var n := Blocks(Width(a), c);
    DecodeFlatInGrid(k, Blocks(|a|, c), n);
  }

  /** The block sums of this copy also keep the input's total. */
  lemma CoarseGrainAxesTotal(a: seq<seq<real>>, c: nat)
    requires c > 0 && IsMatrix(a)
    ensures Total(CoarseGrainAxes(a, c).2) == Total(a)
  {
    CoarseGrainTotal(a, c);
  }

  /** How many particles `create_particles` makes: the given count, or
      `int(round(particle_density · Σw))`. */
  function ParticleCount(num: Option<int>, density: real, w: seq<seq<real>>): (n: int)
    ensures num.Some? ==> n == num.value
    ensures num.None? ==> n as real - 0.5 <= density * Total(w) <= n as real + 0.5
  {
    if num.Some? then num.value else Round(density * Total(w))
  }

  /** Whether the weights offer no cell to sample from. */
  predicate NoCells(w: seq<seq<real>>) {
    |w| == 0 || Width(w) == 0
  }

  /** `create_particles` as written: with at least one particle to make, drawing from
      an empty weight array raises ValueError, and otherwise the first particle is
      built through the module name `particle`, which this file never imports, so it
      raises NameError. */
  function CreateParticlesAsWritten(w: seq<seq<real>>, density: real, num: Option<int>): (r: Result<seq<(nat, nat)>>)
    ensures r.Ok? <==> ParticleCount(num, density, w) <= 0
    ensures r.Ok? ==> r.value == []
    ensures r.Err? ==> (r.error == ValueError <==> NoCells(w))
  {
    var count := ParticleCount(num, density, w);
    if count <= 0 then Ok([])
    else if NoCells(w) then Err(ValueError)
    else Err(NameError)
  }

  /** A single particle is enough to hit the missing name. */
  lemma CreateParticlesAsWrittenFails()
    ensures CreateParticlesAsWritten([[1.0]], 0.0, Some(1)) == Err(NameError)
  {
  }

  /** `create_particles` with the particle module in scope: the k-th particle starts at
      the cell that the k-th sampled flat index `draw(k)` decodes to. The Particle
      objects themselves and their 50 equilibration steps are not built here; the list
      holds each particle's starting cell. */
  method CreateParticles(w: seq<seq<real>>, density: real, num: Option<int>, draw: int -> nat)
    returns (r: Result<seq<(nat, nat)>>)
    requires IsMatrix(w)
    ensures var count := ParticleCount(num, density, w);
            (r.Err? <==> count > 0 && NoCells(w))
            && (r.Err? ==> r.error == ValueError)
            && (r.Ok? ==> |r.value| == Max(0, count))
            && (r.Ok? && |r.value| > 0 ==> (
                  Width(w) > 0
                  && forall k :: 0 <= k < |r.value| ==> (
                       r.value[k] == DecodeFlat(draw(k), Width(w))
                       && FlatIndex(r.value[k].0, r.value[k].1, Width(w)) == draw(k))))
  {
    var count := ParticleCount(num, density, w);
    if count <= 0 {
      return Ok([]);
    }
    if NoCells(w) {
      return Err(ValueError);
    }
    var ncols := Width(w);
    var starts: seq<(nat, nat)> := [];
    for i := 0 to count
      invariant |starts| == i
      invariant forall k :: 0 <= k < i ==> starts[k] == DecodeFlat(draw(k), ncols)
    {
      var position := draw(i);
      var y := position % ncols;
      var x := Trunc((position - y) as real / ncols as real);
      starts := starts + [(x, y)];
    }
    return Ok(starts);
  }
}
