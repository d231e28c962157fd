/** pyfx.physics.ParticleCollection: a pool of (physical particle, optional sprite) pairs
    with validated settings. The random draws and the physics behind each new particle
    are inputs: `gen(k)` is the k-th particle a call generates. */
module ParticleCollection {
  import opened Common
  import opened ParticlePool

  /** What the `velocity_dist` setter can be given: a number, or a list-like of numbers. */
  datatype VelocityArg = VNumber(x: real) | VSeq(items: seq<real>)

  /** A pool entry: the physical particle's position and, when a sprite generator made
      one, the sprite's `out_of_frame` flag. */
  datatype Entry = Entry(coord: (real, real), sprite: Option<bool>)

  /** Whether `purge_invisible` removes an entry: by its sprite's flag when it has a
      sprite, otherwise when a coordinate is negative or beyond the box. */
  predicate Invisible(e: Entry, dimensions: (int, int)) {
    if e.sprite.Some? then e.sprite.value
    else e.coord.0 < 0.0 || e.coord.1 < 0.0 || e.coord.0 > dimensions.0 as real || e.coord.1 > dimensions.1 as real
  }

  function VisibleIn(dimensions: (int, int)): Entry -> bool {
    e => !Invisible(e, dimensions)
  }

  function InvisibleIn(dimensions: (int, int)): Entry -> bool {
    e => Invisible(e, dimensions)
  }

  /** The inputs the setter means to accept: a non-negative standard deviation, or a
      (mean_x, sd_x, mean_y, sd_y) list with both deviations non-negative. */
  predicate Accepted(v: VelocityArg) {
    match v
    case VNumber(x) => x >= 0.0
    case VSeq(items) => |items| == 4 && items[1] >= 0.0 && items[3] >= 0.0
  }

  /** The `velocity_dist` setter as written. A wrong-length list leaves the new list
      empty, so reading its second entry raises IndexError; a negative deviation reaches
      the misspelt `mangled = rue` and raises NameError. The ValueError it announces is
      never raised. */
  function VelocityDistAsWritten(v: VelocityArg): (r: Result<seq<real>>)
    ensures r.Ok? <==> Accepted(v)
    ensures r.Err? ==> (r.error == IndexError <==> v.VSeq? && |v.items| != 4)
    ensures r.Err? ==> r.error == IndexError || r.error == NameError
  {
    match v
    case VNumber(x) => if x < 0.0 then Err(NameError) else Ok([0.0, x, 0.0, x])
    case VSeq(items) =>
      if |items| != 4 then Err(IndexError)
      else if items[1] < 0.0 || items[3] < 0.0 then Err(NameError)
      else Ok(items)
  }

  /** The setter as intended: every uninterpretable input is a ValueError; a number v
      becomes zero means with deviation v on both axes, and a list is stored in order. */
  function VelocityDist(v: VelocityArg): (r: Result<seq<real>>)
    ensures r.Ok? <==> Accepted(v)
    ensures r.Err? ==> r.error == ValueError
    ensures r.Ok? ==> |r.value| == 4 && r.value[1] >= 0.0 && r.value[3] >= 0.0
    ensures r.Ok? && v.VNumber? ==> r.value[0] == 0.0 && r.value[2] == 0.0 && r.value[1] == v.x && r.value[3] == v.x
    ensures r.Ok? && v.VSeq? ==> r.value == v.items
  {
    if Accepted(v) then
      match v
      case VNumber(x) => Ok([0.0, x, 0.0, x])
      case VSeq(items) => Ok(items)
    else Err(ValueError)
  }

  /** Both setters store the same list; they differ only in the exception raised. */
  lemma VelocityDistAgrees(v: VelocityArg)
    ensures VelocityDistAsWritten(v).Ok? <==> VelocityDist(v).Ok?
    ensures VelocityDist(v).Ok? ==> VelocityDistAsWritten(v).value == VelocityDist(v).value
    ensures VelocityDistAsWritten(v).Err? ==> VelocityDistAsWritten(v).error != ValueError
  {
  }

  /** Inputs that show the discrepancy: a negative deviation and a two-entry list. */
  lemma VelocityDistWrongErrors()
    ensures VelocityDistAsWritten(VNumber(-1.0)) == Err(NameError)
    ensures VelocityDistAsWritten(VSeq([0.0, 1.0])) == Err(IndexError)
    ensures VelocityDist(VNumber(-1.0)) == Err(ValueError)
    ensures VelocityDist(VSeq([0.0, 1.0])) == Err(ValueError)
  {
  }

  /** Storing what the getter returns succeeds and stores it again. */
  lemma VelocityDistStable(v: VelocityArg)
    requires VelocityDist(v).Ok?
    ensures VelocityDist(VSeq(VelocityDist(v).value)) == VelocityDist(v)
  {
  }

  /** `purge_invisible` keeps exactly the visible entries. */
  lemma PurgeKeepsVisible(ps: seq<Entry>, dimensions: (int, int), e: Entry)
    ensures e in Filter(ps, VisibleIn(dimensions)) <==> e in ps && !Invisible(e, dimensions)
  {
    FilterMembership(ps, VisibleIn(dimensions), e);
  }

  /** ... and what it keeps and what it drops together are the pool it started with. */
  lemma PurgeSplits(ps: seq<Entry>, dimensions: (int, int))
    ensures multiset(Filter(ps, VisibleIn(dimensions))) + multiset(Filter(ps, InvisibleIn(dimensions))) == multiset(ps)
  {
    FilterComplement(ps, VisibleIn(dimensions), InvisibleIn(dimensions));
  }

  class ParticleCollection {
    var numParticles: int
    var dimensions: (int, int)
    var velocityDist: seq<real>
    var particleDensity: real
    var radiusPareto: real
    var radiusMax: real
    var sampleWhichPotential: int
    var purge: bool
    var numEquilibrateSteps: int
    var particles: seq<Entry>

    /** The stored velocity distribution is one the setter accepts. */
    ghost predicate Valid()
      reads this`velocityDist
    {
      Accepted(VSeq(velocityDist))
    }

    /** `ParticleCollection(...)` once the `velocity_dist` setter has accepted its input
        (see `NewParticleCollection`); the count is rounded by its setter. The
        conversions `float(...)`, `int(...)` and `bool(...)` are already applied. */
    constructor(numParticles: real, dimensions: (int, int), velocity: VelocityArg, particleDensity: real,
                radiusPareto: real, radiusMax: real, sampleWhichPotential: int, purge: bool, numEquilibrateSteps: int)
      requires Accepted(velocity)
      ensures this.numParticles == Round(numParticles) && this.dimensions == dimensions
      ensures velocityDist == VelocityDist(velocity).value && Valid()
      ensures this.particleDensity == particleDensity && this.radiusPareto == radiusPareto && this.radiusMax == radiusMax
      ensures this.sampleWhichPotential == sampleWhichPotential && this.purge == purge
      ensures this.numEquilibrateSteps == numEquilibrateSteps && particles == []
    {
      this.numParticles := Round(numParticles);
      this.dimensions := dimensions;
      velocityDist := VelocityDist(velocity).value;
      this.particleDensity := particleDensity;
      this.radiusPareto := radiusPareto;
      this.radiusMax := radiusMax;
      this.sampleWhichPotential := sampleWhichPotential;
      this.purge := purge;
      this.numEquilibrateSteps := numEquilibrateSteps;
      particles := [];
    }

    /** The `num_particles` setter: `int(round(n))`. */
    method SetNumParticles(n: real)
      modifies this`numParticles
      ensures numParticles == Round(n)
      ensures numParticles as real - 0.5 <= n <= numParticles as real + 0.5
    {
      numParticles := Round(n);
    }

    /** The `velocity_dist` setter, raising ValueError for what it cannot interpret. */
    method SetVelocityDist(v: VelocityArg) returns (r: Outcome)
      modifies this`velocityDist
      ensures r == Pass <==> Accepted(v)
      ensures r == Pass ==> velocityDist == VelocityDist(v).value
      ensures r != Pass ==> r == Fail(ValueError) && velocityDist == old(velocityDist)
      ensures old(Valid()) ==> Valid()
    {
      var d := VelocityDist(v);
      if d.Err? {
        return Fail(d.error);
      }
      velocityDist := d.value;
      return Pass;
    }

    /** The radius `_generate_random_particle` gives a particle, from its pareto draw. */
    function GeneratedRadius(draw: real): (r: real)
      reads this`radiusMax
      ensures r <= radiusMax
      ensures draw >= 0.0 && radiusMax >= 1.0 ==> 1.0 <= r
    {
      ClampedRadius(draw, radiusMax)
    }

    /** `construct_particles(num_particles)`: a given count replaces `_num_particles` (it
        does not pass through the rounding setter), and then that many particles are
        appended to the pool; a negative count appends none. */
    method ConstructParticles(n: Option<int>, gen: int -> Entry)
      modifies this`numParticles, this`particles
      ensures numParticles == (if n.Some? then n.value else old(numParticles))
      ensures particles == old(particles) + seq(Max(0, numParticles), gen)
    {
      if n.Some? {
        numParticles := n.value;
      }
      var k := Max(0, numParticles);
      var i := 0;
      ghost var start := particles;
      while i < k
        modifies this`particles
        invariant 0 <= i <= k
        invariant particles == start + seq(i, gen)
      {
        particles := particles + [gen(i)];
        assert seq(i + 1, gen) == seq(i, gen) + [gen(i)];
        i := i + 1;
      }
    }

    /** `purge_invisible`: a reverse pass popping every invisible entry, which leaves the
        visible ones in their order. */
    method PurgeInvisible()
      modifies this`particles
      ensures particles == Filter(old(particles), VisibleIn(dimensions))
    {
      ghost var s := particles;
      var i := |particles|;
      assert s[i..] == [];
      while i > 0
        modifies this`particles
        invariant 0 <= i <= |s|
        invariant particles == s[..i] + Filter(s[i..], VisibleIn(dimensions))
      {
        if Invisible(particles[i - 1], dimensions) {
          PopStep(s, i, VisibleIn(dimensions), particles);
          particles := RemoveAt(particles, i - 1);
        } else {
          KeepStep(s, i, VisibleIn(dimensions), particles);
        }
        i := i - 1;
      }
      assert s[0..] == s;
    }

    /** `equalize_particles(target)`, as `Equalized` describes it. */
    method EqualizeParticles(target: real, gen: int -> Entry) returns (r: Outcome)
      modifies this`particles
      ensures Equalized(old(particles), target, gen).Ok? ==> r == Pass && particles == Equalized(old(particles), target, gen).value
      ensures Equalized(old(particles), target, gen).Err? ==> (r == Fail(Equalized(old(particles), target, gen).error)
        && particles == old(particles))
    {
      var difference := Round(target - |particles| as real);
      if difference < 0 {
        if target == 0.0 {
          particles := [];
          return Pass;
        }
        if -difference > |particles| {
          return Fail(ValueError);
        }
        return Fail(AttributeError);
      } else if difference > 0 {
        ghost var start := particles;
        for i := 0 to difference
          modifies this`particles
          invariant particles == start + seq(i, gen)
        {
          particles := particles + [gen(i)];
          assert seq(i + 1, gen) == seq(i, gen) + [gen(i)];
        }
      }
      return Pass;
    }
  }

  /** `ParticleCollection(...)`: the ValueError of the `velocity_dist` setter, or a fresh
      empty pool with the given settings. */
  method NewParticleCollection(numParticles: real, dimensions: (int, int), velocity: VelocityArg, particleDensity: real,
                               radiusPareto: real, radiusMax: real, sampleWhichPotential: int, purge: bool,
                               numEquilibrateSteps: int)
    returns (r: Result<ParticleCollection>)
    ensures r.Err? <==> !Accepted(velocity)
    ensures r.Err? ==> r.error == ValueError
    ensures r.Ok? ==> (fresh(r.value) && r.value.numParticles == Round(numParticles)
      && r.value.velocityDist == VelocityDist(velocity).value && r.value.Valid() && r.value.particles == [])
  {
    if !Accepted(velocity) {
      return Err(ValueError);
    }
    var c := new ParticleCollection(numParticles, dimensions, velocity, particleDensity, radiusPareto, radiusMax,
                                    sampleWhichPotential, purge, numEquilibrateSteps);
    return Ok(c);
  }
}
