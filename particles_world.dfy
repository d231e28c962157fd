/** photonzombie.particles.world.World: places particles at cells drawn with Boltzmann
    weights. The weights, computed from a frame difference, and the sampled flat
    indexes are inputs; each particle is recorded by the cell it is created at. */
module ParticlesWorld {
  import opened Common
  import opened Raster
  import opened ParticlesUtil
  import opened ZombieWorld
  import ZombieParticles

  class World {
    const forceScale: real
    var particleDensity: real
    var beta: real
    var coarseGrain: real
    var numParticles: int
    /** The Boltzmann weights of every pixel. */
    var w: seq<seq<real>>
    /** The starting cell of each particle made. */
    var particles: seq<(nat, nat)>

    ghost predicate Valid()
      reads this`w
    {
      IsMatrix(w)
    }

    constructor(forceScale: real)
      ensures this.forceScale == forceScale && w == [] && particles == [] && Valid()
    {
      this.forceScale := forceScale;
      particleDensity := 0.0;
      beta := 0.0;
      coarseGrain := 0.0;
      numParticles := 0;
      w := [];
      particles := [];
    }

    /** `_add_particle()`: `position` is the flat index drawn from the weights; it is
        split into row x and column y, a default `Particle()` is appended (recorded here
        by its cell) and `create_particle(x, y)` is called on it. With no cell to draw
        from the draw raises ValueError; otherwise the radius draw inside
        `create_particle` raises NameError, since photonzombie/particles/util.py never
        imports numpy. */
    method AddParticle(position: nat, radiusDraw: real, velocityDraw: (real, real)) returns (r: Outcome)
      requires Valid()
      modifies this`particles
      ensures NoCells(w) ==> r == Fail(ValueError) && particles == old(particles)
      ensures !NoCells(w) ==> (r == Fail(NameError) && particles == old(particles) + [DecodeFlat(position, Width(w))]
        && FlatIndex(particles[|particles| - 1].0, particles[|particles| - 1].1, Width(w)) == position)
    {
      if NoCells(w) {
        return Fail(ValueError);
      }
      var ncols := Width(w);
      var y := position % ncols;
      var x := Trunc((position - y) as real / ncols as real);
      particles := particles + [(x, y)];
      var p := new ZombieParticles.Particle(1.0, 1.0, None);
      r := p.CreateParticle(x as real, y as real, None, radiusDraw, velocityDraw, []);
    }

    /** `create_particles(...)` once `_update_potential` has computed the weights `w'`:
        the count is the given one or round(density·Σw'), the pool starts empty, and
        particles are added one by one, the k-th from the draws `draw(k)`,
        `radiusDraw(k)` and `velocityDraw(k)`. As written the first addition already
        raises, so only a count of at most 0 returns normally. */
    method CreateParticles(w': seq<seq<real>>, density: real, beta: real, num: Option<int>, coarseGrain: real,
                           draw: int -> nat, radiusDraw: int -> real, velocityDraw: int -> (real, real))
      returns (r: Outcome)
      requires IsMatrix(w')
      modifies this`particleDensity, this`beta, this`coarseGrain, this`numParticles, this`w, this`particles
      ensures Valid() && w == w' && particleDensity == density && this.beta == beta && this.coarseGrain == coarseGrain
      ensures numParticles == ParticleCount(num, density, w')
      ensures r == Pass <==> numParticles <= 0
      ensures r == Pass ==> particles == []
      ensures r.Fail? && NoCells(w') ==> r.error == ValueError && particles == []
      ensures r.Fail? && !NoCells(w') ==> (r.error == NameError && Width(w') > 0
        && particles == [DecodeFlat(draw(0), Width(w'))])
    {
      particleDensity := density;
      this.beta := beta;
      numParticles := ParticleCount(num, density, w');
      this.coarseGrain := coarseGrain;
      w := w';
      particles := [];
      r := Pass;
      var i := 0;
      while i < numParticles && r == Pass
        modifies this`particles
        invariant Valid() && w == w'
        invariant 0 <= i <= Max(0, numParticles)
        invariant r == Pass ==> i == 0 && particles == []
        invariant r.Fail? ==> i == 1
        invariant r.Fail? && NoCells(w) ==> r.error == ValueError && particles == []
        invariant r.Fail? && !NoCells(w) ==> r.error == NameError && particles == [DecodeFlat(draw(0), Width(w))]
      {
        r := AddParticle(draw(i), radiusDraw(i), velocityDraw(i));
        i := i + 1;
      }
    }
  }
}
