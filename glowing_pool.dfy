/** pyfx.glowing_particles.GlowingParticles: the stand-alone pool of glowing particles,
    with a recorded particle count that `purge_invisible` re-synchronises. Random
    draws and physics are inputs: `gen(k)` is the particle generated at step or
    position k. */
module GlowingPool {
  import opened Common
  import opened ParticlePool

  /** The pool `purge_invisible(replace=False)` leaves: among the first k positions
      the in-frame particles survive, in order; the positions from k on are not
      looked at. */
  function PoppedPrefix(ps: seq<Glow>, k: nat): (r: seq<Glow>)
    requires k <= |ps|
    ensures |ps| - k <= |r| <= |ps|
    ensures r[|r| - (|ps| - k)..] == ps[k..]
    ensures forall g :: g in r[..|r| - (|ps| - k)] ==> g in ps[..k] && !g.outOfFrame
  {
    assert |Filter(ps[..k], InFrame)| <= k;
    assert (Filter(ps[..k], InFrame) + ps[k..])[..|Filter(ps[..k], InFrame)|] == Filter(ps[..k], InFrame);
    Filter(ps[..k], InFrame) + ps[k..]
  }

  /** The pool `purge_invisible(replace=True)` leaves: each flagged particle among the
      first k positions replaced in place by the one generated for its position. */
  function Replaced(ps: seq<Glow>, k: nat, gen: int -> Glow): (r: seq<Glow>)
    ensures |r| == |ps|
    ensures forall i :: 0 <= i < |ps| ==> r[i] == (if i < k && ps[i].outOfFrame then gen(i) else ps[i])
  {
    seq(|ps|, i requires 0 <= i < |ps| => if i < k && ps[i].outOfFrame then gen(i) else ps[i])
  }

  /** Whether a flagged particle lies among the first k positions. */
  predicate AnyFlagged(ps: seq<Glow>, k: nat)
    requires k <= |ps|
  {
    exists i :: 0 <= i < k && ps[i].outOfFrame
  }

  lemma RemoveAtAppend<T>(a: seq<T>, b: seq<T>, k: nat)
    requires k < |a|
    ensures RemoveAt(a + b, k) == RemoveAt(a, k) + b
  {
    assert (a + b)[..k] == a[..k];
    assert (a + b)[k + 1..] == a[k + 1..] + b;
  }

  class GlowingParticles {
    const hue: real
    const dimensions: (int, int)
    const velocitySd: real
    const particleDensity: real
    const radiusPareto: real
    const radiusMax: real
    const intensityPareto: real
    const intensityMax: real
    var numParticles: int
    var particles: seq<Glow>

    constructor(hue: real, dimensions: (int, int), velocitySd: real, particleDensity: real, radiusPareto: real,
                radiusMax: real, intensityPareto: real, intensityMax: real)
      ensures this.hue == hue && this.dimensions == dimensions && this.velocitySd == velocitySd
      ensures this.particleDensity == particleDensity && this.radiusPareto == radiusPareto && this.radiusMax == radiusMax
      ensures this.intensityPareto == intensityPareto && this.intensityMax == intensityMax
      ensures numParticles == 0 && particles == []
    {
      this.hue := hue;
      this.dimensions := dimensions;
      this.velocitySd := velocitySd;
      this.particleDensity := particleDensity;
      this.radiusPareto := radiusPareto;
      this.radiusMax := radiusMax;
      this.intensityPareto := intensityPareto;
      this.intensityMax := intensityMax;
      numParticles := 0;
      particles := [];
    }

    /** The radius `_generate_random_particle` draws. */
    function GeneratedRadius(draw: real): (r: real)
      ensures r <= radiusMax
    {
      ClampedRadius(draw, radiusMax)
    }

    /** The intensity `_generate_random_particle` draws, normalised by the maximum. */
    function GeneratedIntensity(draw: real): (r: Result<real>)
      ensures intensityMax > 0.0 ==> r.Ok? && r.value <= 1.0
      ensures intensityMax == 0.0 ==> r == Err(ZeroDivisionError)
    {
      NormalizedIntensity(draw, intensityMax)
    }

    /** `construct_particles(num_particles, ..., num_equilibrate_steps)`. The count is
        recorded first. Equilibrating a new particle passes the undefined name
        `num_steps`, so with equilibration steps the first particle raises NameError;
        otherwise that many particles join the end of the pool. */
    method ConstructParticles(n: int, numEquilibrateSteps: int, gen: int -> Glow) returns (r: Outcome)
      modifies this`numParticles, this`particles
      ensures numParticles == n
      ensures n > 0 && numEquilibrateSteps > 0 ==> r == Fail(NameError) && particles == old(particles)
      ensures !(n > 0 && numEquilibrateSteps > 0) ==> r == Pass && particles == old(particles) + seq(Max(0, n), gen)
    {
      numParticles := n;
      if n > 0 && numEquilibrateSteps > 0 {
        return Fail(NameError);
      }
      ghost var start := particles;
      for i := 0 to Max(0, n)
        modifies this`particles
        invariant particles == start + seq(i, gen)
      {
        particles := particles + [gen(i)];
        assert seq(i + 1, gen) == seq(i, gen) + [gen(i)];
      }
      return Pass;
    }

    /** The popping pass over positions k-1 down to 0. */
    method PopFlagged(k: nat)
      requires k <= |particles|
      modifies this`particles
      ensures particles == PoppedPrefix(old(particles), k)
    {
      ghost var s := particles;
      ghost var t := s[..k];
      var i := k;
      assert t[i..] == [];
      assert s == t[..i] + Filter(t[i..], InFrame) + s[k..];
      while i > 0
        modifies this`particles
        invariant 0 <= i <= k
        invariant particles == t[..i] + Filter(t[i..], InFrame) + s[k..]
      {
        ghost var cur := t[..i] + Filter(t[i..], InFrame);
        assert particles[i - 1] == cur[i - 1] == t[i - 1] by {
          if t[i - 1].outOfFrame {
            PopStep(t, i, InFrame, cur);
          } else {
            assert cur[i - 1] == t[..i][i - 1];
          }
        }
        if particles[i - 1].outOfFrame {
          PopStep(t, i, InFrame, cur);
          RemoveAtAppend(cur, s[k..], i - 1);
          particles := RemoveAt(particles, i - 1);
        } else {
          KeepStep(t, i, InFrame, cur);
        }
        i := i - 1;
      }
      assert t[0..] == t;
    }

    /** The replacing pass over positions k-1 down to 0. A flagged particle is
        regenerated in place; with equilibration steps that raises the NameError of
        `construct_particles` at the first (highest) flagged position, before anything
        has changed. */
    method ReplaceFlagged(k: nat, numEquilibrateSteps: int, gen: int -> Glow) returns (r: Outcome)
      requires k <= |particles|
      modifies this`particles
      ensures numEquilibrateSteps > 0 && AnyFlagged(old(particles), k) ==> r == Fail(NameError) && particles == old(particles)
      ensures !(numEquilibrateSteps > 0 && AnyFlagged(old(particles), k)) ==> r == Pass && particles == Replaced(old(particles), k, gen)
    {
      ghost var s := particles;
      var i := k;
      while i > 0
        modifies this`particles
        invariant 0 <= i <= k
        invariant |particles| == |s|
        invariant forall j :: 0 <= j < i ==> particles[j] == s[j]
        invariant forall j :: i <= j < |s| ==> particles[j] == (if j < k && s[j].outOfFrame then gen(j) else s[j])
        invariant numEquilibrateSteps > 0 ==> forall j :: i <= j < k ==> !s[j].outOfFrame
      {
        if particles[i - 1].outOfFrame {
          if numEquilibrateSteps > 0 {
            assert particles == s;
            return Fail(NameError);
          }
          particles := particles[i - 1 := gen(i - 1)];
        }
        i := i - 1;
      }
      assert particles == Replaced(s, k, gen);
      return Pass;
    }

    /** `purge_invisible(replace, ..., num_equilibrate_steps)`: the pass runs over the
        first `_num_particles` positions, highest first, so a recorded count above the
        pool's length raises IndexError at once. Afterwards the recorded count is the
        pool's length. */
    method PurgeInvisible(replace: bool, numEquilibrateSteps: int, gen: int -> Glow) returns (r: Outcome)
      modifies this`numParticles, this`particles
      ensures var k := Max(0, old(numParticles));
              var s := old(particles);
              (k > |s| ==> r == Fail(IndexError) && particles == s && numParticles == old(numParticles))
              && (k <= |s| && replace && numEquilibrateSteps > 0 && AnyFlagged(s, k) ==>
                    r == Fail(NameError) && particles == s && numParticles == old(numParticles))
              && (k <= |s| && replace && !(numEquilibrateSteps > 0 && AnyFlagged(s, k)) ==>
                    r == Pass && particles == Replaced(s, k, gen) && numParticles == |particles|)
              && (k <= |s| && !replace ==> r == Pass && particles == PoppedPrefix(s, k) && numParticles == |particles|)
    {
      var k := Max(0, numParticles);
      if k > |particles| {
        return Fail(IndexError);
      }
      if replace {
        r := ReplaceFlagged(k, numEquilibrateSteps, gen);
        if r.Fail? {
          return r;
        }
      } else {
        PopFlagged(k);
        r := Pass;
      }
      numParticles := |particles|;
    }

    /** `write_out`: every sprite is written to a frame of the pool's dimensions. */
    method WriteOut(landsOff: Glow -> bool)
      modifies this`particles
      ensures particles == Written(old(particles), landsOff)
    {
      ghost var s := particles;
      for i := 0 to |particles|
        modifies this`particles
        invariant |particles| == |s|
        invariant forall j :: 0 <= j < i ==> particles[j] == s[j].(outOfFrame := landsOff(s[j]))
        invariant forall j :: i <= j < |s| ==> particles[j] == s[j]
      {
        particles := particles[i := particles[i].(outOfFrame := landsOff(particles[i]))];
      }
    }
  }

  /** Popping keeps exactly the in-frame particles of the scanned prefix and the whole
      unscanned tail. */
  lemma PoppedPrefixSplit(ps: seq<Glow>, k: nat)
    requires k <= |ps|
    ensures PoppedPrefix(ps, k) == Filter(ps[..k], InFrame) + ps[k..]
    ensures k == |ps| ==> PoppedPrefix(ps, k) == Filter(ps, InFrame)
  {
    assert ps[..|ps|] == ps;
  }

  /** After a pass over the whole pool no particle is left flagged: popping removes
      them and replacing regenerates every flagged position. */
  lemma PurgeLeavesNoneFlagged(ps: seq<Glow>, gen: int -> Glow, g: Glow)
    ensures g in PoppedPrefix(ps, |ps|) ==> !g.outOfFrame
    ensures (forall i :: 0 <= i < |ps| ==> !gen(i).outOfFrame) ==> forall i :: 0 <= i < |ps| ==> !Replaced(ps, |ps|, gen)[i].outOfFrame
  {
    PoppedPrefixSplit(ps, |ps|);
    FilterMembership(ps, InFrame, g);
  }
}
