/** pyfx.effects.GlowingParticles: an effect that keeps a pool of glowing particles in
    step with the workspace clock. Each render advances the pool by the elapsed steps,
    optionally purges particles whose sprites left the frame, brings the pool to the
    count wanted at that time, and writes every sprite. The physics, the interpolated
    per-time count and the rasters are inputs. */
module GlowingEffect {
  import opened Common
  import opened ParticlePool

  /** The keyword arguments of `bake`. */
  datatype Settings = Settings(hue: real, velocitySd: real, particleDensity: real, radiusPareto: real,
                               radiusMax: real, intensityPareto: real, intensityMax: real,
                               sampleWhichPotential: int, purge: bool)

  /** The defaults `bake()` uses, as `render` calls it on an unbaked effect. */
  const DefaultSettings := Settings(0.5, 1.0, 0.01, 1.0, 5.0, 1.0, 10.0, 0, true)

  /** The default waypoint's particle count. */
  const DefaultNumParticles := 200

  /** The pool once each particle has been moved to where `advance` puts it. */
  function Advanced(ps: seq<Glow>, advance: Glow -> (real, real)): (r: seq<Glow>)
    ensures |r| == |ps|
    ensures forall i :: 0 <= i < |ps| ==> r[i] == ps[i].(coord := advance(ps[i]))
  {
    seq(|ps|, i requires 0 <= i < |ps| => ps[i].(coord := advance(ps[i])))
  }

  /** The pool `render` hands to `_equalize_particles`: advanced, then, with purging on,
      only the particles whose sprites are still in frame. */
  function Purged(ps: seq<Glow>, purge: bool, advance: Glow -> (real, real)): (r: seq<Glow>)
    ensures purge ==> forall g :: g in r ==> !g.outOfFrame
    ensures !purge ==> |r| == |ps|
  {
    if purge then Filter(Advanced(ps, advance), InFrame) else Advanced(ps, advance)
  }

  /** The count `render` asks for: the interpolated target, never below zero. */
  function TargetCount(target: real): (n: real)
    ensures n >= 0.0 && (n == target || n == 0.0)
    ensures target >= 0.0 ==> n == target
  {
    if target < 0.0 then 0.0 else target
  }

  /** The pool one successful render leaves behind, or the exception it raises. */
  function Frame(ps: seq<Glow>, purge: bool, target: real, gen: int -> Glow,
                 advance: Glow -> (real, real), landsOff: Glow -> bool): (r: Result<seq<Glow>>)
    ensures r.Err? ==> r.error == AttributeError
    ensures r.Ok? ==> |r.value| as real - 0.5 <= TargetCount(target) <= |r.value| as real + 0.5
  {
    var p := Purged(ps, purge, advance);
    var e := Equalized(p, TargetCount(target), gen);
    if e.Err? then
      SurplusIsAttributeError(p, TargetCount(target), gen);
      Err(e.error)
    else Ok(Written(e.value, landsOff))
  }

  /** A render that wants no particles clears the pool. */
  lemma FrameEmptiesOnZero(ps: seq<Glow>, purge: bool, target: real, gen: int -> Glow,
                           advance: Glow -> (real, real), landsOff: Glow -> bool)
    requires target <= 0.0
    ensures Frame(ps, purge, target, gen, advance, landsOff) == Ok([])
  {
    var p := Purged(ps, purge, advance);
    if |p| > 0 {
      RoundOfInt(-|p|);
      assert 0.0 - |p| as real == (-|p|) as real;
    }
  }

  /** Each render rewrites every flag: a particle kept from before carries the flag of this
      render's write alone, whatever it was flagged before, and so does each particle that
      `_equalize_particles` added; nothing else about a particle changes in the write. */
  lemma FrameSetsFlags(ps: seq<Glow>, purge: bool, target: real, gen: int -> Glow,
                       advance: Glow -> (real, real), landsOff: Glow -> bool, i: nat)
    requires Frame(ps, purge, target, gen, advance, landsOff).Ok?
    requires i < |Frame(ps, purge, target, gen, advance, landsOff).value|
    ensures var p := Purged(ps, purge, advance);
            var f := Frame(ps, purge, target, gen, advance, landsOff).value;
            (i < |p| ==> f[i] == p[i].(outOfFrame := landsOff(p[i])))
            && (|p| <= i ==> f[i] == gen(i - |p|).(outOfFrame := landsOff(gen(i - |p|))))
  {
    var p := Purged(ps, purge, advance);
    var e := Equalized(p, TargetCount(target), gen);
    assert e.Ok? && e.value != [] && p <= e.value;
    if i < |p| {
      assert e.value[i] == p[i];
    } else {
      assert e.value[i] == gen(i - |p|);
    }
  }

  class GlowingParticles {
    const dimensions: (int, int)
    var settings: Settings
    var currentTime: int
    var particles: seq<Glow>
    var baked: bool

    /** A new effect on a workspace whose frames have shape `dimensions`; nothing is
        baked yet. */
    constructor(dimensions: (int, int))
      ensures this.dimensions == dimensions && !baked && particles == []
    {
      this.dimensions := dimensions;
      settings := DefaultSettings;
      currentTime := 0;
      particles := [];
      baked := false;
    }

    /** `bake` as written: it stores the settings and resets the clock, then calls
        `_interpolate_waypoints`, which no class defines, so it raises AttributeError
        before the pool is emptied or the effect is marked baked. */
    method BakeAsWritten(s: Settings) returns (r: Outcome)
      modifies this`settings, this`currentTime
      ensures r == Fail(AttributeError)
      ensures settings == s && currentTime == 0
    {
      settings := s;
      currentTime := 0;
      return Fail(AttributeError);
    }

    /** `bake` once its waypoints interpolate: settings stored, clock at 0, pool empty,
        effect baked. */
    method Bake(s: Settings)
      modifies this`settings, this`currentTime, this`particles, this`baked
      ensures settings == s && currentTime == 0 && particles == [] && baked
    {
      settings := s;
      currentTime := 0;
      particles := [];
      baked := true;
    }

    /** The radius `_generate_random_particle` draws. */
    function GeneratedRadius(draw: real): (r: real)
      reads this`settings
      ensures r <= settings.radiusMax
    {
      ClampedRadius(draw, settings.radiusMax)
    }

    /** The intensity `_generate_random_particle` draws, normalised by the maximum. */
    function GeneratedIntensity(draw: real): (r: Result<real>)
      reads this`settings
      ensures settings.intensityMax > 0.0 ==> r.Ok? && r.value <= 1.0
      ensures settings.intensityMax == 0.0 ==> r == Err(ZeroDivisionError)
    {
      NormalizedIntensity(draw, settings.intensityMax)
    }

    /** `_construct_particles(n)`: n new particles at the end of the pool. */
    method ConstructParticles(n: int, gen: int -> Glow)
      modifies this`particles
      ensures particles == old(particles) + seq(Max(0, n), gen)
    {
      ghost var start := particles;
      for i := 0 to Max(0, n)
        modifies this`particles
        invariant particles == start + seq(i, gen)
      {
        particles := particles + [gen(i)];
        assert seq(i + 1, gen) == seq(i, gen) + [gen(i)];
      }
    }

    /** `_advance_time(num_steps)`, with `advance(g)` the position the potentials move
        g's physical particle to over those steps. */
    method AdvanceTime(advance: Glow -> (real, real))
      modifies this`particles
      ensures particles == Advanced(old(particles), advance)
    {
      ghost var s := particles;
      for i := 0 to |particles|
        modifies this`particles
        invariant |particles| == |s|
        invariant forall j :: 0 <= j < i ==> particles[j] == s[j].(coord := advance(s[j]))
        invariant forall j :: i <= j < |s| ==> particles[j] == s[j]
      {
        particles := particles[i := particles[i].(coord := advance(particles[i]))];
      }
    }

    /** `_purge_invisible`: a reverse pass popping every out-of-frame particle. */
    method PurgeInvisible()
      modifies this`particles
      ensures particles == Filter(old(particles), InFrame)
    {
      ghost var s := particles;
      var i := |particles|;
      assert s[i..] == [];
      while i > 0
        modifies this`particles
        invariant 0 <= i <= |s|
        invariant particles == s[..i] + Filter(s[i..], InFrame)
      {
        if particles[i - 1].outOfFrame {
          PopStep(s, i, InFrame, particles);
          particles := RemoveAt(particles, i - 1);
        } else {
          KeepStep(s, i, InFrame, particles);
        }
        i := i - 1;
      }
      assert s[0..] == s;
    }

    /** `_equalize_particles(target)`, as `Equalized` describes it. */
    method EqualizeParticles(target: real, gen: int -> Glow) returns (r: Outcome)
      modifies this`particles
      ensures Equalized(old(particles), target, gen).Ok? ==> r == Pass && particles == Equalized(old(particles), target, gen).value
      ensures Equalized(old(particles), target, gen).Err? ==> (r == Fail(Equalized(old(particles), target, gen).error)
        && particles == old(particles))
    {
      var difference := Round(target - |particles| as real);
      if difference < 0 {
        if target == 0.0 {
          particles := [];
          return Pass;
        }
        if -difference > |particles| {
          return Fail(ValueError);
        }
        return Fail(AttributeError);
      } else if difference > 0 {
        ConstructParticles(difference, gen);
      }
      return Pass;
    }

    /** The sprite-writing loop of `render`. */
    method WriteSprites(landsOff: Glow -> bool)
      modifies this`particles
      ensures particles == Written(old(particles), landsOff)
    {
      ghost var s := particles;
      for i := 0 to |particles|
        modifies this`particles
        invariant |particles| == |s|
        invariant forall j :: 0 <= j < i ==> particles[j] == s[j].(outOfFrame := landsOff(s[j]))
        invariant forall j :: i <= j < |s| ==> particles[j] == s[j]
      {
        particles := particles[i := particles[i].(outOfFrame := landsOff(particles[i]))];
      }
    }

    /** `render` at workspace time t, with `target` the interpolated particle count at t.
        An unbaked effect bakes first with the default settings. Time running backwards
        is a ValueError with the clock and pool untouched; otherwise the clock moves to
        t and the pool becomes what `Frame` says, or holds the purged pool when the count
        cannot be reached. */
    method Render(t: int, target: real, gen: int -> Glow, advance: Glow -> (real, real), landsOff: Glow -> bool)
      returns (r: Outcome)
      modifies this`settings, this`currentTime, this`particles, this`baked
      ensures baked
      ensures !old(baked) ==> settings == DefaultSettings
      ensures old(baked) ==> settings == old(settings)
      ensures var t0 := if old(baked) then old(currentTime) else 0;
              var ps := if old(baked) then old(particles) else [];
              var f := Frame(ps, settings.purge, target, gen, advance, landsOff);
              (t < t0 ==> r == Fail(ValueError) && currentTime == t0 && particles == ps)
              && (t0 <= t ==> currentTime == t)
              && (t0 <= t && f.Ok? ==> r == Pass && particles == f.value)
              && (t0 <= t && f.Err? ==> r == Fail(AttributeError) && particles == Purged(ps, settings.purge, advance))
    {
      if !baked {
        Bake(DefaultSettings);
      }
      var numSteps := t - currentTime;
      if numSteps < 0 {
        return Fail(ValueError);
      }
      currentTime := t;
      AdvanceTime(advance);
      if settings.purge {
        PurgeInvisible();
      }
      ghost var p := particles;
      var count := if target < 0.0 then 0.0 else target;
      var e := EqualizeParticles(count, gen);
      if e.Fail? {
        SurplusIsAttributeError(p, count, gen);
        return e;
      }
      WriteSprites(landsOff);
      return Pass;
    }
  }
}
