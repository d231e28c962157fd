/** photonzombie.particles.particle: the second particle class. It keeps mass, velocity
    and force for the physics integrator, and its `write_to_image` adds the sprite without
    moving the particle. Its `_build_sprite` reads ring parameters (`_expansion_factor`,
    `_num_rings`, `_alpha`, `_hue`, `_intensity`) that this class never sets; they are
    modelled as an optional constant `rings` that a subclass would provide. */
module ZombieParticles {
  import opened Common
  import opened Raster
  import ParticlesUtil

  /** The ring parameters `_build_sprite` reads. */
  datatype Rings = Rings(expansionFactor: real, numRings: int)

  class Particle {
    const kT: real
    const radiusPareto: real
    /** None for this class, which never sets the ring parameters. */
    const rings: Option<Rings>
    /** `_coord`, absent until `create_particle` runs. */
    var coord: Option<(real, real)>
    var radius: real
    var velocity: (real, real)
    var forces: (real, real)
    /** `_size` and `_sprite`, absent until `_build_sprite` succeeds. */
    var size: Option<int>
    var sprite: seq<seq<Pixel>>
    /** `_out_of_frame`, which no code path initialises to False. */
    var outOfFrame: Option<bool>

    ghost predicate Valid()
      reads this`sprite
    {
      (rings.Some? ==> rings.value.numRings >= 1) && IsGrid(sprite, |sprite|, if |sprite| == 0 then 0 else |sprite[0]|)
    }

    constructor(kT: real, radiusPareto: real, rings: Option<Rings>)
      requires rings.Some? ==> rings.value.numRings >= 1
      ensures this.kT == kT && this.radiusPareto == radiusPareto && this.rings == rings
      ensures coord.None? && size.None? && outOfFrame.None? && Valid()
    {
      this.kT := kT;
      this.radiusPareto := radiusPareto;
      this.rings := rings;
      coord := None;
      size := None;
      sprite := [];
      outOfFrame := None;
    }

    /** `create_particle(x, y, radius)`: stores the coordinate, then takes the radius as
        given or from `util.random_pareto`, which raises NameError (photonzombie/particles/util.py
        never imports numpy) and leaves everything after the coordinate unset. With a
        radius it stores the drawn velocity and zero forces and builds the sprite; without
        ring parameters the build raises AttributeError after all of that. */
    method CreateParticle(x: real, y: real, radiusArg: Option<real>, radiusDraw: real, velocityDraw: (real, real), drawn: seq<seq<Pixel>>)
      returns (r: Outcome)
      requires Valid()
      requires IsGrid(drawn, |drawn|, if |drawn| == 0 then 0 else |drawn[0]|)
      modifies this`coord, this`radius, this`velocity, this`forces, this`size, this`sprite
      ensures Valid()
      ensures coord == Some((x, y))
      ensures radiusArg.None? ==> (r == Fail(NameError) && radius == old(radius) && velocity == old(velocity)
        && forces == old(forces) && size == old(size) && sprite == old(sprite))
      ensures radiusArg.Some? ==> radius == radiusArg.value && velocity == velocityDraw && forces == (0.0, 0.0)
      ensures radiusArg.Some? && rings.None? ==> r == Fail(AttributeError) && size == old(size) && sprite == old(sprite)
      ensures radiusArg.Some? && rings.Some? ==> (r == Pass
        && size == Some(RingSpriteSize(radius, rings.value.expansionFactor, rings.value.numRings)) && sprite == drawn)
    {
      coord := Some((x, y));
      if radiusArg.None? {
        // `util.random_pareto(self._radius_pareto)` with its defaults 1 and 6
        var drawnRadius := ParticlesUtil.RandomParetoAsWritten(radiusDraw, 1.0, 6.0);
        return Fail(drawnRadius.error);
      }
      radius := radiusArg.value;
      velocity := velocityDraw;
      forces := (0.0, 0.0);
      if rings.None? {
        return Fail(AttributeError);
      }
      size := Some(RingSpriteSize(radius, rings.value.expansionFactor, rings.value.numRings));
      sprite := drawn;
      return Pass;
    }

    /** `write_to_image(img_matrix)`: the same clipping and additive blend as
        photonzombie.particle, but the coordinate is never advanced. A missing coordinate
        or sprite raises AttributeError. */
    method WriteToImage(img: array2<Pixel>) returns (r: Outcome)
      requires Valid()
      modifies this`outOfFrame, img
      ensures old(outOfFrame) == Some(true) ==> outOfFrame == Some(true)
      ensures outOfFrame != old(outOfFrame) ==> outOfFrame == Some(true)
      ensures (coord.None? || size.None?) ==> r == Fail(AttributeError) && outOfFrame == old(outOfFrame) && unchanged(img)
      ensures coord.Some? && size.Some? ==> (r == Pass
        && var pl := Placement(SpriteStart(coord.value.0, size.value as real), SpriteStart(coord.value.1, size.value as real), |sprite|, if |sprite| == 0 then 0 else |sprite[0]|, img.Length0, img.Length1);
        (pl.None? ==> outOfFrame == Some(true) && unchanged(img))
        && (pl.Some? ==> (
              outOfFrame == old(outOfFrame) && Fits(pl.value.0, pl.value.1, img.Length0, img.Length1, sprite)
              && Pasted(img, old(GridOf(img)), pl.value.0, pl.value.1, sprite, AddPixel))))
    {
      if coord.None? || size.None? {
        return Fail(AttributeError);
      }
      var off := AddSprite(img, SpriteStart(coord.value.0, size.value as real), SpriteStart(coord.value.1, size.value as real), sprite);
      if off {
        outOfFrame := Some(true);
      }
      return Pass;
    }

    /** The `out_of_frame` property: AttributeError until some write has found the
        sprite off-frame, True from then on. */
    function OutOfFrame(): (r: Result<bool>)
      reads this`outOfFrame
      ensures r.Err? <==> outOfFrame.None?
      ensures r.Err? ==> r.error == AttributeError
      ensures r.Ok? ==> r.value == outOfFrame.value
    {
      if outOfFrame.None? then Err(AttributeError) else Ok(outOfFrame.value)
    }
  }
}
