/** photonzombie.particle: a glowing particle that drifts by a fixed velocity and adds
    its ring sprite onto a frame. The random draws (pareto radius and intensity, normal
    velocity) and the sprite bitmap, which skimage and matplotlib rasterise, are inputs. */
module ZombieParticle {
  import opened Common
  import opened Raster

  /** `_random_pareto(a, minimum=1, maximum=6)`, given the pareto draw. */
  function RandomPareto(draw: real): (b: real)
    ensures 1.0 <= draw + 1.0 ==> 1.0 <= b
    ensures b <= 6.0
  {
    ParetoClamped(draw, 1.0, 6.0)
  }

  /** The checks of `Particle.__init__`: each failure is a ValueError. */
  function ParticleCheck(hue: real, numRings: int, expansionFactor: real, alpha: real, alphaDecay: real): (r: Outcome)
    ensures r == Pass <==> 0.0 <= hue <= 1.0 && numRings >= 1 && expansionFactor > 1.0 && 0.0 <= alpha <= 1.0 && alphaDecay > 0.0
    ensures r.Fail? ==> r.error == ValueError
  {
    if hue < 0.0 || hue > 1.0 then Fail(ValueError)
    else if numRings < 1 then Fail(ValueError)
    else if expansionFactor <= 1.0 then Fail(ValueError)
    else if alpha < 0.0 || alpha > 1.0 then Fail(ValueError)
    else if alphaDecay <= 0.0 then Fail(ValueError)
    else Pass
  }

  /** The position after one time step. */
  function Moved(coord: (real, real), velocity: (real, real)): (real, real) {
    (coord.0 + velocity.0, coord.1 + velocity.1)
  }

  class Particle {
    const hue: real
    const numRings: int
    const expansionFactor: real
    const alpha: real
    const alphaDecay: real
    var outOfFrame: bool
    /** Whether `create_particle` has got as far as storing `_velocity` (and `_size`);
        before that, reading them raises AttributeError. */
    var moving: bool
    /** Whether a sprite build has succeeded, so that `_sprite` exists. */
    var created: bool
    var coord: (real, real)
    var velocity: (real, real)
    var nearest: Option<real>
    var radius: real
    var intensity: real
    var size: int
    var sprite: seq<seq<Pixel>>

    ghost predicate Valid()
      reads this`sprite
    {
      numRings >= 1 && IsGrid(sprite, |sprite|, if |sprite| == 0 then 0 else |sprite[0]|)
    }

    constructor(hue: real, numRings: int, expansionFactor: real, alpha: real, alphaDecay: real)
      requires ParticleCheck(hue, numRings, expansionFactor, alpha, alphaDecay) == Pass
      ensures this.hue == hue && this.numRings == numRings && this.expansionFactor == expansionFactor
      ensures this.alpha == alpha && this.alphaDecay == alphaDecay
      ensures !outOfFrame && !moving && !created && Valid()
    {
      this.hue := hue;
      this.numRings := numRings;
      this.expansionFactor := expansionFactor;
      this.alpha := alpha;
      this.alphaDecay := alphaDecay;
      outOfFrame := false;
      moving := false;
      created := false;
      sprite := [];
    }

    /** `create_particle(x, y, nearest, radius, intensity)`. The coordinate is stored
        first; a given `nearest` then raises NameError (the name it reads is misspelt).
        Otherwise the nearest-neighbour field ends up None whatever was drawn, the radius
        and intensity are the given values or clamped pareto draws (the intensity draw
        capped at 5 and scaled by 1/5), the velocity is the drawn one, and the sprite is
        built at the ring size. `np.zeros` refuses the sprite's side 2·size + 1 when it is
        negative, which a radius of at most -4/factor^(rings-1) gives, and raises ValueError
        with the size already stored and no new sprite. */
    method CreateParticle(x: real, y: real, nearestArg: Option<real>, radiusArg: Option<real>, intensityArg: Option<real>,
                          radiusDraw: real, intensityDraw: real, velocityDraw: (real, real), drawn: seq<seq<Pixel>>)
      returns (r: Outcome)
      requires Valid()
      requires IsGrid(drawn, |drawn|, if |drawn| == 0 then 0 else |drawn[0]|)
      modifies this`coord, this`nearest, this`radius, this`intensity, this`velocity, this`size, this`sprite, this`moving, this`created
      ensures Valid() && coord == (x, y)
      ensures nearestArg.Some? ==> (r == Fail(NameError) && moving == old(moving) && created == old(created)
        && nearest == old(nearest) && radius == old(radius) && intensity == old(intensity) && velocity == old(velocity)
        && size == old(size) && sprite == old(sprite))
      ensures nearestArg.None? ==> (moving && nearest == None && velocity == velocityDraw
        && radius == (if radiusArg.Some? then radiusArg.value else RandomPareto(radiusDraw))
        && intensity == (if intensityArg.Some? then intensityArg.value else ParetoClamped(intensityDraw, 1.0, 5.0) / 5.0)
        && size == RingSpriteSize(radius, expansionFactor, numRings))
      ensures nearestArg.None? && 2 * size + 1 < 0 ==> r == Fail(ValueError) && created == old(created) && sprite == old(sprite)
      ensures nearestArg.None? && 2 * size + 1 >= 0 ==> r == Pass && created && sprite == drawn
      ensures nearestArg.None? && radius >= 0.0 && expansionFactor >= 1.0 ==> r == Pass
      ensures nearestArg.None? && intensityArg.None? ==> intensity <= 1.0
    {
      coord := (x, y);
      if nearestArg.Some? {
        return Fail(NameError);
      }
      nearest := None;
      radius := if radiusArg.Some? then radiusArg.value else RandomPareto(radiusDraw);
      intensity := if intensityArg.Some? then intensityArg.value else ParetoClamped(intensityDraw, 1.0, 5.0) / 5.0;
      velocity := velocityDraw;
      moving := true;
      r := BuildSprite(drawn);
    }

    /** `_build_sprite`: the half-width is the ring size, stored before the bitmap is
        allocated; a negative side is ValueError, otherwise the drawn bitmap is stored. */
    method BuildSprite(drawn: seq<seq<Pixel>>) returns (r: Outcome)
      requires Valid()
      requires IsGrid(drawn, |drawn|, if |drawn| == 0 then 0 else |drawn[0]|)
      modifies this`size, this`sprite, this`created
      ensures Valid() && size == RingSpriteSize(radius, expansionFactor, numRings)
      ensures 2 * size + 1 < 0 ==> r == Fail(ValueError) && created == old(created) && sprite == old(sprite)
      ensures 2 * size + 1 >= 0 ==> r == Pass && created && sprite == drawn
      ensures radius >= 0.0 && expansionFactor >= 1.0 ==> r == Pass
    {
      size := RingSpriteSize(radius, expansionFactor, numRings);
      if radius >= 0.0 && expansionFactor >= 1.0 {
        RingSpriteSizeCovers(radius, expansionFactor, numRings);
      }
      if 2 * size + 1 < 0 {
        return Fail(ValueError);
      }
      sprite := drawn;
      created := true;
      return Pass;
    }

    /** `_advance_time`: one step of constant velocity. */
    method AdvanceTime() returns (r: Outcome)
      modifies this`coord
      ensures !moving ==> r == Fail(AttributeError) && coord == old(coord)
      ensures moving ==> r == Pass && coord == Moved(old(coord), velocity)
    {
      if !moving {
        return Fail(AttributeError);
      }
      coord := Moved(coord, velocity);
      return Pass;
    }

    /** `write_to_image(img_matrix, advance)`: with `advance` the particle first moves one
        step; the sprite is then placed with its corner at round(coord - size - 1) on
        each axis. A sprite wholly beyond an edge sets `out_of_frame` and leaves the frame
        alone; otherwise the window receives the additive blend. Nothing here sets the
        flag back to False. Moving without a velocity, or placing without a sprite, is
        AttributeError. */
    method WriteToImage(img: array2<Pixel>, advance: bool) returns (r: Outcome)
      requires Valid()
      modifies this`coord, this`outOfFrame, img
      ensures old(outOfFrame) ==> outOfFrame
      ensures advance && !moving ==> r == Fail(AttributeError) && coord == old(coord) && outOfFrame == old(outOfFrame) && unchanged(img)
      ensures (advance ==> moving) && !created ==> (r == Fail(AttributeError)
        && coord == (if advance then Moved(old(coord), velocity) else old(coord)) && outOfFrame == old(outOfFrame) && unchanged(img))
      ensures (advance ==> moving) && created ==> (r == Pass && coord == (if advance then Moved(old(coord), velocity) else old(coord))
        && var pl := Placement(SpriteStart(coord.0, size as real), SpriteStart(coord.1, size as real), |sprite|, if |sprite| == 0 then 0 else |sprite[0]|, img.Length0, img.Length1);
        (pl.None? ==> outOfFrame && unchanged(img))
        && (pl.Some? ==> (
              outOfFrame == old(outOfFrame) && Fits(pl.value.0, pl.value.1, img.Length0, img.Length1, sprite)
              && Pasted(img, old(GridOf(img)), pl.value.0, pl.value.1, sprite, AddPixel))))
    {
      if advance {
        r := AdvanceTime();
        if r.Fail? {
          return r;
        }
      }
      if !created {
        return Fail(AttributeError);
      }
      var off := AddSprite(img, SpriteStart(coord.0, size as real), SpriteStart(coord.1, size as real), sprite);
      if off {
        outOfFrame := true;
      }
      return Pass;
    }
  }

  /** `Particle(hue, num_rings, expansion_factor, alpha, alpha_decay)`: a ValueError for a
      rejected parameter, otherwise a fresh particle that is in frame and not yet created. */
  method NewParticle(hue: real, numRings: int, expansionFactor: real, alpha: real, alphaDecay: real) returns (r: Result<Particle>)
    ensures r.Err? <==> ParticleCheck(hue, numRings, expansionFactor, alpha, alphaDecay).Fail?
    ensures r.Err? ==> r.error == ValueError
    ensures r.Ok? ==> (fresh(r.value) && r.value.hue == hue && r.value.numRings == numRings
      && r.value.expansionFactor == expansionFactor && r.value.alpha == alpha && r.value.alphaDecay == alphaDecay
      && !r.value.outOfFrame && !r.value.moving && !r.value.created && r.value.Valid())
  {
    if ParticleCheck(hue, numRings, expansionFactor, alpha, alphaDecay).Fail? {
      return Err(ValueError);
    }
    var p := new Particle(hue, numRings, expansionFactor, alpha, alphaDecay);
    return Ok(p);
  }
}
