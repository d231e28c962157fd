/** photonzombie.glowing_particles: the glowing particle sprite with validated ring
    parameters. Its `__init__` never builds the sprite and nothing assigns `_coord`, so
    the `write_to_image` as written always raises AttributeError; the working version
    takes the coordinate as an argument and the sprite from `_build_sprite`. */
module ZombieGlowing {
  import opened Common
  import opened Raster
  import ParticlesUtil

  /** The global names bound when photonzombie/glowing_particles.py runs its first
      `def`: none, since the module imports nothing. */
  const GlobalsAtFirstDef: set<string> := {}

  /** Importing the module as written: the default `maximum=np.inf` of `_random_pareto`
      is evaluated when its `def` runs, and `np` is unbound there, so the import raises
      NameError before any class is defined. The rest of this module models the code with
      numpy in scope. */
  function ImportAsWritten(): (r: Outcome)
    ensures r == Fail(NameError)
  {
    ParticlesUtil.LookupGlobal(GlobalsAtFirstDef, "np")
  }

  /** `_random_pareto(a, minimum, maximum)`, given the pareto draw; None stands for the
      default maximum `np.inf`, which never clamps. */
  function GlowingPareto(draw: real, minimum: real, maximum: Option<real>): (b: real)
    ensures maximum.None? ==> b == draw + minimum
    ensures maximum.Some? ==> b <= maximum.value && (draw + minimum <= maximum.value ==> b == draw + minimum)
    ensures maximum.Some? && draw + minimum > maximum.value ==> b == maximum.value
  {
    if maximum.None? then draw + minimum else ParetoClamped(draw, minimum, maximum.value)
  }

  /** The checks of `GlowingParticleSprite.__init__`, in source order; each failure is a
      ValueError. */
  function SpriteCheck(radius: real, intensity: real, hue: real, numRings: int, expansionFactor: real, alpha: real, alphaDecay: real): (r: Outcome)
    ensures r == Pass <==> (radius > 0.0 && 0.0 <= intensity <= 1.0 && 0.0 <= hue <= 1.0 && numRings >= 1
      && expansionFactor > 1.0 && 0.0 <= alpha <= 1.0 && alphaDecay > 0.0)
    ensures r.Fail? ==> r.error == ValueError
  {
    if radius <= 0.0 then Fail(ValueError)
    else if intensity < 0.0 || intensity > 1.0 then Fail(ValueError)
    else if hue < 0.0 || hue > 1.0 then Fail(ValueError)
    else if numRings < 1 then Fail(ValueError)
    else if expansionFactor <= 1.0 then Fail(ValueError)
    else if alpha < 0.0 || alpha > 1.0 then Fail(ValueError)
    else if alphaDecay <= 0.0 then Fail(ValueError)
    else Pass
  }

  class GlowingParticleSprite {
    const radius: real
    const intensity: real
    const hue: real
    const numRings: int
    const expansionFactor: real
    const alpha: real
    const alphaDecay: real
    var outOfFrame: bool
    /** `_size` and `_sprite`, absent until `_build_sprite` runs. */
    var size: Option<int>
    var sprite: seq<seq<Pixel>>

    ghost predicate Valid()
      reads this`sprite
    {
      numRings >= 1 && radius > 0.0 && expansionFactor > 1.0
      && IsGrid(sprite, |sprite|, if |sprite| == 0 then 0 else |sprite[0]|)
    }

    constructor(radius: real, intensity: real, hue: real, numRings: int, expansionFactor: real, alpha: real, alphaDecay: real)
      requires SpriteCheck(radius, intensity, hue, numRings, expansionFactor, alpha, alphaDecay) == Pass
      ensures this.radius == radius && this.intensity == intensity && this.hue == hue && this.numRings == numRings
      ensures this.expansionFactor == expansionFactor && this.alpha == alpha && this.alphaDecay == alphaDecay
      ensures !outOfFrame && size.None? && Valid()
    {
      this.radius := radius;
      this.intensity := intensity;
      this.hue := hue;
      this.numRings := numRings;
      this.expansionFactor := expansionFactor;
      this.alpha := alpha;
      this.alphaDecay := alphaDecay;
      outOfFrame := false;
      size := None;
      sprite := [];
    }

    /** `_build_sprite`: the half-width follows from the ring parameters and is at least
        radius + 3; the bitmap itself is the library's rasterisation, given here. */
    method BuildSprite(drawn: seq<seq<Pixel>>)
      requires Valid()
      requires IsGrid(drawn, |drawn|, if |drawn| == 0 then 0 else |drawn[0]|)
      modifies this`size, this`sprite
      ensures Valid() && sprite == drawn
      ensures size == Some(RingSpriteSize(radius, expansionFactor, numRings))
      ensures size.value as real >= radius + 3.0
    {
      RingSpriteSizeCovers(radius, expansionFactor, numRings);
      size := Some(RingSpriteSize(radius, expansionFactor, numRings));
      sprite := drawn;
    }

    /** `write_to_image(img_matrix)` as written: it reads `self._coord`, which nothing
        assigns. */
    method WriteToImageAsWritten(img: array2<Pixel>) returns (r: Outcome)
      ensures r == Fail(AttributeError)
    {
      return Fail(AttributeError);
    }

    /** `write_to_image` with the coordinate supplied: without a built sprite the read of
        `_size` raises AttributeError; otherwise a sprite wholly beyond an edge sets
        `out_of_frame` and leaves the frame alone, and an in-frame sprite is added over
        its window. The flag never returns to False. */
    method WriteToImage(coord: (real, real), img: array2<Pixel>) returns (r: Outcome)
      requires Valid()
      modifies this`outOfFrame, img
      ensures old(outOfFrame) ==> outOfFrame
      ensures size.None? ==> r == Fail(AttributeError) && outOfFrame == old(outOfFrame) && unchanged(img)
      ensures size.Some? ==> (r == Pass
        && var pl := Placement(SpriteStart(coord.0, size.value as real), SpriteStart(coord.1, size.value as real), |sprite|, if |sprite| == 0 then 0 else |sprite[0]|, img.Length0, img.Length1);
        (pl.None? ==> outOfFrame && unchanged(img))
        && (pl.Some? ==> (
              outOfFrame == old(outOfFrame) && Fits(pl.value.0, pl.value.1, img.Length0, img.Length1, sprite)
              && Pasted(img, old(GridOf(img)), pl.value.0, pl.value.1, sprite, AddPixel))))
    {
      if size.None? {
        return Fail(AttributeError);
      }
      var off := AddSprite(img, SpriteStart(coord.0, size.value as real), SpriteStart(coord.1, size.value as real), sprite);
      if off {
        outOfFrame := true;
      }
      return Pass;
    }
  }

  /** `GlowingParticleSprite(...)`: a ValueError for a rejected parameter, otherwise a
      fresh sprite that is in frame and not yet built. */
  method NewGlowingParticleSprite(radius: real, intensity: real, hue: real, numRings: int, expansionFactor: real, alpha: real, alphaDecay: real)
    returns (r: Result<GlowingParticleSprite>)
    ensures r.Err? <==> SpriteCheck(radius, intensity, hue, numRings, expansionFactor, alpha, alphaDecay).Fail?
    ensures r.Err? ==> r.error == ValueError
    ensures r.Ok? ==> (fresh(r.value) && r.value.radius == radius && r.value.intensity == intensity && r.value.hue == hue
      && r.value.numRings == numRings && r.value.expansionFactor == expansionFactor
      && r.value.alpha == alpha && r.value.alphaDecay == alphaDecay
      && !r.value.outOfFrame && r.value.size.None? && r.value.Valid())
  {
    if SpriteCheck(radius, intensity, hue, numRings, expansionFactor, alpha, alphaDecay).Fail? {
      return Err(ValueError);
    }
    var s := new GlowingParticleSprite(radius, intensity, hue, numRings, expansionFactor, alpha, alphaDecay);
    return Ok(s);
  }
}
