/** pyfx.visuals.sprites.base: the second copy of the base sprite. Its
    `write_to_image` names the axes the other way round (x runs along axis 1 from
    coord[1], y along axis 0 from coord[0]) and clips axis 1 first, which places the
    sprite exactly as pyfx.sprites.base does. */
module VisualSprites {
  import opened Common
  import opened Raster
  import opened Convert
  import Sprites

  class Sprite {
    var outOfFrame: bool
    const sprite: seq<seq<Pixel>>
    /** The subclass's `_size`, or None for the base class, which never sets it. */
    const size: Option<real>

    constructor(size: Option<real>)
      ensures !outOfFrame && sprite == Sprites.DefaultSprite() && this.size == size
    {
      outOfFrame := false;
      sprite := Sprites.DefaultSprite();
      this.size := size;
    }

    /** `write_to_image(coord, img_matrix)`: the same contract as the pyfx.sprites copy;
        only the order of the clipping steps differs. */
    method WriteToImage(coord: (real, real), img: array2<Pixel>, over: (Pixel, Pixel) -> Pixel) returns (r: Outcome)
      requires IsGrid(sprite, |sprite|, if |sprite| == 0 then 0 else |sprite[0]|)
      modifies this`outOfFrame, img
      ensures size.None? ==> r == Fail(AttributeError) && outOfFrame == old(outOfFrame) && unchanged(img)
      ensures size.Some? ==>
        var pl := Placement(SpriteStart(coord.0, size.value), SpriteStart(coord.1, size.value), |sprite|, if |sprite| == 0 then 0 else |sprite[0]|, img.Length0, img.Length1);
        (outOfFrame <==> pl.None?)
        && (pl.None? ==> r == Pass && unchanged(img))
        && (pl.Some? ==>
              Fits(pl.value.0, pl.value.1, img.Length0, img.Length1, sprite)
              && var ws := Sprites.Windows(old(GridOf(img)), img.Length0, img.Length1, pl.value.0, pl.value.1, sprite);
              (CompositeFrames(ws.0, ws.1, over).Err? ==> r == Fail(CompositeFrames(ws.0, ws.1, over).error) && unchanged(img))
              && (CompositeFrames(ws.0, ws.1, over).Ok? ==> r == Pass && Pasted(img, old(GridOf(img)), pl.value.0, pl.value.1, sprite, over)))
    {
      if size.None? {
        return Fail(AttributeError);
      }
      var w := if |sprite| == 0 then 0 else |sprite[0]|;
      var xMin := SpriteStart(coord.1, size.value);
      var yMin := SpriteStart(coord.0, size.value);
      outOfFrame := false;
      var offX, loX, hiX, sloX, shiX := ClipAxisSteps(xMin, w, img.Length1);
      if offX {
        outOfFrame := true;
        return Pass;
      }
      var offY, loY, hiY, sloY, shiY := ClipAxisSteps(yMin, |sprite|, img.Length0);
      if offY {
        outOfFrame := true;
        return Pass;
      }
      PlacementFits(yMin, xMin, sprite, img.Length0, img.Length1);
      var cY, cX := Span(loY, hiY, sloY, shiY), Span(loX, hiX, sloX, shiX);
      var ws := Sprites.Windows(GridOf(img), img.Length0, img.Length1, cY, cX, sprite);
      var a := CompositeFrames(ws.0, ws.1, over);
      if a.Err? {
        return Fail(a.error);
      }
      BlendWindow(img, cY, cX, sprite, over);
      return Pass;
    }
  }
}
