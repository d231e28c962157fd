/** pyfx.sprites.base: the base sprite, a 5x5 opaque white square, and its
    `write_to_image`, which clips the sprite against the frame and composites the
    visible window over the frame with `alpha_composite`. `_size` is defined only by
    subclasses; it is a constructor argument here. */
module Sprites {
  import opened Common
  import opened Raster
  import opened Convert

  /** `_build_sprite`: a (5, 5, 4) uint8 array, every channel 255. */
  function DefaultSprite(): (s: seq<seq<Pixel>>)
    ensures IsGrid(s, 5, 5)
    ensures forall i, j :: 0 <= i < 5 && 0 <= j < 5 ==> s[i][j] == Pixel(255, 255, 255, 255)
  {
    seq(5, _ => seq(5, _ => Pixel(255, 255, 255, 255)))
  }

  /** The frame window and the sprite window `alpha_composite` receives. */
  function Windows(g: seq<seq<Pixel>>, h: nat, w: nat, c0: AxisClip, c1: AxisClip, src: seq<seq<Pixel>>): (ws: (seq<seq<Pixel>>, seq<seq<Pixel>>))
    requires IsGrid(g, h, w) && Fits(c0, c1, h, w, src)
    ensures Rect(ws.0) && Rect(ws.1)
  {
    (SubGrid(g, c0.dstLo, c0.dstHi, c1.dstLo, c1.dstHi), SubGrid(src, c0.srcLo, c0.srcHi, c1.srcLo, c1.srcHi))
  }

  /** What `write_to_image` stores in the window is the array `alpha_composite` returns:
      at each window position, the frame pixel composited with the sprite pixel above it. */
  lemma PastedIsComposite(g: seq<seq<Pixel>>, h: nat, w: nat, c0: AxisClip, c1: AxisClip, src: seq<seq<Pixel>>, over: (Pixel, Pixel) -> Pixel, p: int, q: int)
    requires IsGrid(g, h, w) && Fits(c0, c1, h, w, src)
    requires CompositeFrames(Windows(g, h, w, c0, c1, src).0, Windows(g, h, w, c0, c1, src).1, over).Ok?
    requires 0 <= p < h && 0 <= q < w && InWindow(c0, c1, p, q)
    ensures var ws := Windows(g, h, w, c0, c1, src);
      var a := CompositeFrames(ws.0, ws.1, over).value;
      p - c0.dstLo < |a| && q - c1.dstLo < |a[p - c0.dstLo]|
      && a[p - c0.dstLo][q - c1.dstLo] == over(g[p][q], SrcPixel(src, c0, c1, h, w, p, q))
  {
    var ws := Windows(g, h, w, c0, c1, src);
    WindowsAt(g, h, w, c0, c1, src, p, q);
    CompositeAt(ws.0, ws.1, over, p - c0.dstLo, q - c1.dstLo);
  }

  /** Frame position (p, q) of the window is the frame pixel there in the first window
      and the sprite pixel above it in the second. */
  lemma WindowsAt(g: seq<seq<Pixel>>, h: nat, w: nat, c0: AxisClip, c1: AxisClip, src: seq<seq<Pixel>>, p: int, q: int)
    requires IsGrid(g, h, w) && Fits(c0, c1, h, w, src)
    requires 0 <= p < h && 0 <= q < w && InWindow(c0, c1, p, q)
    ensures var ws := Windows(g, h, w, c0, c1, src);
      p - c0.dstLo < |ws.0| && q - c1.dstLo < Width(ws.0)
      && ws.0[p - c0.dstLo][q - c1.dstLo] == g[p][q]
      && ws.1[p - c0.dstLo][q - c1.dstLo] == SrcPixel(src, c0, c1, h, w, p, q)
  {
  }

  /** A successful composite holds, at each position, the bottom pixel composited with
      the top one. */
  lemma CompositeAt(bottom: seq<seq<Pixel>>, top: seq<seq<Pixel>>, over: (Pixel, Pixel) -> Pixel, i: nat, j: nat)
    requires Rect(bottom) && Rect(top) && CompositeFrames(bottom, top, over).Ok?
    requires i < |bottom| && j < Width(bottom)
    ensures var a := CompositeFrames(bottom, top, over).value;
      i < |a| && j < |a[i]| && a[i][j] == over(bottom[i][j], top[i][j])
  {
  }

  class Sprite {
    var outOfFrame: bool
    const sprite: seq<seq<Pixel>>
    /** The subclass's `_size`, or None for the base class, which never sets it. */
    const size: Option<real>

    constructor(size: Option<real>)
      ensures !outOfFrame && sprite == DefaultSprite() && this.size == size
    {
      outOfFrame := false;
      sprite := DefaultSprite();
      this.size := size;
    }

    /** `write_to_image(coord, img_matrix)`. Without `_size` the first line raises
        AttributeError. Otherwise out_of_frame is reset and then set exactly when the
        sprite lies wholly beyond an edge, in which case the frame is untouched; else the
        window of the frame becomes the composite of itself and the visible part of the
        sprite (or `alpha_composite` raises, before anything is written). */
    method WriteToImage(coord: (real, real), img: array2<Pixel>, over: (Pixel, Pixel) -> Pixel) returns (r: Outcome)
      requires IsGrid(sprite, |sprite|, if |sprite| == 0 then 0 else |sprite[0]|)
      modifies this`outOfFrame, img
      ensures size.None? ==> r == Fail(AttributeError) && outOfFrame == old(outOfFrame) && unchanged(img)
      ensures size.Some? ==>
        var pl := Placement(SpriteStart(coord.0, size.value), SpriteStart(coord.1, size.value), |sprite|, if |sprite| == 0 then 0 else |sprite[0]|, img.Length0, img.Length1);
        (outOfFrame <==> pl.None?)
        && (pl.None? ==> r == Pass && unchanged(img))
        && (pl.Some? ==>
              Fits(pl.value.0, pl.value.1, img.Length0, img.Length1, sprite)
              && var ws := Windows(old(GridOf(img)), img.Length0, img.Length1, pl.value.0, pl.value.1, sprite);
              (CompositeFrames(ws.0, ws.1, over).Err? ==> r == Fail(CompositeFrames(ws.0, ws.1, over).error) && unchanged(img))
              && (CompositeFrames(ws.0, ws.1, over).Ok? ==> r == Pass && Pasted(img, old(GridOf(img)), pl.value.0, pl.value.1, sprite, over)))
    {
      if size.None? {
        return Fail(AttributeError);
      }
      var w := if |sprite| == 0 then 0 else |sprite[0]|;
      var start0 := SpriteStart(coord.0, size.value);
      var start1 := SpriteStart(coord.1, size.value);
      outOfFrame := false;
      var off0, lo0, hi0, slo0, shi0 := ClipAxisSteps(start0, |sprite|, img.Length0);
      if off0 {
        outOfFrame := true;
        return Pass;
      }
      var off1, lo1, hi1, slo1, shi1 := ClipAxisSteps(start1, w, img.Length1);
      if off1 {
        outOfFrame := true;
        return Pass;
      }
      PlacementFits(start0, start1, sprite, img.Length0, img.Length1);
      var c0, c1 := Span(lo0, hi0, slo0, shi0), Span(lo1, hi1, slo1, shi1);
      var ws := Windows(GridOf(img), img.Length0, img.Length1, c0, c1, sprite);
      var a := CompositeFrames(ws.0, ws.1, over);
      if a.Err? {
        return Fail(a.error);
      }
      BlendWindow(img, c0, c1, sprite, over);
      return Pass;
    }
  }
}
