/** Raster vocabulary shared by the compositing code: RGBA pixels, rectangular grids,
    numpy's float-to-uint8 cast, and the clipping of a sprite's window against the
    frame that every `write_to_image` copy performs. */
module Raster {
  import opened Common

  /** One RGBA pixel of a four-channel array; channels hold integer values. */
  datatype Pixel = Pixel(r: int, g: int, b: int, a: int)

  predicate IsByte(n: int) { 0 <= n <= 255 }

  predicate PixelIsBytes(p: Pixel) {
    IsByte(p.r) && IsByte(p.g) && IsByte(p.b) && IsByte(p.a)
  }

  /** g is an h-by-w rectangle. */
  predicate IsGrid<T>(g: seq<seq<T>>, h: nat, w: nat) {
    |g| == h && forall i :: 0 <= i < h ==> |g[i]| == w
  }

  /** Every pixel of the rectangle holds uint8 values. */
  predicate GridIsBytes(g: seq<seq<Pixel>>) {
    forall i, j :: 0 <= i < |g| && 0 <= j < |g[i]| ==> PixelIsBytes(g[i][j])
  }

  /** The rows [lo, hi) and columns [clo, chi) of a grid. */
  function SubGrid<T>(g: seq<seq<T>>, lo: nat, hi: nat, clo: nat, chi: nat): (s: seq<seq<T>>)
    requires lo <= hi <= |g| && clo <= chi
    requires forall i :: lo <= i < hi ==> chi <= |g[i]|
    ensures IsGrid(s, hi - lo, chi - clo)
    ensures forall i, j :: 0 <= i < hi - lo && 0 <= j < chi - clo ==> s[i][j] == g[lo + i][clo + j]
  {
    seq(hi - lo, i requires 0 <= i < hi - lo => g[lo + i][clo..chi])
  }

  /** The contents of a two-dimensional array as a grid. */
  function GridOf<T>(a: array2<T>): (g: seq<seq<T>>)
    reads a
    ensures IsGrid(g, a.Length0, a.Length1)
    ensures forall i, j :: 0 <= i < a.Length0 && 0 <= j < a.Length1 ==> g[i][j] == a[i, j]
  {
    seq(a.Length0, i requires 0 <= i < a.Length0 reads a => seq(a.Length1, j requires 0 <= j < a.Length1 reads a => a[i, j]))
  }

  /** numpy's cast of a value to uint8: truncation, then wrap-around modulo 256
      (the wrap-around is what current platforms do for out-of-range values). */
  function ToUint8(x: real): (n: int)
    ensures IsByte(n)
    ensures 0.0 <= x < 256.0 ==> n == x.Floor
  {
    Trunc(x) % 256
  }

  /** uint8 addition: the sum wraps modulo 256. */
  function AddUint8(x: int, y: int): (n: int)
    ensures IsByte(n)
    ensures IsByte(x) && IsByte(y) && x + y <= 255 ==> n == x + y
    ensures IsByte(x) && IsByte(y) && x + y > 255 ==> n == x + y - 256
  {
    (x + y) % 256
  }

  // ---------------------------------------------------------------------------
  // Clipping a sprite window against the frame, one axis at a time
  // ---------------------------------------------------------------------------

  /** The outcome of clipping along one axis: the sprite lies wholly beyond an edge, or
      destination rows [dstLo, dstHi) of the frame receive sprite rows [srcLo, srcHi). */
  datatype AxisClip = OffFrame | Span(dstLo: int, dstHi: int, srcLo: int, srcHi: int)

  /** Clip the sprite extent [start, start + size) to the frame extent [0, dim).
      The sprite is off the frame exactly when it starts before 0 and ends at or before 0,
      or starts at or after dim; otherwise the destination is the intersection of the two extents and
      the source is that intersection shifted by -start. */
  function ClipAxis(start: int, size: nat, dim: nat): (c: AxisClip)
    ensures c.OffFrame? <==> (start < 0 && start + size <= 0) || start >= dim
    ensures c.Span? ==> c.dstLo == Max(start, 0) && c.dstHi == Min(start + size, dim)
    ensures c.Span? ==> c.srcLo == c.dstLo - start && c.srcHi == c.dstHi - start
  {
    if (start < 0 && start + size <= 0) || start >= dim then OffFrame
    else Span(Max(start, 0), Min(start + size, dim), Max(start, 0) - start, Min(start + size, dim) - start)
  }

  /** Consequences of ClipAxis the writers rely on: both windows lie inside their
      arrays and have the same extent. */
  lemma ClipAxisWindows(start: int, size: nat, dim: nat)
    requires ClipAxis(start, size, dim).Span?
    ensures var c := ClipAxis(start, size, dim);
      0 <= c.dstLo <= c.dstHi <= dim && 0 <= c.srcLo <= c.srcHi <= size
      && c.dstHi - c.dstLo == c.srcHi - c.srcLo
      && (size > 0 && dim > 0 ==> c.dstLo < c.dstHi)
  {
  }

  /** The bound adjustment as the Python code performs it: first the low edge, then
      the high edge, each able to give up on the sprite being in frame. */
  method ClipAxisSteps(start: int, size: nat, dim: nat) returns (off: bool, lo: int, hi: int, slo: int, shi: int)
    ensures off <==> ClipAxis(start, size, dim).OffFrame?
    ensures !off ==> ClipAxis(start, size, dim) == Span(lo, hi, slo, shi)
  {
    lo := start;
    hi := lo + size;
    slo := 0;
    shi := size;
    off := false;
    if lo < 0 {
      slo := -lo;
      if slo >= size {
        off := true;
        return;
      }
      lo := 0;
    }
    if hi >= dim {
      shi := shi - (hi - dim);
      if shi <= 0 {
        off := true;
        return;
      }
      hi := dim;
    }
  }

  // ---------------------------------------------------------------------------
  // Placing a sprite in a frame
  // ---------------------------------------------------------------------------

  /** The first frame index a sprite covers along one axis: `int(np.round(c - size - 1))`. */
  function SpriteStart(c: real, size: real): int {
    Round(c - size - 1.0)
  }

  /** Where an h-by-w sprite whose corner is at (start0, start1) lands in a frameH-by-frameW
      frame: nowhere when it lies wholly beyond an edge on either axis, otherwise the
      clip of each axis. */
  function Placement(start0: int, start1: int, h: nat, w: nat, frameH: nat, frameW: nat): (p: Option<(AxisClip, AxisClip)>)
    ensures p.None? <==> ClipAxis(start0, h, frameH).OffFrame? || ClipAxis(start1, w, frameW).OffFrame?
    ensures p.Some? ==> p.value == (ClipAxis(start0, h, frameH), ClipAxis(start1, w, frameW))
  {
    var c0 := ClipAxis(start0, h, frameH);
    var c1 := ClipAxis(start1, w, frameW);
    if c0.OffFrame? || c1.OffFrame? then None else Some((c0, c1))
  }

  /** (p, q) lies in the destination window of the two clips. */
  predicate InWindow(c0: AxisClip, c1: AxisClip, p: int, q: int)
    requires c0.Span? && c1.Span?
  {
    c0.dstLo <= p < c0.dstHi && c1.dstLo <= q < c1.dstHi
  }

  /** The two clips fit an h-by-w frame and a rectangular sprite. */
  predicate Fits(c0: AxisClip, c1: AxisClip, frameH: nat, frameW: nat, src: seq<seq<Pixel>>) {
    c0.Span? && c1.Span?
    && 0 <= c0.dstLo <= c0.dstHi <= frameH && 0 <= c1.dstLo <= c1.dstHi <= frameW
    && 0 <= c0.srcLo && c0.srcHi <= |src| && 0 <= c1.srcLo
    && c0.dstHi - c0.dstLo == c0.srcHi - c0.srcLo && c1.dstHi - c1.dstLo == c1.srcHi - c1.srcLo
    && forall i :: 0 <= i < |src| ==> c1.srcHi <= |src[i]|
  }

  /** The sprite pixel that lands on frame position (p, q) of the window. */
  function SrcPixel(src: seq<seq<Pixel>>, c0: AxisClip, c1: AxisClip, frameH: nat, frameW: nat, p: int, q: int): Pixel
    requires Fits(c0, c1, frameH, frameW, src) && InWindow(c0, c1, p, q)
  {
    src[p - c0.dstLo + c0.srcLo][q - c1.dstLo + c1.srcLo]
  }

  /** The clips of a placed sprite fit the frame and the sprite. */
  lemma PlacementFits(start0: int, start1: int, src: seq<seq<Pixel>>, frameH: nat, frameW: nat)
    requires IsGrid(src, |src|, if |src| == 0 then 0 else |src[0]|)
    requires Placement(start0, start1, |src|, if |src| == 0 then 0 else |src[0]|, frameH, frameW).Some?
    ensures var p := Placement(start0, start1, |src|, if |src| == 0 then 0 else |src[0]|, frameH, frameW).value;
      Fits(p.0, p.1, frameH, frameW, src)
  {
    var w := if |src| == 0 then 0 else |src[0]|;
    ClipAxisWindows(start0, |src|, frameH);
    ClipAxisWindows(start1, w, frameW);
  }

  /** The frame g blended with the sprite inside the window and untouched outside it. */
  ghost predicate Pasted(img: array2<Pixel>, g: seq<seq<Pixel>>, c0: AxisClip, c1: AxisClip, src: seq<seq<Pixel>>, blend: (Pixel, Pixel) -> Pixel)
    reads img
    requires IsGrid(g, img.Length0, img.Length1) && Fits(c0, c1, img.Length0, img.Length1, src)
  {
    forall p, q :: 0 <= p < img.Length0 && 0 <= q < img.Length1 ==>
      img[p, q] == if InWindow(c0, c1, p, q) then blend(g[p][q], SrcPixel(src, c0, c1, img.Length0, img.Length1, p, q)) else g[p][q]
  }

  /** `img[x_min:x_max, y_min:y_max] = blend(img[...], sprite[i_min:i_max, j_min:j_max])`,
      cell by cell. */
  method BlendWindow(img: array2<Pixel>, c0: AxisClip, c1: AxisClip, src: seq<seq<Pixel>>, blend: (Pixel, Pixel) -> Pixel)
    requires Fits(c0, c1, img.Length0, img.Length1, src)
    modifies img
    ensures Pasted(img, old(GridOf(img)), c0, c1, src, blend)
  {
    ghost var g := GridOf(img);
    for p := c0.dstLo to c0.dstHi
      invariant forall p', q :: 0 <= p' < img.Length0 && 0 <= q < img.Length1 ==>
        img[p', q] == if c0.dstLo <= p' < p && c1.dstLo <= q < c1.dstHi then blend(g[p'][q], SrcPixel(src, c0, c1, img.Length0, img.Length1, p', q)) else g[p'][q]
    {
      for q := c1.dstLo to c1.dstHi
        invariant forall p', q' :: 0 <= p' < img.Length0 && 0 <= q' < img.Length1 ==>
          img[p', q'] == if (c0.dstLo <= p' < p && c1.dstLo <= q' < c1.dstHi) || (p' == p && c1.dstLo <= q' < q) then blend(g[p'][q'], SrcPixel(src, c0, c1, img.Length0, img.Length1, p', q')) else g[p'][q']
      {
        img[p, q] := blend(img[p, q], SrcPixel(src, c0, c1, img.Length0, img.Length1, p, q));
      }
    }
  }

  /** The half-width `_size` of a ring sprite: `int(np.ceil(radius * expansion_factor **
      (num_rings - 1) + 3))`. */
  function RingSpriteSize(radius: real, expansionFactor: real, numRings: int): int
    requires numRings >= 1
  {
    Ceil(radius * Pow(expansionFactor, numRings - 1) + 3.0)
  }

  /** With a non-negative radius and an expansion factor of at least 1 the sprite reaches
      at least three pixels beyond the innermost ring, and its side 2·size + 1 is at
      least 7. */
  lemma RingSpriteSizeCovers(radius: real, expansionFactor: real, numRings: int)
    requires numRings >= 1 && radius >= 0.0 && expansionFactor >= 1.0
    ensures RingSpriteSize(radius, expansionFactor, numRings) as real >= radius + 3.0
    ensures 2 * RingSpriteSize(radius, expansionFactor, numRings) + 1 >= 7
  {
    PowAtLeastOne(expansionFactor, numRings - 1);
    MulMonotone(radius, 1.0, Pow(expansionFactor, numRings - 1));
  }

  /** The additive blend of the particle sprites: each colour channel is a uint8 sum
      (wrapping modulo 256), the alpha is the sum capped at 255. */
  function AddPixel(dst: Pixel, src: Pixel): Pixel {
    Pixel(AddUint8(dst.r, src.r), AddUint8(dst.g, src.g), AddUint8(dst.b, src.b), Min(dst.a + src.a, 255))
  }

  /** On uint8 pixels the additive blend stays uint8, never lowers the alpha, saturates
      it at 255, and wraps each colour channel. */
  lemma AddPixelMeaning(dst: Pixel, src: Pixel)
    requires PixelIsBytes(dst) && PixelIsBytes(src)
    ensures var p := AddPixel(dst, src);
      PixelIsBytes(p) && p.a >= dst.a && p.a >= src.a
      && (dst.a + src.a <= 255 ==> p.a == dst.a + src.a) && (dst.a + src.a > 255 ==> p.a == 255)
      && p.r == (dst.r + src.r) % 256 && p.g == (dst.g + src.g) % 256 && p.b == (dst.b + src.b) % 256
  {
  }

  /** The additive write shared by the particle sprites: the clip of each axis in turn,
      then the additive blend over the window. `off` reports a sprite wholly beyond an
      edge, in which case the frame is untouched. */
  method AddSprite(img: array2<Pixel>, start0: int, start1: int, src: seq<seq<Pixel>>) returns (off: bool)
    requires IsGrid(src, |src|, if |src| == 0 then 0 else |src[0]|)
    modifies img
    ensures var pl := Placement(start0, start1, |src|, if |src| == 0 then 0 else |src[0]|, img.Length0, img.Length1);
      (off <==> pl.None?)
      && (off ==> unchanged(img))
      && (!off ==> Fits(pl.value.0, pl.value.1, img.Length0, img.Length1, src) && Pasted(img, old(GridOf(img)), pl.value.0, pl.value.1, src, AddPixel))
  {
    var w := if |src| == 0 then 0 else |src[0]|;
    var off0, lo0, hi0, slo0, shi0 := ClipAxisSteps(start0, |src|, img.Length0);
    if off0 {
      return true;
    }
    var off1, lo1, hi1, slo1, shi1 := ClipAxisSteps(start1, w, img.Length1);
    if off1 {
      return true;
    }
    PlacementFits(start0, start1, src, img.Length0, img.Length1);
    BlendWindow(img, Span(lo0, hi0, slo0, shi0), Span(lo1, hi1, slo1, shi1), src, AddPixel);
    return false;
  }
}
