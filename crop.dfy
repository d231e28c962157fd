/** pyfx.util.crop: crop validation, mirrored expansion and the pan, rotate and zoom crop
    calculations. Pixel shifts and factors are reals; numpy's floating point is not
    modelled. */
module Crop {
  import opened Common
  import Convert
  import opened Raster

  /** A slice bound as Python normalises it for a sequence of length n (step 1). */
  function SliceBound(n: nat, i: int): (k: nat)
    ensures k <= n
  {
    if i < 0 then Max(i + n, 0) else Min(i, n)
  }

  /** The half-open range [lo, hi) that `s[start:stop]` selects. */
  function SliceRange(n: nat, start: int, stop: int): (r: (nat, nat))
    ensures r.0 <= r.1 <= n
    ensures 0 <= start <= stop <= n ==> r == (start, stop)
  {
    var lo := SliceBound(n, start);
    var hi := SliceBound(n, stop);
    (lo, Max(lo, hi))
  }

  /** `crop(img, x_crop, y_crop)` on an image of the given shape: each crop must be a pair
      of non-negative values (checked before rounding), the image must have two or three
      axes, and `skimage.util.crop` keeps `[a, n - b)` of an axis cropped by (a, b), the
      channel axis not being cropped. The result is the kept range of every axis. */
  function CropRanges(shape: seq<nat>, xCrop: seq<real>, yCrop: seq<real>): (r: Result<seq<(nat, nat)>>)
    ensures r.Err? <==> (|xCrop| != 2 || |yCrop| != 2
      || xCrop[0] < 0.0 || xCrop[1] < 0.0 || yCrop[0] < 0.0 || yCrop[1] < 0.0
      || (|shape| != 2 && |shape| != 3))
    ensures r.Err? ==> r.error == ValueError
    ensures r.Ok? ==> |r.value| == |shape|
  {
    if |xCrop| != 2 || |yCrop| != 2 then Err(ValueError)
    else if xCrop[0] < 0.0 || xCrop[1] < 0.0 || yCrop[0] < 0.0 || yCrop[1] < 0.0 then Err(ValueError)
    else
      var x, y := (Round(xCrop[0]), Round(xCrop[1])), (Round(yCrop[0]), Round(yCrop[1]));
      if |shape| == 2 then Ok([SliceRange(shape[0], x.0, shape[0] - x.1), SliceRange(shape[1], y.0, shape[1] - y.1)])
      else if |shape| == 3 then
        Ok([SliceRange(shape[0], x.0, shape[0] - x.1), SliceRange(shape[1], y.0, shape[1] - y.1), (0, shape[2])])
      else Err(ValueError)
  }

  /** A crop that fits takes exactly a pixels from the start and b from the end of the
      first two axes, and the channel axis is kept whole. */
  lemma CropFits(shape: seq<nat>, xCrop: seq<real>, yCrop: seq<real>)
    requires |shape| == 2 || |shape| == 3
    requires |xCrop| == 2 && |yCrop| == 2
    requires xCrop[0] >= 0.0 && xCrop[1] >= 0.0 && yCrop[0] >= 0.0 && yCrop[1] >= 0.0
    requires Round(xCrop[0]) + Round(xCrop[1]) <= shape[0] && Round(yCrop[0]) + Round(yCrop[1]) <= shape[1]
    ensures var r := CropRanges(shape, xCrop, yCrop);
      r.Ok? && r.value[0] == (Round(xCrop[0]), shape[0] - Round(xCrop[1]))
      && r.value[1] == (Round(yCrop[0]), shape[1] - Round(yCrop[1]))
      && (|shape| == 3 ==> r.value[2] == (0, shape[2]))
  {
    RoundMonotone(0.0, xCrop[0]);
    RoundMonotone(0.0, xCrop[1]);
    RoundMonotone(0.0, yCrop[0]);
    RoundMonotone(0.0, yCrop[1]);
    RoundOfInt(0);
  }

  /** A crop plan: pixels to take off each side of both axes, and the new frame size. */
  datatype CropPlan = CropPlan(cropX: (int, int), cropY: (int, int), newWidth: int, newHeight: int)

  /** `np.min(s)` raised to at most 0 and `np.max(s)` lowered to at least 0. */
  function LowShift(s: seq<real>): (m: real)
    requires s != []
    ensures m <= 0.0
  {
    MinReal(MinOf(s), 0.0)
  }

  function HighShift(s: seq<real>): (m: real)
    requires s != []
    ensures m >= 0.0
  {
    MaxReal(MaxOf(s), 0.0)
  }

  /** The largest excursion: `abs(min) + max`. */
  function MaxShift(s: seq<real>): (m: real)
    requires s != []
    ensures m >= 0.0
  {
    AbsReal(LowShift(s)) + HighShift(s)
  }

  /** The share of the crop on the positive side: `max/max_shift`, or one half with no shift. */
  function PositiveShare(s: seq<real>): (f: real)
    requires s != []
    ensures 0.0 <= f <= 1.0
    ensures MaxShift(s) == 0.0 ==> f == 0.5
  {
    var m := MaxShift(s);
    if m == 0.0 then 0.5
    else
      DivUnit(HighShift(s), m);
      HighShift(s) / m
  }

  /** Splitting total pixels by fraction f: the second side gets round(total * f), the first
      round(total * (1 - f)) plus the offset that makes the two add up to total. */
  function SplitPixels(total: int, f: real): (r: (int, int))
    ensures r.0 + r.1 == total
    ensures r.1 == Round(total as real * f)
  {
    var second := Round(total as real * f);
    var first := Round(total as real * (1.0 - f));
    var offset := total - (second + first);
    (first + offset, second)
  }

  /** With 0 <= f <= 1 both sides of a split are between 0 and total. */
  lemma SplitPixelsBounds(total: nat, f: real)
    requires 0.0 <= f <= 1.0
    ensures 0 <= SplitPixels(total, f).0 <= total && 0 <= SplitPixels(total, f).1 <= total
  {
    RoundedFraction(total, f);
  }

  /** round(total·f) lies in [0, total] for 0 <= f <= 1. */
  lemma RoundedFraction(total: nat, f: real)
    requires 0.0 <= f <= 1.0
    ensures 0 <= Round(total as real * f) <= total
  {
    var a := total as real;
    var x := a * f;
    FractionBounds(a, f);
    assert 0.0 <= x <= a;
    RoundMonotone(0.0, x);
    RoundMonotone(x, a);
    RoundOfInt(0);
    RoundOfInt(total);
  }

  /** `int(round(f * n))`: never negative for non-negative f and n, and at most n when f <= 1. */
  function ScaledPixels(n: int, f: real): (k: int)
    ensures n >= 0 && f >= 0.0 ==> k >= 0
    ensures n >= 0 && 0.0 <= f <= 1.0 ==> k <= n
  {
    if n >= 0 && f >= 0.0 then
      ScaledRound(n, f);
      Round(f * n as real)
    else Round(f * n as real)
  }

  /** The crop factor `find_pan_crop` uses: the larger proportional shift of the two axes. */
  function PanFactor(x: seq<real>, y: seq<real>, width: int, height: int): (fx: real)
    requires x != [] && y != [] && width > 0 && height > 0
    ensures fx >= MaxShift(x) / width as real && fx >= MaxShift(y) / height as real
    ensures fx == MaxShift(x) / width as real || fx == MaxShift(y) / height as real
    ensures fx >= 0.0
  {
    var px, py := MaxShift(x) / width as real, MaxShift(y) / height as real;
    if px >= py then px else py
  }

  /** `find_pan_crop(x, y, width, height)`: x and y are the pan shifts over time; np.min of
      an empty shift list raises ValueError. */
  function PanCrop(x: seq<real>, y: seq<real>, width: int, height: int): (r: Result<CropPlan>)
    requires width > 0 && height > 0
    ensures r.Err? <==> x == [] || y == []
    ensures r.Err? ==> r.error == ValueError
  {
    if x == [] || y == [] then Err(ValueError)
    else
      var fx := PanFactor(x, y, width, height);
      var xPix := ScaledPixels(width, fx);
      var yPix := ScaledPixels(height, fx);
      Ok(CropPlan(SplitPixels(xPix, PositiveShare(x)), SplitPixels(yPix, PositiveShare(y)),
                  width - xPix, height - yPix))
  }

  /** The pan crop removes round(fx * width) columns and round(fx * height) rows, fx being
      the larger proportional shift; the two sides of each axis add up to exactly that,
      neither side is negative, an axis without shift is split evenly, and the new size is
      the old size less the crop. */
  lemma PanCropPlan(x: seq<real>, y: seq<real>, width: int, height: int)
    requires width > 0 && height > 0 && x != [] && y != []
    ensures var p := PanCrop(x, y, width, height).value;
      var fx := PanFactor(x, y, width, height);
      var xPix, yPix := ScaledPixels(width, fx), ScaledPixels(height, fx);
      p.cropX.0 + p.cropX.1 == xPix && p.cropY.0 + p.cropY.1 == yPix
      && p.newWidth == width - xPix && p.newHeight == height - yPix
      && 0 <= p.cropX.0 <= xPix && 0 <= p.cropX.1 <= xPix
      && 0 <= p.cropY.0 <= yPix && 0 <= p.cropY.1 <= yPix
      && (MaxShift(x) == 0.0 ==> p.cropX.1 == Round(xPix as real * 0.5))
      && (MaxShift(y) == 0.0 ==> p.cropY.1 == Round(yPix as real * 0.5))
  {
    var fx := PanFactor(x, y, width, height);
    SplitPixelsBounds(ScaledPixels(width, fx), PositiveShare(x));
    SplitPixelsBounds(ScaledPixels(height, fx), PositiveShare(y));
  }

  /** An odd pixel count is raised by one. */
  function MakeEven(d: int): (e: int)
    ensures e % 2 == 0 && (e == d || e == d + 1)
  {
    if d % 2 != 0 then d + 1 else d
  }

  /** The even deltas split in equal halves. */
  function HalvedPlan(dx: int, dy: int, width: int, height: int): (p: CropPlan)
    requires dx % 2 == 0 && dy % 2 == 0
    ensures p.cropX.0 == p.cropX.1 && p.cropX.0 + p.cropX.1 == dx
    ensures p.cropY.0 == p.cropY.1 && p.cropY.0 + p.cropY.1 == dy
    ensures p.newWidth == width - dx && p.newHeight == height - dy
  {
    CropPlan((dx / 2, dx / 2), (dy / 2, dy / 2), width - dx, height - dy)
  }

  /** `find_rotate_crop(theta, width, height)`, with `np.sin` passed in as `sin`: the box
      rotated by the largest |theta| inside the frame, cropped by even deltas split in
      equal halves. */
  function RotateCrop(theta: seq<real>, sin: real -> real, width: int, height: int): (r: Result<CropPlan>)
    requires height != 0
    requires theta != [] ==> height as real * sin(MaxAbs(theta)) + width as real != 0.0
    ensures r.Err? <==> theta == []
    ensures r.Ok? ==> r.value.cropX.0 == r.value.cropX.1 && r.value.cropY.0 == r.value.cropY.1
    ensures r.Ok? ==> (r.value.newWidth == width - (r.value.cropX.0 + r.value.cropX.1)
      && r.value.newHeight == height - (r.value.cropY.0 + r.value.cropY.1))
    ensures r.Ok? ==> (var box := RotatedBox(width, height, sin(MaxAbs(theta)));
      EvenedFrom(r.value.cropX.0 + r.value.cropX.1, Round(width as real - box.0))
      && EvenedFrom(r.value.cropY.0 + r.value.cropY.1, Round(height as real - box.1)))
  {
    if theta == [] then Err(ValueError)
    else
      var box := RotatedBox(width, height, sin(MaxAbs(theta)));
      Ok(HalvedPlan(MakeEven(Round(width as real - box.0)), MakeEven(Round(height as real - box.1)), width, height))
  }

  /** `(w_prime, h_prime)`: the box of the frame's aspect ratio that the frame, rotated
      by an angle of sine `s`, still covers. */
  function RotatedBox(width: int, height: int, s: real): (box: (real, real))
    requires height != 0 && height as real * s + width as real != 0.0
    ensures box.1 * (height as real * s + width as real) == width as real * height as real
    ensures box.0 * height as real == width as real * box.1
  {
    var w, h := width as real, height as real;
    var hPrime := w * h / (h * s + w);
    (w * hPrime / h, hPrime)
  }

  /** `t` is the pixel count `d` made even: d itself, or one more when d is odd. */
  predicate EvenedFrom(t: int, d: int) {
    t % 2 == 0 && (t == d || t == d + 1)
  }

  /** Without rotation the rotated box is the frame itself. */
  lemma RotatedBoxUnrotated(width: int, height: int)
    requires width != 0 && height != 0
    ensures RotatedBox(width, height, 0.0) == (width as real, height as real)
  {
    var w, h := width as real, height as real;
    var box := RotatedBox(width, height, 0.0);
    assert h * 0.0 + w == w;
    assert box.1 * w == h * w;
    CancelFactor(box.1, h, w);
    assert box.0 * h == w * h;
    CancelFactor(box.0, w, h);
  }

  lemma CancelFactor(a: real, b: real, c: real)
    requires c != 0.0 && a * c == b * c
    ensures a == b
  {
    assert (a - b) * c == 0.0;
  }

  /** Without rotation nothing is cropped. */
  lemma RotateCropUnrotated(theta: seq<real>, sin: real -> real, width: int, height: int)
    requires theta != [] && width != 0 && height != 0 && sin(MaxAbs(theta)) == 0.0
    ensures var p := RotateCrop(theta, sin, width, height).value;
      p.cropX == (0, 0) && p.cropY == (0, 0) && p.newWidth == width && p.newHeight == height
  {
    RotatedBoxUnrotated(width, height);
    RoundOfInt(0);
    assert width as real - width as real == 0 as real;
    assert height as real - height as real == 0 as real;
  }

  /** `np.max(np.abs(theta))`. */
  function MaxAbs(s: seq<real>): (m: real)
    requires s != []
    ensures m >= 0.0
    ensures forall i :: 0 <= i < |s| ==> AbsReal(s[i]) <= m
  {
    if |s| == 1 then AbsReal(s[0]) else MaxReal(AbsReal(s[0]), MaxAbs(s[1..]))
  }

  /** `find_zoom_crop(magnitude, width, height)`: the smallest magnitude must be at least 1;
      each axis loses round(dim * (1 - 1/mag)) pixels, made even and split in halves. */
  function ZoomCrop(magnitude: seq<real>, width: int, height: int): (r: Result<CropPlan>)
    ensures r.Err? <==> magnitude == [] || MinOf(magnitude) < 1.0
    ensures r.Err? ==> r.error == ValueError
    ensures r.Ok? ==> r.value.cropX.0 == r.value.cropX.1 && r.value.cropY.0 == r.value.cropY.1
    ensures r.Ok? ==> (r.value.newWidth == width - (r.value.cropX.0 + r.value.cropX.1)
      && r.value.newHeight == height - (r.value.cropY.0 + r.value.cropY.1))
    ensures r.Ok? ==> (var keep := ZoomKeep(MinOf(magnitude));
      EvenedFrom(r.value.cropX.0 + r.value.cropX.1, ScaledPixels(width, keep))
      && EvenedFrom(r.value.cropY.0 + r.value.cropY.1, ScaledPixels(height, keep)))
  {
    if magnitude == [] then Err(ValueError)
    else
      var mag := MinOf(magnitude);
      if mag < 1.0 then Err(ValueError)
      else
        var keep := ZoomKeep(mag);
        Ok(HalvedPlan(MakeEven(ScaledPixels(width, keep)), MakeEven(ScaledPixels(height, keep)), width, height))
  }

  /** A zoom crop never removes a negative number of pixels nor more than the axis plus the
      one pixel that evening may add. */
  lemma ZoomCropBounds(magnitude: seq<real>, width: nat, height: nat)
    requires magnitude != [] && MinOf(magnitude) >= 1.0
    ensures var p := ZoomCrop(magnitude, width, height).value;
      0 <= p.cropX.0 + p.cropX.1 <= width + 1 && 0 <= p.cropY.0 + p.cropY.1 <= height + 1
  {
  }

  /** A smallest magnitude of exactly 1 crops nothing. */
  lemma ZoomCropUnzoomed(magnitude: seq<real>, width: int, height: int)
    requires magnitude != [] && MinOf(magnitude) == 1.0
    ensures var p := ZoomCrop(magnitude, width, height).value;
      p.cropX == (0, 0) && p.cropY == (0, 0) && p.newWidth == width && p.newHeight == height
  {
    assert ZoomKeep(1.0) == 0.0;
    assert 0.0 * width as real == 0.0 && 0.0 * height as real == 0.0;
    RoundOfInt(0);
  }

  /** The share `1 - 1/mag` of an axis a zoom removes: in [0, 1) for mag >= 1. */
  function ZoomKeep(mag: real): (k: real)
    requires mag >= 1.0
    ensures 0.0 <= k <= 1.0
  {
    DivUnit(1.0, mag);
    1.0 - 1.0 / mag
  }

  lemma ScaledRound(n: nat, f: real)
    requires f >= 0.0
    ensures 0 <= Round(f * n as real)
    ensures f <= 1.0 ==> Round(f * n as real) <= n
  {
    var x := f * n as real;
    MulNonneg(f, n as real);
    RoundMonotone(0.0, x);
    RoundOfInt(0);
    if f <= 1.0 {
      var m := n as real;
      MulMonotone(m, f, 1.0);
      assert m * f == f * m && m * 1.0 == m;
      assert x <= m;
      RoundMonotone(x, m);
      RoundOfInt(n);
    }
  }

  /** Row (or column) of the input that output row i of an axis expanded by a before and b
      after shows: the interior is the input shifted by a, and each strip mirrors the
      adjacent edge rows (`np.flip`), repeating the edge row. */
  function MirrorSource(n: nat, a: nat, b: nat, i: nat): (k: int)
    requires i < a + n + b && a <= n && b <= n
    ensures 0 <= k < n
  {
    if i < a then a - 1 - i else if i < a + n then i - a else 2 * n + a - 1 - i
  }

  /** Whether output row i lies in the interior rows [a, a + n). */
  predicate Inner(n: nat, a: nat, i: nat) {
    a <= i < a + n
  }

  function Src(s: int, flip: bool, k: int): int {
    if flip then s - k else s + k
  }

  /** The source index for position k of an assigned block: counting up or down from s,
      or always s when numpy broadcasts a single source row (or column) across it. */
  function SrcB(s: int, flip: bool, bcast: bool, k: int): int {
    if bcast then s else Src(s, flip, k)
  }

  /** One slice assignment: the nr-by-nc block of out at (r0, c0) takes the input rows
      rs, rs +/- 1, ... and columns cs, cs +/- 1, ... (descending when flipped), or the
      single row rs (column cs) repeated where the assignment broadcasts. */
  ghost predicate BlockCopied<T>(out: array2<T>, img: array2<T>, r0: nat, c0: nat, nr: nat, nc: nat,
                                 rs: int, flipR: bool, bR: bool, cs: int, flipC: bool, bC: bool)
    reads out, img
  {
    forall i, j :: r0 <= i < r0 + nr && c0 <= j < c0 + nc && i < out.Length0 && j < out.Length1 ==>
      (0 <= SrcB(rs, flipR, bR, i - r0) < img.Length0 && 0 <= SrcB(cs, flipC, bC, j - c0) < img.Length1
       && out[i, j] == img[SrcB(rs, flipR, bR, i - r0), SrcB(cs, flipC, bC, j - c0)])
  }

  /** `out[r0:r0+nr, c0:c0+nc] = img[...]`, the source rows and columns possibly flipped
      or broadcast. */
  method Blit<T>(out: array2<T>, img: array2<T>, r0: nat, c0: nat, nr: nat, nc: nat,
                 rs: int, flipR: bool, bR: bool, cs: int, flipC: bool, bC: bool)
    requires out != img
    requires r0 + nr <= out.Length0 && c0 + nc <= out.Length1
    requires forall k :: 0 <= k < nr ==> 0 <= SrcB(rs, flipR, bR, k) < img.Length0
    requires forall k :: 0 <= k < nc ==> 0 <= SrcB(cs, flipC, bC, k) < img.Length1
    modifies out
    ensures BlockCopied(out, img, r0, c0, nr, nc, rs, flipR, bR, cs, flipC, bC)
    ensures forall i, j :: 0 <= i < out.Length0 && 0 <= j < out.Length1 && !(r0 <= i < r0 + nr && c0 <= j < c0 + nc) ==> out[i, j] == old(out[i, j])
  {
    for i := 0 to nr
      invariant forall p, q :: r0 <= p < r0 + i && c0 <= q < c0 + nc ==> out[p, q] == img[SrcB(rs, flipR, bR, p - r0), SrcB(cs, flipC, bC, q - c0)]
      invariant forall p, q :: 0 <= p < out.Length0 && 0 <= q < out.Length1 && !(r0 <= p < r0 + i && c0 <= q < c0 + nc) ==> out[p, q] == old(out[p, q])
    {
      var row := r0 + i;
      for j := 0 to nc
        invariant forall p, q :: r0 <= p < r0 + i && c0 <= q < c0 + nc ==> out[p, q] == img[SrcB(rs, flipR, bR, p - r0), SrcB(cs, flipC, bC, q - c0)]
        invariant forall q :: c0 <= q < c0 + j ==> out[row, q] == img[SrcB(rs, flipR, bR, i), SrcB(cs, flipC, bC, q - c0)]
        invariant forall p, q :: 0 <= p < out.Length0 && 0 <= q < out.Length1 && !(r0 <= p < r0 + i && c0 <= q < c0 + nc) && !(p == r0 + i && c0 <= q < c0 + j) ==> out[p, q] == old(out[p, q])
      {
        out[row, c0 + j] := img[SrcB(rs, flipR, bR, i), SrcB(cs, flipC, bC, j)];
      }
    }
  }

  /** The number of positions in a half-open range. */
  function Len(r: (nat, nat)): nat {
    if r.0 <= r.1 then r.1 - r.0 else 0
  }

  /** The first source position a slice reads: its low end, or its high end when the
      slice is flipped. */
  function First(r: (nat, nat), flip: bool): int {
    if flip then r.1 - 1 else r.0
  }

  /** Whether numpy can assign an h-by-w block to an hh-by-ww slice: along each axis the
      lengths agree or the block has length 1, which broadcasts (also onto nothing). */
  predicate Broadcasts(h: nat, w: nat, hh: nat, ww: nat) {
    (h == hh || h == 1) && (w == ww || w == 1)
  }

  /** One slice assignment of `expand`, `out[dr, dc] = img[sr, sc]`, the source rows or
      columns reversed by `np.flip` where flagged. */
  datatype Strip = Strip(dr: (nat, nat), dc: (nat, nat), sr: (nat, nat), flipR: bool, sc: (nat, nat), flipC: bool)

  predicate StripFits(s: Strip) {
    Broadcasts(Len(s.sr), Len(s.sc), Len(s.dr), Len(s.dc))
  }

  /** The strip's ranges lie inside an n-by-m input and an nn-by-mm output. */
  predicate StripWithin(s: Strip, n: nat, m: nat, nn: nat, mm: nat) {
    s.dr.0 <= s.dr.1 <= nn && s.dc.0 <= s.dc.1 <= mm && s.sr.0 <= s.sr.1 <= n && s.sc.0 <= s.sc.1 <= m
  }

  /** The strip has been assigned: its block of out holds the source cells it names. */
  ghost predicate StripCopied<T>(out: array2<T>, img: array2<T>, s: Strip)
    reads out, img
  {
    BlockCopied(out, img, s.dr.0, s.dc.0, Len(s.dr), Len(s.dc),
                First(s.sr, s.flipR), s.flipR, Len(s.sr) != Len(s.dr),
                First(s.sc, s.flipC), s.flipC, Len(s.sc) != Len(s.dc))
  }

  predicate InBlock(dr: (nat, nat), dc: (nat, nat), i: int, j: int) {
    dr.0 <= i < dr.1 && dc.0 <= j < dc.1
  }

  /** Carries out one strip assignment, which the caller has checked numpy accepts. */
  method BlitStrip<T>(out: array2<T>, img: array2<T>, s: Strip)
    requires out != img && StripFits(s) && StripWithin(s, img.Length0, img.Length1, out.Length0, out.Length1)
    modifies out
    ensures StripCopied(out, img, s)
    ensures forall i, j :: 0 <= i < out.Length0 && 0 <= j < out.Length1 && !InBlock(s.dr, s.dc, i, j) ==> out[i, j] == old(out[i, j])
  {
    Blit(out, img, s.dr.0, s.dc.0, Len(s.dr), Len(s.dc),
         First(s.sr, s.flipR), s.flipR, Len(s.sr) != Len(s.dr),
         First(s.sc, s.flipC), s.flipC, Len(s.sc) != Len(s.dc));
  }

  /** The expansion of one axis as `expand` resolves it: None and (0, 0) mean no expansion. */
  function Requested(e: Option<(int, int)>): bool {
    e.Some? && e.value != (0, 0)
  }

  predicate NonNegative(e: Option<(int, int)>) {
    e.Some? ==> e.value.0 >= 0 && e.value.1 >= 0
  }

  /** The pair `expand` slices an axis of length n with: the requested one, or (0, -n)
      when none is requested, so that `[0:-(-n)]` spans the whole axis. */
  function Pair(e: Option<(int, int)>, n: nat): (int, int) {
    if Requested(e) then e.value else (0, -(n as int))
  }

  /** The length of the axis after `expand`: grown by both amounts when requested. */
  function Grown(e: Option<(int, int)>, n: nat): nat
    requires NonNegative(e)
  {
    if Requested(e) then n + e.value.0 + e.value.1 else n
  }

  /** How `expand` slices one axis, of length n in the input and nn in the output, for
      the pair x = (xa, xb): the output's interior `[xa:-xb]` and strips `[:xa]` and
      `[-xb:]`, and the input's edge blocks `[:xa]` and `[-xb:]` that the strips mirror. */
  datatype Cut = Cut(inner: (nat, nat), lead: (nat, nat), trail: (nat, nat), srcLead: (nat, nat), srcTrail: (nat, nat))

  predicate CutWithin(c: Cut, n: nat, nn: nat) {
    c.inner.0 <= c.inner.1 <= nn && c.lead.0 <= c.lead.1 <= nn && c.trail.0 <= c.trail.1 <= nn
    && c.srcLead.0 <= c.srcLead.1 <= n && c.srcTrail.0 <= c.srcTrail.1 <= n
  }

  function AxisCut(n: nat, nn: nat, x: (int, int)): (c: Cut)
    ensures CutWithin(c, n, nn)
  {
    Cut(SliceRange(nn, x.0, -x.1), SliceRange(nn, 0, x.0), SliceRange(nn, -x.1, nn),
        SliceRange(n, 0, x.0), SliceRange(n, -x.1, n))
  }

  /** The cut of an axis of length n grown by a before and b after, each slice taken
      literally: the interior [a, a + n), the strips [0, a) and [a + n, a + n + b), the
      edge blocks [0, a) and [n - b, n). */
  function PlainCut(n: nat, a: nat, b: nat): (c: Cut)
    requires a <= n && b <= n
    ensures CutWithin(c, n, a + n + b)
  {
    Cut((a, a + n), (0, a), (a + n, a + n + b), (0, a), (n - b, n))
  }

  /** The interior assignment `out[xa:-xb, ya:-yb] = img[:, :]`. */
  function Interior(n: nat, m: nat, cx: Cut, cy: Cut): Strip {
    Strip(cx.inner, cy.inner, (0, n), false, (0, m), false)
  }

  /** `out[:xa, ya:-yb] = flip(img[:xa, :], 0)`. */
  function LeftStrip(m: nat, cx: Cut, cy: Cut): Strip {
    Strip(cx.lead, cy.inner, cx.srcLead, true, (0, m), false)
  }

  /** `out[-xb:, ya:-yb] = flip(img[-xb:, :], 0)`. */
  function RightStrip(m: nat, cx: Cut, cy: Cut): Strip {
    Strip(cx.trail, cy.inner, cx.srcTrail, true, (0, m), false)
  }

  /** `out[xa:-xb, :ya] = flip(img[:, :ya], 1)`. */
  function TopStrip(n: nat, cx: Cut, cy: Cut): Strip {
    Strip(cx.inner, cy.lead, (0, n), false, cy.srcLead, true)
  }

  /** `out[xa:-xb, -yb:] = flip(img[:, -yb:], 1)`. */
  function BottomStrip(n: nat, cx: Cut, cy: Cut): Strip {
    Strip(cx.inner, cy.trail, (0, n), false, cy.srcTrail, true)
  }

  /** numpy accepts the interior assignment and the strip assignments of each expanded axis. */
  predicate StripsFit(n: nat, m: nat, cx: Cut, cy: Cut, doX: bool, doY: bool) {
    StripFits(Interior(n, m, cx, cy))
    && (doX ==> StripFits(LeftStrip(m, cx, cy)) && StripFits(RightStrip(m, cx, cy)))
    && (doY ==> StripFits(TopStrip(n, cx, cy)) && StripFits(BottomStrip(n, cx, cy)))
  }

  /** One corner of `expand`: `out[dr, dc, :]` receives `alpha_composite(B, B)`, where B
      is the input block [sr) x [sc) reversed along both axes. */
  datatype Corner = Corner(dr: (nat, nat), dc: (nat, nat), sr: (nat, nat), sc: (nat, nat))

  /** The corner's source block lies inside an n-by-m input. */
  predicate CornerFits(c: Corner, n: nat, m: nat) {
    c.dr.0 <= c.dr.1 && c.dc.0 <= c.dc.1 && c.sr.0 <= c.sr.1 <= n && c.sc.0 <= c.sc.1 <= m
  }

  /** ... and its target block inside an nn-by-mm output. */
  predicate CornerWithin(c: Corner, n: nat, m: nat, nn: nat, mm: nat) {
    CornerFits(c, n, m) && c.dr.1 <= nn && c.dc.1 <= mm
  }

  /** The corners in the order `expand` fills them: top left `[:xa, :ya]`, then
      `[-xb:, :ya]`, `[:xa, -yb:]` and `[-xb:, -yb:]`, each from the input block at the
      same place. */
  function Corners(n: nat, m: nat, nn: nat, mm: nat, cx: Cut, cy: Cut): (cs: seq<Corner>)
    requires CutWithin(cx, n, nn) && CutWithin(cy, m, mm)
    ensures |cs| == 4 && forall t :: 0 <= t < 4 ==> CornerWithin(cs[t], n, m, nn, mm)
  {
    [Corner(cx.lead, cy.lead, cx.srcLead, cy.srcLead),
     Corner(cx.trail, cy.lead, cx.srcTrail, cy.srcLead),
     Corner(cx.lead, cy.trail, cx.srcLead, cy.srcTrail),
     Corner(cx.trail, cy.trail, cx.srcTrail, cy.srcTrail)]
  }

  /** What the image array is: 2-D or 3-D with `depth` channels, of an integer dtype or not. */
  datatype Kind = Kind(rank3: bool, depth: nat, isInt: bool)

  /** Values per cell: the channels of a 3-D image, one value for a 2-D one. */
  function CellSize(k: Kind): nat {
    if k.rank3 then k.depth else 1
  }

  /** Every cell of the image holds the values its kind says, whole numbers for an
      integer dtype. */
  ghost predicate Holds(img: array2<seq<real>>, k: Kind)
    reads img
  {
    forall i, j :: 0 <= i < img.Length0 && 0 <= j < img.Length1 ==>
      |img[i, j]| == CellSize(k)
      && (k.isInt ==> forall c :: 0 <= c < CellSize(k) ==> img[i, j][c] == img[i, j][c].Floor as real)
  }

  /** The input block [sr) x [sc) reversed along both axes, as a numpy array. */
  function BlockArray(img: array2<seq<real>>, k: Kind, sr: (nat, nat), sc: (nat, nat)): (a: Convert.NdArray)
    requires sr.0 <= sr.1 <= img.Length0 && sc.0 <= sc.1 <= img.Length1
    reads img
    ensures Convert.Rows(a) == Len(sr) && Convert.Cols(a) == Len(sc) && a.isInt == k.isInt
    ensures k.rank3 ==> |a.dims| == 3 && Convert.Depth(a) == k.depth
    ensures !k.rank3 ==> |a.dims| == 2
  {
    var h, w := Len(sr), Len(sc);
    Convert.NdArray(if k.rank3 then [h, w, k.depth] else [h, w], k.isInt,
      seq(h, i requires 0 <= i < h reads img =>
        seq(w, j requires 0 <= j < w reads img => img[sr.1 - 1 - i, sc.1 - 1 - j])))
  }

  lemma BlockWellFormed(img: array2<seq<real>>, k: Kind, sr: (nat, nat), sc: (nat, nat))
    requires sr.0 <= sr.1 <= img.Length0 && sc.0 <= sc.1 <= img.Length1 && Holds(img, k)
    ensures Convert.WellFormed(BlockArray(img, k, sr, sc))
  {
    var a := BlockArray(img, k, sr, sc);
    forall i, j | 0 <= i < Convert.Rows(a) && 0 <= j < Convert.Cols(a)
      ensures a.cells[i][j] == img[sr.1 - 1 - i, sc.1 - 1 - j]
    {
    }
  }

  /** `alpha_composite(B, B)` for the corner's doubly flipped block B: on success an
      h-by-w array of 4-channel cells, where the block is h by w. */
  function CornerComposite(img: array2<seq<real>>, k: Kind, c: Corner, over: (Pixel, Pixel) -> Pixel): (r: Result<Convert.Composited>)
    requires Holds(img, k) && CornerFits(c, img.Length0, img.Length1)
    reads img
    ensures r.Err? ==> r.error == ValueError
    ensures r.Ok? ==> r.value.AsArray? && IsGrid(r.value.arr.cells, Len(c.sr), Len(c.sc))
                      && forall i, j :: 0 <= i < Len(c.sr) && 0 <= j < Len(c.sc) ==> |r.value.arr.cells[i][j]| == 4
  {
    var b := BlockArray(img, k, c.sr, c.sc);
    BlockWellFormed(img, k, c.sr, c.sc);
    var r := Convert.AlphaComposite(Convert.ArrayArg(b), Convert.ArrayArg(b), false, over);
    if r.Err? then r
    else
      Convert.AlphaCompositeOutcome(Convert.ArrayArg(b), Convert.ArrayArg(b), false, over);
      r
  }

  /** How one corner ends: the composite fails as `alpha_composite` does; assigning it
      to `out[..., :]` is IndexError on a 2-D image, and ValueError unless the image has
      4 channels and the (h, w) composite fits the corner slice. */
  function CornerOutcome(img: array2<seq<real>>, k: Kind, c: Corner, over: (Pixel, Pixel) -> Pixel): (o: Outcome)
    requires Holds(img, k) && CornerFits(c, img.Length0, img.Length1)
    reads img
  {
    match CornerComposite(img, k, c, over)
    case Err(e) => Fail(e)
    case Ok(_) =>
      if !k.rank3 then Fail(IndexError)
      else if !(Broadcasts(Len(c.sr), Len(c.sc), Len(c.dr), Len(c.dc)) && k.depth == 4) then Fail(ValueError)
      else Pass
  }

  /** The corners filled in order: the first one that fails ends `expand`. */
  function CornersOutcome(img: array2<seq<real>>, k: Kind, cs: seq<Corner>, over: (Pixel, Pixel) -> Pixel): (o: Outcome)
    requires Holds(img, k) && forall t :: 0 <= t < |cs| ==> CornerFits(cs[t], img.Length0, img.Length1)
    reads img
    ensures o.Pass? <==> forall t :: 0 <= t < |cs| ==> CornerOutcome(img, k, cs[t], over).Pass?
    ensures o.Fail? ==> exists t :: 0 <= t < |cs| && o == CornerOutcome(img, k, cs[t], over)
    decreases |cs|
  {
    if cs == [] then Pass
    else if CornerOutcome(img, k, cs[0], over).Fail? then CornerOutcome(img, k, cs[0], over)
    else
      var rest := CornersOutcome(img, k, cs[1..], over);
      assert forall t :: 1 <= t < |cs| ==> cs[t] == cs[1..][t - 1];
      rest
  }

  /** How `expand` ends: with nothing requested it returns the input; an amount larger
      than its axis is ValueError; so is a slice assignment numpy cannot broadcast; when
      both axes expand, the corners decide. */
  function ExpandOutcome(img: array2<seq<real>>, k: Kind, xExpand: Option<(int, int)>, yExpand: Option<(int, int)>,
                         over: (Pixel, Pixel) -> Pixel): (o: Outcome)
    requires Holds(img, k) && NonNegative(xExpand) && NonNegative(yExpand)
    reads img
  {
    var n, m := img.Length0, img.Length1;
    var x, y := Pair(xExpand, n), Pair(yExpand, m);
    var doX, doY := Requested(xExpand), Requested(yExpand);
    var nn, mm := Grown(xExpand, n), Grown(yExpand, m);
    if !doX && !doY then Pass
    else if n < x.0 || n < x.1 || m < y.0 || m < y.1 then Fail(ValueError)
    else FilledOutcome(img, k, AxisCut(n, nn, x), AxisCut(m, mm, y), doX, doY, nn, mm, over)
  }

  /** How `expand` ends once its nn-by-mm output is allocated: ValueError when a slice
      assignment cannot be broadcast, then the corners when both axes expand. */
  function FilledOutcome(img: array2<seq<real>>, k: Kind, cx: Cut, cy: Cut, doX: bool, doY: bool,
                         nn: nat, mm: nat, over: (Pixel, Pixel) -> Pixel): (o: Outcome)
    requires Holds(img, k) && CutWithin(cx, img.Length0, nn) && CutWithin(cy, img.Length1, mm)
    reads img
  {
    if !StripsFit(img.Length0, img.Length1, cx, cy, doX, doY) then Fail(ValueError)
    else if doX && doY then CornersOutcome(img, k, Corners(img.Length0, img.Length1, nn, mm, cx, cy), over)
    else Pass
  }

  /** The block [i0, i1) x [j0, j1) of out shows the input as an expansion by xa, xb rows
      and ya, yb columns places it. */
  ghost predicate ShowsAt<T>(out: array2<T>, img: array2<T>, xa: nat, xb: nat, ya: nat, yb: nat,
                             i0: nat, i1: nat, j0: nat, j1: nat)
    requires xa <= img.Length0 && xb <= img.Length0 && ya <= img.Length1 && yb <= img.Length1
    reads out, img
  {
    forall i, j :: (i0 <= i < i1 && j0 <= j < j1 && i < out.Length0 && j < out.Length1
                    && i < xa + img.Length0 + xb && j < ya + img.Length1 + yb) ==>
      out[i, j] == img[MirrorSource(img.Length0, xa, xb, i), MirrorSource(img.Length1, ya, yb, j)]
  }

  /** An assigned strip whose source rows and columns are the ones the mirrored
      expansion places at its block shows the input there. */
  lemma StripShows<T>(out: array2<T>, img: array2<T>, s: Strip, xa: nat, xb: nat, ya: nat, yb: nat)
    requires xa <= img.Length0 && xb <= img.Length0 && ya <= img.Length1 && yb <= img.Length1
    requires StripCopied(out, img, s) && Len(s.sr) == Len(s.dr) && Len(s.sc) == Len(s.dc)
    requires s.dr.0 <= s.dr.1 <= xa + img.Length0 + xb && s.dc.0 <= s.dc.1 <= ya + img.Length1 + yb
    requires forall k :: 0 <= k < Len(s.dr) ==> Src(First(s.sr, s.flipR), s.flipR, k) == MirrorSource(img.Length0, xa, xb, s.dr.0 + k)
    requires forall k :: 0 <= k < Len(s.dc) ==> Src(First(s.sc, s.flipC), s.flipC, k) == MirrorSource(img.Length1, ya, yb, s.dc.0 + k)
    ensures ShowsAt(out, img, xa, xb, ya, yb, s.dr.0, s.dr.1, s.dc.0, s.dc.1)
  {
    forall i, j | s.dr.0 <= i < s.dr.1 && s.dc.0 <= j < s.dc.1 && i < out.Length0 && j < out.Length1
      ensures out[i, j] == img[MirrorSource(img.Length0, xa, xb, i), MirrorSource(img.Length1, ya, yb, j)]
    {
      assert Src(First(s.sr, s.flipR), s.flipR, i - s.dr.0) == MirrorSource(img.Length0, xa, xb, s.dr.0 + (i - s.dr.0));
      assert Src(First(s.sc, s.flipC), s.flipC, j - s.dc.0) == MirrorSource(img.Length1, ya, yb, s.dc.0 + (j - s.dc.0));
    }
  }

  /** The pair an axis is sliced with, as accepted: requested amounts within the axis,
      or the (0, -n) that stands for no expansion. */
  predicate Along(n: nat, x: (int, int), doX: bool) {
    if doX then 0 <= x.0 <= n && 0 <= x.1 <= n else x == (0, -(n as int))
  }

  /** Rows added before and after the interior. */
  function Lead(x: (int, int), doX: bool): nat { if doX && x.0 >= 0 then x.0 else 0 }
  function Trail(x: (int, int), doX: bool): nat { if doX && x.1 >= 0 then x.1 else 0 }

  /** An axis whose strips are plain slices: not expanded, or expanded with a trailing
      amount above 0 (a trailing 0 makes `[a:-0]` empty and `[-0:]` the whole axis). */
  predicate Plain(x: (int, int), doX: bool) {
    !doX || x.1 > 0
  }

  /** Without a trailing 0 each axis is cut literally. */
  lemma PlainAxisCut(n: nat, nn: nat, x: (int, int), doX: bool)
    requires Along(n, x, doX) && Plain(x, doX) && nn == Lead(x, doX) + n + Trail(x, doX)
    ensures AxisCut(n, nn, x) == PlainCut(n, Lead(x, doX), Trail(x, doX))
  {
    if !doX {
      assert SliceRange(n, n, n) == (n, n);
    }
  }

  /** Literal cuts give every strip the shape of its slot. */
  lemma PlainStripsFit(n: nat, m: nat, xa: nat, xb: nat, ya: nat, yb: nat, doX: bool, doY: bool)
    requires xa <= n && xb <= n && ya <= m && yb <= m
    ensures StripsFit(n, m, PlainCut(n, xa, xb), PlainCut(m, ya, yb), doX, doY)
  {
  }

  /** With literal cuts only the corners can fail, and only when both axes expand. */
  lemma PlainFilledOutcome(img: array2<seq<real>>, k: Kind, xa: nat, xb: nat, ya: nat, yb: nat, nn: nat, mm: nat,
                           doX: bool, doY: bool, over: (Pixel, Pixel) -> Pixel)
    requires Holds(img, k) && xa <= img.Length0 && xb <= img.Length0 && ya <= img.Length1 && yb <= img.Length1
    requires nn == xa + img.Length0 + xb && mm == ya + img.Length1 + yb
    ensures var n, m := img.Length0, img.Length1;
            var cx, cy := PlainCut(n, xa, xb), PlainCut(m, ya, yb);
            FilledOutcome(img, k, cx, cy, doX, doY, nn, mm, over)
              == if doX && doY then CornersOutcome(img, k, Corners(n, m, nn, mm, cx, cy), over) else Pass
  {
    PlainStripsFit(img.Length0, img.Length1, xa, xb, ya, yb, doX, doY);
  }

  /** out is the input grown by xa, xb rows and ya, yb columns, none above the axis. */
  predicate Sized<T>(out: array2<T>, img: array2<T>, xa: nat, xb: nat, ya: nat, yb: nat) {
    xa <= img.Length0 && xb <= img.Length0 && ya <= img.Length1 && yb <= img.Length1
    && out.Length0 == xa + img.Length0 + xb && out.Length1 == ya + img.Length1 + yb
  }

  /** ... and both axes are cut literally for those amounts, none on an axis that does
      not expand. */
  predicate PlainLayout<T>(out: array2<T>, img: array2<T>, cx: Cut, cy: Cut, doX: bool, doY: bool,
                           xa: nat, xb: nat, ya: nat, yb: nat) {
    Sized(out, img, xa, xb, ya, yb)
    && cx == PlainCut(img.Length0, xa, xb) && cy == PlainCut(img.Length1, ya, yb)
    && (doX || xa + xb == 0) && (doY || ya + yb == 0)
  }

  /** The grown lengths of both axes. */
  predicate GrownBy<T>(out: array2<T>, img: array2<T>, x: (int, int), y: (int, int), doX: bool, doY: bool) {
    out.Length0 == img.Length0 + Lead(x, doX) + Trail(x, doX) && out.Length1 == img.Length1 + Lead(y, doY) + Trail(y, doY)
  }

  /** On literal cuts each assigned strip shows the mirrored input at its block. */
  lemma InteriorShows<T>(out: array2<T>, img: array2<T>, xa: nat, xb: nat, ya: nat, yb: nat)
    requires Sized(out, img, xa, xb, ya, yb)
    requires StripCopied(out, img, Interior(img.Length0, img.Length1, PlainCut(img.Length0, xa, xb), PlainCut(img.Length1, ya, yb)))
    ensures ShowsAt(out, img, xa, xb, ya, yb, xa, xa + img.Length0, ya, ya + img.Length1)
  {
    StripShows(out, img, Interior(img.Length0, img.Length1, PlainCut(img.Length0, xa, xb), PlainCut(img.Length1, ya, yb)), xa, xb, ya, yb);
  }

  lemma LeftShows<T>(out: array2<T>, img: array2<T>, xa: nat, xb: nat, ya: nat, yb: nat)
    requires Sized(out, img, xa, xb, ya, yb)
    requires StripCopied(out, img, LeftStrip(img.Length1, PlainCut(img.Length0, xa, xb), PlainCut(img.Length1, ya, yb)))
    ensures ShowsAt(out, img, xa, xb, ya, yb, 0, xa, ya, ya + img.Length1)
  {
    StripShows(out, img, LeftStrip(img.Length1, PlainCut(img.Length0, xa, xb), PlainCut(img.Length1, ya, yb)), xa, xb, ya, yb);
  }

  lemma RightShows<T>(out: array2<T>, img: array2<T>, xa: nat, xb: nat, ya: nat, yb: nat)
    requires Sized(out, img, xa, xb, ya, yb)
    requires StripCopied(out, img, RightStrip(img.Length1, PlainCut(img.Length0, xa, xb), PlainCut(img.Length1, ya, yb)))
    ensures ShowsAt(out, img, xa, xb, ya, yb, xa + img.Length0, out.Length0, ya, ya + img.Length1)
  {
    StripShows(out, img, RightStrip(img.Length1, PlainCut(img.Length0, xa, xb), PlainCut(img.Length1, ya, yb)), xa, xb, ya, yb);
  }

  lemma TopShows<T>(out: array2<T>, img: array2<T>, xa: nat, xb: nat, ya: nat, yb: nat)
    requires Sized(out, img, xa, xb, ya, yb)
    requires StripCopied(out, img, TopStrip(img.Length0, PlainCut(img.Length0, xa, xb), PlainCut(img.Length1, ya, yb)))
    ensures ShowsAt(out, img, xa, xb, ya, yb, xa, xa + img.Length0, 0, ya)
  {
    StripShows(out, img, TopStrip(img.Length0, PlainCut(img.Length0, xa, xb), PlainCut(img.Length1, ya, yb)), xa, xb, ya, yb);
  }

  lemma BottomShows<T>(out: array2<T>, img: array2<T>, xa: nat, xb: nat, ya: nat, yb: nat)
    requires Sized(out, img, xa, xb, ya, yb)
    requires StripCopied(out, img, BottomStrip(img.Length0, PlainCut(img.Length0, xa, xb), PlainCut(img.Length1, ya, yb)))
    ensures ShowsAt(out, img, xa, xb, ya, yb, xa, xa + img.Length0, ya + img.Length1, out.Length1)
  {
    StripShows(out, img, BottomStrip(img.Length0, PlainCut(img.Length0, xa, xb), PlainCut(img.Length1, ya, yb)), xa, xb, ya, yb);
  }

  /** Two blocks stacked one above the other show the input together. */
  lemma Join<T>(out: array2<T>, img: array2<T>, xa: nat, xb: nat, ya: nat, yb: nat,
                i0: nat, i1: nat, i2: nat, j0: nat, j1: nat)
    requires xa <= img.Length0 && xb <= img.Length0 && ya <= img.Length1 && yb <= img.Length1
    requires ShowsAt(out, img, xa, xb, ya, yb, i0, i1, j0, j1) && ShowsAt(out, img, xa, xb, ya, yb, i1, i2, j0, j1)
    ensures ShowsAt(out, img, xa, xb, ya, yb, i0, i2, j0, j1)
  {
  }

  /** The interior and strip assignments of `expand` on its nn-by-mm output:
      ValueError when numpy cannot broadcast one of them; otherwise, on a literal layout,
      every cell of the interior rows or interior columns shows the mirrored input. */
  method ExpandStrips<T>(out: array2<T>, img: array2<T>, cx: Cut, cy: Cut, doX: bool, doY: bool,
                         ghost plain: bool, ghost xa: nat, ghost xb: nat, ghost ya: nat, ghost yb: nat)
    returns (o: Outcome)
    requires out != img && CutWithin(cx, img.Length0, out.Length0) && CutWithin(cy, img.Length1, out.Length1)
    requires plain ==> PlainLayout(out, img, cx, cy, doX, doY, xa, xb, ya, yb)
    modifies out
    ensures o == if StripsFit(img.Length0, img.Length1, cx, cy, doX, doY) then Pass else Fail(ValueError)
    ensures o.Pass? && plain ==>
      ShowsAt(out, img, xa, xb, ya, yb, 0, out.Length0, ya, ya + img.Length1)
      && ShowsAt(out, img, xa, xb, ya, yb, xa, xa + img.Length0, 0, out.Length1)
  {
    var n, m := img.Length0, img.Length1;
    if !StripsFit(n, m, cx, cy, doX, doY) {
      return Fail(ValueError);
    }
    BlitStrip(out, img, Interior(n, m, cx, cy));
    if plain {
      InteriorShows(out, img, xa, xb, ya, yb);
    }
    RowStrips(out, img, cx, cy, doX, doY, plain, xa, xb, ya, yb);
    ColumnStrips(out, img, cx, cy, doX, doY, plain, xa, xb, ya, yb);
    return Pass;
  }

  /** The strips of rows before and after the interior, assigned when x expands (the
      source's "left and right" strips, along the first axis); on a literal layout they
      complete the band of interior columns. */
  method RowStrips<T>(out: array2<T>, img: array2<T>, cx: Cut, cy: Cut, doX: bool, doY: bool,
                      ghost plain: bool, ghost xa: nat, ghost xb: nat, ghost ya: nat, ghost yb: nat)
    requires out != img && CutWithin(cx, img.Length0, out.Length0) && CutWithin(cy, img.Length1, out.Length1)
    requires StripsFit(img.Length0, img.Length1, cx, cy, doX, doY)
    requires plain ==> (PlainLayout(out, img, cx, cy, doX, doY, xa, xb, ya, yb)
                        && ShowsAt(out, img, xa, xb, ya, yb, xa, xa + img.Length0, ya, ya + img.Length1))
    modifies out
    ensures plain ==> ShowsAt(out, img, xa, xb, ya, yb, 0, out.Length0, ya, ya + img.Length1)
  {
    var n, m := img.Length0, img.Length1;
    if doX {
      BlitStrip(out, img, LeftStrip(m, cx, cy));
      if plain {
        LeftShows(out, img, xa, xb, ya, yb);
      }
      BlitStrip(out, img, RightStrip(m, cx, cy));
      if plain {
        RightShows(out, img, xa, xb, ya, yb);
      }
    }
    if plain {
      Join(out, img, xa, xb, ya, yb, 0, xa, xa + n, ya, ya + m);
      Join(out, img, xa, xb, ya, yb, 0, xa + n, out.Length0, ya, ya + m);
    }
  }

  /** The strips of columns before and after the interior, assigned when y expands (the
      source's "top and bottom" strips, along the second axis); on a literal layout they
      complete the band of interior rows and keep the band of interior columns. */
  method ColumnStrips<T>(out: array2<T>, img: array2<T>, cx: Cut, cy: Cut, doX: bool, doY: bool,
                         ghost plain: bool, ghost xa: nat, ghost xb: nat, ghost ya: nat, ghost yb: nat)
    requires out != img && CutWithin(cx, img.Length0, out.Length0) && CutWithin(cy, img.Length1, out.Length1)
    requires StripsFit(img.Length0, img.Length1, cx, cy, doX, doY)
    requires plain ==> (PlainLayout(out, img, cx, cy, doX, doY, xa, xb, ya, yb)
                        && ShowsAt(out, img, xa, xb, ya, yb, 0, out.Length0, ya, ya + img.Length1))
    modifies out
    ensures plain ==>
      ShowsAt(out, img, xa, xb, ya, yb, 0, out.Length0, ya, ya + img.Length1)
      && ShowsAt(out, img, xa, xb, ya, yb, xa, xa + img.Length0, 0, out.Length1)
  {
    var n, m := img.Length0, img.Length1;
    if doY {
      BlitStrip(out, img, TopStrip(n, cx, cy));
      if plain {
        TopShows(out, img, xa, xb, ya, yb);
      }
      BlitStrip(out, img, BottomStrip(n, cx, cy));
      if plain {
        BottomShows(out, img, xa, xb, ya, yb);
      }
    }
  }

  /** The (h, w, 4) composite a corner receives when it succeeds. */
  function CornerGrid(img: array2<seq<real>>, k: Kind, c: Corner, over: (Pixel, Pixel) -> Pixel): (g: seq<seq<seq<real>>>)
    requires Holds(img, k) && CornerFits(c, img.Length0, img.Length1) && CornerOutcome(img, k, c, over).Pass?
    reads img
    ensures IsGrid(g, Len(c.sr), Len(c.sc))
    ensures forall i, j :: 0 <= i < Len(c.sr) && 0 <= j < Len(c.sc) ==> |g[i][j]| == 4
  {
    CornerComposite(img, k, c, over).value.arr.cells
  }

  /** Position k of a block, or 0 where the block is broadcast along that axis. */
  function Pick(bcast: bool, k: nat): nat {
    if bcast then 0 else k
  }

  /** `out[r0:r0+nr, c0:c0+nc, :] = g` for an h-by-w grid g, broadcast along an axis where
      flagged. */
  method BlitCells(out: array2<seq<real>>, g: seq<seq<seq<real>>>, h: nat, w: nat,
                   r0: nat, c0: nat, nr: nat, nc: nat, bR: bool, bC: bool)
    requires IsGrid(g, h, w) && r0 + nr <= out.Length0 && c0 + nc <= out.Length1
    requires (if bR then 0 < h else nr <= h) && (if bC then 0 < w else nc <= w)
    modifies out
    ensures forall i, j :: r0 <= i < r0 + nr && c0 <= j < c0 + nc ==> out[i, j] == g[Pick(bR, i - r0)][Pick(bC, j - c0)]
    ensures forall i, j :: 0 <= i < out.Length0 && 0 <= j < out.Length1 && !(r0 <= i < r0 + nr && c0 <= j < c0 + nc) ==> out[i, j] == old(out[i, j])
  {
    for i := 0 to nr
      invariant forall p, q :: r0 <= p < r0 + i && c0 <= q < c0 + nc ==> out[p, q] == g[Pick(bR, p - r0)][Pick(bC, q - c0)]
      invariant forall p, q :: 0 <= p < out.Length0 && 0 <= q < out.Length1 && !(r0 <= p < r0 + i && c0 <= q < c0 + nc) ==> out[p, q] == old(out[p, q])
    {
      var row := r0 + i;
      for j := 0 to nc
        invariant forall p, q :: r0 <= p < r0 + i && c0 <= q < c0 + nc ==> out[p, q] == g[Pick(bR, p - r0)][Pick(bC, q - c0)]
        invariant forall q :: c0 <= q < c0 + j ==> out[row, q] == g[Pick(bR, i)][Pick(bC, q - c0)]
        invariant forall p, q :: 0 <= p < out.Length0 && 0 <= q < out.Length1 && !(r0 <= p < r0 + i && c0 <= q < c0 + nc) && !(p == r0 + i && c0 <= q < c0 + j) ==> out[p, q] == old(out[p, q])
      {
        out[row, c0 + j] := g[Pick(bR, i)][Pick(bC, j)];
      }
    }
  }

  /** One corner of `expand`: the composite of the doubly flipped block with itself, then
      its assignment to `out[dr, dc, :]`. On success the corner block holds the composite
      (broadcast where the block has one row or column); nothing else changes. */
  method FillCorner(out: array2<seq<real>>, img: array2<seq<real>>, k: Kind, c: Corner, over: (Pixel, Pixel) -> Pixel)
    returns (o: Outcome)
    requires out != img && Holds(img, k) && CornerWithin(c, img.Length0, img.Length1, out.Length0, out.Length1)
    modifies out
    ensures o == CornerOutcome(img, k, c, over)
    ensures o.Pass? ==> forall i, j :: InBlock(c.dr, c.dc, i, j) ==>
      out[i, j] == CornerGrid(img, k, c, over)[Pick(Len(c.sr) != Len(c.dr), i - c.dr.0)][Pick(Len(c.sc) != Len(c.dc), j - c.dc.0)]
    ensures forall i, j :: 0 <= i < out.Length0 && 0 <= j < out.Length1 && !InBlock(c.dr, c.dc, i, j) ==> out[i, j] == old(out[i, j])
  {
    var composite := CornerComposite(img, k, c, over);
    if composite.Err? {
      return Fail(composite.error);
    }
    if !k.rank3 {
      return Fail(IndexError);
    }
    if !(Broadcasts(Len(c.sr), Len(c.sc), Len(c.dr), Len(c.dc)) && k.depth == 4) {
      return Fail(ValueError);
    }
    BlitCells(out, composite.value.arr.cells, Len(c.sr), Len(c.sc), c.dr.0, c.dc.0, Len(c.dr), Len(c.dc),
              Len(c.sr) != Len(c.dr), Len(c.sc) != Len(c.dc));
    return Pass;
  }

  /** No corner block holds cell (i, j). */
  predicate Untouched(cs: seq<Corner>, i: int, j: int) {
    forall t :: 0 <= t < |cs| ==> !InBlock(cs[t].dr, cs[t].dc, i, j)
  }

  /** The corners filled one after another, stopping at the first that fails; cells
      outside every corner block keep their values. */
  method FillCorners(out: array2<seq<real>>, img: array2<seq<real>>, k: Kind, cs: seq<Corner>, over: (Pixel, Pixel) -> Pixel)
    returns (o: Outcome)
    requires out != img && Holds(img, k)
    requires forall t :: 0 <= t < |cs| ==> CornerFits(cs[t], img.Length0, img.Length1) && cs[t].dr.1 <= out.Length0 && cs[t].dc.1 <= out.Length1
    modifies out
    ensures o == CornersOutcome(img, k, cs, over)
    ensures forall i, j :: 0 <= i < out.Length0 && 0 <= j < out.Length1 && Untouched(cs, i, j) ==> out[i, j] == old(out[i, j])
  {
    var t := 0;
    while t < |cs|
      invariant 0 <= t <= |cs|
      invariant CornersOutcome(img, k, cs, over) == CornersOutcome(img, k, cs[t..], over)
      invariant forall i, j :: 0 <= i < out.Length0 && 0 <= j < out.Length1 && (forall u :: 0 <= u < t ==> !InBlock(cs[u].dr, cs[u].dc, i, j)) ==>
        out[i, j] == old(out[i, j])
    {
      CornersOutcomeStep(img, k, cs, t, over);
      o := FillCorner(out, img, k, cs[t], over);
      if o.Fail? {
        return;
      }
      t := t + 1;
    }
    return Pass;
  }

  /** The corners from t on end as corner t does when it fails, else as those after it. */
  lemma CornersOutcomeStep(img: array2<seq<real>>, k: Kind, cs: seq<Corner>, t: nat, over: (Pixel, Pixel) -> Pixel)
    requires Holds(img, k) && forall u :: 0 <= u < |cs| ==> CornerFits(cs[u], img.Length0, img.Length1)
    requires t < |cs|
    ensures CornersOutcome(img, k, cs[t..], over)
            == if CornerOutcome(img, k, cs[t], over).Fail? then CornerOutcome(img, k, cs[t], over)
               else CornersOutcome(img, k, cs[t + 1..], over)
  {
    assert cs[t..][0] == cs[t] && cs[t..][1..] == cs[t + 1..];
  }

  /** On a literal layout the corner blocks lie outside the interior rows and columns. */
  lemma CornersOffBands(n: nat, m: nat, xa: nat, xb: nat, ya: nat, yb: nat)
    requires xa <= n && xb <= n && ya <= m && yb <= m
    ensures forall i: nat, j: nat :: Inner(n, xa, i) || Inner(m, ya, j) ==>
      Untouched(Corners(n, m, xa + n + xb, ya + m + yb, PlainCut(n, xa, xb), PlainCut(m, ya, yb)), i, j)
  {
    var cs := Corners(n, m, xa + n + xb, ya + m + yb, PlainCut(n, xa, xb), PlainCut(m, ya, yb));
    forall i: nat, j: nat | Inner(n, xa, i) || Inner(m, ya, j)
      ensures Untouched(cs, i, j)
    {
      assert !InBlock(cs[0].dr, cs[0].dc, i, j) && !InBlock(cs[1].dr, cs[1].dc, i, j);
      assert !InBlock(cs[2].dr, cs[2].dc, i, j) && !InBlock(cs[3].dr, cs[3].dc, i, j);
    }
  }

  /** Every cell in the interior rows or the interior columns of out shows the input
      cell the mirrored expansion places there. */
  ghost predicate BandsShow<T>(out: array2<T>, img: array2<T>, xa: nat, xb: nat, ya: nat, yb: nat)
    requires xa <= img.Length0 && xb <= img.Length0 && ya <= img.Length1 && yb <= img.Length1
    reads out, img
  {
    forall i, j :: 0 <= i < out.Length0 && 0 <= j < out.Length1 && i < xa + img.Length0 + xb && j < ya + img.Length1 + yb
                   && (Inner(img.Length0, xa, i) || Inner(img.Length1, ya, j)) ==>
      out[i, j] == img[MirrorSource(img.Length0, xa, xb, i), MirrorSource(img.Length1, ya, yb, j)]
  }

  /** The bands of the interior columns and of the interior rows together are the two
      bands the mirrored expansion describes. */
  lemma Bands<T>(out: array2<T>, img: array2<T>, xa: nat, xb: nat, ya: nat, yb: nat)
    requires xa <= img.Length0 && xb <= img.Length0 && ya <= img.Length1 && yb <= img.Length1
    requires out.Length0 == xa + img.Length0 + xb && out.Length1 == ya + img.Length1 + yb
    requires ShowsAt(out, img, xa, xb, ya, yb, 0, out.Length0, ya, ya + img.Length1)
    requires ShowsAt(out, img, xa, xb, ya, yb, xa, xa + img.Length0, 0, out.Length1)
    ensures BandsShow(out, img, xa, xb, ya, yb)
  {
  }

  /** A cell of the zero-filled output of `np.zeros`. */
  function Zeros(d: nat): (z: seq<real>)
    ensures |z| == d && forall c :: 0 <= c < d ==> z[c] == 0.0
  {
    seq(d, _ => 0.0)
  }

  /** Everything `expand` does once the output is allocated: the interior and strip
      assignments, then, when both axes expand, the corners. */
  method ExpandInto(out: array2<seq<real>>, img: array2<seq<real>>, k: Kind, x: (int, int), y: (int, int),
                    doX: bool, doY: bool, over: (Pixel, Pixel) -> Pixel)
    returns (o: Outcome)
    requires out != img && Holds(img, k) && Along(img.Length0, x, doX) && Along(img.Length1, y, doY) && GrownBy(out, img, x, y, doX, doY)
    modifies out
    ensures o == FilledOutcome(img, k, AxisCut(img.Length0, out.Length0, x), AxisCut(img.Length1, out.Length1, y),
                               doX, doY, out.Length0, out.Length1, over)
    ensures o.Pass? && Plain(x, doX) && Plain(y, doY) ==> BandsShow(out, img, Lead(x, doX), Trail(x, doX), Lead(y, doY), Trail(y, doY))
  {
    var n, m, nn, mm := img.Length0, img.Length1, out.Length0, out.Length1;
    var cx, cy := AxisCut(n, nn, x), AxisCut(m, mm, y);
    ghost var plain := Plain(x, doX) && Plain(y, doY);
    ghost var xa, xb, ya, yb := Lead(x, doX), Trail(x, doX), Lead(y, doY), Trail(y, doY);
    if plain {
      PlainAxisCut(n, nn, x, doX);
      PlainAxisCut(m, mm, y, doY);
    }
    o := ExpandStrips(out, img, cx, cy, doX, doY, plain, xa, xb, ya, yb);
    if o.Fail? {
      return;
    }
    o := ExpandRest(out, img, k, cx, cy, doX, doY, plain, xa, xb, ya, yb, over);
  }

  /** What follows the strips of `expand`: on plain axes the two bands are complete, and
      when both axes expand the corners are filled without touching them. */
  method ExpandRest(out: array2<seq<real>>, img: array2<seq<real>>, k: Kind, cx: Cut, cy: Cut, doX: bool, doY: bool,
                    ghost plain: bool, ghost xa: nat, ghost xb: nat, ghost ya: nat, ghost yb: nat,
                    over: (Pixel, Pixel) -> Pixel)
    returns (o: Outcome)
    requires out != img && Holds(img, k) && CutWithin(cx, img.Length0, out.Length0) && CutWithin(cy, img.Length1, out.Length1)
    requires xa <= img.Length0 && xb <= img.Length0 && ya <= img.Length1 && yb <= img.Length1
    requires plain ==> PlainLayout(out, img, cx, cy, doX, doY, xa, xb, ya, yb)
    requires plain ==> (ShowsAt(out, img, xa, xb, ya, yb, 0, out.Length0, ya, ya + img.Length1)
      && ShowsAt(out, img, xa, xb, ya, yb, xa, xa + img.Length0, 0, out.Length1))
    modifies out
    ensures o == if doX && doY then CornersOutcome(img, k, Corners(img.Length0, img.Length1, out.Length0, out.Length1, cx, cy), over) else Pass
    ensures o.Pass? && plain ==> BandsShow(out, img, xa, xb, ya, yb)
  {
    var n, m := img.Length0, img.Length1;
    if plain {
      Bands(out, img, xa, xb, ya, yb);
    }
    o := Pass;
    if doX && doY {
      var cs := Corners(n, m, out.Length0, out.Length1, cx, cy);
      if plain {
        CornersOffBands(n, m, xa, xb, ya, yb);
      }
      o := ExpandCorners(out, img, k, cs, plain, xa, xb, ya, yb, over);
    }
  }

  /** The corners of `expand`, filled when both axes expand; when they miss the bands of
      interior rows and columns, those bands stay as they were. */
  method ExpandCorners(out: array2<seq<real>>, img: array2<seq<real>>, k: Kind, cs: seq<Corner>,
                       ghost banded: bool, ghost xa: nat, ghost xb: nat, ghost ya: nat, ghost yb: nat,
                       over: (Pixel, Pixel) -> Pixel)
    returns (o: Outcome)
    requires out != img && Holds(img, k)
    requires forall t :: 0 <= t < |cs| ==> CornerFits(cs[t], img.Length0, img.Length1) && cs[t].dr.1 <= out.Length0 && cs[t].dc.1 <= out.Length1
    requires xa <= img.Length0 && xb <= img.Length0 && ya <= img.Length1 && yb <= img.Length1
    requires banded ==> BandsShow(out, img, xa, xb, ya, yb)
    requires banded ==> forall i: nat, j: nat :: Inner(img.Length0, xa, i) || Inner(img.Length1, ya, j) ==> Untouched(cs, i, j)
    modifies out
    ensures o == CornersOutcome(img, k, cs, over)
    ensures banded ==> BandsShow(out, img, xa, xb, ya, yb)
  {
    o := FillCorners(out, img, k, cs, over);
    if banded {
      forall i, j | 0 <= i < out.Length0 && 0 <= j < out.Length1 && i < xa + img.Length0 + xb && j < ya + img.Length1 + yb
                    && (Inner(img.Length0, xa, i) || Inner(img.Length1, ya, j))
        ensures out[i, j] == img[MirrorSource(img.Length0, xa, xb, i), MirrorSource(img.Length1, ya, yb, j)]
      {
        assert Untouched(cs, i, j);
      }
    }
  }

  /** On plain axes, every cell of out in the interior rows or interior columns shows the
      input cell that the mirrored expansion by xExpand and yExpand places there. */
  ghost predicate ShowsMirrored(out: array2<seq<real>>, img: array2<seq<real>>, xExpand: Option<(int, int)>, yExpand: Option<(int, int)>)
    reads out, img
  {
    var x, y := Pair(xExpand, img.Length0), Pair(yExpand, img.Length1);
    var doX, doY := Requested(xExpand), Requested(yExpand);
    var xa, xb, ya, yb := Lead(x, doX), Trail(x, doX), Lead(y, doY), Trail(y, doY);
    Plain(x, doX) && Plain(y, doY) ==>
      xa <= img.Length0 && xb <= img.Length0 && ya <= img.Length1 && yb <= img.Length1
      && out.Length0 == xa + img.Length0 + xb && out.Length1 == ya + img.Length1 + yb
      && forall i, j :: 0 <= i < out.Length0 && 0 <= j < out.Length1 && (Inner(img.Length0, xa, i) || Inner(img.Length1, ya, j)) ==>
        out[i, j] == img[MirrorSource(img.Length0, xa, xb, i), MirrorSource(img.Length1, ya, yb, j)]
  }

  /** `expand(img, x_expand, y_expand)`: with no expansion requested the input itself is
      returned; otherwise the call fails exactly as `ExpandOutcome` says, and on success
      the result is a new array, each axis grown by its expansion, in which, on plain
      axes, the interior rows and interior columns show the mirrored input. */
  method Expand(img: array2<seq<real>>, k: Kind, xExpand: Option<(int, int)>, yExpand: Option<(int, int)>,
                over: (Pixel, Pixel) -> Pixel)
    returns (r: Result<array2<seq<real>>>)
    requires Holds(img, k) && NonNegative(xExpand) && NonNegative(yExpand)
    ensures !Requested(xExpand) && !Requested(yExpand) ==> r == Ok(img)
    ensures r.Err? <==> ExpandOutcome(img, k, xExpand, yExpand, over).Fail?
    ensures r.Err? ==> r.error == ExpandOutcome(img, k, xExpand, yExpand, over).error
    ensures r.Ok? && r.value != img ==>
      fresh(r.value) && r.value.Length0 == Grown(xExpand, img.Length0) && r.value.Length1 == Grown(yExpand, img.Length1)
    ensures r.Ok? && r.value != img ==> ShowsMirrored(r.value, img, xExpand, yExpand)
  {
    var doX, doY := Requested(xExpand), Requested(yExpand);
    if !doX && !doY {
      return Ok(img);
    }
    var n, m := img.Length0, img.Length1;
    var x, y := Pair(xExpand, n), Pair(yExpand, m);
    if n < x.0 || n < x.1 {
      return Err(ValueError);
    }
    if m < y.0 || m < y.1 {
      return Err(ValueError);
    }
    r := Grow(img, k, xExpand, yExpand, over);
  }

  /** `expand` past its argument checks: allocates the zero-filled grown output and
      fills it. */
  method Grow(img: array2<seq<real>>, k: Kind, xExpand: Option<(int, int)>, yExpand: Option<(int, int)>,
              over: (Pixel, Pixel) -> Pixel)
    returns (r: Result<array2<seq<real>>>)
    requires Holds(img, k) && NonNegative(xExpand) && NonNegative(yExpand) && (Requested(xExpand) || Requested(yExpand))
    requires Along(img.Length0, Pair(xExpand, img.Length0), Requested(xExpand))
    requires Along(img.Length1, Pair(yExpand, img.Length1), Requested(yExpand))
    ensures r.Err? <==> ExpandOutcome(img, k, xExpand, yExpand, over).Fail?
    ensures r.Err? ==> r.error == ExpandOutcome(img, k, xExpand, yExpand, over).error
    ensures r.Ok? ==> fresh(r.value) && r.value.Length0 == Grown(xExpand, img.Length0) && r.value.Length1 == Grown(yExpand, img.Length1)
    ensures r.Ok? ==> ShowsMirrored(r.value, img, xExpand, yExpand)
  {
    var n, m := img.Length0, img.Length1;
    var doX, doY := Requested(xExpand), Requested(yExpand);
    var x, y := Pair(xExpand, n), Pair(yExpand, m);
    var nn, mm := Grown(xExpand, n), Grown(yExpand, m);
    var out := new seq<real>[nn, mm]((i, j) => Zeros(CellSize(k)));
    assert GrownBy(out, img, x, y, doX, doY);
    var o := ExpandInto(out, img, k, x, y, doX, doY, over);
    assert ExpandOutcome(img, k, xExpand, yExpand, over) == o;
    if o.Fail? {
      return Err(o.error);
    }
    BandsMirrored(out, img, xExpand, yExpand);
    r := Ok(out);
  }

  /** The bands `ExpandInto` fills are the ones `ShowsMirrored` describes. */
  lemma BandsMirrored(out: array2<seq<real>>, img: array2<seq<real>>, xExpand: Option<(int, int)>, yExpand: Option<(int, int)>)
    requires NonNegative(xExpand) && NonNegative(yExpand)
    requires Along(img.Length0, Pair(xExpand, img.Length0), Requested(xExpand))
    requires Along(img.Length1, Pair(yExpand, img.Length1), Requested(yExpand))
    requires out.Length0 == Grown(xExpand, img.Length0) && out.Length1 == Grown(yExpand, img.Length1)
    requires var x, y := Pair(xExpand, img.Length0), Pair(yExpand, img.Length1);
             var doX, doY := Requested(xExpand), Requested(yExpand);
             Plain(x, doX) && Plain(y, doY) ==> BandsShow(out, img, Lead(x, doX), Trail(x, doX), Lead(y, doY), Trail(y, doY))
    ensures ShowsMirrored(out, img, xExpand, yExpand)
  {
  }

  /** On plain axes within their lengths every slice assignment fits, so only the corners
      can fail, and only when both axes expand; they are then the literal corner slices. */
  lemma ExpandPlainOutcome(img: array2<seq<real>>, k: Kind, xExpand: Option<(int, int)>, yExpand: Option<(int, int)>,
                           over: (Pixel, Pixel) -> Pixel)
    requires Holds(img, k) && NonNegative(xExpand) && NonNegative(yExpand)
    requires Requested(xExpand) ==> xExpand.value.0 <= img.Length0 && 0 < xExpand.value.1 <= img.Length0
    requires Requested(yExpand) ==> yExpand.value.0 <= img.Length1 && 0 < yExpand.value.1 <= img.Length1
    ensures var n, m := img.Length0, img.Length1;
            ExpandOutcome(img, k, xExpand, yExpand, over)
              == if Requested(xExpand) && Requested(yExpand)
                 then CornersOutcome(img, k, Corners(n, m, Grown(xExpand, n), Grown(yExpand, m),
                                                     PlainCut(n, xExpand.value.0, xExpand.value.1),
                                                     PlainCut(m, yExpand.value.0, yExpand.value.1)), over)
                 else Pass
  {
    var n, m := img.Length0, img.Length1;
    PlainExpansionCut(xExpand, n);
    PlainExpansionCut(yExpand, m);
    var x, y := Pair(xExpand, n), Pair(yExpand, m);
    var doX, doY := Requested(xExpand), Requested(yExpand);
    PlainFilledOutcome(img, k, Lead(x, doX), Trail(x, doX), Lead(y, doY), Trail(y, doY), Grown(xExpand, n), Grown(yExpand, m), doX, doY, over);
  }

  /** A requested expansion within the axis and without a trailing 0, or none, cuts the
      axis literally. */
  lemma PlainExpansionCut(e: Option<(int, int)>, n: nat)
    requires NonNegative(e) && (Requested(e) ==> e.value.0 <= n && 0 < e.value.1 <= n)
    ensures var a, b := Lead(Pair(e, n), Requested(e)), Trail(Pair(e, n), Requested(e));
            a <= n && b <= n && Grown(e, n) == a + n + b
            && AxisCut(n, Grown(e, n), Pair(e, n)) == PlainCut(n, a, b)
            && (Requested(e) ==> a == e.value.0 && b == e.value.1)
  {
    PlainAxisCut(n, Grown(e, n), Pair(e, n), Requested(e));
  }

  /** An expansion (a, 0) makes the interior slice `[a:-0]` empty, which only a single
      input row (or column) can be broadcast onto: on a longer axis it is ValueError. */
  lemma ExpandTrailingZeroFails(img: array2<seq<real>>, k: Kind, xExpand: Option<(int, int)>, yExpand: Option<(int, int)>,
                                over: (Pixel, Pixel) -> Pixel)
    requires Holds(img, k) && NonNegative(xExpand) && NonNegative(yExpand)
    requires Requested(xExpand) && xExpand.value.1 == 0 && img.Length0 > 1
    ensures ExpandOutcome(img, k, xExpand, yExpand, over) == Fail(ValueError)
  {
    var n := img.Length0;
    var x := Pair(xExpand, n);
    if x.0 <= n {
      assert AxisCut(n, Grown(xExpand, n), x).inner == (x.0, x.0);
    }
  }

  /** ... while a single row broadcast onto the empty interior and, through `[-0:]`, onto
      every row: a one-row image expanded by (1, 0) along x alone succeeds. */
  lemma ExpandSingleRowBroadcasts(img: array2<seq<real>>, k: Kind, over: (Pixel, Pixel) -> Pixel)
    requires Holds(img, k) && img.Length0 == 1
    ensures ExpandOutcome(img, k, Some((1, 0)), None, over) == Pass
  {
    var m := img.Length1;
    assert AxisCut(1, 2, (1, 0)) == Cut((1, 1), (0, 1), (0, 2), (0, 1), (0, 1));
    PlainAxisCut(m, m, (0, -(m as int)), false);
  }

  /** The top-left corner block `img[:xa, :ya]` is what the first composite reads: an
      expansion with a lead amount of 0 on either axis hands `alpha_composite` an empty
      block, whose `np.min` raises ValueError. */
  lemma ExpandZeroLeadFails(img: array2<seq<real>>, k: Kind, xExpand: Option<(int, int)>, yExpand: Option<(int, int)>,
                            over: (Pixel, Pixel) -> Pixel)
    requires Holds(img, k) && NonNegative(xExpand) && NonNegative(yExpand)
    requires Requested(xExpand) && Requested(yExpand) && (xExpand.value.0 == 0 || yExpand.value.0 == 0)
    ensures ExpandOutcome(img, k, xExpand, yExpand, over) == Fail(ValueError)
  {
    var n, m := img.Length0, img.Length1;
    var x, y := xExpand.value, yExpand.value;
    var nn, mm := Grown(xExpand, n), Grown(yExpand, m);
    var cx, cy := AxisCut(n, nn, x), AxisCut(m, mm, y);
    if n < x.0 || n < x.1 || m < y.0 || m < y.1 || !StripsFit(n, m, cx, cy, true, true) {
      return;
    }
    var c := Corners(n, m, nn, mm, cx, cy)[0];
    assert c.sr == cx.srcLead && c.sc == cy.srcLead;
    assert Len(c.sr) == 0 || Len(c.sc) == 0;
    EmptyCornerFails(img, k, c, over);
  }

  /** `alpha_composite` rejects an empty block: `np.min` of no values is ValueError. */
  lemma CompositeNeedsValues(img: array2<seq<real>>, k: Kind, c: Corner, over: (Pixel, Pixel) -> Pixel)
    requires Holds(img, k) && CornerFits(c, img.Length0, img.Length1) && CornerComposite(img, k, c, over).Ok?
    ensures Len(c.sr) > 0 && Len(c.sc) > 0
  {
    var b := BlockArray(img, k, c.sr, c.sc);
    BlockWellFormed(img, k, c.sr, c.sc);
    assert Convert.AlphaComposite(Convert.ArrayArg(b), Convert.ArrayArg(b), false, over).Ok?;
    assert Convert.ArrayToImageCheck(b).Pass?;
    assert Convert.HasValues(b);
  }

  /** A corner whose source block is empty fails with ValueError. */
  lemma EmptyCornerFails(img: array2<seq<real>>, k: Kind, c: Corner, over: (Pixel, Pixel) -> Pixel)
    requires Holds(img, k) && CornerFits(c, img.Length0, img.Length1) && (Len(c.sr) == 0 || Len(c.sc) == 0)
    ensures CornerOutcome(img, k, c, over) == Fail(ValueError)
  {
    if CornerComposite(img, k, c, over).Ok? {
      CompositeNeedsValues(img, k, c, over);
    }
  }

  /** When both axes expand, success needs a 3-D image of 4 channels (a 2-D image fails
      with IndexError at `[..., :]`, other depths with ValueError) and lead amounts above
      0, since the corners take whole composites of non-empty blocks. */
  lemma ExpandBothAxesNeedRgba(img: array2<seq<real>>, k: Kind, xExpand: Option<(int, int)>, yExpand: Option<(int, int)>,
                               over: (Pixel, Pixel) -> Pixel)
    requires Holds(img, k) && NonNegative(xExpand) && NonNegative(yExpand)
    requires Requested(xExpand) && Requested(yExpand) && ExpandOutcome(img, k, xExpand, yExpand, over).Pass?
    ensures k.rank3 && k.depth == 4 && xExpand.value.0 > 0 && yExpand.value.0 > 0
  {
    var n, m := img.Length0, img.Length1;
    var x, y := xExpand.value, yExpand.value;
    var nn, mm := Grown(xExpand, n), Grown(yExpand, m);
    var cs := Corners(n, m, nn, mm, AxisCut(n, nn, x), AxisCut(m, mm, y));
    assert CornerOutcome(img, k, cs[0], over).Pass?;
    CompositeNeedsValues(img, k, cs[0], over);
  }
}
