/** pyfx.util.convert: the rules for turning numpy arrays into RGBA images (1, 3 or
    4 channels; integer values in [0,255]; float values in [0,1]), the int/float
    conversions, the `to_array` guard and the checks of `alpha_composite`.
    PIL's "over" operator is a parameter. */
module Convert {
  import opened Common
  import opened Raster

  /** A numpy dtype as the code classifies it: one of INT_TYPES, one of FLOAT_TYPES, or
      neither (for example bool). */
  datatype DType = IntDType | FloatDType | OtherDType

  /** A numpy array. `dims` is its shape. A 2-D array stores each value as a
      one-element cell; a 3-D array stores dims[2] channels per cell; any other rank
      keeps no values (every operation rejects it before looking at them).
      `isInt` says whether the dtype is one of INT_TYPES. */
  datatype NdArray = NdArray(dims: seq<nat>, isInt: bool, cells: seq<seq<seq<real>>>)

  function Rows(a: NdArray): nat { if |a.dims| >= 1 then a.dims[0] else 0 }
  function Cols(a: NdArray): nat { if |a.dims| >= 2 then a.dims[1] else 0 }

  /** Values per cell: 1 for a 2-D array, the length of the third axis for a 3-D one. */
  function Depth(a: NdArray): nat { if |a.dims| == 3 then a.dims[2] else 1 }

  predicate WellFormed(a: NdArray) {
    (|a.dims| == 2 || |a.dims| == 3 ==>
      IsGrid(a.cells, Rows(a), Cols(a))
      && (forall i, j :: 0 <= i < Rows(a) && 0 <= j < Cols(a) ==> |a.cells[i][j]| == Depth(a))
      && (a.isInt ==> forall i, j, k :: 0 <= i < Rows(a) && 0 <= j < Cols(a) && 0 <= k < Depth(a) ==>
            a.cells[i][j][k] == a.cells[i][j][k].Floor as real))
  }

  /** Whether the array holds at least one value (np.min raises ValueError otherwise). */
  predicate HasValues(a: NdArray) {
    Rows(a) > 0 && Cols(a) > 0 && Depth(a) > 0
  }

  /** np.min(a) >= lo and np.max(a) <= hi. */
  predicate ValuesWithin(a: NdArray, lo: real, hi: real)
    requires WellFormed(a) && (|a.dims| == 2 || |a.dims| == 3)
  {
    forall i, j, k :: 0 <= i < Rows(a) && 0 <= j < Cols(a) && 0 <= k < Depth(a) ==>
      lo <= a.cells[i][j][k] <= hi
  }

  /** The layout `_array_to_image` chooses from the shape. */
  datatype Layout = DuplicateGray | ColorFakeAlpha | ColorWithAlpha

  function LayoutOf(a: NdArray): (r: Result<Layout>)
    ensures r.Ok? <==> |a.dims| == 2 || (|a.dims| == 3 && a.dims[2] in {0, 1, 3, 4})
    ensures r.Ok? ==> (r.value == DuplicateGray <==> Depth(a) <= 1)
    ensures r.Ok? ==> (r.value == ColorWithAlpha <==> Depth(a) == 4)
    ensures r.Err? ==> r.error == ValueError
  {
    if |a.dims| == 2 then Ok(DuplicateGray)
    else if |a.dims| == 3 then
      if a.dims[2] == 0 || a.dims[2] == 1 then Ok(DuplicateGray)
      else if a.dims[2] == 3 then Ok(ColorFakeAlpha)
      else if a.dims[2] == 4 then Ok(ColorWithAlpha)
      else Err(ValueError)
    else Err(ValueError)
  }

  /** The checks `_array_to_image` makes, in order: the shape, the value range for the
      dtype (an empty array already fails in np.min), and numpy's broadcast of a
      (H, W, 1) array into an (H, W) channel, which only succeeds for H = W = 1. */
  function ArrayToImageCheck(a: NdArray): (r: Outcome)
    requires WellFormed(a)
  {
    match LayoutOf(a)
    case Err(e) => Fail(e)
    case Ok(layout) =>
      if !HasValues(a) then Fail(ValueError)
      else if a.isInt && !ValuesWithin(a, 0.0, 255.0) then Fail(ValueError)
      else if !a.isInt && !ValuesWithin(a, 0.0, 1.0) then Fail(ValueError)
      else if |a.dims| == 3 && a.dims[2] == 1 && !(Rows(a) == 1 && Cols(a) == 1) then Fail(ValueError)
      else Pass
  }

  /** The uint8 level one value becomes: integers are copied, floats are scaled by 255
      and truncated by the uint8 store. */
  function Level(a: NdArray, x: real): (n: int)
    ensures IsByte(n)
  {
    if a.isInt then ToUint8(x) else ToUint8(255.0 * x)
  }

  /** The RGBA pixel `_array_to_image` produces at (i, j). */
  function ImagePixel(a: NdArray, i: nat, j: nat): (p: Pixel)
    requires WellFormed(a) && ArrayToImageCheck(a).Pass?
    requires i < Rows(a) && j < Cols(a)
    ensures PixelIsBytes(p)
  {
    var cell := a.cells[i][j];
    match LayoutOf(a).value
    case DuplicateGray =>
      var v := Level(a, cell[0]);
      Pixel(v, v, v, 255)
    case ColorFakeAlpha =>
      Pixel(Level(a, cell[0]), Level(a, cell[1]), Level(a, cell[2]), 255)
    case ColorWithAlpha =>
      Pixel(Level(a, cell[0]), Level(a, cell[1]), Level(a, cell[2]), Level(a, cell[3]))
  }

  /** The image as a grid of pixels. */
  function ImageOf(a: NdArray): (g: seq<seq<Pixel>>)
    requires WellFormed(a) && ArrayToImageCheck(a).Pass?
    ensures IsGrid(g, Rows(a), Cols(a))
    ensures forall i, j :: 0 <= i < Rows(a) && 0 <= j < Cols(a) ==> g[i][j] == ImagePixel(a, i, j)
  {
    seq(Rows(a), i requires 0 <= i < Rows(a) => seq(Cols(a), j requires 0 <= j < Cols(a) => ImagePixel(a, i, j)))
  }

  /** `_array_to_image` is rejected exactly for the cases the code names: a rank other
      than 2 or 3, more than 4 (or exactly 2) channels, an empty array, a value outside the
      dtype's range, or a (H, W, 1) array that is not 1x1. */
  lemma ArrayToImageRejects(a: NdArray)
    requires WellFormed(a)
    ensures ArrayToImageCheck(a).Fail? <==>
      !(|a.dims| == 2 || (|a.dims| == 3 && a.dims[2] in {0, 1, 3, 4}))
      || !HasValues(a)
      || (a.isInt && !ValuesWithin(a, 0.0, 255.0))
      || (!a.isInt && !ValuesWithin(a, 0.0, 1.0))
      || (|a.dims| == 3 && a.dims[2] == 1 && !(Rows(a) == 1 && Cols(a) == 1))
    ensures ArrayToImageCheck(a).Fail? ==> ArrayToImageCheck(a).error == ValueError
  {
  }

  /** Gray values go to R, G and B alike; an array without an alpha channel gets alpha
      255; a four-channel array keeps its own alpha; integers are copied unchanged. */
  lemma ImagePixelChannels(a: NdArray, i: nat, j: nat)
    requires WellFormed(a) && ArrayToImageCheck(a).Pass?
    requires i < Rows(a) && j < Cols(a)
    ensures var p := ImagePixel(a, i, j);
      (Depth(a) <= 1 ==> p.r == p.g == p.b == Level(a, a.cells[i][j][0]))
      && (Depth(a) != 4 ==> p.a == 255)
      && (Depth(a) == 4 ==> p.a == Level(a, a.cells[i][j][3]))
      && (a.isInt ==> p.r == a.cells[i][j][0] as int)
  {
    var x := a.cells[i][j][0];
    if a.isInt {
      assert 0.0 <= x <= 255.0;
      assert x == x.Floor as real;
      assert Level(a, x) == x.Floor;
    }
  }

  /** A float value v in [0,1] becomes floor(255 v). */
  lemma FloatLevel(a: NdArray, x: real)
    requires !a.isInt && 0.0 <= x <= 1.0
    ensures Level(a, x) == (255.0 * x).Floor
  {
  }

  // ---------------------------------------------------------------------------
  // `_array_to_image`, filling a fresh (H, W, 4) uint8 array channel by channel
  // ---------------------------------------------------------------------------

  /** `out[:, :, k] = a_tmp[:, :, src]` (or `a_tmp` itself for a gray array). */
  method CopyChannel(out: array3<int>, k: nat, a: NdArray, src: nat)
    requires WellFormed(a) && (|a.dims| == 2 || |a.dims| == 3)
    requires out.Length0 == Rows(a) && out.Length1 == Cols(a) && k < out.Length2
    requires src < Depth(a)
    modifies out
    ensures forall i, j, c :: 0 <= i < out.Length0 && 0 <= j < out.Length1 && 0 <= c < out.Length2 ==>
      out[i, j, c] == (if c == k then Level(a, a.cells[i][j][src]) else old(out[i, j, c]))
  {
    for i := 0 to out.Length0
      invariant forall i', j, c :: 0 <= i' < out.Length0 && 0 <= j < out.Length1 && 0 <= c < out.Length2 ==>
        out[i', j, c] == (if c == k && i' < i then Level(a, a.cells[i'][j][src]) else old(out[i', j, c]))
    {
      for j := 0 to out.Length1
        invariant forall i', j', c :: 0 <= i' < out.Length0 && 0 <= j' < out.Length1 && 0 <= c < out.Length2 ==>
          out[i', j', c] == (if c == k && (i' < i || (i' == i && j' < j)) then Level(a, a.cells[i'][j'][src]) else old(out[i', j', c]))
      {
        out[i, j, k] := Level(a, a.cells[i][j][src]);
      }
    }
  }

  /** `out[:, :, k] = v`. */
  method FillChannel(out: array3<int>, k: nat, v: int)
    requires k < out.Length2
    modifies out
    ensures forall i, j, c :: 0 <= i < out.Length0 && 0 <= j < out.Length1 && 0 <= c < out.Length2 ==>
      out[i, j, c] == (if c == k then v else old(out[i, j, c]))
  {
    for i := 0 to out.Length0
      invariant forall i', j, c :: 0 <= i' < out.Length0 && 0 <= j < out.Length1 && 0 <= c < out.Length2 ==>
        out[i', j, c] == (if c == k && i' < i then v else old(out[i', j, c]))
    {
      for j := 0 to out.Length1
        invariant forall i', j', c :: 0 <= i' < out.Length0 && 0 <= j' < out.Length1 && 0 <= c < out.Length2 ==>
          out[i', j', c] == (if c == k && (i' < i || (i' == i && j' < j)) then v else old(out[i', j', c]))
      {
        out[i, j, k] := v;
      }
    }
  }

  /** The channel c of a pixel. */
  function Channel(p: Pixel, c: nat): int
    requires c < 4
  {
    if c == 0 then p.r else if c == 1 then p.g else if c == 2 then p.b else p.a
  }

  /** `_array_to_image`: the checks, then a fresh (H, W, 4) uint8 array holding
      ImagePixel at every position (PIL's Image.fromarray keeps those values). */
  method ArrayToImage(a: NdArray) returns (r: Result<array3<int>>)
    requires WellFormed(a)
    ensures ArrayToImageCheck(a).Fail? ==> r == Err(ArrayToImageCheck(a).error)
    ensures ArrayToImageCheck(a).Pass? ==>
      r.Ok? && fresh(r.value) && r.value.Length0 == Rows(a) && r.value.Length1 == Cols(a) && r.value.Length2 == 4
      && forall i, j, c :: 0 <= i < Rows(a) && 0 <= j < Cols(a) && 0 <= c < 4 ==>
           r.value[i, j, c] == Channel(ImagePixel(a, i, j), c)
  {
    var check := ArrayToImageCheck(a);
    if check.Fail? {
      return Err(check.error);
    }
    var layout := LayoutOf(a).value;
    var out := new int[Rows(a), Cols(a), 4]((i, j, c) => 0);
    if layout == DuplicateGray {
      CopyChannel(out, 0, a, 0);
      CopyChannel(out, 1, a, 0);
      CopyChannel(out, 2, a, 0);
    } else {
      CopyChannel(out, 0, a, 0);
      CopyChannel(out, 1, a, 1);
      CopyChannel(out, 2, a, 2);
    }
    if layout == ColorWithAlpha {
      CopyChannel(out, 3, a, 3);
    } else {
      FillChannel(out, 3, 255);
    }
    return Ok(out);
  }

  // ---------------------------------------------------------------------------
  // alpha_composite
  // ---------------------------------------------------------------------------

  /** An argument of `alpha_composite`: a PIL image (with its mode and pixels) or an array. */
  datatype ImageArg = PilImage(isRgba: bool, px: seq<seq<Pixel>>) | ArrayArg(a: NdArray)

  /** What `alpha_composite` returns: a PIL image, or an array of the bottom's dtype. */
  datatype Composited = AsImage(px: seq<seq<Pixel>>) | AsArray(arr: NdArray)

  function Width<T>(g: seq<seq<T>>): nat { if |g| == 0 then 0 else |g[0]| }

  predicate Rect<T>(g: seq<seq<T>>) { IsGrid(g, |g|, Width(g)) }

  /** The image an argument stands for, with its RGBA flag (arrays always convert to RGBA). */
  function AsRgba(x: ImageArg): (r: Result<(bool, seq<seq<Pixel>>)>)
    requires x.ArrayArg? ==> WellFormed(x.a)
  {
    match x
    case PilImage(isRgba, px) => Ok((isRgba, px))
    case ArrayArg(a) =>
      if ArrayToImageCheck(a).Fail? then Err(ArrayToImageCheck(a).error) else Ok((true, ImageOf(a)))
  }

  /** PIL's compositing, pixel by pixel with the "over" operator. */
  function OverGrid(bottom: seq<seq<Pixel>>, top: seq<seq<Pixel>>, over: (Pixel, Pixel) -> Pixel): (g: seq<seq<Pixel>>)
    requires Rect(bottom) && IsGrid(top, |bottom|, Width(bottom))
    ensures IsGrid(g, |bottom|, Width(bottom))
    ensures forall i, j :: 0 <= i < |bottom| && 0 <= j < Width(bottom) ==> g[i][j] == over(bottom[i][j], top[i][j])
  {
    seq(|bottom|, i requires 0 <= i < |bottom| => seq(Width(bottom), j requires 0 <= j < Width(bottom) => over(bottom[i][j], top[i][j])))
  }

  /** An RGBA image as a (H, W, 4) array, divided by `scale`. */
  function GridToArray(g: seq<seq<Pixel>>, isInt: bool, scale: real): (a: NdArray)
    requires Rect(g) && scale > 0.0
    ensures Rows(a) == |g| && Cols(a) == Width(g) && Depth(a) == 4 && a.isInt == isInt
    ensures IsGrid(a.cells, |g|, Width(g)) && forall i, j :: 0 <= i < |g| && 0 <= j < Width(g) ==> |a.cells[i][j]| == 4
  {
    NdArray([|g|, Width(g), 4], isInt,
      seq(|g|, i requires 0 <= i < |g| => seq(Width(g), j requires 0 <= j < Width(g) =>
        [g[i][j].r as real / scale, g[i][j].g as real / scale, g[i][j].b as real / scale, g[i][j].a as real / scale])))
  }

  /** `alpha_composite(bottom, top, return_matrix_as_pil)`: both inputs become RGBA
      images, a non-RGBA image or a size mismatch raises ValueError, and the result is a
      PIL image when the bottom was one (or when asked), otherwise an array of the
      bottom's dtype holding 0..255 integers or, for floats, those values over 255. */
  function AlphaComposite(bottom: ImageArg, top: ImageArg, returnAsPil: bool, over: (Pixel, Pixel) -> Pixel): (r: Result<Composited>)
    requires bottom.ArrayArg? ==> WellFormed(bottom.a)
    requires top.ArrayArg? ==> WellFormed(top.a)
    requires bottom.PilImage? ==> Rect(bottom.px)
    requires top.PilImage? ==> Rect(top.px)
    ensures r.Err? ==> r.error == ValueError
  {
    match AsRgba(bottom)
    case Err(e) => Err(e)
    case Ok(b) =>
      match AsRgba(top)
      case Err(e) => Err(e)
      case Ok(t) =>
        if !t.0 || !b.0 then Err(ValueError)
        else if |t.1| != |b.1| || Width(t.1) != Width(b.1) then Err(ValueError)
        else
          var composite := OverGrid(b.1, t.1, over);
          if bottom.PilImage? || returnAsPil then Ok(AsImage(composite))
          else if bottom.a.isInt then Ok(AsArray(GridToArray(composite, true, 1.0)))
          else Ok(AsArray(GridToArray(composite, false, 255.0)))
  }

  /** What `alpha_composite` does once both inputs have become images: it succeeds
      exactly when both are RGBA and of one size; the composite is returned as an image
      when the bottom was one or when asked, and otherwise as a (H, W, 4) array of the
      bottom's dtype, whose float values are the 0..255 levels over 255. An array input
      always converts to RGBA, so only a PIL input can fail the mode check. */
  lemma AlphaCompositeOutcome(bottom: ImageArg, top: ImageArg, returnAsPil: bool, over: (Pixel, Pixel) -> Pixel)
    requires bottom.ArrayArg? ==> WellFormed(bottom.a)
    requires top.ArrayArg? ==> WellFormed(top.a)
    requires bottom.PilImage? ==> Rect(bottom.px)
    requires top.PilImage? ==> Rect(top.px)
    requires AsRgba(bottom).Ok? && AsRgba(top).Ok?
    ensures bottom.ArrayArg? ==> AsRgba(bottom).value.0
    ensures top.ArrayArg? ==> AsRgba(top).value.0
    ensures var b := AsRgba(bottom).value;
            var t := AsRgba(top).value;
            var r := AlphaComposite(bottom, top, returnAsPil, over);
            (r.Ok? <==> b.0 && t.0 && |t.1| == |b.1| && Width(t.1) == Width(b.1))
            && (r.Ok? && (bottom.PilImage? || returnAsPil) ==> r.value == AsImage(OverGrid(b.1, t.1, over)))
            && (r.Ok? && bottom.ArrayArg? && !returnAsPil ==>
                  r.value.AsArray? && r.value.arr.isInt == bottom.a.isInt
                  && Rows(r.value.arr) == |b.1| && Cols(r.value.arr) == Width(b.1) && Depth(r.value.arr) == 4
                  && r.value.arr == GridToArray(OverGrid(b.1, t.1, over), bottom.a.isInt, if bottom.a.isInt then 1.0 else 255.0))
  {
  }

  /** A uint8 RGBA frame as a numpy array. */
  function RgbaArray(g: seq<seq<Pixel>>): (a: NdArray)
    requires Rect(g)
    ensures Rows(a) == |g| && Cols(a) == Width(g) && Depth(a) == 4 && a.isInt
  {
    GridToArray(g, true, 1.0)
  }

  lemma RgbaArrayWellFormed(g: seq<seq<Pixel>>)
    requires Rect(g)
    ensures WellFormed(RgbaArray(g))
  {
    var a := RgbaArray(g);
    forall i, j, k | 0 <= i < Rows(a) && 0 <= j < Cols(a) && 0 <= k < 4
      ensures a.cells[i][j][k] == a.cells[i][j][k].Floor as real
    {
      var p := g[i][j];
      assert a.cells[i][j] == [p.r as real, p.g as real, p.b as real, p.a as real];
      assert a.cells[i][j][k] == Channel(p, k) as real;
    }
  }

  /** `alpha_composite` on two uint8 RGBA frame arrays, as the compositor and the sprites
      call it; the result is the frame of the returned array. */
  function CompositeFramesViaArrays(bottom: seq<seq<Pixel>>, top: seq<seq<Pixel>>, over: (Pixel, Pixel) -> Pixel): (r: Result<seq<seq<Pixel>>>)
    requires Rect(bottom) && Rect(top)
    ensures r.Ok? ==> Rect(r.value)
  {
    RgbaArrayWellFormed(bottom);
    RgbaArrayWellFormed(top);
    match AlphaComposite(ArrayArg(RgbaArray(bottom)), ArrayArg(RgbaArray(top)), false, over)
    case Err(e) => Err(e)
    case Ok(c) =>
      if c.AsArray? && Rect(c.arr.cells) then Ok(FrameOf(c.arr)) else Ok([])
  }

  /** The pixels of a (H, W, 4) array. */
  function FrameOf(a: NdArray): (g: seq<seq<Pixel>>)
    requires Rect(a.cells)
    ensures Rect(g)
  {
    seq(|a.cells|, i requires 0 <= i < |a.cells| => seq(Width(a.cells), j requires 0 <= j < Width(a.cells) =>
      var c := a.cells[i][j];
      if |c| == 4 then Pixel(c[0].Floor, c[1].Floor, c[2].Floor, c[3].Floor) else Pixel(0, 0, 0, 0)))
  }

  /** Compositing two frames directly: ValueError when a frame is empty, holds a value
      outside [0,255], or the sizes differ; otherwise the pixel-by-pixel "over". */
  function CompositeFrames(bottom: seq<seq<Pixel>>, top: seq<seq<Pixel>>, over: (Pixel, Pixel) -> Pixel): (r: Result<seq<seq<Pixel>>>)
    requires Rect(bottom) && Rect(top)
    ensures r.Ok? ==> Rect(r.value) && |r.value| == |bottom| && Width(r.value) == Width(bottom)
  {
    if |bottom| == 0 || Width(bottom) == 0 || !GridIsBytes(bottom)
       || |top| == 0 || Width(top) == 0 || !GridIsBytes(top)
       || |top| != |bottom| || Width(top) != Width(bottom)
    then Err(ValueError)
    else Ok(OverGrid(bottom, top, over))
  }

  /** Going through `alpha_composite` on (H, W, 4) uint8 arrays is the direct composite:
      it fails with ValueError exactly when a frame is empty, holds a value outside
      [0,255], or the sizes differ, and otherwise yields the pixel-by-pixel "over". */
  lemma {:induction false} CompositeFramesMeaning(bottom: seq<seq<Pixel>>, top: seq<seq<Pixel>>, over: (Pixel, Pixel) -> Pixel)
    requires Rect(bottom) && Rect(top)
    ensures CompositeFramesViaArrays(bottom, top, over) == CompositeFrames(bottom, top, over)
  {
    RgbaArrayWellFormed(bottom);
    RgbaArrayWellFormed(top);
    RgbaArrayBytes(bottom);
    RgbaArrayBytes(top);
    var ba := RgbaArray(bottom);
    var ta := RgbaArray(top);
    if ArrayToImageCheck(ba).Pass? && ArrayToImageCheck(ta).Pass? {
      RgbaImageOf(bottom);
      RgbaImageOf(top);
      if |top| == |bottom| && Width(top) == Width(bottom) {
        var composite := OverGrid(bottom, top, over);
        var arr := GridToArray(composite, true, 1.0);
        assert AlphaComposite(ArrayArg(ba), ArrayArg(ta), false, over) == Ok(AsArray(arr));
        FrameOfGridToArray(composite);
      }
    }
  }

  lemma RgbaArrayBytes(g: seq<seq<Pixel>>)
    requires Rect(g)
    ensures WellFormed(RgbaArray(g))
    ensures ArrayToImageCheck(RgbaArray(g)).Pass? <==> |g| > 0 && Width(g) > 0 && GridIsBytes(g)
  {
    RgbaArrayWellFormed(g);
    var a := RgbaArray(g);
    if |g| > 0 && Width(g) > 0 {
      if GridIsBytes(g) {
        forall i, j, k | 0 <= i < Rows(a) && 0 <= j < Cols(a) && 0 <= k < 4
          ensures 0.0 <= a.cells[i][j][k] <= 255.0
        {
          assert a.cells[i][j][k] == Channel(g[i][j], k) as real;
        }
      } else {
        var i, j :| 0 <= i < |g| && 0 <= j < |g[i]| && !PixelIsBytes(g[i][j]);
        var p := g[i][j];
        var k := if !IsByte(p.r) then 0 else if !IsByte(p.g) then 1 else if !IsByte(p.b) then 2 else 3;
        assert a.cells[i][j][k] == Channel(p, k) as real;
      }
    }
  }

  lemma RgbaImageOf(g: seq<seq<Pixel>>)
    requires Rect(g) && |g| > 0 && Width(g) > 0 && GridIsBytes(g)
    ensures WellFormed(RgbaArray(g)) && ArrayToImageCheck(RgbaArray(g)).Pass?
    ensures ImageOf(RgbaArray(g)) == g
  {
    RgbaArrayBytes(g);
    var a := RgbaArray(g);
    var img := ImageOf(a);
    forall i | 0 <= i < |g| ensures img[i] == g[i] {
      forall j | 0 <= j < Width(g) ensures img[i][j] == g[i][j] {
        var p := g[i][j];
        assert a.cells[i][j] == [p.r as real, p.g as real, p.b as real, p.a as real];
      }
    }
  }

  lemma FrameOfGridToArray(g: seq<seq<Pixel>>)
    requires Rect(g)
    ensures Rect(GridToArray(g, true, 1.0).cells)
    ensures FrameOf(GridToArray(g, true, 1.0)) == g
  {
    var a := GridToArray(g, true, 1.0);
    var f := FrameOf(a);
    forall i | 0 <= i < |g| ensures f[i] == g[i] {
      forall j | 0 <= j < Width(g) ensures f[i][j] == g[i][j] {
        var p := g[i][j];
        assert a.cells[i][j] == [p.r as real, p.g as real, p.b as real, p.a as real];
      }
    }
  }

  // ---------------------------------------------------------------------------
  // _float_to_int, _int_to_float and the to_array guard
  // ---------------------------------------------------------------------------

  /** A rounded value of [0,1] scaled by 255 is a byte. */
  lemma RoundByteScale(x: real)
    requires 0.0 <= x <= 1.0
    ensures IsByte(Round(x * 255.0))
  {
    RoundMonotone(0.0, x * 255.0);
    RoundMonotone(x * 255.0, 255.0);
    RoundOfInt(0);
    RoundOfInt(255);
  }

  /** `_float_to_int(a, dtype)`, on the array's values in order: the [0,1] range check
      (np.min of an empty array raises too), then the dtype check, then round(a·255). */
  function FloatToInt(a: seq<real>, dtype: DType): (r: Result<seq<int>>)
    ensures r.Err? ==> r.error == ValueError
    ensures r.Ok? <==> |a| > 0 && (forall i :: 0 <= i < |a| ==> 0.0 <= a[i] <= 1.0) && dtype == IntDType
    ensures r.Ok? ==> |r.value| == |a| && forall i :: 0 <= i < |a| ==> r.value[i] == Round(a[i] * 255.0) && IsByte(r.value[i])
  {
    if |a| == 0 || exists i :: 0 <= i < |a| && !(0.0 <= a[i] <= 1.0) then Err(ValueError)
    else if dtype != IntDType then Err(ValueError)
    else
      assert forall i :: 0 <= i < |a| ==> IsByte(Round(a[i] * 255.0)) by {
        forall i | 0 <= i < |a| ensures IsByte(Round(a[i] * 255.0)) { RoundByteScale(a[i]); }
      }
      Ok(seq(|a|, i requires 0 <= i < |a| => Round(a[i] * 255.0)))
  }

  /** `_int_to_float(a, dtype)`: the [0,255] range check, the dtype check, then a/255. */
  function IntToFloat(a: seq<int>, dtype: DType): (r: Result<seq<real>>)
    ensures r.Err? ==> r.error == ValueError
    ensures r.Ok? <==> |a| > 0 && (forall i :: 0 <= i < |a| ==> IsByte(a[i])) && dtype == FloatDType
    ensures r.Ok? ==> |r.value| == |a| && forall i :: 0 <= i < |a| ==> r.value[i] == a[i] as real / 255.0 && 0.0 <= r.value[i] <= 1.0
  {
    if |a| == 0 || exists i :: 0 <= i < |a| && !IsByte(a[i]) then Err(ValueError)
    else if dtype != FloatDType then Err(ValueError)
    else Ok(seq(|a|, i requires 0 <= i < |a| => a[i] as real / 255.0))
  }

  /** Converting integers to floats and back returns the integers. */
  lemma IntFloatRoundTrip(a: seq<int>)
    requires |a| > 0 && forall i :: 0 <= i < |a| ==> IsByte(a[i])
    ensures IntToFloat(a, FloatDType).Ok?
    ensures FloatToInt(IntToFloat(a, FloatDType).value, IntDType) == Ok(a)
  {
    var f := IntToFloat(a, FloatDType).value;
    var back := FloatToInt(f, IntDType).value;
    forall i | 0 <= i < |a| ensures back[i] == a[i] {
      assert f[i] * 255.0 == a[i] as real;
      RoundOfInt(a[i]);
    }
    assert back == a;
  }

  /** The first check of `to_array` as written: `dtype not in FLOAT_TYPES or dtype not in
      INT_TYPES`. No dtype is in both tuples, so the condition always holds. */
  function ToArrayGuardAsWritten(dtype: DType, numChannels: int): (r: Outcome)
  {
    if !(dtype == FloatDType) || !(dtype == IntDType) then Fail(ValueError)
    else if numChannels !in {1, 3, 4} then Fail(ValueError)
    else Pass
  }

  /** Every call of `to_array` raises ValueError at the dtype guard. */
  lemma ToArrayAlwaysRejects(dtype: DType, numChannels: int)
    ensures ToArrayGuardAsWritten(dtype, numChannels) == Fail(ValueError)
  {
  }

  /** The guard with `and`, as its message ("must be some form of numpy integer or
      float") means: it rejects exactly the dtypes that are neither, and then checks the
      channel count. */
  function ToArrayGuard(dtype: DType, numChannels: int): (r: Outcome)
    ensures r.Pass? <==> dtype != OtherDType && numChannels in {1, 3, 4}
    ensures r.Fail? ==> r.error == ValueError
  {
    if dtype.OtherDType? then Fail(ValueError)
    else if numChannels !in {1, 3, 4} then Fail(ValueError)
    else Pass
  }
}
