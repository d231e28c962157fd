/** pyfx/util.py, the module-file copy of the conversion helpers (shadowed by the
    package pyfx/util/, which the rest of the code imports): `matrix_to_image`, the
    same checks and channel layout as `_array_to_image`, and an `alpha_composite` that
    never gets past its first line. */
module LegacyUtil {
  import opened Common
  import opened Raster
  import opened Convert

  /** `matrix_to_image(a)`: the code of `_array_to_image` line for line. Its INT_TYPES
      lists only the fixed-width integer types, which covers the same dtypes, since numpy's
      int, intc and intp are aliases of fixed-width ones. */
  method MatrixToImage(a: NdArray) returns (r: Result<array3<int>>)
    requires WellFormed(a)
    ensures ArrayToImageCheck(a).Fail? ==> r == Err(ArrayToImageCheck(a).error)
    ensures ArrayToImageCheck(a).Pass? ==>
      r.Ok? && fresh(r.value) && r.value.Length0 == Rows(a) && r.value.Length1 == Cols(a) && r.value.Length2 == 4
      && forall i, j, c :: 0 <= i < Rows(a) && 0 <= j < Cols(a) && 0 <= c < 4 ==>
           r.value[i, j, c] == Channel(ImagePixel(a, i, j), c)
  {
    r := ArrayToImage(a);
  }

  /** `alpha_composite(bottom, top, return_matrix_as_pil)` of pyfx/util.py: its first
      statement tests `type(a)`, and no `a` is defined in the function or the module, so
      every call raises NameError before any conversion or shape check. */
  function AlphaCompositeAsWritten(bottom: ImageArg, top: ImageArg, returnAsPil: bool, over: (Pixel, Pixel) -> Pixel): (r: Result<Composited>)
    ensures r == Err(NameError)
  {
    Err(NameError)
  }

  /** Two same-size RGBA images, which the package's `alpha_composite` composites, are
      rejected by this copy. */
  lemma AlphaCompositeAsWrittenRejectsValid(px: seq<seq<Pixel>>, over: (Pixel, Pixel) -> Pixel)
    requires Rect(px)
    ensures AlphaComposite(PilImage(true, px), PilImage(true, px), false, over).Ok?
    ensures AlphaCompositeAsWritten(PilImage(true, px), PilImage(true, px), false, over) == Err(NameError)
  {
  }
}
