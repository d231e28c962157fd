/** Linear transition masks: pyfx.primitives.blends.fade and the two identical copies of
    `CrossFade._create_masks` (pyfx/effects/transitions and pyfx/visuals/transitions).
    Mask stacks are 3-D integer arrays; every value written lies in [0, 255], so the
    uint8 storage never wraps. */
module Masks {
  import opened Common

  /** `int(round(i * (1/n) * 255, 0))`, computed over the reals. */
  function MaskValue(i: int, n: int): (v: int)
    requires n != 0
  {
    Round((i * 255) as real / n as real)
  }

  /** Over 0..n the mask value starts at 0, ends at 255, rises with i and stays a byte. */
  lemma MaskValueRange(i: int, n: int)
    requires 0 <= i <= n && n > 0
    ensures 0 <= MaskValue(i, n) <= 255
    ensures i == 0 ==> MaskValue(i, n) == 0
    ensures i == n ==> MaskValue(i, n) == 255
  {
    var x := (i * 255) as real / n as real;
    MaskFraction(i, n);
    RoundMonotone(0.0, x);
    RoundMonotone(x, 255.0);
    RoundOfInt(0);
    RoundOfInt(255);
  }

  /** The unrounded mask value i·255/n lies in [0, 255], and is 0 at i = 0 and 255 at
      i = n. */
  lemma MaskFraction(i: int, n: int)
    requires 0 <= i <= n && n > 0
    ensures 0.0 <= (i * 255) as real / n as real <= 255.0
    ensures i == 0 ==> (i * 255) as real / n as real == 0.0
    ensures i == n ==> (i * 255) as real / n as real == 255.0
  {
    var x := (i * 255) as real / n as real;
    var q := i as real / n as real;
    assert x == 255.0 * q by {
      assert (i * 255) as real == i as real * 255.0;
    }
    DivUnit(i as real, n as real);
    MulMonotone(255.0, q, 1.0);
    MulNonneg(255.0, q);
    if i == n {
      MaskFull(n);
    }
  }

  lemma MaskFull(n: int)
    requires n > 0
    ensures (n * 255) as real / n as real == 255.0
  {
    var m := n as real;
    var a := (n * 255) as real;
    assert a == 255.0 * m;
    assert a / m == 255.0 * m / m;
    assert 255.0 * m / m == 255.0 * (m / m);
    assert m / m == 1.0;
  }

  lemma MaskValueMonotone(i: int, j: int, n: int)
    requires i <= j && n > 0
    ensures MaskValue(i, n) <= MaskValue(j, n)
  {
    var x, y := (i * 255) as real / n as real, (j * 255) as real / n as real;
    assert x <= y by {
      assert (i * 255) as real <= (j * 255) as real;
    }
    RoundMonotone(x, y);
  }

  /** The example of the fade test: frame 1 of 5 is 51. */
  lemma FadeStepExample()
    ensures MaskValue(0, 5) == 0 && MaskValue(1, 5) == 51 && MaskValue(5, 5) == 255
  {
    RoundOfInt(0);
    RoundOfInt(51);
    RoundOfInt(255);
  }

  /** Fills frame i (axis 0) of the stack with v. */
  method FillFrame(a: array3<int>, i: nat, v: int)
    requires i < a.Length0
    modifies a
    ensures forall y, x :: 0 <= y < a.Length1 && 0 <= x < a.Length2 ==> a[i, y, x] == v
    ensures forall f, y, x :: 0 <= f < a.Length0 && f != i && 0 <= y < a.Length1 && 0 <= x < a.Length2 ==> a[f, y, x] == old(a[f, y, x])
  {
    for y := 0 to a.Length1
      invariant forall y', x :: 0 <= y' < y && 0 <= x < a.Length2 ==> a[i, y', x] == v
      invariant forall f, y', x :: 0 <= f < a.Length0 && f != i && 0 <= y' < a.Length1 && 0 <= x < a.Length2 ==> a[f, y', x] == old(a[f, y', x])
    {
      for x := 0 to a.Length2
        invariant forall y', x' :: 0 <= y' < y && 0 <= x' < a.Length2 ==> a[i, y', x'] == v
        invariant forall x' :: 0 <= x' < x ==> a[i, y, x'] == v
        invariant forall f, y', x' :: 0 <= f < a.Length0 && f != i && 0 <= y' < a.Length1 && 0 <= x' < a.Length2 ==> a[f, y', x'] == old(a[f, y', x'])
      {
        a[i, y, x] := v;
      }
    }
  }

  /** `fade(shape, num_steps)`: num_steps + 1 frames of the given shape, frame i uniformly
      MaskValue(i, num_steps). Negative dimensions make numpy raise ValueError; with
      num_steps = 0 the step `1/num_steps` raises ZeroDivisionError; num_steps = -1 gives an
      empty stack. */
  method Fade(height: int, width: int, numSteps: int) returns (r: Result<array3<int>>)
    ensures r.Err? <==> height < 0 || width < 0 || numSteps < -1 || numSteps == 0
    ensures r.Err? ==> r.error == (if height < 0 || width < 0 || numSteps < -1 then ValueError else ZeroDivisionError)
    ensures r.Ok? ==> (fresh(r.value)
      && r.value.Length0 == numSteps + 1 && r.value.Length1 == height && r.value.Length2 == width
      && forall i, y, x :: 0 <= i < r.value.Length0 && 0 <= y < height && 0 <= x < width ==> r.value[i, y, x] == MaskValue(i, numSteps))
  {
    if height < 0 || width < 0 || numSteps < -1 {
      return Err(ValueError);
    }
    var masks := new int[numSteps + 1, height, width]((i, y, x) => 0);
    if numSteps == 0 {
      return Err(ZeroDivisionError);
    }
    for i := 0 to numSteps + 1
      invariant forall f, y, x :: 0 <= f < i && 0 <= y < height && 0 <= x < width ==> masks[f, y, x] == MaskValue(f, numSteps)
    {
      FillFrame(masks, i, MaskValue(i, numSteps));
    }
    return Ok(masks);
  }

  /** Every frame of a fade is a byte, frame 0 is black, the last is 255, and frames
      brighten with their index. */
  lemma FadeFrames(numSteps: nat, i: nat, j: nat)
    requires numSteps > 0 && i <= j <= numSteps
    ensures 0 <= MaskValue(i, numSteps) <= MaskValue(j, numSteps) <= 255
    ensures MaskValue(0, numSteps) == 0 && MaskValue(numSteps, numSteps) == 255
  {
    MaskValueRange(i, numSteps);
    MaskValueRange(j, numSteps);
    MaskValueRange(0, numSteps);
    MaskValueRange(numSteps, numSteps);
    MaskValueMonotone(i, j, numSteps);
  }

  /** Fills slice z (axis 2) of the stack with v. */
  method FillSlice(a: array3<int>, z: nat, v: int)
    requires z < a.Length2
    modifies a
    ensures forall p, q :: 0 <= p < a.Length0 && 0 <= q < a.Length1 ==> a[p, q, z] == v
    ensures forall p, q, z' :: 0 <= p < a.Length0 && 0 <= q < a.Length1 && 0 <= z' < a.Length2 && z' != z ==> a[p, q, z'] == old(a[p, q, z'])
  {
    for p := 0 to a.Length0
      invariant forall p', q :: 0 <= p' < p && 0 <= q < a.Length1 ==> a[p', q, z] == v
      invariant forall p', q, z' :: 0 <= p' < a.Length0 && 0 <= q < a.Length1 && 0 <= z' < a.Length2 && z' != z ==> a[p', q, z'] == old(a[p', q, z'])
    {
      for q := 0 to a.Length1
        invariant forall p', q' :: 0 <= p' < p && 0 <= q' < a.Length1 ==> a[p', q', z] == v
        invariant forall q' :: 0 <= q' < q ==> a[p, q', z] == v
        invariant forall p', q', z' :: 0 <= p' < a.Length0 && 0 <= q' < a.Length1 && 0 <= z' < a.Length2 && z' != z ==> a[p', q', z'] == old(a[p', q', z'])
      {
        a[p, q, z] := v;
      }
    }
  }

  /** `CrossFade._create_masks(trans_mask)`: with n = trans_mask.shape[2], slice i along
      axis 2 becomes MaskValue(i, n - 1), in place, and the same array is returned. With
      one slice `1/(n-1)` raises ZeroDivisionError before anything is written; with none
      the loop is empty. */
  method CreateMasks(mask: array3<int>) returns (r: Result<array3<int>>)
    modifies mask
    ensures r.Err? <==> mask.Length2 == 1
    ensures r.Err? ==> r.error == ZeroDivisionError
    ensures r.Ok? ==> r.value == mask
    ensures mask.Length2 < 2 ==> unchanged(mask)
    ensures mask.Length2 >= 2 ==> forall p, q, z :: 0 <= p < mask.Length0 && 0 <= q < mask.Length1 && 0 <= z < mask.Length2 ==> mask[p, q, z] == MaskValue(z, mask.Length2 - 1)
  {
    var n := mask.Length2;
    if n == 1 {
      return Err(ZeroDivisionError);
    }
    for z := 0 to n
      invariant forall p, q, z' :: 0 <= p < mask.Length0 && 0 <= q < mask.Length1 && 0 <= z' < z ==> mask[p, q, z'] == MaskValue(z', n - 1)
      invariant n < 2 ==> unchanged(mask)
    {
      FillSlice(mask, z, MaskValue(z, n - 1));
    }
    return Ok(mask);
  }

  /** Along the slice axis of a crossfade the first slice is 0, the last is 255, and the
      values rise within [0, 255]. */
  lemma CrossFadeSlices(n: nat, i: nat, j: nat)
    requires n >= 2 && i <= j < n
    ensures 0 <= MaskValue(i, n - 1) <= MaskValue(j, n - 1) <= 255
    ensures MaskValue(0, n - 1) == 0 && MaskValue(n - 1, n - 1) == 255
  {
    FadeFrames(n - 1, i, j);
  }
}
