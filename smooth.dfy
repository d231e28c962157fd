/** pyfx.util.process.smooth: a moving average over a signal padded at both ends by
    its mirror image. Samples are reals; numpy's floating point is not modelled. */
module Smooth {
  import opened Common

  function Sum(s: seq<real>): (r: real)
  {
    if s == [] then 0.0 else s[0] + Sum(s[1..])
  }

  lemma {:induction false} SumConstant(s: seq<real>, c: real)
    requires forall i :: 0 <= i < |s| ==> s[i] == c
    ensures Sum(s) == |s| as real * c
  {
    if s != [] {
      SumConstant(s[1..], c);
    }
  }

  /** The window actually used: `int(round(window_len))`, raised to the next odd length. */
  function OddWindow(windowLen: real): (w: nat)
    requires windowLen > 0.0
    ensures w % 2 == 1
    ensures Round(windowLen) % 2 == 1 ==> w == Round(windowLen)
    ensures Round(windowLen) % 2 == 0 ==> w == Round(windowLen) + 1
  {
    RoundMonotone(0.0, windowLen);
    RoundOfInt(0);
    var k := Round(windowLen);
    if k % 2 == 0 then k + 1 else k
  }

  /** `x[w-1:0:-1]`: the samples x[min(w-1, n-1)] down to x[1]. */
  function LeftPad(x: seq<real>, w: nat): (p: seq<real>)
    requires w >= 1
  {
    var start := Min(w - 1, |x| - 1);
    if start <= 0 then [] else seq(start, i requires 0 <= i < start => x[start - i])
  }

  /** `x[-2:-w-1:-1]`: the samples x[n-2] down to x[max(n-w, 0)]. */
  function RightPad(x: seq<real>, w: nat): (p: seq<real>)
    requires w >= 1
  {
    var n := |x|;
    var c := if n >= 2 then n - 1 - Max(n - w, 0) else 0;
    seq(c, i requires 0 <= i < c => x[n - 2 - i])
  }

  /** `np.r_[left, x, right]`. */
  function Signal(x: seq<real>, w: nat): seq<real>
    requires w >= 1
  {
    LeftPad(x, w) + x + RightPad(x, w)
  }

  /** `np.convolve(ones(w)/w, s, mode='valid')`: the mean of each full window when the
      signal is at least as long as the window, otherwise the signal's total over w at
      each of the w - |s| + 1 positions; an empty signal raises ValueError. */
  function ConvolveValid(w: nat, s: seq<real>): (r: Result<seq<real>>)
    requires w >= 1
    ensures r.Err? <==> s == []
    ensures r.Ok? && |s| >= w ==> |r.value| == |s| - w + 1
  {
    if s == [] then Err(ValueError)
    else if |s| >= w then Ok(seq(|s| - w + 1, i requires 0 <= i <= |s| - w => Sum(s[i..i + w]) / w as real))
    else Ok(seq(w - |s| + 1, i => Sum(s) / w as real))
  }

  /** `s[h:-h]` with Python's slicing: for h = 0 this is `s[0:0]`, which is empty. */
  function TrimAsWritten(s: seq<real>, h: nat): (r: seq<real>)
    ensures h > 0 && |s| > 2 * h ==> r == s[h..|s| - h]
    ensures h == 0 || |s| <= 2 * h ==> r == []
  {
    if h == 0 || |s| <= 2 * h then [] else s[h..|s| - h]
  }

  /** `smooth(x, window_len)` as written. */
  function SmoothAsWritten(x: seq<real>, windowLen: real): (r: Result<seq<real>>)
    ensures windowLen == 0.0 ==> r == Ok(x)
    ensures windowLen < 0.0 ==> r == Err(ValueError)
    ensures windowLen > 0.0 ==> (r.Err? <==> x == [])
  {
    if windowLen == 0.0 then Ok(x)
    else if windowLen < 0.0 then Err(ValueError)
    else
      var w := OddWindow(windowLen);
      assert x != [] ==> Signal(x, w) != [];
      match ConvolveValid(w, Signal(x, w))
      case Err(e) => Err(e)
      case Ok(sm) => Ok(TrimAsWritten(sm, (w - 1) / 2))
  }

  /** A window that rounds to 0 or 1 becomes w = 1, trim 0, and the slice `[0:-0]`
      returns nothing: the smoothed signal is empty instead of the input. */
  lemma WindowOneIsEmpty(x: seq<real>, windowLen: real)
    requires 0.0 < windowLen && Round(windowLen) <= 1
    requires x != []
    ensures SmoothAsWritten(x, windowLen) == Ok([])
  {
    RoundMonotone(0.0, windowLen);
    RoundOfInt(0);
  }

  /** `s[h:len(s)-h]`: trimming h samples from each end, with nothing trimmed for h = 0. */
  function Trim(s: seq<real>, h: nat): (r: seq<real>)
    ensures |s| >= 2 * h ==> r == s[h..|s| - h]
    ensures |s| < 2 * h ==> r == []
  {
    if |s| < 2 * h then [] else s[h..|s| - h]
  }

  /** `smooth` with the trim written as intended: a window that rounds to 1 returns the
      signal, and a window no longer than the signal keeps its length. */
  function Smooth(x: seq<real>, windowLen: real): (r: Result<seq<real>>)
    ensures windowLen == 0.0 ==> r == Ok(x)
    ensures windowLen < 0.0 ==> r == Err(ValueError)
    ensures windowLen > 0.0 ==> (r.Err? <==> x == [])
  {
    if windowLen == 0.0 then Ok(x)
    else if windowLen < 0.0 then Err(ValueError)
    else
      var w := OddWindow(windowLen);
      assert x != [] ==> Signal(x, w) != [];
      match ConvolveValid(w, Signal(x, w))
      case Err(e) => Err(e)
      case Ok(sm) => Ok(Trim(sm, (w - 1) / 2))
  }

  /** Index j reflected about both ends without repeating the edge sample. */
  function Mirror(n: nat, j: int): (k: nat)
    requires -(n as int) < j < 2 * n - 1
    ensures k < n
  {
    if j < 0 then -j else if j >= n then 2 * n - 2 - j else j
  }

  /** The 2h+1 samples centred on k, mirrored at the ends. */
  function MirroredWindow(x: seq<real>, k: nat, h: nat): (r: seq<real>)
    requires k < |x| && h < |x|
    ensures |r| == 2 * h + 1
  {
    seq(2 * h + 1, m requires 0 <= m <= 2 * h => x[Mirror(|x|, k - h + m)])
  }

  lemma LeftPadAt(x: seq<real>, w: nat, i: nat)
    requires 1 <= w <= |x| && i < w - 1
    ensures |LeftPad(x, w)| == w - 1 && LeftPad(x, w)[i] == x[w - 1 - i]
  {
  }

  lemma RightPadAt(x: seq<real>, w: nat, i: nat)
    requires 1 <= w <= |x| && i < w - 1
    ensures |RightPad(x, w)| == w - 1 && RightPad(x, w)[i] == x[|x| - 2 - i]
  {
  }

  lemma PadLengths(x: seq<real>, w: nat)
    requires 1 <= w <= |x|
    ensures |LeftPad(x, w)| == w - 1 && |RightPad(x, w)| == w - 1
  {
  }

  /** Sample i of the padded signal is the mirrored sample i - (w - 1). */
  lemma SignalAt(x: seq<real>, w: nat, i: nat)
    requires 1 <= w <= |x| && i < |x| + 2 * (w - 1)
    ensures |Signal(x, w)| == |x| + 2 * (w - 1)
    ensures Signal(x, w)[i] == x[Mirror(|x|, i - (w - 1))]
  {
    var n := |x|;
    PadLengths(x, w);
    var s := Signal(x, w);
    if i < w - 1 {
      LeftPadAt(x, w, i);
      assert s[i] == LeftPad(x, w)[i];
    } else if i < w - 1 + n {
      assert s[i] == x[i - (w - 1)];
    } else {
      RightPadAt(x, w, i - (w - 1) - n);
      assert s[i] == RightPad(x, w)[i - (w - 1) - n];
    }
  }

  /** The padded signal read at k + h + m is the mirrored sample k - h + m. */
  lemma SignalIsMirrored(x: seq<real>, h: nat, k: nat)
    requires |x| >= 2 * h + 1 && k < |x|
    ensures k + h + 2 * h + 1 <= |Signal(x, 2 * h + 1)|
      && Signal(x, 2 * h + 1)[k + h..k + h + 2 * h + 1] == MirroredWindow(x, k, h)
  {
    var w := 2 * h + 1;
    PadLengths(x, w);
    var s := Signal(x, w);
    var mw := MirroredWindow(x, k, h);
    forall m | 0 <= m < w ensures s[k + h + m] == mw[m] {
      SignalAt(x, w, k + h + m);
    }
  }

  /** The moving average at k + h is the mean of the mirrored window around k. */
  lemma ConvolveAt(x: seq<real>, h: nat, k: nat)
    requires |x| >= 2 * h + 1 && k < |x|
    ensures var s := Signal(x, 2 * h + 1);
      ConvolveValid(2 * h + 1, s).Ok? && |ConvolveValid(2 * h + 1, s).value| == |x| + 2 * h
      && ConvolveValid(2 * h + 1, s).value[k + h] == Sum(MirroredWindow(x, k, h)) / (2 * h + 1) as real
  {
    SignalIsMirrored(x, h, k);
    PadLengths(x, 2 * h + 1);
  }

  /** For an odd window w >= 3 and a signal at least that long, the output has the input's
      length and sample k is the mean of the mirrored window around k. */
  lemma SmoothIsMirroredMean(x: seq<real>, windowLen: real, k: nat)
    requires windowLen > 0.0
    requires OddWindow(windowLen) >= 3 && |x| >= OddWindow(windowLen)
    requires k < |x|
    ensures var w := OddWindow(windowLen);
      Smooth(x, windowLen).Ok? && |Smooth(x, windowLen).value| == |x|
      && Smooth(x, windowLen).value[k] == Sum(MirroredWindow(x, k, (w - 1) / 2)) / w as real
  {
    var w := OddWindow(windowLen);
    var h := (w - 1) / 2;
    assert w == 2 * h + 1;
    ConvolveAt(x, h, k);
    SmoothIsTrimmed(x, windowLen);
    TrimmedAt(ConvolveValid(w, Signal(x, w)).value, h, k);
  }

  lemma TrimmedAt(s: seq<real>, h: nat, k: nat)
    requires k + 2 * h < |s|
    ensures |Trim(s, h)| == |s| - 2 * h && Trim(s, h)[k] == s[k + h]
  {
  }

  /** Smoothing trims (w - 1) / 2 samples from each end of the moving average. */
  lemma SmoothIsTrimmed(x: seq<real>, windowLen: real)
    requires windowLen > 0.0 && x != []
    ensures var w := OddWindow(windowLen);
      ConvolveValid(w, Signal(x, w)).Ok?
      && Smooth(x, windowLen) == Ok(Trim(ConvolveValid(w, Signal(x, w)).value, (w - 1) / 2))
      && SmoothAsWritten(x, windowLen) == Ok(TrimAsWritten(ConvolveValid(w, Signal(x, w)).value, (w - 1) / 2))
  {
    var w := OddWindow(windowLen);
    assert |Signal(x, w)| >= |x|;
  }

  /** With something to trim, the two trims agree. */
  lemma TrimAgrees(s: seq<real>, h: nat)
    requires h > 0
    ensures TrimAsWritten(s, h) == Trim(s, h)
  {
    if |s| == 2 * h {
      assert s[h..|s| - h] == [];
    }
  }

  /** Where the window is at least 3, the code as written and the intended trim agree. */
  lemma SmoothAsWrittenAgrees(x: seq<real>, windowLen: real)
    requires windowLen > 0.0 && OddWindow(windowLen) >= 3
    ensures SmoothAsWritten(x, windowLen) == Smooth(x, windowLen)
  {
    if x != [] {
      var w := OddWindow(windowLen);
      SmoothIsTrimmed(x, windowLen);
      TrimAgrees(ConvolveValid(w, Signal(x, w)).value, (w - 1) / 2);
    }
  }

  /** A constant signal comes back unchanged. */
  lemma SmoothConstant(x: seq<real>, windowLen: real, c: real)
    requires windowLen > 0.0
    requires OddWindow(windowLen) >= 3 && |x| >= OddWindow(windowLen)
    requires forall i :: 0 <= i < |x| ==> x[i] == c
    ensures Smooth(x, windowLen) == Ok(x)
  {
    var w := OddWindow(windowLen);
    SmoothIsMirroredMean(x, windowLen, 0);
    var r := Smooth(x, windowLen).value;
    assert w == 2 * ((w - 1) / 2) + 1;
    forall k | 0 <= k < |x| ensures r[k] == x[k] {
      SmoothIsMirroredMean(x, windowLen, k);
      MirroredMeanConstant(x, k, (w - 1) / 2, c);
    }
    assert r == x;
  }

  lemma MirroredMeanConstant(x: seq<real>, k: nat, h: nat, c: real)
    requires k < |x| && h < |x|
    requires forall i :: 0 <= i < |x| ==> x[i] == c
    ensures Sum(MirroredWindow(x, k, h)) / (2 * h + 1) as real == c
  {
    var mw := MirroredWindow(x, k, h);
    forall m | 0 <= m < |mw| ensures mw[m] == c {
      assert mw[m] == x[Mirror(|x|, k - h + m)];
    }
    SumConstant(mw, c);
  }

  /** With the trim as intended, a window of 1 returns the signal itself. */
  lemma SmoothWindowOneIsIdentity(x: seq<real>, windowLen: real)
    requires 0.0 < windowLen && Round(windowLen) <= 1
    requires x != []
    ensures Smooth(x, windowLen) == Ok(x)
  {
    RoundMonotone(0.0, windowLen);
    RoundOfInt(0);
    var s := Signal(x, 1);
    assert s == x;
    var sm := ConvolveValid(1, s).value;
    forall i | 0 <= i < |x| ensures sm[i] == x[i] {
      assert s[i..i + 1] == [x[i]];
      assert [x[i]][1..] == [];
      assert Sum([x[i]]) == x[i];
    }
    assert sm == x;
    assert OddWindow(windowLen) == 1;
  }
}
