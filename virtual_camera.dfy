/** pyfx.effects.virtual_camera: the camera's waypoint list, the normalisation of the
    waypoints before rendering, the clamp of the shaking trajectory, the split of the
    expansion between the two sides of each axis and the per-frame pan crop correction.
    Interpolation, optimisation, random forces and the image operations are inputs. */
module VirtualCamera {
  import opened Common

  /** A camera waypoint `(t, x, y, theta)`. */
  datatype Waypoint = Waypoint(t: real, x: real, y: real, theta: real)

  /** Python's ordering of 4-tuples: lexicographic. */
  predicate LexLe(a: Waypoint, b: Waypoint) {
    a.t < b.t || (a.t == b.t && (a.x < b.x || (a.x == b.x && (a.y < b.y || (a.y == b.y && a.theta <= b.theta)))))
  }

  predicate SortedLex(s: seq<Waypoint>) {
    forall i, j :: 0 <= i < j < |s| ==> LexLe(s[i], s[j])
  }

  function InsertLex(w: Waypoint, s: seq<Waypoint>): seq<Waypoint>
  {
    if s == [] then [w]
    else if LexLe(w, s[0]) then [w] + s
    else [s[0]] + InsertLex(w, s[1..])
  }

  lemma {:induction false} InsertLexElems(w: Waypoint, s: seq<Waypoint>)
    ensures forall v :: v in InsertLex(w, s) <==> v == w || v in s
    ensures multiset(InsertLex(w, s)) == multiset(s) + multiset{w}
  {
    if s != [] && !LexLe(w, s[0]) {
      assert s == [s[0]] + s[1..];
      InsertLexElems(w, s[1..]);
    }
  }

  lemma {:induction false} InsertLexSorted(w: Waypoint, s: seq<Waypoint>)
    requires SortedLex(s)
    ensures SortedLex(InsertLex(w, s))
  {
    if s != [] && !LexLe(w, s[0]) {
      InsertLexSorted(w, s[1..]);
      InsertLexElems(w, s[1..]);
      var t := InsertLex(w, s[1..]);
      forall k | 0 <= k < |t| ensures LexLe(s[0], t[k]) {
        assert t[k] in t;
        if t[k] != w {
          var j :| 0 <= j < |s[1..]| && s[1..][j] == t[k];
          assert s[j + 1] == t[k];
        }
      }
      assert InsertLex(w, s) == [s[0]] + t;
    }
  }

  /** `list.sort()` on the waypoint tuples. */
  function SortLex(s: seq<Waypoint>): (r: seq<Waypoint>)
    ensures SortedLex(r) && multiset(r) == multiset(s)
  {
    if s == [] then []
    else
      assert s == [s[0]] + s[1..];
      var t := SortLex(s[1..]);
      InsertLexSorted(s[0], t);
      InsertLexElems(s[0], t);
      InsertLex(s[0], t)
  }

  /** The order of the interpolation: linear up to three control points, cubic beyond. */
  datatype Kind = Linear | Cubic

  /** The waypoints `render_moves` interpolates, and how. */
  datatype MovePlan = MovePlan(waypoints: seq<Waypoint>, kind: Kind)

  class Camera {
    var waypoints: seq<Waypoint>

    constructor()
      ensures waypoints == []
    {
      waypoints := [];
    }

    /** `add_waypoint(t, x, y, theta)` appends. */
    method AddWaypoint(t: real, x: real, y: real, theta: real)
      modifies this
      ensures waypoints == old(waypoints) + [Waypoint(t, x, y, theta)]
    {
      waypoints := waypoints + [Waypoint(t, x, y, theta)];
    }

    /** `render_moves` as written, up to its first image load: the output directory is
        made, the two argument checks raise ValueError, and then
        `pyfx.util.convert.from_file` is looked up, which the conversion module does not
        define (its loader is `_from_file`), so every call that passes the checks raises
        AttributeError before anything is read or rendered. */
    method RenderMovesAsWritten(numImages: nat, shakingMagnitude: real, maxExpand: real) returns (r: Result<MovePlan>)
      ensures shakingMagnitude < 0.0 || maxExpand < 1.0 ==> r == Err(ValueError)
      ensures !(shakingMagnitude < 0.0 || maxExpand < 1.0) ==> r == Err(AttributeError)
    {
      if shakingMagnitude < 0.0 || maxExpand < 1.0 {
        return Err(ValueError);
      }
      return Err(AttributeError);
    }

    /** The first part of `render_moves(img_list, ...)` with numImages images, once the
        first image is loaded with `_from_file`: a negative
        shaking magnitude or a max_expand below 1 raises ValueError, a missing first image or
        a missing first waypoint raises IndexError. Otherwise the waypoints are copied and
        sorted, (0,0,0,0) is put first unless the first time is 0, and (t_end,0,0,0) last
        unless the last time is t_end = numImages - 1. */
    method PrepareMoves(numImages: nat, shakingMagnitude: real, maxExpand: real) returns (r: Result<MovePlan>)
      ensures r.Err? <==> shakingMagnitude < 0.0 || maxExpand < 1.0 || numImages == 0 || waypoints == []
      ensures r.Err? ==> r.error == (if shakingMagnitude < 0.0 || maxExpand < 1.0 then ValueError else IndexError)
      ensures r.Ok? ==> (r.value.waypoints == Framed(SortLex(waypoints), (numImages - 1) as real)
        && r.value.kind == (if |r.value.waypoints| <= 3 then Linear else Cubic))
    {
      if shakingMagnitude < 0.0 || maxExpand < 1.0 {
        return Err(ValueError);
      }
      if numImages == 0 || waypoints == [] {
        return Err(IndexError);
      }
      var ws := Framed(SortLex(waypoints), (numImages - 1) as real);
      var kind := if |ws| <= 3 then Linear else Cubic;
      return Ok(MovePlan(ws, kind));
    }
  }

  predicate TimesSorted(s: seq<Waypoint>) {
    forall i, j :: 0 <= i < j < |s| ==> s[i].t <= s[j].t
  }

  /** The sorted waypoints with (0,0,0,0) put first unless they start at time 0, and
      (t_end,0,0,0) put last unless they end at t_end. */
  function Framed(s: seq<Waypoint>, tEnd: real): seq<Waypoint>
    requires s != []
  {
    var front := if s[0].t != 0.0 then [Waypoint(0.0, 0.0, 0.0, 0.0)] else [];
    var back := if s[|s| - 1].t != tEnd then [Waypoint(tEnd, 0.0, 0.0, 0.0)] else [];
    front + s + back
  }

  /** Framing puts time 0 first and t_end last, keeps every waypoint and adds only the
      two end points. */
  lemma FramedEnds(s: seq<Waypoint>, tEnd: real)
    requires s != []
    ensures var p := Framed(s, tEnd);
      p[0].t == 0.0 && p[|p| - 1].t == tEnd
      && multiset(s) <= multiset(p) && |p| <= |s| + 2
      && forall w :: w in p && w !in s ==> w == Waypoint(0.0, 0.0, 0.0, 0.0) || w == Waypoint(tEnd, 0.0, 0.0, 0.0)
  {
    var front := if s[0].t != 0.0 then [Waypoint(0.0, 0.0, 0.0, 0.0)] else [];
    var back := if s[|s| - 1].t != tEnd then [Waypoint(tEnd, 0.0, 0.0, 0.0)] else [];
    assert Framed(s, tEnd) == front + s + back;
    assert multiset(front + s + back) == multiset(front) + multiset(s) + multiset(back);
  }

  /** The prepared waypoints start at time 0, end at t_end, and contain every waypoint
      given plus only the added end points. */
  lemma PreparedEnds(ws: seq<Waypoint>, tEnd: real)
    requires ws != []
    ensures var p := Framed(SortLex(ws), tEnd);
      p[0].t == 0.0 && p[|p| - 1].t == tEnd
      && multiset(ws) <= multiset(p) && |p| <= |ws| + 2
      && forall w :: w in p && w !in ws ==> w == Waypoint(0.0, 0.0, 0.0, 0.0) || w == Waypoint(tEnd, 0.0, 0.0, 0.0)
  {
    var s := SortLex(ws);
    assert |s| == |multiset(s)| == |ws|;
    FramedEnds(s, tEnd);
    forall w | w in s ensures w in ws {
      assert w in multiset(s);
    }
  }

  lemma SortedLexTimes(s: seq<Waypoint>)
    requires SortedLex(s)
    ensures TimesSorted(s)
  {
    forall i, j | 0 <= i < j < |s| ensures s[i].t <= s[j].t {
      assert LexLe(s[i], s[j]);
    }
  }

  /** Framing keeps time order when every time lies in [0, t_end]. */
  lemma FramedSorted(s: seq<Waypoint>, tEnd: real)
    requires s != [] && TimesSorted(s)
    requires forall k :: 0 <= k < |s| ==> 0.0 <= s[k].t <= tEnd
    ensures TimesSorted(Framed(s, tEnd))
  {
    var front := if s[0].t != 0.0 then [Waypoint(0.0, 0.0, 0.0, 0.0)] else [];
    var back := if s[|s| - 1].t != tEnd then [Waypoint(tEnd, 0.0, 0.0, 0.0)] else [];
    var p := front + s + back;
    assert Framed(s, tEnd) == p;
    forall i, j | 0 <= i < j < |p| ensures p[i].t <= p[j].t {
      if i < |front| {
        assert p[i].t == 0.0;
        if j < |front| + |s| {
          assert p[j] == s[j - |front|];
        }
      } else if j < |front| + |s| {
        assert p[i] == s[i - |front|] && p[j] == s[j - |front|];
      } else {
        assert p[j].t == tEnd && p[i] == s[i - |front|];
      }
    }
  }

  /** When every given time lies in [0, t_end], the prepared waypoints are in time order. */
  lemma PreparedSorted(ws: seq<Waypoint>, tEnd: real)
    requires ws != []
    requires forall i :: 0 <= i < |ws| ==> 0.0 <= ws[i].t <= tEnd
    ensures TimesSorted(Framed(SortLex(ws), tEnd))
  {
    var s := SortLex(ws);
    forall k | 0 <= k < |s| ensures 0.0 <= s[k].t <= tEnd {
      assert s[k] in multiset(ws);
    }
    SortedLexTimes(s);
    FramedSorted(s, tEnd);
  }

  /** How `render_moves` grows the frame: the fitted factor capped at max_expand, the
      pixels to add on each axis, and their split `[k//2, k//2 + k%2]`. */
  datatype Expansion = Expansion(factor: real, xExpand: (int, int), yExpand: (int, int))

  function SplitAdd(k: int): (r: (int, int))
    ensures r.0 + r.1 == k && (r.1 == r.0 || r.1 == r.0 + 1)
  {
    (k / 2, k / 2 + k % 2)
  }

  /** `int(round(n * (f - 1)))`. */
  function AddedPixels(n: int, f: real): int {
    Round(n as real * (f - 1.0))
  }

  function PlanExpansion(fitted: real, maxExpand: real, width: int, height: int): (e: Expansion)
    ensures e.factor == MinReal(fitted, maxExpand)
    ensures e.xExpand.0 + e.xExpand.1 == AddedPixels(width, e.factor)
    ensures e.yExpand.0 + e.yExpand.1 == AddedPixels(height, e.factor)
    ensures e.xExpand.1 - e.xExpand.0 in {0, 1} && e.yExpand.1 - e.yExpand.0 in {0, 1}
  {
    var f := if fitted > maxExpand then maxExpand else fitted;
    Expansion(f, SplitAdd(AddedPixels(width, f)), SplitAdd(AddedPixels(height, f)))
  }

  /** The crop of one frame along one axis: both sides shifted by the pan s and rounded,
      then the second side corrected so the crop keeps the pan crop's total. */
  function FrameCrop(pan: (int, int), s: real): (r: (int, int))
    ensures r.0 == Round(pan.0 as real + s)
    ensures r.0 + r.1 == pan.0 + pan.1
  {
    var a := Round(pan.0 as real + s);
    var b := Round(pan.1 as real + s);
    var diff := (pan.0 + pan.1) - (a + b);
    (a, b + diff)
  }

  /** The per-frame loop of `render_moves`: one (x, y) crop per image from the interpolated
      pans xs and ys; every frame is cropped by the same total on each axis. */
  method FrameCrops(panX: (int, int), panY: (int, int), xs: seq<real>, ys: seq<real>)
    returns (crops: seq<((int, int), (int, int))>)
    requires |xs| == |ys|
    ensures |crops| == |xs|
    ensures forall i :: 0 <= i < |crops| ==> crops[i] == (FrameCrop(panX, xs[i]), FrameCrop(panY, ys[i]))
    ensures forall i :: 0 <= i < |crops| ==> (crops[i].0.0 + crops[i].0.1 == panX.0 + panX.1
      && crops[i].1.0 + crops[i].1.1 == panY.0 + panY.1)
  {
    crops := [];
    for i := 0 to |xs|
      invariant |crops| == i
      invariant forall k :: 0 <= k < i ==> crops[k] == (FrameCrop(panX, xs[k]), FrameCrop(panY, ys[k]))
    {
      var x1 := Round(panX.0 as real + xs[i]);
      var x2 := Round(panX.1 as real + xs[i]);
      var dx := (panX.0 + panX.1) - (x1 + x2);
      x2 := x2 + dx;
      var y1 := Round(panY.0 as real + ys[i]);
      var y2 := Round(panY.1 as real + ys[i]);
      var dy := (panY.0 + panY.1) - (y1 + y2);
      y2 := y2 + dy;
      crops := crops + [((x1, x2), (y1, y2))];
    }
  }

  function Clamp(v: real, bound: int): (c: real)
    ensures -(bound as real) <= v <= bound as real ==> c == v
    ensures bound >= 0 ==> -(bound as real) <= c <= bound as real
  {
    if v < -(bound as real) then -(bound as real) else if v > bound as real then bound as real else v
  }

  /** `_build_shaking(shaking_magnitude, num_steps)`: the camera particle is moved by
      `advance` (the spring and random forces and the integrator, which are not modelled)
      from `start`, and after every step each coordinate is clamped to
      [-round(3m), round(3m)]; a negative magnitude raises ValueError. */
  method BuildShaking(magnitude: real, numSteps: nat, start: (real, real), advance: (nat, (real, real)) -> (real, real))
    returns (r: Result<(seq<real>, seq<real>)>)
    ensures r.Err? <==> magnitude < 0.0
    ensures r.Err? ==> r.error == ValueError
    ensures r.Ok? ==> (|r.value.0| == numSteps && |r.value.1| == numSteps
      && var bound := Round(3.0 * magnitude) as real;
      forall i :: 0 <= i < numSteps ==> -bound <= r.value.0[i] <= bound && -bound <= r.value.1[i] <= bound)
  {
    if magnitude < 0.0 {
      return Err(ValueError);
    }
    var maxShake := Round(3.0 * magnitude);
    RoundMonotone(0.0, 3.0 * magnitude);
    RoundOfInt(0);
    var coord := start;
    var xs, ys := [], [];
    for i := 0 to numSteps
      invariant |xs| == i && |ys| == i
      invariant forall k :: 0 <= k < i ==> -(maxShake as real) <= xs[k] <= maxShake as real && -(maxShake as real) <= ys[k] <= maxShake as real
    {
      coord := advance(i, coord);
      coord := (Clamp(coord.0, maxShake), Clamp(coord.1, maxShake));
      xs := xs + [coord.0];
      ys := ys + [coord.1];
    }
    return Ok((xs, ys));
  }
}
