/** pyfx.core.multiclip: a registry of video clips stacked in layers. Clips keep the
    index they were registered with; `layerToClip` lists those indexes from the bottom
    layer to the top, and `clipToLayer` is its inverse. */
module Multiclip {
  import opened Common
  import opened Raster
  import opened Convert

  // ---------------------------------------------------------------------------
  // Layer orders: permutations of 0..n-1 and their inverses
  // ---------------------------------------------------------------------------

  function Iota(n: nat): (s: seq<int>)
    ensures |s| == n && forall i :: 0 <= i < n ==> s[i] == i
  {
    seq(n, i => i)
  }

  /** s lists every index 0..|s|-1 exactly once. */
  predicate IsLayerOrder(s: seq<int>) {
    multiset(s) == multiset(Iota(|s|))
  }

  /** `inv` undoes `order` in both directions. */
  predicate InverseOf(inv: seq<int>, order: seq<int>) {
    |inv| == |order|
    && (forall l :: 0 <= l < |order| ==> 0 <= order[l] < |inv| && inv[order[l]] == l)
    && (forall c :: 0 <= c < |inv| ==> 0 <= inv[c] < |order| && order[inv[c]] == c)
  }

  lemma {:induction false} IotaCount(n: nat, x: int)
    ensures multiset(Iota(n))[x] == if 0 <= x < n then 1 else 0
  {
    if n > 0 {
      assert Iota(n) == Iota(n - 1) + [n - 1];
      IotaCount(n - 1, x);
    }
  }

  lemma IotaExtend(n: nat)
    ensures multiset(Iota(n + 1)) == multiset(Iota(n)) + multiset{n}
  {
    assert Iota(n + 1) == Iota(n) + [n];
  }

  /** A layer order holds each index in range, holds each index once, and holds every index. */
  lemma LayerOrderFacts(s: seq<int>)
    requires IsLayerOrder(s)
    ensures forall l :: 0 <= l < |s| ==> 0 <= s[l] < |s|
    ensures forall l, m :: 0 <= l < m < |s| ==> s[l] != s[m]
    ensures forall c :: 0 <= c < |s| ==> c in s
  {
    forall l | 0 <= l < |s| ensures 0 <= s[l] < |s| {
      assert s[l] in multiset(s);
      IotaCount(|s|, s[l]);
    }
    forall l, m | 0 <= l < m < |s| ensures s[l] != s[m] {
      if s[l] == s[m] {
        assert s == s[..l] + [s[l]] + s[l + 1..m] + [s[m]] + s[m + 1..];
        assert multiset(s)[s[l]] >= 2;
        IotaCount(|s|, s[l]);
      }
    }
    forall c | 0 <= c < |s| ensures c in s {
      IotaCount(|s|, c);
      assert c in multiset(s);
    }
  }

  /** A sequence has at most one inverse, so the rebuilt `_clip_to_layer` is determined
      by `_layer_to_clip`. */
  lemma InverseUnique(a: seq<int>, b: seq<int>, order: seq<int>)
    requires InverseOf(a, order) && InverseOf(b, order)
    ensures a == b
  {
    forall c | 0 <= c < |a| ensures a[c] == b[c] {
      assert order[a[c]] == c == order[b[c]];
      assert a[order[a[c]]] == a[c];
    }
  }

  /** Two pops at k then two inserts at k: `c1 = pop(k); c2 = pop(k); insert(k, c1);
      insert(k, c2)`. */
  function PopTwiceInsertTwice(s: seq<int>, k: nat): (r: seq<int>)
    requires k + 1 < |s|
  {
    var c1 := s[k];
    var s1 := RemoveAt(s, k);
    var c2 := s1[k];
    var s2 := RemoveAt(s1, k);
    PyInsert(PyInsert(s2, k, c1), k, c2)
  }

  /** The pops and inserts exchange positions k and k + 1 and leave the rest alone. */
  lemma PopTwiceInsertTwiceSwaps(s: seq<int>, k: nat)
    requires k + 1 < |s|
    ensures PopTwiceInsertTwice(s, k) == s[k := s[k + 1]][k + 1 := s[k]]
  {
    var r := PopTwiceInsertTwice(s, k);
    var s1 := RemoveAt(s, k);
    var s2 := RemoveAt(s1, k);
    assert |s2| == |s| - 2;
    var s3 := PyInsert(s2, k, s[k]);
    assert InsertPos(|s2|, k) == k;
    assert InsertPos(|s3|, k) == k;
    var t := s[k := s[k + 1]][k + 1 := s[k]];
    forall j | 0 <= j < |s| ensures r[j] == t[j] {
      if j < k {
        assert r[j] == s3[j] == s2[j] == s1[j] == s[j];
      } else if j == k {
        assert r[j] == s1[k] == s[k + 1];
      } else if j == k + 1 {
        assert r[j] == s3[k] == s[k];
      } else {
        assert r[j] == s3[j - 1] == s2[j - 2] == s1[j - 1] == s[j];
      }
    }
  }

  /** Moving the element at k to the end keeps a layer order. */
  function MoveToTop(s: seq<int>, k: nat): (r: seq<int>)
    requires k < |s|
    ensures multiset(r) == multiset(s) && |r| == |s|
    ensures r[|r| - 1] == s[k] && r[..|r| - 1] == RemoveAt(s, k)
  {
    RemoveAtMultiset(s, k);
    RemoveAt(s, k) + [s[k]]
  }

  /** Moving the element at k to the front keeps a layer order. */
  function MoveToBottom(s: seq<int>, k: nat): (r: seq<int>)
    requires k < |s|
    ensures multiset(r) == multiset(s) && |r| == |s|
    ensures r[0] == s[k] && r[1..] == RemoveAt(s, k)
  {
    RemoveAtMultiset(s, k);
    InsertMultiset(RemoveAt(s, k), 0, s[k]);
    PyInsert(RemoveAt(s, k), 0, s[k])
  }

  /** `pop(k)` then `insert(layer, x)` with the popped x. */
  function MoveTo(s: seq<int>, k: nat, layer: int): (r: seq<int>)
    requires k < |s|
    ensures multiset(r) == multiset(s) && |r| == |s|
    ensures r[InsertPos(|s| - 1, layer)] == s[k]
  {
    RemoveAtMultiset(s, k);
    InsertMultiset(RemoveAt(s, k), layer, s[k]);
    PyInsert(RemoveAt(s, k), layer, s[k])
  }

  lemma SwapMultiset(s: seq<int>, k: nat)
    requires k + 1 < |s|
    ensures multiset(s[k := s[k + 1]][k + 1 := s[k]]) == multiset(s)
  {
    var t := s[k := s[k + 1]][k + 1 := s[k]];
    assert s == s[..k] + [s[k], s[k + 1]] + s[k + 2..];
    assert t == s[..k] + [s[k + 1], s[k]] + s[k + 2..];
  }

  // ---------------------------------------------------------------------------
  // Clips and frames
  // ---------------------------------------------------------------------------

  /** What the compositor reads from a clip: its name, its frame shape, its length,
      and whether it is exactly a `pyfx.VideoClip` (the `type(...) is` test). */
  datatype VideoClip = VideoClip(name: string, shape: seq<int>, maxTime: int, isVideoClip: bool)

  type Frame = seq<seq<Pixel>>

  /** Clip i is visible at time t when start_i <= t < start_i + max_time_i. */
  predicate Active(clips: seq<VideoClip>, starts: seq<int>, i: nat, t: int)
    requires i < |clips| && i < |starts|
  {
    starts[i] <= t < starts[i] + clips[i].maxTime
  }

  /** The layers of the visible clips among the first k, in registration order
      (the `included` list before sorting). */
  function IncludedLayers(clips: seq<VideoClip>, starts: seq<int>, toLayer: seq<int>, t: int, k: nat): (r: seq<int>)
    requires k <= |clips| && |starts| == |clips| && |toLayer| == |clips|
    ensures forall x :: x in r <==> exists i :: 0 <= i < k && Active(clips, starts, i, t) && toLayer[i] == x
  {
    if k == 0 then []
    else IncludedLayers(clips, starts, toLayer, t, k - 1)
         + (if Active(clips, starts, k - 1, t) then [toLayer[k - 1]] else [])
  }

  /** The alpha scaling of one clip's frame: an opacity of 1 leaves it alone, 0 zeroes
      the alpha channel, anything else rounds alpha·opacity and stores it as uint8. */
  function ScaleAlpha(f: Frame, alpha: real): (g: Frame)
    ensures |g| == |f| && forall i :: 0 <= i < |f| ==> |g[i]| == |f[i]|
    ensures alpha == 1.0 ==> g == f
    ensures alpha != 1.0 ==> forall i :: 0 <= i < |f| ==> g[i] == ScaleRowAlpha(f[i], alpha)
  {
    if alpha == 1.0 then f
    else seq(|f|, i requires 0 <= i < |f| => ScaleRowAlpha(f[i], alpha))
  }

  /** The alpha scaling of one row, for an opacity other than 1: pixel by pixel. */
  function ScaleRowAlpha(row: seq<Pixel>, alpha: real): (r: seq<Pixel>)
    ensures |r| == |row|
    ensures forall j :: 0 <= j < |row| ==> r[j] == ScalePixelAlpha(row[j], alpha)
  {
    seq(|row|, j requires 0 <= j < |row| => ScalePixelAlpha(row[j], alpha))
  }

  /** The alpha scaling of one pixel, for an opacity other than 1. */
  function ScalePixelAlpha(p: Pixel, alpha: real): (q: Pixel)
    ensures q.r == p.r && q.g == p.g && q.b == p.b
    ensures q.a == (if alpha == 0.0 then 0 else ToUint8(Round(p.a as real * alpha) as real))
  {
    p.(a := if alpha == 0.0 then 0 else ToUint8(Round(p.a as real * alpha) as real))
  }

  /** Pixel by pixel, the scaling keeps the colour channels and sets alpha as
      `get_frame` does: unchanged for opacity 1, 0 for opacity 0, otherwise
      round(alpha·opacity) stored as uint8. */
  lemma ScaleAlphaPixel(f: Frame, alpha: real, i: nat, j: nat)
    requires i < |f| && j < |f[i]|
    ensures var g := ScaleAlpha(f, alpha);
      j < |g[i]| && g[i][j].r == f[i][j].r && g[i][j].g == f[i][j].g && g[i][j].b == f[i][j].b
      && g[i][j].a == (if alpha == 1.0 then f[i][j].a
                       else if alpha == 0.0 then 0
                       else ToUint8(Round(f[i][j].a as real * alpha) as real))
      && (alpha != 1.0 ==> IsByte(g[i][j].a))
  {
    if alpha != 1.0 {
      var row := ScaleAlpha(f, alpha)[i];
      assert row == ScaleRowAlpha(f[i], alpha);
      assert row[j] == ScalePixelAlpha(f[i][j], alpha);
    }
  }

  /** Composite the frames of `layers` in the listed order, each new frame going over the
      composite so far (the fold in `get_frame`); a compositing error stops the fold.
      `frames[l]` is the frame layer l contributes. */
  function ComposeLayers(layers: seq<int>, frames: seq<Frame>, over: (Pixel, Pixel) -> Pixel): (r: Result<Frame>)
    requires |layers| > 0
    requires forall k :: 0 <= k < |layers| ==> 0 <= layers[k] < |frames|
    requires forall l :: 0 <= l < |frames| ==> Rect(frames[l])
    ensures r.Ok? ==> Rect(r.value)
  {
    ComposePrefix(layers, |layers|, frames, over)
  }

  /** The fold over the first k listed layers. */
  function ComposePrefix(layers: seq<int>, k: nat, frames: seq<Frame>, over: (Pixel, Pixel) -> Pixel): (r: Result<Frame>)
    requires 1 <= k <= |layers|
    requires forall j :: 0 <= j < |layers| ==> 0 <= layers[j] < |frames|
    requires forall l :: 0 <= l < |frames| ==> Rect(frames[l])
    ensures r.Ok? ==> Rect(r.value)
  {
    if k == 1 then Ok(frames[layers[0]])
    else
      match ComposePrefix(layers, k - 1, frames, over)
      case Err(e) => Err(e)
      case Ok(c) => CompositeFrames(c, frames[layers[k - 1]], over)
  }

  /** Every name maps to the clip carrying it, and every clip's name is mapped to it. */
  predicate NamesIndexed(clips: seq<VideoClip>, names: map<string, int>) {
    (forall name :: name in names ==> 0 <= names[name] < |clips| && clips[names[name]].name == name)
    && (forall i :: 0 <= i < |clips| ==> clips[i].name in names && names[clips[i].name] == i)
  }

  /** The shape is unset exactly while there are no clips, and every clip has it. */
  predicate ShapesAgree(clips: seq<VideoClip>, shape: Option<seq<int>>) {
    (shape.None? <==> |clips| == 0)
    && (forall i :: 0 <= i < |clips| ==> shape.Some? && clips[i].shape == shape.value)
  }

  lemma AddName(clips: seq<VideoClip>, names: map<string, int>, clip: VideoClip)
    requires NamesIndexed(clips, names) && clip.name !in names
    ensures NamesIndexed(clips + [clip], names[clip.name := |clips|])
  {
    var cs := clips + [clip];
    var ns := names[clip.name := |clips|];
    forall i | 0 <= i < |cs| ensures cs[i].name in ns && ns[cs[i].name] == i {
      if i < |clips| {
        assert cs[i] == clips[i];
      }
    }
  }

  lemma AddShape(clips: seq<VideoClip>, shape: Option<seq<int>>, clip: VideoClip)
    requires ShapesAgree(clips, shape) && (shape.Some? ==> shape.value == clip.shape)
    ensures ShapesAgree(clips + [clip], Some(if shape.Some? then shape.value else clip.shape))
  {
  }

  /** Appending the new clip on top extends both layer lists consistently. */
  lemma AppendLayer(toLayer: seq<int>, toClip: seq<int>)
    requires IsLayerOrder(toClip) && InverseOf(toLayer, toClip)
    ensures IsLayerOrder(toClip + [|toClip|])
    ensures InverseOf(toLayer + [|toClip|], toClip + [|toClip|])
  {
    IotaExtend(|toClip|);
  }

  /** The layer list after `add_clip` registers clip |order|: on top when no layer is
      given, otherwise inserted at that layer as `list.insert` does. */
  function AddedOrder(order: seq<int>, layer: Option<PyValue>): (r: seq<int>)
    requires layer.Some? ==> layer.value.PyInt?
    ensures |r| == |order| + 1
    ensures layer.None? ==> r[|order|] == |order| && r[..|order|] == order
    ensures layer.Some? ==> r[InsertPos(|order|, layer.value.i)] == |order|
  {
    if layer.None? then order + [|order|] else PyInsert(order, layer.value.i, |order|)
  }

  lemma AddedOrderIsLayerOrder(order: seq<int>, layer: Option<PyValue>)
    requires IsLayerOrder(order) && (layer.Some? ==> layer.value.PyInt?)
    ensures IsLayerOrder(AddedOrder(order, layer))
  {
    IotaExtend(|order|);
    if layer.Some? {
      InsertMultiset(order, layer.value.i, |order|);
    }
  }

  // ---------------------------------------------------------------------------
  // The MultiClip object
  // ---------------------------------------------------------------------------

  class MultiClip {
    var clips: seq<VideoClip>
    var clipToLayer: seq<int>
    var clipStart: seq<int>
    var clipAlpha: seq<real>
    var nameToClip: map<string, int>
    var layerToClip: seq<int>
    var shape: Option<seq<int>>

    /** The invariant every operation keeps: parallel lists of one length, the two
        layer lists mutually inverse permutations, names mapped to their own clips,
        and every clip of the registered shape. */
    ghost predicate Valid()
      reads this
    {
      Registered() && Layered() && |layerToClip| == |clips|
    }

    /** The registration lists: parallel, names indexed, shapes agreeing. */
    ghost predicate Registered()
      reads this`clips, this`clipStart, this`clipAlpha, this`nameToClip, this`shape
    {
      |clipStart| == |clips| && |clipAlpha| == |clips|
      && NamesIndexed(clips, nameToClip)
      && ShapesAgree(clips, shape)
    }

    /** The two layer lists: mutually inverse permutations. */
    ghost predicate Layered()
      reads this`layerToClip, this`clipToLayer
    {
      IsLayerOrder(layerToClip) && InverseOf(clipToLayer, layerToClip)
    }

    constructor()
      ensures Valid()
      ensures clips == [] && clipToLayer == [] && clipStart == [] && clipAlpha == []
      ensures nameToClip == map[] && layerToClip == [] && shape == None
    {
      clips := [];
      clipToLayer := [];
      clipStart := [];
      clipAlpha := [];
      nameToClip := map[];
      layerToClip := [];
      shape := None;
    }

    /** `_parse_clip_id`: a str is a clip name (ValueError if unknown); anything else
        goes through `int()` (a TypeError becomes ValueError) and names a layer, counted
        from the top when negative (IndexError when out of range). */
    function ParseClipId(id: PyValue): (r: Result<nat>)
      reads this
      requires Valid()
      ensures r.Ok? ==> r.value < |clips|
      ensures id.PyStr? ==> (r.Ok? <==> id.s in nameToClip) && (r.Ok? ==> clips[r.value].name == id.s)
      ensures id.PyStr? && r.Err? ==> r.error == ValueError
      ensures !id.PyStr? && PyIntOf(id).Err? ==> r == Err(ValueError)
      ensures !id.PyStr? && PyIntOf(id).Ok? ==>
        if IndexInRange(|layerToClip|, PyIntOf(id).value)
        then r.Ok? && clipToLayer[r.value] == NormIndex(|layerToClip|, PyIntOf(id).value)
        else r == Err(IndexError)
    {
      if id.PyStr? then
        if id.s in nameToClip then Ok(nameToClip[id.s]) else Err(ValueError)
      else
        match PyIntOf(id)
        case Err(_) => Err(ValueError)
        case Ok(layer) =>
          if IndexInRange(|layerToClip|, layer) then
            LayerOrderFacts(layerToClip);
            Ok(layerToClip[NormIndex(|layerToClip|, layer)])
          else Err(IndexError)
    }

    /** `_update_clip_to_layer`: rebuild `clipToLayer` from `layerToClip`. */
    method UpdateClipToLayer()
      requires IsLayerOrder(layerToClip)
      modifies this`clipToLayer
      ensures InverseOf(clipToLayer, layerToClip)
    {
      LayerOrderFacts(layerToClip);
      var n := |layerToClip|;
      var inv := seq(n, _ => -1);
      for layer := 0 to n
        invariant |inv| == n
        invariant forall l :: 0 <= l < layer ==> inv[layerToClip[l]] == l
        invariant forall c :: 0 <= c < n ==>
          (inv[c] == -1 && c !in layerToClip[..layer]) || (0 <= inv[c] < layer && layerToClip[inv[c]] == c)
      {
        var clip := layerToClip[layer];
        inv := inv[clip := layer];
      }
      forall c | 0 <= c < n ensures 0 <= inv[c] < n && layerToClip[inv[c]] == c {
        assert layerToClip[..n] == layerToClip;
      }
      clipToLayer := inv;
    }

    /** Append the clip and its start and opacity to the registration lists, record its
        name, and take its shape when it is the first clip. */
    method RegisterClip(clip: VideoClip, start: int, alpha: real)
      requires NamesIndexed(clips, nameToClip) && clip.name !in nameToClip
      requires ShapesAgree(clips, shape) && (shape.Some? ==> shape.value == clip.shape)
      modifies this`clips, this`clipStart, this`clipAlpha, this`nameToClip, this`shape
      ensures clips == old(clips) + [clip] && clipStart == old(clipStart) + [start]
      ensures clipAlpha == old(clipAlpha) + [alpha]
      ensures nameToClip == old(nameToClip)[clip.name := |old(clips)|]
      ensures shape == Some(if old(shape).Some? then old(shape).value else clip.shape)
      ensures NamesIndexed(clips, nameToClip) && ShapesAgree(clips, shape)
      ensures old(Registered()) ==> Registered()
    {
      var n := |clips|;
      AddName(clips, nameToClip, clip);
      AddShape(clips, shape, clip);
      clips, clipStart, clipAlpha := clips + [clip], clipStart + [start], clipAlpha + [alpha];
      if shape.None? {
        shape := Some(clip.shape);
      }
      nameToClip := nameToClip[clip.name := n];
    }

    /** Insert clip n at `layer` of the layer list and rebuild the inverse. */
    method InsertLayer(layer: int, n: int)
      requires IsLayerOrder(layerToClip) && n == |layerToClip|
      modifies this`layerToClip, this`clipToLayer
      ensures layerToClip == PyInsert(old(layerToClip), layer, n)
      ensures IsLayerOrder(layerToClip) && InverseOf(clipToLayer, layerToClip)
    {
      IotaExtend(n);
      InsertMultiset(layerToClip, layer, n);
      layerToClip := PyInsert(layerToClip, layer, n);
      UpdateClipToLayer();
    }

    /** Reorder the layers to a rearrangement of the current layer list and rebuild the
        inverse, as the reordering operations end. */
    method Relayer(order: seq<int>)
      requires Valid() && multiset(order) == multiset(layerToClip) && |order| == |layerToClip|
      modifies this`layerToClip, this`clipToLayer
      ensures Valid() && layerToClip == order
    {
      layerToClip := order;
      UpdateClipToLayer();
    }

    /** Put the newly registered clip |layerToClip| into the layer lists: on top when no
        layer is given, otherwise at that layer. */
    method AddLayer(layer: Option<PyValue>)
      requires Layered() && (layer.Some? ==> layer.value.PyInt?)
      modifies this`layerToClip, this`clipToLayer
      ensures Layered() && layerToClip == AddedOrder(old(layerToClip), layer)
    {
      var n := |layerToClip|;
      if layer.None? {
        AppendLayer(clipToLayer, layerToClip);
        layerToClip, clipToLayer := layerToClip + [n], clipToLayer + [n];
      } else {
        InsertLayer(layer.value.i, n);
      }
    }

    /** `add_clip(videoclip, layer, start, alpha)`. */
    method AddClip(clip: VideoClip, layer: Option<PyValue>, start: int, alpha: real) returns (r: Outcome)
      requires Valid()
      modifies this
      ensures Valid()
      ensures r.Fail? <==>
        !clip.isVideoClip
        || (old(shape).Some? && old(shape).value != clip.shape)
        || clip.name in old(nameToClip)
        || (layer.Some? && !layer.value.PyInt?)
      ensures r.Fail? ==> r.error == ValueError && unchanged(this)
      ensures r.Pass? ==> (
        clips == old(clips) + [clip] && clipStart == old(clipStart) + [start] && clipAlpha == old(clipAlpha) + [alpha]
        && nameToClip == old(nameToClip)[clip.name := |old(clips)|]
        && shape == Some(if old(shape).Some? then old(shape).value else clip.shape)
        && layerToClip == AddedOrder(old(layerToClip), layer))
    {
      if !clip.isVideoClip {
        return Fail(ValueError);
      }
      if shape.Some? && shape.value != clip.shape {
        return Fail(ValueError);
      }
      if clip.name in nameToClip {
        return Fail(ValueError);
      }
      if layer.Some? && !layer.value.PyInt? {
        return Fail(ValueError);
      }
      RegisterClip(clip, start, alpha);
      AddLayer(layer);
      return Pass;
    }

    /** `raise_clip(clip_id, to_top)`, with the swap taken at the clip's layer (the
        Python code swaps at its registration index; see RaiseSwapAsWritten). A clip on
        the top layer stays; `to_top` moves it to the top keeping the others' order;
        otherwise it trades places with the clip above. */
    method RaiseClip(id: PyValue, toTop: bool) returns (r: Outcome)
      requires Valid()
      modifies this`layerToClip, this`clipToLayer
      ensures Valid()
      ensures r.Fail? <==> old(ParseClipId(id)).Err?
      ensures r.Fail? ==> r.error == old(ParseClipId(id)).error && layerToClip == old(layerToClip)
      ensures r.Pass? ==>
        var index := old(ParseClipId(id)).value;
        var cur := old(clipToLayer)[index];
        layerToClip == (if cur == |clips| - 1 then old(layerToClip)
                        else if toTop then MoveToTop(old(layerToClip), cur)
                        else PopTwiceInsertTwice(old(layerToClip), cur))
    {
      var parsed := ParseClipId(id);
      if parsed.Err? {
        return Fail(parsed.error);
      }
      var index := parsed.value;
      var cur := clipToLayer[index];
      if cur == |layerToClip| - 1 {
        return Pass;
      }
      if toTop {
        Relayer(MoveToTop(layerToClip, cur));
      } else {
        PopTwiceInsertTwiceSwaps(layerToClip, cur);
        SwapMultiset(layerToClip, cur);
        Relayer(PopTwiceInsertTwice(layerToClip, cur));
      }
      return Pass;
    }

    /** `lower_clip(clip_id, to_bottom)`: a clip on the bottom layer stays; `to_bottom`
        moves it to layer 0 keeping the others' order; otherwise it trades places with
        the clip below. */
    method LowerClip(id: PyValue, toBottom: bool) returns (r: Outcome)
      requires Valid()
      modifies this`layerToClip, this`clipToLayer
      ensures Valid()
      ensures r.Fail? <==> old(ParseClipId(id)).Err?
      ensures r.Fail? ==> r.error == old(ParseClipId(id)).error && layerToClip == old(layerToClip)
      ensures r.Pass? ==>
        var index := old(ParseClipId(id)).value;
        var cur := old(clipToLayer)[index];
        layerToClip == (if cur == 0 then old(layerToClip)
                        else if toBottom then MoveToBottom(old(layerToClip), cur)
                        else PopTwiceInsertTwice(old(layerToClip), cur - 1))
    {
      var parsed := ParseClipId(id);
      if parsed.Err? {
        return Fail(parsed.error);
      }
      var index := parsed.value;
      var cur := clipToLayer[index];
      if cur == 0 {
        return Pass;
      }
      if toBottom {
        Relayer(MoveToBottom(layerToClip, cur));
      } else {
        PopTwiceInsertTwiceSwaps(layerToClip, cur - 1);
        SwapMultiset(layerToClip, cur - 1);
        Relayer(PopTwiceInsertTwice(layerToClip, cur - 1));
      }
      return Pass;
    }

    /** `set_clip_layer(clip_id, layer)`, with an out-of-range layer reported as
        ValueError (the Python code names the misspelled `IndexErrror` there; see
        SetClipLayerErrorAsWritten). `int(layer)` failing with ValueError gives
        ValueError, a TypeError propagates. There is no "already there" shortcut: the
        clip is popped from its layer and the popped index inserted at `layer`. */
    method SetClipLayer(id: PyValue, layer: PyValue) returns (r: Outcome)
      requires Valid()
      modifies this`layerToClip, this`clipToLayer
      ensures Valid()
      ensures old(ParseClipId(id)).Err? ==> r == Fail(old(ParseClipId(id)).error)
      ensures old(ParseClipId(id)).Ok? ==> r == SetClipLayerCheck(layer, |clips|)
      ensures r.Fail? ==> layerToClip == old(layerToClip)
      ensures r.Pass? ==>
        var index := old(ParseClipId(id)).value;
        layerToClip == MoveTo(old(layerToClip), old(clipToLayer)[index], PyIntOf(layer).value)
    {
      var parsed := ParseClipId(id);
      if parsed.Err? {
        return Fail(parsed.error);
      }
      var index := parsed.value;
      var check := SetClipLayerCheck(layer, |clips|);
      if check.Fail? {
        return check;
      }
      var l := PyIntOf(layer).value;
      Relayer(MoveTo(layerToClip, clipToLayer[index], l));
      return Pass;
    }

    /** `shift_clip_start(clip_id, shift_by)`: only the addressed clip's start moves, by
        int(shift_by). */
    method ShiftClipStart(id: PyValue, shiftBy: PyValue) returns (r: Outcome)
      requires Valid()
      modifies this`clipStart
      ensures Valid()
      ensures old(ParseClipId(id)).Err? ==> r == Fail(old(ParseClipId(id)).error) && clipStart == old(clipStart)
      ensures old(ParseClipId(id)).Ok? && PyIntOf(shiftBy).Err? ==> r == Fail(PyIntOf(shiftBy).error) && clipStart == old(clipStart)
      ensures old(ParseClipId(id)).Ok? && PyIntOf(shiftBy).Ok? ==>
        var index := old(ParseClipId(id)).value;
        r == Pass && clipStart == old(clipStart)[index := old(clipStart)[index] + PyIntOf(shiftBy).value]
    {
      var parsed := ParseClipId(id);
      if parsed.Err? {
        return Fail(parsed.error);
      }
      var index := parsed.value;
      var shift := PyIntOf(shiftBy);
      if shift.Err? {
        return Fail(shift.error);
      }
      clipStart := clipStart[index := shift.value + clipStart[index]];
      return Pass;
    }

    /** `set_clip_start(clip_id, start_position)`: only the addressed clip's start changes,
        to int(start_position); a string that is not an integer raises ValueError. */
    method SetClipStart(id: PyValue, position: PyValue) returns (r: Outcome)
      requires Valid()
      modifies this`clipStart
      ensures Valid()
      ensures old(ParseClipId(id)).Err? ==> r == Fail(old(ParseClipId(id)).error) && clipStart == old(clipStart)
      ensures old(ParseClipId(id)).Ok? && PyIntOf(position).Err? ==> r == Fail(PyIntOf(position).error) && clipStart == old(clipStart)
      ensures old(ParseClipId(id)).Ok? && PyIntOf(position).Ok? ==>
        r == Pass && clipStart == old(clipStart)[old(ParseClipId(id)).value := PyIntOf(position).value]
    {
      var parsed := ParseClipId(id);
      if parsed.Err? {
        return Fail(parsed.error);
      }
      var pos := PyIntOf(position);
      if pos.Err? {
        return Fail(pos.error);
      }
      clipStart := clipStart[parsed.value := pos.value];
      return Pass;
    }

    /** `get_clip_start(clip_id)`. */
    function GetClipStart(id: PyValue): (r: Result<int>)
      reads this
      requires Valid()
      ensures r.Err? <==> ParseClipId(id).Err?
      ensures r.Ok? ==> r.value == clipStart[ParseClipId(id).value]
    {
      match ParseClipId(id)
      case Err(e) => Err(e)
      case Ok(index) => Ok(clipStart[index])
    }

    /** `set_clip_alpha(clip_id, alpha_value)`: only 0 < alpha < 1 is accepted (ValueError
        otherwise, 1.0 included), and only the addressed clip changes. */
    method SetClipAlpha(id: PyValue, alpha: real) returns (r: Outcome)
      requires Valid()
      modifies this`clipAlpha
      ensures Valid()
      ensures old(ParseClipId(id)).Err? ==> r == Fail(old(ParseClipId(id)).error) && clipAlpha == old(clipAlpha)
      ensures old(ParseClipId(id)).Ok? && (alpha <= 0.0 || alpha >= 1.0) ==> r == Fail(ValueError) && clipAlpha == old(clipAlpha)
      ensures old(ParseClipId(id)).Ok? && 0.0 < alpha < 1.0 ==>
        r == Pass && clipAlpha == old(clipAlpha)[old(ParseClipId(id)).value := alpha]
    {
      var parsed := ParseClipId(id);
      if parsed.Err? {
        return Fail(parsed.error);
      }
      if alpha <= 0.0 || alpha >= 1.0 {
        return Fail(ValueError);
      }
      clipAlpha := clipAlpha[parsed.value := alpha];
      return Pass;
    }

    /** `get_clip_alpha(clip_id)`. */
    function GetClipAlpha(id: PyValue): (r: Result<real>)
      reads this
      requires Valid()
      ensures r.Err? <==> ParseClipId(id).Err?
      ensures r.Ok? ==> r.value == clipAlpha[ParseClipId(id).value]
    {
      match ParseClipId(id)
      case Err(e) => Err(e)
      case Ok(index) => Ok(clipAlpha[index])
    }

    /** The `clips` property: the clips from the bottom layer to the top, so each clip
        sits at its own layer and every registered clip appears. */
    function Clips(): (r: seq<VideoClip>)
      reads this
      requires Valid()
      ensures |r| == |clips|
      ensures forall i :: 0 <= i < |clips| ==> r[clipToLayer[i]] == clips[i]
    {
      var order, values := layerToClip, clips;
      LayerOrderFacts(order);
      seq(|order|, l requires 0 <= l < |order| => values[order[l]])
    }

    /** The `starts` property, bottom layer first. */
    function Starts(): (r: seq<int>)
      reads this
      requires Valid()
      ensures |r| == |clips|
      ensures forall i :: 0 <= i < |clips| ==> r[clipToLayer[i]] == clipStart[i]
    {
      var order, values := layerToClip, clipStart;
      LayerOrderFacts(order);
      seq(|order|, l requires 0 <= l < |order| => values[order[l]])
    }

    /** The `alphas` property, bottom layer first. */
    function Alphas(): (r: seq<real>)
      reads this
      requires Valid()
      ensures |r| == |clips|
      ensures forall i :: 0 <= i < |clips| ==> r[clipToLayer[i]] == clipAlpha[i]
    {
      var order, values := layerToClip, clipAlpha;
      LayerOrderFacts(order);
      seq(|order|, l requires 0 <= l < |order| => values[order[l]])
    }

    /** The `shape` property: unset until the first clip is added, then that clip's shape,
        which every clip shares. */
    function Shape(): (r: Option<seq<int>>)
      reads this
      requires Valid()
      ensures r.None? <==> |clips| == 0
      ensures r.Some? ==> forall i :: 0 <= i < |clips| ==> clips[i].shape == r.value
    {
      shape
    }

    /** The frame each layer contributes, bottom layer first. */
    function LayerFrames(frameAt: (int, int) -> Frame, t: int): (fs: seq<Frame>)
      reads this
      requires Valid()
      requires forall i, u :: Rect(frameAt(i, u))
      ensures |fs| == |clips|
      ensures forall l :: 0 <= l < |fs| ==> (Rect(fs[l])
        && fs[l] == ClipFrame(frameAt, layerToClip[l], t, clipStart[layerToClip[l]], clipAlpha[layerToClip[l]]))
    {
      var order, starts, alphas := layerToClip, clipStart, clipAlpha;
      LayerOrderFacts(order);
      seq(|order|, l requires 0 <= l < |order| =>
        ClipFrame(frameAt, order[l], t, starts[order[l]], alphas[order[l]]))
    }

    /** `get_frame(t)`: collect the layers of the clips visible at t, sort them from the
        top layer down, and fold the clips' frames with `alpha_composite` in that order.
        With no clip visible the code refers to the undefined name `size` (NameError). */
    method GetFrame(t: int, frameAt: (int, int) -> Frame, over: (Pixel, Pixel) -> Pixel) returns (r: Result<Frame>)
      requires Valid()
      requires forall i, u :: Rect(frameAt(i, u))
      ensures var layers := SortDescending(IncludedLayers(clips, clipStart, clipToLayer, t, |clips|));
        (forall k :: 0 <= k < |layers| ==> 0 <= layers[k] < |clips|)
        && if |layers| == 0 then r == Err(NameError)
           else r == ComposeLayers(layers, LayerFrames(frameAt, t), over)
    {
      var included := CollectIncluded(t);
      included := SortDescending(included);
      IncludedInRange(clips, clipStart, clipToLayer, layerToClip, t, included);
      if |included| == 0 {
        return Err(NameError);
      }
      var frames := LayerFrames(frameAt, t);
      r := FoldFrames(included, frames, over);
    }

    /** The first loop of `get_frame`: the layers of the clips visible at t, in
        registration order. */
    method CollectIncluded(t: int) returns (included: seq<int>)
      requires Valid()
      ensures included == IncludedLayers(clips, clipStart, clipToLayer, t, |clips|)
    {
      included := [];
      for i := 0 to |clips|
        invariant included == IncludedLayers(clips, clipStart, clipToLayer, t, i)
      {
        var start := clipStart[i];
        var length := clips[i].maxTime;
        if t >= start && t < start + length {
          included := included + [clipToLayer[i]];
        }
      }
    }
  }

  /** The second loop of `get_frame`: start from the first listed layer's frame and
      composite each following one over the result. */
  method FoldFrames(layers: seq<int>, frames: seq<Frame>, over: (Pixel, Pixel) -> Pixel) returns (r: Result<Frame>)
    requires |layers| > 0
    requires forall k :: 0 <= k < |layers| ==> 0 <= layers[k] < |frames|
    requires forall l :: 0 <= l < |frames| ==> Rect(frames[l])
    ensures r == ComposeLayers(layers, frames, over)
  {
    var combined := frames[layers[0]];
    var i := 1;
    while i < |layers|
      invariant 1 <= i <= |layers|
      invariant ComposePrefix(layers, i, frames, over) == Ok(combined)
    {
      var next := FoldStep(layers, i, frames, over, combined);
      if next.Err? {
        return next;
      }
      combined := next.value;
      i := i + 1;
    }
    return Ok(combined);
  }

  /** One pass of the fold: composite layer i's frame over the fold so far. */
  method FoldStep(layers: seq<int>, i: nat, frames: seq<Frame>, over: (Pixel, Pixel) -> Pixel, combined: Frame)
    returns (r: Result<Frame>)
    requires 1 <= i < |layers|
    requires forall k :: 0 <= k < |layers| ==> 0 <= layers[k] < |frames|
    requires forall l :: 0 <= l < |frames| ==> Rect(frames[l])
    requires ComposePrefix(layers, i, frames, over) == Ok(combined)
    ensures r == ComposePrefix(layers, i + 1, frames, over)
    ensures r.Err? ==> r == ComposeLayers(layers, frames, over)
  {
    r := CompositeFrames(combined, frames[layers[i]], over);
    if r.Err? {
      ComposeErrorPersists(layers, i + 1, frames, over);
    }
  }

  /** The frame clip `index` contributes at time t: its own frame t - start (the
      Python code asks for t + start; see FrameTimeAsWritten), then its opacity. */
  function ClipFrame(frameAt: (int, int) -> Frame, index: int, t: int, start: int, alpha: real): (f: Frame)
    requires forall i, u :: Rect(frameAt(i, u))
    ensures Rect(f)
    ensures f == ScaleAlpha(frameAt(index, FrameTime(t, start)), alpha)
  {
    var raw := frameAt(index, FrameTime(t, start));
    assert Rect(raw);
    ScaleAlpha(raw, alpha)
  }

  /** Every collected layer is a layer of the stack, and so is every entry of any
      reordering of them. */
  lemma IncludedInRange(clips: seq<VideoClip>, starts: seq<int>, toLayer: seq<int>, toClip: seq<int>, t: int, sorted: seq<int>)
    requires |starts| == |clips| && |toClip| == |clips| && InverseOf(toLayer, toClip)
    requires multiset(sorted) == multiset(IncludedLayers(clips, starts, toLayer, t, |clips|))
    ensures forall k :: 0 <= k < |sorted| ==> 0 <= sorted[k] < |clips|
  {
    var inc := IncludedLayers(clips, starts, toLayer, t, |clips|);
    forall k | 0 <= k < |sorted| ensures 0 <= sorted[k] < |clips| {
      assert sorted[k] in multiset(sorted);
      assert sorted[k] in inc;
      var i :| 0 <= i < |clips| && Active(clips, starts, i, t) && toLayer[i] == sorted[k];
    }
  }

  /** The frame time a visible clip is asked for. */
  function FrameTime(t: int, start: int): (u: int)
    ensures t == start + u
  {
    t - start
  }

  /** The time `get_frame` actually passes to the clip: t + start. */
  function FrameTimeAsWritten(t: int, start: int): int
  {
    t + start
  }

  /** With the intended t - start, a visible clip is asked for one of its own frames
      0 .. max_time - 1. */
  lemma FrameTimeInClip(clips: seq<VideoClip>, starts: seq<int>, i: nat, t: int)
    requires i < |clips| && i < |starts| && Active(clips, starts, i, t)
    ensures 0 <= FrameTime(t, starts[i]) < clips[i].maxTime
  {
  }

  /** As written, a clip starting at 10 with 5 frames is visible at t = 12 but is asked
      for frame 22, past its end. */
  lemma FrameTimeAsWrittenOverruns()
    ensures var clips := [VideoClip("c", [1, 1, 4], 5, true)];
      Active(clips, [10], 0, 12) && FrameTimeAsWritten(12, 10) >= clips[0].maxTime
  {
  }

  /** Once the fold fails, composing more layers fails with the same error. */
  lemma {:induction false} ComposeErrorPersists(layers: seq<int>, k: nat, frames: seq<Frame>, over: (Pixel, Pixel) -> Pixel)
    requires 1 <= k <= |layers|
    requires forall j :: 0 <= j < |layers| ==> 0 <= layers[j] < |frames|
    requires forall l :: 0 <= l < |frames| ==> Rect(frames[l])
    requires ComposePrefix(layers, k, frames, over).Err?
    ensures ComposeLayers(layers, frames, over) == ComposePrefix(layers, k, frames, over)
    decreases |layers| - k
  {
    if k < |layers| {
      ComposeErrorPersists(layers, k + 1, frames, over);
    }
  }

  /** The layers `get_frame` composites are exactly the layers of the clips visible at
      t, each once, from the top layer down. */
  lemma {:induction false} IncludedLayersMeaning(clips: seq<VideoClip>, starts: seq<int>, toLayer: seq<int>, toClip: seq<int>, t: int)
    requires |starts| == |clips| && |toClip| == |clips| && InverseOf(toLayer, toClip)
    ensures var layers := SortDescending(IncludedLayers(clips, starts, toLayer, t, |clips|));
      (forall l :: l in layers <==> 0 <= l < |toClip| && Active(clips, starts, toClip[l], t))
      && forall a, b :: 0 <= a < b < |layers| ==> layers[a] > layers[b]
  {
    var inc := IncludedLayers(clips, starts, toLayer, t, |clips|);
    var layers := SortDescending(inc);
    forall l ensures l in layers <==> 0 <= l < |toClip| && Active(clips, starts, toClip[l], t) {
      assert l in layers <==> l in multiset(inc);
      assert l in multiset(inc) <==> l in inc;
      if 0 <= l < |toClip| && Active(clips, starts, toClip[l], t) {
        assert toLayer[toClip[l]] == l;
      }
      if l in inc {
        var i :| 0 <= i < |clips| && Active(clips, starts, i, t) && toLayer[i] == l;
        assert toClip[l] == i;
      }
    }
    IncludedDistinct(clips, starts, toLayer, toClip, t, |clips|);
    DistinctAfterSort(inc, layers);
    SortedDescDistinct(layers);
  }

  lemma {:induction false} IncludedDistinct(clips: seq<VideoClip>, starts: seq<int>, toLayer: seq<int>, toClip: seq<int>, t: int, k: nat)
    requires |starts| == |clips| && |toClip| == |clips| && InverseOf(toLayer, toClip) && k <= |clips|
    ensures forall x :: multiset(IncludedLayers(clips, starts, toLayer, t, k))[x] <= 1
  {
    if k > 0 {
      IncludedDistinct(clips, starts, toLayer, toClip, t, k - 1);
      var prev := IncludedLayers(clips, starts, toLayer, t, k - 1);
      var inc := IncludedLayers(clips, starts, toLayer, t, k);
      if Active(clips, starts, k - 1, t) {
        var y := toLayer[k - 1];
        assert inc == prev + [y];
        assert multiset(inc) == multiset(prev) + multiset{y};
        forall i | 0 <= i < k - 1 ensures toLayer[i] != y {
          assert toClip[toLayer[i]] == i;
        }
        assert y !in prev;
        forall x ensures multiset(inc)[x] <= 1 {
          assert multiset(prev)[x] <= 1;
        }
      } else {
        assert inc == prev + [];
        assert inc == prev;
      }
    }
  }

  /** `set_clip_layer`'s checks on `layer` after the clip id is parsed, with an
      out-of-range layer reported as ValueError. */
  function SetClipLayerCheck(layer: PyValue, n: nat): (r: Outcome)
    ensures r.Pass? <==> PyIntOf(layer).Ok? && IndexInRange(n, PyIntOf(layer).value)
    ensures PyIntOf(layer).Ok? && !IndexInRange(n, PyIntOf(layer).value) ==> r == Fail(ValueError)
    ensures PyIntOf(layer).Err? ==> r == Fail(PyIntOf(layer).error)
  {
    match PyIntOf(layer)
    case Err(e) => Fail(e)
    case Ok(l) => if IndexInRange(n, l) then Pass else Fail(ValueError)
  }

  /** The same checks as written: an exception the first `except ValueError` does not
      match makes Python evaluate the misspelled `IndexErrror`, which raises NameError. */
  function SetClipLayerErrorAsWritten(layer: PyValue, n: nat): (r: Outcome)
  {
    match PyIntOf(layer)
    case Err(e) => if e == ValueError then Fail(ValueError) else Fail(NameError)
    case Ok(l) => if IndexInRange(n, l) then Pass else Fail(NameError)
  }

  /** As written, a layer outside the stack raises NameError rather than ValueError. */
  lemma SetClipLayerOutOfRangeIsNameError(l: int, n: nat)
    requires !IndexInRange(n, l)
    ensures SetClipLayerErrorAsWritten(PyInt(l), n) == Fail(NameError)
    ensures SetClipLayerCheck(PyInt(l), n) == Fail(ValueError)
  {
  }

  /** The adjacent raise as written: pop twice and insert twice at the clip's
      registration index, not at its layer. When that index is the last position the
      second pop raises IndexError after the first has already removed an entry, and
      the layer list is left one short. */
  function RaiseSwapAsWritten(order: seq<int>, index: nat): (r: (seq<int>, Outcome))
    requires index < |order|
  {
    if index + 1 < |order| then (PopTwiceInsertTwice(order, index), Pass)
    else (RemoveAt(order, index), Fail(IndexError))
  }

  /** Counterexamples for the as-written raise. With clip 1 on the bottom and clip 0
      above it ([1, 0, 2]), raising clip 0 swaps positions 0 and 1 and so lowers clip 0;
      with order [0, 2, 1], raising clip 2 (registered last, not on top) raises
      IndexError and leaves only [0, 2]. */
  lemma RaiseSwapAsWrittenCounterexamples()
    ensures RaiseSwapAsWritten([1, 0, 2], 0).0 == [0, 1, 2]
    ensures PopTwiceInsertTwice([1, 0, 2], 1) == [1, 2, 0]
    ensures RaiseSwapAsWritten([0, 2, 1], 2) == ([0, 2], Fail(IndexError))
  {
    PopTwiceInsertTwiceSwaps([1, 0, 2], 0);
    PopTwiceInsertTwiceSwaps([1, 0, 2], 1);
    assert [1, 0, 2][0 := 0][1 := 1] == [0, 1, 2];
    assert [1, 0, 2][1 := 2][2 := 0] == [1, 2, 0];
    var r := RemoveAt([0, 2, 1], 2);
    assert |r| == 2 && r[0] == 0 && r[1] == 2;
    assert r == [0, 2];
  }

  /** The raise the model performs moves the clip up exactly one layer and the clip that
      was above it down one, whatever its registration index. */
  lemma RaiseMovesClipUp(order: seq<int>, cur: nat)
    requires IsLayerOrder(order) && cur + 1 < |order|
    ensures var r := PopTwiceInsertTwice(order, cur);
      r[cur + 1] == order[cur] && r[cur] == order[cur + 1]
      && forall l :: 0 <= l < |order| && l != cur && l != cur + 1 ==> r[l] == order[l]
  {
    PopTwiceInsertTwiceSwaps(order, cur);
  }

  /** `to_top` / `to_bottom` keep the relative order of the other clips. */
  lemma MoveKeepsOthersOrder(order: seq<int>, cur: nat)
    requires cur < |order|
    ensures MoveToTop(order, cur)[..|order| - 1] == RemoveAt(order, cur)
    ensures MoveToBottom(order, cur)[1..] == RemoveAt(order, cur)
  {
  }

  /** `set_clip_layer` with a negative layer: the layer is checked against the whole
      stack, but the insert happens after the pop, so -1 lands one below the top. */
  lemma SetLayerMinusOneIsBelowTop(order: seq<int>, cur: nat)
    requires cur < |order| && |order| >= 2
    ensures InsertPos(|order| - 1, -1) == |order| - 2
    ensures MoveTo(order, cur, -1)[|order| - 2] == order[cur]
  {
  }

  // ---------------------------------------------------------------------------
  // The layer orders the tests expect
  // ---------------------------------------------------------------------------

  // The compositor's layer tests on three clips, replayed on the layer list (bottom
  // first, entries are registration indexes): after the three adds the list is
  // [0, 1, 2]; each step names the clip the call addresses and the layer it occupies.

  lemma {:induction false} RaiseTests()
    // raise_clip(1): the clip on layer 1 trades places with the one above
    ensures PopTwiceInsertTwice([0, 1, 2], 1) == [0, 2, 1]
    // raise_clip("clip1", to_top=True): clip 0, on layer 0, goes to the top
    ensures MoveToTop([0, 2, 1], 0) == [2, 1, 0]
  {
    PopTwiceInsertTwiceSwaps([0, 1, 2], 1);
    assert [0, 1, 2][1 := 2][2 := 1] == [0, 2, 1];
    assert RemoveAt([0, 2, 1], 0) == [2, 1];
  }

  lemma {:induction false} LowerTests()
    // lower_clip("clip2"): clip 1, on layer 1, trades places with the one below
    ensures PopTwiceInsertTwice([2, 1, 0], 0) == [1, 2, 0]
    // lower_clip(2, to_bottom=True): the clip on layer 2 goes to the bottom
    ensures MoveToBottom([1, 2, 0], 2) == [0, 1, 2]
  {
    PopTwiceInsertTwiceSwaps([2, 1, 0], 0);
    assert [2, 1, 0][0 := 1][1 := 2] == [1, 2, 0];
    assert RemoveAt([1, 2, 0], 2) == [1, 2];
    assert PyInsert([1, 2], 0, 0) == [0, 1, 2];
  }

  lemma {:induction false} SetLayerTests()
    // set_clip_layer(2, 0): the clip on layer 2 moves to layer 0
    ensures MoveTo([0, 1, 2], 2, 0) == [2, 0, 1]
  {
    var r := RemoveAt([0, 1, 2], 2);
    assert r == [0, 1];
    assert PyInsert(r, 0, 2) == [2] + r;
  }

  lemma {:induction false} SetLayerByNameTests()
    // set_clip_layer("clip2", 1): clip 1, on layer 2, moves to layer 1
    ensures MoveTo([2, 0, 1], 2, 1) == [2, 1, 0]
  {
    var r := RemoveAt([2, 0, 1], 2);
    assert r == [2, 0];
    assert PyInsert(r, 1, 1) == r[..1] + [1] + r[1..];
  }
}
