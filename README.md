# pyfx / photonzombie bookkeeping core in Dafny

pyfx is a frame-by-frame video-effects toolkit; photonzombie is its predecessor. Nearly
all pixel work is done by PIL, scikit-image, scipy and dlib. This project models the
layer of bookkeeping and integer arithmetic around those calls, and proves what that
code promises:

- **Layer compositor** (`Multiclip`, pyfx/core/multiclip.py). A registry of clips with
  parallel start and alpha lists, a name index, and the two index lists
  `_layer_to_clip` / `_clip_to_layer`, which every operation keeps inverse permutations
  of each other. Also `get_frame`: the clips active at a time, composited from the top
  layer down with an abstract "over".
- **Keyframe store** (`EffectBase`, pyfx/effects/base.py). Integer times map to full
  parameter snapshots. A new waypoint is seeded from the latest earlier one and then
  overwritten with the supplied keys. The dictionary is modelled as its insertion-order
  key list plus a map. `__init__` never creates `_waypoints`, so the model starts from
  `{0: defaults}`.
- **Timelines and masks.**
  - `Smooth`: mirrored moving average.
  - `Masks`: fade and cross-fade mask stacks.
  - `Photostream`: the frame-to-image timeline and render intervals.
  - `VirtualCamera`: waypoint normalisation, expansion and per-frame crop split.
- **Integer geometry.**
  - `Crop`: crop validation, mirrored expansion, and the pan/zoom/rotate crop split.
  - `Raster`, `Sprites`, `VisualSprites`, `ZombieParticle`, `ZombieParticles`, `ZombieGlowing`:
    the five `write_to_image` copies, which clip a sprite against the frame and add it
    with saturating alpha or composite it.
  - `ParticlesUtil`, `ZombieWorld`, `ParticlesWorld`: block-sum coarse-graining and
    flat-index decoding.
- **Raster domain rules.** `Convert` holds the 1/3/4-channel promotion to RGBA, the
  [0,255] and [0,1] range checks, the int/float conversions, the `to_array` guard and
  the checks of `alpha_composite`. `LegacyUtil` covers pyfx/util.py, which the package
  pyfx/util/ shadows.
- **Pools and small state machines.**
  - `ColorShifter`: the bouncing hue.
  - `FaceFinder`: face-stack tracking and staleness in `find_face_stacks`.
  - `ParticlePool`, `ParticleCollection`, `GlowingEffect`, `GlowingPool`: the three
    particle pools' count, purge and equalise rules.

Random draws, physics steps, library rasterisation and PIL's "over" operator are
function-valued or plain parameters of the members that use them. Python `round` is
round-half-to-even (`Common.Round`). Python list `insert`/`pop`, negative indexes and
`int(...)` are modelled in `Common`.

Where the code does not do what it evidently means to, the model keeps one member for
the code as written and one for the evident intent (see "## Findings"). The rest of the
model uses the intended member. In particular, `pyfx.util.to_array` rejects every
dtype. Its callers `PhotoStream._parse_df` and `find_face_stacks` are each modelled
twice: as written they fail on their first input
(`Photostream.PhotoStream.ParseDfAsWritten`, `FaceFinder.FindFaceStacksAsWritten`).
The other models `ParseDf` and `FindFaceStacks` assume a conversion that works, as
`Convert.ToArrayGuard` states it.

## Model

| member | source | states |
|---|---|---|
| Common.Round | pyfx/physics/particle_collection.py:213 | Python's round: the nearest integer, within one half of x |
| Common.RoundOfInt | pyfx/physics/particle_collection.py:152 | a whole number rounds to itself |
| Common.RoundMonotone | pyfx/physics/particle_collection.py:152 | rounding never reverses an order |
| Common.Trunc | photonzombie/world.py:67 | `int(x)` on a float truncates toward zero: the result is the integer within one below a non-negative x, or within one above a negative x, never further from 0 than x |
| Common.PyIntOf | pyfx/core/multiclip.py:54 | `int(v)`: an int passes unchanged, a float gives the integer within one of it toward zero, a string succeeds exactly when it is an integer literal (otherwise ValueError), any other object is TypeError |
| Common.Decimal | pyfx/core/multiclip.py:54 | a number written in decimal is a string of digits |
| Common.DecimalValue | pyfx/core/multiclip.py:54 | the digits of n read back as n |
| Common.PyIntReadsBack | pyfx/core/multiclip.py:54 | `int(str(i)) == i` for every int i, negative ones included |
| Common.InsertPos | pyfx/core/multiclip.py:192 | where `list.insert(i, x)` puts x: always within [0, n]; i itself for 0 <= i <= n; the end for i > n; i + n for -n <= i < 0; the front below -n |
| Common.PyInsert | pyfx/core/multiclip.py:192 | `list.insert` adds x at that position and keeps the rest in order around it |
| Common.InsertMultiset | pyfx/core/multiclip.py:192 | inserting adds exactly that element |
| Common.NormIndex | pyfx/core/multiclip.py:260-275 | a valid index denotes a position inside the list: itself when non-negative, i + n when negative |
| Common.RemoveAt | pyfx/core/multiclip.py:274 | `list.pop(k)` leaves every other element, in order |
| Common.RemoveAtMultiset | pyfx/core/multiclip.py:274 | popping removes exactly the popped element |
| Common.Filter | pyfx/effects/glowing_particles.py:169-171 | what a filter keeps is in the input and passes the test, and it keeps no more than the input |
| Common.FilterMembership | pyfx/effects/glowing_particles.py:169-171 | an element is kept exactly when it is in the input and passes |
| Common.FilterComplement | pyfx/physics/particle_collection.py:132-145 | two complementary filters together keep every element exactly once |
| Common.PopStep | pyfx/effects/glowing_particles.py:169-171 | popping a failing element at i-1 in the reverse pass extends the filtered suffix by nothing |
| Common.KeepStep | pyfx/effects/glowing_particles.py:169-171 | leaving a passing element at i-1 extends the filtered suffix by that element |
| Common.SortDescending | pyfx/core/multiclip.py:94 | `sort(reverse=True)` gives the same values, largest first |
| Common.SortAscending | pyfx/effects/base.py:45 | `sort()` gives the same values, smallest first |
| Common.ParetoClamped | photonzombie/particles/util.py:31-33 | the pareto draw plus the minimum, capped at the maximum |
| Common.Ceil | photonzombie/particles/util.py:6 | `np.ceil`: the least integer not below x |
| Multiclip.LayerOrderFacts | pyfx/core/multiclip.py:25-29 | a layer order (the `_layer_to_clip` list) holds every registration index in range, each exactly once, and holds all of them |
| Multiclip.InverseUnique | pyfx/core/multiclip.py:68-76 | the clip-to-layer list is fixed by the layer-to-clip list: two inverses of one layer order are equal |
| Multiclip.PopTwiceInsertTwiceSwaps | pyfx/core/multiclip.py:213-219 | the pop-pop-insert-insert sequence at position k exchanges the entries at k and k+1 and keeps every other entry |
| Multiclip.MoveToTop | pyfx/core/multiclip.py:208-211 | moving a clip to the top keeps the same clips, puts the moved one last and keeps all others in their order |
| Multiclip.MoveToBottom | pyfx/core/multiclip.py:237-240 | moving a clip to the bottom keeps the same clips, puts the moved one first and keeps all others in their order |
| Multiclip.MoveTo | pyfx/core/multiclip.py:273-275 | pop at the clip's layer and insert at `layer` keeps the same clips and puts the moved clip where Python's `insert` places it |
| Multiclip.IncludedLayers | pyfx/core/multiclip.py:83-91 | a layer is collected exactly when some clip sitting on it is visible at t, i.e. start <= t < start + max_time |
| Multiclip.ScaleAlpha | pyfx/core/multiclip.py:114-122 | the frame keeps its shape; opacity 1 leaves it unchanged, and any other opacity scales every row pixel by pixel |
| Multiclip.ScalePixelAlpha | pyfx/core/multiclip.py:117-122 | for an opacity other than 1 the colour channels are kept and alpha becomes 0 for opacity 0, otherwise round(alpha·opacity) stored as uint8 |
| Multiclip.ScaleAlphaPixel | pyfx/core/multiclip.py:114-122 | at every pixel the scaled frame keeps the colour channels and holds the alpha `get_frame` writes: unchanged for opacity 1, 0 for opacity 0, otherwise round(alpha·opacity) as a byte |
| Multiclip.ComposeLayers | pyfx/core/multiclip.py:104-127 | a successful composite of rectangular frames is rectangular |
| Multiclip.ComposePrefix | pyfx/core/multiclip.py:104-127 | the fold over the first k listed layers of rectangular frames, when it succeeds, is rectangular |
| Multiclip.AddName | pyfx/core/multiclip.py:181-183 | registering a new name extends the name index so that every name still maps to the clip carrying it |
| Multiclip.AddShape | pyfx/core/multiclip.py:146-179 | the shape stays unset only while there are no clips, then every clip has the recorded shape |
| Multiclip.AppendLayer | pyfx/core/multiclip.py:186-188 | appending the new clip on top keeps the layer list a permutation and the two lists inverse to each other |
| Multiclip.AddedOrder | pyfx/core/multiclip.py:185-193 | the layer list grows by one: with no layer the new clip is on top and the old list is kept, with a layer it sits where Python's `insert` puts it |
| Multiclip.AddedOrderIsLayerOrder | pyfx/core/multiclip.py:185-193 | adding a clip at any integer layer leaves a valid layer order |
| Multiclip.MultiClip.constructor | pyfx/core/multiclip.py:17-31 | a new compositor has no clips, empty lists and name index, and no shape |
| Multiclip.MultiClip.ParseClipId | pyfx/core/multiclip.py:33-66 | a name resolves exactly when registered (ValueError otherwise); a non-string goes through `int()` (ValueError on failure) and resolves to the clip on that layer, negative layers counting from the top, IndexError when out of range |
| Multiclip.MultiClip.UpdateClipToLayer | pyfx/core/multiclip.py:68-76 | the rebuilt clip-to-layer list is the inverse of the layer-to-clip list |
| Multiclip.MultiClip.RegisterClip | pyfx/core/multiclip.py:174-183 | the clip, its start and opacity are appended, its name maps to its registration index and the shape is set by the first clip |
| Multiclip.MultiClip.InsertLayer | pyfx/core/multiclip.py:190-193 | the new clip is inserted at `layer` as Python's `insert` does, and the inverse is rebuilt |
| Multiclip.MultiClip.AddLayer | pyfx/core/multiclip.py:185-193 | the new clip's index joins the layer list on top or at the given layer as `list.insert` places it, and the two layer lists stay mutually inverse permutations |
| Multiclip.MultiClip.Relayer | pyfx/core/multiclip.py:221 | any rearrangement of the layer list becomes the new layer list with `_clip_to_layer` rebuilt as its inverse, the registry left valid |
| Multiclip.MultiClip.AddClip | pyfx/core/multiclip.py:131-193 | fails with ValueError (nothing changed) exactly for a non-clip, a shape mismatch, a duplicate name or a non-integer layer; otherwise appends the clip and its properties and places it on the requested layer, keeping the invariant |
| Multiclip.MultiClip.RaiseClip | pyfx/core/multiclip.py:195-221 | errors of the clip id pass through unchanged; a top clip stays; `to_top` moves it to the top; otherwise it swaps with the clip above |
| Multiclip.MultiClip.LowerClip | pyfx/core/multiclip.py:224-250 | errors of the clip id pass through unchanged; a bottom clip stays; `to_bottom` moves it to layer 0; otherwise it swaps with the clip below |
| Multiclip.MultiClip.SetClipLayer | pyfx/core/multiclip.py:252-276 | after the id and the layer checks pass, the clip is popped from its layer and inserted at `layer`; on failure the order is unchanged |
| Multiclip.MultiClip.ShiftClipStart | pyfx/core/multiclip.py:279-293 | only the addressed clip's start moves, by int(shift_by); id or conversion errors change nothing |
| Multiclip.MultiClip.SetClipStart | pyfx/core/multiclip.py:295-308 | only the addressed clip's start becomes int(start_position); id or conversion errors change nothing |
| Multiclip.MultiClip.GetClipStart | pyfx/core/multiclip.py:310-316 | returns the addressed clip's start, failing exactly when the id does |
| Multiclip.MultiClip.SetClipAlpha | pyfx/core/multiclip.py:318-329 | only a strictly-between-0-and-1 opacity is stored, for the addressed clip only; anything else is ValueError with nothing changed |
| Multiclip.MultiClip.GetClipAlpha | pyfx/core/multiclip.py:331-337 | returns the addressed clip's opacity, failing exactly when the id does |
| Multiclip.MultiClip.Clips | pyfx/core/multiclip.py:339-344 | the clips from bottom to top: each clip appears at its own layer |
| Multiclip.MultiClip.Starts | pyfx/core/multiclip.py:346-351 | each clip's start appears at that clip's layer |
| Multiclip.MultiClip.Alphas | pyfx/core/multiclip.py:353-358 | each clip's opacity appears at that clip's layer |
| Multiclip.MultiClip.Shape | pyfx/core/multiclip.py:360-365 | unset exactly while empty; otherwise every clip has this shape |
| Multiclip.MultiClip.LayerFrames | pyfx/core/multiclip.py:107-122 | layer l contributes the opacity-scaled frame of the clip on layer l at that clip's own time |
| Multiclip.MultiClip.GetFrame | pyfx/core/multiclip.py:78-129 | with no visible clip the undefined `size` gives NameError; otherwise the result is the composite of the visible layers' frames from the top layer down |
| Multiclip.MultiClip.CollectIncluded | pyfx/core/multiclip.py:83-91 | the first loop collects exactly the layers of the clips visible at t |
| Multiclip.FoldFrames | pyfx/core/multiclip.py:104-127 | the second loop computes the layered composite of the listed frames |
| Multiclip.FoldStep | pyfx/core/multiclip.py:123-127 | compositing the next layer's frame over the fold so far gives the fold one layer longer, and a failure there is the failure of the whole fold |
| Multiclip.ClipFrame | pyfx/core/multiclip.py:110-122 | a clip contributes its own frame at t - start, opacity-scaled, and it is rectangular |
| Multiclip.IncludedInRange | pyfx/core/multiclip.py:83-108 | every collected layer, in any order, is a layer of the stack, so `_layer_to_clip[include[i]]` never fails |
| Multiclip.FrameTime | pyfx/core/multiclip.py:112 | the clip is asked for frame u with start + u == t |
| Multiclip.FrameTimeInClip | pyfx/core/multiclip.py:87-112 | with that time, a visible clip is asked for one of its own frames 0 <= u < max_time |
| Multiclip.FrameTimeAsWrittenOverruns | pyfx/core/multiclip.py:112 | as written (t + start) a clip starting at 10 with 5 frames, visible at 12, is asked for frame 22, past its end |
| Multiclip.ComposeErrorPersists | pyfx/core/multiclip.py:124-127 | once a composite fails, every longer fold fails with the same error |
| Multiclip.IncludedLayersMeaning | pyfx/core/multiclip.py:83-94 | the composited layers are exactly the layers whose clip is visible at t, in strictly decreasing order |
| Multiclip.IncludedDistinct | pyfx/core/multiclip.py:83-91 | no layer is collected twice |
| Multiclip.SetClipLayerCheck | pyfx/core/multiclip.py:259-267 | the layer check passes exactly for an int()-convertible layer inside the stack; out of range is ValueError and conversion errors pass through |
| Multiclip.SetClipLayerOutOfRangeIsNameError | pyfx/core/multiclip.py:265-267 | as written an out-of-range layer raises NameError (misspelled `IndexErrror`); the corrected check reports ValueError |
| Multiclip.RaiseSwapAsWrittenCounterexamples | pyfx/core/multiclip.py:213-219 | swapping at the registration index instead of the layer moves the wrong clip, and at the last index drops an entry with IndexError |
| Multiclip.RaiseMovesClipUp | pyfx/core/multiclip.py:213-219 | the swap the model performs moves the clip up one layer, the clip above down one, and nothing else |
| Multiclip.MoveKeepsOthersOrder | pyfx/core/multiclip.py:208-240 | `to_top` and `to_bottom` keep the relative order of the other clips |
| Multiclip.SetLayerMinusOneIsBelowTop | pyfx/core/multiclip.py:273-275 | a layer of -1 inserts the clip just below the top, as Python's list `insert` does |
| Multiclip.RaiseTests | tests/core/test_multiclip.py:72-82 | the test's raise steps produce the expected layer orders |
| Multiclip.LowerTests | tests/core/test_multiclip.py:94-104 | the test's lower steps produce the expected layer orders |
| Multiclip.SetLayerTests | tests/core/test_multiclip.py:109-112 | `set_clip_layer(2, 0)` on the order [0, 1, 2] gives the order the test expects, [2, 0, 1] |
| Multiclip.SetLayerByNameTests | tests/core/test_multiclip.py:114-117 | `set_clip_layer("clip2", 1)` on [2, 0, 1] gives the order the test expects, [2, 1, 0] |
| EffectBase.WaypointTime | pyfx/effects/base.py:25-28 | the waypoint time is the input rounded half-to-even, except that -1 stands for the workspace's last time |
| EffectBase.LatestBefore | pyfx/effects/base.py:41-51 | the result is a stored key strictly before t and no stored key before t is later; None exactly when no key is before t |
| EffectBase.FirstUnknown | pyfx/effects/base.py:57-62 | every keyword before the returned position is known, and the one at it (if any) is not |
| EffectBase.Supplied | pyfx/effects/base.py:57-59 | a key gets a value from the keywords exactly when some keyword names it |
| EffectBase.ApplyAllMeaning | pyfx/effects/base.py:55-59 | writing the keywords overwrites exactly the supplied keys with their last supplied values and keeps every other key of the copied snapshot |
| EffectBase.ApplyAllKeys | pyfx/effects/base.py:55-59 | writing known keywords into a full snapshot leaves it with exactly the default keys |
| EffectBase.SeedWithZero | pyfx/effects/base.py:35-53 | with entry 0 present every time in range has a snapshot to start from |
| EffectBase.AddOutcome | pyfx/effects/base.py:20-64 | adding fails exactly for an out-of-range time, a missing seed or an unknown keyword; an out-of-range time changes nothing; success clears `baked` |
| EffectBase.AddSeedsAndOverwrites | pyfx/effects/base.py:34-59 | a successful add stores at t the entry already at t, else the latest earlier entry, with the supplied keys overwritten; no other time changes |
| EffectBase.AddNotAtomic | pyfx/effects/base.py:55-62 | an unknown keyword raises ValueError only after the entry at t was created and the earlier keywords written |
| EffectBase.RemoveZeroAsWrittenDeletesIt | pyfx/effects/base.py:82-91 | as written, removing time 0 pops the entry just reset, and a later add before the first remaining time fails with KeyError |
| EffectBase.Effect.constructor | pyfx/effects/base.py:6-18 | a new effect holds the single entry {0: defaults} and is not baked |
| EffectBase.Effect.AddWaypoint | pyfx/effects/base.py:20-64 | keys, waypoints, `baked` and the outcome are exactly what one `add_waypoint` call produces, and the invariant (every entry in range with the default keys, entry 0 present) holds |
| EffectBase.Effect.FindSeed | pyfx/effects/base.py:35-53 | the append-sort-index lookup finds the entry at t, else the latest earlier one, and it has the default keys |
| EffectBase.Effect.WriteKeywords | pyfx/effects/base.py:55-62 | the entry at t becomes the seed with the keywords before the first unknown one written; ValueError exactly when some keyword is unknown |
| EffectBase.Effect.SetWaypoint | pyfx/effects/base.py:66-73 | setting a waypoint has exactly the effect of adding it |
| EffectBase.Effect.RemoveWaypoint | pyfx/effects/base.py:75-93 | time 0 is reset to the defaults and kept; a stored time is deleted from map and key list; a missing time is ValueError with nothing changed; a removal clears `baked` |
| EffectBase.RemoveKeepsKeys | pyfx/effects/base.py:87-88 | popping a key from the dictionary keeps its key list duplicate-free and naming exactly the remaining keys |
| EffectBase.Effect.GetWaypoint | pyfx/effects/base.py:95-106 | returns the entry at round(t), ValueError exactly when there is none |
| EffectBase.Effect.Waypoints | pyfx/effects/base.py:118-131 | every stored entry once, in strictly ascending time order |
| EffectBase.SortedEntriesAscending | pyfx/effects/base.py:118-131 | with distinct insertion-order keys naming exactly the stored times, the entries at the sorted keys list every stored entry once, in strictly ascending time order |
| EffectBase.NewEffect | pyfx/effects/base.py:6-18 | a subclass without defaults is NotImplementedError; otherwise a fresh valid, unbaked effect holding its defaults at 0 |
| EffectBase.LookupIsLatest | pyfx/effects/base.py:41-51 | appending t, sorting and stepping one index back finds the latest key before t, and index 0 means there is none |
| EffectBase.LatestFromSorted | pyfx/effects/base.py:41-51 | whatever answer meets the latest-key-before-t specification is the entry just before t in the sorted keys, and there is none when t sorts first |
| Smooth.OddWindow | pyfx/util/process.py:19-21 | the window used is int(round(window_len)) made odd by adding one to an even length |
| Smooth.ConvolveValid | pyfx/util/process.py:25 | the valid convolution fails exactly on an empty signal and otherwise has one value per full window |
| Smooth.TrimAsWritten | pyfx/util/process.py:27-29 | the slice `[h:-h]` drops h samples from each end, and is empty for h = 0 |
| Smooth.SmoothAsWritten | pyfx/util/process.py:3-29 | window 0 returns the signal, a negative window is ValueError, and a positive one fails exactly on an empty signal |
| Smooth.WindowOneIsEmpty | pyfx/util/process.py:19-29 | as written a window that rounds to 0 or 1 returns an empty signal |
| Smooth.Trim | pyfx/util/process.py:27-29 | the intended trim drops h samples from each end, nothing for h = 0 |
| Smooth.Smooth | pyfx/util/process.py:3-29 | the corrected smoother: same error cases as the code, the trim taken as `[h:len-h]` |
| Smooth.Mirror | pyfx/util/process.py:24 | reflecting about both ends stays inside the signal |
| Smooth.MirroredWindow | pyfx/util/process.py:24 | the window around a sample holds 2h+1 mirrored samples |
| Smooth.LeftPadAt | pyfx/util/process.py:24 | `x[w-1:0:-1]` has w-1 samples, x[w-1] down to x[1] |
| Smooth.RightPadAt | pyfx/util/process.py:24 | `x[-2:-w-1:-1]` has w-1 samples, x[n-2] downwards |
| Smooth.PadLengths | pyfx/util/process.py:24 | both reflected pads have w-1 samples |
| Smooth.SignalAt | pyfx/util/process.py:24 | sample i of the padded signal is the input reflected at i-(w-1) |
| Smooth.SignalIsMirrored | pyfx/util/process.py:24-25 | the padded signal read around k+h is the mirrored window around k |
| Smooth.ConvolveAt | pyfx/util/process.py:23-25 | the moving average at k+h is the mean of the mirrored window around k |
| Smooth.SmoothIsMirroredMean | pyfx/util/process.py:3-29 | for an odd window w >= 3 and a signal that long, the output has the input's length and sample k is the mean of the w mirrored samples centred on k |
| Smooth.SmoothIsTrimmed | pyfx/util/process.py:19-29 | on a non-empty signal both versions return the moving average of the padded signal with (w-1)/2 samples cut from each end, each with its own slice |
| Smooth.TrimAgrees | pyfx/util/process.py:27-29 | with h > 0 the slice `[h:-h]` and the intended `[h:len-h]` are the same |
| Smooth.SmoothAsWrittenAgrees | pyfx/util/process.py:27-29 | for windows of 3 or more the code and the corrected trim agree |
| Smooth.SmoothConstant | pyfx/util/process.py:3-29 | a constant signal is returned unchanged |
| Smooth.MirroredMeanConstant | pyfx/util/process.py:23-25 | the mean of a window of a constant signal is that constant |
| Smooth.SmoothWindowOneIsIdentity | pyfx/util/process.py:19-29 | with the corrected trim a window of 1 returns the signal itself |
| Masks.MaskValueRange | pyfx/primitives/blends/fade.py:11-14 | over steps 0..n the mask value is a byte, 0 at the first step and 255 at the last |
| Masks.MaskFraction | pyfx/primitives/blends/fade.py:11-14 | before rounding, step i of n gives a value in [0, 255], exactly 0 at the first step and 255 at the last |
| Masks.MaskFull | pyfx/primitives/blends/fade.py:11-14 | the last step's unrounded value n·255/n is exactly 255 |
| Masks.MaskValueMonotone | pyfx/primitives/blends/fade.py:11-14 | the mask value never decreases with the step |
| Masks.FadeStepExample | pyfx/primitives/blends/fade.py:11-14 | with 5 steps the values run 0, 51, …, 255 |
| Masks.FillFrame | pyfx/primitives/blends/fade.py:14 | `out_masks[i,:,:] = value` sets every cell of frame i and no other frame |
| Masks.Fade | pyfx/primitives/blends/fade.py:4-16 | a negative shape or fewer than -1 steps is ValueError, 0 steps is ZeroDivisionError; otherwise a fresh stack of num_steps+1 frames of the given shape, frame i filled with round(i/n·255) |
| Masks.FadeFrames | pyfx/primitives/blends/fade.py:4-16 | every fade frame is a byte, frame 0 is 0, the last is 255, and the frames rise |
| Masks.FillSlice | pyfx/effects/transitions/crossfade.py:13 | `trans_mask[:,:,i] = value` sets every cell of slice i and no other slice |
| Masks.CreateMasks | pyfx/effects/transitions/crossfade.py:8-15 | a single slice is ZeroDivisionError; otherwise the same array is returned, and with two or more slices slice z holds round(z/(n-1)·255) |
| Masks.CrossFadeSlices | pyfx/effects/transitions/crossfade.py:10-13 | along the slice axis the first slice is 0, the last 255, and the values rise |
| Crop.SliceRange | pyfx/util/crop.py:48 | a slice selects an in-bounds half-open range, the given one when it already fits |
| Crop.CropRanges | pyfx/util/crop.py:13-48 | ValueError exactly for a crop that is not a pair, a negative crop value (checked before rounding) or an image with neither 2 nor 3 axes; otherwise one kept range per axis |
| Crop.CropFits | pyfx/util/crop.py:33-48 | a crop that fits keeps [round(a), n - round(b)) of each image axis and the whole channel axis |
| Crop.LowShift | pyfx/util/crop.py:163-164 | the minimum shift, raised to at most 0 |
| Crop.HighShift | pyfx/util/crop.py:165-166 | the maximum shift, lowered to at least 0 |
| Crop.MaxShift | pyfx/util/crop.py:168 | the largest excursion abs(min) + max is never negative |
| Crop.PositiveShare | pyfx/util/crop.py:195-198 | the share of the crop on the positive side is in [0, 1], one half when there is no shift |
| Crop.SplitPixels | pyfx/util/crop.py:202-205 | the two sides always add up to the total, the second being round(total·f) |
| Crop.SplitPixelsBounds | pyfx/util/crop.py:202-205 | for a share in [0, 1] neither side is negative or more than the total |
| Crop.RoundedFraction | pyfx/util/crop.py:202-205 | round(total·f) for a share f in [0, 1] lies between 0 and the total |
| Crop.ScaledPixels | pyfx/util/crop.py:190-212 | round(f·n) is never negative and at most n for f in [0, 1] |
| Crop.PanFactor | pyfx/util/crop.py:169-185 | the crop factor is the larger of the two proportional shifts |
| Crop.PanCrop | pyfx/util/crop.py:154-234 | an empty shift list is ValueError (from `np.min`); otherwise a crop plan |
| Crop.PanCropPlan | pyfx/util/crop.py:187-234 | the pan crop removes round(fx·width) columns and round(fx·height) rows, the two sides of each axis add up to that, neither is negative, an axis without shift is split evenly, and the new size is the old less the crop |
| Crop.MakeEven | pyfx/util/crop.py:256-261 | the delta becomes even, raised by one when odd |
| Crop.HalvedPlan | pyfx/util/crop.py:258-264 | an even delta splits into two equal halves and the new size is the old less the delta |
| Crop.RotateCrop | pyfx/util/crop.py:236-264 | an empty angle list is ValueError; otherwise each axis loses round(dim - dim') pixels, made even, in equal halves, where dim' is the rotated box, and the new size is the old less the crop |
| Crop.RotatedBox | pyfx/util/crop.py:249-250 | the box has the frame's aspect ratio and its height times (h·sin θ + w) is w·h |
| Crop.RotatedBoxUnrotated | pyfx/util/crop.py:249-250 | with sin θ = 0 the rotated box is the frame itself |
| Crop.RotateCropUnrotated | pyfx/util/crop.py:236-264 | with sin θ = 0 the box is the frame and nothing is cropped |
| Crop.MaxAbs | pyfx/util/crop.py:245 | the largest absolute angle bounds every angle's magnitude |
| Crop.ZoomCrop | pyfx/util/crop.py:266-290 | ValueError exactly when the list is empty or its smallest magnitude is below 1; otherwise each axis loses round(dim·(1 - 1/mag)) pixels, made even, in equal halves, and the new size is the old less the crop |
| Crop.ZoomCropUnzoomed | pyfx/util/crop.py:266-290 | a smallest magnitude of 1 crops nothing |
| Crop.ZoomCropBounds | pyfx/util/crop.py:280-290 | a zoom crop removes no negative count and at most the axis plus the one pixel evening may add |
| Crop.ZoomKeep | pyfx/util/crop.py:280 | the share 1 - 1/mag removed is in [0, 1] |
| Crop.ScaledRound | pyfx/util/crop.py:280-285 | rounding f·n with f in [0, 1] gives a count between 0 and n |
| Crop.MirrorSource | pyfx/util/crop.py:99-119 | each output row of an expanded axis shows an input row: the interior shifted by the lead expansion, each strip mirroring the adjacent edge rows |
| Crop.Blit | pyfx/util/crop.py:99-119 | one slice assignment copies the input block, each axis read forwards, reversed (`np.flip`) or broadcast from a single row or column, and leaves every cell outside the block alone |
| Crop.BlitStrip | pyfx/util/crop.py:99-119 | a strip assignment numpy accepts fills exactly its target block from its (flipped) source block |
| Crop.AxisCut | pyfx/util/crop.py:99-119 | the slices `[xa:-xb]`, `[:xa]`, `[-xb:]` of an axis always select in-bounds ranges of the output and of the input |
| Crop.PlainAxisCut | pyfx/util/crop.py:64-119 | with no trailing 0 (or no expansion) the slices are the literal ranges: interior [xa, xa+n), strips [0, xa) and [xa+n, xa+n+xb), edge blocks [0, xa) and [n-xb, n) |
| Crop.PlainExpansionCut | pyfx/util/crop.py:64-119 | an absent expansion, or a requested one within the axis with a trailing amount above 0, grows the axis to xa+n+xb and cuts it literally |
| Crop.PlainStripsFit | pyfx/util/crop.py:99-119 | literal cuts give every strip assignment the shape of its slot, so numpy accepts them all |
| Crop.PlainFilledOutcome | pyfx/util/crop.py:99-150 | with literal cuts only the corners can make `expand` fail, and only when both axes expand |
| Crop.StripShows | pyfx/util/crop.py:99-119 | an assigned strip whose source rows and columns are the mirrored ones shows the mirrored input at its block |
| Crop.InteriorShows | pyfx/util/crop.py:99 | the interior assignment shows the input shifted by the lead amounts |
| Crop.LeftShows | pyfx/util/crop.py:103-105 | the strip before the interior rows shows the first rows reversed |
| Crop.RightShows | pyfx/util/crop.py:107-109 | the strip after the interior rows shows the last rows reversed |
| Crop.TopShows | pyfx/util/crop.py:113-115 | the strip before the interior columns shows the first columns reversed |
| Crop.BottomShows | pyfx/util/crop.py:117-119 | the strip after the interior columns shows the last columns reversed |
| Crop.ExpandStrips | pyfx/util/crop.py:99-119 | the interior and strip assignments end in ValueError exactly when numpy cannot broadcast one of them; otherwise, on literal cuts, the interior rows and the interior columns show the mirrored input |
| Crop.RowStrips | pyfx/util/crop.py:101-109 | with the interior in place, the row strips complete the band of interior columns |
| Crop.ColumnStrips | pyfx/util/crop.py:111-119 | the column strips complete the band of interior rows and keep the band of interior columns |
| Crop.Corners | pyfx/util/crop.py:121-150 | the four corners, in the order top left, top right, bottom left, bottom right, lie within the input and the output |
| Crop.CornerComposite | pyfx/util/crop.py:124-128 | compositing a corner block with itself fails only with ValueError, and on success is an h-by-w array of 4-channel cells for an h-by-w block |
| Crop.CompositeNeedsValues | pyfx/util/convert.py:188 | a block that composites has at least one row and one column (`np.min` of an empty array raises) |
| Crop.EmptyCornerFails | pyfx/util/crop.py:124-129 | a corner whose source block is empty fails with ValueError |
| Crop.CornersOutcome | pyfx/util/crop.py:121-150 | the corners pass exactly when each does, and a failure is the failure of some corner |
| Crop.CornerGrid | pyfx/util/crop.py:128 | a successful corner composite is h by w with 4 values per cell |
| Crop.BlitCells | pyfx/util/crop.py:129 | `out[r0:r0+nr, c0:c0+nc, :] = g` puts the grid's cells in the block, broadcasting a single row or column, and leaves every other cell alone |
| Crop.FillCorner | pyfx/util/crop.py:124-129 | one corner ends as `CornerOutcome` says; on success its block holds the composite (broadcast where the block has one row or column) and nothing else changes |
| Crop.FillCorners | pyfx/util/crop.py:121-150 | the corners filled in order end as `CornersOutcome` says, and cells outside every corner block keep their values |
| Crop.CornersOffBands | pyfx/util/crop.py:121-150 | on literal cuts no corner block meets the interior rows or the interior columns |
| Crop.ExpandCorners | pyfx/util/crop.py:121-150 | the corner phase ends as `CornersOutcome` says and keeps the bands of interior rows and columns when the corners miss them |
| Crop.Zeros | pyfx/util/crop.py:94-97 | a cell of the zero-filled output holds one 0 per channel |
| Crop.ExpandInto | pyfx/util/crop.py:99-150 | once the output is allocated, `expand` ends as `FilledOutcome` says, and on literal cuts every interior row and interior column of the success shows the mirrored input |
| Crop.ExpandRest | pyfx/util/crop.py:121-150 | after the strips: the outcome is the corners' composite outcome when both axes expand and Pass otherwise, and on plain axes both bands show the mirrored input |
| Crop.Expand | pyfx/util/crop.py:50-152 | no expansion returns the input itself; otherwise it fails exactly as `ExpandOutcome` says (amounts beyond the axis, slices numpy cannot broadcast, then the corners); a success is a fresh array grown by the amounts whose interior rows and columns show the mirrored input on plain axes |
| Crop.Grow | pyfx/util/crop.py:86-152 | past the argument checks, allocation and filling fail exactly as `ExpandOutcome` says, and a success is fresh, of the grown shape, showing the mirrored bands |
| Crop.ExpandPlainOutcome | pyfx/util/crop.py:99-150 | with amounts within their axes and no trailing 0, `expand` fails only at the corners, and only when both axes expand |
| Crop.ExpandTrailingZeroFails | pyfx/util/crop.py:99 | a trailing amount of 0 on an axis longer than one row makes `[a:-0]` empty and the interior assignment a ValueError |
| Crop.ExpandSingleRowBroadcasts | pyfx/util/crop.py:99-109 | a one-row image expanded by (1, 0) along x alone succeeds, the single row broadcast onto every slot |
| Crop.ExpandZeroLeadFails | pyfx/util/crop.py:124-128 | when both axes expand, a lead amount of 0 hands `alpha_composite` an empty block, and `expand` fails with ValueError |
| Crop.ExpandBothAxesNeedRgba | pyfx/util/crop.py:121-150 | a successful two-axis expansion needs a 3-D image of 4 channels and lead amounts above 0 |
| VirtualCamera.InsertLexElems | pyfx/effects/virtual_camera.py:139-140 | inserting into the sorted list adds exactly that waypoint |
| VirtualCamera.InsertLexSorted | pyfx/effects/virtual_camera.py:139-140 | inserting into a sorted list keeps it sorted in Python's tuple order |
| VirtualCamera.SortLex | pyfx/effects/virtual_camera.py:139-140 | `list.sort()` on the waypoint tuples gives a lexicographically sorted permutation |
| VirtualCamera.Camera.constructor | pyfx/effects/virtual_camera.py:85-87 | a new camera has no waypoints |
| VirtualCamera.Camera.AddWaypoint | pyfx/effects/virtual_camera.py:89-99 | the waypoint (t, x, y, theta) is appended |
| VirtualCamera.Camera.PrepareMoves | pyfx/effects/virtual_camera.py:121-162 | a negative shaking magnitude or max_expand below 1 is ValueError, no image or no waypoint is IndexError; otherwise the sorted waypoints framed by the start and end points, linear for up to three points and cubic beyond |
| VirtualCamera.FramedEnds | pyfx/effects/virtual_camera.py:143-149 | on any non-empty waypoint list, framing starts at time 0, ends at t_end, keeps every waypoint and adds only the two end points |
| VirtualCamera.PreparedEnds | pyfx/effects/virtual_camera.py:138-149 | the prepared waypoints start at time 0, end at t_end, contain every given waypoint and add at most the two end points |
| VirtualCamera.SortedLexTimes | pyfx/effects/virtual_camera.py:139-140 | tuple order sorts the times |
| VirtualCamera.FramedSorted | pyfx/effects/virtual_camera.py:142-149 | adding the end points keeps time order when all times lie in [0, t_end] |
| VirtualCamera.PreparedSorted | pyfx/effects/virtual_camera.py:138-149 | with all times in [0, t_end] the waypoints handed to interpolation are in time order |
| VirtualCamera.SplitAdd | pyfx/effects/virtual_camera.py:198-202 | the added pixels are split into two sides that sum to the total and differ by at most one, the extra on the second side |
| VirtualCamera.PlanExpansion | pyfx/effects/virtual_camera.py:192-202 | the factor is the fitted one capped at max_expand, and each axis's two sides add up to round(dim·(factor-1)) |
| VirtualCamera.FrameCrop | pyfx/effects/virtual_camera.py:229-239 | the first side is the rounded shifted pan crop, and the correction keeps the pan crop's total |
| VirtualCamera.FrameCrops | pyfx/effects/virtual_camera.py:219-242 | one crop per frame from the interpolated pans, every frame cropped by the same totals on both axes |
| VirtualCamera.Clamp | pyfx/effects/virtual_camera.py:70-71 | a coordinate already within the bound is kept and every result lies within [-bound, bound] |
| VirtualCamera.BuildShaking | pyfx/effects/virtual_camera.py:41-76 | a negative magnitude is ValueError; otherwise one x and one y per step, each within [-round(3m), round(3m)] |
| VirtualCamera.Camera.RenderMovesAsWritten | pyfx/effects/virtual_camera.py:121-130 | a negative shaking magnitude or max_expand below 1 is ValueError; every other call raises AttributeError at the missing `convert.from_file` |
| Photostream.Repeat | pyfx/core/photostream.py:180-181 | the inner loop appends n copies of the row index, none when n <= 0 |
| Photostream.TotalNonNegative | pyfx/core/photostream.py:183 | with non-negative durations `max_time` is non-negative and every prefix total is at most it |
| Photostream.TimelineLength | pyfx/core/photostream.py:158-183 | with non-negative durations `max_time` equals the length of `_internal_time` |
| Photostream.TimelineRange | pyfx/core/photostream.py:180-181 | every timeline entry names one of the rows |
| Photostream.TimelineSorted | pyfx/core/photostream.py:158-181 | the timeline never returns to an earlier image |
| Photostream.TimelineBlock | pyfx/core/photostream.py:158-183 | frame k shows image i exactly when k lies after the frames of the earlier images and before the end of i's own |
| Photostream.FirstBadFrom | pyfx/core/photostream.py:158-178 | the first rejected row from i on (shape mismatch or a time `np.round` rejects), all rows before it accepted |
| Photostream.FirstBad | pyfx/core/photostream.py:158-178 | the first rejected row, or none when every row is accepted |
| Photostream.Photos | pyfx/core/photostream.py:161-163 | the image list holds each row's image in row order |
| Photostream.Durations | pyfx/core/photostream.py:173-175 | each numeric time is rounded half-to-even to an integer |
| Photostream.SourceCheck | pyfx/core/photostream.py:113-142 | the source passes exactly when it is a path ending in ".csv", ".xls" or "xlsx" whose table has "image" and "time" columns; ValueError otherwise |
| Photostream.Digits | pyfx/core/photostream.py:88 | the decimal digits of a number, at least one |
| Photostream.Zeros | pyfx/core/photostream.py:88 | n '0' characters, none for n <= 0 |
| Photostream.DigitsValue | pyfx/core/photostream.py:88 | the digits read back as the number |
| Photostream.LeadingZeros | pyfx/core/photostream.py:88 | zero padding does not change the value |
| Photostream.DigitsLength | pyfx/core/photostream.py:88 | a number below 10^w has at most w digits |
| Photostream.FrameNameInjective | pyfx/core/photostream.py:88-90 | two frame times share a file name only if equal, so no rendered frame overwrites another |
| Photostream.FrameNameNumber | pyfx/core/photostream.py:88 | the digits between "frame" and ".png" read back as t |
| Photostream.FrameNameLength | pyfx/core/photostream.py:88 | below 10^8 a name is "frame", eight digits and ".png" |
| Photostream.Baked | pyfx/core/photostream.py:82-84 | baking an effect marks it baked and keeps its clip |
| Photostream.ApplyEffectsAppend | pyfx/core/photostream.py:80-85 | effects compose in tuple order: a chain es1 + es2 renders the output of es1 through es2 |
| Photostream.RenderInterval | pyfx/core/photostream.py:55-62 | the default interval is [0, max_time+1); a negative end is counted back from max_time+1; any other interval is kept |
| Photostream.PhotoStream.constructor | pyfx/core/photostream.py:22-35 | a new stream has empty lists, no shape, max_time 0 and current time 0 |
| Photostream.PhotoStream.ParseDf | pyfx/core/photostream.py:147-189 | the lists are rebuilt from the rows up to the first rejected one (the rejected image already appended), `max_time` is the sum of the durations, a rejected row is ValueError, and on success current time is reset to 0 when past the new max_time |
| Photostream.PhotoStream.AppendFrames | pyfx/core/photostream.py:179-180 | the timeline grows by exactly t copies of image index i (none when t <= 0) |
| Photostream.PhotoStream.LoadRow | pyfx/core/photostream.py:158-183 | one row: its image is always appended; the row is accepted exactly when it has the first image's shape and a numeric time, and then its rounded duration, its frames and its share of `max_time` are added |
| Photostream.PhotoStream.LoadRows | pyfx/core/photostream.py:152-183 | the loop stops at the first rejected row and reports it; the lists then hold the rows before it (plus its image), or every row |
| Photostream.PhotoStream.InitializeSrc | pyfx/core/photostream.py:113-145 | a rejected source is ValueError with nothing changed; otherwise current time is 0 and the table is parsed |
| Photostream.PhotoStream.GetFrameAsWritten | pyfx/core/photostream.py:95-111 | past max_time None; otherwise an out-of-range index is IndexError and every other lookup hits the undefined `internal_time` (NameError) |
| Photostream.PhotoStream.GetFrame | pyfx/core/photostream.py:95-111 | from max_time on None; for 0 <= t < max_time the image the timeline shows at t; failing only with IndexError for an index outside the timeline |
| Photostream.PhotoStream.ParsedFrame | pyfx/core/photostream.py:147-183 | after a successful parse, frame t shows the image of the row whose block of frames contains t |
| Photostream.PhotoStream.RenderCheck | pyfx/core/photostream.py:47-69 | an existing directory without overwrite is FileExistsError, an effect of another clip is ValueError; otherwise the normalised interval |
| Photostream.PhotoStream.RenderAsWritten | pyfx/core/photostream.py:38-76 | as written, a non-empty interval sets current time to its start and then raises NameError (`sys` is not imported) |
| Photostream.PhotoStream.Render | pyfx/core/photostream.py:38-92 | after the checks, every frame of the interval is rendered through the effects in order and named "frame%08d.png", the effects are left baked and current time at the last frame; a failing frame lookup ends it with that error |
| Photostream.PhotoStream.RenderLoop | pyfx/core/photostream.py:71-90 | the frame loop writes one frame per time of the interval, each the frame at that time through the effects |
| Photostream.PhotoStream.RenderedStep | pyfx/core/photostream.py:71-90 | appending the next time's frame, rendered through the effects, keeps the frames list a rendering from the interval's start |
| Photostream.PhotoStream.RenderedKept | pyfx/core/photostream.py:71-90 | appending the frame rendered at the next time leaves each earlier frame rendered at its own time, and the new one at the next |
| Photostream.AllBaked | pyfx/core/photostream.py:82-84 | every effect of the list baked, in order |
| Photostream.RenderFrame | pyfx/core/photostream.py:79-85 | one frame through the effect chain: the image is every effect's render in order and the effects are left baked |
| Photostream.PhotoStream.ParseDfAsWritten | pyfx/core/photostream.py:147-189 | the lists are emptied and `max_time` is 0; the first row's conversion raises ValueError, so any non-empty sheet fails there and only an empty one passes |
| Convert.LayoutOf | pyfx/util/convert.py:165-185 | a 2-D array or a 3-D array with 0, 1, 3 or 4 channels gets a layout (duplicated gray for at most one channel, own alpha exactly for four); any other shape is ValueError |
| Convert.ArrayToImageRejects | pyfx/util/convert.py:165-212 | `_array_to_image` fails, always with ValueError, exactly for a bad shape, an empty array, an integer value outside [0,255], a float value outside [0,1], or a (H, W, 1) array numpy cannot broadcast |
| Convert.Level | pyfx/util/convert.py:187-201 | each stored level is a byte: integers copied, floats scaled by 255 and truncated by the uint8 store |
| Convert.FloatLevel | pyfx/util/convert.py:198 | a float v in [0,1] is stored as floor(255 v) |
| Convert.ImagePixel | pyfx/util/convert.py:200-212 | every pixel of an accepted array is four bytes |
| Convert.ImageOf | pyfx/util/convert.py:200-214 | the image has the array's rows and columns and the pixel of each position |
| Convert.ImagePixelChannels | pyfx/util/convert.py:200-212 | a gray value goes to R, G and B alike; one- and three-channel arrays get alpha 255; four-channel arrays keep their alpha; integer levels are copied unchanged |
| Convert.CopyChannel | pyfx/util/convert.py:203-212 | channel k of every position receives the source channel's level and every other channel is left as it was |
| Convert.FillChannel | pyfx/util/convert.py:210 | channel k of every position becomes v, every other channel unchanged |
| Convert.ArrayToImage | pyfx/util/convert.py:160-216 | a rejected array gives the check's error; an accepted one gives a fresh (H, W, 4) array holding each pixel's four channels |
| Convert.OverGrid | pyfx/util/convert.py:146 | the composite has the bottom's size and each pixel is "over" of the two input pixels there |
| Convert.GridToArray | pyfx/util/convert.py:153-157 | the returned array is (H, W, 4) of the requested integer or float kind |
| Convert.AlphaComposite | pyfx/util/convert.py:116-157 | every error `alpha_composite` raises is ValueError |
| Convert.AlphaCompositeOutcome | pyfx/util/convert.py:122-157 | after conversion the call succeeds exactly when both images are RGBA and of one size; the result is the image composite when the bottom was an image or one is asked for, otherwise an (H, W, 4) array of the bottom's dtype with floats over 255; array inputs always pass the mode check |
| Convert.RgbaArray | pyfx/util/convert.py:153-154 | a frame as a uint8 (H, W, 4) array |
| Convert.RgbaArrayWellFormed | pyfx/util/convert.py:153-154 | such an array holds whole numbers in every channel |
| Convert.RgbaArrayBytes | pyfx/util/convert.py:187-190 | such an array passes `_array_to_image`'s checks exactly when it is non-empty and every channel is a byte |
| Convert.RgbaImageOf | pyfx/util/convert.py:200-214 | converting a byte frame's array back to an image returns the frame |
| Convert.FrameOfGridToArray | pyfx/util/convert.py:153-154 | reading the returned uint8 array back gives the composite frame |
| Convert.FrameOf | pyfx/util/convert.py:153-154 | the pixels of an array form a rectangular frame |
| Convert.CompositeFramesViaArrays | pyfx/util/convert.py:116-157 | compositing two frames through `alpha_composite` yields a rectangular frame |
| Convert.CompositeFrames | pyfx/util/convert.py:136-146 | a successful frame composite has the bottom frame's size |
| Convert.CompositeFramesMeaning | pyfx/util/convert.py:116-157 | going through `alpha_composite` on uint8 frame arrays fails with ValueError exactly when a frame is empty, holds a non-byte value or the sizes differ, and otherwise is the pixel-by-pixel "over" |
| Convert.RoundByteScale | pyfx/util/convert.py:326 | round(255 x) of an x in [0,1] is a byte |
| Convert.FloatToInt | pyfx/util/convert.py:313-328 | success exactly for a non-empty array within [0,1] and an integer dtype, giving round(255 x) per value, each a byte; ValueError otherwise |
| Convert.IntToFloat | pyfx/util/convert.py:331-346 | success exactly for a non-empty array within [0,255] and a float dtype, giving a/255 per value, each in [0,1]; ValueError otherwise |
| Convert.IntFloatRoundTrip | pyfx/util/convert.py:326-344 | `_float_to_int(_int_to_float(a)) == a` for every non-empty array of bytes |
| Convert.ToArrayAlwaysRejects | pyfx/util/convert.py:40-42 | the `to_array` dtype guard as written rejects every dtype with ValueError |
| Convert.ToArrayGuard | pyfx/util/convert.py:39-46 | the intended guard passes exactly an integer or float dtype with 1, 3 or 4 channels; ValueError otherwise |
| LegacyUtil.MatrixToImage | pyfx/util.py:7-60 | `matrix_to_image` rejects what `_array_to_image` rejects, with the same error, and otherwise gives a fresh (H, W, 4) array with gray duplicated, alpha 255 for one or three channels and alpha kept for four |
| LegacyUtil.AlphaCompositeAsWritten | pyfx/util.py:63-74 | every call raises NameError at the test of the undefined `a` |
| LegacyUtil.AlphaCompositeAsWrittenRejectsValid | pyfx/util.py:69 | two same-size RGBA images, which the package's `alpha_composite` composites, are rejected by this copy |
| Raster.SubGrid | pyfx/sprites/base.py:88-89 | the slice `a[lo:hi, clo:chi]` is a (hi-lo)-by-(chi-clo) grid whose cell (i, j) is cell (lo+i, clo+j) of the original |
| Raster.GridOf | pyfx/sprites/base.py:88 | the contents of a frame array, position by position |
| Raster.ToUint8 | pyfx/util/convert.py:198-201 | storing a value into a uint8 array gives a byte, equal to the value's floor within [0,256) |
| Raster.AddUint8 | photonzombie/particles/particle.py:148 | the in-place uint8 sum is a byte: the plain sum up to 255, 256 less above it |
| Raster.ClipAxis | pyfx/sprites/base.py:36-80 | along one axis the sprite is off the frame exactly when it ends at or before 0 or starts at or after the frame's end; otherwise the destination is the overlap of sprite and frame and the source that overlap shifted back by the start |
| Raster.ClipAxisWindows | pyfx/sprites/base.py:47-80 | both windows lie inside their arrays, have one length, and are non-empty for a non-empty sprite and frame |
| Raster.ClipAxisSteps | pyfx/sprites/base.py:47-63 | the low-edge then high-edge adjustment of the Python code gives up exactly when ClipAxis says off-frame and otherwise ends with its windows |
| Raster.Placement | pyfx/sprites/base.py:36-80 | a sprite is placed nowhere exactly when one axis is off the frame, and otherwise at the clip of each axis |
| Raster.PlacementFits | pyfx/sprites/base.py:36-80 | a placed sprite's windows fit the frame and the sprite |
| Raster.BlendWindow | pyfx/sprites/base.py:92 | every frame position in the window becomes the blend of its old pixel with the sprite pixel above it, and every position outside is unchanged |
| Raster.RingSpriteSizeCovers | photonzombie/particles/particle.py:45-47 | with a non-negative radius and an expansion factor of at least 1 the sprite reaches at least 3 pixels past the innermost ring and is at least 7 pixels wide |
| Raster.AddPixelMeaning | photonzombie/particles/particle.py:143-149 | on byte pixels the additive write keeps bytes, wraps each colour channel modulo 256, and caps the alpha sum at 255, never below either alpha |
| Raster.AddSprite | photonzombie/particles/particle.py:97-151 | the frame is untouched exactly when the sprite lies wholly beyond an edge; otherwise the window receives the additive write and nothing outside it changes |
| Sprites.DefaultSprite | pyfx/sprites/base.py:21-29 | the base sprite is a 5x5 square of opaque white |
| Sprites.Windows | pyfx/sprites/base.py:88-89 | the frame window and the sprite window handed to `alpha_composite` are rectangles |
| Sprites.PastedIsComposite | pyfx/sprites/base.py:88-92 | the value stored at each window position is the frame pixel composited with the sprite pixel above it |
| Sprites.WindowsAt | pyfx/sprites/base.py:88-89 | position (p, q) of the frame window is the frame's pixel there, and of the sprite window the sprite pixel that lands on (p, q) |
| Sprites.CompositeAt | pyfx/sprites/base.py:88-89 | a successful `alpha_composite` of two frames holds at each position the bottom pixel composited with the top one |
| Sprites.Sprite.constructor | pyfx/sprites/base.py:13-29 | a new sprite is in frame and holds the 5x5 white square |
| Sprites.Sprite.WriteToImage | pyfx/sprites/base.py:31-115 | without `_size` AttributeError with nothing changed; otherwise out_of_frame is set exactly when the sprite is wholly beyond an edge (frame untouched), and else the window becomes the composite of itself and the visible sprite, or the composite's ValueError is raised before anything is written |
| VisualSprites.Sprite.constructor | pyfx/visuals/sprites/base.py:13-29 | a new sprite is in frame and holds the 5x5 white square |
| VisualSprites.Sprite.WriteToImage | pyfx/visuals/sprites/base.py:31-89 | the same outcome as the pyfx.sprites copy, though this copy names the axes the other way round and clips axis 1 first |
| ZombieParticle.RandomPareto | photonzombie/particle.py:10-20 | the sample never exceeds 6, and is at least 1 for a non-negative draw |
| ZombieParticle.ParticleCheck | photonzombie/particle.py:37-60 | the constructor accepts exactly hue and alpha in [0,1], num_rings >= 1, expansion_factor > 1 and alpha_decay > 0; each rejection is ValueError |
| ZombieParticle.Particle.constructor | photonzombie/particle.py:26-62 | an accepted particle keeps its parameters, starts in frame and has no coordinate, sprite or velocity yet |
| ZombieParticle.NewParticle | photonzombie/particle.py:26-62 | constructing fails with ValueError exactly when a check rejects, and otherwise gives a fresh in-frame particle with the given parameters |
| ZombieParticle.Particle.CreateParticle | photonzombie/particle.py:65-103 | the coordinate is stored; a given `nearest` then raises NameError (the misspelt name) with nothing else changed; otherwise nearest ends up None, radius and intensity are the given values or clamped draws (intensity at most 1), the velocity is stored and the sprite size is ceil(radius·factor^(rings-1) + 3); a negative sprite side is ValueError with no new sprite, and a non-negative radius always builds it |
| ZombieParticle.Particle.BuildSprite | photonzombie/particle.py:96-104 | the size is stored first; a negative side 2·size + 1 is ValueError with the old sprite kept, otherwise the bitmap is stored; a non-negative radius with factor at least 1 always succeeds |
| ZombieParticle.Particle.AdvanceTime | photonzombie/particle.py:137-139 | one step moves the coordinate by the velocity; before a velocity is stored it is AttributeError with nothing moved |
| ZombieParticle.Particle.WriteToImage | photonzombie/particle.py:141-205 | with advance the particle moves one step first, AttributeError without a velocity; no sprite is AttributeError after the move with the frame unchanged; a sprite wholly beyond an edge sets out_of_frame and leaves the frame unchanged; otherwise the window receives the additive write (alpha capped at 255, colour wrapping) and the flag is kept; the flag is never cleared |
| ZombieParticles.Particle.constructor | photonzombie/particles/particle.py:16-19 | a new particle keeps kT and the pareto exponent and has no coordinate, sprite or out_of_frame flag |
| ZombieParticles.Particle.CreateParticle | photonzombie/particles/particle.py:21-47 | the coordinate is stored; without a radius the pareto draw raises NameError and nothing else changes; with one, radius, velocity and zero forces are stored, and then a missing set of ring parameters is AttributeError, and otherwise the sprite size is ceil(radius·factor^(rings-1) + 3) |
| ZombieParticles.Particle.WriteToImage | photonzombie/particles/particle.py:91-151 | the coordinate is never moved; missing coordinate or sprite is AttributeError; a sprite wholly beyond an edge sets out_of_frame to True and leaves the frame unchanged; otherwise the window receives the additive write; the flag only ever becomes True |
| ZombieParticles.Particle.OutOfFrame | photonzombie/particles/particle.py:157-159 | reading the flag is AttributeError until a write has found the sprite off-frame, and True afterwards |
| ZombieGlowing.ImportAsWritten | photonzombie/glowing_particles.py:2 | as written importing the module raises NameError: the default `np.inf` is evaluated with numpy never imported |
| ZombieGlowing.GlowingPareto | photonzombie/glowing_particles.py:2-12 | the sample is draw + minimum, capped at the maximum when one is given; the default infinite maximum never caps |
| ZombieGlowing.SpriteCheck | photonzombie/glowing_particles.py:35-68 | the constructor accepts exactly radius > 0, intensity, hue and alpha in [0,1], num_rings >= 1, expansion_factor > 1 and alpha_decay > 0; each rejection is ValueError |
| ZombieGlowing.GlowingParticleSprite.constructor | photonzombie/glowing_particles.py:17-70 | an accepted sprite keeps its parameters, starts in frame and has no bitmap yet |
| ZombieGlowing.NewGlowingParticleSprite | photonzombie/glowing_particles.py:17-70 | constructing fails with ValueError exactly when a check rejects, and otherwise gives a fresh in-frame sprite with the given parameters |
| ZombieGlowing.GlowingParticleSprite.BuildSprite | photonzombie/glowing_particles.py:73-112 | the half-width is ceil(radius·factor^(rings-1) + 3), at least radius + 3, and the bitmap is stored |
| ZombieGlowing.GlowingParticleSprite.WriteToImageAsWritten | photonzombie/glowing_particles.py:114-122 | as written every call raises AttributeError on the never-assigned `_coord` |
| ZombieGlowing.GlowingParticleSprite.WriteToImage | photonzombie/glowing_particles.py:114-173 | with the coordinate supplied: no bitmap is AttributeError; a sprite wholly beyond an edge sets out_of_frame and leaves the frame unchanged; otherwise the window receives the additive write; the flag is never cleared |
| ColorShifter.InitialState | photonzombie/physics/color.py:22-35 | a missing hue means min_hue; below the minimum starts at the minimum going up, above the maximum at the maximum going down, otherwise where it is going up; with min <= max the start is in range |
| ColorShifter.StepInRange | photonzombie/physics/color.py:38-52 | when two steps fit between the limits, one step from an in-range state stays in range and moves the hue by exactly one step |
| ColorShifter.StepsInRange | photonzombie/physics/color.py:22-52 | from the initial state any number of steps keeps min_hue <= hue <= max_hue and the sign in {-1, +1} |
| ColorShifter.ColorShifter.constructor | photonzombie/physics/color.py:9-35 | the parameters are stored, a missing initial hue becomes min_hue, and hue and sign are the initial state |
| ColorShifter.ColorShifter.AdvanceTime | photonzombie/physics/color.py:38-52 | the hue moves by sign·step when it stays within the limits, else the sign flips and the hue moves one step the other way; an in-range state stays in range when two steps fit |
| ColorShifter.ColorShifter.Hsv | photonzombie/physics/color.py:61-64 | the `hsv` property raises AttributeError, since `_hue` is never set |
| FaceFinder.LandmarksPartition | pyfx/processors/face_finder/face_finder.py:65-71 | the seven landmark ranges lie within [0, 68), cover every point and never overlap |
| FaceFinder.GetLandmarkIndexes | pyfx/processors/face_finder/face_finder.py:100-109 | a known landmark gives its range; any other name is ValueError |
| FaceFinder.Slice | pyfx/processors/face_finder/face_finder.py:126 | numpy's clipped slice `coord[i:j]`: its length is the clipped range and it holds the points from i on |
| FaceFinder.Stack.Append | pyfx/processors/face_finder/face_finder.py:81-87 | one more coordinate set and one more time, on both lists, which stay equally long |
| FaceFinder.NewStack | pyfx/processors/face_finder/face_finder.py:56-63 | a new stack holds exactly one observation at the given time, with the given gap |
| FaceFinder.TimeVisiblePositive | pyfx/processors/face_finder/face_finder.py:227-230 | a stack whose times never decrease is visible for at least one step |
| FaceFinder.FaceStack.constructor | pyfx/processors/face_finder/face_finder.py:56-71 | the new object holds the single given observation and the given gap |
| FaceFinder.FaceStack.Append | pyfx/processors/face_finder/face_finder.py:81-87 | both lists grow by the new observation and stay the same length |
| FaceFinder.FaceStack.CheckFreshness | pyfx/processors/face_finder/face_finder.py:89-98 | true exactly when t minus the last time is at most max_time_gap |
| FaceFinder.FaceStack.TimeVisible | pyfx/processors/face_finder/face_finder.py:227-230 | the last time minus the first plus one, at least 1 when times never decrease |
| FaceFinder.FaceStack.GetLandmark | pyfx/processors/face_finder/face_finder.py:112-128 | an unknown landmark is ValueError; otherwise every observation's time in order and, per observation, the slice for the landmark |
| FaceFinder.Assign | pyfx/processors/face_finder/face_finder.py:288-307 | no stack is lost when faces are assigned |
| FaceFinder.AssignFaces | pyfx/processors/face_finder/face_finder.py:288-307 | the assignment loop: a matched face extends its stack, an unmatched face opens a new stack at the end, a match beyond the stacks of the frame's start is IndexError, and the result is the specification Assign |
| FaceFinder.AssignInRangeSucceeds | pyfx/processors/face_finder/face_finder.py:288-307 | when every match is among the stacks of the frame's start the assignment succeeds, with one new stack per unmatched face |
| FaceFinder.ArgMax | pyfx/processors/face_finder/face_finder.py:297 | the first index holding the maximum of the sequence |
| FaceFinder.ArgMaxAlongFirst | pyfx/processors/face_finder/face_finder.py:297 | `np.argmax(m, axis)[0]`: axis 0 gives the best row of column 0, axis 1 the best column of row 0, any larger axis is AxisError (an IndexError) |
| FaceFinder.MatchAsWritten | pyfx/processors/face_finder/face_finder.py:293-305 | a row peaking at or below p_cutoff matches nothing; a face from the third on with a peak above it raises AxisError; a match found lies in the table and is closer than real_cutoff |
| FaceFinder.MatchIntended | pyfx/processors/face_finder/face_finder.py:293-305 | a match is the stack scoring best in the face's row, above p_cutoff and closer than real_cutoff; no match means the peak or its distance failed a cutoff |
| FaceFinder.MatchAsWrittenCounterexamples | pyfx/processors/face_finder/face_finder.py:297 | face 1 closest to stack 1 is matched to nothing; face 0 of two against one stack is IndexError; face 2 is AxisError; the intended match takes stacks 1, 0 and 0 |
| FaceFinder.IntendedAssignSucceeds | pyfx/processors/face_finder/face_finder.py:288-307 | with intended matches for every face the frame's assignment never fails |
| FaceFinder.AssignStaysFailed | pyfx/processors/face_finder/face_finder.py:288-307 | once one detection fails the frame's result is that failure |
| FaceFinder.AssignWellFormed | pyfx/processors/face_finder/face_finder.py:288-307 | assignment at time t keeps every stack well formed up to t |
| FaceFinder.FrameStepWellFormed | pyfx/processors/face_finder/face_finder.py:265-311 | one frame keeps every active and stale stack well formed, and after a frame with faces every active stack is fresh |
| FaceFinder.TrackWellFormed | pyfx/processors/face_finder/face_finder.py:260-313 | after any frames every kept stack has equal-length lists with ordered times, and after a frame with faces every active stack is fresh |
| FaceFinder.PurgeSplits | pyfx/processors/face_finder/face_finder.py:311-313 | the staleness pass splits the active stacks into active and stale, losing and inventing none |
| FaceFinder.PurgeStale | pyfx/processors/face_finder/face_finder.py:311-313 | the reverse pass keeps the fresh stacks in order and appends the stale ones, highest index first, to the stale list |
| FaceFinder.KeepVisible | pyfx/processors/face_finder/face_finder.py:319-325 | exactly the stacks visible for at least min_time_visible, in order |
| FaceFinder.FaceStacksVisible | pyfx/processors/face_finder/face_finder.py:317-325 | every stack returned carries the requested gap and was visible for at least min_time_visible steps, and for at least 1 |
| FaceFinder.TrackFaces | pyfx/processors/face_finder/face_finder.py:258-325 | frames without faces are skipped, the first faces open stacks, later frames assign and then purge stale stacks; the result is active then stale, filtered by visibility |
| FaceFinder.TrackStaysFailed | pyfx/processors/face_finder/face_finder.py:260-313 | a frame that fails ends the whole run with that failure |
| FaceFinder.FindFaceStacksAsWritten | pyfx/processors/face_finder/face_finder.py:260-262 | the conversion of the first frame raises ValueError, so any non-empty list of frames fails and only an empty one returns no stacks |
| FaceFinder.FindFaceStacks | pyfx/processors/face_finder/face_finder.py:232-325 | the tracked result with max_time_gap as every stack's gap; every stack returned has that gap and was visible for min_time_visible |
| FaceFinder.GapFramesPrefix | pyfx/processors/face_finder/face_finder.py:266-273 | a single face opens one stack, and the frames without faces after it change nothing |
| FaceFinder.FaceStacksGapIgnored | pyfx/processors/face_finder/face_finder.py:272-307 | with stacks built on the default gap of 5, a face seen six steps ago is stale although max_time_gap is 10 |
| FaceFinder.FaceStacksGapPassed | pyfx/processors/face_finder/face_finder.py:272-307 | on the same frames with a gap of 10 handed to each new stack, both stacks stay active |
| ParticlePool.Written | pyfx/sprites/base.py:48-80 | writing every sprite keeps each particle's position, radius and intensity, and leaves its flag set exactly when this write lands off frame, whatever it was before |
| ParticlePool.ClampedRadius | pyfx/physics/particle_collection.py:80-82 | the radius never exceeds radius_max, is the pareto draw plus one when that fits, and is at least 1 for a non-negative draw |
| ParticlePool.NormalizedIntensity | pyfx/effects/glowing_particles.py:130-134 | a zero maximum is ZeroDivisionError; a positive one gives an intensity at most 1, and above 0 for a non-negative draw |
| ParticlePool.Equalized | pyfx/physics/particle_collection.py:147-175 | a target of 0 empties the pool; any other surplus fails, ValueError when it exceeds the pool and AttributeError otherwise; a deficit appends exactly the generated particles; the resulting size is the target rounded |
| ParticlePool.EqualizedMeetsWholeTarget | pyfx/physics/particle_collection.py:152-171 | a whole target of 0, or one at least the pool's size, is met exactly |
| ParticlePool.SurplusIsAttributeError | pyfx/physics/particle_collection.py:161-166 | with a positive target a surplus can never exceed the pool, so it always ends at the missing `reverse` |
| ParticleCollection.VelocityDistAsWritten | pyfx/physics/particle_collection.py:219-258 | the inputs it stores are exactly the accepted ones; a wrong-length list is IndexError and a negative deviation NameError, never ValueError |
| ParticleCollection.VelocityDist | pyfx/physics/particle_collection.py:219-258 | a number v is stored as [0, v, 0, v] and an accepted list in order; anything else is ValueError |
| ParticleCollection.VelocityDistAgrees | pyfx/physics/particle_collection.py:219-258 | as written and as intended store the same list for the same inputs and fail on the same inputs, differing only in the exception |
| ParticleCollection.VelocityDistWrongErrors | pyfx/physics/particle_collection.py:248-249 | a negative sd gives NameError and a two-entry list IndexError as written, ValueError as intended |
| ParticleCollection.VelocityDistStable | pyfx/physics/particle_collection.py:215-258 | storing the list the getter returns is accepted and stores it again |
| ParticleCollection.PurgeKeepsVisible | pyfx/physics/particle_collection.py:132-145 | an entry survives the purge exactly when it was in the pool and is not flagged, by its sprite or else by its position |
| ParticleCollection.PurgeSplits | pyfx/physics/particle_collection.py:132-145 | the kept and removed entries together are the original pool |
| ParticleCollection.ParticleCollection.constructor | pyfx/physics/particle_collection.py:18-71 | the settings are stored, the count rounded and the velocity distribution as the setter stores it; the pool starts empty |
| ParticleCollection.ParticleCollection.SetNumParticles | pyfx/physics/particle_collection.py:211-213 | the stored count is n rounded, within half of n |
| ParticleCollection.ParticleCollection.SetVelocityDist | pyfx/physics/particle_collection.py:219-258 | an accepted input is stored as the setter intends; anything else is ValueError with the old value kept |
| ParticleCollection.ParticleCollection.GeneratedRadius | pyfx/physics/particle_collection.py:78-82 | the radius never exceeds radius_max and is at least 1 for a non-negative draw |
| ParticleCollection.ParticleCollection.ConstructParticles | pyfx/physics/particle_collection.py:113-122 | a given count replaces the recorded one, and then that many generated particles are appended |
| ParticleCollection.ParticleCollection.PurgeInvisible | pyfx/physics/particle_collection.py:124-145 | exactly the flagged entries are removed, the rest keep their order |
| ParticleCollection.ParticleCollection.EqualizeParticles | pyfx/physics/particle_collection.py:147-175 | the pool becomes what Equalized says, or is untouched when it fails |
| ParticleCollection.NewParticleCollection | pyfx/physics/particle_collection.py:18-71 | an input the velocity setter rejects is ValueError; otherwise a fresh, empty pool with rounded count and stored distribution |
| GlowingEffect.Advanced | pyfx/effects/glowing_particles.py:203-212 | every particle is moved to where the physics puts it, and nothing else about it changes |
| GlowingEffect.Purged | pyfx/effects/glowing_particles.py:95-100 | with purging on no particle left is flagged; with it off the pool keeps its size |
| GlowingEffect.TargetCount | pyfx/effects/glowing_particles.py:103-105 | a negative target becomes 0 and any other is kept |
| GlowingEffect.Frame | pyfx/effects/glowing_particles.py:95-113 | a render either fails with the AttributeError of a surplus or leaves a pool whose size is the clamped target rounded |
| GlowingEffect.FrameEmptiesOnZero | pyfx/effects/glowing_particles.py:103-106 | a render whose target is 0 or below leaves no particles |
| GlowingEffect.FrameSetsFlags | pyfx/effects/glowing_particles.py:99-113 | after a render every particle, kept or added, is the particle handed to the write with its flag replaced by whether this render's sprite lands off frame |
| GlowingEffect.GlowingParticles.constructor | pyfx/effects/glowing_particles.py:19-30 | a new effect is not baked and has no particles |
| GlowingEffect.GlowingParticles.BakeAsWritten | pyfx/effects/glowing_particles.py:63-76 | the settings are stored and the clock reset, then the missing `_interpolate_waypoints` raises AttributeError before the pool is emptied or the effect marked baked |
| GlowingEffect.GlowingParticles.Bake | pyfx/effects/glowing_particles.py:32-80 | the settings are stored, the clock is 0, the pool is empty and the effect is baked |
| GlowingEffect.GlowingParticles.GeneratedRadius | pyfx/effects/glowing_particles.py:123-127 | the radius never exceeds radius_max |
| GlowingEffect.GlowingParticles.GeneratedIntensity | pyfx/effects/glowing_particles.py:129-134 | a zero maximum is ZeroDivisionError; a positive one gives an intensity at most 1 |
| GlowingEffect.GlowingParticles.ConstructParticles | pyfx/effects/glowing_particles.py:157-162 | exactly n generated particles are appended, none for a negative n |
| GlowingEffect.GlowingParticles.AdvanceTime | pyfx/effects/glowing_particles.py:203-212 | each particle is moved by the physics, in place, and the pool keeps its order |
| GlowingEffect.GlowingParticles.PurgeInvisible | pyfx/effects/glowing_particles.py:164-171 | exactly the out-of-frame particles are removed, the rest keep their order |
| GlowingEffect.GlowingParticles.EqualizeParticles | pyfx/effects/glowing_particles.py:173-201 | the pool becomes what Equalized says, or is untouched when it fails |
| GlowingEffect.GlowingParticles.WriteSprites | pyfx/effects/glowing_particles.py:108-113 | every sprite is written; each flag is then set exactly when that sprite lands off frame, so a particle back in frame is unflagged |
| GlowingEffect.GlowingParticles.Render | pyfx/effects/glowing_particles.py:82-113 | an unbaked effect bakes with the defaults; time running backwards is ValueError with nothing moved; otherwise the clock moves to t and the pool is the advanced, purged, equalised and written one, or the purged one when a surplus cannot be removed |
| GlowingPool.PoppedPrefix | pyfx/glowing_particles.py:65-72 | among the scanned positions only in-frame particles survive, in order, and the unscanned tail is kept as it was |
| GlowingPool.Replaced | pyfx/glowing_particles.py:65-70 | the pool keeps its length, each flagged particle among the scanned positions is replaced at its own index, and every other is kept |
| GlowingPool.GlowingParticles.constructor | pyfx/glowing_particles.py:19-53 | the settings are stored, the recorded count is 0 and the pool empty |
| GlowingPool.GlowingParticles.GeneratedRadius | pyfx/glowing_particles.py:130-132 | the radius never exceeds radius_max |
| GlowingPool.GlowingParticles.GeneratedIntensity | pyfx/glowing_particles.py:136-139 | a zero maximum is ZeroDivisionError; a positive one gives an intensity at most 1 |
| GlowingPool.GlowingParticles.ConstructParticles | pyfx/glowing_particles.py:76-95 | the recorded count becomes n; with equilibration steps the undefined `num_steps` raises NameError at the first particle, otherwise n generated particles are appended |
| GlowingPool.GlowingParticles.PopFlagged | pyfx/glowing_particles.py:65-72 | the popping pass leaves exactly PoppedPrefix of the pool |
| GlowingPool.GlowingParticles.ReplaceFlagged | pyfx/glowing_particles.py:65-70 | with equilibration steps the first flagged position raises NameError before anything changes; otherwise every flagged scanned particle is regenerated in place |
| GlowingPool.GlowingParticles.PurgeInvisible | pyfx/glowing_particles.py:55-74 | a recorded count above the pool's length is IndexError; otherwise the pool is popped or replaced as asked, and afterwards the recorded count equals the pool's length |
| GlowingPool.GlowingParticles.WriteOut | pyfx/glowing_particles.py:108-118 | every sprite is written; each flag is then set exactly when that sprite lands off frame, so a particle back in frame is unflagged |
| GlowingPool.PoppedPrefixSplit | pyfx/glowing_particles.py:65-74 | popping keeps the in-frame particles of the scanned prefix and the whole tail; a pass over the whole pool keeps exactly the in-frame particles |
| GlowingPool.PurgeLeavesNoneFlagged | pyfx/glowing_particles.py:65-72 | after a pass over the whole pool no particle is flagged, when popping and when replacing with in-frame particles |
| ParticlesUtil.Blocks | photonzombie/particles/util.py:6 | ceil(dim/c) blocks of c cover dim with less than one block to spare |
| ParticlesUtil.CeilCovers | photonzombie/particles/util.py:6 | ceil(dim/c) is non-negative, that many blocks of c reach dim, and one block fewer falls short |
| ParticlesUtil.PaddedDim | photonzombie/particles/util.py:5-6 | the padded extent is a multiple of c, at least dim and less than dim + c |
| ParticlesUtil.Padded | photonzombie/particles/util.py:9-10 | the padded array has the padded extents, holds the input at the top left and zeros everywhere else |
| ParticlesUtil.BlockSums | photonzombie/particles/util.py:13-22 | one entry per block, each the sum over its c×c rectangle |
| ParticlesUtil.DecodeFlat | photonzombie/particles/world.py:44-46 | the decoded cell re-encodes to the flat position, with the column below the column count |
| ParticlesUtil.DecodeFlatInverse | photonzombie/particles/world.py:45-46 | decoding a row-major position gives back the cell it came from |
| ParticlesUtil.DecodeFlatInGrid | photonzombie/particles/world.py:44-46 | a position inside the grid decodes to a row inside it |
| ParticlesUtil.Centres | photonzombie/particles/util.py:16-20 | one centre per block |
| ParticlesUtil.CentreOfBlock | photonzombie/particles/util.py:16-20 | block (i, j) sits at row-major position i·n + j with centre (i·c + c/2, j·c + c/2) |
| ParticlesUtil.CentresDistinct | photonzombie/particles/util.py:16-20 | no two blocks share a centre |
| ParticlesUtil.CoarseGrain | photonzombie/particles/util.py:2-22 | the block-sum grid has ceil(h/c)×ceil(w/c) cells and there is one centre per cell |
| ParticlesUtil.CoarseGrainCell | photonzombie/particles/util.py:12-14 | each output cell is the sum, not the average, of the input block under it, padding counting as 0 |
| ParticlesUtil.PaddedAgrees | photonzombie/particles/util.py:9-10 | every rectangle sums the same in the padded array as in the input |
| ParticlesUtil.BlockRowSum | photonzombie/particles/util.py:13-22 | one band's block sums add up to the band's sum |
| ParticlesUtil.BlockSumsTotal | photonzombie/particles/util.py:13-22 | all block sums add up to the sum over the tiled rectangle |
| ParticlesUtil.CoarseGrainTotal | photonzombie/particles/util.py:9-22 | coarse-graining keeps the total of the input |
| ParticlesUtil.RandomPareto | photonzombie/particles/util.py:25-35 | the result never exceeds the maximum, and is at least the minimum for a non-negative draw |
| ParticlesUtil.LookupGlobal | photonzombie/particles/util.py:1-2 | a name evaluates exactly when the module binds it, and is NameError otherwise |
| ParticlesUtil.CoarseGrainAsWritten | photonzombie/particles/util.py:5 | as written every call raises NameError at `np`, which the module never imports |
| ParticlesUtil.RandomParetoAsWritten | photonzombie/particles/util.py:31 | as written every call raises NameError at `np`, whatever the arguments |
| ZombieWorld.AxisCentres | photonzombie/world.py:20-21 | m centres k·c + c/2 along one axis |
| ZombieWorld.CoarseGrainAxes | photonzombie/world.py:5-23 | one centre per block along each axis, and a block-sum grid of that many rows and columns |
| ZombieWorld.CoarseGrainAxesAgree | photonzombie/world.py:5-23 | this copy gives the same block sums as the newer one, and the newer one's row-major centre list is the grid its two axis arrays span |
| ZombieWorld.CoarseGrainAxesTotal | photonzombie/world.py:11-23 | the returned block sums keep the input's total |
| ZombieWorld.ParticleCount | photonzombie/world.py:57-60 | a given count is used as is; otherwise the count is within one half of density·Σw |
| ZombieWorld.CreateParticlesAsWritten | photonzombie/world.py:46-70 | nothing to make returns no particles; otherwise an empty weight array is ValueError and any other raises NameError at the unimported `particle` |
| ZombieWorld.CreateParticlesAsWrittenFails | photonzombie/world.py:69 | one particle on a one-cell field already raises NameError |
| ZombieWorld.CreateParticles | photonzombie/world.py:46-77 | a positive count with no cell is ValueError; otherwise max(0, count) particles, the k-th at the cell its sampled flat index decodes to, which re-encodes to that index |
| ParticlesWorld.World.constructor | photonzombie/particles/world.py:33-37 | a new world stores its force scale and has no weights and no particles |
| ParticlesWorld.World.AddParticle | photonzombie/particles/world.py:39-49 | with no cell to draw from the draw is ValueError and nothing changes; otherwise a particle is appended at the decoded cell, which re-encodes to the drawn position, and its `create_particle` then raises NameError |
| ParticlesWorld.World.CreateParticles | photonzombie/particles/world.py:98-122 | the settings and weights are stored and the count is the given one or round(density·Σw); it returns normally exactly when the count is at most 0, with no particles; otherwise no cell is ValueError with no particles, and any other field raises NameError with one particle, at the cell the first draw decodes to |

## Left out

- Randomness. Pareto, normal and `choice` draws, `sample_coord`, the shaking trajectory and `harmonic_langenvin` (pyfx/util/process.py:31-127) are not modelled; the drawn values are parameters.
- Physics and scoring. Particle integrators (`advance_time`, `apply_forces`, `_apply_foces`) are not modelled; nor are the potentials, the Boltzmann weights `exp(beta·diff)`, the World's `_update_potential`/`_update_forces`, the 50 equilibration steps of photonzombie/world.py, face distances and likelihoods, and cubic centroid interpolation. Where the code moves a particle, the new position is a parameter.
- Library pixel work. PIL's `alpha_composite`, HSV conversion, blur, erosion, drawing, `interp1d`, `optimize.minimize`, rotate and resize are library calls; compositing is the uninterpreted `over` parameter, and rasterised sprite bitmaps are inputs.
- I/O. Image and spreadsheet loading, `to_image`, `to_file`, `_from_file`, `_image_to_array`, `_convert_channels`, output directories, `print` and `sys.stdout`, and the Background file of the World are left out; loaded images are parameters.
- Floating point. Reals stand for numpy floats, so rounding error is not modelled, and the NumPy aliases `np.int` and `np.float` are taken to exist, as they did when the code was written.
- `render_moves` past its checks (pyfx/effects/virtual_camera.py:132-256) is not modelled beyond the move plan: waypoint interpolation, the optimiser, rotation, resizing and the writing of each frame are library calls and I/O. `VirtualCamera.Camera.PrepareMoves` and `VirtualCamera.FrameCrops` model the arithmetic around them.
- Photostream: the reload of the sheet when the DataFrame changes (pyfx/core/photostream.py:101-102) is not modelled, because DataFrame equality is a library call.
- Photostream.PhotoStream.ParseDf: models `_parse_df` with a `to_array` that works (otherwise it always fails, see ParseDfAsWritten); an image's shape is a parameter of its row.
- FaceFinder: `get_dist`, `get_centroid`, `get_hull`, `available_landmarks` and the dlib `FaceFinder.detect` are library work; the scoring's match for each face is an input (`Detection.matched`). The tracking takes it to be the intended match of FaceFinder.MatchIntended; the as-written choice of `j` is FaceFinder.MatchAsWritten, which the tracking does not use.
- FaceFinder.FindFaceStacks: modelled on stack values held by exactly one list, rather than on shared `FaceStack` objects; it assumes a working `to_array`, as FindFaceStacksAsWritten shows the code does not have.
- GlowingEffect.GlowingParticles.Render: does not model the final scaling of the alpha channel by `alpha[t]` and the composite onto the input frame (pyfx/effects/glowing_particles.py:115-116); it models the clock and the pool.
- GlowingEffect.GlowingParticles.Bake: the interpolation of the waypoints into per-time `num_particles`, `potentials` and `alpha` is left out (the method it calls is defined nowhere); the interpolated count is the `target` parameter of Render.
- Effect base: the model starts `_waypoints` at `{0: defaults}`, because `__init__` never creates it.
- Setters that only convert and store (`particle_density`, `radius_pareto`, `radius_max`, `sample_which_potential`, `purge`, `num_equilibrate_steps`, `_dimensions`): the converted values are constructor arguments.
- Crop.Expand: requires non-negative expansion amounts (a negative one slices from the other end, which the model does not follow). It describes the cell contents only on plain axes, those without a trailing amount of 0: there `[a:-0]` is empty and `[-0:]` spans the whole axis, and then numpy broadcasting, not mirroring, decides what is written. The values of the corner blocks are stated by Crop.FillCorner, as the composite of each block with itself, but they are not carried up to Expand's contract.
- Crop.PanCrop: requires a positive width and height, which the source divides by.
- Crop.RotateCrop: requires the denominators of the trigonometric formula to be nonzero, and takes `sin` as a parameter.
- ParticlesUtil.CoarseGrain: requires a coarseness above 0. With 0 the float division gives inf, the padded array has no cells, and assigning a non-empty input into it raises ValueError; that path is not modelled.
- ParticlesWorld.World.CreateParticles: modelled as written, so every particle after the first is never made. With numpy imported in photonzombie/particles/util.py the loop would go on to add one particle per draw, as ZombieWorld.CreateParticles states for the other World; that corrected World is not modelled separately.
- ZombieGlowing: photonzombie/glowing_particles.py cannot be imported as written (ZombieGlowing.ImportAsWritten); its sprite class is modelled as it would run with numpy imported.
- photonzombie/particles/collection.py does not parse (line 16) and is not part of this model.
- `VideoClip` is not part of this model: a clip is a value giving its name, shape, length and whether it is exactly a `pyfx.VideoClip`, and its frames are a parameter.
- ColorShifter.ColorShifter.Hsv: modelled as written only; it reads the never-assigned `_hue` and raises AttributeError, and the intended value is a library conversion.
- GlowingPool.GlowingParticles.ConstructParticles: modelled as written; with equilibration steps it passes the undefined `num_steps` and raises NameError. Without them the particles are built, which is the path the rest of the model uses.
- The comments that disagree with the code: coarse-graining sums each block, where the comment says it averages (photonzombie/particles/util.py:12). The `write_to_image` docstring of photonzombie/particles/particle.py says it advances time, and the code does not. The model follows the code.

## Findings

| source | as written | input that shows it | evidently intended | confidence | as-written member | corrected member |
|---|---|---|---|---|---|---|
| pyfx/core/multiclip.py:213-219 | the adjacent raise pops and inserts at the clip's registration index | order [1, 0, 2], raise clip 0: clip 0 goes down; order [0, 2, 1], raise clip 2: IndexError with one entry lost | swap the clip's layer with the one above | high, not executed | Multiclip.RaiseSwapAsWrittenCounterexamples | Multiclip.MultiClip.RaiseClip, Multiclip.RaiseMovesClipUp |
| pyfx/core/multiclip.py:265 | an out-of-range layer reaches `except IndexErrror` | `set_clip_layer(0, 5)` on a one-clip stack raises NameError | ValueError "layer not found" | high, not executed | Multiclip.SetClipLayerOutOfRangeIsNameError | Multiclip.SetClipLayerCheck |
| pyfx/core/multiclip.py:112 | a clip's frame is fetched at t + start | a clip starting at 10 with 5 frames, at t = 12, is asked for frame 22 | t - start, the time inside the clip | medium, not executed | Multiclip.FrameTimeAsWrittenOverruns | Multiclip.FrameTime, Multiclip.FrameTimeInClip |
| pyfx/effects/base.py:83-88 | `remove_waypoint(0)` resets waypoint 0 and then pops it | after `remove_waypoint(0)`, adding a waypoint before the first remaining time fails with KeyError | keep 0 as the defaults | high, not executed | EffectBase.RemoveZeroAsWrittenDeletesIt | EffectBase.Effect.RemoveWaypoint |
| pyfx/util/process.py:27-29 | a window that rounds to 1 gives trim 0, and `[0:-0]` is empty | `smooth([1, 2, 3], 1)` returns [] | a window of 1 returns the signal | high, not executed | Smooth.SmoothAsWritten, Smooth.WindowOneIsEmpty | Smooth.Smooth, Smooth.SmoothWindowOneIsIdentity |
| pyfx/util.py:69 | `alpha_composite` tests the undefined name `a` | any two images raise NameError | test `bottom` | high, not executed | LegacyUtil.AlphaCompositeAsWritten, LegacyUtil.AlphaCompositeAsWrittenRejectsValid | Convert.AlphaComposite, Convert.AlphaCompositeOutcome |
| pyfx/util/convert.py:40-42 | the guard `not in FLOAT or not in INT` holds for every dtype | `to_array(f, dtype=np.uint8)` raises ValueError, so `_parse_df` (pyfx/core/photostream.py:163) and `find_face_stacks` (pyfx/processors/face_finder/face_finder.py:262) fail on their first input | reject a dtype that is neither integer nor float | high, not executed | Convert.ToArrayAlwaysRejects | Convert.ToArrayGuard |
| pyfx/core/photostream.py:163 | every image is loaded through the always-failing `to_array` | a one-row sheet raises ValueError | load each image | high, not executed | Photostream.PhotoStream.ParseDfAsWritten | Photostream.PhotoStream.ParseDf |
| pyfx/processors/face_finder/face_finder.py:262 | every frame is converted through the always-failing `to_array` | one frame raises ValueError | convert the frame and detect faces | high, not executed | FaceFinder.FindFaceStacksAsWritten | FaceFinder.FindFaceStacks |
| pyfx/processors/face_finder/face_finder.py:272-307 | new stacks are built with the default gap 5, ignoring `max_time_gap` | with max_time_gap = 10, a face seen at 0 is already stale at 6 | hand `max_time_gap` to each new stack | high, not executed | FaceFinder.FaceStacksGapIgnored | FaceFinder.FindFaceStacks, FaceFinder.FaceStacksGapPassed |
| pyfx/core/photostream.py:104-110 | the index is stored in `internal_t`, and `internal_time` is read; `t == max_time` passes the end test and indexes past the timeline | any in-range frame raises NameError; t = max_time raises IndexError | use `internal_t`, and return None from max_time on | high, not executed | Photostream.PhotoStream.GetFrameAsWritten | Photostream.PhotoStream.GetFrame, Photostream.PhotoStream.ParsedFrame |
| pyfx/core/photostream.py:76 | `sys` is never imported | any non-empty interval raises NameError at its first frame | import `sys` | high, not executed | Photostream.PhotoStream.RenderAsWritten | Photostream.PhotoStream.Render |
| pyfx/effects/virtual_camera.py:130 | the image is loaded with `pyfx.util.convert.from_file`, which does not exist | any call that passes the checks raises AttributeError | `_from_file` | high, not executed | VirtualCamera.Camera.RenderMovesAsWritten | VirtualCamera.Camera.PrepareMoves |
| photonzombie/glowing_particles.py:120-122 | `write_to_image` reads `self._coord`, which nothing assigns | any call raises AttributeError | the particle's coordinate | high, not executed | ZombieGlowing.GlowingParticleSprite.WriteToImageAsWritten | ZombieGlowing.GlowingParticleSprite.WriteToImage |
| pyfx/physics/particle_collection.py:248-249 | a wrong-length list reaches `new_velocity_dist[1]`, and a negative sd reaches `mangled = rue` | `velocity_dist = [0, 1]` raises IndexError; `velocity_dist = -1` raises NameError | ValueError for both | high, not executed | ParticleCollection.VelocityDistAsWritten, ParticleCollection.VelocityDistWrongErrors | ParticleCollection.VelocityDist, ParticleCollection.VelocityDistAgrees |
| pyfx/effects/glowing_particles.py:76 | `bake` calls `_interpolate_waypoints`, which no class defines | any `bake()`, and so any render of an unbaked effect, raises AttributeError | interpolate the waypoints, then empty the pool and mark it baked | high, not executed | GlowingEffect.GlowingParticles.BakeAsWritten | GlowingEffect.GlowingParticles.Bake |
| photonzombie/world.py:69 | particles are built through `particle.Particle()`, and `particle` is never imported | one particle on a one-cell field raises NameError | import the particle module | high, not executed | ZombieWorld.CreateParticlesAsWritten, ZombieWorld.CreateParticlesAsWrittenFails | ZombieWorld.CreateParticles |
| photonzombie/glowing_particles.py:2 | the default `maximum=np.inf` needs numpy, and the module imports nothing | `import photonzombie.glowing_particles` raises NameError at line 2 | `import numpy as np` at the top of the module | high, not executed | ZombieGlowing.ImportAsWritten | ZombieGlowing.GlowingPareto |
| photonzombie/particles/util.py:31 | the module uses `np` and never imports numpy | `random_pareto(1)`, or `World.create_particles` with one particle and no radius given, raises NameError | `import numpy as np` at the top of the module | high, not executed | ParticlesUtil.RandomParetoAsWritten, ParticlesUtil.CoarseGrainAsWritten | ParticlesUtil.RandomPareto, ParticlesUtil.CoarseGrainTotal |
| pyfx/processors/face_finder/face_finder.py:297 | `np.argmax(face_score, i)[0]` passes the face index i as the axis | two faces closest to stacks 0 and 1: face 1 is compared with stack 0 and opens a new stack; two faces and one stack: face 0 gives j = 1 and `face_dist[0, 1]` raises IndexError; a third face raises AxisError | `np.argmax(face_score[i, :])`, the best stack for face i | high, not executed | FaceFinder.MatchAsWritten, FaceFinder.MatchAsWrittenCounterexamples | FaceFinder.MatchIntended, FaceFinder.IntendedAssignSucceeds |
