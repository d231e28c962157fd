/** pyfx.processors.face_finder: stacks of facial landmarks observed over time, and the
    bookkeeping of `find_face_stacks` that sorts stacks into active and stale ones. The
    dlib detector, the distance and likelihood scores and the interpolation, hull and
    drawing helpers are outside the model; the detector's faces and the scoring's match
    for each face are inputs. */
module FaceFinder {
  import opened Common
  import opened Convert
  import opened Raster

  /** The 68 (x, y) landmark points of one detected face. */
  type Coords = seq<(int, int)>

  /** `_landmark_indexes`: the half-open index range of each landmark. */
  const Landmarks: map<string, (int, int)> := map[
    "jaw" := (0, 17), "right_eyebrow" := (17, 22), "left_eyebrow" := (22, 27),
    "nose" := (27, 36), "right_eye" := (36, 42), "left_eye" := (42, 48), "mouth" := (48, 68)]

  /** The landmark ranges partition the 68 points: every range lies within [0, 68), every
      point lies in some range, and in no more than one. */
  lemma LandmarksPartition(k: int)
    ensures forall a :: a in Landmarks ==> 0 <= Landmarks[a].0 < Landmarks[a].1 <= 68
    ensures 0 <= k < 68 ==> exists a :: a in Landmarks && Landmarks[a].0 <= k < Landmarks[a].1
    ensures forall a, b :: (a in Landmarks && b in Landmarks && Landmarks[a].0 <= k < Landmarks[a].1
      && Landmarks[b].0 <= k < Landmarks[b].1) ==> a == b
  {
    if 0 <= k < 68 {
      var a :=
        if k < 17 then "jaw" else if k < 22 then "right_eyebrow" else if k < 27 then "left_eyebrow"
        else if k < 36 then "nose" else if k < 42 then "right_eye" else if k < 48 then "left_eye" else "mouth";
      assert a in Landmarks && Landmarks[a].0 <= k < Landmarks[a].1;
    }
  }

  /** `_get_landmark_indexes`: the range of a known landmark, ValueError otherwise. */
  function GetLandmarkIndexes(landmark: string): (r: Result<(int, int)>)
    ensures r.Ok? <==> landmark in Landmarks
    ensures r.Ok? ==> r.value == Landmarks[landmark] && 0 <= r.value.0 <= r.value.1
    ensures r.Err? ==> r.error == ValueError
  {
    if landmark in Landmarks then Ok(Landmarks[landmark]) else Err(ValueError)
  }

  /** numpy's `coord[i:j]` for 0 <= i <= j: the bounds are clipped to the length. */
  function Slice(c: Coords, i: nat, j: nat): (r: Coords)
    requires i <= j
    ensures |r| == Min(j, |c|) - Min(i, |c|)
    ensures forall k :: 0 <= k < |r| ==> r[k] == c[i + k]
  {
    c[Min(i, |c|)..Min(j, |c|)]
  }

  /** The state of one FaceStack: its observations, their times, and the gap after
      which it counts as stale. */
  datatype Stack = Stack(coords: seq<Coords>, times: seq<int>, gap: int) {
    predicate Valid() {
      |coords| == |times| >= 1
    }

    function Append(c: Coords, t: int): (s: Stack)
      ensures s.coords == coords + [c] && s.times == times + [t] && s.gap == gap
      ensures Valid() ==> s.Valid()
    {
      Stack(coords + [c], times + [t], gap)
    }

    /** `check_freshness(t)`: the last observation is at most `gap` time steps old. */
    predicate Fresh(t: int)
      requires Valid()
    {
      t - times[|times| - 1] <= gap
    }

    /** `time_visible`: the span from the first to the last observation, inclusive. */
    function TimeVisible(): int
      requires Valid()
    {
      times[|times| - 1] - times[0] + 1
    }
  }

  /** `FaceStack(face_coords, current_time, max_time_gap)`: one observation. */
  function NewStack(c: Coords, t: int, gap: int): (s: Stack)
    ensures s.Valid() && s.coords == [c] && s.times == [t] && s.gap == gap
  {
    Stack([c], [t], gap)
  }

  /** A stack whose times never decrease is visible for at least one time step. */
  lemma TimeVisiblePositive(s: Stack)
    requires s.Valid()
    ensures SortedAsc(s.times) ==> s.TimeVisible() >= 1
  {
    if SortedAsc(s.times) {
      assert s.times[0] <= s.times[|s.times| - 1];
    }
  }

  class FaceStack {
    var faceCoord: seq<Coords>
    var faceTime: seq<int>
    const maxTimeGap: int

    function Value(): Stack
      reads this`faceCoord, this`faceTime
    {
      Stack(faceCoord, faceTime, maxTimeGap)
    }

    constructor(faceCoords: Coords, currentTime: int, maxTimeGap: int)
      ensures Value() == NewStack(faceCoords, currentTime, maxTimeGap)
    {
      faceCoord := [faceCoords];
      faceTime := [currentTime];
      this.maxTimeGap := maxTimeGap;
    }

    /** `append`: one more observation, on both lists. */
    method Append(c: Coords, t: int)
      modifies this`faceCoord, this`faceTime
      ensures Value() == old(Value()).Append(c, t)
      ensures old(Value()).Valid() ==> Value().Valid()
    {
      faceCoord := faceCoord + [c];
      faceTime := faceTime + [t];
    }

    /** `check_freshness(t)`. */
    function CheckFreshness(t: int): (r: bool)
      reads this`faceCoord, this`faceTime
      requires Value().Valid()
      ensures r <==> t - faceTime[|faceTime| - 1] <= maxTimeGap
    {
      Value().Fresh(t)
    }

    /** `time_visible`; at least 1 when the times never decrease. */
    function TimeVisible(): (r: int)
      reads this`faceCoord, this`faceTime
      requires Value().Valid()
      ensures r == faceTime[|faceTime| - 1] - faceTime[0] + 1
      ensures SortedAsc(faceTime) ==> r >= 1
    {
      TimeVisiblePositive(Value());
      Value().TimeVisible()
    }

    /** `get_landmark(landmark)`: the observation times, and for each observation the
        slice of points that belongs to the landmark; ValueError for an unknown name. */
    method GetLandmark(landmark: string) returns (r: Result<(seq<int>, seq<Coords>)>)
      requires Value().Valid()
      ensures r.Err? <==> landmark !in Landmarks
      ensures r.Err? ==> r.error == ValueError
      ensures r.Ok? ==> (r.value.0 == faceTime && |r.value.1| == |faceCoord|
        && forall k :: 0 <= k < |faceCoord| ==> r.value.1[k] == Slice(faceCoord[k], Landmarks[landmark].0, Landmarks[landmark].1))
    {
      var ij := GetLandmarkIndexes(landmark);
      if ij.Err? {
        return Err(ij.error);
      }
      var i, j := ij.value.0, ij.value.1;
      var t: seq<int> := [];
      var out: seq<Coords> := [];
      for k := 0 to |faceCoord|
        invariant t == faceTime[..k]
        invariant |out| == k && forall k' :: 0 <= k' < k ==> out[k'] == Slice(faceCoord[k'], i, j)
      {
        t := t + [faceTime[k]];
        out := out + [Slice(faceCoord[k], i, j)];
      }
      assert faceTime[..|faceCoord|] == faceTime;
      return Ok((t, out));
    }
  }

  // ---------------------------------------------------------------------------
  // find_face_stacks, on stack values (each stack is held by exactly one list)
  // ---------------------------------------------------------------------------

  /** `FaceStack(nf, t)` as `find_face_stacks` calls it: the constructor's default gap. */
  const DefaultGap := 5

  /** A detected face, with the active stack the scoring matched it to (None when no
      stack was close enough). */
  datatype Detection = Detection(face: Coords, matched: Option<nat>)

  /** The assignment loop of one frame at time t, up to its last detection: a matched
      face extends its stack, an unmatched one opens a new stack at the end, and a match
      beyond the stacks the frame started with raises IndexError, since `face_dist` has
      one column per stack at the start of the frame. */
  function Assign(active: seq<Stack>, faces: seq<Detection>, t: int, gap: int): (r: Result<seq<Stack>>)
    ensures r.Ok? ==> |r.value| >= |active|
  {
    if faces == [] then Ok(active)
    else
      var prev := Assign(active, faces[..|faces| - 1], t, gap);
      var f := faces[|faces| - 1];
      if prev.Err? then prev
      else if f.matched.None? then Ok(prev.value + [NewStack(f.face, t, gap)])
      else if f.matched.value < |active| then Ok(prev.value[f.matched.value := prev.value[f.matched.value].Append(f.face, t)])
      else Err(IndexError)
  }

  /** With every match inside the stacks of the frame's start, the assignment never
      fails, and it adds one stack per unmatched face. */
  lemma {:induction false} AssignInRangeSucceeds(active: seq<Stack>, faces: seq<Detection>, t: int, gap: int)
    requires forall k :: 0 <= k < |faces| && faces[k].matched.Some? ==> faces[k].matched.value < |active|
    ensures var r := Assign(active, faces, t, gap);
      r.Ok? && |r.value| == |active| + Unmatched(faces)
  {
    if faces != [] {
      var init := faces[..|faces| - 1];
      assert forall k :: 0 <= k < |init| ==> init[k] == faces[k];
      AssignInRangeSucceeds(active, init, t, gap);
      assert Unmatched(faces) == Unmatched(init) + (if faces[|faces| - 1].matched.None? then 1 else 0);
    }
  }

  /** The number of faces the scoring matched to no stack. */
  function Unmatched(faces: seq<Detection>): nat {
    if faces == [] then 0
    else Unmatched(faces[..|faces| - 1]) + (if faces[|faces| - 1].matched.None? then 1 else 0)
  }

  /** `np.argmax` of a non-empty sequence: the first index holding the maximum. */
  function ArgMax(s: seq<real>): (k: nat)
    requires s != []
    ensures k < |s| && s[k] == MaxOf(s)
    ensures forall i :: 0 <= i < |s| ==> s[i] <= s[k]
    ensures forall i :: 0 <= i < k ==> s[i] < s[k]
  {
    if |s| == 1 then 0
    else
      var k := ArgMax(s[1..]);
      if s[0] >= s[1..][k] then 0 else k + 1
  }

  /** `np.argmax(m, axis)[0]` on a matrix with a row and a column: along axis 0 numpy
      takes the argmax of every column and `[0]` keeps column 0's, a row index; along
      axis 1 it keeps row 0's, a column index; a matrix has no further axis, and numpy's
      AxisError is an IndexError. */
  function ArgMaxAlongFirst(m: seq<seq<real>>, axis: nat): (r: Result<nat>)
    requires m != [] && Rect(m) && Width(m) > 0
    ensures axis == 0 ==> r.Ok? && r.value < |m| && forall i :: 0 <= i < |m| ==> m[i][0] <= m[r.value][0]
    ensures axis == 1 ==> r.Ok? && r.value < Width(m) && forall j :: 0 <= j < Width(m) ==> m[0][j] <= m[0][r.value]
    ensures axis >= 2 ==> r == Err(IndexError)
  {
    if axis == 0 then
      var column := seq(|m|, i requires 0 <= i < |m| => m[i][0]);
      var k := ArgMax(column);
      assert forall i :: 0 <= i < |m| ==> m[i][0] == column[i] <= column[k] == m[k][0];
      Ok(k)
    else if axis == 1 then Ok(ArgMax(m[0]))
    else Err(IndexError)
  }

  /** The scores and distances of one frame: a row per new face and a column per stack
      active at the frame's start, face i being one of the rows. */
  predicate ScoreTable(score: seq<seq<real>>, dist: seq<seq<real>>, i: nat) {
    i < |score| && Rect(score) && Width(score) > 0 && IsGrid(dist, |score|, Width(score))
  }

  /** The match of face i as written: when row i of the scores peaks above `p_cutoff`,
      `j = np.argmax(face_score, i)[0]` passes i as the axis, and the face joins stack j
      when `face_dist[i, j]` is below `real_cutoff`. */
  function MatchAsWritten(score: seq<seq<real>>, dist: seq<seq<real>>, i: nat, pCutoff: real, realCutoff: real): (r: Result<Option<nat>>)
    requires ScoreTable(score, dist, i)
    ensures MaxOf(score[i]) <= pCutoff ==> r == Ok(None)
    ensures i >= 2 && MaxOf(score[i]) > pCutoff ==> r == Err(IndexError)
    ensures r.Ok? && r.value.Some? ==> r.value.value < Width(score) && dist[i][r.value.value] < realCutoff
  {
    if MaxOf(score[i]) > pCutoff then
      var j := ArgMaxAlongFirst(score, i);
      if j.Err? then Err(j.error)
      else if j.value >= Width(dist) then Err(IndexError)
      else if dist[i][j.value] < realCutoff then Ok(Some(j.value))
      else Ok(None)
    else Ok(None)
  }

  /** The match evidently intended: the stack scoring best in row i, taken when that
      score exceeds `p_cutoff` and its distance is below `real_cutoff`. */
  function MatchIntended(score: seq<seq<real>>, dist: seq<seq<real>>, i: nat, pCutoff: real, realCutoff: real): (r: Option<nat>)
    requires ScoreTable(score, dist, i)
    ensures r.Some? ==> (r.value < Width(score) && dist[i][r.value] < realCutoff && score[i][r.value] > pCutoff
      && forall k :: 0 <= k < Width(score) ==> score[i][k] <= score[i][r.value])
    ensures r.None? ==> MaxOf(score[i]) <= pCutoff || dist[i][ArgMax(score[i])] >= realCutoff
  {
    var j := ArgMax(score[i]);
    if MaxOf(score[i]) > pCutoff && dist[i][j] < realCutoff then Some(j) else None
  }

  /** Two stacks whose faces reappear in order: face 1 is closest to stack 1, but as
      written its `j` is row 0's best, stack 0, which is far, so face 1 opens a new stack.
      With two faces and one stack, face 0's `j` is a face index, 1, and `face_dist[0, 1]`
      is IndexError; a third face passes 2 as the axis, AxisError. The intended match
      takes stack 1, stack 0 and stack 0. */
  lemma MatchAsWrittenCounterexamples()
    ensures var score, dist := [[0.9, 0.1], [0.1, 0.9]], [[0.1, 5.0], [5.0, 0.1]];
      MatchAsWritten(score, dist, 1, 0.5, 1.0) == Ok(None) && MatchIntended(score, dist, 1, 0.5, 1.0) == Some(1)
    ensures var score, dist := [[0.3], [0.7]], [[0.1], [0.1]];
      MatchAsWritten(score, dist, 0, 0.2, 1.0) == Err(IndexError) && MatchIntended(score, dist, 0, 0.2, 1.0) == Some(0)
    ensures var score, dist := [[0.8], [0.1], [0.1]], [[0.1], [0.1], [0.1]];
      MatchAsWritten(score, dist, 2, 0.05, 1.0) == Err(IndexError) && MatchIntended(score, dist, 2, 0.05, 1.0) == Some(0)
  {
    var s1 := [[0.9, 0.1], [0.1, 0.9]];
    assert s1[1][1..] == [0.9];
    assert s1[0][1..] == [0.1];
    var s2 := [[0.3], [0.7]];
    assert seq(|s2|, i requires 0 <= i < |s2| => s2[i][0]) == [0.3, 0.7];
    assert [0.3, 0.7][1..] == [0.7];
  }

  /** With intended matches for every face the frame's assignment never fails. */
  lemma IntendedAssignSucceeds(active: seq<Stack>, faces: seq<Detection>, t: int, gap: int,
                               score: seq<seq<real>>, dist: seq<seq<real>>, pCutoff: real, realCutoff: real)
    requires |score| == |faces| && |active| > 0 && (faces != [] ==> ScoreTable(score, dist, 0)) && Width(score) == |active|
    requires forall k :: 0 <= k < |faces| ==> faces[k].matched == MatchIntended(score, dist, k, pCutoff, realCutoff)
    ensures Assign(active, faces, t, gap).Ok?
  {
    forall k | 0 <= k < |faces| && faces[k].matched.Some?
      ensures faces[k].matched.value < |active|
    {
      assert ScoreTable(score, dist, k);
    }
    AssignInRangeSucceeds(active, faces, t, gap);
  }

  /** The freshness test of the reverse pass, and its negation. */
  function FreshAt(t: int): Stack -> bool {
    (s: Stack) => s.Valid() && s.Fresh(t)
  }

  function StaleAt(t: int): Stack -> bool {
    (s: Stack) => !(s.Valid() && s.Fresh(t))
  }

  /** The reverse pass: fresh stacks stay active in their order; stale ones are popped
      from the highest index down, so they join the stale list in reverse order. */
  function Purge(active: seq<Stack>, t: int): (p: (seq<Stack>, seq<Stack>)) {
    (Filter(active, FreshAt(t)), Reverse(Filter(active, StaleAt(t))))
  }

  /** One frame at time t: a frame without faces changes nothing (the staleness pass is
      skipped too); with no active stack every face opens one; otherwise the faces are
      assigned and the stale stacks move to the stale list. */
  function FrameStep(state: (seq<Stack>, seq<Stack>), faces: seq<Detection>, t: int, gap: int): (r: Result<(seq<Stack>, seq<Stack>)>) {
    if |faces| == 0 then Ok(state)
    else if |state.0| == 0 then Ok((seq(|faces|, i requires 0 <= i < |faces| => NewStack(faces[i].face, t, gap)), state.1))
    else
      var a := Assign(state.0, faces, t, gap);
      if a.Err? then Err(a.error)
      else Ok((Purge(a.value, t).0, state.1 + Purge(a.value, t).1))
  }

  /** The active and stale stacks after the frames so far; frame k is at time k. */
  function Track(frames: seq<seq<Detection>>, gap: int): (r: Result<(seq<Stack>, seq<Stack>)>) {
    if frames == [] then Ok(([], []))
    else
      var prev := Track(frames[..|frames| - 1], gap);
      if prev.Err? then prev else FrameStep(prev.value, frames[|frames| - 1], |frames| - 1, gap)
  }

  function VisibleFor(minTimeVisible: int): Stack -> bool {
    (s: Stack) => s.Valid() && s.TimeVisible() >= minTimeVisible
  }

  /** The result: active then stale stacks, keeping those visible long enough. */
  function FaceStacks(frames: seq<seq<Detection>>, gap: int, minTimeVisible: int): (r: Result<seq<Stack>>) {
    var tr := Track(frames, gap);
    if tr.Err? then Err(tr.error) else Ok(Filter(tr.value.0 + tr.value.1, VisibleFor(minTimeVisible)))
  }

  /** A well-formed stack up to time t: observation lists of equal, positive length,
      the given gap, and times that never decrease between 0 and t. */
  predicate WellFormed(s: Stack, gap: int, t: int) {
    s.Valid() && s.gap == gap && SortedAsc(s.times) && 0 <= s.times[0] && s.times[|s.times| - 1] <= t
  }

  predicate AllWellFormed(ss: seq<Stack>, gap: int, t: int) {
    forall s :: s in ss ==> WellFormed(s, gap, t)
  }

  lemma WellFormedLater(ss: seq<Stack>, gap: int, t: int, t': int)
    requires AllWellFormed(ss, gap, t) && t <= t'
    ensures AllWellFormed(ss, gap, t')
  {
  }

  lemma AppendWellFormed(s: Stack, c: Coords, gap: int, t: int)
    requires WellFormed(s, gap, t)
    ensures WellFormed(s.Append(c, t), gap, t)
  {
    var a := s.Append(c, t);
    forall i, j | 0 <= i < j < |a.times|
      ensures a.times[i] <= a.times[j]
    {
      if j == |a.times| - 1 {
        assert a.times[i] == s.times[i] <= s.times[|s.times| - 1];
      }
    }
  }

  lemma {:induction false} AssignWellFormed(active: seq<Stack>, faces: seq<Detection>, gap: int, t: int)
    requires t >= 0 && AllWellFormed(active, gap, t)
    ensures Assign(active, faces, t, gap).Ok? ==> AllWellFormed(Assign(active, faces, t, gap).value, gap, t)
  {
    if faces != [] {
      var prev := Assign(active, faces[..|faces| - 1], t, gap);
      AssignWellFormed(active, faces[..|faces| - 1], gap, t);
      var f := faces[|faces| - 1];
      if prev.Ok? && f.matched.Some? && f.matched.value < |active| {
        var j := f.matched.value;
        AppendWellFormed(prev.value[j], f.face, gap, t);
        var r := prev.value[j := prev.value[j].Append(f.face, t)];
        forall s | s in r
          ensures WellFormed(s, gap, t)
        {
          var k :| 0 <= k < |r| && r[k] == s;
          if k != j {
            assert s == prev.value[k];
          }
        }
      }
    }
  }

  /** One frame keeps every stack well formed, and after a frame with faces every
      active stack is fresh. */
  lemma FrameStepWellFormed(st: (seq<Stack>, seq<Stack>), faces: seq<Detection>, t: int, gap: int)
    requires gap >= 0 && t >= 0
    requires AllWellFormed(st.0, gap, t) && AllWellFormed(st.1, gap, t)
    ensures var r := FrameStep(st, faces, t, gap);
      r.Ok? ==> AllWellFormed(r.value.0 + r.value.1, gap, t)
    ensures var r := FrameStep(st, faces, t, gap);
      r.Ok? && |faces| > 0 ==> forall s :: s in r.value.0 ==> s.Valid() && s.Fresh(t)
  {
    var r := FrameStep(st, faces, t, gap);
    if r.Ok? {
      if |faces| == 0 {
        assert forall s :: s in r.value.0 + r.value.1 ==> s in st.0 || s in st.1;
      } else if |st.0| == 0 {
        assert forall s :: s in r.value.0 + r.value.1 ==> s in r.value.0 || s in st.1;
      } else {
        var a := Assign(st.0, faces, t, gap);
        AssignWellFormed(st.0, faces, gap, t);
        var p := Purge(a.value, t);
        ReverseMultiset(Filter(a.value, StaleAt(t)));
        forall s | s in p.0
          ensures s.Valid() && s.Fresh(t)
        {
          FilterMembership(a.value, FreshAt(t), s);
        }
        forall s | s in r.value.0 + r.value.1
          ensures WellFormed(s, gap, t)
        {
          if s in p.0 {
            FilterMembership(a.value, FreshAt(t), s);
          } else if s in p.1 {
            assert s in multiset(p.1);
            FilterMembership(a.value, StaleAt(t), s);
          } else {
            assert s in st.1;
          }
        }
      }
    }
  }

  /** Every stack the tracking keeps, active or stale, is well formed up to the last
      frame, and every active stack was seen within its gap of that frame whenever the
      frame had faces and the gap is not negative. */
  lemma {:induction false} TrackWellFormed(frames: seq<seq<Detection>>, gap: int)
    requires gap >= 0
    ensures var tr := Track(frames, gap);
      tr.Ok? ==> AllWellFormed(tr.value.0 + tr.value.1, gap, |frames| - 1)
    ensures var tr := Track(frames, gap);
      tr.Ok? && frames != [] && |frames[|frames| - 1]| > 0 ==> forall s :: s in tr.value.0 ==> s.Valid() && s.Fresh(|frames| - 1)
  {
    if frames != [] {
      var init := frames[..|frames| - 1];
      var t := |frames| - 1;
      TrackWellFormed(init, gap);
      var prev := Track(init, gap);
      if prev.Ok? {
        var st := prev.value;
        WellFormedLater(st.0 + st.1, gap, t - 1, t);
        assert AllWellFormed(st.0, gap, t) && AllWellFormed(st.1, gap, t) by {
          assert forall s :: s in st.0 || s in st.1 ==> s in st.0 + st.1;
        }
        FrameStepWellFormed(st, frames[t], t, gap);
      }
    }
  }

  /** The reverse pass loses no stack and invents none: the active and the newly stale
      stacks together are exactly the stacks it started from. */
  lemma PurgeSplits(active: seq<Stack>, t: int)
    ensures multiset(Purge(active, t).0) + multiset(Purge(active, t).1) == multiset(active)
  {
    ReverseMultiset(Filter(active, StaleAt(t)));
    FilterComplement(active, FreshAt(t), StaleAt(t));
  }

  /** Every returned stack was visible for at least `min_time_visible` steps, and so at
      least one. */
  lemma FaceStacksVisible(frames: seq<seq<Detection>>, gap: int, minTimeVisible: int, s: Stack)
    requires gap >= 0
    requires FaceStacks(frames, gap, minTimeVisible).Ok? && s in FaceStacks(frames, gap, minTimeVisible).value
    ensures s.Valid() && s.gap == gap && s.TimeVisible() >= minTimeVisible && s.TimeVisible() >= 1
  {
    var tr := Track(frames, gap);
    FilterMembership(tr.value.0 + tr.value.1, VisibleFor(minTimeVisible), s);
    TrackWellFormed(frames, gap);
    TimeVisiblePositive(s);
  }

  /** The assignment loop of one frame. */
  method AssignFaces(active: seq<Stack>, faces: seq<Detection>, t: int, gap: int) returns (r: Result<seq<Stack>>)
    ensures r == Assign(active, faces, t, gap)
  {
    var cur := active;
    for i := 0 to |faces|
      invariant Assign(active, faces[..i], t, gap) == Ok(cur)
    {
      assert faces[..i + 1][..i] == faces[..i];
      var f := faces[i];
      if f.matched.None? {
        cur := cur + [NewStack(f.face, t, gap)];
      } else if f.matched.value < |active| {
        cur := cur[f.matched.value := cur[f.matched.value].Append(f.face, t)];
      } else {
        assert Assign(active, faces[..i + 1], t, gap) == Err(IndexError);
        AssignStaysFailed(active, faces, i + 1, t, gap);
        assert faces[..|faces|] == faces;
        return Err(IndexError);
      }
    }
    assert faces[..|faces|] == faces;
    return Ok(cur);
  }

  /** Once a detection of the frame has failed, the whole frame fails. */
  lemma {:induction false} AssignStaysFailed(active: seq<Stack>, faces: seq<Detection>, k: nat, t: int, gap: int)
    requires k <= |faces| && Assign(active, faces[..k], t, gap).Err?
    ensures Assign(active, faces, t, gap) == Assign(active, faces[..k], t, gap)
    decreases |faces| - k
  {
    if k < |faces| {
      assert faces[..k + 1][..k] == faces[..k];
      AssignStaysFailed(active, faces, k + 1, t, gap);
    } else {
      assert faces[..k] == faces;
    }
  }

  /** A stale stack popped at index i - 1 joins the end of the stale list. */
  lemma StaleJoins(active: seq<Stack>, stale: seq<Stack>, i: nat, t: int, st: seq<Stack>)
    requires 0 < i <= |active| && StaleAt(t)(active[i - 1])
    requires st == stale + Reverse(Filter(active[i..], StaleAt(t)))
    ensures st + [active[i - 1]] == stale + Reverse(Filter(active[i - 1..], StaleAt(t)))
  {
    FilterSuffix(active, i, StaleAt(t));
    var g := Filter(active[i..], StaleAt(t));
    assert ([active[i - 1]] + g)[1..] == g;
    assert Reverse([active[i - 1]] + g) == Reverse(g) + [active[i - 1]];
  }

  /** A fresh stack at index i - 1 leaves the stale list alone. */
  lemma FreshStays(active: seq<Stack>, stale: seq<Stack>, i: nat, t: int, st: seq<Stack>)
    requires 0 < i <= |active| && FreshAt(t)(active[i - 1])
    requires st == stale + Reverse(Filter(active[i..], StaleAt(t)))
    ensures st == stale + Reverse(Filter(active[i - 1..], StaleAt(t)))
  {
    FilterSuffix(active, i, StaleAt(t));
    assert Filter(active[i - 1..], StaleAt(t)) == [] + Filter(active[i..], StaleAt(t));
    assert [] + Filter(active[i..], StaleAt(t)) == Filter(active[i..], StaleAt(t));
  }

  /** The reverse staleness pass: `for i in range(len(faces_seen)-1, -1, -1)`, popping
      each stale stack onto the stale list. */
  method PurgeStale(active: seq<Stack>, stale: seq<Stack>, t: int) returns (active': seq<Stack>, stale': seq<Stack>)
    ensures active' == Purge(active, t).0 && stale' == stale + Purge(active, t).1
  {
    active', stale' := active, stale;
    var i := |active|;
    assert active[i..] == [];
    while i > 0
      invariant 0 <= i <= |active|
      invariant active' == active[..i] + Filter(active[i..], FreshAt(t))
      invariant stale' == stale + Reverse(Filter(active[i..], StaleAt(t)))
    {
      if !(active[i - 1].Valid() && active[i - 1].Fresh(t)) {
        PopStep(active, i, FreshAt(t), active');
        StaleJoins(active, stale, i, t, stale');
        stale' := stale' + [active'[i - 1]];
        active' := RemoveAt(active', i - 1);
      } else {
        KeepStep(active, i, FreshAt(t), active');
        FreshStays(active, stale, i, t, stale');
      }
      i := i - 1;
    }
    assert active[0..] == active;
  }

  /** The final filter: stacks visible for at least `min_time_visible` steps. */
  method KeepVisible(stacks: seq<Stack>, minTimeVisible: int) returns (out: seq<Stack>)
    ensures out == Filter(stacks, VisibleFor(minTimeVisible))
  {
    out := [];
    for k := 0 to |stacks|
      invariant out == Filter(stacks[..k], VisibleFor(minTimeVisible))
    {
      assert stacks[..k + 1] == stacks[..k] + [stacks[k]];
      FilterAppend(stacks[..k], [stacks[k]], VisibleFor(minTimeVisible));
      out := out + (if stacks[k].Valid() && stacks[k].TimeVisible() >= minTimeVisible then [stacks[k]] else []);
    }
    assert stacks[..|stacks|] == stacks;
  }

  /** The bookkeeping of `find_face_stacks` for the stacks' gap `gap`: per frame the
      assignment and the staleness pass, then active ++ stale, filtered. */
  method TrackFaces(frames: seq<seq<Detection>>, gap: int, minTimeVisible: int) returns (r: Result<seq<Stack>>)
    ensures r == FaceStacks(frames, gap, minTimeVisible)
  {
    var active: seq<Stack> := [];
    var stale: seq<Stack> := [];
    for t := 0 to |frames|
      invariant Track(frames[..t], gap) == Ok((active, stale))
    {
      assert frames[..t + 1][..t] == frames[..t];
      var faces := frames[t];
      if |faces| == 0 {
        continue;
      }
      if |active| == 0 {
        for i := 0 to |faces|
          invariant |active| == i && forall k :: 0 <= k < i ==> active[k] == NewStack(faces[k].face, t, gap)
        {
          active := active + [NewStack(faces[i].face, t, gap)];
        }
        assert active == seq(|faces|, i requires 0 <= i < |faces| => NewStack(faces[i].face, t, gap));
        continue;
      }
      var a := AssignFaces(active, faces, t, gap);
      if a.Err? {
        TrackStaysFailed(frames, t + 1, gap);
        assert frames[..|frames|] == frames;
        return Err(a.error);
      }
      active, stale := PurgeStale(a.value, stale, t);
    }
    assert frames[..|frames|] == frames;
    var out := KeepVisible(active + stale, minTimeVisible);
    return Ok(out);
  }

  lemma {:induction false} TrackStaysFailed(frames: seq<seq<Detection>>, k: nat, gap: int)
    requires k <= |frames| && Track(frames[..k], gap).Err?
    ensures Track(frames, gap) == Track(frames[..k], gap)
    decreases |frames| - k
  {
    if k < |frames| {
      assert frames[..k + 1][..k] == frames[..k];
      TrackStaysFailed(frames, k + 1, gap);
    } else {
      assert frames[..k] == frames;
    }
  }

  /** `find_face_stacks(..., max_time_gap, ..., min_time_visible)` as written: each
      frame is first converted with `to_array(img, num_channels=1, dtype=np.uint8)`,
      whose dtype guard rejects every dtype, so the first frame already raises
      ValueError and only an empty list gets through. (Past that conversion every stack
      would be built with `FaceStack(nf, t)` and so go stale after the constructor's
      default gap of 5 whatever `max_time_gap` says; FaceStacksGapIgnored shows it.) */
  method FindFaceStacksAsWritten(frames: seq<seq<Detection>>, maxTimeGap: int, minTimeVisible: int) returns (r: Result<seq<Stack>>)
    ensures frames != [] ==> r == Err(ValueError)
    ensures frames == [] ==> r == Ok([])
  {
    if frames != [] {
      ToArrayAlwaysRejects(IntDType, 1);
      return Err(ToArrayGuardAsWritten(IntDType, 1).error);
    }
    return Ok([]);
  }

  /** `find_face_stacks` with a working conversion and `max_time_gap` handed to each
      new stack. */
  method FindFaceStacks(frames: seq<seq<Detection>>, maxTimeGap: int, minTimeVisible: int) returns (r: Result<seq<Stack>>)
    ensures r == FaceStacks(frames, maxTimeGap, minTimeVisible)
    ensures maxTimeGap >= 0 && r.Ok? ==> forall s :: s in r.value ==> s.gap == maxTimeGap && s.TimeVisible() >= minTimeVisible
  {
    r := TrackFaces(frames, maxTimeGap, minTimeVisible);
    if maxTimeGap >= 0 && r.Ok? {
      forall s | s in r.value
        ensures s.gap == maxTimeGap && s.TimeVisible() >= minTimeVisible
      {
        FaceStacksVisible(frames, maxTimeGap, minTimeVisible, s);
      }
    }
  }

  /** The frames of the example below: one face at time 0, nothing for five frames,
      then another face at time 6. */
  function GapFrames(c: Coords, d: Coords): seq<seq<Detection>> {
    [[Detection(c, None)], [], [], [], [], [], [Detection(d, None)]]
  }

  lemma {:induction false} GapFramesPrefix(c: Coords, d: Coords, gap: int, k: nat)
    requires 1 <= k <= 6
    ensures Track(GapFrames(c, d)[..k], gap) == Ok(([NewStack(c, 0, gap)], []))
  {
    var frames := GapFrames(c, d);
    if k == 1 {
      assert frames[..1][..0] == [];
      var faces := frames[..1][0];
      assert seq(|faces|, i requires 0 <= i < |faces| => NewStack(faces[i].face, 0, gap)) == [NewStack(c, 0, gap)];
    } else {
      GapFramesPrefix(c, d, gap, k - 1);
      assert frames[..k][..k - 1] == frames[..k - 1];
      assert frames[..k][k - 1] == [];
    }
  }

  /** A face seen at time 0 and a different one at time 6, with `max_time_gap = 10`: as
      written the stacks carry the default gap of 5, so the first stack is already stale
      at time 6, although it was seen only six steps earlier. */
  lemma FaceStacksGapIgnored(c: Coords, d: Coords)
    ensures var asWritten := Track(GapFrames(c, d), DefaultGap);
      asWritten.Ok? && |asWritten.value.0| == 1 && |asWritten.value.1| == 1
  {
    var frames := GapFrames(c, d);
    assert frames[..7] == frames;
    assert frames[..7][..6] == frames[..6];
    var faces := frames[6];
    assert faces[..0] == [];
    GapFramesPrefix(c, d, DefaultGap, 6);
    var first := [NewStack(c, 0, DefaultGap)];
    var a := first + [NewStack(d, 6, DefaultGap)];
    assert Assign(first, faces, 6, DefaultGap) == Ok(a);
    assert a[1..][1..] == [];
    assert Filter(a, FreshAt(6)) == [NewStack(d, 6, DefaultGap)];
    assert Filter(a, StaleAt(6)) == first;
  }

  /** The same frames with the gap of 10 handed to each new stack: both stacks stay
      active. */
  lemma FaceStacksGapPassed(c: Coords, d: Coords)
    ensures var intended := Track(GapFrames(c, d), 10);
      intended.Ok? && |intended.value.0| == 2 && |intended.value.1| == 0
  {
    var frames := GapFrames(c, d);
    assert frames[..7] == frames;
    assert frames[..7][..6] == frames[..6];
    var faces := frames[6];
    assert faces[..0] == [];
    GapFramesPrefix(c, d, 10, 6);
    var first := [NewStack(c, 0, 10)];
    var b := first + [NewStack(d, 6, 10)];
    assert Assign(first, faces, 6, 10) == Ok(b);
    assert b[1..][1..] == [];
    assert Filter(b, FreshAt(6)) == b;
    assert Filter(b, StaleAt(6)) == [];
  }
}
