/** pyfx.core.photostream: a slideshow clip. A table of (image, duration) rows becomes a
    frame timeline in which image i fills round(duration_i) consecutive frames; frames are
    looked up through that timeline and rendered through a chain of effects to files named
    "frame%08d.png". Image loading, the data-frame reader and file output are inputs or
    left out. */
module Photostream {
  import opened Common
  import opened Raster
  import opened Convert

  /** A loaded image: its first two dimensions and its pixels. */
  datatype Photo = Photo(height: nat, width: nat, pixels: seq<seq<Pixel>>)

  function ShapeOf(p: Photo): (nat, nat) { (p.height, p.width) }

  /** The `time` cell of a row: a number, or something `np.round` rejects with TypeError. */
  datatype TimeCell = Number(x: real) | NotNumber

  datatype Row = Row(image: Photo, time: TimeCell)

  /** The source table as read from the spreadsheet: its column names and its rows. */
  datatype Table = Table(columns: seq<string>, rows: seq<Row>)

  // ---------------------------------------------------------------------------
  // The timeline
  // ---------------------------------------------------------------------------

  /** `for j in range(n): append(v)`: n copies of v, none when n <= 0. */
  function Repeat(v: nat, n: int): (s: seq<nat>)
    ensures |s| == Max(n, 0) && forall k :: 0 <= k < |s| ==> s[k] == v
  {
    seq(Max(n, 0), _ => v)
  }

  function Total(ts: seq<int>): int {
    if ts == [] then 0 else Total(ts[..|ts| - 1]) + ts[|ts| - 1]
  }

  predicate NonNegative(ts: seq<int>) {
    forall i :: 0 <= i < |ts| ==> ts[i] >= 0
  }

  /** `_internal_time`: image i repeated ts[i] times, for i in order. */
  function Timeline(ts: seq<int>): seq<nat> {
    if ts == [] then [] else Timeline(ts[..|ts| - 1]) + Repeat(|ts| - 1, ts[|ts| - 1])
  }

  lemma {:induction false} TotalNonNegative(ts: seq<int>)
    requires NonNegative(ts)
    ensures Total(ts) >= 0
    ensures forall i :: 0 <= i <= |ts| ==> Total(ts[..i]) <= Total(ts)
  {
    if ts != [] {
      var init := ts[..|ts| - 1];
      TotalNonNegative(init);
      forall i | 0 <= i <= |ts| ensures Total(ts[..i]) <= Total(ts) {
        if i < |ts| {
          assert ts[..i] == init[..i];
        } else {
          assert ts[..i] == ts;
        }
      }
    }
  }

  /** With non-negative durations the timeline has one frame per unit of duration, so
      `max_time` equals `len(_internal_time)`. */
  lemma {:induction false} TimelineLength(ts: seq<int>)
    requires NonNegative(ts)
    ensures |Timeline(ts)| == Total(ts)
  {
    if ts != [] {
      TimelineLength(ts[..|ts| - 1]);
    }
  }

  /** Every entry of the timeline names one of the rows. */
  lemma {:induction false} TimelineRange(ts: seq<int>)
    ensures forall k :: 0 <= k < |Timeline(ts)| ==> Timeline(ts)[k] < |ts|
  {
    if ts != [] {
      TimelineRange(ts[..|ts| - 1]);
    }
  }

  /** The timeline never goes back to an earlier image. */
  lemma {:induction false} TimelineSorted(ts: seq<int>)
    ensures forall j, k :: 0 <= j < k < |Timeline(ts)| ==> Timeline(ts)[j] <= Timeline(ts)[k]
  {
    if ts != [] {
      var init := ts[..|ts| - 1];
      TimelineSorted(init);
      TimelineRange(init);
    }
  }

  /** Frame k shows image i exactly when k lies in the block of i: after the frames of
      all earlier images and before the end of image i's own frames. */
  lemma {:induction false} TimelineBlock(ts: seq<int>, k: nat, i: nat)
    requires NonNegative(ts) && k < |Timeline(ts)| && i < |ts|
    ensures Timeline(ts)[k] == i <==> Total(ts[..i]) <= k < Total(ts[..i + 1])
  {
    var n := |ts|;
    var init := ts[..n - 1];
    assert NonNegative(init);
    TimelineLength(init);
    TimelineLength(ts);
    assert ts[..n] == ts;
    if k < |Timeline(init)| {
      TimelineRange(init);
      if i < n - 1 {
        assert ts[..i] == init[..i] && ts[..i + 1] == init[..i + 1];
        TimelineBlock(init, k, i);
      } else {
        assert ts[..i] == init;
      }
    } else {
      assert Timeline(ts)[k] == n - 1;
      if i < n - 1 {
        assert ts[..i + 1] == init[..i + 1];
        TotalNonNegative(init);
      } else {
        assert ts[..i] == init;
      }
    }
  }

  // ---------------------------------------------------------------------------
  // Parsing the table
  // ---------------------------------------------------------------------------

  /** Row i is rejected: its image has a shape other than the first image's, or its time
      cannot be rounded to an integer. */
  predicate RowBad(rows: seq<Row>, i: nat)
    requires i < |rows|
  {
    ShapeOf(rows[i].image) != ShapeOf(rows[0].image) || rows[i].time.NotNumber?
  }

  function FirstBadFrom(rows: seq<Row>, i: nat): (r: Option<nat>)
    requires i <= |rows|
    ensures r.Some? ==> i <= r.value < |rows| && RowBad(rows, r.value) && forall k :: i <= k < r.value ==> !RowBad(rows, k)
    ensures r.None? ==> forall k :: i <= k < |rows| ==> !RowBad(rows, k)
    decreases |rows| - i
  {
    if i == |rows| then None
    else if RowBad(rows, i) then Some(i)
    else FirstBadFrom(rows, i + 1)
  }

  /** The first rejected row, if any. */
  function FirstBad(rows: seq<Row>): (r: Option<nat>)
    ensures r.Some? ==> r.value < |rows| && RowBad(rows, r.value) && forall k :: 0 <= k < r.value ==> !RowBad(rows, k)
    ensures r.None? ==> forall k :: 0 <= k < |rows| ==> !RowBad(rows, k)
  {
    FirstBadFrom(rows, 0)
  }

  function Photos(rows: seq<Row>): (ps: seq<Photo>)
    ensures |ps| == |rows| && forall i :: 0 <= i < |rows| ==> ps[i] == rows[i].image
  {
    seq(|rows|, i requires 0 <= i < |rows| => rows[i].image)
  }

  /** `int(np.round(time, 0))` of every numeric row (only numeric rows are ever
      rounded: a non-numeric one ends the parse). */
  function Durations(rows: seq<Row>): (ts: seq<int>)
    ensures |ts| == |rows| && forall i :: 0 <= i < |rows| && rows[i].time.Number? ==> ts[i] == Round(rows[i].time.x)
  {
    seq(|rows|, i requires 0 <= i < |rows| => if rows[i].time.Number? then Round(rows[i].time.x) else 0)
  }

  /** Python's `s[-4:]`. */
  function Tail4(s: string): string {
    if |s| <= 4 then s else s[|s| - 4..]
  }

  predicate EndsWith(s: string, suffix: string) {
    |s| >= |suffix| && s[|s| - |suffix|..] == suffix
  }

  /** The checks of `_initialize_src` before any state is touched: the source is a path
      whose last four characters are ".csv", ".xls" or "xlsx", and the table read from it
      has an "image" and a "time" column; ValueError otherwise. */
  function SourceCheck(src: Option<string>, columns: seq<string>): (r: Outcome)
    ensures r.Pass? <==> (src.Some? && (EndsWith(src.value, ".csv") || EndsWith(src.value, ".xls") || EndsWith(src.value, "xlsx"))
      && "image" in columns && "time" in columns)
    ensures r.Fail? ==> r.error == ValueError
  {
    if src.None? then Fail(ValueError)
    else if !(Tail4(src.value) == ".csv" || Tail4(src.value) in [".xls", "xlsx"]) then Fail(ValueError)
    else if "image" !in columns then Fail(ValueError)
    else if "time" !in columns then Fail(ValueError)
    else Pass
  }

  // ---------------------------------------------------------------------------
  // Frame names and the effect chain
  // ---------------------------------------------------------------------------

  function DigitChar(d: nat): char
    requires d < 10
  {
    ['0', '1', '2', '3', '4', '5', '6', '7', '8', '9'][d]
  }

  /** The decimal digits of n, most significant first. */
  function Digits(n: nat): (s: string)
    ensures |s| >= 1 && forall k :: 0 <= k < |s| ==> IsDigit(s[k])
  {
    if n < 10 then [DigitChar(n)] else Digits(n / 10) + [DigitChar(n % 10)]
  }

  /** The number a string of decimal digits denotes. */
  function ValueOf(s: string): nat
    requires forall k :: 0 <= k < |s| ==> IsDigit(s[k])
  {
    if s == [] then 0 else ValueOf(s[..|s| - 1]) * 10 + DigitValue(s[|s| - 1])
  }

  function DigitValue(c: char): nat {
    var d := c as int - '0' as int;
    if d < 0 then 0 else d
  }

  function Zeros(n: int): (s: string)
    ensures |s| == Max(n, 0) && forall k :: 0 <= k < |s| ==> s[k] == '0'
  {
    seq(Max(n, 0), _ => '0')
  }

  /** `"{:08d}".format(t)`: at least eight characters, zero-padded after the sign. */
  function Format08(t: int): string {
    if t >= 0 then Zeros(8 - |Digits(t)|) + Digits(t)
    else "-" + Zeros(7 - |Digits(-t)|) + Digits(-t)
  }

  /** `"frame{:08d}.png".format(t)`. */
  function FrameName(t: int): string {
    "frame" + Format08(t) + ".png"
  }

  lemma {:induction false} DigitsValue(n: nat)
    ensures ValueOf(Digits(n)) == n
  {
    if n >= 10 {
      DigitsValue(n / 10);
      assert Digits(n)[..|Digits(n)| - 1] == Digits(n / 10);
    }
  }

  lemma {:induction false} LeadingZeros(z: int, s: string)
    requires forall k :: 0 <= k < |s| ==> IsDigit(s[k])
    ensures ValueOf(Zeros(z) + s) == ValueOf(s)
  {
    if s == [] {
      assert Zeros(z) + s == Zeros(z);
      if z > 0 {
        assert Zeros(z)[..z - 1] == Zeros(z - 1) == Zeros(z - 1) + s;
        LeadingZeros(z - 1, s);
      }
    } else {
      var init := s[..|s| - 1];
      assert (Zeros(z) + s)[..|Zeros(z) + s| - 1] == Zeros(z) + init;
      LeadingZeros(z, init);
    }
  }

  lemma {:induction false} DigitsLength(n: nat, w: nat)
    requires w >= 1 && n < Pow10(w)
    ensures |Digits(n)| <= w
  {
    if n >= 10 {
      assert w >= 2;
      assert n / 10 < Pow10(w - 1);
      DigitsLength(n / 10, w - 1);
    }
  }

  function Pow10(w: nat): (p: nat)
    ensures p >= 1
  {
    if w == 0 then 1 else 10 * Pow10(w - 1)
  }

  /** Frame names tell frames apart: two non-negative times share a name only if they
      are equal, so no rendered frame overwrites another. */
  lemma FrameNameInjective(t1: nat, t2: nat)
    ensures FrameName(t1) == FrameName(t2) ==> t1 == t2
  {
    FrameNameNumber(t1);
    FrameNameNumber(t2);
  }

  /** The digits between "frame" and ".png" read back as t. */
  lemma FrameNameNumber(t: nat)
    ensures |FrameName(t)| >= 9
    ensures var m := FrameName(t)[5..|FrameName(t)| - 4]; (forall k :: 0 <= k < |m| ==> IsDigit(m[k])) && ValueOf(m) == t
  {
    var d := Digits(t);
    Middle("frame", Format08(t), ".png");
    LeadingZeros(8 - |d|, d);
    DigitsValue(t);
  }

  lemma Middle(a: string, b: string, c: string)
    ensures |a + b + c| == |a| + |b| + |c| && (a + b + c)[|a|..|a| + |b|] == b
  {
  }

  /** Below 10^8 a frame name is "frame", eight digits and ".png". */
  lemma FrameNameLength(t: nat)
    requires t < 100000000
    ensures |FrameName(t)| == 17
  {
    assert Pow10(8) == 100000000;
    DigitsLength(t, 8);
  }

  /** An effect handed to `render`: the clip it was created with, and whether it is baked. */
  datatype Fx = Fx(videoclip: object, baked: bool)

  function Baked(e: Fx): (b: Fx)
    ensures b.baked && b.videoclip == e.videoclip
  {
    e.(baked := true)
  }

  /** The frame after every effect of es, in order, each baked before it renders; `apply`
      is the effect's own `render`. */
  function ApplyEffects(es: seq<Fx>, img: Option<Photo>, apply: (Fx, Option<Photo>) -> Option<Photo>): Option<Photo> {
    if es == [] then img else apply(Baked(es[|es| - 1]), ApplyEffects(es[..|es| - 1], img, apply))
  }

  /** Effects compose in tuple order: the chain es1 + es2 renders the output of es1
      through es2. */
  lemma {:induction false} ApplyEffectsAppend(es1: seq<Fx>, es2: seq<Fx>, img: Option<Photo>, apply: (Fx, Option<Photo>) -> Option<Photo>)
    ensures ApplyEffects(es1 + es2, img, apply) == ApplyEffects(es2, ApplyEffects(es1, img, apply), apply)
  {
    if es2 == [] {
      assert es1 + es2 == es1;
    } else {
      var init := es2[..|es2| - 1];
      assert (es1 + es2)[..|es1 + es2| - 1] == es1 + init;
      ApplyEffectsAppend(es1, init, img, apply);
    }
  }

  /** The time interval `render` walks: [0, max_time + 1) by default, and a negative end
      e counted back from max_time + 1. */
  function RenderInterval(interval: Option<(int, int)>, maxTime: int): (iv: (int, int))
    ensures interval.None? && maxTime + 1 >= 0 ==> iv == (0, maxTime + 1)
    ensures interval.None? && maxTime + 1 < 0 ==> iv == (0, 2 * (maxTime + 1))
    ensures interval.Some? && interval.value.1 < 0 ==> iv == (interval.value.0, maxTime + 1 + interval.value.1)
    ensures interval.Some? && interval.value.1 >= 0 ==> iv == interval.value
  {
    var ti := if interval.None? then (0, maxTime + 1) else interval.value;
    if ti.1 < 0 then (ti.0, maxTime + 1 + ti.1) else ti
  }

  /** One more loaded row extends the images, the durations, the timeline and the
      total by that row's share. */
  lemma ParseStep(rows: seq<Row>, i: nat)
    requires i < |rows|
    ensures Photos(rows[..i + 1]) == Photos(rows[..i]) + [rows[i].image]
    ensures rows[i].time.Number? ==> Durations(rows[..i + 1]) == Durations(rows[..i]) + [Round(rows[i].time.x)]
    ensures rows[i].time.Number? ==> (Timeline(Durations(rows[..i]) + [Round(rows[i].time.x)])
                                      == Timeline(Durations(rows[..i])) + Repeat(i, Round(rows[i].time.x)))
    ensures rows[i].time.Number? ==> (Total(Durations(rows[..i]) + [Round(rows[i].time.x)])
                                      == Total(Durations(rows[..i])) + Round(rows[i].time.x))
    ensures RowBad(rows, i) <==> ShapeOf(rows[i].image) != ShapeOf(rows[0].image) || rows[i].time.NotNumber?
  {
    assert rows[..i + 1] == rows[..i] + [rows[i]];
    if rows[i].time.Number? {
      var ts := Durations(rows[..i]) + [Round(rows[i].time.x)];
      assert ts[..|ts| - 1] == Durations(rows[..i]);
    }
  }

  /** A rejected row after accepted ones is the first rejected row. */
  lemma ParseStops(rows: seq<Row>, i: nat)
    requires i < |rows| && RowBad(rows, i)
    requires forall k :: 0 <= k < i ==> !RowBad(rows, k)
    ensures FirstBad(rows) == Some(i)
  {
  }

  /** What a rendering wrote: one named frame per time, and the effects as they are
      left (baked once any frame was rendered). */
  datatype Rendered = Rendered(frames: seq<(string, Option<Photo>)>, effects: seq<Fx>)

  class PhotoStream {
    var imgList: seq<Photo>
    var timeList: seq<int>
    var internalTime: seq<nat>
    var shape: Option<(nat, nat)>
    var maxTime: int
    var currentTime: int

    /** Every frame of the timeline names a loaded image. */
    ghost predicate Valid()
      reads this`internalTime, this`imgList
    {
      forall k :: 0 <= k < |internalTime| ==> internalTime[k] < |imgList|
    }

    /** The state `_parse_df(rows)` leaves, for the value `cur` current_time had: the
        rows up to the first rejected one are loaded (the rejected row's image is already
        appended), and on success current_time is reset to 0 past the new max_time. */
    ghost predicate Parsed(rows: seq<Row>, cur: int, r: Outcome)
      reads this
    {
      var bad := FirstBad(rows);
      var n := if bad.Some? then bad.value else |rows|;
      (r.Fail? <==> bad.Some?)
      && (r.Fail? ==> r.error == ValueError)
      && imgList == Photos(rows[..if bad.Some? then n + 1 else n])
      && timeList == Durations(rows[..n])
      && internalTime == Timeline(timeList)
      && maxTime == Total(timeList)
      && shape == (if rows == [] then None else Some(ShapeOf(rows[0].image)))
      && currentTime == (if r.Pass? && cur > maxTime then 0 else cur)
    }

    constructor()
      ensures imgList == [] && timeList == [] && internalTime == [] && shape.None?
      ensures maxTime == 0 && currentTime == 0
      ensures Valid()
    {
      imgList, timeList, internalTime := [], [], [];
      shape := None;
      maxTime, currentTime := 0, 0;
    }

    /** The inner loop of `_parse_df()`: t more frames of image i. */
    method AppendFrames(i: nat, t: int)
      modifies this`internalTime
      ensures internalTime == old(internalTime) + Repeat(i, t)
    {
      var j := 0;
      while j < t
        modifies this`internalTime
        invariant 0 <= j <= Max(t, 0)
        invariant internalTime == old(internalTime) + Repeat(i, j)
      {
        internalTime := internalTime + [i];
        j := j + 1;
      }
      assert Repeat(i, j) == Repeat(i, t);
    }

    /** One pass of the loop of `_parse_df()` over row i, the rows before it loaded: the
        image is appended, and unless the row is rejected its duration is recorded and
        its frames join the timeline. */
    method LoadRow(rows: seq<Row>, i: nat) returns (ok: bool)
      requires i < |rows| && forall k :: 0 <= k < i ==> !RowBad(rows, k)
      requires imgList == Photos(rows[..i]) && timeList == Durations(rows[..i])
      requires internalTime == Timeline(timeList) && maxTime == Total(timeList)
      requires shape == (if i == 0 then None else Some(ShapeOf(rows[0].image)))
      modifies this`imgList, this`timeList, this`internalTime, this`shape, this`maxTime
      ensures ok <==> !RowBad(rows, i)
      ensures imgList == Photos(rows[..i + 1]) && shape == Some(ShapeOf(rows[0].image))
      ensures ok ==> timeList == Durations(rows[..i + 1]) && internalTime == Timeline(timeList) && maxTime == Total(timeList)
      ensures !ok ==> timeList == old(timeList) && internalTime == old(internalTime) && maxTime == old(maxTime)
    {
      ParseStep(rows, i);
      imgList := imgList + [rows[i].image];
      if shape.None? {
        shape := Some(ShapeOf(rows[i].image));
      }
      if ShapeOf(rows[i].image) != shape.value || rows[i].time.NotNumber? {
        return false;
      }
      var t := Round(rows[i].time.x);
      timeList := timeList + [t];
      AppendFrames(i, t);
      maxTime := maxTime + t;
      return true;
    }

    /** The loop of `_parse_df()`: the rows are loaded up to the first rejected one. */
    method LoadRows(rows: seq<Row>) returns (bad: Option<nat>)
      modifies this`imgList, this`timeList, this`internalTime, this`shape, this`maxTime
      ensures bad == FirstBad(rows)
      ensures var n := if bad.Some? then bad.value else |rows|;
              imgList == Photos(rows[..if bad.Some? then n + 1 else n])
              && timeList == Durations(rows[..n]) && internalTime == Timeline(timeList) && maxTime == Total(timeList)
      ensures shape == (if rows == [] then None else Some(ShapeOf(rows[0].image)))
    {
      imgList, timeList, internalTime := [], [], [];
      shape := None;
      maxTime := 0;
      var i := 0;
      while i < |rows|
        invariant 0 <= i <= |rows|
        invariant forall k :: 0 <= k < i ==> !RowBad(rows, k)
        invariant imgList == Photos(rows[..i]) && timeList == Durations(rows[..i])
        invariant internalTime == Timeline(timeList) && maxTime == Total(timeList)
        invariant shape == (if i == 0 then None else Some(ShapeOf(rows[0].image)))
      {
        var ok := LoadRow(rows, i);
        if !ok {
          ParseStops(rows, i);
          return Some(i);
        }
        i := i + 1;
      }
      assert rows[..i] == rows;
      return None;
    }

    /** `_parse_df()` over the rows of the table. */
    method ParseDf(rows: seq<Row>) returns (r: Outcome)
      modifies this`imgList, this`timeList, this`internalTime, this`shape, this`maxTime, this`currentTime
      ensures Parsed(rows, old(currentTime), r)
      ensures Valid()
    {
      var bad := LoadRows(rows);
      TimelineRange(timeList);
      if bad.Some? {
        return Fail(ValueError);
      }
      if currentTime > maxTime {
        currentTime := 0;
      }
      return Pass;
    }

    /** `_parse_df()` as written: the first row's image is loaded with `to_array(f)`,
        whose dtype guard rejects every dtype, so any non-empty table raises ValueError
        with the lists just emptied; an empty table parses to an empty timeline. */
    method ParseDfAsWritten(rows: seq<Row>) returns (r: Outcome)
      modifies this
      ensures imgList == [] && timeList == [] && internalTime == [] && shape.None? && maxTime == 0
      ensures rows != [] ==> r == Fail(ValueError) && currentTime == old(currentTime)
      ensures rows == [] ==> r == Pass && currentTime == (if old(currentTime) > 0 then 0 else old(currentTime))
    {
      imgList, timeList, internalTime := [], [], [];
      shape := None;
      maxTime := 0;
      if rows != [] {
        ToArrayAlwaysRejects(IntDType, 4);
        return ToArrayGuardAsWritten(IntDType, 4);
      }
      if currentTime > maxTime {
        currentTime := 0;
      }
      return Pass;
    }

    /** `_initialize_src()` with the table the reader returns for the path: the source
        checks, then current_time = 0 and `_parse_df`. A rejected source changes nothing. */
    method InitializeSrc(src: Option<string>, table: Table) returns (r: Outcome)
      modifies this
      ensures SourceCheck(src, table.columns).Fail? ==> r == SourceCheck(src, table.columns) && unchanged(this)
      ensures SourceCheck(src, table.columns).Pass? ==> Parsed(table.rows, 0, r) && Valid()
    {
      r := SourceCheck(src, table.columns);
      if r.Fail? {
        return;
      }
      currentTime := 0;
      r := ParseDf(table.rows);
    }

    /** `get_frame(t)` as written: None past max_time; otherwise the lookup
        `_internal_time[t]` raises IndexError outside the list, and the next line reads
        the undefined name `internal_time`, so no frame is ever returned. */
    function GetFrameAsWritten(t: int): (r: Result<Option<Photo>>)
      reads this`maxTime, this`internalTime
      ensures t > maxTime ==> r == Ok(None)
      ensures t <= maxTime ==> r.Err? && (r.error == IndexError <==> !IndexInRange(|internalTime|, t))
      ensures t <= maxTime && IndexInRange(|internalTime|, t) ==> r.error == NameError
    {
      if t > maxTime then Ok(None)
      else if !IndexInRange(|internalTime|, t) then Err(IndexError)
      else Err(NameError)
    }

    /** `get_frame(t)` as intended: None from max_time on, otherwise the image the
        timeline shows at t (Python indexing, so a negative t counts from the end). */
    function GetFrame(t: int): (r: Result<Option<Photo>>)
      requires Valid()
      reads this`maxTime, this`internalTime, this`imgList
      ensures t >= maxTime ==> r == Ok(None)
      ensures 0 <= t < maxTime && |internalTime| == maxTime ==> r == Ok(Some(imgList[internalTime[t]]))
      ensures r.Err? ==> r.error == IndexError && t < maxTime && !IndexInRange(|internalTime|, t)
    {
      if t >= maxTime then Ok(None)
      else if !IndexInRange(|internalTime|, t) then Err(IndexError)
      else Ok(Some(imgList[internalTime[NormIndex(|internalTime|, t)]]))
    }

    /** After a successful parse with non-negative durations, frame t shows the image of
        the row whose block of frames contains t. */
    lemma ParsedFrame(rows: seq<Row>, cur: int, t: int, i: nat)
      requires Parsed(rows, cur, Pass) && Valid() && NonNegative(timeList)
      requires 0 <= t < maxTime && i < |rows|
      requires Total(timeList[..i]) <= t < Total(timeList[..i + 1])
      ensures GetFrame(t) == Ok(Some(rows[i].image))
    {
      assert rows[..|rows|] == rows;
      TimelineLength(timeList);
      TimelineBlock(timeList, t, i);
    }

    /** The checks `render` makes before its frame loop: an existing output directory
        without overwrite raises FileExistsError, an effect made for another clip raises
        ValueError; otherwise the normalised interval. */
    function RenderCheck(dirExists: bool, overwrite: bool, effects: seq<Fx>, interval: Option<(int, int)>): (r: Result<(int, int)>)
      reads this`maxTime
      ensures r.Err? <==> (dirExists && !overwrite) || exists k :: 0 <= k < |effects| && effects[k].videoclip != this
      ensures r.Err? ==> r.error == (if dirExists && !overwrite then FileExistsError else ValueError)
      ensures r.Ok? ==> r.value == RenderInterval(interval, maxTime)
    {
      if dirExists && !overwrite then Err(FileExistsError)
      else if exists k :: 0 <= k < |effects| && effects[k].videoclip != this then Err(ValueError)
      else Ok(RenderInterval(interval, maxTime))
    }

    /** `render(...)` as written: after the checks, the first frame sets current_time and
        then calls `sys.stdout.flush()` with `sys` never imported, raising NameError; an
        empty interval renders nothing. */
    method RenderAsWritten(dirExists: bool, overwrite: bool, effects: seq<Fx>, interval: Option<(int, int)>) returns (r: Result<Rendered>)
      modifies this`currentTime
      ensures RenderCheck(dirExists, overwrite, effects, interval).Err? ==> r == Err(RenderCheck(dirExists, overwrite, effects, interval).error) && currentTime == old(currentTime)
      ensures RenderCheck(dirExists, overwrite, effects, interval).Ok? ==>
        var iv := RenderCheck(dirExists, overwrite, effects, interval).value;
        (iv.0 < iv.1 ==> r == Err(NameError) && currentTime == iv.0)
        && (iv.0 >= iv.1 ==> r == Ok(Rendered([], effects)) && currentTime == old(currentTime))
    {
      var check := RenderCheck(dirExists, overwrite, effects, interval);
      if check.Err? {
        return Err(check.error);
      }
      var iv := check.value;
      if iv.0 < iv.1 {
        currentTime := iv.0;
        return Err(NameError);
      }
      return Ok(Rendered([], effects));
    }

    /** Frame f is the one rendered at time t: named after t, holding the frame at t
        passed through the effects. */
    ghost predicate RenderedAt(f: (string, Option<Photo>), t: int, effects: seq<Fx>, apply: (Fx, Option<Photo>) -> Option<Photo>)
      requires Valid()
      reads this`maxTime, this`internalTime, this`imgList
    {
      GetFrame(t).Ok? && f == (FrameName(t), ApplyEffects(effects, GetFrame(t).value, apply))
    }

    /** The frames rendered from time `start` on: frame k is the one rendered at
        start + k. */
    ghost predicate RenderedFrom(frames: seq<(string, Option<Photo>)>, start: int, effects: seq<Fx>, apply: (Fx, Option<Photo>) -> Option<Photo>)
      requires Valid()
      reads this`maxTime, this`internalTime, this`imgList
    {
      forall k :: 0 <= k < |frames| ==> RenderedAt(frames[k], start + k, effects, apply)
    }

    /** One more frame rendered at the next time keeps the frames rendered. */
    lemma RenderedStep(frames: seq<(string, Option<Photo>)>, start: int, effects: seq<Fx>,
                       apply: (Fx, Option<Photo>) -> Option<Photo>, img: Option<Photo>)
      requires Valid() && RenderedFrom(frames, start, effects, apply)
      requires GetFrame(start + |frames|).Ok? && img == ApplyEffects(effects, GetFrame(start + |frames|).value, apply)
      ensures RenderedFrom(frames + [(FrameName(start + |frames|), img)], start, effects, apply)
    {
      var x := (FrameName(start + |frames|), img);
      assert RenderedAt(x, start + |frames|, effects, apply);
      forall k | 0 <= k < |frames| + 1
        ensures RenderedAt((frames + [x])[k], start + k, effects, apply)
      {
        RenderedKept(frames, x, start, effects, apply, k);
      }
    }

    /** Appending a frame leaves every earlier frame, or the appended one, where it was. */
    lemma RenderedKept(frames: seq<(string, Option<Photo>)>, x: (string, Option<Photo>), start: int, effects: seq<Fx>,
                       apply: (Fx, Option<Photo>) -> Option<Photo>, k: nat)
      requires Valid() && RenderedFrom(frames, start, effects, apply)
      requires RenderedAt(x, start + |frames|, effects, apply)
      requires k <= |frames|
      ensures RenderedAt((frames + [x])[k], start + k, effects, apply)
    {
      if k < |frames| {
        assert (frames + [x])[k] == frames[k];
      } else {
        assert (frames + [x])[k] == x;
      }
    }

    /** `render(...)` as intended: for every t of the interval, current_time = t, the
        frame at t passed through the effects in order (each baked first), written as
        "frame%08d.png". A frame lookup that fails ends the rendering with its error. */
    method Render(dirExists: bool, overwrite: bool, effects: seq<Fx>, interval: Option<(int, int)>, apply: (Fx, Option<Photo>) -> Option<Photo>)
      returns (r: Result<Rendered>)
      requires Valid()
      modifies this`currentTime
      ensures RenderCheck(dirExists, overwrite, effects, interval).Err? ==> r == Err(RenderCheck(dirExists, overwrite, effects, interval).error) && currentTime == old(currentTime)
      ensures RenderCheck(dirExists, overwrite, effects, interval).Ok? ==> RenderLoopDone(RenderCheck(dirExists, overwrite, effects, interval).value, effects, apply, old(currentTime), r)
    {
      var check := RenderCheck(dirExists, overwrite, effects, interval);
      if check.Err? {
        return Err(check.error);
      }
      r := RenderLoop(check.value, effects, apply);
    }

    /** The state of a frame loop over the interval iv: either every frame rendered,
        the effects all baked (unless the interval is empty) and current_time at the last
        frame, or the frame at current_time failed to load. */
    ghost predicate RenderLoopDone(iv: (int, int), effects: seq<Fx>, apply: (Fx, Option<Photo>) -> Option<Photo>, cur: int, r: Result<Rendered>)
      requires Valid()
      reads this`maxTime, this`internalTime, this`imgList, this`currentTime
    {
      (r.Ok? ==>
        |r.value.frames| == Max(iv.1 - iv.0, 0)
        && RenderedFrom(r.value.frames, iv.0, effects, apply)
        && r.value.effects == (if iv.0 < iv.1 then AllBaked(effects) else effects)
        && currentTime == (if iv.0 < iv.1 then iv.1 - 1 else cur))
      && (r.Err? ==> iv.0 <= currentTime < iv.1 && GetFrame(currentTime) == Err(r.error))
    }

    method RenderLoop(iv: (int, int), effects: seq<Fx>, apply: (Fx, Option<Photo>) -> Option<Photo>) returns (r: Result<Rendered>)
      requires Valid()
      modifies this`currentTime
      ensures RenderLoopDone(iv, effects, apply, old(currentTime), r)
    {
      var frames := [];
      var fx := effects;
      var t := iv.0;
      while t < iv.1
        invariant iv.0 <= t <= Max(iv.0, iv.1)
        invariant |frames| == t - iv.0
        invariant RenderedFrom(frames, iv.0, effects, apply)
        invariant fx == (if t > iv.0 then AllBaked(effects) else effects)
        invariant currentTime == (if t > iv.0 then t - 1 else old(currentTime))
        decreases iv.1 - t
      {
        currentTime := t;
        var frame := GetFrame(t);
        if frame.Err? {
          return Err(frame.error);
        }
        var img;
        fx, img := RenderFrame(fx, effects, frame.value, apply);
        RenderedStep(frames, iv.0, effects, apply, img);
        frames := frames + [(FrameName(t), img)];
        t := t + 1;
      }
      return Ok(Rendered(frames, fx));
    }
  }

  /** Every effect baked. */
  function AllBaked(es: seq<Fx>): (bs: seq<Fx>)
    ensures |bs| == |es| && forall k :: 0 <= k < |es| ==> bs[k] == Baked(es[k])
  {
    seq(|es|, k requires 0 <= k < |es| => Baked(es[k]))
  }

  /** The effect loop of one frame: each effect is baked if it is not, then renders the
      image; the effects left behind are all baked. */
  method RenderFrame(fx: seq<Fx>, effects: seq<Fx>, img: Option<Photo>, apply: (Fx, Option<Photo>) -> Option<Photo>)
    returns (fx': seq<Fx>, out: Option<Photo>)
    requires fx == effects || fx == AllBaked(effects)
    ensures fx' == AllBaked(effects)
    ensures out == ApplyEffects(effects, img, apply)
  {
    fx' := fx;
    out := img;
    for k := 0 to |fx|
      invariant |fx'| == |effects|
      invariant forall j :: 0 <= j < k ==> fx'[j] == Baked(effects[j])
      invariant forall j :: k <= j < |fx| ==> fx'[j] == fx[j]
      invariant out == ApplyEffects(effects[..k], img, apply)
    {
      if !fx'[k].baked {
        fx' := fx'[k := Baked(fx'[k])];
      }
      assert fx'[k] == Baked(effects[k]);
      assert effects[..k + 1][..k] == effects[..k];
      out := apply(fx'[k], out);
    }
    assert effects[..|fx|] == effects;
  }
}
