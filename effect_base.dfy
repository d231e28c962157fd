/** pyfx.effects.base.Effect: a keyframe store mapping integer times to full parameter
    snapshots. The Python dictionary `_waypoints` is modelled as its key list in
    insertion order (`times`) together with the map itself; the values of the
    parameters are of an arbitrary type V. */
module EffectBase {
  import opened Common

  /** A parameter snapshot: keyword name to value. */
  type Snapshot<V> = map<string, V>

  /** Keyword arguments in call order. */
  type Kwargs<V> = seq<(string, V)>

  /** The time `add_waypoint` works on: `int(round(t))`, with -1 meaning the workspace's
      last frame. */
  function WaypointTime(t: real, maxTime: int): (tt: int)
    ensures Round(t) == -1 ==> tt == maxTime
    ensures Round(t) != -1 ==> tt == Round(t)
    ensures tt as real - 0.5 <= t <= tt as real + 0.5 || tt == maxTime
  {
    var k := Round(t);
    if k == -1 then maxTime else k
  }

  /** The latest key strictly before t (a reference definition by scanning the keys). */
  function LatestBefore(keys: seq<int>, t: int): (r: Option<int>)
    ensures r.Some? ==> r.value in keys && r.value < t && forall x :: x in keys && x < t ==> x <= r.value
    ensures r.None? ==> forall x :: x in keys ==> x >= t
  {
    if keys == [] then None
    else
      var rest := LatestBefore(keys[1..], t);
      assert forall x :: x in keys ==> x == keys[0] || x in keys[1..];
      if keys[0] < t && (rest.None? || keys[0] > rest.value) then Some(keys[0]) else rest
  }

  /** The snapshot a new waypoint at t starts from: the entry at t if there is one,
      otherwise the latest entry before t; with none before t the code asks for entry 0,
      which raises KeyError when 0 is missing. */
  function Seed<V>(ws: map<int, Snapshot<V>>, keys: seq<int>, t: int): (r: Result<Snapshot<V>>)
    requires forall k :: k in keys <==> k in ws
  {
    if t in ws then Ok(ws[t])
    else
      match LatestBefore(keys, t)
      case Some(p) => Ok(ws[p])
      case None => if 0 in ws then Ok(ws[0]) else Err(KeyError)
  }

  /** The position of the first keyword the effect does not know (|kw| when all are known). */
  function FirstUnknown<V>(kw: Kwargs<V>, known: set<string>): (j: nat)
    ensures j <= |kw|
    ensures forall i :: 0 <= i < j ==> kw[i].0 in known
    ensures j < |kw| ==> kw[j].0 !in known
  {
    if kw == [] then 0
    else if kw[0].0 !in known then 0
    else
      var j := FirstUnknown(kw[1..], known);
      assert forall i :: 1 <= i < j + 1 ==> kw[i] == kw[1..][i - 1];
      1 + j
  }

  /** The snapshot with the keywords written one after another. */
  function ApplyAll<V>(s: Snapshot<V>, kw: Kwargs<V>): Snapshot<V>
  {
    if kw == [] then s
    else ApplyAll(s, kw[..|kw| - 1])[kw[|kw| - 1].0 := kw[|kw| - 1].1]
  }

  /** The value the keywords give to k: the last one naming it. */
  function Supplied<V>(kw: Kwargs<V>, k: string): (r: Option<V>)
    ensures r.Some? <==> exists i :: 0 <= i < |kw| && kw[i].0 == k
  {
    if kw == [] then None
    else if kw[|kw| - 1].0 == k then Some(kw[|kw| - 1].1)
    else
      var r := Supplied(kw[..|kw| - 1], k);
      assert forall i :: 0 <= i < |kw| - 1 ==> kw[..|kw| - 1][i] == kw[i];
      r
  }

  /** Writing the keywords overwrites exactly the supplied keys, each with its supplied
      value; every other key keeps its value. */
  lemma {:induction false} ApplyAllMeaning<V>(s: Snapshot<V>, kw: Kwargs<V>, k: string)
    ensures k in ApplyAll(s, kw) <==> k in s || Supplied(kw, k).Some?
    ensures Supplied(kw, k).Some? ==> ApplyAll(s, kw)[k] == Supplied(kw, k).value
    ensures Supplied(kw, k).None? && k in s ==> ApplyAll(s, kw)[k] == s[k]
  {
    if kw != [] {
      ApplyAllMeaning(s, kw[..|kw| - 1], k);
    }
  }

  /** The keys of the written snapshot: the original keys and the supplied ones. */
  lemma {:induction false} ApplyAllKeys<V>(s: Snapshot<V>, kw: Kwargs<V>, known: set<string>)
    requires s.Keys == known
    requires forall i :: 0 <= i < |kw| ==> kw[i].0 in known
    ensures ApplyAll(s, kw).Keys == known
  {
    if kw != [] {
      ApplyAllKeys(s, kw[..|kw| - 1], known);
    }
  }

  /** The whole effect of `add_waypoint(t, **kw)` on (key order, waypoints, baked),
      with its outcome. */
  function AddResult<V>(times: seq<int>, ws: map<int, Snapshot<V>>, baked: bool, known: set<string>,
                        maxTime: int, t: real, kw: Kwargs<V>): (r: (seq<int>, map<int, Snapshot<V>>, bool, Outcome))
    requires forall k :: k in times <==> k in ws
  {
    var tt := WaypointTime(t, maxTime);
    if tt < 0 || tt > maxTime then (times, ws, baked, Fail(ValueError))
    else
      match Seed(ws, times, tt)
      case Err(e) => (times, ws, baked, Fail(e))
      case Ok(seed) =>
        var j := FirstUnknown(kw, known);
        (if tt in ws then times else times + [tt],
         ws[tt := ApplyAll(seed, kw[..j])],
         if j == |kw| then false else baked,
         if j == |kw| then Pass else Fail(ValueError))
  }

  /** With entry 0 present, the seed of any time in range exists. */
  lemma SeedWithZero<V>(ws: map<int, Snapshot<V>>, keys: seq<int>, t: int)
    requires forall k :: k in keys <==> k in ws
    requires 0 in ws && t >= 0
    ensures Seed(ws, keys, t).Ok?
    ensures t !in ws ==> LatestBefore(keys, t).Some?
  {
    if t !in ws {
      assert 0 in keys && 0 < t;
    }
  }

  /** `add_waypoint` fails exactly when t is out of range, the seed is missing, or some
      keyword is unknown; the first two change nothing, and a success clears `baked`. */
  lemma AddOutcome<V>(times: seq<int>, ws: map<int, Snapshot<V>>, baked: bool, known: set<string>,
                      maxTime: int, t: real, kw: Kwargs<V>)
    requires forall k :: k in times <==> k in ws
    ensures var tt := WaypointTime(t, maxTime);
      var r := AddResult(times, ws, baked, known, maxTime, t, kw);
      (r.3.Pass? <==> 0 <= tt <= maxTime && Seed(ws, times, tt).Ok? && forall i :: 0 <= i < |kw| ==> kw[i].0 in known)
      && (!(0 <= tt <= maxTime) ==> r == (times, ws, baked, Fail(ValueError)))
      && (r.3.Pass? ==> !r.2)
  {
    var tt := WaypointTime(t, maxTime);
    if 0 <= tt <= maxTime && Seed(ws, times, tt).Ok? && forall i :: 0 <= i < |kw| ==> kw[i].0 in known {
      var j := FirstUnknown(kw, known);
    }
  }

  /** A successful add stores at t the seed with the supplied keys overwritten: every
      supplied key takes its value, and every other key keeps the seed's value, the seed
      being the entry at t if present and otherwise the latest entry before t. No other
      time changes. */
  lemma AddSeedsAndOverwrites<V>(times: seq<int>, ws: map<int, Snapshot<V>>, baked: bool, known: set<string>,
                                 maxTime: int, t: real, kw: Kwargs<V>, k: string)
    requires forall x :: x in times <==> x in ws
    requires AddResult(times, ws, baked, known, maxTime, t, kw).3.Pass?
    ensures var tt := WaypointTime(t, maxTime);
      var ws2 := AddResult(times, ws, baked, known, maxTime, t, kw).1;
      var seed := if tt in ws then ws[tt] else ws[LatestBefore(times, tt).value];
      tt in ws2 && (tt !in ws ==> LatestBefore(times, tt).Some? && LatestBefore(times, tt).value in ws)
      && (Supplied(kw, k).Some? ==> k in ws2[tt] && ws2[tt][k] == Supplied(kw, k).value)
      && (Supplied(kw, k).None? && k in seed ==> k in ws2[tt] && ws2[tt][k] == seed[k])
      && (forall x :: x in ws && x != tt ==> x in ws2 && ws2[x] == ws[x])
  {
    var tt := WaypointTime(t, maxTime);
    var j := FirstUnknown(kw, known);
    assert j == |kw| && kw[..j] == kw;
    var seed := Seed(ws, times, tt).value;
    ApplyAllMeaning(seed, kw, k);
  }

  /** An unknown keyword raises ValueError only after the entry at t has been created and
      the keywords before it written: the update is not atomic. */
  lemma AddNotAtomic<V>(times: seq<int>, ws: map<int, Snapshot<V>>, baked: bool, known: set<string>,
                        maxTime: int, t: real, kw: Kwargs<V>)
    requires forall x :: x in times <==> x in ws
    requires var tt := WaypointTime(t, maxTime); 0 <= tt <= maxTime && Seed(ws, times, tt).Ok?
    requires FirstUnknown(kw, known) < |kw|
    ensures var tt := WaypointTime(t, maxTime);
      var r := AddResult(times, ws, baked, known, maxTime, t, kw);
      r.3 == Fail(ValueError) && r.2 == baked
      && r.1 == ws[tt := ApplyAll(Seed(ws, times, tt).value, kw[..FirstUnknown(kw, known)])]
  {
  }

  /** `remove_waypoint` as written: t = 0 is first reset to the defaults, and then popped
      like any other time. */
  function RemoveAsWritten<V>(ws: map<int, Snapshot<V>>, defaults: Snapshot<V>, t: real): (r: (map<int, Snapshot<V>>, Outcome))
  {
    var tt := Round(t);
    var ws1 := if tt == 0 then ws[0 := defaults] else ws;
    if tt in ws1 then (ws1 - {tt}, Pass) else (ws1, Fail(ValueError))
  }

  /** As written, removing waypoint 0 deletes it, after which adding a waypoint before
      every remaining time raises KeyError. */
  lemma RemoveZeroAsWrittenDeletesIt(d: Snapshot<int>, e: Snapshot<int>)
    ensures RemoveAsWritten(map[0 := d, 5 := e], d, 0.0) == (map[5 := e], Pass)
    ensures Seed(map[5 := e], [5], 3) == Err(KeyError)
  {
    RoundOfInt(0);
    assert map[0 := d, 5 := e][0 := d] - {0} == map[5 := e];
  }

  /** The waypoints in ascending time order, each with its snapshot. */
  predicate AscendingEntries<V(==)>(r: seq<(int, Snapshot<V>)>, ws: map<int, Snapshot<V>>) {
    (forall i, j :: 0 <= i < j < |r| ==> r[i].0 < r[j].0)
    && (forall i :: 0 <= i < |r| ==> r[i].0 in ws && r[i].1 == ws[r[i].0])
    && (forall t :: t in ws ==> exists i :: 0 <= i < |r| && r[i].0 == t)
  }

  class Effect<V> {
    /** The keys of `_waypoints` in insertion order. */
    var times: seq<int>
    var waypoints: map<int, Snapshot<V>>
    var baked: bool
    /** The subclass's `_default_waypoint`. */
    const defaults: Snapshot<V>
    /** The workspace's `max_time`. */
    const maxTime: nat

    /** Keys listed once each, every entry within [0, max_time] holding exactly the
        default keys, and entry 0 always present. */
    ghost predicate Valid()
      reads this
    {
      NoDuplicates(times)
      && (forall t :: t in times <==> t in waypoints)
      && (forall t :: t in waypoints ==> 0 <= t <= maxTime && waypoints[t].Keys == defaults.Keys)
      && 0 in waypoints
    }

    /** `__init__`, for a subclass that defines its defaults; `_waypoints` starts as the
        single entry {0: defaults}. */
    constructor(defaults: Snapshot<V>, maxTime: nat)
      ensures Valid()
      ensures this.defaults == defaults && this.maxTime == maxTime
      ensures times == [0] && waypoints == map[0 := defaults] && !baked
    {
      this.defaults := defaults;
      this.maxTime := maxTime;
      times := [0];
      waypoints := map[0 := defaults];
      baked := false;
    }

    /** `add_waypoint(t, **kw)`: its whole effect is AddResult. */
    method AddWaypoint(t: real, kw: Kwargs<V>) returns (r: Outcome)
      requires Valid()
      modifies this`times, this`waypoints, this`baked
      ensures Valid()
      ensures (times, waypoints, baked, r)
        == AddResult(old(times), old(waypoints), old(baked), defaults.Keys, maxTime, t, kw)
    {
      var tt := Round(t);
      if tt == -1 {
        tt := maxTime;
      }
      if tt < 0 || tt > maxTime {
        return Fail(ValueError);
      }
      var seed := FindSeed(tt);
      if seed.Err? {
        return Fail(seed.error);
      }
      var current := seed.value;
      if tt !in waypoints {
        NoDuplicatesAppend(times, tt);
        times := times + [tt];
      }
      r := WriteKeywords(tt, current, kw);
      ApplyAllKeys(current, kw[..FirstUnknown(kw, defaults.Keys)], defaults.Keys);
      if r.Pass? {
        baked := false;
      }
    }

    /** The snapshot `add_waypoint` starts from, found as the code does: the entry at t,
        or else the keys with t added, sorted, and the one before t (0 when t comes first). */
    method FindSeed(tt: int) returns (r: Result<Snapshot<V>>)
      requires Valid()
      ensures r == Seed(waypoints, times, tt)
      ensures r.Ok? ==> r.value.Keys == defaults.Keys
    {
      if tt in waypoints {
        return Ok(waypoints[tt]);
      }
      var ts := SortAscending(times + [tt]);
      assert tt in multiset(times + [tt]);
      var tIndex := IndexOf(ts, tt);
      var lookup := if tIndex == 0 then 0 else ts[tIndex - 1];
      LookupIsLatest(times, tt, ts, tIndex);
      if lookup !in waypoints {
        return Err(KeyError);
      }
      return Ok(waypoints[lookup]);
    }

    /** The keyword loop of `add_waypoint`: the entry at t becomes the seed and the
        keywords are written in order until the first unknown one, which raises ValueError. */
    method WriteKeywords(tt: int, current: Snapshot<V>, kw: Kwargs<V>) returns (r: Outcome)
      modifies this`waypoints
      ensures var j := FirstUnknown(kw, defaults.Keys);
        waypoints == old(waypoints)[tt := ApplyAll(current, kw[..j])]
        && r == (if j == |kw| then Pass else Fail(ValueError))
    {
      waypoints := waypoints[tt := current];
      ghost var before := old(waypoints);
      for i := 0 to |kw|
        invariant forall x :: 0 <= x < i ==> kw[x].0 in defaults.Keys
        invariant waypoints == before[tt := ApplyAll(current, kw[..i])]
      {
        var (k, v) := kw[i];
        if k in defaults.Keys {
          assert kw[..i + 1][..i] == kw[..i];
          waypoints := waypoints[tt := waypoints[tt][k := v]];
        } else {
          assert FirstUnknown(kw, defaults.Keys) == i;
          return Fail(ValueError);
        }
      }
      assert kw[..|kw|] == kw;
      assert FirstUnknown(kw, defaults.Keys) == |kw|;
      return Pass;
    }

    /** `set_waypoint` is `add_waypoint`. */
    method SetWaypoint(t: real, kw: Kwargs<V>) returns (r: Outcome)
      requires Valid()
      modifies this`times, this`waypoints, this`baked
      ensures Valid()
      ensures (times, waypoints, baked, r)
        == AddResult(old(times), old(waypoints), old(baked), defaults.Keys, maxTime, t, kw)
    {
      r := AddWaypoint(t, kw);
    }

    /** `remove_waypoint(t)`, with t = 0 reset to the defaults and kept, as its comment
        intends (the code also pops it; see RemoveAsWritten). A missing time raises
        ValueError and changes nothing; a removal clears `baked`. */
    method RemoveWaypoint(t: real) returns (r: Outcome)
      requires Valid()
      modifies this`times, this`waypoints, this`baked
      ensures Valid()
      ensures var tt := Round(t);
        if tt == 0 then r == Pass && waypoints == old(waypoints)[0 := defaults] && times == old(times) && !baked
        else if tt in old(waypoints) then r == Pass && waypoints == old(waypoints) - {tt} && !baked
          && times == RemoveAt(old(times), IndexOf(old(times), tt))
        else r == Fail(ValueError) && unchanged(this)
    {
      var tt := Round(t);
      if tt == 0 {
        waypoints := waypoints[0 := defaults];
        baked := false;
        return Pass;
      }
      if tt !in waypoints {
        return Fail(ValueError);
      }
      var k := IndexOf(times, tt);
      RemoveKeepsKeys(times, waypoints, tt);
      times := RemoveAt(times, k);
      waypoints := waypoints - {tt};
      baked := false;
      return Pass;
    }

    /** `get_waypoint(t)`: a copy of the entry at round(t), or ValueError; nothing changes. */
    function GetWaypoint(t: real): (r: Result<Snapshot<V>>)
      reads this
      ensures r.Ok? <==> Round(t) in waypoints
      ensures r.Ok? ==> r.value == waypoints[Round(t)]
      ensures r.Err? ==> r.error == ValueError
    {
      var tt := Round(t);
      if tt in waypoints then Ok(waypoints[tt]) else Err(ValueError)
    }

    /** The `waypoints` property: every entry, in ascending time order. */
    function Waypoints(): (r: seq<(int, Snapshot<V>)>)
      reads this
      requires Valid()
      ensures AscendingEntries(r, waypoints)
    {
      var ts := SortAscending(times);
      SortedEntriesAscending(times, ts, waypoints);
      Entries(ts, waypoints)
    }
  }

  /** The entries of ws at the times ts, in that order. */
  function Entries<V>(ts: seq<int>, ws: map<int, Snapshot<V>>): (r: seq<(int, Snapshot<V>)>)
    requires forall i :: 0 <= i < |ts| ==> ts[i] in ws
  {
    seq(|ts|, i requires 0 <= i < |ts| => (ts[i], ws[ts[i]]))
  }

  /** With distinct times naming exactly the keys of ws, the entries at the sorted times
      list every entry once, in ascending time order. */
  lemma SortedEntriesAscending<V>(times: seq<int>, ts: seq<int>, ws: map<int, Snapshot<V>>)
    requires NoDuplicates(times) && (forall t :: t in times <==> t in ws)
    requires SortedAsc(ts) && multiset(ts) == multiset(times)
    ensures forall i :: 0 <= i < |ts| ==> ts[i] in ws
    ensures AscendingEntries(Entries(ts, ws), ws)
  {
    SortedTimesAreKeys(times, ts, ws);
    StrictlySorted(times, ts);
    var r := Entries(ts, ws);
    forall t | t in ws ensures exists i :: 0 <= i < |r| && r[i].0 == t {
      var i :| 0 <= i < |ts| && ts[i] == t;
      assert r[i].0 == t;
    }
  }

  /** A sorted reordering of distinct times is strictly ascending. */
  lemma StrictlySorted(times: seq<int>, ts: seq<int>)
    requires NoDuplicates(times) && SortedAsc(ts) && multiset(ts) == multiset(times)
    ensures forall i, j :: 0 <= i < j < |ts| ==> ts[i] < ts[j]
  {
    DistinctAfterSort(times, ts);
  }

  /** The sorted times are exactly the keys of ws. */
  lemma SortedTimesAreKeys<V>(times: seq<int>, ts: seq<int>, ws: map<int, Snapshot<V>>)
    requires (forall t :: t in times <==> t in ws) && multiset(ts) == multiset(times)
    ensures forall i :: 0 <= i < |ts| ==> ts[i] in ws
    ensures forall t :: t in ws ==> exists i :: 0 <= i < |ts| && ts[i] == t
  {
    forall i | 0 <= i < |ts| ensures ts[i] in ws {
      var x := ts[i];
      assert x in multiset(ts);
      assert x in times;
    }
    forall t | t in ws ensures exists i :: 0 <= i < |ts| && ts[i] == t {
      assert t in multiset(times);
      assert t in multiset(ts);
    }
  }

  /** `Effect(workspace)`: a subclass without `_default_waypoint` raises
      NotImplementedError; otherwise the effect starts unbaked with only waypoint 0. */
  method NewEffect<V>(defaults: Option<Snapshot<V>>, maxTime: nat) returns (r: Result<Effect<V>>)
    ensures defaults.None? <==> r.Err?
    ensures r.Err? ==> r.error == NotImplementedError
    ensures r.Ok? ==> (fresh(r.value) && r.value.Valid() && !r.value.baked
      && r.value.defaults == defaults.value && r.value.waypoints == map[0 := defaults.value])
  {
    if defaults.None? {
      return Err(NotImplementedError);
    }
    var e := new Effect(defaults.value, maxTime);
    return Ok(e);
  }

  /** Dropping a key's one entry from the insertion-order list keeps the list
      duplicate-free and in step with the map once the key is deleted from it. */
  lemma RemoveKeepsKeys<V>(times: seq<int>, ws: map<int, V>, tt: int)
    requires NoDuplicates(times) && (forall t :: t in times <==> t in ws) && tt in ws
    ensures NoDuplicates(RemoveAt(times, IndexOf(times, tt)))
    ensures forall x :: x in RemoveAt(times, IndexOf(times, tt)) <==> x in ws - {tt}
  {
    var k := IndexOf(times, tt);
    RemoveAtMultiset(times, k);
    forall x ensures x in RemoveAt(times, k) <==> x in ws - {tt}
      ensures multiset(RemoveAt(times, k))[x] <= 1
    {
      assert x in RemoveAt(times, k) <==> x in multiset(RemoveAt(times, k));
      assert multiset(times)[tt] <= 1 && multiset(times)[x] <= 1;
    }
  }

  lemma NoDuplicatesAppend(s: seq<int>, x: int)
    requires NoDuplicates(s) && x !in s
    ensures NoDuplicates(s + [x])
  {
    assert multiset(s + [x]) == multiset(s) + multiset{x};
  }

  /** The code's way of finding the seed time: append t to the keys, sort, and take the
      entry before t (or 0 when t comes first). That is the latest key before t, and
      "t comes first" means no key precedes t. */
  lemma LookupIsLatest(keys: seq<int>, t: int, ts: seq<int>, tIndex: nat)
    requires t !in keys
    requires ts == SortAscending(keys + [t])
    requires tIndex < |ts| && ts[tIndex] == t && forall j :: 0 <= j < tIndex ==> ts[j] != t
    ensures tIndex == 0 ==> LatestBefore(keys, t).None?
    ensures tIndex > 0 ==> LatestBefore(keys, t) == Some(ts[tIndex - 1])
  {
    assert multiset(ts) == multiset(keys) + multiset{t};
    LatestFromSorted(keys, t, ts, tIndex, LatestBefore(keys, t));
  }

  /** Any answer meeting the specification of LatestBefore is read off the sorted keys. */
  lemma LatestFromSorted(keys: seq<int>, t: int, ts: seq<int>, tIndex: nat, l: Option<int>)
    requires t !in keys && SortedAsc(ts) && multiset(ts) == multiset(keys) + multiset{t}
    requires tIndex < |ts| && ts[tIndex] == t && forall j :: 0 <= j < tIndex ==> ts[j] != t
    requires l.Some? ==> l.value in keys && l.value < t && forall x :: x in keys && x < t ==> x <= l.value
    requires l.None? ==> forall x :: x in keys ==> x >= t
    ensures tIndex == 0 ==> l.None?
    ensures tIndex > 0 ==> l == Some(ts[tIndex - 1])
  {
    if l.Some? {
      KeyBelowComesFirst(keys, t, ts, tIndex, l.value);
    }
    if tIndex > 0 {
      var y := ts[tIndex - 1];
      assert y in multiset(ts) && y != t && y <= t;
      assert y in multiset(keys);
      assert y in keys && y < t;
      assert l.Some? && y <= l.value;
    }
  }

  /** A key below t sits before t in the sorted keys, so at or before the entry just
      before t. */
  lemma KeyBelowComesFirst(keys: seq<int>, t: int, ts: seq<int>, tIndex: nat, x: int)
    requires SortedAsc(ts) && multiset(ts) == multiset(keys) + multiset{t}
    requires tIndex < |ts| && ts[tIndex] == t
    requires x in keys && x < t
    ensures tIndex > 0 && x <= ts[tIndex - 1]
  {
    assert x in multiset(ts);
    var p :| 0 <= p < |ts| && ts[p] == x;
    if p >= tIndex {
      assert false;
    }
    assert ts[p] <= ts[tIndex - 1];
  }
}
