/** Shared vocabulary: the exceptions the Python code raises, results that carry them,
    Python's round-half-to-even, and Python's list insert/pop/index semantics. */
module Common {

  /** The Python exception classes the modelled code raises. */
  datatype Error =
    | ValueError
    | IndexError
    | KeyError
    | NameError
    | TypeError
    | AttributeError
    | NotImplementedError
    | ZeroDivisionError
    | FileExistsError

  datatype Option<T> = None | Some(value: T)

  /** A value or the exception raised instead of returning it. */
  datatype Result<T> = Ok(value: T) | Err(error: Error)

  /** Completion of a procedure that returns nothing. */
  datatype Outcome = Pass | Fail(error: Error)

  /** Python's `round` (and numpy's `np.round`): nearest integer, ties to even. */
  function Round(x: real): (r: int)
    ensures r as real - 0.5 <= x <= r as real + 0.5
  {
    var f := x.Floor;
    var d := x - f as real;
    if d < 0.5 then f
    else if d > 0.5 then f + 1
    else if f % 2 == 0 then f
    else f + 1
  }

  /** Rounding an integer-valued real returns that integer. */
  lemma RoundOfInt(n: int)
    ensures Round(n as real) == n
  {
    assert (n as real).Floor == n;
  }

  /** Rounding is monotone. */
  lemma RoundMonotone(x: real, y: real)
    requires x <= y
    ensures Round(x) <= Round(y)
  {
  }

  /** A cast of a real to an integer, as Python's `int(x)` and C do it: truncation toward zero. */
  function Trunc(x: real): (n: int)
    ensures x >= 0.0 ==> 0 <= n && n as real <= x < n as real + 1.0
    ensures x < 0.0 ==> n <= 0 && n as real - 1.0 < x <= n as real
  {
    if x >= 0.0 then x.Floor else -((-x).Floor)
  }

  /** A Python value handed to `int(...)`: an int, a float, a str, or any other object
      (None, a list, ...). */
  datatype PyValue = PyInt(i: int) | PyFloat(x: real) | PyStr(s: string) | PyOther

  predicate IsDigit(c: char) { '0' <= c <= '9' }

  predicate IsDigits(s: string) {
    |s| > 0 && forall i :: 0 <= i < |s| ==> IsDigit(s[i])
  }

  /** The value of a string of decimal digits. */
  function DigitsValue(s: string): (n: nat)
    requires forall i :: 0 <= i < |s| ==> IsDigit(s[i])
  {
    if s == [] then 0
    else
      assert IsDigit(s[|s| - 1]);
      10 * DigitsValue(s[..|s| - 1]) + (s[|s| - 1] as int - '0' as int)
  }

  /** A decimal integer literal with an optional sign. */
  predicate IsIntLiteral(s: string) {
    IsDigits(s) || (|s| > 1 && (s[0] == '-' || s[0] == '+') && IsDigits(s[1..]))
  }

  function IntLiteralValue(s: string): int
    requires IsIntLiteral(s)
  {
    if IsDigits(s) then DigitsValue(s)
    else if s[0] == '-' then 0 - DigitsValue(s[1..]) as int
    else DigitsValue(s[1..])
  }

  /** Python's `int(v)`: ints pass, floats truncate, a str must be an integer literal
      (ValueError otherwise), and other objects raise TypeError. */
  function PyIntOf(v: PyValue): (r: Result<int>)
    ensures v.PyInt? ==> r == Ok(v.i)
    ensures v.PyFloat? ==> r.Ok? && (v.x >= 0.0 ==> r.value as real <= v.x < r.value as real + 1.0)
                                 && (v.x < 0.0 ==> r.value as real - 1.0 < v.x <= r.value as real)
    ensures v.PyStr? ==> (r.Ok? <==> IsIntLiteral(v.s)) && (r.Err? ==> r.error == ValueError)
    ensures v.PyOther? ==> r == Err(TypeError)
  {
    match v
    case PyInt(i) => Ok(i)
    case PyFloat(x) => Ok(Trunc(x))
    case PyStr(s) => if IsIntLiteral(s) then Ok(IntLiteralValue(s)) else Err(ValueError)
    case PyOther => Err(TypeError)
  }

  /** The decimal digits of n, most significant first. */
  function Decimal(n: nat): (s: string)
    ensures IsDigits(s)
    decreases n
  {
    var d := ['0' + (n % 10) as char];
    if n < 10 then d else Decimal(n / 10) + d
  }

  /** How Python writes an int: its decimal digits, after a minus sign when negative. */
  function IntString(i: int): string {
    if i < 0 then "-" + Decimal(-i) else Decimal(i)
  }

  lemma {:induction false} DecimalValue(n: nat)
    ensures DigitsValue(Decimal(n)) == n
    decreases n
  {
    var s := Decimal(n);
    if n >= 10 {
      DecimalValue(n / 10);
      assert s[..|s| - 1] == Decimal(n / 10);
    }
  }

  /** `int(str(i)) == i`: every int read back from how Python writes it. */
  lemma PyIntReadsBack(i: int)
    ensures PyIntOf(PyStr(IntString(i))) == Ok(i)
  {
    if i < 0 {
      var s := IntString(i);
      assert !IsDigit(s[0]) && s[1..] == Decimal(-i);
      DecimalValue(-i);
    } else {
      DecimalValue(i);
    }
  }

  function Min(a: int, b: int): int { if a <= b then a else b }
  function Max(a: int, b: int): int { if a >= b then a else b }
  function MinReal(a: real, b: real): real { if a <= b then a else b }
  function MaxReal(a: real, b: real): real { if a >= b then a else b }

  // ---------------------------------------------------------------------------
  // Python list semantics
  // ---------------------------------------------------------------------------

  /** Where `list.insert(i, x)` puts x in a list of length n: negative i counts from
      the end, and the position is clamped to [0, n]. */
  function InsertPos(n: nat, i: int): (k: nat)
    ensures k <= n
    ensures 0 <= i <= n ==> k == i
    ensures i > n ==> k == n
    ensures -(n as int) <= i < 0 ==> k == i + n
    ensures i < -(n as int) ==> k == 0
  {
    if i < 0 then (if n + i < 0 then 0 else n + i)
    else if i > n then n
    else i
  }

  /** `list.insert(i, x)`. */
  function PyInsert<T>(s: seq<T>, i: int, x: T): (r: seq<T>)
    ensures |r| == |s| + 1
    ensures r[InsertPos(|s|, i)] == x
    ensures r[..InsertPos(|s|, i)] == s[..InsertPos(|s|, i)]
    ensures r[InsertPos(|s|, i) + 1..] == s[InsertPos(|s|, i)..]
  {
    var k := InsertPos(|s|, i);
    s[..k] + [x] + s[k..]
  }

  /** Whether `s[i]` (or `s.pop(i)`) is in range, counting negative i from the end. */
  predicate IndexInRange(n: nat, i: int) {
    -(n as int) <= i < n
  }

  /** The position a valid Python index denotes. */
  function NormIndex(n: nat, i: int): (k: nat)
    requires IndexInRange(n, i)
    ensures k < n
    ensures i >= 0 ==> k == i
    ensures i < 0 ==> k == i + n
  {
    if i < 0 then i + n else i
  }

  /** `s` with position k removed (what `s.pop(k)` leaves behind). */
  function RemoveAt<T>(s: seq<T>, k: nat): (r: seq<T>)
    requires k < |s|
    ensures |r| == |s| - 1
    ensures forall j :: 0 <= j < k ==> r[j] == s[j]
    ensures forall j :: k <= j < |r| ==> r[j] == s[j + 1]
  {
    s[..k] + s[k + 1..]
  }

  lemma RemoveAtMultiset<T>(s: seq<T>, k: nat)
    requires k < |s|
    ensures multiset(RemoveAt(s, k)) + multiset{s[k]} == multiset(s)
  {
    assert s == s[..k] + [s[k]] + s[k + 1..];
  }

  lemma InsertMultiset<T>(s: seq<T>, i: int, x: T)
    ensures multiset(PyInsert(s, i, x)) == multiset(s) + multiset{x}
  {
    var k := InsertPos(|s|, i);
    assert s == s[..k] + s[k..];
  }

  /** Keep the elements satisfying p, in order. */
  function Filter<T>(s: seq<T>, p: T -> bool): (r: seq<T>)
    ensures |r| <= |s|
    ensures forall x :: x in r ==> x in s && p(x)
  {
    if s == [] then [] else (if p(s[0]) then [s[0]] else []) + Filter(s[1..], p)
  }

  lemma {:induction false} FilterAppend<T>(a: seq<T>, b: seq<T>, p: T -> bool)
    ensures Filter(a + b, p) == Filter(a, p) + Filter(b, p)
  {
    if a == [] {
      assert a + b == b;
    } else {
      assert (a + b)[1..] == a[1..] + b;
      FilterAppend(a[1..], b, p);
    }
  }

  /** Filtering keeps an element exactly when it satisfies the predicate. */
  lemma {:induction false} FilterMembership<T>(s: seq<T>, p: T -> bool, x: T)
    ensures x in Filter(s, p) <==> x in s && p(x)
  {
    if s != [] {
      FilterMembership(s[1..], p, x);
      assert s == [s[0]] + s[1..];
    }
  }

  /** Filtering a suffix one element longer adds that element in front when it passes. */
  lemma FilterSuffix<T>(s: seq<T>, i: nat, p: T -> bool)
    requires 0 < i <= |s|
    ensures Filter(s[i - 1..], p) == (if p(s[i - 1]) then [s[i - 1]] else []) + Filter(s[i..], p)
  {
    assert s[i - 1..][1..] == s[i..];
  }

  /** One step of a reverse pass that pops the elements failing p (`for i in
      range(len(s)-1, -1, -1): if not p(s[i]): s.pop(i)`): after the positions from i on
      are processed, the list is the untouched prefix followed by the survivors. Popping
      at i - 1 when p fails there keeps that shape. */
  lemma PopStep<T>(s: seq<T>, i: nat, p: T -> bool, cur: seq<T>)
    requires 0 < i <= |s| && !p(s[i - 1])
    requires cur == s[..i] + Filter(s[i..], p)
    ensures i - 1 < |cur| && cur[i - 1] == s[i - 1]
    ensures RemoveAt(cur, i - 1) == s[..i - 1] + Filter(s[i - 1..], p)
  {
    FilterSuffix(s, i, p);
    assert s[..i] == s[..i - 1] + [s[i - 1]];
    assert cur[..i - 1] == s[..i - 1];
    assert cur[i..] == Filter(s[i..], p);
  }

  /** ... and leaving position i - 1 alone when p holds there keeps it too. */
  lemma KeepStep<T>(s: seq<T>, i: nat, p: T -> bool, cur: seq<T>)
    requires 0 < i <= |s| && p(s[i - 1])
    requires cur == s[..i] + Filter(s[i..], p)
    ensures cur == s[..i - 1] + Filter(s[i - 1..], p)
  {
    FilterSuffix(s, i, p);
    assert s[..i] == s[..i - 1] + [s[i - 1]];
  }

  /** Reverse a sequence. */
  function Reverse<T>(s: seq<T>): (r: seq<T>)
    ensures |r| == |s|
  {
    if s == [] then [] else Reverse(s[1..]) + [s[0]]
  }

  lemma {:induction false} ReverseMultiset<T>(s: seq<T>)
    ensures multiset(Reverse(s)) == multiset(s)
  {
    if s != [] {
      ReverseMultiset(s[1..]);
      assert s == [s[0]] + s[1..];
    }
  }

  /** Two complementary filters split a sequence: together they keep every element
      exactly once. */
  lemma {:induction false} FilterComplement<T>(s: seq<T>, p: T -> bool, q: T -> bool)
    requires forall x :: x in s ==> (p(x) <==> !q(x))
    ensures multiset(Filter(s, p)) + multiset(Filter(s, q)) == multiset(s)
  {
    if s != [] {
      var t := s[1..];
      assert forall x :: x in t ==> x in s;
      FilterComplement(t, p, q);
      assert s == [s[0]] + t;
      assert s[0] in s;
      assert multiset(s) == multiset{s[0]} + multiset(t);
      if p(s[0]) {
        assert Filter(s, p) == [s[0]] + Filter(t, p) && Filter(s, q) == Filter(t, q);
        assert multiset(Filter(s, p)) == multiset{s[0]} + multiset(Filter(t, p));
      } else {
        assert Filter(s, q) == [s[0]] + Filter(t, q) && Filter(s, p) == Filter(t, p);
        assert multiset(Filter(s, q)) == multiset{s[0]} + multiset(Filter(t, q));
      }
    }
  }

  // ---------------------------------------------------------------------------
  // Sorting (Python's list.sort on the values the model sorts)
  // ---------------------------------------------------------------------------

  predicate SortedDesc(s: seq<int>) {
    forall i, j :: 0 <= i < j < |s| ==> s[i] >= s[j]
  }

  function InsertDesc(x: int, s: seq<int>): seq<int>
  {
    if s == [] then [x]
    else if x >= s[0] then [x] + s
    else [s[0]] + InsertDesc(x, s[1..])
  }

  lemma {:induction false} InsertDescElems(x: int, s: seq<int>)
    ensures forall y :: y in InsertDesc(x, s) <==> y == x || y in s
    ensures multiset(InsertDesc(x, s)) == multiset(s) + multiset{x}
  {
    if s != [] && x < s[0] {
      assert s == [s[0]] + s[1..];
      InsertDescElems(x, s[1..]);
    }
  }

  lemma {:induction false} InsertDescSorted(x: int, s: seq<int>)
    requires SortedDesc(s)
    ensures SortedDesc(InsertDesc(x, s))
  {
    if s != [] && x < s[0] {
      InsertDescSorted(x, s[1..]);
      InsertDescElems(x, s[1..]);
      var t := InsertDesc(x, s[1..]);
      forall k | 0 <= k < |t| ensures t[k] <= s[0] {
        assert t[k] in t;
        if t[k] != x {
          var j :| 0 <= j < |s[1..]| && s[1..][j] == t[k];
          assert s[j + 1] == t[k];
        }
      }
      assert InsertDesc(x, s) == [s[0]] + t;
    }
  }

  /** `s.sort(reverse=True)`: the same values, largest first. */
  function SortDescending(s: seq<int>): (r: seq<int>)
    ensures SortedDesc(r)
    ensures multiset(r) == multiset(s)
  {
    if s == [] then []
    else
      assert s == [s[0]] + s[1..];
      var t := SortDescending(s[1..]);
      InsertDescSorted(s[0], t);
      InsertDescElems(s[0], t);
      InsertDesc(s[0], t)
  }

  /** No value occurs twice. */
  ghost predicate NoDuplicates(s: seq<int>) {
    forall x :: multiset(s)[x] <= 1
  }

  /** A reordering of a sequence without repeated values has no repeated values either. */
  lemma DistinctAfterSort(a: seq<int>, b: seq<int>)
    requires multiset(a) == multiset(b)
    requires forall x :: multiset(a)[x] <= 1
    ensures forall i, j :: 0 <= i < j < |b| ==> b[i] != b[j]
  {
    forall i, j | 0 <= i < j < |b| ensures b[i] != b[j] {
      if b[i] == b[j] {
        MultisetTwice(b, i, j);
      }
    }
  }

  lemma MultisetTwice(b: seq<int>, i: nat, j: nat)
    requires i < j < |b|
    ensures b[i] == b[j] ==> multiset(b)[b[i]] >= 2
  {
    assert b == b[..i] + [b[i]] + b[i + 1..j] + [b[j]] + b[j + 1..];
  }

  /** A sequence sorted from largest to smallest whose values are distinct is strictly decreasing. */
  lemma SortedDescDistinct(s: seq<int>)
    requires SortedDesc(s)
    requires forall i, j :: 0 <= i < j < |s| ==> s[i] != s[j]
    ensures forall i, j :: 0 <= i < j < |s| ==> s[i] > s[j]
  {
  }

  /** `np.ceil` on a real: the least integer not below x. */
  function Ceil(x: real): (n: int)
    ensures n as real >= x && (n - 1) as real < x
  {
    -((-x).Floor)
  }

  /** x ** k for a natural exponent. */
  function Pow(x: real, k: nat): real {
    if k == 0 then 1.0 else x * Pow(x, k - 1)
  }

  lemma {:induction false} PowAtLeastOne(x: real, k: nat)
    requires x >= 1.0
    ensures Pow(x, k) >= 1.0
  {
    if k > 0 {
      PowAtLeastOne(x, k - 1);
      MulMonotone(x, 1.0, Pow(x, k - 1));
    }
  }

  /** numpy's pareto draw clamped from above: `b = draw + minimum; if b > maximum: b = maximum`.
      Shared by photonzombie/particle.py, photonzombie/glowing_particles.py and
      photonzombie/particles/util.py (the draw itself is random and is an argument). */
  function ParetoClamped(draw: real, minimum: real, maximum: real): (b: real)
    ensures b <= maximum
    ensures b == draw + minimum || b == maximum
    ensures draw + minimum <= maximum ==> b == draw + minimum
  {
    var b := draw + minimum;
    if b > maximum then maximum else b
  }

  predicate SortedAsc(s: seq<int>) {
    forall i, j :: 0 <= i < j < |s| ==> s[i] <= s[j]
  }

  function InsertAsc(x: int, s: seq<int>): seq<int>
  {
    if s == [] then [x]
    else if x <= s[0] then [x] + s
    else [s[0]] + InsertAsc(x, s[1..])
  }

  lemma {:induction false} InsertAscElems(x: int, s: seq<int>)
    ensures forall y :: y in InsertAsc(x, s) <==> y == x || y in s
    ensures multiset(InsertAsc(x, s)) == multiset(s) + multiset{x}
  {
    if s != [] && x > s[0] {
      assert s == [s[0]] + s[1..];
      InsertAscElems(x, s[1..]);
    }
  }

  lemma {:induction false} InsertAscSorted(x: int, s: seq<int>)
    requires SortedAsc(s)
    ensures SortedAsc(InsertAsc(x, s))
  {
    if s != [] && x > s[0] {
      InsertAscSorted(x, s[1..]);
      InsertAscElems(x, s[1..]);
      var t := InsertAsc(x, s[1..]);
      forall k | 0 <= k < |t| ensures s[0] <= t[k] {
        assert t[k] in t;
        if t[k] != x {
          var j :| 0 <= j < |s[1..]| && s[1..][j] == t[k];
          assert s[j + 1] == t[k];
        }
      }
      assert InsertAsc(x, s) == [s[0]] + t;
    }
  }

  /** `s.sort()`: the same values, smallest first. */
  function SortAscending(s: seq<int>): (r: seq<int>)
    ensures SortedAsc(r)
    ensures multiset(r) == multiset(s)
  {
    if s == [] then []
    else
      assert s == [s[0]] + s[1..];
      var t := SortAscending(s[1..]);
      InsertAscSorted(s[0], t);
      InsertAscElems(s[0], t);
      InsertAsc(s[0], t)
  }

  /** `s.index(x)`: the first position holding x. */
  function IndexOf(s: seq<int>, x: int): (i: nat)
    requires x in s
    ensures i < |s| && s[i] == x
    ensures forall j :: 0 <= j < i ==> s[j] != x
  {
    if s[0] == x then 0 else 1 + IndexOf(s[1..], x)
  }

  /** `np.min` of a non-empty sequence. */
  function MinOf(s: seq<real>): (m: real)
    requires s != []
    ensures m in s && forall i :: 0 <= i < |s| ==> m <= s[i]
  {
    if |s| == 1 then s[0] else MinReal(s[0], MinOf(s[1..]))
  }

  /** `np.max` of a non-empty sequence. */
  function MaxOf(s: seq<real>): (m: real)
    requires s != []
    ensures m in s && forall i :: 0 <= i < |s| ==> s[i] <= m
  {
    if |s| == 1 then s[0] else MaxReal(s[0], MaxOf(s[1..]))
  }

  function AbsReal(x: real): (y: real)
    ensures y >= 0.0 && (y == x || y == -x)
  {
    if x < 0.0 then -x else x
  }

  lemma MulNonneg(x: real, y: real)
    requires x >= 0.0 && y >= 0.0
    ensures x * y >= 0.0
  {
  }

  /** Scaling by a non-negative factor is monotone. */
  lemma MulMonotone(a: real, b: real, c: real)
    requires a >= 0.0 && b <= c
    ensures a * b <= a * c
  {
    MulNonneg(a, c - b);
    assert a * (c - b) == a * c - a * b;
  }

  /** A part over a positive whole lies in [0, 1]. */
  lemma DivUnit(a: real, b: real)
    requires 0.0 <= a <= b && b > 0.0
    ensures 0.0 <= a / b <= 1.0
  {
    var q := a / b;
    assert q * b == a;
  }

  /** A fraction f in [0, 1] of a non-negative a lies in [0, a]. */
  lemma FractionBounds(a: real, f: real)
    requires a >= 0.0 && 0.0 <= f <= 1.0
    ensures 0.0 <= a * f <= a
  {
    MulNonneg(a, f);
    MulMonotone(a, f, 1.0);
  }
}
