/** photonzombie.particles.util: coarse-graining a 2-D field into c×c blocks, and the
    clamped pareto draw. The field is an h×w matrix of reals; it is zero-padded on the
    bottom and right to multiples of c, each block is summed (the code sums, though its
    comment says it averages), and the block centres are listed in row-major order. */
module ParticlesUtil {
  import opened Common
  import opened Raster

  /** The second extent of a matrix (0 for a matrix without rows). */
  function Width(a: seq<seq<real>>): nat {
    if |a| == 0 then 0 else |a[0]|
  }

  predicate IsMatrix(a: seq<seq<real>>) {
    IsGrid(a, |a|, Width(a))
  }

  /** An entry of the matrix, or 0 outside it. */
  function At(a: seq<seq<real>>, i: int, j: int): real {
    if 0 <= i < |a| && 0 <= j < |a[i]| then a[i][j] else 0.0
  }

  lemma MulLess(a: int, b: int, c: int)
    requires c > 0 && a < b
    ensures a * c < b * c
  {
    assert b * c - a * c == (b - a) * c;
  }

  /** Scaling both sides of a strict inequality by a positive factor keeps it strict. */
  lemma MulStrict(a: real, b: real, c: real)
    requires a > 0.0 && b < c
    ensures a * b < a * c
  {
    assert a * c - a * b == a * (c - b);
  }

  /** `ceil(dim / coarseness)`: how many blocks of c cover an extent dim. */
  function Blocks(dim: nat, c: nat): (k: nat)
    requires c > 0
    ensures dim <= k * c < dim + c
  {
    var k := Ceil(dim as real / c as real);
    CeilCovers(dim, c);
    k
  }

  /** The real quotient times the divisor gives back the dividend. */
  lemma QuotientTimes(d: real, m: real)
    requires d >= 0.0 && m > 0.0
    ensures (d / m) * m == d && d / m >= 0.0
  {
  }

  lemma RealProduct(k: int, c: int)
    ensures (k * c) as real == k as real * c as real
  {
  }

  lemma CoverUpper(d: real, m: real, x: real, kr: real)
    requires m > 0.0 && x * m == d && x <= kr
    ensures d <= kr * m
  {
    MulMonotone(m, x, kr);
  }

  lemma CoverLower(d: real, m: real, x: real, kr: real)
    requires m > 0.0 && x * m == d && kr - 1.0 < x
    ensures (kr - 1.0) * m < d
  {
    MulStrict(m, kr - 1.0, x);
  }

  /** ceil(dim/c) blocks of c cover dim, and one block fewer does not. */
  lemma CeilCovers(dim: nat, c: nat)
    requires c > 0
    ensures var k := Ceil(dim as real / c as real);
      k >= 0 && dim <= k * c && (k - 1) * c < dim
  {
    var m := c as real;
    var x := dim as real / m;
    var k := Ceil(x);
    QuotientTimes(dim as real, m);
    CoverUpper(dim as real, m, x, k as real);
    CoverLower(dim as real, m, x, k as real);
    RealProduct(k, c);
    RealProduct(k - 1, c);
  }

  /** `coarseness * ceil(dim / coarseness)`: the extent padded to a multiple of c, at
      least dim and less than dim + c. */
  function PaddedDim(dim: nat, c: nat): (n: nat)
    requires c > 0
    ensures n == Blocks(dim, c) * c
    ensures dim <= n < dim + c
  {
    c * Blocks(dim, c)
  }

  /** The zero-padded array of `coarse_grain`. */
  function Padded(a: seq<seq<real>>, c: nat): (p: seq<seq<real>>)
    requires c > 0 && IsMatrix(a)
    ensures IsGrid(p, PaddedDim(|a|, c), PaddedDim(Width(a), c))
    ensures forall i, j :: 0 <= i < |a| && 0 <= j < Width(a) ==> p[i][j] == a[i][j]
    ensures forall i, j :: 0 <= i < |p| && 0 <= j < |p[i]| && (i >= |a| || j >= Width(a)) ==> p[i][j] == 0.0
  {
    seq(PaddedDim(|a|, c), i requires 0 <= i => seq(PaddedDim(Width(a), c), j requires 0 <= j => At(a, i, j)))
  }

  /** a[i][j0] + ... + a[i][j1 - 1], reading 0 outside the matrix. */
  function RowSum(a: seq<seq<real>>, i: int, j0: int, j1: int): real
    decreases j1 - j0
  {
    if j1 <= j0 then 0.0 else RowSum(a, i, j0, j1 - 1) + At(a, i, j1 - 1)
  }

  /** The sum over rows i0..i1-1 and columns j0..j1-1, reading 0 outside the matrix. */
  function RectSum(a: seq<seq<real>>, i0: int, i1: int, j0: int, j1: int): real
    decreases i1 - i0
  {
    if i1 <= i0 then 0.0 else RectSum(a, i0, i1 - 1, j0, j1) + RowSum(a, i1 - 1, j0, j1)
  }

  function Sum(s: seq<real>): real {
    if s == [] then 0.0 else Sum(s[..|s| - 1]) + s[|s| - 1]
  }

  /** The sum of every entry, row by row. */
  function Total(a: seq<seq<real>>): real {
    if a == [] then 0.0 else Total(a[..|a| - 1]) + Sum(a[|a| - 1])
  }

  /** The m×n matrix of c×c block sums of g. */
  function BlockSums(g: seq<seq<real>>, c: nat, m: nat, n: nat): (r: seq<seq<real>>)
    ensures IsGrid(r, m, n)
    ensures forall bi, bj :: 0 <= bi < m && 0 <= bj < n ==> r[bi][bj] == RectSum(g, bi * c, bi * c + c, bj * c, bj * c + c)
  {
    seq(m, bi requires 0 <= bi < m => BlockRow(g, c, bi, n))
  }

  function BlockRow(g: seq<seq<real>>, c: nat, bi: int, n: nat): (r: seq<real>)
    ensures |r| == n
    ensures forall bj :: 0 <= bj < n ==> r[bj] == RectSum(g, bi * c, bi * c + c, bj * c, bj * c + c)
  {
    seq(n, bj requires 0 <= bj < n => RectSum(g, bi * c, bi * c + c, bj * c, bj * c + c))
  }

  /** The row-major position of cell (x, y) in a grid with ncols columns. */
  function FlatIndex(x: int, y: int, ncols: int): int {
    x * ncols + y
  }

  /** An exact quotient of reals is the integer quotient. */
  lemma ExactQuotient(q: int, d: int)
    requires d > 0
    ensures (q * d) as real / d as real == q as real
  {
    assert (q * d) as real == q as real * d as real;
  }

  lemma MulAtLeast(d: int, n: int)
    requires d >= 1 && n > 0
    ensures d * n >= n
  {
    assert d * n == (d - 1) * n + n;
    assert (d - 1) * n >= 0;
  }

  /** The only multiple of n strictly between -n and n is 0. */
  lemma SmallMultipleIsZero(d: int, n: int)
    requires n > 0 && -n < d * n < n
    ensures d == 0
  {
    if d >= 1 {
      MulAtLeast(d, n);
    } else if d <= -1 {
      MulAtLeast(-d, n);
    }
  }

  /** `y = pos mod ncols; x = int((pos - y) / ncols)`: the cell at a row-major position. */
  function DecodeFlat(pos: nat, ncols: nat): (r: (nat, nat))
    requires ncols > 0
    ensures FlatIndex(r.0, r.1, ncols) == pos && r.1 < ncols
  {
    var y := pos % ncols;
    var q := pos / ncols;
    assert pos - y == q * ncols;
    ExactQuotient(q, ncols);
    (Trunc((pos - y) as real / ncols as real), y)
  }

  /** Decoding undoes the row-major layout. */
  lemma DecodeFlatInverse(x: nat, y: nat, ncols: nat)
    requires y < ncols
    ensures DecodeFlat(FlatIndex(x, y, ncols), ncols) == (x, y)
  {
    var r := DecodeFlat(FlatIndex(x, y, ncols), ncols);
    var d := r.0 - x;
    assert d * ncols == y - r.1 by {
      assert r.0 * ncols + r.1 == x * ncols + y;
      assert d * ncols == r.0 * ncols - x * ncols;
    }
    SmallMultipleIsZero(d, ncols);
  }

  /** A position inside an nrows×ncols grid decodes to a cell inside it. */
  lemma DecodeFlatInGrid(pos: nat, nrows: nat, ncols: nat)
    requires ncols > 0 && pos < nrows * ncols
    ensures DecodeFlat(pos, ncols).0 < nrows
  {
    var r := DecodeFlat(pos, ncols);
    if r.0 >= nrows {
      assert r.0 * ncols >= nrows * ncols by {
        if r.0 > nrows {
          MulLess(nrows, r.0, ncols);
        }
      }
    }
  }

  /** The block centres `k·c + c/2` of an m×n block grid, in row-major order. */
  function Centres(m: nat, n: nat, c: nat): (r: seq<(real, real)>)
    ensures |r| == m * n
  {
    if n == 0 then []
    else seq(m * n, k requires 0 <= k < m * n =>
           ((DecodeFlat(k, n).0 * c) as real + c as real / 2.0, (DecodeFlat(k, n).1 * c) as real + c as real / 2.0))
  }

  /** Block (bi, bj) has its centre at row-major position bi·n + bj. */
  lemma CentreOfBlock(m: nat, n: nat, c: nat, bi: nat, bj: nat)
    requires bi < m && bj < n
    ensures FlatIndex(bi, bj, n) < m * n
    ensures Centres(m, n, c)[FlatIndex(bi, bj, n)] == ((bi * c) as real + c as real / 2.0, (bj * c) as real + c as real / 2.0)
  {
    DecodeFlatInverse(bi, bj, n);
    assert FlatIndex(bi, bj, n) < m * n by {
      assert FlatIndex(bi, bj, n) < (bi + 1) * n;
      if bi + 1 < m {
        MulLess(bi + 1, m, n);
      }
    }
  }

  /** No two blocks share a centre. */
  lemma CentresDistinct(m: nat, n: nat, c: nat, k1: nat, k2: nat)
    requires c > 0 && k1 < m * n && k2 < m * n && k1 != k2
    ensures Centres(m, n, c)[k1] != Centres(m, n, c)[k2]
  {
    var d1 := DecodeFlat(k1, n);
    var d2 := DecodeFlat(k2, n);
    if d1.0 != d2.0 {
      if d1.0 < d2.0 { MulLess(d1.0, d2.0, c); } else { MulLess(d2.0, d1.0, c); }
    } else {
      assert d1.1 != d2.1;
      if d1.1 < d2.1 { MulLess(d1.1, d2.1, c); } else { MulLess(d2.1, d1.1, c); }
    }
  }

  /** `coarse_grain(some_array, coarseness)`: the block centres and the block sums of
      the padded array. */
  function CoarseGrain(a: seq<seq<real>>, c: nat): (r: (seq<(real, real)>, seq<seq<real>>))
    requires c > 0 && IsMatrix(a)
    ensures IsGrid(r.1, Blocks(|a|, c), Blocks(Width(a), c))
    ensures |r.0| == Blocks(|a|, c) * Blocks(Width(a), c)
  {
    var m := Blocks(|a|, c);
    var n := Blocks(Width(a), c);
    (Centres(m, n, c), BlockSums(Padded(a, c), c, m, n))
  }

  /** Each output cell is the sum of the c×c block of the input under it (entries of
      the padding count as 0). */
  lemma CoarseGrainCell(a: seq<seq<real>>, c: nat, bi: nat, bj: nat)
    requires c > 0 && IsMatrix(a)
    requires bi < Blocks(|a|, c) && bj < Blocks(Width(a), c)
    ensures CoarseGrain(a, c).1[bi][bj] == RectSum(a, bi * c, bi * c + c, bj * c, bj * c + c)
  {
    var p := Padded(a, c);
    PaddedAgrees(a, c, bi * c, bi * c + c, bj * c, bj * c + c);
  }

  // ---------------------------------------------------------------------------
  // Sums over rectangles
  // ---------------------------------------------------------------------------

  lemma {:induction false} RowSplit(a: seq<seq<real>>, i: int, j0: int, j1: int, j2: int)
    requires j0 <= j1 <= j2
    ensures RowSum(a, i, j0, j1) + RowSum(a, i, j1, j2) == RowSum(a, i, j0, j2)
    decreases j2 - j1
  {
    if j2 > j1 {
      RowSplit(a, i, j0, j1, j2 - 1);
    }
  }

  lemma {:induction false} RectColSplit(a: seq<seq<real>>, i0: int, i1: int, j0: int, j1: int, j2: int)
    requires j0 <= j1 <= j2
    ensures RectSum(a, i0, i1, j0, j1) + RectSum(a, i0, i1, j1, j2) == RectSum(a, i0, i1, j0, j2)
    decreases i1 - i0
  {
    if i1 > i0 {
      RectColSplit(a, i0, i1 - 1, j0, j1, j2);
      RowSplit(a, i1 - 1, j0, j1, j2);
    }
  }

  lemma {:induction false} RectRowSplit(a: seq<seq<real>>, i0: int, i1: int, i2: int, j0: int, j1: int)
    requires i0 <= i1 <= i2
    ensures RectSum(a, i0, i1, j0, j1) + RectSum(a, i1, i2, j0, j1) == RectSum(a, i0, i2, j0, j1)
    decreases i2 - i1
  {
    if i2 > i1 {
      RectRowSplit(a, i0, i1, i2 - 1, j0, j1);
    }
  }

  /** Two matrices that agree on a rectangle have the same sum over it. */
  lemma {:induction false} RowSumAgrees(a: seq<seq<real>>, b: seq<seq<real>>, i: int, j0: int, j1: int)
    requires forall j :: j0 <= j < j1 ==> At(a, i, j) == At(b, i, j)
    ensures RowSum(a, i, j0, j1) == RowSum(b, i, j0, j1)
    decreases j1 - j0
  {
    if j1 > j0 {
      RowSumAgrees(a, b, i, j0, j1 - 1);
    }
  }

  lemma {:induction false} RectSumAgrees(a: seq<seq<real>>, b: seq<seq<real>>, i0: int, i1: int, j0: int, j1: int)
    requires forall i, j :: i0 <= i < i1 && j0 <= j < j1 ==> At(a, i, j) == At(b, i, j)
    ensures RectSum(a, i0, i1, j0, j1) == RectSum(b, i0, i1, j0, j1)
    decreases i1 - i0
  {
    if i1 > i0 {
      RectSumAgrees(a, b, i0, i1 - 1, j0, j1);
      RowSumAgrees(a, b, i1 - 1, j0, j1);
    }
  }

  /** Inside its own extent the padded array reads like the input; outside both read 0. */
  lemma PaddedAgrees(a: seq<seq<real>>, c: nat, i0: int, i1: int, j0: int, j1: int)
    requires c > 0 && IsMatrix(a)
    ensures RectSum(Padded(a, c), i0, i1, j0, j1) == RectSum(a, i0, i1, j0, j1)
  {
    var p := Padded(a, c);
    forall i, j | i0 <= i < i1 && j0 <= j < j1
      ensures At(p, i, j) == At(a, i, j)
    {
      if 0 <= i < |p| && 0 <= j < |p[i]| {
        assert p[i][j] == At(a, i, j);
      } else if 0 <= i < |a| && 0 <= j < |a[i]| {
        assert false;
      }
    }
    RectSumAgrees(p, a, i0, i1, j0, j1);
  }

  /** A row read through `At` from column 0 sums like the row itself; the columns
      beyond it add 0. */
  lemma {:induction false} RowSumIsSum(a: seq<seq<real>>, i: int, n: int)
    requires 0 <= i < |a| && 0 <= n
    ensures RowSum(a, i, 0, n) == Sum(a[i][..if n <= |a[i]| then n else |a[i]|])
    decreases n
  {
    if n > 0 {
      RowSumIsSum(a, i, n - 1);
      if n <= |a[i]| {
        assert a[i][..n][..n - 1] == a[i][..n - 1];
      }
    }
  }

  lemma {:induction false} RowSumOutside(a: seq<seq<real>>, i: int, j0: int, j1: int)
    requires !(0 <= i < |a|)
    ensures RowSum(a, i, j0, j1) == 0.0
    decreases j1 - j0
  {
    if j1 > j0 {
      RowSumOutside(a, i, j0, j1 - 1);
    }
  }

  /** Summing the first n rows over enough columns is the total of those rows. */
  lemma {:induction false} RectSumIsTotal(a: seq<seq<real>>, n: nat, w: nat)
    requires n <= |a| && forall i :: 0 <= i < |a| ==> |a[i]| <= w
    ensures RectSum(a, 0, n, 0, w) == Total(a[..n])
  {
    if n > 0 {
      RectSumIsTotal(a, n - 1, w);
      RowSumIsSum(a, n - 1, w);
      assert a[n - 1][..|a[n - 1]|] == a[n - 1];
      assert a[..n][..n - 1] == a[..n - 1];
    }
  }

  lemma {:induction false} RectSumBeyond(a: seq<seq<real>>, n: nat, h: nat, w: nat)
    requires |a| <= n <= h
    ensures RectSum(a, 0, h, 0, w) == RectSum(a, 0, n, 0, w)
    decreases h - n
  {
    if h > n {
      RectSumBeyond(a, n, h - 1, w);
      RowSumOutside(a, h - 1, 0, w);
    }
  }

  lemma {:induction false} RectSumNoColumns(a: seq<seq<real>>, i0: int, i1: int, j: int)
    ensures RectSum(a, i0, i1, j, j) == 0.0
    decreases i1 - i0
  {
    if i1 > i0 {
      RectSumNoColumns(a, i0, i1 - 1, j);
    }
  }

  /** The sums of the first n blocks of row bi cover columns 0..n·c-1 of that band. */
  lemma {:induction false} BlockRowSum(g: seq<seq<real>>, c: nat, bi: int, n: nat)
    ensures Sum(BlockRow(g, c, bi, n)) == RectSum(g, bi * c, bi * c + c, 0, n * c)
  {
    if n == 0 {
      RectSumNoColumns(g, bi * c, bi * c + c, 0);
    } else {
      var r := BlockRow(g, c, bi, n);
      assert (n - 1) * c + c == n * c;
      assert r[..n - 1] == BlockRow(g, c, bi, n - 1);
      assert r[n - 1] == RectSum(g, bi * c, bi * c + c, (n - 1) * c, n * c);
      assert Sum(r) == Sum(r[..n - 1]) + r[n - 1];
      BlockRowSum(g, c, bi, n - 1);
      assert Sum(r[..n - 1]) == RectSum(g, bi * c, bi * c + c, 0, (n - 1) * c);
      assert 0 <= (n - 1) * c <= n * c;
      RectColSplit(g, bi * c, bi * c + c, 0, (n - 1) * c, n * c);
    }
  }

  lemma {:induction false} BlockSumsTotal(g: seq<seq<real>>, c: nat, m: nat, n: nat)
    ensures Total(BlockSums(g, c, m, n)) == RectSum(g, 0, m * c, 0, n * c)
  {
    if m > 0 {
      var r := BlockSums(g, c, m, n);
      assert (m - 1) * c + c == m * c;
      assert r[..m - 1] == BlockSums(g, c, m - 1, n);
      BlockSumsTotal(g, c, m - 1, n);
      assert r[m - 1] == BlockRow(g, c, m - 1, n);
      BlockRowSum(g, c, m - 1, n);
      assert 0 <= (m - 1) * c <= m * c;
      RectRowSplit(g, 0, (m - 1) * c, m * c, 0, n * c);
    }
  }

  /** Coarse-graining preserves the total: padding adds zeros and the blocks tile the
      padded array. */
  lemma CoarseGrainTotal(a: seq<seq<real>>, c: nat)
    requires c > 0 && IsMatrix(a)
    ensures Total(CoarseGrain(a, c).1) == Total(a)
  {
    var m := Blocks(|a|, c);
    var n := Blocks(Width(a), c);
    BlockSumsTotal(Padded(a, c), c, m, n);
    PaddedAgrees(a, c, 0, m * c, 0, n * c);
    RectSumBeyond(a, |a|, m * c, n * c);
    RectSumIsTotal(a, |a|, n * c);
    assert a[..|a|] == a;
  }

  /** `random_pareto(a, minimum, maximum)`, given the pareto draw. */
  function RandomPareto(draw: real, minimum: real, maximum: real): (b: real)
    ensures b <= maximum
    ensures draw >= 0.0 && minimum <= maximum ==> minimum <= b
  {
    ParetoClamped(draw, minimum, maximum)
  }

  // ---------------------------------------------------------------------------
  // The module as written
  // ---------------------------------------------------------------------------

  /** The global names photonzombie/particles/util.py binds: its two functions. It
      imports nothing, so `np` is not among them. */
  const UtilGlobals: set<string> := {"coarse_grain", "random_pareto"}

  /** Evaluating a global name: NameError unless the module binds it. */
  function LookupGlobal(globals: set<string>, name: string): (r: Outcome)
    ensures r.Pass? <==> name in globals
    ensures r.Fail? ==> r.error == NameError
  {
    if name in globals then Pass else Fail(NameError)
  }

  /** `coarse_grain` as written: its first statement evaluates `np.array`, a name the
      module never binds, so every call raises NameError. `CoarseGrain` is the function
      with numpy in scope, which photonzombie/particles/world.py repeats as
      `_coarse_grain`. */
  function CoarseGrainAsWritten(a: seq<seq<real>>, c: nat): (r: Result<(seq<(real, real)>, seq<seq<real>>)>)
    ensures r == Err(NameError)
  {
    match LookupGlobal(UtilGlobals, "np")
    case Fail(e) => Err(e)
    case Pass => assert false; Err(NameError)
  }

  /** `random_pareto` as written: the draw `np.random.pareto(a)` raises NameError for
      the same reason, whatever the arguments. */
  function RandomParetoAsWritten(draw: real, minimum: real, maximum: real): (r: Result<real>)
    ensures r == Err(NameError)
  {
    match LookupGlobal(UtilGlobals, "np")
    case Fail(e) => Err(e)
    case Pass => Ok(RandomPareto(draw, minimum, maximum))
  }
}
