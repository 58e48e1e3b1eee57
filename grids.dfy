/**
 * Rectangular grids stored row by row (a list of rows, as both the planner and
 * the robot keep their maps), with the row-major scan order both of them use
 * and the sums the belief filter and the convergence test take over a grid.
 */
module Grids {

  /** A grid cell as (row, column). */
  type Cell = (int, int)

  /** `g` has `rows` rows of `cols` entries each. */
  predicate IsGrid<T>(g: seq<seq<T>>, rows: int, cols: int)
  {
    |g| == rows && forall r :: 0 <= r < |g| ==> |g[r]| == cols
  }

  predicate InBounds(rows: int, cols: int, p: Cell)
  {
    0 <= p.0 < rows && 0 <= p.1 < cols
  }

  /** The cell (`r`, `c`) comes strictly before `p` in row-major order. */
  predicate Before(r: int, c: int, p: Cell)
  {
    r < p.0 || (r == p.0 && c < p.1)
  }

  /** `n` copies of `x`. */
  function Repeat<T>(n: nat, x: T): (s: seq<T>)
    ensures |s| == n && forall i :: 0 <= i < n ==> s[i] == x
  {
    seq(n, _ => x)
  }

  /** A `rows` by `cols` grid holding `x` everywhere. */
  function Fill<T>(rows: nat, cols: nat, x: T): (g: seq<seq<T>>)
    ensures IsGrid(g, rows, cols)
    ensures forall r, c :: 0 <= r < rows && 0 <= c < cols ==> g[r][c] == x
  {
    seq(rows, _ => Repeat(cols, x))
  }

  /** `g` with the entry at `p` replaced by `x`; every other entry is kept. */
  function Set<T>(g: seq<seq<T>>, p: Cell, x: T): (g': seq<seq<T>>)
    requires 0 <= p.0 < |g| && 0 <= p.1 < |g[p.0]|
    ensures |g'| == |g| && forall r :: 0 <= r < |g| ==> |g'[r]| == |g[r]|
    ensures forall r, c :: 0 <= r < |g| && 0 <= c < |g[r]| ==>
      g'[r][c] == if r == p.0 && c == p.1 then x else g[r][c]
  {
    g[p.0 := g[p.0][p.1 := x]]
  }

  /** Two grids of the same shape that agree entry by entry are equal. */
  lemma GridExt<T>(a: seq<seq<T>>, b: seq<seq<T>>, rows: int, cols: int)
    requires IsGrid(a, rows, cols) && IsGrid(b, rows, cols)
    requires forall r, c :: 0 <= r < rows && 0 <= c < cols ==> a[r][c] == b[r][c]
    ensures a == b
  {
    forall r | 0 <= r < rows
      ensures a[r] == b[r]
    {
      assert forall c :: 0 <= c < cols ==> a[r][c] == b[r][c];
    }
  }

  // ---------------------------------------------------------------------
  // Sums, added from the left as the accumulator loops do
  // ---------------------------------------------------------------------

  /** The sum of the first `n` entries of `s`. */
  function SumFirst(s: seq<real>, n: nat): real
    requires n <= |s|
  {
    if n == 0 then 0.0 else SumFirst(s, n - 1) + s[n - 1]
  }

  function Sum(s: seq<real>): real
  {
    SumFirst(s, |s|)
  }

  /** The sum of the entries of the first `n` rows of `m`, row after row. */
  function TotalFirst(m: seq<seq<real>>, n: nat): real
    requires n <= |m|
  {
    if n == 0 then 0.0 else TotalFirst(m, n - 1) + Sum(m[n - 1])
  }

  /** The sum of every entry of a grid. */
  function Total(m: seq<seq<real>>): real
  {
    TotalFirst(m, |m|)
  }

  predicate NonNegative(m: seq<seq<real>>)
  {
    forall r, c :: 0 <= r < |m| && 0 <= c < |m[r]| ==> m[r][c] >= 0.0
  }

  lemma {:induction false} SumFirstNonNegative(s: seq<real>, n: nat)
    requires n <= |s|
    requires forall i :: 0 <= i < |s| ==> s[i] >= 0.0
    ensures SumFirst(s, n) >= 0.0
  {
    if n > 0 {
      SumFirstNonNegative(s, n - 1);
    }
  }

  /** Over non-negative entries a longer prefix sums to at least as much. */
  lemma {:induction false} SumFirstGrows(s: seq<real>, n: nat, m: nat)
    requires n <= m <= |s|
    requires forall i :: 0 <= i < |s| ==> s[i] >= 0.0
    ensures SumFirst(s, n) <= SumFirst(s, m)
  {
    if n < m {
      SumFirstGrows(s, n, m - 1);
    }
  }

  /** Non-negative entries sum to zero exactly when every one of them is zero. */
  lemma {:induction false} SumFirstZeroIff(s: seq<real>, n: nat)
    requires n <= |s|
    requires forall i :: 0 <= i < |s| ==> s[i] >= 0.0
    ensures SumFirst(s, n) == 0.0 <==> forall i :: 0 <= i < n ==> s[i] == 0.0
  {
    if n > 0 {
      SumFirstZeroIff(s, n - 1);
      SumFirstNonNegative(s, n - 1);
    }
  }

  /** A non-negative entry among the first `n` is at most their sum. */
  lemma {:induction false} EntryAtMostSumFirst(s: seq<real>, n: nat, i: int)
    requires n <= |s|
    requires forall k :: 0 <= k < |s| ==> s[k] >= 0.0
    requires 0 <= i < n
    ensures s[i] <= SumFirst(s, n)
  {
    SumFirstNonNegative(s, n - 1);
    if i < n - 1 {
      EntryAtMostSumFirst(s, n - 1, i);
    }
  }

  /** Entry-wise no larger rows have no larger sums. */
  lemma {:induction false} SumFirstMonotone(a: seq<real>, b: seq<real>, n: nat)
    requires n <= |a| && n <= |b|
    requires forall i :: 0 <= i < n ==> a[i] <= b[i]
    ensures SumFirst(a, n) <= SumFirst(b, n)
  {
    if n > 0 {
      SumFirstMonotone(a, b, n - 1);
    }
  }

  /** `n` copies of `x` sum to `n * x`. */
  lemma {:induction false} SumFirstConstant(s: seq<real>, n: nat, x: real)
    requires n <= |s|
    requires forall i :: 0 <= i < |s| ==> s[i] == x
    ensures SumFirst(s, n) == (n as real) * x
  {
    if n > 0 {
      SumFirstConstant(s, n - 1, x);
    }
  }

  lemma DivideAdd(x: real, y: real, k: real)
    requires k != 0.0
    ensures x / k + y / k == (x + y) / k
  {
  }

  lemma {:induction false} SumFirstDivide(a: seq<real>, b: seq<real>, k: real, n: nat)
    requires k != 0.0
    requires n <= |a| == |b|
    requires forall i :: 0 <= i < |a| ==> b[i] == a[i] / k
    ensures SumFirst(b, n) == SumFirst(a, n) / k
  {
    if n > 0 {
      SumFirstDivide(a, b, k, n - 1);
      DivideAdd(SumFirst(a, n - 1), a[n - 1], k);
    }
  }

  lemma {:induction false} SumFirstScale(a: seq<real>, c: seq<real>, x: real, n: nat)
    requires n <= |a| == |c|
    requires forall i :: 0 <= i < |a| ==> c[i] == x * a[i]
    ensures SumFirst(c, n) == x * SumFirst(a, n)
  {
    if n > 0 {
      SumFirstScale(a, c, x, n - 1);
    }
  }

  /** Scaling by a non-negative factor keeps an inequality. */
  lemma ScaleAtMost(p: real, a: real, b: real)
    requires 0.0 <= p && a <= b
    ensures p * a <= p * b
  {
  }

  /** Row `c` is, entry by entry, `x` times `a` plus `y` times `b`. */
  predicate RowMix(a: seq<real>, b: seq<real>, c: seq<real>, x: real, y: real)
  {
    |a| == |b| == |c| && forall i :: 0 <= i < |a| ==> c[i] == a[i] * x + b[i] * y
  }

  lemma {:induction false} SumFirstMix(a: seq<real>, b: seq<real>, c: seq<real>, x: real, y: real, n: nat)
    requires n <= |a| && RowMix(a, b, c, x, y)
    ensures SumFirst(c, n) == x * SumFirst(a, n) + y * SumFirst(b, n)
  {
    if n > 0 {
      SumFirstMix(a, b, c, x, y, n - 1);
      MixAdd(x, y, SumFirst(a, n - 1), SumFirst(b, n - 1), SumFirst(c, n - 1), a[n - 1], b[n - 1], c[n - 1],
        SumFirst(a, n), SumFirst(b, n), SumFirst(c, n));
    }
  }

  lemma MixSwap(x: real, y: real, a: real, b: real, c: real)
    requires c == x * a + y * b
    ensures c == a * x + b * y
  {
  }

  /** Adding two combinations with the same weights gives that combination of the sums. */
  lemma MixAdd(x: real, y: real, a: real, b: real, c: real, a': real, b': real, c': real, sa: real, sb: real, sc: real)
    requires c == x * a + y * b && c' == a' * x + b' * y
    requires sa == a + a' && sb == b + b' && sc == c + c'
    ensures sc == x * sa + y * sb
  {
  }

  /** Two rows that agree on their first `n` entries have the same sum of those entries. */
  lemma {:induction false} SumFirstSame(a: seq<real>, b: seq<real>, n: nat)
    requires n <= |a| && n <= |b|
    requires forall i :: 0 <= i < n ==> a[i] == b[i]
    ensures SumFirst(a, n) == SumFirst(b, n)
  {
    if n > 0 {
      SumFirstSame(a, b, n - 1);
    }
  }

  // ---------------------------------------------------------------------
  // Totals over grids
  // ---------------------------------------------------------------------

  lemma {:induction false} TotalFirstNonNegative(m: seq<seq<real>>, n: nat)
    requires n <= |m|
    requires NonNegative(m)
    ensures TotalFirst(m, n) >= 0.0
  {
    if n > 0 {
      TotalFirstNonNegative(m, n - 1);
      var row := m[n - 1];
      SumFirstNonNegative(row, |row|);
    }
  }

  lemma TotalNonNegative(m: seq<seq<real>>)
    requires NonNegative(m)
    ensures Total(m) >= 0.0
  {
    TotalFirstNonNegative(m, |m|);
  }

  lemma {:induction false} TotalFirstZeroIff(m: seq<seq<real>>, n: nat)
    requires n <= |m|
    requires NonNegative(m)
    ensures TotalFirst(m, n) == 0.0 <==> forall r, c :: 0 <= r < n && 0 <= c < |m[r]| ==> m[r][c] == 0.0
  {
    if n > 0 {
      var row := m[n - 1];
      TotalFirstZeroIff(m, n - 1);
      TotalFirstNonNegative(m, n - 1);
      SumFirstNonNegative(row, |row|);
      SumFirstZeroIff(row, |row|);
    }
  }

  /** A non-negative grid totals zero exactly when every entry is zero. */
  lemma TotalZeroIff(m: seq<seq<real>>)
    requires NonNegative(m)
    ensures Total(m) == 0.0 <==> forall r, c :: 0 <= r < |m| && 0 <= c < |m[r]| ==> m[r][c] == 0.0
  {
    TotalFirstZeroIff(m, |m|);
  }

  lemma {:induction false} EntryAtMostTotalFirst(m: seq<seq<real>>, n: nat, r: int, c: int)
    requires n <= |m|
    requires NonNegative(m)
    requires 0 <= r < n && 0 <= c < |m[r]|
    ensures m[r][c] <= TotalFirst(m, n)
  {
    var row := m[n - 1];
    TotalFirstNonNegative(m, n - 1);
    SumFirstNonNegative(row, |row|);
    if r == n - 1 {
      EntryAtMostSumFirst(row, |row|, c);
    } else {
      EntryAtMostTotalFirst(m, n - 1, r, c);
    }
  }

  /** An entry of a non-negative grid is at most the grid's total. */
  lemma EntryAtMostTotal(m: seq<seq<real>>, r: int, c: int)
    requires NonNegative(m)
    requires 0 <= r < |m| && 0 <= c < |m[r]|
    ensures m[r][c] <= Total(m)
  {
    EntryAtMostTotalFirst(m, |m|, r, c);
  }

  lemma {:induction false} TotalFirstConstant(m: seq<seq<real>>, n: nat, cols: nat, x: real)
    requires n <= |m|
    requires forall r :: 0 <= r < |m| ==> |m[r]| == cols
    requires forall r, c :: 0 <= r < |m| && 0 <= c < cols ==> m[r][c] == x
    ensures TotalFirst(m, n) == (n as real) * (cols as real) * x
  {
    if n > 0 {
      TotalFirstConstant(m, n - 1, cols, x);
      var row := m[n - 1];
      SumFirstConstant(row, cols, x);
    }
  }

  /** A `rows` by `cols` grid of `x` totals `rows * cols * x`. */
  lemma TotalConstant(m: seq<seq<real>>, rows: nat, cols: nat, x: real)
    requires IsGrid(m, rows, cols)
    requires forall r, c :: 0 <= r < rows && 0 <= c < cols ==> m[r][c] == x
    ensures Total(m) == (rows as real) * (cols as real) * x
  {
    TotalFirstConstant(m, rows, cols, x);
  }

  /** Two grids with the same row shapes. */
  predicate SameRows(a: seq<seq<real>>, b: seq<seq<real>>)
  {
    |a| == |b| && forall r :: 0 <= r < |a| ==> |a[r]| == |b[r]|
  }

  /** Grids of the same row shapes that agree entry by entry are equal. */
  lemma SameRowsExt(a: seq<seq<real>>, b: seq<seq<real>>)
    requires SameRows(a, b)
    requires forall r, c :: 0 <= r < |a| && 0 <= c < |a[r]| ==> a[r][c] == b[r][c]
    ensures a == b
  {
    forall r | 0 <= r < |a|
      ensures a[r] == b[r]
    {
      assert forall c :: 0 <= c < |a[r]| ==> a[r][c] == b[r][c];
    }
  }

  lemma {:induction false} TotalFirstDivide(a: seq<seq<real>>, b: seq<seq<real>>, k: real, n: nat)
    requires k != 0.0
    requires n <= |a| && SameRows(a, b)
    requires forall r, c :: 0 <= r < |a| && 0 <= c < |a[r]| ==> b[r][c] == a[r][c] / k
    ensures TotalFirst(b, n) == TotalFirst(a, n) / k
  {
    if n > 0 {
      TotalFirstDivide(a, b, k, n - 1);
      var ar, br := a[n - 1], b[n - 1];
      SumFirstDivide(ar, br, k, |ar|);
      DivideAdd(TotalFirst(a, n - 1), Sum(ar), k);
    }
  }

  /** Dividing every entry by `k` divides the total by `k`. */
  lemma TotalDivide(a: seq<seq<real>>, b: seq<seq<real>>, k: real)
    requires k != 0.0
    requires SameRows(a, b)
    requires forall r, c :: 0 <= r < |a| && 0 <= c < |a[r]| ==> b[r][c] == a[r][c] / k
    ensures Total(b) == Total(a) / k
  {
    TotalFirstDivide(a, b, k, |a|);
  }

  lemma {:induction false} TotalFirstScale(a: seq<seq<real>>, c: seq<seq<real>>, x: real, n: nat)
    requires n <= |a| && SameRows(a, c)
    requires forall r, k :: 0 <= r < |a| && 0 <= k < |a[r]| ==> c[r][k] == x * a[r][k]
    ensures TotalFirst(c, n) == x * TotalFirst(a, n)
  {
    if n > 0 {
      TotalFirstScale(a, c, x, n - 1);
      var ar, cr := a[n - 1], c[n - 1];
      SumFirstScale(ar, cr, x, |ar|);
    }
  }

  /** Scaling every entry by `x` scales the total by `x`. */
  lemma TotalScale(a: seq<seq<real>>, c: seq<seq<real>>, x: real)
    requires SameRows(a, c)
    requires forall r, k :: 0 <= r < |a| && 0 <= k < |a[r]| ==> c[r][k] == x * a[r][k]
    ensures Total(c) == x * Total(a)
  {
    TotalFirstScale(a, c, x, |a|);
  }

  /** `c` is, entry by entry, `x` times `a` plus `y` times `b`. */
  predicate Mix(a: seq<seq<real>>, b: seq<seq<real>>, c: seq<seq<real>>, x: real, y: real)
  {
    |a| == |b| == |c| && forall r :: 0 <= r < |a| ==> RowMix(a[r], b[r], c[r], x, y)
  }

  /** The row sums of a matrix. */
  function RowSums(m: seq<seq<real>>): (s: seq<real>)
    ensures |s| == |m| && forall r :: 0 <= r < |m| ==> s[r] == Sum(m[r])
  {
    seq(|m|, r requires 0 <= r < |m| => Sum(m[r]))
  }

  lemma {:induction false} TotalFirstIsSumOfRows(m: seq<seq<real>>, n: nat)
    requires n <= |m|
    ensures TotalFirst(m, n) == SumFirst(RowSums(m), n)
  {
    if n > 0 {
      TotalFirstIsSumOfRows(m, n - 1);
    }
  }

  /** The total of an entry-wise linear combination of two grids is that combination of their totals. */
  lemma TotalMix(a: seq<seq<real>>, b: seq<seq<real>>, c: seq<seq<real>>, x: real, y: real)
    requires Mix(a, b, c, x, y)
    ensures Total(c) == x * Total(a) + y * Total(b)
  {
    RowSumsMix(a, b, c, x, y);
    TotalOfRowMix(a, b, c, x, y);
  }

  /** When the row sums combine, so do the totals. */
  lemma TotalOfRowMix(a: seq<seq<real>>, b: seq<seq<real>>, c: seq<seq<real>>, x: real, y: real)
    requires RowMix(RowSums(a), RowSums(b), RowSums(c), x, y)
    ensures Total(c) == x * Total(a) + y * Total(b)
  {
    var sa, sb, sc := RowSums(a), RowSums(b), RowSums(c);
    SumFirstMix(sa, sb, sc, x, y, |a|);
    TotalFirstIsSumOfRows(a, |a|);
    TotalFirstIsSumOfRows(b, |b|);
    TotalFirstIsSumOfRows(c, |c|);
    MixTransfer(x, y, SumFirst(sa, |a|), SumFirst(sb, |a|), SumFirst(sc, |a|), Total(a), Total(b), Total(c));
  }

  /** The row sums of an entry-wise combination are that combination of the row sums. */
  lemma RowSumsMix(a: seq<seq<real>>, b: seq<seq<real>>, c: seq<seq<real>>, x: real, y: real)
    requires Mix(a, b, c, x, y)
    ensures RowMix(RowSums(a), RowSums(b), RowSums(c), x, y)
  {
    var sa, sb, sc := RowSums(a), RowSums(b), RowSums(c);
    forall r | 0 <= r < |a|
      ensures sc[r] == sa[r] * x + sb[r] * y
    {
      SumFirstMix(a[r], b[r], c[r], x, y, |a[r]|);
      MixSwap(x, y, Sum(a[r]), Sum(b[r]), Sum(c[r]));
    }
  }

  /** A combination carries over to equal quantities. */
  lemma MixTransfer(x: real, y: real, a: real, b: real, c: real, a': real, b': real, c': real)
    requires c == x * a + y * b && a' == a && b' == b && c' == c
    ensures c' == x * a' + y * b'
  {
  }

}
