/**
 * The discrete Bayes filter of the robot node (scripts/robot.py), as pure
 * functions on belief matrices: normalisation, the temperature and texture
 * measurement updates, the motion update and the most-likely-cell scan.
 * The Robot class in robot.dfy runs the source's loops against these.
 */
module Belief {
  import opened Grids

  datatype Option<T> = None | Some(value: T)

  // ---------------------------------------------------------------------
  // normalize
  // ---------------------------------------------------------------------

  /** Every row as long as the first: normalize walks `len(matrix[0])` columns in every row. */
  predicate Rectangular(m: seq<seq<real>>)
  {
    forall r :: 0 <= r < |m| ==> |m[r]| == |m[0]|
  }

  /** The number of columns, read off the first row as the source does. */
  function Width(m: seq<seq<real>>): nat
  {
    if m == [] then 0 else |m[0]|
  }

  /** normalize divides at least one entry by the total. */
  predicate HasEntries(m: seq<seq<real>>)
  {
    |m| > 0 && |m[0]| > 0
  }

  /** normalize runs without a ZeroDivisionError: the total is non-zero whenever there is an entry to divide. */
  predicate CanNormalize(m: seq<seq<real>>)
  {
    Rectangular(m) && (HasEntries(m) ==> Total(m) != 0.0)
  }

  function DivideRow(s: seq<real>, k: real): (t: seq<real>)
    requires k != 0.0
    ensures |t| == |s| && forall c :: 0 <= c < |s| ==> t[c] == s[c] / k
  {
    seq(|s|, c requires 0 <= c < |s| => s[c] / k)
  }

  /** Every entry divided by `k`. */
  function DivideAll(m: seq<seq<real>>, k: real): (g: seq<seq<real>>)
    requires k != 0.0
    ensures SameRows(m, g)
    ensures forall r, c :: 0 <= r < |m| && 0 <= c < |m[r]| ==> g[r][c] == m[r][c] / k
  {
    seq(|m|, r requires 0 <= r < |m| => DivideRow(m[r], k))
  }

  /** What normalize returns: every entry divided by the total; with no entry nothing is divided. */
  function Normalized(m: seq<seq<real>>): (g: seq<seq<real>>)
    requires CanNormalize(m)
    ensures SameRows(m, g)
    ensures HasEntries(m) ==> forall r, c :: 0 <= r < |m| && 0 <= c < |m[r]| ==> g[r][c] == m[r][c] / Total(m)
    ensures !HasEntries(m) ==> g == m
  {
    if HasEntries(m) then DivideAll(m, Total(m)) else m
  }

  /** A normalised matrix sums to 1. */
  lemma NormalizedSumsToOne(m: seq<seq<real>>)
    requires CanNormalize(m) && HasEntries(m)
    ensures Total(Normalized(m)) == 1.0
  {
    TotalDivide(m, Normalized(m), Total(m));
    assert Total(m) / Total(m) == 1.0;
  }

  /** Normalising a non-negative matrix gives a distribution: entries in [0, 1] summing to 1. */
  lemma NormalizedIsDistribution(m: seq<seq<real>>)
    requires CanNormalize(m) && HasEntries(m) && NonNegative(m)
    ensures IsDistribution(Normalized(m))
  {
    var g := Normalized(m);
    NormalizedSumsToOne(m);
    TotalNonNegative(m);
    forall r, c | 0 <= r < |m| && 0 <= c < |m[r]|
      ensures 0.0 <= g[r][c] <= 1.0
    {
      EntryAtMostTotal(m, r, c);
      DivideWithin(m[r][c], Total(m));
    }
  }

  /** Entries in [0, 1] that sum to 1. */
  predicate IsDistribution(m: seq<seq<real>>)
  {
    && Total(m) == 1.0
    && forall r, c :: 0 <= r < |m| && 0 <= c < |m[r]| ==> 0.0 <= m[r][c] <= 1.0
  }

  lemma DivideWithin(x: real, t: real)
    requires 0.0 <= x <= t && t != 0.0
    ensures 0.0 <= x / t <= 1.0
  {
  }

  /** A matrix that already sums to 1 comes back unchanged. */
  lemma NormalizedKeepsDistribution(m: seq<seq<real>>)
    requires Rectangular(m) && HasEntries(m) && Total(m) == 1.0
    ensures CanNormalize(m) && Normalized(m) == m
  {
    var g := Normalized(m);
    GridExt(g, m, |m|, |m[0]|);
  }

  /** normalize ignores a common non-zero factor: scaling every entry by `x` does not change the result. */
  lemma NormalizedScaleFree(m: seq<seq<real>>, g: seq<seq<real>>, x: real)
    requires CanNormalize(m) && x != 0.0
    requires SameRows(m, g)
    requires forall r, c :: 0 <= r < |m| && 0 <= c < |m[r]| ==> g[r][c] == x * m[r][c]
    ensures CanNormalize(g) && Normalized(g) == Normalized(m)
  {
    TotalScale(m, g, x);
    if HasEntries(m) {
      QuotientsAgree(m, g, x, Total(m), Total(g));
      GridExt(Normalized(g), Normalized(m), |m|, |m[0]|);
    }
  }

  /** Scaled entries over the scaled total are the original entries over the original total. */
  lemma QuotientsAgree(m: seq<seq<real>>, g: seq<seq<real>>, x: real, tm: real, tg: real)
    requires x != 0.0 && tm != 0.0 && tg == x * tm
    requires SameRows(m, g)
    requires forall r, c :: 0 <= r < |m| && 0 <= c < |m[r]| ==> g[r][c] == x * m[r][c]
    ensures tg != 0.0
    ensures forall r, c :: 0 <= r < |m| && 0 <= c < |m[r]| ==> g[r][c] / tg == m[r][c] / tm
  {
    forall r, c | 0 <= r < |m| && 0 <= c < |m[r]|
      ensures g[r][c] / tg == m[r][c] / tm
    {
      CancelFactor(m[r][c], tm, x);
    }
  }

  lemma CancelFactor(a: real, t: real, x: real)
    requires t != 0.0 && x != 0.0
    ensures x * t != 0.0 && (x * a) / (x * t) == a / t
  {
  }

  // ---------------------------------------------------------------------
  // Measurement updates
  // ---------------------------------------------------------------------

  /** A label map with exactly the shape of the belief. */
  predicate Congruent<T>(labels: seq<seq<T>>, m: seq<seq<real>>)
  {
    |labels| == |m| && forall r :: 0 <= r < |m| ==> |labels[r]| == |m[r]|
  }

  /** P(texture sensed | cell): `p_correct` on a match, `1 - p_correct` otherwise. */
  function TextureLikelihood(reading: string, cellTexture: string, pCorrect: real): real
  {
    if reading == cellTexture then pCorrect else 1.0 - pCorrect
  }

  function TextureRow(prior: seq<real>, labels: seq<string>, reading: string, pCorrect: real): (t: seq<real>)
    requires |labels| == |prior|
    ensures |t| == |prior|
    ensures forall c :: 0 <= c < |prior| ==> t[c] == TextureLikelihood(reading, labels[c], pCorrect) * prior[c]
  {
    seq(|prior|, c requires 0 <= c < |prior| => TextureLikelihood(reading, labels[c], pCorrect) * prior[c])
  }

  /** The texture update before normalising: likelihood times prior, cell by cell. */
  function TextureWeighted(prior: seq<seq<real>>, textureMap: seq<seq<string>>, reading: string, pCorrect: real)
    : (g: seq<seq<real>>)
    requires Congruent(textureMap, prior)
    ensures SameRows(prior, g)
    ensures forall r, c :: 0 <= r < |prior| && 0 <= c < |prior[r]| ==>
      g[r][c] == TextureLikelihood(reading, textureMap[r][c], pCorrect) * prior[r][c]
  {
    seq(|prior|, r requires 0 <= r < |prior| => TextureRow(prior[r], textureMap[r], reading, pCorrect))
  }

  /** update_belief_texture: the weighted belief, normalised. */
  function TexturePosterior(prior: seq<seq<real>>, textureMap: seq<seq<string>>, reading: string, pCorrect: real)
    : (g: seq<seq<real>>)
    requires Congruent(textureMap, prior) && CanNormalize(TextureWeighted(prior, textureMap, reading, pCorrect))
    ensures SameRows(prior, g)
  {
    Normalized(TextureWeighted(prior, textureMap, reading, pCorrect))
  }

  /** With `p_correct` in [0, 1] the texture update keeps a non-negative belief non-negative. */
  lemma TextureWeightedNonNegative(prior: seq<seq<real>>, textureMap: seq<seq<string>>, reading: string, pCorrect: real)
    requires Congruent(textureMap, prior) && NonNegative(prior) && 0.0 <= pCorrect <= 1.0
    ensures NonNegative(TextureWeighted(prior, textureMap, reading, pCorrect))
  {
    var w := TextureWeighted(prior, textureMap, reading, pCorrect);
    forall r, c | 0 <= r < |prior| && 0 <= c < |prior[r]|
      ensures w[r][c] >= 0.0
    {
      ScaleAtMost(prior[r][c], 0.0, TextureLikelihood(reading, textureMap[r][c], pCorrect));
    }
  }

  /** The texture update turns a non-negative belief into a distribution. */
  lemma TexturePosteriorIsDistribution(prior: seq<seq<real>>, textureMap: seq<seq<string>>, reading: string, pCorrect: real)
    requires Congruent(textureMap, prior) && CanNormalize(TextureWeighted(prior, textureMap, reading, pCorrect))
    requires HasEntries(prior) && NonNegative(prior) && 0.0 <= pCorrect <= 1.0
    ensures IsDistribution(TexturePosterior(prior, textureMap, reading, pCorrect))
  {
    TextureWeightedNonNegative(prior, textureMap, reading, pCorrect);
    NormalizedIsDistribution(TextureWeighted(prior, textureMap, reading, pCorrect));
  }

  /**
   * With `p_correct` = 0.5 a texture reading carries no information: the
   * update only normalises the prior.
   */
  lemma TextureUninformative(prior: seq<seq<real>>, textureMap: seq<seq<string>>, reading: string)
    requires Congruent(textureMap, prior) && CanNormalize(prior)
    ensures CanNormalize(TextureWeighted(prior, textureMap, reading, 0.5))
    ensures TexturePosterior(prior, textureMap, reading, 0.5) == Normalized(prior)
  {
    var w := TextureWeighted(prior, textureMap, reading, 0.5);
    NormalizedScaleFree(prior, w, 0.5);
  }

  /**
   * A texture match gains weight against a mismatch: with `p_correct` above
   * one half, a matching cell ends with more mass than a mismatching cell of
   * the same positive prior mass.
   */
  lemma TextureFavoursMatch(prior: seq<seq<real>>, textureMap: seq<seq<string>>, reading: string, pCorrect: real,
                            r1: int, c1: int, r2: int, c2: int)
    requires Congruent(textureMap, prior)
    requires 0 <= r1 < |prior| && 0 <= c1 < |prior[r1]| && 0 <= r2 < |prior| && 0 <= c2 < |prior[r2]|
    requires textureMap[r1][c1] == reading && textureMap[r2][c2] != reading
    requires prior[r1][c1] == prior[r2][c2] > 0.0 && pCorrect > 0.5
    ensures var w := TextureWeighted(prior, textureMap, reading, pCorrect); w[r1][c1] > w[r2][c2]
  {
    var w := TextureWeighted(prior, textureMap, reading, pCorrect);
    var v := prior[r1][c1];
    assert w[r1][c1] == pCorrect * v;
    assert w[r2][c2] == (1.0 - pCorrect) * v;
    ScaleAtMost(v, 1.0 - pCorrect, pCorrect);
    assert pCorrect * v - (1.0 - pCorrect) * v == (2.0 * pCorrect - 1.0) * v;
    assert (2.0 * pCorrect - 1.0) * v > 0.0;
  }

  /** The mean temperature of a terrain label: 40 over hot pipes, 25 over neutral floor, 20 over cold pipes. */
  function TerrainMean(terrain: string): Option<real>
  {
    if terrain == "H" then Some(40.0)
    else if terrain == "-" then Some(25.0)
    else if terrain == "C" then Some(20.0)
    else None
  }

  /**
   * P(temperature sensed | cell): the sensor density `pdf(reading, mean)` at
   * the cell's terrain mean, and 0 on a cell of any other terrain.
   */
  function TempLikelihood(pdf: (real, real) -> real, terrain: string, temperature: real): real
  {
    match TerrainMean(terrain)
    case Some(mean) => pdf(temperature, mean)
    case None => 0.0
  }

  function TempRow(prior: seq<real>, terrain: seq<string>, temperature: real, pdf: (real, real) -> real): (t: seq<real>)
    requires |terrain| == |prior|
    ensures |t| == |prior|
    ensures forall c :: 0 <= c < |prior| ==> t[c] == TempLikelihood(pdf, terrain[c], temperature) * prior[c]
  {
    seq(|prior|, c requires 0 <= c < |prior| => TempLikelihood(pdf, terrain[c], temperature) * prior[c])
  }

  /** The temperature update before normalising: likelihood times prior, cell by cell. */
  function TempWeighted(prior: seq<seq<real>>, pipeMap: seq<seq<string>>, temperature: real, pdf: (real, real) -> real)
    : (g: seq<seq<real>>)
    requires Congruent(pipeMap, prior)
    ensures SameRows(prior, g)
    ensures forall r, c :: 0 <= r < |prior| && 0 <= c < |prior[r]| ==>
      g[r][c] == TempLikelihood(pdf, pipeMap[r][c], temperature) * prior[r][c]
  {
    seq(|prior|, r requires 0 <= r < |prior| => TempRow(prior[r], pipeMap[r], temperature, pdf))
  }

  /** update_belief_temp: the weighted belief, normalised. */
  function TempPosterior(prior: seq<seq<real>>, pipeMap: seq<seq<string>>, temperature: real, pdf: (real, real) -> real)
    : (g: seq<seq<real>>)
    requires Congruent(pipeMap, prior) && CanNormalize(TempWeighted(prior, pipeMap, temperature, pdf))
    ensures SameRows(prior, g)
  {
    Normalized(TempWeighted(prior, pipeMap, temperature, pdf))
  }

  /** The sensor density is non-negative at the three terrain means for this reading. */
  predicate DensityNonNegative(pdf: (real, real) -> real, temperature: real)
  {
    pdf(temperature, 40.0) >= 0.0 && pdf(temperature, 25.0) >= 0.0 && pdf(temperature, 20.0) >= 0.0
  }

  /** With a non-negative density the temperature update keeps a non-negative belief non-negative. */
  lemma TempWeightedNonNegative(prior: seq<seq<real>>, pipeMap: seq<seq<string>>, temperature: real, pdf: (real, real) -> real)
    requires Congruent(pipeMap, prior) && NonNegative(prior) && DensityNonNegative(pdf, temperature)
    ensures NonNegative(TempWeighted(prior, pipeMap, temperature, pdf))
  {
    var w := TempWeighted(prior, pipeMap, temperature, pdf);
    forall r, c | 0 <= r < |prior| && 0 <= c < |prior[r]|
      ensures w[r][c] >= 0.0
    {
      ScaleAtMost(prior[r][c], 0.0, TempLikelihood(pdf, pipeMap[r][c], temperature));
    }
  }

  /** The temperature update turns a non-negative belief into a distribution. */
  lemma TempPosteriorIsDistribution(prior: seq<seq<real>>, pipeMap: seq<seq<string>>, temperature: real, pdf: (real, real) -> real)
    requires Congruent(pipeMap, prior) && CanNormalize(TempWeighted(prior, pipeMap, temperature, pdf))
    requires HasEntries(prior) && NonNegative(prior) && DensityNonNegative(pdf, temperature)
    ensures IsDistribution(TempPosterior(prior, pipeMap, temperature, pdf))
  {
    TempWeightedNonNegative(prior, pipeMap, temperature, pdf);
    NormalizedIsDistribution(TempWeighted(prior, pipeMap, temperature, pdf));
  }

  /** A cell whose terrain is not H, - or C ends the temperature update with no mass. */
  lemma UnknownTerrainEmpty(prior: seq<seq<real>>, pipeMap: seq<seq<string>>, temperature: real,
                            pdf: (real, real) -> real, r: int, c: int)
    requires Congruent(pipeMap, prior)
    requires CanNormalize(TempWeighted(prior, pipeMap, temperature, pdf))
    requires 0 <= r < |prior| && 0 <= c < |prior[r]|
    requires TerrainMean(pipeMap[r][c]) == None
    ensures TempPosterior(prior, pipeMap, temperature, pdf)[r][c] == 0.0
  {
  }

  /**
   * A reading equally likely over every terrain carries no information: when
   * every cell has a known terrain, the update only normalises the prior.
   */
  lemma TempUninformative(prior: seq<seq<real>>, pipeMap: seq<seq<string>>, temperature: real, pdf: (real, real) -> real)
    requires Congruent(pipeMap, prior) && CanNormalize(prior)
    requires forall r, c :: 0 <= r < |prior| && 0 <= c < |prior[r]| ==> TerrainMean(pipeMap[r][c]) != None
    requires pdf(temperature, 40.0) == pdf(temperature, 25.0) == pdf(temperature, 20.0) != 0.0
    ensures CanNormalize(TempWeighted(prior, pipeMap, temperature, pdf))
    ensures TempPosterior(prior, pipeMap, temperature, pdf) == Normalized(prior)
  {
    var w := TempWeighted(prior, pipeMap, temperature, pdf);
    NormalizedScaleFree(prior, w, pdf(temperature, 40.0));
  }

  // ---------------------------------------------------------------------
  // Motion update
  // ---------------------------------------------------------------------

  /** The cell (`y` - `dy`, `x` - `dx`) a move by (`dy`, `dx`) reaches (`y`, `x`) from lies in the matrix. */
  predicate HasSource(m: seq<seq<real>>, y: int, x: int, dy: int, dx: int)
  {
    0 <= y - dy < |m| && 0 <= x - dx < Width(m)
  }

  /** The mass a certain move by (`dy`, `dx`) brings into (`y`, `x`): that of its source cell, 0 when there is none. */
  function Arrived(m: seq<seq<real>>, y: int, x: int, dy: int, dx: int): real
    requires Rectangular(m)
  {
    if HasSource(m, y, x, dy, dx) then m[y - dy][x - dx] else 0.0
  }

  function MotionRow(prior: seq<seq<real>>, y: int, dy: int, dx: int, p: real): (t: seq<real>)
    requires Rectangular(prior) && 0 <= y < |prior|
    ensures |t| == |prior[y]|
    ensures forall x :: 0 <= x < |prior[y]| ==> t[x] == prior[y][x] * (1.0 - p) + Arrived(prior, y, x, dy, dx) * p
  {
    seq(|prior[y]|, x requires 0 <= x < |prior[y]| => prior[y][x] * (1.0 - p) + Arrived(prior, y, x, dy, dx) * p)
  }

  /**
   * The motion update for a move by (`dy`, `dx`) that succeeds with
   * probability `p`: a cell keeps its own mass with probability 1 - `p` and
   * receives the mass of the cell the move starts from with probability `p`,
   * when that cell lies in the matrix. The result is not normalised.
   */
  function MotionPosterior(prior: seq<seq<real>>, dy: int, dx: int, p: real): (g: seq<seq<real>>)
    requires Rectangular(prior)
    ensures SameRows(prior, g)
    ensures forall y, x :: 0 <= y < |prior| && 0 <= x < |prior[y]| ==>
      g[y][x] == prior[y][x] * (1.0 - p) + Arrived(prior, y, x, dy, dx) * p
  {
    seq(|prior|, y requires 0 <= y < |prior| => MotionRow(prior, y, dy, dx, p))
  }

  /** The GOAL instruction [0, 0] leaves the belief as it is, whatever `p`. */
  lemma MotionStay(prior: seq<seq<real>>, p: real)
    requires Rectangular(prior)
    ensures MotionPosterior(prior, 0, 0, p) == prior
  {
    if prior != [] {
      var g := MotionPosterior(prior, 0, 0, p);
      forall y, x | 0 <= y < |prior| && 0 <= x < |prior[0]|
        ensures g[y][x] == prior[y][x]
      {
        assert HasSource(prior, y, x, 0, 0);
      }
      GridExt(g, prior, |prior|, |prior[0]|);
    }
  }

  /**
   * The motion update keeps a non-negative belief non-negative and never adds
   * mass: what the move carries off the edge of the grid is lost, which is
   * why the cycle renormalises afterwards.
   */
  lemma MotionLosesMass(prior: seq<seq<real>>, dy: int, dx: int, p: real)
    requires Rectangular(prior) && NonNegative(prior) && 0.0 <= p <= 1.0
    ensures NonNegative(MotionPosterior(prior, dy, dx, p))
    ensures Total(MotionPosterior(prior, dy, dx, p)) <= Total(prior)
  {
    MotionNonNegative(prior, dy, dx, p);
    MotionBound(prior, dy, dx, p);
  }

  lemma MotionBound(prior: seq<seq<real>>, dy: int, dx: int, p: real)
    requires Rectangular(prior) && NonNegative(prior) && 0.0 <= p <= 1.0
    ensures Total(MotionPosterior(prior, dy, dx, p)) <= Total(prior)
  {
    ShiftedLosesMass(prior, dy, dx);
    MotionTotal(prior, dy, dx, p);
    Convex(Total(MotionPosterior(prior, dy, dx, p)), p, Total(Shifted(prior, dy, dx)), Total(prior));
  }

  lemma Convex(x: real, p: real, s: real, t: real)
    requires x == (1.0 - p) * t + p * s && 0.0 <= p && s <= t
    ensures x <= t
  {
    ScaleAtMost(p, s, t);
    assert (1.0 - p) * t == t - p * t;
  }

  lemma MotionNonNegative(prior: seq<seq<real>>, dy: int, dx: int, p: real)
    requires Rectangular(prior) && NonNegative(prior) && 0.0 <= p <= 1.0
    ensures NonNegative(MotionPosterior(prior, dy, dx, p))
  {
    var g := MotionPosterior(prior, dy, dx, p);
    forall y, x | 0 <= y < |prior| && 0 <= x < |prior[y]|
      ensures g[y][x] >= 0.0
    {
      if HasSource(prior, y, x, dy, dx) {
        assert Arrived(prior, y, x, dy, dx) == prior[y - dy][x - dx] >= 0.0;
      } else {
        assert Arrived(prior, y, x, dy, dx) == 0.0;
      }
      MixNonNegative(prior[y][x], Arrived(prior, y, x, dy, dx), 1.0 - p, p);
    }
  }

  /** The motion update's total: 1 - `p` of the old total plus `p` of the total the move keeps on the grid. */
  lemma MotionTotal(prior: seq<seq<real>>, dy: int, dx: int, p: real)
    requires Rectangular(prior)
    ensures Total(MotionPosterior(prior, dy, dx, p)) == (1.0 - p) * Total(prior) + p * Total(Shifted(prior, dy, dx))
  {
    MotionIsMix(prior, dy, dx, p);
    TotalMix(prior, Shifted(prior, dy, dx), MotionPosterior(prior, dy, dx, p), 1.0 - p, p);
  }

  /** Entry by entry, the motion update mixes the belief with its moved copy. */
  lemma MotionIsMix(prior: seq<seq<real>>, dy: int, dx: int, p: real)
    requires Rectangular(prior)
    ensures Mix(prior, Shifted(prior, dy, dx), MotionPosterior(prior, dy, dx, p), 1.0 - p, p)
  {
  }

  lemma MixNonNegative(a: real, b: real, x: real, y: real)
    requires a >= 0.0 && b >= 0.0 && x >= 0.0 && y >= 0.0
    ensures a * x + b * y >= 0.0
  {
  }

  /** Entry `i` of `s`, and 0 outside it. */
  function At(s: seq<real>, i: int): real
  {
    if 0 <= i < |s| then s[i] else 0.0
  }

  /** `s` moved `d` places along, zero-filled: entry `x` is `s[x - d]` when that index exists. */
  function RowShift(s: seq<real>, d: int): (t: seq<real>)
    ensures |t| == |s| && forall x :: 0 <= x < |s| ==> t[x] == At(s, x - d)
  {
    seq(|s|, x requires 0 <= x < |s| => At(s, x - d))
  }

  /** The whole matrix moved by (`dy`, `dx`), zero-filled: the mass a certain move would carry. */
  function Shifted(m: seq<seq<real>>, dy: int, dx: int): (g: seq<seq<real>>)
    requires Rectangular(m)
    ensures SameRows(m, g)
    ensures forall y, x :: 0 <= y < |m| && 0 <= x < |m[y]| ==> g[y][x] == Arrived(m, y, x, dy, dx)
  {
    seq(|m|, y requires 0 <= y < |m| => ShiftedRow(m, y, dy, dx))
  }

  function ShiftedRow(m: seq<seq<real>>, y: int, dy: int, dx: int): (t: seq<real>)
    requires Rectangular(m) && 0 <= y < |m|
    ensures |t| == |m[y]|
    ensures forall x :: 0 <= x < |m[y]| ==> t[x] == Arrived(m, y, x, dy, dx)
  {
    seq(|m[y]|, x requires 0 <= x < |m[y]| => Arrived(m, y, x, dy, dx))
  }

  /** Moving a non-negative row along never adds to its sum. */
  lemma RowShiftLosesMass(s: seq<real>, d: int)
    requires forall i :: 0 <= i < |s| ==> s[i] >= 0.0
    ensures Sum(RowShift(s, d)) <= Sum(s)
  {
    var t := RowShift(s, d);
    if d >= 0 {
      RowShiftRight(s, d, |s|);
      if |s| > d {
        SumFirstGrows(s, |s| - d, |s|);
      } else {
        SumFirstNonNegative(s, |s|);
      }
    } else {
      var e := if -d < |s| then -d else |s|;
      RowShiftLeft(s, -d, |s|);
      SumFirstNonNegative(s, e);
    }
  }

  lemma {:induction false} RowShiftRight(s: seq<real>, d: nat, n: nat)
    requires n <= |s|
    ensures SumFirst(RowShift(s, d), n) == if n <= d then 0.0 else SumFirst(s, n - d)
  {
    if n > 0 {
      RowShiftRight(s, d, n - 1);
    }
  }

  lemma {:induction false} RowShiftLeft(s: seq<real>, e: nat, n: nat)
    requires n <= |s|
    ensures var top := if n + e < |s| then n + e else |s|;
      var skipped := if e < |s| then e else |s|;
      SumFirst(RowShift(s, -(e as int)), n) == SumFirst(s, top) - SumFirst(s, skipped)
  {
    if n > 0 {
      RowShiftLeft(s, e, n - 1);
    }
  }

  /** The row sums of the matrix moved `dx` places along its rows. */
  function RowShiftSums(m: seq<seq<real>>, dx: int): (s: seq<real>)
    ensures |s| == |m| && forall y :: 0 <= y < |m| ==> s[y] == Sum(RowShift(m[y], dx))
  {
    seq(|m|, y requires 0 <= y < |m| => Sum(RowShift(m[y], dx)))
  }

  /** Row `y` of the moved matrix is row `y` - `dy` moved along, or zeros. */
  lemma ShiftedRowSum(m: seq<seq<real>>, y: int, dy: int, dx: int)
    requires Rectangular(m) && 0 <= y < |m|
    ensures Sum(ShiftedRow(m, y, dy, dx)) == At(RowShiftSums(m, dx), y - dy)
  {
    var t := ShiftedRow(m, y, dy, dx);
    if 0 <= y - dy < |m| {
      assert t == RowShift(m[y - dy], dx);
    } else {
      SumFirstConstant(t, |t|, 0.0);
    }
  }

  /** Moving a non-negative matrix never adds to its total. */
  lemma ShiftedLosesMass(m: seq<seq<real>>, dy: int, dx: int)
    requires Rectangular(m) && NonNegative(m)
    ensures Total(Shifted(m, dy, dx)) <= Total(m)
  {
    var g := Shifted(m, dy, dx);
    var moved := RowShiftSums(m, dx);
    forall y | 0 <= y < |m|
      ensures 0.0 <= moved[y] <= Sum(m[y])
    {
      RowShiftLosesMass(m[y], dx);
      var t := RowShift(m[y], dx);
      SumFirstNonNegative(t, |t|);
    }
    forall y | 0 <= y < |m|
      ensures RowSums(g)[y] == RowShift(moved, dy)[y]
    {
      ShiftedRowSum(m, y, dy, dx);
    }
    assert RowSums(g) == RowShift(moved, dy);
    RowShiftLosesMass(moved, dy);
    SumFirstMonotone(moved, RowSums(m), |m|);
    TotalFirstIsSumOfRows(g, |g|);
    TotalFirstIsSumOfRows(m, |m|);
  }

  // ---------------------------------------------------------------------
  // check_most_likely_position
  // ---------------------------------------------------------------------

  /** A cell and the belief mass it carries. */
  datatype Estimate = Estimate(cell: Cell, prob: real)

  /**
   * The row-major scan from cell `p` on, carrying the best cell `e` so far: a
   * cell replaces it only when its mass is strictly larger.
   */
  function ScanFrom(g: seq<seq<real>>, p: Cell, e: Estimate): Estimate
    requires 0 <= p.0 && 0 <= p.1
    decreases |g| - p.0, if p.0 < |g| then |g[p.0]| - p.1 else 0
  {
    if p.0 >= |g| then e
    else if p.1 >= |g[p.0]| then ScanFrom(g, (p.0 + 1, 0), e)
    else ScanFrom(g, (p.0, p.1 + 1), if g[p.0][p.1] > e.prob then Estimate(p, g[p.0][p.1]) else e)
  }

  /** check_most_likely_position: the scan from the first cell, starting from cell (0, 0) with mass 0. */
  function MostLikely(g: seq<seq<real>>): (e: Estimate)
    ensures e.prob >= 0.0
    ensures forall r, c :: 0 <= r < |g| && 0 <= c < |g[r]| ==> g[r][c] <= e.prob
  {
    ScanFromCorrect(g, (0, 0), Estimate((0, 0), 0.0));
    assert forall r, c :: 0 <= r < |g| && 0 <= c < |g[r]| ==> Before(r, c, (|g|, 0));
    ScanFrom(g, (0, 0), Estimate((0, 0), 0.0))
  }

  predicate InMatrix(g: seq<seq<real>>, r: int, c: int)
  {
    0 <= r < |g| && 0 <= c < |g[r]|
  }

  /**
   * `e` is what the scan holds after every cell before `p`: the largest mass
   * seen, floored at 0, and the first cell carrying it; cell (0, 0) while
   * no mass above 0 has been seen.
   */
  ghost predicate ScannedBefore(g: seq<seq<real>>, p: Cell, e: Estimate)
  {
    && e.prob >= 0.0
    && (forall r, c :: InMatrix(g, r, c) && Before(r, c, p) ==> g[r][c] <= e.prob)
    && (e.prob == 0.0 ==> e.cell == (0, 0))
    && (e.prob > 0.0 ==>
          && InMatrix(g, e.cell.0, e.cell.1) && Before(e.cell.0, e.cell.1, p)
          && g[e.cell.0][e.cell.1] == e.prob
          && forall r, c :: InMatrix(g, r, c) && Before(r, c, e.cell) ==> g[r][c] < e.prob)
  }

  lemma {:induction false} ScanFromCorrect(g: seq<seq<real>>, p: Cell, e: Estimate)
    requires 0 <= p.0 && 0 <= p.1
    requires ScannedBefore(g, p, e)
    ensures ScannedBefore(g, (|g|, 0), ScanFrom(g, p, e))
    decreases |g| - p.0, if p.0 < |g| then |g[p.0]| - p.1 else 0
  {
    if p.0 >= |g| {
      assert forall r, c :: InMatrix(g, r, c) ==> Before(r, c, p);
    } else if p.1 >= |g[p.0]| {
      ScanFromCorrect(g, (p.0 + 1, 0), e);
    } else {
      var e' := if g[p.0][p.1] > e.prob then Estimate(p, g[p.0][p.1]) else e;
      assert ScannedBefore(g, (p.0, p.1 + 1), e');
      ScanFromCorrect(g, (p.0, p.1 + 1), e');
    }
  }

  /**
   * The most likely cell is the first cell in row-major order with the
   * largest mass, together with that mass; when no entry exceeds 0 it is
   * cell (0, 0) with mass 0.
   */
  lemma MostLikelyIsFirstLargest(g: seq<seq<real>>)
    ensures var e := MostLikely(g);
      && e.prob >= 0.0
      && (forall r, c :: InMatrix(g, r, c) ==> g[r][c] <= e.prob)
      && (e.prob == 0.0 <==> forall r, c :: InMatrix(g, r, c) ==> g[r][c] <= 0.0)
      && (e.prob == 0.0 ==> e.cell == (0, 0))
      && (e.prob > 0.0 ==>
            && InMatrix(g, e.cell.0, e.cell.1) && g[e.cell.0][e.cell.1] == e.prob
            && forall r, c :: InMatrix(g, r, c) && Before(r, c, e.cell) ==> g[r][c] < e.prob)
  {
    ScanFromCorrect(g, (0, 0), Estimate((0, 0), 0.0));
    var e := MostLikely(g);
    assert forall r, c :: InMatrix(g, r, c) ==> Before(r, c, (|g|, 0));
  }
}
