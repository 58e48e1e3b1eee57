/**
 * The outer value-iteration loop of scripts/mdp.py: set up the label and value
 * maps, sweep until two sweeps in a row change the free cells' values by less
 * than the threshold or the iteration budget runs out, and return the policy.
 */
module MdpSolver {
  import opened Grids
  import opened Mdp

  // ---------------------------------------------------------------------
  // absolute_diff
  // ---------------------------------------------------------------------

  function Gap(a: real, b: real): real
  {
    if a - b < 0.0 then b - a else a - b
  }

  predicate SameShape<T, U, V>(a: seq<seq<T>>, b: seq<seq<U>>, labels: seq<seq<V>>)
  {
    |a| == |b| == |labels| && forall r :: 0 <= r < |a| ==> |a[r]| == |b[r]| == |labels[r]|
  }

  /** What absolute_diff adds for each cell of row `r`. */
  function DiffRow(a: seq<real>, b: seq<real>, labels: seq<Label>): (t: seq<real>)
    requires |a| == |b| == |labels|
    ensures |t| == |a|
    ensures forall c :: 0 <= c < |a| ==> t[c] == if IsTerminal(labels[c]) then 0.0 else Gap(a[c], b[c])
  {
    seq(|a|, c requires 0 <= c < |a| => if IsTerminal(labels[c]) then 0.0 else Gap(a[c], b[c]))
  }

  /** What absolute_diff adds for each cell: |a - b| on cells not labelled WALL, PIT or GOAL, nothing elsewhere. */
  function DiffTerms(a: seq<seq<real>>, b: seq<seq<real>>, labels: seq<seq<Label>>): (t: seq<seq<real>>)
    requires SameShape(a, b, labels)
    ensures |t| == |a| && forall r :: 0 <= r < |a| ==> |t[r]| == |a[r]|
    ensures forall r, c :: 0 <= r < |a| && 0 <= c < |a[r]| ==>
      t[r][c] == if IsTerminal(labels[r][c]) then 0.0 else Gap(a[r][c], b[r][c])
  {
    seq(|a|, r requires 0 <= r < |a| => DiffRow(a[r], b[r], labels[r]))
  }

  function TotalDiff(a: seq<seq<real>>, b: seq<seq<real>>, labels: seq<seq<Label>>): real
    requires SameShape(a, b, labels)
  {
    Total(DiffTerms(a, b, labels))
  }

  /**
   * The difference is never negative, and it is zero exactly when the two maps
   * agree on every cell not labelled WALL, PIT or GOAL.
   */
  lemma TotalDiffZeroIff(a: seq<seq<real>>, b: seq<seq<real>>, labels: seq<seq<Label>>)
    requires SameShape(a, b, labels)
    ensures TotalDiff(a, b, labels) >= 0.0
    ensures TotalDiff(a, b, labels) == 0.0 <==>
      forall r, c :: 0 <= r < |a| && 0 <= c < |a[r]| && !IsTerminal(labels[r][c]) ==> a[r][c] == b[r][c]
  {
    var t := DiffTerms(a, b, labels);
    TotalNonNegative(t);
    TotalZeroIff(t);
    if TotalDiff(a, b, labels) == 0.0 {
      forall r, c | 0 <= r < |a| && 0 <= c < |a[r]| && !IsTerminal(labels[r][c])
        ensures a[r][c] == b[r][c]
      {
        assert t[r][c] == 0.0;
      }
    }
  }

  /** Values on cells labelled WALL, PIT or GOAL do not change the difference. */
  lemma TotalDiffIgnoresTerminals(a: seq<seq<real>>, b: seq<seq<real>>, a': seq<seq<real>>, b': seq<seq<real>>,
                                  labels: seq<seq<Label>>)
    requires SameShape(a, b, labels) && SameShape(a', b', labels)
    requires forall r, c :: 0 <= r < |a| && 0 <= c < |a[r]| && !IsTerminal(labels[r][c]) ==>
      a[r][c] == a'[r][c] && b[r][c] == b'[r][c]
    ensures TotalDiff(a, b, labels) == TotalDiff(a', b', labels)
  {
    var t, t' := DiffTerms(a, b, labels), DiffTerms(a', b', labels);
    forall r | 0 <= r < |a|
      ensures t[r] == t'[r]
    {
    }
    assert t == t';
  }

  /** The accumulator loop of absolute_diff, over the three maps side by side. */
  method AbsoluteDiff(a: seq<seq<real>>, b: seq<seq<real>>, labels: seq<seq<Label>>) returns (summ: real)
    requires SameShape(a, b, labels)
    ensures summ == TotalDiff(a, b, labels)
  {
    ghost var t := DiffTerms(a, b, labels);
    summ := 0.0;
    for r := 0 to |a|
      invariant summ == TotalFirst(t, r)
    {
      summ := AddRowDiff(summ, a[r], b[r], labels[r]);
    }
  }

  /** The inner loop of absolute_diff: adds one row's terms to the running sum. */
  method AddRowDiff(summ: real, a: seq<real>, b: seq<real>, labels: seq<Label>) returns (summ': real)
    requires |a| == |b| == |labels|
    ensures summ' == summ + Sum(DiffRow(a, b, labels))
  {
    ghost var t := DiffRow(a, b, labels);
    summ' := summ;
    for c := 0 to |a|
      invariant summ' == summ + SumFirst(t, c)
    {
      if !IsTerminal(labels[c]) {
        summ' := summ' + Gap(a[c], b[c]);
      }
    }
  }

  // ---------------------------------------------------------------------
  // The convergence counter
  // ---------------------------------------------------------------------

  /** The counter after the sweeps whose differences are `diffs`: up by one below the threshold, back to 0 otherwise. */
  function ConvergeCount(diffs: seq<real>, threshold: real): (n: nat)
    ensures n <= |diffs|
    ensures forall i :: |diffs| - n <= i < |diffs| ==> diffs[i] < threshold
    ensures n < |diffs| ==> diffs[|diffs| - 1 - n] >= threshold
  {
    if diffs == [] then 0
    else if diffs[|diffs| - 1] < threshold then ConvergeCount(diffs[..|diffs| - 1], threshold) + 1
    else 0
  }

  /** The counter reaches 2 exactly when the last two sweeps both changed less than the threshold. */
  lemma {:induction false} ConvergeCountTwo(diffs: seq<real>, threshold: real)
    ensures ConvergeCount(diffs, threshold) >= 2 <==>
      |diffs| >= 2 && diffs[|diffs| - 1] < threshold && diffs[|diffs| - 2] < threshold
  {
    if |diffs| >= 1 {
      var init := diffs[..|diffs| - 1];
      if |diffs| >= 2 {
        assert init[|init| - 1] == diffs[|diffs| - 2];
        assert ConvergeCount(init, threshold) >= 1 <==> init[|init| - 1] < threshold;
      } else {
        assert init == [];
      }
    }
  }

  /** The counter after one more sweep: up by one below the threshold, back to 0 otherwise. */
  lemma ConvergeAppend(diffs: seq<real>, diff: real, threshold: real)
    ensures ConvergeCount(diffs + [diff], threshold) ==
      if diff < threshold then ConvergeCount(diffs, threshold) + 1 else 0
  {
    assert (diffs + [diff])[..|diffs|] == diffs;
  }

  // ---------------------------------------------------------------------
  // Runs of the planner
  // ---------------------------------------------------------------------

  /** The maps mdp(config) starts its loop from. */
  function InitialMaps(cfg: PlannerConfig): (m: Maps)
    ensures Shaped(cfg, m)
  {
    Maps(InitialLabels(cfg), InitialValues(cfg))
  }

  /** The maps after `k` sweeps. */
  ghost function Iterated(cfg: PlannerConfig, k: nat): (m: Maps)
    ensures Shaped(cfg, m)
  {
    if k == 0 then InitialMaps(cfg) else SweepOf(cfg, Iterated(cfg, k - 1))
  }

  /** What absolute_diff measures for sweep `k`: the change it made to the free cells' values. */
  ghost function DiffAfter(cfg: PlannerConfig, k: nat): real
  {
    var before, after := Iterated(cfg, k), Iterated(cfg, k + 1);
    TotalDiff(before.values, after.values, after.labels)
  }

  /** The differences of the first `n` sweeps, in order. */
  ghost function Diffs(cfg: PlannerConfig, n: nat): (d: seq<real>)
    ensures |d| == n
  {
    if n == 0 then [] else Diffs(cfg, n - 1) + [DiffAfter(cfg, n - 1)]
  }

  /**
   * mdp(config) stops after `n` sweeps: no more than `max_iterations` sweeps,
   * the counter below 2 after every earlier sweep, and an early stop only once
   * it reached 2.
   */
  ghost predicate StopsAfter(cfg: PlannerConfig, n: nat)
  {
    && (n > 0 ==> n <= cfg.maxIterations)
    && NotYetConverged(cfg, n)
    && (n < cfg.maxIterations ==> ConvergeCount(Diffs(cfg, n), cfg.threshold) == 2)
  }

  /** The set-up at the top of mdp(config): empty labels, walls, then pits, then the goal; every value 0. */
  method SetUp(cfg: PlannerConfig) returns (maps: Maps)
    ensures maps == InitialMaps(cfg)
  {
    var labels := Fill(cfg.rows, cfg.cols, Unset);
    var values := Fill(cfg.rows, cfg.cols, 0.0);
    labels, values := MarkAll(labels, values, cfg.walls, Wall, cfg.rows, cfg.cols);
    labels, values := MarkAll(labels, values, cfg.pits, Pit, cfg.rows, cfg.cols);
    labels := Set(labels, cfg.goal, Goal);
    values := Set(values, cfg.goal, 0.0);
    GridExt(labels, InitialLabels(cfg), cfg.rows, cfg.cols);
    GridExt(values, InitialValues(cfg), cfg.rows, cfg.cols);
    maps := Maps(labels, values);
  }

  /** The loops `for wall in walls` and `for pit in pits`: label each listed cell and zero its value. */
  method MarkAll(labels: seq<seq<Label>>, values: seq<seq<real>>, cells: seq<Cell>, mark: Label, rows: int, cols: int)
    returns (labels': seq<seq<Label>>, values': seq<seq<real>>)
    requires IsGrid(labels, rows, cols) && IsGrid(values, rows, cols)
    requires forall i :: 0 <= i < |cells| ==> InBounds(rows, cols, cells[i])
    ensures IsGrid(labels', rows, cols) && IsGrid(values', rows, cols)
    ensures forall r, c :: 0 <= r < rows && 0 <= c < cols ==>
      labels'[r][c] == (if Listed(cells, r, c) then mark else labels[r][c]) &&
      values'[r][c] == (if Listed(cells, r, c) then 0.0 else values[r][c])
  {
    labels', values' := labels, values;
    for i := 0 to |cells|
      invariant IsGrid(labels', rows, cols) && IsGrid(values', rows, cols)
      invariant forall r, c :: 0 <= r < rows && 0 <= c < cols ==>
        labels'[r][c] == (if Listed(cells[..i], r, c) then mark else labels[r][c]) &&
        values'[r][c] == (if Listed(cells[..i], r, c) then 0.0 else values[r][c])
    {
      assert cells[..i + 1] == cells[..i] + [cells[i]];
      labels' := Set(labels', cells[i], mark);
      values' := Set(values', cells[i], 0.0);
    }
    assert cells[..|cells|] == cells;
  }

  /** One pass of the while loop's body: a sweep, then absolute_diff between the old and new value maps. */
  method Iterate(cfg: Config, maps: Maps) returns (maps': Maps, diff: real)
    requires Shaped(cfg, maps)
    ensures maps' == SweepOf(cfg, maps)
    ensures diff == TotalDiff(maps.values, maps'.values, maps'.labels)
  {
    var policy', values' := Sweep(cfg, maps.labels, maps.values);
    maps' := Maps(policy', values');
    diff := AbsoluteDiff(maps.values, values', policy');
  }

  /**
   * What holds each time mdp(config) tests its loop condition after `k`
   * sweeps: the maps are those after `k` sweeps, `converge` is the counter
   * over their differences, and the counter was below 2 after every earlier
   * sweep.
   */
  ghost predicate LoopState(cfg: PlannerConfig, k: nat, maps: Maps, converge: nat)
  {
    && (k > 0 ==> k <= cfg.maxIterations)
    && maps == Iterated(cfg, k)
    && converge == ConvergeCount(Diffs(cfg, k), cfg.threshold)
    && NotYetConverged(cfg, k)
  }

  /** The counter was below 2 after each sweep before sweep `k`, so the loop did not break early. */
  ghost predicate NotYetConverged(cfg: PlannerConfig, k: nat)
  {
    k == 0 || (NotYetConverged(cfg, k - 1) && ConvergeCount(Diffs(cfg, k - 1), cfg.threshold) < 2)
  }

  /** A run that has not converged by sweep `n` had the counter below 2 after every earlier sweep. */
  lemma {:induction false} NotYetConvergedBefore(cfg: PlannerConfig, j: nat, n: nat)
    requires NotYetConverged(cfg, n) && j < n
    ensures ConvergeCount(Diffs(cfg, j), cfg.threshold) < 2
  {
    if j < n - 1 {
      NotYetConvergedBefore(cfg, j, n - 1);
    }
  }

  lemma LoopStart(cfg: PlannerConfig)
    ensures LoopState(cfg, 0, InitialMaps(cfg), 0)
  {
  }

  /** One more sweep and the counter update keep the loop state. */
  lemma LoopStep(cfg: PlannerConfig, k: nat, maps: Maps, converge: nat, maps': Maps, diff: real)
    requires LoopState(cfg, k, maps, converge) && converge < 2 && k < cfg.maxIterations
    requires maps' == SweepOf(cfg, maps) && diff == TotalDiff(maps.values, maps'.values, maps'.labels)
    ensures LoopState(cfg, k + 1, maps', if diff < cfg.threshold then converge + 1 else 0)
  {
    ConvergeAppend(Diffs(cfg, k), diff, cfg.threshold);
  }

  /** The loop leaves with the budget spent or the counter at 2: the run has stopped. */
  lemma LoopExit(cfg: PlannerConfig, k: nat, maps: Maps, converge: nat)
    requires LoopState(cfg, k, maps, converge)
    requires k >= cfg.maxIterations || converge == 2
    ensures StopsAfter(cfg, k)
  {
  }

  /** mdp(config): the policy map after the sweeps; `n` is the number of sweeps it ran. */
  method Solve(cfg: PlannerConfig) returns (policy: seq<seq<Label>>, ghost n: nat)
    ensures StopsAfter(cfg, n)
    ensures policy == Iterated(cfg, n).labels
    ensures IsGrid(policy, cfg.rows, cfg.cols)
  {
    var maps := SetUp(cfg);
    var iterations := 0;
    var converge := 0;
    LoopStart(cfg);
    while iterations < cfg.maxIterations
      invariant LoopState(cfg, iterations, maps, converge) && converge < 2
      decreases cfg.maxIterations - iterations
    {
      var maps', diff := Iterate(cfg, maps);
      LoopStep(cfg, iterations, maps, converge, maps', diff);
      converge := if diff < cfg.threshold then converge + 1 else 0;
      maps := maps';
      iterations := iterations + 1;
      if converge == 2 {
        break;
      }
    }
    LoopExit(cfg, iterations, maps, converge);
    policy := maps.labels;
    n := iterations;
  }

  /**
   * Cells labelled WALL, PIT or GOAL at the start keep that label and the
   * value 0.0 through every sweep, and no other cell ever carries one of
   * those labels.
   */
  lemma {:induction false} IteratedLabels(cfg: PlannerConfig, k: nat)
    ensures var m := Iterated(cfg, k);
      forall r, c :: 0 <= r < cfg.rows && 0 <= c < cfg.cols ==>
        (IsTerminal(InitialLabel(cfg, r, c)) ==> m.labels[r][c] == InitialLabel(cfg, r, c) && m.values[r][c] == 0.0) &&
        (!IsTerminal(InitialLabel(cfg, r, c)) ==> !IsTerminal(m.labels[r][c]))
  {
    if k > 0 {
      IteratedLabels(cfg, k - 1);
      SweepKeepsLabels(cfg, Iterated(cfg, k - 1));
    }
  }

  /** One sweep keeps terminal cells as they are and gives every other cell a non-terminal label. */
  lemma SweepKeepsLabels(cfg: Config, m: Maps)
    requires Shaped(cfg, m)
    ensures var m' := SweepOf(cfg, m);
      forall r, c :: 0 <= r < cfg.rows && 0 <= c < cfg.cols ==>
        (IsTerminal(m.labels[r][c]) ==> m'.labels[r][c] == m.labels[r][c] && m'.values[r][c] == m.values[r][c]) &&
        (!IsTerminal(m.labels[r][c]) ==> !IsTerminal(m'.labels[r][c]))
  {
    var m' := SweepOf(cfg, m);
    forall r, c | 0 <= r < cfg.rows && 0 <= c < cfg.cols
      ensures IsTerminal(m.labels[r][c]) ==> m'.labels[r][c] == m.labels[r][c] && m'.values[r][c] == m.values[r][c]
      ensures !IsTerminal(m.labels[r][c]) ==> !IsTerminal(m'.labels[r][c])
    {
      assert Decided(cfg, m.labels, m.values, m'.labels, m'.values, r, c);
    }
  }

  /**
   * After one sweep every free cell carries a compass label, unless none of
   * its move values exceeded the sentinel (always so with no moves): then it
   * keeps the empty label and is given the sentinel as its value.
   */
  lemma SweepLabelsFreeCells(cfg: Config, m: Maps)
    requires Shaped(cfg, m)
    ensures var m' := SweepOf(cfg, m);
      forall r, c :: 0 <= r < cfg.rows && 0 <= c < cfg.cols && !IsTerminal(m.labels[r][c]) ==>
        IsDirection(m'.labels[r][c]) || (m'.labels[r][c] == Unset && m'.values[r][c] == Sentinel)
  {
    var m' := SweepOf(cfg, m);
    forall r, c | 0 <= r < cfg.rows && 0 <= c < cfg.cols && !IsTerminal(m.labels[r][c])
      ensures IsDirection(m'.labels[r][c]) || (m'.labels[r][c] == Unset && m'.values[r][c] == Sentinel)
    {
      assert Decided(cfg, m.labels, m.values, m'.labels, m'.values, r, c);
      var seen := Seen(m.values, m'.values, (r, c));
      PickIsFirstLargest(cfg.moves, MoveValues(cfg, m.labels, seen, m.values[r][c], (r, c)));
    }
  }

  /** From the first sweep on, every cell that does not start as WALL, PIT or GOAL is labelled as SweepLabelsFreeCells says. */
  lemma IteratedDirections(cfg: PlannerConfig, k: nat)
    requires k > 0
    ensures var m := Iterated(cfg, k);
      forall r, c :: 0 <= r < cfg.rows && 0 <= c < cfg.cols && !IsTerminal(InitialLabel(cfg, r, c)) ==>
        IsDirection(m.labels[r][c]) || (m.labels[r][c] == Unset && m.values[r][c] == Sentinel)
  {
    IteratedLabels(cfg, k - 1);
    SweepLabelsFreeCells(cfg, Iterated(cfg, k - 1));
  }

  /** With no penalties every value of every sweep is non-negative. */
  lemma {:induction false} IteratedNonNegative(cfg: PlannerConfig, k: nat)
    requires NoPenalties(cfg)
    ensures NonNegative(Iterated(cfg, k).values)
  {
    if k > 0 {
      IteratedNonNegative(cfg, k - 1);
      SweepNonNegative(cfg, Iterated(cfg, k - 1));
    }
  }

  /**
   * With non-negative rewards, probabilities and discount and at least one
   * move, no cell's value ever decreases from one sweep to the next.
   */
  lemma {:induction false} IteratedMonotone(cfg: PlannerConfig, k: nat)
    requires NoPenalties(cfg)
    ensures var before, after := Iterated(cfg, k), Iterated(cfg, k + 1);
      forall r, c :: 0 <= r < cfg.rows && 0 <= c < cfg.cols ==> before.values[r][c] <= after.values[r][c]
  {
    if k == 0 {
      IteratedNonNegative(cfg, 1);
    } else {
      IteratedMonotone(cfg, k - 1);
      IteratedLabels(cfg, k - 1);
      IteratedLabels(cfg, k);
      assert SameTerminals(cfg, Iterated(cfg, k - 1).labels, Iterated(cfg, k).labels);
      SweepMonotone(cfg, Iterated(cfg, k - 1), Iterated(cfg, k));
    }
  }

  /**
   * mdp(config) is deterministic: the number of sweeps, and with it the
   * policy map, is fixed by the configuration.
   */
  lemma StopIsUnique(cfg: PlannerConfig, n1: nat, n2: nat)
    requires StopsAfter(cfg, n1) && StopsAfter(cfg, n2)
    ensures n1 == n2
  {
    if n1 < n2 {
      NotYetConvergedBefore(cfg, n1, n2);
      assert false;
    } else if n2 < n1 {
      NotYetConvergedBefore(cfg, n2, n1);
      assert false;
    }
  }
}
