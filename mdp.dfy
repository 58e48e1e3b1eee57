/**
 * The grid MDP value-iteration planner (scripts/mdp.py).
 *
 * The planner keeps a policy map and a value map over a grid of free, wall,
 * pit and goal cells. Each sweep visits the cells in row-major order and gives
 * every free cell the best expected value over the configured moves, together
 * with the compass label of the first move reaching it. The sweep works in
 * place on the new value map: a neighbour that the sweep has already visited
 * contributes its new value, a later one its previous value, and an outcome
 * that bounces back off a wall or the border contributes the cell's own
 * previous value.
 */
module Mdp {
  import opened Grids

  /**
   * A policy label: the three terminal labels, the four compass directions, and
   * `Unset`, the empty string a free cell holds before any move is chosen.
   */
  datatype Label = Wall | Pit | Goal | N | E | S | W | Unset

  predicate IsTerminal(l: Label)
  {
    l.Wall? || l.Pit? || l.Goal?
  }

  predicate IsDirection(l: Label)
  {
    l.N? || l.E? || l.S? || l.W?
  }

  /** An entry of `possible_moves`: a row offset and a column offset. */
  datatype Move = Move(dr: int, dc: int)

  /** The planner's part of the configuration. */
  datatype Config = Config(
    rows: int, cols: int,                      // map_size
    walls: seq<Cell>, pits: seq<Cell>, goal: Cell,
    moves: seq<Move>,                          // possible_moves, in order
    probForward: real, probBackward: real, probLeft: real, probRight: real,
    rewardStep: real, rewardWall: real, rewardGoal: real, rewardPit: real,
    discount: real,
    maxIterations: int,
    threshold: real)

  predicate InGrid(cfg: Config, p: Cell)
  {
    InBounds(cfg.rows, cfg.cols, p)
  }

  /** Every listed wall, pit and the goal lies on the grid (so the grid is not empty). */
  predicate ValidConfig(cfg: Config)
  {
    && InGrid(cfg, cfg.goal)
    && (forall i :: 0 <= i < |cfg.walls| ==> InGrid(cfg, cfg.walls[i]))
    && (forall i :: 0 <= i < |cfg.pits| ==> InGrid(cfg, cfg.pits[i]))
  }

  /**
   * The configurations the model covers. In mdp(config) a wall, pit or goal
   * index past the end of the grid raises an IndexError, and a negative one
   * silently wraps around to the far end of its row or column; both are
   * excluded here.
   */
  type PlannerConfig = cfg: Config | ValidConfig(cfg)
    witness Config(1, 1, [], [], (0, 0), [], 0.0, 0.0, 0.0, 0.0, 0.0, 0.0, 0.0, 0.0, 0.0, 0, 0.0)

  /** The value the sweep writes for a free cell when no move beat it: -sys.maxint-1 on a 64-bit build. */
  const Sentinel: real := -9223372036854775808.0

  /** The compass label recorded for a move. */
  function DirectionOf(m: Move): (l: Label)
    ensures IsDirection(l)
    ensures l == E <==> m == Move(0, 1)
    ensures l == W <==> m == Move(0, -1)
    ensures l == S <==> m == Move(1, 0)
  {
    if m == Move(0, 1) then E
    else if m == Move(0, -1) then W
    else if m == Move(1, 0) then S
    else N
  }

  // ---------------------------------------------------------------------
  // Initial maps
  // ---------------------------------------------------------------------

  /** The cell (`r`, `c`) is one of `cells`. */
  predicate Listed(cells: seq<Cell>, r: int, c: int)
  {
    (r, c) in cells
  }

  /** The label a cell starts with: walls first, then pits, then the goal, the last write winning. */
  function InitialLabel(cfg: Config, r: int, c: int): Label
  {
    if r == cfg.goal.0 && c == cfg.goal.1 then Goal
    else if Listed(cfg.pits, r, c) then Pit
    else if Listed(cfg.walls, r, c) then Wall
    else Unset
  }

  function InitialRow(cfg: PlannerConfig, r: int): (row: seq<Label>)
    ensures |row| == cfg.cols
    ensures forall c :: 0 <= c < cfg.cols ==> row[c] == InitialLabel(cfg, r, c)
  {
    seq(cfg.cols, c => InitialLabel(cfg, r, c))
  }

  function InitialLabels(cfg: PlannerConfig): (g: seq<seq<Label>>)
    ensures IsGrid(g, cfg.rows, cfg.cols)
    ensures forall r, c :: 0 <= r < cfg.rows && 0 <= c < cfg.cols ==> g[r][c] == InitialLabel(cfg, r, c)
  {
    seq(cfg.rows, r => InitialRow(cfg, r))
  }

  function InitialValues(cfg: PlannerConfig): (g: seq<seq<real>>)
    ensures IsGrid(g, cfg.rows, cfg.cols)
    ensures forall r, c :: 0 <= r < cfg.rows && 0 <= c < cfg.cols ==> g[r][c] == 0.0
  {
    Fill(cfg.rows, cfg.cols, 0.0)
  }

  // ---------------------------------------------------------------------
  // One move's expected value
  // ---------------------------------------------------------------------

  /** The four stochastic outcomes of a move. */
  datatype Outcome = Forward | Backward | LeftTurn | RightTurn

  /** The cell an outcome of move `m` aims at from `p`; the sideways ones swap the offsets. */
  function Target(p: Cell, m: Move, o: Outcome): (t: Cell)
    ensures Distance(p, t) == Abs(m.dr) + Abs(m.dc)
  {
    match o
    case Forward => (p.0 + m.dr, p.1 + m.dc)
    case Backward => (p.0 - m.dr, p.1 - m.dc)
    case LeftTurn => (p.0 - m.dc, p.1 - m.dr)
    case RightTurn => (p.0 + m.dc, p.1 + m.dr)
  }

  /** For a unit compass move the four outcomes reach the four neighbours of `p`, one each. */
  lemma TargetsAreTheFourNeighbours(p: Cell, m: Move)
    requires m in {Move(0, 1), Move(0, -1), Move(1, 0), Move(-1, 0)}
    ensures forall o :: Distance(p, Target(p, m, o)) == 1
    ensures forall o1, o2 :: o1 != o2 ==> Target(p, m, o1) != Target(p, m, o2)
    ensures Target(p, m, Forward) == (p.0 + m.dr, p.1 + m.dc)
  {
  }

  function Abs(x: int): nat
  {
    if x < 0 then -x else x
  }

  function Distance(p: Cell, q: Cell): nat
  {
    Abs(p.0 - q.0) + Abs(p.1 - q.1)
  }

  /** An outcome aimed at `t` bounces back: `t` is off the grid or a wall. */
  predicate Bounces(cfg: Config, labels: seq<seq<Label>>, t: Cell)
    requires IsGrid(labels, cfg.rows, cfg.cols)
  {
    !InGrid(cfg, t) || labels[t.0][t.1] == Wall
  }

  /** What one outcome lands on: the value it is worth and the reward it earns. */
  datatype Landing = Landing(value: real, reward: real)

  /**
   * An outcome aimed off the grid or at a wall bounces back: it is worth the
   * cell's own previous value `own` and earns the wall reward. Any other
   * outcome is worth the value `values` holds for the target and earns the step
   * reward, plus the goal or pit reward when the target is the goal or a pit.
   */
  function LandOn(cfg: Config, labels: seq<seq<Label>>, values: seq<seq<real>>, own: real, t: Cell): (x: Landing)
    requires IsGrid(labels, cfg.rows, cfg.cols) && IsGrid(values, cfg.rows, cfg.cols)
    ensures Bounces(cfg, labels, t) ==> x == Landing(own, cfg.rewardWall)
    ensures !Bounces(cfg, labels, t) ==> x.value == values[t.0][t.1]
    ensures !Bounces(cfg, labels, t) && labels[t.0][t.1] == Goal ==> x.reward == cfg.rewardStep + cfg.rewardGoal
    ensures !Bounces(cfg, labels, t) && labels[t.0][t.1] == Pit ==> x.reward == cfg.rewardStep + cfg.rewardPit
    ensures !Bounces(cfg, labels, t) && !IsTerminal(labels[t.0][t.1]) ==> x.reward == cfg.rewardStep
  {
    if Bounces(cfg, labels, t) then
      Landing(own, cfg.rewardWall)
    else
      var l := labels[t.0][t.1];
      Landing(values[t.0][t.1],
              cfg.rewardStep + (if l == Goal then cfg.rewardGoal else 0.0) + (if l == Pit then cfg.rewardPit else 0.0))
  }

  function Weighted(cfg: Config, prob: real, x: Landing): real
  {
    prob * (x.reward + cfg.discount * x.value)
  }

  /**
   * `v_f + v_b + v_l + v_r` for move `m` at cell `p`. A move whose four
   * outcomes all bounce back is worth the cell's own previous value,
   * discounted, plus the wall reward, times the total outcome probability.
   */
  function MoveValue(cfg: Config, labels: seq<seq<Label>>, values: seq<seq<real>>, own: real, p: Cell, m: Move): (v: real)
    requires IsGrid(labels, cfg.rows, cfg.cols) && IsGrid(values, cfg.rows, cfg.cols)
    ensures (forall o :: Bounces(cfg, labels, Target(p, m, o))) ==>
      v == (cfg.probForward + cfg.probBackward + cfg.probLeft + cfg.probRight) * (cfg.rewardWall + cfg.discount * own)
  {
    Weighted(cfg, cfg.probForward, LandOn(cfg, labels, values, own, Target(p, m, Forward)))
    + Weighted(cfg, cfg.probBackward, LandOn(cfg, labels, values, own, Target(p, m, Backward)))
    + Weighted(cfg, cfg.probLeft, LandOn(cfg, labels, values, own, Target(p, m, LeftTurn)))
    + Weighted(cfg, cfg.probRight, LandOn(cfg, labels, values, own, Target(p, m, RightTurn)))
  }

  /** The values of all configured moves, in list order. */
  function MoveValues(cfg: Config, labels: seq<seq<Label>>, values: seq<seq<real>>, own: real, p: Cell): (s: seq<real>)
    requires IsGrid(labels, cfg.rows, cfg.cols) && IsGrid(values, cfg.rows, cfg.cols)
    ensures |s| == |cfg.moves|
    ensures forall k :: 0 <= k < |s| ==> s[k] == MoveValue(cfg, labels, values, own, p, cfg.moves[k])
  {
    seq(|cfg.moves|, k requires 0 <= k < |cfg.moves| => MoveValue(cfg, labels, values, own, p, cfg.moves[k]))
  }

  // ---------------------------------------------------------------------
  // Choosing the best move
  // ---------------------------------------------------------------------

  /** The label and value a sweep gives a free cell. */
  datatype Choice = Choice(policy: Label, value: real)

  /**
   * The scan over the move values `sums` of `moves`: starting from the empty
   * label and the sentinel, a move replaces the candidate only when its value
   * is strictly larger.
   */
  function Pick(moves: seq<Move>, sums: seq<real>): (b: Choice)
    requires |moves| == |sums|
    ensures b.policy == Unset || IsDirection(b.policy)
  {
    if sums == [] then Choice(Unset, Sentinel)
    else
      var n := |sums| - 1;
      var prev := Pick(moves[..n], sums[..n]);
      if sums[n] > prev.value then Choice(DirectionOf(moves[n]), sums[n]) else prev
  }

  /**
   * The scan settles on the largest move value and the direction of the first
   * move reaching it; when no move value exceeds the sentinel (in particular
   * with no moves) it keeps the empty label and the sentinel.
   */
  lemma {:induction false} PickIsFirstLargest(moves: seq<Move>, sums: seq<real>)
    requires |moves| == |sums|
    ensures var b := Pick(moves, sums);
      && (forall j :: 0 <= j < |sums| ==> sums[j] <= b.value)
      && (b.policy == Unset <==> forall j :: 0 <= j < |sums| ==> sums[j] <= Sentinel)
      && (b.policy == Unset ==> b.value == Sentinel)
      && (b.policy != Unset ==>
            exists k :: 0 <= k < |sums| && b == Choice(DirectionOf(moves[k]), sums[k])
              && forall j :: 0 <= j < k ==> sums[j] < sums[k])
  {
    if sums != [] {
      var n := |sums| - 1;
      var prev := Pick(moves[..n], sums[..n]);
      PickIsFirstLargest(moves[..n], sums[..n]);
      assert forall j :: 0 <= j < n ==> sums[..n][j] == sums[j];
      var b := Pick(moves, sums);
      if sums[n] > prev.value {
        assert b == Choice(DirectionOf(moves[n]), sums[n]);
      } else if prev.policy != Unset {
        var k :| 0 <= k < n && prev == Choice(DirectionOf(moves[..n][k]), sums[..n][k])
          && forall j :: 0 <= j < k ==> sums[..n][j] < sums[..n][k];
        assert b == Choice(DirectionOf(moves[k]), sums[k]);
      }
    }
  }

  /** The best move for the free cell `p`: the scan over the values of the configured moves. */
  function Best(cfg: Config, labels: seq<seq<Label>>, values: seq<seq<real>>, own: real, p: Cell): (b: Choice)
    requires IsGrid(labels, cfg.rows, cfg.cols) && IsGrid(values, cfg.rows, cfg.cols)
    ensures !IsTerminal(b.policy)
  {
    Pick(cfg.moves, MoveValues(cfg, labels, values, own, p))
  }

  /** The moves loop for one free cell: `maxv` and `maxp` track the best move seen so far. */
  method ChooseMove(cfg: Config, labels: seq<seq<Label>>, values: seq<seq<real>>, own: real, p: Cell)
    returns (maxp: Label, maxv: real)
    requires IsGrid(labels, cfg.rows, cfg.cols) && IsGrid(values, cfg.rows, cfg.cols)
    ensures Choice(maxp, maxv) == Best(cfg, labels, values, own, p)
  {
    ghost var sums := MoveValues(cfg, labels, values, own, p);
    maxv, maxp := Sentinel, Unset;
    for i := 0 to |cfg.moves|
      invariant Choice(maxp, maxv) == Pick(cfg.moves[..i], sums[..i])
    {
      var summ := MoveValue(cfg, labels, values, own, p, cfg.moves[i]);
      assert cfg.moves[..i + 1][..i] == cfg.moves[..i];
      assert sums[..i + 1][..i] == sums[..i];
      if summ > maxv {
        maxv := summ;
        maxp := DirectionOf(cfg.moves[i]);
      }
    }
    assert cfg.moves[..|cfg.moves|] == cfg.moves;
    assert sums[..|sums|] == sums;
  }

  // ---------------------------------------------------------------------
  // The sweep
  // ---------------------------------------------------------------------

  /** Row `r` of the value map as the sweep sees it on reaching cell `p`. */
  function SeenRow(prev: seq<real>, next: seq<real>, r: int, p: Cell): (s: seq<real>)
    requires |next| == |prev|
    ensures |s| == |prev|
    ensures forall c :: 0 <= c < |prev| ==> s[c] == if Before(r, c, p) then next[c] else prev[c]
  {
    seq(|prev|, c requires 0 <= c < |prev| => if Before(r, c, p) then next[c] else prev[c])
  }

  /**
   * The value map as the sweep sees it on reaching cell `p`: cells before `p`
   * in row-major order hold this sweep's values `next`, the others still hold
   * the previous sweep's `prev`.
   */
  function Seen(prev: seq<seq<real>>, next: seq<seq<real>>, p: Cell): (g: seq<seq<real>>)
    requires |next| == |prev| && forall r :: 0 <= r < |prev| ==> |next[r]| == |prev[r]|
    ensures |g| == |prev| && forall r :: 0 <= r < |prev| ==> |g[r]| == |prev[r]|
    ensures forall r, c :: 0 <= r < |prev| && 0 <= c < |prev[r]| ==>
      g[r][c] == if Before(r, c, p) then next[r][c] else prev[r][c]
  {
    seq(|prev|, r requires 0 <= r < |prev| => SeenRow(prev[r], next[r], r, p))
  }

  /**
   * One sweep takes (`labels`, `values`) to (`labels'`, `values'`): the grids keep
   * their shape, terminal cells keep their label and value, and every free
   * cell holds the best move computed from the value map as the sweep saw it
   * on reaching that cell, bouncing back to the cell's previous value.
   */
  ghost predicate IsSweepOf(cfg: Config, labels: seq<seq<Label>>, values: seq<seq<real>>,
                            labels': seq<seq<Label>>, values': seq<seq<real>>)
  {
    && IsGrid(labels, cfg.rows, cfg.cols) && IsGrid(values, cfg.rows, cfg.cols)
    && IsGrid(labels', cfg.rows, cfg.cols) && IsGrid(values', cfg.rows, cfg.cols)
    && forall r, c :: 0 <= r < cfg.rows && 0 <= c < cfg.cols ==> Decided(cfg, labels, values, labels', values', r, c)
  }

  /** Cell (`r`, `c`) holds what the sweep from (`labels`, `values`) gives it in (`labels'`, `values'`). */
  ghost predicate Decided(cfg: Config, labels: seq<seq<Label>>, values: seq<seq<real>>,
                          labels': seq<seq<Label>>, values': seq<seq<real>>, r: int, c: int)
    requires IsGrid(labels, cfg.rows, cfg.cols) && IsGrid(values, cfg.rows, cfg.cols)
    requires IsGrid(labels', cfg.rows, cfg.cols) && IsGrid(values', cfg.rows, cfg.cols)
    requires 0 <= r < cfg.rows && 0 <= c < cfg.cols
  {
    if IsTerminal(labels[r][c]) then
      Untouched(labels, values, labels', values', r, c)
    else
      Choice(labels'[r][c], values'[r][c]) == Best(cfg, labels, Seen(values, values', (r, c)), values[r][c], (r, c))
  }

  /** Cell (`r`, `c`) still holds its label and value. */
  ghost predicate Untouched(labels: seq<seq<Label>>, values: seq<seq<real>>,
                            labels': seq<seq<Label>>, values': seq<seq<real>>, r: int, c: int)
    requires 0 <= r < |labels| == |values| == |labels'| == |values'|
    requires 0 <= c
    requires c < |labels[r]| && c < |values[r]| && c < |labels'[r]| && c < |values'[r]|
  {
    labels'[r][c] == labels[r][c] && values'[r][c] == values[r][c]
  }

  /** The two label maps carry the same terminal labels in the same places. */
  ghost predicate SameTerminals(cfg: Config, a: seq<seq<Label>>, b: seq<seq<Label>>)
  {
    && IsGrid(a, cfg.rows, cfg.cols) && IsGrid(b, cfg.rows, cfg.cols)
    && forall r, c :: 0 <= r < cfg.rows && 0 <= c < cfg.cols ==>
         (IsTerminal(a[r][c]) || IsTerminal(b[r][c])) ==> a[r][c] == b[r][c]
  }

  /** Only the terminal labels of the label map matter to a move's value. */
  lemma BestSameTerminals(cfg: Config, a: seq<seq<Label>>, b: seq<seq<Label>>, values: seq<seq<real>>, own: real, p: Cell)
    requires SameTerminals(cfg, a, b) && IsGrid(values, cfg.rows, cfg.cols)
    ensures Best(cfg, a, values, own, p) == Best(cfg, b, values, own, p)
  {
    forall t
      ensures LandOn(cfg, a, values, own, t) == LandOn(cfg, b, values, own, t)
    {
    }
    assert MoveValues(cfg, a, values, own, p) == MoveValues(cfg, b, values, own, p);
  }

  /** `Seen` at `q` reads the new map only before `q`. */
  lemma SeenFrame(prev: seq<seq<real>>, next: seq<seq<real>>, next': seq<seq<real>>, q: Cell, rows: int, cols: int)
    requires IsGrid(prev, rows, cols) && IsGrid(next, rows, cols) && IsGrid(next', rows, cols)
    requires forall r, c :: 0 <= r < rows && 0 <= c < cols && Before(r, c, q) ==> next[r][c] == next'[r][c]
    ensures Seen(prev, next, q) == Seen(prev, next', q)
  {
    GridExt(Seen(prev, next, q), Seen(prev, next', q), rows, cols);
  }

  /** The sweep over every cell, in place on `labels'` and the copy `values'` of the value map. */
  method Sweep(cfg: Config, labels: seq<seq<Label>>, values: seq<seq<real>>)
    returns (labels': seq<seq<Label>>, values': seq<seq<real>>)
    requires IsGrid(labels, cfg.rows, cfg.cols) && IsGrid(values, cfg.rows, cfg.cols)
    ensures IsSweepOf(cfg, labels, values, labels', values')
    ensures Maps(labels', values') == SweepOf(cfg, Maps(labels, values))
  {
    labels', values' := labels, values;    // new_value_map = deepcopy(value_map)
    var row := 0;
    while row < cfg.rows
      invariant 0 <= row <= cfg.rows || (cfg.rows <= 0 && row == 0)
      invariant IsGrid(labels', cfg.rows, cfg.cols) && IsGrid(values', cfg.rows, cfg.cols)
      invariant SameTerminals(cfg, labels, labels')
      invariant SweptUpTo(cfg, labels, values, labels', values', (row, 0))
    {
      var col := 0;
      while col < cfg.cols
        invariant 0 <= col <= cfg.cols || (cfg.cols <= 0 && col == 0)
        invariant IsGrid(labels', cfg.rows, cfg.cols) && IsGrid(values', cfg.rows, cfg.cols)
        invariant SameTerminals(cfg, labels, labels')
        invariant SweptUpTo(cfg, labels, values, labels', values', (row, col))
      {
        var p := (row, col);
        if !IsTerminal(labels'[row][col]) {
          var maxp, maxv := ChooseMove(cfg, labels', values', values[row][col], p);
          SweepStep(cfg, labels, values, labels', values', p, maxp, maxv);
          labels' := Set(labels', p, maxp);
          values' := Set(values', p, maxv);
        } else {
          SweepSkip(cfg, labels, values, labels', values', p);
        }
        col := col + 1;
      }
      SweptRowEnd(cfg, labels, values, labels', values', row, col);
      row := row + 1;
    }
    SweptAll(cfg, labels, values, labels', values', (row, 0));
    SweepUnique(cfg, labels, values, labels', values');
  }

  /**
   * The state of a sweep that has reached cell `p`: the cells before `p` are
   * decided, the others are untouched.
   */
  ghost predicate SweptUpTo(cfg: Config, labels: seq<seq<Label>>, values: seq<seq<real>>,
                            labels': seq<seq<Label>>, values': seq<seq<real>>, p: Cell)
  {
    && IsGrid(labels, cfg.rows, cfg.cols) && IsGrid(values, cfg.rows, cfg.cols)
    && IsGrid(labels', cfg.rows, cfg.cols) && IsGrid(values', cfg.rows, cfg.cols)
    && forall r, c :: 0 <= r < cfg.rows && 0 <= c < cfg.cols ==>
         if Before(r, c, p) then Decided(cfg, labels, values, labels', values', r, c)
         else Untouched(labels, values, labels', values', r, c)
  }

  /** Deciding the free cell `p` with the current maps extends a sweep that has reached `p` to the next cell. */
  lemma SweepStep(cfg: Config, labels: seq<seq<Label>>, values: seq<seq<real>>,
                  labels': seq<seq<Label>>, values': seq<seq<real>>, p: Cell, maxp: Label, maxv: real)
    requires InGrid(cfg, p)
    requires SameTerminals(cfg, labels, labels')
    requires SweptUpTo(cfg, labels, values, labels', values', p)
    requires !IsTerminal(labels'[p.0][p.1])
    requires Choice(maxp, maxv) == Best(cfg, labels', values', values[p.0][p.1], p)
    ensures SameTerminals(cfg, labels, Set(labels', p, maxp))
    ensures SweptUpTo(cfg, labels, values, Set(labels', p, maxp), Set(values', p, maxv), (p.0, p.1 + 1))
  {
    var L2, V2 := Set(labels', p, maxp), Set(values', p, maxv);
    DecidePoint(cfg, labels, values, labels', values', p, maxp, maxv);
    forall r, c | 0 <= r < cfg.rows && 0 <= c < cfg.cols
      ensures if Before(r, c, (p.0, p.1 + 1)) then Decided(cfg, labels, values, L2, V2, r, c)
              else Untouched(labels, values, L2, V2, r, c)
    {
      StepAt(cfg, labels, values, labels', values', p, maxp, maxv, r, c);
    }
  }

  lemma StepAt(cfg: Config, labels: seq<seq<Label>>, values: seq<seq<real>>,
               labels': seq<seq<Label>>, values': seq<seq<real>>, p: Cell, maxp: Label, maxv: real, r: int, c: int)
    requires InGrid(cfg, p) && 0 <= r < cfg.rows && 0 <= c < cfg.cols
    requires SweptUpTo(cfg, labels, values, labels', values', p)
    requires Decided(cfg, labels, values, Set(labels', p, maxp), Set(values', p, maxv), p.0, p.1)
    ensures var L2, V2 := Set(labels', p, maxp), Set(values', p, maxv);
      if Before(r, c, (p.0, p.1 + 1)) then Decided(cfg, labels, values, L2, V2, r, c)
      else Untouched(labels, values, L2, V2, r, c)
  {
    if r != p.0 || c != p.1 {
      if Before(r, c, p) {
        DecidedFrame(cfg, labels, values, labels', values', p, maxp, maxv, r, c);
      } else {
        UntouchedFrame(cfg, labels, values, labels', values', p, maxp, maxv, r, c);
      }
    }
  }

  /** Writing cell `p` leaves every other untouched cell untouched. */
  lemma UntouchedFrame(cfg: Config, labels: seq<seq<Label>>, values: seq<seq<real>>,
                       labels': seq<seq<Label>>, values': seq<seq<real>>, p: Cell, maxp: Label, maxv: real,
                       r: int, c: int)
    requires IsGrid(labels, cfg.rows, cfg.cols) && IsGrid(values, cfg.rows, cfg.cols)
    requires IsGrid(labels', cfg.rows, cfg.cols) && IsGrid(values', cfg.rows, cfg.cols)
    requires InGrid(cfg, p) && 0 <= r < cfg.rows && 0 <= c < cfg.cols
    requires r != p.0 || c != p.1
    requires Untouched(labels, values, labels', values', r, c)
    ensures Untouched(labels, values, Set(labels', p, maxp), Set(values', p, maxv), r, c)
  {
  }

  /** The cell `p` itself, decided with the current maps, holds what the sweep gives it. */
  lemma DecidePoint(cfg: Config, labels: seq<seq<Label>>, values: seq<seq<real>>,
                    labels': seq<seq<Label>>, values': seq<seq<real>>, p: Cell, maxp: Label, maxv: real)
    requires InGrid(cfg, p)
    requires SameTerminals(cfg, labels, labels')
    requires SweptUpTo(cfg, labels, values, labels', values', p)
    requires !IsTerminal(labels'[p.0][p.1])
    requires Choice(maxp, maxv) == Best(cfg, labels', values', values[p.0][p.1], p)
    ensures SameTerminals(cfg, labels, Set(labels', p, maxp))
    ensures Decided(cfg, labels, values, Set(labels', p, maxp), Set(values', p, maxv), p.0, p.1)
  {
    var V2 := Set(values', p, maxv);
    // The current value map is exactly what the sweep sees at p, and so is V2.
    forall r, c | 0 <= r < cfg.rows && 0 <= c < cfg.cols
      ensures values'[r][c] == Seen(values, values', p)[r][c]
    {
      if !Before(r, c, p) {
        assert Untouched(labels, values, labels', values', r, c);
      }
    }
    GridExt(values', Seen(values, values', p), cfg.rows, cfg.cols);
    SeenFrame(values, values', V2, p, cfg.rows, cfg.cols);
    BestSameTerminals(cfg, labels, labels', values', values[p.0][p.1], p);
  }

  /** Writing cell `p` leaves every cell decided before `p` decided. */
  lemma DecidedFrame(cfg: Config, labels: seq<seq<Label>>, values: seq<seq<real>>,
                     labels': seq<seq<Label>>, values': seq<seq<real>>, p: Cell, maxp: Label, maxv: real,
                     r: int, c: int)
    requires InGrid(cfg, p) && 0 <= r < cfg.rows && 0 <= c < cfg.cols && Before(r, c, p)
    requires IsGrid(labels, cfg.rows, cfg.cols) && IsGrid(values, cfg.rows, cfg.cols)
    requires IsGrid(labels', cfg.rows, cfg.cols) && IsGrid(values', cfg.rows, cfg.cols)
    requires Decided(cfg, labels, values, labels', values', r, c)
    ensures Decided(cfg, labels, values, Set(labels', p, maxp), Set(values', p, maxv), r, c)
  {
    SeenFrame(values, values', Set(values', p, maxv), (r, c), cfg.rows, cfg.cols);
  }

  /** A terminal cell is skipped: the sweep moves on without writing it. */
  lemma SweepSkip(cfg: Config, labels: seq<seq<Label>>, values: seq<seq<real>>,
                  labels': seq<seq<Label>>, values': seq<seq<real>>, p: Cell)
    requires InGrid(cfg, p)
    requires SameTerminals(cfg, labels, labels')
    requires SweptUpTo(cfg, labels, values, labels', values', p)
    requires IsTerminal(labels'[p.0][p.1])
    ensures SweptUpTo(cfg, labels, values, labels', values', (p.0, p.1 + 1))
  {
    assert Untouched(labels, values, labels', values', p.0, p.1);
    assert Decided(cfg, labels, values, labels', values', p.0, p.1);
  }

  lemma SweptRowEnd(cfg: Config, labels: seq<seq<Label>>, values: seq<seq<real>>,
                    labels': seq<seq<Label>>, values': seq<seq<real>>, row: int, col: int)
    requires col >= cfg.cols
    requires SweptUpTo(cfg, labels, values, labels', values', (row, col))
    ensures SweptUpTo(cfg, labels, values, labels', values', (row + 1, 0))
  {
  }

  lemma SweptAll(cfg: Config, labels: seq<seq<Label>>, values: seq<seq<real>>,
                 labels': seq<seq<Label>>, values': seq<seq<real>>, p: Cell)
    requires p.0 >= cfg.rows
    requires SweptUpTo(cfg, labels, values, labels', values', p)
    ensures IsSweepOf(cfg, labels, values, labels', values')
  {
  }

  // ---------------------------------------------------------------------
  // The sweep as a function
  // ---------------------------------------------------------------------

  /** A label map and a value map of the same grid. */
  datatype Maps = Maps(labels: seq<seq<Label>>, values: seq<seq<real>>)

  predicate Shaped(cfg: Config, m: Maps)
  {
    IsGrid(m.labels, cfg.rows, cfg.cols) && IsGrid(m.values, cfg.rows, cfg.cols)
  }

  /**
   * The rest of a sweep from cell `p` on: `cur` holds what has been written so
   * far, and `values` is the previous sweep's map, read for the bounce-back value.
   */
  function SweepFrom(cfg: Config, values: seq<seq<real>>, cur: Maps, p: Cell): (m: Maps)
    requires IsGrid(values, cfg.rows, cfg.cols) && Shaped(cfg, cur)
    requires 0 <= p.0 && 0 <= p.1
    ensures Shaped(cfg, m)
    decreases cfg.rows - p.0, cfg.cols - p.1
  {
    if p.0 >= cfg.rows then cur
    else if p.1 >= cfg.cols then SweepFrom(cfg, values, cur, (p.0 + 1, 0))
    else if IsTerminal(cur.labels[p.0][p.1]) then SweepFrom(cfg, values, cur, (p.0, p.1 + 1))
    else
      var b := Best(cfg, cur.labels, cur.values, values[p.0][p.1], p);
      SweepFrom(cfg, values, Maps(Set(cur.labels, p, b.policy), Set(cur.values, p, b.value)), (p.0, p.1 + 1))
  }

  /**
   * One whole sweep: the maps a Gauss-Seidel sweep takes `m` to. There is
   * such a sweep (SweepExists) and only one (SweepUnique).
   */
  ghost function SweepOf(cfg: Config, m: Maps): (m': Maps)
    requires Shaped(cfg, m)
    ensures Shaped(cfg, m')
    ensures IsSweepOf(cfg, m.labels, m.values, m'.labels, m'.values)
  {
    SweepExists(cfg, m);
    var m': Maps :| IsSweepOf(cfg, m.labels, m.values, m'.labels, m'.values); m'
  }

  /** Finishing a sweep that has reached `p` with the sweep function completes a Gauss-Seidel sweep. */
  lemma {:induction false} SweepFromIsSweep(cfg: Config, labels: seq<seq<Label>>, values: seq<seq<real>>, cur: Maps, p: Cell)
    requires 0 <= p.0 && 0 <= p.1
    requires SameTerminals(cfg, labels, cur.labels)
    requires SweptUpTo(cfg, labels, values, cur.labels, cur.values, p)
    ensures var m := SweepFrom(cfg, values, cur, p); IsSweepOf(cfg, labels, values, m.labels, m.values)
    decreases cfg.rows - p.0, cfg.cols - p.1
  {
    if p.0 >= cfg.rows {
      SweptAll(cfg, labels, values, cur.labels, cur.values, p);
    } else if p.1 >= cfg.cols {
      SweptRowEnd(cfg, labels, values, cur.labels, cur.values, p.0, p.1);
      SweepFromIsSweep(cfg, labels, values, cur, (p.0 + 1, 0));
      assert SweepFrom(cfg, values, cur, p) == SweepFrom(cfg, values, cur, (p.0 + 1, 0));
    } else if IsTerminal(cur.labels[p.0][p.1]) {
      SweepSkip(cfg, labels, values, cur.labels, cur.values, p);
      SweepFromIsSweep(cfg, labels, values, cur, (p.0, p.1 + 1));
      assert SweepFrom(cfg, values, cur, p) == SweepFrom(cfg, values, cur, (p.0, p.1 + 1));
    } else {
      var b := Best(cfg, cur.labels, cur.values, values[p.0][p.1], p);
      var next := Maps(Set(cur.labels, p, b.policy), Set(cur.values, p, b.value));
      assert Shaped(cfg, next);
      SweepStep(cfg, labels, values, cur.labels, cur.values, p, b.policy, b.value);
      SweepFromIsSweep(cfg, labels, values, next, (p.0, p.1 + 1));
      assert SweepFrom(cfg, values, cur, p) == SweepFrom(cfg, values, next, (p.0, p.1 + 1));
    }
  }

  /** The row-by-row sweep the loops perform is a Gauss-Seidel sweep, so one exists. */
  lemma SweepExists(cfg: Config, m: Maps)
    requires Shaped(cfg, m)
    ensures exists m': Maps :: IsSweepOf(cfg, m.labels, m.values, m'.labels, m'.values)
  {
    forall r, c | 0 <= r < cfg.rows && 0 <= c < cfg.cols
      ensures Untouched(m.labels, m.values, m.labels, m.values, r, c)
    {
    }
    SweepFromIsSweep(cfg, m.labels, m.values, m, (0, 0));
    var w := SweepFrom(cfg, m.values, m, (0, 0));
    assert IsSweepOf(cfg, m.labels, m.values, w.labels, w.values);
  }

  // ---------------------------------------------------------------------
  // A sweep is determined by the maps it starts from
  // ---------------------------------------------------------------------

  /** Any maps related to the old ones by a Gauss-Seidel sweep are the ones SweepOf gives. */
  lemma SweepUnique(cfg: Config, labels: seq<seq<Label>>, values: seq<seq<real>>,
                    labels': seq<seq<Label>>, values': seq<seq<real>>)
    requires IsSweepOf(cfg, labels, values, labels', values')
    ensures Maps(labels', values') == SweepOf(cfg, Maps(labels, values))
  {
    var m := SweepOf(cfg, Maps(labels, values));
    SweepDeterministic(cfg, labels, values, labels', values', m.labels, m.values);
  }

  /** Two sweeps from the same maps that agree on every cell before `q` agree on `q` too. */
  lemma AgreeAt(cfg: Config, L: seq<seq<Label>>, V: seq<seq<real>>,
                L1: seq<seq<Label>>, V1: seq<seq<real>>,
                L2: seq<seq<Label>>, V2: seq<seq<real>>, q: Cell)
    requires IsSweepOf(cfg, L, V, L1, V1) && IsSweepOf(cfg, L, V, L2, V2)
    requires InGrid(cfg, q)
    requires forall r, c :: 0 <= r < cfg.rows && 0 <= c < cfg.cols && Before(r, c, q) ==>
      L1[r][c] == L2[r][c] && V1[r][c] == V2[r][c]
    ensures L1[q.0][q.1] == L2[q.0][q.1] && V1[q.0][q.1] == V2[q.0][q.1]
  {
    SeenFrame(V, V1, V2, q, cfg.rows, cfg.cols);
    assert Decided(cfg, L, V, L1, V1, q.0, q.1);
    assert Decided(cfg, L, V, L2, V2, q.0, q.1);
  }

  /** Two sweeps from the same maps agree on every cell before `p` in row-major order. */
  lemma {:induction false} AgreeBefore(cfg: Config, L: seq<seq<Label>>, V: seq<seq<real>>,
                                       L1: seq<seq<Label>>, V1: seq<seq<real>>,
                                       L2: seq<seq<Label>>, V2: seq<seq<real>>, p: Cell)
    requires IsSweepOf(cfg, L, V, L1, V1) && IsSweepOf(cfg, L, V, L2, V2)
    requires cfg.cols > 0
    requires 0 <= p.0 <= cfg.rows && 0 <= p.1 < cfg.cols
    ensures forall r, c :: 0 <= r < cfg.rows && 0 <= c < cfg.cols && Before(r, c, p) ==>
      L1[r][c] == L2[r][c] && V1[r][c] == V2[r][c]
    decreases p.0, p.1
  {
    if p.0 != 0 || p.1 != 0 {
      var q := if p.1 > 0 then (p.0, p.1 - 1) else (p.0 - 1, cfg.cols - 1);
      AgreeBefore(cfg, L, V, L1, V1, L2, V2, q);
      if q.0 < cfg.rows {
        AgreeAt(cfg, L, V, L1, V1, L2, V2, q);
      }
      forall r, c | 0 <= r < cfg.rows && 0 <= c < cfg.cols && Before(r, c, p)
        ensures L1[r][c] == L2[r][c] && V1[r][c] == V2[r][c]
      {
        assert Before(r, c, q) || (r == q.0 && c == q.1);
      }
    }
  }

  /** The Gauss-Seidel relation has only one solution: a sweep is a function of the maps it starts from. */
  lemma SweepDeterministic(cfg: Config, L: seq<seq<Label>>, V: seq<seq<real>>,
                           L1: seq<seq<Label>>, V1: seq<seq<real>>,
                           L2: seq<seq<Label>>, V2: seq<seq<real>>)
    requires IsSweepOf(cfg, L, V, L1, V1) && IsSweepOf(cfg, L, V, L2, V2)
    ensures L1 == L2 && V1 == V2
  {
    if cfg.rows > 0 && cfg.cols > 0 {
      AgreeBefore(cfg, L, V, L1, V1, L2, V2, (cfg.rows, 0));
    }
    GridExt(L1, L2, cfg.rows, cfg.cols);
    GridExt(V1, V2, cfg.rows, cfg.cols);
  }

  // ---------------------------------------------------------------------
  // Values only grow
  // ---------------------------------------------------------------------

  /** The outcome probabilities and the discount are non-negative. */
  predicate NonNegativeWeights(cfg: Config)
  {
    && cfg.probForward >= 0.0 && cfg.probBackward >= 0.0 && cfg.probLeft >= 0.0 && cfg.probRight >= 0.0
    && cfg.discount >= 0.0
  }

  /** Besides non-negative weights, no reward is negative and there is at least one move. */
  predicate NoPenalties(cfg: Config)
  {
    && NonNegativeWeights(cfg)
    && cfg.rewardStep >= 0.0 && cfg.rewardWall >= 0.0 && cfg.rewardGoal >= 0.0 && cfg.rewardPit >= 0.0
    && |cfg.moves| > 0
  }

  /** Every entry of the value map `a` is at most the matching entry of `b`. */
  predicate AtMost(cfg: Config, a: seq<seq<real>>, b: seq<seq<real>>)
  {
    && IsGrid(a, cfg.rows, cfg.cols) && IsGrid(b, cfg.rows, cfg.cols)
    && forall r, c :: 0 <= r < cfg.rows && 0 <= c < cfg.cols ==> a[r][c] <= b[r][c]
  }

  lemma WeightedMonotone(cfg: Config, prob: real, x: Landing, y: Landing)
    requires prob >= 0.0 && cfg.discount >= 0.0 && x.reward == y.reward && x.value <= y.value
    ensures Weighted(cfg, prob, x) <= Weighted(cfg, prob, y)
  {
    ScaleAtMost(cfg.discount, x.value, y.value);
    ScaleAtMost(prob, x.reward + cfg.discount * x.value, y.reward + cfg.discount * y.value);
  }

  lemma WeightedNonNegative(cfg: Config, prob: real, x: Landing)
    requires prob >= 0.0 && cfg.discount >= 0.0 && x.reward >= 0.0 && x.value >= 0.0
    ensures Weighted(cfg, prob, x) >= 0.0
  {
    ScaleAtMost(cfg.discount, 0.0, x.value);
    ScaleAtMost(prob, 0.0, x.reward + cfg.discount * x.value);
  }

  /**
   * A move's value grows with the value map it reads and with the cell's own
   * previous value; of the label map only the terminal labels matter.
   */
  lemma MoveValueMonotone(cfg: Config, a: seq<seq<Label>>, b: seq<seq<Label>>, va: seq<seq<real>>, vb: seq<seq<real>>,
                          ownA: real, ownB: real, p: Cell, m: Move)
    requires NonNegativeWeights(cfg) && SameTerminals(cfg, a, b) && AtMost(cfg, va, vb) && ownA <= ownB
    ensures MoveValue(cfg, a, va, ownA, p, m) <= MoveValue(cfg, b, vb, ownB, p, m)
  {
    forall o
      ensures LandOn(cfg, a, va, ownA, Target(p, m, o)).reward == LandOn(cfg, b, vb, ownB, Target(p, m, o)).reward
      ensures LandOn(cfg, a, va, ownA, Target(p, m, o)).value <= LandOn(cfg, b, vb, ownB, Target(p, m, o)).value
    {
    }
    WeightedMonotone(cfg, cfg.probForward, LandOn(cfg, a, va, ownA, Target(p, m, Forward)),
                     LandOn(cfg, b, vb, ownB, Target(p, m, Forward)));
    WeightedMonotone(cfg, cfg.probBackward, LandOn(cfg, a, va, ownA, Target(p, m, Backward)),
                     LandOn(cfg, b, vb, ownB, Target(p, m, Backward)));
    WeightedMonotone(cfg, cfg.probLeft, LandOn(cfg, a, va, ownA, Target(p, m, LeftTurn)),
                     LandOn(cfg, b, vb, ownB, Target(p, m, LeftTurn)));
    WeightedMonotone(cfg, cfg.probRight, LandOn(cfg, a, va, ownA, Target(p, m, RightTurn)),
                     LandOn(cfg, b, vb, ownB, Target(p, m, RightTurn)));
  }

  /** With no penalties, a move read off a non-negative value map is worth at least 0. */
  lemma MoveValueNonNegative(cfg: Config, labels: seq<seq<Label>>, values: seq<seq<real>>, own: real, p: Cell, m: Move)
    requires NoPenalties(cfg) && IsGrid(labels, cfg.rows, cfg.cols) && IsGrid(values, cfg.rows, cfg.cols)
    requires NonNegative(values) && own >= 0.0
    ensures MoveValue(cfg, labels, values, own, p, m) >= 0.0
  {
    forall o
      ensures LandOn(cfg, labels, values, own, Target(p, m, o)).reward >= 0.0
      ensures LandOn(cfg, labels, values, own, Target(p, m, o)).value >= 0.0
    {
    }
    WeightedNonNegative(cfg, cfg.probForward, LandOn(cfg, labels, values, own, Target(p, m, Forward)));
    WeightedNonNegative(cfg, cfg.probBackward, LandOn(cfg, labels, values, own, Target(p, m, Backward)));
    WeightedNonNegative(cfg, cfg.probLeft, LandOn(cfg, labels, values, own, Target(p, m, LeftTurn)));
    WeightedNonNegative(cfg, cfg.probRight, LandOn(cfg, labels, values, own, Target(p, m, RightTurn)));
  }

  /** The scan's value grows with the move values: it never falls below the sentinel, and it is the largest value otherwise. */
  lemma PickMonotone(moves: seq<Move>, s: seq<real>, t: seq<real>)
    requires |moves| == |s| == |t|
    requires forall j :: 0 <= j < |s| ==> s[j] <= t[j]
    ensures Pick(moves, s).value <= Pick(moves, t).value
  {
    PickIsFirstLargest(moves, s);
    PickIsFirstLargest(moves, t);
    var b, d := Pick(moves, s), Pick(moves, t);
    if b.policy == Unset {
      if d.policy != Unset {
        var j :| 0 <= j < |t| && t[j] > Sentinel;
      }
    } else {
      var k :| 0 <= k < |s| && b == Choice(DirectionOf(moves[k]), s[k])
        && forall j :: 0 <= j < k ==> s[j] < s[k];
    }
  }

  /**
   * Two sweeps, from value maps ordered entry by entry and label maps with the
   * same terminal cells, are ordered at `q` when they are ordered before it.
   */
  lemma MonotoneAt(cfg: Config, La: seq<seq<Label>>, Va: seq<seq<real>>, La': seq<seq<Label>>, Va': seq<seq<real>>,
                   Lb: seq<seq<Label>>, Vb: seq<seq<real>>, Lb': seq<seq<Label>>, Vb': seq<seq<real>>, q: Cell)
    requires NonNegativeWeights(cfg)
    requires IsSweepOf(cfg, La, Va, La', Va') && IsSweepOf(cfg, Lb, Vb, Lb', Vb')
    requires SameTerminals(cfg, La, Lb) && AtMost(cfg, Va, Vb) && InGrid(cfg, q)
    requires forall r, c :: 0 <= r < cfg.rows && 0 <= c < cfg.cols && Before(r, c, q) ==> Va'[r][c] <= Vb'[r][c]
    ensures Va'[q.0][q.1] <= Vb'[q.0][q.1]
  {
    assert Decided(cfg, La, Va, La', Va', q.0, q.1);
    assert Decided(cfg, Lb, Vb, Lb', Vb', q.0, q.1);
    if !IsTerminal(La[q.0][q.1]) {
      var sa, sb := Seen(Va, Va', q), Seen(Vb, Vb', q);
      assert AtMost(cfg, sa, sb);
      var ma := MoveValues(cfg, La, sa, Va[q.0][q.1], q);
      var mb := MoveValues(cfg, Lb, sb, Vb[q.0][q.1], q);
      forall k | 0 <= k < |cfg.moves|
        ensures ma[k] <= mb[k]
      {
        MoveValueMonotone(cfg, La, Lb, sa, sb, Va[q.0][q.1], Vb[q.0][q.1], q, cfg.moves[k]);
      }
      PickMonotone(cfg.moves, ma, mb);
    }
  }

  lemma {:induction false} MonotoneBefore(cfg: Config, La: seq<seq<Label>>, Va: seq<seq<real>>,
                                          La': seq<seq<Label>>, Va': seq<seq<real>>,
                                          Lb: seq<seq<Label>>, Vb: seq<seq<real>>,
                                          Lb': seq<seq<Label>>, Vb': seq<seq<real>>, p: Cell)
    requires NonNegativeWeights(cfg)
    requires IsSweepOf(cfg, La, Va, La', Va') && IsSweepOf(cfg, Lb, Vb, Lb', Vb')
    requires SameTerminals(cfg, La, Lb) && AtMost(cfg, Va, Vb)
    requires cfg.cols > 0
    requires 0 <= p.0 <= cfg.rows && 0 <= p.1 < cfg.cols
    ensures forall r, c :: 0 <= r < cfg.rows && 0 <= c < cfg.cols && Before(r, c, p) ==> Va'[r][c] <= Vb'[r][c]
    decreases p.0, p.1
  {
    if p.0 != 0 || p.1 != 0 {
      var q := if p.1 > 0 then (p.0, p.1 - 1) else (p.0 - 1, cfg.cols - 1);
      MonotoneBefore(cfg, La, Va, La', Va', Lb, Vb, Lb', Vb', q);
      if q.0 < cfg.rows {
        MonotoneAt(cfg, La, Va, La', Va', Lb, Vb, Lb', Vb', q);
      }
      forall r, c | 0 <= r < cfg.rows && 0 <= c < cfg.cols && Before(r, c, p)
        ensures Va'[r][c] <= Vb'[r][c]
      {
        assert Before(r, c, q) || (r == q.0 && c == q.1);
      }
    }
  }

  /**
   * A sweep is monotone: from a value map that is entry by entry at most
   * another, with the same terminal cells, it yields a value map that is at
   * most the other's sweep.
   */
  lemma SweepMonotone(cfg: Config, a: Maps, b: Maps)
    requires NonNegativeWeights(cfg) && Shaped(cfg, a) && Shaped(cfg, b)
    requires SameTerminals(cfg, a.labels, b.labels) && AtMost(cfg, a.values, b.values)
    ensures AtMost(cfg, SweepOf(cfg, a).values, SweepOf(cfg, b).values)
  {
    var a', b' := SweepOf(cfg, a), SweepOf(cfg, b);
    if cfg.rows > 0 && cfg.cols > 0 {
      MonotoneBefore(cfg, a.labels, a.values, a'.labels, a'.values, b.labels, b.values, b'.labels, b'.values, (cfg.rows, 0));
      assert forall r, c :: 0 <= r < cfg.rows && 0 <= c < cfg.cols ==> Before(r, c, (cfg.rows, 0));
    }
  }

  /** A sweep from a non-negative value map, with no penalties, gives cell `q` a non-negative value when it did so before `q`. */
  lemma NonNegativeAt(cfg: Config, L: seq<seq<Label>>, V: seq<seq<real>>, L': seq<seq<Label>>, V': seq<seq<real>>, q: Cell)
    requires NoPenalties(cfg) && IsSweepOf(cfg, L, V, L', V') && NonNegative(V) && InGrid(cfg, q)
    requires forall r, c :: 0 <= r < cfg.rows && 0 <= c < cfg.cols && Before(r, c, q) ==> V'[r][c] >= 0.0
    ensures V'[q.0][q.1] >= 0.0
  {
    assert Decided(cfg, L, V, L', V', q.0, q.1);
    if !IsTerminal(L[q.0][q.1]) {
      var s := Seen(V, V', q);
      assert NonNegative(s);
      var ms := MoveValues(cfg, L, s, V[q.0][q.1], q);
      MoveValueNonNegative(cfg, L, s, V[q.0][q.1], q, cfg.moves[0]);
      PickIsFirstLargest(cfg.moves, ms);
    }
  }

  lemma {:induction false} NonNegativeBefore(cfg: Config, L: seq<seq<Label>>, V: seq<seq<real>>,
                                             L': seq<seq<Label>>, V': seq<seq<real>>, p: Cell)
    requires NoPenalties(cfg) && IsSweepOf(cfg, L, V, L', V') && NonNegative(V)
    requires cfg.cols > 0
    requires 0 <= p.0 <= cfg.rows && 0 <= p.1 < cfg.cols
    ensures forall r, c :: 0 <= r < cfg.rows && 0 <= c < cfg.cols && Before(r, c, p) ==> V'[r][c] >= 0.0
    decreases p.0, p.1
  {
    if p.0 != 0 || p.1 != 0 {
      var q := if p.1 > 0 then (p.0, p.1 - 1) else (p.0 - 1, cfg.cols - 1);
      NonNegativeBefore(cfg, L, V, L', V', q);
      if q.0 < cfg.rows {
        NonNegativeAt(cfg, L, V, L', V', q);
      }
      forall r, c | 0 <= r < cfg.rows && 0 <= c < cfg.cols && Before(r, c, p)
        ensures V'[r][c] >= 0.0
      {
        assert Before(r, c, q) || (r == q.0 && c == q.1);
      }
    }
  }

  /** With no penalties, a sweep from a non-negative value map writes no negative value. */
  lemma SweepNonNegative(cfg: Config, m: Maps)
    requires NoPenalties(cfg) && Shaped(cfg, m) && NonNegative(m.values)
    ensures NonNegative(SweepOf(cfg, m).values)
  {
    var m' := SweepOf(cfg, m);
    if cfg.rows > 0 && cfg.cols > 0 {
      NonNegativeBefore(cfg, m.labels, m.values, m'.labels, m'.values, (cfg.rows, 0));
      assert forall r, c :: 0 <= r < cfg.rows && 0 <= c < cfg.cols ==> Before(r, c, (cfg.rows, 0));
    }
  }
}
