/**
 * The robot node (scripts/robot.py) without its ROS plumbing: the belief it
 * keeps about its cell, the planner's policy it follows, and the decision
 * cycle run on every temperature message.
 */
module RobotNode {
  import opened Grids
  import opened Mdp
  import opened MdpSolver
  import opened Belief

  /** The robot's part of the configuration, beside the planner's. */
  datatype RobotConfig = RobotConfig(
    planner: PlannerConfig,            // map_size, walls, pits, goal, possible_moves, ...
    pipeMap: seq<seq<string>>,         // pipe_map
    textureMap: seq<seq<string>>,      // texture_map
    probTexCorrect: real,              // prob_tex_correct
    probMoveCorrect: real,             // prob_move_correct
    threshold: real)                   // threshold

  /**
   * The configurations the node starts on: both maps cover the planner's
   * `map_size` grid, and not every cell is a listed wall (the initial belief
   * divides by their difference).
   */
  predicate ValidRobotConfig(rc: RobotConfig)
  {
    && IsGrid(rc.pipeMap, rc.planner.rows, rc.planner.cols)
    && IsGrid(rc.textureMap, rc.planner.rows, rc.planner.cols)
    && rc.planner.rows * rc.planner.cols != |rc.planner.walls|
  }

  // ---------------------------------------------------------------------
  // move_instruction
  // ---------------------------------------------------------------------

  /** The move_instruction table; PIT and an unlabelled cell have no entry (a KeyError). */
  function Instruction(l: Label): (o: Option<Move>)
    ensures o.None? <==> l == Pit || l == Unset
    ensures IsDirection(l) ==> o.Some? && Abs(o.value.dr) + Abs(o.value.dc) == 1
    ensures l == Wall <==> o == Some(Move(2, 2))
    ensures l == Goal <==> o == Some(Move(0, 0))
  {
    match l
    case N => Some(Move(-1, 0))
    case W => Some(Move(0, -1))
    case S => Some(Move(1, 0))
    case E => Some(Move(0, 1))
    case Wall => Some(Move(2, 2))
    case Goal => Some(Move(0, 0))
    case Pit => None
    case Unset => None
  }

  /**
   * The robot reads the planner's labels back as the moves that produced
   * them: a direction label gives the unit move the planner labelled with it,
   * and each of the four unit moves comes back as itself.
   */
  lemma InstructionInvertsDirection(l: Label, m: Move)
    ensures IsDirection(l) ==> Instruction(l).Some? && DirectionOf(Instruction(l).value) == l
    ensures m in [Move(-1, 0), Move(0, -1), Move(1, 0), Move(0, 1)] ==> Instruction(DirectionOf(m)) == Some(m)
  {
  }

  // ---------------------------------------------------------------------
  // The initial belief
  // ---------------------------------------------------------------------

  /** 1 / (rows * cols - number of listed walls), read off the pipe map. */
  function InitialMass(rc: RobotConfig): real
    requires ValidRobotConfig(rc)
  {
    1.0 / ((|rc.pipeMap| * |rc.pipeMap[0]|) as real - |rc.planner.walls| as real)
  }

  /**
   * The initial belief gives every cell, walls included, the same mass, so
   * it sums to rows * cols / (rows * cols - walls): exactly 1 without walls,
   * more than 1 with them.
   */
  lemma InitialBeliefTotal(rc: RobotConfig)
    requires ValidRobotConfig(rc)
    ensures var n := (rc.planner.rows * rc.planner.cols) as real;
      var w := |rc.planner.walls| as real;
      var t := Total(Fill(rc.planner.rows, rc.planner.cols, InitialMass(rc)));
      && t * (n - w) == n
      && (w == 0.0 ==> t == 1.0)
      && (0.0 < w < n ==> t > 1.0)
  {
    var rows, cols := rc.planner.rows, rc.planner.cols;
    var v := InitialMass(rc);
    TotalConstant(Fill(rows, cols, v), rows, cols, v);
    CastProduct(rows, cols);
    EvenMass((rows * cols) as real, |rc.planner.walls| as real, v, Total(Fill(rows, cols, v)));
  }

  lemma CastProduct(a: int, b: int)
    ensures (a as real) * (b as real) == (a * b) as real
  {
  }

  /** `n` cells of mass 1 / (`n` - `w`) each hold `t` in total. */
  lemma EvenMass(n: real, w: real, v: real, t: real)
    requires n != w && v == 1.0 / (n - w) && t == n * v
    ensures t * (n - w) == n
    ensures w == 0.0 ==> t == 1.0
    ensures 0.0 < w < n ==> t > 1.0
  {
    var d := n - w;
    assert t == n / d;
    assert t * d == n;
    if 0.0 < w < n {
      assert 0.0 < d < n;
      assert n / d > d / d;
    }
  }

  // ---------------------------------------------------------------------
  // One temperature message
  // ---------------------------------------------------------------------

  /** What the handler did with the message. */
  datatype Handled = ReachedGoal | StuckInWall | Moved(move: Move)

  /** The two measurement updates of a cycle run without an error. */
  predicate CanSense(rc: RobotConfig, belief: seq<seq<real>>, temperature: real, reading: string,
                     pdf: (real, real) -> real)
  {
    && Congruent(rc.pipeMap, belief)
    && Congruent(rc.textureMap, belief)
    && CanNormalize(TempWeighted(belief, rc.pipeMap, temperature, pdf))
    && CanNormalize(TextureWeighted(TempPosterior(belief, rc.pipeMap, temperature, pdf),
                                    rc.textureMap, reading, rc.probTexCorrect))
  }

  /** The belief after the temperature update and then the texture update. */
  function Sensed(rc: RobotConfig, belief: seq<seq<real>>, temperature: real, reading: string,
                  pdf: (real, real) -> real): (g: seq<seq<real>>)
    requires CanSense(rc, belief, temperature, reading, pdf)
    ensures SameRows(belief, g)
  {
    TexturePosterior(TempPosterior(belief, rc.pipeMap, temperature, pdf), rc.textureMap, reading, rc.probTexCorrect)
  }

  /** The most likely cell is the goal, with at least `threshold` mass: the run is over. */
  predicate AtGoal(rc: RobotConfig, e: Estimate)
  {
    e.cell == rc.planner.goal && e.prob >= rc.threshold
  }

  /** The cell the move aims at from the most likely cell: the one whose mass is boosted. */
  function Aim(p: Cell, m: Move): Cell
  {
    (p.0 + m.dr, p.1 + m.dc)
  }

  /** The motion update followed by the 1.3 boost of cell `t`. */
  function Boosted(moved: seq<seq<real>>, t: Cell): (g: seq<seq<real>>)
    requires InMatrix(moved, t.0, t.1)
    ensures SameRows(moved, g)
  {
    Set(moved, t, moved[t.0][t.1] * 1.3)
  }

  /** The policy has an entry for cell `p`. */
  predicate Covers(policy: seq<seq<Label>>, p: Cell)
  {
    0 <= p.0 < |policy| && 0 <= p.1 < |policy[p.0]|
  }

  /** The move the robot takes from cell `p`: the instruction for the policy's label there, if it has one. */
  function NextMove(policy: seq<seq<Label>>, p: Cell): Option<Move>
    requires Covers(policy, p)
  {
    Instruction(policy[p.0][p.1])
  }

  /** The move's cycle runs without an error: the boosted cell lies on the grid (a negative index would wrap around) and the boosted belief can be normalised. */
  predicate CanMove(rc: RobotConfig, sensed: seq<seq<real>>, p: Cell, m: Move)
  {
    && Rectangular(sensed)
    && var moved := MotionPosterior(sensed, m.dr, m.dc, rc.probMoveCorrect);
       InMatrix(moved, Aim(p, m).0, Aim(p, m).1) && CanNormalize(Boosted(moved, Aim(p, m)))
  }

  /**
   * The decision runs without an error: the policy covers the most likely
   * cell, its label has a move instruction, and unless that is the WALL
   * instruction the move can be carried out.
   */
  predicate CanDecide(rc: RobotConfig, policy: seq<seq<Label>>, sensed: seq<seq<real>>)
  {
    && Rectangular(sensed)
    && var e := MostLikely(sensed);
       AtGoal(rc, e) ||
       (&& Covers(policy, e.cell) && NextMove(policy, e.cell).Some?
        && (NextMove(policy, e.cell).value == Move(2, 2) || CanMove(rc, sensed, e.cell, NextMove(policy, e.cell).value)))
  }

  /** What a cycle ends with: how it ended, the belief and the position. */
  datatype Step = Step(handled: Handled, belief: seq<seq<real>>, position: Cell)

  /**
   * The decision after sensing: stop at the goal; do nothing on the WALL
   * instruction; otherwise move, boost the aimed-at cell, renormalise and
   * take the most likely cell as the position.
   */
  function Decide(rc: RobotConfig, policy: seq<seq<Label>>, sensed: seq<seq<real>>, position: Cell): (s: Step)
    requires CanDecide(rc, policy, sensed)
    ensures s.handled == ReachedGoal <==> AtGoal(rc, MostLikely(sensed))
    ensures s.handled == StuckInWall <==>
      !AtGoal(rc, MostLikely(sensed)) && NextMove(policy, MostLikely(sensed).cell) == Some(Move(2, 2))
    ensures s.handled.Moved? ==>
      && !AtGoal(rc, MostLikely(sensed))
      && NextMove(policy, MostLikely(sensed).cell) == Some(s.handled.move)
      && s.position == MostLikely(sensed).cell
    ensures !s.handled.Moved? ==> s.belief == sensed && s.position == position
    ensures SameRows(sensed, s.belief)
  {
    var e := MostLikely(sensed);
    if AtGoal(rc, e) then Step(ReachedGoal, sensed, position)
    else
      var m := NextMove(policy, e.cell).value;
      if m == Move(2, 2) then Step(StuckInWall, sensed, position)
      else
        var moved := MotionPosterior(sensed, m.dr, m.dc, rc.probMoveCorrect);
        Step(Moved(m), Normalized(Boosted(moved, Aim(e.cell, m))), e.cell)
  }

  /** A whole handle_temperature_message cycle. */
  predicate CanCycle(rc: RobotConfig, policy: seq<seq<Label>>, belief: seq<seq<real>>, temperature: real,
                     reading: string, pdf: (real, real) -> real)
  {
    && CanSense(rc, belief, temperature, reading, pdf)
    && CanDecide(rc, policy, Sensed(rc, belief, temperature, reading, pdf))
  }

  function Cycle(rc: RobotConfig, policy: seq<seq<Label>>, belief: seq<seq<real>>, position: Cell,
                 temperature: real, reading: string, pdf: (real, real) -> real): (s: Step)
    requires CanCycle(rc, policy, belief, temperature, reading, pdf)
    ensures SameRows(belief, s.belief)
    ensures !s.handled.Moved? ==> s.position == position
    ensures s.handled == ReachedGoal <==> AtGoal(rc, MostLikely(Sensed(rc, belief, temperature, reading, pdf)))
  {
    Decide(rc, policy, Sensed(rc, belief, temperature, reading, pdf), position)
  }

  /** The most likely cell of a belief with an entry is one of its cells. */
  lemma MostLikelyInMatrix(g: seq<seq<real>>)
    requires Rectangular(g) && HasEntries(g)
    ensures InMatrix(g, MostLikely(g).cell.0, MostLikely(g).cell.1)
  {
    MostLikelyIsFirstLargest(g);
  }

  /**
   * With the planner's policy, the cycle reports being stuck exactly when the
   * most likely cell, short of the goal test, is a cell the configuration
   * lists as a wall (and not as a pit or the goal): no other cell is ever
   * labelled WALL.
   */
  lemma StuckExactlyOnWalls(rc: RobotConfig, sweeps: nat, belief: seq<seq<real>>, position: Cell,
                            temperature: real, reading: string, pdf: (real, real) -> real)
    requires CanCycle(rc, Iterated(rc.planner, sweeps).labels, belief, temperature, reading, pdf)
    ensures var policy := Iterated(rc.planner, sweeps).labels;
      var e := MostLikely(Sensed(rc, belief, temperature, reading, pdf));
      var stuck := Cycle(rc, policy, belief, position, temperature, reading, pdf).handled == StuckInWall;
      stuck <==> !AtGoal(rc, e) && InitialLabel(rc.planner, e.cell.0, e.cell.1) == Wall
  {
    var policy := Iterated(rc.planner, sweeps).labels;
    var e := MostLikely(Sensed(rc, belief, temperature, reading, pdf));
    if !AtGoal(rc, e) {
      IteratedLabels(rc.planner, sweeps);
      assert InGrid(rc.planner, e.cell);
      assert Instruction(policy[e.cell.0][e.cell.1]) == Some(Move(2, 2)) <==> policy[e.cell.0][e.cell.1] == Wall;
    }
  }

  /** Every cycle ends with a belief that sums to 1, whichever way it ends. */
  lemma CycleSumsToOne(rc: RobotConfig, policy: seq<seq<Label>>, belief: seq<seq<real>>, position: Cell,
                       temperature: real, reading: string, pdf: (real, real) -> real)
    requires CanCycle(rc, policy, belief, temperature, reading, pdf) && HasEntries(belief)
    ensures Total(Cycle(rc, policy, belief, position, temperature, reading, pdf).belief) == 1.0
  {
    var afterTemp := TempPosterior(belief, rc.pipeMap, temperature, pdf);
    var sensed := Sensed(rc, belief, temperature, reading, pdf);
    NormalizedSumsToOne(TextureWeighted(afterTemp, rc.textureMap, reading, rc.probTexCorrect));
    var e := MostLikely(sensed);
    if !AtGoal(rc, e) {
      var m := NextMove(policy, e.cell).value;
      if m != Move(2, 2) {
        var moved := MotionPosterior(sensed, m.dr, m.dc, rc.probMoveCorrect);
        NormalizedSumsToOne(Boosted(moved, Aim(e.cell, m)));
      }
    }
  }

  /**
   * With a non-negative belief, a non-negative sensor density and both
   * probabilities in [0, 1], every cycle ends with a distribution: entries in
   * [0, 1] summing to 1.
   */
  lemma CycleKeepsDistribution(rc: RobotConfig, policy: seq<seq<Label>>, belief: seq<seq<real>>, position: Cell,
                               temperature: real, reading: string, pdf: (real, real) -> real)
    requires CanCycle(rc, policy, belief, temperature, reading, pdf)
    requires HasEntries(belief) && NonNegative(belief) && DensityNonNegative(pdf, temperature)
    requires 0.0 <= rc.probTexCorrect <= 1.0 && 0.0 <= rc.probMoveCorrect <= 1.0
    ensures IsDistribution(Cycle(rc, policy, belief, position, temperature, reading, pdf).belief)
  {
    var afterTemp := TempPosterior(belief, rc.pipeMap, temperature, pdf);
    TempPosteriorIsDistribution(belief, rc.pipeMap, temperature, pdf);
    TexturePosteriorIsDistribution(afterTemp, rc.textureMap, reading, rc.probTexCorrect);
    var sensed := Sensed(rc, belief, temperature, reading, pdf);
    var e := MostLikely(sensed);
    if !AtGoal(rc, e) {
      var m := NextMove(policy, e.cell).value;
      if m != Move(2, 2) {
        MotionLosesMass(sensed, m.dr, m.dc, rc.probMoveCorrect);
        var moved := MotionPosterior(sensed, m.dr, m.dc, rc.probMoveCorrect);
        BoostedNonNegative(moved, Aim(e.cell, m));
        NormalizedIsDistribution(Boosted(moved, Aim(e.cell, m)));
      }
    }
  }

  lemma BoostedNonNegative(moved: seq<seq<real>>, t: Cell)
    requires InMatrix(moved, t.0, t.1) && NonNegative(moved)
    ensures NonNegative(Boosted(moved, t))
  {
  }

  /**
   * Where the policy says GOAL, its instruction [0, 0] leaves the motion
   * update idle: below the threshold the cycle only boosts the most likely
   * cell and renormalises, and that cell becomes the position.
   */
  lemma CycleAtGoalCell(rc: RobotConfig, policy: seq<seq<Label>>, belief: seq<seq<real>>, position: Cell,
                        temperature: real, reading: string, pdf: (real, real) -> real)
    requires CanCycle(rc, policy, belief, temperature, reading, pdf)
    requires var sensed := Sensed(rc, belief, temperature, reading, pdf);
      var e := MostLikely(sensed);
      && !AtGoal(rc, e) && NextMove(policy, e.cell) == Some(Move(0, 0))
      && InMatrix(sensed, e.cell.0, e.cell.1) && CanNormalize(Boosted(sensed, e.cell))
    ensures var sensed := Sensed(rc, belief, temperature, reading, pdf);
      var e := MostLikely(sensed);
      Cycle(rc, policy, belief, position, temperature, reading, pdf)
        == Step(Moved(Move(0, 0)), Normalized(Boosted(sensed, e.cell)), e.cell)
  {
    var sensed := Sensed(rc, belief, temperature, reading, pdf);
    MotionStay(sensed, rc.probMoveCorrect);
  }

  // ---------------------------------------------------------------------
  // The node
  // ---------------------------------------------------------------------

  /** The robot node's state: its configuration, last readings, position, belief and policy. */
  class Robot {
    const config: RobotConfig
    const goal: Cell
    const threshold: real
    var temperature: real
    var texture: string
    var position: Cell
    var priorBelief: seq<seq<real>>
    const policy: seq<seq<Label>>
    ghost const sweeps: nat      // how many sweeps the planner ran

    /** The belief and the policy cover the map; the policy is the planner's. */
    ghost predicate Valid()
      reads this
    {
      && ValidRobotConfig(config)
      && goal == config.planner.goal && threshold == config.threshold
      && IsGrid(priorBelief, config.planner.rows, config.planner.cols)
      && StopsAfter(config.planner, sweeps)
      && policy == Iterated(config.planner, sweeps).labels
    }

    /**
     * __init__: zero readings, position (0, 0), the same initial mass in
     * every cell (the wall loop only rebinds a local, so walls keep it too)
     * and the planner's policy.
     */
    constructor (rc: RobotConfig)
      requires ValidRobotConfig(rc)
      ensures Valid() && config == rc
      ensures temperature == 0.0 && texture == "" && position == (0, 0)
      ensures priorBelief == Fill(rc.planner.rows, rc.planner.cols, InitialMass(rc))
    {
      config := rc;
      goal := rc.planner.goal;
      threshold := rc.threshold;
      temperature := 0.0;
      texture := "";
      position := (0, 0);
      var pipeMap := rc.pipeMap;
      var initialBelief := 1.0 / ((|pipeMap| * |pipeMap[0]|) as real - |rc.planner.walls| as real);
      var belief := seq(|pipeMap|, y requires 0 <= y < |pipeMap| => Repeat(|pipeMap[y]|, initialBelief));
      for x := 0 to |belief| {
        for y := 0 to |belief[x]| {
          var col := belief[x][y];
          if Listed(rc.planner.walls, x, y) {
            col := 0.0;
          }
        }
      }
      priorBelief := belief;
      var p, n := Solve(rc.planner);
      policy := p;
      sweeps := n;
      GridExt(belief, Fill(rc.planner.rows, rc.planner.cols, initialBelief), rc.planner.rows, rc.planner.cols);
    }

    /**
     * normalize: the total of all entries, then every entry divided by it
     * in place, row by row, into a new matrix.
     */
    static method Normalize(matrix: seq<seq<real>>) returns (toReturn: seq<seq<real>>)
      requires CanNormalize(matrix)
      ensures toReturn == Normalized(matrix)
    {
      var k := 0.0;
      for i := 0 to |matrix|
        invariant k == TotalFirst(matrix, i)
      {
        for j := 0 to |matrix[i]|
          invariant k == TotalFirst(matrix, i) + SumFirst(matrix[i], j)
        {
          k := k + matrix[i][j];
        }
      }
      var m := matrix;
      toReturn := [];
      var i := 0;
      while i < |m|
        invariant 0 <= i <= |m| && SameRows(matrix, m)
        invariant forall r, c :: i <= r < |m| && 0 <= c < |m[r]| ==> m[r][c] == matrix[r][c]
        invariant toReturn == Normalized(matrix)[..i]
      {
        var toAdd;
        m, toAdd := DivideInPlace(m, i, k);
        assert toAdd == Normalized(matrix)[i];
        toReturn := toReturn + [toAdd];
        i := i + 1;
      }
    }

    /** One pass of normalize's inner loop: row `i` divided by `k` entry by entry, in place and into a new row. */
    static method DivideInPlace(m: seq<seq<real>>, i: int, k: real) returns (m': seq<seq<real>>, toAdd: seq<real>)
      requires Rectangular(m) && 0 <= i < |m| && (|m[0]| > 0 ==> k != 0.0)
      ensures SameRows(m, m')
      ensures forall r, c :: 0 <= r < |m| && r != i && 0 <= c < |m[r]| ==> m'[r][c] == m[r][c]
      ensures |toAdd| == |m[i]| && forall c :: 0 <= c < |m[i]| ==> toAdd[c] == m[i][c] / k
    {
      m' := m;
      toAdd := [];
      var j := 0;
      while j < |m'[0]|
        invariant 0 <= j <= |m[0]| && SameRows(m, m')
        invariant forall r, c :: 0 <= r < |m| && 0 <= c < |m[r]| ==>
          m'[r][c] == if r == i && c < j then m[r][c] / k else m[r][c]
        invariant |toAdd| == j && forall c :: 0 <= c < j ==> toAdd[c] == m[i][c] / k
      {
        m' := Set(m', (i, j), m'[i][j] / k);
        toAdd := toAdd + [m'[i][j]];
        j := j + 1;
      }
    }

    /** update_belief_temp: likelihood times prior over the pipe map, normalised. */
    method UpdateBeliefTemp(pdf: (real, real) -> real)
      requires Congruent(config.pipeMap, priorBelief)
      requires CanNormalize(TempWeighted(priorBelief, config.pipeMap, temperature, pdf))
      modifies this`priorBelief
      ensures priorBelief == TempPosterior(old(priorBelief), config.pipeMap, temperature, pdf)
    {
      var prior := priorBelief;
      var tempMap := config.pipeMap;
      var updatedBelief := [];
      ghost var w := TempWeighted(prior, tempMap, temperature, pdf);
      for i := 0 to |tempMap|
        invariant |updatedBelief| == i && forall k :: 0 <= k < i ==> updatedBelief[k] == w[k]
      {
        var toAppend := TempRowLoop(prior[i], tempMap[i], temperature, pdf);
        updatedBelief := updatedBelief + [toAppend];
      }
      assert updatedBelief == w;
      updatedBelief := Normalize(updatedBelief);
      priorBelief := updatedBelief;
    }

    /** One row of update_belief_temp: the likelihood of the reading over the cell's terrain, times the prior. */
    static method TempRowLoop(prior: seq<real>, row: seq<string>, temperature: real, pdf: (real, real) -> real)
      returns (toAppend: seq<real>)
      requires |row| == |prior|
      ensures toAppend == TempRow(prior, row, temperature, pdf)
    {
      toAppend := [];
      for j := 0 to |row|
        invariant |toAppend| == j
        invariant forall k :: 0 <= k < j ==> toAppend[k] == TempLikelihood(pdf, row[k], temperature) * prior[k]
      {
        var pLikelihood := 0.0;
        var pPrior := prior[j];
        if row[j] == "H" {
          pLikelihood := pdf(temperature, 40.0);
        } else if row[j] == "-" {
          pLikelihood := pdf(temperature, 25.0);
        } else if row[j] == "C" {
          pLikelihood := pdf(temperature, 20.0);
        }
        assert pLikelihood == TempLikelihood(pdf, row[j], temperature);
        toAppend := toAppend + [pLikelihood * pPrior];
      }
      assert toAppend == TempRow(prior, row, temperature, pdf);
    }

    /** update_belief_texture: `p_correct` or 1 - `p_correct` times prior over the texture map, normalised. */
    method UpdateBeliefTexture()
      requires Congruent(config.textureMap, priorBelief)
      requires CanNormalize(TextureWeighted(priorBelief, config.textureMap, texture, config.probTexCorrect))
      modifies this`priorBelief
      ensures priorBelief == TexturePosterior(old(priorBelief), config.textureMap, texture, config.probTexCorrect)
    {
      var prior := priorBelief;
      var textureMap := config.textureMap;
      var pCorrect := config.probTexCorrect;
      var updatedBelief := [];
      ghost var w := TextureWeighted(prior, textureMap, texture, pCorrect);
      for i := 0 to |textureMap|
        invariant |updatedBelief| == i && forall k :: 0 <= k < i ==> updatedBelief[k] == w[k]
      {
        var toAppend := TextureRowLoop(prior[i], textureMap[i], texture, pCorrect);
        updatedBelief := updatedBelief + [toAppend];
      }
      assert updatedBelief == w;
      updatedBelief := Normalize(updatedBelief);
      priorBelief := updatedBelief;
    }

    /** One row of update_belief_texture: `p_correct` on a match, 1 - `p_correct` otherwise, times the prior. */
    static method TextureRowLoop(prior: seq<real>, row: seq<string>, reading: string, pCorrect: real)
      returns (toAppend: seq<real>)
      requires |row| == |prior|
      ensures toAppend == TextureRow(prior, row, reading, pCorrect)
    {
      var pIncorrect := 1.0 - pCorrect;
      toAppend := [];
      for j := 0 to |row|
        invariant |toAppend| == j
        invariant forall k :: 0 <= k < j ==> toAppend[k] == TextureLikelihood(reading, row[k], pCorrect) * prior[k]
      {
        var pLikelihood := 0.0;
        var pPrior := prior[j];
        if reading == row[j] {
          pLikelihood := pCorrect;
        } else {
          pLikelihood := pIncorrect;
        }
        toAppend := toAppend + [pLikelihood * pPrior];
      }
      assert toAppend == TextureRow(prior, row, reading, pCorrect);
    }

    /**
     * update_belief_movement: a zero matrix of the belief's shape, into
     * which every cell accumulates the mass that stays and the mass that
     * arrives; stored without normalising.
     */
    method UpdateBeliefMovement(move: Move)
      requires Rectangular(priorBelief)
      modifies this`priorBelief
      ensures priorBelief == MotionPosterior(old(priorBelief), move.dr, move.dc, config.probMoveCorrect)
    {
      var prior := priorBelief;
      var p := config.probMoveCorrect;
      var belief := ZeroLike(prior);
      ghost var g := MotionPosterior(prior, move.dr, move.dc, p);
      for y := 0 to |prior|
        invariant SameRows(prior, belief)
        invariant forall r, c :: InMatrix(prior, r, c) ==> belief[r][c] == if r < y then g[r][c] else 0.0
      {
        for x := 0 to |prior[y]|
          invariant SameRows(prior, belief)
          invariant forall r, c :: InMatrix(prior, r, c) ==>
            belief[r][c] == if Before(r, c, (y, x)) then g[r][c] else 0.0
        {
          belief := Accumulate(prior, belief, y, x, move, p);
        }
      }
      SameRowsExt(belief, g);
      priorBelief := belief;
    }

    /** The zero-filled copy of the belief's shape, built row by row. */
    static method ZeroLike(prior: seq<seq<real>>) returns (belief: seq<seq<real>>)
      ensures SameRows(prior, belief)
      ensures forall r, c :: InMatrix(prior, r, c) ==> belief[r][c] == 0.0
    {
      belief := [];
      for r := 0 to |prior|
        invariant |belief| == r
        invariant forall k :: 0 <= k < r ==> belief[k] == Repeat(|prior[k]|, 0.0)
      {
        var toAppend := [];
        for c := 0 to |prior[r]|
          invariant toAppend == Repeat(c, 0.0)
        {
          toAppend := toAppend + [0.0];
        }
        belief := belief + [toAppend];
      }
    }

    /** The two additions into cell (`y`, `x`): the mass that stays, then the mass that arrives. */
    static method Accumulate(prior: seq<seq<real>>, belief: seq<seq<real>>, y: int, x: int, move: Move, p: real)
      returns (belief': seq<seq<real>>)
      requires Rectangular(prior) && SameRows(prior, belief) && InMatrix(prior, y, x)
      ensures SameRows(prior, belief')
      ensures belief'[y][x] == belief[y][x] + MotionPosterior(prior, move.dr, move.dc, p)[y][x]
      ensures forall r, c :: InMatrix(prior, r, c) && (r != y || c != x) ==> belief'[r][c] == belief[r][c]
    {
      ghost var arrived := Arrived(prior, y, x, move.dr, move.dc);
      assert MotionPosterior(prior, move.dr, move.dc, p)[y][x] == prior[y][x] * (1.0 - p) + arrived * p;
      var prob := prior[y][x];
      prob := prob * (1.0 - p);
      belief' := Set(belief, (y, x), belief[y][x] + prob);
      var dy, dx := move.dr, move.dc;
      if 0 <= y - dy < |prior| && 0 <= x - dx < |prior[0]| {
        prob := prior[y - dy][x - dx];
        assert arrived == prob;
        prob := prob * p;
        belief' := Set(belief', (y, x), belief'[y][x] + prob);
      } else {
        assert arrived == 0.0;
      }
    }

    /** check_most_likely_position: the row-major scan for a strictly larger mass, from (0, 0) and 0. */
    method CheckMostLikelyPosition() returns (mlp: Cell, maxx: real)
      ensures Estimate(mlp, maxx) == MostLikely(priorBelief)
    {
      var belief := priorBelief;
      maxx := 0.0;
      var x, y := 0, 0;
      for i := 0 to |belief|
        invariant MostLikely(belief) == ScanFrom(belief, (i, 0), Estimate((x, y), maxx))
      {
        for j := 0 to |belief[i]|
          invariant MostLikely(belief) == ScanFrom(belief, (i, j), Estimate((x, y), maxx))
        {
          if belief[i][j] > maxx {
            maxx := belief[i][j];
            x := i;
            y := j;
          }
        }
      }
      mlp := (x, y);
    }

    /**
     * handle_temperature_message, with the texture service's answer and the
     * sensor density as inputs and the move request left out: sense, then
     * stop at the goal, stay put on WALL, or move, boost and renormalise.
     */
    method HandleTemperatureMessage(reading: real, textureReading: string, pdf: (real, real) -> real)
      returns (handled: Handled)
      requires Valid()
      requires CanCycle(config, policy, priorBelief, reading, textureReading, pdf)
      modifies this`temperature, this`texture, this`priorBelief, this`position
      ensures Valid()
      ensures temperature == reading && texture == textureReading
      ensures Step(handled, priorBelief, position)
           == Cycle(config, policy, old(priorBelief), old(position), reading, textureReading, pdf)
    {
      temperature := reading;
      UpdateBeliefTemp(pdf);
      texture := textureReading;
      UpdateBeliefTexture();
      handled := Act();
    }

    /** The second half of handle_temperature_message: the goal check, the policy lookup and the move. */
    method Act() returns (handled: Handled)
      requires Valid() && CanDecide(config, policy, priorBelief)
      modifies this`priorBelief, this`position
      ensures Valid()
      ensures Step(handled, priorBelief, position) == Decide(config, policy, old(priorBelief), old(position))
    {
      var mlp, prob := CheckMostLikelyPosition();
      if mlp == goal && prob >= threshold {
        return ReachedGoal;
      }
      var direction := policy[mlp.0][mlp.1];
      var nextMove := Instruction(direction).value;
      if nextMove == Move(2, 2) {
        return StuckInWall;
      }
      MoveAndBoost(mlp, nextMove);
      position := mlp;
      return Moved(nextMove);
    }

    /** The move's part of handle_temperature_message: the motion update, the 1.3 boost, the renormalisation. */
    method MoveAndBoost(mlp: Cell, nextMove: Move)
      requires CanMove(config, priorBelief, mlp, nextMove)
      modifies this`priorBelief
      ensures priorBelief
           == Normalized(Boosted(MotionPosterior(old(priorBelief), nextMove.dr, nextMove.dc, config.probMoveCorrect),
                                 Aim(mlp, nextMove)))
    {
      UpdateBeliefMovement(nextMove);
      var moved := priorBelief;
      var t := Aim(mlp, nextMove);
      var boosted := Set(moved, t, moved[t.0][t.1] * 1.3);
      assert boosted == Boosted(moved, t);
      priorBelief := Normalize(boosted);
    }
  }
}
