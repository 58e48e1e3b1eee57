# Grid robot localisation: a Dafny model of the planner and the belief filter

The repository drives a simulated robot over a grid map. Before moving, the
robot computes a policy with value iteration over a grid Markov decision
process (`mdp` in `scripts/mdp.py`). It then localises itself with a discrete
Bayes filter (the `Robot` node in `scripts/robot.py`). Each temperature message
runs one cycle of that filter:

1. a temperature update;
2. a texture update;
3. a look-up of the most likely cell;
4. stop at the goal, do nothing in a wall, or apply the policy's move;
5. after a move, a motion update, a 1.3 boost of the cell aimed at, and a renormalisation.

The project has five modules:

- `Grids` (`grids.dfy`): rectangular grids as sequences of rows. It defines cell
  update, row sums and whole-grid totals, with the summation lemmas the other
  modules use.
- `Mdp` (`mdp.dfy`): one value-iteration sweep. This covers labels, moves and
  configuration; the four stochastic outcomes of a move and how they bounce off
  walls and the border; the move scan that keeps the first strictly larger
  value; and the in-place (Gauss-Seidel) sweep. The sweep is written as a method
  over the source's loops, and proved equal to the unique maps satisfying the
  sweep's specification `IsSweepOf`.
- `MdpSolver` (`mdp_solver.dfy`): `absolute_diff`, the set-up of the maps, the
  convergence counter and the whole `mdp` loop. The loop is proved to stop
  exactly as the source's counter and iteration budget say, and to return the
  labels after that many sweeps. With no negative reward, probability or
  discount, the values never decrease from one sweep to the next.
- `Belief` (`belief.dfy`): the filter's specification functions on belief
  matrices. These are normalisation, the texture and temperature posteriors,
  the motion posterior and the row-major most-likely scan, with their
  probabilistic properties.
- `RobotNode` (`robot.dfy`): the robot's configuration, the `move_instruction`
  table, the initial belief, and the whole message cycle as a function
  (`Cycle`). Also the class `Robot`, whose methods update `priorBelief`,
  `temperature`, `texture` and `position` in place with the source's loops.
  Each method is proved to produce the state the specification functions
  describe.

The temperature sensor's Gaussian density is a parameter `pdf(reading, mean)`.
The means are those of the source: 40 over `H`, 25 over `-`, 20 over `C`, and
likelihood 0 on any other terrain. Python floats are modelled as exact reals.

## Model

| member | source | states |
|---|---|---|
| Mdp.DirectionOf | scripts/mdp.py:130-137 | The label recorded for a move is always a compass direction: E exactly for [0,1], W exactly for [0,-1], S exactly for [1,0], N for anything else |
| Mdp.TargetsAreTheFourNeighbours | scripts/mdp.py:60-119 | For a unit compass move, the forward, backward, left and right outcomes reach four distinct cells, each at distance 1, and forward is the move's own target |
| Mdp.Target | scripts/mdp.py:61-110 | Each of the four outcomes of a move aims at a cell whose distance from the current cell is the move's |dr| + |dc| |
| Mdp.LandOn | scripts/mdp.py:61-119 | An outcome aimed off the grid or at a WALL yields the cell's own old value with `reward_wall`. Otherwise it yields the neighbour's value with `reward_step`, plus `reward_goal` on GOAL or `reward_pit` on PIT |
| Mdp.MoveValue | scripts/mdp.py:121-125 | When all four outcomes bounce, a move is worth the sum of the four probabilities times (`reward_wall` + discount times the cell's own old value) |
| Mdp.PickIsFirstLargest | scripts/mdp.py:58-137 | The move scan ends with the largest move value and the direction of the first move reaching it (strict `>`). If no value exceeds the sentinel -2^63, for instance with no moves, it keeps the empty label and the sentinel |
| Mdp.Best | scripts/mdp.py:58-138 | A sweep never writes WALL, PIT or GOAL into a free cell |
| Mdp.ChooseMove | scripts/mdp.py:58-137 | The loop over `possible_moves` produces exactly the scan's label and value, from the bounce-back and reward rules of lines 61-125 |
| Mdp.BestSameTerminals | scripts/mdp.py:60-125 | A move's value depends on the label map only through its WALL, PIT and GOAL cells, so direction labels written earlier in the sweep change nothing |
| Mdp.Sweep | scripts/mdp.py:51-139 | One pass of the nested loops yields the Gauss-Seidel sweep. Terminal cells are kept. Each free cell gets its best move, computed from new values for cells already visited, old values for later ones, and its own old value on a bounce |
| Mdp.SweepFromIsSweep | scripts/mdp.py:53-139 | Finishing a partly done sweep cell by cell completes a sweep in the sense of `IsSweepOf` |
| Mdp.SweepExists | scripts/mdp.py:53-139 | Every pair of correctly shaped maps has a sweep |
| Mdp.SweepUnique | scripts/mdp.py:53-139 | Any maps satisfying the sweep specification are the sweep `SweepOf` |
| Mdp.SweepDeterministic | scripts/mdp.py:53-139 | Two sweeps of the same maps agree on every label and value |
| Mdp.MoveValueMonotone | scripts/mdp.py:61-125 | With non-negative probabilities and discount, a move's value never drops when the values it reads and the cell's own old value grow and the WALL, PIT and GOAL cells stay the same |
| Mdp.PickMonotone | scripts/mdp.py:58-137 | Raising move values never lowers the value the scan keeps |
| Mdp.SweepMonotone | scripts/mdp.py:53-139 | With non-negative probabilities and discount, a sweep is monotone: value maps ordered cell by cell, with the same terminal cells, stay ordered after the sweep |
| Mdp.SweepNonNegative | scripts/mdp.py:53-139 | With non-negative rewards, probabilities and discount and at least one move, a sweep from a non-negative value map writes no negative value |
| MdpSolver.TotalDiffZeroIff | scripts/mdp.py:162-168 | `absolute_diff` is never negative. It is 0 exactly when the two value maps agree on every cell not labelled WALL, PIT or GOAL |
| MdpSolver.TotalDiffIgnoresTerminals | scripts/mdp.py:162-168 | Changing values on WALL, PIT or GOAL cells does not change `absolute_diff` |
| MdpSolver.AbsoluteDiff | scripts/mdp.py:162-168 | The loop returns the sum of the absolute differences over the non-terminal cells |
| MdpSolver.AddRowDiff | scripts/mdp.py:164-167 | One row of the loop adds that row's absolute differences |
| MdpSolver.ConvergeCount | scripts/mdp.py:144-148 | The counter is the length of the run of sweeps at the end whose difference was below the threshold: every sweep in that run is below it, and the sweep just before the run is not |
| MdpSolver.ConvergeCountTwo | scripts/mdp.py:144-153 | The counter reaches 2 exactly when the last two sweeps each changed the values by less than `threshold_difference` |
| MdpSolver.ConvergeAppend | scripts/mdp.py:144-148 | After one more sweep, the counter goes up by one below the threshold and resets to 0 otherwise |
| MdpSolver.MarkAll | scripts/mdp.py:35-40 | The wall and pit loops give every listed cell the mark and value 0.0, and leave the other cells unchanged |
| MdpSolver.SetUp | scripts/mdp.py:31-43 | The starting maps: every value is 0.0. The goal wins over pits, pits over walls, and other cells are empty |
| MdpSolver.Iterate | scripts/mdp.py:51-144 | One loop body returns the sweep of the current maps, and `absolute_diff` between the old values and the new values under the new labels |
| MdpSolver.Solve | scripts/mdp.py:5-156 | `mdp` runs n sweeps. n is at most `max_iterations`, the counter stays below 2 before the last sweep, and an early stop happens only when it reaches 2. It returns the labels after n sweeps, one per grid cell |
| MdpSolver.StopIsUnique | scripts/mdp.py:50-153 | The number of sweeps, and so the policy, is fixed by the configuration |
| MdpSolver.IteratedLabels | scripts/mdp.py:35-57 | Cells that start as WALL, PIT or GOAL keep that label and the value 0.0 through every sweep. No other cell ever gets one of those labels |
| MdpSolver.SweepKeepsLabels | scripts/mdp.py:53-139 | One sweep keeps terminal cells as they are and gives every other cell a non-terminal label |
| MdpSolver.SweepLabelsFreeCells | scripts/mdp.py:58-139 | After a sweep, each free cell is N, E, S or W, or else is still empty with the sentinel as its value |
| MdpSolver.IteratedDirections | scripts/mdp.py:50-156 | From the first sweep on, every cell not listed as a wall, pit or goal is N, E, S or W, or empty with the sentinel value |
| MdpSolver.IteratedNonNegative | scripts/mdp.py:31-139 | With non-negative rewards, probabilities and discount and at least one move, every value after any number of sweeps is non-negative |
| MdpSolver.IteratedMonotone | scripts/mdp.py:50-139 | Under the same conditions, no cell's value ever decreases from one sweep to the next |
| Belief.Normalized | scripts/robot.py:364-384 | `normalize` keeps the shape and divides every entry by the matrix total. A matrix with no entry comes back as it is |
| Belief.NormalizedSumsToOne | scripts/robot.py:364-384 | A normalised belief with at least one entry sums to 1 |
| Belief.NormalizedIsDistribution | scripts/robot.py:364-384 | Normalising a non-negative matrix gives entries in [0, 1] that sum to 1 |
| Belief.NormalizedKeepsDistribution | scripts/robot.py:364-384 | Normalising a belief that already sums to 1 leaves it unchanged, so normalisation is idempotent |
| Belief.NormalizedScaleFree | scripts/robot.py:364-384 | Multiplying every entry by the same non-zero factor does not change the normalised result |
| Belief.TexturePosteriorIsDistribution | scripts/robot.py:283-311 | With `prob_tex_correct` in [0, 1], the texture update turns a non-negative prior into a distribution |
| Belief.TextureUninformative | scripts/robot.py:283-311 | With `prob_tex_correct` = 0.5 the texture update only renormalises the prior |
| Belief.TextureFavoursMatch | scripts/robot.py:299-305 | Of two cells with the same positive prior, the one whose texture matches the reading gets more weight when `prob_tex_correct` > 0.5 |
| Belief.TempPosteriorIsDistribution | scripts/robot.py:250-281 | With a non-negative density, the temperature update turns a non-negative prior into a distribution |
| Belief.UnknownTerrainEmpty | scripts/robot.py:263-272 | A cell whose pipe-map entry is not `H`, `-` or `C` has belief 0 after the temperature update |
| Belief.TempUninformative | scripts/robot.py:250-281 | If the density is the same non-zero number at all three means and every cell has a known terrain, the temperature update only renormalises the prior |
| Belief.MotionPosterior | scripts/robot.py:313-341 | Each cell keeps 1 - `prob_move_correct` of its own mass and receives `prob_move_correct` of the mass one move back, when that cell is in the matrix. The shape is kept and nothing is renormalised |
| Belief.MotionStay | scripts/robot.py:313-341 | The move [0, 0] leaves the belief unchanged |
| Belief.MotionTotal | scripts/robot.py:325-338 | The motion update's total is (1 - p) times the prior's total plus p times the total of the shifted prior |
| Belief.ShiftedLosesMass | scripts/robot.py:332-338 | Shifting a non-negative belief by the move never increases its total, because mass pushed off the grid is lost |
| Belief.MotionLosesMass | scripts/robot.py:313-341 | With `prob_move_correct` in [0, 1] the motion update keeps entries non-negative and never increases the total. It is not renormalised |
| Belief.MostLikely | scripts/robot.py:343-355 | The scan returns a mass that is at least 0 and at least every entry of the belief |
| Belief.MostLikelyIsFirstLargest | scripts/robot.py:343-355 | The scan returns the largest mass, and the first cell in row-major order holding it when that mass is positive. If no entry exceeds 0 it returns cell (0, 0) with mass 0 |
| RobotNode.Instruction | scripts/robot.py:76-83 | `move_instruction` has no entry exactly for PIT and the empty label. It maps each compass label to a unit move, WALL exactly to [2, 2] and GOAL exactly to [0, 0] |
| RobotNode.InstructionInvertsDirection | scripts/robot.py:76-83 | `move_instruction` maps each compass label back to the unit move that `mdp` labels with it, and each unit move round-trips through its label |
| RobotNode.InitialBeliefTotal | scripts/robot.py:65-72 | The initial belief gives every cell, walls included, 1/(cells - walls). Its total times (cells - walls) is the number of cells: exactly 1 without walls, above 1 with walls |
| RobotNode.Decide | scripts/robot.py:222-247 | The step after sensing reports the goal exactly when the most likely cell is the goal with at least `threshold` mass. Short of that it reports a wall exactly when the instruction there is [2, 2]. A move is the policy's instruction at the most likely cell, which becomes the position. Without a move, belief and position stay as they are. The shape is always kept |
| RobotNode.Cycle | scripts/robot.py:200-248 | A whole cycle keeps the belief's shape, changes the position only on a move, and stops exactly when the sensed belief's most likely cell is the goal with at least `threshold` mass |
| RobotNode.MostLikelyInMatrix | scripts/robot.py:223-235 | The most likely cell of a non-empty belief is a cell of the grid |
| RobotNode.StuckExactlyOnWalls | scripts/robot.py:235-239 | Under the planner's policy, short of the goal, the cycle reports a wall exactly when the most likely cell is listed as a wall and is neither a pit nor the goal |
| RobotNode.CycleSumsToOne | scripts/robot.py:200-248 | Every cycle ends with a belief summing to 1: at the goal, in a wall, or after a move |
| RobotNode.CycleKeepsDistribution | scripts/robot.py:200-248 | From a non-negative belief, with a non-negative density and probabilities in [0, 1], every cycle ends with a distribution |
| RobotNode.CycleAtGoalCell | scripts/robot.py:235-247 | Where the policy says GOAL below the threshold, the move [0, 0] only boosts the most likely cell and renormalises, and that cell becomes the position |
| RobotNode.Robot.constructor | scripts/robot.py:49-83 | Readings start at zero and the position at (0, 0). Every cell, walls included, gets the initial mass, because the wall loop rebinds only a local. The policy is the planner's |
| RobotNode.Robot.Normalize | scripts/robot.py:364-384 | The summing loop and the in-place row-by-row division return every entry divided by the total |
| RobotNode.Robot.DivideInPlace | scripts/robot.py:374-382 | One pass of the inner loop divides row i by k in place, copies it out, and leaves the other rows unchanged |
| RobotNode.Robot.UpdateBeliefTemp | scripts/robot.py:250-281 | The stored belief becomes the normalised likelihood-times-prior over the pipe map |
| RobotNode.Robot.TempRowLoop | scripts/robot.py:259-277 | One row: the density at the cell's terrain mean, or 0, times the prior |
| RobotNode.Robot.UpdateBeliefTexture | scripts/robot.py:283-311 | The stored belief becomes the normalised texture posterior |
| RobotNode.Robot.TextureRowLoop | scripts/robot.py:292-306 | One row: `p_correct` on a match and 1 - `p_correct` otherwise, times the prior |
| RobotNode.Robot.UpdateBeliefMovement | scripts/robot.py:313-341 | The stored belief becomes the motion posterior: per cell, the mass that stays plus the mass arriving from the cell one move back, if that cell is on the grid |
| RobotNode.Robot.ZeroLike | scripts/robot.py:316-322 | A zero matrix with the prior's shape |
| RobotNode.Robot.Accumulate | scripts/robot.py:327-338 | The two additions into one cell add exactly its motion-posterior entry and touch no other cell |
| RobotNode.Robot.CheckMostLikelyPosition | scripts/robot.py:343-355 | The scan returns the most likely cell and its mass |
| RobotNode.Robot.HandleTemperatureMessage | scripts/robot.py:200-248 | The handler stores both readings, and its outcome, belief and position are those of one `Cycle`. The node stays valid and keeps the planner's policy |
| RobotNode.Robot.Act | scripts/robot.py:222-247 | The goal check, policy look-up and move give the outcome, belief and position of `Decide` |
| RobotNode.Robot.MoveAndBoost | scripts/robot.py:241-245 | The motion update, the 1.3 boost of the aimed-at cell and the renormalisation leave the normalised boosted motion posterior |

## Left out

- ROS plumbing is not part of this model. That covers node set-up, subscribers, publishers, `publish_results`, the done message, the sleep and the shutdown. `read_config` and the debug prints are also left out.
- The texture service call becomes the `textureReading` argument of `HandleTemperatureMessage`. The move service call `request_move` is omitted, because the filter only uses the move it asked for.
- The Gaussian density in `update_belief_temp` (`temp_noise_std_dev`, `math.exp`, `math.sqrt`) becomes the `pdf` parameter. Floating point becomes exact reals, so rounding in normalisation and in value iteration is not modelled.
- `check_normal` is left out. It only prints a sum.
- `self.move` is left out. It is set in `__init__` and never used.
- RobotNode.Robot.HandleTemperatureMessage: stores the position as the cell `(x, y)`. The source stores the string `str(mlp)`, so a later cycle that reads `position` is not modelled.
- RobotNode.Robot.Normalize: works on a local copy of the matrix. The source also overwrites its argument in place. Every caller replaces the argument with the result straight away, so the overwrite is not observable.
- MdpSolver.IteratedDirections: states "a compass direction, or empty with the sentinel value", not simply "a compass direction". A free cell keeps the empty label when no move value exceeds -2^63, for instance with an empty `possible_moves`. With `max_iterations` = 0, `mdp` returns every free cell empty.
- Integer widths are not modelled. The sentinel `-sys.maxint-1` is the real -2^63, as on a 64-bit build.
- Runtime errors in the source are preconditions of the model, not modelled error paths:
  - a division by zero in `normalize` (`CanNormalize`);
  - a ragged matrix, since `normalize` walks `len(matrix[0])` columns in every row (`Rectangular`);
  - maps whose shapes do not match the belief (`Congruent`);
  - a `KeyError` for a PIT or empty label in `move_instruction` (`CanDecide`);
  - an out-of-range index, or a negative index that Python would wrap, when boosting the aimed-at cell (`CanMove`);
  - walls, pits or a goal off the grid (`PlannerConfig`). An index past the end raises an IndexError in `mdp`. A negative index wraps round to the far end of the grid without an error: a wall at [-1, 0] marks cell (rows - 1, 0), and a goal at a negative index is never equal to the cell `check_most_likely_position` returns. `PlannerConfig` excludes both cases;
  - a wall list with as many entries as the grid has cells, which makes the initial mass divide by zero (`ValidRobotConfig`).
- The node reads the walls from the same configuration as the planner. `pipe_map` and `texture_map` are assumed to have the planner's `map_size` shape.
