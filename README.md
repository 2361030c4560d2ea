# Robot localization and motion models in Dafny

This project models the deterministic core of a small robotics course repository and proves properties of that model. It has five parts.

- **The 2D histogram filter** (`3_3_2D_Histogram_Filter`).
  - Grid algebra in `helpers.py`: `normalize`, `blur`, `is_robot_localized` and `close_enough`.
  - The localizer in `localizer.py`: the uniform prior, the Bayesian sensor update `sense` and the prediction step `move` (an exact toroidal shift followed by `blur`).
  - The `Simulation` driver in `simulate.py`, which owns the world, the belief grid and the true pose, and runs rounds of sense-then-move.
- **The constant-velocity car** (`3_5_State_and_Motion/car.py`). It moves on a torus, records its path and turns by exact integer quarter rotations.
- **The matrix type** (`3_5_State_and_Motion/matrix.py`): `zeroes`, the constructor, row indexing and the triple-loop product.
- **The RGB colour value** (`3_5_State_and_Motion/color.py`): componentwise addition and the text of its representation.
- **The landmark robot** (`3_Project_Landmark_Detection/robot_class.py`): a noisy bounded move, range-limited landmark sensing and landmark generation.

Belief grids are mutated in place by the Python code, so they are `array2<real>`. Each method is proved against a specification function on the grid value `ToSeq(a)`, and the probabilistic facts are lemmas about those functions. Python exceptions are modelled as `Result`/`Option` values:

- `ZeroDivisionError` when `normalize` divides by a zero total;
- `IndexError` for an empty grid, a ragged grid, or `random.choice` on an empty list;
- `RuntimeError` for incompatible matrix dimensions.

Every draw of `random.random()` is one of two things:

- an explicit argument `u` in [0, 1), in `get_observed_color`, `rand`, `sense` and `make_landmarks`, and one per round in `run`;
- a nondeterministic choice, for `random.choice` in `random_move` and for the choice among the other colours in `get_observed_color`.

Floats are `real`, so "sums to 1" is proved exactly.

Modules, one per file:

- `Outcomes` holds `Option`, `Result` and the exception kinds.
- `Modular` holds facts about `%`, which agrees with Python's `%` for a positive modulus.
- `Grid` holds grids, their sums and the `array2` bridge.
- `Helpers`, `Localizer`, `Simulate`, `Cars`, `Matrices`, `Colors` and `RobotClass` follow the source files.

In these cases the model follows the code as written:

- `normalize` divides in place; it does not return a new grid.
- Grid/belief shape mismatches in `sense` or `move` raise Python's `IndexError` only when an index falls outside a row. Larger belief grids are accepted. No dedicated shape error exists.
- `get_observed_color` raises `IndexError` when a misreading is drawn in a one-colour world (`random.choice([])`). It does not return some colour.
- `Simulation.sense` keeps the copied beliefs when the localizer returns an empty grid.
- A world whose later rows are shorter than the first is accepted. `sense` then raises `IndexError` when the true pose, or a read of the localizer, lies past the end of such a row.

## Model

| member | source | states |
|---|---|---|
| Grid.Zeroes | 3_5_State_and_Motion/matrix.py:5-8 | the grid has h rows of w cells, every cell 0.0 |
| Grid.TotalZeroes | 3_3_2D_Histogram_Filter/localizer.py:83 | the zero grid `new_G` (also `new` in blur) has total mass 0 |
| Grid.SetAtTotal | 3_3_2D_Histogram_Filter/localizer.py:90 | replacing one cell changes the total by exactly that cell's change |
| Grid.AddAtTotal | 3_3_2D_Histogram_Filter/helpers.py:92 | a `+=` on one cell adds exactly the increment to the total |
| Grid.CellLeTotal | 3_3_2D_Histogram_Filter/helpers.py:17-20 | in a non-negative grid every cell is at most the accumulated total |
| Helpers.NormalizeSpec | 3_3_2D_Histogram_Filter/helpers.py:24-26 | the normalised grid keeps the shape of its input |
| Helpers.ScaleTotal | 3_3_2D_Histogram_Filter/helpers.py:24-26 | dividing every cell by t divides the total by t |
| Helpers.NormalizeTotal | 3_3_2D_Histogram_Filter/helpers.py:17-27 | after normalising a grid of non-zero mass the cells sum to exactly 1 |
| Helpers.NormalizeBounds | 3_3_2D_Histogram_Filter/helpers.py:17-27 | normalising a non-negative grid with non-zero mass gives cells in [0, 1] |
| Helpers.NormalizeOfNormalized | 3_3_2D_Histogram_Filter/helpers.py:17-27 | normalize is the identity on a grid whose mass is already 1 |
| Helpers.Normalize | 3_3_2D_Histogram_Filter/helpers.py:17-27 | succeeds iff the total is non-zero or there is no cell; on success the same array now holds the grid divided by its old total; otherwise ZeroDivisionError with the grid untouched |
| Helpers.SumCells | 3_3_2D_Histogram_Filter/helpers.py:17-20 | the first double loop accumulates exactly the total of the grid's cells |
| Helpers.DivideCells | 3_3_2D_Histogram_Filter/helpers.py:24-26 | the second double loop succeeds iff the total is non-zero or there is no cell; it then leaves every cell divided by the total, and otherwise raises before any store |
| Helpers.Window | 3_3_2D_Histogram_Filter/helpers.py:55-69 | the window is 3x3 with centre 1 - blurring, edge neighbours blurring/6 and corners blurring/12 |
| Helpers.WindowTotal | 3_3_2D_Histogram_Filter/helpers.py:55-69 | the window weights sum to 1 for every blurring factor |
| Helpers.WindowSymmetric | 3_3_2D_Histogram_Filter/helpers.py:65-69 | window[p][q] == window[q][p]: the window is symmetric |
| Helpers.WeightedTotal | 3_3_2D_Histogram_Filter/helpers.py:89-92 | scaling the window by a cell value scales its mass by that value |
| Helpers.CellTapsTotal | 3_3_2D_Histogram_Filter/helpers.py:81-92 | the nine taps of one cell add exactly that cell's value to the total of `new` |
| Helpers.BlurRowsTotal | 3_3_2D_Histogram_Filter/helpers.py:76-92 | after the first n rows of the i loop, `new` holds exactly the mass of those rows |
| Helpers.BlurMass | 3_3_2D_Histogram_Filter/helpers.py:72-92 | the accumulated grid `new` has the same total as the input and has cells iff the input has |
| Helpers.BlurZeroIsNormalize | 3_3_2D_Histogram_Filter/helpers.py:55-93 | with blurring 0 the accumulated grid is the input, so blur(g, 0) == normalize(g) |
| Helpers.SpreadColumn | 3_3_2D_Histogram_Filter/helpers.py:83-92 | the dy loop adds the three weighted taps of column dx + 1 with wrap-around |
| Helpers.SpreadCell | 3_3_2D_Histogram_Filter/helpers.py:81-92 | the dx loop adds all nine weighted taps of one cell |
| Helpers.AccumulateRow | 3_3_2D_Histogram_Filter/helpers.py:77-92 | the j loop adds the taps of every cell of row i |
| Helpers.AccumulateTaps | 3_3_2D_Histogram_Filter/helpers.py:72-92 | a fresh grid holding the scatter of every cell's nine taps in the source's loop order |
| Helpers.Blur | 3_3_2D_Histogram_Filter/helpers.py:50-93 | IndexError for an empty grid; otherwise succeeds iff the input has non-zero mass or no cell, returns the normalised scatter, and raises only ZeroDivisionError |
| Helpers.ScanRowsTop2 | 3_3_2D_Histogram_Filter/helpers.py:113-130 | after n rows the scan holds the largest belief, the position where it first occurs, and the second largest as `second_best` |
| Helpers.BeliefScanTop2 | 3_3_2D_Histogram_Filter/helpers.py:113-130 | the completed scan satisfies that invariant; the best position stays None iff no belief is positive |
| Helpers.ScanTie | 3_3_2D_Histogram_Filter/helpers.py:123-130 | if two distinct cells hold the positive maximum then second_best equals best_belief |
| Helpers.Verdict | 3_3_2D_Histogram_Filter/helpers.py:131-140 | the best position is reported unchanged; a verdict of True means the best position is the true pose; with second_best <= 0.00001 the opinion is always strong; a positive tie (second_best == best_belief > 0.00001) is never strong |
| Helpers.IsRobotLocalized | 3_3_2D_Histogram_Filter/helpers.py:113-140 | the result is the verdict on the row-major scan: the opinion is strong iff second_best <= 0.00001 or best/second_best > 2.0; a strong opinion reports (best_pos == true_pos, best_pos), and a weak one (None, best_pos) |
| Helpers.CloseEnough | 3_3_2D_Histogram_Filter/helpers.py:151-160 | True iff both grids have the same non-zero height and first-row width and every compared cell pair differs by at most 0.001 |
| Localizer.Uniform | 3_3_2D_Histogram_Filter/localizer.py:19-33 | h rows of w cells, each 1/(h*w) |
| Localizer.UniformTotal | 3_3_2D_Histogram_Filter/localizer.py:19-33 | the uniform prior sums to 1 |
| Localizer.InitializeBeliefs | 3_3_2D_Histogram_Filter/localizer.py:19-33 | IndexError for an empty world, ZeroDivisionError for an empty first row, and otherwise a fresh height x width grid equal to the uniform prior |
| Localizer.PosteriorCell | 3_3_2D_Histogram_Filter/localizer.py:57-59 | a cell's posterior is prior * p_hit on a colour match and prior * p_miss otherwise |
| Localizer.Posterior | 3_3_2D_Histogram_Filter/localizer.py:51-61 | `new_beliefs` has the shape of the world's height x first-row width |
| Localizer.SenseTotal | 3_3_2D_Histogram_Filter/localizer.py:51-62 | a successful sensor update on a non-empty grid sums to 1 |
| Grid.TotalTimes | 3_3_2D_Histogram_Filter/localizer.py:59 | scaling every cell by p scales the total by p |
| Localizer.NormalizeTimes | 3_3_2D_Histogram_Filter/localizer.py:59-62 | a common non-zero factor on every cell does not change the normalised grid |
| Localizer.SenseUninformative | 3_3_2D_Histogram_Filter/localizer.py:57-62 | with p_hit == p_miss != 0 the sensor update equals normalize(beliefs) |
| Localizer.Sense | 3_3_2D_Histogram_Filter/localizer.py:51-62 | IndexError exactly when a read falls outside the world or the beliefs; otherwise a fresh grid equal to the normalised posterior, or the ZeroDivisionError of normalize; a non-empty success sums to 1 |
| Localizer.Shift | 3_3_2D_Histogram_Filter/localizer.py:83-90 | the exact toroidal shift keeps the height and width of the beliefs |
| Localizer.ShiftSource | 3_3_2D_Histogram_Filter/localizer.py:87-90 | cell (i, j) lands at ((i + dy) % h, (j + dx) % w) |
| Localizer.ShiftInverse | 3_3_2D_Histogram_Filter/localizer.py:87-90 | shifting by (-dy, -dx) after (dy, dx) restores the grid |
| Localizer.ShiftTotal | 3_3_2D_Histogram_Filter/localizer.py:85-90 | the toroidal shift keeps the total mass and the presence of cells |
| Localizer.PartialStep | 3_3_2D_Histogram_Filter/localizer.py:90 | visiting cell (i, j) writes its value at its target and changes nothing else |
| Localizer.ShiftGrid | 3_3_2D_Histogram_Filter/localizer.py:79-90 | the loops fill a fresh zero grid equal to the exact toroidal shift of the beliefs |
| Localizer.ShiftCell | 3_3_2D_Histogram_Filter/localizer.py:87-90 | one inner pass stores beliefs[i][j] at ((i + dy) % h, (j + dx) % w) and so extends the partial shift by exactly that cell |
| Localizer.MoveTotal | 3_3_2D_Histogram_Filter/localizer.py:79-91 | moving a normalised non-empty belief grid gives a normalised grid of the same shape |
| Localizer.MoveZeroIsShift | 3_3_2D_Histogram_Filter/localizer.py:83-91 | without blurring, move of a normalised grid is its exact shift |
| Localizer.MoveRoundTrip | 3_3_2D_Histogram_Filter/localizer.py:79-91 | without blurring, move(dy, dx) then move(-dy, -dx) restores a normalised grid |
| Localizer.Move | 3_3_2D_Histogram_Filter/localizer.py:79-91 | IndexError for empty beliefs; otherwise succeeds iff the shifted grid can be normalised, with the result equal to blur of the shift; a normalised non-empty input always succeeds with a normalised result of the same shape |
| Simulate.DedupMembers | 3_3_2D_Histogram_Filter/simulate.py:70-75 | the de-duplicated list holds exactly the elements of the input |
| Simulate.DedupNoDuplicates | 3_3_2D_Histogram_Filter/simulate.py:73-74 | no colour is appended twice |
| Simulate.DedupFirstOccurrence | 3_3_2D_Histogram_Filter/simulate.py:70-75 | the k-th colour is the element at its first occurrence index, and those indices strictly increase |
| Simulate.ColorsComplete | 3_3_2D_Histogram_Filter/simulate.py:71-75 | every cell colour is in the colour list |
| Simulate.ColorsSound | 3_3_2D_Histogram_Filter/simulate.py:71-75 | every listed colour occurs in some cell |
| Simulate.Simulation.GetColors | 3_3_2D_Histogram_Filter/simulate.py:70-75 | the nested loops return the distinct cell colours in row-major first-occurrence order |
| Simulate.OtherColors | 3_3_2D_Histogram_Filter/simulate.py:143-149 | `possible_colors` never holds the true colour and never holds a colour twice |
| Simulate.OtherColorsMembers | 3_3_2D_Histogram_Filter/simulate.py:143-150 | `possible_colors` holds exactly the colours other than the true one |
| Simulate.SingleColourNoChoice | 3_3_2D_Histogram_Filter/simulate.py:143-151 | in a one-colour world `possible_colors` is empty, so `random.choice` raises |
| Simulate.Simulation.constructor | 3_3_2D_Histogram_Filter/simulate.py:36-53 | stores the world and parameters with p_miss = 1.0 and incorrect_sense_probability = p_miss/(p_hit + p_miss); beliefs are the uniform prior; the pose is (h // 2, w // 2) or the start pose, and prev_pose is the same |
| Simulate.Simulation.Create | 3_3_2D_Histogram_Filter/simulate.py:36-53 | IndexError for an empty world, ZeroDivisionError for an empty first row or p_hit == -1, and otherwise a valid simulation as above |
| Simulate.Simulation.GetObservedColor | 3_3_2D_Histogram_Filter/simulate.py:135-154 | the true colour when u >= incorrect_sense_probability; otherwise a colour other than the true one, or IndexError iff there is none; IndexError when the pose lies past its row |
| Simulate.CopyGrid | 3_3_2D_Histogram_Filter/simulate.py:85 | `deepcopy(self.beliefs)` (also at line 117): a fresh array of the same shape holding the same grid |
| Simulate.SensedBeliefs | 3_3_2D_Histogram_Filter/simulate.py:85-93 | the sensor update of a deep copy fails iff SenseError names an exception for the beliefs, and then raises exactly that one: IndexError iff a read falls outside the world or the beliefs, otherwise ZeroDivisionError iff the posterior has cells but no mass; on success a fresh normalised grid equal to the localizer's result |
| Simulate.Simulation.Sense | 3_3_2D_Histogram_Filter/simulate.py:84-93 | the step fails iff the observation fails (IndexError: the pose past its row, or a misreading in a one-colour world) or else the localizer's update for the observed colour raises (the exception SenseError names); on an exception the beliefs, the pose and the log are unchanged; on success the beliefs become the sensor update, the log records the draw and the observed colour, and Next of the old state under that step is the new state |
| Simulate.MovedBeliefs | 3_3_2D_Histogram_Filter/simulate.py:117-119 | the move of a deep copy: a fresh normalised grid equal to the localizer's move |
| Simulate.Simulation.Move | 3_3_2D_Histogram_Filter/simulate.py:107-119 | prev_pose := true_pose, true_pose := ((y + dy) % h, (x + dx) % w), and the beliefs become the localizer's move with the configured blur; the state stays valid, and Next of the old state under the step is the new state |
| Simulate.Simulation.Commit | 3_3_2D_Histogram_Filter/simulate.py:111-119 | the closing assignments of `move` (and of `sense`, lines 91-93): exactly the given beliefs and poses are installed, the step is logged, and the state stays valid |
| Simulate.Simulation.RandomMove | 3_3_2D_Histogram_Filter/simulate.py:203-205 | dy and dx each lie in {-1, 0, 1} |
| Simulate.Simulation.ReplayAppend | 3_3_2D_Histogram_Filter/simulate.py:219-222 | replaying the steps a + b is replaying a and then, from the state reached, b |
| Simulate.RoundsSnoc | 3_3_2D_Histogram_Filter/simulate.py:219-222 | completed rounds followed by one more round are completed rounds |
| Simulate.Simulation.Round | 3_3_2D_Histogram_Filter/simulate.py:220-222 | one iteration, sense and then a unit random move; it fails exactly as Sense does for the draw, with nothing changed; otherwise the log grows by one round whose sense step records the draw u and the colour observed for it, and replaying those two steps from the old beliefs and poses gives the new ones |
| Simulate.Simulation.Run | 3_3_2D_Histogram_Filter/simulate.py:219-222 | when no error is returned all num_steps rounds completed; otherwise completed < num_steps and the exception is one that the sense step of round `completed` can raise for its draw in the state the earlier rounds left; the log grows by exactly `completed` rounds, the sense step of round k took draws[k], and replaying the log from the old beliefs and poses gives the final ones, so every completed sense step observed a colour its draw admits at the pose of that round |
| Simulate.DrawsSnoc | 3_3_2D_Histogram_Filter/simulate.py:219-222 | rounds that took draws, followed by a round whose sense step took v, took draws + [v] |
| Simulate.RunExtend | 3_3_2D_Histogram_Filter/simulate.py:219-222 | i logged rounds taking draws[..i], followed by a round taking draws[i], are i + 1 rounds taking draws[..i + 1] |
| Simulate.Simulation.ReplayExtend | 3_3_2D_Histogram_Filter/simulate.py:219-222 | a replay of the logged rounds extends by the replay of one more round |
| Simulate.Simulation.ReplayFirst | 3_3_2D_Histogram_Filter/simulate.py:219-222 | a replay that completes starts with a step that completes |
| Simulate.Simulation.FirstRoundObserves | 3_3_2D_Histogram_Filter/simulate.py:84-86 | the first sense step of a completed replay observed a colour that `get_observed_color` may report for its draw at the starting pose |
| Simulate.Simulation.MisreadingWithoutChoice | 3_3_2D_Histogram_Filter/simulate.py:143-151 | in a one-colour world a sense step whose draw asks for a misreading cannot complete, since `random.choice` of the empty list raises |
| Cars.LeftRotated | 3_5_State_and_Motion/car.py:89-91 | the left rotation maps (vy, vx) to (-vx, vy) |
| Cars.RightRotated | 3_5_State_and_Motion/car.py:106-108 | the right rotation maps (vy, vx) to (vx, -vy) |
| Cars.TurnsInverse | 3_5_State_and_Motion/car.py:86-110 | a left turn and a right turn undo each other in either order |
| Cars.FourLeftTurns | 3_5_State_and_Motion/car.py:86-93 | four left turns restore the velocity |
| Cars.LeftTurnsShift | 3_5_State_and_Motion/car.py:86-93 | four more left turns give the same velocity |
| Cars.LeftTurnsModFour | 3_5_State_and_Motion/car.py:86-93 | n left turns equal n % 4 left turns |
| Cars.Advance | 3_5_State_and_Motion/car.py:69-72 | the predicted position lies inside the height x width world |
| Cars.AdvanceCompose | 3_5_State_and_Motion/car.py:69-72 | moving for s and then t steps equals moving for s + t steps |
| Cars.AdvanceZero | 3_5_State_and_Motion/car.py:69-72 | dt = 0 leaves an in-world position unchanged |
| Cars.Car.constructor | 3_5_State_and_Motion/car.py:43-48 | state = [position, velocity], and the path is [position] |
| Cars.Car.Move | 3_5_State_and_Motion/car.py:52-76 | dt defaults to 1; IndexError for an empty world, ZeroDivisionError for an empty first row, each with nothing changed; otherwise the position advances with wrap-around and is appended to the path; the velocity is unchanged |
| Cars.Car.TurnLeft | 3_5_State_and_Motion/car.py:86-93 | the velocity becomes its left rotation; the position and the path are unchanged |
| Cars.Car.TurnRight | 3_5_State_and_Motion/car.py:103-110 | the velocity becomes its right rotation; the position and the path are unchanged |
| Matrices.NewMatrix | 3_5_State_and_Motion/matrix.py:19-22 | rows = len(grid) and cols = len(grid[0]); IndexError iff the grid is empty |
| Matrices.Get | 3_5_State_and_Motion/matrix.py:52-53 | `m[i]` is row i, with negative indices counting from the end; IndexError iff the index is out of range |
| Matrices.GetNegative | 3_5_State_and_Motion/matrix.py:52-53 | index i - rows names the same row as index i |
| Matrices.Dot | 3_5_State_and_Motion/matrix.py:41-43 | the sum accumulated by the k loop is 0 when the row of self or the column of other is zero |
| Matrices.Product | 3_5_State_and_Motion/matrix.py:35-43 | the product grid is rows x other.cols, and entry (i, j) is the sum over k < other.rows of self[i][k] * other[k][j] |
| Matrices.ProductIdentity | 3_5_State_and_Motion/matrix.py:37-43 | the identity matrix is neutral on both sides of the product of a rectangular matrix |
| Matrices.AccumulateEntry | 3_5_State_and_Motion/matrix.py:41-43 | the k loop adds the full dot product onto entry (i, j) and touches no other entry, or reports the first read past a row end |
| Matrices.Mul | 3_5_State_and_Motion/matrix.py:25-48 | RuntimeError iff self.cols != other.rows; IndexError iff a ragged row makes a read fall outside; otherwise a well-formed Matrix of shape rows x other.cols equal to the product grid; the operands are values and do not change |
| Colors.Add | 3_5_State_and_Motion/color.py:39-43 | a + b holds the componentwise sums |
| Colors.AddCommutative | 3_5_State_and_Motion/color.py:41 | a + b == b + a |
| Colors.AddAssociative | 3_5_State_and_Motion/color.py:41 | (a + b) + c == a + (b + c) |
| Colors.AddNeutral | 3_5_State_and_Motion/color.py:41 | Color(0, 0, 0) is neutral, and the componentwise negation cancels a colour |
| Colors.NatToString | 3_5_State_and_Motion/color.py:35 | `str` of a natural number is a non-empty string of decimal digits |
| Colors.IntToString | 3_5_State_and_Motion/color.py:35 | `str` of an int is decimal text, which starts with '-' iff the number is negative |
| Colors.Repr | 3_5_State_and_Motion/color.py:35-36 | the representation has the frame `Color(r=` ... `)`; ParseReprOfRepr reads it back |
| Colors.ParseIntToString | 3_5_State_and_Motion/color.py:35 | the decimal text of each component reads back as that component |
| Colors.ParseReprOfRepr | 3_5_State_and_Motion/color.py:35-36 | the text `Color(r=<r>, g=<g>, b=<b>)` reads back as the colour |
| Colors.ReprInjective | 3_5_State_and_Motion/color.py:35-36 | distinct colours have distinct representations |
| RobotClass.Rand | 3_Project_Landmark_Detection/robot_class.py:46-48 | rand() lies in [-1, 1) and determines its draw u |
| RobotClass.MoveTo | 3_Project_Landmark_Detection/robot_class.py:55-63 | the move succeeds iff the candidate x + dx + rand * motion_noise (likewise y) lies in [0, world_size]^2; on success the position is the candidate, otherwise unchanged; a position inside the world stays inside |
| RobotClass.MoveNoiseless | 3_Project_Landmark_Detection/robot_class.py:55-63 | with motion_noise 0 the move lands exactly on (x + dx, y + dy) when that is inside |
| RobotClass.Robot.constructor | 3_Project_Landmark_Detection/robot_class.py:34-42 | stores the parameters (the last measurement_noise assignment wins); x = y = world_size / 2; no landmarks and a count of 0 |
| RobotClass.Robot.Move | 3_Project_Landmark_Detection/robot_class.py:51-63 | the result and the new x, y are those of MoveTo; nothing else changes |
| RobotClass.Measurements | 3_Project_Landmark_Detection/robot_class.py:90-96 | at most one reading per landmark |
| RobotClass.MeasurementsSound | 3_Project_Landmark_Detection/robot_class.py:90-95 | every entry has a valid landmark index, its dx, dy are \|landmark - position\| + rand * measurement_noise, and both are within measurement_range |
| RobotClass.MeasurementsOrdered | 3_Project_Landmark_Detection/robot_class.py:90-96 | the landmark indices strictly increase |
| RobotClass.MeasurementsComplete | 3_Project_Landmark_Detection/robot_class.py:90-96 | a landmark is listed iff both its measured distances are within range |
| RobotClass.Robot.Sense | 3_Project_Landmark_Detection/robot_class.py:80-96 | the loop returns the in-range readings in landmark order and changes no field |
| RobotClass.RoundHalfEven | 3_Project_Landmark_Detection/robot_class.py:103-104 | round(v) lies within 0.5 of v, and an exact tie goes to the even integer |
| RobotClass.RoundHalfEvenUnique | 3_Project_Landmark_Detection/robot_class.py:103-104 | those two properties determine round(v) uniquely |
| RobotClass.LandmarkInside | 3_Project_Landmark_Detection/robot_class.py:103-104 | in a world of whole-number size every generated landmark lies inside the world |
| RobotClass.Robot.MakeLandmarks | 3_Project_Landmark_Detection/robot_class.py:101-105 | the landmarks are replaced by exactly one landmark per draw (none when n <= 0), each coordinate round(u * world_size); num_landmarks = n |

## Left out

- Plotting and console output are not modelled: `show_beliefs`, `prepare_visualizer` with its X/Y/P lists, `Car.display_world`, the `plt.imshow` swatch in `Color.__repr__`, the `print` calls in `close_enough`, `__mul__` and `Simulation.sense`, `Matrix.__repr__`, and the `%.5f` text of `robot.__repr__`.
- Floating point: every float is a `real`.
  - Rounding error is not modelled, so "sums to 1" is exact.
  - `round` is exact half-to-even on the real value.
- Distributions are not modelled. Draws of `random.random()` are arguments in [0, 1), and `random.choice` is a nondeterministic choice. No claim about probabilities is made.
- `ValueError` for a non-`Matrix` or non-`Color` right operand is not modelled, because operands are typed.
- The doc-comment claim that `measurement_range = -1` makes every landmark visible is not modelled: the code at `robot_class.py:94` does not implement it.
- The `not new_beliefs` branch of `Simulation.sense` is modelled as written. Under the simulation invariant the localizer never returns an empty grid, so that branch is dead.
- Simulate.Simulation.constructor: requires a non-empty world, `p_hit != -1` and a start pose inside the world. The exceptions Python raises there are modelled by `Simulation.Create`.
- Simulate.Simulation.Create: requires a given start pose to lie in [0, h) x [0, w). Python stores any tuple. A negative pose in [-h, -1] x [-w, -1] then works through negative indexing, and `move` brings it into range with `%`; an x at or past w works while it lies inside the row of the true pose; other poses raise `IndexError` in `get_observed_color`. The model excludes all of these poses.
- Simulate.Simulation.Sense: returns the observed colour and the exception, if any, so that the contract can name them. Python returns `None` and raises.
- Simulate.Simulation.Round and Simulate.Simulation.Run: the colour `random.choice` picks for a misreading and the random move are nondeterministic, so Run's failure is stated as one that some admissible observation can cause (SenseCanFail), not as the exact one. A completed round is tied to its draw: its logged sense step carries the draw and a colour admissible for it, and the replay of the log gives the beliefs.
- Simulate.Simulation.Move: requires the simulation invariant. In Python the pose is assigned before the localizer runs; this order cannot be observed, because under the invariant the localizer's move cannot raise.
- Simulate.Simulation.Run: takes `num_steps` as a natural number. Python's `range` of a negative count runs no iteration, which is the same as 0. It also takes the `random.random()` draw of each round's sense step as `draws`, one per round.
- Cars.Car.Move: the world is a sequence of rows of which only the lengths are read. The NumPy array of the source is not modelled.
- Cars.Car.Move: uses Python integer semantics for the velocity. After `turn_left` or `turn_right` the velocity entries are NumPy `int64`, so in Python a `% 0` then yields 0 with a RuntimeWarning instead of raising ZeroDivisionError, and products beyond 2^63 wrap around; neither is modelled.
- Helpers.CloseEnough and Helpers.IsRobotLocalized: take `array2` grids, so the ragged lists the Python loops accept (each row read with its own length by `enumerate` and `zip`) cannot be passed.
- Grid.Zeroes: takes natural sizes. Python's `zeroes` with a negative size yields an empty list; `__mul__` never passes one.
- RobotClass.LandmarkInside: is stated only for a whole-number world size. For other sizes a coordinate rounded up can exceed `world_size`.
- The landmark robot stores landmarks as pairs of reals. The Python lists of two numbers are not modelled.
