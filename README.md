# EcoCar CACC: drive-cycle generator, controller step and requirement checks

This project models three small pieces of decision logic from an EcoCar connected and automated vehicle (CAV) code base, and proves properties of each model.

- **Drive-cycle generator** (`CycleGenerator`). A fixed-step loop builds a randomized highway speed trace, 700 s long at 0.01 s steps:
  - it re-draws a free-flow/dense traffic flag at every whole second;
  - it draws an acceleration from the range of the current regime;
  - it applies the speed change only if the new speed stays within [0, 30] m/s, and otherwise rejects the change;
  - it rounds the time and the speed, then records a `(time, speed)` row after a header.

  The random source is injected as two sequences:
  - `densities` holds the randint(0, 1) results, one per crossed second;
  - `uniforms` holds the random() values behind each uniform(a, b), one per step.

  `Generate` is the loop, written imperatively. It is proved against `Run`, a step-by-step reference definition. The lemmas are stated about `Run`.
- **Safe distance** (`SafeDistance`). The minimum safe following distance is `2.8 * v^0.45 + 8` m, where v is the lead car's speed in mph. The controller and the distance requirement share this one function. `pow` is a parameter; the only fact used about it is that it is non-negative on non-negative bases.
- **CACC controller** (`Controller`). `CaccController` keeps the field `egoYPos` and updates it on every `ControllerStep` by dead reckoning. The step then computes a 5%-deadbanded gap error and turns it into a saturated torque or a saturated brake command. The pure functions `Actuation` and `StepCommand` state the command the method must return.
- **Requirement checks** (`CaccRequirements`). The minimum-following-distance check and the steady-state speed-error check work on a log table:
  - both drop the first 10 setup rows;
  - both apply a per-row failure mask;
  - both report exactly the failing rows, in log order.

  The distance check is skipped when the lead-x column is absent.

The supporting module `Numerics` models three numeric operations:
- Python's `int()`, which truncates toward zero (unlike floor);
- `round(x, n)`, exact on reals with ties to even;
- `abs` and `min`.

`int()` matters for the density re-draw. The comment at python/cycle_generation/cycle_generator.py:37 says the density is updated "every second". The test at line 38 compares truncated seconds. For the first step, `int(0.0) == int(-0.01) == 0`, so no re-draw happens at t = 0, and the whole first second runs in free flow. The model follows the code.

## Model

| member | source | states |
|---|---|---|
| Numerics.Abs | cpp/src/CONTROLLER.cpp:54 | the absolute value is non-negative and is x or -x |
| Numerics.Min | cpp/src/CONTROLLER.cpp:62 | std::min: the result is at most both arguments and is one of them |
| Numerics.Trunc | python/cycle_generation/cycle_generator.py:38 | int() truncates toward zero: for x >= 0 the result is the integer part below x; for x < 0 it is the integer part above x |
| Numerics.TruncIsNotFloor | python/cycle_generation/cycle_generator.py:38 | int(-0.01) is 0, whereas floor(-0.01) is -1 |
| Numerics.TruncHundredths | python/cycle_generation/cycle_generator.py:38 | the integer part of i hundredths is i div 100, for every i >= 0 |
| Numerics.RoundHalfEven | python/cycle_generation/cycle_generator.py:56 | the result is within 1/2 of y, and an exact tie goes to the even neighbour |
| Numerics.Round | python/cycle_generation/cycle_generator.py:55-56 | defines round(x, n): x*10^n rounded half-to-even, divided back by 10^n; its properties are the RoundTenths and RoundThousandths lemmas |
| Numerics.RoundTenths | python/cycle_generation/cycle_generator.py:56 | round(x, 1) is a whole number of tenths and lies within 0.05 of x |
| Numerics.RoundTenthsOnGrid | python/cycle_generation/cycle_generator.py:56 | round(x, 1) leaves a whole number of tenths unchanged |
| Numerics.RoundTenthsMonotone | python/cycle_generation/cycle_generator.py:56 | round(·, 1) is monotone |
| Numerics.RoundTenthsWithin | python/cycle_generation/cycle_generator.py:56 | round(x, 1) cannot leave an interval whose ends are whole tenths |
| Numerics.RoundThousandthsOnGrid | python/cycle_generation/cycle_generator.py:55 | round(t, 3) leaves a whole number of thousandths unchanged |
| SafeDistance.MinSafeDistance | cpp/src/CONTROLLER.cpp:45-46 | for a non-negative speed, and a pow that is non-negative on non-negative bases, the minimum safe distance is at least the 8 m standstill distance |
| CycleGenerator.Uniform | python/cycle_generation/cycle_generator.py:43-45 | uniform(a, b) built from a draw in [0, 1] lies in [a, b] |
| CycleGenerator.Acceleration | python/cycle_generation/cycle_generator.py:42-45 | the acceleration lies in [-10, 5] when the dense flag is set and in [0, 10] when it is not |
| CycleGenerator.Integrate | python/cycle_generation/cycle_generator.py:48-52 | the update is applied if and only if the proposal speed + a*0.01 lies in [0, 30], and otherwise the speed is unchanged; its change has the sign of a and is at most a*0.01; [0, 30] is preserved |
| CycleGenerator.RejectNotClip | python/cycle_generation/cycle_generator.py:48-52 | 29.95 with acceleration 10 stays 29.95, and 0.05 with acceleration -10 stays 0.05: the speed is never cut to the bound |
| CycleGenerator.FirstStepRecordsOneTenth | python/cycle_generation/cycle_generator.py:31-59 | the first step runs in free flow, and for any draw in (0.5, 1) its update is accepted and records 0.1 m/s: the speed does move |
| CycleGenerator.RoundKeepsSpeedRange | python/cycle_generation/cycle_generator.py:56 | rounding a speed in [0, 30] to one decimal keeps it in [0, 30] |
| CycleGenerator.Boundary | python/cycle_generation/cycle_generator.py:38 | defines the re-draw condition int(t) != int(t - 0.01); BoundaryAt characterises it |
| CycleGenerator.BoundaryAt | python/cycle_generation/cycle_generator.py:38 | at step i (time i hundredths) the re-draw condition holds if and only if i is a positive multiple of 100; there is none at t = 0 |
| CycleGenerator.Crossings | python/cycle_generation/cycle_generator.py:38-39 | defines the number of density draws used in the first n steps, (n-1) div 100 (one per positive multiple of 100 below n); Run proves the loop consumes exactly that many |
| CycleGenerator.Step | python/cycle_generation/cycle_generator.py:38-62 | one iteration: the flag changes only at a second boundary; at a boundary it becomes the next density draw, which is consumed; the time advances to round(t, 3) + 0.01; exactly one row (rounded time, new speed) is appended; the new speed is round(Integrate(speed, acceleration of the new regime), 1); [0, 30] is kept; the speed is a whole number of tenths |
| CycleGenerator.Run | python/cycle_generation/cycle_generator.py:15-62 | starts from Start, the initial state of lines 15-31 (header only, time 0, speed 0, flag 0); after n steps: time n*0.01; one density draw consumed per crossed second; speed in [0, 30] and a whole number of tenths; flag in {0, 1}; header plus n rows |
| CycleGenerator.TimeOnGrid | python/cycle_generation/cycle_generator.py:55 | round(t, 3) is the identity on the step times i*0.01 |
| CycleGenerator.DensityDuringStep | python/cycle_generation/cycle_generator.py:31-39 | step i uses the free-flow flag 0 during the first second, and otherwise the draw made at the start of second i div 100 |
| CycleGenerator.SameSecondSameRegime | python/cycle_generation/cycle_generator.py:38-45 | two steps in the same integer second use the same regime, hence the same acceleration range |
| CycleGenerator.FreeFlowNeverSlows | python/cycle_generation/cycle_generator.py:42-56 | in a free-flow step the recorded speed never decreases |
| CycleGenerator.SpeedStepAtMostOneTenth | python/cycle_generation/cycle_generator.py:48-56 | the recorded speed changes by at most 0.1 m/s per step |
| CycleGenerator.CrossingsAtBoundary | python/cycle_generation/cycle_generator.py:38-39 | the re-draw at a boundary step n uses draw n div 100 - 1, which exists: at most 699 re-draws happen |
| CycleGenerator.RowAt | python/cycle_generation/cycle_generator.py:55-62 | row k+1 of the table is (k*0.01, the speed after step k), and later steps only append |
| CycleGenerator.TableInRange | python/cycle_generation/cycle_generator.py:15-62 | every row after the header is a sample with speed in [0, 30] and time (k-1)*0.01; every time is below 700; times strictly increase |
| CycleGenerator.Generate | python/cycle_generation/cycle_generator.py:15-62 | the loop terminates and returns the reference table: the header first, then exactly 70000 rows, speeds kept in [0, 30], times 0.01 apart, strictly increasing and below 700 |
| Controller.Actuation | cpp/src/CONTROLLER.cpp:51-67 | torque in [0, 5000] and brake in [0, 10], never both nonzero; inside the 5% deadband both are 0; outside it, a positive error gives torque min(500e, 5000) and a negative error gives brake min(-500e/3000, 10); torque > 0 if and only if the error exceeds the deadband positively, and brake > 0 if and only if it falls below it |
| Controller.StepCommand | cpp/src/CONTROLLER.cpp:44-73 | with no lead car the command is (5000, 0); otherwise it is saturated and mutually exclusive as above |
| Controller.BandOfSafeDistance | cpp/src/CONTROLLER.cpp:48-67 | for a non-negative safe distance d, the car accelerates if and only if the gap is above 1.05 d, brakes if and only if the gap is below 0.95 d, and coasts in between |
| Controller.ActuationMonotone | cpp/src/CONTROLLER.cpp:54-67 | a larger gap error never yields less torque or more braking |
| Controller.CloseLeadBrakes | cpp/src/CONTROLLER.cpp:45-67 | with a forward-moving lead car, a gap below 7.6 m (95% of the 8 m floor) always brakes with zero torque |
| Controller.CaccController.constructor | cpp/src/CONTROLLER.cpp:7-12 | x starts at 10 and egoYPos at 0 |
| Controller.CaccController.ControllerStep | cpp/src/CONTROLLER.cpp:16-75 | egoYPos grows by exactly egoSpeed*0.01 on every call, whether or not there is a lead car; x is unchanged; the outputs are StepCommand for the updated position |
| CaccRequirements.Failing | python/test/test_cacc_requirements_2.py:58-59 | the mask filter returns exactly the labels from the given row on whose rows fail, in increasing order: each is in range and failing, and each failing row is included |
| CaccRequirements.TooClose | python/test/test_cacc_requirements_2.py:49-58 | defines the distance mask: FollowingDistance (lead_x - ego_x, line 52) < NeededDistance (2.8*pow(2.23694*lead_speed, 0.45) + 8, lines 51 and 55) |
| CaccRequirements.FollowingDistance | python/test/test_cacc_requirements_2.py:49-52 | defines following_distance = lead_x - ego_x |
| CaccRequirements.NeededDistance | python/test/test_cacc_requirements_2.py:51-55 | defines minimum_distance: the shared MinSafeDistance of the lead speed converted to mph |
| CaccRequirements.Violates | python/test/test_cacc_requirements_2.py:58-131 | selects the failure mask of a requirement: TooClose (line 58) for the distance check, SpeedErrorTooLarge (line 131) for the speed-error check |
| CaccRequirements.DistanceRequirement | python/test/test_cacc_requirements_2.py:31-73 | skipped if and only if the lead-x column is absent; failed if and only if some row from label 10 on has lead_x - ego_x < 2.8*(2.23694*lead_speed)^0.45 + 8; the report lists exactly those rows (time, distance, needed distance), in increasing label order, none below label 10 |
| CaccRequirements.QuotientExceeds | python/test/test_cacc_requirements_2.py:120-130 | for s != 0, abs(d/s) > t if and only if abs(d) > t*abs(s) |
| CaccRequirements.RelativeSpeedError | python/test/test_cacc_requirements_2.py:120 | defines abs((set - speed)/set), with pandas' values for a zero set speed: inf for a non-zero speed, NaN for a zero one; ExceedsWithoutDivision characterises it |
| CaccRequirements.Exceeds | python/test/test_cacc_requirements_2.py:130 | defines `> 0.1` on the ratio as on floats: inf exceeds every threshold, NaN exceeds none |
| CaccRequirements.ExceedsWithoutDivision | python/test/test_cacc_requirements_2.py:119-130 | the relative speed error exceeds 10% if and only if abs(set - speed) > 0.1*abs(set); this includes set = 0 (inf exceeds, NaN does not) |
| CaccRequirements.SteadyState | python/test/test_cacc_requirements_2.py:116-128 | defines steady state: abs(ego_acceleration) <= 0.67, brake_pos == 0 and cav_enable == 1 |
| CaccRequirements.SpeedErrorTooLarge | python/test/test_cacc_requirements_2.py:130-131 | defines test_failure_condition: steady state and a relative speed error exceeding 0.1 |
| CaccRequirements.SpeedErrorRequirement | python/test/test_cacc_requirements_2.py:76-150 | never skipped; failed if and only if some row from label 10 on is in steady state (abs(acc) <= 0.67, no brake, CAV on) with relative speed error above 0.1; the report lists exactly those rows (time, speed, target speed, relative error), in label order |
| CaccRequirements.ZeroSetSpeedFails | python/test/test_cacc_requirements_2.py:120-136 | a steady-state row past the setup rows with zero set speed and non-zero speed fails the check, because its error is infinite |

## Left out

- The CSV export and its hard-coded path (python/cycle_generation/cycle_generator.py:67-69): file I/O.
- The `random` module. Draws are injected as sequences that are assumed in range; uniformity and independence cannot be stated here.
  - The model keeps the randint results and the uniform draws in two separate sequences. This does not capture how the two interleave in one Mersenne Twister stream.
  - `uniforms` admits 1.0, although random() never returns it.
- IEEE-754 floating point. All arithmetic is on exact reals, so the model leaves out:
  - the one-step rounding error of `current_time + interval` and `current_time - interval`, the unrounded values that the loop guard and the boundary test see before line 55 rounds the time again. On floats a whole second can come out one unit in the last place low, which can delay or skip that second's re-draw or change the count at the 700 s bound. Over reals there are exactly 70000 iterations and 699 re-draws;
  - how Python's `round` behaves on binary fractions, where the model uses exact round-half-to-even;
  - NaN from C++ `pow`, or from pandas `**`, on a negative lead speed;
  - `std::min` and pandas comparisons on NaN.
- `pow`: a parameter. Its value is not modelled; only non-negativity on non-negative bases is assumed, and only where a lemma says so.
- The pandas/pytest glue (python/test/test_cacc_requirements_2.py:1-28): CSV loading, `conftest`, the unused `rms_jerk` import and the scenario parametrization.
- The text of the failure messages (`to_string`, f-strings) and `<iostream>`. Reports are modelled as the sequence of failing rows with the reported fields.
- The pandas index. The model assumes log rows are labelled 0, 1, 2, … by position, as a freshly loaded CSV is.
- Missing columns other than `ACTOR_lead_x`. pandas would raise a KeyError on those; the model assumes every other column is present.
- The CaccController inputs `setSpeed`, `leadXPos` and `leadXVel`, which `controllerStep` does not use. They are accepted as parameters and ignored. The field `x` is set by the constructor and never read.
- `controller.h` and its BESEE caller are not part of this model.
