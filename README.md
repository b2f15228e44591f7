# Sea-sensor dashboard: boundary-exit estimator and dashboard logic

This project models the logic of a dashboard that watches underwater sensors.
Each sensor reports a position, a water velocity and a thruster velocity. All
three are 3-vectors. The dashboard estimates how long each sensor will take to
leave the monitoring cube [-10000, 10000]^3. It colours the sensor's card by
that estimate, and it lets an operator type thrust increments for a selected
sensor.

Modules:

- `LeaveArea` (`leave_area.dfy`) models the estimator `countLeaveArea`.
  - `CountLeaveArea` is a pure specification. It validates the lengths, then
    returns "already out" if any axis is out, then the minimum crossing time
    over the axes.
  - `CountLeaveAreaLoop` is the source's loop. It keeps the running
    `minPositiveTime` and returns early for an axis that is out. It is proved
    equal to the specification on every input.
  - The lemmas state the properties of the estimate: validation, the
    already-out case, "never", minimality, soundness of the trajectory,
    independence of axis order, and the worked scenarios.
  - The result type `Estimate = Invalid | AlreadyOut | Never | Time(t)` stands
    for the four return statements: "Invalid input data", the early "0.00",
    "Never" and `t.toFixed(2)`. A `Time(t)` with t < 0.005 also prints
    "0.00"; `Dashboard.PrintedZero` states when the text is "0.00".
- `Dashboard` (`dashboard.dfy`) models the component in `src/App.tsx`.
  - It holds the card's severity tier and the "sensor lost" click guard.
  - The class `App` holds the component state: `sensors`,
    `selectedSensorName`, `axisX/axisY/axisZ` and `isConfirming`.
  - Each handler is a method, and each method is one atomic transition.
- `ProgressBar` (`progress_bar.dfy`) models the clamped `percent`, the
  `isNegative` side and the fill width of the temperature bar.
- `Maybe` (`option.dfy`) and `MathOps` (`math_ops.dfy`) are small helpers.
  They hold `Option`, and `Math.abs`, `Math.min` and `Math.max` over reals.

`src/App.tsx:101-147` is a copy of `src/scripts/checkSesnorLeaveArea.ts:1-45`.
The two differ only in line wrapping. One method, `LeaveArea.CountLeaveAreaLoop`,
models both. `Dashboard.App.ClickCard` calls it where the component calls its
own copy. So the component's copy agrees with the script on every input.

Behaviour of the code worth knowing, which the model follows as written:

- In the code, `parseFloat` turns "Never" and the invalid-input text into
  NaN. Every comparison with NaN is false, so both cards get the green
  (safest) border.
  `Dashboard.CardForEstimate` states this.
- The tier is chosen from the estimate after `toFixed(2)` and `parseFloat`.
  So a positive time under 0.005 rounds to 0 and shows as "sensor lost".
  Likewise, in the model a time of 9.995 already counts as yellow and 29.995
  as green (see "Decimal text" under Left out).
- Soundness ("stays inside until the estimate") does not hold for an axis
  whose speed is nonzero but at most the epsilon 1e-10. The estimator ignores
  such an axis. Over a long estimate it can still drift out first.
  `LeaveArea.SlowDriftLeavesBeforeEstimate` gives such an input. The threshold
  is kept as written, and soundness is proved for the axes the estimator
  tracks.
- `checkInputs` reads the axis values from before the edit. The first number
  typed into a fresh modal therefore leaves the button on "Close".
  `Dashboard.StaleCheckTrace` shows this, and also the all-zero increment
  that "Confirm" can then send.

## Model

| member | source | states |
|---|---|---|
| `LeaveArea.AxisSpeeds` | src/scripts/checkSesnorLeaveArea.ts:17 | the axis speed on each axis is water speed plus thruster speed, for as many axes as the inputs have |
| `LeaveArea.Candidate` | src/scripts/checkSesnorLeaveArea.ts:34-35 | a boundary time counts as a candidate exactly when it is strictly positive; otherwise it is Infinity (`None`) |
| `LeaveArea.EarlierOf` | src/scripts/checkSesnorLeaveArea.ts:33-36 | `Math.min` with Infinity: the result is one of the two arguments, at most each finite one, and Infinity only when both are |
| `LeaveArea.AxisCrossing` | src/scripts/checkSesnorLeaveArea.ts:29-36 | an axis's crossing time, when there is one, is strictly positive |
| `LeaveArea.CountLeaveAreaLoop` | src/scripts/checkSesnorLeaveArea.ts:1-45 | the loop with the running minimum and the early "0.00" returns exactly the minimum-over-axes specification `CountLeaveArea`, on every input |
| `LeaveArea.AxisCrossingIsExitTime` | src/scripts/checkSesnorLeaveArea.ts:29-36 | a moving axis strictly inside has a crossing time, equal to (10000 - p)/s for s > 0 and (-10000 - p)/s for s < 0, and strictly positive |
| `LeaveArea.StillAxisHasNoCrossing` | src/scripts/checkSesnorLeaveArea.ts:29 | an axis with speed magnitude at most epsilon contributes no crossing time |
| `LeaveArea.AxisInsideUntilExit` | src/scripts/checkSesnorLeaveArea.ts:22-31 | an axis moving from inside stays in [-10000, 10000] at every time from 0 up to its exit time |
| `LeaveArea.AxisOnFaceAtExit` | src/scripts/checkSesnorLeaveArea.ts:30-31 | at its exit time the axis is exactly on +10000 or -10000 |
| `LeaveArea.EarliestCrossingIsEarliest` | src/scripts/checkSesnorLeaveArea.ts:19-41 | the running minimum is Infinity iff no axis has a time; otherwise it is one of the axis times and at most every one of them |
| `LeaveArea.EarliestIsUnique` | src/scripts/checkSesnorLeaveArea.ts:38-41 | the minimum depends only on which times occur, not on their order |
| `LeaveArea.InvalidExactlyOnBadLength` | src/scripts/checkSesnorLeaveArea.ts:9-15 | the result is the validation failure iff some input vector's length is not 3 |
| `LeaveArea.AlreadyOutExactlyWhenOutside` | src/scripts/checkSesnorLeaveArea.ts:21-27 | with valid lengths the result is `AlreadyOut` (the early "0.00" return of line 26) iff some coordinate is >= 10000 or <= -10000, whatever the velocities |
| `LeaveArea.NeverExactlyWhenNoAxisMoves` | src/scripts/checkSesnorLeaveArea.ts:29-44 | strictly inside the cube, the result is "Never" iff every axis's combined speed has magnitude at most 1e-10; otherwise it is a finite time |
| `LeaveArea.TimeIsPositive` | src/scripts/checkSesnorLeaveArea.ts:38-44 | a finite result is strictly positive |
| `LeaveArea.TimeIsEarliestExit` | src/scripts/checkSesnorLeaveArea.ts:19-44 | a finite result comes from valid input strictly inside; it is positive, equals the exit time of some moving axis, and is at most the exit time of every moving axis |
| `LeaveArea.StaysInsideUntilExit` | src/scripts/checkSesnorLeaveArea.ts:21-44 | for every time from 0 up to a finite result, every tracked axis (zero speed or speed above epsilon) stays in [-10000, 10000] |
| `LeaveArea.OnFaceAtEstimate` | src/scripts/checkSesnorLeaveArea.ts:30-44 | at the time of a finite result, some axis is exactly on a face of the cube |
| `LeaveArea.SlowDriftLeavesBeforeEstimate` | src/scripts/checkSesnorLeaveArea.ts:29 | counterexample to soundness for untracked axes: an axis drifting at 1e-11 is out of the cube at the reported time 5e13 |
| `LeaveArea.SwapSpeedsInvariant` | src/scripts/checkSesnorLeaveArea.ts:17 | exchanging water speed and thruster speed never changes the result |
| `LeaveArea.AxisPermutationInvariant` | src/scripts/checkSesnorLeaveArea.ts:21-42 | reordering the axes in the same way in all three vectors never changes the result |
| `LeaveArea.Scenarios` | src/scripts/checkSesnorLeaveArea.ts:1-45 | the six worked inputs: all zero gives Never; (9999,0,0) at speed 1 gives 1; (10000,0,0) gives 0.00; opposite speeds give Never; (5000,5000,5000) at speed 1 gives 5000; a length-2 position gives the validation failure |
| `Dashboard.RoundToHundredths` | src/scripts/checkSesnorLeaveArea.ts:44 | `toFixed(2)` read back by `parseFloat` yields a multiple of 0.01 within half a hundredth of the time, ties rounded up |
| `Dashboard.LeaveTime` | src/App.tsx:184-190 | parsing the estimate: "Never" and the invalid-input text give NaN, the early "0.00" gives 0, and a time gives its two-decimal rounding `RoundToHundredths(t)` (within half a hundredth, a multiple of 0.01) |
| `Dashboard.PrintedZero` | src/scripts/checkSesnorLeaveArea.ts:26-44 | the estimate reads back as 0 iff it is the early "0.00" or a time below 0.005, which `toFixed(2)` also prints as "0.00" |
| `Dashboard.CardFor` | src/App.tsx:192-204 | a leave time <= 0 gives the card "sensor lost" with temperature 0 and a red border; otherwise the card keeps name and temperature; red iff < 10, yellow iff in [10, 30), green iff NaN or >= 30 |
| `Dashboard.SensorCard` | src/App.tsx:183-204 | the card drawn for a sensor: "sensor lost" with temperature 0 and red iff it is out or leaves in under 0.005, and otherwise the sensor's own name and temperature; red iff out or under 9.995; green iff "Never", invalid input, or from 29.995 |
| `Dashboard.CardForEstimate` | src/App.tsx:184-204 | by estimate: Never and invalid input show green, already out shows lost, a time below 0.005 shows lost, [0.005, 9.995) red, [9.995, 29.995) yellow, from 29.995 green |
| `Dashboard.LostCardHasEmptyBar` | src/App.tsx:196-220 | a lost card's temperature bar is empty |
| `Dashboard.FindByName` | src/App.tsx:92-94 | `find` by name returns nothing iff no sensor has the name, and otherwise the first sensor with that name |
| `Dashboard.App.constructor` | src/App.tsx:21-28 | initial state: no sensors, no selection, all increments 0, not confirming |
| `Dashboard.App.SelectedSensor` | src/App.tsx:160-163 | the modal's sensor is a listed sensor with the selected name, and one is found whenever the selection names a listed sensor |
| `Dashboard.App.CheckInputs` | src/App.tsx:46-52 | confirming iff some increment is nonzero; nothing else changes |
| `Dashboard.App.HandleInputChange` | src/App.tsx:30-44 | a non-number changes nothing; a number sets only the field it names; confirming afterwards iff some increment was nonzero before the edit |
| `Dashboard.App.HandleAction` | src/App.tsx:54-65 | when confirming: emits the payload (name, axisX, axisY, axisZ), stops confirming and keeps the selection; otherwise emits nothing and clears the selection; increments and sensors unchanged |
| `Dashboard.App.OpenModal` | src/App.tsx:149-151 | selects the given name and changes nothing else |
| `Dashboard.App.CloseModal` | src/App.tsx:153-158 | resets the three increments to 0 and clears the selection; the confirmation flag is untouched |
| `Dashboard.App.ReceiveSensors` | src/App.tsx:90-99 | after a new list arrives, the selection is kept if a sensor of that name is in the new list and cleared otherwise, so it always names a listed sensor or is null |
| `Dashboard.App.ClickCard` | src/App.tsx:183-214 | a click opens the modal for the sensor iff its card's title is not "sensor lost", else the selection is unchanged; the estimate comes from the component's copy of `countLeaveArea` (lines 101-147) |
| `Dashboard.StaleCheckTrace` | src/App.tsx:30-52 | the first number typed leaves the button on "Close"; setting it back to 0 leaves "Confirm", which then sends (0, 0, 0) |
| `ProgressBar.Percent` | src/progressBar.tsx:15 | for max > 0, percent is in [0, 100]; it is 100 when abs(value) >= max and abs(value)/max*100 below that |
| `ProgressBar.BarFill` | src/progressBar.tsx:15-33 | the bar grows left iff value < 0; its width is exactly percent/2, lies in [0, 50], is 50 iff abs(value) >= max, and is 0 iff value is 0 |
| `ProgressBar.PercentIgnoresSign` | src/progressBar.tsx:15 | value and -value give the same percent |
| `ProgressBar.PercentMonotone` | src/progressBar.tsx:15 | a larger magnitude never gives a smaller percent |
| `ProgressBar.NegationMirrorsBar` | src/progressBar.tsx:16-33 | negating a nonzero value keeps the width and flips the side |

## Left out

- Floating point: positions and speeds are reals. IEEE-754 rounding of the sums and quotients, `Infinity` and NaN are not modelled. `Option` stands for `Infinity` and NaN.
- Decimal text: `toFixed(2)` and `parseFloat` are modelled as exact round-half-up to hundredths over the reals. The binary value of a double can make `toFixed` round a printed tie down.
- LeaveArea.StaysInsideUntilExit: holds only for axes whose speed is zero or above epsilon. This is weaker than "every axis", which is false as the code is written (see `LeaveArea.SlowDriftLeavesBeforeEstimate`).
- LeaveArea.AlreadyOutExactlyWhenOutside: characterises the early "0.00" return only. A `Time(t)` with t < 0.005 is a different value in the model but the same text "0.00" in the code; `Dashboard.PrintedZero` states when the text is "0.00".
- Dashboard.RoundToHundredths and Dashboard.LeaveTime: defined for non-negative times only. Every estimate satisfies this (`LeaveArea.TimeIsPositive`).
- The socket.io connection, the initial fetch, the 1000 ms polling timer and their teardown: these are I/O and timers. A new list arriving is the input event `ReceiveSensors`.
- The HTTP thruster request (`updateThrusterSpeed`, `axios.post`) and its swallowed errors: these are network calls. `HandleAction` returns the payload it would send instead.
- React's deferred state updates and rendering order: each handler is one atomic step. The selection-cleanup effect runs in the same step as the list update.
- JSX, Tailwind classes, the modal's presentation component and the `cn` utility: presentation only.
- The progress bar with `max <= 0`: it divides by zero, so `max > 0` is required.
- `vite.config.ts`: build configuration.
