# btutils in Dafny

A model of the computational core of **btutils**, a C++ back-testing
toolkit for R. It covers:

- **The trade simulator** (`src/processTrades.cpp`). `processShort` and
  `processLong` replay one open/high/low/close bar against a position's
  stop-loss, trailing stop and profit target. `processTrade` opens a
  position at the close of bar `ibeg` and replays the bars after it until a
  rule closes it, `maxDays` bars have passed or bar `iend` is reached.
  `processTrades` runs it for a table of trades.
- **Trade bookkeeping** (`src/processTrades.cpp`). `tradesFromIndicator`
  turns a -1/0/1 position indicator into entry/exit/position columns, and
  `calculateReturns` turns trades into per-bar returns, either relative or
  in dollars.
- **Indicator builders** (`src/indicator.cpp`):
  - `constructIndicator`, a state machine over long/short entry and exit
    signals;
  - `indicatorFromTrendline`, a reversal detector over a trend line and
    thresholds;
  - `zigZag`, a pivot tracker over closes;
  - `capTradeDuration`, which rewrites an indicator in place so that each
    position is held for a minimum and at most a maximum number of bars.
- **Series helpers** (`src/utils.cpp`): `locf`, which fills forward in
  place, and `leadingNAs`.
- **Scalars** (`src/common.h`): R's NA, `sign`, and `roundAny`, `floorAny`
  and `ceilAny`, which round a price to a tick.

A double that may be R's NA is the datatype `Common.Val = NA | Num(v)`.
Prices are unbounded `real`s. Integers are unbounded `int`s.

The source is mostly imperative, so each routine is modelled in three
parts:

1. A pure specification function. It is recursive, or it states the cell
   at index `i`.
2. An imperative method that follows the C++ loop by loop, with the same
   branches in the same order. Its `ensures` ties the result, or the new
   state of the array or object it changes, to that function.
3. Lemmas about the function that state what the routine promises.

Some things are updated in place in the C++:

- `TradeLocals` becomes the class `Bars.TradeLocals`. Its fields are
  changed by `ProcessShort` and `ProcessLong`, and `Value()` gives its
  value as the datatype `Bars.Locals`.
- The vectors rewritten by `locf` and `capTradeDuration` are `array<Val>`s
  in the model.
- Vectors the C++ resizes and fills are built in local arrays and returned
  as fresh sequences.

Modules:

| module | file | models |
|---|---|---|
| `Common` | common.dfy | `src/common.h`, and the NA run that `leadingNAs` counts |
| `Utils` | utils.dfy | `locf`, `leadingNAs` |
| `Bars` | bars.dfy | exit codes, `TradeLocals`, `processShort`, `processLong` |
| `Simulator` | simulator.dfy | `processTrade`, `processTrades` |
| `SimulatorFacts` | simulator_facts.dfy | what a simulated trade promises |
| `Trades` | trades.dfy | `tradesFromIndicator`, `calculateReturns` |
| `Indicator` | indicator.dfy | `constructIndicator`, `indicatorFromTrendline` |
| `ZigZag` | zigzag.dfy | `zigZag` |
| `CapDuration`, `CapDurationFacts` | capduration.dfy | `capTradeDuration` |

## Model

| member | source | states |
|---|---|---|
| Common.Sign | src/common.h:51-53 | The result is 1 exactly when t > 0, -1 exactly when t < 0, and 0 exactly when t == 0. |
| Common.Trunc | src/processTrades.cpp:745 | The C++ conversion of a double position to `int` truncates toward zero: for x >= 0 the result r satisfies r <= x < r + 1, and for x < 0 it satisfies r - 1 < x <= r. |
| Common.Round | src/common.h:36-39 | `::round` is within 0.5 of x, and halfway cases go away from zero. |
| Common.RoundAny | src/common.h:36-39 | `roundAny(d, a)` is a whole multiple of the accuracy `a`. |
| Common.FloorAny | src/common.h:41-44 | `floorAny(d, a)` is a whole multiple of `a`. |
| Common.CeilAny | src/common.h:46-49 | `ceilAny(d, a)` is a whole multiple of `a`. |
| Common.RoundAnyNear | src/common.h:36-39 | With a positive accuracy, rounding moves d by at most a/2. |
| Common.RoundAnyMonotone | src/common.h:36-39 | With a positive accuracy, roundAny never reverses the order of two prices. |
| Common.RoundMonotone | src/common.h:38 | `::round` is monotone. |
| Common.FloorAnyBounds | src/common.h:41-44 | floorAny(d, a) <= d < floorAny(d, a) + a for a > 0. |
| Common.CeilAnyBounds | src/common.h:46-49 | ceilAny(d, a) - a < d <= ceilAny(d, a) for a > 0. |
| Common.NumbersAfterLeading | src/processTrades.cpp:736-738 | After the leading NAs, a series without gaps holds numbers only; the same fact serves `capTradeDuration` (src/indicator.cpp:45) and `zigZag`. |
| Common.LeadingNACount | src/utils.cpp:56-63 | The count k is at most the length, every cell before k is NA, and cell k (if any) is a number. |
| Utils.Locf | src/utils.cpp:33-44 | After the in-place fill the array equals ForwardFilled of its old contents: cell 0 is kept, and each later cell is the fill step applied to the already-filled cell before it. |
| Utils.ForwardFilled | src/utils.cpp:33-44 | Same length as the input; cell 0 is kept; every later cell is the fill step from its filled predecessor. |
| Utils.LastNumBefore | src/utils.cpp:40-43 | The last number before i (or -1) is a number, and only NAs lie between it and i. |
| Utils.LocfFillsNA | src/utils.cpp:38-43 | NA mode: a filled cell is NA exactly when the input cell is NA and no number precedes it; an NA with a number before it takes the nearest such number. |
| Utils.LocfNoNAAfterNumber | src/utils.cpp:38-43 | NA mode: once a filled cell is a number, every later filled cell is a number. |
| Utils.LocfPreserves | src/utils.cpp:38-43 | NA mode: numbers and the leading NA run are left unchanged. |
| Utils.LocfValueMode | src/utils.cpp:34-37 | Value mode: a cell not equal to `value` is kept; a cell equal to `value` takes the previous filled cell when that is a number and is kept otherwise. |
| Utils.LocfValueRun | src/utils.cpp:34-37 | Value mode: a run of `value` after a number is filled with that number all the way. |
| Utils.LeadingNAs | src/utils.cpp:56-63 | Returns the number of leading NAs: all cells before it are NA, the cell at it is a number, and it equals LeadingNACount. |
| Bars.CodesDistinct | src/processTrades.cpp:35-48 | The fourteen exit codes are distinct and lie in 0..13. |
| Bars.ScaleMonotone | src/processTrades.cpp:146-150 | A price times a non-negative factor keeps the order of prices. |
| Bars.ShortBar | src/processTrades.cpp:97-232 | One bar of a short keeps the configuration, only widens the recorded price range and keeps the tick usable. |
| Bars.LongBar | src/processTrades.cpp:234-352 | The same for one bar of a long. |
| Bars.ShortInside | src/processTrades.cpp:153-229 | The part of a short bar after its open checks keeps the configuration and only widens the recorded range. |
| Bars.LongInside | src/processTrades.cpp:290-351 | The same for the part of a long bar after its open checks. |
| Bars.BarStep | src/processTrades.cpp:378-416 | Dispatch on the side (`pos < 0` is short) keeps the configuration and the tick. |
| Bars.TradeLocals.constructor | src/processTrades.cpp:73-95 | All three rules start inactive and every price field is zero. |
| Bars.TrailShort | src/processTrades.cpp:146-150 | The short trailing update in place equals ShortTrail of the old value. |
| Bars.TrailLong | src/processTrades.cpp:283-287 | The long trailing update in place equals LongTrail of the old value. |
| Bars.ProcessShort | src/processTrades.cpp:97-232 | The new locals, the exit flag and the exit price and reason are exactly those of ShortBar on the old locals. |
| Bars.ProcessLong | src/processTrades.cpp:234-352 | The new locals, the exit flag and the exit price and reason are exactly those of LongBar on the old locals. |
| Bars.BarFillPrice | src/processTrades.cpp:106-229 | Fill prices: exits at the open fill at the open, intrabar stops at the stop in force after the open update, targets at the target, and close exits at the close. A bar never reports a last-bar or day-limit exit, and each side only uses its own high/low codes. |
| Bars.BarStopFill | src/processTrades.cpp:146-197 | A bar moves the stop only when a trailing stop is active. An intrabar stop fills at the stop in force after the bar, and it is reported as a stop-loss exit exactly when no trailing stop is active. |
| Bars.LongCloseExits | src/processTrades.cpp:342-351 | A long never exits with STOP_LIMIT_ON_CLOSE or PROFIT_TARGET_ON_CLOSE. |
| Bars.ShortOpenFirst | src/processTrades.cpp:106-143 | A short exits at the open exactly when the open reaches the stop or the target, and the stop is reported when both are reached. |
| Bars.LongOpenFirst | src/processTrades.cpp:244-280 | The same for a long, with the comparisons mirrored. |
| Bars.ShortStopBeforeTarget | src/processTrades.cpp:153-190 | When the open is clear and the high reaches the stop in force, the short exits on the stop (at the high), even if the low also reaches the target. |
| Bars.LongStopBeforeTarget | src/processTrades.cpp:290-327 | When the open is clear and the low reaches the stop in force, the long exits on the stop (at the low). |
| Bars.BarFillInRange | src/processTrades.cpp:97-352 | On a well-formed bar whose recomputed trailing stop clears the open, the fill price (or the close, when nothing fires) lies inside the recorded min/max range. |
| Bars.ShortFillInRange | src/processTrades.cpp:97-232 | BarFillInRange for the short side. |
| Bars.LongFillInRange | src/processTrades.cpp:234-352 | BarFillInRange for the long side. |
| Bars.ShortInsideInRange | src/processTrades.cpp:153-229 | For a short whose open cleared every level, the intrabar or close fill lies inside the recorded range. |
| Bars.LongInsideInRange | src/processTrades.cpp:290-351 | The same for a long. |
| Bars.StopLevelMonotone | src/processTrades.cpp:146-150 | A stop level never decreases as its reference price rises (for a long, given a stop fraction of at most 1). |
| Bars.ShortTrailStep | src/processTrades.cpp:146-150 | One short trailing update keeps the stop at its distance from the running minimum, never raises it, and moves it only when the minimum falls. |
| Bars.LongTrailStep | src/processTrades.cpp:283-287 | One long trailing update keeps the stop at its distance from the running maximum, never lowers it, and moves it only when the maximum rises. |
| Bars.TrailRatchet | src/processTrades.cpp:97-352 | Over a whole bar a short's stop never rises and a long's never falls. It moves only when the running extreme does, and after a bar that closes nothing it still tracks the extreme. |
| Bars.ShortInsideRatchet | src/processTrades.cpp:193-197 | The update at the low of a short bar never raises the stop, moves it only on a new minimum, and keeps it tracking the minimum when nothing fires. |
| Bars.LongInsideRatchet | src/processTrades.cpp:330-334 | The update at the high of a long bar never lowers the stop, moves it only on a new maximum, and keeps it tracking the maximum when nothing fires. |
| Simulator.EntryLocals | src/processTrades.cpp:379-404 | The locals after entry can be trailed and carry the entry price. |
| Simulator.Replay | src/processTrades.cpp:406-423 | A replay keeps the configuration, only widens the range, and exits at a bar no later than `iend`. |
| Simulator.SetLevels | src/processTrades.cpp:379-404 | The in-place set-up of levels leaves the record equal to EntryLocals of the entry price. |
| Simulator.ReplayBars | src/processTrades.cpp:406-423 | The in-place bar loop ends with the locals, exit bar and fill of Replay from bar `ibeg + 1`. |
| Simulator.ProcessTrade | src/processTrades.cpp:355-479 | The reported exit bar, price, reason, gain, range, MAE and MFE are those of Simulate. |
| Simulator.ProcessTrades | src/processTrades.cpp:524-600 | Every output column is as long as the table, and row k holds Simulate of trade k. |
| SimulatorFacts.ReplayExits | src/processTrades.cpp:406-423 | A last-bar exit is at `iend` and its close. A day-limit exit is at `ibeg + maxDays` and its close. With a day limit the exit is never later than that bar, and never a last-bar exit when the limit comes first. |
| SimulatorFacts.SimulateExits | src/processTrades.cpp:355-479 | With ibeg < iend the exit is in (ibeg, iend]. Otherwise the trade exits on last at iend and its close. The day-limit facts of ReplayExits carry over. |
| SimulatorFacts.SimulateRange | src/processTrades.cpp:425-475 | The reported range contains the entry price, so MAE <= 0 <= MFE. |
| SimulatorFacts.ReplayExitInRange | src/processTrades.cpp:406-423 | Over well-formed bars a replay's exit price lies inside its recorded range. |
| SimulatorFacts.SimulateExitInRange | src/processTrades.cpp:355-479 | The exit price lies in [minPrice, maxPrice] and MAE <= gain <= MFE, given well-formed bars and trailing stops that clear the opens. |
| SimulatorFacts.ReplayRatchet | src/processTrades.cpp:406-416 | Over a replay a short's stop never rises and a long's never falls. |
| SimulatorFacts.TradeRatchet | src/processTrades.cpp:379-416 | The trailing stop starts on the entry price and ratchets over the whole trade. |
| SimulatorFacts.ReplayLongCloseExits | src/processTrades.cpp:450-460 | A replayed long never exits with STOP_LIMIT_ON_CLOSE or PROFIT_TARGET_ON_CLOSE. |
| SimulatorFacts.SimulateLongCloseExits | src/processTrades.cpp:433-475 | The same for a whole long trade. |
| SimulatorFacts.ReplayFillPrice | src/processTrades.cpp:406-423 | Open exits fill at the exit bar's open, and close/day-limit/last exits at its close. Targets fill at the target. Fixed stops fill at the fixed stop, and trailing stops at the stop in force at the exit. |
| SimulatorFacts.ReplayMarketFill | src/processTrades.cpp:406-423 | Open exits fill at the exit bar's open, after the entry bar; close, day-limit and last exits fill at the exit bar's close. |
| SimulatorFacts.ReplayLevelFill | src/processTrades.cpp:406-416 | Targets fill at the target. Fixed stops fill at the fixed stop and occur only without a trailing stop. Trailing stops fill at the stop in force at the exit. |
| SimulatorFacts.EntryRules | src/processTrades.cpp:379-404 | A trailing stop takes precedence over a stop-loss and both are never active together. Each level is the entry scaled by its fraction and rounded to the tick. The range starts at the entry. |
| SimulatorFacts.LongStopExample | src/processTrades.cpp:290-327 | A long entered at 100 with a 5% stop and a 0.01 tick meets a bar with open 100, high 101, low 94 and close 96. It exits at 95 with STOP_LIMIT_ON_LOW, a gain of -0.05, a range of 95 to 101, an MAE of -0.05 and an MFE of 0.01. |
| Trades.OpenAtEnd | src/processTrades.cpp:750-767 | A run is open at the last scanned cell exactly when the indicator is non-zero there. |
| Trades.SegsSegmented | src/processTrades.cpp:740-767 | The computed runs describe the indicator exactly: columns of equal length, each run non-empty and constant, position = truncated value, zero outside runs, and runs maximal. |
| Trades.SegsOpenAtEnd | src/processTrades.cpp:770-774 | The run open at the last scanned cell, if any, is the last run, and it closes at that index. |
| Trades.TradesSegmented | src/processTrades.cpp:727-777 | The trades of an indicator with at least two cells after its NAs are exactly its maximal non-zero runs, the last closed at the final index. |
| Trades.NoTradesWhenShort | src/processTrades.cpp:734-740 | With fewer than two cells after the leading NAs there are no trades. |
| Trades.TradesFromIndicator | src/processTrades.cpp:727-777 | The three returned columns are exactly Trades(indicator). |
| Trades.TradeBar | src/processTrades.cpp:750-767 | One bar of the loop extends the runs found so far by that bar: a change of value closes the open run and opens a new one unless the new value is 0. |
| Trades.ReturnsAt | src/processTrades.cpp:811-835 | After n trades each bar holds what the last trade writing it wrote (a bar return inside a trade, the exit-price return at its exit bar), or 0 when none did. |
| Trades.CalculateReturns | src/processTrades.cpp:802-836 | The returned series equals ReturnsAfter over all trades. |
| Indicator.StateRange | src/indicator.cpp:141-161 | The state machine's state is always -1, 0 or 1. |
| Indicator.FlatBeforeFirstEntry | src/indicator.cpp:137-139 | Before the first entry signal of either side, the state is flat. |
| Indicator.TransitionRules | src/indicator.cpp:142-158 | A long entry takes any state that is not long to long. A short entry takes a long, or a flat state without a long entry, to short. A long goes flat exactly on a long exit without a short entry, and a short exactly on a short exit without a long entry. A position with neither its own exit nor the opposite entry is kept. A flat state without an entry stays flat. The state changes only on some signal. |
| Indicator.ConstructIndicator | src/indicator.cpp:128-162 | The output is as long as the long entries, and cell i is the state after bar i. |
| Indicator.FirstValidFrom | src/indicator.cpp:182-185 | The first index where both inputs are numbers: none before it, both numbers at it. |
| Indicator.NumbersAfterFirstValid | src/indicator.cpp:182-185 | From the first valid index on, both inputs are numbers. |
| Indicator.TrendAt | src/indicator.cpp:191-230 | The detector's extreme index lies between the first bar after the first valid one and i, and its direction is -1, 0 or 1. |
| Indicator.TrendIndicator | src/indicator.cpp:178-231 | The value written is -1, 0 or 1, and it is 0 up to and including the first valid index. |
| Indicator.IndicatorFromTrendline | src/indicator.cpp:178-231 | The output is as long as the trend line, and cell i is TrendIndicator at i. |
| Indicator.FollowTrend | src/indicator.cpp:191-230 | From the bar after the first valid one, the loop writes TrendIndicator into every cell. |
| Indicator.TrendBar | src/indicator.cpp:195-230 | One bar of the loop takes the detector from its state at the bar before to TrendAt of this bar. |
| Indicator.DirectionSticks | src/indicator.cpp:195-230 | Once the detector has a direction it never returns to 0. |
| Indicator.TrendTracksExtreme | src/indicator.cpp:196-217 | In an up trend the trend line at `id` is the maximum of the cells from `id` to i, and in a down trend the minimum. The threshold is that extreme minus (up) or plus (down) its own threshold. |
| Indicator.TrackStep | src/indicator.cpp:196-217 | One step of the detector keeps the extreme index at or after the old one and keeps it the running maximum (up) or minimum (down). |
| Indicator.Reversal | src/indicator.cpp:196-217 | An up trend turns down exactly when the bar is below the running maximum and at or below that maximum minus its threshold; a down trend turns up exactly at the mirror image. A reversal moves the extreme to that bar. |
| ZigZag.NumbersAfterLead | src/indicator.cpp:263-267 | After the leading NAs of the changes, every change is a number. |
| ZigZag.FirstPivot | src/indicator.cpp:269-300 | The search returns a bar at or after its start, and a direction of ±1 when it finds one. |
| ZigZag.PivotOf | src/indicator.cpp:263-300 | The first pivot lies after the first number of the changes (or is the end), with direction ±1. |
| ZigZag.PivotIsFirstMove | src/indicator.cpp:269-300 | Every bar before the found pivot moves by no more than the change in either direction. The pivot bar moves by more, the rise checked before the fall. |
| ZigZag.ZigAt | src/indicator.cpp:302-398 | From the first pivot on the direction is ±1, the reported indicator equals it, and the extreme bar lies between the pivot and i. |
| ZigZag.LastTurn | src/indicator.cpp:341-385 | The last reversal at or before bar i lies between the pivot and i. |
| ZigZag.AgeSinceTurn | src/indicator.cpp:302-398 | Since the last reversal r: age = i - r, the inflection is close[r], and the direction has not changed. |
| ZigZag.ExtremeOfLeg | src/indicator.cpp:311-398 | The extreme bar lies in the current leg and holds its highest close (up) or lowest close (down). The target reported is the change at that bar. |
| ZigZag.TurnRule | src/indicator.cpp:311-398 | Bar i reverses exactly when it is beyond the extreme against the trend and moves from it by more than the target. A bar that keeps the direction and the extreme records its retracement, at most the target, as the correction. A new extreme moves the extreme bar to i and records a correction of 0. |
| ZigZag.CorrectionsNonNegative | src/indicator.cpp:355-395 | With positive closes (percent mode) or any closes (absolute mode), every correction is >= 0. |
| ZigZag.ZigZagOf | src/indicator.cpp:245-400 | All five outputs are as long as the closes. |
| ZigZag.Quiet | src/indicator.cpp:257-308 | The indicator is -1, 0 or 1. It is 0 with default outputs before the first pivot and non-zero from it on. With no change given, every bar reports the defaults. |
| ZigZag.Example | src/indicator.cpp:245-400 | Closes 10, 11, 13, 12, 9 with an absolute change of 1 from bar 1 give indicator 0,0,1,1,-1, inflections NA,NA,13,13,9, corrections 0,0,0,1,0 and ages 0,0,0,1,0. |
| ZigZag.ZigZag | src/indicator.cpp:245-400 | The five outputs are as long as the closes, each bar's cell is CellAt, and together they are ZigZagOf. |
| ZigZag.FirstState | src/indicator.cpp:269-300 | The search loop stops at FirstPivot's bar with its direction. |
| ZigZag.Step | src/indicator.cpp:312-398 | One bar of the main loop leaves the tracker and the bar's cell equal to ZigAt, and changes no other cell. |
| ZigZag.StepFacts | src/indicator.cpp:312-398 | One bar after the pivot: a kept direction ages the cell by one and keeps the inflection. A kept extreme keeps the tracker and the target, with the bar short of the extreme. A new extreme moves to this bar at or beyond the old one. A reversal restarts the age at 0 with this bar's close as the inflection. |
| ZigZag.Start | src/indicator.cpp:257-308 | Skipping the leading NAs and searching stops at the first pivot, writes its cell and leaves the tracker equal to ZigAt there. |
| ZigZag.Follow | src/indicator.cpp:310-398 | The main loop leaves every cell equal to CellAt. |
| ZigZag.Advance | src/indicator.cpp:312-398 | One pass writes the bar's cell, keeps the earlier cells, and keeps every bar of the current run on the tracked direction. |
| ZigZag.BackFill | src/indicator.cpp:337-339 | The back-fill of a reversal rewrites cells that already hold its direction, so the array is unchanged. |
| CapDuration.SignOf | src/indicator.cpp:54 | The sign of a cell is -1, 0 or 1, and non-zero for a non-zero number. |
| CapDuration.Out | src/indicator.cpp:47-103 | The scan writes exactly one cell per input cell from its start on. |
| CapDuration.Capped | src/indicator.cpp:32-104 | The capped indicator has the input's length. |
| CapDuration.Consumed | src/indicator.cpp:77-97 | Writing the scanned cell moves the scan one cell on. |
| CapDuration.CapTradeDuration | src/indicator.cpp:32-104 | After the in-place rewrite the array equals Capped of its old contents. |
| CapDuration.CapPosition | src/indicator.cpp:54-102 | One position, from its opening cell on, moves the scan past it to the next Seek. |
| CapDuration.SkipFlat | src/indicator.cpp:49 | Flat cells are passed over, stopping at a non-flat cell or the end. |
| CapDuration.MinStretch | src/indicator.cpp:65-81 | The minimum-cap loop advances the scan and ends at the end or with `daysIn` past the cap. |
| CapDuration.WaitStretch | src/indicator.cpp:83-89 | The wait loop flattens the changed signal and hands the scan back to Seek. |
| CapDuration.MaxStretch | src/indicator.cpp:91-99 | The maximum-cap loop consumes the position's cells and hands the scan back to Seek. |
| CapDuration.HoldStretch | src/indicator.cpp:100-102 | A position with both caps off is passed over and the scan returns to Seek. |
| CapDurationFacts.FromInputCons | src/indicator.cpp:77-94 | Prepending a cell that is the input, 0, 1 or -1 keeps the "cell comes from the input or a position value" property. |
| CapDurationFacts.OutCells | src/indicator.cpp:47-103 | Every cell the scan writes is the input cell, flat, or ±1. |
| CapDurationFacts.CappedShape | src/indicator.cpp:32-104 | The result keeps the length and the leading NAs. It is the identity when every cap is negative, and every cell is the input, 0, 1 or -1. A cell changed to anything but 0 is not the first cell after the leading NAs, and it takes the side of the cell before it: the only side ever written is that of the position being stretched. |
| CapDurationFacts.OutSides | src/indicator.cpp:47-103 | From any phase the scan can be in, every cell it changes to a non-zero value takes the side of the cell before it. Only the minimum stretch writes a side, and never on the position's opening cell. |
| CapDurationFacts.CappedSides | src/indicator.cpp:65-81 | With some cap on, a cell of the result that differs from the input and is not 0 comes after the first cell past the leading NAs and has the sign of the cell before it. |
| CapDurationFacts.MinRunOnSide | src/indicator.cpp:65-81 | Inside the minimum stretch every cell up to the cap is on the position's side. |
| CapDurationFacts.MinCapHolds | src/indicator.cpp:54-81 | A position opened at cell k is held on its side for at least its side's minimum cap. |
| CapDurationFacts.RunStart | src/indicator.cpp:92-98 | The start of the same-sign run holding k lies between the leading NAs and k. |
| CapDurationFacts.MaxCappedCons | src/indicator.cpp:92-98 | Prepending the max-capped cell keeps the max-capped description. |
| CapDurationFacts.MaxOnlyScan | src/indicator.cpp:47-103 | With no minimum cap on, the scan from any reachable point writes the max-capped cells. |
| CapDurationFacts.MaxCapOnly | src/indicator.cpp:32-104 | With no minimum cap on, each cell after the leading NAs is flat once its position is older than its side's maximum cap (when that is on) and unchanged otherwise. |
| CapDurationFacts.MaxCapExample | src/indicator.cpp:91-99 | 0,1,1,1,1,0,-1,-1 after an NA, with a long maximum of 2, becomes 0,1,1,0,0,0,-1,-1. |
| CapDurationFacts.MinCapOverridesExample | src/indicator.cpp:65-81 | With only a long minimum of 3 and no waiting, 1,-1,-1,-1 becomes 1,1,1,-1: the minimum stretch overwrites the short cells that follow. |
| CapDurationFacts.MinCapOutlastsMaxExample | src/indicator.cpp:65-99 | With a long minimum of 3 and a long maximum of 1, 1,1,1,1 becomes 1,1,1,0: the maximum cap only applies after the minimum stretch. |
| CapDurationFacts.WaitExample | src/indicator.cpp:65-99 | 1,-1,-1,-1,1 with a long minimum of 2: waiting for a new signal gives 1,1,0,0,1, and not waiting gives 1,1,-1,-1,1. |

## Left out

- `laguerreFilter` (`src/utils.cpp`) is floating-point filtering with no
  control logic worth modelling. It is not part of this model.
- The `*Interface` wrappers convert between R and C++ vectors, and the
  `DEBUG_MSG` logging writes to the R console. Both are left out.
- IEEE doubles are modelled as exact reals. NA is a datatype case rather
  than a NaN, so comparisons with NA are not modelled. Where the C++ would
  compare with a NaN, the model's preconditions exclude an NA.
- Simulator.ProcessTrade and Simulator.EntryLocals require a non-zero
  tick whenever a level is set (Simulator.TickOk). Bars.ProcessShort and
  Bars.ProcessLong require one while a trailing stop is active
  (Bars.CanTrail). The C++ accepts a zero tick. There
  `roundAny(x, 0)` is NaN, and every comparison with that level is false,
  so that stop or target never fires. The model has no NaN, so it excludes
  this case.
- `int` overflow of bar indexes and day counts is not modelled.
- Outputs the C++ appends to or resizes from the caller's vectors are
  returned as fresh sequences. The C++ functions are only correct when
  those vectors start empty; the model always starts from empty ones.
- Simulator.ReplayBars: the C++ writes the bar loop of `processTrade`
  twice, once per side. The model writes it once and selects the side
  with `pos < 0`.
- Trades.CalculateReturns: the C++ writes the loop once per return mode.
  The model writes it once, with BarReturn choosing the mode.
- SimulatorFacts.SimulateExitInRange is conditional. It requires that the
  trailing stop recomputed at each open lies beyond that open, because
  tick rounding can carry a fresh trailing stop across the open, which
  places the fill outside the recorded range.
- CapDuration.CapTradeDuration, Trades.TradesFromIndicator and
  ZigZag.ZigZag require NoGaps: no NA after the first number. The C++
  handles NaN comparisons there only by accident.
- Indicator.IndicatorFromTrendline, Indicator.FollowTrend,
  Indicator.TrendAt and Indicator.TrendIndicator require TrendPre: NoGaps
  on the trend line and on the thresholds over its length. After the first
  valid index the C++ would compare with a NaN.
- ZigZag.ZigZag also requires non-zero closes in percent mode, because
  the percent move divides by a close.
- CapDuration.CapPosition: when the sign of a cell is 0, the C++ reads the
  uninitialised `minCap`/`maxCap`. Such cells cannot occur after NoGaps,
  so the model skips them.
- CapDurationFacts.MaxCapOnly is proved only when both minimum caps are
  0 or less. With a minimum cap on, the C++ promises do not hold in
  general. The minimum stretch overwrites the cells of the next run, so a
  side whose caps are both off is not always left unchanged
  (CapDurationFacts.MinCapOverridesExample). The maximum cap is applied
  only after the minimum stretch, so cells older than the maximum can
  survive (CapDurationFacts.MinCapOutlastsMaxExample).
- CapDurationFacts.MinCapHolds states the minimum hold on the scan from
  an opening cell, not on the final array directly.

Places where the code does something other than its documentation would
suggest. The model follows the code:

- `processTrade` with `ibeg >= iend` exits on the last bar, at `iend` and
  its close, so the exit is not always after the entry.
- In `zigZag` the first pivot is the bar where the first move exceeds the
  change, not the bar the move started from. `age` counts bars since the
  last reversal and is not reset on a new extreme. The back-fill at a
  reversal rewrites cells that already hold the old direction, so it
  changes nothing.
