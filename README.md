# Horizontal input double-click checker, in Dafny

`HorizontalInputDoubleClickChecker` turns a horizontal axis value, sampled once
per frame, into a left and a right click counter. A counter of 2 or more means
a double click on that end. Each call to `ProcessInput` puts the value in one
of five bands:

| band | values |
|---|---|
| LeftEnd | `x < -0.8` |
| LeftSide | `-0.8 <= x < -0.2` |
| Middle | `-0.2 <= x < 0.2` |
| RightSide | `0.2 <= x < 0.8` |
| RightEnd | `0.8 <= x` |

The call then updates these fields:

- the two "last time not in that side" timestamps;
- the `returnedToMiddle` gate;
- at an end band: the opposite counter always becomes 0;
- at an end band, when a click is counted: that end's counter and the time of the last counted click.

Every call ends with the double-click check. It zeroes both counters once the
double-click window has passed since the last counted click.

The project has three modules:

- `ClickSpec` (`click_spec.dfy`) holds the detector as values.
  - `Classify` gives the band of a sample.
  - `Step` is one `ProcessInput` call. It is the band update `ApplyRegion` followed by the check `Decay`.
  - `Reset` is one `ResetClickCount` call.
  - `Run` applies a sequence of calls.
  - The counters have type `Int32`, because C#'s `int` wraps around on `++`.
- `ClickChecker` (`click_checker.dfy`) holds the class `HorizontalInputDoubleClickChecker`.
  - Its fields are the source's eight private fields. The two windows are `const`, because the source sets them only in the constructor.
  - Its methods update those fields in place, line by line as the source does.
  - Each method is proved to produce exactly `Step` or `Reset` of the old field values.
  - Each method keeps the object invariant that the two counters are never both positive.
- `ClickProperties` (`click_properties.dfy`) holds the lemmas about those functions. Some are about one call; others hold for every sequence of calls.

The ambient clock `Time.time` is an explicit `now: real` argument of `ProcessInput`.
The input value, the times and the windows are `real`. The thresholds are the exact
rationals -0.8, -0.2, 0.2 and 0.8.

What the source's own doc comments say, and how the code behaves against them:

- The comment on `lastClickCountedTime` (HorizontalInputDoubleClickChecker.cs:34) says the count is
  initialized "if there is no next count in doubleClickChanceTime".
  - The code does zero both counters after a pause. A counted click closes the `returnedToMiddle` gate, so the next call cannot count.
  - If that call comes more than the double-click window after the click, the check at :124 zeroes both counters.
  - `DecayAfterPause` and `GateClosedDecay` state this.
  - The check runs only against the time of the last click, after the band update. So a middle sample inside the window reopens the gate, and a click more than the window after the previous click then continues the count instead of starting over.
  - `StaleClickContinuesCount` shows a count going from 2 to 3 on a click 0.21 s after the previous one with a 0.2 s window. This goes against the comment at :34.
- The comments at :38 and :42 call the timestamps "the last time the x value in middle or right side" and "in middle or left side". The code agrees.
  - `lastNotInLeftSideTime` is refreshed on Middle, RightSide and RightEnd samples, and not on LeftSide or LeftEnd samples.
  - `lastNotInRightSideTime` is the mirror image.
  - So each is the last time the value was outside the whole half, not only outside the end band.
- The comment at :54-56 says `returnedToMiddle` becomes true in the middle and false at either end, and no click counts without it. `StepReturnedToMiddle` and `NoClickWithoutMiddle` state this.
- The comment at :11 recommends windows of (0.1, 0.2). The constructor validates nothing, so the model accepts any real windows. `CountedClickSurvivesDecay` assumes a non-negative double-click window where it needs one.
- `ProcessInput` has no precondition on `now`: the code does not rely on time increasing, and no lemma assumes that `now` never decreases.

## Model

| member | source | states |
|---|---|---|
| ClickSpec.Classify | HorizontalInputDoubleClickChecker.cs:77-121 | each value falls in exactly one of the five bands, and each band is the interval its threshold pair bounds |
| ClickProperties.ClassifyMonotone | HorizontalInputDoubleClickChecker.cs:77-108 | bands are ordered along the axis: a larger value is never in a band further left |
| ClickProperties.StepDependsOnlyOnBand | HorizontalInputDoubleClickChecker.cs:77-121 | the transition depends on the sample value only through its band, never on history |
| ClickChecker.HorizontalInputDoubleClickChecker.constructor | HorizontalInputDoubleClickChecker.cs:15-19 | stores the two windows; counters 0, gate false, all times 0 (C# defaults); invariant holds |
| ClickChecker.HorizontalInputDoubleClickChecker.LeftClickCount | HorizontalInputDoubleClickChecker.cs:24 | a positive left count implies the right count is not positive |
| ClickChecker.HorizontalInputDoubleClickChecker.RightClickCount | HorizontalInputDoubleClickChecker.cs:28 | a positive right count implies the left count is not positive |
| ClickChecker.HorizontalInputDoubleClickChecker.ResetClickCount | HorizontalInputDoubleClickChecker.cs:62-66 | both counters become 0; only the two counter fields may change |
| ClickChecker.HorizontalInputDoubleClickChecker.ProcessInput | HorizontalInputDoubleClickChecker.cs:72-129 | the new fields are exactly Step of the old ones; the counters stay not-both-positive; both are 0 when the double-click window has passed since the last counted click |
| ClickChecker.DoubleClickScenario | HorizontalInputDoubleClickChecker.cs:72-129 | on the object, two flick-and-return cycles on the left end give a left count of 2 and a right count of 0, and a middle sample after the 0.2 s window zeroes the left count |
| ClickProperties.StepKeepsNotBothPositive | HorizontalInputDoubleClickChecker.cs:77-128 | LeftEnd zeroes the right counter, RightEnd zeroes the left one, and no call makes both positive |
| ClickProperties.StepCounterChanges | HorizontalInputDoubleClickChecker.cs:77-128 | in one call a counter stays, becomes 0, or is incremented by a click counted on its own end, which sets the last click time to now |
| ClickProperties.StepCounterRisesByAtMostOne | HorizontalInputDoubleClickChecker.cs:83-118 | below the int maximum: counters stay non-negative and rise by at most 1, and only when the gate is open and now is within the click window |
| ClickProperties.StepReturnedToMiddle | HorizontalInputDoubleClickChecker.cs:89-120 | the gate is false after an end sample, true after a middle sample, unchanged by a side sample |
| ClickProperties.StepTimestamps | HorizontalInputDoubleClickChecker.cs:80-111 | Middle refreshes both timestamps; LeftEnd and LeftSide refresh only the right one; RightSide and RightEnd refresh only the left one |
| ClickProperties.StepDecay | HorizontalInputDoubleClickChecker.cs:123-128 | past the double-click window, both counters are 0 after the call, judged by the last click time after the band update; a call that counts no click keeps that time |
| ClickProperties.CountedClickSurvivesDecay | HorizontalInputDoubleClickChecker.cs:83-128 | with a non-negative double-click window, a click counted in a call is not undone by that call's check |
| ClickProperties.GateClosedDecay | HorizontalInputDoubleClickChecker.cs:77-128 | with the gate closed, a sample taken after the double-click window has passed since the last click zeroes both counters, whatever its band |
| ClickProperties.DecayAfterPause | HorizontalInputDoubleClickChecker.cs:83-128 | the call after a counted click, when it comes more than the double-click window later, leaves both counters 0 |
| ClickProperties.MiddleDwell | HorizontalInputDoubleClickChecker.cs:96-128 | a middle sample keeps the counters or zeroes both, keeps the last click time, and repeating it at the same time changes nothing |
| ClickProperties.ResetKeepsMemory | HorizontalInputDoubleClickChecker.cs:62-66 | a reset zeroes both counters and leaves the timestamps, the gate and the last click time unchanged |
| ClickProperties.RunKeepsNotBothPositive | HorizontalInputDoubleClickChecker.cs:62-128 | over any sequence of samples and resets, the counters are never both positive |
| ClickProperties.RunCountersBounded | HorizontalInputDoubleClickChecker.cs:62-128 | over n calls, non-negative counters stay non-negative and grow by at most n, while they cannot reach the int maximum |
| ClickProperties.FreshDetectorCounters | HorizontalInputDoubleClickChecker.cs:15-128 | from a fresh detector, after fewer than 2^31 calls, both counters are non-negative and at least one is 0 |
| ClickProperties.NoClickWithoutMiddle | HorizontalInputDoubleClickChecker.cs:77-121 | with the gate closed, calls without a middle sample count no click: the gate stays closed, the last click time is unchanged, and each counter keeps its value or is 0 |
| ClickProperties.FlickWithoutMiddleDoesNotCount | HorizontalInputDoubleClickChecker.cs:103-121 | RightEnd, RightSide, RightEnd with no middle sample in between: the second RightEnd counts no click |
| ClickProperties.DoubleClickTrace | HorizontalInputDoubleClickChecker.cs:77-128 | with windows 0.1 and 0.2: left flick, middle, left flick, middle, left flick gives left 2 and right 0; a middle sample at 0.35 zeroes the left count; a RightEnd sample right after zeroes it too |
| ClickProperties.StaleClickContinuesCount | HorizontalInputDoubleClickChecker.cs:34-128 | with a middle sample inside the window between them, a click 0.21 s after the previous click (window 0.2 s) takes the count from 2 to 3, although the comment at :34 says the count is initialized when no next count comes within the window |
| ClickProperties.CounterWrapsAtIntMax | HorizontalInputDoubleClickChecker.cs:83-87 | a click counted when a counter is at the int maximum wraps it to the int minimum |

## Left out

- `using UnityEngine` and the `MonoBehaviour.Update` loop that calls `ProcessInput`: they are host plumbing. The clock `Time.time` is the `now` argument.
- IEEE single-precision `float`: values, times and windows are exact reals. For example, `-0.8f` is not exactly -0.8, and float sums can round.
- NaN: there is no real NaN, so the model does not show two behaviours.
  - A NaN `inputX` fails every comparison of the classification chain, so the code sends it to the RightEnd branch. That zeroes `leftClickCount` and may count a right click.
  - A NaN `now` makes all three timing comparisons of that call false (:83, :114, :124). That call counts no click and does not decay.
    The NaN is also stored in the timestamps that call assigns (:80, :94, :99-100, :106, :111), so it affects later calls too.
  - A NaN `clickChanceTime` occurs only at :83 and :114, so no click is ever counted. The check at :124 still runs.
  - A NaN `doubleClickChanceTime` occurs only at :124, so clicks are still counted but the counters never decay.
- The commented-out `Debug.Log` line in `ProcessInput`: it is logging and I/O.
- ClickProperties.StepCounterRisesByAtMostOne: proves non-negativity and the "+1 at most" bound only while the counter is below the `int` maximum, because the C# `++` wraps there (shown by `CounterWrapsAtIntMax`).
- ClickProperties.RunCountersBounded: proves non-negativity only for runs that cannot reach the `int` maximum, for the same reason.
