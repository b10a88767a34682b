# Interstellar landing page: core logic in Dafny

The landing page is mostly visual decoration. Three components hold logic with
something to prove, and this project models those three:

- **Relativity engine** (`components/RelativityEngine.tsx`). A gravity slider
  drives a piecewise-linear time-dilation factor. A 100 ms interval advances a
  ship clock by 0.1 s and an earth clock by 0.1 s times the factor. The gravity
  is read from a shared cell at every firing. Pause/Resume and Reset act on the
  clocks, and two pure formatters render them. Module `Relativity` holds the
  factor, the clock state as a value (`Clocks`) with one step function per
  action, the formatters, and the class `RelativityEngine` with fields `ship`,
  `earth`, `gravity` and `running`. Each of the class's methods is specified by
  its step function.
- **Docking alignment latch** (`components/DockingMechanism.tsx`). Smoothed
  scroll progress is mapped to a rotation, an opacity and a scale. Module
  `Mapper` holds the clamped piecewise-linear interpolation that these maps
  use. Module `Docking` holds the latch: every rotation change sets `locked` to
  "strictly between 85 and 95 degrees" until the alignment is confirmed.
  Confirming is allowed only while locked. It latches `confirmed`, freezes the
  displayed rotation at 90 and schedules one deferred advance. The module also
  models the HUD readouts and the class `DockingMechanism`.
- **Navigation console** (`components/NavigationConsole.tsx`). There are five
  star systems with unique ids. A click selects a system, and "lock" copies the
  selection into the lock. The button reads "Target Locked" when the lock
  equals a present selection. Module `Navigation` holds these and the class
  `NavigationConsole`.

Arithmetic is on exact Dafny `real`s. JavaScript's truncating `%` (`JsRem`) and
the truthiness of a `number | null` (`Truthy`) are written out explicitly.

Facts about the code that shape the model:

- The alignment window is the open interval `85 < r < 95`
  (components/DockingMechanism.tsx:32).
- Gravity is not clamped on write (components/RelativityEngine.tsx:186-190).
  The slider's `min`/`max` bound it, which appears here as the precondition
  `100 <= g <= 200` of `SetGravity`.
- The deferred advance is a bare `setTimeout` that is never cleared
  (components/DockingMechanism.tsx:45-50). The model records only that one
  advance was scheduled.
- The confirmation state is the two booleans `locked` and `confirmed` plus
  `frozenRotation` (components/DockingMechanism.tsx:7-9). `Consistent` says
  which combinations can be reached.

## Model

| member | source | states |
|---|---|---|
| Relativity.Dilation | components/RelativityEngine.tsx:18-24 | the factor is at least 1, and it equals 1 exactly when g <= 100 |
| Relativity.Slope | components/RelativityEngine.tsx:20-23 | each piece's slope is in [0, 10000], and it is positive exactly above g = 100 |
| Relativity.SlopeMonotone | components/RelativityEngine.tsx:19-23 | the slopes of the pieces increase: 0, 0.05, 0.5, 100, 10000 |
| Relativity.DilationBreakpoints | components/RelativityEngine.tsx:19-23 | the factor is 1, 2, 17 and 3017 at g = 100, 120, 150 and 180, and just right of each breakpoint it is that value plus the next piece's slope times the distance, so the pieces join; dilation(130) = 7 (continuity overall is DilationLipschitz) |
| Relativity.DilationChord | components/RelativityEngine.tsx:18-24 | convexity: over any [a, b] the rise lies between slope(a)·(b−a) and slope(b)·(b−a) |
| Relativity.DilationMonotone | components/RelativityEngine.tsx:18-24 | the factor is non-decreasing |
| Relativity.DilationStrictlyIncreasing | components/RelativityEngine.tsx:20-23 | the factor is strictly increasing from g = 100 on |
| Relativity.DilationLipschitz | components/RelativityEngine.tsx:18-24 | continuity: the factor moves by at most 10000 times the change in g |
| Relativity.IsExtreme | components/RelativityEngine.tsx:70 | the extreme warning is on exactly when the factor exceeds 17 |
| Relativity.IsCritical | components/RelativityEngine.tsx:71 | a critical gravity is always also extreme |
| Relativity.WarningLevels | components/RelativityEngine.tsx:70-71 | critical (g > 180) implies extreme (g > 150); extreme means factor > 17, critical means factor > 3017 |
| Relativity.ExponentialNotationThreshold | components/RelativityEngine.tsx:138 | the readout uses fixed notation (factor < 1000) exactly when g < 159.83 |
| Relativity.Initial | components/RelativityEngine.tsx:6-9 | the mounted state (clocks 0, gravity 100, running) satisfies the invariant |
| Relativity.TickStep | components/RelativityEngine.tsx:49-54 | one firing keeps the invariant; earth time gains at least as much as ship time, and both gains are non-negative; gravity and run state are unchanged |
| Relativity.ResetStep | components/RelativityEngine.tsx:64-67 | reset keeps the invariant |
| Relativity.SetGravityStep | components/RelativityEngine.tsx:13-15 | a slider write within [100, 200] keeps the invariant |
| Relativity.ToggleStep | components/RelativityEngine.tsx:227 | toggling keeps the invariant |
| Relativity.ControlsFrame | components/RelativityEngine.tsx:64-67 | reset zeroes both clocks and keeps gravity and run state; toggling and slider writes leave both clocks alone; toggling twice is the identity |
| Relativity.TickReadsCurrentGravity | components/RelativityEngine.tsx:10-15 | a tick after a gravity change uses the new gravity, not the one held when the interval started |
| Relativity.TicksAtConstantGravity | components/RelativityEngine.tsx:50-53 | after n ticks at constant gravity, ship time is +0.1·n and earth time is +0.1·n·dilation(g) |
| Relativity.TicksAtRate | components/RelativityEngine.tsx:50-53 | after n running ticks with per-tick earth increment e = 0.1·dilation(g): ship +0.1·n, earth +n·e, gravity and run state kept |
| Relativity.TicksSum | components/RelativityEngine.tsx:50-53 | each of n running ticks adds 0.1 to ship time and e to earth time, at unchanged gravity |
| Relativity.TickAdds | components/RelativityEngine.tsx:50-53 | one running tick adds 0.1 to ship time and 0.1·dilation(g) to earth time and changes nothing else |
| Relativity.PausedTicks | components/RelativityEngine.tsx:49-55 | while paused, any number of ticks changes nothing |
| Relativity.TwoPhases | components/RelativityEngine.tsx:50-53 | from the mounted state, n ticks at g = 100 give (0.1·n, 0.1·n); n more after a slider write of 150 give (0.2·n, 1.8·n) |
| Relativity.TwoPhaseScenario | components/RelativityEngine.tsx:50-53 | 10 ticks at g = 100 give (1.0, 1.0); 10 more at g = 150 give (2.0, 18.0) |
| Relativity.RunPreservesConsistent | components/RelativityEngine.tsx:46-67 | every state reachable by ticks, resets, in-range slider writes and toggles has 0 <= ship <= earth |
| Relativity.Trunc | components/RelativityEngine.tsx:31-33 | rounds toward zero: for x >= 0 it is the largest integer <= x, for x < 0 the least integer >= x |
| Relativity.FractionBelow | components/RelativityEngine.tsx:31-33 | a quotient rounded down leaves a remainder in [0, m) |
| Relativity.FractionAbove | components/RelativityEngine.tsx:31-33 | a quotient rounded up leaves a remainder in (−m, 0] |
| Relativity.JsRem | components/RelativityEngine.tsx:31-33 | for a positive modulus, JavaScript's x % m lies in [0, m) when x >= 0 and in (−m, 0] when x < 0 |
| Relativity.FormatTime | components/RelativityEngine.tsx:29-35 | for t >= 0: hours >= 0, minutes and seconds in [0, 59], tenths in [0, 9] |
| Relativity.FloorQuotient | components/RelativityEngine.tsx:30 | for t >= 0, floor(t / k) is floor(t) divided by k as integers |
| Relativity.RemFloor | components/RelativityEngine.tsx:31-33 | for t >= 0, JavaScript's t % k lies in [0, k), its floor is floor(t) mod k, and it keeps t's fractional part |
| Relativity.ClockDigits | components/RelativityEngine.tsx:30-32 | hours, minutes and seconds of a whole number of seconds add back to it, with minutes and seconds in [0, 59] |
| Relativity.TenthsDigit | components/RelativityEngine.tsx:33 | the tenths digit lies in [0, 9] and is the fractional part rounded down to a tenth |
| Relativity.FormatTimeFaithful | components/RelativityEngine.tsx:29-35 | for t >= 0: hours = floor(t / 3600); minutes and seconds in [0, 59]; tenths in [0, 9]; the reading is t rounded down to the tenth |
| Relativity.FormatEarthTime | components/RelativityEngine.tsx:37-43 | the value times the seconds of its unit is t; above SEC the value is at least 1 |
| Relativity.EarthReadingFaithful | components/RelativityEngine.tsx:37-43 | the unit is SEC, MIN, HRS, DAYS or YRS exactly on its threshold interval; value × seconds-per-unit = t; above SEC the value is in [1, next unit); 1 decimal for SEC/MIN, 2 otherwise |
| Relativity.EarthReadingExamples | components/RelativityEngine.tsx:37-43 | 45 s → 45 SEC; 125 s → about 2.08 MIN; 7200 s → 2 HRS; 172800 s → 2 DAYS; 63072000 s → 2 YRS |
| Relativity.RelativityEngine.constructor | components/RelativityEngine.tsx:6-10 | clocks at 0, gravity 100, running |
| Relativity.RelativityEngine.Tick | components/RelativityEngine.tsx:49-54 | running: ship +0.1 and earth +0.1·dilation(current gravity); paused: nothing changes |
| Relativity.RelativityEngine.Reset | components/RelativityEngine.tsx:64-67 | both clocks become 0; gravity and run state are kept |
| Relativity.RelativityEngine.SetGravity | components/RelativityEngine.tsx:13-15 | only the shared gravity cell changes |
| Relativity.RelativityEngine.Toggle | components/RelativityEngine.tsx:227 | only the run state flips |
| Mapper.Lerp | components/DockingMechanism.tsx:21 | a one-segment interpolation lies between the two outputs and equals each at its end |
| Mapper.FractionBetween | components/DockingMechanism.tsx:21 | the interpolation expression a + t·d, for t in [0, 1], lies between a and a + d |
| Mapper.Interpolate | components/DockingMechanism.tsx:21-25 | clamped to the first/last output outside the breakpoints; on each segment, the linear interpolation of that segment; between the least and greatest output |
| Mapper.InterpolateAtBreakpoint | components/DockingMechanism.tsx:21-25 | each breakpoint maps to its own output |
| Docking.Rotate | components/DockingMechanism.tsx:21 | rotation is 180·p on [0, 1], clamped to 0 and 180 outside, and always in [0, 180] |
| Docking.Opacity | components/DockingMechanism.tsx:24 | opacity in [0, 1]: rises as 10p on [0, 0.1], is 1 on [0.1, 0.9], falls as 10(1−p) on [0.9, 1], and is 0 outside |
| Docking.Scale | components/DockingMechanism.tsx:25 | scale in [0.8, 1]; it equals 1 exactly at p = 0.5, and is 0.8 at and beyond both ends |
| Docking.InWindow | components/DockingMechanism.tsx:31-32 | a rotation is in the window exactly when it is strictly within 5 degrees of the 90-degree target |
| Docking.WindowInProgress | components/DockingMechanism.tsx:21-36 | the rotation is in the window exactly when 17/36 < p < 19/36 |
| Docking.Initial | components/DockingMechanism.tsx:7-9 | the mounted state is unlocked, unconfirmed and consistent |
| Docking.RotationChanged | components/DockingMechanism.tsx:28-37 | a rotation update keeps the invariant |
| Docking.Confirm | components/DockingMechanism.tsx:39-52 | confirming keeps the invariant |
| Docking.ConfirmEffect | components/DockingMechanism.tsx:40-42 | confirm acts exactly when locked and not confirmed; it then sets confirmed, freezes at 90 and schedules one more advance; a second confirm does nothing |
| Docking.LatchIsMemoryless | components/DockingMechanism.tsx:32-36 | no hysteresis: an unconfirmed latch depends only on the latest rotation |
| Docking.DisplayRotation | components/DockingMechanism.tsx:55 | once confirmed, the displayed rotation is 90; before that it is the live rotation |
| Docking.RunPreservesConsistent | components/DockingMechanism.tsx:28-52 | in every reachable state, confirmed implies locked, the frozen value is 90 exactly when confirmed, and one advance was scheduled exactly when confirmed |
| Docking.ConfirmedIsTerminal | components/DockingMechanism.tsx:28-52 | once confirmed, no sequence of rotation updates or confirm presses changes the state |
| Docking.FrozenAfterConfirm | components/DockingMechanism.tsx:28-55 | once confirmed, the displayed rotation stays 90 for every later event sequence and progress |
| Docking.LockTrace | components/DockingMechanism.tsx:28-37 | one latch value per event, and entry i is the latch after running the first i + 1 events |
| Docking.NoHysteresisExample | components/DockingMechanism.tsx:32-36 | rotations 84, 86, 84 give locked = false, true, false: running 84, 86 sets the latch and running 84, 86, 84 clears it |
| Docking.RpmMatchLabel | components/DockingMechanism.tsx:72 | in a consistent state RPM_MATCH reads LOCKED exactly when the latch is set |
| Docking.TLockLabel | components/DockingMechanism.tsx:73 | T-LOCK reads ENGAGED exactly while the confirm button is shown, CONFIRMED exactly while DOCKING SEQUENCE INITIATED is |
| Docking.ShowsConfirmButton | components/DockingMechanism.tsx:77 | the confirm button is shown exactly when pressing it changes the state |
| Docking.ShowsDockingInitiated | components/DockingMechanism.tsx:89 | in a consistent state the docking message is shown exactly when the advance was scheduled; once shown, confirm does nothing |
| Docking.LabelsAgree | components/DockingMechanism.tsx:72-89 | RPM_MATCH reads LOCKED exactly when T-LOCK is not PENDING; the confirm button is shown exactly when confirm would act; CONFIRMED agrees with DOCKING SEQUENCE INITIATED; in a consistent state LOCKED means locked |
| Docking.DockingMechanism.constructor | components/DockingMechanism.tsx:7-9 | not locked, not confirmed, no frozen rotation, no advance scheduled |
| Docking.DockingMechanism.OnRotationChange | components/DockingMechanism.tsx:28-37 | locked becomes 85 < latest < 95 unless already confirmed; nothing else changes |
| Docking.DockingMechanism.ConfirmAlignment | components/DockingMechanism.tsx:39-52 | when locked and not confirmed: confirmed, frozen at 90, one advance scheduled; otherwise no change |
| Docking.DockingMechanism.Displayed | components/DockingMechanism.tsx:55 | the displayed rotation is 90 once confirmed, else the live rotation |
| Navigation.Systems | components/NavigationConsole.tsx:39-45 | five systems, numbered 1 to 5 in order, no two sharing an id |
| Navigation.SystemsTable | components/NavigationConsole.tsx:39-45 | the five systems have unique ids, exactly 1 to 5 |
| Navigation.Find | components/NavigationConsole.tsx:47 | a result has the selected id and is the first such system; no result means nothing is selected or no id matches |
| Navigation.FindUnique | components/NavigationConsole.tsx:39-47 | with unique ids, looking up a system's id yields that system |
| Navigation.Initial | components/NavigationConsole.tsx:36-37 | initially nothing is selected and nothing is locked |
| Navigation.Select | components/NavigationConsole.tsx:97 | selecting a system id keeps the state consistent |
| Navigation.Lock | components/NavigationConsole.tsx:50-54 | locking keeps the state consistent and never changes the selection |
| Navigation.ShowsTargetLocked | components/NavigationConsole.tsx:185 | in a consistent state "Target Locked" shows exactly when a selection is made and equals the lock; pressing lock then changes nothing |
| Navigation.LockDisabled | components/NavigationConsole.tsx:176 | in a consistent state the button is disabled exactly when nothing is selected; a disabled press would change nothing |
| Navigation.ActiveSystem | components/NavigationConsole.tsx:47 | the readout's system is one of the map's and is drawn active; in a consistent state it is present exactly when a selection is made |
| Navigation.IsActive | components/NavigationConsole.tsx:96 | a star of the map drawn active means the lock button is enabled |
| Navigation.TruthyIsPresent | components/NavigationConsole.tsx:50-54 | since no id is 0, JavaScript truthiness of the fields means "not null" |
| Navigation.SelectEffect | components/NavigationConsole.tsx:97 | selecting sets the selection, keeps the lock, and makes that system the active one |
| Navigation.LockEffect | components/NavigationConsole.tsx:50-54 | lock with no selection does nothing; with one, it sets locked := selected; locking twice equals locking once |
| Navigation.ButtonStates | components/NavigationConsole.tsx:174-190 | "Target Locked" exactly when a selection exists and equals the lock; disabled exactly when nothing is selected; after a lock with a selection it reads "Target Locked"; no active system exactly when nothing is selected |
| Navigation.LockPersistsAcrossSelection | components/NavigationConsole.tsx:50-54 | lock X, then select Y ≠ X: "Lock Trajectory"; reselect X: "Target Locked" again |
| Navigation.AtMostOneActive | components/NavigationConsole.tsx:92-99 | at most one star is drawn active, and it is the active system |
| Navigation.NavigationConsole.constructor | components/NavigationConsole.tsx:36-37 | selected and locked are null |
| Navigation.NavigationConsole.SelectSystem | components/NavigationConsole.tsx:97 | selected becomes the id; locked is kept |
| Navigation.NavigationConsole.LockTarget | components/NavigationConsole.tsx:50-54 | with a selection, locked becomes it; without one, locked is kept; the selection is unchanged |
| Navigation.NavigationConsole.TargetLockedShown | components/NavigationConsole.tsx:185 | "Target Locked" is shown exactly when the selection is present and equals the lock |

## Left out

- Spring smoothing (`useSpring`): a floating-point ODE inside the animation library. The smoothed progress is an arbitrary real input.
- Scroll geometry (`useScroll`, smooth scrolling in App.tsx): the progress is an input.
- Timers: the interval period, its drift and its creation and clearing appear only as "a tick happened". The deferred `scrollIntoView` appears only as the count `advancesScheduled`.
- React scheduling: state updates are treated as taking effect before the next event. A change event that reads a stale `confirmed` between a confirm and the next render is not modelled.
- Floating point: repeated additions of 0.1 are exact reals here.
- Number-to-string rendering: `padStart`, `toFixed` and `toExponential` are left out. `FormatTime` gives the four fields, and `FormatEarthTime` gives value, unit and digit count. The choice between fixed and exponential notation is modelled.
- Styling and cosmetic values: class names, colours, the grid distortion computed from gravity, the REL_VEL readout (same `locked || confirmed` condition as RPM_MATCH), the radar sweep, the trajectory line, the random histogram and `lockedSys` (computed but unused).
- The star canvases, telemetry, tesseract grid, navbar clock, cryo pods, mission brief, HUD overlay, footer and App.tsx cursor handling are not part of this model.
- Relativity.RelativityEngine.SetGravity: the slider's DOM bounds appear as the precondition 100 <= g <= 200, not as clamping.
