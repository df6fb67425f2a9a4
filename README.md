# Portfolio site core, modelled in Dafny

This project models the interactive behaviour of a Next.js portfolio site:

- the boot splash, with its timers and the session flag that skips it on later visits;
- the home page gate, which shows the main content once the boot has completed;
- the system header's uptime read-out;
- the glyph background: its atlas, instance grid, jitter and scroll multiplier;
- the code-reveal portrait overlay: code row layout, pointer and hover easing, scrolling and pointer mapping;
- the device showcase carousels;
- the interests folder tree;
- the signal monitor canvas: particles, pulse grid, scan line and hex labels;
- the floating node graph around the portrait: node positions and connection curves.

## How the model is built

Each component becomes one module in one file:

| file | module | component |
|---|---|---|
| `boot.dfy` | `BootSequence` | boot splash |
| `page.dfy` | `PageGate` | home page |
| `header.dfy` | `SystemHeader` | system header |
| `numtext.dfy` | `NumberText` | `Number.prototype.toString` in base 10 and 16 |
| `arith.dfy` | `Arith` | `Math.PI`, the range of `Math.random` and arithmetic facts shared by the modules above |
| `glyphs.dfy` | `GlyphField` | glyph background |
| `reveal.dfy` | `CodeReveal` | code-reveal portrait |
| `carousel.dfy` | `Showcase` | device showcase |
| `identity.dfy` | `FolderTree` | interests tree |
| `signal.dfy` | `SignalMonitor` | signal monitor |
| `network.dfy` | `NetworkPortrait` | node graph |

State is modelled as follows:

- **React state and refs** become a `class` whose fields are that state. Event handlers, effects and animation frames become methods with `modifies` clauses. Each class keeps a `Valid()` invariant.
- **Pure helpers** become functions, and lemmas state what they promise.
- **Loops that build a collection** become methods with loop invariants. Each is specified by a function of its inputs: the particle list, the pulse grid, the code rows, the glyph atlas placements, the instance records and attribute buffers, and the node position dictionary.
- **Outside inputs become parameters.** These are:
  - `Math.random`: explicit draws in `[0, 1)`;
  - `Date`: the millisecond difference or the elapsed time;
  - `Math.sin`/`Math.cos`: function parameters whose values lie in `[-1, 1]`;
  - `window.scrollY`, `devicePixelRatio` and bounding rectangles.
- **Timers** are an explicit queue of `(due, action)` values ordered by due time. Running a timer removes the earliest one.
- **Numbers:** float state is `real`. JavaScript's `%` is written out: `JsRem`, `RealRem`.

Completion is reported more than once. The page's `handleBootComplete` is a new function on every render, and the splash's mount effect depends on it. So the first report re-renders the page, the effect runs again, finds the flag set and reports once more: a first visit reports twice (`BootSequence.FirstVisit`). The skip button does not cancel the pending timers either, so a skip during the boot leads to three reports (`BootSequence.SkipDuringBoot`). The skip is listed under "## Findings" with a corrected version that clears the timers (`BootSequence.CancellingSkip`); the page is built to tolerate repeated reports (`PageGate.DoubleCompletion`).

## Model

| member | source | states |
|---|---|---|
| BootSequence.DelayColumn | app/components/BootSequence.tsx:6-22 | There are fifteen boot lines, and each line's delay is the one listed for it. |
| BootSequence.DelaysAscend | app/components/BootSequence.tsx:6-24 | Line delays strictly increase and all are below the 2000 ms total boot time. |
| BootSequence.Schedule | app/components/BootSequence.tsx:46-59 | A `setTimeout` adds exactly one timer to the queue; which one and where is stated by the three rows below. |
| BootSequence.InsertPos | app/components/BootSequence.tsx:46-52 | The insertion point of a new timer is after every timer due no later than it and before every timer due later. |
| BootSequence.SchedulePermutes | app/components/BootSequence.tsx:46-59 | Scheduling a timer adds exactly that timer to the queue; every other timer stays. |
| BootSequence.ScheduleAt | app/components/BootSequence.tsx:46-59 | The new timer lands at its insertion point, and the others keep their order around it. |
| BootSequence.ScheduleSorted | app/components/BootSequence.tsx:46-59 | Scheduling keeps the queue ordered by due time. |
| BootSequence.ScheduleAppends | app/components/BootSequence.tsx:46-59 | A timer due no earlier than every queued one is appended at the end. |
| BootSequence.ScheduleCounts | app/components/BootSequence.tsx:56-59 | Scheduling adds exactly the new timer's share to the completion reports owed. |
| BootSequence.Initial | app/components/BootSequence.tsx:27-29 | The first render is still checking the flag, with nothing visible, nothing scheduled and no completion reported, and it satisfies the invariant. |
| BootSequence.LineTimers | app/components/BootSequence.tsx:45-53 | Scheduling the first n lines gives n timers. |
| BootSequence.MountTimersWellFormed | app/components/BootSequence.tsx:45-60 | The mount schedules line i at `start + delay(i)` for every line, then the completion timer at `start + 2000`. The queue is ordered, lines ascend, and the last line is pending. |
| BootSequence.LineTimersGrow | app/components/BootSequence.tsx:45-53 | Each `forEach` iteration's `setTimeout` extends the line timers scheduled so far by that line's timer. |
| BootSequence.FinishTimerLast | app/components/BootSequence.tsx:56-60 | The completion timer goes behind every line timer. |
| BootSequence.Mount | app/components/BootSequence.tsx:32-61 | The splash renders exactly when the flag was unset on this run of the effect. The effect never changes the flag, completion, the visible lines or the clock. |
| BootSequence.Fire | app/components/BootSequence.tsx:46-59 | Running the earliest timer moves the clock to its due time and never changes whether the splash renders or when it was mounted. |
| BootSequence.Skip | app/components/BootSequence.tsx:63-67 | The flag is written, the boot completes and one report is made at once. The pending timers, the visible lines and the rendering are left as they were. |
| BootSequence.MountWhenBooted | app/components/BootSequence.tsx:34-39 | With the flag set, the mount hides the splash, reports completion once and schedules nothing. |
| BootSequence.MountKeepsInv | app/components/BootSequence.tsx:32-61 | The mount effect keeps the splash invariant. |
| BootSequence.MountProgressing | app/components/BootSequence.tsx:42-60 | A first mount leaves the boot on its way to showing every line. |
| BootSequence.FireKeepsInv | app/components/BootSequence.tsx:46-59 | Running the earliest timer keeps the invariant: the queue stays ordered, the lines already shown and those still pending agree, and the flag is set once the splash is complete. |
| BootSequence.FireLineKeepsInv | app/components/BootSequence.tsx:46-52 | Running a line timer keeps the invariant. |
| BootSequence.FireFinishKeepsInv | app/components/BootSequence.tsx:56-60 | Running the completion timer keeps the invariant. |
| BootSequence.FireNotifyKeepsInv | app/components/BootSequence.tsx:59 | Running the delayed completion report keeps the invariant. |
| BootSequence.NoLineBehindFinish | app/components/BootSequence.tsx:45-60 | When the completion timer is at the head of the queue, every line is already visible and no line timer remains. |
| BootSequence.FinishSeesAllLines | app/components/BootSequence.tsx:56-60 | The completion timer runs only after all fifteen lines are visible. It sets the flag, completes, and schedules the report 800 ms later. |
| BootSequence.FireTowardsFlag | app/components/BootSequence.tsx:56-58 | Once the flag is set or its timer is queued, running a timer keeps it so: the completion timer is never dropped before it sets the flag. |
| BootSequence.FinishWaitsForLastLine | app/components/BootSequence.tsx:45-60 | While the completion timer is pending, either every line is shown or the last line's timer is pending too. |
| BootSequence.FireMonotone | app/components/BootSequence.tsx:46-59 | Running a timer never clears the flag, never hides a shown line and never lowers the completion count. |
| BootSequence.FireCounts | app/components/BootSequence.tsx:46-59 | A timer moves what the queue owes into the reported completions, keeping their sum. It also strictly shrinks the termination measure. |
| BootSequence.MountTimersOwe | app/components/BootSequence.tsx:45-60 | A mount's timers owe exactly one completion report. |
| BootSequence.FireKeepsProgress | app/components/BootSequence.tsx:46-60 | Running a timer keeps the boot on its way to showing every line. |
| BootSequence.SkipKeepsInv | app/components/BootSequence.tsx:63-67 | Skipping keeps the invariant. The pending timers are left in place. |
| BootSequence.OverlayPresent | app/components/BootSequence.tsx:70-74 | The overlay is present exactly while the flag check found it unset and the boot is not complete. |
| BootSequence.RenderedLines | app/components/BootSequence.tsx:109 | The rendered lines are exactly the first `visibleLines` boot lines. |
| BootSequence.StyleOf | app/components/BootSequence.tsx:115-123 | A line's colour is chosen in this order: highlight first, then an `  [OK]` prefix, then a two-space prefix, then the default. Each colour is stated as an if-and-only-if. |
| BootSequence.HasMinHeight | app/components/BootSequence.tsx:124-126 | A line keeps a 1rem minimum height exactly when its text is empty. |
| BootSequence.BootLineStyles | app/components/BootSequence.tsx:6-22 | Of the fixed lines, 4 and 10 are green and 13 is the accent. None is muted, and the rest are plain. |
| BootSequence.BootSplash.constructor | app/components/BootSequence.tsx:27-29 | The initial state, with the session flag as stored. |
| BootSequence.BootSplash.MountEffect | app/components/BootSequence.tsx:32-61 | The new state is `Mount` of the old one, and the invariant is kept. |
| BootSequence.BootSplash.ScheduleLineTimers | app/components/BootSequence.tsx:45-53 | The `forEach` loop leaves exactly the line timers for all fifteen lines, at their delays from now. |
| BootSequence.BootSplash.Step | app/components/BootSequence.tsx:46-59 | The earliest timer's callback runs: the new state is `Fire` of the old one, and the invariant is kept. |
| BootSequence.BootSplash.RevealLineCallback | app/components/BootSequence.tsx:46-52 | A line timer makes the lines up to its own visible and leaves the queue's tail. The new state is `Fire` of the old one, and the invariant is kept. |
| BootSequence.BootSplash.FinishCallback | app/components/BootSequence.tsx:56-60 | The completion timer writes the flag, completes, and queues the report 800 ms later. The new state is `Fire` of the old one, and the invariant is kept. |
| BootSequence.BootSplash.NotifyCallback | app/components/BootSequence.tsx:59 | The delayed report is made. The new state is `Fire` of the old one, and the invariant is kept. |
| BootSequence.BootSplash.HandleSkip | app/components/BootSequence.tsx:63-67 | A press at any time while the splash renders, the exit fade included: the new state is `Skip` of the old one (flag written, complete, one report), and the invariant is kept. |
| BootSequence.FadeSkipReportsAgain | app/components/BootSequence.tsx:63-67 | A press during the 0.8 s exit fade, after the completion timer has run, adds one report to those already made or owed. |
| BootSequence.BootSplash.RunTimers | app/components/BootSequence.tsx:45-60 | Running every pending timer empties the queue and makes exactly the reports owed. A boot under way ends with every line shown, and a queued completion timer ends with the flag set. |
| BootSequence.FirstVisit | app/components/BootSequence.tsx:32-61 | A first visit left to run shows all fifteen lines and reports completion twice: once by the delayed report, and once when the page's re-render hands the splash a new `onComplete` and the effect runs again with the flag set. |
| BootSequence.ReturnVisit | app/components/BootSequence.tsx:34-39 | A later visit in the same session renders nothing and reports completion once. |
| BootSequence.SkipDuringBoot | app/components/BootSequence.tsx:32-67 | A skip right after the mount reports at once; the re-run effect reports again; and the completion timer, which the skip does not cancel, reports a third time. |
| BootSequence.SkipLeavesReportOwed | app/components/BootSequence.tsx:56-67 | A skip right after the mount makes one report and still leaves one report owed by the pending timers. |
| BootSequence.CancellingSkip | app/components/BootSequence.tsx:63-67 | Corrected skip: the flag is written, the boot completes, one report is made and no timer is left. The visible lines and the rendering are unchanged. |
| BootSequence.CancellingSkipReportsOnce | app/components/BootSequence.tsx:63-67 | The corrected skip keeps the invariant and owes no further report, so completion is reported exactly once from the skip on. |
| BootSequence.BootSplash.HandleCancellingSkip | app/components/BootSequence.tsx:63-67 | The corrected skip button, pressed at any time while the splash renders: the new state is `CancellingSkip` of the old one, and the invariant is kept. |
| BootSequence.SkipDuringBootCancelling | app/components/BootSequence.tsx:32-67 | With the corrected skip, a skip right after the mount leaves no timer owing a report; only the page's re-render adds its one report. |
| PageGate.Home.constructor | app/page.tsx:14-15 | Not booted, splash shown, nothing scheduled. |
| PageGate.Home.MountEffect | app/page.tsx:17-24 | A stored session flag marks the page booted and drops the splash; otherwise nothing changes. |
| PageGate.Home.HandleBootComplete | app/page.tsx:26-30 | The page is booted at once. A hide is scheduled 100 ms later, and the splash stays until then. |
| PageGate.Home.FireHide | app/page.tsx:29 | The oldest hide runs and the splash is gone. The page stays booted. |
| PageGate.Home.BootMounted | app/page.tsx:34 | The splash is mounted exactly while `showBoot` holds. |
| PageGate.Home.MainOpacity | app/page.tsx:38 | The opacity is 1 exactly when booted and 0 exactly when not. |
| PageGate.Home.MainVisible | app/page.tsx:39 | The main content is visible exactly when its opacity is 1. |
| PageGate.ReturnVisit | app/page.tsx:17-24 | A stored flag makes the page visible without a splash. |
| PageGate.DoubleCompletion | app/page.tsx:26-30 | Completion reported twice is harmless: visible after the first report, splash gone after the hides. |
| SystemHeader.JsRem | app/components/SystemHeader.tsx:16-17 | `%` takes the dividend's sign. On a non-negative dividend it is the remainder in `[0, m)`. |
| SystemHeader.FloorDiv | app/components/SystemHeader.tsx:15-17 | `Math.floor(a / m)` is the quotient `q` with `q*m <= a < q*m + m`. |
| SystemHeader.PadStart2 | app/components/SystemHeader.tsx:19 | `padStart(2, '0')`: a text of two or more characters is unchanged. A shorter one gets zeros in front up to length two. |
| SystemHeader.Days | app/components/SystemHeader.tsx:15 | The days are the whole days elapsed, rounded down: `d` days fit in the difference and `d + 1` do not. |
| SystemHeader.Hours | app/components/SystemHeader.tsx:16 | The hours are at most a day's worth either way, and not negative for a non-negative difference. |
| SystemHeader.Minutes | app/components/SystemHeader.tsx:17 | The minutes are at most an hour's worth either way, and not negative for a non-negative difference. |
| SystemHeader.FormatUptime | app/components/SystemHeader.tsx:19 | The uptime text has at least eight characters and ends with the minute unit `m`. |
| SystemHeader.UptimeFieldBounds | app/components/SystemHeader.tsx:15-17 | For a non-negative difference: days are non-negative, hours are in 0..23 and minutes in 0..59. |
| SystemHeader.UptimeReconstruction | app/components/SystemHeader.tsx:15-17 | Days, hours and minutes rebuild the difference to within one minute. |
| SystemHeader.PaddedField | app/components/SystemHeader.tsx:19 | A padded field in 0..99 is exactly two digits and reads back as the value. |
| SystemHeader.FormatShape | app/components/SystemHeader.tsx:19 | The uptime reads `<days>d <HH>h <MM>m`, with days unpadded and hours and minutes as two digits. |
| SystemHeader.NominalUptime | app/components/SystemHeader.tsx:5-20 | A difference of 142 days, 6 hours and 19 minutes (plus under a minute) renders `142d 06h 19m`. |
| SystemHeader.LastDeploy | app/components/SystemHeader.tsx:22-24 | The deploy stamp has the shape `HH:MM:SS UTC`. |
| SystemHeader.Header.constructor | app/components/SystemHeader.tsx:27-28 | Before mount: placeholder uptime, not mounted. |
| SystemHeader.Header.Mount | app/components/SystemHeader.tsx:30-32 | Mounting marks the header mounted and computes the uptime. |
| SystemHeader.Header.Refresh | app/components/SystemHeader.tsx:34-36 | The minute interval recomputes the uptime and nothing else. |
| SystemHeader.Header.Status | app/components/SystemHeader.tsx:41-54 | The status shows INITIALIZING exactly before mount. |
| SystemHeader.Header.ShownUptime | app/components/SystemHeader.tsx:41-70 | The uptime is shown exactly once mounted, and it is the current value. |
| NumberText.DigitChar | app/components/SignalVisualizer.tsx:178-179 | Digit values below 10 map to `0`-`9` and the rest to `A`-`F`, the upper-cased hexadecimal digits. |
| NumberText.DigitValueOfChar | app/components/SignalVisualizer.tsx:178-179 | Reading a digit character back gives its value. |
| NumberText.ToBase | app/components/SignalVisualizer.tsx:178-179 | `toString(b)` always writes at least one digit. |
| NumberText.FromBase | app/components/SignalVisualizer.tsx:178-179 | Reading k digits of base b gives a value below b to the power k. |
| NumberText.ToBaseRoundTrip | app/components/SignalVisualizer.tsx:178-179 | `toString(b)` writes only base-b digits, and reading them back gives the number. |
| NumberText.ToBaseNoLeadingZero | app/components/SystemHeader.tsx:19 | The rendering starts with `0` only for zero. |
| NumberText.DecimalLength | app/components/SystemHeader.tsx:19 | Numbers below 10 take one digit and numbers below 100 take two. |
| NumberText.IntToString | app/components/SystemHeader.tsx:19 | The text reads back as the number: decimal digits whose value is the magnitude, behind a minus sign exactly when the number is negative. |
| GlyphField.GlyphsFitAtlas | app/components/AsciiMatrix.tsx:8-10 | The 44 glyphs fit the 8 by 6 atlas. |
| GlyphField.AtlasCell | app/components/AsciiMatrix.tsx:35-37 | Glyph i's cell has column `i mod 8` and row `i div 8`, and lies inside the atlas. |
| GlyphField.PlacementOf | app/components/AsciiMatrix.tsx:35-41 | Glyph i is drawn at a point strictly inside the 512 by 384 atlas canvas. |
| GlyphField.PlaceGlyphs | app/components/AsciiMatrix.tsx:35-41 | The atlas loop draws every glyph, in order, at the centre of its own cell. |
| GlyphField.PlacementsDistinct | app/components/AsciiMatrix.tsx:35-41 | Different glyphs are drawn at different points, all inside the 512 by 384 canvas. |
| GlyphField.GlyphUV | app/components/AsciiMatrix.tsx:85-94 | A cell's window is 1/8 by 1/6 and lies inside the texture. |
| GlyphField.UVCoversPlacement | app/components/AsciiMatrix.tsx:85-94 | Glyph i's texture window contains the point where glyph i was drawn, with `v` counted from the bottom. |
| GlyphField.GridCell | app/components/AsciiMatrix.tsx:167-178 | Instance i's cell has a column below 80 and `row * 80 + column == i`; an instance of the grid has a row below 55. |
| GlyphField.GridIndex | app/components/AsciiMatrix.tsx:167-178 | The index of a cell gives the cell back by division and remainder; a cell of the grid gives an instance of the grid. |
| GlyphField.TilePosition | app/components/AsciiMatrix.tsx:164-178 | Every instance starts within the grid's extent, centred on the origin. |
| GlyphField.GridCellRoundTrip | app/components/AsciiMatrix.tsx:167-178 | Every instance lands on the 80 by 55 grid, and its index is recovered from its cell. |
| GlyphField.GridIndexRoundTrip | app/components/AsciiMatrix.tsx:167-178 | Every grid cell holds exactly one instance. |
| GlyphField.TilePositionsDistinct | app/components/AsciiMatrix.tsx:164-178 | Different instances start at different tile positions. |
| GlyphField.PickGlyph | app/components/AsciiMatrix.tsx:75 | A random pick is a valid glyph index. |
| GlyphField.FreshInstance | app/components/AsciiMatrix.tsx:72-80 | A new instance is well formed with a zero timer. Its interval is in `[1500, 6500)` and its opacity in `[0.03, 0.10)`. It is visible exactly when its draw is below 0.25. |
| GlyphField.InitInstances | app/components/AsciiMatrix.tsx:70-82 | The instance loop creates one fresh instance per grid cell, from its own draws. |
| GlyphField.ShownOpacity | app/components/AsciiMatrix.tsx:150 | A visible instance shows its own opacity and a hidden one shows 0, always below 0.10. |
| GlyphField.SetupAttributes | app/components/AsciiMatrix.tsx:144-151 | Each instance's UV window and shown opacity are written at its index. |
| GlyphField.ScrollProgress | app/components/AsciiMatrix.tsx:198-199 | Progress is 0 when the page cannot scroll, and otherwise within `[0, 1]`. |
| GlyphField.JitterMultiplier | app/components/AsciiMatrix.tsx:210 | The multiplier lies in `[1, 3]`: 3 at the top of the page, 1 at the bottom. |
| GlyphField.MultiplierFalls | app/components/AsciiMatrix.tsx:210 | Scrolling further never speeds jitter up. |
| GlyphField.JitterOne | app/components/AsciiMatrix.tsx:212-225 | A jitter step keeps visibility, interval and opacity. |
| GlyphField.JitterOneProperties | app/components/AsciiMatrix.tsx:212-225 | A hidden instance is untouched. A visible one adds the frame's `delta*1000` to its timer unless that passes the scaled interval, in which case the timer is zeroed and a glyph is picked. The timer stays at or below the scaled interval, and the glyph changes only on a reset. |
| GlyphField.GlyphPlane.constructor | app/components/AsciiMatrix.tsx:57-82 | The instances are fresh, the buffers agree with them, and time and scroll are zero. |
| GlyphField.GlyphPlane.HandleScroll | app/components/AsciiMatrix.tsx:184-186 | The scroll ref records `scrollY`. |
| GlyphField.GlyphPlane.Frame | app/components/AsciiMatrix.tsx:192-225 | Time advances by `delta*1000`, every instance takes its jitter step, and the UV buffer follows the records. |
| GlyphField.GlyphPlane.JitterAt | app/components/AsciiMatrix.tsx:212-224 | One instance steps and the others are unchanged. Its UV is rewritten exactly when it resets. |
| CodeReveal.TableSizes | app/components/BinaryReveal.tsx:11-64 | There are 42 snippets and 6 colours. |
| CodeReveal.Ceil | app/components/BinaryReveal.tsx:91 | `Math.ceil` gives the least integer not below x. |
| CodeReveal.LayoutOf | app/components/BinaryReveal.tsx:88-112 | The font is at least 7 px and a line is 1.3 font sizes. |
| CodeReveal.LayoutCovers | app/components/BinaryReveal.tsx:88-112 | The font is at least 7 px and a line is at least 9.1 px. The row count is even. The layout is at least twice the canvas height and exceeds it by less than two lines. |
| CodeReveal.RowText | app/components/BinaryReveal.tsx:101 | A row's text is one of the snippets. |
| CodeReveal.RowColor | app/components/BinaryReveal.tsx:102 | A row's colour is one of the palette. |
| CodeReveal.PickIndex | app/components/BinaryReveal.tsx:101-102 | `floor(random * n)` is below n. |
| CodeReveal.MakeRow | app/components/BinaryReveal.tsx:100-104 | A row has a snippet and colour from the tables and an x in `[colStart+10, colStart+25)`. |
| CodeReveal.InitCodeRows | app/components/BinaryReveal.tsx:88-115 | Three columns of `TotalRows` rows, each made from its own draws in its column, plus the layout record. |
| CodeReveal.FillColumn | app/components/BinaryReveal.tsx:99-105 | The inner loop appends one column's rows and keeps the earlier rows. |
| CodeReveal.DrawColumn | app/components/BinaryReveal.tsx:207-214 | When drawn, row i goes to column `i div T` at slot `i mod T`, which is the column it was made for. |
| CodeReveal.Ease | app/components/BinaryReveal.tsx:167-172 | A share of 0 stays put and a share of 1 reaches the target. |
| CodeReveal.EaseContracts | app/components/BinaryReveal.tsx:167-172 | An easing step shrinks the distance to the target by `1-k` and never overshoots. |
| CodeReveal.EaseNDistance | app/components/BinaryReveal.tsx:167-172 | After n frames toward a fixed target, the distance left is `(1-k)^n` of the starting distance. |
| CodeReveal.ScrollStep | app/components/BinaryReveal.tsx:174-180 | The offset moves only while the hover level is above 0.1, and never becomes negative. |
| CodeReveal.ScrollStepKeeps | app/components/BinaryReveal.tsx:174-180 | The scroll offset stays in `[0, totalHeight/2)` or at 0. It moves only while the hover level is above 0.1, by 0.5 or back to 0. |
| CodeReveal.RevealRadius | app/components/BinaryReveal.tsx:191-192 | The radius is between 0 and a quarter of the smaller side, and reaches that quarter at full hover. |
| CodeReveal.CanvasSize | app/components/BinaryReveal.tsx:127-129 | The canvas is at most twice the image size, since the pixel ratio is capped at 2. |
| CodeReveal.RevealController.constructor | app/components/BinaryReveal.tsx:78-85 | Pointer and target are parked at -1000, hover and scroll are zero, and nothing is loaded. The canvas has the default size of a `<canvas>` without attributes, 300 by 150. |
| CodeReveal.RevealController.OnImageLoad | app/components/BinaryReveal.tsx:124-143 | The canvas is sized from the image, the rows are laid out for it, and the page is marked loaded. Pointer, hover and scroll are untouched. |
| CodeReveal.RevealController.Animate | app/components/BinaryReveal.tsx:164-180 | Pointer and hover each close their distance by their easing share. The scroll takes its step. |
| CodeReveal.RevealController.OverlayDrawn | app/components/BinaryReveal.tsx:188 | The overlay is drawn only while hovering. |
| CodeReveal.RevealController.OverlayRadius | app/components/BinaryReveal.tsx:191-192 | The radius is the reveal radius for the current hover level, within a quarter of the smaller side. |
| CodeReveal.RevealController.HandleMouseMove | app/components/BinaryReveal.tsx:326-339 | The target is the pointer offset scaled from the rectangle to canvas pixels. A pointer inside the rectangle maps onto the canvas. |
| CodeReveal.RevealController.HandleMouseEnter | app/components/BinaryReveal.tsx:341-343 | Entering sets the hover target to 1. |
| CodeReveal.RevealController.HandleMouseLeave | app/components/BinaryReveal.tsx:345-348 | Leaving sets the hover target to 0 and parks the pointer target at -1000. |
| CodeReveal.PreloadPointerCentre | app/components/BinaryReveal.tsx:326-339 | Before the image loads, the centre of the rectangle maps to (150, 75), the centre of the default canvas. |
| CodeReveal.ToCanvas | app/components/BinaryReveal.tsx:336-337 | An offset inside the rectangle maps into `[0, canvas]`. |
| Showcase.EnterY | app/components/DeviceShowcase.tsx:34-35 | A slide enters 100 px away, and for a real move on the side opposite to where the old one leaves. |
| Showcase.ExitY | app/components/DeviceShowcase.tsx:50-51 | A slide leaves 100 px away, downwards exactly for a backward move. |
| Showcase.SlideOffsets | app/components/DeviceShowcase.tsx:34-59 | A forward move enters from below, and the outgoing slide leaves on the opposite side. Direction 0 uses -100 for both. |
| Showcase.Advance | app/components/DeviceShowcase.tsx:104 | An auto-advance stays a valid index, wrapping from the last slide to the first. |
| Showcase.AdvanceN | app/components/DeviceShowcase.tsx:103-105 | After at least one advance, or from a valid slide, the index is a valid slide. |
| Showcase.AdvanceNIs | app/components/DeviceShowcase.tsx:103-105 | n auto-advances from slide i land on slide `(i+n) mod count`. |
| Showcase.FullCycle | app/components/DeviceShowcase.tsx:103-105 | As many advances as slides return to the start. |
| Showcase.Dots | app/components/DeviceShowcase.tsx:154-168 | Dot k is active exactly when k is the current slide. |
| Showcase.ExactlyOneDot | app/components/DeviceShowcase.tsx:154-168 | Exactly one dot is active. |
| Showcase.Carousel.constructor | app/components/DeviceShowcase.tsx:96-98 | Slide 0, direction 0, not hovered, interval running. |
| Showcase.Carousel.SetHovered | app/components/DeviceShowcase.tsx:100-108 | Hovering clears the interval and leaving restarts it. |
| Showcase.Carousel.Tick | app/components/DeviceShowcase.tsx:103-105 | Not hovered: next slide, direction 1. Hovered: no interval runs and nothing changes. |
| Showcase.Carousel.GoToSlide | app/components/DeviceShowcase.tsx:110-113 | Jumps to slide i. The direction is forward exactly when i is past the current slide. |
| Showcase.Carousel.Current | app/components/DeviceShowcase.tsx:140-146 | The project on show is one of the projects. |
| Showcase.RunFullCycle | app/components/DeviceShowcase.tsx:185-197 | The interval firing `count` times without hover returns to the starting slide. |
| FolderTree.Remove | app/components/Identity.tsx:52 | `filter` never lengthens the list. |
| FolderTree.RemoveMembership | app/components/Identity.tsx:52 | Removal drops the name and keeps every other name's membership. |
| FolderTree.RemoveKeepsOrder | app/components/Identity.tsx:52 | Removal keeps the relative order of the remaining names. |
| FolderTree.Toggle | app/components/Identity.tsx:49-55 | The toggled folder is open afterwards exactly when it was closed before, and the list grows by at most one. |
| FolderTree.ToggleFlips | app/components/Identity.tsx:49-55 | A toggle flips the toggled folder and leaves every other folder as it was. |
| FolderTree.ToggleDistinct | app/components/Identity.tsx:49-55 | A toggle keeps the list duplicate-free and changes its length by exactly one. |
| FolderTree.ToggleTwiceAbsent | app/components/Identity.tsx:49-55 | Opening and then closing a folder restores the list. |
| FolderTree.ToggleTwicePresent | app/components/Identity.tsx:49-55 | Closing and then reopening moves the name to the end. |
| FolderTree.InitialFolders | app/components/Identity.tsx:47 | Initially only fitness is open. |
| FolderTree.IconOf | app/components/Identity.tsx:197-201 | Memo, book, clipboard and link are chosen only for a name with their own suffix. |
| FolderTree.SuffixesExclusive | app/components/Identity.tsx:197-201 | At most one of the five suffixes matches a name. |
| FolderTree.IconBySuffix | app/components/Identity.tsx:197-201 | Each icon is chosen exactly for its suffix. The page icon is also the default. |
| SignalMonitor.Scale | app/components/SignalVisualizer.tsx:38-39 | `random * n` lies in `[0, n)`. |
| SignalMonitor.MakeParticle | app/components/SignalVisualizer.tsx:37-44 | A new particle starts on the canvas. |
| SignalMonitor.MakeParticleRanges | app/components/SignalVisualizer.tsx:37-44 | A new particle is on the canvas. Its velocity is in `[-0.15, 0.15)`, its size in `[0.5, 2.5)` and its alpha in `[0.1, 0.5)`. |
| SignalMonitor.InitParticles | app/components/SignalVisualizer.tsx:35-45 | Thirty particles, each made from its own draws. |
| SignalMonitor.Wrap | app/components/SignalVisualizer.tsx:114-117 | A wrapped coordinate is on the canvas, and one already on the canvas is unchanged. |
| SignalMonitor.StepParticle | app/components/SignalVisualizer.tsx:109-117 | A stepped particle is on the canvas and keeps its velocity, size and alpha. |
| SignalMonitor.StepParticleProperties | app/components/SignalVisualizer.tsx:109-117 | A stepped particle is on the canvas with only its position changed. A move that stays on the canvas is taken exactly. |
| SignalMonitor.StepNKeeps | app/components/SignalVisualizer.tsx:109-117 | After n frames a particle keeps its velocity, size and alpha, and is on the canvas. |
| SignalMonitor.AxisCount | app/components/SignalVisualizer.tsx:50-51 | The last lattice coordinate counted lies below `size - 20` and the next one does not. |
| SignalMonitor.AxisCountSpec | app/components/SignalVisualizer.tsx:50-51 | Lattice coordinate k is below `size - 20` exactly when k is below the axis count. |
| SignalMonitor.GridCoordsMembers | app/components/SignalVisualizer.tsx:50-53 | The grid holds `cols*rows` points, and a point is in it exactly when it is some `(a, b)` in range. |
| SignalMonitor.GridIsLattice | app/components/SignalVisualizer.tsx:48-54 | The grid holds exactly the points `(20+40a, 20+40b)` inside the 20 px margins. |
| SignalMonitor.BuildGrid | app/components/SignalVisualizer.tsx:48-54 | The nested loops produce the lattice column by column, each point with its own pulse phase. |
| SignalMonitor.GridColumn | app/components/SignalVisualizer.tsx:51-53 | The inner loop appends one column top to bottom and keeps the earlier points. |
| SignalMonitor.GridSize | app/components/SignalVisualizer.tsx:21-22 | On 400 by 500 the grid has 9 columns of 12 dots, 108 in all. |
| SignalMonitor.RealRem | app/components/SignalVisualizer.tsx:100 | `%` on non-negative numbers lies in `[0, m)`. |
| SignalMonitor.ScanY | app/components/SignalVisualizer.tsx:100 | The scan line's centre lies in `[-50, height+50)`. |
| SignalMonitor.ScanYRange | app/components/SignalVisualizer.tsx:100 | The scan line stays within 50 px beyond the canvas top and bottom. |
| SignalMonitor.HexLabel | app/components/SignalVisualizer.tsx:178-179 | A corner label is digits followed by `h`. |
| SignalMonitor.HexLabelRoundTrip | app/components/SignalVisualizer.tsx:178-179 | The label's digits read back in base 16 as the size. |
| SignalMonitor.CanvasLabels | app/components/SignalVisualizer.tsx:178-179 | The labels read `190h` and `1F4h`. |
| SignalMonitor.Monitor.constructor | app/components/SignalVisualizer.tsx:20-54 | The particles come from their draws, and the grid is the lattice with its pulse phases. Frame counter 0. |
| SignalMonitor.Monitor.Frame | app/components/SignalVisualizer.tsx:56-59 | The counter advances by one, and each particle takes one step while staying valid. |
| SignalMonitor.Monitor.ScanLine | app/components/SignalVisualizer.tsx:100 | The scan line lies in `[-50, height+50)`. |
| NetworkPortrait.NodeIds | app/components/NetworkPortrait.tsx:23-80 | The four node ids differ: image, noise, mix, bsdf. |
| NetworkPortrait.Float | app/components/NetworkPortrait.tsx:119-125 | A floating node stays within its amplitudes of its base. |
| NetworkPortrait.Offset | app/components/NetworkPortrait.tsx:119-120 | A bounded wave times an amplitude lies within the amplitude. |
| NetworkPortrait.PlaceNode | app/components/NetworkPortrait.tsx:86-126 | A node starts at its base, and in a frame it is never farther from its base than its amplitudes. |
| NetworkPortrait.Placed | app/components/NetworkPortrait.tsx:115-126 | No node written means an empty dictionary; the node written last is found at its own placement. |
| NetworkPortrait.PlacedKeys | app/components/NetworkPortrait.tsx:86-96 | The dictionary's keys are exactly the ids written. |
| NetworkPortrait.PlacedLookup | app/components/NetworkPortrait.tsx:115-126 | A node's entry is its own placement as long as no later node shares its id. |
| NetworkPortrait.Positions | app/components/NetworkPortrait.tsx:115-126 | The `forEach` fill produces the specified dictionary. |
| NetworkPortrait.PrefixStep | app/components/NetworkPortrait.tsx:117-126 | Writing one more node adds its id, and earlier last entries remain last. |
| NetworkPortrait.FrameWithinAmplitude | app/components/NetworkPortrait.tsx:115-126 | In any frame, each node's entry is within its amplitudes of its base. |
| NetworkPortrait.ConnectionPath | app/components/NetworkPortrait.tsx:137-151 | A move to the node's absolute position, then one curve to the centre. The first control point is level with the start and 30% of the way across. The second is level with the end and 30% back. The control points are symmetric about the midpoint. |
| NetworkPortrait.Portrait.constructor | app/components/NetworkPortrait.tsx:83-96 | Hidden, not loaded, nothing hovered, every node at its base. |
| NetworkPortrait.Portrait.OnShowTimer | app/components/NetworkPortrait.tsx:103 | The 100 ms timer makes the portrait visible. |
| NetworkPortrait.Portrait.OnImageLoad | app/components/NetworkPortrait.tsx:100 | The image is marked loaded. |
| NetworkPortrait.Portrait.SetHovered | app/components/NetworkPortrait.tsx:348-349 | Pointer enter or leave sets or clears the hovered node. |
| NetworkPortrait.Portrait.Animate | app/components/NetworkPortrait.tsx:112-128 | A frame replaces the dictionary with the floating positions, keeping every key. |
| NetworkPortrait.Portrait.Connection | app/components/NetworkPortrait.tsx:182-185 | Every node's lookup succeeds, and its path starts at its current position and ends at the centre. |
| NetworkPortrait.EveryNodePlaced | app/components/NetworkPortrait.tsx:86-126 | The keys are the four ids, and each node's entry is its own placement. |
| NetworkPortrait.OneHovered | app/components/NetworkPortrait.tsx:184 | At most one node is highlighted. |
| NetworkPortrait.FrameAmplitudes | app/components/NetworkPortrait.tsx:115-126 | In every frame each of the four nodes is within its amplitudes of its base. |

## Findings

| source | as written | input that shows it | evidently intended | confidence | as-written member | corrected member |
|---|---|---|---|---|---|---|
| app/components/BootSequence.tsx:45-67 | The skip button reports completion but leaves the line timers and the completion timer pending. The line timers keep updating state though nothing is drawn, and a further report comes 2800 ms after the mount. | A first visit whose skip button is pressed before the completion timer, 2000 ms after the mount. | A skip ends the boot: the pending timers are cleared and no timer reports after it. | not executed | BootSequence.SkipLeavesReportOwed | BootSequence.CancellingSkipReportsOnce |

## Left out

- Rendering is not modelled. This covers canvas and WebGL drawing, shaders, gradients, framer-motion transitions, CSS, the progress bar, the blinking cursor, the signal waves, the side bars, the brackets, the crosshair, the ring glow and the glyph plane's vertical drift. These only draw and keep no state.
- Real-time scheduling is not modelled. `requestAnimationFrame` and `setInterval` are events the caller invokes (`Frame`, `Animate`, `Tick`, `Refresh`). `setTimeout` is an explicit queue. Effect clean-ups that cancel frames or intervals are not modelled, except the carousel's hover, which clears its interval.
- Host services are inputs, not models. These are the DOM, `sessionStorage` (a boolean flag), `window.scrollY`, `devicePixelRatio`, `getBoundingClientRect` and image loading.
- `Date` arithmetic is not modelled: the uptime's millisecond difference and the portrait's elapsed time are inputs. Float rounding is not modelled either; numbers are exact reals.
- `BootSequence`: auto-scrolling the terminal to the bottom is not modelled (DOM only).
- `BootSequence.Mount`: runs only while the flag is being checked or once it is set. The effect does run again whenever the page re-renders with a new `onComplete`, but the first report sets the flag before any re-render; a run with the flag unset after the first would need a remount, which the page does not do.
- `CodeReveal`: the per-row vertical position in the draw loop (lines 217-222) is not modelled. This includes the per-column scroll factor and the wrap by `totalHeight`. Only which column a row is drawn in is modelled.
- `CodeReveal.RevealController.OnImageLoad`: requires that no image has loaded yet. Re-loading after an `imageSrc` change is not modelled.
- `CodeReveal.RevealController.OverlayDrawn`: states only that the overlay implies a positive hover level, not the exact 0.01 threshold in both directions.
- `GlyphField.GlyphPlane.Frame`: the UV buffer is an array of one record per instance rather than four floats per instance. The `Math.random` re-picks are an input sequence with one draw per instance.
- `GlyphField.GlyphPlane.Frame`: requires the recorded scroll not to exceed `maxScroll`, which is assumed of `scrollY` (elastic overscroll can briefly exceed it).
- `SignalMonitor.Monitor.Frame`: the particles are a `seq` of values that the frame replaces, not objects mutated in place.
- `SignalMonitor.Monitor.constructor`: does not state the literal 108. `GridSize` states that the axis counts give 9 by 12 = 108.
- `Showcase`: the uppercase project label and the video `play()` call are not modelled. `MobileCarousel` has no dot clicks, so `GoToSlide` applies to the desktop carousel only.
- `NetworkPortrait.ConnectionPath`: the path is a sequence of commands, not the SVG string; number-to-text formatting is not modelled. `midX` is computed in the source but never used.
- `NetworkPortrait.Float`: `sin` and `cos` are parameters assumed to lie in `[-1, 1]`, and the elapsed time is an input.
- `FolderTree`: the folder icon, the fun facts and the `useInView` animation are not modelled (display only).
