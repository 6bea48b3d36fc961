# Mood tracker prompt: a Dafny model

This project models the deterministic core of the Electron mood check-in
widget in `main.js`. The widget is a background process. It watches the
system idle time and pops a small always-on-top prompt window. It records
the mood the user reports into a local `moods` table and serves a history
query back to the window.

The model has five modules:

- `Placement`: the window placement calculator (`getWindowPosition`). A
  corner name and the work-area size give the window's top-left corner. The
  window is a fixed 450 x 550 pixels with 20 pixels of padding. Any name
  that is not a corner falls back to bottom-right.
- `ConfigStore`: the configuration document and `loadConfig`. The file on
  disk is an `Option<Config>`, where `None` is a file that is missing or
  cannot be parsed. A failed read yields `{position: "bottom-right",
  idleMinutes: 2}`.
- `IdleMonitor`: the idle decision of `checkIdleState`. The threshold in
  seconds is `(idleMinutes || 2) * 60`. JavaScript's falsy `||` is written
  out: an absent value and 0 both select 2.
- `MoodLog`: the `moods` table as an append-only sequence of rows. An
  insert gets the next autoincrement id and the insert-time clock. An empty
  note becomes null. The history query keeps the rows with
  `timestamp > now - days * 86400000` (30 days by default), newest first.
- `App`: the class `MoodTracker`. It holds the window's visibility, its
  position, the configuration file and the table. It has one method per
  event handler: the idle tick, the three tray actions, the global shortcut,
  and the IPC channels `save-mood`, `dismiss`, `get-config`, `save-config`
  and `get-moods`.

The clock, the measured idle time and the work-area size are method
parameters. So are the failure of a store insert, a config write or a
history query.

Some details of `main.js` that the model keeps:

- The window is 450 x 550. So top-right on a 1000 x 800 work area is
  (530, 20).
- The default for `idleMinutes` is 2 minutes.
- The table only refuses a NULL mood. An empty mood string is stored.
- The window is positioned at start-up and on "save-config" only. Showing
  it does not recompute its position.
- A failed history query replies with no rows at all (`undefined`), not
  with an error flag.

## Model

| member | source | states |
|---|---|---|
| `Placement.Positions` | main.js:53-61 | the lookup table has exactly the four corner names as keys |
| `Placement.Place` | main.js:47-64 | top-left is (20, 20); top-right is (W-470, 20); bottom-left is (20, H-570); bottom-right and every other name give (W-470, H-570); the window always touches the padding line of one vertical and one horizontal edge |
| `Placement.FallbackIsBottomRight` | main.js:63 | a name outside the four corners places the window exactly where "bottom-right" does |
| `Placement.PlacedInsideWorkArea` | main.js:53-61 | on a work area at least 490 x 590, every placement keeps the window inside the work area, at least 20 px from each edge |
| `ConfigStore.LoadConfig` | main.js:35-40 | a readable file is returned unchanged; a missing or unparsable one gives position "bottom-right" with 2 idle minutes |
| `IdleMonitor.OrFalsy` | main.js:134 | the falsy "or" of JavaScript gives the minutes when they are present and nonzero, and the fallback when they are absent or 0 |
| `IdleMonitor.IdleThreshold` | main.js:134 | the threshold is minutes*60 when the minutes are present and nonzero, 120 when they are absent or 0, and never below 60 |
| `IdleMonitor.IsIdle` | main.js:136 | a tick counts as idle iff the measured seconds reach minutes*60, or 120 when the minutes are absent or 0 |
| `IdleMonitor.IdleBoundary` | main.js:136 | threshold-1 seconds is not idle, the threshold itself is, and 0 seconds never is |
| `IdleMonitor.IdleMonotone` | main.js:136 | once a measured idle time counts as idle, every longer one does too |
| `MoodLog.ValidLog` | main.js:26 | in a table whose autoincrement ids grow along it, no two rows share an id |
| `MoodLog.NextId` | main.js:26 | the next autoincrement id is larger than every id in the table, and 1 for an empty table |
| `MoodLog.NoteOrNull` | main.js:175 | a note is stored exactly when it is present and non-empty, and then unchanged |
| `MoodLog.Inserted` | main.js:173-175 | an insert keeps the old rows as a prefix and keeps ids increasing; the one new row carries the mood, the energy, the normalised note, the clock reading and the next id |
| `MoodLog.Cutoff` | main.js:197-198 | the query bound is now minus 30 days without a day count, else now minus days*86400000 ms |
| `MoodLog.Since` | main.js:200 | the filtered rows are exactly the rows newer than the bound, with their multiplicities |
| `MoodLog.SortedDescHeadIsNewest` | main.js:200 | in a list ordered by `timestamp DESC` the first row is at least as new as every row |
| `MoodLog.TailNoNewer` | main.js:200 | in a newest-first list no later row is newer than the first |
| `MoodLog.ConsSorted` | main.js:200 | a row at least as new as every row of a newest-first list can go in front of it |
| `MoodLog.InsertByTime` | main.js:200 | inserting into a newest-first list keeps it newest-first and adds exactly the one row |
| `MoodLog.SortDesc` | main.js:200 | the result is ordered newest-first and is a permutation of the input |
| `MoodLog.History` | main.js:197-205 | the history is newest-first, holds a row if and only if it is in the table and newer than the bound, and keeps each row's multiplicity |
| `MoodLog.DefaultWindowExample` | main.js:197-205 | rows 40, 10 and 1 days old under the default window give the 1-day row, then the 10-day row |
| `MoodLog.SinceExample` | main.js:200 | a row at or before the bound is dropped and newer ones are kept, in table order |
| `MoodLog.SortExample` | main.js:200 | two rows come back newest first |
| `App.MoodTracker.constructor` | main.js:66-85 | the window starts hidden at the position the loaded configuration names; the table keeps its stored rows |
| `App.MoodTracker.CheckIdleState` | main.js:131-139 | after a tick the window is visible iff it was visible before or the idle time reached the threshold; nothing else changes |
| `App.MoodTracker.LogMood` | main.js:96-97 | the tray item "Log Mood" leaves the window visible, from either state, and changes nothing else |
| `App.MoodTracker.ViewHistory` | main.js:100-104 | the tray item "View History" leaves the window visible, from either state, and changes nothing else |
| `App.MoodTracker.TrayDoubleClick` | main.js:116-118 | a tray double-click leaves the window visible and changes nothing else |
| `App.MoodTracker.Shortcut` | main.js:147-150 | the global shortcut leaves the window visible and changes nothing else |
| `App.MoodTracker.SaveMood` | main.js:171-181 | the insert fails iff the mood is null or the store errs; a failure adds no row, a success appends exactly the inserted row; the window is hidden either way |
| `App.MoodTracker.Dismiss` | main.js:183-185 | the window is hidden and the table is untouched |
| `App.MoodTracker.GetConfig` | main.js:187-189 | replies with the stored document, or the default one when there is none |
| `App.MoodTracker.SaveConfig` | main.js:191-195 | a successful save replaces the document wholesale, so a later load returns it, and moves the window to that document's position; visibility is unchanged; a failed write changes nothing |
| `App.MoodTracker.GetMoods` | main.js:197-206 | a failed query replies with no rows; otherwise the reply is newest-first and holds exactly the table's rows newer than the bound, each as often as stored |
| `App.TopRightScenario` | main.js:131-139 | with top-right, 1 idle minute and a 1000 x 800 work area, the window stays hidden at 59 idle seconds and shows at (530, 20) at 60 |
| `App.SaveThenGetConfig` | main.js:187-195 | a "get-config" after a successful "save-config" replies with exactly the saved document |
| `App.RepromptAfterDismiss` | main.js:136-138 | the idle check is level-triggered: a dismiss while the user is still idle is undone by the next tick |
| `App.FailedSaveStillHides` | main.js:176-179 | a submission whose insert fails still hides the window and adds no row |

## Left out

- Electron calls are not modelled. This covers the `BrowserWindow` options, the tray icon and its PNG data, menu building, `app.whenReady`, `activate`, `window-all-closed` and `before-quit`, and registering and unregistering the global shortcut. None of them holds checkable logic.
- The renderer message `show-history` sent by "View History" is not modelled. It only switches the renderer's view; the model keeps the show.
- The 30-second `setInterval` is not modelled. One tick is a method that takes the measured idle time, and time does not pass in the model.
- sqlite and file I/O are not modelled. The table is a sequence, the file is an `Option`, and JSON parsing and printing are assumed to round-trip.
- The model does not capture asynchronous callbacks. An insert or query completes at once, before the next event.
- A failed config write is modelled as changing nothing. A partly written file is out of scope.
- The unused constant `IDLE_THRESHOLD` is not modelled.
- `Placement.Place`: JavaScript object lookup also finds prototype members, such as "constructor" and "__proto__". For those names the source does not fall back to bottom-right. The model treats every non-corner name as the fallback.
- `ConfigStore.LoadConfig`: a document that parses to `null` makes `createWindow` and `checkIdleState` throw (main.js:68, main.js:134); "get-config" still replies with it. A document that parses to a number, string or boolean reads as having neither field, so both defaults apply. The model covers neither case: it treats every readable file as a config. A `Config` carries only `position` and `idleMinutes`, so extra fields are not kept.
- `IdleMonitor.IdleThreshold`: minutes are naturals and idle time is whole seconds. Fractional, negative or non-numeric values are not modelled.
- `MoodLog.Cutoff`: day counts are integers, and `None` is an absent count (the default of 30). A `null` count, which gives `null * 86400000 = 0` and so a bound of `now`, and fractional counts are not modelled.
- Coordinates are unbounded integers. The source does not clamp, so they can be negative on a work area smaller than the window. JavaScript number precision is not modelled.
- `App.MoodTracker.SaveMood`: energy is an optional integer. Other JSON values the renderer might send are not modelled.
