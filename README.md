# vx-app core, modelled in Dafny

This project models the logic of a desktop time-tracking shell (a React UI
hosted by Electron) and its local screenshot relay server:

- **Screenshot relay** (`screenshot-server.js`): one in-memory "latest
  capture" slot. `/save-screenshot` validates the payload, derives the file
  name `screenshot_<ms>.png`, strips a data-URL header, creates the folder
  (tolerating `EEXIST`), writes the file and fills the slot; it answers 400,
  200 or 207. `/latest-screenshot` answers 404 until the slot is filled and
  then the slot with a derived `filePath`. Modelled as pure functions
  (`ScreenshotServer.Save`, `ScreenshotServer.GetLatest`) plus a `Server`
  class whose handler methods are proved to follow them.
- **Session view** (`src/components/TaskDetails.tsx`): the one-second tick of
  the session clock with carries at 60, the guarded tick of today's time,
  the tracking switch (start, pause, stop, break) as a `Tracker` class, and
  the three formatters, each proved by a parser that reads its output back.
- **Project list** (`src/components/TaskList.tsx`): the case-insensitive
  search filter, the expansion toggles kept in maps, the selected subtask and
  the subtask link.
- **Details page** (`src/pages/TaskDetailsPage.tsx`): the chained first-match
  lookup of project, task and subtask that skips a level when the one above
  is missing.
- **Settings panel** (`src/components/SettingsPanel.tsx`): the default
  settings, the one-key update, demo login and logout, the interval input
  (`parseInt(value) || 10`, with JavaScript's `parseInt` written out) and the
  avatar initial.

Shared pieces: `Decimal` (how `${n}` and `padStart(2, '0')` write a
non-negative integer, and the parser that inverts it), `Strings`
(`indexOf`/`includes`, `split` on one character and its inverse `join`,
ASCII case mapping), `Catalog` (the project tree types and sample data,
which `TaskList.tsx` and `TaskDetailsPage.tsx` each declare identically,
and `Array.prototype.find`).

Two behaviours of the relay's code that a reader may not expect:

- A failure to create the folder happens inside the inner `try`
  (`screenshot-server.js:58-60`), so it yields 207, not 500.
- The slot stores the payload as received, data-URL header included
  (`screenshot-server.js:67`); only the file receives the stripped text.

The repository has no capture scheduler: `electron/main.mjs` only logs, so
none is modelled.

As written, the today-time guard (`seconds % 60 === 0 && seconds > 0`)
reads a session clock whose seconds stay in 0..59. It therefore never
holds, and today's time never advances. The model keeps this behaviour and
proves it (`TaskDetails.TodayGuardNeverFires`, `TaskDetails.Tracker.Tick`).

Parameters stand in for the outside world. A save is given `Date.now()`
(for the file name), `new Date().toISOString()` (read later, for the slot)
and the outcomes of `fs.mkdir` and `fs.writeFile`. The screenshots folder
is built from a given home directory.

## Model

| member | source | states |
|---|---|---|
| ScreenshotServer.Server.constructor | screenshot-server.js:17-21 | the slot starts with data, timestamp and filename all null and nothing written |
| ScreenshotServer.EmptySlotNotFound | screenshot-server.js:108-113 | on the initial slot the latest-capture endpoint answers 404 with success false |
| ScreenshotServer.EnsureFolder | screenshot-server.js:28-37 | folder creation succeeds iff mkdir succeeded or failed with code EEXIST; any other error is rethrown unchanged |
| ScreenshotServer.FilenameRoundTrip | screenshot-server.js:49-50 | the file name is `screenshot_` + decimal timestamp + `.png`, and the timestamp can be read back from it |
| ScreenshotServer.FilenameInjective | screenshot-server.js:49-50 | two saves get the same file name iff they have the same millisecond timestamp |
| ScreenshotServer.StripDataUrlPrefix | screenshot-server.js:54-56 | without `base64,` the payload is kept whole; with it, the result is the text after the first marker, up to the next marker or the end, and holds no marker |
| ScreenshotServer.SaveStatus | screenshot-server.js:40-103 | a save answers 400, 200 or 207; 400 iff the payload is missing or empty; 200 iff it is present and both folder creation and write succeed; 200 and 207 carry success true |
| ScreenshotServer.RejectedSaveChangesNothing | screenshot-server.js:44-46 | a 400 leaves the slot unchanged and writes no file |
| ScreenshotServer.AcceptedSaveOverwrites | screenshot-server.js:58-94 | an accepted save replaces the whole slot, whatever it held, with the unstripped payload, the ISO time, and the file name on 200 or null on 207 |
| ScreenshotServer.SavedWritesStrippedData | screenshot-server.js:49-78 | on 200 exactly the stripped payload is written at folder/screenshot_<ms>.png, and that path is returned |
| ScreenshotServer.PartialSaveReportsError | screenshot-server.js:79-93 | a 207 carries the message of the folder error if folder creation failed, else that of the write error |
| ScreenshotServer.SavePreservesValid | screenshot-server.js:66-86 | saving keeps the slot either empty, or a non-empty payload with a time and a capture file name or null |
| ScreenshotServer.SaveThenGetLatest | screenshot-server.js:115-123 | after an accepted save the endpoint returns the unstripped payload and time, with filePath = folder/filename after a 200 and null after a 207 |
| ScreenshotServer.NeverEmptyAgain | screenshot-server.js:106-123 | once the endpoint returns a capture, no later sequence of saves and reads makes it answer 404 |
| ScreenshotServer.LastAcceptedSaveDecides | screenshot-server.js:66-86 | last writer wins: the slot after a sequence holding an accepted save does not depend on the slot before it |
| ScreenshotServer.RunEndingInSave | screenshot-server.js:66-86 | after any sequence ending in an accepted save, the slot holds that save's payload |
| ScreenshotServer.Server.HandleSave | screenshot-server.js:40-103 | the handler's new slot, response and file writes are those of the save function, and the slot stays valid |
| ScreenshotServer.Server.HandleGetLatest | screenshot-server.js:106-123 | the handler answers as the latest-capture function does, with a capture iff the slot holds a non-empty payload |
| TaskDetails.TickSession | src/components/TaskDetails.tsx:76-92 | a session tick advances hours*3600+minutes*60+seconds by exactly 1 and keeps seconds and minutes below 60 |
| TaskDetails.NormalUnique | src/components/TaskDetails.tsx:76-92 | a clock with seconds and minutes below 60 is determined by its total, so the tick's result is the unique such clock one second on |
| TaskDetails.TicksMatchReference | src/components/TaskDetails.tsx:74-92 | n ticks from a normal clock give the reference clock (total/3600, total%3600/60, total%60) of the advanced total |
| TaskDetails.TickToday | src/components/TaskDetails.tsx:96-106 | a today tick advances hours*60+minutes by 1 and carries minutes at 60 |
| TaskDetails.TodayGuardNeverFires | src/components/TaskDetails.tsx:95 | with session seconds below 60 the today-update guard never holds |
| TaskDetails.Tracker.constructor | src/components/TaskDetails.tsx:40-42 | tracking starts off with both clocks at zero |
| TaskDetails.Tracker.Tick | src/components/TaskDetails.tsx:75-116 | one interval firing applies the session tick, applies the today tick only when the guard holds on the clock before the tick, and so leaves today unchanged from a normal state |
| TaskDetails.Tracker.StartTracking | src/components/TaskDetails.tsx:124-132 | tracking becomes true; the start notice is given iff it was false |
| TaskDetails.Tracker.PauseTracking | src/components/TaskDetails.tsx:134-142 | tracking becomes false; the pause notice is given iff it was true; the clocks are untouched |
| TaskDetails.Tracker.StopTracking | src/components/TaskDetails.tsx:144-162 | tracking becomes false; the stop notice with the session summary is given iff it was true; the clock is not reset |
| TaskDetails.Tracker.TakeBreak | src/components/TaskDetails.tsx:164-171 | tracking becomes false unconditionally, with a notice that depends on whether it was tracking |
| TaskDetails.StopSummaryFields | src/components/TaskDetails.tsx:152-155 | the summary's space-separated fields are `Hh` iff hours > 0, `Mm` iff minutes > 0 or hours > 0, and always `Ss` last |
| TaskDetails.StopSummaryRoundTrip | src/components/TaskDetails.tsx:152-155 | every clock's summary reads back as that clock |
| Decimal.Pad2RoundTrip | src/components/TaskDetails.tsx:177-181 | padStart(2, '0') yields at least two digits, exactly two below 100, and reads back as the number |
| TaskDetails.SessionDisplayFields | src/components/TaskDetails.tsx:175-183 | the display's ':'-fields are exactly `H`, `MM`, `SS` when hours > 0, `M`, `SS` when only minutes are set, and the literal `0`, `SS` otherwise, with `MM`/`SS` the padStart(2, '0') forms |
| TaskDetails.SessionDisplayRoundTrip | src/components/TaskDetails.tsx:175-183 | the session display reads back as the clock for every clock, with three fields iff hours > 0; every field is all digits and each after the first is two digits wide on a normal clock |
| TaskDetails.TodayDisplayRoundTrip | src/components/TaskDetails.tsx:185-191 | today's display reads back as the time; its space-separated fields are exactly `H:MM`, `hrs` when hours > 0 and `M`, `mins` otherwise, and the `MM` field is the zero-padded minutes, two digits wide on a normal time |
| TaskList.FilterProjects | src/components/TaskList.tsx:98-101 | a project is kept iff its lowercased name or client contains the lowercased term, and a matching project occurs in the result exactly as often as in the list; the result is no longer than the list |
| TaskList.FilterIsSubsequence | src/components/TaskList.tsx:98 | the filtered list is an order-preserving subsequence of the list |
| TaskList.EmptySearchKeepsAll | src/components/TaskList.tsx:98-101 | an empty search term keeps every project |
| TaskList.FilterIdempotent | src/components/TaskList.tsx:98-101 | filtering again with the same term changes nothing |
| TaskList.SearchIgnoresCase | src/components/TaskList.tsx:99-100 | a term and its lowercased form select the same projects |
| TaskList.Toggle | src/components/TaskList.tsx:80-85 | the toggled id maps to the negation of its shown state (absent reads as false); every other entry is unchanged |
| TaskList.ToggleTwice | src/components/TaskList.tsx:80-85 | toggling twice restores every shown state and leaves an explicit entry for an id that was absent |
| TaskList.SubtaskLinkRoundTrip | src/components/TaskList.tsx:170 | the link `/project/<pid>/task/<tid>/subtask/<sid>` matches the details route with exactly those ids when they contain no '/'; the route pattern `/project/:projectId/task/:taskId/subtask/:subtaskId` is inferred from the link template and the `useParams` names, as no router configuration is part of this model |
| TaskList.TaskListView.constructor | src/components/TaskList.tsx:75-78 | the list starts with an empty search, nothing expanded and no subtask selected |
| TaskList.TaskListView.SetSearchTerm | src/components/TaskList.tsx:112 | only the search term changes |
| TaskList.TaskListView.ToggleProject | src/components/TaskList.tsx:80-85 | the expanded-projects map is toggled at the id; the expanded-tasks map and the rest stay unchanged |
| TaskList.TaskListView.ToggleTask | src/components/TaskList.tsx:87-92 | the expanded-tasks map is toggled at the id; the expanded-projects map and the rest stay unchanged |
| TaskList.TaskListView.SelectSubtask | src/components/TaskList.tsx:94-96 | the selected subtask id becomes the given id; nothing else changes |
| Catalog.FindIndex | src/pages/TaskDetailsPage.tsx:86 | the index found is the first whose element matches; none is found iff no element matches |
| Catalog.FindFirstMatch | src/pages/TaskDetailsPage.tsx:86 | find returns an element that matches with no match before it, and undefined iff nothing matches |
| TaskDetailsPage.ResolveLevels | src/pages/TaskDetailsPage.tsx:85-98 | the project is the first with the requested id, or undefined iff none has it; a missed project keeps the old task and subtask, a missed task the old subtask |
| TaskDetailsPage.ResolveLooksInside | src/pages/TaskDetailsPage.tsx:89-95 | the task is the first match among the found project's tasks and the subtask the first match among the found task's subtasks |
| TaskDetailsPage.ResolveFromNothingIsNested | src/pages/TaskDetailsPage.tsx:77-98 | from the undefined initial state a found task lies in the found project and a found subtask in the found task |
| TaskDetailsPage.ShownSelectionIsCurrent | src/pages/TaskDetailsPage.tsx:85-98 | from any previous state, when all three are present they are the current lookups, each inside the one above |
| TaskDetailsPage.StaleTaskSurvives | src/pages/TaskDetailsPage.tsx:86-97 | an unknown project id keeps a previous task and subtask, leaving them without a project |
| TaskDetailsPage.Page.constructor | src/pages/TaskDetailsPage.tsx:77-79 | project, task and subtask start undefined |
| TaskDetailsPage.Page.OnParams | src/pages/TaskDetailsPage.tsx:85-98 | the effect's writes leave the state that the lookup function gives for the previous state and the parameters |
| SettingsPanel.DefaultsAreOnAndTen | src/components/SettingsPanel.tsx:28-36 | every setting has a default: the six switches true and the interval 10 |
| SettingsPanel.ChangeSetting | src/components/SettingsPanel.tsx:45-50 | the key takes the new value and every other setting is unchanged |
| SettingsPanel.Panel.constructor | src/components/SettingsPanel.tsx:24-36 | the panel starts logged in, with empty username and password and the default settings |
| SettingsPanel.Panel.SetUsername | src/components/SettingsPanel.tsx:119 | the username becomes the typed text |
| SettingsPanel.Panel.SetPassword | src/components/SettingsPanel.tsx:129 | the password becomes the typed text |
| SettingsPanel.Panel.HandleLogin | src/components/SettingsPanel.tsx:52-58 | logged in afterwards iff already logged in or both username and password are non-empty; nothing else changes |
| SettingsPanel.Panel.HandleLogout | src/components/SettingsPanel.tsx:60-64 | logged out, with username and password cleared to "" |
| SettingsPanel.Panel.HandleSettingChange | src/components/SettingsPanel.tsx:45-50 | the settings become the one-key update of the old settings |
| SettingsPanel.Panel.HandleIntervalInput | src/components/SettingsPanel.tsx:221 | the interval becomes the fallback-parsed input, which is never 0 |
| SettingsPanel.IntervalFromInput | src/components/SettingsPanel.tsx:221 | the stored interval is never 0 |
| SettingsPanel.ParseIntOfDecimal | src/components/SettingsPanel.tsx:221 | parseInt reads a decimal numeral, optionally negated, as its value and stops at the first non-digit |
| SettingsPanel.IntervalKeepsTypedValue | src/components/SettingsPanel.tsx:216-221 | any positive or negative numeral is stored as typed: the 1..60 bounds are not enforced |
| SettingsPanel.ParseIntOfDigitFree | src/components/SettingsPanel.tsx:221 | parseInt of any text holding no decimal digit is NaN, after skipping white space, a sign or anything else |
| SettingsPanel.IntervalFallsBack | src/components/SettingsPanel.tsx:221 | "0" or any text without a decimal digit (the empty input among them) is stored as 10 |
| SettingsPanel.HexStringValue | src/components/SettingsPanel.tsx:221 | a hexadecimal numeral without leading zeros has the value it was written from (the reference writer for the hexadecimal case of parseInt) |
| SettingsPanel.MagnitudeOfHex | src/components/SettingsPanel.tsx:221 | after a 0x prefix, parseInt's unsigned part reads the hexadecimal numeral of every n as n |
| SettingsPanel.IntervalReadsHexadecimal | src/components/SettingsPanel.tsx:221 | parseInt without a radix reads a 0x prefix as hexadecimal, so line 221's fallback expression maps "0x" and the numeral of any positive n to n, and "-0x" and it to -n |
| SettingsPanel.IntervalReadsHexExample | src/components/SettingsPanel.tsx:221 | a worked example of the rule above: the string "0x1A" gives 26 |
| SettingsPanel.AvatarInitial | src/components/SettingsPanel.tsx:95 | the initial is one character, never a lower-case letter, the username's first character up to case, and 'A' for an empty username |

## Left out

- HTTP plumbing of the relay (CORS, JSON body limit, static serving of `/screenshots`, `listen`, `process.exit`): I/O. The handlers are functions and methods that return a response value.
- The 500 branch of `/save-screenshot` and of `/latest-screenshot`: it is reached only through a truthy payload that is not a string, or through an unexpected exception. The payload is modelled as an optional string.
- Real filesystem, base64 decoding, `Date.now()` and `toISOString`: these are parameters. A written file is recorded with the base64 text given to `fs.writeFile`, not the decoded bytes.
- Concurrent requests and event-loop interleaving: requests are applied one after another.
- The polling `fetch` of the latest screenshot, and the `setInterval` wiring of the timer: timers and network. One firing is the `Tracker.Tick` method.
- The random keyboard and mouse counters: randomness.
- Fractional-hours displays and the `hoursTotal`/`hoursCompleted` figures: floating point; the fields are carried as `real` but not used.
- Toasts, JSX, theme, `src/types/electron.ts`, `electron/main.mjs`, `electron/preload.js`, `src/pages/Index.tsx`, `src/components/BottomNav.tsx`: UI composition, mocks and IPC wiring with no logic to model.
- `toLowerCase`, `toUpperCase` and `charAt`: modelled on ASCII letters and whole characters; Unicode case mapping and UTF-16 code units are not modelled.
- SettingsPanel.ParseInt: does not distinguish -0 from 0 (both are falsy, so the fallback treats them alike). It does not model the rounding of numerals beyond 2^53 or the overflow to Infinity.
- SettingsPanel.IntervalFromInput: accepts any string. The field is a number input, and a browser sanitises a value that is not a valid floating-point number to "" before the handler sees it, so in the running page "0x1A" or "abc" arrive as "" and are stored as 10; that sanitisation is not modelled.
- ScreenshotServer.JoinPath: written as POSIX `folder + "/" + name`; `path.join` normalisation and Windows separators are not modelled.
