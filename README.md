# QR Tracker: object registry and scan commit

This project models the core of the QR Tracker page (`src/app/page.tsx`).
The page keeps a list of tracked objects. Each object has a name, an
identity token (the text put in its QR code), an optional last location and
a newest-first location history. A user registers an object by name. The
page then derives a token from the upper-cased name and a clock reading. A
scan reads a token and asks the browser for the current position. Then every
object that carries that token records the position as its last location and
puts it in front of its history. A busy flag is raised for the duration of a
scan, and the scan button is disabled while it is raised.

Modules, one per concern:

- `Wrappers`: `Option` and `Result`.
- `Text`: JavaScript's `\s` whitespace, `trim`, `replace(/\s+/g, '_')`,
  upper-casing, and decimal rendering with its inverse.
- `Registry`: `LocationData` and `TrackedObject`, the history invariant, the
  seed list, the token, the download file name, registration, the scan
  commit (`prev.map(...)`) and the "objects with a location" filter.
- `TimeAgo`: the hour and day buckets of `formatTimeAgo`.
- `Geolocation`: `getCurrentLocation`, with the provider's answer as input.
- `App`: the class `TrackingApp`. Its fields are the component's state:
  `objects`, `isScanning`, `newObjectName` and `showAddDialog`. Its methods
  are the handlers.

Facts about the code that shape the model:

- The code shows the success alert after the `map` whether or not an object
  matched (line 238). So a scan has two outcomes, recorded or failed, and a
  token that matches nothing still counts as recorded.
- The code builds `lastLocation` and `locationHistory[0]` of each seed as
  separate literals, and each one reads the clock (lines 51 and 58, 77 and
  84). The model compares locations by value, and the seed list uses one
  clock reading `now` (see `Registry.SampleObjects` under "## Left out").
- Distinct tokens are proved only for different clock readings
  (`TokensDifferByStamp`, `AddKeepsTokensDistinct`). Two registrations in
  the same millisecond collide exactly when their names agree once
  upper-cased and whitespace-collapsed (`SameStampTokens`). For example "a b"
  and "A_B" collide (`SpaceAndUnderscoreCollide`), while "A" and "B" do not.
  Nothing makes `id` unique, and the model proves no uniqueness for it.
- An object may be registered while a scan is waiting. The scan then commits
  to the list as it is at that moment, because the code uses the functional
  updater `prev => prev.map(...)`. So the new object is kept.
  `TrackingApp.FinishScan` takes `objects` as it stands when it runs.

Inputs that stand for the outside world are parameters:

- each clock reading (`idStamp`, `tokenStamp`, `createdAt`, `now`);
- the scanned token (`scanned`; the page hard-codes `'QR_NOTEBOOK_001'`);
- whether the browser has a geolocation provider (`supported`);
- the provider's answer (`reading`);
- the four-decimal rendering of the coordinates (`fixedText`).

## Model

| member | source | states |
|---|---|---|
| Registry.SampleObjects | src/app/page.tsx:42-92 | the seed list has two objects, each with a consistent history in newest-first order, distinct tokens, and a creation time in the past |
| Registry.SeedTokensCarryNoStamp | src/app/page.tsx:44-90 | the seed tokens end in "001" and "002", which have a leading zero and so are no clock reading's decimal form; no generated token can equal them |
| Registry.QrToken | src/app/page.tsx:253 | the token starts with `QR_`, contains no whitespace, and its segment after the last `_` is the decimal clock reading |
| Registry.StampOf | src/app/page.tsx:253 | a stamp is read back exactly when the token's last segment is the decimal form of some number, and its decimal form is that segment |
| Registry.StampRoundTrip | src/app/page.tsx:253 | the clock reading can be read back from the token |
| Registry.TokensDifferByStamp | src/app/page.tsx:253 | registrations at different clock readings get different tokens, whatever their names (the "unique QR code" of line 322) |
| Registry.SameStampTokens | src/app/page.tsx:253 | at one clock reading, two names give the same token exactly when they agree once upper-cased and whitespace-collapsed |
| Registry.SpaceAndUnderscoreCollide | src/app/page.tsx:253 | "a b" and "A_B" registered in the same millisecond get the same token |
| Registry.DownloadFileName | src/app/page.tsx:121 | the file name is `QR_` + name + `.png`, with no whitespace; a name without whitespace appears unchanged and is not upper-cased |
| Registry.DownloadName | src/app/page.tsx:117-124 | a download happens exactly when an image and a selected object exist, and uses that object's file name |
| Registry.NewObject | src/app/page.tsx:250-256 | a new object satisfies the history invariant |
| Registry.AddObject | src/app/page.tsx:247-258 | a blank name leaves the list unchanged; otherwise exactly one object is appended after the unchanged previous list, with the name as typed, no history, no last location, the derived token, the id from the clock and the creation time |
| Registry.AddKeepsConsistent | src/app/page.tsx:250-258 | registration keeps every object's history consistent with its last location |
| Registry.AddKeepsTokensDistinct | src/app/page.tsx:253-258 | registration keeps tokens distinct when no existing token already ends in this clock reading |
| Registry.RecordLocation | src/app/page.tsx:229-233 | a recorded object has the sample as last location and as first history entry; the history grows by exactly one; the old history is an unchanged suffix; id, name, token and creation time are kept |
| Registry.CommitScan | src/app/page.tsx:227-236 | the list keeps its length and order; objects whose token differs are returned unchanged; objects whose token matches are recorded at the sample |
| Registry.CommitWithoutMatch | src/app/page.tsx:227-236 | a token that no object carries leaves the list exactly as it was |
| Registry.CommitKeepsTokens | src/app/page.tsx:227-236 | the commit keeps every token in place, so distinct tokens stay distinct |
| Registry.CommitKeepsConsistent | src/app/page.tsx:228-233 | the commit keeps every object's history consistent with its last location |
| Registry.CommitKeepsNewestFirst | src/app/page.tsx:227-233 | if the sample is no older than any stored sample, every history stays newest first |
| Registry.TwoScans | src/app/page.tsx:227-236 | two scans of one token in turn leave that object with history [P2, P1] + old history and last location P2 |
| Registry.WithLocation | src/app/page.tsx:509 | the filter keeps exactly the objects that have a last location, and never more objects than the list holds |
| Registry.WithLocationAppend | src/app/page.tsx:509 | the filter distributes over concatenation, so it keeps relative order |
| Registry.WithLocationAfterAdd | src/app/page.tsx:254-258 | a new registration never appears among the objects with a location |
| Registry.WithLocationAfterScan | src/app/page.tsx:227-236 | after a scan, a matching object appears, with its new location, among the objects with a location |
| Registry.WithLocationHasHistory | src/app/page.tsx:509 | under the invariant, each listed object has a non-empty history whose first entry is its last location |
| Registry.DemoScanOnSeeds | src/app/page.tsx:223 | the page's simulated token records the sample on the notebook seed (history of three) and leaves the camera seed unchanged |
| Registry.RegisterThenScan | src/app/page.tsx:250-258 | scanning a newly registered object's own token leaves it with exactly that one sample and leaves the earlier objects unchanged |
| Text.TrimStart | src/app/page.tsx:248 | leading trim leaves nothing, or a string starting with non-whitespace |
| Text.TrimStartIsSuffix | src/app/page.tsx:248 | leading trim keeps a suffix and drops only whitespace |
| Text.TrimEnd | src/app/page.tsx:248 | trailing trim leaves nothing, or a string ending with non-whitespace |
| Text.TrimEndIsPrefix | src/app/page.tsx:248 | trailing trim keeps a prefix and drops only whitespace |
| Text.Trim | src/app/page.tsx:248 | `trim` leaves nothing, or a string that starts and ends with non-whitespace |
| Text.TrimIsSlice | src/app/page.tsx:248 | `trim` keeps the slice between a whitespace-only prefix and a whitespace-only suffix |
| Text.IsBlank | src/app/page.tsx:248 | the guard `!newObjectName.trim()`: true when trimming leaves the empty string |
| Text.BlankIffAllWhitespace | src/app/page.tsx:248 | a name is rejected exactly when every character of it is whitespace, the empty name included |
| Text.CollapseWhitespace | src/app/page.tsx:253 | the collapsed string has no whitespace and is no longer than the input |
| Text.CollapseWithoutWhitespace | src/app/page.tsx:253 | a string without whitespace is left unchanged |
| Text.CollapseRun | src/app/page.tsx:253 | a non-empty whitespace run becomes exactly one `_` |
| Text.CollapseAppend | src/app/page.tsx:253 | collapsing distributes over a concatenation that does not split a whitespace run; with the two lemmas above, this pins the function down |
| Text.UpperChar | src/app/page.tsx:253 | a lower-case ASCII letter becomes its capital (32 code points lower); every other character is kept |
| Text.ToUpper | src/app/page.tsx:253 | upper-casing keeps the length, replaces each lower-case ASCII letter in place by its capital, keeps every other character, and leaves no lower-case letter |
| Text.ToUpperKeepsWhitespace | src/app/page.tsx:253 | upper-casing leaves whitespace exactly where it was |
| Text.ToUpperIdempotent | src/app/page.tsx:253 | upper-casing twice is upper-casing once |
| Text.Decimal | src/app/page.tsx:251 | `toString` of a non-negative integer gives a non-empty string of digits, with no leading zero except in "0" |
| Text.ValueOfDecimal | src/app/page.tsx:251 | reading the decimal form back gives the number |
| Text.DecimalInjective | src/app/page.tsx:251 | different numbers have different decimal forms |
| Text.LastSegment | src/app/page.tsx:253 | the segment after the last `_` contains no `_`; a string without `_` is its own last segment |
| Text.LastSegmentAfter | src/app/page.tsx:253 | in x + "_" + y, where y has no `_`, the last segment is y |
| TimeAgo.HoursBetween | src/app/page.tsx:265 | the hour count is the floor of the elapsed milliseconds over one hour, negative for a future date |
| TimeAgo.DaysOfHours | src/app/page.tsx:269 | whole days of whole hours equal whole days of the elapsed milliseconds |
| TimeAgo.FormatTimeAgo | src/app/page.tsx:263-271 | under one hour elapsed (future dates included) the label is "Há poucos minutos"; under a day it is "Há h horas" with 1 <= h < 24; otherwise "Há d dias" with d the whole days elapsed |
| Geolocation.GetCurrentLocation | src/app/page.tsx:193-213 | with no provider the result is Unsupported; a provider error is passed through; a position becomes a sample with those coordinates, the current time and the rendered address |
| App.TrackingApp.Valid | src/app/page.tsx:227-233 | the class invariant: every object's last location is the first entry of its history, and an object without a location has no history |
| App.TrackingApp.ScanEnabled | src/app/page.tsx:456 | the scan button is enabled exactly when no scan is in progress |
| App.TrackingApp.constructor | src/app/page.tsx:31-92 | after mounting, the list is the seed list, the busy flag is down and the dialog is closed and empty |
| App.TrackingApp.SetNewObjectName | src/app/page.tsx:331 | typing changes only the name field |
| App.TrackingApp.SetShowAddDialog | src/app/page.tsx:311 | opening or closing the dialog changes only that flag |
| App.TrackingApp.AddNewObject | src/app/page.tsx:247-261 | the list becomes AddObject of the typed name and the invariant is kept; a non-blank name clears the field and closes the dialog; a blank name changes nothing; the busy flag is untouched |
| App.TrackingApp.BeginScan | src/app/page.tsx:216 | entering the scan raises the busy flag and changes nothing else |
| App.TrackingApp.ClickScanButton | src/app/page.tsx:454-457 | a click starts a scan exactly when none is in progress; while busy it changes nothing |
| App.TrackingApp.FinishScan | src/app/page.tsx:218-244 | after the answer, a position commits CommitScan to the current list and reports success; an error leaves the list unchanged and reports that error; either way the busy flag is lowered and the invariant kept |
| App.TrackingApp.HandleScanQR | src/app/page.tsx:215-245 | a whole scan with nothing else happening during the wait ends with the busy flag down, and the same list and outcome as FinishScan |

## Left out

- Text.ToUpper: only ASCII letters are upper-cased. JavaScript's Unicode case mapping is not modelled: `ç`, and `ß`, which becomes two letters, are left as they are.
- Registry.SampleObjects: uses a single clock reading `now` for every `Date.now()` in the seed list. The code reads the clock separately for each seed's `lastLocation` and `locationHistory[0]` (lines 51 and 58, 77 and 84). When two readings differ by a millisecond, the source's seed breaks the history invariant (`HistoryConsistent`), because the last location then differs from the first history entry. The model does not cover that case.
- Registry.QrToken: the clock readings are `nat`, so they are assumed non-negative. Before 1970, `Date.now()` is negative and the token would end in `-` followed by digits. The same applies to `NewObject`'s `id`.
- Text.IsWhitespace: the whitespace set is a fixed list of the characters that `\s` and `trim` remove: the ECMAScript white-space and line-terminator characters. A later change to Unicode's space-separator category would not be followed.
- TimeAgo.FormatTimeAgo: JavaScript numbers are doubles, but the model uses unbounded integers of milliseconds. Differences beyond 2^53 ms are treated exactly.
- The QR image (`generateQRCode`, `handleGenerateQR`, lines 94-115) comes from a third-party library. `DownloadName` takes the image URL as an input, where `''` stands for a failed rendering.
- Printing (`printQRCode`, lines 126-191) and the link click in `downloadQRCode` are window and DOM output. Only the file name is modelled.
- The provider's options (high accuracy, 10 s timeout, 60 s cache age) and the `toFixed(4)` address are not modelled. The address text is the `fixedText` input, and the provider's answer is the `reading` input.
- The 2-second `setTimeout` delay, the `alert` calls and `console.error` are side effects only. `FinishScan` returns the outcome the alert would show.
- Real asynchronous interleaving is not modelled. The await is a split between `BeginScan` and `FinishScan`, and callers may run other handlers between them.
- The fields `selectedObject`, `selectedObjectForQR` and `qrCodeDataUrl` only drive dialogs and the image. They are not fields of `TrackingApp`, and `DownloadName` takes the last two as inputs.
- All JSX rendering, tabs, badges and dialogs (lines 273-645) are presentation only.
- Coordinates are opaque `real` values that the model never computes with. Floating-point behaviour is not modelled.
