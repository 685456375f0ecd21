# Uptime monitor core, modelled in Dafny

This project models the logic of an uptime monitor and proves properties about it. The monitor has three parts:

- **A Go API.** It probes endpoints and keeps a 90-day SLA per endpoint. The SLA is a ring of daily buckets of probed and down seconds, and it is reported as duration texts such as `"1d 2h 3m 4s"`. The API also keeps a per-day history of dates, states and SLA reports for each endpoint.
- **A browser-side key/value cache.** It has an optional time-to-live.
- **A dashboard form.** Its validator checks three text fields.

The Dafny modules follow the program's structure:

- `GoInt`: Go's int64 wrap-around, and Go's truncating `/` and `%`.
- `Decimal`: decimal printing (`%d`) and `fmt.Sscanf`'s `%d` scan.
- `Duration`: `parseDurationToSecs` and `formatDurationFull`, and the round trip between them.
- `Sla`: the `SlidingSLA` tracker.
  - A class over a 90-element array whose methods change it in place.
  - Pure functions on a `Window` value that specify each method.
  - The lemmas that say what rotation, ticking, reset and reporting do.
- `Monitors`: the `defaultReqs` renamer, the name-to-index lookup and the status flags.
- `History`: `capSlice` and the history merge that `publishToNATS` performs, as a pure function.
- `Storage`: `localStore`.
  - A `Medium` class stands for the browser storage.
  - A `LocalStore` class holds the in-memory value.
  - Pure functions state the expiry and load rules.
- `Form`: the trimmed, three-step field check and the schema as a whole.

Modelling conventions:

- **Time** is an integer parameter: whole seconds on the Go side, milliseconds in the cache. A probe interval is in nanoseconds.
- **"Running in a browser"** is a boolean.
- **Encodings.** JSON and gzip are abstract. A stored item is either an encoded record or something that does not decode.

The model follows the code in these cases:

- **`get()` on a missing record.** With no record, after `delete()`, and outside a browser, it returns the initial value, not null. It returns null only for an expired record.
- **`isExpired()`** never looks at whether a TTL is configured.
- **An expiry of `0`** never expires.

## Model

| member | source | states |
|---|---|---|
| GoInt.Quo | api/main.go:214-218 | Go's `/`: equal to floor division for non-negative dividends, never positive for non-positive ones |
| GoInt.Rem | api/main.go:215-219 | Go's `%`: `a == Quo(a,b)*b + r`, `0 <= r < b` for `a >= 0`, `-b < r <= 0` for `a < 0` |
| GoInt.Wrap64 | api/main.go:198 | int64 wrap-around: the identity on values already in the int64 range |
| Decimal.NatToDecimal | api/main.go:222-233 | `%d` of a natural: non-empty, all digits, leading `0` only for zero |
| Decimal.IntToDecimal | api/main.go:222-233 | `%d` of an integer: non-empty, and starts with a digit exactly when the number is non-negative |
| Decimal.DigitRun | api/main.go:197 | the digits `%d` consumes: a run of digits not followed by another digit |
| Decimal.ScanInt | api/main.go:197 | `%d` stores nothing when the field starts with neither a sign nor a digit |
| Decimal.ScanDecimal | api/main.go:196-207 | scanning the decimal text of any int64-sized natural, followed by a non-digit, gives that natural back |
| Duration.Fields | api/main.go:193 | `strings.Fields`: every field is a non-empty run of non-space characters |
| Duration.FieldsOfJoin | api/main.go:193 | splitting words joined with single spaces gives back the words |
| Duration.FieldsOfWord | api/main.go:193 | a single word splits into just that word |
| Duration.FieldsOfWordThenText | api/main.go:193 | a word followed by a space and more text splits into the word, then the fields of the text |
| Duration.PartValue | api/main.go:195-207 | what one field adds: the `%d` value scanned from it (0 when the scan stores nothing) times 86400, 3600, 60 or 1 by its final letter, as an int64 product; 0 for any other letter |
| Duration.SumFrom | api/main.go:192-209 | the int64 total after adding each field's value left to right, wrapping on overflow |
| Duration.ParseDuration | api/main.go:191-211 | `parseDurationToSecs`: the wrapped sum, from 0, over the white-space separated fields of the text |
| Duration.ParseDurationToSecs | api/main.go:191-211 | the loop computes `ParseDuration(s)`, the left-to-right int64 sum of each field's `value * unit seconds` (0 for unknown units) |
| Duration.SumFromAppend | api/main.go:194-209 | summing two field lists is summing the first, then continuing with the second |
| Duration.DurationParts | api/main.go:214-233 | the fields `formatDurationFull` appends: Go's truncating `/` and `%` split the seconds into days, hours, minutes and seconds, which go to `PartsOf` |
| Duration.PartsOf | api/main.go:221-233 | a `%d` token for each positive unit among days, hours and minutes, in that order; the seconds token when positive or when no other token was written |
| Duration.Join | api/main.go:235 | `strings.Join` with a single space between fields |
| Duration.FormatDurationFull | api/main.go:231-235 | the text of zero seconds is `"0s"` |
| Duration.FormatDuration | api/main.go:213-236 | the statement-by-statement formatter produces `FormatDurationFull(seconds)` |
| Duration.FormatCanonical | api/main.go:213-236 | for `n = d*86400 + h*3600 + m*60 + s` with `h < 24`, `m, s < 60`: the text lists only the non-zero units, in the order d, h, m, s, and is `"0s"` for zero |
| Duration.DurationPartsCanonical | api/main.go:214-233 | the fields formatted for a non-negative duration are its canonical unit tokens |
| Duration.QuoRemOf | api/main.go:214-219 | Go's `/` and `%` of `q * k + r` with `0 <= r < k` are `q` and `r` |
| Duration.PartsOfCanonical | api/main.go:221-233 | the fields for non-negative unit amounts are the tokens of the non-zero units, seconds also when nothing precedes them |
| Duration.CanonicalPartsSum | api/main.go:191-211 | parsing the canonical tokens adds up to `d*86400 + h*3600 + m*60 + s` |
| Duration.ParseFormatRoundTrip | api/main.go:191-236 | for every int64 `n >= 0`, parsing the formatted text gives back `n` |
| Duration.FormatNegative | api/main.go:213-235 | a negative duration is formatted as its seconds remainder only, e.g. `"-5s"`; days, hours and minutes are lost |
| Sla.TruncateToDay | api/main.go:438 | the start of the day: at most `t`, less than a day before it, a multiple of 86400 |
| Sla.TruncateToMinute | api/main.go:534 | the start of the minute: at most `t`, less than a minute before it, a multiple of 60 |
| Sla.StepsAsWritten | api/main.go:448 | the step count as Go parses the line: elapsed nanoseconds (saturated like `Time.Sub`) divided by 24, times `time.Hour`, wrapped to int64 |
| Sla.DaySteps | api/main.go:448 | the evidently intended step count: the whole days elapsed between the two day starts |
| Sla.Rotated | api/main.go:449-463 | the buckets after `steps` advances from the cursor: each bucket entered is emptied, all of them when `steps` exceeds 90, the rest unchanged |
| Sla.RotatedIdx | api/main.go:449-463 | the cursor after `steps` advances, wrapping from 89 to 0; 0 when `steps` exceeds 90 |
| Sla.RotateWindow | api/main.go:443-465 | rotation with the corrected day count keeps 90 buckets and a cursor in range |
| Sla.RotateWindowAsWritten | api/main.go:443-465 | rotation with the step count as written keeps 90 buckets and a cursor in range |
| Sla.RotateSameDay | api/main.go:444-447 | a time whose day is not after the current one changes nothing |
| Sla.RotatedBeyondWindow | api/main.go:449-455 | more than 90 steps empty every bucket and set the cursor to 0 |
| Sla.RotatedClearsEnteredBuckets | api/main.go:457-463 | up to 90 steps move the cursor cyclically by `steps`, empty exactly the bucket entered at each step, and leave every other bucket unchanged |
| Sla.RotateByDays | api/main.go:443-465 | moving on `k` whole days (1 ≤ k ≤ 90) advances the cursor by `k`, empties the `k` buckets entered and keeps the rest |
| Sla.NextDayKeepsHistory | api/main.go:448 | the first tick of the next day moves the cursor by one, empties that bucket and keeps the other 89 days |
| Sla.StepsAsWrittenOneDay | api/main.go:448 | as written, one day yields 143342396288008192 steps |
| Sla.AsWrittenNextDayClearsWindow | api/main.go:448-455 | as written, the first tick of a new day empties the whole window and sets the cursor to 0 |
| Sla.RoundDuration | api/main.go:474 | Go's `Duration.Round(m)`: the nearest multiple of `m`, halves away from zero, saturating at the int64 bounds |
| Sla.RoundToSeconds | api/main.go:474 | a non-negative interval rounds to non-negative seconds, within half a second of the interval |
| Sla.TickWindow | api/main.go:467-481 | Tick on a window: rotate to `now`, then charge today's bucket; `Sla.TickChargesCurrentBucket` states what changes |
| Sla.TickChargesCurrentBucket | api/main.go:467-481 | after rotating, today's bucket gains `inc` probed seconds and, only when down, `inc` down seconds; every other bucket and the cursor are as rotation left them |
| Sla.RotateKeepsSound | api/main.go:443-465 | rotation keeps every bucket's down seconds between 0 and its probed seconds |
| Sla.TickKeepsSound | api/main.go:475-479 | with a non-negative interval and no int64 overflow, a tick keeps `0 <= downSec <= totalSec` in every bucket |
| Sla.NewWindow | api/main.go:433-441 | a new tracker: 90 empty buckets, cursor 0, time at the start of the day |
| Sla.ResetWindow | api/main.go:527-536 | after Reset: 90 empty buckets, cursor 0, time at the start of the minute |
| Sla.ResetDelaysNextDay | api/main.go:534 | after a reset later than the first minute of a day, the next midnight leaves the cursor on bucket 0, where a new tracker would move on to bucket 1 |
| Sla.SumsOfEmpty | api/main.go:487-491 | empty buckets sum to zero probed and zero down seconds |
| Sla.SumsOfSound | api/main.go:487-491 | over sound buckets, `0 <= down <= total` |
| Sla.WrapAdd | api/main.go:489-490 | int64 accumulation in the loop equals wrapping the exact sum |
| Sla.ResetReportsZero | api/main.go:493-503 | right after Reset the report is the zero report: 100%, `"0s"` three times, not breached |
| Sla.ReportFromSumsRoundTrip | api/main.go:513-523 | with `0 <= down <= total`, the total, down and up texts parse back to `total`, `down` and `total - down` |
| Sla.ReportTextsRoundTrip | api/main.go:486-523 | over sound buckets without overflow, the report's texts parse back to the summed seconds and `up = total - down` |
| Sla.ReportOf | api/main.go:487-491 | the report of the int64-wrapped sums of probed and down seconds over all buckets |
| Sla.ReportFromSums | api/main.go:493-524 | a window with no probed seconds gives the zero report; otherwise availability times 100, the texts of up, down and total seconds, and the breach flag |
| Sla.Availability | api/main.go:505 | the fraction of probed time that was up: `1 - down / total` |
| Sla.Breached | api/main.go:513 | any down time against a target of 100% or more, or availability below the target |
| Sla.NoDownFullyAvailable | api/main.go:505 | a window without down time has availability exactly 1 |
| Sla.ReportBreach | api/main.go:493-514 | a target of at least 100% is breached by any down second; no down seconds and a target of at most 100% never breach; an empty window reports the zero report |
| Sla.SlidingSla.constructor | api/main.go:433-441 | a fresh array holding the `NewWindow` state |
| Sla.SlidingSla.Advance | api/main.go:449-463 | the in-place loops leave the array as `Rotated` of the old contents and the cursor at `RotatedIdx` |
| Sla.SlidingSla.RotateTo | api/main.go:443-465 | the new state is `RotateWindow` of the old state |
| Sla.SlidingSla.Tick | api/main.go:467-481 | the new state is `TickWindow` of the old state; `lastUpdate` is `now` |
| Sla.SlidingSla.Snapshot | api/main.go:483-525 | the report equals `ReportOf` the bucket contents: the summing loop computes the int64 sums |
| Sla.SlidingSla.Reset | api/main.go:527-536 | the new state is `ResetWindow(now)` |
| Monitors.RenamedName | api/main.go:105-110 | the `k`-th request carrying a name, counting from the start of the list, is called `name-k` when `k > 1` and keeps its name otherwise |
| Monitors.Renamed | api/main.go:102-114 | the whole list with every request renamed by `RenamedName`, same order and length |
| Monitors.CountStep | api/main.go:107 | counting over one more request adds one exactly for that request's name |
| Monitors.RenameDuplicates | api/main.go:102-114 | the output is the input in the same order and length, with the `k`-th request carrying a name (k > 1) renamed `name-k` |
| Monitors.RenamedKeepsOnlyFirst | api/main.go:105-111 | a request keeps its name exactly when no earlier request carries that name |
| Monitors.CountAbsent | api/main.go:106-107 | a name that no request carries is counted zero times |
| Monitors.DistinctUnchanged | api/main.go:102-114 | a list with distinct names is returned unchanged |
| Monitors.RenamingCanCollide | api/main.go:107-110 | renaming does not guarantee unique names: `a, a, a-2` becomes `a, a-2, a-2` |
| Monitors.DefaultRequests | api/main.go:92-115 | the shipped one-entry list is left as it is, and the status endpoint reports `monitors = true, miniMonitors = false` for it |
| Monitors.IndexOfName | api/main.go:674-680 | the index of the first request with that name, or -1 exactly when none has it (the same loop is at api/main.go:912-918) |
| Monitors.StatusOf | api/main.go:704-714 | `monitors` iff the list is non-empty, `miniMonitors` iff it has more than 3 entries, and the second implies the first |
| History.CapSlice | api/main.go:948-953 | at most `max` elements, a prefix of the input, and the whole input when it is short enough |
| History.CurrentStatus | api/main.go:791-794 | the probe's first state, or `"warn"` when it has none |
| History.MergeUncapped | api/main.go:834-883 | the three branches of the merge before capping: same day, new day, and no usable previous record |
| History.Merge | api/main.go:885-889 | dates, states and history all hold at most 90 entries |
| History.MergeCapsToPrefix | api/main.go:885-889 | each merged list is a prefix of the list before capping, and the whole of it when that had at most 90 entries |
| History.MergeSameDay | api/main.go:835-854 | same day: dates kept, first state replaced by today's status (or the only one), first history entry replaced by the current report, tracker not reset |
| History.MergeNewDay | api/main.go:856-872 | new day: today, the status and the zero report are put in front of the old lists, capped at 90, and the tracker is reset |
| History.MergeFirstRecord | api/main.go:873-883 | no previous dates: dates `[today]`, history `[current report]`, states are the probe's own |
| History.MergeHeadIsToday | api/main.go:834-889 | in every case the first date is today and the first state, if any, is today's status |
| History.MergeKeepsAlignment | api/main.go:834-889 | a record with one state and one history entry per date keeps that alignment through a merge |
| History.FirstRecordCanMisalign | api/main.go:873-883 | a probe reporting two states starts a record with one date and two states |
| Storage.Pack | src/lib/storage.ts:20-23 | encodes the value and the expiry, an absent expiry as `null`; `Storage.UnpackPack` decodes it back |
| Storage.Expired | src/lib/storage.ts:42 | a record is expired exactly when it has a non-zero expiry and the clock is past it |
| Storage.Unpack | src/lib/storage.ts:25-33 | no record exactly for a missing or undecodable item |
| Storage.UnpackPack | src/lib/storage.ts:20-33 | decoding an encoded record gives back its value and expiry |
| Storage.ZeroNeverExpires | src/lib/storage.ts:42 | an expiry of 0 is never expired |
| Storage.LoadResult | src/lib/storage.ts:38-50 | expired exactly for a decodable, expired record in a browser; then, and with no record or outside a browser, the value is `initial`; otherwise the stored value |
| Storage.GetResult | src/lib/storage.ts:103-106 | null exactly when the load was expired, otherwise the loaded value |
| Storage.GetNullOnlyWhenExpired | src/lib/storage.ts:103-106 | `get` answers null only for an expired record, `initial` when there is no record or no browser, and the stored value otherwise |
| Storage.ExpiryToWrite | src/lib/storage.ts:77-85 | an expiry is written exactly when a positive TTL is configured |
| Storage.FreshExpiryLasts | src/lib/storage.ts:83 | a record written under a TTL without preserving expires exactly once the clock passes `now + ttl` |
| Storage.NoTtlNeverExpires | src/lib/storage.ts:77-78 | without a TTL a written record never expires |
| Storage.PreserveKeepsExpiry | src/lib/storage.ts:79-81 | preserving keeps an existing expiry, 0 and past ones included, so it never revives an expired record |
| Storage.ItemsAfterWrite | src/lib/storage.ts:73-90 | a write changes no key other than its own |
| Storage.WriteThenLoad | src/lib/storage.ts:73-90 | a write that lands is read back at once, unless it preserved an expiry that has already passed |
| Storage.ConstructionSeeds | src/lib/storage.ts:123-131 | in a browser, a live record is left as it is, and a missing, undecodable or expired one is replaced by the initial value with a fresh expiry; other keys are untouched |
| Storage.ConstructionOutsideBrowser | src/lib/storage.ts:123 | outside a browser construction leaves the medium alone |
| Storage.Medium.SetItem | src/lib/storage.ts:86 | stores the item, or nothing changes when the medium refuses writes |
| Storage.Medium.RemoveItem | src/lib/storage.ts:45 | removes exactly that key |
| Storage.LoadFrom | src/lib/storage.ts:38-50 | returns `LoadResult` and removes the key exactly when the record was expired |
| Storage.LocalStore.constructor | src/lib/storage.ts:52-53 | the in-memory value is what `load` returned, and the medium is as `ItemsAfterConstruction` says |
| Storage.LocalStore.Load | src/lib/storage.ts:38-50 | returns what the medium held before, as `LoadResult`; removes only an expired record |
| Storage.LocalStore.Write | src/lib/storage.ts:73-90 | the in-memory value becomes `value`, and the medium becomes `ItemsAfterWrite` |
| Storage.LocalStore.Set | src/lib/storage.ts:94-96 | the same effect as `write` |
| Storage.LocalStore.Update | src/lib/storage.ts:97-102 | the same effect as `set` of the updater applied to the in-memory value |
| Storage.LocalStore.Get | src/lib/storage.ts:103-106 | `GetResult` of the load, with the load's removal of an expired record |
| Storage.LocalStore.Delete | src/lib/storage.ts:107-114 | removes the key (in a browser) and nothing else, resets the in-memory value, and a later `get` answers `initial` |
| Storage.LocalStore.IsExpired | src/lib/storage.ts:116-120 | agrees with whether `load` would find an expired record, regardless of the TTL setting |
| Form.LeadingSpaces | dashboard/src/lib/types/form.ts:6 | the white space `trim` drops at the start: every counted character is white space and the next one is not |
| Form.TrailingSpaces | dashboard/src/lib/types/form.ts:6 | the white space `trim` drops at the end: every counted character is white space and the one before is not |
| Form.Trim | dashboard/src/lib/types/form.ts:6 | `String.prototype.trim`: the value without its leading and trailing white space |
| Form.TrimEdges | dashboard/src/lib/types/form.ts:6 | a trimmed value is empty or starts and ends with a non-space |
| Form.TrimNoop | dashboard/src/lib/types/form.ts:6 | a value that starts and ends with a non-space is its own trim |
| Form.LeadingSpacesOfPadded | dashboard/src/lib/types/form.ts:6 | white space put in front of a value adds exactly its length to the leading white space |
| Form.TrailingSpacesOfPadded | dashboard/src/lib/types/form.ts:6 | white space put after a value adds exactly its length to the trailing white space |
| Form.LeadingSpacesOfExtended | dashboard/src/lib/types/form.ts:6 | text appended to a value that is not all white space leaves its leading white space unchanged |
| Form.TrimStartPadded | dashboard/src/lib/types/form.ts:6 | leading white space of any length is dropped |
| Form.TrimEndPadded | dashboard/src/lib/types/form.ts:6 | trailing white space of any length is dropped |
| Form.TrimPadded | dashboard/src/lib/types/form.ts:6 | trimming ignores white space appended to the text, including when the text is all white space |
| Form.TrimIgnoresPadding | dashboard/src/lib/types/form.ts:6 | trimming ignores any white space added around the text |
| Form.TrimIdempotent | dashboard/src/lib/types/form.ts:6 | trimming twice is trimming once |
| Form.Utf16Length | dashboard/src/lib/types/form.ts:12 | the JavaScript length lies between the number of characters and twice that |
| Form.MaxLength | dashboard/src/lib/types/form.ts:16-53 | the upper length bound: 50 for logo and title, 100 for description |
| Form.Message | dashboard/src/lib/types/form.ts:9-54 | the message each issue adds: `is required`, `must be at least 2 characters long`, `must not exceed 50` or `100` `characters`, after the field's label |
| Form.Check | dashboard/src/lib/types/form.ts:7-20 | a field passes exactly when its trimmed length is between 2 and its maximum (50, 50, 100) |
| Form.FieldMessages | dashboard/src/lib/types/form.ts:24-37 | a field yields at most one message, and none exactly when it passes |
| Form.RequiredExactly | dashboard/src/lib/types/form.ts:8-11 | the "is required" issue exactly for an empty trimmed value |
| Form.TooShortExactly | dashboard/src/lib/types/form.ts:12-15 | the "at least 2 characters" issue exactly for a trimmed length of 1 |
| Form.TooLongExactly | dashboard/src/lib/types/form.ts:53-56 | the "must not exceed" issue exactly for a trimmed length above the field's maximum |
| Form.CheckIgnoresPadding | dashboard/src/lib/types/form.ts:39-41 | white space around a value never changes its verdict |
| Form.TrimOfOneCharacter | dashboard/src/lib/types/form.ts:6 | a single non-space character is its own trim |
| Form.AstralLength | dashboard/src/lib/types/form.ts:12 | a character beyond U+FFFF has JavaScript length 2 |
| Form.OneAstralCharacterAccepted | dashboard/src/lib/types/form.ts:46 | a single character beyond U+FFFF passes the minimum length, because it counts as two code units |
| Form.Validate | dashboard/src/lib/types/form.ts:3-58 | success exactly when all three fields pass, with the trimmed values; otherwise one to three messages |

## Findings

| source | as written | input that shows it | evidently intended | confidence | as-written member | corrected member |
|---|---|---|---|---|---|---|
| api/main.go:448 | Go parses the step count as `(elapsed / 24) * time.Hour`. This is the elapsed time in nanoseconds divided by 24, times 3.6e12, with int64 wrap-around. | One day elapsed (86400 s) gives 143342396288008192 steps. That is more than 90, so the first tick of every new day empties all 90 buckets. | `elapsed / (24 * time.Hour)`: the number of whole days, so the window keeps 90 days of history. While NATS is connected, publishToNATS resets the tracker at each new stored date (api/main.go:856-857), so both counts leave one day in the tracker; the full wipe shows only when publishToNATS returns early (api/main.go:776-779) | not executed | Sla.AsWrittenNextDayClearsWindow | Sla.RotateByDays |

`Sla.RotateWindow`, and therefore `SlidingSla.RotateTo` and `Tick`, use the corrected count, `DaySteps`. `Sla.RotateWindowAsWritten` and `Sla.StepsAsWritten` keep the count as written.

## Left out

- **Network and I/O in the API.** The HTTP, TCP and DNS probes, server-sent events, the NATS key/value store, gzip, JSON and the retry loop are external I/O. The merge takes the decoded previous record as a parameter instead.
- **Concurrency.** The tracker's mutex, the probe goroutines, `Hub.Broadcast` and `sync.Once` coordinate threads and compute nothing of their own.
- **Identifiers.** Probe and SLA id generation and reuse in `publishToNATS` rely on random ids.
- **History roll-up.** The roll-up after the merge (api/main.go:891-910) re-parses every history entry and computes float percentages. It is not modelled. `Sla.ReportTextsRoundTrip` states the parse-back it depends on.
- **Floating point.** The uptime percentage is an exact real. The `%.3f` texts, the `99.999%` adjustment and the `sla_target` text are not modelled. `availability < Target` is compared exactly, not in float64.
- **Time and dates.** Time is integer seconds since the epoch, so sub-second precision, `time.Now` and the `02/01/2006` date text are not modelled. `today` is a string parameter.
- Sla.TickKeepsSound: requires no int64 overflow in a bucket. The model wraps like Go, but soundness is only proved below the int64 bound.
- Sla.ReportTextsRoundTrip: requires the summed probed seconds fit in an int64. Above that, the wrapped sums are reported, as in Go.
- **JSON in the cache.** The encoding is abstract. Records of other shapes are not modelled: a non-numeric or NaN `e`, or an object without `v`.
- **Medium failures.** A `getItem` that throws is not modelled. A failing `setItem` is the medium's `accepting` flag. A throwing `removeItem`, whose failure the source swallows (src/lib/storage.ts:44-46, 109-111), is modelled as always succeeding: `Storage.Medium.RemoveItem` always removes the key.
- **Reactivity.** The Svelte subscription machinery, the `expired` readable and its 250 ms polling are timer-driven.
- **Other files.** `src/lib/timer.ts` formats the clock. The Svelte configuration files and the dialog component re-exports are build and UI glue.
- **Form edge cases.** zod's internals and issue codes are not modelled. Strings are sequences of Unicode scalar values, so unpaired UTF-16 surrogates cannot be represented.
