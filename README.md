# bin-days sync, modelled in Dafny

The bin-days script reads a council's waste-collection page and finds the next refuse,
recycling and garden-waste collection days. It then adds each day to a calendar as an
all-day "Bin Day - <type>" event, unless that day already has a bin event.
This project models the decision logic between the script's network calls:

- **PageParser**: `parse`. It takes the texts of the page's `<dd>` elements, trims them and strips
  the garden marker, skips blank fields and garden "N/A", and lists the collections in
  page order. `Parse` cleans the three fields and `PushScheduled` builds the list by
  conditional pushes, as the script does. They are proved equal to the value `Candidates`,
  and the lemmas are about `Candidates` and about `Assemble`, its part over cleaned fields.
- **CalendarReader**: the filtering loop of `getUpcomingEvents`. It keeps the events whose title
  matches `^Bin Day \- (.*?)$` and records their title, captured type and start day.
- **Differ**: the filter of `filterExisting`. A candidate survives when no existing bin
  event falls on the same day. The type is not compared.
- **EventWriter**: `createEvent`. It builds the all-day resource: the summary, the start date,
  the next day as the exclusive end date, transparency, and one popup reminder 1440 minutes
  ahead. moment's `add` mutates the date in place. So `PendingEvent` is a class whose
  `date` field `CreateEvent` advances.
- **Dates**: the part of moment.js the script uses, on whole calendar days. A moment is
  either a valid Gregorian day or invalid. `isSame` is false when either side is invalid.
  `add(1, 'day')` rolls over month and year ends and leap days. Formatting gives
  zero-padded year-month-day, and a `YYYY-MM-DD` start date can be read back.
- **Text**: JavaScript `trim`, the garden field's `replace(/\s*\*$/, '')` and `indexOf`.
  They use ECMAScript's whitespace and line-terminator sets.
- **Sync**: the pipeline `lookup().then(parse).then(filterExisting).then(createEvents)`
  with the network calls replaced by inputs. Its main theorem is `SecondRunWritesNothing`:
  once one run's events are in the calendar, a second run on the same page, with the same
  date parser and an event list that returns everything written, creates none.

The natural-language date parser (`chrono.parseDate` followed by `startOf('day')`) is
the parameter `parseDate: string -> Moment`. It may return `Invalid`, because
`moment(null)` is an invalid moment and the script still pushes it.

Three behaviours of index.js the model keeps:
- An unparseable date does not make `parse` fail. The script pushes an invalid moment.
  The differ never matches that moment, and the resource built for it carries
  "Invalid date" as its start and end (`InvalidDateResource`). What the calendar
  does with such a resource is not part of this model.
- The event list is one `events.list` call. Only the first page of results is read.
- An event counts as existing only when its title matches the pattern exactly.
  Its date is whatever `start.date` parses to.

## Model

| member | source | states |
|---|---|---|
| PageParser.DdText | index.js:31-35 | `$('dd').eq(i).text()`: the text of the i-th `<dd>`, or "" when the page has no such element |
| PageParser.CleanFields | index.js:31-37 | the three field texts: refuse and recycling trimmed, garden trimmed and stripped of a final `*` with the whitespace before it |
| PageParser.Scheduled | index.js:41-43 | the guard of each push: the cleaned text is non-empty and, for garden only, `indexOf('N/A')` is -1 |
| PageParser.Candidates | index.js:29-46 | the list `parse` returns for a page: `Assemble` of the page's cleaned fields |
| PageParser.Assemble | index.js:39-45 | the entries of Refuse, Recycling and Garden in that order; an entry is present when its cleaned text is non-empty and, for garden, has no "N/A", and is dated by parsing that text |
| PageParser.Parse | index.js:29-46 | reading and cleaning the three fields and then pushing builds exactly the list `Candidates` of the page |
| PageParser.PushScheduled | index.js:39-45 | the conditional pushes build the entries for Refuse, Recycling and Garden, in that order, each present only when scheduled |
| PageParser.ListedIffScheduled | index.js:39-44 | a collection appears in the parse result exactly when its cleaned field text is non-empty and, for garden, has no "N/A" |
| PageParser.CandidatesInPageOrder | index.js:39-45 | the result has at most three entries, at most one per type, in the order Refuse, Recycling, Garden, and each is dated by parsing its own cleaned field text |
| PageParser.OmittedIffBlank | index.js:31-32 | refuse, and likewise recycling, is omitted exactly when its `<dd>` text is whitespace only or the element is missing, whatever the other fields hold |
| PageParser.FilledFieldScheduled | index.js:41-42 | a non-blank refuse or recycling field yields exactly one entry, dated by parsing the trimmed text |
| PageParser.BlankFieldOmitted | index.js:31-43 | a blank or missing field yields no entry, for each of the three types |
| PageParser.GardenListedIff | index.js:33-37 | garden is listed exactly when its trimmed, star-stripped text is non-empty and contains no case-sensitive "N/A" anywhere |
| PageParser.GardenNAOmitted | index.js:43 | garden text containing "N/A" yields no garden entry |
| PageParser.NAOnlyAffectsGarden | index.js:41-43 | refuse or recycling text containing "N/A" is still listed, as one entry dated by parsing the trimmed text; only garden is dropped for it |
| PageParser.AllNAPage | index.js:29-46 | example: a page whose three fields read "N/A" yields the refuse and recycling entries only |
| PageParser.FieldsIndependent | index.js:31-37 | the entry a type contributes depends on its own `<dd>` text alone |
| PageParser.GardenMarkerIgnored | index.js:33-37 | for trimmed, non-empty garden text that does not end in `*`, adding whitespace and a `*` leaves the parse result unchanged |
| PageParser.RefuseOnlyScenario | index.js:29-46 | a page with a refuse date, an empty recycling field and "N/A *" for garden yields only the refuse entry |
| PageParser.RefuseOnlyFields | index.js:31-37 | such a page cleans to the trimmed refuse text, an empty recycling text and "N/A" for garden |
| PageParser.OnlyRefuseScheduled | index.js:39-45 | cleaned fields with refuse text, no recycling text and a garden text mentioning "N/A" give the refuse entry alone |
| PageParser.NAMarkerStripped | index.js:37 | the garden text "N/A *" loses its marker and becomes "N/A" |
| PageParser.AllNAFields | index.js:31-37 | a page whose three fields hold "N/A" cleans to "N/A" in each field |
| PageParser.AllNAScheduled | index.js:39-45 | cleaned fields all "N/A" give the refuse and recycling entries and no garden entry |
| PageParser.Name | index.js:41-43 | the type names pushed by `parse` contain no line terminator, so the title pattern can capture them |
| Text.Trim | index.js:31-32 | the trimmed text neither starts nor ends with ECMAScript whitespace |
| Text.TrimEmptyIffBlank | index.js:31-32 | trim yields the empty string exactly when the text is whitespace only |
| Text.TrimIsMiddle | index.js:31-32 | trim removes only whitespace, and only from the two ends |
| Text.TrimFixesTrimmed | index.js:31-32 | text without whitespace at either end is unchanged by trim |
| Text.StripStar | index.js:37 | `replace(/\s*\*$/, '')`: drops a final `*` and the whitespace run before it, and leaves other text alone; `StripStarCutsFirstMatch` relates it to the pattern |
| Text.StripStarCutsFirstMatch | index.js:37 | the garden replacement cuts off the leftmost match of `\s*\*$`, which is the final `*` and the whole whitespace run before it; text not ending in `*` is unchanged |
| Text.StripStarWithoutStar | index.js:37 | text not ending in `*` passes through unchanged |
| Text.StripStarRecovers | index.js:37 | text followed by any whitespace and a `*` comes back as that text; the replacement happens once, so a `*` ending that text stays |
| Text.IndexFrom | index.js:43 | the search returns the first occurrence at or after the start position, or -1 when there is none |
| Text.IndexOf | index.js:43 | `indexOf` returns -1 exactly when the pattern occurs nowhere, and otherwise a position where it occurs |
| CalendarReader.MatchTitle | index.js:78 | the capture of `^Bin Day \- (.*?)$` on a title, or none when the title does not match; `MatchTitleIff` characterises it |
| CalendarReader.MatchTitleIff | index.js:78 | the title pattern matches exactly the titles "Bin Day - " + t with t free of line terminators, and captures t |
| CalendarReader.BinEventOfIff | index.js:78-85 | an event is kept exactly when its title matches, with its title, the captured type and its parsed start date; an event whose title does not match contributes nothing |
| CalendarReader.BinEventsOf | index.js:75-88 | the entries the reader keeps: for each listed event in order, the entry of `BinEventOf` when its title matches |
| CalendarReader.BinEventsTitled | index.js:75-88 | every kept entry has title "Bin Day - " + type with a single-line type, and no more entries than events |
| CalendarReader.BinEventsOfConcat | index.js:77-86 | the reader keeps list order: two stretches of the event list give their entries one after the other |
| CalendarReader.ReadBinEvents | index.js:74-88 | the push loop produces exactly `BinEventsOf` of the event list |
| Differ.Booked | index.js:118-120 | `existing.find(e => e.date.isSame(d))` finds an entry: some existing entry is on the same valid day as d |
| Differ.FilterExisting | index.js:117-121 | the result is an order-preserving subsequence of the candidates, keeps a candidate exactly when no existing entry is on the same day, and keeps every copy of such a candidate (its multiplicity is unchanged) |
| Differ.FilterNothingExisting | index.js:117-121 | with no existing entries every candidate is returned, in order |
| Differ.FilterIdempotent | index.js:117-121 | filtering the result again against the same existing entries changes nothing |
| Differ.FilterDisjoint | index.js:117-121 | no kept candidate shares a day with any existing entry |
| Differ.FilterIgnoresType | index.js:118-119 | only the existing entries' days matter, not their types or titles |
| Differ.DateOnlyScenario | index.js:117-121 | a refuse candidate on 2024-06-03 is dropped when a recycling entry exists on that day |
| Dates.DaysInMonth | index.js:101 | months have 28 to 31 days, and February has 29 exactly in Gregorian leap years |
| Dates.NextDay | index.js:101 | adding a day gives a later calendar day |
| Dates.NextDayIsSuccessor | index.js:101 | no calendar day lies strictly between a day and its next day |
| Dates.NextDayRollsOver | index.js:101 | next-day examples across month ends, year ends and February in leap, common and century years |
| Dates.SameDay | index.js:119 | `isSame`: both moments are valid and fall on the same calendar day; an invalid moment is the same day as nothing |
| Dates.AddDay | index.js:101 | `add(1, 'day')` keeps a moment valid or invalid and moves a valid one later |
| Dates.ParseIsoDate | index.js:81 | a date read from `start.date` has the `YYYY-MM-DD` shape |
| Dates.MomentOfIsoDate | index.js:81 | `moment(start.date)` is valid exactly when the string is a `YYYY-MM-DD` date that exists |
| Dates.DecimalSpells | index.js:100-101 | the decimal digits moment prints spell the number |
| Dates.ZeroFillSpells | index.js:100-101 | zero-filling a number that fits in w digits gives exactly w digits spelling it |
| Dates.Format | index.js:94-101 | `format`: a valid moment prints as zero-padded year-month-day, an invalid one as "Invalid date" |
| Dates.FormatPadsExample | index.js:100-101 | 2024-07-10 and 2024-07-11 print as "2024-07-10" and "2024-07-11", with the month zero-padded |
| Dates.FormatDateRoundTrip | index.js:100 | a day with a four-digit year, formatted year-month-day, reads back as the same day |
| Dates.MomentRoundTrip | index.js:81 | formatting a valid moment and reading it back as a start date gives the same moment |
| EventWriter.LogLine | index.js:93-97 | the logged line: "creating event: Bin Day - " + type + ": " + the formatted date |
| EventWriter.PendingEvent.constructor | index.js:92 | the caller's `{type, date}` object, whose `date` moment `createEvent` advances in place by one day (line 101) |
| EventWriter.Resource | index.js:98-107 | the resource for a type and a date: summary "Bin Day - " + type, start the formatted date, end the formatted next day, transparent, no default reminders, one popup 1440 minutes ahead |
| EventWriter.CreateEvent | index.js:92-107 | the log line and the start date use the original day; the end date is the following day; the caller's `event.date` is left one day later |
| EventWriter.ResourceSpansOneDay | index.js:100-101 | the start date reads back as the collection day, and the end date as the next calendar day, with no day in between |
| EventWriter.ResourceTitleAndSettings | index.js:99-106 | the summary is recognised back as the type, and the event is transparent with no default reminders and one popup 1440 minutes ahead |
| EventWriter.InvalidDateResource | index.js:100-101 | a collection whose date failed to parse is written with "Invalid date" as start and end |
| EventWriter.GardenScenario | index.js:99-101 | garden on 2024-07-10 is written with start "2024-07-10" and end "2024-07-11" |
| Sync.ToCreate | index.js:133 | `parse` followed by `filterExisting`: the page's candidates whose day no bin event in the listed calendar occupies |
| Sync.TitleRoundTrip | index.js:99 | the title `createEvent` builds for a single-line type is recognised by the reader as that type |
| Sync.WrittenReadsBack | index.js:78-84 | a written collection comes back from the event list with the same type and day |
| Sync.WrittenAllReadBack | index.js:125-128 | all written collections come back, one per candidate and on its day |
| Sync.WrittenIsBooked | index.js:117-121 | every written candidate's day is booked in what is read back |
| Sync.BookedInConcat | index.js:118-120 | a day booked in part of the event list is booked in the whole list |
| Sync.AllBookedFiltersAll | index.js:117-121 | when every candidate's day is booked, the differ keeps nothing |
| Sync.WrittenBooksAll | index.js:115-128 | after the events the differ let through are written, filtering the same candidates keeps nothing |
| Sync.SecondRunWritesNothing | index.js:133 | a second run on the same page, against the calendar the first run left, creates no event |

## Left out

- HTTP lookup (`lookup`, axios, form encoding): network I/O. The page's `<dd>` texts are the input.
- HTML parsing with cheerio: a foreign library. The input is the sequence of `<dd>` texts. A missing element reads as "".
- Natural-language date parsing with chrono: a foreign library. It is the parameter `parseDate`.
- `authenticate`, the global `google.options` and the private-key `\n` rewrite: configuration plumbing.
- The `events.list` and `events.insert` calls: network I/O. Their results are the reader's input and the writer's output.
- `createEvents`, the rate limiter and `Promise.all`: timing and concurrency. The written events are listed in candidate order (`Sync.Written`).
- `console.log` and `dotenv`: the log line is returned as a string by `CreateEvent`.
- Time zones, local midnight and `isSame`'s millisecond comparison: dates are whole calendar days.
- Timed calendar events: they have no `start.date`, and `moment(undefined)` is the current time. The model's events carry an all-day start date string.
- Events without a title: `event.summary.match` would throw. The model gives every event a title.
- `moment(start.date)` for strings other than `YYYY-MM-DD`: moment parses other ISO 8601 and RFC 2822 forms itself and passes anything else to `Date`. The model reads all of them as invalid.
- The `yyyy` format token depends on the moment version. The model prints the year as `YYYY` does, zero-filled to at least four digits.
- JavaScript strings are UTF-16 code units. The model uses Unicode code points.
- Dates.FormatDateRoundTrip: stated for years up to 9999 only, because the strict `YYYY-MM-DD` reading takes four-digit years.
- Dates.MomentRoundTrip: stated for years up to 9999 only, for the same reason.
- EventWriter.ResourceSpansOneDay: stated for years below 9999 only, so that the end date also has a four-digit year.
- Sync.SecondRunWritesNothing: stated for candidates with valid dates and four-digit years; a resource carrying "Invalid date" never reads back as a match. It also assumes that both runs use the same `parseDate`, although chrono resolves relative texts such as "Tomorrow" against the current time, and that the second run's event list returns every event the first run wrote, although `events.list` starts at the current time and only its first page is read.
