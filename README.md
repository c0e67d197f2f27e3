# go-officialcharts in Dafny

go-officialcharts scrapes the UK Official Charts singles chart for one date.
It takes a chart table and:
- keeps only real chart rows, dropping advertisement rows and rows with a class;
- parses each kept row into a typed song record, with position, last-week position, peak, weeks on chart, trend, re-entry flag and cover URLs;
- returns a chart whose slice of songs is sized from the first table body.

Each song is stored at index `position - 1`. Any row that fails to parse fails the whole call. A day, month or year out of range is rejected before anything is fetched.

The repository has two versions of the scraper. officialcharts.go is the current one. main.go is the older one, with fewer fields and looser checks. This project models both:

| file | module | what it holds |
|---|---|---|
| results.dfy | `Results` | `Option` and `Result` |
| gotext.dfy | `GoText` | the Go library behaviour the core relies on: `strings.TrimSpace` over `unicode.IsSpace`, `strings.Index`/`Contains`, a single `strings.Replace`, `strconv.Atoi` on a 64-bit `int` (the first failing character decides between a syntax and a range error), and `strconv.Itoa` |
| inputs.dfy | `Inputs` | a table row as its selectors read it, the page as the collector's two callbacks see it, the visit outcome, the requested date |
| validation.dfy | `Validation` | the argument errors and their exact message texts |
| taskgroup.dfy | `TaskGroup` | errgroup's first-error rule, and the pre-sized slice filled by position (generic) |
| officialcharts.dfy | `OfficialCharts` | officialcharts.go |
| legacycharts.dfy | `LegacyCharts` | main.go |

How the collector is modelled:
- It runs the table-body callback over all its matches, then the row callback over all its matches.
- A `Document` is therefore the list of table bodies plus the list of rows.
- The rows that come before the slice is sized are the rows of a page with no table body.
- Each dispatched unit of work runs at once, in row order; errgroup's `Wait` returns the first error.
- `GetCharts` is a method over this input. `ChartsOf` is its specification function. `SizeChart` models the table-body callback, and it allocates the `array`. `RunRows` models the row callback, and it stores each song in that array in place.
- The current year is a parameter instead of `time.Now().Year()`.

Behaviour worth knowing:
- The last-week position is -1 for "New" and "Re". It is also -1 for a cell whose text is the integer "-1", because that text is simply parsed. So a last-week value of -1 does not by itself mean the song is new or a re-entry. `OfficialCharts.LastWeekSentinel` states the exact condition.
- A slot that no row's position names stays nil. The model keeps it as `None`; it does not claim the chart is gap-free. `TaskGroup.PlacedFull` says when it is.

## Model

| member | source | states |
|---|---|---|
| OfficialCharts.IsSongRow | officialcharts.go:44-51 | a row is accepted iff it has no `.adspace` descendant and its class attribute is absent or empty (main.go:39-46 is the same code and LegacyCharts uses this function) |
| OfficialCharts.MoveCode | officialcharts.go:17-21 | Up, Down and New are the codes 1, 2 and 3 |
| OfficialCharts.PositionMoved | officialcharts.go:84-92 | the trend is Up iff the last-week class contains "icon-up", Down iff it contains "icon-down" and not "icon-up", New otherwise (also main.go:70-78) |
| OfficialCharts.ProcessSongRow | officialcharts.go:53-109 | the row parses iff position, trimmed last week (a marker or an int), peak and weeks all parse; on failure, the error names the first field in that order that fails, with its strconv cause; on success, every field is the parsed value or the selector text, re-entry holds iff the trimmed text is "Re", and the large cover URL is the small one with its first "img/small?" made "img/large?" |
| OfficialCharts.Context | officialcharts.go:58-81 | every wrap context of a row error starts with "converting "; `ContextNamesField` shows the four are different |
| OfficialCharts.LargeCoverURL | officialcharts.go:107 | the large URL has the small one's length, and equals it when the small one holds no "img/small?"; `CoverURLs` shows it differs exactly when the pattern occurs |
| OfficialCharts.ContextNamesField | officialcharts.go:56-82 | the four wrap contexts are pairwise different, so an error's text identifies the field that failed |
| OfficialCharts.PaddedNumberFails | officialcharts.go:56-82 | white space anywhere in the position, peak or weeks text makes the row fail, since those texts are not trimmed |
| OfficialCharts.LastWeekTrimmedOnly | officialcharts.go:62 | the row's outcome depends on the last-week text only through its trimmed form |
| OfficialCharts.LastWeekPaddingIgnored | officialcharts.go:62-71 | white space around the last-week text gives the same outcome as the bare text |
| OfficialCharts.LastWeekSentinel | officialcharts.go:61-71 | last week is -1 iff the trimmed text is "New" or "Re" or parses to -1; a re-entry always has -1 |
| OfficialCharts.ReentryAccepted | officialcharts.go:63-65 | a row whose trimmed last-week text is "Re" parses as a re-entry with last week -1 when its other numbers parse |
| OfficialCharts.CoverURLs | officialcharts.go:94-107 | the large URL differs from the small one iff the small one contains "img/small?"; no image gives two empty URLs |
| OfficialCharts.ValidateArgs | officialcharts.go:113-121 | no error iff day is 1..31, month is 1..12 and year is 1952..current year; otherwise the error is the first failing check, in that order, with the given value |
| OfficialCharts.ArgumentTestCases | officialcharts_test.go:24-50 | 1/1/1950 is a bad year, 1/100/1950 a bad month, 50/1/1952 a bad day |
| OfficialCharts.SongRowCountIsCardinality | officialcharts.go:134-139 | the count of a table body's accepted rows is the number of row indices the classifier accepts |
| OfficialCharts.SongRowCount | officialcharts.go:134-139 | the count of a table body's accepted rows is at most its number of rows; `SongRowCountIsCardinality` says which rows are counted |
| OfficialCharts.CountSongRows | officialcharts.go:134-139 | the counting loop returns that count |
| OfficialCharts.SizeChart | officialcharts.go:133-142 | with no table body the slice stays nil; otherwise it is a fresh all-nil slice whose length is the first table body's accepted-row count, and later table bodies change nothing |
| OfficialCharts.RowTask | officialcharts.go:144-162 | before the slice is sized every row dispatches a unit that fails with the uninitialised-slice error; once it is sized a row dispatches nothing iff the classifier rejects it; a unit that succeeds yields the song `ProcessSongRow` parses from the row, and a unit of a sized slice that fails carries `ProcessSongRow`'s error as a "processing song" error |
| OfficialCharts.RunRows | officialcharts.go:144-162 | over all rows, the first error kept is the first failing unit's, and the slice holds every parsed song at its position minus one (later rows overwrite earlier ones); with no slice, every row is an uninitialised-slice failure |
| OfficialCharts.GetCharts | officialcharts.go:112-173 | the outcome is `ChartsOf`: argument error, then visit error, then the first row error, else a chart of the requested date whose length is the first table body's accepted-row count and whose slot i is empty or holds the song at position i+1 |
| OfficialCharts.ChartsOf | officialcharts.go:112-173 | a chart comes back iff the arguments are valid, the page was visited and no unit failed; it has the requested date, the first table body's accepted-row count as length, and slot i empty or holding the song at position i+1 |
| OfficialCharts.ArgumentsCheckedFirst | officialcharts.go:113-121 | a bad argument is reported whatever the page |
| OfficialCharts.VisitErrorReported | officialcharts.go:164-166 | with valid arguments, a failed visit is the call's error, whatever the rows would have done |
| OfficialCharts.RowErrorFailsChart | officialcharts.go:168-170 | a failing row fails the call with no chart, and the error is that of the first failing row |
| OfficialCharts.NoTableBodyFails | officialcharts.go:145-150 | a page with rows and no table body fails with the uninitialised-slice error |
| OfficialCharts.NoSuccessUnsized | officialcharts.go:145-150 | before sizing no row yields a song |
| OfficialCharts.RejectedRowIgnored | officialcharts.go:151-153 | once the slice is sized, removing a rejected row changes nothing |
| OfficialCharts.ChartIsPlaced | officialcharts.go:140-172 | a returned chart's slice is the pre-sized all-nil slice after storing every parsed song, in row order, at its position minus one |
| OfficialCharts.RowSongSlotFilled | officialcharts.go:154-159 | when the call returns a chart, every accepted row that parses has filled the slot of its position, with a song of that position |
| OfficialCharts.TasksWithout | officialcharts.go:151-153 | removing a row from the page removes exactly that row's unit outcome |
| LegacyCharts.ProcessSong | main.go:48-89 | the row parses iff position, trimmed last week ("New" or an int) and weeks parse; otherwise the first failing field in that order is reported with its cause; on success the fields are the parsed values or the selector texts |
| LegacyCharts.Context | main.go:51-67 | every wrap context of a row error starts with "casting "; `WeeksErrorReadsAsPosition` shows two of them coincide |
| LegacyCharts.WeeksErrorReadsAsPosition | main.go:65-68 | a bad weeks count gets the same wrap context as a bad position |
| LegacyCharts.ReentryRowFails | main.go:55-63 | a row whose trimmed last-week text is "Re" fails with a syntax error on its last week |
| LegacyCharts.AgreesWithOfficial | main.go:48-89 | wherever both variants parse a row, they agree on every field main.go has |
| LegacyCharts.ValidateArgs | main.go:93-101 | no error iff day is neither 0 nor above 31, month is neither 0 nor above 12, and year is 1952..current year; otherwise the first failing check, with the value |
| LegacyCharts.NegativeDateAccepted | main.go:93-98 | day -5 and month -3 pass main.go's checks and are rejected by officialcharts.go's |
| LegacyCharts.ValidationAgreesOnNaturals | main.go:93-101 | for days and months that are not negative, both variants' checks agree |
| LegacyCharts.SizeChart | main.go:111-125 | the `initialised` flag lets only the first table body size the slice, which then has that body's accepted-row count; with no table body the slice stays nil |
| LegacyCharts.RowTask | main.go:127-139 | a row dispatches nothing iff the classifier rejects it; otherwise the unit's song or error is the outcome of `ProcessSong` on the row |
| LegacyCharts.RunRows | main.go:127-139 | the first error kept is that of the first failing row, and the slice holds every parsed song at its position minus one |
| LegacyCharts.GetCharts | main.go:92-150 | the outcome is `LegacyCharts.ChartsOf`, with the same length, slot and date guarantees as the current variant |
| LegacyCharts.ChartsOf | main.go:92-150 | a chart comes back iff main.go's argument checks pass, the page was visited and no row failed; it has the requested date, the first table body's accepted-row count as length, and slot i empty or holding the song at position i+1 |
| LegacyCharts.ArgumentsCheckedFirst | main.go:93-101 | a bad argument is reported whatever the page |
| LegacyCharts.VisitErrorReported | main.go:141-143 | with main.go's checks passed, a failed visit is the call's error, whatever the rows would have done |
| LegacyCharts.RowErrorFailsChart | main.go:145-147 | a failing row fails the call, and the error is that of the first failing row |
| LegacyCharts.ChartIsPlaced | main.go:124-149 | a returned chart's slice is the pre-sized all-nil slice after storing every parsed song, in row order, at its position minus one |
| LegacyCharts.RowSongSlotFilled | main.go:131-136 | when the call returns a chart, every accepted row that parses has filled the slot of its position, with a song of that position |
| LegacyCharts.NoTableBodyEmptyChart | main.go:127-139 | with no table body and no failing row, the call returns an empty chart |
| Validation.MessageReportsValue | officialcharts.go:114-120 | each argument message ends with the given value in decimal, which parses back to that value |
| Validation.Message | officialcharts.go:114-120 | each argument message ends with the given value as `Itoa` writes it (main.go:94-100 uses the same texts) |
| Validation.YearTestMessage | officialcharts_test.go:31 | the bad-year message text for 1950 |
| Validation.MonthTestMessage | officialcharts_test.go:40 | the bad-month message text for 100 |
| Validation.DayTestMessage | officialcharts_test.go:49 | the bad-day message text for 50 |
| TaskGroup.NoFailure | officialcharts.go:168 | the group reports no error iff no unit failed |
| TaskGroup.FirstFailureIsFirst | officialcharts.go:168 | the error reported is that of the first failing unit in dispatch order |
| TaskGroup.FirstFailure | officialcharts.go:168 | `eg.Wait()` as a function of the units' outcomes in dispatch order; its properties are stated by `NoFailure` (no error iff no unit failed) and `FirstFailureIsFirst` (the first failing unit's error) |
| TaskGroup.Successes | officialcharts.go:154-161 | the songs of the units that succeeded, in dispatch order; its properties are stated by `AppendOutcomes`, `SkippedIgnored`, `SuccessesPrefix` and `SuccessesMember` |
| TaskGroup.AppendOutcomes | officialcharts.go:168 | the first error and the stored songs of two runs in sequence are those of the first run, then the second |
| TaskGroup.SkippedIgnored | officialcharts.go:151-153 | a row that dispatches nothing changes neither the error nor the stored songs |
| TaskGroup.ExtendOutcomes | officialcharts.go:154-161 | one more unit keeps an earlier error or reports its own, and appends its song |
| TaskGroup.SuccessesMember | officialcharts.go:154-161 | the song of every unit that succeeded is among the stored songs |
| TaskGroup.SuccessesPrefix | officialcharts.go:154-161 | the songs stored by the first units are a prefix of all songs stored |
| TaskGroup.Step | officialcharts.go:154-161 | one loop step: the error rule, the append rule, positions still fit |
| TaskGroup.Placed | officialcharts.go:140-159 | a slice of n slots after the stores; every filled slot holds a song whose position is its index plus one |
| TaskGroup.PlacedAppend | officialcharts.go:159 | one more store changes just the slot of that song's position |
| TaskGroup.Store | officialcharts.go:159 | the in-place store `songs[position-1] = song` gives the next `Placed` slice |
| TaskGroup.FitsPrefix | officialcharts.go:159 | songs that fit still fit after dropping later ones |
| TaskGroup.PlacedSlot | officialcharts.go:140-159 | a slot is filled iff some stored song has that slot's position |
| TaskGroup.PlacedLastWriter | officialcharts.go:159 | of several songs with one position, the slot holds the last one stored |
| TaskGroup.DoneSlotFilled | officialcharts.go:159 | a unit that succeeded has filled the slot of its value's position, with a value of that position |
| TaskGroup.PlacedFull | officialcharts.go:140-159 | every slot is filled iff every position 1..n is some song's position |
| Inputs.AttrText | officialcharts.go:49 | a missing attribute reads as the empty text |
| GoText.TrimLeft | officialcharts.go:62 | the result is a suffix of the input that does not start with white space, and every character dropped is white space |
| GoText.TrimRight | officialcharts.go:62 | the result is a prefix of the input that does not end with white space, and every character dropped is white space |
| GoText.TrimSpace | officialcharts.go:62 | the result neither starts nor ends with white space and is no longer than the input |
| GoText.TrimLeftPadded | officialcharts.go:62 | leading white space is removed entirely |
| GoText.TrimRightPadded | officialcharts.go:62 | trailing white space is removed entirely |
| GoText.TrimSpacePadded | officialcharts.go:62 | an already trimmed text with white space around it trims back to itself |
| GoText.TrimSpaceIdempotent | officialcharts.go:62 | trimming twice is trimming once |
| GoText.IsSpace | officialcharts.go:62 | Unicode's White_Space characters, which `strings.TrimSpace` removes; none of them is a digit or a sign, so none can be part of an integer text |
| GoText.IndexFrom | officialcharts.go:86-91 | the search from an offset finds the first occurrence at or after it, or -1 when there is none |
| GoText.Index | officialcharts.go:107 | -1 iff there is no occurrence, otherwise the first one |
| GoText.Contains | officialcharts.go:86-91 | true iff the substring occurs somewhere |
| GoText.ReplaceFirst | officialcharts.go:107 | without an occurrence the text is unchanged; otherwise the first occurrence is replaced and the rest kept |
| GoText.ReplaceFirstChanges | officialcharts.go:107 | replacing with a different text of the same length changes the text iff the pattern occurs |
| GoText.DigitValue | officialcharts.go:56 | a digit's value is 0..9 |
| GoText.AccumulateGrows | officialcharts.go:56 | accumulating more digits never decreases the value |
| GoText.ScanDigitsValue | officialcharts.go:56 | the digit loop succeeds iff every character is a digit and the value stays within 64 bits unsigned, and then returns that value |
| GoText.ScanDigits | officialcharts.go:56 | a successful digit scan never returns less than the value accumulated so far, and after at least one digit returns at most 2^64 - 1 |
| GoText.AtoiValue | officialcharts.go:56 | Atoi succeeds iff the text is an optional sign and one or more digits whose value fits a 64-bit int, and returns that value |
| GoText.Atoi | officialcharts.go:56-79 | a parsed value lies in the 64-bit int range, and an empty text or a bare sign is a syntax error; `AtoiValue` states exactly which texts parse (used at lines 56, 67, 73 and 79) |
| GoText.AtoiRejectsSpace | officialcharts.go:56 | a text holding any white space fails Atoi |
| GoText.AtoiRejectsLeadingNonDigit | main.go:59 | a text that starts with neither a sign nor a digit, such as "Re", is a syntax error |
| GoText.AtoiRangeError | officialcharts.go:56 | a text of digits, optionally signed, whose value lies outside the int range is a range error |
| GoText.DigitsNoSyntax | officialcharts.go:56 | the digit loop never reports a syntax error on a text made only of digits |
| GoText.DigitChar | officialcharts.go:114 | the character of a digit is a digit of that value |
| GoText.Decimal | officialcharts.go:114 | a decimal numeral is non-empty, all digits, with no leading zero |
| GoText.AccumulateAppend | officialcharts.go:114 | appending a digit preserves the all-digits property and updates the value |
| GoText.DecimalValue | officialcharts.go:114 | a decimal numeral reads back as its number |
| GoText.AtoiItoa | officialcharts.go:114 | Atoi of Itoa(n) is n for every 64-bit n |
| GoText.Itoa | officialcharts.go:114-120 | the text is non-empty and an integer text as `Atoi` reads it, with a leading minus iff the number is negative; `AtoiItoa` shows it reads back as the number |

## Left out

- Fetching: colly, goquery and the network are outside the model. The URL built with `fmt.Sprintf` is left out too. The page arrives as a `Visit`: either the rows its selectors would produce, or the collector's error.
- Selector evaluation: each row arrives already reduced to the texts and attributes its selectors read. Invalid UTF-8 is not modelled; text is a sequence of decoded characters.
- Concurrency: the parse-and-store units dispatched through errgroup are run one at a time, in row order. The counting loop in the table-body callback is synchronous in Go as well. Where two rows share a position, Go has a data race; the model lets the later row win. errgroup keeps the error of whichever failing unit returns first, which depends on timing; so "the error is that of the first failing row" (`RowErrorFailsChart` in both variants) describes the model's row order, not a guarantee the program makes beyond "some failing row's error".
- Out-of-range positions: a song position outside 1..slice length makes Go panic. That is a precondition here (`SongsFit`).
- Detaching while the collector is running: `OnHTMLDetach` is taken to act at once, so later table bodies do nothing. What colly does when a callback detaches itself mid-traversal is not modelled.
- Time: `time.Now().Year()` becomes the `currentYear` parameter. `time.Date`'s normalisation of, say, 31 February and the local time zone are not modelled; the chart's date is the requested (year, month, day).
- Error texts: the model gives each error a context (`Context`) and a strconv cause (`NumError`). It does not build the full chained `errors.Wrap` or strconv texts, except the argument messages, which it builds exactly.
- The Halloween 1992 happy-path test in officialcharts_test.go and main_test.go needs the live site, so it is not modelled.

## Findings

| source | as written | input that shows it | evidently intended | confidence | as-written member | corrected member |
|---|---|---|---|---|---|---|
| main.go:93-98 | the day and month checks reject only 0 and values above 31 or 12 | GetCharts(-5, -3, 2000) passes validation and goes on to fetch a page | reject anything below 1, as the "between 1-31 inclusive" message says (officialcharts.go:113-118 does so) | not executed; high | LegacyCharts.NegativeDateAccepted | OfficialCharts.ValidateArgs |
| main.go:55-63 | only "New" is taken as "no position last week" | a chart row whose last-week cell reads "Re" fails to parse, so the whole chart fails | treat "Re" as a re-entry with last week -1 (officialcharts.go:63-65) | not executed; medium | LegacyCharts.ReentryRowFails | OfficialCharts.ProcessSongRow |
| main.go:65-68 | a bad weeks-on-chart text is wrapped as "casting position string to integer" | a row whose fifth cell reads "x" reports a position error | a context that names the weeks field (officialcharts.go:79-82) | not executed; high | LegacyCharts.WeeksErrorReadsAsPosition | OfficialCharts.ContextNamesField |
