# Exchange-rate fetch cycle: sequential core

This project models the deterministic core of a Go daemon that, every five
seconds, launches a batch of ten concurrent workers. Each worker fetches the
last 100 EUR exchange rates from a public API and logs the effective dates
of the rates whose mid value lies outside the band [4.5, 4.7]. All of the
modelled code is in `main.go`:

- **Rate filter** (`Rates`). The worker's loop walks the decoded rate
  records in order and appends the formatted effective date of every record
  whose `Mid` is strictly below 4.5 or strictly above 4.7. `CollectOutOfScope`
  is that loop. It is proved equal to the specification function
  `FlaggedDates`, which is tied by lemmas to `FlaggedIndices`, a reference
  definition by positions.
- **Date formatting** (`Decimal`, `Dates`). This is
  `fmt.Sprintf("%d/%d/%d", day, month, year)`: plain decimal, no padding, and
  the month as its number. The partner is a parser that splits on '/' and
  reads each field back.
- **Residual sleep** (`Cycle`). After an early completion the driver sleeps
  `FetchInterval*time.Second - elapsed`. `time.Sleep` ignores a duration that
  is zero or negative. After a timeout the wait was the full interval.
  Durations are int64 nanoseconds.
- **Batch launch and countdown** (`Batch`). `wg.Add(FetchesAmount)` is
  followed by a loop that starts workers 0..N-1. Each worker's deferred
  `wg.Done()` runs once, and a monitor closes the completion channel once
  the counter reaches zero. All of this is modelled sequentially.

Inputs that come from outside the core are parameters:
- the decoded rate records;
- the time since the cycle started, as measured by `time.Since`;
- which case of the `select` fired.

## Model

| member | source | states |
|---|---|---|
| Decimal.NatToString | main.go:123 | `%d` of a natural number is a non-empty string of digits; it starts with '0' exactly when the number is zero, and then it is "0" (no zero padding) |
| Decimal.FormatInt | main.go:123 | `%d` of an integer is non-empty; it starts with '-' exactly when the integer is negative, and every other character is a digit |
| Decimal.NatToStringRoundTrip | main.go:123 | reading the digits of a natural number's rendering gives the number back |
| Decimal.FormatIntRoundTrip | main.go:123 | parsing the `%d` rendering of any integer gives that integer back |
| Decimal.FormatNonNegative | main.go:122-123 | the rendering of a non-negative component is all digits, with no leading zero unless it is "0" |
| Dates.FormatDate | main.go:122-123 | the rendering of a date has a '/' right after the day's `%d` field and another right after the month's, and its length is the three fields plus two, so every field is non-empty; `Dates.FormatDateFields` and `Dates.DateRoundTrip` fix the fields themselves |
| Dates.FormatDateFields | main.go:122-123 | splitting a formatted date on '/' gives exactly the three renderings of day, month and year, in that order |
| Dates.DateRoundTrip | main.go:122-123 | parsing a formatted date gives back the same (day, month, year) |
| Dates.FormatDateInjective | main.go:122-123 | two different dates never format to the same string |
| Dates.FormatDateShape | main.go:122-123 | for non-negative components, a formatted date has exactly three fields, each non-empty, all digits and without a leading zero |
| Dates.FormatDateExample | main.go:122-123 | day 5, month 3, year 2024 formats as "5/3/2024" |
| Rates.OutOfScope | main.go:121 | a record is flagged exactly when its mid lies outside the closed band [4.5, 4.7] |
| Rates.FlaggedDates | main.go:118-126 | the list the filter builds is never longer than the records; the lemmas below give its content and order |
| Rates.FlaggedIndices | main.go:120-125 | the flagged positions are in range and strictly increasing, and a position is flagged exactly when its mid is below 4.5 or above 4.7 |
| Rates.CollectOutOfScope | main.go:118-126 | the loop's accumulated list equals the specification filter over all records |
| Rates.FlaggedDatesAppend | main.go:120-125 | filtering a concatenation of record lists gives the concatenation of their filtered lists |
| Rates.FlaggedDatesFollowIndices | main.go:120-124 | the j-th entry of the list is the formatted date of the j-th flagged record, so entries follow the order of the records |
| Rates.FlaggedDateMembership | main.go:120-125 | a date is in the list if and only if some record carries that date and has a mid below 4.5 or above 4.7 |
| Rates.FlaggedDatesLength | main.go:118-126 | the list is no longer than the input; it is empty exactly when every mid lies in [4.5, 4.7], and as long as the input exactly when no mid does |
| Rates.BandEdges | main.go:121 | the comparisons are strict: mids 4.5 and 4.7 are not flagged, and 4.499 and 4.701 are |
| Rates.ThreeRecordScenario | main.go:118-126 | for records with mids 4.6, 4.4 and 4.8, the list holds the second and third dates, in that order |
| Cycle.EffectiveSleep | main.go:59 | the pause `time.Sleep` is asked for is the maximum of zero and its argument: a zero or negative duration gives no pause |
| Cycle.ResidualSleep | main.go:58-59 | the pause is the maximum of zero and `cadence - elapsed`, computed without int64 overflow; elapsed plus pause equals the cadence when completion came in time, and there is no pause when it came late |
| Cycle.CycleLength | main.go:55-62 | a cycle lasts at least the cadence; exactly the cadence after a timeout or a completion within the cadence, and exactly the elapsed time after a late completion |
| Cycle.StartOffset | main.go:32-67 | the start of cycle n lies at least n cadences after the start of the first cycle |
| Cycle.NeverEarly | main.go:32-67 | after n cycles at least n cadences have passed since the first start, and exactly n cadences when every cycle ended on time |
| Cycle.ConfiguredCadence | main.go:59-60 | the configured interval is 5_000_000_000 ns, and no cycle is shorter than that |
| Batch.LaunchWorkers | main.go:43-45 | the workers launched are 0, 1, ..., n-1, in order, each once, and no others |
| Batch.LaunchConfiguredBatch | main.go:43-45 | with the configured batch size, exactly workers 0..9 are launched |
| Batch.IntervalHandler.constructor | main.go:33 | a fresh handler has a zero counter and an open completion channel |
| Batch.IntervalHandler.Add | main.go:35 | `Add` raises the counter by the batch size and leaves the channel as it was |
| Batch.IntervalHandler.Done | main.go:72 | a worker's `Done` lowers the counter by one; it must not be called on a zero counter |
| Batch.IntervalHandler.Monitor | main.go:47-53 | the monitor closes the channel once the counter is zero, and not before |
| Batch.RunCountdown | main.go:33-53 | over one cycle, the counter is set to the number of launched workers before the launch; the channel is open after each of the first n-1 `Done` calls (and after the launch when n > 0), closed after the last one, and the counter ends at zero |

## Left out

- HTTP request construction, headers and the transport call (`prepareHttpRequest`, `addHeaders`, `client.Do`): network and library code.
- Gzip decompression, `json.Valid` and `json.Unmarshal`: library code. The filter takes the decoded record sequence as its input.
- The type `base.ExchangeRatesSummary` is not part of this model. A record is reduced to the two fields the filter reads: `Mid`, and the `Day()`, `Month()` and `Year()` of `EffectiveDate`. Dates carry no calendar validity constraint, since formatting does not depend on one.
- `Mid` is a Go `float64`, and the literal 4.7 is not exactly representable in binary. The model uses exact reals, which is faithful for the two comparisons, except for inputs that fall between 4.7 and its float64 rounding.
- Goroutines, the mutex that serialises log output, and the `select` race, which is concurrency. Only the outcome of each `select` case is modelled (`Cycle.Race`). `Batch.RunCountdown` runs the workers' `Done` calls one after another, with the monitor checking after each.
- Batch.RunCountdown: does not model stragglers that call `Done` after a timeout has already moved the driver on to a new cycle.
- The infinite driver loop and the clock reads (`time.Now`, `time.Since`). Elapsed time is a parameter, taken as non-negative, as a monotonic-clock reading is. `Cycle.StartOffset` covers a finite run of cycles. It ignores the time spent printing the begin and end markers.
- Cycle.CycleLength: its "exactly the cadence" and "exactly the elapsed time" clauses hold for an idealised clock. Go's `time.Sleep` pauses for at least its argument, and may pause longer; the model takes the pause to be exactly the argument. The timer of the timeout case starts when the `select` is entered, after the launch loop and the monitor start; the model takes it to start at the cycle's recorded start. The "at least the cadence" clause does not depend on either assumption.
- Cycle.NeverEarly: its equality for on-time cycles rests on the same idealised clock as `Cycle.CycleLength`.
- `log.Fatalf` process termination and all logging output, including the worker's report line: I/O and process control.
- Go's `%d` also renders integers of other widths; Go's `int` is 64-bit, while the date components here are unbounded integers, which are wide enough for any `time.Time`.
