# Per-minute moving average of event durations

This project models the `Moving_Average` class of `unbabel_challenge.py` in
Dafny. The class takes a log of timestamped events with durations. It walks
the log one whole minute at a time, from the first event's minute on. Each
minute it may admit one duration into a trailing buffer (`moving_dataset`).
Then it records, under that minute's label, the moving average of the
buffer. Reading and writing JSON and the command line are outside the model.
The model starts from timestamps and durations that are already parsed.

Modules:

- `Clock` holds the time arithmetic. A timestamp is a whole number of seconds
  from midnight of a reference day. It defines the second, minute and hour
  fields, the start-of-minute truncation, Python's normalised `timedelta`,
  and `check_time_diff`.
- `Convolution` holds `moving_average`, a `numpy.convolve` in `'valid'` mode
  with uniform weights. This includes numpy's swap when the kernel is the
  longer input. It also holds the window rule of `calculating_value`, which
  uses the buffer length minus one. `LastMovingAverage` proves that the
  recorded value is the mean of every buffered value except the front one,
  or the single value, when the buffer holds only one.
- `OrderedOutput` holds the `OrderedDict` of results, as a sequence of
  entries in insertion order. `Put` is `d[k] = v`: an existing key keeps
  its position, and a new key is appended.
- `MinuteWalk` is the walk as a state machine over values. `Pending` is the
  `next_time`/`new_index` pair: `Idle` or `Deferred(index)`. `Scan` is the
  inner `for index` loop, including its `continue`s and `break`s.
  `MinuteStep` is one pass of the outer loop and `Walk` repeats it. `Run`
  adds the two ways the method stops early. The lemmas state what a minute
  does for a non-zero window size: evict at most once, then admit at most
  one duration or defer one event. With window size 0, which the source
  does not reject, every `reset_window` call evicts only while the counter
  is 0. From a fresh object that is the second minute only; after it the
  counter runs past 0 and nothing is evicted again. The lemmas also state
  what a whole run yields: one entry per minute, minute numbers counting up
  by one, distinct keys, and, for a window size of at least 1, the window
  counter's bounds. Two worked runs are proved by evaluation.
- `Averager` is the object itself. It is a class with the fields
  `windowSize`, `movingDataset` and `output`. Its methods `ResetWindow`,
  `CalculatingValue` and `OutputGenerator` update those fields in place.
  `OutputGenerator` keeps the source's nested loops, split into the helper
  methods `WalkMinutes` (outer loop) and `ScanEvents` (inner loop). It is
  proved to leave exactly the buffer and output that `MinuteWalk.Run`
  describes, or to fail with the same error and change nothing.

Behaviour of the code worth knowing:

- `check_time_diff` compares the normalised `timedelta` (`days <= 0 and
  seconds < 60`). It therefore also matches an event exactly a whole number
  of days earlier than the minute (`Clock.CheckTimeDiff`,
  `Clock.CheckTimeDiffDayPeriodic`), not only one 0 to 59 seconds later.
- The buffer is not bounded by the window size plus the seed. One value can
  enter every minute, while one value leaves only every `window_size`
  minutes (`MinuteWalk.WindowOutgrowsSize`).
- Events at 00:00:05, 00:00:40 and 00:01:10 with durations 10, 20 and 30,
  and window size 2, on a fresh object: the code records
  three minutes, with values 0, 10 and 10. The events at 40 s and 70 s are
  never admitted (`MinuteWalk.ThreeEventRun`).
- Events that all fall within one minute give two entries, not one. The
  walk covers `(t[2] - t[0]) // 60 + 2` minutes, or none when that is not
  positive, because `var` is always 2: the code compares an `int` with the
  string `'00'` (`MinuteWalk.MinuteCount`, `MinuteWalk.RunFromFreshObject`).
- While an event is deferred, the inner loop looks at no other event and
  does not call `reset_window` for the indices before it (`MinuteWalk.Scan`).
- The start time's second is always 0. So an event is deferred exactly when
  it matches the minute on a non-zero second, and any other match is
  admitted at once.

## Model

| member | source | states |
|---|---|---|
| Clock.StartTime | unbabel_challenge.py:110-111 | the start time keeps the first event's hour and minute, lies on the reference day, and has second 0 |
| Clock.TruncateToMinute | unbabel_challenge.py:113-114 | the first minute boundary has second 0, is at most one minute before the event, and has the event's minute and hour stamp |
| Clock.Difference | unbabel_challenge.py:95 | a `timedelta` in normal form: seconds in [0, 86400), and days * 86400 + seconds equals the difference |
| Clock.CheckTimeDiff | unbabel_challenge.py:88-99 | the test holds exactly when the difference is below a day and its remainder modulo a day is below 60 seconds |
| Clock.CheckTimeDiffWithinDay | unbabel_challenge.py:95-99 | within one day after the minute boundary, the test means "less than 60 seconds later" |
| Clock.CheckTimeDiffEarlier | unbabel_challenge.py:95-99 | an earlier event within one day minus a minute never matches |
| Clock.CheckTimeDiffDayPeriodic | unbabel_challenge.py:95-99 | for earlier events the test repeats with a period of one day |
| Clock.IntEqualsStr | unbabel_challenge.py:119-121 | no contract: it is the constant `False` of Python's `int == str`, so `OutputGenerator` always sets `var` to 2 |
| Clock.MatchWithSecondsGoneNextMinute | unbabel_challenge.py:135-152 | an event that matches a minute boundary on a non-zero second does not match the next boundary |
| Convolution.UniformWeights | unbabel_challenge.py:39 | `window` weights that add up to 1 |
| Convolution.ConvolveValid | unbabel_challenge.py:40 | the length of a 'valid' convolution is the longer length minus the shorter plus one; its values are characterised in `MovingAverage` |
| Convolution.MovingAverage | unbabel_challenge.py:32-41 | every entry is the mean of the `window` values from its position on; a window longer than the values gives their sum over the window at every position |
| Convolution.WindowFor | unbabel_challenge.py:50-52 | for a non-empty buffer the window lies between 1 and the buffer length, and is the length minus one once there is more than one value |
| Convolution.SeedOffsetMean | unbabel_challenge.py:53-54 | a single value is recorded as itself; otherwise the value times the length minus one is the sum of all values but the front one |
| Convolution.LastMovingAverage | unbabel_challenge.py:50-54 | the last moving-average entry, with the window rule of `calculating_value`, is the mean of the buffer without its front value (or the single value) |
| OrderedOutput.Put | unbabel_challenge.py:56 | assignment adds at most one entry |
| OrderedOutput.PutAppendsNew | unbabel_challenge.py:56 | a new key is appended at the end and nothing else changes |
| OrderedOutput.PutKeepsPresent | unbabel_challenge.py:56 | an existing key keeps its position: the length and every key stay the same |
| OrderedOutput.PutKeys | unbabel_challenge.py:56 | the keys afterwards are the old keys plus the assigned one |
| OrderedOutput.PutValues | unbabel_challenge.py:56 | with distinct keys, the assigned key gets the new value, every other value stays, and the keys stay distinct |
| OrderedOutput.FreshMinute | unbabel_challenge.py:55-56 | a label whose minute number is above every recorded one is a new key |
| MinuteWalk.Reset | unbabel_challenge.py:82-86 | the buffer never becomes empty, and nothing but the counter and the buffer changes |
| MinuteWalk.FirstMatch | unbabel_challenge.py:130-131 | the result is the first index from the start position whose event matches the minute, or the number of events if none does |
| MinuteWalk.Record | unbabel_challenge.py:150 | no contract: `calculating_value` under the last admitted event; `Visit` and `Scan` state what it records |
| MinuteWalk.Defers | unbabel_challenge.py:135 | no contract: the deferral test; `ScanSummary` and `DeferredAdmittedNextMinute` state its effect |
| MinuteWalk.Visit | unbabel_challenge.py:134-146 | at the stopping index the counter is reset once and the minute is recorded once, under the last admitted event's hour, with the buffer's mean |
| MinuteWalk.Scan | unbabel_challenge.py:130-151 | the inner loop leaves the counter as one `reset_window` would, keeps the state valid, and records the minute exactly once with the final buffer's mean |
| MinuteWalk.MinuteStep | unbabel_challenge.py:128-151 | one pass of the outer loop records its minute exactly once, with the buffer's mean after the pass |
| MinuteWalk.Walk | unbabel_challenge.py:128-152 | the walk keeps the buffer non-empty and every index in range |
| MinuteWalk.InitialState | unbabel_challenge.py:115-122 | no contract: `count = -2`, nothing pending, `last_index = 0`; `RunFromFreshObject` and `WalkCountBounded` state what follows from it |
| MinuteWalk.MinuteCount | unbabel_challenge.py:119-126 | no minutes are walked exactly when the third event is more than a minute before the first; at least two are walked when it is not before the first |
| MinuteWalk.Run | unbabel_challenge.py:101-153 | fewer than three events fail, an empty list with its own error; a walk keeps the buffer non-empty and every index in range; `RunFromFreshObject` states the output |
| MinuteWalk.ResetIdempotent | unbabel_challenge.py:82-86 | for a non-zero window size, a second `reset_window` right after the first changes nothing |
| MinuteWalk.ZeroWindowEvictsRepeatedly | unbabel_challenge.py:82-86 | with window size 0, a call on a counter at 0 drops the front value and leaves the counter at 0, so the next call evicts again |
| MinuteWalk.ScanSummary | unbabel_challenge.py:130-151 | for a non-zero window size, the inner loop evicts at most once; then it admits the duration at its stopping index, defers that event (buffer unchanged), or admits nothing when no event matches |
| MinuteWalk.MinuteStepSummary | unbabel_challenge.py:128-151 | for a non-zero window size, one minute moves the counter one step and evicts at most once; then it admits one duration, defers one event, or admits nothing, as the first match decides |
| MinuteWalk.AdmittedSameMinute | unbabel_challenge.py:141-146 | for a non-zero window size, a first match on second 0 is admitted in its own minute and recorded under its own hour |
| MinuteWalk.DeferredAdmittedNextMinute | unbabel_challenge.py:134-146 | for a non-zero window size, a first match on a non-zero second is pending after its minute, which is recorded under the last admitted event; it is admitted in the next minute and recorded there under its own hour |
| MinuteWalk.StepCount | unbabel_challenge.py:129-148 | for a non-zero window size, each minute the counter moves one step and returns to 0 when it reaches the window size |
| MinuteWalk.WalkCountBounded | unbabel_challenge.py:117-148 | for a window size of at least 1, starting from -2 and below the window size, the counter stays below the window size; it is negative only for the first minutes, counting up by one |
| MinuteWalk.StepAppendsEntry | unbabel_challenge.py:128-151 | a minute numbered above every recorded one appends exactly one entry with that minute and leaves the earlier entries as they were |
| MinuteWalk.WalkOutputShape | unbabel_challenge.py:128-152 | after `n` minutes there are exactly `n` new entries after the old ones, numbered on by one from the first minute |
| MinuteWalk.NumberedDistinct | unbabel_challenge.py:55-56 | consecutive minute numbers give distinct keys |
| MinuteWalk.RunFromFreshObject | unbabel_challenge.py:106-153 | on a fresh object, fewer than three events fail (with the empty list told apart); otherwise there is one entry per walked minute, (t2 - t0) // 60 + 2 of them or none, numbered from the first event's minute, with distinct keys, a non-empty buffer and, for a window size of at least 1, a counter below the window size |
| MinuteWalk.ThreeEventRun | unbabel_challenge.py:101-153 | events at 5 s, 40 s and 70 s with window size 2 give entries 0, 10 and 10 for minutes 0, 1 and 2, and admit only the first duration |
| MinuteWalk.WindowOutgrowsSize | unbabel_challenge.py:141-143 | events on second 0 of three consecutive minutes with window size 2 fill the buffer to four values |
| Averager.MovingAverage.constructor | unbabel_challenge.py:18-30 | a new object has an empty output, the buffer `[0]` and the given window size |
| Averager.MovingAverage.ResetWindow | unbabel_challenge.py:76-86 | at the window size the counter becomes 0 and the front value is dropped unless it is the only one; otherwise nothing changes |
| Averager.MovingAverage.CalculatingValue | unbabel_challenge.py:43-56 | the output gets, under the event's hour and the minute number, the mean of the buffer without its front value, or the single value when the buffer holds one |
| Averager.MovingAverage.ScanEvents | unbabel_challenge.py:130-151 | the `for index` loop leaves exactly the state `Scan` gives |
| Averager.MovingAverage.WalkMinutes | unbabel_challenge.py:128-152 | the `for every_minute` loop leaves exactly the buffer and output `Walk` gives |
| Averager.MovingAverage.OutputGenerator | unbabel_challenge.py:101-153 | the fields end as `Run` gives and the result is `True`, or the method fails with `Run`'s error and both fields are unchanged |

## Left out

- Reading the input file and parsing JSON (`reading_json`), writing the output file (`writing_json`) and the command line parser: these are file and process I/O. The model takes parsed timestamps and durations in the order the file lists them.
- The early return of `output_generator` when the JSON is invalid: it depends on `reading_json`, which is not part of this model.
- Fewer than three events: the source raises `IndexError` on `timestamps[len - 1]` or `timestamps[2]`. The model returns the errors `EmptyEventList` and `InvalidInputSpan` at exactly those points.
- Floating point: durations and means are exact reals. numpy's rounding and `total_seconds()` as a float are not modelled. The differences are whole seconds, so the floor division is exact.
- Date formatting: a label is the pair (hour stamp, minute number), not the text `strftime` produces. The hour stamp identifies the date and hour. The minute number is written unpadded and is never reduced modulo 60, as in the source.
- The fields `self.start_time` and `self.output_format`: they are only scratch values between statements. `OutputGenerator` keeps the start time in a local and computes each label when it is stored. The input and output file names are not modelled either.
- Averager.MovingAverage.OutputGenerator: its two loops are in the helper methods `WalkMinutes` and `ScanEvents`, and the `break`s of the inner loop are `return`s from `ScanEvents`. The locals `count`, `next_time`, `new_index` and `last_index` are passed in and handed back, not kept in one method body.
- Calendar rules beyond whole days (months, leap years, time zones): a timestamp is a count of seconds, and only day, hour, minute and second arithmetic matters to the walk.
