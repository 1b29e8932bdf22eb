/** The minute-by-minute walk of `output_generator`, written as a state
    machine over whole minutes: `MinuteStep` is one pass of the outer loop,
    `Walk` runs it for a number of minutes, `Run` adds the error cases.
    The class in module `Averager` runs the source's nested loops and is
    proved to produce exactly what `Run` describes. */
module MinuteWalk {
  import opened Clock
  import opened Convolution
  import opened OrderedOutput

  /** The parsed input: timestamps and durations in the order the input file
      lists them, and the configured window size. */
  datatype Events = Events(timestamps: seq<int>, durations: seq<real>, windowSize: int)

  predicate WellFormed(e: Events)
  {
    |e.timestamps| == |e.durations| && |e.timestamps| > 0
  }

  /** `next_time` and `new_index`: whether an event met with a non-zero second
      waits to be admitted in the next minute. */
  datatype Pending = Idle | Deferred(index: nat)

  /** The walk's state between two minutes: the window counter `count`, the
      pending admission, `last_index`, the buffer `moving_dataset` and the
      output so far. */
  datatype WalkState = WalkState(
    count: int,
    pending: Pending,
    lastIndex: nat,
    dataset: seq<real>,
    output: seq<Entry>)

  predicate ValidState(e: Events, s: WalkState)
  {
    && s.dataset != []
    && s.lastIndex < |e.timestamps|
    && (s.pending.Deferred? ==> s.pending.index < |e.timestamps|)
  }

  /** `reset_window`: the counter restarts at 0 when it has reached the window
      size, and the front value leaves the buffer unless it is the only one. */
  function Reset(windowSize: int, s: WalkState): (r: WalkState)
    requires s.dataset != []
    ensures r.dataset != []
    ensures r.pending == s.pending && r.lastIndex == s.lastIndex && r.output == s.output
  {
    if s.count == windowSize then
      s.(count := 0, dataset := if |s.dataset| != 1 then s.dataset[1..] else s.dataset)
    else
      s
  }

  /** The first index from `from` on whose event `check_time_diff` matches
      against the minute `bucket`, or the number of events if none does. */
  function FirstMatch(timestamps: seq<int>, bucket: int, from: nat): (j: nat)
    requires from <= |timestamps|
    ensures from <= j <= |timestamps|
    ensures forall i :: from <= i < j ==> !CheckTimeDiff(bucket, timestamps[i])
    ensures j < |timestamps| ==> CheckTimeDiff(bucket, timestamps[j])
    decreases |timestamps| - from
  {
    if from == |timestamps| then from
    else if CheckTimeDiff(bucket, timestamps[from]) then from
    else FirstMatch(timestamps, bucket, from + 1)
  }

  /** `calculating_value(moving_dataset, minute, timestamps[last_index])`. */
  function Record(e: Events, s: WalkState, minute: int): (r: WalkState)
    requires ValidState(e, s)
  {
    var key := Label(HourStamp(e.timestamps[s.lastIndex]), minute);
    s.(output := Put(s.output, key, SeedOffsetMean(s.dataset)))
  }

  /** Whether the event at `j` falls in the minute `bucket` on a second after
      that of the start time, which is always 0. */
  predicate Defers(e: Events, bucket: int, j: nat)
    requires j < |e.timestamps|
  {
    CheckTimeDiff(bucket, e.timestamps[j]) && 0 < SecondOf(e.timestamps[j])
  }

  /** The scan stops at index `j`: it either defers the event at `j` to the next
      minute, or admits its duration; either way the minute is recorded. */
  function Visit(e: Events, minute: int, bucket: int, s: WalkState, j: nat): (r: WalkState)
    requires WellFormed(e) && ValidState(e, s) && j < |e.timestamps|
    ensures ValidState(e, r)
    ensures r.count == Reset(e.windowSize, s).count
    ensures r.output == Put(s.output, Label(HourStamp(e.timestamps[r.lastIndex]), minute),
                            SeedOffsetMean(r.dataset))
  {
    var s1 := Reset(e.windowSize, s.(pending := Idle));
    if Defers(e, bucket, j) then
      Record(e, s1.(pending := Deferred(j)), minute)
    else
      Record(e, s1.(dataset := s1.dataset + [e.durations[j]], lastIndex := j), minute)
  }

  /** The inner loop from index `i` on, in state `s`. With an event pending,
      the indices before it are skipped without a call to `reset_window`;
      otherwise every index that does not match calls `reset_window`, and the
      last one records the minute under the last admitted event. */
  function Scan(e: Events, minute: int, bucket: int, s: WalkState, i: nat): (r: WalkState)
    requires WellFormed(e) && ValidState(e, s) && i < |e.timestamps|
    requires s.pending.Deferred? ==> i <= s.pending.index
    ensures ValidState(e, r)
    ensures r.count == Reset(e.windowSize, s).count
    ensures r.output == Put(s.output, Label(HourStamp(e.timestamps[r.lastIndex]), minute),
                            SeedOffsetMean(r.dataset))
    decreases |e.timestamps| - i
  {
    match s.pending
    case Deferred(k) =>
      if k != i then Scan(e, minute, bucket, s, i + 1) else Visit(e, minute, bucket, s, i)
    case Idle =>
      if CheckTimeDiff(bucket, e.timestamps[i]) then Visit(e, minute, bucket, s, i)
      else
        var s1 := Reset(e.windowSize, s);
        if i == |e.timestamps| - 1 then Record(e, s1, minute)
        else Scan(e, minute, bucket, s1, i + 1)
  }

  /** One pass of the outer loop, for the minute numbered `minute` that starts
      at `bucket`: the counter moves one step and the inner loop runs from the
      first event. Every pass calls `reset_window` at least once and records
      the minute exactly once. */
  function MinuteStep(e: Events, minute: int, bucket: int, s: WalkState): (r: WalkState)
    requires WellFormed(e) && ValidState(e, s)
    ensures ValidState(e, r)
    ensures r.output == Put(s.output, Label(HourStamp(e.timestamps[r.lastIndex]), minute),
                            SeedOffsetMean(r.dataset))
  {
    Scan(e, minute, bucket, s.(count := s.count + 1), 0)
  }

  /** `start_time.minute`, which is the first event's minute: the minute
      number of the first output entry. */
  function FirstMinute(e: Events): int
    requires WellFormed(e)
  {
    MinuteOf(e.timestamps[0])
  }

  /** The initial `every_minute_time`: the start of the first event's minute. */
  function FirstBucket(e: Events): int
    requires WellFormed(e)
  {
    TruncateToMinute(e.timestamps[0])
  }

  /** The outer loop from the minute numbered `minute`, which starts at
      `bucket`, for `minutes` more passes. */
  function Walk(e: Events, s: WalkState, minute: int, bucket: int, minutes: nat): (r: WalkState)
    requires WellFormed(e) && ValidState(e, s)
    ensures ValidState(e, r)
    decreases minutes
  {
    if minutes == 0 then s
    else Walk(e, MinuteStep(e, minute, bucket, s), minute + 1, bucket + SecondsPerMinute, minutes - 1)
  }

  /** The length of `range(start_time.minute, end_time)`: whole minutes from the
      first to the third event, plus two (`var` is always 2), or none when that
      is not positive. */
  function MinuteCount(e: Events): (n: nat)
    requires |e.timestamps| >= 3
    ensures n == 0 <==> e.timestamps[2] - e.timestamps[0] < -SecondsPerMinute
    ensures e.timestamps[0] <= e.timestamps[2] ==> n >= 2
  {
    var span := (e.timestamps[2] - e.timestamps[0]) / SecondsPerMinute + 2;
    if span > 0 then span else 0
  }

  datatype Error = EmptyEventList | InvalidInputSpan

  datatype Outcome = Walked(state: WalkState) | Failed(error: Error)

  /** The state before the first minute: `count = -2`, `next_time = False`,
      `last_index = 0`, and the object's buffer and output. */
  function InitialState(dataset: seq<real>, output: seq<Entry>): WalkState
  {
    WalkState(-2, Idle, 0, dataset, output)
  }

  /** `output_generator` on parsed events: an empty list fails where the last
      event is read, one or two events fail where the third is read, and
      otherwise the walk covers `MinuteCount` minutes. */
  function Run(e: Events, dataset: seq<real>, output: seq<Entry>): (r: Outcome)
    requires |e.durations| == |e.timestamps| && dataset != []
    ensures r.Failed? <==> |e.timestamps| < 3
    ensures r.Failed? ==> (r.error == EmptyEventList <==> |e.timestamps| == 0)
    ensures r.Walked? ==> ValidState(e, r.state)
  {
    if |e.timestamps| == 0 then Failed(EmptyEventList)
    else if |e.timestamps| < 3 then Failed(InvalidInputSpan)
    else Walked(Walk(e, InitialState(dataset, output), FirstMinute(e), FirstBucket(e), MinuteCount(e)))
  }

  // ---------------------------------------------------------------------
  // The window counter and eviction

  lemma {:induction false} ResetIdempotent(windowSize: int, s: WalkState)
    requires windowSize != 0 && s.dataset != []
    ensures Reset(windowSize, Reset(windowSize, s)) == Reset(windowSize, s)
  {
  }

  /** With window size 0 a call on a counter at 0 evicts and leaves the
      counter at 0, so the next call evicts again. */
  lemma ZeroWindowEvictsRepeatedly(s: WalkState)
    requires s.count == 0 && |s.dataset| > 1
    ensures Reset(0, s).count == 0 && Reset(0, s).dataset == s.dataset[1..]
  {
  }

  /** Where the inner loop stops from index `i`: the pending event if there is
      one, else the first match from `i` on (the number of events if none). */
  function ScanStop(e: Events, bucket: int, s: WalkState, i: nat): nat
    requires WellFormed(e) && ValidState(e, s) && i <= |e.timestamps|
  {
    match s.pending
    case Deferred(k) => k
    case Idle => FirstMatch(e.timestamps, bucket, i)
  }

  /** Summary of the inner loop: for a non-zero window size it evicts at
      most once, however often it calls `reset_window`; then at most one
      duration enters the buffer, and only that of the index the loop stops
      at; an event with a non-zero second is left pending with the buffer
      untouched; with no match nothing is admitted. */
  lemma {:induction false} ScanSummary(e: Events, minute: int, bucket: int, s: WalkState, i: nat)
    requires WellFormed(e) && ValidState(e, s) && i < |e.timestamps| && e.windowSize != 0
    requires s.pending.Deferred? ==> i <= s.pending.index
    ensures var r := Scan(e, minute, bucket, s, i);
            var base := Reset(e.windowSize, s);
            var j := ScanStop(e, bucket, s, i);
            && (j == |e.timestamps| ==>
                  r.dataset == base.dataset && r.pending == Idle && r.lastIndex == s.lastIndex)
            && (j < |e.timestamps| && Defers(e, bucket, j) ==>
                  r.dataset == base.dataset && r.pending == Deferred(j) && r.lastIndex == s.lastIndex)
            && (j < |e.timestamps| && !Defers(e, bucket, j) ==>
                  r.dataset == base.dataset + [e.durations[j]] && r.pending == Idle && r.lastIndex == j)
    decreases |e.timestamps| - i
  {
    match s.pending
    case Deferred(k) =>
      if k != i {
        ScanSummary(e, minute, bucket, s, i + 1);
      } else {
        assert Reset(e.windowSize, s.(pending := Idle)).dataset == Reset(e.windowSize, s).dataset;
      }
    case Idle =>
      if !CheckTimeDiff(bucket, e.timestamps[i]) {
        var s1 := Reset(e.windowSize, s);
        assert Reset(e.windowSize, s1) == s1;
        if i < |e.timestamps| - 1 {
          ScanSummary(e, minute, bucket, s1, i + 1);
        }
      }
  }

  /** Summary of one minute: for a non-zero window size the counter moves
      one step and evicts at most once; then at most one duration enters the buffer, and only that of the
      index the scan stops at; an event with a non-zero second is left pending
      with the buffer untouched; with no match nothing is admitted. */
  lemma {:induction false} MinuteStepSummary(e: Events, minute: int, bucket: int, s: WalkState)
    requires WellFormed(e) && ValidState(e, s) && e.windowSize != 0
    ensures var r := MinuteStep(e, minute, bucket, s);
            var base := Reset(e.windowSize, s.(count := s.count + 1));
            var j := ScanStop(e, bucket, s, 0);
            && r.count == base.count
            && (j == |e.timestamps| ==>
                  r.dataset == base.dataset && r.pending == Idle && r.lastIndex == s.lastIndex)
            && (j < |e.timestamps| && Defers(e, bucket, j) ==>
                  r.dataset == base.dataset && r.pending == Deferred(j) && r.lastIndex == s.lastIndex)
            && (j < |e.timestamps| && !Defers(e, bucket, j) ==>
                  r.dataset == base.dataset + [e.durations[j]] && r.pending == Idle && r.lastIndex == j)
  {
    ScanSummary(e, minute, bucket, s.(count := s.count + 1), 0);
  }

  /** The first event matching a minute on second 0 is admitted in that same
      minute, and the minute is recorded under that event's hour stamp. */
  lemma {:induction false} AdmittedSameMinute(e: Events, minute: int, bucket: int, s: WalkState)
    requires WellFormed(e) && ValidState(e, s) && e.windowSize != 0
    requires s.pending == Idle
    requires FirstMatch(e.timestamps, bucket, 0) < |e.timestamps|
    requires SecondOf(e.timestamps[FirstMatch(e.timestamps, bucket, 0)]) == 0
    ensures var j := FirstMatch(e.timestamps, bucket, 0);
            var r := MinuteStep(e, minute, bucket, s);
            && r.pending == Idle && r.lastIndex == j
            && r.dataset == Reset(e.windowSize, s.(count := s.count + 1)).dataset + [e.durations[j]]
            && r.output == Put(s.output, Label(HourStamp(e.timestamps[j]), minute), SeedOffsetMean(r.dataset))
  {
    MinuteStepSummary(e, minute, bucket, s);
  }

  /** An event that matches a minute on a non-zero second is admitted at the
      next minute: it is pending after the first, and its duration enters the
      buffer in the second, under its own hour stamp. The first minute is
      recorded under the hour stamp of the last admitted event. */
  lemma {:induction false} DeferredAdmittedNextMinute(e: Events, minute: int, bucket: int, s: WalkState)
    requires WellFormed(e) && ValidState(e, s) && e.windowSize != 0
    requires s.pending == Idle && SecondOf(bucket) == 0
    requires FirstMatch(e.timestamps, bucket, 0) < |e.timestamps|
    requires 0 < SecondOf(e.timestamps[FirstMatch(e.timestamps, bucket, 0)])
    ensures var j := FirstMatch(e.timestamps, bucket, 0);
            var r1 := MinuteStep(e, minute, bucket, s);
            var r2 := MinuteStep(e, minute + 1, bucket + SecondsPerMinute, r1);
            && r1.pending == Deferred(j)
            && r1.dataset == Reset(e.windowSize, s.(count := s.count + 1)).dataset
            && r1.output == Put(s.output, Label(HourStamp(e.timestamps[s.lastIndex]), minute),
                                SeedOffsetMean(r1.dataset))
            && r2.pending == Idle && r2.lastIndex == j
            && r2.dataset == Reset(e.windowSize, r1.(count := r1.count + 1)).dataset + [e.durations[j]]
            && r2.output == Put(r1.output, Label(HourStamp(e.timestamps[j]), minute + 1),
                                SeedOffsetMean(r2.dataset))
  {
    var j := FirstMatch(e.timestamps, bucket, 0);
    MinuteStepSummary(e, minute, bucket, s);
    var r1 := MinuteStep(e, minute, bucket, s);
    MatchWithSecondsGoneNextMinute(bucket, e.timestamps[j]);
    MinuteStepSummary(e, minute + 1, bucket + SecondsPerMinute, r1);
  }

  /** Each minute moves the counter one step and resets it once it reaches the
      window size. */
  lemma {:induction false} StepCount(e: Events, minute: int, bucket: int, s: WalkState)
    requires WellFormed(e) && ValidState(e, s) && e.windowSize != 0
    ensures MinuteStep(e, minute, bucket, s).count
         == if s.count + 1 == e.windowSize then 0 else s.count + 1
  {
    MinuteStepSummary(e, minute, bucket, s);
  }

  /** For a window size of at least 1, a counter below the window size stays
      below it; it climbs by one minute at a time until it is no longer
      negative, and from then on it stays so. */
  lemma {:induction false} WalkCountBounded(e: Events, s: WalkState, minute: int, bucket: int, minutes: nat)
    requires WellFormed(e) && ValidState(e, s) && e.windowSize >= 1
    requires -2 <= s.count < e.windowSize
    ensures var c := Walk(e, s, minute, bucket, minutes).count;
            && -2 <= c < e.windowSize
            && (s.count + minutes >= 0 ==> 0 <= c)
            && (s.count + minutes < 0 ==> c == s.count + minutes)
    decreases minutes
  {
    if minutes > 0 {
      StepCount(e, minute, bucket, s);
      WalkCountBounded(e, MinuteStep(e, minute, bucket, s), minute + 1, bucket + SecondsPerMinute, minutes - 1);
    }
  }

  // ---------------------------------------------------------------------
  // The output series

  /** A minute numbered above every recorded minute adds one entry at the end
      and changes none of the others. */
  lemma {:induction false} StepAppendsEntry(e: Events, minute: int, bucket: int, s: WalkState)
    requires WellFormed(e) && ValidState(e, s)
    requires forall i :: 0 <= i < |s.output| ==> s.output[i].key.minute < minute
    ensures var r := MinuteStep(e, minute, bucket, s);
            && |r.output| == |s.output| + 1
            && r.output[..|s.output|] == s.output
            && r.output[|s.output|].key.minute == minute
  {
    var r := MinuteStep(e, minute, bucket, s);
    var key := Label(HourStamp(e.timestamps[r.lastIndex]), minute);
    FreshMinute(s.output, key);
    PutAppendsNew(s.output, key, SeedOffsetMean(r.dataset));
  }

  /** Each minute adds exactly one entry after those already there: after
      `minutes` minutes there are that many more, numbered on by one from
      `minute` (unpadded, not reduced modulo 60). */
  lemma {:induction false} WalkOutputShape(e: Events, s: WalkState, minute: int, bucket: int, minutes: nat)
    requires WellFormed(e) && ValidState(e, s)
    requires forall i :: 0 <= i < |s.output| ==> s.output[i].key.minute < minute
    ensures var out := Walk(e, s, minute, bucket, minutes).output;
            && |out| == |s.output| + minutes
            && out[..|s.output|] == s.output
            && (forall i :: |s.output| <= i < |out| ==> out[i].key.minute == minute + (i - |s.output|))
    decreases minutes
  {
    if minutes > 0 {
      var r := MinuteStep(e, minute, bucket, s);
      StepAppendsEntry(e, minute, bucket, s);
      forall i | 0 <= i < |r.output| ensures r.output[i].key.minute < minute + 1 {
        if i < |s.output| {
          assert r.output[i] == r.output[..|s.output|][i] == s.output[i];
        }
      }
      WalkOutputShape(e, r, minute + 1, bucket + SecondsPerMinute, minutes - 1);
      var out := Walk(e, s, minute, bucket, minutes).output;
      NumberedAfter(s.output, r.output, out, minute, minutes);
    }
  }

  /** The sequence bookkeeping of one step of `WalkOutputShape`. */
  lemma {:induction false} NumberedAfter(d: seq<Entry>, r: seq<Entry>, out: seq<Entry>, minute: int, minutes: nat)
    requires minutes > 0
    requires |r| == |d| + 1 && r[..|d|] == d && r[|d|].key.minute == minute
    requires |out| == |r| + minutes - 1 && out[..|r|] == r
    requires forall i :: |r| <= i < |out| ==> out[i].key.minute == minute + 1 + (i - |r|)
    ensures |out| == |d| + minutes && out[..|d|] == d
    ensures forall i :: |d| <= i < |out| ==> out[i].key.minute == minute + (i - |d|)
  {
    assert out[..|d|] == out[..|r|][..|d|];
    assert out[|d|] == out[..|r|][|d|];
  }

  /** Consecutive minute numbers make distinct keys. */
  lemma {:induction false} NumberedDistinct(out: seq<Entry>, first: int)
    requires forall k :: 0 <= k < |out| ==> out[k].key.minute == first + k
    ensures DistinctKeys(out)
  {
    forall i, j | 0 <= i < j < |out| ensures out[i].key != out[j].key {
      assert out[i].key.minute == first + i && out[j].key.minute == first + j;
    }
  }

  /** A fresh object (buffer `[0]`, empty output) run on parsed events: fewer
      than three events fail, with the empty list told apart; otherwise there is
      one entry per walked minute, numbered on from the first event's minute,
      with distinct keys, a buffer that is never empty, and, for a window size
      of at least 1, a counter below the window size. */
  lemma {:induction false} RunFromFreshObject(e: Events)
    requires |e.durations| == |e.timestamps|
    ensures var r := Run(e, [0.0], []);
            && (r.Failed? <==> |e.timestamps| < 3)
            && (r.Failed? ==> (r.error == EmptyEventList <==> |e.timestamps| == 0))
            && (r.Walked? ==>
                  && |r.state.output| == MinuteCount(e)
                  && MinuteCount(e) == (if e.timestamps[2] - e.timestamps[0] >= -60
                                        then (e.timestamps[2] - e.timestamps[0]) / 60 + 2 else 0)
                  && (forall k :: 0 <= k < |r.state.output| ==>
                        r.state.output[k].key.minute == MinuteOf(e.timestamps[0]) + k)
                  && DistinctKeys(r.state.output)
                  && r.state.dataset != []
                  && (e.windowSize >= 1 ==> r.state.count < e.windowSize))
  {
    if |e.timestamps| >= 3 {
      var init := InitialState([0.0], []);
      var out := Walk(e, init, FirstMinute(e), FirstBucket(e), MinuteCount(e)).output;
      WalkOutputShape(e, init, FirstMinute(e), FirstBucket(e), MinuteCount(e));
      NumberedDistinct(out, FirstMinute(e));
      if e.windowSize >= 1 {
        WalkCountBounded(e, init, FirstMinute(e), FirstBucket(e), MinuteCount(e));
      }
    }
  }

  // ---------------------------------------------------------------------
  // A worked run

  /** Events at 5 s, 40 s and 70 s past midnight with durations 10, 20 and 30,
      window size 2, on a fresh object. The walk covers three minutes. The
      first event matches minute 0 on second 5, so it is deferred and minute 0
      records the seed 0. Minute 1 admits it and records 10. No event matches
      minute 2, which records 10 again. The events at 40 s and 70 s are never
      admitted: while the first event is pending, the scan looks at no other
      event, and neither of them matches a later minute. */
  lemma {:induction false} ThreeEventRun()
    ensures Run(Events([5, 40, 70], [10.0, 20.0, 30.0], 2), [0.0], [])
         == Walked(WalkState(1, Idle, 0, [0.0, 10.0],
                             [Entry(Label(0, 0), 0.0), Entry(Label(0, 1), 10.0), Entry(Label(0, 2), 10.0)]))
  {
    var e := Events([5, 40, 70], [10.0, 20.0, 30.0], 2);
    var s0 := InitialState([0.0], []);
    assert MinuteCount(e) == 3 && FirstMinute(e) == 0 && FirstBucket(e) == 0;
    var o1 := [Entry(Label(0, 0), 0.0)];
    var s1 := WalkState(-1, Deferred(0), 0, [0.0], o1);
    assert SeedOffsetMean([0.0]) == 0.0;
    assert CheckTimeDiff(0, 5);
    assert MinuteStep(e, 0, 0, s0) == s1;
    var o2 := o1 + [Entry(Label(0, 1), 10.0)];
    var s2 := WalkState(0, Idle, 0, [0.0, 10.0], o2);
    assert !CheckTimeDiff(60, 5);
    assert SeedOffsetMean([0.0, 10.0]) == 10.0 by {
      assert [0.0, 10.0][1..] == [10.0];
    }
    assert MinuteStep(e, 1, 60, s1) == s2;
    var o3 := o2 + [Entry(Label(0, 2), 10.0)];
    var s3 := WalkState(1, Idle, 0, [0.0, 10.0], o3);
    assert !CheckTimeDiff(120, 5) && !CheckTimeDiff(120, 40) && !CheckTimeDiff(120, 70);
    var t := s2.(count := 1);
    assert Reset(2, t) == t;
    FreshMinute(o2, Label(0, 2));
    PutAppendsNew(o2, Label(0, 2), 10.0);
    assert HourStamp(5) == 0;
    assert Scan(e, 2, 120, t, 2) == s3;
    assert Scan(e, 2, 120, t, 1) == s3;
    assert Scan(e, 2, 120, t, 0) == s3;
    assert MinuteStep(e, 2, 120, s2) == s3;
  }

  /** The buffer is not bounded by the window size plus the seed: events on
      second 0 of three consecutive minutes, window size 2, fill it to four
      values after three minutes, because a value can enter every minute while
      one leaves only every `windowSize` minutes. */
  lemma {:induction false} WindowOutgrowsSize()
    ensures var e := Events([0, 60, 120], [1.0, 2.0, 3.0], 2);
            |Walk(e, InitialState([0.0], []), 0, 0, 3).dataset| == 4
  {
    var e := Events([0, 60, 120], [1.0, 2.0, 3.0], 2);
    var s0 := InitialState([0.0], []);
    assert CheckTimeDiff(0, 0) && FirstMatch(e.timestamps, 0, 0) == 0;
    AdmittedSameMinute(e, 0, 0, s0);
    StepCount(e, 0, 0, s0);
    var s1 := MinuteStep(e, 0, 0, s0);
    assert s1.count == -1 && |s1.dataset| == 2;
    assert !CheckTimeDiff(60, 0) && CheckTimeDiff(60, 60) && FirstMatch(e.timestamps, 60, 0) == 1;
    AdmittedSameMinute(e, 1, 60, s1);
    StepCount(e, 1, 60, s1);
    var s2 := MinuteStep(e, 1, 60, s1);
    assert s2.count == 0 && |s2.dataset| == 3;
    assert !CheckTimeDiff(120, 0) && !CheckTimeDiff(120, 60) && CheckTimeDiff(120, 120);
    assert FirstMatch(e.timestamps, 120, 0) == 2;
    AdmittedSameMinute(e, 2, 120, s2);
    var s3 := MinuteStep(e, 2, 120, s2);
    assert |s3.dataset| == 4;
    assert Walk(e, s2, 2, 120, 1) == s3;
    assert Walk(e, s1, 1, 60, 2) == s3;
  }
}
