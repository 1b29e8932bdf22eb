/** The `Moving_Average` object: its window size, the buffer `moving_dataset`
    and the `output` dictionary, with the methods that update them in place.
    `OutputGenerator` runs the nested loops of `output_generator` on parsed
    events and is proved to leave exactly the state `MinuteWalk.Run` gives. */
module Averager {
  import opened Clock
  import opened OrderedOutput
  import opened MinuteWalk
  import Convolution

  /** What `output_generator` ends with: `True`, or the error it stops on. */
  datatype Status = Success | Failure(error: Error)

  class MovingAverage {
    const windowSize: int
    var movingDataset: seq<real>
    var output: seq<Entry>

    ghost predicate Valid()
      reads this
    {
      movingDataset != []
    }

    /** `__init__`: an empty output and the buffer `[0]`. */
    constructor (windowSize: int)
      ensures Valid()
      ensures this.windowSize == windowSize
      ensures movingDataset == [0.0] && output == []
    {
      this.windowSize := windowSize;
      movingDataset := [0.0];
      output := [];
    }

    /** `reset_window(count)` */
    method ResetWindow(count: int) returns (newCount: int)
      requires Valid()
      modifies this`movingDataset
      ensures Valid()
      ensures count == windowSize ==>
                newCount == 0 &&
                movingDataset == if |old(movingDataset)| != 1 then old(movingDataset)[1..] else old(movingDataset)
      ensures count != windowSize ==> newCount == count && movingDataset == old(movingDataset)
    {
      newCount := count;
      if count == windowSize {
        newCount := 0;
        if |movingDataset| != 1 {
          movingDataset := movingDataset[1..];
        }
      }
    }

    /** `calculating_value(dataset, every_minute, timestamp)`: the last entry of
        the moving average of `dataset`, stored under the hour of `timestamp`
        and the minute number `everyMinute`. */
    method CalculatingValue(dataset: seq<real>, everyMinute: int, timestamp: int)
      requires dataset != []
      modifies this`output
      ensures output == Put(old(output), Label(HourStamp(timestamp), everyMinute), Convolution.SeedOffsetMean(dataset))
    {
      var window := 1;
      if |dataset| != 1 {
        window := |dataset| - 1;
      }
      var smas := Convolution.MovingAverage(dataset, window);
      var value := smas[|smas| - 1];
      Convolution.LastMovingAverage(dataset);
      output := Put(output, Label(HourStamp(timestamp), everyMinute), value);
    }

    /** The walk state the object's fields and the loop's locals stand for. */
    function State(count: int, nextTime: bool, newIndex: nat, lastIndex: nat): WalkState
      reads this
    {
      WalkState(count, if nextTime then Deferred(newIndex) else Idle, lastIndex, movingDataset, output)
    }

    /** The `for index` loop of `output_generator` for one minute: the minute
        numbered `everyMinute` that starts at `everyMinuteTime`, with the
        loop's locals passed in and handed back. */
    method ScanEvents(ghost e: Events, timestamps: seq<int>, durations: seq<real>,
                      startTime: int, everyMinute: int, everyMinuteTime: int,
                      count: int, nextTime: bool, newIndex: nat, lastIndex: nat)
      returns (count': int, nextTime': bool, newIndex': nat, lastIndex': nat)
      requires e == Events(timestamps, durations, windowSize) && WellFormed(e)
      requires SecondOf(startTime) == 0
      requires Valid() && ValidState(e, State(count, nextTime, newIndex, lastIndex))
      modifies this`movingDataset, this`output
      ensures Valid()
      ensures State(count', nextTime', newIndex', lastIndex')
           == Scan(e, everyMinute, everyMinuteTime, old(State(count, nextTime, newIndex, lastIndex)), 0)
    {
      ghost var goal := Scan(e, everyMinute, everyMinuteTime, State(count, nextTime, newIndex, lastIndex), 0);
      var n := |timestamps|;
      count', nextTime', newIndex', lastIndex' := count, nextTime, newIndex, lastIndex;
      var index := 0;
      while index < n
        invariant Valid()
        invariant 0 <= index <= n
        invariant index < n ==>
                    && ValidState(e, State(count', nextTime', newIndex', lastIndex'))
                    && (nextTime' ==> index <= newIndex')
                    && Scan(e, everyMinute, everyMinuteTime, State(count', nextTime', newIndex', lastIndex'), index) == goal
        invariant index == n ==> State(count', nextTime', newIndex', lastIndex') == goal
      {
        if CheckTimeDiff(everyMinuteTime, timestamps[index]) || nextTime' {
          if nextTime' && newIndex' != index {
            index := index + 1;
            continue;
          }
          nextTime' := false;
          if CheckTimeDiff(everyMinuteTime, timestamps[index]) && SecondOf(startTime) < SecondOf(timestamps[index]) {
            nextTime' := true;
            newIndex' := index;
            count' := ResetWindow(count');
            CalculatingValue(movingDataset, everyMinute, timestamps[lastIndex']);
            return;
          }
          count' := ResetWindow(count');
          if SecondOf(startTime) <= SecondOf(timestamps[index]) {
            movingDataset := movingDataset + [durations[index]];
          }
          CalculatingValue(movingDataset, everyMinute, timestamps[index]);
          lastIndex' := index;
          return;
        } else {
          count' := ResetWindow(count');
          if index == n - 1 {
            CalculatingValue(movingDataset, everyMinute, timestamps[lastIndex']);
          }
          index := index + 1;
          continue;
        }
      }
    }

    /** The `for every_minute` loop of `output_generator`: from the minute
        numbered `MinuteOf(startTime)`, which starts at `everyMinuteTime`, up to
        (not including) the minute numbered `endTime`, with the loop's locals
        starting as given. */
    method WalkMinutes(ghost e: Events, timestamps: seq<int>, durations: seq<real>,
                       startTime: int, everyMinuteTime: int, endTime: int,
                       count: int, nextTime: bool, newIndex: nat, lastIndex: nat)
      requires e == Events(timestamps, durations, windowSize) && WellFormed(e)
      requires SecondOf(startTime) == 0
      requires Valid() && ValidState(e, State(count, nextTime, newIndex, lastIndex))
      modifies this`movingDataset, this`output
      ensures Valid()
      ensures var minutes := if endTime > MinuteOf(startTime) then endTime - MinuteOf(startTime) else 0;
              var st := Walk(e, old(State(count, nextTime, newIndex, lastIndex)),
                             MinuteOf(startTime), everyMinuteTime, minutes);
              movingDataset == st.dataset && output == st.output
    {
      ghost var final := Walk(e, State(count, nextTime, newIndex, lastIndex), MinuteOf(startTime), everyMinuteTime,
                              if endTime > MinuteOf(startTime) then endTime - MinuteOf(startTime) else 0);
      var everyMinuteTime, count, nextTime, newIndex, lastIndex := everyMinuteTime, count, nextTime, newIndex, lastIndex;
      var everyMinute := MinuteOf(startTime);
      ghost var remaining: nat := if endTime > everyMinute then endTime - everyMinute else 0;
      while everyMinute < endTime
        invariant Valid() && ValidState(e, State(count, nextTime, newIndex, lastIndex))
        invariant remaining == if endTime > everyMinute then endTime - everyMinute else 0
        invariant Walk(e, State(count, nextTime, newIndex, lastIndex), everyMinute, everyMinuteTime, remaining) == final
      {
        count, nextTime, newIndex, lastIndex :=
          ScanEvents(e, timestamps, durations, startTime, everyMinute, everyMinuteTime,
                     count + 1, nextTime, newIndex, lastIndex);
        everyMinuteTime := everyMinuteTime + SecondsPerMinute;
        everyMinute := everyMinute + 1;
        remaining := remaining - 1;
      }
    }

    /** `output_generator` on the parsed `timestamps` and `durations`. */
    method OutputGenerator(timestamps: seq<int>, durations: seq<real>) returns (status: Status)
      requires Valid() && |timestamps| == |durations|
      modifies this
      ensures Valid()
      ensures match Run(Events(timestamps, durations, windowSize), old(movingDataset), old(output))
              case Failed(err) =>
                status == Failure(err) && movingDataset == old(movingDataset) && output == old(output)
              case Walked(st) =>
                status == Success && movingDataset == st.dataset && output == st.output
    {
      var n := |timestamps|;
      if n == 0 {
        return Failure(EmptyEventList);
      }
      ghost var e := Events(timestamps, durations, windowSize);
      var endOriginalTime := timestamps[n - 1];
      var startTime := StartTime(timestamps[0]);
      var everyMinuteTime := TruncateToMinute(timestamps[0]);
      var nextTime := false;
      var newIndex: nat := 0;
      var count := -2;
      var v := 1;
      if !IntEqualsStr(MinuteOf(endOriginalTime), "00") {
        v := 2;
      }
      var lastIndex: nat := 0;
      if n < 3 {
        return Failure(InvalidInputSpan);
      }
      var elapsed := timestamps[2] - timestamps[0];
      var diffTime := elapsed / SecondsPerMinute;
      var endTime := diffTime + MinuteOf(startTime) + v;
      WalkMinutes(e, timestamps, durations, startTime, everyMinuteTime, endTime,
                  count, nextTime, newIndex, lastIndex);
      return Success;
    }
  }
}
