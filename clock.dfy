/** Time arithmetic of the averager.

    A timestamp is a whole number of seconds counted from midnight of a fixed
    reference day (the parser has already dropped any fraction of a second).
    Its second, minute and hour, and the "date and hour" prefix that labels an
    output entry, are then integer divisions; Dafny's `/` and `%` with a
    positive divisor round down, as Python's `datetime` arithmetic does. */
module Clock {

  const SecondsPerMinute: int := 60
  const SecondsPerHour: int := 3600
  const SecondsPerDay: int := 86400

  /** `t.second` */
  function SecondOf(t: int): int { t % SecondsPerMinute }

  /** `t.minute` */
  function MinuteOf(t: int): int { (t / SecondsPerMinute) % 60 }

  /** `t.hour` */
  function HourOf(t: int): int { (t / SecondsPerHour) % 24 }

  /** What `t.strftime("%Y-%m-%d %H")` identifies: the day and the hour of `t`. */
  function HourStamp(t: int): int { t / SecondsPerHour }

  /** `strptime(t.strftime("%H:%M") + ':00', '%H:%M:%S')`: the hour and minute of
      `t` on the reference day, with the second set to zero. */
  function StartTime(t: int): (s: int)
    ensures 0 <= s < SecondsPerDay
    ensures SecondOf(s) == 0
    ensures MinuteOf(s) == MinuteOf(t) && HourOf(s) == HourOf(t)
  {
    var h, m := HourOf(t), MinuteOf(t);
    var q := h * 60 + m;
    assert 0 <= q < 1440;
    assert q * 60 == h * 3600 + m * 60;
    assert (q * 60) / 60 == q && (q * 60) % 60 == 0;
    assert q % 60 == m && q / 60 == h;
    assert (q * 60) / 3600 == h;
    h * SecondsPerHour + m * SecondsPerMinute
  }

  /** `strptime(t.strftime("%Y-%m-%d %H:%M") + ':00', '%Y-%m-%d %H:%M:%S')`: the
      start of the minute that holds `t`. */
  function TruncateToMinute(t: int): (b: int)
    ensures SecondOf(b) == 0
    ensures b <= t < b + SecondsPerMinute
    ensures MinuteOf(b) == MinuteOf(t) && HourStamp(b) == HourStamp(t)
  {
    t - t % SecondsPerMinute
  }

  /** Python's `timedelta`, kept in its normal form: `seconds` lies in
      [0, 86400) and `days` carries the rest, negative for a negative difference. */
  datatype Timedelta = Timedelta(days: int, seconds: int)

  /** `later - earlier` on two `datetime`s. */
  function Difference(later: int, earlier: int): (d: Timedelta)
    ensures d.days * SecondsPerDay + d.seconds == later - earlier
    ensures 0 <= d.seconds < SecondsPerDay
  {
    Timedelta((later - earlier) / SecondsPerDay, (later - earlier) % SecondsPerDay)
  }

  /** `check_time_diff(time1, time2)`: `days <= 0 and seconds < 60` on the
      normalised `time2 - time1`. This holds exactly when the difference is
      below one day and its remainder modulo a day is below a minute, so it
      also holds for an event a whole number of days earlier than `time1`. */
  function CheckTimeDiff(time1: int, time2: int): (r: bool)
    ensures r <==> time2 - time1 < SecondsPerDay && (time2 - time1) % SecondsPerDay < 60
  {
    var diff := Difference(time2, time1);
    diff.days <= 0 && diff.seconds < 60
  }

  /** Within one day after `time1`, the test is "less than a minute later". */
  lemma CheckTimeDiffWithinDay(time1: int, time2: int)
    requires 0 <= time2 - time1 < SecondsPerDay
    ensures CheckTimeDiff(time1, time2) <==> time2 - time1 < 60
  {
  }

  /** An event less than a day earlier (and more than a minute before the day
      boundary) never matches. */
  lemma CheckTimeDiffEarlier(time1: int, time2: int)
    requires -(SecondsPerDay - 60) <= time2 - time1 < 0
    ensures !CheckTimeDiff(time1, time2)
  {
  }

  /** For an earlier event the test repeats with a period of one day: an event
      exactly one day before `time1` matches as if it were at `time1`. */
  lemma CheckTimeDiffDayPeriodic(time1: int, time2: int)
    requires time2 < time1
    ensures CheckTimeDiff(time1, time2) <==> CheckTimeDiff(time1, time2 + SecondsPerDay)
  {
    var d := time2 - time1;
    assert (d + SecondsPerDay) % SecondsPerDay == d % SecondsPerDay;
  }

  /** Against a minute boundary `bucket`, an event that matches and does not
      fall on second 0 no longer matches one minute later. */
  lemma MatchWithSecondsGoneNextMinute(bucket: int, t: int)
    requires SecondOf(bucket) == 0
    requires CheckTimeDiff(bucket, t) && SecondOf(t) > 0
    ensures !CheckTimeDiff(bucket + SecondsPerMinute, t)
  {
    var d := t - bucket;
    var r := d % SecondsPerDay;
    var q := d / SecondsPerDay;
    assert d == q * SecondsPerDay + r && 0 <= r < 60;
    assert t == bucket + q * SecondsPerDay + r;
    assert bucket == (bucket / 60) * 60;
    assert t == (bucket / 60 + q * 1440) * 60 + r;
    assert t % 60 == r;
    assert r > 0;
    assert d - 60 == (q - 1) * SecondsPerDay + (r - 60 + SecondsPerDay);
    assert (d - 60) % SecondsPerDay == r - 60 + SecondsPerDay;
  }

  /** Python's `==` between an `int` and a `str` is always False. */
  function IntEqualsStr(i: int, s: string): bool { false }
}
