/**
 The `Countdown` component's computation: the time left until its fixed
 target instant, the start of the competition, split into days, hours, minutes and seconds and rendered
 as zero-padded strings. The clock reading and the target instant are
 parameters, in whole milliseconds since the Unix epoch.
 */
module Countdown {
  import opened Optional
  import opened Decimal

  /** "18 January 2025 08:00 UTC-05", that is 2025-01-18T13:00:00Z, in milliseconds since the epoch. */
  const TargetMillis: int := 1737205200000

  const MillisPerSecond: nat := 1000
  const SecondsPerMinute: nat := 60
  const MinutesPerHour: nat := 60
  const HoursPerDay: nat := 24
  const SecondsPerHour: nat := 3600
  const SecondsPerDay: nat := 86400

  /** A duration as whole days, hours, minutes and seconds. */
  datatype Breakdown = Breakdown(days: nat, hours: nat, minutes: nat, seconds: nat)

  /** The display fields, one string per unit. */
  datatype TimeData = TimeData(days: string, hours: string, minutes: string, seconds: string)

  /** What one evaluation of the countdown yields: the fields and the raw millisecond difference. */
  datatype Remaining = Remaining(timeData: TimeData, difference: int)

  /** Every unit but the days is below the next unit up. */
  predicate InRange(b: Breakdown) {
    b.hours < HoursPerDay && b.minutes < MinutesPerHour && b.seconds < SecondsPerMinute
  }

  /** The number of seconds a breakdown stands for. */
  function TotalSeconds(b: Breakdown): nat {
    b.days * SecondsPerDay + b.hours * SecondsPerHour + b.minutes * SecondsPerMinute + b.seconds
  }

  /**
   Splits a number of whole seconds the way the countdown does: cascaded floor
   divisions first, then each unit reduced modulo the next one up.
   */
  function Split(total: nat): (b: Breakdown)
    ensures InRange(b)
    ensures TotalSeconds(b) == total
  {
    var minutes := total / SecondsPerMinute;
    var hours := minutes / MinutesPerHour;
    var days := hours / HoursPerDay;
    Breakdown(days, hours % HoursPerDay, minutes % MinutesPerHour, total % SecondsPerMinute)
  }

  /** The fields shown before the target is reached, each padded to two characters at least. */
  function Render(b: Breakdown): (t: TimeData)
    ensures InRange(b) ==> Decode(t) == Some(b) && WellFormed(t)
  {
    TimeData(Pad(b.days), Pad(b.hours), Pad(b.minutes), Pad(b.seconds))
  }

  /** The fields shown once the target has passed. */
  const Zeros: TimeData := TimeData("00", "00", "00", "00")

  /** Reads the four fields back into numbers. */
  function Decode(t: TimeData): Option<Breakdown> {
    match (Parse(t.days), Parse(t.hours), Parse(t.minutes), Parse(t.seconds))
    case (Some(d), Some(h), Some(m), Some(s)) => Some(Breakdown(d, h, m, s))
    case _ => None
  }

  /** The widths the display relies on: two characters per field, more only for 100 days or over. */
  predicate WellFormed(t: TimeData) {
    |t.days| >= 2 && |t.hours| == 2 && |t.minutes| == 2 && |t.seconds| == 2
  }

  /**
   The countdown at instant `now` towards instant `target`. The fields stay
   "00" unless the difference is positive; the difference itself is returned
   as computed, never clamped.
   */
  function TimeBetweenDates(target: int, now: int): (r: Remaining)
    ensures r.difference == target - now
    ensures r.difference <= 0 ==> r.timeData == Zeros
    ensures WellFormed(r.timeData)
    ensures Decode(r.timeData).Some? && InRange(Decode(r.timeData).value)
    ensures r.difference > 0 ==>
              TotalSeconds(Decode(r.timeData).value) == r.difference / MillisPerSecond
    ensures r.difference <= 0 ==> TotalSeconds(Decode(r.timeData).value) == 0
    ensures r.timeData == Render(Decode(r.timeData).value)
  {
    var difference := target - now;
    if difference > 0 then
      var b := Split(difference / MillisPerSecond);
      Remaining(Render(b), difference)
    else
      ZerosRendersZero();
      Remaining(Zeros, difference)
  }

  /** The countdown towards the component's fixed target, 18 January 2025 08:00 UTC-05. */
  function CompetitionCountdown(now: int): (r: Remaining)
    ensures r.difference == TargetMillis - now
    ensures now >= TargetMillis ==> r.timeData == Zeros
  {
    TimeBetweenDates(TargetMillis, now)
  }

  /** The seconds left according to the displayed fields. */
  function RemainingSeconds(target: int, now: int): nat {
    TotalSeconds(Decode(TimeBetweenDates(target, now).timeData).value)
  }

  /** The all-"00" display is the rendering of the zero breakdown. */
  lemma ZerosRendersZero()
    ensures Render(Breakdown(0, 0, 0, 0)) == Zeros
    ensures Decode(Zeros) == Some(Breakdown(0, 0, 0, 0))
  {
  }

  /** Splitting is the only in-range breakdown of a total: the split is unique. */
  lemma SplitUnique(b: Breakdown)
    requires InRange(b)
    ensures Split(TotalSeconds(b)) == b
  {
    var hoursTotal := b.days * HoursPerDay + b.hours;
    var minutesTotal := hoursTotal * MinutesPerHour + b.minutes;
    assert TotalSeconds(b) == minutesTotal * SecondsPerMinute + b.seconds;
    assert TotalSeconds(b) / SecondsPerMinute == minutesTotal;
    assert minutesTotal / MinutesPerHour == hoursTotal;
  }

  /** A difference that is positive but below one second still shows "00" everywhere. */
  lemma SubSecondShowsZeros(target: int, now: int)
    requires 0 < target - now < MillisPerSecond
    ensures TimeBetweenDates(target, now).timeData == Zeros
    ensures TimeBetweenDates(target, now).difference > 0
  {
  }

  /** The fields show nothing but zeros exactly when less than a whole second is left. */
  lemma ZerosExactly(target: int, now: int)
    ensures TimeBetweenDates(target, now).timeData == Zeros <==> target - now < MillisPerSecond
  {
  }

  /** A larger difference never shows fewer seconds. */
  lemma SplitMonotone(d1: nat, d2: nat)
    requires d1 >= d2 > 0
    ensures TotalSeconds(Split(d1 / MillisPerSecond)) >= TotalSeconds(Split(d2 / MillisPerSecond))
  {
  }

  /** As time passes the countdown never goes up. */
  lemma CountsDown(target: int, now1: int, now2: int)
    requires now1 <= now2
    ensures RemainingSeconds(target, now1) >= RemainingSeconds(target, now2)
  {
  }

  /** Exactly one day before the target the display reads 01:00:00:00. */
  lemma OneDayBefore()
    ensures CompetitionCountdown(TargetMillis - SecondsPerDay * MillisPerSecond).timeData
            == TimeData("01", "00", "00", "00")
  {
  }

  /** One second before the target only the seconds field is non-zero. */
  lemma OneSecondBefore()
    ensures CompetitionCountdown(TargetMillis - MillisPerSecond).timeData
            == TimeData("00", "00", "00", "01")
  {
  }
}
