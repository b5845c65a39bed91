/**
 * The countdown to the event (src/components/Countdown.tsx): the whole
 * seconds left until the target, never negative, split into days, hours,
 * minutes and seconds. Instants are integer milliseconds.
 */
module Countdown {

  const SecondsPerDay := 3600 * 24

  /** What `getTimeParts` returns. */
  datatype TimeParts = TimeParts(days: int, hours: int, minutes: int, seconds: int)

  /**
   * Whole seconds from `nowMs` to `targetMs`, the fraction dropped toward
   * zero, so a target half a second in the past gives 0.
   */
  function DifferenceInSeconds(targetMs: int, nowMs: int): (d: int)
    ensures targetMs >= nowMs ==> 0 <= d * 1000 <= targetMs - nowMs < d * 1000 + 1000
    ensures targetMs < nowMs ==> d <= 0 && d * 1000 - 1000 < targetMs - nowMs <= d * 1000
  {
    var delta := targetMs - nowMs;
    if delta >= 0 then delta / 1000 else -((-delta) / 1000)
  }

  /** The split of a count of seconds, clamped at zero, into its four parts. */
  function Split(diffSeconds: int): (p: TimeParts)
    ensures var total := if diffSeconds < 0 then 0 else diffSeconds;
            p.days * SecondsPerDay + p.hours * 3600 + p.minutes * 60 + p.seconds == total
    ensures p.days >= 0
    ensures 0 <= p.hours < 24 && 0 <= p.minutes < 60 && 0 <= p.seconds < 60
    ensures diffSeconds <= 0 ==> p == TimeParts(0, 0, 0, 0)
  {
    var seconds := if diffSeconds < 0 then 0 else diffSeconds;
    var days := seconds / SecondsPerDay;
    var hours := (seconds % SecondsPerDay) / 3600;
    var minutes := (seconds % 3600) / 60;
    var secs := seconds % 60;
    SplitReconstructs(seconds);
    TimeParts(days, hours, minutes, secs)
  }

  /** Days, hours, minutes and seconds taken by division and remainder add back up to the total. */
  lemma SplitReconstructs(seconds: nat)
    ensures seconds / SecondsPerDay * SecondsPerDay + (seconds % SecondsPerDay) / 3600 * 3600
            + (seconds % 3600) / 60 * 60 + seconds % 60 == seconds
  {
    var r := seconds % SecondsPerDay;
    assert seconds == seconds / SecondsPerDay * SecondsPerDay + r;
    assert r == r / 3600 * 3600 + r % 3600;
    assert seconds % 3600 == r % 3600 by {
      assert seconds == (seconds / SecondsPerDay * 24) * 3600 + r;
    }
    var m := seconds % 3600;
    assert m == m / 60 * 60 + m % 60;
    assert seconds % 60 == m % 60 by {
      assert seconds == (seconds / 3600) * 3600 + m;
      assert seconds == (seconds / 3600 * 60) * 60 + m;
    }
  }

  /** `getTimeParts`: the parts of the time left from `nowMs` until `targetMs`. */
  function GetTimeParts(targetMs: int, nowMs: int): (p: TimeParts)
    ensures targetMs < nowMs + 1000 ==> p == TimeParts(0, 0, 0, 0)
    ensures p.days * SecondsPerDay + p.hours * 3600 + p.minutes * 60 + p.seconds
            == (if targetMs < nowMs then 0 else (targetMs - nowMs) / 1000)
    ensures 0 <= p.hours < 24 && 0 <= p.minutes < 60 && 0 <= p.seconds < 60
  {
    Split(DifferenceInSeconds(targetMs, nowMs))
  }

  /** A second later, the total left is one second less, until it reaches zero. */
  lemma {:induction false} CountsDown(targetMs: int, nowMs: int)
    requires targetMs >= nowMs + 1000
    ensures var p := GetTimeParts(targetMs, nowMs);
            var q := GetTimeParts(targetMs, nowMs + 1000);
            q.days * SecondsPerDay + q.hours * 3600 + q.minutes * 60 + q.seconds
            == p.days * SecondsPerDay + p.hours * 3600 + p.minutes * 60 + p.seconds - 1
  {
    var delta := targetMs - nowMs;
    assert (delta - 1000) / 1000 == delta / 1000 - 1;
  }
}
