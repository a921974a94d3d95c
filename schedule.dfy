/**
 * When recording starts, and the countdown shown while waiting for it.
 * The logger starts recording at second 0 of minute 0 or minute 30; on
 * every other reading it shows the time left until the next such moment.
 */
module Schedule {
  import opened Basics

  /** The condition `local_sec == 0 and (local_min == 0 or local_min == 30)`. */
  predicate StartTrigger(min: nat, sec: nat)
  {
    sec == 0 && (min == 0 || min == 30)
  }

  /** Minutes and seconds shown by `countdown`. */
  datatype Display = Display(minutes: int, seconds: int)

  /** `countdown`: what it shows for a reading, or `None` when it shows nothing. */
  function Countdown(min: nat, sec: nat): (r: Option<Display>)
    ensures r.None? <==> min == 30
  {
    if min < 30 then Some(Display(30 - min - 1, 59 - sec))
    else if min > 30 then Some(Display(60 - min - 1, 59 - sec))
    else None
  }

  /** Seconds past the last hour or half hour. */
  function SincePeriod(min: nat, sec: nat): nat
  {
    (min * 60 + sec) % 1800
  }

  /** For a real clock reading, the trigger fires exactly on the hour and on the half hour. */
  lemma TriggerOnBoundary(min: nat, sec: nat)
    requires min < 60 && sec < 60
    ensures StartTrigger(min, sec) <==> SincePeriod(min, sec) == 0
  {
    if min < 30 {
      assert (min * 60 + sec) % 1800 == min * 60 + sec;
    } else {
      assert (min * 60 + sec) % 1800 == min * 60 + sec - 1800;
    }
  }

  /**
   * For a real clock reading the display fits the `MM:SS` form: minutes in
   * 0..29, seconds in 0..59, and it never shows a negative time.
   */
  lemma CountdownBounds(min: nat, sec: nat)
    requires min < 60 && sec < 60
    ensures var r := Countdown(min, sec);
      r.Some? ==> 0 <= r.value.minutes <= 29 && 0 <= r.value.seconds <= 59
  {
  }

  /**
   * Whenever it shows anything, the countdown is one second short of the
   * time left until the next hour or half hour: it counts down to the last
   * second before the trigger.
   */
  lemma CountdownToBoundary(min: nat, sec: nat)
    requires min < 60 && sec < 60 && min != 30
    ensures var d := Countdown(min, sec).value;
      d.minutes * 60 + d.seconds + 1 == 1800 - SincePeriod(min, sec)
  {
    if min < 30 {
      assert (min * 60 + sec) % 1800 == min * 60 + sec;
    } else {
      assert (min * 60 + sec) % 1800 == min * 60 + sec - 1800;
    }
  }

  /**
   * In minute 30 nothing is shown at all, although recording started at
   * its second 0 and the next start is up to 30 minutes away.
   */
  lemma CountdownSilentInMinuteThirty(sec: nat)
    requires sec < 60
    ensures Countdown(30, sec).None?
    ensures sec > 0 ==> !StartTrigger(30, sec) && 1800 - SincePeriod(30, sec) == 1800 - sec
  {
  }
}
