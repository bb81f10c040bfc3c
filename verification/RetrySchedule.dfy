/** When a failed webhook is tried again: packages/webhooks/src/retry-schedule.ts. */
module RetrySchedule {
  import opened Common

  const RETRY_SCHEDULE_MS: seq<int> := [60_000, 300_000, 900_000, 3_600_000, 21_600_000, 86_400_000]

  const JITTER_RATIO := 0.2

  /** Rounding to the nearest integer, halves upwards. */
  function Round(x: real): int {
    (x + 0.5).Floor
  }

  /** None once the schedule is exhausted; `random` is drawn from [0, 1). */
  function GetRetryDelayMs(failedAttempt: int, random: real): Option<int> {
    if 1 <= failedAttempt <= |RETRY_SCHEDULE_MS| then
      var base := RETRY_SCHEDULE_MS[failedAttempt - 1] as real;
      var jitter := base * JITTER_RATIO * (random * 2.0 - 1.0);
      Some(Round(base + jitter))
    else None
  }

  /** The least delay after a failed attempt: four fifths of the table entry. */
  function LeastDelay(failedAttempt: nat): int
    requires 1 <= failedAttempt <= 6
  {
    RETRY_SCHEDULE_MS[failedAttempt - 1] / 5 * 4
  }

  lemma JitterBounds(base: real, random: real)
    requires 0.0 <= random < 1.0 && base > 0.0
    ensures base * 0.8 <= base + base * JITTER_RATIO * (random * 2.0 - 1.0) < base * 1.2
  {
    var x := random * 2.0 - 1.0;
    assert -1.0 <= x < 1.0;
    var step := base * JITTER_RATIO;
    assert step > 0.0;
    assert step * x >= step * -1.0;
    assert step * x < step * 1.0;
  }

  /** The documented schedule, in milliseconds: 1, 5 and 15 minutes, 1, 6 and 24 hours. */
  function Documented(failedAttempt: int): int
    requires 1 <= failedAttempt <= 6
  {
    match failedAttempt
    case 1 => 60_000
    case 2 => 300_000
    case 3 => 900_000
    case 4 => 3_600_000
    case 5 => 21_600_000
    case _ => 86_400_000
  }

  /** Six delays and no more, each within a fifth of its documented length whatever is
      drawn: a wait after attempt `n` is one of these. */
  predicate WithinAFifth(failedAttempt: int, wait: int) {
    && 1 <= failedAttempt <= 6
    && (failedAttempt == 1 ==> 48_000 <= wait <= 72_000)
    && (failedAttempt == 2 ==> 240_000 <= wait <= 360_000)
    && (failedAttempt == 3 ==> 720_000 <= wait <= 1_080_000)
    && (failedAttempt == 4 ==> 2_880_000 <= wait <= 4_320_000)
    && (failedAttempt == 5 ==> 17_280_000 <= wait <= 25_920_000)
    && (failedAttempt == 6 ==> 69_120_000 <= wait <= 103_680_000)
  }

  lemma DelayWithinAFifth(failedAttempt: int, random: real)
    requires 0.0 <= random < 1.0
    ensures GetRetryDelayMs(failedAttempt, random).Some? <==> 1 <= failedAttempt <= 6
    ensures 1 <= failedAttempt <= 6 ==>
      && LeastDelay(failedAttempt) <= GetRetryDelayMs(failedAttempt, random).value
      && WithinAFifth(failedAttempt, GetRetryDelayMs(failedAttempt, random).value)
  {
    if 1 <= failedAttempt <= 6 {
      JitterBounds(RETRY_SCHEDULE_MS[failedAttempt - 1] as real, random);
    }
  }

  /** The delay is the jittered documented one to the nearest millisecond: four fifths of
      it for a draw of 0, all of it for a draw of one half, and evenly in between. */
  lemma DelayIsNearest(failedAttempt: int, random: real)
    requires 1 <= failedAttempt <= 6
    ensures var exact := Documented(failedAttempt) as real * (0.8 + 0.4 * random);
      -0.5 <= GetRetryDelayMs(failedAttempt, random).value as real - exact <= 0.5
  {
    var base := RETRY_SCHEDULE_MS[failedAttempt - 1] as real;
    assert Documented(failedAttempt) == RETRY_SCHEDULE_MS[failedAttempt - 1];
    assert base + base * JITTER_RATIO * (random * 2.0 - 1.0) == base * (0.8 + 0.4 * random);
  }

  /** Each further attempt waits longer than the one before, however the dice fall. */
  lemma DelaysIncrease(a: int, b: int, random: real, random': real)
    requires 0.0 <= random < 1.0 && 0.0 <= random' < 1.0
    requires 1 <= a < b <= 6
    ensures GetRetryDelayMs(a, random).value < GetRetryDelayMs(b, random').value
  {
    DelayWithinAFifth(a, random);
    DelayWithinAFifth(b, random');
  }

  /** The least time from a first failure to the end of attempt number `attempt`. */
  function LeastElapsed(attempt: nat): int
    requires 1 <= attempt <= 7
  {
    if attempt == 1 then 0 else LeastElapsed(attempt - 1) + LeastDelay(attempt - 1)
  }

  lemma FullScheduleTakesADay()
    ensures LeastElapsed(7) == 90_288_000
  {
    assert LeastElapsed(2) == 48_000;
    assert LeastElapsed(4) == 1_008_000;
  }
}
