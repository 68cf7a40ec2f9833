/** Dates as the app uses them. A `Date` is an instant on the device's clock,
    counted in whole seconds in the device's (fixed) time zone, and
    `startOfDay()` maps it to the first second of its calendar day; two dates
    are on the same day exactly when their day keys are equal. */
module Dates {

  type Instant = int

  const SecondsPerDay: int := 86400

  /** `Date.startOfDay()`: the first second of the day `t` falls in. */
  function StartOfDay(t: Instant): (d: Instant)
    ensures d <= t < d + SecondsPerDay
    ensures d % SecondsPerDay == 0
  {
    t - t % SecondsPerDay
  }

  /** `Date.isSameDay(as:)`. */
  predicate SameDay(a: Instant, b: Instant)
  {
    StartOfDay(a) == StartOfDay(b)
  }

  /** The day key of a day key is itself, so truncating a stored date again
      (as every service filter does) changes nothing. */
  lemma StartOfDayIdempotent(t: Instant)
    ensures StartOfDay(StartOfDay(t)) == StartOfDay(t)
  {
    var d := StartOfDay(t);
    assert d % SecondsPerDay == 0;
  }

  /** Two instants are on the same day iff they lie in one window of
      `SecondsPerDay` seconds that starts at a multiple of it. */
  lemma {:induction false} SameDayWindow(a: Instant, b: Instant)
    ensures SameDay(a, b) <==>
      exists k: int :: k * SecondsPerDay <= a < (k + 1) * SecondsPerDay
                    && k * SecondsPerDay <= b < (k + 1) * SecondsPerDay
  {
    var ka := a / SecondsPerDay;
    var kb := b / SecondsPerDay;
    assert StartOfDay(a) == ka * SecondsPerDay;
    assert StartOfDay(b) == kb * SecondsPerDay;
    if SameDay(a, b) {
      assert ka * SecondsPerDay <= a < (ka + 1) * SecondsPerDay;
      assert ka == kb;
    }
    forall k: int | k * SecondsPerDay <= a < (k + 1) * SecondsPerDay
                 && k * SecondsPerDay <= b < (k + 1) * SecondsPerDay
      ensures SameDay(a, b)
    {
      WindowIndex(a, k);
      WindowIndex(b, k);
    }
  }

  /** The window an instant lies in is the quotient of Euclidean division. */
  lemma WindowIndex(t: Instant, k: int)
    requires k * SecondsPerDay <= t < (k + 1) * SecondsPerDay
    ensures t / SecondsPerDay == k
  {
  }
}
