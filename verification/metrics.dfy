/**
 * The state a metrics entity carries for every concrete metric type: its time bucket and the
 * survival counter kept by the cache, with the bucket conversions read off the current state.
 */
module MetricsEntity {
  import opened JavaLong
  import TimeBuckets

  class Metrics {
    /** Time attribute: the bucket this metric aggregates. */
    var timeBucket: Long
    /** Time spent in the cache; extended by the persistent worker. */
    var survivalTime: Long

    /** A fresh instance: both fields hold a `long`'s default, and the counter starts at 0. */
    constructor ()
      ensures timeBucket == 0 && survivalTime == 0
    {
      timeBucket := 0;
      survivalTime := 0;
    }

    /** The bucket setter; the counter is left alone. */
    method SetTimeBucket(b: Long)
      modifies this
      ensures timeBucket == b && survivalTime == old(survivalTime)
    {
      timeBucket := b;
    }

    /** `survivalTime += value` on a `long`: wraps around on overflow; the bucket is left alone. */
    method ExtendSurvivalTime(value: Long)
      modifies this
      ensures survivalTime == Add(old(survivalTime), value)
      ensures timeBucket == old(timeBucket)
    {
      survivalTime := Add(survivalTime, value);
    }

    // The three conversions and the duration below have no modifies clause: calling them changes
    // neither timeBucket nor survivalTime.

    /** Read-only: the hour bucket of a minute bucket, or the exception's message. */
    method ToTimeBucketInHour() returns (r: TimeBuckets.Result<Long>)
      ensures r == TimeBuckets.ToTimeBucketInHour(timeBucket)
    {
      r := TimeBuckets.ToTimeBucketInHour(timeBucket);
    }

    /** Read-only: the day bucket of a minute or hour bucket, or the exception's message. */
    method ToTimeBucketInDay() returns (r: TimeBuckets.Result<Long>)
      ensures r == TimeBuckets.ToTimeBucketInDay(timeBucket)
    {
      r := TimeBuckets.ToTimeBucketInDay(timeBucket);
    }

    /** Read-only: the month bucket of a minute, hour or day bucket, or the exception's message. */
    method ToTimeBucketInMonth() returns (r: TimeBuckets.Result<Long>)
      ensures r == TimeBuckets.ToTimeBucketInMonth(timeBucket)
    {
      r := TimeBuckets.ToTimeBucketInMonth(timeBucket);
    }

    /** Read-only: the bucket's span in minutes; `dayOfMonth` is what the date parser reads in the month branch. */
    method GetDurationInMinute(dayOfMonth: int) returns (d: Long)
      requires 1 <= dayOfMonth <= 31
      ensures d == TimeBuckets.DurationInMinute(timeBucket, dayOfMonth)
    {
      d := TimeBuckets.DurationInMinute(timeBucket, dayOfMonth);
    }
  }

  /** A fresh instance extended by `a` and then by `b` has survived `a + b` as a `long` (5 then 3 gives 8). */
  method ExtendFreshTwice(a: Long, b: Long) returns (m: Metrics)
    ensures m.survivalTime == Add(a, b) && m.timeBucket == 0
  {
    m := new Metrics();
    m.ExtendSurvivalTime(a);
    m.ExtendSurvivalTime(b);
  }
}
