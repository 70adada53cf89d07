/**
 * The calendar meaning of a bucket: `yyyyMMddHHmm` written as one decimal number, and the coarser
 * `yyyyMMddHH`, `yyyyMMdd` and `yyyyMM` prefixes of it. The lemmas show that every calendar
 * minute of a four-digit year lands in the right class and downsamples to its own prefixes.
 */
module Calendar {
  import opened TimeBuckets

  datatype Minute = Minute(year: int, month: int, day: int, hour: int, minute: int)

  /** A calendar minute of a four-digit year (day-of-month bounded by 31, not by the month's length). */
  predicate WellFormed(t: Minute)
  {
    1000 <= t.year <= 9999 && 1 <= t.month <= 12 && 1 <= t.day <= 31 &&
    0 <= t.hour <= 23 && 0 <= t.minute <= 59
  }

  function MonthBucket(t: Minute): int { t.year * 100 + t.month }
  function DayBucket(t: Minute): int { MonthBucket(t) * 100 + t.day }
  function HourBucket(t: Minute): int { DayBucket(t) * 100 + t.hour }
  function MinuteBucket(t: Minute): int { HourBucket(t) * 100 + t.minute }

  /** Each encoding of a well-formed minute lies in its own class; the month encoding in none. */
  lemma EncodingsClassified(t: Minute)
    requires WellFormed(t)
    ensures IsMinuteBucket(MinuteBucket(t))
    ensures IsHourBucket(HourBucket(t))
    ensures IsDayBucket(DayBucket(t))
    ensures !IsMinuteBucket(MonthBucket(t)) && !IsHourBucket(MonthBucket(t)) && !IsDayBucket(MonthBucket(t))
  {
  }

  /**
   * Downsampling a well-formed bucket keeps its leading calendar fields: every conversion the
   * source defines yields the encoding of the same minute at the coarser precision.
   */
  lemma DownsampleKeepsFields(t: Minute)
    requires WellFormed(t)
    ensures ToTimeBucketInHour(MinuteBucket(t)) == Ok(HourBucket(t))
    ensures ToTimeBucketInDay(MinuteBucket(t)) == Ok(DayBucket(t))
    ensures ToTimeBucketInDay(HourBucket(t)) == Ok(DayBucket(t))
    ensures ToTimeBucketInMonth(MinuteBucket(t)) == Ok(MonthBucket(t))
    ensures ToTimeBucketInMonth(HourBucket(t)) == Ok(MonthBucket(t))
    ensures ToTimeBucketInMonth(DayBucket(t)) == Ok(MonthBucket(t))
  {
  }

  /** Conversions that the source does not define fail on well-formed buckets too. */
  lemma UndefinedConversionsFail(t: Minute)
    requires WellFormed(t)
    ensures ToTimeBucketInHour(HourBucket(t)).Err?
    ensures ToTimeBucketInHour(DayBucket(t)).Err? && ToTimeBucketInDay(DayBucket(t)).Err?
    ensures ToTimeBucketInHour(MonthBucket(t)).Err? && ToTimeBucketInDay(MonthBucket(t)).Err?
    ensures ToTimeBucketInMonth(MonthBucket(t)).Err?
  {
  }

  /**
   * Durations of well-formed buckets: a minute spans 1, an hour 60 = 60 minutes, a day 1440 = 24
   * hours, and a month bucket always takes the month branch.
   */
  lemma DurationsOfEncodings(t: Minute, dayOfMonth: int)
    requires WellFormed(t) && 1 <= dayOfMonth <= 31
    ensures DurationInMinute(MinuteBucket(t), dayOfMonth) == 1
    ensures DurationInMinute(HourBucket(t), dayOfMonth) == 60 * DurationInMinute(MinuteBucket(t), dayOfMonth)
    ensures DurationInMinute(DayBucket(t), dayOfMonth) == 24 * DurationInMinute(HourBucket(t), dayOfMonth)
    ensures DurationInMinute(MonthBucket(t), dayOfMonth) == dayOfMonth * DurationInMinute(DayBucket(t), dayOfMonth)
  {
  }
}
