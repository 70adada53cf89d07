/**
 * The time-bucket arithmetic of a metrics entity: a bucket is a `long` whose size alone says its
 * precision (12 digits minute, 10 hour, 8 day, anything else month), and downsampling drops the
 * trailing digits of the finer fields.
 */
module TimeBuckets {
  import opened JavaLong
  import Digits

  datatype Result<T> = Ok(value: T) | Err(message: string)

  /** The message of the IllegalStateException every conversion throws (the same text for all three). */
  const NotMinuteMessage: string := "Current time bucket is not in minute dimensionality"

  const MinuteLow: int := 100000000000
  const MinuteHigh: int := 999999999999
  const HourLow: int := 1000000000
  const HourHigh: int := 9999999999
  const DayLow: int := 10000000
  const DayHigh: int := 99999999

  /** Minute precision (`yyyyMMddHHmm`): strictly between the two bounds. */
  predicate IsMinuteBucket(b: int)
  {
    b < MinuteHigh && b > MinuteLow
  }

  /** Hour precision (`yyyyMMddHH`): strictly between the two bounds. */
  predicate IsHourBucket(b: int)
  {
    b < HourHigh && b > HourLow
  }

  /** Day precision (`yyyyMMdd`): strictly between the two bounds. */
  predicate IsDayBucket(b: int)
  {
    b < DayHigh && b > DayLow
  }

  /** Minute to hour: defined on minute buckets only, and drops the two minute digits. */
  function ToTimeBucketInHour(b: Long): (r: Result<Long>)
    ensures r.Ok? <==> IsMinuteBucket(b)
    ensures r.Ok? ==> r.value * 100 <= b < r.value * 100 + 100
    ensures r.Err? ==> r.message == NotMinuteMessage
  {
    if IsMinuteBucket(b) then Ok(b / 100) else Err(NotMinuteMessage)
  }

  /** Minute or hour to day: drops the hour and minute digits of a minute bucket, the hour digits of an hour bucket. */
  function ToTimeBucketInDay(b: Long): (r: Result<Long>)
    ensures r.Ok? <==> IsMinuteBucket(b) || IsHourBucket(b)
    ensures IsMinuteBucket(b) ==> r.value * 10000 <= b < r.value * 10000 + 10000
    ensures IsHourBucket(b) ==> r.value * 100 <= b < r.value * 100 + 100
    ensures r.Err? ==> r.message == NotMinuteMessage
  {
    if IsMinuteBucket(b) then Ok(b / 10000)
    else if IsHourBucket(b) then Ok(b / 100)
    else Err(NotMinuteMessage)
  }

  /** Minute, hour or day to month: keeps the six leading `yyyyMM` digits; fails on anything else, a month bucket included. */
  function ToTimeBucketInMonth(b: Long): (r: Result<Long>)
    ensures r.Ok? <==> IsMinuteBucket(b) || IsHourBucket(b) || IsDayBucket(b)
    ensures IsMinuteBucket(b) ==> r.value * 1000000 <= b < r.value * 1000000 + 1000000
    ensures IsHourBucket(b) ==> r.value * 10000 <= b < r.value * 10000 + 10000
    ensures IsDayBucket(b) ==> r.value * 100 <= b < r.value * 100 + 100
    ensures r.Err? ==> r.message == NotMinuteMessage
  {
    if IsMinuteBucket(b) then Ok(b / 1000000)
    else if IsHourBucket(b) then Ok(b / 10000)
    else if IsDayBucket(b) then Ok(b / 100)
    else Err(NotMinuteMessage)
  }

  /**
   * The span of a bucket in minutes. Every value outside the three classes takes the month
   * branch, whose day count comes from a date parser outside this model: `dayOfMonth` is the
   * day-of-month that parser reads from the bucket.
   */
  function DurationInMinute(b: Long, dayOfMonth: int): (r: Long)
    requires 1 <= dayOfMonth <= 31
    ensures r == 1 <==> IsMinuteBucket(b)
    ensures r == 60 <==> IsHourBucket(b)
    ensures IsDayBucket(b) ==> r == 1440
    ensures !IsMinuteBucket(b) && !IsHourBucket(b) && !IsDayBucket(b) ==> r == dayOfMonth * 1440
  {
    if IsMinuteBucket(b) then 1
    else if IsHourBucket(b) then 60
    else if IsDayBucket(b) then 24 * 60
    else dayOfMonth * 24 * 60
  }

  /** At most one precision holds for any value. */
  lemma ClassifiersExclusive(b: int)
    ensures !(IsMinuteBucket(b) && IsHourBucket(b))
    ensures !(IsMinuteBucket(b) && IsDayBucket(b))
    ensures !(IsHourBucket(b) && IsDayBucket(b))
  {
  }

  /** The bounds are open: the bound values themselves belong to no class. */
  lemma BoundsUnclassified(b: int)
    requires b in {MinuteLow, MinuteHigh, HourLow, HourHigh, DayLow, DayHigh}
    ensures !IsMinuteBucket(b) && !IsHourBucket(b) && !IsDayBucket(b)
  {
  }

  /** Minute buckets are exactly the 12-digit values other than 10^11 and 10^12 - 1. */
  lemma MinuteIsTwelveDigits(b: int)
    ensures IsMinuteBucket(b) <==> b > 0 && Digits.NumDigits(b) == 12 && b != MinuteLow && b != MinuteHigh
  {
    Digits.Pow10Table();
    if b > 0 {
      Digits.DigitsIff(b, 11);
    }
  }

  /** Hour buckets are exactly the 10-digit values other than 10^9 and 10^10 - 1. */
  lemma HourIsTenDigits(b: int)
    ensures IsHourBucket(b) <==> b > 0 && Digits.NumDigits(b) == 10 && b != HourLow && b != HourHigh
  {
    Digits.Pow10Table();
    if b > 0 {
      Digits.DigitsIff(b, 9);
    }
  }

  /** Day buckets are exactly the 8-digit values other than 10^7 and 10^8 - 1. */
  lemma DayIsEightDigits(b: int)
    ensures IsDayBucket(b) <==> b > 0 && Digits.NumDigits(b) == 8 && b != DayLow && b != DayHigh
  {
    Digits.Pow10Table();
    if b > 0 {
      Digits.DigitsIff(b, 7);
    }
  }

  /** The three conversions of one bucket agree: each coarser result is the finer one with two more digits dropped. */
  lemma ConversionsAgree(b: Long)
    ensures IsMinuteBucket(b) ==> ToTimeBucketInDay(b).value == ToTimeBucketInHour(b).value / 100
    ensures IsMinuteBucket(b) || IsHourBucket(b) ==>
      ToTimeBucketInMonth(b).value == ToTimeBucketInDay(b).value / 100
  {
  }

  /**
   * The hour bucket of a minute bucket is itself classified as an hour bucket exactly when the
   * minute bucket is not among the 99 smallest or the 99 largest: those downsample onto the
   * open bounds 10^9 and 10^10 - 1.
   */
  lemma HourOfMinuteClassified(b: Long)
    requires IsMinuteBucket(b)
    ensures IsHourBucket(ToTimeBucketInHour(b).value) <==> 100000000100 <= b < 999999999900
  {
  }

  /** Likewise, the day bucket of an hour bucket classifies as a day bucket except at the two ends. */
  lemma DayOfHourClassified(b: Long)
    requires IsHourBucket(b)
    ensures IsDayBucket(ToTimeBucketInDay(b).value) <==> 1000000100 <= b < 9999999900
  {
  }

  /**
   * Downsampling in steps reaches the same bucket as downsampling at once: minute to hour to day
   * equals minute to day, and so on, whenever the intermediate bucket is classified.
   */
  lemma DownsamplingCommutes(b: Long)
    ensures IsMinuteBucket(b) && IsHourBucket(b / 100) ==>
      ToTimeBucketInDay(ToTimeBucketInHour(b).value) == ToTimeBucketInDay(b)
    ensures IsMinuteBucket(b) && IsHourBucket(b / 100) ==>
      ToTimeBucketInMonth(ToTimeBucketInHour(b).value) == ToTimeBucketInMonth(b)
    ensures (IsMinuteBucket(b) || IsHourBucket(b)) && IsDayBucket(ToTimeBucketInDay(b).value) ==>
      ToTimeBucketInMonth(ToTimeBucketInDay(b).value) == ToTimeBucketInMonth(b)
  {
  }

  /** The minute bucket of the classifier's comment, 201809120511, its coarser buckets and their conversions. */
  lemma Examples()
    ensures IsMinuteBucket(201809120511) && IsHourBucket(2018091205) && IsDayBucket(20180912)
    ensures !IsMinuteBucket(201809) && !IsHourBucket(201809) && !IsDayBucket(201809)
    ensures ToTimeBucketInHour(201809120511) == Ok(2018091205)
    ensures ToTimeBucketInDay(201809120511) == Ok(20180912)
    ensures ToTimeBucketInMonth(201809120511) == Ok(201809)
    ensures ToTimeBucketInMonth(201809) == Err(NotMinuteMessage)
    ensures ToTimeBucketInDay(20180912).Err? && ToTimeBucketInHour(2018091205).Err?
  {
  }
}
