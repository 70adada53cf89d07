# Metrics time buckets and survival counter

A model of the state every SkyWalking OAP metrics entity shares (`Metrics.java`): the `long`
time bucket whose size alone encodes its precision (`yyyyMMddHHmm` minute, `yyyyMMddHH` hour,
`yyyyMMdd` day, `yyyyMM` month), the three precision classifiers with their open bounds, the
downsampling conversions minute to hour, day and month, the span of a bucket in minutes, and the
survival counter that the cache extends.

Modules:

- `JavaLong` (`java_long.dfy`): the range of a Java `long` and its wrap-around addition.
- `Digits` (`digits.dfy`): decimal digit counts. They give a reading of "12 digits is a minute"
  that does not depend on the classifiers' bounds.
- `TimeBuckets` (`time_buckets.dfy`): the classifiers, conversions and duration as functions over a
  `long`. The thrown `IllegalStateException` becomes `Err(message)` of a `Result`.
- `Calendar` (`calendar.dfy`): a calendar minute written as one decimal number. Its lemmas show that
  well-formed buckets are classified correctly and that downsampling keeps their leading fields.
- `MetricsEntity` (`metrics.dfy`): the class `Metrics`. It has the two fields, the implicit
  constructor, the setter, `extendSurvivalTime`, and the read-only conversions as methods proved
  against the functions of `TimeBuckets`.

Where the code's comments and names suggest more than its statements do, the model follows the
statements:

- The survival counter is documented as the time spent in the cache (Metrics.java:46-50), which
  suggests a non-negative, growing value. `extendSurvivalTime` adds any `long` it is given,
  negative values included, and wraps around on overflow. `JavaLong.Add` models exactly that.
- The duration is documented as "always" the span of the bucket in minutes, and the comment in the
  last branch calls it the month case (Metrics.java:124-137). Together they suggest
  days-in-month × 1440. The code multiplies instead by the day-of-month of the date that the
  Joda-Time parser reads from the bucket with the pattern `yyyyMM`, which has no day field. The
  model takes that day-of-month as a parameter (see "Left out").
- All three conversions throw with the same message, "Current time bucket is not in minute
  dimensionality", even for hour and day buckets. The model keeps that message.

## Model

| member | source | states |
|---|---|---|
| `TimeBuckets.IsMinuteBucket` | oap-server/server-core/src/main/java/org/apache/skywalking/oap/server/core/analysis/metrics/Metrics.java:145-150 | true exactly when the bucket is strictly between 100000000000 and 999999999999 |
| `TimeBuckets.IsHourBucket` | oap-server/server-core/src/main/java/org/apache/skywalking/oap/server/core/analysis/metrics/Metrics.java:152-154 | true exactly when the bucket is strictly between 1000000000 and 9999999999 |
| `TimeBuckets.IsDayBucket` | oap-server/server-core/src/main/java/org/apache/skywalking/oap/server/core/analysis/metrics/Metrics.java:156-158 | true exactly when the bucket is strictly between 10000000 and 99999999 |
| `TimeBuckets.MinuteIsTwelveDigits` | oap-server/server-core/src/main/java/org/apache/skywalking/oap/server/core/analysis/metrics/Metrics.java:145-150 | a value is a minute bucket exactly when it has 12 decimal digits and is neither 100000000000 nor 999999999999 |
| `TimeBuckets.HourIsTenDigits` | oap-server/server-core/src/main/java/org/apache/skywalking/oap/server/core/analysis/metrics/Metrics.java:152-154 | a value is an hour bucket exactly when it has 10 digits and is neither 1000000000 nor 9999999999 |
| `TimeBuckets.DayIsEightDigits` | oap-server/server-core/src/main/java/org/apache/skywalking/oap/server/core/analysis/metrics/Metrics.java:156-158 | a value is a day bucket exactly when it has 8 digits and is neither 10000000 nor 99999999 |
| `TimeBuckets.ClassifiersExclusive` | oap-server/server-core/src/main/java/org/apache/skywalking/oap/server/core/analysis/metrics/Metrics.java:148-158 | no value is in two precision classes |
| `TimeBuckets.BoundsUnclassified` | oap-server/server-core/src/main/java/org/apache/skywalking/oap/server/core/analysis/metrics/Metrics.java:148-158 | the six bound values are in no class, because the bounds are open |
| `TimeBuckets.ToTimeBucketInHour` | oap-server/server-core/src/main/java/org/apache/skywalking/oap/server/core/analysis/metrics/Metrics.java:94-100 | succeeds exactly on minute buckets and returns the value with its two minute digits dropped; every other value fails with the exception's message |
| `TimeBuckets.ToTimeBucketInDay` | oap-server/server-core/src/main/java/org/apache/skywalking/oap/server/core/analysis/metrics/Metrics.java:102-110 | succeeds exactly on minute and hour buckets and drops four or two trailing digits; fails on day buckets and everything else |
| `TimeBuckets.ToTimeBucketInMonth` | oap-server/server-core/src/main/java/org/apache/skywalking/oap/server/core/analysis/metrics/Metrics.java:112-122 | succeeds exactly on minute, hour and day buckets and keeps the six leading digits; fails otherwise, month buckets included |
| `TimeBuckets.DurationInMinute` | oap-server/server-core/src/main/java/org/apache/skywalking/oap/server/core/analysis/metrics/Metrics.java:127-143 | 1 exactly for minute buckets, 60 exactly for hour buckets, 1440 for day buckets; every other value takes the month branch, day-of-month × 1440 |
| `TimeBuckets.ConversionsAgree` | oap-server/server-core/src/main/java/org/apache/skywalking/oap/server/core/analysis/metrics/Metrics.java:94-122 | from a minute bucket, the day equals the hour divided by 100; from a minute or hour bucket, the month equals the day divided by 100 |
| `TimeBuckets.HourOfMinuteClassified` | oap-server/server-core/src/main/java/org/apache/skywalking/oap/server/core/analysis/metrics/Metrics.java:94-100 | the hour of a minute bucket is classified as an hour bucket exactly when the minute bucket is outside the 99 smallest and the 99 largest |
| `TimeBuckets.DayOfHourClassified` | oap-server/server-core/src/main/java/org/apache/skywalking/oap/server/core/analysis/metrics/Metrics.java:102-110 | the day of an hour bucket is classified as a day bucket exactly when the hour bucket is outside the 99 smallest and the 99 largest |
| `TimeBuckets.DownsamplingCommutes` | oap-server/server-core/src/main/java/org/apache/skywalking/oap/server/core/analysis/metrics/Metrics.java:94-122 | downsampling step by step (minute to hour to day or month, hour or minute to day to month) gives the same bucket as doing it in one step, when the intermediate bucket is classified |
| `TimeBuckets.Examples` | oap-server/server-core/src/main/java/org/apache/skywalking/oap/server/core/analysis/metrics/Metrics.java:94-150 | 201809120511, the minute bucket of the comment at line 146, converts to 2018091205, 20180912 and 201809; 201809 is in no class and has no month conversion |
| `Calendar.EncodingsClassified` | oap-server/server-core/src/main/java/org/apache/skywalking/oap/server/core/analysis/metrics/Metrics.java:145-158 | every minute of a four-digit year written as `yyyyMMddHHmm`, `yyyyMMddHH` and `yyyyMMdd` is in the minute, hour and day class; its `yyyyMM` form is in no class |
| `Calendar.DownsampleKeepsFields` | oap-server/server-core/src/main/java/org/apache/skywalking/oap/server/core/analysis/metrics/Metrics.java:94-122 | each conversion of a well-formed calendar bucket returns the same moment's bucket at the coarser precision |
| `Calendar.UndefinedConversionsFail` | oap-server/server-core/src/main/java/org/apache/skywalking/oap/server/core/analysis/metrics/Metrics.java:94-122 | the conversions the code does not define (hour to hour, day to day, month to month and so on) fail on well-formed buckets |
| `Calendar.DurationsOfEncodings` | oap-server/server-core/src/main/java/org/apache/skywalking/oap/server/core/analysis/metrics/Metrics.java:127-143 | for well-formed buckets, a minute spans 1, an hour 60 minutes and a day 24 hours; a month bucket takes the month branch |
| `JavaLong.Add` | oap-server/server-core/src/main/java/org/apache/skywalking/oap/server/core/analysis/metrics/Metrics.java:90-92 | `long` addition: the plain sum when it fits, otherwise the sum shifted by 2^64 |
| `JavaLong.AddNonNegative` | oap-server/server-core/src/main/java/org/apache/skywalking/oap/server/core/analysis/metrics/Metrics.java:90-92 | adding a non-negative amount never lowers the counter, unless the sum overflows |
| `MetricsEntity.Metrics.constructor` | oap-server/server-core/src/main/java/org/apache/skywalking/oap/server/core/analysis/metrics/Metrics.java:41-50 | a fresh instance has `timeBucket` 0 and `survivalTime` 0 |
| `MetricsEntity.Metrics.SetTimeBucket` | oap-server/server-core/src/main/java/org/apache/skywalking/oap/server/core/analysis/metrics/Metrics.java:41-44 | the setter stores the bucket and leaves the counter unchanged |
| `MetricsEntity.Metrics.ExtendSurvivalTime` | oap-server/server-core/src/main/java/org/apache/skywalking/oap/server/core/analysis/metrics/Metrics.java:85-92 | the counter becomes its old value plus `value` as a `long`; the bucket is unchanged |
| `MetricsEntity.Metrics.ToTimeBucketInHour` | oap-server/server-core/src/main/java/org/apache/skywalking/oap/server/core/analysis/metrics/Metrics.java:94-100 | returns the hour conversion of the current bucket and changes nothing |
| `MetricsEntity.Metrics.ToTimeBucketInDay` | oap-server/server-core/src/main/java/org/apache/skywalking/oap/server/core/analysis/metrics/Metrics.java:102-110 | returns the day conversion of the current bucket and changes nothing |
| `MetricsEntity.Metrics.ToTimeBucketInMonth` | oap-server/server-core/src/main/java/org/apache/skywalking/oap/server/core/analysis/metrics/Metrics.java:112-122 | returns the month conversion of the current bucket and changes nothing |
| `MetricsEntity.Metrics.GetDurationInMinute` | oap-server/server-core/src/main/java/org/apache/skywalking/oap/server/core/analysis/metrics/Metrics.java:124-143 | returns the duration of the current bucket and changes nothing |
| `MetricsEntity.ExtendFreshTwice` | oap-server/server-core/src/main/java/org/apache/skywalking/oap/server/core/analysis/metrics/Metrics.java:50-92 | a fresh instance extended by `a` then `b` has survival time `a + b` as a `long`: the plain sum when it fits (5 then 3 gives 8), wrapped otherwise; the bucket stays 0 |

## Left out

- The abstract `combine`, `calculate`, `toHour`, `toDay` and `toMonth` (Metrics.java:52-83) have no
  bodies in this class. So merge associativity, `calculate` idempotence and clone-mode downsampling
  cannot be stated against code. Concrete metric types are not part of this model.
- `TimeBuckets.DurationInMinute`: the month branch does not compute the month's length. The day
  count comes from Joda-Time's `DateTimeFormat.forPattern("yyyyMM").parseLocalDate(...)`, which is
  a foreign library call and is not modelled. It is the parameter `dayOfMonth`, assumed to lie in
  1..31 as a day-of-month does. That pattern has no day field, so the parsed date most likely has
  day-of-month 1 and the branch returns 1440, not the 30 × 1440 that a month length would give for
  `201809`. The model neither claims nor refutes this. A value that the parser rejects (one that is not six
  digits, say) would throw in the code; the model does not capture that.
- Java `int` overflow in `dayOfMonth * 24 * 60` is not modelled. It cannot happen for a day-of-month
  in 1..31.
- Java's division truncates toward zero and Dafny's is Euclidean. The two agree here, because the
  conversions divide only classified buckets, which are positive.
- The column-name constants `TIME_BUCKET` and `ENTITY_ID`, the Lombok getters, the `@Column`
  storage mapping and the `StreamData`/`StorageData` supertypes are serialization and storage
  plumbing. They are not modelled.
- Concurrency: the code has none of its own, and callers own each instance exclusively. Not
  modelled.
