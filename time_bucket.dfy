/**
 * Time-of-day bucketing: the local hour of the day decides which of four
 * coarse buckets the suggestion ranking is biased towards.
 *   MORNING 05:00-11:59, AFTERNOON 12:00-16:59, EVENING 17:00-20:59,
 *   NIGHT 21:00-04:59.
 */
module TimeBucket {

  datatype Bucket = Morning | Afternoon | Evening | Night

  /** The hours `Date.getHours` can report. */
  predicate IsHour(h: int) {
    0 <= h <= 23
  }

  /** `getLocalTimeBucket`, over the hour the clock reports (the clock itself is a parameter). */
  function LocalTimeBucket(h: int): (b: Bucket)
    ensures b == Morning <==> 5 <= h <= 11
    ensures b == Afternoon <==> 12 <= h <= 16
    ensures b == Evening <==> 17 <= h <= 20
    ensures IsHour(h) ==> (b == Night <==> (21 <= h || h <= 4))
  {
    if 5 <= h <= 11 then Morning
    else if 12 <= h <= 16 then Afternoon
    else if 17 <= h <= 20 then Evening
    else Night
  }

  /** The first hour of each bucket, by the schedule in the doc comment. */
  function FirstHour(b: Bucket): (h: int)
    ensures IsHour(h)
  {
    match b
    case Morning => 5
    case Afternoon => 12
    case Evening => 17
    case Night => 21
  }

  /** The number of hours each bucket spans. */
  function Span(b: Bucket): (n: nat)
  {
    match b
    case Morning => 7
    case Afternoon => 5
    case Evening => 4
    case Night => 8
  }

  /**
   * The schedule as a reference: hour `h` is in bucket `b` when it lies at most
   * `Span(b) - 1` hours after `FirstHour(b)`, counting round the clock.
   */
  predicate InSchedule(h: int, b: Bucket)
    requires IsHour(h)
  {
    (h - FirstHour(b)) % 24 < Span(b)
  }

  /** The four ranges partition the day: every hour lies in the schedule of exactly one bucket, the one the code returns. */
  lemma {:induction false} BucketsPartitionDay(h: int, b: Bucket)
    requires IsHour(h)
    ensures InSchedule(h, b) <==> b == LocalTimeBucket(h)
  {
    var d := h - FirstHour(b);
    assert d % 24 == if d < 0 then d + 24 else d;
  }

  /** The spans add up to the whole day. */
  lemma SpansCoverDay()
    ensures Span(Morning) + Span(Afternoon) + Span(Evening) + Span(Night) == 24
  {
  }

  /** At each boundary named in the doc comment the bucket switches to the next one. */
  lemma Boundaries()
    ensures LocalTimeBucket(4) == Night && LocalTimeBucket(5) == Morning
    ensures LocalTimeBucket(11) == Morning && LocalTimeBucket(12) == Afternoon
    ensures LocalTimeBucket(16) == Afternoon && LocalTimeBucket(17) == Evening
    ensures LocalTimeBucket(20) == Evening && LocalTimeBucket(21) == Night
  {
  }

  /** Order of the daytime buckets. */
  function Rank(b: Bucket): nat
  {
    match b
    case Morning => 0
    case Afternoon => 1
    case Evening => 2
    case Night => 3
  }

  /** Between 05:00 and 20:59 the bucket never goes back: MORNING, then AFTERNOON, then EVENING. */
  lemma DaytimeMonotone(h1: int, h2: int)
    requires 5 <= h1 <= h2 <= 20
    ensures Rank(LocalTimeBucket(h1)) <= Rank(LocalTimeBucket(h2))
    ensures LocalTimeBucket(h1) != Night
  {
  }
}
