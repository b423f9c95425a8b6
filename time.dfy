/** The part of java.time that the service uses: local date-times with a fixed UTC offset,
    the `withX` adjusters and `plusMinutes`/`plusHours`, which carry into the hour and the day. */
module Time {

  const NanosPerMinute: int := 60_000_000_000
  const MinutesPerDay: int := 1440
  const HalfHourNanos: int := 30 * NanosPerMinute

  /** A `LocalDateTime`; `date` counts days from an arbitrary epoch. */
  datatype LocalDateTime = LocalDateTime(date: int, hour: int, minute: int, second: int, nano: int)
  {
    predicate Valid()
    {
      0 <= hour < 24 && 0 <= minute < 60 && 0 <= second < 60 && 0 <= nano < 1_000_000_000
    }

    /** Minutes since the epoch's midnight. */
    function EpochMinute(): int
    {
      date * MinutesPerDay + hour * 60 + minute
    }

    /** Nanoseconds since the epoch's midnight: the time line on which two values are compared. */
    function EpochNano(): int
    {
      EpochMinute() * NanosPerMinute + second * 1_000_000_000 + nano
    }
  }

  /** An `OffsetDateTime`: every operation used here acts on the local part and keeps the offset,
      so differences of `local.EpochNano()` between values of one offset are differences of instants. */
  datatype OffsetDateTime = OffsetDateTime(local: LocalDateTime, offsetSeconds: int)
  {
    predicate Valid()
    {
      local.Valid()
    }

    /** On a half-hour slot boundary: minute 0 or 30, no seconds, no nanoseconds. */
    predicate OnHalfHour()
    {
      (local.minute == 0 || local.minute == 30) && local.second == 0 && local.nano == 0
    }

    function WithMinute(m: int): (r: OffsetDateTime)
      requires 0 <= m < 60
    {
      this.(local := local.(minute := m))
    }

    function WithSecond(s: int): (r: OffsetDateTime)
      requires 0 <= s < 60
    {
      this.(local := local.(second := s))
    }

    function WithNano(n: int): (r: OffsetDateTime)
      requires 0 <= n < 1_000_000_000
    {
      this.(local := local.(nano := n))
    }

    /** Adds minutes to the local date-time, rolling over hours and days. */
    function PlusMinutes(m: int): (r: OffsetDateTime)
      requires Valid()
      ensures r.Valid() && r.offsetSeconds == offsetSeconds
      ensures r.local.EpochMinute() == local.EpochMinute() + m
      ensures r.local.second == local.second && r.local.nano == local.nano
      ensures r.local.minute == (local.minute + m) % 60
    {
      var total := local.EpochMinute() + m;
      var minuteOfDay := total % MinutesPerDay;
      MinuteOfHour(local.date * 24 + local.hour, local.minute + m);
      OffsetDateTime(LocalDateTime(total / MinutesPerDay, minuteOfDay / 60, minuteOfDay % 60,
                                   local.second, local.nano), offsetSeconds)
    }

    function PlusHours(h: int): (r: OffsetDateTime)
      requires Valid()
      ensures r.Valid() && r.offsetSeconds == offsetSeconds
      ensures r.local.EpochNano() == local.EpochNano() + h * 60 * NanosPerMinute
    {
      PlusMinutes(h * 60)
    }
  }

  /** Whole hours do not change the minute of the hour, also after taking the minute of the day. */
  lemma MinuteOfHour(hours: int, m: int)
    ensures (hours * 60 + m) % MinutesPerDay % 60 == m % 60
  {
    var x := hours * 60 + m;
    var q := x / MinutesPerDay;
    assert x % MinutesPerDay == x - q * MinutesPerDay;
    assert x - q * MinutesPerDay == (hours - q * 24) * 60 + m;
    ShiftByHours(hours - q * 24, m);
    ShiftByHours(hours, m);
  }

  /** Whole hours added to a minute count keep the minute of the hour. */
  lemma ShiftByHours(h: int, m: int)
    ensures (h * 60 + m) % 60 == m % 60
  {
  }

  /** `LocalDate.atStartOfDay()`. */
  function AtStartOfDay(d: int): (r: LocalDateTime)
    ensures r.Valid() && r.date == d
    ensures r.EpochNano() == d * MinutesPerDay * NanosPerMinute
  {
    LocalDateTime(d, 0, 0, 0, 0)
  }

  /** A valid local date-time is determined by its position on the time line. */
  lemma EpochNanoInjective(a: LocalDateTime, b: LocalDateTime)
    requires a.Valid() && b.Valid() && a.EpochNano() == b.EpochNano()
    ensures a == b
  {
    QuotientUnique(a.EpochMinute(), a.second * 1_000_000_000 + a.nano,
                   b.EpochMinute(), b.second * 1_000_000_000 + b.nano, NanosPerMinute);
    QuotientUnique(a.second, a.nano, b.second, b.nano, 1_000_000_000);
    QuotientUnique(a.date * 24 + a.hour, a.minute, b.date * 24 + b.hour, b.minute, 60);
    QuotientUnique(a.date, a.hour, b.date, b.hour, 24);
  }

  /** Division with remainder has one answer. */
  lemma QuotientUnique(q1: int, r1: int, q2: int, r2: int, n: int)
    requires 0 <= r1 < n && 0 <= r2 < n && q1 * n + r1 == q2 * n + r2
    ensures q1 == q2 && r1 == r2
  {
    var d := q1 - q2;
    assert d * n == q1 * n - q2 * n;
    if d >= 1 {
      AtLeastOnce(d, n);
    } else if d <= -1 {
      AtLeastOnce(-d, n);
    }
  }

  lemma {:induction false} AtLeastOnce(k: int, n: int)
    requires k >= 1 && n >= 0
    ensures k * n >= n
    decreases k
  {
    if k > 1 {
      AtLeastOnce(k - 1, n);
      assert k * n == (k - 1) * n + n;
    }
  }

  /** A slot boundary lies a whole number of half hours from the epoch's midnight. */
  lemma OnHalfHourMultiple(t: OffsetDateTime)
    requires t.OnHalfHour()
    ensures t.local.EpochNano() % HalfHourNanos == 0
  {
    var q := t.local.date * 48 + t.local.hour * 2 + t.local.minute / 30;
    assert t.local.EpochMinute() == q * 30;
    assert t.local.EpochNano() == q * HalfHourNanos;
  }

  /** Two multiples of a half hour within the same half-open half-hour span are equal. */
  lemma OneBoundaryPerSpan(x: int, y: int, lo: int)
    requires x % HalfHourNanos == 0 && y % HalfHourNanos == 0
    requires lo < x <= lo + HalfHourNanos && lo < y <= lo + HalfHourNanos
    ensures x == y
  {
    var qx, qy := x / HalfHourNanos, y / HalfHourNanos;
    assert x == qx * HalfHourNanos && y == qy * HalfHourNanos;
  }

  /** Two valid slot boundaries of one offset in the same half-open half-hour span are equal. */
  lemma BoundaryUnique(a: OffsetDateTime, b: OffsetDateTime, lo: int)
    requires a.Valid() && b.Valid() && a.OnHalfHour() && b.OnHalfHour()
    requires a.offsetSeconds == b.offsetSeconds
    requires lo < a.local.EpochNano() <= lo + HalfHourNanos
    requires lo < b.local.EpochNano() <= lo + HalfHourNanos
    ensures a == b
  {
    OnHalfHourMultiple(a);
    OnHalfHourMultiple(b);
    OneBoundaryPerSpan(a.local.EpochNano(), b.local.EpochNano(), lo);
    EpochNanoInjective(a.local, b.local);
  }

  /** Two date-times a whole number of minutes apart on the minute scale, the later one on a
      whole minute, are between one minute less and exactly that many minutes apart. */
  lemma MinuteGap(t: LocalDateTime, r: LocalDateTime, lo: int, hi: int)
    requires t.Valid() && r.second == 0 && r.nano == 0
    requires lo <= r.EpochMinute() - t.EpochMinute() <= hi
    ensures (lo - 1) * NanosPerMinute < r.EpochNano() - t.EpochNano() <= hi * NanosPerMinute
  {
    var dm := r.EpochMinute() - t.EpochMinute();
    var within := t.second * 1_000_000_000 + t.nano;
    assert 0 <= within < NanosPerMinute;
    assert r.EpochNano() - t.EpochNano() == dm * NanosPerMinute - within;
    assert (lo - 1) * NanosPerMinute < dm * NanosPerMinute - within by {
      assert (lo - 1) * NanosPerMinute <= (dm - 1) * NanosPerMinute;
    }
    assert dm * NanosPerMinute <= hi * NanosPerMinute;
  }
}
