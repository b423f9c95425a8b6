/** The earlier revision of the energy service: a three-day generation mix, a fixed 48-hour
    search horizon, a 1 to 6 hour limit on the charging window, its own copy of the clean
    set, a snapping rule that goes to the start of the slot in progress plus 30 minutes, and
    no check on the client's answer or on the scan's result. */
module EnergyServiceLegacy {
  import opened Wrappers
  import opened FuelTypes
  import CleanFuels
  import opened Records
  import opened Rounding
  import opened Time
  import opened Windows
  import opened DailyMix

  const WrongHoursMessage: string := "Wrong number of hours"
  const NotEnoughDataMessage: string := "Not enough data from api"
  const MixDays: int := 3
  const SearchWindowHours: int := 48

  /** This revision's own `CLEAN` field. In the class it is a mutable, non-final field, but
      nothing in the service writes to it, so it keeps these five members throughout. */
  const Clean: set<FuelType> := {BIOMASS, NUCLEAR, HYDRO, WIND, SOLAR}

  /** The field holds the same five fuel types as the shared constant. */
  lemma SameCleanSet()
    ensures Clean == CleanFuels.Clean
  {
  }

  /** The clean share as this revision computes it, against its own field. */
  function CleanShare(mix: seq<Fuel>): real
  {
    if mix == [] then 0.0
    else
      var last := mix[|mix| - 1];
      CleanShare(mix[..|mix| - 1]) + (if last.fuelType in Clean then last.percentage else 0.0)
  }

  /** It agrees with the shared clean share on every mix, so the window scan and the daily
      summaries, written against the shared set, are this revision's too. */
  lemma {:induction false} CleanShareAgrees(mix: seq<Fuel>)
    ensures CleanShare(mix) == Windows.CleanShare(mix)
  {
    if mix != [] {
      CleanShareAgrees(mix[..|mix| - 1]);
    }
  }

  // ---------------------------------------------------------------- generation mix

  /** Today's midnight up to the midnight three days later. */
  function ThreeDayRange(today: Date): (r: (LocalDateTime, LocalDateTime))
    ensures r.0.Valid() && r.1.Valid() && r.0.date == today && r.1.date == today + 3
    ensures r.0.hour == 0 && r.0.minute == 0 && r.0.second == 0 && r.0.nano == 0
    ensures r.0.EpochNano() == today * MinutesPerDay * NanosPerMinute
    ensures r.1.EpochNano() - r.0.EpochNano() == 3 * MinutesPerDay * NanosPerMinute
  {
    (AtStartOfDay(today), AtStartOfDay(today + MixDays))
  }

  /** The daily summaries of the client's answer; a missing answer or data list is
      dereferenced and fails. */
  function GetGenerationMixForThreeDays(today: Date, fetched: Option<CarbonIntensityResponse>)
    : (r: Result<seq<DailyMixDto>, ServiceError>)
    ensures r.Failure? <==> fetched.None? || fetched.value.data.None?
    ensures r.Failure? ==> r.error == NullPointerException
    ensures r.Success? ==> r.value == CalculateAveragesAndPercentage(fetched.value.data.value, today)
  {
    if fetched.None? || fetched.value.data.None? then Failure(NullPointerException)
    else Success(CalculateAveragesAndPercentage(fetched.value.data.value, today))
  }

  // ---------------------------------------------------------------- the search horizon

  /** The end of the slot in progress: minute < 30 goes to hh:00, otherwise to hh:30; seconds
      and nanoseconds are cleared and 30 minutes are added. */
  function SnapToNextHalfHour(time: OffsetDateTime): (r: OffsetDateTime)
    requires time.Valid()
    ensures r.Valid() && r.offsetSeconds == time.offsetSeconds && r.OnHalfHour()
    ensures 0 < r.local.EpochNano() - time.local.EpochNano() <= HalfHourNanos
  {
    var baseTime :=
      if time.local.minute < 30 then time.WithMinute(0).WithSecond(0).WithNano(0)
      else time.WithMinute(30).WithSecond(0).WithNano(0);
    var r := baseTime.PlusMinutes(30);
    assert r.local.EpochMinute() - time.local.EpochMinute() == 30 - time.local.minute + (if time.local.minute < 30 then 0 else 30);
    MinuteGap(time.local, r.local, 1, 30);
    r
  }

  /** The snapped instant is the only slot boundary after the input and at most 30 minutes on. */
  lemma SnapUnique(time: OffsetDateTime, b: OffsetDateTime)
    requires time.Valid() && b.Valid() && b.OnHalfHour() && b.offsetSeconds == time.offsetSeconds
    requires 0 < b.local.EpochNano() - time.local.EpochNano() <= HalfHourNanos
    ensures b == SnapToNextHalfHour(time)
  {
    BoundaryUnique(b, SnapToNextHalfHour(time), time.local.EpochNano());
  }

  /** 10:15 snaps to 10:30, 10:45 to 11:00, 10:00 to 10:30 and 23:45 to 00:00 of the next day. */
  lemma SnapExamples(d: int, offset: int)
    ensures SnapToNextHalfHour(OffsetDateTime(LocalDateTime(d, 10, 15, 0, 0), offset))
         == OffsetDateTime(LocalDateTime(d, 10, 30, 0, 0), offset)
    ensures SnapToNextHalfHour(OffsetDateTime(LocalDateTime(d, 10, 45, 0, 0), offset))
         == OffsetDateTime(LocalDateTime(d, 11, 0, 0, 0), offset)
    ensures SnapToNextHalfHour(OffsetDateTime(LocalDateTime(d, 10, 0, 0, 0), offset))
         == OffsetDateTime(LocalDateTime(d, 10, 30, 0, 0), offset)
    ensures SnapToNextHalfHour(OffsetDateTime(LocalDateTime(d, 23, 45, 0, 0), offset))
         == OffsetDateTime(LocalDateTime(d + 1, 0, 0, 0, 0), offset)
  {
    SnapUnique(OffsetDateTime(LocalDateTime(d, 10, 15, 0, 0), offset), OffsetDateTime(LocalDateTime(d, 10, 30, 0, 0), offset));
    SnapUnique(OffsetDateTime(LocalDateTime(d, 10, 45, 0, 0), offset), OffsetDateTime(LocalDateTime(d, 11, 0, 0, 0), offset));
    SnapUnique(OffsetDateTime(LocalDateTime(d, 10, 0, 0, 0), offset), OffsetDateTime(LocalDateTime(d, 10, 30, 0, 0), offset));
    SnapUnique(OffsetDateTime(LocalDateTime(d, 23, 45, 0, 0), offset), OffsetDateTime(LocalDateTime(d + 1, 0, 0, 0, 0), offset));
  }

  /** The range searched: from the snapped instant to 48 hours later. */
  function SearchRange(now: OffsetDateTime): (r: (OffsetDateTime, OffsetDateTime))
    requires now.Valid()
    ensures r.0 == SnapToNextHalfHour(now)
    ensures r.1.Valid() && r.1.offsetSeconds == now.offsetSeconds
    ensures r.1.local.EpochNano() - r.0.local.EpochNano() == 48 * 2 * HalfHourNanos
  {
    var start := SnapToNextHalfHour(now);
    (start, start.PlusHours(SearchWindowHours))
  }

  // ---------------------------------------------------------------- the charging window

  /** `calculateBestWindow`: the same scan as the current revision, but a start index left at
      -1 goes straight into `get(-1)`. */
  method CalculateBestWindow(intervals: seq<GenerationData>, windowSize: int)
    returns (r: Result<OptimalWindowDto, ServiceError>)
    requires windowSize >= 1
    ensures r.Success? ==>
      exists k :: IsFirstArgmax(intervals, windowSize, k) && r.value == WindowDto(intervals, windowSize, k)
    ensures r.Failure? ==> r.error == IndexOutOfBoundsException
    ensures r.Success? <==> BeatsInitial(intervals, windowSize)
  {
    var bestStartIndex, maxTotalPerc := ScanWindows(intervals, windowSize);
    if bestStartIndex == -1 {
      return Failure(IndexOutOfBoundsException);
    }
    var startInterval := intervals[bestStartIndex];
    var endInterval := intervals[bestStartIndex + windowSize - 1];
    var averagePerc := maxTotalPerc / windowSize as real;
    r := Success(OptimalWindowDto(startInterval.from.text, endInterval.to.text, Round2(averagePerc)));
    assert r.value == WindowDto(intervals, windowSize, bestStartIndex);
  }

  /** `findOptimalChargingWindow`: the hours check before anything is fetched, then the
      answer is dereferenced, then the size check and the scan. */
  method FindOptimalChargingWindow(numberOfHours: int, fetched: Option<CarbonIntensityResponse>)
    returns (r: Result<OptimalWindowDto, ServiceError>)
    ensures numberOfHours < 1 || numberOfHours > 6 ==> r == Failure(IllegalArgumentException(WrongHoursMessage))
    ensures 1 <= numberOfHours <= 6 && (fetched.None? || fetched.value.data.None?) ==>
      r == Failure(NullPointerException)
    ensures 1 <= numberOfHours <= 6 && fetched.Some? && fetched.value.data.Some? ==>
      var s, w := fetched.value.data.value, 2 * numberOfHours;
      && (|s| < w ==> r == Failure(IllegalArgumentException(NotEnoughDataMessage)))
      && (w <= |s| && !BeatsInitial(s, w) ==> r == Failure(IndexOutOfBoundsException))
      && (w <= |s| && BeatsInitial(s, w) ==>
            r.Success? && exists k :: IsFirstArgmax(s, w, k) && r.value == WindowDto(s, w, k))
  {
    if numberOfHours < 1 || numberOfHours > 6 {
      return Failure(IllegalArgumentException(WrongHoursMessage));
    }
    if fetched.None? || fetched.value.data.None? {
      return Failure(NullPointerException);
    }
    var intervals := fetched.value.data.value;
    var windowSize := numberOfHours * 2;
    if |intervals| < windowSize {
      return Failure(IllegalArgumentException(NotEnoughDataMessage));
    }
    r := CalculateBestWindow(intervals, windowSize);
  }

  /** With non-negative percentages and enough intervals the `get(-1)` is never reached. */
  lemma NonNegativeNoIndexError(intervals: seq<GenerationData>, numberOfHours: int)
    requires 1 <= numberOfHours <= 6 && 2 * numberOfHours <= |intervals|
    requires forall i :: 0 <= i < |intervals| ==> NonNegativeMix(intervals[i].generationMix)
    ensures BeatsInitial(intervals, 2 * numberOfHours)
  {
    NonNegativeBeatsInitial(intervals, 2 * numberOfHours);
  }
}
