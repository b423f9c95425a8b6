/** The current revision of the energy service: the generation mix for a configured number
    of days, and the optimal charging window over a configured search horizon that starts
    at the half-hour slot after the next one. The client's answer, today's date and the
    current instant are parameters. */
module EnergyServiceImpl {
  import opened Wrappers
  import opened FuelTypes
  import opened CleanFuels
  import opened Records
  import opened Rounding
  import opened Time
  import opened Windows
  import opened DailyMix

  const EmptyDataMessage: string := "Received empty data from Carbon Intensity API."
  const NotEnoughDataMessage: string := "Not enough data from api."
  const NoWindowMessage: string := "Could not find optimal charging window."

  const Int32Max: int := 0x7FFF_FFFF
  const Int32Min: int := -0x8000_0000

  predicate IsInt32(x: int)
  {
    Int32Min <= x <= Int32Max
  }

  /** Java `int` arithmetic: the result taken modulo 2^32 into the signed range. */
  function Wrap32(x: int): (r: int)
    ensures IsInt32(r)
    ensures (r - x) % 0x1_0000_0000 == 0
    ensures IsInt32(x) ==> r == x
  {
    (x - Int32Min) % 0x1_0000_0000 + Int32Min
  }

  /** The service's two settings, fixed at construction. */
  datatype Settings = Settings(generationMixDays: int, searchWindowHours: int)

  // ---------------------------------------------------------------- the client's answer

  /** A missing response or a response without a data list is an error; otherwise the
      response is passed on unchanged. */
  function GetCarbonIntensityResponse(fetched: Option<CarbonIntensityResponse>)
    : (r: Result<CarbonIntensityResponse, ServiceError>)
    ensures r.Success? <==> fetched.Some? && fetched.value.data.Some?
    ensures r.Success? ==> r.value == fetched.value && r.value.data.Some?
    ensures r.Failure? ==> r.error == ExternalApiException(EmptyDataMessage)
  {
    if fetched.None? || fetched.value.data.None? then Failure(ExternalApiException(EmptyDataMessage))
    else Success(fetched.value)
  }

  // ---------------------------------------------------------------- generation mix

  /** The requested range: today's midnight up to the midnight `generationMixDays` later. */
  function GenerationMixRange(settings: Settings, today: Date): (r: (LocalDateTime, LocalDateTime))
    ensures r.0.Valid() && r.1.Valid() && r.0.date == today
    ensures r.0.hour == 0 && r.0.minute == 0 && r.0.second == 0 && r.0.nano == 0
    ensures r.0.EpochNano() == today * MinutesPerDay * NanosPerMinute
    ensures r.1.EpochNano() - r.0.EpochNano() == settings.generationMixDays * MinutesPerDay * NanosPerMinute
  {
    (AtStartOfDay(today), AtStartOfDay(today + settings.generationMixDays))
  }

  /** The daily summaries of whatever the client returned for the range, or the error for a
      missing answer. */
  function GetGenerationMix(today: Date, fetched: Option<CarbonIntensityResponse>)
    : (r: Result<seq<DailyMixDto>, ServiceError>)
    ensures r.Failure? <==> fetched.None? || fetched.value.data.None?
    ensures r.Failure? ==> r.error == ExternalApiException(EmptyDataMessage)
    ensures r.Success? ==> r.value == CalculateAveragesAndPercentage(fetched.value.data.value, today)
  {
    var response := GetCarbonIntensityResponse(fetched);
    if response.Failure? then Failure(response.error)
    else Success(CalculateAveragesAndPercentage(response.value.data.value, today))
  }

  // ---------------------------------------------------------------- the search horizon

  /** The start of the slot after the next one: minute < 30 goes to hh:30, otherwise to the
      next hh:00; seconds and nanoseconds are cleared and 30 minutes are added, so the search
      begins more than 30 and at most 60 minutes ahead. */
  function SnapToNextHalfHour(time: OffsetDateTime): (r: OffsetDateTime)
    requires time.Valid()
    ensures r.Valid() && r.offsetSeconds == time.offsetSeconds && r.OnHalfHour()
    ensures HalfHourNanos < r.local.EpochNano() - time.local.EpochNano() <= 2 * HalfHourNanos
  {
    if time.local.minute < 30 then
      SnapWithinHour(time);
      time.WithMinute(30).WithSecond(0).WithNano(0).PlusMinutes(30)
    else
      SnapNextHour(time);
      time.PlusHours(1).WithMinute(0).WithSecond(0).WithNano(0).PlusMinutes(30)
  }

  /** Minute below 30: hh:30 plus 30 minutes. */
  lemma SnapWithinHour(time: OffsetDateTime)
    requires time.Valid() && time.local.minute < 30
    ensures var r := time.WithMinute(30).WithSecond(0).WithNano(0).PlusMinutes(30);
      && r.Valid() && r.offsetSeconds == time.offsetSeconds && r.OnHalfHour()
      && HalfHourNanos < r.local.EpochNano() - time.local.EpochNano() <= 2 * HalfHourNanos
  {
    var r := time.WithMinute(30).WithSecond(0).WithNano(0).PlusMinutes(30);
    assert r.local.EpochMinute() - time.local.EpochMinute() == 60 - time.local.minute;
    MinuteGap(time.local, r.local, 31, 60);
  }

  /** Minute 30 or above: the next hour's hh:00 plus 30 minutes. */
  lemma SnapNextHour(time: OffsetDateTime)
    requires time.Valid() && time.local.minute >= 30
    ensures var r := time.PlusHours(1).WithMinute(0).WithSecond(0).WithNano(0).PlusMinutes(30);
      && r.Valid() && r.offsetSeconds == time.offsetSeconds && r.OnHalfHour()
      && HalfHourNanos < r.local.EpochNano() - time.local.EpochNano() <= 2 * HalfHourNanos
  {
    var r := time.PlusHours(1).WithMinute(0).WithSecond(0).WithNano(0).PlusMinutes(30);
    assert r.local.EpochMinute() - time.local.EpochMinute() == 90 - time.local.minute;
    MinuteGap(time.local, r.local, 31, 60);
  }

  /** The snapped instant is the only slot boundary more than 30 and at most 60 minutes ahead. */
  lemma SnapUnique(time: OffsetDateTime, b: OffsetDateTime)
    requires time.Valid() && b.Valid() && b.OnHalfHour() && b.offsetSeconds == time.offsetSeconds
    requires HalfHourNanos < b.local.EpochNano() - time.local.EpochNano() <= 2 * HalfHourNanos
    ensures b == SnapToNextHalfHour(time)
  {
    BoundaryUnique(b, SnapToNextHalfHour(time), time.local.EpochNano() + HalfHourNanos);
  }

  /** 10:15 snaps to 11:00, 10:45 to 11:30, and 23:45 to 00:30 of the next day. */
  lemma SnapExamples(d: int, offset: int)
    ensures SnapToNextHalfHour(OffsetDateTime(LocalDateTime(d, 10, 15, 0, 0), offset))
         == OffsetDateTime(LocalDateTime(d, 11, 0, 0, 0), offset)
    ensures SnapToNextHalfHour(OffsetDateTime(LocalDateTime(d, 10, 45, 0, 0), offset))
         == OffsetDateTime(LocalDateTime(d, 11, 30, 0, 0), offset)
    ensures SnapToNextHalfHour(OffsetDateTime(LocalDateTime(d, 23, 45, 0, 0), offset))
         == OffsetDateTime(LocalDateTime(d + 1, 0, 30, 0, 0), offset)
  {
    SnapUnique(OffsetDateTime(LocalDateTime(d, 10, 15, 0, 0), offset), OffsetDateTime(LocalDateTime(d, 11, 0, 0, 0), offset));
    SnapUnique(OffsetDateTime(LocalDateTime(d, 10, 45, 0, 0), offset), OffsetDateTime(LocalDateTime(d, 11, 30, 0, 0), offset));
    SnapUnique(OffsetDateTime(LocalDateTime(d, 23, 45, 0, 0), offset), OffsetDateTime(LocalDateTime(d + 1, 0, 30, 0, 0), offset));
  }

  /** The range searched: from the snapped instant to `searchWindowHours` later. */
  function SearchRange(settings: Settings, now: OffsetDateTime): (r: (OffsetDateTime, OffsetDateTime))
    requires now.Valid()
    ensures r.0 == SnapToNextHalfHour(now)
    ensures r.1.Valid() && r.1.offsetSeconds == now.offsetSeconds
    ensures r.1.local.EpochNano() - r.0.local.EpochNano() == settings.searchWindowHours * 2 * HalfHourNanos
  {
    var start := SnapToNextHalfHour(now);
    (start, start.PlusHours(settings.searchWindowHours))
  }

  // ---------------------------------------------------------------- the charging window

  /** Intervals per window: two 30-minute intervals per hour, computed in Java `int`. */
  function WindowSize(numberOfHours: int): (w: int)
    ensures IsInt32(w)
    ensures 1 <= numberOfHours < 0x4000_0000 ==> w == 2 * numberOfHours
  {
    Wrap32(numberOfHours * 2)
  }

  /** The scan of `calculateOptimalWindow` for a window size of 0 or less, in Java `int`
      arithmetic: the loop bound `size - windowSize` may overflow to a negative number, in
      which case the loop never runs. Otherwise the inner loop `j < windowSize` stops at once,
      so every window is empty with sum 0: start 0 beats -1.0 and no later start beats 0. */
  method ScanEmptyWindows(intervals: seq<GenerationData>, windowSize: int)
    returns (bestStartIndex: int, maxTotalPerc: real)
    requires |intervals| <= Int32Max && Int32Min <= windowSize <= 0
    requires |intervals| - windowSize != Int32Max
    ensures bestStartIndex == -1 <==> Wrap32(|intervals| - windowSize) < 0
    ensures bestStartIndex != -1 ==> bestStartIndex == 0 && maxTotalPerc == 0.0
  {
    maxTotalPerc := -1.0;
    bestStartIndex := -1;
    var bound := Wrap32(|intervals| - windowSize);
    var i := 0;
    while i <= bound
      invariant 0 <= i && (i == 0 || i <= bound + 1)
      invariant bestStartIndex == (if i == 0 then -1 else 0)
      invariant maxTotalPerc == (if i == 0 then -1.0 else 0.0)
      decreases bound - i
    {
      // The inner loop's guard `0 < windowSize` is false, so the window's sum stays 0.
      var currentSum := 0.0;
      if currentSum > maxTotalPerc {
        maxTotalPerc := currentSum;
        bestStartIndex := i;
      }
      i := Wrap32(i + 1);
    }
  }

  /** The bound `size - windowSize` of a non-positive window size turns negative exactly when
      the subtraction overflows Java `int`. */
  lemma EmptyWindowBound(size: int, windowSize: int)
    requires 0 <= size <= Int32Max && Int32Min <= windowSize <= 0
    ensures Wrap32(size - windowSize) < 0 <==> Int32Max < size - windowSize
  {
    if Int32Max < size - windowSize {
      assert Wrap32(size - windowSize) == size - windowSize - 0x1_0000_0000;
    }
  }

  /** `calculateOptimalWindow`: the first window with the largest clean sum, reported by its
      first `from`, its last `to` and its rounded mean clean share; an error when no window's
      sum exceeds -1.0. A window size of 0 or less never succeeds: either the loop does not
      run, or start 0 is chosen and one of the two `get` calls is out of bounds. */
  method CalculateOptimalWindow(intervals: seq<GenerationData>, windowSize: int)
    returns (r: Result<OptimalWindowDto, ServiceError>)
    requires |intervals| <= Int32Max && IsInt32(windowSize)
    requires windowSize <= 0 ==> |intervals| - windowSize != Int32Max
    ensures windowSize >= 1 && r.Success? ==>
      exists k :: IsFirstArgmax(intervals, windowSize, k) && r.value == WindowDto(intervals, windowSize, k)
    ensures windowSize >= 1 && r.Failure? ==> r.error == IllegalArgumentException(NoWindowMessage)
    ensures windowSize >= 1 ==> (r.Success? <==> BeatsInitial(intervals, windowSize))
    ensures windowSize <= 0 ==> r.Failure?
    ensures windowSize <= 0 ==>
      (r.error == IllegalArgumentException(NoWindowMessage) <==> Wrap32(|intervals| - windowSize) < 0)
    ensures windowSize <= 0 && r.error != IllegalArgumentException(NoWindowMessage) ==>
      r.error == IndexOutOfBoundsException
  {
    var bestStartIndex, maxTotalPerc;
    if windowSize <= 0 {
      bestStartIndex, maxTotalPerc := ScanEmptyWindows(intervals, windowSize);
    } else {
      bestStartIndex, maxTotalPerc := ScanWindows(intervals, windowSize);
    }
    if bestStartIndex == -1 {
      return Failure(IllegalArgumentException(NoWindowMessage));
    }
    var endIndex := Wrap32(bestStartIndex + windowSize - 1);
    if !(0 <= bestStartIndex < |intervals|) || !(0 <= endIndex < |intervals|) {
      return Failure(IndexOutOfBoundsException);
    }
    var startInterval := intervals[bestStartIndex];
    var endInterval := intervals[endIndex];
    var averagePerc := maxTotalPerc / windowSize as real;
    r := Success(OptimalWindowDto(startInterval.from.text, endInterval.to.text, Round2(averagePerc)));
    assert r.value == WindowDto(intervals, windowSize, bestStartIndex);
  }

  /** `findOptimalChargingWindow` after the fetch: the empty-answer error, then the size check
      "fewer intervals than the window", then the scan. */
  method FindOptimalChargingWindow(numberOfHours: int, fetched: Option<CarbonIntensityResponse>)
    returns (r: Result<OptimalWindowDto, ServiceError>)
    requires IsInt32(numberOfHours)
    requires fetched.Some? && fetched.value.data.Some? ==>
      var size, w := |fetched.value.data.value|, WindowSize(numberOfHours);
      size <= Int32Max && (w <= 0 ==> size - w != Int32Max)
    ensures fetched.None? || fetched.value.data.None? ==> r == Failure(ExternalApiException(EmptyDataMessage))
    ensures fetched.Some? && fetched.value.data.Some? ==>
      var s, w := fetched.value.data.value, WindowSize(numberOfHours);
      && (1 <= w && |s| < w ==> r == Failure(IllegalArgumentException(NotEnoughDataMessage)))
      && (1 <= w <= |s| && !BeatsInitial(s, w) ==> r == Failure(IllegalArgumentException(NoWindowMessage)))
      && (1 <= w <= |s| && BeatsInitial(s, w) ==>
            r.Success? && exists k :: IsFirstArgmax(s, w, k) && r.value == WindowDto(s, w, k))
      && (w <= 0 ==> r.Failure?)
      && (w <= 0 ==> (r.error == IllegalArgumentException(NoWindowMessage) <==> Wrap32(|s| - w) < 0))
      && (w <= 0 && r.error != IllegalArgumentException(NoWindowMessage) ==> r.error == IndexOutOfBoundsException)
  {
    var response := GetCarbonIntensityResponse(fetched);
    if response.Failure? {
      return Failure(response.error);
    }
    var intervals := response.value.data.value;
    var windowSize := WindowSize(numberOfHours);
    if |intervals| < windowSize {
      return Failure(IllegalArgumentException(NotEnoughDataMessage));
    }
    r := CalculateOptimalWindow(intervals, windowSize);
  }

  /** With non-negative percentages a window that fits always beats -1.0, so for 1 to 6 hours
      and enough intervals the search succeeds: the "could not find" error is unreachable. */
  lemma NonNegativeWindowFound(intervals: seq<GenerationData>, numberOfHours: int)
    requires 1 <= numberOfHours <= 6 && 2 * numberOfHours <= |intervals|
    requires forall i :: 0 <= i < |intervals| ==> NonNegativeMix(intervals[i].generationMix)
    ensures BeatsInitial(intervals, WindowSize(numberOfHours))
  {
    NonNegativeBeatsInitial(intervals, WindowSize(numberOfHours));
  }

  /** The three intervals of the service test (WIND 80/GAS 20, WIND 90/GAS 10, WIND 10/GAS 90)
      with one hour: the two-interval window at 0 wins with mean 85.0, reported from the first
      interval's `from` to the second interval's `to`. */
  method OneHourScenario(i0: GenerationData, i1: GenerationData, i2: GenerationData)
    returns (r: Result<OptimalWindowDto, ServiceError>)
    requires i0.generationMix == [Fuel(WIND, 80.0), Fuel(GAS, 20.0)]
    requires i1.generationMix == [Fuel(WIND, 90.0), Fuel(GAS, 10.0)]
    requires i2.generationMix == [Fuel(WIND, 10.0), Fuel(GAS, 90.0)]
    ensures r == Success(OptimalWindowDto(i0.from.text, i1.to.text, 85.0))
  {
    var s := [i0, i1, i2];
    ScenarioSums(i0, i1, i2);
    assert IsStart(s, 2, 0) && WindowSum(s, 0, 2) > -1.0;
    r := FindOptimalChargingWindow(1, Some(CarbonIntensityResponse(Some(s))));
    ghost var k :| IsFirstArgmax(s, 2, k) && r.value == WindowDto(s, 2, k);
    assert k == 0;
    Round2Exact(85.0);
  }

  lemma ScenarioSums(i0: GenerationData, i1: GenerationData, i2: GenerationData)
    requires i0.generationMix == [Fuel(WIND, 80.0), Fuel(GAS, 20.0)]
    requires i1.generationMix == [Fuel(WIND, 90.0), Fuel(GAS, 10.0)]
    requires i2.generationMix == [Fuel(WIND, 10.0), Fuel(GAS, 90.0)]
    ensures WindowSum([i0, i1, i2], 0, 2) == 170.0
    ensures WindowSum([i0, i1, i2], 1, 2) == 100.0
  {
    var s := [i0, i1, i2];
    TwoEntryShare(80.0, 20.0);
    TwoEntryShare(90.0, 10.0);
    TwoEntryShare(10.0, 90.0);
    assert WindowSum(s, 0, 1) == 80.0;
    assert WindowSum(s, 1, 1) == 90.0;
  }

  lemma TwoEntryShare(wind: real, gas: real)
    ensures CleanShare([Fuel(WIND, wind), Fuel(GAS, gas)]) == wind
  {
    assert [Fuel(WIND, wind), Fuel(GAS, gas)][..1] == [Fuel(WIND, wind)];
    assert [Fuel(WIND, wind)][..0] == [];
    assert IsClean(WIND) && !IsClean(GAS);
    assert CleanShare([Fuel(WIND, wind)]) == wind;
  }
}
