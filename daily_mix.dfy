/** The daily generation mix: intervals from today on, grouped by the date they start on,
    each fuel averaged over the day, metrics sorted by average, days in date order. */
module DailyMix {
  import opened FuelTypes
  import opened CleanFuels
  import opened Records
  import opened Rounding

  // ---------------------------------------------------------------- filtering and grouping

  /** The intervals whose start date is not before `today`, in input order. */
  function FromToday(data: seq<GenerationData>, today: Date): (r: seq<GenerationData>)
    ensures forall g :: g in r <==> g in data && g.from.date >= today
  {
    if data == [] then []
    else
      var last := data[|data| - 1];
      assert data == data[..|data| - 1] + [last];
      FromToday(data[..|data| - 1], today) + (if last.from.date >= today then [last] else [])
  }

  /** The intervals that start on date `d`, in input order: one group of the grouping. */
  function OnDate(data: seq<GenerationData>, d: Date): seq<GenerationData>
  {
    if data == [] then []
    else
      var last := data[|data| - 1];
      OnDate(data[..|data| - 1], d) + (if last.from.date == d then [last] else [])
  }

  /** A group holds exactly the intervals of its date, each as often as it occurs in the data. */
  lemma {:induction false} OnDateMembers(data: seq<GenerationData>, d: Date)
    ensures forall g :: g in OnDate(data, d) <==> g in data && g.from.date == d
    ensures forall g :: multiset(OnDate(data, d))[g] == (if g.from.date == d then multiset(data)[g] else 0)
  {
    if data != [] {
      var init, last := data[..|data| - 1], data[|data| - 1];
      OnDateMembers(init, d);
      assert data == init + [last];
      assert multiset(data) == multiset(init) + multiset{last};
    }
  }

  predicate StrictlyIncreasing(xs: seq<Date>)
  {
    forall i, j :: 0 <= i < j < |xs| ==> xs[i] < xs[j]
  }

  /** Adds a date to an ascending list of distinct dates. */
  function InsertDate(xs: seq<Date>, d: Date): (r: seq<Date>)
    requires StrictlyIncreasing(xs)
    ensures StrictlyIncreasing(r)
    ensures forall e :: e in r <==> e in xs || e == d
  {
    if xs == [] then [d]
    else if d < xs[0] then [d] + xs
    else if d == xs[0] then xs
    else
      var rest := InsertDate(xs[1..], d);
      assert forall e :: e in rest ==> xs[0] < e;
      var r := [xs[0]] + rest;
      assert forall i, j :: 0 <= i < j < |r| ==> r[i] < r[j] by {
        forall i, j | 0 <= i < j < |r| ensures r[i] < r[j] {
          assert r[j] == rest[j - 1] && r[j] in rest;
          if i > 0 { assert r[i] == rest[i - 1]; }
        }
      }
      assert xs == [xs[0]] + xs[1..];
      r
  }

  /** The distinct start dates of the intervals, ascending: the grouping's key set sorted. */
  function SortedDates(data: seq<GenerationData>): (r: seq<Date>)
    ensures StrictlyIncreasing(r)
    ensures forall d :: d in r <==> exists g :: g in data && g.from.date == d
  {
    if data == [] then []
    else
      var last := data[|data| - 1];
      assert data == data[..|data| - 1] + [last];
      InsertDate(SortedDates(data[..|data| - 1]), last.from.date)
  }

  // ---------------------------------------------------------------- averaging

  /** Every fuel entry of a group of intervals, in order (the flatMap). */
  function Entries(group: seq<GenerationData>): seq<Fuel>
  {
    if group == [] then [] else Entries(group[..|group| - 1]) + group[|group| - 1].generationMix
  }

  /** The percentages reported for fuel type `ft` among the entries, in order. */
  function PercentagesOf(entries: seq<Fuel>, ft: FuelType): seq<real>
  {
    if entries == [] then []
    else
      var last := entries[|entries| - 1];
      PercentagesOf(entries[..|entries| - 1], ft) + (if last.fuelType == ft then [last.percentage] else [])
  }

  /** The fuel types that occur among the entries. */
  function Present(entries: seq<Fuel>): (s: set<FuelType>)
    ensures forall ft :: ft in s <==> |PercentagesOf(entries, ft)| > 0
  {
    if entries == [] then {}
    else Present(entries[..|entries| - 1]) + {entries[|entries| - 1].fuelType}
  }

  function Sum(xs: seq<real>): real
  {
    if xs == [] then 0.0 else Sum(xs[..|xs| - 1]) + xs[|xs| - 1]
  }

  /** The arithmetic mean, as `averagingDouble` computes it. */
  function Mean(xs: seq<real>): real
    requires |xs| > 0
  {
    Sum(xs) / |xs| as real
  }

  /** For each fuel type occurring in a day's intervals, the mean of its percentages over all
      of that day's entries; fuel types that do not occur have no entry (they are not zeros). */
  function AverageByFuel(group: seq<GenerationData>): (m: map<FuelType, real>)
    ensures forall ft :: ft in m <==> |PercentagesOf(Entries(group), ft)| > 0
    ensures forall ft :: ft in m ==> m[ft] == Mean(PercentagesOf(Entries(group), ft))
  {
    var entries := Entries(group);
    map ft | ft in Present(entries) :: Mean(PercentagesOf(entries, ft))
  }

  predicate Within(xs: seq<real>, lo: real, hi: real)
  {
    forall i :: 0 <= i < |xs| ==> lo <= xs[i] <= hi
  }

  predicate PercentagesWithin(entries: seq<Fuel>, lo: real, hi: real)
  {
    forall i :: 0 <= i < |entries| ==> lo <= entries[i].percentage <= hi
  }

  /** Values between `lo` and `hi` have a sum between `n * lo` and `n * hi`. */
  lemma {:induction false} SumBounds(xs: seq<real>, lo: real, hi: real)
    requires Within(xs, lo, hi)
    ensures |xs| as real * lo <= Sum(xs) <= |xs| as real * hi
  {
    if xs != [] {
      var init, last := xs[..|xs| - 1], xs[|xs| - 1];
      assert Within(init, lo, hi) by {
        forall i | 0 <= i < |init| ensures lo <= init[i] <= hi {
          assert init[i] == xs[i];
        }
      }
      SumBounds(init, lo, hi);
      var m := |init| as real;
      assert |xs| as real * lo == m * lo + lo && |xs| as real * hi == m * hi + hi;
      assert lo <= last <= hi;
    }
  }

  /** The mean of values between `lo` and `hi` lies between them too. */
  lemma MeanBounds(xs: seq<real>, lo: real, hi: real)
    requires |xs| > 0 && Within(xs, lo, hi)
    ensures lo <= Mean(xs) <= hi
  {
    SumBounds(xs, lo, hi);
    var n := |xs| as real;
    assert Mean(xs) * n == Sum(xs);
  }

  /** Every percentage collected for a fuel type is the percentage of one of the entries. */
  lemma {:induction false} PercentagesFromEntries(entries: seq<Fuel>, ft: FuelType, lo: real, hi: real)
    requires PercentagesWithin(entries, lo, hi)
    ensures Within(PercentagesOf(entries, ft), lo, hi)
  {
    if entries != [] {
      var init, last := entries[..|entries| - 1], entries[|entries| - 1];
      assert PercentagesWithin(init, lo, hi) by {
        forall i | 0 <= i < |init| ensures lo <= init[i].percentage <= hi {
          assert init[i] == entries[i];
        }
      }
      PercentagesFromEntries(init, ft, lo, hi);
      var prev, ps := PercentagesOf(init, ft), PercentagesOf(entries, ft);
      if last.fuelType == ft {
        assert ps == prev + [last.percentage];
        forall i | 0 <= i < |ps| ensures lo <= ps[i] <= hi {
          if i < |prev| { assert ps[i] == prev[i]; }
        }
      } else {
        assert ps == prev;
      }
    }
  }

  /** The entries of a group are those of its intervals' mixes. */
  lemma {:induction false} EntriesBounds(group: seq<GenerationData>, lo: real, hi: real)
    requires forall g :: g in group ==> PercentagesWithin(g.generationMix, lo, hi)
    ensures PercentagesWithin(Entries(group), lo, hi)
  {
    if group != [] {
      var init, last := group[..|group| - 1], group[|group| - 1];
      assert group == init + [last];
      EntriesBounds(init, lo, hi);
      var e, prev := Entries(group), Entries(init);
      assert e == prev + last.generationMix;
      forall i | 0 <= i < |e| ensures lo <= e[i].percentage <= hi {
        if i >= |prev| {
          assert e[i] == last.generationMix[i - |prev|];
        } else {
          assert e[i] == prev[i];
        }
      }
    }
  }

  /** When every reported percentage of a day lies between `lo` and `hi` (between 0 and 100
      for a well-formed feed), so does every fuel type's average for that day. */
  lemma AverageByFuelBounds(group: seq<GenerationData>, lo: real, hi: real)
    requires forall g :: g in group ==> PercentagesWithin(g.generationMix, lo, hi)
    ensures var m := AverageByFuel(group); forall ft :: ft in m ==> lo <= m[ft] <= hi
  {
    EntriesBounds(group, lo, hi);
    MeansBounds(AverageByFuel(group), Entries(group), lo, hi);
  }

  /** A map from fuel types to the means of their percentages among bounded entries is bounded. */
  lemma MeansBounds(m: map<FuelType, real>, e: seq<Fuel>, lo: real, hi: real)
    requires PercentagesWithin(e, lo, hi)
    requires forall ft :: ft in m ==> |PercentagesOf(e, ft)| > 0 && m[ft] == Mean(PercentagesOf(e, ft))
    ensures forall ft :: ft in m ==> lo <= m[ft] <= hi
  {
    forall ft | ft in m ensures lo <= m[ft] <= hi {
      PercentagesFromEntries(e, ft, lo, hi);
      MeanBounds(PercentagesOf(e, ft), lo, hi);
    }
  }

  // ---------------------------------------------------------------- one day's summary

  datatype FuelAverage = FuelAverage(fuelType: FuelType, average: real)

  predicate DistinctTypes(xs: seq<FuelAverage>)
  {
    forall i, j :: 0 <= i < j < |xs| ==> xs[i].fuelType != xs[j].fuelType
  }

  predicate NonIncreasing(xs: seq<FuelAverage>)
  {
    forall i, j :: 0 <= i < j < |xs| ==> xs[i].average >= xs[j].average
  }

  /** The map's entries, one per key. */
  function MapEntries(avg: map<FuelType, real>): (r: seq<FuelAverage>)
    ensures forall x :: x in r <==> x.fuelType in avg && x.average == avg[x.fuelType]
    ensures DistinctTypes(r)
  {
    var keys := IterationOrder(avg.Keys);
    IterationOrderFacts(avg.Keys);
    assert forall i, j :: 0 <= i < j < |keys| ==> Ordinal(keys[i]) < Ordinal(keys[j]);
    var r := seq(|keys|, k requires 0 <= k < |keys| => FuelAverage(keys[k], avg[keys[k]]));
    forall x: FuelAverage | x.fuelType in avg && x.average == avg[x.fuelType] ensures x in r {
      var k :| 0 <= k < |keys| && keys[k] == x.fuelType;
      assert r[k] == x;
    }
    r
  }

  /** Places `x` before the first entry whose average is not larger, so that an earlier
      entry stays ahead of later ones with the same average (`SortDescendingStable`). */
  function InsertByAverage(x: FuelAverage, sorted: seq<FuelAverage>): (r: seq<FuelAverage>)
    ensures forall y :: y in r <==> y == x || y in sorted
    ensures multiset(r) == multiset(sorted) + multiset{x}
  {
    if sorted == [] || sorted[0].average <= x.average then [x] + sorted
    else
      assert sorted == [sorted[0]] + sorted[1..];
      [sorted[0]] + InsertByAverage(x, sorted[1..])
  }

  /** Sorting by average, largest first. */
  function SortDescending(xs: seq<FuelAverage>): (r: seq<FuelAverage>)
    ensures forall y :: y in r <==> y in xs
    ensures multiset(r) == multiset(xs)
  {
    if xs == [] then []
    else
      assert xs == [xs[0]] + xs[1..];
      InsertByAverage(xs[0], SortDescending(xs[1..]))
  }

  lemma {:induction false} InsertByAverageSorted(x: FuelAverage, sorted: seq<FuelAverage>)
    requires NonIncreasing(sorted)
    ensures NonIncreasing(InsertByAverage(x, sorted))
  {
    if sorted == [] || sorted[0].average <= x.average {
      forall i | 0 <= i < |sorted| ensures sorted[i].average <= x.average {
        assert sorted[i].average <= sorted[0].average;
      }
      PrependLargest(x, sorted);
    } else {
      var tail := sorted[1..];
      InsertByAverageSorted(x, tail);
      var rest := InsertByAverage(x, tail);
      forall i | 0 <= i < |rest| ensures rest[i].average <= sorted[0].average {
        assert rest[i] in rest;
        if rest[i] != x {
          var k :| 0 <= k < |tail| && tail[k] == rest[i];
          assert sorted[k + 1] == rest[i];
        }
      }
      PrependLargest(sorted[0], rest);
    }
  }

  /** An entry at least as large as every entry of a non-increasing list can go in front. */
  lemma PrependLargest(h: FuelAverage, rest: seq<FuelAverage>)
    requires NonIncreasing(rest)
    requires forall i :: 0 <= i < |rest| ==> rest[i].average <= h.average
    ensures NonIncreasing([h] + rest)
  {
    var r := [h] + rest;
    forall i, j | 0 <= i < j < |r| ensures r[i].average >= r[j].average {
      assert r[j] == rest[j - 1];
      if i > 0 { assert r[i] == rest[i - 1]; }
    }
  }

  lemma {:induction false} InsertByAverageDistinct(x: FuelAverage, sorted: seq<FuelAverage>)
    requires DistinctTypes(sorted)
    requires forall y :: y in sorted ==> y.fuelType != x.fuelType
    ensures DistinctTypes(InsertByAverage(x, sorted))
  {
    var r := InsertByAverage(x, sorted);
    if sorted == [] || sorted[0].average <= x.average {
      forall i, j | 0 <= i < j < |r| ensures r[i].fuelType != r[j].fuelType {
        assert r[j] == sorted[j - 1];
        if i > 0 { assert r[i] == sorted[i - 1]; }
      }
    } else {
      var tail := sorted[1..];
      InsertByAverageDistinct(x, tail);
      var rest := InsertByAverage(x, tail);
      forall i, j | 0 <= i < j < |r| ensures r[i].fuelType != r[j].fuelType {
        assert r[j] == rest[j - 1];
        if i == 0 {
          assert r[j] in rest;
          if r[j] != x {
            var k :| 0 <= k < |tail| && tail[k] == r[j];
            assert sorted[k + 1] == r[j];
          }
        } else {
          assert r[i] == rest[i - 1];
        }
      }
    }
  }

  /** The sort yields a non-increasing permutation of its input, and keeps fuel types distinct. */
  lemma {:induction false} SortDescendingFacts(xs: seq<FuelAverage>)
    ensures NonIncreasing(SortDescending(xs))
    ensures DistinctTypes(xs) ==> DistinctTypes(SortDescending(xs))
  {
    if xs != [] {
      var tail := xs[1..];
      SortDescendingFacts(tail);
      InsertByAverageSorted(xs[0], SortDescending(tail));
      if DistinctTypes(xs) {
        forall y | y in SortDescending(tail) ensures y.fuelType != xs[0].fuelType {
          var k :| 0 <= k < |tail| && tail[k] == y;
          assert xs[k + 1] == y;
        }
        assert DistinctTypes(tail) by {
          forall i, j | 0 <= i < j < |tail| ensures tail[i].fuelType != tail[j].fuelType {
            assert tail[i] == xs[i + 1] && tail[j] == xs[j + 1];
          }
        }
        InsertByAverageDistinct(xs[0], SortDescending(tail));
      }
    }
  }

  /** The entries whose average is `v`, in order. */
  function WithAverage(xs: seq<FuelAverage>, v: real): seq<FuelAverage>
  {
    if xs == [] then [] else (if xs[0].average == v then [xs[0]] else []) + WithAverage(xs[1..], v)
  }

  /** Inserting passes only entries with a larger average, so among the entries of any one
      average the inserted one comes first. */
  lemma {:induction false} InsertByAverageStable(x: FuelAverage, sorted: seq<FuelAverage>, v: real)
    ensures WithAverage(InsertByAverage(x, sorted), v) == WithAverage([x] + sorted, v)
  {
    assert ([x] + sorted)[1..] == sorted;
    if sorted != [] && sorted[0].average > x.average {
      var tail := sorted[1..];
      InsertByAverageStable(x, tail, v);
      assert ([sorted[0]] + InsertByAverage(x, tail))[1..] == InsertByAverage(x, tail);
      assert ([x] + tail)[1..] == tail;
    }
  }

  /** The sort is stable: the entries of any one average come out in their input order, as
      `sorted` keeps the encounter order of an ordered stream. */
  lemma {:induction false} SortDescendingStable(xs: seq<FuelAverage>, v: real)
    ensures WithAverage(SortDescending(xs), v) == WithAverage(xs, v)
  {
    if xs != [] {
      SortDescendingStable(xs[1..], v);
      InsertByAverageStable(xs[0], SortDescending(xs[1..]), v);
      assert ([xs[0]] + SortDescending(xs[1..]))[1..] == SortDescending(xs[1..]);
    }
  }

  /** The day's metrics: each fuel type of the map with its average rounded, largest first. */
  function Metrics(avg: map<FuelType, real>): seq<FuelDto>
  {
    Rounded(SortDescending(MapEntries(avg)))
  }

  /** Each average rounded to two decimals, in the same order. */
  function Rounded(xs: seq<FuelAverage>): (r: seq<FuelDto>)
    ensures |r| == |xs|
    ensures forall k :: 0 <= k < |xs| ==> r[k] == FuelDto(xs[k].fuelType, Round2(xs[k].average))
  {
    if xs == [] then [] else [FuelDto(xs[0].fuelType, Round2(xs[0].average))] + Rounded(xs[1..])
  }

  /** The metrics are in non-increasing order of rounded percentage. */
  lemma MetricsSorted(avg: map<FuelType, real>)
    ensures var r := Metrics(avg);
      forall i, j :: 0 <= i < j < |r| ==> r[i].percentage >= r[j].percentage
  {
    var sorted := SortDescending(MapEntries(avg));
    SortDescendingFacts(MapEntries(avg));
    var metrics := Rounded(sorted);
    forall i, j | 0 <= i < j < |metrics| ensures metrics[i].percentage >= metrics[j].percentage {
      Round2Monotone(sorted[j].average, sorted[i].average);
    }
  }

  /** The metrics name each fuel type of the map exactly once. */
  lemma MetricsCoverKeys(avg: map<FuelType, real>)
    ensures var r := Metrics(avg);
      && (forall i, j :: 0 <= i < j < |r| ==> r[i].fuelType != r[j].fuelType)
      && (forall ft :: ft in avg ==> exists i :: 0 <= i < |r| && r[i].fuelType == ft)
  {
    var entries := MapEntries(avg);
    var sorted := SortDescending(entries);
    SortDescendingFacts(entries);
    var metrics := Rounded(sorted);
    forall i, j | 0 <= i < j < |metrics| ensures metrics[i].fuelType != metrics[j].fuelType {
      assert metrics[i].fuelType == sorted[i].fuelType && metrics[j].fuelType == sorted[j].fuelType;
    }
    forall ft | ft in avg ensures exists i :: 0 <= i < |metrics| && metrics[i].fuelType == ft {
      var x := FuelAverage(ft, avg[ft]);
      assert x in sorted;
      var i :| 0 <= i < |sorted| && sorted[i] == x;
      assert metrics[i].fuelType == ft;
    }
  }

  /** Each metric is a fuel type of the map with its average rounded to two decimals. */
  lemma MetricsValues(avg: map<FuelType, real>)
    ensures var r := Metrics(avg);
      forall i :: 0 <= i < |r| ==> r[i].fuelType in avg && r[i].percentage == Round2(avg[r[i].fuelType])
  {
    var entries := MapEntries(avg);
    var sorted := SortDescending(entries);
    var metrics := Rounded(sorted);
    forall i | 0 <= i < |metrics|
      ensures metrics[i].fuelType in avg && metrics[i].percentage == Round2(avg[metrics[i].fuelType])
    {
      assert sorted[i] in entries;
    }
  }

  function GetOrZero(avg: map<FuelType, real>, ft: FuelType): real
  {
    if ft in avg then avg[ft] else 0.0
  }

  /** Sum over the given fuel types of their averages, absent ones counting as 0. */
  function SumOver(avg: map<FuelType, real>, fts: seq<FuelType>): real
  {
    if fts == [] then 0.0 else SumOver(avg, fts[..|fts| - 1]) + GetOrZero(avg, fts[|fts| - 1])
  }

  /** The sum of the clean fuels' unrounded averages, added in CLEAN's iteration order,
      a clean fuel absent from the day counting as 0. */
  function CleanSum(avg: map<FuelType, real>): (r: real)
    ensures r == GetOrZero(avg, BIOMASS) + GetOrZero(avg, NUCLEAR) + GetOrZero(avg, HYDRO)
                 + GetOrZero(avg, WIND) + GetOrZero(avg, SOLAR)
  {
    CleanIterationOrder();
    SumOverCleanOrder(avg);
    SumOver(avg, IterationOrder(Clean))
  }

  lemma SumOverCleanOrder(avg: map<FuelType, real>)
    ensures SumOver(avg, [BIOMASS, NUCLEAR, HYDRO, WIND, SOLAR])
         == GetOrZero(avg, BIOMASS) + GetOrZero(avg, NUCLEAR) + GetOrZero(avg, HYDRO)
            + GetOrZero(avg, WIND) + GetOrZero(avg, SOLAR)
  {
    var s1, s2, s3, s4 := [BIOMASS], [BIOMASS, NUCLEAR], [BIOMASS, NUCLEAR, HYDRO], [BIOMASS, NUCLEAR, HYDRO, WIND];
    var s5 := [BIOMASS, NUCLEAR, HYDRO, WIND, SOLAR];
    assert s1[..0] == [];
    assert SumOver(avg, s1) == GetOrZero(avg, BIOMASS);
    assert s2[..1] == s1;
    assert SumOver(avg, s2) == SumOver(avg, s1) + GetOrZero(avg, NUCLEAR);
    assert s3[..2] == s2;
    assert SumOver(avg, s3) == SumOver(avg, s2) + GetOrZero(avg, HYDRO);
    assert s4[..3] == s3;
    assert SumOver(avg, s4) == SumOver(avg, s3) + GetOrZero(avg, WIND);
    assert s5[..4] == s4;
    assert SumOver(avg, s5) == SumOver(avg, s4) + GetOrZero(avg, SOLAR);
  }

  /** One day's summary. */
  function ToDailyMixDto(day: Date, avg: map<FuelType, real>): (r: DailyMixDto)
    ensures r.date == day
  {
    DailyMixDto(day, Metrics(avg), Round2(CleanSum(avg)))
  }

  // ---------------------------------------------------------------- all days

  /** The dates on which some interval starts. */
  function StartDates(data: seq<GenerationData>): set<Date>
  {
    set g | g in data :: g.from.date
  }

  /** The dates of the groups, ascending: the distinct start dates from `today` on. */
  function Days(data: seq<GenerationData>, today: Date): (ds: seq<Date>)
    ensures StrictlyIncreasing(ds)
    ensures forall d :: d in ds <==> d in StartDates(data) && d >= today
  {
    var kept := FromToday(data, today);
    var ds := SortedDates(kept);
    forall d | d in ds ensures d in StartDates(data) && d >= today {
      var g :| g in kept && g.from.date == d;
    }
    forall d | d in StartDates(data) && d >= today ensures d in ds {
      var g :| g in data && g.from.date == d;
      assert g in kept;
    }
    ds
  }

  /** The summary of the intervals of `data` that start on date `d`. */
  function DaySummary(data: seq<GenerationData>, d: Date): (r: DailyMixDto)
    ensures r.date == d
  {
    ToDailyMixDto(d, AverageByFuel(OnDate(data, d)))
  }

  /** The summary of each of the dates `ds`, in the same order. */
  function Summaries(data: seq<GenerationData>, ds: seq<Date>): (r: seq<DailyMixDto>)
    ensures |r| == |ds|
    ensures forall k :: 0 <= k < |ds| ==> r[k] == DaySummary(data, ds[k])
    ensures forall k :: 0 <= k < |ds| ==> r[k].date == ds[k]
  {
    seq(|ds|, k requires 0 <= k < |ds| => DaySummary(data, ds[k]))
  }

  /** The summaries of the days from `today` on, ascending by date: one per date from
      `today` on on which some interval starts, each summarising that date's intervals. */
  function CalculateAveragesAndPercentage(data: seq<GenerationData>, today: Date): (r: seq<DailyMixDto>)
    ensures forall i, j :: 0 <= i < j < |r| ==> r[i].date < r[j].date
    ensures forall k :: 0 <= k < |r| ==> r[k].date in StartDates(data) && r[k].date >= today
    ensures forall d :: d in StartDates(data) && d >= today ==> exists k :: 0 <= k < |r| && r[k].date == d
    ensures forall k :: 0 <= k < |r| ==> r[k] == DaySummary(FromToday(data, today), r[k].date)
  {
    var ds := Days(data, today);
    var r := Summaries(FromToday(data, today), ds);
    DatedInOrder(ds, r, StartDates(data), today);
    r
  }

  /** Entries dated by the ascending list of the start dates from `today` on are ascending,
      dated from `today` on, and cover every such start date. */
  lemma DatedInOrder(ds: seq<Date>, r: seq<DailyMixDto>, starts: set<Date>, today: Date)
    requires StrictlyIncreasing(ds)
    requires forall d :: d in ds <==> d in starts && d >= today
    requires |r| == |ds| && forall k :: 0 <= k < |ds| ==> r[k].date == ds[k]
    ensures forall i, j :: 0 <= i < j < |r| ==> r[i].date < r[j].date
    ensures forall k :: 0 <= k < |r| ==> r[k].date in starts && r[k].date >= today
    ensures forall d :: d in starts && d >= today ==> exists k :: 0 <= k < |r| && r[k].date == d
  {
    forall k | 0 <= k < |r| ensures r[k].date in starts && r[k].date >= today {
      assert ds[k] in ds;
    }
    forall d | d in starts && d >= today ensures exists k :: 0 <= k < |r| && r[k].date == d {
      var k :| 0 <= k < |ds| && ds[k] == d;
      assert r[k].date == ds[k];
    }
  }

  /** Each day's summary is that of all the intervals starting on that day: the filter
      drops none of them. */
  lemma DaySummaryFromToday(data: seq<GenerationData>, today: Date, d: Date)
    requires d >= today
    ensures DaySummary(FromToday(data, today), d) == DaySummary(data, d)
  {
    OnDateFromToday(data, today, d);
  }

  /** Grouping after the filter gives a day from `today` on all of its intervals. */
  lemma {:induction false} OnDateFromToday(data: seq<GenerationData>, today: Date, d: Date)
    requires d >= today
    ensures OnDate(FromToday(data, today), d) == OnDate(data, d)
  {
    if data != [] {
      var init, last := data[..|data| - 1], data[|data| - 1];
      OnDateFromToday(init, today, d);
      var kept := FromToday(init, today);
      if last.from.date >= today {
        assert FromToday(data, today) == kept + [last];
        assert (kept + [last])[..|kept + [last]| - 1] == kept;
      } else {
        assert FromToday(data, today) == kept;
        assert last.from.date != d;
      }
    }
  }

  /** Two half-hours of today, WIND 60/GAS 40 and WIND 80/GAS 20, give one day whose
      metrics are WIND 70 then GAS 30 and whose clean share is 70.0. */
  lemma WindGasDay(today: Date, a: string, b: string, c: string)
    ensures var i1 := GenerationData(Timestamp(a, today), Timestamp(b, today), [Fuel(WIND, 60.0), Fuel(GAS, 40.0)]);
      var i2 := GenerationData(Timestamp(b, today), Timestamp(c, today), [Fuel(WIND, 80.0), Fuel(GAS, 20.0)]);
      CalculateAveragesAndPercentage([i1, i2], today)
        == [DailyMixDto(today, [FuelDto(WIND, 70.0), FuelDto(GAS, 30.0)], 70.0)]
  {
    var i1 := GenerationData(Timestamp(a, today), Timestamp(b, today), [Fuel(WIND, 60.0), Fuel(GAS, 40.0)]);
    var i2 := GenerationData(Timestamp(b, today), Timestamp(c, today), [Fuel(WIND, 80.0), Fuel(GAS, 20.0)]);
    SingleDay([i1, i2], today);
    WindGasDaySummary(i1, i2, today);
  }

  lemma WindGasDaySummary(i1: GenerationData, i2: GenerationData, today: Date)
    requires i1.from.date == today && i2.from.date == today
    requires i1.generationMix == [Fuel(WIND, 60.0), Fuel(GAS, 40.0)]
    requires i2.generationMix == [Fuel(WIND, 80.0), Fuel(GAS, 20.0)]
    ensures DaySummary([i1, i2], today) == DailyMixDto(today, [FuelDto(WIND, 70.0), FuelDto(GAS, 30.0)], 70.0)
  {
    OnDateWhole([i1, i2], today);
    WindGasAverages(i1, i2);
    WindGasSummary(today);
  }

  /** A group of intervals that all start on `d` is its own group for `d`. */
  lemma {:induction false} OnDateWhole(data: seq<GenerationData>, d: Date)
    requires forall g :: g in data ==> g.from.date == d
    ensures OnDate(data, d) == data
  {
    if data != [] {
      var init, last := data[..|data| - 1], data[|data| - 1];
      assert data == init + [last];
      OnDateWhole(init, d);
    }
  }

  /** When every interval starts today, there is exactly one day. */
  lemma SingleDay(data: seq<GenerationData>, today: Date)
    requires |data| > 0 && forall g :: g in data ==> g.from.date == today
    ensures CalculateAveragesAndPercentage(data, today) == [DaySummary(data, today)]
  {
    var r := CalculateAveragesAndPercentage(data, today);
    SingleDaySummary(data, today, r);
    DaySummaryFromToday(data, today, today);
    assert r == [r[0]];
  }

  lemma SingleDaySummary(data: seq<GenerationData>, today: Date, r: seq<DailyMixDto>)
    requires |data| > 0 && forall g :: g in data ==> g.from.date == today
    requires forall i, j :: 0 <= i < j < |r| ==> r[i].date < r[j].date
    requires forall k :: 0 <= k < |r| ==> r[k].date in StartDates(data)
    requires forall d :: d in StartDates(data) && d >= today ==> exists k :: 0 <= k < |r| && r[k].date == d
    ensures |r| == 1 && r[0].date == today
  {
    assert today in StartDates(data) by {
      assert data[0] in data;
    }
    var k :| 0 <= k < |r| && r[k].date == today;
    forall j | 0 <= j < |r| ensures r[j].date == today {
      assert r[j].date in StartDates(data);
    }
    if |r| > 1 {
      EarlierDate(r);
      assert false;
    }
  }

  /** In a list of strictly ascending dates the first comes before the second. */
  lemma EarlierDate(r: seq<DailyMixDto>)
    requires |r| > 1
    requires forall i, j :: 0 <= i < j < |r| ==> r[i].date < r[j].date
    ensures r[0].date < r[1].date
  {
  }

  lemma WindGasAverages(i1: GenerationData, i2: GenerationData)
    requires i1.generationMix == [Fuel(WIND, 60.0), Fuel(GAS, 40.0)]
    requires i2.generationMix == [Fuel(WIND, 80.0), Fuel(GAS, 20.0)]
    ensures AverageByFuel([i1, i2]) == map[WIND := 70.0, GAS := 30.0]
  {
    var e := Entries([i1, i2]);
    WindGasEntriesOf(i1, i2);
    assert e == [Fuel(WIND, 60.0), Fuel(GAS, 40.0), Fuel(WIND, 80.0), Fuel(GAS, 20.0)];
    WindGasPercentages();
    WindGasPresent();
    AveragesOfWindGas(AverageByFuel([i1, i2]), e);
  }

  /** A map with the keys and values that `AverageByFuel` promises for entries holding WIND
      60, 80 and GAS 40, 20 and nothing else. */
  lemma AveragesOfWindGas(m: map<FuelType, real>, e: seq<Fuel>)
    requires PercentagesOf(e, WIND) == [60.0, 80.0] && PercentagesOf(e, GAS) == [40.0, 20.0]
    requires Present(e) == {WIND, GAS}
    requires forall ft :: ft in m <==> |PercentagesOf(e, ft)| > 0
    requires forall ft :: ft in m ==> m[ft] == Mean(PercentagesOf(e, ft))
    ensures m == map[WIND := 70.0, GAS := 30.0]
  {
    WindGasMeans();
    assert m.Keys == {WIND, GAS} by {
      forall ft ensures ft in m <==> ft == WIND || ft == GAS {
        assert ft in Present(e) <==> |PercentagesOf(e, ft)| > 0;
      }
    }
    assert m[WIND] == 70.0 && m[GAS] == 30.0;
  }

  lemma WindGasMeans()
    ensures Mean([60.0, 80.0]) == 70.0 && Mean([40.0, 20.0]) == 30.0
  {
    assert [60.0, 80.0][..1] == [60.0] && [60.0][..0] == [];
    assert [40.0, 20.0][..1] == [40.0] && [40.0][..0] == [];
  }

  lemma WindGasEntriesOf(i1: GenerationData, i2: GenerationData)
    ensures Entries([i1, i2]) == i1.generationMix + i2.generationMix
  {
    assert [i1][..0] == [];
    assert Entries([i1]) == i1.generationMix;
    assert [i1, i2][..1] == [i1];
  }

  lemma WindGasPercentages()
    ensures var entries := [Fuel(WIND, 60.0), Fuel(GAS, 40.0), Fuel(WIND, 80.0), Fuel(GAS, 20.0)];
      && PercentagesOf(entries, WIND) == [60.0, 80.0]
      && PercentagesOf(entries, GAS) == [40.0, 20.0]
  {
    var e1 := [Fuel(WIND, 60.0)];
    var e2 := e1 + [Fuel(GAS, 40.0)];
    var e3 := e2 + [Fuel(WIND, 80.0)];
    var e4 := e3 + [Fuel(GAS, 20.0)];
    assert e1[..0] == [] && e2[..1] == e1 && e3[..2] == e2 && e4[..3] == e3;
    assert e4 == [Fuel(WIND, 60.0), Fuel(GAS, 40.0), Fuel(WIND, 80.0), Fuel(GAS, 20.0)];
    assert PercentagesOf(e1, WIND) == [60.0] && PercentagesOf(e1, GAS) == [];
    assert PercentagesOf(e2, WIND) == [60.0] && PercentagesOf(e2, GAS) == [40.0];
    assert PercentagesOf(e3, WIND) == [60.0, 80.0] && PercentagesOf(e3, GAS) == [40.0];
    assert PercentagesOf(e4, WIND) == [60.0, 80.0] && PercentagesOf(e4, GAS) == [40.0, 20.0];
  }

  lemma WindGasPresent()
    ensures Present([Fuel(WIND, 60.0), Fuel(GAS, 40.0), Fuel(WIND, 80.0), Fuel(GAS, 20.0)]) == {WIND, GAS}
  {
    var e1 := [Fuel(WIND, 60.0)];
    var e2 := e1 + [Fuel(GAS, 40.0)];
    var e3 := e2 + [Fuel(WIND, 80.0)];
    var e4 := e3 + [Fuel(GAS, 20.0)];
    assert e1[..0] == [] && e2[..1] == e1 && e3[..2] == e2 && e4[..3] == e3;
    assert e4 == [Fuel(WIND, 60.0), Fuel(GAS, 40.0), Fuel(WIND, 80.0), Fuel(GAS, 20.0)];
    assert Present(e1) == {WIND};
    assert Present(e2) == {WIND, GAS};
    assert Present(e3) == {WIND, GAS};
    assert Present(e4) == {WIND, GAS};
  }

  lemma WindGasKeys()
    ensures IterationOrder({WIND, GAS}) == [GAS, WIND]
  {
    var s := {WIND, GAS};
    KeepCons(OTHER, [], s);
    KeepCons(IMPORTS, [OTHER], s);
    KeepCons(SOLAR, [IMPORTS, OTHER], s);
    KeepCons(WIND, [SOLAR, IMPORTS, OTHER], s);
    KeepCons(HYDRO, [WIND, SOLAR, IMPORTS, OTHER], s);
    KeepCons(NUCLEAR, [HYDRO, WIND, SOLAR, IMPORTS, OTHER], s);
    KeepCons(BIOMASS, [NUCLEAR, HYDRO, WIND, SOLAR, IMPORTS, OTHER], s);
    KeepCons(COAL, [BIOMASS, NUCLEAR, HYDRO, WIND, SOLAR, IMPORTS, OTHER], s);
    KeepCons(GAS, [COAL, BIOMASS, NUCLEAR, HYDRO, WIND, SOLAR, IMPORTS, OTHER], s);
  }

  lemma WindGasEntries()
    ensures MapEntries(map[WIND := 70.0, GAS := 30.0]) == [FuelAverage(GAS, 30.0), FuelAverage(WIND, 70.0)]
  {
    assert map[WIND := 70.0, GAS := 30.0].Keys == {WIND, GAS};
    WindGasKeys();
  }

  lemma WindGasSorted()
    ensures SortDescending([FuelAverage(GAS, 30.0), FuelAverage(WIND, 70.0)])
         == [FuelAverage(WIND, 70.0), FuelAverage(GAS, 30.0)]
  {
    var low, high := FuelAverage(GAS, 30.0), FuelAverage(WIND, 70.0);
    assert [high][1..] == [];
    assert [low, high][1..] == [high];
  }

  lemma WindGasRounded()
    ensures Rounded([FuelAverage(WIND, 70.0), FuelAverage(GAS, 30.0)]) == [FuelDto(WIND, 70.0), FuelDto(GAS, 30.0)]
  {
    Round2Exact(70.0);
    Round2Exact(30.0);
  }

  lemma WindGasMetrics()
    ensures Metrics(map[WIND := 70.0, GAS := 30.0]) == [FuelDto(WIND, 70.0), FuelDto(GAS, 30.0)]
  {
    WindGasEntries();
    WindGasSorted();
    WindGasRounded();
  }

  lemma WindGasSummary(today: Date)
    ensures ToDailyMixDto(today, map[WIND := 70.0, GAS := 30.0])
         == DailyMixDto(today, [FuelDto(WIND, 70.0), FuelDto(GAS, 30.0)], 70.0)
  {
    WindGasCleanSum();
    Round2Exact(70.0);
    WindGasMetrics();
  }

  lemma WindGasCleanSum()
    ensures CleanSum(map[WIND := 70.0, GAS := 30.0]) == 70.0
  {
    var avg := map[WIND := 70.0, GAS := 30.0];
    assert GetOrZero(avg, WIND) == 70.0;
    assert GetOrZero(avg, BIOMASS) == GetOrZero(avg, NUCLEAR) == GetOrZero(avg, HYDRO) == GetOrZero(avg, SOLAR) == 0.0;
  }
}
