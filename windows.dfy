/** The clean share of an interval and the search for the best charging window: the nested
    scan that both revisions of the service run over consecutive 30-minute intervals. */
module Windows {

  import opened CleanFuels
  import opened Records
  import opened Rounding

  /** Sum of the percentages of every entry of a mix, in list order. */
  function TotalShare(mix: seq<Fuel>): real
  {
    if mix == [] then 0.0 else TotalShare(mix[..|mix| - 1]) + mix[|mix| - 1].percentage
  }

  /** Sum of the percentages of the entries whose fuel type is clean, in list order. */
  function CleanShare(mix: seq<Fuel>): real
  {
    if mix == [] then 0.0
    else
      var last := mix[|mix| - 1];
      CleanShare(mix[..|mix| - 1]) + (if IsClean(last.fuelType) then last.percentage else 0.0)
  }

  /** Sum of the percentages of the entries whose fuel type is not clean. */
  function NonCleanShare(mix: seq<Fuel>): real
  {
    if mix == [] then 0.0
    else
      var last := mix[|mix| - 1];
      NonCleanShare(mix[..|mix| - 1]) + (if IsClean(last.fuelType) then 0.0 else last.percentage)
  }

  /** The clean energy percentage of one interval. */
  function IntervalCleanShare(g: GenerationData): real
  {
    CleanShare(g.generationMix)
  }

  /** Clean and non-clean entries split the interval's total between them. */
  lemma {:induction false} CleanSharePartition(mix: seq<Fuel>)
    ensures CleanShare(mix) + NonCleanShare(mix) == TotalShare(mix)
  {
    if mix != [] {
      CleanSharePartition(mix[..|mix| - 1]);
    }
  }

  /** A non-clean entry contributes nothing, wherever it stands. */
  lemma {:induction false} CleanShareIgnoresNonClean(a: seq<Fuel>, f: Fuel, b: seq<Fuel>)
    requires !IsClean(f.fuelType)
    ensures CleanShare(a + [f] + b) == CleanShare(a + b)
  {
    if b == [] {
      assert (a + [f] + b)[..|a + [f] + b| - 1] == a;
      assert a + b == a;
    } else {
      var b' := b[..|b| - 1];
      CleanShareIgnoresNonClean(a, f, b');
      assert (a + [f] + b)[..|a + [f] + b| - 1] == a + [f] + b';
      assert (a + b)[..|a + b| - 1] == a + b';
    }
  }

  /** When every entry is clean, the clean share is the whole total. */
  lemma {:induction false} AllCleanShare(mix: seq<Fuel>)
    requires forall i :: 0 <= i < |mix| ==> IsClean(mix[i].fuelType)
    ensures CleanShare(mix) == TotalShare(mix)
  {
    if mix != [] {
      AllCleanShare(mix[..|mix| - 1]);
    }
  }

  predicate NonNegativeMix(mix: seq<Fuel>)
  {
    forall i :: 0 <= i < |mix| ==> mix[i].percentage >= 0.0
  }

  /** With non-negative shares the clean share lies between 0 and the total. */
  lemma CleanShareBounds(mix: seq<Fuel>)
    requires NonNegativeMix(mix)
    ensures 0.0 <= CleanShare(mix) <= TotalShare(mix)
  {
    CleanSharePartition(mix);
    NonCleanNonNegative(mix);
  }

  lemma {:induction false} NonCleanNonNegative(mix: seq<Fuel>)
    requires NonNegativeMix(mix)
    ensures 0.0 <= CleanShare(mix) && 0.0 <= NonCleanShare(mix)
  {
    if mix != [] {
      NonCleanNonNegative(mix[..|mix| - 1]);
    }
  }

  /** Sum of the clean shares of the `w` intervals starting at `i`, added left to right. */
  function WindowSum(s: seq<GenerationData>, i: int, w: int): real
    requires 0 <= i && 0 <= w && i + w <= |s|
  {
    if w == 0 then 0.0 else WindowSum(s, i, w - 1) + IntervalCleanShare(s[i + w - 1])
  }

  /** The start indices of the windows of `w` intervals that fit in `s`. */
  predicate IsStart(s: seq<GenerationData>, w: int, i: int)
  {
    0 <= w && 0 <= i <= |s| - w
  }

  /** `k` starts a window with the largest sum, and no earlier window reaches that sum. */
  ghost predicate IsFirstArgmax(s: seq<GenerationData>, w: int, k: int)
    requires 0 <= w
  {
    && IsStart(s, w, k)
    && (forall i :: IsStart(s, w, i) ==> WindowSum(s, i, w) <= WindowSum(s, k, w))
    && (forall i :: 0 <= i < k ==> WindowSum(s, i, w) < WindowSum(s, k, w))
  }

  /** Some window's sum beats the scan's initial best of -1.0. */
  ghost predicate BeatsInitial(s: seq<GenerationData>, w: int)
    requires 0 <= w
  {
    exists i :: IsStart(s, w, i) && WindowSum(s, i, w) > -1.0
  }

  /** The result reported for the window of `w` intervals starting at `k`: the first
      interval's start, the last interval's end and the rounded mean clean share. */
  function WindowDto(s: seq<GenerationData>, w: int, k: int): (r: OptimalWindowDto)
    requires 1 <= w && IsStart(s, w, k)
    ensures r.startDateTime == s[k].from.text && r.endDateTime == s[k + w - 1].to.text
  {
    OptimalWindowDto(s[k].from.text, s[k + w - 1].to.text, Round2(WindowSum(s, k, w) / w as real))
  }

  /** At most one start index is the first maximum. */
  lemma FirstArgmaxUnique(s: seq<GenerationData>, w: int, k1: int, k2: int)
    requires 0 <= w
    requires IsFirstArgmax(s, w, k1) && IsFirstArgmax(s, w, k2)
    ensures k1 == k2
  {
  }

  /** The nested loop of `calculateOptimalWindow` / `calculateBestWindow`: every start index in
      turn, the window's sum by an inner loop, and a strict `>` against the best so far, which
      starts at index -1 with sum -1.0. */
  method ScanWindows(intervals: seq<GenerationData>, windowSize: int)
    returns (bestStartIndex: int, maxTotalPerc: real)
    requires windowSize >= 1
    ensures bestStartIndex == -1 <==> !BeatsInitial(intervals, windowSize)
    ensures bestStartIndex == -1 ==> maxTotalPerc == -1.0
    ensures bestStartIndex != -1 ==>
      IsFirstArgmax(intervals, windowSize, bestStartIndex)
      && maxTotalPerc == WindowSum(intervals, bestStartIndex, windowSize)
  {
    maxTotalPerc := -1.0;
    bestStartIndex := -1;
    var i := 0;
    while i <= |intervals| - windowSize
      invariant 0 <= i <= if |intervals| >= windowSize then |intervals| - windowSize + 1 else 0
      invariant bestStartIndex == -1 ==> maxTotalPerc == -1.0
      invariant bestStartIndex == -1 ==>
        forall k :: 0 <= k < i ==> WindowSum(intervals, k, windowSize) <= -1.0
      invariant bestStartIndex != -1 ==>
        && 0 <= bestStartIndex < i
        && maxTotalPerc == WindowSum(intervals, bestStartIndex, windowSize)
        && maxTotalPerc > -1.0
        && (forall k :: 0 <= k < i ==> WindowSum(intervals, k, windowSize) <= maxTotalPerc)
        && (forall k :: 0 <= k < bestStartIndex ==> WindowSum(intervals, k, windowSize) < maxTotalPerc)
    {
      var currentSum := 0.0;
      var j := 0;
      while j < windowSize
        invariant 0 <= j <= windowSize
        invariant currentSum == WindowSum(intervals, i, j)
      {
        currentSum := currentSum + IntervalCleanShare(intervals[i + j]);
        j := j + 1;
      }
      if currentSum > maxTotalPerc {
        maxTotalPerc := currentSum;
        bestStartIndex := i;
      }
      i := i + 1;
    }
    if bestStartIndex == -1 {
      forall k | IsStart(intervals, windowSize, k) ensures WindowSum(intervals, k, windowSize) <= -1.0 {
      }
    }
  }

  /** With non-negative shares every window sum is at least 0, so the first window already
      beats -1.0 whenever one fits: the "could not find" outcome is then unreachable. */
  lemma NonNegativeBeatsInitial(s: seq<GenerationData>, w: int)
    requires 1 <= w <= |s|
    requires forall i :: 0 <= i < |s| ==> NonNegativeMix(s[i].generationMix)
    ensures BeatsInitial(s, w)
  {
    WindowSumNonNegative(s, 0, w);
  }

  lemma {:induction false} WindowSumNonNegative(s: seq<GenerationData>, i: int, w: int)
    requires 0 <= i && 0 <= w && i + w <= |s|
    requires forall k :: 0 <= k < |s| ==> NonNegativeMix(s[k].generationMix)
    ensures WindowSum(s, i, w) >= 0.0
  {
    if w > 0 {
      WindowSumNonNegative(s, i, w - 1);
      CleanShareBounds(s[i + w - 1].generationMix);
    }
  }
}
