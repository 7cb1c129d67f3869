/** Report arithmetic over telemetry rows: coverage and counter segments, as the backend and the browser compute
    them. */
module QueryService {
  import opened Basics

  // --------------------------------------------------------------- coverage

  datatype Summary = Summary(expected: nat, received: nat, good: nat, coverage: Option<real>)

  function CountGood(good: seq<bool>): (n: nat)
    ensures n <= |good|
  {
    if good == [] then 0 else CountGood(good[..|good| - 1]) + if good[|good| - 1] then 1 else 0
  }

  predicate ValidWindow(from: int, to: int, period: int) {
    0 < period && from <= to
  }

  function Expected(from: int, to: int, period: int): (n: nat)
    requires ValidWindow(from, to, period)
    ensures n >= 1
  {
    (to - from) / period + 1
  }

  function Min(a: real, b: real): real {
    if a < b then a else b
  }

  /** `good` says of each row whether its quality is GOOD. */
  function CoverageSpec(good: seq<bool>, from: int, to: int, period: int): Summary {
    if !ValidWindow(from, to, period) then Summary(0, |good|, 0, None)
    else
      var expected := Expected(from, to, period);
      Summary(expected, |good|, CountGood(good), Some(Min(1.0, |good| as real / expected as real)))
  }

  method Coverage(good: seq<bool>, from: int, to: int, period: int) returns (s: Summary)
    ensures s == CoverageSpec(good, from, to, period)
  {
    if period <= 0 || to < from {
      return Summary(0, |good|, 0, None);
    }
    var quotient := (to - from) / period + 1;
    var expected: nat := if quotient < 1 then 1 else quotient;
    var n := 0;
    for i := 0 to |good|
      invariant n == CountGood(good[..i])
    {
      assert good[..i + 1][..i] == good[..i];
      if good[i] { n := n + 1; }
    }
    assert good[..|good|] == good;
    s := Summary(expected, |good|, n, Some(Min(1.0, |good| as real / expected as real)));
  }

  predicate GoodAt(good: seq<bool>, i: nat) {
    i < |good| && good[i]
  }

  function GoodRows(good: seq<bool>): set<nat> {
    set i: nat | i < |good| && GoodAt(good, i)
  }

  lemma {:induction false} GoodCounted(good: seq<bool>)
    ensures CountGood(good) == |GoodRows(good)|
    decreases |good|
  {
    if good == [] {
      assert GoodRows(good) == {};
    } else {
      var n := |good| - 1;
      GoodCounted(good[..n]);
      assert forall i: nat :: i < n ==> (GoodAt(good, i) <==> GoodAt(good[..n], i));
      assert GoodRows(good) == GoodRows(good[..n]) + if good[n] then {n} else {};
    }
  }

  /** What the summary of a window says: `expected` is the number of sampling times `from`, `from + period`, ... in it;
      the ratio is that of the rows to these, but never more than one. An empty window has no ratio. */
  lemma CoverageSays(good: seq<bool>, from: int, to: int, period: int)
    ensures var s := CoverageSpec(good, from, to, period);
      && s.received == |good|
      && (period <= 0 || to < from ==> s.expected == 0 && s.good == 0 && s.coverage == None)
      && (0 < period && from <= to ==>
            && s.expected >= 1 && from + (s.expected - 1) * period <= to < from + s.expected * period
            && s.good == |GoodRows(good)|
            && (s.expected <= |good| ==> s.coverage == Some(1.0))
            && (|good| <= s.expected ==> s.coverage == Some(|good| as real / s.expected as real)))
  {
    GoodCounted(good);
    if ValidWindow(from, to, period) {
      RatioAtMostOne(|good|, Expected(from, to, period));
      var q := (to - from) / period;
      assert to - from == q * period + (to - from) % period;
      assert (q + 1) * period == q * period + period;
      if |good| == q + 1 { RatioOfEqual(q + 1); }
    }
  }

  lemma RatioOfEqual(n: nat)
    requires n >= 1
    ensures n as real / n as real == 1.0
  {
  }

  /** The browser's version of the same summary. */
  function BrowserCoverage(good: seq<bool>, from: int, to: int, period: int): Summary {
    if period <= 0 || to < from then Summary(0, |good|, CountGood(good), None)
    else
      var quotient := (to - from) / period + 1;
      var expected: nat := if quotient < 1 then 1 else quotient;
      Summary(expected, |good|, CountGood(good), Some(Min(1.0, |good| as real / expected as real)))
  }

  /** Over an empty window one GOOD row counts in the browser and not in the backend. */
  lemma InvalidWindowDiffers()
    ensures CoverageSpec([true], 5, 4, 1000) == Summary(0, 1, 0, None)
    ensures BrowserCoverage([true], 5, 4, 1000) == Summary(0, 1, 1, None)
  {
    assert CountGood([true][..0]) == 0;
  }

  /** The two agree except on the good samples of an invalid window, which only the browser counts. */
  lemma CoverageTwinsAgreeExactly(good: seq<bool>, from: int, to: int, period: int)
    ensures CoverageSpec(good, from, to, period) == BrowserCoverage(good, from, to, period)
      <==> ValidWindow(from, to, period) || CountGood(good) == 0
  {
  }

  /** The ratio is clamped exactly when there are more rows than the window has room for. */
  lemma ClampFiresExactly(good: seq<bool>, from: int, to: int, period: int)
    requires ValidWindow(from, to, period)
    ensures CoverageSpec(good, from, to, period).coverage == Some(|good| as real / Expected(from, to, period) as real)
      <==> |good| <= Expected(from, to, period)
  {
    RatioAtMostOne(|good|, Expected(from, to, period));
  }

  lemma RatioAtMostOne(n: nat, e: nat)
    requires e >= 1
    ensures n as real / e as real <= 1.0 <==> n <= e
  {
    var q := n as real / e as real;
    assert q * e as real == n as real;
    if q <= 1.0 {
      Scaled(q, 1.0, e as real);
    } else {
      Scaled(1.0, q, e as real);
      if n <= e { Strict(q, e as real); }
    }
  }

  lemma Scaled(a: real, b: real, e: real)
    requires a <= b && e >= 0.0
    ensures a * e <= b * e
  {
  }

  lemma Strict(q: real, e: real)
    requires q > 1.0 && e > 0.0
    ensures q * e > e
  {
    assert (q - 1.0) * e > 0.0;
  }

  // --------------------------------------------------------- counter segments

  datatype Reading = Reading(ts: int, value: real)

  datatype Segment = Segment(startTs: int, endTs: int, startValue: real, endValue: real, delta: real, sampleCount: nat,
                             gapCount: nat)

  predicate Gap(a: Reading, b: Reading, maxGap: int) {
    maxGap > 0 && b.ts - a.ts > maxGap
  }

  /** The adjacent gaps whose later reading is in `lo + 1 .. hi`. */
  function Gaps(s: seq<Reading>, lo: nat, hi: nat, maxGap: int): nat
    requires lo <= hi < |s|
    decreases hi - lo
  {
    if lo == hi then 0 else Gaps(s, lo, hi - 1, maxGap) + if Gap(s[hi - 1], s[hi], maxGap) then 1 else 0
  }

  /** The positive part of the changes from `lo` to `hi`. */
  function Rises(s: seq<Reading>, lo: nat, hi: nat): real
    requires lo <= hi < |s|
    decreases hi - lo
  {
    if lo == hi then 0.0
    else
      var change := s[hi].value - s[hi - 1].value;
      Rises(s, lo, hi - 1) + if change > 0.0 then change else 0.0
  }

  predicate Falls(s: seq<Reading>, k: nat) {
    0 < k < |s| && s[k].value < s[k - 1].value
  }

  /** No reading after `lo` falls below the one before it, up to `hi`. */
  predicate NonDecreasing(s: seq<Reading>, lo: nat, hi: nat)
    requires lo <= hi < |s|
  {
    forall i :: lo < i <= hi ==> !Falls(s, i)
  }

  predicate SortedByTime(s: seq<Reading>) {
    forall i, j :: 0 <= i < j < |s| ==> s[i].ts <= s[j].ts
  }

  /** The segment over `lo .. hi`. */
  function SegmentOver(s: seq<Reading>, lo: nat, hi: nat, gaps: nat): Segment
    requires lo <= hi < |s|
  {
    var rise := s[hi].value - s[lo].value;
    Segment(s[lo].ts, s[hi].ts, s[lo].value, s[hi].value, if rise > 0.0 then rise else 0.0, hi - lo + 1, gaps)
  }

  datatype Run = Run(lo: nat, hi: nat)

  /** A maximal non-decreasing run: it begins at the start or with a fall, and ends at the end or before one. */
  predicate Maximal(s: seq<Reading>, r: Run) {
    && r.lo <= r.hi < |s| && NonDecreasing(s, r.lo, r.hi)
    && (r.lo == 0 || Falls(s, r.lo)) && (r.hi + 1 == |s| || Falls(s, r.hi + 1))
  }

  /** The runs lie end to end from the first reading up to `n`. */
  predicate Tiles(runs: seq<Run>, n: nat) {
    if runs == [] then n == 0
    else
      var last := runs[|runs| - 1];
      last.lo <= last.hi && last.hi + 1 == n && Tiles(runs[..|runs| - 1], last.lo)
  }

  /** The segment of a run: it counts the gaps inside the run and the one before the next run, if there is one. */
  function SegmentOf(s: seq<Reading>, r: Run, maxGap: int): Segment
    requires r.lo <= r.hi < |s|
  {
    SegmentOver(s, r.lo, r.hi, Gaps(s, r.lo, if r.hi + 1 < |s| then r.hi + 1 else r.hi, maxGap))
  }

  predicate Closes(s: seq<Reading>, r: Run, segment: Segment, maxGap: int) {
    Maximal(s, r) && segment == SegmentOf(s, r, maxGap)
  }

  predicate SegmentsOf(s: seq<Reading>, runs: seq<Run>, out: seq<Segment>, maxGap: int) {
    |out| == |runs| && forall i :: 0 <= i < |runs| ==> Closes(s, runs[i], out[i], maxGap)
  }

  /** The next reading extends the current run or ends it. */
  lemma NextReading(s: seq<Reading>, start: nat, i: nat, maxGap: int)
    requires start < i < |s| && NonDecreasing(s, start, i - 1) && (start == 0 || Falls(s, start))
    ensures Gaps(s, start, i, maxGap) == Gaps(s, start, i - 1, maxGap) + if Gap(s[i - 1], s[i], maxGap) then 1 else 0
    ensures Falls(s, i) <==> s[i].value < s[i - 1].value
    ensures if Falls(s, i) then Maximal(s, Run(start, i - 1)) else NonDecreasing(s, start, i)
  {
  }

  lemma RunCloses(s: seq<Reading>, runs: seq<Run>, out: seq<Segment>, r: Run, segment: Segment, maxGap: int)
    requires Closes(s, r, segment, maxGap) && Tiles(runs, r.lo) && SegmentsOf(s, runs, out, maxGap)
    ensures Tiles(runs + [r], r.hi + 1) && SegmentsOf(s, runs + [r], out + [segment], maxGap)
  {
    assert (runs + [r])[..|runs|] == runs;
  }

  /** The loop over readings already sorted by time: its segments are the maximal non-decreasing runs, which tile the
      input. */
  method CounterSegments(s: seq<Reading>, maxGap: int) returns (out: seq<Segment>, ghost runs: seq<Run>)
    ensures Tiles(runs, |s|) && SegmentsOf(s, runs, out, maxGap)
  {
    out, runs := [], [];
    if s == [] {
      return;
    }
    var start, gaps := 0, 0;
    for i := 1 to |s|
      invariant start < i && Tiles(runs, start) && SegmentsOf(s, runs, out, maxGap)
      invariant NonDecreasing(s, start, i - 1) && (start == 0 || Falls(s, start))
      invariant gaps == Gaps(s, start, i - 1, maxGap)
    {
      NextReading(s, start, i, maxGap);
      if Gap(s[i - 1], s[i], maxGap) {
        gaps := gaps + 1;
      }
      if s[i].value < s[i - 1].value {
        var segment := SegmentOver(s, start, i - 1, gaps);
        RunCloses(s, runs, out, Run(start, i - 1), segment, maxGap);
        out := out + [segment];
        runs := runs + [Run(start, i - 1)];
        start, gaps := i, 0;
      }
    }
    var segment := SegmentOver(s, start, |s| - 1, gaps);
    RunCloses(s, runs, out, Run(start, |s| - 1), segment, maxGap);
    out := out + [segment];
    runs := runs + [Run(start, |s| - 1)];
  }

  /** The browser's loop, over readings that it has sorted itself. */
  method BrowserSegments(samples: seq<Reading>, maxGap: int) returns (result: seq<Segment>, ghost runs: seq<Run>)
    ensures Tiles(runs, |samples|) && SegmentsOf(samples, runs, result, maxGap)
  {
    result, runs := [], [];
    if |samples| == 0 {
      return;
    }
    var start, gaps, i := 0, 0, 1;
    while i < |samples|
      invariant start < i <= |samples| && Tiles(runs, start) && SegmentsOf(samples, runs, result, maxGap)
      invariant NonDecreasing(samples, start, i - 1) && (start == 0 || Falls(samples, start))
      invariant gaps == Gaps(samples, start, i - 1, maxGap)
    {
      NextReading(samples, start, i, maxGap);
      if maxGap > 0 && samples[i].ts - samples[i - 1].ts > maxGap {
        gaps := gaps + 1;
      }
      if samples[i].value < samples[i - 1].value {
        RunCloses(samples, runs, result, Run(start, i - 1), SegmentOver(samples, start, i - 1, gaps), maxGap);
        result := result + [SegmentOver(samples, start, i - 1, gaps)];
        runs := runs + [Run(start, i - 1)];
        start, gaps := i, 0;
      }
      i := i + 1;
    }
    RunCloses(samples, runs, result, Run(start, |samples| - 1), SegmentOver(samples, start, |samples| - 1, gaps),
              maxGap);
    result := result + [SegmentOver(samples, start, |samples| - 1, gaps)];
    runs := runs + [Run(start, |samples| - 1)];
  }

  // -------------------------------------------------- what segments add up to

  function TotalSamples(out: seq<Segment>): nat {
    if out == [] then 0 else TotalSamples(out[..|out| - 1]) + out[|out| - 1].sampleCount
  }

  function TotalGaps(out: seq<Segment>): nat {
    if out == [] then 0 else TotalGaps(out[..|out| - 1]) + out[|out| - 1].gapCount
  }

  function TotalDelta(out: seq<Segment>): real {
    if out == [] then 0.0 else TotalDelta(out[..|out| - 1]) + out[|out| - 1].delta
  }

  lemma {:induction false} GapsSplit(s: seq<Reading>, lo: nat, mid: nat, hi: nat, maxGap: int)
    requires lo <= mid <= hi < |s|
    ensures Gaps(s, lo, hi, maxGap) == Gaps(s, lo, mid, maxGap) + Gaps(s, mid, hi, maxGap)
    decreases hi
  {
    if mid < hi { GapsSplit(s, lo, mid, hi - 1, maxGap); }
  }

  lemma {:induction false} RisesSplit(s: seq<Reading>, lo: nat, mid: nat, hi: nat)
    requires lo <= mid <= hi < |s|
    ensures Rises(s, lo, hi) == Rises(s, lo, mid) + Rises(s, mid, hi)
    decreases hi
  {
    if mid < hi { RisesSplit(s, lo, mid, hi - 1); }
  }

  /** Within a non-decreasing run the rises add up to the difference of its ends. */
  lemma {:induction false} RunRises(s: seq<Reading>, lo: nat, hi: nat)
    requires lo <= hi < |s| && NonDecreasing(s, lo, hi)
    ensures s[lo].value <= s[hi].value && Rises(s, lo, hi) == s[hi].value - s[lo].value
    decreases hi
  {
    if lo < hi {
      RunRises(s, lo, hi - 1);
      assert !Falls(s, hi);
    }
  }

  /** The totals over the first segments, which end at reading `n - 1`. */
  lemma {:induction false} PrefixTotals(s: seq<Reading>, runs: seq<Run>, out: seq<Segment>, n: nat, maxGap: int)
    requires Tiles(runs, n) && SegmentsOf(s, runs, out, maxGap)
    ensures TotalSamples(out) == n
    ensures 0 < n <= |s| ==> TotalDelta(out) == Rises(s, 0, n - 1)
    ensures 0 < n <= |s| ==> TotalGaps(out) == Gaps(s, 0, if n < |s| then n else n - 1, maxGap)
    ensures n == 0 ==> TotalDelta(out) == 0.0 && TotalGaps(out) == 0
    decreases |runs|
  {
    if runs != [] {
      var k := |runs| - 1;
      var r := runs[k];
      PrefixTotals(s, runs[..k], out[..k], r.lo, maxGap);
      assert Closes(s, r, out[k], maxGap);
      RunRises(s, r.lo, r.hi);
      if r.lo > 0 {
        RisesSplit(s, 0, r.lo, r.hi);
        GapsSplit(s, 0, r.lo, if r.hi + 1 < |s| then r.hi + 1 else r.hi, maxGap);
      }
    }
  }

  /** A segment begins with the first reading of its run and ends with the last. */
  predicate Spans(s: seq<Reading>, r: Run, segment: Segment) {
    && r.lo <= r.hi < |s| && segment.sampleCount == r.hi - r.lo + 1
    && Reading(segment.startTs, segment.startValue) == s[r.lo] && Reading(segment.endTs, segment.endValue) == s[r.hi]
  }

  /** The k-th reading comes later after the one before it than is allowed. */
  predicate LateAt(s: seq<Reading>, k: nat, maxGap: int) {
    0 < k < |s| && 0 < maxGap && s[k - 1].ts + maxGap < s[k].ts
  }

  lemma {:induction false} GapsCounted(s: seq<Reading>, lo: nat, hi: nat, maxGap: int)
    requires lo <= hi < |s|
    ensures Gaps(s, lo, hi, maxGap) == |set k: nat | lo < k <= hi && LateAt(s, k, maxGap)|
    decreases hi - lo
  {
    var all := set k: nat | lo < k <= hi && LateAt(s, k, maxGap);
    if lo < hi {
      GapsCounted(s, lo, hi - 1, maxGap);
      var before := set k: nat | lo < k <= hi - 1 && LateAt(s, k, maxGap);
      assert all == before + if LateAt(s, hi, maxGap) then {hi} else {};
    } else {
      assert all == {};
    }
  }

  /** The segments account for everything: sample counts add up to the input, gap counts to its adjacent gaps, and
      deltas to the sum of its positive changes; each delta is end minus start, and each segment spans its run. */
  lemma SegmentsAccount(s: seq<Reading>, runs: seq<Run>, out: seq<Segment>, maxGap: int)
    requires s != [] && Tiles(runs, |s|) && SegmentsOf(s, runs, out, maxGap)
    ensures TotalSamples(out) == |s|
    ensures TotalDelta(out) == Rises(s, 0, |s| - 1)
    ensures TotalGaps(out) == Gaps(s, 0, |s| - 1, maxGap)
    ensures forall i :: 0 <= i < |out| ==> out[i].delta == out[i].endValue - out[i].startValue
    ensures forall i :: 0 <= i < |out| ==> Spans(s, runs[i], out[i])
  {
    PrefixTotals(s, runs, out, |s|, maxGap);
    forall i | 0 <= i < |out|
      ensures out[i].delta == out[i].endValue - out[i].startValue && Spans(s, runs[i], out[i])
    {
      assert Closes(s, runs[i], out[i], maxGap);
      RunRises(s, runs[i].lo, runs[i].hi);
    }
  }

  /** There is only one way to cut readings into maximal runs, so any two programs that do have the same segments. */
  lemma {:induction false} RunsUnique(s: seq<Reading>, a: seq<Run>, b: seq<Run>, n: nat)
    requires Tiles(a, n) && Tiles(b, n) && n <= |s|
    requires (forall r :: r in a ==> Maximal(s, r)) && (forall r :: r in b ==> Maximal(s, r))
    ensures a == b
    decreases |a|
  {
    if a != [] && b != [] {
      var x, y := a[|a| - 1], b[|b| - 1];
      assert Maximal(s, x) && Maximal(s, y);
      RunsUnique(s, a[..|a| - 1], b[..|b| - 1], x.lo);
      assert a == a[..|a| - 1] + [x] && b == b[..|b| - 1] + [y];
    }
  }

  /** No two different readings have the same time. */
  predicate DistinctTimes(m: multiset<Reading>) {
    forall x, y {:trigger SameIfTimed(x, y)} :: x in m && y in m ==> SameIfTimed(x, y)
  }

  predicate SameIfTimed(x: Reading, y: Reading) {
    x.ts == y.ts ==> x == y
  }

  predicate Sorts(a: seq<Reading>, m: multiset<Reading>) {
    multiset(a) == m && SortedByTime(a)
  }

  lemma SortedHead(a: seq<Reading>, m: multiset<Reading>)
    requires Sorts(a, m) && a != []
    ensures a[0] in m && forall x :: x in m ==> a[0].ts <= x.ts
  {
    forall x | x in m ensures a[0].ts <= x.ts { assert x in a; }
  }

  lemma SortedTail(a: seq<Reading>, m: multiset<Reading>)
    requires Sorts(a, m) && a != []
    ensures a == [a[0]] + a[1..] && Sorts(a[1..], m - multiset{a[0]})
  {
    assert a == [a[0]] + a[1..];
  }

  lemma FewerDistinct(m: multiset<Reading>, r: Reading)
    requires DistinctTimes(m)
    ensures DistinctTimes(m - multiset{r})
  {
    forall x, y | x in m - multiset{r} && y in m - multiset{r} ensures SameIfTimed(x, y) { assert x in m && y in m; }
  }

  /** Sorting readings with distinct timestamps by time has one outcome, whatever the sort. */
  lemma {:induction false} SortUnique(a: seq<Reading>, b: seq<Reading>, m: multiset<Reading>)
    requires Sorts(a, m) && Sorts(b, m) && DistinctTimes(m)
    ensures a == b
    decreases |a|
  {
    assert |a| == |m| == |b|;
    if a != [] {
      HeadsEqual(a, b, m);
      SortedTail(a, m);
      SortedTail(b, m);
      FewerDistinct(m, a[0]);
      SortUnique(a[1..], b[1..], m - multiset{a[0]});
    }
  }

  lemma HeadsEqual(a: seq<Reading>, b: seq<Reading>, m: multiset<Reading>)
    requires Sorts(a, m) && Sorts(b, m) && DistinctTimes(m) && a != [] && b != []
    ensures a[0] == b[0]
  {
    SortedHead(a, m);
    SortedHead(b, m);
    assert SameIfTimed(a[0], b[0]);
  }

  /** From the same rows with distinct timestamps, each sorted by its own sort, the backend's loop and the browser's
      loop produce the same segments. */
  lemma TwinSegmentsAgree(a: seq<Reading>, b: seq<Reading>, runs: seq<Run>, twinRuns: seq<Run>,
                          out: seq<Segment>, twin: seq<Segment>, maxGap: int)
    requires Sorts(a, multiset(b)) && SortedByTime(b) && DistinctTimes(multiset(b))
    requires Tiles(runs, |a|) && SegmentsOf(a, runs, out, maxGap)
    requires Tiles(twinRuns, |b|) && SegmentsOf(b, twinRuns, twin, maxGap)
    ensures out == twin
  {
    SortUnique(a, b, multiset(b));
    RunsUnique(a, runs, twinRuns, |a|);
  }

  // -------------------------------------------------- when sorts disagree

  /** Where a reading stamped `ts` may be inserted. */
  lemma {:induction false} Place(s: seq<Reading>, ts: int) returns (p: nat)
    requires SortedByTime(s)
    ensures p <= |s| && (forall i :: 0 <= i < p ==> s[i].ts <= ts) && (forall i :: p <= i < |s| ==> ts <= s[i].ts)
    decreases |s|
  {
    if s == [] || s[|s| - 1].ts <= ts {
      p := |s|;
    } else {
      p := Place(s[..|s| - 1], ts);
    }
  }

  /** Readings of one time put together into their place. */
  lemma Inserts(s: seq<Reading>, m: multiset<Reading>, p: nat, xs: seq<Reading>, ts: int)
    requires Sorts(s, m) && p <= |s| && forall x :: x in xs ==> x.ts == ts
    requires (forall i :: 0 <= i < p ==> s[i].ts <= ts) && (forall i :: p <= i < |s| ==> ts <= s[i].ts)
    ensures Sorts(s[..p] + xs + s[p..], m + multiset(xs))
  {
    assert s == s[..p] + s[p..];
    var t := s[..p] + xs + s[p..];
    assert forall i :: 0 <= i < |xs| ==> xs[i] in xs;
    forall i, j | 0 <= i < j < |t| ensures t[i].ts <= t[j].ts {
      if i < p && p + |xs| <= j { assert t[i] == s[i] && t[j] == s[j - |xs|]; }
    }
  }

  lemma {:induction false} SortExists(m: multiset<Reading>) returns (s: seq<Reading>)
    ensures Sorts(s, m)
    decreases |m|
  {
    if m == multiset{} {
      s := [];
    } else {
      var x :| x in m;
      var rest := SortExists(m - multiset{x});
      var p := Place(rest, x.ts);
      Inserts(rest, m - multiset{x}, p, [x], x.ts);
      s := rest[..p] + [x] + rest[p..];
      assert m - multiset{x} + multiset([x]) == m;
    }
  }

  /** A fall is where a run begins. */
  lemma {:induction false} FallBegins(s: seq<Reading>, runs: seq<Run>, n: nat, c: nat) returns (i: nat)
    requires Tiles(runs, n) && n <= |s| && c < n && Falls(s, c) && forall r :: r in runs ==> Maximal(s, r)
    ensures i < |runs| && runs[i].lo == c
    decreases |runs|
  {
    var last := runs[|runs| - 1];
    assert Maximal(s, last);
    if last.lo == c {
      i := |runs| - 1;
    } else {
      i := FallBegins(s, runs[..|runs| - 1], last.lo, c);
    }
  }

  /** Runs of equal sizes lie at the same places. */
  lemma {:induction false} SizesDecide(a: seq<Run>, b: seq<Run>, n: nat)
    requires Tiles(a, n) && Tiles(b, n) && |a| == |b|
    requires forall i :: 0 <= i < |a| ==> a[i].hi - a[i].lo == b[i].hi - b[i].lo
    ensures a == b
    decreases |a|
  {
    if a != [] {
      var k := |a| - 1;
      assert a[k] == b[k];
      SizesDecide(a[..k], b[..k], a[k].lo);
      assert a == a[..k] + [a[k]] && b == b[..k] + [b[k]];
    }
  }

  lemma EachMaximal(s: seq<Reading>, runs: seq<Run>, out: seq<Segment>, maxGap: int)
    requires SegmentsOf(s, runs, out, maxGap)
    ensures forall r :: r in runs ==> Maximal(s, r)
  {
    forall r | r in runs ensures Maximal(s, r) {
      var i :| 0 <= i < |runs| && runs[i] == r;
      assert Closes(s, runs[i], out[i], maxGap);
    }
  }

  /** Where the segments are the same, so are the falls. */
  lemma SameSegmentsSameFalls(a: seq<Reading>, b: seq<Reading>, c: nat, runs: seq<Run>, twinRuns: seq<Run>,
                              out: seq<Segment>, maxGap: int)
    requires |a| == |b| && c < |a| && Falls(b, c)
    requires Tiles(runs, |a|) && SegmentsOf(a, runs, out, maxGap)
    requires Tiles(twinRuns, |b|) && SegmentsOf(b, twinRuns, out, maxGap)
    ensures Falls(a, c)
  {
    forall i | 0 <= i < |runs| ensures runs[i].hi - runs[i].lo == twinRuns[i].hi - twinRuns[i].lo {
      assert Closes(a, runs[i], out[i], maxGap) && Closes(b, twinRuns[i], out[i], maxGap);
    }
    SizesDecide(runs, twinRuns, |a|);
    EachMaximal(b, twinRuns, out, maxGap);
    EachMaximal(a, runs, out, maxGap);
    var i := FallBegins(b, twinRuns, |b|, c);
    assert runs[i] in runs;
  }

  lemma PairFalls(lo: seq<Reading>, x: Reading, y: Reading, hi: seq<Reading>)
    ensures Falls(lo + [x, y] + hi, |lo| + 1) <==> y.value < x.value
  {
    var s := lo + [x, y] + hi;
    assert s[|lo|] == x && s[|lo| + 1] == y;
  }

  lemma PairBack(m: multiset<Reading>, x: Reading, y: Reading)
    requires multiset{x, y} <= m
    ensures m - multiset{x, y} + multiset([x, y]) == m && m - multiset{x, y} + multiset([y, x]) == m
  {
    assert multiset([x, y]) == multiset{x, y} == multiset([y, x]);
  }

  /** Two orders of the same readings, one of which falls where the other does not. */
  lemma TwoOrders(m: multiset<Reading>, x: Reading, y: Reading) returns (a: seq<Reading>, b: seq<Reading>, c: nat)
    requires multiset{x, y} <= m && x.ts == y.ts && x.value < y.value
    ensures Sorts(a, m) && Sorts(b, m) && c < |a| == |b| && Falls(b, c) && !Falls(a, c)
  {
    var others := m - multiset{x, y};
    var rest := SortExists(others);
    var p := Place(rest, x.ts);
    Inserts(rest, others, p, [x, y], x.ts);
    Inserts(rest, others, p, [y, x], x.ts);
    a, b, c := rest[..p] + [x, y] + rest[p..], rest[..p] + [y, x] + rest[p..], p + 1;
    PairFalls(rest[..p], x, y, rest[p..]);
    PairFalls(rest[..p], y, x, rest[p..]);
    PairBack(m, x, y);
  }

  /** Two programs that cut these orders into maximal runs produce the same segments. */
  predicate Agree(a: seq<Reading>, b: seq<Reading>, runs: seq<Run>, twinRuns: seq<Run>, out: seq<Segment>,
                  maxGap: int) {
    && Tiles(runs, |a|) && SegmentsOf(a, runs, out, maxGap)
    && Tiles(twinRuns, |b|) && SegmentsOf(b, twinRuns, out, maxGap)
  }

  /** The condition of `TwinSegmentsAgree` is exact: whenever two readings of one time differ, there are two sorts of
      the same readings after which the two loops never produce the same segments, whatever gap is allowed. */
  lemma TiesDisagree(m: multiset<Reading>) returns (a: seq<Reading>, b: seq<Reading>)
    requires !DistinctTimes(m)
    ensures Sorts(a, m) && Sorts(b, m)
    ensures forall runs, twinRuns, out, maxGap :: !Agree(a, b, runs, twinRuns, out, maxGap)
  {
    var x, y :| x in m && y in m && x.ts == y.ts && x.value < y.value;
    var c;
    a, b, c := TwoOrders(m, x, y);
    forall runs, twinRuns, out, maxGap ensures !Agree(a, b, runs, twinRuns, out, maxGap) {
      if Agree(a, b, runs, twinRuns, out, maxGap) { SameSegmentsSameFalls(a, b, c, runs, twinRuns, out, maxGap); }
    }
  }

  /** With equal timestamps the outcome depends on the sort: the same two readings give one segment or two. */
  lemma EqualTimestampsDiffer()
    ensures var up, down := [Reading(1, 0.0), Reading(1, 5.0)], [Reading(1, 5.0), Reading(1, 0.0)];
      && multiset(up) == multiset(down) && SortedByTime(up) && SortedByTime(down)
      && Maximal(up, Run(0, 1)) && Maximal(down, Run(0, 0)) && Maximal(down, Run(1, 1))
  {
  }
}
