/** Sample-period gating meets reporting: rows of one source epoch keep their distance, so a report window never
    holds more of them than it expects. */
module TelemetryReporting {
  import opened Basics
  import opened TelemetryStore
  import Query = QueryService

  /** The times of a point's rows of one epoch, in the order they were written. */
  function EpochTimes(rows: seq<Row>, k: Key, epoch: string): seq<int> {
    if rows == [] then []
    else
      var r := rows[|rows| - 1];
      EpochTimes(rows[..|rows| - 1], k, epoch) + if r.key == k && r.epoch == epoch then [r.sampleTs] else []
  }

  lemma TimesAppend(rows: seq<Row>, r: Row, k: Key, epoch: string)
    ensures EpochTimes(rows + [r], k, epoch) ==
      EpochTimes(rows, k, epoch) + if r.key == k && r.epoch == epoch then [r.sampleTs] else []
  {
    assert (rows + [r])[..|rows|] == rows;
  }

  lemma {:induction false} TimesMember(rows: seq<Row>, r: Row)
    requires r in rows
    ensures r.sampleTs in EpochTimes(rows, r.key, r.epoch)
    decreases |rows|
  {
    if r != rows[|rows| - 1] {
      assert r in rows[..|rows| - 1];
      TimesMember(rows[..|rows| - 1], r);
    }
  }

  /** Each time is at least a period after every one written before it. */
  predicate Spaced(ts: seq<int>, period: nat) {
    forall i, j :: 0 <= i < j < |ts| ==> ts[j] - ts[i] >= period
  }

  predicate Registered(periods: map<Key, nat>, k: Key) {
    k in periods && periods[k] > 0
  }

  ghost predicate AllSpaced(periods: map<Key, nat>, st: Store) {
    forall k, e {:trigger EpochTimes(st.rows, k, e)} :: Registered(periods, k) ==>
      Spaced(EpochTimes(st.rows, k, e), periods[k])
  }

  predicate Admitted(periods: map<Key, nat>, st: Store, s: Sample) {
    Admits(periods, Domain(CursorAt(st.cursors, KeyOf(s)), s), s) && Storable(s)
  }

  /** The cursor that decides about the sample knows of this earlier row: it has moved past it and has not been reset
      since. */
  predicate Covers(c: Cursor, s: Sample, t: int) {
    !Resets(c, s) && t <= c.sampleTs
  }

  /** Rows of the sample's epoch that its cursor does not know of are a period older. */
  predicate UncoveredFar(periods: map<Key, nat>, st: Store, s: Sample)
    requires Registered(periods, KeyOf(s))
  {
    forall t :: t in EpochTimes(st.rows, KeyOf(s), s.epoch) ==>
      Covers(CursorAt(st.durable, KeyOf(s)), s, t) || s.sampleTs - t >= periods[KeyOf(s)]
  }

  predicate FarEnough(periods: map<Key, nat>, st: Store, s: Sample)
    requires Registered(periods, KeyOf(s))
  {
    forall t :: t in EpochTimes(st.rows, KeyOf(s), s.epoch) ==> s.sampleTs - t >= periods[KeyOf(s)]
  }

  /** The guard of admission looks only at the cursor, and that suffices for all rows which the cursor knows of. */
  lemma GuardCovers(periods: map<Key, nat>, st: Store, s: Sample)
    requires Synced(st) && Registered(periods, KeyOf(s)) && Admitted(periods, st, s)
    requires forall t :: t in EpochTimes(st.rows, KeyOf(s), s.epoch) ==> t > 0
    ensures UncoveredFar(periods, st, s) <==> FarEnough(periods, st, s)
  {
    assert CursorAt(st.cursors, KeyOf(s)) == CursorAt(st.durable, KeyOf(s));
  }

  lemma SpacedAppend(ts: seq<int>, t: int, period: nat)
    requires Spaced(ts, period)
    ensures Spaced(ts + [t], period) <==> forall x :: x in ts ==> t - x >= period
  {
    if Spaced(ts + [t], period) {
      forall x | x in ts ensures t - x >= period {
        var i :| 0 <= i < |ts| && ts[i] == x;
        assert (ts + [t])[|ts|] == t && (ts + [t])[i] == x;
      }
    } else {
      var i, j :| 0 <= i < j < |ts + [t]| && (ts + [t])[j] - (ts + [t])[i] < period;
      assert j == |ts| && ts[i] in ts;
    }
  }

  // ------------------------------------------------------- exactly when it holds

  /** Samples are taken; between two the process may restart; and it may crash in the middle of one, between the row
      and the durable cursor, which are written by two statements without a transaction. */
  datatype Event = Take(s: Sample) | Torn(s: Sample) | Restart

  function After(periods: map<Key, nat>, st: Store, e: Event): Store {
    match e
    case Take(s) => Ingest(periods, st, s).0
    case Torn(s) => Restarted(if Admitted(periods, st, s) then st.(rows := Inserted(st.rows, s)) else st)
    case Restart => Restarted(st)
  }

  /** The event writes a new row of a registered point. */
  predicate Writes(periods: map<Key, nat>, st: Store, e: Event) {
    !e.Restart? && Registered(periods, KeyOf(e.s)) && Admitted(periods, st, e.s) && RowOf(e.s) !in st.rows
  }

  /** Stored times are positive. */
  ghost predicate PositiveRows(st: Store) {
    forall r :: r in st.rows ==> r.sampleTs > 0
  }

  lemma {:induction false} TimesPositive(rows: seq<Row>, k: Key, e: string)
    requires forall r :: r in rows ==> r.sampleTs > 0
    ensures forall t :: t in EpochTimes(rows, k, e) ==> t > 0
    decreases |rows|
  {
    if rows != [] { TimesPositive(rows[..|rows| - 1], k, e); }
  }

  lemma RowsAfter(periods: map<Key, nat>, st: Store, e: Event)
    requires Synced(st) && PositiveRows(st) && (!e.Restart? ==> e.s.sampleTs > 0)
    ensures var u := After(periods, st, e);
      && Synced(u) && PositiveRows(u)
      && u.rows == if !e.Restart? && Admitted(periods, st, e.s) then Inserted(st.rows, e.s) else st.rows
  {
    if e.Take? { SyncedExactly(periods, st, e.s); }
  }

  lemma OtherTimesStay(rows: seq<Row>, r: Row, k: Key, e: string)
    requires !(r.key == k && r.epoch == e)
    ensures EpochTimes(rows + [r], k, e) == EpochTimes(rows, k, e)
  {
    TimesAppend(rows, r, k, e);
  }

  /** An event keeps all rows of registered points a period apart, epoch by epoch, if and only if the row it writes,
      if any, is a period younger than those which the cursor does not know of. */
  lemma SpacingKeptExactly(periods: map<Key, nat>, st: Store, e: Event)
    requires Synced(st) && PositiveRows(st) && AllSpaced(periods, st) && (!e.Restart? ==> e.s.sampleTs > 0)
    ensures AllSpaced(periods, After(periods, st, e)) <==> (Writes(periods, st, e) ==> UncoveredFar(periods, st, e.s))
  {
    var u := After(periods, st, e);
    RowsAfter(periods, st, e);
    if !e.Restart? && Admitted(periods, st, e.s) && RowOf(e.s) !in st.rows {
      var k, epoch := KeyOf(e.s), e.s.epoch;
      TimesPositive(st.rows, k, epoch);
      TimesAppend(st.rows, RowOf(e.s), k, epoch);
      if Registered(periods, k) {
        GuardCovers(periods, st, e.s);
        SpacedAppend(EpochTimes(st.rows, k, epoch), e.s.sampleTs, periods[k]);
      }
      forall x, y | !(x == k && y == epoch) ensures EpochTimes(u.rows, x, y) == EpochTimes(st.rows, x, y) {
        OtherTimesStay(st.rows, RowOf(e.s), x, y);
      }
    } else {
      assert u.rows == st.rows;
    }
  }

  /** The states of one installation while samples with positive times arrive. */
  ghost predicate Run(periods: map<Key, nat>, sts: seq<Store>, es: seq<Event>) {
    && |sts| == |es| + 1 && sts[0] == Store(map[], [], map[])
    && forall j :: 0 <= j < |es| ==>
         (!es[j].Restart? ==> es[j].s.sampleTs > 0) && sts[j + 1] == After(periods, sts[j], es[j])
  }

  lemma {:induction false} RunSynced(periods: map<Key, nat>, sts: seq<Store>, es: seq<Event>, i: nat)
    requires Run(periods, sts, es) && i < |sts|
    ensures Synced(sts[i]) && PositiveRows(sts[i])
  {
    if i > 0 {
      RunSynced(periods, sts, es, i - 1);
      assert sts[i - 1 + 1] == After(periods, sts[i - 1], es[i - 1]);
      RowsAfter(periods, sts[i - 1], es[i - 1]);
    }
  }

  /** The j-th event writes nothing that comes too close to a row unknown to its cursor. */
  predicate OnCourse(periods: map<Key, nat>, sts: seq<Store>, es: seq<Event>, j: nat)
    requires j < |es| <= |sts|
  {
    Writes(periods, sts[j], es[j]) ==> UncoveredFar(periods, sts[j], es[j].s)
  }

  lemma {:induction false} SpacedOnCourse(periods: map<Key, nat>, sts: seq<Store>, es: seq<Event>, i: nat)
    requires Run(periods, sts, es) && i < |sts| && forall j :: 0 <= j < i ==> OnCourse(periods, sts, es, j)
    ensures AllSpaced(periods, sts[i])
  {
    if i > 0 {
      SpacedOnCourse(periods, sts, es, i - 1);
      RunSynced(periods, sts, es, i - 1);
      assert OnCourse(periods, sts, es, i - 1);
      SpacingKeptExactly(periods, sts[i - 1], es[i - 1]);
      assert sts[i - 1 + 1] == After(periods, sts[i - 1], es[i - 1]);
    }
  }

  /** Over a whole run, with restarts and torn writes: the rows of every registered point stay a period apart within
      each epoch if and only if no event writes a row too close to one that its cursor does not know of. */
  lemma RunSpacedExactly(periods: map<Key, nat>, sts: seq<Store>, es: seq<Event>, i: nat)
    requires Run(periods, sts, es) && i < |sts|
    ensures (forall j :: 0 <= j <= i ==> AllSpaced(periods, sts[j])) <==>
      (forall j :: 0 <= j < i ==> OnCourse(periods, sts, es, j))
  {
    if forall j :: 0 <= j < i ==> OnCourse(periods, sts, es, j) {
      forall j | 0 <= j <= i ensures AllSpaced(periods, sts[j]) { SpacedOnCourse(periods, sts, es, j); }
    } else {
      var j :| 0 <= j < i && !OnCourse(periods, sts, es, j);
      if AllSpaced(periods, sts[j]) {
        RunSynced(periods, sts, es, j);
        SpacingKeptExactly(periods, sts[j], es[j]);
        assert sts[j + 1] == After(periods, sts[j], es[j]);
      }
    }
  }

  // --------------------------------------------- what the cursor does not know

  /** The cursor of `k` knows of all rows of an epoch. */
  predicate Covered(st: Store, k: Key, e: string) {
    forall t :: t in EpochTimes(st.rows, k, e) ==> t <= CursorAt(st.durable, k).sampleTs
  }

  /** A sample takes the cursor back only when it names an epoch other than the last, and both are named; so with
      whole writes all rows of an epoch stay known, also when samples without an epoch come in between, until such a
      reset. */
  lemma CoverageLostOnlyByReset(periods: map<Key, nat>, st: Store, s: Sample, k: Key, e: string)
    requires Synced(st) && s.sampleTs > 0 && Covered(st, k, e)
    requires !(KeyOf(s) == k && Resets(CursorAt(st.durable, k), s))
    ensures Covered(After(periods, st, Take(s)), k, e)
  {
    var c := CursorAt(st.durable, KeyOf(s));
    assert CursorAt(st.cursors, KeyOf(s)) == c;
    TimesAppend(st.rows, RowOf(s), k, e);
  }

  /** A sample of a known epoch, or of an epoch the point never had, is on course. */
  lemma CoveredIsOnCourse(periods: map<Key, nat>, st: Store, s: Sample)
    requires Registered(periods, KeyOf(s))
    requires EpochTimes(st.rows, KeyOf(s), s.epoch) == []
      || (Covered(st, KeyOf(s), s.epoch) && !Resets(CursorAt(st.durable, KeyOf(s)), s))
    ensures UncoveredFar(periods, st, s)
  {
  }

  function EpochsOf(rows: seq<Row>, k: Key): set<string> {
    set r | r in rows && r.key == k :: r.epoch
  }

  lemma {:induction false} UnusedEpoch(rows: seq<Row>, k: Key, e: string)
    requires e !in EpochsOf(rows, k)
    ensures EpochTimes(rows, k, e) == []
    decreases |rows|
  {
    if rows != [] {
      assert rows[|rows| - 1] in rows;
      assert forall r :: r in rows[..|rows| - 1] ==> r in rows;
      assert e !in EpochsOf(rows[..|rows| - 1], k);
      UnusedEpoch(rows[..|rows| - 1], k, e);
    }
  }

  predicate ResetBy(st: Store, e: Event, k: Key) {
    e.Take? && KeyOf(e.s) == k && Resets(CursorAt(st.durable, k), e.s)
  }

  /** The epochs that the point had when its cursor was last reset. */
  function Left(sts: seq<Store>, es: seq<Event>, j: nat, k: Key): set<string>
    requires j <= |es| <= |sts|
    decreases j
  {
    if j == 0 then {}
    else if ResetBy(sts[j - 1], es[j - 1], k) then EpochsOf(sts[j - 1].rows, k)
    else Left(sts, es, j - 1, k)
  }

  /** Every write is whole, and no sample belongs to an epoch that its point has left by a reset. */
  predicate NoReturn(sts: seq<Store>, es: seq<Event>)
    requires |es| <= |sts|
  {
    forall j {:trigger es[j]} :: 0 <= j < |es| ==>
      !es[j].Torn? && (es[j].Take? ==> es[j].s.epoch !in Left(sts, es, j + 1, KeyOf(es[j].s)))
  }

  lemma ResetCovers(periods: map<Key, nat>, st: Store, s: Sample, e: string)
    requires Synced(st) && s.sampleTs > 0 && Resets(CursorAt(st.durable, KeyOf(s)), s)
    requires e !in EpochsOf(st.rows, KeyOf(s))
    ensures Covered(After(periods, st, Take(s)), KeyOf(s), e)
  {
    assert CursorAt(st.cursors, KeyOf(s)) == CursorAt(st.durable, KeyOf(s));
    UnusedEpoch(st.rows, KeyOf(s), e);
    TimesAppend(st.rows, RowOf(s), KeyOf(s), e);
  }

  lemma {:induction false} RunCovers(periods: map<Key, nat>, sts: seq<Store>, es: seq<Event>, i: nat, k: Key, e: string)
    requires Run(periods, sts, es) && i < |sts| && NoReturn(sts, es) && e !in Left(sts, es, i, k)
    ensures Covered(sts[i], k, e)
  {
    if i > 0 {
      RunSynced(periods, sts, es, i - 1);
      assert sts[i - 1 + 1] == After(periods, sts[i - 1], es[i - 1]) && !es[i - 1].Torn?;
      if ResetBy(sts[i - 1], es[i - 1], k) {
        ResetCovers(periods, sts[i - 1], es[i - 1].s, e);
      } else {
        RunCovers(periods, sts, es, i - 1, k, e);
        if es[i - 1].Take? { CoverageLostOnlyByReset(periods, sts[i - 1], es[i - 1].s, k, e); }
      }
    }
  }

  /** With whole writes, in every run in which no sample belongs to an epoch that its point has left by a reset,
      whatever restarts and samples without an epoch come in between: the rows of a registered point stay a period
      apart within each epoch. */
  lemma RunKeepsSpacing(periods: map<Key, nat>, sts: seq<Store>, es: seq<Event>, i: nat)
    requires Run(periods, sts, es) && i < |sts| && NoReturn(sts, es)
    ensures AllSpaced(periods, sts[i]) && forall j :: 0 <= j < i ==> OnCourse(periods, sts, es, j)
  {
    forall j | 0 <= j < i ensures OnCourse(periods, sts, es, j) {
      if Writes(periods, sts[j], es[j]) {
        var s := es[j].s;
        assert es[j].Take? && s.epoch !in Left(sts, es, j + 1, KeyOf(s));
        if ResetBy(sts[j], es[j], KeyOf(s)) {
          UnusedEpoch(sts[j].rows, KeyOf(s), s.epoch);
        } else {
          RunCovers(periods, sts, es, j, KeyOf(s), s.epoch);
        }
        CoveredIsOnCourse(periods, sts[j], s);
      }
    }
    SpacedOnCourse(periods, sts, es, i);
  }

  // --------------------------------------------------------------- reporting

  function Within(ts: seq<int>, from: int, to: int): seq<int> {
    if ts == [] then []
    else Within(ts[..|ts| - 1], from, to) + if from <= ts[|ts| - 1] <= to then [ts[|ts| - 1]] else []
  }

  lemma {:induction false} WithinSpaced(ts: seq<int>, from: int, to: int, period: nat)
    requires Spaced(ts, period)
    ensures var w := Within(ts, from, to);
      Spaced(w, period) && (forall t :: t in w ==> from <= t <= to && t in ts)
    decreases |ts|
  {
    if ts != [] {
      var n := |ts| - 1;
      WithinSpaced(ts[..n], from, to, period);
      assert ts[..n] + [ts[n]] == ts;
      SpacedAppend(ts[..n], ts[n], period);
      SpacedAppend(Within(ts[..n], from, to), ts[n], period);
    }
  }

  lemma {:induction false} SpanGrows(ts: seq<int>, period: nat)
    requires Spaced(ts, period) && ts != []
    ensures ts[|ts| - 1] - ts[0] >= (|ts| - 1) * period
    decreases |ts|
  {
    if |ts| > 1 {
      var n := |ts| - 1;
      SpanGrows(ts[..n], period);
      assert ts[n] - ts[n - 1] >= period;
      assert n * period == (n - 1) * period + period;
    }
  }

  lemma CountFits(n: nat, span: int, period: int)
    requires period > 0 && span >= 0 && n >= 1 && (n - 1) * period <= span
    ensures n <= span / period + 1
  {
    assert span < (span / period + 1) * period;
    ProductOrder(n - 1, span / period + 1, period);
  }

  lemma ProductOrder(a: int, b: int, c: int)
    requires c > 0 && a * c < b * c
    ensures a < b
  {
  }

  /** At most as many well-spaced rows lie in a window as a report expects there. */
  lemma SpacedCount(ts: seq<int>, from: int, to: int, period: nat)
    requires Spaced(ts, period) && Query.ValidWindow(from, to, period)
    ensures |Within(ts, from, to)| <= Query.Expected(from, to, period)
  {
    var w := Within(ts, from, to);
    WithinSpaced(ts, from, to, period);
    if w != [] {
      SpanGrows(w, period);
      assert w[0] in w && w[|w| - 1] in w;
      CountFits(|w|, to - from, period);
    }
  }

  /** The rows of a point in a window that belong to one of the given epochs. */
  function Count(rows: seq<Row>, k: Key, epochs: set<string>, from: int, to: int): nat {
    if rows == [] then 0
    else
      var r := rows[|rows| - 1];
      var counts := r.key == k && r.epoch in epochs && from <= r.sampleTs <= to;
      Count(rows[..|rows| - 1], k, epochs, from, to) + if counts then 1 else 0
  }

  lemma WithinAppend(ts: seq<int>, t: int, from: int, to: int)
    ensures Within(ts + [t], from, to) == Within(ts, from, to) + if from <= t <= to then [t] else []
  {
    assert (ts + [t])[..|ts|] == ts;
  }

  lemma {:induction false} CountOne(rows: seq<Row>, k: Key, e: string, from: int, to: int)
    ensures Count(rows, k, {e}, from, to) == |Within(EpochTimes(rows, k, e), from, to)|
    decreases |rows|
  {
    if rows != [] {
      CountOne(rows[..|rows| - 1], k, e, from, to);
      var n, r := |rows| - 1, rows[|rows| - 1];
      var ts := EpochTimes(rows[..n], k, e);
      assert rows[..n] + [r] == rows;
      TimesAppend(rows[..n], r, k, e);
      WithinAppend(ts, r.sampleTs, from, to);
      assert ts + [] == ts;
    }
  }

  lemma {:induction false} CountSplits(rows: seq<Row>, k: Key, epochs: set<string>, e: string, from: int, to: int)
    requires e in epochs
    ensures Count(rows, k, epochs, from, to) == Count(rows, k, epochs - {e}, from, to) + Count(rows, k, {e}, from, to)
    decreases |rows|
  {
    if rows != [] { CountSplits(rows[..|rows| - 1], k, epochs, e, from, to); }
  }

  lemma {:induction false} CountNone(rows: seq<Row>, k: Key, from: int, to: int)
    ensures Count(rows, k, {}, from, to) == 0
    decreases |rows|
  {
    if rows != [] { CountNone(rows[..|rows| - 1], k, from, to); }
  }

  lemma OneMore(n: nat, expected: nat)
    ensures n * expected + expected == (n + 1) * expected
  {
  }

  /** What the source of a well-spaced point can have stored in a window: as many rows as coverage expects, for each
      of its epochs. */
  lemma {:induction false} EpochsCount(rows: seq<Row>, k: Key, epochs: set<string>, from: int, to: int, period: nat)
    requires Query.ValidWindow(from, to, period) && forall e :: e in epochs ==> Spaced(EpochTimes(rows, k, e), period)
    ensures Count(rows, k, epochs, from, to) <= |epochs| * Query.Expected(from, to, period)
    decreases epochs
  {
    if epochs == {} {
      CountNone(rows, k, from, to);
    } else {
      var e :| e in epochs;
      CountSplits(rows, k, epochs, e, from, to);
      CountOne(rows, k, e, from, to);
      SpacedCount(EpochTimes(rows, k, e), from, to, period);
      EpochsCount(rows, k, epochs - {e}, from, to, period);
      OneMore(|epochs - {e}|, Query.Expected(from, to, period));
    }
  }

  /** The epochs of which a window holds rows of the point. */
  function EpochsWithin(rows: seq<Row>, k: Key, from: int, to: int): set<string> {
    set r | r in rows && r.key == k && from <= r.sampleTs <= to :: r.epoch
  }

  const REPORT_LIMIT := 10000

  /** How many rows of the point a report over a window reads: the newest ones, up to the limit. */
  function RowsRead(rows: seq<Row>, k: Key, from: int, to: int): nat {
    var found := Count(rows, k, EpochsWithin(rows, k, from, to), from, to);
    if found < REPORT_LIMIT then found else REPORT_LIMIT
  }

  /** The report of a registered point, over all epochs that the window holds of it, in every run that stays on
      course: it never receives more rows than it expects for each of these epochs, and with one epoch its coverage
      is exactly the rows read over the rows expected. */
  lemma CoverageBounded(periods: map<Key, nat>, sts: seq<Store>, es: seq<Event>, i: nat, k: Key, from: int, to: int,
                        good: seq<bool>)
    requires Run(periods, sts, es) && i < |sts| && forall j :: 0 <= j < i ==> OnCourse(periods, sts, es, j)
    requires Registered(periods, k) && Query.ValidWindow(from, to, periods[k])
    requires |good| == RowsRead(sts[i].rows, k, from, to)
    ensures |good| <= |EpochsWithin(sts[i].rows, k, from, to)| * Query.Expected(from, to, periods[k])
    ensures |EpochsWithin(sts[i].rows, k, from, to)| <= 1 ==>
      var expected := Query.Expected(from, to, periods[k]);
      Query.CoverageSpec(good, from, to, periods[k]).coverage == Some(|good| as real / expected as real)
  {
    var epochs := EpochsWithin(sts[i].rows, k, from, to);
    SpacedOnCourse(periods, sts, es, i);
    EpochsCount(sts[i].rows, k, epochs, from, to, periods[k]);
    if |epochs| <= 1 {
      assert |good| <= Query.Expected(from, to, periods[k]);
      Query.ClampFiresExactly(good, from, to, periods[k]);
    }
  }

  // ------------------------------------------------------ what breaks spacing

  const POINT: Key := ("d", "p")

  const PERIODS: map<Key, nat> := map[POINT := 1000]

  function At(ts: int, epoch: string): Sample {
    Sample("d", "p", ts, 0, epoch)
  }

  function RowAt(ts: int, epoch: string): Row {
    Row(POINT, epoch, ts, 0)
  }

  /** A store whose memory agrees with its durable cursor. */
  function With(rows: seq<Row>, ts: int, epoch: string): Store {
    var c := Cursor(ts, 0, epoch);
    Store(map[POINT := c], rows, map[POINT := c])
  }

  lemma ThreeRows(a: Row, b: Row, c: Row, k: Key, e: string)
    ensures EpochTimes([] + [a] + [b] + [c], k, e) ==
      (if a.key == k && a.epoch == e then [a.sampleTs] else [])
      + (if b.key == k && b.epoch == e then [b.sampleTs] else [])
      + (if c.key == k && c.epoch == e then [c.sampleTs] else [])
  {
    TimesAppend([], a, k, e);
    TimesAppend([] + [a], b, k, e);
    TimesAppend([] + [a] + [b], c, k, e);
  }

  /** A source that returns to an earlier epoch: the cursor has been reset twice, and two rows of epoch "A" end up 1
      ms apart. */
  lemma ReturnBreaksSpacing() returns (sts: seq<Store>, es: seq<Event>)
    ensures es == [Take(At(1000, "A")), Take(At(500, "B")), Take(At(1001, "A"))] && Run(PERIODS, sts, es)
    ensures EpochTimes(sts[3].rows, POINT, "A") == [1000, 1001] && !OnCourse(PERIODS, sts, es, 2)
  {
    var a, b, c := RowAt(1000, "A"), RowAt(500, "B"), RowAt(1001, "A");
    es := [Take(At(1000, "A")), Take(At(500, "B")), Take(At(1001, "A"))];
    sts := [Store(map[], [], map[]), With([] + [a], 1000, "A"), With([] + [a] + [b], 500, "B"),
            With([] + [a] + [b] + [c], 1001, "A")];
    ThreeRows(a, b, c, POINT, "A");
    TimesAppend([], a, POINT, "A");
    TimesAppend([] + [a], b, POINT, "A");
    assert 1000 in EpochTimes(sts[2].rows, POINT, "A");
  }

  /** A crash between the row and its cursor: the restarted process does not know of the row at 2000 and takes one 1
      ms later. */
  lemma TornInsertBreaksSpacing() returns (sts: seq<Store>, es: seq<Event>)
    ensures es == [Take(At(1000, "A")), Torn(At(2000, "A")), Take(At(2001, "A"))] && Run(PERIODS, sts, es)
    ensures EpochTimes(sts[3].rows, POINT, "A") == [1000, 2000, 2001] && !OnCourse(PERIODS, sts, es, 2)
  {
    var a, b, c := RowAt(1000, "A"), RowAt(2000, "A"), RowAt(2001, "A");
    es := [Take(At(1000, "A")), Torn(At(2000, "A")), Take(At(2001, "A"))];
    sts := [Store(map[], [], map[]), With([] + [a], 1000, "A"), With([] + [a] + [b], 1000, "A"),
            With([] + [a] + [b] + [c], 2001, "A")];
    ThreeRows(a, b, c, POINT, "A");
    TimesAppend([], a, POINT, "A");
    TimesAppend([] + [a], b, POINT, "A");
    assert 2000 in EpochTimes(sts[2].rows, POINT, "A");
  }

  /** After a torn write in an epoch that was well-spaced and known, exactly the rows within a period after the
      orphan break it. */
  lemma NextAfterTornExactly(periods: map<Key, nat>, st: Store, s: Sample, u: Sample)
    requires Synced(st) && PositiveRows(st) && AllSpaced(periods, st) && Registered(periods, KeyOf(s))
    requires KeyOf(u) == KeyOf(s) && u.epoch == s.epoch && s.sampleTs > 0 && u.sampleTs > 0
    requires Covered(st, KeyOf(s), s.epoch) && !Resets(CursorAt(st.durable, KeyOf(s)), s)
    requires Admitted(periods, st, s) && RowOf(s) !in st.rows
    requires var torn := After(periods, st, Torn(s)); Admitted(periods, torn, u) && RowOf(u) !in torn.rows
    ensures var torn := After(periods, st, Torn(s));
      AllSpaced(periods, After(periods, torn, Take(u))) <==> u.sampleTs - s.sampleTs >= periods[KeyOf(s)]
  {
    var k, torn := KeyOf(s), After(periods, st, Torn(s));
    CoveredIsOnCourse(periods, st, s);
    SpacingKeptExactly(periods, st, Torn(s));
    RowsAfter(periods, st, Torn(s));
    SpacingKeptExactly(periods, torn, Take(u));
    TimesPositive(torn.rows, k, u.epoch);
    GuardCovers(periods, torn, u);
    TimesAppend(st.rows, RowOf(s), k, s.epoch);
    TimesPositive(st.rows, k, s.epoch);
    CoveredIsOnCourse(periods, st, u);
    GuardCovers(periods, st, u);
    assert s.sampleTs in EpochTimes(torn.rows, k, u.epoch);
  }
}
