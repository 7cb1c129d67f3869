/** Telemetry admission and persistence: the in-memory cursors that decide, the rows, and the durable cursors a
    restart reads. */
module TelemetryStore {
  type Key = (string, string)

  datatype Sample = Sample(deviceId: string, pointId: string, sampleTs: int, seqNo: int, epoch: string)

  datatype Cursor = Cursor(sampleTs: int, seqNo: int, epoch: string)

  const BLANK := Cursor(0, -1, "")

  datatype Row = Row(key: Key, epoch: string, sampleTs: int, seqNo: int)

  datatype Store = Store(cursors: map<Key, Cursor>, rows: seq<Row>, durable: map<Key, Cursor>)

  // --------------------------------------------------------- specification

  function KeyOf(s: Sample): Key {
    (s.deviceId, s.pointId)
  }

  function CursorAt(cursors: map<Key, Cursor>, k: Key): Cursor {
    if k in cursors then cursors[k] else BLANK
  }

  /** An explicit restart of the source begins a new sequence. */
  predicate Resets(c: Cursor, s: Sample) {
    s.epoch != "" && c.epoch != "" && s.epoch != c.epoch
  }

  function Domain(c: Cursor, s: Sample): Cursor {
    if Resets(c, s) then BLANK else c
  }

  /** Later than the cursor and, for a registered point, at least one sample period later. */
  predicate Admits(periods: map<Key, nat>, c: Cursor, s: Sample) {
    && !(s.sampleTs < c.sampleTs || (s.sampleTs == c.sampleTs && s.seqNo <= c.seqNo))
    && !(KeyOf(s) in periods && c.sampleTs > 0 && s.sampleTs - c.sampleTs < periods[KeyOf(s)])
  }

  predicate Storable(s: Sample) {
    s.deviceId != "" && s.pointId != "" && s.sampleTs > 0
  }

  function RowOf(s: Sample): Row {
    Row(KeyOf(s), s.epoch, s.sampleTs, s.seqNo)
  }

  function CursorOf(s: Sample): Cursor {
    Cursor(s.sampleTs, s.seqNo, s.epoch)
  }

  /** A row with the same unique key is not inserted again. */
  function Inserted(rows: seq<Row>, s: Sample): seq<Row> {
    if RowOf(s) in rows then rows else rows + [RowOf(s)]
  }

  /** The durable cursor moves to another epoch, or forward within its own. */
  function Upserted(durable: map<Key, Cursor>, s: Sample): map<Key, Cursor> {
    var c := CursorAt(durable, KeyOf(s));
    if KeyOf(s) in durable && c.epoch == s.epoch
       && !(s.sampleTs > c.sampleTs || (s.sampleTs == c.sampleTs && s.seqNo > c.seqNo))
    then durable
    else durable[KeyOf(s) := CursorOf(s)]
  }

  /** One sample; false when the historian refuses it by throwing. */
  function Ingest(periods: map<Key, nat>, st: Store, s: Sample): (Store, bool) {
    var k := KeyOf(s);
    var c := Domain(CursorAt(st.cursors, k), s);
    if !Admits(periods, c, s) then (st.(cursors := st.cursors[k := c]), true)
    else if !Storable(s) then (st.(cursors := st.cursors[k := c]), false)
    else (Store(st.cursors[k := CursorOf(s)], Inserted(st.rows, s), Upserted(st.durable, s)), true)
  }

  /** A poll: samples in order until one is refused. */
  function IngestAll(periods: map<Key, nat>, st: Store, samples: seq<Sample>): (Store, bool)
    decreases |samples|
  {
    if samples == [] then (st, true)
    else
      var (next, ok) := Ingest(periods, st, samples[0]);
      if !ok then (next, false) else IngestAll(periods, next, samples[1..])
  }

  /** A restart reads the durable cursors. */
  function Restarted(st: Store): Store {
    st.(cursors := st.durable)
  }

  // ------------------------------------------------------------ the service

  class TelemetryService {
    const periods: map<Key, nat>
    var cursors: map<Key, Cursor>
    var rows: seq<Row>
    var durable: map<Key, Cursor>

    /** A start, whatever the cursors in memory were before it. */
    constructor (periods: map<Key, nat>, rows: seq<Row>, durable: map<Key, Cursor>)
      ensures this.periods == periods && Contents() == Store(durable, rows, durable)
      ensures forall forgotten :: Contents() == Restarted(Store(forgotten, rows, durable))
    {
      this.periods := periods;
      cursors, this.rows, this.durable := durable, rows, durable;
    }

    ghost function Contents(): Store
      reads this
    {
      Store(cursors, rows, durable)
    }

    method InsertTelemetry(s: Sample) returns (ok: bool)
      modifies this`rows, this`durable
      ensures ok <==> Storable(s)
      ensures rows == if ok then Inserted(old(rows), s) else old(rows)
      ensures durable == if ok then Upserted(old(durable), s) else old(durable)
    {
      ok := Storable(s);
      if ok {
        if RowOf(s) !in rows {
          rows := rows + [RowOf(s)];
        }
        var k := KeyOf(s);
        if k !in durable || durable[k].epoch != s.epoch || s.sampleTs > durable[k].sampleTs
           || (s.sampleTs == durable[k].sampleTs && s.seqNo > durable[k].seqNo) {
          durable := durable[k := CursorOf(s)];
        }
      }
    }

    method PersistTelemetry(samples: seq<Sample>) returns (ok: bool)
      modifies this
      ensures (Contents(), ok) == IngestAll(periods, old(Contents()), samples)
    {
      ok := true;
      assert samples[0..] == samples;
      for i := 0 to |samples|
        invariant ok && IngestAll(periods, old(Contents()), samples) == IngestAll(periods, Contents(), samples[i..])
      {
        var s := samples[i];
        ghost var before := Contents();
        assert samples[i..][0] == s && samples[i..][1..] == samples[i + 1..];
        var k := KeyOf(s);
        var cursor := if k in cursors then cursors[k] else BLANK;
        if s.epoch != "" && cursor.epoch != "" && s.epoch != cursor.epoch {
          cursor := BLANK;
        }
        cursors := cursors[k := cursor];
        if s.sampleTs < cursor.sampleTs || (s.sampleTs == cursor.sampleTs && s.seqNo <= cursor.seqNo) {
          continue;
        }
        if k in periods && cursor.sampleTs > 0 && s.sampleTs - cursor.sampleTs < periods[k] {
          continue;
        }
        ok := InsertTelemetry(s);
        if !ok {
          assert (Contents(), false) == Ingest(periods, before, s);
          return;
        }
        cursors := cursors[k := CursorOf(s)];
        assert cursors == before.cursors[k := CursorOf(s)];
        assert (Contents(), true) == Ingest(periods, before, s);
      }
    }
  }

  // ------------------------------------------------- memory and durable cursor

  /** Memory and the durable table agree about every point; the table only holds points and times that can be stored. */
  ghost predicate Synced(st: Store) {
    && (forall k :: CursorAt(st.cursors, k) == CursorAt(st.durable, k))
    && (forall k :: k in st.durable ==> st.durable[k].sampleTs > 0 && k.0 != "" && k.1 != "")
  }

  /** They stay in agreement with every sample except one that announces a new epoch without a positive time: it
      resets the cursor in memory and is then refused. */
  lemma SyncedExactly(periods: map<Key, nat>, st: Store, s: Sample)
    requires Synced(st)
    ensures Synced(Ingest(periods, st, s).0) <==> !(Resets(CursorAt(st.cursors, KeyOf(s)), s) && s.sampleTs <= 0)
  {
    var k, u := KeyOf(s), Ingest(periods, st, s).0;
    assert CursorAt(st.cursors, k) == CursorAt(st.durable, k);
    if Resets(CursorAt(st.cursors, k), s) && s.sampleTs <= 0 {
      assert CursorAt(u.cursors, k) == BLANK && CursorAt(u.durable, k) != BLANK;
    } else {
      forall x ensures CursorAt(u.cursors, x) == CursorAt(u.durable, x) {
        assert CursorAt(st.cursors, x) == CursorAt(st.durable, x);
      }
    }
  }

  /** Such a sample, after another one in an empty store: memory forgets its cursor and the table keeps it. */
  lemma EpochWithoutTimeSeparates()
    ensures var st := Ingest(map[], Store(map[], [], map[]), Sample("d", "p", 1000, 0, "A")).0;
      var u := Ingest(map[], st, Sample("d", "p", 0, 0, "B")).0;
      && Synced(st)
      && CursorAt(u.cursors, ("d", "p")) == BLANK && CursorAt(u.durable, ("d", "p")) == Cursor(1000, 0, "A")
  {
    SyncedExactly(map[], Store(map[], [], map[]), Sample("d", "p", 1000, 0, "A"));
  }

  /** Normalized samples have positive times, so any number of polls keeps memory and table in agreement. */
  lemma {:induction false} PollKeepsSynced(periods: map<Key, nat>, st: Store, samples: seq<Sample>)
    requires Synced(st) && forall s :: s in samples ==> s.sampleTs > 0
    ensures Synced(IngestAll(periods, st, samples).0)
    decreases |samples|
  {
    if samples != [] {
      SyncedExactly(periods, st, samples[0]);
      var (next, ok) := Ingest(periods, st, samples[0]);
      if ok { PollKeepsSynced(periods, next, samples[1..]); }
    }
  }

  /** Two stores that differ only in cursors no lookup can tell apart. */
  ghost predicate SameDecisions(a: Store, b: Store) {
    && a.rows == b.rows && a.durable == b.durable
    && forall k :: CursorAt(a.cursors, k) == CursorAt(b.cursors, k)
  }

  lemma {:induction false} LookupsDecide(periods: map<Key, nat>, a: Store, b: Store, samples: seq<Sample>)
    requires SameDecisions(a, b)
    ensures IngestAll(periods, a, samples).1 == IngestAll(periods, b, samples).1
    ensures SameDecisions(IngestAll(periods, a, samples).0, IngestAll(periods, b, samples).0)
    decreases |samples|
  {
    if samples != [] {
      var s := samples[0];
      var (x, ok) := Ingest(periods, a, s);
      var (y, _) := Ingest(periods, b, s);
      assert CursorAt(a.cursors, KeyOf(s)) == CursorAt(b.cursors, KeyOf(s));
      forall k ensures CursorAt(x.cursors, k) == CursorAt(y.cursors, k) {
        assert CursorAt(a.cursors, k) == CursorAt(b.cursors, k);
      }
      if ok { LookupsDecide(periods, x, y, samples[1..]); }
    }
  }

  /** A restart changes no later admission: whatever comes, the same rows and cursors are written. */
  lemma RestartChangesNothing(periods: map<Key, nat>, st: Store, samples: seq<Sample>)
    requires Synced(st)
    ensures SameDecisions(IngestAll(periods, Restarted(st), samples).0, IngestAll(periods, st, samples).0)
  {
    LookupsDecide(periods, Restarted(st), st, samples);
  }

  // ------------------------------------------------------- what is stored

  /** The source announced a new epoch since `c` was taken. */
  predicate Restarts(c: Cursor, s: Sample) {
    c.epoch != "" && s.epoch != "" && c.epoch != s.epoch
  }

  /** The sample is to be stored after the one that `c` was taken from: it begins a new epoch, or it is later, by time
      or by number at the same time, and of a registered point it comes a period later. */
  predicate Due(periods: map<Key, nat>, c: Cursor, s: Sample) {
    || Restarts(c, s)
    || ((c.sampleTs < s.sampleTs || (c.sampleTs == s.sampleTs && c.seqNo < s.seqNo))
        && (c.sampleTs <= 0 || KeyOf(s) !in periods || periods[KeyOf(s)] <= s.sampleTs - c.sampleTs))
  }

  /** A sample that can be stored is stored if and only if it is due, once, and its point's cursor then stands at it;
      all other points are left alone. */
  lemma DueIsStored(periods: map<Key, nat>, st: Store, s: Sample)
    requires s.deviceId != "" && s.pointId != "" && s.sampleTs > 0
    ensures var (u, ok) := Ingest(periods, st, s);
      var k, row := KeyOf(s), Row((s.deviceId, s.pointId), s.epoch, s.sampleTs, s.seqNo);
      && ok
      && (Due(periods, CursorAt(st.cursors, k), s) ==>
            && u.rows == (if row in st.rows then st.rows else st.rows + [row])
            && CursorAt(u.cursors, k) == Cursor(s.sampleTs, s.seqNo, s.epoch))
      && (!Due(periods, CursorAt(st.cursors, k), s) ==>
            u.rows == st.rows && u.durable == st.durable && CursorAt(u.cursors, k) == CursorAt(st.cursors, k))
      && forall x :: x != k ==>
           CursorAt(u.cursors, x) == CursorAt(st.cursors, x) && CursorAt(u.durable, x) == CursorAt(st.durable, x)
  {
  }

  /** The durable cursor follows what is stored: to another epoch, or forward within its own. */
  lemma DurableFollows(periods: map<Key, nat>, st: Store, s: Sample)
    requires s.deviceId != "" && s.pointId != "" && s.sampleTs > 0 && Due(periods, CursorAt(st.cursors, KeyOf(s)), s)
    ensures var k, u := KeyOf(s), Ingest(periods, st, s).0;
      && k in u.durable
      && (u.durable[k] == Cursor(s.sampleTs, s.seqNo, s.epoch) || (k in st.durable && u.durable[k] == st.durable[k]))
      && (u.durable[k] == Cursor(s.sampleTs, s.seqNo, s.epoch) <==>
            || k !in st.durable || st.durable[k].epoch != s.epoch || st.durable[k].sampleTs < s.sampleTs
            || (st.durable[k].sampleTs == s.sampleTs && st.durable[k].seqNo <= s.seqNo))
  {
  }

  /** A sample that cannot be stored ends its poll exactly when it is due, and then nothing of it is kept. */
  lemma UnstorableRefused(periods: map<Key, nat>, st: Store, s: Sample)
    requires s.deviceId == "" || s.pointId == "" || s.sampleTs <= 0
    ensures var (u, ok) := Ingest(periods, st, s);
      && u.rows == st.rows && u.durable == st.durable
      && var c := if Restarts(CursorAt(st.cursors, KeyOf(s)), s) then BLANK else CursorAt(st.cursors, KeyOf(s));
         (!ok <==> Due(periods, c, s))
  {
  }

  /** A poll takes its samples in order: what a longer one does is what the rest does after its beginning, unless a
      sample of that was refused. */
  lemma {:induction false} PollsInOrder(periods: map<Key, nat>, st: Store, a: seq<Sample>, b: seq<Sample>)
    ensures var (u, ok) := IngestAll(periods, st, a);
      IngestAll(periods, st, a + b) == if ok then IngestAll(periods, u, b) else (u, false)
    decreases |a|
  {
    if a == [] {
      assert a + b == b;
    } else {
      assert (a + b)[0] == a[0] && (a + b)[1..] == a[1..] + b;
      PollsInOrder(periods, Ingest(periods, st, a[0]).0, a[1..], b);
    }
  }

  lemma PollOfOne(periods: map<Key, nat>, st: Store, s: Sample)
    ensures IngestAll(periods, st, [s]) == Ingest(periods, st, s)
  {
    assert [s][1..] == [];
  }
}
