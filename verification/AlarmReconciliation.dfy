/** Reconciling the alarms an adapter reports with the ones on record: when absence means that an alarm has cleared. */
module AlarmReconciliation {
  import opened Basics

  datatype AlarmState = Active | Acknowledged | Cleared

  datatype Ack = Ack(at: int, actor: string)

  /** An alarm as the adapter reports it. */
  datatype RawAlarm = RawAlarm(id: string, deviceId: string, state: AlarmState, raisedAt: Option<int>,
                               clearedAt: Option<int>,
                               ack: Option<Ack>, detail: string)

  datatype Occurrence = Occurrence(alarmId: string, raisedAt: int, serial: nat)

  /** An alarm on record; `field` tells the adapter's alarms from the platform's own. */
  datatype Alarm = Alarm(deviceId: string, state: AlarmState, raisedAt: int, clearedAt: Option<int>, ack: Option<Ack>,
                         detail: string,
                         occurrence: Occurrence, field: bool)

  // --------------------------------------------------------- specification

  function RaisedAt(raw: RawAlarm, ts: int): int {
    if raw.raisedAt.Some? then raw.raisedAt.value else ts
  }

  /** A cleared alarm comes back as a new occurrence only if it was raised after all that is known of the old one. */
  predicate RaisedAnew(p: Alarm, raw: RawAlarm, ts: int) {
    p.state == Cleared && raw.state != Cleared &&
    RaisedAt(raw, ts) > Max(p.raisedAt, if p.clearedAt.Some? then p.clearedAt.value else 0)
  }

  /** The record after one report of its alarm; `serial` numbers a new occurrence. */
  function Merged(p: Option<Alarm>, raw: RawAlarm, ts: int, serial: nat): Alarm {
    var renamed := Occurrence(raw.id, RaisedAt(raw, ts), serial);
    var next := Alarm(raw.deviceId, raw.state, RaisedAt(raw, ts), raw.clearedAt, raw.ack, raw.detail,
                      if p.Some? then p.value.occurrence else renamed, true);
    if p.None? then
      if raw.state == Cleared then next.(clearedAt := Or(raw.clearedAt, Some(ts))) else next
    else if RaisedAnew(p.value, raw, ts) then
      next.(state := Active, clearedAt := None, ack := None, occurrence := renamed)
    else if p.value.state == Acknowledged && raw.state != Cleared then
      next.(state := Acknowledged, ack := Or(p.value.ack, raw.ack))
    else if raw.state == Cleared then
      next.(clearedAt := Or(raw.clearedAt, Some(ts)), ack := Or(p.value.ack, raw.ack))
    else next
  }

  predicate NewOccurrence(p: Option<Alarm>, raw: RawAlarm, ts: int) {
    if p.None? then raw.state != Cleared else RaisedAnew(p.value, raw, ts)
  }

  function Known(states: map<string, Alarm>, id: string): Option<Alarm> {
    if id in states then Some(states[id]) else None
  }

  /** Whether an occurrence is named for this report; an alarm first seen cleared gets a name and no RAISED event. */
  predicate Names(p: Option<Alarm>, raw: RawAlarm, ts: int) {
    p.None? || RaisedAnew(p.value, raw, ts)
  }

  /** All reports in order: the records, the next serial and the alarms announced as raised. */
  function MergeAll(states: map<string, Alarm>, serial: nat, raws: seq<RawAlarm>, ts: int):
    (map<string, Alarm>, nat, seq<string>)
  {
    if raws == [] then (states, serial, [])
    else
      var (s, n, raised) := MergeAll(states, serial, raws[..|raws| - 1], ts);
      var raw := raws[|raws| - 1];
      if raw.id == "" then (s, n, raised)
      else
        var p := Known(s, raw.id);
        (s[raw.id := Merged(p, raw, ts, n)],
         if Names(p, raw, ts) then n + 1 else n,
         if NewOccurrence(p, raw, ts) then raised + [raw.id] else raised)
  }

  function Seen(raws: seq<RawAlarm>): set<string> {
    set raw | raw in raws && raw.id != "" :: raw.id
  }

  /** Absence clears an open field alarm whose device was completely acquired. */
  predicate AbsenceClears(a: Alarm, id: string, seen: set<string>, complete: set<string>) {
    id !in seen && a.state != Cleared && a.field && a.deviceId in complete
  }

  function ClearedByAbsence(a: Alarm, ts: int): Alarm {
    a.(state := Cleared, clearedAt := Some(ts))
  }

  function ClearAbsent(states: map<string, Alarm>, seen: set<string>, ts: int,
                       complete: set<string>): map<string, Alarm> {
    map id | id in states ::
      if AbsenceClears(states[id], id, seen, complete) then ClearedByAbsence(states[id], ts) else states[id]
  }

  function Reconciled(states: map<string, Alarm>, serial: nat, raws: seq<RawAlarm>, ts: int,
                      complete: set<string>): map<string, Alarm> {
    ClearAbsent(MergeAll(states, serial, raws, ts).0, Seen(raws), ts, complete)
  }

  function WithAck(a: Alarm, ack: Ack): Alarm {
    if a.state == Active then a.(state := Acknowledged, ack := Some(ack)) else a
  }

  // ------------------------------------------------------------ the service

  class AlarmRegister {
    var alarmStates: map<string, Alarm>
    var serial: nat

    constructor ()
      ensures alarmStates == map[] && serial == 0
    {
      alarmStates, serial := map[], 0;
    }

    method Reconcile(raws: seq<RawAlarm>, ts: int, complete: set<string>) returns (raised: seq<string>)
      modifies this
      ensures alarmStates == Reconciled(old(alarmStates), old(serial), raws, ts, complete)
      ensures serial == MergeAll(old(alarmStates), old(serial), raws, ts).1
      ensures raised == MergeAll(old(alarmStates), old(serial), raws, ts).2
    {
      raised := [];
      var seen: set<string> := {};
      for i := 0 to |raws|
        invariant (alarmStates, serial, raised) == MergeAll(old(alarmStates), old(serial), raws[..i], ts)
        invariant seen == Seen(raws[..i])
      {
        var raw := raws[i];
        assert raws[..i + 1][..i] == raws[..i];
        assert Seen(raws[..i + 1]) == Seen(raws[..i]) + if raw.id == "" then {} else {raw.id};
        if raw.id == "" {
          continue;
        }
        seen := seen + {raw.id};
        var previous := if raw.id in alarmStates then Some(alarmStates[raw.id]) else None;
        var next := Merged(previous, raw, ts, serial);
        if NewOccurrence(previous, raw, ts) {
          raised := raised + [raw.id];
        }
        if Names(previous, raw, ts) {
          serial := serial + 1;
        }
        alarmStates := alarmStates[raw.id := next];
      }
      assert raws[..|raws|] == raws;
      ClearAbsentAlarms(seen, ts, complete);
    }

    method ClearAbsentAlarms(seen: set<string>, ts: int, complete: set<string>)
      modifies this`alarmStates
      ensures alarmStates == ClearAbsent(old(alarmStates), seen, ts, complete)
    {
      ghost var merged := alarmStates;
      var left := alarmStates.Keys;
      while left != {}
        invariant left <= merged.Keys && alarmStates.Keys == merged.Keys
        invariant forall id :: id in left ==> alarmStates[id] == merged[id]
        invariant forall id :: id in merged.Keys - left ==>
          alarmStates[id] == ClearAbsent(merged, seen, ts, complete)[id]
        decreases left
      {
        var id :| id in left;
        left := left - {id};
        var alarm := alarmStates[id];
        if id in seen || alarm.state == Cleared || !alarm.field || alarm.deviceId !in complete {
          continue;
        }
        alarmStates := alarmStates[id := alarm.(state := Cleared, clearedAt := Some(ts))];
      }
    }

    /** False when the alarm is unknown or cleared; acknowledging twice keeps the first acknowledgement. */
    method Acknowledge(id: string, ack: Ack) returns (ok: bool)
      modifies this`alarmStates
      ensures ok <==> id in old(alarmStates) && old(alarmStates)[id].state != Cleared
      ensures alarmStates == if ok then old(alarmStates)[id := WithAck(old(alarmStates)[id], ack)] else old(alarmStates)
      ensures ok ==> alarmStates[id].state == Acknowledged
      ensures ok ==> alarmStates[id].occurrence == old(alarmStates)[id].occurrence
      ensures ok ==>
        alarmStates[id].ack == if old(alarmStates)[id].state == Active then Some(ack) else old(alarmStates)[id].ack
    {
      if id !in alarmStates || alarmStates[id].state == Cleared {
        return false;
      }
      if alarmStates[id].state == Active {
        alarmStates := alarmStates[id := alarmStates[id].(state := Acknowledged, ack := Some(ack))];
      }
      ok := true;
    }
  }

  // ------------------------------------------------------------- one batch

  predicate DistinctIds(raws: seq<RawAlarm>) {
    forall i, j :: 0 <= i < j < |raws| ==> raws[i].id != raws[j].id
  }

  predicate Reports(raws: seq<RawAlarm>, id: string, state: AlarmState) {
    exists raw :: raw in raws && raw.id == id && raw.state == state
  }

  lemma {:induction false} MergeUnreported(states: map<string, Alarm>, serial: nat, raws: seq<RawAlarm>, ts: int,
                                           id: string)
    requires id !in Seen(raws)
    ensures Known(MergeAll(states, serial, raws, ts).0, id) == Known(states, id)
    decreases |raws|
  {
    if raws != [] {
      MergeUnreported(states, serial, raws[..|raws| - 1], ts, id);
      assert raws[|raws| - 1] in raws;
    }
  }

  /** Each alarm of a batch with distinct ids is merged once, with its own report. */
  lemma {:induction false} MergeReported(states: map<string, Alarm>, serial: nat, raws: seq<RawAlarm>, ts: int,
                                         raw: RawAlarm) returns (n: nat)
    requires DistinctIds(raws) && raw in raws && raw.id != ""
    ensures Known(MergeAll(states, serial, raws, ts).0, raw.id) == Some(Merged(Known(states, raw.id), raw, ts, n))
    ensures raw.id in MergeAll(states, serial, raws, ts).2 <==> NewOccurrence(Known(states, raw.id), raw, ts)
    decreases |raws|
  {
    var k := |raws| - 1;
    if raws[k] == raw {
      n := MergeAll(states, serial, raws[..k], ts).1;
      assert raw.id !in Seen(raws[..k]);
      MergeUnreported(states, serial, raws[..k], ts, raw.id);
      RaisedWereReported(states, serial, raws[..k], ts, raw.id);
    } else {
      assert raw in raws[..k];
      n := MergeReported(states, serial, raws[..k], ts, raw);
    }
  }

  lemma {:induction false} RaisedWereReported(states: map<string, Alarm>, serial: nat, raws: seq<RawAlarm>, ts: int,
                                              id: string)
    requires id !in Seen(raws)
    ensures id !in MergeAll(states, serial, raws, ts).2
    decreases |raws|
  {
    if raws != [] {
      RaisedWereReported(states, serial, raws[..|raws| - 1], ts, id);
      assert raws[|raws| - 1] in raws;
    }
  }

  predicate IsOpen(states: map<string, Alarm>, id: string) {
    id in states && states[id].state != Cleared
  }

  predicate Acked(a: Alarm) {
    a.state == Acknowledged && a.ack.Some?
  }

  /** What holds of an open alarm on record from one moment to the next while it is not cleared. */
  predicate Continues(a: Alarm, b: Alarm) {
    b.occurrence == a.occurrence && (Acked(a) ==> b.ack == a.ack)
  }

  /** An open field alarm is cleared exactly when the batch reports it cleared, or leaves it out while its device was
      completely acquired; in any case it keeps its occurrence and its acknowledgement. */
  lemma OpenFieldAlarmClearedExactly(states: map<string, Alarm>, serial: nat, raws: seq<RawAlarm>, ts: int,
                                     complete: set<string>, id: string)
    requires DistinctIds(raws) && id != "" && IsOpen(states, id) && states[id].field
    ensures var after := Reconciled(states, serial, raws, ts, complete);
      && id in after && Continues(states[id], after[id])
      && (after[id].state == Cleared <==>
            Reports(raws, id, Cleared) || (id !in Seen(raws) && states[id].deviceId in complete))
      && (after[id].state != Cleared && Acked(states[id]) ==> Acked(after[id]))
      && id !in MergeAll(states, serial, raws, ts).2
  {
    if id in Seen(raws) {
      var raw :| raw in raws && raw.id == id;
      var n := MergeReported(states, serial, raws, ts, raw);
      assert forall o :: o in raws && o.id == id ==> o == raw;
    } else {
      MergeUnreported(states, serial, raws, ts, id);
      RaisedWereReported(states, serial, raws, ts, id);
      assert forall raw :: raw in raws && raw.id != "" ==> raw.id in Seen(raws);
    }
  }

  /** The platform's own alarms are never cleared for the adapter's silence. */
  lemma PlatformAlarmsStay(states: map<string, Alarm>, serial: nat, raws: seq<RawAlarm>, ts: int,
                           complete: set<string>, id: string)
    requires id in states && !states[id].field && id !in Seen(raws)
    ensures Known(Reconciled(states, serial, raws, ts, complete), id) == Some(states[id])
  {
    MergeUnreported(states, serial, raws, ts, id);
  }

  /** A report of a cleared alarm opens it again whatever its raise time; it is announced, and gets an occurrence of
      its own, exactly when it was raised after everything known of the old occurrence. Otherwise the old occurrence
      is open again without a RAISED event. */
  lemma ClearedAlarmReported(states: map<string, Alarm>, serial: nat, raws: seq<RawAlarm>, ts: int,
                             complete: set<string>, raw: RawAlarm)
    requires DistinctIds(raws) && raw in raws && raw.id != "" && raw.state != Cleared
    requires raw.id in states && states[raw.id].state == Cleared
    ensures var after := Reconciled(states, serial, raws, ts, complete);
      && IsOpen(after, raw.id)
      && (raw.id in MergeAll(states, serial, raws, ts).2 <==> RaisedAnew(states[raw.id], raw, ts))
      && (!RaisedAnew(states[raw.id], raw, ts) ==> after[raw.id].occurrence == states[raw.id].occurrence)
  {
    var n := MergeReported(states, serial, raws, ts, raw);
    assert raw.id in Seen(raws);
  }

  /** A cleared alarm is reported open, and raised after its last raising and its clearing. */
  predicate ComesBack(p: Option<Alarm>, raw: RawAlarm, ts: int) {
    && p.Some? && p.value.state == Cleared && raw.state != Cleared
    && p.value.raisedAt < RaisedAt(raw, ts)
    && (match p.value.clearedAt case Some(at) => at < RaisedAt(raw, ts) case None => 0 < RaisedAt(raw, ts))
  }

  /** The record `a` of an alarm after the report `raw` of it, told by what was on record. It is cleared exactly if it
      is reported so; acknowledged exactly if it is reported open and was, or is reported, acknowledged, but not if it
      comes back; and otherwise active. */
  predicate Tells(p: Option<Alarm>, raw: RawAlarm, ts: int, a: Alarm) {
    && (a.state == Cleared <==> raw.state == Cleared)
    && (a.state == Acknowledged <==>
          && raw.state != Cleared && !ComesBack(p, raw, ts)
          && ((p.Some? && p.value.state == Acknowledged) || raw.state == Acknowledged))
    && (if p.Some? && !ComesBack(p, raw, ts) then a.occurrence == p.value.occurrence
        else a.occurrence.alarmId == raw.id && a.occurrence.raisedAt == a.raisedAt)
    && a.deviceId == raw.deviceId && a.detail == raw.detail && a.field
    && (raw.raisedAt.Some? ==> a.raisedAt == raw.raisedAt.value) && (raw.raisedAt.None? ==> a.raisedAt == ts)
  }

  /** Who has acknowledged it, and when it cleared. A first acknowledgement stays while the alarm is open and when it
      clears; one that comes back starts without. */
  predicate TracesOf(p: Option<Alarm>, raw: RawAlarm, ts: int, a: Alarm) {
    && (ComesBack(p, raw, ts) ==> a.ack == None && a.clearedAt == None)
    && (!ComesBack(p, raw, ts) ==>
          && (raw.state == Cleared ==> a.clearedAt == (if raw.clearedAt.Some? then raw.clearedAt else Some(ts)))
          && (raw.state != Cleared ==> a.clearedAt == raw.clearedAt)
          && var kept := p.Some? && p.value.ack.Some? && (raw.state == Cleared || p.value.state == Acknowledged);
             a.ack == if kept then p.value.ack else raw.ack)
  }

  lemma MergedTells(p: Option<Alarm>, raw: RawAlarm, ts: int, n: nat)
    ensures Tells(p, raw, ts, Merged(p, raw, ts, n)) && TracesOf(p, raw, ts, Merged(p, raw, ts, n))
    ensures NewOccurrence(p, raw, ts) <==> ComesBack(p, raw, ts) || (p == None && raw.state != Cleared)
  {
  }

  /** After a batch every alarm that it reports is on record as its report says, and nobody's acknowledgement is
      invented; it is announced exactly when it comes back or is open and was not known. */
  lemma ReportedExactly(states: map<string, Alarm>, serial: nat, raws: seq<RawAlarm>, ts: int, complete: set<string>,
                        raw: RawAlarm)
    requires DistinctIds(raws) && raw in raws && raw.id != ""
    ensures var p, after := Known(states, raw.id), Reconciled(states, serial, raws, ts, complete);
      && raw.id in after && Tells(p, raw, ts, after[raw.id]) && TracesOf(p, raw, ts, after[raw.id])
      && (raw.id in MergeAll(states, serial, raws, ts).2 <==>
            ComesBack(p, raw, ts) || (p == None && raw.state != Cleared))
  {
    var n := MergeReported(states, serial, raws, ts, raw);
    MergedTells(Known(states, raw.id), raw, ts, n);
    assert raw.id in Seen(raws);
  }

  /** An alarm that clears by absence keeps all but its state and the time of clearing. */
  lemma ClearedByAbsenceKeeps(states: map<string, Alarm>, serial: nat, raws: seq<RawAlarm>, ts: int,
                              complete: set<string>, id: string)
    requires id in states && id !in Seen(raws)
    ensures id in Reconciled(states, serial, raws, ts, complete)
    ensures var p, a := states[id], Reconciled(states, serial, raws, ts, complete)[id];
      if p.state != Cleared && p.field && p.deviceId in complete then
        && a.state == Cleared && a.clearedAt == Some(ts) && a.ack == p.ack && a.occurrence == p.occurrence
        && a.deviceId == p.deviceId && a.raisedAt == p.raisedAt && a.detail == p.detail && a.field
      else a == p
  {
    MergeUnreported(states, serial, raws, ts, id);
  }

  /** Nothing else comes on record. */
  lemma {:induction false} OnlyReportsAppear(states: map<string, Alarm>, serial: nat, raws: seq<RawAlarm>, ts: int,
                                             complete: set<string>, id: string)
    ensures id in Reconciled(states, serial, raws, ts, complete) <==> id in states || id in Seen(raws)
    decreases |raws|
  {
    if raws != [] {
      OnlyReportsAppear(states, serial, raws[..|raws| - 1], ts, complete, id);
      assert Seen(raws) == Seen(raws[..|raws| - 1])
        + if raws[|raws| - 1].id == "" then {} else {raws[|raws| - 1].id};
    }
  }

  /** No two alarms on record have an occurrence of the same number, and the next number is free. */
  predicate SerialsFree(states: map<string, Alarm>, n: nat) {
    && (forall id :: id in states ==> states[id].occurrence.serial < n)
    && (forall a, b :: a in states && b in states && a != b ==>
          states[a].occurrence.serial != states[b].occurrence.serial)
  }

  /** An occurrence on record is the one that was, or has a number from `serial` on. */
  predicate NamedFrom(states: map<string, Alarm>, after: map<string, Alarm>, serial: nat) {
    forall id :: id in after ==>
      || (id in states && after[id].occurrence == states[id].occurrence) || serial <= after[id].occurrence.serial
  }

  lemma OneMoreName(s: map<string, Alarm>, n: nat, raw: RawAlarm, ts: int)
    requires SerialsFree(s, n)
    ensures var p := Known(s, raw.id);
      SerialsFree(s[raw.id := Merged(p, raw, ts, n)], if Names(p, raw, ts) then n + 1 else n)
  {
  }

  lemma OneMoreNamed(states: map<string, Alarm>, serial: nat, s: map<string, Alarm>, n: nat, raw: RawAlarm, ts: int)
    requires NamedFrom(states, s, serial) && serial <= n
    ensures NamedFrom(states, s[raw.id := Merged(Known(s, raw.id), raw, ts, n)], serial)
  {
  }

  lemma {:induction false} MergeNames(states: map<string, Alarm>, serial: nat, raws: seq<RawAlarm>, ts: int)
    requires SerialsFree(states, serial)
    ensures var (merged, n, _) := MergeAll(states, serial, raws, ts);
      serial <= n && SerialsFree(merged, n) && NamedFrom(states, merged, serial)
    decreases |raws|
  {
    if raws != [] {
      MergeNames(states, serial, raws[..|raws| - 1], ts);
      var (s, n, _) := MergeAll(states, serial, raws[..|raws| - 1], ts);
      var raw := raws[|raws| - 1];
      if raw.id != "" {
        OneMoreName(s, n, raw, ts);
        OneMoreNamed(states, serial, s, n, raw, ts);
      }
    }
  }

  /** A batch names its new occurrences with numbers that no occurrence on record ever had. */
  lemma SerialsStayFree(states: map<string, Alarm>, serial: nat, raws: seq<RawAlarm>, ts: int, complete: set<string>)
    requires SerialsFree(states, serial)
    ensures var after, n := Reconciled(states, serial, raws, ts, complete), MergeAll(states, serial, raws, ts).1;
      serial <= n && SerialsFree(after, n) && NamedFrom(states, after, serial)
  {
    var merged := MergeAll(states, serial, raws, ts).0;
    var after := Reconciled(states, serial, raws, ts, complete);
    MergeNames(states, serial, raws, ts);
    assert after.Keys == merged.Keys && forall id :: id in after ==> after[id].occurrence == merged[id].occurrence;
  }

  // ------------------------------------------------------------ whole runs

  datatype Event = Batch(raws: seq<RawAlarm>, ts: int, complete: set<string>) | Operator(id: string, ack: Ack)

  datatype Register = Register(states: map<string, Alarm>, serial: nat)

  function After(r: Register, e: Event): Register {
    match e
    case Batch(raws, ts, complete) =>
      Register(Reconciled(r.states, r.serial, raws, ts, complete), MergeAll(r.states, r.serial, raws, ts).1)
    case Operator(id, ack) =>
      if IsOpen(r.states, id) then r.(states := r.states[id := WithAck(r.states[id], ack)]) else r
  }

  /** An alarm that one batch reports, the next leaves out and the last reports again as it was. */
  function Reappearance(raisedAt: int, ts: seq<int>): seq<Event>
    requires |ts| == 3
  {
    var raw := RawAlarm("a", "d", Active, Some(raisedAt), None, None, "");
    [Batch([raw], ts[0], {"d"}), Batch([], ts[1], {"d"}), Batch([raw], ts[2], {"d"})]
  }

  function RaisedRecord(raisedAt: int): Alarm {
    Alarm("d", Active, raisedAt, None, None, "", Occurrence("a", raisedAt, 0), true)
  }

  /** Raised, cleared by absence and reported again with its old raise time, at any times: the alarm is open under its
      old occurrence, and no RAISED event announces it. */
  lemma ClearedAlarmReopensSilently(raisedAt: int, ts: seq<int>)
    requires |ts| == 3
    ensures var es := Reappearance(raisedAt, ts);
      var r1 := After(Register(map[], 0), es[0]);
      var r2 := After(r1, es[1]);
      var r3 := After(r2, es[2]);
      && r1.states == map["a" := RaisedRecord(raisedAt)] && MergeAll(map[], 0, es[0].raws, ts[0]).2 == ["a"]
      && r2.states == map["a" := ClearedByAbsence(RaisedRecord(raisedAt), ts[1])]
      && r3.states == r1.states && MergeAll(r2.states, r2.serial, es[2].raws, ts[2]).2 == []
  {
    var raw := RawAlarm("a", "d", Active, Some(raisedAt), None, None, "");
    assert [raw][..0] == [] && raw in [raw] && "a" in Seen([raw]) && Seen([]) == {};
    var raised := RaisedRecord(raisedAt);
    var r1 := After(Register(map[], 0), Batch([raw], ts[0], {"d"}));
    assert MergeAll(map[], 0, [raw][..0], ts[0]) == (map[], 0, []);
    assert MergeAll(map[], 0, [raw], ts[0]).0 == map["a" := raised];
    assert r1.states == map["a" := raised];
    var r2 := After(r1, Batch([], ts[1], {"d"}));
    assert r2.states == map["a" := ClearedByAbsence(raised, ts[1])];
    assert MergeAll(r2.states, r2.serial, [raw][..0], ts[2]) == (r2.states, r2.serial, []);
    assert MergeAll(r2.states, r2.serial, [raw], ts[2]).0 == map["a" := raised];
  }

  /** The batch neither reports the alarm cleared nor leaves it out while it covers the device on record. */
  predicate Sustains(r: Register, e: Event, id: string) {
    match e
    case Batch(raws, _, complete) =>
      && DistinctIds(raws) && !Reports(raws, id, Cleared)
      && (id in r.states && id !in Seen(raws) ==> r.states[id].deviceId !in complete)
    case Operator(_, _) => true
  }

  predicate OpenFieldAlarm(r: Register, id: string) {
    IsOpen(r.states, id) && r.states[id].field
  }

  lemma OneEventContinues(r: Register, e: Event, id: string)
    requires id != "" && OpenFieldAlarm(r, id) && Sustains(r, e, id)
    ensures OpenFieldAlarm(After(r, e), id) && Continues(r.states[id], After(r, e).states[id])
    ensures Acked(r.states[id]) ==> Acked(After(r, e).states[id])
  {
    if e.Batch? {
      OpenFieldAlarmClearedExactly(r.states, r.serial, e.raws, e.ts, e.complete, id);
      if id in Seen(e.raws) {
        var raw :| raw in e.raws && raw.id == id;
        var n := MergeReported(r.states, r.serial, e.raws, e.ts, raw);
      } else {
        MergeUnreported(r.states, r.serial, e.raws, e.ts, id);
      }
    }
  }

  /** Over any number of batches and acknowledgements that never clear it, an open field alarm stays open as the same
      occurrence and never loses its acknowledgement. */
  lemma {:induction false} OccurrenceContinues(rs: seq<Register>, es: seq<Event>, i: nat, j: nat, id: string)
    requires |rs| == |es| + 1 && i <= j < |rs| && id != ""
    requires forall k :: 0 <= k < |es| ==> rs[k + 1] == After(rs[k], es[k])
    requires OpenFieldAlarm(rs[i], id)
    requires forall k :: i <= k < j ==> Sustains(rs[k], es[k], id)
    ensures OpenFieldAlarm(rs[j], id)
    ensures Continues(rs[i].states[id], rs[j].states[id]) && (Acked(rs[i].states[id]) ==> Acked(rs[j].states[id]))
    decreases j
  {
    if i < j {
      OccurrenceContinues(rs, es, i, j - 1, id);
      assert rs[j - 1 + 1] == After(rs[j - 1], es[j - 1]);
      OneEventContinues(rs[j - 1], es[j - 1], id);
    }
  }
}
