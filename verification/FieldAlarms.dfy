/** The adapter's alarms on their way into the alarm store: each poll reconciles them with the register and mirrors the
    register into the store. */
module FieldAlarms {
  import opened Basics
  import Register = AlarmReconciliation
  import Alarms = AlarmService
  import History = AlarmHistory
  import Rules = RuleService

  /** An alarm on record as it is handed to the alarm store. */
  function LegacyOf(id: string, a: Register.Alarm): Alarms.LegacyAlarm {
    Alarms.LegacyAlarm(id, a.state == Register.Cleared, Some(a.raisedAt), a.clearedAt,
                       if a.ack.Some? then a.ack.value.at else 0, if a.ack.Some? then a.ack.value.actor else "legacy")
  }

  /** The batch reports a cleared alarm open again. */
  predicate Reopens(states: map<string, Register.Alarm>, raws: seq<Register.RawAlarm>, raw: Register.RawAlarm) {
    && Register.DistinctIds(raws) && raw in raws && raw.id != "" && raw.state != Register.Cleared
    && raw.id in states && states[raw.id].state == Register.Cleared
  }

  /** The time under which a reopened alarm is mirrored: that of its raising, unless the adapter reports the old
      clearing along with an alarm that was not raised anew. */
  function MirroredAt(p: Register.Alarm, raw: Register.RawAlarm, ts: int): int {
    if Register.RaisedAnew(p, raw, ts) || raw.clearedAt.None? then Register.RaisedAt(raw, ts) else raw.clearedAt.value
  }

  lemma ReopenedReport(states: map<string, Register.Alarm>, serial: nat, raws: seq<Register.RawAlarm>, ts: int,
                       complete: set<string>, raw: Register.RawAlarm)
    requires Reopens(states, raws, raw)
    ensures var after := Register.Reconciled(states, serial, raws, ts, complete);
      && raw.id in after
      && Alarms.ReportOf(LegacyOf(raw.id, after[raw.id])) ==
         Alarms.Report(raw.id, Rules.Active, Some(MirroredAt(states[raw.id], raw, ts)))
  {
    var n := Register.MergeReported(states, serial, raws, ts, raw);
    assert raw.id in Register.Seen(raws);
  }

  lemma SyncUnsettlesExactly(s: Alarms.Store, a: Alarms.LegacyAlarm, now: int, id: Alarms.OccurrenceId)
    requires History.SettledIn(s, id)
    ensures History.SettledIn(Alarms.Synced(s, a, now), id) <==>
      !History.ReraisesName(s, History.Observe(Alarms.ReportOf(a), now), id)
  {
    var op := History.Observe(Alarms.ReportOf(a), now);
    History.SettledStable(s, op, id);
  }

  /** A way from the register into the store: when a cleared field alarm is reported open again and the store has it
      closed, a settled occurrence of it is opened again, and its acknowledgement lost, if and only if it is mirrored
      under that occurrence's raise time and the report is committed. If that is the raise time on record, the
      register has not announced anything. */
  lemma ReopeningUnsettlesExactly(states: map<string, Register.Alarm>, serial: nat, raws: seq<Register.RawAlarm>,
                                  ts: int, complete: set<string>, raw: Register.RawAlarm, s: Alarms.Store, now: int,
                                  raisedAt: int)
    requires Reopens(states, raws, raw)
    requires Alarms.LatestOpen(s, raw.id).None? && History.SettledIn(s, Alarms.OccurrenceId(raw.id, raisedAt))
    ensures raw.id in Register.Reconciled(states, serial, raws, ts, complete)
    ensures var a := LegacyOf(raw.id, Register.Reconciled(states, serial, raws, ts, complete)[raw.id]);
      var at := MirroredAt(states[raw.id], raw, ts);
      && (History.SettledIn(Alarms.Synced(s, a, now), Alarms.OccurrenceId(raw.id, raisedAt)) <==>
            !(at == raisedAt && Alarms.Observed(s, Alarms.ReportOf(a), now).Some?))
      && (at == raisedAt == states[raw.id].raisedAt ==> raw.id !in Register.MergeAll(states, serial, raws, ts).2)
  {
    ReopenedReport(states, serial, raws, ts, complete, raw);
    Register.ClearedAlarmReported(states, serial, raws, ts, complete, raw);
    var after := Register.Reconciled(states, serial, raws, ts, complete);
    SyncUnsettlesExactly(s, LegacyOf(raw.id, after[raw.id]), now, Alarms.OccurrenceId(raw.id, raisedAt));
  }

  /** Mirroring acknowledges in the name that the field gives, unless somebody has done so before. */
  lemma SyncNamesActor(s: Alarms.Store, m: Alarms.LegacyAlarm, now: int)
    requires History.SyncReady(s, Alarms.ReportOf(m), now) && m.acknowledgedAt > 0
    requires Alarms.Target(s, Alarms.ReportOf(m), now).Some?
    ensures var t, v := Alarms.Target(s, Alarms.ReportOf(m), now).value, Alarms.Synced(s, m, now);
      && t in v.occurrences && v.occurrences[t].acknowledged
      && (!(t in s.occurrences && s.occurrences[t].acknowledged) ==>
            v.occurrences[t].acknowledgedBy == m.acknowledgedBy)
  {
    History.SyncAcknowledges(s, m, now);
  }

  /** The operator's acknowledgement of a field alarm reaches the store: when an open, acknowledged record is mirrored,
      its open occurrence there is acknowledged, by that operator if it was not before. */
  lemma AcknowledgementMirrored(s: Alarms.Store, id: string, a: Register.Alarm, now: int)
    requires a.state != Register.Cleared && a.ack.Some? && a.ack.value.at > 0
    requires History.SyncReady(s, Alarms.ReportOf(LegacyOf(id, a)), now)
    ensures var v := Alarms.Synced(s, LegacyOf(id, a), now);
      var open := Alarms.LatestOpen(v, id);
      && open.Some? && v.occurrences[open.value].acknowledged && v.occurrences[open.value].condition == Rules.Active
      && (!(open.value in s.occurrences && s.occurrences[open.value].acknowledged) ==>
            v.occurrences[open.value].acknowledgedBy == a.ack.value.actor)
  {
    var m := LegacyOf(id, a);
    History.SyncTakesEffect(s, m, now);
    SyncNamesActor(s, m, now);
    SyncedTarget(s, m, now);
  }

  lemma SyncedTarget(s: Alarms.Store, m: Alarms.LegacyAlarm, now: int)
    requires History.SyncReady(s, Alarms.ReportOf(m), now) && m.acknowledgedAt > 0 && !m.cleared
    ensures Alarms.LatestOpen(Alarms.Synced(s, m, now), m.id) == Alarms.Target(s, Alarms.ReportOf(m), now)
  {
    var r := Alarms.ReportOf(m);
    History.SyncAcknowledges(s, m, now);
    History.ReportTakesEffect(s, r, now);
    History.AcknowledgingKeepsOpen(Alarms.Observed(s, r, now).value, Alarms.Target(s, r, now).value, m.acknowledgedBy,
                                   now, m.id);
  }

  // ------------------------------------------------------------ an example run

  /** The store after mirroring the records of the given alarms in order. */
  ghost function MirrorAll(s: Alarms.Store, states: map<string, Register.Alarm>, ids: seq<string>,
                           now: int): Alarms.Store
    requires forall id :: id in ids ==> id in states
  {
    if ids == [] then s
    else
      var last := ids[|ids| - 1];
      Alarms.Synced(MirrorAll(s, states, ids[..|ids| - 1], now), LegacyOf(last, states[last]), now)
  }

  lemma MirrorOne(s: Alarms.Store, states: map<string, Register.Alarm>, now: int)
    requires "a" in states && states["a"].ack == None
    ensures MirrorAll(s, states, ["a"], now) ==
      History.Step(s, History.Observe(Alarms.ReportOf(LegacyOf("a", states["a"])), now))
  {
    assert ["a"][..0] == [];
  }

  const RAISED := Register.RaisedRecord(5)

  const CLEARED := Register.ClearedByAbsence(RAISED, 6)

  lemma RegisterRun() returns (rs: seq<Register.Register>)
    ensures var es := Register.Reappearance(5, [5, 6, 13]);
      && |rs| == 4 && rs[0] == Register.Register(map[], 0)
      && (forall k :: 0 <= k < 3 ==> rs[k + 1] == Register.After(rs[k], es[k]))
      && rs[1].states == map["a" := RAISED] && rs[2].states == map["a" := CLEARED]
      && rs[3].states == map["a" := RAISED]
      && Register.MergeAll(rs[2].states, rs[2].serial, es[2].raws, 13).2 == []
  {
    Register.ClearedAlarmReopensSilently(5, [5, 6, 13]);
    var es := Register.Reappearance(5, [5, 6, 13]);
    var r0 := Register.Register(map[], 0);
    var r1 := Register.After(r0, es[0]);
    var r2 := Register.After(r1, es[1]);
    rs := [r0, r1, r2, Register.After(r2, es[2])];
  }

  lemma MirrorRun()
    ensures MirrorAll(History.ExampleStore(0), map["a" := RAISED], ["a"], 10) == History.ExampleStore(1)
    ensures MirrorAll(History.ExampleStore(1), map["a" := CLEARED], ["a"], 11) == History.ExampleStore(2)
    ensures MirrorAll(History.ExampleStore(3), map["a" := RAISED], ["a"], 13) == History.ExampleStore(4)
  {
    MirrorOne(History.ExampleStore(0), map["a" := RAISED], 10);
    History.ExampleStep(0);
    MirrorOne(History.ExampleStore(1), map["a" := CLEARED], 11);
    History.ExampleStep(1);
    MirrorOne(History.ExampleStore(3), map["a" := RAISED], 13);
    History.ExampleStep(3);
  }

  lemma StoreRun() returns (ss: seq<Alarms.Store>)
    ensures |ss| == 5 && ss[0] == Alarms.Store(map[], [], [])
    ensures ss[1] == MirrorAll(ss[0], map["a" := RAISED], ["a"], 10)
    ensures ss[2] == MirrorAll(ss[1], map["a" := CLEARED], ["a"], 11)
    ensures Alarms.Acknowledging(ss[2], History.EXAMPLE, "op", 12) == Some(ss[3])
    ensures ss[4] == MirrorAll(ss[3], map["a" := RAISED], ["a"], 13)
    ensures History.SettledIn(ss[3], History.EXAMPLE)
    ensures Alarms.Open(ss[4], History.EXAMPLE) && !ss[4].occurrences[History.EXAMPLE].acknowledged
  {
    MirrorRun();
    History.ExampleStep(2);
    ss := [History.ExampleStore(0), History.ExampleStore(1), History.ExampleStore(2), History.ExampleStore(3),
           History.ExampleStore(4)];
  }

  /** From the empty register and store on: an alarm is raised, clears by its absence, is acknowledged by an operator
      and is then reported as before. The register opens it silently; mirrored into the store, it opens the settled
      occurrence and loses the acknowledgement. */
  lemma SilentReopeningLosesAcknowledgement() returns (rs: seq<Register.Register>, ss: seq<Alarms.Store>)
    ensures var es := Register.Reappearance(5, [5, 6, 13]);
      && |rs| == 4 && rs[0] == Register.Register(map[], 0)
      && (forall k :: 0 <= k < 3 ==> rs[k + 1] == Register.After(rs[k], es[k]))
      && rs[1].states.Keys == rs[2].states.Keys == rs[3].states.Keys == {"a"}
      && Register.MergeAll(rs[2].states, rs[2].serial, es[2].raws, 13).2 == []
    ensures |ss| == 5 && ss[0] == Alarms.Store(map[], [], [])
    ensures ss[1] == MirrorAll(ss[0], rs[1].states, ["a"], 10) && ss[2] == MirrorAll(ss[1], rs[2].states, ["a"], 11)
    ensures Alarms.Acknowledging(ss[2], History.EXAMPLE, "op", 12) == Some(ss[3])
    ensures ss[4] == MirrorAll(ss[3], rs[3].states, ["a"], 13)
    ensures History.SettledIn(ss[3], History.EXAMPLE)
    ensures Alarms.Open(ss[4], History.EXAMPLE) && !ss[4].occurrences[History.EXAMPLE].acknowledged
  {
    rs := RegisterRun();
    ss := StoreRun();
  }
}
