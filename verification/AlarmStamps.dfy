/** Where what an occurrence says of itself comes from, in every run: who acknowledged it and when, when it was raised
    and when it became normal, and what each transaction writes about it. */
module AlarmStamps {
  import opened Basics
  import opened RuleService
  import opened AlarmService
  import opened AlarmHistory

  /** The time that a report speaks of: its own, or that of its arrival. */
  function ReportedAt(op: Op): int
    requires op.Observe?
  {
    match op.report.timestamp
    case Some(at) => at
    case None => op.now
  }

  // -------------------------------------------------- what one transaction writes

  /** The transaction acknowledged the occurrence, which was not acknowledged before. */
  predicate AcknowledgedBy(s: Store, op: Op, id: OccurrenceId, o: Occurrence) {
    && op == Acknowledge(id, o.acknowledgedBy, o.acknowledgedAt)
    && id in s.occurrences && !s.occurrences[id].acknowledged
  }

  /** The transaction reported the alarm normal, and the occurrence was open. */
  predicate NormalizedBy(s: Store, op: Op, id: OccurrenceId, o: Occurrence) {
    && op.Observe? && op.report.alarmId == id.alarmId && op.report.condition == Normal
    && Open(s, id) && o.normalizedAt == ReportedAt(op)
  }

  /** The transaction reported the alarm abnormal while it was not open, and gave the occurrence its name. */
  ghost predicate RaisedBy(s: Store, op: Op, id: OccurrenceId) {
    && op.Observe? && op.report.alarmId == id.alarmId && op.report.condition != Normal
    && (forall x :: Open(s, x) ==> x.alarmId != id.alarmId)
    && id.raisedAt == ReportedAt(op)
  }

  lemma NoneOpen(s: Store, alarmId: string)
    requires LatestOpen(s, alarmId).None?
    ensures forall x :: Open(s, x) ==> x.alarmId != alarmId
  {
    forall x | Open(s, x) ensures x.alarmId != alarmId {
      assert x.alarmId == alarmId ==> x in OpenIds(s, alarmId);
    }
  }

  /** Whatever is acknowledged was so before, by the same and at the same time, or has just been acknowledged. */
  lemma StepAcknowledges(s: Store, op: Op, id: OccurrenceId)
    requires id in Step(s, op).occurrences && Step(s, op).occurrences[id].acknowledged
    ensures var o := Step(s, op).occurrences[id];
      || AcknowledgedBy(s, op, id, o)
      || (id in s.occurrences && s.occurrences[id].acknowledged
          && s.occurrences[id].acknowledgedBy == o.acknowledgedBy
          && s.occurrences[id].acknowledgedAt == o.acknowledgedAt)
  {
  }

  lemma StepNormalizes(s: Store, op: Op, id: OccurrenceId)
    requires id in Step(s, op).occurrences && Step(s, op).occurrences[id].condition == Normal
    ensures var o := Step(s, op).occurrences[id];
      || NormalizedBy(s, op, id, o)
      || (id in s.occurrences && s.occurrences[id].condition == Normal
          && s.occurrences[id].normalizedAt == o.normalizedAt)
  {
    if op.Observe? {
      var open := LatestOpen(s, op.report.alarmId);
      assert open.Some? ==> open.value in OpenIds(s, op.report.alarmId);
    }
  }

  lemma StepRaises(s: Store, op: Op, id: OccurrenceId)
    requires id in Step(s, op).occurrences
    ensures RaisedBy(s, op, id) || id in s.occurrences
  {
    if op.Observe? && LatestOpen(s, op.report.alarmId).None? { NoneOpen(s, op.report.alarmId); }
  }

  /** An event says what its transaction did: to which occurrence, when, by whom, and how the occurrence then stands. */
  lemma EventSays(s: Store, op: Op)
    ensures var t := Step(s, op);
      t.events != s.events ==>
        && |t.events| == |s.events| + 1 && t.events[..|s.events|] == s.events
        && var e := t.events[|s.events|];
           && e.timestamp == op.now && e.actor == (if op.Acknowledge? then op.actor else "")
           && (if op.Acknowledge? then e.occurrence == op.id else e.occurrence.alarmId == op.report.alarmId)
           && e.occurrence in t.occurrences
           && (e.condition, e.acknowledged, e.revision) ==
                (t.occurrences[e.occurrence].condition, t.occurrences[e.occurrence].acknowledged,
                 t.occurrences[e.occurrence].revision)
  {
    if op.Observe? {
      var open := LatestOpen(s, op.report.alarmId);
      assert open.Some? ==> open.value in OpenIds(s, op.report.alarmId);
    }
  }

  // ------------------------------------------------------------ whole runs

  /** At step `k` the occurrence was acknowledged as it still says in state `i`. */
  predicate AcknowledgedAt(ss: seq<Store>, ops: seq<Op>, k: nat, i: nat, id: OccurrenceId)
    requires k < |ops| < |ss| && i < |ss| && id in ss[i].occurrences
  {
    k < i && AcknowledgedBy(ss[k], ops[k], id, ss[i].occurrences[id])
    && forall m :: k < m <= i ==> id in ss[m].occurrences && ss[m].occurrences[id].acknowledged
  }

  /** In every run an acknowledgement is somebody's: whatever occurrence is acknowledged was acknowledged by the
      operator and at the time that it names, and has been ever since. */
  lemma {:induction false} AcknowledgementsAreReal(ss: seq<Store>, ops: seq<Op>, i: nat, id: OccurrenceId)
    requires Run(ss, ops) && i < |ss| && id in ss[i].occurrences && ss[i].occurrences[id].acknowledged
    ensures exists k :: 0 <= k < |ops| && AcknowledgedAt(ss, ops, k, i, id)
  {
    assert i > 0;
    assert ss[i - 1 + 1] == Step(ss[i - 1], ops[i - 1]);
    StepAcknowledges(ss[i - 1], ops[i - 1], id);
    if AcknowledgedBy(ss[i - 1], ops[i - 1], id, ss[i].occurrences[id]) {
      assert AcknowledgedAt(ss, ops, i - 1, i, id);
    } else {
      AcknowledgementsAreReal(ss, ops, i - 1, id);
      var k :| 0 <= k < |ops| && AcknowledgedAt(ss, ops, k, i - 1, id);
      assert AcknowledgedAt(ss, ops, k, i, id);
    }
  }

  predicate NormalizedAt(ss: seq<Store>, ops: seq<Op>, k: nat, i: nat, id: OccurrenceId)
    requires k < |ops| < |ss| && i < |ss| && id in ss[i].occurrences
  {
    k < i && NormalizedBy(ss[k], ops[k], id, ss[i].occurrences[id])
    && forall m :: k < m <= i ==> id in ss[m].occurrences && ss[m].occurrences[id].condition == Normal
  }

  /** Whatever occurrence is normal was open until a report, of the time that it names, said that its alarm is normal,
      and has been normal ever since. */
  lemma {:induction false} NormalIsReported(ss: seq<Store>, ops: seq<Op>, i: nat, id: OccurrenceId)
    requires Run(ss, ops) && i < |ss| && id in ss[i].occurrences && ss[i].occurrences[id].condition == Normal
    ensures exists k :: 0 <= k < |ops| && NormalizedAt(ss, ops, k, i, id)
  {
    assert i > 0;
    assert ss[i - 1 + 1] == Step(ss[i - 1], ops[i - 1]);
    StepNormalizes(ss[i - 1], ops[i - 1], id);
    if NormalizedBy(ss[i - 1], ops[i - 1], id, ss[i].occurrences[id]) {
      assert NormalizedAt(ss, ops, i - 1, i, id);
    } else {
      NormalIsReported(ss, ops, i - 1, id);
      var k :| 0 <= k < |ops| && NormalizedAt(ss, ops, k, i - 1, id);
      assert NormalizedAt(ss, ops, k, i, id);
    }
  }

  /** Whatever occurrence there is was raised by a report of the time in its name, at a moment when its alarm was not
      open. */
  lemma {:induction false} OccurrencesAreRaised(ss: seq<Store>, ops: seq<Op>, i: nat, id: OccurrenceId)
    requires Run(ss, ops) && i < |ss| && id in ss[i].occurrences
    ensures exists k :: 0 <= k < i && RaisedBy(ss[k], ops[k], id)
  {
    assert i > 0;
    assert ss[i - 1 + 1] == Step(ss[i - 1], ops[i - 1]);
    StepRaises(ss[i - 1], ops[i - 1], id);
    if id in ss[i - 1].occurrences { OccurrencesAreRaised(ss, ops, i - 1, id); }
  }
}
