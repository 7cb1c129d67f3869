/** What the alarm store keeps over any sequence of its transactions, and what it keeps of an occurrence as long as
    its alarm is not raised again at the same raise time. */
module AlarmHistory {
  import opened Basics
  import opened RuleService
  import opened AlarmService

  datatype Op = Observe(report: Report, now: int) | Acknowledge(id: OccurrenceId, actor: string, now: int)

  ghost function Attempt(s: Store, op: Op): Option<Store> {
    match op
    case Observe(r, now) => Observed(s, r, now)
    case Acknowledge(id, actor, now) => Acknowledging(s, id, actor, now)
  }

  /** A transaction that throws is rolled back. */
  ghost function Step(s: Store, op: Op): Store {
    if Attempt(s, op).Some? then Attempt(s, op).value else s
  }

  ghost predicate Run(ss: seq<Store>, ops: seq<Op>) {
    && |ss| == |ops| + 1
    && ss[0] == Store(map[], [], [])
    && forall i :: 0 <= i < |ops| ==> ss[i + 1] == Step(ss[i], ops[i])
  }

  // --------------------------------------------------- one open occurrence

  ghost predicate AtMostOneOpen(s: Store) {
    forall a, b :: Open(s, a) && Open(s, b) && a.alarmId == b.alarmId ==> a == b
  }

  /** At no time does an alarm have two occurrences that are not NORMAL, whatever is reported. */
  lemma OneOpenKept(s: Store, op: Op)
    requires AtMostOneOpen(s)
    ensures AtMostOneOpen(Step(s, op))
  {
    var t := Step(s, op);
    forall a, b | Open(t, a) && Open(t, b) && a.alarmId == b.alarmId ensures a == b {
      if op.Observe? {
        assert LatestOpen(s, op.report.alarmId).None? ==>
          a !in OpenIds(s, op.report.alarmId) && b !in OpenIds(s, op.report.alarmId);
      }
      assert Open(s, a) && Open(s, b) ==> a == b;
    }
  }

  lemma {:induction false} RunOneOpen(ss: seq<Store>, ops: seq<Op>, i: nat)
    requires Run(ss, ops) && i < |ss|
    ensures AtMostOneOpen(ss[i])
  {
    if i > 0 {
      RunOneOpen(ss, ops, i - 1);
      OneOpenKept(ss[i - 1], ops[i - 1]);
      assert ss[i - 1 + 1] == Step(ss[i - 1], ops[i - 1]);
    }
  }

  // -------------------------------------------------------- event sourcing

  function EventsOf(events: seq<EventRow>, id: OccurrenceId): seq<EventRow> {
    if events == [] then []
    else
      var e := events[|events| - 1];
      EventsOf(events[..|events| - 1], id) + if e.occurrence == id then [e] else []
  }

  /** What an occurrence's events alone say about it. */
  datatype Shown = Shown(condition: Condition, acknowledged: bool, revision: nat)

  /** The meaning of one more event; None when no store can have written it there. */
  function ReplayOne(v: Option<Shown>, e: EventRow): Option<Shown> {
    var next :=
      match e.eventType
      case Raised => if v.None? && e.condition != Normal then Some(Shown(e.condition, false, 1)) else None
      case ConditionActive =>
        if v.Some? && v.value.condition == Unknown
        then Some(v.value.(condition := Active, revision := v.value.revision + 1))
        else None
      case ConditionUnknown =>
        if v.Some? && v.value.condition == Active
        then Some(v.value.(condition := Unknown, revision := v.value.revision + 1))
        else None
      case ReturnToNormal =>
        if v.Some? && v.value.condition != Normal
        then Some(v.value.(condition := Normal, revision := v.value.revision + 1))
        else None
      case Acknowledged =>
        if v.Some? && !v.value.acknowledged
        then Some(v.value.(acknowledged := true, revision := v.value.revision + 1))
        else None;
    if next == Some(Shown(e.condition, e.acknowledged, e.revision)) then next else None
  }

  function Replay(es: seq<EventRow>): Option<Shown> {
    if es == [] then None
    else if |es| > 1 && Replay(es[..|es| - 1]).None? then None
    else ReplayOne(Replay(es[..|es| - 1]), es[|es| - 1])
  }

  function ShownBy(o: Occurrence): Shown {
    Shown(o.condition, o.acknowledged, o.revision)
  }

  predicate Mirrored(s: Store) {
    && |s.outbox| == |s.events|
    && forall i :: 0 <= i < |s.events| ==>
         s.outbox[i] == OutboxRow(s.events[i], s.events[i].revision, s.events[i].timestamp)
  }

  /** Replaying an occurrence's events gives the occurrence; without an occurrence there are none. */
  predicate Faithful(s: Store, id: OccurrenceId) {
    if id in s.occurrences then Replay(EventsOf(s.events, id)) == Some(ShownBy(s.occurrences[id]))
    else EventsOf(s.events, id) == []
  }

  /** Every occurrence is what its events say, and the outbox is the event table. */
  ghost predicate EventSourced(s: Store) {
    Mirrored(s) && forall id :: Faithful(s, id)
  }

  /** Replayable events carry the revisions 1, 2, ... n, begin with RAISED, and end with what they show. */
  lemma {:induction false} ReplayNumbers(es: seq<EventRow>)
    requires Replay(es).Some?
    ensures |es| == Replay(es).value.revision && es[0].eventType == Raised
    ensures forall i :: 0 <= i < |es| ==> es[i].revision == i + 1
    ensures var last, shown := es[|es| - 1], Replay(es).value;
      last.condition == shown.condition && last.acknowledged == shown.acknowledged
    decreases |es|
  {
    if |es| > 1 { ReplayNumbers(es[..|es| - 1]); }
  }

  /** In replayable events an acknowledgement is never lost, and after the return to NORMAL only an acknowledgement
      can follow. */
  lemma {:induction false} ReplaySettles(es: seq<EventRow>, i: nat, j: nat)
    requires Replay(es).Some? && i <= j < |es|
    ensures es[i].acknowledged ==> es[j].acknowledged
    ensures es[i].condition == Normal ==> es[j].condition == Normal && (i < j ==> es[j].eventType == Acknowledged)
    decreases |es|
  {
    if j < |es| - 1 {
      ReplaySettles(es[..|es| - 1], i, j);
    } else if i < j {
      ReplaySettles(es[..|es| - 1], i, j - 1);
      ReplayNumbers(es[..|es| - 1]);
    }
  }

  lemma EventsAppend(events: seq<EventRow>, e: EventRow, id: OccurrenceId)
    ensures EventsOf(events + [e], id) == EventsOf(events, id) + if e.occurrence == id then [e] else []
  {
    assert (events + [e])[..|events|] == events;
  }

  lemma ReplayAppend(es: seq<EventRow>, e: EventRow)
    ensures Replay(es + [e]) == if es != [] && Replay(es).None? then None else ReplayOne(Replay(es), e)
  {
    assert (es + [e])[..|es|] == es;
  }

  lemma {:induction false} EventsMember(events: seq<EventRow>, id: OccurrenceId, e: EventRow)
    requires e in events && e.occurrence == id
    ensures e in EventsOf(events, id)
    decreases |events|
  {
    if e != events[|events| - 1] {
      assert e in events[..|events| - 1];
      EventsMember(events[..|events| - 1], id, e);
    }
  }

  function ShownIn(s: Store, id: OccurrenceId): Option<Shown> {
    if id in s.occurrences then Some(ShownBy(s.occurrences[id])) else None
  }

  /** The key of an occurrence's next revision is free. */
  lemma NextKeyFree(s: Store, e: EventRow)
    requires Mirrored(s) && Faithful(s, e.occurrence)
    requires e.occurrence in s.occurrences ==> e.revision > s.occurrences[e.occurrence].revision
    ensures !Clashes(s.events, e) && !exists x :: x in s.outbox && SameKey(x.payload, e)
  {
    var id := e.occurrence;
    forall x | x in s.events && x.occurrence == id ensures !SameKey(x, e) {
      EventsMember(s.events, id, x);
      ReplayNumbers(EventsOf(s.events, id));
    }
  }

  function Written(s: Store, o: Occurrence, e: EventRow): Store {
    Store(s.occurrences[e.occurrence := o], s.events + [e], s.outbox + [OutboxRow(e, e.revision, e.timestamp)])
  }

  /** Writing an occurrence together with an event that replays to it keeps it faithful. */
  lemma WritingReplays(s: Store, o: Occurrence, e: EventRow)
    requires Faithful(s, e.occurrence) && ReplayOne(ShownIn(s, e.occurrence), e) == Some(ShownBy(o))
    ensures Faithful(Written(s, o, e), e.occurrence)
  {
    EventsAppend(s.events, e, e.occurrence);
    ReplayAppend(EventsOf(s.events, e.occurrence), e);
  }

  lemma WrittenCommit(s: Store, id: OccurrenceId, o: Occurrence, t: EventType, actor: string, now: int)
    requires Commit(s, id, o, t, actor, now).Some?
    ensures Commit(s, id, o, t, actor, now).value ==
      Written(s, o, EventRow(id, t, o.revision, now, o.condition, o.acknowledged, actor))
  {
  }

  lemma CommitReplays(s: Store, id: OccurrenceId, o: Occurrence, t: EventType, actor: string, now: int)
    requires Faithful(s, id)
    requires var e := EventRow(id, t, o.revision, now, o.condition, o.acknowledged, actor);
      ReplayOne(ShownIn(s, id), e) == Some(ShownBy(o))
    ensures Mirrored(s) ==> Commit(s, id, o, t, actor, now).Some?
    ensures Commit(s, id, o, t, actor, now).Some? ==> Faithful(Commit(s, id, o, t, actor, now).value, id)
  {
    var e := EventRow(id, t, o.revision, now, o.condition, o.acknowledged, actor);
    if Mirrored(s) { NextKeyFree(s, e); }
    if Commit(s, id, o, t, actor, now).Some? { WrittenCommit(s, id, o, t, actor, now); }
    WritingReplays(s, o, e);
  }

  /** The name under which a report raises an alarm that is not open. */
  function RaiseName(op: Op): OccurrenceId
    requires op.Observe?
  {
    OccurrenceId(op.report.alarmId, RaisedAt(op.report, op.now))
  }

  /** The report raises an alarm under the name of an occurrence that already exists, and is committed. */
  ghost predicate Reraises(s: Store, op: Op) {
    && op.Observe? && Attempt(s, op).Some? && op.report.condition != Normal
    && LatestOpen(s, op.report.alarmId).None?
    && RaiseName(op) in s.occurrences
  }

  /** The occurrence that a transaction is about. */
  ghost function Subject(s: Store, op: Op): Option<OccurrenceId> {
    match op
    case Observe(r, now) => Target(s, r, now)
    case Acknowledge(id, _, _) => Some(id)
  }

  /** A transaction that is about another occurrence leaves this one and its events alone. */
  lemma StepSpares(s: Store, op: Op, id: OccurrenceId)
    requires Subject(s, op) != Some(id)
    ensures var t := Step(s, op);
      && EventsOf(t.events, id) == EventsOf(s.events, id) && (id in t.occurrences <==> id in s.occurrences)
      && (id in s.occurrences ==> t.occurrences[id] == s.occurrences[id])
  {
    var t := Step(s, op);
    if t.events != s.events {
      assert t.events[..|s.events|] == s.events;
      EventsAppend(s.events, t.events[|s.events|], id);
    }
  }

  lemma StepKeepsMirror(s: Store, op: Op)
    requires Mirrored(s)
    ensures Mirrored(Step(s, op))
  {
  }

  /** The events of this occurrence no longer replay, and never will again. */
  predicate Broken(s: Store, id: OccurrenceId) {
    id in s.occurrences && EventsOf(s.events, id) != [] && Replay(EventsOf(s.events, id)).None?
  }

  /** Raising under an existing name overwrites the occurrence and appends a second RAISED with revision 1. */
  lemma ReraiseBreaks(s: Store, op: Op)
    requires Reraises(s, op) && Faithful(s, RaiseName(op))
    ensures Broken(Step(s, op), RaiseName(op))
  {
    var id, u := RaiseName(op), Step(s, op);
    var e := u.events[|u.events| - 1];
    ReplayNumbers(EventsOf(s.events, id));
    EventsAppend(s.events, e, id);
    ReplayAppend(EventsOf(s.events, id), e);
  }

  /** A transaction writes at most one event, and deletes nothing. */
  lemma StepAppends(s: Store, op: Op)
    ensures var u := Step(s, op);
      && (u.events == s.events || (|u.events| > 0 && u.events == s.events + [u.events[|u.events| - 1]]))
      && forall id :: id in s.occurrences ==> id in u.occurrences
  {
  }

  lemma BrokenStays(s: Store, op: Op, id: OccurrenceId)
    requires Broken(s, id)
    ensures Broken(Step(s, op), id)
  {
    StepAppends(s, op);
    var u := Step(s, op);
    if u.events != s.events {
      var e, es := u.events[|u.events| - 1], EventsOf(s.events, id);
      EventsAppend(s.events, e, id);
      ReplayAppend(es, e);
      assert es + [] == es;
    }
  }

  /** The transaction has what it needs: an alarm id and, to raise, a name not used before; or an existing
      occurrence. */
  ghost predicate Fresh(s: Store, op: Op) {
    match op
    case Observe(r, now) =>
      && r.alarmId != ""
      && (LatestOpen(s, r.alarmId).None? && r.condition != Normal ==>
            OccurrenceId(r.alarmId, RaisedAt(r, now)) !in s.occurrences)
    case Acknowledge(id, _, _) => id in s.occurrences
  }

  lemma ReportReplays(s: Store, r: Report, now: int)
    requires Fresh(s, Observe(r, now)) && Target(s, r, now).Some? && Faithful(s, Target(s, r, now).value)
    ensures Mirrored(s) ==> Observed(s, r, now).Some?
    ensures Observed(s, r, now).Some? ==> Faithful(Observed(s, r, now).value, Target(s, r, now).value)
  {
    var open := LatestOpen(s, r.alarmId);
    if open.None? {
      CommitReplays(s, OccurrenceId(r.alarmId, RaisedAt(r, now)), Occurrence(r.condition, false, 0, 0, "", 1), Raised,
                    "", now);
    } else if s.occurrences[open.value].condition != r.condition {
      var o := s.occurrences[open.value];
      var changed := o.(condition := r.condition, revision := o.revision + 1,
                        normalizedAt := if r.condition == Normal then RaisedAt(r, now) else o.normalizedAt);
      assert open.value in OpenIds(s, r.alarmId);
      CommitReplays(s, open.value, changed, EventTypeOf(false, r.condition), "", now);
    }
  }

  lemma AcknowledgementReplays(s: Store, id: OccurrenceId, actor: string, now: int)
    requires id in s.occurrences && Faithful(s, id)
    ensures Mirrored(s) ==> Acknowledging(s, id, actor, now).Some?
    ensures Acknowledging(s, id, actor, now).Some? ==> Faithful(Acknowledging(s, id, actor, now).value, id)
  {
    var o := s.occurrences[id];
    if !o.acknowledged {
      CommitReplays(s, id,
                    o.(acknowledged := true, acknowledgedAt := now, acknowledgedBy := actor,
                       revision := o.revision + 1),
                    Acknowledged, actor, now);
    }
  }

  lemma SubjectReplays(s: Store, op: Op)
    requires Fresh(s, op) && (Subject(s, op).Some? ==> Faithful(s, Subject(s, op).value))
    ensures Mirrored(s) ==> Attempt(s, op).Some?
    ensures Subject(s, op).Some? ==> Faithful(Step(s, op), Subject(s, op).value)
  {
    match op
    case Observe(r, now) => if Target(s, r, now).Some? { ReportReplays(s, r, now); }
    case Acknowledge(id, actor, now) => AcknowledgementReplays(s, id, actor, now);
  }

  /** With a fresh raise name a transaction about a faithful occurrence never fails on a key. */
  lemma CommitsWhenFresh(s: Store, op: Op)
    requires Mirrored(s) && Fresh(s, op) && (Subject(s, op).Some? ==> Faithful(s, Subject(s, op).value))
    ensures Attempt(s, op).Some?
  {
    SubjectReplays(s, op);
  }

  /** The step raises this very occurrence's name again. */
  ghost predicate ReraisesName(s: Store, op: Op, id: OccurrenceId) {
    Reraises(s, op) && RaiseName(op) == id
  }

  /** An occurrence stays faithful to its events exactly as long as its own name is not raised again. */
  lemma FaithfulExactlyWhenFresh(s: Store, op: Op, id: OccurrenceId)
    requires Faithful(s, id)
    ensures Faithful(Step(s, op), id) <==> !ReraisesName(s, op, id)
    ensures ReraisesName(s, op, id) ==> Broken(Step(s, op), id)
  {
    if Subject(s, op) != Some(id) {
      StepSpares(s, op, id);
    } else if ReraisesName(s, op, id) {
      ReraiseBreaks(s, op);
    } else if Attempt(s, op).Some? {
      SubjectReplays(s, op);
    }
  }

  /** What holds of every occurrence follows. */
  lemma EventSourcedKept(s: Store, op: Op)
    requires EventSourced(s) && !Reraises(s, op)
    ensures EventSourced(Step(s, op))
  {
    StepKeepsMirror(s, op);
    forall id ensures Faithful(Step(s, op), id) { FaithfulExactlyWhenFresh(s, op, id); }
  }

  ghost predicate EverReraised(ss: seq<Store>, ops: seq<Op>, i: nat, id: OccurrenceId)
    requires i <= |ops| < |ss|
  {
    exists k :: 0 <= k < i && ReraisesName(ss[k], ops[k], id)
  }

  predicate FaithfulOrBroken(s: Store, id: OccurrenceId, broken: bool) {
    if broken then Broken(s, id) else Faithful(s, id)
  }

  lemma StepFaithfulOrBroken(s: Store, op: Op, id: OccurrenceId, broken: bool)
    requires FaithfulOrBroken(s, id, broken)
    ensures FaithfulOrBroken(Step(s, op), id, broken || ReraisesName(s, op, id))
  {
    if broken { BrokenStays(s, op, id); } else { FaithfulExactlyWhenFresh(s, op, id); }
  }

  lemma EverReraisedGrows(ss: seq<Store>, ops: seq<Op>, i: nat, id: OccurrenceId)
    requires i < |ops| < |ss|
    ensures EverReraised(ss, ops, i + 1, id) <==> EverReraised(ss, ops, i, id) || ReraisesName(ss[i], ops[i], id)
  {
  }

  lemma NextFaithfulOrBroken(ss: seq<Store>, ops: seq<Op>, i: nat, id: OccurrenceId)
    requires Run(ss, ops) && i < |ops| && Mirrored(ss[i])
    requires FaithfulOrBroken(ss[i], id, EverReraised(ss, ops, i, id))
    ensures FaithfulOrBroken(ss[i + 1], id, EverReraised(ss, ops, i + 1, id)) && Mirrored(ss[i + 1])
  {
    StepKeepsMirror(ss[i], ops[i]);
    StepFaithfulOrBroken(ss[i], ops[i], id, EverReraised(ss, ops, i, id));
    EverReraisedGrows(ss, ops, i, id);
  }

  lemma {:induction false} RunFaithfulExactly(ss: seq<Store>, ops: seq<Op>, i: nat, id: OccurrenceId)
    requires Run(ss, ops) && i < |ss|
    ensures FaithfulOrBroken(ss[i], id, EverReraised(ss, ops, i, id)) && Mirrored(ss[i])
  {
    if i > 0 {
      RunFaithfulExactly(ss, ops, i - 1, id);
      NextFaithfulOrBroken(ss, ops, i - 1, id);
    }
  }

  /** In every reachable state the outbox holds the same rows as the event table, and an occurrence is what its events
      say if and only if its name has never been raised again: then they carry the revisions 1 to its own, the last of
      them shows its condition and acknowledgement, and acknowledgements are never lost. */
  lemma StoreIsEventSourced(ss: seq<Store>, ops: seq<Op>, i: nat, id: OccurrenceId)
    requires Run(ss, ops) && i < |ss| && id in ss[i].occurrences
    ensures Mirrored(ss[i])
    ensures Replay(EventsOf(ss[i].events, id)) == Some(ShownBy(ss[i].occurrences[id])) <==>
      !EverReraised(ss, ops, i, id)
    ensures !EverReraised(ss, ops, i, id) ==> TellsAll(EventsOf(ss[i].events, id), ss[i].occurrences[id])
  {
    RunFaithfulExactly(ss, ops, i, id);
    if !EverReraised(ss, ops, i, id) { FaithfulTellsAll(EventsOf(ss[i].events, id), ss[i].occurrences[id]); }
  }

  predicate TellsAll(es: seq<EventRow>, o: Occurrence) {
    && |es| == o.revision && |es| > 0 && es[0].eventType == Raised
    && (forall k :: 0 <= k < |es| ==> es[k].revision == k + 1)
    && es[|es| - 1].condition == o.condition && es[|es| - 1].acknowledged == o.acknowledged
    && (forall k :: 0 <= k < |es| && es[k].acknowledged ==> o.acknowledged)
    && (forall k :: 0 <= k < |es| && es[k].condition == Normal ==> o.condition == Normal)
  }

  lemma FaithfulTellsAll(es: seq<EventRow>, o: Occurrence)
    requires Replay(es) == Some(ShownBy(o))
    ensures TellsAll(es, o)
  {
    ReplayNumbers(es);
    forall k | 0 <= k < |es| ensures es[k].acknowledged ==> o.acknowledged {
      ReplaySettles(es, k, |es| - 1);
    }
    forall k | 0 <= k < |es| ensures es[k].condition == Normal ==> o.condition == Normal {
      ReplaySettles(es, k, |es| - 1);
    }
  }

  // -------------------------------------------------------------- stability

  /** NORMAL and acknowledged: what closing an incident asks of its occurrences. */
  predicate SettledIn(s: Store, id: OccurrenceId) {
    id in s.occurrences && s.occurrences[id].condition == Normal && s.occurrences[id].acknowledged
  }

  /** Both facts are stable, and the record with them, unless exactly this occurrence's name is raised again. */
  lemma SettledStable(s: Store, op: Op, id: OccurrenceId)
    requires SettledIn(s, id)
    ensures SettledIn(Step(s, op), id) <==> !ReraisesName(s, op, id)
    ensures SettledIn(Step(s, op), id) ==> Step(s, op).occurrences[id] == s.occurrences[id]
  {
    if op.Observe? {
      var open := LatestOpen(s, op.report.alarmId);
      assert open.Some? ==> open.value in OpenIds(s, op.report.alarmId);
    }
  }

  // -------------------------------------------------- a name raised again

  const EXAMPLE := OccurrenceId("a", 5)

  const EXAMPLE_OPS := [
    Observe(Report("a", Active, Some(5)), 10),
    Observe(Report("a", Normal, Some(6)), 11),
    Acknowledge(EXAMPLE, "op", 12),
    Observe(Report("a", Active, Some(5)), 13)
  ]

  const EXAMPLE_ROWS := [
    EventRow(EXAMPLE, Raised, 1, 10, Active, false, ""),
    EventRow(EXAMPLE, ReturnToNormal, 2, 11, Normal, false, ""),
    EventRow(EXAMPLE, Acknowledged, 3, 12, Normal, true, "op"),
    EventRow(EXAMPLE, Raised, 1, 13, Active, false, "")
  ]

  const EXAMPLE_STATES := [
    Occurrence(Active, false, 0, 0, "", 1),
    Occurrence(Normal, false, 6, 0, "", 2),
    Occurrence(Normal, true, 6, 12, "op", 3),
    Occurrence(Active, false, 0, 0, "", 1)
  ]

  function Mirror(e: EventRow): OutboxRow {
    OutboxRow(e, e.revision, e.timestamp)
  }

  /** The store after the first `n` of these transactions. */
  function ExampleStore(n: nat): Store
    requires n <= 4
  {
    Store(if n == 0 then map[] else map[EXAMPLE := EXAMPLE_STATES[n - 1]],
          EXAMPLE_ROWS[..n], seq(n, i requires 0 <= i < n => Mirror(EXAMPLE_ROWS[i])))
  }

  lemma ExampleOpen(n: nat)
    requires n <= 4
    ensures LatestOpen(ExampleStore(n), "a") == if n == 1 || n == 4 then Some(EXAMPLE) else None
  {
    var s := ExampleStore(n);
    if n == 1 || n == 4 {
      assert EXAMPLE in OpenIds(s, "a");
    } else {
      assert OpenIds(s, "a") == {};
    }
  }

  lemma ExampleStep(n: nat)
    requires n < 4
    ensures Step(ExampleStore(n), EXAMPLE_OPS[n]) == ExampleStore(n + 1)
  {
    ExampleOpen(n);
    var s, t, e := ExampleStore(n), ExampleStore(n + 1), EXAMPLE_ROWS[n];
    assert t.events == s.events + [e];
    assert t.outbox == s.outbox + [Mirror(e)];
    assert !Clashes(s.events, e) && !exists x :: x in s.outbox && SameKey(x.payload, e);
  }

  /** Raised, returned to NORMAL, acknowledged and then raised again with the same raise time, from the empty store
      on: the acknowledgement is gone, the settled occurrence is open, and its revisions run 1, 2, 3, 1. */
  lemma AcknowledgementLost() returns (ss: seq<Store>, ops: seq<Op>)
    ensures Run(ss, ops) && |ops| == 4
    ensures SettledIn(ss[3], EXAMPLE) && Reraises(ss[3], ops[3])
    ensures Open(ss[4], EXAMPLE) && !ss[4].occurrences[EXAMPLE].acknowledged
    ensures |ss[4].events| == 4 && forall i :: 0 <= i < 4 ==> ss[4].events[i].revision == [1, 2, 3, 1][i]
  {
    ss := seq(5, n requires 0 <= n < 5 => ExampleStore(n));
    ops := EXAMPLE_OPS;
    forall i | 0 <= i < 4 ensures ss[i + 1] == Step(ss[i], ops[i]) { ExampleStep(i); }
    ExampleOpen(3);
    SettledStable(ss[3], ops[3], EXAMPLE);
  }

  // --------------------------------------------------------- legacy mirror

  /** After a committed report the alarm stands as reported: its target is its open occurrence, or nothing is open. */
  lemma ReportTakesEffect(s: Store, r: Report, now: int)
    requires AtMostOneOpen(s) && Observed(s, r, now).Some?
    ensures var u := Observed(s, r, now).value;
      && AtMostOneOpen(u)
      && LatestOpen(u, r.alarmId) == (if r.condition == Normal then None else Target(s, r, now))
      && (r.condition != Normal ==> u.occurrences[LatestOpen(u, r.alarmId).value].condition == r.condition)
      && (Target(s, r, now).Some? ==> Target(s, r, now).value in u.occurrences)
  {
    var u := Observed(s, r, now).value;
    OneOpenKept(s, Observe(r, now));
    var t := Target(s, r, now);
    if r.condition != Normal {
      assert t.value in OpenIds(u, r.alarmId);
    } else if t.Some? {
      assert forall id :: id in OpenIds(s, r.alarmId) ==> Open(s, id) && id == t.value;
    } else {
      assert OpenIds(u, r.alarmId) == {};
    }
  }

  /** The alarm stands as a report says. */
  ghost predicate Stands(u: Store, r: Report) {
    var open := LatestOpen(u, r.alarmId);
    if r.condition == Normal then open.None? else open.Some? && u.occurrences[open.value].condition == r.condition
  }

  /** A report that says what already stands changes nothing. */
  lemma RepeatedReport(u: Store, r: Report, later: int)
    requires r.alarmId != "" && Stands(u, r)
    ensures Observed(u, r, later) == Some(u) && Target(u, r, later) == LatestOpen(u, r.alarmId)
  {
  }

  lemma AcknowledgingKeepsOpen(u: Store, id: OccurrenceId, actor: string, now: int, alarmId: string)
    requires AtMostOneOpen(u) && Acknowledging(u, id, actor, now).Some?
    ensures var v := Acknowledging(u, id, actor, now).value;
      && LatestOpen(v, alarmId) == LatestOpen(u, alarmId) && v.occurrences[id].acknowledged
      && (LatestOpen(u, alarmId).Some? ==>
            var open := LatestOpen(u, alarmId).value;
            v.occurrences[open].condition == u.occurrences[open].condition)
  {
    var v := Acknowledging(u, id, actor, now).value;
    assert OpenIds(v, alarmId) == OpenIds(u, alarmId);
    assert forall x :: x in OpenIds(u, alarmId) ==> Open(u, x);
  }

  /** A mirrored report finds what it needs: a fresh name, and a faithful occurrence to write to. */
  ghost predicate SyncReady(s: Store, r: Report, now: int) {
    && Mirrored(s) && AtMostOneOpen(s) && Fresh(s, Observe(r, now))
    && (Target(s, r, now).Some? ==> Faithful(s, Target(s, r, now).value))
  }

  lemma MirroredReport(s: Store, r: Report, now: int)
    requires SyncReady(s, r, now)
    ensures Observed(s, r, now).Some? && Mirrored(Observed(s, r, now).value)
    ensures Target(s, r, now).Some? ==> Faithful(Observed(s, r, now).value, Target(s, r, now).value)
  {
    SubjectReplays(s, Observe(r, now));
    StepKeepsMirror(s, Observe(r, now));
  }

  /** The mirrored alarm stands, with the acknowledgement that the field reports. */
  ghost predicate StandsMirrored(v: Store, a: LegacyAlarm) {
    var open := LatestOpen(v, a.id);
    Stands(v, ReportOf(a)) && (open.Some? && a.acknowledgedAt > 0 ==> v.occurrences[open.value].acknowledged)
  }

  lemma SyncAcknowledges(s: Store, a: LegacyAlarm, now: int)
    requires SyncReady(s, ReportOf(a), now) && a.acknowledgedAt > 0 && Target(s, ReportOf(a), now).Some?
    ensures Observed(s, ReportOf(a), now).Some?
    ensures var u := Acknowledging(Observed(s, ReportOf(a), now).value, Target(s, ReportOf(a), now).value,
                                   a.acknowledgedBy, now);
      u.Some? && Synced(s, a, now) == u.value
  {
    MirroredReport(s, ReportOf(a), now);
    ReportTakesEffect(s, ReportOf(a), now);
    AcknowledgementReplays(Observed(s, ReportOf(a), now).value, Target(s, ReportOf(a), now).value, a.acknowledgedBy,
                           now);
  }

  /** After mirroring, the alarm stands as the field reports it, and its occurrence carries the field's
      acknowledgement. */
  lemma SyncTakesEffect(s: Store, a: LegacyAlarm, now: int)
    requires SyncReady(s, ReportOf(a), now)
    ensures StandsMirrored(Synced(s, a, now), a)
  {
    var r := ReportOf(a);
    MirroredReport(s, r, now);
    ReportTakesEffect(s, r, now);
    if a.acknowledgedAt > 0 && Target(s, r, now).Some? {
      SyncAcknowledges(s, a, now);
      AcknowledgingKeepsOpen(Observed(s, r, now).value, Target(s, r, now).value, a.acknowledgedBy, now, a.id);
    }
  }

  lemma StandingAlarmSyncs(v: Store, a: LegacyAlarm, later: int)
    requires a.id != "" && StandsMirrored(v, a)
    ensures Synced(v, a, later) == v
  {
    RepeatedReport(v, ReportOf(a), later);
  }

  /** Mirroring the same field alarm again, at any later time, adds nothing. */
  lemma SyncIdempotent(s: Store, a: LegacyAlarm, now: int, later: int)
    requires SyncReady(s, ReportOf(a), now)
    ensures Synced(Synced(s, a, now), a, later) == Synced(s, a, now)
  {
    SyncTakesEffect(s, a, now);
    StandingAlarmSyncs(Synced(s, a, now), a, later);
  }
}
