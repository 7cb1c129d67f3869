/** The alarm store: occurrences, their events and the outbox, changed together inside transactions. */
module AlarmService {
  import opened Basics
  import opened RuleService

  /** An occurrence is named by its alarm and its raise time. */
  datatype OccurrenceId = OccurrenceId(alarmId: string, raisedAt: int)

  datatype Occurrence = Occurrence(
    condition: Condition,
    acknowledged: bool,
    normalizedAt: int,
    acknowledgedAt: int,
    acknowledgedBy: string,
    revision: nat
  )

  datatype EventType = Raised | ConditionActive | ConditionUnknown | ReturnToNormal | Acknowledged

  datatype EventRow = EventRow(
    occurrence: OccurrenceId, eventType: EventType, revision: nat, timestamp: int,
    condition: Condition, acknowledged: bool, actor: string)

  datatype OutboxRow = OutboxRow(payload: EventRow, objectRevision: nat, createdAt: int)

  datatype Store = Store(occurrences: map<OccurrenceId, Occurrence>, events: seq<EventRow>, outbox: seq<OutboxRow>)

  /** A condition report; without a timestamp the clock serves. */
  datatype Report = Report(alarmId: string, condition: Condition, timestamp: Option<int>)

  // --------------------------------------------------------- specification

  /** Two events with the same occurrence, type, revision and time have the same primary key. */
  predicate SameKey(a: EventRow, b: EventRow) {
    a.occurrence == b.occurrence && a.eventType == b.eventType && a.revision == b.revision && a.timestamp == b.timestamp
  }

  predicate Clashes(events: seq<EventRow>, e: EventRow) {
    exists x :: x in events && SameKey(x, e)
  }

  predicate Open(s: Store, id: OccurrenceId) {
    id in s.occurrences && s.occurrences[id].condition != Normal
  }

  function OpenIds(s: Store, alarmId: string): set<OccurrenceId> {
    set id | id in s.occurrences && id.alarmId == alarmId && s.occurrences[id].condition != Normal
  }

  predicate NewestOf(ids: set<OccurrenceId>, id: OccurrenceId) {
    id in ids && forall o :: o in ids ==> o.raisedAt <= id.raisedAt
  }

  lemma {:induction false} NewestExists(ids: set<OccurrenceId>) returns (id: OccurrenceId)
    requires ids != {}
    ensures NewestOf(ids, id)
    decreases ids
  {
    var x :| x in ids;
    if ids == {x} {
      id := x;
    } else {
      var y := NewestExists(ids - {x});
      id := if x.raisedAt <= y.raisedAt then y else x;
      assert ids == (ids - {x}) + {x};
    }
  }

  ghost function LatestOpen(s: Store, alarmId: string): (id: Option<OccurrenceId>)
    ensures id.None? <==> OpenIds(s, alarmId) == {}
    ensures id.Some? ==> NewestOf(OpenIds(s, alarmId), id.value)
  {
    if OpenIds(s, alarmId) == {} then None
    else
      assert exists id :: NewestOf(OpenIds(s, alarmId), id) by { var id := NewestExists(OpenIds(s, alarmId)); }
      var id :| NewestOf(OpenIds(s, alarmId), id);
      Some(id)
  }

  function EventTypeOf(created: bool, condition: Condition): EventType {
    if created then Raised else match condition
      case Normal => ReturnToNormal
      case Unknown => ConditionUnknown
      case Active => ConditionActive
  }

  /** Writes an occurrence together with its event and outbox row; nothing at all when the event's key is taken. */
  function Commit(s: Store, id: OccurrenceId, o: Occurrence, t: EventType, actor: string, now: int): Option<Store> {
    var e := EventRow(id, t, o.revision, now, o.condition, o.acknowledged, actor);
    if Clashes(s.events, e) || (exists x :: x in s.outbox && SameKey(x.payload, e)) then None
    else Some(Store(s.occurrences[id := o], s.events + [e], s.outbox + [OutboxRow(e, o.revision, now)]))
  }

  function RaisedAt(r: Report, now: int): int {
    if r.timestamp.Some? then r.timestamp.value else now
  }

  /** The transaction of a report; None when it is rolled back. `open` is the alarm's latest open occurrence. */
  function Reported(s: Store, r: Report, now: int, open: Option<OccurrenceId>): Option<Store>
    requires open.Some? ==> open.value in s.occurrences
  {
    if r.alarmId == "" then None
    else if open.None? then
      if r.condition == Normal then Some(s)
      else
        var o := Occurrence(r.condition, false, 0, 0, "", 1);
        Commit(s, OccurrenceId(r.alarmId, RaisedAt(r, now)), o, Raised, "", now)
    else
      var o := s.occurrences[open.value];
      if o.condition == r.condition then Some(s)
      else
        var changed := o.(condition := r.condition, revision := o.revision + 1,
                          normalizedAt := if r.condition == Normal then RaisedAt(r, now) else o.normalizedAt);
        Commit(s, open.value, changed, EventTypeOf(false, r.condition), "", now)
  }

  ghost function Observed(s: Store, r: Report, now: int): Option<Store> {
    Reported(s, r, now, LatestOpen(s, r.alarmId))
  }

  function Acknowledging(s: Store, id: OccurrenceId, actor: string, now: int): Option<Store> {
    if id !in s.occurrences then None
    else if s.occurrences[id].acknowledged then Some(s)
    else
      var o := s.occurrences[id];
      Commit(s, id,
             o.(acknowledged := true, acknowledgedAt := now, acknowledgedBy := actor, revision := o.revision + 1),
             Acknowledged, actor, now)
  }

  // -------------------------------------------------------- mirrored alarms

  datatype LegacyAlarm = LegacyAlarm(id: string, cleared: bool, raisedAt: Option<int>, clearedAt: Option<int>,
                                     acknowledgedAt: int, acknowledgedBy: string)

  function ReportOf(a: LegacyAlarm): Report {
    Report(a.id, if a.cleared then Normal else Active, if a.clearedAt.Some? then a.clearedAt else a.raisedAt)
  }

  /** The occurrence a report changes or confirms. */
  ghost function Target(s: Store, r: Report, now: int): Option<OccurrenceId> {
    var open := LatestOpen(s, r.alarmId);
    if open.Some? then open
    else if r.condition == Normal then None
    else Some(OccurrenceId(r.alarmId, RaisedAt(r, now)))
  }

  ghost function Synced(s: Store, a: LegacyAlarm, now: int): Store {
    var t := Observed(s, ReportOf(a), now);
    if t.None? then s
    else if a.acknowledgedAt > 0 && Target(s, ReportOf(a), now).Some? then
      var u := Acknowledging(t.value, Target(s, ReportOf(a), now).value, a.acknowledgedBy, now);
      if u.None? then t.value else u.value
    else t.value
  }

  // ------------------------------------------------------------ the service

  class AlarmService {
    var occurrences: map<OccurrenceId, Occurrence>
    var events: seq<EventRow>
    var outbox: seq<OutboxRow>

    constructor ()
      ensures Contents() == Store(map[], [], [])
    {
      occurrences, events, outbox := map[], [], [];
    }

    ghost function Contents(): Store
      reads this
    {
      Store(occurrences, events, outbox)
    }

    method LatestOpenOccurrence(alarmId: string) returns (id: Option<OccurrenceId>)
      ensures id == LatestOpen(Contents(), alarmId)
    {
      var left := set x | x in occurrences && x.alarmId == alarmId && occurrences[x].condition != Normal;
      ghost var all := left;
      assert all == OpenIds(Contents(), alarmId);
      id := None;
      while left != {}
        invariant left <= all && (id.None? ==> left == all)
        invariant id.Some? ==> id.value.alarmId == alarmId && NewestOf(all - left, id.value)
        decreases left
      {
        var x :| x in left;
        left := left - {x};
        if id.None? || id.value.raisedAt <= x.raisedAt {
          id := Some(x);
        }
      }
      assert all - left == all;
    }

    /** Appends the event and its outbox row unless the key is taken. */
    method AppendEventAndOutbox(id: OccurrenceId, o: Occurrence, t: EventType, actor: string, now: int)
      returns (ok: bool)
      modifies this`events, this`outbox
      ensures ok <==> Commit(old(Contents()), id, o, t, actor, now).Some?
      ensures events == if ok then Commit(old(Contents()), id, o, t, actor, now).value.events else old(events)
      ensures outbox == if ok then Commit(old(Contents()), id, o, t, actor, now).value.outbox else old(outbox)
    {
      var e := EventRow(id, t, o.revision, now, o.condition, o.acknowledged, actor);
      ok := !Clashes(events, e) && !exists x :: x in outbox && SameKey(x.payload, e);
      if ok {
        events, outbox := events + [e], outbox + [OutboxRow(e, o.revision, now)];
      }
    }

    /** `ok` is false when the transaction threw and was rolled back. */
    method Observe(r: Report, now: int) returns (ok: bool, occurrence: Option<OccurrenceId>)
      modifies this
      ensures ok <==> Observed(old(Contents()), r, now).Some?
      ensures Contents() == if ok then Observed(old(Contents()), r, now).value else old(Contents())
      ensures ok ==> occurrence == Target(old(Contents()), r, now)
    {
      if r.alarmId == "" {
        return false, None;
      }
      var saved := occurrences;
      var open := LatestOpenOccurrence(r.alarmId);
      var id, next, created;
      if open.None? && r.condition != Normal {
        id, created := OccurrenceId(r.alarmId, RaisedAt(r, now)), true;
        next := Occurrence(r.condition, false, 0, 0, "", 1);
      } else if open.Some? {
        id, created := open.value, false;
        next := occurrences[id];
        if next.condition == r.condition {
          return true, open;
        }
        next := next.(condition := r.condition, revision := next.revision + 1);
        if r.condition == Normal {
          next := next.(normalizedAt := RaisedAt(r, now));
        }
      } else {
        return true, None;
      }
      occurrences := occurrences[id := next];
      ok := AppendEventAndOutbox(id, next, EventTypeOf(created, r.condition), "", now);
      if !ok {
        occurrences := saved;
      }
      occurrence := Some(id);
    }

    method Acknowledge(id: OccurrenceId, actor: string, now: int) returns (ok: bool)
      modifies this
      ensures ok <==> Acknowledging(old(Contents()), id, actor, now).Some?
      ensures Contents() == if ok then Acknowledging(old(Contents()), id, actor, now).value else old(Contents())
    {
      if id !in occurrences {
        return false;
      }
      if occurrences[id].acknowledged {
        return true;
      }
      var saved := occurrences;
      var next := occurrences[id].(acknowledged := true, acknowledgedAt := now, acknowledgedBy := actor,
                                   revision := occurrences[id].revision + 1);
      occurrences := occurrences[id := next];
      ok := AppendEventAndOutbox(id, next, Acknowledged, actor, now);
      if !ok {
        occurrences := saved;
      }
    }

    /** Mirrors an alarm of the field: its condition, and its acknowledgement when an occurrence is at hand. */
    method SyncLegacyAlarm(a: LegacyAlarm, now: int) returns (ok: bool)
      modifies this
      ensures Contents() == Synced(old(Contents()), a, now)
      ensures ok <==> Observed(old(Contents()), ReportOf(a), now).Some?
    {
      var occurrence;
      ok, occurrence := Observe(ReportOf(a), now);
      if ok && a.acknowledgedAt > 0 && occurrence.Some? {
        var _ := Acknowledge(occurrence.value, a.acknowledgedBy, now);
      }
    }
  }
}
