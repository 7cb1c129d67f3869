/** Incidents over alarm occurrences: their store, and the closing protocol, whose check and transition are separate
    critical sections of different services. */
module IncidentService {
  import opened Basics
  import opened AlarmService

  type IncidentId = int // an incident is named by its creation time

  datatype Status = IncidentOpen | InProgress | Resolved | Closed

  datatype Action = Start | Resolve | Close | Reopen | Assign

  datatype Kind = Created | Did(action: Action)

  datatype Incident = Incident(status: Status, revision: nat, occurrences: set<OccurrenceId>)

  datatype IncidentEvent = IncidentEvent(incident: IncidentId, kind: Kind, revision: nat, timestamp: int,
                                         status: Status)

  /** Event rows and outbox rows are written together; one sequence stands for both tables. */
  datatype Incidents = Incidents(rows: map<IncidentId, Incident>, events: seq<IncidentEvent>)

  datatype Answer = Made(id: IncidentId) | Existing(id: IncidentId) | Refused

  // --------------------------------------------------------- specification

  predicate Taken(events: seq<IncidentEvent>, e: IncidentEvent) {
    exists x :: x in events && x.incident == e.incident && x.kind == e.kind && x.revision == e.revision
      && x.timestamp == e.timestamp
  }

  predicate Deduplicates(s: Incidents, ids: set<OccurrenceId>, x: IncidentId) {
    x in s.rows && s.rows[x].occurrences == ids && s.rows[x].status != Closed
  }

  /** The unique key on the occurrence set also counts closed incidents. */
  predicate SetTaken(s: Incidents, ids: set<OccurrenceId>) {
    exists x :: x in s.rows && s.rows[x].occurrences == ids
  }

  /** Creating succeeds with a new row, answers an unclosed incident over the same occurrences, or fails. */
  predicate CreateResult(s: Incidents, ids: set<OccurrenceId>, now: int, t: Incidents, a: Answer) {
    var e := IncidentEvent(now, Created, 1, now, IncidentOpen);
    match a
    case Existing(x) => ids != {} && Deduplicates(s, ids, x) && t == s
    case Made(x) =>
      && ids != {} && x == now && now !in s.rows && !SetTaken(s, ids) && !Taken(s.events, e)
      && t == Incidents(s.rows[now := Incident(IncidentOpen, 1, ids)], s.events + [e])
    case Refused =>
      && t == s
      && (ids == {} || now in s.rows || Taken(s.events, e) || SetTaken(s, ids))
      && (ids != {} ==> forall x :: x in s.rows ==> !Deduplicates(s, ids, x))
  }

  function NextStatus(current: Status, action: Action): Option<Status> {
    match action
    case Start => if current == IncidentOpen then Some(InProgress) else None
    case Resolve => if current == IncidentOpen || current == InProgress then Some(Resolved) else None
    case Close => if current == Resolved then Some(Closed) else None
    case Reopen => if current == Resolved || current == Closed then Some(InProgress) else None
    case Assign => Some(current)
  }

  /** The transaction of a transition; None when it is rolled back. */
  function Transitioned(s: Incidents, id: IncidentId, action: Action, expectedRevision: Option<nat>,
                        now: int): Option<Incidents> {
    if id !in s.rows then None
    else if expectedRevision.Some? && expectedRevision.value != s.rows[id].revision then None
    else
      var next := NextStatus(s.rows[id].status, action);
      if next.None? then None
      else
        var row := s.rows[id].(status := next.value, revision := s.rows[id].revision + 1);
        var e := IncidentEvent(id, Did(action), row.revision, now, row.status);
        if Taken(s.events, e) then None else Some(Incidents(s.rows[id := row], s.events + [e]))
  }

  // ------------------------------------------------------------ the service

  class IncidentService {
    var rows: map<IncidentId, Incident>
    var events: seq<IncidentEvent>

    constructor ()
      ensures Contents() == Incidents(map[], [])
    {
      rows, events := map[], [];
    }

    ghost function Contents(): Incidents
      reads this
    {
      Incidents(rows, events)
    }

    method Create(ids: set<OccurrenceId>, now: int) returns (a: Answer)
      modifies this
      ensures CreateResult(old(Contents()), ids, now, Contents(), a)
    {
      if ids == {} {
        return Refused;
      }
      if x :| x in rows && rows[x].occurrences == ids && rows[x].status != Closed {
        return Existing(x);
      }
      var e := IncidentEvent(now, Created, 1, now, IncidentOpen);
      if now in rows || Taken(events, e) || exists x :: x in rows && rows[x].occurrences == ids {
        return Refused;
      }
      rows := rows[now := Incident(IncidentOpen, 1, ids)];
      events := events + [e];
      a := Made(now);
    }

    method Transition(id: IncidentId, action: Action, expectedRevision: Option<nat>, now: int) returns (ok: bool)
      modifies this
      ensures ok <==> Transitioned(old(Contents()), id, action, expectedRevision, now).Some?
      ensures Contents() == if ok then Transitioned(old(Contents()), id, action, expectedRevision, now).value
                            else old(Contents())
    {
      if id !in rows || (expectedRevision.Some? && expectedRevision.value != rows[id].revision) {
        return false;
      }
      var saved := rows;
      var next := NextStatus(rows[id].status, action);
      if next.None? {
        return false;
      }
      var row := rows[id].(status := next.value, revision := rows[id].revision + 1);
      rows := rows[id := row];
      var e := IncidentEvent(id, Did(action), row.revision, now, row.status);
      ok := !Taken(events, e);
      if ok {
        events := events + [e];
      } else {
        rows := saved;
      }
    }
  }

  // ------------------------------------------------- the incidents by themselves

  /** One incident per occurrence set, for ever, and none over no occurrences. */
  predicate OneIncidentPerSet(s: Incidents) {
    && (forall x, y :: x in s.rows && y in s.rows && s.rows[x].occurrences == s.rows[y].occurrences ==> x == y)
    && (forall x :: x in s.rows ==> s.rows[x].occurrences != {})
  }

  lemma CreateKeepsOnePerSet(s: Incidents, ids: set<OccurrenceId>, now: int, t: Incidents, a: Answer)
    requires OneIncidentPerSet(s) && CreateResult(s, ids, now, t, a)
    ensures OneIncidentPerSet(t)
  {
    if a.Made? { assert forall x :: x in s.rows ==> s.rows[x].occurrences != ids; }
  }

  /** Once an incident over some occurrences is closed, no other can ever be created over them: the request neither
      finds an unclosed one nor gets past the unique key. */
  lemma ClosedSetNeverServedAgain(s: Incidents, x: IncidentId, now: int, t: Incidents, a: Answer)
    requires OneIncidentPerSet(s) && x in s.rows && s.rows[x].status == Closed
    requires CreateResult(s, s.rows[x].occurrences, now, t, a)
    ensures a == Refused && t == s
  {
  }

  function RevisionsOf(events: seq<IncidentEvent>, id: IncidentId): seq<nat> {
    if events == [] then []
    else
      var e := events[|events| - 1];
      RevisionsOf(events[..|events| - 1], id) + if e.incident == id then [e.revision] else []
  }

  predicate Counted(s: Incidents, id: IncidentId) {
    id in s.rows ==> RevisionsOf(s.events, id) == seq(s.rows[id].revision, i => i + 1)
  }

  /** Every incident's events carry the revisions 1 to its own. */
  ghost predicate Numbered(s: Incidents) {
    && (forall id {:trigger Counted(s, id)} :: Counted(s, id))
    && (forall e :: e in s.events ==> e.incident in s.rows && e.revision <= s.rows[e.incident].revision)
  }

  /** An incident is created exactly when its name is free and no incident, open or closed, has ever had these
      occurrences. */
  lemma CreatedExactly(s: Incidents, ids: set<OccurrenceId>, now: int, t: Incidents, a: Answer)
    requires OneIncidentPerSet(s) && Numbered(s) && CreateResult(s, ids, now, t, a)
    ensures a.Made? <==> ids != {} && now !in s.rows && forall x :: x in s.rows ==> s.rows[x].occurrences != ids
  {
    assert !SetTaken(s, ids) <==> forall x :: x in s.rows ==> s.rows[x].occurrences != ids;
  }

  lemma RevisionsAppend(events: seq<IncidentEvent>, e: IncidentEvent, id: IncidentId)
    ensures RevisionsOf(events + [e], id) == RevisionsOf(events, id) + if e.incident == id then [e.revision] else []
  {
    assert (events + [e])[..|events|] == events;
  }

  lemma {:induction false} NoRevisions(events: seq<IncidentEvent>, id: IncidentId)
    requires forall e :: e in events ==> e.incident != id
    ensures RevisionsOf(events, id) == []
    decreases |events|
  {
    if events != [] { NoRevisions(events[..|events| - 1], id); }
  }

  lemma FirstEvent(s: Incidents, e: IncidentEvent, row: Incident)
    requires Numbered(s) && e.incident !in s.rows && e.revision == row.revision == 1
    ensures Numbered(Incidents(s.rows[e.incident := row], s.events + [e]))
  {
    var t := Incidents(s.rows[e.incident := row], s.events + [e]);
    NoRevisions(s.events, e.incident);
    forall x ensures Counted(t, x) {
      assert Counted(s, x);
      RevisionsAppend(s.events, e, x);
    }
  }

  lemma CreateKeepsNumbered(s: Incidents, ids: set<OccurrenceId>, now: int, t: Incidents, a: Answer)
    requires Numbered(s) && CreateResult(s, ids, now, t, a)
    ensures Numbered(t)
  {
    if a.Made? { FirstEvent(s, IncidentEvent(now, Created, 1, now, IncidentOpen), Incident(IncidentOpen, 1, ids)); }
  }

  lemma EventExtends(s: Incidents, e: IncidentEvent, row: Incident)
    requires Numbered(s) && e.incident in s.rows && e.revision == row.revision == s.rows[e.incident].revision + 1
    ensures Numbered(Incidents(s.rows[e.incident := row], s.events + [e]))
  {
    var t := Incidents(s.rows[e.incident := row], s.events + [e]);
    forall x ensures Counted(t, x) {
      assert Counted(s, x);
      RevisionsAppend(s.events, e, x);
    }
  }

  lemma NextKeyFree(s: Incidents, e: IncidentEvent)
    requires Numbered(s) && e.incident in s.rows && e.revision > s.rows[e.incident].revision
    ensures !Taken(s.events, e)
  {
  }

  /** A transition is refused only for its revision or its action, never on a key, and extends the numbering. */
  lemma TransitionKeepsNumbered(s: Incidents, id: IncidentId, action: Action, expectedRevision: Option<nat>, now: int)
    requires Numbered(s)
    ensures Transitioned(s, id, action, expectedRevision, now).Some? <==>
      && id in s.rows && NextStatus(s.rows[id].status, action).Some?
      && (expectedRevision.Some? ==> expectedRevision.value == s.rows[id].revision)
    ensures Transitioned(s, id, action, expectedRevision, now).Some? ==>
      Numbered(Transitioned(s, id, action, expectedRevision, now).value)
  {
    if id in s.rows && NextStatus(s.rows[id].status, action).Some? {
      var status := NextStatus(s.rows[id].status, action).value;
      var row := s.rows[id].(status := status, revision := s.rows[id].revision + 1);
      var e := IncidentEvent(id, Did(action), row.revision, now, row.status);
      NextKeyFree(s, e);
      EventExtends(s, e, row);
    }
  }

  // --------------------------------------------------- the life of an incident

  /** What an action makes of an incident. Closing needs a resolution first, a closed one can only be reopened, and to
      assign it changes nothing but the revision. */
  predicate Leads(a: Status, action: Action, b: Status) {
    match b
    case InProgress =>
      || (a == IncidentOpen && action == Start) || ((a == Resolved || a == Closed) && action == Reopen)
      || (a == InProgress && action == Assign)
    case Resolved =>
      ((a == IncidentOpen || a == InProgress) && action == Resolve) || (a == Resolved && action == Assign)
    case Closed => (a == Resolved && action == Close) || (a == Closed && action == Assign)
    case IncidentOpen => a == IncidentOpen && action == Assign
  }

  lemma NextLeads(a: Status, action: Action)
    ensures NextStatus(a, action).Some? <==> exists b :: Leads(a, action, b)
    ensures forall b :: NextStatus(a, action) == Some(b) <==> Leads(a, action, b)
  {
    if NextStatus(a, action).Some? { assert Leads(a, action, NextStatus(a, action).value); }
  }

  /** A request is carried out if and only if it names an incident that the action can lead on, at the revision it
      expects, if it expects one; then it leads there, one revision up and with its event, and leaves all else. */
  lemma ActionsExactly(s: Incidents, id: IncidentId, action: Action, expectedRevision: Option<nat>, now: int)
    requires Numbered(s)
    ensures var t := Transitioned(s, id, action, expectedRevision, now);
      && (t.Some? <==>
            && id in s.rows && (exists b :: Leads(s.rows[id].status, action, b))
            && (expectedRevision == None || expectedRevision == Some(s.rows[id].revision)))
      && (t.Some? ==>
            && id in t.value.rows && Leads(s.rows[id].status, action, t.value.rows[id].status)
            && t.value.rows[id].revision == s.rows[id].revision + 1
            && t.value.rows[id].occurrences == s.rows[id].occurrences
            && t.value.rows - {id} == s.rows - {id}
            && t.value.events == s.events + [IncidentEvent(id, Did(action), s.rows[id].revision + 1, now,
                                                           t.value.rows[id].status)])
  {
    TransitionKeepsNumbered(s, id, action, expectedRevision, now);
    if id in s.rows { NextLeads(s.rows[id].status, action); }
  }

  function EventsOf(events: seq<IncidentEvent>, id: IncidentId): seq<IncidentEvent> {
    if events == [] then []
    else
      var e := events[|events| - 1];
      EventsOf(events[..|events| - 1], id) + if e.incident == id then [e] else []
  }

  /** The events of one incident: it is created OPEN, and each later one leads on from the one before. */
  predicate Life(es: seq<IncidentEvent>) {
    && (es != [] ==> es[0].kind == Created && es[0].status == IncidentOpen)
    && forall i :: 0 < i < |es| ==> es[i].kind.Did? && Leads(es[i - 1].status, es[i].kind.action, es[i].status)
  }

  /** Every incident stands where its events have led it. */
  predicate Lives(s: Incidents, id: IncidentId) {
    var es := EventsOf(s.events, id);
    && Life(es)
    && (id in s.rows <==> es != [])
    && (id in s.rows ==> s.rows[id].status == es[|es| - 1].status)
  }

  ghost predicate AllLive(s: Incidents) {
    forall id :: Lives(s, id)
  }

  lemma EventsAppend(events: seq<IncidentEvent>, e: IncidentEvent, id: IncidentId)
    ensures EventsOf(events + [e], id) == EventsOf(events, id) + if e.incident == id then [e] else []
  {
    assert (events + [e])[..|events|] == events;
  }

  /** One more event, and the row it goes with. */
  lemma LifeGoesOn(s: Incidents, e: IncidentEvent, row: Incident)
    requires AllLive(s) && row.status == e.status
    requires if e.incident in s.rows then e.kind.Did? && Leads(s.rows[e.incident].status, e.kind.action, e.status)
             else e.kind == Created && e.status == IncidentOpen
    ensures AllLive(Incidents(s.rows[e.incident := row], s.events + [e]))
  {
    var t := Incidents(s.rows[e.incident := row], s.events + [e]);
    forall id ensures Lives(t, id) {
      assert Lives(s, id);
      EventsAppend(s.events, e, id);
    }
  }

  lemma CreateKeepsLives(s: Incidents, ids: set<OccurrenceId>, now: int, t: Incidents, a: Answer)
    requires AllLive(s) && CreateResult(s, ids, now, t, a)
    ensures AllLive(t)
  {
    if a.Made? { LifeGoesOn(s, IncidentEvent(now, Created, 1, now, IncidentOpen), Incident(IncidentOpen, 1, ids)); }
  }

  lemma TransitionKeepsLives(s: Incidents, id: IncidentId, action: Action, expectedRevision: Option<nat>, now: int)
    requires AllLive(s)
    ensures Transitioned(s, id, action, expectedRevision, now).Some? ==>
      AllLive(Transitioned(s, id, action, expectedRevision, now).value)
  {
    if Transitioned(s, id, action, expectedRevision, now).Some? {
      NextLeads(s.rows[id].status, action);
      var next := NextStatus(s.rows[id].status, action).value;
      var row := s.rows[id].(status := next, revision := s.rows[id].revision + 1);
      LifeGoesOn(s, IncidentEvent(id, Did(action), row.revision, now, row.status), row);
    }
  }
}
