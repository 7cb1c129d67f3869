/** Incidents and alarms together. A close request reads the incident, then looks at its occurrences one by one, then
    closes; every other request may come in between. */
module IncidentClosure {
  import opened Basics
  import opened AlarmService
  import opened IncidentService
  import History = AlarmHistory

  /** A close request that has found these occurrences still to be looked at. */
  datatype Closing = Closing(incident: IncidentId, left: set<OccurrenceId>)

  datatype System = System(alarms: Store, incidents: Incidents, closing: map<nat, Closing>)

  datatype Event =
    | Alarm(op: History.Op)
    | Create(ids: set<OccurrenceId>, now: int, after: Incidents, answer: Answer)
    | Transition(id: IncidentId, action: Action, expectedRevision: Option<nat>, now: int)
    | BeginClose(call: nat, id: IncidentId)
    | Look(call: nat, occurrence: OccurrenceId)
    | FinishClose(call: nat, expectedRevision: Option<nat>, now: int)

  predicate Possible(w: System, e: Event) {
    match e
    case Alarm(_) => true
    case Create(ids, now, after, answer) =>
      ids <= w.alarms.occurrences.Keys && CreateResult(w.incidents, ids, now, after, answer)
    case Transition(_, action, _, _) => action != Close
    case BeginClose(call, id) => call !in w.closing && id in w.incidents.rows
    case Look(call, o) => call in w.closing && o in w.closing[call].left
    case FinishClose(call, _, _) => call in w.closing && w.closing[call].left == {}
  }

  ghost function After(w: System, e: Event): System
    requires Possible(w, e)
  {
    match e
    case Alarm(op) => w.(alarms := History.Step(w.alarms, op))
    case Create(_, _, after, _) => w.(incidents := after)
    case Transition(id, action, expected, now) =>
      var t := Transitioned(w.incidents, id, action, expected, now);
      if t.Some? then w.(incidents := t.value) else w
    case BeginClose(call, id) => w.(closing := w.closing[call := Closing(id, w.incidents.rows[id].occurrences)])
    case Look(call, o) =>
      if History.SettledIn(w.alarms, o) then
        w.(closing := w.closing[call := w.closing[call].(left := w.closing[call].left - {o})])
      else w.(closing := w.closing - {call})
    case FinishClose(call, expected, now) =>
      var t := Transitioned(w.incidents, w.closing[call].incident, Close, expected, now);
      System(w.alarms, if t.Some? then t.value else w.incidents, w.closing - {call})
  }

  ghost predicate Run(ws: seq<System>, es: seq<Event>) {
    && |ws| == |es| + 1
    && ws[0] == System(Store(map[], [], []), Incidents(map[], []), map[])
    && forall i :: 0 <= i < |es| ==> Possible(ws[i], es[i]) && ws[i + 1] == After(ws[i], es[i])
  }

  // ------------------------------------------------------------ invariant

  predicate ClosedSettled(w: System) {
    forall x :: x in w.incidents.rows && w.incidents.rows[x].status == Closed ==>
      forall o :: o in w.incidents.rows[x].occurrences ==> History.SettledIn(w.alarms, o)
  }

  /** What a request has looked at stays settled while it works on the rest. */
  predicate LookedAtSettled(w: System, c: Closing) {
    && c.incident in w.incidents.rows && c.left <= w.incidents.rows[c.incident].occurrences
    && forall o :: o in w.incidents.rows[c.incident].occurrences - c.left ==> History.SettledIn(w.alarms, o)
  }

  /** What the closing of incidents relies on. */
  predicate Settledness(w: System) {
    ClosedSettled(w) && forall call :: call in w.closing ==> LookedAtSettled(w, w.closing[call])
  }

  ghost predicate Inv(w: System) {
    && Settledness(w)
    && OneIncidentPerSet(w.incidents) && Numbered(w.incidents)
  }

  predicate Names(w: System, x: IncidentId, o: OccurrenceId) {
    x in w.incidents.rows && o in w.incidents.rows[x].occurrences
  }

  /** The transaction raises again the name of an occurrence of a CLOSED incident. */
  ghost predicate ReopensClosed(w: System, op: History.Op) {
    && History.Reraises(w.alarms, op)
    && exists x :: Names(w, x, History.RaiseName(op)) && w.incidents.rows[x].status == Closed
  }

  /** ... or of one that a close request has already looked at. */
  ghost predicate ReopensLookedAt(w: System, op: History.Op) {
    && History.Reraises(w.alarms, op)
    && exists call :: call in w.closing && LookedAt(w, w.closing[call], History.RaiseName(op))
  }

  predicate LookedAt(w: System, c: Closing, o: OccurrenceId) {
    Names(w, c.incident, o) && o !in c.left
  }

  /** Whatever alarms do, the occurrences of CLOSED incidents stay NORMAL and acknowledged, except under exactly this
      one kind of transaction. */
  lemma ClosedSettledKeptExactly(w: System, op: History.Op)
    requires ClosedSettled(w)
    ensures ClosedSettled(w.(alarms := History.Step(w.alarms, op))) <==> !ReopensClosed(w, op)
  {
    var v := w.(alarms := History.Step(w.alarms, op));
    forall x, o | Names(w, x, o) && w.incidents.rows[x].status == Closed
      ensures History.SettledIn(v.alarms, o) <==> !(History.Reraises(w.alarms, op) && History.RaiseName(op) == o)
    {
      History.SettledStable(w.alarms, op, o);
    }
  }

  /** The same for what outstanding close requests have looked at. */
  lemma LookedAtKeptExactly(w: System, op: History.Op)
    requires forall call :: call in w.closing ==> LookedAtSettled(w, w.closing[call])
    ensures var v := w.(alarms := History.Step(w.alarms, op));
      (forall call :: call in v.closing ==> LookedAtSettled(v, v.closing[call])) <==> !ReopensLookedAt(w, op)
  {
    var v := w.(alarms := History.Step(w.alarms, op));
    forall call, o | call in w.closing && LookedAt(w, w.closing[call], o)
      ensures History.SettledIn(v.alarms, o) <==> !(History.Reraises(w.alarms, op) && History.RaiseName(op) == o)
    {
      assert LookedAtSettled(w, w.closing[call]);
      History.SettledStable(w.alarms, op, o);
    }
    if ReopensLookedAt(w, op) {
      var call :| call in w.closing && LookedAt(w, w.closing[call], History.RaiseName(op));
      var o := History.RaiseName(op);
      assert !History.SettledIn(v.alarms, o);
      assert o in v.incidents.rows[v.closing[call].incident].occurrences - v.closing[call].left;
    } else {
      forall call | call in v.closing ensures LookedAtSettled(v, v.closing[call]) {
        assert LookedAtSettled(w, w.closing[call]);
        forall o | o in v.incidents.rows[v.closing[call].incident].occurrences - v.closing[call].left
          ensures History.SettledIn(v.alarms, o)
        {
          assert LookedAt(w, w.closing[call], o);
        }
      }
    }
  }

  ghost predicate Reopens(w: System, e: Event) {
    e.Alarm? && (ReopensClosed(w, e.op) || ReopensLookedAt(w, e.op))
  }

  lemma AlarmStepKeeps(w: System, op: History.Op)
    requires Inv(w) && !Reopens(w, Alarm(op))
    ensures Inv(w.(alarms := History.Step(w.alarms, op)))
  {
    ClosedSettledKeptExactly(w, op);
    LookedAtKeptExactly(w, op);
  }

  /** Incidents may appear and change, as long as they keep their occurrences and none becomes CLOSED. */
  lemma IncidentsChange(w: System, t: Incidents)
    requires Settledness(w)
    requires forall x :: x in w.incidents.rows ==>
      x in t.rows && t.rows[x].occurrences == w.incidents.rows[x].occurrences
    requires forall x :: x in t.rows && t.rows[x].status == Closed ==>
      x in w.incidents.rows && w.incidents.rows[x].status == Closed
    ensures Settledness(w.(incidents := t))
  {
  }

  lemma IncidentStepKeeps(w: System, e: Event)
    requires Inv(w) && Possible(w, e) && (e.Create? || e.Transition?)
    ensures Inv(After(w, e))
  {
    if e.Create? {
      CreateKeepsOnePerSet(w.incidents, e.ids, e.now, e.after, e.answer);
      CreateKeepsNumbered(w.incidents, e.ids, e.now, e.after, e.answer);
    } else {
      TransitionKeepsNumbered(w.incidents, e.id, e.action, e.expectedRevision, e.now);
    }
    IncidentsChange(w, After(w, e).incidents);
  }

  lemma FinishKeeps(w: System, call: nat, expectedRevision: Option<nat>, now: int)
    requires Inv(w) && Possible(w, FinishClose(call, expectedRevision, now))
    ensures Inv(After(w, FinishClose(call, expectedRevision, now)))
  {
    var x := w.closing[call].incident;
    assert LookedAtSettled(w, w.closing[call]);
    TransitionKeepsNumbered(w.incidents, x, Close, expectedRevision, now);
  }

  lemma CloseStepKeeps(w: System, e: Event)
    requires Inv(w) && Possible(w, e) && (e.BeginClose? || e.Look? || e.FinishClose?)
    ensures Inv(After(w, e))
  {
    match e
    case FinishClose(call, expectedRevision, now) => FinishKeeps(w, call, expectedRevision, now);
    case Look(call, o) => assert LookedAtSettled(w, w.closing[call]);
    case BeginClose(call, id) =>
  }

  /** No alarm of a CLOSED incident, or looked at by an outstanding close request, is raised again under its old
      name. */
  ghost predicate NeverReopens(ws: seq<System>, es: seq<Event>) {
    |ws| == |es| + 1 && forall i :: 0 <= i < |es| ==> !Reopens(ws[i], es[i])
  }

  lemma {:induction false} RunInv(ws: seq<System>, es: seq<Event>, i: nat)
    requires Run(ws, es) && NeverReopens(ws, es) && i < |ws|
    ensures Inv(ws[i])
  {
    if i > 0 {
      RunInv(ws, es, i - 1);
      var e := es[i - 1];
      assert ws[i - 1 + 1] == After(ws[i - 1], e);
      if e.Alarm? { AlarmStepKeeps(ws[i - 1], e.op); }
      else if e.Create? || e.Transition? { IncidentStepKeeps(ws[i - 1], e); }
      else { CloseStepKeeps(ws[i - 1], e); }
    }
  }

  /** In every reachable state every occurrence of a CLOSED incident is NORMAL and acknowledged, although they were
      looked at one by one and the incident was closed later; all other alarms may be raised under old names as they
      like. */
  lemma ClosedMeansSettled(ws: seq<System>, es: seq<Event>, i: nat, x: IncidentId, o: OccurrenceId)
    requires Run(ws, es) && NeverReopens(ws, es) && i < |ws|
    requires x in ws[i].incidents.rows && ws[i].incidents.rows[x].status == Closed
    requires o in ws[i].incidents.rows[x].occurrences
    ensures History.SettledIn(ws[i].alarms, o)
  {
    RunInv(ws, es, i);
  }

  /** Revisions of incidents, in every reachable state and whatever alarms do: events 1 to n, one incident per
      occurrence set. */
  lemma {:induction false} IncidentsNumbered(ws: seq<System>, es: seq<Event>, i: nat)
    requires Run(ws, es) && i < |ws|
    ensures Numbered(ws[i].incidents) && OneIncidentPerSet(ws[i].incidents)
  {
    if i > 0 {
      IncidentsNumbered(ws, es, i - 1);
      var w, e := ws[i - 1], es[i - 1];
      assert ws[i - 1 + 1] == After(w, e);
      match e
      case Create(ids, now, after, answer) =>
        CreateKeepsOnePerSet(w.incidents, ids, now, after, answer);
        CreateKeepsNumbered(w.incidents, ids, now, after, answer);
      case Transition(id, action, expected, now) => TransitionKeepsNumbered(w.incidents, id, action, expected, now);
      case FinishClose(call, expected, now) =>
        TransitionKeepsNumbered(w.incidents, w.closing[call].incident, Close, expected, now);
      case _ =>
    }
  }

  /** In every reachable state, whatever alarms do, an incident stands where its events have led it: created OPEN, and
      from each of them to the next by an action that leads there. So it is CLOSED only by a CLOSE after a RESOLVE, and
      leaves CLOSED only by a REOPEN. */
  lemma {:induction false} IncidentsLive(ws: seq<System>, es: seq<Event>, i: nat)
    requires Run(ws, es) && i < |ws|
    ensures AllLive(ws[i].incidents)
  {
    if i > 0 {
      IncidentsLive(ws, es, i - 1);
      var w, e := ws[i - 1], es[i - 1];
      assert ws[i - 1 + 1] == After(w, e);
      match e
      case Create(ids, now, after, answer) => CreateKeepsLives(w.incidents, ids, now, after, answer);
      case Transition(id, action, expected, now) => TransitionKeepsLives(w.incidents, id, action, expected, now);
      case FinishClose(call, expected, now) =>
        TransitionKeepsLives(w.incidents, w.closing[call].incident, Close, expected, now);
      case _ =>
    }
  }

  // -------------------------------------------------- a closed incident reopened

  /** Some sequence of possible events leads from the empty system to `w`. */
  ghost predicate Reached(w: System) {
    exists ws, es :: Run(ws, es) && ws[|ws| - 1] == w
  }

  lemma ReachedFirst()
    ensures Reached(System(Store(map[], [], []), Incidents(map[], []), map[]))
  {
    var w := System(Store(map[], [], []), Incidents(map[], []), map[]);
    assert Run([w], []);
  }

  lemma ReachedNext(w: System, e: Event, v: System)
    requires Reached(w) && Possible(w, e) && v == After(w, e)
    ensures Reached(v)
  {
    var ws, es :| Run(ws, es) && ws[|ws| - 1] == w;
    var us, fs := ws + [v], es + [e];
    forall i | 0 <= i < |fs| ensures Possible(us[i], fs[i]) && us[i + 1] == After(us[i], fs[i]) {
      if i < |es| { assert fs[i] == es[i] && us[i] == ws[i] && us[i + 1] == ws[i + 1]; }
    }
    assert Run(us, fs);
  }

  const O := History.EXAMPLE
  const MADE := IncidentEvent(1, Created, 1, 1, IncidentOpen)
  const RESOLVED := IncidentEvent(1, Did(Resolve), 2, 2, Resolved)
  const CLOSED := IncidentEvent(1, Did(Close), 3, 3, Closed)
  const OPEN_INCIDENT := Incidents(map[1 := Incident(IncidentOpen, 1, {O})], [MADE])
  const RESOLVED_INCIDENT := Incidents(map[1 := Incident(Resolved, 2, {O})], [MADE] + [RESOLVED])
  const CLOSED_INCIDENT := Incidents(map[1 := Incident(Closed, 3, {O})], [MADE] + [RESOLVED] + [CLOSED])

  /** The alarm is raised, normal again and acknowledged. */
  lemma AlarmSettles()
    ensures Reached(System(History.ExampleStore(3), Incidents(map[], []), map[]))
    ensures History.SettledIn(History.ExampleStore(3), O)
  {
    var none := Incidents(map[], []);
    ReachedFirst();
    assert History.ExampleStore(0) == Store(map[], [], []);
    for n := 0 to 3
      invariant Reached(System(History.ExampleStore(n), none, map[]))
    {
      var w, op := System(History.ExampleStore(n), none, map[]), History.EXAMPLE_OPS[n];
      History.ExampleStep(n);
      ReachedNext(w, Alarm(op), System(History.ExampleStore(n + 1), none, map[]));
    }
  }

  function Settled(incidents: Incidents, closing: map<nat, Closing>): System {
    System(History.ExampleStore(3), incidents, closing)
  }

  /** An incident over it is made, ... */
  lemma IncidentMade()
    ensures Reached(Settled(OPEN_INCIDENT, map[]))
  {
    AlarmSettles();
    var w := Settled(Incidents(map[], []), map[]);
    assert w.incidents.rows[1 := Incident(IncidentOpen, 1, {O})] == OPEN_INCIDENT.rows;
    assert w.incidents.events + [MADE] == [MADE] && !Taken(w.incidents.events, MADE);
    ReachedNext(w, Create({O}, 1, OPEN_INCIDENT, Made(1)), Settled(OPEN_INCIDENT, map[]));
  }

  /** ... resolved ... */
  lemma IncidentResolved()
    ensures Reached(Settled(RESOLVED_INCIDENT, map[]))
  {
    IncidentMade();
    var w := Settled(OPEN_INCIDENT, map[]);
    assert !Taken(w.incidents.events, RESOLVED);
    assert w.incidents.rows[1 := Incident(Resolved, 2, {O})] == RESOLVED_INCIDENT.rows;
    ReachedNext(w, Transition(1, Resolve, None, 2), Settled(RESOLVED_INCIDENT, map[]));
  }

  lemma LookedThrough()
    ensures Reached(Settled(RESOLVED_INCIDENT, map[0 := Closing(1, {})]))
  {
    AlarmSettles();
    IncidentResolved();
    var asked := Settled(RESOLVED_INCIDENT, map[0 := Closing(1, {O})]);
    ReachedNext(Settled(RESOLVED_INCIDENT, map[]), BeginClose(0, 1), asked);
    assert {O} - {O} == {};
    assert asked.closing[0 := Closing(1, {})] == map[0 := Closing(1, {})];
    ReachedNext(asked, Look(0, O), Settled(RESOLVED_INCIDENT, map[0 := Closing(1, {})]));
  }

  /** ... and closed. */
  lemma IncidentCloses()
    ensures Reached(Settled(CLOSED_INCIDENT, map[]))
  {
    LookedThrough();
    var w := Settled(RESOLVED_INCIDENT, map[0 := Closing(1, {})]);
    assert !Taken(w.incidents.events, CLOSED);
    assert w.incidents.rows[1 := Incident(Closed, 3, {O})] == CLOSED_INCIDENT.rows;
    assert w.closing - {0} == map[];
    ReachedNext(w, FinishClose(0, None, 3), Settled(CLOSED_INCIDENT, map[]));
  }

  /** The condition is needed: an alarm is raised, settled, put into an incident that is resolved and closed, and
      raised again at its old raise time; the incident stays CLOSED over an active, unacknowledged occurrence. */
  lemma ReraiseUndoesClosing() returns (w: System, op: History.Op)
    ensures Reached(w) && Reached(After(w, Alarm(op))) && ReopensClosed(w, op)
    ensures 1 in w.incidents.rows && w.incidents.rows[1] == Incident(Closed, 3, {O})
    ensures ClosedSettled(w) && !ClosedSettled(After(w, Alarm(op)))
  {
    w, op := System(History.ExampleStore(3), CLOSED_INCIDENT, map[]), History.EXAMPLE_OPS[3];
    AlarmSettles();
    IncidentCloses();
    ReachedNext(w, Alarm(op), After(w, Alarm(op)));
    History.ExampleStep(3);
    History.ExampleOpen(3);
    assert Names(w, 1, O);
    ClosedSettledKeptExactly(w, op);
  }

  /** So is its second half, because looking and closing are separate critical sections: the alarm is raised again
      after the close request has looked at it, and the incident is closed over an active occurrence. */
  lemma CloseRacesReraise() returns (w: System, op: History.Op)
    ensures Reached(w) && ReopensLookedAt(w, op) && Possible(After(w, Alarm(op)), FinishClose(0, None, 3))
    ensures var v := After(After(w, Alarm(op)), FinishClose(0, None, 3));
      Reached(v) && Names(v, 1, O) && v.incidents.rows[1].status == Closed && !ClosedSettled(v)
  {
    w, op := Settled(RESOLVED_INCIDENT, map[0 := Closing(1, {})]), History.EXAMPLE_OPS[3];
    LookedThrough();
    History.ExampleStep(3);
    History.ExampleOpen(3);
    assert LookedAt(w, w.closing[0], O);
    ReachedNext(w, Alarm(op), After(w, Alarm(op)));
    assert !Taken(w.incidents.events, CLOSED);
    var v := After(After(w, Alarm(op)), FinishClose(0, None, 3));
    ReachedNext(After(w, Alarm(op)), FinishClose(0, None, 3), v);
    assert Names(v, 1, O) && !History.SettledIn(v.alarms, O);
  }

  /** No incident can be made over the occurrences of the closed one any more, at no time and with no answer but a
      refusal. */
  lemma ClosedSetRefused(now: int, t: Incidents, a: Answer)
    requires CreateResult(CLOSED_INCIDENT, {O}, now, t, a)
    ensures Reached(Settled(CLOSED_INCIDENT, map[])) && a == Refused && t == CLOSED_INCIDENT
  {
    IncidentCloses();
    assert 1 in CLOSED_INCIDENT.rows;
  }
}
