/** Runs in which something is lost: most of them copy a lagging ledger row, the one thing `ProtocolFreshness` excludes.
    A second request under the same key arrives while a thread has moved the in-memory record and not yet saved it. In
    the last two evidence is saved before its transition, and a crash comes between saving and sending. */
module ProtocolRace {
  import opened Basics
  import opened CommandTypes
  import opened CommandLedger
  import opened CommandProtocol

  const EMPTY := World(0, Tables(map[], map[], []), map[], map[], map[], true, false, map[], [], {}, {})

  function Request(id: CommandId, key: IdempotencyKey): Step {
    Admit(id, "f", "pump", "start", 1000, key, "h", 86400000, false, {})
  }

  function Record(state: CommandState, revision: nat, seqNo: Option<nat>): Command {
    Command("pump", "start", state, revision, seqNo, 0, 0, 1000)
  }

  /** The world that knows one command, "a", admitted under key "k" at time 0. */
  function Only(row: Command, cached: Command, tasks: map<CommandId, Stage>, log: seq<Entry>,
                events: seq<Event>): World {
    EMPTY.(tables := Tables(map["a" := Row("f", row)], map["k" := DedupRow("h", "a", 0, 86400000)], []),
           cache := map["a" := Row("f", cached)], tasks := tasks, owner := map["a" := 0],
           histories := [History(Some("k"), 0, 86400000, log, events)])
  }

  ghost predicate Path(ws: seq<World>, steps: seq<Step>) {
    && |ws| == |steps| + 1
    && forall i :: 0 <= i < |steps| ==> Enabled(0, ws[i], steps[i]) && ws[i + 1] == Apply(0, ws[i], steps[i])
  }

  /** Some sequence of enabled steps leads from `u` to `v`. */
  ghost predicate Reaches(u: World, v: World) {
    exists ws, steps :: Path(ws, steps) && ws[0] == u && ws[|ws| - 1] == v
  }

  lemma Here(u: World)
    ensures Reaches(u, u)
  {
    assert Path([u], []);
  }

  lemma PathGrows(ws: seq<World>, steps: seq<Step>, s: Step, v: World)
    requires Path(ws, steps) && Enabled(0, ws[|ws| - 1], s) && v == Apply(0, ws[|ws| - 1], s)
    ensures Path(ws + [v], steps + [s])
  {
    var vs, more := ws + [v], steps + [s];
    forall i | 0 <= i < |more| ensures Enabled(0, vs[i], more[i]) && vs[i + 1] == Apply(0, vs[i], more[i]) {
      if i < |steps| { assert more[i] == steps[i] && vs[i] == ws[i] && vs[i + 1] == ws[i + 1]; }
    }
  }

  lemma Extend(u: World, w: World, s: Step, v: World)
    requires Reaches(u, w) && Enabled(0, w, s) && v == Apply(0, w, s)
    ensures Reaches(u, v)
  {
    var ws, steps :| Path(ws, steps) && ws[0] == u && ws[|ws| - 1] == w;
    PathGrows(ws, steps, s, v);
    assert (ws + [v])[0] == u && (ws + [v])[|ws|] == v;
  }

  // ------------------------------------------------ the sections of one thread

  lemma FirstRequest()
    ensures Reaches(EMPTY, Only(Record(Issued, 1, None), Record(Issued, 1, None), map["a" := Admitted], [], []))
  {
    assert PrunableIds(EMPTY.tables.commands) == {};
    assert LiveDedup(EMPTY.tables.dedup, 0) == map[];
    assert EMPTY.tables.commands - {} == map[];
    Here(EMPTY);
    Extend(EMPTY, EMPTY, Request("a", "k"), Apply(0, EMPTY, Request("a", "k")));
  }

  /** A second request under the key copies the ledger row over the cached record. */
  lemma RepeatedRequest(w: World, row: Command)
    requires w.running && w.now == 0 && row.state != OutcomeUnknown && w.cache.Keys == {"a"}
    requires w.tables == Only(row, row, map[], [], []).tables
    ensures Enabled(0, w, Request("b", "k"))
    ensures Apply(0, w, Request("b", "k")) == w.(cache := map["a" := Row("f", row)])
  {
    assert LiveDedup(w.tables.dedup, 0) == w.tables.dedup;
    assert w.cache["a" := Row("f", row)] == map["a" := Row("f", row)];
  }

  lemma Repeats(u: World, row: Command, cached: Command, tasks: map<CommandId, Stage>, log: seq<Entry>,
                events: seq<Event>)
    requires Reaches(u, Only(row, cached, tasks, log, events)) && row.state != OutcomeUnknown
    ensures Reaches(u, Only(row, row, tasks, log, events))
  {
    var w := Only(row, cached, tasks, log, events);
    RepeatedRequest(w, row);
    Extend(u, w, Request("b", "k"), Only(row, row, tasks, log, events));
  }

  /** The section that moves the cached record on from a stage, and the record it makes. */
  function Mover(stage: Stage, c: Command): (Step, Command) {
    match stage
    case Admitted => (Submit("a", false), Moved(c, Rejected, 1, 0))
    case Queued => (Take("a"), Moved(c, Received, 1, 0))
    case Deciding => (Decide("a", true), Moved(c, Accepted, 2, 0))
    case Starting => (Start("a"), Moved(c, Executing, 3, 0))
    case Settling(certainty) => (Settle("a"), Moved(c, Settlement(certainty), 4, 0))
    case _ => (GiveUp("a"), Moved(c, OutcomeUnknown, 5, 0))
  }

  lemma Moves(u: World, row: Command, cached: Command, stage: Stage, log: seq<Entry>, events: seq<Event>)
    requires Reaches(u, Only(row, cached, map["a" := stage], log, events))
    requires cached.expiresAt == 1000 && !Terminal(cached.state)
    requires stage.Admitted? || stage.Queued? || stage.Deciding? || stage.Starting? || stage.Settling?
      || stage.Monitoring?
    ensures var c := Mover(stage, cached).1; Reaches(u, Only(row, c, map["a" := Saving(c)], log, events))
  {
    var (s, c) := Mover(stage, cached);
    Extend(u, Only(row, cached, map["a" := stage], log, events), s, Only(row, c, map["a" := Saving(c)], log, events));
  }

  lemma Announces(u: World, v: World)
    requires Reaches(u, v.(pending := {0})) && v.running && v.pending == {}
    ensures Reaches(u, v)
  {
    assert {0} - {0} == v.pending;
    Extend(u, v.(pending := {0}), Announce(0), v);
  }

  lemma Saves(u: World, row: Command, cached: Command, c: Command, log: seq<Entry>, events: seq<Event>, e: Event)
    requires Reaches(u, Only(row, cached, map["a" := Saving(c)], log, events)) && c.lastEventSeq == Some(e.seqNo)
    requires e.state == c.state && e.revision == c.revision
    ensures var tasks := if Next(c.state).Some? then map["a" := Next(c.state).value] else map[];
      Reaches(u, Only(c, cached, tasks, log, events + [e]))
  {
    var w := Only(row, cached, map["a" := Saving(c)], log, events);
    var v := Only(c, cached, if Next(c.state).Some? then map["a" := Next(c.state).value] else map[], log, events + [e]);
    assert w.tasks - {"a"} == map[];
    Extend(u, w, Persist("a"), v.(pending := {0}));
    Announces(u, v);
  }

  /** The adapter is called and answers. */
  lemma Calls(u: World, c: Command, events: seq<Event>, certainty: Certainty)
    requires Reaches(u, Only(c, c, map["a" := Ready], [], events))
    ensures Reaches(u, Only(c, c, map["a" := Returning(certainty)], [Invoked, Returned(certainty)], events))
  {
    var called := Only(c, c, map["a" := Calling], [Invoked], events);
    assert [] + [Invoked] == [Invoked] && [Invoked] + [Returned(certainty)] == [Invoked, Returned(certainty)];
    Extend(u, Only(c, c, map["a" := Ready], [], events), Invoke("a", false), called);
    Extend(u, called, Return("a", certainty, false),
           Only(c, c, map["a" := Returning(certainty)], [Invoked, Returned(certainty)], events));
  }

  lemma RecordsTiming(u: World, c: Command, events: seq<Event>, certainty: Certainty, log: seq<Entry>)
    requires Reaches(u, Only(c, c, map["a" := Returning(certainty)], log, events))
    ensures Reaches(u, Only(c, c, map["a" := SavingTiming(certainty, c)], log, events))
  {
    Extend(u, Only(c, c, map["a" := Returning(certainty)], log, events), RecordTiming("a"),
           Only(c, c, map["a" := SavingTiming(certainty, c)], log, events));
  }

  lemma SavesTiming(u: World, c: Command, events: seq<Event>, certainty: Certainty, log: seq<Entry>)
    requires Reaches(u, Only(c, c, map["a" := SavingTiming(certainty, c)], log, events))
    ensures Reaches(u, Only(c, c, map["a" := Settling(certainty)], log, events))
  {
    Extend(u, Only(c, c, map["a" := SavingTiming(certainty, c)], log, events), PersistTiming("a"),
           Only(c, c, map["a" := Settling(certainty)], log, events));
  }

  lemma Delivers(u: World, c: Command, events: seq<Event>, certainty: Certainty)
    requires Reaches(u, Only(c, c, map["a" := Ready], [], events))
    ensures Reaches(u, Only(c, c, map["a" := Settling(certainty)], [Invoked, Returned(certainty)], events))
  {
    Calls(u, c, events, certainty);
    RecordsTiming(u, c, events, certainty, [Invoked, Returned(certainty)]);
    SavesTiming(u, c, events, certainty, [Invoked, Returned(certainty)]);
  }

  lemma Queues(u: World)
    requires Reaches(u, Only(Record(Issued, 1, None), Record(Issued, 1, None), map["a" := Admitted], [], []))
    ensures Reaches(u, Only(Record(Issued, 1, None), Record(Issued, 1, None), map["a" := Queued], [], []))
  {
    var c := Record(Issued, 1, None);
    Extend(u, Only(c, c, map["a" := Admitted], [], []), Submit("a", true), Only(c, c, map["a" := Queued], [], []));
  }

  lemma Watches(u: World, c: Command, log: seq<Entry>, events: seq<Event>)
    requires Reaches(u, Only(c, c, map["a" := Handover], log, events))
    ensures Reaches(u, Only(c, c, map["a" := Monitoring], log, events))
  {
    Extend(u, Only(c, c, map["a" := Handover], log, events), SubmitFeedback("a", true),
           Only(c, c, map["a" := Monitoring], log, events));
  }

  lemma ConfirmSection(w: World, c: Command)
    requires At(w, "a", Monitoring) && "a" in w.cache && w.cache["a"].command == c && c.state == Applied && w.now == 0
    ensures Enabled(0, w, Observe("a", FieldConfirmed))
    ensures Apply(0, w, Observe("a", FieldConfirmed)) == ObserveSection(w, "a", FieldConfirmed)
  {
  }

  lemma Confirms(u: World, c: Command, log: seq<Entry>, events: seq<Event>)
    requires Reaches(u, Only(c, c, map["a" := Monitoring], log, events)) && c.state == Applied
    ensures var d := Moved(c, Confirmed, 5, 0);
      Reaches(u, Only(c, d, map["a" := Saving(d)], log + [Observed(FieldConfirmed)], events))
  {
    var w, d := Only(c, c, map["a" := Monitoring], log, events), Moved(c, Confirmed, 5, 0);
    ConfirmSection(w, c);
    assert ObserveSection(w, "a", FieldConfirmed) ==
      Only(c, d, map["a" := Saving(d)], log + [Observed(FieldConfirmed)], events);
    Extend(u, w, Observe("a", FieldConfirmed), ObserveSection(w, "a", FieldConfirmed));
  }

  // -------------------------------------------------- finality and revisions

  /** A rejection is undone in memory: the queue refuses command "a", a repeated request turns the in-memory record from
      REJECTED back to ISSUED and to a lower revision, and no thread is left to correct it. */
  lemma RejectionUndone() returns (w: World, v: World)
    ensures Reaches(EMPTY, w) && Reaches(w, v)
    ensures "a" in w.cache && w.cache["a"].command.state == Rejected && w.cache["a"].command.revision == 2
    ensures "a" in v.cache && v.cache["a"].command.state == Issued && v.cache["a"].command.revision == 1
    ensures "a" in v.tables.commands && v.tables.commands["a"].command.state == Rejected && "a" !in v.tasks
  {
    var issued, rejected := Record(Issued, 1, None), Record(Rejected, 2, Some(1));
    var e := Event(Rejected, 1, 2);
    w, v := Only(issued, rejected, map["a" := Saving(rejected)], [], []), Only(rejected, issued, map[], [], [] + [e]);
    FirstRequest();
    Moves(EMPTY, issued, issued, Admitted, [], []);
    Here(w);
    Repeats(w, issued, rejected, map["a" := Saving(rejected)], [], []);
    Saves(w, issued, issued, rejected, [], [], e);
  }

  const SHORT1 := [Event(Received, 1, 2)]
  const SHORT2 := SHORT1 + [Event(Accepted, 2, 2)]
  const SHORT := SHORT2 + [Event(Executing, 3, 3)]

  /** The repeated request comes between the first transition and its write. */
  lemma RevisionLost()
    ensures Reaches(EMPTY,
                    Only(Record(Received, 2, Some(1)), Record(Issued, 1, None), map["a" := Deciding], [], SHORT1))
  {
    var issued, received := Record(Issued, 1, None), Record(Received, 2, Some(1));
    FirstRequest();
    Queues(EMPTY);
    Moves(EMPTY, issued, issued, Queued, [], []);
    Repeats(EMPTY, issued, received, map["a" := Saving(received)], [], []);
    assert [] + [Event(Received, 1, 2)] == SHORT1;
    Saves(EMPTY, issued, issued, received, [], [], Event(Received, 1, 2));
  }

  lemma AcceptsShort()
    ensures Reaches(EMPTY,
                    Only(Record(Accepted, 2, Some(2)), Record(Accepted, 2, Some(2)), map["a" := Starting], [], SHORT2))
  {
    var received, accepted := Record(Received, 2, Some(1)), Record(Accepted, 2, Some(2));
    RevisionLost();
    Moves(EMPTY, received, Record(Issued, 1, None), Deciding, [], SHORT1);
    Saves(EMPTY, received, accepted, accepted, [], SHORT1, Event(Accepted, 2, 2));
  }

  lemma StartsShort()
    ensures Reaches(EMPTY,
                    Only(Record(Executing, 3, Some(3)), Record(Executing, 3, Some(3)), map["a" := Ready], [], SHORT))
  {
    var accepted, executing := Record(Accepted, 2, Some(2)), Record(Executing, 3, Some(3));
    AcceptsShort();
    Moves(EMPTY, accepted, accepted, Starting, [], SHORT2);
    Saves(EMPTY, accepted, executing, executing, [], SHORT2, Event(Executing, 3, 3));
  }

  const APPLIED_LOG := [Invoked, Returned(DeliveryApplied)]

  lemma DeliversShort()
    ensures Reaches(EMPTY,
                    Only(Record(Executing, 3, Some(3)), Record(Executing, 3, Some(3)),
                         map["a" := Settling(DeliveryApplied)], APPLIED_LOG, SHORT))
  {
    StartsShort();
    Delivers(EMPTY, Record(Executing, 3, Some(3)), SHORT, DeliveryApplied);
  }

  lemma SettlesShort()
    ensures var executing, applied := Record(Executing, 3, Some(3)), Record(Applied, 4, Some(4));
      Reaches(EMPTY, Only(executing, applied, map["a" := Saving(applied)], APPLIED_LOG, SHORT))
  {
    var executing := Record(Executing, 3, Some(3));
    DeliversShort();
    Moves(EMPTY, executing, executing, Settling(DeliveryApplied), APPLIED_LOG, SHORT);
  }

  lemma AppliesShort()
    ensures Reaches(EMPTY,
                    Only(Record(Applied, 4, Some(4)), Record(Applied, 4, Some(4)), map["a" := Handover], APPLIED_LOG,
                                SHORT + [Event(Applied, 4, 4)]))
  {
    var applied := Record(Applied, 4, Some(4));
    SettlesShort();
    Saves(EMPTY, Record(Executing, 3, Some(3)), applied, applied, APPLIED_LOG, SHORT, Event(Applied, 4, 4));
  }

  /** From the repeated request on, a command goes through its whole life one revision short, so two of its events carry
      the same revision. */
  lemma RevisionRepeated() returns (v: World)
    ensures Reaches(EMPTY, v) && "a" in v.tables.commands && v.tables.commands["a"].command.state == Confirmed
    ensures |v.histories| == 1 && v.histories[0].events == SHORT + [Event(Applied, 4, 4)] + [Event(Confirmed, 5, 5)]
    ensures v.owner == map["a" := 0] && v.pending == v.lost == {}
  {
    var applied, confirmed := Record(Applied, 4, Some(4)), Record(Confirmed, 5, Some(5));
    var es, c := SHORT + [Event(Applied, 4, 4)], Event(Confirmed, 5, 5);
    var log := APPLIED_LOG + [Observed(FieldConfirmed)];
    AppliesShort();
    Watches(EMPTY, applied, APPLIED_LOG, es);
    Confirms(EMPTY, applied, APPLIED_LOG, es);
    Saves(EMPTY, applied, confirmed, confirmed, log, es, c);
    v := Only(confirmed, confirmed, map[], log, es + [c]);
  }

  // --------------------------------------------------------------- blocking

  const UNKNOWN_LOG := [Invoked, Returned(PossiblyApplied)]
  const EXECUTING := Record(Executing, 3, Some(3))
  const UNKNOWN := Record(OutcomeUnknown, 4, Some(4))
  const LATE := EXECUTING.(revision := 4)
  const REVIEW := Reconciliation("a", Inconclusive, false, 0)

  // The uncertainty of "a" is in memory and a review of it starts; a repeated request puts the EXECUTING row back into
  // memory; the review is written and adds its evidence to that record; the uncertainty is saved; the evidence is
  // saved.
  const UNSURE := Only(EXECUTING, UNKNOWN, map["a" := Saving(UNKNOWN)], UNKNOWN_LOG, SHORT)
  const REVIEWED := UNSURE.(reviews := map[0 := Checked("a")])
  const COPIED := REVIEWED.(cache := map["a" := Row("f", EXECUTING)])
  const NOTED := COPIED.(tables := COPIED.tables.(reconciliations := [REVIEW]), reviews := map[0 := Recorded("a")])
  const WITNESSED := NOTED.(cache := map["a" := Row("f", LATE)], reviews := map[0 := Unsaved("a", LATE)])
  const SAVED := WITNESSED.(
    tables := WITNESSED.tables.(commands := map["a" := Row("f", UNKNOWN)]), tasks := map[],
    histories := [History(Some("k"), 0, 86400000, UNKNOWN_LOG, SHORT + [Event(OutcomeUnknown, 4, 4)])])
  const OVERTAKEN := SAVED.(tables := SAVED.tables.(commands := map["a" := Row("f", LATE)]), reviews := map[])

  lemma ReachesUnsure()
    ensures Reaches(EMPTY, UNSURE)
  {
    StartsShort();
    Delivers(EMPTY, EXECUTING, SHORT, PossiblyApplied);
    Moves(EMPTY, EXECUTING, EXECUTING, Settling(PossiblyApplied), UNKNOWN_LOG, SHORT);
  }

  lemma ReachesReviewed()
    ensures Reaches(EMPTY, REVIEWED)
  {
    ReachesUnsure();
    Extend(EMPTY, UNSURE, BeginReview(0, "a"), REVIEWED);
  }

  lemma ReachesCopied()
    ensures Reaches(EMPTY, COPIED)
  {
    ReachesReviewed();
    RepeatedRequest(REVIEWED, EXECUTING);
    Extend(EMPTY, REVIEWED, Request("b", "k"), COPIED);
  }

  lemma ReachesNoted()
    ensures Reaches(EMPTY, NOTED)
  {
    ReachesCopied();
    Extend(EMPTY, COPIED, AppendReview(0, Inconclusive, false), NOTED);
  }

  lemma ReachesWitnessed()
    ensures Reaches(EMPTY, WITNESSED)
  {
    ReachesNoted();
    Extend(EMPTY, NOTED, RecordEvidence(0), WITNESSED);
  }

  lemma ReachesSaved()
    ensures Reaches(EMPTY, SAVED)
  {
    ReachesWitnessed();
    assert WITNESSED.tasks - {"a"} == map[];
    Extend(EMPTY, WITNESSED, Persist("a"), SAVED.(pending := {0}));
    Announces(EMPTY, SAVED);
  }

  lemma ReachesOvertaken()
    ensures Reaches(EMPTY, SAVED) && Reaches(SAVED, OVERTAKEN)
  {
    ReachesSaved();
    Here(SAVED);
    assert SAVED.reviews - {0} == map[];
    Extend(SAVED, SAVED, PersistEvidence(0), OVERTAKEN);
  }

  /** The unknown outcome of "a" is saved, and then the outstanding evidence overwrites its row with EXECUTING: the next
      request for the same device action, under a fresh key, is admitted although nobody concluded anything. */
  lemma UnresolvedOvertaken() returns (w: World, v: World)
    ensures Reaches(EMPTY, w) && Reaches(w, v)
    ensures "a" in w.tables.commands && w.tables.commands["a"].command.state == OutcomeUnknown
    ensures "a" in v.tables.commands && v.tables.commands["a"].command.state == Executing && v.tasks == map[]
    ensures v.tables.reconciliations == [REVIEW]
    ensures Enabled(0, v, Request("c", "k2")) && |Apply(0, v, Request("c", "k2")).histories| == |v.histories| + 1
  {
    ReachesOvertaken();
    w, v := SAVED, OVERTAKEN;
    assert LiveDedup(v.tables.dedup, 0) == v.tables.dedup;
  }

  // ---------------------------------------- evidence before its transition

  const NEWER := UNKNOWN.(revision := 5)
  const RECORDED := REVIEWED.(
    tables := REVIEWED.tables.(reconciliations := [REVIEW]), reviews := map[0 := Recorded("a")])
  const ADDED := RECORDED.(cache := map["a" := Row("f", NEWER)], reviews := map[0 := Unsaved("a", NEWER)])
  const OUTRUN := ADDED.(tables := ADDED.tables.(commands := map["a" := Row("f", NEWER)]), reviews := map[])
  const LOWERED := OUTRUN.(
    tables := OUTRUN.tables.(commands := map["a" := Row("f", UNKNOWN)]), tasks := map[], pending := {0},
    histories := [History(Some("k"), 0, 86400000, UNKNOWN_LOG, SHORT + [Event(OutcomeUnknown, 4, 4)])])

  lemma ReachesAdded()
    ensures Reaches(EMPTY, ADDED)
  {
    ReachesReviewed();
    Extend(EMPTY, REVIEWED, AppendReview(0, Inconclusive, false), RECORDED);
    Extend(EMPTY, RECORDED, RecordEvidence(0), ADDED);
  }

  lemma ReachesOutrun()
    ensures Reaches(EMPTY, OUTRUN)
  {
    ReachesAdded();
    assert ADDED.reviews - {0} == map[];
    Extend(EMPTY, ADDED, PersistEvidence(0), OUTRUN);
  }

  /** Evidence for an unknown outcome is saved before the transition itself is, whose record is older: the row's
      revision falls from 5 to 4. */
  lemma RowRevisionFell() returns (w: World, v: World)
    ensures Reaches(EMPTY, w) && Enabled(0, w, Persist("a")) && v == Apply(0, w, Persist("a"))
    ensures "a" in w.tables.commands && w.tables.commands["a"].command.revision == 5
    ensures "a" in v.tables.commands && v.tables.commands["a"].command.revision == 4
  {
    ReachesOutrun();
    assert OUTRUN.tasks - {"a"} == map[];
    w, v := OUTRUN, LOWERED;
  }

  // ------------------------------------------- a crash before the event is sent

  const REFUSED := Record(Rejected, 2, Some(1))
  const MOVED := Only(Record(Issued, 1, None), REFUSED, map["a" := Saving(REFUSED)], [], [])
  const UNTOLD := Only(REFUSED, REFUSED, map[], [], [Event(Rejected, 1, 2)]).(pending := {0})
  const CRASHED := UNTOLD.(cache := map[], running := false, pending := {}, lost := {0})
  const RESTARTED := CRASHED.(running := true)

  lemma ReachesUntold()
    ensures Reaches(EMPTY, UNTOLD)
  {
    FirstRequest();
    Moves(EMPTY, Record(Issued, 1, None), Record(Issued, 1, None), Admitted, [], []);
    assert MOVED.tasks - {"a"} == map[] && [] + [Event(Rejected, 1, 2)] == [Event(Rejected, 1, 2)];
    Extend(EMPTY, MOVED, Persist("a"), UNTOLD);
  }

  lemma ReachesCrashed()
    ensures Reaches(EMPTY, CRASHED)
  {
    ReachesUntold();
    assert {} + {0} == CRASHED.lost;
    Extend(EMPTY, UNTOLD, Crash, CRASHED);
  }

  /** The queue refuses command "a", and the backend dies between saving and sending that. After the restart the row is
      REJECTED, and clients were never told. */
  lemma EventLost() returns (v: World)
    ensures Reaches(EMPTY, v) && v.running && v.pending == {} && v.lost == {0}
    ensures "a" in v.tables.commands && v.tables.commands["a"].command.state == Rejected
    ensures v.owner == map["a" := 0] && |v.histories| == 1 && v.histories[0].events == [Event(Rejected, 1, 2)]
  {
    ReachesCrashed();
    Extend(EMPTY, CRASHED, Resume, RESTARTED);
    v := RESTARTED;
  }
}
