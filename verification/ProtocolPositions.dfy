/** Where a record of a command stands among its events: in every run, each version of a command that memory, ledger or
    a thread holds, unless its outcome is unknown, is at the event it names as its last one. */
module ProtocolPositions {
  import opened Basics
  import opened CommandTypes
  import opened CommandLedger
  import opened CommandProtocol
  import opened ProtocolSafety
  import opened ProtocolTheorems
  import opened ProtocolOutcomes

  function EventsOf(w: World, id: CommandId): seq<Event>
    requires Owned(w, id)
  {
    w.histories[w.owner[id]].events
  }

  /** The transition that memory already shows and the ledger and the clients do not know yet. */
  predicate Ahead(w: World, id: CommandId) {
    id in w.tasks && w.tasks[id].Saving? && id in w.cache
  }

  function Announcement(c: Command): Event
    requires c.lastEventSeq.Some?
  {
    Event(c.state, c.lastEventSeq.value, c.revision)
  }

  /** The events of `id` and, if memory is ahead of them, the one that its thread is about to save. */
  function Upcoming(w: World, id: CommandId): seq<Event>
    requires Owned(w, id)
  {
    var es := EventsOf(w, id);
    if Ahead(w, id) && w.tasks[id].snapshot.lastEventSeq.Some? then es + [Announcement(w.tasks[id].snapshot)] else es
  }

  /** The record is at the event that it names as its last one. */
  predicate PlacedOn(es: seq<Event>, c: Command) {
    c.state != OutcomeUnknown ==>
      match c.lastEventSeq
      case None => c.state == Issued
      case Some(k) => 1 <= k <= |es| && c.state == es[k - 1].state
  }

  ghost predicate Placed(w: World, id: CommandId) {
    Owned(w, id) ==>
      && (id in w.tables.commands ==> PlacedOn(EventsOf(w, id), w.tables.commands[id].command))
      && (id in w.cache ==> PlacedOn(Upcoming(w, id), w.cache[id].command))
      && (id in w.tasks && w.tasks[id].SavingTiming? ==> PlacedOn(EventsOf(w, id), w.tasks[id].snapshot))
      && (forall call :: call in w.reviews && w.reviews[call].Unsaved? && w.reviews[call].id == id ==>
            PlacedOn(EventsOf(w, id), w.reviews[call].snapshot))
  }

  // ----------------------------------------------------------- preservation

  lemma BeginPlaces(w: World, x: CommandId, state: CommandState, seqNo: nat, id: CommandId)
    requires Placed(w, id) && x in w.cache && x in w.tasks && !w.tasks[x].Saving?
    requires Owned(w, x) && seqNo == |EventsOf(w, x)| + 1
    ensures Placed(Begin(w, x, state, seqNo), id)
  {
  }

  /** No record is written, no transition is saved, and a record in memory still has its thread. */
  ghost predicate NothingMoves(w: World, v: World, id: CommandId) {
    && NoNewRecord(w, v) && v.owner == w.owner && |v.histories| == |w.histories|
    && (Owned(w, id) ==> EventsOf(v, id) == EventsOf(w, id))
    && (id in v.cache && Ahead(w, id) ==> Ahead(v, id))
  }

  lemma NothingMovesPlaces(w: World, v: World, id: CommandId)
    requires Placed(w, id) && NothingMoves(w, v, id)
    ensures Placed(v, id)
  {
  }

  lemma RequeuePlaces(w: World, x: CommandId, stage: Stage, id: CommandId)
    requires Placed(w, id) && x in w.tasks && !w.tasks[x].Saving? && !stage.Saving? && !stage.SavingTiming?
    ensures Placed(w.(tasks := w.tasks[x := stage]), id)
  {
    NothingMovesPlaces(w, w.(tasks := w.tasks[x := stage]), id);
  }

  lemma QueuePlaces(maxRecords: nat, w: World, s: Step, id: CommandId)
    requires Inv(w) && Placed(w, id) && Enabled(maxRecords, w, s) && (s.Submit? || s.SubmitFeedback? || s.GiveUp?)
    ensures Placed(Apply(maxRecords, w, s), id)
  {
    LiveRecord(w, s.id);
    assert CommandOk(w, s.id);
    match s
    case Submit(x, accepted) =>
      if accepted { RequeuePlaces(w, x, Queued, id); } else { BeginPlaces(w, x, Rejected, 1, id); }
    case SubmitFeedback(x, accepted) =>
      if accepted { RequeuePlaces(w, x, Monitoring, id); } else { BeginPlaces(w, x, OutcomeUnknown, 5, id); }
    case GiveUp(x) => BeginPlaces(w, x, OutcomeUnknown, 5, id);
  }

  lemma WorkerPlaces(maxRecords: nat, w: World, s: Step, id: CommandId)
    requires Inv(w) && Placed(w, id) && Enabled(maxRecords, w, s) && (s.Take? || s.Decide? || s.Start? || s.Settle?)
    ensures Placed(Apply(maxRecords, w, s), id)
  {
    LiveRecord(w, s.id);
    assert CommandOk(w, s.id);
    match s
    case Take(x) => BeginPlaces(w, x, Received, 1, id);
    case Decide(x, domainReady) => BeginPlaces(w, x, Decision(w, x, domainReady), 2, id);
    case Start(x) => BeginPlaces(w, x, Executing, 3, id);
    case Settle(x) => BeginPlaces(w, x, Settlement(w.tasks[x].certainty), 4, id);
  }

  lemma LogPlaces(w: World, v: World, id: CommandId)
    requires Placed(w, id) && v.cache == w.cache && v.tasks == w.tasks && v.tables.commands == w.tables.commands
    requires forall call :: call in v.reviews && v.reviews[call].Unsaved? ==>
      call in w.reviews && v.reviews[call] == w.reviews[call]
    requires v.owner == w.owner
    requires |v.histories| == |w.histories| && (Owned(w, id) ==> EventsOf(v, id) == EventsOf(w, id))
    ensures Placed(v, id)
  {
  }

  lemma ObservePlaces(w: World, x: CommandId, f: Feedback, id: CommandId)
    requires Inv(w) && Placed(w, id) && At(w, x, Monitoring) && (f != Pending ==> CanBegin(w, x, Verdict(f)))
    ensures Placed(ObserveSection(w, x, f), id)
  {
    assert CommandOk(w, x);
    var v := if f == Pending then w else Begin(w, x, Verdict(f), 5);
    if f != Pending { BeginPlaces(w, x, Verdict(f), 5, id); }
    LogPlaces(v, ObserveSection(w, x, f), id);
  }

  lemma CallPlaces(w: World, x: CommandId, unsafeDriver: bool, c: Certainty, violated: bool, id: CommandId)
    requires Placed(w, id) && Owned(w, x) && x in w.tasks && !w.tasks[x].Saving?
    ensures Placed(InvokeSection(w, x, unsafeDriver), id) && Placed(ReturnSection(w, x, c, violated), id)
  {
    var stage := if w.quarantined || unsafeDriver then Returning(NotSent) else Calling;
    RequeuePlaces(w, x, stage, id);
    LogPlaces(w.(tasks := w.tasks[x := stage]), InvokeSection(w, x, unsafeDriver), id);
    RequeuePlaces(w, x, Returning(c), id);
    LogPlaces(w.(tasks := w.tasks[x := Returning(c)]), ReturnSection(w, x, c, violated), id);
  }

  lemma AdapterPlaces(maxRecords: nat, w: World, s: Step, id: CommandId)
    requires Inv(w) && Placed(w, id) && Enabled(maxRecords, w, s) && (s.Invoke? || s.Return? || s.Observe?)
    ensures Placed(Apply(maxRecords, w, s), id)
  {
    match s
    case Invoke(x, unsafeDriver) => CallPlaces(w, x, unsafeDriver, NotSent, false, id);
    case Return(x, c, violated) => CallPlaces(w, x, false, c, violated, id);
    case Observe(x, f) => ObservePlaces(w, x, f, id);
  }

  lemma PersistPlacesOwn(w: World, id: CommandId)
    requires Inv(w) && Placed(w, id) && id in w.tasks && w.tasks[id].Saving? && Owned(w, id)
    requires id in w.tables.commands
    ensures Placed(PersistSection(w, id), id)
  {
    assert CommandOk(w, id);
  }

  lemma PersistPlacesOther(w: World, x: CommandId, id: CommandId)
    requires OwnersDistinct(w) && Placed(w, id) && x in w.tasks && w.tasks[x].Saving? && Owned(w, x) && x != id
    requires x in w.tables.commands
    ensures Placed(PersistSection(w, x), id)
  {
    if Owned(w, id) { assert EventsOf(PersistSection(w, x), id) == EventsOf(w, id); }
  }

  lemma PersistPlaces(w: World, x: CommandId, id: CommandId)
    requires Inv(w) && Placed(w, id) && x in w.tasks && w.tasks[x].Saving? && Owned(w, x)
    requires x in w.tables.commands
    ensures Placed(PersistSection(w, x), id)
  {
    if x == id { PersistPlacesOwn(w, id); } else { PersistPlacesOther(w, x, id); }
  }

  lemma TimingPlaces(maxRecords: nat, w: World, s: Step, id: CommandId)
    requires Inv(w) && Placed(w, id) && Enabled(maxRecords, w, s) && (s.RecordTiming? || s.PersistTiming?)
    ensures Placed(Apply(maxRecords, w, s), id)
  {
    LiveRecord(w, s.id);
  }

  lemma ForgetPlaces(maxRecords: nat, w: World, s: Step, id: CommandId)
    requires Placed(w, id) && Enabled(maxRecords, w, s) && (s.PruneCache? || s.Crash?)
    ensures Placed(Apply(maxRecords, w, s), id)
  {
    NothingMovesPlaces(w, Apply(maxRecords, w, s), id);
  }

  lemma QuietPlaces(maxRecords: nat, w: World, s: Step, id: CommandId)
    requires Placed(w, id) && Enabled(maxRecords, w, s)
    requires s.Tick? || s.Resume? || s.Announce? || s.BeginReview? || s.AppendReview?
    ensures Placed(Apply(maxRecords, w, s), id)
  {
    LogPlaces(w, Apply(maxRecords, w, s), id);
  }

  lemma RecoverPlaces(w: World, x: CommandId, id: CommandId)
    requires Placed(w, id) && x in w.tables.commands
    ensures Placed(RecoverSection(w, x), id)
  {
  }

  /** A record under review is not about to be announced, unless as unknown. */
  lemma ReviewedPlace(w: World, call: nat)
    requires Inv(w) && call in w.reviews && w.reviews[call].id in w.cache && Placed(w, w.reviews[call].id)
    ensures Owned(w, w.reviews[call].id) ==>
      PlacedOn(EventsOf(w, w.reviews[call].id), w.cache[w.reviews[call].id].command)
  {
    assert ReviewOk(w, call);
  }

  lemma EvidenceKeepsPlace(w: World, x: CommandId, id: CommandId)
    requires Placed(w, id) && x in w.cache
    ensures Placed(w.(cache := w.cache[x := w.cache[x].(command := WithEvidence(w.cache[x].command, w.now))]), id)
  {
  }

  lemma ReviewPlaces(w: World, call: nat, x: CommandId, c: Command, id: CommandId)
    requires Placed(w, id) && (x == id && Owned(w, id) ==> PlacedOn(EventsOf(w, id), c))
    ensures Placed(w.(reviews := w.reviews[call := Unsaved(x, c)]), id)
  {
  }

  lemma RecordEvidencePlaces(w: World, call: nat, id: CommandId)
    requires Inv(w) && Placed(w, id) && call in w.reviews
    ensures Placed(RecordEvidenceSection(w, call), id)
  {
    var x := w.reviews[call].id;
    if x !in w.cache {
      LogPlaces(w, RecordEvidenceSection(w, call), id);
    } else {
      var c := WithEvidence(w.cache[x].command, w.now);
      if x == id { ReviewedPlace(w, call); }
      EvidenceKeepsPlace(w, x, id);
      ReviewPlaces(w.(cache := w.cache[x := w.cache[x].(command := c)]), call, x, c, id);
    }
  }

  lemma PersistEvidencePlaces(w: World, call: nat, id: CommandId)
    requires Placed(w, id) && call in w.reviews && w.reviews[call].Unsaved? && w.reviews[call].id in w.tables.commands
    ensures Placed(PersistEvidenceSection(w, call), id)
  {
  }

  lemma AcceptPlaces(w: World, added: CommandId, row: Row, t: Tables, key: Option<IdempotencyKey>, dedupUntil: int,
                     id: CommandId)
    requires Inv(w) && Placed(w, id) && added !in w.tables.commands && AcceptedInto(w, added, row, t)
    requires row.command.state == Issued && row.command.lastEventSeq == None
    ensures Placed(Accept(w, added, row, t, key, dedupUntil), id)
  {
    assert forall call :: call in w.reviews ==> ReviewOk(w, call);
  }

  lemma CopyPlaces(w: World, t: Tables, cache: map<CommandId, Row>, id: CommandId)
    requires Placed(w, id) && t.commands == w.tables.commands && CopiesRows(w, cache)
    requires w.cache.Keys <= cache.Keys
    ensures Placed(w.(tables := t, cache := cache), id)
  {
  }

  lemma AdmitPlaces(maxRecords: nat, w: World, s: Step, id: CommandId)
    requires Inv(w) && Placed(w, id) && Enabled(maxRecords, w, s) && s.Admit?
    ensures Placed(AdmitSection(maxRecords, w, s), id)
  {
    if Inserts(maxRecords, w, s) {
      InsertsInto(maxRecords, w, s);
      var row := Row(s.fingerprint, InitialCommand(s.deviceId, s.action, w.now, s.ttl));
      AcceptPlaces(w, s.id, row, Transaction(maxRecords, w, s).0, Some(s.key), s.dedupUntil, id);
    } else {
      RepliesOnly(maxRecords, w, s);
      AdmitCopies(maxRecords, w, s);
      CopyPlaces(w, AnsweredTables(maxRecords, w, s), AdmitSection(maxRecords, w, s).cache, id);
    }
  }

  lemma AdmitLegacyPlaces(maxRecords: nat, w: World, s: Step, id: CommandId)
    requires Inv(w) && Placed(w, id) && Enabled(maxRecords, w, s) && s.AdmitLegacy?
    ensures Placed(AdmitLegacySection(w, s), id)
  {
    if s.id in w.cache || s.id in w.tables.commands {
      CopyPlaces(w, w.tables, AdmitLegacySection(w, s).cache, id);
    } else {
      var row := Row(s.fingerprint, InitialCommand(s.deviceId, s.action, w.now, s.ttl));
      var grown := w.tables.commands[s.id := row];
      assert s.victims <= PrunableIds(grown);
      AcceptPlaces(w, s.id, row, InsertSpec(w.tables, s.id, s.fingerprint, row.command, s.victims), None, 0, id);
    }
  }

  lemma StepPlaces(maxRecords: nat, w: World, s: Step, id: CommandId)
    requires Inv(w) && Placed(w, id) && Enabled(maxRecords, w, s)
    ensures Placed(Apply(maxRecords, w, s), id)
  {
    if s.Admit? {
      AdmitPlaces(maxRecords, w, s, id);
    } else if s.AdmitLegacy? {
      AdmitLegacyPlaces(maxRecords, w, s, id);
    } else if s.Submit? || s.SubmitFeedback? || s.GiveUp? {
      QueuePlaces(maxRecords, w, s, id);
    } else if s.Take? || s.Decide? || s.Start? || s.Settle? {
      WorkerPlaces(maxRecords, w, s, id);
    } else if s.Invoke? || s.Return? || s.Observe? {
      AdapterPlaces(maxRecords, w, s, id);
    } else if s.Persist? {
      PersistPlaces(w, s.id, id);
    } else if s.RecordTiming? || s.PersistTiming? {
      TimingPlaces(maxRecords, w, s, id);
    } else if s.Load? {
      CopyPlaces(w, w.tables, w.cache[s.id := w.tables.commands[s.id]], id);
    } else if s.Recover? {
      RecoverPlaces(w, s.id, id);
    } else if s.RecordEvidence? {
      RecordEvidencePlaces(w, s.call, id);
    } else if s.PersistEvidence? {
      PersistEvidencePlaces(w, s.call, id);
    } else if s.PruneCache? || s.Crash? {
      ForgetPlaces(maxRecords, w, s, id);
    } else {
      QuietPlaces(maxRecords, w, s, id);
    }
  }

  /** In every reachable state each version of a command, unless its outcome is unknown, is at the event that it names
      as its last one: the one in memory among those saved or about to be saved, all others among those saved. */
  lemma {:induction false} RunPlaced(maxRecords: nat, ws: seq<World>, steps: seq<Step>, i: nat, id: CommandId)
    requires Run(maxRecords, ws, steps) && i < |ws|
    ensures Placed(ws[i], id)
  {
    if i > 0 {
      RunPlaced(maxRecords, ws, steps, i - 1, id);
      RunInv(maxRecords, ws, steps, i - 1);
      StepPlaces(maxRecords, ws[i - 1], steps[i - 1], id);
      assert ws[i - 1 + 1] == Apply(maxRecords, ws[i - 1], steps[i - 1]);
    }
  }
}
