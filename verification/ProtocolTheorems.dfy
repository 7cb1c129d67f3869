/** The promises of the command protocol over whole runs: no physical action is replayed, terminal states tell
    the truth, a live thread is never stranded, and an idempotency key acts at most once in its window. */
module ProtocolTheorems {
  import opened Basics
  import opened CommandTypes
  import opened CommandLedger
  import opened CommandProtocol
  import opened ProtocolSafety

  /** The adapter is invoked at most once for every admission there ever was. */
  lemma AdapterInvokedAtMostOnce(maxRecords: nat, ws: seq<World>, steps: seq<Step>, i: nat, admission: nat)
    requires Run(maxRecords, ws, steps) && i < |ws| && admission < |ws[i].histories|
    ensures AtMostOneInvocation(ws[i].histories[admission].log)
  {
    RunInv(maxRecords, ws, steps, i);
  }

  /** Whatever the ledger or the in-memory copy says of a command is true of what crossed the adapter: a rejected or
      expired command was never sent, a confirmed one was delivered exactly once, applied, and then confirmed. */
  lemma TerminalStatesAreTruthful(maxRecords: nat, ws: seq<World>, steps: seq<Step>, i: nat, id: CommandId)
    requires Run(maxRecords, ws, steps) && i < |ws|
    ensures id in ws[i].tables.commands ==>
      Owned(ws[i], id) && Honest(ws[i].tables.commands[id].command.state, ws[i].histories[ws[i].owner[id]].log)
    ensures id in ws[i].cache ==>
      Owned(ws[i], id) && Honest(ws[i].cache[id].command.state, ws[i].histories[ws[i].owner[id]].log)
  {
    RunInv(maxRecords, ws, steps, i);
    assert CommandOk(ws[i], id);
  }

  /** The transition saved before the last one, which is where a finished thread ended from. */
  function StateBefore(events: seq<Event>): CommandState {
    if events == [] then Issued else LastState(events[..|events| - 1])
  }

  /** The ways a delivery can end exclude each other. */
  lemma LogEnds(log: seq<Entry>, f: Feedback)
    requires f != Pending
    ensures Monitored(log) ==> |log| >= 2 && log[1] == Returned(DeliveryApplied) && log[|log| - 1] != Observed(f)
    ensures Concluded(log, f) ==>
      |log| >= 3 && log[1] == Returned(DeliveryApplied) && log[|log| - 1] == Observed(f)
  {
    if Monitored(log) {
      assert log[..2][1] == log[1];
      if |log| > 2 { assert log[2..][|log| - 3] == log[|log| - 1]; }
    }
    if Concluded(log, f) { assert log[..|log| - 1][..2][1] == log[1]; }
  }

  lemma OutcomeExactly(last: CommandState, state: CommandState, log: seq<Entry>)
    requires Terminal(state) && Edge(last, state) && EndsAs(last, state, log)
    ensures state == Confirmed <==> Concluded(log, FieldConfirmed)
    ensures state == OutcomeUnknown <==>
      || log == [Invoked, Returned(PossiblyApplied)] || Monitored(log)
      || Concluded(log, Unsupported) || Concluded(log, Unreadable)
    ensures state == Failed <==>
      || Concluded(log, FieldFailed) || log == [Invoked, Returned(RejectedByDevice)]
      || log == [Invoked, Returned(NotSent)] || (log == [] && last == Executing)
    ensures state == Rejected || state == Expired <==> last == Issued || last == Received
  {
    LogEnds(log, FieldConfirmed);
    LogEnds(log, FieldFailed);
    LogEnds(log, Unsupported);
    LogEnds(log, Unreadable);
  }

  /** How a finished command ended is decided by what crossed the adapter, in every run: it is CONFIRMED if and only if
      the field confirmed an applied delivery, unknown if and only if the delivery was possibly applied or got no
      verdict, FAILED if and only if it was executed and not sent or refused, or the field reported failure. */
  lemma OutcomeSaysWhatHappened(maxRecords: nat, ws: seq<World>, steps: seq<Step>, i: nat, admission: nat)
    requires Run(maxRecords, ws, steps) && i < |ws| && admission < |ws[i].histories|
    requires Terminal(LastState(ws[i].histories[admission].events))
    ensures var h := ws[i].histories[admission];
      var told, before := LastState(h.events), StateBefore(h.events);
      && (told == Confirmed <==> Concluded(h.log, FieldConfirmed))
      && (told == OutcomeUnknown <==>
            || h.log == [Invoked, Returned(PossiblyApplied)] || Monitored(h.log)
            || Concluded(h.log, Unsupported) || Concluded(h.log, Unreadable))
      && (told == Failed <==>
            || Concluded(h.log, FieldFailed) || h.log == [Invoked, Returned(RejectedByDevice)]
            || h.log == [Invoked, Returned(NotSent)] || (h.log == [] && before == Executing))
      && (told == Rejected || told == Expired <==> before == Issued || before == Received)
  {
    RunInv(maxRecords, ws, steps, i);
    var h := ws[i].histories[admission];
    assert HistoryOk(h, ws[i].now);
    var n := |h.events|;
    assert Edge(LastState(h.events[..n - 1]), h.events[n - 1].state);
    OutcomeExactly(StateBefore(h.events), LastState(h.events), h.log);
  }

  /** What the thread of `id` does next at a stage, for every answer its environment may give. */
  predicate Continues(stage: Stage, id: CommandId, s: Step) {
    match stage
    case Admitted => s.Submit? && s.id == id
    case Queued => s == Take(id)
    case Saving(_) => s == Persist(id)
    case Deciding => s.Decide? && s.id == id
    case Starting => s == Start(id)
    case Ready => s.Invoke? && s.id == id
    case Calling => s.Return? && s.id == id && (s.violated ==> s.certainty == PossiblyApplied)
    case Returning(_) => s == RecordTiming(id)
    case SavingTiming(_, _) => s == PersistTiming(id)
    case Settling(_) => s == Settle(id)
    case Handover => s.SubmitFeedback? && s.id == id
    case Monitoring => (s.Observe? && s.id == id) || s == GiveUp(id)
  }

  /** What it does next: it announces what it has saved, or goes on. */
  predicate Serves(w: World, id: CommandId, s: Step)
    requires id in w.tasks
  {
    if Owned(w, id) && w.owner[id] in w.pending then s == Announce(w.owner[id]) else Continues(w.tasks[id], id, s)
  }

  lemma QueueServed(maxRecords: nat, w: World, id: CommandId, s: Step)
    requires Inv(w) && id in w.tasks && Serves(w, id, s) && (s.Submit? || s.Take?)
    ensures Enabled(maxRecords, w, s)
  {
    LiveRecord(w, id);
  }

  lemma WorkerServed(maxRecords: nat, w: World, id: CommandId, s: Step)
    requires Inv(w) && id in w.tasks && Serves(w, id, s) && (s.Decide? || s.Start? || s.Settle?)
    ensures Enabled(maxRecords, w, s)
  {
    LiveRecord(w, id);
  }

  lemma AdapterServed(maxRecords: nat, w: World, id: CommandId, s: Step)
    requires Inv(w) && id in w.tasks && Serves(w, id, s)
    requires s.Persist? || s.Invoke? || s.Return? || s.RecordTiming? || s.PersistTiming?
    ensures Enabled(maxRecords, w, s)
  {
    LiveRecord(w, id);
  }

  lemma FeedbackServed(maxRecords: nat, w: World, id: CommandId, s: Step)
    requires Inv(w) && id in w.tasks && Serves(w, id, s) && (s.SubmitFeedback? || s.Observe? || s.GiveUp?)
    ensures Enabled(maxRecords, w, s)
  {
    LiveRecord(w, id);
  }

  /** No thread is ever stranded: the record it moves is in memory and not already terminal, the row it saves is in
      the ledger, and so its next section is enabled whatever the environment answers. */
  lemma ThreadsNeverStranded(maxRecords: nat, ws: seq<World>, steps: seq<Step>, i: nat, id: CommandId, s: Step)
    requires Run(maxRecords, ws, steps) && i < |ws| && id in ws[i].tasks && Serves(ws[i], id, s)
    ensures Enabled(maxRecords, ws[i], s)
  {
    RunInv(maxRecords, ws, steps, i);
    if s.Submit? || s.Take? {
      QueueServed(maxRecords, ws[i], id, s);
    } else if s.Decide? || s.Start? || s.Settle? {
      WorkerServed(maxRecords, ws[i], id, s);
    } else if s.Persist? || s.Invoke? || s.Return? || s.RecordTiming? || s.PersistTiming? {
      AdapterServed(maxRecords, ws[i], id, s);
    } else if s.Announce? {
      LiveRecord(ws[i], id);
    } else {
      FeedbackServed(maxRecords, ws[i], id, s);
    }
  }

  lemma LiveRecord(w: World, id: CommandId)
    requires Inv(w) && id in w.tasks
    ensures w.running && Owned(w, id) && id in w.tables.commands
    ensures !w.tasks[id].Saving? ==> id in w.cache && !Terminal(w.cache[id].command.state)
  {
    assert CommandOk(w, id);
  }

  // ------------------------------------------------- nothing is replayed

  ghost predicate Idle(w: World, admission: nat) {
    forall id :: id in w.tasks && id in w.owner ==> w.owner[id] != admission
  }

  /** A step changes only the history its thread owns, and starts a thread only for a new admission. */
  ghost predicate Frame(w: World, v: World) {
    && |w.histories| <= |v.histories|
    && (forall a :: 0 <= a < |w.histories| && Idle(w, a) ==> v.histories[a] == w.histories[a])
    && (forall id :: id in v.tasks && id in v.owner ==>
          v.owner[id] == |w.histories| || (id in w.tasks && id in w.owner && v.owner[id] == w.owner[id]))
  }

  lemma ThreadFrame(w: World, v: World, id: CommandId)
    requires id in w.tasks && Owned(w, id) && v.owner == w.owner && |v.histories| == |w.histories|
    requires v.tasks.Keys <= w.tasks.Keys
    requires forall a :: 0 <= a < |w.histories| && a != w.owner[id] ==> v.histories[a] == w.histories[a]
    ensures Frame(w, v)
  {
    forall x | x in v.tasks ensures x in w.tasks { assert x in v.tasks.Keys; }
  }

  lemma AcceptFrame(w: World, id: CommandId, row: Row, t: Tables, key: Option<IdempotencyKey>, dedupUntil: int)
    ensures Frame(w, Accept(w, id, row, t, key, dedupUntil))
  {
    assert Accept(w, id, row, t, key, dedupUntil).histories[..|w.histories|] == w.histories;
  }

  lemma RecordsFrame(w: World, v: World)
    requires v.tasks == w.tasks && v.owner == w.owner && v.histories == w.histories
    ensures Frame(w, v)
  {
  }

  lemma AdmitFrame(maxRecords: nat, w: World, s: Step)
    requires s.Admit? && Enabled(maxRecords, w, s)
    ensures Frame(w, AdmitSection(maxRecords, w, s))
  {
    if Inserts(maxRecords, w, s) {
      InsertsInto(maxRecords, w, s);
      var row := Row(s.fingerprint, InitialCommand(s.deviceId, s.action, w.now, s.ttl));
      AcceptFrame(w, s.id, row, Transaction(maxRecords, w, s).0, Some(s.key), s.dedupUntil);
    } else {
      RepliesOnly(maxRecords, w, s);
      RecordsFrame(w, AdmitSection(maxRecords, w, s));
    }
  }

  lemma AdmitLegacyFrame(w: World, s: Step)
    requires s.AdmitLegacy?
    ensures Frame(w, AdmitLegacySection(w, s))
  {
    var c := InitialCommand(s.deviceId, s.action, w.now, s.ttl);
    AcceptFrame(w, s.id, Row(s.fingerprint, c), InsertSpec(w.tables, s.id, s.fingerprint, c, s.victims), None, 0);
    if s.id in w.cache || s.id in w.tables.commands { RecordsFrame(w, AdmitLegacySection(w, s)); }
  }

  lemma BeginFrame(w: World, id: CommandId, state: CommandState, seqNo: nat)
    requires id in w.tasks && Owned(w, id) && id in w.cache
    ensures Frame(w, Begin(w, id, state, seqNo))
  {
    ThreadFrame(w, Begin(w, id, state, seqNo), id);
  }

  lemma MoveOnFrame(w: World, id: CommandId, stage: Stage)
    requires id in w.tasks && Owned(w, id)
    ensures Frame(w, w.(tasks := w.tasks[id := stage]))
  {
    ThreadFrame(w, w.(tasks := w.tasks[id := stage]), id);
  }

  lemma QueueFrame(maxRecords: nat, w: World, s: Step)
    requires Inv(w) && Enabled(maxRecords, w, s) && (s.Submit? || s.SubmitFeedback? || s.GiveUp?)
    ensures Frame(w, Apply(maxRecords, w, s))
  {
    LiveRecord(w, s.id);
    match s
    case Submit(id, accepted) => if accepted { MoveOnFrame(w, id, Queued); } else { BeginFrame(w, id, Rejected, 1); }
    case SubmitFeedback(id, accepted) =>
      if accepted { MoveOnFrame(w, id, Monitoring); } else { BeginFrame(w, id, OutcomeUnknown, 5); }
    case GiveUp(id) => BeginFrame(w, id, OutcomeUnknown, 5);
  }

  lemma WorkerFrame(maxRecords: nat, w: World, s: Step)
    requires Inv(w) && Enabled(maxRecords, w, s) && (s.Take? || s.Decide? || s.Start? || s.Settle?)
    ensures Frame(w, Apply(maxRecords, w, s))
  {
    LiveRecord(w, s.id);
    match s
    case Take(id) => BeginFrame(w, id, Received, 1);
    case Decide(id, domainReady) => BeginFrame(w, id, Decision(w, id, domainReady), 2);
    case Start(id) => BeginFrame(w, id, Executing, 3);
    case Settle(id) => BeginFrame(w, id, Settlement(w.tasks[id].certainty), 4);
  }

  lemma ObserveFrame(w: World, id: CommandId, f: Feedback)
    requires id in w.tasks && Owned(w, id) && (f != Pending ==> CanBegin(w, id, Verdict(f)))
    ensures Frame(w, ObserveSection(w, id, f))
  {
    ThreadFrame(w, ObserveSection(w, id, f), id);
  }

  lemma CallFrame(w: World, id: CommandId, unsafeDriver: bool, c: Certainty, violated: bool)
    requires id in w.tasks && Owned(w, id)
    ensures Frame(w, InvokeSection(w, id, unsafeDriver)) && Frame(w, ReturnSection(w, id, c, violated))
  {
    ThreadFrame(w, InvokeSection(w, id, unsafeDriver), id);
    ThreadFrame(w, ReturnSection(w, id, c, violated), id);
  }

  lemma DeliveryFrame(maxRecords: nat, w: World, s: Step)
    requires Inv(w) && Enabled(maxRecords, w, s) && (s.Invoke? || s.Return? || s.Observe?)
    ensures Frame(w, Apply(maxRecords, w, s))
  {
    LiveRecord(w, s.id);
    match s
    case Invoke(id, unsafeDriver) => CallFrame(w, id, unsafeDriver, NotSent, false);
    case Return(id, c, violated) => CallFrame(w, id, false, c, violated);
    case Observe(id, f) => ObserveFrame(w, id, f);
  }

  lemma SavingFrame(maxRecords: nat, w: World, s: Step)
    requires Inv(w) && Enabled(maxRecords, w, s) && (s.Persist? || s.RecordTiming? || s.PersistTiming?)
    ensures Frame(w, Apply(maxRecords, w, s))
  {
    LiveRecord(w, s.id);
    match s
    case Persist(id) => ThreadFrame(w, PersistSection(w, id), id);
    case RecordTiming(id) => ThreadFrame(w, RecordTimingSection(w, id), id);
    case PersistTiming(id) => ThreadFrame(w, PersistTimingSection(w, id), id);
  }

  lemma CrashFrame(maxRecords: nat, w: World, s: Step)
    requires Enabled(maxRecords, w, s) && s.Crash?
    ensures Frame(w, Apply(maxRecords, w, s))
  {
  }

  lemma QuietFrame(maxRecords: nat, w: World, s: Step)
    requires Enabled(maxRecords, w, s)
    requires s.Tick? || s.PruneCache? || s.Load? || s.Recover? || s.Resume? || s.Announce?
    ensures Frame(w, Apply(maxRecords, w, s))
  {
    RecordsFrame(w, Apply(maxRecords, w, s));
  }

  lemma ReviewFrame(maxRecords: nat, w: World, s: Step)
    requires Enabled(maxRecords, w, s)
    requires s.BeginReview? || s.AppendReview? || s.RecordEvidence? || s.PersistEvidence?
    ensures Frame(w, Apply(maxRecords, w, s))
  {
    match s
    case BeginReview(call, id) => RecordsFrame(w, w.(reviews := w.reviews[call := Checked(id)]));
    case AppendReview(call, conclusion, allowRetry) =>
      RecordsFrame(w, AppendReviewSection(w, call, conclusion, allowRetry));
    case RecordEvidence(call) => RecordsFrame(w, RecordEvidenceSection(w, call));
    case PersistEvidence(call) => RecordsFrame(w, PersistEvidenceSection(w, call));
  }

  lemma StepFrame(maxRecords: nat, w: World, s: Step)
    requires Inv(w) && Enabled(maxRecords, w, s)
    ensures Frame(w, Apply(maxRecords, w, s))
  {
    if s.Admit? {
      AdmitFrame(maxRecords, w, s);
    } else if s.AdmitLegacy? {
      AdmitLegacyFrame(w, s);
    } else if s.Submit? || s.SubmitFeedback? || s.GiveUp? {
      QueueFrame(maxRecords, w, s);
    } else if s.Take? || s.Decide? || s.Start? || s.Settle? {
      WorkerFrame(maxRecords, w, s);
    } else if s.Invoke? || s.Return? || s.Observe? {
      DeliveryFrame(maxRecords, w, s);
    } else if s.Persist? || s.RecordTiming? || s.PersistTiming? {
      SavingFrame(maxRecords, w, s);
    } else if s.Crash? {
      CrashFrame(maxRecords, w, s);
    } else if s.Tick? || s.PruneCache? || s.Load? || s.Recover? || s.Resume? || s.Announce? {
      QuietFrame(maxRecords, w, s);
    } else {
      ReviewFrame(maxRecords, w, s);
    }
  }

  ghost predicate FrameChain(ws: seq<World>) {
    forall k :: 0 <= k < |ws| - 1 ==> Frame(ws[k], ws[k + 1])
  }

  lemma RunFrames(maxRecords: nat, ws: seq<World>, steps: seq<Step>)
    requires Run(maxRecords, ws, steps)
    ensures FrameChain(ws)
  {
    forall k | 0 <= k < |ws| - 1 ensures Frame(ws[k], ws[k + 1]) {
      RunInv(maxRecords, ws, steps, k);
      StepFrame(maxRecords, ws[k], steps[k]);
    }
  }

  lemma {:induction false} IdleStays(ws: seq<World>, i: nat, j: nat, admission: nat)
    requires FrameChain(ws) && i <= j < |ws| && admission < |ws[i].histories| && Idle(ws[i], admission)
    ensures Idle(ws[j], admission)
    ensures admission < |ws[j].histories| && ws[j].histories[admission] == ws[i].histories[admission]
    decreases j
  {
    if i < j {
      IdleStays(ws, i, j - 1, admission);
      assert Frame(ws[j - 1], ws[j - 1 + 1]);
    }
  }

  /** Once no thread serves an admission, its deliveries and its events are final for the rest of the run. */
  lemma NeverDeliveredAgain(maxRecords: nat, ws: seq<World>, steps: seq<Step>, i: nat, j: nat, admission: nat)
    requires Run(maxRecords, ws, steps) && i <= j < |ws|
    requires admission < |ws[i].histories| && Idle(ws[i], admission)
    ensures Idle(ws[j], admission)
    ensures admission < |ws[j].histories| && ws[j].histories[admission] == ws[i].histories[admission]
  {
    RunFrames(maxRecords, ws, steps);
    IdleStays(ws, i, j, admission);
  }

  /** A crash ends every delivery: nothing admitted before it reaches the adapter after it, and a command that restart
      finds unfinished is turned into an unknown outcome without touching what was delivered. */
  lemma CrashNeverReplays(maxRecords: nat, ws: seq<World>, steps: seq<Step>, i: nat, j: nat, admission: nat)
    requires Run(maxRecords, ws, steps) && i < j < |ws| && steps[i] == Crash && admission < |ws[i].histories|
    ensures admission < |ws[j].histories| && ws[j].histories[admission] == ws[i].histories[admission]
  {
    assert ws[i + 1] == Apply(maxRecords, ws[i], steps[i]);
    NeverDeliveredAgain(maxRecords, ws, steps, i + 1, j, admission);
  }

  lemma RecoveredIsUnknown(maxRecords: nat, ws: seq<World>, steps: seq<Step>, i: nat)
    requires Run(maxRecords, ws, steps) && i < |steps| && steps[i].Recover?
    ensures var id := steps[i].id;
      && id in ws[i].tables.commands && !Terminal(ws[i].tables.commands[id].command.state)
      && id in ws[i + 1].tables.commands && ws[i + 1].tables.commands[id].command.state == OutcomeUnknown
      && id in ws[i + 1].cache && ws[i + 1].cache[id].command == ws[i + 1].tables.commands[id].command
      && Owned(ws[i], id) && Idle(ws[i + 1], ws[i].owner[id])
      && var row, recovered := ws[i].tables.commands[id].command, ws[i + 1].tables.commands[id].command;
         recovered.updatedAt == ws[i].now && recovered.revision == row.revision + 1 && SameTarget(row, recovered)
         && recovered.lastEventSeq == Some(if row.lastEventSeq.Some? then row.lastEventSeq.value + 1 else 1)
  {
    RunInv(maxRecords, ws, steps, i);
    assert CommandOk(ws[i], steps[i].id);
    assert ws[i + 1] == Apply(maxRecords, ws[i], steps[i]);
  }

  // ----------------------------------------------------- idempotency windows

  predicate SameKey(g: History, h: History) {
    g.key.Some? && h.key == g.key
  }

  /** The dedup table remembers every open window, and windows of one key do not overlap. */
  ghost predicate WindowsOk(w: World) {
    && (forall a :: 0 <= a < |w.histories| && w.histories[a].key.Some? ==>
          || w.histories[a].dedupUntil <= w.now
          || (w.histories[a].key.value in w.tables.dedup
              && w.tables.dedup[w.histories[a].key.value].expiresAt == w.histories[a].dedupUntil))
    && (forall a, b :: 0 <= a < b < |w.histories| && SameKey(w.histories[a], w.histories[b]) ==>
          w.histories[a].dedupUntil <= w.histories[b].admittedAt)
  }

  ghost predicate AdmittedInThePast(w: World) {
    forall a :: 0 <= a < |w.histories| ==> w.histories[a].admittedAt <= w.now
  }

  /** A history only ever grows, and keeps the terms of its admission. */
  predicate Extends(g: History, h: History) {
    && h.key == g.key && h.admittedAt == g.admittedAt && h.dedupUntil == g.dedupUntil
    && g.log <= h.log && g.events <= h.events
  }

  /** No history is rewritten, and only saving a transition adds an event. */
  ghost predicate Grown(w: World, s: Step, v: World) {
    && |w.histories| <= |v.histories|
    && forall a :: 0 <= a < |w.histories| ==>
         Extends(w.histories[a], v.histories[a]) && (!s.Persist? ==> v.histories[a].events == w.histories[a].events)
  }

  /** Everything but an admission: no history begins, no idempotency key is touched; and only a crash stops the
      service. */
  ghost predicate SameTerms(w: World, s: Step, v: World) {
    && |v.histories| == |w.histories| && v.tables.dedup == w.tables.dedup && w.now <= v.now
    && (w.running && s != Crash ==> v.running) && Grown(w, s, v)
  }

  lemma WorkerKeepsTerms(maxRecords: nat, w: World, s: Step)
    requires Enabled(maxRecords, w, s)
    requires s.Submit? || s.Take? || s.Decide? || s.Start? || s.Settle? || s.SubmitFeedback? || s.GiveUp?
    ensures SameTerms(w, s, Apply(maxRecords, w, s))
  {
  }

  lemma DeliveryKeepsTerms(maxRecords: nat, w: World, s: Step)
    requires Enabled(maxRecords, w, s) && (s.Invoke? || s.Return? || s.Observe?)
    ensures SameTerms(w, s, Apply(maxRecords, w, s))
  {
  }

  lemma SavingKeepsTerms(maxRecords: nat, w: World, s: Step)
    requires Enabled(maxRecords, w, s) && (s.Persist? || s.RecordTiming? || s.PersistTiming?)
    ensures SameTerms(w, s, Apply(maxRecords, w, s))
  {
  }

  lemma QuietKeepsTerms(maxRecords: nat, w: World, s: Step)
    requires Enabled(maxRecords, w, s)
    requires s.Tick? || s.PruneCache? || s.Crash? || s.Load? || s.Recover? || s.Resume? || s.Announce?
    ensures SameTerms(w, s, Apply(maxRecords, w, s))
  {
  }

  lemma ReviewKeepsTerms(maxRecords: nat, w: World, s: Step)
    requires Enabled(maxRecords, w, s)
    requires s.BeginReview? || s.AppendReview? || s.RecordEvidence? || s.PersistEvidence?
    ensures SameTerms(w, s, Apply(maxRecords, w, s))
  {
    match s
    case BeginReview(call, id) =>
    case AppendReview(call, conclusion, allowRetry) =>
      assert AppendReviewSection(w, call, conclusion, allowRetry).histories == w.histories;
    case RecordEvidence(call) => assert RecordEvidenceSection(w, call).histories == w.histories;
    case PersistEvidence(call) => assert PersistEvidenceSection(w, call).histories == w.histories;
  }

  lemma StepKeepsTerms(maxRecords: nat, w: World, s: Step)
    requires Enabled(maxRecords, w, s) && !s.Admit? && !s.AdmitLegacy?
    ensures SameTerms(w, s, Apply(maxRecords, w, s))
  {
    if s.Submit? || s.Take? || s.Decide? || s.Start? || s.Settle? || s.SubmitFeedback? || s.GiveUp? {
      WorkerKeepsTerms(maxRecords, w, s);
    } else if s.Invoke? || s.Return? || s.Observe? {
      DeliveryKeepsTerms(maxRecords, w, s);
    } else if s.Persist? || s.RecordTiming? || s.PersistTiming? {
      SavingKeepsTerms(maxRecords, w, s);
    } else if s.Tick? || s.PruneCache? || s.Crash? || s.Load? || s.Recover? || s.Resume? || s.Announce? {
      QuietKeepsTerms(maxRecords, w, s);
    } else {
      ReviewKeepsTerms(maxRecords, w, s);
    }
  }

  lemma StepGrows(maxRecords: nat, w: World, s: Step)
    requires Enabled(maxRecords, w, s)
    ensures Grown(w, s, Apply(maxRecords, w, s))
  {
    if s.Admit? {
      if Inserts(maxRecords, w, s) { InsertsInto(maxRecords, w, s); } else { RepliesOnly(maxRecords, w, s); }
    } else if !s.AdmitLegacy? {
      StepKeepsTerms(maxRecords, w, s);
    }
  }

  ghost predicate GrownChain(ws: seq<World>, steps: seq<Step>) {
    |ws| == |steps| + 1 && forall k {:trigger steps[k]} :: 0 <= k < |steps| ==> Grown(ws[k], steps[k], ws[k + 1])
  }

  lemma RunGrows(maxRecords: nat, ws: seq<World>, steps: seq<Step>)
    requires Run(maxRecords, ws, steps)
    ensures GrownChain(ws, steps)
  {
    forall k | 0 <= k < |steps| ensures Grown(ws[k], steps[k], ws[k + 1]) { StepGrows(maxRecords, ws[k], steps[k]); }
  }

  /** Over a run deliveries and events of an admission are only ever appended. */
  lemma {:induction false} HistoriesGrow(ws: seq<World>, steps: seq<Step>, i: nat, j: nat, admission: nat)
    requires GrownChain(ws, steps) && i <= j < |ws| && admission < |ws[i].histories|
    ensures admission < |ws[j].histories| && Extends(ws[i].histories[admission], ws[j].histories[admission])
    decreases j
  {
    if i < j {
      HistoriesGrow(ws, steps, i, j - 1, admission);
      assert Grown(ws[j - 1], steps[j - 1], ws[j]);
    }
  }

  lemma OpenWindowIsLive(w: World, a: nat)
    requires WindowsOk(w) && a < |w.histories| && w.histories[a].key.Some?
    ensures w.now < w.histories[a].dedupUntil ==>
      && w.histories[a].key.value in LiveDedup(w.tables.dedup, w.now)
      && LiveDedup(w.tables.dedup, w.now)[w.histories[a].key.value].expiresAt == w.histories[a].dedupUntil
  {
  }

  lemma AcceptKeepsWindows(w: World, id: CommandId, row: Row, t: Tables, key: Option<IdempotencyKey>, dedupUntil: int)
    requires WindowsOk(w) && AdmittedInThePast(w)
    requires if key.None? then t.dedup == w.tables.dedup
             else key.value !in LiveDedup(w.tables.dedup, w.now)
                  && key.value in t.dedup && t.dedup[key.value].expiresAt == dedupUntil
                  && forall k :: k in LiveDedup(w.tables.dedup, w.now) ==>
                       k in t.dedup && t.dedup[k] == w.tables.dedup[k]
    ensures WindowsOk(Accept(w, id, row, t, key, dedupUntil))
  {
    var v := Accept(w, id, row, t, key, dedupUntil);
    forall a | 0 <= a < |v.histories| && v.histories[a].key.Some? && v.now < v.histories[a].dedupUntil
      ensures v.histories[a].key.value in v.tables.dedup
      ensures v.tables.dedup[v.histories[a].key.value].expiresAt == v.histories[a].dedupUntil
    {
      if a < |w.histories| { OpenWindowIsLive(w, a); }
    }
    forall a, b | 0 <= a < b < |v.histories| && v.histories[a].key.Some? && v.histories[b].key == v.histories[a].key
      ensures v.histories[a].dedupUntil <= v.histories[b].admittedAt
    {
      if b == |w.histories| { OpenWindowIsLive(w, a); }
    }
  }

  lemma CleanupKeepsWindows(w: World, t: Tables, cache: map<CommandId, Row>)
    requires WindowsOk(w) && (t.dedup == w.tables.dedup || t.dedup == LiveDedup(w.tables.dedup, w.now))
    ensures WindowsOk(w.(tables := t, cache := cache))
  {
    var v := w.(tables := t, cache := cache);
    forall a | 0 <= a < |v.histories| && v.histories[a].key.Some? && v.now < v.histories[a].dedupUntil
      ensures v.histories[a].key.value in v.tables.dedup
      ensures v.tables.dedup[v.histories[a].key.value].expiresAt == v.histories[a].dedupUntil
    {
      OpenWindowIsLive(w, a);
    }
  }

  lemma TransactionDedup(maxRecords: nat, w: World, s: Step)
    requires s.Admit?
    ensures var live, (t, outcome) := LiveDedup(w.tables.dedup, w.now), Transaction(maxRecords, w, s);
      && (outcome != Inserted ==> t.dedup == w.tables.dedup || t.dedup == live)
      && (outcome == Inserted ==>
            && s.key !in live && s.key in t.dedup && t.dedup[s.key].expiresAt == s.dedupUntil
            && forall k :: k in live ==> k in t.dedup && t.dedup[k] == w.tables.dedup[k])
  {
  }

  lemma AdmitKeepsWindows(maxRecords: nat, w: World, s: Step)
    requires WindowsOk(w) && AdmittedInThePast(w) && s.Admit? && Enabled(maxRecords, w, s)
    ensures WindowsOk(AdmitSection(maxRecords, w, s))
  {
    var v := AdmitSection(maxRecords, w, s);
    TransactionDedup(maxRecords, w, s);
    if Inserts(maxRecords, w, s) {
      InsertsInto(maxRecords, w, s);
      var row := Row(s.fingerprint, InitialCommand(s.deviceId, s.action, w.now, s.ttl));
      AcceptKeepsWindows(w, s.id, row, Transaction(maxRecords, w, s).0, Some(s.key), s.dedupUntil);
    } else {
      RepliesOnly(maxRecords, w, s);
      CleanupKeepsWindows(w, AnsweredTables(maxRecords, w, s), v.cache);
    }
  }

  lemma AdmitLegacyKeepsWindows(w: World, s: Step)
    requires WindowsOk(w) && AdmittedInThePast(w) && s.AdmitLegacy?
    ensures WindowsOk(AdmitLegacySection(w, s))
  {
    if s.id in w.cache || s.id in w.tables.commands {
      CleanupKeepsWindows(w, w.tables, AdmitLegacySection(w, s).cache);
    } else {
      var row := Row(s.fingerprint, InitialCommand(s.deviceId, s.action, w.now, s.ttl));
      AcceptKeepsWindows(w, s.id, row, InsertSpec(w.tables, s.id, s.fingerprint, row.command, s.victims), None, 0);
    }
  }

  lemma SameTermsKeepWindows(w: World, s: Step, v: World)
    requires WindowsOk(w) && SameTerms(w, s, v)
    ensures WindowsOk(v)
  {
    forall a, b | 0 <= a < b < |v.histories| && SameKey(v.histories[a], v.histories[b])
      ensures v.histories[a].dedupUntil <= v.histories[b].admittedAt
    {
      assert SameKey(w.histories[a], w.histories[b]);
    }
  }

  lemma StepKeepsWindows(maxRecords: nat, w: World, s: Step)
    requires WindowsOk(w) && AdmittedInThePast(w) && Enabled(maxRecords, w, s)
    ensures WindowsOk(Apply(maxRecords, w, s))
  {
    if s.Admit? {
      AdmitKeepsWindows(maxRecords, w, s);
    } else if s.AdmitLegacy? {
      AdmitLegacyKeepsWindows(w, s);
    } else {
      StepKeepsTerms(maxRecords, w, s);
      SameTermsKeepWindows(w, s, Apply(maxRecords, w, s));
    }
  }

  lemma HistoriesInThePast(w: World)
    requires Inv(w)
    ensures AdmittedInThePast(w)
  {
    assert forall a :: 0 <= a < |w.histories| ==> HistoryOk(w.histories[a], w.now);
  }

  lemma {:induction false} RunWindows(maxRecords: nat, ws: seq<World>, steps: seq<Step>, i: nat)
    requires Run(maxRecords, ws, steps) && i < |ws|
    ensures WindowsOk(ws[i])
  {
    if i > 0 {
      RunWindows(maxRecords, ws, steps, i - 1);
      RunInv(maxRecords, ws, steps, i - 1);
      HistoriesInThePast(ws[i - 1]);
      StepKeepsWindows(maxRecords, ws[i - 1], steps[i - 1]);
      assert ws[i - 1 + 1] == Apply(maxRecords, ws[i - 1], steps[i - 1]);
    }
  }

  /** One idempotency key, one physical action: across crashes, restarts and pruning, a second admission under the
      same key happens only after the first one's window has closed, and each of them invokes the adapter at most
      once. */
  lemma OneActionPerKeyWindow(maxRecords: nat, ws: seq<World>, steps: seq<Step>, i: nat, a: nat, b: nat)
    requires Run(maxRecords, ws, steps) && i < |ws| && a < b < |ws[i].histories|
    requires ws[i].histories[a].key.Some? && ws[i].histories[b].key == ws[i].histories[a].key
    ensures ws[i].histories[a].dedupUntil <= ws[i].histories[b].admittedAt
    ensures AtMostOneInvocation(ws[i].histories[a].log) && AtMostOneInvocation(ws[i].histories[b].log)
  {
    RunWindows(maxRecords, ws, steps, i);
    RunInv(maxRecords, ws, steps, i);
  }
}
