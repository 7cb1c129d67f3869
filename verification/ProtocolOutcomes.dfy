/** What the ledger says of a command over any run, also one in which a repeated request copies a lagging row over
    memory: certain outcomes are final, an unknown one stays until the one write that can lose it, and clients are
    told the same. */
module ProtocolOutcomes {
  import opened Basics
  import opened CommandTypes
  import opened CommandLedger
  import opened CommandProtocol
  import opened ProtocolSafety
  import opened ProtocolTheorems

  /** A review saves its evidence, and the record it had added it to no longer showed the unknown outcome of `id`. */
  predicate StaleEvidence(w: World, s: Step, id: CommandId) {
    && s.PersistEvidence? && s.call in w.reviews && w.reviews[s.call].Unsaved? && w.reviews[s.call].id == id
    && w.reviews[s.call].snapshot.state != OutcomeUnknown
  }

  // ------------------------------------------------------------ one ledger row

  predicate SameRow(w: World, v: World, id: CommandId) {
    id in w.tables.commands && id in v.tables.commands && v.tables.commands[id] == w.tables.commands[id]
  }

  predicate SameAdmission(w: World, v: World, id: CommandId) {
    id in w.owner && id in v.owner && v.owner[id] == w.owner[id]
  }

  predicate Unknown(w: World, id: CommandId) {
    id in w.tables.commands && w.tables.commands[id].command.state == OutcomeUnknown
  }

  predicate Decided(w: World, id: CommandId) {
    id in w.tables.commands && Prunable(w.tables.commands[id].command.state)
  }

  /** What a step makes of one row: it appears together with its thread; as long as it stays it belongs to the same
      admission; a certain outcome stays with the whole row; an unknown one stays unless stale evidence is written
      over it. */
  predicate RowStep(w: World, s: Step, v: World, id: CommandId) {
    && (id !in w.tables.commands && id in v.tables.commands ==> id in v.tasks)
    && (id in w.tables.commands && id in v.tables.commands ==> SameAdmission(w, v, id))
    && (Decided(w, id) && id in v.tables.commands ==> SameRow(w, v, id))
    && (Unknown(w, id) ==> id in v.tables.commands && (Unknown(v, id) <==> !StaleEvidence(w, s, id)))
  }

  lemma RowUntouched(w: World, s: Step, v: World, id: CommandId)
    requires Inv(w) && v.tables.commands == w.tables.commands && v.owner == w.owner && !StaleEvidence(w, s, id)
    ensures RowStep(w, s, v, id)
  {
    assert CommandOk(w, id);
  }

  lemma WorkerLeavesRows(maxRecords: nat, w: World, s: Step)
    requires Enabled(maxRecords, w, s)
    requires s.Submit? || s.Take? || s.Decide? || s.Start? || s.Settle? || s.SubmitFeedback? || s.GiveUp?
    ensures Apply(maxRecords, w, s).tables == w.tables && Apply(maxRecords, w, s).owner == w.owner
  {
  }

  lemma AdapterLeavesRows(maxRecords: nat, w: World, s: Step)
    requires Enabled(maxRecords, w, s)
    requires s.Invoke? || s.Return? || s.RecordTiming? || s.Observe?
    ensures Apply(maxRecords, w, s).tables == w.tables && Apply(maxRecords, w, s).owner == w.owner
  {
  }

  lemma ReviewLeavesRows(w: World, call: nat, conclusion: Conclusion, allowRetry: bool)
    requires call in w.reviews
    ensures RecordEvidenceSection(w, call).tables == w.tables && RecordEvidenceSection(w, call).owner == w.owner
    ensures AppendReviewSection(w, call, conclusion, allowRetry).tables.commands == w.tables.commands
    ensures AppendReviewSection(w, call, conclusion, allowRetry).owner == w.owner
  {
  }

  lemma QuietLeavesRows(maxRecords: nat, w: World, s: Step)
    requires Enabled(maxRecords, w, s)
    requires s.Tick? || s.PruneCache? || s.Crash? || s.Load? || s.Resume? || s.BeginReview? || s.Announce?
    ensures Apply(maxRecords, w, s).tables == w.tables && Apply(maxRecords, w, s).owner == w.owner
  {
  }

  lemma ThreadSavesRow(w: World, s: Step, id: CommandId)
    requires Inv(w) && w.running && (s.Persist? || s.PersistTiming?)
    requires s.id in w.tasks && s.id in w.tables.commands && Owned(w, s.id)
    requires if s.Persist? then w.tasks[s.id].Saving? else w.tasks[s.id].SavingTiming?
    ensures RowStep(w, s, if s.Persist? then PersistSection(w, s.id) else PersistTimingSection(w, s.id), id)
  {
    assert CommandOk(w, s.id) && CommandOk(w, id);
  }

  lemma RecoverySavesRow(w: World, s: Step, id: CommandId)
    requires Inv(w) && s.Recover? && s.id in w.tables.commands && !Terminal(w.tables.commands[s.id].command.state)
    ensures RowStep(w, s, RecoverSection(w, s.id), id)
  {
    assert CommandOk(w, id);
  }

  lemma ReviewSavesRow(w: World, s: Step, id: CommandId)
    requires Inv(w) && s.PersistEvidence? && s.call in w.reviews && w.reviews[s.call].Unsaved?
    requires w.reviews[s.call].id in w.tables.commands
    ensures RowStep(w, s, PersistEvidenceSection(w, s.call), id)
  {
    assert CommandOk(w, id) && ReviewOk(w, s.call);
  }

  lemma AcceptedRows(w: World, s: Step, row: Row, t: Tables, key: Option<IdempotencyKey>, dedupUntil: int,
                     id: CommandId)
    requires Inv(w) && (s.Admit? || s.AdmitLegacy?) && s.id !in w.tables.commands && AcceptedInto(w, s.id, row, t)
    ensures RowStep(w, s, Accept(w, s.id, row, t, key, dedupUntil), id)
  {
    assert CommandOk(w, id);
  }

  lemma RepliedRow(w: World, s: Step, v: World, id: CommandId)
    requires Inv(w) && s.Admit? && v.tables.commands == w.tables.commands && v.owner == w.owner
    ensures RowStep(w, s, v, id)
  {
    RowUntouched(w, s, v, id);
  }

  lemma AdmitRow(maxRecords: nat, w: World, s: Step, id: CommandId)
    requires Inv(w) && s.Admit? && Enabled(maxRecords, w, s)
    ensures RowStep(w, s, AdmitSection(maxRecords, w, s), id)
  {
    if Inserts(maxRecords, w, s) {
      InsertsInto(maxRecords, w, s);
      var row := Row(s.fingerprint, InitialCommand(s.deviceId, s.action, w.now, s.ttl));
      AcceptedRows(w, s, row, Transaction(maxRecords, w, s).0, Some(s.key), s.dedupUntil, id);
    } else {
      RepliesOnly(maxRecords, w, s);
      RepliedRow(w, s, AdmitSection(maxRecords, w, s), id);
    }
  }

  lemma AdmitLegacyRow(maxRecords: nat, w: World, s: Step, id: CommandId)
    requires Inv(w) && s.AdmitLegacy? && Enabled(maxRecords, w, s)
    ensures RowStep(w, s, AdmitLegacySection(w, s), id)
  {
    if s.id in w.cache || s.id in w.tables.commands {
      RowUntouched(w, s, AdmitLegacySection(w, s), id);
    } else {
      var c := InitialCommand(s.deviceId, s.action, w.now, s.ttl);
      var grown := w.tables.commands[s.id := Row(s.fingerprint, c)];
      assert s.victims <= PrunableIds(grown);
      var t := InsertSpec(w.tables, s.id, s.fingerprint, c, s.victims);
      AcceptedRows(w, s, Row(s.fingerprint, c), t, None, 0, id);
    }
  }

  /** All other sections leave the commands alone. */
  lemma OthersLeaveRows(maxRecords: nat, w: World, s: Step)
    requires Enabled(maxRecords, w, s) && !s.Admit? && !s.AdmitLegacy?
    requires !s.Persist? && !s.PersistTiming? && !s.Recover? && !s.PersistEvidence?
    ensures Apply(maxRecords, w, s).tables.commands == w.tables.commands && Apply(maxRecords, w, s).owner == w.owner
    ensures !s.AppendReview? ==> Apply(maxRecords, w, s).tables == w.tables
  {
    if s.Submit? || s.Take? || s.Decide? || s.Start? || s.Settle? || s.SubmitFeedback? || s.GiveUp? {
      WorkerLeavesRows(maxRecords, w, s);
    } else if s.Tick? || s.PruneCache? || s.Crash? || s.Load? || s.Resume? || s.BeginReview? || s.Announce? {
      QuietLeavesRows(maxRecords, w, s);
    } else if s.Invoke? || s.Return? || s.RecordTiming? || s.Observe? {
      AdapterLeavesRows(maxRecords, w, s);
    } else if s.RecordEvidence? {
      ReviewLeavesRows(w, s.call, Inconclusive, false);
    } else {
      ReviewLeavesRows(w, s.call, s.conclusion, s.allowRetry);
    }
  }

  lemma StepRow(maxRecords: nat, w: World, s: Step, id: CommandId)
    requires Inv(w) && Enabled(maxRecords, w, s)
    ensures RowStep(w, s, Apply(maxRecords, w, s), id)
  {
    if s.Admit? {
      AdmitRow(maxRecords, w, s, id);
    } else if s.AdmitLegacy? {
      AdmitLegacyRow(maxRecords, w, s, id);
    } else if s.Persist? || s.PersistTiming? {
      LiveRecord(w, s.id);
      ThreadSavesRow(w, s, id);
    } else if s.Recover? {
      RecoverySavesRow(w, s, id);
    } else if s.PersistEvidence? {
      ReviewSavesRow(w, s, id);
    } else {
      OthersLeaveRows(maxRecords, w, s);
      RowUntouched(w, s, Apply(maxRecords, w, s), id);
    }
  }

  // ------------------------------------------------------------- whole runs

  ghost predicate RowChain(ws: seq<World>, steps: seq<Step>, id: CommandId) {
    |ws| == |steps| + 1 && forall k {:trigger steps[k]} :: 0 <= k < |steps| ==> RowStep(ws[k], steps[k], ws[k + 1], id)
  }

  lemma RunRows(maxRecords: nat, ws: seq<World>, steps: seq<Step>, id: CommandId)
    requires Run(maxRecords, ws, steps)
    ensures RowChain(ws, steps, id)
  {
    forall k | 0 <= k < |steps| ensures RowStep(ws[k], steps[k], ws[k + 1], id) {
      RunInv(maxRecords, ws, steps, k);
      StepRow(maxRecords, ws[k], steps[k], id);
    }
  }

  /** The row of `id` is never absent from the i-th to the j-th world. */
  predicate Present(ws: seq<World>, i: nat, j: nat, id: CommandId)
    requires i <= j < |ws|
  {
    forall k :: i <= k <= j ==> id in ws[k].tables.commands
  }

  lemma {:induction false} ChainKeepsRow(ws: seq<World>, steps: seq<Step>, i: nat, j: nat, id: CommandId)
    requires RowChain(ws, steps, id) && i <= j < |ws| && Present(ws, i, j, id) && id in ws[i].owner
    ensures SameAdmission(ws[i], ws[j], id)
    ensures Decided(ws[i], id) ==> SameRow(ws[i], ws[j], id)
    decreases j
  {
    if i < j {
      ChainKeepsRow(ws, steps, i, j - 1, id);
      assert RowStep(ws[j - 1], steps[j - 1], ws[j], id);
    }
  }

  /** A certain outcome in the ledger is final: as long as the row exists nothing of it ever changes, in any run. */
  lemma TerminalStateFinal(maxRecords: nat, ws: seq<World>, steps: seq<Step>, i: nat, j: nat, id: CommandId)
    requires Run(maxRecords, ws, steps) && i <= j < |ws| && Present(ws, i, j, id)
    requires Prunable(ws[i].tables.commands[id].command.state)
    ensures ws[j].tables.commands[id] == ws[i].tables.commands[id]
  {
    RunInv(maxRecords, ws, steps, i);
    assert CommandOk(ws[i], id);
    RunRows(maxRecords, ws, steps, id);
    ChainKeepsRow(ws, steps, i, j, id);
  }

  /** The step hands command `id` to the adapter. */
  predicate Delivers(w: World, s: Step, id: CommandId) {
    s.Invoke? && s.id == id && !w.quarantined && !s.unsafeDriver
  }

  lemma DeliveryLogged(maxRecords: nat, w: World, s: Step, id: CommandId)
    requires Inv(w) && Enabled(maxRecords, w, s) && Delivers(w, s, id)
    ensures Owned(w, id) && w.histories[w.owner[id]].log == []
    ensures var v := Apply(maxRecords, w, s);
      SameAdmission(w, v, id) && Owned(v, id) && v.histories[v.owner[id]].log != []
  {
    assert CommandOk(w, id);
  }

  /** Nothing is sent twice: while its ledger row exists a command is handed to the adapter at most once, whatever
      copies, crashes, restarts and repeated requests come in between. */
  lemma DeliveredOncePerRow(maxRecords: nat, ws: seq<World>, steps: seq<Step>, i: nat, j: nat, id: CommandId)
    requires Run(maxRecords, ws, steps) && i < j < |steps| && Present(ws, i, j, id)
    requires Delivers(ws[i], steps[i], id)
    ensures !Delivers(ws[j], steps[j], id)
    ensures SameAdmission(ws[i], ws[j], id)
  {
    RunInv(maxRecords, ws, steps, i);
    DeliveryLogged(maxRecords, ws[i], steps[i], id);
    RunRows(maxRecords, ws, steps, id);
    ChainKeepsRow(ws, steps, i, j, id);
    assert RowStep(ws[i], steps[i], ws[i + 1], id);
    RunGrows(maxRecords, ws, steps);
    HistoriesGrow(ws, steps, i + 1, j, ws[i].owner[id]);
    RunInv(maxRecords, ws, steps, j);
    if Delivers(ws[j], steps[j], id) { DeliveryLogged(maxRecords, ws[j], steps[j], id); }
  }

  // --------------------------------------------------------- unknown outcomes

  /** An unknown outcome is lost by exactly one kind of step: a review that saves evidence over it which it had added
      to a record that a stale copy had made to look undecided. No other section of any thread, no prune, no crash
      and no restart loses it. */
  lemma UnknownLostExactly(maxRecords: nat, ws: seq<World>, steps: seq<Step>, k: nat, id: CommandId)
    requires Run(maxRecords, ws, steps) && k < |steps| && Unknown(ws[k], id)
    ensures id in ws[k + 1].tables.commands && SameAdmission(ws[k], ws[k + 1], id)
    ensures ws[k + 1].tables.commands[id].command.state != OutcomeUnknown <==> StaleEvidence(ws[k], steps[k], id)
  {
    RunRows(maxRecords, ws, steps, id);
    assert RowStep(ws[k], steps[k], ws[k + 1], id);
  }

  /** Between the i-th and the j-th world no stale evidence is saved for the command. */
  predicate Undisturbed(ws: seq<World>, steps: seq<Step>, i: nat, j: nat, id: CommandId)
    requires i <= j <= |steps| < |ws|
  {
    forall k :: i <= k < j ==> !StaleEvidence(ws[k], steps[k], id)
  }

  lemma {:induction false} ChainKeepsUnknown(ws: seq<World>, steps: seq<Step>, i: nat, j: nat, id: CommandId)
    requires RowChain(ws, steps, id) && i <= j < |ws| && Unknown(ws[i], id) && id in ws[i].owner
    requires Undisturbed(ws, steps, i, j, id)
    ensures Unknown(ws[j], id) && Present(ws, i, j, id) && SameAdmission(ws[i], ws[j], id)
    decreases j
  {
    if i < j {
      ChainKeepsUnknown(ws, steps, i, j - 1, id);
      assert RowStep(ws[j - 1], steps[j - 1], ws[j], id);
    }
  }

  // ------------------------------------------------------ what a command asks

  /** All versions of a command, in the ledger, in memory and about to be saved, ask for the same device action until
      the same deadline. */
  ghost predicate OneTarget(w: World, id: CommandId) {
    id in w.tables.commands ==>
      var row := w.tables.commands[id].command;
      && (id in w.cache ==> SameTarget(row, w.cache[id].command))
      && (id in w.tasks && w.tasks[id].Saving? ==> SameTarget(row, w.tasks[id].snapshot))
      && (id in w.tasks && w.tasks[id].SavingTiming? ==> SameTarget(row, w.tasks[id].snapshot))
      && (forall call :: call in w.reviews && w.reviews[call].Unsaved? && w.reviews[call].id == id ==>
            SameTarget(row, w.reviews[call].snapshot))
  }

  ghost predicate KeepsTarget(w: World, v: World, id: CommandId) {
    && OneTarget(v, id)
    && (id in w.tables.commands && id in v.tables.commands ==>
          SameTarget(w.tables.commands[id].command, v.tables.commands[id].command))
  }

  lemma BeginKeepsTarget(w: World, x: CommandId, state: CommandState, seqNo: nat, id: CommandId)
    requires OneTarget(w, id) && x in w.cache
    ensures KeepsTarget(w, Begin(w, x, state, seqNo), id)
  {
  }

  /** No record is written; some may be forgotten. */
  ghost predicate NoNewRecord(w: World, v: World) {
    && v.tables.commands == w.tables.commands
    && (forall x :: x in v.cache ==> x in w.cache && v.cache[x] == w.cache[x])
    && (forall x :: x in v.tasks && (v.tasks[x].Saving? || v.tasks[x].SavingTiming?) ==>
          x in w.tasks && v.tasks[x] == w.tasks[x])
    && (forall call :: call in v.reviews && v.reviews[call].Unsaved? ==>
          call in w.reviews && v.reviews[call] == w.reviews[call])
  }

  lemma NothingNew(w: World, v: World, id: CommandId)
    requires OneTarget(w, id) && NoNewRecord(w, v)
    ensures KeepsTarget(w, v, id)
  {
  }

  lemma WorkerKeepsTarget(maxRecords: nat, w: World, s: Step, id: CommandId)
    requires OneTarget(w, id) && Enabled(maxRecords, w, s)
    requires s.Submit? || s.Take? || s.Decide? || s.Start? || s.Settle? || s.SubmitFeedback? || s.GiveUp?
    ensures KeepsTarget(w, Apply(maxRecords, w, s), id)
  {
    match s
    case Submit(x, accepted) =>
      if accepted {
        NothingNew(w, w.(tasks := w.tasks[x := Queued]), id);
      } else {
        BeginKeepsTarget(w, x, Rejected, 1, id);
      }
    case Take(x) => BeginKeepsTarget(w, x, Received, 1, id);
    case Decide(x, domainReady) => BeginKeepsTarget(w, x, Decision(w, x, domainReady), 2, id);
    case Start(x) => BeginKeepsTarget(w, x, Executing, 3, id);
    case Settle(x) => BeginKeepsTarget(w, x, Settlement(w.tasks[x].certainty), 4, id);
    case SubmitFeedback(x, accepted) =>
      if accepted {
        NothingNew(w, w.(tasks := w.tasks[x := Monitoring]), id);
      } else {
        BeginKeepsTarget(w, x, OutcomeUnknown, 5, id);
      }
    case GiveUp(x) => BeginKeepsTarget(w, x, OutcomeUnknown, 5, id);
  }

  lemma ObserveKeepsTarget(w: World, x: CommandId, f: Feedback, id: CommandId)
    requires OneTarget(w, id) && Owned(w, x) && (f != Pending ==> CanBegin(w, x, Verdict(f)))
    ensures KeepsTarget(w, ObserveSection(w, x, f), id)
  {
    if f == Pending {
      NothingNew(w, ObserveSection(w, x, f), id);
    } else {
      BeginKeepsTarget(w, x, Verdict(f), 5, id);
    }
  }

  lemma AdapterKeepsTarget(maxRecords: nat, w: World, s: Step, id: CommandId)
    requires OneTarget(w, id) && Enabled(maxRecords, w, s) && (s.Invoke? || s.Return? || s.Observe?)
    ensures KeepsTarget(w, Apply(maxRecords, w, s), id)
  {
    match s
    case Invoke(x, unsafeDriver) => NothingNew(w, InvokeSection(w, x, unsafeDriver), id);
    case Return(x, c, violated) => NothingNew(w, ReturnSection(w, x, c, violated), id);
    case Observe(x, f) => ObserveKeepsTarget(w, x, f, id);
  }

  lemma SavingKeepsTarget(maxRecords: nat, w: World, s: Step, id: CommandId)
    requires Inv(w) && OneTarget(w, id) && Enabled(maxRecords, w, s)
    requires s.Persist? || s.RecordTiming? || s.PersistTiming?
    ensures KeepsTarget(w, Apply(maxRecords, w, s), id)
  {
    LiveRecord(w, s.id);
  }

  lemma RecoverKeepsTarget(w: World, x: CommandId, id: CommandId)
    requires OneTarget(w, id) && x in w.tables.commands
    ensures KeepsTarget(w, RecoverSection(w, x), id)
  {
    assert SameTarget(w.tables.commands[x].command, Recovered(w.tables.commands[x].command, w.now));
  }

  lemma QuietKeepsTarget(maxRecords: nat, w: World, s: Step, id: CommandId)
    requires OneTarget(w, id) && Enabled(maxRecords, w, s)
    requires s.Tick? || s.PruneCache? || s.Crash? || s.Resume? || s.BeginReview? || s.AppendReview? || s.Announce?
    ensures KeepsTarget(w, Apply(maxRecords, w, s), id)
  {
    NothingNew(w, Apply(maxRecords, w, s), id);
  }

  lemma RecordEvidenceKeepsTarget(w: World, call: nat, id: CommandId)
    requires OneTarget(w, id) && call in w.reviews
    ensures KeepsTarget(w, RecordEvidenceSection(w, call), id)
  {
  }

  lemma PersistEvidenceKeepsTarget(w: World, call: nat, id: CommandId)
    requires OneTarget(w, id) && call in w.reviews && w.reviews[call].Unsaved?
    requires w.reviews[call].id in w.tables.commands
    ensures KeepsTarget(w, PersistEvidenceSection(w, call), id)
  {
  }

  lemma AcceptKeepsTarget(w: World, added: CommandId, row: Row, t: Tables, key: Option<IdempotencyKey>,
                          dedupUntil: int, id: CommandId)
    requires Inv(w) && OneTarget(w, id) && added !in w.tables.commands && AcceptedInto(w, added, row, t)
    ensures KeepsTarget(w, Accept(w, added, row, t, key, dedupUntil), id)
  {
    assert forall call :: call in w.reviews ==> ReviewOk(w, call);
  }

  /** Memory takes over ledger rows. */
  predicate CopiesRows(w: World, cache: map<CommandId, Row>) {
    forall x :: x in cache ==>
      (x in w.cache && cache[x] == w.cache[x]) || (x in w.tables.commands && cache[x] == w.tables.commands[x])
  }

  lemma CopyKeepsTarget(w: World, t: Tables, cache: map<CommandId, Row>, id: CommandId)
    requires OneTarget(w, id) && t.commands == w.tables.commands && CopiesRows(w, cache)
    ensures KeepsTarget(w, w.(tables := t, cache := cache), id)
  {
  }

  lemma AdmitCopies(maxRecords: nat, w: World, s: Step)
    requires s.Admit? && !Inserts(maxRecords, w, s)
    ensures CopiesRows(w, AdmitSection(maxRecords, w, s).cache)
  {
    if !s.held && s.id !in w.cache && s.id !in w.tables.commands { TransactionAnswers(maxRecords, w, s); }
  }

  lemma AdmitKeepsTarget(maxRecords: nat, w: World, s: Step, id: CommandId)
    requires Inv(w) && OneTarget(w, id) && Enabled(maxRecords, w, s) && s.Admit?
    ensures KeepsTarget(w, AdmitSection(maxRecords, w, s), id)
  {
    if Inserts(maxRecords, w, s) {
      InsertsInto(maxRecords, w, s);
      var row := Row(s.fingerprint, InitialCommand(s.deviceId, s.action, w.now, s.ttl));
      AcceptKeepsTarget(w, s.id, row, Transaction(maxRecords, w, s).0, Some(s.key), s.dedupUntil, id);
    } else {
      RepliesOnly(maxRecords, w, s);
      AdmitCopies(maxRecords, w, s);
      CopyKeepsTarget(w, AnsweredTables(maxRecords, w, s), AdmitSection(maxRecords, w, s).cache, id);
    }
  }

  lemma AdmitLegacyKeepsTarget(maxRecords: nat, w: World, s: Step, id: CommandId)
    requires Inv(w) && OneTarget(w, id) && Enabled(maxRecords, w, s) && s.AdmitLegacy?
    ensures KeepsTarget(w, AdmitLegacySection(w, s), id)
  {
    if s.id in w.cache || s.id in w.tables.commands {
      CopyKeepsTarget(w, w.tables, AdmitLegacySection(w, s).cache, id);
    } else {
      var row := Row(s.fingerprint, InitialCommand(s.deviceId, s.action, w.now, s.ttl));
      var grown := w.tables.commands[s.id := row];
      assert s.victims <= PrunableIds(grown);
      AcceptKeepsTarget(w, s.id, row, InsertSpec(w.tables, s.id, s.fingerprint, row.command, s.victims), None, 0, id);
    }
  }

  lemma StepKeepsTarget(maxRecords: nat, w: World, s: Step, id: CommandId)
    requires Inv(w) && OneTarget(w, id) && Enabled(maxRecords, w, s)
    ensures KeepsTarget(w, Apply(maxRecords, w, s), id)
  {
    if s.Admit? {
      AdmitKeepsTarget(maxRecords, w, s, id);
    } else if s.AdmitLegacy? {
      AdmitLegacyKeepsTarget(maxRecords, w, s, id);
    } else if s.Submit? || s.Take? || s.Decide? || s.Start? || s.Settle? || s.SubmitFeedback? || s.GiveUp? {
      WorkerKeepsTarget(maxRecords, w, s, id);
    } else if s.Invoke? || s.Return? || s.Observe? {
      AdapterKeepsTarget(maxRecords, w, s, id);
    } else if s.Persist? || s.RecordTiming? || s.PersistTiming? {
      SavingKeepsTarget(maxRecords, w, s, id);
    } else if s.Load? {
      CopyKeepsTarget(w, w.tables, w.cache[s.id := w.tables.commands[s.id]], id);
    } else if s.Recover? {
      RecoverKeepsTarget(w, s.id, id);
    } else if s.RecordEvidence? {
      RecordEvidenceKeepsTarget(w, s.call, id);
    } else if s.PersistEvidence? {
      PersistEvidenceKeepsTarget(w, s.call, id);
    } else {
      QuietKeepsTarget(maxRecords, w, s, id);
    }
  }

  lemma {:induction false} RunOneTarget(maxRecords: nat, ws: seq<World>, steps: seq<Step>, i: nat, id: CommandId)
    requires Run(maxRecords, ws, steps) && i < |ws|
    ensures OneTarget(ws[i], id)
  {
    if i > 0 {
      RunOneTarget(maxRecords, ws, steps, i - 1, id);
      RunInv(maxRecords, ws, steps, i - 1);
      StepKeepsTarget(maxRecords, ws[i - 1], steps[i - 1], id);
      assert ws[i - 1 + 1] == Apply(maxRecords, ws[i - 1], steps[i - 1]);
    }
  }

  ghost predicate TargetChain(ws: seq<World>, id: CommandId) {
    forall k :: 0 <= k < |ws| - 1 ==> KeepsTarget(ws[k], ws[k + 1], id)
  }

  lemma RunKeepsTarget(maxRecords: nat, ws: seq<World>, steps: seq<Step>, id: CommandId)
    requires Run(maxRecords, ws, steps)
    ensures TargetChain(ws, id)
  {
    forall k | 0 <= k < |ws| - 1 ensures KeepsTarget(ws[k], ws[k + 1], id) {
      RunInv(maxRecords, ws, steps, k);
      RunOneTarget(maxRecords, ws, steps, k, id);
      StepKeepsTarget(maxRecords, ws[k], steps[k], id);
    }
  }

  lemma {:induction false} TargetStays(ws: seq<World>, i: nat, j: nat, id: CommandId)
    requires TargetChain(ws, id) && i <= j < |ws| && Present(ws, i, j, id)
    ensures SameTarget(ws[i].tables.commands[id].command, ws[j].tables.commands[id].command)
    decreases j
  {
    if i < j {
      TargetStays(ws, i, j - 1, id);
      assert KeepsTarget(ws[j - 1], ws[j - 1 + 1], id);
    }
  }

  /** An unknown outcome survives every later step, prune, crash and restart, as the same admission for the same
      device action and with the same deadline, for exactly as long as no stale evidence is saved over it. */
  lemma UnknownOutcomeSurvives(maxRecords: nat, ws: seq<World>, steps: seq<Step>, i: nat, j: nat, id: CommandId)
    requires Run(maxRecords, ws, steps) && i <= j < |ws| && Unknown(ws[i], id)
    ensures (forall k :: i <= k <= j ==> Unknown(ws[k], id)) <==> Undisturbed(ws, steps, i, j, id)
    ensures Undisturbed(ws, steps, i, j, id) ==>
      && Unknown(ws[j], id) && SameAdmission(ws[i], ws[j], id)
      && SameTarget(ws[i].tables.commands[id].command, ws[j].tables.commands[id].command)
  {
    RunInv(maxRecords, ws, steps, i);
    assert CommandOk(ws[i], id);
    RunRows(maxRecords, ws, steps, id);
    RunKeepsTarget(maxRecords, ws, steps, id);
    if Undisturbed(ws, steps, i, j, id) {
      forall k | i <= k <= j ensures Unknown(ws[k], id) { ChainKeepsUnknown(ws, steps, i, k, id); }
      ChainKeepsUnknown(ws, steps, i, j, id);
      TargetStays(ws, i, j, id);
    } else {
      var k :| i <= k < j && StaleEvidence(ws[k], steps[k], id);
      assert RowStep(ws[k], steps[k], ws[k + 1], id);
      assert !(Unknown(ws[k], id) && Unknown(ws[k + 1], id));
    }
  }

  // --------------------------------------------------- blocking and release

  ghost predicate RetryNeedsConclusion(w: World) {
    forall r :: r in w.tables.reconciliations && r.allowRetry ==> r.conclusion != Inconclusive
  }

  lemma AdmitAppendsNoReview(maxRecords: nat, w: World, s: Step)
    requires Enabled(maxRecords, w, s) && (s.Admit? || s.AdmitLegacy?)
    ensures Apply(maxRecords, w, s).tables.reconciliations == w.tables.reconciliations
  {
    if s.Admit? {
      if Inserts(maxRecords, w, s) { InsertsInto(maxRecords, w, s); } else { RepliesOnly(maxRecords, w, s); }
    }
  }

  lemma SavingAppendsNoReview(maxRecords: nat, w: World, s: Step)
    requires Enabled(maxRecords, w, s) && (s.Persist? || s.PersistTiming? || s.Recover? || s.PersistEvidence?)
    ensures Apply(maxRecords, w, s).tables.reconciliations == w.tables.reconciliations
  {
  }

  lemma StepKeepsConclusions(maxRecords: nat, w: World, s: Step)
    requires RetryNeedsConclusion(w) && Enabled(maxRecords, w, s)
    ensures RetryNeedsConclusion(Apply(maxRecords, w, s))
  {
    if s.Admit? || s.AdmitLegacy? {
      AdmitAppendsNoReview(maxRecords, w, s);
    } else if s.Persist? || s.PersistTiming? || s.Recover? || s.PersistEvidence? {
      SavingAppendsNoReview(maxRecords, w, s);
    } else if !s.AppendReview? {
      OthersLeaveRows(maxRecords, w, s);
    }
  }

  lemma {:induction false} RunConclusions(maxRecords: nat, ws: seq<World>, steps: seq<Step>, i: nat)
    requires Run(maxRecords, ws, steps) && i < |ws|
    ensures RetryNeedsConclusion(ws[i])
  {
    if i > 0 {
      RunConclusions(maxRecords, ws, steps, i - 1);
      StepKeepsConclusions(maxRecords, ws[i - 1], steps[i - 1]);
      assert ws[i - 1 + 1] == Apply(maxRecords, ws[i - 1], steps[i - 1]);
    }
  }

  /** What an unresolved command holds back: a request for its device action, unless a newest reconciliation of it
      allows a retry. */
  lemma BlocksItsTarget(maxRecords: nat, w: World, s: Step, id: CommandId)
    requires Enabled(maxRecords, w, s) && s.Admit? && Unknown(w, id)
    requires |Apply(maxRecords, w, s).histories| > |w.histories|
    requires s.deviceId == w.tables.commands[id].command.deviceId && s.action == w.tables.commands[id].command.action
    ensures Released(w.tables.reconciliations, id)
  {
    assert !Blocks(w.tables, s.deviceId, s.action, id);
  }

  /** Once a command's outcome is unknown, no idempotent request for the same device action is admitted, across any
      number of prunes, crashes, restarts and copies, until a newest reconciliation of it reached a conclusion and
      allows a retry; only stale evidence saved over that command can let a request through without one. */
  lemma UnresolvedBlocksUntilConcluded(maxRecords: nat, ws: seq<World>, steps: seq<Step>, i: nat, j: nat, id: CommandId)
    requires Run(maxRecords, ws, steps) && i <= j < |steps| && Unknown(ws[i], id) && Undisturbed(ws, steps, i, j, id)
    requires steps[j].Admit? && |ws[j + 1].histories| > |ws[j].histories|
    requires steps[j].deviceId == ws[i].tables.commands[id].command.deviceId
    requires steps[j].action == ws[i].tables.commands[id].command.action
    ensures exists r :: Latest(ws[j].tables.reconciliations, id, r) && r.allowRetry && r.conclusion != Inconclusive
  {
    UnknownOutcomeSurvives(maxRecords, ws, steps, i, j, id);
    RunConclusions(maxRecords, ws, steps, j);
    assert ws[j + 1] == Apply(maxRecords, ws[j], steps[j]);
    BlocksItsTarget(maxRecords, ws[j], steps[j], id);
    var r :| Latest(ws[j].tables.reconciliations, id, r) && r.allowRetry;
    assert r.conclusion != Inconclusive;
  }

  // ------------------------------------------------------ what clients see

  /** Once the last transition saved of a command is a certain outcome, its ledger row shows the same; so it is with an
      unknown outcome as long as `calm` holds. */
  predicate Told(w: World, id: CommandId, calm: bool) {
    id in w.tables.commands ==>
      && Owned(w, id)
      && var told, row := LastState(w.histories[w.owner[id]].events), w.tables.commands[id].command.state;
         (Prunable(told) || (calm && told == OutcomeUnknown) ==> row == told)
  }

  lemma LiveIsUntold(w: World, id: CommandId)
    requires Inv(w) && id in w.tasks
    ensures Owned(w, id) && !Terminal(LastState(w.histories[w.owner[id]].events))
  {
    assert CommandOk(w, id);
  }

  lemma PersistTells(w: World, id: CommandId, calm: bool)
    requires Inv(w) && w.running && id in w.tasks && w.tasks[id].Saving? && Owned(w, id) && id in w.tables.commands
    ensures Told(PersistSection(w, id), id, calm)
  {
    PersistedHistory(w, id);
  }

  /** All threads go on; one that is about to save still is. */
  predicate ThreadsGoOn(w: World, v: World) {
    forall x :: x in w.tasks ==> x in v.tasks && (w.tasks[x].Saving? ==> v.tasks[x] == w.tasks[x])
  }

  lemma WorkerKeepsThreads(maxRecords: nat, w: World, s: Step)
    requires Enabled(maxRecords, w, s)
    requires s.Submit? || s.Take? || s.Decide? || s.Start? || s.Settle? || s.SubmitFeedback? || s.GiveUp?
    ensures ThreadsGoOn(w, Apply(maxRecords, w, s))
  {
  }

  lemma DeliveryKeepsThreads(maxRecords: nat, w: World, s: Step)
    requires Enabled(maxRecords, w, s)
    requires s.Invoke? || s.Return? || s.Observe? || s.RecordTiming? || s.PersistTiming?
    ensures ThreadsGoOn(w, Apply(maxRecords, w, s))
  {
  }

  lemma OthersKeepThreads(maxRecords: nat, w: World, s: Step)
    requires Enabled(maxRecords, w, s)
    requires s.Tick? || s.PruneCache? || s.Load? || s.Recover? || s.Resume? || s.BeginReview? || s.Announce?
    ensures ThreadsGoOn(w, Apply(maxRecords, w, s))
  {
    assert Apply(maxRecords, w, s).tasks == w.tasks;
  }

  lemma ReviewsKeepThreads(maxRecords: nat, w: World, s: Step)
    requires Enabled(maxRecords, w, s) && (s.AppendReview? || s.RecordEvidence? || s.PersistEvidence?)
    ensures ThreadsGoOn(w, Apply(maxRecords, w, s))
  {
    match s
    case AppendReview(call, conclusion, allowRetry) =>
      assert AppendReviewSection(w, call, conclusion, allowRetry).tasks == w.tasks;
    case RecordEvidence(call) => assert RecordEvidenceSection(w, call).tasks == w.tasks;
    case PersistEvidence(call) => assert PersistEvidenceSection(w, call).tasks == w.tasks;
  }

  lemma AdmissionKeepsThreads(maxRecords: nat, w: World, s: Step)
    requires Inv(w) && Enabled(maxRecords, w, s) && (s.Admit? || s.AdmitLegacy?)
    ensures ThreadsGoOn(w, Apply(maxRecords, w, s))
  {
    assert CommandOk(w, s.id);
    if s.Admit? {
      if Inserts(maxRecords, w, s) { InsertsInto(maxRecords, w, s); } else { RepliesOnly(maxRecords, w, s); }
    }
  }

  lemma PersistSparesThreads(w: World, id: CommandId, x: CommandId)
    requires id in w.tasks && w.tasks[id].Saving? && Owned(w, id) && id in w.tables.commands && x in w.tasks && x != id
    ensures x in PersistSection(w, id).tasks && PersistSection(w, id).tasks[x] == w.tasks[x]
  {
  }

  /** A thread ends only when it has saved its last transition, or by a crash; and nothing else moves one that is
      about to save. */
  lemma ThreadEnds(maxRecords: nat, w: World, s: Step, id: CommandId)
    requires Inv(w) && Enabled(maxRecords, w, s) && id in w.tasks && s != Crash && s != Persist(id)
    ensures var v := Apply(maxRecords, w, s); id in v.tasks && (w.tasks[id].Saving? ==> v.tasks[id] == w.tasks[id])
  {
    if s.Admit? || s.AdmitLegacy? {
      AdmissionKeepsThreads(maxRecords, w, s);
    } else if s.Submit? || s.Take? || s.Decide? || s.Start? || s.Settle? || s.SubmitFeedback? || s.GiveUp? {
      WorkerKeepsThreads(maxRecords, w, s);
    } else if s.Invoke? || s.Return? || s.Observe? || s.RecordTiming? || s.PersistTiming? {
      DeliveryKeepsThreads(maxRecords, w, s);
    } else if s.Tick? || s.PruneCache? || s.Load? || s.Recover? || s.Resume? || s.BeginReview? || s.Announce? {
      OthersKeepThreads(maxRecords, w, s);
    } else if s.AppendReview? || s.RecordEvidence? || s.PersistEvidence? {
      ReviewsKeepThreads(maxRecords, w, s);
    } else {
      PersistSparesThreads(w, s.id, id);
    }
  }

  lemma StillTold(w: World, s: Step, v: World, id: CommandId, calm: bool)
    requires Inv(w) && Inv(v) && Told(w, id, calm) && (calm ==> !StaleEvidence(w, s, id))
    requires RowStep(w, s, v, id) && Frame(w, v)
    requires id in w.tasks && id !in v.tasks ==> v.histories == w.histories
    ensures Told(v, id, calm)
  {
    assert CommandOk(v, id) && CommandOk(w, id);
    if id in v.tasks {
      LiveIsUntold(v, id);
    } else if id in w.tasks {
      LiveIsUntold(w, id);
    } else if id in v.tables.commands {
      assert Idle(w, w.owner[id]);
    }
  }

  lemma StepTells(maxRecords: nat, w: World, s: Step, id: CommandId, calm: bool)
    requires Inv(w) && Enabled(maxRecords, w, s) && Told(w, id, calm) && (calm ==> !StaleEvidence(w, s, id))
    ensures Told(Apply(maxRecords, w, s), id, calm)
  {
    if s == Persist(id) {
      PersistTells(w, id, calm);
    } else {
      StepKeeps(maxRecords, w, s);
      StepRow(maxRecords, w, s, id);
      StepFrame(maxRecords, w, s);
      if id in w.tasks && s != Crash { ThreadEnds(maxRecords, w, s, id); }
      StillTold(w, s, Apply(maxRecords, w, s), id, calm);
    }
  }

  lemma {:induction false} RunTells(maxRecords: nat, ws: seq<World>, steps: seq<Step>, i: nat, id: CommandId)
    requires Run(maxRecords, ws, steps) && i < |ws|
    ensures Told(ws[i], id, Undisturbed(ws, steps, 0, i, id))
  {
    if i > 0 {
      RunTells(maxRecords, ws, steps, i - 1, id);
      RunInv(maxRecords, ws, steps, i - 1);
      assert ws[i - 1 + 1] == Apply(maxRecords, ws[i - 1], steps[i - 1]);
      var calm := Undisturbed(ws, steps, 0, i, id);
      assert calm ==> Undisturbed(ws, steps, 0, i - 1, id);
      StepTells(maxRecords, ws[i - 1], steps[i - 1], id, calm);
    }
  }

  /** In every run the transitions saved of a command form a legal trace. Once they end in a certain outcome, the
      ledger row, while it exists, shows the same; and also an unknown one, if no stale evidence has been saved for
      the command. */
  lemma EventsTellTheLedger(maxRecords: nat, ws: seq<World>, steps: seq<Step>, i: nat, id: CommandId)
    requires Run(maxRecords, ws, steps) && i < |ws| && id in ws[i].tables.commands
    ensures Owned(ws[i], id)
    ensures var told := LastState(ws[i].histories[ws[i].owner[id]].events);
      && LegalTrace(ws[i].histories[ws[i].owner[id]].events)
      && (Prunable(told) || (told == OutcomeUnknown && Undisturbed(ws, steps, 0, i, id)) ==>
            ws[i].tables.commands[id].command.state == told)
  {
    RunInv(maxRecords, ws, steps, i);
    RunTells(maxRecords, ws, steps, i, id);
    assert CommandOk(ws[i], id);
    assert HistoryOk(ws[i].histories[ws[i].owner[id]], ws[i].now);
  }

  // ------------------------------------------------------ nothing is forgotten

  /** While the service runs, a row without a thread is finished. */
  predicate Attended(w: World, id: CommandId) {
    w.running && id in w.tables.commands && id !in w.tasks ==> Terminal(w.tables.commands[id].command.state)
  }

  lemma PersistAttends(w: World, id: CommandId)
    requires Inv(w) && w.running && id in w.tasks && w.tasks[id].Saving? && Owned(w, id) && id in w.tables.commands
    ensures Attended(PersistSection(w, id), id)
  {
    assert CommandOk(w, id);
  }

  lemma ResumeAttends(maxRecords: nat, w: World, s: Step, id: CommandId)
    requires Inv(w) && Enabled(maxRecords, w, s) && !w.running
    ensures Attended(Apply(maxRecords, w, s), id)
  {
    assert s.Tick? || s.Crash? || s.Load? || s.Recover? || s.Resume?;
  }

  lemma StillAttended(w: World, s: Step, v: World, id: CommandId)
    requires Attended(w, id) && w.running && RowStep(w, s, v, id) && !StaleEvidence(w, s, id)
    requires id in w.tasks ==> id in v.tasks
    ensures Attended(v, id)
  {
  }

  lemma StepAttends(maxRecords: nat, w: World, s: Step, id: CommandId)
    requires Inv(w) && Enabled(maxRecords, w, s) && Attended(w, id) && !StaleEvidence(w, s, id)
    ensures Attended(Apply(maxRecords, w, s), id)
  {
    if !w.running {
      ResumeAttends(maxRecords, w, s, id);
    } else if s == Persist(id) {
      PersistAttends(w, id);
    } else if s != Crash {
      if id in w.tasks { ThreadEnds(maxRecords, w, s, id); }
      StepRow(maxRecords, w, s, id);
      StillAttended(w, s, Apply(maxRecords, w, s), id);
    }
  }

  lemma {:induction false} RunAttends(maxRecords: nat, ws: seq<World>, steps: seq<Step>, i: nat, id: CommandId)
    requires Run(maxRecords, ws, steps) && i < |ws| && Undisturbed(ws, steps, 0, i, id)
    ensures Attended(ws[i], id)
  {
    if i > 0 {
      RunAttends(maxRecords, ws, steps, i - 1, id);
      RunInv(maxRecords, ws, steps, i - 1);
      assert ws[i - 1 + 1] == Apply(maxRecords, ws[i - 1], steps[i - 1]);
      StepAttends(maxRecords, ws[i - 1], steps[i - 1], id);
    }
  }

  /** No command is forgotten: while the service runs, every unfinished row has a thread whose next section is
      enabled. */
  lemma UnfinishedIsServed(maxRecords: nat, ws: seq<World>, steps: seq<Step>, i: nat, id: CommandId, s: Step)
    requires Run(maxRecords, ws, steps) && i < |ws| && Undisturbed(ws, steps, 0, i, id)
    requires ws[i].running && id in ws[i].tables.commands && !Terminal(ws[i].tables.commands[id].command.state)
    ensures id in ws[i].tasks && (Serves(ws[i], id, s) ==> Enabled(maxRecords, ws[i], s))
  {
    RunAttends(maxRecords, ws, steps, i, id);
    if Serves(ws[i], id, s) { ThreadsNeverStranded(maxRecords, ws, steps, i, id, s); }
  }
}
