/** The revisions of ledger rows: which writes lower one. */
module ProtocolRevisions {
  import opened Basics
  import opened CommandTypes
  import opened CommandLedger
  import opened CommandProtocol
  import opened ProtocolSafety
  import opened ProtocolTheorems
  import opened ProtocolOutcomes
  import opened ProtocolFreshness

  /** The record that a step writes over the row of `id`, if it writes one that was made before. */
  function Writes(w: World, s: Step, id: CommandId): Option<Command> {
    if s == Persist(id) && id in w.tasks && w.tasks[id].Saving? then Some(w.tasks[id].snapshot)
    else if s == PersistTiming(id) && id in w.tasks && w.tasks[id].SavingTiming? then Some(w.tasks[id].snapshot)
    else if s.PersistEvidence? && s.call in w.reviews && w.reviews[s.call].Unsaved? && w.reviews[s.call].id == id
    then Some(w.reviews[s.call].snapshot)
    else None
  }

  predicate Falls(w: World, v: World, id: CommandId) {
    && id in w.tables.commands && id in v.tables.commands
    && v.tables.commands[id].command.revision < w.tables.commands[id].command.revision
  }

  predicate WritesOlder(w: World, s: Step, id: CommandId) {
    && id in w.tables.commands && Writes(w, s, id).Some?
    && Writes(w, s, id).value.revision < w.tables.commands[id].command.revision
  }

  lemma AcceptLeavesRows(w: World, added: CommandId, row: Row, t: Tables, key: Option<IdempotencyKey>, dedupUntil: int,
                         id: CommandId)
    requires added !in w.tables.commands && AcceptedInto(w, added, row, t)
    ensures !Falls(w, Accept(w, added, row, t, key, dedupUntil), id)
  {
  }

  lemma AdmissionLowersNone(maxRecords: nat, w: World, s: Step, id: CommandId)
    requires Enabled(maxRecords, w, s) && (s.Admit? || s.AdmitLegacy?)
    ensures !Falls(w, Apply(maxRecords, w, s), id)
  {
    if s.Admit? {
      if Inserts(maxRecords, w, s) {
        InsertsInto(maxRecords, w, s);
        var row := Row(s.fingerprint, InitialCommand(s.deviceId, s.action, w.now, s.ttl));
        AcceptLeavesRows(w, s.id, row, Transaction(maxRecords, w, s).0, Some(s.key), s.dedupUntil, id);
      } else {
        RepliesOnly(maxRecords, w, s);
      }
    }
  }

  lemma ThreadLowers(maxRecords: nat, w: World, s: Step, id: CommandId)
    requires Inv(w) && Enabled(maxRecords, w, s) && (s.Persist? || s.PersistTiming?)
    ensures Falls(w, Apply(maxRecords, w, s), id) <==> WritesOlder(w, s, id)
  {
    LiveRecord(w, s.id);
  }

  lemma EvidenceOrRecoveryLowers(maxRecords: nat, w: World, s: Step, id: CommandId)
    requires Enabled(maxRecords, w, s) && (s.PersistEvidence? || s.Recover?)
    ensures Falls(w, Apply(maxRecords, w, s), id) <==> WritesOlder(w, s, id)
  {
  }

  lemma StepLowers(maxRecords: nat, w: World, s: Step, id: CommandId)
    requires Inv(w) && Enabled(maxRecords, w, s)
    ensures Falls(w, Apply(maxRecords, w, s), id) <==> WritesOlder(w, s, id)
  {
    if s.Admit? || s.AdmitLegacy? {
      AdmissionLowersNone(maxRecords, w, s, id);
    } else if s.Persist? || s.PersistTiming? {
      ThreadLowers(maxRecords, w, s, id);
    } else if s.PersistEvidence? || s.Recover? {
      EvidenceOrRecoveryLowers(maxRecords, w, s, id);
    } else {
      OthersLeaveRows(maxRecords, w, s);
    }
  }

  /** In every run a row's revision falls at exactly those writes, of a transition, of its timing or of evidence, whose
      record was made before the one in the ledger. */
  lemma RowFallsExactly(maxRecords: nat, ws: seq<World>, steps: seq<Step>, k: nat, id: CommandId)
    requires Run(maxRecords, ws, steps) && k < |steps|
    ensures Falls(ws[k], ws[k + 1], id) <==> WritesOlder(ws[k], steps[k], id)
  {
    RunInv(maxRecords, ws, steps, k);
    StepLowers(maxRecords, ws[k], steps[k], id);
  }

  // ------------------------------------------------- without a stale copy

  /** While an unknown outcome is being saved, whatever evidence for it has been recorded is newer. */
  predicate EvidenceAhead(w: World, id: CommandId) {
    id in w.tables.commands && id in w.tasks && w.tasks[id].Saving? && w.tasks[id].snapshot.state == OutcomeUnknown ==>
      var row, c := w.tables.commands[id].command, w.tasks[id].snapshot;
      && (row.state == OutcomeUnknown ==> c.revision < row.revision)
      && (forall call :: call in w.reviews && w.reviews[call].Unsaved? && w.reviews[call].id == id ==>
            c.revision < w.reviews[call].snapshot.revision)
  }

  /** The command is saving nothing that it was not saving before, over the same row, and no evidence is new. */
  predicate SameSaving(w: World, v: World, id: CommandId) {
    id in v.tables.commands && id in v.tasks && v.tasks[id].Saving? ==>
      && id in w.tables.commands && v.tables.commands[id] == w.tables.commands[id]
      && id in w.tasks && v.tasks[id] == w.tasks[id]
      && (forall call :: call in v.reviews && v.reviews[call].Unsaved? ==>
            call in w.reviews && v.reviews[call] == w.reviews[call])
  }

  lemma SameSavingAhead(w: World, v: World, id: CommandId)
    requires EvidenceAhead(w, id) && SameSaving(w, v, id)
    ensures EvidenceAhead(v, id)
  {
  }

  lemma BeginAhead(w: World, x: CommandId, state: CommandState, seqNo: nat, id: CommandId)
    requires Inv(w) && EvidenceAhead(w, id) && x in w.tasks && !w.tasks[x].Saving? && x in w.cache
    ensures EvidenceAhead(Begin(w, x, state, seqNo), id)
  {
    assert CommandOk(w, x);
    NotReviewed(w, x);
    if x != id { SameSavingAhead(w, Begin(w, x, state, seqNo), id); }
  }

  lemma QueueAhead(maxRecords: nat, w: World, s: Step, id: CommandId)
    requires Inv(w) && EvidenceAhead(w, id) && Enabled(maxRecords, w, s)
    requires s.Submit? || s.SubmitFeedback? || s.GiveUp?
    ensures EvidenceAhead(Apply(maxRecords, w, s), id)
  {
    match s
    case Submit(x, accepted) => if !accepted { BeginAhead(w, x, Rejected, 1, id); }
    case SubmitFeedback(x, accepted) => if !accepted { BeginAhead(w, x, OutcomeUnknown, 5, id); }
    case GiveUp(x) => BeginAhead(w, x, OutcomeUnknown, 5, id);
  }

  lemma WorkerAhead(maxRecords: nat, w: World, s: Step, id: CommandId)
    requires Inv(w) && EvidenceAhead(w, id) && Enabled(maxRecords, w, s)
    requires s.Take? || s.Decide? || s.Start? || s.Settle?
    ensures EvidenceAhead(Apply(maxRecords, w, s), id)
  {
    match s
    case Take(x) => BeginAhead(w, x, Received, 1, id);
    case Decide(x, domainReady) => BeginAhead(w, x, Decision(w, x, domainReady), 2, id);
    case Start(x) => BeginAhead(w, x, Executing, 3, id);
    case Settle(x) => BeginAhead(w, x, Settlement(w.tasks[x].certainty), 4, id);
  }

  lemma ObserveAhead(w: World, x: CommandId, f: Feedback, id: CommandId)
    requires Inv(w) && EvidenceAhead(w, id) && At(w, x, Monitoring) && (f != Pending ==> CanBegin(w, x, Verdict(f)))
    ensures EvidenceAhead(ObserveSection(w, x, f), id)
  {
    if f != Pending { BeginAhead(w, x, Verdict(f), 5, id); }
  }

  lemma DeliveryAhead(maxRecords: nat, w: World, s: Step, id: CommandId)
    requires EvidenceAhead(w, id) && Enabled(maxRecords, w, s)
    requires s.Invoke? || s.Return? || s.RecordTiming? || s.PersistTiming? || s.Persist?
    ensures EvidenceAhead(Apply(maxRecords, w, s), id)
  {
    SameSavingAhead(w, Apply(maxRecords, w, s), id);
  }

  lemma QuietAhead(maxRecords: nat, w: World, s: Step, id: CommandId)
    requires EvidenceAhead(w, id) && Enabled(maxRecords, w, s)
    requires s.Tick? || s.PruneCache? || s.Crash? || s.Load? || s.Resume? || s.Announce? || s.BeginReview?
      || s.AppendReview?
    ensures EvidenceAhead(Apply(maxRecords, w, s), id)
  {
    SameSavingAhead(w, Apply(maxRecords, w, s), id);
  }

  lemma RecordAhead(w: World, call: nat, id: CommandId)
    requires Inv(w) && Current(w, id) && EvidenceAhead(w, id) && call in w.reviews
    ensures EvidenceAhead(RecordEvidenceSection(w, call), id)
  {
    assert InStep(w, id);
  }

  lemma SaveEvidenceAhead(w: World, call: nat, id: CommandId)
    requires EvidenceAhead(w, id) && call in w.reviews && w.reviews[call].Unsaved?
    requires w.reviews[call].id in w.tables.commands
    ensures EvidenceAhead(PersistEvidenceSection(w, call), id)
  {
  }

  lemma AdmissionAhead(maxRecords: nat, w: World, s: Step, id: CommandId)
    requires EvidenceAhead(w, id) && Enabled(maxRecords, w, s) && (s.Admit? || s.AdmitLegacy?)
    ensures EvidenceAhead(Apply(maxRecords, w, s), id)
  {
    if s.Admit? {
      if Inserts(maxRecords, w, s) { InsertsInto(maxRecords, w, s); } else { RepliesOnly(maxRecords, w, s); }
    }
    SameSavingAhead(w, Apply(maxRecords, w, s), id);
  }

  lemma StepAhead(maxRecords: nat, w: World, s: Step, id: CommandId)
    requires Inv(w) && Current(w, id) && EvidenceAhead(w, id) && Enabled(maxRecords, w, s)
    ensures EvidenceAhead(Apply(maxRecords, w, s), id)
  {
    if s.Admit? || s.AdmitLegacy? {
      AdmissionAhead(maxRecords, w, s, id);
    } else if s.Submit? || s.SubmitFeedback? || s.GiveUp? {
      QueueAhead(maxRecords, w, s, id);
    } else if s.Take? || s.Decide? || s.Start? || s.Settle? {
      WorkerAhead(maxRecords, w, s, id);
    } else if s.Observe? {
      ObserveAhead(w, s.id, s.feedback, id);
    } else if s.Invoke? || s.Return? || s.RecordTiming? || s.PersistTiming? || s.Persist? {
      DeliveryAhead(maxRecords, w, s, id);
    } else if s.RecordEvidence? {
      RecordAhead(w, s.call, id);
    } else if s.PersistEvidence? {
      SaveEvidenceAhead(w, s.call, id);
    } else if !s.Recover? {
      QuietAhead(maxRecords, w, s, id);
    }
  }

  ghost predicate AheadChain(ws: seq<World>, id: CommandId) {
    forall k :: 0 <= k < |ws| - 1 ==> (EvidenceAhead(ws[k], id) ==> EvidenceAhead(ws[k + 1], id))
  }

  lemma RunKeepsAhead(maxRecords: nat, ws: seq<World>, steps: seq<Step>, id: CommandId)
    requires FreshRun(maxRecords, ws, steps, id)
    ensures AheadChain(ws, id)
  {
    forall k | 0 <= k < |ws| - 1 && EvidenceAhead(ws[k], id) ensures EvidenceAhead(ws[k + 1], id) {
      RunCurrent(maxRecords, ws, steps, k, id);
      StepAhead(maxRecords, ws[k], steps[k], id);
    }
  }

  lemma {:induction false} AheadAlong(ws: seq<World>, i: nat, id: CommandId)
    requires AheadChain(ws, id) && i < |ws| && EvidenceAhead(ws[0], id)
    ensures EvidenceAhead(ws[i], id)
  {
    if i > 0 {
      AheadAlong(ws, i - 1, id);
      assert EvidenceAhead(ws[i - 1 + 1], id);
    }
  }

  lemma RunAhead(maxRecords: nat, ws: seq<World>, steps: seq<Step>, i: nat, id: CommandId)
    requires FreshRun(maxRecords, ws, steps, id) && i < |ws|
    ensures EvidenceAhead(ws[i], id)
  {
    RunKeepsAhead(maxRecords, ws, steps, id);
    AheadAlong(ws, i, id);
  }

  lemma PersistLowers(w: World, id: CommandId)
    requires Inv(w) && Current(w, id) && EvidenceAhead(w, id) && id in w.tasks && w.tasks[id].Saving?
    requires id in w.tables.commands
    ensures WritesOlder(w, Persist(id), id) <==> Unknown(w, id)
    ensures Unknown(w, id) ==> w.tasks[id].snapshot.state == OutcomeUnknown
  {
    assert InStep(w, id) && CommandOk(w, id);
  }

  lemma EvidenceLowers(w: World, call: nat, id: CommandId)
    requires Inv(w) && Current(w, id) && EvidenceAhead(w, id) && call in w.reviews && w.reviews[call].Unsaved?
    requires w.reviews[call].id == id && WritesOlder(w, PersistEvidence(call), id)
    ensures Unknown(w, id) && w.reviews[call].snapshot.state == OutcomeUnknown
  {
    assert InStep(w, id) && ReviewInStep(w, call) && ReviewOk(w, call) && CommandOk(w, id);
  }

  lemma FreshStepLowers(maxRecords: nat, w: World, s: Step, id: CommandId)
    requires Inv(w) && Current(w, id) && EvidenceAhead(w, id) && Enabled(maxRecords, w, s)
    ensures WritesOlder(w, s, id) <==>
      Unknown(w, id) && (s == Persist(id) || (s.PersistEvidence? && WritesOlder(w, s, id)))
  {
    if s == Persist(id) {
      PersistLowers(w, id);
    } else if WritesOlder(w, s, id) {
      if s.PersistEvidence? { EvidenceLowers(w, s.call, id); }
    }
  }

  /** Without a stale copy of the command, exactly: saving a transition lowers the row if and only if evidence for the
      same unknown outcome was saved first; saving evidence lowers it if and only if later evidence was saved first;
      nothing else does. So rows in any other state only ever grow. */
  lemma FreshRowFallsExactly(maxRecords: nat, ws: seq<World>, steps: seq<Step>, k: nat, id: CommandId)
    requires FreshRun(maxRecords, ws, steps, id) && k < |steps|
    ensures Falls(ws[k], ws[k + 1], id) <==>
      && Unknown(ws[k], id)
      && (steps[k] == Persist(id) || (steps[k].PersistEvidence? && WritesOlder(ws[k], steps[k], id)))
    ensures Falls(ws[k], ws[k + 1], id) ==> Unknown(ws[k + 1], id)
  {
    RunCurrent(maxRecords, ws, steps, k, id);
    RunAhead(maxRecords, ws, steps, k, id);
    RowFallsExactly(maxRecords, ws, steps, k, id);
    FreshStepLowers(maxRecords, ws[k], steps[k], id);
    if Unknown(ws[k], id) {
      UnknownLostExactly(maxRecords, ws, steps, k, id);
      FreshIsUndisturbed(maxRecords, ws, steps, k, k + 1, id);
    }
  }
}
