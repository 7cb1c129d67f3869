/** The in-memory records over any run: their revisions only grow and their terminal states stay, except where a
    repeated request copies a ledger row over them that lags behind. */
module ProtocolFinality {
  import opened Basics
  import opened CommandTypes
  import opened CommandLedger
  import opened CommandProtocol
  import opened ProtocolSafety
  import opened ProtocolTheorems
  import opened ProtocolFreshness

  /** The newest revision of a command that the process knows of, in memory or in a thread about to save it. */
  function NewestRevision(w: World, id: CommandId): nat {
    if id in w.cache then w.cache[id].command.revision
    else if id in w.tasks && w.tasks[id].Saving? then w.tasks[id].snapshot.revision
    else 0
  }

  /** The record of `id`, if it is in memory afterwards, is no older than what was known, and a terminal one kept its
      state. */
  predicate Advances(w: World, v: World, id: CommandId) {
    id in v.cache ==>
      && NewestRevision(w, id) <= v.cache[id].command.revision
      && (id in w.cache && Terminal(w.cache[id].command.state) ==>
            v.cache[id].command.state == w.cache[id].command.state)
  }

  /** Before service resumes, memory holds nothing but ledger rows. */
  predicate LoadedOnly(w: World) {
    !w.running ==> forall id :: id in w.cache ==> id in w.tables.commands && w.cache[id] == w.tables.commands[id]
  }

  // --------------------------------------------------- one step, one command

  predicate Forgets(w: World, v: World) {
    forall x :: x in v.cache ==> x in w.cache && v.cache[x] == w.cache[x]
  }

  lemma ForgettingAdvances(w: World, v: World, id: CommandId)
    requires Forgets(w, v)
    ensures Advances(w, v, id)
  {
  }

  lemma BeginAdvances(w: World, x: CommandId, state: CommandState, seqNo: nat, id: CommandId)
    requires Inv(w) && x in w.tasks && !w.tasks[x].Saving? && x in w.cache
    ensures Advances(w, Begin(w, x, state, seqNo), id)
  {
    LiveRecord(w, x);
  }

  lemma WorkerAdvances(maxRecords: nat, w: World, s: Step, id: CommandId)
    requires Inv(w) && Enabled(maxRecords, w, s)
    requires s.Submit? || s.Take? || s.Decide? || s.Start? || s.Settle? || s.SubmitFeedback? || s.GiveUp?
    ensures Advances(w, Apply(maxRecords, w, s), id)
  {
    match s
    case Submit(x, accepted) => if !accepted { BeginAdvances(w, x, Rejected, 1, id); }
    case Take(x) => BeginAdvances(w, x, Received, 1, id);
    case Decide(x, domainReady) => BeginAdvances(w, x, Decision(w, x, domainReady), 2, id);
    case Start(x) => BeginAdvances(w, x, Executing, 3, id);
    case Settle(x) => BeginAdvances(w, x, Settlement(w.tasks[x].certainty), 4, id);
    case SubmitFeedback(x, accepted) => if !accepted { BeginAdvances(w, x, OutcomeUnknown, 5, id); }
    case GiveUp(x) => BeginAdvances(w, x, OutcomeUnknown, 5, id);
  }

  lemma AdapterAdvances(maxRecords: nat, w: World, s: Step, id: CommandId)
    requires Inv(w) && Enabled(maxRecords, w, s) && (s.Invoke? || s.Return? || s.Observe?)
    ensures Advances(w, Apply(maxRecords, w, s), id)
  {
    match s
    case Invoke(x, unsafeDriver) => ForgettingAdvances(w, InvokeSection(w, x, unsafeDriver), id);
    case Return(x, c, violated) => ForgettingAdvances(w, ReturnSection(w, x, c, violated), id);
    case Observe(x, f) =>
      if f == Pending {
        ForgettingAdvances(w, ObserveSection(w, x, f), id);
      } else {
        BeginAdvances(w, x, Verdict(f), 5, id);
      }
  }

  lemma SavingAdvances(maxRecords: nat, w: World, s: Step, id: CommandId)
    requires Enabled(maxRecords, w, s) && (s.Persist? || s.RecordTiming? || s.PersistTiming? || s.PersistEvidence?)
    ensures Advances(w, Apply(maxRecords, w, s), id)
  {
    ForgettingAdvances(w, Apply(maxRecords, w, s), id);
  }

  lemma QuietAdvances(maxRecords: nat, w: World, s: Step, id: CommandId)
    requires Enabled(maxRecords, w, s)
    requires s.Tick? || s.PruneCache? || s.Crash? || s.Resume? || s.BeginReview? || s.AppendReview? || s.Announce?
    ensures Advances(w, Apply(maxRecords, w, s), id)
  {
    ForgettingAdvances(w, Apply(maxRecords, w, s), id);
  }

  lemma RestartAdvances(w: World, x: CommandId, id: CommandId)
    requires Inv(w) && LoadedOnly(w) && !w.running && x in w.tables.commands
    ensures Advances(w, w.(cache := w.cache[x := w.tables.commands[x]]), id)
    ensures !Terminal(w.tables.commands[x].command.state) ==> Advances(w, RecoverSection(w, x), id)
  {
  }

  lemma EvidenceAdvances(w: World, call: nat, id: CommandId)
    requires Inv(w) && call in w.reviews
    ensures Advances(w, RecordEvidenceSection(w, call), id)
  {
    assert ReviewOk(w, call);
  }

  lemma AcceptAdvances(w: World, added: CommandId, row: Row, t: Tables, key: Option<IdempotencyKey>, dedupUntil: int,
                       id: CommandId)
    requires Inv(w) && added !in w.cache && added !in w.tables.commands
    ensures Advances(w, Accept(w, added, row, t, key, dedupUntil), id)
  {
    assert CommandOk(w, added);
  }

  lemma AdmitAdvances(maxRecords: nat, w: World, s: Step, id: CommandId)
    requires Inv(w) && Enabled(maxRecords, w, s) && s.Admit? && Copied(maxRecords, w, s) != Some(id)
    ensures Advances(w, AdmitSection(maxRecords, w, s), id)
  {
    if Inserts(maxRecords, w, s) {
      InsertsInto(maxRecords, w, s);
      var row := Row(s.fingerprint, InitialCommand(s.deviceId, s.action, w.now, s.ttl));
      AcceptAdvances(w, s.id, row, Transaction(maxRecords, w, s).0, Some(s.key), s.dedupUntil, id);
    } else {
      CopiedExactly(maxRecords, w, s);
    }
  }

  /** What a request that is not admitted does to memory. */
  lemma CopiedExactly(maxRecords: nat, w: World, s: Step)
    requires s.Admit? && !Inserts(maxRecords, w, s)
    ensures var v := AdmitSection(maxRecords, w, s);
      match Copied(maxRecords, w, s)
      case Some(d) => d in w.tables.commands && v.cache == w.cache[d := w.tables.commands[d]]
      case None => v.cache == w.cache
  {
    if !s.held && s.id !in w.cache && s.id !in w.tables.commands { TransactionAnswers(maxRecords, w, s); }
  }

  lemma AdmitLegacyAdvances(maxRecords: nat, w: World, s: Step, id: CommandId)
    requires Inv(w) && s.AdmitLegacy? && Copied(maxRecords, w, s) != Some(id)
    ensures Advances(w, AdmitLegacySection(w, s), id)
  {
    if s.id !in w.cache && s.id !in w.tables.commands {
      var c := InitialCommand(s.deviceId, s.action, w.now, s.ttl);
      AcceptAdvances(w, s.id, Row(s.fingerprint, c), InsertSpec(w.tables, s.id, s.fingerprint, c, s.victims), None, 0,
                     id);
    }
  }

  /** No section but an admission that copies the command's row ever takes its record back. */
  lemma StepAdvances(maxRecords: nat, w: World, s: Step, id: CommandId)
    requires Inv(w) && LoadedOnly(w) && Enabled(maxRecords, w, s) && Copied(maxRecords, w, s) != Some(id)
    ensures Advances(w, Apply(maxRecords, w, s), id)
  {
    if s.Admit? {
      AdmitAdvances(maxRecords, w, s, id);
    } else if s.AdmitLegacy? {
      AdmitLegacyAdvances(maxRecords, w, s, id);
    } else if s.Submit? || s.Take? || s.Decide? || s.Start? || s.Settle? || s.SubmitFeedback? || s.GiveUp? {
      WorkerAdvances(maxRecords, w, s, id);
    } else if s.Invoke? || s.Return? || s.Observe? {
      AdapterAdvances(maxRecords, w, s, id);
    } else if s.Persist? || s.RecordTiming? || s.PersistTiming? || s.PersistEvidence? {
      SavingAdvances(maxRecords, w, s, id);
    } else if s.Load? || s.Recover? {
      RestartAdvances(w, s.id, id);
    } else if s.RecordEvidence? {
      EvidenceAdvances(w, s.call, id);
    } else {
      QuietAdvances(maxRecords, w, s, id);
    }
  }

  // ------------------------------------------------------------ whole runs

  lemma StoppedOnlyRestarts(maxRecords: nat, w: World, s: Step)
    requires Inv(w) && Enabled(maxRecords, w, s) && !w.running
    ensures s.Tick? || s.Crash? || s.Load? || s.Recover? || s.Resume?
  {
  }

  lemma RunsOnUnlessCrash(maxRecords: nat, w: World, s: Step)
    requires Enabled(maxRecords, w, s) && w.running && s != Crash
    ensures Apply(maxRecords, w, s).running
  {
    if s.Admit? {
      if Inserts(maxRecords, w, s) { InsertsInto(maxRecords, w, s); } else { RepliesOnly(maxRecords, w, s); }
    } else if !s.AdmitLegacy? {
      StepKeepsTerms(maxRecords, w, s);
    }
  }

  lemma StepLoadedOnly(maxRecords: nat, w: World, s: Step)
    requires Inv(w) && LoadedOnly(w) && Enabled(maxRecords, w, s)
    ensures LoadedOnly(Apply(maxRecords, w, s))
  {
    if w.running && s != Crash {
      RunsOnUnlessCrash(maxRecords, w, s);
    } else if !w.running {
      StoppedOnlyRestarts(maxRecords, w, s);
    }
  }

  lemma {:induction false} RunLoadedOnly(maxRecords: nat, ws: seq<World>, steps: seq<Step>, i: nat)
    requires Run(maxRecords, ws, steps) && i < |ws|
    ensures LoadedOnly(ws[i])
  {
    if i > 0 {
      RunLoadedOnly(maxRecords, ws, steps, i - 1);
      RunInv(maxRecords, ws, steps, i - 1);
      assert ws[i - 1 + 1] == Apply(maxRecords, ws[i - 1], steps[i - 1]);
      StepLoadedOnly(maxRecords, ws[i - 1], steps[i - 1]);
    }
  }

  /** In any run, the in-memory revision of a command never falls and its terminal state there stays, except in a
      step that copies the command's own ledger row over a record which that row lags behind. */
  lemma CachedRecordAdvances(maxRecords: nat, ws: seq<World>, steps: seq<Step>, i: nat, id: CommandId)
    requires Run(maxRecords, ws, steps) && i < |steps| && id in ws[i].cache && id in ws[i + 1].cache
    requires Copied(maxRecords, ws[i], steps[i]) == Some(id) ==> !Lags(ws[i], id)
    ensures ws[i].cache[id].command.revision <= ws[i + 1].cache[id].command.revision
    ensures Terminal(ws[i].cache[id].command.state) ==>
      ws[i + 1].cache[id].command.state == ws[i].cache[id].command.state
  {
    RunInv(maxRecords, ws, steps, i);
    RunLoadedOnly(maxRecords, ws, steps, i);
    assert ws[i + 1] == Apply(maxRecords, ws[i], steps[i]);
    if Copied(maxRecords, ws[i], steps[i]) == Some(id) {
      CopiedRow(maxRecords, ws[i], steps[i]);
    } else {
      StepAdvances(maxRecords, ws[i], steps[i], id);
    }
  }

  lemma CopiedRow(maxRecords: nat, w: World, s: Step)
    requires Enabled(maxRecords, w, s) && Copied(maxRecords, w, s).Some?
    ensures var id := Copied(maxRecords, w, s).value; var v := Apply(maxRecords, w, s);
      id in w.tables.commands && id in v.cache && v.cache[id] == w.tables.commands[id]
  {
    if s.Admit? { CopiedExactly(maxRecords, w, s); }
  }

  ghost predicate Regresses(w: World, v: World) {
    exists id :: id in v.cache && v.cache[id].command.revision < NewestRevision(w, id)
  }

  /** The row that the step copies into memory is older than what memory, or a thread about to save it, has of that
      command. */
  predicate CopiesOlder(maxRecords: nat, w: World, s: Step) {
    match Copied(maxRecords, w, s)
    case Some(id) => id in w.tables.commands && w.tables.commands[id].command.revision < NewestRevision(w, id)
    case None => false
  }

  /** In any run, an in-memory revision goes backwards at exactly those steps that copy an older ledger row over
      memory. */
  lemma RegressesExactlyOnStaleCopy(maxRecords: nat, ws: seq<World>, steps: seq<Step>, i: nat)
    requires Run(maxRecords, ws, steps) && i < |steps|
    ensures Regresses(ws[i], ws[i + 1]) <==> CopiesOlder(maxRecords, ws[i], steps[i])
  {
    var w, s := ws[i], steps[i];
    RunInv(maxRecords, ws, steps, i);
    RunLoadedOnly(maxRecords, ws, steps, i);
    assert ws[i + 1] == Apply(maxRecords, w, s);
    if Copied(maxRecords, w, s).Some? { CopiedRow(maxRecords, w, s); }
    forall id | id in ws[i + 1].cache && Copied(maxRecords, w, s) != Some(id)
      ensures NewestRevision(w, id) <= ws[i + 1].cache[id].command.revision
    {
      StepAdvances(maxRecords, w, s, id);
    }
  }
}
