/** What a request asked for is what its command does, and when: every record of a command carries the device action and
    the deadline of its admission, the worker decides by that deadline, and nothing is delivered that was not decided
    in time. */
module ProtocolRequests {
  import opened Basics
  import opened CommandTypes
  import opened CommandLedger
  import opened CommandProtocol
  import opened ProtocolSafety
  import opened ProtocolTheorems
  import opened ProtocolOutcomes

  /** The step, taken in world `w`, requests what `c` asks for. */
  predicate Requests(w: World, s: Step, id: CommandId, c: Command) {
    && (s.Admit? || s.AdmitLegacy?) && s.id == id
    && c.deviceId == s.deviceId && c.action == s.action
    && c.issuedAt == w.now && c.expiresAt == w.now + s.ttl
  }

  /** Before the i-th world some step began the admission and requested what `c` asks for. */
  ghost predicate Requested(ws: seq<World>, steps: seq<Step>, i: nat, id: CommandId, admission: nat, c: Command)
    requires i <= |steps| < |ws|
  {
    exists j :: 0 <= j < i && Requests(ws[j], steps[j], id, c) && |ws[j].histories| == admission
  }

  // ------------------------------------------------- records are requests

  /** The row of `id` came into the ledger with the admission that the step began. */
  predicate AppearedBy(w: World, s: Step, v: World, id: CommandId) {
    id in v.tables.commands && Requests(w, s, id, v.tables.commands[id].command)
    && id in v.owner && v.owner[id] == |w.histories|
  }

  lemma AdmittedRowAppears(maxRecords: nat, w: World, s: Step, id: CommandId)
    requires Enabled(maxRecords, w, s) && s.Admit?
    requires id !in w.tables.commands && id in AdmitSection(maxRecords, w, s).tables.commands
    ensures AppearedBy(w, s, AdmitSection(maxRecords, w, s), id)
  {
    if Inserts(maxRecords, w, s) { InsertsInto(maxRecords, w, s); } else { RepliesOnly(maxRecords, w, s); }
  }

  lemma SavingAddsNoRow(maxRecords: nat, w: World, s: Step, id: CommandId)
    requires Inv(w) && Enabled(maxRecords, w, s) && (s.Persist? || s.PersistTiming? || s.Recover? || s.PersistEvidence?)
    ensures id in Apply(maxRecords, w, s).tables.commands ==> id in w.tables.commands
  {
    if s.Persist? || s.PersistTiming? { LiveRecord(w, s.id); }
  }

  lemma AppearsByAdmission(maxRecords: nat, w: World, s: Step, id: CommandId)
    requires Inv(w) && Enabled(maxRecords, w, s)
    requires id !in w.tables.commands && id in Apply(maxRecords, w, s).tables.commands
    ensures AppearedBy(w, s, Apply(maxRecords, w, s), id)
  {
    if s.Admit? {
      AdmittedRowAppears(maxRecords, w, s, id);
    } else if s.Persist? || s.PersistTiming? || s.Recover? || s.PersistEvidence? {
      SavingAddsNoRow(maxRecords, w, s, id);
    } else if !s.AdmitLegacy? {
      OthersLeaveRows(maxRecords, w, s);
    }
  }

  /** A row that was there keeps its admission and what it asks for; any other one appears by its admission. */
  predicate RowComesFrom(w: World, s: Step, v: World, id: CommandId) {
    id in v.tables.commands ==>
      if id in w.tables.commands then
        SameAdmission(w, v, id) && SameTarget(w.tables.commands[id].command, v.tables.commands[id].command)
      else AppearedBy(w, s, v, id)
  }

  ghost predicate RowsComeFrom(ws: seq<World>, steps: seq<Step>, id: CommandId) {
    && |ws| == |steps| + 1 && ws[0].tables.commands == map[]
    && forall k {:trigger steps[k]} :: 0 <= k < |steps| ==> RowComesFrom(ws[k], steps[k], ws[k + 1], id)
  }

  lemma RunRowsComeFrom(maxRecords: nat, ws: seq<World>, steps: seq<Step>, id: CommandId)
    requires Run(maxRecords, ws, steps)
    ensures RowsComeFrom(ws, steps, id)
  {
    forall k | 0 <= k < |steps| ensures RowComesFrom(ws[k], steps[k], ws[k + 1], id) {
      RunInv(maxRecords, ws, steps, k);
      RunOneTarget(maxRecords, ws, steps, k, id);
      StepComesFrom(maxRecords, ws[k], steps[k], id);
    }
  }

  lemma StepComesFrom(maxRecords: nat, w: World, s: Step, id: CommandId)
    requires Inv(w) && OneTarget(w, id) && Enabled(maxRecords, w, s)
    ensures RowComesFrom(w, s, Apply(maxRecords, w, s), id)
  {
    StepKeepsTarget(maxRecords, w, s, id);
    StepRow(maxRecords, w, s, id);
    if id !in w.tables.commands && id in Apply(maxRecords, w, s).tables.commands {
      AppearsByAdmission(maxRecords, w, s, id);
    }
  }

  lemma StillRequested(ws: seq<World>, steps: seq<Step>, i: nat, id: CommandId)
    requires i < |steps| < |ws| && SameAdmission(ws[i], ws[i + 1], id)
    requires id in ws[i].tables.commands && id in ws[i + 1].tables.commands
    requires SameTarget(ws[i].tables.commands[id].command, ws[i + 1].tables.commands[id].command)
    requires Requested(ws, steps, i, id, ws[i].owner[id], ws[i].tables.commands[id].command)
    ensures Requested(ws, steps, i + 1, id, ws[i + 1].owner[id], ws[i + 1].tables.commands[id].command)
  {
    var row, next := ws[i].tables.commands[id].command, ws[i + 1].tables.commands[id].command;
    var j :| 0 <= j < i && Requests(ws[j], steps[j], id, row) && |ws[j].histories| == ws[i].owner[id];
    assert Requests(ws[j], steps[j], id, next);
  }

  lemma {:induction false} RowsAreRequested(ws: seq<World>, steps: seq<Step>, i: nat, id: CommandId)
    requires RowsComeFrom(ws, steps, id) && i < |ws| && id in ws[i].tables.commands
    ensures id in ws[i].owner && Requested(ws, steps, i, id, ws[i].owner[id], ws[i].tables.commands[id].command)
  {
    if i > 0 {
      var s := steps[i - 1];
      assert RowComesFrom(ws[i - 1], s, ws[i - 1 + 1], id);
      if id in ws[i - 1].tables.commands {
        RowsAreRequested(ws, steps, i - 1, id);
        StillRequested(ws, steps, i - 1, id);
      } else {
        assert Requests(ws[i - 1], s, id, ws[i].tables.commands[id].command);
      }
    }
  }

  lemma RowIsRequested(maxRecords: nat, ws: seq<World>, steps: seq<Step>, i: nat, id: CommandId)
    requires Run(maxRecords, ws, steps) && i < |ws| && id in ws[i].tables.commands
    ensures Owned(ws[i], id) && Requested(ws, steps, i, id, ws[i].owner[id], ws[i].tables.commands[id].command)
  {
    RunInv(maxRecords, ws, steps, i);
    assert CommandOk(ws[i], id);
    RunRowsComeFrom(maxRecords, ws, steps, id);
    RowsAreRequested(ws, steps, i, id);
  }

  /** In every reachable state the ledger row of a command, the record in memory beside it and the snapshot its thread
      is about to save ask for the device action that its admission requested, until the deadline that it set. */
  lemma RecordsAreRequests(maxRecords: nat, ws: seq<World>, steps: seq<Step>, i: nat, id: CommandId)
    requires Run(maxRecords, ws, steps) && i < |ws| && id in ws[i].tables.commands
    ensures Owned(ws[i], id) && Requested(ws, steps, i, id, ws[i].owner[id], ws[i].tables.commands[id].command)
    ensures id in ws[i].cache ==> Requested(ws, steps, i, id, ws[i].owner[id], ws[i].cache[id].command)
    ensures id in ws[i].tasks && ws[i].tasks[id].Saving? ==>
      Requested(ws, steps, i, id, ws[i].owner[id], ws[i].tasks[id].snapshot)
  {
    RowIsRequested(maxRecords, ws, steps, i, id);
    RunOneTarget(maxRecords, ws, steps, i, id);
    var row := ws[i].tables.commands[id].command;
    var j :| 0 <= j < i && Requests(ws[j], steps[j], id, row) && |ws[j].histories| == ws[i].owner[id];
    if id in ws[i].cache { assert Requests(ws[j], steps[j], id, ws[i].cache[id].command); }
    if id in ws[i].tasks && ws[i].tasks[id].Saving? { assert Requests(ws[j], steps[j], id, ws[i].tasks[id].snapshot); }
  }

  /** The step admits its request: nothing is known of the id, and the idempotency key, if there is one, is free. */
  predicate Admits(maxRecords: nat, w: World, s: Step) {
    && (s.Admit? || s.AdmitLegacy?) && s.id !in w.cache && s.id !in w.tables.commands
    && (s.Admit? ==>
          && !s.held
          && !(s.key in w.tables.dedup && w.now < w.tables.dedup[s.key].expiresAt)
          && !(0 < maxRecords <= |w.tables.commands|
               && forall x :: x in w.tables.commands ==> !Prunable(w.tables.commands[x].command.state)))
  }

  /** An admission begins with the record of its request, in the ledger and in memory, and with nothing behind it. */
  predicate Begun(w: World, s: Step, v: World)
    requires s.Admit? || s.AdmitLegacy?
  {
    && |v.histories| == |w.histories| + 1 && v.owner == w.owner[s.id := |w.histories|]
    && v.tasks == w.tasks[s.id := Stage.Admitted]
    && v.histories[|w.histories|] ==
         History(if s.Admit? then Some(s.key) else None, w.now, if s.Admit? then s.dedupUntil else 0, [], [])
    && s.id in v.cache && s.id in v.tables.commands && v.cache[s.id] == v.tables.commands[s.id]
    && v.cache[s.id].fingerprint == s.fingerprint && Requests(w, s, s.id, v.cache[s.id].command)
    && v.cache[s.id].command.state == Issued && v.cache[s.id].command.revision == 1
    && v.cache[s.id].command.updatedAt == w.now && v.cache[s.id].command.lastEventSeq == None
  }

  /** A step begins an admission if and only if it is a request that no record, no idempotency key and no protected
      table stands against, and it begins it with exactly what was requested. */
  lemma AdmitsExactly(maxRecords: nat, ws: seq<World>, steps: seq<Step>, k: nat)
    requires Run(maxRecords, ws, steps) && k < |steps|
    ensures |ws[k + 1].histories| != |ws[k].histories| <==> Admits(maxRecords, ws[k], steps[k])
    ensures Admits(maxRecords, ws[k], steps[k]) ==> Begun(ws[k], steps[k], ws[k + 1])
  {
    var w, s := ws[k], steps[k];
    if s.Admit? {
      IdempotentAdmits(maxRecords, w, s);
    } else if s.AdmitLegacy? {
      LegacyAdmits(maxRecords, w, s);
    } else {
      StepKeepsTerms(maxRecords, w, s);
    }
  }

  lemma TransactionInserts(maxRecords: nat, w: World, s: Step)
    requires s.Admit? && Enabled(maxRecords, w, s)
    ensures Inserts(maxRecords, w, s) <==> Admits(maxRecords, w, s)
  {
    assert forall x :: x in PrunableIds(w.tables.commands) <==>
      x in w.tables.commands && Prunable(w.tables.commands[x].command.state);
    assert s.id in w.tables.commands - s.victims ==> s.id in w.tables.commands;
  }

  lemma IdempotentAdmits(maxRecords: nat, w: World, s: Step)
    requires s.Admit? && Enabled(maxRecords, w, s)
    ensures |AdmitSection(maxRecords, w, s).histories| != |w.histories| <==> Admits(maxRecords, w, s)
    ensures Admits(maxRecords, w, s) ==> Begun(w, s, AdmitSection(maxRecords, w, s))
  {
    TransactionInserts(maxRecords, w, s);
    if Inserts(maxRecords, w, s) { InsertsInto(maxRecords, w, s); } else { RepliesOnly(maxRecords, w, s); }
  }

  lemma LegacyAdmits(maxRecords: nat, w: World, s: Step)
    requires s.AdmitLegacy? && Enabled(maxRecords, w, s)
    ensures |AdmitLegacySection(w, s).histories| != |w.histories| <==> Admits(maxRecords, w, s)
    ensures Admits(maxRecords, w, s) ==> Begun(w, s, AdmitLegacySection(w, s))
  {
    if Admits(maxRecords, w, s) {
      var grown := w.tables.commands[s.id := Row(s.fingerprint, InitialCommand(s.deviceId, s.action, w.now, s.ttl))];
      assert s.victims <= PrunableIds(grown);
    }
  }

  /** The request repeats an earlier one under a live key, the command of which is still in the ledger. */
  predicate RepeatsKey(w: World, s: Step)
    requires s.Admit?
  {
    && s.key in w.tables.dedup && w.now < w.tables.dedup[s.key].expiresAt
    && w.tables.dedup[s.key].requestHash == s.hash && w.tables.dedup[s.key].commandId in w.tables.commands
  }

  /** A request that is not admitted starts nothing and changes no row. It is answered from memory, or else from the
      ledger, and then memory holds the row that answers it, be it found by its id or by its key. */
  lemma RepeatsAnswered(maxRecords: nat, w: World, s: Step)
    requires s.Admit? && Enabled(maxRecords, w, s) && !Admits(maxRecords, w, s)
    ensures var v := Apply(maxRecords, w, s);
      && v.tasks == w.tasks && v.owner == w.owner && v.histories == w.histories
      && v.tables.commands == w.tables.commands && v.reviews == w.reviews
      && v.cache == (if s.held || s.id in w.cache then w.cache
                     else if s.id in w.tables.commands then w.cache[s.id := w.tables.commands[s.id]]
                     else if RepeatsKey(w, s) then
                       var first := w.tables.dedup[s.key].commandId;
                       w.cache[first := w.tables.commands[first]]
                     else w.cache)
  {
    TransactionInserts(maxRecords, w, s);
    RepliesOnly(maxRecords, w, s);
    RepliedMemory(maxRecords, w, s);
  }

  lemma RepliedMemory(maxRecords: nat, w: World, s: Step)
    requires s.Admit? && !Inserts(maxRecords, w, s)
    ensures !s.held && s.id !in w.cache && s.id !in w.tables.commands ==>
      AdmitSection(maxRecords, w, s).cache ==
        if RepeatsKey(w, s) then w.cache[w.tables.dedup[s.key].commandId :=
                                           w.tables.commands[w.tables.dedup[s.key].commandId]]
        else w.cache
  {
  }

  // ------------------------------------------------- what a transition records

  /** The thread of `id` has begun to save a transition. */
  predicate Begins(w: World, v: World, id: CommandId) {
    id in v.tasks && v.tasks[id].Saving? && !(id in w.tasks && w.tasks[id].Saving?)
  }

  /** The record in memory has become the snapshot: stamped with the time, one revision up, and asking for the same. */
  predicate Stamped(w: World, v: World, id: CommandId)
    requires id in v.tasks && v.tasks[id].Saving?
  {
    && id in w.cache && id in v.cache && v.cache[id] == w.cache[id].(command := v.tasks[id].snapshot)
    && var c, d := w.cache[id].command, v.tasks[id].snapshot;
       d.updatedAt == w.now && d.revision == c.revision + 1 && SameTarget(c, d)
  }

  lemma WorkerStamps(maxRecords: nat, w: World, s: Step, id: CommandId)
    requires Enabled(maxRecords, w, s) && Begins(w, Apply(maxRecords, w, s), id)
    requires s.Submit? || s.Take? || s.Decide? || s.Start? || s.Settle? || s.SubmitFeedback? || s.GiveUp?
    ensures Stamped(w, Apply(maxRecords, w, s), id)
  {
  }

  lemma AdapterStamps(maxRecords: nat, w: World, s: Step, id: CommandId)
    requires Enabled(maxRecords, w, s) && Begins(w, Apply(maxRecords, w, s), id)
    requires s.Invoke? || s.Return? || s.Observe?
    ensures Stamped(w, Apply(maxRecords, w, s), id)
  {
  }

  /** The other sections begin no transition. */
  lemma OthersStamp(maxRecords: nat, w: World, s: Step, id: CommandId)
    requires Inv(w) && Enabled(maxRecords, w, s)
    requires s.Persist? || s.RecordTiming? || s.PersistTiming? || s.Admit? || s.AdmitLegacy?
    ensures !Begins(w, Apply(maxRecords, w, s), id)
  {
    if s.Admit? {
      if Inserts(maxRecords, w, s) { InsertsInto(maxRecords, w, s); } else { RepliesOnly(maxRecords, w, s); }
    } else if s.Persist? {
      LiveRecord(w, s.id);
    }
  }

  lemma QuietStamp(maxRecords: nat, w: World, s: Step, id: CommandId)
    requires Enabled(maxRecords, w, s)
    requires s.Tick? || s.PruneCache? || s.Crash? || s.Load? || s.Recover? || s.Resume? || s.BeginReview? || s.Announce?
    ensures !Begins(w, Apply(maxRecords, w, s), id)
  {
  }

  lemma ReviewStamps(maxRecords: nat, w: World, s: Step, id: CommandId)
    requires Enabled(maxRecords, w, s) && (s.AppendReview? || s.RecordEvidence? || s.PersistEvidence?)
    ensures !Begins(w, Apply(maxRecords, w, s), id)
  {
    match s
    case AppendReview(call, conclusion, allowRetry) =>
      assert AppendReviewSection(w, call, conclusion, allowRetry).tasks == w.tasks;
    case RecordEvidence(call) => assert RecordEvidenceSection(w, call).tasks == w.tasks;
    case PersistEvidence(call) => assert PersistEvidenceSection(w, call).tasks == w.tasks;
  }

  lemma StepStamps(maxRecords: nat, w: World, s: Step, id: CommandId)
    requires Inv(w) && Enabled(maxRecords, w, s) && Begins(w, Apply(maxRecords, w, s), id)
    ensures Stamped(w, Apply(maxRecords, w, s), id)
  {
    if s.Submit? || s.Take? || s.Decide? || s.Start? || s.Settle? || s.SubmitFeedback? || s.GiveUp? {
      WorkerStamps(maxRecords, w, s, id);
    } else if s.Invoke? || s.Return? || s.Observe? {
      AdapterStamps(maxRecords, w, s, id);
    } else if s.Persist? || s.RecordTiming? || s.PersistTiming? || s.Admit? || s.AdmitLegacy? {
      OthersStamp(maxRecords, w, s, id);
    } else if s.AppendReview? || s.RecordEvidence? || s.PersistEvidence? {
      ReviewStamps(maxRecords, w, s, id);
    } else {
      QuietStamp(maxRecords, w, s, id);
    }
  }

  /** Whatever section begins a transition, of whatever thread, the record in memory becomes the snapshot to save: with
      the time of the section, the next revision, the number of the next event, and all that was requested as before. */
  lemma TransitionsStamp(maxRecords: nat, ws: seq<World>, steps: seq<Step>, k: nat, id: CommandId)
    requires Run(maxRecords, ws, steps) && k < |steps| && Begins(ws[k], ws[k + 1], id)
    ensures Stamped(ws[k], ws[k + 1], id)
    ensures Owned(ws[k + 1], id)
    ensures ws[k + 1].tasks[id].snapshot.lastEventSeq == Some(|ws[k + 1].histories[ws[k + 1].owner[id]].events| + 1)
  {
    RunInv(maxRecords, ws, steps, k);
    RunInv(maxRecords, ws, steps, k + 1);
    assert CommandOk(ws[k + 1], id);
    StepStamps(maxRecords, ws[k], steps[k], id);
  }

  // --------------------------------------------------------- the decision

  /** What the worker is about to save of the request `s`, made in world `w`, depends on whether its time to live has
      passed and on whether the domain may execute. */
  predicate DecidedBy(stage: Stage, now: int, w: World, s: Step, id: CommandId, domainReady: bool) {
    && stage.Saving? && Requests(w, s, id, stage.snapshot)
    && (stage.snapshot.state == Expired <==> now > w.now + s.ttl)
    && (stage.snapshot.state == Rejected <==> now <= w.now + s.ttl && !domainReady)
    && (stage.snapshot.state == Accepted <==> now <= w.now + s.ttl && domainReady)
  }

  /** In every run a worker that takes a command up ends it as expired if and only if the deadline of its admission has
      passed, rejects it if and only if it is in time and the domain is not available, and accepts it otherwise. */
  lemma DecidesByDeadline(maxRecords: nat, ws: seq<World>, steps: seq<Step>, k: nat, id: CommandId)
    requires Run(maxRecords, ws, steps) && k < |steps| && steps[k].Decide? && steps[k].id == id
    ensures Owned(ws[k], id) && SameAdmission(ws[k], ws[k + 1], id) && id in ws[k + 1].tasks
    ensures exists j :: 0 <= j < k && |ws[j].histories| == ws[k].owner[id]
                        && DecidedBy(ws[k + 1].tasks[id], ws[k].now, ws[j], steps[j], id, steps[k].domainReady)
  {
    RunInv(maxRecords, ws, steps, k);
    LiveRecord(ws[k], id);
    assert ws[k + 1] == Apply(maxRecords, ws[k], steps[k]);
    RecordsAreRequests(maxRecords, ws, steps, k, id);
    var c := ws[k].cache[id].command;
    var j :| 0 <= j < k && Requests(ws[j], steps[j], id, c) && |ws[j].histories| == ws[k].owner[id];
    assert DecidedBy(ws[k + 1].tasks[id], ws[k].now, ws[j], steps[j], id, steps[k].domainReady);
  }

  // ------------------------------------------------- delivered in time

  /** Between the decision and the delivery. */
  predicate PastDeciding(w: World, id: CommandId) {
    id in w.tasks && match w.tasks[id]
      case Starting => true
      case Ready => true
      case Saving(c) => c.state.Accepted? || c.state.Executing?
      case _ => false
  }

  /** The step accepts command `id` for execution, before its deadline. */
  predicate Accepts(w: World, s: Step, id: CommandId) {
    s.Decide? && s.id == id && s.domainReady && id in w.cache && w.now <= w.cache[id].command.expiresAt
  }

  lemma WorkerAccepts(maxRecords: nat, w: World, s: Step, id: CommandId)
    requires Enabled(maxRecords, w, s) && PastDeciding(Apply(maxRecords, w, s), id)
    requires s.Submit? || s.Take? || s.Decide? || s.Start? || s.Settle? || s.SubmitFeedback? || s.GiveUp?
    ensures Accepts(w, s, id) || PastDeciding(w, id)
  {
  }

  lemma AdapterAccepts(maxRecords: nat, w: World, s: Step, id: CommandId)
    requires Enabled(maxRecords, w, s) && PastDeciding(Apply(maxRecords, w, s), id)
    requires s.Invoke? || s.Return? || s.Observe?
    ensures PastDeciding(w, id)
  {
  }

  lemma TimingAccepts(maxRecords: nat, w: World, s: Step, id: CommandId)
    requires Enabled(maxRecords, w, s) && PastDeciding(Apply(maxRecords, w, s), id)
    requires s.RecordTiming? || s.PersistTiming?
    ensures PastDeciding(w, id)
  {
  }

  lemma PersistAccepts(w: World, x: CommandId, id: CommandId)
    requires x in w.tasks && w.tasks[x].Saving? && Owned(w, x) && x in w.tables.commands
    requires PastDeciding(PersistSection(w, x), id)
    ensures PastDeciding(w, id)
  {
  }

  lemma QuietAccepts(maxRecords: nat, w: World, s: Step, id: CommandId)
    requires Enabled(maxRecords, w, s) && PastDeciding(Apply(maxRecords, w, s), id)
    requires s.Tick? || s.PruneCache? || s.Crash? || s.Load? || s.Recover? || s.Resume? || s.BeginReview? || s.Announce?
    ensures PastDeciding(w, id)
  {
  }

  lemma ReviewAccepts(maxRecords: nat, w: World, s: Step, id: CommandId)
    requires Enabled(maxRecords, w, s) && PastDeciding(Apply(maxRecords, w, s), id)
    requires s.AppendReview? || s.RecordEvidence? || s.PersistEvidence?
    ensures PastDeciding(w, id)
  {
    match s
    case AppendReview(call, conclusion, allowRetry) =>
      assert AppendReviewSection(w, call, conclusion, allowRetry).tasks == w.tasks;
    case RecordEvidence(call) => assert RecordEvidenceSection(w, call).tasks == w.tasks;
    case PersistEvidence(call) => assert PersistEvidenceSection(w, call).tasks == w.tasks;
  }

  lemma AdmissionAccepts(maxRecords: nat, w: World, s: Step, id: CommandId)
    requires Enabled(maxRecords, w, s) && PastDeciding(Apply(maxRecords, w, s), id) && (s.Admit? || s.AdmitLegacy?)
    ensures PastDeciding(w, id)
  {
    if s.Admit? {
      if Inserts(maxRecords, w, s) { InsertsInto(maxRecords, w, s); } else { RepliesOnly(maxRecords, w, s); }
    }
  }

  /** A thread gets past the decision only by being accepted in time. */
  lemma StepAccepts(maxRecords: nat, w: World, s: Step, id: CommandId)
    requires Inv(w) && Enabled(maxRecords, w, s) && PastDeciding(Apply(maxRecords, w, s), id)
    ensures Accepts(w, s, id) || PastDeciding(w, id)
  {
    if s.Submit? || s.Take? || s.Decide? || s.Start? || s.Settle? || s.SubmitFeedback? || s.GiveUp? {
      WorkerAccepts(maxRecords, w, s, id);
    } else if s.Persist? {
      PersistAccepts(w, s.id, id);
    } else if s.Invoke? || s.Return? || s.Observe? {
      AdapterAccepts(maxRecords, w, s, id);
    } else if s.RecordTiming? || s.PersistTiming? {
      TimingAccepts(maxRecords, w, s, id);
    } else if s.AppendReview? || s.RecordEvidence? || s.PersistEvidence? {
      ReviewAccepts(maxRecords, w, s, id);
    } else if s.Admit? || s.AdmitLegacy? {
      AdmissionAccepts(maxRecords, w, s, id);
    } else {
      QuietAccepts(maxRecords, w, s, id);
    }
  }

  /** Before the i-th world command `id` was accepted in time, under the admission. */
  ghost predicate AcceptedBefore(ws: seq<World>, steps: seq<Step>, i: nat, id: CommandId, admission: nat)
    requires i <= |steps| < |ws|
  {
    exists k :: 0 <= k < i && Accepts(ws[k], steps[k], id) && Owned(ws[k], id) && ws[k].owner[id] == admission
  }

  lemma {:induction false} PastIsAccepted(maxRecords: nat, ws: seq<World>, steps: seq<Step>, i: nat, id: CommandId)
    requires Run(maxRecords, ws, steps) && i < |ws| && PastDeciding(ws[i], id)
    ensures Owned(ws[i], id) && AcceptedBefore(ws, steps, i, id, ws[i].owner[id])
  {
    RunInv(maxRecords, ws, steps, i);
    LiveRecord(ws[i], id);
    if i > 0 {
      RunInv(maxRecords, ws, steps, i - 1);
      assert ws[i - 1 + 1] == Apply(maxRecords, ws[i - 1], steps[i - 1]);
      StepAccepts(maxRecords, ws[i - 1], steps[i - 1], id);
      if Accepts(ws[i - 1], steps[i - 1], id) { LiveRecord(ws[i - 1], id); }
      StepRow(maxRecords, ws[i - 1], steps[i - 1], id);
      LiveOrNew(ws[i - 1], id);
      if PastDeciding(ws[i - 1], id) { PastIsAccepted(maxRecords, ws, steps, i - 1, id); }
    }
  }

  lemma LiveOrNew(w: World, id: CommandId)
    requires Inv(w)
    ensures id in w.tasks ==> id in w.tables.commands && Owned(w, id)
  {
    assert CommandOk(w, id);
  }

  /** A step at which command `id` was accepted no later than its deadline, some time after the request that set it. */
  predicate InTime(w: World, s: Step, v: World, t: Step, id: CommandId, admission: nat) {
    && (s.Admit? || s.AdmitLegacy?) && s.id == id && |w.histories| == admission
    && t == Decide(id, true) && id in v.owner && v.owner[id] == admission
    && v.now <= w.now + s.ttl
  }

  lemma RowOfAccepted(maxRecords: nat, ws: seq<World>, steps: seq<Step>, k: nat, id: CommandId)
    requires Run(maxRecords, ws, steps) && k < |steps| && Accepts(ws[k], steps[k], id)
    ensures id in ws[k].tables.commands
  {
    RunInv(maxRecords, ws, steps, k);
    LiveRecord(ws[k], id);
  }

  lemma AcceptedInTime(maxRecords: nat, ws: seq<World>, steps: seq<Step>, k: nat, id: CommandId)
    requires Run(maxRecords, ws, steps) && k < |steps| && Accepts(ws[k], steps[k], id) && Owned(ws[k], id)
    requires id in ws[k].tables.commands
    ensures exists j :: 0 <= j < k && InTime(ws[j], steps[j], ws[k], steps[k], id, ws[k].owner[id])
  {
    RecordsAreRequests(maxRecords, ws, steps, k, id);
    var c := ws[k].cache[id].command;
    var j :| 0 <= j < k && Requests(ws[j], steps[j], id, c) && |ws[j].histories| == ws[k].owner[id];
    assert InTime(ws[j], steps[j], ws[k], steps[k], id, ws[k].owner[id]);
  }

  /** Nothing is delivered late: whenever a command is handed to the adapter, its worker had decided so, under the same
      admission and in a domain that may execute, at a time no later than the admission plus the time to live that was
      requested. */
  lemma DeliveredInTime(maxRecords: nat, ws: seq<World>, steps: seq<Step>, m: nat, id: CommandId)
    requires Run(maxRecords, ws, steps) && m < |steps| && Delivers(ws[m], steps[m], id)
    ensures Owned(ws[m], id)
    ensures exists j, k :: 0 <= j < k < m && InTime(ws[j], steps[j], ws[k], steps[k], id, ws[m].owner[id])
  {
    PastIsAccepted(maxRecords, ws, steps, m, id);
    var k :| 0 <= k < m && Accepts(ws[k], steps[k], id) && Owned(ws[k], id) && ws[k].owner[id] == ws[m].owner[id];
    RowOfAccepted(maxRecords, ws, steps, k, id);
    AcceptedInTime(maxRecords, ws, steps, k, id);
    var j :| 0 <= j < k && InTime(ws[j], steps[j], ws[k], steps[k], id, ws[k].owner[id]);
    assert InTime(ws[j], steps[j], ws[k], steps[k], id, ws[m].owner[id]);
  }

  // --------------------------------------------------------- the quarantine

  /** A driver came back late from a call. */
  predicate Violates(s: Step) {
    s.Return? && s.violated
  }

  lemma StepQuarantines(maxRecords: nat, w: World, s: Step)
    requires Enabled(maxRecords, w, s)
    ensures Apply(maxRecords, w, s).quarantined <==> s != Crash && (w.quarantined || Violates(s))
  {
    if s.Admit? {
      if Inserts(maxRecords, w, s) { InsertsInto(maxRecords, w, s); } else { RepliesOnly(maxRecords, w, s); }
    } else if s.RecordEvidence? {
      assert RecordEvidenceSection(w, s.call).quarantined == w.quarantined;
    }
  }

  ghost predicate QuarantineChain(ws: seq<World>, steps: seq<Step>) {
    && |ws| == |steps| + 1 && !ws[0].quarantined
    && forall k {:trigger steps[k]} :: 0 <= k < |steps| ==>
         (ws[k + 1].quarantined <==> steps[k] != Crash && (ws[k].quarantined || Violates(steps[k])))
  }

  lemma RunQuarantines(maxRecords: nat, ws: seq<World>, steps: seq<Step>)
    requires Run(maxRecords, ws, steps)
    ensures QuarantineChain(ws, steps)
  {
    forall k | 0 <= k < |steps|
      ensures ws[k + 1].quarantined <==> steps[k] != Crash && (ws[k].quarantined || Violates(steps[k]))
    {
      StepQuarantines(maxRecords, ws[k], steps[k]);
    }
  }

  /** Some step before the i-th world violated the driver's contract, and there was no crash since. */
  ghost predicate ViolatedSince(steps: seq<Step>, i: nat)
    requires i <= |steps|
  {
    exists k :: 0 <= k < i && Violates(steps[k]) && forall m :: k < m < i ==> steps[m] != Crash
  }

  lemma {:induction false} ChainQuarantined(ws: seq<World>, steps: seq<Step>, i: nat)
    requires QuarantineChain(ws, steps) && i < |ws|
    ensures ws[i].quarantined <==> ViolatedSince(steps, i)
  {
    if i > 0 {
      ChainQuarantined(ws, steps, i - 1);
      var s := steps[i - 1];
      if ws[i].quarantined && !Violates(s) {
        var k :| 0 <= k < i - 1 && Violates(steps[k]) && forall m :: k < m < i - 1 ==> steps[m] != Crash;
        assert Violates(steps[k]);
      }
    }
  }

  /** The adapter is quarantined exactly when a bounded driver has come back late since the last start, and then no
      worker hands it any command: each goes on as not sent. */
  lemma QuarantineStopsDelivery(maxRecords: nat, ws: seq<World>, steps: seq<Step>, i: nat)
    requires Run(maxRecords, ws, steps) && i < |steps|
    ensures ws[i].quarantined <==> ViolatedSince(steps, i)
    ensures steps[i].Invoke? && ViolatedSince(steps, i) ==>
      ws[i + 1].histories == ws[i].histories && ws[i + 1].tasks == ws[i].tasks[steps[i].id := Returning(NotSent)]
  {
    RunQuarantines(maxRecords, ws, steps);
    ChainQuarantined(ws, steps, i);
    assert ws[i + 1] == Apply(maxRecords, ws[i], steps[i]);
  }
}
