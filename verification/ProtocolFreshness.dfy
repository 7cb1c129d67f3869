/** How memory, ledger, events and reviews of a command stay in step: as long as its ledger row is not copied over an
    in-memory record that is ahead of it. The row is written after the record changes, under another lock, and a
    repeated request copies it back in between. */
module ProtocolFreshness {
  import opened Basics
  import opened CommandTypes
  import opened CommandLedger
  import opened CommandProtocol
  import opened ProtocolSafety
  import opened ProtocolTheorems
  import opened ProtocolOutcomes

  // ------------------------------------------------------- the stale copy

  /** Which ledger row an admission copies into memory, if any. */
  function Copied(maxRecords: nat, w: World, s: Step): Option<CommandId> {
    if s.Admit? && !s.held && s.id !in w.cache then
      if s.id in w.tables.commands then Some(s.id)
      else
        var (t, outcome) := Transaction(maxRecords, w, s);
        if outcome == Duplicate && s.key in t.dedup && t.dedup[s.key].commandId in t.commands
        then Some(t.dedup[s.key].commandId)
        else None
    else if s.AdmitLegacy? && s.id !in w.cache && s.id in w.tables.commands then Some(s.id)
    else None
  }

  /** The ledger row lags what memory holds, or what a thread whose record was evicted is about to save. */
  predicate Lags(w: World, id: CommandId) {
    && id in w.tables.commands
    && if id in w.cache then w.cache[id].command != w.tables.commands[id].command else id in w.tasks
  }

  /** The step copies the row of `id` over what lags behind. */
  predicate CopiesStale(maxRecords: nat, w: World, s: Step, id: CommandId) {
    Copied(maxRecords, w, s) == Some(id) && Lags(w, id)
  }

  // ---------------------------------------------------- records in step

  /** `x` is `c` or an earlier version of it. */
  predicate Behind(x: Command, c: Command) {
    x.revision <= c.revision && (x.revision == c.revision ==> x == c) && SameTarget(x, c)
  }

  /** Record `r` is the version that `depth` saved transitions of a fresh command lead to. */
  predicate Version(r: Command, last: CommandState, depth: nat) {
    r.revision == depth + 1 && r.state == last
  }

  predicate TaskInStep(stage: Stage, row: Command, cached: Option<Command>, last: CommandState, depth: nat) {
    match stage
    case Saving(s) =>
      && s.revision == depth + 2 && SameTarget(s, row)
      && (if s.state == OutcomeUnknown
          then cached.Some? && cached.value.state == OutcomeUnknown && Behind(s, cached.value)
            && Behind(row, cached.value)
               && (row.state == OutcomeUnknown || Version(row, last, depth))
          else Version(row, last, depth) && (cached.Some? ==> cached.value == s))
    case SavingTiming(_, s) => Version(row, last, depth) && cached == Some(row) && s == row
    case _ => Version(row, last, depth) && cached == Some(row)
  }

  function Cached(w: World, id: CommandId): Option<Command> {
    if id in w.cache then Some(w.cache[id].command) else None
  }

  predicate IdleInStep(w: World, row: Command, cached: Option<Command>, last: CommandState, depth: nat) {
    && (w.running ==> Terminal(row.state))
    && (row.state != OutcomeUnknown ==> Version(row, last, depth) && (cached.Some? ==> cached.value == row))
    && (Terminal(last) ==> row.state == last)
    && (cached.Some? ==> cached.value.state == row.state && Behind(row, cached.value))
    && (cached.Some? && !w.running ==> cached.value == row)
  }

  predicate InStep(w: World, id: CommandId) {
    id in w.tables.commands ==>
      && Owned(w, id)
      && var es := w.histories[w.owner[id]].events;
         if id in w.tasks then
           TaskInStep(w.tasks[id], w.tables.commands[id].command, Cached(w, id), LastState(es), |es|)
         else IdleInStep(w, w.tables.commands[id].command, Cached(w, id), LastState(es), |es|)
  }

  predicate ReviewInStep(w: World, call: nat)
    requires call in w.reviews
  {
    var id := w.reviews[call].id;
    && id in w.tables.commands
    && (id in w.tasks || w.tables.commands[id].command.state == OutcomeUnknown)
    && (w.reviews[call].Unsaved? ==>
          id in w.cache && w.reviews[call].snapshot.state == OutcomeUnknown
            && Behind(w.reviews[call].snapshot, w.cache[id].command))
  }

  /** Every event carries the revision after the one before it; revision 1 is the unannounced admission. */
  predicate EventsNumbered(es: seq<Event>) {
    forall i :: 0 <= i < |es| ==> es[i].revision == i + 2
  }

  /** Everything that is known of command `x` is in step. */
  ghost predicate Current(w: World, x: CommandId) {
    && InStep(w, x)
    && (forall call :: call in w.reviews && w.reviews[call].id == x ==> ReviewInStep(w, call))
    && (Owned(w, x) ==> EventsNumbered(w.histories[w.owner[x]].events))
  }

  // ----------------------------------------------------------- preservation

  /** The two worlds know the same of a command. */
  predicate SameOf(w: World, v: World, x: CommandId) {
    && v.running == w.running
    && (Owned(v, x) <==> Owned(w, x)) && (Owned(w, x) ==> v.histories[v.owner[x]] == w.histories[w.owner[x]])
    && (x in v.tables.commands <==> x in w.tables.commands)
    && (x in w.tables.commands ==> v.tables.commands[x] == w.tables.commands[x])
    && (x in v.tasks <==> x in w.tasks) && (x in w.tasks ==> v.tasks[x] == w.tasks[x])
    && (x in v.cache <==> x in w.cache) && (x in w.cache ==> v.cache[x] == w.cache[x])
  }

  /** No review of the command does anything. */
  predicate SameReviews(w: World, v: World, x: CommandId) {
    forall call :: call in v.reviews && v.reviews[call].id == x ==>
      call in w.reviews && v.reviews[call] == w.reviews[call]
  }

  lemma SameInStep(w: World, v: World, x: CommandId)
    requires SameOf(w, v, x) && InStep(w, x)
    ensures InStep(v, x)
  {
    assert Cached(v, x) == Cached(w, x);
  }

  lemma UntouchedInStep(w: World, v: World, x: CommandId)
    requires SameOf(w, v, x) && SameReviews(w, v, x) && Current(w, x)
    ensures Current(v, x)
  {
    SameInStep(w, v, x);
    forall call | call in v.reviews && v.reviews[call].id == x ensures ReviewInStep(v, call) {
      assert ReviewInStep(w, call);
    }
  }

  /** A section of command `id` leaves every other command in step, and its own if its record and reviews are. */
  lemma OneInStep(w: World, v: World, id: CommandId, x: CommandId)
    requires Inv(w) && Current(w, x) && OnlyTouches(w, v, id)
    requires x == id ==> InStep(v, x) && (Owned(w, x) ==> EventsNumbered(v.histories[w.owner[x]].events))
    requires x == id ==> forall call :: call in w.reviews && w.reviews[call].id == x ==> ReviewInStep(v, call)
    ensures Current(v, x)
  {
    if x != id { UntouchedInStep(w, v, x); }
  }

  lemma BeginInStep(w: World, id: CommandId, state: CommandState, seqNo: nat, x: CommandId)
    requires Inv(w) && Current(w, x) && w.running && id in w.tasks && CanBegin(w, id, state)
    requires !w.tasks[id].Saving? && !w.tasks[id].SavingTiming?
    ensures Current(Begin(w, id, state, seqNo), x)
  {
    LiveRecord(w, id);
    NotReviewed(w, id);
    OneInStep(w, Begin(w, id, state, seqNo), id, x);
  }

  lemma RequeueInStep(w: World, id: CommandId, stage: Stage, x: CommandId)
    requires Inv(w) && Current(w, x) && id in w.tasks && !w.tasks[id].Saving? && !w.tasks[id].SavingTiming?
    requires !stage.Saving? && !stage.SavingTiming?
    ensures Current(w.(tasks := w.tasks[id := stage]), x)
  {
    LiveRecord(w, id);
    NotReviewed(w, id);
    OneInStep(w, w.(tasks := w.tasks[id := stage]), id, x);
  }

  lemma CallInStep(w: World, id: CommandId, unsafeDriver: bool, x: CommandId)
    requires Inv(w) && Current(w, x) && At(w, id, Ready)
    ensures Current(InvokeSection(w, id, unsafeDriver), x)
  {
    LiveRecord(w, id);
    NotReviewed(w, id);
    OneInStep(w, InvokeSection(w, id, unsafeDriver), id, x);
  }

  lemma ReturnInStep(w: World, id: CommandId, c: Certainty, violated: bool, x: CommandId)
    requires Inv(w) && Current(w, x) && At(w, id, Calling)
    ensures Current(ReturnSection(w, id, c, violated), x)
  {
    LiveRecord(w, id);
    NotReviewed(w, id);
    OneInStep(w, ReturnSection(w, id, c, violated), id, x);
  }

  lemma RecordTimingInStep(w: World, id: CommandId, x: CommandId)
    requires Inv(w) && Current(w, x) && id in w.tasks && w.tasks[id].Returning? && id in w.cache
    ensures Current(RecordTimingSection(w, id), x)
  {
    LiveRecord(w, id);
    NotReviewed(w, id);
    OneInStep(w, RecordTimingSection(w, id), id, x);
  }

  lemma PersistTimingInStep(w: World, id: CommandId, x: CommandId)
    requires Inv(w) && Current(w, x) && id in w.tasks && w.tasks[id].SavingTiming? && id in w.tables.commands
    ensures Current(PersistTimingSection(w, id), x)
  {
    LiveRecord(w, id);
    NotReviewed(w, id);
    OneInStep(w, PersistTimingSection(w, id), id, x);
  }

  lemma ObserveInStep(w: World, id: CommandId, f: Feedback, x: CommandId)
    requires Inv(w) && Current(w, x) && At(w, id, Monitoring) && (f != Pending ==> CanBegin(w, id, Verdict(f)))
    ensures Current(ObserveSection(w, id, f), x)
  {
    LiveRecord(w, id);
    NotReviewed(w, id);
    OneInStep(w, ObserveSection(w, id, f), id, x);
  }

  /** Saving a transition in step leaves the record in step with what comes next. */
  lemma SavedInStep(w: World, s: Command, row: Command, cached: Option<Command>, last: CommandState, depth: nat)
    requires TaskInStep(Saving(s), row, cached, last, depth) && Edge(last, s.state) && w.running
    requires cached.Some? || Prunable(s.state)
    ensures match Next(s.state)
      case Some(stage) => TaskInStep(stage, s, cached, s.state, depth + 1)
      case None => IdleInStep(w, s, cached, s.state, depth + 1)
  {
  }

  /** A thread is about to save a transition of `id`. */
  predicate AtSaving(w: World, id: CommandId) {
    w.running && id in w.tasks && w.tasks[id].Saving? && Owned(w, id) && id in w.tables.commands
  }

  lemma PersistedInStep(w: World, id: CommandId)
    requires Inv(w) && Current(w, id) && AtSaving(w, id)
    ensures InStep(PersistSection(w, id), id)
  {
    assert CommandOk(w, id) && InStep(w, id);
    PersistedHistory(w, id);
    var h, s := w.histories[w.owner[id]], w.tasks[id].snapshot;
    SavedInStep(PersistSection(w, id), s, w.tables.commands[id].command, Cached(w, id), LastState(h.events),
                |h.events|);
  }

  lemma PersistedNumbered(w: World, id: CommandId)
    requires Inv(w) && Current(w, id) && AtSaving(w, id)
    ensures EventsNumbered(PersistSection(w, id).histories[w.owner[id]].events)
  {
    assert InStep(w, id) && EventsNumbered(w.histories[w.owner[id]].events);
  }

  lemma PersistedReviews(w: World, id: CommandId, call: nat)
    requires Inv(w) && Current(w, id) && AtSaving(w, id) && call in w.reviews && w.reviews[call].id == id
    ensures ReviewInStep(PersistSection(w, id), call)
  {
    assert ReviewInStep(w, call) && ReviewOk(w, call);
  }

  lemma PersistInStep(w: World, id: CommandId, x: CommandId)
    requires Inv(w) && Current(w, x) && AtSaving(w, id)
    ensures Current(PersistSection(w, id), x)
  {
    if x == id {
      PersistedInStep(w, id);
      PersistedNumbered(w, id);
      forall call | call in w.reviews && w.reviews[call].id == id ensures ReviewInStep(PersistSection(w, id), call) {
        PersistedReviews(w, id, call);
      }
    }
    OneInStep(w, PersistSection(w, id), id, x);
  }

  lemma LoadInStep(w: World, id: CommandId, x: CommandId)
    requires Inv(w) && Current(w, x) && !w.running && id in w.tables.commands
    ensures Current(w.(cache := w.cache[id := w.tables.commands[id]]), x)
  {
    OneInStep(w, w.(cache := w.cache[id := w.tables.commands[id]]), id, x);
  }

  lemma RecoverInStep(w: World, id: CommandId, x: CommandId)
    requires Inv(w) && Current(w, x) && !w.running && id in w.tables.commands
    requires !Terminal(w.tables.commands[id].command.state)
    ensures Current(RecoverSection(w, id), x)
  {
    OneInStep(w, RecoverSection(w, id), id, x);
  }

  lemma PruneCacheInStep(w: World, ids: set<CommandId>, x: CommandId)
    requires Inv(w) && Current(w, x) && ids <= PrunableIds(w.cache)
    ensures Current(w.(cache := w.cache - ids), x)
  {
    var v := w.(cache := w.cache - ids);
    assert CommandOk(w, x) && InStep(w, x);
    forall call | call in v.reviews && v.reviews[call].id == x ensures ReviewInStep(v, call) {
      assert ReviewInStep(w, call) && ReviewOk(w, call);
    }
  }

  lemma CrashInStep(w: World, x: CommandId)
    requires Inv(w) && Current(w, x)
    ensures Current(CrashSection(w), x)
  {
    assert CommandOk(w, x) && InStep(w, x);
  }

  lemma AnnounceInStep(w: World, admission: nat, x: CommandId)
    requires Current(w, x)
    ensures Current(w.(pending := w.pending - {admission}), x)
  {
    UntouchedInStep(w, w.(pending := w.pending - {admission}), x);
  }

  lemma ClockInStep(w: World, now: int, running: bool, x: CommandId)
    requires Inv(w) && Current(w, x) && (w.running ==> running)
    requires running != w.running && x in w.tables.commands ==> Terminal(w.tables.commands[x].command.state)
    ensures Current(w.(now := now, running := running), x)
  {
    var v := w.(now := now, running := running);
    forall call | call in v.reviews && v.reviews[call].id == x ensures ReviewInStep(v, call) {
      assert ReviewInStep(w, call);
    }
  }

  lemma BeginReviewInStep(w: World, call: nat, id: CommandId, x: CommandId)
    requires Inv(w) && Current(w, x) && w.running && call !in w.reviews
    requires Fetched(w, id).Some? && Fetched(w, id).value.state == OutcomeUnknown
    ensures Current(w.(reviews := w.reviews[call := Checked(id)]), x)
  {
    var v := w.(reviews := w.reviews[call := Checked(id)]);
    assert CommandOk(w, id);
    SameInStep(w, v, x);
    forall o | o in v.reviews && v.reviews[o].id == x ensures ReviewInStep(v, o) {
      assert o in w.reviews ==> ReviewInStep(w, o);
    }
  }

  lemma AppendReviewInStep(w: World, call: nat, conclusion: Conclusion, allowRetry: bool, x: CommandId)
    requires Inv(w) && Current(w, x) && call in w.reviews
    ensures Current(AppendReviewSection(w, call, conclusion, allowRetry), x)
  {
    var v := AppendReviewSection(w, call, conclusion, allowRetry);
    SameInStep(w, v, x);
    forall o | o in v.reviews && v.reviews[o].id == x ensures ReviewInStep(v, o) {
      assert ReviewInStep(w, o);
    }
  }

  lemma EvidenceRecorded(w: World, call: nat)
    requires Inv(w) && w.running && call in w.reviews
    requires ReviewInStep(w, call) && ReviewOk(w, call) && InStep(w, w.reviews[call].id)
    ensures InStep(RecordEvidenceSection(w, call), w.reviews[call].id)
    ensures call in RecordEvidenceSection(w, call).reviews ==> ReviewInStep(RecordEvidenceSection(w, call), call)
  {
  }

  lemma EvidenceSparesRecord(w: World, call: nat, x: CommandId)
    requires call in w.reviews && x != w.reviews[call].id
    ensures SameOf(w, RecordEvidenceSection(w, call), x) && SameReviews(w, RecordEvidenceSection(w, call), x)
  {
  }

  lemma BehindEvidence(x: Command, c: Command, now: int)
    requires Behind(x, c)
    ensures Behind(x, WithEvidence(c, now))
  {
  }

  lemma EvidenceSparesReview(w: World, call: nat, o: nat)
    requires call in w.reviews && o in w.reviews && o != call && ReviewInStep(w, o)
    ensures o in RecordEvidenceSection(w, call).reviews && ReviewInStep(RecordEvidenceSection(w, call), o)
  {
    var id := w.reviews[o].id;
    if w.reviews[o].Unsaved? && w.reviews[call].id == id {
      BehindEvidence(w.reviews[o].snapshot, w.cache[id].command, w.now);
    }
  }

  lemma RecordEvidenceInStep(w: World, call: nat, x: CommandId)
    requires Inv(w) && Current(w, x) && w.running && call in w.reviews
    ensures Current(RecordEvidenceSection(w, call), x)
  {
    var v := RecordEvidenceSection(w, call);
    if x != w.reviews[call].id {
      EvidenceSparesRecord(w, call, x);
      UntouchedInStep(w, v, x);
    } else {
      assert ReviewInStep(w, call) && ReviewOk(w, call);
      EvidenceRecorded(w, call);
      forall o | o in v.reviews && v.reviews[o].id == x ensures ReviewInStep(v, o) {
        assert ReviewInStep(w, o);
        if o != call { EvidenceSparesReview(w, call, o); }
      }
    }
  }

  lemma PersistEvidenceInStep(w: World, call: nat, x: CommandId)
    requires Inv(w) && Current(w, x) && w.running && call in w.reviews && w.reviews[call].Unsaved?
    requires w.reviews[call].id in w.tables.commands
    ensures Current(PersistEvidenceSection(w, call), x)
  {
    var v := PersistEvidenceSection(w, call);
    if x != w.reviews[call].id {
      UntouchedInStep(w, v, x);
    } else {
      assert ReviewInStep(w, call) && ReviewOk(w, call);
      assert InStep(v, x);
      forall o | o in v.reviews && v.reviews[o].id == x ensures ReviewInStep(v, o) { assert ReviewInStep(w, o); }
    }
  }

  // -------------------------------------------------------------- admission

  lemma CopyInStep(w: World, id: CommandId, x: CommandId)
    requires Inv(w) && Current(w, x) && id in w.tables.commands && (x == id ==> !Lags(w, id))
    ensures Current(w.(cache := w.cache[id := w.tables.commands[id]]), x)
  {
    var v := w.(cache := w.cache[id := w.tables.commands[id]]);
    if x == id {
      assert InStep(w, id);
      forall call | call in w.reviews && w.reviews[call].id == id ensures ReviewInStep(v, call) {
        assert ReviewInStep(w, call);
      }
    }
    OneInStep(w, v, id, x);
  }

  lemma AdmittedInStep(w: World, id: CommandId, row: Row, t: Tables, key: Option<IdempotencyKey>, dedupUntil: int)
    requires Inv(w) && w.running && id !in w.tables.commands
    requires row.command.state == Issued && row.command.revision == 1 && AcceptedInto(w, id, row, t)
    ensures Current(Accept(w, id, row, t, key, dedupUntil), id)
  {
    forall call | call in w.reviews ensures w.reviews[call].id != id { assert ReviewOk(w, call); }
  }

  lemma OthersInStep(w: World, id: CommandId, row: Row, t: Tables, key: Option<IdempotencyKey>, dedupUntil: int,
                     x: CommandId)
    requires Inv(w) && Current(w, x) && x != id && AcceptedInto(w, id, row, t)
    ensures Current(Accept(w, id, row, t, key, dedupUntil), x)
  {
    var v := Accept(w, id, row, t, key, dedupUntil);
    assert CommandOk(w, x);
    if x in v.tables.commands || x !in w.tables.commands {
      UntouchedInStep(w, v, x);
    } else {
      forall call | call in w.reviews ensures w.reviews[call].id != x { assert ReviewOk(w, call); }
      assert Owned(w, x) ==> v.histories[v.owner[x]] == w.histories[w.owner[x]];
    }
  }

  lemma AcceptInStep(w: World, id: CommandId, row: Row, t: Tables, key: Option<IdempotencyKey>, dedupUntil: int,
                     x: CommandId)
    requires Inv(w) && Current(w, x) && w.running && id !in w.tables.commands
    requires row.command.state == Issued && row.command.revision == 1 && AcceptedInto(w, id, row, t)
    ensures Current(Accept(w, id, row, t, key, dedupUntil), x)
  {
    if x == id {
      AdmittedInStep(w, id, row, t, key, dedupUntil);
    } else {
      OthersInStep(w, id, row, t, key, dedupUntil, x);
    }
  }

  lemma TablesInStep(w: World, t: Tables, x: CommandId)
    requires Current(w, x) && t.commands == w.tables.commands
    ensures Current(w.(tables := t), x)
  {
    UntouchedInStep(w, w.(tables := t), x);
  }

  lemma AdmitInStep(maxRecords: nat, w: World, s: Step, x: CommandId)
    requires Inv(w) && Current(w, x) && s.Admit? && Enabled(maxRecords, w, s) && !CopiesStale(maxRecords, w, s, x)
    ensures Current(AdmitSection(maxRecords, w, s), x)
  {
    if Inserts(maxRecords, w, s) {
      InsertsInto(maxRecords, w, s);
      var row := Row(s.fingerprint, InitialCommand(s.deviceId, s.action, w.now, s.ttl));
      AcceptInStep(w, s.id, row, Transaction(maxRecords, w, s).0, Some(s.key), s.dedupUntil, x);
    } else if s.held || s.id in w.cache {
    } else if s.id in w.tables.commands {
      CopyInStep(w, s.id, x);
    } else {
      var (t, outcome) := Transaction(maxRecords, w, s);
      TransactionAnswers(maxRecords, w, s);
      TablesInStep(w, t, x);
      TablesKeep(w, t);
      if outcome == Duplicate && s.key in t.dedup && t.dedup[s.key].commandId in t.commands {
        CopyInStep(w.(tables := t), t.dedup[s.key].commandId, x);
      }
    }
  }

  lemma AdmitLegacyInStep(maxRecords: nat, w: World, s: Step, x: CommandId)
    requires Inv(w) && Current(w, x) && s.AdmitLegacy? && Enabled(maxRecords, w, s) && !CopiesStale(maxRecords, w, s, x)
    ensures Current(AdmitLegacySection(w, s), x)
  {
    if s.id in w.cache {
    } else if s.id in w.tables.commands {
      CopyInStep(w, s.id, x);
    } else {
      var row := Row(s.fingerprint, InitialCommand(s.deviceId, s.action, w.now, s.ttl));
      var grown := w.tables.commands[s.id := row];
      assert s.victims <= PrunableIds(grown);
      AcceptInStep(w, s.id, row, InsertSpec(w.tables, s.id, s.fingerprint, row.command, s.victims), None, 0, x);
    }
  }

  lemma WorkerInStep(maxRecords: nat, w: World, s: Step, x: CommandId)
    requires Inv(w) && Current(w, x) && Enabled(maxRecords, w, s)
    requires s.Submit? || s.Take? || s.Decide? || s.Start? || s.Settle? || s.SubmitFeedback? || s.GiveUp?
    ensures Current(Apply(maxRecords, w, s), x)
  {
    match s
    case Submit(id, accepted) =>
      if accepted { RequeueInStep(w, id, Queued, x); } else { BeginInStep(w, id, Rejected, 1, x); }
    case Take(id) => BeginInStep(w, id, Received, 1, x);
    case Decide(id, domainReady) => BeginInStep(w, id, Decision(w, id, domainReady), 2, x);
    case Start(id) => BeginInStep(w, id, Executing, 3, x);
    case Settle(id) => BeginInStep(w, id, Settlement(w.tasks[id].certainty), 4, x);
    case SubmitFeedback(id, accepted) =>
      if accepted { RequeueInStep(w, id, Monitoring, x); } else { BeginInStep(w, id, OutcomeUnknown, 5, x); }
    case GiveUp(id) => BeginInStep(w, id, OutcomeUnknown, 5, x);
  }

  lemma AdapterInStep(maxRecords: nat, w: World, s: Step, x: CommandId)
    requires Inv(w) && Current(w, x) && Enabled(maxRecords, w, s)
    requires s.Persist? || s.Invoke? || s.Return? || s.RecordTiming? || s.PersistTiming? || s.Observe?
    ensures Current(Apply(maxRecords, w, s), x)
  {
    match s
    case Persist(id) => PersistInStep(w, id, x);
    case Invoke(id, unsafeDriver) => CallInStep(w, id, unsafeDriver, x);
    case Return(id, c, violated) => ReturnInStep(w, id, c, violated, x);
    case RecordTiming(id) => RecordTimingInStep(w, id, x);
    case PersistTiming(id) => PersistTimingInStep(w, id, x);
    case Observe(id, f) => ObserveInStep(w, id, f, x);
  }

  lemma QuietInStep(maxRecords: nat, w: World, s: Step, x: CommandId)
    requires Inv(w) && Current(w, x) && Enabled(maxRecords, w, s)
    requires s.Tick? || s.PruneCache? || s.Crash? || s.Load? || s.Recover? || s.Resume? || s.Announce?
    ensures Current(Apply(maxRecords, w, s), x)
  {
    match s
    case Tick(now) => ClockInStep(w, now, w.running, x);
    case PruneCache(ids) => PruneCacheInStep(w, ids, x);
    case Crash => CrashInStep(w, x);
    case Load(id) => LoadInStep(w, id, x);
    case Recover(id) => RecoverInStep(w, id, x);
    case Resume => ClockInStep(w, w.now, true, x);
    case Announce(admission) => AnnounceInStep(w, admission, x);
  }

  lemma ReviewStepInStep(maxRecords: nat, w: World, s: Step, x: CommandId)
    requires Inv(w) && Current(w, x) && Enabled(maxRecords, w, s)
    requires s.BeginReview? || s.AppendReview? || s.RecordEvidence? || s.PersistEvidence?
    ensures Current(Apply(maxRecords, w, s), x)
  {
    match s
    case BeginReview(call, id) => BeginReviewInStep(w, call, id, x);
    case AppendReview(call, conclusion, allowRetry) => AppendReviewInStep(w, call, conclusion, allowRetry, x);
    case RecordEvidence(call) => RecordEvidenceInStep(w, call, x);
    case PersistEvidence(call) => PersistEvidenceInStep(w, call, x);
  }

  lemma StepInStep(maxRecords: nat, w: World, s: Step, x: CommandId)
    requires Inv(w) && Current(w, x) && Enabled(maxRecords, w, s) && !CopiesStale(maxRecords, w, s, x)
    ensures Current(Apply(maxRecords, w, s), x)
  {
    if s.Admit? {
      AdmitInStep(maxRecords, w, s, x);
    } else if s.AdmitLegacy? {
      AdmitLegacyInStep(maxRecords, w, s, x);
    } else if s.Submit? || s.Take? || s.Decide? || s.Start? || s.Settle? || s.SubmitFeedback? || s.GiveUp? {
      WorkerInStep(maxRecords, w, s, x);
    } else if s.Persist? || s.Invoke? || s.Return? || s.RecordTiming? || s.PersistTiming? || s.Observe? {
      AdapterInStep(maxRecords, w, s, x);
    } else if s.Tick? || s.PruneCache? || s.Crash? || s.Load? || s.Recover? || s.Resume? || s.Announce? {
      QuietInStep(maxRecords, w, s, x);
    } else {
      ReviewStepInStep(maxRecords, w, s, x);
    }
  }

  /** A run in which no admission copies a lagging row of command `id`; other commands may suffer what they will. */
  ghost predicate FreshRun(maxRecords: nat, ws: seq<World>, steps: seq<Step>, id: CommandId) {
    Run(maxRecords, ws, steps) && forall i :: 0 <= i < |steps| ==> !CopiesStale(maxRecords, ws[i], steps[i], id)
  }

  /** Then memory, ledger, events and outstanding reviews of the command stay in step. */
  lemma {:induction false} RunCurrent(maxRecords: nat, ws: seq<World>, steps: seq<Step>, i: nat, id: CommandId)
    requires FreshRun(maxRecords, ws, steps, id) && i < |ws|
    ensures Inv(ws[i]) && Current(ws[i], id)
  {
    RunInv(maxRecords, ws, steps, i);
    if i > 0 {
      RunCurrent(maxRecords, ws, steps, i - 1, id);
      assert ws[i - 1 + 1] == Apply(maxRecords, ws[i - 1], steps[i - 1]);
      StepInStep(maxRecords, ws[i - 1], steps[i - 1], id);
    }
  }

  /** Without a stale copy no stale evidence arises either, so whatever only needs the latter holds in such runs. */
  lemma FreshIsUndisturbed(maxRecords: nat, ws: seq<World>, steps: seq<Step>, i: nat, j: nat, id: CommandId)
    requires FreshRun(maxRecords, ws, steps, id) && i <= j < |ws|
    ensures Undisturbed(ws, steps, i, j, id)
  {
    forall k | i <= k < j ensures !StaleEvidence(ws[k], steps[k], id) {
      RunCurrent(maxRecords, ws, steps, k, id);
      assert StaleEvidence(ws[k], steps[k], id) ==> ReviewInStep(ws[k], steps[k].call);
    }
  }
}
