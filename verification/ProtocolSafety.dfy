/** What holds in every reachable state of the command protocol, under every interleaving. */
module ProtocolSafety {
  import opened Basics
  import opened CommandTypes
  import opened CommandLedger
  import opened CommandProtocol

  // ------------------------------------------------------- truthful states

  predicate PendingOnly(log: seq<Entry>) {
    forall i :: 0 <= i < |log| ==> log[i] == Observed(Pending)
  }

  /** Exactly one delivery, proven applied, and only undecided observations since. */
  predicate Monitored(log: seq<Entry>) {
    |log| >= 2 && log[..2] == [Invoked, Returned(DeliveryApplied)] && PendingOnly(log[2..])
  }

  predicate Concluded(log: seq<Entry>, f: Feedback) {
    |log| >= 3 && Monitored(log[..|log| - 1]) && log[|log| - 1] == Observed(f)
  }

  predicate Delivered(log: seq<Entry>, c: Certainty) {
    log == [Invoked, Returned(c)] || (c == NotSent && log == [])
  }

  /** A terminal state says the truth about what crossed the adapter; other states claim nothing. */
  predicate Honest(state: CommandState, log: seq<Entry>) {
    match state
    case Rejected => log == []
    case Expired => log == []
    case Failed => Delivered(log, NotSent) || Delivered(log, RejectedByDevice) || Concluded(log, FieldFailed)
    case Confirmed => Concluded(log, FieldConfirmed)
    case _ => true
  }

  /** What has crossed the adapter when a thread ends in `state`, its last transition before having led to `last`. */
  predicate EndsAs(last: CommandState, state: CommandState, log: seq<Entry>) {
    match state
    case Failed =>
      if last.Applied? then Concluded(log, FieldFailed) else Delivered(log, NotSent) || Delivered(log, RejectedByDevice)
    case OutcomeUnknown =>
      if last.Applied? then Monitored(log) || Concluded(log, Unsupported) || Concluded(log, Unreadable)
      else Delivered(log, PossiblyApplied)
    case _ => Honest(state, log)
  }

  predicate AtMostOneInvocation(log: seq<Entry>) {
    forall i, j :: 0 <= i < |log| && 0 <= j < |log| && log[i] == Invoked && log[j] == Invoked ==> i == j
  }

  // -------------------------------------------------------- event traces

  /** The transitions the backend makes. */
  predicate Edge(a: CommandState, b: CommandState) {
    match a
    case Issued => b.Received? || b.Rejected?
    case Received => b.Accepted? || b.Rejected? || b.Expired?
    case Accepted => b.Executing?
    case Executing => b.Applied? || b.Failed? || b.OutcomeUnknown?
    case Applied => b.Confirmed? || b.Failed? || b.OutcomeUnknown?
    case _ => false
  }

  /** A terminal state is one that no transition leaves; all but the unknown outcome are discardable. */
  lemma TerminalIsLast(s: CommandState)
    requires s != TimedOut
    ensures Terminal(s) <==> forall t :: !Edge(s, t)
    ensures Prunable(s) <==> s != OutcomeUnknown && forall t :: !Edge(s, t)
  {
    match s
    case Issued => assert Edge(s, Received);
    case Received => assert Edge(s, Accepted);
    case Accepted => assert Edge(s, Executing);
    case Executing => assert Edge(s, Applied);
    case Applied => assert Edge(s, Confirmed);
    case _ =>
  }

  function LastState(es: seq<Event>): CommandState {
    if es == [] then Issued else es[|es| - 1].state
  }

  predicate LegalTrace(es: seq<Event>) {
    forall i :: 0 <= i < |es| ==> es[i].seqNo == i + 1 && Edge(LastState(es[..i]), es[i].state)
  }

  // ----------------------------------------------------------- invariants

  /** How many transitions lead to a live state. */
  function Rank(s: CommandState): nat {
    match s
    case Issued => 0
    case Received => 1
    case Accepted => 2
    case Executing => 3
    case _ => 4
  }

  /** The state a thread resumes from, and how many transitions lie behind it. */
  predicate StageAfter(stage: Stage, last: CommandState, depth: nat) {
    match stage
    case Admitted => last == Issued && depth == 0
    case Queued => last == Issued && depth == 0
    case Deciding => last == Received && depth == 1
    case Starting => last == Accepted && depth == 2
    case Saving(s) => Edge(last, s.state) && depth == Rank(last) && s.lastEventSeq == Some(depth + 1)
    case Handover => last == Applied && depth == 4
    case Monitoring => last == Applied && depth == 4
    case _ => last == Executing && depth == 3
  }

  predicate LogAt(stage: Stage, log: seq<Entry>) {
    match stage
    case Saving(s) =>
      if s.state.Received? || s.state.Accepted? || s.state.Executing? then log == []
      else if s.state.Applied? then log == [Invoked, Returned(DeliveryApplied)]
      else Terminal(s.state) && Honest(s.state, log)
    case Calling => log == [Invoked]
    case Returning(c) => Delivered(log, c)
    case SavingTiming(c, s) => Delivered(log, c) && !Terminal(s.state)
    case Settling(c) => Delivered(log, c)
    case Handover => log == [Invoked, Returned(DeliveryApplied)]
    case Monitoring => Monitored(log)
    case _ => log == []
  }

  /** A live record is not terminal in the ledger, except that an outstanding review may already have
      saved the uncertainty whose transition is still being saved. */
  predicate RowAt(stage: Stage, row: CommandState) {
    Terminal(row) ==> row == OutcomeUnknown && stage.Saving? && stage.snapshot.state == OutcomeUnknown
  }

  predicate CachedAt(stage: Stage, cached: CommandState) {
    Terminal(cached) ==> stage.Saving? && cached == stage.snapshot.state
  }

  predicate TaskOk(stage: Stage, row: CommandState, h: History) {
    && StageAfter(stage, LastState(h.events), |h.events|)
    && LogAt(stage, h.log)
    && (stage.Saving? ==> EndsAs(LastState(h.events), stage.snapshot.state, h.log))
    && RowAt(stage, row)
  }

  predicate Undecided(s: CommandState) {
    s == OutcomeUnknown || !Terminal(s)
  }

  /** The in-memory record is there; only one whose last, certain transition is being saved may have been evicted. */
  predicate InMemory(w: World, id: CommandId)
    requires id in w.tasks
  {
    id in w.cache || (w.tasks[id].Saving? && Prunable(w.tasks[id].snapshot.state))
  }

  predicate CommandOk(w: World, id: CommandId) {
    && (id in w.tasks ==>
          && InMemory(w, id) && id in w.tables.commands && Owned(w, id)
          && TaskOk(w.tasks[id], w.tables.commands[id].command.state, w.histories[w.owner[id]])
          && (id in w.cache ==> CachedAt(w.tasks[id], w.cache[id].command.state)))
    && (id !in w.tasks && id in w.tables.commands ==>
          Owned(w, id) && Honest(w.tables.commands[id].command.state, w.histories[w.owner[id]].log))
    && (id !in w.tasks && id in w.cache ==>
          && Owned(w, id) && Honest(w.cache[id].command.state, w.histories[w.owner[id]].log)
          && (w.cache[id].command.state == OutcomeUnknown ==>
                id in w.tables.commands && Undecided(w.tables.commands[id].command.state)))
  }

  /** A record under review stays undecided in the ledger. */
  predicate UnderReview(w: World, id: CommandId) {
    && id in w.tables.commands
    && Undecided(w.tables.commands[id].command.state)
    && (id in w.tasks ==> w.tasks[id].Saving? && w.tasks[id].snapshot.state == OutcomeUnknown)
    && (id in w.cache ==> Undecided(w.cache[id].command.state))
  }

  predicate ReviewOk(w: World, call: nat)
    requires call in w.reviews
  {
    && UnderReview(w, w.reviews[call].id)
    && (w.reviews[call].Unsaved? ==>
          Undecided(w.reviews[call].snapshot.state) && w.reviews[call].id in w.cache)
  }

  predicate OwnersDistinct(w: World) {
    && (forall id :: id in w.owner ==> w.owner[id] < |w.histories|)
    && (forall a, b :: a in w.owner && b in w.owner && w.owner[a] == w.owner[b] ==> a == b)
  }

  /** An admission whose last saved transition is terminal has ended as its log says. */
  predicate Ended(h: History) {
    Terminal(LastState(h.events)) ==> EndsAs(LastState(h.events[..|h.events| - 1]), LastState(h.events), h.log)
  }

  predicate HistoryOk(h: History, now: int) {
    AtMostOneInvocation(h.log) && LegalTrace(h.events) && Ended(h) && h.admittedAt <= now
  }

  ghost predicate Inv(w: World) {
    && (forall id :: CommandOk(w, id))
    && OwnersDistinct(w)
    && (forall i :: 0 <= i < |w.histories| ==> HistoryOk(w.histories[i], w.now))
    && (forall call :: call in w.reviews ==> ReviewOk(w, call))
    && (!w.running ==> w.tasks == map[] && w.reviews == map[])
  }

  lemma InitialInv(w: World)
    requires Initial(w)
    ensures Inv(w)
  {
  }

  lemma AppendKeepsTrace(es: seq<Event>, e: Event)
    requires LegalTrace(es) && e.seqNo == |es| + 1 && Edge(LastState(es), e.state)
    ensures LegalTrace(es + [e]) && LastState(es + [e]) == e.state
  {
    forall i | 0 <= i < |es + [e]|
      ensures (es + [e])[i].seqNo == i + 1 && Edge(LastState((es + [e])[..i]), (es + [e])[i].state)
    {
      assert (es + [e])[..i] == es[..i];
      if i == |es| { assert es[..i] == es; }
    }
  }

  lemma MonitoredOnce(log: seq<Entry>)
    requires Monitored(log)
    ensures AtMostOneInvocation(log)
  {
    assert log == log[..2] + log[2..];
  }

  lemma Conclude(log: seq<Entry>, f: Feedback)
    requires Monitored(log)
    ensures Concluded(log + [Observed(f)], f) && AtMostOneInvocation(log + [Observed(f)])
    ensures f == Pending ==> Monitored(log + [Observed(f)])
  {
    var l := log + [Observed(f)];
    assert l[..|l| - 1] == log;
    assert l[..2] == log[..2];
    assert l[2..] == log[2..] + [Observed(f)];
    MonitoredOnce(log);
  }

  // ---------------------------------------------- preservation, step by step

  /** Between the two worlds only one command's records, thread and history differ. */
  ghost predicate OnlyTouches(w: World, v: World, id: CommandId) {
    && v.now == w.now && v.reviews == w.reviews && v.running == w.running && v.owner == w.owner
    && |v.histories| == |w.histories|
    && (forall i :: 0 <= i < |w.histories| && !(Owned(w, id) && i == w.owner[id]) ==> v.histories[i] == w.histories[i])
    && (forall x :: x != id ==> (x in v.tasks <==> x in w.tasks) && (x in w.tasks ==> v.tasks[x] == w.tasks[x]))
    && (forall x :: x != id ==> (x in v.cache <==> x in w.cache) && (x in w.cache ==> v.cache[x] == w.cache[x]))
    && (id in w.cache ==> id in v.cache)
    && (forall x :: x != id ==>
          (x in v.tables.commands <==> x in w.tables.commands)
          && (x in w.tables.commands ==> v.tables.commands[x] == w.tables.commands[x]))
  }

  lemma OneCommandActs(w: World, v: World, id: CommandId)
    requires Inv(w) && OnlyTouches(w, v, id) && CommandOk(v, id)
    requires Owned(w, id) ==> HistoryOk(v.histories[w.owner[id]], w.now)
    requires !w.running ==> id !in v.tasks
    requires forall call :: call in w.reviews && w.reviews[call].id == id ==> UnderReview(v, id)
    ensures Inv(v)
  {
    forall x ensures CommandOk(v, x) {
      assert CommandOk(w, x);
      if x != id && Owned(w, x) {
        assert v.histories[v.owner[x]] == w.histories[w.owner[x]];
      }
    }
    forall call | call in v.reviews ensures ReviewOk(v, call) { assert ReviewOk(w, call); }
    if !w.running { assert v.tasks == map[]; }
  }

  lemma BeginKeeps(w: World, id: CommandId, state: CommandState, seqNo: nat)
    requires Inv(w) && w.running && id in w.tasks && Owned(w, id) && CanBegin(w, id, state) && !w.tasks[id].Saving?
    requires StageAfter(Saving(Moved(w.cache[id].command, state, seqNo, w.now)),
                        LastState(w.histories[w.owner[id]].events), |w.histories[w.owner[id]].events|)
    requires LogAt(Saving(Moved(w.cache[id].command, state, seqNo, w.now)), w.histories[w.owner[id]].log)
    requires EndsAs(LastState(w.histories[w.owner[id]].events), state, w.histories[w.owner[id]].log)
    ensures Inv(Begin(w, id, state, seqNo))
  {
    assert CommandOk(w, id);
    assert forall call :: call in w.reviews ==> ReviewOk(w, call);
    OneCommandActs(w, Begin(w, id, state, seqNo), id);
  }

  /** The reviews of the acting command, if any, leave it with one thing to do: save the uncertainty. */
  lemma NotReviewed(w: World, id: CommandId)
    requires Inv(w) && id in w.tasks && !(w.tasks[id].Saving? && w.tasks[id].snapshot.state == OutcomeUnknown)
    ensures forall call :: call in w.reviews ==> w.reviews[call].id != id
  {
    forall call | call in w.reviews ensures w.reviews[call].id != id { assert ReviewOk(w, call); }
  }

  lemma RequeueKeeps(w: World, id: CommandId, stage: Stage)
    requires Inv(w) && w.running && id in w.tasks
    requires (At(w, id, Admitted) && stage == Queued) || (At(w, id, Handover) && stage == Monitoring)
    ensures Inv(w.(tasks := w.tasks[id := stage]))
  {
    assert CommandOk(w, id);
    NotReviewed(w, id);
    OneCommandActs(w, w.(tasks := w.tasks[id := stage]), id);
  }

  lemma InvokeKeeps(w: World, id: CommandId, unsafeDriver: bool)
    requires Inv(w) && At(w, id, Ready)
    ensures Inv(InvokeSection(w, id, unsafeDriver))
  {
    assert CommandOk(w, id);
    NotReviewed(w, id);
    OneCommandActs(w, InvokeSection(w, id, unsafeDriver), id);
  }

  lemma ReturnKeeps(w: World, id: CommandId, c: Certainty, violated: bool)
    requires Inv(w) && At(w, id, Calling)
    ensures Inv(ReturnSection(w, id, c, violated))
  {
    assert CommandOk(w, id);
    NotReviewed(w, id);
    OneCommandActs(w, ReturnSection(w, id, c, violated), id);
  }

  lemma RecordTimingKeeps(w: World, id: CommandId)
    requires Inv(w) && w.running && id in w.tasks && w.tasks[id].Returning? && id in w.cache
    ensures Inv(RecordTimingSection(w, id))
  {
    assert CommandOk(w, id);
    NotReviewed(w, id);
    OneCommandActs(w, RecordTimingSection(w, id), id);
  }

  lemma PersistTimingKeeps(w: World, id: CommandId)
    requires Inv(w) && w.running && id in w.tasks && w.tasks[id].SavingTiming? && id in w.tables.commands
    ensures Inv(PersistTimingSection(w, id))
  {
    assert CommandOk(w, id);
    NotReviewed(w, id);
    OneCommandActs(w, PersistTimingSection(w, id), id);
  }

  lemma ObserveKeeps(w: World, id: CommandId, f: Feedback)
    requires Inv(w) && At(w, id, Monitoring) && (f != Pending ==> CanBegin(w, id, Verdict(f)))
    ensures Inv(ObserveSection(w, id, f))
  {
    assert CommandOk(w, id);
    Conclude(w.histories[w.owner[id]].log, f);
    NotReviewed(w, id);
    OneCommandActs(w, ObserveSection(w, id, f), id);
  }

  lemma NextStage(c: Command, last: CommandState, depth: nat, log: seq<Entry>)
    requires StageAfter(Saving(c), last, depth) && LogAt(Saving(c), log)
    ensures Next(c.state).Some? <==> !Terminal(c.state)
    ensures Next(c.state).Some? ==>
      StageAfter(Next(c.state).value, c.state, depth + 1) && LogAt(Next(c.state).value, log)
    ensures Next(c.state).Some? ==> !Next(c.state).value.Saving?
    ensures Next(c.state).None? ==> Honest(c.state, log)
  {
  }

  lemma PersistedHistory(w: World, id: CommandId)
    requires Inv(w) && w.running && id in w.tasks && w.tasks[id].Saving? && Owned(w, id) && id in w.tables.commands
    ensures var h, g := w.histories[w.owner[id]], PersistSection(w, id).histories[w.owner[id]];
      HistoryOk(g, w.now) && g.log == h.log && LastState(g.events) == w.tasks[id].snapshot.state
        && |g.events| == |h.events| + 1
  {
    assert CommandOk(w, id);
    var c := w.tasks[id].snapshot;
    var h := w.histories[w.owner[id]];
    AppendKeepsTrace(h.events, Event(c.state, |h.events| + 1, c.revision));
  }

  lemma PersistedCommand(w: World, id: CommandId)
    requires Inv(w) && w.running && id in w.tasks && w.tasks[id].Saving? && Owned(w, id) && id in w.tables.commands
    ensures CommandOk(PersistSection(w, id), id)
  {
    assert CommandOk(w, id);
    PersistedHistory(w, id);
    var h := w.histories[w.owner[id]];
    NextStage(w.tasks[id].snapshot, LastState(h.events), |h.events|, h.log);
  }

  lemma PersistKeeps(w: World, id: CommandId)
    requires Inv(w) && w.running && id in w.tasks && w.tasks[id].Saving? && Owned(w, id) && id in w.tables.commands
    ensures Inv(PersistSection(w, id))
  {
    var v := PersistSection(w, id);
    PersistedHistory(w, id);
    PersistedCommand(w, id);
    forall call | call in w.reviews && w.reviews[call].id == id ensures UnderReview(v, id) {
      assert ReviewOk(w, call) && CommandOk(w, id);
    }
    OneCommandActs(w, v, id);
  }

  lemma RestartKeeps(w: World, id: CommandId)
    requires Inv(w) && !w.running && id in w.tables.commands
    ensures Inv(w.(cache := w.cache[id := w.tables.commands[id]]))
    ensures !Terminal(w.tables.commands[id].command.state) ==> Inv(RecoverSection(w, id))
  {
    assert CommandOk(w, id);
    OneCommandActs(w, w.(cache := w.cache[id := w.tables.commands[id]]), id);
    if !Terminal(w.tables.commands[id].command.state) {
      OneCommandActs(w, RecoverSection(w, id), id);
    }
  }

  lemma PruneCacheKeeps(w: World, ids: set<CommandId>)
    requires Inv(w) && ids <= PrunableIds(w.cache)
    ensures Inv(w.(cache := w.cache - ids))
  {
    var v := w.(cache := w.cache - ids);
    forall x ensures CommandOk(v, x) { assert CommandOk(w, x); }
    forall call | call in v.reviews ensures ReviewOk(v, call) { assert ReviewOk(w, call); }
  }

  lemma CrashKeeps(w: World)
    requires Inv(w)
    ensures Inv(CrashSection(w))
  {
    var v := CrashSection(w);
    forall x ensures CommandOk(v, x) { assert CommandOk(w, x); }
  }

  lemma AnnounceKeeps(w: World, admission: nat)
    requires Inv(w)
    ensures Inv(w.(pending := w.pending - {admission}))
  {
    var v := w.(pending := w.pending - {admission});
    forall x ensures CommandOk(v, x) { assert CommandOk(w, x); }
    forall call | call in v.reviews ensures ReviewOk(v, call) { assert ReviewOk(w, call); }
  }

  lemma ClockKeeps(w: World, now: int, running: bool)
    requires Inv(w) && w.now <= now && (w.running ==> running)
    ensures Inv(w.(now := now, running := running))
  {
    var v := w.(now := now, running := running);
    forall x ensures CommandOk(v, x) { assert CommandOk(w, x); }
    forall call | call in v.reviews ensures ReviewOk(v, call) { assert ReviewOk(w, call); }
  }

  lemma BeginReviewKeeps(w: World, call: nat, id: CommandId)
    requires Inv(w) && w.running && call !in w.reviews
    requires if id in w.cache then w.cache[id].command.state == OutcomeUnknown
             else id in w.tables.commands && w.tables.commands[id].command.state == OutcomeUnknown
    ensures Inv(w.(reviews := w.reviews[call := Checked(id)]))
  {
    var v := w.(reviews := w.reviews[call := Checked(id)]);
    assert CommandOk(w, id);
    forall x ensures CommandOk(v, x) { assert CommandOk(w, x); }
    forall o | o in v.reviews ensures ReviewOk(v, o) { assert o in w.reviews ==> ReviewOk(w, o); }
  }

  lemma AppendReviewKeeps(w: World, call: nat, conclusion: Conclusion, allowRetry: bool)
    requires Inv(w) && w.running && call in w.reviews
    ensures Inv(AppendReviewSection(w, call, conclusion, allowRetry))
  {
    var v := AppendReviewSection(w, call, conclusion, allowRetry);
    assert ReviewOk(w, call);
    forall x ensures CommandOk(v, x) { assert CommandOk(w, x); }
    forall o | o in v.reviews ensures ReviewOk(v, o) { assert ReviewOk(w, o); }
  }

  /** A review only ever writes an undecided record over an undecided one, so it disturbs nobody else. */
  lemma EvidenceKeeps(w: World, v: World, call: nat, c: Command)
    requires Inv(w) && w.running && call in w.reviews && Undecided(c.state)
    requires var id := w.reviews[call].id;
      || (id in w.cache && c.state == w.cache[id].command.state
          && v == w.(cache := w.cache[id := w.cache[id].(command := c)], reviews := w.reviews[call := Unsaved(id, c)]))
      || (id in w.tables.commands && v == w.(tables := UpdateSpec(w.tables, id, c), reviews := w.reviews - {call}))
      || v == w.(reviews := w.reviews - {call})
    ensures Inv(v)
  {
    var id := w.reviews[call].id;
    assert ReviewOk(w, call);
    forall x ensures CommandOk(v, x) { assert CommandOk(w, x); }
    forall o | o in v.reviews ensures ReviewOk(v, o) { assert ReviewOk(w, o); }
  }

  lemma ReviewKeeps(w: World, call: nat)
    requires Inv(w) && w.running && call in w.reviews
    ensures Inv(RecordEvidenceSection(w, call))
    ensures w.reviews[call].Unsaved? && w.reviews[call].id in w.tables.commands ==> Inv(PersistEvidenceSection(w, call))
  {
    var id := w.reviews[call].id;
    assert ReviewOk(w, call);
    var c := if id in w.cache then WithEvidence(w.cache[id].command, w.now) else w.tables.commands[id].command;
    EvidenceKeeps(w, RecordEvidenceSection(w, call), call, c);
    if w.reviews[call].Unsaved? {
      EvidenceKeeps(w, PersistEvidenceSection(w, call), call, w.reviews[call].snapshot);
    }
  }

  // ------------------------------------------------------------- admission

  /** A ledger row is copied into memory for a command that is not being worked on in a decided way. */
  lemma CopyKeeps(w: World, id: CommandId)
    requires Inv(w) && w.running && id in w.tables.commands
    ensures Inv(w.(cache := w.cache[id := w.tables.commands[id]]))
  {
    var v := w.(cache := w.cache[id := w.tables.commands[id]]);
    assert CommandOk(w, id);
    forall call | call in w.reviews && w.reviews[call].id == id ensures UnderReview(v, id) { assert ReviewOk(w, call); }
    OneCommandActs(w, v, id);
  }

  /** What an accepted admission may do to the commands table: add its row and discard finished ones. */
  predicate AcceptedInto(w: World, id: CommandId, row: Row, t: Tables) {
    && id in t.commands && t.commands[id] == row
    && (forall x :: x in w.tables.commands && !Prunable(w.tables.commands[x].command.state) ==> x in t.commands)
    && (forall x :: x != id && x in t.commands ==> x in w.tables.commands && t.commands[x] == w.tables.commands[x])
  }

  /** The request is admitted: neither memory nor the table knows its id, and the transaction inserts it. */
  predicate Inserts(maxRecords: nat, w: World, s: Step) {
    s.Admit? && !s.held && s.id !in w.cache && s.id !in w.tables.commands && Transaction(maxRecords, w, s).1 == Inserted
  }

  lemma InsertsInto(maxRecords: nat, w: World, s: Step)
    requires Inserts(maxRecords, w, s) && Enabled(maxRecords, w, s)
    ensures var row := Row(s.fingerprint, InitialCommand(s.deviceId, s.action, w.now, s.ttl));
      var t := Transaction(maxRecords, w, s).0;
      && AcceptedInto(w, s.id, row, t) && t.reconciliations == w.tables.reconciliations
      && AdmitSection(maxRecords, w, s) == Accept(w, s.id, row, t, Some(s.key), s.dedupUntil)
  {
  }

  lemma TransactionAnswers(maxRecords: nat, w: World, s: Step)
    requires s.Admit? && Transaction(maxRecords, w, s).1 != Inserted
    ensures var t := Transaction(maxRecords, w, s).0;
      t.commands == w.tables.commands && t.reconciliations == w.tables.reconciliations
  {
  }

  /** Only memory and tables differ, and of the tables only the idempotency keys. */
  predicate RepliedTo(w: World, v: World, t: Tables) {
    && v == w.(tables := t, cache := v.cache)
    && t.commands == w.tables.commands && t.reconciliations == w.tables.reconciliations
  }

  lemma RepliedLeaves(w: World, key: IdempotencyKey, t: Tables, outcome: Outcome)
    requires t.commands == w.tables.commands && t.reconciliations == w.tables.reconciliations
    ensures RepliedTo(w, Replied(w, key, t, outcome), t)
  {
  }

  /** The tables after a request that is not admitted. */
  function AnsweredTables(maxRecords: nat, w: World, s: Step): Tables
    requires s.Admit?
  {
    if s.held || s.id in w.cache || s.id in w.tables.commands then w.tables else Transaction(maxRecords, w, s).0
  }

  /** Every answer but an admission leaves commands, threads and histories alone. */
  lemma RepliesOnly(maxRecords: nat, w: World, s: Step)
    requires s.Admit? && !Inserts(maxRecords, w, s)
    ensures RepliedTo(w, AdmitSection(maxRecords, w, s), AnsweredTables(maxRecords, w, s))
  {
    if !s.held && s.id !in w.cache && s.id !in w.tables.commands {
      var (t, outcome) := Transaction(maxRecords, w, s);
      TransactionAnswers(maxRecords, w, s);
      RepliedLeaves(w, s.key, t, outcome);
    }
  }

  lemma AcceptedCommands(w: World, id: CommandId, row: Row, t: Tables, key: Option<IdempotencyKey>, dedupUntil: int,
                         x: CommandId)
    requires CommandOk(w, x) && id !in w.cache && id !in w.tables.commands
    requires row.command.state == Issued && AcceptedInto(w, id, row, t)
    ensures CommandOk(Accept(w, id, row, t, key, dedupUntil), x)
  {
    if x != id && Owned(w, x) {
      var v := Accept(w, id, row, t, key, dedupUntil);
      assert v.histories[v.owner[x]] == w.histories[w.owner[x]];
    }
  }

  lemma AcceptKeeps(w: World, id: CommandId, row: Row, t: Tables, key: Option<IdempotencyKey>, dedupUntil: int)
    requires Inv(w) && w.running && id !in w.cache && id !in w.tables.commands
    requires row.command.state == Issued && AcceptedInto(w, id, row, t)
    ensures Inv(Accept(w, id, row, t, key, dedupUntil))
  {
    var v := Accept(w, id, row, t, key, dedupUntil);
    forall x ensures CommandOk(v, x) {
      assert CommandOk(w, x);
      AcceptedCommands(w, id, row, t, key, dedupUntil, x);
    }
    forall call | call in v.reviews ensures ReviewOk(v, call) { assert ReviewOk(w, call); }
    assert forall i :: 0 <= i < |w.histories| ==> v.histories[i] == w.histories[i];
  }

  lemma TablesKeep(w: World, t: Tables)
    requires Inv(w) && t.commands == w.tables.commands
    ensures Inv(w.(tables := t))
  {
    var v := w.(tables := t);
    forall x ensures CommandOk(v, x) { assert CommandOk(w, x); }
    forall call | call in v.reviews ensures ReviewOk(v, call) { assert ReviewOk(w, call); }
  }

  lemma AdmitKeeps(maxRecords: nat, w: World, s: Step)
    requires Inv(w) && s.Admit? && Enabled(maxRecords, w, s)
    ensures Inv(AdmitSection(maxRecords, w, s))
  {
    if Inserts(maxRecords, w, s) {
      InsertsInto(maxRecords, w, s);
      var row := Row(s.fingerprint, InitialCommand(s.deviceId, s.action, w.now, s.ttl));
      AcceptKeeps(w, s.id, row, Transaction(maxRecords, w, s).0, Some(s.key), s.dedupUntil);
    } else if s.held || s.id in w.cache {
    } else if s.id in w.tables.commands {
      CopyKeeps(w, s.id);
    } else {
      var (t, outcome) := Transaction(maxRecords, w, s);
      TransactionAnswers(maxRecords, w, s);
      TablesKeep(w, t);
      if outcome == Duplicate && s.key in t.dedup && t.dedup[s.key].commandId in t.commands {
        CopyKeeps(w.(tables := t), t.dedup[s.key].commandId);
      }
    }
  }

  lemma AdmitLegacyKeeps(maxRecords: nat, w: World, s: Step)
    requires Inv(w) && s.AdmitLegacy? && Enabled(maxRecords, w, s)
    ensures Inv(AdmitLegacySection(w, s))
  {
    if s.id in w.cache {
    } else if s.id in w.tables.commands {
      CopyKeeps(w, s.id);
    } else {
      var c := InitialCommand(s.deviceId, s.action, w.now, s.ttl);
      var grown := w.tables.commands[s.id := Row(s.fingerprint, c)];
      assert s.victims <= PrunableIds(grown);
      AcceptKeeps(w, s.id, Row(s.fingerprint, c), InsertSpec(w.tables, s.id, s.fingerprint, c, s.victims), None, 0);
    }
  }

  // -------------------------------------------------------- any step, any run

  lemma SubmitKeeps(maxRecords: nat, w: World, s: Step)
    requires Inv(w) && s.Submit? && Enabled(maxRecords, w, s)
    ensures Inv(Apply(maxRecords, w, s))
  {
    assert CommandOk(w, s.id);
    if s.accepted { RequeueKeeps(w, s.id, Queued); } else { BeginKeeps(w, s.id, Rejected, 1); }
  }

  lemma TakeKeeps(maxRecords: nat, w: World, s: Step)
    requires Inv(w) && s.Take? && Enabled(maxRecords, w, s)
    ensures Inv(Apply(maxRecords, w, s))
  {
    assert CommandOk(w, s.id);
    BeginKeeps(w, s.id, Received, 1);
  }

  lemma DecideKeeps(maxRecords: nat, w: World, s: Step)
    requires Inv(w) && s.Decide? && Enabled(maxRecords, w, s)
    ensures Inv(Apply(maxRecords, w, s))
  {
    assert CommandOk(w, s.id);
    BeginKeeps(w, s.id, Decision(w, s.id, s.domainReady), 2);
  }

  lemma StartKeeps(maxRecords: nat, w: World, s: Step)
    requires Inv(w) && s.Start? && Enabled(maxRecords, w, s)
    ensures Inv(Apply(maxRecords, w, s))
  {
    assert CommandOk(w, s.id);
    BeginKeeps(w, s.id, Executing, 3);
  }

  lemma SettleKeeps(maxRecords: nat, w: World, s: Step)
    requires Inv(w) && s.Settle? && Enabled(maxRecords, w, s)
    ensures Inv(Apply(maxRecords, w, s))
  {
    assert CommandOk(w, s.id);
    BeginKeeps(w, s.id, Settlement(w.tasks[s.id].certainty), 4);
  }

  lemma SubmitFeedbackKeeps(maxRecords: nat, w: World, s: Step)
    requires Inv(w) && s.SubmitFeedback? && Enabled(maxRecords, w, s)
    ensures Inv(Apply(maxRecords, w, s))
  {
    assert CommandOk(w, s.id);
    if s.accepted { RequeueKeeps(w, s.id, Monitoring); } else { BeginKeeps(w, s.id, OutcomeUnknown, 5); }
  }

  lemma GiveUpKeeps(maxRecords: nat, w: World, s: Step)
    requires Inv(w) && s.GiveUp? && Enabled(maxRecords, w, s)
    ensures Inv(Apply(maxRecords, w, s))
  {
    assert CommandOk(w, s.id);
    BeginKeeps(w, s.id, OutcomeUnknown, 5);
  }

  lemma ThreadStepKeeps(maxRecords: nat, w: World, s: Step)
    requires Inv(w) && Enabled(maxRecords, w, s)
    requires s.Persist? || s.Invoke? || s.Return? || s.RecordTiming? || s.PersistTiming? || s.Observe?
    ensures Inv(Apply(maxRecords, w, s))
  {
    match s
    case Persist(id) => PersistKeeps(w, id);
    case Invoke(id, unsafeDriver) => InvokeKeeps(w, id, unsafeDriver);
    case Return(id, certainty, violated) => ReturnKeeps(w, id, certainty, violated);
    case RecordTiming(id) => RecordTimingKeeps(w, id);
    case PersistTiming(id) => PersistTimingKeeps(w, id);
    case Observe(id, f) => ObserveKeeps(w, id, f);
  }

  lemma TransitionStepKeeps(maxRecords: nat, w: World, s: Step)
    requires Inv(w) && Enabled(maxRecords, w, s)
    requires s.Submit? || s.Take? || s.Decide? || s.Start? || s.Settle? || s.SubmitFeedback? || s.GiveUp?
    ensures Inv(Apply(maxRecords, w, s))
  {
    match s
    case Submit(_, _) => SubmitKeeps(maxRecords, w, s);
    case Take(_) => TakeKeeps(maxRecords, w, s);
    case Decide(_, _) => DecideKeeps(maxRecords, w, s);
    case Start(_) => StartKeeps(maxRecords, w, s);
    case Settle(_) => SettleKeeps(maxRecords, w, s);
    case SubmitFeedback(_, _) => SubmitFeedbackKeeps(maxRecords, w, s);
    case GiveUp(_) => GiveUpKeeps(maxRecords, w, s);
  }

  lemma ServiceStepKeeps(maxRecords: nat, w: World, s: Step)
    requires Inv(w) && Enabled(maxRecords, w, s)
    requires s.Tick? || s.PruneCache? || s.Crash? || s.Load? || s.Recover? || s.Resume? || s.Announce?
    ensures Inv(Apply(maxRecords, w, s))
  {
    match s
    case Tick(now) => ClockKeeps(w, now, w.running);
    case PruneCache(ids) => PruneCacheKeeps(w, ids);
    case Crash => CrashKeeps(w);
    case Load(id) => RestartKeeps(w, id);
    case Recover(id) => RestartKeeps(w, id);
    case Resume => ClockKeeps(w, w.now, true);
    case Announce(admission) => AnnounceKeeps(w, admission);
  }

  lemma ReviewStepKeeps(maxRecords: nat, w: World, s: Step)
    requires Inv(w) && Enabled(maxRecords, w, s)
    requires s.BeginReview? || s.AppendReview? || s.RecordEvidence? || s.PersistEvidence?
    ensures Inv(Apply(maxRecords, w, s))
  {
    match s
    case BeginReview(call, id) => BeginReviewKeeps(w, call, id);
    case AppendReview(call, conclusion, allowRetry) => AppendReviewKeeps(w, call, conclusion, allowRetry);
    case RecordEvidence(call) => ReviewKeeps(w, call);
    case PersistEvidence(call) => ReviewKeeps(w, call);
  }

  lemma StepKeeps(maxRecords: nat, w: World, s: Step)
    requires Inv(w) && Enabled(maxRecords, w, s)
    ensures Inv(Apply(maxRecords, w, s))
  {
    if s.Admit? {
      AdmitKeeps(maxRecords, w, s);
    } else if s.AdmitLegacy? {
      AdmitLegacyKeeps(maxRecords, w, s);
    } else if s.Submit? || s.Take? || s.Decide? || s.Start? || s.Settle? || s.SubmitFeedback? || s.GiveUp? {
      TransitionStepKeeps(maxRecords, w, s);
    } else if s.Persist? || s.Invoke? || s.Return? || s.RecordTiming? || s.PersistTiming? || s.Observe? {
      ThreadStepKeeps(maxRecords, w, s);
    } else if s.Tick? || s.PruneCache? || s.Crash? || s.Load? || s.Recover? || s.Resume? || s.Announce? {
      ServiceStepKeeps(maxRecords, w, s);
    } else {
      ReviewStepKeeps(maxRecords, w, s);
    }
  }

  lemma {:induction false} RunInv(maxRecords: nat, ws: seq<World>, steps: seq<Step>, i: nat)
    requires Run(maxRecords, ws, steps) && i < |ws|
    ensures Inv(ws[i])
  {
    if i == 0 {
      InitialInv(ws[0]);
    } else {
      RunInv(maxRecords, ws, steps, i - 1);
      assert ws[i - 1 + 1] == Apply(maxRecords, ws[i - 1], steps[i - 1]);
      StepKeeps(maxRecords, ws[i - 1], steps[i - 1]);
    }
  }
}
