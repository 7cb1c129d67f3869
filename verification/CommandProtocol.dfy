/** The life of a physical command as interleaved atomic sections: admission, queue, worker, adapter call,
    feedback, manual reconciliation, crash and restart. A section is what the backend does under one lock
    or inside one transaction; between sections any other thread may run. */
module CommandProtocol {
  import opened Basics
  import opened CommandTypes
  import opened CommandLedger

  /** Ghost log of everything that crossed the adapter for one admitted command. */
  datatype Entry = Invoked | Returned(certainty: Certainty) | Observed(feedback: Feedback)

  /** Where the one thread of a command stands. `Saving` lies between the update of the in-memory record
      and its write to the ledger, which happen under different locks. */
  datatype Stage =
    | Admitted
    | Queued
    | Saving(snapshot: Command)
    | Deciding
    | Starting
    | Ready
    | Calling
    | Returning(certainty: Certainty)
    | SavingTiming(certainty: Certainty, snapshot: Command)
    | Settling(certainty: Certainty)
    | Handover
    | Monitoring

  /** A manual reconciliation request in progress. */
  datatype Review = Checked(id: CommandId) | Recorded(id: CommandId) | Unsaved(id: CommandId, snapshot: Command)

  /** Ghost history of one admission; `key` and `dedupUntil` are its idempotency window, `events` announce the
      transitions that its thread has saved, each once. */
  datatype History = History(
    key: Option<IdempotencyKey>,
    admittedAt: int,
    dedupUntil: int,
    log: seq<Entry>,
    events: seq<Event>
  )

  /** Saving a transition and sending its event are two sections: of the admissions in `pending` the last event is about
      to be sent, of those in `lost` a crash came before it was. */
  datatype World = World(
    now: int,
    tables: Tables,
    cache: map<CommandId, Row>,
    tasks: map<CommandId, Stage>,
    reviews: map<nat, Review>,
    running: bool,
    quarantined: bool,
    owner: map<CommandId, nat>,
    histories: seq<History>,
    pending: set<nat>,
    lost: set<nat>
  )

  datatype Step =
    | Tick(now: int)
    | Admit(id: CommandId, fingerprint: string, deviceId: string, action: string, ttl: int,
            key: IdempotencyKey, hash: string, dedupUntil: int, held: bool, victims: set<CommandId>)
    | AdmitLegacy(id: CommandId, fingerprint: string, deviceId: string, action: string, ttl: int,
                  victims: set<CommandId>)
    | Submit(id: CommandId, accepted: bool)
    | Take(id: CommandId)
    | Persist(id: CommandId)
    | Announce(admission: nat)
    | Decide(id: CommandId, domainReady: bool)
    | Start(id: CommandId)
    | Invoke(id: CommandId, unsafeDriver: bool)
    | Return(id: CommandId, certainty: Certainty, violated: bool)
    | RecordTiming(id: CommandId)
    | PersistTiming(id: CommandId)
    | Settle(id: CommandId)
    | SubmitFeedback(id: CommandId, accepted: bool)
    | Observe(id: CommandId, feedback: Feedback)
    | GiveUp(id: CommandId)
    | PruneCache(ids: set<CommandId>)
    | Crash
    | Load(id: CommandId)
    | Recover(id: CommandId)
    | Resume
    | BeginReview(call: nat, id: CommandId)
    | AppendReview(call: nat, conclusion: Conclusion, allowRetry: bool)
    | RecordEvidence(call: nat)
    | PersistEvidence(call: nat)

  // ------------------------------------------------------ record updates

  function InitialCommand(deviceId: string, action: string, now: int, ttl: int): Command {
    Command(deviceId, action, Issued, 1, None, now, now, now + ttl)
  }

  /** The in-memory half of `transition`. */
  function Moved(c: Command, state: CommandState, seqNo: nat, now: int): Command {
    c.(state := state, updatedAt := now, revision := c.revision + 1, lastEventSeq := Some(seqNo))
  }

  /** `transition` refuses to overwrite a terminal state with another one. */
  predicate LateObservation(c: Command, state: CommandState) {
    Terminal(c.state) && c.state != state
  }

  function WithEvidence(c: Command, now: int): Command {
    c.(revision := c.revision + 1, updatedAt := now)
  }

  function Recovered(c: Command, now: int): Command {
    var seqNo := match c.lastEventSeq case Some(n) => n case None => 0;
    c.(state := OutcomeUnknown, updatedAt := now, revision := c.revision + 1, lastEventSeq := Some(seqNo + 1))
  }

  /** What the thread does once the snapshot of a transition is saved; nothing after a terminal one. */
  function Next(state: CommandState): Option<Stage> {
    match state
    case Received => Some(Deciding)
    case Accepted => Some(Starting)
    case Executing => Some(Ready)
    case Applied => Some(Handover)
    case _ => None
  }

  // ---------------------------------------------------------- the sections

  function Begin(w: World, id: CommandId, state: CommandState, seqNo: nat): World
    requires id in w.cache
  {
    var c := Moved(w.cache[id].command, state, seqNo, w.now);
    w.(cache := w.cache[id := w.cache[id].(command := c)], tasks := w.tasks[id := Saving(c)])
  }

  /** A transition may begin: the record is in memory and this is not a late observation. */
  predicate CanBegin(w: World, id: CommandId, state: CommandState) {
    id in w.cache && !LateObservation(w.cache[id].command, state)
  }

  predicate Owned(w: World, id: CommandId) {
    id in w.owner && w.owner[id] < |w.histories|
  }

  function Accept(w: World, id: CommandId, row: Row, tables: Tables, key: Option<IdempotencyKey>,
                  dedupUntil: int): World {
    w.(tables := tables,
       cache := w.cache[id := row],
       tasks := w.tasks[id := Admitted],
       owner := w.owner[id := |w.histories|],
       histories := w.histories + [History(key, w.now, dedupUntil, [], [])])
  }

  /** The transaction an idempotent request runs when neither memory nor the table knows its id. */
  function Transaction(maxRecords: nat, w: World, s: Step): (Tables, Outcome)
    requires s.Admit?
  {
    InsertWithDedupSpec(maxRecords, w.tables, s.id, s.fingerprint, InitialCommand(s.deviceId, s.action, w.now, s.ttl),
                        s.key, s.hash, s.dedupUntil, s.victims)
  }

  /** The first request's command is copied from the ledger over whatever memory holds for it. */
  function Replied(w: World, key: IdempotencyKey, t: Tables, outcome: Outcome): World {
    if outcome == Duplicate && key in t.dedup && t.dedup[key].commandId in t.commands then
      var d := t.dedup[key].commandId;
      w.(tables := t, cache := w.cache[d := t.commands[d]])
    else w.(tables := t)
  }

  function AdmitSection(maxRecords: nat, w: World, s: Step): World
    requires s.Admit?
  {
    if s.held || s.id in w.cache then w
    else if s.id in w.tables.commands then w.(cache := w.cache[s.id := w.tables.commands[s.id]])
    else
      var (t, outcome) := Transaction(maxRecords, w, s);
      if outcome != Inserted then Replied(w, s.key, t, outcome)
      else
        var row := Row(s.fingerprint, InitialCommand(s.deviceId, s.action, w.now, s.ttl));
        Accept(w, s.id, row, t, Some(s.key), s.dedupUntil)
  }

  function AdmitLegacySection(w: World, s: Step): World
    requires s.AdmitLegacy?
  {
    var c := InitialCommand(s.deviceId, s.action, w.now, s.ttl);
    if s.id in w.cache then w
    else if s.id in w.tables.commands then w.(cache := w.cache[s.id := w.tables.commands[s.id]])
    else Accept(w, s.id, Row(s.fingerprint, c), InsertSpec(w.tables, s.id, s.fingerprint, c, s.victims), None, 0)
  }

  /** The thread stands at a stage, and the last transition it saved has been announced. */
  predicate At(w: World, id: CommandId, stage: Stage) {
    w.running && id in w.tasks && w.tasks[id] == stage && Owned(w, id) && w.owner[id] !in w.pending
  }

  /** What a delivery certainty or a field observation turns a command into. */
  function Settlement(c: Certainty): CommandState {
    match c
    case NotSent => Failed
    case RejectedByDevice => Failed
    case PossiblyApplied => OutcomeUnknown
    case DeliveryApplied => Applied
  }

  function Verdict(f: Feedback): CommandState
    requires f != Pending
  {
    match f
    case FieldConfirmed => Confirmed
    case FieldFailed => Failed
    case _ => OutcomeUnknown
  }

  function Decision(w: World, id: CommandId, domainReady: bool): CommandState
    requires id in w.cache
  {
    if w.now > w.cache[id].command.expiresAt then Expired else if !domainReady then Rejected else Accepted
  }

  /** What a request for a command is answered: the record in memory, or else the ledger row. */
  function Fetched(w: World, id: CommandId): Option<Command> {
    if id in w.cache then Some(w.cache[id].command)
    else if id in w.tables.commands then Some(w.tables.commands[id].command)
    else None
  }

  ghost predicate Enabled(maxRecords: nat, w: World, s: Step) {
    match s
    case Tick(now) => w.now <= now
    case Admit(id, fp, device, action, ttl, key, hash, dedupUntil, held, victims) =>
      && w.running && 0 < ttl <= 86400000
      && OldestPrunable(w.tables.commands, victims, RoomNeeded(maxRecords, w.tables))
      && (!held ==> forall u :: !Blocks(w.tables, device, action, u))
    case AdmitLegacy(id, fp, device, action, ttl, victims) =>
      && w.running && 0 < ttl <= 86400000
      && (id !in w.tables.commands ==>
            var grown := w.tables.commands[id := Row(fp, InitialCommand(device, action, w.now, ttl))];
            OldestPrunable(grown, victims, Excess(maxRecords, grown)))
    case Submit(id, accepted) => At(w, id, Admitted) && (accepted || CanBegin(w, id, Rejected))
    case Take(id) => At(w, id, Queued) && CanBegin(w, id, Received)
    case Persist(id) => w.running && id in w.tasks && w.tasks[id].Saving? && Owned(w, id) && id in w.tables.commands
    case Announce(admission) => w.running && admission in w.pending
    case Decide(id, domainReady) =>
      At(w, id, Deciding) && id in w.cache && CanBegin(w, id, Decision(w, id, domainReady))
    case Start(id) => At(w, id, Starting) && CanBegin(w, id, Executing)
    case Invoke(id, unsafeDriver) => At(w, id, Ready)
    case Return(id, certainty, violated) => At(w, id, Calling) && (violated ==> certainty == PossiblyApplied)
    case RecordTiming(id) => w.running && id in w.tasks && w.tasks[id].Returning? && id in w.cache
    case PersistTiming(id) => w.running && id in w.tasks && w.tasks[id].SavingTiming? && id in w.tables.commands
    case Settle(id) =>
      w.running && id in w.tasks && w.tasks[id].Settling? && CanBegin(w, id, Settlement(w.tasks[id].certainty))
    case SubmitFeedback(id, accepted) => At(w, id, Handover) && (accepted || CanBegin(w, id, OutcomeUnknown))
    case Observe(id, f) => At(w, id, Monitoring) && (f != Pending ==> CanBegin(w, id, Verdict(f)))
    case GiveUp(id) => At(w, id, Monitoring) && CanBegin(w, id, OutcomeUnknown)
    case PruneCache(ids) => w.running && ids <= PrunableIds(w.cache)
    case Crash => true
    case Load(id) => !w.running && id in w.tables.commands
    case Recover(id) => !w.running && id in w.tables.commands && !Terminal(w.tables.commands[id].command.state)
    case Resume => !w.running && forall id :: id in w.tables.commands ==> Terminal(w.tables.commands[id].command.state)
    case BeginReview(call, id) =>
      && w.running && call !in w.reviews
      && Fetched(w, id).Some? && Fetched(w, id).value.state == OutcomeUnknown
    case AppendReview(call, conclusion, allowRetry) =>
      w.running && call in w.reviews && w.reviews[call].Checked? && !(conclusion == Inconclusive && allowRetry)
    case RecordEvidence(call) => w.running && call in w.reviews && w.reviews[call].Recorded?
    case PersistEvidence(call) =>
      w.running && call in w.reviews && w.reviews[call].Unsaved? && w.reviews[call].id in w.tables.commands
  }

  /** Writes the snapshot of a transition to the ledger; its event is the next thing to be sent. */
  function PersistSection(w: World, id: CommandId): World
    requires id in w.tasks && w.tasks[id].Saving? && Owned(w, id) && id in w.tables.commands
  {
    var c := w.tasks[id].snapshot;
    var seqNo := match c.lastEventSeq case Some(n) => n case None => 0;
    var h := w.histories[w.owner[id]];
    w.(tables := UpdateSpec(w.tables, id, c),
       histories := w.histories[w.owner[id] := h.(events := h.events + [Event(c.state, seqNo, c.revision)])],
       pending := w.pending + {w.owner[id]},
       tasks := match Next(c.state)
                case Some(stage) => w.tasks[id := stage]
                case None => w.tasks - {id})
  }

  function CrashSection(w: World): World {
    w.(cache := map[], tasks := map[], reviews := map[], running := false, quarantined := false, pending := {},
       lost := w.lost + w.pending)
  }

  function InvokeSection(w: World, id: CommandId, unsafeDriver: bool): World
    requires Owned(w, id)
  {
    if w.quarantined || unsafeDriver then w.(tasks := w.tasks[id := Returning(NotSent)])
    else
      var h := w.histories[w.owner[id]];
      w.(tasks := w.tasks[id := Calling], histories := w.histories[w.owner[id] := h.(log := h.log + [Invoked])])
  }

  function ReturnSection(w: World, id: CommandId, certainty: Certainty, violated: bool): World
    requires Owned(w, id)
  {
    var h := w.histories[w.owner[id]];
    w.(tasks := w.tasks[id := Returning(certainty)],
       quarantined := w.quarantined || violated,
       histories := w.histories[w.owner[id] := h.(log := h.log + [Returned(certainty)])])
  }

  function RecordTimingSection(w: World, id: CommandId): World
    requires id in w.tasks && w.tasks[id].Returning? && id in w.cache
  {
    w.(tasks := w.tasks[id := SavingTiming(w.tasks[id].certainty, w.cache[id].command)])
  }

  function PersistTimingSection(w: World, id: CommandId): World
    requires id in w.tasks && w.tasks[id].SavingTiming? && id in w.tables.commands
  {
    w.(tables := UpdateSpec(w.tables, id, w.tasks[id].snapshot),
       tasks := w.tasks[id := Settling(w.tasks[id].certainty)])
  }

  function ObserveSection(w: World, id: CommandId, f: Feedback): World
    requires Owned(w, id) && (f != Pending ==> CanBegin(w, id, Verdict(f)))
  {
    var h := w.histories[w.owner[id]];
    var v := if f == Pending then w else Begin(w, id, Verdict(f), 5);
    v.(histories := w.histories[w.owner[id] := h.(log := h.log + [Observed(f)])])
  }

  function RecoverSection(w: World, id: CommandId): World
    requires id in w.tables.commands
  {
    var c := Recovered(w.tables.commands[id].command, w.now);
    w.(tables := UpdateSpec(w.tables, id, c), cache := w.cache[id := w.tables.commands[id].(command := c)])
  }

  function AppendReviewSection(w: World, call: nat, conclusion: Conclusion, allowRetry: bool): World
    requires call in w.reviews
  {
    var id := w.reviews[call].id;
    var r := Reconciliation(id, conclusion, allowRetry, w.now);
    w.(tables := w.tables.(reconciliations := w.tables.reconciliations + [r]),
       reviews := w.reviews[call := Recorded(id)])
  }

  function RecordEvidenceSection(w: World, call: nat): World
    requires call in w.reviews
  {
    var id := w.reviews[call].id;
    if id !in w.cache then w.(reviews := w.reviews - {call})
    else
      var c := WithEvidence(w.cache[id].command, w.now);
      w.(cache := w.cache[id := w.cache[id].(command := c)], reviews := w.reviews[call := Unsaved(id, c)])
  }

  function PersistEvidenceSection(w: World, call: nat): World
    requires call in w.reviews && w.reviews[call].Unsaved? && w.reviews[call].id in w.tables.commands
  {
    w.(tables := UpdateSpec(w.tables, w.reviews[call].id, w.reviews[call].snapshot), reviews := w.reviews - {call})
  }

  ghost function Apply(maxRecords: nat, w: World, s: Step): World
    requires Enabled(maxRecords, w, s)
  {
    match s
    case Tick(now) => w.(now := now)
    case Admit(_, _, _, _, _, _, _, _, _, _) => AdmitSection(maxRecords, w, s)
    case AdmitLegacy(_, _, _, _, _, _) => AdmitLegacySection(w, s)
    case Submit(id, accepted) => if accepted then w.(tasks := w.tasks[id := Queued]) else Begin(w, id, Rejected, 1)
    case Take(id) => Begin(w, id, Received, 1)
    case Persist(id) => PersistSection(w, id)
    case Announce(admission) => w.(pending := w.pending - {admission})
    case Decide(id, domainReady) => Begin(w, id, Decision(w, id, domainReady), 2)
    case Start(id) => Begin(w, id, Executing, 3)
    case Invoke(id, unsafeDriver) => InvokeSection(w, id, unsafeDriver)
    case Return(id, certainty, violated) => ReturnSection(w, id, certainty, violated)
    case RecordTiming(id) => RecordTimingSection(w, id)
    case PersistTiming(id) => PersistTimingSection(w, id)
    case Settle(id) => Begin(w, id, Settlement(w.tasks[id].certainty), 4)
    case SubmitFeedback(id, accepted) =>
      if accepted then w.(tasks := w.tasks[id := Monitoring]) else Begin(w, id, OutcomeUnknown, 5)
    case Observe(id, f) => ObserveSection(w, id, f)
    case GiveUp(id) => Begin(w, id, OutcomeUnknown, 5)
    case PruneCache(ids) => w.(cache := w.cache - ids)
    case Crash => CrashSection(w)
    case Load(id) => w.(cache := w.cache[id := w.tables.commands[id]])
    case Recover(id) => RecoverSection(w, id)
    case Resume => w.(running := true)
    case BeginReview(call, id) => w.(reviews := w.reviews[call := Checked(id)])
    case AppendReview(call, conclusion, allowRetry) => AppendReviewSection(w, call, conclusion, allowRetry)
    case RecordEvidence(call) => RecordEvidenceSection(w, call)
    case PersistEvidence(call) => PersistEvidenceSection(w, call)
  }

  /** A fresh installation. */
  predicate Initial(w: World) {
    && w.tables == Tables(map[], map[], [])
    && w.cache == map[] && w.tasks == map[] && w.reviews == map[]
    && w.running && !w.quarantined && w.owner == map[] && w.histories == [] && w.pending == {} && w.lost == {}
  }

  ghost predicate Run(maxRecords: nat, ws: seq<World>, steps: seq<Step>) {
    && |ws| == |steps| + 1 && Initial(ws[0])
    && forall i :: 0 <= i < |steps| ==>
         Enabled(maxRecords, ws[i], steps[i]) && ws[i + 1] == Apply(maxRecords, ws[i], steps[i])
  }
}
