/** The imperative side of the command protocol: the locked sections of the application service over the cache and the
    ledger, each proved to be the protocol's section, and the supervised adapter call. */
module CommandRuntime {
  import opened Basics
  import opened CommandTypes
  import opened CommandLedger
  import opened CommandProtocol

  // ----------------------------------------------------------- the restart

  /** The rows after restart recovery: what was unfinished has an unknown outcome, everything else is as it was. */
  function Settled(commands: map<CommandId, Row>, now: int): map<CommandId, Row> {
    map id | id in commands ::
      if Terminal(commands[id].command.state) then commands[id]
      else commands[id].(command := Recovered(commands[id].command, now))
  }

  /** Settled rows for `ids`, the rest untouched. */
  function SettledOn(commands: map<CommandId, Row>, ids: set<CommandId>, now: int): map<CommandId, Row> {
    map id | id in commands ::
      if id in ids then commands[id].(command := Recovered(commands[id].command, now)) else commands[id]
  }

  /** The cache once the rows in `done` have been recovered over what was loaded. */
  function Overlaid(rows: map<CommandId, Row>, loaded: map<CommandId, Row>, done: set<CommandId>,
                    now: int): map<CommandId, Row>
    requires done <= rows.Keys
  {
    loaded + map id | id in done :: rows[id].(command := Recovered(rows[id].command, now))
  }

  /** Restart recovery as the protocol's single steps, in some order. */
  function RecoverAll(w: World, ids: seq<CommandId>): World
    requires forall id :: id in ids ==> id in w.tables.commands
    decreases |ids|
  {
    if ids == [] then w else RecoverAll(RecoverSection(w, ids[0]), ids[1..])
  }

  function Among(ids: seq<CommandId>): set<CommandId> {
    set id | id in ids
  }

  predicate Distinct(ids: seq<CommandId>) {
    forall i, j :: 0 <= i < j < |ids| ==> ids[i] != ids[j]
  }

  function Unfinished(commands: map<CommandId, Row>): set<CommandId> {
    set id | id in commands && !Terminal(commands[id].command.state)
  }

  /** Whatever the order, recovering some rows settles exactly these. */
  lemma {:induction false} RecoveryOrderIrrelevant(w: World, ids: seq<CommandId>)
    requires (forall id :: id in ids ==> id in w.tables.commands) && Distinct(ids)
    ensures RecoverAll(w, ids).tables == w.tables.(commands := SettledOn(w.tables.commands, Among(ids), w.now))
    ensures RecoverAll(w, ids).running == w.running
    decreases |ids|
  {
    if ids == [] {
      assert SettledOn(w.tables.commands, Among(ids), w.now) == w.tables.commands;
    } else {
      var v := RecoverSection(w, ids[0]);
      RecoveryOrderIrrelevant(v, ids[1..]);
      assert ids[0] !in ids[1..];
      assert SettledOn(v.tables.commands, Among(ids[1..]), w.now) == SettledOn(w.tables.commands, Among(ids), w.now);
    }
  }

  lemma OverlaidOne(rows: map<CommandId, Row>, cache: map<CommandId, Row>, done: set<CommandId>, id: CommandId,
                    now: int)
    requires done <= rows.Keys && id in rows && id !in done
    ensures var row := rows[id].(command := Recovered(rows[id].command, now));
      Overlaid(rows[id := row], cache[id := row], done, now) == Overlaid(rows, cache, done + {id}, now)
  {
  }

  /** And memory then holds these rows as the table now has them, beside what it held before. */
  lemma {:induction false} RecoveryFillsMemory(w: World, ids: seq<CommandId>)
    requires (forall id :: id in ids ==> id in w.tables.commands) && Distinct(ids)
    ensures Among(ids) <= w.tables.commands.Keys
    ensures RecoverAll(w, ids).cache == Overlaid(w.tables.commands, w.cache, Among(ids), w.now)
    decreases |ids|
  {
    if ids == [] {
      assert Overlaid(w.tables.commands, w.cache, {}, w.now) == w.cache;
    } else {
      RecoveryFillsMemory(RecoverSection(w, ids[0]), ids[1..]);
      assert ids[0] !in ids[1..] && Among(ids) == Among(ids[1..]) + {ids[0]};
      OverlaidOne(w.tables.commands, w.cache, Among(ids[1..]), ids[0], w.now);
    }
  }

  /** The rows in `ids` are unfinished, each named once. */
  predicate Pending(commands: map<CommandId, Row>, ids: seq<CommandId>) {
    Distinct(ids) && forall id :: id in ids ==> id in commands && !Terminal(commands[id].command.state)
  }

  /** Every single recovery may happen when its turn comes. */
  ghost predicate Recoverable(maxRecords: nat, w: World, ids: seq<CommandId>)
    decreases |ids|
  {
    ids == []
    || (Enabled(maxRecords, w, Recover(ids[0])) && Recoverable(maxRecords, RecoverSection(w, ids[0]), ids[1..]))
  }

  lemma PendingAfterOne(w: World, ids: seq<CommandId>)
    requires Pending(w.tables.commands, ids) && ids != []
    ensures ids[0] in w.tables.commands && !Terminal(w.tables.commands[ids[0]].command.state)
    ensures Pending(RecoverSection(w, ids[0]).tables.commands, ids[1..])
  {
    assert ids[0] in ids;
    assert forall id :: id in ids[1..] ==> id in ids && id != ids[0];
  }

  lemma {:induction false} RecoverableInTurn(maxRecords: nat, w: World, ids: seq<CommandId>)
    requires !w.running && Pending(w.tables.commands, ids)
    ensures Recoverable(maxRecords, w, ids)
    decreases |ids|
  {
    if ids != [] {
      PendingAfterOne(w, ids);
      RecoverableInTurn(maxRecords, RecoverSection(w, ids[0]), ids[1..]);
    }
  }

  lemma SettledStates(commands: map<CommandId, Row>, ids: seq<CommandId>, now: int)
    requires Pending(commands, ids)
    ensures Unfinished(SettledOn(commands, Among(ids), now)) == Unfinished(commands) - Among(ids)
  {
  }

  lemma RecoveryFinishes(w: World, ids: seq<CommandId>)
    requires Pending(w.tables.commands, ids)
    ensures Unfinished(RecoverAll(w, ids).tables.commands) == Unfinished(w.tables.commands) - Among(ids)
    ensures RecoverAll(w, ids).running == w.running
  {
    RecoveryOrderIrrelevant(w, ids);
    SettledStates(w.tables.commands, ids, w.now);
  }

  lemma NoneLeftOut(all: set<CommandId>, ids: seq<CommandId>)
    requires forall id :: id in ids ==> id in all
    ensures all - Among(ids) == {} <==> all == Among(ids)
  {
    if all - Among(ids) == {} {
      forall id | id in all ensures id in Among(ids) { assert id !in all - Among(ids); }
    }
  }

  /** A stopped service can always come back: any unfinished rows can be recovered in any order, and service may
      resume exactly when none was left out. */
  lemma RestartResumesExactly(maxRecords: nat, w: World, ids: seq<CommandId>)
    requires !w.running && Pending(w.tables.commands, ids)
    ensures Recoverable(maxRecords, w, ids)
    ensures Enabled(maxRecords, RecoverAll(w, ids), Resume) <==> Among(ids) == Unfinished(w.tables.commands)
  {
    RecoverableInTurn(maxRecords, w, ids);
    RecoveryFinishes(w, ids);
    NoneLeftOut(Unfinished(w.tables.commands), ids);
    ResumesWhenFinished(maxRecords, RecoverAll(w, ids));
  }

  lemma ResumesWhenFinished(maxRecords: nat, w: World)
    requires !w.running
    ensures Enabled(maxRecords, w, Resume) <==> Unfinished(w.tables.commands) == {}
  {
    if Unfinished(w.tables.commands) == {} {
      forall id | id in w.tables.commands ensures Terminal(w.tables.commands[id].command.state) {
        assert id !in Unfinished(w.tables.commands);
      }
    } else {
      var id :| id in Unfinished(w.tables.commands);
    }
  }

  // ------------------------------------------------------ the application

  /** Pruning has evicted some of the oldest candidates; `left` are the ones still to consider. */
  predicate Pruning(before: map<CommandId, Row>, all: set<CommandId>, evicted: set<CommandId>, left: set<CommandId>,
                    kept: map<CommandId, Row>) {
    && all <= before.Keys && evicted <= all && left == all - evicted
    && kept == before - evicted && |kept| == |before| - |evicted|
    && forall v, r {:trigger Older(before, v, r)} :: v in evicted && r in left ==> Older(before, v, r)
  }

  predicate Older(rows: map<CommandId, Row>, v: CommandId, r: CommandId) {
    v in rows && r in rows ==> rows[v].command.updatedAt <= rows[r].command.updatedAt
  }

  method LeastRecent(rows: map<CommandId, Row>, ids: set<CommandId>) returns (id: CommandId)
    requires ids != {} && ids <= rows.Keys
    ensures OldestIn(rows, ids, id)
  {
    ghost var oldest, _ := ExtremesExist(rows, ids);
    assert oldest in ids;
    id :| id in ids && OldestIn(rows, ids, id);
    assert OldestIn(rows, ids, id);
  }

  lemma OneFewer(rows: map<CommandId, Row>, id: CommandId)
    requires id in rows
    ensures |rows - {id}| == |rows| - 1
  {
    assert rows.Keys == (rows - {id}).Keys + {id};
  }

  lemma EvictOne(before: map<CommandId, Row>, all: set<CommandId>, evicted: set<CommandId>, left: set<CommandId>,
                 kept: map<CommandId, Row>,
                 id: CommandId)
    requires Pruning(before, all, evicted, left, kept) && OldestIn(before, left, id)
    ensures Pruning(before, all, evicted + {id}, left - {id}, kept - {id}) && |kept - {id}| == |kept| - 1
    ensures |left - {id}| < |left|
  {
    OneFewer(kept, id);
    assert kept - {id} == before - (evicted + {id});
    assert left == (left - {id}) + {id};
    forall v, r | v in evicted + {id} && r in left - {id} ensures Older(before, v, r) {
      if v == id { assert r in left; }
    }
  }

  lemma PrunedEnough(before: map<CommandId, Row>, evicted: set<CommandId>, left: set<CommandId>,
                     kept: map<CommandId, Row>, target: nat)
    requires Pruning(before, PrunableIds(before), evicted, left, kept) && |before| > target > 0 && |kept| >= target
    requires left == {} || |kept| <= target
    ensures OldestPrunable(before, evicted, Excess(target, before))
  {
    SmallerSubset(evicted, PrunableIds(before));
    forall v, r | v in evicted && r in left ensures before[v].command.updatedAt <= before[r].command.updatedAt {
      assert Older(before, v, r);
    }
  }

  /** Removes candidates one by one, oldest first, while there are any and the target is exceeded. */
  method EvictOldest(before: map<CommandId, Row>, all: set<CommandId>, target: nat)
    returns (kept: map<CommandId, Row>, ghost evicted: set<CommandId>, ghost left: set<CommandId>)
    requires |before| > target && all <= before.Keys
    ensures Pruning(before, all, evicted, left, kept) && |kept| >= target
    ensures left == {} || |kept| <= target
  {
    kept, evicted := before, {};
    var terminal := all;
    assert before - {} == before;
    while terminal != {} && |kept| > target
      invariant Pruning(before, all, evicted, terminal, kept) && |kept| >= target
      decreases |terminal|
    {
      var id := LeastRecent(before, terminal);
      EvictOne(before, all, evicted, terminal, kept, id);
      kept := kept - {id};
      terminal := terminal - {id};
      evicted := evicted + {id};
    }
    left := terminal;
  }

  /** One more row settled, in the table and in memory. */
  lemma SettleOne(rows: map<CommandId, Row>, loaded: map<CommandId, Row>, done: set<CommandId>, id: CommandId, now: int)
    requires done <= rows.Keys && id in rows && id !in done
    ensures id in SettledOn(rows, done, now) && SettledOn(rows, done, now)[id] == rows[id]
    ensures var c := Recovered(rows[id].command, now);
      && SettledOn(rows, done, now)[id := rows[id].(command := c)] == SettledOn(rows, done + {id}, now)
      && Overlaid(rows, loaded, done, now)[id := rows[id].(command := c)] == Overlaid(rows, loaded, done + {id}, now)
  {
  }

  datatype ReviewAnswer = NotFound | StateInvalid | RetryRequiresConclusion | Done

  /** What a request for the command is answered shows an unknown outcome. */
  predicate ShowsUnknown(commands: map<CommandId, Row>, rows: map<CommandId, Row>, id: CommandId) {
    if id in commands then commands[id].command.state == OutcomeUnknown
    else id in rows && rows[id].command.state == OutcomeUnknown
  }

  /** A retry is only allowed where something was concluded. */
  predicate Conclusive(rs: seq<Reconciliation>) {
    forall r :: r in rs && r.allowRetry ==> r.conclusion == ConfirmedApplied || r.conclusion == ConfirmedNotApplied
  }

  /** The steps may be taken one after the other from `w`, and lead to `v`. */
  ghost predicate Leads(maxRecords: nat, w: World, steps: seq<Step>, v: World)
    decreases |steps|
  {
    if steps == [] then v == w
    else Enabled(maxRecords, w, steps[0]) && Leads(maxRecords, Apply(maxRecords, w, steps[0]), steps[1..], v)
  }

  /** A review that no other thread interrupts. Evidence goes to a record in memory, and from there to its row. */
  function ReviewSteps(w: World, call: nat, id: CommandId, conclusion: Conclusion, allowRetry: bool): seq<Step> {
    [BeginReview(call, id), AppendReview(call, conclusion, allowRetry), RecordEvidence(call)]
    + if id in w.cache && id in w.tables.commands then [PersistEvidence(call)] else []
  }

  ghost function Recorded(w: World, call: nat, id: CommandId, conclusion: Conclusion, allowRetry: bool): World {
    RecordEvidenceSection(AppendReviewSection(w.(reviews := w.reviews[call := Checked(id)]), call, conclusion,
                                              allowRetry), call)
  }

  /** Where the sections of a review lead. */
  ghost function Reviewed(w: World, call: nat, id: CommandId, conclusion: Conclusion, allowRetry: bool): World {
    var recorded := Recorded(w, call, id, conclusion, allowRetry);
    if id in w.cache && id in w.tables.commands then PersistEvidenceSection(recorded, call) else recorded
  }

  lemma LeadsBy(maxRecords: nat, w: World, s: Step, steps: seq<Step>, u: World, v: World)
    requires Enabled(maxRecords, w, s) ==> u == Apply(maxRecords, w, s)
    ensures Leads(maxRecords, w, [s] + steps, v) <==> Enabled(maxRecords, w, s) && Leads(maxRecords, u, steps, v)
  {
    assert ([s] + steps)[1..] == steps;
  }

  lemma BeginLeads(maxRecords: nat, w: World, call: nat, id: CommandId, steps: seq<Step>, v: World)
    requires w.running && call !in w.reviews
    ensures Leads(maxRecords, w, [BeginReview(call, id)] + steps, v) <==>
      && ShowsUnknown(w.cache, w.tables.commands, id)
      && Leads(maxRecords, w.(reviews := w.reviews[call := Checked(id)]), steps, v)
  {
    LeadsBy(maxRecords, w, BeginReview(call, id), steps, w.(reviews := w.reviews[call := Checked(id)]), v);
  }

  lemma AppendLeads(maxRecords: nat, w: World, call: nat, conclusion: Conclusion, allowRetry: bool, steps: seq<Step>,
                    v: World)
    requires w.running && call in w.reviews && w.reviews[call].Checked?
    ensures Leads(maxRecords, w, [AppendReview(call, conclusion, allowRetry)] + steps, v) <==>
      !(conclusion == Inconclusive && allowRetry)
      && Leads(maxRecords, AppendReviewSection(w, call, conclusion, allowRetry), steps, v)
  {
    LeadsBy(maxRecords, w, AppendReview(call, conclusion, allowRetry), steps,
            AppendReviewSection(w, call, conclusion, allowRetry), v);
  }

  lemma RecordLeads(maxRecords: nat, w: World, call: nat, steps: seq<Step>, v: World)
    requires w.running && call in w.reviews && w.reviews[call].Recorded?
    ensures Leads(maxRecords, w, [RecordEvidence(call)] + steps, v) <==>
      Leads(maxRecords, RecordEvidenceSection(w, call), steps, v)
  {
    LeadsBy(maxRecords, w, RecordEvidence(call), steps, RecordEvidenceSection(w, call), v);
  }

  lemma SaveLeads(maxRecords: nat, w: World, call: nat)
    requires w.running && call in w.reviews && w.reviews[call].Unsaved? && w.reviews[call].id in w.tables.commands
    ensures Leads(maxRecords, w, [PersistEvidence(call)], PersistEvidenceSection(w, call))
  {
    LeadsBy(maxRecords, w, PersistEvidence(call), [], PersistEvidenceSection(w, call), PersistEvidenceSection(w, call));
    assert [PersistEvidence(call)] + [] == [PersistEvidence(call)];
  }

  /** The steps of a review may be taken exactly for a command that shows an unknown outcome and a conclusion that may
      allow what it allows, and then they lead to what `ReconcileCommand` leaves. */
  lemma ReviewLeads(maxRecords: nat, w: World, call: nat, id: CommandId, conclusion: Conclusion, allowRetry: bool)
    requires w.running && call !in w.reviews
    ensures Leads(maxRecords, w, ReviewSteps(w, call, id, conclusion, allowRetry),
                  Reviewed(w, call, id, conclusion, allowRetry))
      <==> ShowsUnknown(w.cache, w.tables.commands, id) && !(conclusion == Inconclusive && allowRetry)
  {
    var begun := w.(reviews := w.reviews[call := Checked(id)]);
    var appended := AppendReviewSection(begun, call, conclusion, allowRetry);
    var v := Reviewed(w, call, id, conclusion, allowRetry);
    var saving := if id in w.cache && id in w.tables.commands then [PersistEvidence(call)] else [];
    assert ReviewSteps(w, call, id, conclusion, allowRetry) == [BeginReview(call, id)]
      + ([AppendReview(call, conclusion, allowRetry)] + ([RecordEvidence(call)] + saving));
    BeginLeads(maxRecords, w, call, id,
               [AppendReview(call, conclusion, allowRetry)] + ([RecordEvidence(call)] + saving), v);
    AppendLeads(maxRecords, begun, call, conclusion, allowRetry, [RecordEvidence(call)] + saving, v);
    AppendedRecords(begun, call, conclusion, allowRetry);
    RecordLeads(maxRecords, appended, call, saving, v);
    EvidenceRecords(appended, call);
    if saving != [] { SaveLeads(maxRecords, Recorded(w, call, id, conclusion, allowRetry), call); }
  }

  /** What a review changes: it adds its reconciliation, and leaves evidence in the record in memory and in its row. */
  lemma ReviewedRecords(w: World, call: nat, id: CommandId, conclusion: Conclusion, allowRetry: bool)
    ensures var v := Reviewed(w, call, id, conclusion, allowRetry);
      var r := Reconciliation(id, conclusion, allowRetry, w.now);
      var t := w.tables.(reconciliations := w.tables.reconciliations + [r]);
      if id !in w.cache then v.cache == w.cache && v.tables == t
      else
        var c := WithEvidence(w.cache[id].command, w.now);
        && v.cache == w.cache[id := w.cache[id].(command := c)]
        && v.tables == if id in w.tables.commands then UpdateSpec(t, id, c) else t
  {
    var begun := w.(reviews := w.reviews[call := Checked(id)]);
    var appended := AppendReviewSection(begun, call, conclusion, allowRetry);
    AppendedRecords(begun, call, conclusion, allowRetry);
    EvidenceRecords(appended, call);
  }

  lemma AppendedRecords(w: World, call: nat, conclusion: Conclusion, allowRetry: bool)
    requires call in w.reviews
    ensures var v, id := AppendReviewSection(w, call, conclusion, allowRetry), w.reviews[call].id;
      && v.tables == w.tables.(reconciliations := w.tables.reconciliations
                                                  + [Reconciliation(id, conclusion, allowRetry, w.now)])
      && v.cache == w.cache && v.now == w.now && v.running == w.running
      && call in v.reviews && v.reviews[call] == Review.Recorded(id)
  {
  }

  lemma EvidenceRecords(w: World, call: nat)
    requires call in w.reviews
    ensures var v, id := RecordEvidenceSection(w, call), w.reviews[call].id;
      && v.tables == w.tables && v.running == w.running
      && (id !in w.cache ==> v.cache == w.cache)
      && (id in w.cache ==>
            var c := WithEvidence(w.cache[id].command, w.now);
            && v.cache == w.cache[id := w.cache[id].(command := c)]
            && call in v.reviews && v.reviews[call] == Unsaved(id, c)
            && (id in w.tables.commands ==>
                  PersistEvidenceSection(v, call).tables == UpdateSpec(w.tables, id, c)
                  && PersistEvidenceSection(v, call).cache == v.cache))
  {
  }

  predicate SameBut(rows: map<CommandId, Row>, after: map<CommandId, Row>, id: CommandId) {
    after.Keys == rows.Keys && forall x :: x in rows && x != id ==> after[x] == rows[x]
  }

  /** Every reconciliation of the command so far is older. */
  predicate Newest(rs: seq<Reconciliation>, id: CommandId, now: int) {
    forall o :: o in rs && o.commandId == id ==> o.createdAt < now
  }

  lemma NewestDecides(rs: seq<Reconciliation>, r: Reconciliation)
    ensures Newest(rs, r.commandId, r.createdAt) ==>
      (Released(rs + [r], r.commandId) <==> r.allowRetry)
  {
    if Newest(rs, r.commandId, r.createdAt) {
      assert r in rs + [r] && Latest(rs + [r], r.commandId, r);
    }
  }

  class ApplicationService {
    const ledger: Ledger
    const dashboardLimit: nat
    var commands: map<CommandId, Row>

    constructor (ledger: Ledger, dashboardLimit: nat)
      ensures this.ledger == ledger && this.dashboardLimit == dashboardLimit && commands == map[]
    {
      this.ledger, this.dashboardLimit := ledger, dashboardLimit;
      commands := map[];
    }

    /** What the protocol sees of this object at a moment. */
    ghost function View(now: int): World
      reads this, ledger
    {
      World(now, ledger.Contents(), commands, map[], map[], true, false, map[], [], {}, {})
    }

    function CacheTarget(): nat {
      Max(2 * dashboardLimit, 500)
    }

    /** Evicts finished, certain commands, least recently updated first, until the cache is back at its target. */
    method PruneCommandCacheLocked() returns (ghost evicted: set<CommandId>)
      modifies this`commands
      ensures OldestPrunable(old(commands), evicted, Excess(CacheTarget(), old(commands)))
      ensures commands == old(commands) - evicted
      ensures evicted != {} ==> 500 <= |commands| && 2 * dashboardLimit <= |commands|
      ensures |commands| <= 500 || |commands| <= 2 * dashboardLimit || PrunableIds(commands) == {}
    {
      evicted := {};
      if |commands| <= CacheTarget() {
        return;
      }
      ghost var before := commands;
      ghost var left;
      commands, evicted, left := EvictOldest(commands, PrunableIds(commands), CacheTarget());
      PrunedEnough(before, evicted, left, commands, CacheTarget());
    }

    /** The locked section of an idempotent request that nothing unresolved holds back. */
    method IssueLocked(id: CommandId, fingerprint: string, deviceId: string, action: string, ttl: int,
                       key: IdempotencyKey, hash: string, dedupUntil: int, now: int)
      returns (admitted: bool, ghost victims: set<CommandId>, ghost evicted: set<CommandId>)
      modifies this`commands, ledger
      ensures OldestPrunable(old(ledger.commands), victims, RoomNeeded(ledger.maxRecords, old(ledger.Contents())))
      ensures var s := Admit(id, fingerprint, deviceId, action, ttl, key, hash, dedupUntil, false, victims);
        var v := AdmitSection(ledger.maxRecords, old(View(now)), s);
        && ledger.Contents() == v.tables
        && evicted <= PrunableIds(v.cache) && commands == v.cache - evicted
        && (admitted <==> v.histories != [])
    {
      victims := SomeVictims(ledger.maxRecords, ledger.Contents());
      evicted := {};
      if id in commands {
        return false, victims, {};
      }
      if id in ledger.commands {
        commands := commands[id := ledger.commands[id]];
        evicted := PruneCommandCacheLocked();
        return false, victims, evicted;
      }
      var initial := InitialCommand(deviceId, action, now, ttl);
      var outcome;
      outcome, victims := ledger.InsertWithDedup(id, fingerprint, initial, key, hash, dedupUntil);
      admitted := outcome == Inserted;
      if admitted {
        commands := commands[id := Row(fingerprint, initial)];
        evicted := PruneCommandCacheLocked();
      } else if outcome == Duplicate {
        var dedup := ledger.FindDedup(key, now);
        if dedup.Some? && dedup.value.commandId in ledger.commands {
          commands := commands[dedup.value.commandId := ledger.commands[dedup.value.commandId]];
        }
      }
    }

    /** An idempotent request, once it has been validated: held back exactly when some unresolved command for the pair
        still lacks a conclusion that allows a retry, and otherwise the protocol's admission. */
    method IssueIdempotent(id: CommandId, fingerprint: string, deviceId: string, action: string, ttl: int,
                           key: IdempotencyKey, hash: string, dedupUntil: int, now: int)
      returns (held: Option<CommandId>, admitted: bool, ghost victims: set<CommandId>, ghost evicted: set<CommandId>)
      modifies this`commands, ledger
      ensures held.Some? ==> commands == old(commands) && ledger.Contents() == old(ledger.Contents()) && !admitted
      ensures held.Some? ==>
        held.value in ledger.commands && ledger.commands[held.value].command.state == OutcomeUnknown
      ensures held.None? ==> forall u :: !Blocks(old(ledger.Contents()), deviceId, action, u)
      ensures held.None? ==>
        && OldestPrunable(old(ledger.commands), victims, RoomNeeded(ledger.maxRecords, old(ledger.Contents())))
        && var s := Admit(id, fingerprint, deviceId, action, ttl, key, hash, dedupUntil, false, victims);
           var v := AdmitSection(ledger.maxRecords, old(View(now)), s);
           && ledger.Contents() == v.tables
           && evicted <= PrunableIds(v.cache) && commands == v.cache - evicted
           && (admitted <==> v.histories != [])
    {
      held := ledger.BlockingUnknownFor(deviceId, action);
      if held.Some? {
        return held, false, {}, {};
      }
      admitted, victims, evicted := IssueLocked(id, fingerprint, deviceId, action, ttl, key, hash, dedupUntil, now);
    }

    /** The in-memory half of a transition. A terminal record is not overwritten with another state. */
    method TransitionLocked(id: CommandId, state: CommandState, seqNo: nat, now: int)
      returns (late: bool, snapshot: Command)
      requires id in commands
      modifies this`commands
      ensures late <==> Terminal(old(commands)[id].command.state) && old(commands)[id].command.state != state
      ensures late ==> commands == old(commands)
      ensures !late ==> CanBegin(old(View(now)), id, state) && commands == Begin(old(View(now)), id, state, seqNo).cache
      ensures !late ==> Begin(old(View(now)), id, state, seqNo).tasks[id] == Saving(snapshot)
    {
      snapshot := commands[id].command;
      late := Terminal(snapshot.state) && snapshot.state != state;
      if !late {
        snapshot := Moved(snapshot, state, seqNo, now);
        commands := commands[id := commands[id].(command := snapshot)];
      }
    }

    /** Evidence grows the record and its revision, never its state; a record that is not in memory gets none. */
    method AppendCommandEvidence(id: CommandId, now: int)
      modifies this`commands, ledger
      ensures id !in old(commands) ==> commands == old(commands) && ledger.Contents() == old(ledger.Contents())
      ensures id in old(commands) ==>
        var c := WithEvidence(old(commands)[id].command, now);
        && commands == old(commands)[id := old(commands)[id].(command := c)]
        && ledger.Contents() == (if id in old(ledger.commands) then UpdateSpec(old(ledger.Contents()), id, c)
                                 else old(ledger.Contents()))
    {
      if id !in commands {
        return;
      }
      var c := WithEvidence(commands[id].command, now);
      commands := commands[id := commands[id].(command := c)];
      var _ := ledger.Update(id, c);
    }

    /** The record of a command that a request is answered: the one in memory, or else its ledger row. */
    method CommandV2(id: CommandId) returns (current: Option<Command>)
      ensures id in commands ==> current == Some(commands[id].command)
      ensures id !in commands && id in ledger.commands ==> current == Some(ledger.commands[id].command)
      ensures current.None? <==> id !in commands && id !in ledger.commands
    {
      current := None;
      if id in commands {
        current := Some(commands[id].command);
      } else if id in ledger.commands {
        current := Some(ledger.commands[id].command);
      }
    }

    /** The reconciliation is recorded and leaves evidence in the record in memory, whose state stays. */
    method RecordReview(id: CommandId, conclusion: Conclusion, allowRetry: bool, now: int)
      modifies this`commands, ledger
      ensures var v := Reviewed(old(View(now)), 0, id, conclusion, allowRetry);
        commands == v.cache && ledger.Contents() == v.tables
      ensures ledger.dedup == old(ledger.dedup)
      ensures ledger.reconciliations == old(ledger.reconciliations) + [Reconciliation(id, conclusion, allowRetry, now)]
      ensures id in old(commands) ==>
        && SameBut(old(commands), commands, id) && SameBut(old(ledger.commands), ledger.commands, id)
        && commands[id].command.state == old(commands)[id].command.state
        && commands[id].command.revision == old(commands)[id].command.revision + 1
        && commands[id].command.updatedAt == now && SameTarget(commands[id].command, old(commands)[id].command)
        && (id in ledger.commands ==> ledger.commands[id].command == commands[id].command)
      ensures id !in old(commands) ==> commands == old(commands) && ledger.commands == old(ledger.commands)
    {
      ledger.AppendReconciliation(Reconciliation(id, conclusion, allowRetry, now));
      AppendCommandEvidence(id, now);
      ReviewedRecords(old(View(now)), 0, id, conclusion, allowRetry);
    }

    /** A manual reconciliation: only an unknown outcome can be reconciled, and only a conclusive one may allow a
        retry. It is recorded and leaves evidence in the record in memory, whose state stays, and that record is
        saved, as the protocol's review does; if it is the newest of its command, the command is released exactly when
        it allows the retry. */
    method ReconcileCommand(id: CommandId, conclusion: Conclusion, allowRetry: bool, now: int)
      returns (answer: ReviewAnswer)
      modifies this`commands, ledger
      ensures answer == NotFound <==> id !in old(commands) && id !in old(ledger.commands)
      ensures answer == StateInvalid <==>
        (id in old(commands) || id in old(ledger.commands)) && !ShowsUnknown(old(commands), old(ledger.commands), id)
      ensures answer == RetryRequiresConclusion <==>
        ShowsUnknown(old(commands), old(ledger.commands), id) && conclusion == Inconclusive && allowRetry
      ensures answer == Done <==>
        ShowsUnknown(old(commands), old(ledger.commands), id) && (conclusion == Inconclusive ==> !allowRetry)
      ensures Conclusive(old(ledger.reconciliations)) ==> Conclusive(ledger.reconciliations)
      ensures answer != Done ==> commands == old(commands) && ledger.Contents() == old(ledger.Contents())
      ensures answer == Done ==>
        var v := Reviewed(old(View(now)), 0, id, conclusion, allowRetry);
        commands == v.cache && ledger.Contents() == v.tables
      ensures answer == Done ==> ledger.dedup == old(ledger.dedup)
      ensures answer == Done ==>
        ledger.reconciliations == old(ledger.reconciliations) + [Reconciliation(id, conclusion, allowRetry, now)]
      ensures answer == Done && id in old(commands) ==>
        && SameBut(old(commands), commands, id) && SameBut(old(ledger.commands), ledger.commands, id)
        && commands[id].command.state == old(commands)[id].command.state
        && commands[id].command.revision == old(commands)[id].command.revision + 1
        && commands[id].command.updatedAt == now && SameTarget(commands[id].command, old(commands)[id].command)
        && (id in ledger.commands ==> ledger.commands[id].command == commands[id].command)
      ensures answer == Done && id !in old(commands) ==>
        commands == old(commands) && ledger.commands == old(ledger.commands)
      ensures answer == Done && Newest(old(ledger.reconciliations), id, now) ==>
        (Released(ledger.reconciliations, id) <==> allowRetry)
    {
      var current := CommandV2(id);
      if current.None? {
        return NotFound;
      }
      if current.value.state != OutcomeUnknown {
        return StateInvalid;
      }
      if conclusion == Inconclusive && allowRetry {
        return RetryRequiresConclusion;
      }
      NewestDecides(ledger.reconciliations, Reconciliation(id, conclusion, allowRetry, now));
      RecordReview(id, conclusion, allowRetry, now);
      answer := Done;
    }

    /** A transition that no other thread interrupts: the record moves, the ledger follows, the clients are told, and a
        terminal state lets the cache shrink. A late observation only leaves evidence. */
    method Transition(id: CommandId, state: CommandState, seqNo: nat, now: int)
      returns (event: Option<Event>, ghost evicted: set<CommandId>)
      requires id in commands && id in ledger.commands
      modifies this`commands, ledger
      ensures event == None <==> Terminal(old(commands)[id].command.state) && old(commands)[id].command.state != state
      ensures event == None ==>
        && id in ledger.commands
        && ledger.commands[id].command == WithEvidence(old(commands)[id].command, now)
        && ledger.commands[id].command.state == old(commands)[id].command.state
      ensures event != None ==>
        var c := Moved(old(commands)[id].command, state, seqNo, now);
        && event == Some(Event(state, seqNo, c.revision))
        && ledger.Contents() == UpdateSpec(old(ledger.Contents()), id, c)
        && commands == old(commands)[id := old(commands)[id].(command := c)] - evicted
        && evicted <= PrunableIds(old(commands)[id := old(commands)[id].(command := c)])
        && (!Terminal(state) ==> evicted == {})
    {
      evicted := {};
      var late, snapshot := TransitionLocked(id, state, seqNo, now);
      if late {
        AppendCommandEvidence(id, now);
        return None, {};
      }
      var _ := ledger.Update(id, snapshot);
      event := Some(Event(state, seqNo, snapshot.revision));
      if Terminal(state) {
        evicted := PruneCommandCacheLocked();
      }
    }

    /** Restart: recent rows are loaded, and every unfinished one is given an unknown outcome, in the ledger and in
        memory. Nothing is handed to any executor. */
    method RestoreCommandLedger(recent: set<CommandId>, now: int) returns (ghost evicted: set<CommandId>)
      requires recent <= ledger.commands.Keys
      modifies this`commands, ledger
      requires commands == map[]
      ensures ledger.Contents() == old(ledger.Contents()).(commands := Settled(old(ledger.commands), now))
      ensures var restored := Restored(old(ledger.commands), recent, now);
        commands == restored - evicted && OldestPrunable(restored, evicted, Excess(CacheTarget(), restored))
    {
      ghost var rows := ledger.commands;
      commands := map id | id in recent :: ledger.commands[id];
      ghost var loaded := commands;
      var pending := ledger.NonTerminal();
      for i := 0 to |pending|
        invariant ledger.Contents() == old(ledger.Contents()).(commands := SettledOn(rows, Among(pending[..i]), now))
        invariant commands == Overlaid(rows, loaded, Among(pending[..i]), now)
      {
        var id := pending[i];
        assert Among(pending[..i + 1]) == Among(pending[..i]) + {id};
        SettleOne(rows, loaded, Among(pending[..i]), id, now);
        var command := Recovered(ledger.commands[id].command, now);
        var fingerprint := ledger.commands[id].fingerprint;
        var _ := ledger.Update(id, command);
        commands := commands[id := Row(fingerprint, command)];
      }
      assert pending[..|pending|] == pending && Among(pending) == Unfinished(rows);
      SettledFacts(rows, recent, now);
      evicted := PruneCommandCacheLocked();
    }
  }

  /** What restart puts in memory: the recent rows and all that were unfinished, as the ledger now has them. */
  function Restored(rows: map<CommandId, Row>, recent: set<CommandId>, now: int): map<CommandId, Row>
    requires recent <= rows.Keys
  {
    map id | id in recent + Unfinished(rows) :: Settled(rows, now)[id]
  }

  lemma SettledFacts(rows: map<CommandId, Row>, recent: set<CommandId>, now: int)
    requires recent <= rows.Keys
    ensures SettledOn(rows, Unfinished(rows), now) == Settled(rows, now)
    ensures Overlaid(rows, map id | id in recent :: rows[id], Unfinished(rows), now)
      == Restored(rows, recent, now)
  {
  }
}
