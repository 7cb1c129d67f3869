/** What the command ledger keeps over any sequence of its transactions. */
module LedgerRuns {
  import opened CommandTypes
  import opened CommandLedger

  datatype Op =
    | Idempotent(id: CommandId, fingerprint: string, command: Command, key: IdempotencyKey, hash: string,
                 expiresAt: int, victims: set<CommandId>)
    | Legacy(id: CommandId, fingerprint: string, command: Command, victims: set<CommandId>)
    | Overwrite(id: CommandId, command: Command)
    | Reconcile(record: Reconciliation)

  ghost predicate Allowed(maxRecords: nat, t: Tables, op: Op) {
    match op
    case Idempotent(id, fp, c, key, hash, e, victims) => OldestPrunable(t.commands, victims, RoomNeeded(maxRecords, t))
    case Legacy(id, fp, c, victims) =>
      id !in t.commands ==>
        var grown := t.commands[id := Row(fp, c)];
        OldestPrunable(grown, victims, Excess(maxRecords, grown))
    case Overwrite(id, c) => id in t.commands
    case Reconcile(r) => true
  }

  function Step(maxRecords: nat, t: Tables, op: Op): Tables {
    match op
    case Idempotent(id, fp, c, key, hash, e, victims) =>
      InsertWithDedupSpec(maxRecords, t, id, fp, c, key, hash, e, victims).0
    case Legacy(id, fp, c, victims) => InsertSpec(t, id, fp, c, victims)
    case Overwrite(id, c) => if id in t.commands then UpdateSpec(t, id, c) else t
    case Reconcile(r) => t.(reconciliations := t.reconciliations + [r])
  }

  function OutcomeOf(maxRecords: nat, t: Tables, op: Op): Outcome
    requires op.Idempotent?
  {
    InsertWithDedupSpec(maxRecords, t, op.id, op.fingerprint, op.command, op.key, op.hash, op.expiresAt, op.victims).1
  }

  /** `ts` are the successive contents of one store while it executes `ops`. */
  ghost predicate Run(maxRecords: nat, ts: seq<Tables>, ops: seq<Op>) {
    && |ts| == |ops| + 1
    && forall i :: 0 <= i < |ops| ==> Allowed(maxRecords, ts[i], ops[i]) && ts[i + 1] == Step(maxRecords, ts[i], ops[i])
  }

  /** The host clock that stamps new commands never runs backwards. */
  ghost predicate ClockMonotone(ops: seq<Op>) {
    forall i, j :: 0 <= i < j < |ops| && ops[i].Idempotent? && ops[j].Idempotent? ==>
      ops[i].command.issuedAt <= ops[j].command.issuedAt
  }

  // ------------------------------------------------------------ idempotency

  /** A remembered key stays remembered as long as it has not expired. */
  lemma LiveKeyStays(maxRecords: nat, t: Tables, op: Op, key: IdempotencyKey)
    requires key in t.dedup && (op.Idempotent? ==> op.command.issuedAt < t.dedup[key].expiresAt)
    ensures key in Step(maxRecords, t, op).dedup && Step(maxRecords, t, op).dedup[key] == t.dedup[key]
  {
    if op.Idempotent? { assert key in LiveDedup(t.dedup, op.command.issuedAt); }
  }

  lemma {:induction false} DedupRowSurvives(maxRecords: nat, ts: seq<Tables>, ops: seq<Op>, i: nat, j: nat)
    requires Run(maxRecords, ts, ops) && ClockMonotone(ops)
    requires i < j < |ops| && ops[i].Idempotent? && OutcomeOf(maxRecords, ts[i], ops[i]) == Inserted
    requires ops[j].Idempotent? && ops[j].command.issuedAt < ops[i].expiresAt
    ensures forall k :: i < k <= j ==>
      && ops[i].key in ts[k].dedup
      && ts[k].dedup[ops[i].key] == DedupRow(ops[i].hash, ops[i].id, ops[i].command.issuedAt, ops[i].expiresAt)
  {
    var n := i + 1;
    var row := DedupRow(ops[i].hash, ops[i].id, ops[i].command.issuedAt, ops[i].expiresAt);
    while n < j
      invariant i < n <= j
      invariant forall k :: i < k <= n ==> ops[i].key in ts[k].dedup && ts[k].dedup[ops[i].key] == row
    {
      assert ops[n].Idempotent? ==> ops[n].command.issuedAt <= ops[j].command.issuedAt;
      LiveKeyStays(maxRecords, ts[n], ops[n], ops[i].key);
      assert ts[n + 1] == Step(maxRecords, ts[n], ops[n]);
      n := n + 1;
    }
  }

  /** Before its expiry a key is inserted once; every later use is answered from the first request,
      as a duplicate of it or as a conflict with it, and leaves the commands alone. */
  lemma {:induction false} KeyInsertedOnce(maxRecords: nat, ts: seq<Tables>, ops: seq<Op>, i: nat, j: nat)
    requires Run(maxRecords, ts, ops) && ClockMonotone(ops)
    requires i < j < |ops| && ops[i].Idempotent? && OutcomeOf(maxRecords, ts[i], ops[i]) == Inserted
    requires ops[j].Idempotent? && ops[j].key == ops[i].key && ops[j].command.issuedAt < ops[i].expiresAt
    ensures OutcomeOf(maxRecords, ts[j], ops[j]) == if ops[j].hash == ops[i].hash then Duplicate else DedupConflict
    ensures ts[j + 1].commands == ts[j].commands
  {
    DedupRowSurvives(maxRecords, ts, ops, i, j);
  }

  predicate InsertedAt(maxRecords: nat, ts: seq<Tables>, ops: seq<Op>, m: nat, key: IdempotencyKey)
    requires m < |ops| < |ts|
  {
    ops[m].Idempotent? && ops[m].key == key && OutcomeOf(maxRecords, ts[m], ops[m]) == Inserted
  }

  /** The operation inserts under `key`, to be remembered until `expiresAt`. */
  predicate InsertsUnder(maxRecords: nat, t: Tables, op: Op, key: IdempotencyKey, expiresAt: int) {
    op.Idempotent? && op.key == key && OutcomeOf(maxRecords, t, op) == Inserted && op.expiresAt == expiresAt
  }

  lemma RememberedKey(maxRecords: nat, t: Tables, op: Op, key: IdempotencyKey)
    requires key in Step(maxRecords, t, op).dedup
    ensures var row := Step(maxRecords, t, op).dedup[key];
      InsertsUnder(maxRecords, t, op, key, row.expiresAt) || (key in t.dedup && t.dedup[key] == row)
  {
  }

  /** The same for a step of a run. */
  lemma RememberedAlong(maxRecords: nat, ts: seq<Tables>, ops: seq<Op>, j: nat, key: IdempotencyKey)
    requires Run(maxRecords, ts, ops) && j < |ops| && key in ts[j + 1].dedup
    ensures var row := ts[j + 1].dedup[key];
      InsertsUnder(maxRecords, ts[j], ops[j], key, row.expiresAt) || (key in ts[j].dedup && ts[j].dedup[key] == row)
  {
    RememberedKey(maxRecords, ts[j], ops[j], key);
  }

  /** Every remembered key was inserted by the run, and is remembered with that insertion's expiry. */
  lemma {:induction false} DedupRowsAreInsertions(maxRecords: nat, ts: seq<Tables>, ops: seq<Op>, j: nat,
                                                  key: IdempotencyKey)
    returns (m: nat)
    requires Run(maxRecords, ts, ops) && ts[0].dedup == map[] && j < |ts| && key in ts[j].dedup
    ensures m < j && InsertedAt(maxRecords, ts, ops, m, key) && ops[m].expiresAt == ts[j].dedup[key].expiresAt
    decreases j
  {
    assert j > 0;
    RememberedAlong(maxRecords, ts, ops, j - 1, key);
    if InsertsUnder(maxRecords, ts[j - 1], ops[j - 1], key, ts[j].dedup[key].expiresAt) {
      m := j - 1;
    } else {
      m := DedupRowsAreInsertions(maxRecords, ts, ops, j - 1, key);
    }
  }

  /** The window is exact: once all insertions that the run made under a key have expired, the key inserts again,
      whatever became of their commands, exactly when the command id is free and the table is not full of protected
      rows. */
  lemma KeyFreeAfterExpiry(maxRecords: nat, ts: seq<Tables>, ops: seq<Op>, j: nat)
    requires Run(maxRecords, ts, ops) && ts[0].dedup == map[] && j < |ops| && ops[j].Idempotent?
    requires forall m :: 0 <= m < j && InsertedAt(maxRecords, ts, ops, m, ops[j].key) ==>
      ops[m].expiresAt <= ops[j].command.issuedAt
    ensures OutcomeOf(maxRecords, ts[j], ops[j]) == Inserted <==>
      && ops[j].id !in ts[j].commands - ops[j].victims
      && !(RoomNeeded(maxRecords, ts[j]) == 1 && PrunableIds(ts[j].commands) == {})
  {
    if ops[j].key in ts[j].dedup {
      var m := DedupRowsAreInsertions(maxRecords, ts, ops, j, ops[j].key);
      assert InsertedAt(maxRecords, ts, ops, m, ops[j].key);
    }
  }

  // ----------------------------------------------------- what may be deleted

  /** A transaction that does not insert changes no command; only finished, certain commands are ever deleted;
      and only an overwrite changes a row that stays. */
  lemma DeletesOnlyFinished(maxRecords: nat, t: Tables, op: Op, id: CommandId)
    requires Allowed(maxRecords, t, op) && id in t.commands
    ensures op.Idempotent? && OutcomeOf(maxRecords, t, op) != Inserted ==>
      Step(maxRecords, t, op).commands == t.commands
    ensures id !in Step(maxRecords, t, op).commands ==> Prunable(t.commands[id].command.state)
    ensures id in Step(maxRecords, t, op).commands && !(op.Overwrite? && op.id == id) ==>
      || Step(maxRecords, t, op).commands[id] == t.commands[id]
      || (op.Idempotent? && op.id == id && id in op.victims)
  {
    if op.Legacy? && op.id !in t.commands {
      var grown := t.commands[op.id := Row(op.fingerprint, op.command)];
      assert id in op.victims ==> id in PrunableIds(grown);
    }
  }

  /** `id` is in both tables, protected in both, and the same row if `same`. */
  predicate Survives(t: Tables, u: Tables, id: CommandId, same: bool) {
    && id in t.commands && id in u.commands && !Prunable(u.commands[id].command.state)
    && (same ==> u.commands[id] == t.commands[id])
  }

  lemma ProtectedRowStays(maxRecords: nat, t: Tables, op: Op, id: CommandId)
    requires Allowed(maxRecords, t, op) && id in t.commands && !Prunable(t.commands[id].command.state)
    requires op.Overwrite? && op.id == id ==> !Prunable(op.command.state)
    ensures Survives(t, Step(maxRecords, t, op), id, !(op.Overwrite? && op.id == id))
  {
    DeletesOnlyFinished(maxRecords, t, op, id);
    if op.Idempotent? { assert id in op.victims ==> id in PrunableIds(t.commands); }
  }

  predicate Overwrites(op: Op, id: CommandId) {
    op.Overwrite? && op.id == id
  }

  predicate StaysOver(t: Tables, u: Tables, op: Op, id: CommandId) {
    id in t.commands && !Prunable(t.commands[id].command.state) ==> Survives(t, u, id, !Overwrites(op, id))
  }

  lemma {:induction false} SurvivalChains(ts: seq<Tables>, ops: seq<Op>, i: nat, j: nat, id: CommandId)
    requires |ts| == |ops| + 1 && i <= j < |ts|
    requires forall k {:trigger ops[k]} :: i <= k < j ==> StaysOver(ts[k], ts[k + 1], ops[k], id)
    requires id in ts[i].commands && !Prunable(ts[i].commands[id].command.state)
    ensures Survives(ts[i], ts[j], id, forall k :: i <= k < j ==> !Overwrites(ops[k], id))
    decreases j
  {
    if i < j {
      SurvivalChains(ts, ops, i, j - 1, id);
      assert StaysOver(ts[j - 1], ts[j], ops[j - 1], id);
    }
  }

  /** A row survives any run in which it is never overwritten with a discardable state, and unchanged if it is not
      overwritten. */
  lemma ProtectedRowSurvives(maxRecords: nat, ts: seq<Tables>, ops: seq<Op>, i: nat, j: nat, id: CommandId)
    requires Run(maxRecords, ts, ops) && i <= j < |ts|
    requires id in ts[i].commands && !Prunable(ts[i].commands[id].command.state)
    requires forall k :: i <= k < j && Overwrites(ops[k], id) ==> !Prunable(ops[k].command.state)
    ensures Survives(ts[i], ts[j], id, forall k :: i <= k < j ==> !Overwrites(ops[k], id))
  {
    forall k | i <= k < j ensures StaysOver(ts[k], ts[k + 1], ops[k], id) {
      if id in ts[k].commands && !Prunable(ts[k].commands[id].command.state) {
        ProtectedRowStays(maxRecords, ts[k], ops[k], id);
      }
    }
    SurvivalChains(ts, ops, i, j, id);
  }

  // ---------------------------------------------------------------- capacity

  lemma RemovedSize(m: map<CommandId, Row>, s: set<CommandId>)
    requires s <= m.Keys
    ensures |m - s| == |m| - |s|
  {
    assert (m - s).Keys == m.Keys - s;
  }

  /** An idempotent insertion never grows a limited table beyond the limit, and never grows one already over it. */
  lemma IdempotentCapacity(maxRecords: nat, t: Tables, op: Op)
    requires op.Idempotent? && Allowed(maxRecords, t, op) && OutcomeOf(maxRecords, t, op) == Inserted
    ensures |Step(maxRecords, t, op).commands| == |t.commands| + if 0 < maxRecords <= |t.commands| then 0 else 1
    ensures maxRecords > 0 ==>
      |Step(maxRecords, t, op).commands| <= (if |t.commands| > maxRecords then |t.commands| else maxRecords)
  {
    RemovedSize(t.commands, op.victims);
    var rest := t.commands - op.victims;
    assert |rest[op.id := Row(op.fingerprint, op.command)]| == |rest| + 1;
  }

  /** A legacy insertion is never refused: it overshoots the limit exactly when too few rows may be discarded, and
      discards no more than it must. */
  lemma LegacyCapacity(maxRecords: nat, t: Tables, op: Op)
    requires op.Legacy? && Allowed(maxRecords, t, op) && op.id !in t.commands
    requires !Prunable(op.command.state) && 0 < maxRecords
    ensures |Step(maxRecords, t, op).commands| <= maxRecords <==>
      |t.commands| + 1 <= maxRecords + |PrunableIds(t.commands)|
    ensures |Step(maxRecords, t, op).commands| < |t.commands| + 1 ==> maxRecords <= |Step(maxRecords, t, op).commands|
  {
    var grown := t.commands[op.id := Row(op.fingerprint, op.command)];
    assert PrunableIds(grown) == PrunableIds(t.commands);
    assert |grown| == |t.commands| + 1;
    RemovedSize(grown, op.victims);
  }
}
