/** The durable command ledger: the commands, dedup and reconciliation tables,
    the transactions over them, and what they promise over whole runs. */
module CommandLedger {
  import opened Basics
  import opened CommandTypes

  datatype Row = Row(fingerprint: string, command: Command)

  datatype DedupRow = DedupRow(requestHash: string, commandId: CommandId, createdAt: int, expiresAt: int)

  datatype Conclusion = ConfirmedApplied | ConfirmedNotApplied | Inconclusive

  datatype Reconciliation = Reconciliation(commandId: CommandId, conclusion: Conclusion, allowRetry: bool,
                                           createdAt: int)

  datatype Tables = Tables(
    commands: map<CommandId, Row>,
    dedup: map<IdempotencyKey, DedupRow>,
    reconciliations: seq<Reconciliation>
  )

  datatype Outcome = Inserted | Duplicate | DedupConflict | CapacityExhausted

  // ---------------------------------------------------------------- pruning

  function PrunableIds(commands: map<CommandId, Row>): set<CommandId> {
    set id | id in commands && Prunable(commands[id].command.state)
  }

  /** `victims` are the `n` oldest prunable rows, or all of them if there are fewer. */
  ghost predicate OldestPrunable(commands: map<CommandId, Row>, victims: set<CommandId>, n: nat) {
    && victims <= PrunableIds(commands)
    && |victims| == (if n <= |PrunableIds(commands)| then n else |PrunableIds(commands)|)
    && forall v, r :: v in victims && r in PrunableIds(commands) - victims ==>
         commands[v].command.updatedAt <= commands[r].command.updatedAt
  }

  /** Nothing in `ids` was updated before `v`. */
  predicate OldestIn(commands: map<CommandId, Row>, ids: set<CommandId>, v: CommandId)
    requires ids <= commands.Keys
  {
    v in ids && forall r :: r in ids ==> commands[v].command.updatedAt <= commands[r].command.updatedAt
  }

  /** Nothing in `ids` was updated after `v`. */
  predicate NewestIn(commands: map<CommandId, Row>, ids: set<CommandId>, v: CommandId)
    requires ids <= commands.Keys
  {
    v in ids && forall r :: r in ids ==> commands[r].command.updatedAt <= commands[v].command.updatedAt
  }

  /** Different rows of the table, in the order of their last update. */
  predicate OldestFirst(commands: map<CommandId, Row>, ids: seq<CommandId>) {
    && (forall id :: id in ids ==> id in commands)
    && (forall i, j :: 0 <= i < j < |ids| ==>
          ids[i] != ids[j] && commands[ids[i]].command.updatedAt <= commands[ids[j]].command.updatedAt)
  }

  /** The rows in `ids` are others than those in `left`, and none of them was updated later. */
  predicate Before(commands: map<CommandId, Row>, ids: seq<CommandId>, left: set<CommandId>) {
    forall id, r :: id in ids && r in left ==>
      id != r && id in commands && r in commands && commands[id].command.updatedAt <= commands[r].command.updatedAt
  }

  lemma TakeOldest(commands: map<CommandId, Row>, ids: seq<CommandId>, left: set<CommandId>, id: CommandId)
    requires left <= commands.Keys && OldestFirst(commands, ids) && Before(commands, ids, left)
    requires OldestIn(commands, left, id)
    ensures OldestFirst(commands, ids + [id]) && Before(commands, ids + [id], left - {id})
  {
  }

  lemma ExtremesExist(commands: map<CommandId, Row>, ids: set<CommandId>) returns (oldest: CommandId, newest: CommandId)
    requires ids != {} && ids <= commands.Keys
    ensures OldestIn(commands, ids, oldest) && NewestIn(commands, ids, newest)
  {
    var x :| x in ids;
    oldest, newest := x, x;
    var left := ids - {x};
    while left != {}
      invariant left <= ids && oldest in ids - left && newest in ids - left
      invariant OldestIn(commands, ids - left, oldest) && NewestIn(commands, ids - left, newest)
      decreases left
    {
      var y :| y in left;
      if commands[y].command.updatedAt < commands[oldest].command.updatedAt { oldest := y; }
      if commands[y].command.updatedAt > commands[newest].command.updatedAt { newest := y; }
      left := left - {y};
      assert ids - left == (ids - (left + {y})) + {y};
    }
    assert ids - left == ids;
  }

  lemma SmallerSubset(a: set<CommandId>, b: set<CommandId>)
    requires a <= b
    ensures |a| <= |b| && (a != b ==> |a| < |b|)
  {
    assert |b| == |a| + |b - a|;
    if a != b { assert b - a != {}; }
  }

  // ----------------------------------------------------------- transactions

  function LiveDedup(dedup: map<IdempotencyKey, DedupRow>, now: int): map<IdempotencyKey, DedupRow> {
    map k | k in dedup && dedup[k].expiresAt > now :: dedup[k]
  }

  /** How many rows one idempotent insertion tries to make room for. */
  function RoomNeeded(maxRecords: nat, t: Tables): nat {
    if maxRecords > 0 && |t.commands| >= maxRecords then 1 else 0
  }

  /** The transaction of an idempotent insertion; `victims` resolves the tie among equally old rows. */
  function InsertWithDedupSpec(maxRecords: nat, t: Tables, id: CommandId, fingerprint: string, command: Command,
                               key: IdempotencyKey, hash: string, expiresAt: int, victims: set<CommandId>): (Tables,
                                                                                                             Outcome)
  {
    var live := LiveDedup(t.dedup, command.issuedAt);
    if key in live then
      (t.(dedup := live), if live[key].requestHash != hash then DedupConflict else Duplicate)
    else if RoomNeeded(maxRecords, t) == 1 && PrunableIds(t.commands) == {} then
      (t, CapacityExhausted)
    else if id in t.commands - victims then
      (t, Duplicate)
    else
      (Tables((t.commands - victims)[id := Row(fingerprint, command)],
              live[key := DedupRow(hash, id, command.issuedAt, expiresAt)],
              t.reconciliations),
       Inserted)
  }

  /** When each answer comes: a key that has not expired is answered from its first request, as a duplicate of it or a
      conflict with it; otherwise the insertion fails in a table full of protected rows, and for an id that stays
      taken. */
  lemma InsertionAnswers(maxRecords: nat, t: Tables, id: CommandId, fingerprint: string, command: Command,
                         key: IdempotencyKey, hash: string, expiresAt: int, victims: set<CommandId>)
    ensures var outcome :=
        InsertWithDedupSpec(maxRecords, t, id, fingerprint, command, key, hash, expiresAt, victims).1;
      var known := key in t.dedup && command.issuedAt < t.dedup[key].expiresAt;
      var protected := 0 < maxRecords <= |t.commands|
                       && forall x :: x in t.commands ==> !Prunable(t.commands[x].command.state);
      && (outcome == DedupConflict <==> known && t.dedup[key].requestHash != hash)
      && (outcome == CapacityExhausted <==> !known && protected)
      && (outcome == Inserted <==> !known && !protected && (id in t.commands ==> id in victims))
  {
    assert forall x :: x in PrunableIds(t.commands) <==> x in t.commands && Prunable(t.commands[x].command.state);
  }

  /** What each answer leaves: only an insertion changes the commands, by its row and the rows it discards; keys that
      have not expired stay as they are, and no key appears but that of an insertion. */
  lemma InsertionLeaves(maxRecords: nat, t: Tables, id: CommandId, fingerprint: string, command: Command,
                        key: IdempotencyKey, hash: string, expiresAt: int, victims: set<CommandId>, k: IdempotencyKey)
    ensures var (u, outcome) :=
        InsertWithDedupSpec(maxRecords, t, id, fingerprint, command, key, hash, expiresAt, victims);
      && u.reconciliations == t.reconciliations
      && u.commands == (if outcome == Inserted then (t.commands - victims)[id := Row(fingerprint, command)]
                        else t.commands)
      && (outcome == Inserted ==>
            key in u.dedup && u.dedup[key] == DedupRow(hash, id, command.issuedAt, expiresAt))
      && (k in u.dedup && !(outcome == Inserted && k == key) ==> k in t.dedup && u.dedup[k] == t.dedup[k])
      && (k in t.dedup && command.issuedAt < t.dedup[k].expiresAt ==> k in u.dedup && u.dedup[k] == t.dedup[k])
  {
  }

  /** The legacy insertion: ignored when the id is taken, otherwise followed by a prune back to the limit. */
  function InsertSpec(t: Tables, id: CommandId, fingerprint: string, command: Command,
                      victims: set<CommandId>): Tables {
    if id in t.commands then t
    else t.(commands := t.commands[id := Row(fingerprint, command)] - victims)
  }

  function Excess(maxRecords: nat, commands: map<CommandId, Row>): nat {
    if maxRecords > 0 && |commands| > maxRecords then |commands| - maxRecords else 0
  }

  function UpdateSpec(t: Tables, id: CommandId, command: Command): Tables
    requires id in t.commands
  {
    t.(commands := t.commands[id := t.commands[id].(command := command)])
  }

  // -------------------------------------------------- unresolved outcomes

  /** `r` is a newest reconciliation of `id`. */
  predicate Latest(rs: seq<Reconciliation>, id: CommandId, r: Reconciliation) {
    r in rs && r.commandId == id && forall o :: o in rs && o.commandId == id ==> o.createdAt <= r.createdAt
  }

  ghost predicate Released(rs: seq<Reconciliation>, id: CommandId) {
    exists r :: Latest(rs, id, r) && r.allowRetry
  }

  /** An unresolved command for the pair that no newest reconciliation lets go. */
  ghost predicate Blocks(t: Tables, deviceId: string, action: string, id: CommandId) {
    && id in t.commands
    && t.commands[id].command.state == OutcomeUnknown
    && t.commands[id].command.deviceId == deviceId
    && t.commands[id].command.action == action
    && !Released(t.reconciliations, id)
  }

  /** Some admissible choice of victims, for the transactions that delete nothing. */
  lemma SomeVictims(maxRecords: nat, t: Tables) returns (victims: set<CommandId>)
    ensures OldestPrunable(t.commands, victims, RoomNeeded(maxRecords, t))
  {
    if RoomNeeded(maxRecords, t) == 0 || PrunableIds(t.commands) == {} {
      victims := {};
    } else {
      var oldest, _ := ExtremesExist(t.commands, PrunableIds(t.commands));
      victims := {oldest};
      assert |victims| == 1;
    }
  }

  // ------------------------------------------------------------- the store

  class Ledger {
    const maxRecords: nat
    var commands: map<CommandId, Row>
    var dedup: map<IdempotencyKey, DedupRow>
    var reconciliations: seq<Reconciliation>

    constructor (maxRecords: nat)
      ensures this.maxRecords == maxRecords && Contents() == Tables(map[], map[], [])
    {
      this.maxRecords := maxRecords;
      commands, dedup, reconciliations := map[], map[], [];
    }

    ghost function Contents(): Tables
      reads this
    {
      Tables(commands, dedup, reconciliations)
    }

    /** Deletes up to `n` prunable rows, oldest first. */
    method DeleteOldest(n: nat) returns (victims: set<CommandId>)
      modifies this`commands
      ensures OldestPrunable(old(commands), victims, n)
      ensures commands == old(commands) - victims
    {
      victims := {};
      var all := PrunableIds(commands);
      while |victims| < n && victims != all
        invariant commands == old(commands) && victims <= all && |victims| <= n
        invariant forall v, r :: v in victims && r in all - victims ==>
          commands[v].command.updatedAt <= commands[r].command.updatedAt
        decreases all - victims
      {
        var left := all - victims;
        ghost var oldest, _ := ExtremesExist(commands, left);
        assert oldest in left;
        var v :| v in left && OldestIn(commands, left, v);
        assert OldestIn(commands, left, v);
        victims := victims + {v};
        assert all - victims == left - {v};
      }
      assert victims != all ==> victims < all;
      SmallerSubset(victims, all);
      commands := commands - victims;
    }

    method Insert(id: CommandId, fingerprint: string, command: Command)
      returns (inserted: bool, ghost victims: set<CommandId>)
      modifies this`commands
      ensures inserted == (id !in old(commands))
      ensures inserted ==> OldestPrunable(old(commands)[id := Row(fingerprint, command)], victims,
                                          Excess(maxRecords, old(commands)[id := Row(fingerprint, command)]))
      ensures commands == if inserted then old(commands)[id := Row(fingerprint, command)] - victims else old(commands)
      ensures Contents() == InsertSpec(old(Contents()), id, fingerprint, command, victims)
    {
      victims := {};
      if id in commands {
        return false, {};
      }
      commands := commands[id := Row(fingerprint, command)];
      victims := DeleteOldest(Excess(maxRecords, commands));
      inserted := true;
    }

    /** A key that has not expired is answered from its first request. Otherwise the row is added, in the place of the
        oldest discardable one if the table is full, unless all are protected or the id is taken. */
    method InsertWithDedup(id: CommandId, fingerprint: string, command: Command,
                           key: IdempotencyKey, hash: string, expiresAt: int)
      returns (outcome: Outcome, ghost victims: set<CommandId>)
      modifies this
      ensures OldestPrunable(old(commands), victims, RoomNeeded(maxRecords, old(Contents())))
      ensures (Contents(), outcome) ==
        InsertWithDedupSpec(maxRecords, old(Contents()), id, fingerprint, command, key, hash, expiresAt, victims)
    {
      var savedCommands, savedDedup := commands, dedup;
      victims := SomeVictims(maxRecords, Contents());
      dedup := LiveDedup(dedup, command.issuedAt);
      if key in dedup {
        return if dedup[key].requestHash != hash then DedupConflict else Duplicate, victims;
      }
      var room;
      room, victims := MakeRoom();
      if !room {
        commands, dedup := savedCommands, savedDedup;
        return CapacityExhausted, victims;
      }
      if id in commands {
        commands, dedup := savedCommands, savedDedup;
        return Duplicate, victims;
      }
      commands := commands[id := Row(fingerprint, command)];
      dedup := dedup[key := DedupRow(hash, id, command.issuedAt, expiresAt)];
      outcome := Inserted;
    }

    /** Deletes one row when the table is full; false when that is not possible. */
    method MakeRoom() returns (room: bool, ghost victims: set<CommandId>)
      modifies this`commands
      ensures OldestPrunable(old(commands), victims, RoomNeeded(maxRecords, old(Contents())))
      ensures commands == old(commands) - victims
      ensures room <==> !(RoomNeeded(maxRecords, old(Contents())) == 1 && PrunableIds(old(commands)) == {})
    {
      room, victims := true, {};
      if maxRecords > 0 && |commands| >= maxRecords {
        var deleted := DeleteOldest(1);
        victims := deleted;
        room := deleted != {};
      } else {
        assert commands - victims == commands;
      }
    }

    method FindDedup(key: IdempotencyKey, now: int) returns (r: Option<DedupRow>)
      ensures r == if key in LiveDedup(dedup, now) then Some(dedup[key]) else None
      ensures r.Some? <==> key in dedup && now < dedup[key].expiresAt
    {
      r := if key in dedup && dedup[key].expiresAt > now then Some(dedup[key]) else None;
    }

    method AppendReconciliation(r: Reconciliation)
      modifies this`reconciliations
      ensures reconciliations == old(reconciliations) + [r]
    {
      reconciliations := reconciliations + [r];
    }

    /** False stands for the exception thrown when no row has the id. */
    method Update(id: CommandId, command: Command) returns (found: bool)
      modifies this`commands
      ensures found == (id in old(commands))
      ensures found ==> commands == old(commands)[id := Row(old(commands)[id].fingerprint, command)]
      ensures Contents() == if found then UpdateSpec(old(Contents()), id, command) else old(Contents())
    {
      found := id in commands;
      if found {
        commands := commands[id := commands[id].(command := command)];
      }
    }

    /** The unfinished rows, each once, least recently updated first. */
    method NonTerminal() returns (ids: seq<CommandId>)
      ensures forall id :: id in ids <==> id in commands && !Terminal(commands[id].command.state)
      ensures OldestFirst(commands, ids)
    {
      ids := [];
      var left := set id | id in commands && !Terminal(commands[id].command.state);
      while left != {}
        invariant left <= commands.Keys && OldestFirst(commands, ids) && Before(commands, ids, left)
        invariant forall id :: id in ids || id in left <==> id in commands && !Terminal(commands[id].command.state)
        decreases left
      {
        ghost var oldest, _ := ExtremesExist(commands, left);
        assert oldest in left;
        var id :| id in left && OldestIn(commands, left, id);
        TakeOldest(commands, ids, left, id);
        ids := ids + [id];
        left := left - {id};
      }
    }

    /** The newest reconciliation of a command, if it has one. */
    method LatestReconciliation(id: CommandId) returns (r: Option<Reconciliation>)
      ensures r.Some? ==> Latest(reconciliations, id, r.value)
      ensures r.None? ==> forall o :: o in reconciliations ==> o.commandId != id
    {
      r := None;
      for i := 0 to |reconciliations|
        invariant r.Some? ==> Latest(reconciliations[..i], id, r.value)
        invariant r.None? ==> forall o :: o in reconciliations[..i] ==> o.commandId != id
      {
        var o := reconciliations[i];
        assert reconciliations[..i + 1] == reconciliations[..i] + [o];
        if o.commandId == id && (r.None? || r.value.createdAt <= o.createdAt) {
          r := Some(o);
        }
      }
      assert reconciliations[..|reconciliations|] == reconciliations;
    }

    /** Scans the unresolved rows, most recently updated first, for one that still blocks the pair. */
    method BlockingUnknownFor(deviceId: string, action: string) returns (r: Option<CommandId>)
      ensures r.None? ==> forall id :: !Blocks(Contents(), deviceId, action, id)
      ensures r.Some? ==> (
        && r.value in commands
        && var c := commands[r.value].command;
           c.state == OutcomeUnknown && c.deviceId == deviceId && c.action == action)
      ensures r.Some? ==> (
        || (forall o :: o in reconciliations ==> o.commandId != r.value)
        || exists o :: Latest(reconciliations, r.value, o) && !o.allowRetry)
      ensures r.Some? ==> forall id :: Blocks(Contents(), deviceId, action, id) ==>
        commands[id].command.updatedAt <= commands[r.value].command.updatedAt
    {
      var left := set id | id in commands && commands[id].command.state == OutcomeUnknown;
      while left != {}
        invariant left <= commands.Keys
        invariant forall id :: Blocks(Contents(), deviceId, action, id) ==> id in left
        invariant forall id :: id in left ==> commands[id].command.state == OutcomeUnknown
        decreases left
      {
        ghost var _, newest := ExtremesExist(commands, left);
        assert newest in left;
        var id :| id in left && NewestIn(commands, left, id);
        assert NewestIn(commands, left, id);
        left := left - {id};
        if commands[id].command.deviceId == deviceId && commands[id].command.action == action {
          var last := LatestReconciliation(id);
          if last.None? || !last.value.allowRetry {
            return Some(id);
          }
          assert Released(reconciliations, id);
        }
      }
      return None;
    }
  }

}
