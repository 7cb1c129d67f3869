/** What a client fetches of a command stands at a position of the trace its events form, so from there no selection of
    events contradicts the command, and full delivery converges. */
module ClientSnapshots {
  import opened Basics
  import opened CommandTypes
  import opened CommandLedger
  import opened CommandProtocol
  import opened ProtocolSafety
  import opened ProtocolTheorems
  import opened ProtocolFreshness
  import opened ProtocolOutcomes
  import opened ProtocolPositions
  import opened ProtocolSending
  import Client = ClientView

  function ViewOf(id: CommandId, c: Command): Client.View {
    Client.View(id, c.state, c.updatedAt, if c.lastEventSeq.Some? then Some(c.lastEventSeq.value) else None,
                Some(c.revision), Some(c.expiresAt))
  }

  // ------------------------------------------------------- where a record stands

  /** The position that a record names. */
  function PositionOf(c: Command): nat {
    if c.lastEventSeq.Some? then c.lastEventSeq.value else 0
  }

  lemma PlacedStands(es: seq<Event>, id: CommandId, c: Command)
    requires PlacedOn(es, c) && c.state != OutcomeUnknown && id != ""
    ensures Client.At(es, ViewOf(id, c), PositionOf(c))
  {
  }

  /** While a transition is being saved, everything before it has been sent. */
  lemma UpcomingSent(maxRecords: nat, ws: seq<World>, steps: seq<Step>, i: nat, id: CommandId)
    requires Run(maxRecords, ws, steps) && i < |ws| && Owned(ws[i], id)
    ensures SentOf(ws[i], id) <= Upcoming(ws[i], id) && |Upcoming(ws[i], id)| <= |SentOf(ws[i], id)| + 1
  {
    RunInv(maxRecords, ws, steps, i);
    RunSendingOk(maxRecords, ws, steps, i);
    if Ahead(ws[i], id) { NotWaiting(ws[i], id); }
  }

  /** In every run, stale copies included, a fetched record whose outcome is not unknown stands at the position it
      names, among the transitions saved or, if it is the one in memory, about to be saved: at most one event past
      those that clients have been sent. */
  lemma FetchedIsPlaced(maxRecords: nat, ws: seq<World>, steps: seq<Step>, i: nat, id: CommandId)
    requires Run(maxRecords, ws, steps) && i < |ws| && id in ws[i].tables.commands && id != ""
    requires Fetched(ws[i], id).value.state != OutcomeUnknown
    ensures Owned(ws[i], id)
    ensures var c := Fetched(ws[i], id).value;
      && SentOf(ws[i], id) <= Upcoming(ws[i], id) && Client.At(Upcoming(ws[i], id), ViewOf(id, c), PositionOf(c))
      && PositionOf(c) <= |Upcoming(ws[i], id)| <= |SentOf(ws[i], id)| + 1
  {
    RunPlaced(maxRecords, ws, steps, i, id);
    RunInv(maxRecords, ws, steps, i);
    assert CommandOk(ws[i], id);
    UpcomingSent(maxRecords, ws, steps, i, id);
    PlacedStands(Upcoming(ws[i], id), id, Fetched(ws[i], id).value);
  }

  /** A record in step is the newest version, saved or about to be. */
  lemma InStepIsLast(w: World, id: CommandId)
    requires Inv(w) && Current(w, id) && id in w.tables.commands && Fetched(w, id).value.state != OutcomeUnknown
    ensures Owned(w, id)
    ensures var es, c := Upcoming(w, id), Fetched(w, id).value;
      c.state == LastState(es) && c.revision == Client.RevisionAt(es, 1, |es|)
  {
    assert InStep(w, id) && CommandOk(w, id);
  }

  lemma UpcomingLegal(w: World, id: CommandId)
    requires Inv(w) && Owned(w, id)
    ensures LegalTrace(Upcoming(w, id))
  {
    assert CommandOk(w, id) && HistoryOk(w.histories[w.owner[id]], w.now);
    if Ahead(w, id) { AppendKeepsTrace(EventsOf(w, id), Announcement(w.tasks[id].snapshot)); }
  }

  /** In a run without a stale copy, a fetched record whose outcome is not unknown stands at the end of what has been
      saved of the command, or is about to be; of which at most the last has not been sent. */
  lemma FetchedStands(maxRecords: nat, ws: seq<World>, steps: seq<Step>, i: nat, id: CommandId)
    requires FreshRun(maxRecords, ws, steps, id) && i < |ws| && id in ws[i].tables.commands && id != ""
    requires Fetched(ws[i], id).value.state != OutcomeUnknown
    ensures Owned(ws[i], id)
    ensures var es := Upcoming(ws[i], id);
      && Client.Stands(es, ViewOf(id, Fetched(ws[i], id).value), 1, |es|)
      && SentOf(ws[i], id) <= es && |es| <= |SentOf(ws[i], id)| + 1
  {
    RunCurrent(maxRecords, ws, steps, i, id);
    FetchedIsPlaced(maxRecords, ws, steps, i, id);
    InStepIsLast(ws[i], id);
    UpcomingLegal(ws[i], id);
    var es, k := Upcoming(ws[i], id), PositionOf(Fetched(ws[i], id).value);
    assert es[..|es|] == es;
    if k < |es| { Client.TraceClimbs(es, k, |es|); }
  }

  // ------------------------------------------------------------ convergence

  /** The thread is still about to save what it was about to save in `u`, or was ended by a crash before it did; or
      it has been saved. */
  ghost predicate SavedOrNot(u: World, w: World, id: CommandId) {
    && Owned(u, id) && Owned(w, id) && w.owner[id] == u.owner[id]
    && (Upcoming(u, id) <= EventsOf(w, id)
        || (EventsOf(w, id) == EventsOf(u, id)
            && (Idle(w, w.owner[id])
                || (id in u.tasks && id in w.tasks && w.tasks[id] == u.tasks[id] && w.tasks[id].Saving?))))
  }

  lemma PersistSaves(u: World, w: World, id: CommandId)
    requires Inv(w) && SavedOrNot(u, w, id) && Ahead(u, id) && w.running && id in w.tasks && w.tasks[id].Saving?
    requires id in w.tables.commands && !(Upcoming(u, id) <= EventsOf(w, id))
    ensures Upcoming(u, id) <= EventsOf(PersistSection(w, id), id)
  {
    assert CommandOk(w, id);
  }

  predicate SameOwner(w: World, v: World, id: CommandId) {
    Owned(w, id) && Owned(v, id) && v.owner[id] == w.owner[id]
  }

  lemma OtherEventsStay(maxRecords: nat, w: World, s: Step, id: CommandId)
    requires Inv(w) && Enabled(maxRecords, w, s) && SameOwner(w, Apply(maxRecords, w, s), id) && s != Persist(id)
    ensures EventsOf(Apply(maxRecords, w, s), id) == EventsOf(w, id)
  {
    StepGrows(maxRecords, w, s);
  }

  lemma SavedStays(u: World, w: World, s: Step, v: World, id: CommandId)
    requires SavedOrNot(u, w, id) && Upcoming(u, id) <= EventsOf(w, id) && SameOwner(w, v, id) && Grown(w, s, v)
    ensures SavedOrNot(u, v, id)
  {
  }

  lemma EndedStays(u: World, w: World, v: World, id: CommandId)
    requires SavedOrNot(u, w, id) && EventsOf(w, id) == EventsOf(u, id) && Idle(w, w.owner[id])
    requires SameOwner(w, v, id) && Frame(w, v)
    ensures SavedOrNot(u, v, id)
  {
  }

  lemma WaitingStays(u: World, w: World, v: World, id: CommandId)
    requires SavedOrNot(u, w, id) && !(Upcoming(u, id) <= EventsOf(w, id)) && !Idle(w, w.owner[id])
    requires SameOwner(w, v, id) && EventsOf(v, id) == EventsOf(w, id)
    requires v.tasks == map[] || (id in v.tasks && v.tasks[id] == w.tasks[id])
    ensures SavedOrNot(u, v, id)
  {
  }

  lemma StillSavedOrNot(maxRecords: nat, u: World, w: World, s: Step, id: CommandId)
    requires Inv(w) && Ahead(u, id) && SavedOrNot(u, w, id) && Enabled(maxRecords, w, s)
    requires SameOwner(w, Apply(maxRecords, w, s), id)
    ensures SavedOrNot(u, Apply(maxRecords, w, s), id)
  {
    var v := Apply(maxRecords, w, s);
    if Upcoming(u, id) <= EventsOf(w, id) {
      StepGrows(maxRecords, w, s);
      SavedStays(u, w, s, v, id);
    } else if Idle(w, w.owner[id]) {
      StepFrame(maxRecords, w, s);
      EndedStays(u, w, v, id);
    } else if s == Persist(id) {
      PersistSaves(u, w, id);
    } else {
      OtherEventsStay(maxRecords, w, s, id);
      if s != Crash { ThreadEnds(maxRecords, w, s, id); }
      WaitingStays(u, w, v, id);
    }
  }

  lemma NotYetSaved(w: World, id: CommandId)
    requires Inv(w) && Ahead(w, id)
    ensures SavedOrNot(w, w, id)
  {
    assert CommandOk(w, id);
  }

  lemma RunStepSaved(maxRecords: nat, ws: seq<World>, steps: seq<Step>, u: World, k: nat, id: CommandId)
    requires Run(maxRecords, ws, steps) && k < |steps| && Ahead(u, id) && SavedOrNot(u, ws[k], id)
    requires id in ws[k].tables.commands && id in ws[k + 1].tables.commands
    ensures SavedOrNot(u, ws[k + 1], id)
  {
    RunInv(maxRecords, ws, steps, k + 1);
    assert CommandOk(ws[k + 1], id);
    RunInv(maxRecords, ws, steps, k);
    RunRows(maxRecords, ws, steps, id);
    assert RowStep(ws[k], steps[k], ws[k + 1], id);
    StillSavedOrNot(maxRecords, u, ws[k], steps[k], id);
  }

  lemma {:induction false} RunSavedOrNot(maxRecords: nat, ws: seq<World>, steps: seq<Step>, i: nat, j: nat,
                                        id: CommandId)
    requires Run(maxRecords, ws, steps) && i <= j < |ws| && Present(ws, i, j, id) && Ahead(ws[i], id)
    ensures SavedOrNot(ws[i], ws[j], id)
    decreases j
  {
    if i == j {
      RunInv(maxRecords, ws, steps, i);
      NotYetSaved(ws[i], id);
    } else {
      RunSavedOrNot(maxRecords, ws, steps, i, j - 1, id);
      RunStepSaved(maxRecords, ws, steps, ws[i], j - 1, id);
    }
  }

  lemma TraceContinues(maxRecords: nat, ws: seq<World>, steps: seq<Step>, i: nat, j: nat, id: CommandId)
    requires Run(maxRecords, ws, steps) && i <= j < |ws| && Present(ws, i, j, id) && Owned(ws[i], id)
    ensures Owned(ws[j], id) && ws[j].owner[id] == ws[i].owner[id]
    ensures Upcoming(ws[i], id) <= EventsOf(ws[j], id) || EventsOf(ws[j], id) == EventsOf(ws[i], id)
  {
    RunRows(maxRecords, ws, steps, id);
    ChainKeepsRow(ws, steps, i, j, id);
    RunInv(maxRecords, ws, steps, j);
    assert CommandOk(ws[j], id);
    if Ahead(ws[i], id) {
      RunSavedOrNot(maxRecords, ws, steps, i, j, id);
    } else {
      RunGrows(maxRecords, ws, steps);
      HistoriesGrow(ws, steps, i, j, ws[i].owner[id]);
    }
  }

  /** Once a command's events are finished, they contain whatever memory showed before. */
  lemma UpcomingIsSaved(maxRecords: nat, ws: seq<World>, steps: seq<Step>, i: nat, j: nat, id: CommandId)
    requires Run(maxRecords, ws, steps) && i <= j < |ws| && Present(ws, i, j, id) && Owned(ws[i], id)
    ensures Owned(ws[j], id) && ws[j].owner[id] == ws[i].owner[id]
    ensures Terminal(LastState(EventsOf(ws[j], id))) ==> Upcoming(ws[i], id) <= EventsOf(ws[j], id)
  {
    TraceContinues(maxRecords, ws, steps, i, j, id);
    RunInv(maxRecords, ws, steps, i);
    if Ahead(ws[i], id) { LiveIsUntold(ws[i], id); }
  }

  lemma NumberedClimbs(es: seq<Event>)
    requires LegalTrace(es) && EventsNumbered(es)
    ensures Client.ClimbingTrace(es, 1)
  {
    forall k | 0 <= k < |es| ensures Client.RevisionAt(es, 1, k) < es[k].revision { assert es[k].revision == k + 2; }
  }

  lemma StandsOn(es: seq<Event>, more: seq<Event>, c: Client.View)
    requires Client.Stands(es, c, 1, |es|) && es <= more
    ensures Client.Stands(more, c, 1, |es|)
  {
    assert es[..|es|] == more[..|es|];
  }

  lemma FinishedInStep(maxRecords: nat, ws: seq<World>, steps: seq<Step>, j: nat, id: CommandId)
    requires FreshRun(maxRecords, ws, steps, id) && j < |ws| && id in ws[j].tables.commands && Owned(ws[j], id)
    requires Terminal(LastState(EventsOf(ws[j], id)))
    ensures Client.ClimbingTrace(EventsOf(ws[j], id), 1)
    ensures ws[j].tables.commands[id].command.state == LastState(EventsOf(ws[j], id))
  {
    RunCurrent(maxRecords, ws, steps, j, id);
    assert HistoryOk(ws[j].histories[ws[j].owner[id]], ws[j].now);
    assert InStep(ws[j], id) && CommandOk(ws[j], id);
    NumberedClimbs(EventsOf(ws[j], id));
  }

  /** From fetching to the end, in a run without a stale copy: a client that fetches a record whose outcome is not
      unknown, and then receives all events of the command in order, of which the last one sent is terminal, ends in
      that state, which is that of the ledger row. */
  lemma FetchedClientConverges(maxRecords: nat, ws: seq<World>, steps: seq<Step>, i: nat, j: nat, id: CommandId,
                               inputs: seq<Client.Input>)
    requires FreshRun(maxRecords, ws, steps, id) && i <= j < |ws| && Present(ws, i, j, id) && id != ""
    requires Fetched(ws[i], id).value.state != OutcomeUnknown
    requires Owned(ws[j], id) && Terminal(LastState(SentOf(ws[j], id)))
    requires var c := ViewOf(id, Fetched(ws[i], id).value);
      Client.InOrder(inputs, 1, |SentOf(ws[j], id)|) && Client.NeverDue(c, inputs)
    ensures forall x :: x in inputs ==> Client.Deliverable(SentOf(ws[j], id), x)
    ensures var c := ViewOf(id, Fetched(ws[i], id).value);
      var view := Client.Fold(SentOf(ws[j], id), c, inputs);
      view.state == LastState(SentOf(ws[j], id)) == ws[j].tables.commands[id].command.state
  {
    RunInv(maxRecords, ws, steps, j);
    SentLegal(ws[j], id);
    var c, es := ViewOf(id, Fetched(ws[i], id).value), EventsOf(ws[j], id);
    FetchedStands(maxRecords, ws, steps, i, id);
    UpcomingIsSaved(maxRecords, ws, steps, i, j, id);
    StandsOn(Upcoming(ws[i], id), es, c);
    FinishedInStep(maxRecords, ws, steps, j, id);
    Client.FullDeliveryConverges(es, c, 1, |Upcoming(ws[i], id)|, inputs);
  }

  // -------------------------------------------------------- never contradicts

  /** The trace that the client's record and what `w` has sent are part of: the transitions saved or, while the one that
      the record of `u` already shows is not among them, because it is yet to be saved or a crash came before, with
      it. */
  function TraceOf(u: World, w: World, id: CommandId): seq<Event>
    requires Owned(u, id) && Owned(w, id) && Fetched(u, id).Some?
  {
    if PositionOf(Fetched(u, id).value) <= |EventsOf(w, id)| then EventsOf(w, id) else Upcoming(u, id)
  }

  lemma StaysAt(es: seq<Event>, more: seq<Event>, c: Client.View, k: nat)
    requires Client.At(es, c, k) && k <= |more| && (es <= more || more <= es)
    ensures Client.At(more, c, k)
  {
    assert es[..k] == more[..k];
  }

  /** In every run, stale copies included: a client that fetches a record whose outcome is not unknown, and then folds
      any selection of what has been sent of the command in any order, is at TIMEOUT or at a position of the trace at or
      after the one it fetched. */
  lemma FetchedNeverContradicted(maxRecords: nat, ws: seq<World>, steps: seq<Step>, i: nat, j: nat, id: CommandId,
                                 inputs: seq<Client.Input>) returns (p: nat)
    requires Run(maxRecords, ws, steps) && i <= j < |ws| && Present(ws, i, j, id) && id != ""
    requires Owned(ws[i], id) && Owned(ws[j], id) && Fetched(ws[i], id).value.state != OutcomeUnknown
    requires Client.Observes(SentOf(ws[j], id), ViewOf(id, Fetched(ws[i], id).value), inputs)
    ensures SentOf(ws[j], id) <= TraceOf(ws[i], ws[j], id) && LegalTrace(TraceOf(ws[i], ws[j], id))
    ensures forall x :: x in inputs ==> Client.Deliverable(TraceOf(ws[i], ws[j], id), x)
    ensures var c, es := Fetched(ws[i], id).value, TraceOf(ws[i], ws[j], id);
      PositionOf(c) <= p <= |es| && Client.At(es, Client.Fold(es, ViewOf(id, c), inputs), p)
  {
    FetchedIsPlaced(maxRecords, ws, steps, i, id);
    TraceContinues(maxRecords, ws, steps, i, j, id);
    RunInv(maxRecords, ws, steps, i);
    RunInv(maxRecords, ws, steps, j);
    UpcomingLegal(ws[i], id);
    assert HistoryOk(ws[j].histories[ws[j].owner[id]], ws[j].now);
    var es, c := TraceOf(ws[i], ws[j], id), ViewOf(id, Fetched(ws[i], id).value);
    StaysAt(Upcoming(ws[i], id), es, c, PositionOf(Fetched(ws[i], id).value));
    p := Client.SelectionNeverContradicts(es, c, PositionOf(Fetched(ws[i], id).value), inputs);
  }
}
