/** Saving a transition and sending its event are two sections. What clients are sent is what has been saved, except
    perhaps for the last transition: it is about to be sent, or a crash came before it was. */
module ProtocolSending {
  import opened Basics
  import opened CommandTypes
  import opened CommandLedger
  import opened CommandProtocol
  import opened ProtocolSafety
  import opened ProtocolTheorems
  import opened ProtocolOutcomes
  import opened ProtocolPositions
  import opened ProtocolFinality

  predicate Unsent(w: World, admission: nat) {
    admission in w.pending || admission in w.lost
  }

  /** The events that clients have been sent of an admission. */
  function Sent(w: World, admission: nat): (es: seq<Event>)
    requires admission < |w.histories|
    ensures es <= w.histories[admission].events
  {
    var es := w.histories[admission].events;
    if Unsent(w, admission) && es != [] then es[..|es| - 1] else es
  }

  function SentOf(w: World, id: CommandId): seq<Event>
    requires Owned(w, id)
  {
    Sent(w, w.owner[id])
  }

  /** The thread has just saved a transition. */
  predicate JustSaved(stage: Stage) {
    stage.Deciding? || stage.Starting? || stage.Ready? || stage.Handover?
  }

  /** What is pending is the last transition of a running service; its thread, if it goes on, waits for it. What is lost
      has no thread any more. */
  ghost predicate SendingOk(w: World) {
    && (forall a :: a in w.pending ==> w.running && a < |w.histories| && w.histories[a].events != [] && a !in w.lost)
    && (forall a :: a in w.lost ==> a < |w.histories| && w.histories[a].events != [] && Idle(w, a))
    && (forall id :: id in w.tasks && id in w.owner && w.owner[id] in w.pending ==> JustSaved(w.tasks[id]))
  }

  // ----------------------------------------------------------- preservation

  /** No transition is saved or announced, and a thread that waits for its event keeps its stage. */
  ghost predicate SendsNothing(w: World, v: World) {
    && v.pending == w.pending && v.lost == w.lost
    && (forall id :: id in v.tasks && id in v.owner && v.owner[id] in w.pending ==>
          id in w.tasks && id in w.owner && v.owner[id] == w.owner[id] && v.tasks[id] == w.tasks[id])
  }

  lemma MoveSendsNothing(w: World, v: World, x: CommandId)
    requires Inv(w) && x in w.tasks && Owned(w, x) && w.owner[x] !in w.pending && v.owner == w.owner
    requires v.pending == w.pending && v.lost == w.lost
    requires forall id :: id in v.tasks && id != x ==> id in w.tasks && v.tasks[id] == w.tasks[id]
    ensures SendsNothing(w, v)
  {
  }

  lemma NotWaiting(w: World, x: CommandId)
    requires Inv(w) && SendingOk(w) && x in w.tasks && !JustSaved(w.tasks[x])
    ensures Owned(w, x) && w.owner[x] !in w.pending && w.owner[x] !in w.lost
  {
    LiveRecord(w, x);
  }

  lemma WorkerSendsNothing(maxRecords: nat, w: World, s: Step)
    requires Inv(w) && SendingOk(w) && Enabled(maxRecords, w, s)
    requires s.Submit? || s.Take? || s.Decide? || s.Start? || s.Settle? || s.SubmitFeedback? || s.GiveUp?
    ensures SendsNothing(w, Apply(maxRecords, w, s))
  {
    if s.Settle? { NotWaiting(w, s.id); }
    MoveSendsNothing(w, Apply(maxRecords, w, s), s.id);
  }

  lemma AdapterSendsNothing(maxRecords: nat, w: World, s: Step)
    requires Inv(w) && SendingOk(w) && Enabled(maxRecords, w, s)
    requires s.Invoke? || s.Return? || s.Observe? || s.RecordTiming? || s.PersistTiming?
    ensures SendsNothing(w, Apply(maxRecords, w, s))
  {
    if s.RecordTiming? || s.PersistTiming? { NotWaiting(w, s.id); }
    MoveSendsNothing(w, Apply(maxRecords, w, s), s.id);
  }

  lemma QuietSendsNothing(maxRecords: nat, w: World, s: Step)
    requires Enabled(maxRecords, w, s)
    requires s.Tick? || s.PruneCache? || s.Load? || s.Recover? || s.Resume? || s.BeginReview? || s.AppendReview?
      || s.RecordEvidence? || s.PersistEvidence?
    ensures SendsNothing(w, Apply(maxRecords, w, s))
  {
    var v := Apply(maxRecords, w, s);
    assert v.tasks == w.tasks && v.owner == w.owner;
  }

  lemma AcceptSendsNothing(w: World, added: CommandId, row: Row, t: Tables, key: Option<IdempotencyKey>,
                           dedupUntil: int)
    requires SendingOk(w)
    ensures SendsNothing(w, Accept(w, added, row, t, key, dedupUntil))
  {
  }

  lemma AdmissionSendsNothing(maxRecords: nat, w: World, s: Step)
    requires SendingOk(w) && Enabled(maxRecords, w, s) && (s.Admit? || s.AdmitLegacy?)
    ensures SendsNothing(w, Apply(maxRecords, w, s))
  {
    if s.AdmitLegacy? {
      var c := InitialCommand(s.deviceId, s.action, w.now, s.ttl);
      var t := InsertSpec(w.tables, s.id, s.fingerprint, c, s.victims);
      AcceptSendsNothing(w, s.id, Row(s.fingerprint, c), t, None, 0);
    } else if Inserts(maxRecords, w, s) {
      InsertsInto(maxRecords, w, s);
      var row := Row(s.fingerprint, InitialCommand(s.deviceId, s.action, w.now, s.ttl));
      AcceptSendsNothing(w, s.id, row, Transaction(maxRecords, w, s).0, Some(s.key), s.dedupUntil);
    } else {
      RepliesOnly(maxRecords, w, s);
    }
  }

  lemma OthersSendNothing(maxRecords: nat, w: World, s: Step)
    requires Inv(w) && SendingOk(w) && Enabled(maxRecords, w, s) && !s.Persist? && !s.Announce? && !s.Crash?
    ensures SendsNothing(w, Apply(maxRecords, w, s))
  {
    if s.Admit? || s.AdmitLegacy? {
      AdmissionSendsNothing(maxRecords, w, s);
    } else if s.Submit? || s.Take? || s.Decide? || s.Start? || s.Settle? || s.SubmitFeedback? || s.GiveUp? {
      WorkerSendsNothing(maxRecords, w, s);
    } else if s.Invoke? || s.Return? || s.Observe? || s.RecordTiming? || s.PersistTiming? {
      AdapterSendsNothing(maxRecords, w, s);
    } else {
      QuietSendsNothing(maxRecords, w, s);
    }
  }

  lemma SendsNothingOk(w: World, s: Step, v: World)
    requires SendingOk(w) && SendsNothing(w, v) && Frame(w, v) && Grown(w, s, v) && !s.Persist?
    requires w.running ==> v.running
    ensures SendingOk(v)
  {
  }

  lemma PersistSendingOk(w: World, id: CommandId)
    requires Inv(w) && SendingOk(w) && w.running && id in w.tasks && w.tasks[id].Saving? && Owned(w, id)
    requires id in w.tables.commands
    ensures SendingOk(PersistSection(w, id))
  {
    NotWaiting(w, id);
    assert CommandOk(w, id);
    var v := PersistSection(w, id);
    forall a | a in v.lost ensures Idle(v, a) { assert Idle(w, a); }
  }

  lemma StepSendingOk(maxRecords: nat, w: World, s: Step)
    requires Inv(w) && SendingOk(w) && Enabled(maxRecords, w, s)
    ensures SendingOk(Apply(maxRecords, w, s))
  {
    if s.Persist? {
      PersistSendingOk(w, s.id);
    } else if !s.Announce? && !s.Crash? {
      OthersSendNothing(maxRecords, w, s);
      StepFrame(maxRecords, w, s);
      StepGrows(maxRecords, w, s);
      if w.running { RunsOnUnlessCrash(maxRecords, w, s); }
      SendsNothingOk(w, s, Apply(maxRecords, w, s));
    }
  }

  ghost predicate SendingChain(ws: seq<World>) {
    forall k :: 0 <= k < |ws| - 1 ==> (SendingOk(ws[k]) ==> SendingOk(ws[k + 1]))
  }

  lemma RunKeepsSending(maxRecords: nat, ws: seq<World>, steps: seq<Step>)
    requires Run(maxRecords, ws, steps)
    ensures SendingChain(ws)
  {
    forall k | 0 <= k < |ws| - 1 && SendingOk(ws[k]) ensures SendingOk(ws[k + 1]) {
      RunInv(maxRecords, ws, steps, k);
      StepSendingOk(maxRecords, ws[k], steps[k]);
    }
  }

  lemma {:induction false} SendingAlong(ws: seq<World>, i: nat)
    requires SendingChain(ws) && i < |ws| && SendingOk(ws[0])
    ensures SendingOk(ws[i])
  {
    if i > 0 {
      SendingAlong(ws, i - 1);
      assert SendingOk(ws[i - 1 + 1]);
    }
  }

  lemma RunSendingOk(maxRecords: nat, ws: seq<World>, steps: seq<Step>, i: nat)
    requires Run(maxRecords, ws, steps) && i < |ws|
    ensures SendingOk(ws[i])
  {
    RunKeepsSending(maxRecords, ws, steps);
    SendingAlong(ws, i);
  }

  // ------------------------------------------------------------ what is sent

  lemma PersistSends(w: World, id: CommandId, a: nat)
    requires Inv(w) && SendingOk(w) && w.running && id in w.tasks && w.tasks[id].Saving? && Owned(w, id)
    requires id in w.tables.commands && a < |w.histories|
    ensures Sent(PersistSection(w, id), a) == Sent(w, a)
  {
    NotWaiting(w, id);
  }

  /** A step sends nothing or, if it is an announcement, the one event that was saved and not sent. */
  lemma StepSends(maxRecords: nat, w: World, s: Step, a: nat)
    requires Inv(w) && SendingOk(w) && Enabled(maxRecords, w, s) && a < |w.histories|
    ensures var v := Apply(maxRecords, w, s);
      && a < |v.histories|
      && (s != Announce(a) ==> Sent(v, a) == Sent(w, a))
      && (s == Announce(a) ==> Sent(w, a) < Sent(v, a) == v.histories[a].events)
  {
    if s.Persist? {
      PersistSends(w, s.id, a);
    } else if !s.Announce? && !s.Crash? {
      OthersSendNothing(maxRecords, w, s);
      StepGrows(maxRecords, w, s);
    }
  }

  /** In every reachable state clients have been sent what is saved of an admission, or all but its last transition;
      and that one is the next thing to be sent by its live thread, or was lost in a crash. */
  lemma AllButTheLastIsSent(maxRecords: nat, ws: seq<World>, steps: seq<Step>, i: nat, a: nat)
    requires Run(maxRecords, ws, steps) && i < |ws| && a < |ws[i].histories|
    ensures var w, es := ws[i], ws[i].histories[a].events;
      && (Sent(w, a) == es <==> !Unsent(w, a))
      && (Unsent(w, a) ==> es != [] && Sent(w, a) == es[..|es| - 1])
      && (a in w.pending ==> a !in w.lost && Enabled(maxRecords, w, Announce(a)))
      && (a in w.lost ==> Idle(w, a))
  {
    RunSendingOk(maxRecords, ws, steps, i);
  }

  lemma LostStays(maxRecords: nat, w: World, s: Step, a: nat)
    requires Inv(w) && SendingOk(w) && Enabled(maxRecords, w, s) && a in w.lost
    ensures a in Apply(maxRecords, w, s).lost
  {
    if !s.Persist? && !s.Announce? && !s.Crash? { OthersSendNothing(maxRecords, w, s); }
  }

  /** What is lost of an admission stays lost, and nothing more of it is sent. */
  ghost predicate LostKept(w: World, v: World, a: nat) {
    a < |w.histories| && a in w.lost ==> a < |v.histories| && a in v.lost && Sent(v, a) == Sent(w, a)
  }

  ghost predicate LostChain(ws: seq<World>, a: nat) {
    forall k :: 0 <= k < |ws| - 1 ==> LostKept(ws[k], ws[k + 1], a)
  }

  lemma RunKeepsLost(maxRecords: nat, ws: seq<World>, steps: seq<Step>, a: nat)
    requires Run(maxRecords, ws, steps)
    ensures LostChain(ws, a)
  {
    forall k | 0 <= k < |ws| - 1 ensures LostKept(ws[k], ws[k + 1], a) {
      if a < |ws[k].histories| && a in ws[k].lost {
        RunSendingOk(maxRecords, ws, steps, k);
        RunInv(maxRecords, ws, steps, k);
        StepSends(maxRecords, ws[k], steps[k], a);
        LostStays(maxRecords, ws[k], steps[k], a);
      }
    }
  }

  lemma {:induction false} LostAlong(ws: seq<World>, i: nat, j: nat, a: nat)
    requires LostChain(ws, a) && i <= j < |ws| && a < |ws[i].histories| && a in ws[i].lost
    ensures a < |ws[j].histories| && a in ws[j].lost && Sent(ws[j], a) == Sent(ws[i], a)
    decreases j
  {
    if i < j {
      LostAlong(ws, i, j - 1, a);
      assert LostKept(ws[j - 1], ws[j - 1 + 1], a);
    }
  }

  /** An event lost in a crash is never sent, however the run goes on. */
  lemma LostForGood(maxRecords: nat, ws: seq<World>, steps: seq<Step>, i: nat, j: nat, a: nat)
    requires Run(maxRecords, ws, steps) && i <= j < |ws| && a in ws[i].lost
    ensures a < |ws[i].histories| && a < |ws[j].histories| && a in ws[j].lost && Sent(ws[j], a) == Sent(ws[i], a)
  {
    RunSendingOk(maxRecords, ws, steps, i);
    RunKeepsLost(maxRecords, ws, steps, a);
    LostAlong(ws, i, j, a);
  }

  // ------------------------------------------------- what the clients can know

  lemma PrefixLegal(es: seq<Event>, n: nat)
    requires LegalTrace(es) && n <= |es|
    ensures LegalTrace(es[..n]) && (n < |es| ==> !Terminal(LastState(es[..n])))
  {
    forall i | 0 <= i < n ensures es[..n][i].seqNo == i + 1 && Edge(LastState(es[..n][..i]), es[..n][i].state) {
      assert es[..n][..i] == es[..i];
    }
    if n < |es| { assert Edge(LastState(es[..n]), es[n].state); }
  }

  lemma SentLegal(w: World, id: CommandId)
    requires Inv(w) && Owned(w, id)
    ensures LegalTrace(SentOf(w, id)) && (Terminal(LastState(SentOf(w, id))) ==> SentOf(w, id) == EventsOf(w, id))
  {
    assert HistoryOk(w.histories[w.owner[id]], w.now);
    var es, n := EventsOf(w, id), |SentOf(w, id)|;
    assert SentOf(w, id) == es[..n];
    PrefixLegal(es, n);
  }

  /** In every run what clients have been sent of a command is a legal trace. Once it ends in a certain outcome, the
      ledger row, while it exists, shows the same; and also an unknown one, if no stale evidence has been saved. */
  lemma SentTellsTheLedger(maxRecords: nat, ws: seq<World>, steps: seq<Step>, i: nat, id: CommandId)
    requires Run(maxRecords, ws, steps) && i < |ws| && id in ws[i].tables.commands
    ensures Owned(ws[i], id)
    ensures var told := LastState(SentOf(ws[i], id));
      && LegalTrace(SentOf(ws[i], id))
      && (Prunable(told) || (told == OutcomeUnknown && Undisturbed(ws, steps, 0, i, id)) ==>
            ws[i].tables.commands[id].command.state == told)
  {
    EventsTellTheLedger(maxRecords, ws, steps, i, id);
    RunInv(maxRecords, ws, steps, i);
    SentLegal(ws[i], id);
  }

  lemma PlacedLast(es: seq<Event>, c: Command)
    requires LegalTrace(es) && PlacedOn(es, c) && Prunable(c.state)
    ensures LastState(es) == c.state
  {
    var k := c.lastEventSeq.value;
    if k < |es| { PrefixLegal(es, k); }
  }

  /** The other direction, exactly: in every run a certain outcome that the ledger shows has been told to clients if and
      only if its event is not pending and was not lost. */
  lemma CertainRowToldExactly(maxRecords: nat, ws: seq<World>, steps: seq<Step>, i: nat, id: CommandId)
    requires Run(maxRecords, ws, steps) && i < |ws| && id in ws[i].tables.commands
    requires Prunable(ws[i].tables.commands[id].command.state)
    ensures Owned(ws[i], id)
    ensures LastState(SentOf(ws[i], id)) == ws[i].tables.commands[id].command.state <==>
      !Unsent(ws[i], ws[i].owner[id])
  {
    var w := ws[i];
    RunInv(maxRecords, ws, steps, i);
    assert CommandOk(w, id) && HistoryOk(w.histories[w.owner[id]], w.now);
    RunPlaced(maxRecords, ws, steps, i, id);
    PlacedLast(EventsOf(w, id), w.tables.commands[id].command);
    AllButTheLastIsSent(maxRecords, ws, steps, i, w.owner[id]);
    SentLegal(w, id);
  }
}
