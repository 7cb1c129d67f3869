/** When full delivery in order brings a client to the end of a command: exactly, for any revisions and any timeouts of
    the client's own in between. */
module ClientDelivery {
  import opened Basics
  import opened CommandTypes
  import opened ClientView
  import Safety = ProtocolSafety
  import Protocol = CommandProtocol
  import Sending = ProtocolSending

  /** The `k`-th event announces a greater revision than the client's first record and the first `n` events. */
  predicate Above(es: seq<Event>, first: int, k: nat, n: nat)
    requires k < |es| && n <= |es|
  {
    first < es[k].revision && forall j :: 0 <= j < n ==> es[j].revision < es[k].revision
  }

  /** The revisions let the last event through. A client that never shows ACCEPTED never shows EXECUTING or APPLIED
      either, so the revisions of those two do not stand in the way of another end, and CONFIRMED cannot be reached. */
  predicate EndLetThrough(es: seq<Event>, first: int)
    requires es != []
  {
    var last := |es| - 1;
    if es[last].state == Confirmed then
      last == 4 && Above(es, first, 1, 1) && Above(es, first, 3, 3) && Above(es, first, 4, 4)
    else if last <= 2 || Above(es, first, 1, 1) then Above(es, first, last, last)
    else Above(es, first, last, 2)
  }

  /** The client does not refuse event `k` for its state. From TIMEOUT it takes any; otherwise EXECUTING or APPLIED only
      if it shows ACCEPTED, or an EXECUTING that it took from TIMEOUT. `late` says at which events it is in TIMEOUT. */
  predicate Hears(es: seq<Event>, first: int, late: seq<bool>, k: nat)
    requires k < |es| == |late|
  {
    k < 2 || late[k] || Above(es, first, 1, 1) || (k == 3 && late[2] && Above(es, first, 2, 2))
  }

  /** Event `k` announces a greater revision than the client's first record and all earlier events that it hears. */
  predicate AboveHeard(es: seq<Event>, first: int, late: seq<bool>, k: nat)
    requires k < |es| == |late|
  {
    first < es[k].revision && forall j :: 0 <= j < k && Hears(es, first, late, j) ==> es[j].revision < es[k].revision
  }

  /** The revisions let the last event through: it is above all that the client hears, and a CONFIRMED finds the client
      in TIMEOUT or at an APPLIED that came through. */
  predicate EndHeard(es: seq<Event>, first: int, late: seq<bool>)
    requires es != [] && |es| == |late|
  {
    var last := |es| - 1;
    && AboveHeard(es, first, late, last)
    && (es[last].state == Confirmed ==>
          late[last] || (last == 4 && Hears(es, first, late, 3) && AboveHeard(es, first, late, 3)))
  }

  function Prompt(es: seq<Event>): seq<bool> {
    seq(|es|, _ => false)
  }

  /** The client at position `p` takes event `n`. */
  predicate Takes(es: seq<Event>, first: int, late: seq<bool>, p: nat, n: nat)
    requires p <= n < |es| == |late|
  {
    RevisionAt(es, first, p) < es[n].revision && (late[n] || Allowed(StateAt(es, p), es[n].state))
  }

  /** The position that a client shows, or has timed out at, after the first `n` events in order. */
  function Shown(es: seq<Event>, first: int, late: seq<bool>, n: nat): (p: nat)
    requires n <= |es| == |late|
    ensures p <= n
  {
    if n == 0 then 0
    else
      var p := Shown(es, first, late, n - 1);
      if Takes(es, first, late, p, n - 1) then n else p
  }

  /** An event that is later by its number, for an unfinished view, is taken exactly when its revision is greater and
      the transition is allowed. */
  lemma LaterTakenExactly(d: View, e: Message)
    requires e.commandId == d.id != "" && e.timestamp >= 0 && e.seqNo.Some? && e.seqNo.value >= 0
    requires d.lastEventSeq.Some? ==> d.lastEventSeq.value < e.seqNo.value
    requires d.revision.Some? && d.revision.value >= 1 && e.revision.Some? && d.state != e.state && !Terminal(d.state)
    ensures ApplyCommandEvent(d, e).command ==
      if d.revision.value < e.revision.value && Allowed(d.state, e.state) then Taken(d, e) else d
  {
  }

  lemma TakenStands(es: seq<Event>, d: View, first: int, n: nat, timestamp: nat)
    requires Safety.LegalTrace(es) && n < |es| && d.id != ""
    ensures var next := Taken(d, Carry(d.id, es[n], timestamp));
      Stands(es, next, first, n + 1) && next.state == StateAt(es, n + 1)
  {
    TraceEdge(es, n + 1);
  }

  lemma DeliveryStands(es: seq<Event>, d: View, first: int, late: seq<bool>, p: nat, n: nat, timestamp: nat)
    requires Safety.LegalTrace(es) && p <= n < |es| == |late| && Stands(es, d, first, p)
    requires RevisionAt(es, first, p) >= 1 && late[n] == (d.state == TimedOut)
    ensures Consume(es, d, Deliver(n + 1, timestamp)) ==
      if Takes(es, first, late, p, n) then Taken(d, Carry(d.id, es[n], timestamp)) else d
  {
    TraceEdge(es, n + 1);
    TraceClimbs(es, p, n + 1);
    LaterTakenExactly(d, Carry(d.id, es[n], timestamp));
  }

  lemma ShownPositive(es: seq<Event>, first: int, late: seq<bool>, n: nat)
    requires n <= |es| == |late| && first >= 1
    ensures RevisionAt(es, first, Shown(es, first, late, n)) >= 1
  {
  }

  lemma NotLate(es: seq<Event>, p: nat)
    requires Safety.LegalTrace(es) && p <= |es|
    ensures StateAt(es, p) != TimedOut
  {
    if p > 0 { TraceEdge(es, p); }
  }

  /** One more event in order brings the client to what it shows of one more. */
  lemma OneMoreShown(es: seq<Event>, d: View, first: int, late: seq<bool>, n: nat, timestamp: nat)
    requires Safety.LegalTrace(es) && n < |es| == |late| && first >= 1 && late[n] == (d.state == TimedOut)
    requires Stands(es, d, first, Shown(es, first, late, n))
    ensures var next, p := Consume(es, d, Deliver(n + 1, timestamp)), Shown(es, first, late, n + 1);
      Stands(es, next, first, p) && (!late[n] ==> next.state == StateAt(es, p))
  {
    ShownPositive(es, first, late, n);
    DeliveryStands(es, d, first, late, Shown(es, first, late, n), n, timestamp);
    TakenStands(es, d, first, n, timestamp);
  }

  lemma {:induction false} FollowingStands(es: seq<Event>, c: View, first: int, timestamps: seq<nat>, n: nat)
    requires Safety.LegalTrace(es) && n <= |es| == |timestamps| && Stands(es, c, first, 0) && c.state == Issued
    requires first >= 1
    ensures var p, d := Shown(es, first, Prompt(es), n), Following(es, c, timestamps, n);
      Stands(es, d, first, p) && d.state == StateAt(es, p)
    decreases n
  {
    if n > 0 {
      FollowingStands(es, c, first, timestamps, n - 1);
      NotLate(es, Shown(es, first, Prompt(es), n - 1));
      OneMoreShown(es, Following(es, c, timestamps, n - 1), first, Prompt(es), n - 1, timestamps[n - 1]);
    }
  }

  /** The client is in TIMEOUT when the `k`-th event, counting from 1, arrives. */
  predicate LateBefore(es: seq<Event>, c: View, inputs: seq<Input>, k: nat)
    requires forall i :: i in inputs ==> Deliverable(es, i)
    decreases |inputs|
  {
    inputs != [] &&
    if inputs[0].Deliver? && inputs[0].k == k then c.state == TimedOut
    else LateBefore(es, Consume(es, c, inputs[0]), inputs[1..], k)
  }

  /** At which events, counting from 0, the client is in TIMEOUT. */
  function Lateness(es: seq<Event>, c: View, inputs: seq<Input>): seq<bool>
    requires forall i :: i in inputs ==> Deliverable(es, i)
  {
    seq(|es|, k requires 0 <= k < |es| => LateBefore(es, c, inputs, k + 1))
  }

  /** `late` is right about all events from `n` on. */
  predicate LateFrom(es: seq<Event>, c: View, inputs: seq<Input>, late: seq<bool>, n: nat)
    requires |es| == |late| && forall i :: i in inputs ==> Deliverable(es, i)
  {
    forall k :: n <= k < |es| ==> late[k] == LateBefore(es, c, inputs, k + 1)
  }

  lemma LateOn(es: seq<Event>, c: View, inputs: seq<Input>, late: seq<bool>, n: nat)
    requires |es| == |late| && (forall i :: i in inputs ==> Deliverable(es, i)) && inputs != []
    requires LateFrom(es, c, inputs, late, n) && (inputs[0].Deliver? ==> inputs[0].k == n + 1 <= |es|)
    ensures var m := if inputs[0].Deliver? then n + 1 else n;
      LateFrom(es, Consume(es, c, inputs[0]), inputs[1..], late, m)
    ensures inputs[0].Deliver? ==> late[n] == (c.state == TimedOut)
  {
    var m := if inputs[0].Deliver? then n + 1 else n;
    forall k | m <= k < |es| ensures late[k] == LateBefore(es, Consume(es, c, inputs[0]), inputs[1..], k + 1) {
      assert late[k] == LateBefore(es, c, inputs, k + 1);
    }
    if inputs[0].Deliver? { assert late[n] == LateBefore(es, c, inputs, n + 1); }
  }

  lemma InputStands(es: seq<Event>, c: View, first: int, late: seq<bool>, n: nat, input: Input)
    requires Safety.LegalTrace(es) && n <= |es| == |late| && first >= 1 && Deliverable(es, input) && !Due(c, input)
    requires Stands(es, c, first, Shown(es, first, late, n))
    requires input.Deliver? ==> input.k == n + 1 <= |es| && late[n] == (c.state == TimedOut)
    ensures var m := if input.Deliver? then n + 1 else n;
      m <= |es| && Stands(es, Consume(es, c, input), first, Shown(es, first, late, m))
  {
    if input.Deliver? {
      OneMoreShown(es, c, first, late, n, input.timestamp);
    } else {
      InputAdvances(es, c, Shown(es, first, late, n), input);
    }
  }

  /** The client stands where `n` events in order have brought it, and the rest is still to come. */
  predicate Tracks(es: seq<Event>, c: View, first: int, late: seq<bool>, n: nat, inputs: seq<Input>) {
    && n <= |es| == |late| && first >= 1 && Stands(es, c, first, Shown(es, first, late, n))
    && InOrder(inputs, n + 1, |es|) && Observes(es, c, inputs) && LateFrom(es, c, inputs, late, n)
  }

  lemma TracksOn(es: seq<Event>, c: View, first: int, late: seq<bool>, n: nat, inputs: seq<Input>)
    requires Safety.LegalTrace(es) && Tracks(es, c, first, late, n, inputs) && inputs != []
    ensures Deliverable(es, inputs[0])
    ensures Tracks(es, Consume(es, c, inputs[0]), first, late, if inputs[0].Deliver? then n + 1 else n, inputs[1..])
  {
    ObservesOn(es, c, inputs);
    LateOn(es, c, inputs, late, n);
    InputStands(es, c, first, late, n, inputs[0]);
  }

  lemma {:induction false} FoldStands(es: seq<Event>, c: View, first: int, late: seq<bool>, n: nat, inputs: seq<Input>)
    requires Safety.LegalTrace(es) && Tracks(es, c, first, late, n, inputs)
    ensures Stands(es, Fold(es, c, inputs), first, Shown(es, first, late, |es|))
    decreases |inputs|
  {
    if inputs != [] {
      TracksOn(es, c, first, late, n, inputs);
      var d, m := Consume(es, c, inputs[0]), if inputs[0].Deliver? then n + 1 else n;
      FoldStands(es, d, first, late, m, inputs[1..]);
      assert Fold(es, c, inputs) == Fold(es, d, inputs[1..]);
    }
  }

  /** A finished trace has one to five events, and all but the last are those of a command that goes well. */
  lemma FinishedTrace(es: seq<Event>)
    requires Safety.LegalTrace(es) && Terminal(Safety.LastState(es))
    ensures 1 <= |es| <= 5 && (Safety.LastState(es) == Confirmed ==> |es| == 5)
    ensures (|es| > 1 ==> es[0].state == Received) && (|es| > 2 ==> es[1].state == Accepted)
    ensures (|es| > 3 ==> es[2].state == Executing) && (|es| > 4 ==> es[3].state == Applied)
    ensures |es| > 2 ==> Safety.LastState(es) != Rejected
  {
    assert es[..|es|] == es;
    TraceClimbs(es, 0, |es|);
    if |es| > 1 { TraceEdge(es, 1); TraceClimbs(es, 1, |es|); }
    if |es| > 2 { TraceEdge(es, 2); TraceClimbs(es, 2, |es|); }
    if |es| > 3 { TraceEdge(es, 3); TraceClimbs(es, 3, |es|); }
    if |es| > 4 { TraceEdge(es, 4); TraceClimbs(es, 4, |es|); }
    if |es| > 5 { TraceEdge(es, 5); TraceClimbs(es, 5, |es|); }
    TraceEdge(es, |es|);
  }

  /** The greatest of the client's first revision and those that it hears of the first `n` events. */
  function HeardPeak(es: seq<Event>, first: int, late: seq<bool>, n: nat): (r: int)
    requires n <= |es| == |late|
    ensures first <= r && forall j :: 0 <= j < n && Hears(es, first, late, j) ==> es[j].revision <= r
    ensures r == first || exists j :: 0 <= j < n && Hears(es, first, late, j) && r == es[j].revision
  {
    if n == 0 then first
    else if Hears(es, first, late, n - 1) then Max(HeardPeak(es, first, late, n - 1), es[n - 1].revision)
    else HeardPeak(es, first, late, n - 1)
  }

  lemma AbovePeak(es: seq<Event>, first: int, late: seq<bool>, k: nat)
    requires k < |es| == |late|
    ensures AboveHeard(es, first, late, k) <==> HeardPeak(es, first, late, k) < es[k].revision
  {
  }

  /** The first two events are never refused for the client's state, so after them it holds the greatest revision so
      far, and shows ACCEPTED exactly when its revision is new. */
  lemma ShownTwo(es: seq<Event>, first: int, late: seq<bool>)
    requires Safety.LegalTrace(es) && Terminal(Safety.LastState(es)) && |late| == |es| >= 3
    ensures var p := Shown(es, first, late, 2);
      (p == 2 <==> Above(es, first, 1, 1)) && RevisionAt(es, first, p) == HeardPeak(es, first, late, 2)
  {
    FinishedTrace(es);
    TraceEdge(es, 1);
    assert es[..0] == [];
    assert Shown(es, first, late, 1) == if first < es[0].revision then 1 else 0;
    assert HeardPeak(es, first, late, 1) == RevisionAt(es, first, Shown(es, first, late, 1));
    assert StateAt(es, Shown(es, first, late, 1)) in {Issued, Received};
  }

  lemma PeakTwo(es: seq<Event>, first: int, late: seq<bool>)
    requires |late| == |es| >= 3
    ensures Above(es, first, 2, 2) <==> HeardPeak(es, first, late, 2) < es[2].revision
  {
    AbovePeak(es, first, late, 2);
  }

  /** From the third event on the client takes what it hears and is above all it has heard. */
  lemma ShownThree(es: seq<Event>, first: int, late: seq<bool>)
    requires Safety.LegalTrace(es) && Terminal(Safety.LastState(es)) && |late| == |es| >= 4
    ensures var p := Shown(es, first, late, 3);
      && RevisionAt(es, first, p) == HeardPeak(es, first, late, 3)
      && (p >= 2 <==> Above(es, first, 1, 1) || (late[2] && Above(es, first, 2, 2)))
  {
    FinishedTrace(es);
    ShownTwo(es, first, late);
    PeakTwo(es, first, late);
    var p := Shown(es, first, late, 2);
    NotLate(es, p);
    if p > 0 { TraceEdge(es, p); }
  }

  lemma ShownFour(es: seq<Event>, first: int, late: seq<bool>)
    requires Safety.LegalTrace(es) && Terminal(Safety.LastState(es)) && |late| == |es| == 5
    ensures var p := Shown(es, first, late, 4);
      && RevisionAt(es, first, p) == HeardPeak(es, first, late, 4)
      && (p == 4 <==> Hears(es, first, late, 3) && AboveHeard(es, first, late, 3))
  {
    FinishedTrace(es);
    ShownThree(es, first, late);
    AbovePeak(es, first, late, 3);
    var p := Shown(es, first, late, 3);
    if p > 0 { TraceEdge(es, p); }
  }

  lemma HeldAtEnd(es: seq<Event>, first: int, late: seq<bool>)
    requires Safety.LegalTrace(es) && Terminal(Safety.LastState(es)) && |late| == |es|
    ensures var n := |es| - 1; RevisionAt(es, first, Shown(es, first, late, n)) == HeardPeak(es, first, late, n)
  {
    FinishedTrace(es);
    if |es| == 2 {
      assert es[..0] == [];
      assert Shown(es, first, late, 1) == if first < es[0].revision then 1 else 0;
      assert HeardPeak(es, first, late, 1) == Max(HeardPeak(es, first, late, 0), es[0].revision);
    } else if |es| == 3 {
      ShownTwo(es, first, late);
    } else if |es| == 4 {
      ShownThree(es, first, late);
    } else if |es| == 5 {
      ShownFour(es, first, late);
    }
  }

  /** Every end except CONFIRMED can follow whatever the client shows before it. */
  lemma EndAllowed(es: seq<Event>, p: nat)
    requires Safety.LegalTrace(es) && Terminal(Safety.LastState(es)) && p < |es|
    ensures Allowed(StateAt(es, p), Safety.LastState(es)) <==> Safety.LastState(es) != Confirmed || p == 4
  {
    FinishedTrace(es);
    assert es[..|es|] == es;
    TraceEdge(es, |es|);
    TraceClimbs(es, p, |es|);
    if p > 0 { TraceEdge(es, p); }
  }

  lemma EndShown(es: seq<Event>, first: int, late: seq<bool>)
    requires Safety.LegalTrace(es) && Terminal(Safety.LastState(es)) && |late| == |es|
    ensures Shown(es, first, late, |es|) == |es| <==> EndHeard(es, first, late)
  {
    FinishedTrace(es);
    HeldAtEnd(es, first, late);
    EndAllowed(es, Shown(es, first, late, |es| - 1));
    AbovePeak(es, first, late, |es| - 1);
    if |es| == 5 { ShownFour(es, first, late); }
  }

  /** Without timeouts the condition is one on the revisions alone. */
  lemma PromptEnd(es: seq<Event>, first: int)
    requires Safety.LegalTrace(es) && Terminal(Safety.LastState(es))
    ensures EndHeard(es, first, Prompt(es)) <==> EndLetThrough(es, first)
  {
    FinishedTrace(es);
  }

  lemma StandsAtEnd(es: seq<Event>, d: View, first: int, p: nat)
    requires Safety.LegalTrace(es) && Terminal(Safety.LastState(es)) && Stands(es, d, first, p)
    ensures d.state == Safety.LastState(es) <==> p == |es|
  {
    assert es[..|es|] == es;
    if p < |es| { TraceClimbs(es, p, |es|); } else { NotLate(es, p); }
  }

  /** A client that sees every event of a finished command in order, from its admission on, and whose clock may give up
      at any time in between, ends in the backend's terminal state if and only if the revisions let the last event
      through. */
  lemma ConvergesExactly(es: seq<Event>, c: View, first: int, inputs: seq<Input>)
    requires Safety.LegalTrace(es) && Terminal(Safety.LastState(es)) && InOrder(inputs, 1, |es|) && NeverDue(c, inputs)
    requires c.id != "" && c.state == Issued && c.revision == Some(first) && c.lastEventSeq == None && first >= 1
    ensures forall i :: i in inputs ==> Deliverable(es, i)
    ensures Fold(es, c, inputs).state == Safety.LastState(es) <==> EndHeard(es, first, Lateness(es, c, inputs))
  {
    DeliverableInOrder(es, inputs, 1);
    assert es[..0] == [];
    var late := Lateness(es, c, inputs);
    FoldStands(es, c, first, late, 0, inputs);
    EndShown(es, first, late);
    StandsAtEnd(es, Fold(es, c, inputs), first, Shown(es, first, late, |es|));
  }

  /** If its clock does not give up in between, that depends on the revisions alone. */
  lemma PromptClientConvergesExactly(es: seq<Event>, c: View, first: int, timestamps: seq<nat>)
    requires Safety.LegalTrace(es) && Terminal(Safety.LastState(es)) && |timestamps| == |es|
    requires c.id != "" && c.state == Issued && c.revision == Some(first) && c.lastEventSeq == None && first >= 1
    ensures Following(es, c, timestamps, |es|).state == Safety.LastState(es) <==> EndLetThrough(es, first)
  {
    assert es[..0] == [];
    FollowingStands(es, c, first, timestamps, |es|);
    EndShown(es, first, Prompt(es));
    PromptEnd(es, first);
    StandsAtEnd(es, Following(es, c, timestamps, |es|), first, Shown(es, first, Prompt(es), |es|));
  }

  /** End to end, in any run: once clients have been sent a certain outcome of a command, one that started with its
      admission and received them all in order agrees with the ledger row, while that exists, if and only if the
      revisions let the last event through. */
  lemma DeliveredClientAgreesExactly(maxRecords: nat, ws: seq<Protocol.World>, steps: seq<Protocol.Step>, i: nat,
                                     id: CommandId, c: View, inputs: seq<Input>)
    requires Protocol.Run(maxRecords, ws, steps) && i < |ws| && id in ws[i].tables.commands && Protocol.Owned(ws[i], id)
    requires var es := Sending.SentOf(ws[i], id);
      Prunable(Safety.LastState(es)) && InOrder(inputs, 1, |es|) && NeverDue(c, inputs)
    requires c.id != "" && c.state == Issued && c.revision == Some(1) && c.lastEventSeq == None
    ensures var es := Sending.SentOf(ws[i], id);
      && (forall x :: x in inputs ==> Deliverable(es, x))
      && (Fold(es, c, inputs).state == ws[i].tables.commands[id].command.state <==>
            EndHeard(es, 1, Lateness(es, c, inputs)))
  {
    Sending.SentTellsTheLedger(maxRecords, ws, steps, i, id);
    ConvergesExactly(Sending.SentOf(ws[i], id), c, 1, inputs);
  }
}
