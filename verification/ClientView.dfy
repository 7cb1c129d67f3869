/** The browser's view of a command: it folds `command.status` messages, and its own clock, into a record. */
module ClientView {
  import opened Basics
  import opened CommandTypes
  import Safety = ProtocolSafety
  import Outcomes = ProtocolOutcomes
  import Sending = ProtocolSending
  import Protocol = CommandProtocol
  import Race = ProtocolRace

  /** A client record; the fields that only travel along are left out. */
  datatype View = View(
    id: CommandId,
    state: CommandState,
    updatedAt: int,
    lastEventSeq: Option<int>,
    revision: Option<int>,
    expiresAt: Option<int>
  )

  datatype Message = Message(commandId: CommandId, state: CommandState, timestamp: int, seqNo: Option<int>,
                             revision: Option<int>)

  datatype Reason = OutOfOrderSeq | OutOfOrderRevision | IllegalTransition | TerminalState | InvalidEvent

  datatype Decision =
    | Take(duplicate: bool, command: View)
    | Refuse(reason: Reason, command: View)

  predicate Allowed(a: CommandState, b: CommandState) {
    match a
    case Issued =>
      b.Received? || b.Accepted? || b.Rejected? || b.Failed? || b.TimedOut? || b.Expired? || b.OutcomeUnknown?
    case Received => b.Accepted? || b.Rejected? || b.Failed? || b.TimedOut? || b.Expired? || b.OutcomeUnknown?
    case Accepted => b.Executing? || b.Applied? || b.Failed? || b.TimedOut? || b.Expired? || b.OutcomeUnknown?
    case Executing => b.Applied? || b.Failed? || b.TimedOut? || b.Expired? || b.OutcomeUnknown?
    case Applied => b.Confirmed? || b.Failed? || b.TimedOut? || b.Expired? || b.OutcomeUnknown?
    case TimedOut => !b.Issued? && !b.TimedOut?
    case _ => false
  }

  predicate ValidMessage(e: Message) {
    && e.commandId != "" && 0 <= e.timestamp
    && (e.seqNo.Some? ==> 0 <= e.seqNo.value)
    && (e.revision.Some? ==> 1 <= e.revision.value)
  }

  /** The record after a message that is neither stale nor a repetition. */
  function Taken(c: View, e: Message): View {
    c.(state := e.state, updatedAt := Max(c.updatedAt, e.timestamp),
       lastEventSeq := Or(e.seqNo, c.lastEventSeq), revision := Or(e.revision, c.revision))
  }

  function ApplyCommandEvent(c: View, e: Message): Decision {
    if !ValidMessage(e) || e.commandId != c.id then Refuse(InvalidEvent, c)
    else if e.revision.Some? && c.revision.Some? && e.revision.value < c.revision.value
    then Refuse(OutOfOrderRevision, c)
    else if e.revision.Some? && e.revision == c.revision then
      if e.state == c.state then Take(true, c) else Refuse(OutOfOrderRevision, c)
    else if e.seqNo.Some? && c.lastEventSeq.Some? && e.seqNo.value < c.lastEventSeq.value then Refuse(OutOfOrderSeq, c)
    else if e.seqNo.Some? && e.seqNo == c.lastEventSeq then
      if e.state == c.state then Take(true, c) else Refuse(OutOfOrderSeq, c)
    else if e.state == c.state && e.seqNo.None? then Take(true, c)
    else if e.state == c.state && (c.lastEventSeq.None? || e.seqNo.value > c.lastEventSeq.value)
    then Take(false, Taken(c, e))
    else if Terminal(c.state) then Refuse(TerminalState, c)
    else if !Allowed(c.state, e.state) then Refuse(IllegalTransition, c)
    else Take(false, Taken(c, e))
  }

  function ExpireCommand(c: View, now: int): View {
    if Terminal(c.state) then c
    else if c.expiresAt.Some? && now >= c.expiresAt.value then c.(state := Expired, updatedAt := Max(c.updatedAt, now))
    else c
  }

  function TimeoutCommand(c: View, now: int, timeoutMs: int): View {
    if Terminal(c.state) || c.state == TimedOut then c
    else if now - c.updatedAt >= timeoutMs then c.(state := TimedOut, updatedAt := Max(c.updatedAt, now))
    else c
  }

  // ------------------------------------------------- what a message decides

  predicate Live(s: CommandState) {
    s.Issued? || s.Received? || s.Accepted? || s.Executing? || s.Applied?
  }

  /** What a client lets happen: each transition that the backend makes; from any unfinished state a failure, an expiry,
      an unknown outcome and its own timeout; two shortcuts for messages it may have missed; and after its own timeout
      anything but a new beginning. */
  lemma AllowsExactly(a: CommandState, b: CommandState)
    ensures Allowed(a, b) <==>
      || Safety.Edge(a, b)
      || (Live(a) && (b.Failed? || b.Expired? || b.OutcomeUnknown? || b.TimedOut?))
      || (a.Issued? && b.Accepted?) || (a.Accepted? && b.Applied?)
      || (a.TimedOut? && !b.Issued? && !b.TimedOut?)
  {
  }

  /** The message is for this command, and its numbers make sense. */
  predicate Addressed(c: View, e: Message) {
    && e.commandId == c.id != "" && e.timestamp >= 0
    && (e.seqNo.None? || e.seqNo.value >= 0) && (e.revision.None? || e.revision.value > 0)
  }

  /** Both know a revision, and that of the message is no later. */
  predicate OldRevision(c: View, e: Message) {
    c.revision.Some? && e.revision.Some? && e.revision.value <= c.revision.value
  }

  /** The revisions do not decide, both know an event number, and that of the message is no later. */
  predicate OldNumber(c: View, e: Message) {
    !OldRevision(c, e) && c.lastEventSeq.Some? && e.seqNo.Some? && e.seqNo.value <= c.lastEventSeq.value
  }

  /** The message repeats what the client knows: its state at the same revision or number, or without any number. */
  predicate Repeats(c: View, e: Message) {
    && e.state == c.state
    && ((c.revision.Some? && e.revision == c.revision)
        || (!OldRevision(c, e) && e.seqNo.Some? && e.seqNo == c.lastEventSeq)
        || (!OldRevision(c, e) && e.seqNo.None?))
  }

  /** What a message does is decided by its age first and by the transition last. It is refused as out of order when
      its revision, or else its number, is not later than the one known, unless it repeats what is known; a later one
      moves the record exactly when it confirms the state or is allowed to change it. */
  lemma DecidesExactly(c: View, e: Message)
    ensures var d := ApplyCommandEvent(c, e);
      var late := OldRevision(c, e) || OldNumber(c, e);
      && (d == Refuse(InvalidEvent, c) <==> !Addressed(c, e))
      && (d == Take(true, c) <==> Addressed(c, e) && Repeats(c, e))
      && (d == Refuse(OutOfOrderRevision, c) <==> Addressed(c, e) && OldRevision(c, e) && !Repeats(c, e))
      && (d == Refuse(OutOfOrderSeq, c) <==> Addressed(c, e) && OldNumber(c, e) && !Repeats(c, e))
      && (d == Refuse(TerminalState, c) <==> Addressed(c, e) && !late && e.state != c.state && Terminal(c.state))
      && (d == Refuse(IllegalTransition, c) <==>
            Addressed(c, e) && !late && e.state != c.state && !Terminal(c.state) && !Allowed(c.state, e.state))
      && (d.Take? && !d.duplicate <==>
            && Addressed(c, e) && !late && !Repeats(c, e)
            && (e.state == c.state || (!Terminal(c.state) && Allowed(c.state, e.state))))
  {
  }

  /** The record after it: in the state announced, with the later of the times, and with the numbers announced. */
  lemma TakenSays(c: View, e: Message)
    requires ApplyCommandEvent(c, e).Take? && !ApplyCommandEvent(c, e).duplicate
    ensures var d := ApplyCommandEvent(c, e).command;
      && d.id == c.id && d.expiresAt == c.expiresAt && d.state == e.state
      && d.updatedAt >= c.updatedAt && d.updatedAt >= e.timestamp
      && (d.updatedAt == c.updatedAt || d.updatedAt == e.timestamp)
      && d.lastEventSeq == (if e.seqNo.Some? then e.seqNo else c.lastEventSeq)
      && d.revision == (if e.revision.Some? then e.revision else c.revision)
      && (c.revision.Some? && e.revision.Some? ==> c.revision.value < d.revision.value)
  {
  }

  /** A client gives up watching exactly when an unfinished command has not moved for `timeoutMs`, and finds it expired
      exactly when one has reached its deadline. */
  lemma ClocksExactly(c: View, now: int, timeoutMs: int)
    requires !Terminal(c.state)
    ensures TimeoutCommand(c, now, timeoutMs).state == TimedOut <==>
      c.state == TimedOut || c.updatedAt + timeoutMs <= now
    ensures TimeoutCommand(c, now, timeoutMs).state != TimedOut ==> TimeoutCommand(c, now, timeoutMs) == c
    ensures ExpireCommand(c, now).state == Expired <==> c.expiresAt.Some? && c.expiresAt.value <= now
    ensures ExpireCommand(c, now).state != Expired ==> ExpireCommand(c, now) == c
    ensures forall d :: d == TimeoutCommand(c, now, timeoutMs) || d == ExpireCommand(c, now) ==>
      (d.id, d.revision, d.lastEventSeq, d.expiresAt) == (c.id, c.revision, c.lastEventSeq, c.expiresAt)
      && c.updatedAt <= d.updatedAt && (d.updatedAt == c.updatedAt || d.updatedAt == now)
  {
  }

  // --------------------------------------------------------- what is folded

  /** One thing that happens to a client: the k-th event of the command's trace arrives, counting from 1, or its own
      clock is asked for a timeout or for the command's expiry. */
  datatype Input = Deliver(k: nat, timestamp: nat) | Tick(now: int, timeoutMs: int) | Expire(now: int)

  function Carry(id: CommandId, e: Event, timestamp: int): Message {
    Message(id, e.state, timestamp, Some(e.seqNo), Some(e.revision))
  }

  predicate Deliverable(es: seq<Event>, input: Input) {
    input.Deliver? ==> 1 <= input.k <= |es|
  }

  /** The expiry clock is asked at or after the command's deadline. */
  predicate Due(c: View, input: Input) {
    input.Expire? && c.expiresAt.Some? && c.expiresAt.value <= input.now
  }

  /** The inputs a client of the backend folds: events of the trace, and no expiry that is due. */
  predicate Observes(es: seq<Event>, c: View, inputs: seq<Input>) {
    forall i :: i in inputs ==> Deliverable(es, i) && !Due(c, i)
  }

  function Consume(es: seq<Event>, c: View, input: Input): View
    requires Deliverable(es, input)
  {
    match input
    case Deliver(k, timestamp) => ApplyCommandEvent(c, Carry(c.id, es[k - 1], timestamp)).command
    case Tick(now, timeoutMs) => TimeoutCommand(c, now, timeoutMs)
    case Expire(now) => ExpireCommand(c, now)
  }

  function Fold(es: seq<Event>, c: View, inputs: seq<Input>): View
    requires forall i :: i in inputs ==> Deliverable(es, i)
    decreases |inputs|
  {
    if inputs == [] then c else Fold(es, Consume(es, c, inputs[0]), inputs[1..])
  }

  function StateAt(es: seq<Event>, k: nat): CommandState
    requires k <= |es|
  {
    Safety.LastState(es[..k])
  }

  /** The client is at the `k`-th position of the trace, or has given up watching there for the moment. */
  predicate At(es: seq<Event>, c: View, k: nat) {
    && k <= |es| && c.id != ""
    && (c.state == StateAt(es, k) || (c.state == TimedOut && !Terminal(StateAt(es, k))))
    && c.lastEventSeq == (if k == 0 then None else Some(k))
  }

  /** The revision that the `k`-th position announces; the client starts at `first`. */
  function RevisionAt(es: seq<Event>, first: int, k: nat): int
    requires k <= |es|
  {
    if k == 0 then first else es[k - 1].revision
  }

  predicate Increasing(es: seq<Event>, first: int, n: nat)
    requires n <= |es|
  {
    forall k :: 0 <= k < n ==> RevisionAt(es, first, k) < es[k].revision
  }

  /** A trace whose revisions strictly increase, as in every run without a stale copy of the command. Every run sends a
      legal trace. */
  predicate ClimbingTrace(es: seq<Event>, first: int) {
    Safety.LegalTrace(es) && first >= 1 && Increasing(es, first, |es|)
  }

  /** The client is at the `k`-th position and holds the revision announced there. */
  predicate Stands(es: seq<Event>, c: View, first: int, k: nat) {
    At(es, c, k) && c.revision == Some(RevisionAt(es, first, k))
  }

  // ------------------------------------------------------------- the traces

  lemma TraceEdge(es: seq<Event>, k: nat)
    requires Safety.LegalTrace(es) && 1 <= k <= |es|
    ensures Safety.Edge(StateAt(es, k - 1), StateAt(es, k)) && StateAt(es, k) == es[k - 1].state && es[k - 1].seqNo == k
  {
    assert es[..k][..k - 1] == es[..k - 1];
  }

  function Depth(s: CommandState): nat {
    match s
    case Issued => 0
    case Received => 1
    case Accepted => 2
    case Executing => 3
    case Applied => 4
    case _ => 5
  }

  /** No state comes twice in a trace, and nothing follows a terminal state. */
  lemma {:induction false} TraceClimbs(es: seq<Event>, j: nat, k: nat)
    requires Safety.LegalTrace(es) && j < k <= |es|
    ensures Depth(StateAt(es, j)) < Depth(StateAt(es, k)) && !Terminal(StateAt(es, j)) && StateAt(es, k) != TimedOut
    decreases k
  {
    TraceEdge(es, k);
    if j < k - 1 { TraceClimbs(es, j, k - 1); }
  }

  /** A terminal position is the last one. */
  lemma TerminalEnds(es: seq<Event>, k: nat)
    requires Safety.LegalTrace(es) && k <= |es|
    ensures if k == |es| then es[..k] == es else !Terminal(StateAt(es, k))
  {
    if k < |es| { TraceClimbs(es, k, |es|); }
  }

  // -------------------------------------------------------- never contradicts

  lemma LaterEventAdvances(es: seq<Event>, c: View, k: nat, j: nat, timestamp: nat)
    requires Safety.LegalTrace(es) && At(es, c, k) && k < j <= |es|
    ensures var d := Consume(es, c, Deliver(j, timestamp));
      d == c || (At(es, d, j) && d.revision == Some(es[j - 1].revision))
  {
    TraceEdge(es, j);
    TraceClimbs(es, k, j);
  }

  lemma EarlierEventIgnored(es: seq<Event>, c: View, k: nat, j: nat, timestamp: nat)
    requires Safety.LegalTrace(es) && At(es, c, k) && 1 <= j <= k
    ensures Consume(es, c, Deliver(j, timestamp)) == c
  {
    TraceEdge(es, j);
    if j < k { TraceClimbs(es, j, k); }
  }

  /** One input moves the client to the position it shows or leaves it where it is. */
  lemma InputAdvances(es: seq<Event>, c: View, k: nat, input: Input)
    requires Safety.LegalTrace(es) && At(es, c, k) && Deliverable(es, input) && !Due(c, input)
    ensures var d := Consume(es, c, input);
      || (At(es, d, k) && d.revision == c.revision)
      || (input.Deliver? && k < input.k && At(es, d, input.k) && d.revision == Some(es[input.k - 1].revision))
  {
    match input
    case Deliver(j, timestamp) =>
      if k < j { LaterEventAdvances(es, c, k, j, timestamp); } else { EarlierEventIgnored(es, c, k, j, timestamp); }
    case Tick(now, timeoutMs) => assert StateAt(es, k) != TimedOut by { if k > 0 { TraceEdge(es, k); } }
    case Expire(now) =>
  }

  lemma DeadlineStays(es: seq<Event>, c: View, input: Input)
    requires Deliverable(es, input)
    ensures Consume(es, c, input).expiresAt == c.expiresAt && Consume(es, c, input).id == c.id
  {
  }

  lemma ObservesOn(es: seq<Event>, c: View, inputs: seq<Input>)
    requires Observes(es, c, inputs) && inputs != []
    ensures Deliverable(es, inputs[0]) && !Due(c, inputs[0])
    ensures Observes(es, Consume(es, c, inputs[0]), inputs[1..])
  {
    assert inputs[0] in inputs;
    DeadlineStays(es, c, inputs[0]);
  }

  /** Any selection of a legal trace, with losses, repetitions and reorderings, with repeated revisions and with local
      timeouts in between, leaves the client at TIMEOUT or at a position of the trace that it reached going only
      forward. */
  lemma {:induction false} SelectionNeverContradicts(es: seq<Event>, c: View, k: nat, inputs: seq<Input>)
    returns (p: nat)
    requires Safety.LegalTrace(es) && At(es, c, k) && Observes(es, c, inputs)
    ensures k <= p <= |es| && At(es, Fold(es, c, inputs), p)
    ensures p == k || exists i :: i in inputs && i.Deliver? && i.k == p
    decreases |inputs|
  {
    if inputs == [] {
      p := k;
    } else {
      ObservesOn(es, c, inputs);
      InputAdvances(es, c, k, inputs[0]);
      var next := Consume(es, c, inputs[0]);
      var q := if At(es, next, k) then k else inputs[0].k;
      p := SelectionNeverContradicts(es, next, q, inputs[1..]);
    }
  }

  /** One input turns an unfinished view terminal only into what the trace ends with. */
  lemma InputTells(es: seq<Event>, c: View, input: Input)
    requires Safety.LegalTrace(es) && !Terminal(c.state) && Deliverable(es, input) && !Due(c, input)
    ensures Terminal(Consume(es, c, input).state) ==> Consume(es, c, input).state == Safety.LastState(es)
  {
    if input.Deliver? {
      TraceEdge(es, input.k);
      TerminalEnds(es, input.k);
    }
  }

  /** What a client shows as terminal is what the backend ended with: from any unfinished view, known position or
      not, and for any legal trace, also one whose revisions repeat. */
  lemma {:induction false} TerminalViewIsTrue(es: seq<Event>, c: View, inputs: seq<Input>)
    requires Safety.LegalTrace(es) && !Terminal(c.state) && Observes(es, c, inputs)
    ensures Terminal(Fold(es, c, inputs).state) ==> Fold(es, c, inputs).state == Safety.LastState(es)
    decreases |inputs|
  {
    if inputs != [] {
      ObservesOn(es, c, inputs);
      InputTells(es, c, inputs[0]);
      var next := Consume(es, c, inputs[0]);
      if Terminal(next.state) {
        TerminalFold(es, next, inputs[1..]);
      } else {
        TerminalViewIsTrue(es, next, inputs[1..]);
      }
    }
  }

  /** Nothing whatever moves a client out of a terminal state. */
  lemma TerminalViewIsFinal(c: View, e: Message, now: int, timeoutMs: int)
    requires Terminal(c.state)
    ensures ApplyCommandEvent(c, e).command.state == c.state
    ensures TimeoutCommand(c, now, timeoutMs) == c && ExpireCommand(c, now) == c
  {
  }

  // --------------------------------------------------------------- converges

  /** The events from `next` on arrive in order, once each; ticks come anywhere. */
  predicate InOrder(inputs: seq<Input>, next: nat, last: nat) {
    if inputs == [] then next == last + 1
    else match inputs[0]
      case Deliver(k, _) => k == next <= last && InOrder(inputs[1..], next + 1, last)
      case Tick(_, _) => InOrder(inputs[1..], next, last)
      case Expire(_) => InOrder(inputs[1..], next, last)
  }

  lemma {:induction false} DeliverableInOrder(es: seq<Event>, inputs: seq<Input>, next: nat)
    requires 1 <= next && InOrder(inputs, next, |es|)
    ensures forall i :: i in inputs ==> Deliverable(es, i)
    decreases |inputs|
  {
    if inputs != [] {
      DeliverableInOrder(es, inputs[1..], if inputs[0].Deliver? then next + 1 else next);
      assert forall i :: i in inputs ==> i == inputs[0] || i in inputs[1..];
    }
  }

  lemma NewEventTaken(c: View, e: Message)
    requires ValidMessage(e) && e.commandId == c.id && e.seqNo.Some? && e.revision.Some? && c.revision.Some?
    requires c.revision.value < e.revision.value && (c.lastEventSeq.Some? ==> c.lastEventSeq.value < e.seqNo.value)
    requires c.state != e.state && Allowed(c.state, e.state)
    ensures ApplyCommandEvent(c, e).command == Taken(c, e)
  {
  }

  lemma EdgeAllowed(a: CommandState, b: CommandState)
    requires Safety.Edge(a, b)
    ensures Allowed(a, b) && Allowed(TimedOut, b) && a != b && !Terminal(a)
  {
  }

  /** The next event of the trace always moves the client on, also out of TIMEOUT. */
  lemma NextAdvances(es: seq<Event>, c: View, first: int, k: nat, timestamp: nat)
    requires ClimbingTrace(es, first) && Stands(es, c, first, k) && k < |es|
    ensures Stands(es, Consume(es, c, Deliver(k + 1, timestamp)), first, k + 1)
  {
    TraceEdge(es, k + 1);
    EdgeAllowed(StateAt(es, k), es[k].state);
    RevisionPositive(es, first, k);
    NewEventTaken(c, Carry(c.id, es[k], timestamp));
  }

  lemma {:induction false} RevisionPositive(es: seq<Event>, first: int, k: nat)
    requires ClimbingTrace(es, first) && k <= |es|
    ensures RevisionAt(es, first, k) >= 1
  {
    if k > 0 { RevisionPositive(es, first, k - 1); }
  }

  /** Where a client at position `k` is after an input, when `next` is the event that arrives next. */
  function Reached(input: Input, k: nat, next: nat): nat {
    if input.Deliver? && next == k + 1 then next else k
  }

  lemma InOrderStep(es: seq<Event>, c: View, first: int, k: nat, next: nat, input: Input)
    requires ClimbingTrace(es, first) && Stands(es, c, first, k) && 1 <= next <= k + 1
    requires Deliverable(es, input) && !Due(c, input) && (input.Deliver? ==> input.k == next)
    ensures Stands(es, Consume(es, c, input), first, Reached(input, k, next))
  {
    if !input.Deliver? {
      InputAdvances(es, c, k, input);
    } else if next == k + 1 {
      NextAdvances(es, c, first, k, input.timestamp);
    } else {
      EarlierEventIgnored(es, c, k, next, input.timestamp);
    }
  }

  lemma {:induction false} InOrderFollows(es: seq<Event>, c: View, first: int, k: nat, next: nat, inputs: seq<Input>)
    requires ClimbingTrace(es, first) && Stands(es, c, first, k) && 1 <= next <= k + 1
    requires InOrder(inputs, next, |es|) && Observes(es, c, inputs)
    ensures Stands(es, Fold(es, c, inputs), first, |es|)
    decreases |inputs|
  {
    if inputs != [] {
      ObservesOn(es, c, inputs);
      InOrderStep(es, c, first, k, next, inputs[0]);
      InOrderFollows(es, Consume(es, c, inputs[0]), first, Reached(inputs[0], k, next),
                     if inputs[0].Deliver? then next + 1 else next, inputs[1..]);
    }
  }

  predicate NeverDue(c: View, inputs: seq<Input>) {
    forall i :: i in inputs ==> !Due(c, i)
  }

  /** A client that starts from any snapshot of a finished command and then sees the whole trace in order, however often
      its own clock gives up in between, ends in the backend's terminal state. */
  lemma {:induction false} FullDeliveryConverges(es: seq<Event>, c: View, first: int, k: nat, inputs: seq<Input>)
    requires ClimbingTrace(es, first) && Terminal(Safety.LastState(es)) && Stands(es, c, first, k)
    requires InOrder(inputs, 1, |es|) && NeverDue(c, inputs)
    ensures forall i :: i in inputs ==> Deliverable(es, i)
    ensures Fold(es, c, inputs).state == Safety.LastState(es)
  {
    DeliverableInOrder(es, inputs, 1);
    InOrderFollows(es, c, first, k, 1, inputs);
    assert es[..|es|] == es;
  }

  // -------------------------------------------------------- what breaks it

  /** The trace event after the one a client shows is taken exactly when its revision is greater than the client's:
      this is the one thing the client needs of the backend's revisions. */
  lemma AdvancesExactlyOnNewRevision(es: seq<Event>, c: View, k: nat, timestamp: nat)
    requires Safety.LegalTrace(es) && k < |es| && c.id != "" && c.state == StateAt(es, k) && es[k].revision >= 1
    requires c.revision.Some? && c.lastEventSeq == (if k == 0 then None else Some(k))
    ensures ApplyCommandEvent(c, Carry(c.id, es[k], timestamp)).command.state == StateAt(es, k + 1) <==>
      es[k].revision > c.revision.value
  {
    TraceEdge(es, k + 1);
  }

  /** The view after the first `k` events of the trace, in order. */
  function Following(es: seq<Event>, c: View, timestamps: seq<nat>, k: nat): View
    requires k <= |es| == |timestamps|
  {
    if k == 0 then c else Consume(es, Following(es, c, timestamps, k - 1), Deliver(k, timestamps[k - 1]))
  }

  /** The client shows the `k`-th position and its announced revision. */
  predicate Shows(es: seq<Event>, d: View, first: int, k: nat)
    requires k <= |es|
  {
    && d.id != "" && d.state == StateAt(es, k) && d.revision == Some(RevisionAt(es, first, k))
    && d.lastEventSeq == if k == 0 then None else Some(k)
  }

  /** The next event is shown if and only if it announces a greater revision. */
  lemma NextShown(es: seq<Event>, d: View, first: int, k: nat, timestamp: nat)
    requires Safety.LegalTrace(es) && k < |es| && es[k].revision >= 1 && Shows(es, d, first, k)
    ensures var next := Consume(es, d, Deliver(k + 1, timestamp));
      && (next.state == StateAt(es, k + 1) <==> RevisionAt(es, first, k) < es[k].revision)
      && (RevisionAt(es, first, k) < es[k].revision ==> Shows(es, next, first, k + 1))
  {
    TraceEdge(es, k + 1);
    AdvancesExactlyOnNewRevision(es, d, k, timestamp);
  }

  lemma {:induction false} FollowsWhileIncreasing(es: seq<Event>, c: View, first: int, timestamps: seq<nat>, n: nat)
    requires Safety.LegalTrace(es) && n <= |es| == |timestamps| && forall e :: e in es ==> e.revision >= 1
    requires Shows(es, c, first, 0) && Increasing(es, first, n)
    ensures Shows(es, Following(es, c, timestamps, n), first, n)
    decreases n
  {
    if n > 0 {
      FollowsWhileIncreasing(es, c, first, timestamps, n - 1);
      NextShown(es, Following(es, c, timestamps, n - 1), first, n - 1, timestamps[n - 1]);
    }
  }

  /** A client that sees every event of a command in order shows each of its states in turn if and only if the revisions
      strictly increase from the record the client started with. */
  lemma FollowsExactly(es: seq<Event>, c: View, first: int, timestamps: seq<nat>, n: nat)
    requires Safety.LegalTrace(es) && n <= |es| == |timestamps| && forall e :: e in es ==> e.revision >= 1
    requires c.id != "" && c.state == Issued && c.revision == Some(first) && c.lastEventSeq == None
    ensures (forall k :: 0 <= k <= n ==> Following(es, c, timestamps, k).state == StateAt(es, k)) <==>
      Increasing(es, first, n)
  {
    assert es[..0] == [];
    if Increasing(es, first, n) {
      forall k | 0 <= k <= n ensures Following(es, c, timestamps, k).state == StateAt(es, k) {
        FollowsWhileIncreasing(es, c, first, timestamps, k);
      }
    } else {
      var k := FirstRepeat(es, first, n);
      FollowsWhileIncreasing(es, c, first, timestamps, k);
      NextShown(es, Following(es, c, timestamps, k), first, k, timestamps[k]);
      assert Following(es, c, timestamps, k + 1).state != StateAt(es, k + 1);
    }
  }

  lemma {:induction false} FirstRepeat(es: seq<Event>, first: int, n: nat) returns (k: nat)
    requires n <= |es| && !Increasing(es, first, n)
    ensures k < n && Increasing(es, first, k) && RevisionAt(es, first, k) >= es[k].revision
    decreases n
  {
    if Increasing(es, first, n - 1) { k := n - 1; } else { k := FirstRepeat(es, first, n - 1); }
  }

  /** Before the last event of the trace arrives, the expiry clock is asked after the deadline. */
  predicate DueBeforeEnd(c: View, inputs: seq<Input>, last: nat) {
    if inputs == [] then false
    else match inputs[0]
      case Deliver(k, _) => k != last && DueBeforeEnd(c, inputs[1..], last)
      case Tick(_, _) => DueBeforeEnd(c, inputs[1..], last)
      case Expire(_) => Due(c, inputs[0]) || DueBeforeEnd(c, inputs[1..], last)
  }

  lemma {:induction false} DueDepends(c: View, d: View, inputs: seq<Input>, last: nat)
    requires c.expiresAt == d.expiresAt
    ensures DueBeforeEnd(c, inputs, last) == DueBeforeEnd(d, inputs, last)
    decreases |inputs|
  {
    if inputs != [] { DueDepends(c, d, inputs[1..], last); }
  }

  lemma Expires(es: seq<Event>, c: View, inputs: seq<Input>)
    requires !Terminal(c.state) && inputs != [] && Due(c, inputs[0]) && forall i :: i in inputs ==> Deliverable(es, i)
    ensures Fold(es, c, inputs).state == Expired
  {
    TerminalFold(es, Consume(es, c, inputs[0]), inputs[1..]);
  }

  /** The expiry function is final where it strikes, so folded together with a command's whole trace, in order, it
      agrees with that trace exactly when the trace ends EXPIRED or its last event came before the first expiry that
      was due. */
  lemma {:induction false} ExpiryAgreesExactly(es: seq<Event>, c: View, first: int, k: nat, next: nat,
                                               inputs: seq<Input>)
    requires ClimbingTrace(es, first) && Terminal(Safety.LastState(es))
    requires Stands(es, c, first, k) && k < |es| && 1 <= next <= k + 1
    requires InOrder(inputs, next, |es|) && forall i :: i in inputs ==> Deliverable(es, i)
    ensures Fold(es, c, inputs).state == Safety.LastState(es) <==>
      Safety.LastState(es) == Expired || !DueBeforeEnd(c, inputs, |es|)
    decreases |inputs|
  {
    TerminalEnds(es, k);
    assert inputs != [];
    assert inputs[0] in inputs;
    if Due(c, inputs[0]) {
      Expires(es, c, inputs);
    } else {
      var d := Consume(es, c, inputs[0]);
      DeadlineStays(es, c, inputs[0]);
      DueDepends(c, d, inputs[1..], |es|);
      InOrderStep(es, c, first, k, next, inputs[0]);
      var p := Reached(inputs[0], k, next);
      if p == |es| {
        assert es[..|es|] == es;
        TerminalFold(es, d, inputs[1..]);
      } else {
        ExpiryAgreesExactly(es, d, first, p, if inputs[0].Deliver? then next + 1 else next, inputs[1..]);
      }
    }
  }

  const FULL_LIFE :=
    [Event(Received, 1, 2), Event(Accepted, 2, 3), Event(Executing, 3, 4), Event(Applied, 4, 5), Event(Confirmed, 5, 6)]

  lemma FullLife()
    ensures ClimbingTrace(FULL_LIFE, 1)
  {
    var es := FULL_LIFE;
    forall i | 0 <= i < 5 ensures es[i].seqNo == i + 1 && Safety.Edge(Safety.LastState(es[..i]), es[i].state) {
      if i > 0 { assert es[..i][i - 1] == es[i - 1]; }
    }
  }

  /** Such a trace: the command is confirmed, and a client that shows APPLIED, asked for its expiry just before the
      last event arrives, stays at EXPIRED. */
  lemma ExpiryContradictsConfirmation(id: CommandId) returns (es: seq<Event>, c: View, inputs: seq<Input>)
    requires id != ""
    ensures ClimbingTrace(es, 1) && Safety.LastState(es) == Confirmed
    ensures c.state == Applied && Stands(es, c, 1, 4) && inputs == [Expire(100), Deliver(5, 101)]
    ensures forall i :: i in inputs ==> Deliverable(es, i)
    ensures Fold(es, c, inputs).state == Expired
  {
    FullLife();
    es := FULL_LIFE;
    c := View(id, Applied, 0, Some(4), Some(5), Some(100));
    inputs := [Expire(100), Deliver(5, 101)];
    assert es[..4][3] == es[3];
    Expires(es, c, inputs);
  }

  lemma {:induction false} TerminalFold(es: seq<Event>, c: View, inputs: seq<Input>)
    requires Terminal(c.state) && forall i :: i in inputs ==> Deliverable(es, i)
    ensures Fold(es, c, inputs).state == c.state
    decreases |inputs|
  {
    if inputs != [] { TerminalFold(es, Consume(es, c, inputs[0]), inputs[1..]); }
  }

  // ------------------------------------------------------ with the backend

  /** End to end, in any run: from any unfinished view, whatever selection of what has been sent of a command a client
      folds, in any order, a certain outcome it shows is the one of the command's ledger row, while that row exists;
      and so is an unknown outcome, if no stale evidence has been saved for the command. */
  lemma ClientAgreesWithLedger(maxRecords: nat, ws: seq<Protocol.World>, steps: seq<Protocol.Step>, i: nat,
                               id: CommandId,
                               c: View, inputs: seq<Input>)
    requires Protocol.Run(maxRecords, ws, steps) && i < |ws| && id in ws[i].tables.commands && Protocol.Owned(ws[i], id)
    requires !Terminal(c.state) && Observes(Sending.SentOf(ws[i], id), c, inputs)
    ensures var view, row := Fold(Sending.SentOf(ws[i], id), c, inputs), ws[i].tables.commands[id].command;
      && (Prunable(view.state) ==> row.state == view.state)
      && (view.state == OutcomeUnknown && Outcomes.Undisturbed(ws, steps, 0, i, id) ==> row.state == OutcomeUnknown)
  {
    Sending.SentTellsTheLedger(maxRecords, ws, steps, i, id);
    TerminalViewIsTrue(Sending.SentOf(ws[i], id), c, inputs);
  }

  /** A client that starts from a finished ledger record, also one that a restart finished without an event, agrees
      with the ledger whatever it folds and however the run goes on, while the row exists: with a certain outcome
      always, with an unknown one as long as no stale evidence is saved for the command. */
  lemma FinishedSnapshotAgrees(maxRecords: nat, ws: seq<Protocol.World>, steps: seq<Protocol.Step>, i: nat, j: nat,
                               id: CommandId,
                               es: seq<Event>, c: View, inputs: seq<Input>)
    requires Protocol.Run(maxRecords, ws, steps) && i <= j < |ws| && Outcomes.Present(ws, i, j, id)
    requires Terminal(c.state) && ws[i].tables.commands[id].command.state == c.state
    requires c.state == OutcomeUnknown ==> Outcomes.Undisturbed(ws, steps, i, j, id)
    requires forall x :: x in inputs ==> Deliverable(es, x)
    ensures ws[j].tables.commands[id].command.state == Fold(es, c, inputs).state
  {
    TerminalFold(es, c, inputs);
    if c.state == OutcomeUnknown {
      Outcomes.UnknownOutcomeSurvives(maxRecords, ws, steps, i, j, id);
    } else {
      Outcomes.TerminalStateFinal(maxRecords, ws, steps, i, j, id);
    }
  }

  /** After one stale copy the same client, given every event in order, is stranded: the command is CONFIRMED in the
      ledger and the view stays at RECEIVED. */
  lemma StaleCopyStrandsClient(id: CommandId, timestamps: seq<nat>)
    returns (v: Protocol.World, c: View, inputs: seq<Input>)
    requires id != "" && |timestamps| == 5
    ensures Race.Reaches(Race.EMPTY, v) && "a" in v.tables.commands && v.tables.commands["a"].command.state == Confirmed
    ensures Protocol.Owned(v, "a") && |Sending.SentOf(v, "a")| == 5
    ensures c.state == Issued && c.revision == Some(1) && c.lastEventSeq == None
    ensures inputs == seq(5, n requires 0 <= n < 5 => Deliver(n + 1, timestamps[n]))
    ensures forall x :: x in inputs ==> Deliverable(Sending.SentOf(v, "a"), x)
    ensures Fold(Sending.SentOf(v, "a"), c, inputs).state == Received
  {
    v := Race.RevisionRepeated();
    var es := Sending.SentOf(v, "a");
    c := View(id, Issued, 0, None, Some(1), None);
    inputs := seq(5, n requires 0 <= n < 5 => Deliver(n + 1, timestamps[n]));
    var c1 := FirstOnly(es, c, timestamps);
    StaysPut(es, c1, inputs[1..]);
  }

  lemma FirstOnly(es: seq<Event>, c: View, timestamps: seq<nat>) returns (c1: View)
    requires es == Race.SHORT + [Event(Applied, 4, 4)] + [Event(Confirmed, 5, 5)] && |timestamps| == 5
    requires c.id != "" && c.state == Issued && c.revision == Some(1) && c.lastEventSeq == None
    ensures c1 == Consume(es, c, Deliver(1, timestamps[0])) && c1.state == Received
    ensures forall n :: 1 <= n < 5 ==> Consume(es, c1, Deliver(n + 1, timestamps[n])) == c1
  {
    c1 := Consume(es, c, Deliver(1, timestamps[0]));
    assert c1.state == Received && c1.revision == Some(2) && c1.lastEventSeq == Some(1);
  }

  lemma {:induction false} StaysPut(es: seq<Event>, c: View, inputs: seq<Input>)
    requires forall x :: x in inputs ==> Deliverable(es, x) && Consume(es, c, x) == c
    ensures Fold(es, c, inputs) == c
    decreases |inputs|
  {
    if inputs != [] { StaysPut(es, c, inputs[1..]); }
  }
}
