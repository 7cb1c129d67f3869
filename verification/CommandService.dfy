/** The supervised adapter call: quarantine, isolation and what a delivery may claim. */
module CommandService {
  import opened Basics
  import opened CommandTypes
  import opened CommandProtocol

  datatype Isolation = BoundedInProcess | IsolatedDriverHost

  /** What the adapter does with one command: a supervised driver answers or throws, a simulated one succeeds, fails
      or throws, and a real driver without a contract is not to be called at all. `finishedAt` is when the call comes
      back. */
  datatype Adapter =
    | Supervised(mode: Isolation, answer: Option<Certainty>, finishedAt: int)
    | Simulated(success: bool, finishedAt: int)
    | Uncontracted

  /** A driver that is bound to its deadline came back after it. */
  predicate Overran(adapter: Adapter, deadline: int) {
    adapter.Supervised? && adapter.mode == BoundedInProcess && deadline < adapter.finishedAt
  }

  /** A supervised driver's own answer, which counts as long as it kept what it was bound to. */
  predicate Answers(adapter: Adapter, deadline: int, certainty: Certainty) {
    adapter.Supervised? && adapter.answer == Some(certainty) && !Overran(adapter, deadline)
  }

  /** A simulated adapter reports success in time. */
  predicate Succeeds(adapter: Adapter, deadline: int) {
    adapter.Simulated? && adapter.success && adapter.finishedAt <= deadline
  }

  class CommandService {
    var quarantined: bool
    /** Calls that crossed to the adapter. */
    ghost var calls: nat

    constructor ()
      ensures !quarantined && calls == 0
    {
      quarantined, calls := false, 0;
    }

    /** `violated` is set when a bounded driver came back after its deadline. */
    method Execute(adapter: Adapter, deadline: int) returns (certainty: Certainty, violated: bool)
      modifies this
      ensures calls == old(calls) + if old(quarantined) || adapter == Uncontracted then 0 else 1
      ensures (certainty, violated) == Supervise(old(quarantined), adapter, deadline)
      ensures quarantined <==> old(quarantined) || violated
      ensures violated <==> !old(quarantined) && Overran(adapter, deadline)
      ensures certainty == NotSent <==>
        old(quarantined) || adapter == Uncontracted || Answers(adapter, deadline, NotSent)
      ensures certainty == RejectedByDevice <==> !old(quarantined) && Answers(adapter, deadline, RejectedByDevice)
      ensures certainty == DeliveryApplied <==>
        !old(quarantined) && (Answers(adapter, deadline, DeliveryApplied) || Succeeds(adapter, deadline))
    {
      violated := false;
      if quarantined {
        return NotSent, false;
      }
      match adapter {
        case Supervised(mode, answer, finishedAt) =>
          calls := calls + 1;
          certainty := if answer.Some? then answer.value else PossiblyApplied;
          if mode == BoundedInProcess && finishedAt > deadline {
            quarantined, violated := true, true;
            certainty := PossiblyApplied;
          }
        case Uncontracted =>
          certainty := NotSent;
        case Simulated(success, finishedAt) =>
          calls := calls + 1;
          if finishedAt > deadline {
            certainty := PossiblyApplied;
          } else {
            certainty := if success then DeliveryApplied else PossiblyApplied;
          }
      }
    }
  }

  predicate Crosses(quarantined: bool, adapter: Adapter) {
    !quarantined && adapter != Uncontracted
  }

  function Supervise(quarantined: bool, adapter: Adapter, deadline: int): (Certainty, bool) {
    if !Crosses(quarantined, adapter) then (NotSent, false)
    else match adapter
      case Supervised(mode, answer, finishedAt) =>
        if mode == BoundedInProcess && finishedAt > deadline then (PossiblyApplied, true)
        else (if answer.Some? then answer.value else PossiblyApplied, false)
      case Simulated(success, finishedAt) =>
        (if success && finishedAt <= deadline then DeliveryApplied else PossiblyApplied, false)
      case Uncontracted => (NotSent, false)
  }

  /** A claim that the command was applied is only made when the adapter was called, answered without an exception,
      and did not overrun a deadline it was bound to. */
  lemma AppliedIsEarned(quarantined: bool, adapter: Adapter, deadline: int)
    ensures Supervise(quarantined, adapter, deadline).0 == DeliveryApplied <==>
      !quarantined && match adapter
        case Supervised(mode, answer, finishedAt) =>
          answer == Some(DeliveryApplied) && (mode == BoundedInProcess ==> finishedAt <= deadline)
        case Simulated(success, finishedAt) => success && finishedAt <= deadline
        case Uncontracted => false
  {
  }

  /** Nothing is claimed to be undelivered that crossed to the adapter, unless a driver that kept its deadline says so
      itself. */
  lemma NotSentExactly(quarantined: bool, adapter: Adapter, deadline: int)
    ensures Supervise(quarantined, adapter, deadline).0 == NotSent <==>
      quarantined || adapter == Uncontracted || Answers(adapter, deadline, NotSent)
  {
  }

  /** A rejection is always the driver's own. */
  lemma RejectionIsTheDrivers(quarantined: bool, adapter: Adapter, deadline: int)
    ensures Supervise(quarantined, adapter, deadline).0 == RejectedByDevice <==>
      !quarantined && Answers(adapter, deadline, RejectedByDevice)
  {
  }

  /** An exception, an overrun of a deadline and a simulation that fails leave the outcome open, and besides these only
      a driver that says so. */
  lemma OpenExactly(quarantined: bool, adapter: Adapter, deadline: int)
    ensures Supervise(quarantined, adapter, deadline).0 == PossiblyApplied <==>
      !quarantined && match adapter
        case Supervised(_, answer, _) =>
          Overran(adapter, deadline) || answer == None || Answers(adapter, deadline, PossiblyApplied)
        case Simulated(success, finishedAt) => !success || deadline < finishedAt
        case Uncontracted => false
  {
  }

  /** The adapter is quarantined exactly for a bounded driver that was called and came back late. */
  lemma ViolatedExactly(quarantined: bool, adapter: Adapter, deadline: int)
    ensures Supervise(quarantined, adapter, deadline).1 <==> !quarantined && Overran(adapter, deadline)
  {
  }

  /** The call is the protocol's delivery: what `Execute` decides is what the sections of one thread at the adapter
      do, uninterrupted. */
  lemma ExecuteIsDelivery(maxRecords: nat, w: World, id: CommandId, adapter: Adapter, deadline: int)
    requires At(w, id, Ready) && id in w.tasks
    ensures var (certainty, violated) := Supervise(w.quarantined, adapter, deadline);
      var invoked := InvokeSection(w, id, adapter == Uncontracted);
      && (violated ==> certainty == PossiblyApplied)
      && (if Crosses(w.quarantined, adapter)
          then At(invoked, id, Calling)
            && ReturnSection(invoked, id, certainty, violated).tasks[id] == Returning(certainty)
               && ReturnSection(invoked, id, certainty, violated).histories[w.owner[id]].log
                    == w.histories[w.owner[id]].log + [Invoked] + [Returned(certainty)]
               && (ReturnSection(invoked, id, certainty, violated).quarantined <==> w.quarantined || violated)
          else invoked == w.(tasks := w.tasks[id := Returning(NotSent)]) && certainty == NotSent)
  {
  }
}
