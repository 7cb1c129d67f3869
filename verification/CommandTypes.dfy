/** The vocabulary shared by the command ledger, the command runtime and the client view. */
module CommandTypes {
  import opened Basics

  type CommandId = string
  type IdempotencyKey = string

  /** `TimedOut` is a state of the client's view only; the backend never writes it. */
  datatype CommandState =
    | Issued | Received | Accepted | Executing | Applied
    | Confirmed | Failed | Rejected | Expired | OutcomeUnknown
    | TimedOut

  predicate Terminal(s: CommandState) {
    s.Confirmed? || s.Failed? || s.Rejected? || s.Expired? || s.OutcomeUnknown?
  }

  /** The only states whose records may be discarded, in memory or durably. */
  predicate Prunable(s: CommandState) {
    s.Confirmed? || s.Failed? || s.Rejected? || s.Expired?
  }

  /** What the adapter says about one delivery attempt. */
  datatype Certainty = NotSent | RejectedByDevice | PossiblyApplied | DeliveryApplied

  /** One observation of the field after delivery; `Unreadable` stands for an exception. */
  datatype Feedback = Pending | FieldConfirmed | FieldFailed | Unsupported | Unreadable

  /** The JSON object the backend keeps for a command, reduced to the fields its logic reads. */
  datatype Command = Command(
    deviceId: string,
    action: string,
    state: CommandState,
    revision: nat,
    lastEventSeq: Option<nat>,
    issuedAt: int,
    updatedAt: int,
    expiresAt: int
  )

  /** Both versions ask for the same device action, since the same time and until the same deadline. */
  predicate SameTarget(x: Command, c: Command) {
    x.deviceId == c.deviceId && x.action == c.action && x.issuedAt == c.issuedAt && x.expiresAt == c.expiresAt
  }

  /** A `command.status` message as clients receive it. */
  datatype Event = Event(state: CommandState, seqNo: nat, revision: nat)
}
