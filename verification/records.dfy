/**
 * The message record kept by the store and carried by the queues and the
 * sockets. A record is written once and never changed.
 */
module Records {

  /** The creation time of a record. The server stamps it from its clock;
      only its order matters to the model. */
  type Timestamp = int

  /** One chat message: sender identity, recipient identity, body, creation time. */
  datatype Record = Record(from: string, to: string, message: string, timestamp: Timestamp)

  /** An inbound frame after a successful parse: `{ to, message }`. */
  datatype Frame = Frame(to: string, message: string)

  /** What the identity-verification service hands back for a valid credential. */
  datatype User = User(name: string)

  /** How a call to an outside service (the store, Redis) ended. A call that
      throws may have failed before its command took effect, or after it: the
      command ran and only the reply was lost. */
  datatype CallOutcome = Succeeded | FailedBefore | FailedAfter
  {
    /** The caller sees an exception. */
    predicate Throws() { this != Succeeded }
    /** The command took effect at the service. */
    predicate Applied() { this != FailedBefore }
  }
}
