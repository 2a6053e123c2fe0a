/** Calls to Redis or over HTTP that a task awaits. */
module Awaiting {
  /** What happened to one awaited call: done, failed without effect, or done with the reply lost. */
  datatype Outcome = Done | Lost | Applied
}
