/** What several components share: optional values, and the fate of an awaited call. */
module Common {

  datatype Option<+T> = None | Some(value: T)

  /**
   * Fate of one awaited call: done; raised without effect; or took effect and then raised.
   * `cancelled` tells a cancellation of the task from any other exception.
   */
  datatype Call = Done | Failed(cancelled: bool) | Lost(cancelled: bool) {
    predicate Effective() { !Failed? }
  }
}
