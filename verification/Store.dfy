/** The stores a sink writes to. */
module Store {

  /** What a store call did: succeeded, failed with no effect, or failed after its effect. */
  datatype Outcome = Succeeded | FailedClean | FailedDirty
}
