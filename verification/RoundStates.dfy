/** The states of one delegation round (delegation_runs.state). */
module RoundStates {
  datatype RoundState = Running | Completed | Failed | Cancelled | Interrupted
}
