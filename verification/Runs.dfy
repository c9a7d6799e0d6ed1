/** The status of a run, as the cleanup planner and the notifications read it. */
module Runs {
  datatype RunStatus = Pending | Running | Completed | Failed | Cancelled {
    predicate IsTerminal() {
      this == Completed || this == Failed || this == Cancelled
    }

    predicate IsActive() {
      this == Pending || this == Running
    }
  }
}
