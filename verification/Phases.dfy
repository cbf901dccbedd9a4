/** What the two kinds of automated run have in common. */
module Phases {

  datatype Phase = Idle | Running | Settling | Stopping | Completed | Cancelled | Failed {
    predicate Terminal() {
      this in {Completed, Cancelled, Failed}
    }
  }

  /** Who calls `_finish_if_complete`: the run's own worker, or a thread that stops it, looks at it or waits for it. */
  datatype By = TheWorker | Another
}
