/** The status of a repair run, as its journal records it. */
module RepairRuns {

  /** RunOther stands for the statuses of a run that has not ended. */
  datatype RunStatus = RunCompleted | RunPartial | RunFailed | RunOther

  /** How a run over some items ends: a failed item makes it partial if anything was changed. */
  function FinalStatus<T(==)>(items: seq<T>, failed: T, changed: T): RunStatus {
    if failed in items then (if changed in items then RunPartial else RunFailed) else RunCompleted
  }
}
