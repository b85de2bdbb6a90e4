/** Outcomes of the operations that may end in a pool-wide abort.
    Every `MPI_Abort(MPI_COMM_WORLD, EXIT_FAILURE)` of the program becomes an
    `Abort` carrying the reason, except the failures to open a file for
    writing and to allocate memory, which the model does not represent. */
module Faults {

  /** Why a worker aborted the pool. */
  datatype Fault =
    | InvalidCount            // a shard size that is not positive
    | OpenFailed              // the canonical snapshot file does not exist
    | SkipFailed              // the file ended while skipping lines of earlier shards
    | ReadFailed              // the file ended while reading this shard's lines
    | MissingStaging(rank: int) // the staging file of `rank` is absent during the merge

  /** Outcome of an operation that produces no value. */
  datatype Status = Ok | Abort(fault: Fault)

  /** Outcome of an operation that produces a value. */
  datatype Result<T> = Success(value: T) | Failure(fault: Fault) {
    function ToStatus(): Status {
      match this
      case Success(_) => Ok
      case Failure(f) => Abort(f)
    }
  }
}
