/** State and error codes of a download task, task.rs. */
module Tasks {

  datatype TaskState = Pending | Running | Verifying | Done | Failed | Canceled
  datatype TaskErr = NoErr | UnsupportedRange | SizeMismatch | CrcMismatch | Network | Timeout | CanceledErr

  predicate Terminal(s: TaskState) { s.Done? || s.Failed? || s.Canceled? }

  /** The error a reporter may see beside a terminal state. */
  predicate Matches(s: TaskState, e: TaskErr) {
    match s
    case Done => e.NoErr?
    case Canceled => e.CanceledErr?
    case Failed => !e.NoErr? && !e.CanceledErr?
    case _ => true
  }
}
