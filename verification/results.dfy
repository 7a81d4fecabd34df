/** Failure-compatible result type shared by every module of the model.
    The driver reports its failures as C++ exceptions; each exception class
    becomes one constructor of `Error`. */
module Results {

  datatype Error =
    /** std::invalid_argument: unsupported operation mode, command-count mismatch,
        malformed configuration line */
    | InvalidArgument(reason: string)
    /** InvalidJointCommand: a field the active mode needs is unknown, tagged by channel */
    | InvalidJointCommand(channel: nat)
    /** StatusWord::UnknownState: a status word matching no drive state */
    | UnknownState
    /** SerialCommandWriter::CommandFailed: the controller rejected a command line */
    | CommandFailed(line: string)

  datatype Result<+T> = Ok(value: T) | Err(error: Error) {

    predicate IsFailure() {
      Err?
    }

    function PropagateFailure<U>(): Result<U>
      requires Err?
    {
      Err(error)
    }

    function Extract(): T
      requires Ok?
    {
      value
    }
  }

  datatype Option<+T> = None | Some(value: T)
}
