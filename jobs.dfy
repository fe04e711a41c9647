/**
 * Projects ("jobs"), the days each one spends in the three departments, and
 * the failures the completion-time evaluator can raise.
 */
module Jobs {

  /** A project identifier, such as "甲". */
  type Job = string

  /** Days a project needs in the design, manufacturing and inspection departments. */
  datatype Durations = Durations(design: nat, manufacture: nat, inspect: nat)

  /** The three departments every project passes through, always in this order. */
  datatype Stage = Design | Manufacture | Inspect

  /** Days the project described by `d` spends in department `s`. */
  function Duration(d: Durations, s: Stage): nat
  {
    match s
    case Design => d.design
    case Manufacture => d.manufacture
    case Inspect => d.inspect
  }

  /** The duration table: project identifier to its three durations. */
  type Times = map<Job, Durations>

  /**
   * The exceptions the evaluator raises: indexing the first position of an
   * empty order, or looking up a project the table does not contain.
   */
  datatype Failure = IndexError | KeyError(key: Job)

  datatype Result<T> = Ok(value: T) | Err(error: Failure)

  datatype Option<T> = None | Some(value: T)
}
