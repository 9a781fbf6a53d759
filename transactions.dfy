/**
 * Failure injection for the steps of a handler that may throw: file reads
 * and database statements, BEGIN and COMMIT included.
 *
 * A handler takes these steps one after another. Any of them may throw;
 * which one does is not under the handler's control, so it is a parameter
 * of every handler in this model.
 */
module Transactions {

  /** Which step throws, counting from 0 in the order the handler takes them. */
  datatype Fault = NoFault | FailsAt(statement: nat)

  /** The step with index `statement` throws. */
  predicate Throws(fault: Fault, statement: nat) {
    fault == FailsAt(statement)
  }

  /** A handler that takes `count` such steps is aborted by `fault`. */
  predicate Aborts(fault: Fault, count: nat) {
    fault.FailsAt? && fault.statement < count
  }
}
