/** Optional values and the results of calls that can throw. */
module Outcomes {
  datatype Option<+T> = None | Some(value: T)

  /** A returned value, or the exception that was thrown instead. */
  datatype Result<+T> = Ok(value: T) | Err(error: Error)
  {
    predicate IsFailure() {
      Err?
    }

    function PropagateFailure<U>(): Result<U>
      requires Err?
    {
      Err(error)
    }

    function Extract(): T
      requires Ok?
    {
      value
    }
  }

  /** Every exception the modelled services raise, and the infrastructure failures they can meet. */
  datatype Error =
    | AccountNotFound
    | DestinationNotFound
    | AccessDenied
    | SameAccount
    | CrossCurrency
    | AccountNotActive
    | InsufficientFunds
    | AlreadyFrozen
    | InvalidRequest
    | DuplicateKey(reference: string)
    | UniqueViolation
    | TransactionNotStarted
    | TimedOut
    | Outage(at: Fault)

  /** The points of one money movement at which the database or a listener can fail. */
  datatype Fault =
    | AtBegin
    | AtSave
    | AtDebit
    | AtCredit
    | AtMark
    | AtCommit
    | AtNotify
    | AtRollback
    | AtSaveFailed
}
