/**
 * The status enums of the saga engine and of transactions.
 * Constructors carry a prefix because the enums share constant names
 * (PENDING, RUNNING, COMPLETED, FAILED, ...).
 */
module Enums {
  import opened Base

  /** Status of a saga instance. */
  datatype SagaStatus =
    | SagaStarted
    | SagaRunning
    | SagaCompensating
    | SagaCompensated
    | SagaCompleted
    | SagaFailed

  /** Status of one step record of a saga instance. */
  datatype StepStatus =
    | StepPending
    | StepRunning
    | StepCompleted
    | StepFailed
    | StepCompensated

  /** Status of a transfer transaction (the constants the modelled code uses). */
  datatype TxStatus = TxPending | TxSuccess | TxFailed

  /** A transaction type constant, carried through unchanged. */
  datatype TxType = TxType(name: string)

  /** `TransactionStatus.name()`. */
  function TxStatusName(s: TxStatus): (r: string)
    ensures r == "PENDING" <==> s == TxPending
    ensures r == "SUCCESS" <==> s == TxSuccess
    ensures r == "FAILED" <==> s == TxFailed
  {
    match s
    case TxPending => "PENDING"
    case TxSuccess => "SUCCESS"
    case TxFailed => "FAILED"
  }

  /**
   * `TransactionStatus.valueOf(name)`: the constant with exactly that name;
   * a null name throws NullPointerException, any other name IllegalArgumentException.
   */
  function TxStatusValueOf(name: Option<string>): (r: Result<TxStatus>)
    ensures r.Ok? <==> name.Some? && name.value in {"PENDING", "SUCCESS", "FAILED"}
    ensures r.Ok? ==> TxStatusName(r.value) == name.value
    ensures name.None? ==> r.Err? && r.error.kind == NullPointerException
    ensures name.Some? && r.Err? ==> r.error.kind == IllegalArgumentException
  {
    match name
    case None => Err(Exception(NullPointerException, "Name is null"))
    case Some(n) =>
      if n == "PENDING" then Ok(TxPending)
      else if n == "SUCCESS" then Ok(TxSuccess)
      else if n == "FAILED" then Ok(TxFailed)
      else Err(IllegalArgument("No enum constant TransactionStatus." + n))
  }

  /** `valueOf(name())` gives back the constant. */
  lemma TxStatusNameRoundTrip(s: TxStatus)
    ensures TxStatusValueOf(Some(TxStatusName(s))) == Ok(s)
  {
  }
}
