/**
 * The persisted records of the saga engine: saga instances, step records and
 * transfer transactions, with the defaults their field initialisers give.
 * A record's id is its position in its table (see module Persistence).
 */
module Entities {
  import opened Base
  import opened Enums
  import opened Context

  /**
   * A saga instance. `context` is the saved snapshot of the saga context;
   * `updatedDate` is stamped with the store clock on every save.
   */
  datatype SagaInstance = SagaInstance(
    sagaType: Option<string>,
    status: SagaStatus,
    context: ContextState,
    currentStep: Option<string>,
    retryCount: int,
    maxRetries: int,
    timeoutMinutes: int,
    updatedDate: int)

  /**
   * A new instance with the given type, context and status; every other field
   * keeps its initialiser: no current step, retryCount 0, maxRetries 3,
   * timeoutMinutes 60.
   */
  function NewInstance(sagaType: Option<string>, context: ContextState, status: SagaStatus, now: int): (s: SagaInstance)
    ensures s.sagaType == sagaType && s.context == context && s.status == status && s.updatedDate == now
    ensures s.currentStep.None? && s.retryCount == 0 && s.maxRetries == 3 && s.timeoutMinutes == 60
  {
    SagaInstance(sagaType, status, context, None, 0, 3, 60, now)
  }

  /** A step record of one saga instance. */
  datatype StepRecord = StepRecord(
    sagaInstanceId: int,
    stepOrder: int,
    stepName: string,
    status: StepStatus,
    errorMessage: Option<string>,
    retryCount: int,
    maxRetries: int)

  /**
   * A new step record for the given instance, name and order: status PENDING,
   * no error message, retryCount 0, maxRetries 3.
   */
  function NewStepRecord(sagaInstanceId: int, stepName: string, stepOrder: int): (r: StepRecord)
    ensures r.sagaInstanceId == sagaInstanceId && r.stepName == stepName && r.stepOrder == stepOrder
    ensures r.status == StepPending && r.errorMessage.None? && r.retryCount == 0 && r.maxRetries == 3
  {
    StepRecord(sagaInstanceId, stepOrder, stepName, StepPending, None, 0, 3)
  }

  /** A transfer transaction; `status` is nullable because a compensation may restore a null status. */
  datatype Transaction = Transaction(
    description: Option<string>,
    sourceWalletId: int,
    destinationWalletId: int,
    amount: Money,
    status: Option<TxStatus>,
    txType: TxType,
    sagaInstanceId: Option<int>,
    createdDate: int,
    updatedDate: int)
}
