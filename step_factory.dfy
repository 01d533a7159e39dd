/**
 * The step registry: the step types, the saga types with their ordered step
 * lists, the map from step type to step implementation built once, lookups
 * by type and by name, and the dispatch of `execute` / `compensate` to the
 * registered implementation.
 */
module SagaStepFactory {
  import opened Base
  import opened Context
  import opened Persistence
  import opened Entities
  import opened SagaStepInterface
  import DebitSourceWalletStep
  import CreditDestinationWalletStep
  import UpdateTransactionStatusStep

  datatype SagaStepType = DebitSourceWallet | CreditDestinationWallet | UpdateTransactionStatus

  datatype SagaType = TransactionTransfer

  /** The three step implementations (one bean each). */
  datatype StepBean = DebitSourceWalletBean | CreditDestinationWalletBean | UpdateTransactionStatusBean

  /** `SagaStepType.name()`. */
  function StepTypeName(t: SagaStepType): string
  {
    match t
    case DebitSourceWallet => "DEBIT_SOURCE_WALLET"
    case CreditDestinationWallet => "CREDIT_DESTINATION_WALLET"
    case UpdateTransactionStatus => "UPDATE_TRANSACTION_STATUS"
  }

  function SagaTypeName(t: SagaType): string
  {
    "TRANSACTION_TRANSFER"
  }

  /**
   * `SagaStepType.valueOf(name)`: the constant whose name is exactly `name`
   * (case-sensitive), else IllegalArgumentException.
   */
  function StepTypeValueOf(name: string): (r: Result<SagaStepType>)
    ensures r.Ok? <==> exists t :: StepTypeName(t) == name
    ensures r.Ok? ==> StepTypeName(r.value) == name
    ensures r.Err? ==> r.error.kind == IllegalArgumentException
  {
    if name == StepTypeName(DebitSourceWallet) then Ok(DebitSourceWallet)
    else if name == StepTypeName(CreditDestinationWallet) then Ok(CreditDestinationWallet)
    else if name == StepTypeName(UpdateTransactionStatus) then Ok(UpdateTransactionStatus)
    else
      assert forall t :: StepTypeName(t) != name;
      Err(IllegalArgument("No enum constant SagaStepType." + name))
  }

  /**
   * `getStepsForSaga`: the saga type's own `getSteps()` list, unchanged; a
   * transfer debits the source, credits the destination, then marks the
   * transaction.
   */
  function GetStepsForSaga(t: SagaType): (r: seq<SagaStepType>)
    ensures t == TransactionTransfer ==> r == [DebitSourceWallet, CreditDestinationWallet, UpdateTransactionStatus]
  {
    match t
    case TransactionTransfer => [DebitSourceWallet, CreditDestinationWallet, UpdateTransactionStatus]
  }

  /** The map the factory builds once from the three step beans. */
  const StepMap: map<SagaStepType, StepBean> := map[
    DebitSourceWallet := DebitSourceWalletBean,
    CreditDestinationWallet := CreditDestinationWalletBean,
    UpdateTransactionStatus := UpdateTransactionStatusBean]

  /** `getSagaStep`: the registered bean, or IllegalArgumentException when the type has none. */
  function GetSagaStep(t: SagaStepType): (r: Result<StepBean>)
    ensures r.Ok? <==> t in StepMap
    ensures r.Ok? ==> r.value == StepMap[t]
  {
    if t in StepMap then Ok(StepMap[t]) else Err(IllegalArgument("Invalid Saga Step Type: " + StepTypeName(t)))
  }

  /**
   * `getSagaStepByName`: `valueOf` then `getSagaStep`; an IllegalArgumentException
   * from either is rethrown as "Invalid Saga Step Name: " + name.
   */
  function GetSagaStepByName(name: string): (r: Result<StepBean>)
    ensures r.Err? ==> r.error == IllegalArgument("Invalid Saga Step Name: " + name)
  {
    match StepTypeValueOf(name)
    case Err(_) => Err(IllegalArgument("Invalid Saga Step Name: " + name))
    case Ok(t) =>
      match GetSagaStep(t)
      case Err(_) => Err(IllegalArgument("Invalid Saga Step Name: " + name))
      case Ok(bean) => Ok(bean)
  }

  /** `getStepName()` of each bean. */
  function BeanName(b: StepBean): string
  {
    match b
    case DebitSourceWalletBean => DebitSourceWalletStep.StepName
    case CreditDestinationWalletBean => CreditDestinationWalletStep.StepName
    case UpdateTransactionStatusBean => UpdateTransactionStatusStep.StepName
  }

  /** `getStepOrder()` of each bean. */
  function BeanOrder(b: StepBean): int
  {
    match b
    case DebitSourceWalletBean => DebitSourceWalletStep.StepOrder
    case CreditDestinationWalletBean => CreditDestinationWalletStep.StepOrder
    case UpdateTransactionStatusBean => UpdateTransactionStatusStep.StepOrder
  }

  /** The map registers every step type, so `getSagaStep` never throws. */
  lemma GetSagaStepTotal(t: SagaStepType)
    ensures GetSagaStep(t).Ok?
    ensures BeanName(GetSagaStep(t).value) == StepTypeName(t)
  {
  }

  /**
   * `getSagaStepByName` succeeds iff the name is exactly one of the three
   * constant names, and then gives the bean whose own name it is.
   */
  lemma GetSagaStepByNameExact(name: string)
    ensures GetSagaStepByName(name).Ok? <==>
      name == "DEBIT_SOURCE_WALLET" || name == "CREDIT_DESTINATION_WALLET" || name == "UPDATE_TRANSACTION_STATUS"
    ensures GetSagaStepByName(name).Ok? ==> BeanName(GetSagaStepByName(name).value) == name
  {
    match StepTypeValueOf(name)
    case Err(_) =>
    case Ok(t) => GetSagaStepTotal(t);
  }

  /** Each step's constant name resolves to that step's own bean. */
  lemma BeanOfStepName()
    ensures GetSagaStepByName(DebitSourceWalletStep.StepName) == Ok(DebitSourceWalletBean)
    ensures GetSagaStepByName(CreditDestinationWalletStep.StepName) == Ok(CreditDestinationWalletBean)
    ensures GetSagaStepByName(UpdateTransactionStatusStep.StepName) == Ok(UpdateTransactionStatusBean)
  {
    GetSagaStepByNameExact(DebitSourceWalletStep.StepName);
    GetSagaStepByNameExact(CreditDestinationWalletStep.StepName);
    GetSagaStepByNameExact(UpdateTransactionStatusStep.StepName);
  }

  /**
   * The transfer saga runs DEBIT_SOURCE_WALLET, CREDIT_DESTINATION_WALLET and
   * UPDATE_TRANSACTION_STATUS in that order, and each registered bean's own
   * order is its position in the list plus one.
   */
  lemma TransferStepsInOrder()
    ensures |GetStepsForSaga(TransactionTransfer)| == 3
    ensures forall k :: 0 <= k < 3 ==>
      var t := GetStepsForSaga(TransactionTransfer)[k];
      GetSagaStep(t).Ok? && BeanOrder(GetSagaStep(t).value) == k + 1
    ensures seq(3, k requires 0 <= k < 3 => StepTypeName(GetStepsForSaga(TransactionTransfer)[k]))
      == ["DEBIT_SOURCE_WALLET", "CREDIT_DESTINATION_WALLET", "UPDATE_TRANSACTION_STATUS"]
  {
  }

  /** `execute` of the given bean. */
  function RunExecute(b: StepBean, db: Db, c: ContextState): StepEffect
  {
    match b
    case DebitSourceWalletBean => DebitSourceWalletStep.ExecuteSpec(db, c)
    case CreditDestinationWalletBean => CreditDestinationWalletStep.ExecuteSpec(db, c)
    case UpdateTransactionStatusBean => UpdateTransactionStatusStep.ExecuteSpec(db, c)
  }

  /** `compensate` of the given bean. */
  function RunCompensate(b: StepBean, db: Db, c: ContextState): StepEffect
  {
    match b
    case DebitSourceWalletBean => DebitSourceWalletStep.CompensateSpec(db, c)
    case CreditDestinationWalletBean => CreditDestinationWalletStep.CompensateSpec(db, c)
    case UpdateTransactionStatusBean => UpdateTransactionStatusStep.CompensateSpec(db, c)
  }

  /**
   * The concrete steps never return false: each call returns true or throws,
   * and a call that throws leaves the store unchanged.
   */
  lemma StepsReturnTrueOrThrow(b: StepBean, db: Db, c: ContextState)
    ensures RunExecute(b, db, c).outcome != Returned(false)
    ensures RunCompensate(b, db, c).outcome != Returned(false)
    ensures RunExecute(b, db, c).outcome.Threw? ==> RunExecute(b, db, c).db == db
    ensures RunCompensate(b, db, c).outcome.Threw? ==> RunCompensate(b, db, c).db == db
  {
  }

  /** The steps change wallets and transactions only: saga instances, step records and the clock are untouched, and no row is added. */
  lemma StepsTouchOnlyLedger(b: StepBean, db: Db, c: ContextState)
    ensures RunExecute(b, db, c).db.instances == db.instances && RunExecute(b, db, c).db.steps == db.steps
    ensures RunCompensate(b, db, c).db.instances == db.instances && RunCompensate(b, db, c).db.steps == db.steps
    ensures RunExecute(b, db, c).db.clock == db.clock && RunCompensate(b, db, c).db.clock == db.clock
    ensures |RunExecute(b, db, c).db.wallets| == |db.wallets| && |RunCompensate(b, db, c).db.wallets| == |db.wallets|
    ensures |RunExecute(b, db, c).db.transactions| == |db.transactions|
    ensures |RunCompensate(b, db, c).db.transactions| == |db.transactions|
  {
    StepsIgnoreSagaTables(b, db, c, db.instances, db.steps);
  }

  /**
   * The steps neither read nor write the saga tables: running a step over a
   * store whose instance and step tables differ gives the same effect on the
   * ledger, with those tables carried through unchanged.
   */
  lemma StepsIgnoreSagaTables(b: StepBean, db: Db, c: ContextState, instances: seq<SagaInstance>, steps: seq<StepRecord>)
    ensures var e := RunExecute(b, db, c);
      && e.db == db.(wallets := e.db.wallets, transactions := e.db.transactions)
      && |e.db.wallets| == |db.wallets| && |e.db.transactions| == |db.transactions|
      && RunExecute(b, db.(instances := instances, steps := steps), c) == e.(db := e.db.(instances := instances, steps := steps))
    ensures var e := RunCompensate(b, db, c);
      && e.db == db.(wallets := e.db.wallets, transactions := e.db.transactions)
      && |e.db.wallets| == |db.wallets| && |e.db.transactions| == |db.transactions|
      && RunCompensate(b, db.(instances := instances, steps := steps), c) == e.(db := e.db.(instances := instances, steps := steps))
  {
    match b
    case DebitSourceWalletBean => DebitSourceWalletStep.TouchesOnlyLedger(db, c, instances, steps);
    case CreditDestinationWalletBean => CreditDestinationWalletStep.TouchesOnlyLedger(db, c, instances, steps);
    case UpdateTransactionStatusBean => UpdateTransactionStatusStep.TouchesOnlyLedger(db, c, instances, steps);
  }

  /** The context keys each bean records its values under. */
  function RecordedKeys(b: StepBean): set<string>
  {
    match b
    case DebitSourceWalletBean => DebitSourceWalletStep.RecordedKeys
    case CreditDestinationWalletBean => CreditDestinationWalletStep.RecordedKeys
    case UpdateTransactionStatusBean => UpdateTransactionStatusStep.RecordedKeys
  }

  /**
   * A step call changes the context only under its own recorded keys; in
   * particular no step writes `transactionId`.
   */
  lemma StepsWriteOnlyRecordedKeys(b: StepBean, db: Db, c: ContextState)
    ensures SameOutside(c, RunExecute(b, db, c).ctx, RecordedKeys(b))
    ensures SameOutside(c, RunCompensate(b, db, c).ctx, RecordedKeys(b))
    ensures "transactionId" !in RecordedKeys(b)
  {
    match b
    case DebitSourceWalletBean => DebitSourceWalletStep.ExecuteWritesOnlyRecordedKeys(db, c); DebitSourceWalletStep.CompensateWritesOnlyRecordedKeys(db, c);
    case CreditDestinationWalletBean => CreditDestinationWalletStep.ExecuteWritesOnlyRecordedKeys(db, c); CreditDestinationWalletStep.CompensateWritesOnlyRecordedKeys(db, c);
    case UpdateTransactionStatusBean => UpdateTransactionStatusStep.ExecuteWritesOnlyRecordedKeys(db, c); UpdateTransactionStatusStep.CompensateWritesOnlyRecordedKeys(db, c);
  }

  method Execute(b: StepBean, store: Store, ctx: SagaContext) returns (outcome: StepOutcome)
    modifies store, ctx
    ensures StepEffect(store.State(), ctx.Snapshot(), outcome) == RunExecute(b, old(store.State()), old(ctx.Snapshot()))
  {
    match b
    case DebitSourceWalletBean => outcome := DebitSourceWalletStep.Execute(store, ctx);
    case CreditDestinationWalletBean => outcome := CreditDestinationWalletStep.Execute(store, ctx);
    case UpdateTransactionStatusBean => outcome := UpdateTransactionStatusStep.Execute(store, ctx);
  }

  method Compensate(b: StepBean, store: Store, ctx: SagaContext) returns (outcome: StepOutcome)
    modifies store, ctx
    ensures StepEffect(store.State(), ctx.Snapshot(), outcome) == RunCompensate(b, old(store.State()), old(ctx.Snapshot()))
  {
    match b
    case DebitSourceWalletBean => outcome := DebitSourceWalletStep.Compensate(store, ctx);
    case CreditDestinationWalletBean => outcome := CreditDestinationWalletStep.Compensate(store, ctx);
    case UpdateTransactionStatusBean => outcome := UpdateTransactionStatusStep.Compensate(store, ctx);
  }
}
