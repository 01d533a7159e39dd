/**
 * The transfer driver: it builds the transfer's saga context, starts the saga
 * together with a PENDING transaction linked to it, runs the registry's steps
 * in order until one fails, completes or compensates the saga, and sets the
 * transaction's final status.
 *
 * As written, the context that `executeStep` reads is the snapshot saved by
 * `startSaga`, which has no `transactionId`; the corrected start below saves
 * the context again once the transaction exists.
 */
module TransferSagaService {
  import opened Base
  import opened Enums
  import opened Context
  import opened Entities
  import opened Persistence
  import opened SagaStepInterface
  import opened SagaStepFactory
  import opened SagaOrchestrator
  import opened WalletEntity
  import DebitSourceWalletStep
  import CreditDestinationWalletStep
  import UpdateTransactionStatusStep

  /** `TransactionRequestDTO`: the description may be null; the other fields are validated as non-null. */
  datatype TransferRequest = TransferRequest(
    description: Option<string>,
    sourceWalletId: int,
    destinationWalletId: int,
    amount: Money,
    txType: TxType)

  /** `TransactionResponseDTO`: a transaction's id and its nine other fields. */
  datatype TransactionResponse = TransactionResponse(
    id: int,
    description: Option<string>,
    sourceWalletId: int,
    destinationWalletId: int,
    amount: Money,
    status: Option<TxStatus>,
    txType: TxType,
    sagaInstanceId: Option<int>,
    createdDate: int,
    updatedDate: int)

  /** `mapToResponseDTO`. */
  function MapToResponse(id: int, t: Transaction): TransactionResponse
  {
    TransactionResponse(id, t.description, t.sourceWalletId, t.destinationWalletId, t.amount,
                        t.status, t.txType, t.sagaInstanceId, t.createdDate, t.updatedDate)
  }

  /** The transaction a response describes. */
  function ResponseTransaction(r: TransactionResponse): Transaction
  {
    Transaction(r.description, r.sourceWalletId, r.destinationWalletId, r.amount,
                r.status, r.txType, r.sagaInstanceId, r.createdDate, r.updatedDate)
  }

  /** The mapping copies every field unchanged: it loses nothing, and every response is the mapping of its own transaction. */
  lemma MapToResponseCopiesEveryField(id: int, t: Transaction, r: TransactionResponse)
    ensures MapToResponse(id, t).id == id && ResponseTransaction(MapToResponse(id, t)) == t
    ensures MapToResponse(r.id, ResponseTransaction(r)) == r
  {
  }

  // ---------------------------------------------------------------- createTransactionAndStartSaga

  /** The six keys a transfer's context starts with. */
  const TransferKeys: set<string> := {"sourceWalletId", "destinationWalletId", "amount", "description", "transactionType", "newStatus"}

  lemma TransferKeysCount()
    ensures |TransferKeys| == 6 && "transactionId" !in TransferKeys
  {
    var s0: set<string> := {};
    var s1 := s0 + {"sourceWalletId"};
    var s2 := s1 + {"destinationWalletId"};
    assert "destinationWalletId" !in s1;
    var s3 := s2 + {"amount"};
    assert "amount" !in s2;
    var s4 := s3 + {"description"};
    assert "description" !in s3;
    var s5 := s4 + {"transactionType"};
    assert "transactionType" !in s4;
    var s6 := s5 + {"newStatus"};
    assert "newStatus" !in s5;
    assert s6 == TransferKeys;
  }

  /** The data map of a transfer's context. */
  function TransferData(req: TransferRequest): (data: map<string, Value>)
    ensures data.Keys == TransferKeys
  {
    map[
      "sourceWalletId" := LongV(req.sourceWalletId),
      "destinationWalletId" := LongV(req.destinationWalletId),
      "amount" := DecimalV(req.amount),
      "description" := StringV(if req.description.Some? then req.description.value else ""),
      "transactionType" := TxTypeV(req.txType),
      "newStatus" := StringV(TxStatusName(TxSuccess))]
  }

  /**
   * The context a transfer starts with: the two wallet ids as `Long`, the
   * amount as `BigDecimal`, the description ("" for null), the type and the
   * status to set, "SUCCESS"; the saga type, and no saga instance id yet.
   */
  function BuildContext(req: TransferRequest): (c: ContextState)
    ensures c.Get("sourceWalletId") == LongV(req.sourceWalletId)
    ensures c.Get("destinationWalletId") == LongV(req.destinationWalletId)
    ensures c.Get("amount") == DecimalV(req.amount) && c.Get("transactionType") == TxTypeV(req.txType)
    ensures c.Get("description") == StringV(if req.description.Some? then req.description.value else "")
    ensures c.Get("newStatus") == StringV("SUCCESS")
    ensures c.Size() == 6 && !c.ContainsKey("transactionId")
    ensures c.sagaInstanceId.None? && c.sagaType == Some("TRANSACTION_TRANSFER")
    ensures c.metadata == map[] && !c.compensating && c.retryCount == 0
  {
    var data := TransferData(req);
    TransferKeysCount();
    assert |data| == |data.Keys|;
    Build(None, Some(SagaTypeName(TransactionTransfer)), data)
  }

  /** What the start of a transfer leaves: the store, the two new ids, and the in-memory context. */
  datatype Created = Created(db: Db, transactionId: nat, sagaInstanceId: nat, ctx: ContextState)

  /** The transaction saved for a request: PENDING, linked to the saga, created and updated now. */
  function PendingTransaction(req: TransferRequest, sagaInstanceId: nat, now: int): (t: Transaction)
    ensures t.status == Some(TxPending) && t.sagaInstanceId == Some(sagaInstanceId)
    ensures t.createdDate == now && t.updatedDate == now
  {
    Transaction(req.description, req.sourceWalletId, req.destinationWalletId, req.amount,
                Some(TxPending), req.txType, Some(sagaInstanceId), now, now)
  }

  /**
   * `createTransactionAndStartSaga`: the saga starts first, so the snapshot
   * it saves holds neither the saga instance id nor the transaction id; the
   * transaction is then saved PENDING with the new saga id, and its id goes
   * only into the in-memory context.
   */
  function CreateTransactionAndStartSagaSpec(db: Db, req: TransferRequest): (r: Created)
    ensures r.sagaInstanceId == |db.instances| && |r.db.instances| == |db.instances| + 1
    ensures r.db.instances[..|db.instances|] == db.instances
    ensures r.db.instances[r.sagaInstanceId].status == SagaStarted
    ensures r.db.instances[r.sagaInstanceId].context == BuildContext(req)
    ensures !r.db.instances[r.sagaInstanceId].context.ContainsKey("transactionId")
    ensures r.db.instances[r.sagaInstanceId].context.sagaInstanceId.None?
    ensures r.transactionId == |db.transactions| && r.db.transactions == db.transactions + [PendingTransaction(req, r.sagaInstanceId, db.clock)]
    ensures r.ctx == BuildContext(req).(sagaInstanceId := Some(r.sagaInstanceId)).Put("transactionId", LongV(r.transactionId))
    ensures r.db.steps == db.steps && r.db.wallets == db.wallets && r.db.clock == db.clock
  {
    var c := BuildContext(req);
    var started := StartSagaSpec(db, c);
    var inserted := AddTransaction(started.0, PendingTransaction(req, started.1, db.clock));
    Created(inserted.0, inserted.1, started.1, c.(sagaInstanceId := Some(started.1)).Put("transactionId", LongV(inserted.1)))
  }

  method CreateTransactionAndStartSaga(store: Store, req: TransferRequest) returns (transactionId: nat, sagaInstanceId: nat, ctx: SagaContext)
    modifies store
    ensures fresh(ctx)
    ensures Created(store.State(), transactionId, sagaInstanceId, ctx.Snapshot()) == CreateTransactionAndStartSagaSpec(old(store.State()), req)
  {
    var now := store.clock;
    ctx := new SagaContext.FromState(BuildContext(req));
    sagaInstanceId := StartSaga(store, ctx);
    ctx.SetSagaInstanceId(Some(sagaInstanceId));
    transactionId := store.InsertTransaction(PendingTransaction(req, sagaInstanceId, now));
    ctx.Put("transactionId", LongV(transactionId));
  }

  /**
   * The evidently intended start: as above, and then the context holding the
   * two ids is saved into the instance, so the steps can read `transactionId`.
   */
  function CreateTransactionAndStartSagaCorrectedSpec(db: Db, req: TransferRequest): (r: Created)
    ensures r.sagaInstanceId == |db.instances| && |r.db.instances| == |db.instances| + 1
    ensures r.db.instances[..|db.instances|] == db.instances
    ensures r.db.instances[r.sagaInstanceId].status == SagaStarted
    ensures r.db.instances[r.sagaInstanceId].context == r.ctx
    ensures r.ctx.Get("transactionId") == LongV(r.transactionId) && r.ctx.sagaInstanceId == Some(r.sagaInstanceId)
    ensures SameOutside(BuildContext(req).(sagaInstanceId := Some(r.sagaInstanceId)), r.ctx, {"transactionId"})
    ensures r.transactionId == |db.transactions| && r.db.transactions == db.transactions + [PendingTransaction(req, r.sagaInstanceId, db.clock)]
    ensures r.db.steps == db.steps && r.db.wallets == db.wallets && r.db.clock == db.clock
  {
    var created := CreateTransactionAndStartSagaSpec(db, req);
    var id := created.sagaInstanceId;
    created.(db := WithInstance(created.db, id, created.db.instances[id].(context := created.ctx)))
  }

  method CreateTransactionAndStartSagaCorrected(store: Store, req: TransferRequest) returns (transactionId: nat, sagaInstanceId: nat, ctx: SagaContext)
    modifies store
    ensures fresh(ctx)
    ensures Created(store.State(), transactionId, sagaInstanceId, ctx.Snapshot()) == CreateTransactionAndStartSagaCorrectedSpec(old(store.State()), req)
  {
    transactionId, sagaInstanceId, ctx := CreateTransactionAndStartSaga(store, req);
    store.SaveInstance(sagaInstanceId, store.instances[sagaInstanceId].(context := ctx.Snapshot()));
  }

  // ---------------------------------------------------------------- executeTransferSaga

  /** One `executeStep` call of the loop: the name and order passed, and what it returned or threw. */
  datatype StepCall = StepCall(stepName: string, stepOrder: int, result: Result<bool>)

  /** How the loop over the steps ended: the store, the calls made, and the loop's two flags. */
  datatype Run = Run(db: Db, calls: seq<StepCall>, allSucceeded: bool, failedStepName: Option<string>)

  /**
   * The loop of `executeTransferSaga`: `executeStep` on each step type's name
   * with orders `stepOrder`, `stepOrder + 1`, ..., stopping at the first call
   * that returns false or throws.
   */
  function RunSteps(db: Db, sagaInstanceId: int, steps: seq<SagaStepType>, stepOrder: int): Run
    decreases |steps|
  {
    if steps == [] then Run(db, [], true, None)
    else
      var stepName := StepTypeName(steps[0]);
      var call := ExecuteStepSpec(db, sagaInstanceId, stepName, stepOrder);
      var made := StepCall(stepName, stepOrder, call.result);
      if call.result == Ok(true) then
        var rest := RunSteps(call.db, sagaInstanceId, steps[1..], stepOrder + 1);
        Run(rest.db, [made] + rest.calls, rest.allSucceeded, rest.failedStepName)
      else Run(call.db, [made], false, Some(stepName))
  }

  /**
   * The loop's trace: step `k` is called with the `k`-th name and order
   * `stepOrder + k`; every call but the last returned true; the run succeeded
   * exactly when every step was called and returned true, and otherwise the
   * failed step is the last one called.
   */
  lemma RunStepsTrace(db: Db, sagaInstanceId: int, steps: seq<SagaStepType>, stepOrder: int)
    ensures var r := RunSteps(db, sagaInstanceId, steps, stepOrder);
      && |r.calls| <= |steps|
      && (forall k :: 0 <= k < |r.calls| ==> r.calls[k].stepName == StepTypeName(steps[k]) && r.calls[k].stepOrder == stepOrder + k)
      && (forall k :: 0 <= k < |r.calls| - 1 ==> r.calls[k].result == Ok(true))
      && (r.allSucceeded <==> |r.calls| == |steps| && forall k :: 0 <= k < |r.calls| ==> r.calls[k].result == Ok(true))
      && (r.allSucceeded ==> r.failedStepName.None?)
      && (!r.allSucceeded ==> |r.calls| > 0 && r.calls[|r.calls| - 1].result != Ok(true) && r.failedStepName == Some(r.calls[|r.calls| - 1].stepName))
  {
    RunStepsIsRunStepsBy(db, sagaInstanceId, steps, stepOrder);
    RunStepsByTrace(ExecutorOf(sagaInstanceId), db, steps, stepOrder);
  }

  /** `executeStep` on one saga instance, as a function of the store, the step name and the order. */
  function ExecutorOf(sagaInstanceId: int): (Db, string, int) -> Effect<bool>
  {
    (d: Db, stepName: string, stepOrder: int) => ExecuteStepSpec(d, sagaInstanceId, stepName, stepOrder)
  }

  /** The loop of `executeTransferSaga` over any step executor `exec`. */
  function RunStepsBy(exec: (Db, string, int) -> Effect<bool>, db: Db, steps: seq<SagaStepType>, stepOrder: int): Run
    decreases |steps|
  {
    if steps == [] then Run(db, [], true, None)
    else
      var stepName := StepTypeName(steps[0]);
      var call := exec(db, stepName, stepOrder);
      var made := StepCall(stepName, stepOrder, call.result);
      if call.result == Ok(true) then
        var rest := RunStepsBy(exec, call.db, steps[1..], stepOrder + 1);
        Run(rest.db, [made] + rest.calls, rest.allSucceeded, rest.failedStepName)
      else Run(call.db, [made], false, Some(stepName))
  }

  /** The loop over the instance's `executeStep` is the loop over its executor. */
  lemma {:induction false} RunStepsIsRunStepsBy(db: Db, sagaInstanceId: int, steps: seq<SagaStepType>, stepOrder: int)
    ensures RunSteps(db, sagaInstanceId, steps, stepOrder) == RunStepsBy(ExecutorOf(sagaInstanceId), db, steps, stepOrder)
    decreases |steps|
  {
    if steps != [] {
      var call := ExecuteStepSpec(db, sagaInstanceId, StepTypeName(steps[0]), stepOrder);
      assert ExecutorOf(sagaInstanceId)(db, StepTypeName(steps[0]), stepOrder) == call;
      if call.result == Ok(true) {
        RunStepsIsRunStepsBy(call.db, sagaInstanceId, steps[1..], stepOrder + 1);
      }
    }
  }

  /** The trace of the loop, whatever each step does. */
  lemma RunStepsByTrace(exec: (Db, string, int) -> Effect<bool>, db: Db, steps: seq<SagaStepType>, stepOrder: int)
    ensures var r := RunStepsBy(exec, db, steps, stepOrder);
      && |r.calls| <= |steps|
      && (forall k :: 0 <= k < |r.calls| ==> r.calls[k].stepName == StepTypeName(steps[k]) && r.calls[k].stepOrder == stepOrder + k)
      && (forall k :: 0 <= k < |r.calls| - 1 ==> r.calls[k].result == Ok(true))
      && (r.allSucceeded <==> |r.calls| == |steps| && forall k :: 0 <= k < |r.calls| ==> r.calls[k].result == Ok(true))
      && (r.allSucceeded ==> r.failedStepName.None?)
      && (!r.allSucceeded ==> |r.calls| > 0 && r.calls[|r.calls| - 1].result != Ok(true) && r.failedStepName == Some(r.calls[|r.calls| - 1].stepName))
  {
    RunStepsByNames(exec, db, steps, stepOrder);
    RunStepsByResults(exec, db, steps, stepOrder);
    RunStepsByFailure(exec, db, steps, stepOrder);
  }

  /** The loop calls a prefix of the steps, in order, with consecutive orders. */
  lemma {:induction false} RunStepsByNames(exec: (Db, string, int) -> Effect<bool>, db: Db, steps: seq<SagaStepType>, stepOrder: int)
    ensures var r := RunStepsBy(exec, db, steps, stepOrder);
      && |r.calls| <= |steps|
      && (forall k :: 0 <= k < |r.calls| ==> r.calls[k].stepName == StepTypeName(steps[k]) && r.calls[k].stepOrder == stepOrder + k)
    decreases |steps|
  {
    if steps != [] {
      var call := exec(db, StepTypeName(steps[0]), stepOrder);
      if call.result == Ok(true) {
        RunStepsByNames(exec, call.db, steps[1..], stepOrder + 1);
      }
    }
  }

  /** Every call but the last returned true, and the run succeeded iff every step was called and returned true. */
  lemma {:induction false} RunStepsByResults(exec: (Db, string, int) -> Effect<bool>, db: Db, steps: seq<SagaStepType>, stepOrder: int)
    ensures var r := RunStepsBy(exec, db, steps, stepOrder);
      && (forall k :: 0 <= k < |r.calls| - 1 ==> r.calls[k].result == Ok(true))
      && (r.allSucceeded <==> |r.calls| == |steps| && forall k :: 0 <= k < |r.calls| ==> r.calls[k].result == Ok(true))
    decreases |steps|
  {
    if steps != [] {
      var call := exec(db, StepTypeName(steps[0]), stepOrder);
      if call.result == Ok(true) {
        RunStepsByResults(exec, call.db, steps[1..], stepOrder + 1);
        var rest := RunStepsBy(exec, call.db, steps[1..], stepOrder + 1).calls;
        var calls := RunStepsBy(exec, db, steps, stepOrder).calls;
        assert calls == [StepCall(StepTypeName(steps[0]), stepOrder, call.result)] + rest;
        forall k | 0 <= k < |rest|
          ensures calls[k + 1] == rest[k]
        {
        }
      } else {
        assert RunStepsBy(exec, db, steps, stepOrder).calls[0].result != Ok(true);
      }
    }
  }

  /** A failed run names the last step called, which did not return true; a successful one names none. */
  lemma {:induction false} RunStepsByFailure(exec: (Db, string, int) -> Effect<bool>, db: Db, steps: seq<SagaStepType>, stepOrder: int)
    ensures var r := RunStepsBy(exec, db, steps, stepOrder);
      && (r.allSucceeded ==> r.failedStepName.None?)
      && (!r.allSucceeded ==> |r.calls| > 0 && r.calls[|r.calls| - 1].result != Ok(true) && r.failedStepName == Some(r.calls[|r.calls| - 1].stepName))
    decreases |steps|
  {
    if steps != [] {
      var call := exec(db, StepTypeName(steps[0]), stepOrder);
      if call.result == Ok(true) {
        RunStepsByFailure(exec, call.db, steps[1..], stepOrder + 1);
      }
    }
  }

  /** The loop adds no instance, wallet or transaction and leaves the clock alone. */
  lemma {:induction false} RunStepsKeepsShape(db: Db, sagaInstanceId: int, steps: seq<SagaStepType>, stepOrder: int)
    ensures var r := RunSteps(db, sagaInstanceId, steps, stepOrder);
      |r.db.instances| == |db.instances| && |r.db.wallets| == |db.wallets| && |r.db.transactions| == |db.transactions| && r.db.clock == db.clock
    decreases |steps|
  {
    if steps != [] {
      var stepName := StepTypeName(steps[0]);
      var call := ExecuteStepSpec(db, sagaInstanceId, stepName, stepOrder);
      ExecuteStepKeepsShape(db, sagaInstanceId, stepName, stepOrder);
      if call.result == Ok(true) {
        RunStepsKeepsShape(call.db, sagaInstanceId, steps[1..], stepOrder + 1);
      }
    }
  }

  /** A run that continues after the calls already made. */
  function After(made: seq<StepCall>, rest: Run): Run
  {
    rest.(calls := made + rest.calls)
  }

  /**
   * One turn of the loop, seen from the whole run: if the calls made so far
   * and the run from step `i` on make up the whole run, then so do the calls
   * made with step `i` and either the run from step `i + 1` on (when step `i`
   * returned true) or nothing more (otherwise).
   */
  lemma RunStepsResume(db0: Db, sagaInstanceId: int, steps: seq<SagaStepType>, i: nat, made: seq<StepCall>,
                       before: Db, after: Db, result: Result<bool>)
    requires i < |steps|
    requires RunSteps(db0, sagaInstanceId, steps, 1) == After(made, RunSteps(before, sagaInstanceId, steps[i..], i + 1))
    requires Effect(after, result) == ExecuteStepSpec(before, sagaInstanceId, StepTypeName(steps[i]), i + 1)
    ensures result == Ok(true) ==>
      RunSteps(db0, sagaInstanceId, steps, 1) ==
      After(made + [StepCall(StepTypeName(steps[i]), i + 1, result)], RunSteps(after, sagaInstanceId, steps[i + 1..], i + 2))
    ensures result != Ok(true) ==>
      RunSteps(db0, sagaInstanceId, steps, 1) ==
      Run(after, made + [StepCall(StepTypeName(steps[i]), i + 1, result)], false, Some(StepTypeName(steps[i])))
  {
    var call := StepCall(StepTypeName(steps[i]), i + 1, result);
    assert steps[i..][0] == steps[i] && steps[i..][1..] == steps[i + 1..];
    var rest := RunSteps(after, sagaInstanceId, steps[i + 1..], i + 2);
    if result == Ok(true) {
      assert RunSteps(before, sagaInstanceId, steps[i..], i + 1) == After([call], rest);
      assert made + ([call] + rest.calls) == (made + [call]) + rest.calls;
    } else {
      assert RunSteps(before, sagaInstanceId, steps[i..], i + 1) == Run(after, [call], false, Some(StepTypeName(steps[i])));
    }
  }

  /**
   * After the loop: `completeSaga` when every step succeeded, else
   * `compensateSaga`; an exception from either escapes, otherwise the flag
   * is returned.
   */
  function FinishTransferSaga(run: Run, sagaInstanceId: int): Effect<bool>
  {
    var last := if run.allSucceeded then CompleteSagaSpec(run.db, sagaInstanceId) else CompensateSagaSpec(run.db, sagaInstanceId);
    Effect(last.db, match last.result case Ok(_) => Ok(run.allSucceeded) case Err(e) => Err(e))
  }

  /** `executeTransferSaga` over the transfer saga's steps, numbered from 1. */
  function ExecuteTransferSagaSpec(db: Db, sagaInstanceId: int): Effect<bool>
  {
    FinishTransferSaga(RunSteps(db, sagaInstanceId, GetStepsForSaga(TransactionTransfer), 1), sagaInstanceId)
  }

  method ExecuteTransferSaga(store: Store, sagaInstanceId: int) returns (r: Result<bool>)
    modifies store
    ensures Effect(store.State(), r) == ExecuteTransferSagaSpec(old(store.State()), sagaInstanceId)
  {
    var steps := GetStepsForSaga(TransactionTransfer);
    var allStepsSucceeded, failedStepName, made := RunTransferSteps(store, sagaInstanceId, steps);
    r := FinishTransfer(store, sagaInstanceId, allStepsSucceeded, Run(store.State(), made, allStepsSucceeded, failedStepName));
  }

  /** The step loop of `executeTransferSaga`: run `steps` in order from order 1, stopping at the first that does not return true. */
  method RunTransferSteps(store: Store, sagaInstanceId: int, steps: seq<SagaStepType>)
    returns (allStepsSucceeded: bool, failedStepName: Option<string>, ghost made: seq<StepCall>)
    modifies store
    ensures Run(store.State(), made, allStepsSucceeded, failedStepName) == RunSteps(old(store.State()), sagaInstanceId, steps, 1)
  {
    ghost var db0 := store.State();
    allStepsSucceeded := true;
    failedStepName := None;
    var stepOrder := 1;
    made := [];
    var i := 0;
    while i < |steps|
      invariant 0 <= i <= |steps| && stepOrder == i + 1
      invariant allStepsSucceeded && failedStepName.None?
      invariant RunSteps(db0, sagaInstanceId, steps, 1) == After(made, RunSteps(store.State(), sagaInstanceId, steps[i..], stepOrder))
    {
      var stepName := StepTypeName(steps[i]);
      ghost var before := store.State();
      var stepResult := ExecuteStep(store, sagaInstanceId, stepName, stepOrder);
      RunStepsResume(db0, sagaInstanceId, steps, i, made, before, store.State(), stepResult);
      made := made + [StepCall(stepName, stepOrder, stepResult)];
      stepOrder := stepOrder + 1;
      if stepResult != Ok(true) {
        allStepsSucceeded := false;
        failedStepName := Some(stepName);
        return;
      }
      i := i + 1;
    }
    assert steps[i..] == [] && made + [] == made;
  }

  /** The end of `executeTransferSaga`: complete or compensate the saga after the loop `run`. */
  method FinishTransfer(store: Store, sagaInstanceId: int, allStepsSucceeded: bool, ghost run: Run) returns (r: Result<bool>)
    requires run.db == store.State() && run.allSucceeded == allStepsSucceeded
    modifies store
    ensures Effect(store.State(), r) == FinishTransferSaga(run, sagaInstanceId)
  {
    if allStepsSucceeded {
      var completed := CompleteSaga(store, sagaInstanceId);
      r := match completed case Ok(_) => Ok(true) case Err(e) => Err(e);
    } else {
      var compensated := CompensateSaga(store, sagaInstanceId);
      r := match compensated case Ok(_) => Ok(false) case Err(e) => Err(e);
    }
  }

  // ---------------------------------------------------------------- updateTransactionStatus

  /** The status a finished transfer gets. */
  function FinalStatus(success: bool): TxStatus
  {
    if success then TxSuccess else TxFailed
  }

  /** `updateTransactionStatus`: SUCCESS or FAILED and the time of the update; an unknown id throws. */
  function UpdateTransactionStatusSpec(db: Db, transactionId: int, success: bool): (r: Effect<()>)
    ensures r.result.Ok? <==> 0 <= transactionId < |db.transactions|
    ensures r.result.Err? ==> r == Effect(db, Err(Runtime("Transaction not found with id: " + Show(transactionId))))
    ensures r.result.Ok? ==>
      r.db.transactions == db.transactions[transactionId := db.transactions[transactionId].(status := Some(FinalStatus(success)), updatedDate := db.clock)]
    ensures r.db.instances == db.instances && r.db.steps == db.steps && r.db.wallets == db.wallets && r.db.clock == db.clock
  {
    match FindTransaction(db, Some(transactionId))
    case Ok(Some(id)) =>
      Effect(WithTransaction(db, id, db.transactions[id].(status := Some(FinalStatus(success)), updatedDate := db.clock)), Ok(()))
    case _ => Effect(db, Err(Runtime("Transaction not found with id: " + Show(transactionId))))
  }

  method UpdateTransactionStatus(store: Store, transactionId: int, success: bool) returns (r: Result<()>)
    modifies store
    ensures Effect(store.State(), r) == UpdateTransactionStatusSpec(old(store.State()), transactionId, success)
  {
    if !(0 <= transactionId < |store.transactions|) {
      return Err(Runtime("Transaction not found with id: " + Show(transactionId)));
    }
    var t := store.transactions[transactionId];
    store.SaveTransaction(transactionId, t.(status := Some(FinalStatus(success)), updatedDate := store.clock));
    return Ok(());
  }

  // ---------------------------------------------------------------- initiateTransfer

  /** The rest of `initiateTransfer` once the transaction and the saga exist: run the saga, set the status, map. */
  function RunTransfer(db: Db, transactionId: nat, sagaInstanceId: nat): Effect<TransactionResponse>
  {
    var executed := ExecuteTransferSagaSpec(db, sagaInstanceId);
    match executed.result
    case Err(e) => Effect(executed.db, Err(e))
    case Ok(success) =>
      var updated := UpdateTransactionStatusSpec(executed.db, transactionId, success);
      match updated.result
      case Err(e) => Effect(updated.db, Err(e))
      case Ok(_) => Effect(updated.db, Ok(MapToResponse(transactionId, updated.db.transactions[transactionId])))
  }

  method RunTransferOn(store: Store, transactionId: nat, sagaInstanceId: nat) returns (r: Result<TransactionResponse>)
    modifies store
    ensures Effect(store.State(), r) == RunTransfer(old(store.State()), transactionId, sagaInstanceId)
  {
    var success := ExecuteTransferSaga(store, sagaInstanceId);
    if success.Err? {
      return Err(success.error);
    }
    var updated := UpdateTransactionStatus(store, transactionId, success.value);
    if updated.Err? {
      return Err(updated.error);
    }
    r := Ok(MapToResponse(transactionId, store.transactions[transactionId]));
  }

  /** `initiateTransfer` as written: the steps read the snapshot saved by `startSaga`. */
  function InitiateTransferAsWrittenSpec(db: Db, req: TransferRequest): Effect<TransactionResponse>
  {
    var created := CreateTransactionAndStartSagaSpec(db, req);
    RunTransfer(created.db, created.transactionId, created.sagaInstanceId)
  }

  method InitiateTransferAsWritten(store: Store, req: TransferRequest) returns (r: Result<TransactionResponse>)
    modifies store
    ensures Effect(store.State(), r) == InitiateTransferAsWrittenSpec(old(store.State()), req)
  {
    var transactionId, sagaInstanceId, ctx := CreateTransactionAndStartSaga(store, req);
    r := RunTransferOn(store, transactionId, sagaInstanceId);
  }

  /** `initiateTransfer` with the corrected start: the steps read a context that holds `transactionId`. */
  function InitiateTransferSpec(db: Db, req: TransferRequest): Effect<TransactionResponse>
  {
    var created := CreateTransactionAndStartSagaCorrectedSpec(db, req);
    RunTransfer(created.db, created.transactionId, created.sagaInstanceId)
  }

  method InitiateTransfer(store: Store, req: TransferRequest) returns (r: Result<TransactionResponse>)
    modifies store
    ensures Effect(store.State(), r) == InitiateTransferSpec(old(store.State()), req)
  {
    var transactionId, sagaInstanceId, ctx := CreateTransactionAndStartSagaCorrected(store, req);
    r := RunTransferOn(store, transactionId, sagaInstanceId);
  }

  // ---------------------------------------------------------------- what a transfer ends with

  /**
   * On an existing instance, `executeTransferSaga` never throws: it returns
   * whether every step succeeded. The instance ends COMPLETED when they all
   * did, and COMPENSATED or FAILED otherwise.
   */
  lemma ExecuteTransferSagaOutcome(db: Db, sagaInstanceId: int)
    requires HasInstance(db, sagaInstanceId)
    ensures var run := RunSteps(db, sagaInstanceId, GetStepsForSaga(TransactionTransfer), 1);
      var r := ExecuteTransferSagaSpec(db, sagaInstanceId);
      && r.result == Ok(run.allSucceeded)
      && |r.db.instances| == |db.instances| && |r.db.wallets| == |db.wallets| && |r.db.transactions| == |db.transactions|
      && r.db.clock == db.clock
      && (run.allSucceeded ==>
            && r.db.instances[sagaInstanceId].status == SagaCompleted
            && r.db.wallets == run.db.wallets && r.db.transactions == run.db.transactions)
      && (!run.allSucceeded ==> r.db.instances[sagaInstanceId].status in {SagaCompensated, SagaFailed})
  {
    var run := RunSteps(db, sagaInstanceId, GetStepsForSaga(TransactionTransfer), 1);
    RunStepsKeepsShape(db, sagaInstanceId, GetStepsForSaga(TransactionTransfer), 1);
    FinishTransferSagaOutcome(run, sagaInstanceId);
  }

  /** What follows the loop, on an existing instance: it returns the flag, and completes or compensates. */
  lemma FinishTransferSagaOutcome(run: Run, sagaInstanceId: int)
    requires HasInstance(run.db, sagaInstanceId)
    ensures var r := FinishTransferSaga(run, sagaInstanceId);
      && r.result == Ok(run.allSucceeded)
      && |r.db.instances| == |run.db.instances| && |r.db.wallets| == |run.db.wallets| && |r.db.transactions| == |run.db.transactions|
      && r.db.clock == run.db.clock
      && (run.allSucceeded ==>
            && r.db.instances[sagaInstanceId].status == SagaCompleted
            && r.db.wallets == run.db.wallets && r.db.transactions == run.db.transactions)
      && (!run.allSucceeded ==> r.db.instances[sagaInstanceId].status in {SagaCompensated, SagaFailed})
  {
    if !run.allSucceeded {
      if |CompletedSteps(run.db, sagaInstanceId)| > 0 {
        CompensateSagaOutcome(run.db, sagaInstanceId);
      } else {
        CompensateSagaWithNothingCompleted(run.db, sagaInstanceId);
      }
    }
  }

  /**
   * Once the transaction and the instance exist, `initiateTransfer` returns
   * the transaction's response, never an exception; the transaction ends
   * SUCCESS exactly when every step succeeded, FAILED otherwise.
   */
  lemma RunTransferOutcome(db: Db, transactionId: nat, sagaInstanceId: nat)
    requires HasInstance(db, sagaInstanceId) && transactionId < |db.transactions|
    ensures var run := RunSteps(db, sagaInstanceId, GetStepsForSaga(TransactionTransfer), 1);
      var r := RunTransfer(db, transactionId, sagaInstanceId);
      && r.result.Ok? && r.result.value.id == transactionId
      && r.result.value.status == Some(FinalStatus(run.allSucceeded))
      && transactionId < |r.db.transactions| && ResponseTransaction(r.result.value) == r.db.transactions[transactionId]
      && sagaInstanceId < |r.db.instances| && (r.db.instances[sagaInstanceId].status == SagaCompleted <==> run.allSucceeded)
  {
    ExecuteTransferSagaOutcome(db, sagaInstanceId);
  }

  /**
   * A run that includes UPDATE_TRANSACTION_STATUS, on an instance whose saved
   * context has no `transactionId`, never succeeds: no step writes that key,
   * and UPDATE_TRANSACTION_STATUS cannot succeed without it.
   */
  lemma {:induction false} NoTransactionIdNoSuccess(db: Db, sagaInstanceId: int, steps: seq<SagaStepType>, stepOrder: int)
    requires HasInstance(db, sagaInstanceId) && !db.instances[sagaInstanceId].context.ContainsKey("transactionId")
    requires SagaStepType.UpdateTransactionStatus in steps
    ensures !RunSteps(db, sagaInstanceId, steps, stepOrder).allSucceeded
    decreases |steps|
  {
    var name := StepTypeName(steps[0]);
    if steps[0] == SagaStepType.UpdateTransactionStatus {
      UpdateStepNeedsSavedTransactionId(db, sagaInstanceId, stepOrder);
    } else {
      var call := ExecuteStepSpec(db, sagaInstanceId, name, stepOrder);
      if call.result == Ok(true) {
        GetSagaStepByNameExact(name);
        var bean := GetSagaStepByName(name).value;
        ExecuteStepSavesOnlyRecordedKeys(db, sagaInstanceId, name, stepOrder);
        StepsWriteOnlyRecordedKeys(bean, db, db.instances[sagaInstanceId].context);
        assert !call.db.instances[sagaInstanceId].context.ContainsKey("transactionId");
        assert SagaStepType.UpdateTransactionStatus in steps[1..];
        NoTransactionIdNoSuccess(call.db, sagaInstanceId, steps[1..], stepOrder + 1);
      }
    }
  }

  /**
   * As written, every transfer ends FAILED, whatever the request and the
   * balances: the saved context the steps read has no `transactionId`, so
   * UPDATE_TRANSACTION_STATUS always fails and the saga is compensated.
   */
  lemma TransferAsWrittenAlwaysFails(db: Db, req: TransferRequest)
    ensures var r := InitiateTransferAsWrittenSpec(db, req);
      && r.result.Ok? && r.result.value.status == Some(TxFailed)
      && |db.instances| < |r.db.instances| && r.db.instances[|db.instances|].status != SagaCompleted
  {
    var created := CreateTransactionAndStartSagaSpec(db, req);
    StepsOfTransferIncludeUpdate();
    NoTransactionIdNoSuccess(created.db, created.sagaInstanceId, GetStepsForSaga(TransactionTransfer), 1);
    RunTransferOutcome(created.db, created.transactionId, created.sagaInstanceId);
  }

  // ---------------------------------------------------------------- the as-written transfer, rolled back

  /**
   * The context carries what the two wallet steps read (the amount and both
   * wallet ids) and, as `startSaga` saved it, no `transactionId`.
   */
  ghost predicate CarriesLedgerOnly(c: ContextState, req: TransferRequest)
  {
    && c.Get("amount") == DecimalV(req.amount)
    && c.Get("sourceWalletId") == LongV(req.sourceWalletId)
    && c.Get("destinationWalletId") == LongV(req.destinationWalletId)
    && !c.ContainsKey("transactionId")
  }

  /** A step that writes only its recorded keys keeps what such a context carries. */
  lemma CarriesLedgerOnlyOutside(a: ContextState, b: ContextState, keys: set<string>, req: TransferRequest)
    requires CarriesLedgerOnly(a, req) && SameOutside(a, b, keys)
    requires "amount" !in keys && "sourceWalletId" !in keys && "destinationWalletId" !in keys && "transactionId" !in keys
    ensures CarriesLedgerOnly(b, req)
  {
    assert b.Get("amount") == a.Get("amount") && b.Get("sourceWalletId") == a.Get("sourceWalletId");
    assert b.Get("destinationWalletId") == a.Get("destinationWalletId");
    assert b.ContainsKey("transactionId") == a.ContainsKey("transactionId");
  }

  /** `execute` of DEBIT_SOURCE_WALLET on a funded source, as written: true, the source lowered by the amount, the ledger still carried. */
  lemma DebitExecutesAsWritten(db: Db, c: ContextState, req: TransferRequest)
    requires CarriesLedgerOnly(c, req)
    requires 0 <= req.sourceWalletId < |db.wallets| && db.wallets[req.sourceWalletId].balance >= req.amount
    ensures var e := DebitSourceWalletStep.ExecuteSpec(db, c);
      && e.outcome == Returned(true) && CarriesLedgerOnly(e.ctx, req)
      && e.db.wallets == Moved(db.wallets, req.sourceWalletId, -req.amount) && e.db.transactions == db.transactions
  {
    DebitMovesBalance(db, c, req.amount, req.sourceWalletId);
    DebitSourceWalletStep.ExecuteWritesOnlyRecordedKeys(db, c);
    CarriesLedgerOnlyOutside(c, DebitSourceWalletStep.ExecuteSpec(db, c).ctx, DebitSourceWalletStep.RecordedKeys, req);
  }

  /** `execute` of CREDIT_DESTINATION_WALLET, as written: true, the destination raised by the amount, the ledger still carried. */
  lemma CreditExecutesAsWritten(db: Db, c: ContextState, req: TransferRequest)
    requires CarriesLedgerOnly(c, req) && 0 <= req.destinationWalletId < |db.wallets|
    ensures var e := CreditDestinationWalletStep.ExecuteSpec(db, c);
      && e.outcome == Returned(true) && CarriesLedgerOnly(e.ctx, req)
      && e.db.wallets == Moved(db.wallets, req.destinationWalletId, req.amount) && e.db.transactions == db.transactions
  {
    CreditMovesBalance(db, c, req.amount, req.destinationWalletId);
    CreditDestinationWalletStep.ExecuteWritesOnlyRecordedKeys(db, c);
    CarriesLedgerOnlyOutside(c, CreditDestinationWalletStep.ExecuteSpec(db, c).ctx, CreditDestinationWalletStep.RecordedKeys, req);
  }

  /**
   * A registered step run under a fresh order whose `execute` returns true
   * and keeps the ledger context: `executeStep` returns true, appends one
   * COMPLETED record, and saves that context.
   */
  lemma StepRunsAsWritten(db: Db, sagaInstanceId: int, stepName: string, stepOrder: int, req: TransferRequest)
    requires HasInstance(db, sagaInstanceId) && GetSagaStepByName(stepName).Ok? && CompletedBelow(db, sagaInstanceId, stepOrder)
    requires var e := RunExecute(GetSagaStepByName(stepName).value, db, db.instances[sagaInstanceId].context);
      e.outcome == Returned(true) && CarriesLedgerOnly(e.ctx, req)
    ensures var e := RunExecute(GetSagaStepByName(stepName).value, db, db.instances[sagaInstanceId].context);
      var r := ExecuteStepSpec(db, sagaInstanceId, stepName, stepOrder);
      && r.result == Ok(true)
      && r.db.wallets == e.db.wallets && r.db.transactions == e.db.transactions
      && HasInstance(r.db, sagaInstanceId) && |r.db.instances| == |db.instances|
      && CarriesLedgerOnly(r.db.instances[sagaInstanceId].context, req)
      && CompletedBelow(r.db, sagaInstanceId, stepOrder + 1)
      && r.db.steps == db.steps + [NewStepRecord(sagaInstanceId, stepName, stepOrder).(status := StepCompleted)]
  {
    ExecuteStepOnFreshOrder(db, sagaInstanceId, stepName, stepOrder);
    FreshOrderStepsAfter(db, sagaInstanceId, stepName, stepOrder);
    MarkedAppend(db.steps, NewStepRecord(sagaInstanceId, stepName, stepOrder), StepCompleted);
  }

  /** Appending a record and then setting its status appends the record with that status. */
  lemma MarkedAppend(steps: seq<StepRecord>, rec: StepRecord, status: StepStatus)
    ensures (steps + [rec])[|steps| := rec.(status := status)] == steps + [rec.(status := status)]
  {
  }

  /**
   * UPDATE_TRANSACTION_STATUS as step 3 without a saved `transactionId`:
   * `executeStep` returns false, appends one FAILED record, and changes
   * nothing else.
   */
  lemma UpdateFailsAsWritten(db: Db, sagaInstanceId: int, req: TransferRequest)
    requires HasInstance(db, sagaInstanceId) && CompletedBelow(db, sagaInstanceId, 3)
    requires CarriesLedgerOnly(db.instances[sagaInstanceId].context, req)
    ensures var r := ExecuteStepSpec(db, sagaInstanceId, UpdateTransactionStatusStep.StepName, 3);
      && r.result == Ok(false)
      && r.db.wallets == db.wallets && r.db.transactions == db.transactions && r.db.instances == db.instances
      && |r.db.steps| == |db.steps| + 1 && r.db.steps[..|db.steps|] == db.steps
      && r.db.steps[|db.steps|].sagaInstanceId == sagaInstanceId && r.db.steps[|db.steps|].status == StepFailed
  {
    BeanOfStepName();
    UpdateTransactionStatusStep.NullTransactionIdThrows(db, db.instances[sagaInstanceId].context);
    ExecuteStepOnFreshOrderFails(db, sagaInstanceId, UpdateTransactionStatusStep.StepName, 3);
  }

  /** The as-written run from UPDATE_TRANSACTION_STATUS: it stops there, adding one FAILED record and changing nothing else. */
  lemma RunFromUpdateAsWritten(db: Db, sagaInstanceId: int, req: TransferRequest)
    requires HasInstance(db, sagaInstanceId) && CompletedBelow(db, sagaInstanceId, 3)
    requires CarriesLedgerOnly(db.instances[sagaInstanceId].context, req)
    ensures var run := RunSteps(db, sagaInstanceId, [SagaStepType.UpdateTransactionStatus], 3);
      && !run.allSucceeded
      && run.db.wallets == db.wallets && run.db.transactions == db.transactions && run.db.instances == db.instances
      && |run.db.steps| == |db.steps| + 1 && run.db.steps[..|db.steps|] == db.steps
      && run.db.steps[|db.steps|].sagaInstanceId == sagaInstanceId && run.db.steps[|db.steps|].status == StepFailed
  {
    assert StepTypeName(SagaStepType.UpdateTransactionStatus) == UpdateTransactionStatusStep.StepName;
    UpdateFailsAsWritten(db, sagaInstanceId, req);
  }

  /**
   * The as-written run from CREDIT_DESTINATION_WALLET: the credit completes
   * and the status update fails, so the destination has gained the amount
   * and two records follow the old ones.
   */
  lemma RunFromCreditAsWritten(db: Db, sagaInstanceId: int, req: TransferRequest)
    requires HasInstance(db, sagaInstanceId) && CompletedBelow(db, sagaInstanceId, 2)
    requires CarriesLedgerOnly(db.instances[sagaInstanceId].context, req)
    requires 0 <= req.destinationWalletId < |db.wallets|
    ensures var run := RunSteps(db, sagaInstanceId, [CreditDestinationWallet, SagaStepType.UpdateTransactionStatus], 2);
      && !run.allSucceeded
      && run.db.wallets == Moved(db.wallets, req.destinationWalletId, req.amount) && run.db.transactions == db.transactions
      && HasInstance(run.db, sagaInstanceId) && |run.db.instances| == |db.instances|
      && CarriesLedgerOnly(run.db.instances[sagaInstanceId].context, req)
      && |run.db.steps| == |db.steps| + 2 && run.db.steps[..|db.steps|] == db.steps
      && run.db.steps[|db.steps|] == NewStepRecord(sagaInstanceId, CreditDestinationWalletStep.StepName, 2).(status := StepCompleted)
      && run.db.steps[|db.steps| + 1].sagaInstanceId == sagaInstanceId && run.db.steps[|db.steps| + 1].status == StepFailed
  {
    BeanOfStepName();
    assert StepTypeName(CreditDestinationWallet) == CreditDestinationWalletStep.StepName;
    var c := db.instances[sagaInstanceId].context;
    CreditExecutesAsWritten(db, c, req);
    StepRunsAsWritten(db, sagaInstanceId, CreditDestinationWalletStep.StepName, 2, req);
    var d1 := ExecuteStepSpec(db, sagaInstanceId, CreditDestinationWalletStep.StepName, 2).db;
    assert [CreditDestinationWallet, SagaStepType.UpdateTransactionStatus][1..] == [SagaStepType.UpdateTransactionStatus];
    RunFromUpdateAsWritten(d1, sagaInstanceId, req);
    var rest := RunSteps(d1, sagaInstanceId, [SagaStepType.UpdateTransactionStatus], 3);
    ExtendedPrefix(db.steps, d1.steps, rest.db.steps);
  }

  /**
   * The as-written run of the transfer's steps: the debit and the credit
   * complete and the status update fails, so the amount has moved and three
   * records follow the old ones.
   */
  lemma RunFromDebitAsWritten(db: Db, sagaInstanceId: int, req: TransferRequest)
    requires HasInstance(db, sagaInstanceId) && CompletedBelow(db, sagaInstanceId, 1)
    requires CarriesLedgerOnly(db.instances[sagaInstanceId].context, req)
    requires 0 <= req.sourceWalletId < |db.wallets| && 0 <= req.destinationWalletId < |db.wallets|
    requires db.wallets[req.sourceWalletId].balance >= req.amount
    ensures var run := RunSteps(db, sagaInstanceId, [DebitSourceWallet, CreditDestinationWallet, SagaStepType.UpdateTransactionStatus], 1);
      var n := |db.steps|;
      && !run.allSucceeded
      && run.db.wallets == Moved(Moved(db.wallets, req.sourceWalletId, -req.amount), req.destinationWalletId, req.amount)
      && run.db.transactions == db.transactions
      && HasInstance(run.db, sagaInstanceId) && |run.db.instances| == |db.instances|
      && CarriesLedgerOnly(run.db.instances[sagaInstanceId].context, req)
      && |run.db.steps| == n + 3 && run.db.steps[..n] == db.steps
      && run.db.steps[n] == NewStepRecord(sagaInstanceId, DebitSourceWalletStep.StepName, 1).(status := StepCompleted)
      && run.db.steps[n + 1] == NewStepRecord(sagaInstanceId, CreditDestinationWalletStep.StepName, 2).(status := StepCompleted)
      && run.db.steps[n + 2].sagaInstanceId == sagaInstanceId && run.db.steps[n + 2].status == StepFailed
  {
    BeanOfStepName();
    var name := DebitSourceWalletStep.StepName;
    assert StepTypeName(DebitSourceWallet) == name;
    var c := db.instances[sagaInstanceId].context;
    DebitExecutesAsWritten(db, c, req);
    assert RunExecute(GetSagaStepByName(name).value, db, c) == DebitSourceWalletStep.ExecuteSpec(db, c);
    StepRunsAsWritten(db, sagaInstanceId, name, 1, req);
    var d1 := ExecuteStepSpec(db, sagaInstanceId, name, 1).db;
    var steps := [DebitSourceWallet, CreditDestinationWallet, SagaStepType.UpdateTransactionStatus];
    assert steps[1..] == [CreditDestinationWallet, SagaStepType.UpdateTransactionStatus];
    RunFromCreditAsWritten(d1, sagaInstanceId, req);
    RunStepsAfterFirst(db, sagaInstanceId, steps, 1);
    var rest := RunSteps(d1, sagaInstanceId, steps[1..], 2);
    ExtendedPrefix(db.steps, d1.steps, rest.db.steps);
  }

  /** A table extended by one record and then by more starts with the old table and that one record. */
  lemma ExtendedPrefix(s0: seq<StepRecord>, s1: seq<StepRecord>, s2: seq<StepRecord>)
    requires |s1| == |s0| + 1 && s1[..|s0|] == s0
    requires |s1| <= |s2| && s2[..|s1|] == s1
    ensures s2[..|s0|] == s0 && s2[|s0|] == s1[|s0|]
  {
    assert s2[..|s0|] == s2[..|s1|][..|s0|];
    assert s2[|s0|] == s2[..|s1|][|s0|];
  }

  /** A run whose first call returns true goes on with the rest of the steps from what that call left. */
  lemma RunStepsAfterFirst(db: Db, sagaInstanceId: int, steps: seq<SagaStepType>, stepOrder: int)
    requires steps != [] && ExecuteStepSpec(db, sagaInstanceId, StepTypeName(steps[0]), stepOrder).result == Ok(true)
    ensures var run := RunSteps(db, sagaInstanceId, steps, stepOrder);
      var rest := RunSteps(ExecuteStepSpec(db, sagaInstanceId, StepTypeName(steps[0]), stepOrder).db, sagaInstanceId, steps[1..], stepOrder + 1);
      run.db == rest.db && run.allSucceeded == rest.allSucceeded
  {
  }

  /**
   * The saga tables once the as-written run has stopped: the instance holds
   * the ledger context, and past the `n` older records, none of them its
   * own, come its COMPLETED debit, its COMPLETED credit, and its failed
   * status update.
   */
  ghost predicate RolledForward(db: Db, sagaInstanceId: int, req: TransferRequest, n: nat)
  {
    && HasInstance(db, sagaInstanceId) && CarriesLedgerOnly(db.instances[sagaInstanceId].context, req)
    && |db.steps| == n + 3
    && (forall k :: 0 <= k < n ==> db.steps[k].sagaInstanceId != sagaInstanceId)
    && db.steps[n] == NewStepRecord(sagaInstanceId, DebitSourceWalletStep.StepName, 1).(status := StepCompleted)
    && db.steps[n + 1] == NewStepRecord(sagaInstanceId, CreditDestinationWalletStep.StepName, 2).(status := StepCompleted)
    && db.steps[n + 2].sagaInstanceId == sagaInstanceId && db.steps[n + 2].status == StepFailed
  }

  /**
   * As written, the run on an instance with no records yet stops at
   * UPDATE_TRANSACTION_STATUS, after the debit and the credit have moved the
   * amount.
   */
  lemma RunStopsAtUpdate(db: Db, sagaInstanceId: int, req: TransferRequest)
    requires HasInstance(db, sagaInstanceId) && forall k :: 0 <= k < |db.steps| ==> db.steps[k].sagaInstanceId != sagaInstanceId
    requires CarriesLedgerOnly(db.instances[sagaInstanceId].context, req)
    requires 0 <= req.sourceWalletId < |db.wallets| && 0 <= req.destinationWalletId < |db.wallets|
    requires db.wallets[req.sourceWalletId].balance >= req.amount
    ensures var run := RunSteps(db, sagaInstanceId, [DebitSourceWallet, CreditDestinationWallet, SagaStepType.UpdateTransactionStatus], 1);
      && !run.allSucceeded
      && run.db.wallets == Moved(Moved(db.wallets, req.sourceWalletId, -req.amount), req.destinationWalletId, req.amount)
      && run.db.transactions == db.transactions && |run.db.instances| == |db.instances|
      && RolledForward(run.db, sagaInstanceId, req, |db.steps|)
  {
    RunFromDebitAsWritten(db, sagaInstanceId, req);
    var run := RunSteps(db, sagaInstanceId, [DebitSourceWallet, CreditDestinationWallet, SagaStepType.UpdateTransactionStatus], 1);
    forall k | 0 <= k < |db.steps|
      ensures run.db.steps[k].sagaInstanceId != sagaInstanceId
    {
      assert run.db.steps[k] == run.db.steps[..|db.steps|][k];
    }
  }

  /** `FindStep` on a status and name that exactly one record matches finds that record. */
  lemma FindsTheOnlyMatch(db: Db, sagaInstanceId: int, status: StepStatus, stepName: string, sid: nat)
    requires sid < |db.steps| && StepMatches(db.steps[sid], sagaInstanceId, status, stepName)
    requires forall k :: 0 <= k < |db.steps| && k != sid ==> !StepMatches(db.steps[k], sagaInstanceId, status, stepName)
    ensures FindStep(db, sagaInstanceId, status, stepName) == Ok(Some(sid))
  {
  }

  /** A strictly increasing sequence of ids, none below `lo`, has its `k`-th id at least `lo + k`. */
  lemma {:induction false} IncreasingFrom(ids: seq<nat>, lo: int)
    requires forall k :: 0 <= k < |ids| ==> lo <= ids[k]
    requires forall k, l :: 0 <= k < l < |ids| ==> ids[k] < ids[l]
    ensures forall k :: 0 <= k < |ids| ==> lo + k <= ids[k]
    decreases |ids|
  {
    if ids != [] {
      var rest := ids[1..];
      assert forall k :: 0 <= k < |rest| ==> rest[k] == ids[k + 1] && ids[0] < ids[k + 1];
      IncreasingFrom(rest, lo + 1);
      forall k | 0 < k < |ids|
        ensures lo + k <= ids[k]
      {
        assert ids[k] == rest[k - 1];
      }
    }
  }

  /** After the as-written run, the COMPLETED records are the debit and the credit, so the credit is compensated first. */
  lemma RolledForwardOrder(db: Db, sagaInstanceId: int, req: TransferRequest, n: nat)
    requires RolledForward(db, sagaInstanceId, req, n)
    ensures CompletedSteps(db, sagaInstanceId) == [n, n + 1]
    ensures CompensationOrder(db, sagaInstanceId) == [CreditDestinationWalletStep.StepName, DebitSourceWalletStep.StepName]
  {
    var ids := CompletedSteps(db, sagaInstanceId);
    assert n in ids && n + 1 in ids;
    assert forall k :: 0 <= k < |ids| ==> n <= ids[k] <= n + 1;
    OnlyTwoIds(ids, n);
    CompensationOrderIsLifo(db, sagaInstanceId);
  }

  /** A strictly increasing sequence holding `n` and `n + 1` and nothing outside them is `[n, n + 1]`. */
  lemma OnlyTwoIds(ids: seq<nat>, n: nat)
    requires n in ids && n + 1 in ids
    requires forall k :: 0 <= k < |ids| ==> n <= ids[k] <= n + 1
    requires forall k, l :: 0 <= k < l < |ids| ==> ids[k] < ids[l]
    ensures ids == [n, n + 1]
  {
    var i :| 0 <= i < |ids| && ids[i] == n;
    var j :| 0 <= j < |ids| && ids[j] == n + 1;
    IncreasingFrom(ids, n);
    assert ids[|ids| - 1] <= n + 1;
    assert ids[0] == n && ids[1] == n + 1;
  }

  /** `compensate` of CREDIT_DESTINATION_WALLET with the destination covering the amount: true, the destination lowered by the amount, the ledger still carried. */
  lemma CreditCompensatesAsWritten(db: Db, c: ContextState, req: TransferRequest)
    requires CarriesLedgerOnly(c, req)
    requires 0 <= req.destinationWalletId < |db.wallets| && db.wallets[req.destinationWalletId].balance >= req.amount
    ensures var e := CreditDestinationWalletStep.CompensateSpec(db, c);
      && e.outcome == Returned(true) && CarriesLedgerOnly(e.ctx, req)
      && e.db.wallets == Moved(db.wallets, req.destinationWalletId, -req.amount) && e.db.transactions == db.transactions
  {
    CreditCompensateMovesBalance(db, c, req.amount, req.destinationWalletId);
    CreditDestinationWalletStep.CompensateWritesOnlyRecordedKeys(db, c);
    CarriesLedgerOnlyOutside(c, CreditDestinationWalletStep.CompensateSpec(db, c).ctx, CreditDestinationWalletStep.RecordedKeys, req);
  }

  /** The ledger side of `compensate` of CREDIT_DESTINATION_WALLET on a destination covering the amount: true, the destination lowered by it. */
  lemma CreditCompensateMovesBalance(db: Db, c: ContextState, amount: Money, walletId: nat)
    requires CreditDestinationWalletStep.WellTyped(c, amount, walletId) && walletId < |db.wallets|
    requires db.wallets[walletId].balance >= amount
    ensures var e := CreditDestinationWalletStep.CompensateSpec(db, c);
      && e.outcome == Returned(true)
      && e.db.wallets == Moved(db.wallets, walletId, -amount)
      && e.db.transactions == db.transactions
  {
    CreditDestinationWalletStep.CompensateOutcome(db, c, amount, walletId);
    LoweredIsMoved(db, CreditDestinationWalletStep.CompensateSpec(db, c), amount, walletId);
  }

  /** The ledger side of the lemma above, for any effect with the outcome `compensate` has there. */
  lemma LoweredIsMoved(db: Db, e: StepEffect, amount: Money, walletId: nat)
    requires walletId < |db.wallets| && db.wallets[walletId].balance >= amount
    requires e.outcome == Returned(true) <==> db.wallets[walletId].balance >= amount
    requires e.outcome.Returned? ==>
      e.db == WithWallet(db, walletId, db.wallets[walletId].(balance := db.wallets[walletId].balance - amount))
    ensures e.outcome == Returned(true) && e.db.wallets == Moved(db.wallets, walletId, -amount) && e.db.transactions == db.transactions
  {
    BalanceMoved(db, e.db, walletId, -amount);
  }

  /** `compensate` of DEBIT_SOURCE_WALLET: true, the source raised by the amount. */
  lemma DebitCompensatesAsWritten(db: Db, c: ContextState, amount: Money, walletId: nat)
    requires DebitSourceWalletStep.WellTyped(c, amount, walletId) && walletId < |db.wallets|
    ensures var e := DebitSourceWalletStep.CompensateSpec(db, c);
      && e.outcome == Returned(true)
      && e.db.wallets == Moved(db.wallets, walletId, amount) && e.db.transactions == db.transactions
  {
    DebitSourceWalletStep.CompensateOutcome(db, c, amount, walletId);
    RaisedIsMoved(db, DebitSourceWalletStep.CompensateSpec(db, c), amount, walletId);
  }

  /** The ledger side of the lemma above, for any effect that raises the wallet. */
  lemma RaisedIsMoved(db: Db, e: StepEffect, amount: Money, walletId: nat)
    requires walletId < |db.wallets|
    requires e.db == WithWallet(db, walletId, db.wallets[walletId].(balance := db.wallets[walletId].balance + amount))
    ensures e.db.wallets == Moved(db.wallets, walletId, amount) && e.db.transactions == db.transactions
  {
    BalanceMoved(db, e.db, walletId, amount);
  }

  /** `compensate` of DEBIT_SOURCE_WALLET writes only its balance keys, so the ledger context is still carried. */
  lemma DebitCompensateKeepsLedger(db: Db, c: ContextState, req: TransferRequest)
    requires CarriesLedgerOnly(c, req)
    ensures CarriesLedgerOnly(DebitSourceWalletStep.CompensateSpec(db, c).ctx, req)
  {
    DebitSourceWalletStep.CompensateWritesOnlyRecordedKeys(db, c);
    CarriesLedgerOnlyOutside(c, DebitSourceWalletStep.CompensateSpec(db, c).ctx, DebitSourceWalletStep.RecordedKeys, req);
  }


  /**
   * `compensateStep` on the one COMPLETED record of a step whose
   * `compensate` returns true and keeps the ledger context: true, that record
   * COMPENSATED, and that context saved.
   */
  lemma StepCompensatedAsWritten(db: Db, sagaInstanceId: int, stepName: string, sid: nat, req: TransferRequest)
    requires HasInstance(db, sagaInstanceId) && GetSagaStepByName(stepName).Ok?
    requires FindStep(db, sagaInstanceId, StepCompleted, stepName) == Ok(Some(sid))
    requires var e := RunCompensate(GetSagaStepByName(stepName).value, db, db.instances[sagaInstanceId].context);
      e.outcome == Returned(true) && CarriesLedgerOnly(e.ctx, req)
    ensures var e := RunCompensate(GetSagaStepByName(stepName).value, db, db.instances[sagaInstanceId].context);
      var r := CompensateStepSpec(db, sagaInstanceId, stepName);
      && r.result == Ok(true)
      && r.db.wallets == e.db.wallets && r.db.transactions == e.db.transactions
      && HasInstance(r.db, sagaInstanceId) && CarriesLedgerOnly(r.db.instances[sagaInstanceId].context, req)
      && r.db.steps == db.steps[sid := db.steps[sid].(status := StepCompensated)]
  {
    CompensateStepOutcome(db, sagaInstanceId, stepName, sid);
  }

  /** After the as-written run, the credit's record is the instance's only COMPLETED credit. */
  lemma FindsCompletedCredit(db: Db, sagaInstanceId: int, req: TransferRequest, n: nat)
    requires RolledForward(db, sagaInstanceId, req, n)
    ensures FindStep(db, sagaInstanceId, StepCompleted, CreditDestinationWalletStep.StepName) == Ok(Some(n + 1))
  {
    var name := CreditDestinationWalletStep.StepName;
    forall k | 0 <= k < |db.steps| && k != n + 1
      ensures !StepMatches(db.steps[k], sagaInstanceId, StepCompleted, name)
    {
      if k == n {
        assert db.steps[k].stepName == DebitSourceWalletStep.StepName != name;
      }
    }
    FindsTheOnlyMatch(db, sagaInstanceId, StepCompleted, name, n + 1);
  }

  /**
   * `compensateStep` of the credit after the as-written run, with the
   * destination still covering the amount: true, the destination loses the
   * amount, and only the credit's record changes, to COMPENSATED.
   */
  lemma CreditCompensatedAsWritten(db: Db, sagaInstanceId: int, req: TransferRequest, n: nat)
    requires RolledForward(db, sagaInstanceId, req, n)
    requires 0 <= req.destinationWalletId < |db.wallets| && db.wallets[req.destinationWalletId].balance >= req.amount
    ensures var r := CompensateStepSpec(db, sagaInstanceId, CreditDestinationWalletStep.StepName);
      && r.result == Ok(true)
      && r.db.wallets == Moved(db.wallets, req.destinationWalletId, -req.amount) && r.db.transactions == db.transactions
      && HasInstance(r.db, sagaInstanceId) && CarriesLedgerOnly(r.db.instances[sagaInstanceId].context, req)
      && r.db.steps == db.steps[n + 1 := db.steps[n + 1].(status := StepCompensated)]
  {
    var name := CreditDestinationWalletStep.StepName;
    BeanOfStepName();
    FindsCompletedCredit(db, sagaInstanceId, req, n);
    CreditCompensatesAsWritten(db, db.instances[sagaInstanceId].context, req);
    StepCompensatedAsWritten(db, sagaInstanceId, name, n + 1, req);
  }

  /**
   * `compensateStep` of the debit once the credit's record is COMPENSATED:
   * true, and the source regains the amount.
   */
  lemma DebitCompensatedAsWritten(db: Db, sagaInstanceId: int, req: TransferRequest, n: nat)
    requires HasInstance(db, sagaInstanceId) && CarriesLedgerOnly(db.instances[sagaInstanceId].context, req)
    requires n < |db.steps| && db.steps[n] == NewStepRecord(sagaInstanceId, DebitSourceWalletStep.StepName, 1).(status := StepCompleted)
    requires forall k :: 0 <= k < |db.steps| && k != n ==> !StepMatches(db.steps[k], sagaInstanceId, StepCompleted, DebitSourceWalletStep.StepName)
    requires 0 <= req.sourceWalletId < |db.wallets|
    ensures var r := CompensateStepSpec(db, sagaInstanceId, DebitSourceWalletStep.StepName);
      && r.result == Ok(true)
      && r.db.wallets == Moved(db.wallets, req.sourceWalletId, req.amount) && r.db.transactions == db.transactions
  {
    var name := DebitSourceWalletStep.StepName;
    BeanOfStepName();
    FindsTheOnlyMatch(db, sagaInstanceId, StepCompleted, name, n);
    DebitCompensatesAsWritten(db, db.instances[sagaInstanceId].context, req.amount, req.sourceWalletId);
    DebitCompensateKeepsLedger(db, db.instances[sagaInstanceId].context, req);
    StepCompensatedAsWritten(db, sagaInstanceId, name, n, req);
  }

  /** Once the credit is compensated, the debit's record is the instance's only COMPLETED debit. */
  lemma OnlyDebitLeft(db: Db, sagaInstanceId: int, req: TransferRequest, n: nat, steps: seq<StepRecord>)
    requires RolledForward(db, sagaInstanceId, req, n)
    requires steps == db.steps[n + 1 := db.steps[n + 1].(status := StepCompensated)]
    ensures forall k :: 0 <= k < |steps| && k != n ==> !StepMatches(steps[k], sagaInstanceId, StepCompleted, DebitSourceWalletStep.StepName)
  {
    assert DebitSourceWalletStep.StepName != CreditDestinationWalletStep.StepName;
  }

  /**
   * `compensateSaga` after the as-written run, with the destination covering
   * the amount: it undoes the credit, then the debit, and ends COMPENSATED.
   */
  lemma CompensationRollsBack(db: Db, sagaInstanceId: int, req: TransferRequest, n: nat)
    requires RolledForward(db, sagaInstanceId, req, n)
    requires 0 <= req.sourceWalletId < |db.wallets| && 0 <= req.destinationWalletId < |db.wallets|
    requires db.wallets[req.destinationWalletId].balance >= req.amount
    ensures var r := CompensateSagaSpec(db, sagaInstanceId);
      && r.result == Ok(())
      && r.db.wallets == Moved(Moved(db.wallets, req.destinationWalletId, -req.amount), req.sourceWalletId, req.amount)
      && r.db.transactions == db.transactions
      && sagaInstanceId < |r.db.instances| && r.db.instances[sagaInstanceId].status == SagaCompensated
  {
    RolledForwardOrder(db, sagaInstanceId, req, n);
    CompensateSagaOutcome(db, sagaInstanceId);
    var u := UpdateSagaStatusSpec(db, sagaInstanceId, SagaCompensating).db;
    assert RolledForward(u, sagaInstanceId, req, n);
    SweepRollsBack(u, sagaInstanceId, req, n);
  }

  /** The loop of `compensateSaga` after the as-written run: the credit, then the debit, both compensated. */
  lemma SweepRollsBack(db: Db, sagaInstanceId: int, req: TransferRequest, n: nat)
    requires RolledForward(db, sagaInstanceId, req, n)
    requires 0 <= req.sourceWalletId < |db.wallets| && 0 <= req.destinationWalletId < |db.wallets|
    requires db.wallets[req.destinationWalletId].balance >= req.amount
    ensures var run := CompensateEach(db, sagaInstanceId, [CreditDestinationWalletStep.StepName, DebitSourceWalletStep.StepName]);
      && run.allCompensated
      && run.db.wallets == Moved(Moved(db.wallets, req.destinationWalletId, -req.amount), req.sourceWalletId, req.amount)
      && run.db.transactions == db.transactions
  {
    var credit, debit := CreditDestinationWalletStep.StepName, DebitSourceWalletStep.StepName;
    CreditCompensatedAsWritten(db, sagaInstanceId, req, n);
    var first := CompensateStepSpec(db, sagaInstanceId, credit);
    OnlyDebitLeft(db, sagaInstanceId, req, n, first.db.steps);
    DebitCompensatedAsWritten(first.db, sagaInstanceId, req, n);
    SweepOfTwo(db, sagaInstanceId, credit, debit);
  }

  /** A sweep over two names whose compensations both return true ends where the second left the store. */
  lemma SweepOfTwo(db: Db, sagaInstanceId: int, first: string, second: string)
    requires CompensateStepSpec(db, sagaInstanceId, first).result == Ok(true)
    requires CompensateStepSpec(CompensateStepSpec(db, sagaInstanceId, first).db, sagaInstanceId, second).result == Ok(true)
    ensures CompensateEach(db, sagaInstanceId, [first, second]) ==
      Sweep(CompensateStepSpec(CompensateStepSpec(db, sagaInstanceId, first).db, sagaInstanceId, second).db, true)
  {
    var after := CompensateStepSpec(db, sagaInstanceId, first).db;
    assert [first, second][1..] == [second] && [second][1..] == [];
    assert CompensateEach(after, sagaInstanceId, [second]) == Sweep(CompensateStepSpec(after, sagaInstanceId, second).db, true);
  }

  /** Moving a balance from `i` to `j` and then back, on two distinct wallets, restores the table. */
  lemma MovedAndBack(wallets: seq<Wallet>, moved: seq<Wallet>, back: seq<Wallet>, i: int, j: int, delta: Money)
    requires 0 <= i < |wallets| && 0 <= j < |wallets| && i != j
    requires moved == Moved(Moved(wallets, i, -delta), j, delta)
    requires back == Moved(Moved(moved, j, -delta), i, delta)
    ensures back == wallets
  {
    assert forall k :: 0 <= k < |wallets| ==> back[k] == wallets[k];
  }

  /** `startSaga` saves a context that carries the ledger and no `transactionId`, for an instance with no records yet. */
  lemma StartedSagaIsFresh(db: Db, req: TransferRequest)
    requires Valid(db)
    ensures var created := CreateTransactionAndStartSagaSpec(db, req);
      && CarriesLedgerOnly(created.db.instances[created.sagaInstanceId].context, req)
      && forall k :: 0 <= k < |created.db.steps| ==> created.db.steps[k].sagaInstanceId != created.sagaInstanceId
  {
  }

  /**
   * As written, a transfer between two distinct existing wallets whose
   * source covers the amount (and whose destination is not negative) is
   * rolled back: the debit and the credit complete, UPDATE_TRANSACTION_STATUS
   * fails for want of `transactionId`, `compensateSaga` undoes the credit and
   * then the debit, the saga ends COMPENSATED, every wallet is back to its
   * balance, and the transaction ends FAILED.
   */
  lemma TransferAsWrittenRollsBack(db: Db, req: TransferRequest)
    requires Valid(db)
    requires 0 <= req.sourceWalletId < |db.wallets| && 0 <= req.destinationWalletId < |db.wallets|
    requires req.sourceWalletId != req.destinationWalletId
    requires db.wallets[req.sourceWalletId].balance >= req.amount && db.wallets[req.destinationWalletId].balance >= 0.0
    ensures var r := InitiateTransferAsWrittenSpec(db, req);
      && r.result.Ok? && r.result.value.status == Some(TxFailed)
      && r.db.wallets == db.wallets
      && |db.instances| < |r.db.instances| && r.db.instances[|db.instances|].status == SagaCompensated
  {
    var created := CreateTransactionAndStartSagaSpec(db, req);
    StartedSagaIsFresh(db, req);
    SagaAsWrittenRollsBack(created.db, created.sagaInstanceId, req);
    RunTransferOutcome(created.db, created.transactionId, created.sagaInstanceId);
  }

  /**
   * `executeTransferSaga`, as written, on an instance with no records yet and
   * a transfer between two distinct wallets whose source covers the amount:
   * it returns false, the saga ends COMPENSATED, and the wallets are as they
   * were.
   */
  lemma SagaAsWrittenRollsBack(db: Db, sagaInstanceId: int, req: TransferRequest)
    requires HasInstance(db, sagaInstanceId) && forall k :: 0 <= k < |db.steps| ==> db.steps[k].sagaInstanceId != sagaInstanceId
    requires CarriesLedgerOnly(db.instances[sagaInstanceId].context, req)
    requires 0 <= req.sourceWalletId < |db.wallets| && 0 <= req.destinationWalletId < |db.wallets|
    requires req.sourceWalletId != req.destinationWalletId
    requires db.wallets[req.sourceWalletId].balance >= req.amount && db.wallets[req.destinationWalletId].balance >= 0.0
    ensures var r := ExecuteTransferSagaSpec(db, sagaInstanceId);
      && r.result == Ok(false)
      && r.db.wallets == db.wallets
      && sagaInstanceId < |r.db.instances| && r.db.instances[sagaInstanceId].status == SagaCompensated
  {
    assert GetStepsForSaga(TransactionTransfer) == [DebitSourceWallet, CreditDestinationWallet, SagaStepType.UpdateTransactionStatus];
    RunThenRollBack(db, sagaInstanceId, req);
    FailedRunCompensates(db, sagaInstanceId);
  }

  /** The two halves of the lemma above: the run stops at the status update, and `compensateSaga` then restores the wallets. */
  lemma RunThenRollBack(db: Db, sagaInstanceId: int, req: TransferRequest)
    requires HasInstance(db, sagaInstanceId) && forall k :: 0 <= k < |db.steps| ==> db.steps[k].sagaInstanceId != sagaInstanceId
    requires CarriesLedgerOnly(db.instances[sagaInstanceId].context, req)
    requires 0 <= req.sourceWalletId < |db.wallets| && 0 <= req.destinationWalletId < |db.wallets|
    requires req.sourceWalletId != req.destinationWalletId
    requires db.wallets[req.sourceWalletId].balance >= req.amount && db.wallets[req.destinationWalletId].balance >= 0.0
    ensures var run := RunSteps(db, sagaInstanceId, [DebitSourceWallet, CreditDestinationWallet, SagaStepType.UpdateTransactionStatus], 1);
      var r := CompensateSagaSpec(run.db, sagaInstanceId);
      && !run.allSucceeded && r.result == Ok(()) && r.db.wallets == db.wallets
      && sagaInstanceId < |r.db.instances| && r.db.instances[sagaInstanceId].status == SagaCompensated
  {
    RunStopsAtUpdate(db, sagaInstanceId, req);
    var run := RunSteps(db, sagaInstanceId, [DebitSourceWallet, CreditDestinationWallet, SagaStepType.UpdateTransactionStatus], 1);
    RollBackRestores(run.db, sagaInstanceId, req, |db.steps|, db.wallets);
  }

  /**
   * `compensateSaga` after the as-written run moved the amount from a wallet
   * table `wallets` whose destination was not negative: it restores that
   * table exactly.
   */
  lemma RollBackRestores(db: Db, sagaInstanceId: int, req: TransferRequest, n: nat, wallets: seq<Wallet>)
    requires RolledForward(db, sagaInstanceId, req, n)
    requires 0 <= req.sourceWalletId < |wallets| && 0 <= req.destinationWalletId < |wallets|
    requires req.sourceWalletId != req.destinationWalletId && wallets[req.destinationWalletId].balance >= 0.0
    requires db.wallets == Moved(Moved(wallets, req.sourceWalletId, -req.amount), req.destinationWalletId, req.amount)
    ensures var r := CompensateSagaSpec(db, sagaInstanceId);
      && r.result == Ok(()) && r.db.wallets == wallets
      && sagaInstanceId < |r.db.instances| && r.db.instances[sagaInstanceId].status == SagaCompensated
  {
    MovedAndBack(wallets, db.wallets, Moved(Moved(db.wallets, req.destinationWalletId, -req.amount), req.sourceWalletId, req.amount),
                 req.sourceWalletId, req.destinationWalletId, req.amount);
    DestinationStillCovers(wallets, req.sourceWalletId, req.destinationWalletId, req.amount);
    CompensationRollsBack(db, sagaInstanceId, req, n);
  }

  /** After the debit, a destination that was not negative covers the credited amount. */
  lemma DestinationStillCovers(wallets: seq<Wallet>, i: int, j: int, delta: Money)
    requires 0 <= i < |wallets| && 0 <= j < |wallets| && i != j && wallets[j].balance >= 0.0
    ensures Moved(Moved(wallets, i, -delta), j, delta)[j].balance >= delta
  {
    assert Moved(wallets, i, -delta)[j] == wallets[j];
  }

  /** A run that did not succeed is followed by `compensateSaga`; when that returns normally, `executeTransferSaga` returns false over what it left. */
  lemma FailedRunCompensates(db: Db, sagaInstanceId: int)
    requires var run := RunSteps(db, sagaInstanceId, GetStepsForSaga(TransactionTransfer), 1);
      !run.allSucceeded && CompensateSagaSpec(run.db, sagaInstanceId).result.Ok?
    ensures var run := RunSteps(db, sagaInstanceId, GetStepsForSaga(TransactionTransfer), 1);
      ExecuteTransferSagaSpec(db, sagaInstanceId) == Effect(CompensateSagaSpec(run.db, sagaInstanceId).db, Ok(false))
  {
  }

  lemma StepsOfTransferIncludeUpdate()
    ensures SagaStepType.UpdateTransactionStatus in GetStepsForSaga(TransactionTransfer)
  {
    assert GetStepsForSaga(TransactionTransfer)[2] == SagaStepType.UpdateTransactionStatus;
  }

  // ---------------------------------------------------------------- the corrected transfer

  /** The wallets with wallet `i`'s balance moved by `delta`. */
  function Moved(wallets: seq<Wallet>, i: int, delta: Money): (r: seq<Wallet>)
    requires 0 <= i < |wallets|
    ensures |r| == |wallets| && r[i].balance == wallets[i].balance + delta
    ensures forall k :: 0 <= k < |wallets| && k != i ==> r[k] == wallets[k]
  {
    wallets[i := wallets[i].(balance := wallets[i].balance + delta)]
  }

  /** The context carries what the three steps read: amount, both wallet ids, the transaction id and the status to set. */
  ghost predicate CarriesTransfer(c: ContextState, req: TransferRequest, transactionId: nat)
  {
    && c.Get("amount") == DecimalV(req.amount)
    && c.Get("sourceWalletId") == LongV(req.sourceWalletId)
    && c.Get("destinationWalletId") == LongV(req.destinationWalletId)
    && c.Get("transactionId") == LongV(transactionId)
    && c.Get("newStatus") == StringV("SUCCESS")
  }

  /** A step that writes only its recorded keys keeps what the context carries. */
  lemma CarriesTransferOutside(a: ContextState, b: ContextState, keys: set<string>, req: TransferRequest, transactionId: nat)
    requires CarriesTransfer(a, req, transactionId) && SameOutside(a, b, keys)
    requires "amount" !in keys && "sourceWalletId" !in keys && "destinationWalletId" !in keys
    requires "transactionId" !in keys && "newStatus" !in keys
    ensures CarriesTransfer(b, req, transactionId)
  {
    assert b.Get("amount") == a.Get("amount") && b.Get("sourceWalletId") == a.Get("sourceWalletId");
    assert b.Get("destinationWalletId") == a.Get("destinationWalletId");
    assert b.Get("transactionId") == a.Get("transactionId") && b.Get("newStatus") == a.Get("newStatus");
  }

  /**
   * A registered step run under a fresh order whose `execute` returns true
   * and keeps what the context carries: `executeStep` returns true, the
   * ledger is what the step left, and the saved context still carries the
   * transfer.
   */
  lemma StepRunsForTransfer(db: Db, sagaInstanceId: int, stepName: string, stepOrder: int, req: TransferRequest, transactionId: nat)
    requires HasInstance(db, sagaInstanceId) && GetSagaStepByName(stepName).Ok? && CompletedBelow(db, sagaInstanceId, stepOrder)
    requires var e := RunExecute(GetSagaStepByName(stepName).value, db, db.instances[sagaInstanceId].context);
      e.outcome == Returned(true) && CarriesTransfer(e.ctx, req, transactionId)
    ensures var e := RunExecute(GetSagaStepByName(stepName).value, db, db.instances[sagaInstanceId].context);
      var r := ExecuteStepSpec(db, sagaInstanceId, stepName, stepOrder);
      && r.result == Ok(true)
      && r.db.wallets == e.db.wallets && r.db.transactions == e.db.transactions
      && HasInstance(r.db, sagaInstanceId) && CompletedBelow(r.db, sagaInstanceId, stepOrder + 1)
      && CarriesTransfer(r.db.instances[sagaInstanceId].context, req, transactionId)
  {
    ExecuteStepOnFreshOrder(db, sagaInstanceId, stepName, stepOrder);
  }

  /** `execute` of DEBIT_SOURCE_WALLET on a funded source wallet: true, that wallet lowered by the amount, the transfer still carried. */
  lemma DebitExecutes(db: Db, c: ContextState, req: TransferRequest, transactionId: nat)
    requires CarriesTransfer(c, req, transactionId)
    requires 0 <= req.sourceWalletId < |db.wallets| && db.wallets[req.sourceWalletId].balance >= req.amount
    ensures var e := DebitSourceWalletStep.ExecuteSpec(db, c);
      && e.outcome == Returned(true) && CarriesTransfer(e.ctx, req, transactionId)
      && e.db.wallets == Moved(db.wallets, req.sourceWalletId, -req.amount)
      && e.db.transactions == db.transactions
  {
    DebitMovesBalance(db, c, req.amount, req.sourceWalletId);
    DebitSourceWalletStep.ExecuteWritesOnlyRecordedKeys(db, c);
    CarriesTransferOutside(c, DebitSourceWalletStep.ExecuteSpec(db, c).ctx, DebitSourceWalletStep.RecordedKeys, req, transactionId);
  }

  /** The ledger side of `execute` of DEBIT_SOURCE_WALLET on a funded source: true, the source lowered by the amount, the transactions untouched. */
  lemma DebitMovesBalance(db: Db, c: ContextState, amount: Money, walletId: nat)
    requires DebitSourceWalletStep.WellTyped(c, amount, walletId) && walletId < |db.wallets|
    requires db.wallets[walletId].balance >= amount
    ensures var e := DebitSourceWalletStep.ExecuteSpec(db, c);
      && e.outcome == Returned(true)
      && e.db.wallets == Moved(db.wallets, walletId, -amount)
      && e.db.transactions == db.transactions
  {
    DebitSourceWalletStep.ExecuteOutcome(db, c, amount, walletId);
    BalanceMoved(db, DebitSourceWalletStep.ExecuteSpec(db, c).db, walletId, -amount);
  }

  /** Saving one wallet with its balance moved by `delta` is `Moved` on the wallet table, and leaves the transactions alone. */
  lemma BalanceMoved(db: Db, after: Db, i: nat, delta: Money)
    requires i < |db.wallets| && after == WithWallet(db, i, db.wallets[i].(balance := db.wallets[i].balance + delta))
    ensures after.wallets == Moved(db.wallets, i, delta) && after.transactions == db.transactions
  {
  }

  /** `execute` of CREDIT_DESTINATION_WALLET on an existing destination wallet: true, that wallet raised by the amount, the transfer still carried. */
  lemma CreditExecutes(db: Db, c: ContextState, req: TransferRequest, transactionId: nat)
    requires CarriesTransfer(c, req, transactionId)
    requires 0 <= req.destinationWalletId < |db.wallets|
    ensures var e := CreditDestinationWalletStep.ExecuteSpec(db, c);
      && e.outcome == Returned(true) && CarriesTransfer(e.ctx, req, transactionId)
      && e.db.wallets == Moved(db.wallets, req.destinationWalletId, req.amount)
      && e.db.transactions == db.transactions
  {
    CreditMovesBalance(db, c, req.amount, req.destinationWalletId);
    CreditDestinationWalletStep.ExecuteWritesOnlyRecordedKeys(db, c);
    CarriesTransferOutside(c, CreditDestinationWalletStep.ExecuteSpec(db, c).ctx, CreditDestinationWalletStep.RecordedKeys, req, transactionId);
  }

  /** The ledger side of `execute` of CREDIT_DESTINATION_WALLET: true, the destination raised by the amount, the transactions untouched. */
  lemma CreditMovesBalance(db: Db, c: ContextState, amount: Money, walletId: nat)
    requires CreditDestinationWalletStep.WellTyped(c, amount, walletId) && walletId < |db.wallets|
    ensures var e := CreditDestinationWalletStep.ExecuteSpec(db, c);
      && e.outcome == Returned(true)
      && e.db.wallets == Moved(db.wallets, walletId, amount)
      && e.db.transactions == db.transactions
  {
    CreditDestinationWalletStep.ExecuteOutcome(db, c, amount, walletId);
    BalanceMoved(db, CreditDestinationWalletStep.ExecuteSpec(db, c).db, walletId, amount);
  }

  /** `execute` of UPDATE_TRANSACTION_STATUS with the transaction id at hand: true, the transaction SUCCESS, the wallets untouched. */
  lemma UpdateExecutes(db: Db, c: ContextState, req: TransferRequest, transactionId: nat)
    requires CarriesTransfer(c, req, transactionId) && transactionId < |db.transactions|
    ensures var e := UpdateTransactionStatusStep.ExecuteSpec(db, c);
      && e.outcome == Returned(true) && CarriesTransfer(e.ctx, req, transactionId)
      && e.db.wallets == db.wallets
      && e.db.transactions == db.transactions[transactionId := db.transactions[transactionId].(status := Some(TxSuccess))]
  {
    UpdateTransactionStatusStep.ExecuteOutcome(db, c, transactionId, "SUCCESS");
    assert TxStatusValueOf(Some("SUCCESS")) == Ok(TxSuccess);
    UpdateTransactionStatusStep.ExecuteWritesOnlyRecordedKeys(db, c);
    CarriesTransferOutside(c, UpdateTransactionStatusStep.ExecuteSpec(db, c).ctx, UpdateTransactionStatusStep.RecordedKeys, req, transactionId);
  }

  /** The run from UPDATE_TRANSACTION_STATUS on, with the transaction id saved: it succeeds and sets the transaction to SUCCESS. */
  lemma RunFromUpdate(db: Db, sagaInstanceId: int, req: TransferRequest, transactionId: nat)
    requires HasInstance(db, sagaInstanceId) && CompletedBelow(db, sagaInstanceId, 3)
    requires CarriesTransfer(db.instances[sagaInstanceId].context, req, transactionId)
    requires transactionId < |db.transactions|
    ensures var run := RunSteps(db, sagaInstanceId, [SagaStepType.UpdateTransactionStatus], 3);
      && run.allSucceeded && run.db.wallets == db.wallets
      && run.db.transactions == db.transactions[transactionId := db.transactions[transactionId].(status := Some(TxSuccess))]
  {
    assert StepTypeName(SagaStepType.UpdateTransactionStatus) == UpdateTransactionStatusStep.StepName;
    UpdateStepSucceeds(db, sagaInstanceId, req, transactionId);
    LastStepSucceeds(db, sagaInstanceId, SagaStepType.UpdateTransactionStatus, 3);
  }

  /** `executeStep` of UPDATE_TRANSACTION_STATUS with the transaction id saved: true, the transaction SUCCESS, the wallets untouched. */
  lemma UpdateStepSucceeds(db: Db, sagaInstanceId: int, req: TransferRequest, transactionId: nat)
    requires HasInstance(db, sagaInstanceId) && CompletedBelow(db, sagaInstanceId, 3)
    requires CarriesTransfer(db.instances[sagaInstanceId].context, req, transactionId)
    requires transactionId < |db.transactions|
    ensures var r := ExecuteStepSpec(db, sagaInstanceId, UpdateTransactionStatusStep.StepName, 3);
      && r.result == Ok(true) && r.db.wallets == db.wallets
      && r.db.transactions == db.transactions[transactionId := db.transactions[transactionId].(status := Some(TxSuccess))]
  {
    BeanOfStepName();
    UpdateExecutes(db, db.instances[sagaInstanceId].context, req, transactionId);
    StepRunsForTransfer(db, sagaInstanceId, UpdateTransactionStatusStep.StepName, 3, req, transactionId);
  }

  /** A run of one step whose call returns true succeeds and leaves what the call left. */
  lemma LastStepSucceeds(db: Db, sagaInstanceId: int, step: SagaStepType, stepOrder: int)
    requires ExecuteStepSpec(db, sagaInstanceId, StepTypeName(step), stepOrder).result == Ok(true)
    ensures var run := RunSteps(db, sagaInstanceId, [step], stepOrder);
      run.allSucceeded && run.db == ExecuteStepSpec(db, sagaInstanceId, StepTypeName(step), stepOrder).db
  {
    assert [step][1..] == [];
  }

  /** The run from CREDIT_DESTINATION_WALLET on: both steps succeed; the destination gains the amount. */
  lemma RunFromCredit(db: Db, sagaInstanceId: int, req: TransferRequest, transactionId: nat)
    requires HasInstance(db, sagaInstanceId) && CompletedBelow(db, sagaInstanceId, 2)
    requires CarriesTransfer(db.instances[sagaInstanceId].context, req, transactionId)
    requires 0 <= req.destinationWalletId < |db.wallets| && transactionId < |db.transactions|
    ensures var run := RunSteps(db, sagaInstanceId, [CreditDestinationWallet, SagaStepType.UpdateTransactionStatus], 2);
      && run.allSucceeded
      && run.db.wallets == Moved(db.wallets, req.destinationWalletId, req.amount)
      && run.db.transactions == db.transactions[transactionId := db.transactions[transactionId].(status := Some(TxSuccess))]
  {
    BeanOfStepName();
    CreditExecutes(db, db.instances[sagaInstanceId].context, req, transactionId);
    StepRunsForTransfer(db, sagaInstanceId, CreditDestinationWalletStep.StepName, 2, req, transactionId);
    assert [CreditDestinationWallet, SagaStepType.UpdateTransactionStatus][1..] == [SagaStepType.UpdateTransactionStatus];
    RunFromUpdate(ExecuteStepSpec(db, sagaInstanceId, CreditDestinationWalletStep.StepName, 2).db, sagaInstanceId, req, transactionId);
  }

  /** The run from DEBIT_SOURCE_WALLET on, with a funded source distinct from the destination: all three steps succeed. */
  lemma RunFromDebit(db: Db, sagaInstanceId: int, req: TransferRequest, transactionId: nat)
    requires HasInstance(db, sagaInstanceId) && CompletedBelow(db, sagaInstanceId, 1)
    requires CarriesTransfer(db.instances[sagaInstanceId].context, req, transactionId)
    requires 0 <= req.sourceWalletId < |db.wallets| && 0 <= req.destinationWalletId < |db.wallets|
    requires req.sourceWalletId != req.destinationWalletId
    requires db.wallets[req.sourceWalletId].balance >= req.amount
    requires transactionId < |db.transactions|
    ensures var run := RunSteps(db, sagaInstanceId, [DebitSourceWallet, CreditDestinationWallet, SagaStepType.UpdateTransactionStatus], 1);
      && run.allSucceeded
      && run.db.wallets == Moved(Moved(db.wallets, req.sourceWalletId, -req.amount), req.destinationWalletId, req.amount)
      && run.db.transactions == db.transactions[transactionId := db.transactions[transactionId].(status := Some(TxSuccess))]
  {
    BeanOfStepName();
    DebitExecutes(db, db.instances[sagaInstanceId].context, req, transactionId);
    StepRunsForTransfer(db, sagaInstanceId, DebitSourceWalletStep.StepName, 1, req, transactionId);
    var steps := [DebitSourceWallet, CreditDestinationWallet, SagaStepType.UpdateTransactionStatus];
    assert steps[1..] == [CreditDestinationWallet, SagaStepType.UpdateTransactionStatus];
    var c := db.instances[sagaInstanceId].context;
    var bean := GetSagaStepByName(DebitSourceWalletStep.StepName).value;
    assert bean == DebitSourceWalletBean;
    assert RunExecute(bean, db, c) == DebitSourceWalletStep.ExecuteSpec(db, c);
    var d1 := ExecuteStepSpec(db, sagaInstanceId, DebitSourceWalletStep.StepName, 1).db;
    assert d1.wallets == DebitSourceWalletStep.ExecuteSpec(db, c).db.wallets;
    RunFromCredit(d1, sagaInstanceId, req, transactionId);
    var rest := RunSteps(d1, sagaInstanceId, steps[1..], 2);
    assert RunSteps(db, sagaInstanceId, steps, 1).db == rest.db;
  }

  /** The corrected start saves a context that carries the transfer. */
  lemma CreatedContextCarriesTransfer(db: Db, req: TransferRequest)
    ensures var created := CreateTransactionAndStartSagaCorrectedSpec(db, req);
      CarriesTransfer(created.db.instances[created.sagaInstanceId].context, req, created.transactionId)
  {
    var created := CreateTransactionAndStartSagaCorrectedSpec(db, req);
    var a := BuildContext(req).(sagaInstanceId := Some(created.sagaInstanceId));
    var c := created.ctx;
    assert c.Get("amount") == a.Get("amount") && c.Get("sourceWalletId") == a.Get("sourceWalletId");
    assert c.Get("destinationWalletId") == a.Get("destinationWalletId") && c.Get("newStatus") == a.Get("newStatus");
  }

  /**
   * With the corrected start, a transfer between two distinct existing
   * wallets whose source holds at least the amount succeeds: the response
   * and the saved transaction say SUCCESS, the source wallet loses the
   * amount, the destination gains it, and the saga ends COMPLETED.
   */
  lemma TransferSucceeds(db: Db, req: TransferRequest)
    requires Valid(db)
    requires 0 <= req.sourceWalletId < |db.wallets| && 0 <= req.destinationWalletId < |db.wallets|
    requires req.sourceWalletId != req.destinationWalletId
    requires db.wallets[req.sourceWalletId].balance >= req.amount
    ensures var r := InitiateTransferSpec(db, req);
      && r.result.Ok? && r.result.value.id == |db.transactions| && r.result.value.status == Some(TxSuccess)
      && r.db.wallets == Moved(Moved(db.wallets, req.sourceWalletId, -req.amount), req.destinationWalletId, req.amount)
      && |db.instances| < |r.db.instances| && r.db.instances[|db.instances|].status == SagaCompleted
  {
    var created := CreateTransactionAndStartSagaCorrectedSpec(db, req);
    var iid := created.sagaInstanceId;
    var c := created.db.instances[iid].context;
    CreatedContextCarriesTransfer(db, req);
    assert CompletedBelow(created.db, iid, 1);
    assert GetStepsForSaga(TransactionTransfer) == [DebitSourceWallet, CreditDestinationWallet, SagaStepType.UpdateTransactionStatus];
    RunFromDebit(created.db, iid, req, created.transactionId);
    ExecuteTransferSagaOutcome(created.db, iid);
  }

  /** `execute` of DEBIT_SOURCE_WALLET on a missing or underfunded source wallet: it throws and changes nothing. */
  lemma DebitRefusedExecutes(db: Db, c: ContextState, req: TransferRequest, transactionId: nat)
    requires CarriesTransfer(c, req, transactionId) && 0 <= req.sourceWalletId
    requires !(req.sourceWalletId < |db.wallets| && db.wallets[req.sourceWalletId].balance >= req.amount)
    ensures var e := DebitSourceWalletStep.ExecuteSpec(db, c);
      e.outcome.Threw? && e.db == db
  {
    if req.sourceWalletId < |db.wallets| {
      DebitSourceWalletStep.ExecuteOutcome(db, c, req.amount, req.sourceWalletId);
    } else {
      DebitSourceWalletStep.MissingWalletThrows(db, c, req.amount, req.sourceWalletId);
    }
  }

  /**
   * On an instance with no step record yet, a refused debit makes
   * `executeStep` return false: its new record is FAILED, so the instance
   * has no COMPLETED record, and the wallets, transactions and instances are
   * as they were.
   */
  lemma DebitStepRefused(db: Db, sagaInstanceId: int, req: TransferRequest, transactionId: nat)
    requires HasInstance(db, sagaInstanceId)
    requires forall k :: 0 <= k < |db.steps| ==> db.steps[k].sagaInstanceId != sagaInstanceId
    requires CarriesTransfer(db.instances[sagaInstanceId].context, req, transactionId) && 0 <= req.sourceWalletId
    requires !(req.sourceWalletId < |db.wallets| && db.wallets[req.sourceWalletId].balance >= req.amount)
    ensures var r := ExecuteStepSpec(db, sagaInstanceId, DebitSourceWalletStep.StepName, 1);
      && r.result == Ok(false)
      && r.db.wallets == db.wallets && r.db.transactions == db.transactions && r.db.instances == db.instances
      && forall k :: 0 <= k < |r.db.steps| ==> !(r.db.steps[k].sagaInstanceId == sagaInstanceId && r.db.steps[k].status == StepCompleted)
  {
    var name := DebitSourceWalletStep.StepName;
    GetSagaStepByNameExact(name);
    assert GetSagaStepByName(name).value == DebitSourceWalletBean;
    DebitRefusedExecutes(db, db.instances[sagaInstanceId].context, req, transactionId);
    ExecuteStepOnFreshOrderFails(db, sagaInstanceId, name, 1);
    FailedAppendLeavesNoneCompleted(db.steps, ExecuteStepSpec(db, sagaInstanceId, name, 1).db.steps, sagaInstanceId);
  }

  /** A table with none of an instance's records, extended by one FAILED record, has no COMPLETED record of it. */
  lemma FailedAppendLeavesNoneCompleted(steps: seq<StepRecord>, after: seq<StepRecord>, sagaInstanceId: int)
    requires forall k :: 0 <= k < |steps| ==> steps[k].sagaInstanceId != sagaInstanceId
    requires |after| == |steps| + 1 && after[..|steps|] == steps && after[|steps|].status == StepFailed
    ensures forall k :: 0 <= k < |after| ==> !(after[k].sagaInstanceId == sagaInstanceId && after[k].status == StepCompleted)
  {
    forall k | 0 <= k < |steps|
      ensures after[k] == steps[k]
    {
      assert after[k] == after[..|steps|][k];
    }
  }

  /** So the run stops after DEBIT_SOURCE_WALLET, with the same guarantees. */
  lemma RunStopsAtRefusedDebit(db: Db, sagaInstanceId: int, req: TransferRequest, transactionId: nat)
    requires HasInstance(db, sagaInstanceId)
    requires forall k :: 0 <= k < |db.steps| ==> db.steps[k].sagaInstanceId != sagaInstanceId
    requires CarriesTransfer(db.instances[sagaInstanceId].context, req, transactionId) && 0 <= req.sourceWalletId
    requires !(req.sourceWalletId < |db.wallets| && db.wallets[req.sourceWalletId].balance >= req.amount)
    ensures var run := RunSteps(db, sagaInstanceId, [DebitSourceWallet, CreditDestinationWallet, SagaStepType.UpdateTransactionStatus], 1);
      && !run.allSucceeded
      && run.db.wallets == db.wallets && run.db.transactions == db.transactions && run.db.instances == db.instances
      && forall k :: 0 <= k < |run.db.steps| ==> !(run.db.steps[k].sagaInstanceId == sagaInstanceId && run.db.steps[k].status == StepCompleted)
  {
    DebitStepRefused(db, sagaInstanceId, req, transactionId);
  }

  /**
   * With the corrected start, a transfer from a missing or underfunded
   * source wallet ends FAILED: no wallet changes, and the saga, having no
   * completed step to undo, ends COMPENSATED.
   */
  lemma TransferRefused(db: Db, req: TransferRequest)
    requires Valid(db) && 0 <= req.sourceWalletId
    requires !(req.sourceWalletId < |db.wallets| && db.wallets[req.sourceWalletId].balance >= req.amount)
    ensures var r := InitiateTransferSpec(db, req);
      && r.result.Ok? && r.result.value.id == |db.transactions| && r.result.value.status == Some(TxFailed)
      && r.db.wallets == db.wallets
      && |db.instances| < |r.db.instances| && r.db.instances[|db.instances|].status == SagaCompensated
  {
    var created := CreateTransactionAndStartSagaCorrectedSpec(db, req);
    var iid := created.sagaInstanceId;
    CreatedContextCarriesTransfer(db, req);
    assert GetStepsForSaga(TransactionTransfer) == [DebitSourceWallet, CreditDestinationWallet, SagaStepType.UpdateTransactionStatus];
    RunStopsAtRefusedDebit(created.db, iid, req, created.transactionId);
    var run := RunSteps(created.db, iid, GetStepsForSaga(TransactionTransfer), 1);
    CompensateSagaWithNothingCompleted(run.db, iid);
  }
}
