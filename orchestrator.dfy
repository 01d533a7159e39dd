/**
 * The saga orchestrator: starts an instance, executes and compensates single
 * steps while keeping their step records up to date, compensates a whole
 * saga in reverse order, and marks an instance COMPLETED or FAILED.
 *
 * Each operation is a function from the store to an `Effect` (the store
 * afterwards and what the call returned or threw), and a method on `Store`
 * proved to do exactly that. Every repository helper that runs in its own
 * transaction is one atomic update of the store.
 */
module SagaOrchestrator {
  import opened Base
  import opened Enums
  import opened Context
  import opened Entities
  import opened Persistence
  import opened SagaStepInterface
  import opened SagaStepFactory
  import UpdateTransactionStatusStep

  function InstanceNotFound(sagaInstanceId: int): Exception
  {
    Runtime("SagaInstance not found with id: " + Show(sagaInstanceId))
  }

  function StepRecordNotFound(sagaStepId: int): Exception
  {
    Runtime("SagaStep not found with id: " + Show(sagaStepId))
  }

  const MarkCompletedFailure: string := "Failed to mark step completed and save context"
  const MarkCompensatedFailure: string := "Failed to mark step compensated and save context"

  // ---------------------------------------------------------------- startSaga

  /**
   * `startSaga`: one new instance, STARTED, holding a snapshot of the context
   * as it is at this call, with the context's saga type; its id is returned.
   */
  function StartSagaSpec(db: Db, c: ContextState): (r: (Db, nat))
    ensures r.1 == |db.instances| && |r.0.instances| == |db.instances| + 1
    ensures r.0.instances[..|db.instances|] == db.instances
    ensures r.0.instances[r.1].status == SagaStarted && r.0.instances[r.1].context == c
    ensures r.0.instances[r.1].sagaType == c.sagaType && r.0.instances[r.1].currentStep.None?
    ensures r.0.steps == db.steps && r.0.wallets == db.wallets && r.0.transactions == db.transactions && r.0.clock == db.clock
  {
    AddInstance(db, NewInstance(c.sagaType, c, SagaStarted, db.clock))
  }

  method StartSaga(store: Store, ctx: SagaContext) returns (sagaInstanceId: nat)
    modifies store
    ensures (store.State(), sagaInstanceId) == StartSagaSpec(old(store.State()), old(ctx.Snapshot()))
  {
    var snapshot := ctx.Snapshot();
    sagaInstanceId := store.InsertInstance(NewInstance(snapshot.sagaType, snapshot, SagaStarted, store.clock));
  }

  // ---------------------------------------------------------------- step records

  /**
   * `initializeStepRecord`: the instance's PENDING record with this name if
   * the query finds exactly one; a new PENDING record with this name and
   * order if it finds none (refused when the order is taken); the query's
   * exception if it finds several.
   */
  function InitializeStepRecordSpec(db: Db, sagaInstanceId: int, stepName: string, stepOrder: int): (r: Effect<nat>)
    ensures r.result.Ok? ==>
      r.result.value < |r.db.steps| && StepMatches(r.db.steps[r.result.value], sagaInstanceId, StepPending, stepName)
    ensures r.result.Ok? ==> |db.steps| <= |r.db.steps| <= |db.steps| + 1 && r.db.steps[..|db.steps|] == db.steps
    ensures r.db.instances == db.instances && r.db.wallets == db.wallets && r.db.transactions == db.transactions && r.db.clock == db.clock
    ensures r.result.Err? ==> r.db == db && r.result.error.kind == DataAccessException
  {
    match FindStep(db, sagaInstanceId, StepPending, stepName)
    case Err(e) => Effect(db, Err(e))
    case Ok(Some(sagaStepId)) => Effect(db, Ok(sagaStepId))
    case Ok(None) =>
      match AddStep(db, NewStepRecord(sagaInstanceId, stepName, stepOrder))
      case Err(e) => Effect(db, Err(e))
      case Ok((db1, sagaStepId)) => Effect(db1, Ok(sagaStepId))
  }

  method InitializeStepRecord(store: Store, sagaInstanceId: int, stepName: string, stepOrder: int) returns (r: Result<nat>)
    modifies store
    ensures Effect(store.State(), r) == InitializeStepRecordSpec(old(store.State()), sagaInstanceId, stepName, stepOrder)
  {
    var found := FindStep(store.State(), sagaInstanceId, StepPending, stepName);
    if found.Err? {
      return Err(found.error);
    }
    if found.value.Some? {
      return Ok(found.value.value);
    }
    r := store.InsertStep(NewStepRecord(sagaInstanceId, stepName, stepOrder));
  }

  /**
   * `updateStepStatus`: sets the record's status, and its error message only
   * when a message is given; an unknown record id throws.
   */
  function UpdateStepStatusSpec(db: Db, sagaStepId: int, status: StepStatus, errorMessage: Option<string>): (r: Effect<()>)
    ensures r.result.Ok? <==> 0 <= sagaStepId < |db.steps|
    ensures r.result.Err? ==> r == Effect(db, Err(StepRecordNotFound(sagaStepId)))
    ensures r.result.Ok? ==>
      && |r.db.steps| == |db.steps|
      && r.db.steps[sagaStepId].status == status
      && r.db.steps[sagaStepId].errorMessage == (if errorMessage.Some? then errorMessage else db.steps[sagaStepId].errorMessage)
      && r.db.steps[sagaStepId] == db.steps[sagaStepId].(status := status, errorMessage := r.db.steps[sagaStepId].errorMessage)
      && (forall k :: 0 <= k < |db.steps| && k != sagaStepId ==> r.db.steps[k] == db.steps[k])
    ensures r.db.instances == db.instances && r.db.wallets == db.wallets && r.db.transactions == db.transactions && r.db.clock == db.clock
  {
    if 0 <= sagaStepId < |db.steps| then
      var s := db.steps[sagaStepId].(status := status);
      var s' := if errorMessage.Some? then s.(errorMessage := errorMessage) else s;
      Effect(WithStep(db, sagaStepId, s'), Ok(()))
    else Effect(db, Err(StepRecordNotFound(sagaStepId)))
  }

  method UpdateStepStatus(store: Store, sagaStepId: int, status: StepStatus, errorMessage: Option<string>) returns (r: Result<()>)
    modifies store
    ensures Effect(store.State(), r) == UpdateStepStatusSpec(old(store.State()), sagaStepId, status, errorMessage)
  {
    if !(0 <= sagaStepId < |store.steps|) {
      return Err(StepRecordNotFound(sagaStepId));
    }
    var s := store.steps[sagaStepId];
    s := s.(status := status);
    if errorMessage.Some? {
      s := s.(errorMessage := errorMessage);
    }
    store.SaveStep(sagaStepId, s);
    return Ok(());
  }

  /**
   * `markStepCompletedAndSaveContext` / `markStepCompensatedAndSaveContext`:
   * in one transaction, the record gets `status` and the instance gets the
   * context; if either row is missing nothing is saved and the call throws
   * `failure`.
   */
  function MarkStepAndSaveContext(db: Db, sagaStepId: int, sagaInstanceId: int, c: ContextState, status: StepStatus, failure: string): (r: Effect<()>)
    ensures r.result.Ok? <==> 0 <= sagaStepId < |db.steps| && HasInstance(db, sagaInstanceId)
    ensures r.result.Err? ==> r == Effect(db, Err(Runtime(failure)))
    ensures r.result.Ok? ==>
      && r.db.steps == db.steps[sagaStepId := db.steps[sagaStepId].(status := status)]
      && r.db.instances == db.instances[sagaInstanceId := db.instances[sagaInstanceId].(context := c, updatedDate := db.clock)]
    ensures r.db.wallets == db.wallets && r.db.transactions == db.transactions && r.db.clock == db.clock
  {
    if 0 <= sagaStepId < |db.steps| && HasInstance(db, sagaInstanceId) then
      var db1 := WithStep(db, sagaStepId, db.steps[sagaStepId].(status := status));
      Effect(WithInstance(db1, sagaInstanceId, db1.instances[sagaInstanceId].(context := c)), Ok(()))
    else Effect(db, Err(Runtime(failure)))
  }

  method MarkStepAndSaveContextOn(store: Store, sagaStepId: int, sagaInstanceId: int, c: ContextState, status: StepStatus, failure: string)
    returns (r: Result<()>)
    modifies store
    ensures Effect(store.State(), r) == MarkStepAndSaveContext(old(store.State()), sagaStepId, sagaInstanceId, c, status, failure)
  {
    if !(0 <= sagaStepId < |store.steps| && 0 <= sagaInstanceId < |store.instances|) {
      return Err(Runtime(failure));
    }
    store.SaveStep(sagaStepId, store.steps[sagaStepId].(status := status));
    store.SaveInstance(sagaInstanceId, store.instances[sagaInstanceId].(context := c));
    return Ok(());
  }

  /** The message a failed step call leaves on its record: `falseMessage` for a false return, else `errorPrefix` and the exception's message. */
  function FailureMessage(outcome: StepOutcome, falseMessage: string, errorPrefix: string): string
  {
    match outcome
    case Threw(e) => errorPrefix + e.message
    case Returned(_) => falseMessage
  }

  /** The record becomes FAILED with the message, and the call returns false (or throws if the record is gone). */
  function FailStep(db: Db, sagaStepId: int, message: string): (r: Effect<bool>)
    ensures r.result.Ok? ==> r.result.value == false
  {
    var u := UpdateStepStatusSpec(db, sagaStepId, StepFailed, Some(message));
    Effect(u.db, match u.result case Ok(_) => Ok(false) case Err(e) => Err(e))
  }

  method FailStepOn(store: Store, sagaStepId: int, message: string) returns (r: Result<bool>)
    modifies store
    ensures Effect(store.State(), r) == FailStep(old(store.State()), sagaStepId, message)
  {
    var u := UpdateStepStatus(store, sagaStepId, StepFailed, Some(message));
    r := match u case Ok(_) => Ok(false) case Err(e) => Err(e);
  }

  /**
   * What `executeStep` / `compensateStep` do once the step has run: on true,
   * the record gets `done` and the instance the step's context, and the call
   * returns true; otherwise (false, an exception, or a failed save) the
   * record becomes FAILED and the call returns false.
   */
  function ConcludeStep(e: StepEffect, sagaInstanceId: int, sagaStepId: int, done: StepStatus,
                        markFailure: string, falseMessage: string, errorPrefix: string): Effect<bool>
  {
    if e.outcome == Returned(true) then
      var m := MarkStepAndSaveContext(e.db, sagaStepId, sagaInstanceId, e.ctx, done, markFailure);
      match m.result
      case Ok(_) => Effect(m.db, Ok(true))
      case Err(err) => FailStep(m.db, sagaStepId, errorPrefix + err.message)
    else FailStep(e.db, sagaStepId, FailureMessage(e.outcome, falseMessage, errorPrefix))
  }

  method Conclude(store: Store, sagaInstanceId: int, sagaStepId: int, ctx: SagaContext, outcome: StepOutcome, done: StepStatus,
                  markFailure: string, falseMessage: string, errorPrefix: string) returns (r: Result<bool>)
    requires 0 <= sagaStepId < |store.steps| && 0 <= sagaInstanceId < |store.instances|
    modifies store
    ensures Effect(store.State(), r) ==
      ConcludeStep(StepEffect(old(store.State()), ctx.Snapshot(), outcome), sagaInstanceId, sagaStepId, done, markFailure, falseMessage, errorPrefix)
  {
    if outcome == Returned(true) {
      // both rows exist, so this save cannot throw
      var marked := MarkStepAndSaveContextOn(store, sagaStepId, sagaInstanceId, ctx.Snapshot(), done, markFailure);
      r := Ok(true);
    } else {
      r := FailStepOn(store, sagaStepId, FailureMessage(outcome, falseMessage, errorPrefix));
    }
  }

  // ---------------------------------------------------------------- executeStep

  /**
   * `executeStep`: an unknown instance or step name throws; otherwise the
   * step record is found or created, marked RUNNING, and the step runs on
   * the context read from the instance's saved snapshot.
   */
  function ExecuteStepSpec(db: Db, sagaInstanceId: int, stepName: string, stepOrder: int): Effect<bool>
  {
    if !HasInstance(db, sagaInstanceId) then Effect(db, Err(InstanceNotFound(sagaInstanceId)))
    else
      match GetSagaStepByName(stepName)
      case Err(e) => Effect(db, Err(e))
      case Ok(bean) =>
        var init := InitializeStepRecordSpec(db, sagaInstanceId, stepName, stepOrder);
        match init.result
        case Err(e) => Effect(init.db, Err(e))
        case Ok(sagaStepId) =>
          var c := db.instances[sagaInstanceId].context;
          var running := UpdateStepStatusSpec(init.db, sagaStepId, StepRunning, None);
          match running.result
          case Err(e) => FailStep(running.db, sagaStepId, e.message)
          case Ok(_) =>
            ConcludeStep(RunExecute(bean, running.db, c), sagaInstanceId, sagaStepId, StepCompleted, MarkCompletedFailure, "Step returned false", "")
  }

  method ExecuteStep(store: Store, sagaInstanceId: int, stepName: string, stepOrder: int) returns (r: Result<bool>)
    modifies store
    ensures Effect(store.State(), r) == ExecuteStepSpec(old(store.State()), sagaInstanceId, stepName, stepOrder)
  {
    if !(0 <= sagaInstanceId < |store.instances|) {
      return Err(InstanceNotFound(sagaInstanceId));
    }
    var sagaInstance := store.instances[sagaInstanceId];
    var step := GetSagaStepByName(stepName);
    if step.Err? {
      return Err(step.error);
    }
    var sagaStep := InitializeStepRecord(store, sagaInstanceId, stepName, stepOrder);
    if sagaStep.Err? {
      return Err(sagaStep.error);
    }
    var ctx := new SagaContext.FromState(sagaInstance.context);
    // the record was just found or created, so this update cannot throw
    var running := UpdateStepStatus(store, sagaStep.value, StepRunning, None);
    ghost var before := store.State();
    var outcome := SagaStepFactory.Execute(step.value, store, ctx);
    StepsTouchOnlyLedger(step.value, before, sagaInstance.context);
    r := Conclude(store, sagaInstanceId, sagaStep.value, ctx, outcome, StepCompleted, MarkCompletedFailure, "Step returned false", "");
  }

  // ---------------------------------------------------------------- compensateStep

  /**
   * `compensateStep`: an unknown instance or step name throws, and so does a
   * step with no COMPLETED record; otherwise that record is marked RUNNING
   * and the step's compensation runs on the instance's saved context.
   */
  function CompensateStepSpec(db: Db, sagaInstanceId: int, stepName: string): Effect<bool>
  {
    if !HasInstance(db, sagaInstanceId) then Effect(db, Err(InstanceNotFound(sagaInstanceId)))
    else
      match GetSagaStepByName(stepName)
      case Err(e) => Effect(db, Err(e))
      case Ok(bean) =>
        match FindStep(db, sagaInstanceId, StepCompleted, stepName)
        case Err(e) => Effect(db, Err(e))
        case Ok(None) => Effect(db, Err(Runtime("Completed saga step not found for step name: " + stepName)))
        case Ok(Some(sagaStepId)) =>
          var c := db.instances[sagaInstanceId].context;
          var running := UpdateStepStatusSpec(db, sagaStepId, StepRunning, None);
          match running.result
          case Err(e) => FailStep(running.db, sagaStepId, "Compensation error: " + e.message)
          case Ok(_) =>
            ConcludeStep(RunCompensate(bean, running.db, c), sagaInstanceId, sagaStepId, StepCompensated,
                         MarkCompensatedFailure, "Compensation returned false", "Compensation error: ")
  }

  method CompensateStep(store: Store, sagaInstanceId: int, stepName: string) returns (r: Result<bool>)
    modifies store
    ensures Effect(store.State(), r) == CompensateStepSpec(old(store.State()), sagaInstanceId, stepName)
  {
    if !(0 <= sagaInstanceId < |store.instances|) {
      return Err(InstanceNotFound(sagaInstanceId));
    }
    var sagaInstance := store.instances[sagaInstanceId];
    var step := GetSagaStepByName(stepName);
    if step.Err? {
      return Err(step.error);
    }
    var sagaStep := FindStep(store.State(), sagaInstanceId, StepCompleted, stepName);
    if sagaStep.Err? {
      return Err(sagaStep.error);
    }
    if sagaStep.value.None? {
      return Err(Runtime("Completed saga step not found for step name: " + stepName));
    }
    var sagaStepId := sagaStep.value.value;
    var ctx := new SagaContext.FromState(sagaInstance.context);
    // the record was just found, so this update cannot throw
    var running := UpdateStepStatus(store, sagaStepId, StepRunning, None);
    ghost var before := store.State();
    var outcome := SagaStepFactory.Compensate(step.value, store, ctx);
    StepsTouchOnlyLedger(step.value, before, sagaInstance.context);
    r := Conclude(store, sagaInstanceId, sagaStepId, ctx, outcome, StepCompensated,
                  MarkCompensatedFailure, "Compensation returned false", "Compensation error: ");
  }

  // ---------------------------------------------------------------- saga status

  /** `updateSagaStatus`: sets the status of an existing instance, whatever it was; an unknown id throws. */
  function UpdateSagaStatusSpec(db: Db, sagaInstanceId: int, status: SagaStatus): (r: Effect<()>)
    ensures r.result.Ok? <==> HasInstance(db, sagaInstanceId)
    ensures r.result.Err? ==> r == Effect(db, Err(InstanceNotFound(sagaInstanceId)))
    ensures r.result.Ok? ==>
      r.db.instances == db.instances[sagaInstanceId := db.instances[sagaInstanceId].(status := status, updatedDate := db.clock)]
    ensures r.db.steps == db.steps && r.db.wallets == db.wallets && r.db.transactions == db.transactions && r.db.clock == db.clock
  {
    if HasInstance(db, sagaInstanceId) then
      Effect(WithInstance(db, sagaInstanceId, db.instances[sagaInstanceId].(status := status)), Ok(()))
    else Effect(db, Err(InstanceNotFound(sagaInstanceId)))
  }

  method UpdateSagaStatus(store: Store, sagaInstanceId: int, status: SagaStatus) returns (r: Result<()>)
    modifies store
    ensures Effect(store.State(), r) == UpdateSagaStatusSpec(old(store.State()), sagaInstanceId, status)
  {
    if !(0 <= sagaInstanceId < |store.instances|) {
      return Err(InstanceNotFound(sagaInstanceId));
    }
    store.SaveInstance(sagaInstanceId, store.instances[sagaInstanceId].(status := status));
    return Ok(());
  }

  /** `failSaga`: the instance becomes FAILED; if that update throws, "Failed to mark saga as failed" is thrown. */
  function FailSagaSpec(db: Db, sagaInstanceId: int): (r: Effect<()>)
    ensures r.result.Ok? <==> HasInstance(db, sagaInstanceId)
    ensures r.result.Err? ==> r == Effect(db, Err(Runtime("Failed to mark saga as failed")))
    ensures r.result.Ok? ==> r.db == UpdateSagaStatusSpec(db, sagaInstanceId, SagaFailed).db && r.db.instances[sagaInstanceId].status == SagaFailed
  {
    var u := UpdateSagaStatusSpec(db, sagaInstanceId, SagaFailed);
    Effect(u.db, match u.result case Ok(_) => Ok(()) case Err(_) => Err(Runtime("Failed to mark saga as failed")))
  }

  method FailSaga(store: Store, sagaInstanceId: int) returns (r: Result<()>)
    modifies store
    ensures Effect(store.State(), r) == FailSagaSpec(old(store.State()), sagaInstanceId)
  {
    var u := UpdateSagaStatus(store, sagaInstanceId, SagaFailed);
    r := match u case Ok(_) => Ok(()) case Err(_) => Err(Runtime("Failed to mark saga as failed"));
  }

  /** `completeSaga`: the instance becomes COMPLETED; if that update throws, "Failed to mark saga as completed" is thrown. */
  function CompleteSagaSpec(db: Db, sagaInstanceId: int): (r: Effect<()>)
    ensures r.result.Ok? <==> HasInstance(db, sagaInstanceId)
    ensures r.result.Err? ==> r == Effect(db, Err(Runtime("Failed to mark saga as completed")))
    ensures r.result.Ok? ==> r.db == UpdateSagaStatusSpec(db, sagaInstanceId, SagaCompleted).db && r.db.instances[sagaInstanceId].status == SagaCompleted
  {
    var u := UpdateSagaStatusSpec(db, sagaInstanceId, SagaCompleted);
    Effect(u.db, match u.result case Ok(_) => Ok(()) case Err(_) => Err(Runtime("Failed to mark saga as completed")))
  }

  method CompleteSaga(store: Store, sagaInstanceId: int) returns (r: Result<()>)
    modifies store
    ensures Effect(store.State(), r) == CompleteSagaSpec(old(store.State()), sagaInstanceId)
  {
    var u := UpdateSagaStatus(store, sagaInstanceId, SagaCompleted);
    r := match u case Ok(_) => Ok(()) case Err(_) => Err(Runtime("Failed to mark saga as completed"));
  }

  // ---------------------------------------------------------------- compensateSaga

  /** The names of the given step records, in the same order. */
  function StepNames(db: Db, ids: seq<nat>): (r: seq<string>)
    requires forall k :: 0 <= k < |ids| ==> ids[k] < |db.steps|
    ensures |r| == |ids| && forall k :: 0 <= k < |ids| ==> r[k] == db.steps[ids[k]].stepName
  {
    seq(|ids|, k requires 0 <= k < |ids| => db.steps[ids[k]].stepName)
  }

  /** How a run over a list of steps to compensate ended. */
  datatype Sweep = Sweep(db: Db, allCompensated: bool)

  /**
   * The loop of `compensateSaga`: `compensateStep` on each name in turn,
   * stopping at the first call that returns false or throws.
   */
  function CompensateEach(db: Db, sagaInstanceId: int, stepNames: seq<string>): (r: Sweep)
    ensures |r.db.instances| == |db.instances| && |r.db.steps| == |db.steps|
    ensures |r.db.wallets| == |db.wallets| && |r.db.transactions| == |db.transactions| && r.db.clock == db.clock
    ensures stepNames == [] ==> r == Sweep(db, true)
    decreases |stepNames|
  {
    if stepNames == [] then Sweep(db, true)
    else
      var call := CompensateStepSpec(db, sagaInstanceId, stepNames[0]);
      CompensateStepKeepsShape(db, sagaInstanceId, stepNames[0]);
      if call.result == Ok(true) then CompensateEach(call.db, sagaInstanceId, stepNames[1..])
      else Sweep(call.db, false)
  }

  /** What `compensateSaga`'s outer catch does: mark the saga failed, then throw (that failure's exception if it failed too). */
  function CatchCompensateSaga(db: Db, sagaInstanceId: int): Effect<()>
  {
    var f := FailSagaSpec(db, sagaInstanceId);
    Effect(f.db, Err(match f.result case Err(e) => e case Ok(_) => Runtime("Failed to compensate saga")))
  }

  /** The step names `compensateSaga` walks: the instance's COMPLETED records, last one first. */
  function CompensationOrder(db: Db, sagaInstanceId: int): seq<string>
  {
    var ids := CompletedSteps(db, sagaInstanceId);
    ReversedKeepsIds(db, ids);
    StepNames(db, Reversed(ids))
  }

  /**
   * `compensateSaga`: with no COMPLETED record the instance becomes
   * COMPENSATED at once; otherwise it becomes COMPENSATING, its completed
   * steps are compensated last one first, stopping at the first failure,
   * and it ends COMPENSATED or, through `failSaga`, FAILED. Anything thrown
   * on the way marks it failed and is rethrown.
   */
  function CompensateSagaSpec(db: Db, sagaInstanceId: int): Effect<()>
  {
    if !HasInstance(db, sagaInstanceId) then CatchCompensateSaga(db, sagaInstanceId)
    else if |CompletedSteps(db, sagaInstanceId)| == 0 then
      var u := UpdateSagaStatusSpec(db, sagaInstanceId, SagaCompensated);
      match u.result
      case Ok(_) => u
      case Err(_) => CatchCompensateSaga(u.db, sagaInstanceId)
    else
      var u := UpdateSagaStatusSpec(db, sagaInstanceId, SagaCompensating);
      match u.result
      case Err(_) => CatchCompensateSaga(u.db, sagaInstanceId)
      case Ok(_) => FinishCompensation(CompensateEach(u.db, sagaInstanceId, CompensationOrder(db, sagaInstanceId)), sagaInstanceId)
  }

  /** After the loop: COMPENSATED if every step was compensated, else `failSaga`; a throw goes to the outer catch. */
  function FinishCompensation(run: Sweep, sagaInstanceId: int): Effect<()>
  {
    var last := if run.allCompensated then UpdateSagaStatusSpec(run.db, sagaInstanceId, SagaCompensated)
                else FailSagaSpec(run.db, sagaInstanceId);
    match last.result
    case Ok(_) => last
    case Err(_) => CatchCompensateSaga(last.db, sagaInstanceId)
  }

  method CompensateSaga(store: Store, sagaInstanceId: int) returns (r: Result<()>)
    modifies store
    ensures Effect(store.State(), r) == CompensateSagaSpec(old(store.State()), sagaInstanceId)
  {
    if !(0 <= sagaInstanceId < |store.instances|) {
      var f := FailSaga(store, sagaInstanceId);
      r := Err(match f case Err(e) => e case Ok(_) => Runtime("Failed to compensate saga"));
      return;
    }
    ghost var db0 := store.State();
    var completedSteps := CompletedSteps(store.State(), sagaInstanceId);
    if |completedSteps| == 0 {
      // the instance exists, so this update cannot throw
      var u := UpdateSagaStatus(store, sagaInstanceId, SagaCompensated);
      return Ok(());
    }
    var u := UpdateSagaStatus(store, sagaInstanceId, SagaCompensating);
    var loaded := new nat[|completedSteps|](k requires 0 <= k < |completedSteps| => completedSteps[k]);
    assert loaded[..] == completedSteps;
    ReverseLoadedSteps(loaded);
    ReversedKeepsIds(db0, completedSteps);
    var names := StepNames(store.State(), loaded[..]);
    assert names == CompensationOrder(db0, sagaInstanceId);
    var allStepsCompensated := CompensateInOrder(store, sagaInstanceId, names);
    r := FinishCompensationOn(store, sagaInstanceId, allStepsCompensated);
  }

  /**
   * `Collections.reverse(completedSteps)` on the loaded records (held by
   * their ids): the two ends are swapped and the window between them
   * shrinks, so the front holds the reversed tail and the back the reversed
   * head of the list as loaded.
   */
  method ReverseLoadedSteps(completedSteps: array<nat>)
    modifies completedSteps
    ensures completedSteps[..] == Reversed(old(completedSteps[..]))
  {
    ghost var loaded := completedSteps[..];
    var front, back := 0, completedSteps.Length;
    ReversedLength(loaded[..0]);
    while front + 1 < back
      invariant 0 <= front <= back <= completedSteps.Length && front + back == completedSteps.Length
      invariant PartlyReversed(completedSteps[..], loaded, front, back)
      decreases back - front
    {
      ghost var before := completedSteps[..];
      completedSteps[front], completedSteps[back - 1] := completedSteps[back - 1], completedSteps[front];
      assert completedSteps[..] == before[front := before[back - 1]][back - 1 := before[front]];
      SwapEnds(before, loaded, front, back);
      front, back := front + 1, back - 1;
    }
    FullyReversed(completedSteps[..], loaded, front, back);
  }

  /**
   * Reversal in progress: the front holds the loaded list's tail reversed,
   * the back its head reversed, and the window between is still as loaded.
   */
  ghost predicate PartlyReversed(current: seq<nat>, loaded: seq<nat>, front: nat, back: nat)
  {
    && |current| == |loaded| && front <= back <= |loaded|
    && current[..front] == Reversed(loaded[back..])
    && current[front..back] == loaded[front..back]
    && current[back..] == Reversed(loaded[..front])
  }

  /** Swapping the two ends of the window moves one more element to each side. */
  lemma SwapEnds(current: seq<nat>, loaded: seq<nat>, front: nat, back: nat)
    requires front + 1 < back && PartlyReversed(current, loaded, front, back)
    ensures PartlyReversed(current[front := current[back - 1]][back - 1 := current[front]], loaded, front + 1, back - 1)
  {
    var next := current[front := current[back - 1]][back - 1 := current[front]];
    var last, first := loaded[back - 1], loaded[front];
    assert current[front] == first && current[back - 1] == last by {
      assert current[front..back][0] == loaded[front..back][0];
      assert current[front..back][back - 1 - front] == loaded[front..back][back - 1 - front];
    }
    assert next[..front + 1] == Reversed(loaded[back - 1..]) by {
      assert next[..front + 1] == current[..front] + [last];
      assert loaded[back - 1..][1..] == loaded[back..];
    }
    assert next[front + 1..back - 1] == loaded[front + 1..back - 1] by {
      forall k | front + 1 <= k < back - 1
        ensures next[k] == loaded[k]
      {
        assert current[front..back][k - front] == loaded[front..back][k - front];
      }
    }
    assert next[back - 1..] == Reversed(loaded[..front + 1]) by {
      assert next[back - 1..] == [first] + current[back..];
      assert loaded[..front + 1] == loaded[..front] + [first];
      ReversedConcat(loaded[..front], [first]);
      assert [first][1..] == [];
    }
  }

  /** Once at most one element is left between the ends, the whole list is reversed. */
  lemma FullyReversed(current: seq<nat>, loaded: seq<nat>, front: nat, back: nat)
    requires back <= front + 1 && PartlyReversed(current, loaded, front, back)
    ensures current == Reversed(loaded)
  {
    var head, middle, tail := loaded[..front], loaded[front..back], loaded[back..];
    assert loaded == (head + middle) + tail;
    ReversedConcat(head + middle, tail);
    ReversedConcat(head, middle);
    assert Reversed(middle) == middle by {
      if front < back {
        assert middle == [loaded[front]];
      }
    }
    assert Reversed(loaded) == Reversed(tail) + (middle + Reversed(head));
    assert current == current[..front] + (current[front..back] + current[back..]);
  }

  /** Reversing a list of step ids keeps every id a valid record. */
  lemma ReversedKeepsIds(db: Db, ids: seq<nat>)
    requires forall k :: 0 <= k < |ids| ==> ids[k] < |db.steps|
    ensures |Reversed(ids)| == |ids|
    ensures forall k :: 0 <= k < |ids| ==> Reversed(ids)[k] == ids[|ids| - 1 - k] < |db.steps|
  {
    ReversedLength(ids);
    forall k | 0 <= k < |ids|
      ensures Reversed(ids)[k] == ids[|ids| - 1 - k]
    {
      ReversedAt(ids, k);
    }
  }

  /** The loop of `compensateSaga` over the reversed records' names, with its `allStepsCompensated` flag and `break`. */
  method CompensateInOrder(store: Store, sagaInstanceId: int, order: seq<string>) returns (allStepsCompensated: bool)
    modifies store
    ensures Sweep(store.State(), allStepsCompensated) == CompensateEach(old(store.State()), sagaInstanceId, order)
  {
    allStepsCompensated := true;
    var i := 0;
    while i < |order|
      invariant 0 <= i <= |order|
      invariant CompensateEach(old(store.State()), sagaInstanceId, order) == CompensateEach(store.State(), sagaInstanceId, order[i..])
    {
      var compensated := CompensateStep(store, sagaInstanceId, order[i]);
      if compensated != Ok(true) {
        allStepsCompensated := false;
        break;
      }
      i := i + 1;
    }
  }

  method FinishCompensationOn(store: Store, sagaInstanceId: int, allStepsCompensated: bool) returns (r: Result<()>)
    requires 0 <= sagaInstanceId < |store.instances|
    modifies store
    ensures Effect(store.State(), r) == FinishCompensation(Sweep(old(store.State()), allStepsCompensated), sagaInstanceId)
  {
    // the instance exists, so neither update can throw
    if allStepsCompensated {
      var v := UpdateSagaStatus(store, sagaInstanceId, SagaCompensated);
    } else {
      var f := FailSaga(store, sagaInstanceId);
    }
    return Ok(());
  }

  // ---------------------------------------------------------------- properties

  /** `compensateStep` keeps every table's size, the clock, and (past the checks) changes only the record it found. */
  lemma CompensateStepKeepsShape(db: Db, sagaInstanceId: int, stepName: string)
    ensures var r := CompensateStepSpec(db, sagaInstanceId, stepName);
      && |r.db.instances| == |db.instances| && |r.db.steps| == |db.steps|
      && |r.db.wallets| == |db.wallets| && |r.db.transactions| == |db.transactions| && r.db.clock == db.clock
  {
    if HasInstance(db, sagaInstanceId) && GetSagaStepByName(stepName).Ok? {
      var found := FindStep(db, sagaInstanceId, StepCompleted, stepName);
      if found.Ok? && found.value.Some? {
        var running := UpdateStepStatusSpec(db, found.value.value, StepRunning, None);
        StepsTouchOnlyLedger(GetSagaStepByName(stepName).value, running.db, db.instances[sagaInstanceId].context);
      }
    }
  }

  /**
   * An existing PENDING record with this name is reused: nothing is saved,
   * and the call succeeds (with that record) exactly when it is the only one.
   */
  lemma InitializeStepRecordReuses(db: Db, sagaInstanceId: int, stepName: string, stepOrder: int, k: nat)
    requires k < |db.steps| && StepMatches(db.steps[k], sagaInstanceId, StepPending, stepName)
    ensures var r := InitializeStepRecordSpec(db, sagaInstanceId, stepName, stepOrder);
      && r.db == db
      && (r.result.Ok? <==> forall j :: 0 <= j < |db.steps| && j != k ==> !StepMatches(db.steps[j], sagaInstanceId, StepPending, stepName))
      && (r.result.Ok? ==> r.result.value == k)
  {
  }

  /**
   * With no PENDING record of this name, a new PENDING record is appended,
   * unless the instance already has a record with this order, which the
   * unique constraint refuses.
   */
  lemma InitializeStepRecordCreates(db: Db, sagaInstanceId: int, stepName: string, stepOrder: int)
    requires forall j :: 0 <= j < |db.steps| ==> !StepMatches(db.steps[j], sagaInstanceId, StepPending, stepName)
    ensures var r := InitializeStepRecordSpec(db, sagaInstanceId, stepName, stepOrder);
      && (r.result.Ok? <==> forall j :: 0 <= j < |db.steps| ==> !(db.steps[j].sagaInstanceId == sagaInstanceId && db.steps[j].stepOrder == stepOrder))
      && (r.result.Ok? ==> r.result.value == |db.steps| && r.db == db.(steps := db.steps + [NewStepRecord(sagaInstanceId, stepName, stepOrder)]))
      && (r.result.Err? ==> r.db == db)
  {
  }

  /**
   * After the step has run on existing rows: true marks the record `done`
   * and saves the step's context into the instance; anything else marks the
   * record FAILED with its message and saves no context. Either way the call
   * returns instead of throwing.
   */
  lemma ConcludeStepOutcome(e: StepEffect, sagaInstanceId: int, sagaStepId: int, done: StepStatus,
                            markFailure: string, falseMessage: string, errorPrefix: string)
    requires 0 <= sagaStepId < |e.db.steps| && HasInstance(e.db, sagaInstanceId)
    ensures var r := ConcludeStep(e, sagaInstanceId, sagaStepId, done, markFailure, falseMessage, errorPrefix);
      var ok := e.outcome == Returned(true);
      && r.result == Ok(ok)
      && r.db.wallets == e.db.wallets && r.db.transactions == e.db.transactions && r.db.clock == e.db.clock
      && r.db.steps == e.db.steps[sagaStepId := e.db.steps[sagaStepId].(
           status := if ok then done else StepFailed,
           errorMessage := if ok then e.db.steps[sagaStepId].errorMessage else Some(FailureMessage(e.outcome, falseMessage, errorPrefix)))]
      && r.db.instances == if ok then e.db.instances[sagaInstanceId := e.db.instances[sagaInstanceId].(context := e.ctx, updatedDate := e.db.clock)]
                           else e.db.instances
  {
  }

  /** `executeStep` throws, and touches nothing, for an unknown instance or an unregistered step name. */
  lemma ExecuteStepRejects(db: Db, sagaInstanceId: int, stepName: string, stepOrder: int)
    requires !HasInstance(db, sagaInstanceId) || GetSagaStepByName(stepName).Err?
    ensures var r := ExecuteStepSpec(db, sagaInstanceId, stepName, stepOrder);
      && r.db == db
      && r.result == Err(if HasInstance(db, sagaInstanceId) then IllegalArgument("Invalid Saga Step Name: " + stepName)
                         else InstanceNotFound(sagaInstanceId))
  {
  }

  /**
   * Once its record exists, `executeStep` never throws. The step runs on the
   * instance's saved context. If it returns true, the record ends COMPLETED,
   * the instance holds the context the step left, and the result is true.
   * Otherwise the record ends FAILED with "Step returned false" or the
   * exception's message, the instances are unchanged, and the result is false.
   */
  lemma ExecuteStepOutcome(db: Db, sagaInstanceId: int, stepName: string, stepOrder: int)
    requires HasInstance(db, sagaInstanceId) && GetSagaStepByName(stepName).Ok?
    requires InitializeStepRecordSpec(db, sagaInstanceId, stepName, stepOrder).result.Ok?
    ensures var init := InitializeStepRecordSpec(db, sagaInstanceId, stepName, stepOrder);
      var sid := init.result.value;
      var e := RunExecute(GetSagaStepByName(stepName).value, db, db.instances[sagaInstanceId].context);
      var ok := e.outcome == Returned(true);
      var r := ExecuteStepSpec(db, sagaInstanceId, stepName, stepOrder);
      && r.result == Ok(ok)
      && r.db.wallets == e.db.wallets && r.db.transactions == e.db.transactions
      && r.db.steps == init.db.steps[sid := init.db.steps[sid].(
           status := if ok then StepCompleted else StepFailed,
           errorMessage := if ok then init.db.steps[sid].errorMessage else Some(FailureMessage(e.outcome, "Step returned false", "")))]
      && r.db.instances == if ok then db.instances[sagaInstanceId := db.instances[sagaInstanceId].(context := e.ctx, updatedDate := db.clock)]
                           else db.instances
  {
    var init := InitializeStepRecordSpec(db, sagaInstanceId, stepName, stepOrder);
    var sid := init.result.value;
    var c := db.instances[sagaInstanceId].context;
    var e0 := RunExecute(GetSagaStepByName(stepName).value, db, c);
    ExecuteStepUnfolds(db, sagaInstanceId, stepName, stepOrder);
    StepsTouchOnlyLedger(GetSagaStepByName(stepName).value, db, c);
    ConcludeRunningStep(e0, db.instances, init.db.steps, sid, sagaInstanceId);
  }

  /**
   * Concluding a step whose record `sid` was marked RUNNING over a step run
   * `e0`: the record ends COMPLETED or FAILED, and the instance gets the
   * step's context exactly when the step returned true.
   */
  lemma ConcludeRunningStep(e0: StepEffect, instances: seq<SagaInstance>, steps: seq<StepRecord>, sid: nat, sagaInstanceId: int)
    requires sid < |steps| && 0 <= sagaInstanceId < |instances|
    ensures var e := StepEffect(e0.db.(instances := instances, steps := steps[sid := steps[sid].(status := StepRunning)]), e0.ctx, e0.outcome);
      var r := ConcludeStep(e, sagaInstanceId, sid, StepCompleted, MarkCompletedFailure, "Step returned false", "");
      var ok := e0.outcome == Returned(true);
      && r.result == Ok(ok)
      && r.db.wallets == e0.db.wallets && r.db.transactions == e0.db.transactions
      && r.db.steps == steps[sid := steps[sid].(
           status := if ok then StepCompleted else StepFailed,
           errorMessage := if ok then steps[sid].errorMessage else Some(FailureMessage(e0.outcome, "Step returned false", "")))]
      && r.db.instances == if ok then instances[sagaInstanceId := instances[sagaInstanceId].(context := e0.ctx, updatedDate := e0.db.clock)]
                           else instances
  {
    var e := StepEffect(e0.db.(instances := instances, steps := steps[sid := steps[sid].(status := StepRunning)]), e0.ctx, e0.outcome);
    ConcludeStepOutcome(e, sagaInstanceId, sid, StepCompleted, MarkCompletedFailure, "Step returned false", "");
    var ok := e0.outcome == Returned(true);
    var last := steps[sid].(status := if ok then StepCompleted else StepFailed,
                            errorMessage := if ok then steps[sid].errorMessage else Some(FailureMessage(e0.outcome, "Step returned false", "")));
    assert e.db.steps[sid := last] == steps[sid := last];
  }

  /**
   * Once its record exists, `executeStep` is the conclusion of a step run on
   * the saved context over the store with that record marked RUNNING; the
   * run differs from one on the untouched store only in the saga tables.
   */
  lemma ExecuteStepUnfolds(db: Db, sagaInstanceId: int, stepName: string, stepOrder: int)
    requires HasInstance(db, sagaInstanceId) && GetSagaStepByName(stepName).Ok?
    requires InitializeStepRecordSpec(db, sagaInstanceId, stepName, stepOrder).result.Ok?
    ensures var init := InitializeStepRecordSpec(db, sagaInstanceId, stepName, stepOrder);
      var sid := init.result.value;
      var running := UpdateStepStatusSpec(init.db, sid, StepRunning, None);
      var c := db.instances[sagaInstanceId].context;
      var e0 := RunExecute(GetSagaStepByName(stepName).value, db, c);
      var e := RunExecute(GetSagaStepByName(stepName).value, running.db, c);
      && 0 <= sid < |e.db.steps| && HasInstance(e.db, sagaInstanceId)
      && e == e0.(db := e0.db.(instances := db.instances, steps := init.db.steps[sid := init.db.steps[sid].(status := StepRunning)]))
      && ExecuteStepSpec(db, sagaInstanceId, stepName, stepOrder) ==
           ConcludeStep(e, sagaInstanceId, sid, StepCompleted, MarkCompletedFailure, "Step returned false", "")
  {
    var init := InitializeStepRecordSpec(db, sagaInstanceId, stepName, stepOrder);
    var sid := init.result.value;
    var bean := GetSagaStepByName(stepName).value;
    var c := db.instances[sagaInstanceId].context;
    var running := UpdateStepStatusSpec(init.db, sid, StepRunning, None);
    assert running.db.steps == init.db.steps[sid := init.db.steps[sid].(status := StepRunning)];
    assert running.db == db.(instances := running.db.instances, steps := running.db.steps);
    StepsIgnoreSagaTables(bean, db, c, running.db.instances, running.db.steps);
  }

  /**
   * `executeStep` keeps the number of instances, wallets and transactions and
   * the clock, and adds at most one step record.
   */
  lemma ExecuteStepKeepsShape(db: Db, sagaInstanceId: int, stepName: string, stepOrder: int)
    ensures var r := ExecuteStepSpec(db, sagaInstanceId, stepName, stepOrder);
      && |r.db.instances| == |db.instances| && |db.steps| <= |r.db.steps| <= |db.steps| + 1
      && |r.db.wallets| == |db.wallets| && |r.db.transactions| == |db.transactions| && r.db.clock == db.clock
  {
    if HasInstance(db, sagaInstanceId) && GetSagaStepByName(stepName).Ok? {
      var init := InitializeStepRecordSpec(db, sagaInstanceId, stepName, stepOrder);
      if init.result.Ok? {
        var sid := init.result.value;
        var running := UpdateStepStatusSpec(init.db, sid, StepRunning, None);
        assert |running.db.steps| == |init.db.steps|;
        var e := RunExecute(GetSagaStepByName(stepName).value, running.db, db.instances[sagaInstanceId].context);
        StepsTouchOnlyLedger(GetSagaStepByName(stepName).value, running.db, db.instances[sagaInstanceId].context);
        ConcludeStepKeepsShape(e, sagaInstanceId, sid, StepCompleted, MarkCompletedFailure, "Step returned false", "");
      }
    }
  }

  lemma FailStepKeepsShape(db: Db, sagaStepId: int, message: string)
    ensures var r := FailStep(db, sagaStepId, message);
      r.db == db.(steps := r.db.steps) && |r.db.steps| == |db.steps|
  {
  }

  /** Concluding a step rewrites one step record and at most one instance, and adds no rows. */
  lemma ConcludeStepKeepsShape(e: StepEffect, sagaInstanceId: int, sagaStepId: int, done: StepStatus,
                               markFailure: string, falseMessage: string, errorPrefix: string)
    ensures var r := ConcludeStep(e, sagaInstanceId, sagaStepId, done, markFailure, falseMessage, errorPrefix);
      && |r.db.instances| == |e.db.instances| && |r.db.steps| == |e.db.steps|
      && r.db.wallets == e.db.wallets && r.db.transactions == e.db.transactions && r.db.clock == e.db.clock
  {
    if e.outcome == Returned(true) {
      var m := MarkStepAndSaveContext(e.db, sagaStepId, sagaInstanceId, e.ctx, done, markFailure);
      if m.result.Err? {
        FailStepKeepsShape(m.db, sagaStepId, errorPrefix + m.result.error.message);
      }
    } else {
      FailStepKeepsShape(e.db, sagaStepId, FailureMessage(e.outcome, falseMessage, errorPrefix));
    }
  }

  /**
   * What `executeStep` saves into the instance differs from the saved
   * context only under the keys the step records its values under.
   */
  lemma ExecuteStepSavesOnlyRecordedKeys(db: Db, sagaInstanceId: int, stepName: string, stepOrder: int)
    requires HasInstance(db, sagaInstanceId) && GetSagaStepByName(stepName).Ok?
    ensures var r := ExecuteStepSpec(db, sagaInstanceId, stepName, stepOrder);
      && |r.db.instances| == |db.instances|
      && SameOutside(db.instances[sagaInstanceId].context, r.db.instances[sagaInstanceId].context, RecordedKeys(GetSagaStepByName(stepName).value))
  {
    ExecuteStepKeepsShape(db, sagaInstanceId, stepName, stepOrder);
    if InitializeStepRecordSpec(db, sagaInstanceId, stepName, stepOrder).result.Ok? {
      ExecuteStepOutcome(db, sagaInstanceId, stepName, stepOrder);
      StepsWriteOnlyRecordedKeys(GetSagaStepByName(stepName).value, db, db.instances[sagaInstanceId].context);
    }
  }

  /** Every step record of the instance is COMPLETED and has an order below `stepOrder`. */
  predicate CompletedBelow(db: Db, sagaInstanceId: int, stepOrder: int)
  {
    forall k :: 0 <= k < |db.steps| && db.steps[k].sagaInstanceId == sagaInstanceId ==>
      db.steps[k].status == StepCompleted && db.steps[k].stepOrder < stepOrder
  }

  /**
   * A step run under an order the instance has not used yet, whose call
   * returns true: a new record is created and ends COMPLETED, the instance
   * holds the step's context, and `executeStep` returns true.
   */
  lemma ExecuteStepOnFreshOrder(db: Db, sagaInstanceId: int, stepName: string, stepOrder: int)
    requires HasInstance(db, sagaInstanceId) && GetSagaStepByName(stepName).Ok?
    requires CompletedBelow(db, sagaInstanceId, stepOrder)
    requires RunExecute(GetSagaStepByName(stepName).value, db, db.instances[sagaInstanceId].context).outcome == Returned(true)
    ensures var e := RunExecute(GetSagaStepByName(stepName).value, db, db.instances[sagaInstanceId].context);
      var r := ExecuteStepSpec(db, sagaInstanceId, stepName, stepOrder);
      && r.result == Ok(true)
      && r.db.wallets == e.db.wallets && r.db.transactions == e.db.transactions && r.db.clock == db.clock
      && r.db.instances == db.instances[sagaInstanceId := db.instances[sagaInstanceId].(context := e.ctx, updatedDate := db.clock)]
      && CompletedBelow(r.db, sagaInstanceId, stepOrder + 1)
  {
    FreshOrderCreatesRecord(db, sagaInstanceId, stepName, stepOrder);
    ExecuteStepOutcome(db, sagaInstanceId, stepName, stepOrder);
    ExecuteStepKeepsShape(db, sagaInstanceId, stepName, stepOrder);
    FreshOrderEndsCompleted(db, sagaInstanceId, stepName, stepOrder);
  }

  /**
   * A step run under an order the instance has not used yet, whose call does
   * not return true: a new record is appended and ends FAILED, the instances
   * are unchanged, and `executeStep` returns false.
   */
  lemma ExecuteStepOnFreshOrderFails(db: Db, sagaInstanceId: int, stepName: string, stepOrder: int)
    requires HasInstance(db, sagaInstanceId) && GetSagaStepByName(stepName).Ok?
    requires CompletedBelow(db, sagaInstanceId, stepOrder)
    requires RunExecute(GetSagaStepByName(stepName).value, db, db.instances[sagaInstanceId].context).outcome != Returned(true)
    ensures var e := RunExecute(GetSagaStepByName(stepName).value, db, db.instances[sagaInstanceId].context);
      var r := ExecuteStepSpec(db, sagaInstanceId, stepName, stepOrder);
      && r.result == Ok(false)
      && r.db.wallets == e.db.wallets && r.db.transactions == e.db.transactions && r.db.instances == db.instances
      && |r.db.steps| == |db.steps| + 1 && r.db.steps[..|db.steps|] == db.steps
      && r.db.steps[|db.steps|].sagaInstanceId == sagaInstanceId && r.db.steps[|db.steps|].status == StepFailed
  {
    FreshOrderCreatesRecord(db, sagaInstanceId, stepName, stepOrder);
    ExecuteStepOutcome(db, sagaInstanceId, stepName, stepOrder);
  }

  /** The record a successful step appends on a fresh order is COMPLETED, so every record of the instance is below the next order. */
  lemma FreshOrderEndsCompleted(db: Db, sagaInstanceId: int, stepName: string, stepOrder: int)
    requires HasInstance(db, sagaInstanceId) && GetSagaStepByName(stepName).Ok?
    requires CompletedBelow(db, sagaInstanceId, stepOrder)
    requires RunExecute(GetSagaStepByName(stepName).value, db, db.instances[sagaInstanceId].context).outcome == Returned(true)
    ensures CompletedBelow(ExecuteStepSpec(db, sagaInstanceId, stepName, stepOrder).db, sagaInstanceId, stepOrder + 1)
  {
    FreshOrderStepsAfter(db, sagaInstanceId, stepName, stepOrder);
    AppendCompletedRecord(db.steps, ExecuteStepSpec(db, sagaInstanceId, stepName, stepOrder).db,
      sagaInstanceId, NewStepRecord(sagaInstanceId, stepName, stepOrder), stepOrder);
  }

  /** On a fresh order, a step whose call returns true leaves the step table with the new record appended and COMPLETED. */
  lemma FreshOrderStepsAfter(db: Db, sagaInstanceId: int, stepName: string, stepOrder: int)
    requires HasInstance(db, sagaInstanceId) && GetSagaStepByName(stepName).Ok?
    requires CompletedBelow(db, sagaInstanceId, stepOrder)
    requires RunExecute(GetSagaStepByName(stepName).value, db, db.instances[sagaInstanceId].context).outcome == Returned(true)
    ensures var rec := NewStepRecord(sagaInstanceId, stepName, stepOrder);
      ExecuteStepSpec(db, sagaInstanceId, stepName, stepOrder).db.steps == (db.steps + [rec])[|db.steps| := rec.(status := StepCompleted)]
  {
    FreshOrderCreatesRecord(db, sagaInstanceId, stepName, stepOrder);
    ExecuteStepOutcome(db, sagaInstanceId, stepName, stepOrder);
  }

  /** Under an unused order, with every record of the instance COMPLETED, `initializeStepRecord` appends a new record. */
  lemma FreshOrderCreatesRecord(db: Db, sagaInstanceId: int, stepName: string, stepOrder: int)
    requires CompletedBelow(db, sagaInstanceId, stepOrder)
    ensures var init := InitializeStepRecordSpec(db, sagaInstanceId, stepName, stepOrder);
      init.result == Ok(|db.steps|) && init.db.steps == db.steps + [NewStepRecord(sagaInstanceId, stepName, stepOrder)]
  {
    InitializeStepRecordCreates(db, sagaInstanceId, stepName, stepOrder);
  }

  lemma AppendCompletedRecord(steps: seq<StepRecord>, after: Db, sagaInstanceId: int, s: StepRecord, stepOrder: int)
    requires forall k :: 0 <= k < |steps| && steps[k].sagaInstanceId == sagaInstanceId ==>
      steps[k].status == StepCompleted && steps[k].stepOrder < stepOrder
    requires s.stepOrder == stepOrder
    requires after.steps == (steps + [s])[|steps| := s.(status := StepCompleted)]
    ensures CompletedBelow(after, sagaInstanceId, stepOrder + 1)
  {
    assert after.steps == steps + [s.(status := StepCompleted)];
  }

  /**
   * UPDATE_TRANSACTION_STATUS cannot succeed on an instance whose saved
   * context has no `transactionId`: `findById(null)` throws inside the step,
   * so `executeStep` returns false (or throws earlier).
   */
  lemma UpdateStepNeedsSavedTransactionId(db: Db, sagaInstanceId: int, stepOrder: int)
    requires HasInstance(db, sagaInstanceId) && !db.instances[sagaInstanceId].context.ContainsKey("transactionId")
    ensures ExecuteStepSpec(db, sagaInstanceId, UpdateTransactionStatusStep.StepName, stepOrder).result != Ok(true)
  {
    var name := UpdateTransactionStatusStep.StepName;
    GetSagaStepByNameExact(name);
    if InitializeStepRecordSpec(db, sagaInstanceId, name, stepOrder).result.Ok? {
      ExecuteStepOutcome(db, sagaInstanceId, name, stepOrder);
      UpdateTransactionStatusStep.NullTransactionIdThrows(db, db.instances[sagaInstanceId].context);
    }
  }

  /** `compensateStep` throws, and touches nothing, when the instance has no COMPLETED record of that step. */
  lemma CompensateStepNeedsCompletedRecord(db: Db, sagaInstanceId: int, stepName: string)
    requires HasInstance(db, sagaInstanceId) && GetSagaStepByName(stepName).Ok?
    requires forall k :: 0 <= k < |db.steps| ==> !StepMatches(db.steps[k], sagaInstanceId, StepCompleted, stepName)
    ensures CompensateStepSpec(db, sagaInstanceId, stepName) ==
      Effect(db, Err(Runtime("Completed saga step not found for step name: " + stepName)))
  {
  }

  /**
   * With the COMPLETED record found, `compensateStep` never throws. If the
   * compensation returns true, the record ends COMPENSATED, the instance holds
   * the context it left, and the result is true; otherwise the record ends
   * FAILED with "Compensation returned false" or "Compensation error: " and
   * the message, the instances are unchanged, and the result is false.
   */
  lemma CompensateStepOutcome(db: Db, sagaInstanceId: int, stepName: string, sid: nat)
    requires HasInstance(db, sagaInstanceId) && GetSagaStepByName(stepName).Ok?
    requires FindStep(db, sagaInstanceId, StepCompleted, stepName) == Ok(Some(sid))
    ensures var e := RunCompensate(GetSagaStepByName(stepName).value, db, db.instances[sagaInstanceId].context);
      var ok := e.outcome == Returned(true);
      var r := CompensateStepSpec(db, sagaInstanceId, stepName);
      && r.result == Ok(ok)
      && r.db.wallets == e.db.wallets && r.db.transactions == e.db.transactions
      && r.db.steps == db.steps[sid := db.steps[sid].(
           status := if ok then StepCompensated else StepFailed,
           errorMessage := if ok then db.steps[sid].errorMessage
                           else Some(FailureMessage(e.outcome, "Compensation returned false", "Compensation error: ")))]
      && r.db.instances == if ok then db.instances[sagaInstanceId := db.instances[sagaInstanceId].(context := e.ctx, updatedDate := db.clock)]
                           else db.instances
  {
    var bean := GetSagaStepByName(stepName).value;
    var c := db.instances[sagaInstanceId].context;
    var running := UpdateStepStatusSpec(db, sid, StepRunning, None);
    assert running.db.steps == db.steps[sid := db.steps[sid].(status := StepRunning)];
    assert running.db == db.(instances := running.db.instances, steps := running.db.steps);
    StepsIgnoreSagaTables(bean, db, c, running.db.instances, running.db.steps);
    StepsTouchOnlyLedger(bean, db, c);
    var e := RunCompensate(bean, running.db, c);
    ConcludeStepOutcome(e, sagaInstanceId, sid, StepCompensated, MarkCompensatedFailure, "Compensation returned false", "Compensation error: ");
  }

  /**
   * `compensateStep` changes at most one step record: a COMPLETED record of
   * this instance and name, which ends COMPENSATED or FAILED.
   */
  lemma CompensateStepChangesOneCompletedRecord(db: Db, sagaInstanceId: int, stepName: string)
    ensures var r := CompensateStepSpec(db, sagaInstanceId, stepName);
      && |r.db.steps| == |db.steps|
      && forall k :: 0 <= k < |db.steps| && r.db.steps[k] != db.steps[k] ==>
           && StepMatches(db.steps[k], sagaInstanceId, StepCompleted, stepName)
           && (r.db.steps[k].status == StepCompensated || r.db.steps[k].status == StepFailed)
  {
    CompensateStepKeepsShape(db, sagaInstanceId, stepName);
    if HasInstance(db, sagaInstanceId) && GetSagaStepByName(stepName).Ok? {
      var found := FindStep(db, sagaInstanceId, StepCompleted, stepName);
      if found.Ok? && found.value.Some? {
        CompensateStepOutcome(db, sagaInstanceId, stepName, found.value.value);
      }
    }
  }

  /**
   * The compensation loop never re-compensates: every step record that was
   * not a COMPLETED record of this instance is left exactly as it was, and
   * every record it changes ends COMPENSATED or FAILED.
   */
  lemma {:induction false} CompensateEachTouchesOnlyCompletedRecords(db: Db, sagaInstanceId: int, stepNames: seq<string>)
    ensures var r := CompensateEach(db, sagaInstanceId, stepNames);
      forall k :: 0 <= k < |db.steps| && r.db.steps[k] != db.steps[k] ==>
        && db.steps[k].sagaInstanceId == sagaInstanceId && db.steps[k].status == StepCompleted
        && (r.db.steps[k].status == StepCompensated || r.db.steps[k].status == StepFailed)
    decreases |stepNames|
  {
    if stepNames != [] {
      var call := CompensateStepSpec(db, sagaInstanceId, stepNames[0]);
      CompensateStepChangesOneCompletedRecord(db, sagaInstanceId, stepNames[0]);
      if call.result == Ok(true) {
        CompensateEachTouchesOnlyCompletedRecords(call.db, sagaInstanceId, stepNames[1..]);
        var r := CompensateEach(call.db, sagaInstanceId, stepNames[1..]);
        forall k | 0 <= k < |db.steps| && r.db.steps[k] != db.steps[k]
          ensures db.steps[k].sagaInstanceId == sagaInstanceId && db.steps[k].status == StepCompleted
          ensures r.db.steps[k].status == StepCompensated || r.db.steps[k].status == StepFailed
        {
        }
      }
    }
  }

  /**
   * The loop halts at the first failure: over `a + b`, the names of `b` are
   * reached only when every name of `a` was compensated.
   */
  lemma {:induction false} CompensateEachSplit(db: Db, sagaInstanceId: int, a: seq<string>, b: seq<string>)
    ensures var first := CompensateEach(db, sagaInstanceId, a);
      CompensateEach(db, sagaInstanceId, a + b) == if first.allCompensated then CompensateEach(first.db, sagaInstanceId, b) else first
    decreases |a|
  {
    if a == [] {
      assert a + b == b;
    } else {
      assert (a + b)[0] == a[0] && (a + b)[1..] == a[1..] + b;
      var call := CompensateStepSpec(db, sagaInstanceId, a[0]);
      if call.result == Ok(true) {
        CompensateEachSplit(call.db, sagaInstanceId, a[1..], b);
      }
    }
  }

  /**
   * A loop that compensated every name leaves every COMPLETED record of the
   * instance whose name it was given COMPENSATED.
   */
  lemma {:induction false} FullSweepCompensatesEveryNamedRecord(db: Db, sagaInstanceId: int, stepNames: seq<string>)
    requires CompensateEach(db, sagaInstanceId, stepNames).allCompensated
    ensures var r := CompensateEach(db, sagaInstanceId, stepNames);
      forall k :: 0 <= k < |db.steps| && StepMatches(db.steps[k], sagaInstanceId, StepCompleted, db.steps[k].stepName) && db.steps[k].stepName in stepNames ==>
        r.db.steps[k].status == StepCompensated
    decreases |stepNames|
  {
    if stepNames != [] {
      var name := stepNames[0];
      var call := CompensateStepSpec(db, sagaInstanceId, name);
      assert call.result == Ok(true);
      assert HasInstance(db, sagaInstanceId) && GetSagaStepByName(name).Ok?;
      var found := FindStep(db, sagaInstanceId, StepCompleted, name);
      assert found.Ok? && found.value.Some?;
      var sid := found.value.value;
      CompensateStepOutcome(db, sagaInstanceId, name, sid);
      FullSweepCompensatesEveryNamedRecord(call.db, sagaInstanceId, stepNames[1..]);
      CompensateEachTouchesOnlyCompletedRecords(call.db, sagaInstanceId, stepNames[1..]);
      var r := CompensateEach(call.db, sagaInstanceId, stepNames[1..]);
      forall k | 0 <= k < |db.steps| && StepMatches(db.steps[k], sagaInstanceId, StepCompleted, db.steps[k].stepName) && db.steps[k].stepName in stepNames
        ensures r.db.steps[k].status == StepCompensated
      {
        if db.steps[k].stepName == name {
          assert k == sid;
        } else {
          assert db.steps[k].stepName in stepNames[1..];
          assert call.db.steps[k] == db.steps[k];
        }
      }
    }
  }

  /** The compensation order is the instance's COMPLETED records from the highest id down: last executed, first compensated. */
  lemma CompensationOrderIsLifo(db: Db, sagaInstanceId: int)
    ensures var ids := CompletedSteps(db, sagaInstanceId);
      var order := CompensationOrder(db, sagaInstanceId);
      && |order| == |ids|
      && forall k :: 0 <= k < |order| ==> order[k] == db.steps[ids[|ids| - 1 - k]].stepName
  {
    ReversedKeepsIds(db, CompletedSteps(db, sagaInstanceId));
  }

  /** `compensateSaga` on an unknown id: the outer catch's `failSaga` throws too, and its exception escapes. */
  lemma CompensateSagaUnknownInstance(db: Db, sagaInstanceId: int)
    requires !HasInstance(db, sagaInstanceId)
    ensures CompensateSagaSpec(db, sagaInstanceId) == Effect(db, Err(Runtime("Failed to mark saga as failed")))
  {
  }

  /** With no COMPLETED record the instance becomes COMPENSATED at once: never COMPENSATING, and nothing else changes. */
  lemma CompensateSagaWithNothingCompleted(db: Db, sagaInstanceId: int)
    requires HasInstance(db, sagaInstanceId)
    requires forall k :: 0 <= k < |db.steps| ==> !(db.steps[k].sagaInstanceId == sagaInstanceId && db.steps[k].status == StepCompleted)
    ensures CompensateSagaSpec(db, sagaInstanceId) ==
      Effect(db.(instances := db.instances[sagaInstanceId := db.instances[sagaInstanceId].(status := SagaCompensated, updatedDate := db.clock)]), Ok(()))
  {
  }

  /**
   * With COMPLETED records, `compensateSaga` returns normally: the instance
   * becomes COMPENSATING, the loop runs over the reversed records, and the
   * instance ends COMPENSATED if every step was compensated and FAILED
   * otherwise, over whatever the loop left in the store.
   */
  lemma CompensateSagaOutcome(db: Db, sagaInstanceId: int)
    requires HasInstance(db, sagaInstanceId) && |CompletedSteps(db, sagaInstanceId)| > 0
    ensures var u := UpdateSagaStatusSpec(db, sagaInstanceId, SagaCompensating).db;
      var run := CompensateEach(u, sagaInstanceId, CompensationOrder(db, sagaInstanceId));
      var r := CompensateSagaSpec(db, sagaInstanceId);
      && u.instances[sagaInstanceId].status == SagaCompensating
      && r.result == Ok(())
      && r.db.steps == run.db.steps && r.db.wallets == run.db.wallets && r.db.transactions == run.db.transactions
      && |run.db.instances| == |db.instances|
      && r.db.instances == run.db.instances[sagaInstanceId := run.db.instances[sagaInstanceId].(
           status := if run.allCompensated then SagaCompensated else SagaFailed, updatedDate := db.clock)]
  {
  }

  /**
   * `compensateSaga` ends COMPENSATED only after compensating every step the
   * instance had COMPLETED: each of those records is then COMPENSATED.
   */
  lemma CompensatedSagaCompensatedEveryStep(db: Db, sagaInstanceId: int)
    requires HasInstance(db, sagaInstanceId)
    requires CompensateSagaSpec(db, sagaInstanceId).db.instances[sagaInstanceId].status == SagaCompensated
    ensures var r := CompensateSagaSpec(db, sagaInstanceId);
      forall k :: 0 <= k < |db.steps| && db.steps[k].sagaInstanceId == sagaInstanceId && db.steps[k].status == StepCompleted ==>
        r.db.steps[k].status == StepCompensated
  {
    var ids := CompletedSteps(db, sagaInstanceId);
    if |ids| > 0 {
      CompensateSagaOutcome(db, sagaInstanceId);
      var u := UpdateSagaStatusSpec(db, sagaInstanceId, SagaCompensating).db;
      var run := CompensateEach(u, sagaInstanceId, CompensationOrder(db, sagaInstanceId));
      assert run.allCompensated;
      SweepCoversCompletedSteps(db, u, sagaInstanceId);
    }
  }

  /** A loop over the whole compensation order that compensated every name leaves every COMPLETED record COMPENSATED. */
  lemma SweepCoversCompletedSteps(db: Db, u: Db, sagaInstanceId: int)
    requires u.steps == db.steps
    requires CompensateEach(u, sagaInstanceId, CompensationOrder(db, sagaInstanceId)).allCompensated
    ensures var run := CompensateEach(u, sagaInstanceId, CompensationOrder(db, sagaInstanceId));
      forall k :: 0 <= k < |db.steps| && db.steps[k].sagaInstanceId == sagaInstanceId && db.steps[k].status == StepCompleted ==>
        run.db.steps[k].status == StepCompensated
  {
    var ids := CompletedSteps(db, sagaInstanceId);
    var order := CompensationOrder(db, sagaInstanceId);
    FullSweepCompensatesEveryNamedRecord(u, sagaInstanceId, order);
    CompensationOrderIsLifo(db, sagaInstanceId);
    forall k | 0 <= k < |db.steps| && db.steps[k].sagaInstanceId == sagaInstanceId && db.steps[k].status == StepCompleted
      ensures u.steps[k].stepName in order
    {
      assert k in ids;
      var i :| 0 <= i < |ids| && ids[i] == k;
      assert order[|ids| - 1 - i] == db.steps[k].stepName;
    }
  }

  /** `compensateStep` writes no instance other than its own. */
  lemma CompensateStepKeepsOtherInstances(db: Db, sagaInstanceId: int, stepName: string)
    ensures var r := CompensateStepSpec(db, sagaInstanceId, stepName);
      && |r.db.instances| == |db.instances|
      && forall j :: 0 <= j < |db.instances| && j != sagaInstanceId ==> r.db.instances[j] == db.instances[j]
  {
    CompensateStepKeepsShape(db, sagaInstanceId, stepName);
    var r := CompensateStepSpec(db, sagaInstanceId, stepName);
    if HasInstance(db, sagaInstanceId) && GetSagaStepByName(stepName).Ok? {
      var found := FindStep(db, sagaInstanceId, StepCompleted, stepName);
      if found.Ok? && found.value.Some? {
        CompensateStepOutcome(db, sagaInstanceId, stepName, found.value.value);
        assert r.db.instances == db.instances || r.db.instances == db.instances[sagaInstanceId := r.db.instances[sagaInstanceId]];
      } else {
        assert r.db == db;
      }
    } else {
      assert r.db == db;
    }
  }

  /** Neither does the compensation loop. */
  lemma {:induction false} CompensateEachKeepsOtherInstances(db: Db, sagaInstanceId: int, stepNames: seq<string>)
    ensures var r := CompensateEach(db, sagaInstanceId, stepNames);
      && |r.db.instances| == |db.instances|
      && forall j :: 0 <= j < |db.instances| && j != sagaInstanceId ==> r.db.instances[j] == db.instances[j]
    decreases |stepNames|
  {
    if stepNames != [] {
      var call := CompensateStepSpec(db, sagaInstanceId, stepNames[0]);
      CompensateStepKeepsShape(db, sagaInstanceId, stepNames[0]);
      CompensateStepKeepsOtherInstances(db, sagaInstanceId, stepNames[0]);
      if call.result == Ok(true) {
        CompensateEachKeepsOtherInstances(call.db, sagaInstanceId, stepNames[1..]);
      }
    }
  }

  /**
   * `compensateSaga` on an existing instance returns normally and leaves it
   * COMPENSATED or FAILED, whatever the steps did; every other instance is
   * left exactly as it was.
   */
  lemma CompensateSagaEndsTerminal(db: Db, sagaInstanceId: int)
    requires HasInstance(db, sagaInstanceId)
    ensures var r := CompensateSagaSpec(db, sagaInstanceId);
      && r.result == Ok(())
      && |r.db.instances| == |db.instances|
      && (r.db.instances[sagaInstanceId].status == SagaCompensated || r.db.instances[sagaInstanceId].status == SagaFailed)
      && forall j :: 0 <= j < |db.instances| && j != sagaInstanceId ==> r.db.instances[j] == db.instances[j]
  {
    if |CompletedSteps(db, sagaInstanceId)| > 0 {
      CompensateSagaOutcome(db, sagaInstanceId);
      var u := UpdateSagaStatusSpec(db, sagaInstanceId, SagaCompensating).db;
      CompensateEachKeepsOtherInstances(u, sagaInstanceId, CompensationOrder(db, sagaInstanceId));
    }
  }
}
