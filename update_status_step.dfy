/**
 * Step 3 of a transfer: set the transaction's status to the one named by
 * `newStatus`; its compensation restores the status recorded in
 * `transactionStatusBefore`. Both record the status they replaced and the
 * status they set.
 */
module UpdateTransactionStatusStep {
  import opened Base
  import opened Enums
  import opened Context
  import opened Entities
  import opened Persistence
  import opened SagaStepInterface

  const StepName: string := "UPDATE_TRANSACTION_STATUS"
  const StepOrder: int := 3

  /** The context keys this step records its before and after values under. */
  const RecordedKeys: set<string> := {"transactionStatusBefore", "transactionStatusAfter"}

  function TransactionNotFound(transactionId: Option<int>): Exception
  {
    Runtime("Transaction not found for transactionId: " + ShowNullable(transactionId))
  }

  /**
   * `execute`: read `transactionId` and `newStatus` by hard cast, load the
   * transaction, record its status, convert the name with `valueOf`, then set,
   * save and record the new status.
   */
  function ExecuteSpec(db: Db, c: ContextState): StepEffect
  {
    match CastLong(c.Get("transactionId"))
    case Err(e) => StepEffect(db, c, Threw(e))
    case Ok(transactionId) =>
      match CastString(c.Get("newStatus"))
      case Err(e) => StepEffect(db, c, Threw(e))
      case Ok(newStatus) =>
        match FindTransaction(db, transactionId)
        case Err(e) => StepEffect(db, c, Threw(e))
        case Ok(None) => StepEffect(db, c, Threw(TransactionNotFound(transactionId)))
        case Ok(Some(id)) =>
          var t := db.transactions[id];
          var c1 := c.Put("transactionStatusBefore", StatusValue(t.status));
          match TxStatusValueOf(newStatus)
          case Err(e) => StepEffect(db, c1, Threw(e))
          case Ok(status) =>
            StepEffect(WithTransaction(db, id, t.(status := Some(status))), c1.Put("transactionStatusAfter", TxStatusV(status)), Returned(true))
  }

  /**
   * `compensate`: read `transactionId`, load the transaction, read the
   * recorded previous status by hard cast, record the current status as
   * `transactionStatusBefore`, then set the previous one (possibly null),
   * save and record it.
   */
  function CompensateSpec(db: Db, c: ContextState): StepEffect
  {
    match CastLong(c.Get("transactionId"))
    case Err(e) => StepEffect(db, c, Threw(e))
    case Ok(transactionId) =>
      match FindTransaction(db, transactionId)
      case Err(e) => StepEffect(db, c, Threw(e))
      case Ok(None) => StepEffect(db, c, Threw(TransactionNotFound(transactionId)))
      case Ok(Some(id)) =>
        var t := db.transactions[id];
        match CastTxStatus(c.Get("transactionStatusBefore"))
        case Err(e) => StepEffect(db, c, Threw(e))
        case Ok(previous) =>
          var c1 := c.Put("transactionStatusBefore", StatusValue(t.status));
          StepEffect(WithTransaction(db, id, t.(status := previous)), c1.Put("transactionStatusAfter", StatusValue(previous)), Returned(true))
  }

  method Execute(store: Store, ctx: SagaContext) returns (outcome: StepOutcome)
    modifies store, ctx
    ensures StepEffect(store.State(), ctx.Snapshot(), outcome) == ExecuteSpec(old(store.State()), old(ctx.Snapshot()))
  {
    var transactionId := CastLong(ctx.Snapshot().Get("transactionId"));
    if transactionId.Err? {
      return Threw(transactionId.error);
    }
    var newStatus := CastString(ctx.Snapshot().Get("newStatus"));
    if newStatus.Err? {
      return Threw(newStatus.error);
    }
    var found := FindTransaction(store.State(), transactionId.value);
    if found.Err? {
      return Threw(found.error);
    }
    if found.value.None? {
      return Threw(TransactionNotFound(transactionId.value));
    }
    var id := found.value.value;
    var t := store.transactions[id];
    ctx.Put("transactionStatusBefore", StatusValue(t.status));
    var status := TxStatusValueOf(newStatus.value);
    if status.Err? {
      return Threw(status.error);
    }
    t := t.(status := Some(status.value));
    store.SaveTransaction(id, t);
    ctx.Put("transactionStatusAfter", TxStatusV(status.value));
    return Returned(true);
  }

  method Compensate(store: Store, ctx: SagaContext) returns (outcome: StepOutcome)
    modifies store, ctx
    ensures StepEffect(store.State(), ctx.Snapshot(), outcome) == CompensateSpec(old(store.State()), old(ctx.Snapshot()))
  {
    var transactionId := CastLong(ctx.Snapshot().Get("transactionId"));
    if transactionId.Err? {
      return Threw(transactionId.error);
    }
    var found := FindTransaction(store.State(), transactionId.value);
    if found.Err? {
      return Threw(found.error);
    }
    if found.value.None? {
      return Threw(TransactionNotFound(transactionId.value));
    }
    var id := found.value.value;
    var t := store.transactions[id];
    var previous := CastTxStatus(ctx.Snapshot().Get("transactionStatusBefore"));
    if previous.Err? {
      return Threw(previous.error);
    }
    ctx.Put("transactionStatusBefore", StatusValue(t.status));
    t := t.(status := previous.value);
    store.SaveTransaction(id, t);
    ctx.Put("transactionStatusAfter", StatusValue(previous.value));
    return Returned(true);
  }

  /**
   * With a stored transaction id and a status name, `execute` returns true iff
   * the name is a status constant; it then sets exactly that status and records
   * the replaced and the new status. Otherwise it throws and saves nothing.
   */
  lemma ExecuteOutcome(db: Db, c: ContextState, transactionId: nat, newStatus: string)
    requires c.Get("transactionId") == LongV(transactionId) && c.Get("newStatus") == StringV(newStatus)
    requires transactionId < |db.transactions|
    ensures var e := ExecuteSpec(db, c);
      && (e.outcome == Returned(true) <==> TxStatusValueOf(Some(newStatus)).Ok?)
      && (e.outcome.Threw? ==> e.db == db)
      && (e.outcome.Returned? ==>
            var status := TxStatusValueOf(Some(newStatus)).value;
            && TxStatusName(status) == newStatus
            && e.db == WithTransaction(db, transactionId, db.transactions[transactionId].(status := Some(status)))
            && e.ctx.Get("transactionStatusBefore") == StatusValue(db.transactions[transactionId].status)
            && e.ctx.Get("transactionStatusAfter") == TxStatusV(status))
  {
  }

  /**
   * A transaction id that is absent from the context (null) makes both
   * directions throw, because `findById(null)` is refused; the store is unchanged.
   */
  lemma NullTransactionIdThrows(db: Db, c: ContextState)
    requires !c.ContainsKey("transactionId")
    ensures ExecuteSpec(db, c).outcome.Threw? && ExecuteSpec(db, c).db == db
    ensures CompensateSpec(db, c).outcome.Threw? && CompensateSpec(db, c).db == db
    ensures CastString(c.Get("newStatus")).Ok? ==>
      ExecuteSpec(db, c).outcome == Threw(NullIdRefused)
  {
  }

  /** An unknown transaction id makes both directions throw, and the store is unchanged. */
  lemma UnknownTransactionThrows(db: Db, c: ContextState, transactionId: int)
    requires c.Get("transactionId") == LongV(transactionId) && !(0 <= transactionId < |db.transactions|)
    ensures ExecuteSpec(db, c).outcome.Threw? && ExecuteSpec(db, c).db == db
    ensures CompensateSpec(db, c) == StepEffect(db, c, Threw(TransactionNotFound(Some(transactionId))))
  {
  }

  /**
   * `compensate` sets the status recorded under `transactionStatusBefore` and
   * overwrites that key with the status it replaced.
   */
  lemma CompensateOutcome(db: Db, c: ContextState, transactionId: nat, previous: Option<TxStatus>)
    requires c.Get("transactionId") == LongV(transactionId) && transactionId < |db.transactions|
    requires c.Get("transactionStatusBefore") == StatusValue(previous)
    ensures var e := CompensateSpec(db, c);
      && e.outcome == Returned(true)
      && e.db == WithTransaction(db, transactionId, db.transactions[transactionId].(status := previous))
      && e.ctx.Get("transactionStatusBefore") == StatusValue(db.transactions[transactionId].status)
      && e.ctx.Get("transactionStatusAfter") == StatusValue(previous)
  {
  }

  /** A successful `execute` followed by `compensate` restores every transaction, the original status included. */
  lemma ExecuteThenCompensateRestores(db: Db, c: ContextState, transactionId: nat, newStatus: string)
    requires c.Get("transactionId") == LongV(transactionId) && c.Get("newStatus") == StringV(newStatus)
    requires transactionId < |db.transactions|
    requires ExecuteSpec(db, c).outcome == Returned(true)
    ensures var e1 := ExecuteSpec(db, c);
      var e2 := CompensateSpec(e1.db, e1.ctx);
      e2.outcome == Returned(true) && e2.db.transactions == db.transactions
  {
    ExecuteOutcome(db, c, transactionId, newStatus);
    var e1 := ExecuteSpec(db, c);
    var t := db.transactions[transactionId];
    CompensateOutcome(e1.db, e1.ctx, transactionId, t.status);
    assert e1.db.transactions[transactionId].(status := t.status) == t;
    assert e1.db.transactions[transactionId := t] == db.transactions;
  }

  /**
   * Both directions change the transaction table only, keep its size, and neither
   * reads nor writes the saga tables: run over other instance and step
   * tables, they have the same effect with those tables carried through.
   */
  lemma TouchesOnlyLedger(db: Db, c: ContextState, instances: seq<SagaInstance>, steps: seq<StepRecord>)
    ensures var e := ExecuteSpec(db, c);
      && e.db == db.(transactions := e.db.transactions) && |e.db.transactions| == |db.transactions|
      && ExecuteSpec(db.(instances := instances, steps := steps), c) == e.(db := e.db.(instances := instances, steps := steps))
    ensures var e := CompensateSpec(db, c);
      && e.db == db.(transactions := e.db.transactions) && |e.db.transactions| == |db.transactions|
      && CompensateSpec(db.(instances := instances, steps := steps), c) == e.(db := e.db.(instances := instances, steps := steps))
  {
  }

  /** `execute` writes the context only under the two status keys. */
  lemma ExecuteWritesOnlyRecordedKeys(db: Db, c: ContextState)
    ensures SameOutside(c, ExecuteSpec(db, c).ctx, RecordedKeys)
  {
  }

  /** So does `compensate`. */
  lemma CompensateWritesOnlyRecordedKeys(db: Db, c: ContextState)
    ensures SameOutside(c, CompensateSpec(db, c).ctx, RecordedKeys)
  {
  }
}
