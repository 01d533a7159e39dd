/**
 * Step 1 of a transfer: debit the source wallet; its compensation credits the
 * amount back. Both record the wallet's balance before and after in the
 * context under `fromWalletBalanceBeforeDebit` / `fromWalletBalanceAfterDebit`.
 */
module DebitSourceWalletStep {
  import opened Base
  import opened WalletEntity
  import opened Context
  import opened Entities
  import opened Persistence
  import opened SagaStepInterface

  const StepName: string := "DEBIT_SOURCE_WALLET"
  const StepOrder: int := 1

  /** The context keys this step records its before and after values under. */
  const RecordedKeys: set<string> := {"fromWalletBalanceBeforeDebit", "fromWalletBalanceAfterDebit"}

  const SourceNotFound: Exception := Runtime("Source Wallet not Found")

  function Insufficient(sourceWalletId: Option<int>): Exception
  {
    Runtime("Insufficient balance in source wallet id: " + ShowNullable(sourceWalletId))
  }

  /**
   * `execute`: read `amount` and `sourceWalletId` by hard cast, load the
   * wallet, record its balance, refuse an amount it does not cover, then
   * debit, save and record the new balance.
   */
  function ExecuteSpec(db: Db, c: ContextState): StepEffect
  {
    match CastDecimal(c.Get("amount"))
    case Err(e) => StepEffect(db, c, Threw(e))
    case Ok(amount) =>
      match CastLong(c.Get("sourceWalletId"))
      case Err(e) => StepEffect(db, c, Threw(e))
      case Ok(sourceWalletId) =>
        match FindWalletWithLock(db, sourceWalletId)
        case None => StepEffect(db, c, Threw(SourceNotFound))
        case Some(id) =>
          var wallet := db.wallets[id];
          var c1 := c.Put("fromWalletBalanceBeforeDebit", DecimalV(wallet.balance));
          match amount
          case None => StepEffect(db, c1, Threw(NullPointer("amount")))
          case Some(a) =>
            if !HasSufficientBalance(wallet, a) then StepEffect(db, c1, Threw(Insufficient(sourceWalletId)))
            else
              var debited := Debit(wallet, a).value;
              StepEffect(WithWallet(db, id, debited), c1.Put("fromWalletBalanceAfterDebit", DecimalV(debited.balance)), Returned(true))
  }

  /**
   * `compensate`: read the same two values, load the wallet, record its
   * balance, credit the amount back with no check of a prior debit, save and
   * record the new balance.
   */
  function CompensateSpec(db: Db, c: ContextState): StepEffect
  {
    match CastDecimal(c.Get("amount"))
    case Err(e) => StepEffect(db, c, Threw(e))
    case Ok(amount) =>
      match CastLong(c.Get("sourceWalletId"))
      case Err(e) => StepEffect(db, c, Threw(e))
      case Ok(sourceWalletId) =>
        match FindWalletWithLock(db, sourceWalletId)
        case None => StepEffect(db, c, Threw(SourceNotFound))
        case Some(id) =>
          var wallet := db.wallets[id];
          var c1 := c.Put("fromWalletBalanceBeforeDebit", DecimalV(wallet.balance));
          match amount
          case None => StepEffect(db, c1, Threw(NullPointer("amount")))
          case Some(a) =>
            var credited := Credit(wallet, a);
            StepEffect(WithWallet(db, id, credited), c1.Put("fromWalletBalanceAfterDebit", DecimalV(credited.balance)), Returned(true))
  }

  method Execute(store: Store, ctx: SagaContext) returns (outcome: StepOutcome)
    modifies store, ctx
    ensures StepEffect(store.State(), ctx.Snapshot(), outcome) == ExecuteSpec(old(store.State()), old(ctx.Snapshot()))
  {
    var amount := CastDecimal(ctx.Snapshot().Get("amount"));
    if amount.Err? {
      return Threw(amount.error);
    }
    var sourceWalletId := CastLong(ctx.Snapshot().Get("sourceWalletId"));
    if sourceWalletId.Err? {
      return Threw(sourceWalletId.error);
    }
    var found := FindWalletWithLock(store.State(), sourceWalletId.value);
    if found.None? {
      return Threw(SourceNotFound);
    }
    var wallet := store.wallets[found.value];
    ctx.Put("fromWalletBalanceBeforeDebit", DecimalV(wallet.balance));
    if amount.value.None? {
      return Threw(NullPointer("amount"));
    }
    if !HasSufficientBalance(wallet, amount.value.value) {
      return Threw(Insufficient(sourceWalletId.value));
    }
    wallet := Debit(wallet, amount.value.value).value;
    store.SaveWallet(found.value, wallet);
    ctx.Put("fromWalletBalanceAfterDebit", DecimalV(wallet.balance));
    return Returned(true);
  }

  method Compensate(store: Store, ctx: SagaContext) returns (outcome: StepOutcome)
    modifies store, ctx
    ensures StepEffect(store.State(), ctx.Snapshot(), outcome) == CompensateSpec(old(store.State()), old(ctx.Snapshot()))
  {
    var amount := CastDecimal(ctx.Snapshot().Get("amount"));
    if amount.Err? {
      return Threw(amount.error);
    }
    var sourceWalletId := CastLong(ctx.Snapshot().Get("sourceWalletId"));
    if sourceWalletId.Err? {
      return Threw(sourceWalletId.error);
    }
    var found := FindWalletWithLock(store.State(), sourceWalletId.value);
    if found.None? {
      return Threw(SourceNotFound);
    }
    var wallet := store.wallets[found.value];
    ctx.Put("fromWalletBalanceBeforeDebit", DecimalV(wallet.balance));
    if amount.value.None? {
      return Threw(NullPointer("amount"));
    }
    wallet := Credit(wallet, amount.value.value);
    store.SaveWallet(found.value, wallet);
    ctx.Put("fromWalletBalanceAfterDebit", DecimalV(wallet.balance));
    return Returned(true);
  }

  /** The context a transfer gives this step: a `BigDecimal` amount and a `Long` source wallet id. */
  predicate WellTyped(c: ContextState, amount: Money, walletId: nat)
  {
    c.Get("amount") == DecimalV(amount) && c.Get("sourceWalletId") == LongV(walletId)
  }

  /**
   * With an existing source wallet, `execute` returns true iff the balance
   * covers the amount; then exactly that wallet loses `amount`, and the
   * recorded after-balance is the recorded before-balance minus `amount`.
   * Otherwise it throws and the store is unchanged.
   */
  lemma ExecuteOutcome(db: Db, c: ContextState, amount: Money, walletId: nat)
    requires WellTyped(c, amount, walletId) && walletId < |db.wallets|
    ensures var e := ExecuteSpec(db, c);
      && (e.outcome == Returned(true) <==> db.wallets[walletId].balance >= amount)
      && (e.outcome.Threw? <==> db.wallets[walletId].balance < amount)
      && (e.outcome == Returned(true) ==>
            && e.db == WithWallet(db, walletId, db.wallets[walletId].(balance := db.wallets[walletId].balance - amount))
            && e.ctx.Get("fromWalletBalanceBeforeDebit") == DecimalV(db.wallets[walletId].balance)
            && e.ctx.Get("fromWalletBalanceAfterDebit") == DecimalV(db.wallets[walletId].balance - amount))
      && (e.outcome.Threw? ==> e.db == db && e.outcome.error == Insufficient(Some(walletId)))
  {
  }

  /** A missing source wallet makes both `execute` and `compensate` throw "Source Wallet not Found" and change nothing in the store. */
  lemma MissingWalletThrows(db: Db, c: ContextState, amount: Money, walletId: nat)
    requires WellTyped(c, amount, walletId) && walletId >= |db.wallets|
    ensures ExecuteSpec(db, c) == StepEffect(db, c, Threw(SourceNotFound))
    ensures CompensateSpec(db, c) == StepEffect(db, c, Threw(SourceNotFound))
  {
  }

  /** An amount stored as anything but a `BigDecimal` (or null) fails the hard cast in both directions. */
  lemma MistypedAmountThrows(db: Db, c: ContextState)
    requires !c.Get("amount").NullV? && !c.Get("amount").DecimalV?
    ensures ExecuteSpec(db, c).outcome.Threw? && ExecuteSpec(db, c).outcome.error.kind == ClassCastException
    ensures CompensateSpec(db, c).outcome.Threw? && CompensateSpec(db, c).outcome.error.kind == ClassCastException
    ensures ExecuteSpec(db, c).db == db && CompensateSpec(db, c).db == db
  {
  }

  /** A successful `execute` followed by `compensate` on the context it left returns true and restores every wallet. */
  lemma ExecuteThenCompensateRestores(db: Db, c: ContextState, amount: Money, walletId: nat)
    requires WellTyped(c, amount, walletId) && walletId < |db.wallets|
    requires ExecuteSpec(db, c).outcome == Returned(true)
    ensures var e := ExecuteSpec(db, c);
      CompensateSpec(e.db, e.ctx).outcome == Returned(true) && CompensateSpec(e.db, e.ctx).db.wallets == db.wallets
  {
    ExecuteOutcome(db, c, amount, walletId);
    var e := ExecuteSpec(db, c);
    var w := db.wallets[walletId];
    assert e.ctx.Get("amount") == DecimalV(amount) && e.ctx.Get("sourceWalletId") == LongV(walletId);
    var restored := Credit(e.db.wallets[walletId], amount);
    assert restored == w;
    assert e.db.wallets[walletId := restored] == db.wallets;
  }

  /**
   * With an existing source wallet, `compensate` always returns true: it
   * raises exactly that wallet by `amount` and records the balances before
   * and after under the keys `execute` wrote.
   */
  lemma CompensateOutcome(db: Db, c: ContextState, amount: Money, walletId: nat)
    requires WellTyped(c, amount, walletId) && walletId < |db.wallets|
    ensures var e := CompensateSpec(db, c);
      && e.outcome == Returned(true)
      && e.db == WithWallet(db, walletId, db.wallets[walletId].(balance := db.wallets[walletId].balance + amount))
      && e.ctx.Get("fromWalletBalanceBeforeDebit") == DecimalV(db.wallets[walletId].balance)
      && e.ctx.Get("fromWalletBalanceAfterDebit") == DecimalV(db.wallets[walletId].balance + amount)
  {
  }

  /**
   * `compensate` does not check for a prior debit: compensating twice
   * credits the amount twice.
   */
  lemma CompensateTwiceCreditsTwice(db: Db, c: ContextState, amount: Money, walletId: nat)
    requires WellTyped(c, amount, walletId) && walletId < |db.wallets|
    ensures var e1 := CompensateSpec(db, c);
      var e2 := CompensateSpec(e1.db, e1.ctx);
      e2.outcome == Returned(true) && e2.db.wallets[walletId].balance == db.wallets[walletId].balance + amount + amount
  {
    var e1 := CompensateSpec(db, c);
    assert e1.ctx.Get("amount") == DecimalV(amount) && e1.ctx.Get("sourceWalletId") == LongV(walletId);
  }

  /**
   * Both directions change the wallet table only, keep its size, and neither
   * reads nor writes the saga tables: run over other instance and step
   * tables, they have the same effect with those tables carried through.
   */
  lemma TouchesOnlyLedger(db: Db, c: ContextState, instances: seq<SagaInstance>, steps: seq<StepRecord>)
    ensures var e := ExecuteSpec(db, c);
      && e.db == db.(wallets := e.db.wallets) && |e.db.wallets| == |db.wallets|
      && ExecuteSpec(db.(instances := instances, steps := steps), c) == e.(db := e.db.(instances := instances, steps := steps))
    ensures var e := CompensateSpec(db, c);
      && e.db == db.(wallets := e.db.wallets) && |e.db.wallets| == |db.wallets|
      && CompensateSpec(db.(instances := instances, steps := steps), c) == e.(db := e.db.(instances := instances, steps := steps))
  {
  }

  /** `execute` writes the context only under the two balance keys. */
  lemma ExecuteWritesOnlyRecordedKeys(db: Db, c: ContextState)
    ensures SameOutside(c, ExecuteSpec(db, c).ctx, RecordedKeys)
  {
  }

  /** So does `compensate`. */
  lemma CompensateWritesOnlyRecordedKeys(db: Db, c: ContextState)
    ensures SameOutside(c, CompensateSpec(db, c).ctx, RecordedKeys)
  {
  }
}
