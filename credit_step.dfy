/**
 * Step 2 of a transfer: credit the destination wallet; its compensation
 * debits the amount again. Both read the amount and the wallet id through
 * their text, and record the balance before and after under
 * `toWalletBalanceBeforeCredit` / `toWalletBalanceAfterCredit`.
 */
module CreditDestinationWalletStep {
  import opened Base
  import opened WalletEntity
  import opened Context
  import opened Entities
  import opened Persistence
  import opened SagaStepInterface

  const StepName: string := "CREDIT_DESTINATION_WALLET"
  const StepOrder: int := 2

  /** The context keys this step records its before and after values under. */
  const RecordedKeys: set<string> := {"toWalletBalanceBeforeCredit", "toWalletBalanceAfterCredit"}

  const DestinationNotFound: Exception := Runtime("Destination Wallet not Found")

  /**
   * `execute`: parse the amount and the destination id, load the wallet,
   * record its balance, credit, save and record the new balance.
   */
  function ExecuteSpec(db: Db, c: ContextState): StepEffect
  {
    match ParseDecimal(c.Get("amount"))
    case Err(e) => StepEffect(db, c, Threw(e))
    case Ok(amount) =>
      match ParseLong(c.Get("destinationWalletId"))
      case Err(e) => StepEffect(db, c, Threw(e))
      case Ok(destinationWalletId) =>
        match FindWalletWithLock(db, Some(destinationWalletId))
        case None => StepEffect(db, c, Threw(DestinationNotFound))
        case Some(id) =>
          var wallet := db.wallets[id];
          var c1 := c.Put("toWalletBalanceBeforeCredit", DecimalV(wallet.balance));
          var credited := Credit(wallet, amount);
          StepEffect(WithWallet(db, id, credited), c1.Put("toWalletBalanceAfterCredit", DecimalV(credited.balance)), Returned(true))
  }

  /**
   * `compensate`: parse the same two values, load the wallet, record its
   * balance, then debit; a balance below the amount makes the debit throw
   * and nothing is saved.
   */
  function CompensateSpec(db: Db, c: ContextState): StepEffect
  {
    match ParseDecimal(c.Get("amount"))
    case Err(e) => StepEffect(db, c, Threw(e))
    case Ok(amount) =>
      match ParseLong(c.Get("destinationWalletId"))
      case Err(e) => StepEffect(db, c, Threw(e))
      case Ok(destinationWalletId) =>
        match FindWalletWithLock(db, Some(destinationWalletId))
        case None => StepEffect(db, c, Threw(DestinationNotFound))
        case Some(id) =>
          var wallet := db.wallets[id];
          var c1 := c.Put("toWalletBalanceBeforeCredit", DecimalV(wallet.balance));
          match Debit(wallet, amount)
          case Err(e) => StepEffect(db, c1, Threw(e))
          case Ok(debited) =>
            StepEffect(WithWallet(db, id, debited), c1.Put("toWalletBalanceAfterCredit", DecimalV(debited.balance)), Returned(true))
  }

  method Execute(store: Store, ctx: SagaContext) returns (outcome: StepOutcome)
    modifies store, ctx
    ensures StepEffect(store.State(), ctx.Snapshot(), outcome) == ExecuteSpec(old(store.State()), old(ctx.Snapshot()))
  {
    var amount := ParseDecimal(ctx.Snapshot().Get("amount"));
    if amount.Err? {
      return Threw(amount.error);
    }
    var destinationWalletId := ParseLong(ctx.Snapshot().Get("destinationWalletId"));
    if destinationWalletId.Err? {
      return Threw(destinationWalletId.error);
    }
    var found := FindWalletWithLock(store.State(), Some(destinationWalletId.value));
    if found.None? {
      return Threw(DestinationNotFound);
    }
    var wallet := store.wallets[found.value];
    ctx.Put("toWalletBalanceBeforeCredit", DecimalV(wallet.balance));
    wallet := Credit(wallet, amount.value);
    store.SaveWallet(found.value, wallet);
    ctx.Put("toWalletBalanceAfterCredit", DecimalV(wallet.balance));
    return Returned(true);
  }

  method Compensate(store: Store, ctx: SagaContext) returns (outcome: StepOutcome)
    modifies store, ctx
    ensures StepEffect(store.State(), ctx.Snapshot(), outcome) == CompensateSpec(old(store.State()), old(ctx.Snapshot()))
  {
    var amount := ParseDecimal(ctx.Snapshot().Get("amount"));
    if amount.Err? {
      return Threw(amount.error);
    }
    var destinationWalletId := ParseLong(ctx.Snapshot().Get("destinationWalletId"));
    if destinationWalletId.Err? {
      return Threw(destinationWalletId.error);
    }
    var found := FindWalletWithLock(store.State(), Some(destinationWalletId.value));
    if found.None? {
      return Threw(DestinationNotFound);
    }
    var wallet := store.wallets[found.value];
    ctx.Put("toWalletBalanceBeforeCredit", DecimalV(wallet.balance));
    var debited := Debit(wallet, amount.value);
    if debited.Err? {
      return Threw(debited.error);
    }
    store.SaveWallet(found.value, debited.value);
    ctx.Put("toWalletBalanceAfterCredit", DecimalV(debited.value.balance));
    return Returned(true);
  }

  /** The context a transfer gives this step: a `BigDecimal` amount and a `Long` destination wallet id. */
  predicate WellTyped(c: ContextState, amount: Money, walletId: nat)
  {
    c.Get("amount") == DecimalV(amount) && c.Get("destinationWalletId") == LongV(walletId)
  }

  /**
   * With an existing destination wallet, `execute` always returns true,
   * raises exactly that wallet by `amount`, and records the balances before
   * and after.
   */
  lemma ExecuteOutcome(db: Db, c: ContextState, amount: Money, walletId: nat)
    requires WellTyped(c, amount, walletId) && walletId < |db.wallets|
    ensures var e := ExecuteSpec(db, c);
      && e.outcome == Returned(true)
      && e.db == WithWallet(db, walletId, db.wallets[walletId].(balance := db.wallets[walletId].balance + amount))
      && e.ctx.Get("toWalletBalanceBeforeCredit") == DecimalV(db.wallets[walletId].balance)
      && e.ctx.Get("toWalletBalanceAfterCredit") == DecimalV(db.wallets[walletId].balance + amount)
  {
    ParseNumbers(LongV(walletId));
  }

  /** A missing destination wallet makes both `execute` and `compensate` throw "Destination Wallet not Found" and change nothing. */
  lemma MissingWalletThrows(db: Db, c: ContextState, amount: Money, walletId: nat)
    requires WellTyped(c, amount, walletId) && walletId >= |db.wallets|
    ensures ExecuteSpec(db, c) == StepEffect(db, c, Threw(DestinationNotFound))
    ensures CompensateSpec(db, c) == StepEffect(db, c, Threw(DestinationNotFound))
  {
    ParseNumbers(LongV(walletId));
  }

  /**
   * `compensate` succeeds iff the destination balance covers the amount;
   * otherwise it throws IllegalArgumentException and saves nothing.
   */
  lemma CompensateOutcome(db: Db, c: ContextState, amount: Money, walletId: nat)
    requires WellTyped(c, amount, walletId) && walletId < |db.wallets|
    ensures var e := CompensateSpec(db, c);
      && (e.outcome == Returned(true) <==> db.wallets[walletId].balance >= amount)
      && (e.outcome.Threw? ==> e.db == db && e.outcome.error == IllegalArgument("Insufficient balance in wallet"))
      && (e.outcome.Returned? ==>
            && e.db == WithWallet(db, walletId, db.wallets[walletId].(balance := db.wallets[walletId].balance - amount))
            && e.ctx.Get("toWalletBalanceBeforeCredit") == DecimalV(db.wallets[walletId].balance)
            && e.ctx.Get("toWalletBalanceAfterCredit") == DecimalV(db.wallets[walletId].balance - amount))
  {
    ParseNumbers(LongV(walletId));
  }

  /**
   * `compensate` overwrites the two keys `execute` wrote, so after both the
   * context no longer holds the balances of the credit.
   */
  lemma CompensateOverwritesRecordedBalances(db: Db, c: ContextState, amount: Money, walletId: nat)
    requires WellTyped(c, amount, walletId) && walletId < |db.wallets| && db.wallets[walletId].balance >= 0.0
    ensures var e1 := ExecuteSpec(db, c);
      var e2 := CompensateSpec(e1.db, e1.ctx);
      && e2.ctx.Get("toWalletBalanceBeforeCredit") == DecimalV(db.wallets[walletId].balance + amount)
      && e2.ctx.Get("toWalletBalanceAfterCredit") == DecimalV(db.wallets[walletId].balance)
  {
    ExecuteOutcome(db, c, amount, walletId);
    var e1 := ExecuteSpec(db, c);
    assert WellTyped(e1.ctx, amount, walletId);
    RecordsDebitBack(e1.db, e1.ctx, amount, walletId, db.wallets[walletId].balance);
  }

  /** The compensation step of the lemma above, on a store whose wallet holds `b + amount`. */
  lemma RecordsDebitBack(db1: Db, c1: ContextState, amount: Money, walletId: nat, b: real)
    requires WellTyped(c1, amount, walletId) && walletId < |db1.wallets|
    requires db1.wallets[walletId].balance == b + amount && b >= 0.0
    ensures var e2 := CompensateSpec(db1, c1);
      && e2.ctx.Get("toWalletBalanceBeforeCredit") == DecimalV(b + amount)
      && e2.ctx.Get("toWalletBalanceAfterCredit") == DecimalV(b)
  {
    CompensateOutcome(db1, c1, amount, walletId);
    assert (b + amount) - amount == b;
  }

  /**
   * `execute` followed by `compensate` restores every wallet exactly when the
   * destination balance was not negative to begin with (the debit back needs
   * balance + amount >= amount).
   */
  lemma ExecuteThenCompensateRestores(db: Db, c: ContextState, amount: Money, walletId: nat)
    requires WellTyped(c, amount, walletId) && walletId < |db.wallets|
    ensures var e1 := ExecuteSpec(db, c);
      var e2 := CompensateSpec(e1.db, e1.ctx);
      && (e2.outcome == Returned(true) <==> db.wallets[walletId].balance >= 0.0)
      && (e2.outcome == Returned(true) ==> e2.db.wallets == db.wallets)
  {
    ExecuteOutcome(db, c, amount, walletId);
    var e1 := ExecuteSpec(db, c);
    var w := db.wallets[walletId];
    var raised := w.(balance := w.balance + amount);
    assert e1.db.wallets == db.wallets[walletId := raised];
    DebitBack(e1.db, e1.ctx, amount, walletId, w);
  }

  /** The compensation step of the lemma above, on a store whose wallet was raised by `amount`. */
  lemma DebitBack(db1: Db, c1: ContextState, amount: Money, walletId: nat, w: Wallet)
    requires WellTyped(c1, amount, walletId) && walletId < |db1.wallets|
    requires db1.wallets[walletId] == w.(balance := w.balance + amount)
    ensures var e2 := CompensateSpec(db1, c1);
      && (e2.outcome == Returned(true) <==> w.balance >= 0.0)
      && (e2.outcome == Returned(true) ==> e2.db.wallets == db1.wallets[walletId := w])
  {
    CompensateOutcome(db1, c1, amount, walletId);
    DebitBackOf(db1, CompensateSpec(db1, c1), amount, walletId, w);
  }

  /** The arithmetic of `DebitBack`, for any effect with the outcome `CompensateOutcome` describes. */
  lemma DebitBackOf(db1: Db, e2: StepEffect, amount: Money, walletId: nat, w: Wallet)
    requires walletId < |db1.wallets| && db1.wallets[walletId] == w.(balance := w.balance + amount)
    requires e2.outcome == Returned(true) <==> db1.wallets[walletId].balance >= amount
    requires e2.outcome.Returned? ==>
      e2.db == WithWallet(db1, walletId, db1.wallets[walletId].(balance := db1.wallets[walletId].balance - amount))
    ensures e2.outcome == Returned(true) <==> w.balance >= 0.0
    ensures e2.outcome == Returned(true) ==> e2.db.wallets == db1.wallets[walletId := w]
  {
    var raised := db1.wallets[walletId];
    assert raised.(balance := raised.balance - amount) == w;
  }

  /**
   * Both directions change the wallet table only, keep its size, and neither
   * reads nor writes the saga tables: run over other instance and step
   * tables, they have the same effect with those tables carried through.
   */
  lemma TouchesOnlyLedger(db: Db, c: ContextState, instances: seq<SagaInstance>, steps: seq<StepRecord>)
    ensures var e := ExecuteSpec(db, c);
      && e.db == db.(wallets := e.db.wallets) && |e.db.wallets| == |db.wallets|
      && ExecuteSpec(db.(instances := instances, steps := steps), c) == e.(db := e.db.(instances := instances, steps := steps))
    ensures var e := CompensateSpec(db, c);
      && e.db == db.(wallets := e.db.wallets) && |e.db.wallets| == |db.wallets|
      && CompensateSpec(db.(instances := instances, steps := steps), c) == e.(db := e.db.(instances := instances, steps := steps))
  {
  }

  /** `execute` writes the context only under the two balance keys. */
  lemma ExecuteWritesOnlyRecordedKeys(db: Db, c: ContextState)
    ensures SameOutside(c, ExecuteSpec(db, c).ctx, RecordedKeys)
  {
  }

  /** So does `compensate`. */
  lemma CompensateWritesOnlyRecordedKeys(db: Db, c: ContextState)
    ensures SameOutside(c, CompensateSpec(db, c).ctx, RecordedKeys)
  {
  }
}
