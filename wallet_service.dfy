/**
 * `WalletService`: creating wallets, switching them on and off, and the
 * validated balance changes (deposit, debit, credit) that load a wallet,
 * check it and save it back.
 *
 * Each state-changing operation is a method on the `Store` proved equal to a
 * specification function on `Db`; the read-only queries are functions.
 */
module WalletService {
  import opened Base
  import opened Persistence
  import opened WalletEntity

  /** `WalletRequestDTO`; a field the client left null is `None`. */
  datatype WalletRequest = WalletRequest(userId: int, isActive: Option<bool>, balance: Option<Money>)

  /** `WalletResponseDTO`: four of the wallet's fields (not its currency). */
  datatype WalletResponse = WalletResponse(id: Option<int>, userId: int, isActive: bool, balance: Money)

  function MapToResponse(w: Wallet): WalletResponse
  {
    WalletResponse(w.id, w.userId, w.isActive, w.balance)
  }

  /** The response keeps everything about a wallet except its currency. */
  lemma MapToResponseForgetsOnlyCurrency(a: Wallet, b: Wallet)
    ensures MapToResponse(a) == MapToResponse(b) <==> a.(currency := b.currency) == b
  {
  }

  function WalletNotFound(id: Option<int>): Exception
  {
    Runtime("Wallet not found with id: " + ShowNullable(id))
  }

  function OrElse<T>(o: Option<T>, default: T): T
  {
    if o.Some? then o.value else default
  }

  // ---------------------------------------------------------------- createWallet

  /** The wallet `createWallet` builds from a request, before it is saved. */
  function RequestedWallet(req: WalletRequest): Wallet
  {
    NewWallet(req.userId, OrElse(req.isActive, true)).(balance := OrElse(req.balance, 0.0))
  }

  function CreateWalletSpec(db: Db, req: WalletRequest): Effect<WalletResponse>
  {
    var stored := RequestedWallet(req).(id := Some(|db.wallets|));
    Effect(db.(wallets := db.wallets + [stored]), Ok(MapToResponse(stored)))
  }

  method CreateWallet(store: Store, req: WalletRequest) returns (r: WalletResponse)
    modifies store
    ensures Effect(store.State(), Ok(r)) == CreateWalletSpec(old(store.State()), req)
  {
    var wallet := RequestedWallet(req);
    var id := store.InsertWallet(wallet);
    r := MapToResponse(store.wallets[id]);
  }

  /**
   * A created wallet gets the next id, is active and has a zero balance
   * unless the request says otherwise, is stored in USD, and leaves every
   * other table and every other wallet as it was.
   */
  lemma CreateWalletDefaults(db: Db, req: WalletRequest)
    requires Valid(db)
    ensures var r := CreateWalletSpec(db, req);
      && r.result.Ok?
      && r.result.value.id == Some(|db.wallets|)
      && r.result.value.userId == req.userId
      && r.result.value.isActive == (req.isActive != Some(false))
      && r.result.value.balance == (if req.balance.None? then 0.0 else req.balance.value)
      && |r.db.wallets| == |db.wallets| + 1
      && r.db.wallets[..|db.wallets|] == db.wallets
      && r.db.wallets[|db.wallets|].currency == "USD"
      && r.db.instances == db.instances && r.db.steps == db.steps && r.db.transactions == db.transactions
      && Valid(r.db)
  {
    var r := CreateWalletSpec(db, req);
    assert r.db.wallets[..|db.wallets|] == db.wallets;
  }

  // ---------------------------------------------------------------- queries

  /** `getWalletById`. */
  function GetWalletById(db: Db, id: Option<int>): (r: Result<WalletResponse>)
    ensures r.Ok? <==> id.Some? && 0 <= id.value < |db.wallets|
    ensures r.Ok? ==> r.value == MapToResponse(db.wallets[id.value])
    ensures id.None? ==> r.Err? && r.error == NullIdRefused
    ensures id.Some? && r.Err? ==> r.error == WalletNotFound(id)
  {
    var found := FindWallet(db, id);
    if found.Err? then Err(found.error)
    else if found.value.None? then Err(WalletNotFound(id))
    else Ok(MapToResponse(db.wallets[found.value.value]))
  }

  /** `getWalletsByUserId`: the user's wallets, in id order. */
  function GetWalletsByUserId(db: Db, userId: int): (r: seq<WalletResponse>)
    ensures var ids := FindWalletsByUserId(db, userId);
      |r| == |ids| && forall k :: 0 <= k < |r| ==> r[k] == MapToResponse(db.wallets[ids[k]])
  {
    var ids := FindWalletsByUserId(db, userId);
    seq(|ids|, k requires 0 <= k < |ids| => MapToResponse(db.wallets[ids[k]]))
  }

  /** On a valid store, the list holds exactly the responses of the user's wallets, each once. */
  lemma GetWalletsByUserIdIsExactlyTheUsersWallets(db: Db, userId: int)
    requires Valid(db)
    ensures var r := GetWalletsByUserId(db, userId);
      && (forall k :: 0 <= k < |r| ==> r[k].userId == userId)
      && (forall i :: 0 <= i < |db.wallets| && db.wallets[i].userId == userId ==> MapToResponse(db.wallets[i]) in r)
      && (forall a, b :: 0 <= a < b < |r| ==> r[a].id.Some? && r[b].id.Some? && r[a].id.value < r[b].id.value)
  {
    var ids := FindWalletsByUserId(db, userId);
    var r := GetWalletsByUserId(db, userId);
    forall i | 0 <= i < |db.wallets| && db.wallets[i].userId == userId
      ensures MapToResponse(db.wallets[i]) in r
    {
      assert i in ids;
      var k :| 0 <= k < |ids| && ids[k] == i;
      assert r[k] == MapToResponse(db.wallets[i]);
    }
    forall k | 0 <= k < |r|
      ensures r[k].userId == userId
    {
      assert ids[k] in ids;
    }
    forall a, b | 0 <= a < b < |r|
      ensures r[a].id.Some? && r[b].id.Some? && r[a].id.value < r[b].id.value
    {
      assert ids[a] in ids && ids[b] in ids;
    }
  }

  /** `getBalance`. */
  function GetBalance(db: Db, id: Option<int>): (r: Result<Money>)
    ensures r.Ok? <==> id.Some? && 0 <= id.value < |db.wallets|
    ensures r.Ok? ==> r.value == db.wallets[id.value].balance
    ensures r.Err? ==> GetWalletById(db, id) == Err(r.error)
  {
    var found := FindWallet(db, id);
    if found.Err? then Err(found.error)
    else if found.value.None? then Err(WalletNotFound(id))
    else Ok(db.wallets[found.value.value].balance)
  }

  /** `hasSufficientBalance(id, amount)`: the stored balance covers `amount`. */
  function HasSufficientBalanceById(db: Db, id: Option<int>, amount: Money): (r: Result<bool>)
    ensures r.Ok? <==> GetBalance(db, id).Ok?
    ensures r.Ok? ==> (r.value <==> GetBalance(db, id).value >= amount)
    ensures r.Err? ==> r.error == GetBalance(db, id).error
  {
    var found := FindWallet(db, id);
    if found.Err? then Err(found.error)
    else if found.value.None? then Err(WalletNotFound(id))
    else Ok(HasSufficientBalance(db.wallets[found.value.value], amount))
  }

  /** `existsById`: a null id is refused, any other id exists iff a wallet has it. */
  function ExistsById(db: Db, id: Option<int>): (r: Result<bool>)
    ensures r.Err? <==> id.None?
    ensures r.Err? ==> r.error == NullIdRefused
    ensures r.Ok? ==> (r.value <==> GetWalletById(db, id).Ok?)
  {
    var found := FindWallet(db, id);
    if found.Err? then Err(found.error) else Ok(found.value.Some?)
  }

  // ---------------------------------------------------------------- activateWallet / deactivateWallet

  function SetActiveSpec(db: Db, id: Option<int>, active: bool): Effect<WalletResponse>
  {
    var found := FindWallet(db, id);
    if found.Err? then Effect(db, Err(found.error))
    else if found.value.None? then Effect(db, Err(WalletNotFound(id)))
    else
      var i := found.value.value;
      var w := db.wallets[i].(isActive := active);
      Effect(WithWallet(db, i, w), Ok(MapToResponse(w)))
  }

  method SetActive(store: Store, id: Option<int>, active: bool) returns (r: Result<WalletResponse>)
    modifies store
    ensures Effect(store.State(), r) == SetActiveSpec(old(store.State()), id, active)
  {
    var found := FindWallet(store.State(), id);
    if found.Err? {
      return Err(found.error);
    }
    if found.value.None? {
      return Err(WalletNotFound(id));
    }
    var i := found.value.value;
    var wallet := store.wallets[i].(isActive := active);
    store.SaveWallet(i, wallet);
    r := Ok(MapToResponse(wallet));
  }

  /** `activateWallet`. */
  method ActivateWallet(store: Store, id: Option<int>) returns (r: Result<WalletResponse>)
    modifies store
    ensures Effect(store.State(), r) == SetActiveSpec(old(store.State()), id, true)
  {
    r := SetActive(store, id, true);
  }

  /** `deactivateWallet`. */
  method DeactivateWallet(store: Store, id: Option<int>) returns (r: Result<WalletResponse>)
    modifies store
    ensures Effect(store.State(), r) == SetActiveSpec(old(store.State()), id, false)
  {
    r := SetActive(store, id, false);
  }

  /**
   * Switching a wallet on or off changes its `isActive` flag and nothing
   * else; an unknown id changes nothing and reports the id.
   */
  lemma SetActiveChangesOnlyTheFlag(db: Db, id: Option<int>, active: bool)
    requires Valid(db)
    ensures var r := SetActiveSpec(db, id, active);
      && (r.result.Ok? <==> id.Some? && 0 <= id.value < |db.wallets|)
      && (r.result.Ok? ==>
            && r.db.wallets == db.wallets[id.value := db.wallets[id.value].(isActive := active)]
            && r.result.value.isActive == active
            && r.result.value.balance == db.wallets[id.value].balance
            && r.result.value.id == id)
      && (r.result.Err? ==> r.db == db)
      && (id.Some? && r.result.Err? ==> r.result.error == WalletNotFound(id))
      && r.db.instances == db.instances && r.db.steps == db.steps && r.db.transactions == db.transactions
      && Valid(r.db)
  {
  }

  /** Activating (or deactivating) twice is the same as doing it once, down to the response. */
  lemma SetActiveIdempotent(db: Db, id: Option<int>, active: bool)
    ensures var once := SetActiveSpec(db, id, active);
      SetActiveSpec(once.db, id, active) == once
  {
    var once := SetActiveSpec(db, id, active);
    if id.Some? && 0 <= id.value < |db.wallets| {
      var i := id.value;
      var w := db.wallets[i].(isActive := active);
      assert once.db.wallets[i] == w;
      assert w.(isActive := active) == w;
      assert once.db.wallets[i := w] == once.db.wallets;
    }
  }

  // ---------------------------------------------------------------- addFunds / debit / credit

  /** Which of the three balance operations runs; they differ in direction and in one message. */
  datatype BalanceOp = AddFundsOp | DebitOp | CreditOp

  function InactiveMessage(op: BalanceOp): string
  {
    match op
    case AddFundsOp => "Cannot add funds to inactive wallet"
    case DebitOp => "Cannot debit from inactive wallet"
    case CreditOp => "Cannot credit to inactive wallet"
  }

  const AmountNotPositive: Exception := IllegalArgument("Amount must be positive")

  /** The balance change an operation makes: `wallet.debit` or `wallet.credit`. */
  function ApplyOp(w: Wallet, amount: Money, op: BalanceOp): Result<Wallet>
  {
    if op == DebitOp then Debit(w, amount) else Ok(Credit(w, amount))
  }

  /**
   * The shared validation chain: a non-positive amount is refused first,
   * then the wallet is loaded under lock, then an inactive wallet is refused,
   * then the balance changes and the wallet is saved.
   */
  function BalanceSpec(db: Db, id: Option<int>, amount: Money, op: BalanceOp): Effect<WalletResponse>
  {
    if amount <= 0.0 then Effect(db, Err(AmountNotPositive))
    else
      var found := FindWalletWithLock(db, id);
      if found.None? then Effect(db, Err(WalletNotFound(id)))
      else
        var i := found.value;
        var w := db.wallets[i];
        if !w.isActive then Effect(db, Err(Runtime(InactiveMessage(op))))
        else
          var changed := ApplyOp(w, amount, op);
          if changed.Err? then Effect(db, Err(changed.error))
          else Effect(WithWallet(db, i, changed.value), Ok(MapToResponse(changed.value)))
  }

  method ChangeBalance(store: Store, id: Option<int>, amount: Money, op: BalanceOp) returns (r: Result<WalletResponse>)
    modifies store
    ensures Effect(store.State(), r) == BalanceSpec(old(store.State()), id, amount, op)
  {
    if amount <= 0.0 {
      return Err(AmountNotPositive);
    }
    var found := FindWalletWithLock(store.State(), id);
    if found.None? {
      return Err(WalletNotFound(id));
    }
    var i := found.value;
    var wallet := store.wallets[i];
    if !wallet.isActive {
      return Err(Runtime(InactiveMessage(op)));
    }
    var changed := ApplyOp(wallet, amount, op);
    if changed.Err? {
      return Err(changed.error);
    }
    store.SaveWallet(i, changed.value);
    r := Ok(MapToResponse(changed.value));
  }

  /** `addFunds`. */
  method AddFunds(store: Store, id: Option<int>, amount: Money) returns (r: Result<WalletResponse>)
    modifies store
    ensures Effect(store.State(), r) == BalanceSpec(old(store.State()), id, amount, AddFundsOp)
  {
    r := ChangeBalance(store, id, amount, AddFundsOp);
  }

  /** `debit`. */
  method DebitWallet(store: Store, id: Option<int>, amount: Money) returns (r: Result<WalletResponse>)
    modifies store
    ensures Effect(store.State(), r) == BalanceSpec(old(store.State()), id, amount, DebitOp)
  {
    r := ChangeBalance(store, id, amount, DebitOp);
  }

  /** `credit`. */
  method CreditWallet(store: Store, id: Option<int>, amount: Money) returns (r: Result<WalletResponse>)
    modifies store
    ensures Effect(store.State(), r) == BalanceSpec(old(store.State()), id, amount, CreditOp)
  {
    r := ChangeBalance(store, id, amount, CreditOp);
  }

  /** The signed change an operation makes to the balance. */
  function Delta(amount: Money, op: BalanceOp): Money
  {
    if op == DebitOp then -amount else amount
  }

  /** A non-positive amount is refused before the wallet is looked up: whatever the id, nothing changes. */
  lemma NonPositiveAmountRefusedFirst(db: Db, id: Option<int>, amount: Money, op: BalanceOp)
    requires amount <= 0.0
    ensures BalanceSpec(db, id, amount, op) == Effect(db, Err(IllegalArgument("Amount must be positive")))
  {
  }

  /** A positive amount on a missing wallet (or a null id) reports the id and changes nothing. */
  lemma MissingWalletRefused(db: Db, id: Option<int>, amount: Money, op: BalanceOp)
    requires amount > 0.0
    requires !(id.Some? && 0 <= id.value < |db.wallets|)
    ensures BalanceSpec(db, id, amount, op) == Effect(db, Err(WalletNotFound(id)))
  {
  }

  /** An inactive wallet is refused with the operation's own message; its balance stays as it was. */
  lemma InactiveWalletRefused(db: Db, id: int, amount: Money, op: BalanceOp)
    requires amount > 0.0 && 0 <= id < |db.wallets| && !db.wallets[id].isActive
    ensures var r := BalanceSpec(db, Some(id), amount, op);
      && r.db == db
      && r.result == Err(Exception(RuntimeException, InactiveMessage(op)))
      && GetBalance(r.db, Some(id)) == Ok(db.wallets[id].balance)
  {
  }

  /**
   * The operation succeeds exactly when the amount is positive, the wallet
   * exists and is active, and (for a debit) the balance covers the amount.
   * Then the wallet's balance moves by exactly the amount and nothing else
   * in the store changes; otherwise the store is untouched.
   */
  lemma BalanceChangesByExactlyAmount(db: Db, id: Option<int>, amount: Money, op: BalanceOp)
    ensures var r := BalanceSpec(db, id, amount, op);
      && (r.result.Ok? <==>
            && amount > 0.0 && id.Some? && 0 <= id.value < |db.wallets| && db.wallets[id.value].isActive
            && (op == DebitOp ==> db.wallets[id.value].balance >= amount))
      && (r.result.Ok? ==>
            && r.db == db.(wallets := db.wallets[id.value := db.wallets[id.value].(balance := db.wallets[id.value].balance + Delta(amount, op))])
            && r.result.value.balance == db.wallets[id.value].balance + Delta(amount, op)
            && GetBalance(r.db, id) == Ok(GetBalance(db, id).value + Delta(amount, op)))
      && (r.result.Err? ==> r.db == db)
  {
  }

  /** A debit refused for an insufficient balance reports the entity's message. */
  lemma InsufficientBalanceRefused(db: Db, id: int, amount: Money)
    requires amount > 0.0 && 0 <= id < |db.wallets| && db.wallets[id].isActive
    requires db.wallets[id].balance < amount
    ensures BalanceSpec(db, Some(id), amount, DebitOp) == Effect(db, Err(IllegalArgument("Insufficient balance in wallet")))
  {
  }

  /** A successful debit followed by a credit of the same amount gives back the store it started from. */
  lemma DebitThenCreditRestoresStore(db: Db, id: Option<int>, amount: Money)
    requires BalanceSpec(db, id, amount, DebitOp).result.Ok?
    ensures var debited := BalanceSpec(db, id, amount, DebitOp);
      BalanceSpec(debited.db, id, amount, CreditOp).result.Ok?
      && BalanceSpec(debited.db, id, amount, CreditOp).db == db
  {
    var i := id.value;
    var debited := BalanceSpec(db, id, amount, DebitOp);
    assert debited.db.wallets[i] == db.wallets[i].(balance := db.wallets[i].balance - amount);
    assert debited.db.wallets[i := db.wallets[i]] == db.wallets;
  }

  /** Balance changes keep the table constraints (a wallet keeps its id). */
  lemma BalanceChangeKeepsValid(db: Db, id: Option<int>, amount: Money, op: BalanceOp)
    requires Valid(db)
    ensures Valid(BalanceSpec(db, id, amount, op).db)
  {
  }
}
