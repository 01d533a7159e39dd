/**
 * `TransactionService`: the checks in front of a transfer, the status update
 * the orchestrator's callers use, and the transaction queries.
 *
 * `createTransaction` is a chain of checks that hands over to the transfer
 * saga; `updateTransactionStatus` loads, changes and saves a row; the list
 * queries are filters over the transaction table.
 */
module TransactionService {
  import opened Base
  import opened Enums
  import opened Entities
  import opened Persistence
  import opened TransferSagaService

  // ---------------------------------------------------------------- createTransaction

  const SelfTransfer: Exception := IllegalArgument("Source and destination wallets must be different")
  const InsufficientSourceBalance: Exception := Runtime("Insufficient balance in source wallet")

  function SourceNotFound(id: int): Exception
  {
    Runtime("Source wallet not found with id: " + Show(id))
  }

  function DestinationNotFound(id: int): Exception
  {
    Runtime("Destination wallet not found with id: " + Show(id))
  }

  /** The four conditions a transfer request must meet before any saga starts. */
  predicate ChecksPass(db: Db, req: TransferRequest)
  {
    && req.sourceWalletId != req.destinationWalletId
    && 0 <= req.sourceWalletId < |db.wallets|
    && 0 <= req.destinationWalletId < |db.wallets|
    && db.wallets[req.sourceWalletId].balance >= req.amount
  }

  /**
   * `createTransaction`: refuse a self-transfer, then a missing source, then
   * a missing destination, then a source balance below the amount; only
   * then start the transfer saga.
   */
  function CreateTransactionSpec(db: Db, req: TransferRequest): Effect<TransactionResponse>
  {
    if req.sourceWalletId == req.destinationWalletId then Effect(db, Err(SelfTransfer))
    else
      match FindWallet(db, Some(req.sourceWalletId))
      case Ok(Some(source)) =>
        (match FindWallet(db, Some(req.destinationWalletId))
         case Ok(Some(_)) =>
           if !WalletEntity.HasSufficientBalance(db.wallets[source], req.amount) then Effect(db, Err(InsufficientSourceBalance))
           else InitiateTransferSpec(db, req)
         case _ => Effect(db, Err(DestinationNotFound(req.destinationWalletId))))
      case _ => Effect(db, Err(SourceNotFound(req.sourceWalletId)))
  }

  method CreateTransaction(store: Store, req: TransferRequest) returns (r: Result<TransactionResponse>)
    modifies store
    ensures Effect(store.State(), r) == CreateTransactionSpec(old(store.State()), req)
  {
    if req.sourceWalletId == req.destinationWalletId {
      return Err(SelfTransfer);
    }
    var source := FindWallet(store.State(), Some(req.sourceWalletId));
    if !(source.Ok? && source.value.Some?) {
      return Err(SourceNotFound(req.sourceWalletId));
    }
    var destination := FindWallet(store.State(), Some(req.destinationWalletId));
    if !(destination.Ok? && destination.value.Some?) {
      return Err(DestinationNotFound(req.destinationWalletId));
    }
    var sourceWallet := store.wallets[source.value.value];
    if !WalletEntity.HasSufficientBalance(sourceWallet, req.amount) {
      return Err(InsufficientSourceBalance);
    }
    r := InitiateTransfer(store, req);
  }

  /**
   * The checks run in their order, each one only once the earlier ones have
   * passed, and a refused request leaves the store as it was.
   */
  lemma CreateTransactionChecksInOrder(db: Db, req: TransferRequest)
    ensures var r := CreateTransactionSpec(db, req);
      var src, dst := req.sourceWalletId, req.destinationWalletId;
      && (src == dst ==> r == Effect(db, Err(IllegalArgument("Source and destination wallets must be different"))))
      && (src != dst && !(0 <= src < |db.wallets|) ==> r == Effect(db, Err(SourceNotFound(src))))
      && (src != dst && 0 <= src < |db.wallets| && !(0 <= dst < |db.wallets|) ==>
            r == Effect(db, Err(DestinationNotFound(dst))))
      && (src != dst && 0 <= src < |db.wallets| && 0 <= dst < |db.wallets| && db.wallets[src].balance < req.amount ==>
            r == Effect(db, Err(Runtime("Insufficient balance in source wallet"))))
  {
  }

  /**
   * The transfer saga starts exactly when all four checks pass: then the
   * call is `initiateTransfer`; otherwise it throws and no row of any table
   * changes.
   */
  lemma SagaStartsWhenChecksPass(db: Db, req: TransferRequest)
    requires ChecksPass(db, req)
    ensures CreateTransactionSpec(db, req) == InitiateTransferSpec(db, req)
  {
    assert FindWallet(db, Some(req.sourceWalletId)) == Ok(Some(req.sourceWalletId));
    assert FindWallet(db, Some(req.destinationWalletId)) == Ok(Some(req.destinationWalletId));
  }

  lemma RefusedRequestChangesNothing(db: Db, req: TransferRequest)
    requires !ChecksPass(db, req)
    ensures CreateTransactionSpec(db, req).db == db && CreateTransactionSpec(db, req).result.Err?
  {
  }

  /**
   * On a consistent store, a request that passes the checks ends as a new
   * SUCCESS transaction whose amount has moved from the source wallet to the
   * destination wallet, with a COMPLETED saga behind it.
   */
  lemma CheckedTransferSucceeds(db: Db, req: TransferRequest)
    requires Valid(db) && ChecksPass(db, req)
    ensures var r := CreateTransactionSpec(db, req);
      && r.result.Ok? && r.result.value.id == |db.transactions| && r.result.value.status == Some(TxSuccess)
      && r.db.wallets == Moved(Moved(db.wallets, req.sourceWalletId, -req.amount), req.destinationWalletId, req.amount)
      && |db.instances| < |r.db.instances| && r.db.instances[|db.instances|].status == SagaCompleted
  {
    SagaStartsWhenChecksPass(db, req);
    TransferSucceeds(db, req);
  }

  // ---------------------------------------------------------------- getTransactionById

  function TransactionNotFound(id: Option<int>): Exception
  {
    Runtime("Transaction not found with id: " + ShowNullable(id))
  }

  /** `getTransactionById`. */
  function GetTransactionById(db: Db, id: Option<int>): (r: Result<TransactionResponse>)
    ensures r.Ok? <==> id.Some? && 0 <= id.value < |db.transactions|
    ensures r.Ok? ==> r.value.id == id.value && ResponseTransaction(r.value) == db.transactions[id.value]
    ensures id.None? ==> r.Err? && r.error == NullIdRefused
    ensures id.Some? && r.Err? ==> r.error == TransactionNotFound(id)
  {
    match FindTransaction(db, id)
    case Err(e) => Err(e)
    case Ok(None) => Err(TransactionNotFound(id))
    case Ok(Some(i)) => Ok(MapToResponse(i, db.transactions[i]))
  }

  // ---------------------------------------------------------------- updateTransactionStatus

  /** `updateTransactionStatus`: set the status and the update time, save, map. */
  function SetStatusSpec(db: Db, id: Option<int>, status: TxStatus): Effect<TransactionResponse>
  {
    match FindTransaction(db, id)
    case Err(e) => Effect(db, Err(e))
    case Ok(None) => Effect(db, Err(TransactionNotFound(id)))
    case Ok(Some(i)) =>
      var t := db.transactions[i].(status := Some(status), updatedDate := db.clock);
      Effect(WithTransaction(db, i, t), Ok(MapToResponse(i, t)))
  }

  method UpdateTransactionStatus(store: Store, id: Option<int>, status: TxStatus) returns (r: Result<TransactionResponse>)
    modifies store
    ensures Effect(store.State(), r) == SetStatusSpec(old(store.State()), id, status)
  {
    var found := FindTransaction(store.State(), id);
    if found.Err? {
      return Err(found.error);
    }
    if found.value.None? {
      return Err(TransactionNotFound(id));
    }
    var i := found.value.value;
    var t := store.transactions[i].(status := Some(status), updatedDate := store.clock);
    store.SaveTransaction(i, t);
    r := Ok(MapToResponse(i, t));
  }

  /**
   * The update changes the row's status and update time and nothing else;
   * an unknown id throws "Transaction not found with id: " and the id, and changes nothing.
   */
  lemma SetStatusChangesOnlyStatusAndDate(db: Db, id: Option<int>, status: TxStatus)
    ensures var r := SetStatusSpec(db, id, status);
      && (r.result.Ok? <==> id.Some? && 0 <= id.value < |db.transactions|)
      && (r.result.Ok? ==>
            && |r.db.transactions| == |db.transactions|
            && r.db.transactions[id.value] == db.transactions[id.value].(status := Some(status), updatedDate := db.clock)
            && (forall j :: 0 <= j < |db.transactions| && j != id.value ==> r.db.transactions[j] == db.transactions[j])
            && r.result.value.status == Some(status) && r.result.value.updatedDate == db.clock)
      && (r.result.Err? ==> r.db == db)
      && (id.Some? && r.result.Err? ==> r.result.error == TransactionNotFound(id))
      && r.db.wallets == db.wallets && r.db.instances == db.instances && r.db.steps == db.steps
  {
  }

  /** At the same clock reading, setting the same status twice is the same as setting it once. */
  lemma SetStatusIdempotent(db: Db, id: Option<int>, status: TxStatus)
    ensures var once := SetStatusSpec(db, id, status);
      SetStatusSpec(once.db, id, status) == once
  {
    var once := SetStatusSpec(db, id, status);
    if id.Some? && 0 <= id.value < |db.transactions| {
      var i := id.value;
      var t := once.db.transactions[i];
      assert t.(status := Some(status), updatedDate := db.clock) == t;
      assert once.db.transactions[i := t] == once.db.transactions;
    }
  }

  /** The transfer saga's own status update writes the same row this service's update writes. */
  lemma SagaStatusUpdateAgrees(db: Db, id: int, success: bool)
    ensures var mine := SetStatusSpec(db, Some(id), FinalStatus(success));
      var sagas := UpdateTransactionStatusSpec(db, id, success);
      mine.db == sagas.db && mine.result.Ok? == sagas.result.Ok?
      && (mine.result.Err? ==> mine.result.error == sagas.result.error)
  {
  }

  // ---------------------------------------------------------------- queries

  /** Every id in `ids` names a row. */
  predicate RowIds(db: Db, ids: seq<nat>)
  {
    forall k :: 0 <= k < |ids| ==> ids[k] < |db.transactions|
  }

  /** The `mapToResponseDTO` stream over the rows named by `ids`. */
  function Responses(db: Db, ids: seq<nat>): (r: seq<TransactionResponse>)
    requires RowIds(db, ids)
    ensures |r| == |ids|
    ensures forall k :: 0 <= k < |r| ==> r[k] == MapToResponse(ids[k], db.transactions[ids[k]])
  {
    seq(|ids|, k requires 0 <= k < |ids| => MapToResponse(ids[k], db.transactions[ids[k]]))
  }

  predicate Touches(t: Transaction, walletId: int)
  {
    t.sourceWalletId == walletId || t.destinationWalletId == walletId
  }

  /** `findByWalletId`: the transactions the wallet sent or received, in id order. */
  function FindByWalletId(db: Db, walletId: int): (r: seq<nat>)
    ensures RowIds(db, r)
    ensures forall i :: 0 <= i < |db.transactions| ==> (i in r <==> Touches(db.transactions[i], walletId))
  {
    Positions(db.transactions, (t: Transaction) => Touches(t, walletId))
  }

  /** `getTransactionsByWalletId`. */
  function GetTransactionsByWalletId(db: Db, walletId: int): (r: seq<TransactionResponse>)
    ensures forall k :: 0 <= k < |r| ==> Touches(ResponseTransaction(r[k]), walletId)
  {
    var ids := FindByWalletId(db, walletId);
    Responses(db, ids)
  }

  /** The ids of the wallet's transactions that carry `status`: the stream filter over `findByWalletId`. */
  function WithStatusOf(db: Db, walletId: int, status: TxStatus): (r: seq<nat>)
    ensures RowIds(db, r)
    ensures forall k :: 0 <= k < |r| ==>
      Touches(db.transactions[r[k]], walletId) && db.transactions[r[k]].status == Some(status)
  {
    var ids := FindByWalletId(db, walletId);
    Filter(ids, (i: nat) => i < |db.transactions| && db.transactions[i].status == Some(status))
  }

  /** `getSuccessfulTransactionsByWallet`. */
  function GetSuccessfulTransactionsByWallet(db: Db, walletId: int): (r: seq<TransactionResponse>)
    ensures forall k :: 0 <= k < |r| ==>
      r[k].status == Some(TxSuccess) && Touches(ResponseTransaction(r[k]), walletId)
  {
    Responses(db, WithStatusOf(db, walletId, TxSuccess))
  }

  /** `getFailedTransactionsByWallet`. */
  function GetFailedTransactionsByWallet(db: Db, walletId: int): (r: seq<TransactionResponse>)
    ensures forall k :: 0 <= k < |r| ==>
      r[k].status == Some(TxFailed) && Touches(ResponseTransaction(r[k]), walletId)
  {
    Responses(db, WithStatusOf(db, walletId, TxFailed))
  }

  /**
   * A response is in the wallet's list for `status` exactly when it describes
   * a stored transaction that the wallet sent or received and that has that
   * status.
   */
  lemma {:induction false} WithStatusIsExactlyTheMatching(db: Db, walletId: int, status: TxStatus, x: TransactionResponse)
    ensures x in Responses(db, WithStatusOf(db, walletId, status)) <==>
      && 0 <= x.id < |db.transactions|
      && x == MapToResponse(x.id, db.transactions[x.id])
      && Touches(db.transactions[x.id], walletId)
      && db.transactions[x.id].status == Some(status)
  {
    var all := FindByWalletId(db, walletId);
    var ids := WithStatusOf(db, walletId, status);
    var r := Responses(db, ids);
    if x in r {
      var k :| 0 <= k < |r| && r[k] == x;
      assert ids[k] in all;
    }
    if && 0 <= x.id < |db.transactions|
       && x == MapToResponse(x.id, db.transactions[x.id])
       && Touches(db.transactions[x.id], walletId)
       && db.transactions[x.id].status == Some(status)
    {
      var i: nat := x.id;
      assert i in all;
      var j :| 0 <= j < |all| && all[j] == i;
      assert all[j] in ids;
      var k :| 0 <= k < |ids| && ids[k] == i;
      assert r[k] == x;
    }
  }

  /** The successful list is exactly the wallet's SUCCESS transactions, the failed list its FAILED ones. */
  lemma SuccessfulAndFailedAreExact(db: Db, walletId: int, x: TransactionResponse)
    ensures x in GetSuccessfulTransactionsByWallet(db, walletId) <==>
      0 <= x.id < |db.transactions| && x == MapToResponse(x.id, db.transactions[x.id])
      && Touches(db.transactions[x.id], walletId) && db.transactions[x.id].status == Some(TxSuccess)
    ensures x in GetFailedTransactionsByWallet(db, walletId) <==>
      0 <= x.id < |db.transactions| && x == MapToResponse(x.id, db.transactions[x.id])
      && Touches(db.transactions[x.id], walletId) && db.transactions[x.id].status == Some(TxFailed)
  {
    WithStatusIsExactlyTheMatching(db, walletId, TxSuccess, x);
    WithStatusIsExactlyTheMatching(db, walletId, TxFailed, x);
  }

  /** No transaction is listed as both successful and failed. */
  lemma SuccessfulAndFailedDisjoint(db: Db, walletId: int, x: TransactionResponse)
    ensures !(x in GetSuccessfulTransactionsByWallet(db, walletId) && x in GetFailedTransactionsByWallet(db, walletId))
  {
    SuccessfulAndFailedAreExact(db, walletId, x);
  }
}
