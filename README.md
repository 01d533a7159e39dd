# Wallet transfer saga — a Dafny model

This project models the core of a wallet service that moves money between wallets with an
orchestrated saga. A transfer request becomes a PENDING `Transaction` row plus a `SagaInstance`
row that holds a serialized `SagaContext`. Three steps then run in order: `DEBIT_SOURCE_WALLET`,
`CREDIT_DESTINATION_WALLET` and `UPDATE_TRANSACTION_STATUS`. Each step records a `SagaStep` row
and has a compensating action. When a step fails, the completed steps are compensated in reverse
order, and the saga ends COMPENSATED or FAILED. A scheduled recovery job finds sagas left in
STARTED or COMPENSATING for more than ten minutes and compensates them. Around the saga sit
`WalletService` (create, query, activate, add funds, debit, credit) and `TransactionService`
(validated transfer creation, lookup, status update, per-wallet queries).

How the model is built:

- **The database.** `Persistence.Db` holds four tables as sequences (saga instances, step
  records, wallets, transactions) and a clock that stands in for `Instant.now()`. A row's id is
  its position.
- **Imperative code.** Every Java method that changes state is a Dafny `method` on the mutable
  `Persistence.Store` (and on `Context.SagaContext` for the context object). Its `ensures` ties
  the new state and its result to a pure specification function on `Db`.
- **Properties.** The lemmas prove the properties the code promises about those functions.
  Examples: the exact balance change, compensation in LIFO order, and every stalled saga
  resolved by one sweep.
- **Exceptions.** A thrown exception is an `Err` carrying the exception's kind and message.
- **Money.** `BigDecimal` amounts are `real`.

Modules follow the source: `Base` (results, integers, text), `Enums`, `WalletEntity`,
`Entities`, `Context`, `Persistence`, `SagaStepInterface`, the three step modules,
`SagaStepFactory`, `SagaOrchestrator`, `TransferSagaService`, `SagaRecovery`, `WalletService`
and `TransactionService`.

## Model

| member | source | states |
|---|---|---|
| Base.IncrementInt32 | src/main/java/com/jitendra/Wallet/services/saga/SagaContext.java:178-180 | `retryCount++` on a Java `Integer`: one more below 2^31-1, and equal to x+1 modulo 2^32 (wraps to -2^31) at the top |
| Base.ParseInteger | src/main/java/com/jitendra/Wallet/services/saga/steps/CreditDestinationWalletStep.java:35 | `Long.valueOf` on a text: succeeds only on non-empty text |
| Base.IntegerTextIsDecimal | src/main/java/com/jitendra/Wallet/services/saga/steps/CreditDestinationWalletStep.java:31 | every text `Long.parseLong` accepts is read by `new BigDecimal` as the same number |
| Base.FractionTextIsDecimal | src/main/java/com/jitendra/Wallet/services/saga/steps/CreditDestinationWalletStep.java:31 | "1.5" is read as 1.5, while `Long.parseLong` refuses it |
| Base.ExponentTextIsDecimal | src/main/java/com/jitendra/Wallet/services/saga/steps/CreditDestinationWalletStep.java:31 | "-2.5E2" is read as -250 |
| Base.SignificandWithPoint | src/main/java/com/jitendra/Wallet/services/saga/steps/CreditDestinationWalletStep.java:31 | the significand "2.5" is 25 over ten |
| Base.LonePointIsNotDecimal | src/main/java/com/jitendra/Wallet/services/saga/steps/CreditDestinationWalletStep.java:31 | "." and "-." are not numbers (NumberFormatException) |
| Base.ShowParseRoundTrip | src/main/java/com/jitendra/Wallet/services/saga/steps/CreditDestinationWalletStep.java:35 | parsing the printed form of any integer gives that integer back, so `Long.valueOf(x.toString())` is the identity on longs |
| Base.ReversedConcat | src/main/java/com/jitendra/Wallet/services/saga/SagaOrchestratorImpl.java:268 | reversing a concatenation reverses each part and swaps them |
| Base.ReversedAt | src/main/java/com/jitendra/Wallet/services/saga/SagaOrchestratorImpl.java:268 | the k-th element of the reversed list is the (n-1-k)-th of the original, and the length is kept |
| Enums.TxStatusValueOf | src/main/java/com/jitendra/Wallet/services/saga/steps/UpdateTransactionStatus.java:36 | `TransactionStatus.valueOf`: succeeds exactly on PENDING, SUCCESS and FAILED, naming the status it returns; null gives NullPointerException, any other text IllegalArgumentException |
| Enums.TxStatusName | src/main/java/com/jitendra/Wallet/services/saga/TransferSagaService.java:84 | `name()` gives "PENDING", "SUCCESS" and "FAILED", each for exactly its own constant |
| Enums.TxStatusNameRoundTrip | src/main/java/com/jitendra/Wallet/services/saga/steps/UpdateTransactionStatus.java:36 | `valueOf(name())` returns every status unchanged |
| WalletEntity.NewWallet | src/main/java/com/jitendra/Wallet/entity/Wallet.java:38-42 | a new wallet, from the field initialisers, has no id, currency USD and balance 0, with the given owner and active flag |
| WalletEntity.Debit | src/main/java/com/jitendra/Wallet/entity/Wallet.java:55-64 | debit succeeds exactly when the balance covers the amount, then lowers the balance by exactly the amount (never below 0) and changes nothing else; otherwise "Insufficient balance in wallet" |
| WalletEntity.Credit | src/main/java/com/jitendra/Wallet/entity/Wallet.java:66-68 | credit raises the balance by exactly the amount and changes nothing else |
| WalletEntity.EqualsById | src/main/java/com/jitendra/Wallet/entity/Wallet.java:70-76 | two distinct wallet objects are equal exactly when both have an id and the ids agree |
| WalletEntity.HasSufficientBalance | src/main/java/com/jitendra/Wallet/entity/Wallet.java:54-56 | the balance covers the amount exactly when subtracting it leaves the balance non-negative; a non-negative balance covers every amount up to zero |
| WalletEntity.Equals | src/main/java/com/jitendra/Wallet/entity/Wallet.java:70-76 | a wallet equals itself; two wallets with the same non-null id are equal; a distinct wallet without an id, or with a different id, is not |
| WalletEntity.EqualsSymmetric | src/main/java/com/jitendra/Wallet/entity/Wallet.java:70-76 | equality is symmetric, and a distinct copy of an unsaved wallet is never equal to it |
| WalletEntity.CreditThenDebitRestores | src/main/java/com/jitendra/Wallet/entity/Wallet.java:59-68 | crediting then debiting the same amount succeeds exactly on a non-negative balance and then restores the wallet |
| WalletEntity.DebitThenCreditRestores | src/main/java/com/jitendra/Wallet/entity/Wallet.java:59-68 | a successful debit followed by a credit of the same amount restores the wallet |
| WalletEntity.DebitCreditConservesSum | src/main/java/com/jitendra/Wallet/entity/Wallet.java:59-68 | debiting one wallet and crediting another by the same amount keeps the sum of the two balances |
| Entities.NewInstance | src/main/java/com/jitendra/Wallet/entity/SagaInstance.java:49-81 | a new saga instance has the given type, context and status, no current step, retryCount 0, maxRetries 3, timeout 60 minutes |
| Entities.NewStepRecord | src/main/java/com/jitendra/Wallet/entity/SagaStep.java:61-77 | a new step record is PENDING, has no error message, retryCount 0 and maxRetries 3, for the given instance, name and order |
| Context.CastDecimal | src/main/java/com/jitendra/Wallet/services/saga/steps/DebitSourceWalletStep.java:28 | a `(BigDecimal)` cast succeeds exactly on a decimal or null, returning it, and otherwise throws ClassCastException |
| Context.CastLong | src/main/java/com/jitendra/Wallet/services/saga/steps/DebitSourceWalletStep.java:29 | a `(Long)` cast succeeds exactly on a long or null, returning it, and otherwise throws ClassCastException |
| Context.CastString | src/main/java/com/jitendra/Wallet/services/saga/steps/UpdateTransactionStatus.java:28 | a `(String)` cast succeeds exactly on a string or null, returning it, and otherwise throws ClassCastException |
| Context.CastTxStatus | src/main/java/com/jitendra/Wallet/services/saga/steps/UpdateTransactionStatus.java:54 | a `(TransactionStatus)` cast succeeds exactly on a status or null, returning it, and otherwise throws ClassCastException |
| Context.StatusValue | src/main/java/com/jitendra/Wallet/services/saga/steps/UpdateTransactionStatus.java:33-34 | a status stored in the context casts back to the same (possibly null) status |
| Context.ParseDecimal | src/main/java/com/jitendra/Wallet/services/saga/steps/CreditDestinationWalletStep.java:31 | `new BigDecimal(v.toString())`: null throws NullPointerException and a decimal comes back unchanged; any other value is read as decimal text (`Base.ParseDecimalText`: an optional sign, digits with at most one point, an optional exponent) |
| Context.ParseLong | src/main/java/com/jitendra/Wallet/services/saga/steps/CreditDestinationWalletStep.java:35 | `Long.valueOf(v.toString())`: null throws NullPointerException |
| Context.ParseNumbers | src/main/java/com/jitendra/Wallet/services/saga/steps/CreditDestinationWalletStep.java:35 | a long or an int in the context is read back by `Long.valueOf(v.toString())` as the same number |
| Context.ParseNumbersAsDecimals | src/main/java/com/jitendra/Wallet/services/saga/steps/CreditDestinationWalletStep.java:31 | a long or an int in the context is read back by `new BigDecimal(v.toString())` as the same number |
| Context.FractionAmountIsRead | src/main/java/com/jitendra/Wallet/services/saga/steps/CreditDestinationWalletStep.java:31 | an amount held as the text "1.5" is read as 1.5, not refused |
| Context.ContextState.Put | src/main/java/com/jitendra/Wallet/services/saga/SagaContext.java:62-64 | after put the key holds the value; every other key, the metadata, the flags and the ids are unchanged |
| Context.ContextState.Get | src/main/java/com/jitendra/Wallet/services/saga/SagaContext.java:71-73 | get returns the stored value, or null for a missing key |
| Context.ContextState.ContainsKey | src/main/java/com/jitendra/Wallet/services/saga/SagaContext.java:104-106 | a key that is not contained reads as null; a contained key reads as its stored value |
| Context.ContextState.GetTyped | src/main/java/com/jitendra/Wallet/services/saga/SagaContext.java:82-88 | the typed get is non-null exactly when the key holds an instance of the class, and then returns it |
| Context.ContextState.GetOptional | src/main/java/com/jitendra/Wallet/services/saga/SagaContext.java:95-97 | getOptional is present exactly when the key holds a non-null value, and then returns it |
| Context.ContextState.Remove | src/main/java/com/jitendra/Wallet/services/saga/SagaContext.java:113-115 | remove returns the previous value and deletes only that key |
| Context.ContextState.PutMetadata | src/main/java/com/jitendra/Wallet/services/saga/SagaContext.java:124-126 | putMetadata sets one metadata key and leaves the data, the other metadata and the flags alone |
| Context.ContextState.GetMetadata | src/main/java/com/jitendra/Wallet/services/saga/SagaContext.java:133-135 | getMetadata returns the stored value, or null for a missing key |
| Context.ContextState.GetMetadataTyped | src/main/java/com/jitendra/Wallet/services/saga/SagaContext.java:144-150 | the typed metadata get is non-null exactly when the key holds an instance of the class |
| Context.ContextState.IncrementRetryCount | src/main/java/com/jitendra/Wallet/services/saga/SagaContext.java:178-180 | the retry count goes up by one below the Integer maximum; nothing else changes |
| Context.ContextState.ResetRetryCount | src/main/java/com/jitendra/Wallet/services/saga/SagaContext.java:185-187 | the retry count becomes 0; nothing else changes |
| Context.ContextState.StartCompensation | src/main/java/com/jitendra/Wallet/services/saga/SagaContext.java:192-202 | after startCompensation the context reports that it is compensating; nothing else changes |
| Context.ContextState.IsCompensating | src/main/java/com/jitendra/Wallet/services/saga/SagaContext.java:200-202 | the context is compensating exactly when startCompensation would leave it unchanged |
| Context.ContextState.Clear | src/main/java/com/jitendra/Wallet/services/saga/SagaContext.java:207-217 | after clear the data is empty (size 0); metadata, flags and ids are kept |
| Context.ContextState.Size | src/main/java/com/jitendra/Wallet/services/saga/SagaContext.java:215-217 | the size is zero exactly when no key is contained, and positive whenever some key is |
| Context.Build | src/main/java/com/jitendra/Wallet/services/saga/SagaContext.java:28-50 | the builder keeps the given ids and data, with empty metadata, not compensating and retryCount 0 |
| Context.PutPut | src/main/java/com/jitendra/Wallet/services/saga/SagaContext.java:62-64 | a second put to the same key overwrites the first; puts to different keys commute |
| Context.PutSize | src/main/java/com/jitendra/Wallet/services/saga/SagaContext.java:62-64 | put grows the size by one exactly when the key was absent (also lines 215-217) |
| Context.SagaContext.Put | src/main/java/com/jitendra/Wallet/services/saga/SagaContext.java:62-64 | the mutable context's put changes its state exactly as `ContextState.Put` |
| Context.SagaContext.Remove | src/main/java/com/jitendra/Wallet/services/saga/SagaContext.java:113-115 | the mutable remove returns and deletes exactly as `ContextState.Remove` |
| Context.SagaContext.PutMetadata | src/main/java/com/jitendra/Wallet/services/saga/SagaContext.java:124-126 | the mutable putMetadata changes the state exactly as `ContextState.PutMetadata` |
| Context.SagaContext.IncrementRetryCount | src/main/java/com/jitendra/Wallet/services/saga/SagaContext.java:178-180 | the mutable increment changes the state exactly as `ContextState.IncrementRetryCount` |
| Context.SagaContext.ResetRetryCount | src/main/java/com/jitendra/Wallet/services/saga/SagaContext.java:185-187 | the mutable reset changes the state exactly as `ContextState.ResetRetryCount` |
| Context.SagaContext.StartCompensation | src/main/java/com/jitendra/Wallet/services/saga/SagaContext.java:192-194 | the mutable startCompensation changes the state exactly as `ContextState.StartCompensation` |
| Context.SagaContext.Clear | src/main/java/com/jitendra/Wallet/services/saga/SagaContext.java:207-209 | the mutable clear changes the state exactly as `ContextState.Clear` |
| Context.SagaContext.SetSagaInstanceId | src/main/java/com/jitendra/Wallet/services/saga/TransferSagaService.java:93 | the Lombok setter replaces only the instance id |
| Context.SagaContext.Copy | src/main/java/com/jitendra/Wallet/services/saga/SagaContext.java:223-232 | copy is a fresh object holding the same state |
| Context.PutOnCopy | src/main/java/com/jitendra/Wallet/services/saga/SagaContext.java:223-232 | writing to a copy leaves the original untouched (the maps are copied, not shared) |
| Persistence.FindWalletWithLock | src/main/java/com/jitendra/Wallet/repository/WalletRepository.java:26-30 | the locking lookup finds a wallet exactly for a present id, and returns that id; a null id finds nothing |
| Persistence.FindWallet | src/main/java/com/jitendra/Wallet/services/TransactionService.java:50-60 | `findById` fails exactly on a null id, with the repository proxy's DataAccessException "The given id must not be null", and finds the row exactly when the id is present |
| Persistence.FindWalletsByUserId | src/main/java/com/jitendra/Wallet/repository/WalletRepository.java:19 | `findByUserId` returns exactly the wallets of that user, in id order |
| Persistence.FindTransaction | src/main/java/com/jitendra/Wallet/services/saga/steps/UpdateTransactionStatus.java:30-31 | `findById` on transactions fails exactly on a null id, with the repository proxy's DataAccessException "The given id must not be null", and finds the row exactly when the id is present |
| Persistence.FindStep | src/main/java/com/jitendra/Wallet/services/saga/SagaOrchestratorImpl.java:112-113 | the single-result query by instance, status and name: empty exactly when no record matches, the unique match when one does, and a data-access error when two match |
| Persistence.CompletedSteps | src/main/java/com/jitendra/Wallet/repository/SagaStepRepository.java:19-20 | exactly the instance's COMPLETED step records, in id order |
| Persistence.FindStalledSagas | src/main/java/com/jitendra/Wallet/services/saga/SagaRecoveryJob.java:40 | exactly the STARTED or COMPENSATING instances last updated before the cutoff, in id order |
| Persistence.NothingStalledFindsNothing | src/main/java/com/jitendra/Wallet/services/saga/SagaRecoveryJob.java:40-45 | when no instance is stalled the query is empty |
| Persistence.WithInstance | src/main/java/com/jitendra/Wallet/services/saga/SagaOrchestratorImpl.java:155 | saving an instance replaces that row, stamps it with the clock and touches no other table |
| Persistence.AddInstance | src/main/java/com/jitendra/Wallet/services/saga/SagaOrchestratorImpl.java:45 | inserting an instance appends it with the next id and the clock's time, touching no other table |
| Persistence.WithStep | src/main/java/com/jitendra/Wallet/services/saga/SagaOrchestratorImpl.java:138 | saving a step record replaces that row only |
| Persistence.AddStep | src/main/java/com/jitendra/Wallet/entity/SagaStep.java:31-33 | inserting a step record fails with a data-access error exactly when the (instance, order) unique constraint is already taken, else appends it with the next id |
| Persistence.WithWallet | src/main/java/com/jitendra/Wallet/services/saga/steps/DebitSourceWalletStep.java:42 | saving a wallet replaces that row only |
| Persistence.WithTransaction | src/main/java/com/jitendra/Wallet/services/saga/steps/UpdateTransactionStatus.java:37 | saving a transaction replaces that row only |
| Persistence.AddTransaction | src/main/java/com/jitendra/Wallet/services/saga/TransferSagaService.java:108 | inserting a transaction appends it with the next id, touching no other table |
| Persistence.InsertStepKeepsValid | src/main/java/com/jitendra/Wallet/entity/SagaStep.java:31-33 | a successful insert keeps the store consistent (step foreign keys, unique (instance, order) pairs, wallet ids) |
| Persistence.SaveStepKeepsValid | src/main/java/com/jitendra/Wallet/entity/SagaStep.java:31-33 | re-saving a step with the same instance and order keeps the store consistent |
| Persistence.Store.SaveInstance | src/main/java/com/jitendra/Wallet/services/saga/SagaOrchestratorImpl.java:155 | the store's instance save does exactly `WithInstance` |
| Persistence.Store.InsertInstance | src/main/java/com/jitendra/Wallet/services/saga/SagaOrchestratorImpl.java:45 | the store's instance insert does exactly `AddInstance` |
| Persistence.Store.SaveStep | src/main/java/com/jitendra/Wallet/services/saga/SagaOrchestratorImpl.java:138 | the store's step save does exactly `WithStep` |
| Persistence.Store.InsertStep | src/main/java/com/jitendra/Wallet/services/saga/SagaOrchestratorImpl.java:122 | the store's step insert does exactly `AddStep`, leaving the store unchanged on a constraint violation |
| Persistence.Store.SaveWallet | src/main/java/com/jitendra/Wallet/services/saga/steps/DebitSourceWalletStep.java:42 | the store's wallet save does exactly `WithWallet` |
| Persistence.Store.InsertWallet | src/main/java/com/jitendra/Wallet/services/WalletService.java:39 | inserting a wallet appends it with id = its position |
| Persistence.Store.SaveTransaction | src/main/java/com/jitendra/Wallet/services/saga/steps/UpdateTransactionStatus.java:37 | the store's transaction save does exactly `WithTransaction` |
| Persistence.Store.InsertTransaction | src/main/java/com/jitendra/Wallet/services/saga/TransferSagaService.java:108 | the store's transaction insert does exactly `AddTransaction` |
| SagaStepInterface.CompensationAction | src/main/java/com/jitendra/Wallet/services/saga/SagaStepInterface.java:41-43 | the default compensation action is "compensate_" followed by the step name |
| SagaStepInterface.OnSuccess | src/main/java/com/jitendra/Wallet/services/saga/SagaStepInterface.java:70-72 | the default success hook changes nothing |
| SagaStepInterface.Validate | src/main/java/com/jitendra/Wallet/services/saga/SagaStepInterface.java:60-62 | the default validation passes every context |
| SagaStepInterface.OnFailure | src/main/java/com/jitendra/Wallet/services/saga/SagaStepInterface.java:81-83 | the default failure hook changes nothing |
| DebitSourceWalletStep.Execute | src/main/java/com/jitendra/Wallet/services/saga/steps/DebitSourceWalletStep.java:25-47 | the debit step's execute changes the store and the context exactly as its specification function |
| DebitSourceWalletStep.Compensate | src/main/java/com/jitendra/Wallet/services/saga/steps/DebitSourceWalletStep.java:50-67 | the debit step's compensate changes the store and the context exactly as its specification function |
| DebitSourceWalletStep.ExecuteOutcome | src/main/java/com/jitendra/Wallet/services/saga/steps/DebitSourceWalletStep.java:25-47 | execute returns true exactly when the source covers the amount, then debits it and records the before/after balances; otherwise throws "Insufficient balance in source wallet id: " and the id, and changes nothing |
| DebitSourceWalletStep.MissingWalletThrows | src/main/java/com/jitendra/Wallet/services/saga/steps/DebitSourceWalletStep.java:31-32 | execute and compensate throw "Source Wallet not Found" on a missing wallet and change nothing (also lines 56-57) |
| DebitSourceWalletStep.CompensateOutcome | src/main/java/com/jitendra/Wallet/services/saga/steps/DebitSourceWalletStep.java:50-66 | on a well-typed context and a present source, compensate returns true, raises only the source by the amount and records the before/after balances |
| DebitSourceWalletStep.MistypedAmountThrows | src/main/java/com/jitendra/Wallet/services/saga/steps/DebitSourceWalletStep.java:28 | a non-decimal amount makes both actions throw ClassCastException with no change (also line 53) |
| DebitSourceWalletStep.ExecuteThenCompensateRestores | src/main/java/com/jitendra/Wallet/services/saga/steps/DebitSourceWalletStep.java:25-67 | after a successful debit, compensation succeeds and restores every wallet |
| DebitSourceWalletStep.CompensateTwiceCreditsTwice | src/main/java/com/jitendra/Wallet/services/saga/steps/DebitSourceWalletStep.java:50-67 | compensation is not idempotent: running it twice credits the amount twice |
| DebitSourceWalletStep.TouchesOnlyLedger | src/main/java/com/jitendra/Wallet/services/saga/steps/DebitSourceWalletStep.java:25-67 | both actions change only the wallet table (same number of wallets) and do not depend on the saga tables |
| DebitSourceWalletStep.ExecuteWritesOnlyRecordedKeys | src/main/java/com/jitendra/Wallet/services/saga/steps/DebitSourceWalletStep.java:34 | execute writes only its two balance keys into the context (also line 44) |
| DebitSourceWalletStep.CompensateWritesOnlyRecordedKeys | src/main/java/com/jitendra/Wallet/services/saga/steps/DebitSourceWalletStep.java:59-64 | compensate writes only its two balance keys into the context |
| CreditDestinationWalletStep.Execute | src/main/java/com/jitendra/Wallet/services/saga/steps/CreditDestinationWalletStep.java:27-54 | the credit step's execute changes the store and the context exactly as its specification function |
| CreditDestinationWalletStep.Compensate | src/main/java/com/jitendra/Wallet/services/saga/steps/CreditDestinationWalletStep.java:58-85 | the credit step's compensate changes the store and the context exactly as its specification function |
| CreditDestinationWalletStep.ExecuteOutcome | src/main/java/com/jitendra/Wallet/services/saga/steps/CreditDestinationWalletStep.java:27-54 | execute always returns true on a present wallet, credits exactly the amount and records the before/after balances |
| CreditDestinationWalletStep.MissingWalletThrows | src/main/java/com/jitendra/Wallet/services/saga/steps/CreditDestinationWalletStep.java:40-41 | both actions throw "Destination Wallet not Found" on a missing wallet and change nothing (also lines 70-71) |
| CreditDestinationWalletStep.CompensateOutcome | src/main/java/com/jitendra/Wallet/services/saga/steps/CreditDestinationWalletStep.java:58-85 | compensate succeeds exactly when the wallet covers the amount, then debits it and records the balances; otherwise throws "Insufficient balance in wallet" with no change |
| CreditDestinationWalletStep.CompensateOverwritesRecordedBalances | src/main/java/com/jitendra/Wallet/services/saga/steps/CreditDestinationWalletStep.java:73-80 | compensation overwrites the keys that execute recorded, so the before-credit key then holds the credited balance |
| CreditDestinationWalletStep.RecordsDebitBack | src/main/java/com/jitendra/Wallet/services/saga/steps/CreditDestinationWalletStep.java:73-80 | on a wallet holding `b + amount`, compensation records `b + amount` as the balance before and `b` as the balance after |
| CreditDestinationWalletStep.ExecuteThenCompensateRestores | src/main/java/com/jitendra/Wallet/services/saga/steps/CreditDestinationWalletStep.java:27-85 | after a credit, compensation succeeds exactly on a non-negative starting balance and then restores every wallet |
| CreditDestinationWalletStep.DebitBack | src/main/java/com/jitendra/Wallet/services/saga/steps/CreditDestinationWalletStep.java:58-85 | compensation on a wallet credited by the amount succeeds exactly when the pre-credit balance is non-negative and restores that wallet |
| CreditDestinationWalletStep.TouchesOnlyLedger | src/main/java/com/jitendra/Wallet/services/saga/steps/CreditDestinationWalletStep.java:27-85 | both actions change only the wallet table and do not depend on the saga tables |
| CreditDestinationWalletStep.ExecuteWritesOnlyRecordedKeys | src/main/java/com/jitendra/Wallet/services/saga/steps/CreditDestinationWalletStep.java:43-50 | execute writes only its two balance keys into the context |
| CreditDestinationWalletStep.CompensateWritesOnlyRecordedKeys | src/main/java/com/jitendra/Wallet/services/saga/steps/CreditDestinationWalletStep.java:73-80 | compensate writes only its two balance keys into the context |
| UpdateTransactionStatusStep.Execute | src/main/java/com/jitendra/Wallet/services/saga/steps/UpdateTransactionStatus.java:24-43 | the status step's execute changes the store and the context exactly as its specification function |
| UpdateTransactionStatusStep.Compensate | src/main/java/com/jitendra/Wallet/services/saga/steps/UpdateTransactionStatus.java:46-64 | the status step's compensate changes the store and the context exactly as its specification function |
| UpdateTransactionStatusStep.ExecuteOutcome | src/main/java/com/jitendra/Wallet/services/saga/steps/UpdateTransactionStatus.java:24-43 | execute returns true exactly when the new-status text names a status, then sets it and records the statuses before and after; otherwise throws with no change |
| UpdateTransactionStatusStep.NullTransactionIdThrows | src/main/java/com/jitendra/Wallet/services/saga/steps/UpdateTransactionStatus.java:27-31 | with no transaction id both actions throw and change nothing; once the new status has been read, execute throws the DataAccessException "The given id must not be null" of findById(null) |
| UpdateTransactionStatusStep.UnknownTransactionThrows | src/main/java/com/jitendra/Wallet/services/saga/steps/UpdateTransactionStatus.java:30-31 | an unknown transaction id makes both actions throw "Transaction not found for transactionId: " and the id, with no change (also lines 51-52) |
| UpdateTransactionStatusStep.CompensateOutcome | src/main/java/com/jitendra/Wallet/services/saga/steps/UpdateTransactionStatus.java:46-64 | compensate restores the recorded previous status and records the statuses before and after |
| UpdateTransactionStatusStep.ExecuteThenCompensateRestores | src/main/java/com/jitendra/Wallet/services/saga/steps/UpdateTransactionStatus.java:24-64 | after a successful execute, compensation succeeds and restores the transaction table |
| UpdateTransactionStatusStep.TouchesOnlyLedger | src/main/java/com/jitendra/Wallet/services/saga/steps/UpdateTransactionStatus.java:24-64 | both actions change only the transaction table and do not depend on the saga tables |
| UpdateTransactionStatusStep.ExecuteWritesOnlyRecordedKeys | src/main/java/com/jitendra/Wallet/services/saga/steps/UpdateTransactionStatus.java:34 | execute writes only the two status keys into the context (also line 39) |
| UpdateTransactionStatusStep.CompensateWritesOnlyRecordedKeys | src/main/java/com/jitendra/Wallet/services/saga/steps/UpdateTransactionStatus.java:55-60 | compensate writes only the two status keys into the context |
| SagaStepFactory.StepTypeValueOf | src/main/java/com/jitendra/Wallet/services/saga/steps/SagaStepFactory.java:61-68 | `SagaStepType.valueOf` succeeds exactly on a step-type name and returns that type; otherwise IllegalArgumentException |
| SagaStepFactory.GetStepsForSaga | src/main/java/com/jitendra/Wallet/services/saga/steps/SagaStepFactory.java:76-78 | the transfer saga's steps are DEBIT_SOURCE_WALLET, CREDIT_DESTINATION_WALLET, UPDATE_TRANSACTION_STATUS, in that order |
| SagaStepFactory.GetSagaStep | src/main/java/com/jitendra/Wallet/services/saga/steps/SagaStepFactory.java:48-54 | a step type resolves exactly when it is in the bean map, to its mapped bean |
| SagaStepFactory.GetSagaStepByName | src/main/java/com/jitendra/Wallet/services/saga/steps/SagaStepFactory.java:61-68 | an unknown name fails with "Invalid Saga Step Name: " and the name |
| SagaStepFactory.GetSagaStepTotal | src/main/java/com/jitendra/Wallet/services/saga/steps/SagaStepFactory.java:38-54 | every step type resolves, to the bean whose name is the type's name |
| SagaStepFactory.GetSagaStepByNameExact | src/main/java/com/jitendra/Wallet/services/saga/steps/SagaStepFactory.java:13-17 | lookup by name succeeds exactly on the three step names, returning the bean of that name (also lines 61-68) |
| SagaStepFactory.BeanOfStepName | src/main/java/com/jitendra/Wallet/services/saga/steps/SagaStepFactory.java:13-17 | each step's own name resolves to that step's bean (also lines 61-68) |
| SagaStepFactory.TransferStepsInOrder | src/main/java/com/jitendra/Wallet/services/saga/steps/SagaStepFactory.java:19-34 | the transfer saga runs DEBIT_SOURCE_WALLET, CREDIT_DESTINATION_WALLET, UPDATE_TRANSACTION_STATUS, whose beans report orders 1, 2, 3 |
| SagaStepFactory.StepsReturnTrueOrThrow | src/main/java/com/jitendra/Wallet/services/saga/steps/DebitSourceWalletStep.java:25-67 | no step action ever returns false, and one that throws leaves the store unchanged |
| SagaStepFactory.StepsTouchOnlyLedger | src/main/java/com/jitendra/Wallet/services/saga/steps/SagaStepFactory.java:38-46 | no step action touches the saga tables or the clock, or adds or removes rows |
| SagaStepFactory.StepsIgnoreSagaTables | src/main/java/com/jitendra/Wallet/services/saga/steps/SagaStepFactory.java:38-46 | step actions change only wallets and transactions and do not depend on the saga tables |
| SagaStepFactory.StepsWriteOnlyRecordedKeys | src/main/java/com/jitendra/Wallet/services/saga/steps/SagaStepFactory.java:38-46 | each step writes only its own recorded keys into the context, never "transactionId" |
| SagaStepFactory.Execute | src/main/java/com/jitendra/Wallet/services/saga/SagaOrchestratorImpl.java:85 | dispatching execute to a bean behaves exactly as that bean's execute |
| SagaStepFactory.Compensate | src/main/java/com/jitendra/Wallet/services/saga/SagaOrchestratorImpl.java:188 | dispatching compensate to a bean behaves exactly as that bean's compensate |
| SagaOrchestrator.StartSagaSpec | src/main/java/com/jitendra/Wallet/services/saga/SagaOrchestratorImpl.java:34-53 | startSaga appends one STARTED instance holding the context, returns its new id, and leaves every other row alone |
| SagaOrchestrator.StartSaga | src/main/java/com/jitendra/Wallet/services/saga/SagaOrchestratorImpl.java:34-53 | the method changes the store exactly as `StartSagaSpec` |
| SagaOrchestrator.InitializeStepRecordSpec | src/main/java/com/jitendra/Wallet/services/saga/SagaOrchestratorImpl.java:111-125 | on success the returned record is a PENDING record of that name, either found or appended; a failure is a data-access error that changes nothing |
| SagaOrchestrator.InitializeStepRecord | src/main/java/com/jitendra/Wallet/services/saga/SagaOrchestratorImpl.java:111-125 | the method changes the store exactly as `InitializeStepRecordSpec` |
| SagaOrchestrator.InitializeStepRecordReuses | src/main/java/com/jitendra/Wallet/services/saga/SagaOrchestratorImpl.java:112-124 | an existing PENDING record is reused without any write, and succeeds exactly when it is the only match |
| SagaOrchestrator.InitializeStepRecordCreates | src/main/java/com/jitendra/Wallet/services/saga/SagaOrchestratorImpl.java:114-122 | with no PENDING record a new one is appended, failing with no change exactly when the (instance, order) pair is taken |
| SagaOrchestrator.UpdateStepStatusSpec | src/main/java/com/jitendra/Wallet/services/saga/SagaOrchestratorImpl.java:131-139 | succeeds exactly on a present step id; sets its status and, when given, its error message, touching nothing else; otherwise "SagaStep not found with id: " and the id |
| SagaOrchestrator.UpdateStepStatus | src/main/java/com/jitendra/Wallet/services/saga/SagaOrchestratorImpl.java:131-139 | the method changes the store exactly as `UpdateStepStatusSpec` |
| SagaOrchestrator.MarkStepAndSaveContext | src/main/java/com/jitendra/Wallet/services/saga/SagaOrchestratorImpl.java:145-159 | succeeds exactly when step and instance exist; sets the step status and saves the context (stamping the instance); otherwise the wrapped RuntimeException, with nothing changed (also lines 212-226) |
| SagaOrchestrator.MarkStepAndSaveContextOn | src/main/java/com/jitendra/Wallet/services/saga/SagaOrchestratorImpl.java:145-159 | the method changes the store exactly as `MarkStepAndSaveContext` (also lines 212-226) |
| SagaOrchestrator.FailStep | src/main/java/com/jitendra/Wallet/services/saga/SagaOrchestratorImpl.java:93-103 | a failed step is never reported as success (also lines 196-205) |
| SagaOrchestrator.FailStepOn | src/main/java/com/jitendra/Wallet/services/saga/SagaOrchestratorImpl.java:93-103 | the method changes the store exactly as `FailStep` |
| SagaOrchestrator.Conclude | src/main/java/com/jitendra/Wallet/services/saga/SagaOrchestratorImpl.java:85-103 | the result-handling method changes the store exactly as `ConcludeStep` |
| SagaOrchestrator.ConcludeStepOutcome | src/main/java/com/jitendra/Wallet/services/saga/SagaOrchestratorImpl.java:85-103 | the result is true exactly when the action returned true; then the step gets the done status and the context is saved; otherwise the step is FAILED with the message and the context is not saved (also lines 188-205) |
| SagaOrchestrator.ExecuteStep | src/main/java/com/jitendra/Wallet/services/saga/SagaOrchestratorImpl.java:63-105 | the method changes the store exactly as `ExecuteStepSpec` |
| SagaOrchestrator.ExecuteStepRejects | src/main/java/com/jitendra/Wallet/services/saga/SagaOrchestratorImpl.java:65-72 | an unknown instance or step name is an error with no change, the instance checked first |
| SagaOrchestrator.ExecuteStepOutcome | src/main/java/com/jitendra/Wallet/services/saga/SagaOrchestratorImpl.java:75-103 | executeStep returns whether the step action returned true; the step record ends COMPLETED or FAILED with the message, and the context is saved only on success |
| SagaOrchestrator.ExecuteStepKeepsShape | src/main/java/com/jitendra/Wallet/services/saga/SagaOrchestratorImpl.java:63-105 | executeStep adds at most one step record and no other rows, and leaves the clock alone |
| SagaOrchestrator.ExecuteStepSavesOnlyRecordedKeys | src/main/java/com/jitendra/Wallet/services/saga/SagaOrchestratorImpl.java:79-90 | the saved context differs from the stored one only in the step's recorded keys |
| SagaOrchestrator.ExecuteStepOnFreshOrder | src/main/java/com/jitendra/Wallet/services/saga/SagaOrchestratorImpl.java:63-105 | on a fresh step order, a step that returns true makes executeStep return true, carry its changes over and save its context |
| SagaOrchestrator.UpdateStepNeedsSavedTransactionId | src/main/java/com/jitendra/Wallet/services/saga/steps/UpdateTransactionStatus.java:27-31 | without a saved "transactionId" the status step can never succeed |
| SagaOrchestrator.CompensateStep | src/main/java/com/jitendra/Wallet/services/saga/SagaOrchestratorImpl.java:165-206 | the method changes the store exactly as `CompensateStepSpec` |
| SagaOrchestrator.CompensateStepNeedsCompletedRecord | src/main/java/com/jitendra/Wallet/services/saga/SagaOrchestratorImpl.java:177-179 | with no COMPLETED record of that name, compensateStep fails with "Completed saga step not found for step name: " and the name, and changes nothing |
| SagaOrchestrator.CompensateStepOutcome | src/main/java/com/jitendra/Wallet/services/saga/SagaOrchestratorImpl.java:181-205 | compensateStep returns whether compensation returned true; the record becomes COMPENSATED or FAILED with the message; the context is saved only on success |
| SagaOrchestrator.CompensateStepKeepsShape | src/main/java/com/jitendra/Wallet/services/saga/SagaOrchestratorImpl.java:165-206 | compensateStep adds and removes no rows and leaves the clock alone |
| SagaOrchestrator.CompensateStepChangesOneCompletedRecord | src/main/java/com/jitendra/Wallet/services/saga/SagaOrchestratorImpl.java:181-205 | the only step records that change are COMPLETED ones of that instance and name, and they end COMPENSATED or FAILED |
| SagaOrchestrator.CompensateStepKeepsOtherInstances | src/main/java/com/jitendra/Wallet/services/saga/SagaOrchestratorImpl.java:165-206 | compensateStep leaves every other saga instance unchanged |
| SagaOrchestrator.UpdateSagaStatusSpec | src/main/java/com/jitendra/Wallet/services/saga/SagaOrchestratorImpl.java:238-243 | succeeds exactly on a present instance; sets its status and stamps it, touching nothing else; otherwise "SagaInstance not found with id: " and the id |
| SagaOrchestrator.UpdateSagaStatus | src/main/java/com/jitendra/Wallet/services/saga/SagaOrchestratorImpl.java:238-243 | the method changes the store exactly as `UpdateSagaStatusSpec` |
| SagaOrchestrator.FailSagaSpec | src/main/java/com/jitendra/Wallet/services/saga/SagaOrchestratorImpl.java:306-314 | failSaga marks a present instance FAILED; on a missing one it reports "Failed to mark saga as failed" with no change |
| SagaOrchestrator.FailSaga | src/main/java/com/jitendra/Wallet/services/saga/SagaOrchestratorImpl.java:306-314 | the method changes the store exactly as `FailSagaSpec` |
| SagaOrchestrator.CompleteSagaSpec | src/main/java/com/jitendra/Wallet/services/saga/SagaOrchestratorImpl.java:317-325 | completeSaga marks a present instance COMPLETED; on a missing one it reports "Failed to mark saga as completed" with no change |
| SagaOrchestrator.CompleteSaga | src/main/java/com/jitendra/Wallet/services/saga/SagaOrchestratorImpl.java:317-325 | the method changes the store exactly as `CompleteSagaSpec` |
| SagaOrchestrator.CompensateEach | src/main/java/com/jitendra/Wallet/services/saga/SagaOrchestratorImpl.java:272-287 | the compensation loop adds no rows; with nothing to compensate it changes nothing and reports success |
| SagaOrchestrator.CompensateInOrder | src/main/java/com/jitendra/Wallet/services/saga/SagaOrchestratorImpl.java:272-287 | the loop over the names of the reversed records, with its `allStepsCompensated` flag and `break`, changes the store exactly as `CompensateEach` |
| SagaOrchestrator.ReverseLoadedSteps | src/main/java/com/jitendra/Wallet/services/saga/SagaOrchestratorImpl.java:268 | `Collections.reverse` on the loaded COMPLETED records (held by id): the array ends as the loaded list back to front |
| SagaOrchestrator.SwapEnds | src/main/java/com/jitendra/Wallet/services/saga/SagaOrchestratorImpl.java:268 | swapping the two ends of the unreversed window keeps the front the reversed tail and the back the reversed head, with one element fewer between them |
| SagaOrchestrator.FullyReversed | src/main/java/com/jitendra/Wallet/services/saga/SagaOrchestratorImpl.java:268 | once at most one element lies between the ends, the whole list is the loaded list reversed |
| SagaOrchestrator.ReversedKeepsIds | src/main/java/com/jitendra/Wallet/services/saga/SagaOrchestratorImpl.java:252-268 | the k-th record of the reversed list is the (n-1-k)-th loaded, so every reversed id is still a step record |
| SagaOrchestrator.CompensateEachTouchesOnlyCompletedRecords | src/main/java/com/jitendra/Wallet/services/saga/SagaOrchestratorImpl.java:272-287 | the loop changes only this instance's COMPLETED records, each to COMPENSATED or FAILED |
| SagaOrchestrator.CompensateEachSplit | src/main/java/com/jitendra/Wallet/services/saga/SagaOrchestratorImpl.java:272-287 | the loop stops at the first failed compensation: over a+b it runs b only when all of a succeeded |
| SagaOrchestrator.FullSweepCompensatesEveryNamedRecord | src/main/java/com/jitendra/Wallet/services/saga/SagaOrchestratorImpl.java:272-287 | when every compensation succeeds, every COMPLETED record named in the list is COMPENSATED |
| SagaOrchestrator.CompensateEachKeepsOtherInstances | src/main/java/com/jitendra/Wallet/services/saga/SagaOrchestratorImpl.java:272-287 | the loop leaves every other saga instance unchanged |
| SagaOrchestrator.CompensationOrderIsLifo | src/main/java/com/jitendra/Wallet/services/saga/SagaOrchestratorImpl.java:252-268 | steps are compensated in the reverse of their completion (id) order |
| SagaOrchestrator.CompensateSaga | src/main/java/com/jitendra/Wallet/services/saga/SagaOrchestratorImpl.java:246-303 | the method changes the store exactly as `CompensateSagaSpec` |
| SagaOrchestrator.FinishCompensationOn | src/main/java/com/jitendra/Wallet/services/saga/SagaOrchestratorImpl.java:290-296 | the final status write changes the store exactly as `FinishCompensation` |
| SagaOrchestrator.CompensateSagaUnknownInstance | src/main/java/com/jitendra/Wallet/services/saga/SagaOrchestratorImpl.java:248-249 | for an unknown instance the outer catch's failSaga also fails and nothing changes (also lines 298-302) |
| SagaOrchestrator.CompensateSagaWithNothingCompleted | src/main/java/com/jitendra/Wallet/services/saga/SagaOrchestratorImpl.java:255-259 | with no COMPLETED step the saga is marked COMPENSATED and nothing else changes |
| SagaOrchestrator.CompensateSagaOutcome | src/main/java/com/jitendra/Wallet/services/saga/SagaOrchestratorImpl.java:265-296 | the saga goes COMPENSATING, the loop runs in reverse order, and the saga ends COMPENSATED if every step compensated, otherwise FAILED |
| SagaOrchestrator.CompensatedSagaCompensatedEveryStep | src/main/java/com/jitendra/Wallet/services/saga/SagaOrchestratorImpl.java:272-296 | a saga that ends COMPENSATED has every one of its COMPLETED step records COMPENSATED |
| SagaOrchestrator.SweepCoversCompletedSteps | src/main/java/com/jitendra/Wallet/services/saga/SagaOrchestratorImpl.java:252-287 | a fully successful sweep over the reversed completed list compensates every completed record |
| SagaOrchestrator.CompensateSagaEndsTerminal | src/main/java/com/jitendra/Wallet/services/saga/SagaOrchestratorImpl.java:246-303 | compensateSaga on a present instance always returns normally, leaves it COMPENSATED or FAILED, and leaves other instances alone |
| TransferSagaService.MapToResponseCopiesEveryField | src/main/java/com/jitendra/Wallet/services/saga/TransferSagaService.java:196-208 | the response copies every field of the transaction and its id, and the mapping is invertible |
| TransferSagaService.TransferKeysCount | src/main/java/com/jitendra/Wallet/services/saga/TransferSagaService.java:77-89 | the initial context has six keys, and "transactionId" is not among them |
| TransferSagaService.TransferData | src/main/java/com/jitendra/Wallet/services/saga/TransferSagaService.java:77-89 | the initial data map has exactly the six transfer keys |
| TransferSagaService.BuildContext | src/main/java/com/jitendra/Wallet/services/saga/TransferSagaService.java:77-89 | the initial context carries the ids, amount, type, description (empty if null) and newStatus SUCCESS, with six keys, type TRANSACTION_TRANSFER and no transactionId |
| TransferSagaService.PendingTransaction | src/main/java/com/jitendra/Wallet/services/saga/TransferSagaService.java:96-106 | the new transaction is PENDING, linked to the saga instance and dated now |
| TransferSagaService.CreateTransactionAndStartSagaSpec | src/main/java/com/jitendra/Wallet/services/saga/TransferSagaService.java:73-115 | one STARTED instance is added whose saved context lacks transactionId, one PENDING transaction is appended, and only the in-memory context gains transactionId |
| TransferSagaService.CreateTransactionAndStartSaga | src/main/java/com/jitendra/Wallet/services/saga/TransferSagaService.java:73-115 | the method changes the store exactly as `CreateTransactionAndStartSagaSpec` |
| TransferSagaService.CreateTransactionAndStartSagaCorrectedSpec | src/main/java/com/jitendra/Wallet/services/saga/TransferSagaService.java:73-115 | as written, except the saved context also holds transactionId and the instance id |
| TransferSagaService.CreateTransactionAndStartSagaCorrected | src/main/java/com/jitendra/Wallet/services/saga/TransferSagaService.java:73-115 | the method changes the store exactly as `CreateTransactionAndStartSagaCorrectedSpec` |
| TransferSagaService.RunStepsTrace | src/main/java/com/jitendra/Wallet/services/saga/TransferSagaService.java:135-158 | steps run in list order with orders 1, 2, 3...; the loop stops at the first step that does not return true and reports its name; success means all steps returned true |
| TransferSagaService.RunStepsByTrace | src/main/java/com/jitendra/Wallet/services/saga/TransferSagaService.java:135-158 | the same trace for the loop over any step executor: it depends only on what each call returns, not on what the step does |
| TransferSagaService.RunStepsIsRunStepsBy | src/main/java/com/jitendra/Wallet/services/saga/TransferSagaService.java:135-158 | the loop over the instance's `executeStep` is that loop with `executeStep` as the executor |
| TransferSagaService.RunStepsByNames | src/main/java/com/jitendra/Wallet/services/saga/TransferSagaService.java:135-158 | the loop calls a prefix of the step list, in list order, with orders counting up from the first |
| TransferSagaService.RunStepsByResults | src/main/java/com/jitendra/Wallet/services/saga/TransferSagaService.java:135-158 | every call before the last returned true; the run succeeded exactly when every step was called and returned true |
| TransferSagaService.RunStepsByFailure | src/main/java/com/jitendra/Wallet/services/saga/TransferSagaService.java:135-158 | a failed run reports the name of the last step called, which did not return true; a successful run reports none |
| TransferSagaService.RunStepsKeepsShape | src/main/java/com/jitendra/Wallet/services/saga/TransferSagaService.java:135-158 | running the steps adds no instances, wallets or transactions and leaves the clock alone |
| TransferSagaService.ExecuteTransferSaga | src/main/java/com/jitendra/Wallet/services/saga/TransferSagaService.java:125-171 | the method changes the store exactly as `ExecuteTransferSagaSpec` |
| TransferSagaService.RunTransferSteps | src/main/java/com/jitendra/Wallet/services/saga/TransferSagaService.java:135-158 | the step loop leaves the store, the flag and the failed step's name exactly as the run `RunSteps` describes |
| TransferSagaService.FinishTransfer | src/main/java/com/jitendra/Wallet/services/saga/TransferSagaService.java:160-170 | after the loop the method completes the saga when every step succeeded and compensates it otherwise, returning the flag unless that call throws |
| TransferSagaService.ExecuteTransferSagaOutcome | src/main/java/com/jitendra/Wallet/services/saga/TransferSagaService.java:125-171 | returns whether every step succeeded; then the saga is COMPLETED with the steps' changes, otherwise it ends COMPENSATED or FAILED |
| TransferSagaService.FinishTransferSagaOutcome | src/main/java/com/jitendra/Wallet/services/saga/TransferSagaService.java:160-170 | on an existing instance, completing or compensating never throws: the flag is returned, and the saga is COMPLETED with the run's wallets or ends COMPENSATED or FAILED |
| TransferSagaService.UpdateTransactionStatusSpec | src/main/java/com/jitendra/Wallet/services/saga/TransferSagaService.java:180-191 | succeeds exactly on a present transaction; sets SUCCESS or FAILED and stamps it; otherwise "Transaction not found with id: " and the id |
| TransferSagaService.UpdateTransactionStatus | src/main/java/com/jitendra/Wallet/services/saga/TransferSagaService.java:180-191 | the method changes the store exactly as `UpdateTransactionStatusSpec` |
| TransferSagaService.RunTransferOn | src/main/java/com/jitendra/Wallet/services/saga/TransferSagaService.java:51-64 | running the saga and then the final status update changes the store exactly as `RunTransfer` |
| TransferSagaService.RunTransferOutcome | src/main/java/com/jitendra/Wallet/services/saga/TransferSagaService.java:52-64 | the returned response is the stored transaction, SUCCESS exactly when every step succeeded, which is exactly when the saga is COMPLETED |
| TransferSagaService.InitiateTransferAsWritten | src/main/java/com/jitendra/Wallet/services/saga/TransferSagaService.java:44-65 | the method changes the store exactly as `InitiateTransferAsWrittenSpec` |
| TransferSagaService.InitiateTransfer | src/main/java/com/jitendra/Wallet/services/saga/TransferSagaService.java:44-65 | the corrected transfer method changes the store exactly as `InitiateTransferSpec` |
| TransferSagaService.NoTransactionIdNoSuccess | src/main/java/com/jitendra/Wallet/services/saga/TransferSagaService.java:135-158 | if the saved context lacks transactionId, a run including the status step never fully succeeds |
| TransferSagaService.TransferAsWrittenAlwaysFails | src/main/java/com/jitendra/Wallet/services/saga/TransferSagaService.java:86-114 | as written, every transfer returns a FAILED transaction and its saga never completes |
| TransferSagaService.TransferAsWrittenRollsBack | src/main/java/com/jitendra/Wallet/services/saga/TransferSagaService.java:44-65 | as written, a transfer between two distinct present wallets whose source covers the amount (destination not negative) returns a FAILED transaction, leaves every wallet balance as it was, and leaves its saga COMPENSATED |
| TransferSagaService.StartedSagaIsFresh | src/main/java/com/jitendra/Wallet/services/saga/TransferSagaService.java:86-114 | startSaga saves a context with the amount and both wallet ids but no transactionId, for an instance with no step records yet |
| TransferSagaService.SagaAsWrittenRollsBack | src/main/java/com/jitendra/Wallet/services/saga/TransferSagaService.java:125-171 | executeTransferSaga on such an instance returns false, restores every wallet and leaves the saga COMPENSATED |
| TransferSagaService.RunThenRollBack | src/main/java/com/jitendra/Wallet/services/saga/TransferSagaService.java:125-171 | the run stops at the status step, and compensateSaga on what it left succeeds, restores the wallets and marks the saga COMPENSATED |
| TransferSagaService.FailedRunCompensates | src/main/java/com/jitendra/Wallet/services/saga/TransferSagaService.java:148-171 | a run that did not fully succeed is followed by compensateSaga, and executeTransferSaga returns false over its result |
| TransferSagaService.RunStopsAtUpdate | src/main/java/com/jitendra/Wallet/services/saga/TransferSagaService.java:135-158 | as written, debit and credit complete and UPDATE_TRANSACTION_STATUS fails: the amount has moved and the instance has exactly a COMPLETED debit, a COMPLETED credit and a FAILED status record |
| TransferSagaService.RunFromDebitAsWritten | src/main/java/com/jitendra/Wallet/services/saga/TransferSagaService.java:135-158 | the as-written run of all three steps: the amount moves from source to destination, three records are appended, and the run does not succeed |
| TransferSagaService.RunFromCreditAsWritten | src/main/java/com/jitendra/Wallet/services/saga/TransferSagaService.java:135-158 | the as-written run from the credit: the destination gains the amount, two records are appended, and the run does not succeed |
| TransferSagaService.RunFromUpdateAsWritten | src/main/java/com/jitendra/Wallet/services/saga/TransferSagaService.java:135-158 | the as-written status step alone: one FAILED record is appended and nothing else changes |
| TransferSagaService.RunStepsAfterFirst | src/main/java/com/jitendra/Wallet/services/saga/TransferSagaService.java:135-149 | after a first step that returns true, the loop goes on with the remaining steps at the next order |
| TransferSagaService.StepRunsAsWritten | src/main/java/com/jitendra/Wallet/services/saga/SagaOrchestratorImpl.java:63-91 | a step whose execute returns true on the saved context is appended as one COMPLETED record and its context is saved |
| TransferSagaService.UpdateFailsAsWritten | src/main/java/com/jitendra/Wallet/services/saga/SagaOrchestratorImpl.java:63-103 | executeStep of UPDATE_TRANSACTION_STATUS without a saved transactionId returns false, appends one FAILED record and changes nothing else |
| TransferSagaService.DebitExecutesAsWritten | src/main/java/com/jitendra/Wallet/services/saga/steps/DebitSourceWalletStep.java:25-47 | on a covered source and the saved context, the debit returns true, lowers the source by the amount and keeps the context's transfer data |
| TransferSagaService.CreditExecutesAsWritten | src/main/java/com/jitendra/Wallet/services/saga/steps/CreditDestinationWalletStep.java:27-54 | on a present destination and the saved context, the credit returns true, raises the destination by the amount and keeps the context's transfer data |
| TransferSagaService.RolledForwardOrder | src/main/java/com/jitendra/Wallet/services/saga/SagaOrchestratorImpl.java:252-268 | after the as-written run the instance's COMPLETED records are the debit then the credit, so the credit is compensated first |
| TransferSagaService.FindsCompletedCredit | src/main/java/com/jitendra/Wallet/services/saga/SagaOrchestratorImpl.java:177-179 | after the as-written run, the credit's record is the only COMPLETED credit of the instance |
| TransferSagaService.FindsTheOnlyMatch | src/main/java/com/jitendra/Wallet/services/saga/SagaOrchestratorImpl.java:177-179 | the lookup finds the one record matching instance, status and name |
| TransferSagaService.CreditCompensatesAsWritten | src/main/java/com/jitendra/Wallet/services/saga/steps/CreditDestinationWalletStep.java:58-85 | compensating the credit on a destination covering the amount returns true, lowers it by the amount and keeps the transfer data |
| TransferSagaService.CreditCompensateMovesBalance | src/main/java/com/jitendra/Wallet/services/saga/steps/CreditDestinationWalletStep.java:58-85 | the credit's compensate on a covered destination returns true and lowers only that wallet by the amount |
| TransferSagaService.DebitCompensatesAsWritten | src/main/java/com/jitendra/Wallet/services/saga/steps/DebitSourceWalletStep.java:50-66 | compensating the debit returns true and raises the source by the amount, changing no other wallet and no transaction |
| TransferSagaService.DebitCompensateKeepsLedger | src/main/java/com/jitendra/Wallet/services/saga/steps/DebitSourceWalletStep.java:50-66 | compensating the debit writes only its balance keys, so the amount, both wallet ids and the missing `transactionId` are as before |
| TransferSagaService.StepCompensatedAsWritten | src/main/java/com/jitendra/Wallet/services/saga/SagaOrchestratorImpl.java:165-206 | compensateStep on the one COMPLETED record of a step whose compensate returns true marks that record COMPENSATED and saves the context |
| TransferSagaService.CreditCompensatedAsWritten | src/main/java/com/jitendra/Wallet/services/saga/SagaOrchestratorImpl.java:165-206 | compensateStep of the credit after the as-written run returns true, takes the amount back from the destination and marks only that record COMPENSATED |
| TransferSagaService.DebitCompensatedAsWritten | src/main/java/com/jitendra/Wallet/services/saga/SagaOrchestratorImpl.java:165-206 | compensateStep of the debit, once its record is the only COMPLETED debit, returns true and gives the amount back to the source |
| TransferSagaService.OnlyDebitLeft | src/main/java/com/jitendra/Wallet/services/saga/SagaOrchestratorImpl.java:177-179 | once the credit is COMPENSATED, the debit's record is the only COMPLETED debit |
| TransferSagaService.SweepRollsBack | src/main/java/com/jitendra/Wallet/services/saga/SagaOrchestratorImpl.java:272-287 | the compensation loop over credit then debit compensates both and moves the amount back |
| TransferSagaService.CompensationRollsBack | src/main/java/com/jitendra/Wallet/services/saga/SagaOrchestratorImpl.java:246-296 | compensateSaga after the as-written run returns normally, undoes the credit then the debit and ends COMPENSATED |
| TransferSagaService.RollBackRestores | src/main/java/com/jitendra/Wallet/services/saga/SagaOrchestratorImpl.java:246-296 | compensateSaga after the as-written run restores exactly the wallet table the run started from |
| TransferSagaService.MovedAndBack | src/main/java/com/jitendra/Wallet/services/saga/steps/DebitSourceWalletStep.java:41-44 | moving an amount from one wallet to another and back restores the table (also src/main/java/com/jitendra/Wallet/services/saga/steps/CreditDestinationWalletStep.java:45-48) |
| TransferSagaService.DestinationStillCovers | src/main/java/com/jitendra/Wallet/services/saga/steps/CreditDestinationWalletStep.java:76 | a destination that was not negative still covers the amount after the credit, so the credit's compensation is not refused |
| TransferSagaService.StepsOfTransferIncludeUpdate | src/main/java/com/jitendra/Wallet/services/saga/steps/SagaStepFactory.java:19-34 | the transfer saga includes the status step |
| TransferSagaService.Moved | src/main/java/com/jitendra/Wallet/services/saga/steps/DebitSourceWalletStep.java:41-44 | moving one balance by delta keeps the wallet count and every other wallet |
| TransferSagaService.StepRunsForTransfer | src/main/java/com/jitendra/Wallet/services/saga/SagaOrchestratorImpl.java:63-105 | a step that returns true on the transfer's context is recorded COMPLETED and keeps the transfer data in the saved context |
| TransferSagaService.DebitExecutes | src/main/java/com/jitendra/Wallet/services/saga/steps/DebitSourceWalletStep.java:25-47 | on a covered source the debit returns true and debits the source by exactly the amount |
| TransferSagaService.DebitMovesBalance | src/main/java/com/jitendra/Wallet/services/saga/steps/DebitSourceWalletStep.java:25-47 | on a covered source the debit returns true, lowers only the source by the amount and leaves the transactions alone |
| TransferSagaService.CreditExecutes | src/main/java/com/jitendra/Wallet/services/saga/steps/CreditDestinationWalletStep.java:27-54 | on a present destination the credit returns true and credits it by exactly the amount |
| TransferSagaService.CreditMovesBalance | src/main/java/com/jitendra/Wallet/services/saga/steps/CreditDestinationWalletStep.java:27-54 | on a present destination the credit returns true, raises only the destination by the amount and leaves the transactions alone |
| TransferSagaService.UpdateExecutes | src/main/java/com/jitendra/Wallet/services/saga/steps/UpdateTransactionStatus.java:24-43 | with the transaction id in the context the status step sets the transaction to SUCCESS |
| TransferSagaService.RunFromUpdate | src/main/java/com/jitendra/Wallet/services/saga/TransferSagaService.java:135-158 | the last step alone succeeds and marks the transaction SUCCESS |
| TransferSagaService.UpdateStepSucceeds | src/main/java/com/jitendra/Wallet/services/saga/SagaOrchestratorImpl.java:63-105 | executeStep of the status step, with the transaction id saved, returns true, sets the transaction to SUCCESS and leaves the wallets alone |
| TransferSagaService.RunFromCredit | src/main/java/com/jitendra/Wallet/services/saga/TransferSagaService.java:135-158 | the last two steps succeed, crediting the destination and marking SUCCESS |
| TransferSagaService.RunFromDebit | src/main/java/com/jitendra/Wallet/services/saga/TransferSagaService.java:135-158 | all three steps succeed on distinct present wallets with a covered source, moving exactly the amount |
| TransferSagaService.CreatedContextCarriesTransfer | src/main/java/com/jitendra/Wallet/services/saga/TransferSagaService.java:77-109 | the corrected saved context carries every transfer key and the transaction id |
| TransferSagaService.TransferSucceeds | src/main/java/com/jitendra/Wallet/services/saga/TransferSagaService.java:44-65 | corrected: a transfer between distinct present wallets with a covered source returns a SUCCESS transaction, moves exactly the amount, and completes the saga |
| TransferSagaService.DebitRefusedExecutes | src/main/java/com/jitendra/Wallet/services/saga/steps/DebitSourceWalletStep.java:31-39 | an uncovered or missing source makes the debit throw with no change |
| TransferSagaService.DebitStepRefused | src/main/java/com/jitendra/Wallet/services/saga/SagaOrchestratorImpl.java:98-103 | a refused debit makes executeStep return false with no wallet, transaction or instance change and no COMPLETED record |
| TransferSagaService.RunStopsAtRefusedDebit | src/main/java/com/jitendra/Wallet/services/saga/TransferSagaService.java:135-158 | a refused debit stops the run at the first step with nothing changed |
| TransferSagaService.TransferRefused | src/main/java/com/jitendra/Wallet/services/saga/TransferSagaService.java:44-65 | an uncovered or missing source gives a FAILED transaction, unchanged wallets and a COMPENSATED saga |
| SagaRecovery.LoadStalled | src/main/java/com/jitendra/Wallet/services/saga/SagaRecoveryJob.java:38-40 | the loaded sagas are the query's rows in order, each with its stored status |
| SagaRecovery.Ids | src/main/java/com/jitendra/Wallet/services/saga/SagaRecoveryJob.java:49-51 | the id of each loaded saga, in order |
| SagaRecovery.StalledMeansOlderThanThreshold | src/main/java/com/jitendra/Wallet/services/saga/SagaRecoveryJob.java:32-40 | an instance is picked up exactly when it is STARTED or COMPENSATING and untouched for more than 10 minutes |
| SagaRecovery.NothingStalledNothingCalled | src/main/java/com/jitendra/Wallet/services/saga/SagaRecoveryJob.java:42-45 | with nothing stalled the job calls nothing and changes nothing |
| SagaRecovery.FirstCallByStatus | src/main/java/com/jitendra/Wallet/services/saga/SagaRecoveryJob.java:54-64 | STARTED and COMPENSATING sagas are compensated; any other status is failed directly |
| SagaRecovery.RecoverSaga | src/main/java/com/jitendra/Wallet/services/saga/SagaRecoveryJob.java:50-72 | one iteration changes the store exactly as `RecoverOne` |
| SagaRecovery.RecoverStalledSagas | src/main/java/com/jitendra/Wallet/services/saga/SagaRecoveryJob.java:36-74 | the job's loop changes the store exactly as `RecoverStalledSagasSpec` |
| SagaRecovery.RecoverEachVisitsEachOnce | src/main/java/com/jitendra/Wallet/services/saga/SagaRecoveryJob.java:49-73 | each loaded saga is visited once, in order, with its dispatch call and at most a fallback failSaga |
| SagaRecovery.SwallowedFailureChangesNothing | src/main/java/com/jitendra/Wallet/services/saga/SagaRecoveryJob.java:65-72 | when both the dispatch and the fallback failSaga fail, the failure is swallowed and the sweep goes on |
| SagaRecovery.LoadedSagasAreStalled | src/main/java/com/jitendra/Wallet/services/saga/SagaRecoveryJob.java:38-40 | the loaded sagas are exactly the stalled instances, in strictly increasing id order, all STARTED or COMPENSATING |
| SagaRecovery.TryBlockResolves | src/main/java/com/jitendra/Wallet/services/saga/SagaRecoveryJob.java:54-64 | compensating a STARTED or COMPENSATING saga always returns normally and leaves it COMPENSATED or FAILED |
| SagaRecovery.RecoverOneCompensates | src/main/java/com/jitendra/Wallet/services/saga/SagaRecoveryJob.java:54-59 | a stalled saga gets a compensateSaga call and no fallback |
| SagaRecovery.RecoverEachOnlyCompensates | src/main/java/com/jitendra/Wallet/services/saga/SagaRecoveryJob.java:49-73 | over stalled sagas the loop makes exactly one compensateSaga call per saga |
| SagaRecovery.RecoverEachKeepsOthers | src/main/java/com/jitendra/Wallet/services/saga/SagaRecoveryJob.java:49-73 | instances not in the list are left unchanged |
| SagaRecovery.RecoverEachResolves | src/main/java/com/jitendra/Wallet/services/saga/SagaRecoveryJob.java:49-73 | every listed saga ends COMPENSATED or FAILED |
| SagaRecovery.SweepResolvesEveryStalledSaga | src/main/java/com/jitendra/Wallet/services/saga/SagaRecoveryJob.java:17-74 | one sweep compensates each stalled saga once, leaves it COMPENSATED or FAILED, leaves the rest alone, and then nothing is stalled |
| SagaRecovery.NoneLeftStalled | src/main/java/com/jitendra/Wallet/services/saga/SagaRecoveryJob.java:17-20 | once every stalled saga is terminal and the rest unchanged, the stalled query is empty |
| SagaRecovery.NotLeftStalled | src/main/java/com/jitendra/Wallet/services/saga/SagaRecoveryJob.java:17-20 | under the same conditions no single instance is stalled |
| WalletService.MapToResponseForgetsOnlyCurrency | src/main/java/com/jitendra/Wallet/services/WalletService.java:242-248 | two wallets map to the same response exactly when they differ at most in currency |
| WalletService.CreateWallet | src/main/java/com/jitendra/Wallet/services/WalletService.java:31-44 | the method changes the store exactly as `CreateWalletSpec` |
| WalletService.CreateWalletDefaults | src/main/java/com/jitendra/Wallet/services/WalletService.java:31-44 | createWallet appends one USD wallet with the next id, for the requested user, active unless false was requested, balance 0 unless given; nothing else changes and the store stays consistent |
| WalletService.GetWalletById | src/main/java/com/jitendra/Wallet/services/WalletService.java:52-57 | succeeds exactly on a present id, returning that wallet; null gives the DataAccessException "The given id must not be null" of findById(null), a missing id "Wallet not found with id: " and the id |
| WalletService.GetWalletsByUserId | src/main/java/com/jitendra/Wallet/services/WalletService.java:65-71 | the responses are the user's wallets, in repository order |
| WalletService.GetWalletsByUserIdIsExactlyTheUsersWallets | src/main/java/com/jitendra/Wallet/services/WalletService.java:65-71 | every response belongs to the user, every wallet of the user is listed, and they come in increasing id order |
| WalletService.GetBalance | src/main/java/com/jitendra/Wallet/services/WalletService.java:117-122 | the balance of a present wallet; otherwise the same error as getWalletById |
| WalletService.HasSufficientBalanceById | src/main/java/com/jitendra/Wallet/services/WalletService.java:220-224 | true exactly when the balance covers the amount, with getBalance's errors |
| WalletService.ExistsById | src/main/java/com/jitendra/Wallet/services/WalletService.java:232-234 | fails only on null, with the DataAccessException of existsById(null); otherwise true exactly when getWalletById succeeds |
| WalletService.SetActive | src/main/java/com/jitendra/Wallet/services/WalletService.java:80-109 | the method changes the store exactly as `SetActiveSpec` |
| WalletService.ActivateWallet | src/main/java/com/jitendra/Wallet/services/WalletService.java:80-90 | activateWallet changes the store exactly as `SetActiveSpec` with true |
| WalletService.DeactivateWallet | src/main/java/com/jitendra/Wallet/services/WalletService.java:99-109 | deactivateWallet changes the store exactly as `SetActiveSpec` with false |
| WalletService.SetActiveChangesOnlyTheFlag | src/main/java/com/jitendra/Wallet/services/WalletService.java:80-109 | succeeds exactly on a present id, changing only that wallet's active flag; a missing id is "Wallet not found with id: " and the id, with no change |
| WalletService.SetActiveIdempotent | src/main/java/com/jitendra/Wallet/services/WalletService.java:80-109 | activating (or deactivating) twice is the same as once |
| WalletService.ChangeBalance | src/main/java/com/jitendra/Wallet/services/WalletService.java:132-211 | the shared balance method changes the store exactly as `BalanceSpec` |
| WalletService.AddFunds | src/main/java/com/jitendra/Wallet/services/WalletService.java:132-151 | addFunds changes the store exactly as `BalanceSpec` for add-funds |
| WalletService.DebitWallet | src/main/java/com/jitendra/Wallet/services/WalletService.java:162-181 | debit changes the store exactly as `BalanceSpec` for debit |
| WalletService.CreditWallet | src/main/java/com/jitendra/Wallet/services/WalletService.java:192-211 | credit changes the store exactly as `BalanceSpec` for credit |
| WalletService.NonPositiveAmountRefusedFirst | src/main/java/com/jitendra/Wallet/services/WalletService.java:135-137 | a non-positive amount is refused with "Amount must be positive" before any lookup, with no change |
| WalletService.MissingWalletRefused | src/main/java/com/jitendra/Wallet/services/WalletService.java:139-140 | a null or missing wallet gives "Wallet not found with id: " and the id, and no change |
| WalletService.InactiveWalletRefused | src/main/java/com/jitendra/Wallet/services/WalletService.java:142-144 | an inactive wallet is refused with the operation's own message and keeps its balance |
| WalletService.BalanceChangesByExactlyAmount | src/main/java/com/jitendra/Wallet/services/WalletService.java:132-211 | succeeds exactly on a positive amount, a present active wallet and (for debit) a covered balance; then only that balance moves by exactly the amount, otherwise nothing changes |
| WalletService.InsufficientBalanceRefused | src/main/java/com/jitendra/Wallet/services/WalletService.java:162-181 | debiting more than the balance is refused with "Insufficient balance in wallet" and no change |
| WalletService.DebitThenCreditRestoresStore | src/main/java/com/jitendra/Wallet/services/WalletService.java:162-211 | a successful debit followed by a credit of the same amount restores the whole store |
| WalletService.BalanceChangeKeepsValid | src/main/java/com/jitendra/Wallet/services/WalletService.java:132-211 | balance operations keep the store consistent |
| TransactionService.CreateTransaction | src/main/java/com/jitendra/Wallet/services/TransactionService.java:38-69 | the method changes the store exactly as `CreateTransactionSpec` |
| TransactionService.CreateTransactionChecksInOrder | src/main/java/com/jitendra/Wallet/services/TransactionService.java:45-65 | refusals in order: same wallet, missing source, missing destination, uncovered source, each with its message and no change |
| TransactionService.SagaStartsWhenChecksPass | src/main/java/com/jitendra/Wallet/services/TransactionService.java:68 | when every check passes, createTransaction is exactly the transfer saga |
| TransactionService.RefusedRequestChangesNothing | src/main/java/com/jitendra/Wallet/services/TransactionService.java:45-65 | a request failing any check is an error and changes nothing |
| TransactionService.CheckedTransferSucceeds | src/main/java/com/jitendra/Wallet/services/TransactionService.java:38-69 | with the corrected saga, an accepted request returns a SUCCESS transaction, moves exactly the amount and completes the saga |
| TransactionService.GetTransactionById | src/main/java/com/jitendra/Wallet/services/TransactionService.java:77-82 | succeeds exactly on a present id, returning that transaction; null gives the DataAccessException "The given id must not be null" of findById(null), a missing id "Transaction not found with id: " and the id |
| TransactionService.UpdateTransactionStatus | src/main/java/com/jitendra/Wallet/services/TransactionService.java:163-175 | the method changes the store exactly as `SetStatusSpec` |
| TransactionService.SetStatusChangesOnlyStatusAndDate | src/main/java/com/jitendra/Wallet/services/TransactionService.java:163-175 | succeeds exactly on a present id, setting only that transaction's status and update date; otherwise "Transaction not found with id: " and the id, with no change |
| TransactionService.SetStatusIdempotent | src/main/java/com/jitendra/Wallet/services/TransactionService.java:163-175 | setting the same status twice is the same as once |
| TransactionService.SagaStatusUpdateAgrees | src/main/java/com/jitendra/Wallet/services/saga/TransferSagaService.java:180-191 | the saga's final status update and the service's status update agree on the store and the outcome |
| TransactionService.Responses | src/main/java/com/jitendra/Wallet/services/TransactionService.java:90-96 | one response per row id, each the mapped transaction |
| TransactionService.FindByWalletId | src/main/java/com/jitendra/Wallet/repository/TransactionRepository.java:53-54 | exactly the transactions whose source or destination is the wallet |
| TransactionService.GetTransactionsByWalletId | src/main/java/com/jitendra/Wallet/services/TransactionService.java:90-96 | every listed transaction involves the wallet |
| TransactionService.WithStatusIsExactlyTheMatching | src/main/java/com/jitendra/Wallet/services/TransactionService.java:216-240 | a response is listed exactly when it is a transaction involving the wallet with that status |
| TransactionService.SuccessfulAndFailedAreExact | src/main/java/com/jitendra/Wallet/services/TransactionService.java:216-240 | the successful (failed) list is exactly the wallet's SUCCESS (FAILED) transactions |
| TransactionService.SuccessfulAndFailedDisjoint | src/main/java/com/jitendra/Wallet/services/TransactionService.java:216-240 | no transaction is in both the successful and the failed list |
| TransactionService.WithStatusOf | src/main/java/com/jitendra/Wallet/services/TransactionService.java:216-240 | the filtered ids are rows of transactions that involve the wallet and have the given status |
| TransactionService.GetSuccessfulTransactionsByWallet | src/main/java/com/jitendra/Wallet/services/TransactionService.java:216-224 | every listed response has status SUCCESS and involves the wallet |
| TransactionService.GetFailedTransactionsByWallet | src/main/java/com/jitendra/Wallet/services/TransactionService.java:232-240 | every listed response has status FAILED and involves the wallet |

## Left out

- JSON round trip of the context: the model stores the context as a value. Jackson's retagging of numbers (a `Long` may come back as an `Integer`, a `BigDecimal` as a `Double`) is not modelled; a value of the wrong tag is a `ClassCastException` in the model.
- Spring transactions (`@Transactional`, `REQUIRES_NEW`), rollback on exceptions, pessimistic row locks, optimistic `@Version` checks and concurrency: every operation is one atomic step on one store.
- Scheduling: the recovery job's 60-second timer is not modelled; `now` is a parameter of `SagaRecovery.RecoverStalledSagas`, in seconds.
- Wall-clock time: `Instant.now()` is the store's `clock` field, which nothing advances.
- Audit stamping: SagaInstance.java registers `AuditingEntityListener` (line 32) and marks `updatedDate` with `@LastModifiedDate` (line 98). That stamp takes effect only when JPA auditing is enabled (`@EnableJpaAuditing`), and no class of this model enables it. `Persistence.WithInstance` and `Persistence.AddInstance` stamp `updatedDate` with the clock on every save, so the recovery query's cutoff rests on the assumption that auditing is enabled. Without it, `updatedDate` stays null; the column is NOT NULL (line 99), so the insert would be refused.
- NOT NULL columns: the `nullable = false` mappings of SagaInstance.java (`saga_type`, `status`, `context`, `current_step`, `retry_count`, `max_retries`, `timeout_minutes`, `created_date`, `updated_date`, lines 43-99) and of SagaStep.java are not enforced on insert. Only the unique key `uk_saga_step_order` is enforced, by `Persistence.AddStep`. In particular, `startSaga` (SagaOrchestratorImpl.java lines 38-43) never sets `currentStep`. `Entities.NewInstance` and `SagaOrchestrator.StartSagaSpec` therefore insert an instance whose `currentStep` is null (`None`), where a schema generated from the mapping would refuse the row.
- Persistence.AddTransaction: does not enforce the NOT NULL columns of transactions. Transaction.java maps `description` with `nullable = false` (line 35), and the request's description carries no not-null validation. TransferSagaService.java replaces a null description with "" only in the saga context (lines 81-82) and passes the raw value to the transaction it saves (line 97). `TransferSagaService.PendingTransaction` does the same, and `Persistence.AddTransaction` inserts the row with a null description. The database schema is not part of this model, so whether the real table refuses that row is unknown. `TransferSucceeds`, `TransferRefused`, `CheckedTransferSucceeds` and `TransferAsWrittenAlwaysFails` therefore also cover a null description on the assumption that the insert is accepted. The other `nullable = false` columns of Transaction.java (lines 38-61) are likewise not enforced.
- Ids: JPA identity ids are 0-based positions in each table.
- Numbers: `BigDecimal` scale and rounding are not modelled (amounts are `real`). `Long` ids are unbounded integers.
- Context.ParseDecimal: its contract states the null and decimal cases only; for text it is shown on examples (`FractionAmountIsRead`, `ParseNumbersAsDecimals`) and through the lemmas about `Base.ParseDecimalText`.
- Base.ParseDecimalText: reads the value of `new BigDecimal(text)` but not its scale, and does not bound the exponent. Java refuses exponents outside the `int` range, and this model accepts them.
- Library messages: the message of `Enum.valueOf`'s exception is paraphrased; only its kind is relied on. A null id given to a repository's `findById` or `existsById` is refused with the message of the JPA repository, as the DataAccessException (InvalidDataAccessApiUsageException) into which the repository proxy translates it (`Persistence.NullIdRefused`); the exception's Java class is reduced to that kind.
- Logging and the `objectMapper` serialization failure paths are left out.
- `getSagaInstance` in SagaOrchestratorImpl.java (lines 229-232) is a stub that returns null and is not called by the core; it is left out.
- Retry and dead-letter machinery (`retryCount`, `maxRetries`, `timeoutMinutes`, `DeadLetterSaga`, idempotency keys): only the defaults are modelled, since no core code path reads them.
- `executeTransferSaga` takes a `SagaContext` parameter that it never reads; the model drops it.
- Null request fields (null user id, null wallet id in list queries, null amount) are not modelled. Nor is the `@DecimalMin` validation done at the controller.
- Query order: repository queries return rows in id order.
- TransactionService's plain repository filters `getTransactionsBySourceWallet`, `getTransactionsByDestinationWallet`, `getTransactionsByStatus`, `getTransactionsBySagaInstance`, `getTransactionsBetweenWallets` and `getPendingTransactionsBySagaInstance` (TransactionService.java lines 104-208) are left out. They are one-line repository calls of the same shape as `getTransactionsByWalletId`, which is modelled.
- DebitSourceWalletStep.java (lines 10 and 19) and UpdateTransactionStatus.java (lines 9 and 18) import and implement a `SagaStep` interface from the saga package; that type is not part of this model. Only CreditDestinationWalletStep.java (line 21) implements `SagaStepInterface`. All three steps are modelled as implementations of `SagaStepInterface`, because SagaStepFactory.java (lines 36-45) registers all three in a `Map<SagaStepType, SagaStepInterface>` and the orchestrator calls them through it.
- Queries that the repository interfaces do not declare get their meaning from their names and call sites. These are `findBySagaInstanceIdAndStatusAndStepName`, `findBySagaInstanceIdAndStatus` and `findStalledSagas`.
- The status enums `SagaStatus`, `StepStatus` and `TransactionStatus` are not part of this model's sources; their constants are taken from their uses.
- `UserService` and the controllers are not part of this model.
- Base.ParseInteger: only states that a successful parse had non-empty input; its meaning on numbers is stated by `Base.ShowParseRoundTrip`.
- Base.ParseInteger: accepts only the ASCII digits '0'-'9'. Java's `Long.valueOf` (CreditDestinationWalletStep.java line 35) reads digits through `Character.digit` and also accepts other Unicode decimal digits, so Arabic-Indic "١٢" gives 12 in Java and NumberFormatException here. The texts the core parses are produced by `toString()` of numbers and are ASCII.
- Base.ParseDecimalText: accepts only ASCII digits too. `new BigDecimal(text)` (CreditDestinationWalletStep.java line 31) also accepts other Unicode decimal digits; the model refuses them with NumberFormatException.
- Context.ParseLong: its own contract covers only the null case; parsing of numbers is stated by `Context.ParseNumbers`.
- SagaOrchestrator.FailStep: its own contract says only that the result is never true; the full outcome is `SagaOrchestrator.ConcludeStepOutcome`.
- SagaOrchestrator.CompensateEach: its own contract states shape only; its effect is stated by the lemmas `CompensateEachTouchesOnlyCompletedRecords`, `CompensateEachSplit`, `FullSweepCompensatesEveryNamedRecord` and `CompensateEachKeepsOtherInstances`.
- TransactionService.GetTransactionsByWalletId: its own contract states one direction; both directions are stated on `TransactionService.FindByWalletId`.
- TransactionService.WithStatusOf: its own contract states one direction (every id it yields matches); that every matching transaction is yielded is stated by `TransactionService.WithStatusIsExactlyTheMatching`. The same holds for `GetSuccessfulTransactionsByWallet` and `GetFailedTransactionsByWallet`, whose other direction is `TransactionService.SuccessfulAndFailedAreExact`.
- TransactionService.CreateTransaction: delegates to the corrected transfer (`TransferSagaService.InitiateTransfer`); the transfer as written is modelled separately (see Findings).

## Findings

| source | as written | input that shows it | evidently intended | confidence | as-written member | corrected member |
|---|---|---|---|---|---|---|
| src/main/java/com/jitendra/Wallet/services/saga/TransferSagaService.java:86-114 | `startSaga` (line 92) saves the context before `transactionId` is put into it (line 109), and the context is never saved again. `executeStep` reads the stored context, so, provided the context comes back from the store with its value types intact, `UPDATE_TRANSACTION_STATUS` calls `findById(null)` and throws; debit and credit are then compensated. | any transfer, for example two existing distinct wallets and an amount the source covers | the saved context carries `transactionId`, the third step succeeds and the transfer ends SUCCESS. This is necessary but not sufficient: as configured, the context is read back through a plain `new ObjectMapper()` (src/main/java/com/jitendra/Wallet/config/DataSourceConfig.java:23-24), which gives the amount back as an `Integer` or a `Double`, so the `(BigDecimal)` cast at DebitSourceWalletStep.java:28 fails step 1 first | high (not executed) | TransferSagaService.TransferAsWrittenAlwaysFails | TransferSagaService.TransferSucceeds |

As written, every transfer returns a FAILED transaction and its saga never reaches COMPLETED
(`TransferAsWrittenAlwaysFails`). When the wallets are distinct and present and the source covers
the amount, the debit and the credit complete, the status step fails, and `compensateSaga` undoes
the credit and then the debit: every wallet ends as it was and the saga ends COMPENSATED
(`TransferAsWrittenRollsBack`). The corrected model re-saves the context with the transaction id
and the saga instance id (`CreateTransactionAndStartSagaCorrected`). With that change, a transfer
between distinct wallets whose source covers the amount succeeds and moves exactly the amount
(`TransferSucceeds`). `TransferRefused` covers the case where the source is missing or does not
cover the amount.

Both traces rest on the stored-copy view of the context (see "## Left out"): the context is read
back with the types it was saved with. The program as configured does not do that. Its plain
`ObjectMapper` turns the saved `BigDecimal` amount into an `Integer` or a `Double`, so the cast at
DebitSourceWalletStep.java:28 throws and every transfer fails at the debit, before either step
above is reached. Saving `transactionId` is therefore necessary for a transfer to succeed, but
not sufficient; the amount must also be read back as a `BigDecimal`. The model's
`DebitSourceWalletStep.MistypedAmountThrows` states what the debit does with a mistyped amount.
