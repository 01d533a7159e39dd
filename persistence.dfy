/**
 * The in-memory store behind the repositories: four tables whose row ids are
 * their positions, and the clock that audited saves stamp into
 * `updatedDate`. The queries the orchestrator and the recovery sweep call are
 * given the meaning their call sites rely on.
 */
module Persistence {
  import opened Base
  import opened Enums
  import opened WalletEntity
  import opened Context
  import opened Entities

  datatype Db = Db(
    instances: seq<SagaInstance>,
    steps: seq<StepRecord>,
    wallets: seq<Wallet>,
    transactions: seq<Transaction>,
    clock: int)

  /** The store after a call, and what the call returned or threw. */
  datatype Effect<T> = Effect(db: Db, result: Result<T>)

  /**
   * The table constraints: every step record points at an existing instance
   * (the foreign key), no two step records share (instance, stepOrder)
   * (`uk_saga_step_order`), and a stored wallet carries its own id.
   */
  predicate Valid(db: Db)
  {
    && (forall i :: 0 <= i < |db.steps| ==> 0 <= db.steps[i].sagaInstanceId < |db.instances|)
    && UniqueStepOrders(db.steps)
    && (forall i :: 0 <= i < |db.wallets| ==> db.wallets[i].id == Some(i))
  }

  predicate UniqueStepOrders(steps: seq<StepRecord>)
  {
    forall i, j :: 0 <= i < j < |steps| ==>
      steps[i].sagaInstanceId != steps[j].sagaInstanceId || steps[i].stepOrder != steps[j].stepOrder
  }

  // ---------------------------------------------------------------- lookups

  predicate HasInstance(db: Db, id: int)
  {
    0 <= id < |db.instances|
  }

  /**
   * `walletRepository.findByIdWithLock(id)`: the query `w.id = :id` matches
   * no row for a null id, so a null id reads as "not found".
   */
  function FindWalletWithLock(db: Db, id: Option<int>): (r: Option<nat>)
    ensures r.Some? <==> id.Some? && 0 <= id.value < |db.wallets|
    ensures r.Some? ==> r.value == id.value
  {
    if id.Some? && 0 <= id.value < |db.wallets| then Some(id.value) else None
  }

  /**
   * What a repository's `findById(null)` or `existsById(null)` throws: the
   * IllegalArgumentException of the JPA repository, translated by the
   * repository proxy into InvalidDataAccessApiUsageException, a
   * DataAccessException carrying the same message.
   */
  const NullIdRefused: Exception := Exception(DataAccessException, "The given id must not be null")

  /**
   * `walletRepository.findById(id)`: a null id is refused with
   * `NullIdRefused`, an unknown id reads as "not found".
   */
  function FindWallet(db: Db, id: Option<int>): (r: Result<Option<nat>>)
    ensures r.Err? <==> id.None?
    ensures r.Err? ==> r.error == NullIdRefused
    ensures r.Ok? && r.value.Some? <==> id.Some? && 0 <= id.value < |db.wallets|
    ensures r.Ok? && r.value.Some? ==> r.value.value == id.value
  {
    match id
    case None => Err(NullIdRefused)
    case Some(i) => Ok(if 0 <= i < |db.wallets| then Some(i) else None)
  }

  /** `walletRepository.findByUserId(userId)`: the ids of the user's wallets, in id order. */
  function FindWalletsByUserId(db: Db, userId: int): (r: seq<nat>)
    ensures forall i :: i in r <==> 0 <= i < |db.wallets| && db.wallets[i].userId == userId
    ensures forall a, b :: 0 <= a < b < |r| ==> r[a] < r[b]
  {
    Positions(db.wallets, (w: Wallet) => w.userId == userId)
  }

  /**
   * `transactionRepository.findById(id)`: a null id is refused with
   * `NullIdRefused`, an unknown id reads as "not found".
   */
  function FindTransaction(db: Db, id: Option<int>): (r: Result<Option<nat>>)
    ensures r.Err? <==> id.None?
    ensures r.Err? ==> r.error == NullIdRefused
    ensures r.Ok? && r.value.Some? <==> id.Some? && 0 <= id.value < |db.transactions|
    ensures r.Ok? && r.value.Some? ==> r.value.value == id.value
  {
    match id
    case None => Err(NullIdRefused)
    case Some(i) => Ok(if 0 <= i < |db.transactions| then Some(i) else None)
  }

  predicate StepMatches(r: StepRecord, sagaInstanceId: int, status: StepStatus, stepName: string)
  {
    r.sagaInstanceId == sagaInstanceId && r.status == status && r.stepName == stepName
  }

  /**
   * `findBySagaInstanceIdAndStatusAndStepName`: the one matching record, none,
   * or an exception when the query has more than one result.
   */
  function FindStep(db: Db, sagaInstanceId: int, status: StepStatus, stepName: string): (r: Result<Option<nat>>)
    ensures r.Ok? && r.value.None? <==>
      forall k :: 0 <= k < |db.steps| ==> !StepMatches(db.steps[k], sagaInstanceId, status, stepName)
    ensures r.Ok? && r.value.Some? ==>
      && r.value.value < |db.steps|
      && StepMatches(db.steps[r.value.value], sagaInstanceId, status, stepName)
      && forall k :: 0 <= k < |db.steps| && k != r.value.value ==> !StepMatches(db.steps[k], sagaInstanceId, status, stepName)
    ensures r.Err? ==> r.error.kind == DataAccessException
    ensures r.Err? ==> exists i, j :: 0 <= i < j < |db.steps| && StepMatches(db.steps[i], sagaInstanceId, status, stepName) && StepMatches(db.steps[j], sagaInstanceId, status, stepName)
  {
    var found := Positions(db.steps, (s: StepRecord) => StepMatches(s, sagaInstanceId, status, stepName));
    if |found| == 0 then Ok(None)
    else if |found| == 1 then Ok(Some(found[0]))
    else
      assert found[0] < found[1];
      Err(Exception(DataAccessException, "query did not return a unique result: " + Show(|found|)))
  }

  /** `findBySagaInstanceIdAndStatus(id, COMPLETED)`: the instance's COMPLETED records in id order. */
  function CompletedSteps(db: Db, sagaInstanceId: int): (r: seq<nat>)
    ensures forall k :: 0 <= k < |r| ==>
      r[k] < |db.steps| && db.steps[r[k]].sagaInstanceId == sagaInstanceId && db.steps[r[k]].status == StepCompleted
    ensures forall j :: 0 <= j < |db.steps| && db.steps[j].sagaInstanceId == sagaInstanceId && db.steps[j].status == StepCompleted ==> j in r
    ensures forall k, l :: 0 <= k < l < |r| ==> r[k] < r[l]
  {
    Positions(db.steps, (s: StepRecord) => s.sagaInstanceId == sagaInstanceId && s.status == StepCompleted)
  }

  predicate IsStalled(s: SagaInstance, cutoff: int)
  {
    (s.status == SagaStarted || s.status == SagaCompensating) && s.updatedDate < cutoff
  }

  /**
   * `findStalledSagas(cutoff)`: the instances in STARTED or COMPENSATING
   * last saved before `cutoff`, in id order.
   */
  function FindStalledSagas(db: Db, cutoff: int): (r: seq<nat>)
    ensures forall k :: 0 <= k < |r| ==> r[k] < |db.instances| && IsStalled(db.instances[r[k]], cutoff)
    ensures forall j :: 0 <= j < |db.instances| && IsStalled(db.instances[j], cutoff) ==> j in r
    ensures forall k, l :: 0 <= k < l < |r| ==> r[k] < r[l]
  {
    Positions(db.instances, (s: SagaInstance) => IsStalled(s, cutoff))
  }

  /** With no instance stalled, the query returns nothing. */
  lemma NothingStalledFindsNothing(db: Db, cutoff: int)
    requires forall j :: 0 <= j < |db.instances| ==> !IsStalled(db.instances[j], cutoff)
    ensures FindStalledSagas(db, cutoff) == []
  {
    PositionsOfNone(db.instances, (s: SagaInstance) => IsStalled(s, cutoff));
  }

  // ---------------------------------------------------------------- saves

  /**
   * Saving an instance stamps `updatedDate` with the clock, as the auditing
   * listener on SagaInstance does when JPA auditing is enabled.
   */
  function WithInstance(db: Db, id: nat, s: SagaInstance): (r: Db)
    requires id < |db.instances|
    ensures r.instances == db.instances[id := s.(updatedDate := db.clock)]
    ensures r.steps == db.steps && r.wallets == db.wallets && r.transactions == db.transactions && r.clock == db.clock
  {
    db.(instances := db.instances[id := s.(updatedDate := db.clock)])
  }

  /** Inserting an instance: it gets the next id. */
  function AddInstance(db: Db, s: SagaInstance): (r: (Db, nat))
    ensures r.1 == |db.instances| && r.0.instances == db.instances + [s.(updatedDate := db.clock)]
    ensures r.0.steps == db.steps && r.0.wallets == db.wallets && r.0.transactions == db.transactions && r.0.clock == db.clock
  {
    (db.(instances := db.instances + [s.(updatedDate := db.clock)]), |db.instances|)
  }

  function WithStep(db: Db, id: nat, s: StepRecord): (r: Db)
    requires id < |db.steps|
    ensures r.steps == db.steps[id := s]
    ensures r.instances == db.instances && r.wallets == db.wallets && r.transactions == db.transactions && r.clock == db.clock
  {
    db.(steps := db.steps[id := s])
  }

  const DuplicateStepOrder: Exception :=
    Exception(DataAccessException, "duplicate key value violates unique constraint \"uk_saga_step_order\"")

  /**
   * Inserting a step record: it gets the next id, unless a record of the same
   * instance already has its order, which violates `uk_saga_step_order`.
   */
  function AddStep(db: Db, s: StepRecord): (r: Result<(Db, nat)>)
    ensures r.Err? <==> exists j :: 0 <= j < |db.steps| && db.steps[j].sagaInstanceId == s.sagaInstanceId && db.steps[j].stepOrder == s.stepOrder
    ensures r.Err? ==> r.error.kind == DataAccessException
    ensures r.Ok? ==> r.value.1 == |db.steps| && r.value.0 == db.(steps := db.steps + [s])
  {
    if exists j :: 0 <= j < |db.steps| && db.steps[j].sagaInstanceId == s.sagaInstanceId && db.steps[j].stepOrder == s.stepOrder
    then Err(DuplicateStepOrder)
    else Ok((db.(steps := db.steps + [s]), |db.steps|))
  }

  function WithWallet(db: Db, id: nat, w: Wallet): (r: Db)
    requires id < |db.wallets|
    ensures r.wallets == db.wallets[id := w]
    ensures r.instances == db.instances && r.steps == db.steps && r.transactions == db.transactions && r.clock == db.clock
  {
    db.(wallets := db.wallets[id := w])
  }

  function WithTransaction(db: Db, id: nat, t: Transaction): (r: Db)
    requires id < |db.transactions|
    ensures r.transactions == db.transactions[id := t]
    ensures r.instances == db.instances && r.steps == db.steps && r.wallets == db.wallets && r.clock == db.clock
  {
    db.(transactions := db.transactions[id := t])
  }

  function AddTransaction(db: Db, t: Transaction): (r: (Db, nat))
    ensures r.1 == |db.transactions| && r.0.transactions == db.transactions + [t]
    ensures r.0.instances == db.instances && r.0.steps == db.steps && r.0.wallets == db.wallets && r.0.clock == db.clock
  {
    (db.(transactions := db.transactions + [t]), |db.transactions|)
  }

  /** Inserting a step record keeps the table constraints. */
  lemma InsertStepKeepsValid(db: Db, s: StepRecord)
    requires Valid(db) && 0 <= s.sagaInstanceId < |db.instances|
    requires AddStep(db, s).Ok?
    ensures Valid(AddStep(db, s).value.0)
  {
    var db' := AddStep(db, s).value.0;
    forall i, j | 0 <= i < j < |db'.steps|
      ensures db'.steps[i].sagaInstanceId != db'.steps[j].sagaInstanceId || db'.steps[i].stepOrder != db'.steps[j].stepOrder
    {
      if j == |db.steps| {
        assert db'.steps[j] == s && db'.steps[i] == db.steps[i];
      }
    }
  }

  /** A save that keeps a record's instance and order keeps the table constraints. */
  lemma SaveStepKeepsValid(db: Db, id: nat, s: StepRecord)
    requires Valid(db) && id < |db.steps|
    requires s.sagaInstanceId == db.steps[id].sagaInstanceId && s.stepOrder == db.steps[id].stepOrder
    ensures Valid(WithStep(db, id, s))
  {
    var db' := WithStep(db, id, s);
    assert forall i :: 0 <= i < |db'.steps| ==>
      db'.steps[i].sagaInstanceId == db.steps[i].sagaInstanceId && db'.steps[i].stepOrder == db.steps[i].stepOrder;
  }

  /**
   * The store object the repositories share. Each method is one repository
   * call and changes exactly the table row it names.
   */
  class Store {
    var instances: seq<SagaInstance>
    var steps: seq<StepRecord>
    var wallets: seq<Wallet>
    var transactions: seq<Transaction>
    var clock: int

    function State(): Db
      reads this
    {
      Db(instances, steps, wallets, transactions, clock)
    }

    constructor (db: Db)
      ensures State() == db
    {
      instances := db.instances;
      steps := db.steps;
      wallets := db.wallets;
      transactions := db.transactions;
      clock := db.clock;
    }

    method SaveInstance(id: nat, s: SagaInstance)
      requires id < |instances|
      modifies this
      ensures State() == WithInstance(old(State()), id, s)
    {
      instances := instances[id := s.(updatedDate := clock)];
    }

    method InsertInstance(s: SagaInstance) returns (id: nat)
      modifies this
      ensures (State(), id) == AddInstance(old(State()), s)
    {
      id := |instances|;
      instances := instances + [s.(updatedDate := clock)];
    }

    method SaveStep(id: nat, s: StepRecord)
      requires id < |steps|
      modifies this
      ensures State() == WithStep(old(State()), id, s)
    {
      steps := steps[id := s];
    }

    method InsertStep(s: StepRecord) returns (r: Result<nat>)
      modifies this
      ensures var expected := AddStep(old(State()), s);
        if expected.Ok? then r == Ok(expected.value.1) && State() == expected.value.0
        else r == Err(expected.error) && State() == old(State())
    {
      if exists j :: 0 <= j < |steps| && steps[j].sagaInstanceId == s.sagaInstanceId && steps[j].stepOrder == s.stepOrder {
        r := Err(DuplicateStepOrder);
      } else {
        r := Ok(|steps|);
        steps := steps + [s];
      }
    }

    method SaveWallet(id: nat, w: Wallet)
      requires id < |wallets|
      modifies this
      ensures State() == WithWallet(old(State()), id, w)
    {
      wallets := wallets[id := w];
    }

    method InsertWallet(w: Wallet) returns (id: nat)
      modifies this
      ensures id == |old(wallets)| && State() == old(State()).(wallets := old(wallets) + [w.(id := Some(id))])
    {
      id := |wallets|;
      wallets := wallets + [w.(id := Some(id))];
    }

    method SaveTransaction(id: nat, t: Transaction)
      requires id < |transactions|
      modifies this
      ensures State() == WithTransaction(old(State()), id, t)
    {
      transactions := transactions[id := t];
    }

    method InsertTransaction(t: Transaction) returns (id: nat)
      modifies this
      ensures (State(), id) == AddTransaction(old(State()), t)
    {
      id := |transactions|;
      transactions := transactions + [t];
    }
  }
}
