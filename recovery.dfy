/**
 * The recovery sweep: a scheduled job that loads every saga instance left in
 * STARTED or COMPENSATING for longer than the staleness threshold and drives
 * each one, in the order the query returned them, to compensation or failure.
 * One saga's failure is caught and answered with `failSaga`; whatever that
 * throws is swallowed, and the sweep moves on to the next saga.
 *
 * The job's reading of the wall clock is the parameter `now`, in seconds,
 * like every `updatedDate`.
 */
module SagaRecovery {
  import opened Base
  import opened Enums
  import opened Entities
  import opened Persistence
  import opened SagaOrchestrator

  const StaleThresholdMinutes: int := 10
  const SecondsPerMinute: int := 60

  /** The staleness cutoff: `now` less the threshold. */
  function Cutoff(now: int): int
  {
    now - StaleThresholdMinutes * SecondsPerMinute
  }

  /** A saga instance as the query loaded it: its id and the status it had then. */
  datatype Loaded = Loaded(id: nat, status: SagaStatus)

  /** An orchestrator call the sweep makes. */
  datatype Call = CompensateCall(sagaInstanceId: nat) | FailCall(sagaInstanceId: nat)

  /** One iteration of the sweep: the saga it handled and the orchestrator calls it made, in order. */
  datatype Visit = Visit(sagaInstanceId: nat, calls: seq<Call>)

  /** The store after a sweep and the iterations it went through. */
  datatype Recovery = Recovery(db: Db, visits: seq<Visit>)

  /** `findStalledSagas(cutoff)`, as the list of entities the job iterates over. */
  function LoadStalled(db: Db, cutoff: int): (r: seq<Loaded>)
    ensures |r| == |FindStalledSagas(db, cutoff)|
    ensures forall k :: 0 <= k < |r| ==> r[k].id == FindStalledSagas(db, cutoff)[k] && r[k].status == db.instances[r[k].id].status
  {
    var ids := FindStalledSagas(db, cutoff);
    seq(|ids|, k requires 0 <= k < |ids| => Loaded(ids[k], db.instances[ids[k]].status))
  }

  /** The ids of the loaded sagas, in order. */
  function Ids(sagas: seq<Loaded>): (r: seq<nat>)
    ensures |r| == |sagas| && forall k :: 0 <= k < |sagas| ==> r[k] == sagas[k].id
  {
    seq(|sagas|, k requires 0 <= k < |sagas| => sagas[k].id)
  }

  /** The call the try block makes: `compensateSaga` for STARTED and COMPENSATING, `failSaga` for any other status. */
  function FirstCall(s: Loaded): Call
  {
    if s.status == SagaStarted then CompensateCall(s.id)
    else if s.status == SagaCompensating then CompensateCall(s.id)
    else FailCall(s.id)
  }

  /** The try block: the call `FirstCall` selects, as the orchestrator specifies it. */
  function TryBlock(db: Db, s: Loaded): Effect<()>
  {
    match FirstCall(s)
    case CompensateCall(id) => CompensateSagaSpec(db, id)
    case FailCall(id) => FailSagaSpec(db, id)
  }

  /**
   * What a try block does to the store for one loaded saga. The loop is
   * stated over any such function; the job runs it with `TryBlock`.
   */
  type Attempt = (Db, Loaded) -> Effect<()>

  /** One iteration: the try block; if it threw, `failSaga` in the catch, with its own failure swallowed. */
  function RecoverOne(db: Db, s: Loaded, attempt: Attempt): (Db, Visit)
  {
    var first := attempt(db, s);
    match first.result
    case Ok(_) => (first.db, Visit(s.id, [FirstCall(s)]))
    case Err(_) => (FailSagaSpec(first.db, s.id).db, Visit(s.id, [FirstCall(s), FailCall(s.id)]))
  }

  /** The loop over the loaded sagas. */
  function RecoverEach(db: Db, sagas: seq<Loaded>, attempt: Attempt): Recovery
    decreases |sagas|
  {
    if sagas == [] then Recovery(db, [])
    else
      var (db1, visit) := RecoverOne(db, sagas[0], attempt);
      var rest := RecoverEach(db1, sagas[1..], attempt);
      Recovery(rest.db, [visit] + rest.visits)
  }

  /** `recoverStalledSagas`: load the stalled sagas; with none, return at once; otherwise run the loop. */
  function RecoverStalledSagasSpec(db: Db, now: int): Recovery
  {
    var stalledSagas := LoadStalled(db, Cutoff(now));
    if |stalledSagas| == 0 then Recovery(db, [])
    else RecoverEach(db, stalledSagas, TryBlock)
  }

  /** A sweep's visits `done` followed by the rest of the sweep. */
  function After(done: seq<Visit>, rest: Recovery): Recovery
  {
    Recovery(rest.db, done + rest.visits)
  }

  /**
   * The job body. Besides changing the store it returns the iterations it
   * went through, so that the calls it made can be stated.
   */
  method RecoverStalledSagas(store: Store, now: int) returns (visits: seq<Visit>)
    modifies store
    ensures Recovery(store.State(), visits) == RecoverStalledSagasSpec(old(store.State()), now)
  {
    var cutoff := Cutoff(now);
    var stalledSagas := LoadStalled(store.State(), cutoff);
    if |stalledSagas| == 0 {
      return [];
    }
    ghost var db0 := store.State();
    visits := [];
    var i := 0;
    while i < |stalledSagas|
      invariant 0 <= i <= |stalledSagas|
      invariant RecoverEach(db0, stalledSagas, TryBlock) == After(visits, RecoverEach(store.State(), stalledSagas[i..], TryBlock))
    {
      ghost var before := store.State();
      var visit := RecoverSaga(store, stalledSagas[i]);
      RecoverEachResume(db0, stalledSagas, TryBlock, visits, before, i, visit, store.State());
      visits := visits + [visit];
      i := i + 1;
    }
    assert stalledSagas[i..] == [];
    assert visits + [] == visits;
  }

  /** The body of the loop: the try block and its catch, for one saga. */
  method RecoverSaga(store: Store, saga: Loaded) returns (visit: Visit)
    modifies store
    ensures (store.State(), visit) == RecoverOne(old(store.State()), saga, TryBlock)
  {
    var r: Result<()>;
    if saga.status == SagaStarted {
      r := CompensateSaga(store, saga.id);
    } else if saga.status == SagaCompensating {
      r := CompensateSaga(store, saga.id);
    } else {
      r := FailSaga(store, saga.id);
    }
    visit := Visit(saga.id, [FirstCall(saga)]);
    if r.Err? {
      var ignored := FailSaga(store, saga.id);
      visit := Visit(saga.id, [FirstCall(saga), FailCall(saga.id)]);
    }
  }

  /** One more iteration of the loop keeps its invariant. */
  lemma RecoverEachResume(db0: Db, sagas: seq<Loaded>, attempt: Attempt, done: seq<Visit>, db: Db, i: nat, visit: Visit, db1: Db)
    requires i < |sagas|
    requires RecoverEach(db0, sagas, attempt) == After(done, RecoverEach(db, sagas[i..], attempt))
    requires (db1, visit) == RecoverOne(db, sagas[i], attempt)
    ensures RecoverEach(db0, sagas, attempt) == After(done + [visit], RecoverEach(db1, sagas[i + 1..], attempt))
  {
    var tail := sagas[i..];
    assert tail[0] == sagas[i];
    assert tail[1..] == sagas[i + 1..];
    RecoverEachFirst(db, tail, attempt);
    var rest := RecoverEach(db1, sagas[i + 1..], attempt);
    assert done + ([visit] + rest.visits) == (done + [visit]) + rest.visits;
  }

  /** The loop's first iteration, then the rest. */
  lemma RecoverEachFirst(db: Db, sagas: seq<Loaded>, attempt: Attempt)
    requires sagas != []
    ensures var (db1, visit) := RecoverOne(db, sagas[0], attempt);
      RecoverEach(db, sagas, attempt) == After([visit], RecoverEach(db1, sagas[1..], attempt))
  {
  }

  // ---------------------------------------------------------------- properties

  /** A saga is stalled exactly when it is STARTED or COMPENSATING and was last saved more than ten minutes before `now`. */
  lemma StalledMeansOlderThanThreshold(db: Db, now: int, j: nat)
    requires j < |db.instances|
    ensures j in FindStalledSagas(db, Cutoff(now)) <==>
      && (db.instances[j].status == SagaStarted || db.instances[j].status == SagaCompensating)
      && now - db.instances[j].updatedDate > 600
  {
  }

  /** With no stalled saga the job calls nothing and changes nothing. */
  lemma NothingStalledNothingCalled(db: Db, now: int)
    requires FindStalledSagas(db, Cutoff(now)) == []
    ensures RecoverStalledSagasSpec(db, now) == Recovery(db, [])
  {
  }

  /**
   * Whatever the try block does, the loop visits every loaded saga exactly
   * once, in the order loaded: it first makes the call the saga's status
   * selects, and at most one more, `failSaga` on the same saga. Nothing
   * thrown ends the loop early.
   */
  lemma {:induction false} RecoverEachVisitsEachOnce(db: Db, sagas: seq<Loaded>, attempt: Attempt)
    ensures var r := RecoverEach(db, sagas, attempt);
      && |r.visits| == |sagas|
      && forall k :: 0 <= k < |sagas| ==>
           && r.visits[k].sagaInstanceId == sagas[k].id
           && (r.visits[k].calls == [FirstCall(sagas[k])] || r.visits[k].calls == [FirstCall(sagas[k]), FailCall(sagas[k].id)])
    decreases |sagas|
  {
    if sagas != [] {
      var (db1, visit) := RecoverOne(db, sagas[0], attempt);
      RecoverEachVisitsEachOnce(db1, sagas[1..], attempt);
      var r := RecoverEach(db, sagas, attempt);
      forall k | 1 <= k < |sagas|
        ensures r.visits[k].sagaInstanceId == sagas[k].id
        ensures r.visits[k].calls == [FirstCall(sagas[k])] || r.visits[k].calls == [FirstCall(sagas[k]), FailCall(sagas[k].id)]
      {
        assert sagas[1..][k - 1] == sagas[k];
      }
    }
  }

  /** The dispatch: `compensateSaga` for a STARTED or COMPENSATING saga, `failSaga` for any other status. */
  lemma FirstCallByStatus(s: Loaded)
    ensures FirstCall(s) == CompensateCall(s.id) <==> s.status == SagaStarted || s.status == SagaCompensating
    ensures FirstCall(s) == FailCall(s.id) <==> !(s.status == SagaStarted || s.status == SagaCompensating)
  {
  }

  /**
   * A catch whose own `failSaga` throws leaves the store as the try block
   * left it: the swallowed failure changes nothing.
   */
  lemma SwallowedFailureChangesNothing(db: Db, s: Loaded)
    requires TryBlock(db, s).result.Err?
    requires FailSagaSpec(TryBlock(db, s).db, s.id).result.Err?
    ensures RecoverOne(db, s, TryBlock).0 == TryBlock(db, s).db
  {
  }

  /** Every loaded saga exists, was stalled when loaded, and the ids come in increasing order. */
  lemma LoadedSagasAreStalled(db: Db, cutoff: int)
    ensures var sagas := LoadStalled(db, cutoff);
      && (forall k :: 0 <= k < |sagas| ==>
            sagas[k].id < |db.instances| && IsStalled(db.instances[sagas[k].id], cutoff)
            && (sagas[k].status == SagaStarted || sagas[k].status == SagaCompensating))
      && (forall k, l :: 0 <= k < l < |sagas| ==> sagas[k].id < sagas[l].id)
      && (forall j :: 0 <= j < |db.instances| && IsStalled(db.instances[j], cutoff) ==> j in Ids(sagas))
  {
    var sagas := LoadStalled(db, cutoff);
    assert Ids(sagas) == FindStalledSagas(db, cutoff);
  }

  /**
   * A try block that, on any existing STARTED or COMPENSATING saga, returns
   * normally, leaves that saga COMPENSATED or FAILED and changes no other
   * instance.
   */
  ghost predicate Resolves(attempt: Attempt)
  {
    forall d: Db, s: Loaded ::
      s.id < |d.instances| && (s.status == SagaStarted || s.status == SagaCompensating) ==>
        && attempt(d, s).result.Ok?
        && |attempt(d, s).db.instances| == |d.instances|
        && (attempt(d, s).db.instances[s.id].status == SagaCompensated || attempt(d, s).db.instances[s.id].status == SagaFailed)
        && forall j :: 0 <= j < |d.instances| && j != s.id ==> attempt(d, s).db.instances[j] == d.instances[j]
  }

  /** The job's try block is one: `compensateSaga` on an existing instance never throws and ends it COMPENSATED or FAILED. */
  lemma TryBlockResolves()
    ensures Resolves(TryBlock)
  {
    forall d: Db, s: Loaded | s.id < |d.instances| && (s.status == SagaStarted || s.status == SagaCompensating)
      ensures TryBlock(d, s) == CompensateSagaSpec(d, s.id)
      ensures var e := CompensateSagaSpec(d, s.id);
        && e.result.Ok?
        && |e.db.instances| == |d.instances|
        && (e.db.instances[s.id].status == SagaCompensated || e.db.instances[s.id].status == SagaFailed)
        && forall j :: 0 <= j < |d.instances| && j != s.id ==> e.db.instances[j] == d.instances[j]
    {
      CompensateSagaEndsTerminal(d, s.id);
    }
  }

  /** With such a try block, an existing STARTED or COMPENSATING saga is handled without entering the catch. */
  lemma RecoverOneCompensates(db: Db, s: Loaded, attempt: Attempt)
    requires Resolves(attempt)
    requires s.id < |db.instances|
    requires s.status == SagaStarted || s.status == SagaCompensating
    ensures RecoverOne(db, s, attempt).1 == Visit(s.id, [CompensateCall(s.id)])
    ensures |RecoverOne(db, s, attempt).0.instances| == |db.instances|
  {
  }

  /** Over existing STARTED or COMPENSATING sagas, such a loop only calls `compensateSaga`, once per saga and in order. */
  lemma {:induction false} RecoverEachOnlyCompensates(db: Db, sagas: seq<Loaded>, attempt: Attempt)
    requires Resolves(attempt)
    requires forall k :: 0 <= k < |sagas| ==> sagas[k].id < |db.instances|
    requires forall k :: 0 <= k < |sagas| ==> sagas[k].status == SagaStarted || sagas[k].status == SagaCompensating
    ensures var r := RecoverEach(db, sagas, attempt);
      && |r.db.instances| == |db.instances|
      && |r.visits| == |sagas|
      && forall k :: 0 <= k < |sagas| ==>
           r.visits[k].sagaInstanceId == sagas[k].id && r.visits[k].calls == [CompensateCall(sagas[k].id)]
    decreases |sagas|
  {
    if sagas != [] {
      var tail := sagas[1..];
      var one := RecoverOne(db, sagas[0], attempt);
      RecoverOneCompensates(db, sagas[0], attempt);
      RecoverEachFirst(db, sagas, attempt);
      RecoverEachOnlyCompensates(one.0, tail, attempt);
      var rest := RecoverEach(one.0, tail, attempt);
      var r := RecoverEach(db, sagas, attempt);
      forall k | 1 <= k < |sagas|
        ensures r.visits[k].sagaInstanceId == sagas[k].id && r.visits[k].calls == [CompensateCall(sagas[k].id)]
      {
        assert tail[k - 1] == sagas[k];
        assert r.visits[k] == rest.visits[k - 1];
      }
    }
  }

  /** Over existing STARTED or COMPENSATING sagas, such a loop changes no instance outside the loaded ones. */
  lemma {:induction false} RecoverEachKeepsOthers(db: Db, sagas: seq<Loaded>, attempt: Attempt)
    requires Resolves(attempt)
    requires forall k :: 0 <= k < |sagas| ==> sagas[k].id < |db.instances|
    requires forall k :: 0 <= k < |sagas| ==> sagas[k].status == SagaStarted || sagas[k].status == SagaCompensating
    ensures var r := RecoverEach(db, sagas, attempt);
      && |r.db.instances| == |db.instances|
      && forall j :: 0 <= j < |db.instances| && j !in Ids(sagas) ==> r.db.instances[j] == db.instances[j]
    decreases |sagas|
  {
    if sagas != [] {
      var tail := sagas[1..];
      var one := RecoverOne(db, sagas[0], attempt);
      RecoverEachFirst(db, sagas, attempt);
      RecoverEachKeepsOthers(one.0, tail, attempt);
      assert Ids(sagas) == [sagas[0].id] + Ids(tail);
    }
  }

  /**
   * Over existing STARTED or COMPENSATING sagas with increasing ids, such a
   * loop leaves each of those sagas COMPENSATED or FAILED.
   */
  lemma {:induction false} RecoverEachResolves(db: Db, sagas: seq<Loaded>, attempt: Attempt)
    requires Resolves(attempt)
    requires forall k :: 0 <= k < |sagas| ==> sagas[k].id < |db.instances|
    requires forall k :: 0 <= k < |sagas| ==> sagas[k].status == SagaStarted || sagas[k].status == SagaCompensating
    requires forall k, l :: 0 <= k < l < |sagas| ==> sagas[k].id < sagas[l].id
    ensures var r := RecoverEach(db, sagas, attempt);
      && |r.db.instances| == |db.instances|
      && forall k :: 0 <= k < |sagas| ==>
           r.db.instances[sagas[k].id].status == SagaCompensated || r.db.instances[sagas[k].id].status == SagaFailed
    decreases |sagas|
  {
    if sagas != [] {
      var s := sagas[0];
      var tail := sagas[1..];
      var one := RecoverOne(db, s, attempt);
      RecoverEachFirst(db, sagas, attempt);
      RecoverEachResolves(one.0, tail, attempt);
      RecoverEachKeepsOthers(one.0, tail, attempt);
      var r := RecoverEach(db, sagas, attempt);
      assert s.id !in Ids(tail) by {
        forall k | 0 <= k < |tail|
          ensures Ids(tail)[k] != s.id
        {
          assert tail[k] == sagas[k + 1];
        }
      }
      forall k | 1 <= k < |sagas|
        ensures r.db.instances[sagas[k].id].status == SagaCompensated || r.db.instances[sagas[k].id].status == SagaFailed
      {
        assert tail[k - 1] == sagas[k];
      }
    }
  }

  /**
   * One sweep resolves the whole backlog: every saga stalled at `now` is
   * visited once, in id order, with a single `compensateSaga`, and ends
   * COMPENSATED or FAILED; no other instance changes, and afterwards no
   * saga is stalled at the same cutoff.
   */
  lemma SweepResolvesEveryStalledSaga(db: Db, now: int)
    ensures var stalled := FindStalledSagas(db, Cutoff(now));
      var r := RecoverStalledSagasSpec(db, now);
      && |r.db.instances| == |db.instances|
      && |r.visits| == |stalled|
      && (forall k :: 0 <= k < |stalled| ==> r.visits[k] == Visit(stalled[k], [CompensateCall(stalled[k])]))
      && (forall k :: 0 <= k < |stalled| ==>
            r.db.instances[stalled[k]].status == SagaCompensated || r.db.instances[stalled[k]].status == SagaFailed)
      && (forall j :: 0 <= j < |db.instances| && j !in stalled ==> r.db.instances[j] == db.instances[j])
      && FindStalledSagas(r.db, Cutoff(now)) == []
  {
    var cutoff := Cutoff(now);
    var stalled := FindStalledSagas(db, cutoff);
    var sagas := LoadStalled(db, cutoff);
    LoadedSagasAreStalled(db, cutoff);
    assert Ids(sagas) == stalled;
    TryBlockResolves();
    RecoverEachOnlyCompensates(db, sagas, TryBlock);
    RecoverEachResolves(db, sagas, TryBlock);
    RecoverEachKeepsOthers(db, sagas, TryBlock);
    var r := RecoverStalledSagasSpec(db, now);
    assert r == RecoverEach(db, sagas, TryBlock);
    NoneLeftStalled(db, r.db, cutoff);
  }

  /**
   * If every saga stalled at `cutoff` has become COMPENSATED or FAILED and
   * every other instance is unchanged, none is stalled at `cutoff` any more.
   */
  lemma NoneLeftStalled(db: Db, db1: Db, cutoff: int)
    requires |db1.instances| == |db.instances|
    requires var stalled := FindStalledSagas(db, cutoff);
      && (forall k :: 0 <= k < |stalled| ==>
            db1.instances[stalled[k]].status == SagaCompensated || db1.instances[stalled[k]].status == SagaFailed)
      && (forall j :: 0 <= j < |db.instances| && j !in stalled ==> db1.instances[j] == db.instances[j])
    ensures FindStalledSagas(db1, cutoff) == []
  {
    forall j | 0 <= j < |db1.instances|
      ensures !IsStalled(db1.instances[j], cutoff)
    {
      NotLeftStalled(db, db1, cutoff, j);
    }
    NothingStalledFindsNothing(db1, cutoff);
  }

  lemma NotLeftStalled(db: Db, db1: Db, cutoff: int, j: nat)
    requires |db1.instances| == |db.instances| && j < |db.instances|
    requires var stalled := FindStalledSagas(db, cutoff);
      && (forall k :: 0 <= k < |stalled| ==>
            db1.instances[stalled[k]].status == SagaCompensated || db1.instances[stalled[k]].status == SagaFailed)
      && (forall j :: 0 <= j < |db.instances| && j !in stalled ==> db1.instances[j] == db.instances[j])
    ensures !IsStalled(db1.instances[j], cutoff)
  {
    var stalled := FindStalledSagas(db, cutoff);
    if j in stalled {
      var k :| 0 <= k < |stalled| && stalled[k] == j;
    }
  }
}
