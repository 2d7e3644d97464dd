// The lock-protected bookkeeping of RobustExecutor: which calls are pending,
// who owns them, which generations have a running call, and whether new calls
// may still be admitted.  Every function below is one critical section of the
// executor's state lock.
module ExecutorCore {
  import opened Options

  type Id = nat      // operation_id of a settlement token
  type Task = nat    // the asyncio task that issued a call

  datatype Core = Core(
    healthy: bool,
    closing: bool,
    generation: nat,
    active: set<nat>,
    lastId: Id,
    pending: set<Id>,
    owners: map<Task, set<Id>>)

  datatype Admission = Closing | Unhealthy | SubmitFailed(id: Id) | Admitted(id: Id)

  const EMPTY := Core(true, false, 0, {}, 0, {}, map[])

  // No owner keeps an empty group, and every recorded id is an issued one.
  ghost predicate Tidy(c: Core) {
    && (forall o :: o in c.owners ==> c.owners[o] != {} && c.owners[o] <= c.pending)
    && (forall id :: id in c.pending ==> id <= c.lastId)
  }

  function AddOwned(owners: map<Task, set<Id>>, owner: Option<Task>, id: Id): map<Task, set<Id>> {
    match owner
    case None => owners
    case Some(o) => owners[o := (if o in owners then owners[o] else {}) + {id}]
  }

  function DropOwned(owners: map<Task, set<Id>>, owner: Option<Task>, id: Id): map<Task, set<Id>> {
    match owner
    case None => owners
    case Some(o) =>
      if o !in owners then owners
      else if owners[o] - {id} == {} then owners - {o}
      else owners[o := owners[o] - {id}]
  }

  // The locked part of run_safe.  A submission that fails leaves only a used
  // operation id behind.
  function Admit(c: Core, owner: Option<Task>, submitted: bool): (Core, Admission) {
    if c.closing then (c, Closing)
    else if !c.healthy then (c, Unhealthy)
    else
      var id := c.lastId + 1;
      if submitted then
        (c.(lastId := id, pending := c.pending + {id}, owners := AddOwned(c.owners, owner, id)), Admitted(id))
      else
        (c.(lastId := id), SubmitFailed(id))
  }

  function Discard(c: Core, id: Id, generation: nat, owner: Option<Task>): Core {
    c.(active := c.active - {generation}, pending := c.pending - {id}, owners := DropOwned(c.owners, owner, id))
  }

  function Activate(c: Core, generation: nat): Core { c.(active := c.active + {generation}) }

  function MarkUnhealthy(c: Core): Core { c.(healthy := false) }

  function Reset(c: Core): Core { c.(generation := c.generation + 1, healthy := true) }

  function BeginShutdown(c: Core): Core { c.(closing := true) }

  predicate Retiring(c: Core) { exists g :: g in c.active && g != c.generation }

  // The executor object.  Each method is one critical section; its contract is
  // the Core transition above.
  class RobustExecutor {
    var healthy: bool
    var closing: bool
    var resetGeneration: nat
    var activeGenerations: set<nat>
    var nextOperationId: Id
    var pendingTokens: set<Id>
    var tokensByOwner: map<Task, set<Id>>
    var lastError: Option<string>
    var lastTimeoutSeconds: Option<real>

    ghost function View(): Core
      reads this
    {
      Core(healthy, closing, resetGeneration, activeGenerations, nextOperationId, pendingTokens, tokensByOwner)
    }

    constructor ()
      ensures View() == EMPTY && Tidy(View()) && lastError == None && lastTimeoutSeconds == None
    {
      healthy, closing, resetGeneration, activeGenerations := true, false, 0, {};
      nextOperationId, pendingTokens, tokensByOwner := 0, {}, map[];
      lastError, lastTimeoutSeconds := None, None;
    }

    // `submitted` is the environment's answer to executor.submit.
    method RunSafe(owner: Option<Task>, submitted: bool) returns (r: Admission)
      requires Tidy(View())
      modifies this`nextOperationId, this`pendingTokens, this`tokensByOwner, this`lastError, this`lastTimeoutSeconds
      ensures (View(), r) == Admit(old(View()), owner, submitted)
      ensures Tidy(View())
      ensures r.Closing? <==> old(closing)
      ensures r.Unhealthy? <==> !old(closing) && !old(healthy)
      ensures r.Admitted? <==> !old(closing) && old(healthy) && submitted
      ensures !r.Admitted? ==> pendingTokens == old(pendingTokens) && tokensByOwner == old(tokensByOwner)
      ensures r.Closing? || r.Unhealthy? ==> nextOperationId == old(nextOperationId)
      ensures r.Closing? || r.Unhealthy? ==>
                lastError == old(lastError) && lastTimeoutSeconds == old(lastTimeoutSeconds)
      ensures r.Admitted? || r.SubmitFailed? ==>
                r.id == nextOperationId == old(nextOperationId) + 1 && lastError == None && lastTimeoutSeconds == None
      ensures r.Admitted? ==> pendingTokens == old(pendingTokens) + {r.id}
      ensures r.Admitted? && owner.Some? ==> owner.value in tokensByOwner && r.id in tokensByOwner[owner.value]
    {
      if closing { return Closing; }
      if !healthy { return Unhealthy; }
      nextOperationId := nextOperationId + 1;
      lastError, lastTimeoutSeconds := None, None;
      var token := nextOperationId;
      pendingTokens := pendingTokens + {token};
      if owner.Some? {
        var owned := if owner.value in tokensByOwner then tokensByOwner[owner.value] else {};
        tokensByOwner := tokensByOwner[owner.value := owned + {token}];
      }
      if submitted { return Admitted(token); }
      pendingTokens := pendingTokens - {token};
      ForgetOwned(token, owner);
      assert pendingTokens == old(pendingTokens);
      if owner.Some? {
        var o := owner.value;
        if o in old(tokensByOwner) {
          assert old(tokensByOwner)[o] + {token} - {token} == old(tokensByOwner)[o];
        } else {
          assert {} + {token} - {token} == {};
        }
        assert tokensByOwner == old(tokensByOwner);
      }
      r := SubmitFailed(token);
    }

    method ForgetOwned(token: Id, owner: Option<Task>)
      modifies this`tokensByOwner
      ensures tokensByOwner == DropOwned(old(tokensByOwner), owner, token)
      ensures forall o ::
                o in tokensByOwner
                <==> (o in old(tokensByOwner) && (Some(o) == owner ==> old(tokensByOwner)[o] - {token} != {}))
      ensures forall o :: o in tokensByOwner ==>
                tokensByOwner[o] == old(tokensByOwner)[o] - (if Some(o) == owner then {token} else {})
    {
      if owner.Some? && owner.value in tokensByOwner {
        var owned := tokensByOwner[owner.value] - {token};
        if owned == {} {
          tokensByOwner := tokensByOwner - {owner.value};
        } else {
          tokensByOwner := tokensByOwner[owner.value := owned];
        }
      }
    }

    // The locked half of settle_token.
    method SettleToken(token: Id, generation: nat, owner: Option<Task>)
      requires Tidy(View())
      requires forall o :: o in tokensByOwner && token in tokensByOwner[o] ==> owner == Some(o)
      modifies this`activeGenerations, this`pendingTokens, this`tokensByOwner
      ensures View() == Discard(old(View()), token, generation, owner)
      ensures Tidy(View())
      ensures activeGenerations == old(activeGenerations) - {generation}
      ensures pendingTokens == old(pendingTokens) - {token}
      ensures forall o :: o in tokensByOwner ==> token !in tokensByOwner[o]
    {
      activeGenerations := activeGenerations - {generation};
      pendingTokens := pendingTokens - {token};
      ForgetOwned(token, owner);
    }

    method CallStarted(generation: nat)
      modifies this`activeGenerations
      ensures View() == Activate(old(View()), generation)
      ensures activeGenerations == old(activeGenerations) + {generation}
    {
      activeGenerations := activeGenerations + {generation};
    }

    method WatchdogExpired(error: string, limit: real)
      modifies this`healthy, this`lastError, this`lastTimeoutSeconds
      ensures View() == MarkUnhealthy(old(View())) && !healthy
      ensures lastError == Some(error) && lastTimeoutSeconds == Some(limit)
    {
      healthy := false;
      lastError, lastTimeoutSeconds := Some(error), Some(limit);
    }

    // The pool swapped out belongs to the old generation.
    method ResetExecutor() returns (retired: nat)
      modifies this
      ensures View() == Reset(old(View())) && retired == old(resetGeneration)
      ensures healthy && resetGeneration == old(resetGeneration) + 1 && closing == old(closing)
      ensures activeGenerations == old(activeGenerations) && pendingTokens == old(pendingTokens)
      ensures lastError == None && lastTimeoutSeconds == None
    {
      lastError, lastTimeoutSeconds := None, None;
      retired := resetGeneration;
      resetGeneration := resetGeneration + 1;
      healthy := true;
    }

    method CloseAdmission()
      modifies this`closing
      ensures View() == BeginShutdown(old(View())) && closing
    {
      closing := true;
    }

    // `shut` is the generation whose pool is shut down; None is PendingSettlementError.
    method ShutdownIfSettled(settled: set<Id>) returns (shut: Option<nat>)
      modifies this`closing
      ensures View() == BeginShutdown(old(View())) && closing
      ensures shut == if pendingTokens <= settled then Some(resetGeneration) else None
    {
      closing := true;
      if exists token :: token in pendingTokens && token !in settled { return None; }
      shut := Some(resetGeneration);
    }

    method PendingSettlementsFor(owner: Task, settled: set<Id>) returns (r: set<Id>)
      ensures r == (if owner in tokensByOwner then tokensByOwner[owner] else {}) - settled
    {
      r := if owner in tokensByOwner then set id | id in tokensByOwner[owner] && id !in settled else {};
    }

    method PreviousWorkerRetiring() returns (retiring: bool)
      ensures retiring == Retiring(View())
      ensures retiring <==> exists g :: g in activeGenerations && g != resetGeneration
    {
      retiring := false;
      var rest := activeGenerations;
      while rest != {}
        invariant rest <= activeGenerations
        invariant retiring <==> exists g :: g in activeGenerations && g !in rest && g != resetGeneration
        decreases rest
      {
        var g :| g in rest;
        retiring := retiring || g != resetGeneration;
        rest := rest - {g};
      }
    }

    method InFlightCalls(settled: set<Id>) returns (inFlight: nat)
      ensures inFlight == |pendingTokens - settled|
    {
      inFlight := 0;
      var todo := pendingTokens;
      ghost var seen: set<Id> := {};
      while todo != {}
        invariant todo + seen == pendingTokens && todo !! seen
        invariant inFlight == |seen - settled|
        decreases todo
      {
        var id :| id in todo;
        CountOne(seen, settled, id);
        todo, seen := todo - {id}, seen + {id};
        if id !in settled { inFlight := inFlight + 1; }
      }
    }
  }

  lemma {:induction false} CountOne(seen: set<Id>, settled: set<Id>, id: Id)
    requires id !in seen
    ensures |(seen + {id}) - settled| == |seen - settled| + (if id in settled then 0 else 1)
  {
    if id in settled {
      assert (seen + {id}) - settled == seen - settled;
    } else {
      assert (seen + {id}) - settled == (seen - settled) + {id};
    }
  }
}
