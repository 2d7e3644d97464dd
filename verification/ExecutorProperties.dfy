// What every run of the executor guarantees.
module ExecutorProperties {
  import opened Options
  import opened ExecutorCore
  import opened SettlementTokens
  import opened ExecutorProtocol

  ghost predicate Reachable(s: State) {
    exists steps :: Feasible(START, steps) && Run(START, steps) == s
  }

  lemma {:induction false} ReachableInv(s: State)
    requires Reachable(s)
    ensures Inv(s)
  {
    var steps :| Feasible(START, steps) && Run(START, steps) == s;
    StartInv();
    RunInv(START, steps);
  }

  // No token is settled twice; a call whose future has completed has been
  // settled once, and each callback ever registered was called exactly once.
  lemma {:induction false} SettledExactlyOnce(s: State, id: Id)
    requires Reachable(s) && id in s.calls
    ensures id in s.tokens && s.tokens[id].settles <= 1
    ensures s.tokens[id].settled <==> s.tokens[id].settles == 1
    ensures s.tokens[id].fired != [] ==> s.tokens[id].settled
    ensures s.calls[id].phase == Finished ==>
              s.tokens[id].settles == 1 && multiset(s.tokens[id].fired) == s.tokens[id].registered
  {
    ReachableInv(s);
    assert TokenOk(s.calls[id].phase, s.tokens[id]) && Conserved(s.tokens[id]);
  }

  // The executor's view of its pending calls: exactly the calls not yet
  // discarded, none of them settled, grouped by owner without empty groups.
  lemma {:induction false} PendingViewExact(s: State, owner: Task, id: Id)
    requires Reachable(s)
    ensures id in s.core.pending ==> id in s.tokens && !s.tokens[id].settled
    ensures id in s.core.pending <==> id in s.calls && Pending(s.calls[id].phase)
    ensures (owner in s.core.owners && id in s.core.owners[owner])
      <==> (id in s.core.pending && id in s.ownerOf && s.ownerOf[id] == Some(owner))
    ensures owner in s.core.owners ==> s.core.owners[owner] != {}
  {
    ReachableInv(s);
    assert Owns(s.core.pending, s.ownerOf, owner, id) <==> owner in s.core.owners && id in s.core.owners[owner];
    if id in s.calls { assert TokenOk(s.calls[id].phase, s.tokens[id]); }
  }

  // ---- what a step does to its own call ----

  // A call moves on from c to d: never back to the queue nor to being pending.
  predicate MovesOn(c: Call, d: Call) {
    && d.gen == c.gen && (Pending(d.phase) ==> Pending(c.phase)) && (c.started ==> d.started)
    && (d.phase.Queued? ==> c.phase.Queued?)
    && (d.phase.Started? ==> c.phase.Queued? || c.phase.Started?)
    && (d.phase.Active? ==> c.phase.Started? || c.phase.Active?)
    && (d.phase.Returned? ==> c.phase.Active? || c.phase.Returned?)
    && (d.phase.Discarding? ==> c.phase.Dropped? || c.phase.Discarding?)
  }

  lemma {:induction false} CallingPhase(s: State, step: Step)
    requires Enabled(s, step) && Calling(step)
    ensures step.id in s.calls && step.id in Apply(s, step).calls
    ensures MovesOn(s.calls[step.id], Apply(s, step).calls[step.id])
    ensures step.SettleLocked? ==> Pending(s.calls[step.id].phase) && Apply(s, step).calls[step.id].phase == Discarded
    ensures Apply(s, step).calls[step.id].phase.Dropped? ==> step.Drop? || s.calls[step.id].phase.Dropped?
    ensures Apply(s, step).calls[step.id].phase.Active? ==> step.Activate? || s.calls[step.id].phase.Active?
  {}

  lemma {:induction false} CallingActive(s: State, step: Step)
    requires Enabled(s, step) && Calling(step)
    ensures !step.SettleLocked? ==> s.core.active <= Apply(s, step).core.active
    ensures step.Activate? ==> s.calls[step.id].gen in Apply(s, step).core.active
    ensures step.SettleLocked? ==> Apply(s, step).core.active == s.core.active - {s.calls[step.id].gen}
  {}

  lemma {:induction false} IdleActive(s: State, step: Step)
    requires Enabled(s, step) && !step.RunSafe? && !Calling(step)
    ensures Apply(s, step).core.active == s.core.active
  {}

  // ---- health ----

  predicate NoReset(steps: seq<Step>) { forall step :: step in steps ==> !step.Reset? }

  lemma {:induction false} UnhealthyStep(s: State, step: Step)
    requires !s.core.healthy && Enabled(s, step) && !step.Reset?
    ensures !Apply(s, step).core.healthy && Apply(s, step).core.pending <= s.core.pending
    ensures Apply(s, step).calls.Keys == s.calls.Keys && Apply(s, step).tokens.Keys == s.tokens.Keys
    ensures Apply(s, step).core.lastId == s.core.lastId
  {
    if !step.RunSafe? {
      if Calling(step) { CallingKeys(s, step); } else { IdleCalls(s, step); }
      ClosingKept(s, step);
    }
  }

  // An unhealthy executor admits nothing before it is reset.
  lemma {:induction false} UnhealthyAdmitsNothing(s: State, steps: seq<Step>)
    requires !s.core.healthy && Feasible(s, steps) && NoReset(steps)
    ensures !Run(s, steps).core.healthy && Run(s, steps).core.pending <= s.core.pending
    ensures Run(s, steps).calls.Keys == s.calls.Keys && Run(s, steps).tokens.Keys == s.tokens.Keys
    ensures Run(s, steps).core.lastId == s.core.lastId
    decreases |steps|
  {
    if steps != [] {
      assert steps[0] in steps && forall step :: step in steps[1..] ==> step in steps;
      UnhealthyStep(s, steps[0]);
      UnhealthyAdmitsNothing(Apply(s, steps[0]), steps[1..]);
    }
  }

  // After a watchdog timeout no call is admitted until a reset.
  lemma {:induction false} TimeoutStopsAdmission(s: State, id: Id, steps: seq<Step>)
    requires Enabled(s, Timeout(id)) && Feasible(s, [Timeout(id)] + steps) && NoReset(steps)
    ensures var later := Run(s, [Timeout(id)] + steps);
            later.calls.Keys == s.calls.Keys && later.tokens.Keys == s.tokens.Keys
            && later.core.pending <= s.core.pending && later.core.lastId == s.core.lastId
  {
    assert ([Timeout(id)] + steps)[1..] == steps;
    UnhealthyAdmitsNothing(Apply(s, Timeout(id)), steps);
  }

  // Nor after a submission that failed because its pool's worker never started.
  lemma {:induction false} BrokenPoolStopsAdmission(s: State, id: Id, steps: seq<Step>)
    requires At(s, id, Dropped(true)) && s.calls[id].hooked
    requires Feasible(s, [RunHook(id)] + steps) && NoReset(steps)
    ensures var later := Run(s, [RunHook(id)] + steps);
            later.calls.Keys == s.calls.Keys && later.tokens.Keys == s.tokens.Keys
            && later.core.pending <= s.core.pending && later.core.lastId == s.core.lastId
  {
    assert ([RunHook(id)] + steps)[1..] == steps;
    CallingKeys(s, RunHook(id));
    ClosingKept(s, RunHook(id));
    UnhealthyAdmitsNothing(Apply(s, RunHook(id)), steps);
  }

  // A reset opens an executor that is not closing: the next call is admitted,
  // pending under its owner.
  lemma {:induction false} ResetAdmits(s: State, owner: Option<Task>)
    requires Reachable(s) && !s.core.closing
    ensures var steps := [ExecutorProtocol.Reset, RunSafe(owner, true)];
            var id := s.core.lastId + 1;
            Feasible(s, steps) && id !in s.calls
            && var later := Run(s, steps);
               later.calls.Keys == s.calls.Keys + {id} && later.tokens.Keys == s.tokens.Keys + {id}
               && later.core.pending == s.core.pending + {id} && later.ownerOf == s.ownerOf[id := owner]
  {
    ReachableInv(s);
    TwoSteps(s, ExecutorProtocol.Reset, RunSafe(owner, true));
  }

  // ---- closing ----

  // Either shutdown step closes admission.
  lemma {:induction false} ShutdownCloses(s: State, step: Step, steps: seq<Step>)
    requires step == ExecutorProtocol.BeginShutdown || step == ShutdownIfSettled
    requires Feasible(s, [step] + steps)
    ensures var later := Run(s, [step] + steps);
            later.calls.Keys == s.calls.Keys && later.tokens.Keys == s.tokens.Keys
            && later.core.pending <= s.core.pending && later.core.closing
  {
    assert ([step] + steps)[1..] == steps;
    IdleCalls(s, step);
    ClosingKept(s, step);
    ClosingIsFinal(Apply(s, step), steps);
  }

  lemma {:induction false} ClosingStep(s: State, step: Step)
    requires s.core.closing && Enabled(s, step)
    ensures Apply(s, step).core.closing && Apply(s, step).core.pending <= s.core.pending
    ensures Apply(s, step).calls.Keys == s.calls.Keys && Apply(s, step).tokens.Keys == s.tokens.Keys
    ensures Apply(s, step).core.lastId == s.core.lastId
  {
    if !step.RunSafe? {
      if Calling(step) { CallingKeys(s, step); } else { IdleCalls(s, step); }
      ClosingKept(s, step);
    }
  }

  lemma {:induction false} ClosingKept(s: State, step: Step)
    requires Enabled(s, step) && !step.RunSafe?
    ensures s.core.closing ==> Apply(s, step).core.closing
    ensures Apply(s, step).core.pending <= s.core.pending
  {}

  // After begin_shutdown no call is admitted, resets included, and the pending set only shrinks.
  lemma {:induction false} ClosingIsFinal(s: State, steps: seq<Step>)
    requires s.core.closing && Feasible(s, steps)
    ensures Run(s, steps).core.closing && Run(s, steps).core.pending <= s.core.pending
    ensures Run(s, steps).calls.Keys == s.calls.Keys && Run(s, steps).tokens.Keys == s.tokens.Keys
    decreases |steps|
  {
    if steps != [] {
      ClosingStep(s, steps[0]);
      ClosingIsFinal(Apply(s, steps[0]), steps[1..]);
    }
  }

  lemma {:induction false} SettledIsNotPending(s: State, id: Id)
    requires Inv(s) && id in s.tokens
    ensures s.tokens[id].settled ==> id !in s.core.pending
  {
    assert TokenOk(s.calls[id].phase, s.tokens[id]);
  }

  // wait_for_settlements returning True after closing means nothing is pending
  // in any later state, so shutdown_if_settled has nothing to raise about.
  lemma {:induction false} DrainedForGood(s: State, w: nat, steps: seq<Step>)
    requires Reachable(s) && w in s.waiters && s.waiters[w].pc == Done(true) && s.waiters[w].closedAtStart
    requires Feasible(s, steps)
    ensures Run(s, steps).core.pending == {} && PendingUnsettled(Run(s, steps)) == {}
  {
    ReachableInv(s);
    assert WaiterOk(s.tokens, w, s.waiters[w]);
    forall id | id in s.waiters[w].tokens ensures id !in s.core.pending {
      SettledIsNotPending(s, id);
    }
    ClosingIsFinal(s, steps);
  }

  ghost predicate EmptyForGood(s: State) {
    forall steps :: Feasible(s, steps) ==> Run(s, steps).core.pending == {}
  }

  // Nothing is pending now and in every later state exactly when nothing is
  // pending and admission is closed: an open executor, reset if need be, can
  // always admit another call.
  lemma {:induction false} EmptyForGoodWhenClosed(s: State)
    requires Reachable(s)
    ensures EmptyForGood(s) <==> s.core.closing && s.core.pending == {}
  {
    assert Feasible(s, []) && Run(s, []) == s;
    if !s.core.closing {
      var steps := OpenAdmits(s);
    } else if s.core.pending == {} {
      forall steps | Feasible(s, steps) ensures Run(s, steps).core.pending == {} { ClosingIsFinal(s, steps); }
    }
  }

  // From an open state a reset followed by a call leaves that call pending.
  lemma {:induction false} OpenAdmits(s: State) returns (steps: seq<Step>)
    requires Reachable(s) && !s.core.closing
    ensures Feasible(s, steps) && Run(s, steps).core.pending != {}
  {
    ReachableInv(s);
    var s1 := Apply(s, ExecutorProtocol.Reset);
    assert Enabled(s1, RunSafe(None, true));
    var s2 := Apply(s1, RunSafe(None, true));
    assert s1.core.lastId + 1 in s2.core.pending;
    steps := [ExecutorProtocol.Reset, RunSafe(None, true)];
    TwoSteps(s, steps[0], steps[1]);
  }

  lemma {:induction false} TwoSteps(s: State, first: Step, second: Step)
    requires Enabled(s, first) && Enabled(Apply(s, first), second)
    ensures Feasible(s, [first, second]) && Run(s, [first, second]) == Apply(Apply(s, first), second)
  {
    var s1, s2 := Apply(s, first), Apply(Apply(s, first), second);
    assert Feasible(s2, []) && Run(s2, []) == s2;
    PrependStep(s1, second, []);
    PrependStep(s, first, [second]);
    assert [second] + [] == [second] && [first] + [second] == [first, second];
  }

  // A True of wait_for_settlements, whenever its wait began, lasts from state s
  // on exactly when admission is closed and every pending call is one it
  // waited for: no call was admitted between its start and the closing.
  lemma {:induction false} WaitLastsWhenClosed(s: State, w: nat)
    requires Reachable(s) && w in s.waiters && s.waiters[w].pc == Done(true)
    ensures EmptyForGood(s) <==> s.core.closing && s.core.pending <= s.waiters[w].tokens
  {
    ReachableInv(s);
    assert WaiterOk(s.tokens, w, s.waiters[w]);
    forall id | id in s.waiters[w].tokens ensures id !in s.core.pending { SettledIsNotPending(s, id); }
    EmptyForGoodWhenClosed(s);
  }

  // An unclosed wait can succeed and be overtaken.
  lemma {:induction false} WaitWithoutClosingIsStale()
    ensures exists s: State, w :: Reachable(s) && w in s.waiters && s.waiters[w].pc == Done(true)
                                  && PendingUnsettled(s) != {}
  {
    var s1 := Apply(START, StartWait(0));
    assert PendingUnsettled(START) == {};
    var s2 := Apply(s1, RunSafe(None, true));
    TwoSteps(START, StartWait(0), RunSafe(None, true));
    assert Reachable(s2);
    assert 1 in PendingUnsettled(s2);
    assert 0 in s2.waiters && s2.waiters[0].pc == Done(true);
  }

  // When shutdown_if_settled does not raise, no submitted call is still queued
  // or waiting for its completion callback, in any generation.  Cancelling the
  // queue under the state lock therefore never re-enters that lock.
  lemma {:induction false} ShutdownCancelsNothing(s: State, id: Id)
    requires Reachable(s) && PendingUnsettled(s) == {} && id in s.calls
    ensures !Pending(s.calls[id].phase)
  {
    ReachableInv(s);
    assert TokenOk(s.calls[id].phase, s.tokens[id]);
    assert id !in PendingUnsettled(s);
  }

  // ---- first come, first served ----

  // Once a call of a generation has started, no earlier one is still queued.
  ghost predicate InOrder(calls: map<Id, Call>) {
    forall a, b | a in calls && b in calls && a < b ::
      calls[a].gen == calls[b].gen && calls[b].started ==> !calls[a].phase.Queued?
  }

  lemma {:induction false} OrderStep(s: State, step: Step)
    requires IdsOk(s.core.lastId, s.calls.Keys) && InOrder(s.calls) && Enabled(s, step)
    ensures InOrder(Apply(s, step).calls)
  {
    if step.RunSafe? {
      OrderAdmit(s, step.owner, step.submitted);
    } else if Calling(step) {
      CallingKeys(s, step);
      CallingPhase(s, step);
      StartedByTake(s, step);
    } else {
      IdleCalls(s, step);
    }
  }

  lemma {:induction false} OrderAdmit(s: State, owner: Option<Task>, submitted: bool)
    requires IdsOk(s.core.lastId, s.calls.Keys) && InOrder(s.calls) && Enabled(s, RunSafe(owner, submitted))
    ensures InOrder(Apply(s, RunSafe(owner, submitted)).calls)
  {}

  // Only Take starts a call, and it takes the first one queued.
  lemma {:induction false} StartedByTake(s: State, step: Step)
    requires Enabled(s, step) && Calling(step)
    ensures step.id in s.calls && step.id in Apply(s, step).calls
    ensures Apply(s, step).calls[step.id].started ==> s.calls[step.id].started || step.Take?
    ensures step.Take? ==> forall a :: a in s.calls && a < step.id && s.calls[a].gen == s.calls[step.id].gen ==>
              !s.calls[a].phase.Queued?
  {}

  lemma {:induction false} OrderRun(s: State, steps: seq<Step>)
    requires Inv(s) && InOrder(s.calls) && Feasible(s, steps)
    ensures InOrder(Run(s, steps).calls)
    decreases |steps|
  {
    if steps != [] {
      OrderStep(s, steps[0]);
      StepInv(s, steps[0]);
      OrderRun(Apply(s, steps[0]), steps[1..]);
    }
  }

  // Calls of one generation start in the order they were admitted.
  lemma {:induction false} StartedInOrder(s: State, a: Id, b: Id)
    requires Reachable(s) && a in s.calls && b in s.calls && a < b
    requires s.calls[a].gen == s.calls[b].gen && s.calls[b].started
    ensures !s.calls[a].phase.Queued?
  {
    var steps :| Feasible(START, steps) && Run(START, steps) == s;
    StartInv();
    OrderRun(START, steps);
  }

  // ---- wake-ups ----

  // A blocked waiter whose event is clear and whose calls have all settled has
  // a wake-up scheduled, or a settled token is about to call its callback.
  lemma {:induction false} NoLostWakeup(s: State, w: nat)
    requires Reachable(s) && w in s.waiters && s.waiters[w].pc.Blocked? && !s.waiters[w].event
    requires AllSettled(s.tokens, s.waiters[w].tokens)
    ensures s.waiters[w].soon > 0
      || exists id :: id in s.waiters[w].tokens && id in s.tokens && Wake(w) in s.tokens[id].firing && At(s, id, Firing)
  {
    ReachableInv(s);
    assert WaiterOk(s.tokens, w, s.waiters[w]);
    if s.waiters[w].soon == 0 {
      var id :| id in s.waiters[w].tokens && WakePromised(s.tokens, w, id);
      assert TokenOk(s.calls[id].phase, s.tokens[id]);
    }
  }

  lemma {:induction false} WaitTrueMeansSettled(s: State, w: nat, id: Id)
    requires Reachable(s) && w in s.waiters && s.waiters[w].pc == Done(true) && id in s.waiters[w].tokens
    ensures id in s.tokens && s.tokens[id].settled
  {
    ReachableInv(s);
    assert WaiterOk(s.tokens, w, s.waiters[w]);
  }

  lemma {:induction false} AppendStep(s: State, steps: seq<Step>, step: Step)
    requires Feasible(s, steps) && Enabled(Run(s, steps), step)
    ensures Feasible(s, steps + [step]) && Run(s, steps + [step]) == Apply(Run(s, steps), step)
    decreases |steps|
  {
    if steps == [] {
      assert [step][1..] == [];
      assert Feasible(Apply(s, step), []);
    } else {
      AppendStep(Apply(s, steps[0]), steps[1..], step);
      assert (steps + [step])[1..] == steps[1..] + [step];
    }
  }

  lemma {:induction false} ReachStep(s: State, step: Step)
    requires Reachable(s) && Enabled(s, step)
    ensures Reachable(Apply(s, step))
  {
    var steps :| Feasible(START, steps) && Run(START, steps) == s;
    AppendStep(START, steps, step);
  }

  // ---- previous_worker_retiring ----

  lemma {:induction false} RetiringIsTrue(s: State)
    requires Reachable(s) && Retiring(s.core)
    ensures exists id, g: nat :: Running(s.calls, id, g) && g < s.core.generation
  {
    ReachableInv(s);
    var g :| g in s.core.active && g != s.core.generation;
    var id :| Running(s.calls, id, g);
    assert CallOk(s.calls[id], s.core.generation);
  }

  // Without cancelled submissions the flag is exact.
  ghost predicate NothingDropped(s: State) {
    forall id :: id in s.calls ==> !s.calls[id].phase.Dropped? && !s.calls[id].phase.Discarding?
  }

  ghost predicate ActiveComplete(s: State) {
    forall id :: id in s.calls && (s.calls[id].phase.Active? || s.calls[id].phase.Returned?) ==>
      s.calls[id].gen in s.core.active
  }

  predicate NoDrops(steps: seq<Step>) { forall step :: step in steps ==> !step.Drop? }

  lemma {:induction false} CompleteStep(s: State, step: Step)
    requires NothingDropped(s) && ActiveComplete(s) && Enabled(s, step) && !step.Drop?
    requires OneWorker(s.calls) && CallsOk(s.calls, s.core.generation)
    ensures NothingDropped(Apply(s, step)) && ActiveComplete(Apply(s, step))
  {
    if step.RunSafe? {
      CompleteAdmit(s, step.owner, step.submitted);
    } else if Calling(step) {
      CompleteCalling(s, step);
    } else {
      IdleCalls(s, step);
      IdleActive(s, step);
    }
  }

  lemma {:induction false} CompleteAdmit(s: State, owner: Option<Task>, submitted: bool)
    requires NothingDropped(s) && ActiveComplete(s) && Enabled(s, RunSafe(owner, submitted))
    ensures var s' := Apply(s, RunSafe(owner, submitted)); NothingDropped(s') && ActiveComplete(s')
  {}

  lemma {:induction false} CompleteCalling(s: State, step: Step)
    requires NothingDropped(s) && ActiveComplete(s) && Enabled(s, step) && Calling(step) && !step.Drop?
    requires OneWorker(s.calls) && CallsOk(s.calls, s.core.generation)
    ensures NothingDropped(Apply(s, step)) && ActiveComplete(Apply(s, step))
  {
    var s', id := Apply(s, step), step.id;
    CallingKeys(s, step);
    CallingPhase(s, step);
    CallingActive(s, step);
    assert CallOk(s.calls[id], s.core.generation) && MovesOn(s.calls[id], s'.calls[id]);
    forall k | k in s'.calls && (s'.calls[k].phase.Active? || s'.calls[k].phase.Returned?)
      ensures s'.calls[k].gen in s'.core.active
    {
      assert CallOk(s.calls[k], s.core.generation);
      if step.SettleLocked? && k != id { assert WorkerBusy(s.calls[k]) && WorkerBusy(s.calls[id]); }
    }
  }

  lemma {:induction false} CompleteRun(s: State, steps: seq<Step>)
    requires Inv(s) && NothingDropped(s) && ActiveComplete(s) && Feasible(s, steps) && NoDrops(steps)
    ensures ActiveComplete(Run(s, steps))
    decreases |steps|
  {
    if steps != [] {
      CompleteStep(s, steps[0]);
      StepInv(s, steps[0]);
      CompleteRun(Apply(s, steps[0]), steps[1..]);
    }
  }

  lemma {:induction false} RetiringExactWithoutDrops(steps: seq<Step>)
    requires Feasible(START, steps) && NoDrops(steps)
    ensures Retiring(Run(START, steps).core)
      <==> exists id, g: nat :: Running(Run(START, steps).calls, id, g) && g != Run(START, steps).core.generation
  {
    StartInv();
    CompleteRun(START, steps);
    var s := Run(START, steps);
    if Retiring(s.core) { RetiringIsTrue(s); }
    if id, g: nat :| Running(s.calls, id, g) && g != s.core.generation {
      assert g in s.core.active;
    }
  }

  // ---- exactly when the flag can be relied on ----

  // No other call of generation g is still pending.
  ghost predicate Alone(calls: map<Id, Call>, id: Id, g: nat) {
    forall k :: k in calls && calls[k].gen == g && Pending(calls[k].phase) ==> k == id
  }

  // As long as this call runs its generation stays active, whatever happens.
  ghost predicate StaysActive(s: State, id: Id, g: nat) {
    forall steps :: Feasible(s, steps) && Running(Run(s, steps).calls, id, g) ==> g in Run(s, steps).core.active
  }

  // What such a call keeps until it has returned and been discarded.
  ghost predicate Guarded(calls: map<Id, Call>, active: set<nat>, generation: nat, id: Id, g: nat) {
    && id in calls && calls[id].gen == g && !calls[id].phase.Queued? && !calls[id].phase.Started?
    && g < generation && (Running(calls, id, g) ==> g in active)
    && Alone(calls, id, g)
  }

  ghost predicate GuardedIn(s: State, id: Id, g: nat) { Guarded(s.calls, s.core.active, s.core.generation, id, g) }

  lemma {:induction false} GuardedStep(s: State, step: Step, id: Id, g: nat)
    requires Inv(s) && GuardedIn(s, id, g) && Enabled(s, step)
    ensures GuardedIn(Apply(s, step), id, g)
  {
    if step.RunSafe? {
      GuardedAdmit(s, step.owner, step.submitted, id, g);
    } else if Calling(step) {
      GuardedCalling(s, step, id, g);
    } else {
      IdleCalls(s, step);
      IdleActive(s, step);
    }
  }

  lemma {:induction false} GuardedAdmit(s: State, owner: Option<Task>, submitted: bool, id: Id, g: nat)
    requires IdsOk(s.core.lastId, s.calls.Keys) && GuardedIn(s, id, g) && Enabled(s, RunSafe(owner, submitted))
    ensures GuardedIn(Apply(s, RunSafe(owner, submitted)), id, g)
  {}

  lemma {:induction false} GuardedCalling(s: State, step: Step, id: Id, g: nat)
    requires GuardedIn(s, id, g) && Enabled(s, step) && Calling(step)
    ensures GuardedIn(Apply(s, step), id, g)
  {
    var s' := Apply(s, step);
    CallingKeys(s, step);
    CallingPhase(s, step);
    CallingActive(s, step);
    GuardedUpdate(s.calls, s'.calls, s.core.active, s'.core.active, s.core.generation, step.id, step.SettleLocked?,
      id, g);
  }

  // One call c moves on; only when it is discarded does its generation stop
  // being active.
  lemma {:induction false} GuardedUpdate(calls: map<Id, Call>, calls': map<Id, Call>, active: set<nat>,
          active': set<nat>, generation: nat, c: Id, discarded: bool, id: Id, g: nat)
    requires Guarded(calls, active, generation, id, g) && c in calls && calls'.Keys == calls.Keys
    requires MovesOn(calls[c], calls'[c]) && forall k :: k in calls && k != c ==> calls'[k] == calls[k]
    requires if discarded then Pending(calls[c].phase) && calls'[c].phase == Discarded
      && active' == active - {calls[c].gen}
             else active <= active'
    ensures Guarded(calls', active', generation, id, g)
  {}

  lemma {:induction false} GuardedRun(s: State, steps: seq<Step>, id: Id, g: nat)
    requires Inv(s) && GuardedIn(s, id, g) && Feasible(s, steps)
    ensures GuardedIn(Run(s, steps), id, g)
    decreases |steps|
  {
    if steps != [] {
      GuardedStep(s, steps[0], id, g);
      StepInv(s, steps[0]);
      GuardedRun(Apply(s, steps[0]), steps[1..], id, g);
    }
  }

  // A call k of the running call's generation that is still pending can be
  // dropped and discarded, which clears the generation.
  lemma {:induction false} DropQueued(s: State, id: Id, g: nat, k: Id) returns (steps: seq<Step>)
    requires Inv(s) && Running(s.calls, id, g) && k != id
    requires k in s.calls && s.calls[k].gen == g && Pending(s.calls[k].phase)
    ensures Feasible(s, steps) && Running(Run(s, steps).calls, id, g) && g !in Run(s, steps).core.active
    decreases DropLeft(s.calls[k], s.shut)
  {
    var step := DropStep(s, id, g, k);
    var s', rest: seq<Step> := Apply(s, step), [];
    if !step.SettleLocked? {
      StepInv(s, step);
      rest := DropQueued(s', id, g, k);
    }
    PrependStep(s, step, rest);
    steps := [step] + rest;
  }

  function DropLeft(c: Call, shut: set<nat>): nat {
    match c.phase
    case Queued => if c.gen in shut then 3 else 4
    case Dropped(_) => if c.hooked then 1 else 2
    case _ => 0
  }

  // The next step towards discarding k leaves the running call alone.
  lemma {:induction false} DropStep(s: State, id: Id, g: nat, k: Id) returns (step: Step)
    requires Inv(s) && Running(s.calls, id, g) && k != id
    requires k in s.calls && s.calls[k].gen == g && Pending(s.calls[k].phase)
    ensures Enabled(s, step) && Running(Apply(s, step).calls, id, g)
    ensures k in Apply(s, step).calls && Apply(s, step).calls[k].gen == g
    ensures if step.SettleLocked? then g !in Apply(s, step).core.active
            else Pending(Apply(s, step).calls[k].phase)
                 && DropLeft(Apply(s, step).calls[k], Apply(s, step).shut) < DropLeft(s.calls[k], s.shut)
  {
    assert CallOk(s.calls[k], s.core.generation) && CallOk(s.calls[id], s.core.generation);
    assert WorkerBusy(s.calls[id]);
    match s.calls[k].phase
    case Queued => step := if g in s.shut then Drop(k, false) else ShutPool(g);
    case Dropped(_) => step := if s.calls[k].hooked then RunHook(k) else Hook(k);
    case _ => step := SettleLocked(k);
  }

  // While a call of an older generation runs, the flag can be relied on from
  // state s on, whatever is dropped or reset later, exactly when no other call
  // of that generation is still pending.
  lemma {:induction false} RetiringStaysWhenAlone(s: State, id: Id, g: nat)
    requires Reachable(s) && Running(s.calls, id, g) && g in s.core.active && g < s.core.generation
    ensures StaysActive(s, id, g) <==> Alone(s.calls, id, g)
    ensures Alone(s.calls, id, g) ==> forall steps :: Feasible(s, steps) && Running(Run(s, steps).calls, id, g) ==>
              Retiring(Run(s, steps).core)
  {
    ReachableInv(s);
    if Alone(s.calls, id, g) {
      forall steps | Feasible(s, steps) && Running(Run(s, steps).calls, id, g)
        ensures g in Run(s, steps).core.active && Retiring(Run(s, steps).core)
      {
        GuardedRun(s, steps, id, g);
      }
    } else {
      var k :| k in s.calls && s.calls[k].gen == g && Pending(s.calls[k].phase) && k != id;
      var steps := DropQueued(s, id, g, k);
    }
  }

  const BUSY := Call(0, Active, true, false)

  lemma {:induction false} OneQueued() returns (s: State)
    ensures Reachable(s) && s.core == Core(true, false, 0, {}, 1, {1}, map[]) && s.shut == {} && s.broken == {}
    ensures s.calls == map[1 := Call(0, Queued, false, false)] && s.tokens.Keys == {1} && s.ownerOf == map[1 := None]
  {
    assert Feasible(START, []) && Run(START, []) == START;
    ReachStep(START, RunSafe(None, true));
    s := Apply(START, RunSafe(None, true));
  }

  lemma {:induction false} OneRunning() returns (s: State)
    ensures Reachable(s) && s.core == Core(true, false, 0, {0}, 1, {1}, map[]) && s.shut == {} && s.broken == {}
    ensures s.calls == map[1 := BUSY] && s.tokens.Keys == {1} && s.ownerOf == map[1 := None]
  {
    s := OneQueued();
    ReachStep(s, Take(1));
    s := Apply(s, Take(1));
    ReachStep(s, Activate(1));
    s := Apply(s, Activate(1));
  }

  // A call runs in generation 0 with a second one queued behind it.
  lemma {:induction false} QueuedBehindRunning() returns (s: State)
    ensures Reachable(s) && s.core == Core(true, false, 0, {0}, 2, {1, 2}, map[]) && s.shut == {} && s.broken == {}
    ensures s.calls == map[1 := BUSY, 2 := Call(0, Queued, false, false)]
    ensures s.tokens.Keys == {1, 2} && s.ownerOf == map[1 := None, 2 := None]
  {
    s := OneRunning();
    ReachStep(s, RunSafe(None, true));
    s := Apply(s, RunSafe(None, true));
  }

  // reset drops the queued call.
  lemma {:induction false} DroppedBehindRunning() returns (s: State)
    ensures Reachable(s) && s.core.generation == 1 && s.core.active == {0} && s.core.healthy
    ensures s.calls == map[1 := BUSY, 2 := Call(0, Dropped(false), false, true)]
    ensures s.tokens.Keys == {1, 2} && s.ownerOf == map[1 := None, 2 := None]
  {
    s := QueuedBehindRunning();
    ReachStep(s, Hook(2));
    s := Apply(s, Hook(2));
    ReachStep(s, Reset);
    s := Apply(s, Reset);
    ReachStep(s, ShutPool(0));
    s := Apply(s, ShutPool(0));
    ReachStep(s, Drop(2, false));
    s := Apply(s, Drop(2, false));
  }

  // In general the flag can be false while a call of an older generation runs:
  // reset cancels the queued call, and discarding it clears the generation.
  lemma {:induction false} RetiringCanMissARunningCall()
    ensures exists s: State, id, g: nat ::
              Reachable(s) && !Retiring(s.core) && Running(s.calls, id, g) && g < s.core.generation
  {
    var s := DroppedBehindRunning();
    ReachStep(s, RunHook(2));
    s := Apply(s, RunHook(2));
    ReachStep(s, SettleLocked(2));
    s := Apply(s, SettleLocked(2));
    assert !Retiring(s.core) && Running(s.calls, 1, 0);
  }
}
