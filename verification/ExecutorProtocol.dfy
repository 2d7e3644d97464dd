// RobustExecutor as a step system: caller coroutines, one worker thread per
// generation, thread-pool shutdowns and settlement waiters interleave freely.
// Lock-protected sections and await-free stretches are single steps.
module ExecutorProtocol {
  import opened Options
  import opened ExecutorCore
  import opened SettlementTokens

  // A call from admission until its future's callbacks have run.
  //   Queued -> Started -> Active -> Returned -> Discarded -> Firing -> Finished   (worker ran it)
  //   Queued -> Dropped -> Discarding -> Discarded -> Firing -> Finished           (cancelled, or the pool broke)
  datatype Phase =
    | Queued | Started | Active | Returned
    | Dropped(failed: bool) | Discarding
    | Discarded | Firing | Finished

  datatype Call = Call(gen: nat, phase: Phase, started: bool, hooked: bool)

  datatype WaitPc = Hooking | Test | Clear | Retest | Blocked | Done(ok: bool)

  // One wait_for_settlements coroutine: `soon` counts scheduled event.set calls.
  datatype Waiter = Waiter(tokens: set<Id>, toHook: set<Id>, event: bool, soon: nat, pc: WaitPc, closedAtStart: bool)

  datatype State = State(
    core: Core,
    calls: map<Id, Call>,
    tokens: map<Id, Token>,
    ownerOf: map<Id, Option<Task>>,
    waiters: map<nat, Waiter>,
    shut: set<nat>,      // generations whose pool was shut down
    broken: set<nat>)    // generations whose worker initializer failed

  datatype Step =
    | RunSafe(owner: Option<Task>, submitted: bool)
    | Hook(id: Id)
    | Take(id: Id)
    | Activate(id: Id)
    | Return(id: Id)
    | Drop(id: Id, failed: bool)
    | RunHook(id: Id)
    | SettleLocked(id: Id)
    | SettleSignal(id: Id)
    | FireNext(id: Id)
    | Finish(id: Id)
    | AddCallback(id: Id, tag: nat)
    | Timeout(id: Id)
    | Reset
    | ShutPool(gen: nat)
    | BreakPool(gen: nat)
    | BeginShutdown
    | ShutdownIfSettled
    | StartWait(w: nat)
    | HookWait(w: nat, id: Id)
    | WaitTurn(w: nat)
    | RunSoon(w: nat)
    | WaitTimeout(w: nat)

  const START := State(EMPTY, map[], map[], map[], map[], {}, {})

  predicate Pending(p: Phase) {
    p.Queued? || p.Started? || p.Active? || p.Returned? || p.Dropped? || p.Discarding?
  }

  predicate AllSettled(tokens: map<Id, Token>, ids: set<Id>) {
    forall id :: id in ids && id in tokens ==> tokens[id].settled
  }

  predicate At(s: State, id: Id, p: Phase) { id in s.calls && s.calls[id].phase == p }

  predicate WorkerBusy(c: Call) { c.started && c.phase != Finished }

  predicate WorkerIdle(s: State, gen: nat) {
    forall id :: id in s.calls && s.calls[id].gen == gen ==> !WorkerBusy(s.calls[id])
  }

  predicate CanTurn(v: Waiter) {
    match v.pc
    case Hooking => v.toHook == {}
    case Blocked => v.event
    case Done(_) => false
    case _ => true
  }

  predicate Enabled(s: State, step: Step) {
    match step
    case RunSafe(_, submitted) => submitted ==> s.core.generation !in s.shut + s.broken
    case Hook(id) => id in s.calls && !s.calls[id].hooked && s.calls[id].phase != Finished
    case Take(id) =>
      && At(s, id, Queued) && s.calls[id].gen !in s.broken && WorkerIdle(s, s.calls[id].gen)
      && forall other ::
           other in s.calls && other < id && s.calls[other].gen == s.calls[id].gen ==> s.calls[other].phase != Queued
    case Activate(id) => At(s, id, Started)
    case Return(id) => At(s, id, Active)
    case Drop(id, failed) => At(s, id, Queued) && s.calls[id].gen in (if failed then s.broken else s.shut)
    case RunHook(id) => id in s.calls && s.calls[id].phase.Dropped? && s.calls[id].hooked
    case SettleLocked(id) => (At(s, id, Returned) || At(s, id, Discarding)) && id in s.ownerOf
    case SettleSignal(id) => At(s, id, Discarded) && id in s.tokens
    case FireNext(id) => At(s, id, Firing) && id in s.tokens && s.tokens[id].firing != []
    case Finish(id) => At(s, id, Firing) && id in s.tokens && s.tokens[id].firing == []
    case AddCallback(id, _) => id in s.tokens
    case Timeout(id) => id in s.calls
    case Reset => true
    case ShutPool(gen) => gen <= s.core.generation
    case BreakPool(gen) => gen <= s.core.generation
      && forall id :: id in s.calls && s.calls[id].gen == gen ==> !s.calls[id].started
    case BeginShutdown => true
    case ShutdownIfSettled => true
    case StartWait(w) => w !in s.waiters
    case HookWait(w, id) => w in s.waiters && id in s.waiters[w].toHook && id in s.tokens
    case WaitTurn(w) =>
      w in s.waiters && CanTurn(s.waiters[w])
    case RunSoon(w) => w in s.waiters && s.waiters[w].soon > 0
    case WaitTimeout(w) => w in s.waiters && !s.waiters[w].pc.Hooking? && !s.waiters[w].pc.Done?
  }

  function MoveTo(s: State, id: Id, p: Phase): State
    requires id in s.calls
  {
    s.(calls := s.calls[id := s.calls[id].(phase := p)])
  }

  function NewCall(s: State, c: Core, id: Id, owner: Option<Task>, p: Phase, t: Token): State {
    s.(core := c, calls := s.calls[id := Call(c.generation, p, false, false)], tokens := s.tokens[id := t],
       ownerOf := s.ownerOf[id := owner])
  }

  // Calling a waiter's callback schedules a wake-up on its event loop.
  function Called(ws: map<nat, Waiter>, cb: Callback): map<nat, Waiter> {
    if cb.Wake? && cb.waiter in ws then ws[cb.waiter := ws[cb.waiter].(soon := ws[cb.waiter].soon + 1)] else ws
  }

  function AddTo(s: State, id: Id, cb: Callback): State
    requires id in s.tokens
  {
    var t := s.tokens[id];
    s.(tokens := s.tokens[id := Add(t, cb)], waiters := if t.settled then Called(s.waiters, cb) else s.waiters)
  }

  function PendingUnsettled(s: State): set<Id> {
    set id | id in s.core.pending && !(id in s.tokens && s.tokens[id].settled)
  }

  function Turn(tokens: map<Id, Token>, v: Waiter): Waiter {
    match v.pc
    case Hooking => v.(pc := Test)
    case Test => if AllSettled(tokens, v.tokens) then v.(pc := Done(true)) else v.(pc := Clear)
    case Clear => v.(event := false, pc := Retest)
    case Retest => if AllSettled(tokens, v.tokens) then v.(pc := Test) else v.(pc := Blocked)
    case Blocked => v.(pc := Test)
    case Done(_) => v
  }

  function Apply(s: State, step: Step): State
    requires Enabled(s, step)
  {
    match step
    case RunSafe(owner, submitted) =>
      (match Admit(s.core, owner, submitted)
       case (_, Closing) => s
       case (_, Unhealthy) => s
       case (c, SubmitFailed(id)) => NewCall(s, c, id, owner, Finished, Settle(FRESH))
       case (c, Admitted(id)) => NewCall(s, c, id, owner, Queued, FRESH))
    case Hook(id) => s.(calls := s.calls[id := s.calls[id].(hooked := true)])
    case Take(id) => s.(calls := s.calls[id := s.calls[id].(phase := Started, started := true)])
    case Activate(id) => MoveTo(s, id, Active).(core := ExecutorCore.Activate(s.core, s.calls[id].gen))
    case Return(id) => MoveTo(s, id, Returned)
    case Drop(id, failed) => MoveTo(s, id, Dropped(failed))
    case RunHook(id) =>
      MoveTo(s, id, Discarding).(core := if s.calls[id].phase.failed then MarkUnhealthy(s.core) else s.core)
    case SettleLocked(id) =>
      MoveTo(s, id, Discarded).(core := Discard(s.core, id, s.calls[id].gen, s.ownerOf[id]))
    case SettleSignal(id) => MoveTo(s, id, Firing).(tokens := s.tokens[id := Settle(s.tokens[id])])
    case FireNext(id) =>
      s.(tokens := s.tokens[id := Fire(s.tokens[id])], waiters := Called(s.waiters, s.tokens[id].firing[0]))
    case Finish(id) => MoveTo(s, id, Finished)
    case AddCallback(id, tag) => AddTo(s, id, Other(tag))
    case Timeout(_) => s.(core := MarkUnhealthy(s.core))
    case Reset => s.(core := ExecutorCore.Reset(s.core))
    case ShutPool(gen) => s.(shut := s.shut + {gen})
    case BreakPool(gen) => s.(broken := s.broken + {gen})
    case BeginShutdown => s.(core := ExecutorCore.BeginShutdown(s.core))
    case ShutdownIfSettled =>
      var s' := s.(core := ExecutorCore.BeginShutdown(s.core));
      if PendingUnsettled(s) == {} then s'.(shut := s.shut + {s.core.generation}) else s'
    case StartWait(w) =>
      var ids := PendingUnsettled(s);
      var pc := if ids == {} then Done(true) else Hooking;
      s.(waiters := s.waiters[w := Waiter(ids, ids, false, 0, pc, s.core.closing)])
    case HookWait(w, id) =>
      var v := s.waiters[w];
      AddTo(s.(waiters := s.waiters[w := v.(toHook := v.toHook - {id})]), id, Wake(w))
    case WaitTurn(w) => s.(waiters := s.waiters[w := Turn(s.tokens, s.waiters[w])])
    case RunSoon(w) => s.(waiters := s.waiters[w := s.waiters[w].(event := true, soon := s.waiters[w].soon - 1)])
    case WaitTimeout(w) => s.(waiters := s.waiters[w := s.waiters[w].(pc := Done(false))])
  }

  predicate Feasible(s: State, steps: seq<Step>)
    decreases |steps|
  {
    steps == [] || (Enabled(s, steps[0]) && Feasible(Apply(s, steps[0]), steps[1..]))
  }

  function Run(s: State, steps: seq<Step>): State
    requires Feasible(s, steps)
    decreases |steps|
  {
    if steps == [] then s else Run(Apply(s, steps[0]), steps[1..])
  }

  // ---- the invariant, one predicate per group of fields ----

  ghost predicate IdsOk(lastId: Id, ids: set<Id>) {
    forall id :: id in ids <==> 1 <= id <= lastId
  }

  ghost predicate PendingOk(pending: set<Id>, calls: map<Id, Call>) {
    forall id :: id in pending <==> id in calls && Pending(calls[id].phase)
  }

  ghost predicate Owns(pending: set<Id>, ownerOf: map<Id, Option<Task>>, o: Task, id: Id) {
    id in pending && id in ownerOf && ownerOf[id] == Some(o)
  }

  // tokens_by_owner is exactly the pending set grouped by owner, with no empty group.
  ghost predicate GroupsOk(pending: set<Id>, owners: map<Task, set<Id>>, ownerOf: map<Id, Option<Task>>) {
    && (forall o, id :: Owns(pending, ownerOf, o, id) <==> o in owners && id in owners[o])
    && (forall o :: o in owners ==> owners[o] != {})
  }

  ghost predicate CallOk(c: Call, generation: nat) {
    && (c.phase.Started? || c.phase.Active? || c.phase.Returned? ==> c.started)
    && (c.phase.Queued? || c.phase.Dropped? || c.phase.Discarding? ==> !c.started)
    && c.gen <= generation
  }

  ghost predicate CallsOk(calls: map<Id, Call>, generation: nat) {
    forall id :: id in calls ==> CallOk(calls[id], generation)
  }

  ghost predicate TokenOk(p: Phase, t: Token) {
    && Orderly(t)
    && (t.settled <==> p.Firing? || p.Finished?)
    && (p.Finished? ==> t.firing == [])
  }

  ghost predicate TokensOk(calls: map<Id, Call>, tokens: map<Id, Token>) {
    forall id :: id in calls && id in tokens ==> TokenOk(calls[id].phase, tokens[id])
  }

  ghost predicate ConservedOk(tokens: map<Id, Token>) {
    forall id :: id in tokens ==> Conserved(tokens[id])
  }

  // The pool of a generation has one worker.
  ghost predicate OneWorker(calls: map<Id, Call>) {
    forall a, b | a in calls && b in calls && WorkerBusy(calls[a]) && WorkerBusy(calls[b]) ::
      calls[a].gen == calls[b].gen ==> a == b
  }

  ghost predicate Running(calls: map<Id, Call>, id: Id, g: nat) {
    id in calls && calls[id].gen == g && (calls[id].phase.Active? || calls[id].phase.Returned?)
  }

  ghost predicate ActiveOk(active: set<nat>, calls: map<Id, Call>) {
    forall g :: g in active ==> exists id :: Running(calls, id, g)
  }

  ghost predicate WakePromised(tokens: map<Id, Token>, w: nat, id: Id) {
    id in tokens && (Wake(w) in tokens[id].waiting || Wake(w) in tokens[id].firing)
  }

  ghost predicate WaiterOk(tokens: map<Id, Token>, w: nat, v: Waiter) {
    && v.tokens <= tokens.Keys && v.toHook <= v.tokens
    && (!v.pc.Hooking? ==> v.toHook == {})
    && (forall id :: id in v.tokens && id !in v.toHook && !tokens[id].settled ==> Wake(w) in tokens[id].waiting)
    && (v.pc == Done(true) ==> AllSettled(tokens, v.tokens))
    && (v.pc.Blocked? ==> v.event || v.soon > 0 || exists id :: id in v.tokens && WakePromised(tokens, w, id))
  }

  ghost predicate WaitersOk(waiters: map<nat, Waiter>, tokens: map<Id, Token>) {
    forall w :: w in waiters ==> WaiterOk(tokens, w, waiters[w])
  }

  // A wait begun after closing watches everything still pending.
  ghost predicate ClosedOk(waiters: map<nat, Waiter>, closing: bool, pending: set<Id>) {
    forall w :: w in waiters && waiters[w].closedAtStart ==> closing && pending <= waiters[w].tokens
  }

  ghost predicate Books(s: State) {
    && s.tokens.Keys == s.calls.Keys == s.ownerOf.Keys
    && IdsOk(s.core.lastId, s.calls.Keys)
    && PendingOk(s.core.pending, s.calls)
    && GroupsOk(s.core.pending, s.core.owners, s.ownerOf)
  }

  ghost predicate Workers(s: State) {
    CallsOk(s.calls, s.core.generation) && OneWorker(s.calls) && ActiveOk(s.core.active, s.calls)
  }

  // Only pools of generations reached so far have been shut down or have broken.
  ghost predicate PoolsOk(shut: set<nat>, broken: set<nat>, generation: nat) {
    (forall g :: g in shut ==> g <= generation) && forall g :: g in broken ==> g <= generation
  }

  ghost predicate Signals(s: State) {
    && TokensOk(s.calls, s.tokens)
    && ConservedOk(s.tokens)
    && WaitersOk(s.waiters, s.tokens)
    && ClosedOk(s.waiters, s.core.closing, s.core.pending)
  }

  ghost predicate Inv(s: State) {
    Books(s) && Workers(s) && Signals(s) && PoolsOk(s.shut, s.broken, s.core.generation)
  }

  lemma {:induction false} PrependStep(s: State, step: Step, rest: seq<Step>)
    requires Enabled(s, step) && Feasible(Apply(s, step), rest)
    ensures Feasible(s, [step] + rest) && Run(s, [step] + rest) == Run(Apply(s, step), rest)
  {
    assert ([step] + rest)[1..] == rest;
  }

  lemma {:induction false} StartInv()
    ensures Inv(START)
  {}

  lemma {:induction false} StepPending(s: State, step: Step)
    requires PendingOk(s.core.pending, s.calls) && Enabled(s, step)
    requires IdsOk(s.core.lastId, s.calls.Keys)
    ensures PendingOk(Apply(s, step).core.pending, Apply(s, step).calls)
  {
    if step.RunSafe? {
      AdmitPending(s, step.owner, step.submitted);
    } else if Calling(step) {
      CallingKeys(s, step);
      CallingPending(s, step);
    } else {
      IdleCalls(s, step);
      IdlePending(s, step);
    }
  }

  // Only the discarding of a call takes it off the pending set.
  lemma {:induction false} CallingPending(s: State, step: Step)
    requires Enabled(s, step) && Calling(step)
    ensures step.id in s.calls && step.id in Apply(s, step).calls
    ensures Apply(s, step).core.pending == if step.SettleLocked? then s.core.pending - {step.id} else s.core.pending
    ensures Pending(Apply(s, step).calls[step.id].phase) == (Pending(s.calls[step.id].phase) && !step.SettleLocked?)
  {}

  lemma {:induction false} IdlePending(s: State, step: Step)
    requires Enabled(s, step) && !step.RunSafe? && !Calling(step)
    ensures Apply(s, step).core.pending == s.core.pending
  {}

  lemma {:induction false} AdmitPending(s: State, owner: Option<Task>, submitted: bool)
    requires PendingOk(s.core.pending, s.calls) && Enabled(s, RunSafe(owner, submitted))
    requires IdsOk(s.core.lastId, s.calls.Keys)
    ensures var s' := Apply(s, RunSafe(owner, submitted)); PendingOk(s'.core.pending, s'.calls)
  {}

  lemma {:induction false} StepGroups(s: State, step: Step)
    requires GroupsOk(s.core.pending, s.core.owners, s.ownerOf) && Enabled(s, step)
    requires s.core.lastId + 1 !in s.core.pending && s.core.pending <= s.ownerOf.Keys
    requires step.SettleLocked? ==> step.id in s.core.pending
    ensures GroupsOk(Apply(s, step).core.pending, Apply(s, step).core.owners, Apply(s, step).ownerOf)
  {
    match step
    case RunSafe(owner, submitted) =>
      var (c, r) := Admit(s.core, owner, submitted);
      if r.Admitted? {
        AddGroup(s.core.pending, s.core.owners, s.ownerOf, r.id, owner);
      } else if r.SubmitFailed? {
        IgnoreOwner(s.core.pending, s.core.owners, s.ownerOf, r.id, owner);
      }
    case SettleLocked(id) => DropGroup(s.core.pending, s.core.owners, s.ownerOf, id);
    case _ =>
  }

  lemma {:induction false} StepBooks(s: State, step: Step)
    requires Books(s) && Enabled(s, step)
    ensures Books(Apply(s, step))
  {
    StepPending(s, step);
    StepGroups(s, step);
    StepIds(s, step);
  }

  lemma {:induction false} StepIds(s: State, step: Step)
    requires IdsOk(s.core.lastId, s.calls.Keys) && s.tokens.Keys == s.calls.Keys == s.ownerOf.Keys && Enabled(s, step)
    ensures IdsOk(Apply(s, step).core.lastId, Apply(s, step).calls.Keys)
    ensures Apply(s, step).tokens.Keys == Apply(s, step).calls.Keys == Apply(s, step).ownerOf.Keys
  {
    match step
    case RunSafe(owner, submitted) => AdmitIds(s, owner, submitted);
    case _ => SameKeys(s, step);
  }

  lemma {:induction false} AdmitIds(s: State, owner: Option<Task>, submitted: bool)
    requires IdsOk(s.core.lastId, s.calls.Keys) && s.tokens.Keys == s.calls.Keys == s.ownerOf.Keys
    requires Enabled(s, RunSafe(owner, submitted))
    ensures var s' := Apply(s, RunSafe(owner, submitted));
            IdsOk(s'.core.lastId, s'.calls.Keys) && s'.tokens.Keys == s'.calls.Keys == s'.ownerOf.Keys
  {}

  // No step but a call of run_safe adds a call.
  lemma {:induction false} SameKeys(s: State, step: Step)
    requires Enabled(s, step) && !step.RunSafe? && s.tokens.Keys == s.calls.Keys
    ensures Apply(s, step).calls.Keys == s.calls.Keys && Apply(s, step).tokens.Keys == s.tokens.Keys
    ensures Apply(s, step).ownerOf == s.ownerOf && Apply(s, step).core.lastId == s.core.lastId
  {
    if Calling(step) {
      CallingKeys(s, step);
      assert s.tokens.Keys + {step.id} == s.tokens.Keys;
    } else {
      IdleCalls(s, step);
      IdleTokens(s, step);
    }
  }

  // The steps that move one call between phases.
  predicate Calling(step: Step) {
    step.Hook? || step.Take? || step.Activate? || step.Return? || step.Drop? || step.RunHook?
    || step.SettleLocked? || step.SettleSignal? || step.FireNext? || step.Finish?
  }

  // Such a step rewrites at most the record and the token of its own call.
  lemma {:induction false} CallingKeys(s: State, step: Step)
    requires Enabled(s, step) && Calling(step)
    ensures step.id in s.calls && Apply(s, step).calls.Keys == s.calls.Keys
    ensures s.tokens.Keys <= Apply(s, step).tokens.Keys <= s.tokens.Keys + {step.id}
    ensures step.id in s.tokens ==> Apply(s, step).tokens.Keys == s.tokens.Keys
    ensures forall k :: k in s.calls && k != step.id ==> Apply(s, step).calls[k] == s.calls[k]
    ensures Apply(s, step).calls[step.id].gen == s.calls[step.id].gen
    ensures Apply(s, step).ownerOf == s.ownerOf && Apply(s, step).core.lastId == s.core.lastId
    ensures Apply(s, step).core.generation == s.core.generation
  {}

  lemma {:induction false} IdleTokens(s: State, step: Step)
    requires Enabled(s, step) && !step.RunSafe? && !Calling(step)
    ensures Apply(s, step).tokens.Keys == s.tokens.Keys
  {}

  lemma {:induction false} IgnoreOwner(pending: set<Id>, owners: map<Task, set<Id>>, ownerOf: map<Id, Option<Task>>,
          id: Id, owner: Option<Task>)
    requires GroupsOk(pending, owners, ownerOf) && id !in pending
    ensures GroupsOk(pending, owners, ownerOf[id := owner])
  {
    var ownerOf' := ownerOf[id := owner];
    forall o, k ensures Owns(pending, ownerOf', o, k) <==> o in owners && k in owners[o] {
      assert Owns(pending, ownerOf', o, k) <==> Owns(pending, ownerOf, o, k);
    }
    assert GroupsOk(pending, owners, ownerOf');
  }

  lemma {:induction false} AddGroup(pending: set<Id>, owners: map<Task, set<Id>>, ownerOf: map<Id, Option<Task>>,
          id: Id, owner: Option<Task>)
    requires GroupsOk(pending, owners, ownerOf) && id !in pending
    ensures GroupsOk(pending + {id}, AddOwned(owners, owner, id), ownerOf[id := owner])
  {
    var pending', owners', ownerOf' := pending + {id}, AddOwned(owners, owner, id), ownerOf[id := owner];
    forall o, k ensures Owns(pending', ownerOf', o, k) <==> o in owners' && k in owners'[o] {
      if k == id {
        assert !Owns(pending, ownerOf, o, k);
      } else {
        assert Owns(pending', ownerOf', o, k) <==> Owns(pending, ownerOf, o, k);
      }
    }
    forall o | o in owners' ensures owners'[o] != {} {
      if owner == Some(o) { assert id in owners'[o]; }
    }
    assert GroupsOk(pending', owners', ownerOf');
  }

  lemma {:induction false} DropGroup(pending: set<Id>, owners: map<Task, set<Id>>, ownerOf: map<Id, Option<Task>>,
          id: Id)
    requires GroupsOk(pending, owners, ownerOf) && id in ownerOf && id in pending
    ensures GroupsOk(pending - {id}, DropOwned(owners, ownerOf[id], id), ownerOf)
  {
    var owners' := DropOwned(owners, ownerOf[id], id);
    forall o, k ensures Owns(pending - {id}, ownerOf, o, k) <==> o in owners' && k in owners'[o] {
      assert Owns(pending - {id}, ownerOf, o, k) <==> Owns(pending, ownerOf, o, k) && k != id;
      assert o in owners && id in owners[o] <==> ownerOf[id] == Some(o)
        by { assert Owns(pending, ownerOf, o, id) <==> ownerOf[id] == Some(o); }
    }
  }

  // Replacing one call's record keeps one worker per generation unless a
  // second worker of that generation would start.
  lemma {:induction false} OneWorkerUpdate(calls: map<Id, Call>, id: Id, c: Call)
    requires OneWorker(calls)
    requires WorkerBusy(c) ==>
      (id in calls && WorkerBusy(calls[id]) && c.gen == calls[id].gen)
      || (forall k :: k in calls && calls[k].gen == c.gen ==> !WorkerBusy(calls[k]))
    ensures OneWorker(calls[id := c])
  {}

  lemma {:induction false} StepWorker(s: State, step: Step)
    requires OneWorker(s.calls) && CallsOk(s.calls, s.core.generation) && Enabled(s, step)
    ensures OneWorker(Apply(s, step).calls)
  {
    var s' := Apply(s, step);
    match step
    case RunSafe(owner, submitted) =>
      var (c, r) := Admit(s.core, owner, submitted);
      if r.Admitted? || r.SubmitFailed? { OneWorkerUpdate(s.calls, r.id, s'.calls[r.id]); }
    case Hook(id) => OneWorkerUpdate(s.calls, id, s'.calls[id]);
    case Take(id) => OneWorkerUpdate(s.calls, id, s'.calls[id]);
    case Activate(id) => OneWorkerUpdate(s.calls, id, s'.calls[id]);
    case Return(id) => OneWorkerUpdate(s.calls, id, s'.calls[id]);
    case Drop(id, _) => assert CallOk(s.calls[id], s.core.generation); OneWorkerUpdate(s.calls, id, s'.calls[id]);
    case RunHook(id) => assert CallOk(s.calls[id], s.core.generation); OneWorkerUpdate(s.calls, id, s'.calls[id]);
    case SettleLocked(id) => OneWorkerUpdate(s.calls, id, s'.calls[id]);
    case SettleSignal(id) => OneWorkerUpdate(s.calls, id, s'.calls[id]);
    case Finish(id) => OneWorkerUpdate(s.calls, id, s'.calls[id]);
    case _ =>
  }

  lemma {:induction false} StepCalls(s: State, step: Step)
    requires CallsOk(s.calls, s.core.generation) && Enabled(s, step)
    ensures CallsOk(Apply(s, step).calls, Apply(s, step).core.generation)
  {
    if step.RunSafe? {
      AdmitCalls(s, step.owner, step.submitted);
    } else if Calling(step) {
      CallingCalls(s, step);
    } else {
      IdleCalls(s, step);
    }
  }

  lemma {:induction false} CallingCalls(s: State, step: Step)
    requires CallsOk(s.calls, s.core.generation) && Enabled(s, step) && Calling(step)
    ensures CallsOk(Apply(s, step).calls, Apply(s, step).core.generation)
  {
    var s', id := Apply(s, step), step.id;
    CallingKeys(s, step);
    assert CallOk(s.calls[id], s.core.generation);
    forall k | k in s'.calls ensures CallOk(s'.calls[k], s.core.generation) {
      assert CallOk(s.calls[k], s.core.generation);
    }
  }

  // The steps that leave every call alone.
  lemma {:induction false} IdleCalls(s: State, step: Step)
    requires Enabled(s, step) && !step.RunSafe? && !Calling(step)
    ensures Apply(s, step).calls == s.calls && Apply(s, step).ownerOf == s.ownerOf
    ensures Apply(s, step).core.lastId == s.core.lastId && Apply(s, step).core.generation >= s.core.generation
  {}

  lemma {:induction false} AdmitCalls(s: State, owner: Option<Task>, submitted: bool)
    requires CallsOk(s.calls, s.core.generation) && Enabled(s, RunSafe(owner, submitted))
    ensures var s' := Apply(s, RunSafe(owner, submitted)); CallsOk(s'.calls, s'.core.generation)
  {}

  lemma {:induction false} StepActive(s: State, step: Step)
    requires ActiveOk(s.core.active, s.calls) && Enabled(s, step)
    requires IdsOk(s.core.lastId, s.calls.Keys)
    ensures ActiveOk(Apply(s, step).core.active, Apply(s, step).calls)
  {
    var s' := Apply(s, step);
    forall g | g in s'.core.active ensures exists k :: Running(s'.calls, k, g) {
      if step.Activate? && g == s.calls[step.id].gen {
        assert Running(s'.calls, step.id, g);
      } else {
        var k :| Running(s.calls, k, g);
        assert Running(s'.calls, k, g);
      }
    }
  }

  lemma {:induction false} TokensUpdate(calls: map<Id, Call>, tokens: map<Id, Token>, id: Id, c: Call, t: Token)
    requires TokensOk(calls, tokens) && TokenOk(c.phase, t) && tokens.Keys == calls.Keys
    ensures TokensOk(calls[id := c], tokens[id := t])
    ensures id in calls && tokens[id] == t ==> TokensOk(calls[id := c], tokens)
    ensures id in calls && calls[id] == c ==> TokensOk(calls, tokens[id := t])
  {}

  lemma {:induction false} AdmitTokens(s: State, owner: Option<Task>, submitted: bool)
    requires TokensOk(s.calls, s.tokens) && Enabled(s, RunSafe(owner, submitted)) && s.tokens.Keys == s.calls.Keys
    ensures var s' := Apply(s, RunSafe(owner, submitted)); TokensOk(s'.calls, s'.tokens)
  {
    var s' := Apply(s, RunSafe(owner, submitted));
    var (c, r) := Admit(s.core, owner, submitted);
    if r.Admitted? || r.SubmitFailed? {
      TokensUpdate(s.calls, s.tokens, r.id, s'.calls[r.id], s'.tokens[r.id]);
    }
  }

  // What such a step makes of its own token; the others stay as they are.
  lemma {:induction false} CallingToken(s: State, step: Step)
    requires Enabled(s, step) && Calling(step) && step.id in s.calls && step.id in s.tokens
    ensures step.id in Apply(s, step).calls && step.id in Apply(s, step).tokens
    ensures forall k ::
      k in s.tokens && k != step.id ==> k in Apply(s, step).tokens && Apply(s, step).tokens[k] == s.tokens[k]
    ensures TokenOk(s.calls[step.id].phase, s.tokens[step.id]) ==>
              TokenOk(Apply(s, step).calls[step.id].phase, Apply(s, step).tokens[step.id])
  {}

  lemma {:induction false} CallingTokens(s: State, step: Step)
    requires TokensOk(s.calls, s.tokens) && Enabled(s, step) && s.tokens.Keys == s.calls.Keys && Calling(step)
    ensures TokensOk(Apply(s, step).calls, Apply(s, step).tokens)
  {
    var s', id := Apply(s, step), step.id;
    CallingKeys(s, step);
    CallingToken(s, step);
    forall k | k in s'.calls && k in s'.tokens ensures TokenOk(s'.calls[k].phase, s'.tokens[k]) {
      assert TokenOk(s.calls[k].phase, s.tokens[k]);
    }
  }

  lemma {:induction false} AddingTokens(s: State, step: Step)
    requires TokensOk(s.calls, s.tokens) && Enabled(s, step) && s.tokens.Keys == s.calls.Keys
    requires step.AddCallback? || step.HookWait?
    ensures TokensOk(Apply(s, step).calls, Apply(s, step).tokens)
  {
    var s', id := Apply(s, step), step.id;
    assert TokenOk(s.calls[id].phase, s.tokens[id]);
    TokensUpdate(s.calls, s.tokens, id, s'.calls[id], s'.tokens[id]);
  }

  lemma {:induction false} SameCalls(s: State, step: Step)
    requires Enabled(s, step) && !step.RunSafe? && !Calling(step) && !step.AddCallback? && !step.HookWait?
    ensures Apply(s, step).calls == s.calls && Apply(s, step).tokens == s.tokens
  {
  }

  lemma {:induction false} StepTokens(s: State, step: Step)
    requires TokensOk(s.calls, s.tokens) && Enabled(s, step) && s.tokens.Keys == s.calls.Keys
    ensures TokensOk(Apply(s, step).calls, Apply(s, step).tokens)
  {
    if step.RunSafe? {
      AdmitTokens(s, step.owner, step.submitted);
    } else if Calling(step) {
      CallingTokens(s, step);
    } else if step.AddCallback? || step.HookWait? {
      AddingTokens(s, step);
    } else {
      SameCalls(s, step);
    }
  }

  lemma {:induction false} ConservedUpdate(tokens: map<Id, Token>, id: Id, t: Token)
    requires ConservedOk(tokens) && Conserved(t)
    ensures ConservedOk(tokens[id := t])
  {}

  lemma {:induction false} AdmitConserved(s: State, owner: Option<Task>, submitted: bool)
    requires ConservedOk(s.tokens) && Enabled(s, RunSafe(owner, submitted))
    ensures ConservedOk(Apply(s, RunSafe(owner, submitted)).tokens)
  {
    var (c, r) := Admit(s.core, owner, submitted);
    if r.Admitted? { ConservedUpdate(s.tokens, r.id, FRESH); }
    if r.SubmitFailed? { ConservedUpdate(s.tokens, r.id, Settle(FRESH)); }
  }

  lemma {:induction false} StepConserved(s: State, step: Step)
    requires ConservedOk(s.tokens) && TokensOk(s.calls, s.tokens) && s.tokens.Keys == s.calls.Keys && Enabled(s, step)
    ensures ConservedOk(Apply(s, step).tokens)
  {
    if step.RunSafe? {
      AdmitConserved(s, step.owner, step.submitted);
    } else if step.SettleSignal? || step.FireNext? {
      SettlingConserved(s, step);
    } else if step.AddCallback? || step.HookWait? {
      AddingConserved(s, step);
    } else {
      SameTokens(s, step);
    }
  }

  lemma {:induction false} SettlingConserved(s: State, step: Step)
    requires ConservedOk(s.tokens) && TokensOk(s.calls, s.tokens) && s.tokens.Keys == s.calls.Keys && Enabled(s, step)
    requires step.SettleSignal? || step.FireNext?
    ensures ConservedOk(Apply(s, step).tokens)
  {
    var id := step.id;
    assert TokenOk(s.calls[id].phase, s.tokens[id]);
    if step.SettleSignal? {
      SettleConserved(s.tokens[id]);
    } else {
      FireConserved(s.tokens[id]);
    }
    ConservedUpdate(s.tokens, id, Apply(s, step).tokens[id]);
  }

  lemma {:induction false} AddingConserved(s: State, step: Step)
    requires ConservedOk(s.tokens) && Enabled(s, step) && (step.AddCallback? || step.HookWait?)
    ensures ConservedOk(Apply(s, step).tokens)
  {
    var id := step.id;
    var cb := if step.AddCallback? then Other(step.tag) else Wake(step.w);
    AddConserved(s.tokens[id], cb);
    ConservedUpdate(s.tokens, id, Add(s.tokens[id], cb));
  }

  // The other steps leave every token alone.
  lemma {:induction false} SameTokens(s: State, step: Step)
    requires Enabled(s, step) && !step.RunSafe? && !step.SettleSignal? && !step.FireNext? && !step.AddCallback?
    requires !step.HookWait?
    ensures Apply(s, step).tokens == s.tokens
  {
  }

  lemma {:induction false} ClosedUpdate(ws: map<nat, Waiter>, closing: bool, pending: set<Id>, w: nat, v: Waiter)
    requires ClosedOk(ws, closing, pending)
    requires if w in ws then v.closedAtStart == ws[w].closedAtStart && v.tokens == ws[w].tokens
             else v.closedAtStart ==> closing && pending <= v.tokens
    ensures ClosedOk(ws[w := v], closing, pending)
  {}

  lemma {:induction false} StartWaitClosed(s: State, w: nat)
    requires ClosedOk(s.waiters, s.core.closing, s.core.pending) && Enabled(s, StartWait(w))
    requires PendingOk(s.core.pending, s.calls) && TokensOk(s.calls, s.tokens) && s.tokens.Keys == s.calls.Keys
    ensures ClosedOk(Apply(s, StartWait(w)).waiters, s.core.closing, s.core.pending)
  {
    forall id | id in s.core.pending ensures id in PendingUnsettled(s) {
      assert TokenOk(s.calls[id].phase, s.tokens[id]);
    }
    ClosedUpdate(s.waiters, s.core.closing, s.core.pending, w, Apply(s, StartWait(w)).waiters[w]);
  }

  lemma {:induction false} StepClosed(s: State, step: Step)
    requires ClosedOk(s.waiters, s.core.closing, s.core.pending) && Enabled(s, step) && !step.StartWait?
    ensures ClosedOk(Apply(s, step).waiters, Apply(s, step).core.closing, Apply(s, step).core.pending)
  {
    var s' := Apply(s, step);
    var ws, closing, pending := s.waiters, s.core.closing, s.core.pending;
    match step
    case HookWait(w, id) => ClosedUpdate(ws, closing, pending, w, s'.waiters[w]);
    case FireNext(id) =>
      if s.tokens[id].firing[0].Wake? && s.tokens[id].firing[0].waiter in ws {
        var w := s.tokens[id].firing[0].waiter;
        ClosedUpdate(ws, closing, pending, w, s'.waiters[w]);
      }
    case WaitTurn(w) => ClosedUpdate(ws, closing, pending, w, s'.waiters[w]);
    case RunSoon(w) => ClosedUpdate(ws, closing, pending, w, s'.waiters[w]);
    case WaitTimeout(w) => ClosedUpdate(ws, closing, pending, w, s'.waiters[w]);
    case _ =>
  }

  // A token that only gains callbacks, or settles with its callbacks taken to
  // be fired, keeps every waiter's bookkeeping.
  lemma {:induction false} TokenUpdate(waiters: map<nat, Waiter>, tokens: map<Id, Token>, id: Id, t: Token)
    requires WaitersOk(waiters, tokens)
    requires id in tokens ==> tokens[id].settled ==> t.settled
    requires id in tokens ==> forall cb :: cb in tokens[id].waiting ==> cb in t.waiting + t.firing
    requires id in tokens ==> forall cb :: cb in tokens[id].firing ==> cb in t.firing
    requires t.firing != [] ==> t.settled
    ensures WaitersOk(waiters, tokens[id := t])
  {
    forall w | w in waiters ensures WaiterOk(tokens[id := t], w, waiters[w]) {
      assert WaiterOk(tokens, w, waiters[w]);
      forall k | WakePromised(tokens, w, k) ensures WakePromised(tokens[id := t], w, k) {}
    }
  }

  lemma {:induction false} FireUpdate(waiters: map<nat, Waiter>, tokens: map<Id, Token>, id: Id)
    requires WaitersOk(waiters, tokens) && id in tokens && tokens[id].settled && tokens[id].firing != []
    ensures WaitersOk(Called(waiters, tokens[id].firing[0]), tokens[id := Fire(tokens[id])])
  {
    var t := tokens[id];
    var ws, ts := Called(waiters, t.firing[0]), tokens[id := Fire(t)];
    assert t.firing == [t.firing[0]] + t.firing[1..];
    forall w | w in ws ensures WaiterOk(ts, w, ws[w]) {
      assert WaiterOk(tokens, w, waiters[w]);
      if ws[w].pc.Blocked? && !ws[w].event && ws[w].soon == 0 {
        var k :| k in waiters[w].tokens && WakePromised(tokens, w, k);
        assert Wake(w) != t.firing[0];
        assert WakePromised(ts, w, k);
      }
    }
  }

  lemma {:induction false} HookUpdate(s: State, step: Step)
    requires WaitersOk(s.waiters, s.tokens) && Enabled(s, step) && step.HookWait?
    ensures WaitersOk(Apply(s, step).waiters, Apply(s, step).tokens)
  {
    var w, id := step.w, step.id;
    var s' := Apply(s, step);
    forall u | u in s'.waiters ensures WaiterOk(s'.tokens, u, s'.waiters[u]) {
      assert WaiterOk(s.tokens, u, s.waiters[u]);
      forall k | WakePromised(s.tokens, u, k) ensures WakePromised(s'.tokens, u, k) {}
    }
  }

  lemma {:induction false} TurnUpdate(s: State, step: Step)
    requires WaitersOk(s.waiters, s.tokens) && Enabled(s, step) && step.WaitTurn?
    ensures WaitersOk(Apply(s, step).waiters, Apply(s, step).tokens)
  {
    var w := step.w;
    var v := s.waiters[w];
    assert WaiterOk(s.tokens, w, v);
    if v.pc.Retest? && !AllSettled(s.tokens, v.tokens) {
      var id :| id in v.tokens && id in s.tokens && !s.tokens[id].settled;
      assert WakePromised(s.tokens, w, id);
    }
    assert WaiterOk(s.tokens, w, Turn(s.tokens, v));
  }

  lemma {:induction false} WaiterUpdate(waiters: map<nat, Waiter>, tokens: map<Id, Token>, w: nat, v: Waiter)
    requires WaitersOk(waiters, tokens)
    requires (w in waiters && WaiterOk(tokens, w, waiters[w])) ==> WaiterOk(tokens, w, v)
    requires w !in waiters ==> WaiterOk(tokens, w, v)
    ensures WaitersOk(waiters[w := v], tokens)
  {}

  predicate Signalling(step: Step) { step.SettleSignal? || step.FireNext? || step.AddCallback? }

  predicate Waiting(step: Step) {
    step.HookWait? || step.WaitTurn? || step.RunSoon? || step.WaitTimeout? || step.StartWait?
  }

  // The steps that touch neither a token nor a waiter.
  lemma {:induction false} Unsignalled(s: State, step: Step)
    requires Enabled(s, step) && !step.RunSafe? && !Signalling(step) && !Waiting(step)
    ensures Apply(s, step).waiters == s.waiters && Apply(s, step).tokens == s.tokens
  {
  }

  lemma {:induction false} AdmitWaiters(s: State, owner: Option<Task>, submitted: bool)
    requires WaitersOk(s.waiters, s.tokens) && Enabled(s, RunSafe(owner, submitted))
    requires s.tokens.Keys == s.calls.Keys && IdsOk(s.core.lastId, s.calls.Keys)
    ensures var s' := Apply(s, RunSafe(owner, submitted)); WaitersOk(s'.waiters, s'.tokens)
  {
    var (c, r) := Admit(s.core, owner, submitted);
    if r.Admitted? { TokenUpdate(s.waiters, s.tokens, r.id, FRESH); }
    if r.SubmitFailed? { TokenUpdate(s.waiters, s.tokens, r.id, Settle(FRESH)); }
  }

  lemma {:induction false} SignalWaiters(s: State, step: Step)
    requires WaitersOk(s.waiters, s.tokens) && Enabled(s, step)
    requires TokensOk(s.calls, s.tokens) && s.tokens.Keys == s.calls.Keys
    requires Signalling(step)
    ensures WaitersOk(Apply(s, step).waiters, Apply(s, step).tokens)
  {
    match step
    case SettleSignal(id) => TokenUpdate(s.waiters, s.tokens, id, Settle(s.tokens[id]));
    case FireNext(id) =>
      assert TokenOk(s.calls[id].phase, s.tokens[id]);
      FireUpdate(s.waiters, s.tokens, id);
    case AddCallback(id, tag) =>
      assert TokenOk(s.calls[id].phase, s.tokens[id]);
      TokenUpdate(s.waiters, s.tokens, id, Add(s.tokens[id], Other(tag)));
  }

  // A scheduled wake-up runs, or a wait gives up.
  lemma {:induction false} WakeUpdate(s: State, step: Step)
    requires WaitersOk(s.waiters, s.tokens) && Enabled(s, step) && (step.RunSoon? || step.WaitTimeout?)
    ensures WaitersOk(Apply(s, step).waiters, Apply(s, step).tokens)
  {
    WaiterUpdate(s.waiters, s.tokens, step.w, Apply(s, step).waiters[step.w]);
  }

  lemma {:induction false} StartUpdate(s: State, step: Step)
    requires WaitersOk(s.waiters, s.tokens) && Enabled(s, step) && step.StartWait?
    requires s.tokens.Keys == s.calls.Keys && PendingOk(s.core.pending, s.calls)
    ensures WaitersOk(Apply(s, step).waiters, Apply(s, step).tokens)
  {
    var w := step.w;
    WaiterUpdate(s.waiters, s.tokens, w, Apply(s, step).waiters[w]);
  }

  lemma {:induction false} OwnWaiters(s: State, step: Step)
    requires WaitersOk(s.waiters, s.tokens) && Enabled(s, step)
    requires TokensOk(s.calls, s.tokens) && s.tokens.Keys == s.calls.Keys && PendingOk(s.core.pending, s.calls)
    requires Waiting(step)
    ensures WaitersOk(Apply(s, step).waiters, Apply(s, step).tokens)
  {
    if step.HookWait? {
      HookUpdate(s, step);
    } else if step.WaitTurn? {
      TurnUpdate(s, step);
    } else if step.StartWait? {
      StartUpdate(s, step);
    } else {
      WakeUpdate(s, step);
    }
  }

  lemma {:induction false} StepWaiters(s: State, step: Step)
    requires WaitersOk(s.waiters, s.tokens) && Enabled(s, step)
    requires TokensOk(s.calls, s.tokens) && s.tokens.Keys == s.calls.Keys
    requires IdsOk(s.core.lastId, s.calls.Keys) && PendingOk(s.core.pending, s.calls)
    ensures WaitersOk(Apply(s, step).waiters, Apply(s, step).tokens)
  {
    if step.RunSafe? {
      AdmitWaiters(s, step.owner, step.submitted);
    } else if Signalling(step) {
      SignalWaiters(s, step);
    } else if Waiting(step) {
      OwnWaiters(s, step);
    } else {
      Unsignalled(s, step);
    }
  }

  lemma {:induction false} StepPools(s: State, step: Step)
    requires PoolsOk(s.shut, s.broken, s.core.generation) && Enabled(s, step)
    ensures PoolsOk(Apply(s, step).shut, Apply(s, step).broken, Apply(s, step).core.generation)
  {
    if !(step.Reset? || step.ShutPool? || step.BreakPool? || step.ShutdownIfSettled?) { SamePools(s, step); }
  }

  lemma {:induction false} SamePools(s: State, step: Step)
    requires Enabled(s, step)
    requires !(step.Reset? || step.ShutPool? || step.BreakPool? || step.ShutdownIfSettled?)
    ensures Apply(s, step).shut == s.shut && Apply(s, step).broken == s.broken
    ensures Apply(s, step).core.generation == s.core.generation
  {}

  lemma {:induction false} StepInv(s: State, step: Step)
    requires Inv(s) && Enabled(s, step)
    ensures Inv(Apply(s, step))
  {
    StepBooks(s, step);
    StepCalls(s, step);
    StepWorker(s, step);
    StepActive(s, step);
    StepTokens(s, step);
    StepConserved(s, step);
    StepWaiters(s, step);
    if step.StartWait? { StartWaitClosed(s, step.w); } else { StepClosed(s, step); }
    StepPools(s, step);
  }

  lemma {:induction false} RunInv(s: State, steps: seq<Step>)
    requires Inv(s) && Feasible(s, steps)
    ensures Inv(Run(s, steps))
    decreases |steps|
  {
    if steps != [] {
      StepInv(s, steps[0]);
      RunInv(Apply(s, steps[0]), steps[1..]);
    }
  }
}
