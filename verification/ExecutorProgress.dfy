// From every reachable state the executor can settle everything it admitted:
// no interleaving of resets, cancellations, broken pools and waiters leaves a
// token that can no longer be settled.
module ExecutorProgress {
  import opened Options
  import opened ExecutorCore
  import opened SettlementTokens
  import opened ExecutorProtocol
  import opened ExecutorProperties

  // Steps the pool and the submitting coroutine take on their own once the
  // submitted functions return: nothing is admitted, reset, shut or cancelled anew.
  predicate Internal(step: Step) {
    step.Hook? || step.Take? || step.Activate? || step.Return? || step.Drop? || step.RunHook?
    || step.SettleLocked? || step.SettleSignal? || step.FireNext? || step.Finish?
  }

  function Weight(p: Phase): nat {
    match p
    case Queued => 10
    case Started => 8
    case Active => 7
    case Returned => 6
    case Dropped(_) => 9
    case Discarding => 8
    case Discarded => 3
    case Firing => 2
    case Finished => 0
  }

  // Steps left for one call.
  function Left(c: Call, t: Token): nat {
    Weight(c.phase) + |t.waiting| + |t.firing| + (if c.hooked || c.phase == Finished then 0 else 1)
  }

  function LeftAt(s: State, id: Id): nat {
    if id in s.calls && id in s.tokens then Left(s.calls[id], s.tokens[id]) else 0
  }

  function Total(s: State, n: nat): nat {
    if n == 0 then 0 else LeftAt(s, n) + Total(s, n - 1)
  }

  lemma {:induction false} TotalDrops(s: State, s': State, id: Id, n: nat)
    requires forall k :: 1 <= k <= n && k != id ==> LeftAt(s', k) == LeftAt(s, k)
    requires 1 <= id && LeftAt(s', id) < LeftAt(s, id)
    ensures if id <= n then Total(s', n) < Total(s, n) else Total(s', n) == Total(s, n)
  {
    if n > 0 { TotalDrops(s, s', id, n - 1); }
  }

  lemma {:induction false} InternalLocal(s: State, step: Step, k: Id)
    requires Enabled(s, step) && Internal(step) && k != step.id
    ensures LeftAt(Apply(s, step), k) == LeftAt(s, k)
  {}

  // An internal step shortens the work of its own call and of no other.
  lemma {:induction false} InternalProgress(s: State, step: Step)
    requires Enabled(s, step) && Internal(step) && s.tokens.Keys == s.calls.Keys
    requires TokensOk(s.calls, s.tokens)
    ensures step.id in s.calls && LeftAt(Apply(s, step), step.id) < LeftAt(s, step.id)
  {
    var id := step.id;
    if step.SettleLocked? || step.SettleSignal? || step.FireNext? || step.Finish? {
      SettlingProgress(s, step);
    } else {
      CallingProgress(s, step);
    }
  }

  lemma {:induction false} SettlingProgress(s: State, step: Step)
    requires Enabled(s, step) && s.tokens.Keys == s.calls.Keys && TokensOk(s.calls, s.tokens)
    requires step.SettleLocked? || step.SettleSignal? || step.FireNext? || step.Finish?
    ensures step.id in s.calls && LeftAt(Apply(s, step), step.id) < LeftAt(s, step.id)
  {
    assert TokenOk(s.calls[step.id].phase, s.tokens[step.id]);
  }

  lemma {:induction false} CallingProgress(s: State, step: Step)
    requires Enabled(s, step) && s.tokens.Keys == s.calls.Keys
    requires step.Hook? || step.Take? || step.Activate? || step.Return? || step.Drop? || step.RunHook?
    ensures step.id in s.calls && LeftAt(Apply(s, step), step.id) < LeftAt(s, step.id)
  {
  }

  // The call that its generation's worker must deal with first.
  lemma {:induction false} Frontmost(s: State, id: Id) returns (front: Id)
    requires At(s, id, Queued)
    ensures At(s, front, Queued) && s.calls[front].gen == s.calls[id].gen
    ensures forall k :: k in s.calls && k < front && s.calls[k].gen == s.calls[id].gen ==> s.calls[k].phase != Queued
    decreases id
  {
    front := id;
    if k :| k in s.calls && k < id && s.calls[k].gen == s.calls[id].gen && s.calls[k].phase == Queued {
      front := Frontmost(s, k);
    }
  }

  // The next step of a call that was dropped or discarded.
  lemma {:induction false} LateStep(s: State, id: Id) returns (step: Step)
    requires s.tokens.Keys == s.calls.Keys && id in s.calls
    requires s.calls[id].phase.Dropped? || s.calls[id].phase.Discarded? || s.calls[id].phase.Firing?
    ensures Enabled(s, step) && Internal(step)
  {
    match s.calls[id].phase
    case Dropped(_) => step := if s.calls[id].hooked then RunHook(id) else Hook(id);
    case Discarded => step := SettleSignal(id);
    case Firing => step := if s.tokens[id].firing == [] then Finish(id) else FireNext(id);
  }

  // A call that is neither finished nor queued can always take its next step.
  lemma {:induction false} OwnStep(s: State, id: Id) returns (step: Step)
    requires Books(s) && TokensOk(s.calls, s.tokens)
    requires id in s.calls && s.calls[id].phase != Finished && s.calls[id].phase != Queued
    ensures Enabled(s, step) && Internal(step)
  {
    match s.calls[id].phase
    case Started => step := Activate(id);
    case Active => step := Return(id);
    case Returned => step := SettleLocked(id);
    case Discarding => step := SettleLocked(id);
    case _ => step := LateStep(s, id);
  }

  // While any call is unfinished some internal step is possible: no deadlock.
  lemma {:induction false} SomeStep(s: State, id: Id) returns (step: Step)
    requires Inv(s) && id in s.calls && s.calls[id].phase != Finished
    ensures Enabled(s, step) && Internal(step)
  {
    if s.calls[id].phase != Queued {
      step := OwnStep(s, id);
    } else {
      var g := s.calls[id].gen;
      if g in s.broken {
        step := Drop(id, true);
      } else if busy :| busy in s.calls && s.calls[busy].gen == g && WorkerBusy(s.calls[busy]) {
        assert CallOk(s.calls[busy], s.core.generation);
        step := OwnStep(s, busy);
      } else {
        var front := Frontmost(s, id);
        step := Take(front);
      }
    }
  }

  ghost predicate AllFinished(s: State) {
    forall id :: id in s.calls ==> s.calls[id].phase == Finished
  }

  // Some internal continuation finishes and settles every admitted call.
  lemma {:induction false} DrainStep(s: State) returns (step: Step)
    requires Inv(s) && !AllFinished(s)
    ensures Enabled(s, step) && Internal(step) && Inv(Apply(s, step))
    ensures Total(Apply(s, step), Apply(s, step).core.lastId) < Total(s, s.core.lastId)
  {
    var id :| id in s.calls && s.calls[id].phase != Finished;
    step := SomeStep(s, id);
    InternalProgress(s, step);
    forall k | k != step.id ensures LeftAt(Apply(s, step), k) == LeftAt(s, k) { InternalLocal(s, step, k); }
    StepInv(s, step);
    SameKeys(s, step);
    TotalDrops(s, Apply(s, step), step.id, s.core.lastId);
  }

  lemma {:induction false} CanDrain(s: State) returns (steps: seq<Step>)
    requires Inv(s)
    ensures Feasible(s, steps) && AllFinished(Run(s, steps)) && Inv(Run(s, steps))
    ensures forall step :: step in steps ==> Internal(step)
    decreases Total(s, s.core.lastId)
  {
    if AllFinished(s) {
      steps := [];
    } else {
      var step := DrainStep(s);
      var rest := CanDrain(Apply(s, step));
      steps := [step] + rest;
      PrependStep(s, step, rest);
    }
  }

  lemma {:induction false} NoGroups(pending: set<Id>, owners: map<Task, set<Id>>, ownerOf: map<Id, Option<Task>>)
    requires GroupsOk(pending, owners, ownerOf) && pending == {}
    ensures owners == map[]
  {
    forall o ensures o !in owners {
      assert forall id :: !Owns(pending, ownerOf, o, id);
    }
  }

  lemma {:induction false} EveryTokenCanSettle(s: State) returns (steps: seq<Step>)
    requires Reachable(s)
    ensures Feasible(s, steps) && (forall step :: step in steps ==> Internal(step))
    ensures Run(s, steps).core.pending == {} && Run(s, steps).core.owners == map[]
    ensures forall id :: id in s.tokens ==> id in Run(s, steps).tokens && Run(s, steps).tokens[id].settled
  {
    ReachableInv(s);
    steps := CanDrain(s);
    var s' := Run(s, steps);
    TokensStay(s, steps);
    forall id | id in s'.tokens ensures s'.tokens[id].settled {
      assert TokenOk(s'.calls[id].phase, s'.tokens[id]);
    }
    assert s'.core.pending == {};
    NoGroups(s'.core.pending, s'.core.owners, s'.ownerOf);
  }

  lemma {:induction false} TokensStay(s: State, steps: seq<Step>)
    requires Feasible(s, steps)
    ensures s.tokens.Keys <= Run(s, steps).tokens.Keys
    decreases |steps|
  {
    if steps != [] { TokensStay(Apply(s, steps[0]), steps[1..]); }
  }
}
