// What every run of the lifecycle guarantees.
module RuntimeProperties {
  import opened Options
  import opened RuntimeCore
  import opened RuntimeProtocol

  ghost predicate Reachable(s: State) {
    exists steps :: Feasible(START, steps) && Run(START, steps) == s
  }

  lemma {:induction false} ReachableInv(s: State)
    requires Reachable(s)
    ensures Inv(s)
  {
    var steps :| Feasible(START, steps) && Run(START, steps) == s;
    StartInv();
    RunInv(START, steps);
  }

  ghost predicate TearingDown(p: Pass, op: Operation) {
    p.running && p.next < |ACTIONS| && ACTIONS[p.next] == op
  }

  // From its call to its end, neither the connection nor the executor teardown
  // ever overlaps a live tracked cleanup task, in the first pass or a re-run.
  lemma {:induction false} TeardownIsolated(s: State)
    requires Reachable(s)
    ensures s.owner.InPass? && (TearingDown(s.owner.pass, Connection) || TearingDown(s.owner.pass, Executor))
      ==> Live(s) == {}
    ensures s.finalizer.Passing?
         && (TearingDown(s.finalizer.pass, Connection) || TearingDown(s.finalizer.pass, Executor))
      ==> Live(s) == {}
    ensures !(s.owner.InPass? && s.finalizer.Passing?)
  {
    ReachableInv(s);
  }

  // A result published by the normal path comes from a pass that invoked all
  // five actions in order; SHUTDOWN_COMPLETE comes from nothing else.
  lemma {:induction false} FinalReportIsEarned(s: State)
    requires Reachable(s)
    ensures s.source.Some? ==>
      s.source.value.invoked == [Domain, Settlement, Learning, Connection, Executor]
      && s.book.result.Some? && s.book.result.value.failures == s.source.value.failures
    ensures s.book.result.Some? ==> (s.book.result.value.complete <==> s.book.result.value.failures == [])
    ensures s.book.result.Some? && s.book.result.value.complete ==> s.source.Some? && s.source.value.failures == []
  {
    ReachableInv(s);
  }

  // Closed exactly when a result is stored, and that result never reports
  // cleanup that is still pending; an announced future carries it.
  lemma {:induction false} ClosedMeansResult(s: State)
    requires Reachable(s)
    ensures s.book.life == Closed <==> s.book.result.Some?
    ensures s.book.result.Some? ==> !RequiresDeferral(s.book.result.value)
    ensures s.book.finalization.Some? ==> s.book.finalization == s.book.result && s.book.life == Closed
    ensures s.book.result.Some? && !s.announcing
      ==> s.book.finalization == s.book.result && s.book.completion.Delivered?
  {
    ReachableInv(s);
  }

  // Every answer of shutdown() and every delivered completion is the final
  // result or a report that asks for deferral; an answer given before there is
  // a result always asks for it.
  lemma {:induction false} AnswersAreFinalOrDeferred(s: State)
    requires Reachable(s)
    ensures var entry := Enter(s.book).1;
            entry.Answer? ==>
              if s.book.result.Some? then s.book.result == Some(entry.value) else RequiresDeferral(entry.value)
    ensures s.book.completion.Delivered? ==>
              s.book.result == Some(s.book.completion.value) || RequiresDeferral(s.book.completion.value)
  {
    ReachableInv(s);
  }

  function Rank(l: Life): nat {
    match l case Open => 0 case Closing => 1 case Closed => 2
  }

  lemma {:induction false} StepForward(s: State, step: Step)
    requires Inv(s) && Enabled(s, step)
    ensures Rank(Apply(s, step).book.life) >= Rank(s.book.life)
    ensures s.book.result.Some? ==> Apply(s, step).book.result == s.book.result
  {}

  lemma {:induction false} RunForward(s: State, steps: seq<Step>)
    requires Inv(s) && Feasible(s, steps)
    ensures Rank(Run(s, steps).book.life) >= Rank(s.book.life)
    ensures s.book.result.Some? ==> Run(s, steps).book.result == s.book.result
    decreases |steps|
  {
    if steps != [] {
      StepForward(s, steps[0]);
      StepInv(s, steps[0]);
      RunForward(Apply(s, steps[0]), steps[1..]);
    }
  }

  // Once stored the result is the answer of every later shutdown() and of the
  // finalization future, whatever runs in between; the state never goes back.
  lemma {:induction false} ResultIsForever(s: State, steps: seq<Step>)
    requires Reachable(s) && s.book.result.Some? && Feasible(s, steps)
    ensures Run(s, steps).book.result == s.book.result && Run(s, steps).book.life == Closed
    ensures Enter(Run(s, steps).book).1 == Answer(s.book.result.value)
    ensures Run(s, steps).book.finalization.Some? ==> Run(s, steps).book.finalization == s.book.result
  {
    ReachableInv(s);
    RunForward(s, steps);
    RunInv(s, steps);
  }

  // A finalizer blocked on a clear event with no live task left has a wake-up
  // scheduled, or a finished task whose callback will schedule one.
  lemma {:induction false} NoLostWakeup(s: State)
    requires Reachable(s) && s.finalizer.Blocked? && !s.loopClosed && !s.wakeup && Live(s) == {}
    ensures s.soon > 0 || exists t :: t in s.book.tracked && Enabled(s, TaskCallback(t))
  {
    ReachableInv(s);
    if s.soon == 0 {
      var t :| t in s.book.tracked;
      assert t !in Live(s);
      assert Enabled(s, TaskCallback(t));
    }
  }

  // ---- the shutdown can always be brought to an end ----

  ghost predicate Finished(s: State) { s.book.result.Some? && !s.announcing }

  function Actions(p: Pass): nat {
    if p.next > |ACTIONS| then 0 else 2 * (|ACTIONS| - p.next) + (if p.running then 0 else 1)
  }

  function OwnerWork(o: Owner): nat {
    match o
    case InPass(p) => 1000 + Actions(p)
    case Deferring(_) => 500
    case _ => 0
  }

  ghost function FinalizerWork(s: State): nat {
    match s.finalizer
    case Created => 300
    case Passing(p) => (if RequiresDeferral(Report(p.failures)) then 100 else 20) + Actions(p)
    case Blocked => if s.wakeup then 48 else if s.soon > 0 then 49 else 50
    case Test => 47
    case Clear => 46
    case Retest => 45
    case _ => 0
  }

  ghost function Work(s: State): nat {
    OwnerWork(s.owner) + FinalizerWork(s) + (if s.announcing then 1 else 0) + (if s.book.result.Some? then 0 else 2)
  }

  // Steps in which actions return, tasks finish and nobody interferes.
  predicate Benign(step: Step) {
    match step
    case OwnerEnd(o) => o == Returned(true)
    case FinalizerEnd(o) => o == Returned(true)
    case Call => false
    case OwnerAbort(_) => false
    case FinalizerAbort(_) => false
    case LoopCloses => false
    case _ => true
  }

  lemma {:induction false} PassStep(p: Pass)
    requires PassOk(p) && p.next < |ACTIONS|
    ensures !p.running ==> Actions(Begin(p, {})) < Actions(p) && Begin(p, {}).failures == p.failures
    ensures p.running ==> Actions(End(p, Returned(true))) < Actions(p) && End(p, Returned(true)).failures == p.failures
  {}

  // With no live task, some benign step brings the shutdown closer to its end.
  lemma {:induction false} NextStep(s: State) returns (step: Step)
    requires Inv(s) && !s.loopClosed && !s.owner.Idle? && !Finished(s) && Live(s) == {}
    ensures Enabled(s, step) && Benign(step) && Live(Apply(s, step)) == {}
    ensures Work(Apply(s, step)) < Work(s) && !Apply(s, step).loopClosed && !Apply(s, step).owner.Idle?
  {
    if s.announcing {
      step := Announce;
    } else if s.owner.InPass? {
      if s.owner.pass.next == |ACTIONS| {
        step := OwnerReport;
      } else {
        PassStep(s.owner.pass);
        step := if s.owner.pass.running then OwnerEnd(Returned(true)) else OwnerBegin;
      }
    } else if s.finalizer.Created? {
      step := FinalizerStart;
    } else if s.owner.Deferring? {
      step := OwnerResume;
    } else {
      step := FinalizerNext(s);
    }
  }

  lemma {:induction false} FinalizerNext(s: State) returns (step: Step)
    requires Inv(s) && !s.loopClosed && s.owner.Gone? && !Finished(s) && Live(s) == {} && !s.announcing
      && !s.finalizer.Created?
    ensures Enabled(s, step) && Benign(step) && Live(Apply(s, step)) == {}
    ensures Work(Apply(s, step)) < Work(s) && Apply(s, step).owner == s.owner && !Apply(s, step).loopClosed
  {
    match s.finalizer
    case Passing(p) =>
      if p.next == |ACTIONS| {
        step := FinalizerReport;
      } else {
        PassStep(p);
        step := if p.running then FinalizerEnd(Returned(true)) else FinalizerBegin;
      }
    case Blocked =>
      if s.wakeup {
        step := FinalizerWait;
      } else if s.soon > 0 {
        step := WakeupSet;
      } else {
        var t :| t in s.book.tracked;
        assert t !in Live(s);
        step := TaskCallback(t);
      }
    case _ => step := FinalizerWait;
  }

  // From every reachable state with an open loop, tasks that finish and
  // actions that return lead to a final, announced result.
  lemma {:induction false} CanClose(s: State) returns (steps: seq<Step>)
    requires Inv(s) && !s.loopClosed && !s.owner.Idle?
    ensures Feasible(s, steps) && (forall step :: step in steps ==> Benign(step))
    ensures Finished(Run(s, steps)) && Run(s, steps).book.life == Closed
      && Run(s, steps).book.finalization == Run(s, steps).book.result
    decreases |Live(s)|, Work(s)
  {
    if Finished(s) {
      steps := [];
    } else {
      var step;
      if t :| t in Live(s) {
        step := TaskDone(t);
        assert Live(Apply(s, step)) == Live(s) - {t};
      } else {
        step := NextStep(s);
      }
      StepInv(s, step);
      var rest := CanClose(Apply(s, step));
      steps := [step] + rest;
      assert steps[1..] == rest;
    }
  }

  lemma {:induction false} ShutdownCanFinish(s: State) returns (steps: seq<Step>)
    requires Reachable(s) && !s.loopClosed && s.book.life != Open
    ensures Feasible(s, steps) && (forall step :: step in steps ==> Benign(step))
    ensures Run(s, steps).book.life == Closed && Run(s, steps).book.finalization == Run(s, steps).book.result
  {
    ReachableInv(s);
    steps := CanClose(s);
  }
}
