// RuntimeLifecycle as a step system: the owning shutdown() coroutine, the
// deferred finalizer, cleanup tasks, other callers and the loop-watcher thread
// interleave; cancellation and escaping exceptions may strike at any await.
module RuntimeProtocol {
  import opened Options
  import opened RuntimeCore

  // The coroutine that first called shutdown().
  datatype Owner =
    | Idle
    | InPass(pass: Pass)
    | Deferring(report: Result)      // waiting until the finalizer has started
    | Gone

  datatype Finalizer =
    | Missing
    | Created
    | Test | Clear | Retest | Blocked   // _wait_for_pending_cleanup
    | Passing(pass: Pass)
    | Over

  datatype State = State(
    book: Book,
    owner: Owner,
    finalizer: Finalizer,
    done: set<Task>,          // cleanup tasks that have finished
    wakeup: bool,             // _finalizer_wakeup
    soon: nat,                // scheduled wakeup.set calls
    announcing: bool,         // a publication is recorded but not yet announced
    loopClosed: bool,
    source: Option<Pass>)     // the pass behind a normally published final result

  datatype Step =
    | Call
    | OwnerBegin | OwnerEnd(outcome: Outcome) | OwnerReport
    | OwnerResume
    | OwnerAbort(error: ErrorName)
    | FinalizerStart | FinalizerWait
    | FinalizerBegin | FinalizerEnd(outcome: Outcome) | FinalizerReport
    | FinalizerAbort(error: ErrorName)
    | TaskDone(task: Task)
    | TaskCallback(task: Task)
    | WakeupSet
    | Announce
    | LoopCloses
    | WatcherPublish
    | WatcherDetach

  const START := State(EMPTY_BOOK, Idle, Missing, {}, false, 0, false, false, None)

  function Live(s: State): set<Task> { s.book.tracked - s.done }

  predicate Escaping(error: ErrorName) { error.Cancelled? || error.Named? }

  predicate CanBegin(p: Pass) { p.next < |ACTIONS| && !p.running }
  predicate CanEnd(p: Pass) { p.next < |ACTIONS| && p.running }

  predicate Enabled(s: State, step: Step) {
    match step
    case Call => true
    case OwnerBegin => !s.loopClosed && s.owner.InPass? && CanBegin(s.owner.pass)
    case OwnerEnd(_) => !s.loopClosed && s.owner.InPass? && CanEnd(s.owner.pass)
    case OwnerReport => !s.loopClosed && s.owner.InPass? && s.owner.pass.next == |ACTIONS|
    case OwnerResume => !s.loopClosed && s.owner.Deferring? && s.finalizer != Created
    case OwnerAbort(error) => s.owner.InPass? && Escaping(error)
    case FinalizerStart => !s.loopClosed && s.finalizer.Created?
    case FinalizerWait => !s.loopClosed
      && (s.finalizer.Test? || s.finalizer.Clear? || s.finalizer.Retest? || (s.finalizer.Blocked? && s.wakeup))
    case FinalizerBegin => !s.loopClosed && s.finalizer.Passing? && CanBegin(s.finalizer.pass)
    case FinalizerEnd(_) => !s.loopClosed && s.finalizer.Passing? && CanEnd(s.finalizer.pass)
    case FinalizerReport => !s.loopClosed && s.finalizer.Passing? && s.finalizer.pass.next == |ACTIONS|
    case FinalizerAbort(error) => !s.loopClosed && !s.finalizer.Missing? && !s.finalizer.Over? && Escaping(error)
    case TaskDone(t) => !s.loopClosed && t !in s.done
    case TaskCallback(t) => !s.loopClosed && t in s.done && t in s.book.tracked
    case WakeupSet => !s.loopClosed && s.soon > 0
    case Announce => s.announcing && s.book.result.Some?
    case LoopCloses => !s.owner.Idle?
    case WatcherPublish => s.loopClosed && !s.finalizer.Missing?
    case WatcherDetach => s.loopClosed && s.book.result.Some?
  }

  // _publish_final as run by some thread: record under the lock, announce later.
  function Publish(s: State, r: Result): State {
    if s.book.result.Some? then s else s.(book := Record(s.book, r), announcing := true)
  }

  function PublishReport(s: State, p: Pass): State {
    if s.book.result.Some? then s
    else Publish(s, Report(p.failures)).(source := Some(p))
  }

  function Tracking(s: State, o: Outcome): State {
    if o.Outlived? then s.(book := s.book.(tracked := s.book.tracked + (o.tasks - s.done))) else s
  }

  function Wait(s: State): State {
    match s.finalizer
    case Test => s.(finalizer := if Live(s) == {} then Passing(NEW_PASS) else Clear)
    case Clear => s.(wakeup := false, finalizer := Retest)
    case Retest => s.(finalizer := if Live(s) == {} then Passing(NEW_PASS) else Blocked)
    case Blocked => s.(finalizer := Test)
    case _ => s
  }

  function Apply(s: State, step: Step): State
    requires Enabled(s, step)
  {
    match step
    case Call =>
      var (b, entry) := Enter(s.book);
      if entry.Own? then s.(book := b, owner := InPass(NEW_PASS)) else s.(book := b)
    case OwnerBegin => s.(owner := InPass(Begin(s.owner.pass, Live(s))))
    case OwnerEnd(o) => Tracking(s, o).(owner := InPass(End(s.owner.pass, o)))
    case OwnerReport =>
      var r := Report(s.owner.pass.failures);
      if RequiresDeferral(r) then
        s.(book := s.book.(deferred := true, latest := Some(r)), owner := Deferring(r), finalizer := Created,
          wakeup := false)
      else
        PublishReport(s, s.owner.pass).(owner := Gone)
    case OwnerResume =>
      s.(book := if s.book.result.Some? then s.book else PublishInitial(s.book, s.owner.report), owner := Gone)
    case OwnerAbort(error) => Publish(s, Aborted(error)).(owner := Gone)
    case FinalizerStart => s.(finalizer := Test)
    case FinalizerWait => Wait(s)
    case FinalizerBegin => s.(finalizer := Passing(Begin(s.finalizer.pass, Live(s))))
    case FinalizerEnd(o) => Tracking(s, o).(finalizer := Passing(End(s.finalizer.pass, o)))
    case FinalizerReport =>
      var r := Report(s.finalizer.pass.failures);
      if RequiresDeferral(r) then s.(book := s.book.(latest := Some(r)), finalizer := Test)
      else PublishReport(s, s.finalizer.pass).(finalizer := Over)
    case FinalizerAbort(error) => Publish(s, Aborted(error)).(finalizer := Over)
    case TaskDone(t) => s.(done := s.done + {t})
    case TaskCallback(t) =>
      s.(book := s.book.(tracked := s.book.tracked - {t}), soon := if s.finalizer.Missing? then s.soon else s.soon + 1)
    case WakeupSet => s.(wakeup := true, soon := s.soon - 1)
    case Announce => s.(book := RuntimeCore.Announce(s.book), announcing := false)
    case LoopCloses => s.(loopClosed := true)
    case WatcherPublish => Publish(s, Aborted(LoopClosed))
    case WatcherDetach => s.(book := s.book.(tracked := {}))
  }

  predicate Feasible(s: State, steps: seq<Step>)
    decreases |steps|
  {
    steps == [] || (Enabled(s, steps[0]) && Feasible(Apply(s, steps[0]), steps[1..]))
  }

  function Run(s: State, steps: seq<Step>): State
    requires Feasible(s, steps)
    decreases |steps|
  {
    if steps == [] then s else Run(Apply(s, steps[0]), steps[1..])
  }

  // ---- the invariant ----

  ghost predicate InFlightGuarded(p: Pass) { p.running && p.next < |ACTIONS| && Guarded(ACTIONS[p.next]) }

  // At most one pass runs, and while the connection or the executor is being
  // torn down no tracked cleanup task is live.
  ghost predicate PassesOk(owner: Owner, finalizer: Finalizer, live: set<Task>) {
    && (owner.InPass? ==> PassOk(owner.pass) && (InFlightGuarded(owner.pass) ==> live == {}))
    && (finalizer.Passing? ==> PassOk(finalizer.pass) && (InFlightGuarded(finalizer.pass) ==> live == {}))
    && (owner.InPass? || owner.Idle? ==> finalizer.Missing?)
  }

  ghost predicate BookOk(b: Book, owner: Owner, announcing: bool) {
    && (b.life.Closed? <==> b.result.Some?)
    && (b.life.Open? <==> b.completion.Absent?)
    && (b.life.Open? <==> owner.Idle?)
    && (b.result.Some? ==> !RequiresDeferral(b.result.value) && b.latest == b.result)
    && (b.finalization.Some? ==> b.finalization == b.result)
    && (b.result.Some? && b.finalization.None? ==> announcing)
    && (announcing ==> b.result.Some?)
    && (b.completion.Delivered? ==> b.latest.Some?)
    && (b.result.Some? && !announcing ==> b.completion.Delivered?)
  }

  // Whatever a caller of shutdown() can be told is the final result, or a
  // report that asks for deferral.
  ghost predicate AnswersOk(b: Book, owner: Owner) {
    && (b.completion.Delivered? ==> b.result == Some(b.completion.value) || RequiresDeferral(b.completion.value))
    && (b.result.None? && b.latest.Some? ==> RequiresDeferral(b.latest.value))
    && (owner.Deferring? ==> RequiresDeferral(owner.report))
  }

  // A finished owner has left a result or a live finalizer behind.
  ghost predicate HandoffOk(s: State) {
    && (s.owner.Gone? && s.book.result.None? ==> !s.finalizer.Missing?)
    && (s.owner.Deferring? ==> !s.finalizer.Missing?)
    && (s.finalizer.Over? ==> s.book.result.Some?)
    && (s.owner.InPass? ==> s.book.result.None?)
    && (s.book.result.Some? && !s.loopClosed ==> s.finalizer.Missing? || s.finalizer.Over?)
    && (!s.finalizer.Missing? ==> !s.owner.Idle?)
  }

  // A normally published result stems from a pass that invoked all five
  // actions in order, and only such a result can say SHUTDOWN_COMPLETE.
  ghost predicate SourceOk(source: Option<Pass>, result: Option<Result>) {
    && (source.Some? ==> result == Some(Report(source.value.failures)) && source.value.invoked == ACTIONS)
    && (result.Some? && result.value.complete ==> source.Some?)
    && (result.Some? ==> (result.value.complete <==> result.value.failures == []))
  }

  // A blocked finalizer still has a live task to wait for, or a wake-up coming.
  ghost predicate WakeOk(s: State) {
    s.finalizer.Blocked? && !s.loopClosed ==> s.wakeup || s.soon > 0 || s.book.tracked != {}
  }

  ghost predicate Inv(s: State) {
    && PassesOk(s.owner, s.finalizer, Live(s))
    && BookOk(s.book, s.owner, s.announcing)
    && AnswersOk(s.book, s.owner)
    && HandoffOk(s)
    && SourceOk(s.source, s.book.result)
    && WakeOk(s)
  }

  lemma {:induction false} StartInv()
    ensures Inv(START)
  {}

  lemma {:induction false} AbortedIsFinal(error: ErrorName)
    requires error != PendingCleanup
    ensures !RequiresDeferral(Aborted(error))
  {}

  lemma {:induction false} StepPasses(s: State, step: Step)
    requires PassesOk(s.owner, s.finalizer, Live(s)) && BookOk(s.book, s.owner, s.announcing) && HandoffOk(s)
    requires Enabled(s, step)
    ensures PassesOk(Apply(s, step).owner, Apply(s, step).finalizer, Live(Apply(s, step)))
  {
    match step
    case OwnerBegin => BeginOk(s.owner.pass, Live(s));
    case OwnerEnd(o) => EndOk(s.owner.pass, o);
    case FinalizerBegin => BeginOk(s.finalizer.pass, Live(s));
    case FinalizerEnd(o) => EndOk(s.finalizer.pass, o);
    case _ =>
  }

  lemma {:induction false} StepBook(s: State, step: Step)
    requires BookOk(s.book, s.owner, s.announcing) && HandoffOk(s) && Enabled(s, step)
    ensures BookOk(Apply(s, step).book, Apply(s, step).owner, Apply(s, step).announcing)
  {
    match step
    case OwnerAbort(error) => AbortedIsFinal(error);
    case FinalizerAbort(error) => AbortedIsFinal(error);
    case WatcherPublish => AbortedIsFinal(LoopClosed);
    case _ =>
  }

  lemma {:induction false} StepAnswers(s: State, step: Step)
    requires AnswersOk(s.book, s.owner) && BookOk(s.book, s.owner, s.announcing) && Enabled(s, step)
    ensures AnswersOk(Apply(s, step).book, Apply(s, step).owner)
  {}

  lemma {:induction false} StepHandoff(s: State, step: Step)
    requires HandoffOk(s) && BookOk(s.book, s.owner, s.announcing) && PassesOk(s.owner, s.finalizer, Live(s))
    requires Enabled(s, step)
    ensures HandoffOk(Apply(s, step))
  {}

  lemma {:induction false} StepSource(s: State, step: Step)
    requires SourceOk(s.source, s.book.result) && PassesOk(s.owner, s.finalizer, Live(s)) && Enabled(s, step)
    ensures SourceOk(Apply(s, step).source, Apply(s, step).book.result)
  {
    assert ACTIONS[..|ACTIONS|] == ACTIONS;
  }

  lemma {:induction false} StepWake(s: State, step: Step)
    requires WakeOk(s) && Enabled(s, step)
    ensures WakeOk(Apply(s, step))
  {}

  lemma {:induction false} StepInv(s: State, step: Step)
    requires Inv(s) && Enabled(s, step)
    ensures Inv(Apply(s, step))
  {
    StepPasses(s, step);
    StepBook(s, step);
    StepAnswers(s, step);
    StepHandoff(s, step);
    StepSource(s, step);
    StepWake(s, step);
  }

  lemma {:induction false} RunInv(s: State, steps: seq<Step>)
    requires Inv(s) && Feasible(s, steps)
    ensures Inv(Run(s, steps))
    decreases |steps|
  {
    if steps != [] {
      StepInv(s, steps[0]);
      RunInv(Apply(s, steps[0]), steps[1..]);
    }
  }
}
