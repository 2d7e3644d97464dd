// SharedRuntimeLifespan: a lease count over one RuntimeLifecycle.  The last
// release starts the runtime's shutdown and then follows its finalization.
module SharedLifespan {
  import R = RuntimeProtocol
  import RP = RuntimeProperties
  import C = RuntimeCore

  datatype Phase = Open | Closing | Closed

  datatype Leases = Leases(phase: Phase, active: int)

  // None: refused with RUNTIME_CLOSING.
  function Acquire(l: Leases): (Leases, bool) {
    if l.phase != Open then (l, false) else (l.(active := l.active + 1), true)
  }

  function Release(l: Leases): (Leases, bool) {
    if l.active - 1 == 0 then (Leases(Closing, 0), true) else (l.(active := l.active - 1), false)
  }

  class SharedRuntimeLifespan {
    var activeCount: int
    var phase: Phase

    ghost function View(): Leases
      reads this
    {
      Leases(phase, activeCount)
    }

    constructor ()
      ensures View() == Leases(Open, 0)
    {
      activeCount, phase := 0, Open;
    }

    method AcquireLease() returns (granted: bool)
      modifies this
      ensures (View(), granted) == Acquire(old(View()))
    {
      if phase != Open { return false; }
      activeCount := activeCount + 1;
      granted := true;
    }

    method ReleaseLease() returns (last: bool)
      modifies this
      ensures (View(), last) == Release(old(View()))
    {
      activeCount := activeCount - 1;
      if activeCount == 0 {
        phase := Closing;
        return true;
      }
      last := false;
    }

    method MarkClosed()
      modifies this
      ensures View() == old(View()).(phase := Closed)
    {
      phase := Closed;
    }
  }

  // _finish_shutdown of the last holder.
  datatype Finish = NotYet | Due | Calling | Following

  datatype State = State(leases: Leases, holders: set<nat>, finish: Finish, starts: nat, runtime: R.State)

  datatype Step =
    | Enter(holder: nat)
    | Leave(holder: nat)
    | StartShutdown
    | ShutdownReturned
    | MarkClosed
    | Runtime(step: R.Step)     // anything the lifecycle does, including calls by others

  const START := State(Leases(Open, 0), {}, NotYet, 0, R.START)

  predicate Enabled(s: State, step: Step) {
    match step
    case Enter(h) => h !in s.holders
    case Leave(h) => h in s.holders
    case StartShutdown => s.finish == Due && R.Enabled(s.runtime, R.Call)
    case ShutdownReturned => s.finish == Calling
    case MarkClosed => s.finish == Following && s.runtime.book.finalization.Some?
    case Runtime(step) => R.Enabled(s.runtime, step)
  }

  function Apply(s: State, step: Step): State
    requires Enabled(s, step)
  {
    match step
    case Enter(h) =>
      var (l, granted) := Acquire(s.leases);
      if granted then s.(leases := l, holders := s.holders + {h}) else s
    case Leave(h) =>
      var (l, last) := Release(s.leases);
      s.(leases := l, holders := s.holders - {h}, finish := if last then Due else s.finish)
    case StartShutdown => s.(finish := Calling, starts := s.starts + 1, runtime := R.Apply(s.runtime, R.Call))
    case ShutdownReturned => s.(finish := Following)
    case MarkClosed => s.(leases := s.leases.(phase := Closed))
    case Runtime(step) => s.(runtime := R.Apply(s.runtime, step))
  }

  predicate Feasible(s: State, steps: seq<Step>)
    decreases |steps|
  {
    steps == [] || (Enabled(s, steps[0]) && Feasible(Apply(s, steps[0]), steps[1..]))
  }

  function Run(s: State, steps: seq<Step>): State
    requires Feasible(s, steps)
    decreases |steps|
  {
    if steps == [] then s else Run(Apply(s, steps[0]), steps[1..])
  }

  ghost predicate LeasesOk(s: State) {
    && s.leases.active == |s.holders|
    && (s.leases.phase == Open <==> s.finish == NotYet)
    && (s.leases.phase != Open ==> s.holders == {})
    && s.starts == (if s.finish == Calling || s.finish == Following then 1 else 0)
    && (s.leases.phase == Closed ==> s.finish == Following && s.runtime.book.finalization.Some?)
  }

  ghost predicate Inv(s: State) { LeasesOk(s) && R.Inv(s.runtime) }

  lemma {:induction false} StepInv(s: State, step: Step)
    requires Inv(s) && Enabled(s, step)
    ensures Inv(Apply(s, step))
  {
    match step
    case Runtime(rs) =>
      R.StepInv(s.runtime, rs);
      if s.runtime.book.finalization.Some? { KeepsFinalization(s.runtime, rs); }
    case StartShutdown => R.StepInv(s.runtime, R.Call);
    case Leave(h) => assert s.holders == (s.holders - {h}) + {h};
    case _ =>
  }

  lemma {:induction false} KeepsFinalization(r: R.State, step: R.Step)
    requires R.Enabled(r, step) && r.book.finalization.Some?
    ensures R.Apply(r, step).book.finalization.Some?
  {}

  lemma {:induction false} RunInv(s: State, steps: seq<Step>)
    requires Inv(s) && Feasible(s, steps)
    ensures Inv(Run(s, steps))
    decreases |steps|
  {
    if steps != [] {
      StepInv(s, steps[0]);
      RunInv(Apply(s, steps[0]), steps[1..]);
    }
  }

  lemma {:induction false} StartInv()
    ensures Inv(START)
  {
    R.StartInv();
  }

  // Over every history the lifespan starts the runtime's shutdown at most
  // once, only with no lease left, and reads closed only after the runtime has
  // published and announced its one final result.
  lemma {:induction false} LifespanSafe(steps: seq<Step>)
    requires Feasible(START, steps)
    ensures var s := Run(START, steps);
      && s.starts <= 1
      && (s.starts == 1 ==> s.holders == {} && s.leases.active == 0 && s.leases.phase != Open)
      && (s.leases.phase == Closed ==>
            s.runtime.book.life == C.Closed && s.runtime.book.result.Some?
            && s.runtime.book.finalization == s.runtime.book.result)
  {
    StartInv();
    RunInv(START, steps);
  }

  // Once the last lease is gone none is ever granted again.
  lemma {:induction false} NoLeaseAfterClosing(s: State, steps: seq<Step>)
    requires Inv(s) && s.leases.phase != Open && Feasible(s, steps)
    ensures Run(s, steps).holders == {} && Run(s, steps).leases.phase != Open
    ensures !Acquire(Run(s, steps).leases).1
    decreases |steps|
  {
    if steps != [] {
      StepInv(s, steps[0]);
      NoLeaseAfterClosing(Apply(s, steps[0]), steps[1..]);
    }
  }

  // A closed lifespan stays closed on the same final result.
  lemma {:induction false} ClosedForever(s: State, steps: seq<Step>)
    requires Inv(s) && s.leases.phase == Closed && Feasible(s, steps)
    ensures Run(s, steps).leases.phase == Closed
    ensures Run(s, steps).runtime.book.finalization == s.runtime.book.finalization
    decreases |steps|
  {
    if steps != [] {
      match steps[0] {
        case Runtime(rs) => RP.StepForward(s.runtime, rs); R.StepInv(s.runtime, rs);
        case _ =>
      }
      StepInv(s, steps[0]);
      ClosedForever(Apply(s, steps[0]), steps[1..]);
    }
  }
}
