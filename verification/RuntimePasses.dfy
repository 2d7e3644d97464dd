// Where a final result comes from: the pass behind it, step by step of the run.
module RuntimePasses {
  import opened Options
  import opened RuntimeCore
  import opened RuntimeProtocol
  import opened RuntimeProperties

  // The outcomes with which the owner's, or the finalizer's, actions end in these steps.
  function OwnerEnds(steps: seq<Step>): seq<Outcome> {
    if steps == [] then [] else
      var last := steps[|steps| - 1];
      OwnerEnds(steps[..|steps| - 1]) + (if last.OwnerEnd? then [last.outcome] else [])
  }

  function FinalizerEnds(steps: seq<Step>): seq<Outcome> {
    if steps == [] then [] else
      var last := steps[|steps| - 1];
      FinalizerEnds(steps[..|steps| - 1]) + (if last.FinalizerEnd? then [last.outcome] else [])
  }

  lemma {:induction false} EndsGrow(steps: seq<Step>, b: nat, n: nat)
    requires b <= n < |steps|
    ensures OwnerEnds(steps[b..n + 1])
         == OwnerEnds(steps[b..n]) + (if steps[n].OwnerEnd? then [steps[n].outcome] else [])
    ensures FinalizerEnds(steps[b..n + 1])
         == FinalizerEnds(steps[b..n]) + (if steps[n].FinalizerEnd? then [steps[n].outcome] else [])
  {
    var more := steps[b..n + 1];
    assert more[|more| - 1] == steps[n] && more[..|more| - 1] == steps[b..n];
  }

  // ---- the states of a run ----

  lemma {:induction false} PrefixFeasible(s: State, steps: seq<Step>, n: nat)
    requires Feasible(s, steps) && n <= |steps|
    ensures Feasible(s, steps[..n])
    ensures n < |steps| ==>
              Enabled(Run(s, steps[..n]), steps[n]) && Feasible(s, steps[..n + 1])
              && Run(s, steps[..n + 1]) == Apply(Run(s, steps[..n]), steps[n])
    decreases n
  {
    if n > 0 {
      PrefixFeasible(Apply(s, steps[0]), steps[1..], n - 1);
      assert steps[..n][1..] == steps[1..][..n - 1];
      if n < |steps| { assert steps[..n + 1][1..] == steps[1..][..n]; }
    } else if steps != [] {
      assert steps[..1][1..] == [] && steps[..1][0] == steps[0];
      assert Run(Apply(s, steps[0]), []) == Apply(s, steps[0]);
    }
  }

  ghost function After(steps: seq<Step>, n: nat): State
    requires Feasible(START, steps) && n <= |steps|
  {
    PrefixFeasible(START, steps, n);
    Run(START, steps[..n])
  }

  lemma {:induction false} AfterOne(steps: seq<Step>, n: nat)
    requires Feasible(START, steps) && n < |steps|
    ensures Enabled(After(steps, n), steps[n]) && After(steps, n + 1) == Apply(After(steps, n), steps[n])
    ensures Inv(After(steps, n))
  {
    PrefixFeasible(START, steps, n);
    StartInv();
    RunInv(START, steps[..n]);
  }

  // ---- a pass and the outcomes of its actions ----

  function Charged(outcomes: seq<Outcome>): seq<Failure>
    requires |outcomes| <= 5
  {
    if outcomes == [] then [] else
      var k := |outcomes| - 1;
      Charged(outcomes[..k]) + Charge([Domain, Settlement, Learning, Connection, Executor][k], outcomes[k])
  }

  lemma {:induction false} ChargedAll(outcomes: seq<Outcome>)
    requires |outcomes| == 5
    ensures Charged(outcomes) == Charges(outcomes)
  {
    assert outcomes[..4][..3] == outcomes[..3] && outcomes[..3][..2] == outcomes[..2];
    assert outcomes[..2][..1] == outcomes[..1] && outcomes[..1][..0] == [];
    assert Charged(outcomes[..1]) == Charge(Domain, outcomes[0]);
    assert Charged(outcomes[..2]) == Charged(outcomes[..1]) + Charge(Settlement, outcomes[1]);
    assert Charged(outcomes[..3]) == Charged(outcomes[..2]) + Charge(Learning, outcomes[2]);
    assert Charged(outcomes[..4]) == Charged(outcomes[..3]) + Charge(Connection, outcomes[3]);
  }

  // Unless some failure defers it, the pass so far is the charges of these outcomes.
  ghost predicate Traced(p: Pass, outcomes: seq<Outcome>) {
    p.next <= 5
    && (!RequiresDeferral(Report(p.failures)) ==>
          |outcomes| == p.next && (forall o :: o in outcomes ==> !o.Outlived?) && p.failures == Charged(outcomes))
  }

  lemma {:induction false} TracedBegin(p: Pass, live: set<Task>, outcomes: seq<Outcome>)
    requires Traced(p, outcomes) && CanBegin(p)
    ensures Traced(Begin(p, live), outcomes)
  {
    DeferralAppends(p.failures, Failure(ACTIONS[p.next], PendingCleanup));
  }

  lemma {:induction false} EndCharges(p: Pass, o: Outcome)
    requires CanEnd(p)
    ensures End(p, o).next == p.next + 1
    ensures End(p, o).failures
         == p.failures + Charge([Domain, Settlement, Learning, Connection, Executor][p.next], o)
    ensures o.Outlived? ==> RequiresDeferral(Report(End(p, o).failures))
  {
    if o.Outlived? {
      assert End(p, o).failures[|p.failures|].error == PendingCleanup;
    }
  }

  lemma {:induction false} TracedEnd(p: Pass, o: Outcome, outcomes: seq<Outcome>)
    requires Traced(p, outcomes) && CanEnd(p)
    ensures Traced(End(p, o), outcomes + [o])
  {
    var op := [Domain, Settlement, Learning, Connection, Executor][p.next];
    assert ACTIONS[p.next] == op;
    EndCharges(p, o);
    if Charge(op, o) != [] { DeferralAppends(p.failures, Charge(op, o)[0]); }
    if !RequiresDeferral(Report(End(p, o).failures)) {
      assert !RequiresDeferral(Report(p.failures));
      var more := outcomes + [o];
      assert more[|more| - 1] == o && more[..|more| - 1] == outcomes;
      assert Charged(more) == Charged(outcomes) + Charge(op, o);
    }
  }

  // The pass now in hand began afresh after b steps.
  ghost predicate OwnerSince(steps: seq<Step>, b: nat, n: nat)
    requires Feasible(START, steps) && n <= |steps|
  {
    b <= n && After(steps, b).owner == InPass(NEW_PASS)
    && After(steps, n).owner.InPass? && Traced(After(steps, n).owner.pass, OwnerEnds(steps[b..n]))
  }

  ghost predicate FinalizerSince(steps: seq<Step>, b: nat, n: nat)
    requires Feasible(START, steps) && n <= |steps|
  {
    b <= n && After(steps, b).finalizer == Passing(NEW_PASS)
    && After(steps, n).finalizer.Passing? && Traced(After(steps, n).finalizer.pass, FinalizerEnds(steps[b..n]))
  }

  lemma {:induction false} OwnerPassMoves(s: State, step: Step)
    requires Inv(s) && Enabled(s, step) && Apply(s, step).owner.InPass?
    ensures !s.owner.InPass? ==> Apply(s, step).owner == InPass(NEW_PASS) && !step.OwnerEnd?
    ensures s.owner.InPass? && step == OwnerBegin ==>
              CanBegin(s.owner.pass) && Apply(s, step).owner.pass == Begin(s.owner.pass, Live(s))
    ensures s.owner.InPass? && step.OwnerEnd? ==>
              CanEnd(s.owner.pass) && Apply(s, step).owner.pass == End(s.owner.pass, step.outcome)
    ensures s.owner.InPass? && step != OwnerBegin && !step.OwnerEnd? ==> Apply(s, step).owner == s.owner
  {}

  lemma {:induction false} OwnerTracedStep(s: State, step: Step, outcomes: seq<Outcome>)
    requires Inv(s) && Enabled(s, step) && s.owner.InPass? && Apply(s, step).owner.InPass?
    requires Traced(s.owner.pass, outcomes)
    ensures Traced(Apply(s, step).owner.pass, outcomes + if step.OwnerEnd? then [step.outcome] else [])
  {
    OwnerPassMoves(s, step);
    if step == OwnerBegin { TracedBegin(s.owner.pass, Live(s), outcomes); }
    if step.OwnerEnd? { TracedEnd(s.owner.pass, step.outcome, outcomes); }
    assert outcomes + [] == outcomes;
  }

  lemma {:induction false} OwnerTraced(steps: seq<Step>, n: nat) returns (b: nat)
    requires Feasible(START, steps) && n <= |steps| && After(steps, n).owner.InPass?
    ensures OwnerSince(steps, b, n)
    decreases n
  {
    if n == 0 {
      assert false;
    } else {
      AfterOne(steps, n - 1);
      var before, step := After(steps, n - 1), steps[n - 1];
      if before.owner.InPass? {
        b := OwnerTraced(steps, n - 1);
        EndsGrow(steps, b, n - 1);
        OwnerTracedStep(before, step, OwnerEnds(steps[b..n - 1]));
      } else {
        OwnerPassMoves(before, step);
        b := n;
        assert steps[n..n] == [];
      }
    }
  }

  lemma {:induction false} FinalizerPassMoves(s: State, step: Step)
    requires Enabled(s, step) && Apply(s, step).finalizer.Passing?
    ensures !s.finalizer.Passing? ==> Apply(s, step).finalizer == Passing(NEW_PASS) && !step.FinalizerEnd?
    ensures s.finalizer.Passing? && step == FinalizerBegin ==>
              CanBegin(s.finalizer.pass) && Apply(s, step).finalizer.pass == Begin(s.finalizer.pass, Live(s))
    ensures s.finalizer.Passing? && step.FinalizerEnd? ==>
              CanEnd(s.finalizer.pass) && Apply(s, step).finalizer.pass == End(s.finalizer.pass, step.outcome)
    ensures s.finalizer.Passing? && step != FinalizerBegin && !step.FinalizerEnd? ==>
              Apply(s, step).finalizer == s.finalizer
  {}

  lemma {:induction false} FinalizerTracedStep(s: State, step: Step, outcomes: seq<Outcome>)
    requires Enabled(s, step) && s.finalizer.Passing? && Apply(s, step).finalizer.Passing?
    requires Traced(s.finalizer.pass, outcomes)
    ensures Traced(Apply(s, step).finalizer.pass, outcomes + if step.FinalizerEnd? then [step.outcome] else [])
  {
    FinalizerPassMoves(s, step);
    if step == FinalizerBegin { TracedBegin(s.finalizer.pass, Live(s), outcomes); }
    if step.FinalizerEnd? { TracedEnd(s.finalizer.pass, step.outcome, outcomes); }
    assert outcomes + [] == outcomes;
  }

  lemma {:induction false} FinalizerTraced(steps: seq<Step>, n: nat) returns (b: nat)
    requires Feasible(START, steps) && n <= |steps| && After(steps, n).finalizer.Passing?
    ensures FinalizerSince(steps, b, n)
    decreases n
  {
    if n == 0 {
      assert false;
    } else {
      AfterOne(steps, n - 1);
      var before, step := After(steps, n - 1), steps[n - 1];
      if before.finalizer.Passing? {
        b := FinalizerTraced(steps, n - 1);
        EndsGrow(steps, b, n - 1);
        FinalizerTracedStep(before, step, FinalizerEnds(steps[b..n - 1]));
      } else {
        FinalizerPassMoves(before, step);
        b := n;
        assert steps[n..n] == [];
      }
    }
  }

  // The outcomes of the actions of the one pass that began afresh after b
  // steps and was reported by step e.
  ghost predicate PassOutcomes(steps: seq<Step>, b: nat, e: nat, outcomes: seq<Outcome>)
    requires Feasible(START, steps)
  {
    b <= e < |steps|
    && ((steps[e] == OwnerReport && After(steps, b).owner == InPass(NEW_PASS) && outcomes == OwnerEnds(steps[b..e]))
        || (steps[e] == FinalizerReport && After(steps, b).finalizer == Passing(NEW_PASS)
            && outcomes == FinalizerEnds(steps[b..e])))
  }

  // Step e stores this final result.
  ghost predicate Stores(steps: seq<Step>, e: nat, r: Result)
    requires Feasible(START, steps)
  {
    e < |steps| && After(steps, e).book.result.None? && After(steps, e + 1).book.result == Some(r)
  }

  ghost predicate FromPass(steps: seq<Step>, b: nat, e: nat, outcomes: seq<Outcome>, r: Result)
    requires Feasible(START, steps)
  {
    Stores(steps, e, r) && PassOutcomes(steps, b, e, outcomes) && |outcomes| == 5
    && (forall o :: o in outcomes ==> !o.Outlived?) && r.failures == Charges(outcomes)
  }

  // The error an abandoned shutdown reports.
  predicate Abandons(step: Step, r: Result) {
    match step
    case OwnerAbort(error) => r.failures == [Failure(Lifecycle, error)]
    case FinalizerAbort(error) => r.failures == [Failure(Lifecycle, error)]
    case WatcherPublish => r.failures == [Failure(Lifecycle, LoopClosed)]
    case _ => false
  }

  // A final result is stored once: either by a step that abandons the
  // shutdown, or by the report of a pass whose five actions were all called
  // and all ended, and its failures are exactly what they are charged with.
  lemma {:induction false} ResultExplained(steps: seq<Step>, n: nat) returns (b: nat, e: nat, outcomes: seq<Outcome>)
    requires Feasible(START, steps) && n <= |steps| && After(steps, n).book.result.Some?
    ensures e < n && Stores(steps, e, After(steps, n).book.result.value)
    ensures Abandons(steps[e], After(steps, n).book.result.value)
         || FromPass(steps, b, e, outcomes, After(steps, n).book.result.value)
    decreases n
  {
    if n == 0 {
      assert false;
    } else {
      AfterOne(steps, n - 1);
      var before, step := After(steps, n - 1), steps[n - 1];
      if before.book.result.Some? {
        b, e, outcomes := ResultExplained(steps, n - 1);
        StepForward(before, step);
      } else {
        e := n - 1;
        b, outcomes := StoredNow(steps, e);
      }
    }
  }

  lemma {:induction false} StoredNow(steps: seq<Step>, e: nat) returns (b: nat, outcomes: seq<Outcome>)
    requires Feasible(START, steps) && e < |steps|
    requires After(steps, e).book.result.None? && After(steps, e + 1).book.result.Some?
    ensures var r := After(steps, e + 1).book.result.value;
            Abandons(steps[e], r) || FromPass(steps, b, e, outcomes, r)
  {
    AfterOne(steps, e);
    b, outcomes := 0, [];
    match steps[e] {
      case OwnerReport =>
        b := OwnerTraced(steps, e);
        outcomes := OwnerEnds(steps[b..e]);
        ChargedAll(outcomes);
      case FinalizerReport =>
        b := FinalizerTraced(steps, e);
        outcomes := FinalizerEnds(steps[b..e]);
        ChargedAll(outcomes);
      case _ =>
    }
  }

  // SHUTDOWN_COMPLETE: the five actions of the pass behind it all returned, and
  // the settlement wait returned True.
  lemma {:induction false} CompleteMeansAllReturned(steps: seq<Step>) returns (b: nat, e: nat, outcomes: seq<Outcome>)
    requires Feasible(START, steps)
    requires Run(START, steps).book.result.Some? && Run(START, steps).book.result.value.complete
    ensures FromPass(steps, b, e, outcomes, Run(START, steps).book.result.value)
    ensures |outcomes| == 5 && outcomes[1] == Returned(true) && forall o :: o in outcomes ==> o.Returned?
  {
    assert steps[..|steps|] == steps;
    StartInv();
    RunInv(START, steps);
    b, e, outcomes := ResultExplained(steps, |steps|);
    ChargesNothing(outcomes);
  }

  // ---- what is answered in between ----

  // No step that hands out a report.
  predicate Unreported(steps: seq<Step>) {
    forall step :: step in steps ==> step !in [OwnerReport, OwnerResume, FinalizerReport]
  }

  lemma {:induction false} LatestStays(s: State, steps: seq<Step>)
    requires Inv(s) && Feasible(s, steps) && Unreported(steps) && Run(s, steps).book.result.None?
    ensures Run(s, steps).book.latest == s.book.latest
    decreases |steps|
  {
    if steps != [] {
      StepInv(s, steps[0]);
      assert steps[0] in steps;
      LatestStays(Apply(s, steps[0]), steps[1..]);
      RunForward(Apply(s, steps[0]), steps[1..]);
    }
  }

  // Once a pass of the finalizer asks for another deferral, its report is what
  // shutdown() answers, until the next report or the final result.
  lemma {:induction false} DeferralIsAnswered(s: State, steps: seq<Step>)
    requires Inv(s) && Feasible(s, [FinalizerReport] + steps) && Unreported(steps)
    requires s.finalizer.Passing?
             && exists k :: 0 <= k < |s.finalizer.pass.failures| && s.finalizer.pass.failures[k].error == PendingCleanup
    ensures var later := Run(s, [FinalizerReport] + steps);
            later.book.result.None? && later.book.completion.Delivered? ==>
              Enter(later.book).1 == Answer(Result(false, s.finalizer.pass.failures))
  {
    var all := [FinalizerReport] + steps;
    assert all[0] == FinalizerReport && all[1..] == steps;
    StepInv(s, FinalizerReport);
    if Run(s, all).book.result.None? { LatestStays(Apply(s, FinalizerReport), steps); }
  }
}
