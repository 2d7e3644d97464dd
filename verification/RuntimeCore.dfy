// The data of RuntimeLifecycle: results, the five ordered teardown actions,
// and the fields guarded by its state lock.
module RuntimeCore {
  import opened Options

  type Task = nat   // a cleanup task that outlived its time budget

  datatype Operation = Domain | Settlement | Learning | Connection | Executor | Lifecycle

  // Exception type names as they appear in a result.
  datatype ErrorName = PendingCleanup | PendingSettlement | Cancelled | LoopClosed | Named(name: string)

  datatype Failure = Failure(operation: Operation, error: ErrorName)

  datatype Result = Result(complete: bool, failures: seq<Failure>)

  const ACTIONS: seq<Operation> := [Domain, Settlement, Learning, Connection, Executor]

  function Report(failures: seq<Failure>): Result { Result(failures == [], failures) }

  function Aborted(error: ErrorName): Result { Result(false, [Failure(Lifecycle, error)]) }

  predicate RequiresDeferral(r: Result) {
    exists k :: 0 <= k < |r.failures| && r.failures[k].error == PendingCleanup
  }

  predicate Guarded(op: Operation) { op == Connection || op == Executor }

  // How an invoked action ends.  `Raised` is any ordinary exception;
  // `Outlived` is PendingCleanupError with the tasks still running.
  datatype Outcome = Returned(value: bool) | Outlived(tasks: set<Task>) | Raised(name: string)

  // One pass over ACTIONS: `next` actions are over, `running` is an action in
  // flight, `invoked` are the actions actually called so far.
  datatype Pass = Pass(next: nat, running: bool, failures: seq<Failure>, invoked: seq<Operation>)

  const NEW_PASS := Pass(0, false, [], [])

  function Fail(p: Pass, error: ErrorName): Pass
    requires p.next < |ACTIONS|
  {
    p.(next := p.next + 1, running := false, failures := p.failures + [Failure(ACTIONS[p.next], error)])
  }

  // The guard and the call of the next action; `live` are the tracked cleanup
  // tasks not yet done.
  function Begin(p: Pass, live: set<Task>): Pass
    requires p.next < |ACTIONS| && !p.running
  {
    if Guarded(ACTIONS[p.next]) && live != {} then Fail(p, PendingCleanup)
    else p.(running := true, invoked := p.invoked + [ACTIONS[p.next]])
  }

  function End(p: Pass, o: Outcome): Pass
    requires p.next < |ACTIONS| && p.running
  {
    match o
    case Returned(value) =>
      if ACTIONS[p.next] == Settlement && !value then Fail(p, PendingSettlement)
      else p.(next := p.next + 1, running := false)
    case Outlived(_) => Fail(p, PendingCleanup)
    case Raised(name) => Fail(p, Named(name))
  }

  // What a pass has established: unless some failure defers it, every action
  // up to here was really invoked, in order; and a pass without failures has
  // nothing skipped.
  ghost predicate PassOk(p: Pass) {
    && p.next <= |ACTIONS| && (p.running ==> p.next < |ACTIONS|)
    && |p.failures| <= p.next
    && (forall k :: 0 <= k < |p.failures| ==> p.failures[k].operation in ACTIONS[..p.next])
    && (!RequiresDeferral(Report(p.failures)) ==>
          p.invoked == (if p.running then ACTIONS[..p.next + 1] else ACTIONS[..p.next]))
  }

  lemma {:induction false} DeferralAppends(failures: seq<Failure>, f: Failure)
    ensures RequiresDeferral(Report(failures + [f])) <==>
            RequiresDeferral(Report(failures)) || f.error == PendingCleanup
  {
    var all := failures + [f];
    if RequiresDeferral(Report(failures)) {
      var k :| 0 <= k < |failures| && failures[k].error == PendingCleanup;
      assert all[k].error == PendingCleanup;
    }
    if f.error == PendingCleanup { assert all[|failures|].error == PendingCleanup; }
    if k :| 0 <= k < |all| && all[k].error == PendingCleanup {
      if k < |failures| { assert failures[k].error == PendingCleanup; }
    }
  }

  lemma {:induction false} FailOk(p: Pass, error: ErrorName)
    requires PassOk(p) && p.next < |ACTIONS| && (p.running || error == PendingCleanup)
    ensures PassOk(Fail(p, error))
  {
    DeferralAppends(p.failures, Failure(ACTIONS[p.next], error));
    assert ACTIONS[..p.next + 1] == ACTIONS[..p.next] + [ACTIONS[p.next]];
  }

  lemma {:induction false} BeginOk(p: Pass, live: set<Task>)
    requires PassOk(p) && p.next < |ACTIONS| && !p.running
    ensures PassOk(Begin(p, live))
  {
    if Guarded(ACTIONS[p.next]) && live != {} {
      FailOk(p, PendingCleanup);
    } else {
      assert ACTIONS[..p.next + 1] == ACTIONS[..p.next] + [ACTIONS[p.next]];
    }
  }

  lemma {:induction false} EndOk(p: Pass, o: Outcome)
    requires PassOk(p) && p.next < |ACTIONS| && p.running
    ensures PassOk(End(p, o))
  {
    match o
    case Returned(value) => if ACTIONS[p.next] == Settlement && !value { FailOk(p, PendingSettlement); }
    case Outlived(_) => FailOk(p, PendingCleanup);
    case Raised(name) => FailOk(p, Named(name));
  }

  // The fields guarded by the state lock, with the completion future the first
  // shutdown() call creates and the finalization future.
  datatype Life = Open | Closing | Closed
  datatype Future = Absent | Waiting | Delivered(value: Result)

  datatype Book = Book(
    life: Life,
    result: Option<Result>,
    latest: Option<Result>,
    completion: Future,
    finalization: Option<Result>,
    deferred: bool,
    tracked: set<Task>)

  const EMPTY_BOOK := Book(Open, None, None, Absent, None, false, {})

  // The locked half of _publish_final; a second publication changes nothing.
  function Record(b: Book, r: Result): Book {
    if b.result.Some? then b
    else b.(life := Closed, result := Some(r), latest := Some(r), deferred := false)
  }

  // The unlocked half, run by the one publication that was recorded.
  function Announce(b: Book): Book
    requires b.result.Some?
  {
    b.(completion := if b.completion == Waiting then Delivered(b.result.value) else b.completion,
       finalization := if b.finalization.None? then b.result else b.finalization)
  }

  function PublishInitial(b: Book, r: Result): Book {
    b.(latest := Some(r), completion := if b.completion.Delivered? then b.completion else Delivered(r))
  }

  datatype Entry = Answer(value: Result) | Own | Join

  // The locked entry of shutdown().
  function Enter(b: Book): (Book, Entry) {
    if b.result.Some? then (b, Answer(b.result.value))
    else if b.completion == Absent then (b.(completion := Waiting, life := Closing), Own)
    else if b.completion.Delivered? && b.latest.Some? then (b, Answer(b.latest.value))
    else (b, Join)
  }

  // One action of an undisturbed pass: `start` and `end` are the tasks done
  // when its turn comes and when it ends with `o`.
  function ActionTurn(p: Pass, tracked: set<Task>, o: Outcome, start: set<Task>, end: set<Task>): (Pass, set<Task>)
    requires p.next < |ACTIONS| && !p.running
  {
    var b := Begin(p, tracked - start);
    if !b.running then (b, tracked)
    else (End(b, o), tracked + (if o.Outlived? then o.tasks - end else {}))
  }

  function PassFrom(p: Pass, tracked: set<Task>, outcomes: seq<Outcome>, starts: seq<set<Task>>,
          ends: seq<set<Task>>): (Pass, set<Task>)
    requires |outcomes| == |starts| == |ends| == |ACTIONS| && p.next <= |ACTIONS| && !p.running
    decreases |ACTIONS| - p.next
  {
    if p.next == |ACTIONS| then (p, tracked)
    else
      var (p', tracked') := ActionTurn(p, tracked, outcomes[p.next], starts[p.next], ends[p.next]);
      PassFrom(p', tracked', outcomes, starts, ends)
  }

  // ---- what a pass reports, action by action ----

  // What an action that was called and ended with o is charged with.
  function Charge(op: Operation, o: Outcome): seq<Failure> {
    match o
    case Returned(value) => if op == Settlement && !value then [Failure(op, PendingSettlement)] else []
    case Outlived(_) => [Failure(op, PendingCleanup)]
    case Raised(name) => [Failure(op, Named(name))]
  }

  // Five actions that were all called, in the order of their outcomes.
  function Charges(outcomes: seq<Outcome>): seq<Failure>
    requires |outcomes| == 5
  {
    Charge(Domain, outcomes[0]) + Charge(Settlement, outcomes[1]) + Charge(Learning, outcomes[2])
    + Charge(Connection, outcomes[3]) + Charge(Executor, outcomes[4])
  }

  predicate AllWell(outcomes: seq<Outcome>) {
    |outcomes| == 5 && (forall o :: o in outcomes ==> o.Returned?) && outcomes[1].value
  }

  lemma {:induction false} ChargesNothing(outcomes: seq<Outcome>)
    requires |outcomes| == 5
    ensures Charges(outcomes) == [] <==> AllWell(outcomes)
  {
    assert forall o :: o in outcomes <==>
      o == outcomes[0] || o == outcomes[1] || o == outcomes[2] || o == outcomes[3] || o == outcomes[4];
  }

  // The tasks an action of outcome o leaves running.
  function Left(o: Outcome, end: set<Task>): set<Task> { if o.Outlived? then o.tasks - end else {} }

  // The tasks that keep the connection action from being called, and then the executor action.
  function Blocking(tracked: set<Task>, outcomes: seq<Outcome>, starts: seq<set<Task>>, ends: seq<set<Task>>):
      (set<Task>, set<Task>)
    requires |outcomes| == |starts| == |ends| == 5
  {
    var before := tracked + Left(outcomes[0], ends[0]) + Left(outcomes[1], ends[1]) + Left(outcomes[2], ends[2]);
    var third := before - starts[3];
    (third, (if third == {} then before + Left(outcomes[3], ends[3]) else before) - starts[4])
  }

  // One pass in words: domain, settlement and learning are always called; the
  // connection and the executor only when no tracked task is live; every
  // failure is charged to its own action, in order.
  ghost predicate Passed(p: Pass, tracked: set<Task>, outcomes: seq<Outcome>, starts: seq<set<Task>>,
          ends: seq<set<Task>>)
    requires |outcomes| == |starts| == |ends| == 5
  {
    var (connection, executor) := Blocking(tracked, outcomes, starts, ends);
    p.invoked == [Domain, Settlement, Learning] + (if connection == {} then [Connection] else [])
                 + (if executor == {} then [Executor] else [])
    && p.failures == Charge(Domain, outcomes[0]) + Charge(Settlement, outcomes[1]) + Charge(Learning, outcomes[2])
         + (if connection == {} then Charge(Connection, outcomes[3]) else [Failure(Connection, PendingCleanup)])
         + (if executor == {} then Charge(Executor, outcomes[4]) else [Failure(Executor, PendingCleanup)])
  }

  // What one turn adds to the pass.
  lemma {:induction false} TurnAdds(p: Pass, tracked: set<Task>, o: Outcome, start: set<Task>, end: set<Task>)
    requires p.next < 5 && !p.running
    ensures var op := [Domain, Settlement, Learning, Connection, Executor][p.next];
            var (p', tracked') := ActionTurn(p, tracked, o, start, end);
            p'.next == p.next + 1 && !p'.running
            && if (op == Connection || op == Executor) && tracked - start != {} then
                 p'.invoked == p.invoked && p'.failures == p.failures + [Failure(op, PendingCleanup)]
                 && tracked' == tracked
               else
                 p'.invoked == p.invoked + [op] && p'.failures == p.failures + Charge(op, o)
                 && tracked' == tracked + Left(o, end)
  {}

  // The first three actions are always called.
  lemma {:induction false} ThreeTurns(tracked: set<Task>, outcomes: seq<Outcome>, starts: seq<set<Task>>,
          ends: seq<set<Task>>) returns (p: Pass, t: set<Task>)
    requires |outcomes| == |starts| == |ends| == |ACTIONS|
    ensures p.next == 3 && !p.running && p.invoked == [Domain, Settlement, Learning]
    ensures p.failures == Charge(Domain, outcomes[0]) + Charge(Settlement, outcomes[1]) + Charge(Learning, outcomes[2])
    ensures t == tracked + Left(outcomes[0], ends[0]) + Left(outcomes[1], ends[1]) + Left(outcomes[2], ends[2])
    ensures PassFrom(NEW_PASS, tracked, outcomes, starts, ends) == PassFrom(p, t, outcomes, starts, ends)
  {
    var (p1, t1) := ActionTurn(NEW_PASS, tracked, outcomes[0], starts[0], ends[0]);
    TurnAdds(NEW_PASS, tracked, outcomes[0], starts[0], ends[0]);
    var (p2, t2) := ActionTurn(p1, t1, outcomes[1], starts[1], ends[1]);
    TurnAdds(p1, t1, outcomes[1], starts[1], ends[1]);
    TurnAdds(p2, t2, outcomes[2], starts[2], ends[2]);
    var turn := ActionTurn(p2, t2, outcomes[2], starts[2], ends[2]);
    p, t := turn.0, turn.1;
    assert PassFrom(p1, t1, outcomes, starts, ends) == PassFrom(p2, t2, outcomes, starts, ends);
  }

  // The other two depend on the tasks still running.
  lemma {:induction false} TwoTurns(p: Pass, t: set<Task>, outcomes: seq<Outcome>, starts: seq<set<Task>>,
          ends: seq<set<Task>>)
    requires |outcomes| == |starts| == |ends| == |ACTIONS| && p.next == 3 && !p.running
    ensures var connection := t - starts[3];
            var executor := (if connection == {} then t + Left(outcomes[3], ends[3]) else t) - starts[4];
            var last := PassFrom(p, t, outcomes, starts, ends).0;
            last.invoked == p.invoked + (if connection == {} then [Connection] else [])
                            + (if executor == {} then [Executor] else [])
            && last.failures == p.failures
                 + (if connection == {} then Charge(Connection, outcomes[3]) else [Failure(Connection, PendingCleanup)])
                 + (if executor == {} then Charge(Executor, outcomes[4]) else [Failure(Executor, PendingCleanup)])
  {
    var (p4, t4) := ActionTurn(p, t, outcomes[3], starts[3], ends[3]);
    TurnAdds(p, t, outcomes[3], starts[3], ends[3]);
    var (p5, t5) := ActionTurn(p4, t4, outcomes[4], starts[4], ends[4]);
    TurnAdds(p4, t4, outcomes[4], starts[4], ends[4]);
    assert PassFrom(p5, t5, outcomes, starts, ends) == (p5, t5);
    assert PassFrom(p4, t4, outcomes, starts, ends) == (p5, t5);
  }

  lemma {:induction false} PassInWords(tracked: set<Task>, outcomes: seq<Outcome>, starts: seq<set<Task>>,
          ends: seq<set<Task>>)
    requires |outcomes| == |starts| == |ends| == |ACTIONS|
    ensures Passed(PassFrom(NEW_PASS, tracked, outcomes, starts, ends).0, tracked, outcomes, starts, ends)
  {
    var p, t := ThreeTurns(tracked, outcomes, starts, ends);
    TwoTurns(p, t, outcomes, starts, ends);
  }

  class RuntimeLifecycle {
    var life: Life
    var result: Option<Result>
    var latest: Option<Result>
    var completion: Future
    var finalization: Option<Result>
    var deferred: bool
    var pendingCleanup: set<Task>
    var hooked: set<Task>        // tasks carrying the callback _pending_cleanup_finished
    var finalizing: bool         // the wake-up event exists
    var wakeups: nat             // calls of its set() scheduled so far

    ghost function View(): Book
      reads this
    {
      Book(life, result, latest, completion, finalization, deferred, pendingCleanup)
    }

    constructor ()
      ensures View() == EMPTY_BOOK && hooked == {} && !finalizing && wakeups == 0
    {
      life, result, latest, completion, finalization := Open, None, None, Absent, None;
      deferred, pendingCleanup, hooked, finalizing, wakeups := false, {}, {}, false, 0;
    }

    method PublishFinal(r: Result)
      modifies this`life, this`result, this`latest, this`completion, this`finalization, this`deferred
      ensures View() == if old(View()).result.Some? then old(View()) else Announce(Record(old(View()), r))
      ensures old(result).Some? ==> View() == old(View())
      ensures old(result).None? ==> result == Some(r) && latest == Some(r) && life == Closed && !deferred
      ensures old(result).None? && old(completion) == Waiting ==> completion == Delivered(r)
      ensures old(result).None? && old(finalization).None? ==> finalization == Some(r)
    {
      if result.Some? { return; }
      result := Some(r);
      latest := Some(r);
      life := Closed;
      deferred := false;
      if completion == Waiting { completion := Delivered(r); }
      if finalization.None? { finalization := Some(r); }
    }

    method PublishInitially(r: Result)
      requires completion != Absent
      modifies this`latest, this`completion
      ensures View() == PublishInitial(old(View()), r)
      ensures latest == Some(r) && result == old(result) && life == old(life)
      ensures completion == if old(completion).Delivered? then old(completion) else Delivered(r)
    {
      latest := Some(r);
      if !completion.Delivered? { completion := Delivered(r); }
    }

    method Shutdown() returns (entry: Entry)
      modifies this`completion, this`life
      ensures (View(), entry) == Enter(old(View()))
      ensures entry.Own? <==> old(result).None? && old(completion) == Absent
      ensures entry.Own? ==> completion == Waiting && life == Closing
      ensures !entry.Own? ==> View() == old(View())
      ensures old(result).Some? ==> entry == Answer(old(result).value)
      ensures old(result).None? && old(completion).Delivered? && old(latest).Some? ==>
                entry == Answer(old(latest).value)
      ensures old(result).None? && old(completion) == Waiting ==> entry == Join
    {
      if result.Some? { return Answer(result.value); }
      if completion == Absent {
        completion := Waiting;
        life := Closing;
        return Own;
      }
      if completion.Delivered? && latest.Some? { return Answer(latest.value); }
      entry := Join;
    }

    method TrackPendingCleanup(tasks: set<Task>, done: set<Task>)
      modifies this`pendingCleanup, this`hooked
      ensures pendingCleanup == old(pendingCleanup) + (tasks - done)
      ensures hooked == old(hooked) + (tasks - done)
    {
      var live := set t | t in tasks && t !in done;
      pendingCleanup := pendingCleanup + live;
      hooked := hooked + live;
    }

    method PendingCleanupFinished(task: Task)
      modifies this`pendingCleanup, this`wakeups
      ensures pendingCleanup == old(pendingCleanup) - {task}
      ensures wakeups == old(wakeups) + if finalizing then 1 else 0
    {
      pendingCleanup := pendingCleanup - {task};
      if finalizing { wakeups := wakeups + 1; }
    }

    // The loop of _shutdown_actions against a fixed environment.
    method ShutdownActions(outcomes: seq<Outcome>, starts: seq<set<Task>>, ends: seq<set<Task>>)
        returns (report: Result, ghost pass: Pass)
      requires |outcomes| == |starts| == |ends| == |ACTIONS|
      modifies this`pendingCleanup, this`hooked
      ensures (pass, pendingCleanup) == PassFrom(NEW_PASS, old(pendingCleanup), outcomes, starts, ends)
      ensures report == Report(pass.failures) && PassOk(pass) && pass.next == |ACTIONS|
      ensures report.failures == pass.failures && Passed(pass, old(pendingCleanup), outcomes, starts, ends)
      ensures Blocking(old(pendingCleanup), outcomes, starts, ends) == ({}, {}) ==>
                report.failures == Charges(outcomes)
                && pass.invoked == [Domain, Settlement, Learning, Connection, Executor]
      ensures report.complete <==>
                AllWell(outcomes) && Blocking(old(pendingCleanup), outcomes, starts, ends) == ({}, {})
    {
      var failures: seq<Failure> := [];
      pass := NEW_PASS;
      for k := 0 to |ACTIONS|
        invariant pass.next == k && !pass.running && pass.failures == failures && PassOk(pass)
        invariant PassFrom(pass, pendingCleanup, outcomes, starts, ends)
          == PassFrom(NEW_PASS, old(pendingCleanup), outcomes, starts, ends)
      {
        var operation := ACTIONS[k];
        var pending := pendingCleanup - starts[k];
        ghost var turn := ActionTurn(pass, pendingCleanup, outcomes[k], starts[k], ends[k]);
        BeginOk(pass, pending);
        if Guarded(operation) && pending != {} {
          ghost var before := pendingCleanup;
          TrackPendingCleanup(pending, starts[k]);
          failures := failures + [Failure(operation, PendingCleanup)];
          assert pendingCleanup == before;
        } else {
          EndOk(Begin(pass, pending), outcomes[k]);
          match outcomes[k] {
            case Returned(value) =>
              if operation == Settlement && !value { failures := failures + [Failure(operation, PendingSettlement)]; }
            case Outlived(tasks) =>
              TrackPendingCleanup(tasks, ends[k]);
              failures := failures + [Failure(operation, PendingCleanup)];
            case Raised(name) => failures := failures + [Failure(operation, Named(name))];
          }
        }
        assert pendingCleanup == turn.1;
        pass := turn.0;
      }
      assert ACTIONS[..|ACTIONS|] == ACTIONS;
      PassInWords(old(pendingCleanup), outcomes, starts, ends);
      ChargesNothing(outcomes);
      report := Result(failures == [], failures);
    }
  }
}
