// When the report file may change between looks: exactly when a promotion gets
// past the check of the scope's owner.
module PromotionFlips {
  import opened Options
  import opened PyText
  import opened Baseline
  import opened Evidence
  import opened Promotion
  import opened PromotionRecords
  import opened PromotionHistory
  import opened PromotionQuiet

  // The scope already carries the state, status and identifier of the report.
  predicate Credited(s: Scope, c: Report) { s.status == c.status && s.evidence == Some(c.runId) && s.state == c.state }

  // Applying the recorded and already credited report c instead of r changes
  // nothing, and the target rests on r already.
  predicate Interchangeable(current: Ledger, q: Request, r: Report, c: Report) {
    var target, holder := FindScope(current.scopes, q.scope), FindScope(current.scopes, c.scope);
    c.scope != q.scope && c.commit == q.commit
    && c.runId in ById(current.reports) && ById(current.reports)[c.runId] == c
    && r.runId in ById(current.reports)
    && target.Some? && target.value.status == PASS && target.value.evidence == Some(r.runId)
    && holder.Some? && holder.value.owner == q.owner && Credited(holder.value, c)
  }

  // The report path shows some other content to apply_scope_report alone.
  predicate Flip(w: World, current: Ledger, q: Request, raw: Bytes, other: Bytes)
    requires Readable(w, q.path, raw)
  {
    Readable(w, q.path, other)
    && Interchangeable(current, q, ReadPayload(w, q.path, raw).value, ReadPayload(w, q.path, other).value)
  }

  // ---- what an accepted promotion shows ----

  // A scope withdrawn by the move has lost its evidence, so a scope that still
  // names a report was left alone.
  lemma {:induction false} StillNamed(s: Scope, byId: map<string, Report>, commit: string)
    requires ResetScope(s, byId, commit).evidence.Some?
    ensures ResetScope(s, byId, commit) == s
  {}

  // The target of an accepted promotion that credited another scope had its
  // PASS and its evidence before.
  lemma {:induction false} TargetKept(utc: Clock, before: Ledger, after: Ledger, indexed: Report, again: Report,
          c: Report, name: string)
    requires Valid(utc, before) && Valid(utc, after) && c.scope != name && FindScope(before.scopes, name).Some?
    requires after.scopes == StripScopes(CreditAll(before.scopes, c)) && FindScope(after.scopes, name).Some?
    requires Recorded(before, after, FindScope(after.scopes, name).value, indexed, again)
    ensures FindScope(before.scopes, name).value.status == PASS
    ensures FindScope(before.scopes, name).value.evidence == Some(indexed.runId)
  {
    var k := FindScopeAt(before.scopes, name);
    CleanScopes(before.scopes);
    assert after.scopes[k] == before.scopes[k];
    FindScopeHolds(after.scopes, k);
    TargetEarned(utc, before, after, after.scopes[k], indexed, again);
  }

  // A scope other than the target is as before, so crediting it changed nothing.
  lemma {:induction false} HolderKept(utc: Clock, before: Ledger, after: Ledger, c: Report, name: string)
    requires Valid(utc, before) && Valid(utc, after) && c.scope != name && FindScope(before.scopes, c.scope).Some?
    requires after.scopes == StripScopes(CreditAll(before.scopes, c))
    requires Others(after.scopes, name) == Others(before.scopes, name)
    requires Strip(c.status) == c.status && Strip(c.runId) == c.runId && Strip(c.state) == c.state
    ensures Credited(FindScope(before.scopes, c.scope).value, c)
  {
    var k := FindScopeAt(before.scopes, c.scope);
    CleanParts(utc, before);
    assert after.scopes[k] == StripScope(Credit(before.scopes[k], c));
    OthersAgree(before.scopes, after.scopes, name, k);
  }

  // What the application of some report c to the moved candidate says about c.
  lemma {:induction false} AppliedReport(w: World, moved: Ledger, q: Request, file: History, t: nat)
    requires Apply(w, moved, q.path, file, t, q.owner).0.Ok?
    ensures Index(w, q.path, file, t).0.Some? && file(t).Regular? && Readable(w, q.path, file(t).raw)
    ensures Index(w, q.path, file, t) == (ReadPayload(w, q.path, file(t).raw), t + 3)
    ensures Apply(w, moved, q.path, file, t, q.owner).1 == t + 3
    ensures Validate(w.utc, moved).Some?
    ensures Place(w.utc, Stripped(moved), ReadPayload(w, q.path, file(t).raw).value, q.owner)
         == Apply(w, moved, q.path, file, t, q.owner).0
  {
    IndexIsOneContent(w, q.path, file, t);
  }

  lemma {:induction false} PlacedOwner(utc: Clock, before: Ledger, c: Report, owner: string)
    requires Place(utc, before, c, owner).Ok?
    ensures c.commit == before.repository.baseCommit
    ensures FindScope(before.scopes, c.scope).Some? && FindScope(before.scopes, c.scope).value.owner == owner
    ensures Place(utc, before, c, owner).value.scopes == StripScopes(CreditAll(before.scopes, c))
  {}

  // Recording the pinned report amounts to recording c only when c is the
  // pinned report or both were recorded before.
  lemma {:induction false} BothRecorded(before: map<string, Report>, c: Report, indexed: Report)
    requires before[c.runId := StripReport(c)] == before[indexed.runId := indexed]
    ensures StripReport(c) == indexed || (c.runId in before && indexed.runId in before && c.runId != indexed.runId)
  {
    var m := before[c.runId := StripReport(c)];
    assert m[indexed.runId] == indexed && m[c.runId] == StripReport(c);
  }

  // The texts of a report as the index reads them: only the path and the digest
  // can carry padding.
  predicate Read(c: Report) { StripReport(c) == c.(path := StripReport(c).path, sha := StripReport(c).sha) }

  // The report c applied in place of the pinned r, and the comparisons passed.
  ghost predicate AppliedFor(utc: Clock, current: Ledger, q: Request, r: Report, c: Report, before: Ledger,
                             after: Ledger, again: Report) {
    Valid(utc, current) && before == Stripped(Moved(current, q, r.generated)) && Valid(utc, before)
    && Place(utc, before, c, q.owner) == Ok(after) && Read(c) && r.scope == q.scope && Strip(q.commit) == q.commit
    && FindScope(after.scopes, q.scope).Some?
    && Recorded(before, after, FindScope(after.scopes, q.scope).value, r, again)
    && FindScope(current.scopes, q.scope).Some? && FindScope(current.scopes, q.scope).value.owner != q.owner
  }

  lemma {:induction false} PlacedRecord(utc: Clock, before: Ledger, after: Ledger, c: Report, owner: string)
    requires Valid(utc, before) && Place(utc, before, c, owner) == Ok(after) && Strip(c.runId) == c.runId
    ensures ById(after.reports) == ById(before.reports)[c.runId := StripReport(c)]
    ensures c.runId in ById(before.reports) ==> ById(before.reports)[c.runId] == c
  {
    PlaceMeans(utc, before, c, owner);
  }

  // Then c is another report, and both were recorded before.
  lemma {:induction false} AppliedReports(utc: Clock, current: Ledger, q: Request, r: Report, c: Report,
          before: Ledger, after: Ledger, again: Report)
    requires AppliedFor(utc, current, q, r, c, before, after, again)
    ensures c.scope != q.scope && c.commit == q.commit && r.runId in ById(current.reports)
    ensures c.runId in ById(current.reports) && ById(current.reports)[c.runId] == c
    ensures FindScope(current.scopes, c.scope).Some? && FindScope(current.scopes, c.scope).value.owner == q.owner
  {
    MovedStripped(utc, current, q, r.generated);
    PlacedOwner(utc, before, c, q.owner);
    FindReset(current.scopes, ById(current.reports), q.commit, q.scope);
    FindReset(current.scopes, ById(current.reports), q.commit, c.scope);
    PlacedRecord(utc, before, after, c, q.owner);
    BothRecorded(ById(current.reports), c, r);
  }

  // And neither the target nor the scope credited with c was withdrawn.
  lemma {:induction false} AppliedScopes(utc: Clock, current: Ledger, q: Request, r: Report, c: Report,
          before: Ledger, after: Ledger, again: Report)
    requires AppliedFor(utc, current, q, r, c, before, after, again) && c.scope != q.scope
    requires FindScope(current.scopes, c.scope).Some?
    ensures FindScope(current.scopes, q.scope).value.status == PASS
    ensures FindScope(current.scopes, q.scope).value.evidence == Some(r.runId)
    ensures Credited(FindScope(current.scopes, c.scope).value, c)
  {
    MovedStripped(utc, current, q, r.generated);
    PlaceMeans(utc, before, c, q.owner);
    PlacedOwner(utc, before, c, q.owner);
    FindReset(current.scopes, ById(current.reports), q.commit, q.scope);
    FindReset(current.scopes, ById(current.reports), q.commit, c.scope);
    TargetKept(utc, before, after, r, again, c, q.scope);
    var k := FindScopeAt(after.scopes, q.scope);
    HolderKept(utc, before, after, c, q.scope);
    StillNamed(FindScope(current.scopes, q.scope).value, ById(current.reports), q.commit);
    StillNamed(FindScope(current.scopes, c.scope).value, ById(current.reports), q.commit);
  }

  lemma {:induction false} AppliedFlip(utc: Clock, current: Ledger, q: Request, r: Report, c: Report, before: Ledger,
          after: Ledger, again: Report)
    requires AppliedFor(utc, current, q, r, c, before, after, again)
    ensures Interchangeable(current, q, r, c)
  {
    AppliedReports(utc, current, q, r, c, before, after, again);
    AppliedScopes(utc, current, q, r, c, before, after, again);
  }

  // However the file behaves, an accepted promotion names the owner of its
  // scope, or the file flipped: apply_scope_report saw another report, already
  // recorded and credited, and the target already rested on the pinned one.
  lemma {:induction false} OwnerUnlessFlipped(w: World, l: Ledger, q: Request, file: History, t: nat)
    requires Advance(w, l, q, file, t).0.Ok?
    ensures file(t + 1).Regular? && ReadyButOwner(w, l, q, file(t + 1).raw)
    ensures FindScope(Stripped(l).scopes, q.scope).value.owner == q.owner
      || (file(t + 4).Regular? && Flip(w, Stripped(l), q, file(t + 1).raw, file(t + 4).raw))
  {
    AdvanceNeeds(w, l, q, file, t);
    ValidateFixes(w.utc, l);
    var current, raw := Stripped(l), file(t + 1).raw;
    var r := ReadPayload(w, q.path, raw).value;
    var moved := Moved(current, q, r.generated);
    AppliedReport(w, moved, q, file, t + 4);
    var after := Place(w.utc, Stripped(moved), ReadPayload(w, q.path, file(t + 4).raw).value, q.owner).value;
    var again := AdvanceRecorded(w, l, q, file, t, r, after);
    AdvanceRecordsPinned(w, l, q, file, t);
    RecordedIsNormal(w, current, q, r, Advance(w, l, q, file, t).0.value);
    HexIsStripped(q.commit, 40);
    ReadIsStripped(w, q.path, file(t + 4).raw);
    ValidateFixes(w.utc, moved);
    MovedRecorded(w.utc, current, q, after, FindScope(after.scopes, q.scope).value, r, again);
    if FindScope(current.scopes, q.scope).value.owner != q.owner {
      var c := ReadPayload(w, q.path, file(t + 4).raw).value;
      AppliedFlip(w.utc, current, q, r, c, Stripped(moved), after, again);
    }
  }

  lemma {:induction false} AdvanceConcludes(w: World, l: Ledger, q: Request, file: History, t: nat, r: Report,
          after: Ledger)
    requires Advance(w, l, q, file, t).0.Ok? && Pin(w, q, file, t) == (Ok(r), t + 4)
    requires Apply(w, Moved(Stripped(l), q, r.generated), q.path, file, t + 4, q.owner) == (Ok(after), t + 7)
    ensures Conclude(w, q, file, t + 7, r, Moved(Stripped(l), q, r.generated), after).0.Ok?
  {
    assert Settle(w, q, file, t + 4, r, Moved(Stripped(l), q, r.generated)).0.Ok?;
  }

  // The comparisons an accepted promotion has passed.
  lemma {:induction false} AdvanceRecorded(w: World, l: Ledger, q: Request, file: History, t: nat, r: Report,
          after: Ledger)
    returns (again: Report)
    requires Advance(w, l, q, file, t).0.Ok? && Pin(w, q, file, t) == (Ok(r), t + 4)
    requires Apply(w, Moved(Stripped(l), q, r.generated), q.path, file, t + 4, q.owner) == (Ok(after), t + 7)
    ensures FindScope(after.scopes, q.scope).Some?
    ensures Recorded(Moved(Stripped(l), q, r.generated), after, FindScope(after.scopes, q.scope).value, r, again)
  {
    AdvanceConcludes(w, l, q, file, t, r, after);
    ConcludeRecorded(w, q, file, t + 7, r, Moved(Stripped(l), q, r.generated), after);
    again := IndexPinned(w, q.path, file, t + 7, r.sha).0.value;
  }

  // ---- and every such flip does get past it ----

  lemma {:induction false} CreditChangesNothing(ss: seq<Scope>, c: Report)
    requires DistinctScopes(ss) && FindScope(ss, c.scope).Some? && Credited(FindScope(ss, c.scope).value, c)
    ensures CreditAll(ss, c) == ss
  {
    forall i | 0 <= i < |ss| ensures CreditAll(ss, c)[i] == ss[i] {
      FindScopeHolds(ss, i);
    }
  }

  lemma {:induction false} RecordedOk(utc: Clock, l: Ledger, c: Report)
    requires Valid(utc, l) && c.runId in ById(l.reports) && ById(l.reports)[c.runId] == c
    ensures StripReport(c) == c && ReportOk(utc, c)
  {
    CleanReports(utc, l);
    var i := ByIdSource(l.reports, c.runId);
  }

  // Placing a recorded and already credited report changes the order of the
  // reports at most.
  lemma {:induction false} PlacedAgain(utc: Clock, before: Ledger, c: Report, owner: string)
    requires Valid(utc, before) && c.commit == before.repository.baseCommit
    requires c.runId in ById(before.reports) && ById(before.reports)[c.runId] == c
    requires FindScope(before.scopes, c.scope).Some? && FindScope(before.scopes, c.scope).value.owner == owner
    requires Credited(FindScope(before.scopes, c.scope).value, c)
    ensures Place(utc, before, c, owner) == Ok(Placed(before, c)) && Valid(utc, Placed(before, c))
    ensures Placed(before, c).scopes == before.scopes && ById(Placed(before, c).reports) == ById(before.reports)
  {
    RecordedOk(utc, before, c);
    CreditChangesNothing(before.scopes, c);
    PlacedAgainValid(utc, before, c);
    PlaceSucceeds(utc, before, c, owner);
  }

  lemma {:induction false} PlacedAgainValid(utc: Clock, before: Ledger, c: Report)
    requires Valid(utc, before) && StripReport(c) == c && ReportOk(utc, c)
    requires c.runId in ById(before.reports) && ById(before.reports)[c.runId] == c
    requires CreditAll(before.scopes, c) == before.scopes
    ensures Valid(utc, Placed(before, c)) && ById(Placed(before, c).reports) == ById(before.reports)
  {
    var rs := ReplacedReports(utc, before.reports, c);
    ReportsExchanged(utc, before, rs);
  }

  // The reports with c moved to the end.
  lemma {:induction false} ReplacedReports(utc: Clock, reports: seq<Report>, c: Report) returns (rs: seq<Report>)
    requires StripReports(reports) == reports && ReportsOk(utc, reports) && StripReport(c) == c && ReportOk(utc, c)
    requires c.runId in ById(reports) && ById(reports)[c.runId] == c
    ensures rs == Without(reports, c.runId) + [c]
    ensures StripReports(rs) == rs && ReportsOk(utc, rs) && ById(rs) == ById(reports)
  {
    rs := Without(reports, c.runId) + [c];
    PlacedReportsClean(reports, c);
    PlacedReportsOk(utc, reports, c);
  }

  lemma {:induction false} ReportsExchanged(utc: Clock, before: Ledger, rs: seq<Report>)
    requires Valid(utc, before) && StripReports(rs) == rs && ReportsOk(utc, rs) && ById(rs) == ById(before.reports)
    ensures Valid(utc, before.(reports := rs))
  {}

  lemma {:induction false} PlaceSucceeds(utc: Clock, before: Ledger, c: Report, owner: string)
    requires BuilderOf(c.scope) == Some(c.builder) && c.commit == before.repository.baseCommit
    requires FindScope(before.scopes, c.scope).Some? && FindScope(before.scopes, c.scope).value.owner == owner
    requires c.runId in ById(before.reports) ==> ById(before.reports)[c.runId] == c
    requires Valid(utc, Placed(before, c))
    ensures Place(utc, before, c, owner) == Ok(Placed(before, c))
  {
    ValidateFixes(utc, Placed(before, c));
  }

  lemma {:induction false} RecordedAgain(moved: Ledger, after: Ledger, q: Request, r: Report)
    requires after.scopes == moved.scopes && ById(after.reports) == ById(moved.reports)
    requires r.runId in ById(moved.reports) && ById(moved.reports)[r.runId] == r
      && FindScope(moved.scopes, q.scope).Some?
    requires FindScope(moved.scopes, q.scope).value.status == PASS
    requires FindScope(moved.scopes, q.scope).value.evidence == Some(r.runId)
    ensures Recorded(moved, after, FindScope(after.scopes, q.scope).value, r, r)
  {}

  // What the move leaves of an interchangeable pair.
  lemma {:induction false} MovedInterchangeable(current: Ledger, q: Request, r: Report, c: Report)
    requires Interchangeable(current, q, r, c) && r.commit == q.commit && ById(current.reports)[r.runId] == r
    ensures var moved := Moved(current, q, r.generated);
            FindScope(moved.scopes, q.scope) == FindScope(current.scopes, q.scope)
            && FindScope(moved.scopes, c.scope) == FindScope(current.scopes, c.scope)
  {
    FindReset(current.scopes, ById(current.reports), q.commit, q.scope);
    FindReset(current.scopes, ById(current.reports), q.commit, c.scope);
  }

  // The pinned content at every look but the three of apply_scope_report.
  function FlipFile(identity: int, raw: Bytes, other: Bytes, t: nat): History {
    (n: nat) => Regular(identity, if t + 4 <= n < t + 7 then other else raw)
  }

  lemma {:induction false} FlipApplies(w: World, current: Ledger, q: Request, r: Report, c: Report, file: History,
          t: nat)
    requires Valid(w.utc, current) && Interchangeable(current, q, r, c) && r.commit == q.commit
    requires ById(current.reports)[r.runId] == r && Strip(q.commit) == q.commit
    requires Index(w, q.path, file, t) == (Some(c), t + 3)
    requires Validate(w.utc, Moved(current, q, r.generated)).Some?
    ensures var moved := Moved(current, q, r.generated);
            var after := Placed(Stripped(moved), c);
            Apply(w, moved, q.path, file, t, q.owner) == (Ok(after), t + 3) && Valid(w.utc, after)
            && FindScope(after.scopes, q.scope).Some?
            && Recorded(moved, after, FindScope(after.scopes, q.scope).value, r, r)
  {
    var moved := Moved(current, q, r.generated);
    MovedStripped(w.utc, current, q, r.generated);
    ValidateFixes(w.utc, moved);
    MovedInterchangeable(current, q, r, c);
    PlacedAgain(w.utc, Stripped(moved), c, q.owner);
    RecordedAgain(moved, Placed(Stripped(moved), c), q, r);
  }

  lemma {:induction false} FlipPromotes(w: World, l: Ledger, q: Request, identity: int, raw: Bytes, other: Bytes,
    t: nat)
    requires ReadyButOwner(w, l, q, raw) && Flip(w, Stripped(l), q, raw, other)
    ensures Advance(w, l, q, FlipFile(identity, raw, other, t), t).0.Ok?
  {
    var file, current := FlipFile(identity, raw, other, t), Stripped(l);
    var r, c := ReadPayload(w, q.path, raw).value, ReadPayload(w, q.path, other).value;
    var moved := Moved(current, q, r.generated);
    ValidateFixes(w.utc, l);
    ReadFacts(w, q.path, raw);
    MovedIsValid(w.utc, current, q, r.generated);
    ShownPin(w, q, file, identity, raw, t);
    ShownPinned(w, q.path, file, identity, other, t + 4, c.sha);
    FlipApplies(w, current, q, r, c, file, t + 4);
    var after := Placed(Stripped(moved), c);
    ReadyConcludes(w, q, file, identity, raw, t + 7, moved, after, r);
    AdvanceSucceeds(w, l, q, file, t, r, after);
  }

  // Some behaviour of the file gets the content raw pinned and promoted.
  ghost predicate CanAdvance(w: World, l: Ledger, q: Request, raw: Bytes, t: nat) {
    exists file: History :: file(t + 1).Regular? && file(t + 1).raw == raw && Advance(w, l, q, file, t).0.Ok?
  }

  ghost predicate CanFlip(w: World, current: Ledger, q: Request, raw: Bytes)
    requires Readable(w, q.path, raw)
  {
    exists other :: Flip(w, current, q, raw, other)
  }

  // A report is promoted by some behaviour of its file exactly when it meets
  // every other condition and either the request names the owner of the scope
  // or some content lets the file flip.
  lemma {:induction false} OwnerCheckIsExact(w: World, l: Ledger, q: Request, raw: Bytes, t: nat)
    ensures CanAdvance(w, l, q, raw, t)
      <==> ReadyButOwner(w, l, q, raw)
           && (FindScope(Stripped(l).scopes, q.scope).value.owner == q.owner || CanFlip(w, Stripped(l), q, raw))
  {
    if CanAdvance(w, l, q, raw, t) {
      AdvancedMeans(w, l, q, raw, t);
    }
    if ReadyButOwner(w, l, q, raw) {
      if AdvanceReady(w, l, q, raw) {
        StillAdvances(w, l, q, raw, t);
      } else if CanFlip(w, Stripped(l), q, raw) {
        FlippedAdvances(w, l, q, raw, t);
      }
    }
  }

  lemma {:induction false} AdvancedMeans(w: World, l: Ledger, q: Request, raw: Bytes, t: nat)
    requires CanAdvance(w, l, q, raw, t)
    ensures ReadyButOwner(w, l, q, raw)
    ensures FindScope(Stripped(l).scopes, q.scope).value.owner == q.owner || CanFlip(w, Stripped(l), q, raw)
  {
    var file: History :| file(t + 1).Regular? && file(t + 1).raw == raw && Advance(w, l, q, file, t).0.Ok?;
    OwnerUnlessFlipped(w, l, q, file, t);
  }

  function StillFile(raw: Bytes): History { (n: nat) => Regular(0, raw) }

  lemma {:induction false} StillAdvances(w: World, l: Ledger, q: Request, raw: Bytes, t: nat)
    requires AdvanceReady(w, l, q, raw)
    ensures CanAdvance(w, l, q, raw, t)
  {
    var still := StillFile(raw);
    ReadyAdvances(w, l, q, still, 0, raw, t);
    assert still(t + 1) == Regular(0, raw);
  }

  lemma {:induction false} FlippedAdvances(w: World, l: Ledger, q: Request, raw: Bytes, t: nat)
    requires ReadyButOwner(w, l, q, raw) && CanFlip(w, Stripped(l), q, raw)
    ensures CanAdvance(w, l, q, raw, t)
  {
    var other :| Flip(w, Stripped(l), q, raw, other);
    FlipPromotes(w, l, q, 0, raw, other, t);
    assert FlipFile(0, raw, other, t)(t + 1) == Regular(0, raw);
  }

  // A flip never buys more than a second promotion of the same report: the
  // target keeps everything but its exclusions.
  lemma {:induction false} FlipRewritesExclusions(w: World, l: Ledger, q: Request, file: History, t: nat)
    requires Advance(w, l, q, file, t).0.Ok?
    requires file(t + 1).Regular? && ReadyButOwner(w, l, q, file(t + 1).raw)
    requires FindScope(Stripped(l).scopes, q.scope).value.owner != q.owner
    ensures var out, target := Advance(w, l, q, file, t).0.value, FindScope(Stripped(l).scopes, q.scope).value;
            FindScope(out.scopes, q.scope) == Some(target.(exclusions := StripAll(q.exclusions)))
            && ById(out.reports) == ById(Stripped(l).reports)
  {
    var current, raw := Stripped(l), file(t + 1).raw;
    var r, out := ReadPayload(w, q.path, raw).value, Advance(w, l, q, file, t).0.value;
    ValidateFixes(w.utc, l);
    OwnerUnlessFlipped(w, l, q, file, t);
    AdvanceNeeds(w, l, q, file, t);
    AdvanceRecordsPinned(w, l, q, file, t);
    RestsOn(w.utc, current, q, r);
    ExclusionsOnly(w.utc, current, q, r, out);
  }

  lemma {:induction false} ExclusionsOnly(utc: Clock, current: Ledger, q: Request, r: Report, out: Ledger)
    requires RecordsPinned(current, q, r, out) && DistinctScopes(out.scopes)
    requires r.runId in ById(current.reports) && FindScope(current.scopes, q.scope).Some?
    requires var target := FindScope(current.scopes, q.scope).value;
             target.status == PASS && target.evidence == Some(r.runId) && target.state == r.state
    ensures FindScope(out.scopes, q.scope)
         == Some(FindScope(current.scopes, q.scope).value.(exclusions := StripAll(q.exclusions)))
    ensures ById(out.reports) == ById(current.reports)
  {
    var k := FindScopeAt(current.scopes, q.scope);
    assert out.scopes[k] == Promoted(current.scopes[k], q, r, ById(current.reports));
    FindScopeHolds(out.scopes, k);
  }

  lemma {:induction false} RestsOn(utc: Clock, current: Ledger, q: Request, r: Report)
    requires Valid(utc, current) && r.runId in ById(current.reports) && ById(current.reports)[r.runId] == r
    requires FindScope(current.scopes, q.scope).Some?
    requires FindScope(current.scopes, q.scope).value.status == PASS
    requires FindScope(current.scopes, q.scope).value.evidence == Some(r.runId)
    ensures FindScope(current.scopes, q.scope).value.state == r.state
  {
    var k := FindScopeAt(current.scopes, q.scope);
    assert ScopeOk(current.scopes[k], current.repository.baseCommit, ById(current.reports));
  }

  // The same for a whole call.
  lemma {:induction false} AcceptedOwner(w: World, l: Ledger, p: Promotion)
    requires Accepted(w, l, p)
    ensures FindScope(Stripped(l).scopes, p.scope).Some? && p.file(PinnedAt(p)).Regular?
    ensures var raw, other := p.file(PinnedAt(p)).raw, p.file(PinnedAt(p) + 3);
            FindScope(Stripped(l).scopes, p.scope).value.owner == p.owner
            || (other.Regular? && Readable(w, p.path, raw)
                && Flip(w, Stripped(l), RequestOf(p, w.sha(raw)), raw, other.raw))
  {
    var (pinned, t) := Pinned(w, p, 0);
    var q := RequestOf(p, pinned.value);
    OwnerUnlessFlipped(w, l, q, p.file, t);
    PinMeans(w, q, p.file, t);
  }
}
