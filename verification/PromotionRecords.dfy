// What an accepted promotion records, whatever the report file shows between
// the looks taken at it.
module PromotionRecords {
  import opened Options
  import opened PyText
  import opened Baseline
  import opened Evidence
  import opened Promotion

  // ---- reports and scopes by key ----

  lemma {:induction false} WithoutById(rs: seq<Report>, id: string)
    ensures ById(Without(rs, id)) == ById(rs) - {id}
  {
    if rs != [] {
      var rest, last := rs[..|rs| - 1], rs[|rs| - 1];
      WithoutById(rest, id);
      if last.runId == id {
        assert Without(rs, id) == Without(rest, id);
      } else {
        ByIdPush(Without(rest, id), last);
      }
    }
  }

  lemma {:induction false} OthersHolds(ss: seq<Scope>, name: string, i: nat)
    requires DistinctScopes(ss) && i < |ss|
    ensures ss[i].scope != name ==> ss[i].scope in Others(ss, name) && Others(ss, name)[ss[i].scope] == ss[i]
  {
    if i < |ss| - 1 {
      OthersHolds(ss[..|ss| - 1], name, i);
      assert ss[..|ss| - 1][i] == ss[i];
      assert ss[i].scope != ss[|ss| - 1].scope;
    }
  }

  lemma {:induction false} FindScopeAt(ss: seq<Scope>, name: string) returns (k: nat)
    requires FindScope(ss, name).Some?
    ensures k < |ss| && ss[k].scope == name && FindScope(ss, name).value == ss[k]
  {
    if ss[0].scope == name {
      k := 0;
    } else {
      var j := FindScopeAt(ss[1..], name);
      k := j + 1;
    }
  }

  lemma {:induction false} FindScopeHolds(ss: seq<Scope>, k: nat)
    requires DistinctScopes(ss) && k < |ss|
    ensures FindScope(ss, ss[k].scope) == Some(ss[k])
  {
    if k > 0 {
      assert ss[0].scope != ss[k].scope;
      assert DistinctScopes(ss[1..]);
      FindScopeHolds(ss[1..], k - 1);
    }
  }

  // ---- normalised parts ----

  // Two scopes agree on all that no promotion changes.
  predicate SameHolder(a: Scope, b: Scope) {
    a.scope == b.scope && a.builder == b.builder && a.owner == b.owner
  }

  lemma {:induction false} CleanScopes(ss: seq<Scope>)
    requires StripScopes(ss) == ss
    ensures forall i :: 0 <= i < |ss| ==> StripScope(ss[i]) == ss[i]
  {
    assert forall i :: 0 <= i < |ss| ==> StripScopes(ss)[i] == StripScope(ss[i]);
  }

  lemma {:induction false} CleanParts(utc: Clock, l: Ledger)
    requires Valid(utc, l)
    ensures forall i :: 0 <= i < |l.scopes| ==> StripScope(l.scopes[i]) == l.scopes[i]
    ensures forall i :: 0 <= i < |l.reports| ==> StripReport(l.reports[i]) == l.reports[i]
    ensures StripAssets(l.assets) == l.assets && Strip(l.id) == l.id
  {
    CleanScopes(l.scopes);
    CleanIsFixed(l.reports);
    assert StripReports(l.reports) == l.reports;
  }

  lemma {:induction false} ResetIsClean(s: Scope, byId: map<string, Report>, commit: string)
    requires StripScope(s) == s
    ensures StripScope(ResetScope(s, byId, commit)) == ResetScope(s, byId, commit)
  {
    UnpaddedIsStripped(NOT_RUN);
  }

  // Validating the moved candidate changes nothing but the padding of its
  // branch and commit.
  lemma {:induction false} MovedStripped(utc: Clock, current: Ledger, q: Request, generated: string)
    requires Valid(utc, current)
    ensures var m := Moved(current, q, generated);
            Stripped(m) == m.(repository := Repository(Strip(q.commit), Strip(q.branch), true),
                              generated := Strip(generated))
  {
    var m := Moved(current, q, generated);
    CleanParts(utc, current);
    forall i | 0 <= i < |m.scopes| ensures StripScope(m.scopes[i]) == m.scopes[i] {
      ResetIsClean(current.scopes[i], ById(current.reports), q.commit);
    }
    assert StripScopes(m.scopes) == m.scopes;
  }

  // ---- apply_scope_report ----

  // The candidate apply_scope_report validates.
  function Placed(current: Ledger, c: Report): Ledger {
    current.(reports := Without(current.reports, c.runId) + [c], scopes := CreditAll(current.scopes, c))
  }

  lemma {:induction false} WithoutKeeps(rs: seq<Report>, id: string)
    ensures forall r :: r in Without(rs, id) ==> r in rs
  {
    if rs != [] { WithoutKeeps(rs[..|rs| - 1], id); }
  }

  // Every report of the list is as the validator leaves it.
  predicate Clean(rs: seq<Report>) { forall r :: r in rs ==> StripReport(r) == r }

  lemma {:induction false} CleanIsFixed(rs: seq<Report>)
    ensures StripReports(rs) == rs <==> Clean(rs)
  {
    if StripReports(rs) == rs {
      forall r | r in rs ensures StripReport(r) == r {
        var i :| 0 <= i < |rs| && rs[i] == r;
        assert StripReports(rs)[i] == StripReport(rs[i]);
      }
    } else {
      var i :| 0 <= i < |rs| && StripReports(rs)[i] != rs[i];
      assert rs[i] in rs;
    }
  }

  lemma {:induction false} StripPush(rs: seq<Report>, c: Report)
    ensures StripReports(rs + [c]) == StripReports(rs) + [StripReport(c)]
  {
  }

  lemma {:induction false} PlacedReports(current: Ledger, c: Report)
    requires StripReports(current.reports) == current.reports && Strip(c.runId) == c.runId
    ensures ById(StripReports(Placed(current, c).reports)) == ById(current.reports)[c.runId := StripReport(c)]
  {
    var kept := Without(current.reports, c.runId);
    CleanIsFixed(current.reports);
    WithoutKeeps(current.reports, c.runId);
    CleanIsFixed(kept);
    StripPush(kept, c);
    WithoutById(current.reports, c.runId);
    ByIdPush(kept, StripReport(c));
  }

  lemma {:induction false} CreditHolder(s: Scope, c: Report)
    requires StripScope(s) == s
    ensures SameHolder(StripScope(Credit(s, c)), s)
  {
  }

  // What apply_scope_report returns keeps everything but the one report and
  // the scope it credits.
  lemma {:induction false} PlaceMeans(utc: Clock, current: Ledger, c: Report, owner: string)
    requires Valid(utc, current) && Place(utc, current, c, owner).Ok? && Strip(c.runId) == c.runId
    ensures var after := Place(utc, current, c, owner).value;
            Valid(utc, after) && after == current.(reports := after.reports, scopes := after.scopes)
            && ById(after.reports) == ById(current.reports)[c.runId := StripReport(c)]
            && |after.scopes| == |current.scopes|
            && (forall i :: 0 <= i < |after.scopes| ==> SameHolder(after.scopes[i], current.scopes[i]))
            && (c.runId in ById(current.reports) ==> ById(current.reports)[c.runId] == c)
  {
    var placed := Placed(current, c);
    ValidateFixes(utc, placed);
    CleanParts(utc, current);
    PlacedReports(current, c);
    var after := Stripped(placed);
    assert after == Place(utc, current, c, owner).value;
    assert Stripped(current) == current;
    forall i | 0 <= i < |after.scopes| ensures SameHolder(after.scopes[i], current.scopes[i]) {
      assert after.scopes[i] == StripScope(Credit(current.scopes[i], c));
      CreditHolder(current.scopes[i], c);
    }
  }

  // ---- what the final comparisons establish ----

  // The scope as an accepted promotion leaves it.
  function Promoted(s: Scope, q: Request, indexed: Report, byId: map<string, Report>): Scope {
    if s.scope == q.scope
    then Scope(s.scope, s.builder, s.owner, indexed.state, PASS, Some(indexed.runId), StripAll(q.exclusions))
    else ResetScope(s, byId, q.commit)
  }

  function PromotedAll(ss: seq<Scope>, q: Request, indexed: Report, byId: map<string, Report>): (r: seq<Scope>)
    ensures |r| == |ss|
  {
    seq(|ss|, i requires 0 <= i < |ss| => Promoted(ss[i], q, indexed, byId))
  }

  // Equal maps of the other scopes leave the other scopes where they were.
  lemma {:induction false} OthersAgree(before: seq<Scope>, after: seq<Scope>, name: string, i: nat)
    requires DistinctScopes(before) && DistinctScopes(after) && |before| == |after| && i < |before|
    requires before[i].scope == after[i].scope != name && Others(after, name) == Others(before, name)
    ensures after[i] == before[i]
  {
    OthersHolds(before, name, i);
    OthersHolds(after, name, i);
  }

  // The promoted scope carries the indexed report's state.
  lemma {:induction false} TargetEarned(utc: Clock, before: Ledger, after: Ledger, target: Scope, indexed: Report,
          again: Report)
    requires Valid(utc, after) && Recorded(before, after, target, indexed, again) && target in after.scopes
    ensures target.evidence == Some(indexed.runId) && target.state == indexed.state && target.status == PASS
    ensures ById(after.reports)[indexed.runId] == indexed
  {
    var byId := ById(after.reports);
    var k := ByIdSource(after.reports, target.evidence.value);
    assert ScopeOk(target, after.repository.baseCommit, byId);
    assert Earned(target, after.repository.baseCommit, byId);
  }

  lemma {:induction false} TargetRecorded(utc: Clock, before: Ledger, after: Ledger, q: Request, indexed: Report,
          again: Report, i: nat)
    requires Valid(utc, after) && i < |after.scopes| && after.scopes[i].scope == q.scope
    requires FindScope(after.scopes, q.scope).Some?
    requires Recorded(before, after, FindScope(after.scopes, q.scope).value, indexed, again)
    ensures after.scopes[i].evidence == Some(indexed.runId) && after.scopes[i].state == indexed.state
    ensures after.scopes[i].status == PASS
  {
    FindScopeHolds(after.scopes, i);
    TargetEarned(utc, before, after, after.scopes[i], indexed, again);
  }

  lemma {:induction false} OtherRecorded(before: Ledger, after: Ledger, name: string, indexed: Report, again: Report,
    i: nat)
    requires DistinctScopes(before.scopes) && DistinctScopes(after.scopes) && |before.scopes| == |after.scopes|
    requires i < |after.scopes| && before.scopes[i].scope == after.scopes[i].scope != name
    requires FindScope(after.scopes, name).Some?
    requires Recorded(before, after, FindScope(after.scopes, name).value, indexed, again)
    ensures after.scopes[i] == before.scopes[i]
  {
    var k := FindScopeAt(after.scopes, name);
    OthersAgree(before.scopes, after.scopes, name, i);
  }

  lemma {:induction false} TargetExcluded(target: Scope, s: Scope, q: Request, indexed: Report,
    byId: map<string, Report>)
    requires SameHolder(target, s) && StripScope(target) == target && target.scope == q.scope
    requires target.evidence == Some(indexed.runId) && target.state == indexed.state && target.status == PASS
    ensures StripScope(target.(exclusions := q.exclusions)) == Promoted(s, q, indexed, byId)
  {}

  // The scopes an accepted promotion returns.
  lemma {:induction false} ScopesRecorded(utc: Clock, current: Ledger, q: Request, before: Ledger, after: Ledger,
          indexed: Report, again: Report, i: nat)
    requires Valid(utc, current) && before == Stripped(Moved(current, q, indexed.generated)) && Valid(utc, before)
    requires Valid(utc, after) && |after.scopes| == |before.scopes| && i < |after.scopes|
    requires forall j :: 0 <= j < |after.scopes| ==> SameHolder(after.scopes[j], before.scopes[j])
    requires FindScope(after.scopes, q.scope).Some?
    requires Recorded(before, after, FindScope(after.scopes, q.scope).value, indexed, again)
    ensures StripScope(Exclude(after.scopes, q.scope, q.exclusions)[i])
         == Promoted(current.scopes[i], q, indexed, ById(current.reports))
  {
    MovedStripped(utc, current, q, indexed.generated);
    CleanScopes(after.scopes);
    var s, reset := current.scopes[i], ResetScope(current.scopes[i], ById(current.reports), q.commit);
    assert before.scopes[i] == reset && SameHolder(after.scopes[i], reset) && SameHolder(reset, s);
    if after.scopes[i].scope == q.scope {
      TargetRecorded(utc, before, after, q, indexed, again, i);
      TargetExcluded(after.scopes[i], s, q, indexed, ById(current.reports));
    } else {
      OtherRecorded(before, after, q.scope, indexed, again, i);
    }
  }

  // The report is recorded under its run identifier, and a run identifier
  // already recorded keeps its record, even when apply_scope_report saw some
  // other report c.
  lemma {:induction false} ReportRecorded(before: map<string, Report>, c: Report, indexed: Report)
    requires forall id :: id in before ==> StripReport(before[id]) == before[id]
    requires c.runId in before ==> before[c.runId] == c
    requires before[c.runId := StripReport(c)] == before[indexed.runId := indexed]
    ensures indexed.runId in before ==> before[indexed.runId] == indexed
  {
    var m := before[c.runId := StripReport(c)];
    assert m[indexed.runId] == indexed;
  }

  // Everything an accepted call returns, in terms of the baseline it was
  // given and the pinned report alone.
  ghost predicate RecordsPinned(current: Ledger, q: Request, indexed: Report, out: Ledger) {
    out.repository == Repository(q.commit, Strip(q.branch), true) && out.generated == indexed.generated
    && out.id == current.id && out.assets == current.assets
    && ById(out.reports) == ById(current.reports)[indexed.runId := indexed]
    && (indexed.runId in ById(current.reports) ==> ById(current.reports)[indexed.runId] == indexed)
    && out.scopes == PromotedAll(current.scopes, q, indexed, ById(current.reports))
    && FindScope(out.scopes, q.scope).Some?
  }

  // The pinned report is what its bytes decode to, its hash is the hash first
  // taken (and the hash asked for), and it is a PASS report of the requested
  // scope made at the checkout's commit.
  lemma {:induction false} PinMeans(w: World, q: Request, file: History, t: nat)
    requires Pin(w, q, file, t).0.Ok?
    ensures Pin(w, q, file, t).1 == t + 4
    ensures file(t).Regular? && file(t + 1).Regular?
    ensures var r := Pin(w, q, file, t).0.value;
            Some(r) == ReadPayload(w, q.path, file(t + 1).raw) && r.sha == w.sha(file(t + 1).raw) == w.sha(file(t).raw)
            && (q.expected.Some? ==> r.sha == q.expected.value)
            && r.status == PASS && r.commit == q.commit && r.scope == q.scope
  {
    IndexIsOneContent(w, q.path, file, t + 1);
  }

  lemma {:induction false} ReadIsNormal(w: World, path: string, raw: Bytes)
    requires ReadPayload(w, path, raw).Some?
    ensures var r := ReadPayload(w, path, raw).value;
            Strip(r.runId) == r.runId && Strip(r.generated) == r.generated && Strip(r.commit) == r.commit
  {
    var p := w.decode(raw).value;
    OwnedIsStripped(p.runId);
    OwnedIsStripped(p.generated);
    HexIsStripped(p.commit.value, 40);
  }

  lemma {:induction false} ExcludedScopes(ss: seq<Scope>, name: string, exclusions: seq<string>)
    requires StripScopes(ss) == ss && DistinctScopes(ss) && FindScope(ss, name).Some?
    ensures FindScope(StripScopes(Exclude(ss, name, exclusions)), name).Some?
  {
    var out := StripScopes(Exclude(ss, name, exclusions));
    CleanScopes(ss);
    var k := FindScopeAt(ss, name);
    assert forall i :: 0 <= i < |out| ==> out[i].scope == ss[i].scope;
    FindScopeHolds(out, k);
  }

  // Setting the exclusions of the target touches nothing else.
  lemma {:induction false} ExcludeStripped(utc: Clock, after: Ledger, name: string, exclusions: seq<string>)
    requires Valid(utc, after) && FindScope(after.scopes, name).Some?
    ensures var out := Stripped(after.(scopes := Exclude(after.scopes, name, exclusions)));
            out == after.(scopes := out.scopes) && |out.scopes| == |after.scopes| && FindScope(out.scopes, name).Some?
  {
    assert Stripped(after) == after;
    ExcludedScopes(after.scopes, name, exclusions);
  }

  lemma {:induction false} ConcludeRecorded(w: World, q: Request, file: History, t: nat, indexed: Report,
          moved: Ledger, after: Ledger)
    requires Conclude(w, q, file, t, indexed, moved, after).0.Ok?
    ensures FindScope(after.scopes, q.scope).Some? && IndexPinned(w, q.path, file, t, indexed.sha).0.Ok?
    ensures var again := IndexPinned(w, q.path, file, t, indexed.sha).0.value;
            Recorded(moved, after, FindScope(after.scopes, q.scope).value, indexed, again)
    ensures var final := Validate(w.utc, after.(scopes := Exclude(after.scopes, q.scope, q.exclusions)));
            final.Some? && Conclude(w, q, file, t, indexed, moved, after).0 == Ok(final.value)
  {}

  lemma {:induction false} ConcludedScopes(utc: Clock, current: Ledger, q: Request, before: Ledger, after: Ledger,
          indexed: Report, again: Report)
    requires Valid(utc, current) && before == Stripped(Moved(current, q, indexed.generated)) && Valid(utc, before)
    requires Valid(utc, after) && |after.scopes| == |before.scopes|
    requires forall j :: 0 <= j < |after.scopes| ==> SameHolder(after.scopes[j], before.scopes[j])
    requires FindScope(after.scopes, q.scope).Some?
    requires Recorded(before, after, FindScope(after.scopes, q.scope).value, indexed, again)
    requires Validate(utc, after.(scopes := Exclude(after.scopes, q.scope, q.exclusions))).Some?
    ensures var out := Validate(utc, after.(scopes := Exclude(after.scopes, q.scope, q.exclusions))).value;
            Valid(utc, out) && out == after.(scopes := out.scopes)
            && out.scopes == PromotedAll(current.scopes, q, indexed, ById(current.reports))
            && FindScope(out.scopes, q.scope).Some?
  {
    ValidateFixes(utc, after.(scopes := Exclude(after.scopes, q.scope, q.exclusions)));
    ExcludeStripped(utc, after, q.scope, q.exclusions);
    FinalScopes(utc, current, q, before, after, indexed, again);
  }

  // What Conclude returns, given what apply_scope_report returned.
  lemma {:induction false} ConcludeMeans(w: World, current: Ledger, q: Request, file: History, t: nat,
          indexed: Report, after: Ledger)
    requires Valid(w.utc, current) && Valid(w.utc, after)
    requires var before := Stripped(Moved(current, q, indexed.generated));
             Valid(w.utc, before) && after == before.(reports := after.reports, scopes := after.scopes)
             && |after.scopes| == |before.scopes|
             && forall j :: 0 <= j < |after.scopes| ==> SameHolder(after.scopes[j], before.scopes[j])
    requires Conclude(w, q, file, t, indexed, Moved(current, q, indexed.generated), after).0.Ok?
    ensures var out := Conclude(w, q, file, t, indexed, Moved(current, q, indexed.generated), after).0.value;
            Valid(w.utc, out) && out == after.(scopes := out.scopes)
            && ById(after.reports) == ById(current.reports)[indexed.runId := indexed]
            && out.scopes == PromotedAll(current.scopes, q, indexed, ById(current.reports))
            && FindScope(out.scopes, q.scope).Some?
  {
    var moved := Moved(current, q, indexed.generated);
    var again := IndexPinned(w, q.path, file, t, indexed.sha).0.value;
    ConcludeRecorded(w, q, file, t, indexed, moved, after);
    MovedRecorded(w.utc, current, q, after, FindScope(after.scopes, q.scope).value, indexed, again);
    ConcludedScopes(w.utc, current, q, Stripped(moved), after, indexed, again);
  }

  // Stripping the moved candidate changes nothing the comparisons look at.
  lemma {:induction false} MovedRecorded(utc: Clock, current: Ledger, q: Request, after: Ledger, target: Scope,
                                         indexed: Report, again: Report)
    requires Valid(utc, current) && Recorded(Moved(current, q, indexed.generated), after, target, indexed, again)
    ensures Recorded(Stripped(Moved(current, q, indexed.generated)), after, target, indexed, again)
    ensures ById(after.reports) == ById(current.reports)[indexed.runId := indexed]
  {
    MovedStripped(utc, current, q, indexed.generated);
  }

  lemma {:induction false} FinalScopes(utc: Clock, current: Ledger, q: Request, before: Ledger, after: Ledger,
                                       indexed: Report, again: Report)
    requires Valid(utc, current) && before == Stripped(Moved(current, q, indexed.generated)) && Valid(utc, before)
    requires Valid(utc, after) && |after.scopes| == |before.scopes|
    requires forall j :: 0 <= j < |after.scopes| ==> SameHolder(after.scopes[j], before.scopes[j])
    requires FindScope(after.scopes, q.scope).Some?
    requires Recorded(before, after, FindScope(after.scopes, q.scope).value, indexed, again)
    ensures StripScopes(Exclude(after.scopes, q.scope, q.exclusions))
         == PromotedAll(current.scopes, q, indexed, ById(current.reports))
  {
    MovedStripped(utc, current, q, indexed.generated);
    var final := Exclude(after.scopes, q.scope, q.exclusions);
    forall i | 0 <= i < |after.scopes|
      ensures StripScopes(final)[i] == PromotedAll(current.scopes, q, indexed, ById(current.reports))[i] {
      ScopesRecorded(utc, current, q, before, after, indexed, again, i);
    }
  }

  // An accepted call records exactly the pinned report: for any behaviour of
  // the report file, the result is fixed by the baseline and the pinned record.
  lemma {:induction false} AdvanceRecordsPinned(w: World, l: Ledger, q: Request, file: History, t: nat)
    requires Advance(w, l, q, file, t).0.Ok?
    ensures Validate(w.utc, l).Some? && Pin(w, q, file, t).0.Ok?
    ensures Valid(w.utc, Advance(w, l, q, file, t).0.value)
    ensures RecordsPinned(Stripped(l), q, Pin(w, q, file, t).0.value, Advance(w, l, q, file, t).0.value)
  {
    var current := Stripped(l);
    ValidateFixes(w.utc, l);
    PinMeans(w, q, file, t);
    var (pinned, t1) := Pin(w, q, file, t);
    var indexed := pinned.value;
    ReadIsNormal(w, q.path, file(t + 1).raw);
    var moved := Moved(current, q, indexed.generated);
    MovedStripped(w.utc, current, q, indexed.generated);
    ValidateFixes(w.utc, moved);
    var before := Stripped(moved);
    var c := Index(w, q.path, file, t1).0.value;
    IndexIsOneContent(w, q.path, file, t1);
    ReadIsNormal(w, q.path, file(t1).raw);
    PlaceMeans(w.utc, before, c, q.owner);
    var (applied, t2) := Apply(w, moved, q.path, file, t1, q.owner);
    ConcludeMeans(w, current, q, file, t2, indexed, applied.value);
    CleanReports(w.utc, current);
    ReportRecorded(ById(current.reports), c, indexed);
  }

  lemma {:induction false} CleanReports(utc: Clock, l: Ledger)
    requires Valid(utc, l)
    ensures forall id :: id in ById(l.reports) ==> StripReport(ById(l.reports)[id]) == ById(l.reports)[id]
  {
    CleanParts(utc, l);
    forall id | id in ById(l.reports) ensures StripReport(ById(l.reports)[id]) == ById(l.reports)[id] {
      var i := ByIdSource(l.reports, id);
    }
  }
}
