// When the report file keeps still: exactly which promotions are accepted.
module PromotionQuiet {
  import opened Options
  import opened PyText
  import opened Baseline
  import opened BaselineMethods
  import opened Evidence
  import opened Promotion
  import opened PromotionRecords
  import opened PromotionHistory

  // The path shows one regular file with these bytes throughout.
  ghost predicate Quiet(file: History, identity: int, raw: Bytes) {
    forall t: nat :: file(t) == Regular(identity, raw)
  }

  // Every PASS names its evidence, or the base commit stays.
  predicate PassesNamed(current: Ledger, commit: string) {
    commit == current.repository.baseCommit
    || forall i :: 0 <= i < |current.scopes| && current.scopes[i].status == PASS ==> current.scopes[i].evidence.Some?
  }

  predicate Nonblank(texts: seq<string>) { forall i :: 0 <= i < |texts| ==> Strip(texts[i]) != "" }

  lemma {:induction false} ResetOk(s: Scope, base: string, byId: map<string, Report>, commit: string)
    requires ScopeOk(s, base, byId)
    ensures ScopeOk(ResetScope(s, byId, commit), commit, byId) <==>
            (s.status == PASS && commit != base ==> s.evidence.Some?)
  {
  }

  lemma {:induction false} ResetAllOk(ss: seq<Scope>, base: string, byId: map<string, Report>, commit: string)
    requires ScopesOk(ss, base, byId)
    ensures ScopesOk(ResetScopes(ss, byId, commit), commit, byId) <==>
            commit == base || forall i :: 0 <= i < |ss| && ss[i].status == PASS ==> ss[i].evidence.Some?
  {
    var moved := ResetScopes(ss, byId, commit);
    forall i | 0 <= i < |ss|
      ensures ScopeOk(moved[i], commit, byId) <==> (ss[i].status == PASS && commit != base ==> ss[i].evidence.Some?)
      ensures moved[i].scope == ss[i].scope
    {
      ResetOk(ss[i], base, byId, commit);
    }
    assert DistinctScopes(moved);
  }

  // The moved candidate is valid just when no PASS lacks its evidence.
  lemma {:induction false} MovedIsValid(utc: Clock, current: Ledger, q: Request, generated: string)
    requires Valid(utc, current) && IsHex(q.commit, 40) && Strip(generated) == generated != "" && utc(generated)
    ensures Validate(utc, Moved(current, q, generated)).Some? <==>
            Strip(q.branch) != "" && PassesNamed(current, q.commit)
  {
    MovedStripped(utc, current, q, generated);
    HexIsStripped(q.commit, 40);
    ResetAllOk(current.scopes, current.repository.baseCommit, ById(current.reports), q.commit);
  }

  lemma {:induction false} WithoutPush(utc: Clock, rest: seq<Report>, last: Report, id: string)
    requires ReportsOk(utc, Without(rest, id)) && ReportOk(utc, last) && last.runId !in ById(rest)
    ensures ReportsOk(utc, Without(rest, id) + [last])
  {
    WithoutById(rest, id);
    ReportsGrow(utc, Without(rest, id), last);
  }

  lemma {:induction false} WithoutOk(utc: Clock, rs: seq<Report>, id: string)
    requires ReportsOk(utc, rs)
    ensures ReportsOk(utc, Without(rs, id))
  {
    if rs != [] {
      var rest, last := rs[..|rs| - 1], rs[|rs| - 1];
      assert rest + [last] == rs;
      ReportsGrow(utc, rest, last);
      WithoutOk(utc, rest, id);
      if last.runId == id {
        assert Without(rs, id) == Without(rest, id);
      } else {
        WithoutPush(utc, rest, last, id);
      }
    }
  }

  // Crediting a PASS report leaves every scope in order.
  lemma {:induction false} CreditOk(s: Scope, base: string, byId: map<string, Report>, c: Report)
    requires ScopeOk(s, base, byId) && BuilderOf(c.scope) == Some(c.builder) && KnownState(c.state)
    requires c.runId != "" && c.status == PASS && c.commit == base && c.availability == VERIFIED
    requires c.runId in byId ==> byId[c.runId] == c
    ensures ScopeOk(Credit(s, c), base, byId[c.runId := c]) && Credit(s, c).scope == s.scope
  {
  }

  lemma {:induction false} CreditClean(s: Scope, c: Report)
    requires StripScope(s) == s && StripReport(c) == c
    ensures StripScope(Credit(s, c)) == Credit(s, c)
  {
  }

  lemma {:induction false} PlacedReportsClean(rs: seq<Report>, c: Report)
    requires StripReports(rs) == rs && StripReport(c) == c
    ensures StripReports(Without(rs, c.runId) + [c]) == Without(rs, c.runId) + [c]
  {
    CleanIsFixed(rs);
    WithoutKeeps(rs, c.runId);
    CleanIsFixed(Without(rs, c.runId) + [c]);
  }

  lemma {:induction false} PlacedScopesClean(ss: seq<Scope>, c: Report)
    requires StripScopes(ss) == ss && StripReport(c) == c
    ensures StripScopes(CreditAll(ss, c)) == CreditAll(ss, c)
  {
    CleanScopes(ss);
    forall i | 0 <= i < |ss| ensures StripScope(CreditAll(ss, c)[i]) == CreditAll(ss, c)[i] {
      CreditClean(ss[i], c);
    }
  }

  lemma {:induction false} PlacedIsStripped(utc: Clock, current: Ledger, c: Report)
    requires Valid(utc, current) && StripReport(c) == c
    ensures Stripped(Placed(current, c)) == Placed(current, c)
  {
    var placed := Placed(current, c);
    assert Stripped(current) == current;
    PlacedReportsClean(current.reports, c);
    PlacedScopesClean(current.scopes, c);
  }

  lemma {:induction false} CreditedScopes(utc: Clock, current: Ledger, c: Report)
    requires Valid(utc, current) && ReportOk(utc, c) && c.status == PASS && c.availability == VERIFIED
    requires c.commit == current.repository.baseCommit
    requires c.runId in ById(current.reports) ==> ById(current.reports)[c.runId] == c
    ensures ScopesOk(CreditAll(current.scopes, c), current.repository.baseCommit, ById(current.reports)[c.runId := c])
  {
    var credited := CreditAll(current.scopes, c);
    var base, byId := current.repository.baseCommit, ById(current.reports);
    forall i | 0 <= i < |credited|
      ensures ScopeOk(credited[i], base, byId[c.runId := c]) && credited[i].scope == current.scopes[i].scope {
      CreditOk(current.scopes[i], base, byId, c);
    }
  }

  lemma {:induction false} PlacedReportsOk(utc: Clock, rs: seq<Report>, c: Report)
    requires ReportsOk(utc, rs) && ReportOk(utc, c)
    ensures ReportsOk(utc, Without(rs, c.runId) + [c])
    ensures ById(Without(rs, c.runId) + [c]) == ById(rs)[c.runId := c]
  {
    var kept := Without(rs, c.runId);
    WithoutOk(utc, rs, c.runId);
    WithoutById(rs, c.runId);
    ReportsGrow(utc, kept, c);
    Replaced(ById(rs), c.runId, c);
  }

  lemma {:induction false} Replaced(m: map<string, Report>, id: string, r: Report)
    ensures (m - {id})[id := r] == m[id := r]
  {
  }

  // A normal PASS report made at the base commit, of a scope held by the
  // owner, under a run identifier not otherwise bound, is placed.
  lemma {:induction false} PlaceAccepts(utc: Clock, current: Ledger, c: Report, owner: string)
    requires Valid(utc, current) && StripReport(c) == c && ReportOk(utc, c) && c.status == PASS
    requires c.availability == VERIFIED && c.commit == current.repository.baseCommit
    requires FindScope(current.scopes, c.scope).Some? && FindScope(current.scopes, c.scope).value.owner == owner
    requires c.runId in ById(current.reports) ==> ById(current.reports)[c.runId] == c
    ensures Place(utc, current, c, owner) == Ok(Placed(current, c)) && Valid(utc, Placed(current, c))
    ensures ById(Placed(current, c).reports) == ById(current.reports)[c.runId := c]
  {
    PlacedIsStripped(utc, current, c);
    PlacedReportsOk(utc, current.reports, c);
    CreditedScopes(utc, current, c);
    ValidateFixes(utc, Placed(current, c));
  }

  lemma {:induction false} OthersCredit(ss: seq<Scope>, c: Report)
    ensures Others(CreditAll(ss, c), c.scope) == Others(ss, c.scope)
  {
    if ss != [] {
      var n := |ss| - 1;
      OthersCredit(ss[..n], c);
      assert CreditAll(ss, c)[..n] == CreditAll(ss[..n], c);
    }
  }

  lemma {:induction false} ExcludedAll(ss: seq<Scope>, name: string, exclusions: seq<string>, base: string,
          byId: map<string, Report>)
    requires ScopesOk(ss, base, byId) && FindScope(ss, name).Some?
    requires forall i :: 0 <= i < |ss| ==> StripScope(ss[i]) == ss[i]
    ensures ScopesOk(StripScopes(Exclude(ss, name, exclusions)), base, byId) <==> Nonblank(exclusions)
  {
    var final := StripScopes(Exclude(ss, name, exclusions));
    var k := FindScopeAt(ss, name);
    forall i | 0 <= i < |ss|
      ensures final[i].scope == ss[i].scope
      ensures ScopeOk(final[i], base, byId) <==> (ss[i].scope == name ==> Nonblank(exclusions))
    {
      assert ScopeOk(ss[i], base, byId);
      ExcludedScope(ss[i], name, exclusions, base, byId);
    }
    assert DistinctScopes(final);
  }

  lemma {:induction false} ExcludedOk(utc: Clock, after: Ledger, name: string, exclusions: seq<string>)
    requires Valid(utc, after) && FindScope(after.scopes, name).Some?
    ensures Validate(utc, after.(scopes := Exclude(after.scopes, name, exclusions))).Some? <==> Nonblank(exclusions)
  {
    ExcludeStripped(utc, after, name, exclusions);
    CleanScopes(after.scopes);
    ExcludedAll(after.scopes, name, exclusions, after.repository.baseCommit, ById(after.reports));
  }

  lemma {:induction false} ExcludedScope(s: Scope, name: string, exclusions: seq<string>, base: string,
          byId: map<string, Report>)
    requires ScopeOk(s, base, byId) && StripScope(s) == s
    ensures var e := StripScope(if s.scope == name then s.(exclusions := exclusions) else s);
            ScopeOk(e, base, byId) <==> (s.scope == name ==> Nonblank(exclusions))
  {
    if s.scope == name {
      var e := s.(exclusions := StripAll(exclusions));
      assert e == StripScope(s.(exclusions := exclusions));
      assert Earned(e, base, byId) == Earned(s, base, byId);
      assert forall i :: 0 <= i < |exclusions| ==> e.exclusions[i] == Strip(exclusions[i]);
      assert (forall i :: 0 <= i < |e.exclusions| ==> e.exclusions[i] != "") <==> Nonblank(exclusions);
      assert forall i :: 0 <= i < |s.exclusions| ==> s.exclusions[i] != "";
    }
  }

  // ---- a quiet file, stage by stage ----

  predicate Readable(w: World, path: string, raw: Bytes) {
    |raw| <= MAX_REPORT_BYTES && w.decode(raw).Some? && ReadPayload(w, path, raw).Some?
  }

  // The three looks of one indexing, starting at instant t, show these bytes.
  ghost predicate Shows(file: History, identity: int, raw: Bytes, t: nat) {
    file(t) == Regular(identity, raw) && file(t + 1) == Regular(identity, raw) && file(t + 2) == Regular(identity, raw)
  }

  lemma {:induction false} ShownPinned(w: World, path: string, file: History, identity: int, raw: Bytes, t: nat,
          expected: string)
    requires Shows(file, identity, raw, t)
    ensures IndexPinned(w, path, file, t, expected).0.Ok? <==> Readable(w, path, raw) && expected == w.sha(raw)
    ensures Readable(w, path, raw) ==> Index(w, path, file, t) == (ReadPayload(w, path, raw), t + 3)
    ensures IndexPinned(w, path, file, t, expected).0.Ok? ==>
              IndexPinned(w, path, file, t, expected) == (Ok(ReadPayload(w, path, raw).value), t + 3)
  {
    if ReadPayload(w, path, raw).Some? { IndexNormalises(w, path, raw); }
  }

  predicate PinReady(w: World, q: Request, raw: Bytes) {
    Readable(w, q.path, raw) && (q.expected.Some? ==> q.expected.value == w.sha(raw))
    && (var r := ReadPayload(w, q.path, raw).value; r.status == PASS && r.commit == q.commit && r.scope == q.scope)
  }

  lemma {:induction false} ShownPin(w: World, q: Request, file: History, identity: int, raw: Bytes, t: nat)
    requires file(t) == Regular(identity, raw) && Shows(file, identity, raw, t + 1)
    ensures Pin(w, q, file, t).0.Ok? <==> PinReady(w, q, raw)
    ensures PinReady(w, q, raw) ==> Pin(w, q, file, t) == (Ok(ReadPayload(w, q.path, raw).value), t + 4)
  {
    ShownPinned(w, q.path, file, identity, raw, t + 1, w.sha(raw));
  }

  // What a caller can check before promoting a report, but for the owner.
  predicate ReadyButOwner(w: World, l: Ledger, q: Request, raw: Bytes) {
    Validate(w.utc, l).Some? && PinReady(w, q, raw)
    && (var current, r := Stripped(l), ReadPayload(w, q.path, raw).value;
        IsHex(r.sha, 64) && Strip(q.path) == q.path != "" && Strip(q.branch) != "" && PassesNamed(current, q.commit)
        && FindScope(current.scopes, q.scope).Some?
        && (r.runId in ById(current.reports) ==> ById(current.reports)[r.runId] == r)
        && Nonblank(q.exclusions))
  }

  // And with the owner: what decides for a report that keeps still.
  predicate AdvanceReady(w: World, l: Ledger, q: Request, raw: Bytes) {
    ReadyButOwner(w, l, q, raw) && FindScope(Stripped(l).scopes, q.scope).value.owner == q.owner
  }

  lemma {:induction false} FindReset(ss: seq<Scope>, byId: map<string, Report>, commit: string, name: string)
    ensures var f, g := FindScope(ss, name), FindScope(ResetScopes(ss, byId, commit), name);
            f.Some? == g.Some? && (f.Some? ==> g.value == ResetScope(f.value, byId, commit))
  {
    if ss != [] {
      FindReset(ss[1..], byId, commit, name);
      assert ResetScopes(ss, byId, commit)[1..] == ResetScopes(ss[1..], byId, commit);
    }
  }

  lemma {:induction false} FindCredit(ss: seq<Scope>, c: Report, name: string)
    ensures var f, g := FindScope(ss, name), FindScope(CreditAll(ss, c), name);
            f.Some? == g.Some? && (f.Some? ==> g.value == Credit(f.value, c))
  {
    if ss != [] {
      FindCredit(ss[1..], c, name);
      assert CreditAll(ss, c)[1..] == CreditAll(ss[1..], c);
    }
  }

  lemma {:induction false} ReadFacts(w: World, path: string, raw: Bytes)
    requires ReadPayload(w, path, raw).Some?
    ensures var r := ReadPayload(w, path, raw).value;
            Strip(r.generated) == r.generated != "" && w.utc(r.generated) && IsHex(r.commit, 40) && r.runId != ""
            && r.availability == VERIFIED && KnownState(r.state) && BuilderOf(r.scope) == Some(r.builder)
            && Strip(r.commit) == r.commit
  {
    ReadIsNormal(w, path, raw);
  }

  lemma {:induction false} ReadyApplies(w: World, l: Ledger, q: Request, file: History, identity: int, raw: Bytes,
          t: nat)
    requires Shows(file, identity, raw, t) && AdvanceReady(w, l, q, raw)
    ensures var r := ReadPayload(w, q.path, raw).value;
            var moved := Moved(Stripped(l), q, r.generated);
            var placed := Placed(Stripped(moved), r);
            Apply(w, moved, q.path, file, t, q.owner) == (Ok(placed), t + 3) && Valid(w.utc, placed)
            && ById(placed.reports) == ById(moved.reports)[r.runId := r]
            && placed.scopes == CreditAll(moved.scopes, r) && FindScope(moved.scopes, q.scope).Some?
  {
    var current, r := Stripped(l), ReadPayload(w, q.path, raw).value;
    ValidateFixes(w.utc, l);
    ReadFacts(w, q.path, raw);
    IndexNormalises(w, q.path, raw);
    MovedIsValid(w.utc, current, q, r.generated);
    MovedStripped(w.utc, current, q, r.generated);
    var moved := Moved(current, q, r.generated);
    ValidateFixes(w.utc, moved);
    FindReset(current.scopes, ById(current.reports), q.commit, q.scope);
    ShownPinned(w, q.path, file, identity, raw, t, r.sha);
    PlaceAccepts(w.utc, Stripped(moved), r, q.owner);
  }

  lemma {:induction false} ReadyRecorded(moved: Ledger, after: Ledger, r: Report)
    requires r.status == PASS && FindScope(moved.scopes, r.scope).Some?
    requires after.scopes == CreditAll(moved.scopes, r)
    requires ById(after.reports) == ById(moved.reports)[r.runId := r]
    ensures FindScope(after.scopes, r.scope).Some?
    ensures Recorded(moved, after, FindScope(after.scopes, r.scope).value, r, r)
  {
    FindCredit(moved.scopes, r, r.scope);
    var k := FindScopeAt(moved.scopes, r.scope);
    OthersCredit(moved.scopes, r);
  }

  lemma {:induction false} AdvanceSucceeds(w: World, l: Ledger, q: Request, file: History, t: nat, r: Report,
          after: Ledger)
    requires Validate(w.utc, l).Some? && Pin(w, q, file, t) == (Ok(r), t + 4)
    requires Apply(w, Moved(Stripped(l), q, r.generated), q.path, file, t + 4, q.owner) == (Ok(after), t + 7)
    requires Conclude(w, q, file, t + 7, r, Moved(Stripped(l), q, r.generated), after).0.Ok?
    ensures Advance(w, l, q, file, t).0.Ok?
  {
    assert Settle(w, q, file, t + 4, r, Moved(Stripped(l), q, r.generated)).0.Ok?;
  }

  // A quiet report that is ready is promoted.
  lemma {:induction false} ReadyAdvances(w: World, l: Ledger, q: Request, file: History, identity: int, raw: Bytes,
          t: nat)
    requires Quiet(file, identity, raw) && AdvanceReady(w, l, q, raw)
    ensures Advance(w, l, q, file, t).0.Ok?
  {
    var r := ReadPayload(w, q.path, raw).value;
    var moved := Moved(Stripped(l), q, r.generated);
    var after := Placed(Stripped(moved), r);
    ShownPin(w, q, file, identity, raw, t);
    ReadyApplies(w, l, q, file, identity, raw, t + 4);
    ReadyRecorded(moved, after, r);
    ReadyConcludes(w, q, file, identity, raw, t + 7, moved, after, r);
    AdvanceSucceeds(w, l, q, file, t, r, after);
  }

  lemma {:induction false} ReadyConcludes(w: World, q: Request, file: History, identity: int, raw: Bytes, t: nat,
          moved: Ledger, after: Ledger, r: Report)
    requires Shows(file, identity, raw, t) && Readable(w, q.path, raw) && r == ReadPayload(w, q.path, raw).value
    requires Valid(w.utc, after) && Nonblank(q.exclusions) && FindScope(after.scopes, q.scope).Some?
    requires Recorded(moved, after, FindScope(after.scopes, q.scope).value, r, r)
    ensures Conclude(w, q, file, t, r, moved, after).0.Ok?
  {
    IndexNormalises(w, q.path, raw);
    ShownPinned(w, q.path, file, identity, raw, t, r.sha);
    ExcludedOk(w.utc, after, q.scope, q.exclusions);
    ConcludeSucceeds(w, q, file, t, r, moved, after);
  }

  lemma {:induction false} ConcludeSucceeds(w: World, q: Request, file: History, t: nat, r: Report, moved: Ledger,
          after: Ledger)
    requires IndexPinned(w, q.path, file, t, r.sha) == (Ok(r), t + 3) && FindScope(after.scopes, q.scope).Some?
    requires Recorded(moved, after, FindScope(after.scopes, q.scope).value, r, r)
    requires Validate(w.utc, after.(scopes := Exclude(after.scopes, q.scope, q.exclusions))).Some?
    ensures Conclude(w, q, file, t, r, moved, after).0.Ok?
  {}

  // However the file behaves, a promoted report met every condition but that
  // of the owner, at the content it was pinned with.
  lemma {:induction false} AdvanceNeeds(w: World, l: Ledger, q: Request, file: History, t: nat)
    requires Advance(w, l, q, file, t).0.Ok?
    ensures file(t + 1).Regular? && ReadyButOwner(w, l, q, file(t + 1).raw)
    ensures Pin(w, q, file, t) == (Ok(ReadPayload(w, q.path, file(t + 1).raw).value), t + 4)
    ensures Apply(w, Moved(Stripped(l), q, Pin(w, q, file, t).0.value.generated), q.path, file, t + 4, q.owner).0.Ok?
  {
    var current, out := Stripped(l), Advance(w, l, q, file, t).0.value;
    ValidateFixes(w.utc, l);
    PinMeans(w, q, file, t);
    var raw, r := file(t + 1).raw, Pin(w, q, file, t).0.value;
    PinnedReadable(w, q, file, t);
    ReadFacts(w, q.path, raw);
    IndexNormalises(w, q.path, raw);
    AdvanceRecordsPinned(w, l, q, file, t);
    RecordedIsNormal(w, current, q, r, out);
    AdvancedExclusions(w, l, q, file, t, r);
    AppliedMove(w, current, q, file, t + 4, r);
    TargetWasThere(current.scopes, q, r, ById(current.reports));
  }

  lemma {:induction false} PinnedReadable(w: World, q: Request, file: History, t: nat)
    requires Pin(w, q, file, t).0.Ok?
    ensures file(t + 1).Regular? && Readable(w, q.path, file(t + 1).raw)
  {
    IndexIsOneContent(w, q.path, file, t + 1);
  }

  // The target of a promotion was a scope of the baseline.
  lemma {:induction false} TargetWasThere(ss: seq<Scope>, q: Request, r: Report, byId: map<string, Report>)
    requires FindScope(PromotedAll(ss, q, r, byId), q.scope).Some? && DistinctScopes(ss)
    ensures FindScope(ss, q.scope).Some?
  {
    var k := FindScopeAt(PromotedAll(ss, q, r, byId), q.scope);
    assert ss[k].scope == q.scope;
    FindScopeHolds(ss, k);
  }

  lemma {:induction false} AppliedMove(w: World, current: Ledger, q: Request, file: History, t: nat, r: Report)
    requires Valid(w.utc, current) && IsHex(q.commit, 40) && Strip(r.generated) == r.generated != ""
      && w.utc(r.generated)
    requires Apply(w, Moved(current, q, r.generated), q.path, file, t, q.owner).0.Ok?
    ensures Strip(q.branch) != "" && PassesNamed(current, q.commit)
  {
    MovedIsValid(w.utc, current, q, r.generated);
  }

  // A quiet report that is promoted was ready.
  lemma {:induction false} AdvancedWasReady(w: World, l: Ledger, q: Request, file: History, identity: int,
          raw: Bytes, t: nat)
    requires Quiet(file, identity, raw) && Advance(w, l, q, file, t).0.Ok?
    ensures AdvanceReady(w, l, q, raw)
  {
    AdvanceNeeds(w, l, q, file, t);
    ValidateFixes(w.utc, l);
    AppliedOwner(w, Stripped(l), q, file, identity, raw, t + 4, ReadPayload(w, q.path, raw).value);
  }

  lemma {:induction false} RecordedIsNormal(w: World, current: Ledger, q: Request, r: Report, out: Ledger)
    requires Valid(w.utc, out) && RecordsPinned(current, q, r, out)
    ensures StripReport(r) == r && ReportOk(w.utc, r)
  {
    CleanReports(w.utc, out);
    assert ById(out.reports)[r.runId] == r;
    var i := ByIdSource(out.reports, r.runId);
  }

  lemma {:induction false} AppliedIsValid(w: World, l: Ledger, path: string, file: History, t: nat, owner: string)
    requires Apply(w, l, path, file, t, owner).0.Ok?
    ensures Valid(w.utc, Apply(w, l, path, file, t, owner).0.value)
  {
    var c := Index(w, path, file, t).0.value;
    ValidateFixes(w.utc, Placed(Stripped(l), c));
  }

  lemma {:induction false} ConcludedValidates(w: World, q: Request, file: History, t: nat, indexed: Report,
          before: Ledger, after: Ledger)
    requires Conclude(w, q, file, t, indexed, before, after).0.Ok?
    ensures FindScope(after.scopes, q.scope).Some?
    ensures Validate(w.utc, after.(scopes := Exclude(after.scopes, q.scope, q.exclusions))).Some?
  {
    var (again, now) := IndexPinned(w, q.path, file, t, indexed.sha);
    assert again.Ok?;
  }

  lemma {:induction false} ConcludedExclusions(w: World, q: Request, file: History, t: nat, indexed: Report,
          before: Ledger, after: Ledger)
    requires Valid(w.utc, after) && Conclude(w, q, file, t, indexed, before, after).0.Ok?
    ensures Nonblank(q.exclusions)
  {
    ConcludedValidates(w, q, file, t, indexed, before, after);
    ExcludedOk(w.utc, after, q.scope, q.exclusions);
  }

  lemma {:induction false} AdvancedExclusions(w: World, l: Ledger, q: Request, file: History, t: nat, indexed: Report)
    requires Advance(w, l, q, file, t).0.Ok? && Pin(w, q, file, t) == (Ok(indexed), t + 4)
    ensures Nonblank(q.exclusions)
    ensures Apply(w, Moved(Stripped(l), q, indexed.generated), q.path, file, t + 4, q.owner).0.Ok?
  {
    var before := Moved(Stripped(l), q, indexed.generated);
    AppliedIsValid(w, before, q.path, file, t + 4, q.owner);
    var (after, t2) := Apply(w, before, q.path, file, t + 4, q.owner);
    ConcludedExclusions(w, q, file, t2, indexed, before, after.value);
  }

  // apply_scope_report checks the owner of the scope of the report it sees.
  lemma {:induction false} AppliedOwner(w: World, current: Ledger, q: Request, file: History, identity: int,
          raw: Bytes, t: nat, r: Report)
    requires Valid(w.utc, current) && Shows(file, identity, raw, t) && PinReady(w, q, raw)
    requires r == ReadPayload(w, q.path, raw).value
    requires Apply(w, Moved(current, q, r.generated), q.path, file, t, q.owner).0.Ok?
    ensures FindScope(current.scopes, q.scope).Some? && FindScope(current.scopes, q.scope).value.owner == q.owner
  {
    MovedStripped(w.utc, current, q, r.generated);
    FindReset(current.scopes, ById(current.reports), q.commit, q.scope);
    ShownPinned(w, q.path, file, identity, raw, t, r.sha);
  }

  // ---- the whole call ----

  predicate UpdatesReady(l: Ledger, updates: map<string, string>) {
    updates.Keys <= Ids(l.assets) && forall id :: id in updates ==> IsHex(Strip(updates[id]), 64)
  }

  lemma {:induction false} RehashedOk(xs: seq<Asset>, updates: map<string, string>)
    requires AssetsOk(xs) && StripAssets(xs) == xs && updates.Keys <= Ids(xs)
    ensures AssetsOk(StripAssets(Rehash(xs, updates))) <==> forall id :: id in updates ==> IsHex(Strip(updates[id]), 64)
  {
    var out := StripAssets(Rehash(xs, updates));
    forall i | 0 <= i < |xs|
      ensures out[i].id == xs[i].id
      ensures AssetOk(out[i]) <==> (xs[i].id in updates ==> IsHex(Strip(updates[xs[i].id]), 64))
    {
      assert StripAssets(xs)[i] == StripAsset(xs[i]);
    }
    assert DistinctAssets(out);
    if AssetsOk(out) {
      forall id | id in updates ensures IsHex(Strip(updates[id]), 64) {
        assert id in Ids(xs);
        var i :| 0 <= i < |xs| && xs[i].id == id;
        assert AssetOk(out[i]);
      }
    }
  }

  lemma {:induction false} UpdatesOutcome(utc: Clock, l: Ledger, updates: map<string, string>)
    requires Valid(utc, l)
    ensures UpdateAssets(utc, l, updates).Ok? <==> UpdatesReady(l, updates)
  {
    assert Stripped(l) == l;
    if updates.Keys <= Ids(l.assets) { RehashedOk(l.assets, updates); }
  }

  // What a caller can check before the call.
  predicate Ready(w: World, l: Ledger, p: Promotion, raw: Bytes) {
    p.git.clean && p.git.branch != "" && (p.wantBranch.Some? ==> p.wantBranch.value == p.git.branch)
    && (p.expected.Some? && p.expected.value != "" ==> p.expected.value == w.sha(raw))
    && AdvanceReady(w, l, RequestOf(p, w.sha(raw)), raw)
    && UpdatesReady(Stripped(l), p.updates) && p.confirmed == p.git
  }

  lemma {:induction false} PromoteSucceeds(w: World, l: Ledger, p: Promotion, pinned: string, t: nat,
          updated: Ledger, t1: nat)
    requires p.git.clean && p.git.branch != "" && (p.wantBranch.Some? ==> p.wantBranch.value == p.git.branch)
    requires Pinned(w, p, 0) == (Some(pinned), t) && p.confirmed == p.git
    requires Advance(w, l, RequestOf(p, pinned), p.file, t) == (Ok(updated), t1)
    requires UpdateAssets(w.utc, updated, p.updates).Ok? && IndexPinned(w, p.path, p.file, t1, pinned).0.Ok?
    ensures Accepted(w, l, p)
  {
    assert Finish(w, updated, p, pinned, t1).0.Ok?;
  }

  lemma {:induction false} QuietAccepts(w: World, l: Ledger, p: Promotion, identity: int, raw: Bytes)
    requires Quiet(p.file, identity, raw) && Ready(w, l, p, raw)
    ensures Accepted(w, l, p)
  {
    assert p.file(0) == Regular(identity, raw);
    var (pinned, t) := Pinned(w, p, 0);
    var q := RequestOf(p, pinned.value);
    ReadyAdvances(w, l, q, p.file, identity, raw, t);
    var (updated, t1) := Advance(w, l, q, p.file, t);
    AdvanceRecordsPinned(w, l, q, p.file, t);
    UpdatesOutcome(w.utc, updated.value, p.updates);
    ShownPinned(w, p.path, p.file, identity, raw, t1, pinned.value);
    PromoteSucceeds(w, l, p, pinned.value, t, updated.value, t1);
  }

  lemma {:induction false} QuietWasReady(w: World, l: Ledger, p: Promotion, identity: int, raw: Bytes)
    requires Quiet(p.file, identity, raw) && Accepted(w, l, p)
    ensures Ready(w, l, p, raw)
  {
    assert p.file(0) == Regular(identity, raw);
    var (pinned, t) := Pinned(w, p, 0);
    var q := RequestOf(p, pinned.value);
    var r := Advance(w, l, q, p.file, t);
    AdvancedWasReady(w, l, q, p.file, identity, raw, t);
    AdvanceRecordsPinned(w, l, q, p.file, t);
    UpdatesOutcome(w.utc, r.0.value, p.updates);
    ShownPinned(w, p.path, p.file, identity, raw, r.1, pinned.value);
  }

  // A promotion of a report that keeps still is accepted exactly when it was
  // ready, and what it then writes is given by AcceptedCall.
  lemma {:induction false} QuietOutcome(w: World, l: Ledger, p: Promotion, identity: int, raw: Bytes)
    requires Quiet(p.file, identity, raw)
    ensures Accepted(w, l, p) <==> Ready(w, l, p, raw)
  {
    assert p.file(0) == Regular(identity, raw);
    if Ready(w, l, p, raw) { QuietAccepts(w, l, p, identity, raw); }
    if Accepted(w, l, p) { QuietWasReady(w, l, p, identity, raw); }
  }
}
