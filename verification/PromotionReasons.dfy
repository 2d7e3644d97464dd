// Why a promotion is refused: the first thing wrong, in the order of the
// checks, for a report file that keeps still.
module PromotionReasons {
  import opened Options
  import opened PyText
  import opened Baseline
  import opened BaselineFields
  import opened Evidence
  import opened Promotion
  import opened PromotionRecords
  import opened PromotionQuiet
  import opened PromotionFields

  // ---- the pinned report ----

  lemma {:induction false} IndexReason(w: World, path: string, file: History, identity: int, raw: Bytes, t: nat,
                                       expected: string)
    requires Quiet(file, identity, raw)
    ensures IndexPinned(w, path, file, t, expected) ==
            if |raw| > MAX_REPORT_BYTES then (Err(HashMismatch), t + 2)
            else if w.decode(raw).None? then
              (Err(if w.sha(raw) == expected then EvidenceInvalid else HashMismatch), t + 2)
            else if ReadPayload(w, path, raw).None? then
              (Err(if w.sha(raw) == expected then EvidenceInvalid else HashMismatch), t + 4)
            else if w.sha(raw) != expected then (Err(HashMismatch), t + 3)
            else (Ok(ReadPayload(w, path, raw).value), t + 3)
  {
    assert file(t) == Regular(identity, raw) && file(t + 1) == Regular(identity, raw);
    assert file(t + 2) == Regular(identity, raw) && file(t + 3) == Regular(identity, raw);
    if ReadPayload(w, path, raw).Some? { ReadFields(w, path, raw); }
  }

  function PinFails(w: World, q: Request, raw: Bytes): Option<Rejection>
    requires q.expected.Some?
  {
    if |raw| > MAX_REPORT_BYTES then Some(EvidenceInvalid)
    else if q.expected.value != w.sha(raw) then Some(HashMismatch)
    else if ReadPayload(w, q.path, raw).None? then Some(EvidenceInvalid)
    else
      var r := ReadPayload(w, q.path, raw).value;
      if r.status != PASS then Some(NotPass)
      else if r.commit != q.commit then Some(CommitMismatch)
      else if r.scope != q.scope then Some(ScopeMismatch)
      else None
  }

  lemma {:induction false} PinReason(w: World, q: Request, file: History, identity: int, raw: Bytes, t: nat)
    requires Quiet(file, identity, raw) && q.expected.Some?
    ensures PinFails(w, q, raw).Some? ==> Pin(w, q, file, t).0 == Err(PinFails(w, q, raw).value)
    ensures PinFails(w, q, raw).None? ==>
              PinReady(w, q, raw) && Pin(w, q, file, t) == (Ok(ReadPayload(w, q.path, raw).value), t + 4)
  {
    assert file(t) == Regular(identity, raw);
    IndexReason(w, q.path, file, identity, raw, t + 1, w.sha(raw));
  }

  // ---- placing it ----

  predicate Conflicts(current: Ledger, c: Report, owner: string) {
    var scope := FindScope(current.scopes, c.scope);
    scope.None? || scope.value.owner != owner
    || (c.runId in ById(current.reports) && ById(current.reports)[c.runId] != c)
  }

  predicate Storable(c: Report) { Strip(c.path) != "" && IsHex(Strip(c.sha), 64) }

  // What an indexed report is, padding of its path and digest aside.
  ghost predicate Indexed(utc: Clock, c: Report) {
    StripReport(c) == c.(path := Strip(c.path), sha := Strip(c.sha))
    && BuilderOf(c.scope) == Some(c.builder) && c.availability == VERIFIED
    && (ReportOk(utc, StripReport(c)) <==> Storable(c))
  }

  lemma {:induction false} ReadIsIndexed(w: World, path: string, raw: Bytes)
    requires ReadPayload(w, path, raw).Some?
    ensures Indexed(w.utc, ReadPayload(w, path, raw).value)
  {
    ReadIsStripped(w, path, raw);
    ReadFields(w, path, raw);
    ReadFacts(w, path, raw);
  }

  lemma {:induction false} ReportsStripped(rs: seq<Report>, c: Report)
    requires StripReports(rs) == rs
    ensures StripReports(Without(rs, c.runId) + [c]) == Without(rs, c.runId) + [StripReport(c)]
  {
    var kept := Without(rs, c.runId);
    CleanIsFixed(rs);
    WithoutKeeps(rs, c.runId);
    forall i | 0 <= i < |kept| ensures StripReports(kept + [c])[i] == kept[i] { assert kept[i] in kept; }
  }

  lemma {:induction false} ScopesStripped(ss: seq<Scope>, c: Report)
    requires StripScopes(ss) == ss
    requires Strip(c.runId) == c.runId && Strip(c.status) == c.status && Strip(c.state) == c.state
    ensures StripScopes(CreditAll(ss, c)) == CreditAll(ss, c)
  {
    CleanScopes(ss);
    forall i | 0 <= i < |ss| ensures StripScope(CreditAll(ss, c)[i]) == CreditAll(ss, c)[i] {
      assert StripScope(ss[i]) == ss[i];
    }
  }

  lemma {:induction false} PlacedStripped(utc: Clock, current: Ledger, c: Report)
    requires Valid(utc, current) && Indexed(utc, c)
    ensures Stripped(Placed(current, c)) == Placed(current, StripReport(c))
  {
    assert Stripped(current) == current;
    ReportsStripped(current.reports, c);
    ScopesStripped(current.scopes, c);
    SameCredit(current.scopes, c);
  }

  lemma {:induction false} SameCredit(ss: seq<Scope>, c: Report)
    requires Strip(c.runId) == c.runId && Strip(c.scope) == c.scope && Strip(c.status) == c.status
    requires Strip(c.state) == c.state
    ensures CreditAll(ss, StripReport(c)) == CreditAll(ss, c)
  {
    forall i | 0 <= i < |ss| ensures Credit(ss[i], StripReport(c)) == Credit(ss[i], c) {}
  }

  lemma {:induction false} StorableIsPlaced(utc: Clock, current: Ledger, c: Report, owner: string)
    requires Valid(utc, current) && Indexed(utc, c) && c.status == PASS && c.commit == current.repository.baseCommit
    requires !Conflicts(current, c, owner) && Storable(c)
    ensures var placed := Placed(current, StripReport(c));
            && Validate(utc, Placed(current, c)) == Some(placed) && Valid(utc, placed)
            && ById(placed.reports) == ById(current.reports)[c.runId := StripReport(c)]
  {
    var clean := StripReport(c);
    CleanReports(utc, current);
    StripReportTwice(c);
    PlacedStripped(utc, current, c);
    PlaceAccepts(utc, current, clean, owner);
  }

  lemma {:induction false} UnstorableIsInvalid(utc: Clock, current: Ledger, c: Report)
    requires Valid(utc, current) && Indexed(utc, c) && !Storable(c)
    ensures Validate(utc, Placed(current, c)) == None
  {
    PlacedStripped(utc, current, c);
    var reports := Placed(current, StripReport(c)).reports;
    assert reports[|reports| - 1] == StripReport(c);
    assert !ReportsOk(utc, reports);
  }

  lemma {:induction false} PlaceReason(utc: Clock, current: Ledger, c: Report, owner: string)
    requires Valid(utc, current) && Indexed(utc, c) && c.status == PASS && c.commit == current.repository.baseCommit
    ensures Place(utc, current, c, owner) ==
            if Conflicts(current, c, owner) then Err(ScopeConflict)
            else if !Storable(c) then Err(BaselineInvalid)
            else Ok(Placed(current, StripReport(c)))
  {
    if !Conflicts(current, c, owner) {
      if Storable(c) {
        StorableIsPlaced(utc, current, c, owner);
      } else {
        UnstorableIsInvalid(utc, current, c);
      }
    }
  }

  // ---- settling it ----

  // Why a pinned report that is PASS, of the requested scope and made at the
  // requested commit, is refused all the same.
  function SettleFails(current: Ledger, q: Request, r: Report): Option<Rejection> {
    if Strip(q.branch) == "" || !PassesNamed(current, q.commit) then Some(BaselineInvalid)
    else if Conflicts(current, r, q.owner) then Some(ScopeConflict)
    else if !Storable(r) then Some(BaselineInvalid)
    else if StripReport(r) != r then Some(HashMismatch)
    else if !Nonblank(q.exclusions) then Some(BaselineInvalid)
    else None
  }

  lemma {:induction false} MovedConflicts(utc: Clock, current: Ledger, q: Request, r: Report)
    requires Valid(utc, current)
    ensures Conflicts(Stripped(Moved(current, q, r.generated)), r, q.owner) <==> Conflicts(current, r, q.owner)
  {
    MovedStripped(utc, current, q, r.generated);
    FindReset(current.scopes, ById(current.reports), q.commit, r.scope);
  }

  lemma {:induction false} MovedPlaces(w: World, current: Ledger, q: Request, raw: Bytes)
    requires Valid(w.utc, current) && PinReady(w, q, raw)
    ensures var r := ReadPayload(w, q.path, raw).value;
            var moved := Moved(current, q, r.generated);
            if Strip(q.branch) == "" || !PassesNamed(current, q.commit) then Validate(w.utc, moved) == None
            else
              Validate(w.utc, moved) == Some(Stripped(moved)) && Valid(w.utc, Stripped(moved))
              && Stripped(moved).repository.baseCommit == q.commit
  {
    var r := ReadPayload(w, q.path, raw).value;
    ReadFacts(w, q.path, raw);
    MovedIsValid(w.utc, current, q, r.generated);
    MovedStripped(w.utc, current, q, r.generated);
    ValidateFixes(w.utc, Moved(current, q, r.generated));
    HexIsStripped(q.commit, 40);
  }

  ghost predicate AppliedAs(current: Ledger, q: Request, r: Report, applied: (Result<Ledger>, nat)) {
    if Strip(q.branch) == "" || !PassesNamed(current, q.commit) then applied.0 == Err(BaselineInvalid)
    else if Conflicts(current, r, q.owner) then applied.0 == Err(ScopeConflict)
    else if !Storable(r) then applied.0 == Err(BaselineInvalid)
    else applied.0 == Ok(Placed(Stripped(Moved(current, q, r.generated)), StripReport(r)))
  }

  ghost predicate ConcludedAs(q: Request, r: Report, concluded: Result<Ledger>) {
    if StripReport(r) != r then concluded == Err(HashMismatch)
    else if !Nonblank(q.exclusions) then concluded == Err(BaselineInvalid)
    else concluded.Ok?
  }

  // apply_scope_report on the moved candidate.
  lemma {:induction false} ApplyReason(w: World, current: Ledger, q: Request, file: History, identity: int, raw: Bytes,
                                       t: nat) returns (applied: (Result<Ledger>, nat))
    requires Quiet(file, identity, raw) && Valid(w.utc, current) && PinReady(w, q, raw)
    ensures var r := ReadPayload(w, q.path, raw).value;
            var moved := Moved(current, q, r.generated);
            applied == Apply(w, moved, q.path, file, t, q.owner) && AppliedAs(current, q, r, applied)
  {
    var r := ReadPayload(w, q.path, raw).value;
    var moved := Moved(current, q, r.generated);
    MovedPlaces(w, current, q, raw);
    if Validate(w.utc, moved).Some? {
      ReadIsIndexed(w, q.path, raw);
      MovedConflicts(w.utc, current, q, r);
      PlaceReason(w.utc, Stripped(moved), r, q.owner);
      ApplyStages(w, moved, q, file, identity, raw, t);
    }
    applied := Apply(w, moved, q.path, file, t, q.owner);
  }

  lemma {:induction false} ApplyStages(w: World, moved: Ledger, q: Request, file: History, identity: int, raw: Bytes,
                                       t: nat)
    requires Quiet(file, identity, raw) && PinReady(w, q, raw) && Validate(w.utc, moved).Some?
    ensures Apply(w, moved, q.path, file, t, q.owner)
         == (Place(w.utc, Validate(w.utc, moved).value, ReadPayload(w, q.path, raw).value, q.owner), t + 3)
  {
    assert Shows(file, identity, raw, t);
    ShownPinned(w, q.path, file, identity, raw, t, w.sha(raw));
  }

  // The comparisons after placing, with the report in its stored form.
  lemma {:induction false} ConcludeReason(w: World, current: Ledger, q: Request, file: History, identity: int,
                                          raw: Bytes, t: nat, after: Ledger) returns (out: Result<Ledger>)
    requires Quiet(file, identity, raw) && Valid(w.utc, current) && PinReady(w, q, raw)
    requires Strip(q.branch) != "" && PassesNamed(current, q.commit)
    requires var r := ReadPayload(w, q.path, raw).value;
             !Conflicts(current, r, q.owner) && Storable(r)
             && after == Placed(Stripped(Moved(current, q, r.generated)), StripReport(r))
    ensures var r := ReadPayload(w, q.path, raw).value;
            var moved := Moved(current, q, r.generated);
            out == Conclude(w, q, file, t, r, moved, after).0 && ConcludedAs(q, r, out)
  {
    var r := ReadPayload(w, q.path, raw).value;
    var moved := Moved(current, q, r.generated);
    MovedPlaces(w, current, q, raw);
    ReadIsIndexed(w, q.path, raw);
    MovedConflicts(w.utc, current, q, r);
    StorableIsPlaced(w.utc, Stripped(moved), r, q.owner);
    FindCredit(Stripped(moved).scopes, StripReport(r), r.scope);
    MovedScopes(w.utc, current, q, r);
    assert Shows(file, identity, raw, t);
    ReadFields(w, q.path, raw);
    ShownPinned(w, q.path, file, identity, raw, t, r.sha);
    if StripReport(r) != r {
      NotRecorded(moved, after, FindScope(after.scopes, q.scope).value, r);
    } else {
      ReadyRecorded(moved, after, r);
      ExcludedOk(w.utc, after, q.scope, q.exclusions);
    }
    ConcludeStages(w, q, file, t, r, moved, after);
    out := Conclude(w, q, file, t, r, moved, after).0;
  }

  lemma {:induction false} MovedScopes(utc: Clock, current: Ledger, q: Request, r: Report)
    requires Valid(utc, current)
    ensures var moved := Moved(current, q, r.generated);
            Stripped(moved).scopes == moved.scopes && Stripped(moved).reports == moved.reports
  {
    MovedStripped(utc, current, q, r.generated);
  }

  lemma {:induction false} NotRecorded(before: Ledger, after: Ledger, target: Scope, r: Report)
    requires ById(after.reports) == ById(before.reports)[r.runId := StripReport(r)] && StripReport(r) != r
    ensures !Recorded(before, after, target, r, r)
  {
    assert ById(after.reports)[r.runId] == StripReport(r);
  }

  lemma {:induction false} ConcludeStages(w: World, q: Request, file: History, t: nat, r: Report, before: Ledger,
                                          after: Ledger)
    requires IndexPinned(w, q.path, file, t, r.sha) == (Ok(r), t + 3) && FindScope(after.scopes, q.scope).Some?
    ensures Conclude(w, q, file, t, r, before, after).0 ==
            if !Recorded(before, after, FindScope(after.scopes, q.scope).value, r, r) then Err(HashMismatch)
            else FromOption(Validate(w.utc, after.(scopes := Exclude(after.scopes, q.scope, q.exclusions))))
  {}

  lemma {:induction false} SettleStages(w: World, q: Request, file: History, identity: int, raw: Bytes, t: nat,
                                        r: Report, before: Ledger, applied: (Result<Ledger>, nat))
    returns (settled: Result<Ledger>)
    requires Quiet(file, identity, raw) && |raw| <= MAX_REPORT_BYTES && r.sha == w.sha(raw)
    requires applied == Apply(w, before, q.path, file, t, q.owner)
    ensures settled == Settle(w, q, file, t, r, before).0
    ensures settled == if applied.0.Err? then applied.0
                       else Conclude(w, q, file, applied.1, r, before, applied.0.value).0
  {
    assert file(applied.1) == Regular(identity, raw);
    settled := Settle(w, q, file, t, r, before).0;
  }

  lemma {:induction false} SettleReason(w: World, current: Ledger, q: Request, file: History, identity: int, raw: Bytes,
                                        t: nat)
    requires Quiet(file, identity, raw) && Valid(w.utc, current) && PinReady(w, q, raw)
    ensures var r := ReadPayload(w, q.path, raw).value;
            var out, fails := Settle(w, q, file, t, r, Moved(current, q, r.generated)).0, SettleFails(current, q, r);
            (fails.Some? ==> out == Err(fails.value)) && (fails.None? ==> out.Ok?)
  {
    var r := ReadPayload(w, q.path, raw).value;
    var moved := Moved(current, q, r.generated);
    DigestIs(w, q.path, raw);
    var applied := ApplyReason(w, current, q, file, identity, raw, t);
    var concluded := applied.0;
    if applied.0.Ok? {
      concluded := ConcludeReason(w, current, q, file, identity, raw, applied.1, applied.0.value);
    }
    var settled := SettleStages(w, q, file, identity, raw, t, r, moved, applied);
    SettledAs(current, q, r, applied, settled, concluded);
  }

  lemma {:induction false} SettledAs(current: Ledger, q: Request, r: Report, applied: (Result<Ledger>, nat),
                                     settled: Result<Ledger>, concluded: Result<Ledger>)
    requires settled == if applied.0.Err? then applied.0 else concluded
    requires AppliedAs(current, q, r, applied) && (applied.0.Ok? ==> ConcludedAs(q, r, concluded))
    ensures var fails := SettleFails(current, q, r);
            (fails.Some? ==> settled == Err(fails.value)) && (fails.None? ==> settled.Ok?)
  {}

  lemma {:induction false} DigestIs(w: World, path: string, raw: Bytes)
    requires Readable(w, path, raw)
    ensures ReadPayload(w, path, raw).value.sha == w.sha(raw)
  {
    ReadFields(w, path, raw);
  }

  ghost predicate AdvanceIs(w: World, l: Ledger, q: Request, raw: Bytes, out: Result<Ledger>)
    requires q.expected.Some?
  {
    if Validate(w.utc, l).None? then out == Err(BaselineInvalid)
    else if PinFails(w, q, raw).Some? then out == Err(PinFails(w, q, raw).value)
    else
      var fails := SettleFails(Stripped(l), q, ReadPayload(w, q.path, raw).value);
      (fails.Some? ==> out == Err(fails.value)) && (fails.None? ==> out.Ok?)
  }

  lemma {:induction false} AdvanceReason(w: World, l: Ledger, q: Request, file: History, identity: int, raw: Bytes,
                                         t: nat) returns (advanced: (Result<Ledger>, nat))
    requires Quiet(file, identity, raw) && q.expected.Some?
    ensures advanced == Advance(w, l, q, file, t) && AdvanceIs(w, l, q, raw, advanced.0)
  {
    if Validate(w.utc, l).Some? {
      ValidateFixes(w.utc, l);
      PinReason(w, q, file, identity, raw, t);
      if PinFails(w, q, raw).None? { SettleReason(w, Stripped(l), q, file, identity, raw, t + 4); }
    }
    advanced := Advance(w, l, q, file, t);
  }

  // ---- the whole call, in fields ----

  // Why the checkout, the stored baseline or the file is refused.
  ghost function Before(w: World, l: Ledger, p: Promotion, raw: Bytes): Option<Rejection> {
    var asked := p.expected.Some? && p.expected.value != "";
    if !p.git.clean then Some(NotClean)
    else if p.git.branch == "" then Some(Detached)
    else if p.wantBranch.Some? && p.wantBranch.value != p.git.branch then Some(BranchMismatch)
    else if !asked && |raw| > 16777216 then Some(EvidenceInvalid)
    else if !Fields(w.utc, Stripped(l)) then Some(BaselineInvalid)
    else if |raw| > 16777216 then Some(EvidenceInvalid)
    else if asked && p.expected.value != w.sha(raw) then Some(HashMismatch)
    else if !exists r :: ReportOf(w, p.path, raw, r) then Some(EvidenceInvalid)
    else None
  }

  // Why this report is refused.
  ghost function Against(before: Ledger, p: Promotion, r: Report): Option<Rejection> {
    if r.status != "PASS" then Some(NotPass)
    else if r.commit != p.git.commit then Some(CommitMismatch)
    else if r.scope != p.scope then Some(ScopeMismatch)
    else if Strip(p.git.branch) == "" then Some(BaselineInvalid)
    else if r.commit != before.repository.baseCommit
            && exists s :: s in before.scopes && s.status == "PASS" && s.evidence == None then Some(BaselineInvalid)
    else if !exists s :: s in before.scopes && s.scope == p.scope && s.owner == p.owner then Some(ScopeConflict)
    else if exists e :: e in before.reports && e.runId == r.runId && e != r then Some(ScopeConflict)
    else if Strip(p.path) == "" || !Digits(Strip(r.sha), 64) then Some(BaselineInvalid)
    else if Strip(p.path) != p.path || Strip(r.sha) != r.sha then Some(HashMismatch)
    else if exists x :: x in p.exclusions && Strip(x) == "" then Some(BaselineInvalid)
    else None
  }

  ghost function UpdatesFail(assets: seq<Asset>, updates: map<string, string>): Option<Rejection> {
    if exists id :: id in updates && forall a :: a in assets ==> a.id != id then Some(AssetMissing)
    else if exists id :: id in updates && !Digits(Strip(updates[id]), 64) then Some(AssetInvalid)
    else None
  }

  // Why the call is refused after the report has been promoted in memory.
  ghost function After(before: Ledger, p: Promotion): Option<Rejection> {
    if UpdatesFail(before.assets, p.updates).Some? then UpdatesFail(before.assets, p.updates)
    else if p.confirmed != p.git then Some(CheckoutChanged)
    else None
  }

  lemma {:induction false} ConflictsAre(current: Ledger, r: Report, owner: string)
    requires DistinctScopes(current.scopes) && DistinctReports(current.reports)
    ensures Conflicts(current, r, owner) <==>
            (!exists s :: s in current.scopes && s.scope == r.scope && s.owner == owner)
            || exists e :: e in current.reports && e.runId == r.runId && e != r
  {
    if FindScope(current.scopes, r.scope).Some? { var k := FindScopeAt(current.scopes, r.scope); }
    if s :| s in current.scopes && s.scope == r.scope && s.owner == owner {
      var k :| 0 <= k < |current.scopes| && current.scopes[k] == s;
      FindScopeHolds(current.scopes, k);
    }
    if r.runId in ById(current.reports) { var i := ByIdSource(current.reports, r.runId); }
    if e :| e in current.reports && e.runId == r.runId && e != r { MemberById(current.reports, e); }
  }

  lemma {:induction false} StoredIs(w: World, path: string, raw: Bytes, r: Report)
    requires ReadPayload(w, path, raw) == Some(r)
    ensures r.path == path && (Storable(r) <==> Strip(path) != "" && Digits(Strip(r.sha), 64))
    ensures StripReport(r) == r <==> Strip(path) == path && Strip(r.sha) == r.sha
  {
    HexDigits(Strip(r.sha), 64);
    ReadIsStripped(w, path, raw);
    ReadFields(w, path, raw);
  }

  lemma {:induction false} SettleAgainst(w: World, l: Ledger, p: Promotion, raw: Bytes, r: Report)
    requires Valid(w.utc, Stripped(l)) && ReadPayload(w, p.path, raw) == Some(r)
    requires r.status == PASS && r.commit == p.git.commit && r.scope == p.scope
    ensures SettleFails(Stripped(l), RequestOf(p, r.sha), r) == Against(Stripped(l), p, r)
  {
    var before := Stripped(l);
    assert DistinctScopes(before.scopes) && DistinctReports(before.reports);
    StoredIs(w, p.path, raw, r);
    SettleFailsAre(before, p, r, r.sha);
  }

  lemma {:induction false} SettleFailsAre(before: Ledger, p: Promotion, r: Report, sha: string)
    requires DistinctScopes(before.scopes) && DistinctReports(before.reports)
    requires r.status == PASS && r.commit == p.git.commit && r.scope == p.scope
    requires Storable(r) <==> Strip(p.path) != "" && Digits(Strip(r.sha), 64)
    requires StripReport(r) == r <==> Strip(p.path) == p.path && Strip(r.sha) == r.sha
    ensures SettleFails(before, RequestOf(p, sha), r) == Against(before, p, r)
  {
    ConflictsAre(before, r, p.owner);
    NonblankIs(p.exclusions);
    NamedIs(before, p.git.commit);
  }

  lemma {:induction false} NonblankIs(texts: seq<string>)
    ensures Nonblank(texts) <==> !exists x :: x in texts && Strip(x) == ""
  {}

  lemma {:induction false} NamedIs(current: Ledger, commit: string)
    ensures PassesNamed(current, commit) <==>
            commit == current.repository.baseCommit
            || !exists s :: s in current.scopes && s.status == "PASS" && s.evidence == None
  {}

  lemma {:induction false} UpdatesFailIs(assets: seq<Asset>, updates: map<string, string>)
    ensures UpdatesFail(assets, updates) ==
            if !(updates.Keys <= Ids(assets)) then Some(AssetMissing)
            else if exists id :: id in updates && !IsHex(Strip(updates[id]), 64) then Some(AssetInvalid)
            else None
  {
    forall id ensures id in Ids(assets) <==> exists a :: a in assets && a.id == id {}
    forall id | id in updates ensures IsHex(Strip(updates[id]), 64) <==> Digits(Strip(updates[id]), 64) {
      HexDigits(Strip(updates[id]), 64);
    }
  }

  lemma {:induction false} UpdatesReason(utc: Clock, updated: Ledger, updates: map<string, string>)
    returns (assets: Result<Ledger>)
    requires Valid(utc, updated)
    ensures assets == UpdateAssets(utc, updated, updates)
    ensures var fails := UpdatesFail(updated.assets, updates);
            (fails.Some? ==> assets == Err(fails.value)) && (fails.None? ==> assets.Ok?)
  {
    UpdatesFailIs(updated.assets, updates);
    UpdatesOutcome(utc, updated, updates);
    assets := UpdateAssets(utc, updated, updates);
  }

  lemma {:induction false} FinishStages(w: World, updated: Ledger, p: Promotion, identity: int, raw: Bytes, t: nat,
                                        assets: Result<Ledger>)
    returns (out: Result<Ledger>)
    requires Quiet(p.file, identity, raw) && Readable(w, p.path, raw) && p.git.clean
    ensures out == Finish(w, updated, p, w.sha(raw), t).0
    requires assets == UpdateAssets(w.utc, updated, p.updates)
    ensures out == if assets.Ok? && p.confirmed != p.git then Err(CheckoutChanged) else assets
  {
    assert Shows(p.file, identity, raw, t);
    ShownPinned(w, p.path, p.file, identity, raw, t, w.sha(raw));
    out := Finish(w, updated, p, w.sha(raw), t).0;
  }

  lemma {:induction false} AfterReason(w: World, before: Ledger, updated: Ledger, p: Promotion, identity: int,
                                       raw: Bytes, t: nat) returns (out: Result<Ledger>)
    requires Quiet(p.file, identity, raw) && Readable(w, p.path, raw) && Valid(w.utc, updated)
    requires updated.assets == before.assets && p.git.clean
    ensures out == Finish(w, updated, p, w.sha(raw), t).0
    ensures var fails := After(before, p); (fails.Some? ==> out == Err(fails.value)) && (fails.None? ==> out.Ok?)
  {
    var assets := UpdatesReason(w.utc, updated, p.updates);
    out := FinishStages(w, updated, p, identity, raw, t, assets);
  }

  // Past the checkout checks, with the digest the call goes by.
  lemma {:induction false} PromoteStages(w: World, l: Ledger, p: Promotion, pinned: string, t: nat)
    requires p.git.clean && p.git.branch != "" && (p.wantBranch.Some? ==> p.wantBranch.value == p.git.branch)
    requires Pinned(w, p, 0) == (Some(pinned), t)
    ensures var (updated, t1) := Advance(w, l, RequestOf(p, pinned), p.file, t);
            Promote(w, l, p).0 == if updated.Err? then updated else Finish(w, updated.value, p, pinned, t1).0
  {}

  ghost predicate AnswersPast(w: World, l: Ledger, p: Promotion, raw: Bytes, pinned: string, out: Result<Ledger>) {
    if Validate(w.utc, l).None? then out == Err(BaselineInvalid)
    else if |raw| > MAX_REPORT_BYTES then out == Err(EvidenceInvalid)
    else if pinned != w.sha(raw) then out == Err(HashMismatch)
    else if ReadPayload(w, p.path, raw).None? then out == Err(EvidenceInvalid)
    else
      var against := Against(Stripped(l), p, ReadPayload(w, p.path, raw).value);
      var after := After(Stripped(l), p);
      if against.Some? then out == Err(against.value)
      else if after.Some? then out == Err(after.value)
      else out.Ok?
  }

  // From the stored baseline on, with the digest the call goes by.
  lemma {:induction false} PastCheckout(w: World, l: Ledger, p: Promotion, identity: int, raw: Bytes, pinned: string,
                                        t: nat) returns (out: Result<Ledger>)
    requires Quiet(p.file, identity, raw) && p.git.clean
    ensures var (updated, t1) := Advance(w, l, RequestOf(p, pinned), p.file, t);
            out == if updated.Err? then updated else Finish(w, updated.value, p, pinned, t1).0
    ensures AnswersPast(w, l, p, raw, pinned, out)
  {
    var q := RequestOf(p, pinned);
    var advanced := PastAdvance(w, l, p, identity, raw, pinned, t);
    out := advanced.0;
    if advanced.0.Ok? {
      ValidateFixes(w.utc, l);
      AdvanceRecordsPinned(w, l, q, p.file, t);
      out := AfterReason(w, Stripped(l), advanced.0.value, p, identity, raw, advanced.1);
    }
  }

  ghost predicate AdvancedAs(w: World, l: Ledger, p: Promotion, raw: Bytes, pinned: string, out: Result<Ledger>) {
    if Validate(w.utc, l).None? then out == Err(BaselineInvalid)
    else if |raw| > MAX_REPORT_BYTES then out == Err(EvidenceInvalid)
    else if pinned != w.sha(raw) then out == Err(HashMismatch)
    else if ReadPayload(w, p.path, raw).None? then out == Err(EvidenceInvalid)
    else
      var against := Against(Stripped(l), p, ReadPayload(w, p.path, raw).value);
      if against.Some? then out == Err(against.value) else out.Ok? && Readable(w, p.path, raw)
  }

  lemma {:induction false} PastAdvance(w: World, l: Ledger, p: Promotion, identity: int, raw: Bytes, pinned: string,
                                       t: nat) returns (advanced: (Result<Ledger>, nat))
    requires Quiet(p.file, identity, raw)
    ensures advanced == Advance(w, l, RequestOf(p, pinned), p.file, t)
    ensures AdvancedAs(w, l, p, raw, pinned, advanced.0)
  {
    advanced := AdvanceReason(w, l, RequestOf(p, pinned), p.file, identity, raw, t);
    AdvanceInFields(w, l, p, raw, pinned, advanced.0);
  }

  lemma {:induction false} AdvanceInFields(w: World, l: Ledger, p: Promotion, raw: Bytes, pinned: string,
                                           out: Result<Ledger>)
    requires AdvanceIs(w, l, RequestOf(p, pinned), raw, out)
    ensures AdvancedAs(w, l, p, raw, pinned, out)
  {
    if Validate(w.utc, l).Some? && PinFails(w, RequestOf(p, pinned), raw).None? {
      ValidateFixes(w.utc, l);
      DigestIs(w, p.path, raw);
      SettleAgainst(w, l, p, raw, ReadPayload(w, p.path, raw).value);
    }
  }

  lemma {:induction false} PinnedQuiet(w: World, p: Promotion, identity: int, raw: Bytes)
    requires Quiet(p.file, identity, raw)
    ensures Pinned(w, p, 0).0 ==
            if p.expected.Some? && p.expected.value != "" then p.expected
            else if |raw| > MAX_REPORT_BYTES then None else Some(w.sha(raw))
  {
    assert p.file(0) == Regular(identity, raw);
  }

  lemma {:induction false} ReportIsRead(w: World, path: string, raw: Bytes)
    ensures (exists r :: ReportOf(w, path, raw, r)) <==> ReadPayload(w, path, raw).Some?
    ensures forall r :: ReportOf(w, path, raw, r) ==> ReadPayload(w, path, raw) == Some(r)
  {
    forall r ensures ReportOf(w, path, raw, r) <==> ReadPayload(w, path, raw) == Some(r) {
      ReadExactly(w, path, raw, r);
    }
    if ReadPayload(w, path, raw).Some? { assert ReportOf(w, path, raw, ReadPayload(w, path, raw).value); }
  }

  lemma {:induction false} QuietPast(w: World, l: Ledger, p: Promotion, identity: int, raw: Bytes, pinned: string)
    requires Quiet(p.file, identity, raw) && Pinned(w, p, 0).0 == Some(pinned)
    requires p.git.clean && p.git.branch != "" && (p.wantBranch.Some? ==> p.wantBranch.value == p.git.branch)
    ensures AnswersPast(w, l, p, raw, pinned, Promote(w, l, p).0)
  {
    var t := Pinned(w, p, 0).1;
    PromoteStages(w, l, p, pinned, t);
    var out := PastCheckout(w, l, p, identity, raw, pinned, t);
  }

  predicate CheckedOut(p: Promotion) {
    p.git.clean && p.git.branch != "" && (p.wantBranch.Some? ==> p.wantBranch.value == p.git.branch)
  }

  lemma {:induction false} QuietRefused(w: World, l: Ledger, p: Promotion, identity: int, raw: Bytes)
    requires Quiet(p.file, identity, raw) && Before(w, l, p, raw).Some?
    ensures Promote(w, l, p).0 == Err(Before(w, l, p, raw).value)
  {
    PinnedQuiet(w, p, identity, raw);
    if CheckedOut(p) && Pinned(w, p, 0).0.Some? { QuietRefusedPast(w, l, p, identity, raw, Pinned(w, p, 0).0.value); }
  }

  lemma {:induction false} BeforeIs(w: World, l: Ledger, p: Promotion, raw: Bytes)
    requires CheckedOut(p) && ((p.expected.Some? && p.expected.value != "") || |raw| <= MAX_REPORT_BYTES)
    ensures Before(w, l, p, raw) ==
            if Validate(w.utc, l).None? then Some(BaselineInvalid)
            else if |raw| > MAX_REPORT_BYTES then Some(EvidenceInvalid)
            else if p.expected.Some? && p.expected.value != "" && p.expected.value != w.sha(raw) then Some(HashMismatch)
            else if ReadPayload(w, p.path, raw).None? then Some(EvidenceInvalid)
            else None
  {
    AcceptedExactly(w.utc, l);
    ReportIsRead(w, p.path, raw);
  }

  lemma {:induction false} QuietRefusedPast(w: World, l: Ledger, p: Promotion, identity: int, raw: Bytes,
                                            pinned: string)
    requires Quiet(p.file, identity, raw) && Before(w, l, p, raw).Some?
    requires CheckedOut(p) && Pinned(w, p, 0).0 == Some(pinned)
    ensures Promote(w, l, p).0 == Err(Before(w, l, p, raw).value)
  {
    PinnedQuiet(w, p, identity, raw);
    BeforeIs(w, l, p, raw);
    QuietPast(w, l, p, identity, raw, pinned);
  }

  // The answer to a call about a report file that keeps still: the first thing
  // wrong, in this order, or the promoted baseline when nothing is.
  lemma {:induction false} QuietVerdict(w: World, l: Ledger, p: Promotion, identity: int, raw: Bytes)
    requires Quiet(p.file, identity, raw)
    ensures Before(w, l, p, raw).Some? ==> Promote(w, l, p).0 == Err(Before(w, l, p, raw).value)
    ensures Before(w, l, p, raw).None? ==> forall r :: ReportOf(w, p.path, raw, r) ==>
              var out, against, after := Promote(w, l, p).0, Against(Stripped(l), p, r), After(Stripped(l), p);
              if against.Some? then out == Err(against.value)
              else if after.Some? then out == Err(after.value)
              else out.Ok?
  {
    if Before(w, l, p, raw).Some? {
      QuietRefused(w, l, p, identity, raw);
    } else {
      AcceptedExactly(w.utc, l);
      ReportIsRead(w, p.path, raw);
      PinnedQuiet(w, p, identity, raw);
      QuietPast(w, l, p, identity, raw, w.sha(raw));
    }
  }
}
