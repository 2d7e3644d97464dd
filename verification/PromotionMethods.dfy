// The promotion code itself, editing a candidate in place between looks at
// the report file.
module PromotionMethods {
  import opened Options
  import opened Baseline
  import opened BaselineMethods
  import opened Evidence
  import opened Promotion

  method IndexPinnedReport(w: World, path: string, report: ReportFile, expected: string) returns (r: Result<Report>)
    modifies report
    ensures (r, report.now) == IndexPinned(w, path, report.history, old(report.now), expected)
  {
    var indexed := report.IndexExplicitReport(w, path);
    if indexed.None? {
      var actual := report.ReportSha256(w);
      return Err(if actual == Some(expected) then EvidenceInvalid else HashMismatch);
    }
    if indexed.value.sha != expected {
      return Err(HashMismatch);
    }
    return Ok(indexed.value);
  }

  lemma {:induction false} WithoutSplit(rs: seq<Report>, k: nat, id: string)
    requires k < |rs|
    ensures Without(rs[..k + 1], id) == Without(rs[..k], id) + if rs[k].runId == id then [] else [rs[k]]
  {
    assert rs[..k + 1][..k] == rs[..k];
  }

  method OtherReports(rs: seq<Report>, id: string) returns (kept: seq<Report>)
    ensures kept == Without(rs, id)
  {
    kept := [];
    for k := 0 to |rs|
      invariant kept == Without(rs[..k], id)
    {
      WithoutSplit(rs, k, id);
      if rs[k].runId != id {
        kept := kept + [rs[k]];
      }
    }
    assert rs[..|rs|] == rs;
  }

  lemma {:induction false} FindScopeFirst(ss: seq<Scope>, name: string, k: nat)
    requires k <= |ss| && forall j :: 0 <= j < k ==> ss[j].scope != name
    ensures k < |ss| && ss[k].scope == name ==> FindScope(ss, name) == Some(ss[k])
    ensures k == |ss| ==> FindScope(ss, name).None?
  {
    if k > 0 { FindScopeFirst(ss[1..], name, k - 1); }
  }

  // The first scope of that name, if there is one.
  method NextScope(ss: seq<Scope>, name: string) returns (r: Option<Scope>)
    ensures r == FindScope(ss, name)
  {
    for k := 0 to |ss|
      invariant forall j :: 0 <= j < k ==> ss[j].scope != name
    {
      FindScopeFirst(ss, name, k);
      if ss[k].scope == name {
        return Some(ss[k]);
      }
    }
    FindScopeFirst(ss, name, |ss|);
    return None;
  }

  method ReportsById(rs: seq<Report>) returns (m: map<string, Report>)
    ensures m == ById(rs)
  {
    m := map[];
    for k := 0 to |rs|
      invariant m == ById(rs[..k])
    {
      assert rs[..k + 1] == rs[..k] + [rs[k]];
      ByIdPush(rs[..k], rs[k]);
      m := m[rs[k].runId := rs[k]];
    }
    assert rs[..|rs|] == rs;
  }

  method OtherScopes(ss: seq<Scope>, name: string) returns (m: map<string, Scope>)
    ensures m == Others(ss, name)
  {
    m := map[];
    for k := 0 to |ss|
      invariant m == Others(ss[..k], name)
    {
      assert ss[..k + 1][..k] == ss[..k];
      if ss[k].scope != name {
        m := m[ss[k].scope := ss[k]];
      }
    }
    assert ss[..|ss|] == ss;
  }

  // The record of the report's own scope is brought up to date.
  method CreditScope(ss: seq<Scope>, c: Report) returns (scopes: seq<Scope>)
    ensures scopes == CreditAll(ss, c)
  {
    scopes := ss;
    for k := 0 to |scopes|
      invariant |scopes| == |ss|
      invariant forall j :: 0 <= j < k ==> scopes[j] == Credit(ss[j], c)
      invariant forall j :: k <= j < |scopes| ==> scopes[j] == ss[j]
    {
      if scopes[k].scope == c.scope {
        scopes := scopes[k := scopes[k].(status := c.status, evidence := Some(c.runId), state := c.state)];
      }
    }
  }

  // apply_scope_report after its baseline is valid and its report indexed.
  method PlaceReport(utc: Clock, current: Ledger, c: Report, owner: string) returns (r: Result<Ledger>)
    ensures r == Place(utc, current, c, owner)
  {
    if BuilderOf(c.scope) != Some(c.builder) || c.commit != current.repository.baseCommit {
      return Err(ScopeConflict);
    }
    var matching := NextScope(current.scopes, c.scope);
    if matching.None? || matching.value.owner != owner {
      return Err(ScopeConflict);
    }
    var byId := ReportsById(current.reports);
    if c.runId in byId && byId[c.runId] != c {
      return Err(ScopeConflict);
    }
    var reports := OtherReports(current.reports, c.runId);
    var scopes := CreditScope(current.scopes, c);
    var updated := ValidateProgramBaseline(utc, current.(reports := reports + [c], scopes := scopes));
    return FromOption(updated);
  }

  method ApplyScopeReport(w: World, baseline: Ledger, path: string, report: ReportFile, owner: string)
    returns (r: Result<Ledger>)
    modifies report
    ensures (r, report.now) == Apply(w, baseline, path, report.history, old(report.now), owner)
  {
    var current := ValidateProgramBaseline(w.utc, baseline);
    if current.None? {
      return Err(BaselineInvalid);
    }
    var c := report.IndexExplicitReport(w, path);
    if c.None? {
      return Err(EvidenceInvalid);
    }
    r := PlaceReport(w.utc, current.value, c.value, owner);
  }

  // The pinned report and the checks on it.
  method PinReport(w: World, q: Request, report: ReportFile) returns (r: Result<Report>)
    modifies report
    ensures (r, report.now) == Pin(w, q, report.history, old(report.now))
  {
    var raw := report.ReportSha256(w);
    if raw.None? {
      return Err(EvidenceInvalid);
    }
    if q.expected.Some? && raw != q.expected {
      return Err(HashMismatch);
    }
    r := IndexPinnedReport(w, q.path, report, raw.value);
    if r.Err? {
      return;
    }
    if r.value.status != PASS {
      return Err(NotPass);
    }
    if r.value.commit != q.commit {
      return Err(CommitMismatch);
    }
    if r.value.scope != q.scope {
      return Err(ScopeMismatch);
    }
  }

  // Moves the base commit of the candidate and withdraws older evidence.
  method MoveCandidate(current: Ledger, q: Request, generated: string) returns (candidate: Ledger)
    ensures candidate == Moved(current, q, generated)
  {
    var byId := ReportsById(current.reports);
    var scopes := current.scopes;
    for k := 0 to |scopes|
      invariant |scopes| == |current.scopes|
      invariant forall j :: 0 <= j < k ==> scopes[j] == ResetScope(current.scopes[j], byId, q.commit)
      invariant forall j :: k <= j < |scopes| ==> scopes[j] == current.scopes[j]
    {
      var evidence := scopes[k].evidence;
      if evidence.Some? && evidence.value in byId && byId[evidence.value].commit != q.commit {
        scopes := scopes[k := scopes[k].(status := NOT_RUN, evidence := None)];
      }
    }
    assert scopes == ResetScopes(current.scopes, byId, q.commit);
    candidate := current.(repository := Repository(q.commit, q.branch, true), scopes := scopes, generated := generated);
  }

  // The final comparisons and the target's exclusions.
  method ConcludePromotion(w: World, q: Request, report: ReportFile, indexed: Report, before: Ledger, after: Ledger)
    returns (r: Result<Ledger>)
    modifies report
    ensures (r, report.now) == Conclude(w, q, report.history, old(report.now), indexed, before, after)
  {
    var target := NextScope(after.scopes, q.scope);
    if target.None? {
      return Err(TargetMissing);
    }
    var actual := ReportsById(after.reports);
    var expected := ReportsById(before.reports);
    expected := expected[indexed.runId := indexed];
    var actualOthers := OtherScopes(after.scopes, q.scope);
    var beforeOthers := OtherScopes(before.scopes, q.scope);
    var again := IndexPinnedReport(w, q.path, report, indexed.sha);
    if again.Err? {
      return Err(again.reason);
    }
    var evidence := target.value.evidence;
    TargetName(after.scopes, q.scope);
    if evidence.None? || evidence.value !in actual || target.value.status != PASS
       || actual[evidence.value].runId != indexed.runId || actual[evidence.value].sha != indexed.sha
       || actual != expected || actualOthers != beforeOthers || again.value != indexed {
      return Err(HashMismatch);
    }
    var scopes := SetExclusions(after.scopes, q.scope, q.exclusions);
    var out := ValidateProgramBaseline(w.utc, after.(scopes := scopes));
    return FromOption(out);
  }

  lemma {:induction false} TargetName(ss: seq<Scope>, name: string)
    ensures FindScope(ss, name).Some? ==> FindScope(ss, name).value.scope == name
  {
    if ss != [] && ss[0].scope != name { TargetName(ss[1..], name); }
  }

  method SetExclusions(ss: seq<Scope>, name: string, exclusions: seq<string>) returns (r: seq<Scope>)
    ensures r == Exclude(ss, name, exclusions)
  {
    r := ss;
    for k := 0 to |ss|
      invariant |r| == |ss|
      invariant forall j :: 0 <= j < k ==> r[j] == Exclude(ss, name, exclusions)[j]
      invariant forall j :: k <= j < |r| ==> r[j] == ss[j]
    {
      if r[k].scope == name {
        r := r[k := r[k].(exclusions := exclusions)];
      }
    }
  }

  method SettlePromotion(w: World, q: Request, report: ReportFile, indexed: Report, before: Ledger)
    returns (r: Result<Ledger>)
    modifies report
    ensures (r, report.now) == Settle(w, q, report.history, old(report.now), indexed, before)
  {
    var after := ApplyScopeReport(w, before, q.path, report, q.owner);
    if after.Err? {
      var actual := report.ReportSha256(w);
      return Err(if actual == Some(indexed.sha) then after.reason else HashMismatch);
    }
    r := ConcludePromotion(w, q, report, indexed, before, after.value);
  }

  method AdvanceAndApplyScopeReport(w: World, baseline: Ledger, q: Request, report: ReportFile)
    returns (r: Result<Ledger>)
    modifies report
    ensures (r, report.now) == Advance(w, baseline, q, report.history, old(report.now))
  {
    var current := ValidateProgramBaseline(w.utc, baseline);
    if current.None? {
      return Err(BaselineInvalid);
    }
    var indexed := PinReport(w, q, report);
    if indexed.Err? {
      return Err(indexed.reason);
    }
    var before := MoveCandidate(current.value, q, indexed.value.generated);
    r := SettlePromotion(w, q, report, indexed.value, before);
  }

  // asset_hash_updates written into the matching asset records.
  method RehashAssets(xs: seq<Asset>, updates: map<string, string>) returns (r: seq<Asset>)
    ensures r == Rehash(xs, updates)
  {
    r := xs;
    var remaining := updates.Keys;
    while remaining != {}
      invariant remaining <= updates.Keys && |r| == |xs|
      invariant forall j :: 0 <= j < |xs| ==>
        r[j] == if xs[j].id in updates && xs[j].id !in remaining then xs[j].(sha := updates[xs[j].id]) else xs[j]
      decreases |remaining|
    {
      var id :| id in remaining;
      for k := 0 to |r|
        invariant |r| == |xs|
        invariant forall j :: 0 <= j < |xs| ==>
          r[j] == if xs[j].id in updates && (xs[j].id !in remaining || (j < k && xs[j].id == id))
                  then xs[j].(sha := updates[xs[j].id]) else xs[j]
      {
        if r[k].id == id {
          r := r[k := r[k].(sha := updates[id])];
        }
      }
      remaining := remaining - {id};
    }
  }

  // The baseline file and the one operation that writes it.
  class ProgramBaseline {
    var stored: Ledger

    constructor (stored: Ledger)
      ensures this.stored == stored
    {
      this.stored := stored;
    }

    // A rejected promotion leaves the file as it was.
    method PromoteProgramReport(w: World, p: Promotion, report: ReportFile) returns (r: Result<Ledger>)
      requires report.history == p.file && report.now == 0
      modifies this, report
      ensures (r, report.now) == Promote(w, old(stored), p)
      ensures stored == if r.Ok? then r.value else old(stored)
    {
      if !p.git.clean {
        return Err(NotClean);
      }
      if p.git.branch == "" {
        return Err(Detached);
      }
      if p.wantBranch.Some? && p.git.branch != p.wantBranch.value {
        return Err(BranchMismatch);
      }
      var pinned := p.expected;
      if pinned.None? || pinned.value == "" {
        pinned := report.ReportSha256(w);
        if pinned.None? {
          return Err(EvidenceInvalid);
        }
      }
      var updated := AdvanceAndApplyScopeReport(w, stored, RequestOf(p, pinned.value), report);
      if updated.Err? {
        return updated;
      }
      r := FinishPromotion(w, updated.value, p, pinned.value, report);
      if r.Ok? {
        stored := r.value;
      }
    }
  }

  // The asset updates, the second git reading and the last look at the report.
  method FinishPromotion(w: World, updated: Ledger, p: Promotion, pinned: string, report: ReportFile)
    returns (r: Result<Ledger>)
    requires report.history == p.file
    modifies report
    ensures (r, report.now) == Finish(w, updated, p, pinned, old(report.now))
  {
    r := Ok(updated);
    if p.updates != map[] {
      if !(p.updates.Keys <= Ids(updated.assets)) {
        return Err(AssetMissing);
      }
      var assets := RehashAssets(updated.assets, p.updates);
      var valid := ValidateProgramBaseline(w.utc, updated.(assets := assets));
      if valid.None? {
        return Err(AssetInvalid);
      }
      r := Ok(valid.value);
    }
    if !p.confirmed.clean || p.confirmed.commit != p.git.commit || p.confirmed.branch != p.git.branch {
      return Err(CheckoutChanged);
    }
    var again := IndexPinnedReport(w, p.path, report, pinned);
    if again.Err? {
      return Err(again.reason);
    }
  }
}
