// The program baseline: repository identity, indexed reports, assets and
// scopes, and the validator every baseline passes through.
module Baseline {
  import opened Options
  import opened PyText

  datatype Repository = Repository(baseCommit: string, branch: string, clean: bool)

  datatype Asset = Asset(id: string, scope: string, path: string, sha: string)

  datatype Report = Report(runId: string, scope: string, builder: string, kind: string, state: string,
                           status: string, commit: string, generated: string, path: string, sha: string,
                           availability: string)

  datatype Scope = Scope(scope: string, builder: string, owner: string, state: string, status: string,
                         evidence: Option<string>, exclusions: seq<string>)

  datatype Ledger = Ledger(id: string, generated: string, repository: Repository, assets: seq<Asset>,
                           reports: seq<Report>, scopes: seq<Scope>)

  // is_utc_timestamp; the timestamp syntax is a parameter of the model.
  type Clock = string -> bool

  const PASS := "PASS"
  const NOT_RUN := "NOT_RUN_ON_CURRENT_COMMIT"
  const VERIFIED := "verified_local"

  // SCOPE_BUILDER_PATHS; None for a scope outside PROGRAM_SCOPES.
  function BuilderOf(scope: string): Option<string> {
    if scope == "lcc.master_bindings" then Some("lcc.master_binding_registry")
    else if scope == "lcc.blank_native" then Some("lcc.blank_native")
    else if scope == "lcc.fixed_autonomous" then Some("lcc.fixed_autonomous")
    else if scope == "lcc.parametric" then Some("lcc.parametric")
    else if scope == "mmc.blank_native_full_bridge" then Some("mmc.blank_native_full_bridge")
    else if scope == "mmc.detailed_pwm_full_bridge" then Some("mmc.detailed_pwm_full_bridge")
    else if scope == "mmc.avm_full_bridge" then Some("mmc.avm_full_bridge")
    else if scope == "mmc.avm_half_bridge" then Some("mmc.avm_half_bridge")
    else if scope == "mmc.parametric" then Some("mmc.parametric_orchestrator")
    else None
  }

  predicate KnownState(state: string) {
    state in ["inspected", "planned", "built", "compiled", "simulated", "accepted", "INCOMPLETE_ANALYSIS", "failed"]
  }

  predicate KnownStatus(status: string) {
    status in [PASS, "FAIL", "INCOMPLETE_ANALYSIS", NOT_RUN]
  }

  predicate KindMatches(kind: string, state: string) {
    (state == "compiled" ==> kind == "licensed_compile")
    && (state == "simulated" ==> kind == "licensed_simulation")
    && (state == "accepted" ==> kind == "licensed_acceptance")
  }

  predicate IsHex(s: string, n: nat) {
    |s| == n && forall i :: 0 <= i < n ==> '0' <= s[i] <= '9' || 'a' <= s[i] <= 'f'
  }

  // ---- the text normalisation the validator applies ----

  function StripAll(texts: seq<string>): (r: seq<string>)
    ensures |r| == |texts|
  {
    seq(|texts|, i requires 0 <= i < |texts| => Strip(texts[i]))
  }

  function StripReport(r: Report): Report {
    Report(Strip(r.runId), Strip(r.scope), Strip(r.builder), Strip(r.kind), Strip(r.state), Strip(r.status),
           Strip(r.commit), Strip(r.generated), Strip(r.path), Strip(r.sha), Strip(r.availability))
  }

  function StripScope(s: Scope): Scope {
    Scope(Strip(s.scope), Strip(s.builder), Strip(s.owner), Strip(s.state), Strip(s.status),
          if s.evidence.Some? then Some(Strip(s.evidence.value)) else None, StripAll(s.exclusions))
  }

  function StripAsset(a: Asset): Asset {
    Asset(Strip(a.id), Strip(a.scope), Strip(a.path), Strip(a.sha))
  }

  function StripReports(rs: seq<Report>): (r: seq<Report>)
    ensures |r| == |rs|
  {
    seq(|rs|, i requires 0 <= i < |rs| => StripReport(rs[i]))
  }

  function StripScopes(ss: seq<Scope>): (r: seq<Scope>)
    ensures |r| == |ss|
  {
    seq(|ss|, i requires 0 <= i < |ss| => StripScope(ss[i]))
  }

  function StripAssets(xs: seq<Asset>): (r: seq<Asset>)
    ensures |r| == |xs|
  {
    seq(|xs|, i requires 0 <= i < |xs| => StripAsset(xs[i]))
  }

  function Stripped(l: Ledger): Ledger {
    Ledger(Strip(l.id), Strip(l.generated),
           Repository(Strip(l.repository.baseCommit), Strip(l.repository.branch), l.repository.clean),
           StripAssets(l.assets), StripReports(l.reports), StripScopes(l.scopes))
  }

  lemma {:induction false} StripReportTwice(r: Report)
    ensures StripReport(StripReport(r)) == StripReport(r)
  {
    StripTwice(r.runId);
    StripTwice(r.scope);
    StripTwice(r.builder);
    StripTwice(r.kind);
    StripTwice(r.state);
    StripTwice(r.status);
    StripTwice(r.commit);
    StripTwice(r.generated);
    StripTwice(r.path);
    StripTwice(r.sha);
    StripTwice(r.availability);
  }

  lemma {:induction false} StripScopeTwice(s: Scope)
    ensures StripScope(StripScope(s)) == StripScope(s)
  {
    StripTwice(s.scope);
    StripTwice(s.builder);
    StripTwice(s.owner);
    StripTwice(s.state);
    StripTwice(s.status);
    if s.evidence.Some? { StripTwice(s.evidence.value); }
    forall i | 0 <= i < |s.exclusions| ensures Strip(Strip(s.exclusions[i])) == Strip(s.exclusions[i]) {
      StripTwice(s.exclusions[i]);
    }
    assert StripAll(StripAll(s.exclusions)) == StripAll(s.exclusions);
  }

  lemma {:induction false} StripAssetTwice(a: Asset)
    ensures StripAsset(StripAsset(a)) == StripAsset(a)
  {
    StripTwice(a.id);
    StripTwice(a.scope);
    StripTwice(a.path);
    StripTwice(a.sha);
  }

  lemma {:induction false} StrippedTwice(l: Ledger)
    ensures Stripped(Stripped(l)) == Stripped(l)
  {
    StripTwice(l.id);
    StripTwice(l.generated);
    StripTwice(l.repository.baseCommit);
    StripTwice(l.repository.branch);
    forall i | 0 <= i < |l.assets| ensures StripAsset(StripAsset(l.assets[i])) == StripAsset(l.assets[i]) {
      StripAssetTwice(l.assets[i]);
    }
    forall i | 0 <= i < |l.reports| ensures StripReport(StripReport(l.reports[i])) == StripReport(l.reports[i]) {
      StripReportTwice(l.reports[i]);
    }
    forall i | 0 <= i < |l.scopes| ensures StripScope(StripScope(l.scopes[i])) == StripScope(l.scopes[i]) {
      StripScopeTwice(l.scopes[i]);
    }
    assert StripAssets(StripAssets(l.assets)) == StripAssets(l.assets);
    assert StripReports(StripReports(l.reports)) == StripReports(l.reports);
    assert StripScopes(StripScopes(l.scopes)) == StripScopes(l.scopes);
  }

  // ---- what a valid baseline is ----

  predicate DistinctReports(rs: seq<Report>) {
    forall i, j :: 0 <= i < j < |rs| ==> rs[i].runId != rs[j].runId
  }

  predicate DistinctScopes(ss: seq<Scope>) {
    forall i, j :: 0 <= i < j < |ss| ==> ss[i].scope != ss[j].scope
  }

  predicate DistinctAssets(xs: seq<Asset>) {
    forall i, j :: 0 <= i < j < |xs| ==> xs[i].id != xs[j].id
  }

  // The reports by run identifier; a later one replaces an earlier one.
  function ById(rs: seq<Report>): map<string, Report> {
    if rs == [] then map[] else
      var last := rs[|rs| - 1];
      ById(rs[..|rs| - 1])[last.runId := last]
  }

  lemma {:induction false} ByIdHolds(rs: seq<Report>, i: nat)
    requires i < |rs|
    ensures rs[i].runId in ById(rs)
    ensures DistinctReports(rs) ==> ById(rs)[rs[i].runId] == rs[i]
  {
    if i < |rs| - 1 {
      ByIdHolds(rs[..|rs| - 1], i);
      assert rs[..|rs| - 1][i] == rs[i];
    }
  }

  lemma {:induction false} ByIdSource(rs: seq<Report>, id: string) returns (i: nat)
    requires id in ById(rs)
    ensures i < |rs| && rs[i].runId == id && rs[i] == ById(rs)[id]
  {
    if rs[|rs| - 1].runId == id {
      i := |rs| - 1;
    } else {
      i := ByIdSource(rs[..|rs| - 1], id);
    }
  }

  lemma {:induction false} ByIdPush(rs: seq<Report>, item: Report)
    ensures ById(rs + [item]) == ById(rs)[item.runId := item]
  {
    assert (rs + [item])[..|rs|] == rs;
  }

  lemma {:induction false} AbsentById(rs: seq<Report>, id: string)
    requires forall i :: 0 <= i < |rs| ==> rs[i].runId != id
    ensures id !in ById(rs)
  {
    if rs != [] { AbsentById(rs[..|rs| - 1], id); }
  }

  lemma {:induction false} DistinctPush(rs: seq<Report>, item: Report)
    ensures DistinctReports(rs + [item]) <==> DistinctReports(rs) && item.runId !in ById(rs)
  {
    var all := rs + [item];
    if DistinctReports(all) {
      assert forall i :: 0 <= i < |rs| ==> rs[i] == all[i] && all[i].runId != all[|rs|].runId;
      AbsentById(rs, item.runId);
    } else if DistinctReports(rs) {
      var i, j :| 0 <= i < j < |all| && all[i].runId == all[j].runId;
      assert j == |rs|;
      ByIdHolds(rs, i);
    }
  }

  function Names(ss: seq<Scope>): set<string> { set s | s in ss :: s.scope }

  function Ids(xs: seq<Asset>): set<string> { set x | x in xs :: x.id }

  predicate ReportOk(utc: Clock, r: Report) {
    r.runId != "" && BuilderOf(r.scope) == Some(r.builder) && r.kind != ""
    && KnownState(r.state) && KindMatches(r.kind, r.state) && KnownStatus(r.status)
    && IsHex(r.commit, 40) && r.generated != "" && utc(r.generated) && r.path != "" && IsHex(r.sha, 64)
    && r.availability != ""
  }

  // A missing identifier is turned into text, and looked up as "None".
  function EvidenceKey(evidence: Option<string>): string {
    if evidence.Some? then evidence.value else "None"
  }

  // PASS rests on a PASS report of the scope's own builder and state, made at
  // the base commit and verified locally.
  predicate Earned(s: Scope, base: string, byId: map<string, Report>) {
    EvidenceKey(s.evidence) in byId
    && (var r := byId[EvidenceKey(s.evidence)];
        r.status == PASS && r.scope == s.scope && r.builder == s.builder && r.state == s.state
        && r.commit == base && r.availability == VERIFIED)
  }

  predicate ScopeOk(s: Scope, base: string, byId: map<string, Report>) {
    BuilderOf(s.scope) == Some(s.builder) && s.owner != "" && KnownState(s.state) && KnownStatus(s.status)
    && s.evidence != Some("") && (forall i :: 0 <= i < |s.exclusions| ==> s.exclusions[i] != "")
    && (s.status == PASS ==> Earned(s, base, byId))
  }

  predicate AssetOk(a: Asset) {
    a.id != "" && BuilderOf(a.scope).Some? && a.path != "" && IsHex(a.sha, 64)
  }

  predicate ReportsOk(utc: Clock, rs: seq<Report>) {
    DistinctReports(rs) && forall i :: 0 <= i < |rs| ==> ReportOk(utc, rs[i])
  }

  predicate ScopesOk(ss: seq<Scope>, base: string, byId: map<string, Report>) {
    DistinctScopes(ss) && forall i :: 0 <= i < |ss| ==> ScopeOk(ss[i], base, byId)
  }

  predicate AssetsOk(xs: seq<Asset>) {
    DistinctAssets(xs) && forall i :: 0 <= i < |xs| ==> AssetOk(xs[i])
  }

  predicate WellFormed(utc: Clock, l: Ledger) {
    l.id != "" && l.generated != "" && utc(l.generated)
    && IsHex(l.repository.baseCommit, 40) && l.repository.branch != ""
    && AssetsOk(l.assets) && ReportsOk(utc, l.reports)
    && ScopesOk(l.scopes, l.repository.baseCommit, ById(l.reports))
  }

  // A baseline as the validator returns it.
  predicate Valid(utc: Clock, l: Ledger) { Stripped(l) == l && WellFormed(utc, l) }

  // validate_program_baseline as a function; None is PROGRAM_BASELINE_INVALID.
  function Validate(utc: Clock, l: Ledger): Option<Ledger> {
    if WellFormed(utc, Stripped(l)) then Some(Stripped(l)) else None
  }

  // Validation accepts exactly the valid baselines unchanged, and what it
  // returns it would return again.
  lemma {:induction false} ValidateFixes(utc: Clock, l: Ledger)
    ensures Valid(utc, l) <==> Validate(utc, l) == Some(l)
    ensures Validate(utc, l).Some? ==> Valid(utc, Validate(utc, l).value)
  {
    StrippedTwice(l);
  }
}
