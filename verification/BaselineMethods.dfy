// validate_program_baseline as the source runs it, loop by loop.
module BaselineMethods {
  import opened Options
  import opened PyText
  import opened Baseline
  import opened BaselineFields

  // ---- what each turn of a loop establishes ----

  lemma {:induction false} ReportsGrow(utc: Clock, rs: seq<Report>, item: Report)
    ensures ReportsOk(utc, rs + [item]) <==>
            ReportsOk(utc, rs) && ReportOk(utc, item) && item.runId !in ById(rs)
    ensures ById(rs + [item]) == ById(rs)[item.runId := item]
  {
    var all := rs + [item];
    assert all[|rs|] == item && forall i :: 0 <= i < |rs| ==> all[i] == rs[i];
    ByIdPush(rs, item);
    DistinctPush(rs, item);
  }

  lemma {:induction false} ReportsTurn(utc: Clock, all: seq<Report>, k: nat)
    requires k < |all| && ReportsOk(utc, all[..k])
    ensures ReportOk(utc, all[k]) && all[k].runId !in ById(all[..k]) ==> ReportsOk(utc, all[..k + 1])
    ensures !(ReportOk(utc, all[k]) && all[k].runId !in ById(all[..k])) ==> !ReportsOk(utc, all)
    ensures ById(all[..k + 1]) == ById(all[..k])[all[k].runId := all[k]] && all[..k + 1] == all[..k] + [all[k]]
  {
    ReportsGrow(utc, all[..k], all[k]);
    assert all[..k] + [all[k]] == all[..k + 1];
    if ReportsOk(utc, all) { ReportsPrefix(utc, all, k + 1); }
  }

  lemma {:induction false} ReportsPrefix(utc: Clock, rs: seq<Report>, k: nat)
    requires k <= |rs| && ReportsOk(utc, rs)
    ensures ReportsOk(utc, rs[..k])
  {
  }

  lemma {:induction false} ScopesGrow(ss: seq<Scope>, item: Scope, base: string, byId: map<string, Report>)
    ensures ScopesOk(ss + [item], base, byId) <==>
            ScopesOk(ss, base, byId) && ScopeOk(item, base, byId) && item.scope !in Names(ss)
    ensures Names(ss + [item]) == Names(ss) + {item.scope}
  {
    var all := ss + [item];
    assert all[|ss|] == item && forall i :: 0 <= i < |ss| ==> all[i] == ss[i];
    if ScopesOk(all, base, byId) {
      forall i | 0 <= i < |ss| ensures ss[i].scope != item.scope && ScopeOk(ss[i], base, byId) {
        assert all[i].scope != all[|ss|].scope;
      }
      assert ScopeOk(all[|ss|], base, byId);
    }
    assert forall i :: 0 <= i < |all| ==> all[i].scope in Names(all);
  }

  lemma {:induction false} ScopesPrefix(ss: seq<Scope>, k: nat, base: string, byId: map<string, Report>)
    requires k <= |ss| && ScopesOk(ss, base, byId)
    ensures ScopesOk(ss[..k], base, byId)
  {
    assert forall i :: 0 <= i < k ==> ss[..k][i] == ss[i];
  }

  lemma {:induction false} ScopesTurn(all: seq<Scope>, k: nat, base: string, byId: map<string, Report>)
    requires k < |all| && ScopesOk(all[..k], base, byId)
    ensures ScopeOk(all[k], base, byId) && all[k].scope !in Names(all[..k]) ==> ScopesOk(all[..k + 1], base, byId)
    ensures !(ScopeOk(all[k], base, byId) && all[k].scope !in Names(all[..k])) ==> !ScopesOk(all, base, byId)
    ensures Names(all[..k + 1]) == Names(all[..k]) + {all[k].scope} && all[..k + 1] == all[..k] + [all[k]]
  {
    ScopesGrow(all[..k], all[k], base, byId);
    assert all[..k] + [all[k]] == all[..k + 1];
    if ScopesOk(all, base, byId) { ScopesPrefix(all, k + 1, base, byId); }
  }

  lemma {:induction false} AssetsGrow(xs: seq<Asset>, item: Asset)
    ensures AssetsOk(xs + [item]) <==> AssetsOk(xs) && AssetOk(item) && item.id !in Ids(xs)
    ensures Ids(xs + [item]) == Ids(xs) + {item.id}
  {
    var all := xs + [item];
    assert all[|xs|] == item && forall i :: 0 <= i < |xs| ==> all[i] == xs[i];
    if AssetsOk(all) {
      forall i | 0 <= i < |xs| ensures xs[i].id != item.id && AssetOk(xs[i]) {
        assert all[i].id != all[|xs|].id;
      }
      assert AssetOk(all[|xs|]);
    }
    assert forall i :: 0 <= i < |all| ==> all[i].id in Ids(all);
  }

  lemma {:induction false} AssetsPrefix(xs: seq<Asset>, k: nat)
    requires k <= |xs| && AssetsOk(xs)
    ensures AssetsOk(xs[..k])
  {
    assert forall i :: 0 <= i < k ==> xs[..k][i] == xs[i];
  }

  lemma {:induction false} AssetsTurn(all: seq<Asset>, k: nat)
    requires k < |all| && AssetsOk(all[..k])
    ensures AssetOk(all[k]) && all[k].id !in Ids(all[..k]) ==> AssetsOk(all[..k + 1])
    ensures !(AssetOk(all[k]) && all[k].id !in Ids(all[..k])) ==> !AssetsOk(all)
    ensures Ids(all[..k + 1]) == Ids(all[..k]) + {all[k].id} && all[..k + 1] == all[..k] + [all[k]]
  {
    AssetsGrow(all[..k], all[k]);
    assert all[..k] + [all[k]] == all[..k + 1];
    if AssetsOk(all) { AssetsPrefix(all, k + 1); }
  }

  method ValidateReport(utc: Clock, raw: Report, byId: map<string, Report>) returns (r: Option<Report>)
    ensures r == if StripReport(raw).runId !in byId && ReportOk(utc, StripReport(raw))
      then Some(StripReport(raw)) else None
  {
    var item := StripReport(raw);
    if item.runId == "" || item.runId in byId || BuilderOf(item.scope) != Some(item.builder) || item.kind == "" {
      return None;
    }
    if !KnownState(item.state) || !KindMatches(item.kind, item.state) || !KnownStatus(item.status)
       || !IsHex(item.commit, 40) {
      return None;
    }
    if item.generated == "" || !utc(item.generated) || item.path == "" || !IsHex(item.sha, 64)
       || item.availability == "" {
      return None;
    }
    return Some(item);
  }

  method ValidateReports(utc: Clock, raws: seq<Report>) returns (r: Option<seq<Report>>, byId: map<string, Report>)
    ensures r == if ReportsOk(utc, StripReports(raws)) then Some(StripReports(raws)) else None
    ensures r.Some? ==> byId == ById(r.value)
  {
    var reports: seq<Report> := [];
    byId := map[];
    ghost var all := StripReports(raws);
    for index := 0 to |raws|
      invariant reports == all[..index]
      invariant ReportsOk(utc, reports)
      invariant byId == ById(reports)
    {
      var item := ValidateReport(utc, raws[index], byId);
      ReportsTurn(utc, all, index);
      if item.None? {
        return None, byId;
      }
      byId := byId[item.value.runId := item.value];
      reports := reports + [item.value];
    }
    assert all[..|raws|] == all;
    return Some(reports), byId;
  }

  method ValidateScope(raw: Scope, base: string, byId: map<string, Report>, names: set<string>)
    returns (r: Option<Scope>)
    ensures r == if StripScope(raw).scope !in names && ScopeOk(StripScope(raw), base, byId)
      then Some(StripScope(raw)) else None
  {
    var item := StripScope(raw);
    if item.scope in names || BuilderOf(item.scope) != Some(item.builder) || item.owner == ""
       || !KnownState(item.state) || !KnownStatus(item.status) || item.evidence == Some("")
       || "" in item.exclusions {
      return None;
    }
    if item.status == PASS {
      var key := EvidenceKey(item.evidence);
      if key !in byId {
        return None;
      }
      var report := byId[key];
      if report.status != PASS || report.scope != item.scope || report.builder != item.builder
         || report.state != item.state || report.commit != base || report.availability != VERIFIED {
        return None;
      }
    }
    return Some(item);
  }

  method ValidateScopes(raws: seq<Scope>, base: string, byId: map<string, Report>) returns (r: Option<seq<Scope>>)
    ensures r == if ScopesOk(StripScopes(raws), base, byId) then Some(StripScopes(raws)) else None
  {
    var scopes: seq<Scope> := [];
    var names: set<string> := {};
    ghost var all := StripScopes(raws);
    for index := 0 to |raws|
      invariant scopes == all[..index]
      invariant ScopesOk(scopes, base, byId)
      invariant names == Names(scopes)
    {
      var item := ValidateScope(raws[index], base, byId, names);
      ScopesTurn(all, index, base, byId);
      if item.None? {
        return None;
      }
      names := names + {item.value.scope};
      scopes := scopes + [item.value];
    }
    assert all[..|raws|] == all;
    return Some(scopes);
  }

  method ValidateAsset(raw: Asset, ids: set<string>) returns (r: Option<Asset>)
    ensures r == if StripAsset(raw).id !in ids && AssetOk(StripAsset(raw)) then Some(StripAsset(raw)) else None
  {
    var item := StripAsset(raw);
    if item.id == "" || item.id in ids || BuilderOf(item.scope).None? || item.path == "" || !IsHex(item.sha, 64) {
      return None;
    }
    return Some(item);
  }

  method ValidateAssets(raws: seq<Asset>) returns (r: Option<seq<Asset>>)
    ensures r == if AssetsOk(StripAssets(raws)) then Some(StripAssets(raws)) else None
  {
    var assets: seq<Asset> := [];
    var ids: set<string> := {};
    ghost var all := StripAssets(raws);
    for index := 0 to |raws|
      invariant assets == all[..index]
      invariant AssetsOk(assets)
      invariant ids == Ids(assets)
    {
      var item := ValidateAsset(raws[index], ids);
      AssetsTurn(all, index);
      if item.None? {
        return None;
      }
      ids := ids + {item.value.id};
      assets := assets + [item.value];
    }
    assert all[..|raws|] == all;
    return Some(assets);
  }

  method ValidateProgramBaseline(utc: Clock, raw: Ledger) returns (r: Option<Ledger>)
    ensures r == Validate(utc, raw)
    ensures r == if Fields(utc, Stripped(raw)) then Some(Stripped(raw)) else None
    ensures r.Some? ==> forall s :: s in r.value.scopes && s.status == "PASS" ==>
              exists e :: e in r.value.reports
                && e.runId == (if s.evidence.Some? then s.evidence.value else "None")
                && e.status == "PASS" && e.scope == s.scope && e.builder == s.builder && e.state == s.state
                && e.commit == r.value.repository.baseCommit && e.availability == "verified_local"
  {
    AcceptedExactly(utc, raw);
    var base, branch := Strip(raw.repository.baseCommit), Strip(raw.repository.branch);
    if !IsHex(base, 40) || branch == "" {
      return None;
    }
    var assets := ValidateAssets(raw.assets);
    if assets.None? {
      return None;
    }
    var reports, byId := ValidateReports(utc, raw.reports);
    if reports.None? {
      return None;
    }
    var scopes := ValidateScopes(raw.scopes, base, byId);
    if scopes.None? {
      return None;
    }
    var id, generated := Strip(raw.id), Strip(raw.generated);
    if id == "" || generated == "" || !utc(generated) {
      return None;
    }
    return Some(Ledger(id, generated, Repository(base, branch, raw.repository.clean), assets.value, reports.value,
                       scopes.value));
  }
}
