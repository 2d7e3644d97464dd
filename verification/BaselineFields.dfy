// What the validator accepts, field by field and in the words of the ledger's
// own format.
module BaselineFields {
  import opened Options
  import opened Baseline

  predicate Digits(s: string, n: nat) { |s| == n && forall c :: c in s ==> c in "0123456789abcdef" }

  // The builder that owns a program scope.
  predicate Owns(builder: string, scope: string) {
    (scope == "lcc.master_bindings" && builder == "lcc.master_binding_registry")
    || (scope == "mmc.parametric" && builder == "mmc.parametric_orchestrator")
    || (builder == scope
        && scope in ["lcc.blank_native", "lcc.fixed_autonomous", "lcc.parametric", "mmc.blank_native_full_bridge",
                     "mmc.detailed_pwm_full_bridge", "mmc.avm_full_bridge", "mmc.avm_half_bridge"])
  }

  predicate Programmed(scope: string) {
    scope in ["lcc.master_bindings", "lcc.blank_native", "lcc.fixed_autonomous", "lcc.parametric",
              "mmc.blank_native_full_bridge", "mmc.detailed_pwm_full_bridge", "mmc.avm_full_bridge",
              "mmc.avm_half_bridge", "mmc.parametric"]
  }

  predicate State(state: string) {
    state in ["inspected", "planned", "built", "compiled", "simulated", "accepted", "INCOMPLETE_ANALYSIS", "failed"]
  }

  predicate Status(status: string) {
    status in ["PASS", "FAIL", "INCOMPLETE_ANALYSIS", "NOT_RUN_ON_CURRENT_COMMIT"]
  }

  predicate ReportFields(utc: Clock, r: Report) {
    r.runId != "" && Owns(r.builder, r.scope) && r.kind != "" && State(r.state) && Status(r.status)
    && (r.state == "compiled" ==> r.kind == "licensed_compile")
    && (r.state == "simulated" ==> r.kind == "licensed_simulation")
    && (r.state == "accepted" ==> r.kind == "licensed_acceptance")
    && Digits(r.commit, 40) && Digits(r.sha, 64) && r.generated != "" && utc(r.generated)
    && r.path != "" && r.availability != ""
  }

  predicate ScopeFields(s: Scope) {
    Owns(s.builder, s.scope) && s.owner != "" && State(s.state) && Status(s.status)
    && s.evidence != Some("") && "" !in s.exclusions
  }

  predicate AssetFields(a: Asset) { a.id != "" && Programmed(a.scope) && a.path != "" && Digits(a.sha, 64) }

  // A PASS names, as its evidence, the report of these reports that passed at
  // the base commit for the scope's own name, builder and state, and that was
  // verified locally.
  predicate Backed(s: Scope, base: string, reports: seq<Report>) {
    exists r :: r in reports
      && r.runId == (if s.evidence.Some? then s.evidence.value else "None")
      && r.status == "PASS" && r.scope == s.scope && r.builder == s.builder && r.state == s.state
      && r.commit == base && r.availability == "verified_local"
  }

  predicate Fields(utc: Clock, l: Ledger) {
    l.id != "" && l.generated != "" && utc(l.generated)
    && Digits(l.repository.baseCommit, 40) && l.repository.branch != ""
    && (forall a :: a in l.assets ==> AssetFields(a))
    && (forall r :: r in l.reports ==> ReportFields(utc, r))
    && (forall s :: s in l.scopes ==> ScopeFields(s))
    && (forall i, j :: 0 <= i < j < |l.assets| ==> l.assets[i].id != l.assets[j].id)
    && (forall i, j :: 0 <= i < j < |l.reports| ==> l.reports[i].runId != l.reports[j].runId)
    && (forall i, j :: 0 <= i < j < |l.scopes| ==> l.scopes[i].scope != l.scopes[j].scope)
    && (forall s :: s in l.scopes && s.status == "PASS" ==> Backed(s, l.repository.baseCommit, l.reports))
  }

  // ---- the validator's own predicates say the same ----

  lemma {:induction false} HexDigits(s: string, n: nat)
    ensures IsHex(s, n) <==> Digits(s, n)
  {
    forall c: char ensures c in "0123456789abcdef" <==> '0' <= c <= '9' || 'a' <= c <= 'f' { HexDigit(c); }
    if IsHex(s, n) {
      forall c | c in s ensures c in "0123456789abcdef" {
        var i :| 0 <= i < n && s[i] == c;
      }
    }
    if Digits(s, n) {
      forall i | 0 <= i < n ensures '0' <= s[i] <= '9' || 'a' <= s[i] <= 'f' { assert s[i] in s; }
    }
  }

  lemma {:induction false} HexDigit(c: char)
    ensures c in "0123456789abcdef" <==> '0' <= c <= '9' || 'a' <= c <= 'f'
  {
    var digits := "0123456789abcdef";
    if '0' <= c <= '9' {
      assert digits[c as int - '0' as int] == c;
    } else if 'a' <= c <= 'f' {
      assert digits[c as int - 'a' as int + 10] == c;
    }
  }

  lemma {:induction false} BuilderOwns(scope: string, builder: string)
    ensures BuilderOf(scope) == Some(builder) <==> Owns(builder, scope)
    ensures BuilderOf(scope).Some? <==> Programmed(scope)
  {
    assert "lcc.blank_native"[4] == 'b' && "lcc.fixed_autonomous"[4] == 'f' && "lcc.parametric"[4] == 'p'
           && "lcc.master_bindings"[4] == 'm';
    assert "mmc.blank_native_full_bridge"[4] == 'b' && "mmc.detailed_pwm_full_bridge"[4] == 'd'
           && "mmc.parametric"[4] == 'p';
    assert "mmc.avm_full_bridge"[8] == 'f' && "mmc.avm_half_bridge"[8] == 'h';
    assert "mmc.parametric"[0] == 'm' && "lcc.parametric"[0] == 'l';
    assert "mmc.avm_full_bridge"[0] == 'm' && "mmc.avm_half_bridge"[0] == 'm' && "lcc.master_bindings"[0] == 'l';
  }

  lemma {:induction false} ReportAgrees(utc: Clock, r: Report)
    ensures ReportOk(utc, r) <==> ReportFields(utc, r)
  {
    BuilderOwns(r.scope, r.builder);
    HexDigits(r.commit, 40);
    HexDigits(r.sha, 64);
  }

  lemma {:induction false} AssetAgrees(a: Asset)
    ensures AssetOk(a) <==> AssetFields(a)
  {
    BuilderOwns(a.scope, "");
    HexDigits(a.sha, 64);
  }

  lemma {:induction false} EarnedAgrees(s: Scope, base: string, reports: seq<Report>)
    requires DistinctReports(reports)
    ensures Earned(s, base, ById(reports)) <==> Backed(s, base, reports)
  {
    var key := if s.evidence.Some? then s.evidence.value else "None";
    if key in ById(reports) { var i := ByIdSource(reports, key); }
    forall r | r in reports && r.runId == key ensures key in ById(reports) && ById(reports)[key] == r {
      var i :| 0 <= i < |reports| && reports[i] == r;
      ByIdHolds(reports, i);
    }
  }

  lemma {:induction false} ScopeAgrees(s: Scope, base: string, reports: seq<Report>)
    requires DistinctReports(reports)
    ensures ScopeOk(s, base, ById(reports)) <==>
            ScopeFields(s) && (s.status == "PASS" ==> Backed(s, base, reports))
  {
    BuilderOwns(s.scope, s.builder);
    EarnedAgrees(s, base, reports);
  }

  lemma {:induction false} ListsAgree(utc: Clock, l: Ledger)
    requires DistinctReports(l.reports)
    ensures (forall i :: 0 <= i < |l.assets| ==> AssetOk(l.assets[i])) <==> forall a :: a in l.assets ==> AssetFields(a)
    ensures (forall i :: 0 <= i < |l.reports| ==> ReportOk(utc, l.reports[i]))
       <==> forall r :: r in l.reports ==> ReportFields(utc, r)
    ensures (forall i :: 0 <= i < |l.scopes| ==> ScopeOk(l.scopes[i], l.repository.baseCommit, ById(l.reports)))
       <==> forall s :: s in l.scopes ==>
              ScopeFields(s) && (s.status == "PASS" ==> Backed(s, l.repository.baseCommit, l.reports))
  {
    forall a ensures AssetOk(a) <==> AssetFields(a) { AssetAgrees(a); }
    forall r ensures ReportOk(utc, r) <==> ReportFields(utc, r) { ReportAgrees(utc, r); }
    forall s ensures ScopeOk(s, l.repository.baseCommit, ById(l.reports)) <==>
                     ScopeFields(s) && (s.status == "PASS" ==> Backed(s, l.repository.baseCommit, l.reports)) {
      ScopeAgrees(s, l.repository.baseCommit, l.reports);
    }
  }

  // The validator accepts exactly the baselines that, once stripped, have
  // these fields.
  lemma {:induction false} AcceptedExactly(utc: Clock, raw: Ledger)
    ensures Validate(utc, raw) == if Fields(utc, Stripped(raw)) then Some(Stripped(raw)) else None
  {
    var l := Stripped(raw);
    HexDigits(l.repository.baseCommit, 40);
    if DistinctReports(l.reports) { ListsAgree(utc, l); }
  }
}
