// Baselines on which the ledger does less than its description suggests.
module PromotionExamples {
  import opened Options
  import opened PyText
  import opened Baseline
  import opened Evidence
  import opened Promotion
  import opened PromotionRecords
  import opened PromotionQuiet
  import opened PromotionFlips

  // The texts the reports of one path share.
  datatype Texts = Texts(base: string, path: string, generated: string, kind: string, state: string)

  predicate Plain(s: string) { s != "" && Strip(s) == s }

  predicate Good(x: Texts) {
    IsHex(x.base, 40) && Plain(x.path) && Plain(x.generated) && Plain(x.kind) && Plain(x.state)
    && KnownState(x.state) && KindMatches(x.kind, x.state)
  }

  // A scope whose builder carries the scope's own name.
  predicate SelfBuilt(scope: string) { Plain(scope) && BuilderOf(scope) == Some(scope) }

  function PassReport(x: Texts, id: string, scope: string, digest: string): Report {
    Report(id, scope, scope, x.kind, x.state, PASS, x.base, x.generated, x.path, digest, VERIFIED)
  }

  function PassScope(x: Texts, scope: string, owner: string, evidence: Option<string>): Scope {
    Scope(scope, scope, owner, x.state, PASS, evidence, [])
  }

  function Example(x: Texts, id: string, reports: seq<Report>, scopes: seq<Scope>): Ledger {
    Ledger(id, x.generated, Repository(x.base, id, true), [], reports, scopes)
  }

  lemma {:induction false} PassReportOk(utc: Clock, x: Texts, id: string, scope: string, digest: string)
    requires Good(x) && Plain(id) && SelfBuilt(scope) && IsHex(digest, 64) && utc(x.generated)
    ensures StripReport(PassReport(x, id, scope, digest)) == PassReport(x, id, scope, digest)
    ensures ReportOk(utc, PassReport(x, id, scope, digest))
  {
    HexIsStripped(x.base, 40);
    HexIsStripped(digest, 64);
    StatusIsStripped(PASS);
    UnpaddedIsStripped(VERIFIED);
  }

  lemma {:induction false} PassScopeOk(x: Texts, scope: string, owner: string, evidence: Option<string>,
          byId: map<string, Report>, digest: string)
    requires Good(x) && SelfBuilt(scope) && Plain(owner) && (evidence.Some? ==> Plain(evidence.value))
    requires EvidenceKey(evidence) in byId
    requires byId[EvidenceKey(evidence)] == PassReport(x, EvidenceKey(evidence), scope, digest)
    ensures StripScope(PassScope(x, scope, owner, evidence)) == PassScope(x, scope, owner, evidence)
    ensures ScopeOk(PassScope(x, scope, owner, evidence), x.base, byId)
  {
    StatusIsStripped(PASS);
  }

  // A PASS that names no evidence is valid when a report with the run
  // identifier "None" exists, and then keeps the base commit from moving.
  lemma {:induction false} UnnamedPassIsValid(utc: Clock, x: Texts, scope: string, owner: string, digest: string)
    requires Good(x) && SelfBuilt(scope) && Plain(owner) && IsHex(digest, 64) && utc(x.generated)
    ensures Valid(utc, Example(x, owner, [PassReport(x, "None", scope, digest)], [PassScope(x, scope, owner, None)]))
  {
    var r, s := PassReport(x, "None", scope, digest), PassScope(x, scope, owner, None);
    UnpaddedIsStripped("None");
    PassReportOk(utc, x, "None", scope, digest);
    assert [r][..0] == [] && ById([r]) == map["None" := r];
    PassScopeOk(x, scope, owner, None, ById([r]), digest);
    HexIsStripped(x.base, 40);
    assert StripReports([r]) == [r] && StripScopes([s]) == [s];
  }

  lemma {:induction false} UnnamedPassStaysPut(utc: Clock, x: Texts, scope: string, owner: string, digest: string,
    q: Request)
    requires Good(x) && SelfBuilt(scope) && Plain(owner) && IsHex(digest, 64) && utc(x.generated)
    requires IsHex(q.commit, 40) && q.commit != x.base
    ensures var l := Example(x, owner, [PassReport(x, "None", scope, digest)], [PassScope(x, scope, owner, None)]);
            Valid(utc, l) && Validate(utc, Moved(l, q, x.generated)).None?
  {
    var l := Example(x, owner, [PassReport(x, "None", scope, digest)], [PassScope(x, scope, owner, None)]);
    UnnamedPassIsValid(utc, x, scope, owner, digest);
    MovedIsValid(utc, l, q, x.generated);
    assert l.scopes[0].status == PASS && l.scopes[0].evidence.None?;
  }

  // ---- two scopes recorded from one path ----

  function PayloadOf(x: Texts, id: string, scope: string): Payload {
    Payload(true, Some(id), Some(scope), Some(scope), Some(x.kind), Some(x.state), Some(x.generated), Some(PASS),
      Some(x.base))
  }

  lemma {:induction false} PayloadReads(w: World, x: Texts, id: string, scope: string, raw: Bytes)
    requires Good(x) && Plain(id) && SelfBuilt(scope) && w.utc(x.generated)
    requires w.decode(raw) == Some(PayloadOf(x, id, scope))
    ensures ReadPayload(w, x.path, raw) == Some(PassReport(x, id, scope, w.sha(raw)))
  {}

  // One PASS report and its scope.
  datatype Entry = Entry(id: string, scope: string, owner: string, digest: string)

  predicate GoodEntry(e: Entry) { Plain(e.id) && SelfBuilt(e.scope) && Plain(e.owner) && IsHex(e.digest, 64) }

  function ReportOf(x: Texts, e: Entry): Report { PassReport(x, e.id, e.scope, e.digest) }

  function Both(x: Texts, a: Entry, b: Entry): Ledger {
    Example(x, a.id, [ReportOf(x, a), ReportOf(x, b)],
            [PassScope(x, a.scope, a.owner, Some(a.id)), PassScope(x, b.scope, b.owner, Some(b.id))])
  }

  lemma {:induction false} TwoById(a: Report, b: Report)
    requires a.runId != b.runId
    ensures ById([a, b]) == map[a.runId := a, b.runId := b] && DistinctReports([a, b])
  {
    assert [a, b][..1] == [a] && [a][..0] == [];
    assert ById([a]) == map[a.runId := a];
  }

  predicate GoodPair(a: Entry, b: Entry) { GoodEntry(a) && GoodEntry(b) && a.id != b.id && a.scope != b.scope }

  lemma {:induction false} BothReports(utc: Clock, x: Texts, a: Entry, b: Entry)
    requires Good(x) && GoodPair(a, b) && utc(x.generated)
    ensures var rs := Both(x, a, b).reports;
            ReportsOk(utc, rs) && StripReports(rs) == rs
              && ById(rs) == map[a.id := ReportOf(x, a), b.id := ReportOf(x, b)]
  {
    var rs := Both(x, a, b).reports;
    TwoById(rs[0], rs[1]);
    PassReportOk(utc, x, a.id, a.scope, a.digest);
    PassReportOk(utc, x, b.id, b.scope, b.digest);
    assert StripReports(rs) == rs;
  }

  lemma {:induction false} TwoScopes(s: Scope, t: Scope)
    requires s.scope != t.scope
    ensures FindScope([s, t], s.scope) == Some(s) && FindScope([s, t], t.scope) == Some(t) && DistinctScopes([s, t])
  {
    assert DistinctScopes([s, t]);
    FindScopeHolds([s, t], 0);
    FindScopeHolds([s, t], 1);
  }

  lemma {:induction false} TwoScopesOk(s: Scope, t: Scope, base: string, byId: map<string, Report>)
    requires s.scope != t.scope && StripScope(s) == s && StripScope(t) == t
    requires ScopeOk(s, base, byId) && ScopeOk(t, base, byId)
    ensures ScopesOk([s, t], base, byId) && StripScopes([s, t]) == [s, t]
    ensures FindScope([s, t], s.scope) == Some(s) && FindScope([s, t], t.scope) == Some(t)
  {
    assert StripScopes([s, t]) == [s, t];
    TwoScopes(s, t);
  }

  lemma {:induction false} BothScopes(x: Texts, a: Entry, b: Entry, byId: map<string, Report>)
    requires Good(x) && GoodPair(a, b) && byId == map[a.id := ReportOf(x, a), b.id := ReportOf(x, b)]
    ensures var ss := Both(x, a, b).scopes; ScopesOk(ss, x.base, byId) && StripScopes(ss) == ss
    ensures FindScope(Both(x, a, b).scopes, a.scope) == Some(PassScope(x, a.scope, a.owner, Some(a.id)))
    ensures FindScope(Both(x, a, b).scopes, b.scope) == Some(PassScope(x, b.scope, b.owner, Some(b.id)))
  {
    PassScopeOk(x, a.scope, a.owner, Some(a.id), byId, a.digest);
    PassScopeOk(x, b.scope, b.owner, Some(b.id), byId, b.digest);
    TwoScopesOk(PassScope(x, a.scope, a.owner, Some(a.id)), PassScope(x, b.scope, b.owner, Some(b.id)), x.base, byId);
  }

  lemma {:induction false} BothIsValid(utc: Clock, x: Texts, a: Entry, b: Entry)
    requires Good(x) && GoodPair(a, b) && utc(x.generated)
    ensures Valid(utc, Both(x, a, b))
    ensures ById(Both(x, a, b).reports) == map[a.id := ReportOf(x, a), b.id := ReportOf(x, b)]
  {
    var l := Both(x, a, b);
    BothReports(utc, x, a, b);
    BothScopes(x, a, b, ById(l.reports));
    HexIsStripped(x.base, 40);
    assert StripAssets(l.assets) == l.assets && AssetsOk(l.assets);
  }

  // The path first holds the report of a, and that of b while
  // apply_scope_report looks; the request names the owner of b for the scope of a.
  lemma {:induction false} BothFlip(w: World, x: Texts, a: Entry, b: Entry, raw: Bytes, other: Bytes)
    requires Good(x) && GoodPair(a, b) && w.utc(x.generated)
    requires |raw| <= MAX_REPORT_BYTES && |other| <= MAX_REPORT_BYTES
    requires w.decode(raw) == Some(PayloadOf(x, a.id, a.scope)) && w.sha(raw) == a.digest
    requires w.decode(other) == Some(PayloadOf(x, b.id, b.scope)) && w.sha(other) == b.digest
    ensures var l, q := Both(x, a, b), Request(x.path, x.base, "b", a.scope, b.owner, [], None);
            ReadyButOwner(w, l, q, raw) && Flip(w, Stripped(l), q, raw, other)
            && FindScope(Stripped(l).scopes, q.scope).value.owner == a.owner
  {
    var l, q := Both(x, a, b), Request(x.path, x.base, "b", a.scope, b.owner, [], None);
    BothIsValid(w.utc, x, a, b);
    BothScopes(x, a, b, ById(l.reports));
    ValidateFixes(w.utc, l);
    PayloadReads(w, x, a.id, a.scope, raw);
    PayloadReads(w, x, b.id, b.scope, other);
    UnpaddedIsStripped("b");
  }

  lemma {:induction false} SomePair() returns (a: Entry, b: Entry)
    ensures GoodPair(a, b) && a.owner != b.owner
  {
    a := Entry("a", "lcc.parametric", "a", seq(64, i => 'a'));
    b := Entry("b", "lcc.blank_native", "b", seq(64, i => 'b'));
    UnpaddedIsStripped("a"); UnpaddedIsStripped("b");
    UnpaddedIsStripped("lcc.parametric"); UnpaddedIsStripped("lcc.blank_native");
  }

  lemma {:induction false} SomeWorld(x: Texts, a: Entry, b: Entry) returns (w: World)
    ensures w.utc(x.generated)
    ensures w.decode([]) == Some(PayloadOf(x, a.id, a.scope)) && w.sha([]) == a.digest
    ensures w.decode([0]) == Some(PayloadOf(x, b.id, b.scope)) && w.sha([0]) == b.digest
  {
    w := World(s => true, raw => if raw == [] then a.digest else b.digest,
               raw => Some(if raw == [] then PayloadOf(x, a.id, a.scope) else PayloadOf(x, b.id, b.scope)));
  }

  lemma {:induction false} FlipAdvances(w: World, x: Texts, a: Entry, b: Entry)
    requires Good(x) && GoodPair(a, b) && w.utc(x.generated)
    requires w.decode([]) == Some(PayloadOf(x, a.id, a.scope)) && w.sha([]) == a.digest
    requires w.decode([0]) == Some(PayloadOf(x, b.id, b.scope)) && w.sha([0]) == b.digest
    ensures var l, q := Both(x, a, b), Request(x.path, x.base, "b", a.scope, b.owner, [], None);
            Advance(w, l, q, FlipFile(0, [], [0], 0), 0).0.Ok?
            && FindScope(Stripped(l).scopes, q.scope).Some?
            && FindScope(Stripped(l).scopes, q.scope).value.owner == a.owner
  {
    var l, q := Both(x, a, b), Request(x.path, x.base, "b", a.scope, b.owner, [], None);
    BothFlip(w, x, a, b, [], [0]);
    FlipPromotes(w, l, q, 0, [], [0], 0);
  }

  // So the check of the owner can be passed in another owner's name.
  lemma {:induction false} FlipHappens()
    ensures exists w: World, l, q, file: History, t ::
              && Advance(w, l, q, file, t).0.Ok? && FindScope(Stripped(l).scopes, q.scope).Some?
              && FindScope(Stripped(l).scopes, q.scope).value.owner != q.owner
  {
    var x := SomeTexts();
    var a, b := SomePair();
    var w := SomeWorld(x, a, b);
    FlipAdvances(w, x, a, b);
    var l, q := Both(x, a, b), Request(x.path, x.base, "b", a.scope, b.owner, [], None);
    assert Advance(w, l, q, FlipFile(0, [], [0], 0), 0).0.Ok?;
  }

  lemma {:induction false} SomeTexts() returns (x: Texts)
    ensures Good(x) && x.generated == "t"
  {
    x := Texts(seq(40, i => '0'), "p", "t", "k", "built");
    UnpaddedIsStripped("p"); UnpaddedIsStripped("t"); UnpaddedIsStripped("k"); UnpaddedIsStripped("built");
  }

  // And a baseline can hold a PASS that names no evidence.
  lemma {:induction false} UnnamedPassHappens(utc: Clock)
    requires utc("t")
    ensures exists l, s :: Valid(utc, l) && s in l.scopes && s.status == PASS && s.evidence.None?
  {
    var x := SomeTexts();
    UnpaddedIsStripped("a"); UnpaddedIsStripped("lcc.parametric");
    var digest := seq(64, i => 'a');
    UnnamedPassIsValid(utc, x, "lcc.parametric", "a", digest);
    var s := PassScope(x, "lcc.parametric", "a", None);
    assert s in Example(x, "a", [PassReport(x, "None", "lcc.parametric", digest)], [s]).scopes;
  }
}
