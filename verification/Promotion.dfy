// Promotion of one report into the program baseline.
module Promotion {
  import opened Options
  import opened Baseline
  import opened Evidence

  datatype Rejection =
    | BaselineInvalid
    | EvidenceInvalid
    | ScopeConflict
    | HashMismatch
    | NotPass
    | CommitMismatch
    | ScopeMismatch
    | TargetMissing
    | NotClean
    | Detached
    | BranchMismatch
    | AssetMissing
    | AssetInvalid
    | CheckoutChanged

  datatype Result<+T> = Ok(value: T) | Err(reason: Rejection)

  datatype Request = Request(path: string, commit: string, branch: string, scope: string, owner: string,
                             exclusions: seq<string>, expected: Option<string>)

  // ---- the pinned report ----

  // _index_pinned_report: a report that does not index is a hash mismatch
  // unless one more look still shows the expected content.
  function IndexPinned(w: World, path: string, file: History, t: nat, expected: string): (Result<Report>, nat) {
    var (indexed, now) := Index(w, path, file, t);
    if indexed.None? then
      (Err(if HashOf(w, file(now)) == Some(expected) then EvidenceInvalid else HashMismatch), now + 1)
    else if indexed.value.sha != expected then (Err(HashMismatch), now)
    else (Ok(indexed.value), now)
  }

  // The checks advance_and_apply_scope_report makes before it edits anything.
  function Pin(w: World, q: Request, file: History, t: nat): (Result<Report>, nat) {
    var raw := HashOf(w, file(t));
    if raw.None? then (Err(EvidenceInvalid), t + 1)
    else if q.expected.Some? && q.expected != raw then (Err(HashMismatch), t + 1)
    else
      var (indexed, now) := IndexPinned(w, q.path, file, t + 1, raw.value);
      if indexed.Err? then (indexed, now)
      else if indexed.value.status != PASS then (Err(NotPass), now)
      else if indexed.value.commit != q.commit then (Err(CommitMismatch), now)
      else if indexed.value.scope != q.scope then (Err(ScopeMismatch), now)
      else (indexed, now)
  }

  // ---- the edits ----

  // Evidence made at another commit no longer counts.
  function ResetScope(s: Scope, byId: map<string, Report>, commit: string): Scope {
    if s.evidence.Some? && s.evidence.value in byId && byId[s.evidence.value].commit != commit
    then s.(status := NOT_RUN, evidence := None)
    else s
  }

  function ResetScopes(ss: seq<Scope>, byId: map<string, Report>, commit: string): (r: seq<Scope>)
    ensures |r| == |ss|
  {
    seq(|ss|, i requires 0 <= i < |ss| => ResetScope(ss[i], byId, commit))
  }

  // The candidate after the base commit has moved.
  function Moved(current: Ledger, q: Request, generated: string): Ledger {
    current.(repository := Repository(q.commit, q.branch, true),
             scopes := ResetScopes(current.scopes, ById(current.reports), q.commit),
             generated := generated)
  }

  function Without(rs: seq<Report>, runId: string): seq<Report> {
    if rs == [] then [] else
      var last := rs[|rs| - 1];
      Without(rs[..|rs| - 1], runId) + if last.runId == runId then [] else [last]
  }

  function FindScope(ss: seq<Scope>, name: string): Option<Scope> {
    if ss == [] then None else if ss[0].scope == name then Some(ss[0]) else FindScope(ss[1..], name)
  }

  function Credit(s: Scope, c: Report): Scope {
    if s.scope == c.scope then s.(status := c.status, evidence := Some(c.runId), state := c.state) else s
  }

  function CreditAll(ss: seq<Scope>, c: Report): (r: seq<Scope>)
    ensures |r| == |ss|
  {
    seq(|ss|, i requires 0 <= i < |ss| => Credit(ss[i], c))
  }

  function Exclude(ss: seq<Scope>, name: string, exclusions: seq<string>): (r: seq<Scope>)
    ensures |r| == |ss|
  {
    seq(|ss|, i requires 0 <= i < |ss| => if ss[i].scope == name then ss[i].(exclusions := exclusions) else ss[i])
  }

  function FromOption(l: Option<Ledger>): Result<Ledger> {
    if l.Some? then Ok(l.value) else Err(BaselineInvalid)
  }

  // apply_scope_report once the baseline is valid and the report is indexed.
  function Place(utc: Clock, current: Ledger, c: Report, owner: string): Result<Ledger> {
    var scope := FindScope(current.scopes, c.scope);
    if BuilderOf(c.scope) != Some(c.builder) || c.commit != current.repository.baseCommit then Err(ScopeConflict)
    else if scope.None? || scope.value.owner != owner then Err(ScopeConflict)
    else if c.runId in ById(current.reports) && ById(current.reports)[c.runId] != c then Err(ScopeConflict)
    else FromOption(Validate(utc, current.(reports := Without(current.reports, c.runId) + [c],
                                           scopes := CreditAll(current.scopes, c))))
  }

  // apply_scope_report
  function Apply(w: World, l: Ledger, path: string, file: History, t: nat, owner: string): (Result<Ledger>, nat) {
    var current := Validate(w.utc, l);
    if current.None? then (Err(BaselineInvalid), t) else
      var (c, now) := Index(w, path, file, t);
      if c.None? then (Err(EvidenceInvalid), now) else (Place(w.utc, current.value, c.value, owner), now)
  }

  // Every scope but the named one, by name.
  function Others(ss: seq<Scope>, name: string): map<string, Scope> {
    if ss == [] then map[] else
      var last := ss[|ss| - 1];
      var m := Others(ss[..|ss| - 1], name);
      if last.scope == name then m else m[last.scope := last]
  }

  // The comparisons made after the report has been applied.
  predicate Recorded(before: Ledger, after: Ledger, target: Scope, indexed: Report, again: Report) {
    target.evidence.Some? && target.evidence.value in ById(after.reports) && target.status == PASS
    && (var promoted := ById(after.reports)[target.evidence.value];
        promoted.runId == indexed.runId && promoted.sha == indexed.sha)
    && ById(after.reports) == ById(before.reports)[indexed.runId := indexed]
    && Others(after.scopes, target.scope) == Others(before.scopes, target.scope)
    && again == indexed
  }

  // What follows a successful apply_scope_report.
  function Conclude(w: World, q: Request, file: History, t: nat, indexed: Report, before: Ledger, after: Ledger)
    : (Result<Ledger>, nat)
  {
    var target := FindScope(after.scopes, q.scope);
    if target.None? then (Err(TargetMissing), t) else
      var (again, now) := IndexPinned(w, q.path, file, t, indexed.sha);
      if again.Err? then (Err(again.reason), now)
      else if !Recorded(before, after, target.value, indexed, again.value) then (Err(HashMismatch), now)
      else (FromOption(Validate(w.utc, after.(scopes := Exclude(after.scopes, q.scope, q.exclusions)))), now)
  }

  // apply_scope_report on the moved candidate, and what follows it.  A
  // rejection turns into a hash mismatch unless the file still has its bytes.
  function Settle(w: World, q: Request, file: History, t: nat, indexed: Report, before: Ledger): (Result<Ledger>, nat) {
    var (after, now) := Apply(w, before, q.path, file, t, q.owner);
    if after.Err? then
      (Err(if HashOf(w, file(now)) == Some(indexed.sha) then after.reason else HashMismatch), now + 1)
    else Conclude(w, q, file, now, indexed, before, after.value)
  }

  // advance_and_apply_scope_report
  function Advance(w: World, l: Ledger, q: Request, file: History, t: nat): (Result<Ledger>, nat) {
    var current := Validate(w.utc, l);
    if current.None? then (Err(BaselineInvalid), t) else
      var (indexed, now) := Pin(w, q, file, t);
      if indexed.Err? then (Err(indexed.reason), now)
      else Settle(w, q, file, now, indexed.value, Moved(current.value, q, indexed.value.generated))
  }

  // ---- promote_program_report ----

  datatype Checkout = Checkout(clean: bool, branch: string, commit: string)

  // One call: what it was asked, what the two git readings said, and how the
  // report path behaved.
  datatype Promotion = Promotion(path: string, scope: string, owner: string, exclusions: seq<string>,
                                 expected: Option<string>, wantBranch: Option<string>,
                                 updates: map<string, string>, git: Checkout, confirmed: Checkout, file: History)

  function RequestOf(p: Promotion, pinned: string): Request {
    Request(p.path, p.git.commit, p.git.branch, p.scope, p.owner, p.exclusions, Some(pinned))
  }

  function Rehash(xs: seq<Asset>, updates: map<string, string>): (r: seq<Asset>)
    ensures |r| == |xs|
  {
    seq(|xs|, i requires 0 <= i < |xs| => if xs[i].id in updates then xs[i].(sha := updates[xs[i].id]) else xs[i])
  }

  function UpdateAssets(utc: Clock, l: Ledger, updates: map<string, string>): Result<Ledger> {
    if updates == map[] then Ok(l)
    else if !(updates.Keys <= Ids(l.assets)) then Err(AssetMissing)
    else
      var updated := Validate(utc, l.(assets := Rehash(l.assets, updates)));
      if updated.None? then Err(AssetInvalid) else Ok(updated.value)
  }

  function Finish(w: World, updated: Ledger, p: Promotion, pinned: string, t: nat): (Result<Ledger>, nat) {
    var assets := UpdateAssets(w.utc, updated, p.updates);
    if assets.Err? then (assets, t)
    else if p.confirmed != Checkout(true, p.git.branch, p.git.commit) then (Err(CheckoutChanged), t)
    else
      var (again, now) := IndexPinned(w, p.path, p.file, t, pinned);
      (if again.Err? then Err(again.reason) else assets, now)
  }

  function Pinned(w: World, p: Promotion, t: nat): (Option<string>, nat) {
    if p.expected.Some? && p.expected.value != "" then (p.expected, t) else (HashOf(w, p.file(t)), t + 1)
  }

  // promote_program_report, from the stored baseline to the one it writes.
  function Promote(w: World, l: Ledger, p: Promotion): (Result<Ledger>, nat) {
    if !p.git.clean then (Err(NotClean), 0)
    else if p.git.branch == "" then (Err(Detached), 0)
    else if p.wantBranch.Some? && p.wantBranch.value != p.git.branch then (Err(BranchMismatch), 0)
    else
      var (pinned, t) := Pinned(w, p, 0);
      if pinned.None? then (Err(EvidenceInvalid), t) else
        var (updated, t1) := Advance(w, l, RequestOf(p, pinned.value), p.file, t);
        if updated.Err? then (updated, t1) else Finish(w, updated.value, p, pinned.value, t1)
  }
}
