// What an accepted promotion has seen and what it writes, field by field.
module PromotionFields {
  import opened Options
  import opened PyText
  import opened Baseline
  import opened BaselineFields
  import opened Evidence
  import opened Promotion
  import opened PromotionRecords
  import opened PromotionHistory

  // A text field of the payload, stripped and not blank.
  predicate TextField(field: Option<string>, text: string) {
    field.Some? && text == Strip(field.value) && text != ""
  }

  // The record of a report whose bytes decode to a payload of schema 1.
  predicate ReportOf(w: World, path: string, raw: Bytes, r: Report) {
    w.decode(raw).Some?
    && (var p := w.decode(raw).value;
        p.schemaOne && TextField(p.runId, r.runId) && TextField(p.scope, r.scope) && TextField(p.builder, r.builder)
        && TextField(p.kind, r.kind) && TextField(p.state, r.state) && TextField(p.generated, r.generated)
        && p.status == Some(r.status) && p.commit == Some(r.commit))
    && Owns(r.builder, r.scope) && State(r.state) && Status(r.status)
    && (r.state == "compiled" ==> r.kind == "licensed_compile")
    && (r.state == "simulated" ==> r.kind == "licensed_simulation")
    && (r.state == "accepted" ==> r.kind == "licensed_acceptance")
    && Digits(r.commit, 40) && w.utc(r.generated)
    && r.path == path && r.sha == w.sha(raw) && r.availability == "verified_local"
  }

  lemma {:induction false} ReadExactly(w: World, path: string, raw: Bytes, r: Report)
    ensures ReadPayload(w, path, raw) == Some(r) <==> ReportOf(w, path, raw, r)
  {
    BuilderOwns(r.scope, r.builder);
    HexDigits(r.commit, 40);
    if ReadPayload(w, path, raw).Some? {
      var s := ReadPayload(w, path, raw).value;
      ReadFields(w, path, raw);
      BuilderOwns(s.scope, s.builder);
      HexDigits(s.commit, 40);
    }
  }

  // A report path indexes as r exactly when a file of at most 16 MiB with the
  // content of r is there at the first look, the same file at the second and
  // the same content at the third.
  lemma {:induction false} IndexedExactly(w: World, path: string, file: History, t: nat, r: Report)
    ensures Index(w, path, file, t).0 == Some(r) <==>
            && file(t).Regular? && |file(t).raw| <= 16777216
            && file(t + 1).Regular? && file(t + 1).identity == file(t).identity
            && file(t + 2).Regular? && file(t + 2).raw == file(t).raw
            && ReportOf(w, path, file(t).raw, r)
  {
    if file(t).Regular? { ReadExactly(w, path, file(t).raw, r); }
  }

  // ---- what an accepted call writes ----

  // The scope after a call that pinned r.
  predicate ScopeAfter(before: Ledger, p: Promotion, r: Report, s: Scope, after: Scope) {
    after.scope == s.scope && after.builder == s.builder && after.owner == s.owner
    && if s.scope == p.scope then
         after.status == "PASS" && after.evidence == Some(r.runId) && after.state == r.state
         && |after.exclusions| == |p.exclusions|
         && forall i :: 0 <= i < |p.exclusions| ==> after.exclusions[i] == Strip(p.exclusions[i])
       else
         after.state == s.state && after.exclusions == s.exclusions
         && if exists e :: e in before.reports && s.evidence == Some(e.runId) && e.commit != p.git.commit
            then after.status == "NOT_RUN_ON_CURRENT_COMMIT" && after.evidence == None
            else after.status == s.status && after.evidence == s.evidence
  }

  predicate AssetAfter(p: Promotion, a: Asset, after: Asset) {
    after.id == a.id && after.scope == a.scope && after.path == a.path
    && after.sha == if a.id in p.updates then Strip(p.updates[a.id]) else a.sha
  }

  lemma {:induction false} SameMembers(before: seq<Report>, after: seq<Report>, r: Report)
    requires DistinctReports(before) && DistinctReports(after)
    requires ById(after) == ById(before)[r.runId := r]
    ensures forall x :: x in after <==> x == r || (x in before && x.runId != r.runId)
  {
    forall x ensures x in after <==> x == r || (x in before && x.runId != r.runId) {
      MemberById(after, x);
      MemberById(before, x);
    }
  }

  lemma {:induction false} MemberById(rs: seq<Report>, x: Report)
    requires DistinctReports(rs)
    ensures x in rs <==> x.runId in ById(rs) && ById(rs)[x.runId] == x
  {
    if x in rs {
      var i :| 0 <= i < |rs| && rs[i] == x;
      ByIdHolds(rs, i);
    }
    if x.runId in ById(rs) { var i := ByIdSource(rs, x.runId); }
  }

  lemma {:induction false} PromotedFields(before: Ledger, p: Promotion, r: Report, i: nat)
    requires i < |before.scopes| && DistinctReports(before.reports) && StripScopes(before.scopes) == before.scopes
    ensures ScopeAfter(before, p, r, before.scopes[i],
                       PromotedAll(before.scopes, RequestOf(p, r.sha), r, ById(before.reports))[i])
  {
    var s := before.scopes[i];
    if s.evidence.Some? && s.evidence.value in ById(before.reports) {
      var j := ByIdSource(before.reports, s.evidence.value);
    }
    forall e | e in before.reports ensures e.runId in ById(before.reports) && ById(before.reports)[e.runId] == e {
      MemberById(before.reports, e);
    }
  }

  // The stages of an accepted call.
  lemma {:induction false} Stages(w: World, l: Ledger, p: Promotion)
    returns (pinned: string, t: nat, updated: Ledger, t1: nat)
    requires Accepted(w, l, p)
    ensures p.git.clean && p.git.branch != "" && (p.wantBranch.Some? ==> p.wantBranch.value == p.git.branch)
    ensures PinnedAt(p) == t + 1 && (p.expected.Some? && p.expected.value != "" ==> pinned == p.expected.value)
    ensures Advance(w, l, RequestOf(p, pinned), p.file, t) == (Ok(updated), t1)
    ensures Finish(w, updated, p, pinned, t1).0 == Ok(Write(w, l, p))
  {
    var first := Pinned(w, p, 0);
    pinned, t := first.0.value, first.1;
    var second := Advance(w, l, RequestOf(p, pinned), p.file, t);
    updated, t1 := second.0.value, second.1;
  }

  lemma {:induction false} RehashedFields(p: Promotion, assets: seq<Asset>)
    requires StripAssets(assets) == assets && p.updates.Keys <= Ids(assets)
    ensures forall i :: 0 <= i < |assets| ==> AssetAfter(p, assets[i], StripAssets(Rehash(assets, p.updates))[i])
    ensures forall id :: id in p.updates ==> exists a :: a in assets && a.id == id
  {
    forall i | 0 <= i < |assets|
      ensures AssetAfter(p, assets[i], StripAssets(Rehash(assets, p.updates))[i])
    {
      assert StripAssets(assets)[i] == StripAsset(assets[i]);
    }
    forall id | id in p.updates ensures exists a :: a in assets && a.id == id { assert id in Ids(assets); }
  }

  // What the pinned report is, and what becomes of the assets.
  lemma {:induction false} StagesMean(w: World, l: Ledger, p: Promotion, pinned: string, t: nat, updated: Ledger,
          t1: nat)
    requires Valid(w.utc, Stripped(l)) && Advance(w, l, RequestOf(p, pinned), p.file, t) == (Ok(updated), t1)
    requires Finish(w, updated, p, pinned, t1).0.Ok?
    ensures p.file(t + 1).Regular? && w.sha(p.file(t + 1).raw) == pinned
    ensures var before, after := Stripped(l), Finish(w, updated, p, pinned, t1).0.value;
            after.assets == StripAssets(Rehash(before.assets, p.updates)) && p.updates.Keys <= Ids(before.assets)
  {
    AdvanceRecordsPinned(w, l, RequestOf(p, pinned), p.file, t);
    PinMeans(w, RequestOf(p, pinned), p.file, t);
    FinishMeans(w, updated, p, pinned, t1);
  }

  // The gates of an accepted call, the report it pinned and the assets it leaves.
  lemma {:induction false} AcceptedGates(w: World, l: Ledger, p: Promotion)
    requires Accepted(w, l, p) && Valid(w.utc, Stripped(l))
    ensures p.wantBranch.Some? ==> p.wantBranch.value == p.git.branch
    ensures p.file(PinnedAt(p)).Regular?
    ensures p.expected.Some? && p.expected.value != "" ==> w.sha(p.file(PinnedAt(p)).raw) == p.expected.value
    ensures Write(w, l, p).assets == StripAssets(Rehash(Stripped(l).assets, p.updates))
    ensures p.updates.Keys <= Ids(Stripped(l).assets)
  {
    var pinned, t, updated, t1 := Stages(w, l, p);
    StagesMean(w, l, p, pinned, t, updated, t1);
  }

  // The records, scopes and identity an accepted call leaves.
  lemma {:induction false} RecordedFields(utc: Clock, before: Ledger, after: Ledger, p: Promotion, r: Report)
    requires Valid(utc, before) && Valid(utc, after)
    requires RecordsPinned(before, RequestOf(p, r.sha), r, after.(assets := before.assets))
    ensures after.id == before.id && after.generated == r.generated
            && after.repository == Repository(p.git.commit, Strip(p.git.branch), true)
            && (forall x :: x in before.reports && x.runId == r.runId ==> x == r)
            && (forall x :: x in after.reports <==> x == r || (x in before.reports && x.runId != r.runId))
            && |after.scopes| == |before.scopes|
            && (forall i :: 0 <= i < |after.scopes| ==> ScopeAfter(before, p, r, before.scopes[i], after.scopes[i]))
  {
    SameMembers(before.reports, after.reports, r);
    forall x | x in before.reports && x.runId == r.runId ensures x == r { MemberById(before.reports, x); }
    forall i | 0 <= i < |after.scopes| ensures ScopeAfter(before, p, r, before.scopes[i], after.scopes[i]) {
      PromotedFields(before, p, r, i);
    }
  }

  // An accepted call: a clean checkout of a named branch, the one asked for,
  // read alike before and after; a report of the requested scope that passed
  // at its commit, with the digest asked for; and the stored baseline with
  // this report, this scope and these asset digests replaced.
  lemma {:induction false} AcceptedFields(w: World, l: Ledger, p: Promotion) returns (r: Report, at: nat)
    requires Accepted(w, l, p)
    ensures p.git.clean && p.git.branch != "" && p.confirmed == p.git
    ensures p.wantBranch.Some? ==> p.wantBranch.value == p.git.branch
    ensures at == if p.expected.Some? && p.expected.value != "" then 1 else 2
    ensures p.file(at).Regular? && ReportOf(w, p.path, p.file(at).raw, r)
    ensures p.expected.Some? && p.expected.value != "" ==> r.sha == p.expected.value
    ensures r.status == "PASS" && r.commit == p.git.commit && r.scope == p.scope
    ensures var before, after := Stripped(l), Write(w, l, p);
            after.id == before.id && after.generated == r.generated
            && after.repository == Repository(p.git.commit, Strip(p.git.branch), true)
            && (forall x :: x in before.reports && x.runId == r.runId ==> x == r)
            && (forall x :: x in after.reports <==> x == r || (x in before.reports && x.runId != r.runId))
            && |after.scopes| == |before.scopes|
            && (forall i :: 0 <= i < |after.scopes| ==> ScopeAfter(before, p, r, before.scopes[i], after.scopes[i]))
            && |after.assets| == |before.assets|
            && (forall i :: 0 <= i < |after.assets| ==> AssetAfter(p, before.assets[i], after.assets[i]))
            && (forall id :: id in p.updates ==> exists a :: a in before.assets && a.id == id)
  {
    AcceptedCall(w, l, p);
    ValidateFixes(w.utc, l);
    AcceptedGates(w, l, p);
    at := PinnedAt(p);
    r := PinnedReport(w, p, at).value;
    ReadExactly(w, p.path, p.file(at).raw, r);
    RecordedFields(w.utc, Stripped(l), Write(w, l, p), p, r);
    RehashedFields(p, Stripped(l).assets);
  }
}
