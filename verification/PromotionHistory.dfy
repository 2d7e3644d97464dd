// Any number of promotions, accepted or rejected, of any reports whose files
// change in any way.
module PromotionHistory {
  import opened Options
  import opened PyText
  import opened Baseline
  import opened BaselineFields
  import opened Evidence
  import opened Promotion
  import opened PromotionRecords

  // The baseline file after one call: written on success, untouched otherwise.
  function Write(w: World, l: Ledger, p: Promotion): Ledger {
    var r := Promote(w, l, p).0;
    if r.Ok? then r.value else l
  }

  function Stored(w: World, l: Ledger, ps: seq<Promotion>): Ledger {
    if ps == [] then l else Write(w, Stored(w, l, ps[..|ps| - 1]), ps[|ps| - 1])
  }

  predicate Accepted(w: World, l: Ledger, p: Promotion) { Promote(w, l, p).0.Ok? }

  // The record an accepted call pins, from the bytes its second look finds.
  function PinnedReport(w: World, p: Promotion, t: nat): Option<Report> {
    if p.file(t).Regular? then ReadPayload(w, p.path, p.file(t).raw) else None
  }

  // The instant at which the pinned bytes are read.
  function PinnedAt(p: Promotion): nat {
    if p.expected.Some? && p.expected.value != "" then 1 else 2
  }

  // The asset records after the call's hash updates.
  lemma {:induction false} FinishMeans(w: World, l: Ledger, p: Promotion, pinned: string, t: nat)
    requires Valid(w.utc, l) && Finish(w, l, p, pinned, t).0.Ok?
    ensures var out := Finish(w, l, p, pinned, t).0.value;
            Valid(w.utc, out) && out == l.(assets := StripAssets(Rehash(l.assets, p.updates)))
            && p.updates.Keys <= Ids(l.assets)
    ensures p.confirmed == Checkout(true, p.git.branch, p.git.commit)
  {
    var updated := l.(assets := Rehash(l.assets, p.updates));
    ValidateFixes(w.utc, updated);
    assert Stripped(l) == l;
    if p.updates == map[] {
      assert Rehash(l.assets, p.updates) == l.assets;
    }
  }

  // What one accepted call writes: the stored baseline with the pinned report
  // recorded, its scope promoted, the evidence of other commits withdrawn and
  // the named asset hashes replaced.  git is read before and after, and the
  // report still has the pinned content at the end.
  lemma {:induction false} AcceptedCall(w: World, l: Ledger, p: Promotion)
    requires Accepted(w, l, p)
    ensures Validate(w.utc, l).Some? && Valid(w.utc, Write(w, l, p))
    ensures p.git.clean && p.confirmed == p.git && p.git.branch != ""
    ensures var r := PinnedReport(w, p, PinnedAt(p));
            r.Some? && r.value.status == PASS && r.value.commit == p.git.commit && r.value.scope == p.scope
            && RecordsPinned(Stripped(l), RequestOf(p, r.value.sha), r.value,
                             Write(w, l, p).(assets := Stripped(l).assets))
            && Write(w, l, p).assets == StripAssets(Rehash(Stripped(l).assets, p.updates))
  {
    var (pinned, t) := Pinned(w, p, 0);
    var q := RequestOf(p, pinned.value);
    var (updated, t1) := Advance(w, l, q, p.file, t);
    AdvanceRecordsPinned(w, l, q, p.file, t);
    PinMeans(w, q, p.file, t);
    assert PinnedAt(p) == t + 1;
    FinishMeans(w, updated.value, p, pinned.value, t1);
  }

  // A path with blanks around it is never promoted, however its file behaves:
  // the validator strips the recorded path, which the pinned one then misses.
  lemma {:induction false} PathIsPlain(w: World, l: Ledger, p: Promotion)
    requires Accepted(w, l, p)
    ensures Strip(p.path) == p.path
  {
    AcceptedCall(w, l, p);
    var out, r := Write(w, l, p), PinnedReport(w, p, PinnedAt(p)).value;
    CleanReports(w.utc, out);
    assert ById(out.reports)[r.runId] == r;
    IndexNormalises(w, p.path, p.file(PinnedAt(p)).raw);
  }

  // ---- invariants of every history ----

  // The stored baseline stays valid, so a scope reads PASS only while a
  // locally verified PASS report of its own scope, builder and state was made
  // at the current base commit.
  lemma {:induction false} PassStaysEarned(w: World, l: Ledger, ps: seq<Promotion>)
    requires Valid(w.utc, l)
    ensures Valid(w.utc, Stored(w, l, ps))
    ensures forall s :: s in Stored(w, l, ps).scopes && s.status == PASS ==>
              exists r :: r in Stored(w, l, ps).reports
                && r.runId == (if s.evidence.Some? then s.evidence.value else "None")
                && r.status == "PASS" && r.scope == s.scope && r.builder == s.builder && r.state == s.state
                && r.commit == Stored(w, l, ps).repository.baseCommit && r.availability == "verified_local"
  {
    if ps != [] {
      var rest := ps[..|ps| - 1];
      PassStaysEarned(w, l, rest);
      var last := Stored(w, l, rest);
      if Accepted(w, last, ps[|ps| - 1]) { AcceptedCall(w, last, ps[|ps| - 1]); }
    }
    var now := Stored(w, l, ps);
    forall s | s in now.scopes && s.status == PASS
      ensures Backed(s, now.repository.baseCommit, now.reports)
    {
      assert ScopeOk(s, now.repository.baseCommit, ById(now.reports));
      EarnedAgrees(s, now.repository.baseCommit, now.reports);
    }
  }

  // One map extends another.
  ghost predicate Extends(big: map<string, Report>, small: map<string, Report>) {
    forall id :: id in small ==> id in big && big[id] == small[id]
  }

  lemma {:induction false} WriteExtends(w: World, l: Ledger, p: Promotion)
    requires Valid(w.utc, l)
    ensures Extends(ById(Write(w, l, p).reports), ById(l.reports))
  {
    if Accepted(w, l, p) { AcceptedCall(w, l, p); }
  }

  // A run identifier, once recorded, keeps its record through every later
  // promotion.
  lemma {:induction false} NeverRebound(w: World, l: Ledger, ps: seq<Promotion>)
    requires Valid(w.utc, l)
    ensures Extends(ById(Stored(w, l, ps).reports), ById(l.reports))
  {
    if ps != [] {
      var rest := ps[..|ps| - 1];
      NeverRebound(w, l, rest);
      PassStaysEarned(w, l, rest);
      WriteExtends(w, Stored(w, l, rest), ps[|ps| - 1]);
    }
  }

  // The record r comes from the bytes the call p read: they decode to it, and
  // its digest is theirs.
  predicate PinnedBy(w: World, p: Promotion, r: Report) {
    p.file(PinnedAt(p)).Regular? && PinnedReport(w, p, PinnedAt(p)) == Some(r)
    && r.sha == w.sha(p.file(PinnedAt(p)).raw) && r.status == PASS
  }

  // One call adds no record but the pinned one.
  lemma {:induction false} CallAddsPinned(w: World, l: Ledger, p: Promotion, id: string)
    requires Valid(w.utc, l) && id in ById(Write(w, l, p).reports)
    ensures id in ById(l.reports) ==> ById(Write(w, l, p).reports)[id] == ById(l.reports)[id]
    ensures id !in ById(l.reports) ==> Accepted(w, l, p) && PinnedBy(w, p, ById(Write(w, l, p).reports)[id])
  {
    if Accepted(w, l, p) {
      AcceptedCall(w, l, p);
      IndexNormalises(w, p.path, p.file(PinnedAt(p)).raw);
    }
  }

  // The last call of a history adds no record but the pinned one.
  lemma {:induction false} LastAddsPinned(w: World, l: Ledger, ps: seq<Promotion>, id: string)
    requires Valid(w.utc, l) && ps != [] && id in ById(Stored(w, l, ps).reports)
    ensures var last, p := Stored(w, l, ps[..|ps| - 1]), ps[|ps| - 1];
            if id in ById(last.reports) then ById(Stored(w, l, ps).reports)[id] == ById(last.reports)[id]
            else Accepted(w, last, p) && PinnedBy(w, p, ById(Stored(w, l, ps).reports)[id])
  {
    PassStaysEarned(w, l, ps[..|ps| - 1]);
    CallAddsPinned(w, Stored(w, l, ps[..|ps| - 1]), ps[|ps| - 1], id);
  }

  // Some accepted call of the history pinned the record r.
  ghost predicate Evidenced(w: World, l: Ledger, ps: seq<Promotion>, r: Report) {
    ps != []
    && (Evidenced(w, l, ps[..|ps| - 1], r)
        || (Accepted(w, Stored(w, l, ps[..|ps| - 1]), ps[|ps| - 1]) && PinnedBy(w, ps[|ps| - 1], r)))
  }

  // Every record that was not there at the start is the record some accepted
  // call pinned.
  lemma {:induction false} RecordsAreEvidence(w: World, l: Ledger, ps: seq<Promotion>, id: string)
    requires Valid(w.utc, l) && id in ById(Stored(w, l, ps).reports) && id !in ById(l.reports)
    ensures Evidenced(w, l, ps, ById(Stored(w, l, ps).reports)[id])
  {
    var rest := ps[..|ps| - 1];
    LastAddsPinned(w, l, ps, id);
    if id in ById(Stored(w, l, rest).reports) { RecordsAreEvidence(w, l, rest, id); }
  }

  // A scope that is not the target keeps a PASS through a move of the base
  // commit only if its report was made at the new commit, and it was not.
  lemma {:induction false} MoveWithdraws(utc: Clock, l: Ledger, q: Request, indexed: Report, out: Ledger, i: nat)
    requires Valid(utc, l) && Valid(utc, out) && i < |l.scopes| == |out.scopes|
    requires l.repository.baseCommit != q.commit == out.repository.baseCommit
    requires Extends(ById(out.reports), ById(l.reports))
    requires out.scopes[i] == ResetScope(l.scopes[i], ById(l.reports), q.commit)
    ensures out.scopes[i].status != PASS
  {
    assert ScopeOk(l.scopes[i], l.repository.baseCommit, ById(l.reports));
    assert ScopeOk(out.scopes[i], out.repository.baseCommit, ById(out.reports));
  }

  lemma {:induction false} OnePass(utc: Clock, l: Ledger, q: Request, indexed: Report, out: Ledger, i: nat)
    requires Valid(utc, l) && Valid(utc, out) && i < |l.scopes| == |out.scopes|
    requires l.repository.baseCommit != q.commit == out.repository.baseCommit
    requires Extends(ById(out.reports), ById(l.reports))
    requires out.scopes[i] == Promoted(l.scopes[i], q, indexed, ById(l.reports))
    ensures out.scopes[i].status == PASS <==> out.scopes[i].scope == q.scope
  {
    if l.scopes[i].scope != q.scope { MoveWithdraws(utc, l, q, indexed, out, i); }
  }

  lemma {:induction false} EveryScopeOnePass(utc: Clock, l: Ledger, q: Request, indexed: Report, out: Ledger)
    requires Valid(utc, l) && Valid(utc, out) && q.commit != l.repository.baseCommit
    requires RecordsPinned(l, q, indexed, out.(assets := l.assets))
    ensures forall s :: s in out.scopes ==> (s.status == PASS <==> s.scope == q.scope)
  {
    assert Extends(ById(out.reports), ById(l.reports));
    forall i | 0 <= i < |out.scopes| ensures out.scopes[i].status == PASS <==> out.scopes[i].scope == q.scope {
      assert out.scopes[i] == PromotedAll(l.scopes, q, indexed, ById(l.reports))[i];
      OnePass(utc, l, q, indexed, out, i);
    }
  }

  // Moving the base commit withdraws every PASS but the one just earned.
  lemma {:induction false} MovingLeavesOnePass(w: World, l: Ledger, p: Promotion)
    requires Valid(w.utc, l) && Accepted(w, l, p) && p.git.commit != l.repository.baseCommit
    ensures FindScope(Write(w, l, p).scopes, p.scope).Some?
    ensures forall s :: s in Write(w, l, p).scopes ==> (s.status == PASS <==> s.scope == p.scope)
  {
    AcceptedCall(w, l, p);
    var r := PinnedReport(w, p, PinnedAt(p)).value;
    EveryScopeOnePass(w.utc, l, RequestOf(p, r.sha), r, Write(w, l, p));
  }

  // At an unchanged base commit no other scope loses its PASS.
  lemma {:induction false} SameCommitKeepsPass(w: World, l: Ledger, p: Promotion, i: nat)
    requires Valid(w.utc, l) && Accepted(w, l, p) && p.git.commit == l.repository.baseCommit
    requires i < |l.scopes| && l.scopes[i].scope != p.scope && l.scopes[i].status == PASS
    ensures i < |Write(w, l, p).scopes| && Write(w, l, p).scopes[i] == l.scopes[i]
  {
    AcceptedCall(w, l, p);
    assert ScopeOk(l.scopes[i], l.repository.baseCommit, ById(l.reports));
  }
}
