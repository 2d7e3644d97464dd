// Indexing one explicitly named acceptance report, while its file may change
// between any two looks at it.
module Evidence {
  import opened Options
  import opened PyText
  import opened Baseline

  type Bytes = seq<bv8>

  // What one look at the report path finds.  Unreadable covers a missing
  // file, a directory, a link and an operating system error.
  datatype Snapshot = Unreadable | Regular(identity: int, raw: Bytes)

  // The path at every instant, in whatever way others rewrite it.
  type History = nat -> Snapshot

  // The report fields the index reads; None for a missing or non-text field.
  // schemaOne is false as well when the root is not an object.
  datatype Payload = Payload(schemaOne: bool, runId: Option<string>, scope: Option<string>, builder: Option<string>,
                             kind: Option<string>, state: Option<string>, generated: Option<string>,
                             status: Option<string>, commit: Option<string>)

  // SHA-256, UTF-8 JSON decoding and the timestamp syntax.
  datatype World = World(utc: Clock, sha: Bytes -> string, decode: Bytes -> Option<Payload>)

  const MAX_REPORT_BYTES: nat := 16 * 1024 * 1024

  // _report_sha256 of one look; None is its PROGRAM_EVIDENCE_INVALID.
  function HashOf(w: World, seen: Snapshot): Option<string> {
    if seen.Regular? && |seen.raw| <= MAX_REPORT_BYTES then Some(w.sha(seen.raw)) else None
  }

  function Owned(field: Option<string>): Option<string> {
    if field.Some? && Strip(field.value) != "" then Some(Strip(field.value)) else None
  }

  // The record index_explicit_reports builds from the bytes it has read.
  function ReadPayload(w: World, path: string, raw: Bytes): Option<Report> {
    var decoded := w.decode(raw);
    if decoded.None? then None else
      var p := decoded.value;
      var runId, scope, builder := Owned(p.runId), Owned(p.scope), Owned(p.builder);
      var kind, state, generated := Owned(p.kind), Owned(p.state), Owned(p.generated);
      if !p.schemaOne || runId.None? || scope.None? || BuilderOf(scope.value).None? then None
      else if builder != BuilderOf(scope.value) || kind.None? || state.None? || !KnownState(state.value) then None
      else if !KindMatches(kind.value, state.value) || generated.None? || !w.utc(generated.value) then None
      else if p.status.None? || !KnownStatus(p.status.value) || p.commit.None? || !IsHex(p.commit.value, 40) then None
      else Some(Report(runId.value, scope.value, builder.value, kind.value, state.value, p.status.value,
                       p.commit.value, generated.value, path, w.sha(raw), VERIFIED))
  }

  // index_explicit_reports for one path, looking first at instant t: read and
  // decode, compare the file's identity, read again, then interpret.
  function Index(w: World, path: string, file: History, t: nat): (Option<Report>, nat) {
    if HashOf(w, file(t)).None? || w.decode(file(t).raw).None? then (None, t + 1)
    else if !file(t + 1).Regular? || file(t + 1).identity != file(t).identity then (None, t + 2)
    else if !file(t + 2).Regular? || file(t + 2).raw != file(t).raw then (None, t + 3)
    else (ReadPayload(w, path, file(t).raw), t + 3)
  }

  lemma {:induction false} UnpaddedIsStripped(s: string)
    requires s != "" && !IsSpace(s[0]) && !IsSpace(s[|s| - 1])
    ensures Strip(s) == s
  {
  }

  lemma {:induction false} OwnedIsStripped(field: Option<string>)
    requires Owned(field).Some?
    ensures Strip(Owned(field).value) == Owned(field).value
  {
    StripTwice(field.value);
  }

  lemma {:induction false} HexIsStripped(s: string, n: nat)
    requires n > 0 && IsHex(s, n)
    ensures Strip(s) == s
  {
    assert '0' <= s[0] <= '9' || 'a' <= s[0] <= 'f';
    assert '0' <= s[n - 1] <= '9' || 'a' <= s[n - 1] <= 'f';
    UnpaddedIsStripped(s);
  }

  lemma {:induction false} StatusIsStripped(s: string)
    requires KnownStatus(s)
    ensures Strip(s) == s
  {
    UnpaddedIsStripped(s);
  }

  // The fields of an indexed report are those of its payload.
  lemma {:induction false} ReadFields(w: World, path: string, raw: Bytes)
    requires ReadPayload(w, path, raw).Some?
    ensures w.decode(raw).Some?
    ensures var r, p := ReadPayload(w, path, raw).value, w.decode(raw).value;
            Owned(p.runId) == Some(r.runId) && Owned(p.scope) == Some(r.scope) && Owned(p.builder) == Some(r.builder)
            && Owned(p.kind) == Some(r.kind) && Owned(p.state) == Some(r.state)
            && Owned(p.generated) == Some(r.generated)
            && p.status == Some(r.status) && KnownStatus(r.status) && p.commit == Some(r.commit) && IsHex(r.commit, 40)
            && r.path == path && r.sha == w.sha(raw) && r.availability == VERIFIED
  {}

  lemma {:induction false} ReadIsStripped(w: World, path: string, raw: Bytes)
    requires ReadPayload(w, path, raw).Some?
    ensures var r := ReadPayload(w, path, raw).value;
            StripReport(r) == r.(path := Strip(path), sha := Strip(w.sha(raw)))
  {
    var p := w.decode(raw).value;
    ReadFields(w, path, raw);
    OwnedIsStripped(p.runId);
    OwnedIsStripped(p.scope);
    OwnedIsStripped(p.builder);
    OwnedIsStripped(p.kind);
    OwnedIsStripped(p.state);
    OwnedIsStripped(p.generated);
    StatusIsStripped(p.status.value);
    HexIsStripped(p.commit.value, 40);
    UnpaddedIsStripped(VERIFIED);
  }

  // The index hands on normalised records: the baseline validator changes at
  // most the path, and accepts the record when the path and digest are text it
  // accepts.
  lemma {:induction false} IndexNormalises(w: World, path: string, raw: Bytes)
    requires ReadPayload(w, path, raw).Some?
    ensures var r := ReadPayload(w, path, raw).value;
            r.path == path && r.sha == w.sha(raw) && r.availability == VERIFIED
            && (IsHex(r.sha, 64) && Strip(path) == path ==> StripReport(r) == r)
            && (IsHex(r.sha, 64) && path != "" ==> ReportOk(w.utc, r))
  {
    ReadIsStripped(w, path, raw);
    if IsHex(w.sha(raw), 64) { HexIsStripped(w.sha(raw), 64); }
  }

  // A report that indexes shows one content throughout the three looks, and
  // carries that content's hash.
  lemma {:induction false} IndexIsOneContent(w: World, path: string, file: History, t: nat)
    requires Index(w, path, file, t).0.Some?
    ensures file(t).Regular? && file(t + 2).Regular? && file(t + 2).raw == file(t).raw
    ensures Index(w, path, file, t) == (ReadPayload(w, path, file(t).raw), t + 3)
    ensures Index(w, path, file, t).0.value.sha == w.sha(file(t).raw)
    ensures HashOf(w, file(t)) == Some(Index(w, path, file, t).0.value.sha)
  {
    IndexNormalises(w, path, file(t).raw);
  }

  // The report path as a program sees it: every look happens one instant later
  // than the look before.
  class ReportFile {
    const history: History
    var now: nat

    constructor (history: History)
      ensures this.history == history && now == 0
    {
      this.history := history;
      now := 0;
    }

    method Look() returns (seen: Snapshot)
      modifies this
      ensures seen == history(old(now)) && now == old(now) + 1
    {
      seen := history(now);
      now := now + 1;
    }

    method ReportSha256(w: World) returns (digest: Option<string>)
      modifies this
      ensures digest == HashOf(w, history(old(now))) && now == old(now) + 1
    {
      var seen := Look();
      digest := HashOf(w, seen);
    }

    method IndexExplicitReport(w: World, path: string) returns (r: Option<Report>)
      modifies this
      ensures (r, now) == Index(w, path, history, old(now))
    {
      var first := Look();
      if first.Unreadable? || |first.raw| > MAX_REPORT_BYTES || w.decode(first.raw).None? {
        return None;
      }
      var current := Look();
      if current.Unreadable? || current.identity != first.identity {
        return None;
      }
      var observed := Look();
      if observed.Unreadable? || observed.raw != first.raw {
        return None;
      }
      r := ReadPayload(w, path, first.raw);
    }
  }
}
