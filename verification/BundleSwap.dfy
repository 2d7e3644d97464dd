// Promoting a staged bundle: existing destinations are parked under fresh
// names, candidates are renamed into place, and any failure undoes every
// rename made.
module BundleSwap {
  import opened Options

  type Path = string

  // What a directory tree holds.
  type Content = seq<string>

  type Files = map<Path, Content>

  // One rename; as a staged pair, source is the candidate and target the
  // destination.
  datatype Move = Move(source: Path, target: Path)

  function Back(m: Move): Move { Move(m.target, m.source) }

  predicate CanRename(files: Files, m: Move) { m.source in files && m.target !in files }

  function Renamed(files: Files, m: Move): Files {
    if CanRename(files, m) then (files - {m.source})[m.target := files[m.source]] else files
  }

  function Apply(files: Files, moves: seq<Move>): Files {
    if moves == [] then files else Renamed(Apply(files, moves[..|moves| - 1]), moves[|moves| - 1])
  }

  // Every move is possible when its turn comes.
  predicate Possible(files: Files, moves: seq<Move>) {
    moves != [] ==>
      Possible(files, moves[..|moves| - 1]) && CanRename(Apply(files, moves[..|moves| - 1]), moves[|moves| - 1])
  }

  predicate Touches(m: Move, p: Path) { m.source == p || m.target == p }

  // No two moves share a path, and no move stays in place.
  predicate Independent(moves: seq<Move>) {
    (forall i :: 0 <= i < |moves| ==> moves[i].source != moves[i].target)
    && forall i, j :: 0 <= i < j < |moves| ==>
         !Touches(moves[i], moves[j].source) && !Touches(moves[i], moves[j].target)
  }

  // ---- undoing ----

  lemma {:induction false} BackRestores(files: Files, m: Move)
    requires CanRename(files, m)
    ensures CanRename(Renamed(files, m), Back(m)) && Renamed(Renamed(files, m), Back(m)) == files
  {
  }

  lemma {:induction false} ApartCommute(files: Files, m: Move, k: Move)
    requires m.source != m.target && k.source != k.target && !Touches(m, k.source) && !Touches(m, k.target)
    ensures Renamed(Renamed(files, m), k) == Renamed(Renamed(files, k), m)
    ensures CanRename(Renamed(files, m), k) <==> CanRename(files, k)
  {
  }

  // The first of independent moves may as well have been the last.
  lemma {:induction false} FirstLast(files: Files, moves: seq<Move>)
    requires Independent(moves) && moves != [] && Possible(files, moves)
    ensures Apply(files, moves) == Renamed(Apply(files, moves[1..]), moves[0])
    ensures Possible(files, moves[1..]) && CanRename(Apply(files, moves[1..]), moves[0])
    decreases |moves|
  {
    var n := |moves| - 1;
    if n == 0 {
      assert moves[..0] == [] == moves[1..];
    } else {
      var front, last := moves[..n], moves[n];
      var rest := moves[1..];
      assert |rest| == n && forall i :: 0 <= i < n - 1 ==> rest[..n - 1][i] == front[1..][i];
      assert rest[..n - 1] == front[1..] && rest[n - 1] == last;
      FirstLast(files, front);
      ApartCommute(Apply(files, front[1..]), moves[0], last);
      ApartCommute(Apply(files, front[1..]), last, moves[0]);
    }
  }

  // ---- what independent moves do, path by path ----

  predicate Same(before: Files, after: Files, p: Path) {
    (p in after <==> p in before) && (p in after ==> after[p] == before[p])
  }

  predicate Moved(before: Files, after: Files, m: Move) {
    m.source in before && m.source !in after && m.target in after && after[m.target] == before[m.source]
  }

  predicate Untouched(moves: seq<Move>, p: Path) { forall i :: 0 <= i < |moves| ==> !Touches(moves[i], p) }

  lemma {:induction false} ApplyAt(files: Files, moves: seq<Move>)
    requires Independent(moves) && Possible(files, moves)
    ensures forall i :: 0 <= i < |moves| ==> Moved(files, Apply(files, moves), moves[i])
    ensures forall p :: Untouched(moves, p) ==> Same(files, Apply(files, moves), p)
    decreases |moves|
  {
    if moves != [] {
      var n := |moves| - 1;
      ApplyAt(files, moves[..n]);
      var middle, last := Apply(files, moves[..n]), moves[n];
      assert Untouched(moves[..n], last.source) && Untouched(moves[..n], last.target);
      forall i | 0 <= i < n ensures Moved(files, Apply(files, moves), moves[i]) {
        assert Moved(files, middle, moves[..n][i]);
        assert !Touches(moves[i], last.source) && !Touches(moves[i], last.target);
      }
      forall p | Untouched(moves, p) ensures Same(files, Apply(files, moves), p) {
        assert !Touches(moves[n], p);
        assert Untouched(moves[..n], p);
      }
    }
  }

  // ---- the file system ----

  class FileSystem {
    var files: Files
    var clock: nat
    // Which attempts fail, and which names a temporary directory would get.
    const fails: nat -> bool
    const names: nat -> Path

    constructor (files: Files, fails: nat -> bool, names: nat -> Path)
      ensures this.files == files && this.fails == fails && this.names == names && clock == 0
    {
      this.files, this.fails, this.names, clock := files, fails, names, 0;
    }

    // Path.replace: a rename that fails has no effect.
    method Replace(m: Move) returns (ok: bool)
      modifies this
      ensures ok <==> !fails(old(clock)) && CanRename(old(files), m)
      ensures files == if ok then Renamed(old(files), m) else old(files)
      ensures clock == old(clock) + 1
    {
      ok := !fails(clock) && CanRename(files, m);
      clock := clock + 1;
      if ok {
        files := Renamed(files, m);
      }
    }

    // _make_empty_sibling: a name nothing has, or a failure.
    method MakeEmptySibling() returns (path: Option<Path>)
      modifies this`clock
      ensures path == if fails(old(clock)) || names(old(clock)) in files then None else Some(names(old(clock)))
      ensures clock == old(clock) + 1
    {
      path := if fails(clock) || names(clock) in files then None else Some(names(clock));
      clock := clock + 1;
    }

    // A rename of the roll-back, made only where it is possible.
    method Restore(m: Move)
      modifies this`files
      ensures files == Renamed(old(files), Back(m))
    {
      if m.target in files && m.source !in files {
        files := Renamed(files, Back(m));
      }
    }

    method RemoveTree(path: Path)
      modifies this`files
      ensures files == old(files) - {path}
    {
      files := files - {path};
    }
  }

  // Rolls the promoted candidates back, newest first.
  method UndoPromoted(fs: FileSystem, ghost start: Files, promoted: seq<Move>)
    requires fs.files == Apply(start, promoted) && Possible(start, promoted)
    modifies fs`files
    ensures fs.files == start
  {
    var k := |promoted|;
    assert promoted[..k] == promoted;
    while k > 0
      invariant 0 <= k <= |promoted|
      invariant Possible(start, promoted[..k]) && fs.files == Apply(start, promoted[..k])
    {
      k := k - 1;
      assert promoted[..k + 1][..k] == promoted[..k];
      BackRestores(Apply(start, promoted[..k]), promoted[k]);
      fs.Restore(promoted[k]);
    }
  }

  // Brings the parked destinations back, oldest first.
  method UndoParked(fs: FileSystem, ghost start: Files, parked: seq<Move>)
    requires Independent(parked) && fs.files == Apply(start, parked) && Possible(start, parked)
    modifies fs`files
    ensures fs.files == start
  {
    for k := 0 to |parked|
      invariant Possible(start, parked[k..]) && fs.files == Apply(start, parked[k..])
    {
      assert parked[k..][1..] == parked[k + 1..];
      FirstLast(start, parked[k..]);
      BackRestores(Apply(start, parked[k + 1..]), parked[k]);
      fs.Restore(parked[k]);
    }
  }

  // ---- the promotion ----

  // Every destination holds its candidate, no candidate is left, and every
  // other path is as it was.
  ghost predicate Promoted(before: Files, after: Files, staged: seq<Move>) {
    (forall i :: 0 <= i < |staged| ==> Moved(before, after, staged[i]))
    && forall p :: Untouched(staged, p) ==> Same(before, after, p)
  }

  // A parked move takes a staged destination to a name nothing had.
  predicate ParksStaged(before: Files, parked: seq<Move>, staged: seq<Move>) {
    forall i :: 0 <= i < |parked| ==>
      parked[i].target !in before && Untouched(staged, parked[i].target)
      && exists j :: 0 <= j < |staged| && staged[j].target == parked[i].source
  }

  // Fresh names are never staged paths.
  ghost predicate NamesApart(fs: FileSystem, staged: seq<Move>) {
    forall t: nat :: Untouched(staged, fs.names(t))
  }

  // Nothing fails, and every fresh name is new.
  ghost predicate Calm(fs: FileSystem, before: Files, staged: seq<Move>) {
    (forall t: nat :: !fs.fails(t) && fs.names(t) !in before)
    && (forall t: nat, u: nat :: t != u ==> fs.names(t) != fs.names(u))
    && forall i :: 0 <= i < |staged| ==> staged[i].source in before
  }

  lemma {:induction false} PushIndependent(moves: seq<Move>, m: Move)
    requires Independent(moves) && m.source != m.target && Untouched(moves, m.source) && Untouched(moves, m.target)
    ensures Independent(moves + [m])
  {
  }

  lemma {:induction false} PushMove(files: Files, moves: seq<Move>, m: Move)
    requires Possible(files, moves) && CanRename(Apply(files, moves), m)
    ensures Possible(files, moves + [m]) && Apply(files, moves + [m]) == Renamed(Apply(files, moves), m)
  {
    assert (moves + [m])[..|moves|] == moves;
  }

  // A parked destination is no candidate, and no backup is a staged path.
  lemma {:induction false} ParkedApart(before: Files, parked: seq<Move>, staged: seq<Move>, p: Path)
    requires Independent(staged) && ParksStaged(before, parked, staged)
    requires forall j :: 0 <= j < |staged| ==> staged[j].target != p
    requires forall i :: 0 <= i < |parked| ==> parked[i].target != p
    ensures Untouched(parked, p)
  {
  }

  lemma {:induction false} SourceUnparked(before: Files, parked: seq<Move>, staged: seq<Move>, k: nat)
    requires Independent(staged) && ParksStaged(before, parked, staged) && k < |staged|
    ensures Untouched(parked, staged[k].source)
  {
    forall j | 0 <= j < |staged| ensures staged[j].target != staged[k].source {
      if j < k { assert !Touches(staged[j], staged[k].source); }
      if k < j { assert !Touches(staged[k], staged[j].target); }
    }
    forall i | 0 <= i < |parked| ensures parked[i].target != staged[k].source {
      assert !Touches(staged[k], parked[i].target);
    }
    ParkedApart(before, parked, staged, staged[k].source);
  }

  // The destinations parked so far are among the first k.
  predicate ParkedFrom(parked: seq<Move>, staged: seq<Move>, k: nat)
    requires k <= |staged|
  {
    forall i :: 0 <= i < |parked| ==> exists j :: 0 <= j < k && staged[j].target == parked[i].source
  }

  // Their backups carry names drawn before this instant.
  ghost predicate NamedBefore(fs: FileSystem, parked: seq<Move>, t: nat) {
    forall i :: 0 <= i < |parked| ==> exists u: nat :: u < t && parked[i].target == fs.names(u)
  }

  lemma {:induction false} ParkedFromGrows(parked: seq<Move>, more: seq<Move>, staged: seq<Move>, k: nat)
    requires k < |staged| && ParkedFrom(parked, staged, k)
    requires |more| == |parked| + 1 && more[..|parked|] == parked && more[|parked|].source == staged[k].target
    ensures ParkedFrom(more, staged, k + 1)
  {
    forall i | 0 <= i < |more| ensures exists j :: 0 <= j < k + 1 && staged[j].target == more[i].source {
      if i < |parked| {
        assert more[i] == more[..|parked|][i] == parked[i];
        var j :| 0 <= j < k && staged[j].target == parked[i].source;
      }
    }
  }

  lemma {:induction false} NamesGrow(fs: FileSystem, parked: seq<Move>, more: seq<Move>, t: nat, later: nat)
    requires NamedBefore(fs, parked, t) && t < later
    requires |more| == |parked| + 1 && more[..|parked|] == parked && more[|parked|].target == fs.names(t)
    ensures NamedBefore(fs, more, later)
  {
    forall i | 0 <= i < |more| ensures exists u: nat :: u < later && more[i].target == fs.names(u) {
      if i < |parked| {
        assert more[i] == more[..|parked|][i] == parked[i];
        var u: nat :| u < t && parked[i].target == fs.names(u);
      }
    }
  }

  lemma {:induction false} TargetUnparked(before: Files, parked: seq<Move>, staged: seq<Move>, k: nat)
    requires Independent(staged) && ParksStaged(before, parked, staged) && k < |staged| && ParkedFrom(parked, staged, k)
    ensures Untouched(parked, staged[k].target)
  {
    forall i | 0 <= i < |parked| ensures !Touches(parked[i], staged[k].target) {
      var j :| 0 <= j < k && staged[j].target == parked[i].source;
      assert !Touches(staged[j], staged[k].target);
      assert !Touches(staged[k], parked[i].target);
    }
  }

  // With names all new and different, the next one is not taken.
  lemma {:induction false} NameIsNew(fs: FileSystem, before: Files, parked: seq<Move>, staged: seq<Move>, t: nat)
    requires Independent(parked) && Possible(before, parked) && Calm(fs, before, staged) && NamesApart(fs, staged)
    requires ParksStaged(before, parked, staged) && NamedBefore(fs, parked, t)
    ensures fs.names(t) !in Apply(before, parked)
  {
    forall i | 0 <= i < |parked| ensures !Touches(parked[i], fs.names(t)) {
      var u: nat :| u < t && parked[i].target == fs.names(u);
      var j :| 0 <= j < |staged| && staged[j].target == parked[i].source;
      assert !Touches(staged[j], fs.names(t));
    }
    ApplyAt(before, parked);
    assert Untouched(parked, fs.names(t));
  }

  // Parks one existing destination.
  method ParkOne(fs: FileSystem, ghost before: Files, parked: seq<Move>, staged: seq<Move>, k: nat)
    returns (more: Option<seq<Move>>)
    requires Independent(staged) && Independent(parked) && NamesApart(fs, staged) && k < |staged|
    requires Possible(before, parked) && fs.files == Apply(before, parked) && ParksStaged(before, parked, staged)
    requires staged[k].target in fs.files && Untouched(parked, staged[k].target)
    modifies fs
    ensures more.None? ==> fs.files == old(fs.files)
    ensures more.Some? ==>
              |more.value| == |parked| + 1 && more.value[..|parked|] == parked
              && more.value[|parked|].source == staged[k].target
              && Independent(more.value) && Possible(before, more.value) && fs.files == Apply(before, more.value)
              && ParksStaged(before, more.value, staged)
              && more.value[|parked|].target == fs.names(old(fs.clock)) && staged[k].target !in fs.files
    ensures more.Some? ==>
              forall j :: 0 <= j < k && staged[j].target !in old(fs.files) ==> staged[j].target !in fs.files
    ensures fs.clock > old(fs.clock)
    ensures more.None? ==>
              fs.names(old(fs.clock)) in old(fs.files) || fs.fails(old(fs.clock)) || fs.fails(old(fs.clock) + 1)
  {
    var backup := fs.MakeEmptySibling();
    if backup.None? {
      return None;
    }
    var m := Move(staged[k].target, backup.value);
    var ok := fs.Replace(m);
    if !ok {
      return None;
    }
    ApplyAt(before, parked);
    assert Untouched(staged, m.target);
    forall i | 0 <= i < |parked| ensures !Touches(parked[i], m.target) {
      assert Moved(before, Apply(before, parked), parked[i]);
      var j :| 0 <= j < |staged| && staged[j].target == parked[i].source;
      assert !Touches(staged[j], m.target);
    }
    assert Untouched(parked, m.target) && Same(before, Apply(before, parked), m.target);
    assert !Touches(staged[k], m.target);
    forall j | 0 <= j < k && staged[j].target !in old(fs.files) ensures staged[j].target !in fs.files {
      assert !Touches(staged[j], m.target);
    }
    PushIndependent(parked, m);
    PushMove(before, parked, m);
    return Some(parked + [m]);
  }

  // A park that fails shows that not everything is calm.
  lemma {:induction false} ParkFailed(fs: FileSystem, before: Files, parked: seq<Move>, staged: seq<Move>, t: nat)
    requires Independent(parked) && Possible(before, parked) && NamesApart(fs, staged)
    requires ParksStaged(before, parked, staged) && NamedBefore(fs, parked, t)
    requires fs.names(t) in Apply(before, parked) || fs.fails(t) || fs.fails(t + 1)
    ensures !Calm(fs, before, staged)
  {
    if Calm(fs, before, staged) { NameIsNew(fs, before, parked, staged, t); }
  }

  // The first loop: every existing destination is parked.
  method ParkDestinations(fs: FileSystem, staged: seq<Move>) returns (ok: bool, parked: seq<Move>)
    requires Independent(staged) && NamesApart(fs, staged)
    modifies fs
    ensures Independent(parked) && Possible(old(fs.files), parked) && fs.files == Apply(old(fs.files), parked)
    ensures ParksStaged(old(fs.files), parked, staged)
    ensures ok ==> forall j :: 0 <= j < |staged| ==> staged[j].target !in fs.files
    ensures Calm(fs, old(fs.files), staged) ==> ok
  {
    parked := [];
    ghost var before := fs.files;
    for k := 0 to |staged|
      invariant Independent(parked) && Possible(before, parked) && fs.files == Apply(before, parked)
      invariant ParksStaged(before, parked, staged)
      invariant ParkedFrom(parked, staged, k) && NamedBefore(fs, parked, fs.clock)
      invariant forall j :: 0 <= j < k ==> staged[j].target !in fs.files
    {
      TargetUnparked(before, parked, staged, k);
      if staged[k].target in fs.files {
        ghost var t := fs.clock;
        var more := ParkOne(fs, before, parked, staged, k);
        if more.None? {
          ParkFailed(fs, before, parked, staged, t);
          return false, parked;
        }
        ParkedFromGrows(parked, more.value, staged, k);
        NamesGrow(fs, parked, more.value, t, fs.clock);
        parked := more.value;
      }
    }
    return true, parked;
  }

  lemma {:induction false} StagedCanMove(before: Files, parked: seq<Move>, start: Files, staged: seq<Move>, k: nat)
    requires Independent(staged) && Independent(parked) && Possible(before, parked) && start == Apply(before, parked)
    requires ParksStaged(before, parked, staged) && k < |staged| && staged[k].target !in start
    requires Possible(start, staged[..k])
    ensures CanRename(Apply(start, staged[..k]), staged[k]) <==> staged[k].source in before
  {
    SourceUnparked(before, parked, staged, k);
    ApplyAt(before, parked);
    ApplyAt(start, staged[..k]);
    forall i | 0 <= i < k
      ensures !Touches(staged[..k][i], staged[k].source) && !Touches(staged[..k][i], staged[k].target)
    {
      assert !Touches(staged[i], staged[k].source);
    }
    assert Untouched(staged[..k], staged[k].source) && Untouched(staged[..k], staged[k].target);
  }

  // The second loop: candidates move into place; on a failure those already
  // moved go back.
  method MoveCandidates(fs: FileSystem, ghost before: Files, ghost parked: seq<Move>, staged: seq<Move>)
    returns (ok: bool)
    requires Independent(staged) && Independent(parked) && Possible(before, parked)
    requires fs.files == Apply(before, parked) && ParksStaged(before, parked, staged)
    requires forall j :: 0 <= j < |staged| ==> staged[j].target !in fs.files
    modifies fs
    ensures ok ==> Possible(old(fs.files), staged) && fs.files == Apply(old(fs.files), staged)
    ensures !ok ==> fs.files == old(fs.files)
    ensures Calm(fs, before, staged) ==> ok
  {
    ghost var start := fs.files;
    for k := 0 to |staged|
      invariant Possible(start, staged[..k]) && fs.files == Apply(start, staged[..k])
    {
      StagedCanMove(before, parked, start, staged, k);
      var promoted := fs.Replace(staged[k]);
      if !promoted {
        UndoPromoted(fs, start, staged[..k]);
        return false;
      }
      assert staged[..k + 1][..k] == staged[..k];
    }
    assert staged[..|staged|] == staged;
    return true;
  }

  predicate Backup(parked: seq<Move>, p: Path) { exists i :: 0 <= i < |parked| && parked[i].target == p }

  method RemoveBackups(fs: FileSystem, parked: seq<Move>)
    modifies fs`files
    ensures forall p :: Backup(parked, p) ==> p !in fs.files
    ensures forall p :: !Backup(parked, p) ==> Same(old(fs.files), fs.files, p)
  {
    for k := 0 to |parked|
      invariant forall i :: 0 <= i < k ==> parked[i].target !in fs.files
      invariant forall p :: !Backup(parked, p) ==> Same(old(fs.files), fs.files, p)
    {
      fs.RemoveTree(parked[k].target);
    }
  }

  // Parking, promoting and removing the backups amounts to the promotion.
  lemma {:induction false} AmountsToPromotion(before: Files, parked: seq<Move>, staged: seq<Move>, after: Files)
    requires Independent(staged) && Independent(parked) && Possible(before, parked)
    requires ParksStaged(before, parked, staged) && Possible(Apply(before, parked), staged)
    requires forall p :: Backup(parked, p) ==> p !in after
    requires forall p :: !Backup(parked, p) ==> Same(Apply(Apply(before, parked), staged), after, p)
    ensures Promoted(before, after, staged)
  {
    var start := Apply(before, parked);
    var moved := Apply(start, staged);
    ApplyAt(before, parked);
    ApplyAt(start, staged);
    forall i | 0 <= i < |staged| ensures Moved(before, after, staged[i]) {
      SourceUnparked(before, parked, staged, i);
      assert Moved(start, moved, staged[i]);
      NotBackup(before, parked, staged, i);
    }
    forall p | Untouched(staged, p) ensures Same(before, after, p) {
      OtherPath(before, parked, staged, after, p);
    }
  }

  lemma {:induction false} NotBackup(before: Files, parked: seq<Move>, staged: seq<Move>, k: nat)
    requires ParksStaged(before, parked, staged) && k < |staged|
    ensures !Backup(parked, staged[k].source) && !Backup(parked, staged[k].target)
  {
    forall i | 0 <= i < |parked| ensures parked[i].target != staged[k].source && parked[i].target != staged[k].target {
      assert !Touches(staged[k], parked[i].target);
    }
  }

  lemma {:induction false} OtherPath(before: Files, parked: seq<Move>, staged: seq<Move>, after: Files, p: Path)
    requires Independent(staged) && Independent(parked) && Possible(before, parked)
    requires ParksStaged(before, parked, staged) && Possible(Apply(before, parked), staged) && Untouched(staged, p)
    requires Backup(parked, p) ==> p !in after
    requires !Backup(parked, p) ==> Same(Apply(Apply(before, parked), staged), after, p)
    ensures Same(before, after, p)
  {
    if !Backup(parked, p) {
      ApplyAt(before, parked);
      ApplyAt(Apply(before, parked), staged);
      forall i | 0 <= i < |parked| ensures !Touches(parked[i], p) {
        var j :| 0 <= j < |staged| && staged[j].target == parked[i].source;
        assert !Touches(staged[j], p);
      }
      assert Untouched(parked, p);
    }
  }

  // _promote_bundle.  Whatever fails, at whatever point, the files end up
  // exactly as they were; when nothing fails every destination holds its
  // candidate and neither candidates nor backups are left.
  method PromoteBundle(fs: FileSystem, staged: seq<Move>) returns (ok: bool)
    requires Independent(staged) && NamesApart(fs, staged)
    modifies fs
    ensures ok ==> Promoted(old(fs.files), fs.files, staged)
    ensures !ok ==> fs.files == old(fs.files)
    ensures Calm(fs, old(fs.files), staged) ==> ok
  {
    ghost var before := fs.files;
    var parked;
    ok, parked := ParkDestinations(fs, staged);
    if ok {
      ok := MoveCandidates(fs, before, parked, staged);
    }
    if !ok {
      UndoParked(fs, before, parked);
      return;
    }
    RemoveBackups(fs, parked);
    AmountsToPromotion(before, parked, staged, fs.files);
  }
}
