/**
 When a publication loses track of a header. The condition is stated on the schedule of failing calls
 alone: a clock that counts the calls of each loop tells which calls decide.
 */
module HeaderPublishLoss {
  import opened Wrappers
  import opened FileSystem
  import opened HeaderPublish
  import opened HeaderPublishSafety
  import opened HeaderPublishRun

  /// The clock

  // Directory made, temporary written, stale backup gone: the first three calls of the replacement that
  // starts at call `c`.
  predicate Prepared(faults: nat -> Fault, c: nat) {
    faults(c).Healthy? && faults(c + 1).Healthy? && faults(c + 2).Healthy?
  }

  // It succeeds; `present` tells whether there is an old file to move aside first.
  predicate Succeeds(faults: nat -> Fault, c: nat, present: bool) {
    Prepared(faults, c) && faults(c + 3).Healthy? && (present ==> faults(c + 4).Healthy?)
  }

  // It moves the old file aside, cannot move the new one in, and cannot move the old one back.
  predicate Stuck(faults: nat -> Fault, c: nat) {
    Prepared(faults, c) && faults(c + 3).Healthy? && !faults(c + 4).Healthy? && !faults(c + 6).Healthy?
  }

  // The first call behind it.
  function After(faults: nat -> Fault, c: nat, present: bool): nat {
    if !faults(c).Healthy? then c + 1
    else if !faults(c + 1).Healthy? then c + 2
    else if !faults(c + 2).Healthy? then c + 4
    else if !present then (if faults(c + 3).Healthy? then c + 4 else c + 5)
    else if !faults(c + 3).Healthy? then c + 5
    else if faults(c + 4).Healthy? then c + 6
    else c + 7
  }

  // The first call behind the rollback of `n` destinations that have all been replaced.
  function RollbackClock(faults: nat -> Fault, c: nat, originals: seq<Option<Bytes>>, n: nat): nat
    requires n <= |originals|
  {
    if n == 0 then c else
    var before := RollbackClock(faults, c, originals, n - 1);
    if originals[n - 1].Some? then After(faults, before, true) else before + 1
  }

  // If the replacement of destination `d` gets stuck, the call at which the rollback turns to it.
  function TurnFrom(faults: nat -> Fault, c: nat, originals: seq<Option<Bytes>>, i: nat, d: nat): Option<nat>
    requires i <= d < |originals|
    decreases d - i
  {
    var present := originals[i].Some?;
    if i == d then
      if present && Stuck(faults, c) then Some(RollbackClock(faults, After(faults, c, true), originals, d)) else None
    else if Succeeds(faults, c, present) then TurnFrom(faults, After(faults, c, present), originals, i + 1, d)
    else None
  }

  function Originals(disk: Disk, dests: seq<Path>): (originals: seq<Option<Bytes>>)
    ensures |originals| == |dests|
    ensures forall i :: 0 <= i < |dests| ==> originals[i] == Lookup(disk, dests[i])
  {
    seq(|dests|, i requires 0 <= i < |dests| => Lookup(disk, dests[i]))
  }

  // The `n` reads of the snapshot succeed.
  predicate Readable(faults: nat -> Fault, c: nat, n: nat) {
    forall k :: c <= k < c + n ==> faults(k).Healthy?
  }

  function Turn(w: World, dests: seq<Path>, d: nat): Option<nat>
    requires d < |dests|
  {
    if Readable(w.faults, w.calls, |dests|) then
      TurnFrom(w.faults, w.calls + |dests|, Originals(w.disk, dests), 0, d)
    else None
  }

  // The rollback removes the backup as stale while the destination is absent.
  predicate Exposed(faults: nat -> Fault, turn: Option<nat>) {
    turn.Some? && Prepared(faults, turn.value)
  }

  // The old bytes then do not reach the destination, ...
  predicate Unrestored(faults: nat -> Fault, turn: Option<nat>) {
    Exposed(faults, turn) && !faults(turn.value + 3).Healthy?
  }

  // ... and the temporary file, the only one that holds them, is removed.
  predicate Erased(faults: nat -> Fault, turn: Option<nat>) {
    Unrestored(faults, turn) && faults(turn.value + 4).Healthy?
  }

  /// The clock is right

  lemma ReplacementClock(w: World, pid: string, dest: Path, contents: Bytes)
    requires Publishable(dest)
    ensures var (w', r) := AtomicWrite(w, pid, dest, contents);
            && w'.faults == w.faults && w'.calls == After(w.faults, w.calls, dest in w.disk)
            && (r.Ok? <==> Succeeds(w.faults, w.calls, dest in w.disk))
            && (r == Err(ReplaceAndRestore) <==> dest in w.disk && Stuck(w.faults, w.calls))
  {
    SiblingsAreDistinct(dest, dest, pid);
    hide HeaderPublish.AtomicWrite, HeaderPublish.Temporary, HeaderPublish.Backup, Publishable;
    var temporary, backup := Temporary(dest, pid), Backup(dest, pid);
    if !Prepared(w.faults, w.calls) {
      Unprepared(w, pid, dest, contents);
    } else {
      var w3 := Ready(w, pid, dest, contents);
      if dest in w.disk {
        SwapExistingClock(w3, dest, temporary, backup);
      } else {
        MoveInClock(w3, dest, temporary);
      }
    }
  }

  predicate Alike(a: Disk, b: Disk, p: Path, q: Path) {
    Lookup(a, p) == Lookup(b, p) && Lookup(a, q) == Lookup(b, q)
  }

  ghost predicate AlwaysAlike(w: World, w': World, p: Path, q: Path) {
    && Follows(w, w') && Alike(w.disk, w'.disk, p, q)
    && forall k :: |w.images| <= k < |w'.images| ==> Alike(w.disk, w'.images[k], p, q)
  }

  // One of the three preparing calls fails: destination and backup stay as they are.
  lemma Unprepared(w: World, pid: string, dest: Path, contents: Bytes)
    requires Publishable(dest) && !Prepared(w.faults, w.calls)
    ensures var (w', r) := AtomicWrite(w, pid, dest, contents);
            && r.Err? && r.error != ReplaceAndRestore
            && w'.calls == After(w.faults, w.calls, dest in w.disk)
            && AlwaysAlike(w, w', dest, Backup(dest, pid))
  {
    SiblingsAreDistinct(dest, dest, pid);
    var temporary, backup := Temporary(dest, pid), Backup(dest, pid);
    var w1 := w.CreateDirAll().0;
    if w.faults(w.calls).Healthy? {
      var w2 := w1.Write(temporary, contents).0;
      WriteElsewhere(w1, temporary, contents, dest, backup);
      assert AtomicWrite(w, pid, dest, contents) == WriteThenSwap(w1, dest, temporary, backup, contents);
      hide HeaderPublish.AtomicWrite, HeaderPublish.Temporary, HeaderPublish.Backup, Publishable;
      if w1.faults(w1.calls).Healthy? {
        StaysStale(w2, dest, temporary, backup);
      }
    }
  }

  lemma WriteElsewhere(w: World, path: Path, contents: Bytes, p: Path, q: Path)
    requires path != p && path != q
    ensures AlwaysAlike(w, w.Write(path, contents).0, p, q)
  {
  }

  lemma StaysStale(w: World, dest: Path, temporary: Path, backup: Path)
    requires temporary != dest && temporary != backup && !w.faults(w.calls).Healthy?
    ensures AlwaysAlike(w, w.RemoveFile(backup).0.RemoveFile(temporary).0, dest, backup)
  {
  }

  // The three preparing calls have succeeded.
  lemma Ready(w: World, pid: string, dest: Path, contents: Bytes) returns (w3: World)
    requires Publishable(dest) && Prepared(w.faults, w.calls)
    ensures var temporary, backup := Temporary(dest, pid), Backup(dest, pid);
            AtomicWrite(w, pid, dest, contents) ==
            if dest in w3.disk then SwapExisting(w3, dest, temporary, backup) else MoveIn(w3, dest, temporary)
    ensures Follows(w, w3) && w3.calls == w.calls + 3
    ensures w3.disk == w.disk[Temporary(dest, pid) := contents] - {Backup(dest, pid)}
    ensures |w.images| < |w3.images| && w3.images[|w3.images| - 1] == w3.disk
  {
    SiblingsAreDistinct(dest, dest, pid);
    w3 := w.CreateDirAll().0.Write(Temporary(dest, pid), contents).0.RemoveFile(Backup(dest, pid)).0;
  }

  lemma SwapExistingClock(w: World, dest: Path, temporary: Path, backup: Path)
    requires dest != temporary && temporary != backup && dest != backup && dest in w.disk && temporary in w.disk
    ensures var (w', r) := SwapExisting(w, dest, temporary, backup);
            var f, c := w.faults, w.calls;
            && w'.faults == f
            && w'.calls == (if !f(c).Healthy? then c + 2 else if f(c + 1).Healthy? then c + 3 else c + 4)
            && (r.Ok? <==> f(c).Healthy? && f(c + 1).Healthy?)
            && (r == Err(ReplaceAndRestore) <==> f(c).Healthy? && !f(c + 1).Healthy? && !f(c + 3).Healthy?)
  {
  }

  lemma MoveInClock(w: World, dest: Path, temporary: Path)
    requires temporary in w.disk
    ensures var (w', r) := MoveIn(w, dest, temporary);
            && w'.faults == w.faults && w'.calls == w.calls + (if w.faults(w.calls).Healthy? then 1 else 2)
            && (r.Ok? <==> w.faults(w.calls).Healthy?) && r != Err(ReplaceAndRestore)
  {
  }

  lemma {:induction false} SnapshotClock(w: World, dests: seq<Path>)
    ensures var (w', r) := Snapshot(w, dests);
            && (r.Ok? <==> Readable(w.faults, w.calls, |dests|))
            && (r.Ok? ==> w'.calls == w.calls + |dests|)
  {
    SnapshotIsTheDisk(w, dests);
    if dests != [] {
      var n := |dests| - 1;
      SnapshotClock(w, dests[..n]);
      SnapshotIsTheDisk(w, dests[..n]);
    }
  }

  // Nothing that another destination's replacement touches belongs to destination `d`.
  lemma UntouchedByOthers(pid: string, dests: seq<Path>, n: nat, d: nat)
    requires n <= d < |dests| && AllPublishable(dests) && NoCollisions(dests, pid) && Distinct(dests)
    ensures Outside(dests, pid, n, dests[d]) && Outside(dests, pid, n, Backup(dests[d], pid))
    ensures Outside(dests, pid, n, Temporary(dests[d], pid))
  {
    forall i | 0 <= i < n
      ensures !Touches(dests[i], pid, dests[d]) && !Touches(dests[i], pid, Backup(dests[d], pid))
      ensures !Touches(dests[i], pid, Temporary(dests[d], pid))
    {
      SiblingsAreDistinct(dests[i], dests[d], pid);
      SiblingsAreDistinct(dests[d], dests[i], pid);
    }
  }

  /// One destination

  // Neither the destination nor one of its siblings holds the original or the new header.
  predicate Gone(image: Disk, dest: Path, pid: string, original: Option<Bytes>, contents: Bytes)
    requires Publishable(dest)
  {
    && !Recoverable(image, dest, pid, original, contents)
    && Lookup(image, Temporary(dest, pid)) !in [original, Some(contents)]
    && Lookup(image, Backup(dest, pid)) !in [original, Some(contents)]
  }

  // What becomes of a destination on the way from `w` to `w'`, where `turn` is the call at which the
  // rollback turns to it after its replacement got stuck.
  ghost predicate Fate(w: World, w': World, turn: Option<nat>, dest: Path, pid: string, original: Option<Bytes>,
                       contents: Bytes)
    requires Publishable(dest)
  {
    && Follows(w, w')
    && (AlwaysRecoverable(w, w', dest, pid, original, contents) <==> !Exposed(w.faults, turn))
    && (Recoverable(w'.disk, dest, pid, original, contents) <==> !Unrestored(w.faults, turn))
    && (Gone(w'.disk, dest, pid, original, contents) <==> Erased(w.faults, turn))
  }

  lemma FateLater(w: World, w1: World, w': World, turn: Option<nat>, dest: Path, pid: string, original: Option<Bytes>,
                  contents: Bytes)
    requires Publishable(dest) && AlwaysRecoverable(w, w1, dest, pid, original, contents)
    requires Fate(w1, w', turn, dest, pid, original, contents)
    ensures Fate(w, w', turn, dest, pid, original, contents)
  {
    hide Recoverable, Gone, Exposed, Unrestored, Erased;
    if AlwaysRecoverable(w1, w', dest, pid, original, contents) {
      Chain(w, w1, w', dest, pid, original, contents);
    } else {
      var k :| |w1.images| <= k < |w'.images| && !Recoverable(w'.images[k], dest, pid, original, contents);
    }
  }

  // The rollback of a destination whose old bytes are in its backup only.
  lemma RestoreFromBackup(w: World, dest: Path, pid: string, bytes: Bytes, contents: Bytes)
    requires Publishable(dest) && dest !in w.disk && Lookup(w.disk, Backup(dest, pid)) == Some(bytes)
    ensures Fate(w, AtomicWrite(w, pid, dest, bytes).0, Some(w.calls), dest, pid, Some(bytes), contents)
  {
    hide HeaderPublish.AtomicWrite, HeaderPublish.Temporary, HeaderPublish.Backup, Publishable;
    if Prepared(w.faults, w.calls) {
      SiblingsAreDistinct(dest, dest, pid);
      BackupGoes(w, dest, pid, bytes, contents);
    } else {
      hide Prepared;
      Unprepared(w, pid, dest, bytes);
    }
  }

  lemma BackupGoes(w: World, dest: Path, pid: string, bytes: Bytes, contents: Bytes)
    requires Publishable(dest) && dest !in w.disk && Prepared(w.faults, w.calls)
    requires dest != Temporary(dest, pid) && Temporary(dest, pid) != Backup(dest, pid) && dest != Backup(dest, pid)
    ensures Fate(w, AtomicWrite(w, pid, dest, bytes).0, Some(w.calls), dest, pid, Some(bytes), contents)
  {
    hide HeaderPublish.AtomicWrite, HeaderPublish.Temporary, HeaderPublish.Backup, Publishable, HeaderPublish.MoveIn;
    var w3 := Ready(w, pid, dest, bytes);
    LastStep(w3, dest, Temporary(dest, pid));
    var w' := AtomicWrite(w, pid, dest, bytes).0;
    assert w'.images[|w3.images| - 1] == w3.disk;
    assert !Recoverable(w3.disk, dest, pid, Some(bytes), contents);
    assert !AlwaysRecoverable(w, w', dest, pid, Some(bytes), contents);
  }

  // The absent destination gets the temporary file, or that file is removed again.
  lemma LastStep(w: World, dest: Path, temporary: Path)
    requires dest != temporary && temporary in w.disk && dest !in w.disk
    ensures var w' := MoveIn(w, dest, temporary).0;
            && Follows(w, w')
            && (Lookup(w'.disk, dest) == if w.faults(w.calls).Healthy? then Some(w.disk[temporary]) else None)
            && (!w.faults(w.calls).Healthy? ==>
                  Lookup(w'.disk, temporary) ==
                  if w.faults(w.calls + 1).Healthy? then None else Some(w.disk[temporary]))
            && (forall p :: p != dest && p != temporary ==> Lookup(w'.disk, p) == Lookup(w.disk, p))
  {
  }

  // A destination that is recoverable throughout, and was never exposed.
  lemma FateIsKind(w: World, w': World, turn: Option<nat>, dest: Path, pid: string, original: Option<Bytes>,
                   contents: Bytes)
    requires Publishable(dest) && AlwaysRecoverable(w, w', dest, pid, original, contents)
    requires Recoverable(w'.disk, dest, pid, original, contents) && turn.None?
    ensures Fate(w, w', turn, dest, pid, original, contents)
  {
  }

  /// The whole run

  // Distinct destinations, no one of them a sibling of another.
  ghost predicate Separate(dests: seq<Path>, pid: string) {
    AllPublishable(dests) && NoCollisions(dests, pid) && Distinct(dests)
  }

  lemma OneOf(dests: seq<Path>, pid: string, d: nat)
    requires d < |dests| && Separate(dests, pid)
    ensures Publishable(dests[d])
  {
  }

  // The rollback of earlier destinations leaves destination `d` alone.
  lemma RollbackLeaves(w: World, pid: string, dests: seq<Path>, originals: seq<Option<Bytes>>, n: nat, d: nat)
    requires n <= d < |dests| == |originals| && Separate(dests, pid) && Publishable(dests[d])
    ensures var w' := Rollback(w, pid, dests, originals, n).0;
            Follows(w, w') && Alike(w.disk, w'.disk, dests[d], Backup(dests[d], pid))
  {
    RollbackRestores(w, pid, dests, originals, n);
    UntouchedByOthers(pid, dests, n, d);
    hide HeaderPublish.Rollback, Outside;
  }

  // The rollback of destinations that are all present keeps the clock.
  lemma {:induction false} RollbackIsTimed(w: World, pid: string, dests: seq<Path>, originals: seq<Option<Bytes>>,
                                           n: nat)
    requires n <= |dests| == |originals| && Separate(dests, pid)
    requires forall j :: 0 <= j < n ==> dests[j] in w.disk
    ensures Rollback(w, pid, dests, originals, n).0.calls == RollbackClock(w.faults, w.calls, originals, n)
  {
    hide HeaderPublish.AtomicWrite, After, Separate, Publishable, HeaderPublish.Temporary, HeaderPublish.Backup;
    if n > 0 {
      var w1 := Rollback(w, pid, dests, originals, n - 1).0;
      OneOf(dests, pid, n - 1);
      RollbackIsTimed(w, pid, dests, originals, n - 1);
      RollbackLeaves(w, pid, dests, originals, n - 1, n - 1);
      match originals[n - 1]
      case Some(bytes) => ReplacementClock(w1, pid, dests[n - 1], bytes);
      case None =>
    }
  }

  // From a stuck replacement of destination `d` on.
  lemma RollbackFate(w: World, pid: string, dests: seq<Path>, originals: seq<Option<Bytes>>, contents: Bytes, d: nat)
    requires d < |dests| == |originals| && originals[d].Some? && Separate(dests, pid) && Publishable(dests[d])
    requires forall j :: 0 <= j < d ==> dests[j] in w.disk
    requires dests[d] !in w.disk && Lookup(w.disk, Backup(dests[d], pid)) == originals[d]
    ensures Fate(w, Rollback(w, pid, dests, originals, d + 1).0, Some(RollbackClock(w.faults, w.calls, originals, d)),
                 dests[d], pid, originals[d], contents)
  {
    var w1 := Rollback(w, pid, dests, originals, d).0;
    RollbackIsTimed(w, pid, dests, originals, d);
    RollbackLeaves(w, pid, dests, originals, d, d);
    hide HeaderPublish.AtomicWrite, Fate, RollbackClock, Separate, Publishable, HeaderPublish.Temporary,
         HeaderPublish.Backup, AlwaysRecoverable;
    RestoreFromBackup(w1, dests[d], pid, originals[d].value, contents);
    assert AlwaysRecoverable(w, w1, dests[d], pid, originals[d], contents) by {
      RollbackImages(w, pid, dests, originals, contents, d, d);
    }
    FateLater(w, w1, AtomicWrite(w1, pid, dests[d], originals[d].value).0,
              Some(RollbackClock(w.faults, w.calls, originals, d)), dests[d], pid, originals[d], contents);
  }

  lemma SolidIsUnharmed(w: World, pid: string, dests: seq<Path>, originals: seq<Option<Bytes>>, contents: Bytes,
                        n: nat, d: nat)
    requires n <= |dests| == |originals| && d < |dests| && Separate(dests, pid) && Publishable(dests[d])
    requires Solid(w.disk, dests[d], originals[d], contents)
    ensures Fate(w, Rollback(w, pid, dests, originals, n).0, None, dests[d], pid, originals[d], contents)
  {
    hide HeaderPublish.Rollback, AllPublishable, NoCollisions, Distinct, Publishable, Solid, AlwaysRecoverable, Fate;
    SolidIsRecoverable(w.disk, dests[d], pid, originals[d], contents);
    RollbackImages(w, pid, dests, originals, contents, n, d);
    FateIsKind(w, Rollback(w, pid, dests, originals, n).0, None, dests[d], pid, originals[d], contents);
  }

  // A destination that the loop has passed, or whose replacement failed without getting stuck, is safe.
  lemma {:induction false} PassedIsSafe(w: World, pid: string, dests: seq<Path>, originals: seq<Option<Bytes>>,
                                        contents: Bytes, i: nat, d: nat)
    requires d < i <= |dests| == |originals| && Separate(dests, pid) && Publishable(dests[d])
    requires Solid(w.disk, dests[d], originals[d], contents)
    ensures Fate(w, PublishFrom(w, pid, dests, originals, contents, i).0, None, dests[d], pid, originals[d], contents)
    decreases |dests| - i
  {
    hide HeaderPublish.AtomicWrite, HeaderPublish.Rollback, AllPublishable, NoCollisions, Distinct, Publishable, Solid;
    if i < |dests| {
      hide Fate;
      var (w1, r) := AtomicWrite(w, pid, dests[i], contents);
      ForwardStep(w, pid, dests, contents, i, d, originals[d]);
      if r.Ok? {
        PassedIsSafe(w1, pid, dests, originals, contents, i + 1, d);
      } else {
        SolidIsUnharmed(w1, pid, dests, originals, contents, i + 1, d);
      }
      FateLater(w, w1, PublishFrom(w, pid, dests, originals, contents, i).0, None, dests[d], pid, originals[d],
                contents);
    } else {
      SolidIsRecoverable(w.disk, dests[d], pid, originals[d], contents);
    }
  }

  lemma SolidIsRecoverable(image: Disk, dest: Path, pid: string, original: Option<Bytes>, contents: Bytes)
    requires Publishable(dest) && Solid(image, dest, original, contents)
    ensures Recoverable(image, dest, pid, original, contents)
  {
  }

  // The loop has come to destination `i`: the earlier ones are there, the others as they were.
  ghost predicate CameTo(disk: Disk, dests: seq<Path>, originals: seq<Option<Bytes>>, i: nat)
    requires i <= |dests| == |originals|
  {
    && (forall j :: 0 <= j < i ==> dests[j] in disk)
    && forall j :: i <= j < |dests| ==> Lookup(disk, dests[j]) == originals[j]
  }

  lemma ComesToNext(w: World, pid: string, dests: seq<Path>, originals: seq<Option<Bytes>>, contents: Bytes, i: nat)
    requires i < |dests| == |originals| && Separate(dests, pid) && CameTo(w.disk, dests, originals, i)
    ensures var (w1, r) := AtomicWrite(w, pid, dests[i], contents);
            && (r.Ok? ==> CameTo(w1.disk, dests, originals, i + 1))
            && (forall j :: 0 <= j < i ==> dests[j] in w1.disk)
  {
    AtomicWriteOutcome(w, pid, dests[i], contents);
    hide HeaderPublish.AtomicWrite;
    forall j | 0 <= j < |dests| && j != i ensures !Touches(dests[i], pid, dests[j]) {
    }
  }

  lemma NextTurn(w: World, pid: string, dests: seq<Path>, originals: seq<Option<Bytes>>, contents: Bytes, i: nat)
    requires i < |dests| == |originals|
    ensures var (w1, r) := AtomicWrite(w, pid, dests[i], contents);
            PublishFrom(w, pid, dests, originals, contents, i).0 ==
            if r.Ok? then PublishFrom(w1, pid, dests, originals, contents, i + 1).0
            else Rollback(w1, pid, dests, originals, i + 1).0
  {
    hide HeaderPublish.AtomicWrite, HeaderPublish.Rollback;
  }

  lemma OwnReplacementIsTimed(w: World, pid: string, dests: seq<Path>, originals: seq<Option<Bytes>>, contents: Bytes,
                              d: nat)
    requires d < |dests| == |originals| && Publishable(dests[d]) && CameTo(w.disk, dests, originals, d)
    ensures var (w1, r) := AtomicWrite(w, pid, dests[d], contents);
            var turn := TurnFrom(w.faults, w.calls, originals, d, d);
            && w1.faults == w.faults && (r == Err(ReplaceAndRestore) <==> turn.Some?)
            && (turn.Some? ==>
                  && turn.value == RollbackClock(w.faults, w1.calls, originals, d) && originals[d].Some?
                  && dests[d] !in w1.disk && Lookup(w1.disk, Backup(dests[d], pid)) == originals[d])
  {
    ReplacementClock(w, pid, dests[d], contents);
    AtomicWriteOutcome(w, pid, dests[d], contents);
    hide HeaderPublish.AtomicWrite, Publishable, RollbackClock, After, Stuck, Succeeds, HeaderPublish.Backup, Touches;
  }

  // The replacement of destination `d` itself.
  lemma OwnTurn(w: World, pid: string, dests: seq<Path>, originals: seq<Option<Bytes>>, contents: Bytes, d: nat)
    requires d < |dests| == |originals| && Separate(dests, pid) && Publishable(dests[d])
    requires CameTo(w.disk, dests, originals, d) && Solid(w.disk, dests[d], originals[d], contents)
    ensures Fate(w, PublishFrom(w, pid, dests, originals, contents, d).0,
                 TurnFrom(w.faults, w.calls, originals, d, d), dests[d], pid, originals[d], contents)
  {
    hide *;
    var (w1, r) := AtomicWrite(w, pid, dests[d], contents);
    NextTurn(w, pid, dests, originals, contents, d);
    OwnReplacementIsTimed(w, pid, dests, originals, contents, d);
    ComesToNext(w, pid, dests, originals, contents, d);
    SeparateMeans(dests, pid);
    ForwardStep(w, pid, dests, contents, d, d, originals[d]);
    if r.Ok? {
      PassedIsSafe(w1, pid, dests, originals, contents, d + 1, d);
    } else if r.error == ReplaceAndRestore {
      RollbackFate(w1, pid, dests, originals, contents, d);
    } else {
      SolidIsUnharmed(w1, pid, dests, originals, contents, d + 1, d);
    }
    FateLater(w, w1, PublishFrom(w, pid, dests, originals, contents, d).0,
              TurnFrom(w.faults, w.calls, originals, d, d), dests[d], pid, originals[d], contents);
  }

  lemma SeparateMeans(dests: seq<Path>, pid: string)
    requires Separate(dests, pid)
    ensures AllPublishable(dests) && NoCollisions(dests, pid) && Distinct(dests)
  {
  }

  lemma EarlierReplacementIsTimed(w: World, pid: string, dests: seq<Path>, originals: seq<Option<Bytes>>,
                                  contents: Bytes, i: nat, d: nat)
    requires i < d < |dests| == |originals| && Publishable(dests[i]) && CameTo(w.disk, dests, originals, i)
    ensures var (w1, r) := AtomicWrite(w, pid, dests[i], contents);
            && w1.faults == w.faults
            && (r.Err? ==> r.error != ReplaceAndRestore || i != d)
            && (TurnFrom(w.faults, w.calls, originals, i, d) ==
                if r.Ok? then TurnFrom(w1.faults, w1.calls, originals, i + 1, d) else None)
  {
    ReplacementClock(w, pid, dests[i], contents);
    hide HeaderPublish.AtomicWrite, Publishable, RollbackClock, After, Stuck, Succeeds;
  }

  lemma CameToIsSolid(disk: Disk, dests: seq<Path>, originals: seq<Option<Bytes>>, contents: Bytes, i: nat, d: nat)
    requires i <= d < |dests| == |originals| && CameTo(disk, dests, originals, i)
    ensures Solid(disk, dests[d], originals[d], contents)
  {
  }

  lemma {:induction false} PublishFromFate(w: World, pid: string, dests: seq<Path>, originals: seq<Option<Bytes>>,
                                           contents: Bytes, i: nat, d: nat)
    requires i <= d < |dests| == |originals| && Separate(dests, pid) && Publishable(dests[d])
    requires CameTo(w.disk, dests, originals, i)
    ensures Fate(w, PublishFrom(w, pid, dests, originals, contents, i).0,
                 TurnFrom(w.faults, w.calls, originals, i, d), dests[d], pid, originals[d], contents)
    decreases d - i
  {
    hide *;
    CameToIsSolid(w.disk, dests, originals, contents, i, d);
    if i == d {
      OwnTurn(w, pid, dests, originals, contents, d);
    } else {
      OneOf(dests, pid, i);
      var (w1, r) := AtomicWrite(w, pid, dests[i], contents);
      NextTurn(w, pid, dests, originals, contents, i);
      EarlierReplacementIsTimed(w, pid, dests, originals, contents, i, d);
      ComesToNext(w, pid, dests, originals, contents, i);
      SeparateMeans(dests, pid);
      ForwardStep(w, pid, dests, contents, i, d, originals[d]);
      if r.Ok? {
        PublishFromFate(w1, pid, dests, originals, contents, i + 1, d);
      } else {
        SolidIsUnharmed(w1, pid, dests, originals, contents, i + 1, d);
      }
      FateLater(w, w1, PublishFrom(w, pid, dests, originals, contents, i).0,
                TurnFrom(w.faults, w.calls, originals, i, d), dests[d], pid, originals[d], contents);
    }
  }

  lemma ReadingIsHarmless(w: World, pid: string, dests: seq<Path>, contents: Bytes, d: nat)
    requires d < |dests| && Publishable(dests[d])
    ensures var (w1, r) := Snapshot(w, dests);
            && w1.faults == w.faults && (r.Ok? <==> Readable(w.faults, w.calls, |dests|))
            && AlwaysRecoverable(w, w1, dests[d], pid, Lookup(w.disk, dests[d]), contents)
            && Recoverable(w1.disk, dests[d], pid, Lookup(w.disk, dests[d]), contents)
            && (r.Ok? ==> w1.calls == w.calls + |dests| && r.value == Originals(w.disk, dests))
            && (r.Ok? ==> CameTo(w1.disk, dests, Originals(w.disk, dests), 0))
  {
    hide HeaderPublish.Snapshot;
    SnapshotIsTheDisk(w, dests);
    SnapshotClock(w, dests);
  }

  lemma FirstRead(w: World, pid: string, dests: seq<Path>, contents: Bytes, d: nat)
    requires d < |dests|
    ensures var (w1, r) := Snapshot(w, dests);
            && (r.Ok? ==> |r.value| == |dests|)
            && (Publish(w, pid, dests, contents).0 ==
                if r.Ok? then PublishFrom(w1, pid, dests, r.value, contents, 0).0 else w1)
            && (Turn(w, dests, d) ==
                if Readable(w.faults, w.calls, |dests|)
                then TurnFrom(w.faults, w.calls + |dests|, Originals(w.disk, dests), 0, d) else None)
  {
    hide HeaderPublish.Snapshot, HeaderPublish.PublishFrom;
    SnapshotIsTheDisk(w, dests);
  }

  lemma PublishFate(w: World, pid: string, dests: seq<Path>, contents: Bytes, d: nat)
    requires d < |dests| && Separate(dests, pid) && Publishable(dests[d])
    ensures Fate(w, Publish(w, pid, dests, contents).0, Turn(w, dests, d), dests[d], pid, Lookup(w.disk, dests[d]),
                 contents)
  {
    hide *;
    ReadingIsHarmless(w, pid, dests, contents, d);
    FirstRead(w, pid, dests, contents, d);
    var (w1, snapshot) := Snapshot(w, dests);
    var was := Lookup(w.disk, dests[d]);
    if snapshot.Ok? {
      PublishFromFate(w1, pid, dests, snapshot.value, contents, 0, d);
      FateLater(w, w1, Publish(w, pid, dests, contents).0, Turn(w, dests, d), dests[d], pid, was, contents);
    } else {
      FateIsKind(w, w1, None, dests[d], pid, was, contents);
    }
  }

  // A crash at any moment of the whole run, rollback included, leaves the destination holding the original
  // or the new header, or absent with one of them in its backup, exactly if the rollback never removes the
  // backup of a replacement that got stuck. The run ends so exactly if the old header then still gets
  // back, and no copy is left exactly if its temporary file is removed as well.
  lemma PublishIsCrashSafe(w: World, pid: string, dests: seq<Path>, contents: Bytes, d: nat)
    requires d < |dests| && AllPublishable(dests) && NoCollisions(dests, pid) && Distinct(dests)
    ensures var w' := Publish(w, pid, dests, contents).0;
            var was, turn := Lookup(w.disk, dests[d]), Turn(w, dests, d);
            && Follows(w, w')
            && (AlwaysRecoverable(w, w', dests[d], pid, was, contents) <==> !Exposed(w.faults, turn))
            && (Recoverable(w'.disk, dests[d], pid, was, contents) <==> !Unrestored(w.faults, turn))
            && (Gone(w'.disk, dests[d], pid, was, contents) <==> Erased(w.faults, turn))
  {
    PublishFate(w, pid, dests, contents, d);
    hide HeaderPublish.Publish, Turn, AlwaysRecoverable, Recoverable, Gone, Exposed, Unrestored, Erased, Publishable;
  }

  /// Concrete runs

  const HEADER := Path(false, ["include", "liter_llm.h"])

  function FailsAt(failing: set<nat>): nat -> Fault {
    call => if call in failing then Refused else Healthy
  }

  // One header, present before; its replacement and the restoration fail (calls 5 and 7).
  lemma HeaderTurn(failing: set<nat>, before: Bytes)
    requires failing !! {0, 1, 2, 3, 4} && 5 in failing && 7 in failing
    ensures Turn(World(FailsAt(failing), map[HEADER := before], 0, []), [HEADER], 0) == Some(8)
  {
  }

  // If nothing else fails, the run ends with the header recoverable, but a crash behind call 10 finds neither
  // header nor backup. If call 8 fails as well, one of them is there at any time.
  lemma TwoFailingRenamesExposeTheHeader(before: Bytes, contents: Bytes)
    ensures var w := World(FailsAt({5, 7}), map[HEADER := before], 0, []);
            var w' := Publish(w, "1", [HEADER], contents).0;
            && !AlwaysRecoverable(w, w', HEADER, "1", Some(before), contents)
            && Recoverable(w'.disk, HEADER, "1", Some(before), contents)
    ensures var w := World(FailsAt({5, 7, 8}), map[HEADER := before], 0, []);
            AlwaysRecoverable(w, Publish(w, "1", [HEADER], contents).0, HEADER, "1", Some(before), contents)
  {
    hide *;
    OneHeader({5, 7}, before, contents);
    OneHeader({5, 7, 8}, before, contents);
  }

  lemma OneHeader(failing: set<nat>, before: Bytes, contents: Bytes)
    requires failing !! {0, 1, 2, 3, 4} && 5 in failing && 7 in failing
    ensures var w := World(FailsAt(failing), map[HEADER := before], 0, []);
            var w' := Publish(w, "1", [HEADER], contents).0;
            && (AlwaysRecoverable(w, w', HEADER, "1", Some(before), contents) <==> !(failing !! {8, 9, 10}))
            && (failing !! {11} ==> Recoverable(w'.disk, HEADER, "1", Some(before), contents))
  {
    var w := World(FailsAt(failing), map[HEADER := before], 0, []);
    OneDestination(w, before, contents);
    HeaderTurn(failing, before);
    hide HeaderPublish.Publish, AlwaysRecoverable, Recoverable, Turn;
  }

  lemma OneDestination(w: World, before: Bytes, contents: Bytes)
    requires w.disk == map[HEADER := before]
    ensures var w' := Publish(w, "1", [HEADER], contents).0;
            var turn := Turn(w, [HEADER], 0);
            && (AlwaysRecoverable(w, w', HEADER, "1", Some(before), contents) <==> !Exposed(w.faults, turn))
            && (Recoverable(w'.disk, HEADER, "1", Some(before), contents) <==> !Unrestored(w.faults, turn))
  {
    SiblingsAreDistinct(HEADER, HEADER, "1");
    PublishIsCrashSafe(w, "1", [HEADER], contents, 0);
    assert [HEADER][0] == HEADER;
    hide HeaderPublish.Publish, AlwaysRecoverable, Recoverable, Turn;
  }

  // Three failing renames: the replacement, its restoration, and the replacement made by rollback.
  const THREE_RENAMES_FAIL: nat -> Fault := FailsAt({5, 7, 11})

  // Calls 1 to 4 of the publication: the new header is written and the old one set aside.
  lemma ReplacementStarts(before: Bytes, contents: Bytes, images: seq<Disk>) returns (w2: World)
    ensures var w := World(THREE_RENAMES_FAIL, map[HEADER := before], 1, images);
            AtomicWrite(w, "1", HEADER, contents)
              == SwapExisting(w2, HEADER, Temporary(HEADER, "1"), Backup(HEADER, "1"))
    ensures w2.faults == THREE_RENAMES_FAIL && w2.calls == 4
    ensures w2.disk == map[HEADER := before, Temporary(HEADER, "1") := contents]
  {
    SiblingsAreDistinct(HEADER, HEADER, "1");
    var w := World(THREE_RENAMES_FAIL, map[HEADER := before], 1, images);
    var w1 := w.CreateDirAll().0.Write(Temporary(HEADER, "1"), contents).0;
    w2 := w1.RemoveFile(Backup(HEADER, "1")).0;
  }

  // Calls 5 to 7: the old header ends up in the backup, the new one nowhere.
  lemma ReplacementIsStuck(before: Bytes, contents: Bytes, images: seq<Disk>)
    ensures var (w', r) := AtomicWrite(World(THREE_RENAMES_FAIL, map[HEADER := before], 1, images), "1", HEADER,
                                       contents);
            && r == Err(ReplaceAndRestore) && w'.calls == 8 && w'.faults == THREE_RENAMES_FAIL
            && w'.disk == map[Backup(HEADER, "1") := before]
  {
    hide HeaderPublish.AtomicWrite;
    SiblingsAreDistinct(HEADER, HEADER, "1");
    var temporary, backup := Temporary(HEADER, "1"), Backup(HEADER, "1");
    var w2 := ReplacementStarts(before, contents, images);
    hide HeaderPublish.Temporary, HeaderPublish.Backup;
    var w3 := w2.Rename(HEADER, backup).0;
    assert w3.disk == map[backup := before, temporary := contents] && w3.calls == 5;
    var w5 := w3.Rename(temporary, HEADER).0.RemoveFile(temporary).0;
    assert w5.disk == map[backup := before] && w5.calls == 7;
  }

  // Calls 8 to 12, the rollback: the backup is removed as stale and its replacement fails too.
  lemma RestorationIsStuck(before: Bytes, images: seq<Disk>)
    ensures var (w', r) := AtomicWrite(World(THREE_RENAMES_FAIL, map[Backup(HEADER, "1") := before], 8, images), "1",
                                       HEADER, before);
            r == Err(Replace) && w'.disk == map[]
  {
    SiblingsAreDistinct(HEADER, HEADER, "1");
    var temporary, backup := Temporary(HEADER, "1"), Backup(HEADER, "1");
    var w := World(THREE_RENAMES_FAIL, map[backup := before], 8, images);
    var w2 := w.CreateDirAll().0.Write(temporary, before).0;
    var w3 := w2.RemoveFile(backup).0;
    assert w3.disk == map[temporary := before] && w3.calls == 11;
    var w5 := w3.Rename(temporary, HEADER).0.RemoveFile(temporary).0;
    assert w5.disk == map[];
  }

  // The rollback deletes the backup as stale before it tries to put the old header back, so that
  // these three failures leave no copy of the old header, nor of the new one, anywhere.
  lemma RollbackCanLoseTheHeader(before: Bytes, contents: Bytes)
    ensures var (w', r) := Publish(World(THREE_RENAMES_FAIL, map[HEADER := before], 0, []), "1", [HEADER], contents);
            && w'.disk == map[]
            && r == Err(PublishFailed(HEADER, ReplaceAndRestore, [RestoreFailed(HEADER, Some(Replace))]))
  {
    hide HeaderPublish.AtomicWrite;
    var w := World(THREE_RENAMES_FAIL, map[HEADER := before], 0, []);
    SnapshotIsTheDisk(w, [HEADER]);
    var (w1, snapshot) := Snapshot(w, [HEADER]);
    assert [HEADER][..0] == [];
    assert Snapshot(w, []) == (w, Ok([]));
    assert w1.calls == 1 && snapshot.value == [Some(before)];
    ReplacementIsStuck(before, contents, w1.images);
    var w2 := AtomicWrite(w1, "1", HEADER, contents).0;
    RestorationIsStuck(before, w2.images);
    assert Rollback(w2, "1", [HEADER], [Some(before)], 0) == (w2, []);
    assert Rollback(w2, "1", [HEADER], [Some(before)], 1).1 == [RestoreFailed(HEADER, Some(Replace))];
  }
}
