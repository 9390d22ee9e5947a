/**
 Which files a replacement and a publication leave behind, the siblings of the destinations included, and
 which error they report.
 */
module HeaderPublishFiles {
  import opened Wrappers
  import opened FileSystem
  import opened HeaderPublish
  import opened HeaderPublishSafety
  import HeaderPublishLoss

  /// One replacement

  // What is reported, by the first calls that fail. The replacement starts at call `c`.
  function Reported(f: nat -> Fault, c: nat, present: bool): Result<(), WriteError> {
    if !f(c).Healthy? then Err(CreateParent)
    else if !f(c + 1).Healthy? then Err(WriteTemporary)
    else if !f(c + 2).Healthy? then Err(RemoveStaleBackup)
    else if !present then (if f(c + 3).Healthy? then Ok(()) else Err(Replace))
    else if !f(c + 3).Healthy? then Err(StageExisting)
    else if f(c + 4).Healthy? then Ok(())
    else if f(c + 6).Healthy? then Err(Replace)
    else Err(ReplaceAndRestore)
  }

  // What a write that suffers `fault` leaves in a file that held `was`.
  function Stored(fault: Fault, was: Option<Bytes>, contents: Bytes): Option<Bytes> {
    match fault
    case Healthy => Some(contents)
    case Refused => was
    case Torn(n) => Some(contents[..if n < |contents| then n else |contents|])
  }

  // After success the destination holds the new bytes and nothing stands beside it, but for the old bytes in
  // the backup if the last call, which removes it, fails. After a failure the destination holds what it
  // held, or the backup does; a temporary file stays if its removal fails, or the write of it broke off.
  lemma ReplacementLeaves(w: World, pid: string, dest: Path, contents: Bytes)
    requires Publishable(dest)
    ensures var (w', r) := AtomicWrite(w, pid, dest, contents);
            var temporary, backup := Temporary(dest, pid), Backup(dest, pid);
            var f, c, last := w.faults, w.calls, w'.calls - 1;
            && r == Reported(f, c, dest in w.disk) && w'.calls > c && w'.faults == f
            && (r.Ok? ==>
                  && Lookup(w'.disk, dest) == Some(contents) && temporary !in w'.disk
                  && (Lookup(w'.disk, backup) ==
                      if dest !in w.disk || f(last).Healthy? then None else Some(w.disk[dest])))
            && (r.Err? ==> Lookup(w'.disk, dest) == if r.error == ReplaceAndRestore then None else Lookup(w.disk, dest))
            && (r.Err? && r.error in {CreateParent, WriteTemporary, RemoveStaleBackup} ==>
                  Lookup(w'.disk, backup) == Lookup(w.disk, backup))
            && (r.Err? && r.error in {StageExisting, Replace} ==> backup !in w'.disk)
            && (r == Err(ReplaceAndRestore) ==> Lookup(w'.disk, backup) == Lookup(w.disk, dest))
            && (r == Err(CreateParent) ==> Lookup(w'.disk, temporary) == Lookup(w.disk, temporary))
            && (r == Err(WriteTemporary) ==>
                  Lookup(w'.disk, temporary) == Stored(f(c + 1), Lookup(w.disk, temporary), contents))
            && (r.Err? && r.error !in {CreateParent, WriteTemporary} ==>
                  var removal := if dest in w.disk && r.error in {Replace, ReplaceAndRestore} then c + 5 else last;
                  Lookup(w'.disk, temporary) == if f(removal).Healthy? then None else Some(contents))
            && (forall p :: !Touches(dest, pid, p) ==> Lookup(w'.disk, p) == Lookup(w.disk, p))
  {
    hide HeaderPublish.AtomicWrite, HeaderPublish.Temporary, HeaderPublish.Backup, Publishable, AfterWriting;
    SiblingsAreDistinct(dest, dest, pid);
    if w.faults(w.calls).Healthy? && w.faults(w.calls + 1).Healthy? {
      var w2 := Written(w, pid, dest, contents);
      StaleGoesFirst(w2, dest, Temporary(dest, pid), Backup(dest, pid));
    } else {
      NotWritten(w, pid, dest, contents);
    }
  }

  lemma Written(w: World, pid: string, dest: Path, contents: Bytes) returns (w2: World)
    requires Publishable(dest) && w.faults(w.calls).Healthy? && w.faults(w.calls + 1).Healthy?
    ensures AtomicWrite(w, pid, dest, contents) == AfterWriting(w2, dest, Temporary(dest, pid), Backup(dest, pid))
    ensures w2.faults == w.faults && w2.calls == w.calls + 2 && w2.disk == w.disk[Temporary(dest, pid) := contents]
  {
    w2 := w.CreateDirAll().0.Write(Temporary(dest, pid), contents).0;
    hide HeaderPublish.Temporary, HeaderPublish.Backup, HeaderPublish.SwapExisting, HeaderPublish.MoveIn;
  }

  lemma NotWritten(w: World, pid: string, dest: Path, contents: Bytes)
    requires Publishable(dest) && !(w.faults(w.calls).Healthy? && w.faults(w.calls + 1).Healthy?)
    ensures var (w', r) := AtomicWrite(w, pid, dest, contents);
            var f, c, temporary := w.faults, w.calls, Temporary(dest, pid);
            && w'.faults == f && w'.calls > c
            && r == Err(if f(c).Healthy? then WriteTemporary else CreateParent)
            && (forall p :: p != temporary ==> Lookup(w'.disk, p) == Lookup(w.disk, p))
            && (Lookup(w'.disk, temporary) ==
                if f(c).Healthy? then Stored(f(c + 1), Lookup(w.disk, temporary), contents)
                else Lookup(w.disk, temporary))
  {
    hide HeaderPublish.Temporary, HeaderPublish.Backup, HeaderPublish.SwapExisting, HeaderPublish.MoveIn;
  }

  // The backup is removed, if it is there, and then the temporary file gets into place.
  lemma StaleGoesFirst(w: World, dest: Path, temporary: Path, backup: Path)
    requires dest != temporary && temporary != backup && dest != backup && temporary in w.disk
    ensures var contents := w.disk[temporary];
            var (w', r) := AfterWriting(w, dest, temporary, backup);
            var f, k, last, present := w.faults, w.calls, w'.calls - 1, dest in w.disk;
            && w'.calls > k && w'.faults == f
            && (r == if !f(k).Healthy? then Err(RemoveStaleBackup)
                     else if !present then (if f(k + 1).Healthy? then Ok(()) else Err(Replace))
                     else if !f(k + 1).Healthy? then Err(StageExisting)
                     else if f(k + 2).Healthy? then Ok(())
                     else if f(k + 4).Healthy? then Err(Replace) else Err(ReplaceAndRestore))
            && (r.Ok? ==>
                  && Lookup(w'.disk, dest) == Some(contents) && temporary !in w'.disk
                  && (Lookup(w'.disk, backup) == if !present || f(last).Healthy? then None else Some(w.disk[dest])))
            && (r.Err? ==> Lookup(w'.disk, dest) == if r.error == ReplaceAndRestore then None else Lookup(w.disk, dest))
            && (r == Err(RemoveStaleBackup) ==> Lookup(w'.disk, backup) == Lookup(w.disk, backup))
            && (r.Err? && r.error in {StageExisting, Replace} ==> backup !in w'.disk)
            && (r == Err(ReplaceAndRestore) ==> Lookup(w'.disk, backup) == Lookup(w.disk, dest))
            && (r.Err? ==>
                  var removal := if present && r.error in {Replace, ReplaceAndRestore} then k + 3 else last;
                  Lookup(w'.disk, temporary) == if f(removal).Healthy? then None else Some(contents))
            && (forall p :: p != dest && p != temporary && p != backup ==> Lookup(w'.disk, p) == Lookup(w.disk, p))
  {
    var (w1, stale) := w.RemoveFile(backup);
    if !stale.Failed? {
      if dest in w.disk {
        SwapLeaves(w1, dest, temporary, backup);
      } else {
        MoveInLeaves(w1, dest, temporary);
      }
      hide HeaderPublish.SwapExisting, HeaderPublish.MoveIn;
    }
  }

  // The part of a replacement behind the write of the temporary file.
  function AfterWriting(w: World, dest: Path, temporary: Path, backup: Path): (World, Result<(), WriteError>) {
    var (w2, stale) := w.RemoveFile(backup);
    if stale.Failed? then (w2.RemoveFile(temporary).0, Err(RemoveStaleBackup))
    else if dest in w2.disk then SwapExisting(w2, dest, temporary, backup)
    else MoveIn(w2, dest, temporary)
  }

  lemma SwapLeaves(w: World, dest: Path, temporary: Path, backup: Path)
    requires dest != temporary && temporary != backup && dest != backup
    requires temporary in w.disk && dest in w.disk && backup !in w.disk
    ensures var was, contents := Some(w.disk[dest]), Some(w.disk[temporary]);
            var (w', r) := SwapExisting(w, dest, temporary, backup);
            var f, k, disk := w.faults, w.calls, w'.disk;
            var left := if f(if f(k).Healthy? then k + 2 else k + 1).Healthy? then None else contents;
            && w'.faults == f
            && if !f(k).Healthy? then
                 && r == Err(StageExisting) && w'.calls == k + 2
                 && Lookup(disk, dest) == was && backup !in disk && Lookup(disk, temporary) == left
               else if f(k + 1).Healthy? then
                 && r == Ok(()) && w'.calls == k + 3 && Lookup(disk, dest) == contents && temporary !in disk
                 && (Lookup(disk, backup) == if f(k + 2).Healthy? then None else was)
               else if f(k + 3).Healthy? then
                 && r == Err(Replace) && w'.calls == k + 4
                 && Lookup(disk, dest) == was && backup !in disk && Lookup(disk, temporary) == left
               else
                 && r == Err(ReplaceAndRestore) && w'.calls == k + 4
                 && dest !in disk && Lookup(disk, backup) == was && Lookup(disk, temporary) == left
    ensures var disk := SwapExisting(w, dest, temporary, backup).0.disk;
            forall p :: p != dest && p != temporary && p != backup ==> Lookup(disk, p) == Lookup(w.disk, p)
  {
  }

  lemma MoveInLeaves(w: World, dest: Path, temporary: Path)
    requires dest != temporary && temporary in w.disk && dest !in w.disk
    ensures var contents := Some(w.disk[temporary]);
            var (w', r) := MoveIn(w, dest, temporary);
            var f, k := w.faults, w.calls;
            && w'.faults == f
            && (forall p :: p != dest && p != temporary ==> Lookup(w'.disk, p) == Lookup(w.disk, p))
            && if f(k).Healthy? then
                 r == Ok(()) && w'.calls == k + 1 && Lookup(w'.disk, dest) == contents && temporary !in w'.disk
               else
                 && r == Err(Replace) && w'.calls == k + 2 && dest !in w'.disk
                 && (Lookup(w'.disk, temporary) == if f(k + 1).Healthy? then None else contents)
  {
  }

  // Both siblings stand in the directory of the destination, under its name with a suffix. A path has them
  // exactly if it ends in a name.
  lemma SiblingNames(dest: Path, pid: string)
    ensures Publishable(dest) <==> dest.components != [] && dest.components[|dest.components| - 1] !in [".", ".."]
    ensures Publishable(dest) ==>
      var dir, name := dest.components[..|dest.components| - 1], dest.components[|dest.components| - 1];
      && Temporary(dest, pid) == Path(dest.absolute, dir + [name + (".alef-tmp-" + pid)])
      && Backup(dest, pid) == Path(dest.absolute, dir + [name + (".alef-backup-" + pid)])
  {
  }

  // A path without a parent is refused before any call, one without a name behind the first.
  lemma UnpublishableIsRefused(w: World, pid: string, dest: Path, contents: Bytes)
    requires !Publishable(dest)
    ensures var (w', r) := AtomicWrite(w, pid, dest, contents);
            && w'.disk == w.disk
            && if dest.components == [] then r == Err(NoParent) && w' == w
               else w'.calls == w.calls + 1
                    && r == Err(if w.faults(w.calls).Healthy? then NoFileName else CreateParent)
  {
  }

  /// A publication without a failing call

  ghost predicate IsSibling(dests: seq<Path>, pid: string, n: nat, p: Path)
    requires n <= |dests|
  {
    exists i :: 0 <= i < n && Publishable(dests[i]) && (p == Temporary(dests[i], pid) || p == Backup(dests[i], pid))
  }

  // The first `n` destinations hold the new header, none of them has a sibling, everything else is as before.
  ghost predicate Clean(disk: Disk, disk': Disk, pid: string, dests: seq<Path>, contents: Bytes, n: nat)
    requires n <= |dests|
  {
    forall p :: Lookup(disk', p) ==
                if p in dests[..n] then Some(contents)
                else if IsSibling(dests, pid, n, p) then None
                else Lookup(disk, p)
  }

  lemma CleanNext(disk: Disk, before: Disk, after: Disk, pid: string, dests: seq<Path>, contents: Bytes, n: nat)
    requires n < |dests| && AllPublishable(dests) && NoCollisions(dests, pid)
        && Clean(disk, before, pid, dests, contents, n)
    requires Lookup(after, dests[n]) == Some(contents)
    requires Temporary(dests[n], pid) !in after && Backup(dests[n], pid) !in after
    requires forall p :: !Touches(dests[n], pid, p) ==> Lookup(after, p) == Lookup(before, p)
    ensures Clean(disk, after, pid, dests, contents, n + 1)
  {
    hide HeaderPublish.Temporary, HeaderPublish.Backup, Publishable;
    assert dests[..n + 1] == dests[..n] + [dests[n]];
    forall p ensures Lookup(after, p) ==
      if p in dests[..n + 1] then Some(contents)
      else if IsSibling(dests, pid, n + 1, p) then None else Lookup(disk, p)
    {
      if p == Temporary(dests[n], pid) || p == Backup(dests[n], pid) {
        assert IsSibling(dests, pid, n + 1, p);
        NoDestination(dests, pid, n, p);
      } else if p != dests[n] {
        assert Lookup(after, p) == Lookup(before, p);
        assert IsSibling(dests, pid, n + 1, p) <==> IsSibling(dests, pid, n, p);
      }
    }
  }

  lemma NoDestination(dests: seq<Path>, pid: string, n: nat, p: Path)
    requires n < |dests| && AllPublishable(dests) && NoCollisions(dests, pid)
    requires Publishable(dests[n]) && (p == Temporary(dests[n], pid) || p == Backup(dests[n], pid))
    ensures p !in dests
  {
    hide HeaderPublish.Temporary, HeaderPublish.Backup, Publishable;
  }

  lemma HealthyReplacement(w: World, pid: string, dest: Path, contents: Bytes)
    requires Publishable(dest) && HealthyBetween(w, AtomicWrite(w, pid, dest, contents).0)
    ensures var (w', r) := AtomicWrite(w, pid, dest, contents);
            && Follows(w, w') && r.Ok? && Lookup(w'.disk, dest) == Some(contents)
            && Temporary(dest, pid) !in w'.disk && Backup(dest, pid) !in w'.disk
            && (forall p :: !Touches(dest, pid, p) ==> Lookup(w'.disk, p) == Lookup(w.disk, p))
  {
    AtomicWriteOutcome(w, pid, dest, contents);
    ReplacementLeaves(w, pid, dest, contents);
    hide HeaderPublish.AtomicWrite, HeaderPublish.Temporary, HeaderPublish.Backup, Publishable, Reported, Touches;
  }

  lemma {:induction false} HealthyFrom(w: World, pid: string, dests: seq<Path>, originals: seq<Option<Bytes>>,
                                       contents: Bytes, i: nat, disk: Disk)
    requires i <= |dests| == |originals| && AllPublishable(dests) && NoCollisions(dests, pid)
    requires HealthyBetween(w, PublishFrom(w, pid, dests, originals, contents, i).0)
    requires Follows(w, PublishFrom(w, pid, dests, originals, contents, i).0)
    requires Clean(disk, w.disk, pid, dests, contents, i)
    ensures var (w', r) := PublishFrom(w, pid, dests, originals, contents, i);
            r.Ok? && Clean(disk, w'.disk, pid, dests, contents, |dests|)
    decreases |dests| - i
  {
    hide HeaderPublish.AtomicWrite, HeaderPublish.Rollback, HeaderPublish.Temporary, HeaderPublish.Backup, Publishable,
         NoCollisions, Clean, Touches;
    if i < |dests| {
      var (w1, r) := AtomicWrite(w, pid, dests[i], contents);
      LaterCalls(w, pid, dests, originals, contents, i);
      HealthyReplacement(w, pid, dests[i], contents);
      CleanNext(disk, w.disk, w1.disk, pid, dests, contents, i);
      HealthyFrom(w1, pid, dests, originals, contents, i + 1, disk);
    }
  }

  // The loop only goes on from a replacement.
  lemma LaterCalls(w: World, pid: string, dests: seq<Path>, originals: seq<Option<Bytes>>, contents: Bytes, i: nat)
    requires i < |dests| == |originals|
    ensures var w1 := AtomicWrite(w, pid, dests[i], contents).0;
            Follows(w, w1) && Follows(w1, PublishFrom(w, pid, dests, originals, contents, i).0)
  {
    AtomicWriteOutcome(w, pid, dests[i], contents);
    var (w1, r) := AtomicWrite(w, pid, dests[i], contents);
    hide HeaderPublish.AtomicWrite;
    if r.Ok? {
      LoopFollows(w1, pid, dests, originals, contents, i + 1);
    } else {
      RollbackFollows(w1, pid, dests, originals, i + 1);
    }
  }

  lemma {:induction false} LoopFollows(w: World, pid: string, dests: seq<Path>, originals: seq<Option<Bytes>>,
                                       contents: Bytes, i: nat)
    requires i <= |dests| == |originals|
    ensures Follows(w, PublishFrom(w, pid, dests, originals, contents, i).0)
    decreases |dests| - i
  {
    if i < |dests| {
      AtomicWriteOutcome(w, pid, dests[i], contents);
      var (w1, r) := AtomicWrite(w, pid, dests[i], contents);
      hide HeaderPublish.AtomicWrite;
      if r.Ok? {
        LoopFollows(w1, pid, dests, originals, contents, i + 1);
      } else {
        RollbackFollows(w1, pid, dests, originals, i + 1);
      }
    }
  }

  lemma {:induction false} RollbackFollows(w: World, pid: string, dests: seq<Path>, originals: seq<Option<Bytes>>,
                                           n: nat)
    requires n <= |dests| == |originals|
    ensures Follows(w, Rollback(w, pid, dests, originals, n).0)
  {
    if n > 0 {
      RollbackFollows(w, pid, dests, originals, n - 1);
      RestoreOutcome(Rollback(w, pid, dests, originals, n - 1).0, pid, dests[n - 1], originals[n - 1]);
      hide HeaderPublish.Restore;
    }
  }

  // Without a failing call every destination ends with the new header and nothing is left beside it: the disk
  // is the old one but for that.
  lemma HealthyPublicationIsClean(w: World, pid: string, dests: seq<Path>, contents: Bytes)
    requires AllPublishable(dests) && NoCollisions(dests, pid)
    requires HealthyBetween(w, Publish(w, pid, dests, contents).0)
    ensures var (w', r) := Publish(w, pid, dests, contents);
            r.Ok? && Clean(w.disk, w'.disk, pid, dests, contents, |dests|)
  {
    PublishIsAllOrNothing(w, pid, dests, contents);
    SnapshotIsTheDisk(w, dests);
    var (w1, snapshot) := Snapshot(w, dests);
    hide HeaderPublish.Snapshot, HeaderPublish.PublishFrom, NoCollisions, AllOrNothing, Outside;
    assert Clean(w.disk, w1.disk, pid, dests, contents, 0) by { NothingDone(w.disk, pid, dests, contents); }
    if snapshot.Ok? {
      LoopFollows(w1, pid, dests, snapshot.value, contents, 0);
      HealthyFrom(w1, pid, dests, snapshot.value, contents, 0, w.disk);
    }
  }

  lemma NothingDone(disk: Disk, pid: string, dests: seq<Path>, contents: Bytes)
    ensures Clean(disk, disk, pid, dests, contents, 0)
  {
  }

  /// A publication that fails

  // The file is the same in every image from `w` to `w'`.
  ghost predicate Untouched(w: World, w': World, p: Path) {
    && Follows(w, w') && Lookup(w'.disk, p) == Lookup(w.disk, p)
    && forall k :: |w.images| <= k < |w'.images| ==> Lookup(w'.images[k], p) == Lookup(w.disk, p)
  }

  lemma UntouchedOn(w: World, w1: World, w2: World, p: Path)
    requires Untouched(w, w1, p) && Untouched(w1, w2, p)
    ensures Untouched(w, w2, p)
  {
    forall k | |w.images| <= k < |w2.images| ensures Lookup(w2.images[k], p) == Lookup(w.disk, p) {
      if k < |w1.images| {
        assert w2.images[k] == w1.images[k];
      }
    }
  }

  lemma ReplacementTouches(w: World, pid: string, dest: Path, contents: Bytes, p: Path)
    requires !Touches(dest, pid, p)
    ensures Untouched(w, AtomicWrite(w, pid, dest, contents).0, p)
  {
    AtomicWriteOutcome(w, pid, dest, contents);
    AtomicWriteIsCrashSafe(w, pid, dest, contents);
    hide HeaderPublish.AtomicWrite;
  }

  lemma RestoreTouches(w: World, pid: string, dest: Path, original: Option<Bytes>, p: Path)
    requires !Touches(dest, pid, p)
    ensures Untouched(w, Restore(w, pid, dest, original).0, p)
  {
    match original
    case Some(bytes) =>
      ReplacementTouches(w, pid, dest, bytes, p);
      hide HeaderPublish.AtomicWrite, Touches;
    case None =>
  }

  lemma {:induction false} RollbackTouches(w: World, pid: string, dests: seq<Path>, originals: seq<Option<Bytes>>,
                                           n: nat, p: Path)
    requires n <= |dests| == |originals| && Outside(dests, pid, n, p)
    ensures Untouched(w, Rollback(w, pid, dests, originals, n).0, p)
  {
    hide HeaderPublish.Restore, Touches;
    if n > 0 {
      hide Untouched;
      var w1 := Rollback(w, pid, dests, originals, n - 1).0;
      RollbackTouches(w, pid, dests, originals, n - 1, p);
      RestoreTouches(w1, pid, dests[n - 1], originals[n - 1], p);
      UntouchedOn(w, w1, Restore(w1, pid, dests[n - 1], originals[n - 1]).0, p);
    }
  }

  // The world after the first `k` replacements from `w` on.
  function Forward(w: World, pid: string, dests: seq<Path>, contents: Bytes, i: nat, k: nat): World
    requires i <= k <= |dests|
    decreases k - i
  {
    if i == k then w else Forward(AtomicWrite(w, pid, dests[i], contents).0, pid, dests, contents, i + 1, k)
  }

  // A failed publication names the first destination that could not be replaced and why; its rollback comes to
  // that destination and to no later one, so those and all other files are the same at any moment.
  lemma {:induction false} FailsAtTheFirst(w: World, pid: string, dests: seq<Path>, originals: seq<Option<Bytes>>,
                                           contents: Bytes, i: nat) returns (k: nat)
    requires i <= |dests| == |originals| && PublishFrom(w, pid, dests, originals, contents, i).1.Err?
    ensures i <= k < |dests|
    ensures var (w', r) := PublishFrom(w, pid, dests, originals, contents, i);
            var (w1, failed) := AtomicWrite(Forward(w, pid, dests, contents, i, k), pid, dests[k], contents);
            failed.Err? && r == Err(PublishFailed(dests[k], failed.error, Rollback(w1, pid, dests, originals, k + 1).1))
    ensures forall j :: i <= j < k ==>
              AtomicWrite(Forward(w, pid, dests, contents, i, j), pid, dests[j], contents).1.Ok?
    ensures forall p :: Outside(dests, pid, k + 1, p) ==>
              Untouched(w, PublishFrom(w, pid, dests, originals, contents, i).0, p)
    decreases |dests| - i
  {
    hide HeaderPublish.AtomicWrite, HeaderPublish.Rollback, Touches, Untouched;
    var w' := PublishFrom(w, pid, dests, originals, contents, i).0;
    var (w1, r) := AtomicWrite(w, pid, dests[i], contents);
    if r.Ok? {
      k := FailsAtTheFirst(w1, pid, dests, originals, contents, i + 1);
      forall j | i <= j < k ensures AtomicWrite(Forward(w, pid, dests, contents, i, j), pid, dests[j], contents).1.Ok? {
        assert j > i ==> Forward(w, pid, dests, contents, i, j) == Forward(w1, pid, dests, contents, i + 1, j);
      }
    } else {
      k := i;
    }
    forall p | Outside(dests, pid, k + 1, p) ensures Untouched(w, w', p) {
      ReplacementTouches(w, pid, dests[i], contents, p);
      if r.Err? {
        RollbackTouches(w1, pid, dests, originals, i + 1, p);
      }
      UntouchedOn(w, w1, w', p);
    }
  }

  // The snapshot fails at the first destination that cannot be read, and names it.
  lemma {:induction false} SnapshotNamesTheFirst(w: World, dests: seq<Path>, call: nat)
    requires w.calls <= call < w.calls + |dests| && !w.faults(call).Healthy?
    requires forall c :: w.calls <= c < call ==> w.faults(c).Healthy?
    ensures Snapshot(w, dests).1 == Err(SnapshotFailed(dests[call - w.calls]))
    decreases |dests|
  {
    var n := |dests| - 1;
    if call < w.calls + n {
      SnapshotNamesTheFirst(w, dests[..n], call);
    } else {
      HeaderPublishLoss.SnapshotClock(w, dests[..n]);
      SnapshotIsTheDisk(w, dests[..n]);
    }
  }

  // Restoring fails exactly if a call that counts does.
  lemma RestoreReports(w: World, pid: string, dest: Path, original: Option<Bytes>)
    requires Publishable(dest)
    ensures var outcome := Reported(w.faults, w.calls, dest in w.disk);
            Restore(w, pid, dest, original).1 ==
            match original
            case Some(_) => if outcome.Ok? then None else Some(RestoreFailed(dest, Some(outcome.error)))
            case None => if w.faults(w.calls).Healthy? then None else Some(RestoreFailed(dest, None))
  {
    match original
    case Some(bytes) =>
      ReplacementLeaves(w, pid, dest, bytes);
      hide HeaderPublish.AtomicWrite, HeaderPublish.Temporary, HeaderPublish.Backup, Publishable, Reported;
    case None =>
  }

  // The errors of a rollback, one for each destination that could not be restored, in order.
  lemma {:induction false} RollbackReports(w: World, pid: string, dests: seq<Path>, originals: seq<Option<Bytes>>,
                                           n: nat, i: nat)
    requires i < n <= |dests| == |originals| && AllPublishable(dests)
    ensures var before := Rollback(w, pid, dests, originals, i);
            var error := Restore(before.0, pid, dests[i], originals[i]).1;
            && before.1 + (if error.Some? then [error.value] else []) <= Rollback(w, pid, dests, originals, n).1
            && (i + 1 == n ==>
                  Rollback(w, pid, dests, originals, n).1 == before.1 + (if error.Some? then [error.value] else []))
    decreases n
  {
    hide HeaderPublish.Restore, AllPublishable;
    if i + 1 < n {
      RollbackReports(w, pid, dests, originals, n - 1, i);
    }
  }
}
