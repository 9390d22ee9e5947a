/**
 What publishing guarantees for every disk, every list of destinations and every pattern of failing
 system calls: crash safety of one replacement, and all-or-nothing for the whole publication.
 */
module HeaderPublishSafety {
  import opened Wrappers
  import opened FileSystem
  import opened HeaderPublish

  /// Names

  lemma SuffixesDiffer(a: string, b: string, pid: string)
    ensures a + (TEMPORARY_SUFFIX + pid) != b + (BACKUP_SUFFIX + pid)
  {
    var x, y := a + (TEMPORARY_SUFFIX + pid), b + (BACKUP_SUFFIX + pid);
    // Counting from the right, both end in `p-` and the process id; then `m` meets `u`.
    assert x[|x| - |pid| - 3] == 'm';
    assert y[|y| - |pid| - 3] == 'u';
  }

  // The names one replacement uses are three different names, and replacements of two different
  // destinations never share a temporary or a backup.
  lemma SiblingsAreDistinct(a: Path, b: Path, pid: string)
    requires Publishable(a) && Publishable(b)
    ensures a != Temporary(a, pid) && a != Backup(a, pid)
    ensures Temporary(a, pid) != Backup(b, pid)
    ensures a != b ==> Temporary(a, pid) != Temporary(b, pid) && Backup(a, pid) != Backup(b, pid)
  {
    var x, y := a.FileName().value, b.FileName().value;
    assert a == a.Parent().value.Join(x + "") by { LastName(a); }
    assert b == b.Parent().value.Join(y + "") by { LastName(b); }
    hide Publishable;
    SuffixesDiffer(x, y, pid);
    SameSuffix(x, y, TEMPORARY_SUFFIX + pid);
    SameSuffix(x, y, BACKUP_SUFFIX + pid);
    LastComponentDecides(a, x, TEMPORARY_SUFFIX + pid, b, y, BACKUP_SUFFIX + pid);
    LastComponentDecides(a, x, TEMPORARY_SUFFIX + pid, b, y, TEMPORARY_SUFFIX + pid);
    LastComponentDecides(a, x, BACKUP_SUFFIX + pid, b, y, BACKUP_SUFFIX + pid);
    LastComponentDecides(a, x, TEMPORARY_SUFFIX + pid, a, x, "");
    LastComponentDecides(a, x, BACKUP_SUFFIX + pid, a, x, "");
  }

  lemma LastName(a: Path)
    requires Publishable(a)
    ensures a == a.Parent().value.Join(a.FileName().value + "")
  {
    var x := a.FileName().value;
    assert x + "" == x && a.components == a.Parent().value.components + [x];
  }

  lemma SameSuffix(x: string, y: string, suffix: string)
    requires suffix != []
    ensures x + suffix != x + "" && (x + suffix == y + suffix ==> x + "" == y + "")
  {
    if x + suffix == y + suffix {
      assert x == (x + suffix)[..|x|] && y == (y + suffix)[..|y|];
    }
    assert |x + suffix| > |x + ""|;
  }

  lemma LastComponentDecides(a: Path, x: string, s: string, b: Path, y: string, t: string)
    requires Publishable(a) && Publishable(b)
    ensures a.Parent().value.Join(x + s) == b.Parent().value.Join(y + t)
        ==> x + s == y + t && a.Parent() == b.Parent()
  {
    var p, q := a.Parent().value.components, b.Parent().value.components;
    if p + [x + s] == q + [y + t] {
      assert (p + [x + s])[..|p|] == p && (q + [y + t])[..|q|] == q;
      assert (p + [x + s])[|p|] == x + s && (q + [y + t])[|q|] == y + t;
    }
  }

  // No destination is another destination's temporary or backup file.
  ghost predicate NoCollisions(dests: seq<Path>, pid: string) {
    forall i, j :: 0 <= i < |dests| && 0 <= j < |dests| && Publishable(dests[j])
               ==> dests[i] != Temporary(dests[j], pid) && dests[i] != Backup(dests[j], pid)
  }

  // The paths a replacement of `dest` may change.
  predicate Touches(dest: Path, pid: string, p: Path) {
    p == dest || (Publishable(dest) && (p == Temporary(dest, pid) || p == Backup(dest, pid)))
  }

  /// One replacement

  // What a crash at `image` leaves of a destination that held `was`: the old bytes, the new bytes, or
  // nothing at the destination and the old bytes in the backup. No other file is affected.
  ghost predicate CrashSafe(image: Disk, disk: Disk, dest: Path, temporary: Path, backup: Path, was: Option<Bytes>,
                            contents: Bytes)
  {
    && (|| Lookup(image, dest) == was
        || Lookup(image, dest) == Some(contents)
        || (dest !in image && Lookup(image, backup) == was))
    && forall p :: p != dest && p != temporary && p != backup ==> Lookup(image, p) == Lookup(disk, p)
  }

  // Some call made on the way from `w` to `w'` failed.
  ghost predicate SomeFault(w: World, w': World) {
    exists k :: w.calls <= k < w'.calls && !w.faults(k).Healthy?
  }

  // Every image on the way from `w` to `w'` is crash-safe.
  ghost predicate Safely(w: World, w': World, disk: Disk, dest: Path, temporary: Path, backup: Path,
                         was: Option<Bytes>, contents: Bytes)
  {
    && Follows(w, w')
    && forall k :: |w.images| <= k < |w'.images|
               ==> CrashSafe(w'.images[k], disk, dest, temporary, backup, was, contents)
  }

  lemma SafeStep(w: World, w': World, next: Disk, disk: Disk, dest: Path, temporary: Path, backup: Path,
                 was: Option<Bytes>, contents: Bytes)
    requires Safely(w, w', disk, dest, temporary, backup, was, contents)
    requires CrashSafe(next, disk, dest, temporary, backup, was, contents)
    ensures Safely(w, w'.Step(next), disk, dest, temporary, backup, was, contents)
  {
  }

  lemma SafeTail(w: World, w1: World, w2: World, disk: Disk, disk1: Disk, dest: Path, temporary: Path, backup: Path,
                 was: Option<Bytes>, contents: Bytes)
    requires Safely(w, w1, disk, dest, temporary, backup, was, contents)
    requires Safely(w1, w2, disk1, dest, temporary, backup, was, contents)
    requires forall p :: p != dest && p != temporary && p != backup ==> Lookup(disk1, p) == Lookup(disk, p)
    ensures Safely(w, w2, disk, dest, temporary, backup, was, contents)
  {
    forall k | |w.images| <= k < |w2.images|
      ensures CrashSafe(w2.images[k], disk, dest, temporary, backup, was, contents)
    {
      if k < |w1.images| {
        assert w2.images[k] == w1.images[k];
      }
    }
  }

  // The effect of a replacement of a destination that held `was`, or of its tail from `w` on.
  ghost predicate Replaced(w: World, w': World, r: Result<(), WriteError>, dest: Path, temporary: Path, backup: Path,
                           was: Option<Bytes>, contents: Bytes)
  {
    && (r.Ok? ==> Lookup(w'.disk, dest) == Some(contents) && temporary !in w'.disk)
    && (r.Err? ==> SomeFault(w, w'))
    && (r.Err? && r.error != ReplaceAndRestore ==> Lookup(w'.disk, dest) == was)
    && (r == Err(ReplaceAndRestore) ==> was.Some? && dest !in w'.disk && Lookup(w'.disk, backup) == was)
    && (forall p :: p != dest && p != temporary && p != backup ==> Lookup(w'.disk, p) == Lookup(w.disk, p))
    && Safely(w, w', w.disk, dest, temporary, backup, was, contents)
  }

  lemma MoveInOutcome(w: World, dest: Path, temporary: Path, backup: Path)
    requires dest != temporary && temporary in w.disk && dest !in w.disk
    ensures var (w', r) := MoveIn(w, dest, temporary);
            Replaced(w, w', r, dest, temporary, backup, None, w.disk[temporary]) && r != Err(ReplaceAndRestore)
  {
    var disk, was: Option<Bytes>, contents := w.disk, None, w.disk[temporary];
    var (w1, replaced) := w.Rename(temporary, dest);
    SafeStep(w, w, w1.disk, disk, dest, temporary, backup, was, contents);
    if !replaced.Done? {
      assert !w.faults(w.calls).Healthy?;
      SafeStep(w, w1, w1.RemoveFile(temporary).0.disk, disk, dest, temporary, backup, was, contents);
    }
  }

  lemma SwapExistingOutcome(w: World, dest: Path, temporary: Path, backup: Path)
    requires dest != temporary && temporary != backup && dest != backup
    requires temporary in w.disk && dest in w.disk && backup !in w.disk
    ensures var (w', r) := SwapExisting(w, dest, temporary, backup);
            Replaced(w, w', r, dest, temporary, backup, Some(w.disk[dest]), w.disk[temporary])
  {
    var disk, was, contents := w.disk, Some(w.disk[dest]), w.disk[temporary];
    var (w1, staged) := w.Rename(dest, backup);
    SafeStep(w, w, w1.disk, disk, dest, temporary, backup, was, contents);
    if !staged.Done? {
      assert !w.faults(w.calls).Healthy?;
      SafeStep(w, w1, w1.RemoveFile(temporary).0.disk, disk, dest, temporary, backup, was, contents);
      return;
    }
    var (w2, replaced) := w1.Rename(temporary, dest);
    SafeStep(w, w1, w2.disk, disk, dest, temporary, backup, was, contents);
    if replaced.Done? {
      SafeStep(w, w2, w2.RemoveFile(backup).0.disk, disk, dest, temporary, backup, was, contents);
      return;
    }
    assert !w.faults(w1.calls).Healthy?;
    var w3 := w2.RemoveFile(temporary).0;
    SafeStep(w, w2, w3.disk, disk, dest, temporary, backup, was, contents);
    SafeStep(w, w3, w3.Rename(backup, dest).0.disk, disk, dest, temporary, backup, was, contents);
  }

  lemma WriteThenSwapOutcome(w: World, dest: Path, temporary: Path, backup: Path, contents: Bytes)
    requires dest != temporary && temporary != backup && dest != backup
    ensures var (w', r) := WriteThenSwap(w, dest, temporary, backup, contents);
            Replaced(w, w', r, dest, temporary, backup, Lookup(w.disk, dest), contents)
  {
    var disk, was := w.disk, Lookup(w.disk, dest);
    var (w1, written) := w.Write(temporary, contents);
    assert Safely(w, w1, disk, dest, temporary, backup, was, contents);
    if !written.Done? {
      assert !w.faults(w.calls).Healthy?;
      return;
    }
    var (w2, stale) := w1.RemoveFile(backup);
    SafeStep(w, w1, w2.disk, disk, dest, temporary, backup, was, contents);
    if stale.Failed? {
      assert !w.faults(w1.calls).Healthy?;
      SafeStep(w, w2, w2.RemoveFile(temporary).0.disk, disk, dest, temporary, backup, was, contents);
      return;
    }
    if dest in w2.disk {
      SwapExistingOutcome(w2, dest, temporary, backup);
    } else {
      MoveInOutcome(w2, dest, temporary, backup);
    }
    var w' := WriteThenSwap(w, dest, temporary, backup, contents).0;
    SafeTail(w, w2, w', disk, w2.disk, dest, temporary, backup, was, contents);
  }

  // One whole replacement, for every destination, content and fault schedule: success installs the
  // content, an error leaves the old file unless both renames failed, and then the backup holds it.
  lemma AtomicWriteOutcome(w: World, pid: string, dest: Path, contents: Bytes)
    ensures var (w', r) := AtomicWrite(w, pid, dest, contents);
            && Follows(w, w')
            && (r.Ok? ==> Publishable(dest) && Lookup(w'.disk, dest) == Some(contents))
            && (r.Err? ==> (Lookup(w'.disk, dest) == Lookup(w.disk, dest) <==> r.error != ReplaceAndRestore))
            && (r == Err(ReplaceAndRestore) ==>
                  && Publishable(dest) && dest in w.disk && dest !in w'.disk
                  && Lookup(w'.disk, Backup(dest, pid)) == Some(w.disk[dest]))
            && (Publishable(dest) && r.Err? ==> SomeFault(w, w'))
            && (forall p :: !Touches(dest, pid, p) ==> Lookup(w'.disk, p) == Lookup(w.disk, p))
  {
    AtomicWriteIsCrashSafe(w, pid, dest, contents);
    var (w1, created) := w.CreateDirAll();
    if Publishable(dest) {
      SiblingsAreDistinct(dest, dest, pid);
      if created.Done? {
        WriteThenSwapOutcome(w1, dest, Temporary(dest, pid), Backup(dest, pid), contents);
      } else {
        assert !w.faults(w.calls).Healthy?;
      }
    }
  }

  // After every single step of a replacement, under every fault schedule, the disk is crash-safe.
  lemma AtomicWriteIsCrashSafe(w: World, pid: string, dest: Path, contents: Bytes)
    ensures var w' := AtomicWrite(w, pid, dest, contents).0;
            && Follows(w, w')
            && (forall k :: |w.images| <= k < |w'.images| ==>
                  if Publishable(dest) then
                    CrashSafe(w'.images[k], w.disk, dest, Temporary(dest, pid), Backup(dest, pid),
                              Lookup(w.disk, dest), contents)
                  else w'.images[k] == w.disk)
            && (!Publishable(dest) ==> w'.disk == w.disk)
  {
    var (w1, created) := w.CreateDirAll();
    if Publishable(dest) && created.Done? {
      var temporary, backup := Temporary(dest, pid), Backup(dest, pid);
      SiblingsAreDistinct(dest, dest, pid);
      WriteThenSwapOutcome(w1, dest, temporary, backup, contents);
      SafeTail(w, w1, WriteThenSwap(w1, dest, temporary, backup, contents).0,
               w.disk, w.disk, dest, temporary, backup, Lookup(w.disk, dest), contents);
    }
  }

  /// Rolling back

  predicate Named(errors: seq<RestoreError>, path: Path) {
    exists k :: 0 <= k < |errors| && errors[k].path == path
  }

  predicate Agree(dests: seq<Path>, originals: seq<Option<Bytes>>) {
    && |dests| == |originals|
    && forall i, j :: 0 <= i < |dests| && 0 <= j < |dests| && dests[i] == dests[j] ==> originals[i] == originals[j]
  }

  ghost predicate Outside(dests: seq<Path>, pid: string, n: nat, p: Path)
    requires n <= |dests|
  {
    forall i :: 0 <= i < n ==> !Touches(dests[i], pid, p)
  }

  lemma RestoreOutcome(w: World, pid: string, dest: Path, original: Option<Bytes>)
    ensures var (w', error) := Restore(w, pid, dest, original);
            && Follows(w, w')
            && (error.None? ==> Lookup(w'.disk, dest) == original)
            && (error.Some? ==> error.value.path == dest)
            && (Publishable(dest) && error.Some? ==> SomeFault(w, w'))
            && (forall p :: !Touches(dest, pid, p) ==> Lookup(w'.disk, p) == Lookup(w.disk, p))
  {
    match original
    case Some(bytes) => AtomicWriteOutcome(w, pid, dest, bytes);
    case None => assert !w.faults(w.calls).Healthy? || dest !in w.RemoveFile(dest).0.disk;
  }

  // Rollback restores every destination it does not name in an error.
  lemma {:induction false} RollbackRestores(w: World, pid: string, dests: seq<Path>, originals: seq<Option<Bytes>>,
                                            n: nat)
    requires n <= |dests| && Agree(dests, originals) && NoCollisions(dests, pid)
    ensures var (w', errors) := Rollback(w, pid, dests, originals, n);
            && Follows(w, w')
            && (forall i :: 0 <= i < n && !Named(errors, dests[i]) ==> Lookup(w'.disk, dests[i]) == originals[i])
            && (errors != [] && (forall i :: 0 <= i < n ==> Publishable(dests[i])) ==> SomeFault(w, w'))
            && (forall p :: Outside(dests, pid, n, p) ==> Lookup(w'.disk, p) == Lookup(w.disk, p))
  {
    if n > 0 {
      var (w1, errors1) := Rollback(w, pid, dests, originals, n - 1);
      RollbackRestores(w, pid, dests, originals, n - 1);
      RestoreOutcome(w1, pid, dests[n - 1], originals[n - 1]);
      var error := Restore(w1, pid, dests[n - 1], originals[n - 1]).1;
      var (w', errors) := Rollback(w, pid, dests, originals, n);
      NamedAppend(errors1, error);
      forall i | 0 <= i < n && !Named(errors, dests[i]) ensures Lookup(w'.disk, dests[i]) == originals[i] {
        if dests[i] != dests[n - 1] {
          assert !Touches(dests[n - 1], pid, dests[i]);
        }
      }
      forall p | Outside(dests, pid, n, p) ensures Lookup(w'.disk, p) == Lookup(w.disk, p) {
        assert Outside(dests, pid, n - 1, p);
      }
    }
  }

  lemma NamedAppend(errors: seq<RestoreError>, error: Option<RestoreError>)
    ensures var all := errors + (match error case None => [] case Some(e) => [e]);
            && (forall p :: Named(errors, p) ==> Named(all, p))
            && (error.Some? ==> Named(all, error.value.path))
  {
    var all := errors + (match error case None => [] case Some(e) => [e]);
    forall p | Named(errors, p) ensures Named(all, p) {
      var k :| 0 <= k < |errors| && errors[k].path == p;
      assert all[k].path == p;
    }
    if error.Some? {
      assert all[|errors|].path == error.value.path;
    }
  }

  /// The whole publication

  ghost predicate TwoFaults(w: World, w': World) {
    exists j, k :: w.calls <= j < k < w'.calls && !w.faults(j).Healthy? && !w.faults(k).Healthy?
  }

  lemma FaultsWiden(w: World, w1: World, w': World)
    requires Follows(w, w1) && Follows(w1, w')
    ensures TwoFaults(w1, w') ==> TwoFaults(w, w')
    ensures SomeFault(w1, w') ==> !HealthyBetween(w, w')
  {
  }

  ghost predicate AllPublishable(dests: seq<Path>) {
    forall i :: 0 <= i < |dests| ==> Publishable(dests[i])
  }

  // What the loop has done when it ends in `w'` with `r`.
  ghost predicate PublishedFrom(w: World, w': World, r: Result<(), PublishError>, pid: string, dests: seq<Path>,
                                originals: seq<Option<Bytes>>, contents: Bytes)
    requires |dests| == |originals|
  {
    && Follows(w, w')
    && (r.Ok? ==> forall j :: 0 <= j < |dests| ==> Lookup(w'.disk, dests[j]) == Some(contents))
    && (r.Err? ==>
          && r.error.PublishFailed?
          && forall j :: 0 <= j < |dests| && !Named(r.error.rollback, dests[j]) ==>
               Lookup(w'.disk, dests[j]) == originals[j])
    && (forall p :: Outside(dests, pid, |dests|, p) ==> Lookup(w'.disk, p) == Lookup(w.disk, p))
    && (AllPublishable(dests) && r.Err? ==> SomeFault(w, w'))
    && (AllPublishable(dests) && r.Err? && r.error.rollback != [] ==> TwoFaults(w, w'))
  }

  lemma PublishedLater(w: World, w1: World, w': World, r: Result<(), PublishError>, pid: string, dests: seq<Path>,
                       originals: seq<Option<Bytes>>, contents: Bytes)
    requires |dests| == |originals| && Follows(w, w1) && PublishedFrom(w1, w', r, pid, dests, originals, contents)
    requires forall p :: Outside(dests, pid, |dests|, p) ==> Lookup(w1.disk, p) == Lookup(w.disk, p)
    ensures PublishedFrom(w, w', r, pid, dests, originals, contents)
  {
    hide Outside, Named;
  }

  lemma {:induction false} PublishFromOutcome(w: World, pid: string, dests: seq<Path>, originals: seq<Option<Bytes>>,
                                              contents: Bytes, i: nat)
    requires i <= |dests| && Agree(dests, originals) && NoCollisions(dests, pid)
    requires forall j :: 0 <= j < i ==> Lookup(w.disk, dests[j]) == Some(contents)
    requires forall j :: 0 <= j < |dests| && dests[j] !in dests[..i] ==> Lookup(w.disk, dests[j]) == originals[j]
    ensures var (w', r) := PublishFrom(w, pid, dests, originals, contents, i);
            PublishedFrom(w, w', r, pid, dests, originals, contents)
    decreases |dests| - i
  {
    if i < |dests| {
      var (w1, r) := AtomicWrite(w, pid, dests[i], contents);
      AtomicWriteOutcome(w, pid, dests[i], contents);
      hide HeaderPublish.AtomicWrite, HeaderPublish.Rollback, Touches, NoCollisions, Outside, Named;
      if r.Ok? {
        hide PublishedFrom;
        var (w', result) := PublishFrom(w, pid, dests, originals, contents, i);
        OthersUntouched(w, w1, pid, dests, originals, contents, i);
        PublishFromOutcome(w1, pid, dests, originals, contents, i + 1);
        PublishedLater(w, w1, w', result, pid, dests, originals, contents);
      } else {
        FailedAt(w, w1, pid, dests, originals, i);
      }
    }
  }

  // After the replacement of destination `i`.
  lemma OthersUntouched(w: World, w1: World, pid: string, dests: seq<Path>, originals: seq<Option<Bytes>>,
                        contents: Bytes, i: nat)
    requires i < |dests| == |originals| && NoCollisions(dests, pid)
    requires forall j :: 0 <= j < i ==> Lookup(w.disk, dests[j]) == Some(contents)
    requires forall j :: 0 <= j < |dests| && dests[j] !in dests[..i] ==> Lookup(w.disk, dests[j]) == originals[j]
    requires Lookup(w1.disk, dests[i]) == Some(contents)
    requires forall p :: !Touches(dests[i], pid, p) ==> Lookup(w1.disk, p) == Lookup(w.disk, p)
    ensures forall j :: 0 <= j < i + 1 ==> Lookup(w1.disk, dests[j]) == Some(contents)
    ensures forall j :: 0 <= j < |dests| && dests[j] !in dests[..i + 1] ==> Lookup(w1.disk, dests[j]) == originals[j]
    ensures forall p :: Outside(dests, pid, |dests|, p) ==> Lookup(w1.disk, p) == Lookup(w.disk, p)
  {
    forall j | 0 <= j < |dests| && dests[j] != dests[i] ensures !Touches(dests[i], pid, dests[j]) {
    }
    assert dests[..i + 1] == dests[..i] + [dests[i]];
  }

  // The replacement of destination `i` failed, leaving the world `w1`, and everything up to it is rolled back.
  lemma FailedAt(w: World, w1: World, pid: string, dests: seq<Path>, originals: seq<Option<Bytes>>, i: nat)
    requires i < |dests| && Agree(dests, originals) && NoCollisions(dests, pid) && Follows(w, w1)
    requires forall j :: 0 <= j < |dests| && dests[j] !in dests[..i] ==> Lookup(w.disk, dests[j]) == originals[j]
    requires forall p :: !Touches(dests[i], pid, p) ==> Lookup(w1.disk, p) == Lookup(w.disk, p)
    ensures var (w', errors) := Rollback(w1, pid, dests, originals, i + 1);
            && Follows(w, w') && Follows(w1, w')
            && (forall j :: 0 <= j < |dests| && !Named(errors, dests[j]) ==> Lookup(w'.disk, dests[j]) == originals[j])
            && (forall p :: Outside(dests, pid, |dests|, p) ==> Lookup(w'.disk, p) == Lookup(w.disk, p))
            && (AllPublishable(dests) && errors != [] ==> SomeFault(w1, w'))
  {
    RollbackRestores(w1, pid, dests, originals, i + 1);
    hide HeaderPublish.Rollback;
    var (w2, errors) := Rollback(w1, pid, dests, originals, i + 1);
    forall j | 0 <= j < |dests| && !Named(errors, dests[j]) ensures Lookup(w2.disk, dests[j]) == originals[j] {
      if m :| 0 <= m <= i && dests[m] == dests[j] {
        assert Lookup(w2.disk, dests[m]) == originals[m];
      } else {
        assert dests[j] !in dests[..i];
        assert Outside(dests, pid, i + 1, dests[j]);
      }
    }
  }

  // Success: every destination holds the new header. Failure: every destination that no rollback
  // error names is exactly as it was, absent files included.
  ghost predicate AllOrNothing(w: World, w': World, r: Result<(), PublishError>, dests: seq<Path>, contents: Bytes) {
    && (r.Ok? ==> forall i :: 0 <= i < |dests| ==> Lookup(w'.disk, dests[i]) == Some(contents))
    && (r.Err? && r.error.SnapshotFailed? ==> w'.disk == w.disk)
    && (r.Err? && r.error.PublishFailed? ==>
          forall i :: 0 <= i < |dests| && !Named(r.error.rollback, dests[i])
            ==> Lookup(w'.disk, dests[i]) == Lookup(w.disk, dests[i]))
  }

  lemma PublishOutcome(w: World, pid: string, dests: seq<Path>, contents: Bytes) returns (w1: World)
    requires NoCollisions(dests, pid)
    ensures var (w', r) := Publish(w, pid, dests, contents);
            && Follows(w, w1) && Follows(w1, w')
            && AllOrNothing(w, w', r, dests, contents)
            && (forall p :: Outside(dests, pid, |dests|, p) ==> Lookup(w'.disk, p) == Lookup(w.disk, p))
            && (r.Err? && r.error.SnapshotFailed? ==> w' == w1 && !HealthyBetween(w, w1))
            && (AllPublishable(dests) && r.Err? && r.error.PublishFailed? ==> SomeFault(w1, w'))
            && (AllPublishable(dests) && r.Err? && r.error.PublishFailed? && r.error.rollback != []
                ==> TwoFaults(w1, w'))
  {
    SnapshotIsTheDisk(w, dests);
    w1 := Snapshot(w, dests).0;
    var snapshot := Snapshot(w, dests).1;
    if snapshot.Ok? {
      PublishFromOutcome(w1, pid, dests, snapshot.value, contents, 0);
      assert Publish(w, pid, dests, contents) == PublishFrom(w1, pid, dests, snapshot.value, contents, 0);
    }
  }

  // All or nothing, for any destinations and any faults. Nothing outside the destinations and their
  // temporaries and backups changes, and a publication without a failing call succeeds.
  lemma PublishIsAllOrNothing(w: World, pid: string, dests: seq<Path>, contents: Bytes)
    requires NoCollisions(dests, pid)
    ensures var (w', r) := Publish(w, pid, dests, contents);
            && AllOrNothing(w, w', r, dests, contents)
            && (forall p :: Outside(dests, pid, |dests|, p) ==> Lookup(w'.disk, p) == Lookup(w.disk, p))
            && (AllPublishable(dests) && HealthyBetween(w, w') ==> r.Ok?)
  {
    var w1 := PublishOutcome(w, pid, dests, contents);
    FaultsWiden(w, w1, Publish(w, pid, dests, contents).0);
  }

  // A single failing call anywhere in the run cannot leave any destination in between.
  lemma OneFaultIsHarmless(w: World, pid: string, dests: seq<Path>, contents: Bytes)
    requires NoCollisions(dests, pid) && AllPublishable(dests)
    requires !TwoFaults(w, Publish(w, pid, dests, contents).0)
    ensures var (w', r) := Publish(w, pid, dests, contents);
            forall i :: 0 <= i < |dests| ==>
              Lookup(w'.disk, dests[i]) == if r.Ok? then Some(contents) else Lookup(w.disk, dests[i])
  {
    var w1 := PublishOutcome(w, pid, dests, contents);
    FaultsWiden(w, w1, Publish(w, pid, dests, contents).0);
  }
}
