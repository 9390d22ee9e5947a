/**
 The publication as the build script runs it, and what its loops do to the disk images of one destination.
 */
module HeaderPublishRun {
  import opened Wrappers
  import opened FileSystem
  import opened HeaderPublish
  import opened HeaderPublishSafety

  method PublishHeaders(volume: Volume, pid: string, dests: seq<Path>, contents: Bytes)
    returns (r: Result<(), PublishError>)
    modifies volume
    ensures (volume.world, r) == Publish(old(volume.world), pid, dests, contents)
    ensures NoCollisions(dests, pid) ==> AllOrNothing(old(volume.world), volume.world, r, dests, contents)
  {
    ghost var w := volume.world;
    if NoCollisions(dests, pid) {
      PublishIsAllOrNothing(w, pid, dests, contents);
    }
    SnapshotIsTheDisk(w, dests);
    var originals := ReadOriginals(volume, dests);
    if originals.Err? {
      return Err(originals.error);
    }
    r := ReplaceAll(volume, pid, dests, originals.value, contents);
  }

  method ReadOriginals(volume: Volume, dests: seq<Path>) returns (r: Result<seq<Option<Bytes>>, PublishError>)
    modifies volume
    ensures (volume.world, r) == Snapshot(old(volume.world), dests)
  {
    ghost var w := volume.world;
    var originals: seq<Option<Bytes>> := [];
    for i := 0 to |dests|
      invariant Snapshot(w, dests[..i]) == (volume.world, Ok(originals))
    {
      assert dests[..i + 1][..i] == dests[..i];
      var io, bytes := volume.Read(dests[i]);
      match io {
        case Done => originals := originals + [Some(bytes)];
        case NotFound => originals := originals + [None];
        case Failed =>
          SnapshotStopsEarly(w, dests, i + 1);
          return Err(SnapshotFailed(dests[i]));
      }
    }
    assert dests[..|dests|] == dests;
    return Ok(originals);
  }

  method ReplaceAll(volume: Volume, pid: string, dests: seq<Path>, originals: seq<Option<Bytes>>, contents: Bytes)
    returns (r: Result<(), PublishError>)
    requires |dests| == |originals|
    modifies volume
    ensures (volume.world, r) == PublishFrom(old(volume.world), pid, dests, originals, contents, 0)
  {
    ghost var w := volume.world;
    for i := 0 to |dests|
      invariant PublishFrom(w, pid, dests, originals, contents, 0)
             == PublishFrom(volume.world, pid, dests, originals, contents, i)
    {
      var written := AtomicWriteTo(volume, pid, dests[i], contents);
      if written.Err? {
        RollbackSlice(volume.world, pid, dests, originals, i + 1, i + 1);
        var errors := RollbackHeaders(volume, pid, dests[..i + 1], originals[..i + 1]);
        return Err(PublishFailed(dests[i], written.error, errors));
      }
    }
    return Ok(());
  }

  lemma {:induction false} SnapshotStopsEarly(w: World, dests: seq<Path>, n: nat)
    requires n <= |dests| && Snapshot(w, dests[..n]).1.Err?
    ensures Snapshot(w, dests) == Snapshot(w, dests[..n])
    decreases |dests| - n
  {
    if n < |dests| {
      assert dests[..n + 1][..n] == dests[..n];
      SnapshotStopsEarly(w, dests, n + 1);
    } else {
      assert dests[..n] == dests;
    }
  }

  lemma {:induction false} RollbackSlice(w: World, pid: string, dests: seq<Path>, originals: seq<Option<Bytes>>,
                                         n: nat, k: nat)
    requires k <= n <= |dests| == |originals|
    ensures Rollback(w, pid, dests[..n], originals[..n], k) == Rollback(w, pid, dests, originals, k)
  {
    if k > 0 {
      RollbackSlice(w, pid, dests, originals, n, k - 1);
    }
  }

  /// Crash safety of a whole run

  // The destination holds the original or the new header.
  predicate Solid(image: Disk, dest: Path, original: Option<Bytes>, contents: Bytes) {
    Lookup(image, dest) == original || Lookup(image, dest) == Some(contents)
  }

  // It does, or it is absent while its backup does.
  predicate Recoverable(image: Disk, dest: Path, pid: string, original: Option<Bytes>, contents: Bytes)
    requires Publishable(dest)
  {
    || Solid(image, dest, original, contents)
    || (dest !in image && Lookup(image, Backup(dest, pid)) in [original, Some(contents)])
  }

  ghost predicate AlwaysRecoverable(w: World, w': World, dest: Path, pid: string, original: Option<Bytes>,
                                    contents: Bytes)
    requires Publishable(dest)
  {
    && Follows(w, w')
    && forall k :: |w.images| <= k < |w'.images| ==> Recoverable(w'.images[k], dest, pid, original, contents)
  }

  lemma Chain(w: World, w1: World, w': World, dest: Path, pid: string, original: Option<Bytes>, contents: Bytes)
    requires Publishable(dest)
    requires AlwaysRecoverable(w, w1, dest, pid, original, contents)
    requires AlwaysRecoverable(w1, w', dest, pid, original, contents)
    ensures AlwaysRecoverable(w, w', dest, pid, original, contents)
  {
    forall k | |w.images| <= k < |w'.images|
      ensures Recoverable(w'.images[k], dest, pid, original, contents)
    {
      if k < |w1.images| {
        assert w'.images[k] == w1.images[k];
      }
    }
  }

  // Work on another destination leaves a recoverable destination recoverable throughout.
  lemma OthersDoNoHarm(w: World, other: Path, bytes: Bytes, dest: Path, pid: string, original: Option<Bytes>,
                       contents: Bytes)
    requires Publishable(dest) && Publishable(other) && dest != other
    requires NoCollisions([dest, other], pid)
    requires Recoverable(w.disk, dest, pid, original, contents)
    ensures var w' := AtomicWrite(w, pid, other, bytes).0;
            && AlwaysRecoverable(w, w', dest, pid, original, contents)
            && Lookup(w'.disk, dest) == Lookup(w.disk, dest)
            && Recoverable(w'.disk, dest, pid, original, contents)
    ensures var w' := w.RemoveFile(other).0;
            && AlwaysRecoverable(w, w', dest, pid, original, contents)
            && Lookup(w'.disk, dest) == Lookup(w.disk, dest)
            && Recoverable(w'.disk, dest, pid, original, contents)
  {
    assert [dest, other][0] == dest && [dest, other][1] == other;
    SiblingsAreDistinct(dest, other, pid);
    SiblingsAreDistinct(other, dest, pid);
    AtomicWriteOutcome(w, pid, other, bytes);
    AtomicWriteIsCrashSafe(w, pid, other, bytes);
    assert !Touches(other, pid, dest) && !Touches(other, pid, Backup(dest, pid));
  }

  // A replacement that starts from a solid destination keeps it recoverable throughout.
  lemma OwnReplacement(w: World, bytes: Bytes, dest: Path, pid: string, original: Option<Bytes>, contents: Bytes)
    requires Publishable(dest) && Solid(w.disk, dest, original, contents)
    requires Some(bytes) == original || bytes == contents
    ensures var (w', r) := AtomicWrite(w, pid, dest, bytes);
            && AlwaysRecoverable(w, w', dest, pid, original, contents)
            && Recoverable(w'.disk, dest, pid, original, contents)
            && (r != Err(ReplaceAndRestore) ==> Solid(w'.disk, dest, original, contents))
  {
    AtomicWriteOutcome(w, pid, dest, bytes);
    AtomicWriteIsCrashSafe(w, pid, dest, bytes);
  }

  predicate Distinct(dests: seq<Path>) {
    forall i, j :: 0 <= i < j < |dests| ==> dests[i] != dests[j]
  }

  // One step of the forward loop, seen from destination `d`.
  lemma ForwardStep(w: World, pid: string, dests: seq<Path>, contents: Bytes, i: nat, d: nat, original: Option<Bytes>)
    requires i < |dests| && d < |dests|
    requires AllPublishable(dests) && NoCollisions(dests, pid) && Distinct(dests)
    requires Solid(w.disk, dests[d], original, contents)
    ensures var (w1, r) := AtomicWrite(w, pid, dests[i], contents);
            && AlwaysRecoverable(w, w1, dests[d], pid, original, contents)
            && (r != Err(ReplaceAndRestore) || i != d ==> Solid(w1.disk, dests[d], original, contents))
  {
    if i == d {
      OwnReplacement(w, contents, dests[d], pid, original, contents);
    } else {
      OthersDoNoHarm(w, dests[i], contents, dests[d], pid, original, contents);
    }
  }

  // One step of the rollback loop, seen from destination `d`.
  lemma BackwardStep(w: World, pid: string, dests: seq<Path>, originals: seq<Option<Bytes>>, contents: Bytes, i: nat,
                     d: nat)
    requires i < |dests| == |originals| && d < |dests|
    requires AllPublishable(dests) && NoCollisions(dests, pid) && Distinct(dests)
    requires Recoverable(w.disk, dests[d], pid, originals[d], contents)
    requires i == d ==> Solid(w.disk, dests[d], originals[d], contents)
    ensures var w1 := Restore(w, pid, dests[i], originals[i]).0;
            && AlwaysRecoverable(w, w1, dests[d], pid, originals[d], contents)
            && Recoverable(w1.disk, dests[d], pid, originals[d], contents)
            && (i != d ==> Lookup(w1.disk, dests[d]) == Lookup(w.disk, dests[d]))
  {
    hide HeaderPublish.AtomicWrite, Recoverable, Solid, AlwaysRecoverable;
    if i != d {
      ApartFrom(pid, dests, i, d);
      OthersDoNoHarm(w, dests[i], if originals[i].Some? then originals[i].value else [], dests[d], pid, originals[d],
                     contents);
    } else if originals[i].Some? {
      OwnReplacement(w, originals[i].value, dests[d], pid, originals[d], contents);
    } else {
      OwnRemoval(w, dests[d], pid, contents);
    }
  }

  lemma ApartFrom(pid: string, dests: seq<Path>, i: nat, d: nat)
    requires i < |dests| && d < |dests| && i != d && AllPublishable(dests) && NoCollisions(dests, pid)
        && Distinct(dests)
    ensures Publishable(dests[i]) && Publishable(dests[d]) && dests[d] != dests[i]
        && NoCollisions([dests[d], dests[i]], pid)
  {
  }

  // Removing a destination that was not there before the publication.
  lemma OwnRemoval(w: World, dest: Path, pid: string, contents: Bytes)
    requires Publishable(dest) && Solid(w.disk, dest, None, contents)
    ensures var w' := w.RemoveFile(dest).0;
            AlwaysRecoverable(w, w', dest, pid, None, contents) && Recoverable(w'.disk, dest, pid, None, contents)
  {
  }

  lemma OneIsPublishable(dests: seq<Path>, d: nat)
    requires d < |dests| && AllPublishable(dests)
    ensures Publishable(dests[d])
  {
  }

  // A recoverable destination stays so during a rollback that does not come to it, a solid one during any.
  lemma {:induction false} RollbackImages(w: World, pid: string, dests: seq<Path>, originals: seq<Option<Bytes>>,
                                          contents: Bytes, n: nat, d: nat)
    requires n <= |dests| == |originals| && d < |dests|
    requires AllPublishable(dests) && NoCollisions(dests, pid) && Distinct(dests)
    requires Recoverable(w.disk, dests[d], pid, originals[d], contents)
    requires d < n ==> Solid(w.disk, dests[d], originals[d], contents)
    ensures var w' := Rollback(w, pid, dests, originals, n).0;
            && AlwaysRecoverable(w, w', dests[d], pid, originals[d], contents)
            && Recoverable(w'.disk, dests[d], pid, originals[d], contents)
            && (n <= d ==> Lookup(w'.disk, dests[d]) == Lookup(w.disk, dests[d]))
  {
    hide HeaderPublish.AtomicWrite, HeaderPublish.Restore, AllPublishable, NoCollisions, Distinct;
    assert Publishable(dests[d]) by { OneIsPublishable(dests, d); }
    if n > 0 {
      hide AlwaysRecoverable;
      var w1 := Rollback(w, pid, dests, originals, n - 1).0;
      RollbackImages(w, pid, dests, originals, contents, n - 1, d);
      BackwardStep(w1, pid, dests, originals, contents, n - 1, d);
      Chain(w, w1, Restore(w1, pid, dests[n - 1], originals[n - 1]).0, dests[d], pid, originals[d], contents);
    }
  }
}
