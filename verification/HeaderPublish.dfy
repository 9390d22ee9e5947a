/**
 Publishing one generated C header to several destinations: each destination is replaced through a
 temporary file and a backup, and the first failure rolls every destination touched so far back.
 */
module HeaderPublish {
  import opened Wrappers
  import opened FileSystem

  datatype WriteError =
    | NoParent
    | CreateParent
    | NoFileName
    | WriteTemporary
    | RemoveStaleBackup
    | StageExisting
    | Replace          // the new file could not be moved in; the old one, if any, is back
    | ReplaceAndRestore // neither rename succeeded

  datatype RestoreError = RestoreFailed(path: Path, cause: Option<WriteError>)

  datatype PublishError =
    | SnapshotFailed(path: Path)
    | PublishFailed(path: Path, cause: WriteError, rollback: seq<RestoreError>)

  const TEMPORARY_SUFFIX := ".alef-tmp-"
  const BACKUP_SUFFIX := ".alef-backup-"

  predicate Publishable(path: Path) {
    path.Parent().Some? && path.FileName().Some?
  }

  function Temporary(path: Path, pid: string): Path
    requires Publishable(path)
  {
    path.Parent().value.Join(path.FileName().value + (TEMPORARY_SUFFIX + pid))
  }

  function Backup(path: Path, pid: string): Path
    requires Publishable(path)
  {
    path.Parent().value.Join(path.FileName().value + (BACKUP_SUFFIX + pid))
  }

  /// What one replacement does, call by call.

  function AtomicWrite(w: World, pid: string, dest: Path, contents: Bytes): (World, Result<(), WriteError>) {
    if dest.Parent().None? then (w, Err(NoParent)) else
    var (w1, created) := w.CreateDirAll();
    if !created.Done? then (w1, Err(CreateParent)) else
    if dest.FileName().None? then (w1, Err(NoFileName)) else
    WriteThenSwap(w1, dest, Temporary(dest, pid), Backup(dest, pid), contents)
  }

  function WriteThenSwap(w: World, dest: Path, temporary: Path, backup: Path, contents: Bytes)
    : (World, Result<(), WriteError>)
  {
    var (w1, written) := w.Write(temporary, contents);
    if !written.Done? then (w1, Err(WriteTemporary)) else
    var (w2, stale) := w1.RemoveFile(backup);
    if stale.Failed? then (w2.RemoveFile(temporary).0, Err(RemoveStaleBackup))
    else if dest in w2.disk then SwapExisting(w2, dest, temporary, backup)
    else MoveIn(w2, dest, temporary)
  }

  // Moves the old file aside, the new one in, and on failure the old one back.
  function SwapExisting(w: World, dest: Path, temporary: Path, backup: Path): (World, Result<(), WriteError>) {
    var (w1, staged) := w.Rename(dest, backup);
    if !staged.Done? then (w1.RemoveFile(temporary).0, Err(StageExisting)) else
    var (w2, replaced) := w1.Rename(temporary, dest);
    if replaced.Done? then (w2.RemoveFile(backup).0, Ok(())) else
    var w3 := w2.RemoveFile(temporary).0;
    var (w4, restored) := w3.Rename(backup, dest);
    (w4, Err(if restored.Done? then Replace else ReplaceAndRestore))
  }

  function MoveIn(w: World, dest: Path, temporary: Path): (World, Result<(), WriteError>) {
    var (w1, replaced) := w.Rename(temporary, dest);
    if replaced.Done? then (w1, Ok(())) else (w1.RemoveFile(temporary).0, Err(Replace))
  }

  method AtomicWriteTo(volume: Volume, pid: string, dest: Path, contents: Bytes) returns (r: Result<(), WriteError>)
    modifies volume
    ensures (volume.world, r) == AtomicWrite(old(volume.world), pid, dest, contents)
  {
    if dest.Parent().None? {
      return Err(NoParent);
    }
    var io := volume.CreateDirAll();
    if io != Done {
      return Err(CreateParent);
    }
    if dest.FileName().None? {
      return Err(NoFileName);
    }
    var temporary := Temporary(dest, pid);
    io := volume.Write(temporary, contents);
    if io != Done {
      return Err(WriteTemporary);
    }
    var backup := Backup(dest, pid);
    io := volume.RemoveFile(backup);
    if io == Failed {
      var _ := volume.RemoveFile(temporary);
      return Err(RemoveStaleBackup);
    }
    var hadDestination := dest in volume.world.disk;
    if hadDestination {
      io := volume.Rename(dest, backup);
      if io != Done {
        var _ := volume.RemoveFile(temporary);
        return Err(StageExisting);
      }
    }
    io := volume.Rename(temporary, dest);
    if io != Done {
      var _ := volume.RemoveFile(temporary);
      if hadDestination {
        io := volume.Rename(backup, dest);
        if io != Done {
          return Err(ReplaceAndRestore);
        }
      }
      return Err(Replace);
    }
    if !hadDestination {
      return Ok(());
    }
    var _ := volume.RemoveFile(backup);
    return Ok(());
  }

  function Restore(w: World, pid: string, dest: Path, original: Option<Bytes>): (World, Option<RestoreError>) {
    match original
    case Some(bytes) =>
      var (w', r) := AtomicWrite(w, pid, dest, bytes);
      (w', if r.Ok? then None else Some(RestoreFailed(dest, Some(r.error))))
    case None =>
      var (w', r) := w.RemoveFile(dest);
      (w', if r.Failed? then Some(RestoreFailed(dest, None)) else None)
  }

  // The rollback of the first `n` destinations, in order.
  function Rollback(w: World, pid: string, dests: seq<Path>, originals: seq<Option<Bytes>>, n: nat)
    : (World, seq<RestoreError>)
    requires n <= |dests| && n <= |originals|
  {
    if n == 0 then (w, []) else
    var (w1, errors) := Rollback(w, pid, dests, originals, n - 1);
    var (w2, error) := Restore(w1, pid, dests[n - 1], originals[n - 1]);
    (w2, errors + (match error case None => [] case Some(e) => [e]))
  }

  method RollbackHeaders(volume: Volume, pid: string, dests: seq<Path>, originals: seq<Option<Bytes>>)
    returns (errors: seq<RestoreError>)
    requires |dests| == |originals|
    modifies volume
    ensures (volume.world, errors) == Rollback(old(volume.world), pid, dests, originals, |dests|)
  {
    errors := [];
    for i := 0 to |dests|
      invariant (volume.world, errors) == Rollback(old(volume.world), pid, dests, originals, i)
    {
      assert errors + [] == errors;
      match originals[i] {
        case Some(bytes) =>
          var r := AtomicWriteTo(volume, pid, dests[i], bytes);
          if r.Err? {
            errors := errors + [RestoreFailed(dests[i], Some(r.error))];
          }
        case None =>
          var io := volume.RemoveFile(dests[i]);
          if io == Failed {
            errors := errors + [RestoreFailed(dests[i], None)];
          }
      }
    }
  }

  // Reads every destination before anything is written.
  function Snapshot(w: World, dests: seq<Path>): (World, Result<seq<Option<Bytes>>, PublishError>) {
    if dests == [] then (w, Ok([])) else
    var n := |dests| - 1;
    var (w1, earlier) := Snapshot(w, dests[..n]);
    if earlier.Err? then (w1, earlier) else
    var (w2, io, bytes) := w1.Read(dests[n]);
    match io
    case Done => (w2, Ok(earlier.value + [Some(bytes)]))
    case NotFound => (w2, Ok(earlier.value + [None]))
    case Failed => (w2, Err(SnapshotFailed(dests[n])))
  }

  // Replaces destinations `i..`, rolling `..=j` back when destination `j` fails.
  function PublishFrom(w: World, pid: string, dests: seq<Path>, originals: seq<Option<Bytes>>, contents: Bytes, i: nat)
    : (World, Result<(), PublishError>)
    requires i <= |dests| == |originals|
    decreases |dests| - i
  {
    if i == |dests| then (w, Ok(())) else
    var (w1, r) := AtomicWrite(w, pid, dests[i], contents);
    if r.Ok? then PublishFrom(w1, pid, dests, originals, contents, i + 1) else
    var (w2, errors) := Rollback(w1, pid, dests, originals, i + 1);
    (w2, Err(PublishFailed(dests[i], r.error, errors)))
  }

  function Publish(w: World, pid: string, dests: seq<Path>, contents: Bytes): (World, Result<(), PublishError>) {
    var (w1, snapshot) := Snapshot(w, dests);
    match snapshot
    case Err(e) => (w1, Err(e))
    case Ok(originals) =>
      SnapshotIsTheDisk(w, dests);
      PublishFrom(w1, pid, dests, originals, contents, 0)
  }

  lemma {:induction false} SnapshotIsTheDisk(w: World, dests: seq<Path>)
    ensures var (w', r) := Snapshot(w, dests);
            && Follows(w, w') && w'.disk == w.disk
            && AlwaysBetween(w, w', image => image == w.disk)
            && (r.Ok? ==> |r.value| == |dests|)
            && (r.Ok? ==> forall i :: 0 <= i < |dests| ==> r.value[i] == Lookup(w.disk, dests[i]))
            && (r.Err? ==> r.error.SnapshotFailed?)
            && (HealthyBetween(w, w') ==> r.Ok?)
  {
    if dests != [] {
      SnapshotIsTheDisk(w, dests[..|dests| - 1]);
    }
  }
}
