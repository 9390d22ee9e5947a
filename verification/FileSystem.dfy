/**
 A file system whose every call may fail.

 `World` carries the disk, the number of system calls made so far, a fault schedule that decides
 the fate of each call by its number, and the disk image left behind by every step, so that a
 statement about all images is a statement about a crash at any moment.
 */
module FileSystem {
  import opened Wrappers

  type Bytes = seq<bv8>

  datatype Path = Path(absolute: bool, components: seq<string>) {
    function Parent(): Option<Path> {
      if components == [] then None else Some(Path(absolute, components[..|components| - 1]))
    }

    function FileName(): Option<string> {
      if components == [] || components[|components| - 1] in [".", ".."] then None
      else Some(components[|components| - 1])
    }

    function Join(name: string): Path {
      Path(absolute, components + [name])
    }
  }

  type Disk = map<Path, Bytes>

  function Lookup(disk: Disk, path: Path): Option<Bytes> {
    if path in disk then Some(disk[path]) else None
  }

  // What happens to one system call. `Torn` matters to writes only: they fail part-way.
  datatype Fault = Healthy | Refused | Torn(written: nat)

  datatype IoResult = Done | NotFound | Failed

  datatype World = World(faults: nat -> Fault, disk: Disk, calls: nat, images: seq<Disk>) {
    function Now(): Fault {
      faults(calls)
    }

    function Step(disk': Disk): World {
      this.(disk := disk', calls := calls + 1, images := images + [disk'])
    }

    // Directories are not tracked: the call can only succeed or fail.
    function CreateDirAll(): (World, IoResult) {
      (Step(disk), if Now().Healthy? then Done else Failed)
    }

    function Read(path: Path): (World, IoResult, Bytes) {
      if !Now().Healthy? then (Step(disk), Failed, [])
      else if path !in disk then (Step(disk), NotFound, [])
      else (Step(disk), Done, disk[path])
    }

    // Creates or truncates the file, then fills it; a torn write stops at a prefix. Every prefix on the
    // way is a disk image.
    function Write(path: Path, contents: Bytes): (World, IoResult) {
      match Now()
      case Healthy => (Fill(path, contents), Done)
      case Refused => (Step(disk), Failed)
      case Torn(n) => (Fill(path, contents[..if n < |contents| then n else |contents|]), Failed)
    }

    function Fill(path: Path, stored: Bytes): World {
      Step(disk[path := stored]).(
        images := images + seq(|stored| + 1, k requires 0 <= k <= |stored| => disk[path := stored[..k]])
          + [disk[path := stored]])
    }

    function RemoveFile(path: Path): (World, IoResult) {
      if !Now().Healthy? then (Step(disk), Failed)
      else if path !in disk then (Step(disk), NotFound)
      else (Step(disk - {path}), Done)
    }

    function Rename(from: Path, to: Path): (World, IoResult) {
      if !Now().Healthy? then (Step(disk), Failed)
      else if from !in disk then (Step(disk), NotFound)
      else (Step((disk - {from})[to := disk[from]]), Done)
    }
  }

  // `w'` is reached from `w`: same schedule, later clock, longer record.
  ghost predicate Follows(w: World, w': World) {
    w'.faults == w.faults && w.calls <= w'.calls && w.images <= w'.images
  }

  // Every disk image recorded on the way from `w` to `w'`.
  ghost predicate AlwaysBetween(w: World, w': World, safe: Disk -> bool)
    requires Follows(w, w')
  {
    forall k :: |w.images| <= k < |w'.images| ==> safe(w'.images[k])
  }

  // No call made on the way from `w` to `w'` fails.
  ghost predicate HealthyBetween(w: World, w': World) {
    forall k :: w.calls <= k < w'.calls ==> w.faults(k).Healthy?
  }

  /** The mutable disk the build script works on; each call is the `World` function of the same name. */
  class Volume {
    var world: World

    constructor (world: World)
      ensures this.world == world
    {
      this.world := world;
    }

    method CreateDirAll() returns (r: IoResult)
      modifies this
      ensures (world, r) == old(world).CreateDirAll()
    {
      var step := world.CreateDirAll();
      world, r := step.0, step.1;
    }

    method Read(path: Path) returns (r: IoResult, contents: Bytes)
      modifies this
      ensures (world, r, contents) == old(world).Read(path)
    {
      var step := world.Read(path);
      world, r, contents := step.0, step.1, step.2;
    }

    method Write(path: Path, contents: Bytes) returns (r: IoResult)
      modifies this
      ensures (world, r) == old(world).Write(path, contents)
    {
      var step := world.Write(path, contents);
      world, r := step.0, step.1;
    }

    method RemoveFile(path: Path) returns (r: IoResult)
      modifies this
      ensures (world, r) == old(world).RemoveFile(path)
    {
      var step := world.RemoveFile(path);
      world, r := step.0, step.1;
    }

    method Rename(from: Path, to: Path) returns (r: IoResult)
      modifies this
      ensures (world, r) == old(world).Rename(from, to)
    {
      var step := world.Rename(from, to);
      world, r := step.0, step.1;
    }
  }
}
