/** Freezing a microVM and starting another from what was saved (crates/firecracker/src/vm.rs). */
module VmSnapshot {
  import opened Common

  /** Everything a guest is at one moment. */
  datatype Instant = Instant(cpu: seq<byte>, memory: seq<byte>, disk: seq<byte>)

  type Path = string

  /** A jail is flat: a file is known in it by its name alone. */
  function InJail(path: Path): Path {
    "/" + FileName(path)
  }

  function FileName(path: Path): string {
    if path == "" || path[|path| - 1] == '/' then "" else FileName(path[..|path| - 1]) + [path[|path| - 1]]
  }

  /** What counts of a path is what follows its last slash. */
  lemma {:induction false} NameFollowsTheLastSlash(directory: string, name: string)
    requires '/' !in name
    ensures FileName(directory + ("/" + name)) == name && InJail(directory + ("/" + name)) == "/" + name
    decreases name
  {
    var path := directory + ("/" + name);
    if name == "" {
      assert path[|path| - 1] == '/';
    } else {
      var shorter := name[..|name| - 1];
      assert path[..|path| - 1] == directory + ("/" + shorter);
      assert name[|name| - 1] in name && path[|path| - 1] == name[|name| - 1];
      NameFollowsTheLastSlash(directory, shorter);
      assert name == shorter + [name[|name| - 1]];
    }
  }

  /**
    * What a snapshot leaves on the host. The state refers to the disk by its path in the jail; the disk
    * itself is there only when it was asked for.
    */
  datatype Saved = Saved(cpu: seq<byte>, diskPath: Path, memory: seq<byte>, disk: Option<seq<byte>>)

  /** The steps of a snapshot that may fail. */
  datatype Fault = NoDisk | Pausing | DeclaringState | DeclaringMemory | Creating | Copying | Resuming

  class Vm {
    var now: Instant
    var paused: bool
    const diskPath: Path              // of the root disk in the jail
    const exposesDisk: bool
    ghost var past: seq<Instant>      // every instant so far, `now` last

    ghost predicate Valid()
      reads this
    {
      past != [] && past[|past| - 1] == now
    }

    constructor (at: Instant, diskPath: Path, exposesDisk: bool)
      ensures Valid() && now == at && !paused && past == [at]
      ensures this.diskPath == diskPath && this.exposesDisk == exposesDisk
    {
      now, paused, past, this.diskPath, this.exposesDisk := at, false, [at], diskPath, exposesDisk;
    }

    /** The guest goes on, unless it is paused: it may change anything of itself. */
    method Guest()
      requires Valid()
      modifies this`now, this`past
      ensures Valid() && old(past) <= past
      ensures paused ==> now == old(now) && past == old(past)
    {
      if !paused {
        now := *;
        past := past + [now];
      }
    }

    /** The disk is copied piece by piece; between two pieces the guest may run, if it can. */
    method CopyDisk() returns (copy: seq<byte>)
      requires Valid() && paused
      modifies this`now, this`past
      ensures Valid() && now == old(now) && past == old(past) && copy == now.disk
    {
      copy := [];
      while |copy| < |now.disk|
        invariant Valid() && now == old(now) && past == old(past)
        invariant |copy| <= |now.disk| && copy == now.disk[..|copy|]
        decreases |now.disk| - |copy|
      {
        var n: nat :| 1 <= n <= |now.disk| - |copy|;
        copy := copy + now.disk[|copy|..|copy| + n];
        Guest();
      }
    }

    /** The vCPUs are stopped: the disk can be had if it is wanted, the guest runs, and pausing works. */
    predicate Freezes(withDisk: bool, fails: set<Fault>)
      reads this
    {
      (withDisk ==> exposesDisk) && !paused && Pausing !in fails
    }

    /**
      * Any of the steps may be among those that fail, and the guest may run between any two. What is saved
      * is all of one instant of the call. The guest is left paused exactly when it was frozen and a
      * declaration failed, or its resumption did: a failed snapshot or copy still resumes it.
      */
    method SnapshotInternal(withDisk: bool, fails: set<Fault>) returns (r: Result<Saved, Fault>, ghost at: nat)
      requires Valid()
      modifies this`now, this`past, this`paused
      ensures Valid() && old(past) <= past
      ensures r.Ok? <==>
                && old(Freezes(withDisk, fails))
                && fails !! {DeclaringState, DeclaringMemory, Creating, Resuming} && (withDisk ==> Copying !in fails)
      ensures r.Ok? ==>
                && |old(past)| - 1 <= at < |past|
                && r.value == Saved(past[at].cpu, diskPath, past[at].memory, if withDisk then Some(past[at].disk) else None)
      ensures paused <==>
                || old(paused)
                || (old(Freezes(withDisk, fails)) && !(fails !! {DeclaringState, DeclaringMemory, Resuming}))
    {
      at := 0;
      if withDisk && !exposesDisk {
        return Err(NoDisk), at;
      }
      Guest();
      if paused || Pausing in fails {
        return Err(Pausing), at;
      }
      paused := true;
      at := |past| - 1;
      Guest();
      if DeclaringState in fails {
        return Err(DeclaringState), at;
      }
      Guest();
      if DeclaringMemory in fails {
        return Err(DeclaringMemory), at;
      }
      Guest();
      var saved := Saved(now.cpu, diskPath, now.memory, None);
      if Creating !in fails && withDisk && Copying !in fails {
        var disk := CopyDisk();
        saved := saved.(disk := Some(disk));
      }
      Guest();
      if Resuming !in fails {
        paused := false;
      }
      Guest();
      if Resuming in fails {
        return Err(Resuming), at;
      }
      if Creating in fails {
        return Err(Creating), at;
      }
      if withDisk && Copying in fails {
        return Err(Copying), at;
      }
      return Ok(saved), at;
    }
  }

  // ----- Restoring in a new jail -----

  /** Any file can be opened as a disk; only a state file can be loaded as one, and only memory as memory. */
  datatype Kind = Plain | State(cpu: seq<byte>, diskPath: Path) | Memory

  datatype File = File(content: seq<byte>, kind: Kind)

  type Jail = map<Path, File>

  /** Where the four files of a restoration come from. */
  datatype Sources = Sources(kernel: Path, rootfs: Path, snapshot: Path, memory: Path)

  /** What is in them: the kernel, the image, and the state file as it is on the host. */
  datatype Contents = Contents(kernel: seq<byte>, image: seq<byte>, state: seq<byte>)

  /** Firecracker loads state and memory, and opens whatever is at the path the state refers to as the disk. */
  function Load(jail: Jail, from: Sources): Option<Instant> {
    var snapshot, memory := InJail(from.snapshot), InJail(from.memory);
    if snapshot !in jail || memory !in jail || !jail[snapshot].kind.State? || !jail[memory].kind.Memory? then None
    else
      var disk := jail[snapshot].kind.diskPath;
      if disk !in jail then None
      else Some(Instant(jail[snapshot].kind.cpu, jail[memory].content, jail[disk].content))
  }

  /** State and memory can be loaded: the files that are needed have names of their own. */
  predicate Loads(from: Sources) {
    && InJail(from.snapshot) != InJail(from.memory)
    && InJail(from.rootfs) != InJail(from.snapshot) && InJail(from.rootfs) != InJail(from.memory)
  }

  /** And the image has the name that the disk had. */
  predicate Fits(from: Sources, diskPath: Path) {
    Loads(from) && InJail(from.rootfs) == diskPath
  }

  /** What the guest finds as its disk. */
  function DiskFound(from: Sources, contents: Contents, saved: Saved): Option<seq<byte>>
    requires saved.disk.Some?
  {
    if saved.diskPath == InJail(from.rootfs) then saved.disk
    else if saved.diskPath == InJail(from.memory) then Some(saved.memory)
    else if saved.diskPath == InJail(from.snapshot) then Some(contents.state)
    else if saved.diskPath == InJail(from.kernel) then Some(contents.kernel)
    else None
  }

  /** From where a restoration starts the guest, when no step fails. */
  function StartsFrom(from: Sources, contents: Contents, saved: Saved): Option<Instant>
    requires saved.disk.Some?
  {
    var disk := DiskFound(from, contents, saved);
    if Loads(from) && disk.Some? then Some(Instant(saved.cpu, saved.memory, disk.value)) else None
  }

  /**
    * Resources are copied into the new jail, the saved disk then takes the place of the image, and the
    * guest is loaded.
    */
  method RestorePersisted(from: Sources, contents: Contents, saved: Saved, fails: bool) returns (vm: Option<Vm>)
    requires saved.disk.Some?
    ensures vm.Some? <==> !fails && StartsFrom(from, contents, saved).Some?
    ensures vm.Some? ==>
              && fresh(vm.value) && vm.value.Valid() && vm.value.diskPath == saved.diskPath
              && Some(vm.value.past[0]) == StartsFrom(from, contents, saved)
  {
    if fails {
      return None;
    }
    var jail: Jail := map[];
    jail := jail[InJail(from.kernel) := File(contents.kernel, Plain)];
    jail := jail[InJail(from.rootfs) := File(contents.image, Plain)];
    jail := jail[InJail(from.snapshot) := File(contents.state, State(saved.cpu, saved.diskPath))];
    jail := jail[InJail(from.memory) := File(saved.memory, Memory)];
    jail := jail[InJail(from.rootfs) := File(saved.disk.value, Plain)];
    var start := Load(jail, from);
    if start.None? {
      return None;
    }
    var next := new Vm(start.value, saved.diskPath, true);
    next.Guest();
    return Some(next);
  }

  /** The guest starts from what was saved, whatever is in the files. */
  ghost predicate AlwaysRestores(from: Sources, diskPath: Path) {
    forall contents: Contents, cpu: seq<byte>, memory: seq<byte>, disk: seq<byte> ::
      StartsFrom(from, contents, Saved(cpu, diskPath, memory, Some(disk))) == Some(Instant(cpu, memory, disk))
  }

  /**
    * It does if and only if the names fit. Otherwise it does not start, or it starts on another file of the
    * jail; never on the image, whose place the saved disk has taken.
    */
  lemma RestoresExactlyWhenTheNamesFit(from: Sources, diskPath: Path)
    ensures AlwaysRestores(from, diskPath) <==> Fits(from, diskPath)
  {
    if !Fits(from, diskPath) {
      var saved := Saved([], diskPath, [], Some([0]));
      assert StartsFrom(from, Contents([], [0], []), saved) != Some(Instant([], [], [0]));
    }
  }

  /** The image makes no difference. */
  lemma NeverFromTheImage(from: Sources, contents: Contents, image: seq<byte>, saved: Saved)
    requires saved.disk.Some?
    ensures StartsFrom(from, contents.(image := image), saved) == StartsFrom(from, contents, saved)
  {
  }

  /**
    * Suspending and resuming: when no step fails and the names fit those of the first boot, the new guest
    * starts from an instant the old one was really in; if the names do not fit it can only start by
    * taking another file for its disk.
    */
  method SuspendThenResume(vm: Vm, from: Sources, contents: Contents, fails: set<Fault>, restoreFails: bool)
    returns (next: Option<Vm>, ghost at: nat)
    requires vm.Valid()
    modifies vm
    ensures vm.Valid() && old(vm.past) <= vm.past
    ensures Fits(from, vm.diskPath) ==>
              (next.Some? <==>
                 && old(vm.Freezes(true, fails)) && !restoreFails
                 && fails !! {DeclaringState, DeclaringMemory, Creating, Copying, Resuming})
    ensures next.Some? ==>
              && next.value.Valid() && |old(vm.past)| - 1 <= at < |vm.past| && next.value.diskPath == vm.diskPath
              && (Fits(from, vm.diskPath) ==> next.value.past[0] == vm.past[at])
              && (!Fits(from, vm.diskPath) ==>
                    vm.diskPath in {InJail(from.kernel), InJail(from.snapshot), InJail(from.memory)})
  {
    var saved: Result<Saved, Fault>;
    saved, at := vm.SnapshotInternal(true, fails);
    if saved.Err? {
      return None, at;
    }
    next := RestorePersisted(from, contents, saved.value, restoreFails);
  }

  /** With the file names of the source, what is left to require is the name of the image. */
  lemma OnlyTheImageNameMatters(from: Sources, diskPath: Path)
    requires FileName(from.snapshot) == "snapshot.state" && FileName(from.memory) == "snapshot.mem"
    requires diskPath != "/snapshot.state" && diskPath != "/snapshot.mem"
    ensures Fits(from, diskPath) <==> InJail(from.rootfs) == diskPath
  {
    assert InJail(from.snapshot)[10] == 's' && InJail(from.memory)[10] == 'm';
  }
}
