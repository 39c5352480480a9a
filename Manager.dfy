/** `QemuManager` (server/routes.ts:48-283): the supervisor of the single QEMU
    process, and the startup status reset (server/routes.ts:287-295). Spawning
    is abstract: the caller supplies the process id the operating system would
    assign, and whether `/dev/kvm` and the snapshot file exist. */
module Manager {

  import opened Wrappers
  import opened Strings
  import opened Launch
  import opened Snapshots
  import Qmp

  /** The persisted status text: 'stopped', 'running' or 'error'. */
  datatype Status = Stopped | Running | Errored

  /** The single VM record of the record store. */
  datatype VmRecord = VmRecord(
    id: nat,
    name: string,
    status: Status,
    imagePath: Option<string>,
    imageFilename: Option<string>,
    ramMb: int,
    vramMb: int)

  /** The column defaults of a new record. */
  const DefaultRamMb := 512
  const DefaultVramMb := 16

  /** A spawned `qemu-system-x86_64`: its process id and the vector it was given. */
  datatype Process = Process(pid: nat, argv: seq<string>)

  datatype ManagerError = AlreadyRunning | NotRunning | SnapshotNotFound | CommandFailed(reason: string)

  /** The `message` of the error each failure throws. */
  function ErrorMessage(e: ManagerError): string
  {
    match e
    case AlreadyRunning => "VM is already running"
    case NotRunning => "VM is not running"
    case SnapshotNotFound => "Snapshot not found"
    case CommandFailed(reason) => reason
  }

  /** How an operation that returns nothing ends: normally, or by throwing. */
  datatype Completion = Done | Failed(error: ManagerError)

  /** `if (vm) storage.updateVmStatus(vm.id, 'stopped')`. */
  function MarkStopped(rec: Option<VmRecord>): Option<VmRecord>
  {
    match rec
    case None => None
    case Some(vm) => Some(vm.(status := Stopped))
  }

  /** `resetVmStatus`: run once when the server starts, since no QEMU process
      survives a restart. A 'running' record becomes 'stopped'; any other
      record, and a missing one, is left as it is. */
  function ResetVmStatus(rec: Option<VmRecord>): (r: Option<VmRecord>)
    ensures r.None? <==> rec.None?
    ensures rec.Some? ==> r.value.status != Running
    ensures rec.Some? && rec.value.status == Running ==> r == Some(rec.value.(status := Stopped))
    ensures rec.Some? && rec.value.status != Running ==> r == rec
    ensures rec.Some? ==> r.value == rec.value.(status := r.value.status)
  {
    if rec.Some? && rec.value.status == Running then MarkStopped(rec) else rec
  }

  /** Running the reset a second time changes nothing. */
  lemma ResetIsIdempotent(rec: Option<VmRecord>)
    ensures ResetVmStatus(ResetVmStatus(rec)) == ResetVmStatus(rec)
  {
  }

  /** The `migrate` command `saveSnapshot` sends: stream the VM state into the snapshot file. */
  function MigrateCommand(snapshotPath: string): Qmp.Command
  {
    Qmp.Migrate("exec:cat > " + snapshotPath)
  }

  class QemuManager {
    var process: Option<Process>
    var currentImage: Option<string>
    /** Whether a QMP socket is held; `stop` releases it. */
    var qmpSocket: bool
    /** The snapshot directory, fixed when the server starts. */
    const snapshotsDir: string

    constructor (snapshotsDir: string)
      ensures process.None? && currentImage.None? && !qmpSocket
      ensures this.snapshotsDir == snapshotsDir
    {
      process := None;
      currentImage := None;
      qmpSocket := false;
      this.snapshotsDir := snapshotsDir;
    }

    /** `start`: refuse while a process is held; otherwise record the image
        and spawn QEMU with the launch vector (`pid` is the spawned process). */
    method Start(imagePath: string, originalFilename: Option<string>, ramMb: int, vramMb: int, kvm: bool, pid: nat)
      returns (c: Completion)
      modifies this
      ensures old(process).Some? ==>
                c == Failed(AlreadyRunning) && unchanged(this)
      ensures old(process).None? ==>
                && c == Done
                && process == Some(Process(pid, LaunchArgs(imagePath, originalFilename, ramMb, kvm)))
                && currentImage == Some(imagePath) && qmpSocket == old(qmpSocket)
    {
      if process.Some? {
        return Failed(AlreadyRunning);
      }
      currentImage := Some(imagePath);
      process := Some(Process(pid, LaunchArgs(imagePath, originalFilename, ramMb, kvm)));
      c := Done;
    }

    /** `startFromSnapshot`: the running check comes first, then the snapshot
        file must exist (`snapshotExists`); then QEMU is spawned with the
        restore vector. The `cont` command the source then sends runs in its
        own `Qmp.QmpSession`; its failure is only logged and does not change
        the outcome. */
    method StartFromSnapshot(imagePath: string, originalFilename: Option<string>, snapshotName: string,
                             ramMb: int, vramMb: int, kvm: bool, snapshotExists: bool, pid: nat)
      returns (c: Completion)
      modifies this
      ensures old(process).Some? ==>
                c == Failed(AlreadyRunning) && unchanged(this)
      ensures old(process).None? && !snapshotExists ==>
                c == Failed(SnapshotNotFound) && unchanged(this)
      ensures old(process).None? && snapshotExists ==>
                && c == Done
                && process == Some(Process(pid, RestoreArgs(imagePath, originalFilename, ramMb, kvm,
                                                            SnapshotPath(snapshotsDir, snapshotName))))
                && currentImage == Some(imagePath) && qmpSocket == old(qmpSocket)
    {
      if process.Some? {
        return Failed(AlreadyRunning);
      }
      var snapshotPath := SnapshotPath(snapshotsDir, snapshotName);
      if !snapshotExists {
        return Failed(SnapshotNotFound);
      }
      currentImage := Some(imagePath);
      process := Some(Process(pid, RestoreArgs(imagePath, originalFilename, ramMb, kvm, snapshotPath)));
      c := Done;
    }

    /** `stop`: kill and forget the process if one is held, and release the
        QMP socket. Idempotent: afterwards neither is held, whatever the state
        before. */
    method Stop()
      modifies this
      ensures process.None? && !qmpSocket
      ensures currentImage == old(currentImage)
    {
      if process.Some? {
        process := None;
      }
      if qmpSocket {
        qmpSocket := false;
      }
    }

    /** `isRunning`: a process handle is held. */
    method IsRunning() returns (running: bool)
      ensures running <==> process.Some?
    {
      running := process.Some?;
    }

    /** `saveSnapshot`: refuse unless a process is held; otherwise open a QMP
        session for `migrate` to `<dir>/<name>.state` (returned in `command`),
        whose settled outcome the caller passes in as `migrate`, and answer
        with the snapshot path or the session's error. */
    method SaveSnapshot(name: string, migrate: Result<Qmp.Reply, string>)
      returns (r: Result<string, ManagerError>, command: Option<Qmp.Command>)
      ensures process.None? ==> r == Failure(NotRunning) && command.None?
      ensures process.Some? ==> command == Some(MigrateCommand(SnapshotPath(snapshotsDir, name)))
      ensures process.Some? && migrate.Failure? ==> r == Failure(CommandFailed(migrate.error))
      ensures process.Some? && migrate.Success? ==>
                r.Success? && EndsWith(r.value, name + StateSuffix) && r.value == SnapshotPath(snapshotsDir, name)
    {
      if process.None? {
        return Failure(NotRunning), None;
      }
      var snapshotPath := SnapshotPath(snapshotsDir, name);
      command := Some(MigrateCommand(snapshotPath));
      match migrate
      case Failure(reason) => r := Failure(CommandFailed(reason));
      case Success(_) => r := Success(snapshotPath);
    }

    /** The `close` handler as written: it forgets whatever process is held
        now, whichever process exited, and marks the record stopped. */
    method OnProcessCloseAsWritten(pid: nat, rec: Option<VmRecord>) returns (updated: Option<VmRecord>)
      modifies this
      ensures process.None? && updated == MarkStopped(rec)
      ensures currentImage == old(currentImage) && qmpSocket == old(qmpSocket)
    {
      process := None;
      updated := MarkStopped(rec);
    }

    /** The `close` handler as intended: only the exit of the process that is
        held clears the handle and marks the record stopped; the late exit of a
        process that was already stopped and replaced changes nothing. */
    method OnProcessClose(pid: nat, rec: Option<VmRecord>) returns (updated: Option<VmRecord>)
      modifies this
      ensures old(process).Some? && old(process).value.pid == pid ==>
                process.None? && updated == MarkStopped(rec)
      ensures !(old(process).Some? && old(process).value.pid == pid) ==>
                process == old(process) && updated == rec
      ensures currentImage == old(currentImage) && qmpSocket == old(qmpSocket)
    {
      if process.Some? && process.value.pid == pid {
        process := None;
        updated := MarkStopped(rec);
      } else {
        updated := rec;
      }
    }
  }
}
