/** The decisions of the HTTP routes that drive the manager
    (server/routes.ts:370-495). The record store is the plain value
    `Option<VmRecord>` (`None`: no record yet); each route returns its reply
    and the record as it leaves it. The snapshot directory is the sequence of
    its entries. */
module Routes {

  import opened Wrappers
  import opened Strings
  import opened Launch
  import opened Snapshots
  import opened Manager
  import Qmp

  datatype Body =
    | Message(text: string)
    | VmBody(record: VmRecord)
    | SavedSnapshot(name: string)
    | SnapshotList(entries: seq<SnapshotInfo>)

  datatype HttpReply = HttpReply(code: nat, body: Body)

  /** `vm && vm.imagePath`: a record exists and names a (non-empty) image path. */
  predicate HasImage(rec: Option<VmRecord>)
  {
    rec.Some? && rec.value.imagePath.Some? && rec.value.imagePath.value != ""
  }

  /** POST start: 400 without an image; 500 with the manager's message when
      it refuses; otherwise QEMU runs with the record's image and RAM, and the
      record becomes 'running'. */
  method StartRoute(m: QemuManager, rec: Option<VmRecord>, kvm: bool, pid: nat)
    returns (reply: HttpReply, updated: Option<VmRecord>)
    modifies m
    ensures !HasImage(rec) ==>
              reply == HttpReply(400, Message("No image uploaded")) && updated == rec && unchanged(m)
    ensures HasImage(rec) && old(m.process).Some? ==>
              reply == HttpReply(500, Message("VM is already running")) && updated == rec && unchanged(m)
    ensures HasImage(rec) && old(m.process).None? ==>
              && reply == HttpReply(200, Message("VM started"))
              && updated == Some(rec.value.(status := Running))
              && m.process == Some(Process(pid, LaunchArgs(rec.value.imagePath.value, rec.value.imageFilename, rec.value.ramMb, kvm)))
              && m.currentImage == rec.value.imagePath
              && m.qmpSocket == old(m.qmpSocket)
  {
    if !HasImage(rec) {
      return HttpReply(400, Message("No image uploaded")), rec;
    }
    var vm := rec.value;
    var c := m.Start(vm.imagePath.value, vm.imageFilename, vm.ramMb, vm.vramMb, kvm, pid);
    match c
    case Failed(e) =>
      reply, updated := HttpReply(500, Message(ErrorMessage(e))), rec;
    case Done =>
      reply, updated := HttpReply(200, Message("VM started")), Some(vm.(status := Running));
  }

  /** `ramMb ?? vm.ramMb`: a field sent as null or left out keeps the stored value. */
  function Merge(sent: Option<int>, stored: int): int
  {
    if sent.Some? then sent.value else stored
  }

  /** PATCH settings, as intended: refused while running; 404 without a
      record; otherwise the record gets the sent RAM and VRAM sizes, keeping
      the stored value of any field not sent, and is returned. */
  function UpdateSettings(running: bool, rec: Option<VmRecord>, ramMb: Option<int>, vramMb: Option<int>)
    : (r: (HttpReply, Option<VmRecord>))
    ensures running ==> r == (HttpReply(400, Message("Stop VM before changing settings")), rec)
    ensures !running && rec.None? ==> r == (HttpReply(404, Message("No VM found")), rec)
    ensures !running && rec.Some? ==>
              && r.1.Some? && r.0 == HttpReply(200, VmBody(r.1.value))
              && (ramMb.None? ==> r.1.value.ramMb == rec.value.ramMb)
              && (ramMb.Some? ==> r.1.value.ramMb == ramMb.value)
              && (vramMb.None? ==> r.1.value.vramMb == rec.value.vramMb)
              && (vramMb.Some? ==> r.1.value.vramMb == vramMb.value)
              && r.1.value == rec.value.(ramMb := r.1.value.ramMb, vramMb := r.1.value.vramMb)
  {
    if running then (HttpReply(400, Message("Stop VM before changing settings")), rec)
    else if rec.None? then (HttpReply(404, Message("No VM found")), rec)
    else
      var vm := rec.value.(ramMb := Merge(ramMb, rec.value.ramMb), vramMb := Merge(vramMb, rec.value.vramMb));
      (HttpReply(200, VmBody(vm)), Some(vm))
  }

  /** PATCH settings as written: the record store has no `updateVmSettings`,
      so once the two guards pass, the call throws a TypeError that the
      route's `catch` turns into a 500, and nothing is stored. */
  function UpdateSettingsAsWritten(running: bool, rec: Option<VmRecord>, ramMb: Option<int>, vramMb: Option<int>)
    : (r: (HttpReply, Option<VmRecord>))
    ensures r.1 == rec
    ensures r.0.code != 200
    ensures running ==> r.0.code == 400
    ensures !running && rec.None? ==> r.0.code == 404
    ensures !running && rec.Some? ==> r.0.code == 500
  {
    if running then (HttpReply(400, Message("Stop VM before changing settings")), rec)
    else if rec.None? then (HttpReply(404, Message("No VM found")), rec)
    else (HttpReply(500, Message("storage.updateVmSettings is not a function")), rec)
  }

  /** The discrepancy: on a stopped VM, asking for 2048 MB of RAM is answered
      with a 500 and the stored 512 MB stays, where the intended route stores
      2048 and keeps the VRAM size. */
  lemma SettingsNeverApplied()
    ensures var vm := VmRecord(1, "My VM", Stopped, None, None, DefaultRamMb, DefaultVramMb);
            && UpdateSettingsAsWritten(false, Some(vm), Some(2048), None).0.code == 500
            && UpdateSettingsAsWritten(false, Some(vm), Some(2048), None).1.value.ramMb == 512
            && UpdateSettings(false, Some(vm), Some(2048), None).1.value.ramMb == 2048
            && UpdateSettings(false, Some(vm), Some(2048), None).1.value.vramMb == 16
  {
  }

  /** POST stop: with a record, stop the manager and mark the record stopped;
      without one, nothing is stopped. The reply is a success either way. */
  method StopRoute(m: QemuManager, rec: Option<VmRecord>) returns (reply: HttpReply, updated: Option<VmRecord>)
    modifies m
    ensures reply == HttpReply(200, Message("VM stopped"))
    ensures rec.Some? ==>
              m.process.None? && !m.qmpSocket && m.currentImage == old(m.currentImage)
              && updated == Some(rec.value.(status := Stopped))
    ensures rec.None? ==> unchanged(m) && updated == rec
  {
    updated := rec;
    if rec.Some? {
      m.Stop();
      updated := Some(rec.value.(status := Stopped));
    }
    reply := HttpReply(200, Message("VM stopped"));
  }

  /** POST start-from-snapshot: a name is required, then an image; the
      manager's refusals come back as 500 with their message; on success the
      record becomes 'running'. */
  method StartFromSnapshotRoute(m: QemuManager, snapshotName: Option<string>, rec: Option<VmRecord>,
                                dir: seq<DirEntry>, kvm: bool, pid: nat)
    returns (reply: HttpReply, updated: Option<VmRecord>)
    modifies m
    ensures snapshotName.None? || snapshotName.value == "" ==>
              reply == HttpReply(400, Message("Snapshot name required")) && updated == rec && unchanged(m)
    ensures snapshotName.Some? && snapshotName.value != "" && !HasImage(rec) ==>
              reply == HttpReply(400, Message("No image uploaded")) && updated == rec && unchanged(m)
    ensures snapshotName.Some? && snapshotName.value != "" && HasImage(rec) && old(m.process).Some? ==>
              reply == HttpReply(500, Message("VM is already running")) && updated == rec && unchanged(m)
    ensures snapshotName.Some? && snapshotName.value != "" && HasImage(rec) && old(m.process).None?
            && !Exists(dir, snapshotName.value) ==>
              reply == HttpReply(500, Message("Snapshot not found")) && updated == rec && unchanged(m)
    ensures snapshotName.Some? && snapshotName.value != "" && HasImage(rec) && old(m.process).None?
            && Exists(dir, snapshotName.value) ==>
              && reply == HttpReply(200, Message("VM started from " + snapshotName.value))
              && updated == Some(rec.value.(status := Running))
              && m.process == Some(Process(pid, RestoreArgs(rec.value.imagePath.value, rec.value.imageFilename, rec.value.ramMb, kvm,
                                                            SnapshotPath(m.snapshotsDir, snapshotName.value))))
              && m.currentImage == rec.value.imagePath
              && m.qmpSocket == old(m.qmpSocket)
  {
    if snapshotName.None? || snapshotName.value == "" {
      return HttpReply(400, Message("Snapshot name required")), rec;
    }
    if !HasImage(rec) {
      return HttpReply(400, Message("No image uploaded")), rec;
    }
    var vm := rec.value;
    var name := snapshotName.value;
    var c := m.StartFromSnapshot(vm.imagePath.value, vm.imageFilename, name, vm.ramMb, vm.vramMb,
                                 kvm, Exists(dir, name), pid);
    match c
    case Failed(e) =>
      reply, updated := HttpReply(500, Message(ErrorMessage(e))), rec;
    case Done =>
      reply, updated := HttpReply(200, Message("VM started from " + name)), Some(vm.(status := Running));
  }

  /** `snapshot_${Date.now()}`: the name the save route gives a snapshot. It
      holds neither a dot nor a slash, so its file is `<dir>/<name>.state` and
      the listing shows it under the same name. */
  function SnapshotName(now: nat): (name: string)
    ensures '.' !in name && '/' !in name
    ensures |name| > 9 && name[..9] == "snapshot_"
    ensures forall i :: 9 <= i < |name| ==> '0' <= name[i] <= '9'
  {
    "snapshot_" + NatToString(now)
  }

  /** Saves made at different times get different names, so a later save
      never overwrites an earlier snapshot's file. */
  lemma SnapshotNameInjective(a: nat, b: nat)
    requires SnapshotName(a) == SnapshotName(b)
    ensures a == b
  {
    assert SnapshotName(a)[9..] == NatToString(a);
    assert SnapshotName(b)[9..] == NatToString(b);
    NatToStringInjective(a, b);
  }

  /** POST save snapshot: 400 unless running; otherwise `migrate` to the
      named file (the command handed to a QMP session, whose settled outcome
      is `migrate`), answering with the name or with the session's error. */
  method SaveSnapshotRoute(m: QemuManager, now: nat, migrate: Result<Qmp.Reply, string>)
    returns (reply: HttpReply, command: Option<Qmp.Command>)
    ensures m.process.None? ==> reply == HttpReply(400, Message("VM is not running")) && command.None?
    ensures m.process.Some? ==>
              command == Some(MigrateCommand(SnapshotPath(m.snapshotsDir, SnapshotName(now))))
    ensures m.process.Some? && migrate.Failure? ==> reply == HttpReply(500, Message(migrate.error))
    ensures m.process.Some? && migrate.Success? ==> reply == HttpReply(200, SavedSnapshot(SnapshotName(now)))
  {
    var running := m.IsRunning();
    if !running {
      return HttpReply(400, Message("VM is not running")), None;
    }
    var name := SnapshotName(now);
    var saved;
    saved, command := m.SaveSnapshot(name, migrate);
    match saved
    case Failure(e) => reply := HttpReply(500, Message(ErrorMessage(e)));
    case Success(_) => reply := HttpReply(200, SavedSnapshot(name));
  }

  /** A snapshot saved at time `now` and found in the directory with its
      mtime and size is listed under the name the save route answered with. */
  lemma SavedNameIsListed(now: nat, dir: seq<DirEntry>, mtime: int, size: nat)
    requires DirEntry(SnapshotName(now) + StateSuffix, mtime, size) in dir
    ensures SnapshotInfo(SnapshotName(now), mtime, size) in ListSnapshots(Some(dir))
  {
    SavedSnapshotIsListed(dir, SnapshotName(now), mtime, size);
  }

  /** DELETE snapshot: 404 when `<name>.state` is absent (nothing unlinked);
      500 with the message when unlinking throws; otherwise the file is gone
      and every other entry stays. */
  function DeleteSnapshotRoute(dir: seq<DirEntry>, name: string, unlinkError: Option<string>)
    : (r: (HttpReply, seq<DirEntry>))
    ensures !Exists(dir, name) ==> r == (HttpReply(404, Message("Snapshot not found")), dir)
    ensures Exists(dir, name) && unlinkError.Some? ==> r == (HttpReply(500, Message(unlinkError.value)), dir)
    ensures Exists(dir, name) && unlinkError.None? ==>
              && r.0 == HttpReply(200, Message("Snapshot deleted"))
              && !Exists(r.1, name)
              && (forall e :: e in r.1 ==> e in dir)
              && (forall e :: e in dir && e.file != name + StateSuffix ==> e in r.1)
  {
    if !Exists(dir, name) then (HttpReply(404, Message("Snapshot not found")), dir)
    else if unlinkError.Some? then (HttpReply(500, Message(unlinkError.value)), dir)
    else
      var rest := Unlink(dir, name + StateSuffix);
      assert !Exists(rest, name) by {
        forall i | 0 <= i < |rest| ensures rest[i].file != name + StateSuffix {
          assert rest[i] in rest;
        }
      }
      (HttpReply(200, Message("Snapshot deleted")), rest)
  }

  /** End to end: with an image configured, start succeeds and the VM runs;
      stop succeeds, the VM no longer runs and the record says 'stopped'. */
  method StartStopScenario(kvm: bool) returns (runningAfterStart: bool, runningAfterStop: bool, rec: Option<VmRecord>)
    ensures runningAfterStart && !runningAfterStop
    ensures rec.Some? && rec.value.status == Stopped
  {
    var m := new QemuManager("/srv/snapshots");
    rec := Some(VmRecord(1, "My VM", Stopped, Some("/srv/uploads/flex.bin"), Some("flex.bin"), 2048, 16));
    var reply;
    reply, rec := StartRoute(m, rec, kvm, 100);
    runningAfterStart := m.IsRunning();
    reply, rec := StopRoute(m, rec);
    runningAfterStop := m.IsRunning();
  }

  /** The late `close` of a stopped process, after a new one was started:
      with the handler as written, the manager forgets the new process and the
      record says 'stopped' although process 2 has not exited. */
  method StaleCloseAsWritten() returns (running: bool, rec: Option<VmRecord>)
    ensures !running
    ensures rec.Some? && rec.value.status == Stopped
  {
    var m := new QemuManager("/srv/snapshots");
    rec := Some(VmRecord(1, "My VM", Stopped, Some("/srv/uploads/flex.bin"), Some("flex.bin"), 512, 16));
    var reply;
    reply, rec := StartRoute(m, rec, false, 1);
    reply, rec := StopRoute(m, rec);
    reply, rec := StartRoute(m, rec, false, 2);
    rec := m.OnProcessCloseAsWritten(1, rec);
    running := m.IsRunning();
  }

  /** The same sequence with the intended handler: process 2 is still held
      and the record still says 'running'. */
  method StaleCloseIgnored() returns (running: bool, pid: nat, rec: Option<VmRecord>)
    ensures running && pid == 2
    ensures rec.Some? && rec.value.status == Running
  {
    var m := new QemuManager("/srv/snapshots");
    rec := Some(VmRecord(1, "My VM", Stopped, Some("/srv/uploads/flex.bin"), Some("flex.bin"), 512, 16));
    var reply;
    reply, rec := StartRoute(m, rec, false, 1);
    reply, rec := StopRoute(m, rec);
    reply, rec := StartRoute(m, rec, false, 2);
    rec := m.OnProcessClose(1, rec);
    running := m.IsRunning();
    pid := m.process.value.pid;
  }

  /** Starting twice without a stop: the second start is refused with
      "VM is already running" and the first process is untouched. */
  method DoubleStartScenario(kvm: bool) returns (second: HttpReply, pid: nat)
    ensures second == HttpReply(500, Message("VM is already running"))
    ensures pid == 1
  {
    var m := new QemuManager("/srv/snapshots");
    var rec := Some(VmRecord(1, "My VM", Stopped, Some("/srv/uploads/disk.img"), Some("disk.img"), 512, 16));
    var first;
    first, rec := StartRoute(m, rec, kvm, 1);
    second, rec := StartRoute(m, rec, kvm, 2);
    pid := m.process.value.pid;
  }
}
