/** The argument vector handed to `qemu-system-x86_64` by `start`
    (server/routes.ts:63-109) and by `startFromSnapshot`
    (server/routes.ts:228-256). The vectors are pure functions of the image
    path, the original file name, the RAM size and whether the host exposes
    `/dev/kvm`; the VRAM size is logged by the source but never reaches the
    vector, so it is not a parameter here. */
module Launch {

  import opened Wrappers
  import opened Strings
  import opened FileNames

  /** The local QMP control port and VNC display the vectors listen on. */
  const QmpListener := "tcp:127.0.0.1:4444,server,nowait"
  const VncListener := "127.0.0.1:0"

  /** `${ramMb}M`. */
  function RamArg(ramMb: int): string
  {
    IntToString(ramMb) + "M"
  }

  /** The options common to both vectors: memory, one `qemu64` CPU, throttled
      instruction counting, a UTC clock on VM time, local VNC, an absolute
      pointer, the cirrus adapter and the local QMP listener. */
  function BaseArgs(ramMb: int): seq<string>
  {
    [ "-m", RamArg(ramMb),
      "-smp", "1",
      "-cpu", "qemu64",
      "-icount", "shift=auto,sleep=on",
      "-rtc", "base=utc,clock=vm",
      "-vnc", VncListener,
      "-device", "usb-ehci",
      "-device", "usb-tablet",
      "-vga", "cirrus",
      "-qmp", QmpListener ]
  }

  /** The raw IDE disk specification for a non-optical image. */
  function DriveSpec(imagePath: string): string
  {
    "file=" + imagePath + ",format=raw,if=ide,index=0,media=disk"
  }

  /** The image attachment: a CD-ROM for an optical image, a raw IDE disk otherwise. */
  function MediaArgs(imagePath: string, optical: bool): seq<string>
  {
    if optical then ["-cdrom", imagePath] else ["-drive", DriveSpec(imagePath)]
  }

  /** The boot device: `d` (CD-ROM) for an optical image, `c` (hard disk) otherwise. */
  function BootArgs(optical: bool): seq<string>
  {
    ["-boot", if optical then "d" else "c"]
  }

  const NetArgs: seq<string> := ["-net", "nic,model=e1000", "-net", "user"]

  /** `args.unshift('-enable-kvm')` when the host has `/dev/kvm`. */
  function WithKvm(kvm: bool, args: seq<string>): seq<string>
  {
    if kvm then ["-enable-kvm"] + args else args
  }

  /** The vector for an image that is (`optical`) or is not attached as a CD-ROM. */
  function Vector(imagePath: string, optical: bool, ramMb: int, kvm: bool): seq<string>
  {
    WithKvm(kvm, BaseArgs(ramMb) + MediaArgs(imagePath, optical) + BootArgs(optical) + NetArgs)
  }

  /** The vector `start` spawns QEMU with. */
  function LaunchArgs(imagePath: string, originalFilename: Option<string>, ramMb: int, kvm: bool): seq<string>
  {
    Vector(imagePath, IsOptical(originalFilename), ramMb, kvm)
  }

  /** `exec:cat <snapshotPath>`: the inbound-migration source reading a snapshot file. */
  function IncomingSource(snapshotPath: string): string
  {
    "exec:cat " + snapshotPath
  }

  /** The restore vector for an image that is or is not attached as a CD-ROM:
      the base options, the inbound migration from the snapshot file, the
      image, and no boot device. */
  function RestoreVector(imagePath: string, optical: bool, ramMb: int, kvm: bool, snapshotPath: string): seq<string>
  {
    WithKvm(kvm, BaseArgs(ramMb) + ["-incoming", IncomingSource(snapshotPath)] + MediaArgs(imagePath, optical) + NetArgs)
  }

  /** The vector `startFromSnapshot` spawns QEMU with. */
  function RestoreArgs(imagePath: string, originalFilename: Option<string>, ramMb: int, kvm: bool, snapshotPath: string): seq<string>
  {
    RestoreVector(imagePath, IsOptical(originalFilename), ramMb, kvm, snapshotPath)
  }

  /** Where the vector without `-enable-kvm` starts inside the full vector. */
  function Offset(kvm: bool): nat
  {
    if kvm then 1 else 0
  }

  /** Cutting a four-part concatenation back into its parts. */
  lemma Segments(pre: seq<string>, a: seq<string>, b: seq<string>, c: seq<string>)
    ensures var s := pre + a + b + c;
            && s[..|pre|] == pre
            && s[|pre|..|pre| + |a| + |b|] == a + b
            && s[|pre|..|pre| + |a|] == a
            && s[|pre| + |a| + |b|..] == c
  {
    var s := pre + a + b + c;
    assert s == pre + (a + b) + c;
    assert s == pre + a + (b + c);
  }

  /** The prefix a vector starts with: `-enable-kvm` when asked for, then the base options. */
  lemma VectorPrefix(ramMb: int, kvm: bool)
    ensures |WithKvm(kvm, BaseArgs(ramMb))| == Offset(kvm) + 20
    ensures WithKvm(kvm, BaseArgs(ramMb))[Offset(kvm)] == "-m"
    ensures WithKvm(kvm, BaseArgs(ramMb))[Offset(kvm) + 1] == RamArg(ramMb)
  {
  }

  /** Both vectors are the (possibly KVM-prefixed) base options followed by
      the rest: moving `-enable-kvm` inside the concatenation. */
  lemma VectorParts(imagePath: string, optical: bool, ramMb: int, kvm: bool, snapshotPath: string)
    ensures Vector(imagePath, optical, ramMb, kvm)
            == WithKvm(kvm, BaseArgs(ramMb)) + MediaArgs(imagePath, optical) + BootArgs(optical) + NetArgs
    ensures RestoreVector(imagePath, optical, ramMb, kvm, snapshotPath)
            == WithKvm(kvm, BaseArgs(ramMb)) + ["-incoming", IncomingSource(snapshotPath)] + MediaArgs(imagePath, optical) + NetArgs
  {
    var base := BaseArgs(ramMb);
    var media := MediaArgs(imagePath, optical);
    var incoming := ["-incoming", IncomingSource(snapshotPath)];
    if kvm {
      assert ["-enable-kvm"] + (base + media + BootArgs(optical) + NetArgs)
             == (["-enable-kvm"] + base) + media + BootArgs(optical) + NetArgs;
      assert ["-enable-kvm"] + (base + incoming + media + NetArgs)
             == (["-enable-kvm"] + base) + incoming + media + NetArgs;
    }
  }

  /** None of the option flags the properties below look for is among the base
      options: the only computed one, `<ramMb>M`, ends in `M`. */
  lemma FlagsNotInBase(ramMb: int, flag: string)
    requires flag in ["-cdrom", "-drive", "-boot", "-enable-kvm"]
    ensures flag !in BaseArgs(ramMb)
  {
    var r := RamArg(ramMb);
    assert r[|r| - 1] == 'M';
  }

  /** The media and boot options sit right after the base options; the
      attachment flag of the other kind is absent from the whole vector. */
  lemma VectorBootDevice(imagePath: string, optical: bool, ramMb: int, kvm: bool)
    ensures var argv := Vector(imagePath, optical, ramMb, kvm);
            var k := Offset(kvm) + 20;
            && |argv| == k + 8
            && argv[k..k + 4] == MediaArgs(imagePath, optical) + BootArgs(optical)
            && (optical && imagePath != "-drive" ==> "-drive" !in argv)
            && (!optical ==> "-cdrom" !in argv)
  {
    var base := WithKvm(kvm, BaseArgs(ramMb));
    var media := MediaArgs(imagePath, optical);
    VectorParts(imagePath, optical, ramMb, kvm, "");
    VectorPrefix(ramMb, kvm);
    Segments(base, media, BootArgs(optical), NetArgs);
    if !optical {
      FlagsNotInBase(ramMb, "-cdrom");
      assert DriveSpec(imagePath)[0] == 'f';
      assert "-cdrom" !in media;
    } else if imagePath != "-drive" {
      FlagsNotInBase(ramMb, "-drive");
      assert "-drive" !in media;
    }
  }

  /** Boot-device selection: an optical image is attached with
      `-cdrom <imagePath>` and booted with `-boot d`, and no `-drive` option
      appears; any other image is attached with `-drive file=<imagePath>,...`
      and booted with `-boot c`, and no `-cdrom` appears. This holds for every
      RAM size and with or without KVM. */
  lemma BootDeviceSelection(imagePath: string, originalFilename: Option<string>, ramMb: int, kvm: bool)
    ensures var argv := LaunchArgs(imagePath, originalFilename, ramMb, kvm);
            var k := Offset(kvm) + 20;
            && |argv| == k + 8
            && (IsOptical(originalFilename) ==>
                  && argv[k..k + 4] == ["-cdrom", imagePath, "-boot", "d"]
                  && (imagePath != "-drive" ==> "-drive" !in argv))
            && (!IsOptical(originalFilename) ==>
                  && argv[k..k + 4] == ["-drive", DriveSpec(imagePath), "-boot", "c"]
                  && "-cdrom" !in argv)
  {
    VectorBootDevice(imagePath, IsOptical(originalFilename), ramMb, kvm);
  }

  /** `-enable-kvm` comes first exactly when the host has KVM; the rest of the
      vector is the one built without it, which does not hold the flag. */
  lemma KvmFlagPlacement(imagePath: string, originalFilename: Option<string>, ramMb: int, snapshotPath: string)
    ensures var plain := LaunchArgs(imagePath, originalFilename, ramMb, false);
            && LaunchArgs(imagePath, originalFilename, ramMb, true) == ["-enable-kvm"] + plain
            && (imagePath != "-enable-kvm" ==> "-enable-kvm" !in plain)
    ensures var plain := RestoreArgs(imagePath, originalFilename, ramMb, false, snapshotPath);
            && RestoreArgs(imagePath, originalFilename, ramMb, true, snapshotPath) == ["-enable-kvm"] + plain
            && (imagePath != "-enable-kvm" ==> "-enable-kvm" !in plain)
  {
    var optical := IsOptical(originalFilename);
    FlagsNotInBase(ramMb, "-enable-kvm");
    assert DriveSpec(imagePath)[0] == 'f';
    assert IncomingSource(snapshotPath)[0] == 'e';
    if imagePath != "-enable-kvm" {
      assert "-enable-kvm" !in MediaArgs(imagePath, optical);
    }
  }

  /** `-m` is followed by `<ramMb>M`, and the vector ends with the user-mode
      e1000 network options. */
  lemma MemoryAndNetwork(imagePath: string, originalFilename: Option<string>, ramMb: int, kvm: bool, snapshotPath: string)
    ensures var argv := LaunchArgs(imagePath, originalFilename, ramMb, kvm);
            var k := Offset(kvm);
            && argv[k] == "-m" && argv[k + 1] == RamArg(ramMb)
            && argv[|argv| - 4..] == NetArgs
    ensures var argv := RestoreArgs(imagePath, originalFilename, ramMb, kvm, snapshotPath);
            var k := Offset(kvm);
            && argv[k] == "-m" && argv[k + 1] == RamArg(ramMb)
            && argv[|argv| - 4..] == NetArgs
  {
    var optical := IsOptical(originalFilename);
    var base := WithKvm(kvm, BaseArgs(ramMb));
    var media := MediaArgs(imagePath, optical);
    VectorParts(imagePath, optical, ramMb, kvm, snapshotPath);
    VectorPrefix(ramMb, kvm);
    Segments(base, media, BootArgs(optical), NetArgs);
    Segments(base, ["-incoming", IncomingSource(snapshotPath)], media, NetArgs);
  }

  /** The restore vector is the launch vector with its `-boot <device>` pair
      dropped and `-incoming exec:cat <snapshotPath>` placed after the base
      options. */
  lemma RestoreVectorShape(imagePath: string, originalFilename: Option<string>, ramMb: int, kvm: bool, snapshotPath: string)
    ensures var launch := LaunchArgs(imagePath, originalFilename, ramMb, kvm);
            var k := Offset(kvm) + 20;
            && |launch| == k + 8
            && launch[k + 2] == "-boot"
            && RestoreArgs(imagePath, originalFilename, ramMb, kvm, snapshotPath)
               == launch[..k] + ["-incoming", IncomingSource(snapshotPath)] + launch[k..k + 2] + launch[k + 4..]
  {
    var optical := IsOptical(originalFilename);
    var base := WithKvm(kvm, BaseArgs(ramMb));
    var media := MediaArgs(imagePath, optical);
    var boot := BootArgs(optical);
    VectorParts(imagePath, optical, ramMb, kvm, snapshotPath);
    VectorPrefix(ramMb, kvm);
    Segments(base, media, boot, NetArgs);
    var launch := base + media + boot + NetArgs;
    assert launch[|base| + 2] == boot[0];
  }

  /** The restore vector selects no boot device. */
  lemma RestoreHasNoBoot(imagePath: string, originalFilename: Option<string>, ramMb: int, kvm: bool, snapshotPath: string)
    requires imagePath != "-boot"
    ensures "-boot" !in RestoreArgs(imagePath, originalFilename, ramMb, kvm, snapshotPath)
  {
    var optical := IsOptical(originalFilename);
    FlagsNotInBase(ramMb, "-boot");
    assert IncomingSource(snapshotPath)[0] == 'e';
    assert DriveSpec(imagePath)[0] == 'f';
    assert "-boot" !in MediaArgs(imagePath, optical);
    assert "-boot" !in BaseArgs(ramMb) + ["-incoming", IncomingSource(snapshotPath)] + MediaArgs(imagePath, optical) + NetArgs;
  }
}
