# QEMU web runner: a Dafny model of the VM server and the image uploader

The system runs one QEMU virtual machine from a browser. Its Express server
(`server/routes.ts`) keeps a single `QemuManager` that spawns
`qemu-system-x86_64` from an uploaded disk image. The manager boots `.iso`
images from a CD-ROM and everything else from a raw IDE disk. It saves and
restores VM state as `<name>.state` snapshot files by talking to QEMU over
QMP (the QEMU Machine Protocol) on a local TCP port. The HTTP routes turn
its outcomes into replies and keep the one persisted VM record in step. The
React uploader (`client/src/components/file-uploader.tsx`) checks a picked
file against an extension accept-list, shows which image is mounted, and
enables or disables each image's Mount button.

The model, module by module:

- `Strings`: JavaScript's `split`, `pop`, `join`, ASCII `toLowerCase`, `endsWith`, first-occurrence `replace` and decimal formatting.
- `FileNames`: the upload-name sanitiser and the extension rule that picks the boot device.
- `Launch`: both QEMU argument vectors as functions of the image, its file name, the RAM size and KVM availability.
- `Qmp`: the QMP reader of `sendQmpCommand`. There is a pure `Step`/`RunLines`/`Feed` specification and a `QmpSession` class whose `OnData` loop is proved against it.
- `Snapshots`: snapshot paths, existence, unlinking and the list pipeline (filter, rename, sort newest first).
- `Manager`: the `QemuManager` class (process handle, current image, QMP socket) and `resetVmStatus`.
- `Routes`: the decisions of the start, settings, stop, start-from-snapshot, save, list and delete routes.
- `FileUploader`: the client's accept-list, `currentFilename` and Mount button.

Spawning a process, the clock, `/dev/kvm` detection, the file system and the
outcome of a QMP exchange are inputs: the caller passes the process id, the
time, whether KVM is available, the directory's entries and the settled QMP
result.

## Model

| member | source | states |
|---|---|---|
| Strings.JoinSplit | server/routes.ts:151-153 | joining the pieces of a split with the separator gives the text back |
| Strings.SplitConcat | server/routes.ts:151-153 | splitting `x + y` keeps the complete pieces of `x` and continues its trailing piece with `y` |
| Strings.LastSegmentIsSuffix | server/routes.ts:64 | `split(sep).pop()` is a separator-free suffix, preceded by a separator unless it is the whole string |
| Strings.LastSegmentAfterSeparator | server/routes.ts:64 | the last segment of `p + sep + q` is `q` when `q` has no separator |
| Strings.FirstOccurrence | server/routes.ts:468 | the index found is an occurrence and no earlier index is one; `None` means there is no occurrence |
| Strings.NatToString | server/routes.ts:449-450 | the decimal text of a timestamp is non-empty and all digits |
| Strings.NatToStringValue | server/routes.ts:449-450 | reading the printed digits back as a decimal number gives the timestamp |
| Strings.NatToStringInjective | server/routes.ts:449-450 | different timestamps print differently |
| FileNames.Sanitize | server/routes.ts:31 | same length; every output character is in `[a-zA-Z0-9._-]`; safe characters are kept and all others become `_` |
| FileNames.SanitizeIdempotent | server/routes.ts:31 | sanitising twice equals sanitising once |
| FileNames.SanitizeKeepsSafeNames | server/routes.ts:31 | a name made only of safe characters is stored unchanged |
| FileNames.Extension | server/routes.ts:64 | no file name gives `""`; otherwise the lowercased text after the last dot, which holds no dot |
| FileNames.ExtensionOf | server/routes.ts:64 | the extension of `stem.ext` is the lowercase of `ext` whatever the stem holds |
| FileNames.OpticalExamples | server/routes.ts:64-65 | `FLEX.ISO`, `a.zip.iso` and a bare `iso` are optical |
| FileNames.DiskExamples | server/routes.ts:64-66 | `a.iso.zip`, `chromeos_flex.bin` and a missing file name are raw disks |
| Launch.VectorPrefix | server/routes.ts:73-74 | the base options take 20 slots after the optional `-enable-kvm`, starting with `-m <ramMb>M` |
| Launch.VectorParts | server/routes.ts:104-105 | `unshift('-enable-kvm')` only prefixes the base options, so both vectors are base, then the rest |
| Launch.FlagsNotInBase | server/routes.ts:73-84 | none of `-cdrom`, `-drive`, `-boot`, `-enable-kvm` is a base option |
| Launch.VectorBootDevice | server/routes.ts:86-98 | the media and boot pairs follow the base options; the other attachment flag is absent from the vector |
| Launch.BootDeviceSelection | server/routes.ts:63-98 | an `iso` image gives `-cdrom <path> -boot d` and no `-drive`; any other gives `-drive file=<path>,format=raw,if=ide,index=0,media=disk -boot c` and no `-cdrom`; the vector has 28 entries plus the optional KVM flag |
| Launch.KvmFlagPlacement | server/routes.ts:104-109 | with KVM both vectors are `-enable-kvm` followed by the vector without KVM, which does not hold the flag |
| Launch.MemoryAndNetwork | server/routes.ts:73-102 | `-m` is followed by `<ramMb>M` and both vectors end with `-net nic,model=e1000 -net user` |
| Launch.RestoreVectorShape | server/routes.ts:231-252 | the restore vector is the launch vector with `-incoming exec:cat <snapshot>` after the base options and the `-boot` pair removed |
| Launch.RestoreHasNoBoot | server/routes.ts:231-252 | the restore vector holds no `-boot` |
| Qmp.ErrorText | server/routes.ts:173 | the rejection text is the error's non-empty `desc`, else `QMP error`; it is never empty |
| Qmp.Step | server/routes.ts:159-174 | the only writes are `qmp_capabilities` on a greeting before initialisation and the caller's command on a `return` after it; a settled promise stays settled; it resolves only with a `return` once the command is out; the error branch rejects; unparsable or memberless lines change nothing |
| Qmp.Feed | server/routes.ts:151-153 | the complete lines and the new buffer, joined with newlines, are the old buffer plus the chunk; neither holds a newline |
| Qmp.RunLinesKeepsNegotiation | server/routes.ts:155-178 | the handshake invariant survives every sequence of lines: nothing sent, then `[qmp_capabilities]`, then `[qmp_capabilities, cmd]` |
| Qmp.SendsAtMostOnce | server/routes.ts:159-170 | capabilities are sent at most once and first, the command at most once and after them, and a resolved call has sent both |
| Qmp.NoGreetingNoCommand | server/routes.ts:159-163 | without a greeting nothing is written and the call never resolves |
| Qmp.SettledIsFinal | server/routes.ts:169-173 | once resolved or rejected, no later line changes the outcome |
| Qmp.RunLinesAppend | server/routes.ts:155 | walking `a + b` is walking `a`, then `b` |
| Qmp.FeedConcat | server/routes.ts:150-153 | feeding two chunks in turn yields the lines and buffer of feeding their concatenation |
| Qmp.ChunkBoundariesDoNotMatter | server/routes.ts:150-179 | two `data` events leave the same state and buffer as one event carrying both chunks |
| Qmp.HandshakeCompletes | server/routes.ts:159-170 | greeting, acknowledgement, response: both commands are written in order and the call resolves with the response |
| Qmp.QmpSession.constructor | server/routes.ts:141-144 | a fresh reader: empty buffer, not initialised, command pending, nothing sent |
| Qmp.QmpSession.OnData | server/routes.ts:150-179 | the lines walked and the new buffer are `Feed` of the old buffer and the chunk, and the new state is `RunLines` over them |
| Qmp.QmpSession.OnTimeout | server/routes.ts:182-186 | the socket is closed and a pending call rejects with `QMP timeout` |
| Qmp.QmpSession.OnSocketError | server/routes.ts:181 | a pending call rejects with the socket error's message |
| Snapshots.SnapshotPath | server/routes.ts:280-282 | the path is inside the snapshot directory and ends in `.state` |
| Snapshots.SnapshotPathFile | server/routes.ts:280-282 | for a slash-free name the file in the directory is `<name>.state` |
| Snapshots.Unlink | server/routes.ts:490 | the unlinked file is gone and every other entry stays |
| Snapshots.StateEntries | server/routes.ts:461-472 | exactly the `.state` entries, each described by its stripped name, mtime and size |
| Snapshots.StateEntriesMultiplicity | server/routes.ts:462-472 | each description occurs as often as there are `.state` entries it describes, so two files that strip to the same name are both listed |
| Snapshots.Insert | server/routes.ts:473 | insertion adds exactly one element |
| Snapshots.InsertKeepsOrder | server/routes.ts:473 | inserting into a newest-first list keeps it newest first |
| Snapshots.SortNewestFirst | server/routes.ts:473 | the sort is a permutation and the result is newest first |
| Snapshots.ListSnapshots | server/routes.ts:459-479 | a failed directory read gives `[]`; otherwise a newest-first permutation of the `.state` entries |
| Snapshots.ListedIffStateFile | server/routes.ts:462-471 | a snapshot is listed exactly when a `.state` file describes it |
| Snapshots.StripsFirstOccurrenceOnly | server/routes.ts:468 | `a.state.state` is listed as `a.state` |
| Snapshots.StripStateSuffix | server/routes.ts:468 | a dot-free name with `.state` appended is listed under that name |
| Snapshots.SavedSnapshotIsListed | server/routes.ts:459-471 | a saved `<name>.state` file appears in the listing under `name` with its mtime and size |
| Manager.ResetVmStatus | server/routes.ts:288-294 | a `running` record becomes `stopped` with every other field kept; any other record, or none, is untouched |
| Manager.ResetIsIdempotent | server/routes.ts:288-294 | resetting twice equals resetting once |
| Manager.QemuManager.constructor | server/routes.ts:48-52 | no process, no current image, no QMP socket |
| Manager.QemuManager.Start | server/routes.ts:54-123 | with a process held it throws `VM is already running` and changes nothing; otherwise it records the image and holds a process spawned with the launch vector |
| Manager.QemuManager.StartFromSnapshot | server/routes.ts:214-278 | the running check comes before the snapshot check; a missing snapshot throws `Snapshot not found` and changes nothing; otherwise it spawns with the restore vector for `<dir>/<name>.state` |
| Manager.QemuManager.Stop | server/routes.ts:125-134 | afterwards no process and no QMP socket are held, whatever the state before |
| Manager.QemuManager.IsRunning | server/routes.ts:136-138 | true exactly when a process is held |
| Manager.QemuManager.SaveSnapshot | server/routes.ts:190-212 | it throws `VM is not running` without a process; otherwise it sends `migrate` to `exec:cat > <dir>/<name>.state` and answers that path, or fails with the QMP error |
| Manager.QemuManager.OnProcessCloseAsWritten | server/routes.ts:116-122 | any process exit clears the handle and marks the record stopped |
| Manager.QemuManager.OnProcessClose | server/routes.ts:116-122 | only the held process's exit clears the handle and marks the record stopped; a stale exit changes nothing |
| Routes.StartRoute | server/routes.ts:370-383 | 400 without an image; 500 with the manager's message when it refuses; otherwise 200, QEMU runs with the record's image and RAM, and the record becomes `running` |
| Routes.UpdateSettings | server/routes.ts:386-409 | 400 while running; 404 without a record; otherwise the sent sizes are stored, an unsent field keeps its stored value, and nothing else changes |
| Routes.UpdateSettingsAsWritten | server/routes.ts:386-409 | the record is never changed and the reply is never 200: 400 while running, 404 without a record, 500 otherwise |
| Routes.SettingsNeverApplied | server/routes.ts:399-402 | on a stopped VM, 2048 MB is answered with a 500 and 512 stays, where the intended route stores 2048 and keeps 16 |
| Routes.StopRoute | server/routes.ts:411-418 | always 200; with a record the manager holds no process or socket and the record is `stopped`; without one nothing changes |
| Routes.StartFromSnapshotRoute | server/routes.ts:421-440 | checks in order: name required (400), image required (400), already running (500), snapshot missing (500); otherwise 200, QEMU runs with the restore vector for `<dir>/<name>.state`, the QMP socket flag is kept, and the record becomes `running` |
| Routes.SnapshotName | server/routes.ts:449-450 | `snapshot_` followed by digits, with no dot or slash |
| Routes.SnapshotNameInjective | server/routes.ts:449-450 | saves at different times get different names |
| Routes.SaveSnapshotRoute | server/routes.ts:443-457 | 400 when not running; otherwise `migrate` to the named file, then 200 with the name or 500 with the QMP error |
| Routes.SavedNameIsListed | server/routes.ts:449-472 | the name the save route answers with is the name the list route shows |
| Routes.DeleteSnapshotRoute | server/routes.ts:481-495 | 404 and nothing removed when absent; 500 with the message when unlinking throws; otherwise 200, the file is gone and every other entry stays |
| Routes.StartStopScenario | server/routes.ts:370-418 | start then stop: running after the start, not after the stop, and the record says `stopped` |
| Routes.DoubleStartScenario | server/routes.ts:370-383 | a second start without a stop gets 500 `VM is already running` and the first process stays |
| Routes.StaleCloseAsWritten | server/routes.ts:116-122 | start, stop, start, then the first process's exit: the manager forgets the running second process and the record says `stopped` |
| Routes.StaleCloseIgnored | server/routes.ts:116-122 | the same sequence with the corrected handler: process 2 is still held and the record says `running` |
| FileUploader.AcceptedIffExtension | client/src/components/file-uploader.tsx:45-49 | a file is accepted exactly when the server's extension rule gives `bin`, `iso` or `img` |
| FileUploader.AcceptedFileBootDevice | client/src/components/file-uploader.tsx:46-49 | an accepted file boots from CD-ROM on the server exactly when it is `.iso`; otherwise it is `.bin` or `.img` |
| FileUploader.CaseIsIgnored | client/src/components/file-uploader.tsx:47 | `FLEX.BIN` and `disk.Img` are accepted |
| FileUploader.OnlyLastSegmentCounts | client/src/components/file-uploader.tsx:47 | `a.iso.zip` is rejected; `a.zip.iso` and a bare `iso` are accepted |
| FileUploader.HandleFile | client/src/components/file-uploader.tsx:45-58 | the file is uploaded exactly when accepted; otherwise the `Invalid file type` toast is shown |
| FileUploader.CurrentFilename | client/src/components/file-uploader.tsx:17 | none exactly for a missing or empty path; otherwise the whole slash-free suffix of the path, preceded by a `/` unless it is the whole path |
| FileUploader.UploadedImageFilename | client/src/components/file-uploader.tsx:17 | an image stored under its sanitised name is shown under that name |
| FileUploader.MountButtonFor | client/src/components/file-uploader.tsx:193-215 | disabled exactly while the image is mounting or mounted; `Mounted` exactly for the current image; `Mount` exactly when the button can be pressed |

## Left out

- The VNC WebSocket proxy, the upload route with its multer limits, and the GET route are not modelled. They only move bytes or create the record.
- Spawning, killing, `console` logging, the one- and two-second sleeps and the 10-second socket timer are not modelled. The timer appears only as the `OnTimeout` event.
- `JSON.parse` and `JSON.stringify` are abstract. A line becomes a `Qmp.Reply` through a caller-supplied `parse`, and a written command is a `Qmp.Command` value.
- The VM record store is the value `Option<VmRecord>` that each route returns. Store errors, and the database behind the store, are not modelled.
- `path.join` normalisation is not modelled: a snapshot path is `dir + "/" + name + ".state"`. Existence is a lookup among the directory's entries, so names with `..` or `/` are not resolved against other directories.
- `Strings.AsciiLower`: `toLowerCase` is modelled on ASCII letters only. This is exact for the accept-list and `iso` comparisons, but not for other scripts.
- `FileNames.Sanitize`: replaces per character (code point), whereas the JavaScript regex works on UTF-16 code units. A character outside the BMP becomes one `_` here and two in the source.
- `Snapshots.ListSnapshots`: `createdAt` is the mtime in milliseconds rather than its ISO-8601 text. Sorting by the parsed time is the same order.
- `Snapshots.SortNewestFirst`: the order of equal timestamps is not stated, only the permutation and the newest-first order.
- `Manager.QemuManager.StartFromSnapshot`: the `cont` command sent after the restore is not part of the result. Its failure is only logged, and the caller runs it in its own `Qmp.QmpSession`.
- `Manager.QemuManager.Stop`: the QMP socket is a flag. The source never assigns a socket to that field, so in practice only the process is released. `monitorSocket` is never used and is not modelled.
- `Manager.QemuManager.Start`: the VRAM size is only logged and never reaches the vector.
- `Qmp.QmpSession.OnData`: writes after the socket was ended are not distinguished from earlier ones.
- Each route is one atomic step. In the source, `startFromSnapshot` awaits a one-second sleep and then a whole QMP `cont` exchange before the route writes `running`. A stop request or a process exit in that window can leave the record `running` with no process held. The same applies to the two-second wait in `saveSnapshot`. These interleavings are not modelled.
- `Qmp.ChunkBoundariesDoNotMatter`: holds for the decoded text of the chunks. `data.toString()` decodes each chunk on its own, so a multi-byte UTF-8 character split across two `data` events does not decode to the text of one event. Bytes and their decoding are not modelled.
- Integer widths play no part: RAM sizes and timestamps are unbounded integers, and JavaScript numbers in this range are exact.

## Findings

| source | as written | input that shows it | evidently intended | confidence | as-written member | corrected member |
|---|---|---|---|---|---|---|
| server/routes.ts:116-122 | the `close` handler sets `this.process = null` and marks the record stopped whichever process exited | start (process 1), stop, start (process 2), then process 1's delayed `close` event: the manager forgets process 2, which keeps running, and the record says `stopped` | only the exit of the process currently held clears the handle and the status | not executed | Manager.QemuManager.OnProcessCloseAsWritten, Routes.StaleCloseAsWritten | Manager.QemuManager.OnProcessClose, Routes.StaleCloseIgnored |
| server/routes.ts:399-402 | the settings route calls `storage.updateVmSettings`, which `server/storage.ts` does not define; the TypeError is caught and answered with 500 | PATCH `{ramMb: 2048}` on a stopped VM with a record: 500, and RAM stays 512 | store the sent sizes, keeping any field not sent, and return the record | not executed | Routes.UpdateSettingsAsWritten, Routes.SettingsNeverApplied | Routes.UpdateSettings |
