# A verified model of Atelier's core

Atelier gives an agent a development machine: a *Workshop*, a Firecracker microVM behind a Kubernetes
pod, driven by a controller, an API server and a few helpers. Most of it is glue. This project models
the parts that are not: the protocols between processes that share a row, a status document or a pod,
the loops that must reproduce a stream exactly, the printers whose inverse is somebody else's parser,
and the rule lists and tables whose meaning is only visible as a whole.

Each part is a Dafny module (one file each):

- `Utf8`, `ExecStream`, `ExecService`: the background writer of a command's output row and any number of
  reconnecting readers, in every interleaving, with UTF-8 as in sections 3 and 4 of RFC 3629.
- `Shell`, `RunRequest`, `RunCollector`: the one-shot command runner. Its scripts are read back by a
  tokenizer for sections 2.2.1, 2.2.2 and 2.3 of POSIX.1-2017 XCU chapter 2; its message loop keeps bounded
  outputs and judges how a command ended (section 6.10 of RFC 4254).
- `MergePatch`, `WorkshopStatus`, `StatusHistory`: the status document, what serialisation makes of each
  field, section 2 of RFC 7386, and every interleaving of the two writers with arbitrarily old reads.
- `Reconcile`, `ReconcileSafety`, `ReconcileReadiness`, `ReconcileSnapshot`, `ReconcileAnnouncements`,
  `GuestProbe`: the controller as a state machine, one
  API call a step, against a changing spec, a kubelet, builds and failures.
- `Streams`, `SparseCopy`, `ObjectStore`, `SnapshotStore`: streams read in pieces of any size, sparse files,
  multipart uploads, paged deletion, and the way of a snapshot to S3 and back.
- `PacketFilter`, `GuestNetwork`, `GuestPolicy`: iptables as an interpreter, the rules of one tap, and what they
  do to every packet.
- `Eviction`, `VmSnapshot`, `Spend`, `SquadToken`: cache eviction, pausing a guest that writes, spend reports,
  and signed tokens. `Common`, `Ordering`, `Sorting`, `Decimals` and `SshChannel` are shared.

Where the source changes things step by step the model does too (classes and loops), and each such
method is tied to functions about which the laws are proved. Protocols are state machines whose runs
are arbitrary sequences of steps. `dafny verify dfyconfig.toml` checks everything.

## What the proofs found

- Stored `guestPorts` and `session` are not always values that one build published. The nested fields are
  merged one by one, so a controller that writes back an old read can mix two publications, and a
  rebuild that drops a variable leaves it stored although the comment at
  `crates/image-builder/src/main.rs:1572-1573` says null erases. Every single value is published
  (`StatusHistory.StoredValuesWerePublished`); a whole value always is if and only if overlaying two of the
  values that builds may publish gives one of the two
  (`StatusHistory.PortsArePublishedExactlyWhen`, `StatusHistory.SessionsArePublishedExactlyWhen`).
- A suspension without a snapshot does not clear `snapshotDigest`, contrary to the comment at
  `crates/controller/src/reconcile.rs:741-743`, because a computed `None` is not serialised: there is a run
  where the digest of a first pod is stored after a second was suspended without one
  (`ReconcileSnapshot.DigestOutlivesItsPod`). Nor does one with a snapshot always record it: if the status
  write fails after the deletion, the next pass stores the old digest again
  (`ReconcileSnapshot.SnapshotIsLostWithItsWrite`). With reads no older than the controller's own writes, the
  digest stored after the last deletion is what that pod answered if and only if the answer was written,
  or is what was stored before (`ReconcileSnapshot.DescribesTheLastSuspensionExactlyWhen`); with older reads
  an older digest can come back (`ReconcileSnapshot.StaleReadBringsADigestBack`).
- An upgrade that was due for one pod stays announced for the next, contrary to the comment at
  `crates/controller/src/reconcile.rs:2441-2443`, and so does a lockdown: there is a run with a new pod of
  which neither holds and both are stored (`ReconcileAnnouncements.AnnouncementsOutliveTheirPod`). Either is
  stored if and only if some write of the run ever said so
  (`ReconcileAnnouncements.AnnouncedExactlyWhenEverWritten`).
- A stored `Running` is only about the current pod if the reconciliation that creates a pod writes its
  status, reads the pod back before it runs, and later reads are not older than that write. None of the
  three can be dropped (`ReconcileReadiness.RunningIsTrueExactlyUnderTheRules`), and between creation and write
  it may still be about the pod before (`ReconcileReadiness.CreationIsAnException`).
- A failed declaration between pausing and snapshotting leaves the guest paused
  (`VmSnapshot.Vm.SnapshotInternal`).
- A restored guest starts from the saved disk if and only if the image given has the file name of the
  first boot and the other files have other names; otherwise it does not start, or takes another file of
  the jail for its disk (`VmSnapshot.RestoresExactlyWhenTheNamesFit`).
- A snapshot download falls back to the older uncompressed object on any error. What was uploaded always
  comes back if and only if there is no such object or it holds the same content
  (`SnapshotStore.ComesBackExactlyWhen`).
- A workspace folder is read back by the shell if and only if it has no character with a meaning of its own
  (`RunRequest.DirectoryIsReadExactlyWhen`); one with a semicolon starts another command
  (`RunRequest.SemicolonStartsACommand`).

## Model

| member | source | states |
|---|---|---|
| `Utf8.ValidIffEncoding` | crates/api-server/src/exec.rs:560-570 | the validity scan accepts exactly the encodings of sequences of Unicode scalar values |
| `Utf8.EncodingIsValid` | crates/api-server/src/exec.rs:560-570 | encoding then decoding is the identity, and an encoding is always valid |
| `Utf8.CutValidText` | crates/api-server/src/exec.rs:560-570 | a valid text cut anywhere scans as valid or as cut short, never as wrong |
| `ExecStream.HeldBackAtMostThree` | crates/api-server/src/exec.rs:560-570 | what a poll sends is the next bytes of the buffer; at most three are held back while the command runs, none after |
| `ExecStream.HeldBackIsACutCharacter` | crates/api-server/src/exec.rs:560-570 | what is held back, if anything, is one character cut short, after whole ones; valid text is sent whole |
| `ExecStream.EventOfAPoll` | crates/api-server/src/exec.rs:616-660 | one event a poll: standard output, else the error stream, else the ending, else a ping; and the stream ends exactly with the ending |
| `ExecStream.UnsentKeepsCharacters` | crates/api-server/src/exec.rs:560-570 | on a start of a valid text, what is sent is itself valid text |
| `ExecStream.RunKeepsInv` | crates/api-server/src/exec.rs:199-243 | the invariant of writer and readers holds after every interleaving |
| `ExecStream.NothingLost` | crates/api-server/src/exec.rs:591-677 | in every interleaving the bytes a reader emitted are exactly the first `sent` bytes of the stored buffer |
| `ExecStream.StatusIsLastAndComplete` | crates/api-server/src/exec.rs:572-677 | `status` comes at most once and last, carries the stored ending, and follows both buffers in full |
| `ExecStream.RowIsStoredChunks` | crates/api-server/src/exec.rs:470-505 | the row holds exactly the chunks stored, in order, whatever readers do in between |
| `ExecStream.ClosedStreamDeliversTheChunks` | crates/api-server/src/exec.rs:572-677 | a stream that ended with `status` delivered exactly the chunks stored |
| `ExecStream.RowOnlyGrows` | crates/api-server/src/exec.rs:470-529 | buffers are only appended to and a finished row never changes, over every run |
| `ExecStream.EndsWithinThreePolls` | crates/api-server/src/exec.rs:572-677 | once the row is final a stream ends within three successful polls |
| `ExecStream.TextSurvivesCutting` | crates/api-server/src/exec.rs:616-628 | if the final output is valid UTF-8, every slice sent is, and the event texts add up to its decoding |
| `ExecService.Execution.AppendChunk` | crates/api-server/src/exec.rs:470-505 | a chunk is a step of the protocol, stored whole or lost whole |
| `ExecService.Execution.Finalize` | crates/api-server/src/exec.rs:507-529 | finalisation is the writer's last step |
| `ExecService.Execution.Receive` | crates/api-server/src/exec.rs:380-416 | the channel loop appends exactly the data received before a close, in order and to its channel, and keeps the last exit status and signal |
| `ExecService.Execution.RunAndPersist` | crates/api-server/src/exec.rs:199-243 | the writer's log is every chunk received, then one finalisation with the judged ending, or the error and `Failed`; when no write is lost, the row has both outputs whole, the code, the signal and one of the four endings |
| `ExecService.ReceivedUntilClose` | crates/api-server/src/exec.rs:386-413 | everything before a close of the channel is received, and nothing after |
| `ExecService.ChunksAreTheOutput` | crates/api-server/src/exec.rs:394-399 | what is written to each channel is the concatenated data of its messages |
| `ExecService.EndingIsTheLast` | crates/api-server/src/exec.rs:400-411 | the ending kept is that of the last exit status and the last signal, as for the other runner |
| `ExecService.BothRunnersJudgeAlike` | crates/api-server/src/exec.rs:415-418 | both runners judge the same ending alike |
| `ExecService.EventStream.Next` | crates/api-server/src/exec.rs:591-677 | one step of the stream is one poll of the protocol, and emits exactly the event it records |
| `Shell.QuoteIsOneWord` | crates/api-server/src/run.rs:203-205 | the shell reads a quoted text as one word equal to it, for every text without NUL |
| `Shell.LexQuoted` | crates/api-server/src/run.rs:203-205 | wherever a quoted text stands, it adds exactly the text to the current word |
| `Shell.BareWordExactlyWhen` | crates/api-server/src/exec.rs:277-279 | a text written as it stands is read as one word equal to it if and only if it is plain and not empty |
| `RunRequest.NewRequest` | crates/api-server/src/run.rs:109-160 | which requests are refused, with which reason, and the bounded values of the accepted ones |
| `RunRequest.Script` | crates/api-server/src/run.rs:167-188 | the script built in a loop is the text that the tokenizing law is about |
| `RunRequest.ScriptTokenizes` | crates/api-server/src/run.rs:167-188 | for every valid request the shell reads exactly the `cd`, `export` and `exec timeout … sh -c command` words |
| `RunRequest.TimeoutIsDenoted` | crates/api-server/src/run.rs:181-186 | the words given to `timeout` denote the grace period and the time allowed |
| `RunRequest.CeilingKeepsTheScript` | crates/api-server/src/exec.rs:324-330 | under the hard timeout the shell gets the inner script back as one word |
| `RunRequest.InnerScriptReads` | crates/api-server/src/exec.rs:277-279 | for every command whatsoever: the shell reads exactly the `cd` and `export` words, with the directory and variables as given, and is then between two tokens with the command before it; from there it reads what it reads of the command alone |
| `RunRequest.DirectoryIsReadExactlyWhen` | crates/api-server/src/exec.rs:277-279 | the shell reads the directory back as one word if and only if it is plain and not empty |
| `RunRequest.SemicolonStartsACommand` | crates/api-server/src/exec.rs:277-279 | a directory with a semicolon is read as the end of one command and the start of another |
| `RunRequest.BothQuotingsRoundTrip` | crates/api-server/src/exec.rs:147-154 | for every command without NUL, bash gets the inner script as one word, and reading that word gives the directory and variables back, then the command |
| `RunCollector.KeptOutput.Keep` | crates/api-server/src/run.rs:225-231 | the kept bytes are the first `limit` of those received and the flag says whether more came |
| `RunCollector.Collect` | crates/api-server/src/run.rs:332-398 | for every sequence of waits: both outputs bounded as above, the timeout verdict, and a timeout that clears code and signal |
| `RunCollector.OneAnswer` | crates/api-server/src/run.rs:374-398 | with at most one exit message there is exactly one of code, signal, timeout, unless the channel ended before any, and then none |
| `RunCollector.OneAnswerExactlyWhen` | crates/api-server/src/run.rs:374-398 | for arbitrary messages, exactly one answer when there is a timeout or exit messages of exactly one kind were heard |
| `RunCollector.HeardUntil` | crates/api-server/src/run.rs:332-379 | messages are heard until the channel closes or is gone or the deadline passes, and which of these it was |
| `RunCollector.Verdict` | crates/api-server/src/run.rs:374-398 | what is returned before and after the time allowed, for endings that look like a stopped command, for others, and for none |
| `RunCollector.LastCodeIs` | crates/api-server/src/run.rs:357-361 | the code returned is that of the last exit status heard |
| `MergePatch.MergeObjects` | crates/common/src/status.rs:10-21 | an RFC 7386 merge works member by member |
| `MergePatch.MergeStrings` | crates/common/src/status.rs:10-21 | merging tables of strings is a union in which the patch wins |
| `WorkshopStatus.StatusSays` | crates/common/src/crd.rs:353-409 | what the serialised status says of each field: an absent pod name is null, other absent fields are not there |
| `WorkshopStatus.PortsSay` | crates/common/src/crd.rs:155-165 | which port is under which name, absent ones not there |
| `WorkshopStatus.SessionSays` | crates/common/src/crd.rs:337-348 | the same for a session, an empty table of variables not there |
| `WorkshopStatus.UpdateIsAMerge` | crates/controller/src/reconcile.rs:3035-3050 | merging the serialised computed status stores: computed `phase` and `podName`, computed-else-previous for skipped fields, a union of conditions |
| `WorkshopStatus.PublishIsAMerge` | crates/image-builder/src/main.rs:1567-1590 | merging a build's patch stores its digest and ports, and its session over the variables already there |
| `WorkshopStatus.DocumentsDetermine` | crates/common/src/crd.rs:353-409 | serialisation hides nothing: equal documents are equal statuses |
| `StatusHistory.PublicationIsStored` | crates/image-builder/src/main.rs:1567-1590 | after any run, what a build leaves stored: digest, ports, account and folder exactly, no variables if it has none and else its own over those of before |
| `StatusHistory.UpdateIsStored` | crates/controller/src/reconcile.rs:3035-3050 | after any run, what an update leaves stored, field by field |
| `StatusHistory.HistoryKeeps` | crates/common/src/crd.rs:369-408 | over every interleaving with stale reads, no stored field or condition key but `podName` ever disappears |
| `StatusHistory.StoredValuesWerePublished` | crates/controller/src/reconcile.rs:2733-2786 | the digest, each port, the account, the folder and each variable stored were published by some build |
| `StatusHistory.PortsArePublishedExactlyWhen` | crates/common/src/crd.rs:155-165 | stored ports are always ones some build of the run published if and only if overlaying two of the sets that may be published gives one of the two |
| `StatusHistory.PortsCanBeMixed` | crates/common/src/crd.rs:155-165 | a concrete run that stores ports no build published |
| `StatusHistory.SessionsArePublishedExactlyWhen` | crates/common/src/crd.rs:337-348 | the same equivalence for sessions, under both the controller's and a build's way of overlaying |
| `StatusHistory.DroppedVariablesStay` | crates/common/src/crd.rs:337-348 | a concrete run where a variable dropped by a rebuild stays stored |
| `GuestProbe.GuestPortAnswers` | crates/controller/src/guest_probe.rs:84-118 | the receive loop answers yes exactly when the concatenated payload before a refusal starts with the expected prefix |
| `GuestProbe.RefusalEnds` | crates/controller/src/guest_probe.rs:99-104 | an empty frame or one of another channel ends what the guest said |
| `GuestProbe.OthersAreSkipped` | crates/controller/src/guest_probe.rs:96-98 | messages that are no frames do not count |
| `GuestProbe.SplitFrame` | crates/controller/src/guest_probe.rs:95-109 | cutting a frame in two anywhere changes nothing of that payload |
| `ReconcileSafety.RunKeepsInv` | crates/controller/src/reconcile.rs:678-759 | every step of controller and environment keeps the invariant on pods, log and program counter |
| `ReconcileSafety.CreatedOnlyWhenWanted` | crates/controller/src/reconcile.rs:2391-2402 | a pod is only patched to create it, when the version read wants it running with a known digest; an existing pod never is |
| `ReconcileSafety.SnapshotBeforeDeletion` | crates/controller/src/reconcile.rs:726-748 | every pod the controller deletes was asked for a snapshot before, and never after |
| `ReconcileSafety.SuspendedMeansNoPod` | crates/controller/src/reconcile.rs:730-748 | `Suspended` is computed and written only while no pod exists |
| `ReconcileSafety.WritesAreAStatusHistory` | crates/controller/src/reconcile.rs:2733-2786 | all statuses written in a run form a history of `StatusHistory`, so its laws hold of the controller |
| `ReconcileSafety.RankNeverRises` | crates/controller/src/reconcile.rs:718-759 | while `Suspended` is wanted, live/terminating/absent never rises, and no pod is live once a reconciliation went through |
| `ReconcileSafety.AbsentBecomesSuspended` | crates/controller/src/reconcile.rs:718-759 | without a pod, one reconciliation stores `Suspended`, and it stays |
| `ReconcileSafety.SuspendConverges` | crates/controller/src/reconcile.rs:718-759 | the whole way down, whatever fails or happens in between |
| `ReconcileSafety.SuspendProgresses` | crates/controller/src/reconcile.rs:718-759 | a reconciliation without failures lowers a live pod, and which phase, pod name and snapshot digest it leaves stored |
| `ReconcileSnapshot.StoredDigestWasGiven` | crates/controller/src/reconcile.rs:726-757 | in every run a stored `snapshotDigest` is the answer of a pod that was asked |
| `ReconcileSnapshot.StoredDigestIsTheLastSaved` | crates/controller/src/reconcile.rs:726-757 | with reads no older than the controller's writes, it is that of the last suspension that saved one |
| `ReconcileSnapshot.DescribesTheLastSuspensionExactlyWhen` | crates/controller/src/reconcile.rs:739-757 | after the last deletion of a pod, which digest is stored, by whether the status was written; it is that pod's answer if and only if the answer was written or is what was stored before |
| `ReconcileSnapshot.OfferedIsStoredExactlyWhen` | crates/controller/src/reconcile.rs:718-759 | after one suspension the stored digest is the offered one if and only if one was offered or none was stored |
| `ReconcileSnapshot.DigestOutlivesItsPod` | crates/controller/src/reconcile.rs:741-743 | a run from a new Workshop where the digest of the first pod is stored after the second was suspended without one |
| `ReconcileSnapshot.SnapshotIsLostWithItsWrite` | crates/controller/src/reconcile.rs:472-473 | a run, every rule respected, where the last pod gave a snapshot, its write was lost, and the digest of the pod before ends up stored |
| `ReconcileSnapshot.StaleReadBringsADigestBack` | crates/controller/src/reconcile.rs:722-725 | a run with an old read where an older digest replaces a newer one |
| `ReconcileAnnouncements.AnnouncedExactlyWhenEverWritten` | crates/controller/src/reconcile.rs:2444-2452 | in every run `upgradeState`, and each condition key, is stored if and only if some write of the run had it |
| `ReconcileAnnouncements.SaysExactlyWhen` | crates/controller/src/reconcile.rs:2444-2452 | an upgrade is said to be due, and a lockdown to be in force, each for its own cause |
| `ReconcileAnnouncements.BuildIsTold` | crates/controller/src/reconcile.rs:1462-1493 | the phase, pod name and conditions stored while no image is known |
| `ReconcileAnnouncements.CreatingTakesNothingBack` | crates/controller/src/reconcile.rs:2438-2443 | a reconciliation that creates a pod and finds nothing to announce leaves all that was announced |
| `ReconcileAnnouncements.AnnouncementsOutliveTheirPod` | crates/controller/src/reconcile.rs:2438-2443 | a run, every rule respected, where nothing is found to announce of a new pod, and once that is written what was announced of the one before is still stored |
| `ReconcileReadiness.RunningMeansAnswered` | crates/controller/src/reconcile.rs:2453-2525 | under rules on creation and reads, and except while a pod is being created, a stored `Running` means the current pod answered on the ports stored (or the legacy ones): with `SSH-`, and `HTTP/` if these have a terminal |
| `ReconcileReadiness.RunningIsTrueExactlyUnderTheRules` | crates/controller/src/reconcile.rs:2469-2473 | that holds in all runs respecting a set of rules if and only if it has the two on creation and one of the two on reads |
| `ReconcileReadiness.PhaseIsTold` | crates/controller/src/reconcile.rs:2453-2531 | which phase is computed of a pod: `Running` exactly for one that runs and was said to, or is heard on the doors of the ports stored or of the legacy ones; else `Resuming` or `Provisioning` |
| `ReconcileReadiness.CreationIsAnException` | crates/controller/src/reconcile.rs:2391-2402 | a concrete run, rules respected, where `Running` is still stored between the creation of a pod and that reconciliation's write |
| `ReconcileReadiness.ResumeCreatesAPod` | crates/controller/src/reconcile.rs:2391-2531 | resuming creates one new pod and stores `Resuming` and its name |
| `Streams.Fill` | crates/common/src/storage.rs:60-67 | for every pattern of short reads the buffer gets the next bytes, as many as fit or are left |
| `SparseCopy.CopySparse` | crates/common/src/storage.rs:49-85 | the file, holes read as zeros, equals the stream, the length is returned, the cursor is at the end, and no zero block takes room |
| `ObjectStore.UploadMultipartParts` | crates/common/src/storage.rs:427-483 | parts are numbered from 1, none empty, all but the last full, and concatenate to the stream |
| `ObjectStore.SplitIsUnique` | crates/common/src/storage.rs:427-483 | there is only one such split, so parts do not depend on how the stream was read |
| `ObjectStore.SplitIsCompletable` | crates/common/src/storage.rs:577-592 | S3's own conditions for completing an upload always hold |
| `ObjectStore.UploadStream` | crates/common/src/storage.rs:500-593 | success leaves the object equal to the stream in both branches; a failure before finishing leaves every object as it was |
| `SnapshotStore.DeleteSnapshotPrefix` | crates/common/src/storage.rs:308-333 | terminates; success leaves nothing under the prefix, all else untouched, and returns the count; failure removed only keys under it |
| `SnapshotStore.PrefixesAreApart` | crates/controller/src/storage.rs:70-72 | no object lies under the prefixes of two Workshops |
| `SnapshotStore.UnderscoresWouldCollide` | crates/controller/src/storage.rs:70-72 | without that condition two Workshops can share a prefix |
| `SnapshotStore.ValidIsPlain` | crates/api-server/src/routes.rs:980-987 | accepted names meet the condition that law needs |
| `SnapshotStore.SlashesDoNotMatter` | crates/common/src/storage.rs:309 | trailing slashes of a prefix make no difference |
| `SnapshotStore.CleanupCoversItsFiles` | crates/common/src/storage.rs:260-262 | every snapshot file of a Workshop, in both forms, is under the prefix cleaned up |
| `SnapshotStore.CleanupTouchesNoOther` | crates/common/src/storage.rs:308-333 | cleaning up after one Workshop keeps every object of another |
| `SnapshotStore.DownloadSnapshotToFile` | crates/common/src/storage.rs:343-376 | the file is the decoded compressed object, or the older one, by which request fails |
| `SnapshotStore.UploadThenDownload` | crates/common/src/storage.rs:269-284 | what comes back after an upload, by which request fails; the content uploaded whenever the request for the compressed form does not |
| `SnapshotStore.ComesBackExactlyWhen` | crates/common/src/storage.rs:350-363 | what was uploaded always comes back, whatever requests fail, if and only if no object of the older form exists or it holds the same content |
| `SnapshotStore.UploadedComesBack` | crates/common/src/storage.rs:349-356 | as long as the request for the compressed form succeeds, what was uploaded comes back, whatever the older object is |
| `SnapshotStore.OlderComesBack` | crates/common/src/storage.rs:357-363 | when the request for the compressed form fails, the older content is what comes back |
| `PacketFilter.EvaluateFrame` | crates/firecracker/src/network.rs:106-149 | chains nothing jumps to can be added or changed without changing any verdict |
| `GuestNetwork.NetworkSetup.SetupDedicatedChain` | crates/firecracker/src/network.rs:331-392 | success leaves exactly the dedicated chain and its two hooks over the old table; failure the first rules of it, hooked only if whole |
| `GuestNetwork.NetworkSetup.RestrictToNetProxy` | crates/firecracker/src/network.rs:175-177 | the chain for one port |
| `GuestNetwork.NetworkSetup.EnableTransparentGateway` | crates/firecracker/src/network.rs:208-292 | the filter chain for all ports and the nat chain with its hook |
| `GuestNetwork.NetworkSetup.LockdownEgress` | crates/firecracker/src/network.rs:322-329 | a drop of everything at the head of the chain |
| `GuestNetwork.NetworkSetup.Teardown` | crates/firecracker/src/network.rs:106-149 | from every partial setup, locked down or not, both tables are those of before |
| `GuestPolicy.ChainPolicy` | crates/firecracker/src/network.rs:331-392 | the chain decides on every packet and accepts exactly the allowed ones |
| `GuestPolicy.FilterPolicy` | crates/firecracker/src/network.rs:331-392 | a packet from the tap that earlier rules leave open is accepted exactly when local and allowed, and never forwarded |
| `GuestPolicy.GatewayPolicy` | crates/firecracker/src/network.rs:208-292 | nat then filter: web and DNS traffic whatever its destination, the proxy's ports, tracked traffic, and nothing else |
| `GuestPolicy.SetUpGateway` | crates/firecracker/src/network.rs:208-292 | after the commands of a successful setup, for every packet: where it arrives after redirection, and that it is accepted exactly for the web, DNS, the four ports given on the host, and tracked traffic |
| `GuestPolicy.SetUpProxy` | crates/firecracker/src/network.rs:175-177 | restricted to the proxy, a guest reaches its port and DNS on the host, and nothing else |
| `GuestPolicy.ElsewhereIsUntouched` | crates/firecracker/src/network.rs:331-392 | packets that do not come from the tap are redirected and filtered as before, whatever part of the setup is there |
| `GuestPolicy.LockdownDropsEverything` | crates/firecracker/src/network.rs:308-329 | after a lockdown every packet is dropped, established ones included |
| `GuestPolicy.LockDown` | crates/firecracker/src/network.rs:322-329 | after the commands of any number of lockdowns every packet is dropped |
| `Eviction.Pass` | crates/controller/src/eviction.rs:189-218 | only confirmed entries go, none newer than a confirmed one kept; it ends under the threshold or with none confirmed left; what went is the shortest oldest-first prefix |
| `Eviction.CandidatesAreOldestFirst` | crates/controller/src/eviction.rs:201-204 | the candidates are the confirmed entries, sorted by age |
| `Eviction.ShortestPrefixIsUnique` | crates/controller/src/eviction.rs:189-218 | so the outcome is determined |
| `Eviction.FinishedExactlyWhen` | crates/controller/src/eviction.rs:62-73 | a job is finished exactly when it carries `Complete` or `Failed` as true |
| `Eviction.TickStartsAJob` | crates/controller/src/eviction.rs:144-154 | a tick starts one job when none is active and none otherwise |
| `Eviction.AtMostOneActiveJob` | crates/controller/src/eviction.rs:62-154 | over all ticks of one controller at most one eviction job is unfinished |
| `VmSnapshot.Vm.SnapshotInternal` | crates/firecracker/src/vm.rs:565-621 | state, memory and disk are of one instant of the call whatever the guest writes, the disk being copied in pieces; when it succeeds, and when it leaves the guest paused, by which steps fail |
| `VmSnapshot.RestorePersisted` | crates/firecracker/src/vm.rs:411-489 | in a jail that knows files by name: when the new guest starts, and from which state, memory and disk |
| `VmSnapshot.RestoresExactlyWhenTheNamesFit` | crates/firecracker/src/vm.rs:386-411 | it starts from what was saved, whatever is in the files, if and only if the names fit |
| `VmSnapshot.NeverFromTheImage` | crates/firecracker/src/vm.rs:397-406 | the image makes no difference to what it starts from |
| `VmSnapshot.NameFollowsTheLastSlash` | crates/firecracker/src/vm.rs:391-396 | a file is known in the jail by what follows the last slash of its path |
| `VmSnapshot.SuspendThenResume` | crates/firecracker/src/vm.rs:411-621 | a resumed guest starts from an instant the suspended one was in when no step fails and the names fit those of the first boot; if they do not fit it can only start on another file |
| `VmSnapshot.OnlyTheImageNameMatters` | crates/firecracker/src/vm.rs:386-411 | with the file names of the source, fitting is having the image's name of the first boot |
| `Ordering.LessExactlyWhen` | crates/api-server/src/llm_budget.rs:584 | names are ordered by their first difference |
| `Spend.Aggregate` | crates/api-server/src/llm_budget.rs:591-642 | totals, and three strictly sorted tables of what the entries have under each label |
| `Spend.SortedBuckets` | crates/api-server/src/llm_budget.rs:571-587 | one bucket for each label, in strict order, whatever order the map is read in |
| `Spend.ReportConserves` | crates/api-server/src/llm_budget.rs:591-642 | total and test pricing make up all entries; each table and what it leaves out make up the total |
| `Spend.TableConserves` | crates/api-server/src/llm_budget.rs:608-627 | the same in requests as in dollars |
| `Spend.GroupsOfOneEntry` | crates/api-server/src/llm_budget.rs:559-568 | an entry is counted under the group of the living Workshop of its key, else under that of the key's metadata, else as unattributed |
| `Spend.ColumnsOfOneEntry` | crates/api-server/src/llm_budget.rs:613-626 | and under its model and its day |
| `Spend.TotalsOfOneEntry` | crates/api-server/src/llm_budget.rs:600-607 | and in the total, unless its price is fictitious |
| `Spend.TablesAreOrdered` | crates/api-server/src/llm_budget.rs:580-586 | groups and models by what was spent, the most first, then by name; days in the order of time |
| `Spend.TestModelsAre` | crates/api-server/src/llm_budget.rs:493 | which models have a fictitious price |
| `Spend.ReportIsUnique` | crates/api-server/src/llm_budget.rs:571-642 | reports of the same entries in any order are equal |
| `SquadToken.MintedIsAccepted` | crates/common/src/squad_token.rs:53-84 | a minted token is accepted under its name exactly until it expires, if the name has no bar, and otherwise never |
| `SquadToken.MintedUntilItsTtl` | crates/common/src/squad_token.rs:53-84 | without overflow that is until `minted + ttl` |
| `SquadToken.AcceptedExactlyWhenSigned` | crates/common/src/squad_token.rs:62-84 | a token is accepted for a name exactly when it is that name and an expiry not past, with their signature |
| `SquadToken.PayloadIsInjective` | crates/common/src/squad_token.rs:86-91 | what is signed determines name and expiry, for all names |
| `SquadToken.SignatureServesOneToken` | crates/common/src/squad_token.rs:62-91 | with an HMAC that tells messages apart, a signature is accepted with no other name and no other expiry |
| `SquadToken.ParseAccepts` | crates/common/src/squad_token.rs:70-72 | a plus sign and leading zeros are accepted in an expiry |
| `SquadToken.ParseRefuses` | crates/common/src/squad_token.rs:70-72 | an empty one, a lone plus sign or a minus sign are not |
| `SquadToken.ConstantTimeIsEquality` | crates/common/src/squad_token.rs:100-109 | the xor fold is equality |
| `SquadToken.DecimalParses` | crates/common/src/squad_token.rs:70-72 | parsing a printed expiry gives it back |

## Left out

- Clients of HTTP, WebSocket, SSH, Kubernetes, S3, SQL and LiteLLM: their calls are steps that succeed or fail, with the store they act on.
- Wall-clock bounds of timeouts: a deadline is an event that may come at any wait; whether the timeout had passed is a parameter.
- Cryptography and compression: HMAC, zstd and SHA-256 are function parameters.
- Construction of Pod, Job, RBAC and NetworkPolicy objects, image builds, Services, LiteLLM keys, finalizers and deletion of a Workshop.
- The first `get` of the parent pod at `crates/controller/src/reconcile.rs:1551`, which only decides on keys.
- `Reconcile.Step`: the controller is a state machine on values, one API call a step, and not methods that change objects, because others act between any two calls.
- `user_exports` and its `getent` substitution, which count as part of the command in `InnerScriptReads`; the workspace directory there has no shell metacharacters, as the code assumes by not quoting it.
- Variables of `RunRequest` are a list in the order of the source's sorted map.
- `Spend.Aggregate`: amounts are exact reals, so rounding of `f64` and NaN are not modelled.
- JSON member names are an enumeration plus free names, not strings.
- `VmSnapshot.RestorePersisted`: the jailer and `cp` succeed or fail as one step; `e2fsck` and `resize2fs` are not used on restoring.
- `Eviction.Pass`: nobody else writes to the cache during a pass, and `rm` succeeds; entries have the modification time that the script sorts by (`%Y`), and no access time, which its comment speaks of.
- `GuestNetwork.NetworkSetup.Teardown`: a command fails only when there is nothing to undo; the tap device itself is not modelled.
- `ObjectStore.UploadStream`: other writers of the same key, ETags and versions are not modelled.
- `SnapshotStore.DeleteSnapshotPrefix`: nobody else writes under the prefix meanwhile.
- `approvals.rs`: one decision per request rests on database isolation and a row-level policy outside this code.
- `memory_to_mib` and `cpu_to_vcpu_count`: conversions of floating-point quantities, whose only question is rounding.
- The dashboard, the CLI, telemetry and health endpoints: views and wrappers that keep no state of their own.
- `urlencode`, `json_escape` and `secret_path`: one-line codecs that no other modelled part depends on.
