# KubeSwift: verified models of its protocols

KubeSwift runs virtual machines as Kubernetes objects. This project models the parts of it whose correctness
depends on what happens between steps, and proves what each of them promises, for every input, every run and
every point at which it can be interrupted.

Six subsystems are modelled. Where the original works by changing state, so does the model: classes for the
registry, the object store, the destination directory, the API server and the role store, and loops with
invariants for its loops.

1. **Member watch** (`WatchLog`, `ResilientWatch`, `MemberWatch`). The gateway keeps a watch on every member
   cluster alive across closes, errors and expired resource versions. `WatchLog` is the server's history and
   what "resuming from a version" must mean; `ResilientWatch` is the reconnect loop, proved equal to a state
   machine and to what the environment's answers alone prescribe; `MemberWatch` runs that machine against any
   server, any schedule of compactions and any disconnections, and proves that no change is ever skipped.
2. **Exec stream** (`Frames`, `FrameIO`, `ExecStream`). A command's stdout, stderr and exit code share one
   vsock connection. The frame codec and both ends are proved for every split of reads and every short write,
   and the two pumps and the exit step for every interleaving under the writer's lock.
3. **VM images** (`SparseFile`, `VmImage`, `Retry`). Disks are pushed to an OCI registry in windows, leaving
   out zero ones, and reassembled into a sparse file or onto a block device. The round trip, the closure of
   the registry at every instant and the byte accounting are proved with every call able to fail.
4. **Snapshots** (`Paths`, `SnapshotS3`, `Stager`). Exporting a snapshot to object storage, importing it and staging a
   patched copy, each restartable after a crash at any point.
5. **GPUs** (`GpuStatus`, `GpuPublish`, `DeviceNames`, `DeviceClaim`). Publishing discovered hardware without
   disturbing the controller's allocations, and the two routes by which an allocated device's PCI address is
   read back.
6. **Access roles** (`RbacRules`, `RoleSync`, `RoleCatalog`). A role's drift from its capabilities is computed
   on expanded permissions. The expansion is proved to preserve every authorization decision, and bringing a
   role up to date to be a fixpoint.

`Common` and `Strings` hold what several modules share. `dafny verify dfyconfig.toml` checks everything.

## How to read the model

- A call into a foreign system (registry, object store, API server, file system) may fail whenever it is made,
  and where the real one can fail after taking effect the model's can too. The choice is nondeterministic, so
  every contract holds for every pattern of failures. Each such system has a constant that says nothing fails
  there (`reliable`, `quiet`, `permitted`, `writable`), and the contracts say that an operation succeeds then,
  so none of them is met by failing always.
- Crash safety is stated with a ghost set `seen` of every state the store has been in. A contract that bounds
  `seen` speaks of every instant at which a process could die. Its precondition asks for no more than that
  same bound, so an interrupted run can be started again any number of times.
- SHA-256 is a constructor, so equal digests have equal contents; zstd and JSON are constructors too, so
  decoding inverts encoding.
- Randomness, clocks and the network are parameters or nondeterministic choices.

## Where the code and its comments disagree

- The comment on `ReadFrame` (internal/guestagent/frame.go:62-63) says `io.EOF` comes only on a clean close
  between frames. A stream cut right behind a header that announces a payload also gives `io.EOF`, which the
  host takes as exit code 0. `Frames.CutStream` gives the exact condition.
- The retry schedule is described as roughly five minutes (internal/oci/retry.go:27-29). Its delays sum to at
  most 242 seconds (`Retry.WaitBoundIs242`).

## Properties that hold only under a condition

Each has the exact condition, for all inputs, and a concrete input that breaks it.

- **Resuming a cut replay.** A watch started without a version replays the current objects in no particular
  order, and the client stores each object's version as it arrives. If the replay is cut, resuming from that
  version is sound exactly when every object not yet received has changed again after it, or is shown correctly
  from before (`WatchLog.CutReplayIff`, and `MemberWatch.ReplayCutIff` at every point of every run). The theorems
  about whole runs let a replay come in any order and be cut wherever that holds; a replay in version order can
  be cut anywhere (`MemberWatch.InOrderIsSafe`). `MemberWatch.UnsafeCutExample` is a run that must not be cut.
- **A cut frame stream.** The host takes it for success exactly at a frame boundary or behind a header with its
  payload to come (`Frames.CutStream`, `ExecStream.HeaderCutExample`).
- **A failed push.** It leaves the tags alone unless the tag call itself failed; then the tag may name the new
  image, which is complete (`VmImage.ChunkAndPush`, `atTag`).
- **Pulling onto a device.** Zero windows are not stored, so the result is the disk exactly when they were
  already zero there (`VmImage.DeviceRoundTrip`, `VmImage.StaleDeviceExample`).
- **Deleting an export.** An upload cleans its key prefix and a delete does not, so everything written under a
  prefix is removed exactly when the prefix is clean already, and otherwise nothing is
  (`SnapshotS3.DeletesUploadIff`, `SnapshotS3.UntidyPrefixExample`).
- **The sentinel.** Every state of a run of the stager is sound, partial writes included, exactly when the source
  holds no entry of the sentinel's name, or holds it last in the walk with no patch after it; and, when a failed
  test of the sentinel makes the run stage a finished tree again, when nothing in that tree is removed before the
  sentinel (`Stager.Destination.Run`, with `Stager.NameTakenExample`, `Stager.TornConfigExample` and
  `Stager.RewipeExample`).
- **Partitions across retries.** The merges of one discovery cycle share one slice. A partition that is written
  is what a fresh merge would give exactly when the last read lists it, or no earlier read of the cycle gave it to
  someone else; otherwise a holder the controller has dropped comes back (`GpuPublish.PublishStatus`,
  `GpuPublish.DroppedHolderExample`).
- **Reading addresses back.** The device status gives the prepared addresses exactly when this driver's results
  have distinct pool and device, and the device names give them exactly when no other driver in the claim uses
  the naming scheme (`DeviceClaim.StatusReadBackIff`, `DeviceClaim.NameReadBackIff`, `DeviceClaim.GpuExample`).
- **Permissions.** The expansion writes a non-resource URL and a core resource the same way, whatever the
  string, and a rule for the empty name like one for every name (`RbacRules.UrlLooksLikeResource`,
  `RbacRules.EmptyNameLooksLikeAny`). A role without empty names and without drift allows exactly what its
  capabilities allow if and only if it names no URL (`RoleSync.NoDriftGrantsCapabilities`, `RoleSync.HiddenUrl`);
  one that keeps to Kubernetes' convention for URLs cannot name any without drift.
- **Ensuring a predefined role.** When another client creates the role between the read and the create, it is
  accepted unchecked (`RoleSync.RoleStore.EnsureRole`, `raced`).

## Model

| member | source | states |
|---|---|---|
| WatchLog.VersionIsLastChange | internal/gateway/watch_resilient.go:109-116 | an object's resourceVersion is the log position of its last change, so it is a valid resume point for that object |
| WatchLog.ResumeFrom | internal/gateway/watch_resilient.go:44-80 | a client that agrees with the log from a version on catches up with the server by applying the log after it |
| WatchLog.ResumeAfter | internal/gateway/watch_resilient.go:104-116 | taking one delivered entry, over entries the watch does not select, keeps that agreement at the entry's version |
| WatchLog.ResumeOverQuiet | internal/gateway/watch_resilient.go:104-112 | a bookmark moves the resume point over unselected entries without losing a change |
| WatchLog.ReceiveObject | internal/gateway/watch_resilient.go:109-116 | receiving an object of a later snapshot keeps what the view continues from |
| WatchLog.AgreesExactly | internal/gateway/watch_resilient.go:44-80 | with no stale key, agreement means the log after the version turns the view into the server's state |
| WatchLog.LeftoverWasDeleted | internal/gateway/watch_resilient.go:94-103 | a key shown but gone from the server is stale or was deleted after the resume point |
| WatchLog.CutReplayIff | internal/gateway/watch_resilient.go:104-116 | a replay cut short can be resumed from the stored version, however far the log has grown, if and only if every missed object has changed after it or is shown correctly from before |
| WatchLog.CutReplayByVersion | internal/gateway/watch_resilient.go:104-116 | before the server changes again that means: no missed object is as old as the stored version |
| ResilientWatch.NextBackoff | internal/gateway/watch_resilient.go:139-145 | the next delay stays between the initial delay and the cap |
| ResilientWatch.DrainWatch | internal/gateway/watch_resilient.go:84-118 | what is received, forwarded or reported leaves the client at the state its answers lead to, and a watch that is merely closed or failed does not stop it |
| ResilientWatch.SleepBackoff | internal/gateway/watch_resilient.go:73-79 | the wait before a retry, cut short for good by the context's end |
| ResilientWatch.WatchOnce | internal/gateway/watch_resilient.go:47-79 | one turn of the loop: a start, its watch and the wait, and whether there is another turn |
| ResilientWatch.Watch | internal/gateway/watch_resilient.go:44-80 | for every environment: the loop returns at the first answer that ends the watch (the context's end, a permanent start error, a declined event) and no earlier, and its calls up to there are the story of the answers, read off the answers alone |
| ResilientWatch.AliveRuns | internal/gateway/watch_resilient.go:44-118 | as long as nothing has ended the watch, what the client waits for, the version it stores, its delay and its outputs are what its answers say |
| ResilientWatch.StoppedIff | internal/gateway/watch_resilient.go:44-118 | a run is stopped if and only if some answer ended the watch |
| ResilientWatch.GivesUpIff | internal/gateway/watch_resilient.go:47-68 | a running client stops on a permanent start error, a declined event or the context's end, and on nothing else |
| ResilientWatch.StartsAgain | internal/gateway/watch_resilient.go:49-79 | after every close, error event and start error that does not end the watch, the next start is made, with the last version seen, after one sleep if the watch brought nothing |
| ResilientWatch.LastSeenIs | internal/gateway/watch_resilient.go:93-113 | the version a start asks for is that of the last event that carried one, and none when a 410 came after it |
| ResilientWatch.NothingDropped | internal/gateway/watch_resilient.go:49-113 | every start error and error event is reported and every change forwarded, once each and in order |
| ResilientWatch.SleepsDouble | internal/gateway/watch_resilient.go:57-78 | the first sleep after an event lasts one second and each further one twice the last, up to thirty |
| ResilientWatch.ReopensExample | internal/gateway/watch_resilient.go:69-79 | for every event and version: a watch closed after it is reopened at that version |
| ResilientWatch.StartsOverExample | internal/gateway/watch_resilient.go:95-103 | from any client in a watch: after a 410 the next start asks for everything |
| ResilientWatch.RestartIsReported | internal/gateway/watch_resilient.go:49-62 | in every run, a start from scratch after a versioned event comes only after a 410 was reported, and after a 410 no version is kept |
| MemberWatch.NextKeeps | internal/gateway/watch_resilient.go:44-118 | every step of server, watch and client keeps the resume invariant |
| MemberWatch.RunKeeps | internal/gateway/watch_resilient.go:44-118 | the invariant holds in every reachable world |
| MemberWatch.NothingSkipped | internal/gateway/watch_resilient.go:44-118 | in every run without a 410 the log after the stored version, applied to the folded view, gives the server's state; with one, up to the stale keys |
| MemberWatch.CaughtUp | internal/gateway/watch_resilient.go:49-62 | a client with nothing left to receive shows the server's state, but for keys deleted while a 410 hid it |
| MemberWatch.ReplayCutIff | internal/gateway/watch_resilient.go:84-118 | in every run, at every point of a replay, the client could resume from the version it has stored if and only if every object still to come has changed after it or is shown as it is; without a 410 the log then gives exactly the server's state |
| MemberWatch.InOrderIsSafe | internal/gateway/watch_resilient.go:104-116 | a replay in version order can be cut anywhere |
| MemberWatch.OnlyDeletedKeysLeft | internal/gateway/watch_resilient.go:94-103 | the view holds no key the server lacks but those deleted in the gap |
| MemberWatch.StaleWereDeleted | internal/gateway/watch_resilient.go:94-103 | every stale key has a delete in the server's log |
| MemberWatch.LeftoverDiedInGap | internal/gateway/watch_resilient.go:94-103 | a key a caught-up client shows and the server lacks was changed last, by a delete, in a stretch of the log that a start from scratch passed over |
| MemberWatch.UnsafeCutExample | internal/gateway/watch_resilient.go:104-116 | a run whose replay must not be cut: the newer of two objects comes first |
| Frames.Be32RoundTrip | internal/guestagent/frame.go:44-81 | the four-byte length reads back as written |
| Frames.ExitCodeRoundTrip | internal/guestagent/frame.go:84-96 | the exit code that arrives is the int32 it wraps to: the code itself if and only if it is an int32 |
| Frames.ResizeRoundTrip | internal/guestagent/frame.go:99-112 | rows and columns read back as written |
| Frames.ParseAllEncoded | internal/guestagent/frame.go:44-81 | encoded frames are read back, and what follows them is read as if it stood alone |
| Frames.FramesRoundTrip | internal/guestagent/frame.go:44-81 | reading recovers precisely the frames written, and then a clean end |
| Frames.ParseCutFrame | internal/guestagent/frame.go:64-81 | a cut frame yields nothing, and EOF exactly at its start or behind its header |
| Frames.CutStream | internal/guestagent/frame.go:64-81 | a stream cut anywhere yields exactly its whole frames, and EOF exactly at a boundary or behind a header with a payload to come |
| FrameIO.Reader.Read | cmd/kubeswift-guest-agent/stream.go:215-227 | kept bytes come before the connection's, nothing is lost or repeated, and only an exhausted stream reads as empty |
| FrameIO.Reader.ReadFull | internal/guestagent/frame.go:64-81 | however reads are split, the block is the stream's first n bytes, or the right kind of end where the end is reported; on a raw descriptor, which does not report it, enough bytes must be there |
| FrameIO.Reader.ReadFrame | internal/guestagent/frame.go:64-81 | the result is the parse of the bytes to come, and exactly the frame's bytes are consumed; on a raw descriptor the bytes must decide it |
| FrameIO.Reader.ReadFrames | internal/guestagent/frame.go:64-81 | whole frames are read back on either kind of connection, and only their bytes are consumed |
| FrameIO.Reader.ReadRequestLine | cmd/kubeswift-guest-agent/main.go:131-147 | a newline within the limit is found however reads split the stream, and line, leftover and unread bytes make up the stream |
| FrameIO.Reader.Serve | cmd/kubeswift-guest-agent/main.go:103-123 | after the hand-over the stream starts exactly behind the newline |
| FrameIO.RequestThenFrames | cmd/kubeswift-guest-agent/main.go:131-147 | a request line followed by frames gives that line and then precisely those frames |
| FrameIO.IndexOfNewline | cmd/kubeswift-guest-agent/main.go:131-147 | the first newline, or none |
| FrameIO.Writer.Write | cmd/kubeswift-guest-agent/stream.go:195-211 | short writes are continued: what was sent is the prefix counted, and all of it unless a write failed |
| FrameIO.Writer.WriteFrame | internal/guestagent/frame.go:44-60 | success sends the whole encoding, an oversized payload sends nothing, a failure sends a prefix, and short writes alone are no failure |
| ExecStream.HostLoop | cmd/swiftctl/sandbox.go:275-291 | the host's loop shows exactly the demultiplexed stream and returns its verdict |
| ExecStream.DemuxBytes | cmd/swiftctl/sandbox.go:275-291 | frames before one Exit frame give their payloads joined by type, and that frame's code |
| ExecStream.HeaderCutExample | cmd/swiftctl/sandbox.go:275-291 | a stream cut behind a header is reported as exit code 0 |
| ExecStream.InvStep | cmd/kubeswift-guest-agent/stream.go:20-62 | every step of a pump, the lock or the exit step keeps the stream invariant |
| ExecStream.RunInv | cmd/kubeswift-guest-agent/stream.go:20-62 | the invariant holds after every run |
| ExecStream.HostSeesTheCommand | cmd/kubeswift-guest-agent/stream.go:20-62 | for every interleaving and every split into short writes, the host sees the command's output byte for byte and its int32 exit code, and one Exit frame follows all output |
| ExecStream.LiveOutputIsPrefix | cmd/kubeswift-guest-agent/stream.go:155-169 | at every point of every run, mid-frame or not, what the host can have shown is a prefix of the command's output |
| ExecStream.EveryStepIsProgress | cmd/kubeswift-guest-agent/stream.go:155-169 | every step uses up some of a finite amount of work |
| ExecStream.NeverStuck | internal/guestagent/frame.go:117-130 | until all is done some goroutine can move: the writer's lock is never lost |
| ExecStream.EveryRunDelivers | cmd/kubeswift-guest-agent/stream.go:20-62 | every run is bounded, and one that can go no further has delivered the output and the exit code |
| SparseFile.File.Truncate | internal/oci/vmimage.go:206-231 | a truncated file is all zeros of the new size |
| SparseFile.File.WriteAt | internal/oci/vmimage.go:295-315 | the written range changes and no other byte does |
| SparseFile.File.RunEnd | internal/oci/vmimage.go:339-346 | the run coalesced into one write holds no zero block |
| SparseFile.File.WriteBlocks | internal/oci/vmimage.go:333-351 | one buffer: zero blocks are skipped and every other byte is copied |
| SparseFile.File.WriteSparseAt | internal/oci/vmimage.go:327-360 | every byte outside zero blocks is the chunk's, and all others are what they were |
| SparseFile.SparseIsDense | internal/oci/vmimage.go:321-360 | over zeros, leaving out zero blocks gives the same file as writing the whole chunk |
| VmImage.Registry.Push | internal/oci/vmimage.go:127-161 | a blob is stored on success and possibly on failure; no tag moves |
| VmImage.Registry.PackManifest | internal/oci/vmimage.go:180-188 | a manifest is stored, possibly by a call that fails, only over blobs that are present |
| VmImage.Registry.Tag | internal/oci/vmimage.go:189-193 | a tag moves to a stored manifest, or not at all; a failed call may have moved it |
| VmImage.Registry.Resolve | internal/oci/vmimage.go:206-216 | the manifest a tag names, or an error |
| VmImage.WindowsAreTheDisk | internal/oci/vmimage.go:115-126 | the windows read, joined, are the disk |
| VmImage.PushWindow | internal/oci/vmimage.go:127-161 | a window the registry has adds its length to skipped, any other is pushed and adds its length to transferred; its layer names it by digest, length and offset |
| VmImage.PushChunks | internal/oci/vmimage.go:115-161 | after the read loop every layer is stored, in order, and every byte of the windows is in transferred or skipped |
| VmImage.ChunkAndPush | internal/oci/vmimage.go:77-200 | at every instant all manifests and tags are complete; a failed push moves no tag unless the tag call itself failed, and then only to the new, complete image; the tagged config records size, chunk size, format and OS; transferred is the sum of the lengths of the distinct non-zero windows the registry lacked; transferred, skipped and the lengths of the all-zero windows add up to the disk's length; it succeeds when no call fails |
| VmImage.RepushIsFree | internal/oci/vmimage.go:127-161 | a disk whose chunks are present has no window left to send |
| VmImage.SumLengthsAdd | internal/oci/vmimage.go:127-161 | one more window adds its length to the bytes to send |
| VmImage.FilteredSplits | internal/oci/vmimage.go:117-127 | the all-zero windows and the others make up all windows, each once |
| VmImage.LayersAreSlices | internal/oci/vmimage.go:127-135 | every layer is a window of the disk at its offset, of the chunk size or up to the end, and not all zero |
| VmImage.LayersHoldData | internal/oci/vmimage.go:127-161 | every byte of the disk that is not zero lies in a layer |
| VmImage.OneByteExample | internal/oci/vmimage.go:127-161 | a disk of one non-zero byte sends one byte to an empty registry |
| VmImage.FetchChunkAt | internal/oci/vmimage.go:295-315 | a verified chunk lands exactly at its offset, sparse over zeros or dense on a device |
| VmImage.PullAndReassemble | internal/oci/vmimage.go:206-275 | on success the destination is the tagged manifest's chunks laid over zeros, or over the device's old bytes, whatever the store streamed and in whatever order the layers stand; it succeeds on a complete image when no call fails |
| VmImage.LayLayers | internal/oci/vmimage.go:232-273 | the loop over layers that do not overlap lays each chunk at its offset |
| VmImage.OrderDoesNotMatter | internal/oci/vmimage.go:27-29 | the offsets decide and not the order: the same layers in any order reassemble to the same bytes |
| VmImage.AssembleRestores | internal/oci/vmimage.go:232-273 | laying the stored windows restores every one of them and leaves all other bytes |
| VmImage.RestoredIsDiskIff | internal/oci/vmimage.go:232-273 | the restored bytes are the disk's if and only if the windows left out were zero |
| VmImage.FileRoundTrip | internal/oci/vmimage.go:206-275 | for every disk and chunk size, into a regular file, the bytes come back identical |
| VmImage.DeviceRoundTrip | internal/oci/vmimage.go:206-275 | onto a device every stored window is exact and all else unchanged, so it holds the disk if and only if the holes were zero |
| VmImage.StaleDeviceExample | internal/oci/vmimage.go:232-240 | a zero window over a device that holds a 1: the 1 stays |
| VmImage.PushThenPull | internal/oci/vmimage.go:77-275 | a push and a pull of its tag, every call able to fail: success gives back the disk, and without failures it succeeds |
| Retry.WrappedMultiple | internal/oci/retry.go:85-96 | a wrapped product is never a small positive delay |
| Retry.DelayIsIdeal | internal/oci/retry.go:85-96 | for every attempt number the wrapping 64-bit shift with its cap is min(2s * 2^n, 60s) |
| Retry.JitterWithin | internal/oci/retry.go:85-96 | the jittered delay lies between half the delay and the delay |
| Retry.WaitBoundIs242 | internal/oci/retry.go:26-36 | the delays of all retries sum to at most 242 seconds |
| Retry.WithRateLimitRetry | internal/oci/retry.go:52-123 | at most nine calls and 242 seconds; a call is repeated after a 429, after a 403 or an untyped error only when its text mentions a rate limit, and after nothing else; each delay is waited out in full unless the context ends in it; the outcome is the last call's |
| SnapshotS3.KeysDistinct | cmd/snapshot-s3/compress.go:30-35 | artifacts of different paths have different keys, and none is the manifest's |
| SnapshotS3.JoinedKeys | cmd/snapshot-s3/transfer.go:47-49 | the keys of the model are what path.Join gives for every prefix |
| Paths.JoinIsStem | cmd/snapshot-s3/transfer.go:47-49 | path.Join of any prefix and a good name puts the cleaned prefix before the name |
| Paths.TidyLaws | cmd/snapshot-s3/transfer.go:47-49 | "." and empty components vanish; ".." takes the component before it, vanishes at the root and stays in front of a relative path |
| Paths.DirectoryIsClean | cmd/snapshot-s3/transfer.go:152-153 | whatever is the path of a directory above some key is clean |
| SnapshotS3.BuildManifest | cmd/snapshot-s3/manifest.go:52-82 | the artifacts are the regular files other than manifest.json, with size and hash, and no others, and the total is the sum of their sizes |
| SnapshotS3.ArtifactsDescribe | cmd/snapshot-s3/manifest.go:52-82 | artifacts and regular files other than manifest.json correspond, with sizes and hashes, and paths stay distinct |
| SnapshotS3.ManifestDescribes | cmd/snapshot-s3/manifest.go:52-82 | the manifest an upload ends with lists exactly those files, and its total is their bytes |
| SnapshotS3.SumBytesAdds | cmd/snapshot-s3/manifest.go:70-82 | the bytes of a list are those of its parts, and of one artifact its own |
| SnapshotS3.BytesAtAdd | cmd/snapshot-s3/transfer.go:41-79 | one more artifact left alone adds its bytes to those skipped |
| SnapshotS3.UploadOne | cmd/snapshot-s3/transfer.go:47-78 | an artifact whose stored hash matches is skipped, any other is put |
| SnapshotS3.UploadArtifacts | cmd/snapshot-s3/transfer.go:41-79 | at every instant the prefix is safe; on success every artifact is stored, skipped is the bytes of artifacts that were there with their hash before the run (all of those, when no call fails), and transferred is the rest |
| SnapshotS3.RunUpload | cmd/snapshot-s3/transfer.go:32-90 | through any number of interrupted and restarted uploads, manifest.json is present only over artifact objects that decompress to the recorded bytes; only the upload's own keys change; skipped is what was there with its hash before, transferred the rest, and together the total; it succeeds when no call fails |
| SnapshotS3.FreshPrefixIsSafe | cmd/snapshot-s3/transfer.go:32-90 | a prefix without a manifest is a valid start, as long as the hashes recorded on the upload's own keys are true |
| SnapshotS3.Dir.Verify | cmd/snapshot-s3/manifest.go:108-121 | a readable file passes exactly when its size and hash are the artifact's |
| SnapshotS3.Dir.DownloadOne | cmd/snapshot-s3/transfer.go:171-200 | only the artifact's own file changes, whatever goes wrong |
| SnapshotS3.FetchArtifact | cmd/snapshot-s3/transfer.go:112-131 | a file that verifies is kept and no other, and what is fetched must then verify |
| SnapshotS3.RunDownload | cmd/snapshot-s3/transfer.go:96-134 | into any directory, success leaves every artifact of the stored manifest verified and all other files alone; skipped is the bytes of files that verified before the run, and transferred the rest |
| SnapshotS3.VerifiedIsSource | cmd/snapshot-s3/manifest.go:108-121 | a regular file other than manifest.json, once verified, is the source file |
| SnapshotS3.RestoreExport | cmd/snapshot-s3/transfer.go:96-134 | after a completed upload a download, into any directory, gives back every regular file other than manifest.json byte for byte, and succeeds when nothing fails |
| SnapshotS3.RunDelete | cmd/snapshot-s3/transfer.go:142-166 | success removes all objects under the prefix's directory; a blank prefix is refused; no other object is ever touched |
| SnapshotS3.DeleteIsExact | cmd/snapshot-s3/transfer.go:142-166 | deleting a clean prefix removes everything written under it and nothing written under a prefix whose directory is neither above nor below |
| SnapshotS3.DeletesUploadIff | cmd/snapshot-s3/transfer.go:142-166 | everything an upload wrote is in the delete's scope if and only if the prefix is clean; otherwise nothing is, under any prefix |
| SnapshotS3.DeleteExport | cmd/snapshot-s3/transfer.go:142-166 | after a successful delete of a clean prefix no object of the upload is left; of any other prefix no uploaded object is removed |
| SnapshotS3.UntidyPrefixExample | cmd/snapshot-s3/transfer.go:152-153 | what was written under a//b stays |
| Stager.Destination.WipeContents | cmd/snapshot-stager/main.go:169-181 | success empties the directory; while a sentinel stands, only what the listing puts before it has been removed |
| Stager.Destination.CopyTree | cmd/snapshot-stager/main.go:189-217 | success gives exactly the source tree, and every state on the way is one entry being copied over those before it |
| Stager.Destination.PatchConfig | internal/snapshot/configjson/configjson.go:84-111 | success replaces config.json by its patched form and nothing else |
| Stager.Destination.Run | cmd/snapshot-stager/main.go:85-137 | for every source and start: with the sentinel there and its test not failing, nothing changes; every state of every run and restart stays sound, the sentinel over exactly the patched source tree, under a condition on source and start, and a run that has copied and patched stays sound only under it; without failures a run succeeds exactly when the patch applies and the sentinel can be written |
| Stager.Destination.Stage | cmd/snapshot-stager/main.go:102-134 | wipe, copy, patch, seal: which states a run can leave, and which it cannot avoid |
| Stager.SealedIsCopy | cmd/snapshot-stager/main.go:85-137 | a tree under a sentinel in a sound state has the source's paths and nodes, config.json being the patch of the source's |
| Stager.LessIff | cmd/snapshot-stager/main.go:169-181 | names are listed by their bytes: at the first difference, or a name before its extensions |
| Stager.StateIsOk | cmd/snapshot-stager/main.go:85-137 | under the condition every state a run can leave is sound |
| Stager.SoundIsNeeded | cmd/snapshot-stager/main.go:85-137 | a run that has copied and patched through sound states only meets the condition |
| Stager.NameTakenExample | cmd/snapshot-stager/main.go:189-217 | a file of the sentinel's name before another seals half a tree |
| Stager.TornConfigExample | cmd/snapshot-stager/main.go:113-130 | the name last and a patch that changes nothing seal a truncated config.json |
| Stager.RewipeExample | cmd/snapshot-stager/main.go:93-104 | a finished tree staged again stands sealed while a name before the sentinel's is already gone |
| GpuStatus.CountFreeGpus | cmd/gpu-discovery/main.go:240-248 | the size of the set of places that hold an unallocated GPU |
| GpuStatus.MergeGpus | cmd/gpu-discovery/main.go:162-199 | each discovered GPU keeps its hardware fields; it has the allocation of the last stored entry with its address, and none if there is no such entry |
| GpuStatus.CheckLost | cmd/gpu-discovery/main.go:201-218 | whether an allocated GPU of the stored status is no longer detected |
| GpuStatus.MergePartitions | cmd/gpu-discovery/main.go:227-235 | in the shared slice each partition has the holder of the last stored entry with its ID, and is what the slice held if there is none; nothing else of it changes |
| GpuStatus.MergeStatus | cmd/gpu-discovery/main.go:153-238 | the merged status shows the hardware, and every GPU and partition in both has the allocation its stored entry has; new GPUs are free, the free ones counted exactly, and the phase is Error exactly when an allocated GPU is lost |
| GpuStatus.AllocOfEntry | cmd/gpu-discovery/main.go:164-168 | the allocation looked up is that of the last entry with the address, which with distinct addresses is every entry |
| GpuStatus.AllocOfNone | cmd/gpu-discovery/main.go:164-168 | nothing is found for an address if and only if no entry has it |
| GpuStatus.HolderOfEntry | cmd/gpu-discovery/main.go:170-176 | the holder looked up is that of the last entry with the ID, which with distinct IDs is every entry |
| GpuStatus.HolderOfNone | cmd/gpu-discovery/main.go:170-176 | nothing is found for an ID if and only if no entry has it |
| GpuPublish.ApiServer.PatchLocked | cmd/gpu-discovery/main.go:125-134 | a patch applies only to the state it was computed from, so it never erases a write made in between |
| GpuPublish.ApiServer.PatchUnlocked | cmd/gpu-discovery/main.go:141-149 | a merge patch of the phase changes no other member of whatever is stored |
| GpuPublish.TryPublish | cmd/gpu-discovery/main.go:125-134 | one attempt writes at most once, over the status it has just read, with every GPU and partition in both keeping its entry's allocation, and a conflict writes nothing |
| GpuPublish.PublishStatus | cmd/gpu-discovery/main.go:85-139 | over all retries and interleaved controller writes, at most one write, which keeps every allocation in both the stored status and the hardware and an exact FreeGPUs; the slice is the fold of the statuses this cycle read and merged, the last of them is the one the write replaced, the partitions written are the slice, and each is a fresh merge exactly under the stated condition; undisturbed, it succeeds |
| GpuPublish.FreshMergeIff | cmd/gpu-discovery/main.go:227-235 | a partition folded over the reads is a fresh merge's if and only if the last read lists it or no earlier read gave it to another |
| GpuPublish.DroppedHolderExample | cmd/gpu-discovery/main.go:125-134 | two reads of one cycle that bring a dropped holder back |
| GpuPublish.PatchPhase | cmd/gpu-discovery/main.go:141-149 | no allocation and no count changes, whatever the controller writes meanwhile; undisturbed, exactly the phase is set |
| GpuPublish.DiscoveryCycle | cmd/gpu-discovery/main.go:59-81 | every write of every cycle keeps the allocations and FreeGPUs; a failed discovery only sets the phase |
| DeviceNames.DecodeInvertsEncodeIff | internal/gpualloc/dra.go:229-251 | decoding inverts encoding on every PCI address, and on nothing else |
| DeviceNames.EncodeInvertsDecodeIff | internal/gpualloc/dra.go:229-251 | a name that decodes is the encoding of its address if and only if it has no colon and no dot |
| DeviceClaim.Claim.SetDeviceStatus | cmd/kubeswift-dra-driver/driver.go:184-193 | the first entry with the key is replaced, else the entry is appended |
| DeviceClaim.PublishDeviceStatus | cmd/kubeswift-dra-driver/driver.go:148-181 | the stored statuses become this driver's addresses in result order, or stay as they were; each device's status has its driver, pool and device with its last address and replaces what stood under that key, and no other status changes |
| DeviceClaim.UpsertReplaces | cmd/kubeswift-dra-driver/driver.go:184-193 | one status under each key before and after, the new one under its own, every other untouched |
| DeviceClaim.PublishedCarries | cmd/kubeswift-dra-driver/driver.go:148-181 | after publishing, every device has its last address under its own key, one status for each key |
| DeviceClaim.OursMember | cmd/kubeswift-dra-driver/driver.go:60-66 | this driver's results are those with its driver name |
| DeviceClaim.DecodeResults | cmd/kubeswift-dra-driver/driver.go:60-78 | this driver's names decode all, in order, or the claim is refused |
| DeviceClaim.AddressesAre | cmd/kubeswift-dra-driver/driver.go:60-78 | there are addresses if and only if every name follows the scheme, and each is its own name's, in order |
| DeviceClaim.PrepareClaim | cmd/kubeswift-dra-driver/driver.go:55-103 | a refused claim writes nothing; otherwise the CDI spec holds this driver's addresses and the first device carries it |
| DeviceClaim.ExtractDeviceBDFs | internal/gpualloc/dra.go:192-223 | status addresses when there are any, else all names that decode, and an error on malformed data |
| DeviceClaim.StatusReadBackIff | cmd/kubeswift-dra-driver/driver.go:148-193 | from an empty status, the addresses read back are the CDI spec's if and only if this driver's results have distinct pool and device |
| DeviceClaim.NameReadBackIff | internal/gpualloc/dra.go:214-222 | the decoded names are the CDI spec's addresses if and only if no other driver uses the naming scheme |
| DeviceClaim.PrepareThenExtract | cmd/kubeswift-dra-driver/driver.go:55-103 | however the status write fares, what is read back is what the CDI spec holds |
| DeviceClaim.GpuExample | internal/gpualloc/dra.go:192-223 | one device twice in a claim, and a foreign device under a name of the scheme, each read back wrongly |
| RbacRules.RuleAtoms | internal/gateway/access_drift.go:80-101 | the set holds exactly the permissions some rule expands to |
| RbacRules.Minus | internal/gateway/access_drift.go:103-111 | exactly the permissions of one set missing from the other, each once |
| RbacRules.AtomsDecide | internal/gateway/access_drift.go:80-101 | a request is allowed by the rules if and only if one of their permissions allows it |
| RbacRules.SameAtomsSameDecisions | internal/gateway/access_drift.go:80-111 | rule lists with the same permissions allow the same requests |
| RbacRules.PlainRulesDecide | internal/gateway/access_drift.go:41-54 | conventional rules with the permissions of plain ones allow the same requests |
| RbacRules.PlainRulesDecideIff | internal/gateway/access_drift.go:41-54 | rules without empty names that have the permissions of plain ones allow the same requests if and only if they name no URL |
| RbacRules.UrlLooksLikeResource | internal/gateway/access_drift.go:95-97 | for every string, a URL rule and a core resource rule expand alike and decide differently |
| RbacRules.EmptyNameLooksLikeAny | internal/gateway/access_drift.go:83-86 | a rule for the empty name expands like one for every name and allows less |
| RoleSync.ValidCapabilities | internal/gateway/access_capabilities.go:167-179 | the loop computes the known keys in catalog order |
| RoleSync.RulesForCapabilities | internal/gateway/access_capabilities.go:183-191 | the loop composes the rules of the valid keys |
| RoleSync.ValidCapsIdempotent | internal/gateway/access_capabilities.go:167-179 | the canonical list is unchanged by choosing the valid keys again |
| RoleSync.CompositionGrants | internal/gateway/access_capabilities.go:183-191 | a composition allows exactly what one of its listed capabilities allows |
| RoleSync.CsvRoundTripIff | internal/gateway/access_service.go:417-424 | a stored list reads back unchanged if and only if no key has a comma and it is not a single empty key |
| RoleSync.StoredListSurvives | internal/gateway/access_drift.go:31-36 | what is chosen from a stored list is stored and read back unchanged |
| RoleSync.RoleDrift | internal/gateway/access_drift.go:41-54 | drift is empty if and only if permissions and capability list agree, and lists exactly the extra and the missing permissions |
| RoleSync.Synced | internal/gateway/access_drift.go:59-75 | the desired rules; the desired labels and annotations under their keys; every other label and annotation, the name and the version as they were |
| RoleSync.SyncKeepsTheRest | internal/gateway/access_drift.go:31-75 | for every role: a sync keeps the name and every label and annotation the editor does not own; a predefined role gets its shipped name and capabilities, and a custom role keeps its name and composes its own list |
| RoleSync.SyncIsFixpoint | internal/gateway/access_drift.go:31-75 | for every role: once synced, its desired role is unchanged, its drift is empty and syncing again changes nothing |
| RoleSync.NoDriftGrantsCapabilities | internal/gateway/access_drift.go:41-54 | a role without empty names and without drift allows exactly what its capabilities allow if and only if it names no URL |
| RoleSync.ConventionalRoleGrants | internal/gateway/access_drift.go:41-54 | a role without drift that keeps to the convention for URLs allows exactly what its capabilities allow |
| RoleSync.HiddenUrl | internal/gateway/access_drift.go:41-54 | a URL spelled like a granted core resource hides in a role without drift |
| RoleSync.RoleStore.Refresh | internal/gateway/access_service.go:357-370 | whatever the answer, the role is as it was or up to date; its name and every label and annotation the editor does not own are as they were; a predefined role shows its shipped name and capabilities and a custom one keeps its own; an up-to-date role is not written; no other role changes |
| RoleSync.RoleStore.EnsureRole | internal/gateway/access_service.go:357-382 | success leaves the role up to date unless another client created it meanwhile; metadata the editor does not own is kept; foreign and unknown roles are refused; a second call writes nothing |
| RoleSync.RoleStore.SyncRole | internal/gateway/access_service.go:127-162 | success leaves the role up to date with the metadata the editor does not own as it was; missing and foreign roles are refused untouched; a second call writes nothing |
| RoleCatalog.ShippedKeys | internal/gateway/access_capabilities.go:33-129 | the shipped capability keys are distinct and none is empty |
| RoleCatalog.ShippedRulesPlain | internal/gateway/access_capabilities.go:33-129 | no shipped rule names a resource that could be a URL |
| RoleCatalog.ShippedRolesGrant | internal/gateway/access_drift.go:41-54 | in this release a role without drift allows exactly what its capabilities allow if and only if it names no URL, and it names none under the convention |

## Left out

- MemberWatch.NothingSkipped: speaks of runs whose replays are cut, by anything but a 410 or a stop, only where MemberWatch.ReplayCutIff shows that to be sound.
- ResilientWatch.Watch: the script of environment answers is finite and ends with the context's end; a watch that runs forever is covered through its prefixes.
- FrameIO.Reader.Read: errors of the descriptor are not told apart from the end of the stream.
- FrameIO.Reader.ReadFull: over the guest's raw descriptor the end of the connection makes the original ask again for ever; the model asks for enough bytes there instead of stating non-termination.
- FrameIO.Writer.SysWrite: a short write may stop anywhere, also where a kernel would not.
- ExecStream.HostSeesTheCommand: no write fails, and the command's whole output is fixed in advance; stdin, the attached terminal and their resize frames are not part of the run.
- VmImage.ChunkAndPush: each registry call is one call that may fail; that calls are wrapped in the retry of the Retry module is not composed with it.
- VmImage.PullAndReassemble: offsets are numbers, not the decimal annotations they are stored as, and a block device's size and flushing are the operating system's.
- Retry.WithRateLimitRetry: the text that names a rate limit is a flag of the error, not a search in a string.
- SnapshotS3.DownloadFrom: a stored manifest's paths are joined as an upload's are, without the cleaning path.Join would do to paths no walk yields.
- SnapshotS3.BuildManifest: read errors of the walk are left out, and it keeps the walk's order where the original sorts the list by path at the end; nothing proved depends on the order.
- Stager.Destination.Run: file modes, fsync and symbolic links in place of config.json or the sentinel are not modelled; a crash keeps every completed operation; a wipe takes the names before the sentinel's in any order, and those after it too.
- GpuPublish.ApiServer.Get: replaces the object it fills; a client library that decodes into the slices already there would alias them, and its code is not part of this model.
- GpuPublish.ApiServer.Interfere: the controller keeps FreeGPUs right in its own writes; its code is not part of this model.
- DeviceClaim.PublishDeviceStatus: the claim is not changed by others between its read and its update; conditions and timestamps are not modelled.
- RbacRules.AtomsDecide: the matching rules are Kubernetes' own as its RBAC authorizer applies them to ClusterRoles; role bindings, aggregation and namespaces are not modelled.
- RoleSync.RoleDrift: the drift is the lists themselves, not the sentence that describes them.
- The attached terminal session, PTYs, stdin forwarding, chroot and mounts: operating-system behaviour.
- Kubernetes, S3, ORAS and cosign clients, TLS and credentials: foreign code behind the abstract stores.
- The controllers, webhooks, thin-pool materializer and the Rust runtime.
- Command-line wiring, printing, metrics, list and describe calls: they would only add easy members.
