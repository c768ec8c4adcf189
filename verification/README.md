# Verification of the KOTOR2VR protocols

KOTOR2VR wraps GL, D3D12 and Win32 in a number of hand-written concurrent and crash-safe protocols.
This project models those protocols in Dafny, and proves what they keep over all their runs. `dafny
verify dfyconfig.toml` checks everything.

| files | what they model |
|---|---|
| `TraceRing`, `TraceRingInvariant`, `TraceQueue` | the bounded queue of the render trace: any number of producers, one consumer, any capacity of at least 2, one atomic access per step |
| `TraceStop`, `TraceStopProofs`, `TraceStopEvents`, `TraceStopFinal`, `TraceStopClean`, `TraceScopes` | the wrappers that feed the queue, the writer that drains it, and the stop protocol |
| `OverrideSession`, `OverrideProofs`, `OverrideRecovery`, `OverrideEdits`, `OverrideOutcomes`, `OverrideTransaction` | the crash-safe config override: any number of launchers over one target, its lock, journal and backups, with a crash possible between any two file operations |
| `TextLines`, `MsaaSyntax`, `MsaaExpressions`, `MsaaDefaults`, `MsaaCreate`, `MsaaProofs`, `MsaaSession` | the text of the MSAA override, and what it means for the sessions above |
| `GpuRing`, `GpuStream` | the three-slot ring decision and its consumer |
| `GlMachine`, `GlBridge`, `GlBridgeCalls`, `GpuProducer` | the GL/D3D12 bridge and the mono producer on top of it, with contexts that die and handles that come back |
| `StereoMetadata`, `StereoMapping`, `StereoSeqlock` | the pair metadata next to its image ring |
| `FrameRing`, `FrameRingProofs`, `FrameRingCalls`, `FrameRingRuns`, `FrameRingOrder`, `FrameRingDisorder`, `StereoFrameRing` | the host's per-eye frame ring with leases, stealing, fences and generations, for any number of slots |
| `Seqlock`, `RequestPipeline`, `RequestProofs`, `RequestEnds`, `RequestBridge` | the two sequence locks and the way of a render request through both |
| `ViewChordFilter`, `BinkPixels` | the controller chord filter and the Bink pixel converter |
| `Wrappers`, `Words`, `Division` | shared helpers |

A protocol between threads or processes is a state machine whose steps are single atomic accesses (or
single file operations), and a theorem about it is about every run. Beside it stands the program text:
methods that perform those steps one by one, with any number of steps of the others in between
(`Interfere`, `Others`, `HostRuns`, `GameRuns`), so that their contracts hold under every interleaving.
What one thread does alone, or under a mutex, is a class whose methods change its fields. Names follow
the sources. Steps interleave; memory is sequentially consistent, which the interlocked operations and
barriers of the x86 sources are written for.

## What the proofs turned up

- **Stopping the trace is not quite clean.** The stop thread clears the camera flag (render_trace.cpp:1207)
  and drains the queue, but the bootstrap raises the flag (line 1456) without regard to a stop that has
  begun. A wrapper entered then reports a camera failure (lines 952-955), which does not look at the
  accepting flag. Its record can be claimed behind the writer's last look and before Ok, or after Ok.
  `StopIsCleanIff` gives the exact condition at the moment of the clearing, `SuccessIsFinalIff` the one
  after any Ok, and `StopCanLoseARecord` the run.
- **Begin has a read-to-write window of its own**, as a restore has. An outside edit inside either is
  replaced without a copy (`BeginReplacesEdit`, `RestoreReplacesEdit`, with the runs `BeginLosesAnEdit` and
  `RestoreLosesAnEdit`); in a plain session an edit survives exactly outside them (`EditSurvivesIff`).
- **A bridge released between the end of its context and the first rebind** recognises the owner by its
  handle alone, so with a reused handle it deletes names of the new context (`ReleaseIsSafeIff`,
  `ShutdownInRecycledContext`). No caller in the repository shuts the producer down there.
- **A stereo pair given up after its wait** makes the next wait for that slot a refusal
  (`NextWaitIsAcceptedIff`, `GivenUpPairIsRefused`), which the stereo producer treats as fatal
  (native_stereo.cpp:802-803).
- **A stereo signal that is reported as an error may have been queued.** Context recovery clears the failure
  (native_stereo.cpp:741) without a look at the fence, so the same value can be used again for another pair
  while the host reads the first. `ReviveIsSafeIff` gives the exact condition.
- **`publish` of the frame ring does not look at the last acquired frame**, so the order of acquired pairs
  needs producers that hold one lease per eye and take increasing ids (`AcquiredInOrder`); without either
  half the order breaks on every ring of at least two slots (`TwoLeasesGoBackwards`,
  `DecreasingGoesBackwards`).
- **The MSAA override leaves a line feed behind** when the key was missing and the section ended the file
  without one; `RestoreUndoesCreate` says exactly when it leaves nothing.
- **The private sequence lock can be lapped** only by an attempt that begins before the first request and
  lasts through 0x7FFFFFFE of them (`NotLapped`), and then what it accepts can be torn
  (`LappedAttemptIsTorn`); everything else the render thread accepts is whole.

## Model

| member | source | states |
|---|---|---|
| TraceRingInvariant.StepInv | src/game32/render_trace.cpp:350-392 | every atomic access of any producer or of the writer keeps the ring in order: each slot of the window is free, owned by the one thread that holds its ticket, or published with exactly that ticket's record |
| TraceRingInvariant.RecordsInTicketOrder | src/game32/render_trace.cpp:350-392 | in every interleaving of any number of producers, for any capacity of at least 2, the k-th record handed to the writer is the one claimed under ticket k, and every claimed record not yet handed over is in its slot or being copied there by its owner |
| TraceRingInvariant.SlotsExclusive | src/game32/render_trace.cpp:357-363 | two threads never fill the same slot, and the slot being read has no writer |
| TraceRingInvariant.DropsAreJustified | src/game32/render_trace.cpp:353-374 | a drop through the negative difference means the ring was full when that slot was read; a drop for want of attempts comes exactly after eight of them, and means that eight other tickets were claimed meanwhile |
| TraceRingInvariant.DifferencesFit32 | src/game32/render_trace.cpp:354-368 | below 2^31 tickets no stored sequence, position or difference of the two leaves the range of a 32-bit LONG |
| TraceRingInvariant.EveryCallAccountedFor | src/game32/render_trace.cpp:350-376 | every call of EnqueueRecord is a claimed ticket, a counted drop, or still under way |
| TraceRing.IndexInjective | src/game32/render_trace.cpp:353-353 | two tickets less than one lap apart never share a slot |
| TraceQueue.Queue.constructor | src/game32/render_trace.cpp:1168-1174 | InitializeQueue leaves the initial state that the invariants start from, for any capacity |
| TraceQueue.Queue.EnqueueRecord | src/game32/render_trace.cpp:350-376 | under any interference, true exactly when this call claimed a ticket, and then the record stands under that ticket; of the tickets claimed meanwhile no other is this thread's, and none at all when the answer is false |
| TraceQueue.Queue.CopyAndPublish | src/game32/render_trace.cpp:360-363 | after a won compare-and-swap the slot is filled and published, whatever the others do between the words |
| TraceQueue.Queue.DequeueRecord | src/game32/render_trace.cpp:378-392 | under any interference, true exactly when the head was published, and then the output is the whole record claimed under the head ticket, handed out next in order |
| TraceStopProofs.StepSystem | src/game32/render_trace.cpp:475-606 | every step of the wrappers, the writer, the stop thread and the bootstrap keeps the session in order: the active count is the number of open scopes, and past the stop's check no scope can enqueue unless the camera flag came up late |
| TraceStopEvents.SuccessIsOneScript | src/game32/render_trace.cpp:1198-1231 | over every run from the start: Ok is reported exactly when the stop thread's steps were request, refusal, restored hooks, check, signal and join, in this order; in particular the hooks were restored and no attempt at that failed |
| TraceStopEvents.TimeoutIsFailedCheck | src/game32/render_trace.cpp:1215-1224 | over every run from the start: the stop reports wrappers that would not end exactly when its check came after a failed restoring of the hooks, or while more wrappers had been entered than left |
| TraceStopEvents.CameraIff | src/game32/render_trace.cpp:952-955 | over every run from the start the camera flag is up exactly when the bootstrap raised it after the last camera failure, fault and stop |
| TraceScopes.EntryIsRecordedIff | src/game32/render_trace.cpp:546-582 | a wrapper is recorded, and hands its entry record to EnqueueRecord, exactly when the trace accepts records (neither timed out nor stopped) or a wrapper around it was recorded |
| TraceScopes.ScopesAreRecordedOnce | src/game32/render_trace.cpp:546-602 | over every run, each call of EnqueueRecord is an entry, an exit, a double-pass record or a camera report; once all wrappers are left, every recorded one made exactly one entry and one exit call, every claimed double pass three, every camera failure one |
| TraceStopProofs.StopDrains | src/game32/render_trace.cpp:1198-1246 | when the stop thread reports Ok and the camera flag was not raised after the stop cleared it, every record ever claimed was handed to the writer before it exited, in ticket order |
| TraceStopProofs.NothingFollows | src/game32/render_trace.cpp:546-553 | after such a stop no continuation of the run enqueues anything, even through a wrapper entered after the active count was seen as zero |
| TraceStopFinal.SuccessIsFinalIff | src/game32/render_trace.cpp:546-606 | for every run that ends in Ok: nothing is ever claimed afterwards exactly when the ring is full for good or no thread is on its way to a ticket or to the camera path and the flag neither is nor can come up; if the flag stayed down since the stop cleared it, exactly when the bootstrap's store of it is behind |
| TraceStopClean.StopIsCleanIff | src/game32/render_trace.cpp:1198-1246 | when the stop thread has cleared the camera flag: every Ok to come drains the queue, and every Ok to come is final, exactly when the bootstrap's store of the flag is behind |
| TraceStopClean.StopCanLoseARecord | src/game32/render_trace.cpp:1456-1456 | from every initial session whose store is to come, a stop reports Ok over a claimed record that nobody read |
| OverrideProofs.StepInv | src/launcher/TcsOverrideTransaction.cs:235-346 | every file operation of every launcher, every failure and every crash keeps lock, journal, backups and launchers in agreement |
| OverrideProofs.CrashSafe | src/launcher/TcsOverrideTransaction.cs:235-346 | for any number of launchers crashing anywhere, without outside edits: the target is the baseline or its override, it is the baseline whenever there is no journal, and a journal always names a backup holding the baseline |
| OverrideRecovery.RecoveryRestoresBaseline | src/launcher/TcsOverrideTransaction.cs:147-225 | wherever the owner died, a launcher that finds the lock free restores the baseline and leaves no journal and no lock |
| OverrideRecovery.RecoveryIsIdempotent | src/launcher/TcsOverrideTransaction.cs:211-221 | a recovery cut short by a crash after any of its steps has restored the baseline already or is completed to the same end by the next launcher |
| OverrideRecovery.OnlyAbandonedIsTouched | src/launcher/TcsOverrideTransaction.cs:193-209 | target and journal of another launcher's session change only under the lock and only once that launcher is dead |
| OverrideOutcomes.RecoveryWrites | src/launcher/TcsOverrideTransaction.cs:475-543 | from every reachable world, edits included: a recovery of a missing or still overridden target writes the original from the backup, of an edited one its merge, and then journal, backup and lock are gone and nothing else has changed |
| OverrideOutcomes.RecoveryFinishes | src/launcher/TcsOverrideTransaction.cs:496-543 | a target that is the original already is left alone; journal, backup and lock go |
| OverrideOutcomes.RecoveryGivesUp | src/launcher/TcsOverrideTransaction.cs:513-536 | an edit that cannot be merged stays, with journal and backup; in the plain mode a copy of it is put aside |
| OverrideOutcomes.BackupIsChecked | src/launcher/TcsOverrideTransaction.cs:481-495 | in any world, a backup that is missing or does not match the journal makes the restore fail with every file as it was |
| OverrideOutcomes.FailedJournalLeavesNoTrace | src/launcher/TcsOverrideTransaction.cs:293-318 | a Begin whose journal cannot be written takes its backup away again and leaves files and lock as before |
| OverrideEdits.OutsideEditSurvives | src/launcher/TcsOverrideTransaction.cs:527-536 | in the plain mode an edit made while no launcher stands between its read and its write is never replaced, the journal stays, and no session starts any more |
| OverrideEdits.EditSurvivesIff | src/launcher/TcsOverrideTransaction.cs:475-552 | in every reachable plain session, an outside edit outlasts whatever the launchers do next exactly when none of them stands between reading the target and the end of what it decided from that |
| OverrideEdits.BeginReplacesEdit | src/launcher/TcsOverrideTransaction.cs:261-323 | an edit anywhere between Begin's read and its write, in every mode and every reachable world, is replaced by that write, and neither a backup nor a conflict copy made meanwhile holds it |
| OverrideEdits.RestoreReplacesEdit | src/launcher/TcsOverrideTransaction.cs:527-543 | an edit between a restore's read and its write is replaced in the same way |
| OverrideEdits.BeginLosesAnEdit | src/launcher/TcsOverrideTransaction.cs:261-323 | a run from the initial files in which Begin loses an edit, for every mode, baseline and edit |
| OverrideEdits.RestoreLosesAnEdit | src/launcher/TcsOverrideTransaction.cs:475-552 | a run from the initial files in which a restore does |
| OverrideTransaction.Launch.Begin | src/launcher/TcsOverrideTransaction.cs:235-346 | true exactly when the session started, and then the target is the mode's override of the baseline under a journal of this launcher; false only when an operation threw, an owner was not found dead, another launcher has the lock or the mode has no override, and then the lock is let go |
| OverrideTransaction.Launch.WriteOverride | src/launcher/TcsOverrideTransaction.cs:320-339 | a failed write of the target rolls the journal back before the lock goes |
| OverrideTransaction.Launch.BackUpAndJournal | src/launcher/TcsOverrideTransaction.cs:293-318 | the backup exists before the journal that names it, and goes again when the journal cannot be written |
| OverrideTransaction.Launch.ResolveExistingJournal | src/launcher/TcsOverrideTransaction.cs:405-423 | Begin goes on only when no journal is left, restoring one of a dead owner first; it stops only for an exception or an owner that is not known to be dead |
| OverrideTransaction.Launch.RestoreJournal | src/launcher/TcsOverrideTransaction.cs:475-552 | it succeeds exactly when no operation throws, and then the target is the baseline and the journal is gone while the lock is still held; when it fails the caller's way out is taken |
| OverrideTransaction.Launch.Restore | src/launcher/TcsOverrideTransaction.cs:348-396 | Restore ends the session with the baseline back, the journal gone and the lock free; it fails only for an exception, and then the journal stays; Dispose always lets go of the lock |
| OverrideTransaction.Launch.RecoverAbandoned | src/launcher/TcsOverrideTransaction.cs:147-222 | one turn of the recovery loop never ends with the lock held or a session active; when it answers true the journal it had found, of a dead owner, is gone and the target is the baseline; it answers false only for an exception, an owner not known to be dead, a lock that is held, or a journal that is gone or another one |
| OverrideTransaction.Launch.constructor | src/launcher/TcsOverrideTransaction.cs:115-121 | a launcher over the initial files, with its own fields at rest |
| TextLines.LinesJoin | src/launcher/MonitorMsaaDefaults.cs:11-16 | a text is its lines: joining and splitting are inverse |
| MsaaSyntax.SetNumberIsKey | src/launcher/MonitorMsaaDefaults.cs:63-67 | replacing the number leaves a key line that parses to that number |
| MsaaSyntax.ZeroIff | src/launcher/MonitorMsaaDefaults.cs:46-48 | a number in digits is 0 exactly when all of them are zeros |
| MsaaSyntax.PlaceValue | src/launcher/MonitorMsaaDefaults.cs:46-48 | the number of two strings of digits in a row is the first times ten to the length of the second, plus the second |
| MsaaExpressions.HeaderIff | src/launcher/MonitorMsaaDefaults.cs:11-13 | a line is a header with a name exactly when it is blanks, the name in brackets, blanks, perhaps a comment and perhaps a carriage return |
| MsaaExpressions.SectionIff | src/launcher/MonitorMsaaDefaults.cs:69-76 | a header is the section's exactly when its trimmed name is Graphics Options in any letter case |
| MsaaExpressions.KeyIff | src/launcher/MonitorMsaaDefaults.cs:14-16 | a line is the key with a prefix, value and ending exactly when it is made of blanks, the name in any letter case, blanks, an equals sign, blanks, the value and the ending |
| MsaaExpressions.NumberIff | src/launcher/MonitorMsaaDefaults.cs:17-18 | a value has a number exactly when it is digits worth at most 2147483647, blanks and perhaps a comment |
| MsaaSyntax.KeyIsNotHeader | src/launcher/MonitorMsaaDefaults.cs:11-16 | a key line is never a section header |
| MsaaDefaults.Find | src/launcher/MonitorMsaaDefaults.cs:69-85 | the loop over the headers finds the one section and its one key, or reports which of them is missing or double |
| MsaaCreate.FoundIff | src/launcher/MonitorMsaaDefaults.cs:69-85 | the search finds a section and key exactly when the section is the only one, reaches to the next header, and the key is its only one (or there is none) |
| MsaaCreate.AmbiguousIff | src/launcher/MonitorMsaaDefaults.cs:69-85 | it throws exactly with two sections, or two keys in the only one |
| MsaaCreate.CreateAddsKey | src/launcher/MonitorMsaaDefaults.cs:23-33 | without a key, Create is the text with the key line inserted at the section's end, in CR LF if the text has one anywhere, behind a line end of its own if the section has none |
| MsaaProofs.RestoreUndoesCreate | src/launcher/MonitorMsaaDefaults.cs:23-54 | Restore(Create(t), t) is t exactly when the key was there before or the section ends in a line feed |
| MsaaProofs.RestoreTouchesOnlyTheKey | src/launcher/MonitorMsaaDefaults.cs:40-54 | whatever was edited: unless the one key that the search finds has a number made of zeros, Restore returns the text itself; otherwise every other character keeps its place, and that number becomes the number of the original's key, or that key's line goes when the original has none |
| MsaaProofs.NonZeroIsKept | src/launcher/MonitorMsaaDefaults.cs:46-48 | a key whose value is no number, or whose number has a digit other than 0, stays, whatever the original was |
| MsaaProofs.RestoreIsIdempotent | src/launcher/MonitorMsaaDefaults.cs:40-54 | restoring what was restored changes nothing |
| MsaaSession.EditedTargetKeepsItsEdits | src/launcher/TcsOverrideTransaction.cs:513-518 | a restore that meets an edited MSAA target leaves the files alone or goes on to write the edit with its one key changed in place as the backup has it |
| MsaaSession.RepeatedRestoreWritesTheSame | src/launcher/TcsOverrideTransaction.cs:513-543 | a restore repeated after a crash behind its write settles on the same text |
| GpuRing.PreviousUse | src/common/gpu_stream_contract.hpp:123-129 | the last use of candidate c's slot is c - 3, or none for the first three |
| GpuRing.DecisionIsWindow | src/game32/gpu_stream_producer.hpp:120-136 | below the exhaustion and removal limits the decision is Produce exactly when the candidate is at most consumed + 3 |
| GpuRing.WindowKeepsSlots | src/common/gpu_stream_contract.hpp:145-152 | inside that window every unconsumed value still has its slot |
| GpuStream.StepInv | src/game32/gpu_stream_producer.cpp:866-960 | producer and consumer steps keep the producer at most three values ahead, and the books equal to what the slots hold |
| GpuStream.CopySeesItsFrame | src/game32/gpu_stream_producer.cpp:866-960 | in every run, every piece a consumer copies before it signals belongs to the frame it took |
| GlBridge.Bridge.ReleaseGlStream | src/game32/gl_ext_d3d12_bridge.cpp:423-444 | deletes exactly the names in the state, each one a living name of the current context |
| GlBridge.Bridge.Import | src/game32/gl_ext_d3d12_bridge.cpp:511-648 | ends with a complete set of new names in the current context, or with the very names that existed before |
| GlBridge.Bridge.Initialize | src/game32/gl_ext_d3d12_bridge.cpp:896-946 | on success the bridge owns the current context, its adapter and no stream; on failure nothing changed, and why it failed: already initialised, no context, or a driver error |
| GlBridge.Bridge.CreateStream | src/game32/gl_ext_d3d12_bridge.cpp:650-821 | on success the stream is complete, its history empty and its names new; on failure state and names are as before; which refusal comes first, and without one only a driver error fails |
| GlBridge.Bridge.RebindAfterContextReplacement | src/game32/gl_ext_d3d12_bridge.cpp:948-1018 | every attempt keeps the D3D12 side and the ready history and forgets the waits; it succeeds only on the stream's own adapter, answers AdapterMismatch only on another, and fails otherwise only for a driver error; a failed one leaves the stream incomplete, ownerless and the set of names as it was; a successful one is complete in the current context with new names only |
| GlBridge.Bridge.SignalReady | src/game32/gl_ext_d3d12_bridge.cpp:1056-1109 | which refusal comes first, that a refusal or driver error changes no book, and that success records the value for the slot and the stream |
| GlBridge.Bridge.WaitConsumed | src/game32/gl_ext_d3d12_bridge.cpp:1117-1174 | the same for waiting: the value must be the slot's own ready value, newer than its last wait, and completed |
| GlBridge.DecisionIff | src/game32/gl_ext_d3d12_bridge.hpp:211-232 | each answer of the decision holds exactly when it names the first thing that is wrong |
| GlBridge.Bridge.ReleaseStream | src/game32/gl_ext_d3d12_bridge.cpp:1176-1215 | deletes exactly the names of the current context that the stream's state gives, under any reuse of handles, or refuses and changes nothing |
| GlBridge.Bridge.Shutdown | src/game32/gl_ext_d3d12_bridge.cpp:1217-1239 | the same, and the bridge is gone exactly when the deletion reported no error |
| GlBridge.Bridge.ReleaseIsSafeIff | src/game32/gl_ext_d3d12_bridge.cpp:172-176 | what ReleaseStream and Shutdown delete is the stream's own exactly when the owner's handle is not current or the owner itself lives |
| GlBridge.Bridge.ShutdownInRecycledContext | src/game32/gl_ext_d3d12_bridge.cpp:1224-1229 | from every live stream: the owner is destroyed, a context comes back under its handle, and a shutdown before the rebind deletes a name of the new context that the bridge never made |
| GlBridgeCalls.NextWaitIsAcceptedIff | src/game32/gl_ext_d3d12_bridge.cpp:1117-1174 | after any calls on a new stream, the next wait for a slot is accepted exactly when a signal in that slot, or a rebind behind one, came after its last wait |
| GlBridgeCalls.NextSignalIsAcceptedIff | src/game32/gl_ext_d3d12_bridge.cpp:1056-1109 | after any calls on a new stream, the next signal is accepted exactly when its value is greater than all before it and its slot is not waiting to be reacquired |
| GlBridgeCalls.GivenUpPairIsRefused | src/game32/native_stereo.cpp:799-804 | after a wait whose pair was given up, whatever was done with other slots, the next wait for that slot is refused |
| GpuProducer.Producer.Start | src/game32/gpu_stream_producer.cpp:604-771 | on success the producer runs with books that agree with the bridge's; on failure it is Failed and holds no new name |
| GpuProducer.Producer.Produce | src/game32/gpu_stream_producer.cpp:849-972 | a frame is produced exactly when it lies within three of the consumed value; the books stay equal and inside the window; only a driver error, a lost device or the last value can stop the producer, never a refusal by the bridge |
| GpuProducer.Producer.Reacquire | src/game32/gpu_stream_producer.cpp:894-915 | WaitConsumed is never refused, and afterwards the slot's wait equals its ready value |
| GpuProducer.Producer.Handover | src/game32/gpu_stream_producer.cpp:923-943 | SignalReady is never refused, and afterwards every slot's wait is behind its ready value again |
| GpuProducer.Producer.NotifyContextDeleted | src/game32/gpu_stream_producer.cpp:804-814 | losing the owner forgets the producer's names and nothing of the frame history; any other context's end leaves a live stream alone |
| GpuProducer.Producer.RecoverContext | src/game32/gpu_stream_producer.cpp:816-844 | no attempt changes the frame history; without a successful import the set of GL names is as before; an attempt that is due, in a context on the stream's adapter, succeeds unless a driver error is reported, producing resumes only that way, and before its time nothing changes |
| GpuProducer.Producer.EnsureResolveTarget | src/game32/gpu_stream_producer.cpp:295-353 | replaces only the producer's own framebuffer and texture, and fails only for the driver's sake |
| GpuProducer.Producer.Play | src/game32/gpu_stream_producer.cpp:804-972 | over any list of contexts made, made current and deleted, host and device acts, frames and recoveries: the producer's books equal the bridge's throughout, no name of another owner is ever deleted, and it stops only for a driver error, a lost device or the last value |
| GpuProducer.Session | src/game32/gpu_stream_producer.cpp:604-972 | the same from the start of a session |
| StereoMetadata.StepInv | src/common/stereo_stream.cpp:47-78 | every word written or read, and every begin, signal (reported truly or not), failure, careful revival and consume step, keeps the pairs in their slots |
| StereoMetadata.PairStaysInItsSlot | src/common/stereo_stream.cpp:52-56 | for every v above the consumed value and up to the ready fence, slot (v-1) mod 3 holds exactly the pair written for v, under an even sequence number |
| StereoMetadata.ReadAnswersItsPair | src/common/stereo_stream.cpp:59-78 | Read(v) answers exactly that pair, and answers nothing exactly when the slot's number of writes is a multiple of 2^31 |
| StereoMetadata.ReviveIsSafeIff | src/game32/native_stereo.cpp:739-741 | reviving a stopped producer keeps every pair in its slot from then on exactly when the ready fence agrees with its book or the host has consumed the value that it does not know of |
| StereoMetadata.StopsBehindTheFence | src/game32/native_stereo.cpp:1124-1127 | a run from the start in which a signal is queued although it is reported as an error, so that the producer stops with the fence ahead of its book |
| StereoSeqlock.AcceptedIsOneWrite | src/common/stereo_stream.cpp:59-78 | whatever the game does, revived with care or not: what a reader accepts is what the slot holds with no write under way, as long as fewer than 2^31 writes were finished since it loaded the number; it is answered exactly when it is valid and names the value asked for, and a changed number leads to another attempt or, after the fourth, to no answer |
| StereoMapping.Mapping.Write | src/common/stereo_stream.cpp:47-58 | true exactly for a valid frame, which then stands whole in its slot, however the host runs |
| StereoMapping.Mapping.Read | src/common/stereo_stream.cpp:59-78 | the answer is the pair signalled for the value, while the game goes on writing other slots; no answer comes only after four attempts |
| StereoMapping.Mapping.BeginNativeStereoPair | src/game32/native_stereo.cpp:787-813 | a pair begins only inside the window over the consumed value, and is turned away only outside it or at the last value |
| StereoMapping.Mapping.FinishNativeStereoPresent | src/game32/native_stereo.cpp:1122-1128 | a value enters the books exactly when its words were accepted and its signal reported no error; the fence reaches it, with that pair, exactly when the signal was queued |
| FrameRingProofs.StepInv | src/host64/src/frame_ring.cpp:45-386 | every call keeps the books balanced, the leases distinct, and every ready or consumer slot on a usable frame of the current generation |
| FrameRingRuns.Conservation | src/host64/src/frame_ring.cpp:45-386 | granted = published + cancelled + open; published = 2 * acquired pairs + dropped + wiped + ready; 2 * acquired pairs = retired + consumer owned + consumer pending |
| FrameRingRuns.EachLeaseMovesOnce | src/host64/src/frame_ring.cpp:106-199 | each lease is published or cancelled at most once, acquired at most once and released at most once, with stale leases and pairs passed in at any time |
| FrameRingRuns.AcquiredPair | src/host64/src/frame_ring.cpp:201-252 | both halves of a pair are frames published unchanged under their leases, they match, belong to the current generation, and nothing older stays ready in either eye |
| FrameRingRuns.ReleasedSlotWaits | src/host64/src/frame_ring.cpp:254-305 | a released slot is granted again only after a retirement reached its fence value |
| FrameRingCalls.FirstRetireFreesPair | src/host64/src/frame_ring.cpp:254-305 | over every run, both slots of a pair released with a fence value wait until the first retirement that reaches it, and that one frees them |
| FrameRingCalls.AcquiredIsPresentable | src/host64/src/frame_ring.cpp:106-252 | over every run, both halves of an acquired pair have the same nonzero frame id and display time, complete colour textures alike in size and format, producer fences, and depth and motion that are absent or fit |
| FrameRingOrder.AcquiredInOrder | src/host64/src/frame_ring.cpp:58-61 | if each eye holds one lease at a time and takes leases with increasing frame ids, acquired pairs strictly increase in generation and frame id |
| FrameRingDisorder.TwoLeasesGoBackwards | src/host64/src/frame_ring.cpp:106-252 | on every ring of at least two slots a run with increasing frame ids and two open leases per eye acquires frame 2 before frame 1 |
| FrameRingDisorder.DecreasingGoesBackwards | src/host64/src/frame_ring.cpp:106-252 | and so does a run with one open lease per eye at a time and decreasing frame ids |
| StereoFrameRing.StereoFrameRing.constructor | src/host64/src/frame_ring.cpp:36-43 | an empty ring of any size |
| StereoFrameRing.StereoFrameRing.BeginProduce | src/host64/src/frame_ring.cpp:45-104 | grants the first free slot going round, else steals the ready slot with the oldest frame, else rejects; keeps the invariant |
| FrameRingCalls.BeginRefusedIff | src/host64/src/frame_ring.cpp:45-64 | a lease is refused exactly for bad arguments, a frame not later than the last acquired one, or when every slot is held or holds a frame of the greatest id |
| FrameRingCalls.BeginTakesRightSlot | src/host64/src/frame_ring.cpp:66-92 | the slot taken is the free one nearest to the start going round, or with none free the ready one with the smallest frame id |
| FrameRingCalls.BeginGrants | src/host64/src/frame_ring.cpp:90-104 | that slot is marked with the new lease, frame id and generation, the search starts behind it next time, a stolen frame is counted, and no other slot changes |
| StereoFrameRing.StereoFrameRing.PublishFrame | src/host64/src/frame_ring.cpp:106-180 | accepts exactly a usable frame that the open lease was taken for; any other frame under an open lease costs the lease |
| FrameRingCalls.PublishMeans | src/host64/src/frame_ring.cpp:106-180 | field by field: when a frame is accepted, and what becomes of its slot, of the others and of the counters either way |
| StereoFrameRing.StereoFrameRing.CancelProduce | src/host64/src/frame_ring.cpp:182-199 | frees exactly the slot of an open lease |
| FrameRingCalls.CancelMeans | src/host64/src/frame_ring.cpp:182-199 | exactly the slot of the open lease becomes free and is counted |
| StereoFrameRing.StereoFrameRing.AcquireLatestCompletePair | src/host64/src/frame_ring.cpp:201-252 | takes a complete pair of the largest frame id among all complete ready pairs, none only when there is none, and discards what is older |
| FrameRingCalls.AcquireIff | src/host64/src/frame_ring.cpp:201-237 | a pair is acquired exactly when two ready slots hold one frame alike, and never one with a smaller frame id than another such pair |
| FrameRingCalls.AcquireMeans | src/host64/src/frame_ring.cpp:239-252 | its two slots go to the consumer with their frames, exactly the ready frames with smaller ids become free and are counted, every other slot stays |
| StereoFrameRing.StereoFrameRing.ReleasePair | src/host64/src/frame_ring.cpp:254-290 | marks both slots pending exactly when the pair still owns them and the fence value is not 0 |
| FrameRingCalls.ReleaseMeans | src/host64/src/frame_ring.cpp:254-290 | accepted exactly with a nonzero fence for the very frames and leases that the slots still hold, and only these two slots change |
| StereoFrameRing.StereoFrameRing.RetireCompleted | src/host64/src/frame_ring.cpp:292-305 | frees exactly the pending slots whose fence is reached, and counts them |
| FrameRingCalls.RetireMeans | src/host64/src/frame_ring.cpp:292-305 | every pending slot whose fence value is at most the completed one becomes free, every other slot stays, none such stays pending, and the counter grows by their number |
| StereoFrameRing.StereoFrameRing.ResetStream | src/host64/src/frame_ring.cpp:307-340 | starts a later generation exactly when nothing is held, keeping lease numbers and statistics |
| FrameRingCalls.ResetMeans | src/host64/src/frame_ring.cpp:307-340 | accepted exactly for a later generation with every slot free or ready, and then every slot is new |
| StereoFrameRing.StereoFrameRing.FindFree | src/host64/src/frame_ring.cpp:68-75 | finds the first free slot at or after the start, going round, exactly when there is one |
| StereoFrameRing.StereoFrameRing.FindOldestReady | src/host64/src/frame_ring.cpp:77-87 | finds the ready slot with the smallest frame id, exactly when one is below the greatest id |
| StereoFrameRing.StereoFrameRing.FindNewest | src/host64/src/frame_ring.cpp:209-231 | the nested search finds the first of the newest complete pairs, exactly when there is one |
| Seqlock.NextNumber | src/game32/vr_bridge.hpp:169-179 | the numbers a writer steps through: twice the publications, starting over at 2 after 0x7FFFFFFE of them |
| Seqlock.NumberTells | src/common/shared_memory_channel.cpp:58-66 | the number is odd exactly during a publication and 0 exactly before any; a writer of the shared slot is refused exactly during one or after 0x7FFFFFFE of them |
| Seqlock.AcceptsIff | src/game32/vr_bridge.hpp:186-213 | the reader's test passes exactly when a whole number of 0x7FFFFFFE publications was finished since it loaded the number and none is under way |
| Seqlock.AcceptedIsWhole | src/game32/vr_bridge.hpp:186-213 | what is accepted is one whole publication when fewer than 0x7FFFFFFE publications start during the attempt |
| Seqlock.LappedAttemptIsTorn | src/game32/vr_bridge.hpp:186-213 | an attempt that 0x7FFFFFFE publications overtake between two words accepts a mixture that was never published |
| Seqlock.BoundedIsWhole | src/common/shared_memory_channel.cpp:58-110 | the shared slot stops before its numbers repeat, so there every accepted copy is whole |
| RequestProofs.StepInv | src/game32/vr_bridge.cpp:222-285 | every step of the host's threads, the worker, the render thread and the stop keeps the request pipeline in order |
| RequestProofs.SharedSlotCounts | src/common/shared_memory_channel.cpp:58-74 | one host thread at a time writes to the shared slot, its number is twice its publications (one more during one), and it never wraps |
| RequestProofs.PublishedFramesIncrease | src/game32/vr_bridge.hpp:109-115 | of two snapshots of the worker the later one is a later publication of the host and shows a later frame |
| RequestProofs.EveryOutputIsAPublication | src/game32/vr_bridge.cpp:491-514 | in every run, every request the render thread accepts is one whole publication of the host, valid for the session, unless its attempt began before the first request and 0x7FFFFFFE publications went by |
| RequestProofs.OutputsInFrameOrder | src/game32/vr_bridge.cpp:491-514 | in every run, successive accepted requests never go back to an earlier frame, unless the earlier one was lapped in that way |
| RequestEnds.OutputsAreRecent | src/game32/vr_bridge.hpp:117-122 | in every run, every accepted request was published by the worker at a time that the check found not in the future and at most the allowed age ago, by the clocks of these two steps, with the same exception |
| RequestEnds.NothingAfterStop | src/game32/vr_bridge.cpp:504-511 | once a stop has begun nothing is accepted any more, not even by a call that has its snapshot already |
| RequestEnds.StoppedIsEmpty | src/game32/vr_bridge.cpp:286-290 | when the bridge is stopped the worker has ended and the private snapshot is the empty one |
| RequestProofs.NotLapped | src/game32/vr_bridge.hpp:169-180 | while the bridge runs, an attempt that began after the first request is never lapped by the private numbers |
| RequestBridge.Bridge.PublishRenderRequest | src/common/shared_memory_channel.cpp:366-382 | published exactly as the newest whole entry of the slot, or not at all, under interference of other host threads; a valid request is left unpublished only for another publication or after 0x7FFFFFFE of them |
| RequestBridge.Bridge.WorkerTurn | src/game32/vr_bridge.cpp:222-290 | one turn reads a request no older than the newest at its beginning, ignores a repeated sequence number, counts a frame that is not later, and publishes any other with the time; it reads nothing only from an empty slot or after 64 contended attempts, and its end takes the snapshot back |
| RequestBridge.Bridge.TryReadLatestRenderRequest | src/game32/vr_bridge.cpp:491-514 | a snapshot is returned exactly when the bridge still runs and its words are marked valid, valid for the session, not from the future and at most the allowed age old; until the private numbers have gone round it is an entry of the private log and a request of the host with a frame id at least that of everything returned before; no snapshot is found only after 64 attempts or with the bridge not running |
| RequestBridge.Bridge.constructor | src/game32/vr_bridge.hpp:150-155 | a bridge over the empty pipeline |
| ViewChordFilter.ViewChordFilter.Apply | src/game32/controller_input_filter.hpp:33-60 | the answer of the four fields equals the one defined on the whole history of polls: which partners are hidden, and when View was tapped |
| ViewChordFilter.ViewChordFilter.Disconnect | src/game32/controller_input_filter.hpp:31-31 | starts a new history |
| ViewChordFilter.PartnerPassesIff | src/game32/controller_input_filter.hpp:33-60 | the game sees a held A, B, X, Y, Menu or down exactly when its press did not begin in the first poll and never met View |
| ViewChordFilter.OthersPass | src/game32/controller_input_filter.hpp:33-60 | every button but View and these passes as it is |
| ViewChordFilter.LonePressIsTap | src/game32/controller_input_filter.hpp:46-55 | View pressed alone after the first poll and let go is a tap |
| ViewChordFilter.HiddenNext | src/game32/controller_input_filter.hpp:43-52 | a partner is hidden by the next poll exactly when it is still held and was hidden already or View is down |
| ViewChordFilter.LoneViewNext | src/game32/controller_input_filter.hpp:44-55 | the running flags say whether the polls end in a View press that began after the first poll and met no partner |
| ViewChordFilter.TapsAreApart | src/game32/controller_input_filter.hpp:53-58 | View is never reported on two polls in a row |
| ViewChordFilter.HiddenUntilReleased | src/game32/controller_input_filter.hpp:43-43 | a hidden partner stays hidden until it is let go |
| ViewChordFilter.ChordIsNotATap | src/game32/controller_input_filter.hpp:46-55 | a chord hides its partner at once, and its View press ends without a tap |
| BinkPixels.GuardIsExact | src/game32/bink_pixels.hpp:24-26 | for all 32-bit sizes the 64-bit tests, in their order, decide exactly what they mean in exact arithmetic |
| BinkPixels.SizeTestAloneWraps | src/game32/bink_pixels.hpp:26-26 | the last test alone would accept an empty output for 2^62 pixels |
| BinkPixels.IndexInBounds | src/game32/bink_pixels.hpp:27-29 | on the accepting path every source and output index is in bounds and below 2^32 |
| BinkPixels.PackedRoundTrip | src/game32/bink_pixels.hpp:30-36 | the 16-bit formats lose nothing: the high bits of the channels give the word back |
| BinkPixels.DecodeIs | src/game32/bink_pixels.hpp:30-43 | every pixel is opaque, the byte surfaces store blue first when odd and red first when even, and the low bits of a packed channel repeat its high ones |
| BinkPixels.SpreadScales | src/game32/bink_pixels.hpp:34-36 | five and six bits are spread over eight in order, from 0 to 255, less than one step off the exact scale |
| BinkPixels.HintsAreIgnored | src/game32/bink_pixels.hpp:10-13 | the three access hints change no layout |
| BinkPixels.ConvertBinkPixels | src/game32/bink_pixels.hpp:19-44 | converts exactly the inputs that fit, every output pixel is the decoding of its source bytes, and a refused output is untouched |

## Left out

- Weak memory: steps interleave. Word copies go in ascending order.
- GL, D3D12, Win32, OpenXR and Bink calls: kept as success, failure, names and fence values, any of which may go wrong at any time.
- Trace positions modulo 2^32: unbounded, with `DifferencesFit32` below 2^31 tickets.
- Which thread of the game calls which wrapper of the trace: any thread may take the camera path.
- The trace's failed-install path, the header the writer writes first, and what a record says in the log.
- The override's file formats, encodings and byte-order marks, and the check of a journal's fields: a journal reads back as written or the read throws. Finding that the target exists and reading it are one step.
- The side file of the monitor preset, and the text of the two DLSS overrides: `Rules` stands for any such texts.
- Several override targets at once: their files are disjoint, one is modelled.
- The operating system's answers: replacing a file is atomic, a lock dies with its process, alive and dead are told truthfully when they are told, and the hash is injective.
- Letter case and white space beyond what `MsaaSyntax.Lower` and `MsaaSyntax.IsWhite` say: section and key names compare by ASCII case.
- The D3D12 side of a stream is made and released as one thing; the validation of texture descriptions and object names, and diagnostics.
- How the driver tells its adapter: a context has one adapter, and a query that succeeds answers it.
- The NV_DX fallback of the producer, and the producer's own shutdown, which nothing calls: a failed start ends in Failed.
- The threads of the GL side: contexts are destroyed and recovered on the render thread.
- The drawing between WaitConsumed and SignalReady, pose and projection arithmetic, HUD and depth of the stereo producer; its request gate and its own context recovery.
- StereoMetadata.PairStaysInItsSlot: for games that are revived with care, as `ReviveIsSafeIff` says exactly; without it the property is false.
- StereoMetadata.ReadAnswersItsPair: the same; and the host reads a value before it signals it; a read behind its own signal is not modelled.
- Error texts of the frame ring. Lease numbers and statistics are unbounded.
- Health messages, the opening and closing of the mapping, and the failed starts of the VR bridge.
- The DirectInput side of the chord filter (device identity, the hat): masks are sets of bit numbers.
- Movie, scene replay, probe, launcher commands, logging and stubs: plumbing.
