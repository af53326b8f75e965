# Virtle in Dafny

Virtle manages QEMU virtual machines. This project models the parts of it that keep promises over whole
runs, and proves those promises:

* **The wire session** under the QMP monitor and the guest agent: a bounded frame reader, the guest
  agent's resynchronisation, the client loops, and `Session.do` with its broken latch. Two views: one
  operation after the other on a scripted in-order peer (`WireClient`), and every interleaving of callers,
  cancellation callbacks and peer (`SessionMachine`). The peer follows sections 2.3 to 2.5 of the QEMU
  Machine Protocol Specification, the resynchronisation its section 2.6.
* **Hotplug** as a transaction over helper process, QEMU backend, QEMU device, guest mount and port
  registry, with rollback at every step and helper exits observed arbitrarily late (`HotplugPlan`,
  `Hotplug`, `HotplugRunner`).
* **Suspend and resume**: the coordinator under every interleaving of requesters and servicers
  (`SuspendCoordinator`), and the marker and stream on disk with a crash between any two file operations
  (`SuspendDisk`) and with the saves of one VM interleaved (`SuspendLife`).
* **The Spec overlay**, a lens between manifest document and neutral Spec, for mounts, ports and guest files
  (`MountOverlay`, `PortOverlay`, `FileOverlay`).
* **The balloon controller**, a timed hysteresis machine, with its defaults and validation (`Balloon`).
* **Round trips and refinements**: the line logger against a byte-at-a-time machine (`LineLogger`), indexed
  mount resolution against per-kind lists (`MountResolve`), byte sizes printed and parsed (`ByteSize`).

`MachineInts`, `Sequences`, `Numerals`, `Wrappers` and `Document` hold what these share. `dafny verify dfyconfig.toml`
checks everything.

## How the model reads

What the program does not control is arbitrary: a value chosen with `*`, a script that the caller supplies,
or the schedule of a state machine. A crash is a method that stops early. Integers are unbounded; where the
source computes in 64 bits and the result can leave that range, `Wrap64` says so. Objects with fields
updated in place are classes; interleavings are state machines over values, whose critical sections are the
same functions the class methods are specified by.

## Where the code falls short of the obvious claim

Each of these is stated with the exact condition, or with the input that shows it.

* The guest agent's sync id is a constant, so a leftover answer to another connection's sync is taken for
  this connection's (`QgaSync.SettlesOnOwnAnswerIff`, `QgaSync.LeftoverSyncAnswerMisleads`).
* A leftover cut off behind a sentinel swallows this connection's answer, and the scan never settles, although
  the comment at backend/qemu/internal/qga/qga.go:149-151 says that partial data does no harm
  (`QgaSync.CutLeftoverSwallowsAnswer`).
* A frame limit of the 64-bit maximum makes the reader panic (`FrameReader.FrameReader.Read`).
* A detach that fails after the guest unmounted, or after QEMU dropped the device, leaves a registry entry
  that no later operation can free, and its port with it; every other entry can be freed
  (`HotplugRunner.DetachableIff`, `HotplugRunner.HalfDetachStrands`, `HotplugRunner.Serve`).
* Whoever services the notify channel may leave without serving, when its context ends or the machine exits; a
  waiter that registers after the last has left is never answered
  (`SuspendCoordinator.AllAnsweredIff`, `SuspendCoordinator.LeavingServicerLosesWaiter`).
* A save begun before a resume is committed empties the stream that the old marker calls saved
  (`SuspendDisk.StateDir.PrepareVMStateFile`, `SuspendLife.SafeThroughoutIff`).
* `VM.Suspend` saves without the guard of the suspend handler. Two saves that overlap can leave a saved marker over
  a stream that the other one has emptied (`SuspendLife.OverlappingSavesLose`). Who saves once, and after a resume
  only once it is committed, is safe (`SuspendLife.OrderlyIsCalm`, `SuspendLife.CalmIsSafe`).
* Resume plans are made before the lock is taken; a plan that has gone stale can restore a partial stream
  (`SuspendDisk.StalePlanMeetsPartialStream`, `SuspendLife.Launch`).
* Extra ports land on the first network, ahead of the ports of later ones (`PortOverlay.OrderKeptIff`,
  `PortOverlay.OrderLost`).
* Writing a document's own files back drops a mode of zero and all bits above the permissions
  (`FileOverlay.NormalIff`), and writing its own mounts back recomputes `AutoCreate` and wraps sizes beyond
  64 bits (`MountOverlay.NormalIff`).
* A balloon step whose bytes wrap to zero or less, or whose sum with the size leaves 64 bits, never grows the
  guest (`Balloon.GrowIff`), an overflow in the last step stops it short of the maximum
  (`Balloon.GrowthConverges`), and the default configuration is invalid for the very largest memory size
  (`Balloon.DefaultsValidateIff`).
* Image identifiers collide once their numbers reach the surrogate range (`MountResolve.IdsDistinctIff`).

## Model

| member | source | states |
|---|---|---|
| `FrameReader.FrameReader.constructor` | backend/qemu/internal/qmpwire/session.go:23-28 | any limit is accepted; one that is not positive becomes 16 MiB |
| `FrameReader.FrameReader.Read` | backend/qemu/internal/qmpwire/session.go:36-59 | every byte taken from the source is delivered in order; the limit error, which names the limit, is raised exactly when the max+1 bytes before the position hold no newline; the source is asked for no more than makes one byte too many, and never again after it; the reader panics if and only if its limit is the 64-bit maximum |
| `FrameReader.FrameReader.Account` | backend/qemu/internal/qmpwire/session.go:48-58 | the counting loop never cuts a chunk short: the byte too many can only be its last |
| `FrameReader.OverrunIsLongTail` | backend/qemu/internal/qmpwire/session.go:53-56 | the counter exceeds max exactly when a newline-free run of max+1 bytes ends here |
| `FrameReader.Drain` | backend/qemu/internal/qmpwire/session.go:36-59 | for every source, chunking and buffer sizes the output is a prefix of the source with no overlong line in it, ending with the very byte too many when limited |
| `QgaSync.Reader.ReadDelimited` | backend/qemu/internal/qga/qga.go:173-190 | consumes up to the first delimiter and returns what precedes it; the limit error means limit+1 bytes without one |
| `QgaSync.Reader.ScanLine` | backend/qemu/internal/qga/qga.go:149-166 | one turn of the loop is one round of the bounded scan |
| `QgaSync.Reader.Synchronize` | backend/qemu/internal/qga/qga.go:148-167 | success settles where an unbounded byte-at-a-time scan does; without a failed read the result, its error included, is that of the bounded scan |
| `QgaSync.ScannedSettles` | backend/qemu/internal/qga/qga.go:148-167 | the bounded scan agrees with the unbounded one, in where it settles and in never settling, unless it meets its limit |
| `QgaSync.LimitMeansOverlong` | backend/qemu/internal/qga/qga.go:173-190 | it meets its limit only at a stretch of more than limit bytes without a sentinel or without a newline |
| `QgaSync.SettlesOnOwnAnswerIff` | backend/qemu/internal/qga/qga.go:133-169 | the scan ends behind this connection's answer if and only if no leftover line is another connection's sync answer and the answer's line, with whatever a cut-off leftover puts in front of it, is accepted; with a stale answer it settles too early, otherwise never |
| `QgaSync.CutLeftoverSwallowsAnswer` | backend/qemu/internal/qga/qga.go:149-155 | a leftover cut off behind its sentinel swallows the answer, and the scan never settles |
| `QgaSync.StreamInStepIff` | backend/qemu/internal/qga/qga.go:133-169 | with more behind it, the stream is left exactly at what follows the answer under the same condition |
| `QgaSync.Resynchronise` | backend/qemu/internal/qga/qga.go:133-169 | after a successful synchronisation what is left to read is what the peer sends next, if and only if that condition holds; without a failed read, and within its bound, it succeeds on a stale answer or on its own |
| `QgaSync.EmptyBacklogSettles` | backend/qemu/internal/qga/qga.go:148-167 | with nothing left over the scan settles on its own answer |
| `QgaSync.LeftoverSyncAnswerMisleads` | backend/qemu/internal/qga/qga.go:134-166 | one leftover sync answer is enough to leave the own answer unread, because the id is a constant |
| `WireClient.Conn.ReadResponse` | backend/qemu/internal/qmpclient/qmp.go:313-327 | what is returned is the first message that is no event: a success if it is a return or, to the monitor, an error that describes nothing, a failure with its number if it is any other error; with one reply outstanding it is that one, and without outside faults it is read if it is there |
| `WireClient.Conn.Run` | backend/qemu/internal/qmpclient/qmp.go:302-307 | one command: the answer to this very command decides between success and server failure, and without outside faults it fails at the wire only if it is never answered |
| `WireClient.AnswersMean` | backend/qemu/internal/qmpclient/qmp.go:313-327 | what counts as success and as failure, message by message: to the guest agent every error fails, to the monitor one with a description |
| `WireClient.AnswersExclude` | backend/qemu/internal/qmpclient/qmp.go:313-327 | an answer is taken for success or for failure, never both |
| `WireClient.Conn.WaitDeviceDeleted` | backend/qemu/internal/qmpclient/qmp.go:329-351 | success means the event for this very device was the first message since the call began that ends the wait, and no reply was swallowed; without outside faults the wait ends otherwise only with the data or at another such message |
| `WireClient.Session.Perform` | backend/qemu/internal/qmpclient/qmp.go:124-153 | success means that every command of the operation was answered, in order, and by no error to its client, and that every deletion waited for was announced; a server failure names a command of its own that was answered by one; without outside faults it fails otherwise only by its own choice, or because an answer or an announcement never comes; short of a wire failure everything asked for was read |
| `WireClient.Session.Do` | backend/qemu/internal/qmpwire/session.go:196-256 | success returns exactly the replies to the operation's own commands, none of them an error to its client; a server failure is an error in answer to one of them; the session is broken afterwards if and only if it was before, or the operation failed at the wire, or it failed and was interrupted; a broken session does no input or output; an ended context before sending leaves the session usable |
| `WireClient.Session.RunRaw` | backend/qemu/internal/qmpclient/qmp.go:124-133 | text that is no JSON is never sent; the answer to this one command decides: success for a return or an error without description, failure for any other, and without outside faults nothing else fails it |
| `WireClient.Session.DeviceDelAndWait` | backend/qemu/internal/qmpclient/qmp.go:135-153 | success means that this one command was accepted and this very device announced gone; without outside faults it succeeds when the answer accepts it and the announcement follows; a server failure is the error in answer to it |
| `WireClient.Session.GuestCommand` | backend/qemu/internal/qga/qga.go:345-382 | success if and only if, outside faults apart, this one command is answered by a return; any error in answer to it is the failure |
| `WireClient.Connect` | backend/qemu/internal/qmpclient/qmp.go:272-293 | a completed handshake leaves the stream in step; it completes if and only if, outside faults apart, the capabilities command is answered by no error that says something |
| `WireClient.Synchronise` | backend/qemu/internal/qga/qga.go:133-169 | it completes if and only if, outside faults apart, something that answers a sync arrives; then the stream is in step if and only if no leftover answers an earlier connection's sync; it never completes when the answer is lost in a leftover cut off before it |
| `WireClient.Serve` | backend/qemu/internal/qmpwire/session.go:186-256 | over any sequence of operations on a stream in step no two take the same reply; every successful one takes all of its own, none of them an error to it, and a server failure is an error in answer to one of its own commands; an operation is refused if and only if the session was broken before or an earlier one failed at the wire or interrupted |
| `SessionMachine.StepInv` | backend/qemu/internal/qmpwire/session.go:196-256 | every step of every thread keeps the invariant on mutex, stream, deadline and callbacks |
| `SessionMachine.RunInv` | backend/qemu/internal/qmpwire/session.go:196-256 | the invariant holds in every state of every run |
| `SessionMachine.RepliesStayHome` | backend/qemu/internal/qmpwire/session.go:196-256 | in every interleaving an operation takes only replies to its own commands, all of them if it succeeds |
| `SessionMachine.IdleInStep` | backend/qemu/internal/qmpwire/session.go:235-253 | between operations an unbroken session has consumed exactly one reply per command |
| `SessionMachine.DeadlineIsOwn` | backend/qemu/internal/qmpwire/session.go:211-253 | while an operation runs, the deadline is its own bound or, if and only if its own callback has fired, its own interrupt, and no other operation's callback can still fire |
| `SessionMachine.BrokenIsQuiet` | backend/qemu/internal/qmpwire/session.go:200-204 | once broken, always broken, and nothing is sent or read again |
| `SessionMachine.FailureLatches` | backend/qemu/internal/qmpwire/session.go:226-253 | the latch is closed if and only if some operation past it failed at the wire, or failed and was interrupted |
| `SessionMachine.VerdictIsEarned` | backend/qemu/internal/qmpwire/session.go:196-256 | whatever an operation reports, a step of its own brought it about: success a return of its function, a refusal a session that was broken then, an ended context one that had ended |
| `SessionMachine.EndedSendsNothing` | backend/qemu/internal/qmpwire/session.go:205-209 | an operation whose context ends before it has been let in never sends anything |
| `SessionMachine.StartedIsAwaited` | backend/qemu/internal/qmpwire/session.go:241-248 | once its callback was started, an operation does not get past its latch before the callback is over |
| `SessionMachine.NoDeadlineBetween` | backend/qemu/internal/qmpwire/session.go:211-223 | while clearing it works, no deadline is left for the next operation, whatever interrupts there were |
| `HotplugPlan.BusNameInjective` | backend/qemu/internal/hotplug/hotplug.go:71-73 | different ports have different buses |
| `HotplugPlan.QemuDeviceIdInjective` | backend/qemu/internal/hotplug/hotplug.go:308-308 | different ids have different QEMU devices |
| `HotplugPlan.PlanAcceptedIff` | backend/qemu/internal/hotplug/hotplug.go:213-306 | QEMU accepts every command of a plan, in order, if and only if the kind is known, both names are free and the root port carries no device |
| `HotplugPlan.PlanWires` | backend/qemu/internal/hotplug/hotplug.go:213-306 | the commands of a plan leave, in QEMU's own terms, the device with its driver on its bus over its backend: a share under its tag over the helper's socket, a network card with its address and its forwards, a disk with its serial over its image |
| `HotplugPlan.ReleaseUndoesBackend` | backend/qemu/internal/hotplug/hotplug.go:203-210 | after a partial attach the release is acceptable and restores QEMU exactly, what every backend was created with included |
| `HotplugPlan.UnplugUndoesPlug` | backend/qemu/internal/hotplug/hotplug.go:203-210 | after device_del the same release is acceptable and restores QEMU exactly |
| `Hotplug.Host.Rollback` | backend/qemu/internal/hotplug/qmp_adapter.go:27-31 | exactly the commands that succeeded are released; an ignored failure leaves QEMU as it stands |
| `Hotplug.Host.AttachDevice` | backend/qemu/internal/hotplug/qmp_adapter.go:17-56 | success plugs in backend and device; a failure at any point, cancellation included, leaves QEMU as it was if and only if no release failed; without outside faults it succeeds if and only if the device is pluggable on that bus |
| `Hotplug.Host.DetachDevice` | backend/qemu/internal/hotplug/qmp_adapter.go:58-72 | success removes device and backend; a failure leaves all, or all but the device; without outside faults it succeeds if and only if QEMU has the device and nobody else uses its backend |
| `Hotplug.Runtime.AllocatePort` | backend/qemu/internal/hotplug/runtime.go:38-52 | the preferred port if free, else the lowest free one, and none only when all are taken |
| `Hotplug.Runtime.Register` | backend/qemu/internal/hotplug/runtime.go:55-75 | adds exactly one record; its helper joins the process set and is watched |
| `Hotplug.Runtime.Remove` | backend/qemu/internal/hotplug/runtime.go:78-84 | removes exactly that record and its recorded helper, keeping every recorded helper in the process set |
| `Hotplug.Runtime.ObserverClears` | backend/qemu/internal/hotplug/runtime.go:64-70 | however late it runs, it clears the helper of its own record only, never of a newer one under the same id |
| `Hotplug.Runtime.ObserverRemoves` | backend/qemu/internal/hotplug/runtime.go:71-74 | its last act, outside the mutex, never removes a recorded helper from the process set |
| `HotplugRunner.FullIffAllTaken` | backend/qemu/internal/hotplug/runtime.go:38-52 | with distinct ports in range, all ports are taken if and only if as many devices are registered |
| `HotplugRunner.BusHeldByExactlyOne` | backend/qemu/internal/hotplug/hotplug.go:85-153 | a used bus is held by exactly one registry entry and carries exactly one device |
| `HotplugRunner.DetachableIff` | backend/qemu/internal/hotplug/hotplug.go:122-153 | guest and QEMU accept every step of a detach, in order, if and only if the entry is not stranded: QEMU still has its device and the guest its mount |
| `HotplugRunner.HalfDetachStrands` | backend/qemu/internal/hotplug/hotplug.go:129-138 | an attached entry is not stranded; a detach that stops after the unmount, or after device_del with the release to come, strands it |
| `HotplugRunner.Runner.RollbackHost` | backend/qemu/internal/hotplug/hotplug.go:190-194 | stops the helper, or counts a failed undo and changes nothing |
| `HotplugRunner.Runner.AttachVirtioFSHost` | backend/qemu/internal/hotplug/hotplug.go:155-174 | a new running helper, or nothing changed if and only if no undo failed |
| `HotplugRunner.Runner.AttachGuest` | backend/qemu/internal/hotplug/hotplug.go:176-181 | mounts exactly a virtio-fs device with a target |
| `HotplugRunner.Runner.RollbackQmp` | backend/qemu/internal/hotplug/hotplug.go:113-116 | QEMU is back to what it was if and only if the undo went through |
| `HotplugRunner.Runner.Reserve` | backend/qemu/internal/hotplug/hotplug.go:97-104 | refused if and only if exactly Ports devices are registered |
| `HotplugRunner.Runner.AttachPlain` | backend/qemu/internal/hotplug/hotplug.go:85-120 | all or nothing for devices without a helper |
| `HotplugRunner.Runner.AttachVirtioFS` | backend/qemu/internal/hotplug/hotplug.go:89-119 | all or nothing with a helper to stop on every failure after it |
| `HotplugRunner.Runner.RoomWhileHeld` | backend/qemu/internal/hotplug/hotplug.go:97-105 | while no undo failed, the port that is chosen has a free bus, so there is room if and only if fewer than Ports devices are registered |
| `HotplugRunner.Runner.Attach` | backend/qemu/internal/hotplug/hotplug.go:85-120 | a failed attach leaves the registry as it was, and QEMU, helpers and mounts as they were if and only if no undo command failed; a successful one adds exactly what was asked for, on the preferred or else the lowest free port: the device on that port's bus over a backend created from the device's own settings, the helper that serves its socket, the mount; out of ports if and only if exactly Ports devices are registered; without outside faults it succeeds if and only if it can |
| `HotplugRunner.GainedIsProvided` | backend/qemu/internal/hotplug/hotplug.go:85-120 | what a successful attach adds, in the terms of QEMU, helpers and guest: the device on the bus of its port over a backend created as asked for, a running helper that serves the socket the backend is connected to, and the mount |
| `HotplugRunner.Runner.PlugIn` | backend/qemu/internal/hotplug/hotplug.go:105-117 | QEMU and guest side of an attach: on failure both are as before if and only if no undo failed |
| `HotplugRunner.Runner.Plug` | backend/qemu/internal/hotplug/hotplug.go:97-119 | port, QEMU, guest and registry: the preferred port if free, else the lowest; on failure the registry is untouched |
| `HotplugRunner.Runner.DetachGuest` | backend/qemu/internal/hotplug/hotplug.go:183-188 | unmounts exactly a virtio-fs device with a target |
| `HotplugRunner.Runner.Unplug` | backend/qemu/internal/hotplug/hotplug.go:127-138 | a failed unmount changes nothing; a failed device removal leaves the backend |
| `HotplugRunner.Runner.Release` | backend/qemu/internal/hotplug/hotplug.go:139-152 | the entry and its helper's place in the process set go whether the helper stops or not |
| `HotplugRunner.Runner.Detach` | backend/qemu/internal/hotplug/hotplug.go:122-153 | the entry and its port are freed exactly when QEMU let go of device and backend, with the mount gone and the helper stopped unless that is reported; otherwise registry and helpers are untouched; without outside faults it succeeds if and only if the id is registered and its entry not stranded; a stranded entry it never frees |
| `HotplugRunner.DetachUndoesAttach` | backend/qemu/internal/hotplug/hotplug.go:122-153 | attach and detach of a device that was not mounted there before leave QEMU, helpers and mounts exactly as they were |
| `HotplugRunner.Serve` | backend/qemu/internal/hotplug/hotplug.go:85-153 | over every sequence of attaches, detaches, failures and late helper exits ports stay distinct and in range; every registered device QEMU has sits on the bus of its port over a backend created as it asked; while no undo failed every used bus and every backend QEMU did not boot with belongs to a registry entry; stranded entries are never freed |
| `SuspendCoordinator.SuspendCoordinator.constructor` | backend/qemu/internal/launch/suspend.go:22-24 | nothing requested, in flight or completed |
| `SuspendCoordinator.SuspendCoordinator.Enter` | backend/qemu/internal/launch/suspend.go:59-78 | the critical section of a request: a suspend that is over answers with its result and changes nothing; otherwise the waiter is registered, and the first to ask is told to notify; a registered waiter always leaves a request pending or a save in flight |
| `SuspendCoordinator.SuspendCoordinator.Begin` | backend/qemu/internal/launch/suspend.go:88-93 | the request is in flight |
| `SuspendCoordinator.SuspendCoordinator.Complete` | backend/qemu/internal/launch/suspend.go:96-108 | the outcome is recorded and exactly the registered waiters are released |
| `SuspendCoordinator.InvRun` | backend/qemu/internal/vmm/manager.go:287-309 | the invariant on flags, token, once guard and owed waiters holds after every schedule |
| `SuspendCoordinator.AtMostOnce` | backend/qemu/internal/launch/suspend.go:59-108 | over every interleaving: one save attempt, one notify token, one result per waiter channel at most, and all results the same |
| `SuspendCoordinator.ResultIsTheSaves` | backend/qemu/internal/launch/suspend.go:96-108 | whatever a waiter is sent, a servicer carries or the coordinator answers is what the save came to: some move of the schedule, made inside the once guard, ended the save with that very outcome, and no other move ended one |
| `SuspendCoordinator.SaveIsAsked` | backend/qemu/internal/launch/suspend.go:59-78 | there is no save unless a requester, or a session that suspends itself, has asked |
| `SuspendCoordinator.UnansweredIsOnItsWay` | backend/qemu/internal/launch/suspend.go:59-108 | an unanswered waiter implies a pending token, a committed sender, a servicer about to begin, a save in flight or a delivery under way |
| `SuspendCoordinator.RunEnds` | backend/qemu/internal/vmm/api.go:266-279 | no run makes more than nine moves per thread, leaving included |
| `SuspendCoordinator.SaveNeedsServicer` | backend/qemu/internal/vmm/manager.go:287-309 | a save that was ever begun takes a servicer who has not left |
| `SuspendCoordinator.AllAnsweredIff` | backend/qemu/internal/launch/suspend.go:26-108 | once no thread can take another step, every waiter has been answered exactly once with the one outcome if and only if nobody waits or some servicer has not left |
| `SuspendCoordinator.SessionAnswers` | backend/qemu/internal/vmm/api.go:276-279 | with a session that suspends itself everybody is answered, whoever leaves |
| `SuspendCoordinator.LeavingServicerLosesWaiter` | backend/qemu/internal/vmm/api.go:148-162 | the only servicer leaves, a waiter registers and sends its token, and nobody ever answers |
| `SuspendDisk.NormalizeResumeMode` | backend/qemu/internal/launch/resume.go:11-20 | accepts exactly the empty, no, auto and force modes and makes the empty one no |
| `SuspendDisk.ResolveModes` | backend/qemu/internal/launch/resume.go:24-73 | force succeeds if and only if the disk is resumable; auto agrees with it there and on corrupt or mismatched markers, and boots fresh otherwise |
| `SuspendDisk.ResumeErrors` | backend/qemu/internal/launch/resume.go:29-72 | which error a forced resume reports for which disk, and on which of them an automatic one boots afresh |
| `SuspendDisk.ResolvedStreamIsComplete` | backend/qemu/internal/launch/resume.go:24-73 | what is resolved is the marker's state, and its stream is complete if and only if the disk is safe |
| `SuspendDisk.WaitForMigration` | backend/qemu/internal/qmpclient/migration.go:66-97 | of the polls alone: completed if and only if the first that ends the wait says "completed", ended with s if and only if it says s, one of "failed" and "cancelled", a query error if and only if that query failed, timed out if and only if only the context ended it, with the last status that said anything or "unknown" |
| `SuspendDisk.AllocateCid` | backend/qemu/internal/launch/cid.go:19-39 | the smallest free id in range, and an error if and only if there is none before the first failed probe; no free id if and only if all are taken |
| `SuspendDisk.AcquireCid` | backend/qemu/internal/launch/cid.go:9-17 | a resume gets the saved id if and only if it is in range; every id handed out is in range |
| `SuspendDisk.StateDir.PrepareVMStateFile` | backend/qemu/internal/launch/state.go:26-42 | removes the stream, then creates an empty one, and fails only by an outside fault; the disk stays safe if and only if no saved marker speaks of that stream |
| `SuspendDisk.StateDir.SaveToFile` | backend/qemu/internal/qmpclient/migration.go:35-53 | succeeds if and only if the machine is paused, or runs and can be stopped, the migration is taken, and the first poll that ends the wait says "completed"; then the stream is complete |
| `SuspendDisk.RestoreFromFile` | backend/qemu/internal/qmpclient/migration.go:56-64 | succeeds if and only if the incoming migration is taken, it is seen to complete, and the machine continues |
| `SuspendDisk.StateDir.WriteSuspendState` | backend/qemu/internal/launch/state.go:48-70 | success, if and only if nothing outside fails, leaves the marker, truncated first; a crash leaves the old one, an unreadable one or the new one |
| `SuspendDisk.StateDir.Save` | backend/qemu/internal/vmm/manager.go:311-340 | with no other save between its steps: succeeds if and only if no file operation fails and the migration is seen to complete; then there is a complete stream under a marker that says saved, this version, this context id and this path, which the next resume finds; stopped at any point it leaves a safe disk unless it emptied the stream of a saved state |
| `SuspendDisk.StateDir.RemoveSuspendState` | backend/qemu/internal/launch/state.go:97-103 | the marker is gone, or nothing changed |
| `SuspendDisk.StateDir.RemoveRestoredSuspendState` | backend/qemu/internal/launch/state.go:105-110 | stream before marker: in no state on the way is the stream there without its marker, and stopped half-way nothing is left to resume |
| `SuspendDisk.StateDir.AcquireRuntimeLock` | backend/qemu/internal/launch/runtime_lock.go:29-58 | a fresh boot drops the marker, a resume changes nothing; outside faults apart it succeeds if and only if the stream to resume is there |
| `SuspendLife.StepSafeIff` | backend/qemu/internal/vmm/manager.go:311-340 | from a safe disk, a step of a save or of the commit leads to a safe disk if and only if it neither empties the stream of a saved state nor writes a marker over a partial stream |
| `SuspendLife.SafeThroughoutIff` | backend/qemu/internal/vmm/api.go:250-257 | however the saves of a VM and its commit interleave, a crash is harmless at every point of the run if and only if no step of it is one of those two |
| `SuspendLife.MarkedPartialIsReplaced` | backend/qemu/internal/launch/state.go:26-42 | a marker written over a partial stream belongs to a save whose own file another save has replaced since |
| `SuspendLife.CalmIsSafe` | backend/qemu/internal/vmm/api.go:55-62 | if saves begin one at a time, none after a marker was written, and after a resume only once it is committed, no crash does harm |
| `SuspendLife.OrderlyIsCalm` | backend/qemu/internal/vmm/api.go:213-220 | a schedule that begins one save at most, and after a resume only behind the commit, is such a run |
| `SuspendLife.OverlappingSavesLose` | backend/qemu/internal/vmm/api.go:250-257 | two overlapping saves on a disk without a marker: in the end the marker says saved over a partial stream, and a forced resume takes it |
| `SuspendLife.UndisturbedSave` | backend/qemu/internal/vmm/manager.go:311-340 | the steps of one save by itself, on any disk, leave what `SuspendDisk.StateDir.Save` promises |
| `SuspendLife.UnfinishedSaves` | backend/qemu/internal/launch/filesystem.go:93-119 | a file that could not be handed over is removed again; a migration that was given up may still complete, without a marker |
| `SuspendLife.UndisturbedCommit` | backend/qemu/internal/launch/state.go:105-110 | a commit by itself, on any disk, removes the resumed stream and the marker and nothing else |
| `SuspendLife.MarkerIsOwn` | backend/qemu/internal/vmm/manager.go:326-334 | over every run of a life the only saved marker it can add is its own, under its own context id |
| `SuspendLife.OtherStreamsKept` | backend/qemu/internal/launch/state.go:26-42 | over every run of a life streams other than its own and the one it resumed stay as they are |
| `SuspendLife.Live` | backend/qemu/internal/vmm/api.go:213-257 | the disk after a life is that of its steps, and some state on the way was unsafe if and only if one before was or one of them was a hazard |
| `SuspendLife.Launch` | backend/qemu/internal/vmm/startup.go:39-93 | a launch is refused the lock if and only if a file operation fails or the stream to resume is missing; a resume runs under the saved id or not at all, a fresh boot under the first free one; it reads a partial stream if and only if the planned one is partial at the time of the lock; the disk it leaves is that of its life, on a fresh boot without the old marker, and unchanged if the restore fails |
| `SuspendDisk.StalePlanMeetsPartialStream` | backend/qemu/internal/launch/runtime_lock.go:44-52 | a resume state resolved before the lock may name a partial stream by the time of the lock, on a safe disk |
| `SuspendLife.Launches` | backend/qemu/internal/launch/resume.go:29-72 | over every sequence of plans and launches, with saves that interleave in any way and crashes anywhere: unless some step was a hazard, a saved marker's stream is absent or complete, and no launch with a current plan restores a partial one; launches that begin one save at most, and after a resume only behind the commit, have no hazard |
| `SuspendLife.UncommittedResumes` | backend/qemu/internal/vmm/api.go:213-220 | any number of resumes that end before their commit leave the disk as it was and resumable, and each runs under the saved id, which is in range |
| `MountOverlay.OverlaySpecMounts` | backend/qemu/spec.go:174-216 | succeeds if and only if every share has a tag and every disk a path and an aligned size; the result is the overlaid list, the error that of the first entry of that list that has one |
| `MountOverlay.AppendRest` | backend/qemu/spec.go:201-215 | shares, then disks, without an entry of their own go to the end, or the first unacceptable one is reported |
| `MountOverlay.OverlaidUnique` | backend/qemu/spec.go:174-216 | kinds in place, shares, disks and 9p entries determine the overlaid list |
| `MountOverlay.PutGet` | manifest/manifest.go:82-96 | viewing the result gives back the given shares, and the given disks up to the guest path |
| `MountOverlay.EntriesAsGiven` | backend/qemu/spec.go:218-247 | field by field, what the k-th share and the k-th disk are written as, over an entry that was there or a new one |
| `MountOverlay.NewEntriesLast` | backend/qemu/spec.go:201-215 | with a share and a disk for every entry, entries keep their places, and new ones come last, shares before disks |
| `MountOverlay.RefusedMeans` | backend/qemu/spec.go:218-247 | the error names what is wrong with some entry; a missing path comes before a bad size |
| `MountOverlay.SettingsSurvive` | backend/qemu/spec.go:218-247 | the k-th share keeps the k-th mount's socket settings when the socket is set; the k-th disk keeps the k-th image's other settings |
| `MountOverlay.OverlayIdempotent` | backend/qemu/spec.go:174-216 | overlaying the same shares and disks twice equals once |
| `MountOverlay.OwnViewAcceptable` | backend/qemu/spec.go:218-247 | a document's own view is accepted if and only if tags and paths are non-empty: sizes that wrap stay aligned |
| `MountOverlay.GetPut` | backend/qemu/spec.go:174-247 | overlaying a document's own view normalises each entry in place and does nothing else |
| `MountOverlay.NormalIff` | backend/qemu/spec.go:218-247 | an entry comes back unchanged if and only if its type and socket are set, or its type is set, its size fits 64-bit bytes and AutoCreate says size != 0 |
| `PortOverlay.Refill` | backend/qemu/spec.go:252-262 | host forwards are replaced in place by the next ports and dropped when there are none; others stay |
| `PortOverlay.AppendExtra` | backend/qemu/spec.go:269-271 | the ports left over, in order, behind the forwards of the first network |
| `PortOverlay.OverlaySpecPorts` | backend/qemu/spec.go:249-274 | fails if and only if there are ports and no network; every network becomes its overlaid form |
| `PortOverlay.GuestForwardsKept` | backend/qemu/spec.go:253-257 | every network keeps its other fields and its forwards from the guest, in order |
| `PortOverlay.PutGet` | manifest/manifest.go:97-108 | the exact sequence of ports shown after an overlay, and conservation of their multiset up to the protocol default |
| `PortOverlay.ForwardsAccounted` | backend/qemu/spec.go:249-282 | every forward of an updated network is one of its own from the guest, or carries a given port, over tcp unless the port says otherwise |
| `PortOverlay.PlacesKept` | backend/qemu/spec.go:252-262 | with a port for every host forward, all forwards keep their places |
| `PortOverlay.OrderKeptIff` | backend/qemu/spec.go:265-272 | the order is kept if and only if the extra ports commute with those of later networks, in particular with one network or no extra port |
| `PortOverlay.OrderLost` | backend/qemu/spec.go:269-271 | two networks with a host forward each and three ports: the order changes |
| `PortOverlay.GetPut` | backend/qemu/spec.go:249-282 | overlaying a document's own view fills in tcp and host and changes nothing else |
| `PortOverlay.NormalIff` | backend/qemu/spec.go:276-282 | exactly the forwards with an origin, and from the host with a protocol, come back unchanged |
| `FileOverlay.ModeRoundTrip` | backend/qemu/spec.go:327-330 | a printed mode parses back to its permission bits |
| `FileOverlay.ModeDigits` | backend/qemu/spec.go:327-330 | a mode is printed as exactly three octal digits, those of its permission bits |
| `FileOverlay.ModeBound` | manifest/manifest.go:117-121 | an octal numeral is read as its value unless that takes more than 32 bits |
| `FileOverlay.ViewFiles` | manifest/manifest.go:109-125 | the files with text in order, or an error if and only if some mode is no 32-bit octal number |
| `FileOverlay.OverlaySpecFiles` | backend/qemu/spec.go:284-309 | succeeds if and only if every file has a path and readable content; the result is the overlaid list, the error that of the first file that lacks one |
| `FileOverlay.AppendFresh` | backend/qemu/spec.go:301-308 | files without an entry of their own go to the end, or the error of the first unacceptable one is returned |
| `FileOverlay.OverlaidTexts` | backend/qemu/spec.go:284-332 | entries without text stay; the texts are the files, one by one, over the entries that were there |
| `FileOverlay.FilesAsGiven` | backend/qemu/spec.go:311-332 | field by field, what the k-th file is written as, over an entry that was there or a new one |
| `FileOverlay.PlacesKept` | backend/qemu/spec.go:284-309 | with a file for every text, all entries keep their places and new ones come last |
| `FileOverlay.PutGet` | manifest/manifest.go:109-125 | viewing the result succeeds and gives back the files with the permission bits of their modes |
| `FileOverlay.GetPut` | backend/qemu/spec.go:284-332 | overlaying a document's own view keeps every entry in place up to normalisation, and is accepted if and only if all guest paths are set |
| `FileOverlay.NormalIff` | backend/qemu/spec.go:323-331 | exactly which entries come back unchanged, and that the mode shown survives if and only if it is below 01000 |
| `Balloon.Device.ApplyDefaults` | internal/manifest/balloon.go:36-71 | every field that is set survives; every unset one gets its default, spelled out |
| `Balloon.DefaultsValidateIff` | internal/manifest/balloon.go:36-95 | the synthesised configuration validates if and only if the memory is at least 1 and below the 64-bit maximum |
| `Balloon.MinimumValidatesIff` | internal/manifest/balloon.go:114-141 | a configured minimum alone validates if and only if it lies within the memory |
| `Balloon.NoProblemIff` | internal/manifest/balloon.go:114-141 | nothing is wrong with a configuration if and only if its limits are in order within the memory, its thresholds in order, and its step and times positive |
| `Balloon.Controller.Evaluate` | backend/qemu/internal/balloon/controller.go:255-326 | of sample, size and clock alone: stale if and only if there is an update older than two poll intervals; unavailable if and only if there is otherwise no usable reading and the controller is at least that old; both leave the timer alone; with a reading, which sizes it asks for at which threshold, and the timer |
| `Balloon.Controller.Tick` | backend/qemu/internal/balloon/controller.go:113-133 | a cycle fails if and only if its statistics cannot be read, are stale, or are missing after the grace period, or the size it asks for is refused; a size QEMU takes becomes the goal, and the next cycle reads what QEMU reports then |
| `Balloon.Controller.Run` | backend/qemu/internal/balloon/controller.go:90-111 | gives up at the end of the first five consecutive failing cycles and never otherwise; on cycles that are all blind after exactly five, and never while among any five in a row one sees and gets the size it asks for |
| `Balloon.FailsIffBlind` | backend/qemu/internal/balloon/controller.go:255-283 | in every run a cycle fails if and only if it is blind, by its sample and the clock, or is refused the size it asks for |
| `Balloon.StopsBySamples` | backend/qemu/internal/balloon/controller.go:90-111 | where a run stops, by its samples alone |
| `Balloon.GrowIff` | backend/qemu/internal/balloon/controller.go:288-298 | when a shortage grows the guest, and by how much at most |
| `Balloon.ReclaimIff` | backend/qemu/internal/balloon/controller.go:313-322 | when a surplus shrinks it, and by how much at most |
| `Balloon.StaysWithinLimits` | backend/qemu/internal/balloon/controller.go:288-326 | in every run of a validated configuration, whatever wraps around and however far the balloon lags behind its goals, a size within the limits stays there and no cycle moves it by more than a step |
| `Balloon.ReclaimWaits` | backend/qemu/internal/balloon/controller.go:264-313 | a reclaim comes a full hold-off after the start of a surplus that no sample compared with the thresholds interrupted, hence after every earlier resize; stale samples interrupt nothing; the sizes reported may be any |
| `Balloon.GrowthConverges` | backend/qemu/internal/balloon/controller.go:288-298 | under sustained shortage with honoured sizes the maximum is reached after exactly ceil((Max-actual)/Step) cycles if and only if actual plus that many steps fits 64 bits; each of those cycles resizes, the last unless it overflows, and then nothing does |
| `Balloon.OversizedStepNeverGrows` | backend/qemu/internal/balloon/controller.go:290-296 | a step whose bytes wrap to zero or less, or whose sum with the size leaves 64 bits, never grows anything |
| `Balloon.ShrinkageUnderSurplus` | backend/qemu/internal/balloon/controller.go:300-322 | under sustained surplus with honoured sizes the size is one step lower for every time the hold-off clock ran out, down to the minimum |
| `Balloon.ShrinkageConverges` | backend/qemu/internal/balloon/controller.go:300-322 | with regular cycles and a hold-off of w periods the minimum is reached after exactly ceil((actual-Min)/Step) * (w+1) cycles |
| `LineLogger.LineLogger.Append` | internal/executor/executor.go:161-177 | appending a newline-free stretch does what the byte machine does; the refill branch is unreachable |
| `LineLogger.LineLogger.Write` | internal/executor/executor.go:146-159 | a write does what the byte machine does on its bytes and reports all of them |
| `LineLogger.LineLogger.Flush` | internal/executor/executor.go:185-192 | what is buffered becomes one more record, without one carriage return at its end; nothing buffered, no record |
| `LineLogger.LineLogger.Close` | internal/executor/executor.go:179-183 | emits what is left |
| `LineLogger.MachineLogs` | internal/executor/executor.go:146-192 | the byte machine's records are the input cut into lines and the lines into pieces |
| `LineLogger.LogIsCut` | internal/executor/executor.go:146-192 | every record is a stretch of the output within one line and no longer than 32768 bytes, less a carriage return at its end; in order, with only newlines between two of them, and none only after a full one |
| `LineLogger.LogChunks` | internal/executor/executor.go:146-192 | for every split into writes the records are those of the concatenation, each within maxLogLine and together a cut of it |
| `MountResolve.ResolveQEMUMounts` | internal/manifest/resolve_manifest.go:386-464 | every mount becomes, field by field, the device it asks for, numbered by the mounts of its kind before it |
| `MountResolve.ResolveVirtioFSMounts` | internal/manifest/resolve_manifest.go:477-483 | the virtio-fs list, field by field, numbered by position |
| `MountResolve.ResolveNinePMounts` | internal/manifest/resolve_manifest.go:485-491 | the 9p list, field by field, "mapped" by default, numbered by position |
| `MountResolve.ResolveBlocks` | internal/manifest/resolve_manifest.go:378-384 | the block list, field by field, with its defaults, lettered by position |
| `MountResolve.FilteredDevicesAreTheLists` | internal/manifest/resolve_manifest.go:378-464 | filtering the ordered devices by kind gives the per-kind lists, identifiers included |
| `MountResolve.ResolveAll` | internal/manifest/resolve_manifest.go:378-491 | the three per-kind loops agree with the one loop over all mounts |
| `MountResolve.IdsDistinctIff` | internal/manifest/resolve_manifest.go:424-464 | generated identifiers are pairwise distinct if and only if the image numbers stay out of the surrogate range |
| `ByteSize.OverflowTest` | units/units.go:93-95 | the two comparisons hold exactly when the product leaves 64 bits |
| `ByteSize.ParseExact` | units/units.go:74-99 | what parses is exactly an integer and a suffix whose product fits, and the value is that product, never a wrapped one |
| `ByteSize.SuffixesMean` | units/units.go:74-99 | what each of the five suffixes stands for: a count is refused if and only if its product leaves 64 bits |
| `ByteSize.ShowPicksLargestUnit` | units/units.go:54-70 | the printed unit is the largest that divides the size |
| `ByteSize.RoundTrip` | units/units.go:54-99 | parsing what is printed gives back every 64-bit size |
| `ByteSize.ShowInjective` | units/units.go:54-70 | different sizes print differently |

## Left out

- Sockets, deadlines as clock times, JSON and the go-qemu and govmm libraries: messages are values, and a read that times out, is torn or is interrupted is a failed read.
- QgaSync.Reader.Synchronize: JSON decoding of the answer is a predicate on the line.
- WireClient.Session.DeviceDelAndWait: no promise of success when the event comes before the reply, because the source discards events until then.
- Hotplug assumes that a command which reports an error had no effect, that a helper stops or stays, that the guest refuses to unmount what is not mounted, that no two devices share a mount target, and that helpers do not exit on their own while an attach or detach holds the registry; a helper's program, arguments and environment other than its socket, and removing the socket file, are left out.
- SuspendCoordinator.AtMostOnce: speaks of saves through the suspend handler; VM.Suspend bypasses the coordinator and its once guard (backend/qemu/internal/vmm/api.go:250-257), and SuspendLife lets such saves interleave in any way.
- SuspendCoordinator.AllAnsweredIff: a caller that stops waiting when its context ends is not modelled separately: whether its channel receives a result does not depend on it.
- SuspendDisk and SuspendLife: the pid file, file modes and directory creation only as possible failures; the marker's host name, socket path and timestamp are left out; the write-back of guest files before a save is left out; QEMU ends with its launch, and nobody else writes to the state directory.
- Balloon times are unbounded integers: duration arithmetic is exact except for twice the poll interval; finding the device's QOM path, choosing between the two memory statistics, and notifications are left out.
- FileOverlay: a content reader is a value, so its being used up by the first read is not captured.
- MountOverlay, PortOverlay and FileOverlay leave out the rest of the Spec (CPUs, memory, kernel, accelerator): plain field copies.
- QEMU argument building, volume creation, the start sequence as a whole, process signals and groups, the control RPC server and client, SSH, templates, manifest decoding and schema, lifecycle state order, CLI and logging: straight-line effects or library behaviour.
