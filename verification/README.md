# A verified model of the virtio-mem memory controller

A Windows guest decides how much memory it wants and keeps one durable request.
A Linux host admits that request, records an intent, drives a virtio-mem device
through commands that may fail or be lost, and publishes a result. Several VMs
share one pool of bytes. This project models both sides in Dafny and proves what
every run keeps, with crashes between any two effects.

`dafny verify dfyconfig.toml` checks everything.

## How it is built

| part | files | form |
|---|---|---|
| Host protocol: journal, durable control state, machine of atomic moves | `Requests.dfy`, `Checkpoint.dfy`, `HostProtocol.dfy` | values and a state machine |
| Host controller of one VM | `Grants.dfy`, `HostController.dfy` | a class whose every effect is a move of the machine |
| Pool, what a round keeps, daemon round | `Pool.dfy`, `RoundAccounts.dfy`, `HostRounds.dfy` | loops over an array; a class over all controllers |
| Guest estimator and requester | `Estimation.dfy`, `GuestRequests.dfy` | classes over pure arithmetic |
| Guest and host together | `Handshake.dfy`, `GuestWorkers.dfy` | a state machine that contains the host's, and the worker class that takes its moves |
| Device commands, widening | `ResizeSink.dfy`, `Device.dfy` | a class with failing commands |
| Service stop and status | `StopSignals.dfy`, `ServiceHosts.dfy` | interleaving machines |
| Dates, base64, sizes | `CivilDate.dfy`, `Base64.dfy`, `ByteSize.dfy`, `Text.dfy`, `Arithmetic.dfy`, `Wrappers.dfy` | functions and lemmas |

How the pieces hang together:

* `HostProtocol` is the reference. A world holds the checkpoint file, the running
  daemon if there is one, and the device. Moves are reads, saves, commands, crashes,
  restarts, outside changes of the device and an applied `clear-latch`. A save may
  land, land and then fail, or be lost; a command may succeed, be rejected, or be
  unknown, having run or not. The main host theorems are about all runs of this
  machine.
* `HostController.VmController` is the source's object. It owns a ghost log that is always a run of
  the machine, so each call inherits the theorems, and its contracts add what the
  machine does not say: what is charged to the pool, when a request is ready, what a
  round may rely on.
* `RoundAccounts` says what a round keeps, as values: the memory the pool must count and the
  growth in the commands that were really sent, before and after. `HostRounds` proves it of the
  daemon. What raises a charge without a resize is counted, not excluded: bytes from outside
  and bytes of the daemon's own unrestored widenings are kept apart in each VM's `drift`.
* What has to happen is said apart from the code that does it: `Due` and `HoldsBack` for the
  guest's next request, `IsLeast` for its target, `DueNow` and `IntentHandled` for a command under
  way, `Apportioned` for the pool, `Acted` for a ready request at its turn. A round's contract
  (`Done`) joins them over all VMs, with what was heard, shared and spent as ghost results.
* `Handshake` embeds the host machine and adds the guest's file, its mailbox and its
  process. `GuestWorkers.GuestWorker` follows the worker's order of effects and extends a
  run of it, in which the host moves at will between any two of them.
* `Estimation` relates the bucketed history to the full record of samples through a
  ghost cover: which samples each entry stands for.

Findings about the code, each with the exact condition under which it happens:

* An unreadable VM is held at the charge of its last read. That can overcommit a pool
  exactly if its open intent asks for more than that charge
  (`UnreadVmOvercommitsExactlyIfUncounted`), which every growth does from its command to
  the next read (`GrowthIsUncountedUntilRead`). The pool theorem asks that no VM is
  unreadable in that state, and nothing more.
* A widening that is not restored raises what the VM is charged, exactly if its answer is
  unknown, it ran, and the device was not asked for in full
  (`WideningRaisesChargeExactlyIfUnrestored`); every device not plugged in full can get there
  without anybody else touching it (`UnrestoredWideningIsCharged`), so the charges can exceed a
  pool they fitted. The pool theorems count those bytes.
* A shrink short of its goal is held exactly if its target is at the floor or the next,
  possibly doubled, step is larger than the target
  (`ExtensionStopsExactlyAtFloorOrOversizedStep`). A removal of 60 of 64 MiB gets into the
  second case and skips a poll (`DoubledStepMaySkipAPoll`).
* The journal compares a request with its predecessor only. After a resolved request an
  identity, used before or not, is newly admitted exactly if it is of another session or of a
  later number and the clock leaves an issue time
  (`IdentityIsAdmittedExactlyByItsPredecessor`); so it can recur once another session came
  between (`IdentityMayRecur`). The at-most-once theorem is about whole requests, which issue
  times keep apart.
* The host refuses the first request of a guest process for a reused identity or the
  watermark exactly if its session is that of the journal's request
  (`FirstRequestIsRefusedExactlyUnderTheSameSession`, with `ReusedSessionIsRefused` as an
  instance). That no session is ever used twice, as the machine's start move asks, is more
  than this needs.
* The base64 decoder accepts texts whose leftover bits are not zero
  (`DecodingIsNotInjective`), and exactly those do not re-encode to themselves.

## Model

| member | source | states |
|---|---|---|
| Device.MaximumTargetIsGreatest | crates/virtio-mem-core/src/virtio_mem.rs:14-77 | the maximum target is itself acceptable, and no acceptable target exceeds it |
| Requests.NewExactlyWhenAdmissible | crates/virtio-mem-core/src/memory_request.rs:310-352 | an admission is new if and only if the request is valid, belongs here, follows a resolved predecessor in time and sequence, and is fresh; then the journal holds it without a result |
| Requests.AdmissibleExactly | crates/virtio-mem-core/src/memory_request.rs:68-130 | a request is admissible if and only if it is well formed, within its lifetime, of this VM and service, and its predecessor is resolved, of the same VM and service, issued earlier and, in the same session, numbered lower |
| Requests.RecordedExactly | crates/virtio-mem-core/src/memory_request.rs:179-215 | a result is recorded if and only if it is one of the admitted request, its outcome fits its movement, it repeats a terminal result if there is one, and is not older |
| Requests.IdentityExactly | crates/virtio-mem-core/src/memory_request.rs:33-40 | an identity is at most 128 printable ASCII characters, not all of them blank |
| Requests.IssueTimesIncrease | crates/virtio-mem-core/src/memory_request.rs:337-347 | over any series of admissions, every later one was issued strictly later |
| Requests.IdentityRecursOnlyAcrossSessions | crates/virtio-mem-core/src/memory_request.rs:323-347 | within one session sequence numbers of successive admissions strictly increase |
| Requests.IdentityIsAdmittedExactlyByItsPredecessor | crates/virtio-mem-core/src/memory_request.rs:323-347 | after a resolved request, some request under a given identity is newly admitted if and only if the identity is of another session or a later number, and the clock leaves an issue time after the predecessor's |
| Requests.IdentityMayRecur | crates/virtio-mem-core/src/memory_request.rs:323-347 | three admissions in a row of which the third reuses the identity of the first under another session in between |
| Requests.TerminalResultStays | crates/virtio-mem-core/src/memory_request.rs:356-374 | recording over a terminal result either fails or changes nothing |
| Checkpoint.ClearLatchRecovers | host/src/checkpoint.rs:315-375 | on a converged device a latched state can be cleared if and only if the clock has passed its uncertain result; what is left is durable, without latch or intent, and an unresolved request has got exactly the movement since its command |
| HostProtocol.MoveKeepsInv | host/src/runtime.rs:356-1215 | every move of daemon, device, crash, restart or operator keeps the durable invariant, the agreement of memory and file, the order of admissions, write-ahead and the accounting of movement |
| HostProtocol.RunKeepsInv | host/src/runtime.rs:244-320 | every world of every run satisfies that invariant |
| HostProtocol.EverySavedStateIsDurable | host/src/runtime.rs:567-612 | every state ever saved has an intent exactly while its request is unresolved, Uncertain only under the latch, and a result for every latched request; a running daemon's memory is what the file holds |
| HostProtocol.ResolvedExactly | host/src/runtime.rs:567-590 | resolving a converged intent fails if and only if the clock is behind the journal; otherwise the intent is gone and the request has the movement since its command, explained exactly if the command was settled |
| HostProtocol.EachRequestIsResizedAtMostOnce | host/src/runtime.rs:1001-1081 | in every run, with replays, crashes and restarts anywhere, two resize commands are never for the same request |
| HostProtocol.CommandsAreWrittenAhead | host/src/runtime.rs:1023-1048 | every resize or retarget, rejected or not, is sent unlatched and to the target that the file's intent already holds |
| HostProtocol.LatchStopsActuation | host/src/runtime.rs:475-492 | from a latched checkpoint on, no command is sent in this or any restarted daemon until the operator clears the latch |
| HostProtocol.TerminalResultIsFinal | crates/virtio-mem-core/src/memory_request.rs:356-374 | in every run a terminal result never changes while the journal holds its request |
| HostProtocol.TerminalOrSuperseded | host/src/checkpoint.rs:342-375 | a terminal journal stays as it is or gives way to a request issued later |
| HostProtocol.ReportsWereObserved | host/src/runtime.rs:559-612 | every device state behind a reported result was the device's own state earlier in the run |
| HostProtocol.MovementIsConserved | host/src/runtime.rs:831-875 | through extensions, settling, crashes and restarts, whatever is reported of a request is the movement from the allocation at which its resize was sent to a converged allocation the device had after that, capped at the bytes asked for, and Completed exactly if all of them moved |
| HostProtocol.ReportsMeasureTheDevice | host/src/checkpoint.rs:174-202 | every reported movement, sent or not known to be, lies between two converged allocations the device really had, the second later than the first |
| HostProtocol.JournalledMovementIsReported | host/src/runtime.rs:567-590 | every Completed or Partial result in the journal is such a report |
| HostProtocol.ExtensionsAreBounded | host/src/runtime.rs:719-824 | the successful extensions of one operation number at most (starting target - floor) / block |
| Grants.AddGrantIsLargest | host/src/runtime.rs:909-953 | an addition's grant is the largest number of whole blocks within the request, the guest maximum, the device, the pool ceiling and the host reserve with its margin |
| Grants.RemoveGrantIsLargest | host/src/runtime.rs:955-961 | a removal's grant is the largest number of whole blocks that keeps the guest minimum |
| Grants.GrantIsLargest | host/src/runtime.rs:909-961 | something is granted if and only if one block may move, and then it is the most whole blocks that may |
| Grants.FloorIsLeast | host/src/runtime.rs:725-730 | the floor of a removal is the least whole number of blocks that keeps the guest minimum |
| Grants.GoalIsExact | host/src/runtime.rs:731-756 | a shrink is at its goal if and only if it is at the floor or one block more would be more than was asked for |
| Grants.StepIsExact | host/src/runtime.rs:757-766 | the step is one block, or, exactly after an extension of the same operation that was released in full, twice the last one, up to 256 MiB and never past the goal |
| Grants.LoweringIsExact | host/src/runtime.rs:757-788 | the target is lowered by exactly the step or to the floor |
| Grants.ExtensionIsBounded | host/src/runtime.rs:719-790 | an extension lowers the target by at least one and only whole blocks, not below the aligned floor and by no more than the distance to the goal |
| Grants.ExtensionStopsExactlyAtFloorOrOversizedStep | host/src/runtime.rs:757-788 | whatever step came before, a shrink short of its goal is held if and only if its target is at the floor or the next step exceeds the target; without an earlier step only the floor holds it |
| Grants.DoubledStepMaySkipAPoll | host/src/runtime.rs:757-788 | a removal of 60 of 64 MiB, every step of it the one granted or planned, whose doubled step exceeds the target left and is taken for the floor, which is one block further down |
| HostController.VmController.constructor | host/src/runtime.rs:157-200 | a new controller is quiet over an empty checkpoint, has read nothing and remembers nothing |
| HostController.VmController.Restart | host/src/checkpoint.rs:97-130 | a restart takes the control state from the file, forgets everything process-local and sends nothing |
| HostController.VmController.StartOver | host/src/checkpoint.rs:97-130 | whatever state the daemon is in, a new one knows nothing of the VM yet, and what the pool must count and the growth sent are as before |
| HostController.VmController.Save | host/src/checkpoint.rs:413-445 | a save that succeeds leaves file and memory equal; one that fails ends the daemon with the old or the new file in place, and the record ends in it |
| HostController.VmController.SendCommand | host/src/resize_sink.rs:37-73 | one command is sent for the durable intent's target; unless rejected it ran, or may have run, on exactly the device that was read |
| HostController.VmController.SaveAndSend | host/src/runtime.rs:1001-1048 | the intent is in the file before its command is sent |
| HostController.VmController.SendWiden | host/src/resize_sink.rs:75-125 | a widening changes no charge but by the bytes of an unknown, unrestored one, which are counted exactly and apart from outside growth |
| HostController.VmController.LatchActuation | host/src/runtime.rs:1141-1164 | after a successful latch the state is latched with its intent and request kept, and exactly a request without a result has got an uncertain one; the daemon ends only by a failed save or a clock behind the journal |
| HostController.VmController.FinishIntent | host/src/runtime.rs:567-590 | a converged intent is dropped and its request gets the movement result, or the daemon ends |
| HostController.VmController.ResolveIntent | host/src/runtime.rs:567-612 | exactly an intent the device has converged to is resolved, with its movement, and exactly one it contradicts is latched; a widening is then due exactly if it was or a settled growth plugged nothing |
| HostController.VmController.SettleShort | host/src/runtime.rs:831-875 | the target becomes the current allocation, durably first, under a new operation; the intent keeps the starting allocation of the original command; it latches unless the command is known to have run |
| HostController.VmController.LowerTarget | host/src/runtime.rs:788-824 | a lowered target is durable before its command; a rejected command restores the previous target; an unknown one latches |
| HostController.VmController.ExtendShrink | host/src/runtime.rs:719-824 | exactly the plan for a stalled removal is carried out, and what is remembered of it is exactly the step taken |
| HostController.VmController.ObservePending | host/src/runtime.rs:614-717 | on a device that has not converged exactly what is due is done: a foreign divergence, a latched state or an observing daemon sends and changes nothing, a watched growth that stalls and a removal under Low are settled, a watched removal that stalls is extended, a settlement past its deadline latches and, alone, stops the VM |
| HostController.VmController.ObserveShrink | host/src/runtime.rs:640-700 | a removal is settled if the guest is low, extended as planned if it is watched and has not moved for a poll, and otherwise left alone |
| HostController.VmController.WidenUsableRegion | host/src/runtime.rs:1189-1215 | widening is attempted once, never when latched, observing only or stopping, and exactly an unknown outcome latches and stops |
| HostController.VmController.ReadLive | host/src/runtime.rs:356-398 | reading charges the VM with what it holds and is about to hold; not reading changes no charge |
| HostController.VmController.HoldUnread | host/src/runtime.rs:359-378 | an unreadable VM keeps its last charge, and is latched exactly if it was or had an open intent |
| HostController.VmController.Observe | host/src/runtime.rs:356-499 | phase one handles the intent as it must: resolved if the device has converged to it, latched if contradicted or unreadable, otherwise what is due is done, and a due widening is sent once; it raises what the pool must count by no more than was raised from outside or by an unrestored widening, and sends no growth; it ends the daemon only by a failed save or a clock behind the journal |
| HostController.VmController.ConsiderRequest | host/src/runtime.rs:440-499 | a request becomes ready if and only if it is newly admissible on a live, unlatched device; a replay never does |
| HostController.VmController.ObserveStopped | host/src/runtime.rs:509-527 | a stopped VM sends nothing and is only charged |
| HostController.VmController.CountedExactly | host/src/runtime.rs:356-398 | while nothing was raised since the VM was read, the charge on record covers what it holds and is about to hold if and only if its open intent asks for no more than that charge |
| HostController.VmController.RecordUnexecuted | host/src/runtime.rs:1105-1139 | admission and result are journalled together, without an intent or a command, unless a save fails or the clock reads zero |
| HostController.VmController.BeginRequest | host/src/runtime.rs:1001-1048 | admission and intent become durable in one save before the one resize command |
| HostController.VmController.Execute | host/src/runtime.rs:1001-1081 | a rejected command releases the intent and refuses the request, an unknown one latches, and the outstanding growth is exactly what is then open |
| HostController.VmController.ReleaseIntent | host/src/runtime.rs:1059-1068 | after a rejection the intent is gone and the refusal is journalled |
| HostController.VmController.Act | host/src/runtime.rs:877-1083 | what a turn makes of a ready request, in both directions: if the daemon observes only, or the request is not whole blocks or not fresh, nothing is saved or sent; if not one block may move it is journalled as such; otherwise, unless stopping, one resize by the most whole blocks that may move is sent and its answer journalled; growth is added to the committed total, within available memory less reserve and margin |
| HostController.CarriedIsActed | host/src/runtime.rs:962-1083 | carrying out what is granted is exactly what a turn has to do with a request that passes the boundary checks |
| HostController.VmController.GrantExecutes | host/src/runtime.rs:909-1000 | every positive grant is a command that the protocol allows for its request |
| HostController.VmController.ObserveForRound | host/src/runtime.rs:268-291 | after the round's first phase the VM is accounted for and holds no more than before; its intent was handled from the state read, and its request is ready if and only if live state was read, has converged and the guest offers a request to admit now; a stopped VM is only watched, and one that must stop is stopped |
| HostController.VmController.ActForRound | host/src/runtime.rs:307-319 | the VM's turn does with its request exactly what it must, and nothing if none is ready; a VM within a ceiling that covers its charge ends its turn within the ceiling but for what was raised unseen; what it adds to the committed growth pays for every resize it sends and all it then owes, and leaves reserve and margin |
| Pool.AllocatePool | crates/virtio-mem-core/src/pool.rs:44-83 | errors exactly on a bad block size or an overflowing charge; otherwise ceilings cover charges, ceiling plus unmet is the larger of desired and charged, ceilings sum to at most the larger of pool and charges, and shares follow the served order |
| Pool.HandOut | crates/virtio-mem-core/src/pool.rs:64-83 | the loop fills each member's allocation in place with its share of what is left, and hands out no more than is free |
| Pool.SharesFit | crates/virtio-mem-core/src/pool.rs:72-83 | all shares together fit what is free |
| Pool.ShareIsGreedy | crates/virtio-mem-core/src/pool.rs:72-83 | each member's share is the most whole blocks it wants of what those served before it have left |
| Pool.ShortMemberEndsThePool | crates/virtio-mem-core/src/pool.rs:72-83 | if a member is left at least one of its blocks short, all members served after it together get less than that block |
| Pool.OrderIsRanking | crates/virtio-mem-core/src/pool.rs:61-62 | the served order is strictly by priority, then by listing, and leaves nobody out |
| Pool.AllocationIsFair | crates/virtio-mem-core/src/pool.rs:44-83 | shares that fit make ceilings that fit |
| Pool.ListingOrderIsIrrelevant | crates/virtio-mem-core/src/pool.rs:42-83 | with distinct priorities, listing the same members in another order gives each the same ceiling |
| HostRounds.HostRuntime.ObserveAll | host/src/runtime.rs:268-291 | phase one over all VMs leaves each heard, with its intent handled, accounted for and none holding more; it fails only if a save failed or a clock was behind |
| HostRounds.HostRuntime.Allocate | host/src/runtime.rs:326-344 | the round's ceilings cover every charge and together fit the pool as far as the charges do, and each is the charge and the most whole blocks that VM, ready to grow, may take of what those ranked before it have left; it fails if and only if the charges overflow or a block is not valid |
| HostRounds.SharesApportion | host/src/runtime.rs:529-557 | what the pool hands out in served order is apportioned by rank among what was observed: a ready addition takes the most it may within its request and maximum, everyone else nothing |
| RoundAccounts.TakenIsAtMost | host/src/runtime.rs:529-557 | those ranked before a VM together take no more than each of them may |
| RoundAccounts.ReadyGrowthIsServed | host/src/runtime.rs:529-557 | a ready addition is let grow by any whole blocks, within its request and maximum, that fit the pool beside all charges and all that those ranked before it may take |
| HostRounds.HostRuntime.TurnOrder | host/src/runtime.rs:293-299 | every VM gets one turn, highest priority first, in listing order at the same priority |
| HostRounds.HostRuntime.OutstandingGrowth | host/src/runtime.rs:300-304 | the growth already on its way, saturating, with a VM never read counted as unbounded |
| HostRounds.HostRuntime.ActAll | host/src/runtime.rs:305-319 | phase two gives every VM its turn by rank, each with the growth committed before it, and does with every ready request exactly what it must; VM by VM the growth sent and then owed is paid for by a share, and the shares sum to exactly what was committed beyond what was reserved |
| HostRounds.HostRuntime.TurnsAreExecuted | host/src/runtime.rs:305-319 | turns taken by rank, each adding its part to what was committed, execute every ready request |
| HostRounds.HostRuntime.Round | host/src/runtime.rs:268-324 | for all answers and crashes, what the pool must count fits the pool and what no read has seen yet, or is no more than before and what was raised meanwhile from outside or by an unrestored widening, unless a VM was unreadable with an uncounted intent; each VM's growth fits, with reserve and margin, the memory available at its own turn, and all growth sent, on top of what the other VMs still owe, that at the last turn to commit any; while a VM has never been read no growth is sent, with or without a pool; a round that succeeds has heard every VM, shared the pool out by rank and done with every ready request exactly what it must, and one fails only if a save failed, a clock was behind or the pool could not be shared out |
| HostRounds.HostRuntime.ActWithin | host/src/runtime.rs:300-319 | phase two under the round's ceilings, with the growth outstanding reserved first, executes every ready request by rank and keeps all that a round keeps; it fails only if a save failed or a clock was behind |
| RoundAccounts.PaidGrowthKeepsReserve | host/src/runtime.rs:300-304 | shares that pay for each VM leave reserve and margin one by one and in total, also when the sum saturates, and a VM never read lets nothing be sent |
| RoundAccounts.CeilingsKeepPool | host/src/runtime.rs:300-319 | ceilings that fit the pool as far as the charges do, and VMs that stay within them or hold no more, keep the pool |
| RoundAccounts.ExposureGrowsByStrays | host/src/runtime.rs:268-324 | a round that keeps the pool exposes it by no more bytes than were raised meanwhile |
| HostRounds.HostRuntime.RestartAll | host/src/checkpoint.rs:97-130 | a restarted daemon is valid over every VM, and no VM holds more or was sent anything |
| HostRounds.HostRuntime.RunRounds | host/src/runtime.rs:244-262 | over any number of rounds, through daemons that end in a round or are killed after it and restart, from any point on, what the pool must count exceeds the pool and what was unseen, or what was held, by no more than the bytes raised since from outside and those raised by unrestored widenings |
| HostRounds.OvercommitsExactlyIfUnderstated | crates/virtio-mem-core/src/pool.rs:44-83 | a member held at its charge can make some allocation exceed some pool, which everything fitted, if and only if it holds more than that charge |
| HostRounds.UnreadVmOvercommitsExactlyIfUncounted | host/src/runtime.rs:359-378 | a VM that cannot be read, and was not raised since it was, can overcommit a pool if and only if its open intent asks for more than its last charge |
| HostRounds.GrowthIsUncountedUntilRead | host/src/runtime.rs:1001-1048 | for every growth on every converged device there is a run, up to its journalled and sent command, at whose end the charge of the last read misses all of it |
| HostRounds.WideningRaisesChargeExactlyIfUnrestored | host/src/resize_sink.rs:104-125 | a widening raises the charge if and only if its answer is unknown, it ran and the device was not asked for in full; then the charge is the whole device |
| HostRounds.UnrestoredWideningIsCharged | host/src/runtime.rs:1189-1215 | for every device not plugged in full there is a run without outside changes at whose end the whole device is read into the charge, latched |
| Estimation.TargetKeepsReserves | crates/virtio-mem-core/src/target_controller.rs:346-480 | a size keeps both reserves of a reading exactly from the candidate on, and a target that no upper limit cuts is at least the candidate |
| Estimation.TargetIsLeast | crates/virtio-mem-core/src/target_controller.rs:173-206 | a limited target is the least: desired size and floor are the least whole blocks, within the greatest size allowed, that keep their reserves and both minima, or that greatest size if none is; it is called limited by capacity if and only if no size of the device keeps the reserves |
| Estimation.HeldIsLeast | crates/virtio-mem-core/src/target_controller.rs:222-226 | raising gives the least size, within the maximum, below neither what was desired nor what is wanted |
| Estimation.Observed | crates/virtio-mem-core/src/target_controller.rs:173-211 | an accepted sample's target is within its maximum, and below what its reading wants only if that maximum binds |
| Estimation.ObservedIsLeast | crates/virtio-mem-core/src/target_controller.rs:173-225 | what is observed is the sample's own reading with the least target that serves it |
| Estimation.ObservedExactlyWhenMeasurable | crates/virtio-mem-core/src/target_controller.rs:173-211 | a sample is observed if and only if policy and device suit each other, the telemetry is valid, nothing overflows and some size keeps the limits on total RAM |
| Estimation.RunIsUnbroken | crates/virtio-mem-core/src/target_controller.rs:316-344 | the current run is exactly the samples of a stretch of polls none of which was lost or not High, each extending the one before in session, base and gap |
| Estimation.PruneHistory | crates/virtio-mem-core/src/target_controller.rs:493-502 | pruning drops a prefix and keeps exactly one entry at or before the window's edge, if it drops at all |
| Estimation.MaximaAreGreatest | crates/virtio-mem-core/src/target_controller.rs:271-299 | the maxima over the history bound every entry and are attained |
| Estimation.BucketMillis | crates/virtio-mem-core/src/target_controller.rs:235-239 | 4094 buckets span the window |
| Estimation.AppendSummarizes | crates/virtio-mem-core/src/target_controller.rs:233-256 | merging into the last bucket or opening one keeps the history an exact summary, bucket by bucket, of the samples it covers |
| Estimation.HistoryStaysBelowCap | crates/virtio-mem-core/src/target_controller.rs:257-259 | a trimmed history has fewer than 4096 entries, so the cap never drops one |
| Estimation.ReadyExactlyWhenRunSpansWindow | crates/virtio-mem-core/src/target_controller.rs:504-513 | the bucketed history is ready if and only if the unbroken run of samples spans the window |
| Estimation.WindowIsCovered | crates/virtio-mem-core/src/target_controller.rs:271-299 | no sample of the last window wants more, or has a higher floor, than the history's maxima |
| Estimation.MaximumIsRecent | crates/virtio-mem-core/src/target_controller.rs:271-285 | the history's maximum was wanted by a sample younger than the window, one bucket and one gap |
| Estimation.FallsByHysteresis | crates/virtio-mem-core/src/target_controller.rs:279-285 | unless the maximum cuts it, the desired size falls only over a full window and by at least the hysteresis |
| Estimation.TargetEstimator.InvalidateHistory | crates/virtio-mem-core/src/target_controller.rs:93-98 | the evidence is gone and the floor is the desired size |
| Estimation.TargetEstimator.SetRamLimits | crates/virtio-mem-core/src/target_controller.rs:158-166 | limits in order replace the old ones and drop the evidence; others change nothing |
| Estimation.TargetEstimator.PrepareSample | crates/virtio-mem-core/src/target_controller.rs:316-344 | an ordering failure exactly for a blank session or a sample that does not advance; otherwise the history still stands for the run exactly if the sample can extend it |
| Estimation.TargetEstimator.Rebase | crates/virtio-mem-core/src/target_controller.rs:205-221 | evidence over another visible base is dropped, and the first sample starts from the size the device has |
| Estimation.TargetEstimator.Remember | crates/virtio-mem-core/src/target_controller.rs:228-264 | appending, capping and pruning leave a history that stands for the run with the new sample, or for none if it was not High |
| Estimation.TargetEstimator.Conclude | crates/virtio-mem-core/src/target_controller.rs:265-301 | readiness is exactly a spanned window; the desired size is the window's maximum exactly if that saves the hysteresis; the floor is the window's, or the current size |
| Estimation.TargetEstimator.Estimate | crates/virtio-mem-core/src/target_controller.rs:173-314 | it fails exactly for a sample that cannot be measured, leaves no allowed size or is out of order, or by an overflow of the hysteresis test; otherwise the observation is the sample's own reading with the least target, the history summarizes the run of everything ever observed, readiness is exactly a spanned window, and the desired size rises at once, is cut to the maximum and falls only by the hysteresis |
| Estimation.TargetEstimator.DesiredKeepsReserves | crates/virtio-mem-core/src/target_controller.rs:271-299 | under one maximum, any size from the desired one up keeps both reserves of every window sample that no limit cut |
| GuestRequests.PlanRequest | crates/virtio-mem-core/src/guest_policy.rs:56-91 | growth goes to the desired size; a removal needs full history, is bounded by the step, and stays above desired size and floor |
| GuestRequests.PlansExactlyWhatIsDue | crates/virtio-mem-core/src/guest_policy.rs:56-91 | on a converged device the plan is invalid if and only if the device is, or a step is not whole blocks; otherwise an addition is planned if and only if the device is below what is desired or, under Low, below its maximum, and then all the way or by at least a step; a removal if and only if no addition is due, a full window backs it and the device is above the size to keep, and then a whole step or all that is above; and nothing if and only if neither is due |
| GuestRequests.GuestRequester.Open | crates/virtio-mem-core/src/guest_policy.rs:162-203 | a requester starts if and only if policy, identities and retained request are valid and belong to it |
| GuestRequests.GuestRequester.Observe | crates/virtio-mem-core/src/guest_policy.rs:278-304 | each poll leaves one observation: a fresh converged device's reading with the least target, nothing while it converges under High, or a break; it fails exactly if the sample cannot be estimated or the hysteresis test overflows |
| GuestRequests.GuestRequester.Await | crates/virtio-mem-core/src/guest_policy.rs:310-349 | a pending request is kept unchanged until a terminal result of exactly that request is read; anything but completion doubles the back-off between one and thirty seconds, completion clears it |
| GuestRequests.GuestRequester.Issue | crates/virtio-mem-core/src/guest_policy.rs:380-432 | unless the clock has not passed the watermark or the operation failed less than its back-off ago, without new urgency, the request is issued with the next sequence, this issue time and the lifetime; it fails exactly if it cannot be written, and then the state is as it was |
| GuestRequests.DueChangeIsJustified | crates/virtio-mem-core/src/guest_policy.rs:56-91 | every growth due goes to what is desired; every removal due is backed by a full window of polls that were all High over fresh status, and leaves both reserves for every sample of that window no limit cut |
| GuestRequests.GuestRequester.Propose | crates/virtio-mem-core/src/guest_policy.rs:350-432 | exactly what is due is issued unless something holds it back: nothing is due, the clock has not passed the watermark or the operation backs off; it fails exactly if nothing can be planned or the request cannot be written |
| GuestRequests.GuestRequester.Poll | crates/virtio-mem-core/src/guest_policy.rs:234-432 | an estimate is made exactly of a credible, recent and converged status; then exactly what is due is asked for unless something holds it back, and whatever is due is justified; otherwise the state moves only by waiting or by consuming the pending request's own result; a failure has its stated cause and leaves the state as it was |
| Handshake.MoveKeepsInv | windows/src/requests.rs:92-125 | every move of guest, host, crash, stop or failed replacement keeps the joint invariant |
| Handshake.PublishedIsDurable | windows/src/requests.rs:108-118 | whenever a publication lands, its request is the one the guest's file holds |
| Handshake.RequestStandsUntilAnswered | crates/virtio-mem-core/src/guest_policy.rs:310-347 | a published request stays published unchanged until the guest has read a terminal result of exactly it, which the host had posted |
| Handshake.IssueTimesFollowPublication | crates/virtio-mem-core/src/guest_policy.rs:380-384 | of two different requests published one after the other, the later is issued strictly later, and numbered later in the same session |
| Handshake.HostNeverSeesAReplay | crates/virtio-mem-core/src/memory_request.rs:323-347 | over all runs the host never refuses this guest for the watermark, a reused identity, or as foreign or malformed |
| Handshake.FirstRequestIsRefusedExactlyUnderTheSameSession | crates/virtio-mem-core/src/memory_request.rs:323-347 | a process's first request, issued after a resolved predecessor, is refused for a reused identity or the watermark if and only if it runs under the predecessor's session |
| Handshake.ReusedSessionIsRefused | windows/src/demand.rs:257-266 | two processes under one session identity, the second of which the host refuses |
| Handshake.ReadMovementIsReal | host/src/checkpoint.rs:174-202 | every Completed or Partial result the guest has read is, capped at the bytes asked for, the movement between two converged allocations the device had in that run, one after the other |
| Handshake.ReadMovementFollowsItsResize | host/src/runtime.rs:831-875 | if a resize was sent for the request, the movement the guest read starts from the allocation at which it was sent and ends at one after it |
| Handshake.HostRunsAreRuns | host/src/runtime.rs:244-320 | the host's part of every joint run is a run of the host machine, step for step, so all host theorems hold of it |
| GuestWorkers.GuestWorker.constructor | windows/src/requests.rs:36-72 | a service starts from the retained file at the end of any run that left no service, as the machine's start move |
| GuestWorkers.GuestWorker.PersistState | windows/src/demand.rs:65-106 | a replacement reports success if and only if it succeeded or the service is stopping, and the file holds the new state unless nothing landed; one that fails ends the service |
| GuestWorkers.GuestWorker.PublishRequest | windows/src/demand.rs:40-58 | a stopping service publishes nothing; otherwise the publication is the request unless nothing landed, and success is reported if and only if it succeeded or the service is then stopping |
| GuestWorkers.GuestWorker.Decide | windows/src/requests.rs:92-108 | the decision is the machine's poll move, and its request is the requester's pending one |
| GuestWorkers.GuestWorker.PollOnce | windows/src/runtime.rs:86-150 | each poll extends a run of the machine from its initial world, with any host moves between its effects, and what it publishes is what the file then holds; a poll that succeeds without a stop has published it |
| GuestWorkers.GuestWorker.StateIsDurable | windows/src/demand.rs:65-106 | between polls, a worker that is not stopping holds exactly what its file holds |
| ResizeSink.Domain.Change | host/src/resize_sink.rs:37-73 | rejected exactly for a failed check, and then nothing changed; accepted means the expected device now has the target requested; unknown means it does or is as it was |
| ResizeSink.ChangeIsSend | host/src/resize_sink.rs:37-73 | whatever the sink answers, its change of the device the daemon has seen is the host machine's send move with that answer |
| ResizeSink.WideningIsSend | host/src/resize_sink.rs:75-125 | every outcome of the widening sequence is the host machine's widening move, unknown and run exactly if unrestored, followed by what the guest plugged meanwhile |
| ResizeSink.Domain.WidenAndRestore | host/src/resize_sink.rs:108-117 | while the domain is paused the whole device is asked for and then the original size; restored exactly if the restore, or its one retry over an unchanged allocation, succeeds |
| ResizeSink.Domain.WidenUsableRegion | host/src/resize_sink.rs:75-125 | for every pattern of failures the guest never runs while anything but the original size is requested; resume comes only after a known restore, otherwise the domain stays paused; rejected exactly for a failed check or suspend, accepted exactly if every step succeeded |
| StopSignals.StepKeepsInv | windows/src/service_host.rs:81-104 | every step of any registrar or canceller keeps lock ownership, the count of each callback, and a canceller to come for whatever is pushed |
| StopSignals.RunsAtMostOnceAfterCancellation | windows/src/service_host.rs:81-104 | over all interleavings no callback runs twice, and none before cancellation |
| StopSignals.RunsExactlyOnce | windows/src/service_host.rs:93-104 | once any cancel has returned, even while others are under way, every callback whose registration returned has run exactly once |
| StopSignals.NobodyIsStuck | windows/src/service_host.rs:81-104 | while any thread is not done, some thread can move |
| ServiceHosts.StepKeepsInv | windows/src/service_host.rs:264-341 | every step of host loop, worker, canceller or callback keeps the counts of events and reports in step |
| ServiceHosts.StatusIsOrdered | windows/src/service_host.rs:293-341 | Running and StopPending are each published at most once, never Running after StopPending |
| ServiceHosts.SignalStepsAreMoves | windows/src/service_host.rs:264-300 | every step of the stop signal, in any interleaving, is no step of the service host, its cancellation, or its one announcement, which only follows cancellation |
| ServiceHosts.ReturnedCancelIsAnnounced | windows/src/service_host.rs:93-104 | once a cancel has returned, a stop callback registered by then has announced the stop |
| CivilDate.FormulaCountsCycles | tools/xtask/src/metrics.rs:1572-1580 | the closed formula finds the year and day that cycles of 100, 4 and 1 years count |
| CivilDate.NextDayIsSuccessor | tools/xtask/src/metrics.rs:1572-1588 | for every day number, the next day's date is the Gregorian successor, and the date has a month and day in range |
| CivilDate.CivilCountsDays | tools/xtask/src/metrics.rs:1572-1588 | every day since 1970-01-01 has the date reached by counting days from there |
| CivilDate.DatesIncrease | tools/xtask/src/metrics.rs:1572-1588 | later days have strictly later dates, so no two share one |
| CivilDate.UtcIsExact | tools/xtask/src/metrics.rs:1589-1602 | every field is in range, and together they say exactly which millisecond of which day |
| CivilDate.UtcIsOrdered | tools/xtask/src/metrics.rs:1589-1602 | later instants compare later, field by field |
| Base64.EncodeBase64 | host/src/qga.rs:196-216 | the loop computes the grouped encoding |
| Base64.DecodeBase64 | host/src/qga.rs:218-257 | the loop accepts and computes exactly the grouped decoding |
| Base64.DecodeUndoesEncode | host/src/qga.rs:196-257 | decoding an encoding gives back every byte string |
| Base64.EncodingLength | host/src/qga.rs:196-216 | an encoding has four symbols for each three bytes begun |
| Base64.AcceptedExactlyWhenPaddedAtEnd | host/src/qga.rs:218-268 | a text is accepted if and only if its length is a multiple of four and it is alphabet symbols but for at most two pad bytes at its end |
| Base64.EncodeUndoesDecodeExactlyWhenCanonical | host/src/qga.rs:218-257 | an accepted text is the encoding of its decoding if and only if the bits its last group leaves over are zero |
| Base64.DecodingIsNotInjective | host/src/qga.rs:248-255 | two accepted texts with the same decoding |
| ByteSize.ParsingIsExact | crates/virtio-mem-core/src/units.rs:20-59 | a text parses to a size if and only if it is well formed and its exact decimal value times its unit is that whole number of bytes below 2^64 |
| ByteSize.ShiftIsExact | crates/virtio-mem-core/src/units.rs:51-54 | the 128-bit shift is refused exactly when the product does not fit |
| ByteSize.DenotedSizesFit | crates/virtio-mem-core/src/units.rs:47-59 | no 128-bit step can refuse a representable size |
| ByteSize.WrittenTextsScan | crates/virtio-mem-core/src/units.rs:20-45 | digits, an optional point and fraction, and a known unit, with blanks around and between, are well formed |
| ByteSize.OnlyWrittenTextsScan | crates/virtio-mem-core/src/units.rs:20-45 | no other text is well formed |

## Left out

- Wake channels, timers and real clocks: they decide when a poll happens; the model takes time, stalls and deadlines as inputs of each call.
- libvirt, the guest agent transport, Windows system calls, XML and JSON: foreign calls appear only as readable or not, and succeeded, rejected or unknown.
- Attestation: compatibility evidence is one of the checks a command or a restart may fail.
- Reason texts, logs, diagnostics and published status beyond its result: a reason is a flag, or absent.
- Settings, deployment, metrics recording, the user interface and the driver harness: option handling and plumbing.
- `bounded_reason` and the argument scrubber: text clean-up; neither is idempotent, and nothing here depends on that.
- Requests: the journal is a value that each operation replaces, since the controller saves it whole inside its control state.
- Non-durable publication: a landed file replacement stays landed; a power failure that undoes the mailbox rename, which is not flushed, is not modelled.
- HostController.VmController.Interfere: outside growth of a device is allowed at any time; its bytes are counted in the ghost field `drift`, and the pool bound holds up to them. What part of them a later shrink from outside takes back is not subtracted.
- HostRounds.HostRuntime.Round: available memory, the clock and the stop request are read once for each VM's turn; the source reads memory again just before the command, which can only refuse more, and ends the round early on a stop request.
- HostController.VmController.SendCommand: why the sink rejects a command is left open beyond its check of the device, so a rejection is always possible; in the code its other checks and a stop request just before the command are further reasons.
- HostRounds.HostRuntime.RunRounds: a daemon is killed after a round, or in the middle of one by a save that fails; a kill at another point inside a round is in the runs of `HostProtocol` only.
- HostController.VmController.SendCommand: the sink's fresh read and its command are one atomic step; in the code the device may move between them (host/src/resize_sink.rs:45-53).
- ResizeSink.Domain.Change: likewise, the check of the expected device and the update are one step.
- HostController.VmController.ConsiderRequest: a refusal of a request that was never admitted is published and not journalled, so the model changes no state for it.
- Estimation.TargetEstimator.Estimate: after an arithmetic overflow the source may keep evidence it did not count; the error ends the guest service, and the contract promises nothing about the object then.
- GuestRequests.GuestRequester.Poll: the diagnostic reason is not modelled.
- ServiceHosts.StatusIsOrdered: the shutdown deadline, which exits the process, is the end of a run.
- StopSignals.RunsExactlyOnce: a callback that itself registers a callback would wait for a lock its own thread holds; callbacks are taken not to.
- CivilDate.CivilCountsDays: the day number is unbounded; the source's 64-bit sum cannot overflow on days counted from unsigned milliseconds. The text formats around it are not modelled.
