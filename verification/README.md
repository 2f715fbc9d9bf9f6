# Verified models of the Apple AVE encoder driver

These Dafny files model the parts of the driver that are protocols, planners and parsers, and prove
what they are for. Hardware, firmware and the m2m core appear only as steps that may happen at any
time, or as values a caller chooses. `dafny verify dfyconfig.toml` checks everything.

The subjects, and where they are:

* **Slot rings** (`Rings`, `RingProtocol`, `OneWayRing`, `CreditReturn`). Two parties share an array of
  slots and one phase bit per slot. Every slot access is a step of its own, so the parties interleave
  inside a send; the rings are shown to be FIFOs for every number of slots. The class `Rings.Ring` is
  the code, and its calls are shown to be the steps of the protocol.
* **B-frame planner, reference picture sets, jobs** (`GopPlanner`, `GopRuns`, `HevcRps`, `GopOutput`, `GopRefs`,
  `IpppRefs`, `BJobs`, `BPlans`, `BContext`). The planner is run over any sequence of sources, forced keys and
  drains and any number of B frames. The sets another file writes into the Start command are read back
  byte by byte; the two together never name a picture that is not in the decoder's buffer, never need a
  larger buffer than the parameter sets announce, and a decoder shows the pictures in display order.
* **Boot mailbox and firmware allocations** (`Mailbox`, `MailboxCode`, `MailboxAcks`, `ShMalloc`,
  `ShMallocFrees`). The interrupt handler and the polling receiver race for one write-1-to-clear bit
  whose meaning changes during the boot; the FwIPC pool is followed granule by granule.
* **Sleep, removal, encoder binding, session ownership** (`Teardown`, `TeardownEnds`, `TeardownCode`,
  `Binding`, `Session`).
* **Live device tree, coded-data header, binary64 constants** (`Adt`, `AdtWalk`, `AdtPrint`, `AdtDepth`, `AdtValues`,
  `AdtPreLoaded`, `CodedHdr`, `CodedHdrPrint`, `Binary64`), with `LittleEndian`, `Remainders` and `Basics` below them.

Code that changes things in place is a class or a method with loops, proved equal to a function of the
old state; the theorems are about those functions.

## Assumptions

* The barriers give sequential consistency; the order of slot writes (arguments first) is kept.
* The session layer's promise (`driver/ave_session.h:120-142`): completions name distinct frames of the batch.
* The firmware codes a batch's anchor first and then its Bs (`driver/ave_gop.h:11-13`), uses a B-GOP set whose
  index is congruent to the picture's POC modulo nb + 1 (`driver/ave_cmd.c:870-876`), and an IPPP set by the rule
  at `driver/ave_cmd.c:1182-1187`.
* During the boot the firmware converses in lock step and rings bit 0 as a doorbell only after it has
  cleared the ready flag; other status bits may appear at any time. Bit 0 is clear when the core is started.
* The m2m core starts no job while the queue is stopped, and a STOP names the newest source queued.
* FwIPC's pool gives out the lowest free run and fails only when there is none. Channels exist once the
  handshake has its blocks, so the firmware asks for memory only then; when `ave_ipc_fini` runs, the
  interrupt is off and no request is under way.
* An encoder's removal waits for its sleep paths (`driver/ave_drv.c:2665-2675`), which exclude each other.
* CPU_STATUS reads STOPPED exactly when the core is not executing. The teardown starts from a successful full probe.

## Where the code does not do what one would expect

Each is a lemma with a concrete run or input, beside the exact condition.

* `Binding.ReopenedBeforeTheWork`, `Binding.OpenedAfterTheLook`, with `ReprobedUnderAFileExactly`: that no
  re-probe takes a device away under its users (`driver/ave_v4l2.c:1706-1708`) holds exactly if no file opened on that
  node after the re-probe was decided on is still open. The work item looks at nothing, and the sleep paths schedule it
  after they have dropped the list lock.
* `BJobs.SourcesBehindStop`, with `DrainEndsExactly`, `CodesPastTheLast` and `DrainStalls`: a source queued behind a
  STOP whose last source is already held is coded together with it and before the LAST flag, or stalls the drain.
  If the last source was not held yet, the drain ends as it should whatever is queued behind it.
* `ShMalloc.LeakWitness`, with `FiniLosesExactly`: when the channel block fills FwIPC up to less than the info block
  needs, its size is not recorded, and `ave_ipc_fini` cannot return its granules, unless the size left over from an
  earlier boot happens to be the same. That needs boot_lenient=1: without it the firmware's size has to be the ABI's
  (`StrictBootsLoseNothing`).
* `Session.StaleEnd`, with `ServedExactly`: `ave_end_session` looks at the flag before it takes the mutex and
  not again after, so an end overtaken by a suspend and another context's start closes that context's client.
  Freezing the tasks makes this need a suspend that is abandoned after the notifier has run.
* `AdtPreLoaded.ZeroIsPreLoaded`, with `PreLoadedExactly`: `driver/ave_adt.h:26` says "pre-loaded" must be present and
  not 0; the code asks only for its presence.
* `Rings.DirectionsPair`: the two direction maps agree for directions 0 to 2 and for no other.

## Model

| member | source | states |
|---|---|---|
| Rings.DirectionsPair | driver/ave_abi_boot.h:430-433 | host and firmware ring types speak the same algorithm with opposite phases for a direction exactly if it is 0, 1 or 2 |
| Rings.WordRoundTrip | driver/ave_abi_boot.h:487-516 | the receiver facing a sender sees its phase and gets the payload back through the mask exactly when the payload is a multiple of 4 |
| Rings.CursorsTrack | driver/ave_abi_boot.h:490-528 | for any number of slots, the -1 sentinels and the wrap-around keep both cursors equal to what the message counts say |
| Rings.Ring.constructor | driver/ave_abi_boot.h:451-474 | an odd end marks every slot free, an even end touches none |
| Rings.Ring.Send | driver/ave_abi_boot.h:477-500 | refused exactly when wr is -1; else fills that slot only and moves the cursors |
| Rings.Ring.Recv | driver/ave_abi_boot.h:503-530 | succeeds exactly on a slot in its own phase, returns what the slot says, writes no slot |
| Rings.Ring.USend | driver/ave_abi_boot.h:536-549 | asks the slot's phase alone; fills that slot only |
| Rings.Ring.URecv | driver/ave_abi_boot.h:557-573 | hands the slot back by its phase word and returns what it held |
| RingProtocol.RecvIsThreeSteps | driver/ave_abi_boot.h:511-528 | Receive is its three slot reads |
| RingProtocol.PhaseMeansWaiting | driver/ave_abi_boot.h:509-514 | in every reachable state a slot has the receiver's phase exactly when a message waits in it |
| RingProtocol.StepInv | driver/ave_abi_boot.h:477-530 | replies received <= replies sent <= messages received <= messages sent <= window, slot contents and half-done calls, kept by every access of either party |
| RingProtocol.TwoPartySafety | driver/ave_abi_boot.h:451-530 | in every run each side has received a prefix of what the other sent, in order and unaltered; rd is -1 exactly with nothing outstanding and wr exactly with all N |
| RingProtocol.NoUnreadSlotIsOverwritten | driver/ave_abi_boot.h:482-487 | no step changes a slot its receiver has not taken |
| RingProtocol.RefinesSharedCredits | driver/ave_abi_boot.h:477-530 | every access is a step of two FIFOs drawing on N credits |
| RingProtocol.CallsSucceedExactlyWhen | driver/ave_abi_boot.h:482-514 | Send fails exactly with no credit left, Receive exactly with nothing queued, and a call begun can finish |
| OneWayRing.CallsAreFourSteps | driver/ave_abi_boot.h:536-573 | usend and urecv are their four slot accesses |
| OneWayRing.PhaseTellsFill | driver/ave_abi_boot.h:540-563 | the phase bit alone says whether the ring is full or empty |
| OneWayRing.RefinesBoundedFifo | driver/ave_abi_boot.h:532-573 | in every run the ring is a FIFO of capacity N, refused exactly when full or empty |
| CreditReturn.CreditReturnsCannotFail | driver/ave_ipc.c:474-486 | however many drainers interleave, the ignored echo always finds a slot, and takes and echoes balance message by message |
| GopPlanner.BatchesUseTheSourcesOnce | driver/ave_gop.h:113-171 | an action codes as many frames as it consumes sources and names each once, in display order |
| GopPlanner.Planner.MiniGop | driver/ave_gop.h:119-131 | the loop writes exactly the mini-GOP and advances the anchor number by nb + 1 |
| GopPlanner.Planner.Commit | driver/ave_gop.h:137-171 | the new state and the batches, for every action |
| GopRuns.JobInv | driver/ave_gop.h:85-171 | what a stream keeps through every job: numbering, spacing, order and the planner's own counters |
| GopRuns.FrameNumbering | driver/ave_gop.h:22-32 | frameNumbers are unique and rise in display order, within 32 bits for the first 2^32 / (nb + 1) pictures; consecutive anchors of a GOP are nb + 1 apart however short the mini-GOP; a picture is a B exactly when its POC is no multiple of nb + 1 |
| GopRuns.ClosedGops | driver/ave_gop.h:85-96 | no IDR right after a B, at most nb Bs together, IDRs at most gop apart and exactly gop when nothing is forced |
| GopRuns.WhatBecomesOfASource | driver/ave_gop.h:85-96 | after any run a new source becomes an IDR exactly if it is the first, a key was asked for or the GOP is full; the P of a mini-GOP with all the held ones exactly if it is the drain's last, nb are held or the next begins a GOP; and is held otherwise |
| GopRuns.MiniGopsAreFull | driver/ave_gop.h:85-131 | without a drain every P but one right before an IDR has exactly nb Bs before it; with no GOP length and no forced key the stream is IDR, then nb Bs and a P over and over |
| GopRuns.NothingHeldAtTheBoundary | driver/ave_gop.h:90-94 | an IDR only the GOP length asked for finds no source held |
| GopRuns.ReorderBound | driver/ave_cmd.c:1137-1139 | the decode order permutes the display order, at most one picture is decoded before and shown after another, and the DTS of ffmpeg/README.md never exceeds the PTS |
| GopRuns.EverySourceIsCodedOnceOrHeld | driver/ave_gop.h:113-116 | sources queued = pictures coded + sources held, over every run |
| GopRuns.NumbersStayBelow | driver/ave_gop.h:59-66 | picture i has a frameNumber of at most (nb + 1) * i, so 32 bits cannot wrap below that |
| HevcRps.Writer.Write | driver/ave_cmd.c:45-76 | a field is written whole, or the writer goes bad for good and nothing changes |
| HevcRps.BSetCarries | driver/ave_cmd.c:877-901 | whatever the entry held, a decoder reads back from it the anchors around a picture at that distance, by syntax and by derived fields alike |
| HevcRps.CarriesOneSet | driver/ave_cmd.c:883-900 | an entry stands for one set only |
| HevcRps.WriteBSet | driver/ave_cmd.c:877-901 | the writes change that entry and nothing else, and it becomes those bytes |
| HevcRps.IpSetCarries | driver/ave_cmd.c:1192-1209 | the IPPP entry reads back as the nr pictures right before |
| HevcRps.WriteIpSet | driver/ave_cmd.c:1191-1210 | the loop writes that entry and nothing else |
| HevcRps.WriteBlock | driver/ave_cmd.c:1180-1210 | the count and all n sets are in the block, or the buffer was too short and that is reported |
| GopRefs.SetNamesTheGrid | driver/ave_cmd.c:870-881 | any set whose index is congruent to the POC names the anchor before and, for a B, the one after |
| GopRefs.SomeSetFits | driver/ave_cmd.c:865-868 | a congruent index exists among the 8 or 10 sets written |
| GopRefs.BlockKeepsTheGrid | driver/ave_cmd.c:1179-1190 | a decoder using the written block has the same buffer as one using the planner's grid |
| GopRefs.ReferencesAlwaysExist | driver/ave_gop.h:119-171 | in every run, every picture a set names is in the decoded picture buffer when it is decoded, at most two stay marked, and they are the right anchors |
| GopRefs.BufferIsLargeEnough | driver/ave_cmd.c:1136-1164 | in every run, at most two pictures are kept for reference or waiting to be shown when another is stored, so max_num_ref_frames + 1 buffers do; with num_reorder 1 all but the last decoded picture have been shown, in display order |
| IpppRefs.IpReferencesExist | driver/ave_cmd.c:1182-1210 | without B frames too, one or two references, however long the stream |
| BJobs.CompletionsPermute | driver/ave_v4l2.c:1226-1239 | whatever completed, every frame of the batch gets exactly one CAPTURE buffer, completions first in their order |
| BJobs.BatchKeeps | driver/ave_v4l2.c:1175-1273 | a batch codes the head of the queue, returns each source once, leaves the rest, and puts LAST on its final buffer exactly when the drain's last source is in it |
| BJobs.BatchDelivers | driver/ave_v4l2.c:1226-1272 | the k-th CAPTURE buffer of a batch has the metadata of the source whose frame completed k-th, and its type; frames that did not complete have the buffers after those, empty, in display order; each source goes back with whether it was coded |
| BJobs.JobKeeps | driver/ave_v4l2.c:1276-1300 | the queue stays the uncoded sources in order with the held ones first; one buffer per source; a LAST flag appears exactly when the drain ends |
| BJobs.JobDelivers | driver/ave_v4l2.c:1276-1300 | so does every ready job, with one batch or, for a key behind held sources, two; holding a source delivers nothing |
| BJobs.SourcesSayWhatBuffersHold | driver/ave_v4l2.c:1264-1272 | in every run a source comes back as done exactly if the buffer with its metadata holds coded data |
| BPlans.JobsArePlanned | driver/ave_v4l2.c:1126-1148 | every run of jobs is the planner's run over what the jobs found: is a source there that is not held, was a key asked for, is the newest one the drain's last |
| BPlans.ForcedIsAnIdr | driver/ave_v4l2.c:1143-1148 | so a job with a key asked for codes its new source as an IDR, with all the held ones before it |
| BJobs.JobsConserve | driver/ave_v4l2.c:1126-1300 | the same over any sequence of sources, buffers, forced keys, failures, STOPs and STARTs |
| BJobs.StopNamesTheNewest | driver/ave_v4l2.c:1209-1213 | a STOP between jobs or during a batch leaves a drain whose last source is the newest queued |
| BJobs.StopDuringBatch | driver/ave_v4l2.c:1209-1214 | a STOP during a batch ends the drain with that batch exactly if it codes the newest source queued |
| BJobs.RunsWhenItCan | driver/ave_v4l2.c:1155-1168 | with CAPTURE buffers enough, a job is ready exactly if a source is there that is not held or the newest held one is the drain's last |
| BJobs.DrainEndsExactly | driver/ave_v4l2.c:1126-1300 | whatever sources and buffers are queued meanwhile: after enough ready jobs the drain has ended with one LAST, on the buffer that completes the last source, and nothing coded past it, if and only if that source was not held at the STOP or nothing had been queued behind it when a job ran |
| BJobs.DrainEnds | driver/ave_v4l2.c:1213-1260 | with a CAPTURE buffer for each source up to the last, every job of such a drain can run, and it is over after at most one job per source not yet held, and at least one |
| BJobs.CodesPastTheLast | driver/ave_v4l2.c:1137-1147 | a job that codes the drain's last source codes another one exactly when the last was already held and something is queued behind the held |
| BJobs.DrainStalls | driver/ave_v4l2.c:1140-1142 | with all queued sources held, a drain goes on exactly if the newest is its last |
| BJobs.SourcesBehindStop | driver/ave_v4l2.c:1126-1148 | a run in which both happen |
| BContext.Context.Pick | driver/ave_v4l2.c:1233-1238 | the loop finds the completed frame, or the first without a buffer |
| BContext.Context.Deliver | driver/ave_v4l2.c:1230-1263 | CAPTURE buffers, their sequence numbers, sources and LAST, in completion order |
| BContext.Context.GiveBack | driver/ave_v4l2.c:1264-1272 | the sources leave the queue in display order with their state |
| BContext.Context.RunBatch | driver/ave_v4l2.c:1175-1273 | the whole context after a batch |
| BContext.Context.RunWork | driver/ave_v4l2.c:1276-1300 | the whole context after a job is BJobs.Job of the one before |
| Mailbox.StepInv | driver/ave_ipc.c:107-149 | a message under way is in exactly one place: register, handler, or driver mailbox; kept by every register access of the three parties |
| Mailbox.ExactlyOnce | driver/ave_ipc.c:821-998 | messages 1, 3 and 5 are received once each and in order, all before the flip; the firmware hears the host's two; no doorbell is captured once ipc_up is set |
| Mailbox.PhaseMovesForward | driver/ave_ipc.c:59-65 | boot_phase never goes back within a boot |
| Mailbox.ClearsOnlyWhatItRead | driver/ave_drv.c:537-557 | a bit disappears only by whoever read it, a bit raised meanwhile stays, and once ipc_up is set every bit that disappears reaches the dispatcher |
| Mailbox.ReceiveFindsTheMessage | driver/ave_ipc.c:117-136 | a look succeeds exactly when the firmware has sent the message |
| Mailbox.CanFinish | driver/ave_ipc.c:844-990 | from every reachable state but a failed one the handshake can be completed: nobody waits for what cannot come |
| MailboxCode.Device.Handle | driver/ave_drv.c:484-560 | the handler's effect on registers and driver fields, and what it dispatches |
| MailboxCode.Device.Look | driver/ave_ipc.c:117-141 | one turn of the receive loop |
| MailboxCode.HandlerSteps | driver/ave_drv.c:496-545 | the handler's steps with nobody in between add up to that |
| MailboxCode.LookSteps | driver/ave_ipc.c:117-141 | and the receiver's |
| MailboxAcks.EveryPassAcknowledges | driver/ave_drv.c:496-556 | whoever interleaves, after a pass of the handler every bit it found set has been cleared, and went to the dispatcher once exactly if ipc_up was set |
| ShMalloc.AddressComesBack | driver/ave_ipc.c:160-175 | an address handed to the firmware translates back to the block exactly if FwIPC does not run past 2^64 there |
| ShMalloc.StepInv | driver/ave_ipc.c:413-467 | every granule out of the pool belongs to exactly one live block, through overlapping requests, boot blocks and restarts |
| ShMalloc.Conserved | driver/ave_ipc.c:413-467 | in every run blocks are disjoint and inside FwIPC, and a granule is allocated exactly while somebody holds it |
| ShMalloc.UntrackedFree | driver/ave_ipc.c:419-442 | a free of an unknown pointer, a repeated free included, changes neither table nor pool and is echoed if inside FwIPC |
| ShMallocFrees.Allocates | driver/ave_ipc.c:445-466 | a request with a free run and a free entry is answered with the block's address and size, and takes exactly the block's granules |
| ShMallocFrees.RefusedTakesNothing | driver/ave_ipc.c:447-466 | one that finds the table full changes nothing in the end and is not answered |
| ShMallocFrees.FreesTheBlock | driver/ave_ipc.c:419-442 | a free of a tracked block empties its entry, gives exactly its granules back and is answered once |
| ShMallocFrees.AllocatedAndFreed | driver/ave_ipc.c:413-467 | the address in the reply is found to be the block, and a free of it leaves table, pool and requests as they were before the allocation |
| ShMalloc.FiniEmptiesThePool | driver/ave_ipc.c:1202-1221 | fini frees every granule exactly if the recorded size of the channel block is the allocated one, to the granule |
| ShMalloc.FiniLosesExactly | driver/ave_ipc.c:890-896 | over any number of boots, fini leaves something exactly if this boot's channel block left less room than the info block needs, and the size remembered from before is another one |
| ShMalloc.StrictBootsLoseNothing | driver/ave_ipc.c:676-684 | with boot_lenient=0 and either ABI's sizes that never happens |
| ShMalloc.LeakWitness | driver/ave_ipc.c:890-896 | with boot_lenient=1, a first boot after which fini leaves granules allocated |
| ShMalloc.Shm.Remove | driver/ave_ipc.c:428-434 | the first entry of that address is cleared and its size returned, or nothing changes |
| ShMalloc.Shm.Insert | driver/ave_ipc.c:447-458 | the first empty entry is taken, or the table is full |
| Teardown.QuiesceIsSafe | driver/ave_drv.c:2410-2462 | the suspend path either stops the core and releases everything in order, or unmaps and gates nothing |
| Teardown.WorkInv | driver/ave_drv.c:2520-2557 | a resume boot that fails before the core is released gives everything back; after it, it keeps power and mappings |
| Teardown.NeverUnderALiveCore | driver/ave_drv.c:2375-2557 | in no run of interrupts, the SMMU watch's included, use, suspend, resume, remove and devres is anything unmapped or gated under an executing core, or a gated block touched |
| Teardown.SleepIsClean | driver/ave_drv.c:2464-2506 | the notifier lets a sleep go on exactly with everything stopped, released and off, and the device callback agrees |
| Teardown.CallbackGuards | driver/ave_drv.c:2584-2593 | the callback lets a sleep gate a live core exactly with pm_sleep=0 |
| Teardown.RemoveKeepsBothOrNeither | driver/ave_drv.c:2631-2796 | after remove and devres, everything is released and gated and the core stopped, or mappings and power both stay |
| TeardownEnds.QuiescesExactly | driver/ave_drv.c:2410-2462 | the suspend path stops a core and leaves nothing on exactly if it is not executing, or Stop, Close and Halt could be sent and stopped it, or the reset may be pulsed and did; else nothing is released |
| TeardownEnds.SleepsExactly | driver/ave_drv.c:2464-2506 | a sleep goes on exactly if the encoder is off already, or pm_sleep and a DAPF capture allow it and that holds; what is left in each case, a firmware given up on after a failed try included |
| TeardownEnds.BootsExactly | driver/ave_drv.c:2520-2557 | what each way a resume boot can end leaves; any but a full one gives the firmware up |
| TeardownEnds.SleepAndWake | driver/ave_drv.c:2464-2557 | an encoder that came down for a sleep and boots again is up, mapped and powered, with no client and not hung |
| TeardownEnds.RemovesExactly | driver/ave_drv.c:2631-2796 | remove takes everything down exactly if the encoder is off already, or the client is given back, the Halt landed or nothing ran, and the core has stopped; else it keeps everything as it is |
| TeardownCode.Encoder.DoQuiesceCore | driver/ave_drv.c:2410-2462 | its branches compute Teardown.QuiesceCore, and so everything is stopped, released and off, or nothing is released |
| TeardownCode.Encoder.DoPrepare | driver/ave_drv.c:2464-2506 | the same for the notifier, which lets a sleep go on only with the encoder off |
| TeardownCode.Encoder.DoWork | driver/ave_drv.c:2520-2557 | the same for the resume boot: all stays once the core was started, and all goes if it was not |
| TeardownCode.Encoder.DoRemove | driver/ave_drv.c:2631-2796 | the same for remove: mappings and power both go or both stay, and stay under an executing core |
| TeardownCode.Encoder.DoPowerOff | driver/ave_drv.c:1174-1224 | the last SMMU read, the interrupt, the last access, the gate, in that order; or the holder is abandoned |
| Binding.ChoosesTheLowestFree | driver/ave_v4l2.c:1430-1452 | an open gets its own encoder if that is free or nothing else is, else the free compatible one with the lowest instance |
| Binding.UsersAreCounted | driver/ave_v4l2.c:1447-1464 | in every run, until a re-probe comes under an open file, users = files open on the node + contexts bound, and every open file can be closed |
| Binding.ReprobedUnderAFileExactly | driver/ave_drv.c:1146-1177 | only a re-probe takes anything from an open file, and it does exactly if a file opened on that very node since the re-probe was decided on, by a close or by a sleep path, is still open |
| Binding.ReopenedBeforeTheWork | driver/ave_drv.c:1146-1157 | a run where it does after a last close |
| Binding.OpenedAfterTheLook | driver/ave_drv.c:2498-2503 | a run where it does after a sleep path's look |
| Binding.RecoversOnlyTheUnused | driver/ave_v4l2.c:1459-1470 | a close schedules a re-probe exactly of what it used, hung, with no file on its node and no context bound, given memory for the work item |
| Binding.IdleOneComesBack | driver/ave_drv.c:2498-2503 | a hung encoder nobody uses is renewed by a sleep path's look, the scheduling and the work item, and taken from nobody |
| Binding.ClosedOneComesBack | driver/ave_v4l2.c:1459-1470 | so is one whose last user closes while it hangs |
| Binding.EnoughForEverybody | driver/ave_v4l2.c:1424-1452 | with n interchangeable healthy encoders and never more than n files open, no two contexts share one |
| Binding.Registry.Bind | driver/ave_v4l2.c:1430-1452 | the list walk makes that choice, and counts it |
| Binding.Registry.Unbind | driver/ave_v4l2.c:1459-1470 | the counts after a close, and which re-probes it schedules |
| Session.SessionIsOwnership | driver/ave_v4l2.c:915-1032 | over all runs a context has a session exactly when it owns the encoder, so at most one has |
| Session.ResumeStartsAfresh | driver/ave_drv.c:2390-2401 | after a sleep anybody can start exactly if the resume boot got through, whatever was left open or hung before |
| Session.StartsExactly | driver/ave_v4l2.c:932-1014 | a context owns the encoder after a STREAMON exactly if it did before, or nobody did and the firmware was up, trusted, without a client and took it |
| Session.EndsExactly | driver/ave_v4l2.c:1017-1032 | the owner's ordinary end gives up ownership and session, and closes its client exactly if Stop and Close got through |
| Session.StartsAfterEnd | driver/ave_v4l2.c:1017-1032 | then, and only then, the next context can start without a sleep |
| Session.SleepsEnd | driver/ave_v4l2.c:1656-1684 | a sleep leaves no session, owner or client; a refused one no session or owner, and a client exactly if it could not be given back |
| Session.ServedExactly | driver/ave_v4l2.c:1017-1032 | the owner keeps its firmware client through every step but a stale end |
| Session.ServedWithoutSuspend | driver/ave_v4l2.c:1017-1032 | without a suspend no end is stale |
| Session.StaleEnd | driver/ave_v4l2.c:1656-1684 | a run with a stale end |
| Session.Encoder.StartStreaming | driver/ave_v4l2.c:932-1014 | who owns the encoder after a STREAMON, and when it fails |
| Session.Encoder.EndUnderLock | driver/ave_v4l2.c:1024-1031 | the locked half of an end |
| Session.Encoder.Quiesce | driver/ave_v4l2.c:1656-1684 | the suspend's end of the running session |
| Adt.VisitsAreFew | driver/ave_adt.c:69-87 | on any bytes a walk sees at most one node for every 8 bytes it covers; that every read is inside the buffer and every walk ends is part of the definitions being accepted |
| AdtWalk.Props | driver/ave_adt.c:30-66 | the loop finds the first property of that name, or the first child's offset |
| AdtWalk.SubtreeEnd | driver/ave_adt.c:69-87 | the recursion returns the end of the subtree, or the error |
| AdtWalk.Find | driver/ave_adt.c:156-236 | the whole search, on any bytes |
| AdtPrint.Printed | driver/ave_adt.c:5-11 | the printer's bytes hold the tree, field by field |
| AdtPrint.EndOfPrinted | driver/ave_adt.c:69-87 | on a printed tree within the limits, the walk returns exactly the end of the subtree |
| AdtPrint.EndsWellExactly | driver/ave_adt.c:69-87 | the walk over a printed subtree ends well exactly if no path down is longer than the limit |
| AdtPrint.PropOfPrinted | driver/ave_adt.c:52-60 | property lookup returns the first property of that name, or finds none |
| AdtPrint.FirstIsFirst | driver/ave_adt.c:121-131 | what the search over the tree means: the first match, and none before it |
| AdtPrint.FindAgrees | driver/ave_adt.c:156-236 | finding an encoder in a printed tree returns what searching the tree returns, errors included |
| AdtDepth.ReachedMeans | driver/ave_adt.c:121-131 | what a search over children comes to, by the first that matches and the first whose subtree is too deep: looked for by name, a match need not be walked itself |
| AdtDepth.FindsAtAnyDepth | driver/ave_adt.c:156-236 | finding an encoder in a printed tree of any depth returns what that search returns, the refusals included |
| AdtValues.Translates | driver/ave_adt.c:198-211 | through printed ranges a bus address becomes cpu + (bus - start) of the first range that holds it, or nothing |
| AdtValues.SegmentsComeBack | driver/ave_adt.c:222-231 | printed segments are read back in order, field by field |
| AdtValues.FindsWhatWasPrinted | driver/ave_adt.c:156-236 | in a tree printed from ranges, names and segments, the encoder found is the first one at that address, with its name and exactly those segments |
| AdtValues.FindsNothing | driver/ave_adt.c:184-235 | no encoder is found exactly if none is at that address, and the tree is refused exactly if the first one's segments are no list of at most four |
| AdtValues.NeedsRanges | driver/ave_adt.c:166-179 | without arm-io nothing is found; with one whose cells or ranges are wrong the tree is refused |
| AdtPreLoaded.PreLoadedExactly | driver/ave_adt.c:214 | for an encoder found in a printed tree, preloaded says the property is present, which is what is documented exactly if its first value, when there is one, is not 0 |
| AdtPreLoaded.ZeroIsPreLoaded | driver/ave_adt.h:26 | a tree where it is not |
| CodedHdr.Decode | driver/ave_cmd.c:1591-1698 | the loop over the records, in 32 bits, gives the reference answer for any header and any error |
| CodedHdr.Walk | driver/ave_cmd.c:1620-1681 | the running sums never leave 32 bits and less is removed than written, so the last test cannot fail |
| CodedHdr.SuccessMeans | driver/ave_cmd.c:1662-1697 | success means ascending, disjoint slices inside the span, a span within the coded buffer, and a length that is what slices and headers add up to |
| CodedHdr.SlicesTile | driver/ave_cmd.c:1670-1675 | offsets are sums of the counts before, so slices cannot overlap |
| CodedHdr.TheTableIsInside | driver/ave_abi.h:2336-2364 | with the real table all 256 records lie in the bytes that must be there |
| CodedHdrPrint.DecodesWhatWasPrinted | driver/ave_cmd.c:1591-1698 | a frame's records and scalars written into any header, each field at its own offset, come back as exactly those slices, sums and scalars if and only if they make sense and fit the coded buffer |
| CodedHdrPrint.RefusesTooMany | driver/ave_cmd.c:1668-1669 | a printed frame of more than 16 slices is too big if its first 17 make sense, and malformed if not |
| Binary64.BitsAreExact | driver/ave_cmd.c:127-138 | for every u32 the pattern stands for exactly that integer |
| Binary64.BitsRise | driver/ave_cmd.c:127-138 | a larger integer has the larger pattern |
| Binary64.ToBits | driver/ave_cmd.c:127-138 | the leading-bit loop computes it |

## Left out

* The one-frame job path, formats, controls, selection and events: straight-line code or the m2m core's.
* Register addresses, tables, firmware loading, cache maintenance, iommu mapping, logging and diagnostics.
* The OUTPUT sequence numbers, and that a coded key clears the request for one: a job's force flag is the environment's here.
* The command builders beyond the reference picture sets, and the session layer below its contract.
* Probe failures and staged loads, which gate power early on purpose.
* Weak memory, and the bytes inside a slot word: a slot is three 64-bit words, each written and read at once.
* Genpd, the PM core and devres beyond the order in which they call the driver; in `Teardown` a re-probe is the end of
  a run, and in `Binding` it succeeds. Unbinding a device through sysfs.
* Error kinds other than the ones listed in each `Result`: their numeric values and messages.
- GopRuns.FrameNumbering: does not model what happens once the 32-bit frameNumber wraps, after 2^32 / (nb + 1) pictures.
- GopRuns.JobInv: does not model the check that a batch has at most three frames, because nb is any number here.
- Teardown.NeverUnderALiveCore: does not cover system sleep with pm_sleep=0, which the driver does not guard; CallbackGuards says so.
- ShMalloc.FiniEmptiesThePool: does not count command buffers the session layer leaves in the pool after a timeout.
- Binding.ReprobedUnderAFileExactly: does not order the work item against the V4L2 core's own last use of a closed node.
- Mailbox.ExactlyOnce: covers one boot, from the reset of the mailbox fields to READY or failure.
- Adt.VisitsAreFew: does not model pointers beyond the buffer's length, offsets being unbounded integers here.
- AdtPrint.FindAgrees: covers trees up to the parser's depth limit of 16; AdtDepth.FindsAtAnyDepth covers the others.
- AdtDepth.FindsAtAnyDepth: covers printed nodes with at most 4096 properties and children, the parser's limits.
