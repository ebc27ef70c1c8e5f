# Verified model of the UAD-2 OCTO transport, loader and file formats

The model covers four parts of the repository and proves what they promise.

**DMA transport.** `Machine` describes the device as software sees it: the last
value written to each register, the bus-master bit, the pages a device may reach
and what a program holds, together with the history of every register access,
sleep and change of ownership. A device is any function from history to register
value, so it may answer every read as it likes. `TransportSpec` and
`LifecycleSpec` say what each driver operation does to a history; `Transport` is
the driver with its fields, loops and early exits, proved equal to them.
`TransportSafety` proves containment after every single write: an engine enabled
by the last DMA control value has its two rings published on its own eight
allocated pages. `LifecycleSafety` proves the same through every interleaving of
opens, requests, closes and the three parts of a removal, with reference counts
and unwinding. `TransportRefinement` shows that with a well-behaved device the
driver is a two-state machine, and `SilentDevice` and `ProbeRefinement` that a
successful probe is what puts it there. `UserSpec`, `UserBar` and `UserSafety` hold
what the user-space programs share: one mapped window, a mapped BAR, and how they
open the device and clean up. `OctoSpec` and `OctoProbe` model the start probe from
its first system call to its last, `OctoSafety` proves it contained in any
environment, `OctoRefinement` that it succeeds on a well-behaved device, and
`TraceEquivalence` that it and the driver emit the same writes.

**Answers.** What a program concludes is stated once more without the functions that
compute it, by the reads in its history. `Conversation` lists the reads of a history
and compares them with expectations; `TransportAnswers` and `RequestAnswers` do so for
the code of every driver operation, request and probe and for each field of a reply,
`UserAnswers`, `OctoAnswers` and `LoaderAnswers` for opening, cleanup and success of
the user-space programs. All of these hold on any device. `Steps` says where clearing
pages, bus mastering and sleeping stand among the register accesses.

**Loader.** `LoaderChain` has the memory a loader hands to the device and the
device's walk over the ring entries in it; `LoaderMemory` builds that memory in
place for the runtime loader and for both framings of the rejection probe.
`LoaderSpec` is a run of the runtime loader in an environment that chooses register
values, memory contents, signals and failing calls, and `LoaderRun` the program,
proved equal to it. `LoaderSafety` proves every write of a run contained, and
`LoaderSoundness` what the history of any run guarantees: the waits bounded in reads
it contains, its stages in order, its verdict about moments of its own (`Extension`
says what it means to continue a history). `LoaderRefinement` gives the exact
condition of success on a well-behaved device, `LoaderExample` a device on either
side of it, and `LoaderMain` joins chain and run.

**Bill resources.** `BillStream` is the generator behind the tail transform; its
exact period rests on `ModularPower`, `OrderCertificate` and `GeneratorPeriod`.
The generator is the recurrence of `minstd_rand` in section 26.5.5 of ISO/IEC
14882:2011. `BillContainer` parses, transforms and wraps resources, `BillScanner`
finds them in files, `BillPairs` pairs those of the two DSP generations.

**Tables and masks.** `StringPool`, `MsiTables` and `MsiColumns` read installer
tables and `MsiDatabase` joins them; `StartupProfile` derives interrupt and DMA
shadows.

`Common`, `Bytes` and `Bits` hold shared types, byte order and bitwise operations.

Five statements have a condition worth knowing:

- The dwords of a replacement stream repeat early for three ids only
  (`BillStream.FullPeriod`); `BillStream.Period` gives the exact length for each id.
  An id whose complement exceeds 2^31 - 1 gets one dword more than the order,
  because its first dword is not reduced.
- An integer equal to the bias of its column (0x8000 or 0x80000000) cannot be
  stored: its code is zero, which reads as null (`MsiTables.IntegerRoundTrip`).
- The two-state refinement needs a device whose indexes move only while their
  engine is enabled and behind the published position, or are cleared by a reset of
  all of DMA; `TransportRefinement.Benign` is that hypothesis. A probe of such a
  device succeeds exactly when it is at rest (`ProbeRefinement.ProbeSucceeds`), and
  `StoreIsAccepted` names one. Nothing about containment needs it.
- The loader finds the rings restored exactly when the reset of all of DMA clears the
  ring indexes, which software never writes (`LoaderRefinement.RestoredMeans`). A
  device that serves its rings but keeps its indexes gets the whole chain, and the
  run still fails (`LoaderExample.ServerLoads`).
- The exact success condition of an exercising start probe is about signals that last
  (`OctoAnswers.Lasting`): the program never clears the flag its handler sets.

## Model

| member | source | states |
|---|---|---|
| `Common.AddressRoundTrip` | kernel/uad2_compute.c:147-153 | splitting a page address over two 32-bit registers loses nothing, and a register pair reads back as an address exactly when it holds its two halves |
| `Machine.RingsDoNotAlias` | kernel/uad2_compute.c:49-52 | ring registers of the sixteen rings coincide only when DSP, ring and offset do, and none is a control register |
| `Machine.EngineBits` | kernel/uad2_compute.c:177-239 | the cold, reset and global-only control values enable no DSP engine, 0x1ff enables all eight |
| `Machine.SafeAtEveryPrefix` | kernel/uad2_compute.c:136-273 | a history is safe exactly when after each single step of it the step was legal and DMA is contained |
| `Transport.UadDevice.AllDspsReady` | kernel/uad2_compute.c:90-98 | reads the ready words in order and stops at the first that is not ready |
| `Transport.UadDevice.AllRingWordsZero` | kernel/uad2_compute.c:100-111 | reads all sixteen words of all sixteen rings in order, stopping at the first that is not zero |
| `Transport.UadDevice.ClearAllRings` | kernel/uad2_compute.c:113-122 | writes zero to words 0 to 9 of the sixteen rings, 160 writes in order and nothing else |
| `Transport.UadDevice.ColdPrecondition` | kernel/uad2_compute.c:124-134 | the six-part cold check with its reads in order and its short circuit |
| `Transport.UadDevice.InitializeRing` | kernel/uad2_compute.c:136-154 | seeds position and size registers with the bounded index that was read, then publishes the four page addresses |
| `Transport.UadDevice.RingsPublished` | kernel/uad2_compute.c:156-175 | reads every descriptor pair back and compares it with the page table, stopping at the first difference |
| `Transport.UadDevice.StartLocked` | kernel/uad2_compute.c:177-220 | history, started flag and code are those of the start specification, including rollback |
| `Transport.UadDevice.StopLocked` | kernel/uad2_compute.c:222-239 | history, started flag and code are those of the stop specification |
| `Transport.UadDevice.ResetDspLocked` | kernel/uad2_compute.c:241-273 | history, code and returned report are those of the reset specification |
| `Transport.UadDevice.HandleIoctl` | kernel/uad2_compute.c:275-386 | one request under the lock: new state, code and reply are those of its specification, the invariant holds again, and the request is answered, by the reads it made, as RequestAnswers.Answered states |
| `Transport.UadDevice.Dispatch` | kernel/uad2_compute.c:290-382 | the commands of a request, each with its ways out |
| `Transport.UadDevice.OpenFile` | kernel/uad2_compute.c:397-413 | an open is refused once removing or when no reference is left, otherwise takes one reference |
| `Transport.UadDevice.KrefPut` | kernel/uad2_compute.c:388-395 | drops one reference; only the last one frees name and structure |
| `Transport.UadDevice.ReleaseFile` | kernel/uad2_compute.c:415-422 | closing a file drops its reference |
| `Transport.UadDevice.FreeAllPages` | kernel/uad2_compute.c:435-452 | frees exactly the pages present, each once, and forgets them |
| `Transport.UadDevice.AllocatePages` | kernel/uad2_compute.c:454-472 | allocates in order up to the first failure and records exactly the pages granted |
| `Transport.UadDevice.SetUpDevice` | kernel/uad2_compute.c:495-551 | acquires in order and on any failure unwinds through the matching label |
| `Transport.UadDevice.BeginRemove` | kernel/uad2_compute.c:558 | the first part of a removal takes the device node away only |
| `Transport.UadDevice.LockedRemove` | kernel/uad2_compute.c:559-569 | under the lock: mark, stop, free pages, unmap, release, disable |
| `Transport.UadDevice.FinishRemove` | kernel/uad2_compute.c:570-571 | the last part drops the reference of the binding |
| `Transport.ProbeDevice` | kernel/uad2_compute.c:474-551 | history and code of a probe; a device is bound exactly on success, in the state a fresh driver has |
| `TransportSafety.InitDspsKeeps` | kernel/uad2_compute.c:194-203 | bringing up DSPs 0 to n-1 enables exactly those, every one with both rings fully published on its own pages, and no step on the way exposes anything else |
| `TransportSafety.QuiesceStops` | kernel/uad2_compute.c:228-236 | bringing the engines down is safe write by write and ends cold with bus mastering off |
| `TransportSafety.StartIsSafe` | kernel/uad2_compute.c:177-220 | for any device: every step of a start keeps each enabled engine on its own eight allocated pages; it ends running with all engines published or stopped, and reports success exactly when running |
| `TransportSafety.StopIsSafe` | kernel/uad2_compute.c:222-239 | for any device: a stop is contained at every step and always ends stopped, whatever the recovery check says |
| `TransportSafety.ResetIsSafe` | kernel/uad2_compute.c:241-273 | for any device: a reset keeps containment at every step and the transport in the state it was in |
| `TransportSafety.PulseBits` | kernel/uad2_compute.c:251-261 | the bits of the two intermediate control values: seven engines stay enabled, one reset bit at most |
| `TransportRefinement.StoreIsBenign` | kernel/uad2_compute.c:79-88 | a device that stores what is written is well behaved, and at rest before anything happens |
| `TransportRefinement.StartRuns` | kernel/uad2_compute.c:177-220 | on a benign device at rest a start succeeds and leaves it running |
| `TransportRefinement.StopRests` | kernel/uad2_compute.c:113-134 | a stop re-establishes the complete cold predicate although it clears ten of the sixteen words checked |
| `TransportRefinement.ResetRuns` | kernel/uad2_compute.c:241-273 | on a benign running device a reset answers by its arguments alone and leaves it running |
| `TransportRefinement.StepRefines` | kernel/uad2_compute.c:177-273 | each call returns what the two-state machine returns and lands in the matching mode |
| `TransportRefinement.DriverRefinesMachine` | kernel/uad2_compute.c:177-273 | from a transport at rest or running, every sequence of start, stop and reset calls returns the codes of the two-state machine |
| `SilentDevice.SilentView` | kernel/uad2_compute.c:79-88 | a well-behaved device that nothing was written to shows what it showed at first |
| `SilentDevice.PolledRest` | kernel/uad2_compute.c:124-134 | control, identity, ring and ready words read as a cold check wants them mean a device at rest |
| `ProbeRefinement.ColdMeansRest` | kernel/uad2_compute.c:124-134 | before anything is written the cold check passes exactly when the device is at rest |
| `ProbeRefinement.ProbeSucceeds` | kernel/uad2_compute.c:474-551 | a probe of a well-behaved device succeeds exactly when every kernel call does and the device is at rest |
| `ProbeRefinement.ProbeRests` | kernel/uad2_compute.c:474-551 | a device that a probe accepted is at rest behind it, with the pages of the driver in place |
| `ProbeRefinement.BoundDriverRefinesMachine` | kernel/uad2_compute.c:275-386 | after a successful probe of a well-behaved device every sequence of start, stop and reset requests is answered like the two-state machine |
| `ProbeRefinement.StatusTells` | kernel/uad2_compute.c:312-345 | a status request reports ready, no work pending, and DMA enabled exactly while the transport runs |
| `ProbeRefinement.StoreIsAccepted` | kernel/uad2_compute.c:474-551 | the hypotheses can be met: a device that stores what is written is accepted by every probe whose kernel calls succeed |
| `LifecycleSafety.ProbeIsSafe` | kernel/uad2_compute.c:474-551 | every failing probe releases exactly what it acquired, each thing once; a successful one leaves a stopped bound device |
| `LifecycleSafety.IoctlKeeps` | kernel/uad2_compute.c:275-386 | every request keeps the driver invariant; once removing a request changes nothing and is refused |
| `LifecycleSafety.TearDownKeeps` | kernel/uad2_compute.c:559-569 | a removal stops, frees and unmaps with DMA cold, also when a start came between deregistration and the lock |
| `LifecycleSafety.ActKeeps` | kernel/uad2_compute.c:275-571 | each of open, request, close and the three parts of a removal keeps the driver invariant |
| `LifecycleSafety.LifecycleIsSafe` | kernel/uad2_compute.c:275-571 | over every interleaving and any device: legal and contained after each step; bus mastering on exactly when started; references are open files plus one while bound; after removal nothing mapped, allocated or enabled; the structure is freed once, with the last reference |
| `TransportAnswers.RegisterTables` | kernel/uad2_compute.c:49-57 | register banks and ready words are those of the two tables |
| `TransportAnswers.VerdictSpelled` | kernel/uad2_compute.c:206-207 | the reads a verdict expects, by DSP, ring and page: control 0x1ff, both halves of each page address, each ready word odd |
| `TransportAnswers.StartAnswers` | kernel/uad2_compute.c:177-220 | any device: a start succeeds exactly when every read of precondition, bring-up and verdict was made and met, is busy exactly when the device was not found cold, and fails otherwise |
| `TransportAnswers.StopAnswers` | kernel/uad2_compute.c:222-239 | any device: a stop reports an error exactly when a read of the recovery check missed |
| `TransportAnswers.ResetAnswers` | kernel/uad2_compute.c:241-273 | any device: busy at the first read, success exactly when all five reads are as expected, and a report made of the fourth and fifth |
| `RequestAnswers.IoctlAnswers` | kernel/uad2_compute.c:275-386 | any device, every request: each early exit has its code, no reply and no effect, unprivileged ones among them; every other answer and each reply field is stated by the reads the request added |
| `RequestAnswers.UnprivilegedOnlyRead` | kernel/uad2_compute.c:346-362 | whatever is done without the capability, in any order, writes no register and changes neither transport nor removal |
| `RequestAnswers.RemovedIsSilent` | kernel/uad2_compute.c:553-571 | after removal took the lock no register is accessed and no file opened any more |
| `RequestAnswers.ProbeAnswers` | kernel/uad2_compute.c:474-551 | any device: a probe answers with the code of its first failing call, reads only for its precondition and writes nothing |
| `Steps.StartSteps` | kernel/uad2_compute.c:185-216 | a start clears the pages, turns bus mastering on and only then writes; a rolled back one turns it off at the very end, a refused one does neither |
| `Steps.StopSteps` | kernel/uad2_compute.c:228-235 | a stop turns bus mastering off once, behind its last write |
| `Steps.ResetSteps` | kernel/uad2_compute.c:259-264 | a reset sleeps once, between disabling the engine and enabling it again |
| `TraceEquivalence.DriverStartWrites` | kernel/uad2_compute.c:193-216 | a start writes its 174 values, and after a failed verdict exactly the 165 of a stop |
| `TraceEquivalence.DriverStopWrites` | kernel/uad2_compute.c:228-236 | a stop writes exactly the list that returns to the cold state |
| `TraceEquivalence.ProbeStartWrites` | tools/vfio_full_octo_start.c:304-322 | the startup of the probe writes the same list, with pages in its window |
| `TraceEquivalence.ProbeCleanupWrites` | tools/vfio_full_octo_start.c:357-366 | the cleanup of the probe writes exactly the stop list |
| `TraceEquivalence.DriverAndProbeWriteTheSame` | kernel/uad2_compute.c:193-236 | pages placed in the window and equal indexes read: driver and probe emit the same start and the same stop, write for write, on whatever devices |
| `TraceEquivalence.StartupCount` | tools/vfio_full_octo_start.c:304-364 | a startup is 174 writes and a cleanup 165 on every device |
| `TraceEquivalence.PulseIsolates` | kernel/uad2_compute.c:251-260 | each control value of a reset leaves the seven other engines enabled and their reset bits clear |
| `TraceEquivalence.ResetWrites` | kernel/uad2_compute.c:241-273 | past its checks a reset writes pulse, pause and 0x1ff whatever the device reports; a refused one writes nothing; it passes its checks exactly when started, in range, without flags and with control at 0x1ff |
| `TraceEquivalence.ResetsAreIsolated` | kernel/uad2_compute.c:241-273 | over any sequence of resets the writes are isolated pulses, each ended by 0x1ff |
| `TraceEquivalence.PassMask` | tools/vfio_full_octo_start.c:325-347 | after k passes the mask is 2^(k+1) - 2, and the loop goes on exactly while no pass failed and no signal came |
| `TraceEquivalence.FullPass` | tools/vfio_full_octo_start.c:325-347 | the mask is 0x1fe exactly when all eight engines passed, at 24 writes |
| `UserBar.MappedBar.InitializeRing` | tools/vfio_full_octo_start.c:86-99 | writes both positions and the four consecutive page addresses |
| `UserBar.MappedBar.AllDspsReady` | tools/vfio_full_octo_start.c:101-110 | reads ready words in order, stopping at the first not ready |
| `UserBar.MappedBar.AllRingWordsZero` | tools/vfio_full_octo_start.c:112-127 | reads 256 ring words in order, stopping at the first nonzero |
| `UserBar.MappedBar.ClearAllRings` | tools/vfio_full_octo_start.c:154-166 | the 160 clearing writes |
| `UserBar.MappedBar.Restore` | tools/vfio_full_octo_start.c:358-366 | the quiescing exchange and whether the rings were found restored |
| `UserBar.MappedBar.Open` | tools/vfio_runtime_load.c:328-352 | how far mapping the window, opening the device and mapping the BAR got, call by call |
| `UserBar.MappedBar.CleanUp` | tools/vfio_runtime_load.c:454-493 | flags and history of the cleanup from any point: restore if started, reset, unmap BAR, close, unmap window |
| `UserSafety.OpeningSettles` | tools/vfio_runtime_load.c:328-352 | opening writes no register and holds exactly what its flags say |
| `UserSafety.CleaningSettles` | tools/vfio_runtime_load.c:454-493 | cleaning up is legal and contained step by step, the window goes last, from a cold device with cleared rings and no BAR |
| `OctoProbe.BoundedIndexOf` | tools/vfio_full_octo_start.c:80-84 | an index out of range counts as zero |
| `OctoProbe.Gate` | tools/vfio_full_octo_start.c:295-302 | history and verdict of the baseline gate, up to the first check that fails |
| `OctoProbe.StartUp` | tools/vfio_full_octo_start.c:304-322 | the whole startup exchange, and the bounded indexes it has seen |
| `OctoProbe.AllRingsMatch` | tools/vfio_full_octo_start.c:129-152 | reads positions and pages of all rings back and stops at the first difference |
| `OctoProbe.ExerciseResets` | tools/vfio_full_octo_start.c:325-347 | history, pass mask and verdict of the reset loop, which a signal ends |
| `OctoProbe.Explore` | tools/vfio_full_octo_start.c:304-355 | startup, read-back, exercise and every finding of the verdict |
| `OctoProbe.RunProbe` | tools/vfio_full_octo_start.c:191-420 | verdict, pass mask, number of register writes and history of the whole program |
| `OctoSafety.StartupKeeps` | tools/vfio_full_octo_start.c:304-322 | startup is contained write by write and ends with every engine enabled on its own pages |
| `OctoSafety.FindingKeeps` | tools/vfio_full_octo_start.c:304-355 | startup, read-back and resets are contained write by write, whatever the device answers |
| `OctoSafety.ProbeRunIsSafe` | tools/vfio_full_octo_start.c:191-420 | in any environment a run keeps the rules at every step, unmaps only from a cold device with cleared rings, writes nothing before startup and then 339 registers, 363 after eight passed resets; a successful run keeps nothing and has restored, recovered and unmapped |
| `OctoRefinement.RingsReadBack` | tools/vfio_full_octo_start.c:129-152 | on a well-behaved device with no work pending the rings read back as published |
| `OctoRefinement.GateMeansRest` | tools/vfio_full_octo_start.c:295-302 | the gate passes on a well-behaved device exactly when the device is at rest |
| `OctoRefinement.FindingSucceeds` | tools/vfio_full_octo_start.c:304-355 | on a well-behaved device with no signal and untouched pages every finding is favourable and all eight resets pass |
| `OctoRefinement.ProbeRunSucceeds` | tools/vfio_full_octo_start.c:191-420 | with such a device a run begins exactly when the device is at rest, and its success then depends on the device reset and the unmapping alone |
| `UserAnswers.OpeningAnswers` | tools/vfio_full_octo_start.c:245-275 | the BAR is mapped exactly when mapping, opening, validation and BAR mapping succeed, each at its moment |
| `UserAnswers.CleaningAnswers` | tools/vfio_full_octo_start.c:357-377 | a cleanup reports everything undone exactly when device reset and unmapping were granted and every read of both checks was made and met |
| `OctoAnswers.LoopAsks` | tools/vfio_full_octo_start.c:318-344 | the reset exercises end by a failed pass, by a signal, or after the eighth with every read met |
| `Steps.LoopSteps` | tools/vfio_full_octo_start.c:319-344 | every reset exercise sleeps once, passed or failed |
| `OctoAnswers.FindingAnswers` | tools/vfio_full_octo_start.c:294-355 | what is found is favourable exactly when every read up to the verdict was made and met, the pages are intact behind the last sleep, and no signal is pending |
| `OctoAnswers.ProbeRunAnswers` | tools/vfio_full_octo_start.c:220-420 | any environment whose signals last: a run begins exactly when all calls succeed and the baseline reads are met, and succeeds exactly when every read is as scripted, each page still holds its fill, no signal is pending and everything was undone; the verdict is about a moment of this run, before the cleanup writes |
| `LoaderChain.FlagAdds` | tools/vfio_runtime_load.c:147-153 | or-ing the descriptor flag into a length below it adds it |
| `LoaderChain.SpanOfDescriptor` | tools/vfio_runtime_load.c:147-153 | a device taking a descriptor apart gets the page and length it was made of |
| `LoaderChain.SpansApart` | tools/vfio_runtime_load.c:284-296 | descriptors stay inside the mapped window and on one 4 KiB page, behind rings and response page, and never overlap |
| `LoaderChain.GatherTheorem` | tools/vfio_runtime_load.c:276-298 | walking the published entries gives the header words and then the payload the named pages hold, for every payload size the ring has room for |
| `LoaderChain.GatherIgnoresResponse` | tools/vfio_runtime_load.c:441-448 | memories that differ in the response words at most yield the same walk |
| `LoaderChain.PublishedCommands` | tools/vfio_runtime_load.c:276-282 | every command ring begins with the connect command and the first one goes on with the clock, whose remaining words are left alone |
| `LoaderMemory.SetDescriptor` | tools/vfio_runtime_load.c:147-153 | stores the four words of a descriptor and nothing else |
| `LoaderMemory.Publish` | tools/vfio_runtime_load.c:276-296 | the in-place stores of connects, clock, response, header and payload descriptors are the published memory |
| `LoaderMemory.BuildChain` | tools/vfio_runtime_load.c:229-298 | refused exactly when the chain exceeds one ring; otherwise walking up to the command position gives command, size word and the whole payload, and the response buffer is still untouched; connects and clock stand in front |
| `LoaderMemory.HbutFits` | tools/vfio_runtime_load.c:164-170 | the one accepted image needs 625 payload entries and fits |
| `LoaderMemory.BuildRejection` | tools/vfio_loader_rejection.c:218-352 | file sizes and single-buffer limit are refused exactly; the chained framing reads as command then payload, the single buffer as command, response class, payload |
| `LoaderSafety.LoaderStartupKeeps` | tools/vfio_runtime_load.c:361-377 | bring-up is contained write by write and ends with every engine enabled on its own pages |
| `LoaderSafety.LoaderStartupWrites` | tools/vfio_runtime_load.c:361-377 | bring-up writes what driver and start probe write for rings whose indexes read zero |
| `UserSafety.RestoreClears` | tools/vfio_runtime_load.c:454-461 | restoring is contained write by write and leaves a cold device with every cleared ring word at zero |
| `LoaderRun.Gate` | tools/vfio_runtime_load.c:353-359 | history and verdict of the baseline gate, which only reads and stops at the first register that disagrees |
| `LoaderRun.ConnectsConsumed` | tools/vfio_runtime_load.c:389-395 | reads all eight command indexes whatever the earlier ones say; consumed exactly when each has its expected value |
| `LoaderRun.SetUp` | tools/vfio_runtime_load.c:302-359 | flags and history of every way through the setup |
| `LoaderSoundness.SettingUpSettles` | tools/vfio_runtime_load.c:302-359 | up to the gate nothing is written, and exactly what the flags say is mapped, open and in use |
| `LoaderRun.StartUp` | tools/vfio_runtime_load.c:361-377 | the register writes of bring-up, in order |
| `LoaderRun.SendConnects` | tools/vfio_runtime_load.c:378-387 | the writes of all connects with their interrupt shadows, and the clock |
| `LoaderRun.AwaitConnects` | tools/vfio_runtime_load.c:388-401 | the loop is the bounded wait of its specification: verdict, number of turns and every access and sleep |
| `LoaderSoundness.AwaitingReads` | tools/vfio_runtime_load.c:388-401 | each turn adds exactly one read of every command index to the history; at most 3000 turns, and it ends unconsumed only by a signal or at that limit |
| `LoaderAnswers.AwaitingMeans` | tools/vfio_runtime_load.c:388-401 | the connects count as consumed exactly when the last turn read every command index at its position, 2 for the first DSP and 1 for the others; no earlier turn did |
| `Steps.AwaitingSteps` | tools/vfio_runtime_load.c:388-399 | the wait sleeps once a turn, but not after the turn that found the connects consumed |
| `LoaderRun.Wait` | tools/vfio_runtime_load.c:412-428 | the loop is the bounded wait of its specification: progress flag, number of turns and every access and sleep |
| `LoaderSoundness.WaitingReads` | tools/vfio_runtime_load.c:412-428 | each turn adds exactly one read of the command index to the history; the progress flag is about those reads; the wait ends complete, by a signal, or after exactly 150000 turns, 5000 when no read showed progress |
| `Steps.WaitingSteps` | tools/vfio_runtime_load.c:412-428 | the wait sleeps once a turn, but not after the turn that found it complete or gave up for want of progress |
| `LoaderRun.Submit` | tools/vfio_runtime_load.c:403-410 | response position before command position, each followed by its interrupt line |
| `LoaderRun.Judge` | tools/vfio_runtime_load.c:429-452 | the verdict of its specification, with the moments it is about: when the response is copied and when the memory is compared |
| `LoaderSoundness.DeliveredMeans` | tools/vfio_runtime_load.c:429-452 | a chain counts as delivered exactly when, after the wait, both positions are reached with a response of the class of the loader, then all DSPs are ready, then every word but the response is unchanged, without a signal |
| `LoaderAnswers.JudgingAnswers` | tools/vfio_runtime_load.c:429-452 | the verdict is favourable exactly when the reads behind the wait were made and met, the response is of the class of the loader and no canary, the rest of the memory unchanged, and no signal pending |
| `LoaderSoundness.TransferKeeps` | tools/vfio_runtime_load.c:403-452 | submission, wait and verdict follow each other in one history, contained write by write; the wait is bounded in reads made since the submission |
| `LoaderRun.Drive` | tools/vfio_runtime_load.c:361-452 | bring-up, connects and, once those are consumed, submission, wait and verdict, in that order and as one history |
| `LoaderRun.Load` | tools/vfio_runtime_load.c:302-493 | a whole run in any environment is the run of its specification, with all the guarantees of the next row |
| `LoaderSoundness.LoadIsSafe` | tools/vfio_runtime_load.c:302-493 | any environment: every step contained, window unmapped only from a cold device with cleared rings and no BAR, one of three fixed write lists; waits bounded in reads the history contains; the moments of connects, submission, wait, answer and check are prefixes of this history in that order, and behind the check only the cleanup writes; success exactly when the chain was delivered and restore, reset and unmap succeeded |
| `LoaderAnswers.LoadAnswers` | tools/vfio_runtime_load.c:302-493 | any environment: a run begins exactly when all calls succeed and the baseline reads are met, hands the chain over exactly when the last turn of the wait agreed, and succeeds exactly when then the verdict is approved and everything undone |
| `LoaderRefinement.RestoredMeans` | tools/vfio_runtime_load.c:454-464 | on a well-behaved device the rings are found restored exactly when the reset of all of DMA cleared every index |
| `LoaderRefinement.LoadSucceeds` | tools/vfio_runtime_load.c:302-493 | with a well-behaved device at rest that consumes the connects and reaches both positions within the bounds and answers, the chain is delivered, and success is exactly: that reset clears the indexes, and device reset and unmapping succeed |
| `LoaderExample.ServerLoads` | tools/vfio_runtime_load.c:302-493 | two named devices that serve their rings at once: on both the chain is delivered, and the run restores the rings and can succeed on the one whose indexes the reset clears, never on the one that keeps them |
| `LoaderMain.RuntimeLoad` | tools/vfio_runtime_load.c:229-493 | a payload too long for one ring is refused before anything happens; any other run has the guarantees of the run above, and when it succeeds, the moment of this history at which the memory was compared lies before the first write of the cleanup, and the device walk there still gave exactly header and payload |
| `ModularPower.PowerSum` | tools/inspect_bill_container.py:19-26 | powers of the multiplier add in the exponent |
| `OrderCertificate.OrderFacts` | tools/inspect_bill_container.py:15-16 | 48271 returns to one at 2^31 - 2 and at none of its quotients by 2, 3, 7, 11, 31, 151 and 331 |
| `GeneratorPeriod.OrderIsLeast` | tools/inspect_bill_container.py:15-16 | 2^31 - 2 is the least exponent at which the multiplier returns to one |
| `GeneratorPeriod.PowersAgree` | tools/inspect_bill_container.py:15-26 | two powers agree exactly when their exponents agree modulo 2^31 - 2 |
| `GeneratorPeriod.EveryResidue` | tools/inspect_bill_container.py:15-16 | every nonzero residue is a power of the multiplier |
| `BillStream.ReplacementStream` | tools/inspect_bill_container.py:19-26 | the loop yields the big-endian stream of states |
| `BillStream.StateIsPower` | tools/inspect_bill_container.py:19-26 | dword k is the complemented id times 48271^k modulo 2^31 - 1 and all but the first are reduced |
| `BillStream.DistinctUpToPeriod` | tools/inspect_bill_container.py:19-26 | the leading n dwords are pairwise distinct exactly when n is within the period of the id |
| `BillStream.FullPeriod` | tools/inspect_bill_container.py:19-26 | all streams of up to 2147483646 dwords are free of repetition exactly for ids other than 0xffffffff, 0x80000000 and 0x00000001 |
| `BillContainer.ParseSerialized` | tools/inspect_bill_container.py:29-57 | parsing a serialized resource recovers its header and accepts exactly the well-formed ones |
| `BillContainer.AcceptedIsSerialized` | tools/inspect_bill_container.py:29-57 | every accepted resource is the serialization of its own header and body |
| `BillContainer.TransformKeepsHeader` | tools/inspect_bill_container.py:55-83 | the transform keeps size, header and at least 52 leading bytes; its result parses to the same description, reports itself transformed and is its own transform |
| `BillContainer.TransformMeans` | tools/inspect_bill_container.py:55-82 | byte 10 alone decides: zero leaves the resource as it is, anything else replaces the last dwords by the stream and reports whether they were it |
| `BillContainer.RefusalMeans` | tools/inspect_bill_container.py:29-54 | exactly which bytes are accepted, and for each refusal what is wrong where everything checked before is right |
| `BillContainer.CommandRoundTrip` | tools/inspect_bill_container.py:85-103 | direction, offset and transformed resource come back from every command that is built; the low half of its first word is its length in dwords |
| `BillContainer.CommandMeans` | tools/inspect_bill_container.py:85-103 | exactly when a command can be built, and the first reason when it cannot |
| `BillContainer.CommandsAgree` | tools/inspect_bill_container.py:85-103 | two commands are equal exactly when direction, offset and transformed resource are |
| `BillContainer.TransformedCommand` | tools/inspect_bill_container.py:85-103 | the transformed resource is sent as the very same command |
| `BillScanner.Find` | tools/scan_bill_resources.py:26-30 | the first occurrence of the magic at or behind a position, or -1 when there is none |
| `BillScanner.ScanBytes` | tools/scan_bill_resources.py:22-53 | the search loop reports what the offset-by-offset scan reports |
| `BillScanner.ScanReportsOffsets` | tools/scan_bill_resources.py:22-53 | each report describes the resource at its offset |
| `BillScanner.CandidateMeans` | tools/scan_bill_resources.py:31-51 | a resource starts where some whole number of dwords, at most a mebibyte and within the file, is accepted by the parser; that size is unique and reported |
| `BillScanner.ScanIsGreedy` | tools/scan_bill_resources.py:22-53 | a list of offsets is the one scanned exactly when it is in order, apart, valid, and every valid candidate is in it or starts strictly inside one of it |
| `BillScanner.ScanRoundTrip` | tools/scan_bill_resources.py:22-53 | resources laid out between fillers without the magic are reported exactly, at their running offsets, whatever their bodies hold |
| `BillPairs.AdjacentGenerationPairs` | tools/analyze_bill_resources.py:235-245 | the loop over files and neighbours takes the left-to-right pairs |
| `BillPairs.PairingIsLargest` | tools/analyze_bill_resources.py:235-245 | the pairs taken are disjoint matching neighbours, none twice, each of one resource of either generation, and no set of disjoint matching neighbours is larger |
| `StringPool.LoadStringPool` | tools/inspect_msi_tables.py:45-75 | the loop returns the strings or the first error of the two streams |
| `StringPool.PoolRoundTrip` | tools/inspect_msi_tables.py:45-75 | any list of short, escaped and empty entries is decoded to itself behind the empty string |
| `StringPool.AcceptedPool` | tools/inspect_msi_tables.py:45-75 | every accepted pool is the encoding of what it yields, and the strings join to exactly the data stream |
| `MsiTables.IntegerRoundTrip` | tools/inspect_msi_tables.py:78-81 | every integer of a width survives its code except the bias, whose code is null; every raw value survives decoding and encoding |
| `MsiTables.ReadTable` | tools/inspect_msi_tables.py:108-135 | the loops return the rows of the table or its error |
| `MsiTables.TableRoundTrip` | tools/inspect_msi_tables.py:108-135 | any rows over any schema of distinct names, with nulls and string references, are read back unchanged |
| `MsiTables.SlicesPartition` | tools/inspect_msi_tables.py:116-129 | the column slices join to exactly the stream and each column is decoded from its own |
| `MsiTables.TableMeans` | tools/inspect_msi_tables.py:110-128 | exactly which tables are read, and which of three errors each other one gets |
| `MsiTables.CellOf` | tools/inspect_msi_tables.py:119-136 | with distinct names a cell is what the raw value of its column and row stands for: pooled string, null, or flipped integer |
| `MsiColumns.ReadColumns` | tools/inspect_msi_tables.py:84-105 | the loops return the catalogue or its first error |
| `MsiColumns.CatalogueMeans` | tools/inspect_msi_tables.py:84-107 | exactly which catalogues are read; otherwise the first row that cannot be read decides the error |
| `MsiColumns.CatalogueRoundTrip` | tools/inspect_msi_tables.py:84-105 | an encoded catalogue gives each table its columns ordered by number, equal numbers in catalogue order |
| `MsiColumns.SchemaRoundTrip` | tools/inspect_msi_tables.py:84-105 | a schema stored in column order is read back as that schema, whatever else the catalogue holds |
| `MsiDatabase.DatabaseRoundTrip` | tools/inspect_msi_tables.py:45-135 | strings, schema and rows of a table come back through the three readers in turn |
| `MsiColumns.SortKeeps` | tools/inspect_msi_tables.py:103-104 | sorting orders by number and keeps the order of equal numbers |
| `MsiColumns.SortIsUnique` | tools/inspect_msi_tables.py:103-104 | those two properties leave one result only |
| `StartupProfile.Signed32` | tools/decode_startup_profile.py:12-14 | the representative modulo 2^32 between -2^31 and 2^31 - 1 |
| `StartupProfile.Decode` | tools/decode_startup_profile.py:17-78 | every field of the decoded profile, the three built by loops included |
| `StartupProfile.CapabilityFields` | tools/decode_startup_profile.py:17-24 | the DSP count is byte 1 of the capabilities of a modern device and four before; the mapping is compressed from five on |
| `StartupProfile.CompressionIsBijective` | tools/decode_startup_profile.py:36-46 | logical vectors other than the fifth of each group correspond one to one to lines 0 to 4n - 1 |
| `StartupProfile.CallbackMask` | tools/decode_startup_profile.py:48-53 | 15 times the compressed callback mask is 12 * (16^n - 1), 31 times the plain one 28 * (32^n - 1), for any DSP count |
| `StartupProfile.QueryMask` | tools/decode_startup_profile.py:55-59 | the query shadow adds lines 0 and 1 and nothing else, and is zero without DSPs |
| `StartupProfile.DmaShadow` | tools/decode_startup_profile.py:60-62 | after DSP d the DMA shadow is 2^(d+2) - 1 |
| `StartupProfile.EightDsps` | tools/vfio_full_query.c:34-39 | for the one supported device the derived values are 8 DSPs, 0xcccccccc, 0xcccccccf and 0x1ff |
| `StartupProfile.InterruptWrites` | tools/vfio_full_query.c:318-358 | the interrupt-enable values of a query, with and without connects |
| `StartupProfile.ConnectLines` | tools/vfio_full_query.c:318-326 | connecting sets the line of each DSP's command vector, 4 * dsp, in turn and clears none |
| `StartupProfile.ConnectWriteLines` | tools/vfio_full_query.c:318-326 | the d-th connect write enables the callback lines and the command lines of DSPs 0 to d, no others |
| `StartupProfile.QueryAfterConnect` | tools/vfio_full_query.c:347-358 | a query behind a connect enables the query lines and all command lines, no others |

## Left out

- System calls of VFIO, PCI, mmap and the kernel: each is an outcome that may be success or failure, chosen freely; file descriptors, the misc device and the user buffers of requests are not modelled beyond that.
- Page contents in the driver: clearing the 64 ring pages before a start is one event, and the page table is one sequence of 64 addresses in row-major order.
- Transport.UadDevice.OpenFile: an open is possible as long as the structure exists, which allows more interleavings than the misc subsystem does after deregistration.
- Transport.UadDevice.HandleIoctl: the constant and PCI-identity fields of the information reply are not modelled.
- The lock itself: each operation under it is one step, and a removal is three, because deregistration and the final put run outside it.
- OctoProbe.RunProbe: the program's counter of register writes is the number of writes in the history, not a variable of its own; page locking and filling the canaries are one call that may fail, and the pages are compared in words of four equal bytes.
- LoaderRun.Load: the program's own memory is not given back, here and in the start probe, since that happens after the run has been judged; when unmapping the window fails it stays mapped until the container is closed, which is not modelled.
- LoaderRun.Load: file reading, page locking and the structure check of the image are one call that may fail; `LoaderMemory.ExactHbut` states the structure check.
- LoaderMemory.BuildChain: the clock word is a parameter; how a date is packed into it is not modelled.
- LoaderMemory.BuildRejection: the run of the rejection probe after its memory is built is the runtime loader's with 67 pages, a 3000-turn wait and one more interrupt write; only its memory is modelled.
- The query probe's ring traffic, apart from its interrupt-enable values.
- StringPool.LoadStringPool: strings stay bytes; decoding them with the code page of the pool is left to a library in the tool and not modelled.
- MsiColumns.ReadColumns: the catalogue is a map, so the order in which tables first appear is not kept.
- Digests and entropy figures in the reports of the Bill tools; a report carries every other field.
- Aligned-block statistics and distributions of the resource analysis: only its pairing loop is modelled.
- Signature inspectors of vendor binaries, shell wrappers and the user-space client library: constant tables and thin wrappers.
