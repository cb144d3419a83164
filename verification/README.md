# Image Factory: verified models

Dafny models of the parts of Image Factory whose correctness is not visible from
reading one function, with proofs about every input, every run or every
interleaving. `dafny verify dfyconfig.toml` checks all of it.

| files | component |
|---|---|
| `Basics`, `Bytes` | shared definitions; big-endian numbers, checksums and `struct.pack` |
| `VhdGeometry`, `VhdFormat`, `VhdLayout`, `VhdWriter`, `VhdReader` | the raw-to-VHD converter, and an independent reader of its output |
| `CallbackWorker`, `CallbackSystem`, `CallbackShutdown`, `CallbackProgress`, `CallbackDelivery`, `CallbackSampling`, `CallbackExact`, `Notifications` | status changes, the notification centre, and the callback workers |
| `Pipeline` | base, target and push builds that wait for each other by `join` or by polling the store |
| `Reservations`, `CompressOnce` | disk-space reservations, ports, named locks, and the compress-once section |
| `Router`, `Chunked`, `PathShift` | the in-tree web layer: route matching, chunked bodies, path shifting |
| `Plugins` | loading plugins and finding one for a target |

**Form.** Code that updates an object is a class whose methods are proved against
functions of its state; what the code is for is proved about those functions.
Concurrent protocols are step relations with one program counter per thread, where
each lock operation and each shared read or write is a step of its own; the theorems
hold for every sequence of steps. The classes of `CallbackWorker` and the step
relation of `CallbackSystem` use the same state functions.

**Main results.** A converted VHD, read back from its bytes by a reader written from
the Virtual Hard Disk Image Format Specification, is the input. Shutting down a
callback worker never strands it: it drains its queue and stops within a bound, and the
locks never block the build that shuts it down forever. With any number of threads that
set the image's status, a worker that is registered and removed with no assignment under
way attempts exactly the changes in between, each once and in order, if and only if no
report to it is made while a second one is open; setters that take turns meet that. In
any case it attempts statuses that the image had, in that order, and ends with the
current one. No target or provider image completes before the image it depends on was
imported, or completed by its own build, exactly unless the joined build was killed.
Free space never falls below a mount's minimum while callers keep to their reservations.
At most one builder compresses an image at a time, and whoever leaves the section
normally sees a complete file, across crashes. The batched router answers as a linear
scan of the registrations would.

**Where the code does not do what it says.** Each case is kept as it is and its
exact condition is proved. A lemma named second gives an input or a run that fails.

- A VHD can be written only up to 2194732482560 bytes; above that, `struct.pack` refuses
  a block table entry. An empty input fails after writing three headers and no footer
  (`VhdWriter.Leaves`).
- The "should never happen" branches of the pipeline are reached exactly when a build was
  asked for on the id of a provider image whose deletion failed, or when the joined build
  was killed by an exception outside `Exception` and left its image neither COMPLETE nor
  FAILED (`Pipeline.ImpossibleExactly`, `ImpossibleIsPossible`). The gate lets a build on
  an unfinished image pass exactly if the joined build was killed after COMPLETE was
  assigned (`Pipeline.PassesUnreadyExactly`, `KilledCanPass`).
- Unless the polled image is deleted, the poller of a launched build stays in its loop
  forever exactly if that build was killed or ended with its last save failed
  (`Pipeline.PollingEndsExactly`, `StuckIsPossible`).
- With several setters a change can be reported twice and another not at all, exactly if
  some report is made while a second thread still owes one
  (`CallbackExact.CalmExactly`, `CallbackSampling.Overtaken`).
- Outstanding reservations are netted against files that outgrew theirs
  (`Reservations.RemainingExactly`, `OutgrownHidesOwed`). Removing a mount forgets its
  reservations, which is safe exactly if one byte at most is outstanding
  (`Reservations.RewatchExactly`).
- The creation of the compress marker is not checked. A complete file stays complete in
  all later runs exactly if the marker exists (`CompressOnce.StaysFullExactly`); a builder
  may leave normally without it (`MarkerCanBeMissing`).
- In a 405 response, a static match puts the refused verb in the Allow header instead of
  the method that would have matched (`Router.AllowExactly`, `WrongAllowHeader`).
- A rule whose flattened expression is refused stays in the rule list, and hides the
  rules from its batch on (`Router.PromiseKeptExactly`, `RefusedHides`).
- The chunked decoder needs both bytes of a chunk's final line break from one `read(2)`,
  which a source may split (`Chunked.DecodeEncode`, `SplitEndRefused`).
- Shifting paths loses empty fragments next to the new boundary
  (`PathShift.ShiftConserves`, `EmptyFragmentLost`).
- A plugin target written as a plain string can never be looked up
  (`Plugins.PlainNeverFound`, `PlainExample`). The documentation of `load` lists later
  plugins for a taken target as inactive; the code replaces that entry by the loaded one
  (`Plugins.PluginManager.LoadFile`).
- An observer that raises anything but AttributeError leaves the notification centre
  locked (`Notifications.NotificationCenter.PostNotification`).

## Model

| member | source | states |
|---|---|---|
| Bytes.Divro | imagefactory_plugins/Rackspace/pyvhd.py:36-39 | the least number of units that cover the given amount |
| Bytes.VhdChecksum | imagefactory_plugins/Rackspace/pyvhd.py:41-47 | the loop computes the one's complement of the byte sum |
| Bytes.ZeroString | imagefactory_plugins/Rackspace/pyvhd.py:82-86 | the result is one zero byte shorter than asked for |
| Bytes.BigEndianRoundTrip | imagefactory_plugins/Rackspace/pyvhd.py:192-194 | a packed number that fits its width reads back as itself |
| Struct.FieldAt | imagefactory_plugins/Rackspace/pyvhd.py:111-150 | each field of a packed structure stands at the offset its predecessors' widths add up to |
| Struct.NumberField | imagefactory_plugins/Rackspace/pyvhd.py:241-251 | a numeric field reads back from the packed bytes as the value packed |
| Struct.BlankedField | imagefactory_plugins/Rackspace/pyvhd.py:245-251 | zeroing one numeric field of a packed structure gives the structure packed with zero there |
| VhdGeometry.GeometryCovers | imagefactory_plugins/Rackspace/pyvhd.py:49-80 | every geometry field fits its width; the capacity never exceeds the capped sector count and misses it by less than one cylinder |
| VhdGeometry.SectorsPerTrack | imagefactory_plugins/Rackspace/pyvhd.py:56-76 | which sectors-per-track value every size gets, by thresholds on the sector count |
| VhdGeometry.NestedFloor | imagefactory_plugins/Rackspace/pyvhd.py:58-78 | dividing by two numbers in turn loses less than one unit of their product |
| VhdFormat.BatFitsExactly | imagefactory_plugins/Rackspace/pyvhd.py:174-194 | all block table entries fit 32 bits if and only if the input is at most 2194732482560 bytes |
| VhdFormat.BatEntryAt | imagefactory_plugins/Rackspace/pyvhd.py:192-194 | entry k of the packed block table reads back as its value |
| VhdFormat.BatmapBits | imagefactory_plugins/Rackspace/pyvhd.py:200-206 | bit j of the bitmap, most significant first, is set if and only if entry j exists |
| VhdFormat.FooterValsFit | imagefactory_plugins/Rackspace/pyvhd.py:241-251 | packing the footer never fails up to that size |
| VhdFormat.DynamicValsFit | imagefactory_plugins/Rackspace/pyvhd.py:267-274 | packing the dynamic header never fails up to that size |
| VhdFormat.BatmapValsFit | imagefactory_plugins/Rackspace/pyvhd.py:208-217 | packing the bitmap's header never fails up to that size |
| VhdLayout.ExtendCanvas | imagefactory_plugins/Rackspace/pyvhd.py:277-292 | seeking past the end and writing adds one extent and leaves zeros in the gap |
| VhdLayout.CanvasUnique | imagefactory_plugins/Rackspace/pyvhd.py:277-292 | extents on a zero background determine the whole file |
| VhdLayout.GapIsZero | imagefactory_plugins/Rackspace/pyvhd.py:280-291 | every byte between two consecutive pieces is zero |
| VhdLayout.NextExtent | imagefactory_plugins/Rackspace/pyvhd.py:174-190 | each piece is non-empty and ends before the next one starts |
| VhdLayout.PlanOrdered | imagefactory_plugins/Rackspace/pyvhd.py:277-292 | both footers, both headers, the tables and every block's bitmap and data are pairwise disjoint |
| VhdLayout.CanvasBlockAt | imagefactory_plugins/Rackspace/pyvhd.py:285-289 | behind every block table entry stand a full bitmap and the block's input, zero-filled to 2 MiB |
| VhdWriter.PackBat | imagefactory_plugins/Rackspace/pyvhd.py:192-194 | the packing loop fails if and only if some entry exceeds 32 bits |
| VhdWriter.BuildBatmap | imagefactory_plugins/Rackspace/pyvhd.py:200-206 | the loop builds the bitmap of BatmapBits |
| VhdWriter.MakeFooter | imagefactory_plugins/Rackspace/pyvhd.py:221-251 | packing twice gives the footer whose stored checksum FooterReads confirms |
| VhdWriter.MakeDynamicHeader | imagefactory_plugins/Rackspace/pyvhd.py:253-274 | likewise for the dynamic header |
| VhdWriter.BuildBat | imagefactory_plugins/Rackspace/pyvhd.py:174-194 | the table of all blocks, or failure exactly above the size bound |
| VhdWriter.WriteHeaders | imagefactory_plugins/Rackspace/pyvhd.py:277-283 | the seeks and writes leave exactly the first five pieces |
| VhdWriter.WriteBlocks | imagefactory_plugins/Rackspace/pyvhd.py:285-289 | the block loop adds every block's bitmap and data in place |
| VhdWriter.WriteAll | imagefactory_plugins/Rackspace/pyvhd.py:277-292 | all seeks and writes leave the planned layout, or fail after the headers for an empty table |
| VhdWriter.DoVhdConvert | imagefactory_plugins/Rackspace/pyvhd.py:167-292 | the input size alone decides between a complete image, a packing error that writes nothing, and the failure on empty input |
| VhdReader.FooterReads | imagefactory_plugins/Rackspace/pyvhd.py:221-251 | zeroing the checksum field of the footer and summing again reproduces the stored checksum; size and offset read back |
| VhdReader.FooterFields | imagefactory_plugins/Rackspace/pyvhd.py:221-251 | format version, both sizes, the CHS geometry and the disk type stand at the footer offsets of the format |
| VhdReader.DynamicHeaderReads | imagefactory_plugins/Rackspace/pyvhd.py:253-274 | the same for the dynamic header, with table offset, entry count and block size; DynamicFields has the other fields |
| VhdReader.DynamicFields | imagefactory_plugins/Rackspace/pyvhd.py:253-274 | the unused data offset is all ones, the header version 1.0, and every byte of the parent fields and the reserved space zero |
| VhdReader.ImageGeometry | imagefactory_plugins/Rackspace/pyvhd.py:221-274 | a reader starting at the trailing footer finds the input size, the table and the block size |
| VhdReader.ImageSector | imagefactory_plugins/Rackspace/pyvhd.py:285-292 | each virtual sector, found through the file's bytes alone, holds the input and then zeros to the end of the last block |
| VhdReader.RoundTrip | imagefactory_plugins/Rackspace/pyvhd.py:167-292 | reading the whole virtual disk returns the input |
| VhdReader.SelfDescribing | imagefactory_plugins/Rackspace/pyvhd.py:277-292 | the last 512 bytes equal the first 512 and both headers are valid |
| VhdReader.BatmapReads | imagefactory_plugins/Rackspace/pyvhd.py:200-219 | the bitmap found through its own header has the stored checksum and size, and exactly the bits of existing entries |
| VhdReader.ReadsBackExactly | imagefactory_plugins/Rackspace/pyvhd.py:167-292 | whatever a conversion leaves reads back as the input if and only if the input has between 1 and 2194732482560 bytes |
| CallbackWorker.Worker.Enqueue | imgfac/CallbackWorker.py:76-85 | appends and sets the event, or raises exactly after shutdown was requested |
| CallbackWorker.Worker.GetNextCallback | imgfac/CallbackWorker.py:96-108 | takes the oldest body and clears the event with the last one |
| CallbackWorker.Worker.ShutDown | imgfac/CallbackWorker.py:37-58 | after it, a worker with work or a shutdown request is awake |
| CallbackWorker.Worker.Call | imgfac/CallbackWorker.py:110-133 | while bodies and shutdown requests arrive at any points, the loop ends if and only if a shutdown is requested, having attempted in order all that was enqueued before; otherwise it has attempted everything and sleeps |
| CallbackSystem.RunKeepsInv | imgfac/CallbackWorker.py:37-108 | the invariant of all threads and workers holds after every interleaving of any number of threads |
| CallbackSystem.NeverRaised | imgfac/CallbackWorker.py:37-79 | no interleaving meets the "terminating worker thread" exception |
| CallbackShutdown.SettledStep | imgfac/CallbackWorker.py:42-58 | a shut-down worker that has not ended can step, loses nothing, and its measure falls |
| CallbackShutdown.Drain | imgfac/CallbackWorker.py:110-133 | such a worker ends with an empty queue and has attempted all it accepted |
| CallbackShutdown.RunKeepsOwnerInv | imgfac/Builder.py:76-87 | in every run the owner has yet to shut down exactly the started workers that are not flagged, each once |
| CallbackShutdown.ShutDownSettles | imgfac/CallbackWorker.py:43-58 | in every reachable state a worker after shut_down is not asleep on a clear event |
| CallbackShutdown.ShutDownStays | imgfac/CallbackWorker.py:37-42 | after shut_down no other thread changes the worker |
| CallbackShutdown.NeverStranded | imgfac/CallbackWorker.py:48-56 | after shut_down a worker that has not ended is never blocked |
| CallbackShutdown.ShutDownEnds | imgfac/CallbackWorker.py:42-58 | over every continuation its steps are bounded by the measure, and it accepts and loses nothing more |
| CallbackShutdown.EventMeansWork | imgfac/CallbackWorker.py:87-108 | the event is set on an empty queue only after a shutdown request or inside the pop; work never waits behind a clear event |
| CallbackProgress.CentreReleased | imgfac/NotificationCenter.py:62-77 | every step of the holder of the centre's lock releases it or lowers the work left before its release |
| CallbackProgress.QueueReleased | imgfac/CallbackWorker.py:43-54 | a thread that holds a queue lock never waits and releases it within three steps |
| CallbackProgress.WorkerReleases | imgfac/CallbackWorker.py:96-108 | so does a worker |
| CallbackProgress.OwnerNotBlocked | imgfac/Builder.py:76-87 | in every reachable state the build that is posting or shutting down can step, or the holder of the centre's lock or of a queue lock can |
| CallbackProgress.ShutdownAdvances | imgfac/Builder.py:84-87 | every step of the build's shutdown loop brings its end nearer |
| CallbackDelivery.ChangesNeverRepeat | imgfac/PersistentImage.py:49-62 | over every run of any threads, no recorded change equals the status before it |
| CallbackDelivery.AttemptsArePrefix | imgfac/NotificationCenter.py:62-77 | when the build alone sets the status, the attempted bodies are at every moment a prefix of the changes since registration; CallbackExact has the case of several setters |
| CallbackDelivery.EverythingDelivered | imgfac/Builder.py:76-87 | when the build alone sets the status and it and the worker have ended, the attempts are exactly the changes between registration and removal; LifeExactly has the case of several setters |
| CallbackSampling.AttemptsAreSampled | imgfac/PersistentImage.py:49-62 | however many threads set the status, attempted bodies are statuses the image had from its registration on, that moment included, in the order in which it had them |
| CallbackSampling.LastIsCurrent | imgfac/CallbackWorker.py:76-85 | whenever no thread is in the middle of reporting a change, the last body a registered worker accepted is the current status |
| CallbackSampling.Overtaken | imgfac/PersistentImage.py:57-62 | a run of two setters after which a worker has accepted the second change twice and the first not at all |
| CallbackExact.PicksAllExactly | imgfac/PersistentImage.py:52-55 | as many samples as there are changes, never going back, are the changes if and only if each is taken at its own place, because no change repeats the one before |
| CallbackExact.ExactlyOnce | imgfac/PersistentImage.py:49-62 | between any two moments at which it is registered a worker is offered just the changes made between them, each once and in order, if and only if each report to it is made with one open report more than at the first moment, and as many are open at the second |
| CallbackExact.CalmExactly | imgfac/PersistentImage.py:49-62 | between two moments with no assignment under way, if and only if no report to it is made while a second thread still owes it one |
| CallbackExact.PrefixWhileTimely | imgfac/NotificationCenter.py:62-77 | as long as that holds, what it is offered is a prefix of the changes |
| CallbackExact.TakingTurns | imgfac/PersistentImage.py:49-62 | that holds if no status is assigned before the previous assignment has returned |
| CallbackExact.Registration | imgfac/NotificationCenter.py:43-45 | the step that registers a worker finds it with nothing accepted and starts its history |
| CallbackExact.LifeExactly | imgfac/Builder.py:76-87 | an ended worker has attempted exactly the changes between its registration and its removal under the same condition |
| CallbackExact.LifeInTurns | imgfac/Builder.py:76-87 | which setters that take turns meet |
| Notifications.NotificationCenter.AddObserver | imgfac/NotificationCenter.py:34-45 | one entry more under one message, nothing else changes |
| Notifications.NotificationCenter.RemoveObserver | imgfac/NotificationCenter.py:47-60 | that entry gone, no empty set kept, nothing else changes |
| Notifications.NotificationCenter.PostNotification | imgfac/NotificationCenter.py:62-77 | exactly the observers of the message or of all, for this sender or any, are notified; an exception other than AttributeError leaves the lock held |
| Notifications.PersistentImage.constructor | imgfac/PersistentImage.py:102 | a new image is NEW and has posted nothing |
| Notifications.PersistentImage.SetStatus | imgfac/PersistentImage.py:49-62 | equal statuses post nothing, unknown ones change nothing; posts chain from NEW, old status to new |
| Pipeline.JoinedIsFinal | imgfac/Builder.py:199-216 | after joining a build that was not killed, the awaited image is COMPLETE or FAILED whatever plugins assigned, and COMPLETE only if its build saved it |
| Pipeline.SeenIsHonest | imgfac/Builder.py:207-216 | every status a waiting build acts on was persisted or final |
| Pipeline.ExecKeepsInv | imgfac/Builder.py:129-370 | the invariant of all builders holds after every interleaving, with plugins assigning any status, builds killed, and images imported and deleted at any time |
| Pipeline.CompleteNeedsDependency | imgfac/Builder.py:197-256 | the image awaited by a build that assigns or saves COMPLETE was imported, or its own build returned normally and saved COMPLETE before, if and only if the build it joined was not killed |
| Pipeline.PassesUnreadyExactly | imgfac/Builder.py:199-216 | the gate lets a build on an image that is not ready pass if and only if the build it joined was killed with COMPLETE assigned |
| Pipeline.StoreNeverInProgress | imgfac/FilePersistentImageManager.py:147-175 | the store shows NEW, COMPLETE, FAILED or DELETEFAILED only, COMPLETE only for imports and builds that returned normally, and DELETEFAILED only for provider images |
| Pipeline.PollReturnsFinal | imgfac/Builder.py:90-103 | the poll loop returns COMPLETE, FAILED or DELETEFAILED only, and COMPLETE only for imports and builds that returned normally |
| Pipeline.ImpossibleExactly | imgfac/Builder.py:212-216 | the "should never happen" branch is taken if and only if the image asked for is a provider image seen as DELETEFAILED, or the joined build was killed and left neither COMPLETE nor FAILED |
| Pipeline.NeverOnBaseOrTarget | imgfac/Builder.py:458-472 | a build on a base or target image never takes it, whatever is deleted, unless the joined build was killed |
| Pipeline.NeverWithoutDelete | imgfac/Builder.py:90-103 | in runs without deletes no build does, and a polled image is always found |
| Pipeline.NoDeadlock | imgfac/Builder.py:199-204 | in every reachable state a running build, or an earlier one of its builder that it waits for, can step |
| Pipeline.PollStep | imgfac/Builder.py:96-103 | a poll leaves the loop if and only if the store does not show NEW |
| Pipeline.PollingEndsExactly | imgfac/Builder.py:94-103 | the poller of a launched build loops in every continuation without a delete of that image if and only if that build was killed or its last save failed; otherwise some continuation frees it, and the very next step if the build is over |
| Pipeline.StuckIsPossible | imgfac/Builder.py:141-144 | a run in which the last save of a failed build fails, which leaves its poller looping |
| Pipeline.KilledCanPass | imgfac/Builder.py:199-216 | a run in which a joined build is killed after COMPLETE was assigned, and the next build passes the gate |
| Pipeline.ImpossibleIsPossible | imgfac/Builder.py:458-472 | a run in which a target is asked for on a provider image whose deletion failed reaches it |
| Reservations.MountOf | imgfac/ReservationManager.py:137-143 | the deepest mounted ancestor of a path, or the root |
| Reservations.ReservationManager.constructor | imgfac/ReservationManager.py:62-79 | no mounts, the default minimum, and a port in the range from the process id |
| Reservations.ReservationManager.MountForPath | imgfac/ReservationManager.py:137-143 | the loop finds that ancestor |
| Reservations.ReservationManager.AvailableSpaceForPath | imgfac/ReservationManager.py:176-199 | free bytes less what outstanding reservations net to, missing files counting as empty; nothing for an unwatched mount, and an error if the path does not exist |
| Reservations.ReservationManager.ReserveSpaceForFile | imgfac/ReservationManager.py:97-112 | grants strictly below the space above the minimum, watches the mount by default, and fails for a mount without a minimum |
| Reservations.ReservationManager.CancelReservationForFile | imgfac/ReservationManager.py:114-135 | removes exactly that reservation; which error it raises when there is none |
| Reservations.ReservationManager.AddPath | imgfac/ReservationManager.py:145-159 | watches the path's mount unless it is watched already |
| Reservations.ReservationManager.RemovePath | imgfac/ReservationManager.py:161-174 | stops watching the path's mount; raises only if it was not watched and not quiet |
| Reservations.ReservationManager.GetNextListenPort | imgfac/ReservationManager.py:87-95 | returns and keeps the next port, which stays in range |
| Reservations.RemainingExactly | imgfac/ReservationManager.py:185-197 | the manager's figure is what may still be written if and only if no file is over its reservation or none is under |
| Reservations.ReserveKeepsPromise | imgfac/ReservationManager.py:104-112 | a granted reservation still leaves the minimum free when all reservations are used up |
| Reservations.CancelKeepsPromise | imgfac/ReservationManager.py:120-130 | so does a cancelled one |
| Reservations.WriteKeepsPromise | imgfac/ReservationManager.py:176-199 | and so does writing inside a reservation |
| Reservations.WriteKeepsAvailable | imgfac/ReservationManager.py:176-199 | such a write leaves the reported available space unchanged if and only if the netted total still covers it |
| Reservations.WithinKeepsAvailable | imgfac/ReservationManager.py:185-197 | in particular while no file on the mount exceeds its reservation, whatever its minimum |
| Reservations.SpacePromise | imgfac/ReservationManager.py:97-135 | over every run, of mounts watched before or during it, the free bytes, less all that may still be written, never fall below the minimum |
| Reservations.RewatchExactly | imgfac/ReservationManager.py:161-174 | after a mount is removed and watched again, every first grant for a new file leaves the minimum free for the forgotten holders too if and only if they may write one byte at most |
| Reservations.OutgrownHidesOwed | imgfac/ReservationManager.py:194-197 | with a file beyond its reservation the manager reports nothing owed while ten bytes are |
| Reservations.CancelUndoesReserve | imgfac/ReservationManager.py:97-135 | cancelling a first reservation restores the previous state |
| Reservations.NthPortIs | imgfac/ReservationManager.py:87-95 | the closed form of the k-th port, which stays in 1025..65535 |
| Reservations.PortsCoverRange | imgfac/ReservationManager.py:27-28 | any 64511 consecutive calls return each port of the range exactly once |
| CompressOnce.ExecKeepsInv | imagefactory_plugins/EC2/EC2.py:965-990 | the invariant (one semaphore per name, marker implies complete file) holds after every run with crashes |
| CompressOnce.OneCompresses | imagefactory_plugins/EC2/EC2.py:969-975 | two builders of one image are never in the section together |
| CompressOnce.NormalLeaverSeesFull | imagefactory_plugins/EC2/EC2.py:976-990 | whoever leaves without an exception sees a complete file, and every marked file is complete |
| CompressOnce.SemaphoreNeverReplaced | imgfac/ReservationManager.py:235-243 | until a restart, a name keeps the semaphore first created for it |
| CompressOnce.ReleaseSucceeds | imgfac/ReservationManager.py:246-253 | the releasing thread always holds the semaphore it looks up |
| CompressOnce.MarkedStaysFull | imagefactory_plugins/EC2/EC2.py:977-988 | a marked file stays marked and complete in every later run |
| CompressOnce.UnmarkedCanBeCut | imagefactory_plugins/EC2/EC2.py:977-982 | without the marker a complete file can be truncated again |
| CompressOnce.StaysFullExactly | imagefactory_plugins/EC2/EC2.py:986-988 | a complete file stays complete in every later run if and only if it is marked |
| CompressOnce.MarkerCanBeMissing | imagefactory_plugins/EC2/EC2.py:986-990 | a run in which a builder leaves normally with a complete file that is not marked |
| Router.RulesAre | imgfac/rest/bottle.py:374-384 | replacing in place: a scan of the rule list finds the earliest registered matching pattern with its latest target |
| Router.GroupIsScan | imgfac/rest/bottle.py:393-398 | the group number of a combined expression selects what a scan of the batch finds |
| Router.Router.Add | imgfac/rest/bottle.py:348-386 | accepts or refuses a rule, raises `re.error` exactly if some flattened expression of the method is refused, and in every case keeps the tables consistent with all registrations so far |
| Router.Router.Compile | imgfac/rest/bottle.py:388-398 | replaces one method's batches by those of its rule list, also when it raises |
| Router.Router.Combine | imgfac/rest/bottle.py:391-398 | batches of at most 99 patterns that together are the rule list, up to the batch of the first refused expression |
| Router.Router.MatchDynamic | imgfac/rest/bottle.py:425-430 | searching the batches in order gives what a scan of the compiled part of the rule list finds |
| Router.Router.Match | imgfac/rest/bottle.py:411-448 | the answer is a function of the registrations: static before dynamic, methods in order, else 405 or 404 |
| Router.NotFoundExactly | imgfac/rest/bottle.py:432-448 | 404 if and only if no method has a matching rule; a target if and only if a tried method has |
| Router.AllowExactly | imgfac/rest/bottle.py:432-445 | the Allow header names the matching methods if and only if no untried method matched a static rule |
| Router.WrongAllowHeader | imgfac/rest/bottle.py:432-445 | a GET of a static path that is registered for POST is told to use GET |
| Router.CompiledKeepsPromise | imgfac/rest/bottle.py:388-398 | with every expression compiled, a method answers with the latest target of the earliest registered matching pattern |
| Router.PromiseKeptExactly | imgfac/rest/bottle.py:388-398 | in general it does so if and only if nothing is registered that matches, or a rule before the batch of the first refused expression does |
| Router.RefusedHides | imgfac/rest/bottle.py:388-398 | two registrations of which the first is refused, and a request for the second finds nothing |
| Router.MatchesRegistered | imgfac/rest/bottle.py:411-430 | with every expression compiled, a method matches if and only if one of its accepted registrations does |
| Chunked.Input.Read | imgfac/rest/bottle.py:1134-1138 | a read returns at least one byte before the end of the input, and otherwise as many as the source pleases |
| Chunked.IterChunked | imgfac/rest/bottle.py:1134-1159 | the generator ends for every input and source; its parts, rest and error are those of the decoding function |
| Chunked.SizeFound | imgfac/rest/bottle.py:1144-1148 | the size is read from every well-formed header, whatever extensions follow |
| Chunked.LineFound | imgfac/rest/bottle.py:1138-1143 | a header line within the buffer size is found up to its first line break |
| Chunked.DataFound | imgfac/rest/bottle.py:1150-1157 | however reads are split, the parts of a chunk concatenate to its data |
| Chunked.DecodeEncode | imgfac/rest/bottle.py:1134-1159 | an encoded body decodes to its data if and only if no read of a chunk's final line break is cut short; the parts are a prefix of the data in any case |
| Chunked.FullReadsDecode | imgfac/rest/bottle.py:1158-1159 | a source that returns what is asked for meets that condition |
| Chunked.SplitEndRefused | imgfac/rest/bottle.py:1158-1159 | a source that returns one byte at a time, and a well-formed body of one chunk that is refused |
| Chunked.PartsBounded | imgfac/rest/bottle.py:1151-1156 | for every input no part is empty or exceeds the buffer size |
| Chunked.Spill | imgfac/rest/bottle.py:1165-1173 | the body keeps all bytes when it moves to a file, which happens if and only if it exceeds the limit |
| Chunked.ChunkedBody | imgfac/rest/bottle.py:1161-1176 | a chunked body is the concatenation of the decoded parts, or an error |
| PathShift.SegmentsOfJoin | imgfac/rest/bottle.py:2659-2662 | reading back a joined list loses exactly the empty fragments at its ends |
| PathShift.ShiftIs | imgfac/rest/bottle.py:2663-2677 | a shift moves the boundary in the whole list of fragments and writes out both parts |
| PathShift.ShiftConserves | imgfac/rest/bottle.py:2649-2677 | the fragments are conserved if and only if none next to the new boundary is empty |
| PathShift.EmptyFragmentLost | imgfac/rest/bottle.py:2659-2677 | shifting `/a//b` by one loses a fragment |
| PathShift.RoundTrip | imgfac/rest/bottle.py:2649-2677 | shifting n and then -n restores both lists under the same condition |
| PathShift.StringsRestored | imgfac/rest/bottle.py:2674-2677 | when the two strings themselves are restored, for a first shift in either direction |
| Plugins.PluginManager.Register | imgfac/PluginManager.py:72-81 | the first registration of a target wins; registrations before a bad target are kept |
| Plugins.PluginManager.LoadFile | imgfac/PluginManager.py:67-92 | the targets follow the files loaded so far; which entry a plugin ends up with |
| Plugins.PluginManager.Load | imgfac/PluginManager.py:54-92 | every file is loaded once, in order |
| Plugins.PluginManager.PluginForTarget | imgfac/PluginManager.py:122-155 | the in-place loop tries the prefixes from the longest to the shortest |
| Plugins.FirstOwner | imgfac/PluginManager.py:74-75 | the owner of a target is the first loaded plugin that offers it |
| Plugins.NoOwner | imgfac/PluginManager.py:74-75 | a target has no owner if and only if no loaded plugin offers it |
| Plugins.OwnerKept | imgfac/PluginManager.py:56-58 | later loads never change a registration |
| Plugins.TupleLookup | imgfac/PluginManager.py:143-152 | a tuple finds the owner of its longest registered non-empty prefix padded with None, and nothing if and only if there is none |
| Plugins.PlainNeverFound | imgfac/PluginManager.py:136-147 | every lookup goes on as if plain-string targets had not been registered |
| Plugins.LettersOffered | imgfac/PluginManager.py:72-75 | a target list written as one string registers each of its characters as a plain string |
| Plugins.PlainExample | imgfac/PluginManager.py:136-152 | a loaded plugin offers a plain string, and looking that string up raises |

## Left out

- Floating-point rounding in `divro`: exact ceiling division is modelled; it agrees for the power-of-two divisors used and sizes below 2^53.
- Truncated writes and I/O errors while converting, and an input file that changes meanwhile.
- CallbackDelivery.AttemptsArePrefix: for a single setter; `CallbackExact.PrefixWhileTimely` is the general form.
- CallbackDelivery.EverythingDelivered: for a single setter, as in a build; `CallbackExact.LifeExactly` is the general form.
- The body of a callback besides the status it reports, basic authentication and the PUT itself; an attempt counts whether or not it succeeds.
- Python-level atomicity: the status assignment with the test before it and its history entry, and each assignment of a worker's field, are single steps.
- Launch paths that raise before their thread starts; registered workers are not shut down there.
- Builder, its image objects and the image manager are modelled on values, as steps of threads and a map of saved statuses; aliasing of a plugin's own references to images and saves that fail part-way are not captured.
- Snapshot builds (they have no source image), secondary factories and the signal handler.
- Symbolic links, relative file names and mounts that change while the manager runs.
- Two threads inside the reservation manager at once: it takes no lock around a reservation.
- The named locks and the compress section are modelled on values, as steps of threads; a `gzip` child that outlives a crash of its parent, and data lost in the page cache, are not captured.
- The input of `gzip`: a command that ends with status zero is taken to have written the whole file.
- Tokenizing rules, regular-expression internals, URL arguments and their filters, and the URL builder: a pattern is an abstract predicate on paths, and a combined expression compiles if each of its alternatives does.
- Non-ASCII digits in chunk sizes, trailers after the last chunk, and bodies with a content length.
- Reading and parsing info files; plugins for which importing runs code. The per-type plugin list is shared by all types in the source and is one list here.
- BuildDispatcher, the REST handlers, the cloud and OS plugins, OVF generation and the MongoDB image manager: bookkeeping or foreign calls without further invariants.
