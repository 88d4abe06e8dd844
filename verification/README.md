# Verified model of the my-jev decision system

This project models the parts of my-jev that coordinate processes, move data between two
programs, or turn evidence into an advisory, and proves what they keep. Each module follows one
component of the repository; classes, loops and in-place updates are kept where the component has
them, and concurrent components are step relations whose theorems hold for every interleaving.

**Leases, runs and the registry.** `Leases` and `Devices` give the merged, sorted plan of a lease set and
the lock names of cards and runs. `LockProtocol` is the kernel's lock table with any number of processes
taking plans one `flock` at a time, rolling back, finishing or being killed; `RunLeases` applies it to
experiment runs, inventory probes and registry sessions, and `Locking` is the object form: host, lease,
lease set, and the probing loop; `LockNames` spells out the device ids and file names; `FreeCards` joins the
two, from the list of free cards to the runs that could take them. `AtomicWrite` is the crash-safe file
write over a file system with volatile and durable parts, many writers and readers, and power failures.
`Registry` is the experiment registry with its classes, `RegistryProtocol` its load-modify-save sessions
under a lease, `RunLifecycle` what whole runs do to it when a session is one step, and `RunParents` which
parent a run gets; `RunSessions` shows that runs with full sessions do nothing else, and `RunRealisation`
that they can do all of it.

**Activation frames.** `Tensors`, `Utf8`, `Utf8Strict` and `Json` are the row-major layout and the two
printers and one parser of header text; `FrameFormat` and `SortedKeys` the header as both programs print it;
`FrameStream` the reader and the Python writer on byte streams, `FrameReading` what may be relied on about a
frame that was read, `HeaderLimit` a frame that is written and not read. `BridgeWriter` and `BridgeFrame`
are the C++ writer, `BridgeCommand` the command line printed in Python and parsed in C++, `BridgeArguments`
which command lines it starts on and with what, and `BridgeCapture` the whole path from record to validated
frame.

**Candidate layouts.** `Candidates` is the index bookkeeping of batched scoring, in the padded and the flat
layout, over an arbitrary scoring function.

**Market evidence.** `SustainedMoves` is the series classifier over real prices, `Calendar` the trading
days, sessions and freshness windows, `TradingHours` the same on dates and clock, `MarketDecision` the
gates, the three asset policies and the decision, `PolicyChoices` what each policy chooses, declines and
says on the quotes themselves, `FundFreshness` the fund policy's calendar behind its gate, and
`CryptoReconciliation` the venue reconciliation of the spot policy as it runs.

**Selection and accounting.** `GpuPlan`, `Mix` and `Metrics` are the greedy device choice, the deduplicating
dataset mix and the accuracy with its calibration error; `GpuChoice`, `MixInputs` and `Calibration` say
which devices are chosen, what a mix takes in and what the error adds up. `Fleet`, `FleetResolver`,
`FleetText` and `FleetAdvisory` are eligibility with its counterfactual evaluation, the resolver, the text a
model sees, and the benchmark advisory; `FleetCounters`, `FleetReading` and `LaneScores` say what the
counters of the evaluation, the text and the lane scores mean.

`Order`, `Characters`, `Rounding` and `Wrappers` are shared helpers: sorting and string order, characters
and trimming, rounding to decimals, options and results.

Loops and steps are specified by functions, and those functions are in turn said to mean something on the
inputs alone: each operation has a lemma that states its answer without naming the function.

## Conventions

- Times are whole microseconds, prices and scores reals, file contents and tensor elements opaque
  bytes, digests the content they stand for. Clocks, random draws and shuffles, the scoring function,
  the file system's behaviour on power failure and the bytes a stream delivers are parameters.
- A raised exception is an `Err`, a `None` or an outcome of its own; nothing the source handles is
  excluded by a precondition.
- The atomic write relies on `rename()` replacing a directory entry atomically, as the System
  Interfaces volume of POSIX.1-2017 defines it, and the header text on sections 7 and 8 of RFC 8259.

## Where the code and its descriptions differ

The model follows the code, states exactly when the description holds, and shows an input for which it
does not.

- A sustained-move signal bounds its excursion ratio below by 1, but computes smaller ones:
  `SustainedMoves.InvalidExactly`, with the series of `SustainedMoves.RiseThenEaseIsInvalid`. The whole
  decision then raises: `MarketDecision.DecideRaisesExactly`, with the decision of `MarketDecision.RiseThenEaseRaises`.
- A comment in the decision says a move never overrides an abstention: `MarketDecision.ReadingStandsExactly`,
  with the decision of `MarketDecision.AbstentionOverridden`.
- The freshness window outside the session is meant to reach the last close. In pre-market, and before
  it on the morning after a closed day, it is measured from a nearer edge and does not:
  `Calendar.LastCloseAdmittedExactly`, with the moment of `Calendar.PreMarketMissesTheClose`.
- The spot policy describes its choice of venue as independent of input order:
  `CryptoReconciliation.OrderIrrelevantExactly`, with the reports of `CryptoReconciliation.OrderDecides`.
- The reader refuses headers over 1,000,000 bytes that either writer will write:
  `FrameStream.WriteThenRead`, with the frame of `HeaderLimit.LongHeaderRefused`.
- The atomic write is described as leaving no temporary behind. An unlink that raises and a kill leave one,
  and because the unlink is not synced a power failure can bring one back:
  `AtomicWrite.LeavesExactly` and `AtomicWrite.LeavesExactlyWithPower` say after which ends, with a run for
  each; `AtomicWrite.FailureLeavesNoTrace` and `AtomicWrite.DurableReturnLeavesNone` say when none is left.
- A lease set is meant to be taken whole or not at all. A lease whose owner record cannot be written
  keeps its lock after the rollback until the process ends, unless the set is released:
  `LockProtocol.AllOrNothing` and `Locking.LeaseSet.Acquire`, with the run of `LockProtocol.RefusedWithLock`.
- A verdict's session that saves and then raises, in the tail of the write or while giving the lease up, has
  a failure recorded over its promotion: `RunLifecycle.PromotedIffCandidate`, with the run of
  `RunLifecycle.FailedAndPromoted`; with full sessions, `RunSessions.RegistryStaysSound` and
  `RunRealisation.SessionsFailPromoted`.
- A lineage can have a cycle where a spec names the run itself or one registered later as its parent:
  `RunLifecycle.LineageRaisesExactly`, with the run of `RunLifecycle.SelfNamedRaises`.
- A chain is described as all or nothing within its budget; the total is rounded first, so some chains that
  exceed a budget are placed and some that it covers are refused:
  `GpuPlan.FundedExactly`, `GpuPlan.FundsWhatFitsExactly` and `GpuPlan.FundsOnlyWhatFitsExactly`, with the chains
  of `GpuPlan.RoundingUnderfunds` and `GpuPlan.RoundingRefuses`.
- An advisory bounds its count of eligible nodes by 128, which nothing bounds in the fleet it reads, so a
  larger fleet raises: `FleetAdvisory.RaisesExactly`, with the fleet of `FleetAdvisory.CrowdedFleetRefused`.
- A canonical device id keeps leading zeros, so one card can have two locks:
  `Devices.CardLocksSeparateCards` and `Devices.LeadingZeroSplitsOneCard`. Lock-file names can collide:
  `Devices.SafeNameNotInjective` and `Devices.ExperimentFilesDistinct`.
- A record reaches the bridge only if every number fits a C++ `int`, every question name is non-empty
  and no text holds a NUL: `BridgeCommand.LaunchKeepsRecord`, with the record of `BridgeCommand.NamelessRefused`.

## Model

| member | source | states |
|---|---|---|
| `Leases.Merge` | src/my_jev/locking.py:273-308 | Merging leaves one request per name, shared only if every request for that name was shared, in strictly ascending name order. |
| `Leases.PlanUnique` | src/my_jev/locking.py:280-308 | Those conditions leave exactly one plan, so the merge is a function of the requests whatever order they come in. |
| `Devices.CanonicalIsPrefixedDigits` | src/my_jev/experiment.py:347-373 | A device id is accepted exactly when it is digits, optionally behind the card prefix, and the answer is the prefix with those digits. |
| `Devices.CanonicalIdempotent` | src/my_jev/experiment.py:347-373 | Canonicalising an already canonical id gives it back. |
| `LockNames.CanonicalExactly` | src/my_jev/experiment.py:347-373 | On the characters: a device text is accepted exactly when, between blanks, it is `cuda`, digits, or `cuda:` and digits with blanks around them, and its canonical id is `cuda:` with those digits, 0 for `cuda`. |
| `Devices.CardLocksSeparateCards` | src/my_jev/experiment.py:347-373 | Different card numbers always get different locks; one card gets one lock exactly when both spellings have the same number of digits. |
| `Devices.LeadingZeroSplitsOneCard` | src/my_jev/experiment.py:363-370 | The concrete failing pair: card 0 and card 00 are one card under two canonical ids. |
| `Devices.RunRequestsArePlan` | src/my_jev/experiment.py:1326-1337 | What a run asks for is already merged and sorted, with or without a card. |
| `Devices.ProbeRequestsArePlan` | src/my_jev/gpu_inventory.py:172-180 | So is what a probe asks for. |
| `Devices.ExperimentFilesDistinct` | src/my_jev/locking.py:25-32 | On the names runs, probes and registry sessions lock, two names share a lock file only if they are equal. |
| `Devices.SafeNameNotInjective` | src/my_jev/locking.py:25-32 | In general they can: a colon and a dash meet in one file name. |
| `LockNames.SafeNameExactly` | src/my_jev/locking.py:25-32 | A file name keeps letters, digits, dashes and underscores in place, and has a dash for anything else. |
| `LockProtocol.StepKeepsInv` | src/my_jev/locking.py:163-258 | Every kernel call of every process keeps the lock table equal to what the processes hold, without conflicting locks. |
| `LockProtocol.MutualExclusion` | src/my_jev/locking.py:163-258 | In every interleaving, with crashes, two processes hold one lock file together only if both share it. |
| `LockProtocol.AllOrNothing` | src/my_jev/locking.py:201-240 | A running process holds its whole plan. One that has finished, been refused or been killed holds nothing, except that a lease whose owner record failed after its lock was granted keeps that lock until the process ends: exactly then something is held. |
| `LockProtocol.RefusedWithLock` | src/my_jev/locking.py:201-240 | It happens for every request: a process is refused and its lock is still in the table. |
| `LockProtocol.NoDeadlock` | src/my_jev/locking.py:300-330 | While any process is unfinished, some process can take a step of its own, blocking or not; ending is the step of one that was refused with a lock left. |
| `LockProtocol.EveryRunFinishes` | src/my_jev/locking.py:310-336 | Once no process arrives, the steps left are bounded, and a run that cannot be extended has finished everybody and freed every lock. |
| `LockProtocol.SoloRollback` | src/my_jev/locking.py:322-330 | A rollback left alone ends refused with everybody else's locks untouched, holding nothing but the lock of a failed owner record, if that began it. |
| `LockProtocol.SoloAcquisition` | src/my_jev/locking.py:310-330 | Left alone, a non-blocking acquisition starts its process exactly when nobody else's lock conflicts with the plan, and otherwise ends refused with nothing held. |
| `RunLeases.ExperimentsNeverDeadlock` | src/my_jev/experiment.py:854-908 | Runs, probes and registry sessions, which share one lock directory, never deadlock in any interleaving. |
| `RunLeases.OneHolderPerCard` | src/my_jev/experiment.py:1050-1082 | No two processes ever hold one card's lock together. |
| `RunLeases.RunsTogetherUseDistinctCards` | src/my_jev/experiment.py:1050-1082 | Two runs at work together both named a card, the cards and run ids differ, and neither took the whole pool. |
| `RunLeases.RunsOnDistinctCardsCoexist` | src/my_jev/experiment.py:1050-1082 | Any number of runs on pairwise distinct cards can hold all their leases at once: an interleaving that gets there is built. |
| `RunLeases.ProbeAnswersForRun` | src/my_jev/gpu_inventory.py:136-180 | With runs, probes and registry sessions only, the leases a probe tries are free exactly when a new run on that card could take its whole plan. |
| `Locking.Host.FlockNonBlocking` | src/my_jev/locking.py:181-199 | The kernel grants a lock exactly when no granted lock conflicts, and records it. |
| `Locking.Lease.constructor` | src/my_jev/locking.py:149-161 | A new lease holds nothing and has an id of its own. |
| `Locking.Lease.Acquire` | src/my_jev/locking.py:163-240 | Granted: descriptor, owner record and lock are all in place. Busy: lease, lock table and owners are as before. A record that cannot be left: the lock and its descriptor stay. |
| `Locking.Lease.Release` | src/my_jev/locking.py:242-258 | Drops exactly this lease's lock and owner record, and may be called at any time. |
| `Locking.OwnLeasesDoNotConflict` | src/my_jev/locking.py:310-321 | With distinct lock files, leases of one set never block one another. |
| `Locking.LeaseSet.constructor` | src/my_jev/locking.py:274-308 | A set has one idle lease per merged request, in plan order. |
| `Locking.LeaseSet.TakeNext` | src/my_jev/locking.py:310-321 | The next lease is granted unless a lock from before the set conflicts or its record fails; the set's own locks then extend by exactly that one. |
| `Locking.LeaseSet.RollBack` | src/my_jev/locking.py:324-330 | Releasing the first leases in reverse takes exactly their locks and records away and leaves the others alone. |
| `Locking.LeaseSet.Acquire` | src/my_jev/locking.py:310-330 | It succeeds exactly when no granted lock conflicts with the plan and every owner record is written. A busy lock leaves locks and owners as they were; a failed record leaves the lock of its own lease, which is not among those rolled back. |
| `Locking.LeaseSet.Release` | src/my_jev/locking.py:332-336 | Gives back whatever the set holds, in reverse, and is harmless on an idle set. |
| `Locking.LeaseSet.ReleaseRestores` | src/my_jev/locking.py:332-336 | Whatever an acquisition left, all leases, none or the one whose record failed, releasing the set restores the lock table and the owners. |
| `Locking.ProbeDevice` | src/my_jev/gpu_inventory.py:148-169 | One probe answers whether the card's leases are free, or raises exactly when an owner record stops it; in every case the lock table and owners are as they were. |
| `Locking.ReportsExactlyFree` | src/my_jev/gpu_inventory.py:136-169 | A device is reported exactly when it was asked about and is free; a malformed id or a failed record anywhere refuses the whole question. |
| `Locking.FreeDevices` | src/my_jev/gpu_inventory.py:136-169 | The loop computes that list and leaves the lock table as it found it. |
| `FreeCards.ListedExactlyFree` | src/my_jev/gpu_inventory.py:136-169 | The list names exactly the cards asked about whose whole run plan is free in the protocol state the lock table shows. |
| `FreeCards.ListedExactlyRunnable` | src/my_jev/gpu_inventory.py:136-180 | A card is listed exactly when a new run on it, left alone, gets all its leases; otherwise that run ends refused, holding nothing. |
| `AtomicWrite.NeverPartial` | src/my_jev/locking.py:35-95 | Whatever step any writers have reached and whatever a power failure keeps of unsynced data, the destination is a complete version, before and after the failure. |
| `AtomicWrite.AlwaysPossible` | src/my_jev/locking.py:35-95 | Whatever has happened, a reader can open the destination, the directory can be flushed and the power can fail. |
| `AtomicWrite.OldOrNew` | src/my_jev/locking.py:78-95 | With one writer that is the complete old contents or the complete new contents. |
| `AtomicWrite.ReadersAreStable` | src/my_jev/locking.py:84-87 | A reader keeps seeing the complete version it opened while writers go on. |
| `AtomicWrite.ReturnedIsDurable` | src/my_jev/locking.py:78-114 | After a return with a working directory sync, no later run and no power failure takes the write back; it can only be superseded. |
| `AtomicWrite.FailureLeavesNoTrace` | src/my_jev/locking.py:91-95 | However a write ends, from its cleanup on and until the power next fails, its temporary is not in the directory. |
| `AtomicWrite.FailureNeverShows` | src/my_jev/locking.py:78-95 | A write that raised before its rename was never visible, power failures included. |
| `AtomicWrite.LeftoverIsNotTheDestination` | src/my_jev/locking.py:78-95 | A temporary found in the directory, left over by a crash or not, has never been the destination. |
| `AtomicWrite.DurableReturnLeavesNone` | src/my_jev/locking.py:90-114 | A write that returned after a working directory sync leaves no temporary, whatever fails later. |
| `AtomicWrite.LeavesExactly` | src/my_jev/locking.py:78-114 | Of the ways a write can end, all but a return after a working directory sync can leave a temporary: a run is built for each. |
| `AtomicWrite.LeavesExactlyWithPower` | src/my_jev/locking.py:91-95 | While the power stays on, exactly an error before the rename, by an unlink that raises, and a kill can. |
| `AtomicWrite.FoundLaterExactly` | src/my_jev/locking.py:91-114 | Once a write has ended, its temporary can be found later exactly when the directory in memory or on disk lists it now. |
| `AtomicWrite.AtomicWriteBytes` | src/my_jev/locking.py:35-114 | The call as system calls on a volume, any of which may raise: the payload is published whole exactly when nothing up to the rename raised, on disk if directories sync, and otherwise the destination is untouched; a temporary is left only by an unlink that raises after an earlier failure. |
| `Registry.ChangesKeepIdentity` | src/my_jev/registry.py:105-134 | No list of changes alters an entry's run id, experiment or creation time. |
| `Registry.RegistryFile.constructor` | src/my_jev/registry.py:44-57 | A new registry file has no entries. |
| `Registry.ExperimentRegistry.constructor` | src/my_jev/registry.py:44-71 | Opening a registry loads the file's entries in the file's own order. |
| `Registry.ExperimentRegistry.Save` | src/my_jev/registry.py:73-85 | Saving makes the file equal to the entries in memory, with its keys sorted. |
| `Registry.ExperimentRegistry.Register` | src/my_jev/registry.py:87-103 | Adds the entry and saves it, or refuses a known run id and changes nothing. |
| `Registry.ExperimentRegistry.Update` | src/my_jev/registry.py:105-134 | Applies the changes to one entry and saves, or raises for an unknown run or attribute with the file untouched. |
| `Registry.BestIsLatest` | src/my_jev/registry.py:144-171 | Scanning in dictionary order leaves a newest matching entry, the first of them where creation times tie. |
| `Registry.ExperimentRegistry.Latest` | src/my_jev/registry.py:144-171 | The answer is a newest entry of the experiment, promoted if so asked, and none only if none matches. |
| `Registry.ExperimentRegistry.Lineage` | src/my_jev/registry.py:173-203 | For any registry the walk ends; it raises exactly when the parent chain repeats a run, and otherwise returns the whole chain. |
| `RegistryProtocol.OneAtWork` | src/my_jev/experiment.py:854-908 | At most one session is between taking the registry lease and leaving it. |
| `RegistryProtocol.NoLostUpdates` | src/my_jev/experiment.py:854-908 | After any interleaving of lease, load, change, save, release and crash steps the file is the committed operations replayed in save order; each session that saved committed exactly its own operation. |
| `RegistryProtocol.RegisteredForGood` | src/my_jev/registry.py:87-134 | A run once in the file never leaves it. |
| `RunLifecycle.VerdictOnEntry` | src/my_jev/experiment.py:1432-1475 | Each verdict sets the status the source names, and promotion exactly when the gates passed. |
| `RunLifecycle.RunsKeepInv` | src/my_jev/experiment.py:1156-1487 | Registration, dry runs, verdicts, late errors and failures of any number of runs keep every parent older than its child unless it was named, and every entry as its saved verdicts say. |
| `RunLifecycle.PromotedIffCandidate` | src/my_jev/experiment.py:1429-1487 | In every registry runs can produce, an entry is promoted exactly when its passed verdict was saved and a candidate exactly when no failure was saved besides; it is promoted without being a candidate exactly when the verdict's session raised after its save and the failure was saved. |
| `RunLifecycle.FailedAndPromoted` | src/my_jev/experiment.py:1429-1487 | The run of five steps that ends failed, promoted and chosen as the latest promoted one. |
| `RunLifecycle.AncestorsAreOlder` | src/my_jev/experiment.py:834-883 | Where no run named itself or a run registered later, following n parent links leads at least n places back in order of registration. |
| `RunParents.RegisteredAsAsked` | src/my_jev/experiment.py:834-883 | In every run of the whole: a run is registered with exactly the parent its spec asks for of the registry as it is then - none, the one named, or the newest promoted run of its experiment if there is one - and otherwise as launched. |
| `RunLifecycle.LineageRaisesExactly` | src/my_jev/registry.py:173-203 | The walk raises exactly when the chain takes a link to a parent that its run named although it was registered no earlier, and comes back to that run. |
| `RunLifecycle.LineageNeverRaises` | src/my_jev/registry.py:173-203 | So it never raises where no run named itself or a run registered later, in particular where parents are the latest promoted runs or none. |
| `RunLifecycle.SelfNamedRaises` | src/my_jev/registry.py:173-203 | The concrete run that names itself: its lineage raises. |
| `RunSessions.SessionsRefine` | src/my_jev/experiment.py:854-908 | Runs whose every registry touch is a full session, interleaved step by step with everybody else's, produce files and saves of executions in which a session is one step. |
| `RunRealisation.SessionsRealise` | src/my_jev/experiment.py:854-908 | And the converse: every execution with one-step sessions is one that full sessions can take, with the same file and saves. |
| `RunSessions.RegistryStaysSound` | src/my_jev/experiment.py:854-908 | So under that concurrency too an entry is promoted exactly when its passed verdict was saved, a candidate exactly when no failure was saved besides, and promoted without being a candidate exactly when the verdict's session raised after its save and the failure was saved. |
| `RunSessions.LineageStaysSound` | src/my_jev/registry.py:173-203 | And a lineage raises exactly when it comes back over a link to a parent named ahead of its registration. |
| `RunRealisation.SessionsFailPromoted` | src/my_jev/experiment.py:1429-1487 | Full sessions, too, can leave a run failed and still the latest promoted one. |
| `Tensors.OffsetInjective` | src/my_jev/activation_protocol.py:405-424 | In C order, distinct index vectors of any rank address distinct stored elements. |
| `Tensors.OffsetOnto` | src/my_jev/activation_protocol.py:405-424 | And every stored element has an index. |
| `Tensors.ChunkConcat` | src/my_jev/activation_protocol.py:547-559 | Cutting laid-out rows back into runs of their length returns the rows. |
| `Tensors.Reshape` | src/my_jev/activation_protocol.py:547-559 | A reshape that succeeds has as many elements as were read, one negative dimension being inferred. |
| `Tensors.ReshapeExplicit` | src/my_jev/activation_protocol.py:547-559 | A shape without negative dimensions is taken as written when the sizes agree. |
| `Utf8.DecodeEncode` | src/my_jev/activation_protocol.py:469-476 | Decoding the UTF-8 bytes of a text gives the text back. |
| `Utf8Strict.DecodeExactly` | src/my_jev/activation_protocol.py:469-476 | Bytes are decoded to a text exactly when they are its encoding: overlong forms, surrogates and stray bytes are refused. |
| `Json.UnescapeText` | native/bonsai_bridge/bonsai_activation_bridge.cpp:63-87 | Either writer's escaping of any text is undone by JSON string parsing (section 7 of RFC 8259), surrogate pairs and control characters included. |
| `Json.LoadsPrint` | src/my_jev/activation_protocol.py:469-476 | Whatever document either writer prints, parsing returns it. |
| `FrameFormat.GroupRoundTrip` | src/my_jev/activation_protocol.py:645-689 | A question group survives being written as a JSON object and read by key. |
| `FrameFormat.HeaderRoundTrip` | src/my_jev/activation_protocol.py:477-692 | So does a whole header. |
| `SortedKeys.HeaderDictSorted` | src/my_jev/activation_protocol.py:321-393 | Sorting the Python header's keys, at every depth, gives the member order the C++ writer spells out. |
| `FrameStream.BigEndianRoundTrip` | native/bonsai_bridge/bonsai_activation_bridge.cpp:327-337 | The four big-endian length bytes read back as the length. |
| `FrameStream.MaskRoundTrip` | src/my_jev/activation_protocol.py:560-598 | A mask written one byte per flag reads back as the mask. |
| `FrameStream.WriteThenRead` | src/my_jev/activation_protocol.py:280-692 | A frame by either writer, followed by anything, reads back as the same frame with exactly the rest left over; it is refused exactly when its header exceeds 1,000,000 bytes. |
| `FrameStream.FrameCutBack` | src/my_jev/activation_protocol.py:427-444 | Cutting bytes off any accepted stream gives an end of file if the cut reaches into the frame and changes nothing if it does not. |
| `FrameStream.StrictPrefixRejected` | src/my_jev/activation_protocol.py:427-444 | Every strict prefix of a frame is rejected as truncated. |
| `FrameStream.StreamRoundTrip` | src/my_jev/activation_protocol.py:280-692 | Frames written one after another, by either writer, come back in turn. |
| `HeaderLimit.LongHeaderRefused` | src/my_jev/activation_protocol.py:459-467 | The concrete frame both writers write and the reader refuses: a provider name of a million and one letters. |
| `FrameStream.ReadExact` | src/my_jev/activation_protocol.py:427-444 | Exactly the asked-for bytes off the stream, or a truncation error, also for a negative size. |
| `FrameStream.ReadActivationFrame` | src/my_jev/activation_protocol.py:447-692 | The reader on a moving stream: it agrees with the reading of the remaining bytes, result, error and final position. |
| `FrameReading.ReadIsSound` | src/my_jev/activation_protocol.py:447-692 | Whatever is read fits one set of sizes: matching array and mask shapes, questions on known records with their options in consecutive slots inside the axis. The stream is the length, a header of the supported version and a known payload type, the four payloads in order, and the rest. |
| `FrameReading.ValidExactly` | src/my_jev/activation_protocol.py:39-263 | A frame is valid exactly when its four arrays and its questions fit one set of sizes and its provenance is named. |
| `FrameReading.LookupExactly` | src/my_jev/activation_protocol.py:477-560 | Of several members with one key the last counts, and a key is missing only if no member has it. |
| `FrameStream.WriteActivationFrame` | src/my_jev/activation_protocol.py:280-424 | Appends exactly one framed header and payload for a valid frame, and nothing otherwise. |
| `BridgeWriter.EscapeEncoded` | native/bonsai_bridge/bonsai_activation_bridge.cpp:63-87 | Escaping byte by byte and encoding commute: on UTF-8 text the byte loop escapes characters. |
| `BridgeWriter.JsonEscape` | native/bonsai_bridge/bonsai_activation_bridge.cpp:63-87 | The loop computes that escaping, hexadecimal control escapes included. |
| `BridgeWriter.GroupAt` | native/bonsai_bridge/bonsai_activation_bridge.cpp:353-381 | Group q starts where the labels of the questions before it end and is as long as its own labels. |
| `BridgeWriter.AppendGroups` | native/bonsai_bridge/bonsai_activation_bridge.cpp:353-381 | The loop with its running slice offset prints exactly those groups. |
| `BridgeWriter.BuildHeader` | native/bonsai_bridge/bonsai_activation_bridge.cpp:339-400 | The text assembled piece by piece is the JSON document of the header the reader expects. |
| `BridgeFrame.OptionElement` | native/bonsai_bridge/bonsai_activation_bridge.cpp:462-474 | Element [0, o, t, h] the reader sees is options[o][t][h]. |
| `BridgeFrame.StateElement` | native/bonsai_bridge/bonsai_activation_bridge.cpp:449-453 | Element [0, t, n, h] the reader sees is scalar n * hidden + h of tap t. |
| `BridgeFrame.HeaderAgrees` | native/bonsai_bridge/bonsai_activation_bridge.cpp:413-435 | The sizes and shapes in the native header are those of the tensors that follow it. |
| `BridgeFrame.WriteOptions` | native/bonsai_bridge/bonsai_activation_bridge.cpp:462-474 | Writes every pooled vector in order, and stops exactly at a wrong tap count or width. |
| `BridgeFrame.WriteFrame` | native/bonsai_bridge/bonsai_activation_bridge.cpp:402-486 | Succeeds exactly for a non-empty, well-sized capture with a header length that fits 32 bits, and then the file is that frame. |
| `BridgeCommand.PrintedInt` | native/bonsai_bridge/bonsai_activation_bridge.cpp:89-102 | A printed integer of any size is parsed back if it fits a C++ int and refused otherwise. |
| `BridgeCommand.ParseArgs` | native/bonsai_bridge/bonsai_activation_bridge.cpp:104-210 | The argument loop with its moving index and current question computes the left-to-right meaning of the flags, failures included. |
| `BridgeArguments.ParsedExactly` | native/bonsai_bridge/bonsai_activation_bridge.cpp:104-210 | The bridge starts, with given arguments, on exactly the command lines that list settings meaning them: of each flag the last counts, taps are ascending, distinct, non-negative and below the layer count, and every question has a name, a type, labels and as many files, in the order they follow it. |
| `BridgeArguments.HelpExactly` | native/bonsai_bridge/bonsai_activation_bridge.cpp:104-171 | Help is shown exactly when it is asked for before anything that would be refused. |
| `BridgeArguments.ParseIntExactly` | native/bonsai_bridge/bonsai_activation_bridge.cpp:89-102 | An argument is read as a number exactly when it is blanks, perhaps a sign and at least one digit to its end, and fits a C++ int. |
| `BridgeArguments.LaunchExactly` | src/my_jev/bonsai_native.py:422-425 | The bridge is started exactly when no argument holds a NUL character, and then parses all arguments but its own name. |
| `BridgeArguments.OptionPathsDiffer` | src/my_jev/bonsai_native.py:355-372 | Options with different numbers have different files. |
| `BridgeArguments.OptionPathMeans` | src/my_jev/bonsai_native.py:355-372 | The path of an option file holds its number in decimal, in at least four digits and with no leading zero beyond them. |
| `BridgeCommand.BridgeCommandLine` | src/my_jev/bonsai_native.py:198-310 | The list that grows while the current question is tracked is the command of the record. |
| `BridgeCommand.OptionFilesOf` | src/my_jev/bonsai_native.py:345-384 | Every option of every question, in order, with a file of its own. |
| `BridgeCommand.LaunchKeepsRecord` | src/my_jev/bonsai_native.py:198-310 | Parsing the printed command gives back the record's question names, types, options and files in order and every setting; a record that cannot be transmitted is refused by the spawn or by the parser, never misread. |
| `BridgeCommand.NamelessRefused` | native/bonsai_bridge/bonsai_activation_bridge.cpp:104-210 | The concrete record that is not: a question without a name passes the provider and is refused by the bridge. |
| `BridgeCapture.ValidateFrame` | src/my_jev/bonsai_native.py:442-539 | The comparison of two collected lists accepts exactly the frames that carry the record's questions, options and the provider's contract. |
| `BridgeCapture.GroupsTile` | native/bonsai_bridge/bonsai_activation_bridge.cpp:353-381 | When every question has options, the slices tile 0..option_count. |
| `BridgeCapture.EachOptionInOneGroup` | src/my_jev/activation_protocol.py:232-240 | Each option lies in exactly one group. |
| `BridgeCapture.CaptureRoundTrip` | src/my_jev/bonsai_native.py:312-539 | End to end: command, parse, header, frame, read and validation return the record's questions with tiling slices, unless the header exceeds the reader's limit. |
| `Candidates.ShuffledState` | src/my_jev/model.py:348-352 | Shuffling pairs every record with its predecessor's state, the first with the last one's, and does nothing to a single record. |
| `Candidates.Collect` | src/my_jev/model.py:256-292 | The collecting loops place every question: its slot's texts are its candidates, owned by its record, at matching local and global offsets. |
| `Candidates.RowsOf` | src/my_jev/model.py:317-339 | Cutting the flat batch by a running offset gives each record its own candidates. |
| `Candidates.PaddedSlice` | src/my_jev/model.py:365-393 | A slot read from the padded layout holds the scores of that question against its record's state, one per option. |
| `Candidates.FlatSlice` | src/my_jev/model.py:347-393 | So does the same slot read from the flat layout. |
| `Candidates.ForwardRecords` | src/my_jev/model.py:246-393 | Either head answers every question of every record in order, one score per option, also when shuffled and for no records. |
| `Candidates.BothLayouts` | src/my_jev/model.py:317-393 | The padded layout and the flat layout give identical outputs for every scoring function. |
| `SustainedMoves.SeriesMeaning` | src/my_jev/market_decision.py:762-782 | The series lists exactly the instants with a price, ascending, each with the first price seen at that instant. |
| `SustainedMoves.SustainedMove` | src/my_jev/market_decision.py:717-871 | The detector with its loop and early returns computes the classification of that series. |
| `SustainedMoves.PlainDirection` | src/my_jev/market_decision.py:792-846 | Up is reported exactly for a long enough series that rose by the threshold, never fell to (1 - t) of its first price and ended above (1 - t) of its peak; down symmetrically. |
| `SustainedMoves.MonotoneNeverReverses` | src/my_jev/market_decision.py:792-846 | A monotone series that rose is a plain up, and one that fell a plain down, exactly when the excursion threshold is positive. |
| `SustainedMoves.SilentExactly` | src/my_jev/market_decision.py:767-843 | No signal is given exactly for fewer than two instants, fewer than the minimum, too short a span, or a series that ended where it began and never moved, or stayed within the threshold of its first price. |
| `SustainedMoves.MagnitudeMeans` | src/my_jev/market_decision.py:788-855 | The size of every reported move, on the prices: times the first price it is the distance from first to last, in the direction reported; for a series that ended level, the larger of its two excursions, and the reversal is named after that one. |
| `SustainedMoves.RatioMeans` | src/my_jev/market_decision.py:794-871 | The excursion ratio of a reversal times its size is the larger share of its own move that it handed back, from the first print or from its best; the ratio is at least 1, and only reversals that did not end level carry one. |
| `SustainedMoves.SignalCounts` | src/my_jev/market_decision.py:784-871 | A signal counts the distinct instants, the time between the outer ones, and the venues that priced prints name, at least one. |
| `SustainedMoves.ScaleInvariant` | src/my_jev/market_decision.py:717-871 | Multiplying every price by a positive number changes nothing. |
| `SustainedMoves.ShiftInvariant` | src/my_jev/market_decision.py:717-871 | Moving every instant by the same time changes nothing. |
| `SustainedMoves.ReorderInvariant` | src/my_jev/market_decision.py:717-871 | With distinct instants the order of the observations changes nothing. |
| `SustainedMoves.InvalidExactly` | src/my_jev/market_decision.py:431-443 | The signal violates its own bound on the excursion ratio exactly for a reversal that kept more than it gave back. |
| `SustainedMoves.RiseThenEaseIsInvalid` | src/my_jev/market_decision.py:859-860 | The concrete series 100, 120, 115 does so. |
| `Calendar.NextOrdinal` | src/my_jev/market_asset_index_fund.py:101-130 | Days are numbered without gaps across months, years and leap years, and weekdays advance by one. |
| `Calendar.ClosuresAreObservances` | src/my_jev/market_asset_index_fund.py:101-130 | A weekday is closed exactly when some fixed holiday is observed on it: its own date, the Friday before a Saturday one, or the Monday after a Sunday one. |
| `Calendar.OpenWithinFour` | src/my_jev/market_asset_index_fund.py:101-138 | Of any four consecutive days one is a trading day, observed holidays included. |
| `Calendar.SearchFindsLatest` | src/my_jev/market_asset_index_fund.py:472-481 | The backward search always ends on the latest trading day, at most three days back and so within its ten steps. |
| `Calendar.FindLastTradingDay` | src/my_jev/market_asset_index_fund.py:472-481 | The decrementing loop computes that search. |
| `Calendar.MostRecentEdge` | src/my_jev/market_asset_index_fund.py:453-469 | The edge returned is the latest of today's and yesterday's session boundaries not after now. |
| `Calendar.WindowNeverNegative` | src/my_jev/market_asset_index_fund.py:184-227 | Outside the regular session the window is at least the allowance, so the clamp at zero never acts. |
| `Calendar.LastCloseAdmitted` | src/my_jev/market_asset_index_fund.py:184-227 | On every closed day and after every close, a quote struck at the last close is current. |
| `Calendar.LastCloseAdmittedExactly` | src/my_jev/market_asset_index_fund.py:200-227 | Over all moments, and for allowances under twelve hours, that is so exactly on closed days, after the close, and before pre-market when yesterday traded. |
| `Calendar.PreMarketMissesTheClose` | src/my_jev/market_asset_index_fund.py:208-211 | The concrete moment at which it is not: Wednesday 6 March 2024, 05:00. |
| `TradingHours.TradingDayExactly` | src/my_jev/market_asset_index_fund.py:101-138 | Trading days are exactly the days from Monday to Friday around which none of the three holidays of the year is observed. |
| `TradingHours.ObservedClosures` | src/my_jev/market_asset_index_fund.py:101-130 | The closures the description names and the weekdays they need: Friday 31 December 2021, Monday 5 July 2021 and Friday 3 July 2026 are closed, Thursday 2 July 2026 trades. |
| `TradingHours.SessionExactly` | src/my_jev/market_asset_index_fund.py:168-180 | On trading days pre-market runs from 04:00, the regular session from 09:30 to 16:00 and after-hours to 20:00; everything else is closed. |
| `TradingHours.WindowMeans` | src/my_jev/market_asset_index_fund.py:184-227 | What the freshness window reaches to, in each case: the allowance alone in session; the close of the last day that traded on a closed day; today's close after it; 04:00 in pre-market; 16:00 of the day before earlier than that. |
| `FundFreshness.CloseUsableExactly` | src/my_jev/market_asset_index_fund.py:184-227 | Under the window of the fund policy, a well-formed quote struck at the last close passes the evidence gate exactly at those moments. |
| `FundFreshness.LastCloseDecides` | src/my_jev/market_decision.py:1200-1240 | A fund decision on nothing but that quote chooses it exactly then, whatever the history. |
| `MarketDecision.VenueGateExactly` | src/my_jev/market_decision.py:674-714 | A quote passes the venue gate exactly when it names a venue whose newest reading, the first listed of several at that instant, is recent and reachable, whatever its older ones say. |
| `MarketDecision.EvidenceGateExactly` | src/my_jev/market_decision.py:961-997 | A quote is usable exactly when it is priced, uncrossed, neither future-dated nor stale, and from a live venue if the policy requires one. |
| `MarketDecision.HistoryGateExactly` | src/my_jev/market_decision.py:874-958 | Likewise for a historical print, over the history window. |
| `MarketDecision.GateObservations` | src/my_jev/market_decision.py:961-997 | The loop keeps exactly the quotes that are fresh, not future-dated, uncrossed and, where required, from a live venue. |
| `MarketDecision.GateHistory` | src/my_jev/market_decision.py:874-958 | Likewise for historical prints, over the policy's history window. |
| `MarketDecision.Interpret` | src/my_jev/market_asset_crypto.py:325-400 | For all three policies a quote on its own never supports more than holding, with confidence at most 0.6. |
| `MarketDecision.DecideInstrument` | src/my_jev/market_decision.py:1155-1352 | The pipeline, its early abstentions and its rebinding of the action compute the decision. |
| `MarketDecision.ProposalGrounds` | src/my_jev/market_decision.py:1204-1310 | An increase or reduce always rests on a sound current quote and on sound prints whose last price is at least (1 + threshold) times, or at most (1 - threshold) times, the first, and which held; enough venues have both a sound print and a sound quote, two for crypto and equity; an equity moved by twice its half-spread. |
| `MarketDecision.ProposalExactly` | src/my_jev/market_decision.py:1255-1310 | Once a quote is chosen, increase is proposed exactly when the sound prints rose on those grounds, and reduce exactly when they fell on them. |
| `MarketDecision.ReadingStandsExactly` | src/my_jev/market_decision.py:1255-1310 | What the chosen quote supports on its own stands exactly when the sound prints are grounds neither way; an abstention in particular survives exactly then. |
| `MarketDecision.AbstentionOverridden` | src/my_jev/market_decision.py:1257-1310 | The concrete decision in which it does not: a fund quote ten percent from its net asset value says abstain, the prints 100, 105, 110 say increase, and increase it is. |
| `MarketDecision.DecideRaisesExactly` | src/my_jev/market_decision.py:1204-1310 | A decision raises exactly when a usable quote with a price basis is chosen and the gated history is a reversal that kept more than it gave back. |
| `MarketDecision.RiseThenEaseRaises` | src/my_jev/market_decision.py:1204-1310 | The concrete decision that does: a current fund quote after the prints 100, 120, 115. |
| `MarketDecision.ConfidenceBounded` | src/my_jev/market_decision.py:1310-1352 | Confidence stays between 0 and 1 however many venues agree. |
| `PolicyChoices.FundChooses` | src/my_jev/market_asset_index_fund.py:255-310 | Of two or more last trades the fund declines exactly when two differ by more than the tolerance of the lower, and otherwise acts on the one nearest the middle of the extremes; with fewer, on the first quote. |
| `PolicyChoices.EquityChooses` | src/my_jev/market_asset_equity.py:159-195 | The equity policy declines exactly for several quotes with fewer than two last trades or two that differ by too much, and otherwise acts on the first quote. |
| `PolicyChoices.CryptoChooses` | src/my_jev/market_asset_crypto.py:208-273 | The spot policy acts on the first quote of a single venue; of several it declines exactly with fewer than two middles or two that differ by too much, and otherwise acts on the one nearest the middle of the extremes. |
| `PolicyChoices.OneVenueMeans` | src/my_jev/market_asset_crypto.py:208-273 | Quotes are of one venue exactly when all name the same source, a missing and an empty one being the same. |
| `PolicyChoices.MidpointMeans` | src/my_jev/market_asset_crypto.py:106-113 | The middle of a quote is its last trade, or else the point as far from its bid as from its ask. |
| `PolicyChoices.BrokenTapeDeclined` | src/my_jev/market_asset_index_fund.py:284-294 | The concrete feeds at 100 and 110, which the fund declines. |
| `PolicyChoices.FundReads` | src/my_jev/market_asset_index_fund.py:360-446 | A fund quote says abstain exactly without a price, or with trade and net asset value more than five percent apart; otherwise hold, with the confidence that its distance from the reference gives. |
| `PolicyChoices.EquityReads` | src/my_jev/market_asset_equity.py:257-308 | An equity quote always says hold, with 0.2 out of session, 0.15 without a book or a named source, 0.1 in a wide book and 0.25 otherwise. |
| `PolicyChoices.CryptoReads` | src/my_jev/market_asset_crypto.py:325-400 | A spot quote says abstain exactly without a last trade or with a book wider than five percent of its ask; otherwise hold, with 0.3 in thin hours, 0.25 without a book and 0.2 otherwise. |
| `PolicyChoices.HalfSpreadMeans` | src/my_jev/market_asset_equity.py:311-322 | The fractional half-spread times the sum of the two sides is their difference. |
| `PolicyChoices.CorroborationLifts` | src/my_jev/market_decision.py:1123-1152 | A second venue adds 0.15 to a confidence and a third 0.3, more add nothing, and neither the cap nor the clamp acts. |
| `PolicyChoices.ConfidenceMeans` | src/my_jev/market_decision.py:1255-1352 | The confidence of every decision: what the quote supports, or for a proposal what the size of the move gives its policy, and the lift of the venues that quote soundly now. |
| `CryptoReconciliation.FileByVenue` | src/my_jev/market_asset_crypto.py:225-232 | The dictionary filed in a loop holds, under each venue, exactly its quotes in order. |
| `CryptoReconciliation.ReconcileCrypto` | src/my_jev/market_asset_crypto.py:208-270 | One venue gives its first quote; several that agree give the quote nearest the middle; several that disagree, or no quotes, give none. |
| `CryptoReconciliation.OrderIrrelevantExactly` | src/my_jev/market_asset_crypto.py:115-129 | The choice is independent of input order exactly when a single venue sent one distinct report, or several venues disagree or leave one nearest quote. |
| `CryptoReconciliation.OrderDecides` | src/my_jev/market_asset_crypto.py:115-129 | The concrete reports of two agreeing venues whose order decides. |
| `Rounding.RoundMonotone` | src/my_jev/gpu_plan.py:706-706 | Rounding to decimals, halves to even, keeps the order of amounts. |
| `Rounding.RoundIsNear` | src/my_jev/gpu_plan.py:706-706 | And moves an amount by at most half of the last decimal. |
| `GpuPlan.SelectGpus` | src/my_jev/gpu_plan.py:586-612 | The loop that lowers what remains chooses the greedy prefix of the ranking. |
| `GpuPlan.GreedyIsBest` | src/my_jev/gpu_plan.py:586-612 | The choice covers the need whenever all trusted devices could, with no more devices than any covering trusted choice, and otherwise takes every trusted device with free time. |
| `GpuPlan.PoolOrderIrrelevant` | src/my_jev/gpu_plan.py:601-604 | The order in which the inventory lists devices never matters. |
| `GpuChoice.ChosenAreTrusted` | src/my_jev/gpu_plan.py:586-612 | Every chosen device is a trusted candidate with free time, and they come freest first, ties by id. |
| `GpuChoice.ChosenComeFirst` | src/my_jev/gpu_plan.py:598-612 | No trusted candidate that was left out is freer than one that was chosen, or as free with a smaller id. |
| `GpuChoice.DrawnExactly` | src/my_jev/gpu_plan.py:598-601 | Devices are drawn from a pool exactly when each is taken no more often than trusted candidates list it. |
| `GpuPlan.PlaceChain` | src/my_jev/gpu_plan.py:705-740 | A chain that is not ready, or whose total rounded to two decimals exceeds the budget, places nothing at all; otherwise every stage gets its choice. |
| `GpuPlan.FundedExactly` | src/my_jev/gpu_plan.py:706-709 | A chain is funded exactly when its total in hundredths is below the whole hundredths of the budget plus a half, or equal to that and those are even. |
| `GpuPlan.FundsWhatFitsExactly` | src/my_jev/gpu_plan.py:706-709 | A budget funds every chain of three or four stages that it covers exactly when what it has beyond whole hundredths is under half of one, or an even half. |
| `GpuPlan.FundsOnlyWhatFitsExactly` | src/my_jev/gpu_plan.py:706-709 | And it funds no chain that exceeds it exactly when that part is half a hundredth or more. |
| `GpuPlan.FundingIsTight` | src/my_jev/gpu_plan.py:706-709 | A budget in whole hundredths funds every chain it covers and none that exceeds it by more than half a hundredth. |
| `GpuPlan.RoundingUnderfunds` | src/my_jev/gpu_plan.py:706-709 | A chain that exceeds its budget and is placed: 8.004, 1 and 1 minutes on a budget of 10. |
| `GpuPlan.RoundingRefuses` | src/my_jev/gpu_plan.py:706-709 | A chain that its budget covers and that is refused: 8.006, 1 and 1 minutes on 10.006. |
| `Metrics.OneBin` | src/my_jev/metrics.py:26-40 | Every confidence in [0, 1] lies in exactly one bin. |
| `Metrics.ExpectedCalibrationError` | src/my_jev/metrics.py:17-45 | The accumulating loop computes the weighted sum over non-empty bins. |
| `Metrics.BinsPartition` | src/my_jev/metrics.py:26-45 | Over all bins, counts and signed excess add up to those of all samples. |
| `Metrics.WeightsSumToOne` | src/my_jev/metrics.py:40-44 | The weights of the non-empty bins sum to 1. |
| `Metrics.CalibrationBounds` | src/my_jev/metrics.py:17-45 | The gap between mean correctness and mean confidence is at most the error, and the error at most 1. |
| `Calibration.BinAdds` | src/my_jev/metrics.py:26-45 | The error starts at 0 and each bin adds the size of what its samples got right beyond their confidence, over the number of all samples. |
| `Calibration.BinMeans` | src/my_jev/metrics.py:26-38 | A confidence is in a bin exactly when, in steps of a bin, it is at least the number of the bin and below the next; the last bin takes 1 as well. |
| `Metrics.MulticlassMetrics` | src/my_jev/metrics.py:80-167 | Refused exactly when lengths differ or some prediction has no mass or an ill-fitting target. For index targets the accuracy is the share of predictions whose first greatest entry is the target; for distributions the mean share of the target under that entry. Each confidence is that entry over the mass, and the accuracy is within the reported error of the mean confidence. |
| `Metrics.SampleMeans` | src/my_jev/metrics.py:48-135 | A prediction yields a sample exactly when it can be scored, and the sample is the share of its first greatest entry, negative ones counting as nothing, and the share of the target that entry hits. |
| `Metrics.AccuracyIsHits` | src/my_jev/metrics.py:48-140 | For index targets the accuracy times the count is the number of targets predicted. |
| `Mix.AddSource` | src/my_jev/mix.py:244-329 | Per source, selected = accepted + dropped, and the output grows by the accepted. |
| `Mix.TakeSourcesReflects` | src/my_jev/mix.py:199-329 | The loops succeed exactly when every cap and record is valid and no two records conflict, and then hold the union of the selected contents, once each. |
| `Mix.MixRecords` | src/my_jev/mix.py:159-355 | Succeeds exactly for mixable inputs; the result keeps every selected content once, and with conflicts refused no two records share an identity. |
| `Mix.MixOrderIrrelevant` | src/my_jev/mix.py:159-355 | Two mixes of the same sources in different orders both succeed or both fail, and keep the same contents, each once. |
| `MixInputs.AdmissibleExactly` | src/my_jev/mix.py:84-135 | Which records a mix accepts, on their words: without targets exactly when unlabelled ones are allowed; with targets unless it calls itself unlabelled where that is not, or names one of six distrusted label sources, in any case and with any blanks around. |
| `MixInputs.SelectedMeans` | src/my_jev/mix.py:208-235 | A source without a cap, or no longer than its cap, is taken whole; of a longer one exactly as many records as the cap, in their order. |
| `MixInputs.FirstIsKept` | src/my_jev/mix.py:244-310 | Of several selected records with one content the mix keeps the first, source by source, under the name of its source. |
| `Fleet.FindEligible` | src/my_jev/fleet_policy.py:268-283 | The chain of filters keeps exactly the eligible nodes, in order. |
| `Fleet.FailurePressureCounterfactuals` | src/my_jev/fleet_counterfactuals.py:31-118 | Copying, assigning in loops and appending give the named counterfactuals in order, boundary ones only where there is a boundary. |
| `Fleet.HardEmptiesEligibility` | src/my_jev/fleet_counterfactuals.py:59-118 | Every hard counterfactual leaves no node eligible. |
| `Fleet.PressureKeepsEligibility` | src/my_jev/fleet_counterfactuals.py:102-106 | Claim pressure leaves the same nodes eligible, in the same order. |
| `Fleet.EvaluateFleetSafety` | src/my_jev/fleet_eval.py:30-150 | The nested counting loops compute the tally and its rates. |
| `Fleet.HardScoreExactly` | src/my_jev/fleet_eval.py:57-79 | For any predictor the hard-failure count is full exactly when it defers on every hard counterfactual of every state. |
| `Fleet.PermutedExpectation` | src/my_jev/fleet_eval.py:44-56 | Reversing the nodes does not change whether any is eligible. |
| `Fleet.EligibilityPredictorIsPerfect` | src/my_jev/fleet_eval.py:30-138 | A predictor that follows eligibility scores 1 on hard failures, boundaries and permutations of any states, and is never pressure-sensitive. |
| `FleetCounters.CountersExactly` | src/my_jev/fleet_eval.py:30-109 | For any predictor the boundary count is full exactly when every boundary prediction follows eligibility, the pressure count is zero exactly when claim pressure never changes one, and the agreement count is full exactly when none changes with the nodes listed backwards. |
| `FleetCounters.TotalsMean` | src/my_jev/fleet_eval.py:30-109 | The totals are the numbers of counterfactuals of each kind, and of states. |
| `FleetCounters.FailureVariants` | src/my_jev/fleet_counterfactuals.py:59-101 | A failure counterfactual breaks in every node the one thing it is named for, the mixed one health, draining, reach and staleness in a cycle of four, and nothing else. |
| `FleetCounters.CapacityVariants` | src/my_jev/fleet_counterfactuals.py:59-118 | A capacity counterfactual leaves every node with exactly the demand, or less by at most a hundredth and never below zero, and nothing else changed. |
| `FleetCounters.PressureVariant` | src/my_jev/fleet_counterfactuals.py:102-106 | Claim pressure raises claims to at least eight and lowers free CPU to at most a tenth, and nothing else. |
| `FleetCounters.ExactBoundary` | src/my_jev/fleet_counterfactuals.py:107-118 | On an exact boundary a node is eligible exactly if nothing but that resource stood in its way. |
| `FleetResolver.RankEligible` | src/my_jev/fleet_resolver.py:202-233 | The ranking is a permutation of the eligible nodes, sorted by the key that `FleetResolver.RankedByFacts` states on their facts. |
| `FleetResolver.RankedByFacts` | src/my_jev/fleet_resolver.py:166-233 | One node ranks before another exactly when the other does not outrank it: by more distinct preferred capabilities, then more free VRAM, more free RAM, more free CPU, fewer claims, and the smaller id. |
| `FleetResolver.RankingMeans` | src/my_jev/fleet_resolver.py:202-233 | The ranking holds the same nodes, and none is outranked by a later one. |
| `FleetResolver.ResolveFleetPlacement` | src/my_jev/fleet_resolver.py:247-432 | The cascade of early results computes the resolution. |
| `FleetResolver.ResolutionStaysEligible` | src/my_jev/fleet_resolver.py:247-432 | No node outside eligibility is selected or ranked, and with nothing eligible the resolution defers. |
| `FleetResolver.SelectionExactly` | src/my_jev/fleet_resolver.py:303-432 | A node is named exactly when one may be; it is always the first of the ranking, pinned or not, no eligible node ranks before it, and a split needs two eligible nodes, checkpoints and no pin. |
| `FleetResolver.SelectionIsFirstChoice` | src/my_jev/fleet_resolver.py:303-432 | The selected node is eligible, and no eligible node outranks it on those facts. |
| `FleetResolver.PlacementExactly` | src/my_jev/fleet_resolver.py:247-432 | Which of the six placements a resolution has, each exactly: from how many nodes are eligible, the confidence, the pin, checkpoint support and what the model asks. |
| `FleetResolver.RankingRelisted` | src/my_jev/fleet_resolver.py:202-233 | The ranking of ids does not depend on the order in which nodes are listed. |
| `FleetResolver.ResolutionRelisted` | src/my_jev/fleet_resolver.py:247-432 | Nor does the resolution, except for the order of the eligible ids. |
| `FleetText.SameTextEitherWay` | src/my_jev/fleet_policy.py:101-119 | Nodes with the same sort text, which is escaped to ASCII, are shown as the same text, which is not. |
| `FleetText.ModelStateRelisted` | src/my_jev/fleet_policy.py:98-142 | The order in which the nodes are listed does not reach the text the model sees. |
| `FleetText.ModelStateRenamed` | src/my_jev/fleet_policy.py:98-142 | Nor do the names of the nodes; of the pin only its presence does. |
| `FleetReading.ModelStateReads` | src/my_jev/fleet_policy.py:98-142 | The text is one JSON object and nothing more; reading it gives the source, every demand of the workload under its key, and one object for each node with each of its facts under its key, capabilities sorted. |
| `FleetReading.DocRead` | src/my_jev/fleet_policy.py:137-142 | A document with words for its numbers and truth values is read back as it was. |
| `FleetReading.NodeTold` | src/my_jev/fleet_policy.py:101-114 | A node is told by nine members: its facts, each under its key, and not its id. |
| `FleetAdvisory.BucketsPartition` | src/my_jev/fleet_benchmark_qualification.py:565-577 | The five ignored-lane counts and the usable lanes add up to all lanes. |
| `FleetAdvisory.ScoreWithinQuality` | src/my_jev/fleet_benchmark_qualification.py:421-461 | A lane that is not from the future never scores above its quality, so the clamp to 0 and 1 never acts before rounding. |
| `LaneScores.BetterNeverScoresLower` | src/my_jev/fleet_benchmark_qualification.py:421-461 | A lane at least as good as another in quality, age, health, pressure, latency and throughput never scores lower, before rounding or after. |
| `LaneScores.BetterScoresHigher` | src/my_jev/fleet_benchmark_qualification.py:421-461 | If it is better in one of them, within the range where that counts, and everything else counts for something, it scores higher before rounding. |
| `LaneScores.ScoreEnds` | src/my_jev/fleet_benchmark_qualification.py:421-461 | A lane just observed and healthy, idle, within a second and at 32 tokens a second or more scores its quality, rounded; one without latency or throughput scores 0. |
| `LaneScores.RawScoreMeans` | src/my_jev/fleet_benchmark_qualification.py:421-461 | Before rounding the score is the quality times the five factors. |
| `LaneScores.FreshnessMeans` | src/my_jev/fleet_benchmark_qualification.py:428-431 | Freshness falls in proportion to the age of the observation, to nothing at the bound. |
| `LaneScores.HealthMeans` | src/my_jev/fleet_benchmark_qualification.py:432-439 | Health falls in proportion to the age of the last healthy observation. |
| `LaneScores.LatencyMeans` | src/my_jev/fleet_benchmark_qualification.py:441-446 | Latency costs nothing up to a second; beyond, the factor times the latency is 1. |
| `LaneScores.ThroughputMeans` | src/my_jev/fleet_benchmark_qualification.py:447-452 | Throughput counts in proportion up to 32 tokens a second, and fully from there. |
| `LaneScores.UsableMeans` | src/my_jev/fleet_benchmark_qualification.py:389-405 | A lane is usable exactly when it is recent and not from the future, trusted, recently healthy and on an eligible node. |
| `LaneScores.QualifiesMeans` | src/my_jev/fleet_benchmark_qualification.py:407-419 | A summary-only lane serves summaries and nothing else; any other serves the roles it is qualified for, and no summaries. |
| `LaneScores.CountsMean` | src/my_jev/fleet_benchmark_qualification.py:565-620 | Each of the five counts of an advisory is the number of lanes with that fault first: from the future, too old, doubtful in quality, health not seen lately, on a node that is not eligible. |
| `FleetAdvisory.LeaderIsBest` | src/my_jev/fleet_benchmark_qualification.py:498-509 | The first ranked entry belongs to a qualified lane and no qualified lane scores higher; there is none exactly when no lane qualifies. |
| `LaneScores.AdvisoryLeads` | src/my_jev/fleet_benchmark_qualification.py:535-689 | The first node an advisory prefers, and the node it selects, is that of a qualified usable lane that no other outscores, none by more than rounding hides, and none at least as good in every field. |
| `FleetAdvisory.Preferences` | src/my_jev/fleet_benchmark_qualification.py:492-532 | The loop raises exactly for a missing or repeated handle among the listed nodes, and otherwise lists the best lanes and their leader. |
| `FleetAdvisory.PreferencesAreEarned` | src/my_jev/fleet_benchmark_qualification.py:492-532 | Each preference names a lane qualified for the role under that node's own handle, better ones first, no handle twice. |
| `FleetAdvisory.CodersThenReviewers` | src/my_jev/fleet_benchmark_qualification.py:664-681 | In a split, reviewers follow coders and are never on the leading coder's node. |
| `FleetAdvisory.SplitExactly` | src/my_jev/fleet_benchmark_qualification.py:653-689 | Work is split exactly for coding with another node to review, two eligible nodes and checkpoint support. |
| `FleetAdvisory.UnservedIsBounded` | src/my_jev/fleet_benchmark_qualification.py:633-651 | An unserved role defers, with scouting as fallback exactly for coding with a scout-qualified lane. |
| `FleetAdvisory.RaisesExactly` | src/my_jev/fleet_benchmark_qualification.py:622-689 | The advisory is refused exactly when more nodes are eligible than its count field takes, or for unusable handles among the lanes it consults: those of the role, and for coding those of scouts or reviewers. |
| `FleetAdvisory.OnlyCrowdingActs` | src/my_jev/fleet_benchmark_qualification.py:263-276 | Of the bounds its fields declare, on six counts, the list and every score, only the one on eligible nodes can refuse an advisory. |
| `FleetAdvisory.RefusesExactly` | src/my_jev/fleet_benchmark_qualification.py:492-532 | While a role has at most sixteen lanes, they are refused exactly when one lacks a handle or two share one, however they are ranked. |
| `FleetAdvisory.CrowdedFleetRefused` | src/my_jev/fleet_benchmark_qualification.py:263-276 | The concrete fleet of 129 healthy nodes: no advisory, whatever the lanes, the role and the handles. |
| `FleetAdvisory.AdvisoryIsBounded` | src/my_jev/fleet_benchmark_qualification.py:535-689 | Every advisory prefers and selects eligible nodes only, defers exactly when nothing is eligible or nothing qualifies, and accounts for every lane. |
| `FleetAdvisory.AdvisoryRelisted` | src/my_jev/fleet_benchmark_qualification.py:535-689 | Listing the nodes in another order changes neither the advisory nor whether one is refused. |
| `FleetAdvisory.BuildAdvisory` | src/my_jev/fleet_benchmark_qualification.py:535-689 | The branches with their early returns and the checked construction compute exactly that advisory, refusals included; `LaneScores.AdvisoryLeads` says on the lanes what it puts first. |

## Left out

- Locking.Lease.Acquire: is the non-blocking form.
- Locking.Lease.Release: an error raised while the owner record is unlinked or the descriptor closed is not modelled; in `LockProtocol` such a process is one that stops while releasing and is later killed.
- Locking.LeaseSet.Acquire: is the non-blocking form and asks for distinct lock files within the set; waiting for a lock is part of `LockProtocol`, and the names runs use have distinct files by `Devices.ExperimentFilesDistinct`.
- Devices.CanonicalIsPrefixedDigits: spaces and digits are the ASCII ones; Python also accepts other Unicode spaces and digits.
- RunLeases.RunsTogetherUseDistinctCards: is about the leases a run takes, which cover the device of the `train` stage only.
- RunLifecycle.RunsKeepInv: a session is one step here; `RunSessions.SessionsRefine` and `RunRealisation.SessionsRealise` show that this loses and adds nothing.
- Registry.ChangesKeepIdentity: the changes are those the callers make, none of which names an identity attribute.
- Registry.ExperimentRegistry.Update: an attribute is one of those the callers change, and a field value is opaque.
- AtomicWrite.AtomicWriteBytes: creating the parent directory and naming the temporary are not modelled; temporaries are distinct by construction.
- FrameStream.ReadActivationFrame: a header field of an unexpected JSON type is one kind of malformed frame; the reader's coercions of such fields, and JSON numbers with fractions or exponents, are not modelled, nor lone surrogates in text.
- FrameStream.WriteActivationFrame: converting a tensor to the payload type, and the precision it loses, is not modelled.
- BridgeFrame.WriteFrame: a failing output stream, the partial file a failure leaves, and overflow of native sizes are not modelled.
- BridgeArguments.ParseIntExactly: values are unbounded before the check against `int`, so an overflow of `long`, which the source refuses as well, is not told apart.
- BridgeCommand.LaunchKeepsRecord: the limits an operating system sets on the length of a command line are not modelled.
- Candidates.ForwardRecords: scoring is an arbitrary function of a state and a candidate; tokenizing, truncation, pooling and masking inside the heads are not modelled.
- SustainedMoves.SustainedMove: prices are exact reals, so nothing is said about rounding.
- Calendar.LastCloseAdmittedExactly: covers one local clock without daylight-saving changes, and allowances under twelve hours, which every shipped allowance is.
- MarketDecision.DecideInstrument: reasons, notes, counts of rejections and the digest are left out, as are the null policy and the single-quote entry point.
- GpuPlan.PlaceChain: minutes are needed amounts, and sums exact; estimating and calibrating them, and the notes, are left out.
- Metrics.MulticlassMetrics: log loss and Brier score are left out.
- Mix.MixRecords: reading files and their manifests is left out; which records a cap draws, and the final shuffle, are parameters.
- FleetResolver.ResolveFleetPlacement: the model's distribution enters as a placement and a confidence rank; reasons are left out.
- FleetText.ModelStateRelisted: how a float prints is a parameter that uses no comma.
- FleetReading.ModelStateReads: how a float prints is a parameter that gives a word without a comma or a bracket; the reader is one written for this text.
- LaneScores.BetterScoresHigher: holds before rounding to six decimals; rounding can make two lanes equal.
- FleetAdvisory.BuildAdvisory: which handles are well formed is a parameter; opaque-handle syntax, reasons, the identity scan of the document and expiry are left out. The advisory does depend on node names where scores tie.
- Fleet.FailurePressureCounterfactuals: the metadata written beside each variant is left out.
- Training, model servers, tokenizers, command-line entry points, subprocess stages, git state, signatures and hashing are outside the model.
- Promotion gates, adjudication, synthetic data, perturbation and audit are outside the model: they would add only easy members.
