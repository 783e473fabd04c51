# Verified model of the recompile runtime and its finding pipeline

This project models, in Dafny 4.11, the part of recompile that decides what is
reported: the BPF heap and descriptor trackers, the bulk-write checker, the
event channel they share, the userland agent that turns events into findings,
and the Rust code that fingerprints, groups, promotes, aggregates and escalates
those findings. `dafny verify dfyconfig.toml` checks everything.

The state that the programs update in place is held in classes whose methods
follow the handlers branch by branch: `HeapProbes.Tracker`, `FdTracker.Tracker`,
`CopyChecker.Checker`, `Sentinel.SentinelChannel`, `Agent.FindingRing`,
`Escalation.RepeatEscalationState`. Each method is proved to take the abstract
value of the object (`View()`, or the emission history `log`) to the value a
specification function gives; the main theorems are then about arbitrary runs
of those functions. The two trackers and the channel also carry the run that
brought them about, what other users of the shared channel did included, so those
theorems are ones about every valid object (`EndToEnd.TrackerObeysRunTheorems`,
`DescriptorRuns.FdTrackerObeysRunTheorems`, `SentinelChannel.Accounts`).

- `Words`: 32- and 64-bit words, wrap-around, saturation, the calloc overflow test.
- `RangeIndex`, `IndexInvariants`, `IndexRuns`, `IndexLoss`: the page-range index,
  its soundness and completeness, lookup against a scan, which allocations a
  dense page loses.
- `Sentinel`: sequence numbers and drop counts of the shared channel.
- `HeapTracker`, `HeapProbes`, `Handoff`, `FreeHistory`: the allocation probes,
  entry-to-return hand-off, free verdicts against a pointer's own history.
- `Allocations`: what the return of each allocator call leaves behind, in numbers.
- `CopyChecker`, `Agent`, `EndToEnd`: writes, the de-duplication ring, the leak
  drain, and what becomes a finding.
- `Findings`: the findings in full, every field of every key, from what the target did.
- `FdTracker`, `Descriptors`, `DescriptorRuns`: descriptor maps against a kernel
  table in which a call takes effect at one moment and is seen at others.
- `JsonEscape`: the bounded escaper.
- `Fnv`, `Grouping`, `Separators`, `IssueGroups`, `RepeatGroups`, `RepeatSummary`,
  `Promotion`, `PromotionLaws`, `AttemptEvidence`, `Escalation`: the Rust side.
- `Preimages`, `Samples`: what a fingerprint tells apart, and the fields of a finding
  it is made from; `Enrichment`, `PromotionEffects`: what promotion writes.

Kernel answers a handler depends on are parameters: room for a per-process
state (`stateOk`), room in the ring (`ringOk`), user stack ids, values read from
user memory, the order in which map keys are handed out. Every handler is one
atomic step.

## What the proofs found

- The index is sound in every reachable state, but complete only while no page
  is shared by more than four live allocations (`IndexRuns.CompleteIffSparse`): a
  fifth overwrites slot 0. `IndexRuns.DensePageIsIncomplete` gives the run, and
  `IndexLoss.MissingIffSlotZeroLost` says which allocations are missing in any
  state: those found in slot 0 by a store on the full page since they were made.
- The size codec loses exactly one size, 2^64-2 (`Handoff.CodecExactIff`).
- Event sizes saturate at 2^32-1. `CopyChecker.OverflowVerdictCorrectIff` gives
  exactly the writes the agent then misjudges, `HugeCopyFalselyReported` and
  `HugeOverrunMissed` a run for each kind.
- The inner `free` of operator delete clears the freed entry, so a second
  `delete` afterwards is an invalid free rather than a double free
  (`FreeHistory.SecondDeleteIsInvalid`).
- A return inside which another call returned finds no size: malloc then goes
  untracked, and new is tracked with size zero (`Handoff.OuterReturnLosesSize`), as
  operator new around malloc is (`Handoff.NestedNewLosesSize`).
- The old pointer of a realloc waits in one slot per thread, which a realloc of a
  null pointer leaves as it is and any return of realloc empties. So a return
  retires its own pointer exactly when that is still in the slot, and another live
  pointer exactly when that is (`Handoff.ReallocRetiresOwnPointerIff`). A realloc of
  null right inside a realloc retires the outer pointer
  (`NestedReallocTakesOuterPointer`); once an inner realloc has returned, neither
  that nor the outer return retires it (`ReturnedReallocSparesOuterPointer`).
- A comment in re-mini.c says an invalid free is withheld when an overflow of
  "this exact allocation" was reported. The code compares the address written
  to: a free inside the overrun allocation is reported all the same unless it is
  of that very address (`EndToEnd.SuppressionIsByWriteAddress`, with the run
  `EndToEnd.SecondSymptomReported`); the model follows the code.
- Pointers from operator new given to free twice go unreported once the mismatch
  of the first is forgotten (`EndToEnd.FreedTwiceIsHidden`).
- The descriptor maps record calls in the order in which exit probes see them,
  not in the order in which the kernel carried them out. They follow the kernel
  throughout a run, up to calls in flight, exactly when the newest call in flight
  on a descriptor is never seen while the next newest is of the other kind, and
  every `open` recorded again finds its descriptor held, or a call on it in flight
  (`DescriptorRuns.OpenFdsRefineKernelIff`). Overlap alone does no harm: calls
  seen in the order of their effects, or two calls of one kind, may overlap. A run
  for each failure: `OvertakenCloseLosesDescriptor` (an open descriptor vanishes)
  and `LateOpenExitRevivesDescriptor` (a closed one is reported as a leak).
- Promotion writes the trimmed summary but keys on the untrimmed one. Promoting
  again adds nothing exactly when every detection neither confirmed nor known has a
  summary without blanks at its ends (`PromotionLaws.StableIffTrimmed`). The
  repository's own parsers store trimmed lines (recompile/re-escalate/src/asan.rs:43,
  lsan.rs:42, ubsan.rs:39, valgrind.rs:43) and the fallback summary has none, so
  for them `AllTrimmed` always holds; only a report file from elsewhere repeats
  (`PromotionLaws.HandWrittenReportRepeats`).
- A list of attempts can have a first failure and no best evidence, or evidence
  before any failure: exactly when status and finding count disagree in a stated
  way (`RepeatSummary.EvidenceAndFailureIff`). Attempts made from the results of
  the repository's own tool runners never do
  (`AttemptEvidence.OwnAttemptsHaveEvidence`).

## Model

| member | source | states |
|---|---|---|
| Words.MulOverflow64 | recompile/runtime/bpf/heap_tracker.bpf.c:817-837 | overflow is reported exactly when a*b reaches 2^64, otherwise the product is exact, for all 64-bit operands |
| RangeIndex.StoreRangeSlot | recompile/runtime/bpf/heap_tracker.bpf.c:380-404 | writes the first slot that is free or already has the base, slot 0 when there is none, and no other slot |
| RangeIndex.ClearRangeSlot | recompile/runtime/bpf/heap_tracker.bpf.c:406-418 | clears every slot with the base and no other |
| RangeIndex.PageSpan | recompile/runtime/bpf/heap_tracker.bpf.c:427-434 | the wrapping page arithmetic gives the first page and at most 64 pages, one when the last byte wraps |
| RangeIndex.IndexAllocationRange | recompile/runtime/bpf/heap_tracker.bpf.c:420-453 | stores into exactly the buckets of the allocation's pages, for the whole map |
| RangeIndex.RemoveAllocationRange | recompile/runtime/bpf/heap_tracker.bpf.c:455-483 | clears exactly the buckets of the allocation's pages |
| IndexInvariants.RemovalKeepsIndex | recompile/runtime/bpf/heap_tracker.bpf.c:485-496 | dropping an allocation with its index entries keeps soundness, and completeness if it held |
| IndexInvariants.InsertionKeepsSound | recompile/runtime/bpf/heap_tracker.bpf.c:420-453 | indexing one more allocation keeps every slot naming a live allocation on that page, bases distinct, even when a slot is overwritten |
| IndexInvariants.InsertionCompleteIffSparse | recompile/runtime/bpf/heap_tracker.bpf.c:380-404 | indexing one more allocation keeps the index complete exactly when no page then has more than four live allocations |
| IndexInvariants.CompleteImpliesSparse | recompile/runtime/bpf/heap_tracker.bpf.c:380-404 | pigeonhole: a sound, complete index allows at most four live allocations per page |
| HeapTracker.ReachableInv | recompile/runtime/bpf/heap_tracker.bpf.c:485-646 | in every reachable state, failed reservations included: sound index, allocs and freed disjoint, live pointers non-null, processes with live pointers armed |
| IndexRuns.CompleteIffSparse | recompile/runtime/bpf/heap_tracker.bpf.c:380-453 | for every run: complete after every prefix exactly when sparse after every prefix |
| IndexRuns.DensePageIsIncomplete | recompile/runtime/bpf/heap_tracker.bpf.c:398-403 | after five 16-byte allocations side by side on one page all are live, and the lookup finds the last four and loses the first, whose slot 0 the fifth store overwrote |
| IndexLoss.MissingIffSlotZeroLost | recompile/runtime/bpf/heap_tracker.bpf.c:380-404 | in every reachable state a live allocation is missing from the bucket of one of its pages exactly when, since it was allocated, a step gave slot 0, which it had, to another |
| IndexRuns.EvictionSoundIff | recompile/runtime/bpf/heap_tracker.bpf.c:17-37 | LRU eviction of freed entries or buckets is harmless to soundness; of a live entry exactly when no bucket names it |
| IndexRuns.LookupAllocRange | recompile/runtime/bpf/copy_checker.bpf.c:133-156 | the slot loop returns the first covering slot of the bucket of the address |
| IndexRuns.LookupIsLive | recompile/runtime/bpf/copy_checker.bpf.c:133-156 | whatever the lookup returns is a live allocation of the process around the address, with its data |
| IndexRuns.LookupMatchesScan | recompile/runtime/bpf/copy_checker.bpf.c:133-156 | with a complete index and one live allocation at the address, the lookup is that allocation on its indexed pages and nothing elsewhere |
| IndexRuns.IndexedPagesCoverAllocation | recompile/runtime/bpf/heap_tracker.bpf.c:427-434 | an address inside an allocation is on an indexed page exactly when it is among the first 64, or on the first if the allocation wraps |
| HeapProbes.Tracker.CallocEnter | recompile/runtime/bpf/heap_tracker.bpf.c:861-870 | remembers the exact product, zero on overflow |
| HeapProbes.Tracker.StrdupEnter | recompile/runtime/bpf/heap_tracker.bpf.c:364-378 | remembers the length read, the unknown marker outside 1..255, zero for a null source |
| HeapProbes.Tracker.AllocExit | recompile/runtime/bpf/heap_tracker.bpf.c:509-559 | takes the pending size, tracks or re-tracks the pointer, indexes it, arms, posts; the trace goes on by one probe |
| HeapProbes.Tracker.ReallocExit | recompile/runtime/bpf/heap_tracker.bpf.c:896-924 | retires the old pointer on a move or a zero-size free, then records the result; the trace goes on by one probe |
| HeapProbes.Tracker.MemalignExit | recompile/runtime/bpf/heap_tracker.bpf.c:971-986 | records the stored pointer only for status zero and a readable slot; the trace goes on by one probe |
| HeapProbes.Tracker.Release | recompile/runtime/bpf/heap_tracker.bpf.c:561-646 | silent case, verdict, arming gate, post, and the move to freed only if posted; the trace goes on by one probe |
| HeapProbes.Tracker.OthersKeepValid | recompile/runtime/bpf/heap_tracker.bpf.c:197-241 | whatever other users do to the shared channel leaves a valid tracker valid, with their operations in its trace |
| Handoff.OwnEntryArrives | recompile/runtime/bpf/heap_tracker.bpf.c:259-297 | under any interleaving and nesting, a thread finds exactly what its last entry stored until something returns inside that call, and then no size at all |
| Handoff.ReturnedLeavesNothing | recompile/runtime/bpf/heap_tracker.bpf.c:259-297 | a thread whose calls have all returned, nested ones included, has nothing pending |
| Handoff.CodecExactIff | recompile/runtime/bpf/heap_tracker.bpf.c:259-279 | encoding then decoding is the identity except that 2^64-2 becomes 2^64-1 |
| Handoff.ReturnTracksRequestedSize | recompile/runtime/bpf/heap_tracker.bpf.c:843-986 | any recorded return, of realloc and memalign too, in which nothing else returned tracks its pointer with the size its own thread asked for, exactly when that is not 2^64-2, at any depth of nesting |
| Allocations.ReturnTracks | recompile/runtime/bpf/heap_tracker.bpf.c:843-986 | in every run, the size tracked by the return of each call, in numbers: the product for calloc and 0 from 2^64 on, the length read for strdup if 1..255, 2^64-1 otherwise, 0 for a null source, the size asked for malloc, new, realloc and memalign, 2^64-2 becoming 2^64-1; with the stack and the family of the return |
| Allocations.ReturnPosts | recompile/runtime/bpf/heap_tracker.bpf.c:509-559 | it posts one event with the pointer, the stack and the tracked size cut at 2^32-1, and leaves the process armed |
| Allocations.EmptyReturnRecordsNothing | recompile/runtime/bpf/heap_tracker.bpf.c:509-559 | a null result, a failed posix_memalign, a null or unreadable slot and a process without state change no record and post nothing |
| Allocations.NullReallocFreesAtSizeZero | recompile/runtime/bpf/heap_tracker.bpf.c:896-924 | a realloc that returns null retires its pointer if the size was zero and changes nothing otherwise |
| Handoff.OuterReturnLosesSize | recompile/runtime/bpf/heap_tracker.bpf.c:509-559 | a return inside which another call returned tracks nothing for malloc, and size zero without index entries for new |
| Handoff.ReallocRetiresSlot | recompile/runtime/bpf/heap_tracker.bpf.c:895-924 | in every run a return of realloc with a result moves exactly the live pointer in its thread's slot to freed, unless it landed there, and keeps every other live entry |
| Handoff.ReallocRetiresOwnPointerIff | recompile/runtime/bpf/heap_tracker.bpf.c:895-924 | the realloc that returns retires its own pointer exactly when that is in the slot, as it is if nothing returned inside it, and leaves all others alone exactly when the slot is empty or holds its own pointer, the result or a pointer not live |
| Handoff.NestedReallocTakesOuterPointer | recompile/runtime/bpf/heap_tracker.bpf.c:881-924 | after any run, a realloc of null entered right inside one of a live pointer retires that pointer when it returns |
| Handoff.ReturnedReallocSparesOuterPointer | recompile/runtime/bpf/heap_tracker.bpf.c:881-924 | after any run, once a realloc of another pointer has returned inside one of a live pointer, neither a realloc of null inside it nor its own return retires that pointer |
| Handoff.NestedNewLosesSize | recompile/runtime/bpf/heap_tracker.bpf.c:926-940 | operator new around malloc is tracked with size zero and is not indexed |
| FreeHistory.TrackerRefinesHistory | recompile/runtime/bpf/heap_tracker.bpf.c:485-646 | for every run and pointer the maps hold exactly what the pointer's own history of touches determines |
| FreeHistory.ReleasePostsHistoryVerdict | recompile/runtime/bpf/heap_tracker.bpf.c:561-646 | in every reachable state a release posts exactly the verdict of the pointer's history; the arming gate never swallows one |
| FreeHistory.VerdictFromHistory | recompile/runtime/bpf/heap_tracker.bpf.c:575-604 | benign, mismatch, double, silent and invalid, each if and only if, from the positions of allocations and releases in the history |
| FreeHistory.SecondDeleteIsInvalid | recompile/runtime/bpf/heap_tracker.bpf.c:575-604 | after new, delete and the free inside it, a second delete posts an invalid free; without the inner free it would post nothing |
| Sentinel.SentinelChannel.Emit | recompile/runtime/bpf/heap_tracker.bpf.c:197-247 | reserve and submit: header, sequence number and drop count on success, one more drop on failure |
| Sentinel.EventsAreNumbered | recompile/runtime/bpf/sentinel_extra.bpf.c:91-137 | for every run of the programs sharing the state, the k-th submitted event of a process carries sequence number k modulo 2^64 |
| Sentinel.DropsBalance | recompile/runtime/bpf/copy_checker.bpf.c:66-116 | failed reservations equal the submitted drop counts plus the current counter plus 2^32 for each wrap |
| Sentinel.DropAccountingExact | recompile/runtime/bpf/heap_tracker.bpf.c:207-240 | drop counts and counter account for every failed reservation exactly when no 2^32 fail in a row |
| Sentinel.SentinelChannel.Accounts | recompile/runtime/bpf/heap_tracker.bpf.c:197-241 | every valid channel object is numbered, and accounts for every failed reservation exactly when its own log has no 2^32 in a row |
| CopyChecker.Checker.RecordHeapWrite | recompile/runtime/bpf/copy_checker.bpf.c:158-220 | counts the hit and posts the attributed write of an armed process |
| CopyChecker.OverflowVerdictExact | recompile/runtime/agent/re-mini.c:850-859 | what the 32-bit test decides in terms of the 64-bit size, offset and length |
| CopyChecker.OverflowVerdictCorrectIff | recompile/runtime/bpf/copy_checker.bpf.c:118-121 | the test equals offset + len > size exactly under a stated arithmetic condition; always below 2^32-1 |
| CopyChecker.BaseWriteNeverFalse | recompile/runtime/agent/re-mini.c:850-859 | a write at the base is never falsely reported, for any 64-bit size and length |
| CopyChecker.ReportedOverflowIsReal | recompile/runtime/bpf/copy_checker.bpf.c:158-220 | in every sound state a reported overflow names a live allocation around the destination; if its size is below 2^32-1 or the write is at its base, it really overruns it |
| CopyChecker.HugeCopyFalselyReported | recompile/runtime/bpf/copy_checker.bpf.c:118-121 | otherwise it may not: a copy that fits into an 8 GB allocation and is reported |
| CopyChecker.HugeOverrunMissed | recompile/runtime/bpf/copy_checker.bpf.c:118-121 | a copy that overruns a 4 GB allocation by one byte and is not reported |
| CopyChecker.OverrunReportedIff | recompile/runtime/bpf/copy_checker.bpf.c:158-220 | with a complete index an attributable write is reported exactly when it overruns |
| Agent.FindingRing.OnSentinelEvent | recompile/runtime/agent/re-mini.c:826-957 | the event filter: exactly the candidate finding, unless remembered, extends the history |
| Agent.FindingRing.AlreadyEmitted | recompile/runtime/agent/re-mini.c:1736-1743 | scanning the ring decides membership in the last 256 emissions |
| Agent.FindingRing.EmittedForAddr | recompile/runtime/agent/re-mini.c:1753-1773 | decides whether the last 256 emissions have that kind at that address of the process |
| Agent.FindingRing.MarkEmitted | recompile/runtime/agent/re-mini.c:1745-1751 | the circular array keeps holding exactly the last 256 emissions |
| Agent.EmissionKeepsHistory | recompile/runtime/agent/re-mini.c:861-957 | equal findings stay separated by at least 256 others, and no secondary symptom follows its cause within 256 |
| Agent.CandidateIsRemembered | recompile/runtime/agent/re-mini.c:861-957 | after an event that stands for a finding, that finding is among the last 256 |
| Agent.FindingRing.DrainFdLeaks | recompile/runtime/agent/re-mini.c:1775-1829 | the walk over the open map, with de-duplication |
| Agent.DrainEmitsEachOnce | recompile/runtime/agent/re-mini.c:1784-1828 | one leak for each allowed open descriptor, in walk order, however many there are |
| Agent.ChannelReportsNoLeak | recompile/runtime/bpf/heap_tracker.bpf.c:686-753 | no event on the shared channel stands for a leak, in any run of the descriptor tracker among programs that post none |
| Agent.DrainReportsHeldIff | recompile/runtime/agent/re-mini.c:1775-1829 | after any session on the shared channel, whatever events of it were delivered, the drain adds one leak for each accepted descriptor last seen obtained; these are the held ones exactly when last seen and last done agree on acquisition, as in every orderly run with nothing in flight |
| EndToEnd.ReleaseBecomesFinding | recompile/runtime/agent/re-mini.c:884-928 | a posted release describes the pointer's last allocation and becomes exactly the finding its history calls for, save the secondary-symptom rules |
| EndToEnd.HiddenDoubleFreeIff | recompile/runtime/agent/re-mini.c:896-904 | a double free is kept silent exactly after a remembered mismatch at the address or for storage from new given to free again, whose first release had then mismatched |
| EndToEnd.FreedTwiceIsHidden | recompile/runtime/agent/re-mini.c:898-904 | new, free, free posts a double free that becomes no finding, whatever is remembered |
| EndToEnd.SuppressionIsByWriteAddress | recompile/runtime/agent/re-mini.c:890-895 | in every state with a complete index and for every log: after an overrun from dst was reported, the invalid free of a pointer into the same allocation is withheld exactly when the pointer is dst |
| EndToEnd.SecondSymptomReported | recompile/runtime/agent/re-mini.c:890-895 | a run in which it is not withheld |
| EndToEnd.TrackerObeysRunTheorems | recompile/runtime/bpf/heap_tracker.bpf.c:485-646 | a valid tracker object satisfies the invariant, projects to the history of its trace, has a complete index if its trace is sparse, and a numbered channel |
| EndToEnd.OverrunBecomesFinding | recompile/runtime/agent/re-mini.c:845-882 | an attributable write becomes an overflow finding exactly when it overruns |
| Findings.LiveReleaseReported | recompile/runtime/bpf/heap_tracker.bpf.c:498-507 | in every run the release of a live pointer posts status 0 exactly for malloc with free, new with delete, new[] with delete[] and an unknown family, which is no finding; any other posts 3 and becomes a mismatch with the site, size and family of the allocation and the stack of the release |
| Findings.AllocateAndRelease | recompile/runtime/bpf/heap_tracker.bpf.c:561-646 | after any run, allocating and releasing at once is no finding exactly for the families that fit |
| Findings.DoubleReleaseReported | recompile/runtime/agent/re-mini.c:884-928 | in every run the release of a pointer given up by free or realloc posts status 1; it becomes a double free with all its fields unless a mismatch at the address is remembered or it is free on storage from new |
| Findings.InvalidReleaseReported | recompile/runtime/agent/re-mini.c:884-895 | in every run the release of what never was a pointer posts status 2 and becomes an invalid free that names no allocation, unless an overflow at the address is remembered |
| Findings.OverrunReported | recompile/runtime/agent/re-mini.c:845-882 | with a complete index an attributable write becomes a finding exactly when it overruns, with the site and size of the allocation and the offset, length and stack of the write |
| Findings.BaseWriteNeedsNoIndex | recompile/runtime/bpf/copy_checker.bpf.c:158-220 | a write at the base of a live allocation is judged right whatever the index has lost; one of size zero never overruns |
| Findings.StrayWriteIsSilent | recompile/runtime/bpf/copy_checker.bpf.c:158-220 | a write where nothing of the process is live is never a finding, whatever its length |
| Findings.UnarmedWriteIsSilent | recompile/runtime/bpf/copy_checker.bpf.c:158-220 | a write to null, or by a process that was never armed, posts nothing |
| Findings.EventEmits | recompile/runtime/agent/re-mini.c:826-957 | an event of an allowed process adds the finding it stands for unless that is among the last 256; any other adds nothing |
| Findings.RemembersLast256 | recompile/runtime/agent/re-mini.c:1736-1751 | what is remembered is exactly what was emitted among the last 256 |
| Findings.LeakReported | recompile/runtime/agent/re-mini.c:1775-1829 | a leak names the descriptor and the site of its acquisition, status 3, and no stack |
| FdTracker.Tracker.RecordOpenReturn | recompile/runtime/bpf/heap_tracker.bpf.c:648-678 | records an acquisition for a descriptor in range, nothing otherwise |
| FdTracker.Tracker.RecordCloseReturn | recompile/runtime/bpf/heap_tracker.bpf.c:686-753 | consumes the pending close; moves, ignores or posts |
| FdTracker.Tracker.RecordDupReturn | recompile/runtime/bpf/heap_tracker.bpf.c:755-814 | consumes the pending dup; no-op dup2 excluded; origin inherited |
| FdTracker.Tracker.RawSysExit | recompile/runtime/bpf/heap_tracker.bpf.c:1198-1210 | the three pending kinds in order; the trace goes on by one probe |
| FdTracker.Tracker.OthersKeepValid | recompile/runtime/bpf/heap_tracker.bpf.c:197-241 | whatever other users do to the shared channel leaves a valid tracker valid, with their operations in its trace |
| Descriptors.RunCoherent | recompile/runtime/bpf/heap_tracker.bpf.c:299-362 | in every run the two maps are disjoint and each pending map holds exactly what its thread's call put there |
| Descriptors.StepRecords | recompile/runtime/bpf/heap_tracker.bpf.c:648-814 | each step changes the keys of the maps by exactly the change of the call whose exit it sees, however many probes see the call |
| DescriptorRuns.OpenFdsRefineKernelIff | recompile/runtime/bpf/heap_tracker.bpf.c:648-814 | for every run and any number of probes per call: the maps follow the kernel at every prefix, up to the calls in flight, exactly when the newest call in flight on a descriptor is never seen while the next newest is of the other kind, and every open recorded again finds its descriptor held or a call on it in flight |
| DescriptorRuns.AgreesIffLastSeenIsLastDone | recompile/runtime/bpf/heap_tracker.bpf.c:648-814 | in every run, at every moment, maps and kernel agree on a descriptor exactly when the last change seen is of the kind of the last change made, or no acquisition was seen and none made |
| DescriptorRuns.QuietDescriptorAgrees | recompile/runtime/bpf/heap_tracker.bpf.c:648-814 | with nothing in flight on a descriptor of an orderly run, the open map is what tracked calls hold open, the closed map what was given up and not obtained again |
| DescriptorRuns.ApartIsOrderly | recompile/runtime/bpf/heap_tracker.bpf.c:648-814 | runs in which no two calls on one descriptor overlap, and opens recorded again find it held, are orderly |
| DescriptorRuns.OvertakenCloseLosesDescriptor | recompile/runtime/bpf/heap_tracker.bpf.c:686-721 | a run in which the exit of a close seen after that of a later open takes the open descriptor out of the map |
| DescriptorRuns.LateOpenExitRevivesDescriptor | recompile/runtime/bpf/heap_tracker.bpf.c:648-678 | a run in which a second exit probe of an open brings a closed descriptor back |
| DescriptorRuns.CloseVerdict | recompile/runtime/bpf/heap_tracker.bpf.c:686-753 | in every run the first exit posts exactly for a failed close of a descriptor not last seen obtained: double if it was ever seen obtained, invalid otherwise |
| Findings.CloseReported | recompile/runtime/agent/re-mini.c:928-935 | in every run the first exit of a failed close of a descriptor not last seen obtained becomes a finding: double close, status 1, if it was ever seen obtained, invalid close, status 2, if never; with its process, descriptor, site and stack; any other first exit posts nothing |
| Findings.FailedCloseEvent | recompile/runtime/bpf/heap_tracker.bpf.c:686-753 | the event of a failed close: the result, the stack seen on entry or else on exit, and the site of the acquisition if the descriptor was given up |
| Findings.SecondCloseReported | recompile/runtime/bpf/heap_tracker.bpf.c:686-753 | from any state: open, close and close again is reported as a double close at the second close with the site of the open |
| DescriptorRuns.CloseVerdictIsKernels | recompile/runtime/bpf/heap_tracker.bpf.c:686-753 | with nothing in flight on the descriptor of an orderly run, by the kernel's own account |
| DescriptorRuns.LateExitCountsOnce | recompile/runtime/bpf/heap_tracker.bpf.c:299-362 | in every run exits after the first post nothing; after dup or close they change nothing at all, after open they change the keys exactly when they record again and the descriptor has left the open map |
| DescriptorRuns.DupKeepsOrigin | recompile/runtime/bpf/heap_tracker.bpf.c:787-813 | a recorded dup is owned at its call site, keeps the origin of a tracked source and changes no other record |
| DescriptorRuns.FdTrackerObeysRunTheorems | recompile/runtime/bpf/heap_tracker.bpf.c:648-814 | a valid tracker object whose trace is that of a run of calls has the maps of the run: disjoint, open what was last seen obtained, and the kernel's where nothing is in flight in an orderly run |
| JsonEscape.JsonEscape | recompile/runtime/agent/re-mini.c:1992-2016 | terminated within bounds, holds the escape of the longest prefix that fits, nothing beyond is touched |
| JsonEscape.EscapeRoundTrip | recompile/runtime/agent/re-mini.c:1992-2016 | section 7 of RFC 8259: unescaping, which refuses raw quotes, lone backslashes and control bytes, returns the input |
| JsonEscape.EscapeTable | recompile/runtime/agent/re-mini.c:1992-2016 | the escapes byte by byte: of the quote, the backslash, the newline, and of the other control bytes |
| JsonEscape.NoControlBytes | recompile/runtime/agent/re-mini.c:1992-2016 | no control byte, hence no terminator, appears inside the output |
| JsonEscape.OutputReadsBackAsPrefix | recompile/runtime/agent/re-mini.c:1992-2016 | for every buffer size the output reads back as a prefix of the input |
| JsonEscape.WholeInputIff | recompile/runtime/agent/re-mini.c:1992-2016 | the whole input is written exactly when it fits with its terminator, one spare byte after a plain last character; always above six times the length |
| Fnv.HashBytes | recompile/rerun/src/issue_groups.rs:322-329 | the loop computes the fold |
| Fnv.FoldInverts | recompile/rerun/src/issue_groups.rs:322-329 | hashing any byte string is a bijection of 64-bit states |
| Fnv.FoldConcat | recompile/rerun/src/issue_groups.rs:322-329 | hashing a concatenation continues the fold |
| Fnv.OneByteNeverCollides | recompile/rerun/src/issue_groups.rs:322-329 | strings differing in exactly one byte never collide |
| Fnv.CommonTailIsIrrelevant | recompile/rerun/src/issue_groups.rs:322-329 | a common tail neither makes nor breaks a collision |
| Fnv.PublishedHashes | recompile/rerun/src/issue_groups.rs:322-329 | the published 64-bit FNV-1a hashes of the empty text and of "a" |
| Grouping.LessIff | recompile/rerun/src/issue_groups.rs:69-133 | the order of groups: a proper prefix first, otherwise the smaller byte at the first difference |
| IssueGroups.FingerprintIffHash | recompile/rerun/src/issue_groups.rs:257-312 | fingerprints are equal exactly when the hashes of the joined fields are |
| IssueGroups.OneByteApartNeverGrouped | recompile/rerun/src/issue_groups.rs:257-312 | findings whose joined fields differ in one byte never share a fingerprint |
| IssueGroups.NativeIdentityIgnoresSites | recompile/rerun/src/issue_groups.rs:230-312 | with a stable native memory identity, source path and call, alloc and free sites do not matter |
| Preimages.PreimageIsIssue | recompile/rerun/src/issue_groups.rs:257-312 | for texts without the separator, equal preimages exactly for equal class, operation, three sizes and presence of a tool, and: for native memory issues an equal binary; for others equal source path, call, alloc and free site, absent read as empty, and with a tool its name, summary and binary |
| Preimages.SeparatorBlurs | recompile/rerun/src/issue_groups.rs:257-312 | a separator inside a text can make two issues one |
| Preimages.SameIssueSameFingerprint | recompile/rerun/src/issue_groups.rs:257-312 | the same issue has one fingerprint, whatever its texts hold |
| Preimages.SitesOneByteApart | recompile/rerun/src/issue_groups.rs:272-304 | outside the native identity one byte of the source path or of the call, alloc or free site gives another fingerprint |
| Preimages.ToolOneByteApart | recompile/rerun/src/issue_groups.rs:305-311 | with a tool, so does one byte of its name, its summary or the binary |
| Preimages.CallSitesOneByteApart | recompile/rerun/src/issue_groups.rs:69-133 | two findings alike but for one byte of the call site are in no common group |
| Preimages.FingerprintText | recompile/rerun/src/issue_groups.rs:311-320 | a fingerprint is re-issue-v1- and sixteen lower-case hexadecimal digits that read back as the hash; the group ids are IG- and RIG- and the first twelve |
| Preimages.FindingIdText | recompile/rerun/src/issue_groups.rs:69-133 | a finding without an id is listed under its number, counted from one |
| Samples.FullIdentity | recompile/rerun/src/issue_groups.rs:135-200 | a finding with every field: each preferred field is read where it stands |
| Samples.FallbackIdentity | recompile/rerun/src/issue_groups.rs:135-200 | a finding without the preferred fields: each fallback is read where it stands |
| Samples.CallSiteLeftOutIff | recompile/rerun/src/issue_groups.rs:202-228 | the call site is left out exactly without a tool and with a source path, an allocation site and a size |
| Samples.BinaryTakesPartIff | recompile/rerun/src/issue_groups.rs:166-184 | the binary takes part exactly in native memory identities and for tools with neither source nor site |
| IssueGroups.AnnotateFindings | recompile/rerun/src/issue_groups.rs:69-133 | annotates every finding in place and returns one group per fingerprint, in ascending order |
| IssueGroups.GroupsPartitionFindings | recompile/rerun/src/issue_groups.rs:69-133 | every finding is in exactly one group, which carries its fingerprint |
| IssueGroups.GroupListsItsFindings | recompile/rerun/src/issue_groups.rs:93-126 | a group lists exactly the findings of its fingerprint, increasing, with their ids, counts them and takes its head from the first; groups ascend |
| IssueGroups.CountsSumToFindings | recompile/rerun/src/issue_groups.rs:69-133 | group counts add up to the number of findings |
| IssueGroups.ReannotationIsIdempotent | recompile/rerun/src/issue_groups.rs:69-133 | annotating again changes nothing, and the one report of the findings is the one report of the annotated findings |
| RepeatGroups.AggregateRepeatIssueGroups | recompile/rerun/src/observation.rs:569-650 | one aggregate per fingerprint, with counts, bounds, sorted attempts and first labels |
| RepeatGroups.OneGroupPerFingerprint | recompile/rerun/src/observation.rs:582-611 | fingerprints are distinct, ascending and cover the input |
| RepeatGroups.OccurrencesConserved | recompile/rerun/src/observation.rs:582-611 | occurrence counts add up to the finding counts of the input |
| RepeatGroups.SortedIsPermutation | recompile/rerun/src/observation.rs:616-621 | the attempts are a sorted permutation |
| RepeatGroups.SortedIsStable | recompile/rerun/src/observation.rs:616-621 | attempts with equal number, target and group id stay in input order |
| RepeatGroups.OccurrencesAt | recompile/rerun/src/observation.rs:582-611 | the occurrences of a group are those of the inputs with its fingerprint, one by one in input order |
| RepeatGroups.LabelsOfFirst | recompile/rerun/src/observation.rs:582-611 | a group is labelled by the first input with its fingerprint |
| RepeatGroups.AttemptsSortedPermutation | recompile/rerun/src/observation.rs:613-648 | attempts permute the fingerprint's inputs; first, last and representative agree with the bounds |
| RepeatGroups.SummaryIgnoresInputOrder | recompile/rerun/src/observation.rs:569-650 | permuted inputs give the same groups with the same numbers and occurrences |
| RepeatSummary.StatusAndOutcomeTotals | recompile/rerun/src/observation.rs:531-549 | each status and outcome with the number of attempts that have it |
| RepeatSummary.FindingTotalsByClass | recompile/rerun/src/observation.rs:559-567 | each class with the sum of its counts over the attempts |
| RepeatSummary.TotalsConserve | recompile/rerun/src/observation.rs:531-567 | totals summed over their keys give back all attempts or all findings |
| RepeatSummary.EvidenceAndFailureIff | recompile/rerun/src/observation.rs:310-331 | for every list: a first failure without best evidence exactly when some status says findings while nothing is counted, timed out or failed; evidence before any failure exactly when findings are counted on an attempt up to which nothing failed |
| RepeatSummary.EvidenceMayBeMissing | recompile/rerun/src/observation.rs:310-331 | a list for each of the two |
| RepeatSummary.FirstFailureIs | recompile/rerun/src/observation.rs:310-313 | the first failure is the first attempt with status findings, failed, skipped or timeout |
| RepeatSummary.BestEvidenceIs | recompile/rerun/src/observation.rs:314-329 | the best evidence is the first attempt with findings, without any the first timeout, without those the first failed or skipped |
| RepeatSummary.FailureTotal | recompile/rerun/src/observation.rs:541-549 | the failure total is the number of failed or skipped attempts |
| AttemptEvidence.StatusWithoutCountIff | recompile/rerun/src/cli.rs:1468-1531 | escalation and fallback leave a findings status without findings exactly when nothing was found before, some result signals and none has a detection promotion takes |
| AttemptEvidence.FallbackStatusIs | recompile/rerun/src/cli.rs:1633-1687 | each status of a fallback if and only if: findings or a signal, then a clean run, a timeout, a missing tool; of the rest any failure, all skipped, or nothing but inapplicable and skipped |
| AttemptEvidence.EscalatedStatusIs | recompile/rerun/src/cli.rs:1468-1531 | after escalation a native run timed out, has findings if it or a tool found any, or is clean |
| AttemptEvidence.OnlyCleanTurns | recompile/rerun/src/cli.rs:1468-1531 | escalation changes only a clean status, and nothing of a failed, timed-out or skipped target |
| AttemptEvidence.OwnAttemptsHaveEvidence | recompile/rerun/src/cli.rs:1633-1687 | over attempts made from the repository's own tool results there is best evidence exactly when there is a first failure, and never before it |
| Promotion.EnrichGdbCrashFindings | recompile/rerun/src/cli.rs:931-990 | the loops over gdb reports and findings, and whether any report concerned any finding |
| Promotion.EnrichmentKeepsReads | recompile/rerun/src/cli.rs:931-990 | enrichment touches nothing promotion reads |
| Enrichment.LastHitStored | recompile/rerun/src/cli.rs:931-990 | a finding some report concerns ends with the frames of the last such report under evidence.stacks.crash and its section under evidence.tool.gdb |
| Enrichment.CommandsOfHits | recompile/rerun/src/cli.rs:931-990 | a list of next commands keeps its own in front and gets the command of every such report, none twice; where there is none, none is made |
| Enrichment.NotHitUnchanged | recompile/rerun/src/cli.rs:931-990 | a finding no report concerns stays as it is |
| Enrichment.RestUnchanged | recompile/rerun/src/cli.rs:931-990 | every other field of one that is concerned stays as it is |
| Promotion.PromoteToolFindings | recompile/rerun/src/cli.rs:876-915 | enrichment, then the loop over results and detections with the keys known before, and whether anything was enriched or added |
| Promotion.PromotionAppends | recompile/rerun/src/cli.rs:893-915 | existing findings stay as a prefix |
| PromotionEffects.AllItemsAre | recompile/rerun/src/cli.rs:893-899 | promotion takes exactly the detections of confirmed successes of tools other than gdb that detected a class |
| PromotionEffects.OneDetection | recompile/rerun/src/cli.rs:899-911 | one detection adds one finding unless its key is known or the finding its result names has its class |
| PromotionEffects.SameKeyIff | recompile/rerun/src/cli.rs:1368-1379 | for parts without separators, keys are equal exactly for equal tool, class, summary, and written line and frames |
| PromotionEffects.FindingMakesKnown | recompile/rerun/src/cli.rs:1308-1351 | a finding in the file makes the key of its own tool, class, message, line and frames known |
| PromotionEffects.AddedFinding | recompile/rerun/src/cli.rs:1254-1306 | an added finding names its tool as the origin, with the class and the trimmed summary |
| PromotionEffects.AddedId | recompile/rerun/src/cli.rs:1263 | its id is made of tool, class, result id and the number of the detection, counted from one |
| PromotionEffects.ProvenanceSource | recompile/rerun/src/native.rs:1641-1683 | the source path is set where there was none, if one is found; the status says whether it was, and keeps an earlier answer otherwise |
| PromotionEffects.WrittenFingerprint | recompile/rerun/src/native.rs:1135-1167 | the fingerprint and group written into a finding are those of the finding as written |
| PromotionLaws.ReadsBack | recompile/rerun/src/cli.rs:1254-1351 | a promoted finding reads back as its own key with the summary trimmed |
| PromotionLaws.AddedKeysAreNew | recompile/rerun/src/cli.rs:893-915 | added findings have keys that are new and pairwise different |
| PromotionLaws.PromotionComposes | recompile/rerun/src/cli.rs:876-929 | promoting a, reloading and promoting b gives the list of promoting both |
| PromotionLaws.PromotionAcrossReload | recompile/rerun/src/cli.rs:876-929 | the same with any reload in between that keeps the paths promotion reads |
| PromotionLaws.FinalizedIdempotent | recompile/rerun/src/native.rs:1641-1683 | writing findings back twice, with provenance and issue groups, is writing them back once |
| PromotionLaws.PromotionAcrossFinalization | recompile/rerun/src/native.rs:1135-1167 | promoting a, writing back, promoting b and writing back ends in the same file as promoting both and writing back |
| PromotionLaws.PromotionIdempotent | recompile/rerun/src/cli.rs:876-929 | promoting the same results again adds nothing, for trimmed summaries |
| PromotionLaws.AddsNothingIff | recompile/rerun/src/cli.rs:893-915 | nothing is added exactly when every detection is confirmed or known |
| PromotionLaws.StableIff | recompile/rerun/src/cli.rs:1308-1351 | for every list, promoting again adds nothing exactly when each detection is confirmed, was known before, or has the reload key of a finding the promotion added |
| PromotionLaws.StableIffTrimmed | recompile/rerun/src/cli.rs:1254-1379 | for keys whose other parts hold no separator and an idempotent trim: exactly when each detection neither confirmed nor known has a trimmed summary |
| PromotionLaws.StableIffTrimmedBefore | recompile/rerun/src/cli.rs:1254-1379 | for results that name no finding the promotion adds, the same with confirmation by the findings from before it |
| PromotionLaws.HandWrittenReportRepeats | recompile/rerun/src/cli.rs:1018-1066 | a report file whose one summary starts with a blank is promoted again after every reload |
| Escalation.RepeatEscalationState.SelectAttempt | recompile/rerun/src/cli.rs:190-241 | the selection and the flags after it |
| Escalation.SelectedIff | recompile/rerun/src/cli.rs:190-241 | exactly which attempts each policy selects, over any run |
| Escalation.SelectionBudget | recompile/rerun/src/cli.rs:190-241 | never none, first-failure at most one, sampled at most two |
| Escalation.SelectionIsNeverIdle | recompile/rerun/src/cli.rs:626-662 | every selection reason admits at least one target of its attempt |
| Escalation.ReasonIs | recompile/rerun/src/cli.rs:190-241 | the reason given for each selection |
| Escalation.CanEscalateIff | recompile/rerun/src/cli.rs:634-646 | which targets can be escalated: with findings, failed in a known setup step, or in deep runs run to their end |
| Escalation.HasFailureIff | recompile/rerun/src/cli.rs:626-662 | an attempt counts as a failure by findings, a known setup failure, or in deep runs the status findings, and never by a skipped target |
| Escalation.KnownFailureInside | recompile/rerun/src/cli.rs:1449-1466 | a known message is recognized anywhere in an error |
| Escalation.SetupFailuresAre | recompile/rerun/src/cli.rs:1449-1466 | the eleven known messages, and no other, let a failed target be escalated |

## Left out

- LRU eviction as a step of the runs: map capacity is unbounded; its effect on soundness is stated apart, in `IndexRuns.EvictionSoundIff`.
- Full hash maps: an update of a pending or state map that already has its key always succeeds; only creating a per-process state can fail.
- Buckets live in the map by value: the pointer into map memory that the slot loops write through is not modelled, nor are races on it between processors.
- Timestamps, the folded stack fingerprint, extras and constant header fields of events: opaque or derived from modelled fields.
- The I/O, mutex, futex and signal handlers of sentinel_extra.bpf.c: they copy fields of their own pending entry; their reservation is `Sentinel.Op.Post`.
- Descriptors: a failed close leaves the descriptor open; fork, exec and close_range are not modelled; every call that obtains or closes a tracked descriptor is observed by some entry and exit probe.
- The strcpy probe's reading of its source: its length is a parameter, and a null or unreadable source makes no write.
- The text fields of summaries (paths, commands, names), target-level totals and the distinct-attempt count of observation.rs.
- Target selection by `native_only` and the order of tools in a deep run: the tool results of an attempt are an input.
- Probe attachment, libc detection, ring polling, `/proc` reading, symbolization and the formatting of findings.
- The process filter of the agent: its answer is the parameter `allowed`.
- IssueGroups: the text rules (stable texts, frame and summary normalization, file names, number parsing) are parameters, so the theorems hold whatever they are.
- Promotion: trimming, debug rendering and the source path found for a finding are parameters; report reading is an input; the call, alloc and free stack arrays, paths, exit code and timestamp of a promoted finding are not modelled.
- RepeatGroups: occurrence counts are unbounded naturals; 64-bit overflow of their sum is not modelled.
- ASan, LSan, UBSan, Valgrind and gdb output parsing, process running, file writing and the re-rules crate.
