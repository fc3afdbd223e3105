# LiSA, verified

A Dafny model of the parts of LiSA, the userspace of a Linux switch, that hold algorithms or
protocols, with proofs of what they promise and of exactly when they keep the promise.

| files | what they are about |
|---|---|
| `MmLayout`, `MmList`, `Mm`, `MmProtocol` | the shared-memory allocator: where chunks lie; the linked list that says so in the memory itself; the library's calls as methods on a segment and its handles; any number of processes taking turns |
| `Vector`, `RstpPort`, `RstpBridge` | IEEE 802.1D-2004 spanning tree: priorities, the per-port machines, and a bridge on which any event may come next |
| `RstpSafety`, `RstpTiming`, `RstpRoles`, `RstpInfo` | what holds on every run of such a bridge: nothing forwards too much or too early |
| `RstpProgress` | and that a port does forward, in time |
| `RstpElection`, `RstpActions`, `RstpMessages` | what each turn of role selection, of the role machine, and of the information, transmit and state machines does, in terms of the variables alone |
| `RstpMachine`, `RstpDaemon` | the state functions and list loops of the daemon as methods that assign fields; each call is a step of a run in the daemon's order, so that all that holds on runs holds of the daemon |
| `RstpLearns` | such a run |
| `Bitmap`, `VlanConfig`, `VlanBackend` | the VLAN backend: the configuration, and lists, bridges and sub-interfaces that must agree with it after every operation |
| `VlanList`, `VlanParse`, `VlanReplay`, `VlanCommand` | writing the allowed VLANs of a port into a configuration, reading such lists, and doing one after the other |
| `CdpHeap`, `CdpAgeing`, `CdpChecksum` | neighbours that expire, in a heap; the packet checksum |
| `Cli`, `CliChoice` | which node a command line stands for; which lines stand for one, and why others do not |
| `Options` | a value that may be missing |

Where the source changes things in place, so does the model: the allocator, the daemon, the backend,
the heap and the bitmaps are classes and array methods. Each of their contracts names a function of
the old state, and the theorems are about those functions. What a caller relies on is also said
without them: which chunks an allocator call leaves, where a port is after a change of its
configuration, what a turn of a spanning tree machine sets. Lists whose order does not matter are
visited in any order. Names of fields and routines follow the source.

`dafny verify dfyconfig.toml` checks everything.

## What the code does not do

The model does what the code does. Where that is not what the code is for, there is a theorem that
says exactly when it is:

- `mm_extend` writes back a copy of the area's header that it took before it got the lock
  (userspace/lib/mm.c:150, 168). The chunk list survives exactly when the copied links are still the
  current ones (`MmList.GrowRepresents`), as they are under a nested lock.
- The comment at userspace/include/mm.h:53 says that a chunk's size leaves out its header; the code
  counts it. `mm_realloc` then copies a header's length too much; and it reads that length through a
  pointer from before the allocation, which may have mapped the area at another address
  (userspace/lib/mm.c:252, 266). `MmLayout.ReallocFaultsIff` says for which calls this goes wrong, and
  `MmList.ReallocOverrun` what is left of the chunk list when the copy is too long.
- A port in a blocking state may learn for one more turn, though it never forwards
  (`RstpSafety.BlockedPortsMayLearnForOneTurn`); `RstpLearns.LearnsWhileBlocked` is a run of the daemon
  on which one does. The backup state is never entered.
- No code ever says that all ports are synchronised (`allSynced`, userspace/rstp/fsm/prt.c:186 and
  433), so no port ever agrees to a proposal (`RstpActions.NobodyAgrees`). How long a port takes
  to forward without agreement is `RstpProgress.ForwardsInTime`.
- The path cost is added through a wide pointer (userspace/rstp/fsm/prs.c:53), so that a carry would
  run into the bridge identifier. `RstpElection.PathCostIsAdded` says what comes out of
  this addition, and all other results are about that.
- Changing a port to access mode removes its sub-interfaces before it can fail, and adding allowed
  VLANs does not ask whether the port is switched. `IfModeAccess`, `IfAddTrunkVlans` and
  `IfSetTrunkVlans` of `VlanBackend` keep bridges and configuration in agreement exactly when
  `VlanConfig.AccessModeIsSafe` and `VlanConfig.NewTrunkVlansAreSafe` hold of the configuration.
- In a VLAN list a range followed by a comma is an error (userspace/cli/command/config_if.c:37-48),
  after its VLANs have been set; the list is applied all the same. So a printed configuration
  restores a port exactly when each range is the last token of its line (`VlanReplay.RoundTrip`),
  and an empty one does nothing at all. The reset of the state at lines 45-46 shows what was meant;
  with that reader the round trip is total (`VlanReplay.RoundTripGoingOn`).
- A refreshed neighbour is sifted down from its slot's index divided by the size of a heap entry
  (userspace/cdpd/cdpd.c:357); when the root expires, the neighbour that replaces it is not told
  (userspace/cdpd/cdp_aging.c:116). `CdpHeap.RefreshKeepsHeapIff` and `CdpHeap.PopPlacesIff` say
  when heap order and back pointers survive this, and `CdpHeap.HeapsIffSafe` when a whole run does;
  on those the cleaner frees exactly who is due (`CdpHeap.CleanFreesTheDue`). `CdpHeap.RunBreaksHeap`
  is a run that does not; `CdpHeap.RunsConserve` holds regardless.
- The heap's array is grown after it has been written beyond its end (userspace/cdpd/cdpd.c:366-376):
  `CdpAgeing.Ageing.NewNeighbour` faults exactly when the array is full.
- The last octet of an odd CDP packet is added up together with the one beyond the packet
  (userspace/cdpd/cdp_send.c:223-224): see `CdpChecksum.PacketsVerifyIff`.

## Model

| member | source | states |
|---|---|---|
| `MmLayout.ChunksAreDisjointAndInside` | userspace/lib/mm.c:174-227 | in a well-formed area any two chunks are disjoint, headers included, have different payloads, and lie inside the dynamic part |
| `MmLayout.FirstFit` | userspace/lib/mm.c:189-211 | the scan stops at the first gap that is long enough; every earlier gap is too short |
| `MmLayout.AllocKeepsWellFormed` | userspace/lib/mm.c:174-227 | allocation keeps chunks in address order, apart and inside the area |
| `MmLayout.RemoveKeepsWellFormed` | userspace/lib/mm.c:229-236 | so does freeing |
| `MmLayout.RemovedIsNotLive` | userspace/lib/mm.c:229-236 | a freed pointer names no chunk any more |
| `MmLayout.ResizeKeepsWellFormed` | userspace/lib/mm.c:255-259 | so does shrinking in place |
| `MmLayout.GrowKeepsWellFormed` | userspace/lib/mm.c:147-172 | so does growth of the area |
| `MmLayout.AllocIsFresh` | userspace/lib/mm.c:174-227 | the new payload has exactly the size asked for and its chunk meets no other chunk and no static byte; all other chunks are as before |
| `MmLayout.AllocTakesTheLowestFreePlace` | userspace/lib/mm.c:189-211 | no free stretch that would do starts below the place chosen, and if there is one the area does not grow |
| `MmLayout.AllocGrowsOnlyWhenFull` | userspace/lib/mm.c:213-226 | the area grows exactly when no free stretch will do, and by fewer bytes it would not do |
| `MmLayout.AllocRefusedIff` | userspace/lib/mm.c:213-226 | an allocation is refused exactly when no free stretch will do and the area cannot grow, and then nothing changes |
| `MmLayout.IndexOf` | userspace/include/mm.h:58-66 | a live pointer names the first, and only, chunk with that payload |
| `MmLayout.FreeUndoesAlloc` | userspace/lib/mm.c:174-236 | freeing what was just allocated gives back the old chunk list |
| `MmLayout.ReleaseIsExact` | userspace/lib/mm.c:229-236 | freeing takes away exactly the chunk with that payload, to which no live pointer is left; the area keeps its size |
| `MmLayout.ReallocIsExact` | userspace/lib/mm.c:238-270 | of a reallocation that does not go wrong, over chunks: with size 0 exactly the old chunk is gone; refused, everything is as it was; granted, the old chunk is replaced by one of the size asked for, in place exactly when it was large enough, and a pointer to an old place is dead; the area keeps its size |
| `MmLayout.AllocKeepsOthersLive` | userspace/lib/mm.c:174-227 | every live pointer stays live and names the same chunk |
| `MmLayout.ReallocFaultsIff` | userspace/lib/mm.c:252-269 | a reallocation that is granted and has to move reads through a stale pointer or copies outside the new payload or the area exactly when there is no room for the new block in the area as it is, or the block grows by less than a header, or it moves down from the last header-length of the area |
| `MmLayout.ReallocReadsStaleMapping` | userspace/lib/mm.c:252-266 | a block at which the allocation extends the area, so that the chunk pointer taken before it is stale |
| `MmList.OverrunRepresentsIff` | userspace/lib/mm.c:261-269 | a copy into a payload that runs on keeps the allocator's cells exactly when every cell of the book-keeping that it hits gets the value it had |
| `MmList.ReallocOverrun` | userspace/lib/mm.c:261-269 | when a block grows by less than a header and the next chunk is adjacent, the overrun hits that chunk's header and nothing else: the list survives exactly when the bytes copied there are that header |
| `MmList.LinksAreInverse` | userspace/include/mm.h:100-164 | along the whole circle `next` and `prev` are inverse |
| `MmList.InsertRepresents` | userspace/include/mm.h:100-142 | the five stores of an insertion turn the cells of an area into those of the area with the chunk put in, and touch no user byte |
| `MmList.RemoveRepresents` | userspace/include/mm.h:144-164 | the stores of a removal turn them into those of the area without the chunk, and touch no user byte |
| `MmList.ResizeRepresents` | userspace/lib/mm.c:255-259 | storing a smaller size is shrinking the chunk |
| `MmList.UserWritesKeepRepresents` | userspace/include/mm.h:58-61 | whatever users write into static data and payloads, the cells still hold the same area |
| `MmList.GrowRepresents` | userspace/lib/mm.c:147-172 | mm_extend, which writes back a copy of the header taken before the lock, keeps the list exactly when the links copied are the current ones |
| `MmList.CopyRepresents` | userspace/lib/mm.c:266-266 | filling a fresh payload disturbs neither the list nor anyone else's bytes |
| `Mm.Segment.constructor` | userspace/lib/mm.c:84-102 | a new segment is an area without chunks, and its semaphore is free |
| `Mm.PageSize` | userspace/lib/mm.c:36-40 | the least multiple of the page size that is no less than the size |
| `Mm.Handle.Create` | userspace/lib/mm.c:42-121 | a new segment of the sizes asked for, rounded up to pages, all of it mapped |
| `Mm.Handle.Attach` | userspace/lib/mm.c:42-121 | a second process maps all there is; it is the attachment of the protocol |
| `Mm.Handle.Load` | userspace/include/mm.h:58-61 | reads only what the handle has mapped |
| `Mm.Handle.Lock` | userspace/lib/mm.c:126-144 | the first lock takes the semaphore and maps what others have added; further ones only count |
| `Mm.Handle.Unlock` | userspace/include/mm.h:87-98 | the semaphore comes back with the outermost unlock only |
| `Mm.Handle.ReadHeader` | userspace/lib/mm.c:150-150 | the header as it stands, which mm_extend copies before it locks |
| `Mm.Handle.ExtendWith` | userspace/lib/mm.c:147-172 | for a header copied at any time before: the area grows by exactly the bytes asked for or not at all, no user byte changes, and the segment is intact afterwards exactly when the copied links are the current ones |
| `Mm.Handle.Extend` | userspace/lib/mm.c:147-172 | with no other process in between it is the extension step of the protocol, and keeps every other handle valid |
| `Mm.Handle.Alloc` | userspace/lib/mm.c:174-227 | the area and the pointer are those of `MmLayout.Alloc`; the lock is as before; no user byte changes; it is the allocation call of the protocol, and every other handle on the segment that holds no lock stays valid |
| `Mm.Handle.FindPlace` | userspace/lib/mm.c:182-226 | its part inside the lock |
| `Mm.Handle.Append` | userspace/lib/mm.c:213-226 | its path behind the last chunk |
| `Mm.Handle.FindGap` | userspace/lib/mm.c:189-211 | its scan over the linked list finds the first fit |
| `Mm.Handle.Place` | userspace/lib/mm.c:199-224 | writing the size and linking a chunk in puts it into the area |
| `Mm.Handle.Free` | userspace/lib/mm.c:229-236 | the chunks are those from before without exactly this one, and the pointer is dead; a null pointer changes nothing; it is the release call of the protocol, and other handles stay valid |
| `Mm.Handle.ListDel` | userspace/include/mm.h:144-164 | the stores that unlink a list head |
| `Mm.Handle.Realloc` | userspace/lib/mm.c:238-270 | null, zero size, shrinking and moving; unless the pointer is stale or the copy faults, exactly the old chunk is replaced by one of the new size, the old pointer being dead if that is elsewhere, and the bytes that both sizes have in common are found at the pointer returned; other handles stay valid |
| `Mm.Handle.ResizeBlock` | userspace/lib/mm.c:247-270 | the same of its part inside the lock |
| `Mm.Handle.Shrink` | userspace/lib/mm.c:255-259 | shrinking in place keeps the pointer and the bytes that remain; it is the shrinking step of the protocol |
| `Mm.Handle.Move` | userspace/lib/mm.c:261-269 | allocate, copy, free: the old chunk is exchanged for the new one and none leaks; faults when the allocation has mapped the area anew |
| `Mm.MovedBytes` | userspace/lib/mm.c:261-269 | after all three steps every old user byte is in place and the moved payload readable at its new one |
| `MmProtocol.CallDoesItsBody` | userspace/lib/mm.c:126-270 | lock, body, unlock by a process that may take the lock is one body step from the locked state to the unlocked one, all of it enabled |
| `MmProtocol.StepKeepsArea` | userspace/lib/mm.c:126-270 | any step of any process keeps the area well formed, and it never shrinks; an extension grows it by what was asked for |
| `MmProtocol.StepKeepsSafe` | userspace/lib/mm.c:126-270 | any step keeps the invariant |
| `MmProtocol.StepKeepsChunk` | userspace/lib/mm.c:174-270 | a live chunk stays as it is unless the step frees or shrinks exactly that chunk |
| `MmProtocol.RunsAreSafe` | userspace/lib/mm.c:126-172 | on every run: at most one process holds the semaphore, nobody has mapped more than there is, the holder has mapped exactly that |
| `MmProtocol.LiveStaysLive` | userspace/lib/mm.c:174-270 | over any number of steps of any processes a chunk that nobody touches stays |
| `MmProtocol.AllocatedStaysOwned` | userspace/lib/mm.c:174-270 | what is allocated stays a chunk at its place, inside the area and disjoint from all others, until it is freed or shrunk |
| `MmProtocol.SectionsExclude` | userspace/lib/mm.c:126-144 | while a process holds the lock every step is its own |
| `MmProtocol.NestingCounts` | userspace/include/mm.h:68-98 | a process holds the semaphore exactly when it has locked more often than unlocked, and then nobody else does |
| `MmProtocol.LocksAreDepth` | userspace/include/mm.h:68-98 | the lock count is that difference |
| `Vector.Compare` | userspace/lib/vector.c:4-10 | memcmp as -1, 0 or 1 |
| `Vector.CompareIsEquality` | userspace/lib/vector.c:4-15 | 0 exactly for equal buffers |
| `Vector.CompareIsAntisymmetric` | userspace/lib/vector.c:4-10 | changing sides changes the sign |
| `Vector.CompareIsTransitive` | userspace/lib/vector.c:4-10 | the order is transitive |
| `Vector.CompareIsLexicographic` | userspace/lib/vector.c:4-10 | the first buffer is less exactly when there is a place up to which both agree and where its octet is less |
| `Vector.CompareJoined` | userspace/lib/vector.c:4-10 | comparing joined buffers is comparing the first parts, then the second |
| `RstpBridge.AddLittleEndianIsSum` | userspace/rstp/fsm/prs.c:53-53 | the sum as a little-endian number, modulo 256 to the number of bytes |
| `RstpBridge.Scan` | userspace/rstp/fsm/prs.c:43-64 | the best port so far is one of the first n, or none |
| `RstpBridge.StepIsLocal` | userspace/rstp/rstpd.c:227-250 | what an event does to each port, given the bridge before it |
| `RstpBridge.PrsSelects` | userspace/rstp/fsm/prs.c:179-200 | role selection clears every reselect request, computes all roles and selects every port |
| `RstpBridge.PrsOn` | userspace/rstp/fsm/prs.c:165-200 | a turn of role selection changes nothing but the selection variables |
| `RstpBridge.AssignRoleIsARole` | userspace/rstp/fsm/prs.c:92-125 | the role assigned is never the value that the backup guard asks for; reselect and selected are left alone |
| `RstpSafety.FreshIsSafe` | userspace/rstp/rstpd.c:79-188 | a port as registered meets the invariant |
| `RstpSafety.PstKeepsSafe` | userspace/rstp/fsm/pst.c:36-98 | the state machine keeps it |
| `RstpSafety.PrtKeepsSafe` | userspace/rstp/fsm/prt.c:76-503 | the role machine keeps it, in all its 22 states |
| `RstpSafety.TreeKeepsSafe` | userspace/rstp/fsm/prt.c:31-47 | setting sync or reRoot on every port keeps it |
| `RstpSafety.PreemptedIsReady` | userspace/rstp/fsm/prt.c:75-105 | a new selected role makes the machine about to take that role |
| `RstpSafety.EntryIsSafe` | userspace/rstp/fsm/prt.c:122-205 | entering a state that stops a port stops it |
| `RstpSafety.StopDecisionIsSafe` | userspace/rstp/fsm/prt.c:122-163 | the wait for a port to stop ends only when it does not forward and is not about to |
| `RstpSafety.StepKeepsSafe` | userspace/rstp/rstpd.c:58-76 | any event on a bridge with any number of ports keeps the invariant of every port |
| `RstpSafety.RunsAreSafe` | userspace/rstp/rstpd.c:227-250 | so it holds on every run, ticks falling between any two calls |
| `RstpSafety.BlockedPortsNeverForward` | userspace/rstp/fsm/prt.c:411-503 | on every run: forward implies learn; forwarding implies learning; a disabled, alternate or backup port is told neither to learn nor to forward; a port whose role machine is in a disabled, alternate or backup state does not forward, and the backup state is never entered |
| `RstpSafety.BlockedPortsMayLearnForOneTurn` | userspace/rstp/fsm/pst.c:58-79 | such a port learns after its next turn exactly when the state machine had already decided to, and for that turn only |
| `RstpSafety.BlockedPortThatLearns` | userspace/rstp/fsm/prt.c:471-490 | such a port exists |
| `RstpLearns.LearnsWhileBlocked` | userspace/rstp/rstpd.c:227-250 | and one is reached by the daemon itself, from its start and in its own order: a designated port takes in its own message in the cycle in which it is told to learn, and is blocked when a second port has been registered |
| `RstpTiming.TransmitRateBound` | userspace/rstp/fsm/ptx.c:114-201 | in any stretch of any run a port sends at most six BPDUs more than there are ticks (section 17.13.12 of IEEE 802.1D-2004) |
| `RstpTiming.SentIsPaidFor` | userspace/rstp/fsm/ptx.c:114-201 | what is sent plus the count before is at most the count after plus the ticks |
| `RstpTiming.RunsAreTxSafe` | userspace/rstp/fsm/ptx.c:125-152 | txCount is at most 6 on every run, and below when a transmission is due |
| `RstpTiming.TxStep` | userspace/rstp/rstpd.c:58-76 | the same for a single event |
| `RstpTiming.ForwardDelay` | userspace/rstp/fsm/prt.c:247-271 | a port that does not learn and has d seconds left forwards no earlier than d + 15 ticks later, unless it was agreed when its machine decided |
| `RstpTiming.ThirtyTicksFromDiscard` | userspace/rstp/fsm/prt.c:371-409 | from a designated discard it takes thirty ticks |
| `RstpTiming.DiscardRestartsTheTimer` | userspace/rstp/fsm/prt.c:398-409 | a discard leaves a port that does not learn, with 15 seconds on its timer |
| `RstpTiming.FramesWaitToo` | userspace/rstp/fsm/pst.c:36-98 | frames are forwarded no earlier either |
| `RstpTiming.EventOnSchedule` | userspace/rstp/rstpd.c:58-76 | every event keeps a port on the schedule of the two delays |
| `RstpRoles.BeatsIsLess` | userspace/rstp/fsm/prs.c:56-58 | the test of the running minimum is the lexicographic order on path priority and port identifier |
| `RstpRoles.ScanIsBest` | userspace/rstp/fsm/prs.c:43-64 | the loop ends with the minimum over the ports that hear from another bridge, or with the bridge's own vector when none beats it |
| `RstpRoles.RootRoleIsTheMinimum` | userspace/rstp/fsm/prs.c:31-125 | a port gets the root role exactly when it is that minimum (section 17.21.25 of IEEE 802.1D-2004), so at most one does |
| `RstpRoles.RootDoesNotDependOnOrder` | userspace/rstp/fsm/prs.c:31-125 | the choice does not depend on the order of the list |
| `RstpRoles.CyclesStaySafe` | userspace/rstp/rstpd.c:227-250 | the invariant of the daemon's cycle |
| `RstpRoles.SelectedIffNotReselecting` | userspace/rstp/fsm/prs.c:151-200 | on every run in cycle order, once a port has had its first turn it is selected exactly when it does not wait for reselection |
| `RstpRoles.ReselectIsServedNextCycle` | userspace/rstp/fsm/prs.c:179-200 | a request pending at the end of one cycle is gone at the end of the next |
| `RstpRoles.SettledAfterCycle` | userspace/rstp/fsm/prs.c:151-200 | after every turn of role selection a port is selected exactly when it does not wait for reselection |
| `RstpRoles.PendingIsServed` | userspace/rstp/fsm/prs.c:179-200 | a request that role selection leaves pending makes it select anew at its next turn, and then none is pending and all ports are selected |
| `RstpRoles.RunGoesOn` | userspace/rstp/rstpd.c:227-250 | any event that is in turn continues a run in cycle order |
| `RstpRoles.SelectionClears` | userspace/rstp/fsm/prs.c:22-29 | role selection leaves each port selected, without a request |
| `RstpInfo.DesignatedMessages` | userspace/rstp/fsm/pim.c:32-76 | designated messages are repeated, superior or inferior, each by an exact condition on priority and times |
| `RstpInfo.RunsAreInfoSafe` | userspace/rstp/fsm/pim.c:253-273 | a message about to be recorded is never worse than what is held |
| `RstpInfo.PimKeepsInfoSafe` | userspace/rstp/fsm/pim.c:155-324 | the same for one turn; received information does not get worse in it |
| `RstpInfo.ReceivedInformationNeverWorsens` | userspace/rstp/fsm/pim.c:32-76 | over any run, as long as a port holds received information it never gets worse |
| `RstpInfo.AcceptedMessageIsRepeated` | userspace/rstp/fsm/pim.c:254-287 | an accepted BPDU that arrives again is a repetition, and leaves priority, times and source as they are |
| `RstpInfo.AcceptanceRecords` | userspace/rstp/fsm/pim.c:103-113 | accepting a message records its priority and times |
| `RstpElection.PathCostIsAdded` | userspace/rstp/fsm/prs.c:52-54 | the path cost is added to the eight octets from the cost on, modulo two to the 64, and nothing else of the received vector changes |
| `RstpElection.ScanKeepsTheFirst` | userspace/rstp/fsm/prs.c:48-64 | of ports that tie the running minimum keeps the first in the list |
| `RstpElection.ScanFindsTheRoot` | userspace/rstp/fsm/prs.c:48-64 | so, with identifiers that need not differ, it ends with exactly the port that has the least path priority of all that hear from another bridge, beats the bridge itself, and comes first of those |
| `RstpElection.WhatIsAdvertised` | userspace/rstp/fsm/prs.c:78-90 | what a port advertises: with a root port, the root and path cost heard there, increased; without one the bridge itself at no cost; then the bridge and the port; and the times of the bridge |
| `RstpElection.RoleFollows` | userspace/rstp/fsm/prs.c:92-125 | each of the five roles, and whether the port must announce its information, by an if and only if over the source of its information, the root port and the comparison of what it advertises with what it holds |
| `RstpElection.RolesAreElected` | userspace/rstp/fsm/prs.c:31-125 | both for all ports at once, which change in nothing else |
| `RstpElection.SelectionElects` | userspace/rstp/fsm/prs.c:179-200 | a turn of role selection that selects computes this |
| `RstpElection.InitDisables` | userspace/rstp/fsm/prs.c:170-177 | the first turn selects the disabled role for all ports |
| `RstpElection.FreshNamesItself` | userspace/rstp/rstpd.c:79-188 | a port as registered holds the claim of the bridge itself, with no timer running, no flag set and every machine before its first state's action |
| `RstpActions.TurnMoves` | userspace/rstp/fsm/prt.c:75-503 | for each of the 22 states, variable by variable, what a turn of the role machine sets on its own port: role, learn and forward; the three timers; the handshake; whether a BPDU is due |
| `RstpActions.TurnReaches` | userspace/rstp/fsm/prt.c:31-47 | and on every other port: sync from a proposal taken up, reRoot from a new root port, and nothing else |
| `RstpActions.TurnIsDone` | userspace/rstp/fsm/prt.c:75-503 | both for a whole bridge |
| `RstpActions.RootGoesTo` | userspace/rstp/fsm/prt.c:167-206 | where a settled root port goes, each of the states by an if and only if over its variables |
| `RstpActions.DesignatedGoesTo` | userspace/rstp/fsm/prt.c:286-329 | where a settled designated port goes |
| `RstpActions.AlternateGoesTo` | userspace/rstp/fsm/prt.c:412-442 | where a settled alternate or backup port goes |
| `RstpActions.StopsWhenStopped` | userspace/rstp/fsm/prt.c:123-163 | a port being stopped has stopped exactly when its state machine neither learns nor forwards |
| `RstpActions.ActReturns` | userspace/rstp/fsm/prt.c:208-283 | a state that acts goes back to the waiting state of its role, to enter it anew |
| `RstpActions.RootStaysRecent` | userspace/rstp/fsm/prt.c:167-206 | a port that stays the root port counts as a recent root at least after every other turn |
| `RstpActions.DisabledStaysSynchronised` | userspace/rstp/fsm/prt.c:144-164 | and a disabled one as synchronised, with all of its forward delay to come |
| `RstpActions.NobodyAgrees` | userspace/rstp/fsm/prt.c:186-188 | on no run does any port agree to a proposal: only one that all others have synchronised with may, and nothing ever says that they have |
| `RstpActions.ProposalSynchronises` | userspace/rstp/fsm/prt.c:209-219 | a proposal to a settled root port has every other port asked to synchronise within two turns |
| `RstpProgress.EventHelps` | userspace/rstp/rstpd.c:58-76 | a number of turns and a number of ticks that no event increases as long as the port is left in peace: selected as root or designated and settled at its turns, with no proposal, sync, reRoot or dispute; that a turn without a timer decreases, and a tick with one |
| `RstpProgress.ForwardsAfterNineTurns` | userspace/rstp/fsm/prt.c:247-271 | on every run: a port left in peace has learn and forward set after nine turns of its own without a timer running |
| `RstpProgress.ForwardsInTime` | userspace/rstp/fsm/prt.c:247-271 | timers included: after 37 seconds, each with a tick and nine turns, at the latest; after 17 if no timer runs |
| `RstpProgress.FramesAreForwarded` | userspace/rstp/fsm/pst.c:36-98 | and three turns later its state machine learns and forwards frames |
| `RstpProgress.StatesFollow` | userspace/rstp/fsm/pst.c:36-98 | the state machine follows learn and forward in three turns |
| `RstpProgress.TimerIsBounded` | userspace/rstp/fsm/prt.c:108-120 | no forward delay is longer than 20 seconds, on any run |
| `RstpMessages.TurnShakes` | userspace/rstp/fsm/pim.c:155-324 | for each of the ten states of the information machine, variable by variable, what a turn does to the agreement handshake |
| `RstpMessages.TurnRecordsAndSelects` | userspace/rstp/fsm/pim.c:155-324 | and to the stored information, its source and life time, the last message, and the selection variables; the other machines' variables stay |
| `RstpMessages.TopologyFlags` | userspace/rstp/fsm/pim.c:88-101 | topology change notifications and flags are passed on by exactly the states that accept a message |
| `RstpMessages.TurnGoes` | userspace/rstp/fsm/pim.c:155-324 | where a turn goes: an update comes before ageing, ageing before a new message |
| `RstpMessages.TurnStays` | userspace/rstp/fsm/pim.c:155-324 | which states are entered anew |
| `RstpMessages.AnswersAreHeard` | userspace/rstp/fsm/pim.c:70-75 | a message from a root, alternate or backup port counts exactly if it is no better than what the port holds; any other that is not designated does not |
| `RstpMessages.TimersRunDown` | userspace/rstp/rstpd.c:58-76 | after n ticks each of the nine timers is lower by n, or 0 |
| `RstpMessages.InformationLives` | userspace/rstp/fsm/pim.c:115-122 | information accepted or repeated lives for three hello times, or not at all when its age has reached its maximum: the machine declares it aged that many ticks later, and not before |
| `RstpMessages.AgedIsForgotten` | userspace/rstp/fsm/pim.c:169-184 | and then it is forgotten and the roles are computed anew |
| `RstpMessages.SendsWhenDue` | userspace/rstp/fsm/ptx.c:125-152 | an idle port sends exactly when something is due and six have not been sent; which kind, by an if and only if each; and when it looks whether it is time for a hello |
| `RstpMessages.SendingIsCounted` | userspace/rstp/fsm/ptx.c:165-201 | what is sent is counted and no longer due |
| `RstpMessages.FirstIsDue` | userspace/rstp/fsm/ptx.c:114-123 | the first turn makes a BPDU due |
| `RstpMessages.HelloIsSent` | userspace/rstp/fsm/ptx.c:125-163 | when the hello time is over, a BPDU goes out within three turns exactly when there is something new, or the port is designated, or it is the root port in a topology change; and its role sends any |
| `RstpMessages.StateStops` | userspace/rstp/fsm/pst.c:36-98 | a port told to stop neither learns nor forwards after three turns |
| `RstpMessages.StateMoves` | userspace/rstp/fsm/pst.c:36-98 | where the state machine goes, and what it turns on and off |
| `RstpMessages.SurroundingsAreFree` | userspace/rstp/rstpd.c:227-250 | the eleven variables of a port that other machines set may take any values, and nothing else changes |
| `RstpMachine.RstpInterface.constructor` | userspace/rstp/rstpd.c:79-188 | a registered port is `RstpPort.FreshPort` |
| `RstpMachine.RstpInterface.DecrementTimers` | userspace/rstp/rstpd.c:58-76 | the nine decrements are the tick on one port |
| `RstpMachine.RstpInterface.PtxTurn` | userspace/rstp/fsm/ptx.c:105-201 | the transmit machine: in each of its states one call is `RstpPort.PtxCall`, and says whether it sends |
| `RstpMachine.RstpInterface.PimTurn` | userspace/rstp/fsm/pim.c:143-324 | the information machine: in each of its states one call is `RstpPort.PimCall` |
| `RstpMachine.RstpInterface.CheckGlobalConditions` | userspace/rstp/fsm/prt.c:75-105 | the conditions of the role machine that apply in every state |
| `RstpMachine.RstpInterface.PrtState` | userspace/rstp/fsm/prt.c:49-503 | the role machine: in each of its 22 states one call does to its own port what `RstpPort.PrtOwn` says; and, without it, what becomes of role, learn, forward and the three timers |
| `RstpMachine.RstpInterface.PstTurn` | userspace/rstp/fsm/pst.c:34-98 | the state machine: in each of its states one call is `RstpPort.PstCall` |
| `RstpDaemon.Daemon.constructor` | userspace/rstp/rstpd.c:20-38 | the daemon starts without ports, on a run without events |
| `RstpDaemon.Daemon.RunsAreInSafeStates` | userspace/rstp/rstpd.c:227-250 | whatever the daemon has done so far, no port forwards against its role, none has sent too much, and no information has got worse |
| `RstpDaemon.Daemon.Register` | userspace/rstp/rstpd.c:79-188 | between rounds, a port is registered: the daemon's run goes on with this event, into a safe state |
| `RstpDaemon.Daemon.Tick` | userspace/rstp/rstpd.c:58-76 | at any time the timer ticks on every port: the run goes on with this event, into a safe state |
| `RstpDaemon.Daemon.Surround` | userspace/rstp/rstpd.c:227-250 | at any time what is not modelled sets what it may set: the run goes on, into a safe state |
| `RstpDaemon.Daemon.PtxTurn` | userspace/rstp/rstpd.c:229-249 | port i transmits when it is its turn: the run goes on, into a safe state |
| `RstpDaemon.Daemon.PimTurn` | userspace/rstp/rstpd.c:229-249 | so with its information machine |
| `RstpDaemon.Daemon.PrtTurn` | userspace/rstp/rstpd.c:229-249 | and with its role machine, which may act on all ports: every variable it sets, here and there, is stated without the function of the turn |
| `RstpDaemon.Daemon.PstTurn` | userspace/rstp/rstpd.c:229-249 | and with its state machine |
| `RstpDaemon.Daemon.FindRoot` | userspace/rstp/fsm/prs.c:43-64 | the running minimum of the loop is `RstpBridge.Scan` |
| `RstpDaemon.Daemon.UpdtRolesTree` | userspace/rstp/fsm/prs.c:31-125 | the three loops over the list give every port what `RstpBridge.UpdtRolesTree` gives it; and, without it, the vector it advertises and the role it should have |
| `RstpDaemon.Daemon.PrsTurn` | userspace/rstp/fsm/prs.c:165-200 | after all ports, role selection has its turn: the run goes on, into a safe state; when it selects, every port gets the vector and the role it should have |
| `RstpDaemon.Daemon.FsmRound` | userspace/rstp/rstpd.c:227-250 | a round of the daemon: the events are the four turns of each port in list order, then role selection, and no others; a safe state; every port selected exactly when it does not wait for reselection; a request pending after one round gone after the next |
| `Bitmap.TestOr` | userspace/switch/switch.h:152-156 | bit by bit: union |
| `Bitmap.TestAnd` | userspace/switch/switch.h:158-162 | bit by bit: intersection |
| `Bitmap.TestXor` | userspace/switch/switch.h:164-168 | bit by bit: difference both ways |
| `Bitmap.TestDifference` | userspace/switch/linux/linux.c:804-815 | a & (a ^ b) is a without b |
| `Bitmap.TestInverse` | userspace/switch/switch.h:142-149 | bit by bit: complement |
| `Bitmap.TestSet` | userspace/switch/switch.h:221-221 | setting a bit sets that bit and no other |
| `Bitmap.TestReset` | userspace/switch/switch.h:220-220 | resetting a bit resets that bit and no other |
| `Bitmap.SameBits` | userspace/switch/switch.h:212-222 | bitmaps that agree on every bit are equal |
| `Bitmap.BitmapOr` | userspace/switch/switch.h:152-156 | in place, also onto an operand |
| `Bitmap.BitmapAnd` | userspace/switch/switch.h:158-162 | in place, also onto an operand |
| `Bitmap.BitmapXor` | userspace/switch/switch.h:164-168 | in place, also onto an operand |
| `Bitmap.InvertBitmap` | userspace/switch/switch.h:142-149 | in place |
| `VlanBackend.Backend.constructor` | userspace/switch/switch.c:319-337 | the start: the default VLANs 1 and 1002 to 1005, each with a bridge, no interfaces; lists, bridges and configuration agree |
| `VlanConfig.DefaultVlansStay` | userspace/switch/linux/linux.c:163-178 | the default VLANs are there at the start and no operation takes them away |
| `VlanBackend.PlacesOfPort` | userspace/switch/linux/linux.c:529-562 | where bridges and configuration agree: an access port is in exactly the bridge of its VLAN, if that exists, a trunk has sub-interfaces for exactly the existing VLANs it allows, and any other interface is in no bridge |
| `VlanBackend.MembersOfVlan` | userspace/switch/linux/linux.c:262-306 | and the members of a VLAN are exactly those |
| `VlanBackend.Backend.BrAddIf` | userspace/switch/linux/util_linux.c:146-165 | a device joins a bridge that exists if it is in none |
| `VlanBackend.Backend.BrRemoveIf` | userspace/switch/linux/util_linux.c:167-186 | a member leaves its bridge |
| `VlanBackend.Backend.DelVifData` | userspace/switch/switch.c:826-854 | the list of the VLAN loses it, and stays free of duplicates |
| `VlanBackend.Backend.HasVlanIf` | userspace/switch/linux/util_linux.c:70-90 | whether the VLAN has an interface |
| `VlanBackend.Backend.MakeVif` | userspace/switch/linux/util_linux.c:240-272 | one step of joining: the sub-interface exists, is listed and is in the bridge |
| `VlanBackend.Backend.DropVif` | userspace/switch/linux/util_linux.c:300-328 | one step of leaving: none of the three |
| `VlanBackend.Backend.AddVifsToTrunk` | userspace/switch/linux/util_linux.c:217-277 | the port joins exactly the existing VLANs that the bitmap, or else its allowed list, selects |
| `VlanBackend.Backend.RemoveVifsFromTrunk` | userspace/switch/linux/util_linux.c:279-333 | the port leaves exactly those |
| `VlanBackend.Backend.SetIfData` | userspace/switch/switch.c:736-756 | the configuration of one interface is replaced |
| `VlanBackend.Backend.IfAdd` | userspace/switch/linux/linux.c:28-80 | a new port is switched, in VLAN 1, and allows every VLAN; an access port is in bridge 1 alone, a trunk has a sub-interface in the bridge of each VLAN; all other interfaces, VLANs and places are as before; configuration and bridges agree |
| `VlanBackend.Backend.IfRemove` | userspace/switch/linux/linux.c:82-109 | a removed port is in no bridge, and nothing else changes; they agree |
| `VlanBackend.Backend.IfSetPortVlan` | userspace/switch/linux/linux.c:529-562 | an access port gets the access VLAN asked for and keeps all other data; it is in exactly the bridge of that VLAN if the VLAN exists, and in none if not; other interfaces, VLANs and places are as before; they agree |
| `VlanBackend.Backend.IfNoSwitchport` | userspace/switch/linux/util_linux.c:335-366 | a port becomes routed, its data else as before, unless its access VLAN is gone; it is in no bridge, all other places are as before; they agree |
| `VlanBackend.Backend.IfModeTrunk` | userspace/switch/linux/util_linux.c:405-437 | a port becomes a switched trunk, its data else as before, with a sub-interface in the bridge of exactly each VLAN it allows; all other places are as before; they agree |
| `VlanBackend.Backend.IfModeAccess` | userspace/switch/linux/util_linux.c:368-403 | a port becomes a switched access port, its data else as before, in exactly the bridge of its access VLAN, or, refused, is in none; all other places are as before; they agree afterwards exactly if the access VLAN exists, or nothing had to be removed |
| `VlanBackend.Backend.IfAddTrunkVlans` | userspace/switch/linux/linux.c:789-830 | VLAN by VLAN the list is the union, exactly the new VLANs get sub-interfaces, all other data and places are as before; they agree exactly if the port is switched, an access port, or gets none |
| `VlanBackend.Backend.IfSetTrunkVlans` | userspace/switch/linux/linux.c:832-881 | the list is the new one, a switched trunk has sub-interfaces for exactly its VLANs, a routed one for those that are new, all other data and places are as before; they agree under the same condition |
| `VlanBackend.Backend.IfDelTrunkVlans` | userspace/switch/linux/linux.c:883-924 | VLAN by VLAN the list is the difference, all other data and places are as before; they agree |
| `VlanBackend.Backend.VlanAdd` | userspace/switch/linux/linux.c:235-310 | a new VLAN has a bridge with exactly the access ports in it and the sub-interfaces of the switched trunks that allow it; other bridges stay; they agree |
| `VlanBackend.Backend.FillVlan` | userspace/switch/linux/linux.c:262-306 | its loop over all ports |
| `VlanBackend.Backend.VlanDel` | userspace/switch/linux/linux.c:163-233 | a deleted VLAN has no members, and no bridge unless it has an interface; interfaces, other bridges and default VLANs stay; they agree |
| `VlanBackend.Backend.ClearVlan` | userspace/switch/linux/linux.c:180-215 | its two loops empty the bridge |
| `VlanBackend.Backend.VifAdd` | userspace/switch/linux/linux.c:312-352 | a VLAN interface gets a bridge if there is none, whose members stay if there is one; all else is as before; they agree |
| `VlanBackend.Backend.VifDel` | userspace/switch/linux/linux.c:354-376 | the bridge goes with the interface unless the VLAN exists, and then keeps its members; all else is as before; they agree |
| `VlanBackend.StrandedTrunk` | userspace/switch/linux/util_linux.c:389-395 | what is left after a failed change to access mode agrees with the configuration exactly when nothing was to be removed |
| `VlanBackend.TrunkExtended` | userspace/switch/linux/linux.c:808-824 | adding the sub-interfaces of the new VLANs agrees with the union exactly when the port is switched or gets none |
| `VlanBackend.TrunkReplaced` | userspace/switch/linux/linux.c:852-876 | adding new and removing old ones agrees with the new list under the same condition |
| `VlanBackend.TrunkReduced` | userspace/switch/linux/linux.c:905-918 | removing agrees with the difference |
| `VlanConfig.AccessModeCanBeUnsafe` | userspace/switch/linux/util_linux.c:368-403 | a configuration for which the change to access mode goes wrong |
| `VlanConfig.NewTrunkVlansCanBeUnsafe` | userspace/switch/linux/linux.c:808-824 | a routed port for which adding VLANs goes wrong |
| `VlanList.AllowedFromIsExact` | userspace/cli/cfgbuild/cfgbuild.c:30-51 | the reference list: exactly the allowed VLANs from a number on, increasing |
| `VlanList.FirstAllowed` | userspace/cli/cfgbuild/cfgbuild.c:11-12 | the first loop stops at the first allowed VLAN |
| `VlanList.RunEnd` | userspace/cli/cfgbuild/cfgbuild.c:18-19 | the second loop stops at the end of its run |
| `VlanList.TokensDenoteAllowed` | userspace/cli/cfgbuild/cfgbuild.c:8-28 | the tokens denote the allowed VLANs, each once, in increasing order |
| `VlanList.TokensArePrintable` | userspace/cli/cfgbuild/cfgbuild.c:8-28 | every token is a valid VLAN, or a range of at least three |
| `VlanList.TextIsShort` | userspace/cli/cfgbuild/cfgbuild.c:5-6 | a token has at most nine characters, which the buffer takes |
| `VlanList.LayoutKeepsTokens` | userspace/cli/cfgbuild/cfgbuild.c:40-51 | breaking into lines loses, repeats and reorders nothing |
| `VlanList.LayoutFits` | userspace/cli/cfgbuild/cfgbuild.c:41-46 | every line stays below 80 characters |
| `VlanList.LayoutNonEmpty` | userspace/cli/cfgbuild/cfgbuild.c:40-51 | no line is without a token, but the one of an empty list |
| `VlanList.PrintedLines` | userspace/cli/cfgbuild/cfgbuild.c:30-52 | each line printed is below 80 characters and made of its prefix and its tokens; together they denote exactly the allowed VLANs from 1 to 4094, once each and in increasing order |
| `VlanList.ListVlansToken` | userspace/cli/cfgbuild/cfgbuild.c:8-28 | the scan yields the next token and where to go on, or 0 |
| `VlanList.ListVlans` | userspace/cli/cfgbuild/cfgbuild.c:30-52 | writes exactly those lines |
| `VlanParse.DecimalReadsBack` | userspace/cli/cfgbuild/cfgbuild.c:15-15 | the digits of a number have its value |
| `VlanParse.HugeNumbersWrap` | userspace/cli/command/config_if.c:20-20 | a number beyond the width of an int is read modulo two to the 32, so that every VLAN has such a name |
| `VlanParse.AtoiWraps` | userspace/cli/command/config_if.c:20-20 | what is read of any digits: the number modulo two to the 32, as an int; -1 beyond the range of a long |
| `VlanParse.TakenForVlanIff` | userspace/cli/command/config_if.c:20-22 | digits are taken for a VLAN exactly if they fit a long and their low 32 bits are between 1 and 4094 |
| `VlanReplay.FieldReads` | userspace/cli/command/config_if.c:14-49 | a field is a VLAN exactly when it is the digits of a valid one, and a range exactly when it is two such numbers with a dash between them |
| `VlanReplay.ListSets` | userspace/cli/command/config_if.c:5-69 | whether there is an error or not, a list sets exactly the VLANs of its fields up to and with the first range, or before the first error |
| `VlanParse.NumberThenComma` | userspace/cli/command/config_if.c:25-31 | a number with a comma is set and the rest read, or it is refused |
| `VlanParse.IntervalThenComma` | userspace/cli/command/config_if.c:37-48 | a range with a comma is set, and then an error |
| `VlanParse.IntervalThenBadMark` | userspace/cli/command/config_if.c:34-48 | with anything else it is an error, and not set |
| `VlanParse.IntervalAtEnd` | userspace/cli/command/config_if.c:59-66 | a range at the end is set |
| `VlanParse.ParseVlanList` | userspace/cli/command/config_if.c:5-69 | the character loop gives the code and the bitmap of the reading by fields |
| `VlanParse.EndOfNumber` | userspace/cli/command/config_if.c:15-34 | its first state |
| `VlanParse.EndOfRange` | userspace/cli/command/config_if.c:34-48 | its second state |
| `VlanParse.EndOfList` | userspace/cli/command/config_if.c:51-67 | what the end of the list completes |
| `VlanReplay.AcceptedIff` | userspace/cli/command/config_if.c:5-69 | a list is accepted exactly when every field can be read and none but the last is a range |
| `VlanReplay.TokenReadsBack` | userspace/cli/cfgbuild/cfgbuild.c:15-24 | a printed token reads back as what it denotes, and has no comma |
| `VlanReplay.ParsePrinted` | userspace/cli/command/config_if.c:5-69 | of a printed line exactly the tokens up to the first range are set, with error 2 if that is not the last |
| `VlanReplay.TakenAllIff` | userspace/cli/command/config_if.c:36-48 | all tokens are taken exactly when no range comes before the last |
| `VlanReplay.CommandedBits` | userspace/cli/command/config_if.c:197-225 | what each form of the command does to each VLAN |
| `VlanReplay.ReplayBits` | userspace/cli/command/config_if.c:199-206 | a replay allows exactly the VLANs of the tokens taken |
| `VlanReplay.SomethingIsLost` | userspace/cli/command/config_if.c:36-48 | a range before the end of its line costs a VLAN |
| `VlanReplay.RoundTrip` | userspace/cli/cfgbuild/cfgbuild.c:30-52 | for every allowed set and every port, replaying what is printed restores the set exactly when no line has a range before its end; with nothing allowed, exactly when the port allows nothing already |
| `VlanReplay.GoingOnKeepsAccepted` | userspace/cli/command/config_if.c:45-46 | the reader that goes on after a range, as the reset of the state there asks for, reads every list that is accepted today in the same way |
| `VlanReplay.RoundTripGoingOn` | userspace/cli/command/config_if.c:45-46 | with that reader every allowed set is restored, on every port, unless nothing is allowed and the port allows something |
| `VlanReplay.RoundTripFails` | userspace/cli/command/config_if.c:36-48 | VLANs 1, 2, 3 and 5 do not survive |
| `VlanCommand.FlipBitmap` | userspace/cli/command/config_if.c:213-214 | the complement, in place |
| `VlanCommand.ListBitmap` | userspace/cli/command/config_if.c:197-225 | the bitmap for the backend |
| `VlanCommand.CmdTrunkVlan` | userspace/cli/command/config_if.c:188-238 | each form of the command leaves the VLANs it should in the backend; bridges agree exactly if adding was safe; a bad list is rejected after it was applied |
| `CdpHeap.FirstChild` | userspace/cdpd/cdp_aging.c:68-73 | a child that no other child expires before |
| `CdpHeap.ExchangeIsPermutation` | userspace/cdpd/cdp_aging.c:34-42 | an exchange permutes the entries |
| `CdpHeap.ExchangePlaces` | userspace/cdpd/cdp_aging.c:34-42 | and makes both back pointers right, even if one was not |
| `CdpHeap.SiftUpRestoresHeap` | userspace/cdpd/cdp_aging.c:47-56 | sifting up restores the heap |
| `CdpHeap.SiftUpKeeps` | userspace/cdpd/cdp_aging.c:47-56 | permutes the entries, and keeps the back pointers |
| `CdpHeap.SiftDownRestoresHeap` | userspace/cdpd/cdp_aging.c:61-84 | sifting down restores the heap |
| `CdpHeap.SiftDownIsPermutation` | userspace/cdpd/cdp_aging.c:61-84 | permutes the entries |
| `CdpHeap.SiftDownPlaces` | userspace/cdpd/cdp_aging.c:61-84 | keeps the back pointers |
| `CdpHeap.InsertKeepsHeap` | userspace/cdpd/cdpd.c:362-377 | a new neighbour joins a heap with its expiry time |
| `CdpHeap.InsertPlaces` | userspace/cdpd/cdpd.c:366-371 | and every back pointer is right |
| `CdpHeap.TouchedIsHeapBelow` | userspace/cdpd/cdpd.c:354-355 | a refresh never lowers the key, so only the children of the slot can be out of order |
| `CdpHeap.RefreshFromOwnSlot` | userspace/cdpd/cdpd.c:353-358 | sifting down from the slot itself would be enough |
| `CdpHeap.RefreshKeepsHeapIff` | userspace/cdpd/cdpd.c:353-358 | whichever slot the back pointer names: with the index divided by the entry size a heap stays one exactly when that is slot 0 or none, or no child of the slot expires before the new time and, but for the children of the root, its parent does not expire after it |
| `CdpHeap.RefreshPlaces` | userspace/cdpd/cdpd.c:353-358 | back pointers that are right stay right |
| `CdpHeap.RefreshBreaksHeap` | userspace/cdpd/cdpd.c:357-357 | a heap that does not |
| `CdpHeap.RootExpiresFirst` | userspace/cdpd/cdp_aging.c:98-98 | nobody in a heap expires before the root |
| `CdpHeap.PopKeepsHeap` | userspace/cdpd/cdp_aging.c:116-123 | removing the root leaves a heap of the rest |
| `CdpHeap.PopPlacesIff` | userspace/cdpd/cdp_aging.c:116-123 | the back pointers are right afterwards exactly when the heap is empty or some child of the root expires before the moved entry |
| `CdpHeap.ExpireIsExact` | userspace/cdpd/cdp_aging.c:94-125 | for a fixed clock a round frees exactly the neighbours that are due, in order of time, and leaves a heap of neighbours that are not |
| `CdpHeap.InsertKeepsHeld` | userspace/cdpd/cdpd.c:366-366 | no entry is further ahead than its holding time, after a new neighbour |
| `CdpHeap.RefreshKeepsHeldIff` | userspace/cdpd/cdpd.c:355-355 | after a refresh exactly when the slot written is none or belongs to a neighbour with no shorter holding time |
| `CdpHeap.PopKeepsHeld` | userspace/cdpd/cdp_aging.c:116-123 | and after an expiry |
| `CdpHeap.RefreshSame` | userspace/cdpd/cdpd.c:353-358 | even through a stale back pointer a refresh loses nobody |
| `CdpHeap.RunsConserve` | userspace/cdpd/cdp_aging.c:87-129 | on every run each neighbour heard is either freed once or still there once, and the heap holds exactly the known neighbours |
| `CdpHeap.HeapsIffSafe` | userspace/cdpd/cdp_aging.c:87-129 | on every run, whatever became of the back pointers: all states so far are heaps exactly when every refresh so far met that condition |
| `CdpHeap.CleanFreesTheDue` | userspace/cdpd/cdp_aging.c:94-125 | and then a round of the cleaner frees exactly the neighbours that are due, in order of time |
| `CdpHeap.RunBreaksHeap` | userspace/cdpd/cdp_aging.c:116-116 | a run from the empty heap on which a stale back pointer ends heap order |
| `CdpHeap.StaleRefreshHitsAnother` | userspace/cdpd/cdp_aging.c:116-123 | a stale back pointer can move another neighbour's time |
| `CdpAgeing.Ageing.Xchg` | userspace/cdpd/cdp_aging.c:34-42 | is `CdpHeap.Exchange`, and touches no slot beyond the end |
| `CdpAgeing.Ageing.SiftUp` | userspace/cdpd/cdp_aging.c:47-56 | is `CdpHeap.SiftUp` |
| `CdpAgeing.Ageing.SiftDown` | userspace/cdpd/cdp_aging.c:61-84 | is `CdpHeap.SiftDown`, or nothing beyond the end |
| `CdpAgeing.Ageing.NewNeighbour` | userspace/cdpd/cdpd.c:362-378 | is `CdpHeap.Insert`; the write is beyond the array exactly when the array is full |
| `CdpAgeing.Ageing.RefreshNeighbour` | userspace/cdpd/cdpd.c:346-361 | is `CdpHeap.Refresh` |
| `CdpAgeing.Ageing.FreeRoot` | userspace/cdpd/cdp_aging.c:106-123 | is `CdpHeap.Pop` |
| `CdpAgeing.Ageing.Clean` | userspace/cdpd/cdp_aging.c:94-125 | is `CdpHeap.Expire` |
| `CdpChecksum.OnesSumModulo` | userspace/cdpd/cdp_send.c:216-229 | the one's complement sum is the sum modulo 0xFFFF, and 0 only for 0 |
| `CdpChecksum.ChecksumVerifiesIff` | userspace/cdpd/cdp_send.c:216-229 | for any words: with the checksum added the one's complement sum is 0xFFFF exactly when what the folds and the width of the sum lose is a multiple of 0xFFFF (section 1 of RFC 1071) |
| `CdpChecksum.TwoFoldsSuffice` | userspace/cdpd/cdp_send.c:226-228 | so it is whenever the sum is below two to the 32 |
| `CdpChecksum.ChecksumIsComplement` | userspace/cdpd/cdp_send.c:226-228 | and the checksum is then exactly the complement of the one's complement sum: 0xFFFF for zeros, and 0, not 0xFFFF, for any other multiple of 0xFFFF |
| `CdpChecksum.PacketsVerify` | userspace/cdpd/cdp_send.c:216-229 | in particular for packets of up to 65537 words |
| `CdpChecksum.PacketsHoldTheComplement` | userspace/cdpd/cdp_send.c:216-229 | so it is for those packets |
| `CdpChecksum.PacketVerifiesIff` | userspace/cdpd/cdp_send.c:216-229 | for any octets, on machines of either byte order: a receiver that pads an odd packet with zero gets 0xFFFF exactly when what is lost is, modulo 0xFFFF, what the sender has added too much for the last octet |
| `CdpChecksum.PacketsVerifyIff` | userspace/cdpd/cdp_send.c:223-224 | so a packet of up to 131074 octets verifies exactly when their number is even, or there is a zero beyond it and, but on a big-endian machine, at its end |
| `CdpChecksum.CdpChecksum` | userspace/cdpd/cdp_send.c:216-229 | the loop over the octets computes this checksum, odd lengths included, its sum wrapping at 64 bits |
| `Cli.Spaces` | userspace/cli/cli.c:24-28 | strspn: all whitespace and no more |
| `Cli.TokenLength` | userspace/cli/cli.c:36-37 | strcspn: no whitespace, up to whitespace or the end |
| `Cli.ExactIsLast` | userspace/cli/cli.c:75-77 | the exact match is the last one of the token's own length |
| `Cli.OkLength` | userspace/cli/cli.c:81-95 | the longest proper prefix that some sibling starts with, or 0 |
| `Cli.OneMatch` | userspace/cli/cli.c:64-79 | the full name of the only match has the same only match |
| `Cli.SameMatches` | userspace/cli/cli.c:69-70 | tokens that differ in case only have the same matches |
| `Cli.FullNameChooses` | userspace/cli/cli.c:147-158 | the full name of the node that a token stands for stands for that node |
| `Cli.FirstStep` | userspace/cli/cli.c:138-178 | a step moves on in the line, and says whether there is more |
| `Cli.AbbreviationIsSound` | userspace/cli/cli.c:128-182 | whatever a line resolves to, the line with each token replaced by its node's full name resolves to the same path |
| `CliChoice.AbbreviatesIffStarts` | userspace/cli/cli.c:69-70 | a token matches a name exactly if the name is no shorter and has the same letter in each place, in upper or lower case |
| `CliChoice.VisibleIff` | userspace/cli/cli.c:65-68 | a node is shown exactly if each of its mask words has a bit in common with the filter |
| `CliChoice.ChoiceIff` | userspace/cli/cli.c:63-79 | for a menu of up to 128 nodes, over siblings and their positions: a token stands for a node exactly if that is the last visible sibling it begins that has its length, or, there being none of that length, the only visible sibling it begins; for nothing exactly if no visible sibling begins with it; in all other cases it is ambiguous |
| `CliChoice.CaseMakesNoDifference` | userspace/cli/cli.c:69-70 | changing the case of letters of the token changes no answer |
| `CliChoice.AbbreviationsResolve` | userspace/cli/cli.c:128-182 | a line of up to 64 tokens, each of which stands for the next node of a path, resolves to that path: with any whitespace, in any case, in full or abbreviated |
| `CliChoice.TooManyTokens` | userspace/cli/cli.c:138-139 | anything behind 64 such tokens, even whitespace, is too deep |
| `CliChoice.FirstBadTokenDecides` | userspace/cli/cli.c:147-178 | the first token that stands for nothing decides the outcome of the line: ambiguous, or invalid, with the offset of what is wrong |
| `Cli.CliNextToken` | userspace/cli/cli.c:16-40 | offset and length of the next token |
| `Cli.Lookup` | userspace/cli/cli.c:63-79 | the first 128 matches and the exact one |
| `Cli.CutDown` | userspace/cli/cli.c:84-95 | ok_len on a miss is the longest proper prefix matching some sibling |
| `Cli.CliTokenize` | userspace/cli/cli.c:41-100 | all of it, for a menu with and without children |
| `Cli.ExecStep` | userspace/cli/cli.c:138-178 | the body of the loop is one step of the resolution |
| `Cli.CliExec` | userspace/cli/cli.c:128-182 | the loop ends, with the outcome of the resolution and the menu reached |

## Left out

- Mm.Handle.Realloc: when the chunk pointer is stale or the copy leaves the new payload or the area, the model reports the fault and stops there; a remapping that happens to keep the address is a fault in the model, too. What a copy over an adjacent header leaves is `MmList.ReallocOverrun`.
- Mm.Handle.Extend: no other process comes in between the copy of the header and the lock; `Mm.Handle.ExtendWith` is about any copy.
- Mm.Handle.Create: `mm_create` as one step that succeeds; failing system calls and two processes creating the same object at once are not modelled.
- The address at which an area is mapped: pointers are offsets, and callers' own pointers are not modelled. Those that userspace/switch/switch.c:799-819 (`v_data`) and userspace/switch/linux/util_linux.c:238-271 (`allowed_vlans`, `v_data`) take before `mm_alloc` and use after it go stale when the area grows; VlanBackend keeps lists as values.
- Widths, alignment and byte order of the allocator's cells: one cell holds one number, and an offset does not wrap at 32 bits.
- MmProtocol.RunsAreSafe: a step is a whole library call inside a critical section; stores of different processes inside one section cannot interleave because of the lock, and stores outside any section are not modelled.
- The Receive, Migration and Topology Change machines and the receive thread: surroundings that may set what they set, at any time. The Topology Change machine never leaves its inactive state, because nothing clears the flush request.
- The signal that ticks the clock falls between machine calls, not inside one.
- rstpd_unregister_interface, `rootTimes`, and what enabling learning and forwarding does to hardware.
- Memory that malloc leaves unset in a new port reads as 0; `allSynced`, `reRooted` and `operEdge` are false, as no code sets them.
- Loop-freedom of a network of several bridges.
- RstpProgress.ForwardsInTime: a second has a tick and, after it, at least nine turns of the port's role machine; the loop at userspace/rstp/rstpd.c:227-250 does not pause between rounds. Nothing is claimed for a port that is not left in peace.
- RstpTiming.ForwardDelay: nothing is claimed for a port that was agreed at the decision; that is what agreement is for.
- VlanBackend.Backend.VifAdd: only for a VLAN without an interface; a second one overwrites list links with memory that was never set.
- VlanBackend.Backend.IfRemove: only for an interface that is known; otherwise the code goes by data it never read (userspace/switch/linux/linux.c:89).
- VlanBackend.Backend.IfAddTrunkVlans: only for an interface that is known, as above (line 799).
- VlanBackend.Backend.IfSetTrunkVlans: only for an interface that is known, as above (line 842).
- VlanBackend.Backend.IfDelTrunkVlans: only for an interface that is known, as above (line 893).
- VlanBackend.Backend.IfAdd: VLAN 1 exists, as the start leaves it and every operation keeps it (`VlanConfig.DefaultVlansStay`).
- Failures of the kernel other than the obvious ones (a bridge that exists or does not, a member of another bridge), interface names, ageing time, multicast snooping, static addresses.
- VlanReplay.RoundTrip: replaying starts at the VLAN list of a line; that the command line resolves to the command is not part of it. Bits 0 and 4095 of the bitmap are not compared.
- VlanParse.ParseVlanList: lists end at the end of the string, and atoi is the one of a C library with a 64-bit long; beyond that its result is undefined anyway.
- CdpAgeing.Ageing.NewNeighbour: when the array is full the model reports the fault and stops there; the growth that comes too late, and counts bytes for entries (userspace/cdpd/cdpd.c:372-376), is not modelled.
- CdpHeap.ExpireIsExact: the clock does not advance during a round.
- Neighbour lists of interfaces, and the device ID by which a neighbour is found again; a neighbour is a number, and the record of a new one is new.
- CdpChecksum.CdpChecksum: the octet beyond an odd packet is a parameter. A receiver of the other byte order is not modelled.
- CliChoice.ChoiceIff: menus of more than 128 nodes, of whose matches the code looks at the first 128 only; `Cli.Choose` has that limit.
- CliChoice.TooManyTokens: the program then aborts (userspace/cli/cli.c:139); the model reports it.
- Cli.AbbreviationIsSound: menus whose nodes have a tokenizer of their own are not covered, and names have no whitespace in them. The handler's result, pagers and filters are not modelled.
- The other backends, the build of the rest of a configuration, menus, login and logging.
