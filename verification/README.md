# Volant: a verified model

Volant is a message broker. This project models the parts of it whose
correctness is least obvious from the code, and proves what they are for:

- **Partition assignment and consumer groups.** The sticky assignor, its
  multi-topic form and the range assignor; the group coordinator as a state
  machine whose steps are the mutex-held segments of the code (joins that park
  on a condition variable, SyncGroup, leave, two kinds of session expiry,
  deletion). Results are over every run: at most one owner of a partition, every
  partition owned after a rebalance, a rebalance that moves partitions only
  where it must, a SyncGroup round between any two generation-raising joins,
  commits exactly from members that confirmed the current generation, no lost
  wakeup.
- **Replicated stores.** The truncate journal (a per-key maximum that converges
  whatever the delivery order, and whose file never goes back under concurrent
  writers), the DeleteRecords outbox (at-least-once over every run) and the
  leader-epoch index (the same answer as a scan of the log).
- **The Go client's wire format and loops.** Frames over arbitrarily cut
  streams, payload formats with trailing fields, the broker's strict
  assignment-list reader, and the retry, redirect and re-initialisation loops
  against a peer that may answer anything.

## How the model is laid out

| modules | about |
|---|---|
| `Options`, `Arithmetic`, `Ordering`, `Counting`, `Sorting` | optional values, products and quotients, string order, sums and permutations, stable sort |
| `Assignor`, `AssignorFairness`, `StickyAssignor`, `MultiAssignor`, `MultiStickiness` | the assignor as a specification, what distinguishes its result from every other, as the loops of the code, over many topics, and its stability laws |
| `Group`, `GroupOwnership`, `GroupFence`, `GroupParking`, `GroupStability`, `GroupMembership`, `GroupCoordinator` | the group state machine, its run-level theorems, what each step does to members, lists and queue, and the class whose methods each make one of its steps |
| `Journal`, `TruncateJournal`, `JournalConcurrency` | max-merge of marks, the journal object, its threads |
| `Outbox`, `LeaderEpoch` | the outbox and its runs, the epoch index |
| `Bytes`, `Frame`, `FrameStream` | integers as bytes, frames, the receive loop |
| `Format`, `Messages`, `WireLayout`, `ExactDecoding`, `PayloadWriter`, `PayloadReader`, `AssignmentList` | lawful payload formats, the messages, their bytes field by field, exactly what decodes, the cursor code, the assignment list |
| `Retry`, `Producer` | the client's loops, producer identity and sequences |

Conventions. What the code takes from outside is a parameter of a step or of a
call: `HashMap` iteration order, fresh uuids, which sessions have timed out,
whether a park deadline passed, whether a save succeeded, partition counts, the
CRC, UTF-8 validity and every answer of the peer. The group generation wraps at
2^32 as in the code; theorems that compare generations carry the hypothesis
`NeverWraps` for their group and the stretch of the run they speak of. A file is a value that a successful save replaces as a whole.
Topic, group and member names are `string` in the broker modules and bytes in
the wire modules.

Where the code does not do what one would expect, the model follows the code,
shows the failing run and states the exact condition:

- A SyncGroup may install lists of its own, and the code does not compare them:
  lists that name one partition twice give it two owners
  (`OverlappingListsShareOwnership`). Over every run ownership is unique if and
  only if no accepted SyncGroup installed lists that overlap, or overlap with
  what the members they do not name still hold (`OwnershipUniqueIff`), and the
  next new generation makes it unique again (`NewGenerationHeals`).
- `delete_group` checks for members and removes the group under two separate
  locks and does not notify; a Join parked behind a member that joined in
  between sleeps on in front of an open fence (`DeleteLosesWakeup`). Over every
  run no Join sleeps in front of an open fence if and only if no group is
  deleted while a Join is asleep on it (`NeverSleepsThroughOpenFence`).
- The capacity cap makes the journal's content depend on arrival order whenever
  more keys are offered than a non-zero cap admits, and only then
  (`OrderMattersAboveCap`, `ConvergesIff`).
- An accepted enqueue can be lost by a restart (`FailedSaveLosesEnqueue`).
  Neither acknowledged nor dropped, it survives the next restart if and only if
  the disk already held it or some change from the enqueue on was saved, its own
  or a later one (`RestartKeepsEnqueueIff`).
- Lengths are written modulo 2^32 and the all-ones length means "absent", so a
  payload decodes to itself if and only if every length fits its field; every
  payload small enough for a frame qualifies (`ProduceRoundTrip`).
- A read may bring the last bytes of a frame and report the end of the stream
  at once; the call then reports a closed connection although the frame is
  complete in the buffer (`FrameWithEndOfStream`). A call delivers if and only
  if no read reported a fault and what was read decodes (`ReceiveFrame`).
- A producer that leaves the partition to the broker reads its base sequence
  under a negative partition. That counter stands still if and only if no
  message, modulo 2^32, is counted under it, which is so as long as no partition
  reaches 2^31 (`UnnamedPartitionStandsStill`); the sequence continues exactly
  when the messages are counted under the partition asked for, as they always
  are for a named one (`NextBatchContinuesIff`).

## Model

| member | source | states |
|---|---|---|
| `Assignor.RanksArePermutation` | crates/volant-broker/src/assignor.rs:128-129 | sorting the ids, ties by position, gives every member a distinct rank |
| `Assignor.TargetsSum` | crates/volant-broker/src/assignor.rs:126-135 | the base/base+1 targets add up to the partition count |
| `Assignor.TargetMonotone` | crates/volant-broker/src/assignor.rs:126-135 | a member's target never grows when the group grows and its rank moves accordingly |
| `Assignor.RankGrowsWithGroup` | crates/volant-broker/src/assignor.rs:128-129 | in a larger group a member's rank rises, by at most the number of newcomers |
| `Assignor.FallbackNeverTaken` | crates/volant-broker/src/assignor.rs:152-170 | while a partition is free some member is under target, so the fallback branch is dead |
| `Assignor.StickyIsExactCover` | crates/volant-broker/src/assignor.rs:97-176 | for any claims the result is a disjoint cover of all partitions with every member exactly at target |
| `Assignor.UnderTargetKeepsAll` | crates/volant-broker/src/assignor.rs:113-150 | a member whose claims do not exceed its target keeps all of them |
| `Assignor.OverTargetOnlyShrinks` | crates/volant-broker/src/assignor.rs:137-150 | a member over target ends with a subset of its claims |
| `Assignor.StickyIsIdempotent` | crates/volant-broker/src/assignor.rs:97-176 | run on an exact-target cover, such as its own output, it changes nothing |
| `Assignor.StickyRetainsMost` | crates/volant-broker/src/assignor.rs:97-176 | no assignment with the same sizes leaves more partitions with their claimants, per member and in total |
| `Assignor.StickyIgnoresListingOrder` | crates/volant-broker/src/assignor.rs:97-176 | the result per rank does not depend on the position of members |
| `Assignor.ListingOrderIrrelevant` | crates/volant-broker/src/assignor.rs:97-176 | with distinct ids and disjoint prior lists the result per id does not depend on how members or prior partitions are listed |
| `AssignorFairness.StickyIsTheFairCover` | crates/volant-broker/src/assignor.rs:97-176 | the result is the only exact cover in which everybody keeps its lowest claims up to its target and every other partition went to the member under target that then held fewest, ties by id |
| `AssignorFairness.DealtInTurn` | crates/volant-broker/src/assignor.rs:152-170 | with nothing claimed the member of rank r among m gets exactly the partitions that leave remainder r |
| `AssignorFairness.FirstAssignment` | crates/volant-broker/src/assignor.rs:97-176 | the same for distinct ids without prior partitions, the rank being the number of smaller ids |
| `AssignorFairness.LowerClaimsStay` | crates/volant-broker/src/assignor.rs:137-150 | a member never loses a claim while it keeps a higher one |
| `AssignorFairness.FirstListerKeeps` | crates/volant-broker/src/assignor.rs:113-122 | of several members listing a partition the first keeps it, if its list is within its target |
| `Ordering.LessIff` | crates/volant-broker/src/assignor.rs:128-129 | ids compare by their first difference, a proper prefix coming first |
| `StickyAssignor.SortedIndices` | crates/volant-broker/src/assignor.rs:128-129 | the sorted index vector is the inverse of the ranks |
| `StickyAssignor.KeepPrevious` | crates/volant-broker/src/assignor.rs:108-120 | out-of-range and already claimed entries are dropped, the first lister keeps each partition, once |
| `StickyAssignor.TargetSizes` | crates/volant-broker/src/assignor.rs:126-135 | the loop computes every member's target |
| `StickyAssignor.StripOne` | crates/volant-broker/src/assignor.rs:137-150 | exactly the highest partitions beyond the target are freed, the rest kept |
| `StickyAssignor.StripExcess` | crates/volant-broker/src/assignor.rs:137-150 | every list is cut to its lowest target-many partitions and what is cut is free |
| `StickyAssignor.Choose` | crates/volant-broker/src/assignor.rs:152-170 | the chosen member is under target, least loaded, then lowest in id order |
| `StickyAssignor.FillFree` | crates/volant-broker/src/assignor.rs:152-170 | the loop produces the specified fill, one free partition at a time in ascending order |
| `StickyAssignor.StickyAssign` | crates/volant-broker/src/assignor.rs:97-176 | the loops produce the specified assignment as ascending lists, on every input including none |
| `StickyAssignor.StickyAssignIsIdempotent` | crates/volant-broker/src/assignor.rs:97-176 | the lists it returned, given back as prior lists, are returned unchanged |
| `StickyAssignor.RangeAssign` | crates/volant-broker/src/assignor.rs:12-34 | contiguous ascending blocks in id order, a disjoint cover with every member at target |
| `StickyAssignor.SameCountsAsRange` | crates/volant-broker/src/assignor.rs:12-34 | the two assignors give each member lists of the same length |
| `MultiAssignor.GetsUnique` | crates/volant-broker/src/assignor.rs:179-233 | no two members get the same partition of a topic |
| `MultiAssignor.GetsValid` | crates/volant-broker/src/assignor.rs:179-233 | whoever gets a partition subscribes to its topic, and topic and partition exist |
| `MultiAssignor.GetsCover` | crates/volant-broker/src/assignor.rs:179-233 | every partition of a known topic with a subscriber is given to someone |
| `MultiAssignor.MultiFacts` | crates/volant-broker/src/assignor.rs:179-233 | a member's list holds exactly what it gets, sorted and without repetition |
| `MultiAssignor.GatherTopic` | crates/volant-broker/src/assignor.rs:202-216 | the loop collects a topic's subscribers with their ids and prior partitions |
| `MultiAssignor.AssignTopic` | crates/volant-broker/src/assignor.rs:197-226 | one turn of the topic loop appends that topic's share to every member |
| `MultiAssignor.StickyAssignMulti` | crates/volant-broker/src/assignor.rs:179-233 | the loops produce the specified multi-topic assignment, and the final sort changes nothing |
| `MultiStickiness.MultiIgnoresListingOrder` | crates/volant-broker/src/assignor.rs:179-233 | with disjoint prior lists a member's list does not depend on listing order |
| `MultiStickiness.JoinMovesOnlyToNewcomer` | crates/volant-broker/src/assignor.rs:113-170 | when a member joins a balanced topic, an old member ends with a subset of what it had |
| `MultiStickiness.LeaveKeepsSurvivors` | crates/volant-broker/src/assignor.rs:113-170 | when members leave a balanced topic, every survivor keeps all it had |
| `MultiStickiness.ResultIsBalanced` | crates/volant-broker/src/assignor.rs:179-233 | a result fed back as prior lists is balanced, so the two laws above apply again |
| `MultiStickiness.MultiIsIdempotent` | crates/volant-broker/src/assignor.rs:179-233 | assigning again from the assignor's own result returns that result, list by list, whatever the ids and the first prior lists |
| `GroupOwnership.ReassignDisjoint` | crates/volant-broker/src/group.rs:960-992 | a reassignment leaves assignments disjoint whatever they were |
| `GroupOwnership.StepDisjoint` | crates/volant-broker/src/group.rs:197-466 | every step that installs no lists keeps assignments disjoint, and every new generation makes them so |
| `GroupOwnership.SyncDisjointIff` | crates/volant-broker/src/group.rs:399-443 | an accepted SyncGroup leaves assignments disjoint if and only if its lists, the last one per member, and what the unnamed members hold do not overlap |
| `GroupOwnership.StepDisjointIff` | crates/volant-broker/src/group.rs:197-466 | from disjoint assignments a step leads to disjoint ones if and only if it is not an accepted SyncGroup whose lists overlap so |
| `GroupOwnership.OverlappingListsShareOwnership` | crates/volant-broker/src/group.rs:399-443 | in any group with two members, lists naming one partition for both let both pass the ownership check |
| `GroupOwnership.OwnershipUniqueIff` | crates/volant-broker/src/group.rs:399-794 | over every run ownership is unique in every state up to k if and only if no SyncGroup accepted before k installed overlapping lists |
| `GroupOwnership.AtMostOneOwner` | crates/volant-broker/src/group.rs:771-794 | in every state of a run whose accepted SyncGroups installed no overlapping lists, at most one member passes the ownership check for a partition |
| `GroupOwnership.NewGenerationHeals` | crates/volant-broker/src/group.rs:399-443 | whatever was installed before, from a new generation on ownership is unique if and only if no lists installed since overlap |
| `GroupOwnership.ReassignIgnoresIterationOrder` | crates/volant-broker/src/group.rs:960-992 | with disjoint assignments a reassignment does not depend on HashMap iteration order |
| `GroupOwnership.ReassignBalances` | crates/volant-broker/src/group.rs:960-992 | after a reassignment every topic is balanced among its subscribers |
| `GroupOwnership.JoinTakesOnlyForTheJoiner` | crates/volant-broker/src/group.rs:300-337 | a join to a balanced topic moves partitions to the joiner only |
| `GroupOwnership.SurvivorsKeepTheirs` | crates/volant-broker/src/group.rs:446-466 | after a leave or expiry survivors keep what they had of a balanced topic |
| `GroupFence.StepMember` | crates/volant-broker/src/group.rs:197-443 | a member's confirmed generation changes only by its own accepted SyncGroup or its insertion |
| `GroupFence.StepGeneration` | crates/volant-broker/src/group.rs:197-466 | no step lowers a living group's generation, and right after a new generation nobody has confirmed it |
| `GroupFence.NewGenerationLargerIff` | crates/volant-broker/src/group.rs:197-466 | a living group's new generation is larger than the old one if and only if the old one is not the last u32 |
| `GroupFence.JoinRaisesThroughOpenFence` | crates/volant-broker/src/group.rs:236-337 | a join raises a generation only when every live member has confirmed the old one, or the group is absent |
| `GroupFence.FencedJoinChangesNoGroup` | crates/volant-broker/src/group.rs:922-949 | a fenced join neither inserts, bumps nor reassigns, in any group |
| `GroupFence.ConfirmationHistory` | crates/volant-broker/src/group.rs:399-443 | a non-zero confirmation goes back to the member's own SyncGroup at that generation |
| `GroupFence.CommitWasConfirmed` | crates/volant-broker/src/group.rs:473-553 | a named commit that passes at a non-zero generation follows that member's SyncGroup at it, with the member in the group since |
| `GroupFence.NoCommitBeforeConfirming` | crates/volant-broker/src/group.rs:473-497 | after any new generation a named commit passes only after that member synced it |
| `GroupFence.ConfirmedSince` | crates/volant-broker/src/group.rs:847-853 | once nobody had confirmed, whoever holds the current confirmation synced since |
| `GroupFence.JoinsEncloseFullSyncRound` | crates/volant-broker/src/group.rs:236-337 | between two new generations, the second by a join, every member live at the second synced the generation being replaced |
| `GroupParking.FenceOpensOnlyWithNotify` | crates/volant-broker/src/group.rs:431-464 | every step but a deletion that opens a group's fence notifies all parked joins |
| `GroupParking.StepWakeup` | crates/volant-broker/src/group.rs:858-887 | no step but a deletion leaves a join asleep in front of an open fence |
| `GroupParking.StepWaiters` | crates/volant-broker/src/group.rs:889-907 | every step keeps the waiter counts equal to the number of parked joins per group |
| `GroupParking.WaitersAlwaysExact` | crates/volant-broker/src/group.rs:889-907 | the waiter counts are exact in every state of every run |
| `GroupParking.NeverSleepsThroughOpenFence` | crates/volant-broker/src/group.rs:648-907 | over every run, no join ever sleeps in front of an open fence if and only if no group is deleted while a join is asleep on it |
| `GroupParking.DeleteKeepsWakeupsIff` | crates/volant-broker/src/group.rs:648-668 | the step form for a deletion: it keeps the wakeup law exactly when no join sleeps on the deleted group |
| `GroupParking.DeleteLosesWakeup` | crates/volant-broker/src/group.rs:648-668 | a concrete run, from the member check to the removal, in which a deletion leaves a join asleep in front of an open fence |
| `GroupStability.StepReassigns` | crates/volant-broker/src/group.rs:197-466 | every step to a new generation leaves exactly the subscriptions and lists of a reassignment |
| `GroupStability.QuietKeepsShares` | crates/volant-broker/src/group.rs:197-466 | a step that keeps the generation, installs no lists and drops nobody moves no partition and changes no subscription |
| `GroupStability.NothingMoves` | crates/volant-broker/src/group.rs:197-466 | the same over any stretch of a run after a new generation |
| `GroupStability.JoinerAloneGains` | crates/volant-broker/src/group.rs:300-337 | over every run, quiet since a new generation, a join of a new member under the same partition count gives no other member anything it did not own |
| `GroupStability.SurvivorsLoseNothing` | crates/volant-broker/src/group.rs:446-466 | over every run, quiet since a new generation, a leave or expiry under the same partition count takes nothing from the members that stay |
| `GroupMembership.NewGenerationCovers` | crates/volant-broker/src/group.rs:960-992 | over every run, after a step to a new generation every partition of a known subscribed topic has exactly one owner, and it subscribes to the topic |
| `GroupMembership.JoinTakesEffect` | crates/volant-broker/src/group.rs:197-356 | a join that completes at once: members are the old ones and the joiner, who subscribes to the topics named and whose list counts as delivered; nobody else's subscription, delivery or confirmation changes |
| `GroupMembership.JoinAdvances` | crates/volant-broker/src/group.rs:240-330 | it leads to the next generation, the first after 0 in an absent group, and keeps the generation exactly for a live member with its old topics |
| `GroupMembership.BumpIsNew` | crates/volant-broker/src/group.rs:258-327 | the next generation is one more modulo 2^32, so never the same |
| `GroupMembership.CompletedJoinTakesEffect` | crates/volant-broker/src/group.rs:197-356 | the same over every run for a join completed after being parked, with the topics named when it was called |
| `GroupMembership.JoinCompletesIff` | crates/volant-broker/src/group.rs:230-310 | a join completes at once exactly for a live member with its old topics, an absent group or a fully confirmed one |
| `GroupMembership.WakeCompletesIff` | crates/volant-broker/src/group.rs:858-887 | over every run a parked join that looks again completes exactly if the group is gone or fully confirmed |
| `GroupMembership.FirstMemberOwnsAll` | crates/volant-broker/src/group.rs:300-343 | the first member of a group owns every partition of every known topic it asked for |
| `GroupMembership.AnswerListsOwnership` | crates/volant-broker/src/group.rs:329-356 | a completed join is answered with its id, the generation, and a list of exactly what it passes the ownership check for |
| `GroupMembership.RevokedIsWhatWasLost` | crates/volant-broker/src/group.rs:262-283 | over every run a re-join is told to give up exactly what its last answer assigned and this one does not |
| `GroupMembership.SyncTakesEffect` | crates/volant-broker/src/group.rs:399-443 | an accepted SyncGroup confirms for its caller alone, gives each member the last list that names it, and changes nothing else |
| `GroupMembership.LeaveTakesEffect` | crates/volant-broker/src/group.rs:446-466 | after an accepted leave the member is unknown and owns nothing; the group is gone exactly if it was the last; otherwise the others remain under a new generation |
| `GroupMembership.LeaverIsReplaced` | crates/volant-broker/src/group.rs:446-466 | every partition of a known topic a remaining member subscribes to then has an owner among those who remain |
| `GroupMembership.ExpireTakesEffect` | crates/volant-broker/src/group.rs:702-729 | expiry removes exactly the dead; a group that loses somebody goes to a new generation or, emptied, away; any other stays as it was |
| `GroupMembership.DropTakesEffect` | crates/volant-broker/src/group.rs:734-750 | the inner expiry removes exactly the dead and changes no generation and no list |
| `GroupMembership.OtherGroupsUntouched` | crates/volant-broker/src/group.rs:197-466 | a step on one group leaves every other as it was |
| `GroupMembership.QueueTakesEffect` | crates/volant-broker/src/group.rs:431-464 | parked joins are woken by an accepted SyncGroup, a leave and an expiry that costs a member, and by nothing else |
| `GroupMembership.JoinQueues` | crates/volant-broker/src/group.rs:858-887 | a fenced join with time left sleeps in the queue with what it asked for; any other leaves it or never enters |
| `GroupMembership.ResolvedIds` | crates/volant-broker/src/group.rs:219-227 | an explicit id is kept; different instance ids give different static ids |
| `GroupMembership.CommitCodes` | crates/volant-broker/src/group.rs:473-497 | which of the codes 0, 9, 10 and 11 a commit gets, each if and only if |
| `GroupMembership.CommitPassesIff` | crates/volant-broker/src/group.rs:473-497 | over every run a named commit passes if and only if it carries the group's generation and the member confirmed that and has stayed since |
| `GroupCoordinator.PartitionDiff` | crates/volant-broker/src/group.rs:952-958 | the revoked list holds exactly what was assigned and no longer is |
| `GroupCoordinator.GatherCounts` | crates/volant-broker/src/group.rs:975-984 | the loop collects the counts of exactly the subscribed topics that exist |
| `GroupCoordinator.ReassignMembers` | crates/volant-broker/src/group.rs:960-992 | the loops compute the reassignment for some iteration order of the members |
| `GroupCoordinator.LiveMemberIds` | crates/volant-broker/src/group.rs:839-843 | the live ids, sorted, each once and complete |
| `GroupCoordinator.Coordinator.constructor` | crates/volant-broker/src/group.rs:169-176 | a fresh coordinator is in the initial state |
| `GroupCoordinator.Coordinator.Join` | crates/volant-broker/src/group.rs:197-356 | a join makes the join step: completed at once, or parked with its waiter counted, or answered as fenced, with every field of the answer |
| `GroupCoordinator.Coordinator.Wake` | crates/volant-broker/src/group.rs:858-887 | a woken join makes the wake step: completed, answered as fenced on timeout, or asleep again, with every field of the answer |
| `GroupCoordinator.Coordinator.Complete` | crates/volant-broker/src/group.rs:300-356 | completion inserts or re-joins, bumps when needed, reassigns and returns the member's list and what was revoked |
| `GroupCoordinator.Coordinator.FencedResult` | crates/volant-broker/src/group.rs:922-949 | a fenced answer carries the rebalance code, the current generation and the sorted live ids, and changes nothing |
| `GroupCoordinator.Coordinator.Heartbeat` | crates/volant-broker/src/group.rs:359-379 | the error code by membership and generation, groups unchanged |
| `GroupCoordinator.Coordinator.Sync` | crates/volant-broker/src/group.rs:399-443 | makes the SyncGroup step: an accepted one confirms, installs supplied lists and notifies; the others are refused and change nothing |
| `GroupCoordinator.Coordinator.Leave` | crates/volant-broker/src/group.rs:446-466 | makes the leave step: removes, bumps and reassigns, drops an emptied group, notifies |
| `GroupCoordinator.Coordinator.DropExpired` | crates/volant-broker/src/group.rs:734-750 | makes the inner expiry step: members go, nothing is reassigned, emptied groups are dropped |
| `GroupCoordinator.Coordinator.ExpireAll` | crates/volant-broker/src/group.rs:702-729 | makes the expiry step: every group that loses a member is bumped and reassigned, or dropped |
| `GroupCoordinator.Coordinator.Delete` | crates/volant-broker/src/group.rs:657-660 | makes the deletion step of the second lock: the group goes, nobody is notified |
| `GroupCoordinator.Coordinator.CheckDelete` | crates/volant-broker/src/group.rs:648-656 | the member check of a deletion: refused exactly when the group has live members, and nothing changes |
| `GroupCoordinator.Coordinator.CheckCommitFence` | crates/volant-broker/src/group.rs:473-497 | the commit check of the state machine, error code by error code |
| `GroupCoordinator.Coordinator.Owns` | crates/volant-broker/src/group.rs:771-794 | the ownership check of the state machine |
| `Journal.JournalIsMaximum` | crates/volant-broker/src/truncate_journal.rs:279-465 | with room for every key, the marks are the per-key lexicographic maximum of everything delivered |
| `Journal.ReplicasConverge` | crates/volant-broker/src/truncate_journal.rs:394-465 | replicas offered the same entries agree, whatever order, duplication or batching |
| `Journal.OrderMattersAboveCap` | crates/volant-broker/src/truncate_journal.rs:279-327 | for any notes with more keys than a non-zero cap, two orders of the same notes end in different journals |
| `Journal.ConvergesIff` | crates/volant-broker/src/truncate_journal.rs:279-465 | the journal is independent of arrival order if and only if every key offered has room, or the cap is 0 |
| `Journal.RaiseIsMaximum` | crates/volant-broker/src/truncate_journal.rs:297-308 | a mark is replaced exactly by one with a larger offset, or the same offset and a larger epoch |
| `Journal.NoteTakesEffect` | crates/volant-broker/src/truncate_journal.rs:279-327 | a note without offset or topic, or with a new key at the cap, changes nothing; any other raises its own key only |
| `Journal.PushOnlyKnown` | crates/volant-broker/src/truncate_journal.rs:394-465 | a push changes a key only to the mark of one of its entries, with an offset and of a known topic |
| `Journal.PushCovers` | crates/volant-broker/src/truncate_journal.rs:394-465 | a push covers every usable known entry whose key is there or for which there is room |
| `Journal.PushRaises` | crates/volant-broker/src/truncate_journal.rs:394-465 | no push lowers a mark |
| `Journal.LoadHighest` | crates/volant-broker/src/truncate_journal.rs:138-177 | loading keeps the per-key maximum of the usable entries of a file |
| `Journal.ReopenRestores` | crates/volant-broker/src/truncate_journal.rs:138-177 | opening what was saved restores the marks exactly |
| `TruncateJournal.ListEntries` | crates/volant-broker/src/truncate_journal.rs:468-476 | the list holds every mark once, in key order |
| `TruncateJournal.TruncateJournal.constructor` | crates/volant-broker/src/truncate_journal.rs:138-177 | opening loads the maximum of the file and its generation |
| `TruncateJournal.TruncateJournal.Persist` | crates/volant-broker/src/truncate_journal.rs:487-504 | a successful save replaces the file by the current entries and generation |
| `TruncateJournal.TruncateJournal.NoteMark` | crates/volant-broker/src/truncate_journal.rs:279-327 | merges one mark unless it is unusable or over the cap, bumps the generation when asked and saves |
| `TruncateJournal.TruncateJournal.ApplyPush` | crates/volant-broker/src/truncate_journal.rs:394-465 | refuses oversized snapshots, merges the accepted entries and never lowers the generation |
| `TruncateJournal.TruncateJournal.RemoveTopic` | crates/volant-broker/src/truncate_journal.rs:334-347 | removes exactly the topic's marks and reports how many |
| `JournalConcurrency.InvNext` | crates/volant-broker/src/truncate_journal.rs:279-519 | every step of concurrent notes, pushes, saves and restarts keeps disk below memory, marks clean and each pending save's work in memory |
| `JournalConcurrency.DiskNeverGoesBack` | crates/volant-broker/src/truncate_journal.rs:487-504 | over every run successive files never go back in a mark or in the generation |
| `JournalConcurrency.SavedNoteIsOnDisk` | crates/volant-broker/src/truncate_journal.rs:318-326 | a state-changing note whose save succeeded is on disk, mark and generation, when it returns |
| `JournalConcurrency.SaveReadsBack` | crates/volant-broker/src/truncate_journal.rs:487-504 | under the invariant every run keeps, what a successful save writes loads back as the marks it had read |
| `JournalConcurrency.RestartRestoresLastSave` | crates/volant-broker/src/truncate_journal.rs:138-177 | after any run a restart loads exactly the marks and generation the last successful save had read |
| `JournalConcurrency.RestartBeforeAnySave` | crates/volant-broker/src/truncate_journal.rs:138-177 | before any successful save a restart loads the file the run began with |
| `JournalConcurrency.SavedNoteSurvivesRestart` | crates/volant-broker/src/truncate_journal.rs:279-327 | a note whose save succeeded is covered after every later restart, whoever wrote in between |
| `JournalConcurrency.OfferedStaysInMemory` | crates/volant-broker/src/truncate_journal.rs:279-465 | over every run what a note or push offers and finds room stays in memory until a restart |
| `JournalConcurrency.ChangedNoteSaves` | crates/volant-broker/src/truncate_journal.rs:279-327 | a note that changed the map goes on to a save, the generation one higher if it bumps |
| `JournalConcurrency.RaiseReaches` | crates/volant-broker/src/truncate_journal.rs:279-465 | a push leaves its compare-exchange loop only with the generation at least the one it carries, and moves it nowhere else |
| `Outbox.AtLeastOnce` | crates/volant-broker/src/delete_records_outbox.rs:165-263 | over every durable run an accepted offset stays pending at least that high, or was acknowledged at least that high, or was dropped |
| `Outbox.HoldsOrAcked` | crates/volant-broker/src/delete_records_outbox.rs:165-263 | a single step loses a pending offset only by an acknowledgement at least that high or a drop |
| `Outbox.PendingUntilAcked` | crates/volant-broker/src/delete_records_outbox.rs:221-263 | the same over any stretch of a run |
| `Outbox.SavedRunsAreDurable` | crates/volant-broker/src/delete_records_outbox.rs:272-281 | when every save succeeds, restarts lose nothing |
| `Outbox.RacingEnqueueSurvives` | crates/volant-broker/src/delete_records_outbox.rs:221-254 | a higher enqueue during an in-flight retry survives that retry's acknowledgement |
| `Outbox.FailedSaveLosesEnqueue` | crates/volant-broker/src/delete_records_outbox.rs:272-281 | a concrete run in which a failed save and a restart lose an accepted enqueue |
| `Outbox.RestartKeepsEnqueueIff` | crates/volant-broker/src/delete_records_outbox.rs:165-300 | an accepted enqueue, not acknowledged or dropped since, survives the next restart if and only if the disk held it before or some change from it on was saved |
| `Outbox.ReopenRestores` | crates/volant-broker/src/delete_records_outbox.rs:284-300 | loading what was saved restores the pending map exactly |
| `Outbox.EnqueueTakesEffect` | crates/volant-broker/src/delete_records_outbox.rs:165-218 | an accepted enqueue leaves the larger of old and new target, by offset and then epoch, and touches no other key |
| `Outbox.AckTakesEffect` | crates/volant-broker/src/delete_records_outbox.rs:244-254 | an acknowledgement clears its key exactly if the pending offset is not above the one sent, and touches no other |
| `Outbox.AckedRetryClears` | crates/volant-broker/src/delete_records_outbox.rs:221-254 | over every run a retry acknowledged with nothing enqueued for its key meanwhile clears the key |
| `Outbox.DropTakesEffect` | crates/volant-broker/src/delete_records_outbox.rs:257-263 | a drop removes its key only; a failed retry changes only what is on the wire |
| `Outbox.LoadFindsHighest` | crates/volant-broker/src/delete_records_outbox.rs:100-115 | loading finds for every key the first entry of its highest offset |
| `Outbox.DeleteRecordsOutbox.constructor` | crates/volant-broker/src/delete_records_outbox.rs:100-115 | opening loads the file |
| `Outbox.DeleteRecordsOutbox.Add` | crates/volant-broker/src/delete_records_outbox.rs:165-218 | makes the enqueue step: refused for a new key at the cap, otherwise the larger offset wins |
| `Outbox.DeleteRecordsOutbox.RetrySucceeded` | crates/volant-broker/src/delete_records_outbox.rs:244-254 | makes the acknowledgement step: removes only what is not above the acknowledged offset |
| `Outbox.DeleteRecordsOutbox.DropEntry` | crates/volant-broker/src/delete_records_outbox.rs:257-263 | makes the drop step |
| `LeaderEpoch.EpochHistory.EnsureEntry` | crates/volant-broker/src/leader_epoch.rs:107-117 | adds an unknown epoch and keeps the list sorted, leaves a known one alone |
| `LeaderEpoch.EnsureFacts` | crates/volant-broker/src/leader_epoch.rs:107-117 | the entries stay ordered by epoch, and hold exactly the old ones and the new one |
| `LeaderEpoch.HistoryAgrees` | crates/volant-broker/src/leader_epoch.rs:107-117 | after any history each entry splits the log exactly where its epoch began |
| `LeaderEpoch.ScanEnd` | crates/volant-broker/src/leader_epoch.rs:126-190 | the reference: the first record with a larger epoch, or the log end |
| `LeaderEpoch.IndexMatchesScan` | crates/volant-broker/src/leader_epoch.rs:126-190 | after any history a past epoch is answered with the largest begun epoch at most it and the offset a scan finds |
| `LeaderEpoch.LookupMatchesScan` | crates/volant-broker/src/leader_epoch.rs:126-190 | the same for any index that agrees with its log |
| `LeaderEpoch.EveryRequestAnswered` | crates/volant-broker/src/leader_epoch.rs:126-190 | after any history: -1 and the current epoch get the current epoch and the high watermark; an epoch not reached or below -1 gets none; one before the first known gets that epoch and its end; any other the largest epoch begun by then and the end a scan finds |
| `LeaderEpoch.AnswersAreScanEnds` | crates/volant-broker/src/leader_epoch.rs:126-190 | with the high watermark at the log end every epoch from the first known to the current one is answered with the scan end |
| `LeaderEpoch.NoHistory` | crates/volant-broker/src/leader_epoch.rs:149-175 | without entries an earlier epoch is answered as epoch 0 up to the high watermark |
| `LeaderEpoch.SignedViews` | crates/volant-broker/src/leader_epoch.rs:126-190 | the answered epoch and offset are the unsigned ones modulo 2^32 and 2^64 in the signed range |
| `Frame.EncodeVersion` | clients/go/frame/frame.go:55-69 | header and payload filled in place, oversized payloads refused |
| `Frame.DecodeUndoesEncode` | clients/go/frame/frame.go:75-111 | a frame followed by anything decodes to itself and leaves exactly the rest |
| `Frame.PrefixNeedsMore` | clients/go/frame/frame.go:75-111 | no strict prefix of a frame is an error |
| `Frame.DecodeIffEncoded` | clients/go/frame/frame.go:115-127 | a buffer decodes to a frame if and only if it is that frame's encoding |
| `Frame.MoreBytesKeepVerdict` | clients/go/frame/frame.go:75-111 | more bytes never change an error or a frame already found |
| `Frame.WireBytes` | clients/go/frame/frame.go:55-69 | the frame on the wire, byte by byte |
| `Frame.DamageIsNamed` | clients/go/frame/frame.go:75-111 | a wrong first byte, an oversized length, a wrong version and a wrong checksum are each reported as such |
| `Frame.WholeFramesOnly` | clients/go/frame/frame.go:115-127 | a frame alone is parsed, a strict prefix is incomplete, a frame followed by anything has trailing bytes |
| `Bytes.BigByte` | clients/go/frame/frame.go:55-69 | big-endian: byte j of k is v / 256^(k-1-j) mod 256 |
| `Bytes.LittleByte` | clients/go/codec/codec.go:110-132 | little-endian: byte j is v / 256^j mod 256 |
| `FrameStream.FrameWithEndOfStream` | clients/go/client.go:619-660 | a first read that brings a whole frame together with the end of the stream ends the call as closed, with the frame complete in the buffer |
| `FrameStream.Client.ReceiveFrame` | clients/go/client.go:619-660 | after every read but the last nothing was decided; a frame or a rejection if and only if no read reported a fault and what was read decodes to it; closed or failed exactly as the last read reported; no byte is lost on any path; a frame or a rejection is also what the whole stream decodes to |
| `FrameStream.StreamVerdict` | clients/go/client.go:619-660 | what the reads decided is what the whole stream, the unread rest included, decides |
| `FrameStream.SplitUndoesWireAll` | clients/go/frame/frame.go:55-111 | frames sent back to back split into exactly those frames |
| `FrameStream.ReceiveAll` | clients/go/client.go:619-660 | receiving until no frame comes yields frames of the stream in order, and all of them if and only if no complete frame is left in the buffer, which only a fault of the last read can leave |
| `Format.NumbersLawful` | clients/go/codec/codec.go:106-194 | fixed-width integers read back, whatever follows |
| `Format.SignedLawful` | clients/go/codec/codec.go:124-194 | two's complement integers read back |
| `Format.TextLawful` | clients/go/codec/codec.go:206-226 | a string the writer accepts reads back |
| `Format.BytesLawful` | clients/go/codec/codec.go:271-307 | bytes and optional bytes read back exactly when shorter than the absent mark |
| `Format.ListLawful` | clients/go/codec/codec.go:315-344 | a counted list of a lawful format reads back exactly when the count and every element fit |
| `Format.DefaultedLawful` | clients/go/codec/codec.go:1035-1051 | a trailing field with a default reads back when present |
| `Format.CutOff` | clients/go/codec/codec.go:1035-1051 | cut off before or inside its last field, a payload reads as if that field had its default |
| `Messages.ProduceLengths` | clients/go/codec/codec.go:974-995 | what the writer checks and what the length fields need, field by field |
| `Messages.ProduceRoundTrip` | clients/go/codec/codec.go:974-1061 | a Produce request decodes to itself if and only if its lengths fit, in particular whenever it fits a frame |
| `Messages.ProduceLegacy` | clients/go/codec/codec.go:1035-1051 | without its trailer it decodes to the same messages with identity 0, epoch 0 and sequence -1 |
| `Messages.FetchRoundTrip` | clients/go/codec/codec.go:1106-1174 | a Fetch request decodes to itself, group and member written or not |
| `Messages.FetchResponseLengths` | clients/go/codec/codec.go:1176-1195 | what the writer checks and what the length fields need, field by field |
| `Messages.FetchLegacy` | clients/go/codec/codec.go:1153-1163 | without its trailer it decodes with empty group and member |
| `Messages.FetchResponseRoundTrip` | clients/go/codec/codec.go:1176-1256 | a Fetch response decodes to itself if and only if its lengths fit |
| `Messages.MetadataLengths` | clients/go/codec/codec.go:1410-1446 | what the writer checks and what the count fields need, field by field |
| `Messages.MetadataRoundTrip` | clients/go/codec/codec.go:1410-1557 | a Metadata response, nested three deep, decodes to itself if and only if its counts fit |
| `Messages.MetadataLegacy` | clients/go/codec/codec.go:1548-1555 | without its trailer the controller id is 0 |
| `Messages.JoinLengths` | clients/go/codec/codec.go:1768-1790 | what the writer checks and what the count field needs |
| `Messages.JoinRoundTrip` | clients/go/codec/codec.go:1768-1841 | a JoinGroup request decodes to itself if and only if its count fits |
| `Messages.JoinLegacy` | clients/go/codec/codec.go:1818-1832 | without both trailers the instance id is empty and the timeout 0 |
| `Messages.JoinLegacyInstance` | clients/go/codec/codec.go:1818-1832 | without the last trailer the timeout is 0 |
| `Messages.JoinedLengths` | clients/go/codec/codec.go:1843-1869 | what the writer checks and what the count fields need |
| `Messages.JoinedRoundTrip` | clients/go/codec/codec.go:1843-1926 | a JoinGroup response decodes to itself if and only if its counts fit |
| `Messages.JoinedLegacy` | clients/go/codec/codec.go:1889-1917 | without the member list, or without both trailing lists, the missing lists are empty |
| `WireLayout.ProduceAsLaidOut` | clients/go/codec/codec.go:974-995 | the Produce payload is its fields in the encoder's order, nested lists included |
| `WireLayout.FetchAsLaidOut` | clients/go/codec/codec.go:1106-1125 | the Fetch payload, field by field, the names only if one is given |
| `WireLayout.FetchResponseAsLaidOut` | clients/go/codec/codec.go:1176-1195 | the Fetch response, field by field |
| `WireLayout.MetadataAsLaidOut` | clients/go/codec/codec.go:1410-1446 | the Metadata response, field by field |
| `WireLayout.JoinAsLaidOut` | clients/go/codec/codec.go:1768-1790 | the JoinGroup request, field by field |
| `WireLayout.JoinedAsLaidOut` | clients/go/codec/codec.go:1843-1869 | the JoinGroup response, field by field |
| `ExactDecoding.ProduceDecodesIff` | clients/go/codec/codec.go:997-1061 | any bytes decode to a request if and only if they begin with its layout, or with its body and less than a trailer, the request not being idempotent |
| `ExactDecoding.FetchDecodesIff` | clients/go/codec/codec.go:1127-1174 | any bytes decode to a request if and only if they begin with body and names, or are the body alone and it names nobody |
| `ExactDecoding.FetchResponseDecodesIff` | clients/go/codec/codec.go:1197-1256 | any bytes decode to a response if and only if they begin with its layout |
| `ExactDecoding.MetadataDecodesIff` | clients/go/codec/codec.go:1448-1557 | any bytes decode to a response if and only if they begin with its layout, or with its body and less than a controller id, which is 0 |
| `ExactDecoding.JoinDecodesIff` | clients/go/codec/codec.go:1792-1841 | any bytes decode to a request if and only if they begin with its layout, or lack the timeout, or that and the instance id, at their defaults |
| `ExactDecoding.JoinedDecodesIff` | clients/go/codec/codec.go:1871-1926 | any bytes decode to a response if and only if they begin with its layout, or lack the member list, or that and the revoked list, which are empty |
| `PayloadWriter.Writer.String` | clients/go/codec/codec.go:206-214 | refuses exactly the strings over 65535 bytes, otherwise appends length and bytes |
| `PayloadWriter.Writer.Headers` | clients/go/codec/codec.go:315-324 | the loop appends the header list's format, or refuses exactly when a name is too long |
| `PayloadWriter.Writer.Assignments` | clients/go/codec/codec.go:1737-1746 | the loop appends the assignment list's format, or refuses exactly when a topic is too long |
| `PayloadWriter.EncodeProduceRequest` | clients/go/codec/codec.go:974-995 | the code writes the Produce format, or refuses exactly what does not fit |
| `PayloadWriter.EncodeFetchRequest` | clients/go/codec/codec.go:1106-1125 | the code writes the Fetch format, the trailer only when a name is given |
| `PayloadWriter.EncodeFetchResponse` | clients/go/codec/codec.go:1176-1195 | the code writes the Fetch response format |
| `PayloadWriter.EncodeMetadataResponse` | clients/go/codec/codec.go:1410-1446 | the nested loops write the Metadata format |
| `PayloadWriter.EncodeJoinGroupRequest` | clients/go/codec/codec.go:1768-1790 | the code writes the JoinGroup request format |
| `PayloadWriter.EncodeJoinGroupResponse` | clients/go/codec/codec.go:1843-1869 | the code writes the JoinGroup response format |
| `PayloadReader.Reader.Headers` | clients/go/codec/codec.go:326-344 | the loop reads the header list's format and advances exactly past it, or fails when it does |
| `PayloadReader.Reader.Assignments` | clients/go/codec/codec.go:1748-1766 | the loop reads the assignment list's format |
| `PayloadReader.DecodeProduceRequest` | clients/go/codec/codec.go:997-1061 | the cursor code decodes exactly what the Produce format does, on every input |
| `PayloadReader.DecodeFetchRequest` | clients/go/codec/codec.go:1127-1174 | the same for Fetch requests |
| `PayloadReader.DecodeFetchResponse` | clients/go/codec/codec.go:1197-1256 | the same for Fetch responses |
| `PayloadReader.DecodeMetadataResponse` | clients/go/codec/codec.go:1448-1557 | the same for Metadata responses |
| `PayloadReader.DecodeJoinGroupRequest` | clients/go/codec/codec.go:1792-1841 | the same for JoinGroup requests |
| `PayloadReader.DecodeJoinGroupResponse` | clients/go/codec/codec.go:1871-1926 | the same for JoinGroup responses |
| `AssignmentList.ListAsWritten` | clients/go/codec/codec.go:1737-1746 | the layout the broker reads is the one the client writes |
| `AssignmentList.CountRead` | crates/volant-broker/src/group.rs:809-815 | the count guard passes for every encoding |
| `AssignmentList.Decode` | crates/volant-broker/src/group.rs:802-836 | accepts a byte string if and only if it encodes a list, and returns that list |
| `Retry.AdminRoundTrip` | clients/go/client.go:848-895 | at most 1+redirects+retries sends, and it stops exactly at the first reply it may not act on |
| `Retry.FetchTurn` | clients/go/client.go:1693-1742 | one pass follows redirects within their budget and stops at anything else |
| `Retry.FetchResult` | clients/go/client.go:1672-1747 | at most (1+retries)(1+redirects) sends, and it stops exactly at the first reply it may not act on |
| `Retry.AdminRidesOutIff` | clients/go/client.go:848-895 | failures in passing (network, codes 6, 7, 15, 16) before a good answer are ridden out exactly up to the retry budget, one send each |
| `Retry.AdminFollowsIff` | clients/go/client.go:848-895 | redirects to the controller (code 14) are followed exactly up to the redirect budget |
| `Retry.FetchRidesOutIff` | clients/go/client.go:1672-1747 | the same for fetch |
| `Retry.FetchFollowsIff` | clients/go/client.go:1672-1747 | redirects to the leader (code 13) are followed exactly up to the redirect budget |
| `Producer.Client.EnsureProducerId` | clients/go/client.go:1587-1627 | at most 1+retries tries; keeps an identity it has, takes the one the first non-transient answer grants, changes nothing on failure |
| `Producer.Client.EncodeProduce` | clients/go/client.go:1540-1567 | the payload of the request under the identity there is or the one granted; it fails exactly when none is granted or the encoder refuses |
| `Producer.Client.ResetProducerId` | clients/go/client.go:1580-1585 | forgets identity and sequences |
| `Producer.Client.SendRound` | clients/go/client.go:1428-1485 | one round sends its payload, logging each send, until a reply ends it, within its share of the budgets, and advances the sequence only on success |
| `Producer.RoundSettled` | clients/go/client.go:1423-1489 | a round that repeats one payload keeps the log within (1+reinits)(1+redirects)+retries sends and one payload per round |
| `Producer.BoundIsProduct` | clients/go/client.go:1406-1491 | the bound on the sends is (1+reinits)(1+redirects)+retries |
| `Producer.LaterRoundsStartOver` | clients/go/client.go:1434-1439 | a round after a re-initialisation sends the batch under the newly granted identity at sequence 0, or nothing |
| `Producer.FirstRoundOfNewProducer` | clients/go/client.go:1556-1567 | the first round of a producer without an identity sends under the granted one at its next sequence |
| `Producer.FirstRoundOfKnownProducer` | clients/go/client.go:1556-1567 | the first round of a producer with an identity sends under it, at its next sequence for the partition asked for |
| `Producer.PlainRounds` | clients/go/client.go:1556-1559 | without idempotence or transactions every round sends producer 0, epoch 0, sequence -1 |
| `Producer.FinalReplyIs` | clients/go/client.go:1587-1627 | the initialisation waits out failures in passing as long as its retry budget lasts |
| `Producer.ProduceRidesOutIff` | clients/go/client.go:1457-1474 | failures in passing before a good answer are ridden out exactly up to the retry budget |
| `Producer.ProduceFollowsIff` | clients/go/client.go:1441-1471 | redirects (code 13) are followed exactly up to the redirect budget, when answered or when the partition is named |
| `Producer.UnnamedNotRedirected` | clients/go/client.go:1441-1449 | without a named partition a redirect that comes as an error ends the call |
| `Producer.UnknownProducerStartsOver` | clients/go/client.go:1434-1439 | a peer that does not know the producer (code 21) makes the client send the next round, if it may re-initialise and can |
| `Producer.Client.ProduceBatch` | clients/go/client.go:1406-1491 | against any replies the log of sends is within that bound, every send carries the payload of its round, it stops exactly when it can go on no longer, and the sequences change by the call's events: forgotten if it re-initialised, then advanced once if it succeeded; the 64-bit partition argument is cut to 32 bits in the request and the counters, and keeps its sign in the tests |
| `Producer.SequenceCountsLanded` | clients/go/client.go:1569-1585 | over any run of advances and re-initialisations a partition's next sequence is the first one, or 0 after a re-initialisation, plus every message that landed there since, modulo 2^32 |
| `Producer.RunsCompose` | clients/go/client.go:1569-1585 | the runs of successive calls count as one run |
| `Producer.CountedUnder` | clients/go/client.go:1480-1484 | a success counts under the partition asked for, or under the one the broker answered if that was negative, modulo 2^32, and moves no other counter |
| `Producer.AddIsModular` | clients/go/client.go:1577-1578 | counters add modulo 2^32 |
| `Producer.NextBatchContinuesIff` | clients/go/client.go:1480-1484 | after a success the next batch to the same topic and partition argument continues its sequence if and only if the messages were counted under that argument, as for every named partition, or are a multiple of 2^32 |
| `Producer.StandsStillIff` | clients/go/client.go:1569-1578 | a counter stands still over a run if and only if the messages counted under it are a multiple of 2^32 |
| `Producer.UnnamedPartitionStandsStill` | clients/go/client.go:1480-1485 | batches that leave the partition to the broker all carry the same base sequence exactly when nothing, modulo 2^32, is counted under the negative partition they read; nothing is while every partition is below 2^31 |

## Left out

- `range_assign_multi` (crates/volant-broker/src/assignor.rs:42-90): the range assignor topic by topic, nothing beyond `RangeAssign`.
- The client-side copies of the range assignor.
- The offset store behind `delete_group`, listing and describing groups, and the offset write after the commit check: the check is modelled, not the write that follows once the lock is released.
- Session clocks and park deadlines: who has timed out and whether a park has is a choice of each step.
- GroupFence.StepGeneration: states growth under the hypothesis that no generation wraps at 2^32; what happens at the wrap is `GroupFence.NewGenerationLargerIff`.
- JournalConcurrency.InvNext: removals (`remove_topic`, `remove_partition`) and the applied-generation counter are not among its steps, because the disk-never-goes-back law is about runs without removals; the u64 generation is unbounded there.
- Transactions of the Go client, which save the counters when they begin and restore them when aborted.
- The other messages of the codec (ListOffsets, offsets, admin, ACL, SCRAM): built from the same primitives, easier members.
- Decoder allocation sizes, nil against empty slices, and the text of error messages.
- How a redirect finds the leader or controller (metadata lookup, reconnect) and the sleep between retries: only the outcome matters to the loops.
- JSON text, fsync and rename of the stores' files; the remaining key/value stores; metrics, ACLs, SCRAM, TLS, sockets and the CLI.
