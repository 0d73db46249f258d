# Redis 6.2.5 core protocols in Dafny

A model of five components of Redis 6.2.5, with proofs of the properties they exist for.
Code that updates state in place is modelled as classes and methods; each method is proved
to compute a function of the old state, and the theorems about whole runs are about those
functions.

| component | files | main results |
|---|---|---|
| Cluster configuration (cluster.c) | ClusterNode, ClusterBus, ElectionSafety, TwoWinners, CollisionTraces, EpochCollision, SlotConvergence, SlotRanges, ReplicaSlots, ClusterVotes, ClusterEffects, ClusterActions, ClusterRouting, ClusterServer, Resharding | epoch dominance in every run; at most one election winner per epoch; a bound of 2^n - n - 1 on epoch-collision bumps; convergence of slot claims; agreement of slot table, bitmaps and counters; a replica owns no slot; every handler characterised by the tables before and after, and every change of a slot in every run by its reason; votes are due and spaced in time; redirections reach the owner; no key on two nodes during resharding |
| Append only file (aof.c) | AofLog, AofLoad, AofTransactions, AofErrors, AofServer, AofRewrite | the rewrite handoff loses and reorders nothing and a failed one costs nothing; the log always replays to the dataset; the flush conserves bytes; print and load round trip; recovery from a cut log, with transactions; which logs are refused; a rewrite can always finish |
| Blocked clients (blocked.c, adlist.c) | BlockedIndex, BlockedService, BlockedSpec, BlockedOrder, Blocked, BlockedCases, BlockedLists, BlockedRefinement, AdList | the indexes agree; service terminates, conserves elements, serves each key in blocking order and leaves no client waiting on a list with elements, except on keys stored over without a signal; the linked lists of the program refine the indexes |
| Access control lists (acl.c) | CommandBits, AclRules, AclUser, AclDescribe, AclMeaning | what each rule allows and forbids; describing a user and replaying the rules restores the user; the mismatch panic is unreachable |
| Bit and CRC kernels (bitops.c, crcspeed.c, crc64.c) | Crc64, CrcCheck, Popcount, Bitpos, Bitop, BitopBits, Bitfield, BitfieldCommand | every word-at-a-time routine equals its bit-by-bit specification at every length and alignment; BITFIELD arithmetic |

`dafny verify dfyconfig.toml` checks the whole project. Prelude.dfy holds shared definitions.

How the cluster part fits together: ClusterNode gives every handler as a function on the
state of one node. ClusterBus makes a transition system of it: one state per node, a
multiset of packets that may be delayed, reordered or lost, one step per handler. The run
theorems are proved there. ClusterServer.Cluster is the same node with the mutable slot
array, bitmaps and counters of the program, and each of its methods is proved to act as the
function of ClusterNode does. ClusterVotes, ClusterEffects and ClusterActions say what these
functions mean without them: by the tables, epochs and packets before and after.

## Where the code and its documentation or intent differ

- Election safety does not hold for all runs of the code. The vote counter is zeroed when an
  election is scheduled, not when it starts, so votes of the previous election that arrive in
  between are counted for the next. `AtMostOneWinnerPerEpoch` states the condition that
  excludes this; `BothWinEpochTwo` is a run with two winners without it.
- The comment above ACLSetUser promises that `reset` gives the state of a user just created;
  it also sets the sanitize-payload flag (`ResetIsNotFresh`).
- BITFIELD SET with OVERFLOW SAT does not always cut to the nearer bound: a negative argument
  into an unsigned field gives the maximum, and a very negative one into a signed field the
  maximum as well (`UnsignedSetSaturatesIff`, `SignedSetSaturatesIff` say exactly when it
  does). INCRBY is right for all inputs.
- Clients blocked on one key are promised service in blocking order. Within one type this
  holds over a whole call (`HandleClientsBlockedOnKeys`), except for list clients of a key
  that held a sorted set with a client for it between them: the call may make the key a list
  and answer the later first (`AnsweredOutOfOrder`). Clients of other types are rotated, and
  keep their order only in the cases `ZsetKeepsOrderIff` and `ListKeepsOrderIff` give;
  `Overtaken` and `OvertakenAtList` are instances where they do not.
- A blocked client is promised service as soon as its key holds elements. Storing a list over
  an existing key, as SORT with STORE does, does not signal the key; `GenericSetKey` says
  exactly when a client is missed this way, and `Forgotten` is an instance.
- A node that becomes a replica asserts that it has no slots. This holds in every run of the
  modelled steps (`NeverAborts`), but CLUSTER ADDSLOTS does not look at the role of the node:
  on a replica it breaks the assumption (`AddSlotsKeepsIff`, `OneSlotAborts`).
- Describing a user with all commands is meant to give such a user back. If a category has
  more commands with ids past the bitmap than inside it, and one inside, the rules remove and
  restore that category, and the ALLCOMMANDS flag is lost (`DescribedUsers`, `FlagIsLost`).
- Command ids may lie past the end of the bitmap, where bits read as clear and writes do
  nothing. The table of subcommand lists has no such check: `ApplyKeeps` says which rules stay
  inside it.
- A log cut inside a transaction is cut back to before MULTI only if it ends between two
  commands; otherwise the open MULTI stays in the file (`LoadOpenMulti`). A second MULTI inside
  the transaction moves the place it is cut back to behind the first (`NestedMultiStays`).
- CLUSTER SETSLOT NODE is refused at a source that still has keys, but not at the target;
  `ClosingTargetIsSafeIff` says when closing there first is safe.

## Model

| member | source | states |
|---|---|---|
| ClusterBus.StepKeepsDominance | docs/notes/Redis/redis-6.2.5/src/cluster.c:1829-1840 | Every step of every node keeps epoch dominance: each stored config epoch, election epoch and vote epoch is at most the current epoch stored with it, and each packet in flight carries a current epoch at least as large as any config epoch in it. The packets it sends and the references it keeps stay well formed. |
| ClusterBus.DominanceInEveryRun | docs/notes/Redis/redis-6.2.5/src/cluster.c:2434-2480 | Dominance holds in every state of every run that starts with it, with packets delayed, reordered and lost. |
| ClusterBus.LocalStepKeeps | docs/notes/Redis/redis-6.2.5/src/cluster.c:1752-2241 | What one handler keeps, seen from the acting node: dominance, its own name, its known nodes; no epoch it has stored for a node, and neither its current nor its election epoch, ever shrinks; it sends only packets whose epochs are dominated. |
| ClusterBus.UnilateralEpochIsNew | docs/notes/Redis/redis-6.2.5/src/cluster.c:1102-1119 | In every reachable state, an epoch a node gives itself without consensus (collision, bump) is greater than every epoch it knows, and a bump is declined only when the node already has the greatest. |
| ElectionSafety.StepEffect | docs/notes/Redis/redis-6.2.5/src/cluster.c:3206-3299 | Every step changes the vote epoch, vote counter, sent flag and election epoch only as a granted vote, a counted acknowledgement, a scheduled or a started election; an acknowledgement is sent only for a vote, for the epoch of its request, to its sender, and exactly one. |
| ElectionSafety.VoteIsFirst | docs/notes/Redis/redis-6.2.5/src/cluster.c:2908-2928 | A granted vote is for an epoch in which the voter has never voted before in the run. |
| ElectionSafety.CountedAckIsCurrent | docs/notes/Redis/redis-6.2.5/src/cluster.c:2175-2187 | An acknowledgement that is counted belongs to the present election of the candidate, records a real vote for it, and its voter has not been counted in that election. |
| ElectionSafety.StepKeepsInv | docs/notes/Redis/redis-6.2.5/src/cluster.c:2894-2992 | Every step keeps the election invariant: the vote counter is the number of distinct voters whose votes of this epoch for this candidate were heard, and each vote has at most one acknowledgement in flight. |
| ElectionSafety.InvInEveryRun | docs/notes/Redis/redis-6.2.5/src/cluster.c:3134-3303 | The election invariant and dominance hold in every state of every run that meets the stated conditions. |
| ElectionSafety.WinnerHasMajority | docs/notes/Redis/redis-6.2.5/src/cluster.c:3284-3299 | A replica that reaches the quorum branch holds votes of its epoch from more than half of the electorate. |
| ElectionSafety.MajoritiesMeet | docs/notes/Redis/redis-6.2.5/src/cluster.c:3137 | Two candidates with majorities of one electorate in one epoch are the same candidate, as a voter has one vote per epoch. |
| ElectionSafety.AtMostOneWinnerPerEpoch | docs/notes/Redis/redis-6.2.5/src/cluster.c:3270-3299 | Election safety over whole runs: two replicas that reach the quorum branch with the same election epoch are the same. Conditions: votes come from the electorate of their epoch, winners do not underestimate it, no acknowledgement is counted between scheduling and start. |
| ElectionSafety.StaleAcksElect | docs/notes/Redis/redis-6.2.5/src/cluster.c:3210 | For every replica in that window: with as many late acknowledgements as make a quorum it wins the election right after starting it, without a vote of the new epoch. |
| TwoWinners.BothWinEpochTwo | docs/notes/Redis/redis-6.2.5/src/cluster.c:3270-3276 | A concrete run from a cluster without elections, with one electorate of three and right sizes, in which two different replicas reach the quorum branch with election epoch 2: the condition on late acknowledgements cannot be dropped. |
| CollisionTraces.BumpsAreAbandoned | docs/notes/Redis/redis-6.2.5/src/cluster.c:1173-1175 | Each bump of a node gives up a different epoch, as its epoch only grows. |
| CollisionTraces.AbandonedIsHeldAbove | docs/notes/Redis/redis-6.2.5/src/cluster.c:1168-1172 | A node gives up only epochs that a node with a larger name once held. |
| CollisionTraces.BumpBound | docs/notes/Redis/redis-6.2.5/src/cluster.c:1167-1182 | The counting argument: the n greatest names hold at most 2^n - 1 epochs in all and make at most 2^n - n - 1 bumps. |
| EpochCollision.PacketsAreHeld | docs/notes/Redis/redis-6.2.5/src/cluster.c:2478-2480 | Every packet in flight, however stale, carries a config epoch its sender once held. |
| EpochCollision.RunIsTrace | docs/notes/Redis/redis-6.2.5/src/cluster.c:2121-2126 | Every run of the cluster in which only collisions make epochs, projected to own config epochs, is a collision trace. |
| EpochCollision.CollisionsAreBounded | docs/notes/Redis/redis-6.2.5/src/cluster.c:1121-1166 | Termination: in every such run over n masters, with stale and reordered packets, at most 2^n - n - 1 collision bumps happen, and the master with the greatest name never moves. |
| SlotConvergence.ClaimsRebind | docs/notes/Redis/redis-6.2.5/src/cluster.c:2058-2073 | An announcement moves exactly the slots it takes over; skipping the scan when the claimed bitmap equals the recorded one makes no difference. |
| SlotConvergence.AnnouncementConverges | docs/notes/Redis/redis-6.2.5/src/cluster.c:1635-1705 | Processing one announcement adds its sender to the masters heard and leaves every slot with the greatest-epoch claimant among them, through the epoch, role, slot and collision parts of the handler. |
| SlotConvergence.GreatestEpochOwns | docs/notes/Redis/redis-6.2.5/src/cluster.c:1681-1696 | From an empty table, announcements in any order and with any repetition bind each slot to its claimant of greatest epoch. |
| SlotConvergence.TablesAgree | docs/notes/Redis/redis-6.2.5/src/cluster.c:1624-1634 | Two nodes that heard the same masters in whatever order have the same slot table. |
| ClusterServer.Cluster.constructor | docs/notes/Redis/redis-6.2.5/src/cluster.c:479-520 | A node without saved configuration: a lone master, no slot bound; bitmaps, counters and table agree. |
| ClusterServer.Cluster.AddNode | docs/notes/Redis/redis-6.2.5/src/cluster.c:976-982 | A new node has no slots, and agreement is kept. |
| ClusterServer.Cluster.DelNode | docs/notes/Redis/redis-6.2.5/src/cluster.c:995-1022 | After deleting a node no slot, no open slot mark and no replica names it, everything else is as it was, and agreement is kept; the node itself and its own master cannot be deleted. |
| ClusterServer.Cluster.SetSlotBit | docs/notes/Redis/redis-6.2.5/src/cluster.c:3845-3867 | Sets one bit of a node, counting it if it was clear, and returns the old bit. The migrate-to flag of new masters is not modelled. |
| ClusterServer.Cluster.ClearSlotBit | docs/notes/Redis/redis-6.2.5/src/cluster.c:3870-3875 | Clears one bit, uncounting it if it was set, and returns the old bit. |
| ClusterServer.Cluster.AddSlot | docs/notes/Redis/redis-6.2.5/src/cluster.c:3886-3891 | Binds a free slot and keeps bitmaps, counters and table in agreement; refuses an owned slot without a change. |
| ClusterServer.Cluster.DelSlot | docs/notes/Redis/redis-6.2.5/src/cluster.c:3896-3903 | Unbinds a slot, with agreement kept; the bit of the owner is always set, so the assertion in the code never fires. |
| ClusterServer.Cluster.DelNodeSlots | docs/notes/Redis/redis-6.2.5/src/cluster.c:3907-3917 | Unbinds exactly the slots of one node and returns how many it had. |
| ClusterServer.Cluster.CloseAllSlots | docs/notes/Redis/redis-6.2.5/src/cluster.c:3921-3926 | Forgets every migrating and importing mark and nothing else. |
| ClusterServer.Cluster.AddSlotsCommand | docs/notes/Redis/redis-6.2.5/src/cluster.c:4530-4579 | CLUSTER ADDSLOTS: the error is that of the first slot that is out of range, busy or named twice, and then nothing changes; otherwise exactly the slots asked for are bound to the node and no longer imported, with agreement kept. The role of the node is not looked at. |
| ClusterServer.Cluster.SetMasterOfMyself | docs/notes/Redis/redis-6.2.5/src/cluster.c:4113-4129 | Becoming a replica: the role switch on the node record, slots untouched, open slots closed only if it was a master; the assertion fails exactly if the node still has a slot. |
| ClusterServer.Cluster.UpdateSlotsConfigWith | docs/notes/Redis/redis-6.2.5/src/cluster.c:1635-1741 | The in-place loop refines the claim function for every sender, epoch and bitmap: which slots move, which slots of ours that held keys are purged, exactly when the node turns into a replica of the claimant, and when the assertion on the way fails; agreement is kept. |
| ClusterServer.Cluster.GetMaxEpoch | docs/notes/Redis/redis-6.2.5/src/cluster.c:1058-1070 | The greatest epoch known: an upper bound that is attained. |
| ClusterServer.Cluster.BumpConfigEpochWithoutConsensus | docs/notes/Redis/redis-6.2.5/src/cluster.c:1102-1119 | Takes the next epoch unless the node already has the greatest non-zero one. |
| ClusterServer.Cluster.HandleConfigEpochCollision | docs/notes/Redis/redis-6.2.5/src/cluster.c:1167-1182 | Takes the next epoch exactly on a collision with a master of greater name. |
| ClusterServer.Cluster.BuildMessageHdr | docs/notes/Redis/redis-6.2.5/src/cluster.c:2434-2480 | The header a node sends: a replica speaks with the bitmap and epoch of its master. |
| ClusterServer.Cluster.CheckClaims | docs/notes/Redis/redis-6.2.5/src/cluster.c:2966-2986 | The scan of the claimed slots finds exactly whether some present owner has a newer epoch. |
| ClusterServer.Cluster.SendFailoverAuthIfNeeded | docs/notes/Redis/redis-6.2.5/src/cluster.c:2894-2992 | The voting code, branch by branch, refines the vote function: state, vote time and the packet sent. |
| ClusterServer.Cluster.FailoverReplaceYourMaster | docs/notes/Redis/redis-6.2.5/src/cluster.c:3096-3112 | The new master takes over every slot of the old one and no other; agreement is kept. |
| ClusterServer.Cluster.RequestFailoverAuth | docs/notes/Redis/redis-6.2.5/src/cluster.c:2852-2865 | One request per known node, with the epoch just taken. |
| ClusterServer.Cluster.HandleFailover | docs/notes/Redis/redis-6.2.5/src/cluster.c:3134-3303 | The failover code refines the failover function: when it schedules, delays, starts or wins, and the requests it broadcasts. |
| ClusterServer.Cluster.ObservePacketEpochs | docs/notes/Redis/redis-6.2.5/src/cluster.c:1829-1840 | The epochs of any packet of a known sender raise the current epoch and the epoch stored for the sender, and lower neither. |
| ClusterServer.Cluster.ObservePacketRole | docs/notes/Redis/redis-6.2.5/src/cluster.c:2013-2047 | A master that announces itself as a replica loses its slots; a replica changes its master if that one is known; agreement is kept. |
| ClusterServer.Cluster.IsDirty | docs/notes/Redis/redis-6.2.5/src/cluster.c:2058-2067 | The comparison with the stored bitmap is the comparison with the slot table. |
| ClusterServer.Cluster.ObservePacketClaims | docs/notes/Redis/redis-6.2.5/src/cluster.c:2013-2073 | The claims of a PING after its role was taken over: the slots that move, the slots purged, and whether the assertion on the way fails. |
| ClusterServer.Cluster.FindNewerOwner | docs/notes/Redis/redis-6.2.5/src/cluster.c:2093-2117 | The scan stops at the first slot claimed with an old configuration. |
| ClusterServer.Cluster.ProcessPingPacket | docs/notes/Redis/redis-6.2.5/src/cluster.c:2013-2126 | PING, PONG and MEET refine the packet function: role switch, claims, the UPDATE correction and collision handling; the slots purged are exactly those of ours lost with keys in them by a node that stays a master. |
| ClusterServer.Cluster.ProcessUpdatePacket | docs/notes/Redis/redis-6.2.5/src/cluster.c:2206-2227 | An UPDATE about a known node with a newer epoch makes it a master with that epoch and lets it claim its slots, purging exactly the slots of ours lost with keys in them; otherwise nothing changes. |
| ClusterServer.Cluster.ProcessOnePacket | docs/notes/Redis/redis-6.2.5/src/cluster.c:1752-2241 | The packet handler on the mutable state refines the packet function the run theorems are about, including what it sends and which slots it purges, and keeps the slot table in agreement. |
| ClusterServer.Cluster.SetSlotNodeCommand | docs/notes/Redis/redis-6.2.5/src/cluster.c:4622-4671 | CLUSTER SETSLOT NODE with its three refusals, the end of migrating and importing, and the epoch bump. |
| ClusterServer.Cluster.DescribeNode | docs/notes/Redis/redis-6.2.5/src/cluster.c:4204-4227 | The per-node scan of the bitmap prints the maximal runs of the slots bound to the node. |
| ClusterServer.Cluster.DescribeNodes | docs/notes/Redis/redis-6.2.5/src/cluster.c:4246-4279 | The one-pass printer gives every node that is not filtered out the ranges that the per-node scan gives it. |
| SlotRanges.RangesAreMaximalRuns | docs/notes/Redis/redis-6.2.5/src/cluster.c:4208-4227 | The ranges are exactly the maximal runs of set bits, in ascending order. |
| SlotRanges.NodeRanges | docs/notes/Redis/redis-6.2.5/src/cluster.c:4208-4227 | The loop over one bitmap computes those ranges. |
| SlotRanges.GenNodesSlotsInfo | docs/notes/Redis/redis-6.2.5/src/cluster.c:4250-4279 | The loop over the slot table computes, for all nodes at once, the ranges of the bitmap of each. |
| ReplicaSlots.PacketKeeps | docs/notes/Redis/redis-6.2.5/src/cluster.c:1635-1741 | No packet makes a replica the owner of a slot, and the assertion on becoming a replica of the claimant holds. |
| ReplicaSlots.StepKeeps | docs/notes/Redis/redis-6.2.5/src/cluster.c:1752-2241 | Every step of the cluster keeps it that a replica owns no slot. |
| ReplicaSlots.InEveryRun | docs/notes/Redis/redis-6.2.5/src/cluster.c:4113-4115 | In every run from nodes of which replicas own nothing, replicas own nothing. |
| ReplicaSlots.NeverAborts | docs/notes/Redis/redis-6.2.5/src/cluster.c:4113-4115 | Hence in every run the assertion that a node becoming a replica has no slots never fails. |
| ReplicaSlots.AddSlotsKeepsIff | docs/notes/Redis/redis-6.2.5/src/cluster.c:4530-4579 | CLUSTER ADDSLOTS keeps this if and only if the node is a master or no slot is named. |
| ReplicaSlots.AddSlotsThenClaimAborts | docs/notes/Redis/redis-6.2.5/src/cluster.c:4113-4115 | After ADDSLOTS on a replica, every claim that makes it follow the claimant and leaves one of the added slots fails the assertion. |
| ReplicaSlots.OneSlotAborts | docs/notes/Redis/redis-6.2.5/src/cluster.c:4113-4115 | A concrete replica, one added slot and one announcement of another master for which the assertion fails. |
| Resharding.ScanKeys | docs/notes/Redis/redis-6.2.5/src/cluster.c:5778-5854 | The double loop over the keys of all queued commands returns early exactly with a justified verdict, or what it saw of all keys: slot, owner, open state, whether keys differ, how many are missing. |
| Resharding.GetNodeByQuery | docs/notes/Redis/redis-6.2.5/src/cluster.c:5740-5927 | The routing decision for every request and node state equals the routing function: serve, redirect, or one of the errors. |
| Resharding.SourceServesOnlyItsKeys | docs/notes/Redis/redis-6.2.5/src/cluster.c:5888-5893 | Once the source is handing the slot over, a request it serves creates no key of the slot that it did not have. |
| Resharding.TargetTakesOnlyFreeKeys | docs/notes/Redis/redis-6.2.5/src/cluster.c:5895-5908 | A request served by the target creates only keys the source no longer has, and none before the source began to hand over. |
| Resharding.StepKeepsInv | docs/notes/Redis/redis-6.2.5/src/cluster.c:4595-4671 | Every step of a resharding (requests, MIGRATE, opening and closing the slot on either node) keeps the handover invariant. |
| Resharding.NeverSplit | docs/notes/Redis/redis-6.2.5/src/cluster.c:5888-5908 | In every run from a state with the invariant, the invariant stays and no key of the slot is present on both nodes. |
| Resharding.HandoverNeverSplits | docs/notes/Redis/redis-6.2.5/src/cluster.c:4595-4671 | From a slot served by its owner alone, in whatever order the two nodes are opened, used and closed, no key of the slot is ever on both; the administrator only has to give the slot to the target after the source, handing over, ran out of keys. |
| Resharding.SeveralKeysRunTogether | docs/notes/Redis/redis-6.2.5/src/cluster.c:5888-5908 | While the slot is open a request naming several distinct keys is served only where all of them are present. |
| Resharding.ClosingTargetIsSafeIff | docs/notes/Redis/redis-6.2.5/src/cluster.c:4630-4671 | Closing the slot at the target, which the code does not guard, keeps all later runs safe if and only if the source has no key of the slot left. |
| Resharding.OneWriteSplits | docs/notes/Redis/redis-6.2.5/src/cluster.c:4646-4671 | If it has one left, a single write at the target puts that key on both nodes. |
| AofLog.CatAppendOnlyGenericCommand | docs/notes/Redis/redis-6.2.5/src/aof.c:552-575 | Appends exactly the encoding of the command. |
| AofLog.ParseLongRoundTrip | docs/notes/Redis/redis-6.2.5/src/aof.c:556-569 | A printed number followed by a non-digit reads back as itself. |
| AofLog.ParseWhole | docs/notes/Redis/redis-6.2.5/src/aof.c:822-868 | A printed command, with any bytes in its arguments and anything behind it, parses to itself and consumes exactly its own length. |
| AofLog.ParseCut | docs/notes/Redis/redis-6.2.5/src/aof.c:822-868 | A printed command cut at any positive offset is a short read: never a wrong command, never a format error. |
| AofLoad.ReadOneCommand | docs/notes/Redis/redis-6.2.5/src/aof.c:822-868 | Reading one command at a position, line by line and argument by argument, is parsing what is left of the file. |
| AofLoad.LoadAppendOnlyFile | docs/notes/Redis/redis-6.2.5/src/aof.c:807-972 | The loading loop, with its offsets, MULTI bookkeeping and error exits, refines the load function for every file. |
| AofLoad.WholeCommandsFit | docs/notes/Redis/redis-6.2.5/src/aof.c:807-905 | The count of whole commands before a cut is exact: they fit, and the next one does not. |
| AofLoad.LoadRoundTrip | docs/notes/Redis/redis-6.2.5/src/aof.c:807-905 | Loading a printed log runs exactly the printed commands and keeps the file. |
| AofLoad.LoadTruncated | docs/notes/Redis/redis-6.2.5/src/aof.c:928-957 | A log cut at any positive byte loads exactly the commands wholly before the cut, and the file is truncated to their total length. |
| AofLoad.LoadOpenMulti | docs/notes/Redis/redis-6.2.5/src/aof.c:907-926 | A log that ends inside a transaction never applies it; the file is cut back to before MULTI only if it ends between two commands, and otherwise keeps the open MULTI. |
| AofServer.File.Write | docs/notes/Redis/redis-6.2.5/src/aof.c:326 | One write(2): any prefix may be written, or an error returned, by a script of outcomes. |
| AofServer.File.Truncate | docs/notes/Redis/redis-6.2.5/src/aof.c:461 | One ftruncate(2): cuts to the size, or fails and leaves the file. |
| AofServer.AofWrite | docs/notes/Redis/redis-6.2.5/src/aof.c:322-340 | For every pattern of short writes, interruptions and errors the file grows by exactly the bytes reported, a prefix of the buffer: all of it if and only if no write used failed otherwise than by an interruption; -1 means none. |
| AofServer.RewriteBufferAppend | docs/notes/Redis/redis-6.2.5/src/aof.c:125-171 | Appending to the block list appends to the bytes it holds, whatever the block boundaries. |
| AofServer.ChildWriteDiffData | docs/notes/Redis/redis-6.2.5/src/aof.c:95-122 | Whatever the pipe accepts, it receives a prefix of the pending bytes and the block list keeps the rest; nothing is sent after the stop flag. |
| AofServer.RewriteBufferWrite | docs/notes/Redis/redis-6.2.5/src/aof.c:176-196 | Success means every pending byte was written, in order. |
| AofServer.ReadDiffFromParent | docs/notes/Redis/redis-6.2.5/src/aof.c:1439-1449 | Reading until the pipe is empty moves all its bytes, in order, whatever the read sizes. |
| AofServer.AppendOnlyServer.FeedAppendOnlyFile | docs/notes/Redis/redis-6.2.5/src/aof.c:613-679 | Feeds the same bytes, with a SELECT when the database changes, to the buffer when the log is on and to the rewrite blocks while a child runs. |
| AofServer.AppendOnlyServer.FlushAppendOnlyFile | docs/notes/Redis/redis-6.2.5/src/aof.c:360-517 | For every outcome of write and ftruncate, file followed by buffer stays what it was and, while the log is on, the recorded size is the file length; when it flushes, postpones, fails or exits. |
| AofServer.AppendOnlyServer.OnPipeWritable | docs/notes/Redis/redis-6.2.5/src/aof.c:95-122 | The write event moves a prefix of the pending bytes to the pipe, on the server state. |
| AofServer.AppendOnlyServer.OnChildPipe | docs/notes/Redis/redis-6.2.5/src/aof.c:1680-1701 | A stop request sets the stop flag and is answered if the answer can be written. |
| AofServer.AppendOnlyServer.StartRewrite | docs/notes/Redis/redis-6.2.5/src/aof.c:1763-1803 | After the fork nothing is pending and the next feed issues a SELECT. |
| AofServer.AppendOnlyServer.OnRewriteDone | docs/notes/Redis/redis-6.2.5/src/aof.c:1851-2010 | Switches only if the child succeeded and every call did; then the file is the temporary file followed by the pending bytes and the buffer is dropped; otherwise the old file and buffer stay. |
| AofServer.AppendOnlyServer.KillAppendOnlyChild | docs/notes/Redis/redis-6.2.5/src/aof.c:215-232 | Without a child nothing changes; otherwise the pending bytes go and the rewrite is over. |
| AofServer.AppendOnlyServer.StopAppendOnly | docs/notes/Redis/redis-6.2.5/src/aof.c:236-254 | A last flush, then the log is off, the child gone and the buffer empty; what the file got is a prefix of the buffer. |
| AofServer.AppendOnlyServer.StartAppendOnly | docs/notes/Redis/redis-6.2.5/src/aof.c:258-313 | The log waits for a rewrite, started at once unless another child runs; the recorded size stays stale until that rewrite ends. If the file cannot be opened nothing changes; if the child cannot be started only a running rewrite is gone. |
| AofRewrite.LoggedRebuilds | docs/notes/Redis/redis-6.2.5/src/aof.c:613-679 | Logging one more command, with or without SELECT, keeps a log that rebuilds the dataset. |
| AofRewrite.ForkKeepsInv | docs/notes/Redis/redis-6.2.5/src/aof.c:1795-1799 | A fork starts a log that rebuilds the dataset of that moment. |
| AofRewrite.TransferKeepsInv | docs/notes/Redis/redis-6.2.5/src/aof.c:95-196 | Flushes, pipe writes and child reads of any size lose and reorder no byte: child, pipe and parent together hold exactly what was fed since the fork. |
| AofRewrite.StepKeepsInv | docs/notes/Redis/redis-6.2.5/src/aof.c:1590-1645 | Every step of every interleaving of commands, flushes, pipe traffic, the stop handshake, failures and switches keeps the handoff invariant. |
| AofRewrite.SwitchIsExact | docs/notes/Redis/redis-6.2.5/src/aof.c:1851-1972 | A switch leaves the snapshot followed by exactly the commands fed since the fork, first a SELECT; it rebuilds the dataset, so dropping the buffer loses nothing. |
| AofRewrite.EverySwitchIsExact | docs/notes/Redis/redis-6.2.5/src/aof.c:1851-1972 | SwitchIsExact at the end of every run from the initial state. |
| AofRewrite.LogOnlyGrows | docs/notes/Redis/redis-6.2.5/src/aof.c:1986-2010 | Along every run without a switch the file is only appended to and the log of commands only extended, whatever rewrites start and fail meanwhile. |
| AofRewrite.EveryFailureKeepsLog | docs/notes/Redis/redis-6.2.5/src/aof.c:1986-2010 | After every run, a rewrite that fails at any point leaves the old log followed by what was run since, and that replays to the dataset. |
| AofRewrite.LogAlwaysRebuilds | docs/notes/Redis/redis-6.2.5/src/aof.c:613-679 | In every run, whenever the log is on, file and buffer together are the encoding of commands that rebuild the dataset. |
| AofRewrite.RestartRebuilds | docs/notes/Redis/redis-6.2.5/src/aof.c:753-957 | After every run, loading the flushed log gives back the dataset and keeps the file. |
| Crc64.Reflect | docs/notes/Redis/redis-6.2.5/src/crc64.c:69-78 | The loop of crc_reflect reverses the 64 bits. |
| Crc64.BitByBit | docs/notes/Redis/redis-6.2.5/src/crc64.c:88-111 | _crc64 computes the reflected CRC of the string, started from the reflection of its first argument. |
| Crc64.MirrorCrc | docs/notes/Redis/redis-6.2.5/src/crc64.c:88-111 | The shift-left CRC that _crc64 runs, mirrored at the end, is the shift-right CRC of the tables. |
| Crc64.CrcAppend | docs/notes/Redis/redis-6.2.5/src/crc64.c:121-123 | Chaining over any split equals one call. |
| Crc64.NextEntry | docs/notes/Redis/redis-6.2.5/src/crcspeed.c:42-49 | Each table follows from the previous one by one lookup in the first. |
| Crc64.RollSplit | docs/notes/Redis/redis-6.2.5/src/crcspeed.c:117-120 | Rolling a register through a byte of zeros is a lookup of its lowest byte added to its shift. |
| Crc64.CrcOfWord | docs/notes/Redis/redis-6.2.5/src/crcspeed.c:123-135 | Adding a whole word and rolling it through equals its bytes one by one. |
| Crc64.EightAtOnce | docs/notes/Redis/redis-6.2.5/src/crcspeed.c:123-135 | The CRC of eight bytes is the sum of eight table slices. |
| Crc64.InitLittle | docs/notes/Redis/redis-6.2.5/src/crcspeed.c:33-50 | The generator fills the eight tables with the CRC of each byte followed by 0 to 7 zero bytes. |
| Crc64.CrcSpeedLittle | docs/notes/Redis/redis-6.2.5/src/crcspeed.c:112-144 | For every string, start value and alignment, slice-by-8 on those tables is the bit-by-bit CRC. |
| Crc64.RevByte | docs/notes/Redis/redis-6.2.5/src/crcspeed.c:71-83 | Byte k of the reversed word is byte 7 - k of the word. |
| Crc64.InitBig | docs/notes/Redis/redis-6.2.5/src/crcspeed.c:87-95 | The big-endian generator fills them with the byte reversals. |
| Crc64.BigLookups | docs/notes/Redis/redis-6.2.5/src/crcspeed.c:193-205 | The big-endian lookups of a reversed word are the reversal of the little-endian ones. |
| Crc64.CrcSpeedBig | docs/notes/Redis/redis-6.2.5/src/crcspeed.c:183-213 | The big-endian routine returns the same value for every string, start value and alignment. |
| Crc64.CrcIsBitByBit | docs/notes/Redis/redis-6.2.5/src/crc64.c:116-123 | crc64 on the generated tables, on either kind of machine and at every alignment, equals _crc64 from 0. |
| CommandBits.GetPut | docs/notes/Redis/redis-6.2.5/src/acl.c:365-406 | Setting a bit in the bitmap words sets that bit and no other. |
| CommandBits.BitsDecide | docs/notes/Redis/redis-6.2.5/src/acl.c:593-595 | Two bitmaps with the same bits have the same words, so memcmp compares the bits. |
| AclRules.ApplyKeeps | docs/notes/Redis/redis-6.2.5/src/acl.c:825-1014 | An accepted rule keeps what every user looks like (lists without duplicates, flags that agree with the lists, subcommand lists only where the bit is clear, ALLCOMMANDS only with all bits set) if and only if it does not name a subcommand of a command whose id is past the bitmap, for which the table of lists has no entry. |
| AclRules.ReachedIsWellFormed | docs/notes/Redis/redis-6.2.5/src/acl.c:825-1014 | Hence every user reached by accepted rules of that kind is well formed. |
| AclRules.ResetIsNotFresh | docs/notes/Redis/redis-6.2.5/src/acl.c:1000-1008 | The rule reset gives back a user as created except that it sets the sanitize flag; the comment above ACLSetUser promises the state of a user just created. |
| AclUser.ResetByRules | docs/notes/Redis/redis-6.2.5/src/acl.c:1000-1008 | The rules reset runs in turn are all accepted and add up to the reset function. |
| AclUser.User.constructor | docs/notes/Redis/redis-6.2.5/src/acl.c:244-265 | A user as created: disabled, with the default channel flag and no command. |
| AclUser.User.SameBitmap | docs/notes/Redis/redis-6.2.5/src/acl.c:593-595 | Comparing the words compares the bits. |
| AclUser.User.GetCommandBit | docs/notes/Redis/redis-6.2.5/src/acl.c:379-383 | The bit of an id, false for an id out of range. |
| AclUser.User.SetCommandBit | docs/notes/Redis/redis-6.2.5/src/acl.c:397-406 | The word update is the bit update; clearing a bit clears ALLCOMMANDS. |
| AclUser.User.AddAllowedSubcommand | docs/notes/Redis/redis-6.2.5/src/acl.c:712-739 | Appends the subcommand to the list of the command unless it is there. |
| AclUser.User.SetCommandBitsForCategory | docs/notes/Redis/redis-6.2.5/src/acl.c:414-429 | The loop sets the bit of exactly the commands of the category and forgets their subcommands. |
| AclUser.User.SetUser | docs/notes/Redis/redis-6.2.5/src/acl.c:825-1014 | ACLSetUser on the mutable user, all rules and all error codes, refines the rule function; a refused rule changes nothing. |
| AclDescribe.CountCategoryBits | docs/notes/Redis/redis-6.2.5/src/acl.c:435-455 | Counts the commands of a category the user may and may not run. |
| AclDescribe.FindBest | docs/notes/Redis/redis-6.2.5/src/acl.c:512-536 | The inner loop finds a category not yet applied with more right than wrong commands, fewest wrong, then most right; or that there is none. |
| AclDescribe.ApplyCategories | docs/notes/Redis/redis-6.2.5/src/acl.c:511-555 | The greedy loop ends, and what it has printed replays to the bits of its fake user, whatever it picked. |
| AclDescribe.EmitSubcommands | docs/notes/Redis/redis-6.2.5/src/acl.c:571-582 | The printed subcommand rules replay to exactly the list of the command, in order. |
| AclDescribe.FixCommands | docs/notes/Redis/redis-6.2.5/src/acl.c:557-584 | The final pass makes every command of the table right and keeps the rest. |
| AclDescribe.DescribeUserCommandRules | docs/notes/Redis/redis-6.2.5/src/acl.c:464-603 | Replayed on any user the printed rules give it the command bits and subcommand lists of the described one, also with command ids past the bitmap, and the bitmap-mismatch panic is unreachable; ALLCOMMANDS comes back exactly if every bit is set and the table is tame, as DescribedUsers says it. |
| AclDescribe.DescribeFlags | docs/notes/Redis/redis-6.2.5/src/acl.c:614-625 | The printed flags replay on a fresh user to those of the user. |
| AclDescribe.DescribePasswords | docs/notes/Redis/redis-6.2.5/src/acl.c:627-636 | The printed hashes replay to the password list, in order. |
| AclDescribe.DescribePatterns | docs/notes/Redis/redis-6.2.5/src/acl.c:638-649 | The printed key patterns replay to the pattern list, in order, or to all keys. |
| AclDescribe.DescribeChannels | docs/notes/Redis/redis-6.2.5/src/acl.c:651-663 | The printed channel patterns replay to the list, whatever channels a fresh user starts with. |
| AclDescribe.DescribeSettings | docs/notes/Redis/redis-6.2.5/src/acl.c:611-663 | The printed flags, hashes, key and channel patterns replay to those of the user. |
| AclDescribe.DescribeUser | docs/notes/Redis/redis-6.2.5/src/acl.c:611-670 | Round trip: for every well formed user and every command table the printed rules are all accepted on a fresh user and restore it, with ALLCOMMANDS decided by the bitmap and by whether the table is tame. |
| AclDescribe.DescribedUsers | docs/notes/Redis/redis-6.2.5/src/acl.c:605-610 | For every user reached from a fresh one by accepted rules inside the table of lists: it is well formed, one description loses nothing that a second would, and a user with ALLCOMMANDS comes back with it if and only if no category with a command inside the bitmap has more commands past it than inside. |
| AclDescribe.FullLoopEnds | docs/notes/Redis/redis-6.2.5/src/acl.c:511-555 | For a user with every bit set the greedy loop removes exactly the categories with more commands past the bitmap than inside, and the flag survives exactly in a tame table. |
| AclDescribe.SmallTablesAreTame | docs/notes/Redis/redis-6.2.5/src/acl.c:1128-1154 | While every command has a bit the table is tame. |
| AclDescribe.FlagIsLost | docs/notes/Redis/redis-6.2.5/src/acl.c:511-555 | A concrete table with ids past the bitmap in which a user with all commands does not get the flag back. |
| AclDescribe.CommandNames.GetCommandID | docs/notes/Redis/redis-6.2.5/src/acl.c:1128-1154 | Ids are stable, the same for all spellings of a name, given out in order without a gap but for the reserved one, and distinct names get distinct ids. |
| BlockedIndex.OncePerList | docs/notes/Redis/redis-6.2.5/src/blocked.c:645-666 | A client occurs at most once in the list of a key. |
| BlockedIndex.AddedKeyAgrees | docs/notes/Redis/redis-6.2.5/src/blocked.c:638-667 | Waiting for one more key keeps the two indexes in agreement. |
| BlockedIndex.RemovedKeyAgrees | docs/notes/Redis/redis-6.2.5/src/blocked.c:682-695 | Leaving one list at the remembered node keeps them in agreement and leaves no empty list. |
| BlockedIndex.RotatedAgrees | docs/notes/Redis/redis-6.2.5/src/adlist.c:346-358 | Rotation keeps every remembered node right. |
| Blocked.Server.BlockClient | docs/notes/Redis/redis-6.2.5/src/blocked.c:89-101 | Marks the client and counts it under its type; counters equal the true counts. |
| Blocked.Server.BlockForKeys | docs/notes/Redis/redis-6.2.5/src/blocked.c:626-668 | The client joins the tail of the list of each distinct key, once, in nodes numbered in the order of the keys; all indexes and counters stay right; nobody is missed if and only if nobody was and each of its keys that holds elements is queued as ready. |
| Blocked.Server.UnblockClientWaitingData | docs/notes/Redis/redis-6.2.5/src/blocked.c:673-707 | The client leaves every list it is in; the others keep their order; empty lists go. |
| Blocked.Server.QueueClientForReprocessing | docs/notes/Redis/redis-6.2.5/src/blocked.c:163-170 | Queues the client once; the flag says whether it is queued. |
| Blocked.Server.NextUnblocked | docs/notes/Redis/redis-6.2.5/src/blocked.c:123-128 | The first queued client leaves the queue and loses its flag. |
| Blocked.Server.UnblockClient | docs/notes/Redis/redis-6.2.5/src/blocked.c:174-208 | The client leaves its lists, is uncounted and queued for reprocessing; all indexes stay right. |
| Blocked.Server.SignalKeyAsReady | docs/notes/Redis/redis-6.2.5/src/blocked.c:726-762 | Queues the key exactly when some client of the type is blocked anywhere, some client waits for the key, and the key is not queued; list and dictionary stay matched. |
| Blocked.Server.ServeClient | docs/notes/Redis/redis-6.2.5/src/t_list.c:851-902 | One pop, the push or its undoing, the reply and the release of the client: which element goes where, by position, that the elements are conserved, and that nobody is missed. |
| Blocked.Server.ServeClientsBlockedOnListKey | docs/notes/Redis/redis-6.2.5/src/blocked.c:262-319 | Visits the waiting clients up to the first that finds the list empty; the list clients visited are served one after the other in blocking order and let go, the others rotated; the list loses exactly what they used and is deleted when empty; blocked clients plus queued keys do not grow. |
| Blocked.Server.ServeClientsBlockedOnSortedSetKey | docs/notes/Redis/redis-6.2.5/src/blocked.c:324-368 | Serves the first clients of the type, as many as the set has members; the set loses that many, and goes at zero; the others are rotated up to the least place where the set is empty. |
| Blocked.Server.ServeClientsBlockedOnStreamKey | docs/notes/Redis/redis-6.2.5/src/blocked.c:373-472 | Lets go exactly the clients that wait for the stream and have news for them; no other client changes and all indexes stay right. |
| Blocked.Server.ServeKey | docs/notes/Redis/redis-6.2.5/src/blocked.c:573-587 | Serves the key as the type of its value says, with the order, the replies and the contents stated by the three services, and settles that key. |
| Blocked.Server.HandleClientsBlockedOnKeys | docs/notes/Redis/redis-6.2.5/src/blocked.c:544-597 | Terminates even when BLMOVE queues new keys; what it does is serving the ready keys in turn, then those that became ready. On exit nothing is ready, and a list client waits on a list with elements exactly if that key was one already missed. Elements are conserved; clients blocked on lists and sorted sets are let go exactly with one reply each, to a key they waited for. Of two clients of one type that waited for a key, the later is served for it only after the earlier has been let go, and replies come in that order; for list clients unless the key held a sorted set and a client for that stood between two of them. |
| Blocked.Server.PushValue | docs/notes/Redis/redis-6.2.5/src/db.c:192-199 | A push keeps nobody missed although only the creation of a key signals. |
| Blocked.Server.DbAdd | docs/notes/Redis/redis-6.2.5/src/db.c:192-199 | A new key whose value some client waits for is queued as ready. |
| Blocked.Server.GenericSetKey | docs/notes/Redis/redis-6.2.5/src/db.c:258-267 | Storing over a key misses nobody if and only if the key is new, held elements, is queued as ready, the value is no list with elements, or no list client waits for the key. |
| Blocked.Server.DbDelete | docs/notes/Redis/redis-6.2.5/src/db.c:333-338 | Deleting a key misses nobody. |
| Blocked.BlockingMissesNobodyIff | docs/notes/Redis/redis-6.2.5/src/blocked.c:626-668 | Blocking misses nobody if and only if nobody was missed and no key with elements is named that is not queued as ready. |
| BlockedService.ServingConserves | docs/notes/Redis/redis-6.2.5/src/t_list.c:712-729 | Database and replies together hold the same multiset of elements before and after serving a client, also when the target has the wrong type. |
| BlockedService.ServedInOrder | docs/notes/Redis/redis-6.2.5/src/blocked.c:262-280 | The served and the remaining clients of the type, in this order, are those that waited. |
| BlockedService.SameTypeKeepsOrder | docs/notes/Redis/redis-6.2.5/src/blocked.c:262-310 | Visiting any number of clients leaves those of the served type in blocking order. |
| BlockedService.OtherTypeKeepsOrderIff | docs/notes/Redis/redis-6.2.5/src/blocked.c:274-279 | When a visit stops anywhere, clients of another type keep their order if and only if they are not on both sides of that place. |
| BlockedService.ServingMissesNobody | docs/notes/Redis/redis-6.2.5/src/t_list.c:712-720 | Serving a client keeps every other key accounted for: a target it creates is signalled. |
| BlockedSpec.ZsetStopIsLeast | docs/notes/Redis/redis-6.2.5/src/blocked.c:330-365 | The visit for a sorted set stops at the first place by which as many clients were served as the set has members, or at the end. |
| BlockedSpec.ZsetServesTheFirst | docs/notes/Redis/redis-6.2.5/src/blocked.c:330-365 | So it serves exactly the first clients of the type, as many as there are members. |
| BlockedSpec.ZsetKeepsOrderIff | docs/notes/Redis/redis-6.2.5/src/blocked.c:333-342 | Clients of another type keep their order if and only if they are not found both before and after the client that takes the last member; the condition is on the cardinality and the waiting list alone. |
| BlockedSpec.ListStopIsLeast | docs/notes/Redis/redis-6.2.5/src/blocked.c:270-310 | The visit for a list stops at the first list client that finds it empty, or at the end. |
| BlockedSpec.ListKeepsOrderIff | docs/notes/Redis/redis-6.2.5/src/blocked.c:274-279 | The same for a list: unless a list client, found between two of them, is the first for which the clients ahead use up all elements; the condition compares what they use with the length of the list. |
| BlockedSpec.StopIsStarved | docs/notes/Redis/redis-6.2.5/src/blocked.c:270-310 | Where the visit stops, in terms of what the list clients ahead of a place use up. |
| BlockedSpec.ServedAllConserves | docs/notes/Redis/redis-6.2.5/src/t_list.c:851-902 | Serving any number of clients one after the other conserves the elements of database and replies. |
| BlockedSpec.ServedAllCounts | docs/notes/Redis/redis-6.2.5/src/t_list.c:851-902 | The list loses exactly one element for each of them that took one, and no other key loses its last. |
| BlockedSpec.KeyConserves | docs/notes/Redis/redis-6.2.5/src/blocked.c:573-587 | Serving one key of any type conserves the elements. |
| BlockedOrder.KeyEffect | docs/notes/Redis/redis-6.2.5/src/blocked.c:573-587 | What serving one key does to the lists, seen alike for all types: who was served, in which order, and who stayed. |
| BlockedOrder.StepKeepsInOrder | docs/notes/Redis/redis-6.2.5/src/blocked.c:544-597 | Serving one more key keeps it that clients of each key are served in blocking order over the whole call. |
| BlockedOrder.StepKeepsAccounted | docs/notes/Redis/redis-6.2.5/src/blocked.c:544-597 | Serving one more key keeps it that clients blocked on lists and sorted sets leave exactly with one answer each, to a key they waited for. |
| BlockedOrder.UnstraddledKeepsOrder | docs/notes/Redis/redis-6.2.5/src/blocked.c:333-342 | If no sorted-set client stands between two list clients, no cardinality of the set makes them trade places. |
| BlockedOrder.StepKeepsCalm | docs/notes/Redis/redis-6.2.5/src/blocked.c:544-597 | Serving any key keeps it so, at every key that is a sorted set, and keeps the order of the list clients there. |
| BlockedOrder.HandledStep | docs/notes/Redis/redis-6.2.5/src/blocked.c:544-597 | The invariant of the outer loop: order, accounting and conservation since the call began. |
| BlockedCases.Overtaken | docs/notes/Redis/redis-6.2.5/src/blocked.c:333-342 | Three clients blocked by the commands of the program, then a sorted set stored: of the two that wait for a list, the first is behind the second afterwards. |
| BlockedCases.OvertakenAtList | docs/notes/Redis/redis-6.2.5/src/blocked.c:274-279 | Four clients, then a list with one element: of the two that wait for a sorted set, the first is behind the second afterwards. |
| BlockedCases.AnsweredOutOfOrder | docs/notes/Redis/redis-6.2.5/src/blocked.c:544-597 | One call that answers the later of two list clients and leaves the earlier waiting: a sorted set between them is served, and BLMOVE then puts an element at the key. |
| BlockedCases.Forgotten | docs/notes/Redis/redis-6.2.5/src/sort.c:573 | A client blocks on a key, the key is set to a string and then stored over with a list, as SORT STORE does: nothing is queued, and the call leaves the client waiting on a list with elements. |
| BlockedIndex.RemovedIsUnique | docs/notes/Redis/redis-6.2.5/src/blocked.c:676-695 | The order in which a client leaves its lists does not matter. |
| BlockedLists.HeapAgrees | docs/notes/Redis/redis-6.2.5/src/blocked.c:638-695 | Heap lists and stored node pointers, as long as they are valid, agree as the two tables do: every list node is the one its client remembers, and the other way round. |
| BlockedLists.WaitingLists.constructor | docs/notes/Redis/redis-6.2.5/src/blocked.c:638-667 | The waiting lists on the heap, with the node of each client stored: nobody waits. |
| BlockedLists.WaitingLists.TablesAgree | docs/notes/Redis/redis-6.2.5/src/blocked.c:638-695 | The same for the object: its tables agree for every set of clients with these keys. |
| BlockedLists.WaitingLists.Add | docs/notes/Redis/redis-6.2.5/src/blocked.c:638-667 | Adding the client at the tail and storing the node refines the index: one new entry at the end, every other stored node still its own. |
| BlockedLists.WaitingLists.WaitForKeys | docs/notes/Redis/redis-6.2.5/src/blocked.c:632-667 | The loop over the keys, a repeated one counting once, refines the fold over the index. |
| BlockedLists.WaitingLists.Leave | docs/notes/Redis/redis-6.2.5/src/blocked.c:682-695 | Deleting the stored node refines leaving the list; an empty list goes. |
| BlockedLists.WaitingLists.LeaveLists | docs/notes/Redis/redis-6.2.5/src/blocked.c:676-700 | Leaving every list at the stored node, in any order, removes exactly these nodes; the client remembers none. |
| BlockedLists.WaitingLists.RotateHead | docs/notes/Redis/redis-6.2.5/src/adlist.c:346-358 | Rotating the heap list refines rotating the index, with every stored node still right. |
| BlockedRefinement.Start | docs/notes/Redis/redis-6.2.5/src/blocked.c:626-668 | A new server and new heap lists have the same tables. |
| BlockedRefinement.Block | docs/notes/Redis/redis-6.2.5/src/blocked.c:626-668 | Blocking a client in the server and in the heap lists keeps their tables equal. |
| BlockedRefinement.Unblock | docs/notes/Redis/redis-6.2.5/src/blocked.c:174-208 | So does letting a client go. |
| BlockedRefinement.RotateBoth | docs/notes/Redis/redis-6.2.5/src/blocked.c:274-279 | So does sending the client at the head to the tail. |
| AdList.List.constructor | docs/notes/Redis/redis-6.2.5/src/adlist.c:42-54 | An empty list. |
| AdList.List.AddNodeHead | docs/notes/Redis/redis-6.2.5/src/adlist.c:89-107 | One fresh node in front; all others are the same nodes in the same order. |
| AdList.List.AddNodeTail | docs/notes/Redis/redis-6.2.5/src/adlist.c:115-133 | One fresh node at the end; all others unchanged. |
| AdList.List.InsertNode | docs/notes/Redis/redis-6.2.5/src/adlist.c:135-162 | One fresh node right before or after the given one; all others unchanged. |
| AdList.List.DelNode | docs/notes/Redis/redis-6.2.5/src/adlist.c:168-181 | Exactly the given node leaves the sequence. |
| AdList.List.RotateTailToHead | docs/notes/Redis/redis-6.2.5/src/adlist.c:331-343 | The same nodes, the last one first. |
| AdList.List.RotateHeadToTail | docs/notes/Redis/redis-6.2.5/src/adlist.c:346-358 | The same nodes, the first one last. |
| AdList.List.Join | docs/notes/Redis/redis-6.2.5/src/adlist.c:362-378 | The nodes of the other list move behind those of this one; the other list is empty. |
| AdList.Iter.Next | docs/notes/Redis/redis-6.2.5/src/adlist.c:230-241 | Returns the current node after stepping past it. |
| AdList.DeleteWhileIterating | docs/notes/Redis/redis-6.2.5/src/adlist.c:216-241 | A walk from the head that deletes any of the nodes it is given visits every original element exactly once in order, and leaves exactly those not deleted. |
| AdList.DeleteWhileIteratingBack | docs/notes/Redis/redis-6.2.5/src/adlist.c:216-241 | The same for a walk from the tail, in reverse order. |
| Popcount.SwarOfLoad | docs/notes/Redis/redis-6.2.5/src/bitops.c:66-86 | The pairwise and nibble sums count the bits of each byte of the word in its own byte. |
| Popcount.WordSumIsLanes | docs/notes/Redis/redis-6.2.5/src/bitops.c:80-86 | Up to seven words add without a carry between bytes. |
| Popcount.ProductAdds | docs/notes/Redis/redis-6.2.5/src/bitops.c:80-86 | With bytes of at most 56 the top byte of the product is their sum, at most 224. |
| Popcount.ProductIsShifts | docs/notes/Redis/redis-6.2.5/src/bitops.c:86 | The product with 0x01010101 adds up four shifted copies of the word. |
| Popcount.CountRound | docs/notes/Redis/redis-6.2.5/src/bitops.c:54-87 | One round of 28 bytes counts their bits. |
| Popcount.RedisPopcount | docs/notes/Redis/redis-6.2.5/src/bitops.c:40-92 | For every string and alignment, the exact number of set bits. |
| Bitpos.MaskTests | docs/notes/Redis/redis-6.2.5/src/bitops.c:172-180 | The shifted mask tests the bits of the word from the highest down. |
| Bitpos.LoadedBits | docs/notes/Redis/redis-6.2.5/src/bitops.c:151-159 | The bits of the loaded word are the bits of the bytes, in order. |
| Bitpos.SkipAhead | docs/notes/Redis/redis-6.2.5/src/bitops.c:118-142 | The skipping loops pass only bytes without a match and stop where one may be. |
| Bitpos.LoadWord | docs/notes/Redis/redis-6.2.5/src/bitops.c:151-159 | The loading loop gives the next eight bytes, zero padded. |
| Bitpos.MatchExists | docs/notes/Redis/redis-6.2.5/src/bitops.c:166-184 | The final scan finds a match unless the word is zero and ones are sought, so the panic is unreachable. |
| Bitpos.RedisBitpos | docs/notes/Redis/redis-6.2.5/src/bitops.c:101-186 | For every string and alignment: the first matching bit, -1 for a one that is not there, the length in bits for a zero that is not there; never the panic. |
| Bitop.Lengths | docs/notes/Redis/redis-6.2.5/src/bitops.c:629-656 | The longest length, and a length no source falls below; a missing key counts as empty. |
| Bitop.WordBytes | docs/notes/Redis/redis-6.2.5/src/bitops.c:680-729 | An operation on words works on each byte by itself. |
| Bitop.FastRound | docs/notes/Redis/redis-6.2.5/src/bitops.c:680-729 | One round combines 32 bytes of all sources and touches nothing else. |
| Bitop.FastPath | docs/notes/Redis/redis-6.2.5/src/bitops.c:669-731 | What the fast path finished is the bytewise fold. |
| Bitop.Settled | docs/notes/Redis/redis-6.2.5/src/bitops.c:740-754 | Once AND reached zero or OR all ones, no further source changes the byte. |
| Bitop.OutputByte | docs/notes/Redis/redis-6.2.5/src/bitops.c:734-757 | The bytewise loop with its early exit computes the fold over zero-extended sources. |
| Bitop.BitopBytes | docs/notes/Redis/redis-6.2.5/src/bitops.c:629-757 | For all sources of all lengths the result has the longest length and each byte is the fold of the zero-extended sources. |
| Bitfield.BitsRoundTrip | docs/notes/Redis/redis-6.2.5/src/bitops.c:209-222 | Writing a number into n bits and reading it back reduces it modulo 2^n. |
| Bitfield.GetUnsignedBitfield | docs/notes/Redis/redis-6.2.5/src/bitops.c:229-241 | The loop reads the n bits at any offset as a number. |
| Bitfield.GetSignedBitfield | docs/notes/Redis/redis-6.2.5/src/bitops.c:243-263 | The same as two's complement. |
| Bitfield.SetUnsignedBitfield | docs/notes/Redis/redis-6.2.5/src/bitops.c:209-222 | The loop writes the n low bits of the value at the offset and changes no other bit. |
| Bitfield.GetAfterSet | docs/notes/Redis/redis-6.2.5/src/bitops.c:209-241 | Get after set returns the value reduced to the width. |
| Bitfield.OtherFieldsKept | docs/notes/Redis/redis-6.2.5/src/bitops.c:209-222 | A field that does not overlap reads as before. |
| Bitfield.UnsignedIncrement | docs/notes/Redis/redis-6.2.5/src/bitops.c:288-323 | INCRBY on u1 to u63: the check fires exactly when the true sum does not fit; WRAP gives the residue, SAT the violated bound. |
| Bitfield.UnsignedSet | docs/notes/Redis/redis-6.2.5/src/bitops.c:288-323 | SET on u1 to u63: the check fires exactly when the value does not fit; WRAP gives the residue, SAT the maximum. |
| Bitfield.UnsignedSetSaturatesIff | docs/notes/Redis/redis-6.2.5/src/bitops.c:288-301 | SET with SAT on an unsigned field cuts to the nearer bound if and only if the argument is not negative. |
| Bitfield.SignedIncrement | docs/notes/Redis/redis-6.2.5/src/bitops.c:325-377 | INCRBY on i1 to i64: the same three facts. |
| Bitfield.SignedSet | docs/notes/Redis/redis-6.2.5/src/bitops.c:325-377 | SET on i1 to i64: fires exactly when the value does not fit, WRAP gives the residue, and which bound SAT takes. |
| Bitfield.SignedSetSaturatesIff | docs/notes/Redis/redis-6.2.5/src/bitops.c:329-351 | SET with SAT on a signed field cuts to the nearer bound if and only if the distance to the maximum fits an int64_t or the value fits the field. |
| Bitfield.DecideIsRight | docs/notes/Redis/redis-6.2.5/src/bitops.c:1054-1113 | The decision of the execution loop follows the arithmetic: refused exactly on overflow with FAIL, else the limit or the wanted value. |
| Bitfield.StoredFits | docs/notes/Redis/redis-6.2.5/src/bitops.c:1054-1113 | Whatever an operation stores is in the range of its type. |
| Bitfield.StoreThenRead | docs/notes/Redis/redis-6.2.5/src/bitops.c:1075-1112 | What is stored reads back as itself, in its type. |
| Bitfield.ExecuteWrite | docs/notes/Redis/redis-6.2.5/src/bitops.c:1040-1114 | SET and INCRBY reply the old or the new value and write exactly the field; with FAIL on overflow the buffer is unchanged and the reply is nil. |
| Bitfield.CopyWindow | docs/notes/Redis/redis-6.2.5/src/bitops.c:1125-1135 | The nine bytes at the offset, zero padded beyond the end. |
| Bitfield.WindowRow | docs/notes/Redis/redis-6.2.5/src/bitops.c:1125-1148 | The bits seen in the nine-byte window are those of the zero-extended string. |
| Bitfield.ExecuteGet | docs/notes/Redis/redis-6.2.5/src/bitops.c:1115-1148 | GET through the window equals reading the zero-extended string. |
| BitfieldCommand.HighestWrite | docs/notes/Redis/redis-6.2.5/src/bitops.c:989-992 | The first pass finds whether the command only reads and the bytes its writes need. |
| BitfieldCommand.ExecuteOne | docs/notes/Redis/redis-6.2.5/src/bitops.c:1040-1149 | One turn of the loop is one step of the fold: string, reply and change count. |
| BitfieldCommand.Execute | docs/notes/Redis/redis-6.2.5/src/bitops.c:1013-1157 | The command leaves the string, gives the replies and counts the changes of the fold of its operations over the string grown with zeros. |
| BitfieldCommand.GrownRun | docs/notes/Redis/redis-6.2.5/src/bitops.c:480-493 | Growing the string changes no reply and stays visible only as zeros behind it. |
| BitfieldCommand.OneCommandOrTwo | docs/notes/Redis/redis-6.2.5/src/bitops.c:1040-1149 | A command does what two commands of its halves do, in string, replies and changes. |
| BitfieldCommand.LastWriteWins | docs/notes/Redis/redis-6.2.5/src/bitops.c:1040-1149 | After a command a field that one operation wrote and no later one touched holds what that operation stored, or what it found if FAIL suppressed it. |
| ClusterVotes.VotesIff | docs/notes/Redis/redis-6.2.5/src/cluster.c:2894-2986 | A request gets a vote if and only if, in the state of the voter before it: the voter is a master that serves a slot; the epoch of the request is not behind and not one it voted in; the sender is on record as the replica of a master held to be failing, or the request is forced; two node timeouts have passed since the last vote about that master; and no slot claimed belongs to a node with a newer configuration. |
| ClusterVotes.AckSentIff | docs/notes/Redis/redis-6.2.5/src/cluster.c:2988-2992 | An acknowledgement is sent exactly then, exactly one, to the candidate and for its epoch; the voter records epoch and time, and nothing else changes but the epochs the request announced. |
| ClusterVotes.OtherStepsKeepTimes | docs/notes/Redis/redis-6.2.5/src/cluster.c:2990 | No other step of a node touches the time of a vote. |
| ClusterVotes.EveryVoteWasDue | docs/notes/Redis/redis-6.2.5/src/cluster.c:2930-2950 | In every run, every vote on record was given in a step in which it was due, for the candidate and epoch on record. |
| ClusterVotes.VotesAreSpaced | docs/notes/Redis/redis-6.2.5/src/cluster.c:2952-2964 | In every run, two votes of a node about the same master are at least two node timeouts apart. |
| ClusterEffects.Observed | docs/notes/Redis/redis-6.2.5/src/cluster.c:1829-1840 | A packet of a known sender raises the current epoch to its own if that is greater, and the config epoch of its sender likewise; nothing else. |
| ClusterEffects.SlotsAfterPing | docs/notes/Redis/redis-6.2.5/src/cluster.c:2013-2073 | The owner of every slot after a PING or PONG: a master gets exactly those it claims that are not imported here and that nobody has, or another node with an older config epoch; a node that announces itself as a replica loses those it had as a master; no other slot changes. |
| ClusterEffects.SlotsAfterUpdate | docs/notes/Redis/redis-6.2.5/src/cluster.c:2206-2227 | The owner of every slot after an UPDATE: the subject, if it is another known node and the epoch is news, gets exactly the slots claimed for it that are up for grabs. |
| ClusterEffects.SlotsAfterOthers | docs/notes/Redis/redis-6.2.5/src/cluster.c:1752-1840 | No other packet, and none of an unknown sender, changes the slot table. |
| ClusterEffects.StateAfterPing | docs/notes/Redis/redis-6.2.5/src/cluster.c:2013-2126 | The whole state after a PING or PONG: the record of the sender is what it says of itself, with the greater epoch; the node follows it, forgetting its open slots if it was a master, exactly if it lost all slots of its own or of its master and some of them to the sender; it takes the next epoch exactly on a clash with a master of greater name; every other record is as before. |
| ClusterEffects.StateAfterUpdate | docs/notes/Redis/redis-6.2.5/src/cluster.c:2206-2227 | The whole state after an UPDATE: news make the subject a master with the new epoch, which the node follows under the same condition; otherwise only the epochs of the header count. |
| ClusterEffects.StateAfterAck | docs/notes/Redis/redis-6.2.5/src/cluster.c:2175-2187 | A vote is counted if and only if it comes from a master that serves a slot and its epoch is not before the election. |
| ClusterEffects.PurgesIff | docs/notes/Redis/redis-6.2.5/src/cluster.c:1668-1741 | The keys of a slot are deleted if and only if the node lost it by this claim, holds keys in it and does not turn into a replica. |
| ClusterEffects.HeaderIsTruthful | docs/notes/Redis/redis-6.2.5/src/cluster.c:2434-2480 | A header is built if and only if it is true: a replica speaks with the config epoch and the slots of its master, a master with its own, and both with their current epoch and the master they replicate. |
| ClusterEffects.NewerOwnerIff | docs/notes/Redis/redis-6.2.5/src/cluster.c:2093-2117 | The scan finds the first slot claimed with a config epoch older than that of its owner, if there is one, and nothing otherwise. |
| ClusterEffects.SentAfterPing | docs/notes/Redis/redis-6.2.5/src/cluster.c:1914-2117 | What is sent on a PING or PONG: one PONG with a true header for a PING; one UPDATE with the epoch and the slots of the owner of that first slot, if what the sender claims is not what was recorded for it or its master; nothing else. |
| ClusterActions.FailoverIff | docs/notes/Redis/redis-6.2.5/src/cluster.c:3134-3283 | When a replica schedules an election, asks for votes or wins, by its master, the failure flag, the manual failover state, the age of the attempt and a strict majority of votes; and exactly what scheduling, asking and waiting leave behind. |
| ClusterActions.WinnerTakesAll | docs/notes/Redis/redis-6.2.5/src/cluster.c:3096-3112 | The winner is a master under the greater of its config epoch and the epoch it was elected for, and owns exactly the slots it and its old master had. |
| ClusterActions.RequestsSent | docs/notes/Redis/redis-6.2.5/src/cluster.c:2852-2865 | A request goes exactly once to every other known node, true, and forced exactly in a manual failover; nothing else is sent. |
| ClusterActions.CollisionIff | docs/notes/Redis/redis-6.2.5/src/cluster.c:1167-1182 | The next epoch is taken if and only if both are masters with one config epoch and the other has the greater name. |
| ClusterActions.SetSlotIff | docs/notes/Redis/redis-6.2.5/src/cluster.c:4622-4671 | When CLUSTER SETSLOT NODE is refused, with which error, and the whole state it leaves otherwise: the slot bound, migrating ended exactly without keys, importing ended exactly at the node itself, and a new epoch exactly if it was importing and its own is missing or not the greatest. |
| ClusterActions.AddSlotsIff | docs/notes/Redis/redis-6.2.5/src/cluster.c:4543-4562 | CLUSTER ADDSLOTS objects to the first slot that is out of range, bound or asked for twice, with the matching error, and to nothing if there is none. |
| ClusterActions.AddSlotsBinds | docs/notes/Redis/redis-6.2.5/src/cluster.c:4563-4574 | Exactly the slots asked for are bound to the node and no longer imported. |
| ClusterActions.SizeIsServingMasters | docs/notes/Redis/redis-6.2.5/src/cluster.c:3984-3995 | The size of the cluster is the number of masters that own a slot. |
| ClusterActions.EveryChangeHasAReason | docs/notes/Redis/redis-6.2.5/src/cluster.c:1635-1741 | In every run, a slot changes hands in the table of a node only because a master with a newer configuration than the recorded owner claims it, itself or through an UPDATE; the owner says it became a replica; the node itself won the election to replace the owner; or an administrator bound it. |
| ClusterRouting.ErrorsIff | docs/notes/Redis/redis-6.2.5/src/cluster.c:5795-5877 | When a request is refused because its slot is unbound, its keys are in several slots, or the cluster is down. |
| ClusterRouting.AskIff | docs/notes/Redis/redis-6.2.5/src/cluster.c:5888-5893 | ASK is given if and only if this node owns the slot, is handing it over and lacks one of the keys, and names the node it hands it to. |
| ClusterRouting.TryAgainIff | docs/notes/Redis/redis-6.2.5/src/cluster.c:5895-5908 | TRYAGAIN is given if and only if the node receives the slot, the client sent ASKING, and one of several keys is missing. |
| ClusterRouting.MovedIff | docs/notes/Redis/redis-6.2.5/src/cluster.c:5910-5927 | MOVED is given if and only if another node owns the slot and the request is not let in by ASKING, MIGRATE or READONLY, and names the owner. |
| ClusterRouting.OnlyOwnerWrites | docs/notes/Redis/redis-6.2.5/src/cluster.c:5740-5927 | A write to a slot that is not being moved is served by its owner and redirected to it by everybody else. |
| ClusterRouting.OneHop | docs/notes/Redis/redis-6.2.5/src/cluster.c:5740-5927 | With one slot table, a redirection leads to a node that serves the request. |
| ClusterRouting.SamePlace | docs/notes/Redis/redis-6.2.5/src/cluster.c:5740-5927 | With one slot table, two nodes redirect a write to the same node. |
| ClusterRouting.AskingIsServed | docs/notes/Redis/redis-6.2.5/src/cluster.c:5888-5908 | A request for one key that was answered ASK is served, with ASKING, by the node it names, if that node receives the slot. |
| ClusterRouting.ClosingTarget | docs/notes/Redis/redis-6.2.5/src/cluster.c:4622-4671 | The closing step at the target in the handover is CLUSTER SETSLOT NODE there. |
| ClusterRouting.ClosingSource | docs/notes/Redis/redis-6.2.5/src/cluster.c:4622-4671 | The closing step at the source is CLUSTER SETSLOT NODE there, which is refused exactly if keys are left. |
| AofTransactions.LoadRuns | docs/notes/Redis/redis-6.2.5/src/aof.c:807-926 | Any log of known commands, cut anywhere, loads as the loop over its whole commands followed by the end of file it came to. |
| AofTransactions.LoadTransactions | docs/notes/Redis/redis-6.2.5/src/aof.c:879-889 | A log of single commands, transactions and stray EXECs in any order applies the single commands and the bodies of the transactions, in order, and keeps the file. |
| AofTransactions.WholeItemsFit | docs/notes/Redis/redis-6.2.5/src/aof.c:807-926 | The count of items wholly before a cut is exact. |
| AofTransactions.LoadCutTransactions | docs/notes/Redis/redis-6.2.5/src/aof.c:907-957 | Cut at any byte, exactly the items wholly before the cut are applied, none in part; the file keeps its whole commands, or is cut back to before MULTI if it ended between two commands. |
| AofTransactions.NestedMultiStays | docs/notes/Redis/redis-6.2.5/src/aof.c:879 | A log that ends in a transaction with a second MULTI in it applies nothing of it, and is cut back only to the second MULTI. |
| AofErrors.EmptyIff | docs/notes/Redis/redis-6.2.5/src/aof.c:767-776 | A file is reported as empty if and only if it is. |
| AofErrors.LineIs | docs/notes/Redis/redis-6.2.5/src/aof.c:822-841 | A line is everything up to the first line feed, or what there is, or what fits the buffer. |
| AofErrors.NumbersRead | docs/notes/Redis/redis-6.2.5/src/aof.c:830-850 | Counts and lengths are read past blanks and a sign, up to the first byte that is no digit; none is 0. |
| AofErrors.BadCommandExits | docs/notes/Redis/redis-6.2.5/src/aof.c:828-831 | Behind any number of good commands, a command without star, or with an empty count, a zero byte or a count of zero, ends the server whatever the settings. |
| AofErrors.BadArgumentExits | docs/notes/Redis/redis-6.2.5/src/aof.c:842-853 | So does an argument without dollar or with a negative length, behind any number of good arguments. |
| AofErrors.UnknownCommandExits | docs/notes/Redis/redis-6.2.5/src/aof.c:870-877 | So does a command the server does not know. |
| AofErrors.CutWithoutRecovery | docs/notes/Redis/redis-6.2.5/src/aof.c:936-957 | Without aof-load-truncated, or if truncating fails, a cut log loads if and only if it is cut between two commands. |
| AofErrors.EndOfArgumentIgnored | docs/notes/Redis/redis-6.2.5/src/aof.c:862-867 | The two bytes behind an argument are skipped without a look. |
| AofRewrite.RewriteCanFinish | docs/notes/Redis/redis-6.2.5/src/aof.c:1590-1645 | Nothing a run does while the child dumps blocks the rewrite: from every such state the handshake and the switch can be carried through, and put into place the dump followed by all that was fed since. |
| AofServer.AppendOnlyServer.HandleWriteError | docs/notes/Redis/redis-6.2.5/src/aof.c:435-498 | After a failed write the file is cut back if that works, and else buffer and recorded size follow it; with policy Always the process ends. |
| AclMeaning.CheckUserCredentials | docs/notes/Redis/redis-6.2.5/src/acl.c:1068-1102 | A password is accepted if and only if the user is not disabled and needs none or has its hash. |
| AclMeaning.CheckKeys | docs/notes/Redis/redis-6.2.5/src/acl.c:1221-1246 | The keys are allowed if and only if each matches a pattern or all are allowed; otherwise the first that is not is named. |
| AclMeaning.CheckCommandPerm | docs/notes/Redis/redis-6.2.5/src/acl.c:1179-1251 | A command is denied if and only if it needs permission and the user may run neither it nor the subcommand; keys are looked at after that. |
| AclUser.CheckPasswordHash | docs/notes/Redis/redis-6.2.5/src/acl.c:179-194 | A hash is accepted if and only if it has 64 characters, each a digit or a letter from a to f. |
| AclUser.StringHasSpaces | docs/notes/Redis/redis-6.2.5/src/acl.c:205-210 | Blanks are found if and only if some character is a blank, a tab, a line break or zero. |
| AclRules.SameLower | docs/notes/Redis/redis-6.2.5/src/acl.c:1128-1135 | Two names are the same command if and only if they have the same letters, whatever their case. |
| AclMeaning.RemovingPassword | docs/notes/Redis/redis-6.2.5/src/acl.c:893-911 | Removing a password takes out exactly its hash, in place: afterwards it and no other password that was accepted is refused; one that is not there is an error, as is a malformed hash. |
| AclMeaning.AddingPassword | docs/notes/Redis/redis-6.2.5/src/acl.c:874-892 | Adding a password adds exactly its hash, once, and ends the password-less state. |
| AclMeaning.LoginRules | docs/notes/Redis/redis-6.2.5/src/acl.c:828-873 | on, off, nopass and resetpass decide who can log in as documented and change nothing else. |
| AclMeaning.CommandRules | docs/notes/Redis/redis-6.2.5/src/acl.c:946-993 | +command and -command decide about exactly that command, including its subcommands; an unknown name is refused. |
| AclMeaning.SubcommandRule | docs/notes/Redis/redis-6.2.5/src/acl.c:955-985 | +command|sub allows exactly that subcommand, in any spelling, and nothing else. |
| AclMeaning.CategoryRules | docs/notes/Redis/redis-6.2.5/src/acl.c:994-999 | +@category and -@category decide about exactly the commands of the category. |
| AclMeaning.AllCommandRules | docs/notes/Redis/redis-6.2.5/src/acl.c:856-867 | allcommands lets the user run everything, nocommands nothing. |
| AclMeaning.PastTheBitmap | docs/notes/Redis/redis-6.2.5/src/acl.c:379-403 | A command whose id lies past the bitmap may be run exactly while the user has all commands. |
| AclMeaning.KeyRules | docs/notes/Redis/redis-6.2.5/src/acl.c:840-928 | A key pattern adds exactly the keys it matches, ~* all of them, resetkeys takes all away; when each is refused, and with which error. |
| AclMeaning.ChannelRules | docs/notes/Redis/redis-6.2.5/src/acl.c:848-945 | The same for channel patterns. |
| AclMeaning.OtherRules | docs/notes/Redis/redis-6.2.5/src/acl.c:827-839 | The two payload rules exclude each other, an empty rule changes nothing, an unknown one is refused. |
| CrcCheck.CheckValue | docs/notes/Redis/redis-6.2.5/src/crc64.c:134-137 | The check value: the CRC of the nine digits is 0xe9c6d914c4b8d9ca. |
| BitopBits.ResultBits | docs/notes/Redis/redis-6.2.5/src/bitops.c:629-757 | The result is as long as the longest source; a bit of it is set, for AND, OR, XOR and NOT, if all, some, an odd number, or none of the sources have it. |
| BitfieldCommand.GetReplies | docs/notes/Redis/redis-6.2.5/src/bitops.c:1123-1148 | A GET replies with the field as the operations before it left it, and changes nothing. |
| BitfieldCommand.WriteReplies | docs/notes/Redis/redis-6.2.5/src/bitops.c:1052-1120 | SET replies with what a GET before it would reply, INCRBY with what one behind it does; the reply is null and the field as before if and only if the value does not fit and the overflow type is FAIL. |
| BlockedService.ServingDelivers | docs/notes/Redis/redis-6.2.5/src/t_list.c:851-902 | By elements: the client gets the first or the last element, as it asked for; the rest keeps its order; a moved element is in front of or behind the elements of the target, be it the same list, another, or a new one; a target of another type leaves everything as it was. |
| BlockedService.MovingRotates | docs/notes/Redis/redis-6.2.5/src/t_list.c:851-902 | Moving from one end of a list to the other end of the same list rotates it. |
| BlockedSpec.TakenCounts | docs/notes/Redis/redis-6.2.5/src/blocked.c:324-368 | A sorted set loses one member for each client served and is gone with its last; no other key changes. |
| BlockedSpec.MembersConserved | docs/notes/Redis/redis-6.2.5/src/blocked.c:324-368 | Over a whole round of ready keys, members in sorted sets and members handed out are conserved, key by key. |
| AdList.KeptAre | docs/notes/Redis/redis-6.2.5/src/adlist.c:216-241 | A node is left by a walk if and only if its value is not dropped. |

## Left out

- Epochs, counters, sizes and offsets are unbounded numbers where the program has 64-bit ones; wrap-around is modelled only in the bit, CRC and BITFIELD kernels, where it matters.
- Node names are numbers: fixed-length byte strings compared with memcmp have that order. A pointer to a node is the name of the node, so freeing a node is not modelled.
- Slot bitmaps of nodes are sequences of booleans; their packing into bytes is left out. The bitmap words of ACL users are modelled as words.
- Handshake, gossip, replica migration, manual failover requests, TAKEOVER and hard reset: outside the assumptions of the run theorems, whose set of nodes is fixed. Failure flags change by a free step.
- ElectionSafety.AtMostOneWinnerPerEpoch: does not hold without its condition on late acknowledgements; that a vote survives a crash of the voter is assumed.
- EpochCollision.CollisionsAreBounded: the nodes stay masters and no step is a failover or a SETSLOT, as other sources of epochs would make the bound false; at the start no packet is in flight and nobody is known with a newer epoch than its own.
- SlotConvergence.GreatestEpochOwns: covers announcements by PING and PONG; UPDATE packets, which are ignored once their epoch is known, are covered by the refinement of the handler only.
- ClusterServer.Cluster.SetMasterOfMyself: that the new master is another node is a precondition, and the replication settings it changes are left out; a failed assertion is reported, and the method goes on as if it had held.
- ClusterServer.Cluster.HandleFailover: the PONGs broadcast when an election is scheduled and won are steps of their own in ClusterBus.
- ClusterServer.Cluster.FailoverReplaceYourMaster: the same holds for the PONG it broadcasts, and saving the configuration is left out.
- ClusterServer.Cluster.ProcessPingPacket: gossip, link and address bookkeeping are left out.
- ClusterServer.Cluster.ProcessOnePacket: FAIL, PUBLISH, MFSTART and module packets are one kind, of which only the epochs matter.
- ClusterServer.Cluster.SetSlotBit: the migrate-to flag, which only replica migration reads, is left out.
- Resharding: MIGRATE is an atomic move of a key, SETSLOT STABLE is left out, the contents of keys are left out, and crc16 is an arbitrary function from keys to slots.
- AofLoad.LoadAppendOnlyFile: a file that begins with an RDB preamble is left out, and so are the replies to the commands run.
- AofErrors.BadArgumentExits: a negative length is one no allocation can meet; the program ends in the allocator, the model with a format error.
- The per-type dump of a dataset is a function assumed to print commands that rebuild the dataset; this is the hypothesis DumpIsFaithful.
- AofServer.AppendOnlyServer.FeedAppendOnlyFile: the translation of EXPIRE and SET with an expiry to absolute times is left out; the argument is the command as it is logged.
- AofServer.ReadDiffFromParent: a read returns nothing only when the pipe is empty, as in the last read of the child.
- AofServer.AppendOnlyServer.OnRewriteDone: with the log off, the renamed file is not followed further. Syncing and its bookkeeping are left out.
- AofRewrite.RestartRebuilds: for commands outside MULTI, in databases with numbers below 2^31.
- AofLog.ParseWhole: numbers of arguments and bytes below the limits of atoi and strtol; overflow there is left out.
- ACL rules are tokens, not text: letter case of keywords, splitting at blanks and looking up categories by name are left out, so a subcommand containing a blank, which the text form would split, is one token. SHA-256 is an arbitrary function.
- AclUser.User.LookupCommand: the command table is a parameter, with fewer than 2^31 commands, distinct names and distinct ids other than the reserved one.
- AclUser.User.AddAllowedSubcommand: the table of subcommand lists is a map from ids, so an entry past its end is there in the model and nothing is found where none was added; what the program does there is not modelled.
- Blocked.Server.ServeClientsBlockedOnSortedSetKey: a sorted set is its cardinality, and the members popped are left out.
- Blocked.Server.ServeClientsBlockedOnStreamKey: whether a stream has news for a client is an arbitrary predicate.
- Blocked clients: timeouts, clients blocked by modules, WAIT and pauses, several databases and the text of replies are left out. List nodes are numbers in the modules on service; BlockedLists has them on the heap and refines those numbers.
- AdList: listDup, listSearchKey, listIndex and releasing a list are left out as easy.
- AdList.List.InsertNode: the position of the node is a ghost argument, as is that of List.DelNode.
- The 16-bit routines of crcspeed.c are left out.
- Popcount.RedisPopcount: the table of bit counts of a byte is a function.
- BITFIELD and BITOP: parsing of arguments and storing the result are left out; u64 is not a type of the command. Signed overflow in C is taken to wrap.
- Sockets, event loop, fork, configuration, replies and logging.
