# A verified model of Redis 6.0.10 internals

This project models, in Dafny, the parts of the Redis 6.0.10 server whose correctness is least
obvious from reading the C code, and proves what the code and its comments promise about them.
Every statement is a proof about the model.

| component | files | what is proved |
|---|---|---|
| Cluster epochs | `Epochs.dfy` | collisions of configuration epochs can always be resolved, under any delay, loss or repetition of packets, and take a bounded number of moves |
| Replica election | `Election.dfy` | at most one winner per epoch over every run, and the run that breaks it when an expired vote is counted; votes go to entitled replicas only, and an entitled one can win |
| Slot table and claims | `SlotTable.dfy`, `SlotClaims.dfy` | the slot array and the node bitmaps agree after every operation; gossip claims converge in any order, imported slots excepted; saved slot ranges load back |
| Append only file | `Resp.dfy`, `AofLoad.dfy`, `AofBuffers.dfy`, `AofRewrite.dfy` | printing and loading, recovery from every byte cut, files that must not be loaded, conservation of buffered bytes, and the two-process rewrite over every interleaving, up to what the loader makes of the file |
| Access control lists | `Acl.dfy`, `AclMeaning.dfy`, `AclDescribe.dfy`, `AclUsers.dfy` | who may run what, touch which keys and log in is decided by the last rule that speaks of it; printing a user and applying the printed rules rebuilds the user, for every user any rules can make |
| Blocked clients | `Blocked.dfy`, `BlockedOrder.dfy`, `BlockedRuns.dfy`, `BlockedServer.dfy` | serving terminates and conserves elements; exactly when a wakeup is lost, and exactly when serving a key breaks the order in which clients blocked |
| Bit operations | `Bits.dfy`, `Bitfield.dfy`, `BitfieldCommand.dfy`, `Popcount.dfy`, `Bitpos.dfy`, `Bitop.dfy` | BITFIELD is integer arithmetic, and the fast algorithms compute what bit by bit definitions say |
| Background jobs | `Bio.dfy` | jobs finish once, in creation order, in every interleaving of the threads; counts told to readers are right, and nobody waits for nothing |
| Linked list | `Adlist.dfy` | operations on linked nodes refine operations on a sequence |
| CRC and hash slots | `Crc16.dfy`, `HashSlot.dfy` | the table-driven CRC is division by the generator polynomial; keys with the same tag share a slot |

Protocols between processes or threads are state machines whose steps are the accesses to shared
state, so that a theorem about all runs is a theorem about all interleavings. Objects updated in
place are classes whose methods are proved against functions on values, and the theorems are about
those functions. Machine words are natural numbers with their wrap-around written out: a shift is a
multiplication or division by a power of two, a mask selects binary digits.

Where the code does not do what its comments say, the model follows the code, and a lemma gives the
exact condition:

- A replica clears its vote counter when an election is scheduled, not when it starts, so a vote of
  an expired election can be counted for the next one. The counter is always the genuine votes plus
  the expired ones; a winner without expired votes is the only one of its epoch, and a run with
  expired votes can have two (`Election.ElectionSafety`, `Election.ExpiredVotesSplit`).
- A client that waits for a list or a sorted set is not woken when a command replaces an object of
  another type by one, because only the creation of a key signals it; later elements do not wake it
  either (`BlockedRuns.WaitingInVain`). A step loses a wakeup if and only if it is such a replacement
  at a key that is not about to be served (`BlockedRuns.StepHealthy`).
- Clients are not always served in the order in which they blocked: serving a key moves the clients
  that wait for another kind of object behind those it has not looked at. Serving keeps the order if
  and only if no other kind has clients on both sides (`BlockedOrder.ServeKeyOrdered`,
  `BlockedRuns.MixedOvertakes`), as in every run that uses a key for one kind only
  (`BlockedRuns.OneUseInTurn`).
- The log rebuilds the dataset if and only if it does not end inside MULTI, which it does only while a
  transaction is being executed (`AofRewrite.LogRebuildsDataset`, `AofRewrite.InsideTransaction`).
- The loader cuts a log back to before an open MULTI only when the file ends between two commands
  or in the MULTI itself (`AofLoad.CutBackExact`, `AofLoad.OpenMultiKept`).
- `SET` with `OVERFLOW SAT` saturates to the wrong end when the argument is so far below the range
  of a signed field that the distance to the maximum overflows 64 bits, and whenever it is negative
  for an unsigned field (`Bitfield.SetSignedExact`, `Bitfield.SetUnsignedExact`).
- After printing and re-applying a user the ALLCOMMANDS flag is set exactly when all command bits
  are, whether or not it was set before (`AclDescribe.DescribeRebuilds`).

## Model

| member | source | states |
|---|---|---|
| `ConfigEpochs.Node.GetMaxEpoch` | redis-6.0.10/src/cluster.c:1044-1057 | the maximum of currentEpoch and all known epochs; in every reachable state that is currentEpoch |
| `ConfigEpochs.Node.BumpConfigEpochWithoutConsensus` | redis-6.0.10/src/cluster.c:1088-1105 | refuses exactly when our non-zero epoch already is the greatest; otherwise ours becomes strictly greater than every other known epoch; afterwards nobody's is greater |
| `ConfigEpochs.Node.HandleConfigEpochCollision` | redis-6.0.10/src/cluster.c:1153-1168 | only the master with the smaller ID moves, only on equal epochs, and only upwards |
| `ConfigEpochs.Node.ProcessPacket` | redis-6.0.10/src/cluster.c:1799-1810 | any packet, reports about a third node included, is taken in as DeliverLearns says, and currentEpoch still bounds all known epochs |
| `ConfigEpochs.InitInv` | redis-6.0.10/src/cluster.c:454-475 | a fresh cluster meets the epoch invariant |
| `ConfigEpochs.SetViewInv` | redis-6.0.10/src/cluster.c:1799-1810 | a view may only grow, and never above what the other nodes really hold |
| `ConfigEpochs.LearnGrows` | redis-6.0.10/src/cluster.c:1799-1810 | what every packet teaches never lowers an epoch, raises nobody above what they really hold, and leaves our own alone |
| `ConfigEpochs.OnPacketGrows` | redis-6.0.10/src/cluster.c:2167-2188 | the same of a whole packet, UPDATE included; only a PING moves a node, and then strictly above every epoch it knows |
| `ConfigEpochs.DeliverLearns` | redis-6.0.10/src/cluster.c:2167-2188 | a delivered packet teaches exactly what it says: of every other node, and of currentEpoch, the greater of what was known and what it says; our own epoch changes exactly on a collision, to one above |
| `ConfigEpochs.ReportsArrive` | redis-6.0.10/src/cluster.c:2167-2188 | whatever happens before and after its delivery, an UPDATE leaves its receiver knowing at least what its sender knew of that node, and a PING its sender's epoch |
| `ConfigEpochs.StepInv` | redis-6.0.10/src/cluster.c:1799-1810 | every step (sending PING, UPDATE and other packets, delivering stale ones, elections, bumps) keeps: currentEpoch bounds all known epochs, every packet's epochs are at most its currentEpoch, nobody overestimates anybody |
| `ConfigEpochs.DeliverLeaves` | redis-6.0.10/src/cluster.c:1153-1168 | an epoch a master leaves was held by a master with a greater ID |
| `ConfigEpochs.DeliverApart` | redis-6.0.10/src/cluster.c:2086-2093 | having heard a greater node's epoch, a node holds a different one |
| `ConfigEpochs.GossipRun` | redis-6.0.10/src/cluster.c:1153-1168 | both facts hold after every run in which only collisions change epochs |
| `ConfigEpochs.LeavesAtMost` | redis-6.0.10/src/cluster.c:1147-1152 | a node leaves at most as many epochs as the nodes above it ever held |
| `ConfigEpochs.HeldBound` | redis-6.0.10/src/cluster.c:1147-1152 | so the nodes from i up hold at most 2^(n-i) - 1 epochs in all |
| `ConfigEpochs.CollisionsEnd` | redis-6.0.10/src/cluster.c:1112-1152 | over every run with stale packets, n masters move at most 2^n - 1 - n times and the greatest ID never moves |
| `ConfigEpochs.TwoMastersCollide` | redis-6.0.10/src/cluster.c:1153-1168 | the bound is reached by two masters that start with the same epoch |
| `ConfigEpochs.HeardDiffer` | redis-6.0.10/src/cluster.c:1147-1152 | when every node has heard every greater node's present epoch, all epochs differ |
| `ConfigEpochs.SettledForever` | redis-6.0.10/src/cluster.c:1136-1152 | from then on no later packet, however stale, makes anybody move again |
| `ConfigEpochs.Settles` | redis-6.0.10/src/cluster.c:1136-1152 | from every state that gossip can reach, some gossip leads to one where all have heard each other and all epochs differ |
| `ConfigEpochs.AlwaysResolvable` | redis-6.0.10/src/cluster.c:1112-1152 | so any run of gossip can be continued to a state where all epochs differ and nobody ever moves again |
| `Election.Node.SendFailoverAuthIfNeeded` | redis-6.0.10/src/cluster.c:2857-2958 | a vote is given never twice in an epoch, only to a replica of a master held for failed or in a manual failover that claims no slot held under a greater epoch, and not soon after another about that master |
| `Election.Node.ProcessAuthAck` | redis-6.0.10/src/cluster.c:2142-2154 | the counter goes on being the distinct masters that voted in this election plus the expired votes; once votes have been asked for no expired one is added |
| `Election.Node.HandleSlaveFailover` | redis-6.0.10/src/cluster.c:3097-3262 | asking for votes opens a strictly newer epoch; taking over needs a majority and raises configEpoch to the election's; both need a reason and happen within the timeout of the scheduled time |
| `Election.GrantIsNew` | redis-6.0.10/src/cluster.c:2857-2958 | a vote is granted only in an epoch above all its voter voted in before |
| `Election.GrantInv` | redis-6.0.10/src/cluster.c:2857-2958 | granting a vote keeps every vote given, sent and counted in one account |
| `Election.CountInv` | redis-6.0.10/src/cluster.c:2142-2154 | the counter is the set of masters whose vote for this very election arrived, plus the expired votes |
| `Election.TimerInv` | redis-6.0.10/src/cluster.c:3097-3262 | scheduling, starting and winning keep that account |
| `Election.TimerTouches` | redis-6.0.10/src/cluster.c:3214-3262 | the timer raises currentEpoch only to ask for votes, by one, and configEpoch only on a win, to the epoch won |
| `Election.StepTouches` | redis-6.0.10/src/cluster.c:1799-1805 | a step touches one node; whoever receives something learns its epoch; only the timer wins or changes a configEpoch |
| `Election.GrantJustified` | redis-6.0.10/src/cluster.c:2892-2953 | giving a vote keeps that every vote went to an entitled candidate, on a request sent for a reason, and that votes of one master about another are two timeouts apart |
| `Election.RunInv` | redis-6.0.10/src/cluster.c:2857-2958 | the account holds in every reachable state |
| `Election.MajoritiesMeet` | redis-6.0.10/src/cluster.c:3100-3100 | two sets of N/2+1 of N masters have a member in common |
| `Election.ElectionSafety` | redis-6.0.10/src/cluster.c:3169-3262 | in every run each master votes once per epoch, and two winners of one epoch without expired votes are the same replica |
| `Election.VotesJustified` | redis-6.0.10/src/cluster.c:2892-2953 | over every run each vote answered a request sent for a reason, by a replica whose master its voter held for failed or that forced the matter, and that claimed no slot its voter knew under a greater configEpoch |
| `Election.WinnerEntitled` | redis-6.0.10/src/cluster.c:3233-3262 | a winner without expired votes was entitled in the eyes of a majority of the masters |
| `Election.ElectionWaits` | redis-6.0.10/src/cluster.c:3166-3200 | whatever happens in between, a scheduled election asks for no votes before its delay is over |
| `Election.EntitledWins` | redis-6.0.10/src/cluster.c:3097-3262 | a replica whose election is due and that a majority, free to vote, holds for entitled can win, by the timer, their votes and the timer again |
| `Election.ExpiredExactly` | redis-6.0.10/src/cluster.c:2142-2154 | an expired vote is counted exactly when a vote that counts arrives between scheduling and starting |
| `Election.OneWinnerPerEpoch` | redis-6.0.10/src/cluster.c:3169-3262 | if that never happens, at most one replica ever wins an epoch |
| `Election.ExpiredVotesSplit` | redis-6.0.10/src/cluster.c:3167-3240 | otherwise some run of five nodes lets two replicas win the same epoch |
| `SlotTable.AgreementMeans` | redis-6.0.10/src/cluster.c:3796-3868 | slot j is n's exactly when n's bitmap says so; bitmaps of different nodes are disjoint; numslots is the population |
| `SlotTable.ClusterState.constructor` | redis-6.0.10/src/cluster.c:454-477 | the empty table agrees |
| `SlotTable.ClusterState.AddNode` | redis-6.0.10/src/cluster.c:962-968 | a new node owns nothing and the table still agrees |
| `SlotTable.ClusterState.AddSlot` | redis-6.0.10/src/cluster.c:3837-3842 | succeeds exactly on a free slot, changes only that slot, both records still agree |
| `SlotTable.ClusterState.DelSlot` | redis-6.0.10/src/cluster.c:3847-3855 | fails exactly on a free slot; the check that the owner's bit was set cannot fail |
| `SlotTable.ClusterState.DelNodeSlots` | redis-6.0.10/src/cluster.c:3858-3868 | exactly the node's slots become free and their number is returned |
| `SlotTable.ClusterState.DelNode` | redis-6.0.10/src/cluster.c:981-1008 | exactly the references to a forgotten node go: nothing is served by, imported from or moved to it |
| `SlotTable.ClusterState.FailoverReplaceYourMaster` | redis-6.0.10/src/cluster.c:3059-3094 | the winner owns exactly its own and its old master's slots, whose count moves with them |
| `SlotTable.ClusterState.RebindSlots` | redis-6.0.10/src/cluster.c:1640-1677 | a slot changes only if claimed, not imported, and free or held under a smaller epoch; a new master is reported exactly when the current one lost a slot, dirty slots are exactly our lost slots that hold keys |
| `SlotTable.ClusterState.UpdateSlotsConfigWith` | redis-6.0.10/src/cluster.c:1617-1714 | imported slots stay; we are demoted exactly when our master lost its last slot to the claim; otherwise keys of exactly the lost slots go |
| `SlotTable.ClusterState.ProcessClaim` | redis-6.0.10/src/cluster.c:2028-2040 | skipping the update when the claimed bitmap is known changes neither the table nor what this node has to do |
| `SlotTable.LostMeans` | redis-6.0.10/src/cluster.c:1655-1671 | what counts as a lost slot, slot by slot |
| `SlotTable.KnownClaim` | redis-6.0.10/src/cluster.c:2028-2040 | claiming the slots already bound to the claimant rebinds nothing |
| `SlotTable.AddAgrees` | redis-6.0.10/src/cluster.c:3837-3842 | setting a free slot keeps table, bitmap and count in agreement |
| `SlotTable.DelAgrees` | redis-6.0.10/src/cluster.c:3847-3855 | so does clearing an owned one, whose bit was set |
| `SlotTable.ForgetAgrees` | redis-6.0.10/src/cluster.c:981-1008 | so does dropping a node without slots |
| `SlotTable.ClusterState.LoadRanges` | redis-6.0.10/src/cluster.c:244-289 | fails exactly on an out-of-range slot; otherwise the free slots of the ranges become the node's |
| `SlotClaims.HearInv` | redis-6.0.10/src/cluster.c:1640-1677 | after each claim every slot that is not imported has the highest-epoch claimant heard so far |
| `SlotClaims.ImportedStay` | redis-6.0.10/src/cluster.c:1645-1649 | however many claims arrive, a slot that is being imported keeps its owner |
| `SlotClaims.FirstHighestWins` | redis-6.0.10/src/cluster.c:1650-1660 | after any claims the owner is the first heard of the highest-epoch claimants: equal epochs take nothing from each other |
| `SlotClaims.ClaimsConverge` | redis-6.0.10/src/cluster.c:1617-1677 | in any order and with any repetition, every slot that is not imported ends with its highest-epoch claimant |
| `SlotClaims.OrderIrrelevant` | redis-6.0.10/src/cluster.c:1617-1677 | with distinct epochs two observers that heard the same claims agree on every slot neither imports |
| `SlotClaims.GenNodeSlots` | redis-6.0.10/src/cluster.c:4153-4171 | printed ranges are sorted, apart, and cover exactly the set bits, the last slot included |
| `SlotClaims.RangesMaximal` | redis-6.0.10/src/cluster.c:4153-4171 | each printed range is a maximal run |
| `SlotClaims.SaveAndLoad` | redis-6.0.10/src/cluster.c:244-289 | loading the printed ranges rebuilds the bitmap, for every bitmap |
| `Resp.CatGenericCommand` | redis-6.0.10/src/aof.c:522-545 | prints the command in the serialization protocol after what was there |
| `Resp.ReadWhole` | redis-6.0.10/src/aof.c:778-826 | a printed command, followed by anything, reads back as itself and consumes exactly its bytes |
| `Resp.ReadCut` | redis-6.0.10/src/aof.c:778-826 | a printed command cut anywhere inside is a short read, never a command and never a format error |
| `AofLoad.ReadArgv` | redis-6.0.10/src/aof.c:798-826 | the loop over the arguments reads what the grammar says |
| `AofLoad.LoadAppendOnlyFile` | redis-6.0.10/src/aof.c:729-917 | the loop over commands, with MULTI, unknown commands, truncation and errors, computes the outcome the following rows are about |
| `AofLoad.ParseWhole` | redis-6.0.10/src/aof.c:766-826 | an uncut log reads as its commands at their offsets |
| `AofLoad.ParseCut` | redis-6.0.10/src/aof.c:766-826 | every byte cut reads as exactly the commands wholly inside, then end of file at a boundary and a short read elsewhere |
| `AofLoad.RunPart` | redis-6.0.10/src/aof.c:828-863 | part of a MULTI block executes nothing and remembers where the block began |
| `AofLoad.RunEntry` | redis-6.0.10/src/aof.c:828-863 | a whole entry executes, and its end becomes the truncation offset |
| `AofLoad.Recovery` | redis-6.0.10/src/aof.c:729-917 | for every log of commands and MULTI blocks and every byte cut, exactly the entries wholly inside take effect, with the truncation offset in closed form |
| `AofLoad.RecoverAll` | redis-6.0.10/src/aof.c:729-917 | without a cut every entry is recovered |
| `AofLoad.CutBackExact` | redis-6.0.10/src/aof.c:870-917 | the file is cut back to the last entry in force if and only if the cut lies between commands or in the entry's first command |
| `AofLoad.OpenMultiKept` | redis-6.0.10/src/aof.c:870-917 | one byte into the EXEC of a block, loading runs nothing and keeps the MULTI and the command in the file |
| `AofLoad.CutIsStable` | redis-6.0.10/src/aof.c:887-917 | loading again after the cut executes the same commands |
| `AofLoad.MalformedIsFatal` | redis-6.0.10/src/aof.c:787-826 | a file with something malformed after any commands (a first character, a count, the length of an argument) is never loaded, truncated files allowed or not |
| `AofLoad.UnknownIsFatal` | redis-6.0.10/src/aof.c:828-834 | nor is one with an unknown command, whatever follows |
| `AofBuffers.Aof.Write` | redis-6.0.10/src/aof.c:300-317 | retried writes append exactly the accepted bytes and report them, or -1 when none were |
| `AofBuffers.Aof.Flush` | redis-6.0.10/src/aof.c:394-494 | for every outcome of write and ftruncate that does not exit, file ++ buffer is unchanged and the recorded size is the file's; exits exactly on a short write under fsync always |
| `AofBuffers.RewriteBuffer.Append` | redis-6.0.10/src/aof.c:125-168 | the blocks grow by exactly the bytes given |
| `AofBuffers.RewriteBuffer.SendToChild` | redis-6.0.10/src/aof.c:95-122 | sent ++ remaining blocks is what was there; nothing is sent after the stop; blocks remain only if the pipe took no more |
| `AofBuffers.RewriteBuffer.WriteTo` | redis-6.0.10/src/aof.c:174-194 | succeeds exactly when every block is written whole, and then all bytes are out in order |
| `AofRewrite.Feeder.FeedAppendOnlyFile` | redis-6.0.10/src/aof.c:584-653 | both buffers get the same text: the commands, after a SELECT exactly when their database is not the selected one |
| `AofRewrite.ReplayAppend` | redis-6.0.10/src/aof.c:828-849 | replaying a log is replaying its parts in turn |
| `AofRewrite.LoadCut` | redis-6.0.10/src/aof.c:828-917 | loading any byte cut of any known commands, stray MULTI and EXEC included, runs those wholly inside that no open MULTI holds back; the file is complete exactly at a boundary outside MULTI, and otherwise truncated, at the last command if cut inside one, or not loaded if that is not allowed |
| `AofRewrite.LoadWhole` | redis-6.0.10/src/aof.c:828-917 | the same of an uncut log |
| `AofRewrite.FedRuns` | redis-6.0.10/src/aof.c:584-596 | what is fed runs each command in its own database, whatever was selected before |
| `AofRewrite.FeedRebuilds` | redis-6.0.10/src/aof.c:584-653 | a log that rebuilds the dataset still does after a feed |
| `AofRewrite.MarkRebuilds` | redis-6.0.10/src/multi.c:117-125 | and after the MULTI or EXEC of a transaction, which run nothing new |
| `AofRewrite.ExchangeKeeps` | redis-6.0.10/src/aof.c:1471-1503 | partial sends, child reads and the stop/acknowledge handshake lose and reorder no byte |
| `AofRewrite.ExchangeInv` | redis-6.0.10/src/aof.c:1471-1503 | so bytes fed since the fork are always the child's ++ the pipe's ++ the parent's |
| `AofRewrite.DoneFile` | redis-6.0.10/src/aof.c:1712-1822 | the file moved into place is the dump followed by every byte fed since the fork |
| `AofRewrite.StepInv` | redis-6.0.10/src/aof.c:1538-1559 | every step of parent and child keeps the invariant, failed rewrites and switching the log on and off included |
| `AofRewrite.FreshInv` | redis-6.0.10/src/server.c:3018-3027 | an empty server with an empty log meets the invariant |
| `AofRewrite.LoadGives` | redis-6.0.10/src/aof.c:828-917 | a log that rebuilds the dataset loads completely and gives it if and only if it does not end inside MULTI; otherwise exactly the commands of the open block are missing |
| `AofRewrite.LogRebuildsDataset` | redis-6.0.10/src/aof.c:584-653 | in every reachable state with the log on, loading file ++ buffer gives the dataset if and only if the log does not end inside MULTI, which needs a transaction in progress; the file alone always loads and runs the first of these commands |
| `AofRewrite.InsideTransaction` | redis-6.0.10/src/aof.c:839-849 | loaded inside a transaction, the log does not give the dataset |
| `AofRewrite.DiskPrefix` | redis-6.0.10/src/aof.c:828-917 | losing the end of a log loses only the last of the commands that run |
| `AofRewrite.SinceFork` | redis-6.0.10/src/aof.c:1621-1662 | what a rewrite remembers is what the steps since the fork fed |
| `AofRewrite.NothingLost` | redis-6.0.10/src/aof.c:1712-1822 | a completed rewrite, over every interleaving, yields dump ++ all bytes fed since the fork; loading that file gives the current dataset if and only if it does not end inside MULTI |
| `AofRewrite.FailedLeavesLog` | redis-6.0.10/src/aof.c:1823-1852 | a rewrite that failed or could not be moved into place leaves the log as it was; one that succeeded is the log |
| `AofRewrite.FlushKeepsBytes` | redis-6.0.10/src/aof.c:340-460 | a flush cut short keeps what reached the disk or takes it back, and loses no byte |
| `AofRewrite.RewriteCompletes` | redis-6.0.10/src/aof.c:1471-1503 | such completed rewrites exist from every server |
| `Acl.ApplyListGood` | redis-6.0.10/src/acl.c:793-879 | flag, password and pattern rules keep passwords distinct, valid and absent under NOPASS, patterns distinct and absent under ALLKEYS, and leave commands alone |
| `Acl.SetCategoryGood` | redis-6.0.10/src/acl.c:399-414 | category rules keep the command invariant |
| `Acl.ApplySubGood` | redis-6.0.10/src/acl.c:889-929 | subcommands exist only where the command bit is off, without duplicates up to case |
| `Acl.ApplyGood` | redis-6.0.10/src/acl.c:790-954 | no rule takes a user out of the reachable shape (one of on/off, ALLCOMMANDS only with all bits, bits of no command equal to the reserved one) |
| `AclMeaning.CategoryMeans` | redis-6.0.10/src/acl.c:399-414 | a category rule gives its bit to the non-module commands of the category, clears their subcommands, and changes no other command |
| `AclMeaning.RuleMeans` | redis-6.0.10/src/acl.c:790-954 | a rule that succeeds makes so what it says of a command, a subcommand, commands loaded later, a password, a pattern or a flag, and leaves the rest as it was |
| `AclMeaning.FaultIs` | redis-6.0.10/src/acl.c:790-954 | a rule fails exactly for its fault, with its error |
| `AclMeaning.LastRuleDecides` | redis-6.0.10/src/acl.c:790-954 | after any sequence of rules the last one that speaks of a fact decides it |
| `AclMeaning.PermitsMeans` | redis-6.0.10/src/acl.c:1113-1145 | so a command passes the check if and only if it is AUTH, or the last rule that speaks of it, or of it with its first argument, allows it |
| `AclMeaning.TouchMeans` | redis-6.0.10/src/acl.c:1147-1180 | and a key if and only if the last word on all keys, or on a pattern that matches, allows it |
| `AclMeaning.AcceptsMeans` | redis-6.0.10/src/acl.c:1007-1041 | and a password if and only if the user was last switched on and needs none or has its hash by the last word |
| `AclDescribe.BestIs` | redis-6.0.10/src/acl.c:496-524 | the chosen category differs least, agrees most among equals, and is the first such one |
| `AclDescribe.CountIs` | redis-6.0.10/src/acl.c:420-440 | the count of a category is the number of its commands, of modules too, whose bit has the value |
| `AclDescribe.ListsRebuilt` | redis-6.0.10/src/acl.c:596-635 | the printed flags, passwords and patterns apply without error to a new user and rebuild those fields |
| `AclDescribe.CategoriesApplied` | redis-6.0.10/src/acl.c:526-539 | the category rules act on any user as they did on the fake one |
| `AclDescribe.SubsApplied` | redis-6.0.10/src/acl.c:683-710 | the subcommand rules of a command rebuild its list in order |
| `AclDescribe.FixApplied` | redis-6.0.10/src/acl.c:542-569 | the rules for one command succeed and give it the user's bit and subcommands |
| `AclDescribe.FixesApplied` | redis-6.0.10/src/acl.c:542-569 | the pass over all commands settles exactly their bits |
| `AclDescribe.CommandsRebuilt` | redis-6.0.10/src/acl.c:449-588 | the command rules succeed on any user and rebuild bitmap and subcommands |
| `AclDescribe.FullRules` | redis-6.0.10/src/acl.c:467-475 | a user with all bits is described by +@all alone |
| `AclDescribe.DescribeRebuilds` | redis-6.0.10/src/acl.c:596-640 | the description applied to any user after a reset succeeds at every rule and rebuilds the user; ALLCOMMANDS comes back exactly when all bits are set |
| `AclDescribe.ReachableRebuilt` | redis-6.0.10/src/acl.c:790-954 | the same for every user made by any sequence of rules, failed ones included |
| `AclUsers.CommandIds.GetCommandID` | redis-6.0.10/src/acl.c:1067-1095 | a name keeps its ID whatever its case; a new one gets a distinct ID, never the reserved bit |
| `AclUsers.AclUser.SetCommandBitsForCategory` | redis-6.0.10/src/acl.c:399-414 | fails exactly on an unknown category, otherwise sets the bits of its non-module commands and clears their subcommands |
| `AclUsers.AclUser.CountCategoryBits` | redis-6.0.10/src/acl.c:420-440 | counts allowed and denied commands of a category |
| `AclUsers.AclUser.AddAllowedSubcommand` | redis-6.0.10/src/acl.c:683-710 | appends unless present up to case |
| `AclUsers.AclUser.SetUser` | redis-6.0.10/src/acl.c:790-954 | changes the user as the rule says, or returns its error and changes nothing |
| `AclUsers.AclUser.CheckUserCredentials` | redis-6.0.10/src/acl.c:1007-1041 | the loop over the passwords accepts exactly what the user accepts |
| `AclUsers.AclUser.CheckCommandPerm` | redis-6.0.10/src/acl.c:1113-1185 | the loops over subcommands, keys and patterns deny exactly what the user may not do, and report the first key it may not touch |
| `AclUsers.AclUser.BestCategory` | redis-6.0.10/src/acl.c:496-524 | the scan finds the best fit |
| `AclUsers.AclUser.DescribeCategories` | redis-6.0.10/src/acl.c:449-540 | the greedy loop terminates and the fake user is what its rules make |
| `AclUsers.AclUser.DescribeUserCommandRules` | redis-6.0.10/src/acl.c:449-588 | the final bitmap comparison never fails |
| `AclUsers.AclUser.DescribeUser` | redis-6.0.10/src/acl.c:596-640 | prints the description that rebuilds the user |
| `Blocked.RemovedTwoWay` | redis-6.0.10/src/blocked.c:601-635 | taking a client off all its keys keeps the client/key index two-way |
| `Blocked.UnblockInv` | redis-6.0.10/src/blocked.c:146-167 | unblocking keeps index, counters and queues right and lowers the count |
| `Blocked.SignalInv` | redis-6.0.10/src/blocked.c:644-665 | a key enters the ready queue at most once |
| `Blocked.BlockInv` | redis-6.0.10/src/blocked.c:556-597 | blocking on keys, repeated ones included, keeps index and counters right |
| `Blocked.ServeOneInv` | redis-6.0.10/src/blocked.c:240-258 | serving a client keeps the invariant and unblocks it |
| `Blocked.ServeLoop` | redis-6.0.10/src/blocked.c:214-312 | looking at as many waiters as there were at first, for lists and for sorted sets, keeps the invariant, blocks nobody, and makes no key ready unless a client was served |
| `Blocked.HandleKey` | redis-6.0.10/src/blocked.c:486-522 | one ready key: blocked clients decrease, or the queue does |
| `Blocked.Handle` | redis-6.0.10/src/blocked.c:474-527 | handling terminates although serving can make keys ready, and leaves the queue empty |
| `Blocked.ServeOneConserves` | redis-6.0.10/src/t_list.c:745-793 | a popped element is delivered, moved to the target, or back in its place |
| `Blocked.HandleConserves` | redis-6.0.10/src/blocked.c:474-527 | handling neither creates nor loses an element |
| `BlockedOrder.LoopQueue` | redis-6.0.10/src/blocked.c:214-312 | the loop in closed form: how many waiters it looks at is known beforehand; those of the object's kind are served in turn, the others go behind the rest, and it stops early only without elements |
| `BlockedOrder.ServeKeyOrdered` | redis-6.0.10/src/blocked.c:462-473 | serving a key leaves every queue in blocking order if and only if no other kind of waiter is on both sides of the last one looked at |
| `BlockedOrder.FirstComeFirstServed` | redis-6.0.10/src/blocked.c:274-277 | from queues in blocking order, whoever is served blocked before everybody of the kind who goes on waiting, and others wait only when no element is left |
| `Blocked.LoopAwake` | redis-6.0.10/src/blocked.c:214-312 | after the loop the object is empty or has no waiter left, and other keys stay queued when they must |
| `Blocked.NoLostWakeup` | redis-6.0.10/src/blocked.c:474-527 | after handling no key has both an element and a client waiting for one |
| `BlockedRuns.StepInv` | redis-6.0.10/src/blocked.c:556-665 | every step keeps index, counters and queues right |
| `BlockedRuns.SetObjectAwake` | redis-6.0.10/src/db.c:250-259 | storing an object keeps every wakeup if and only if the key is new, nobody waits for that kind of object there, or the key is about to be served |
| `BlockedRuns.StepHealthy` | redis-6.0.10/src/blocked.c:556-665 | a step (blocking, timeouts, storing, changing and deleting objects, signals, handling) keeps every wakeup if and only if it is not such a replacement |
| `BlockedRuns.RunHealthy` | redis-6.0.10/src/blocked.c:529-546 | a run keeps them at all times if and only if all its steps do |
| `BlockedRuns.NobodyWaitsInVain` | redis-6.0.10/src/blocked.c:529-546 | so after handling at the end of such a run no client waits at a key that has an element for it |
| `BlockedRuns.StepKept` | redis-6.0.10/src/blocked.c:146-205 | no step but its own changes what a client waits for except by waking it, and then it is queued to run again |
| `BlockedRuns.WaitsAsAsked` | redis-6.0.10/src/blocked.c:556-597 | after any run in which it does not block again, a client waits exactly as it asked or not at all |
| `BlockedRuns.BlockedThenServed` | redis-6.0.10/src/t_list.c:745-793 | over any run, a client that is still blocked when served gets the element from the end it asked for, or has it put at the head of the target it asked for, or an error that leaves everything in place; either way it is woken |
| `BlockedRuns.WaitingInVain` | redis-6.0.10/src/sort.c:572-576 | otherwise a run leaves a client waiting at a list with elements, however the list changes later |
| `BlockedRuns.HandleKeyOrdered` | redis-6.0.10/src/blocked.c:486-522 | handling one ready key serves in blocking order, and keeps that order if and only if it is fair |
| `BlockedRuns.StepOrdered` | redis-6.0.10/src/blocked.c:556-665 | every other step keeps the blocking order of all queues |
| `BlockedRuns.FairRunInTurn` | redis-6.0.10/src/blocked.c:462-473 | in a run of fair handling every key always serves first come, first served |
| `BlockedRuns.UniformFair` | redis-6.0.10/src/blocked.c:466-473 | a key whose waiters are all of one kind is fair, whatever object it gets |
| `BlockedRuns.OneUseInTurn` | redis-6.0.10/src/blocked.c:471-473 | so in every run that uses each key for one kind of object clients are served in the order they blocked |
| `BlockedRuns.MixedOvertakes` | redis-6.0.10/src/blocked.c:283-293 | with two kinds at a key, a run puts a client that waits for a list before one that blocked earlier |
| `BlockedServer.Server.UnblockClientWaitingData` | redis-6.0.10/src/blocked.c:601-635 | removes the client from exactly its keys' lists, which all exist, and drops empty lists |
| `BlockedServer.Server.UnblockClient` | redis-6.0.10/src/blocked.c:146-167 | refines unblocking |
| `BlockedServer.Server.SignalKeyAsReady` | redis-6.0.10/src/blocked.c:644-665 | refines signalling |
| `BlockedServer.Server.BlockForKeys` | redis-6.0.10/src/blocked.c:556-597 | refines blocking |
| `BlockedServer.Server.ServeClientBlockedOnList` | redis-6.0.10/src/t_list.c:745-793 | hands over or moves the value, creating and signalling a missing target; fails exactly on a target of another type |
| `BlockedServer.Server.ServeClientsBlockedOnListKey` | redis-6.0.10/src/blocked.c:214-269 | the loop with rotation, service and undone pops refines serving a key, and never looks at an emptied waiter list |
| `BlockedServer.Server.GenericZpop` | redis-6.0.10/src/t_zset.c:3134-3236 | pops from the right end, and deletes an emptied sorted set |
| `BlockedServer.Server.ServeClientsBlockedOnSortedSetKey` | redis-6.0.10/src/blocked.c:274-312 | the loop that counts elements down and lets the last pop delete the key refines serving a key |
| `BlockedServer.Server.HandleClientsBlockedOnKeys` | redis-6.0.10/src/blocked.c:474-527 | the two nested loops with their swapped lists refine a single queue |
| `Bitfield.IncrUnsignedIsFit` | redis-6.0.10/src/bitops.c:288-323 | for every in-range value, increment and width 1..63, INCRBY is integer addition with wrap, clamp or failure, and overflow is reported exactly when the sum leaves the range |
| `Bitfield.IncrSignedIsFit` | redis-6.0.10/src/bitops.c:325-377 | the same for signed widths 1..64, despite 64-bit intermediates |
| `Bitfield.SetUnsignedExact` | redis-6.0.10/src/bitops.c:1086-1092 | SET follows integer semantics if and only if it does not saturate a negative argument |
| `Bitfield.SetSignedExact` | redis-6.0.10/src/bitops.c:1056-1061 | SET follows integer semantics if and only if it does not saturate with max - value beyond 64 bits |
| `Bitfield.SaturatesToWrongEnd` | redis-6.0.10/src/bitops.c:325-335 | SET i8 of the least 64-bit integer saturates to 127 |
| `Bitfield.FitMeans` | redis-6.0.10/src/bitops.c:288-377 | the reference semantics: WRAP stores the only integer of the range equal modulo 2^bits, SAT the nearest one, FAIL none |
| `BitfieldCommand.SetUnsignedBitfield` | redis-6.0.10/src/bitops.c:209-222 | the field gets the low digits of the value, every other bit stays |
| `BitfieldCommand.SetSignedBitfield` | redis-6.0.10/src/bitops.c:224-227 | the same in two's complement |
| `BitfieldCommand.GetUnsignedBitfield` | redis-6.0.10/src/bitops.c:229-241 | the number the field's bits spell, without losing any in 64 bits |
| `BitfieldCommand.GetSignedBitfield` | redis-6.0.10/src/bitops.c:243-263 | the field read as two's complement |
| `BitfieldCommand.BytesAreBigEndian` | redis-6.0.10/src/bitops.c:229-241 | a field of whole bytes is the number these bytes spell, most significant first |
| `BitfieldCommand.SignBit` | redis-6.0.10/src/bitops.c:243-263 | a signed field is negative exactly if its first bit is set, by 2^bits |
| `BitfieldCommand.WriteRead` | redis-6.0.10/src/bitops.c:209-263 | what was written is read back modulo 2^bits, in the range of the type, for every offset and width |
| `BitfieldCommand.WriteElsewhere` | redis-6.0.10/src/bitops.c:209-222 | fields that do not overlap are unchanged |
| `BitfieldCommand.GrownField` | redis-6.0.10/src/bitops.c:480-493 | growing the string changes no field |
| `BitfieldCommand.PreparedInside` | redis-6.0.10/src/bitops.c:978-982 | every write of the command lies inside the grown string |
| `BitfieldCommand.NoMoreRoom` | redis-6.0.10/src/bitops.c:978-982 | a string that grew ends with a byte that is written to |
| `BitfieldCommand.StringObject.GetField` | redis-6.0.10/src/bitops.c:1104-1137 | the nine-byte window reads the zero-extended string |
| `BitfieldCommand.StringObject.StoreSigned` | redis-6.0.10/src/bitops.c:1043-1076 | SET and INCRBY of a signed field: the stored integer, the reply, and nothing on FAIL |
| `BitfieldCommand.StringObject.StoreUnsigned` | redis-6.0.10/src/bitops.c:1077-1102 | the same for an unsigned field |
| `BitfieldCommand.StringObject.Grow` | redis-6.0.10/src/bitops.c:480-493 | pads with zeros up to the length asked for |
| `BitfieldCommand.StringObject.BitfieldGeneric` | redis-6.0.10/src/bitops.c:1026-1137 | the whole command, any list of operations, refines integer semantics on fields |
| `BitfieldCommand.StoredIsRead` | redis-6.0.10/src/bitops.c:1043-1102 | a later GET replies what an operation stored; FAIL leaves the string as it was |
| `BitfieldCommand.OthersKept` | redis-6.0.10/src/bitops.c:1043-1102 | an operation changes no field that does not overlap its own |
| `BitfieldCommand.Replies` | redis-6.0.10/src/bitops.c:1043-1102 | SET replies what a GET before it would, INCRBY what a GET after it would, and null exactly when FAIL stops a value out of range |
| `BitfieldCommand.ExecAppend` | redis-6.0.10/src/bitops.c:1026-1137 | operations of a command run one after another, each on what the ones before it left |
| `BitfieldCommand.WrittenThenRead` | redis-6.0.10/src/bitops.c:1026-1137 | in one command a GET replies what was stored in its field, whatever writes to other fields stand between |
| `Popcount.PairStep` | redis-6.0.10/src/bitops.c:66-66 | the first step leaves the counts of bit pairs, without borrow |
| `Popcount.NibbleStep` | redis-6.0.10/src/bitops.c:67-67 | the second step adds neighbouring pairs, without overflow |
| `Popcount.ByteStep` | redis-6.0.10/src/bitops.c:80-86 | the third step leaves the counts of bytes although the mask comes after the addition |
| `Popcount.TopByte` | redis-6.0.10/src/bitops.c:80-86 | the multiplication sums four byte counts of at most 56 without overflow |
| `Popcount.KeepIsAnd` | redis-6.0.10/src/bitops.c:66-86 | selecting every other group of digits is a bitwise AND with the mask of that group, for every word and group width |
| `Popcount.MasksAre` | redis-6.0.10/src/bitops.c:66-86 | with 0x55555555, 0x33333333 and 0x0F0F0F0F for the three widths |
| `Popcount.TableCounts` | redis-6.0.10/src/bitops.c:44-44 | the table has the number of set bits of every byte |
| `Popcount.Count28` | redis-6.0.10/src/bitops.c:54-87 | seven words count their 28 bytes |
| `Popcount.RedisPopcount` | redis-6.0.10/src/bitops.c:40-92 | for every length and alignment, the sum over the bytes |
| `Popcount.CountIsBitByBit` | redis-6.0.10/src/bitops.c:36-40 | which is the number of set bits taken one by one |
| `Bitpos.SkippedWord` | redis-6.0.10/src/bitops.c:132-142 | a word is the skip word exactly when all its bytes are skip bytes |
| `Bitpos.LoadWord` | redis-6.0.10/src/bitops.c:144-158 | the last bytes form a big-endian word padded with zeros |
| `Bitpos.ScanWord` | redis-6.0.10/src/bitops.c:168-185 | finds the first bit sought; the panic at the end is unreachable |
| `Bitpos.RedisBitpos` | redis-6.0.10/src/bitops.c:101-186 | the least position of the bit in the zero-extended string, at most count*8; -1 only when a one is sought and there is none |
| `Bitop.WordIsBytes` | redis-6.0.10/src/bitops.c:664-730 | a word operation is the byte operation on each byte |
| `Bits.BitwiseSums` | redis-6.0.10/src/bitops.c:664-730 | on words, OR and AND add up to the sum, XOR and twice AND too, and NOT is the distance to all ones |
| `Bits.DeMorgan` | redis-6.0.10/src/bitops.c:664-730 | OR is the NOT of the AND of the NOTs |
| `Bits.XorIs` | redis-6.0.10/src/bitops.c:664-730 | XOR is OR without AND, and zero on equal words |
| `Bitop.FoldedBits` | redis-6.0.10/src/bitops.c:733-746 | the byte fold is the bit fold |
| `Bitop.FoldedMeans` | redis-6.0.10/src/bitops.c:733-746 | a bit of the result is set where all sources have it for AND, some for OR, an odd number for XOR, and the one source has not for NOT |
| `Bitop.Lengths` | redis-6.0.10/src/bitops.c:624-656 | maxlen is the longest source, minlen bounds all of them, missing keys count as empty |
| `Bitop.FastPath` | redis-6.0.10/src/bitops.c:664-730 | four words at a time give the folded bytes |
| `Bitop.BitopCommand` | redis-6.0.10/src/bitops.c:629-747 | the result has the longest source's length, and each bit is the operation on the zero-padded sources' bits |
| `Bio.StepInv` | redis-6.0.10/src/bio.c:131-258 | every step of every thread keeps mutual exclusion, list order, the counter and the wakeup condition |
| `Bio.JobsFinishInOrder` | redis-6.0.10/src/bio.c:182-258 | in every run jobs finish once in creation order, the worker's node is the list head, the counter is the list length when the lock is free, and reading zero means all jobs created so far are finished |
| `Bio.NoJobForgotten` | redis-6.0.10/src/bio.c:131-143 | with jobs in the list and the lock free the worker is not asleep unsignalled |
| `Bio.ToldIsLeft` | redis-6.0.10/src/bio.c:230-260 | a thread told how many jobs are left finds at least the others finished, in order; told zero, all that were created |
| `Bio.NobodyWaitsForNothing` | redis-6.0.10/src/bio.c:248-260 | with the lock free, who waits for the next job unwoken has a job to wait for, and the worker is not asleep unsignalled |
| `Bio.OneStepOnly` | redis-6.0.10/src/bio.c:248-260 | a woken thread leaves at its next turn with the number of jobs then left, without waiting again |
| `Bio.CreateQueues` | redis-6.0.10/src/bio.c:131-143 | a created job is the last of the list, is counted, and wakes a sleeping worker |
| `Adlist.List.AddNodeHead` | redis-6.0.10/src/adlist.c:89-107 | prepends to the sequence, links consistent |
| `Adlist.List.AddNodeTail` | redis-6.0.10/src/adlist.c:115-133 | appends to the sequence |
| `Adlist.List.InsertNode` | redis-6.0.10/src/adlist.c:135-162 | inserts before or after any node, ends included |
| `Adlist.List.DelNode` | redis-6.0.10/src/adlist.c:168-181 | removes any node; the node keeps its own links |
| `Adlist.List.Index` | redis-6.0.10/src/adlist.c:316-328 | the node at a positive or negative index, null outside |
| `Adlist.List.RotateTailToHead` | redis-6.0.10/src/adlist.c:331-343 | the last node becomes the first |
| `Adlist.List.RotateHeadToTail` | redis-6.0.10/src/adlist.c:346-358 | the first node becomes the last |
| `Adlist.List.Join` | redis-6.0.10/src/adlist.c:362-377 | concatenates, empty lists included, and leaves the other list empty and valid |
| `Adlist.List.Empty` | redis-6.0.10/src/adlist.c:57-72 | frees every value once, in order |
| `Adlist.ListIter.Next` | redis-6.0.10/src/adlist.c:230-241 | returns the present node and moves past it |
| `Adlist.VisitFromHead` | redis-6.0.10/src/adlist.c:206-241 | deleting returned nodes while iterating visits every original node once, in order, and keeps the others |
| `Adlist.VisitFromTail` | redis-6.0.10/src/adlist.c:206-241 | the same backwards |
| `Adlist.Dup` | redis-6.0.10/src/adlist.c:251-281 | copies value by value, or fails exactly when some value cannot be copied |
| `Adlist.SearchKey` | redis-6.0.10/src/adlist.c:291-309 | the first matching node |
| `Crc16.ShiftedByXor` | redis-6.0.10/src/crc16.c:33-44 | multiplication by x^n modulo the generator is linear |
| `Crc16.OneBy16` | redis-6.0.10/src/crc16.c:39-39 | x^16 is x^12 + x^5 + 1 |
| `Crc16.FedIsDivision` | redis-6.0.10/src/crc16.c:33-44 | the register fed bit by bit holds the remainder of the message times x^16 |
| `Crc16.TableIs` | redis-6.0.10/src/crc16.c:46-79 | entry i of the table is i times x^16 modulo the generator, for all 256 entries |
| `Crc16.ByteStepFeeds` | redis-6.0.10/src/crc16.c:86-86 | a table step feeds eight bits |
| `Crc16.ComputeCrc16` | redis-6.0.10/src/crc16.c:82-88 | for every byte string, the remainder of the message times x^16 divided by x^16+x^12+x^5+1 |
| `HashSlot.KeyHashSlot` | redis-6.0.10/src/cluster.c:737-756 | a slot below 16384: the low 14 bits of the CRC of the hashed part |
| `HashSlot.SameTagSameSlot` | redis-6.0.10/src/cluster.c:730-756 | any two keys with the same non-empty tag in their first braces are in the same slot, which is that of the tag |
| `HashSlot.HashedWhole` | redis-6.0.10/src/cluster.c:737-756 | without a non-empty tag the whole key is hashed |

## Left out

- The Node.js application around the server (controllers, routes, services): plumbing over libraries.
- Cluster: CLUSTER RESET HARD, failure detection, migration of replicas, the message format, and saving the configuration other than the slot ranges. Packets from unknown nodes are dropped by the source and are not modelled.
- Cluster: slot bitmaps are sequences of bits; packing eight to a byte, and the text form of the slot ranges and of node lines, are not modelled.
- Election: who serves slots is a fixed set known to all nodes, as the quorum is read from the local view. What a node thinks of the others changes in any way at any time, except that it remembers when it voted.
- SlotTable.ClusterState.UpdateSlotsConfigWith: what a demoted node does next (replicating from the new owner, deleting keys) is only named in the outcome.
- Append only file: the translation of EXPIRE, SETEX and SET with a time to live into absolute times; a feed gets the commands as they are to be logged.
- Append only file: the RDB preamble, checksums of the rewrite, fsync scheduling and postponement (a parameter), and logging. The dump of the dataset is any sequence of commands that rebuilds it.
- Access control lists: splitting a line into rules, the copies of users, and which arguments of a command are keys (a parameter, as is the matching of patterns). Rules are tokens; the password hash is an arbitrary function with valid results; fewer commands exist than command bits.
- Access control lists: the bitmap is a sequence of bits, not of 64-bit words.
- Blocked clients: streams and modules as reasons to be served (such clients stay in their queues), WAIT, replies other than the outcome, and propagation to replicas.
- Blocked clients: a sorted set is the sequence of its elements; scores and ties are not modelled. SWAPDB is not among the steps. The time at which a client blocked is kept for the statements only.
- BlockedServer.Server.HandleClientsBlockedOnKeys: the ready key leaves the local list before it is served instead of after, which nothing in between can observe.
- Bit operations: parsing of arguments and offsets, integer-encoded strings, wrong types, and the ranges of BITCOUNT and BITPOS.
- Bitfield.CheckSigned: signed overflow of `max - value`, undefined in C, is taken to wrap around.
- Background jobs: what a job does, and killing the threads; each job type has its own lock, so one type is modelled.
- Linked list: freeing memory, running out of it, and the deletion of nodes other than the one just returned while iterating.
