# PirateShip in Dafny

PirateShip is a consensus node built as a pipeline of single-threaded components joined by first-in first-out
channels. This project models the components that keep state and proves what holds over their whole runs, and what
holds when they are put together.

Each component that updates fields in place is a class. Its methods are proved equal to a step function on plain
values, and the theorems are about that function and its runs: `Run` folds the step function over a list of events,
and `Serve` shows that the class follows `Run`.

| file | what it models |
|---|---|
| `Basics`, `Chain`, `Leaders`, `Quorums` | blocks and hash links, round-robin leaders, quorum arithmetic |
| `LogServer`, `Backfill` | memory suffix, read cache and store as one chain; hints and forks between two log servers |
| `TwoPhaseStore` | replicas and coordinators of the two-phase store, with lossy FIFO channels |
| `BatchProposer`, `Sequencer`, `ReplyHandler`, `ReplyAccounting`, `ReplyLedger`, `ReplyHistory`, `Application` | the path from request to receipt |
| `Pipeline`, `EndToEnd` | compositions: proposer, sequencer and reply handler; the same with the application |
| `ProducerConsumer`, `Collection` | compositions: sequencer and log server; staging, application and log server |
| `NackExchange` | composition: fork receiver and the leader's log server |
| `Serialization`, `CryptoService` | block bytes, piecewise hashing, verification |
| `ForkReceiver`, `Pacemaker` | fork validation and splitting; view-change quorums |
| `ClientWorker` | the token loop between generator and checker |
| `Framing` | buffered writer and chunked reader over arrays |
| `ModularArithmetic`, `Polynomials`, `Shamir` | interpolation over a prime field; secret sharing |

The feature set is `platforms`, `dynamic_sign`, `round_robin_leader` and `view_change`.

SHA-512 (section 6.4 of FIPS 180-4) is collision-free: in `Chain` a digest is a constructor applied to the block, in
`CryptoService` the hash is a function parameter, with injectivity required only where it is used. Ed25519 (section
5.1 of RFC 8032) is a sign/verify pair whose own signatures verify. The protobuf body encoding is any encoding with
`decode(encode(x)) == x`.

Where the code asserts or relies on something, the models say so in predicates named `Legal`, `CanProcess`, `Enabled`
or `Valid`: acknowledgement lengths match their batches, garbage collection stays below the tip, a read returns at
least one byte, and so on. Two compositions discharge such conditions from the components on the other side of the
channels. `EndToEnd.WiredIsLegal` shows that the reply handler's assertions hold, and that its channels and hashes are
all different, in every run of proposer, sequencer, application and reply handler with a channel per request and views
that are opened once and do not go back. `Collection.JointRunIsLegal` shows
that every command the log server takes is legal in the runs of staging, application and log server, changes of view
and rollbacks to any block included, although the application collects on word of commits that the log server may hear
of later. It asks two things of a run: a block that staging accepts meets what the log server still has in its place,
which `ResentBlockMeetsIff` reduces to the first uncommitted block, and the log server looks at its commands before it
collects. `Collection.ServeJointRun` puts the class itself through such a run.

Some things the code's comments or shape suggest are false in general. The models keep the code as it is, give an input
at which each fails, and the exact condition under which it holds:

| suggested | fails in | holds exactly when |
|---|---|---|
| listed certificates have the current view | `GoingBackKeepsStaleCertificate` | `ViewChangeExact`: the view does not go back, or none is listed |
| final keys keep the coordinators of the two-phase store apart | `ColonBreaksKeys`, `ClashLosesCommand` | `FinalKeyInjective`: no name is another name, a colon and more |
| view-change openings are by n - u nodes, so any two share one | `OneNameOpens`, `OpeningsNeedNotMeet` | `OpeningCountsNodes`: the senders have different names, all in the list |
| an accepted certificate has the minimum number of signers | `OneSignerAccepted` | `EnoughSignersIff`: its signatures outnumber the minimum by the repeated ones; `DifferentNamesSuffice` |
| after a rollback a new leader's blocks are taken in | `RollbackKeepsTooMuch`, `RestartAtCommittedRefused` | `RollbackRestarts`: the parent is past the byzantine commit index, or the tip already |
| the log server takes in what staging accepts | `StaleBlockStays` | `AcceptAgreesIff`, `ResentBlockMeetsIff`: the first uncommitted block sent again is the one the log server has kept, if it kept one |
| the byzantine commit index is never past the commit index | `ForkOvertakesCommit` | `InOrderIff`: each byzantine commit names only blocks up to the commit index of its moment |
| a frame reads back | `UnalignedFrameMisreads` | `FrameRoundTrip`: the used length is the vector's length modulo 2^32 |
| a block reads back | `ZeroSignatureIsLost` | `PrefilledRoundTrip`: its signature is not all zeros |
| a new block serializes back to the same bytes | `MarkedBlockChangesBytes` | `NascentRoundTrip`: it was not already marked unsigned |
| a prepared block is accepted | `ZeroSignatureTurnedAway` | `PreparedVerifiesExactly` |
| collecting keeps the log server's tip | `GcCanLoseTip`, `HastyCollectionTakesTip` | `GcKeepsTip`: it stops below the tip |
| a rollback moves the tip to the block asked for | `RollbackCanLoseTip` | `RollbackMovesTip`: that block is still in memory |

## Model

| member | source | states |
|---|---|---|
| `LogServers.CachePut` | src/consensus/logserver.rs:55-66 | a put keeps or adds only true entries, drops none but the lowest of a full cache, and the new block is in the cache unless the cache is full of higher ones |
| `LogServers.ReadCache.Get` | src/consensus/logserver.rs:36-53 | a hit exactly when cached; otherwise the cached block with the least higher number; a miss exactly when all are lower |
| `LogServers.ReadCache.Put` | src/consensus/logserver.rs:55-66 | the cache becomes `CachePut` of the old one and never exceeds its working set |
| `LogServers.GcKeepsTip` | src/consensus/logserver.rs:155-159 | collecting up to g keeps the tip if and only if g is below it |
| `LogServers.RollbackMovesTip` | src/consensus/logserver.rs:445-450 | retaining blocks up to n makes n the tip if and only if n is still in memory |
| `LogServers.GcCanLoseTip` | src/consensus/logserver.rs:155-159 | collecting up to the only block leaves an empty log, whose tip counts as 0 |
| `LogServers.RollbackCanLoseTip` | src/consensus/logserver.rs:445-450 | a rollback to a collected block leaves an empty log, whose tip counts as 0 |
| `LogServers.StorageNeverLies` | src/utils/storage_service.rs:68-74 | a block read from the store has the hash it was asked for; a missing or corrupted entry is an error, and nothing else is |
| `LogServers.StoredIsFound` | src/utils/storage_service.rs:76-82 | a stored block can be read under its hash, and nothing else changes |
| `LogServers.QueriesAnswered` | src/consensus/logserver.rs:131-175 | queries change nothing and are answered from the chain: block n exactly when 1 <= n <= tip, whether block n has a hash, its hints, its fork |
| `LogServers.LogServer.constructor` | src/consensus/logserver.rs:103-119 | a fresh server stands for the empty chain |
| `LogServers.LogServer.FindIndex` | src/consensus/logserver.rs:189 | binary search finds block n in the memory suffix |
| `LogServers.LogServer.GetBlock` | src/consensus/logserver.rs:178-193 | returns block n of the full chain, wherever it lives, and nothing outside 1..tip |
| `LogServers.LogServer.GetGcedBlock` | src/consensus/logserver.rs:195-226 | the walk over parent hashes from cache or memory ends at block n of the full chain; cache stays bounded and true |
| `LogServers.LogServer.CheckHash` | src/consensus/logserver.rs:346-362 | true for n = 0, otherwise exactly when block n of the chain has that hash |
| `LogServers.LogServer.GetHints` | src/consensus/logserver.rs:363-423 | the loop with growing jumps yields `Hints` of the full chain |
| `LogServers.LogServer.FillFork` | src/consensus/logserver.rs:304-342 | the downward loop yields `FillDown` of the full chain; an empty range is refused |
| `LogServers.LogServer.HandleNewBlock` | src/consensus/logserver.rs:429-442 | memory grows by the block exactly when it is next and names the tip, in every state; when the block is in the store, the full chain does the same and stays contiguous and linked |
| `LogServers.LogServer.HandleRollback` | src/consensus/logserver.rs:445-454 | log and cache keep the blocks up to the clamped number, in every state; unless that goes into collected blocks, the full chain is cut there and the layers stay consistent with it |
| `LogServers.LogServer.GarbageCollect` | src/consensus/logserver.rs:155-159 | memory keeps the blocks past the given number, in every state; as long as one is left, the full chain is unchanged |
| `LogServers.LogServer.Handle` | src/consensus/logserver.rs:131-175 | from any consistent state a legal command changes and answers as the plain chain does |
| `LogServers.LogServer.Serve` | src/consensus/logserver.rs:121-175 | over every run of commands the layered server gives, response by response, what one plain sequence of blocks gives |
| `Chain.AgreementIsPrefix` | src/consensus/logserver.rs:428-442 | two hash-linked chains that share block n share everything before it |
| `Backfill.FillForkExact` | src/consensus/logserver.rs:302-342 | the fork is blocks k..last in order, k one past the highest matching hint in range, or max(first, 1) when none matches |
| `Backfill.FillForkPastTip` | src/consensus/logserver.rs:313-320 | a range that ends past the tip yields nothing |
| `Backfill.HintsShape` | src/consensus/logserver.rs:363-417 | hints are the chain's own numbers and hashes, strictly increasing, start at the requested block and end at the tip |
| `Backfill.ScheduleBounds` | src/consensus/logserver.rs:383-402 | the jump never exceeds max(1000, distance covered), and hints from any point of the walk are bounded by the level to reach |
| `Backfill.HintCountBound` | src/consensus/logserver.rs:363-417 | a gap of at most 10000 (10^k - 1) / 9 blocks gives at most 10 k + 1 hints |
| `Backfill.BackfillExact` | src/consensus/logserver.rs:228-268 | any non-empty answer is a segment of the responder's chain, and its parent is accepted if and only if the chains agree just below the range; then they agree on all below |
| `Backfill.BackfillAccepted` | src/consensus/fork_receiver.rs:432-482 | if the chains agree at the first block asked for, or it is 0, every non-empty answer has a parent the requester accepts, and completes its chain |
| `Backfill.EmptyAnswerMeansCaughtUp` | src/consensus/logserver.rs:322-327 | an empty answer means the requester already has the responder's chain up to the end of the range |
| `Backfill.CaughtUpAfterBackfill` | src/consensus/logserver.rs:304-342 | requester's prefix plus the fork is the responder's chain up to the end of the range |
| `Backfill.NackRoundsConverge` | src/consensus/fork_receiver.rs:389-419 | as far as the parent's hash goes, the exchange of nacks and longer forks ends within f / 100 + 1 rounds with a fork whose parent is known and that completes the responder's chain |
| `NackExchange.ExchangeSettles` | src/consensus/fork_receiver.rs:178-253 | with the receiver's own steps and all its reasons to nack: when the leader's views open unstable and the receiver's log is not ahead of its view, within f / 100 + 1 nacks it holds a fork of the leader's chain that passes the tests on prefix and views |
| `NackExchange.AgreedForkPasses` | src/consensus/fork_receiver.rs:218-253 | a fork that starts where the two chains agree passes both tests, and with nothing remembered no other fork of the leader's chain does |
| `NackExchange.SegmentFollowsIff` | src/consensus/fork_receiver.rs:432-482 | a fork of the leader's chain has a common prefix with the receiver if and only if its parent is the one remembered or the chains agree just below it |
| `NackExchange.ExchangePassedOn` | src/consensus/fork_receiver.rs:178-329 | what the exchange ends with is passed on if and only if no stable block of it opens a configuration |
| `Quorums.PlatformQuorums` | src/consensus/pacemaker.rs:84-121 | for every node set under a valid configuration: n - 2u is positive, two sets of n - u share at least n - 2u, and each meets every majority |
| `Quorums.ConfigBoundTight` | src/config/mod.rs:103-110 | the bound is exact: with more unresponsive nodes than allowed, two sets of n - u nodes can be disjoint |
| `Quorums.ThirdsQuorums` | src/consensus/pacemaker.rs:93-112 | without platforms two sets of n - f share n - 2f >= f nodes, and f + 1 exactly when 3 does not divide n |
| `Leaders.EveryNodeLeadsOnce` | src/config/mod.rs:85-99 | among any n consecutive views each place in the list comes up exactly once |
| `Leaders.LeaderIsInTurn` | src/config/mod.rs:85-99 | the leader of view v is entry (v - 1) mod n of the node list |
| `Leaders.EveryNodeLeadsOneView` | src/config/mod.rs:85-99 | in a list without repeats each node leads exactly one of any n consecutive views |
| `TwoPhaseStore.Replica.HandlePhaseMessage` | src/consensus/extra_2pc.rs:134-221 | malformed messages change nothing and fail; a write overwrites when the disk does; a confirm succeeds exactly on the stored value |
| `TwoPhaseStore.FinalKeyInjective` | src/consensus/extra_2pc.rs:99-100 | for all names: no keys of two nodes share a final key, and a node's own keys have different ones, if and only if neither name continues the other after a colon |
| `TwoPhaseStore.PlainKeysInjective` | src/consensus/extra_2pc.rs:99-100 | name and key are recovered from the final key whenever the key holds no colon, whatever the names |
| `TwoPhaseStore.OrdinaryNamesUseAnyKey` | src/consensus/extra_2pc.rs:99-100 | where no name continues another, every key is fit for use |
| `TwoPhaseStore.ClashLosesCommand` | src/consensus/extra_2pc.rs:93-132 | a run with two names of which one continues the other: a command finishes, and later no replica holds its value |
| `TwoPhaseStore.ColonBreaksKeys` | src/consensus/extra_2pc.rs:99-100 | two different nodes, one name continuing the other, produce the same final key |
| `TwoPhaseStore.CounterCountsAttempts` | src/consensus/extra_2pc.rs:93-110 | over every run the counter of a key is the number of attempts under it, failed ones included, so no stamp is handed out twice |
| `TwoPhaseStore.BeginStamps` | src/consensus/extra_2pc.rs:93-116 | a command is stamped with the next count, stored locally under the final key and sent to every other node |
| `TwoPhaseStore.PhaseIsSent` | src/consensus/extra_2pc.rs:112-130 | a retried phase and the second phase go to every other node under a fresh tag, with no acknowledgement counted yet |
| `TwoPhaseStore.BeginKeeps` | src/consensus/extra_2pc.rs:93-110 | stamping, storing locally and broadcasting keeps the invariant and lowers no index |
| `TwoPhaseStore.DeliverKeeps` | src/consensus/extra_2pc.rs:183-221 | delivering a phase message to a replica keeps the invariant and lowers no index |
| `TwoPhaseStore.FinishHasMajority` | src/consensus/extra_2pc.rs:118-126 | when the second phase has its majority less one, a majority of replicas holds the stamp |
| `TwoPhaseStore.FinishKeeps` | src/consensus/extra_2pc.rs:118-126 | finishing a command keeps the invariant and lowers no index |
| `TwoPhaseStore.StepKeeps` | src/consensus/extra_2pc.rs:93-329 | every step of every node, with loss and retries, keeps the invariant, and no replica's stored index decreases, as long as no node starts a command under a key it shares |
| `TwoPhaseStore.FinishedCommandsSurvive` | src/consensus/extra_2pc.rs:93-132 | once a command has finished, in every later state of every run without shared keys each majority holds a replica with an index at least its own, and the same value when the index is its own |
| `BatchProposers.EachRequestInOneBatch` | src/consensus/batch_proposal.rs:197-231 | over every run the proposed batches, then the open one, are exactly the logged requests in order of arrival, each beside its own channel |
| `BatchProposers.BatchSizeBounded` | src/consensus/batch_proposal.rs:225-229 | no batch exceeds the configured size, and it has as many channels as transactions |
| `BatchProposers.CommandsFollowed` | src/consensus/batch_proposal.rs:164-196 | leader and leave to propose are those of the last command |
| `BatchProposers.ProposesIff` | src/consensus/batch_proposal.rs:197-231 | over every run the open batch goes out, whole, exactly when it is full, or the timer ticks or a request comes late while proposing is allowed |
| `BatchProposers.SentAtOnce` | src/consensus/batch_proposal.rs:197-224 | over every run unlogged requests and probes go straight on, and a request to a node that does not lead is pointed to the leader last named |
| `BatchProposers.FlattenAt` | src/consensus/batch_proposal.rs:263-274 | transaction and channel i of batch k are those of arrival number offset(k) + i |
| `BatchProposers.BatchProposer.ProposeNewBatch` | src/consensus/batch_proposal.rs:263-274 | batch and channels move out together and both vectors are left empty |
| `BatchProposers.BatchProposer.FilterUnlogged` | src/consensus/batch_proposal.rs:282-310 | unlogged requests and probes are passed on at once; logged ones come back |
| `BatchProposers.BatchProposer.Work` | src/consensus/batch_proposal.rs:164-234 | one pass of the worker is one step of the model |
| `BatchProposers.BatchProposer.Serve` | src/consensus/batch_proposal.rs:102-121 | a fresh proposer follows every run |
| `Sequencers.SignatureDelayBounded` | src/consensus/block_sequencer.rs:316-329 | after every command of every run fewer than `signature_max_delay_blocks` numbers have passed since the last signed block |
| `Sequencers.EveryWindowHasSignature` | src/consensus/block_sequencer.rs:316-329 | any `signature_max_delay_blocks` consecutive blocks of the stream include a signed one, across changes of view |
| `Sequencers.TickForcesSignature` | src/consensus/block_sequencer.rs:325-338 | a timer tick forces the next block to be signed and only that one, and the signed block takes all listed certificates along |
| `Sequencers.WrapNeverDecides` | src/consensus/block_sequencer.rs:317-320 | whenever a batch is taken in the 64-bit subtraction is exact |
| `Sequencers.RunPaced` | src/consensus/block_sequencer.rs:305-340 | the distance to the last signature is the number of unsigned blocks at the end of the stream, and blocks of unstable views are all signed |
| `Sequencers.ViewFromHistory` | src/consensus/block_sequencer.rs:398-452 | view and configuration are those of the last view command, and the view is stable exactly if that was the stabilising one |
| `Sequencers.BatchSequencedIff` | src/consensus/block_sequencer.rs:199-260 | over every run a batch becomes a block with its transactions, the current view and configuration, and a record with that block's hash, if and only if the last view command stabilised a view this node leads; otherwise its record has no hash |
| `Sequencers.BatchSignedIff` | src/consensus/block_sequencer.rs:316-338 | over every run a batch's block is signed if and only if the timer went off since the last signed block or maxDelay - 1 blocks went out unsigned; only then it carries the listed certificates |
| `Sequencers.OpeningBlock` | src/consensus/block_sequencer.rs:421-452 | a new view led by this node opens with one signed, empty, unstable block on the given parent; no other opens with a block |
| `Sequencers.ViewChangeExact` | src/consensus/block_sequencer.rs:406-421 | a change of view leaves only certificates of the new view if and only if the view does not go back or none is listed; moving on drops all |
| `Sequencers.GoingBackKeepsStaleCertificate` | src/consensus/block_sequencer.rs:406-421 | the run to view 5, a certificate of view 5, back to view 3, ends with that certificate listed |
| `Sequencers.CertificatesInPlace` | src/consensus/block_sequencer.rs:333-338 | with non-decreasing views, listed certificates have the current view, and only signed blocks carry certificates, of their own view |
| `Sequencers.CertificatesConserved` | src/consensus/block_sequencer.rs:383-452 | every admitted certificate is listed, in exactly one block, or was dropped by a change of view |
| `Sequencers.BlockSequencer.HandleNewBatch` | src/consensus/block_sequencer.rs:305-381 | numbering, signing decision, certificates, parent hash, block and reply record are those of `Emit` |
| `Sequencers.BlockSequencer.AddQcs` | src/consensus/block_sequencer.rs:383-396 | exactly the certificates of the current view are added, in order |
| `Sequencers.BlockSequencer.HandleControlCommand` | src/consensus/block_sequencer.rs:398-452 | the three view commands, with the opening block when this node leads |
| `Sequencers.BlockSequencer.Handle` | src/consensus/block_sequencer.rs:199-303 | one pass of the worker; batches are refused unless this node leads a stable view |
| `Sequencers.BlockSequencer.Serve` | src/consensus/block_sequencer.rs:124-141 | a fresh sequencer follows every run |
| `ProducerConsumer.StepAccepts` | src/consensus/logserver.rs:429-442 | the log takes in exactly the blocks a sequencer command emits |
| `ProducerConsumer.StreamAccepted` | src/consensus/block_sequencer.rs:312-381 | over every run, with other leaders writing in between and restarts at a matching tip, nothing emitted is rejected and the log stays contiguous and linked |
| `ProducerConsumer.RollbackRestarts` | src/consensus/logserver.rs:445-450 | after a rollback to the new parent the log is ready for the restart if and only if the parent is past the byzantine commit index or is the tip already |
| `ProducerConsumer.RollbackKeepsTooMuch` | src/consensus/logserver.rs:445-450 | with two blocks, the first committed, a rollback to the first keeps both, and the log is not ready for the restart |
| `ProducerConsumer.RestartAtCommittedRefused` | src/consensus/logserver.rs:429-450 | after commit index b and a rollback to n <= b < tip, a new leader's blocks from n + 1 on are refused and the chain stays as it was, unless its block b + 1 is the one kept; then all that follow are taken |
| `Collection.JointRunIsLegal` | src/consensus/staging/steady_state.rs:1040-1081 | over every run of staging, application and log server, with staging's double sends in two steps, silent trims and rollbacks to any block, and collection on its own channel, in which accepted blocks meet what the log server has: every command the log server takes is legal, and the commands on their way lead it to all of staging's chain and to its commit index |
| `Collection.LogCollectsKeeps` | src/consensus/logserver.rs:131-159 | a collection point taken when no command waits, or when the next one commits further, is below the log server's tip and below any later rollback |
| `Collection.RollBackKeeps` | src/consensus/staging/steady_state.rs:1076-1081 | a rollback to any block, committed or not, leaves staging's chain as a prefix of what the log server is on its way to |
| `Collection.AcceptAgreesIff` | src/consensus/staging/steady_state.rs:138-166 | after a block is accepted, staging's chain is a prefix of what the log server is on its way to if and only if the log server has nothing, or this very block, in its place |
| `Collection.ResentBlockMeetsIff` | src/consensus/staging/steady_state.rs:598-612 | in an unstable view, where staging goes back to below every block it is sent, that holds if and only if the block is past the first uncommitted one, or the log server has none there, or has this very one |
| `Collection.ByzCommitKeeps` | src/consensus/staging/steady_state.rs:1040-1068 | a byzantine commit tells the application only of blocks up to the index that the log server is owed |
| `Collection.ServeJointRun` | src/consensus/logserver.rs:121-175 | the layered log server, put through the commands of any such run, answers as one plain chain does |
| `Collection.CutsAgreeIff` | src/consensus/staging/steady_state.rs:1076-1081 | one rollback leaves staging and log server with equal chains if and only if it goes past the commit index or nothing is pending |
| `Collection.ForkIsRefused` | src/consensus/logserver.rs:429-442 | once an accepted block differs from the one the log server has, that block and all that follow it are refused |
| `Collection.StaleBlockStays` | src/consensus/staging/steady_state.rs:598-676 | from any state where an accepted block differs: when staging has accepted a longer chain and committed it, the log server is on its way to none of it, and the application's next collection point takes its last block |
| `Collection.HastyCollectionTakesTip` | src/consensus/logserver.rs:131-159 | a reachable state in which collecting before looking at the commands would take the tip |
| `Pipeline.HashesNeverReused` | src/consensus/block_sequencer.rs:312-373 | when views do not go back and each is opened once, blocks grow in (view, number) and no two reply records wait under one hash |
| `Pipeline.RunBacked` | src/consensus/block_sequencer.rs:361-373 | every reply record names a block that holds the transactions that came with its channels |
| `Pipeline.RunSound` | src/consensus/client_reply.rs:221-228 | every receipt sent answers request `tx_n` of the batch under its hash with the result acknowledged for it |
| `Pipeline.ReceiptReachesSubmitter` | src/consensus/client_reply.rs:221-228 | across proposer, sequencer and reply handler a receipt for (block, tx_n) goes to the channel that submitted transaction tx_n of that block |
| `EndToEnd.FittingRunIsLegal` | src/consensus/client_reply.rs:221-249 | when records and acknowledgements have one entry per transaction of their block, the reply handler never trips its length assertions |
| `EndToEnd.RecordsFit` | src/consensus/block_sequencer.rs:361-373 | every reply record has one channel per transaction of its block |
| `EndToEnd.RecordsKeepChannels` | src/consensus/block_sequencer.rs:199-303 | accepted or refused, the channels fed to the sequencer are handed on once each, in order |
| `EndToEnd.RecordChannelsDiffer` | src/consensus/batch_proposal.rs:197-231 | requests on different channels end up in records whose channels are all different |
| `EndToEnd.WiredIsLegal` | src/consensus/client_reply.rs:174-249 | in every run of proposer, sequencer, application and reply handler the handler's run is legal, and its channels and hashes are all different |
| `EndToEnd.AtMostOneAnswer` | src/consensus/client_reply.rs:174-308 | across the four components every request taken in is answered at most once, and exactly once as soon as its batch no longer waits |
| `EndToEnd.ReceiptIsForCommittedRequest` | src/consensus/client_reply.rs:221-228 | across the four components a receipt goes to the channel that submitted its transaction, its block was committed, and its result is the one the engine returned for that transaction when the block was committed |
| `ReplyHandlers.ClientReplyHandler.DoCrashCommitReply` | src/consensus/client_reply.rs:221-228 | one receipt per request, taking along what is stored for its client |
| `ReplyHandlers.ClientReplyHandler.DoByzCommitReply` | src/consensus/client_reply.rs:230-249 | responses are stored per client under the client's tag, the mark moves up, due probes are released |
| `ReplyHandlers.ClientReplyHandler.TakeDue` | src/consensus/client_reply.rs:310-323 | exactly the probes at or below the mark leave the buffer, in block order |
| `ReplyHandlers.ClientReplyHandler.MaybeClearProbeBuf` | src/consensus/client_reply.rs:310-327 | due probes are answered in block order and the others stay |
| `ReplyHandlers.ClientReplyHandler.MaybeClearReplyBuf` | src/consensus/client_reply.rs:340-355 | early acknowledgements of a batch are used, the byzantine one first |
| `ReplyHandlers.ClientReplyHandler.HandleBatch` | src/consensus/client_reply.rs:176-206 | a refused batch is told to try again; an accepted one waits or is answered |
| `ReplyHandlers.ClientReplyHandler.HandleReplyCommand` | src/consensus/client_reply.rs:251-308 | each command is one step of the model |
| `ReplyHandlers.ClientReplyHandler.Serve` | src/consensus/client_reply.rs:174-219 | a fresh handler follows every run |
| `ReplyAccounting.RunKeeps` | src/consensus/client_reply.rs:174-308 | in every run each batch is pending with no answer, fully answered by an acknowledged receipt list, or fully told to try again; an early acknowledgement is kept; the two maps have no hash in common |
| `ReplyAccounting.AnsweredExactlyOnce` | src/consensus/client_reply.rs:176-228 | in every run with different channels and hashes each request is either pending and unanswered or answered exactly once |
| `ReplyAccounting.StrangersGetNothing` | src/consensus/client_reply.rs:176-228 | a channel that came with no batch gets no answer |
| `ReplyAccounting.BatchAcceptedIff` | src/consensus/client_reply.rs:176-206 | over every run a batch with a block is told to try again exactly while the last word was to cancel; from the word to stop on it waits or is answered |
| `ReplyAccounting.ReceiptsAlign` | src/consensus/client_reply.rs:223-227 | receipt j of a block carries result j to channel j |
| `ReplyAccounting.AnswersFromHistory` | src/consensus/client_reply.rs:251-276 | without cancellation the answers to a batch are a function of its hash and of the acknowledgements |
| `ReplyAccounting.OrderIndependent` | src/consensus/client_reply.rs:176-276 | any two interleavings of the same batches and acknowledgements give every batch the same answers |
| `ReplyLedger.StepLedger` | src/consensus/client_reply.rs:221-249 | responses delivered and stored for a client grow by exactly those an event makes available |
| `ReplyLedger.EarlyResponsesRideAlong` | src/consensus/client_reply.rs:340-355 | when both acknowledgements came first, the receipts take along all that is available to their clients, this block's responses included |
| `ReplyLedger.ResponsesConserved` | src/consensus/client_reply.rs:221-249 | over every run a client has received a prefix of its byzantine responses, in order, and the rest is stored for it |
| `ReplyLedger.RunTidy` | src/consensus/client_reply.rs:251-327 | in every run buffered probes are past the mark, and no hash waits on both sides of either rendezvous |
| `ReplyHistory.ProbesConserved` | src/consensus/client_reply.rs:277-327 | over every run whoever asked for a block has been told or waits, in the order of asking, and nobody waits for a block up to the mark |
| `ReplyHistory.DueInOrder` | src/consensus/client_reply.rs:310-323 | probes that fall due together are answered in block order |
| `ReplyHistory.MarkFromHistory` | src/consensus/client_reply.rs:230-249 | the mark is the highest block whose byzantine acknowledgement has met its batch |
| `ReplyHistory.RendezvousKept` | src/consensus/client_reply.rs:251-276 | over every run a byzantine acknowledgement that came first is kept until its batch is accepted, and an accepted batch until it is acknowledged |
| `ReplyHistory.UnloggedAnswered` | src/consensus/client_reply.rs:174-219 | over every run every unlogged request is answered once, with its own result, in order |
| `Applications.HighestExact` | src/consensus/app.rs:287-292 | the new commit index is the maximum of the old one and the committed numbers |
| `Applications.RunKeeps` | src/consensus/app.rs:270-366 | in every run the acknowledgements are those of the committed blocks one by one, with number and one result per transaction, on both sides, and each collection point is below bci |
| `Applications.AcksNameCommitted` | src/consensus/app.rs:286-343 | every acknowledgement is of a committed block, under its own hash and number and with one result per transaction, on both sides |
| `Applications.AcksAreExact` | src/consensus/app.rs:286-343 | a block is acknowledged if and only if it was committed; the same for byzantine commits |
| `Applications.AckCarriesResults` | src/consensus/app.rs:286-320 | in every run an acknowledgement holds, entry by entry, the list the engine returned for its block in the commit that named it |
| `Applications.ByzAckCarriesResponses` | src/consensus/app.rs:324-343 | the same for byzantine responses |
| `Applications.ResultsAreAcked` | src/consensus/app.rs:286-343 | whatever the engine returned for a block is acknowledged, on both sides |
| `Applications.IndicesFromHistory` | src/consensus/app.rs:270-366 | the last block is the one last announced or where the last rollback left it; the byzantine commit index is the highest number byzantine-committed |
| `Applications.IndicesRaised` | src/consensus/app.rs:270-366 | each commit index is raised by commits of its own kind, to the highest number committed, and, rollbacks aside, changed by nothing else |
| `Applications.RollbackExact` | src/consensus/app.rs:349-364 | from any state a rollback leaves the last block where asked or just past the byzantine commit index, the commit index no higher than that and than before, and the order of the two indices as it was when it was right |
| `Applications.InOrderIff` | src/consensus/app.rs:270-366 | bci <= ci throughout a run if and only if each byzantine commit names only blocks up to the ci of its moment |
| `Applications.ForkOvertakesCommit` | src/consensus/staging/steady_state.rs:679-706 | a fork whose later blocks certify the first: that one is byzantine-committed while ci lags, and the crash commit that follows never acknowledges it |
| `Applications.Application.Handle` | src/consensus/app.rs:270-366 | commits, rollbacks and checkpoints update the indices as the model does |
| `Serialization.PrefilledRoundTrip` | src/utils/serialize.rs:31-97 | a block comes back as it was, marked, if and only if its signature is not all zeros; all else comes back in any case |
| `Serialization.NascentRoundTrip` | src/utils/serialize.rs:100-130 | serialize, read, serialize again gives the same bytes if and only if the block was not already marked unsigned |
| `Serialization.NascentIff` | src/utils/serialize.rs:9-29 | a block is serialized as new if and only if it has no parent hash and no signature, and then with 128 zeros in front of its body |
| `Serialization.ZeroSignatureIsLost` | src/utils/serialize.rs:31-97 | a block signed with zeros comes back unsigned |
| `Serialization.MarkedBlockChangesBytes` | src/utils/serialize.rs:100-130 | a new block already marked unsigned serializes back to other bytes |
| `Serialization.UpdateParentHash` | src/utils/serialize.rs:61-63 | bytes 64..128 become the parent hash and no other byte changes |
| `Serialization.UpdateSignature` | src/utils/serialize.rs:72-74 | the first 64 bytes become the signature and no other byte changes |
| `Serialization.SerializeNascent` | src/utils/serialize.rs:9-29 | zeros, zeros, body; refused when a parent or a signature is already there |
| `CryptoServices.HashSerInjective` | src/crypto/service.rs:64-70 | hashing body, parent, signature in that order still gives each buffer its own hash |
| `CryptoServices.HashSerOrder` | src/crypto/service.rs:64-70 | the hash is taken over body, then parent hash, then signature |
| `CryptoServices.PrepareBlock` | src/crypto/service.rs:209-276 | the hash computed in pieces while the buffer is filled is the hash of the final buffer, and block and buffer are those prepared |
| `CryptoServices.PreparedLayout` | src/crypto/service.rs:209-276 | the finished buffer is signature on what is behind it or zeros, parent hash or zeros, body; block and hash are those of the buffer |
| `CryptoServices.VerifyQc` | src/crypto/service.rs:73-108 | true exactly for at least the minimum number of well-formed, known and valid signatures on the digest |
| `CryptoServices.EnoughSignersIff` | src/crypto/service.rs:73-108 | an accepted certificate has the minimum number of different signers if and only if its signatures outnumber the minimum by the repeated ones |
| `CryptoServices.DifferentNamesSuffice` | src/crypto/service.rs:73-108 | no name twice among the first minimum gives the minimum number of signers, and with no more signatures than those it is also needed |
| `CryptoServices.OneSignerAccepted` | src/crypto/service.rs:76-96 | one known signer, repeated, makes an accepted certificate |
| `CryptoServices.CertificatesOverlap` | src/crypto/service.rs:73-108 | two accepted certificates with no name twice among the first n - u, all signers nodes, share n - 2u signers |
| `CryptoServices.VerifyBlockSer` | src/crypto/service.rs:301-369 | the loop over certificates and the error cases give `Verify` |
| `CryptoServices.PreparedChecks` | src/crypto/service.rs:277-300 | the store's reader accepts a prepared buffer under its hash, and under a collision-free hash nothing else |
| `CryptoServices.PreparedVerifiesExactly` | src/crypto/service.rs:301-369 | when exactly a receiver accepts a prepared block, for every block, parent, signing choice and signer |
| `CryptoServices.ZeroSignatureTurnedAway` | src/crypto/service.rs:301-369 | under any signer whose signature on it is all zeros, a signed block that carries a certificate is turned away |
| `CryptoServices.PreparedVerifies` | src/crypto/service.rs:209-369 | a leader's own blocks are accepted with the same block, modulo the unsigned mark, and the same hash |
| `ForkReceivers.WalkExact` | src/consensus/fork_receiver.rs:230-251 | the walk succeeds if and only if every block that raises the view is unstable, and then ends at the highest view |
| `ForkReceivers.SplitExact` | src/consensus/fork_receiver.rs:268-301 | a fork is refused if and only if a stable block opens a configuration; otherwise its non-empty parts concatenate to it, each of one configuration apart from a final unstable block opening the next |
| `ForkReceivers.PassedOnIffAcceptable` | src/consensus/fork_receiver.rs:178-329 | a fork is passed on if and only if it is not empty, comes from the leader of a view and configuration not yet passed, its parent hash is the one remembered or that of the log's block before it, and its views and configurations open unstable; what is passed on and kept back make up the fork |
| `ForkReceivers.RunPassesOnIff` | src/consensus/fork_receiver.rs:178-329 | the same over every run, with view, configuration and remembered parent read off the history |
| `ForkReceivers.NackedIff` | src/consensus/fork_receiver.rs:389-419 | a fork from the leader is nacked exactly when its parent is unknown or its views are out of order; the nack asks from a hundred blocks back with hints from the log, and the receiver waits until a fork is not nacked |
| `ForkReceivers.CommonPrefixIff` | src/consensus/fork_receiver.rs:432-482 | the test for a common prefix compares the parent's hash with the last block passed on or with the log's block before it |
| `ForkReceivers.UpdateOutcome` | src/consensus/fork_receiver.rs:339-368 | a configuration change passes on the next part, except a last part whose sender does not lead the view |
| `ForkReceivers.RunKeeps` | src/consensus/fork_receiver.rs:89-95 | in every run with backfill responses only while no part waits: blocked exactly while parts are buffered, all of one message, and with what was sent they make up its fork |
| `ForkReceivers.StepSettled` | src/consensus/fork_receiver.rs:331-386 | blocked exactly while parts are buffered is kept by every command the receiver survives, whenever it comes |
| `ForkReceivers.RunRemembers` | src/consensus/fork_receiver.rs:420-473 | in every run the remembered hash is that of the last block of the last part passed on, so a fork accepted by it follows that part |
| `ForkReceivers.RunRemembered` | src/consensus/fork_receiver.rs:333-368 | in every run what is remembered is the last block of the last part passed on, if that was valid and the view has not changed since |
| `ForkReceivers.NackUnblocks` | src/consensus/fork_receiver.rs:370-379 | after a nack for a multipart message nothing waits and nothing else has changed |
| `ForkReceivers.ForkReceiver.WalkViews` | src/consensus/fork_receiver.rs:230-251 | the loop over the fork gives the walk |
| `ForkReceivers.ForkReceiver.SplitFork` | src/consensus/fork_receiver.rs:268-301 | the loop over the fork gives the split |
| `ForkReceivers.ForkReceiver.EnsureCommonPrefix` | src/consensus/fork_receiver.rs:432-482 | true for an empty fork; otherwise exactly when the parent's hash is that of the last block passed on or of the log's block before it |
| `ForkReceivers.ForkReceiver.ProcessFork` | src/consensus/fork_receiver.rs:178-329 | drop, nack, refuse or pass on, as the model does |
| `ForkReceivers.ForkReceiver.HandleUpdateView` | src/consensus/fork_receiver.rs:333-369 | a configuration change releases the next part; the last only from the leader of the view |
| `ForkReceivers.ForkReceiver.HandleMultipartNack` | src/consensus/fork_receiver.rs:370-379 | the waiting parts are dropped and the receiver is unblocked |
| `Pacemakers.OpeningsAreQuorums` | src/consensus/pacemaker.rs:167-237 | over every run updates and openings have strictly increasing views; an opening carries exactly n - u distinct senders, each a name with a sub id, heard from for that view, after an update to at least that view |
| `Pacemakers.UpdatesAreBacked` | src/consensus/pacemaker.rs:84-101 | over every run an update to a view is sent only on word of at least n - 2u different senders for that view and configuration |
| `Pacemakers.CollectedMeansUpdated` | src/consensus/pacemaker.rs:224-229 | as soon as n - 2u messages for a view are collected, an update to that view or a later one has been sent |
| `Pacemakers.MessageOutcome` | src/consensus/pacemaker.rs:167-237 | over every run a message for a view opened or passed over is ignored; one whose fork does not follow the log is nacked, or dropped if the parent is at or below the commit index; any other is collected or goes out with the opening |
| `Pacemakers.JumpOutcome` | src/consensus/pacemaker.rs:261-270 | a jump keeps what was collected for its view and later, and counts the node's own message |
| `Pacemakers.EnoughIffOpened` | src/consensus/pacemaker.rs:149-159 | in every run there are enough messages for a view if and only if it or a later one was opened |
| `Pacemakers.OpeningCountsNodes` | src/consensus/pacemaker.rs:212-237 | an opening is by n - u nodes of the list if and only if its senders have different names, all in the list |
| `Pacemakers.HonestSendersDiffer` | src/consensus/pacemaker.rs:167-237 | peers that keep to sub id 0 and are in the list make every opening one of different listed names |
| `Pacemakers.OneNameOpens` | src/consensus/pacemaker.rs:167-237 | one name with n - u sub ids opens a view alone |
| `Pacemakers.OpeningsNeedNotMeet` | src/consensus/pacemaker.rs:103-121 | two openings can have no node in common |
| `Pacemakers.OpeningsOverlap` | src/consensus/pacemaker.rs:103-121 | two openings at any nodes, each by different listed names, share n - 2u nodes, and each meets every majority |
| `Pacemakers.RunKeeps` | src/consensus/pacemaker.rs:132-237 | in every run each buffered set is below n - u and holds only messages heard from those senders |
| `Pacemakers.JumpForgetsOlder` | src/consensus/pacemaker.rs:261-270 | after a jump only messages for that view and configuration or later are buffered, and the one just handled |
| `Pacemakers.Pacemaker.HandleViewChange` | src/consensus/pacemaker.rs:167-237 | drop, nack, buffer, notify, open, as the model does |
| `Pacemakers.Pacemaker.HandleMyViewJump` | src/consensus/pacemaker.rs:261-270 | older entries go, then the own message is handled |
| `Pacemakers.Pacemaker.QueryEnoughVcs` | src/consensus/pacemaker.rs:149-159 | the answer to the query |
| `Pacemakers.Pacemaker.Serve` | src/consensus/pacemaker.rs:123-165 | a fresh pacemaker follows every run |
| `ClientWorkers.TokensConserved` | src/client/worker.rs:81-112 | in every run tokens in both channels, held and unissued add up to the limit, so no send can block, and the leader index is in the node list |
| `ClientWorkers.OutstandingBounded` | src/client/worker.rs:243-343 | in every run at most the limit of requests is outstanding, each in flight exactly once |
| `ClientWorkers.NeverStuck` | src/client/worker.rs:114-343 | in every reachable state some task can move |
| `ClientWorkers.SendRequest` | src/client/worker.rs:353-401 | whatever fails, the leader index stays in range, and failures forget all outstanding requests |
| `ClientWorkers.RetriesGoRound` | src/client/worker.rs:353-401 | after k failures the request goes to the node k places further on, round and round, and the other index stays |
| `ClientWorkers.RedirectFollowed` | src/client/worker.rs:296-334 | a retry that names a leader makes that node the destination; the request is sent again if still outstanding, and all are forgotten exactly when the leader changes |
| `ClientWorkers.SuccessMovesOn` | src/client/worker.rs:263-295 | a success ends its request, and the next number goes out in the mode asked for |
| `ClientWorkers.RoundOfATask` | src/client/worker.rs:114-242 | the checker brings back the request it was given, as a success exactly for a receipt, otherwise with the redirect |
| `ClientWorkers.SentIsOnRecord` | src/client/worker.rs:243-343 | a request sent is on record with its mode and at the end of the task channel |
| `ClientWorkers.Generator.Send` | src/client/worker.rs:353-401 | the retry loop gives `SendRequest` and ends at its destination |
| `ClientWorkers.Generator.Handle` | src/client/worker.rs:263-334 | success and retry are handled as the model does |
| `Framing.FrameRoundTrip` | src/rpc/client.rs:393-451 | a frame reads back and leaves the stream in step if and only if the used length is the vector's length modulo 2^32 |
| `Framing.UnalignedFrameMisreads` | src/rpc/client.rs:393-451 | two bytes of which one counts: the reader takes a byte of the next frame along |
| `Framing.FramesRoundTrip` | src/rpc/server.rs:153-167 | any sequence of such frames reads back in order |
| `Framing.U32BigEndian` | src/rpc/client.rs:100-104 | byte i of the size field is the size divided by 256^(3 - i), modulo 256 |
| `Framing.FrameLayout` | src/rpc/client.rs:393-451 | a frame is four bytes of the vector's length, most significant first, then the used part |
| `Framing.BufferedWriter.FlushWriteBuffer` | src/rpc/client.rs:64-75 | everything written has reached the stream |
| `Framing.BufferedWriter.WriteAllBuffered` | src/rpc/client.rs:77-98 | exactly the given bytes are added, whatever the fill level |
| `Framing.BufferedWriter.WriteU32Buffered` | src/rpc/client.rs:100-104 | the four big-endian bytes are added |
| `Framing.BufferedWriter.Send` | src/rpc/client.rs:393-471 | the frame is added, and is on the stream when flushed |
| `Framing.FrameReader.ReadNextBytes` | src/rpc/server.rs:119-151 | exactly the next n bytes of the stream are returned, across buffer boundaries |
| `Framing.FrameReader.GetNextFrame` | src/rpc/server.rs:153-167 | the next payload of the stream is at the front of the buffer, grown when needed |
| `Framing.FrameReader.ReceiveAll` | src/rpc/client.rs:106-154 | repeated reads give the payloads that parsing the whole stream gives |
| `Framing.Transfer` | src/rpc/client.rs:64-154 | for all messages, buffer sizes, flush points and chunkings the reader returns exactly what was sent, in order |
| `Shamir.SplitSecret` | scripts/loadtest/shamir.py:7-17 | share i is the polynomial's value at i, reduced |
| `Shamir.LagrangeInterpolate` | scripts/loadtest/shamir.py:19-30 | the value at x of every polynomial of small enough degree through the points |
| `Shamir.BasisValue` | scripts/loadtest/shamir.py:23-28 | the inner loop is the basis polynomial at x |
| `Shamir.ReconstructSecret` | scripts/loadtest/shamir.py:32-34 | interpolation at zero |
| `Shamir.ReconstructionExact` | scripts/loadtest/shamir.py:32-34 | enough distinct shares of any polynomial give its constant term |
| `Shamir.SplitAndReconstruct` | scripts/loadtest/shamir.py:36-55 | any t or more of n <= p shares, in any order, give the secret modulo p, and the secret itself if and only if it is a residue |
| `Shamir.BelowThresholdRevealsNothing` | scripts/loadtest/shamir.py:7-17 | fewer than t shares are explained by every candidate secret |
| `Shamir.ExplanationUnique` | scripts/loadtest/shamir.py:7-17 | with t - 1 shares each candidate has exactly one choice of coefficients |
| `ModularArithmetic.ModInverse` | scripts/loadtest/shamir.py:4-5 | the inverse modulo a prime exists for every non-multiple and multiplies to one |

## Left out

- Staging's vote and commit rule and its fork choice (`src/consensus/staging`), and the block broadcaster; their commands to the modelled components are events, and `Collection` has the part of staging that keeps the chain.
- The KVS and null engines; their results are event parameters.
- TLS, sockets, connection maps, handshakes, broadcast workers and server loops of `src/rpc`, other than the two buffer classes.
- RocksDB and file storage: a map from hashes to blocks, re-hashed on read.
- Bytes of SHA-512, Ed25519, batch verification and protobuf.
- Timers, clocks, back-off sleeps, statistics, logging and performance counters; a timer tick is an event.
- `deprecated/`, `contrib/`, equivocation under the `evil` feature, deployment and plotting scripts: they would add no property of the kind proved here.
- Other feature sets than the one named above, apart from the quorum sizes without `platforms`.
- Liveness of retry loops: phases of the two-phase store and request retries are steps that may repeat any number of times.
- The hundred reply tasks that encode and send: the model's output is the queue they take from, not the order in which sockets see it.
- View-change signatures (`PrepareVC`, `VerifyVC`) and fork validation inside new-view blocks.
- The configuration is fixed during a run, apart from the configuration numbers that blocks and commands carry.
- Parsing the operand of a probe transaction: a request is already logged, unlogged or a probe for a block.
- The checker's two maps of awaited byzantine responses, which only feed statistics.
- TwoPhaseStore.StepKeeps: commands under a key that two nodes share, where `ClashLosesCommand` shows the property false; counters live under the final key, and the stored bytes are a pair of index and payload.
- Pipeline.ReceiptReachesSubmitter: reply channels are values; that a client's channel still has a listener is not modelled.
- LogServers.LogServer.Serve: runs with commands outside `Legal`, after which memory no longer stands for a chain; `Collection.JointRunIsLegal` shows where they cannot occur and `Collection.StaleBlockStays` where they can.
- Collection.JointRunIsLegal: runs in which a block sent again in a new view differs from the one the log server has kept past the commit index, where `StaleBlockStays` shows the property false; the log server's look at its commands and its taking of a collection point are one step, or the next command commits further; a block already pending that staging is sent again without a rollback is not an event.
- Collection.ServeJointRun: the same runs.
- TwoPhaseStore.BeginKeeps: as StepKeeps below.
- TwoPhaseStore.FinishedCommandsSurvive: as StepKeeps below.
- ForkReceivers.PassedOnIffAcceptable: number, view, stability and configuration of a block are those of its unauthenticated header, which the model takes to be those of the body.
- NackExchange.ExchangeSettles: the leader's chain and the receiver's log do not change during the exchange.
- EndToEnd.AtMostOneAnswer: the engine's one result per transaction, views opened once and not going back, and a channel per request are taken from outside.
- Pacemakers.OpeningsOverlap: that a sender's name is its own is the handshake's business; anonymous senders are turned away before the pacemaker.
- ForkReceivers.RunKeeps: the list of nodes does not change with the configuration number.
- CryptoServices.VerifyBlockSer: buffers shorter than 128 bytes stop the service in the original and are required away; a body that does not decode is an error here and a panic there.
- ClientWorkers.TokensConserved: the generator's end of experiment is not a step.
- BatchProposers.BatchProposer.Work: a request without a transaction stops the original and is not an event here.
- ForkReceivers.ForkReceiver.ProcessFork: a message without a fork stops the original and is not an event here.
- Applications.Application.Handle: only commit indices, acknowledgements and collection points; totals and the last certificate seen are statistics.
