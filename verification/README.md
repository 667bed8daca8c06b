# VeloChain: a verified model of the node

VeloChain is a proof-of-authority chain for a game world. This project models the state machines at
the heart of the node in Dafny and proves what they keep, what they reach, and, where the code does not
keep what one would expect, exactly when it does.

How the model is laid out. Each component has a value-level specification (a `State` and one function
per operation) and, where the node updates an object in place, a class whose methods are proved to
compute exactly that specification. Results about whole runs are lemmas over sequences of events. The
modules named `...Effects`, and `SyncTickets`, say what single operations do in the node's own numbers
and without their loops. Hash maps are walked in an arbitrary order, which is a parameter; B-tree maps are
walked in ascending order.

| Component | Files |
|---|---|
| Header-first sync | `Sync`, `SyncRuns`, `SyncTickets`, `SyncEffects`, `SyncCoverage`, `SyncRounds`, `SyncBodies`, `SyncRetries` |
| Block reassembly | `Reassembly`, `ReassemblyEffects`, `ReassemblyChain` |
| Chain, storage, reorganisation | `Primitives`, `Poa`, `Storage`, `WorldState`, `Chain`, `Reorg`, `ChainRuns`, `ChainForks`, `BlockEffects`, `ReorgEffects` |
| Pool to block | `TxPool`, `TxPoolOrder`, `PoolEffects`, `Production`, `ProductionEffects`, `PoolToBlock`, `PoolRounds`, `Receipts` |
| Validator governance | `Governance`, `GovernanceRuns`, `GovernanceEffects` |
| Game protocols | `Trading`, `TradingRuns`, `TradingEffects`, `Quests`, `QuestEffects`, `QuestRuns`, `QuestReach`, `QuestRoom`, `Items` |
| Pruning, peers | `Pruning`, `PruningRuns`, `PruningEffects`, `Peers`, `PeersEffects` |
| Shared | `Wrappers`, `OrderedKeys`, `Arithmetic`, `Sequences` |

What the model assumes. Header hashing is injective. Signature recovery is some deterministic partial
function of a hash and a signature; the sender of a transaction is part of the transaction. Tables hold
values, so serialisation is taken to round-trip. The virtual machine and the game world answer through
oracles that a call receives as an argument. Each method is atomic. Storage errors do not happen.

Findings: places where the code does less than one would expect. Each has an exact condition or a
concrete counterexample.

- A header round that has room for a single header re-requests the last stored header for ever
  (`SyncRounds.SingleHeaderRoundsStall`), because the end of a pending span is exclusive and the last
  stored number is not.
- A short header answer closes the request; the unanswered numbers are lost exactly when nothing else
  covers them (`SyncCoverage.ShortAnswerExactly`, `SyncCoverage.ShortAnswerLoses`).
- A request that times out is queued again under a new id, but nothing hands it out again: the node reports
  the time-out, and no later poll returns the request (`SyncTickets.RetriedNeverHandedOut`).
- A stalled engine does not take up a new target by itself (`SyncEffects.StalledStays`).
- Executing a governance proposal does not recheck it: overlapping proposals can make an address a
  validator twice (`GovernanceRuns.OverlappingAddsDuplicate`, `GovernanceRuns.SafeRunExactly`).
- Votes are only counted when the next one comes: after a removal has lowered the quorum, a vote against a
  proposal can execute it (`GovernanceRuns.VoteAgainstExecutes`).
- Accepting a trade does not look at existing trades (`TradingRuns.AcceptTwice`, `TradingRuns.RegisteredRunExactly`).
- Index entries above the head survive a reorganisation; a fork whose parent such an entry names is not
  detected (`ChainForks.DetectionExactly`, `ChainForks.StaleEntryHidesFork`), and a fork point that one
  names lies above the head, where the node refuses to reorganise
  (`ChainForks.DetectedForkTakenExactly`, `ChainForks.DetectedAboveHead`).
- A producer whose consensus tick is not the head's cannot produce; one that is behind catches up by one
  failed attempt a tick, one that is ahead does not (`Production.RefusedExactly`). The tick counter starts
  at 0 in a new process while the head does not.
- A sender whose prices rise with the nonce is offered out of nonce order (`TxPoolOrder.NonceOrderExactly`,
  `TxPoolOrder.RisingPricesReverse`).
- Cumulative gas in receipts counts game gas before the first receipt and again with each one; it is the
  running total exactly in blocks without game payloads (`Receipts.CumulativeExactly`).
- A block queued for pruning after its number was handed out is handed out again; the numbers are right
  exactly when each pass finds the queue in order (`PruningRuns.RunExactly`, `PruningRuns.OneBlockLate`).
- Quests that ask to explore, deliver or talk, and all that need one first, can never be completed; which
  quests can is determined exactly (`QuestReach.HopelessNeverCompleted`, `QuestReach.CompletableExactly`).
  In the default registry quests 1 and 11 ask for such things, and 3, 20, 21 and 22 hang on 1. Such quests
  keep their places on the list for good, and a list full of them blocks a player
  (`QuestRoom.CompletableFromExactly`, `QuestRoom.BlockedForGood`).
- A peer can lose its place to a newcomer that is then refused (`Peers.RefusedAfterEvictionExactly`,
  `Peers.RefusedAfterEvictionReached`).

## Model

| member | source | states |
|---|---|---|
| Sync.SyncEngine.PeerStatus | crates/network/src/sync.rs:237-261 | a higher block than any heard of becomes the target, and a synced engine starts downloading headers |
| Sync.SyncEngine.SetLocalHead | crates/network/src/sync.rs:264-283 | headers up to the new head are dropped; at the target the engine is synced with no target |
| Sync.SyncEngine.DrainImportReady | crates/network/src/sync.rs:221-223 | the queued numbers are handed over and the queue is empty |
| Sync.SyncEngine.PollHeaderRequests | crates/network/src/sync.rs:286-339 | consecutive spans from after the highest pending or stored number, within the free slots, not past the target, under fresh ids |
| Sync.SyncEngine.HeadersReceived | crates/network/src/sync.rs:342-386 | the request that starts where the answer starts is closed, new headers are stored, and the body phase starts when the target is stored and nothing is pending |
| Sync.SyncEngine.PollBodyRequests | crates/network/src/sync.rs:389-429 | chunks of the missing body hashes in number order, within the free slots |
| Sync.SyncEngine.BodiesReceived | crates/network/src/sync.rs:432-459 | each hash completes the first stored header that still wants it; verification starts when none is left |
| Sync.SyncEngine.Verify | crates/network/src/sync.rs:462-505 | all neighbours link, or the first that does not is reported and nothing is queued |
| Sync.SyncEngine.AdvanceTick | crates/network/src/sync.rs:508-570 | computes `Tick` for the order in which the two hash maps were walked, reports included |
| Sync.FirstUnlinkedIsFirst | crates/network/src/sync.rs:462-505 | the reported position is the first header that does not link to its successor, if there is one |
| SyncTickets.HeaderTicketsExactly | crates/network/src/sync.rs:305-335 | id by id, the requests a poll returns are the ones it records: every new entry of the pending table is told of by exactly one ticket with the same span and the target's peer, and every ticket is recorded |
| SyncTickets.BodyTicketsExactly | crates/network/src/sync.rs:409-426 | the same for a poll for bodies |
| SyncTickets.HeadersAskedExactly | crates/network/src/sync.rs:286-339 | the spans are consecutive, from the highest of pending ends, stored numbers and the head's successor on, of full size unless the target cuts the last, within the free places, and stop early only past the target |
| SyncTickets.BodiesAskedExactly | crates/network/src/sync.rs:389-429 | the hashes asked for are those of the lowest headers without a body, in order, as many as there is room for, in full requests but for the last |
| SyncTickets.TicketsOnEveryRun | crates/network/src/sync.rs:286-429 | on every run from a new engine each poll hands out exactly what it records |
| SyncTickets.NeverHandedOutAgain | crates/network/src/sync.rs:305-335 | no id that was used is ever handed out again, whatever happens in between |
| SyncTickets.RetriedNeverHandedOut | crates/network/src/sync.rs:521-557 | a request that a tick queued again under a new id is never handed out under it |
| SyncEffects.TargetIsHighest | crates/network/src/sync.rs:237-261 | after any reports a new engine follows the first report of the highest block above its head, or nobody if there is none |
| SyncEffects.HeadExactly | crates/network/src/sync.rs:264-283 | exactly the headers up to the new head go; phase and target change only if the target is reached |
| SyncEffects.StoredExactly | crates/network/src/sync.rs:355-370 | a stored header is never replaced; a new number gets the first header sent for it |
| SyncEffects.HeadersExactly | crates/network/src/sync.rs:342-386 | exactly the requests that start where the answer starts are closed, and the body phase begins if and only if the target is reached and nothing is pending |
| SyncEffects.BodiesExactly | crates/network/src/sync.rs:432-459 | exactly the requests answered in full are closed, and verification begins if and only if there are headers, none lacks its body and nothing is pending |
| SyncEffects.MarkSplits | crates/network/src/sync.rs:432-449 | bodies are matched one after the other |
| SyncEffects.OneBodyExactly | crates/network/src/sync.rs:432-459 | a body completes the lowest stored header that waits for it and no other, and closes the requests that wanted nothing else |
| SyncEffects.VerifiesExactly | crates/network/src/sync.rs:462-505 | verification succeeds if and only if there are headers and each but the lowest continues its predecessor; then all are verified and queued in order, else nothing changes and the lowest header that does not is reported |
| SyncEffects.StallsExactly | crates/network/src/sync.rs:559-567 | a tick stalls the engine if and only if it has a target, no header, and every open request times out with its retries spent |
| SyncEffects.StalledStays | crates/network/src/sync.rs:237-429 | a stalled engine asks for nothing and stays stalled on every run, whatever heights it hears of, until something arrives unasked or the local head reaches the target |
| SyncRuns.RunKeepsSound | crates/network/src/sync.rs:286-336 | on every run pending spans are pairwise disjoint, at most `maxHeaderRequests` are pending, and every pending id is below the next one |
| SyncRuns.SpansDisjointOnEveryRun | crates/network/src/sync.rs:286-336 | from a new engine: any two pending spans are disjoint and the number of requests is bounded |
| SyncRuns.TickKeepsSound | crates/network/src/sync.rs:508-557 | a tick keeps all of that and does not raise the number of pending requests |
| SyncCoverage.RunCovers | crates/network/src/sync.rs:286-384 | over any run with complete answers and a head that does not move back, the numbers up to the frontier stay stored, pending or given up |
| SyncCoverage.NoHeaderForgotten | crates/network/src/sync.rs:286-384 | from a new engine, on such a run each number from the local head to the frontier is stored, pending, or was reported as `MaxRetries` |
| SyncCoverage.ShortAnswerExactly | crates/network/src/sync.rs:342-384 | an answer with only the first headers of its span keeps that coverage if and only if every unanswered number is covered in another way |
| SyncCoverage.ShortAnswerLoses | crates/network/src/sync.rs:342-384 | a concrete run from a new engine in which a short answer loses a number for good: the header phase ends without it |
| SyncRounds.HeaderRoundsExactly | crates/network/src/sync.rs:286-384 | after `k` header rounds in which each returned ticket is answered in full, in any order, exactly the numbers up to a given frontier are stored, and the header phase is over if and only if the target is reached |
| SyncRounds.SingleHeaderRoundsStall | crates/network/src/sync.rs:294-311 | with room for one header a round, the header phase ends if and only if the target is one above the head |
| SyncRounds.NoRoomNoRequest | crates/network/src/sync.rs:286-299 | with no room for a header no number is ever requested; requests for no header may still be issued |
| SyncBodies.MarksExactly | crates/network/src/sync.rs:432-449 | an answer with the hashes of missing bodies completes exactly the headers they belong to |
| SyncBodies.BodyRoundsShrink | crates/network/src/sync.rs:389-459 | `k` body rounds in which each returned ticket is answered, in any order, shrink the missing set by `k` times the room of a round, down to nothing |
| SyncBodies.SyncReadyExactly | crates/network/src/sync.rs:264-459 | against an honest peer the engine is ready to verify if and only if enough rounds of both kinds were made |
| SyncBodies.HonestSyncCompletes | crates/network/src/sync.rs:264-505 | then verification succeeds on exactly `head + 1 .. target`, queues these numbers in order, and importing them leaves the engine synced with no target and no headers |
| SyncRetries.RetryMoves | crates/network/src/sync.rs:521-533 | a timed-out request is reported once: given up, or reported as `Timeout` and continued under one fresh id |
| SyncRetries.LifetimeExactly | crates/network/src/sync.rs:508-557 | an unanswered request of a given age stays pending for exactly the rest of its lifetime, with one `Timeout` per used retry, whatever else happens |
| SyncRetries.FreshRequestLifetime | crates/network/src/sync.rs:508-557 | from its creation: `maxRetries` timeouts and then `MaxRetries`, exactly `(maxRetries + 1) * (timeout + 1)` ticks later |
| Reassembly.Intake.BlockReceived | crates/node-cli/src/main.rs:430-497 | computes the reaction to one block: skipped, applied with the drain, or buffered with requests for what is missing |
| Reassembly.Intake.DrainBuffer | crates/node-cli/src/main.rs:451-467 | computes the drain: buffered successors are applied until one is missing or refused |
| Reassembly.Intake.EvictExcess | crates/node-cli/src/main.rs:494-496 | computes the trimming of the buffer, lowest numbers first |
| Reassembly.CollectMissing | crates/node-cli/src/main.rs:482-490 | requests exactly the numbers of the gap that are neither requested nor buffered |
| Reassembly.NeverRequestedTwice | crates/node-cli/src/main.rs:481-490 | over any run, whatever the chain's verdicts, no request is repeated |
| ReassemblyEffects.EarlyAsksExactly | crates/node-cli/src/main.rs:473-490 | an early block has exactly those numbers between head and block requested, lowest first, that are neither requested nor buffered |
| ReassemblyEffects.EveryGapAsked | crates/node-cli/src/main.rs:430-497 | on every run from a fresh node, whatever the verdicts, each number between the head and any block received so far was requested, and still is, or was delivered |
| ReassemblyEffects.DrainExactly | crates/node-cli/src/main.rs:451-467 | waiting blocks are applied in turn, each accepted, until the next is missing or refused; these leave the buffer and the requests, a refused one the buffer, and nothing else does |
| ReassemblyEffects.NextExactly | crates/node-cli/src/main.rs:438-471 | the next block, if accepted, is applied before the waiting ones; if refused, nothing is applied |
| ReassemblyEffects.TrimExactly | crates/node-cli/src/main.rs:494-496 | of a buffer that is too long exactly the 1000 highest numbers stay |
| Reassembly.DeliveryExactly | crates/node-cli/src/main.rs:430-497 | delivering one more block keeps head, applied blocks and buffer those of the delivered set, if and only if the waiting blocks fit the buffer |
| Reassembly.ReassemblyExactly | crates/node-cli/src/main.rs:430-497 | from a fresh node this holds after every delivery of a run if and only if the waiting blocks always fit |
| Reassembly.DeliveredIsCanonical | crates/node-cli/src/main.rs:430-497 | on such a run the head is the largest number below which all was delivered, and the buffer is exactly what was delivered above the gap |
| Reassembly.OrderDoesNotMatter | crates/node-cli/src/main.rs:430-497 | two deliveries of the same blocks in any order, with repetitions, end with the same applied blocks and the same buffer |
| ReassemblyChain.ReceiveJoined | crates/node-cli/src/main.rs:430-497 | the event loop with the chain's own block application in it behaves as the loop with the chain's verdict, and both count the same blocks |
| ReassemblyChain.DeliveredBlocksApplied | crates/node-cli/src/main.rs:430-497 | the blocks of a chain, delivered in any order while the waiting ones fit, are applied up to the first gap: the chain's head is the last of them and its index is canonical |
| Storage.Database.PutHeader | crates/storage/src/db.rs:74-85 | a header is stored under the given hash and its number is pointed at that hash; nothing else changes |
| Storage.Database.PutBlock | crates/storage/src/db.rs:117-143 | header, number, body and the location of every transaction |
| Storage.LocatedExactly | crates/storage/src/db.rs:127-141 | storing a block locates each of its transactions at its last position in it, and moves no other |
| Storage.StoredFound | crates/storage/src/db.rs:117-143 | a stored block is found by hash and by number, and every other block as before |
| WorldState.WorldState.GetAccount | crates/state/src/world_state.rs:44-67 | a read returns the abstract account map's entry and leaves the map unchanged, whatever it caches |
| WorldState.WorldState.PutAccount | crates/state/src/world_state.rs:78-84 | a write changes one key of the abstract map |
| WorldState.WorldState.IncrementNonce | crates/state/src/world_state.rs:100-104 | one account's nonce grows by one, a missing account counting as empty |
| WorldState.WorldState.AddBalance | crates/state/src/world_state.rs:107-114 | adds to one balance, or reports overflow of 256 bits and changes nothing |
| WorldState.WorldState.SubBalance | crates/state/src/world_state.rs:117-127 | takes from one balance, or reports that it is too small and changes nothing |
| WorldState.WorldState.Commit | crates/state/src/world_state.rs:130-145 | the map a caller sees is unchanged and the database becomes equal to it |
| WorldState.WorldState.ClearCache | crates/state/src/world_state.rs:148-151 | the map goes back to what is committed |
| WorldState.TransferConserves | crates/state/src/world_state.rs:107-127 | a successful withdrawal and deposit of the same amount, even by one account, keep the total of all balances |
| WorldState.BalancesExactly | crates/state/src/world_state.rs:107-127 | a credit fails only at 2^256 and a debit only if the balance does not cover it; else that balance moves by the amount, no nonce and no other account |
| Chain.Chain.InitGenesis | crates/node/src/chain.rs:94-110 | the header is stored as block 0 with an empty body and becomes the head |
| Chain.Chain.RestoreHead | crates/node/src/chain.rs:113-128 | the head becomes the header that the stored latest number leads to, if it leads to one |
| Chain.Chain.SetHead | crates/node/src/chain.rs:393-399 | the head and the stored latest number move, and nothing else |
| Chain.Split | crates/node/src/chain.rs:147-165 | the block's transactions as virtual-machine transactions and game actions, or a sender that cannot be recovered |
| Chain.Chain.ExecuteEvm | crates/node/src/chain.rs:167-278 | per transaction: nonce check, execution, charge, nonce, receipt; then the write-back; or a sender that cannot be recovered, with what was already changed |
| Chain.Chain.ProcessGame | crates/node/src/chain.rs:280-320 | per game action: nonce check, nonce and flat charge if it holds, and a receipt in any case |
| Chain.Chain.ApplyBlock | crates/node/src/chain.rs:141-364 | the four ways to fail, each with what it has already changed, or accounts, tables, receipts, pool and head of the applied block |
| BlockEffects.GameActionCosts | crates/node/src/chain.rs:288-306 | one game action: its sender pays 21000 and its nonce moves if the nonce held, the payment only if the balance covers it; every other account is untouched |
| BlockEffects.GameCosts | crates/node/src/chain.rs:280-320 | any list of game actions, account by account: the nonce moves by the actions that carry on from it, and each costs 21000 as long as the balance lasts |
| BlockEffects.ReadyCosts | crates/node/src/chain.rs:280-320 | when every sender carries on from its nonce, all of its actions count and each costs 21000 as long as its balance lasts |
| BlockEffects.SucceedsExactly | crates/node/src/chain.rs:288-320 | an action's receipt says success if and only if its nonce is the one its sender has reached by the actions taken before it |
| BlockEffects.GameSplits | crates/node/src/chain.rs:281-320 | a list of game actions is worked off one part after the other |
| BlockEffects.EvmCosts | crates/node/src/chain.rs:174-271 | one other transaction: runs only if its nonce holds; its sender then pays for the gas used at its price, 1 if it names none, all or nothing; receipt, gas total and the list of executed ones follow |
| BlockEffects.EvmSplits | crates/node/src/chain.rs:171-271 | a list of such transactions is worked off one after the other |
| BlockEffects.AppliedCosts | crates/node/src/chain.rs:141-364 | after any applied block every account has paid for its game actions, counted from what the virtual machine's half left, and that is what is committed |
| BlockEffects.GameBlockCosts | crates/node/src/chain.rs:141-364 | after an applied block of game actions each account's balance is less by 21000 for each of its actions that could be paid, counted from before the block |
| BlockEffects.PartsOfBlock | crates/node/src/chain.rs:147-165 | every transaction of a block is in exactly one of its two parts, as often as in the block |
| BlockEffects.PartsInOrder | crates/node/src/chain.rs:147-165 | both parts keep the order of the block |
| BlockEffects.ActionOfOne | crates/node/src/chain.rs:151-160 | the game sees an action with a payload as its signer's |
| BlockEffects.ActionsInOrder | crates/node/src/chain.rs:147-165 | the game sees the actions in the order of the block |
| BlockEffects.ReceiptsInOrder | crates/node/src/chain.rs:196-320 | one receipt for each transaction with its position, those of the virtual machine before those of the game |
| BlockEffects.AppliedReceipts | crates/node/src/chain.rs:336-344 | every transaction of an applied block has a stored receipt that names it and this block |
| BlockEffects.FailedFor | crates/node/src/chain.rs:141-326 | the reason a block is refused for: no head, the failed consensus check, a sender that cannot be recovered, or the game world, each if and only if none before it applies |
| BlockEffects.FailedLeaves | crates/node/src/chain.rs:141-326 | a failed block changes nothing but uncommitted accounts; when only the game world failed these are as after a success |
| BlockEffects.UnsignedLeaves | crates/node/src/chain.rs:174-287 | with a sender that cannot be recovered half way, the accounts keep exactly what the transactions of the virtual machine before it did |
| BlockEffects.UnsignedGameLeaves | crates/node/src/chain.rs:280-287 | if it is the sender of a game action, they keep what all of those and the game actions before it did |
| Reorg.FindCommonAncestor | crates/node/src/reorg.rs:74-98 | the number found by walking back at most `height` blocks, 0 when an unknown block is met or the steps run out |
| Reorg.ForkOf | crates/node/src/reorg.rs:33-70 | no fork for a block that extends the head, is not higher, has an unknown or an indexed parent; otherwise the search's answer |
| Reorg.ReturnTransactions | crates/node/src/reorg.rs:127-145 | the transactions of the blocks above the fork point go back to the pool, highest block first |
| Reorg.ExecuteReorg | crates/node/src/reorg.rs:106-180 | transactions returned, head at the fork point, blocks applied up to the first that fails, and the outcome that is reported |
| ReorgEffects.ReturnedExactly | crates/node/src/reorg.rs:127-145 | every transaction of every block above the fork point is pooled afterwards, or has no signer, or the pool is full, or its sender's nonce is taken; what was pooled stays; what is new is from these blocks |
| ReorgEffects.BackInStages | crates/node/src/reorg.rs:127-151 | going back in two stages is going back at once: blocks are given back from the head down |
| ReorgEffects.BackOneBlock | crates/node/src/reorg.rs:127-151 | going back one block offers its transactions to the pool in their order and makes its parent the head |
| ReorgEffects.AddAllSplits | crates/node/src/reorg.rs:130-138 | the transactions of a block are offered to the pool one after the other |
| ReorgEffects.FirstFailure | crates/node/src/reorg.rs:154-168 | the counted blocks succeed one after the other and the next one, if any, fails |
| ReorgEffects.AppendJob | crates/node/src/reorg.rs:154-168 | one more block is applied to what the blocks before it left, and counted if it succeeds |
| ReorgEffects.FailureStops | crates/node/src/reorg.rs:163-166 | whatever comes after a failed block is not looked at |
| ReorgEffects.ReorgLosesNone | crates/node/src/reorg.rs:106-180 | a transaction of a reverted block is in an applied block or pooled after the reorganisation, with the same three exceptions at the fork point |
| ReorgEffects.NoForkExactly | crates/node/src/reorg.rs:33-70 | for any header: no fork is reported if and only if it extends the head, is not higher, has an unknown parent, or its parent is an ancestor of the head or named by a stale entry |
| ChainRuns.ApplyKeeps | crates/node/src/chain.rs:141-364 | applying a block keeps the canonical chain; on success the block follows the old head and is the new one, on failure only uncommitted accounts may differ |
| ChainRuns.VerifiedExactly | crates/consensus/src/poa.rs:139-224 | a block passes if and only if it follows the head with difficulty 1 and is either unsealed or sealed by its beneficiary, a validator |
| ChainRuns.ReorgKeeps | crates/node/src/reorg.rs:106-180 | a reorganisation keeps the canonical chain and ends at fork point plus applied blocks, or is refused because the fork point is above the head, changing nothing |
| ChainRuns.RestartKeeps | crates/node/src/chain.rs:113-128 | a restart finds the head it had, and the committed accounts |
| ChainRuns.RunKeeps | crates/node/src/chain.rs:94-145 | the invariant holds after every sequence of arrivals, reorganisations, submissions and restarts |
| ChainRuns.CanonicalOnEveryRun | crates/node/src/chain.rs:94-145 | on every run from genesis the index from 0 to the head is hash-linked, with consecutive numbers, growing timestamps and game tick equal to number; the stored latest number is the head's |
| ChainForks.IndexIsAncestry | crates/storage/src/db.rs:100-114 | up to the head, the number-to-hash index names exactly the head's ancestors |
| ChainForks.HighestIs | crates/node/src/reorg.rs:80-97 | `Highest` is the highest ancestor of a hash that is on the index |
| ChainForks.SearchExactly | crates/node/src/reorg.rs:80-97 | the search finds that ancestor if and only if it is within its steps or is genesis; otherwise it answers 0 |
| ChainForks.SearchIsCommon | crates/node/src/reorg.rs:74-98 | an answer not above the head is a common ancestor of branch and head, also when the steps ran out |
| ChainForks.SearchIsForkPoint | crates/node/src/reorg.rs:74-98 | above the highest indexed ancestor, and up to the head, branch and canonical chain differ |
| ChainForks.DetectionExactly | crates/node/src/reorg.rs:38-69 | a higher block whose stored parent is not the head is reported as a fork if and only if no stale index entry names that parent |
| ChainForks.StaleEntryHidesFork | crates/node/src/reorg.rs:53-61 | from any state, three steps lead to one where a block of another branch is not noticed |
| ChainForks.AppliedExactly | crates/node/src/chain.rs:141-364 | a block is applied if and only if it passes the consensus checks, every sender is recoverable and the game takes its actions |
| ChainForks.RunKeepsSealed | crates/node/src/chain.rs:141-145 | on every run each stored block has passed the checks on its stored parent |
| ChainForks.ReorgReachesTip | crates/node/src/reorg.rs:147-179 | from a common ancestor not above the head, a stored branch is applied whole and its tip becomes the head |
| ChainForks.DetectedForkTakenExactly | crates/node/src/reorg.rs:33-180 | on every run, reorganising from a detected fork point onto the stored branch makes the incoming block's parent the head if and only if the fork point is not above the head; otherwise it is refused with nothing changed |
| ChainForks.DetectedAhead | crates/node/src/reorg.rs:80-117 | a fork point above the head is named by a stale index entry, and the reorganisation is refused |
| ChainForks.DetectedAboveHead | crates/node/src/reorg.rs:80-117 | from any head numbered 2 or more, four events lead to a fork that is detected above the head and cannot be taken |
| TxPool.TransactionPool.AddTransaction | crates/txpool/src/pool.rs:57-103 | filed under hash and under sender and nonce, or refused for the first of four reasons with nothing changed |
| TxPool.TransactionPool.RemoveTransaction | crates/txpool/src/pool.rs:106-123 | taken out of both indexes, an emptied sender queue going too, and returned |
| TxPool.TransactionPool.RemoveIncluded | crates/txpool/src/pool.rs:176-184 | each of the given hashes is removed |
| TxPool.TransactionPool.GetPending | crates/txpool/src/pool.rs:129-163 | for some order of the sender map, the runs of all senders, stably sorted by price and nonce, cut at the maximum |
| TxPool.ContiguousRun | crates/txpool/src/pool.rs:134-146 | the inner loop collects exactly the transactions from the lowest nonce to the first gap |
| TxPool.AddRemove | crates/txpool/src/pool.rs:57-123 | removing what was just added gives back the pool |
| PoolEffects.AddedExactly | crates/txpool/src/pool.rs:57-103 | each refusal if and only if its reason holds and none before it; otherwise the pool gains exactly this transaction |
| PoolEffects.PendingNonceExactly | crates/txpool/src/pool.rs:210-214 | the answer is one above the sender's highest pooled nonce, and none if it has no transaction pooled |
| PoolEffects.OffersBest | crates/txpool/src/pool.rs:131-160 | the list is in order of price, no price being 0, and then nonce; it leaves out a transaction with no gap below only if it is full of ones ahead of it |
| TxPool.RemoveAllKeepsValid | crates/txpool/src/pool.rs:176-184 | exactly the given hashes go, and the indexes still agree |
| TxPool.IndexesAgree | crates/txpool/src/pool.rs:57-184 | on every run a transaction is filed under its hash exactly when it is filed under its sender and nonce, no queue is empty, and the size is within the maximum |
| TxPoolOrder.SortSorts | crates/txpool/src/pool.rs:148-157 | the stable sort gives a sorted rearrangement by price and nonce |
| TxPoolOrder.SortSame | crates/txpool/src/pool.rs:148-157 | it leaves a list alone if and only if the list is sorted |
| TxPoolOrder.BySort | crates/txpool/src/pool.rs:148-157 | sorting everything sorts each sender's transactions among themselves |
| TxPoolOrder.RunExactly | crates/txpool/src/pool.rs:134-146 | a collected run starts at the lowest nonce, has no gap and stops where a nonce is missing |
| TxPoolOrder.ByCollect | crates/txpool/src/pool.rs:132-146 | whatever the walk order, each sender contributes its whole run once |
| TxPoolOrder.NonceOrderExactly | crates/txpool/src/pool.rs:125-160 | a sender is offered in nonce order if and only if its prices do not rise with the nonce |
| TxPoolOrder.RisingPricesReverse | crates/txpool/src/pool.rs:125-160 | two added transactions of one sender, the second dearer: whatever the walk order, the second is offered first |
| TxPoolOrder.PendingIsPrefix | crates/txpool/src/pool.rs:148-160 | then, wherever the list is cut, the sender gets a prefix of its run |
| TxPoolOrder.PendingSorted | crates/txpool/src/pool.rs:148-160 | the list is sorted, a rearrangement of the runs before the cut, and as long as the maximum allows |
| TxPoolOrder.OfferedExactly | crates/txpool/src/pool.rs:129-160 | with room for all, a pooled transaction is offered if and only if no nonce is missing between its sender's lowest and its own |
| Production.Choose | crates/node/src/block_producer.rs:111-124 | the selection loop takes the chosen prefix, with its gas within the limit |
| ProductionEffects.BuiltExactly | crates/node/src/block_producer.rs:103-140 | a built block holds the longest run from the front of the list within 30 million gas; its header tells the gas of exactly these, the later of clock and parent plus period, and names parent, tick and producer |
| ProductionEffects.ProducedExactly | crates/node/src/block_producer.rs:103-146 | an attempt advances the tick if and only if there are a head and a validator's key; one that is taken holds at most 1000 transactions and is the new head |
| ProductionEffects.GasAdds | crates/node/src/block_producer.rs:114-123 | a game action counts 21000 gas, any other its limit |
| Production.ChosenExactly | crates/node/src/block_producer.rs:113-124 | a prefix of the pending list is within the limit if and only if it is not longer than the chosen one |
| Production.Producer.BuildBlock | crates/node/src/block_producer.rs:106-139 | the block on a parent from what the pool offers in some walk order: chosen prefix, gas used, seal |
| Production.Producer.ProduceBlock | crates/node/src/block_producer.rs:103-145 | the attempt as a whole: not a head, not a validator, refused by the chain with the tick advanced, or the block applied |
| Production.BuiltPassesExactly | crates/consensus/src/poa.rs:233-303 | a validator's own block passes its checks if and only if the engine's tick was the head's and time moves on |
| Production.OutOfStep | crates/consensus/src/poa.rs:100-105 | out of step, an attempt fails with an invalid header and changes nothing but the tick |
| Production.RefusedExactly | crates/consensus/src/poa.rs:233-278 | while the head stays, a row of attempts is refused throughout if and only if the tick does not meet the head's on the way: a producer that is behind catches up tick by tick, one that is ahead never does |
| PoolToBlock.GameReceipts | crates/node/src/chain.rs:280-320 | one receipt per game action, in order, with its position and running gas |
| PoolToBlock.AllSucceedExactly | crates/node/src/chain.rs:280-320 | every action of a list succeeds if and only if each sender's actions carry on from its account nonce; then each nonce grows by their number |
| PoolRounds.OfferedReady | crates/txpool/src/pool.rs:129-160 | if each run starts at the account nonce, is of game actions and does not rise in price, any prefix of what is offered is ready in that sense and holds a nonce prefix of every sender |
| PoolRounds.LeftExactly | crates/node/src/chain.rs:346-348 | including a block removes exactly its transactions from the pool |
| Receipts.CumulativeExactly | crates/node/src/chain.rs:152-320 | in every block, whatever it holds, a receipt's cumulative gas is the gas used so far plus the flat charge of all its game actions with a payload; it is the running total if and only if there is no such action |
| Receipts.ProcessedTotals | crates/node/src/chain.rs:183-320 | all receipts and the final total follow that rule through both loops |
| Receipts.AppliedTotals | crates/node/src/chain.rs:340-344 | so do the receipts stored for an applied block |
| PoolRounds.RoundSucceeds | crates/node/src/block_producer.rs:103-145 | from such a pool and in step, a round succeeds within the gas limit, all its receipts say success, nonces advance by the counts, and the producer is in step again |
| PoolRounds.RoundTakesPrefixes | crates/node/src/block_producer.rs:109-124 | the block of a round takes a nonce prefix of every sender's run |
| PoolRounds.RoundKeepsSteady | crates/node/src/chain.rs:346-351 | if besides no queue has a gap, the pool after a round is again like that, from the new nonces on |
| PoolRounds.SubmitKeepsSteady | crates/txpool/src/pool.rs:57-103 | submitting the pending nonce at a price no higher keeps a pool without gaps like that |
| PoolRounds.EveryRoundSucceeds | crates/node/src/block_producer.rs:103-145 | however submissions and rounds alternate, every round succeeds with every action in it |
| PoolRounds.EveryRoundFromGenesis | crates/node/src/block_producer.rs:103-145 | in particular from any genesis, with a producer started together with the chain |
| Governance.ValidatorManager.ProposeChange | crates/consensus/src/validator_manager.rs:201-261 | refuses for the first of the code's reasons, or opens a proposal with the proposer's vote, executed at once where the quorum is one |
| Governance.ValidatorManager.CastVote | crates/consensus/src/validator_manager.rs:264-306 | refuses for the first of the code's reasons, or adds the vote and then decides if a quorum is reached |
| Governance.ValidatorManager.ExecuteIfQuorum | crates/consensus/src/validator_manager.rs:309-357 | at an approving quorum the change is made and recorded, at a rejecting one the proposal is rejected, otherwise nothing happens |
| Governance.ValidatorManager.ExpireProposals | crates/consensus/src/validator_manager.rs:360-378 | exactly the pending proposals at their expiry block expire, and these are reported |
| GovernanceEffects.QuorumExactly | crates/consensus/src/validator_manager.rs:193-198 | a number of votes is a quorum if and only if it is at least the configured share, with nothing lost by rounding |
| GovernanceEffects.VoteExactly | crates/consensus/src/validator_manager.rs:264-345 | a first vote of a validator on a pending proposal executes it if the votes for suffice, else rejects it if those against do; exactly one address comes or goes; any other vote changes nothing |
| GovernanceEffects.ProposedExactly | crates/consensus/src/validator_manager.rs:201-261 | who may propose what; a proposal has its proposer's vote and its deadline, and is executed at once if and only if one vote suffices |
| GovernanceEffects.RefusedFor | crates/consensus/src/validator_manager.rs:201-300 | each refusal if and only if its reason holds and none before it |
| GovernanceEffects.ExpiresAtDeadline | crates/consensus/src/validator_manager.rs:360-378 | over any run that follows: a proposal is not expired before its block plus the time to live, and the first expiry from then on ends it if and only if it is still pending |
| GovernanceRuns.HistoryReplays | crates/consensus/src/validator_manager.rs:309-345 | on every run the validators are the replay of the history, which has one entry per executed proposal |
| GovernanceRuns.RunKeepsConsistent | crates/consensus/src/validator_manager.rs:201-378 | also: votes are distinct and disjoint, and `Approved` is never visible between calls |
| GovernanceRuns.DecidedStaysDecided | crates/consensus/src/validator_manager.rs:264-306 | a proposal that is no longer pending never changes its phase or its votes |
| GovernanceRuns.QuorumsShareAValidator | crates/consensus/src/validator_manager.rs:193-198 | with a quorum above one half, any two quorums share a validator |
| GovernanceRuns.NeverBothQuorums | crates/consensus/src/validator_manager.rs:309-357 | approval and rejection of one proposal cannot both reach quorum |
| GovernanceRuns.ExecutionSafeExactly | crates/consensus/src/validator_manager.rs:309-345 | executing a change keeps a distinct set within its bounds if and only if the change is still valid or removes nobody |
| GovernanceRuns.ExecutesExactly | crates/consensus/src/validator_manager.rs:201-357 | an event executes and records exactly the change that the state before it tells: an accepted proposal or vote with a quorum in favour |
| GovernanceRuns.SafeRunExactly | crates/consensus/src/validator_manager.rs:201-378 | on a run the set stays distinct and within its bounds if and only if before each event the change it is going to execute was still valid or removes nobody |
| GovernanceRuns.OverlappingAddsDuplicate | crates/consensus/src/validator_manager.rs:309-345 | a concrete run in which an address is a validator twice |
| GovernanceRuns.VoteAgainstExecutes | crates/consensus/src/validator_manager.rs:264-345 | a concrete run in which a vote against an addition executes it, a removal having lowered the quorum meanwhile |
| GovernanceRuns.SetStaysInBounds | crates/consensus/src/validator_manager.rs:201-378 | with at most one proposal pending at any time, the set stays distinct and within its bounds on every run |
| GovernanceRuns.OrderlyRuns | crates/consensus/src/validator_manager.rs:201-378 | and every pending proposal is still undecided, its voters all validators |
| GovernanceRuns.EachPositionOnce | crates/consensus/src/validator_manager.rs:381-387 | over as many heights as there are validators, each position proposes exactly once |
| Trading.TradeManager.ProposeTrade | crates/game-engine/src/trading.rs:127-159 | with neither player registered in a trade, a new trade is opened and only the initiator is registered; otherwise nothing changes |
| Trading.TradeManager.AcceptTrade | crates/game-engine/src/trading.rs:162-182 | only the acceptor, only a proposed trade: negotiation starts and the acceptor's entry is overwritten, whatever it was |
| Trading.TradeManager.AddToOffer | crates/game-engine/src/trading.rs:185-231 | the item's stack in the player's own offer grows or is added, and both confirmations are withdrawn |
| Trading.TradeManager.ConfirmTrade | crates/game-engine/src/trading.rs:234-288 | sets the player's flag; if the other had confirmed, the trade is completed, both entries go, and each receives the other's offer |
| Trading.TradeManager.CancelTrade | crates/game-engine/src/trading.rs:291-306 | a participant ends the trade, whatever its phase, and both entries go |
| Trading.TradeManager.TickExpirations | crates/game-engine/src/trading.rs:309-329 | exactly the live trades past their time-out expire, and their players' entries go, even entries for another trade |
| TradingEffects.NotExpiredInTime | crates/game-engine/src/trading.rs:309-329 | a trade proposed at a tick is never expired on a run whose expiries come no later than that tick plus the time-out |
| TradingEffects.ExpiresAfterTime | crates/game-engine/src/trading.rs:309-329 | the first later expiry makes it expired if and only if it was still live, and then neither player has an entry |
| TradingEffects.ExpiryExactly | crates/game-engine/src/trading.rs:309-329 | expiry ends exactly the live trades past their time and drops exactly their players' entries |
| TradingEffects.AddedExactly | crates/game-engine/src/trading.rs:185-231 | the player's own side has that much more of the item and of nothing else, the other side and all other trades are as before, and both confirmations are withdrawn |
| TradingEffects.ExecutedExactly | crates/game-engine/src/trading.rs:234-288 | a confirmation executes if and only if the other side confirmed before it; then exactly the two players lose their entries |
| TradingEffects.CancelledExactly | crates/game-engine/src/trading.rs:291-306 | a participant ends the trade in any phase and exactly the two players lose their entries; nobody else can |
| TradingEffects.RefusedExactly | crates/game-engine/src/trading.rs:127-306 | each event is taken if and only if the right player sends it in the right phase |
| TradingEffects.AnsweredExactly | crates/game-engine/src/trading.rs:127-306 | what an accepted event is answered with, and the reason each other one is refused for |
| TradingEffects.OnlyItsOwn | crates/game-engine/src/trading.rs:127-306 | a refused event changes nothing, and an accepted one no other trade |
| TradingRuns.RunKeepsSound | crates/game-engine/src/trading.rs:127-329 | on every run the flags match the phase, consent is what was last seen, and active entries name live trades of that player |
| TradingRuns.ExecutedWithConsent | crates/game-engine/src/trading.rs:234-288 | an execution hands over exactly the two offers that both parties saw at their last confirmation |
| TradingRuns.ExecutedAtMostOnce | crates/game-engine/src/trading.rs:234-288 | on every run a trade is executed at most once |
| TradingRuns.OverIsOver | crates/game-engine/src/trading.rs:127-329 | a trade that is over stays over and keeps its deal |
| TradingRuns.OneTradeAtATime | crates/game-engine/src/trading.rs:127-182 | where all live trades are registered, nobody takes part in two |
| TradingRuns.RegisteredExactly | crates/game-engine/src/trading.rs:162-329 | an event keeps every live trade registered if and only if the entries it overwrites or drops belong to the trade itself |
| TradingRuns.RegisteredRunExactly | crates/game-engine/src/trading.rs:162-329 | so on a run, all live trades stay registered if and only if every event is of that kind |
| TradingRuns.AcceptTwice | crates/game-engine/src/trading.rs:162-182 | a concrete run in which a player has two live trades, one of them registered |
| Quests.QuestRegistry.Register | crates/game-engine/src/quests.rs:349-351 | the definition is stored under its id, replacing an earlier one |
| Quests.QuestRegistry.AcceptQuest | crates/game-engine/src/quests.rs:387-455 | refuses for the first of six reasons, or the quest is active with nothing done |
| Quests.QuestRegistry.OnDeed | crates/game-engine/src/quests.rs:458-551 | computes the progress of every active quest and its reports, in order |
| Quests.QuestRegistry.CheckCompletions | crates/game-engine/src/quests.rs:554-578 | the removal by descending index leaves exactly the unfinished quests in order, records the finished ones last first, and rewards them in list order |
| Quests.RemoveAt | crates/game-engine/src/quests.rs:570-575 | the removal loop by itself: descending indices name what they named before |
| QuestEffects.DeedExactly | crates/game-engine/src/quests.rs:458-551 | a deed moves exactly the open objectives of its kind and target, in every active quest, by what was done; they are complete as soon as the requirement is met, and only kills run past it |
| QuestEffects.ReportsExactly | crates/game-engine/src/quests.rs:458-551 | one report for each objective that moved, in order and with its new count |
| QuestEffects.ReportsInOrder | crates/game-engine/src/quests.rs:458-551 | quests are reported on in the order of the list |
| QuestEffects.AcceptedExactly | crates/game-engine/src/quests.rs:387-455 | a quest is accepted if and only if it is known, the level and all prerequisites are reached, it is not active, not completed unless repeatable, and there is room; it starts with nothing done and the right requirements |
| QuestEffects.RefusedFor | crates/game-engine/src/quests.rs:387-434 | the reason a quest is refused for, with the missing level or prerequisites, each only if none before it applies |
| QuestEffects.HandedInOrder | crates/game-engine/src/quests.rs:554-578 | what stays and what is handed in keep the order of the list |
| QuestEffects.RecordedBackwards | crates/game-engine/src/quests.rs:570-575 | the finished quests are recorded after the earlier ones, last of the list first |
| QuestRuns.HandInSplits | crates/game-engine/src/quests.rs:554-578 | the list before is exactly what is left and what is handed in |
| QuestRuns.QuestsOnEveryRun | crates/game-engine/src/quests.rs:387-578 | on every run active and completed quests have all prerequisites completed, active quests are different and within the limit, acceptances less rewards are one for an active quest and none otherwise, and what is not repeatable completes at most once |
| QuestRuns.ProgressOnEveryRun | crates/game-engine/src/quests.rs:458-551 | with positive counts, progress never passes what is required and an objective is complete exactly at it |
| QuestReach.HopelessNeverCompleted | crates/game-engine/src/quests.rs:20-29 | a quest with an objective to explore, deliver or talk is never completed, whether or not anything depends on it |
| QuestReach.OpenExactly | crates/game-engine/src/quests.rs:406-414 | a quest is open if and only if it is known, has no such objective, and all its prerequisites are open |
| QuestReach.OnlyOpenOnEveryRun | crates/game-engine/src/quests.rs:387-578 | on every run only open quests are completed, and only quests with open prerequisites are active |
| QuestReach.ActiveCanFinish | crates/game-engine/src/quests.rs:458-578 | in any sound state an active quest without such an objective is completed by some deeds and one check, whatever else is active |
| QuestReach.CompletableExactly | crates/game-engine/src/quests.rs:387-578 | a new player with room for a quest can complete a quest on some run if and only if it is open |
| QuestRoom.CompletableFromExactly | crates/game-engine/src/quests.rs:387-578 | from any sound state: a quest can still be completed if and only if it is completed already, or it is open and hopeless quests leave a place on the list |
| QuestRoom.CompletableAfterExactly | crates/game-engine/src/quests.rs:387-578 | in particular after any run of a new player |
| QuestRoom.BlockedForGood | crates/game-engine/src/quests.rs:424-426 | with a list full of hopeless quests nothing is completed any more, whatever is done |
| QuestRuns.KillOvershootsExactly | crates/game-engine/src/quests.rs:467-471 | a kill passes what is required if and only if nothing is required |
| QuestRuns.OfferedExactly | crates/game-engine/src/quests.rs:364-379 | a quest is available if and only if accepting it can fail for nothing but a full list |
| Items.Roll | crates/game-engine/src/items.rs:132-162 | the roll gives nothing or the chosen entry with its quantity |
| Items.PickExactly | crates/game-engine/src/items.rs:146-148 | an entry is chosen exactly by the residues between the weight before it and up to it |
| Items.ExactShares | crates/game-engine/src/items.rs:132-148 | exactly `weight` residues choose each entry |
| Items.NothingShare | crates/game-engine/src/items.rs:132-144 | exactly the weight of nothing many residues choose nothing, also in a table without entries |
| Items.TrailingNoneUnreachable | crates/game-engine/src/items.rs:141-161 | the final `None` is never reached with a positive total |
| Items.QuantityInRange | crates/game-engine/src/items.rs:150-156 | the quantity is between its bounds |
| Items.EveryQuantityExactly | crates/game-engine/src/items.rs:150-156 | every quantity in the range can come up if and only if the range size fits 32 bits |
| Pruning.PruningEngine.OnNewBlock | crates/storage/src/pruning.rs:151-166 | the head moves, and a pass is made when the interval has gone by |
| Pruning.PruningEngine.GenerateTargets | crates/storage/src/pruning.rs:169-227 | the targets and what is left of lowest number and queue after at most a batch, stopping at the cutoff or at a queued block above it |
| Pruning.PruningEngine.EnqueueBlock | crates/storage/src/pruning.rs:237-239 | any block is appended to the queue |
| Pruning.PruningEngine.PrunableCount | crates/storage/src/pruning.rs:261-273 | the numbers from the lowest up to the cutoff, none in archive mode or while the head is within the window |
| Pruning.TakingExactly | crates/storage/src/pruning.rs:185-215 | a pass hands out the lowest numbers in turn, as many as due, if and only if the queue it consumes names them |
| Pruning.PassExactly | crates/storage/src/pruning.rs:181-215 | a pass whose queue agrees emits the smaller of batch size and prunable count, in turn |
| Pruning.PassSpares | crates/storage/src/pruning.rs:181-253 | whatever is queued, no pass hands out a block that is retained |
| PruningEffects.PassHandsOut | crates/storage/src/pruning.rs:169-227 | whatever is queued: queued blocks go out as enqueued and in order, then the numbers after them, with their headers or without; the pass stops only at the batch size, the cutoff or a retained block |
| PruningEffects.PassesExactly | crates/storage/src/pruning.rs:151-166 | a block makes a pass if and only if the interval has elapsed since the last one, a lower number counting as far ahead |
| PruningEffects.PassEveryInterval | crates/storage/src/pruning.rs:151-166 | on a chain that grows block by block a pass happens at every `interval`-th block |
| PruningRuns.RunExactly | crates/storage/src/pruning.rs:151-253 | for any blocks queued at any time: the numbers a run hands out are those it would hand out with nothing queued, if and only if each pass finds its part of the queue in order |
| PruningRuns.UndisturbedInTurn | crates/storage/src/pruning.rs:151-227 | with nothing queued these are the consecutive numbers from the lowest on |
| PruningRuns.RunSpares | crates/storage/src/pruning.rs:151-253 | whatever is queued and when, no run hands out a block that is retained at its end or later |
| PruningRuns.BlockBounds | crates/storage/src/pruning.rs:151-166 | with batches no smaller than the interval and a queue in order, fewer than `keep + interval` blocks remain after a block |
| PruningRuns.RetentionOnEveryRun | crates/storage/src/pruning.rs:151-253 | on every run from a new engine whose passes find the queue in order: the consecutive numbers from the initial lowest, each once, none retained then or later, and the bound after every block |
| PruningRuns.GuardSuffices | crates/storage/src/pruning.rs:237-239 | queueing a block only as number lowest plus queue length keeps the queue in order for every pass |
| Pruning.LateEnqueueRepeats | crates/storage/src/pruning.rs:187-197 | a block queued after its number was handed out is handed out again, with every number after it up to the batch size, and the lowest number goes back |
| PruningRuns.OneBlockLate | crates/storage/src/pruning.rs:187-197 | a concrete run: the first block queued one block late is handed out twice |
| Peers.PeerManager.OnPeerConnected | crates/network/src/peer_manager.rs:217-268 | refused if banned or over a limit, otherwise connected with the initial score, a full table losing a lowest-scored peer first |
| Peers.PeerManager.EvictWorstPeer | crates/network/src/peer_manager.rs:334-348 | removes a peer that nobody scores below, if there is one |
| Peers.PeerManager.OnPeerDisconnected | crates/network/src/peer_manager.rs:271-275 | the peer is forgotten, its ban is not |
| Peers.PeerManager.RecordEvent | crates/network/src/peer_manager.rs:278-305 | the score moves by the event's amount within its range, and passing a threshold marks for disconnection or bans |
| Peers.PeerManager.UpdatePeerStatus | crates/network/src/peer_manager.rs:308-319 | the reported block and chain are stored, and a wrong chain id is rated |
| Peers.PeerManager.AdvanceTick | crates/network/src/peer_manager.rs:351-371 | scores decay when the interval has gone by, and exactly the bans whose time has come end |
| Peers.DecayExactly | crates/network/src/peer_manager.rs:355-365 | after `k` decays a score is closer to the initial score by exactly `k` amounts, never crosses it, and is there exactly when they suffice |
| PeersEffects.GoodMoves | crates/network/src/peer_manager.rs:50-64 | the points of every good event, within -500 and 500, and that it counts as good |
| PeersEffects.BadMoves | crates/network/src/peer_manager.rs:50-64 | the points of every bad event, within -500 and 500, and that it counts as bad |
| PeersEffects.EventMarks | crates/network/src/peer_manager.rs:278-305 | a peer is marked at -50 or less and banned for good at -200 or less, and nobody else is touched |
| PeersEffects.MisbehavingExactly | crates/network/src/peer_manager.rs:278-305 | after `k` bad events of one kind the score, whether the peer is marked and whether it is banned |
| PeersEffects.ReportExactly | crates/network/src/peer_manager.rs:308-319 | a foreign chain id costs 100 points, a missing one nothing |
| PeersEffects.DecaysExactly | crates/network/src/peer_manager.rs:351-365 | after `k` ticks scores have decayed once for every full interval since the last decay, and nothing else about a peer changed |
| PeersEffects.BanEndsExactly | crates/network/src/peer_manager.rs:187-194 | a ban holds for exactly the ticks before its end, or for good |
| PeersEffects.ConnectedExactly | crates/network/src/peer_manager.rs:217-268 | a newcomer is taken if and only if it is not banned and its direction has a place or gets one from the evicted peer; it starts with 100 points and everybody else stays |
| Peers.DecayInRangeExactly | crates/network/src/peer_manager.rs:355-365 | decay keeps every score in range if and only if its amount is not negative |
| Peers.PeersOnEveryRun | crates/network/src/peer_manager.rs:217-371 | on every run connections stay within the three limits and scores in range, no ban is lifted, and a banned connected peer is marked for disconnection |
| Peers.PeersFromNobody | crates/network/src/peer_manager.rs:150-371 | in particular on every run from a new manager |
| Peers.RefusedAfterEvictionExactly | crates/network/src/peer_manager.rs:224-247 | a refused newcomer costs a connected peer its place if and only if it is not banned, the table is full, its direction is at the limit, and the evicted peer frees no place in that direction |
| Peers.RefusedAfterEvictionReached | crates/network/src/peer_manager.rs:217-268 | a concrete run from an empty manager that ends so |

## Left out

- Integer overflow: 64-bit numbers, ticks, ids and gas are unbounded here. The 256-bit balance, the 32-bit quest counters, the 32-bit drop range and the 64-bit difference in pruning are modelled with their limits.
- Panics: `bodies_per_request` and the quorum denominator are required to be positive where the code would divide by zero; a quest's progress list is required to be as long as its objectives, which every run from a new player keeps.
- Cryptography and encodings: Keccak, secp256k1, RLP, bincode and JSON are functions or identities here; that a block's transactions root matches its body is not checked by the node either.
- The virtual machine: `ExecuteEvm` follows the node's own nonce check, charges and receipts, but what an execution and the write-back do to accounts comes from an oracle; claims about receipts are therefore about game actions.
- The game world: what a tick does is not modelled, only whether it fails.
- Rollback of accounts on a reorganisation: the node does not do it, so neither does the model, and no claim is made about accounts after one.
- State roots: `compute_state_root` hashes only the cached accounts and is left out.
- Thread interleavings: each method is atomic.
- A changing validator set inside one chain run: the rules of a chain are fixed; governance is modelled on its own.
- Network service, RPC, sessions, subscriptions, metrics, configuration, command line, logging: plumbing.
- Combat, physics, terrain, NPC movement, shop prices: floating point with little state.
- Chain cache, skill points, crafting, entity storage, pruning statistics: simpler invariants that would only add easy members.
- The sync engine's own ban list: only its own two accessors use it.
- Reassembly.Intake.BlockReceived: whether the chain takes a block is a parameter of the class, so that its results hold for any verdict; `ReassemblyChain` puts the chain itself in its place, on values.
- Quests.QuestRegistry.OnDeed: one method stands for the loops of the kill, gather and craft handlers, which differ in the objective they match and in capping.
