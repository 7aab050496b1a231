# Solen: a verified model of consensus, rollback and execution

Solen is a settlement chain. Validators vote on candidate blocks and finalize a block
once more than two thirds of the stake attests to it. A node that produces a block
writes it to its live store before finality and keeps an undo for it; peer blocks are
executed only when they are finalized. This project models the parts of the node where
those steps interact and proves what they promise.

The model has five parts.

1. **Fork choice and finality.** `Validators`, `ProposerRank`, `Engine`,
   `ForkChoice`, `Safety`, `HonestFork`, `Progress`, `Origins`, `Ballots`,
   `RosterMoves`. A node's state is a value (`Engine.Node`) and a step is a relation
   between two such values: hash maps are walked in an order the code does not fix, and
   that order is the only freedom a step has. `Safety` puts many nodes into a network with the set of every
   ballot ever signed and the set of every finalization.
2. **Eager commit, undo and rollback.** `Storage`, `EngineInvariant`, `EngineSteps`,
   `EngineRuns`, `Reproposal`, `UnsafeProduce`, `BlockRecords`, `Recovery`,
   `Rollback`. The store is a map from keys to values; only `State` keys enter the state
   root. `EngineInvariant.Inv` says what every live step keeps, with the state after each finalized block carried along as
   a history.
3. **The engine as an object.** `EngineClass` holds the mutable engine. Each method is
   proved to implement its step relation, so everything proved of steps and runs holds of
   the object.
4. **Operations.** `Ledger`, `Calls`, `CallTree`, `CallEffects`, `Operations`, `OperationLaws`,
   `Authorization`, `Balances`, `AccountChanges`, `Nonces`, `Frames`, `Isolation`,
   `Sessions`, `Blocks`, `Budgets`, `ExecutorClass`. The VM, the system contracts
   and the signature schemes are arbitrary functions in `Calls.Env`. `ExecutorClass` is the mutable executor,
   proved against the functions the laws are about.
5. **Epochs, pool and snapshots.** `Rewards`, `RewardShares`, `EpochTransition`,
   `Turnover`, `Mempool`, `Snapshot`.

Assumptions appear as preconditions and nowhere else: `RootInjective` (state roots
determine the state), `HashInjective` (block hashes do not collide), `ReadsState`
(execution reads the state and the stored height only, used for `Reproposal`), `VmSound`
(the VM never reports more gas than its fuel, on success or failure), `Sane` (commission at most 100 percent,
eligible delegations within the stake), a supply of at most 2^128 - 1 and a burn rate of
at most 100 percent.

Eight promises do not hold of the code as it stands. Each comes with a failing family of
inputs and with what does hold, as an exact condition where there is one on the call:

- Two blocks can be finalized at one height although no node signs outside the fork
  choice: nodes that move their vote, as fork choice tells them to, are enough
  (`HonestFork.HonestNodesFork`). What holds is `Safety.AccountableSafety`, in which a
  validator that moves its vote counts among those that voted for both, and
  `Safety.OneHashPerHeight` below a third of such stake.
- Producing again while an own candidate without effect is held loses the undo of the new
  block (`EngineSteps.ProposeKeepsIff`, `UnsafeProduce.OverwriteStrands`). Runs in
  `EngineRuns` exclude exactly that call.
- `rollback_to_height` does not undo a pending eager commit first; it succeeds if and only
  if every key that is off the tip was written by an undone block
  (`Rollback.RollbackSucceedsIff`, `Rollback.PendingCommitBlocks`).
- A crash while a block is being finalized can boot off the tip: for an own block between
  dropping its undo record and storing the height, if and only if the block had an effect
  (`Recovery.CrashBetweenWrites`); for a peer block between its commit and storing the
  height, if and only if it changed a key that no record still held covers
  (`Recovery.CrashAfterPeerCommit`).
- `Deploy` may replace a funded account that has no code; supply is exact if and only if
  every deployment finds its address without a balance (`OperationLaws.ConservesIff`,
  `OperationLaws.DeployDestroys`).
- The same deployment resets the account's nonce and authorisation; a successful operation
  lowers no nonce if and only if it deploys only to addresses, other than the sender's,
  that have nonce zero before the call (`Nonces.NoncesHoldIff`, `Nonces.DeployReplaces`). Laws over many blocks that need nonces
  to hold (`Blocks.RunGrows`, `Blocks.NoReplay`) ask for exactly that.
- The limit on stake change per epoch holds only the first entry of a newcomer listed
  twice in staking against the cap (`Turnover.SecondEntry`, `Turnover.RepeatedEntryEscapes`). The bound on
  the sets themselves is `Turnover.TurnoverBounded` for lists with distinct identities and
  `Turnover.TurnoverLeast` for every list.
- A refused `submit` to a full pool may already have evicted an entry
  (`Mempool.RefusalEvictsIff`, `Mempool.ResendEvicts`).

In `Safety`, `revotes` is the history of a node's own votes; the node layer drains that
queue when it broadcasts.

Where the code and its own comments disagree, the model follows the code: a transfer
creates a missing recipient although its comment says both accounts must exist
(crates/solen-execution/src/state.rs:150-179), and the pool admits operations of up to
8 MB although the comment says 256 KB (crates/solen-consensus/src/mempool.rs:77-79).

## Model

| member | source | states |
|---|---|---|
| Storage.UndoRestores | crates/solen-execution/src/executor.rs:586-600 | Applying the captured old values after a change set gives back exactly the store before it. |
| Storage.ApplyBatch | crates/solen-storage/src/traits.rs:82-101 | Writing a batch entry by entry, in any order of its map, gives the one store the batch describes. |
| Validators.StakeIsCommitted | crates/solen-consensus/src/validator.rs:206-231 | Total stake and voter stake depend only on which identities and stakes are committed: neither local jailing nor the order a node stores its validators in moves either side of the quorum inequality. |
| Validators.QuorumsIntersect | crates/solen-consensus/src/validator.rs:206-220 | Two quorums over the same committed stakes, whatever is jailed locally and in whatever order each node stores them, share more than a third of the stake. |
| Validators.QuorumIff | crates/solen-consensus/src/validator.rs:206-220 | Attesters are a quorum if and only if less than a third of the total stake is missing: a silent third blocks, anything less does not. |
| Validators.QuorumExclusive | crates/solen-consensus/src/validator.rs:206-220 | Disjoint sets of voters cannot both have a quorum. |
| Validators.ActiveOrderIndependent | crates/solen-consensus/src/validator.rs:55-59 | The sorted active list is the same for every stored order of validators with distinct ids. |
| Validators.OwnerUnique | crates/solen-consensus/src/validator.rs:92-134 | Each residue modulo the total stake selects at most one validator. |
| Validators.SelectionIsProportional | crates/solen-consensus/src/validator.rs:92-134 | Exactly as many residues modulo the total select a validator as it has stake. |
| Validators.ProposerForHeight | crates/solen-consensus/src/validator.rs:92-134 | The cumulative loop returns the designated proposer: none without active validators, the rotation in the genesis epoch, the first without stake, else the owner of the drawn residue; it never reaches its fallback. |
| Validators.ProposerAgreement | crates/solen-consensus/src/validator.rs:92-134 | Nodes that store the same validators in different orders designate the same proposer, in every branch of the choice. |
| Validators.OrderListsActive | crates/solen-consensus/src/validator.rs:143-186 | The proposer order lists exactly the active validators, in the genesis rotation and in the scored order. |
| ProposerRank.LowerDrawFirst | crates/solen-consensus/src/validator.rs:143-186 | After the genesis epoch, of two active validators the one that drew less per unit of stake comes first, the lower identity on a tie, and validators without stake last. |
| ProposerRank.GenesisRotates | crates/solen-consensus/src/validator.rs:143-158 | In the genesis epoch the order starts at the height modulo the number of active validators and goes round. |
| Validators.IndexOf | crates/solen-consensus/src/validator.rs:234-236 | The first entry with the identity, or none if there is none. |
| Validators.ValidatorSet.Remove | crates/solen-consensus/src/validator.rs:244-246 | Exactly the entries with other identities stay, in order. |
| Validators.ValidatorSet.Jail | crates/solen-consensus/src/validator.rs:249-256 | Only the named validator's status changes, it leaves the active set, and no quorum verdict changes. |
| ForkChoice.Tally | crates/solen-consensus/src/engine.rs:2079-2088 | For any walk of the votes, each voted hash maps to exactly its voters. |
| ForkChoice.WinnerUnique | crates/solen-consensus/src/engine.rs:2151-2183 | At most one hash at a height can have quorum and be held. |
| ForkChoice.FindWinner | crates/solen-consensus/src/engine.rs:2151-2183 | Returns a hash to finalize if there is one, and none only if there is none. |
| ForkChoice.LeaderUnique | crates/solen-consensus/src/engine.rs:2093-2138 | Stake, then proposer rank, then hash leaves a single leader. |
| ForkChoice.LeaderExists | crates/solen-consensus/src/engine.rs:2093-2138 | There is a leader exactly when some voted hash is held and not marked invalid. |
| ForkChoice.FindLeader | crates/solen-consensus/src/engine.rs:2093-2138 | The running best over any walk of the tally is that leader; none exactly when no hash is viable. |
| ForkChoice.BeatsTotal | crates/solen-consensus/src/engine.rs:2117-2132 | Of two different hashes exactly one is better. |
| ForkChoice.BeatsTransitive | crates/solen-consensus/src/engine.rs:2117-2132 | Being better is transitive. |
| ForkChoice.LeadsIff | crates/solen-consensus/src/engine.rs:2093-2138 | The leader is exactly the held, voted and unmarked hash with the most stake behind it; on a tie the one whose proposer comes first, then the smaller hash. |
| ForkChoice.LeadersTie | crates/solen-consensus/src/engine.rs:2093-2138 | Two nodes with the same view and committed stakes, stored in any order, follow different leaders only on a tie in stake, whatever each has jailed. |
| ForkChoice.SameViewSameLeader | crates/solen-consensus/src/engine.rs:2093-2138 | With the same proposer order as well they follow the same leader. |
| EngineInvariant.RestoreExact | crates/solen-consensus/src/engine.rs:1001-1077 | In a live state, restoring lands on exactly the tip's state, asks for no resync, is the identity on the tip, and otherwise drops only the executed candidates. |
| EngineInvariant.RestoredNode | crates/solen-consensus/src/engine.rs:1001-1077 | Off the tip there is one executed candidate and restoring applies its undo and nothing else. |
| EngineSteps.OwnCandidateOk | crates/solen-consensus/src/engine.rs:1321-1462 | A produced candidate is at the next height, chains to the tip, claims the root the store has, and its undo in memory equals the one on disk. |
| EngineSteps.ProposeKeepsIff | crates/solen-consensus/src/engine.rs:1335-1462 | Producing on the tip keeps the invariant if and only if it is not a block with an effect over a held executed candidate. |
| EngineSteps.JournalGrows | crates/solen-consensus/src/engine.rs:177-215 | Recording the next block keeps the journal contiguous, within its cap, and rewinding block by block. |
| EngineSteps.PeerRunsOnTip | crates/solen-consensus/src/engine.rs:2408-2432 | A peer candidate is always executed on the tip's own state. |
| EngineSteps.RejectKeeps | crates/solen-consensus/src/engine.rs:2424-2473 | A peer block that does not reproduce its root leaves the store as it was, and the invariant holds with the block marked. |
| EngineSteps.FinalizeKeeps | crates/solen-consensus/src/engine.rs:2225-2258 | Finalizing a held hash appends exactly that block with exactly its voters, or marks it invalid and keeps the tip; the invariant holds either way. |
| EngineRuns.StepKeeps | crates/solen-consensus/src/engine.rs:1113-2294 | Every produce, accept, attest and jailing step keeps the invariant, and grows the chain by at most one block, certified by a quorum and not marked invalid. |
| EngineRuns.RunInvariant | crates/solen-consensus/src/engine.rs:1113-2557 | In every state of every live run the store is the tip's or the tip's plus one own candidate whose undo is in memory and on disk, blocks link by height and parent hash, candidates are for the next height, no resync is requested, and the chain only grows. |
| EngineRuns.InvalidNeverFinalized | crates/solen-consensus/src/engine.rs:2440-2509 | A hash once marked execution-invalid at a height is on the chain at that height in no later state. |
| EngineRuns.ProposalAccepted | crates/solen-consensus/src/engine.rs:1630-1861 | What a producer makes passes every check of a peer on the same tip that counts the producer as active. |
| Progress.RunSettled | crates/solen-consensus/src/engine.rs:2142-2221 | In every state of every live run, no block that is held and not marked invalid has less than a third of the stake missing: the moment it does, it is finalized or marked. |
| Progress.AttestDecides | crates/solen-consensus/src/engine.rs:2262-2294 | An attestation that brings the missing stake of a held block below a third puts that block on the chain or marks it invalid. |
| Progress.ArrivalDecides | crates/solen-consensus/src/engine.rs:2046-2076 | A block that arrives after its votes is decided on arrival. |
| Progress.VoteFollows | crates/solen-consensus/src/engine.rs:2185-2221 | Where no block has its votes yet, an active node ends with its own vote on the leader, or has just decided it. |
| Origins.CandidateOrigin | crates/solen-consensus/src/engine.rs:1630-1861 | In every state of every run, a held block was held at the start, produced by this node, or delivered with a valid 64-byte signature of a proposer active then, for the next height, on the tip, in time, permitted, unmarked and outside a resync. |
| Origins.BlockOrigin | crates/solen-consensus/src/engine.rs:1630-1861 | So was every block finalized since the start, with exactly the operations it carries. |
| Origins.TimesRise | crates/solen-consensus/src/engine.rs:1630-1861 | Along the chain each such block is later than its parent (an own block may be at the 64-bit end of the clock) and its epoch is its height divided by 100. |
| Ballots.VoteOrigin | crates/solen-consensus/src/engine.rs:2262-2294 | In every state of every run, each recorded vote is the node's own, was there at the start, or came from a validator active then, at most 64 heights ahead. |
| Ballots.EarlyVoteKept | crates/solen-consensus/src/engine.rs:2262-2294 | A vote of an active validator for a later height within reach is recorded and changes nothing else. |
| RosterMoves.RosterFollowsChain | crates/solen-consensus/src/engine.rs:2509-2557 | Apart from jailing, a step changes the validator set and seed if and only if it finalizes a block, and then to the outcome of that block's epoch transition. |
| RosterMoves.InactiveQuiet | crates/solen-consensus/src/engine.rs:2185-2221 | While a node is not an active validator and produces nothing, it casts no vote, in any run. |
| BlockRecords.RunStored | crates/solen-consensus/src/engine.rs:2490-2509 | In every state of every live run the body of each block finalized since the start is stored, a restart reads the height and epoch of the tip, and the journal holds an undo for each of those blocks up to 256. |
| BlockRecords.RunVoteStored | crates/solen-consensus/src/engine.rs:486-493 | In every state of every live run the stored last attestation is that of the last block this node produced. |
| Reproposal.SameProposal | crates/solen-consensus/src/engine.rs:1321-1372 | A proposal is determined by the chain, the state and the stored height. |
| Reproposal.ReproposalSame | crates/solen-consensus/src/engine.rs:1351-1372 | In any live run, two proposals of the same operations at one height are the same block, whatever was produced, accepted or rejected in between. |
| UnsafeProduce.IdleThenBusy | crates/solen-consensus/src/engine.rs:1006-1008 | After an idle proposal, the calls that break the invariant are exactly those that would change state. |
| UnsafeProduce.OverwriteStrands | crates/solen-consensus/src/engine.rs:1434-1462 | After that call, finalizing the old candidate leaves the store off the tip with nothing held that leads back. |
| UnsafeProduce.StrandedResyncs | crates/solen-consensus/src/engine.rs:1055-1076 | From there every restore asks for a resync and stays off the tip. |
| Safety.StepSincere | crates/solen-consensus/src/engine.rs:1113-2294 | With verified attestations, a node's recorded votes were all cast, and a block it finalizes rests on a quorum of cast ballots at the next height, in every run, the unsafe call included. |
| Safety.AccountableSafety | crates/solen-consensus/src/engine.rs:2025-2258 | In every run of the network, two finalizations at one height over the same committed stakes, stored in any order, mean that more than a third of the stake cast ballots for both hashes. |
| Safety.OneHashPerHeight | crates/solen-consensus/src/engine.rs:2025-2258 | With at most a third of stake voting for two hashes, at most one hash is ever finalized at a height. |
| Safety.ChainsAgree | crates/solen-consensus/src/engine.rs:2025-2258 | Then nodes that start from one chain hold the same header at every position both have reached, in every state of every run. |
| HonestFork.HonestNodesFork | crates/solen-consensus/src/engine.rs:2025-2221 | The promise that only equivocation finalizes two hashes fails: from any quiet chain, four equal validators that follow the fork choice reach, by honest moves alone, a network with two certificates for different blocks at one height over the same validators. |
| Recovery.EagerUndoExact | crates/solen-execution/src/executor.rs:635-672 | An eager commit and its undo record cancel out on the whole store. |
| Recovery.RecoveryExact | crates/solen-consensus/src/engine.rs:3509-3551 | For any stack of eagerly committed blocks above the tip, replaying the records newest first gives back exactly the finalized store, with records at or below the tip untouched. |
| Recovery.PickNewest | crates/solen-consensus/src/engine.rs:3536-3543 | Selects the greatest height of a set. |
| Recovery.ApplyDurableReverts | crates/solen-consensus/src/engine.rs:3509-3551 | The scan-and-apply procedure computes that replay and reports whether any record applied. |
| Recovery.RestartRecovers | crates/solen-consensus/src/engine.rs:318-335 | A node that stops in any live state boots on its finalized tip with no record above it. |
| Recovery.RestartInv | crates/solen-consensus/src/engine.rs:311-367 | The booted node satisfies the live invariant again, at the same height. |
| Recovery.BootStarts | crates/solen-consensus/src/engine.rs:311-367 | Any store with a height and no record above it boots into the live invariant. |
| Recovery.RunRestarts | crates/solen-consensus/src/engine.rs:318-335 | At every point of every live run a restart reaches the root of the last finalized block. |
| Recovery.CrashBetweenWrites | crates/solen-consensus/src/engine.rs:2502-2504 | For an own block: a crash after the undo record is dropped and before the height is stored boots on the tip if and only if the block had no effect. |
| Recovery.CrashAfterPeerCommit | crates/solen-consensus/src/engine.rs:2424-2504 | For a peer block, committed without an undo record: a crash before the height is stored boots on the tip if and only if every state key it changed is covered by a record still held for that height. |
| Rollback.RollbackJournal.constructor | crates/solen-consensus/src/engine.rs:183-188 | An empty journal with a cap of at least one. |
| Rollback.RollbackJournal.Add | crates/solen-consensus/src/engine.rs:190-203 | Recording is append, clear on a gap in heights, and keep the newest entries up to the cap. |
| Rollback.AdmittedBlock | crates/solen-consensus/src/engine.rs:832-847 | Every admitted target is the height of a block on the chain, strictly below the tip, from which on the journal holds the undo of every later block. |
| Rollback.AdmitsIff | crates/solen-consensus/src/engine.rs:832-847 | Exactly the heights below the tip that the journal reaches are admitted, one for each entry. |
| Rollback.RollbackJournal.TruncateTo | crates/solen-consensus/src/engine.rs:886-891 | Entries above the target are dropped from the back. |
| Rollback.RewoundAt | crates/solen-consensus/src/engine.rs:849-865 | After a rewind a key has the target state's value if an undone block wrote it, and its value from before the call otherwise. |
| Rollback.RewoundIff | crates/solen-consensus/src/engine.rs:849-865 | A rewind restores exactly the target's state if and only if every key off the tip was written by an undone block. |
| Rollback.RollbackRestores | crates/solen-consensus/src/engine.rs:832-915 | With the store at the tip, rolling back to any admitted target succeeds with the state right after the target block, and chain, journal and stored height all end there. |
| Rollback.RolledBackMeta | crates/solen-consensus/src/engine.rs:880-915 | After a rollback a restart reads the target height and its epoch, and the root is the expected one. |
| Rollback.RollbackSucceedsIff | crates/solen-consensus/src/engine.rs:832-879 | With a pending eager commit the root comparison passes if and only if no key off the tip was left out by the undone blocks. |
| Rollback.PendingCommitBlocks | crates/solen-consensus/src/engine.rs:832-879 | After a proposal that changes a state key no journalled block wrote, rolling back fails for every admitted target. |
| EngineClass.UndoExecuted | crates/solen-consensus/src/engine.rs:1009-1054 | The undo of every executed candidate, highest first, in an order the relation allows. |
| EngineClass.ConsensusEngine.constructor | crates/solen-consensus/src/engine.rs:311-367 | Boot repairs the store from its records and stands on the stored height with the store's own root. |
| EngineClass.ConsensusEngine.Reconcile | crates/solen-consensus/src/engine.rs:1055-1077 | Durable records are the second resort and a resync request the last. |
| EngineClass.ConsensusEngine.Restore | crates/solen-consensus/src/engine.rs:1001-1077 | Implements the restore relation. |
| EngineClass.ConsensusEngine.ExecuteChecked | crates/solen-execution/src/executor.rs:692-714 | The block is committed if and only if it reproduces the claimed root; otherwise the store is exactly as before. |
| EngineClass.ConsensusEngine.AppendBlock | crates/solen-consensus/src/engine.rs:2490-2509 | Chain, journal, undo record, stored block and height, and invalid marks move together. |
| EngineClass.ConsensusEngine.MarkInvalid | crates/solen-consensus/src/engine.rs:2440-2473 | The hash is marked at the height and our own vote for it withdrawn. |
| EngineClass.ConsensusEngine.FinalizePeer | crates/solen-consensus/src/engine.rs:2408-2509 | A peer block is executed, compared, and appended or rejected. |
| EngineClass.ConsensusEngine.FinalizePending | crates/solen-consensus/src/engine.rs:2388-2557 | An own block is appended as executed; a peer block is concluded on the restored node. |
| EngineClass.ConsensusEngine.Finalize | crates/solen-consensus/src/engine.rs:2225-2258 | Implements finalization of one candidate with its voters. |
| EngineClass.ConsensusEngine.Follow | crates/solen-consensus/src/engine.rs:2185-2221 | Our vote moves to the leader, and the leader is finalized if that completes its quorum. |
| EngineClass.ConsensusEngine.Reevaluate | crates/solen-consensus/src/engine.rs:2142-2221 | Implements re-evaluation: a winner first, else the leader, only at the next height. |
| EngineClass.ConsensusEngine.CommitEagerly | crates/solen-execution/src/executor.rs:635-672 | The block's writes and their undo record land in one batch. |
| EngineClass.ConsensusEngine.ProposeBlock | crates/solen-consensus/src/engine.rs:1321-1462 | Implements proposing: header, eager commit, candidate and vote. |
| EngineClass.ConsensusEngine.ProduceBlock | crates/solen-consensus/src/engine.rs:1113-1475 | Implements the produce step. |
| EngineClass.ConsensusEngine.AcceptBlock | crates/solen-consensus/src/engine.rs:1630-1861 | Implements the accept step and reports whether every check passed; a block that fails one changes nothing. |
| EngineClass.ConsensusEngine.AcceptAttestation | crates/solen-consensus/src/engine.rs:2262-2294 | Implements the attest step and reports whether it finalized a block. |
| EngineClass.ConsensusEngine.Rewind | crates/solen-consensus/src/engine.rs:849-865 | Undo entries above the target are applied newest first. |
| EngineClass.ConsensusEngine.RollbackTo | crates/solen-consensus/src/engine.rs:832-915 | Computes the rolled-back node and the outcome, including the rewound store of a failed root comparison. |
| Ledger.TotalPut | crates/solen-execution/src/state.rs:141-143 | Saving one account moves the sum of balances by the change of its balance. |
| Ledger.TransferConserves | crates/solen-execution/src/state.rs:151-187 | A transfer keeps the supply, moves the amount between the two parties, is the identity from an account to itself, and leaves everyone else alone. |
| Ledger.TransferRefused | crates/solen-execution/src/state.rs:151-187 | A transfer fails exactly for a missing or short sender or a system contract without an account. |
| Balances.TransferCreates | crates/solen-execution/src/state.rs:151-187 | A transfer to a missing account creates it with the amount, no code, nonce zero and its own key as the only signer. |
| Ledger.StateManager.Transfer | crates/solen-execution/src/state.rs:151-187 | Computes that transfer, including what a refusal has already written. |
| Ledger.StateManager.UseNonce | crates/solen-execution/src/state.rs:190-204 | The nonce must match and not overflow, and grows by one. |
| Calls.DispatchOk | crates/solen-execution/src/executor.rs:1541-1757 | For every VM: the frames' fuel, failing runs included, is within the shared budget and on success exactly what it lost, every frame is within the depth limit and below the top on the allowlist, and without system calls the tree keeps the supply and every account's code, authorisation and nonce, and only contracts that ran spend value or write storage. |
| Calls.TreeFuelBound | crates/solen-execution/src/executor.rs:1410-1433 | A call and everything it queues burn at most 64,000,000 fuel, failing runs included. |
| Calls.PayOutNeutral | crates/solen-execution/src/executor.rs:1684-1722 | Native transfers of a contract keep the supply, even when they stop half way. |
| CallTree.DispatchTree | crates/solen-execution/src/executor.rs:1541-1757 | For every VM: each frame below the top is the next call that the nearest frame above it queued, made by that frame's contract and without value; a tree that succeeds has run every call that was queued. |
| AccountChanges.OperationTree | crates/solen-execution/src/executor.rs:941-998 | The same over everything an operation runs. |
| CallEffects.PayOutExact | crates/solen-execution/src/executor.rs:1684-1722 | A covered payout moves exactly what was asked: everyone gains what was sent to them and the contract loses the sum. |
| CallEffects.PayOutIff | crates/solen-execution/src/executor.rs:1684-1722 | A payout is covered if and only if the contract affords each transfer in turn, counting what it sent to itself. |
| CallEffects.PayOutCreates | crates/solen-execution/src/executor.rs:1696-1712 | An account created by a payout has no code, no signers and nonce zero. |
| CallEffects.LeafCall | crates/solen-execution/src/executor.rs:1633-1757 | A frame that queues nothing succeeds if and only if its transfers are affordable; then its storage holds what the VM returned, other keys stay, value has moved exactly as asked, and it costs 500 gas and its fuel. |
| CallEffects.DispatchCosts | crates/solen-execution/src/executor.rs:1541-1757 | Every VM run was handed its frame's caller, contract, method, arguments, value and height and at most a million units of fuel; without system calls a successful tree costs 500 gas a frame and the fuel of all frames. |
| CallEffects.ContractCall | crates/solen-execution/src/executor.rs:1556-1680 | A call to a contract hands the VM the code, storage and balance of that moment; it fails beyond depth 8, off the allowlist, without stored code or without fuel, and then changes nothing. |
| CallEffects.PlainCall | crates/solen-execution/src/executor.rs:1556-1631 | A call that no VM runs: system contracts see the true caller, an account without code does nothing, a missing account fails. |
| Operations.SessionFor | crates/solen-execution/src/executor.rs:1169-1179 | The first session key of the account under which the signature verifies, and none exactly if there is none. |
| Authorization.ValidIff | crates/solen-execution/src/executor.rs:1137-1363 | An operation passes validation if and only if it has at most 16 actions and valid code of at most 4 MB, its sender exists, and it is injected by the proposer or authorised by a method of the sender with the next nonce and, if a session key signed it, within that session's expiry, limit, budget, targets and methods and without privileged actions. |
| Authorization.NothingUnsigned | crates/solen-execution/src/executor.rs:1160-1167 | Whatever changes the ledger was injected by the proposer or authorised by a method its sender had before the call. |
| Authorization.SystemSpend | crates/solen-execution/src/executor.rs:1207-1245 | A system call counts the amount encoded behind its 32-byte, for the bridge 8-byte, head. |
| Authorization.SkippedIff | crates/solen-execution/src/executor.rs:744-836 | With signatures checked ahead of time an operation is skipped if and only if nobody injected it and no method its sender had at the block's start authorises it. |
| Authorization.UnrestrictedRuns | crates/solen-execution/src/executor.rs:1194-1202 | A session that does not ask for it, or has no lists, restricts no sub-call. |
| OperationLaws.ActionsOk | crates/solen-execution/src/executor.rs:948-998 | A run of actions without system calls changes the supply only by what deployments overwrote and keeps nonces, burn rate and session totals. |
| OperationLaws.ShareAtMostFee | crates/solen-execution/src/fees.rs:43-46 | The treasury's share never exceeds the fee. |
| OperationLaws.FeeWithinMax | crates/solen-execution/src/executor.rs:1016-1098 | With the fee fix active nobody pays more than the signed maximum, on success or failure. |
| Balances.FeeExact | crates/solen-execution/src/executor.rs:1045-1109 | A successful operation pays the base fee for its gas, at most its maximum; a sender that pays less is left with nothing. |
| Balances.FeeSecured | crates/solen-execution/src/executor.rs:918-940 | The fee is at least the smaller of what is due and the balance before the operation: actions cannot spend the reserve. |
| Balances.FailureFee | crates/solen-execution/src/executor.rs:1000-1043 | So does one that fails after validation, and none of it reaches the treasury. |
| Balances.TreasuryExact | crates/solen-execution/src/fees.rs:39-47 | The treasury gets the part of the fee that the governed or else the configured rate does not burn, rounded down. |
| Balances.FeeBeforeFix | crates/solen-execution/src/executor.rs:1045-1109 | Before the fee fix the price has no maximum, the sender pays what it can of it, and the treasury is credited its part of the price, paid or not. |
| Balances.OperationGas | crates/solen-execution/src/executor.rs:1377-1528 | Gas is 100 a transfer, 200 a change of signers, 1000 a deployment, 500 a frame, the fuel of all frames, and 25,000 for each transfer that creates an account. |
| Balances.TransfersIff | crates/solen-execution/src/executor.rs:941-998 | Transfers go through if and only if the sender affords each in turn and none goes to a system contract without an account. |
| Balances.TransferOperationIff | crates/solen-execution/src/executor.rs:918-998 | A valid operation of transfers succeeds if and only if the sender affords them beside the fee it signed for and none goes to a system contract without an account. |
| Balances.TransferOperation | crates/solen-execution/src/executor.rs:839-1130 | After an operation of transfers everyone has gained what was sent to them, the sender has lost the sum and the fee, and the treasury has its share. |
| Balances.OutflowBounded | crates/solen-execution/src/executor.rs:839-1130 | Whatever contracts an operation calls, its sender loses at most what counts as spending and the fee, unless its own contract runs or is deployed over. |
| AccountChanges.SetAuthIff | crates/solen-execution/src/executor.rs:1432-1478 | Replacing the signers works if and only if the list is not empty, thresholds can be reached and guardians exist, and replaces nothing else. |
| AccountChanges.DeployIff | crates/solen-execution/src/executor.rs:1479-1526 | A deployment works if and only if its code is at most 4 MB and the address has no code; it stores the code and puts an account there with the deployer's signers. |
| AccountChanges.SystemAction | crates/solen-execution/src/executor.rs:960-985 | A top-level call to a system contract runs as the sender and leaves what the contract leaves. |
| AccountChanges.SenderAfter | crates/solen-execution/src/executor.rs:1432-1478 | After a successful operation the sender has its code and the signers it set last, or those it had. |
| OperationLaws.ValidateWrites | crates/solen-execution/src/executor.rs:1137-1363 | Validation writes at most the nonce, which must be the account's next. |
| OperationLaws.OpConserves | crates/solen-execution/src/executor.rs:839-1130 | Through reserve, refund, transfers, payouts and sub-calls the supply falls by exactly the fee paid and what deployments overwrote and rises by the treasury's share, which is at most the fee, which is at most the signed maximum. |
| OperationLaws.ConservesIff | crates/solen-execution/src/executor.rs:1500-1518 | Supply less fee plus share is exact if and only if every deployment finds its address without a balance. |
| OperationLaws.DeployDestroys | crates/solen-execution/src/executor.rs:1500-1518 | Deploying onto a funded account without code succeeds and destroys its balance. |
| OperationLaws.FailureFrame | crates/solen-execution/src/executor.rs:898-1043 | A signed operation that fails after validation leaves the ledger as it was but for its nonce plus one and the smaller of balance and fee; one that fails validation changes nothing. |
| OperationLaws.SystemFailureNonce | crates/solen-execution/src/executor.rs:1012-1015 | A failing operation injected by the proposer takes a nonce if and only if it carries the account's next. |
| Nonces.OpNonces | crates/solen-execution/src/executor.rs:1354-1357 | Every nonce after an operation: the sender's must match and grows by one whether the operation succeeds or not, an address a success deploys to starts at zero, and no other nonce moves. |
| Nonces.NoncesHoldIff | crates/solen-execution/src/executor.rs:1500-1518 | A successful operation lowers no nonce if and only if each of its deployments goes to an address other than the sender's that has nonce zero before the call. |
| Nonces.DeployReplaces | crates/solen-execution/src/executor.rs:1500-1518 | Deploying onto an existing account without code succeeds, sets its nonce to zero and gives it the deployer's authorisation. |
| Isolation.OpSpares | crates/solen-execution/src/executor.rs:839-1130 | Every account other than the sender that the operation does not deploy to keeps authorisation, code and nonce, and unless its contract ran keeps its storage and loses no balance. |
| Isolation.SettleBalances | crates/solen-execution/src/executor.rs:1045-1109 | At settlement the sender gets the reserve back and pays the fee, the treasury gains its share, and nobody else moves. |
| Frames.OpFrames | crates/solen-execution/src/executor.rs:941-958 | Every top frame an operation runs is one of its own calls, made by the sender and handed exactly the value transferred to the target since it was last called; every frame below is on the allowlist in force. |
| Sessions.SessionConfined | crates/solen-execution/src/executor.rs:1565-1587 | An operation signed by a session key runs only listed targets and methods at the top, and in every frame when sub-calls are restricted. |
| Sessions.SessionBudget | crates/solen-execution/src/executor.rs:1253-1282 | A session's running total grows by exactly what a successful operation spends, never past its budget, and not at all on failure. |
| Budgets.LifetimeBudget | crates/solen-execution/src/executor.rs:1253-1282 | Over any chain without system calls, whatever other keys and accounts do, a session key's running total is exactly what all its successful operations spent, and together they never pass the budget. |
| Sessions.SessionUnprivileged | crates/solen-execution/src/executor.rs:1301-1338 | A session key changes no account's authorisation or code, and acts only before expiry and within its spending limit. |
| Blocks.RunGrows | crates/solen-execution/src/state.rs:190-204 | Over any sequence of blocks without system calls whose successful operations deploy to addresses of nonce zero, no nonce falls. |
| Blocks.NoReplay | crates/solen-execution/src/executor.rs:1354-1357 | Over any such sequence, of two operations of one sender that pass validation the later has the greater nonce, even when operations fail and roll back. |
| Blocks.ParallelIff | crates/solen-execution/src/executor.rs:717-836 | Parallel and sequential execution agree on every ledger, success flag and gas if and only if no operation that passes in its turn is rejected on the accounts of the block's start. |
| Blocks.ParallelSame | crates/solen-execution/src/executor.rs:744-836 | They agree whenever no sender is new or has other authorisation by its turn. |
| Blocks.BlockConserves | crates/solen-execution/src/executor.rs:717-740 | Over a block without system calls the supply falls by exactly the outflow of fees and overwritten balances and never rises. |
| ExecutorClass.BlockExecutor.PayTransfers | crates/solen-execution/src/executor.rs:1684-1722 | The transfer loop computes the payout, stopping at the first it cannot cover. |
| ExecutorClass.BlockExecutor.DispatchCall | crates/solen-execution/src/executor.rs:1541-1757 | Computes the call tree the laws are about, with the ledger left as the tree leaves it. |
| ExecutorClass.BlockExecutor.RunCode | crates/solen-execution/src/executor.rs:1633-1757 | The VM, storage, payout and queue part of a call. |
| ExecutorClass.BlockExecutor.DispatchQueue | crates/solen-execution/src/executor.rs:1733-1754 | The loop over queued calls shares one fuel budget and stops at the first failure. |
| ExecutorClass.BlockExecutor.ExecuteAction | crates/solen-execution/src/executor.rs:1377-1528 | Computes one action, system calls included. |
| ExecutorClass.BlockExecutor.ExecuteDeploy | crates/solen-execution/src/executor.rs:1479-1526 | Computes one deployment and reports what it overwrote. |
| ExecutorClass.BlockExecutor.ValidateOp | crates/solen-execution/src/executor.rs:1137-1363 | Computes validation and leaves the ledger untouched when it fails. |
| ExecutorClass.BlockExecutor.ExecuteActions | crates/solen-execution/src/executor.rs:941-998 | The action loop with its pending values computes the run of actions. |
| ExecutorClass.BlockExecutor.SettleFees | crates/solen-execution/src/executor.rs:1045-1117 | Computes the settlement. |
| ExecutorClass.BlockExecutor.ChargeFailure | crates/solen-execution/src/executor.rs:1000-1043 | Computes the rollback to the savepoint with nonce and fee. |
| ExecutorClass.BlockExecutor.ExecuteOperation | crates/solen-execution/src/executor.rs:839-1130 | Computes the operation the laws are about. |
| ExecutorClass.BlockExecutor.ExecuteSequential | crates/solen-execution/src/executor.rs:717-740 | Computes the sequential outcomes and leaves the last outcome's ledger, or the old one for an empty block. |
| ExecutorClass.BlockExecutor.ExecuteParallel | crates/solen-execution/src/executor.rs:744-836 | Computes the outcomes with signatures verified ahead of time and leaves the last outcome's ledger, or the old one for an empty block. |
| Rewards.SplitBounds | crates/solen-execution/src/executor.rs:1841-1850 | Floor shares of an amount never exceed it and miss it by less than one unit per weight. |
| Rewards.ShareSplit | crates/solen-execution/src/executor.rs:1852-1867 | A validator's share splits without remainder into its reward and its delegators' net, with the commission rounded down. |
| Rewards.CreditsBounds | crates/solen-execution/src/executor.rs:1838-1902 | For any validators and delegations the credits sum to at most the reward, and without saturation leave less than one unit per validator and delegation. |
| Rewards.RewardsConserve | crates/solen-execution/src/executor.rs:1776-1938 | Rewards never mint; with every recipient present and no saturation the supply falls by less than one unit per validator and eligible delegation. |
| Rewards.CreditAccount | crates/solen-execution/src/executor.rs:1919-1938 | A missing account gets nothing, a present one the amount, saturating. |
| Rewards.CreditDelegators | crates/solen-execution/src/executor.rs:1881-1900 | The delegator loop computes the delegators' credits. |
| Rewards.CreditValidator | crates/solen-execution/src/executor.rs:1848-1900 | One validator's reward and its delegators' credits. |
| Rewards.DistributeEpochRewards | crates/solen-execution/src/executor.rs:1776-1916 | The distribution loop computes the ledger those bounds are about. |
| RewardShares.DistributedExact | crates/solen-execution/src/executor.rs:1776-1938 | Every account after a distribution, to the unit: the pool has paid exactly the reward, every account has what it is owed as validator and delegator, and nothing else has changed. |
| RewardShares.ValidatorPaid | crates/solen-execution/src/executor.rs:1838-1880 | A validator gains its part of the reward less its delegators' net, with part, pool and commission each the exact fraction rounded down. |
| RewardShares.DelegatorPaid | crates/solen-execution/src/executor.rs:1881-1900 | A delegator gains its share of the net, by its amount and rounded down. |
| RewardShares.OthersKeep | crates/solen-execution/src/executor.rs:1800-1836 | Whoever is owed nothing keeps what they have; the pool falls by exactly the smaller of the reward and its balance. |
| EpochTransition.RaisedAt | crates/solen-consensus/src/epoch.rs:38-60 | With distinct ids every active validator is raised once, by the floor of its share, and no other entry changes. |
| EpochTransition.RaiseFair | crates/solen-consensus/src/epoch.rs:38-60 | Each active validator gains its part, by stake and rounded down, of 100 for each active validator. |
| EpochTransition.ChangeBounded | crates/solen-consensus/src/engine.rs:3054-3137 | With at least four active validators and an active stake of at least 3, the stake counted when admitting and removing is together at most a third of it, for every staking list. |
| Turnover.TurnoverBounded | crates/solen-consensus/src/engine.rs:3054-3137 | For staking lists with distinct identities, the same bound on the stakes of the validators that joined and left, read off the sets themselves. |
| Turnover.TurnoverLeast | crates/solen-consensus/src/engine.rs:3054-3137 | For every staking list, repeated entries included: the stake that left, and for each newcomer the least stake it is listed with, are together at most a third of the active stake. |
| Turnover.SecondEntry | crates/solen-consensus/src/engine.rs:3072-3108 | A second entry for a newcomer sets its stake and is never deferred: only the first entry is held against the cap. |
| Turnover.RepeatedEntryEscapes | crates/solen-consensus/src/engine.rs:3054-3108 | With a cap of 4, entries of 1 and 1000 for one newcomer leave it with a stake of 1000. |
| Turnover.FittingMatches | crates/solen-consensus/src/engine.rs:3054-3137 | When all the changes a list of distinct identities asks for, newcomers, updates and leavers together, are within a third of the active stake, one transition makes the set hold exactly the active entries. |
| EpochTransition.TransitionDistinct | crates/solen-consensus/src/engine.rs:3034-3137 | A whole transition keeps ids distinct, for every staking list, repeated entries included. |
| EpochTransition.BootstrapMatches | crates/solen-consensus/src/engine.rs:3054-3137 | When the limit does not apply, one transition makes the set hold exactly the active staking entries. |
| EpochTransition.SyncAgrees | crates/solen-consensus/src/engine.rs:3072-3092 | After a transition every validator active in staking has the stake of its last active entry and is active, for every staking list. |
| EpochTransition.MissedCarried | crates/solen-consensus/src/engine.rs:3072-3108 | A validator that a transition brings back, or in, starts without missed blocks; one that was active keeps its count. |
| EpochTransition.EpochManager.ProcessTransition | crates/solen-consensus/src/epoch.rs:38-67 | The reward loop raises stakes in place and the epoch advances by one. |
| EpochTransition.TryEpochTransition | crates/solen-consensus/src/engine.rs:3034-3137 | At a boundary the set becomes the synced set; elsewhere nothing changes. |
| Mempool.Mempool.constructor | crates/solen-consensus/src/mempool.rs:66-75 | An empty pool whose indexes agree. |
| Mempool.Mempool.Submit | crates/solen-consensus/src/mempool.rs:83-148 | Keeps entries, seen keys and sender counts in agreement and every limit, and computes the pool and verdict the laws are about. |
| Mempool.Mempool.Drain | crates/solen-consensus/src/mempool.rs:158-177 | Returns exactly the first entries in fee order and leaves the rest, indexes in agreement. |
| Mempool.Mempool.RemoveFinalized | crates/solen-consensus/src/mempool.rs:184-207 | Removes exactly the entries with the listed keys, whatever their fee, indexes in agreement. |
| Mempool.Mempool.Clear | crates/solen-consensus/src/mempool.rs:151-156 | All three indexes become empty. |
| Mempool.Mempool.Forget | crates/solen-consensus/src/mempool.rs:116-123 | One entry leaves all three indexes, with no zero count left behind. |
| Mempool.InsertKeepsOrder | crates/solen-consensus/src/mempool.rs:36-47 | Insertion keeps fee order and unique keys. |
| Mempool.AcceptedJoins | crates/solen-consensus/src/mempool.rs:110-147 | An accepted operation is in the pool; only the lowest entry can have gone, and it paid strictly less. |
| Mempool.AcceptedIff | crates/solen-consensus/src/mempool.rs:83-148 | An operation is accepted if and only if it is not marked as injected, is at most 8 MB, finds room or outbids the lowest entry, and then finds its sender with fewer than 64 entries and none with its nonce. |
| Mempool.SizeBounds | crates/solen-consensus/src/mempool.rs:94-108 | The measured size is what the operation carries and at most 64 bytes an action. |
| Mempool.DrainTakesBest | crates/solen-consensus/src/mempool.rs:158-177 | What a drain takes pays at least as much as what it leaves. |
| Mempool.EqualFeesInTurn | crates/solen-consensus/src/mempool.rs:36-47 | Of entries that pay the same, the lower sender comes first, and one sender's operations come in nonce order. |
| Mempool.ExceptMembers | crates/solen-consensus/src/mempool.rs:184-207 | What stays is exactly what was there under other keys. |
| Mempool.RefusalEvictsIff | crates/solen-consensus/src/mempool.rs:110-141 | A refused submission changes the pool if and only if it evicted an entry and then met the sender limit or its own key. |
| Mempool.ResendEvicts | crates/solen-consensus/src/mempool.rs:110-141 | Resending a pending operation with a higher fee to a full pool is refused and costs the pool its lowest entry. |
| Snapshot.DecodeEncode | crates/solen-consensus/src/snapshot.rs:90-97 | Little-endian integers in range read back as written. |
| Snapshot.ParseList | crates/solen-consensus/src/snapshot.rs:189-215 | Reading back a listing puts exactly its entries, whatever follows. |
| Snapshot.HeaderRead | crates/solen-consensus/src/snapshot.rs:119-148 | The header reads back height, epoch and root, with the body after it. |
| Snapshot.RoundTrip | crates/solen-consensus/src/snapshot.rs:63-254 | Restoring a created snapshot into an empty store gives the same map, height, epoch and root. |
| Snapshot.TruncatedRejected | crates/solen-consensus/src/snapshot.rs:181-223 | Every strict prefix of an uncompressed body is rejected, into any store. |
| Snapshot.AcceptedMatches | crates/solen-consensus/src/snapshot.rs:119-254 | Whatever was offered, a snapshot is accepted only with the right magic, version and size and a store whose root is the one in its header. |
| Snapshot.Create | crates/solen-consensus/src/snapshot.rs:63-116 | The encoder loop computes the format. |
| Snapshot.ReadEntry | crates/solen-consensus/src/snapshot.rs:190-214 | One entry is read within the buffer, or none. |
| Snapshot.SnapshotStore.LoadEntries | crates/solen-consensus/src/snapshot.rs:186-215 | The loop with its running offset reads exactly what the format says and never leaves the buffer. |
| Snapshot.SnapshotStore.Restore | crates/solen-consensus/src/snapshot.rs:151-254 | Computes the restored store and the outcome, including what a rejected snapshot has already written. |

## Left out

- The v1 pending-block path, single-validator production, force-finalize timeouts, partition probing and backup proposer timing.
- Signature schemes, hashing, Merkle tries and compression: arbitrary functions, injective where a theorem says so.
- The WASM VM, the system contracts and the staking contract: arbitrary functions or inputs. What a system call does to the ledger is unconstrained, so laws about operations say when no system call was made.
- How `stage_block` assembles a block's change set from operations, rewards and epoch randomness: the engine takes it as a function of store, operations and height that writes no bookkeeping key.
- Local slashing after a finalization: its effect on the validator set is an input of each step, as is the outcome of the epoch transition.
- Intents, encrypted pool, slashing evidence, checkpoint stores, proof registry, index store, local snapshot files, RPC, CLI and peer-to-peer code.
- Receipts' events, error texts and `auth_method` labels: only success and gas are kept.
- Failing storage back ends: every store write succeeds.
- `replay_synced_block` and snapshot resync: they leave the vote and candidate maps as they are and are not live steps.
- Validators.HasQuorum: sums and the factor 3 are unbounded integers, so 128-bit overflow of total stake is not modelled.
- Calls.Dispatch: gas totals are unbounded; the 64-bit saturating sum of sub-call gas is not modelled, since it cannot be reached with at most 16 queued calls per frame.
- Operations.Spend: the 128-bit sum over actions does not overflow here.
- Budgets.LifetimeBudget: a budget of 2^128 - 1 is left out, since the running total then saturates.
- EpochTransition.Admit: stake differences are exact; the cast to signed 128-bit integers is not modelled.
- EpochTransition.ChangeBounded: bounds admitted and removed stake only; stake updates of present validators count against the cap but are never deferred, and a cap of zero does not limit.
- Recovery.CrashBetweenWrites: covers the gap between two writes of one finalization, not a crash inside a single write; the same holds of Recovery.CrashAfterPeerCommit.
- Snapshot.TruncatedRejected: is about the uncompressed body; what a truncated compressed stream decodes to is left to the compressor.
- EngineClass.ConsensusEngine.ProduceBlock: the operations are an argument; draining the pool, solving intents and the branch that finalizes at once with a single active validator are not modelled.
- EngineClass.ConsensusEngine.AcceptBlock: the slashing of a proposer that signs two blocks at a height is not modelled.
- EngineClass.ConsensusEngine.RollbackTo: the epoch counter it resets and the v1 pending maps it clears are not part of the modelled node.
- Mempool.Mempool.Submit: the lock around the pool is not modelled; each operation is one step.
