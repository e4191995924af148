# A verified model of the Zebvix node

This project models the parts of the Zebvix chain node where state, failure and concurrency meet, and
proves what they promise over every input, every run and every failure point. `dafny verify
dfyconfig.toml` checks everything.

| module | what it models |
|---|---|
| `Governance`, `GovernanceStatuses` | the upgrade registries, the hook that executes scheduled proposals at each block, and what a delayed hook can change |
| `BlockProducer`, `ChainRuns` | candidate building, the commit pipeline with a fault at every storage call, and runs of both |
| `Sync` | serving block and header ranges, importing blocks, and replicas |
| `EpochSeed` | the per-epoch proposer seed: stamping, validation, rotation, and the light client's view |
| `Validators`, `ValidatorRuns` | stake election, slashing status, key registration and the epoch hot-swap |
| `HotStuff`, `HotStuffEngine`, `HotStuffSwaps` | one validator's safety rules and their restarts, vote collection, quorum certificates, the three-phase engine and agreement, and sets swapped while votes arrive |
| `Pruner`, `PrunerRuns`, `PrunerRaces` | the retained-roots window and mark-and-sweep, interleaved with commits storage call by storage call |
| `Noise` | encrypted message framing |
| `RateLimiter`, `Broadcast` | per-peer inbound rate and outbound queues |
| `CallGas`, `Slashing`, `Supply` | EIP-150 gas forwarding, equivocation slashing, halving supply |
| `Genesis` | first boot and every later one |

Code that updates state in place is modelled by classes and loops, each proved equal to a function on
values; the theorems over runs are about those functions. Hashes, the block executor, the cipher,
signature checks and trie contents are parameters, with what is needed of them stated as a predicate.
A storage call that may fail is a named fault.

Several promises turn out to hold only under a condition. Each has its exact condition, for all inputs,
and failing cases:

- A sweep keeps the window's states only if no block its snapshot lacks has an unmarked root
  (`SweepKeepsWindowIff`). The snapshot lacks (`SnapshotLacks`) a block committed between mark and lock
  (`RaceReachable`), one whose commit failed after storing it (`LateCommitKeptIff`), and one whose commit had
  stored it and not yet pushed its root (`MidCommitKeptIff`): the read guard the commit holds does not stop
  the head read and the mark.
- A certificate formed after a validator-set swap may lack a quorum of the current set (`SwapBackedIff`).
- A staking or governance fault after the last block of an epoch is stored skips the seed rotation
  (`SeedAgreesIff`).
- The epoch sync revives a tombstoned validator that is in the static configuration
  (`TombstoneSurvivesIff`).
- A validator signs a slot again across an epoch advance (`SignsAgainIff`) and, within an epoch, once a
  restart made it forget a vote (`SecondTimeIff`; `SignsIff` is the condition for each vote). Nothing in
  the node advances the safety rules' epoch today; only a test of the consensus crate does. The node does
  build the rules without a file, so every restart forgets everything (`UnsavedForgotten`).
- A candidate numbered 0 passes the head check (`OverwritesIffZero`). No path of the node hands the
  pipeline one: built candidates are numbered above their parent and imports above the head.
- A first boot that fails between accounts is later taken for complete (`SecondBootCompleteIff`).
- The era loop agrees with the per-block sum only if the cap falls within ten eras (`ExactIff`).
- A message above 16 MiB is not received as sent (`RoundTripIff`).
- Proposal statuses, unlike versions, depend on when the hook ran when a rival for a higher version is
  inverted against the proposal in registry order and time (`StatusIndependentIff`).
- Slashing evidence does not prove who signed: the code checks each message under the key inside it,
  over bytes that do not name the validator (`ImplicatesIffRegistered`), and its window is counted from a
  height the evidence states itself (`WindowBoundsNoAge`).

Where code and comments disagree the model follows the code. The epoch sync's comment says there is no
Tombstoned status, but there is one. The slashing patch's comments speak of the registered key and count
the evidence window from the round; the code does neither. A malformed stored chain id is said to be
rewritten at the next bootstrap, but is kept while a genesis is stored. The rate limit is documented as
500 per sliding window; across two windows 999 pass within ten seconds.

Some rows pin one operation down in terms of its inputs alone, so that the theorems about whole runs stand on
operations that are themselves stated: the `…Outcome` lemmas, `VerdictIff`, `StampIff`, `CandidateFields`,
`AsksIff`, `CleanIff` and the like. They and `Slashing.SwapSame`, `Slashing.WindowBoundsNoAge`,
`Slashing.AnyoneCanBeNamed` and `Genesis.StrictBootIff` are read off one definition and are not main results.

## Model

| member | source | states |
|---|---|---|
| Governance.ReadyFrom | zbx-chain/crates/zbx-types/src/governance.rs:625-630 | the ready list holds exactly the scheduled proposals whose height has come |
| Governance.ReadyInOrder | zbx-chain/crates/zbx-types/src/governance.rs:625-630 | the ready list is in registry order, without repetition |
| Governance.Registries.ReadyToExecute | zbx-chain/crates/zbx-types/src/governance.rs:625-630 | the scan returns that list and changes nothing |
| Governance.Registries.ApplyReady | zbx-chain/node/src/block_producer.rs:175-223 | the loop leaves both registries as the hook specifies and reports whether anything was ready |
| Governance.ProcessIsJoin | zbx-chain/node/src/block_producer.rs:187-221 | processing a list of proposals leaves the pointwise maximum of the old versions and all valid offered ones |
| Governance.OrderIrrelevant | zbx-chain/node/src/block_producer.rs:187-221 | any order and repetition of the same proposals gives the same versions |
| Governance.HookIsJoin | zbx-chain/node/src/block_producer.rs:175-223 | one hook run joins exactly the valid versions ready at that height into the registry |
| Governance.HookProposals | zbx-chain/node/src/block_producer.rs:175-223 | a hook run moves exactly the ready proposals from Scheduled to a terminal status and leaves every other one alone |
| Governance.HookAbsorbed | zbx-chain/node/src/block_producer.rs:100-112 | a hook run at an earlier height before one at a later height changes no version |
| Governance.DelayIndependence | zbx-chain/node/src/block_producer.rs:100-112 | two runs with the same proposals and a hook at the final height agree on every version, whichever earlier hook runs each of them lost |
| Governance.RunIsJoin | zbx-chain/node/src/block_producer.rs:100-112 | after any run whose last hook took effect the versions are the pointwise maximum of the starting ones and every valid version the events scheduled and made due |
| Governance.RunInOrder | zbx-chain/crates/zbx-types/src/governance.rs:582-592 | over every run, with proposals submitted under any fresh id, the registry stays in ascending id order |
| Governance.ValidNameIff | zbx-chain/crates/zbx-types/src/governance.rs:54-69 | a module name is valid exactly when it is not empty and every character is a to z, a digit, an underscore or a hyphen |
| Governance.FinalizeOutcome | zbx-chain/crates/zbx-types/src/governance.rs:458-474 | finalising settles a pending proposal once, as Scheduled exactly with a majority and an activation height to come and as Rejected otherwise, and changes nothing else |
| Governance.RunMonotone | zbx-chain/node/src/block_producer.rs:175-223 | over any run no version decreases, no proposal is lost or rewritten, and one that has left Scheduled never changes status again |
| Governance.StatusesDependOnDelay | zbx-chain/node/src/block_producer.rs:207-220 | statuses do depend on the delay: two proposals for one module end Executed and Executed, or Failed and Executed |
| GovernanceStatuses.HookStatus | zbx-chain/node/src/block_producer.rs:187-221 | one hook run executes a ready proposal exactly when its name is valid, the registry does not surpass it and no ready proposal earlier in the registry outbids it |
| GovernanceStatuses.StatusInRun | zbx-chain/node/src/block_producer.rs:175-223 | in any run a proposal it decides is executed exactly when its name is valid, the start does not surpass it and nothing scheduled that is decided before it outbids it |
| GovernanceStatuses.EventsFirst | zbx-chain/node/src/block_producer.rs:100-112 | a run ends in the very state of one in which all its submissions and finalisations came first and only then the hook runs, because a proposal is finalised before its activation height |
| GovernanceStatuses.StatusIndependentIff | zbx-chain/node/src/block_producer.rs:100-112 | whatever a run's blocks submit and finalise, a proposal ends with the same status under every schedule of hook runs exactly when, in the registry the events alone lead to, it is not due, badly named, surpassed at the start, behind a rival in registry and time, or no rival for a higher version is inverted against it |
| BlockProducer.Producer.PutAccounts | zbx-chain/node/src/block_producer.rs:552-557 | the account loop stops at the failing write, having written exactly the entries before it |
| BlockProducer.Producer.Govern | zbx-chain/node/src/block_producer.rs:628-634 | governance is read, applied and written back, or left as it was when either call fails |
| BlockProducer.Producer.WriteBlock | zbx-chain/node/src/block_producer.rs:550-605 | accounts, trie nodes, block, staking delta and validator-set swap happen in that order up to the first failure |
| BlockProducer.Producer.Finish | zbx-chain/node/src/block_producer.rs:628-656 | governance, mempool eviction and the retained push follow, unless governance fails |
| BlockProducer.Producer.ExecuteAndCommit | zbx-chain/node/src/block_producer.rs:435-659 | the whole pipeline performs exactly the specified effects for every failure point, and reports success exactly when none struck |
| ChainRuns.CommitResult | zbx-chain/node/src/block_producer.rs:504-656 | the complete state a commit attempt leaves behind, for each failure point |
| ChainRuns.StakedCommit | zbx-chain/node/src/block_producer.rs:505-656 | with staking wired the executor runs on the stored accounts and nodes and the live validator set, and a good commit stores exactly its accounts, nodes, sealed block, staking delta and validator set, runs the hook, evicts and pushes its root |
| ChainRuns.BareCommit | zbx-chain/node/src/block_producer.rs:505-656 | without staking the executor runs without a set, the live one stays, and the rest is stored alike |
| ChainRuns.FaultLeaves | zbx-chain/node/src/block_producer.rs:550-656 | fault by fault, the exact state an admitted commit leaves, and that it succeeds exactly when it does not meet the fault |
| ChainRuns.PerformedIsPrefix | zbx-chain/node/src/block_producer.rs:504-656 | whatever fails, what was written is a prefix of the faultless sequence of writes |
| ChainRuns.WriteOrder | zbx-chain/node/src/block_producer.rs:504-605 | read off the state left behind, a store that changed holds its new contents and so does every store before it: retained push, eviction, governance, swap, staking delta, block, trie nodes, accounts |
| ChainRuns.LiveSetUntouched | zbx-chain/node/src/block_producer.rs:595-605 | the live validator set differs afterwards only if it is the executed clone and staking delta, block, trie nodes and accounts are all durable |
| ChainRuns.HeightsWrittenOnce | zbx-chain/node/src/block_producer.rs:521-567 | over every run of builds, commits and imports with faults, heights stay contiguous and no stored block is overwritten |
| ChainRuns.OverwritesIffZero | zbx-chain/node/src/block_producer.rs:521-535 | an admitted commit overwrites a stored height exactly when the candidate is numbered 0 |
| ChainRuns.ZeroReplacesGenesis | zbx-chain/node/src/block_producer.rs:521-567 | a candidate numbered 0 offered to a node that stores only genesis replaces genesis |
| ChainRuns.BuildKeepsAnchored | zbx-chain/node/src/block_producer.rs:341-404 | a freshly built candidate is numbered one above a stored block, names its hash and is strictly younger, whatever the clock says |
| ChainRuns.CandidateFields | zbx-chain/node/src/block_producer.rs:341-404 | a candidate carries the selected transactions, coinbase and gas limit, its parent's hash, epoch and base fee of at least 1, the next number, the later of clock and parent time plus one, and empty execution fields |
| ChainRuns.BuildAdds | zbx-chain/node/src/block_producer.rs:341-404 | a candidate is built exactly on a stored head from some transactions or when empty blocks are wanted |
| ChainRuns.ImportLeavesSet | zbx-chain/node/src/network.rs:823-870 | an imported block that is not next changes nothing, and one that is runs without a validator set and leaves the live one |
| ChainRuns.CommitKeepsLinkedIff | zbx-chain/node/src/block_producer.rs:521-567 | a commit keeps the chain hash-linked and ascending in time exactly when it stores nothing or its candidate names the head and is younger |
| ChainRuns.NumberCheckSuffices | zbx-chain/node/src/block_producer.rs:346-404 | with any number of built candidates in flight under any clock, comparing numbers alone keeps every parent hash right and timestamps strictly increasing |
| ChainRuns.StoredBlocksHaveTheirNodes | zbx-chain/node/src/block_producer.rs:559-567 | over all runs with failures no stored block lacks a trie node of its root |
| ChainRuns.GovernanceOfRun | zbx-chain/node/src/block_producer.rs:628-634 | the registries of a run are those of the governance state machine fed with one tick per durable height |
| ChainRuns.GovernanceCatchesUp | zbx-chain/node/src/block_producer.rs:100-112 | after a commit that succeeds, the versions are those of a node that never lost a hook run |
| Sync.ServeBlockRange | zbx-chain/node/src/network.rs:761-777 | the reply is what is stored from the first height on, up to the first gap, the requested end or 64 blocks |
| Sync.ServeHeaders | zbx-chain/node/src/network.rs:786-820 | the same for headers, forwards or backwards, up to 192 |
| Sync.ForwardReverseAgree | zbx-chain/node/src/network.rs:786-820 | a forward reply read backwards is the reverse reply from its last height |
| Sync.ImportBlocks | zbx-chain/node/src/network.rs:851-870 | the batch loop imports in order, skips blocks that are not next and stops at the first failure |
| Sync.OthersSkipped | zbx-chain/node/src/network.rs:851-870 | wherever in a batch it stands, a block that is not next at its turn makes no difference to the result |
| Sync.NextImported | zbx-chain/node/src/network.rs:851-870 | a next block is committed and the batch goes on, or ends there if that fails |
| Sync.AsksIff | zbx-chain/node/src/network.rs:604-614 | a peer asks for blocks exactly when it is behind by two or more, from its next height on and for at most 64 |
| Sync.ReplicaSafety | zbx-chain/node/src/network.rs:823-870 | however messages are lost, duplicated, reordered or batched and whatever fails, the client's unpatched headers and bodies are a prefix of the server's |
| Sync.StateReplication | zbx-chain/node/src/network.rs:823-870 | if the executors agree and no fault leaves a partial write, sealed headers, accounts and trie nodes are the server's at that height |
| Sync.StoredAsSentIff | zbx-chain/node/src/block_producer.rs:504-535 | an imported block is stored as it was sent exactly when the client's execution reproduces its five result fields |
| Sync.SyncExchange | zbx-chain/node/src/network.rs:604-614 | handshake request, range reply and batch import advance the client by exactly min(64, gap) |
| EpochSeed.PeersAcceptStamp | zbx-chain/node/src/consensus.rs:327-333 | two nodes that missed no rotation and store the same chain, whatever each went through, agree on the next stamp: what one proposes the other accepts |
| EpochSeed.StampIff | zbx-chain/node/src/consensus.rs:327-333 | the seed is written exactly on the first block of an epoch while it is not zero, and nothing else is changed |
| ChainRuns.LateIffStoredAndFailed | zbx-chain/node/src/block_producer.rs:569-634 | a commit stores its block and still fails exactly when it is admitted and the fault strikes the staking delta or governance |
| EpochSeed.ConsensusDriver.DoCommit | zbx-chain/node/src/consensus.rs:655-862 | validate the seed, apply the finalised slashes to accounts and validator set, commit, and rotate the seed on the stored hash when the block ends an epoch |
| EpochSeed.CallEffect | zbx-chain/node/src/consensus.rs:684-862 | what one call does to chain and seed, in every outcome |
| EpochSeed.SlashesApplied | zbx-chain/node/src/consensus.rs:684-793 | a refused seed leaves everything; otherwise each debited account holds its last debit and the live set is the slashed one even if the block is not admitted, and the executor runs on exactly those accounts and that set |
| EpochSeed.LightClientAgreement | zbx-chain/node/src/consensus.rs:835-862 | in every run without a missed rotation the seed is the fold over stored last headers of epochs, and every stored header carries exactly what that fold says |
| EpochSeed.HeadersSay | zbx-chain/node/src/consensus.rs:684-689 | in such a chain a header carries a seed only at multiples of the epoch length, it is the light client's, and it is missing there only while that is zero |
| EpochSeed.SeedAgreesIff | zbx-chain/node/src/consensus.rs:787-862 | the seed equals the fold after a run exactly when no admitted block that ends an epoch met a staking or governance fault |
| EpochSeed.OneFaultSplits | zbx-chain/node/src/block_producer.rs:628-634 | a reachable run with one governance fault after which driver and light client disagree |
| Validators.RankedDescending | zbx-chain/crates/zbx-staking/src/validator.rs:355-356 | ranking orders by stake and then address, and holds exactly the eligible validators with their stakes |
| Validators.ElectionDeterministic | zbx-chain/crates/zbx-staking/src/validator.rs:346-388 | the elected list does not depend on the hash map's iteration order |
| Validators.ElectionPicksBest | zbx-chain/crates/zbx-staking/src/validator.rs:346-388 | at most the maximum are elected, all eligible; an eligible validator is passed over only for a full set of higher-ranked ones |
| Validators.ElectedIff | zbx-chain/crates/zbx-staking/src/validator.rs:346-388 | a validator is elected exactly when it is eligible and fewer than the maximum eligible ones rank above it |
| Validators.ElectedByStake | zbx-chain/crates/zbx-staking/src/validator.rs:346-388 | over the stake fields: elected are those with 100,000 tokens of own stake, Pending or Active, that fewer than 100 such validators outrank by total stake saturating in 128 bits, or by a smaller address at equal stake |
| Validators.ElectedInOrder | zbx-chain/crates/zbx-staking/src/validator.rs:346-388 | the elected list runs strictly down in that order, has at most 100 entries, and each of them outranks everyone that may stand and was passed over |
| Validators.ValidatorSync.ElectActiveSet | zbx-chain/crates/zbx-staking/src/validator.rs:346-388 | demotes the active that were not elected, promotes the elected and returns the ranked list |
| Validators.ValidatorSync.SyncAfterCommit | zbx-chain/node/src/consensus.rs:865-966 | refresh from configuration, elect, register keys and hot-swap members and quorum, or halt on an empty election |
| Validators.QuorumIsLeast | zbx-chain/crates/zbx-consensus/src/hotstuff.rs:77-87 | the quorum set at the swap is the least number above two thirds |
| ValidatorRuns.SlashesAt | zbx-chain/crates/zbx-staking/src/pipeline.rs:705-747 | what a list of slashes does to one validator's status and key |
| ValidatorRuns.SlashesBurn | zbx-chain/crates/zbx-staking/src/pipeline.rs:705-747 | slashes burn what they ask for down to nothing and take every offender, and nobody else, out of the active set |
| ValidatorRuns.SyncConfigAt | zbx-chain/node/src/consensus.rs:872-919 | what the configuration loop does to one known validator |
| ValidatorRuns.SyncConfigNew | zbx-chain/node/src/consensus.rs:872-919 | an unknown address is registered exactly if configured, Active, with its first configured key and the minimum stake |
| ValidatorRuns.EpochSyncAt | zbx-chain/node/src/consensus.rs:865-966 | the whole epoch-start sync for one validator: status, stake, key, membership and registered key, or the halt on an empty set |
| ValidatorRuns.MidEpochSync | zbx-chain/node/src/consensus.rs:865-919 | within an epoch the sync changes no known validator, member or key |
| ValidatorRuns.MembersChangeAtStart | zbx-chain/node/src/consensus.rs:865-966 | members and keys change only in a successful commit at the start of an epoch |
| ValidatorRuns.HotSwapInvariant | zbx-chain/node/src/consensus.rs:185-200 | in every reachable state each consensus member has a registered key, and no registered key ever changes |
| ValidatorRuns.EpochStartMembers | zbx-chain/node/src/consensus.rs:920-966 | right after an epoch-start commit every member is registered, Active and has the minimum stake |
| ValidatorRuns.JailedDuringCommit | zbx-chain/node/src/consensus.rs:728-793 | a jail imposed by the finalisation tick survives the clone, execution and swap of that commit, and its epoch sync |
| ValidatorRuns.JailSurvives | zbx-chain/node/src/consensus.rs:886-919 | a jailed validator stays jailed over every run without a forced tombstone |
| ValidatorRuns.TombstoneSurvivesIff | zbx-chain/node/src/consensus.rs:886-919 | a tombstone survives an epoch start exactly when the validator is not in the static configuration |
| ValidatorRuns.TombstonedMemberReturns | zbx-chain/node/src/consensus.rs:886-966 | a tombstoned configured validator with its stake intact is a consensus member after the next epoch start |
| ValidatorRuns.TombstonePermanent | zbx-chain/node/src/consensus.rs:886-919 | outside the static configuration a tombstone is permanent over every run |
| HotStuff.SafetyRules.Vote | zbx-chain/crates/zbx-consensus/src/safety_rules.rs:149-215 | signs exactly when the four checks pass, records and persists the slot, and otherwise changes nothing |
| HotStuff.SurvivingState | zbx-chain/crates/zbx-consensus/src/safety_rules.rs:101-145 | after any run a validator is in the state of one that saw only the surviving events and never restarted, and its file in that of one that saw those up to the last saved vote |
| HotStuff.VotesOnce | zbx-chain/crates/zbx-consensus/src/safety_rules.rs:160-241 | in every run, whatever restarts lose, two surviving votes for one round and phase are signed in ascending epochs, and the record holds exactly the surviving slots of the current one |
| HotStuff.AllSurviveIff | zbx-chain/crates/zbx-consensus/src/safety_rules.rs:101-145 | every vote ever signed survives exactly when no restart comes while the last vote is unsaved |
| HotStuff.SignsIff | zbx-chain/crates/zbx-consensus/src/safety_rules.rs:149-241 | after any run a vote is signed exactly when its round is not below the last surviving vote's, no surviving vote of the current epoch is for its round and phase, its parent is not below a surviving lock, and it is for the surviving epoch or that is 0 |
| HotStuff.SecondTimeIff | zbx-chain/crates/zbx-consensus/src/safety_rules.rs:149-241 | after any run a validator can be made to sign some round and phase twice in its epoch exactly when it has forgotten a vote not below its last remembered one, which it has not if every restart followed a saved vote |
| HotStuff.UnsavedForgotten | zbx-chain/node/src/consensus.rs:156 | built without a file, as the node builds them, the rules forget everything before the last restart and nothing since |
| HotStuff.SignsAgainIff | zbx-chain/crates/zbx-consensus/src/safety_rules.rs:160-241 | after any run a remembered slot is signed again exactly when it is in the round voted last, every surviving vote for it precedes the latest epoch advance, the new vote is for that epoch, and its parent is not below any surviving lock |
| HotStuff.DoubleVoteReachable | zbx-chain/crates/zbx-consensus/src/safety_rules.rs:233-241 | two blocks signed for one round and phase around an epoch advance |
| HotStuff.VotesRespectLocks | zbx-chain/crates/zbx-consensus/src/safety_rules.rs:179-241 | in every run a vote never extends below any lock that survives, across epochs too, nor returns to a surviving epoch already left |
| HotStuff.RestartVotesTwice | zbx-chain/crates/zbx-consensus/src/safety_rules.rs:90-99 | without a persistence path a restarted validator signs a second block for a slot |
| HotStuff.Collector.Receive | zbx-chain/crates/zbx-consensus/src/hotstuff.rs:395-510 | a vote is dropped, reported as equivocation, ignored, refused as duplicate, counted, or completes a certificate |
| HotStuff.Collector.AddVote | zbx-chain/crates/zbx-consensus/src/vote.rs:92-127 | the accumulator counts each voter once for its first vote data and forms a certificate from the quorum on |
| HotStuff.VoteOutcome | zbx-chain/crates/zbx-consensus/src/hotstuff.rs:395-510 | which of the six outcomes a vote has, exactly, from membership, registered key, signature, record and accumulator, and what changes in the node |
| HotStuff.VotesAddUp | zbx-chain/crates/zbx-consensus/src/hotstuff.rs:395-510 | delivered in turn, genuine votes of different members for one block are each counted, and the one that makes them more than two thirds completes the certificate of exactly those voters |
| HotStuff.OnVoteSound | zbx-chain/crates/zbx-consensus/src/hotstuff.rs:395-510 | a certificate is only formed from a quorum of distinct members that signed its data |
| HotStuff.EquivocationCaught | zbx-chain/crates/zbx-consensus/src/hotstuff.rs:464-500 | once a member's vote is taken, its vote for another block in that round and phase is reported, whatever arrived in between, unless a commit pruned past the round |
| HotStuff.EquivocationCaughtIff | zbx-chain/crates/zbx-consensus/src/hotstuff.rs:307-309 | if that member sends no other vote for the slot in between, the second one is reported exactly when no prune passed the round |
| HotStuff.HonestWitness | zbx-chain/crates/zbx-consensus/src/hotstuff.rs:77-87 | two quorums of floor(2n/3)+1 share a member outside any faulty set smaller than a third |
| HotStuff.QuorumIsLeast | zbx-chain/crates/zbx-consensus/src/hotstuff.rs:77-87 | the quorum is the least number above two thirds of the members |
| HotStuff.CertificatesAgree | zbx-chain/crates/zbx-consensus/src/hotstuff.rs:395-584 | whatever reaches two nodes of one validator set with fewer than a third faulty, certificates for the same round and phase certify the same data |
| HotStuffEngine.Consensus.AddBlock | zbx-chain/crates/zbx-consensus/src/block_store.rs:22-34 | the block store keeps a known block, and drops its oldest for a new one when full |
| HotStuffEngine.Consensus.HandleProposal | zbx-chain/crates/zbx-consensus/src/hotstuff.rs:359-393 | a proposal with an invalid parent certificate or the wrong proposer changes nothing; any other is stored and put to the safety rules as a prepare vote |
| HotStuffEngine.Consensus.HandleQc | zbx-chain/crates/zbx-consensus/src/hotstuff.rs:513-584 | a prepare certificate locks and asks for a precommit vote, a precommit one asks for a commit vote, a commit one decides a stored block above the committed height and moves the pacemaker, and any other is refused |
| HotStuffEngine.Consensus.HandleVote | zbx-chain/crates/zbx-consensus/src/hotstuff.rs:395-510 | a vote is collected, and the certificate it completes is handled in the same call |
| HotStuffEngine.ProposalOutcome | zbx-chain/crates/zbx-consensus/src/hotstuff.rs:359-393 | a proposal without a verifying parent certificate from the member whose turn it is changes nothing; any other is stored, and its prepare vote is signed exactly when the surviving votes, epoch and locks allow it with the parent certificate's round |
| HotStuffEngine.CertificateOutcome | zbx-chain/crates/zbx-consensus/src/hotstuff.rs:513-584 | a prepare certificate holds its lock and it and a precommit one are answered by the next vote exactly when the rules allow it; a commit one decides a stored block above the committed height and moves the pacemaker past it |
| HotStuffEngine.EngineCollects | zbx-chain/crates/zbx-consensus/src/hotstuff.rs:395-510 | in every run the engine's vote state is that of a collector fed the same votes and prunes since the last start |
| HotStuffEngine.StoreHoldsLast | zbx-chain/crates/zbx-consensus/src/block_store.rs:22-34 | of any number of different blocks the store holds the last 1024 in order |
| HotStuffEngine.RoundsRise | zbx-chain/crates/zbx-consensus/src/liveness.rs:107-165 | between restarts the round never falls, stays above every decided block, and a timeout moves it up by one |
| HotStuffEngine.TimeoutsCount | zbx-chain/crates/zbx-consensus/src/liveness.rs:84-165 | rounds count from 1 in epoch 1, one more for each timeout |
| HotStuffEngine.RunSound | zbx-chain/crates/zbx-consensus/src/hotstuff.rs:353-584 | in every run, restarts included, an engine asks its safety rules only for prepare votes that name a block by its own height and votes that repeat a certificate of the phase before, never for an epoch change, and decides only blocks with a commit certificate |
| HotStuffEngine.SignedArePrompted | zbx-chain/crates/zbx-consensus/src/hotstuff.rs:353-584 | so every vote it signs is one of those, all in safety epoch 0 |
| HotStuffEngine.DecisionsIncrease | zbx-chain/crates/zbx-consensus/src/hotstuff.rs:513-584 | from one start to the next an engine decides at strictly increasing heights |
| HotStuffEngine.CertificateNumbers | zbx-chain/crates/zbx-consensus/src/hotstuff.rs:353-584 | every certificate of any phase names its block by the block's own height |
| HotStuffEngine.NodesDecideAlike | zbx-chain/crates/zbx-consensus/src/hotstuff.rs:353-584 | if fewer than a third of one validator set is faulty and the others run this engine and lose no vote in a restart, no two nodes, nor one node at two times, decide different blocks at one height, whatever they are sent |
| HotStuffEngine.SoleValidatorDecides | zbx-chain/crates/zbx-consensus/src/hotstuff.rs:353-584 | a sole validator meets those conditions and decides the block it is proposed |
| HotStuffSwaps.SwapBackedIff | zbx-chain/crates/zbx-consensus/src/hotstuff.rs:220-234 | whatever validator sets are swapped in while votes arrive, a slot's first certificate is backed by a quorum of the current members exactly when every earlier voter is still one and the current quorum is not above that of the set the slot was opened under |
| HotStuffSwaps.UnswappedBacked | zbx-chain/crates/zbx-consensus/src/hotstuff.rs:220-234 | every certificate is backed when no swap came since its slot was opened, whatever came before |
| HotStuffSwaps.SwapFailingCases | zbx-chain/crates/zbx-consensus/src/hotstuff.rs:220-234 | growing 3 members to 6, or replacing two voters, leaves a certificate without a quorum of the current set |
| Pruner.Walk | zbx-chain/crates/zbx-pruner/src/rocksdb_pruner.rs:213-254 | a walk adds exactly the nodes under its root, stays inside every closed set that holds the root, and fails only when one is missing or undecodable |
| Pruner.MarkLiveSet | zbx-chain/crates/zbx-pruner/src/rocksdb_pruner.rs:196-205 | marking succeeds exactly when every retained trie is complete on disk, and then marks the least closed set holding the roots |
| Pruner.Sweep | zbx-chain/crates/zbx-pruner/src/rocksdb_pruner.rs:349-403 | a batched sweep never removes a marked node, removes every other one when no delete fails, and its three counters add up |
| Pruner.SeedWindow | zbx-chain/node/src/node.rs:455-479 | on a contiguous chain seeding lists, in ascending order with their roots, exactly the last retained heights that can be read |
| Pruner.TrimBounds | zbx-chain/node/src/node.rs:497-519 | a trim keeps the newest entries, at most four windows or 64 |
| PrunerRuns.WindowAlways | zbx-chain/node/src/block_producer.rs:550-656 | under every interleaving of the storage calls of commits, with any fault, with trims and prune cycles, and at every moment, the retained list holds, back over the last `retain_blocks` heights at least, exactly the heights whose commit was not struck by a staking or governance fault and is not between storing its block and pushing its root |
| PrunerRuns.SnapshotLacks | zbx-chain/crates/zbx-pruner/src/rocksdb_pruner.rs:316-349 | a cycle's snapshot lacks exactly the blocks of the window stored after it read the head, those struck late, and the one a running commit has stored and not yet pushed |
| PrunerRuns.ListBounded | zbx-chain/node/src/node.rs:497-519 | in every run a trim bounds the list and only a commit's push lengthens it, by one |
| PrunerRuns.SweepKeepsWindowIff | zbx-chain/crates/zbx-pruner/src/rocksdb_pruner.rs:316-403 | a complete sweep keeps every state of the window exactly when no block the snapshot lacks has an unmarked root |
| PrunerRuns.SweepSafety | zbx-chain/crates/zbx-pruner/src/rocksdb_pruner.rs:316-424 | over every interleaving of single storage calls of commits failing anywhere with head reads, snapshots, marks with failing reads and batch deletes, sweeps that are timely when they take the lock never remove a node of the last `retain_blocks` states |
| PrunerRuns.QuietSweepTimely | zbx-chain/crates/zbx-pruner/src/rocksdb_pruner.rs:316-349 | a cycle that reads the current head and takes its snapshot while no block of the window is struck late or stands between store and push stays timely until another block is stored |
| PrunerRaces.WholeCommitReaches | zbx-chain/node/src/block_producer.rs:435-656 | left alone, the storage calls of a commit add up to the commit pipeline, for every fault |
| PrunerRaces.MidCommitKeptIff | zbx-chain/node/src/block_producer.rs:566-656 | with no fault and no block stored after the head read: a snapshot taken between a block's store and its push makes the next complete sweep keep the head's state exactly when its root is among the marked nodes, by a run given in full |
| PrunerRaces.MidCommitLost | zbx-chain/node/src/block_producer.rs:566-656 | such a run from a sound start that deletes the head's state |
| PrunerRaces.LateCommitKeptIff | zbx-chain/node/src/block_producer.rs:574-656 | a block struck late keeps its state through the next complete prune cycle, with no race, exactly when its root is among the marked nodes |
| PrunerRaces.LateCommitLost | zbx-chain/node/src/block_producer.rs:628-656 | one governance read error, and the next prune cycle deletes the head's state |
| PrunerRaces.UnmarkedCommitIsLost | zbx-chain/crates/zbx-pruner/src/rocksdb_pruner.rs:337-349 | every block committed between mark and lock with an unmarked root loses its state to the sweep |
| PrunerRaces.RaceReachable | zbx-chain/crates/zbx-pruner/src/rocksdb_pruner.rs:337-349 | that loss is reachable from a sound start |
| Noise.SendEncrypted | zbx-chain/node/src/noise.rs:256-282 | writes the length header and one sealed, length-prefixed frame per chunk, and fails exactly when the nonces run out |
| Noise.RecvEncrypted | zbx-chain/node/src/noise.rs:287-319 | the read loop returns what the receiving function specifies on every byte stream |
| Noise.WriterLoop | zbx-chain/node/src/network.rs:1157-1181 | sends exactly the queued messages that encode and fit, in order, until one fails |
| Noise.KeptParts | zbx-chain/node/src/network.rs:1157-1181 | the writer keeps or skips message by message, in order |
| Noise.ReceiverTotal | zbx-chain/node/src/noise.rs:287-319 | on every byte stream the receiver stops; a message holds between the announced length and 65518 bytes more, none when none are announced, and accounts for every byte consumed |
| Noise.U32RoundTrip | zbx-chain/node/src/noise.rs:264-266 | the 32-bit big-endian length reads back as the length modulo 2^32 |
| Noise.BigEndian | zbx-chain/node/src/noise.rs:264-266 | lengths stand on the wire most significant byte first |
| Noise.ChunkCount | zbx-chain/node/src/noise.rs:268-281 | a message takes one frame for every started 65,519 bytes |
| Noise.RoundTripIff | zbx-chain/node/src/noise.rs:256-319 | a sent message is received exactly, with nothing else consumed and nonces in step, precisely when it is at most 16 MiB |
| Noise.StreamRoundTrip | zbx-chain/node/src/noise.rs:256-319 | any list of messages of at most 16 MiB reads back as that list, byte for byte and nonce for nonce |
| Noise.QueueRoundTrip | zbx-chain/node/src/network.rs:1157-1194 | whatever is queued, the peer reads exactly what the writer loop did not skip |
| Noise.CutStreamFails | zbx-chain/node/src/noise.rs:287-319 | a stream cut anywhere inside a message yields no message |
| RateLimiter.Limiter.Admit | zbx-chain/node/src/network.rs:692-715 | one message updates only its peer's entry and is accepted exactly within the limit |
| RateLimiter.WindowCount | zbx-chain/node/src/network.rs:692-715 | at most 500 messages are accepted per window |
| RateLimiter.RateBound | zbx-chain/node/src/network.rs:83-85 | at most 999 messages are accepted in any half-open ten seconds |
| RateLimiter.BoundReached | zbx-chain/node/src/network.rs:692-715 | 999 is reached |
| RateLimiter.PeersIndependent | zbx-chain/node/src/network.rs:692-715 | a peer's entry depends on its own arrivals since its last disconnect alone |
| Broadcast.Server.Scan | zbx-chain/node/src/network.rs:288-305 | every registered peer is offered the message; those full or closed are returned |
| Broadcast.Server.BroadcastMsg | zbx-chain/node/src/network.rs:288-313 | run alone, it leaves registered exactly the peers that took the message |
| Broadcast.TakesIff | zbx-chain/node/src/network.rs:288-313 | after a broadcast a peer is registered exactly if its queue was open with fewer than 1024 waiting, and then has the message at its end |
| Broadcast.ClosedIsDoomed | zbx-chain/node/src/network.rs:288-313 | a closed queue takes nothing more and the next broadcast marks its peer for removal |
| Broadcast.BroadcastNoGaps | zbx-chain/node/src/network.rs:288-313 | in every run, with broadcasts in flight, each registered peer not due for removal has every broadcast since it joined enqueued in order, and no queue exceeds 1024 |
| CallGas.Stipend | patches/FIX-002-call-gas-delegatecall.rs:27-45 | the 2300 gas go exactly to a CALL that transfers value |
| CallGas.ForwardGas | patches/FIX-002-call-gas-delegatecall.rs:55-61 | the child gets at most its request, the parent keeps at least one 64th, and exactly that when the request is cut |
| CallGas.ChildGasIs | patches/FIX-002-call-gas-delegatecall.rs:27-61 | a child's gas: its request cut at what the parent has left less one 64th, and the stipend on top for a value-moving CALL |
| CallGas.GasDecay | patches/FIX-002-call-gas-delegatecall.rs:27-61 | along any chain of d calls 64^d (g_d - 63) is at most 63^d (g_0 - 63) plus the stipends' share |
| CallGas.StipendFreeDecay | patches/FIX-002-call-gas-delegatecall.rs:55-61 | without value transfers the bound is 63^d (g_0 - 63) |
| CallGas.StaticIff | patches/FIX-002-call-gas-delegatecall.rs:87 | a frame is static exactly when the root was or some call on the path was a STATICCALL |
| CallGas.EnvironmentShared | patches/FIX-002-call-gas-delegatecall.rs:88-92 | the block environment is the same in every frame of a path |
| CallGas.DelegatePreserves | patches/FIX-002-call-gas-delegatecall.rs:75-83 | along any chain of DELEGATECALLs caller and value are those of the frame it started from |
| CallGas.CallerOfFrame | patches/FIX-002-call-gas-delegatecall.rs:74-83 | the caller is the contract that made the last call of another kind, named by the call before it, and the value is that call's |
| Slashing.SwapSame | patches/FIX-003-equivocation-slashing.rs:93-136 | evidence with its messages swapped verifies alike and names the same offence |
| Slashing.VerdictIff | patches/FIX-003-equivocation-slashing.rs:93-136 | each verdict exactly: the checks in order, each signature last and under the key in its message |
| Slashing.ReportOutcome | patches/FIX-003-equivocation-slashing.rs:93-204 | what one report changes: stake, registry and log exactly when it verifies and its offence is new, and nothing otherwise |
| Slashing.SlashedIffConvicted | patches/FIX-003-equivocation-slashing.rs:93-204 | over any reports a validator was slashed for a round and phase exactly when some report holds two messages of it for different blocks there, in the window and each verified under its key |
| Slashing.WindowBoundsNoAge | patches/FIX-003-equivocation-slashing.rs:115-124 | a verified conflict is accepted exactly up to 50,000 blocks after the submission height it states, so restated it is accepted however long after its round |
| Slashing.ImplicatesIffRegistered | patches/FIX-003-equivocation-slashing.rs:125-147 | accepted evidence proves that a validator signed both messages, in every world that explains the signatures, exactly when both carry its registered key |
| Slashing.AnyoneCanBeNamed | patches/FIX-003-equivocation-slashing.rs:93-147 | accepted evidence renamed to any validator not yet slashed for that round and phase is accepted and slashes it, and only it |
| Slashing.AllCanBeNamed | patches/FIX-003-equivocation-slashing.rs:93-147 | one conflict renamed for each of a list of validators gets every one of them slashed |
| Slashing.InnocentSlashed | patches/FIX-003-equivocation-slashing.rs:125-147 | a validator whose key signed nothing loses a third of its stake |
| Slashing.ComputeSlash | patches/FIX-003-equivocation-slashing.rs:165-177 | a third of the stake rounded down, or the minimum, or everything there is; the reward is one 512th of it rounded down |
| Slashing.Registry.MarkProcessed | patches/FIX-003-equivocation-slashing.rs:198-203 | records exactly the offence |
| Slashing.SlashOnce | patches/FIX-003-equivocation-slashing.rs:182-204 | over any evidence sequence each validator, round and phase is slashed at most once, and exactly the registered offences are |
| Slashing.SlashConserves | patches/FIX-003-equivocation-slashing.rs:165-204 | slashed total plus remaining stake is the initial stake, and the remainder depends only on the number of slashes |
| Slashing.RemainderBound | patches/FIX-003-equivocation-slashing.rs:165-177 | after k slashes at most max(0, stake - k minimum slashes) remains |
| Slashing.OrderIrrelevant | patches/FIX-003-equivocation-slashing.rs:182-204 | final stakes depend only on which offences were proven, not on order, number or form of the reports |
| Supply.CalcMinedSupply | artifacts/api-server/src/routes/network-config.ts:128-145 | the era loop computes the capped per-block sum over the first ten eras |
| Supply.TokenPageMinedSupply | artifacts/api-server/src/routes/tokens.ts:13-26 | the second copy of the loop, with its own constants, computes the same function for mainnet |
| Supply.CurrentBlockReward | artifacts/api-server/src/routes/tokens.ts:28-35 | the reward loop is the per-block reward, constant after ten halvings |
| Supply.ExactIff | artifacts/api-server/src/routes/network-config.ts:128-145 | loop and capped per-block sum agree at every height exactly when the cap is reached within ten eras or nothing is paid |
| Supply.BothNetworksExact | artifacts/api-server/src/routes/network-config.ts:32-84 | that holds for the mainnet and testnet constants |
| Supply.SupplyMonotoneAndCapped | artifacts/api-server/src/routes/network-config.ts:128-145 | supply never falls, and with the reserved amounts never passes the cap |
| Supply.MainnetExhausted | artifacts/api-server/src/routes/network-config.ts:32-57 | all 150,000,000 exist exactly from block 60,013,334 on |
| Genesis.ValidateNoPlaceholders | zbx-chain/node/src/genesis.rs:239-278 | accepts exactly the configurations that are not mainnet or hold no placeholder address |
| Genesis.BuildGenesisBlock | zbx-chain/node/src/genesis.rs:281-292 | the account list in order, and a block whose root is that of the table the list writes |
| Genesis.LastAllocationWins | zbx-chain/node/src/genesis.rs:462-469 | with duplicate addresses the last allocation decides, and nothing else is in the table |
| Genesis.AllocationHeld | zbx-chain/node/src/genesis.rs:281-292 | an address holds the balance and nonce of its last allocation |
| Genesis.CleanIff | zbx-chain/node/src/genesis.rs:239-278 | only chain 8989 refuses addresses whose first 18 bytes are zero |
| Genesis.Storage.BootstrapInto | zbx-chain/node/src/genesis.rs:300-414 | one boot, for every policy and failing storage call |
| Genesis.FirstBootByFault | zbx-chain/node/src/genesis.rs:300-414 | what a first boot leaves and reports for each failing storage call |
| Genesis.LenientBoot | zbx-chain/node/src/genesis.rs:320-394 | a lenient boot on existing data reports the stored hash and writes only a missing chain id |
| Genesis.IdentityWriteOnce | zbx-chain/node/src/genesis.rs:320-394 | over any sequence of boots with any configuration, policy and fault, a stored genesis and a stored chain id never change |
| Genesis.StrictBootIff | zbx-chain/node/src/genesis.rs:320-394 | a strict boot on existing data succeeds exactly when nothing stored contradicts the configuration |
| Genesis.LaterStrictBootsAgree | zbx-chain/node/src/genesis.rs:320-394 | every later successful strict boot asks for the first boot's chain id and reports its hash |
| Genesis.AccountsMatchHeader | zbx-chain/node/src/genesis.rs:397-405 | a completed first boot stores exactly the table whose root is in the stored header |
| Genesis.SecondBootCompleteIff | zbx-chain/node/src/genesis.rs:397-414 | after a first boot with any failure and a good second one the table is the header's exactly when no account write failed, or each address's last allocation only repeats its last one before the failure |
| Genesis.FundedAccountLost | zbx-chain/node/src/genesis.rs:397-405 | a funded account lost to one failed write while the next strict boot reports success |

## Left out

- Fixed-width integers: heights, balances, stakes and counters are unbounded, except the saturating additions of the range server and the 16-, 32- and 64-bit fields of the encrypted framing; in particular the rate counter's and the slashing amounts' overflow is not modelled.
- BlockProducer.Producer.ExecuteAndCommit: a commit is one atomic step against other commits, because the source takes no exclusive lock between head check and block write and says nothing of concurrent commits; builds interleave freely.
- BlockProducer.Producer.ExecuteAndCommit: the executor, the mempool's selection and ordering, receipts and logs are opaque.
- ChainRuns.StoredBlocksHaveTheirNodes: assumes the executor hands over every node of its new root that the head's trie does not already have, which is a property of the trie crate.
- EpochSeed.LightClientAgreement: is for one process from genesis with every commit through the driver and epochs of at least two blocks, since the driver restarts its seed from genesis each time it is built.
- Governance.DelayIndependence: votes and tallies are a majority flag; storage version, activations and feature flags of an upgrade are not used by the hook and are absent.
- ValidatorRuns.JailSurvives: does not cover the appeal path that overturns a slash and returns a jailed validator to Pending, because it runs outside the commit.
- Validators.ValidatorSync.SyncAfterCommit: rewards, commissions, monikers and delegations beyond their total are absent.
- HotStuff.CertificatesAgree: is for one validator set, since certificates need not be backed after a swap (HotStuffSwaps.SwapBackedIff); agreement across safety epochs is not claimed, because votes are only unique within one. Timeout certificates, proposer choice and drop counters are absent.
- HotStuffEngine.NodesDecideAlike: is for one validator set and claims nothing about liveness or whether a member is up to date.
- HotStuff.VotesOnce: a failed write of the safety state is modelled, a torn or corrupt file is not.
- Pruner.Walk: references found in inline nodes are listed with the hashed node that embeds them, and account tries are taken to share no node with storage tries, which the visited set of the source relies on as well.
- PrunerRuns.SweepSafety: one commit runs at a time; execution and head check are one step before the guard is taken, and nothing is said about the lock's liveness. A restart, which seeds the list anew, starts a new run. The executor is assumed to hand over every node of a new state that the head's state does not have.
- EpochSeed.ConsensusDriver.DoCommit: what the slashing pipeline decides to write is a parameter; liveness counters and the broadcasts after the commit are absent.
- Noise.RoundTripIff: the handshake and the cipher are parameters; forgery resistance is not claimed, and neither is JSON encoding.
- RateLimiter.RateBound: peer scores, penalties and bans are absent.
- Slashing.SlashOnce: the caller's sequence of verify, deduplicate, slash and mark is the one the registry is written for; it is not part of the patch.
- Supply.CalcMinedSupply: amounts are exact in units of 1/1024, which double-precision numbers also are at these sizes.
- Genesis.Storage.BootstrapInto: code and storage of an allocation are ignored, as the source ignores them; configuration parsing is absent.
- RLP, Merkle-Patricia tries, EVM and ZVM execution, the mempool, snapshots, RPC, gossip routing, peer discovery, the HTTP routes over SQL and all user interfaces.
