# Wombat multisig proposals: a verified model

The repository keeps a set of on-chain contracts in line with its configuration files by proposing
batches of transactions to a multisig. A *planner* reads a snapshot of the chain, compares it with the
configuration and lists the transactions that close the gap. A batch is printed for the Safe user
interface, may be wrapped into timelock calls, and is later read back and executed. This project models
the planners, the chain state they act on, the transaction codec and a few smaller cores next to them,
and proves what the proposals achieve once executed, from any state, together with the exact conditions
under which they go through.

| file | contents |
|---|---|
| `Base`, `Emission`, `Ledger` | addresses and failure results; second/epoch/month conversions; ERC20 balances and supply |
| `Rewarders`, `RewarderPlans`, `Convergence` | reward slots, the transactions on them, `loopRewarder` with its two handlers, and the whole-plan theorems |
| `FundingRun` | repeated pause/resume reconciliation while rewards accrue and are claimed |
| `TopUps`, `Batches` | `topUpRewarder`, `topUpMultipleEpochs`; plans from one snapshot joined by `concatAll` |
| `Pools`, `PoolMoves`, `PoolMerges`, `CashRescue` | pools, assets and the three proposals that move them |
| `Adaptors`, `MutualTrust` | cross-chain adaptor groups and their synchronisation |
| `Factory` | boosted rewarders deployed through the bribe rewarder factory |
| `Text`, `Codec`, `Timelock`, `Replay` | printing arguments and reading them back, timelock wrapping, plan-to-chain replay |
| `PendingLog`, `TokenName`, `Registry` | the pending transaction log, ABI string decoding, the token registry |

Code that pushes onto a list in a loop, or updates shared objects, is a method or a class, and is proved
equal to a specification function; the theorems are about that function and about executing its result.

## Assumptions

- A planner reads one snapshot: remote calls it makes while planning all see the same state, and named
  accounts, deployments and token addresses are maps given to it.
- The multisig owns the contracts it acts on (it is owner, dev and operator where the contracts ask for
  one). Each modelled setter has the checks of the contract in this repository that it calls; a call that
  fails a check reverts. Batches run atomically, except in `Chain.Simulate`, which stops at the first revert.
- An address is a number, however it is spelled. `syncCrossChainPool` compares spellings, so a
  configured address with another capitalisation than the chain's makes it throw where the model does not.
- Amounts are unbounded integers; the limits of `uint96`, `uint120` and `uint16` and the reward rate cap
  are stated where a modelled call checks them.
- The ABI encoder, JSON and the printing of addresses are parameters, assumed to have an inverse and to
  emit no comma (no line break, for JSON) where a theorem says so.
- No rewarder is the multisig itself, and ERC20 balances are not negative to begin with.

## Where the code does less than its names and comments suggest

- `mergePools` asserts five transactions for every merged pool, while its message speaks of three: there is a
  plan only when the pools to merge hold two tokens each on average (`PoolMerges.MergePlanIff`), and never when
  they hold one each (`PoolMerges.OneAssetPoolsAreRefused`).
- `addCash` sends the amount in the token's own units and books the same number as cash, which is kept
  with 18 decimals: what the asset holds beyond its cash is unchanged only for tokens of 18 decimals, but for
  a single unit of a finer token that happens to carry (`CashRescue.SurplusKeptIff`).
- `topUpMultipleEpochs` for a token the rewarder does not pay yet adds the token once per epoch
  (`TopUps.SnapshotEqualsSequential`).
- `pauseOrResumeRewardRate` tests a slot on the whole balance of its rewarder, while rewards that were emitted
  and not claimed stay owed across reconciliations. However short the threshold, a slot that is meant to emit
  has a run after which a claim cannot be paid (`FundingRun.SafeAnytimeIffSilent`), as simply as reconcile,
  wait, reconcile, wait, claim (`FundingRun.UnclaimedRewardsAreCountedTwice`). A keeper that reconciles only
  when what is owed does not decide any slot's test, in particular when nothing is owed, is safe exactly when
  no slot starts above its configured rate and no two emitting slots of a rewarder share a token
  (`FundingRun.SafeIffBoundedAndDistinct`).
- A batch of `deployBoostedRewarderThroughFactory` reverts for an asset whose deployer is the multisig already: the factory
  refuses a deployer that is already set (`Factory.DeploymentTheorem`).
- Adaptors whose chain id is zero, as on development networks, never have a token approved
  (`MutualTrust.ChainIdZeroAcceptsNothing`).
- `removeAsset` leaves the paused flag of the token in the pool it is taken from, so moving an asset to
  a pool that once paused it fails at `pauseAsset` (`PoolMoves.RemovalRunsIff`).

## Model

| member | source | states |
|---|---|---|
| Emission.EpochRoundTrip | config/emission.ts:4-10 | an epoch amount turned into a rate and back never grows and loses less than one unit per second; a rate turned into an epoch amount and back is unchanged |
| Emission.TruncDivBounds | config/emission.ts:8-14 | the divisions round toward zero, for negative amounts too, by less than the divisor |
| Emission.VoterTopUpFundsMonthlyRate | utils/multisig/utils.ts:726-762 | for any monthly figure and at least one epoch, the voter top-up covers the per-second rate set for the same figure over the whole period, with less than one unit per second to spare; one epoch takes seven thirtieths of the month, rounded down, and several as many times that |
| Emission.DivAtLeast | utils/multisig/utils.ts:646 | dividing the balance by the rate and comparing with the threshold is the same as the balance paying for that many seconds |
| Ledger.MoveConserves | utils/multisig/utils.ts:607 | a transfer leaves the sum of all balances of every token as it was |
| Rewarders.RunEffect | contracts/wombat-governance/rewarders/MultiRewarderPerSec.sol:144-152 | after any batch of rate writes and transfers each slot has its token and the last rate written to it, each balance has moved by what was sent, and no supply has changed |
| Rewarders.RunSucceedsIff | contracts/wombat-governance/rewarders/MultiRewarderPerSec.sol:142-149 | such a batch goes through if and only if every write names a slot and a rate within the cap, no amount is negative, and the multisig holds the total of every token |
| Rewarders.RunFrame | contracts/wombat-governance/rewarders/MultiRewarderPerSec.sol:104-116 | a rewarder that no transaction of a batch addresses keeps its slots, even when others have tokens added |
| Rewarders.Chain.Simulate | utils/multisig/utils.ts:504-515 | transactions are sent in order up to the first that reverts; all of them are exactly when the whole batch goes through |
| RewarderPlans.LoopRewarder | utils/multisig/utils.ts:664-705 | the loop over the configuration, with its checks and early failures, yields the specified plan or fails exactly when that does |
| RewarderPlans.CheckTokens | utils/multisig/utils.ts:694-701 | the loop over the slots accepts if and only if every slot's configured token resolves to the one on chain |
| RewarderPlans.EnoughIffCovered | utils/multisig/utils.ts:645-646 | the has-enough test of a slot means the balance covers the threshold at the configured rate |
| RewarderPlans.PlanSlotForm | utils/multisig/utils.ts:579-661 | when each handler fails on a slot, and otherwise that it proposes one write of the desired rate if that differs, then the top-up |
| RewarderPlans.PlanSlotsContents | utils/multisig/utils.ts:575-613 | the plan for one rewarder writes exactly the slots that differ, once, to the desired rate, and sends that rewarder the sum of the top-ups of all its slots with a token |
| Convergence.PlanExistsIff | utils/multisig/utils.ts:677-702 | a plan exists if and only if every entry has its rewarder on chain, at its own address for V2 and at that of its deployment name otherwise, with the configured token in every slot and a rate for each; one failed check and nothing at all is proposed |
| Convergence.PlanContents | utils/multisig/utils.ts:573-614 | a whole plan touches configured rewarders only, writes each slot as often as entries want to change it, and sends each rewarder and in total exactly what the configuration owes |
| Convergence.PlanGoesThroughIff | utils/multisig/utils.ts:597-608 | a plan goes through if and only if the rates it writes are within the cap and the multisig holds the total top-up of every token |
| Convergence.PlanConverges | utils/multisig/utils.ts:573-705 | executing a plan brings every configured slot to its desired rate if and only if entries for one rewarder agree; other rewarders are untouched, balances move by exactly what is owed, and supplies are unchanged |
| Convergence.EmissionsMatchConfig | utils/multisig/utils.ts:572-614 | after an executed emissions update every slot has its configured rate if and only if entries naming one rewarder list the same rates |
| Convergence.DistinctRewardersAgree | utils/multisig/utils.ts:572-579 | entries for distinct rewarders never contradict each other |
| Convergence.OneWritePerDifferingSlot | utils/multisig/utils.ts:585-596 | with distinct rewarders, one rate write for a slot that differs and none for one that does not |
| Convergence.ReplanIsEmpty | utils/multisig/utils.ts:618-662 | after a plan of either handler has been executed, planning again without top-up proposes nothing |
| Convergence.PlanAskedFor | utils/multisig/utils.ts:573-661 | every transaction of a plan goes to the rewarder an entry names, and either writes the desired rate to a slot that differs, with the third argument for V2 only, or sends the slot's configured token, for an update that asks for it, at the configured rate for all the epochs |
| Convergence.SlotsInOrder | utils/multisig/utils.ts:580-613 | the proposals for a rewarder are those for its slots, in order, or none if one slot has none |
| Convergence.PauseOrResumeSettles | utils/multisig/utils.ts:616-662 | after an executed pause/resume plan every slot with a positive configured rate emits if and only if its balance covers the threshold, slots configured at zero have the rate they had, nothing was sent, and no rate was written but zero, or the configured one to a slot that was paused |
| FundingRun.ReconcileEffect | utils/multisig/utils.ts:618-662 | for non-V2 rewarders with rates in range a reconciliation always goes through, moves no token, cancels nothing owed, and leaves each slot at its desired rate |
| FundingRun.ElapseEffect | contracts/wombat-governance/rewarders/MultiRewarderPerSec.sol:127-140 | while time passes every slot comes to owe its rate times the seconds more |
| FundingRun.PlayKeepsInv | utils/multisig/utils.ts:616-662 | over any run of a disciplined keeper each slot's balance covers what the slot owes and what it emits until the next reconciliation is due |
| FundingRun.BoundedRatesAreSafe | utils/multisig/utils.ts:616-662 | with a disciplined keeper, rates at most as configured and distinct tokens, no claim in any run from any balances takes a balance below zero |
| FundingRun.ExcessRateIsUnsafe | utils/multisig/utils.ts:648-655 | a slot that starts above its configured rate has a run that overdraws its rewarder, whatever the discipline |
| FundingRun.SharedTokenIsUnsafe | utils/multisig/utils.ts:644-657 | so have two emitting slots of one rewarder with one token |
| FundingRun.MaskedSlotOverdraws | utils/multisig/utils.ts:644-657 | reconcile, wait, claim takes a slot that passes the test to exactly its balance less what it owed and a threshold's worth; below zero if and only if the surplus would have failed the test |
| FundingRun.UnclaimedRewardsAreCountedTwice | contracts/wombat-governance/rewarders/MultiRewarderPerSec.sol:167-207 | reconcile, wait, reconcile, wait, claim takes it to its balance less two thresholds' worth |
| FundingRun.SafeAnytimeIffSilent | utils/multisig/utils.ts:616-662 | with a keeper that reconciles at any time, safety over all runs and balances holds if and only if no configured slot emits or is meant to |
| FundingRun.SafeIffBoundedAndDistinct | utils/multisig/utils.ts:616-662 | with a keeper that reconciles only when nothing is owed, or when what is owed decides no slot's test, safety over all runs and balances holds if and only if no slot starts above its configured rate and no two emitting slots of a rewarder share a token |
| TopUps.TopUpRewarder | utils/multisig/utils.ts:330-364 | the search for the token's slot and both branches yield the specified plan or failure |
| TopUps.FindSlot | utils/multisig/utils.ts:342 | the slot found is the first that pays in the token; none is found if and only if there is none |
| TopUps.TopUpPlanIff | utils/multisig/utils.ts:335-357 | there is a plan if and only if rewarder and token are known and the token is paid already or comes with a positive amount |
| TopUps.RefillEffect | utils/multisig/utils.ts:343-350 | without an amount, one epoch of the current rate is sent, and no slot changes; it goes through if and only if the multisig holds that |
| TopUps.RateChangeEffect | utils/multisig/utils.ts:343-354 | with an amount, the token's slot gets the amount over an epoch, rounded toward zero, as its rate, and an epoch of that is sent; when that goes through |
| TopUps.NewTokenEffect | utils/multisig/utils.ts:355-363 | a token not paid yet is added as the last slot with that rate, and the whole amount is sent; when that goes through |
| TopUps.TopUpFundsOneEpoch | utils/multisig/utils.ts:342-363 | what an executed top-up sends covers one epoch at the rate it leaves, with less than one unit per second to spare, and is at most an explicit epoch amount and within the same distance of it |
| TopUps.PresentTokenAgrees | utils/multisig/utils.ts:343-354 | for a token already paid, n plans from one snapshot executed together give the very state, or failure, of planning and executing n times |
| TopUps.SnapshotEqualsSequential | utils/multisig/utils.ts:330-368 | when at least one of the two ways succeeds, they agree if and only if the token is already paid or there is at most one epoch |
| Batches.PlanReadsOnlyTargets | utils/multisig/utils.ts:573-614 | a plan is the same on two states that agree at the rewarders it configures |
| Batches.PlanWritesOnlyTargets | utils/multisig/utils.ts:573-614 | executing a plan changes neither slots nor balances of any other rewarder |
| Batches.ConcatAllEqualsOneByOne | utils/index.ts:37-40 | for any number of jobs on disjoint rewarders, the joined plans made from one snapshot do exactly what planning and executing them in turn does, failures included |
| Pools.SwapAndPopRemoves | contracts/wombat-core/pool/PoolV2.sol:202-216 | removal by swap-and-pop puts the last token in place of that one, drops no other and leaves no duplicates |
| Pools.ExecKeepsConsistent | contracts/wombat-core/pool/PoolV2.sol:185-219 | a transaction that adds only assets pointing to the pool, and redirects no asset listed elsewhere in service, keeps lists and lookups in step and every asset listed by a pool in service pointing back to it |
| PoolMoves.RemovalRunsIff | utils/multisig/utils.ts:203-216 | the four transactions for one asset go through if and only if its token is listed where the asset points, is not yet in the target unless it comes from there, and is not marked paused in the target |
| PoolMoves.RemovalEffect | utils/multisig/utils.ts:209-214 | they then leave the asset listed, paused, in the target it points to, unlisted from its old pool, and change nothing else |
| PoolMoves.RemovalPlanIff | utils/multisig/utils.ts:198-208 | there is a plan if and only if the target's name has "Proxy" in it and is deployed, and every name is that of an asset |
| PoolMoves.RemoveAssetsTheorem | utils/multisig/utils.ts:197-218 | after every prefix of a `removeAssets` batch each asset listed by a pool in service points back to it; the batch goes through if and only if tokens are distinct and each asset can be moved; all are then moved and paused and nothing else is touched |
| PoolMerges.EmptyPool | utils/multisig/utils.ts:104-110 | the inner loop yields the pause and two transactions for each token of the pool, in the order of its list |
| PoolMerges.MergePools | utils/multisig/utils.ts:89-115 | the nested loops yield the specified batch, or fail on too few pools, a pool that is no proxy, or fewer than five transactions per pool |
| PoolMerges.MergeLength | utils/multisig/utils.ts:103-111 | a merge has one transaction for every pool and two for every token they hold |
| PoolMerges.MergePlanIff | utils/multisig/utils.ts:90-114 | there is a plan if and only if there are at least two names, all of proxies that resolve and can be read, and the pools to merge hold at least twice as many tokens as they are |
| PoolMerges.OneAssetPoolsAreRefused | utils/multisig/utils.ts:113 | there is none for pools that hold at most one token each |
| PoolMerges.MergePoolsTheorem | utils/multisig/utils.ts:89-115 | after every prefix of a `mergePools` batch each asset listed by a pool in service points back to it; the batch goes through if and only if the base is a pool, the others are distinct and in service and no token occurs twice; all are then paused, and everything they held points to the base and is listed there, in order, after what was there |
| CashRescue.CashNeedsThePool | contracts/wombat-core/asset/Asset.sol:144-147 | when cash is booked the multisig is the asset's pool, by the first transaction of the batch; without that one the rest goes through only where it was already |
| CashRescue.RescueRun | utils/multisig/utils.ts:189-194 | the final state of the four transactions, or that they revert, in closed form |
| CashRescue.AddCashTheorem | utils/multisig/utils.ts:173-195 | for every asset the batch goes through if and only if the multisig holds the amount and the books have room; then the asset has its pool again and the amount more cash, and no other asset, balance or supply has changed |
| CashRescue.SurplusKeptIff | utils/multisig/utils.ts:189-194 | the surplus over cash is unchanged if and only if nothing was paid in, or the token is the asset's own and has 18 decimals, or finer ones of which the single unit paid carries |
| Adaptors.GetOtherAdaptorsInGroup | config/adaptor.config.ts:203-220 | the nested loops yield the specified list of networks, in order |
| Adaptors.OthersIff | config/adaptor.config.ts:208-218 | a network is listed if and only if it is another one of the same group with an adaptor of the pool type |
| Adaptors.ConfigIff | config/adaptor.config.ts:232 | looking up a network and a pool type finds exactly what stands in the configuration for them |
| Adaptors.GroupIsSymmetric | config/adaptor.config.ts:203-220 | the networks listed are exactly the others with the same entry in the group map, or none, and an adaptor of the type; two networks with such adaptors are either both in each other's group or neither |
| Adaptors.LoopTokens | config/adaptor.config.ts:248-252 | the token callbacks of one network, in order, or failure at the first token without an address |
| Adaptors.LoopAdaptorInGroup | config/adaptor.config.ts:222-256 | the callbacks are made in the specified order: for each network with a chain id its adaptor, then its tokens; an unresolvable name fails the walk |
| MutualTrust.VisitsIff | config/adaptor.config.ts:228-255 | the walk succeeds if and only if each peer's adaptor, and each of its tokens if it has a chain id, has an address; adaptors and tokens are visited exactly when they are a peer's, under the id that the Wormhole table has for Wormhole adaptors and the LayerZero table for the others |
| Adaptors.SyncCrossChainPool | utils/multisig/utils.ts:782-816 | the callbacks push exactly the specified transactions, or fail at the first contradicting adaptor |
| Adaptors.SyncOkIff | utils/multisig/utils.ts:794-804 | a plan exists if and only if no table entry contradicts a configured adaptor |
| MutualTrust.SyncPlanIff | utils/multisig/utils.ts:790-813 | exactly the adaptors without an entry and the tokens not accepted yet, with a chain id other than zero, are proposed, of the target networks or of all if none are given |
| Adaptors.SyncEffect | utils/multisig/utils.ts:782-816 | executing it accepts all tokens with a chain id and no others, changes only entries of visited chain ids, and trusts every adaptor when none share a chain id |
| MutualTrust.RunIff | contracts/wombat-core/libraries/Adaptor.sol:151-154 | a synchronisation batch goes through if and only if new chain ids fit the table and no token is approved twice or already |
| MutualTrust.SyncTheorem | utils/multisig/utils.ts:782-816 | for one network and any tables: when there is a plan, when it goes through, and what it leaves; adaptors are trusted if and only if no two claim one chain id with different addresses, and planning again is then empty |
| MutualTrust.SyncOneTrusts | utils/multisig/utils.ts:782-816 | a network that has synchronised trusts a peer that has a chain id, and accepts all its tokens, if and only if the id is not zero or all the tokens were accepted before |
| MutualTrust.SyncAllTrusts | utils/multisig/utils.ts:782-816 | it still does after other networks have synchronised, in any order |
| MutualTrust.EveryoneTrustsEveryone | config/adaptor.config.ts:222-256 | when every network of a group has synchronised, any two have each other's configured adaptor under the chain id of its messager's table and accept each other's tokens under it |
| MutualTrust.GroupReplanIsEmpty | utils/multisig/utils.ts:795-803 | and planning again for any of them proposes nothing |
| MutualTrust.ChainIdZeroAcceptsNothing | utils/multisig/utils.ts:806-812 | no token is ever approved for chain id zero |
| Factory.WhitelistRewardTokens | utils/multisig/utils.ts:880-890 | the loop proposes to whitelist each token that the snapshot shows not to be |
| Factory.WhitelistingRun | contracts/wombat-governance/gauge/BribeRewarderFactory.sol:219-223 | what is proposed for a snapshot goes through if and only if no token missing from the whitelist is named twice, and adds them all |
| Factory.RevokingRun | utils/multisig/utils.ts:921-927 | revoking tokens goes through if and only if they are distinct and all whitelisted, and takes exactly them off the whitelist |
| Factory.PreparationRun | utils/multisig/utils.ts:818-842 | wiring up the factory and whitelisting always go through and set what was unset, and nothing that was set |
| Factory.SetDeployersRun | contracts/wombat-governance/gauge/BribeRewarderFactory.sol:207-211 | the deployer writes go through if and only if the assets are distinct and none has that deployer already, and change only those assets |
| Factory.DeploysRun | contracts/wombat-governance/gauge/BribeRewarderFactory.sol:84-134 | with the token whitelisted and the deployers set every deployment is authorised, all go through if and only if each asset can take a rewarder, and each then has one with the given start, token and rate |
| Factory.DeploymentTheorem | utils/multisig/utils.ts:1070-1092 | whenever a deployment of the batch is reached its token is whitelisted and the multisig is the asset's deployer; the exact condition for the batch to go through; at the end every asset has a rewarder with the given start, token and rate, and WOM is not on the whitelist |
| Text.JoinSplit | utils/multisig/params.ts:36 | joining what was split on a separator gives the string back |
| Text.SplitJoin | utils/multisig/params.ts:23 | splitting a joined non-empty list without separators gives the list back |
| Codec.PrintParse | utils/multisig/params.ts:34-44 | printing after parsing is the identity on every bracketed string |
| Codec.ParsePrint | utils/multisig/params.ts:8-44 | parsing after printing a comma-free list is the identity if and only if the list is not empty |
| Codec.PrintCollisions | utils/multisig/params.ts:8-24 | two comma-free lists print alike if and only if they are equal or are the empty list and the list of one empty string |
| Codec.PrintedAs | utils/multisig/params.ts:8-31 | which arguments can be printed, and that arrays print as a bracketed list and single values as they are |
| Codec.ReadAs | utils/multisig/params.ts:34-44 | everything but tuples is read back, as a list exactly when the type ends in brackets, and otherwise as it is |
| Codec.CreatedFor | utils/multisig/transactions.ts:69-74 | a transaction is addressed to its contract, carries no value and names its method |
| Codec.RecordAt | utils/multisig/transactions.ts:62-67 | what is recorded under a name is the argument of the last parameter of that name, and nothing else is recorded |
| Codec.RecordedUnderName | utils/multisig/transactions.ts:62-73 | with distinct names each argument is recorded, as printed, under the name of its parameter |
| Codec.EncodeDataIff | utils/multisig/transactions.ts:43-57 | a transaction can be encoded if and only if it names a method and has a value for each of its parameters, none of them a tuple; each argument is what that value reads back as |
| Codec.DecodedAt | utils/multisig/transactions.ts:43-57 | each parameter reads back what the last parameter of its name was given |
| Codec.DistinctNamesRoundTrip | utils/multisig/transactions.ts:43-82 | with distinct names every fitting call comes back argument for argument, in order, arrays intact |
| Codec.DuplicateNamesLoseArguments | utils/multisig/transactions.ts:62-67 | with a repeated name some fitting call does not |
| Codec.RoundTripIffDistinctNames | utils/multisig/transactions.ts:43-82 | all fitting calls of a method round-trip if and only if its parameter names are pairwise distinct |
| Codec.ShortNameIs | utils/multisig/transactions.ts:24 | a function's short name is what stands before the first parenthesis |
| Codec.Safe | utils/multisig/transactions.ts:16-33 | a Safe has each function of the contract under its short name, and is refused if and only if two functions share one or one is a name every object answers to |
| Timelock.PayloadsIff | utils/multisig/utils.ts:488-494 | a batch can be encoded if and only if each transaction can, and the payloads are theirs, one by one |
| Timelock.TimelockShows | utils/multisig/utils.ts:466-480 | both transactions record targets, values, payloads, predecessor and salt, printed alike, under those names, and the schedule transaction the delay |
| Timelock.TimelockAgreement | utils/multisig/utils.ts:460-494 | both transactions go to the timelock controller with no value, one to schedule a batch and one to execute it; targets, values, payloads, predecessor and salt read from the two are the same, and are those of the batch entry by entry if and only if it is not empty |
| Replay.ReadPrint | utils/multisig/params.ts:30 | a printed number reads back as that number |
| Replay.PrintedCall | utils/multisig/transactions.ts:59-82 | for each kind of planned transaction, the contract it is printed for, the function called and the arguments, in order |
| Replay.InterpretCall | utils/multisig/transactions.ts:59-82 | the call a planned transaction is printed as means that transaction again |
| Replay.TimelockReplaysPlan | utils/multisig/utils.ts:460-494 | any non-empty rewarder plan, turned into Safe calls and wrapped for the timelock, is read back transaction for transaction from either call to the timelock controller |
| PendingLog.ReadsWhatWasAppended | utils/multisig/files.ts:28-39 | reading a log gives back every transaction of every batch ever appended, in order |
| PendingLog.ReadsIff | utils/multisig/files.ts:31-33 | a log can be read if and only if each line that is not empty parses |
| PendingLog.LogFile.AppendBatchTransactions | utils/multisig/files.ts:37-39 | appending adds one batch and leaves the log well formed |
| PendingLog.LogFile.Read | utils/multisig/files.ts:28-34 | reading the file returns all the batches appended to it |
| TokenName.HexToCodes | contracts/wombat-peripheral/permit/lib.ts:5-29 | the loop turns any string, stripped, into character codes pair by pair, a lone last character and pairs that are no number included |
| TokenName.PairCode | contracts/wombat-peripheral/permit/lib.ts:22-24 | the code of any two characters, digits or not |
| TokenName.StripHex | contracts/wombat-peripheral/permit/lib.ts:11-17 | strip, reverse, strip, reverse removes the zero bytes at either end and never half a byte |
| TokenName.NameRoundTrip | contracts/wombat-peripheral/permit/eth-permit.ts:83-84 | for every byte string, decoding its ABI encoding yields it without zero bytes at either end, hence itself if and only if it neither begins nor ends with one |
| Registry.TokenRegistry.GetTokenDeploymentOrAddress | config/token.ts:93-105 | a lookup returns the shared entry, writes the requested network into that entry alone, and fails if and only if there is none |
| Registry.TokenRegistry.GetTokenAddress | config/token.ts:107-109 | looking up and resolving gives the resolution of the stamped entry |
| Registry.LookAllEffect | config/token.ts:93-105 | after any lookups each entry has its kind and either its old network or its own key |
| Registry.MarkedDependsOnHistory | utils/index.ts:60-64 | an entry that starts with a foreign network resolves differently before and after some lookup |
| Registry.HistoryFreeIff | utils/index.ts:52-75 | resolution never depends on earlier lookups if and only if every deployment entry starts with no network, its own key or a development network; the name is then a function of token, requested and current network |

## Left out

- FundingRun.SafeAnytimeIffSilent: V2 rewarders and rewarders configured twice are excluded, and nothing is owed before the first reconciliation. A claim the balance does not cover is shown as a negative balance; the contract pays what it has and goes on owing the rest.
- Rewarders.Chain.Simulate: the clock, which is moved forward before a timelock call and which no modelled transaction reads, is not modelled.
- TopUps.SnapshotEqualsSequential: says nothing where both ways fail.
- Timelock.TimelockAgreement: the entry-by-entry clause is for targets and values without commas, as addresses and numbers have none.
- Convergence.PlanGoesThroughIff: assumes that no configured rewarder is the multisig.
- Codec.RoundTripIffDistinctNames: tuples, fixed-size arrays and arrays of arrays, which the codec refuses or treats unevenly, are not claimed to round-trip.
- TokenName.HexToCodes: the UTF-8 decoding of the codes, and characters that take two UTF-16 units, which reversing would split.
- V2 rewarders in `pauseOrResumeRewardRate`: the planner passes two arguments to a function of three, which is modelled as the failure it is; no run theorem is stated for them.
- Reward accrual and claiming formulas of the contracts: only a bound on what leaves a rewarder is used.
- `hasActiveRewards`, `setBribe` and `setRewarder`: the predicate does not match its comments, so there is no property to prove.
- `setAllocPercent`, `setBribeAllocPercent` and the fractional monthly figures of `setWomMonthlyEmissionRate` and `topUpVoterForNEpoch`: floating point; the amount in base units is a parameter here.
- `updateCrossChainSwapSettings`, `updateMaxSupply`, `updatePoolsHaircutRate`, vote emission pausing and other planners that compare one field and write it: the same shape as a single slot of `updateEmissionsAndTopUp`.
- The signature splitters of `permit/rpc.ts`: slicing at fixed positions.
- The TimelockController contract is not part of this model: its delay, and calls it makes in its own name.
- A missing pending log file, and `path.join` normalisation in deployment names.
- Contract existence checks and the gas, nonce and overflow behaviour of the chain.
- Interleaving of asynchronous reads with other transactions.
