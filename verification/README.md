# Stake pool: a verified model

A Dafny model of the stake-pool program: a pool of delegated stake whose holders own pool tokens,
priced by `total_lamports / pool_token_supply`. Beside it stand two pieces of client code that depend
on the program's rules (the batched epoch update and the greedy withdrawal planner) and the
instruction codec of the lending program. Everything is proved for all inputs and all runs.

`dafny verify dfyconfig.toml` checks the whole project.

## How it is built

- `Numbers`, `Errors`: machine integers with explicit overflow, rounding, little-endian bytes, errors.
- `Fees`, `Pricing`: fee ratios and their limits; what tokens cost and what they redeem for.
- `Records`, `BigVec`: the 73-byte record and the length-prefixed array of them, edited in place.
- `PoolState`, `Steps`: the pool, its validator list and a small ledger (reserve, one stake account per
  validator, one transient account per validator and seed, mint supply, clock); every instruction as a
  function from state to state or error; the moves of the environment (an epoch passes, somebody
  donates lamports or burns tokens); runs of all of these. A failed step changes nothing.
- `Outcomes`, `TradeOutcomes`, `Refreshes`: for every instruction exactly when it is accepted and exactly what it
  leaves, stated without the functions that compute it; `StakeLifecycle`: where stake that is moved ends up.
- `Effects`, `ListInvariant`, `FeeInvariant`, `SupplyInvariant`, `Solvency`, `SolvencySteps`, `Removal`, `Holdings`,
  `Runs`: what every step keeps, and so what holds in every reachable state; a removal once begun ends.
- `ExchangeRate`, `MergeNeutral`, `HiddenTransient`: the value of a token over runs, merging against
  counting, and exactly when removing a validator is safe.
- `Processor`: the program in its own form, a class that assigns fields and edits the bytes of the list,
  with the loops of the list update and the pool update; each instruction is proved to do what the
  state function says, and `Execute` rolls back what a failed one wrote.
- `ByteRuns`: the results about runs, concluded of that class.
- `BatchRefresh`, `WithdrawPlanner`, `PlanAcceptance`, `PlanOutcome`, `LendingCodec`: the client code, what the
  program makes of its plans, and the codec.

Addresses derived from a pool are taken as what they are derived from, so equal addresses mean equal
validators and seeds. Calls into the stake, token and system programs are lamport and token moves;
where such a program refuses (an account exists already, a balance would leave 64 bits, a stake being
deactivated is merged into an active one) the step fails. The manager's fee account being usable is an
argument of the instructions that look at it. `checked_ceil_div` is the mathematical ceiling.

## What the code does that its comments do not say

- The limit on withdrawal-fee increases (`state.rs:728-760`) compares two optional products, and an
  overflowed one counts as smaller than any number. A proposal whose own side overflows is therefore
  accepted whatever it is (`Fees.CapMissedOnOverflow`); `Fees.CheckWithdrawalExact` says exactly when
  the check is the limit, and fee components below 2^63 are enough.
- Removing a validator looks at the transient lamports the record shows, not at the account
  (`processor.rs:1007-1038`). If lamports were sent to a transient address before its account was
  created, a withdrawal can bring the record to zero while the account lives on; the removal then
  drops it and the pool ends up owing more than it has (`HiddenTransient.HiddenTransientBreaksSolvency`
  is one such run, `HiddenTransient.HiddenRemovalBreaksSolvency` covers them all).
  `HiddenTransient.RemovalSafeExactly` gives the exact condition, and without such lamports
  it always holds.
- The planner passes over accounts at or below its minimum balance (`main.rs:1290-1292`), but the program
  wants all active stake gone before transient stake is touched, and both before the reserve. A plan can
  therefore be refused (`PlanAcceptance.RefusedPlan`, `PlanAcceptance.PassedOverBlocks`);
  `PlanAcceptance.PlanAcceptedExactly` says exactly when it is not.
- `pool_token_supply` "should always match" the mint (`state.rs:92`); it exceeds it by what holders have
  burnt on their own since the last pool update (`SupplyInvariant.DriftOverRuns`), so the two agree if and
  only if that is nothing (`SupplyInvariant.SupplyAgreesExactly`; `SupplyInvariant.BurningLosesAgreement`
  shows them apart).
- A deposit into a pool that holds lamports but has no tokens outstanding is priced one to one, and
  the depositor then owns everything (`Pricing.DepositThenRedeem`); such a pool can be reached
  (`SupplyInvariant.EmptiedPool`).
- Redemptions round up, so tokens redeemed in parts can return more than was deposited for them
  (`Pricing.PartsProfit`), by less than a lamport per part (`Pricing.DepositThenRedeemInParts`).

## Model

| member | source | states |
|---|---|---|
| Fees.Fee.Apply | stake-pool/program/src/state.rs:716-723 | a fee of at most 100% never takes more than the amount |
| Fees.FeeIsFloor | stake-pool/program/src/state.rs:716-723 | the fee taken is the exact share of the amount rounded down, and nothing for a fee without denominator |
| Fees.CapIsCrossMultiplication | stake-pool/program/src/state.rs:743-750 | the two products compared are the two ratios compared: new fee at most 3/2 of the one it is measured against |
| Fees.CheckWithdrawalExact | stake-pool/program/src/state.rs:728-760 | the check is the limit exactly when the proposal's side fits 128 bits, and accepts everything when it does not |
| Fees.CapMissedOnOverflow | stake-pool/program/src/state.rs:743-750 | a concrete accepted change from about nothing to 100% |
| Fees.SmallComponentsNeverOverflow | stake-pool/program/src/state.rs:728-760 | components below 2^63 rule the overflow out, so acceptance and limit agree |
| Fees.CapBoundsGrowth | stake-pool/program/src/lib.rs:40-51 | one accepted change multiplies the fee, or the 1/1000 baseline if larger, by at most 3/2 |
| Pricing.DepositIsFloor | stake-pool/program/src/state.rs:160-170 | a deposit mints exactly its share of the supply rounded down, refused only where that leaves 64 bits, and one to one into a pool without lamports or tokens |
| Pricing.RedemptionIsCeiling | stake-pool/program/src/state.rs:174-186 | a redemption pays exactly the tokens' share of the total rounded up, nothing below one lamport's worth, refused only where it leaves 64 bits |
| Pricing.EpochFeeIsFloor | stake-pool/program/src/state.rs:239-255 | the epoch fee in tokens is exactly the dilution quotient rounded down, and the reward itself where there is none |
| Pricing.EpochFeeRefusedExactly | stake-pool/program/src/state.rs:239-255 | with a fee of at most 100% it is refused if and only if that quotient leaves 64 bits |
| Pricing.ReferralIsFloor | stake-pool/program/src/state.rs:205-236 | the referrer's part of a deposit fee is its percentage rounded down |
| Pricing.DepositKeepsRate | stake-pool/program/src/state.rs:160-170 | a deposit never lowers the value of a token |
| Pricing.RedemptionBounds | stake-pool/program/src/state.rs:174-186 | a redemption that pays pays at least the exact worth and less than one lamport more |
| Pricing.WithdrawalBoundsRate | stake-pool/program/src/state.rs:174-186 | a withdrawal never raises the rate and lowers it by less than one lamport over the remaining supply |
| Pricing.RedemptionWithinTotal | stake-pool/program/src/state.rs:174-186 | redeeming at most the whole supply never overflows and never pays more than the pool holds |
| Pricing.WholeSupplyRedeemsTotal | stake-pool/program/src/state.rs:174-186 | burning the whole supply pays exactly the total |
| Pricing.DepositThenRedeem | stake-pool/program/src/state.rs:1135-1152 | depositing and redeeming at once returns at most the deposit, if and only if it is not the first deposit into a pool that holds lamports without tokens |
| Pricing.DepositThenRedeemInParts | stake-pool/program/src/state.rs:160-186 | redeeming the tokens of a deposit in k parts returns at most the deposit and k - 1 lamports, under the same condition |
| Pricing.PartsProfit | stake-pool/program/src/state.rs:174-186 | the bound is reached: three lamports deposited come back as four in two parts |
| Pricing.EpochFeeShare | stake-pool/program/src/state.rs:239-255 | the manager's new tokens are worth at most the fee, as a share of the new total |
| Pricing.EpochFeeNeverOverpaid | stake-pool/program/src/state.rs:1092-1116 | they redeem for at most the fee in lamports, and the old holders keep the rest |
| Pricing.EpochFeeShortfall | stake-pool/program/src/state.rs:1117-1122 | with one token per lamport the manager loses at most 2 + reward / total to rounding |
| Pricing.EpochUpdateKeepsRate | stake-pool/program/src/processor.rs:1820-1864 | a pool update without loss never lowers the value of a token, whatever fee is minted and whatever holders burnt before |
| Records.DecodeEncode | stake-pool/program/src/state.rs:604-614 | packing a record and reading it back gives the record |
| Records.EncodeDecode | stake-pool/program/src/state.rs:604-614 | reading bytes and packing them again gives the bytes |
| Records.RawComparisonsAgree | stake-pool/program/src/state.rs:576-599 | each raw byte comparison decides vote address, active lamports, transient lamports or status |
| Records.RecordLayout | stake-pool/program/src/state.rs:535-564 | where every byte of a record is, numbers with the lowest byte first |
| Numbers.LittleEndianDigits | stake-pool/program/src/state.rs:604-614 | byte i of a packed number is its digit i to base 256 |
| BigVecs.SlotUnmoved | stake-pool/program/src/big_vec.rs:42-45 | the predicate of `retain` always sees the bytes of the original slot |
| BigVecs.MoveExtends | stake-pool/program/src/big_vec.rs:46-58 | one overlapping move puts the survivors since the last removal behind those already in place, inside the occupied region |
| BigVecs.RetainedIsFilter | stake-pool/program/src/big_vec.rs:34-84 | the whole sweep leaves exactly the slots that satisfy the predicate, in order, with the right length prefix, and no byte behind them changes |
| BigVecs.RetainedItems | stake-pool/program/src/processor.rs:1894-1896 | on records, the sweep drops exactly those ready for removal |
| BigVecs.AppendItem | stake-pool/program/src/big_vec.rs:110-126 | length plus packed record at the end is the sequence with that record appended |
| BigVecs.WriteInSlot | stake-pool/program/src/big_vec.rs:87-107 | writing inside one slot changes that record and no other |
| BigVecs.RepresentsItems | stake-pool/program/src/state.rs:604-614 | packed bytes and decoded sequence determine each other |
| BigVecs.BigVec.CloseGap | stake-pool/program/src/big_vec.rs:46-58 | the program's index arithmetic performs that move |
| BigVecs.BigVec.VisitSlot | stake-pool/program/src/big_vec.rs:42-63 | one turn of the loop reaches the next stage of the sweep |
| BigVecs.BigVec.Retain | stake-pool/program/src/big_vec.rs:34-84 | the loop in place leaves the filter of the original slots |
| BigVecs.BigVec.RetainNotRemoved | stake-pool/program/src/processor.rs:1894-1896 | the records left are the old ones without those ready for removal, and the bytes behind are untouched |
| BigVecs.BigVec.Push | stake-pool/program/src/big_vec.rs:110-126 | succeeds exactly when there is room and then appends; a failed push leaves the length one too high |
| BigVecs.BigVec.Find | stake-pool/program/src/big_vec.rs:151-165 | returns the first slot that satisfies the predicate, or none if none does |
| BigVecs.BigVec.DeserializeMutSlice | stake-pool/program/src/big_vec.rs:87-107 | cuts the bytes from the first record asked for to the last into views, each holding exactly the bytes of its slot, or fails if they run past the end |
| BigVecs.BigVec.MutRecords | stake-pool/program/src/processor.rs:1522-1528 | those views are the consecutive records the list update asked for |
| BigVecs.BigVec.Get | stake-pool/program/src/big_vec.rs:201-213 | reads the record of the sequence at that index |
| BigVecs.BigVec.WriteView | stake-pool/program/src/big_vec.rs:168-186 | assigning through a mutable view changes only the record behind it |
| BigVecs.BigVec.SetActiveStakeLamports | stake-pool/program/src/processor.rs:1746-1746 | changes one field of one record |
| BigVecs.BigVec.SetTransientStakeLamports | stake-pool/program/src/processor.rs:1747-1747 | changes one field of one record |
| BigVecs.BigVec.SetLastUpdateEpoch | stake-pool/program/src/processor.rs:1745-1745 | changes one field of one record |
| BigVecs.BigVec.SetTransientSeedSuffixStart | stake-pool/program/src/processor.rs:1223-1223 | changes one field of one record |
| BigVecs.BigVec.SetStatus | stake-pool/program/src/processor.rs:1062-1062 | changes one field of one record |
| PoolState.FindVote | stake-pool/program/src/state.rs:648-652 | the first record with the vote address, or none if no record has it |
| PoolState.StakeSumUpdate | stake-pool/program/src/processor.rs:1811-1818 | rewriting one record changes the total by that record's change |
| Outcomes.InitializeExactly | stake-pool/program/src/processor.rs:552-780 | exactly which pools can be created, and every field of a new one |
| Outcomes.AddExactly | stake-pool/program/src/processor.rs:786-913 | exactly when a validator can be added, and what its record and account hold |
| Outcomes.RemoveExactly | stake-pool/program/src/processor.rs:919-1070 | exactly when a validator can be removed, what status its record gets and which preferences are cleared |
| Outcomes.DecreaseExactly | stake-pool/program/src/processor.rs:1077-1226 | exactly when stake can be decreased; what is split off is deactivated in the current epoch, and record and account lose it |
| Outcomes.IncreaseExactly | stake-pool/program/src/processor.rs:1230-1412 | exactly when stake can be increased; what leaves the reserve is delegated from the current epoch on, all but the rent |
| Outcomes.SetPreferredExactly | stake-pool/program/src/processor.rs:1417-1475 | exactly when a preference can be set, and that it is the one named |
| Outcomes.CleanupExactly | stake-pool/program/src/processor.rs:1873-1899 | a cleanup keeps exactly the records not ready for removal, in order, and changes nothing else |
| Outcomes.SetFeeLands | stake-pool/program/src/state.rs:462-479 | which field each kind of fee lands in, and that no other changes |
| Outcomes.StaleIsRefused | stake-pool/program/src/processor.rs:825-827 | the instructions that need an updated pool refuse a stale one with that error |
| Refreshes.TransientLookExactly | stake-pool/program/src/processor.rs:1575-1683 | exactly what becomes of a transient account: counted, paid into the reserve or joined to the validator's, and where each lamport goes |
| Refreshes.ValidatorLookExactly | stake-pool/program/src/processor.rs:1685-1743 | exactly what a record shows of the validator's account |
| Refreshes.RefreshExactly | stake-pool/program/src/processor.rs:1537-1748 | a refreshed record shows what those two looks have seen, as of this epoch |
| Refreshes.MergeDestinations | stake-pool/program/src/processor.rs:1611-1683 | in every reachable state, deactivated stake ends in the reserve, activated stake in the validator's account with the surplus in the reserve, and anything else stays and is counted |
| Refreshes.MatchedRefreshed | stake-pool/program/src/processor.rs:1534-1748 | a list update makes of each record whose accounts match what refreshing it alone would |
| Refreshes.UpdateListRecords | stake-pool/program/src/processor.rs:1480-1751 | a list update refreshes exactly the records it was given the accounts of and touches nothing of the pool |
| StakeLifecycle.DecreaseEndsInReserve | stake-pool/program/src/processor.rs:1208-1216 | after the epoch of a decrease, a merging refresh sends all lamports of the split account to the reserve and leaves the validator's account alone |
| StakeLifecycle.IncreaseEndsInValidator | stake-pool/program/src/processor.rs:1640-1672 | after the epoch of an increase, a merging refresh makes its stake the validator's |
| TradeOutcomes.DepositSolExactly | stake-pool/program/src/processor.rs:2163-2297 | exactly when a SOL deposit is accepted, what it mints and where its lamports go |
| TradeOutcomes.DepositStakeExactly | stake-pool/program/src/processor.rs:1903-2159 | the same for a stake deposit, with its two-part fee, the preferred validator and the record |
| TradeOutcomes.SolDepositShares | stake-pool/program/src/processor.rs:2205-2241 | who gets the tokens of a SOL deposit: the depositor all but the fee, the referrer its percentage of the fee |
| TradeOutcomes.StakeDepositShares | stake-pool/program/src/processor.rs:2041-2094 | the same for a stake deposit: the stake fee on what the stake mints and the SOL fee on the rest |
| TradeOutcomes.WithdrawSolExactly | stake-pool/program/src/processor.rs:2542-2677 | exactly when a SOL withdrawal is accepted, what it charges by the SOL withdrawal fee, burns and pays |
| TradeOutcomes.WithdrawReserveExactly | stake-pool/program/src/processor.rs:2376-2409 | the same for stake taken from the reserve, by the stake withdrawal fee |
| TradeOutcomes.WithdrawAccountExactly | stake-pool/program/src/processor.rs:2410-2534 | the same for stake taken from a validator's or a transient account, with the order of sources and the minimum |
| TradeOutcomes.UpdatePoolExactly | stake-pool/program/src/processor.rs:1755-1869 | exactly when a pool update succeeds, what it books, what it mints to the manager and which fees it promotes |
| Steps.SplitDeposit | stake-pool/program/src/processor.rs:2205-2237 | a split that is made hands out exactly the tokens minted |
| Steps.Promote | stake-pool/program/src/processor.rs:1844-1860 | the first pool update of an epoch makes each pending fee the current one and leaves none pending, remembers the books it found and touches no deposit fee; a later one changes nothing |
| Steps.PriceWithdrawal | stake-pool/program/src/processor.rs:2359-2378 | a withdrawal has a price if and only if its fee leaves tokens that redeem for at least a lamport; burnt tokens and fee add up to the tokens given |
| Steps.DepositTarget | stake-pool/program/src/processor.rs:1960-1990 | a stake deposit goes to a delegated account whose record is active |
| Steps.WithdrawTarget | stake-pool/program/src/processor.rs:2411-2466 | active stake is used before transient stake, the address is the record's own and the minimum stays behind |
| ListInvariant.NextKeepsListInv | stake-pool/program/src/processor.rs:786-1473 | every step keeps votes distinct, the list within its size, preferred validators active and records no staler than the pool |
| ListInvariant.RefreshFromKeeps | stake-pool/program/src/processor.rs:1534-1748 | a list update keeps addresses and seeds and leaves each record alone or fresh |
| ListInvariant.RemoveKeepsListInv | stake-pool/program/src/processor.rs:1064-1069 | a removed validator is no longer preferred, every other preference stands |
| ListInvariant.CleanupKeepsListInv | stake-pool/program/src/processor.rs:1873-1899 | dropping records keeps order, distinctness and preferences |
| ListInvariant.FreshTotalIsSum | stake-pool/program/src/processor.rs:1811-1818 | the loop succeeds only on fresh records and then adds every one's stake |
| FeeInvariant.NextKeepsFeesInv | stake-pool/program/src/processor.rs:2716-2741 | every current and pending fee stays at most 100% and both referral shares at most 100 |
| FeeInvariant.SetFeeAcceptsExactly | stake-pool/program/src/processor.rs:2716-2741 | a fee can be set if and only if it is at most 100%, the pool is current where it would wait for the next epoch, and for withdrawal fees the proposal's side overflows or the limit holds without overflow |
| FeeInvariant.SplitIsExact | stake-pool/program/src/processor.rs:2045-2083 | the three shares add up to the tokens minted and the run-time check never fires |
| FeeInvariant.DepositSolNeverMiscalculates | stake-pool/program/src/processor.rs:2205-2241 | a SOL deposit that can be priced fails only when the fee takes all of it |
| FeeInvariant.DepositStakeNeverMiscalculates | stake-pool/program/src/processor.rs:2041-2094 | the same for a stake deposit with its two fees |
| FeeInvariant.NextKeepsPendingCapped | stake-pool/program/src/state.rs:462-479 | a pending withdrawal fee was checked against the fee it will replace |
| FeeInvariant.WithdrawalFeeGrowth | stake-pool/program/src/processor.rs:1844-1860 | after k promotions each withdrawal fee is at most max(initial, 1/1000) times (3/2)^k |
| FeeInvariant.SmallFeesOverRuns | stake-pool/program/src/state.rs:728-760 | if the fees at the start and every fee proposed have components below 2^63, no comparison of the run overflows |
| FeeInvariant.SmallFeesGrowth | stake-pool/program/src/processor.rs:1844-1860 | so the bound on growth holds under a condition that can be read off the calls |
| Runs.PromotionsWithinEpochs | stake-pool/program/src/processor.rs:1844-1860 | a run promotes at most once per epoch that passes |
| Runs.FeeGrowthFromCreation | stake-pool/program/src/processor.rs:1844-1860 | from creation on, fees with components below 2^63 grow by at most 3/2 for every epoch that has passed |
| SupplyInvariant.StepDrift | stake-pool/program/src/processor.rs:2140-2143 | a pool update brings recorded supply and mint together, a holder's burn takes them apart by the tokens burnt, and no other step changes the distance |
| SupplyInvariant.DriftOverRuns | stake-pool/program/src/processor.rs:733-759 | over every run the recorded supply exceeds the mint's by exactly what holders burnt since the last pool update |
| SupplyInvariant.SupplyAgreesExactly | stake-pool/program/src/state.rs:92-93 | in every run from creation the two agree if and only if nothing was burnt since the last pool update |
| SupplyInvariant.BurningLosesAgreement | stake-pool/program/src/state.rs:92-93 | in every pool with tokens, burning one makes them differ by one |
| SupplyInvariant.UpdatePoolRestoresSupply | stake-pool/program/src/processor.rs:1862-1864 | after a pool update they are equal |
| SupplyInvariant.UpdatePoolIdempotent | stake-pool/program/src/processor.rs:1755-1869 | a second pool update mints nothing and changes nothing |
| SupplyInvariant.EmptiedPool | stake-pool/program/src/state.rs:160-163 | burning every token and updating the pool leaves a pool that holds lamports without tokens |
| Solvency.OneValidatorStep | stake-pool/program/src/processor.rs:1062-1070 | a step on one validator keeps every record covered and the pool solvent if its own record and accounts balance |
| SolvencySteps.AddSolvent | stake-pool/program/src/processor.rs:847-912 | adding a validator keeps the pool solvent |
| SolvencySteps.RemoveSolvent | stake-pool/program/src/processor.rs:919-1058 | removing a validator loses no recorded stake |
| SolvencySteps.NoHiddenTransient | stake-pool/program/src/processor.rs:1141-1149 | without lamports sent ahead, a record that shows no transient stake has no transient account |
| SolvencySteps.DecreaseSolvent | stake-pool/program/src/processor.rs:1077-1225 | a decrease moves recorded stake from active to transient |
| SolvencySteps.IncreaseSolvent | stake-pool/program/src/processor.rs:1230-1412 | an increase moves reserve lamports to recorded transient stake |
| SolvencySteps.DepositStakeSolvent | stake-pool/program/src/processor.rs:2029-2157 | a stake deposit adds to books and holdings alike |
| SolvencySteps.DepositSolSolvent | stake-pool/program/src/processor.rs:2163-2297 | so does a SOL deposit |
| SolvencySteps.WithdrawActiveSolvent | stake-pool/program/src/processor.rs:2472-2534 | a withdrawal from active stake takes from books and record alike |
| SolvencySteps.WithdrawTransientSolvent | stake-pool/program/src/processor.rs:2472-2534 | so does one from transient stake |
| SolvencySteps.WithdrawSolSolvent | stake-pool/program/src/processor.rs:2612-2676 | so does one in SOL, and the reserve keeps its minimum |
| SolvencySteps.ReserveWithdrawalKeepsMinimum | stake-pool/program/src/processor.rs:2387-2409 | taking stake from the reserve leaves it its minimum although nothing compares the balance it leaves |
| SolvencySteps.ReserveWithdrawalAlwaysFunded | stake-pool/program/src/processor.rs:2387-2409 | once priced, such a withdrawal always has the lamports it needs |
| SolvencySteps.TransientLookValue | stake-pool/program/src/processor.rs:1575-1683 | merging or counting a transient account accounts for all its rent and stake |
| SolvencySteps.RefreshRecordValue | stake-pool/program/src/processor.rs:1534-1748 | refreshing a covered record never lowers reserve plus record |
| SolvencySteps.RefreshFromSolvent | stake-pool/program/src/processor.rs:1534-1748 | a list update keeps the pool solvent, at any time in the epoch |
| SolvencySteps.UpdatePoolSolvent | stake-pool/program/src/processor.rs:1801-1861 | a pool update makes the books exact and, without losses, never lowers the total |
| SolvencySteps.CleanupSolvent | stake-pool/program/src/processor.rs:1873-1899 | the records dropped held nothing |
| SolvencySteps.NextKeepsLedgerInv | stake-pool/program/src/processor.rs:919-2677 | every admitted step keeps records covered and the pool solvent |
| Removal.DeactivatingDeparts | stake-pool/program/src/processor.rs:1007-1038 | a record that is deactivating always has its transient account, and departs as soon as the epoch is over |
| Removal.RefreshDeparting | stake-pool/program/src/processor.rs:1612-1638 | refreshing a departing record sends every lamport of its account to the reserve and makes it removable |
| Removal.RemovalCompletes | stake-pool/program/src/processor.rs:1873-1899 | a merging list update that covers a departing record, then a cleanup, takes the validator off the list |
| Holdings.ListUpdateConserves | stake-pool/program/src/processor.rs:1534-1748 | a list update creates and destroys no lamports, on any branch |
| Holdings.RecordedWithinHeld | stake-pool/program/src/processor.rs:1811-1818 | distinct records are backed by distinct accounts, so recorded stake is really held |
| Holdings.BooksAreBacked | stake-pool/program/src/processor.rs:1801-1818 | what the pool owes, the reserve's minimum and every active validator's minimum lie in accounts it controls |
| Runs.ListOverRuns | stake-pool/program/src/processor.rs:836-845 | the list stays well formed in every run |
| Runs.FeesOverRuns | stake-pool/program/src/processor.rs:627-633 | fees stay within bounds in every run |
| Runs.SolventOverRuns | stake-pool/program/src/processor.rs:919-2677 | in every run from creation, a current pool owes at most what it holds above its minimum, exactly that if nobody donates, and the lamports are really there; without losses this holds at all times |
| Runs.CurrentPoolsAreFresh | stake-pool/program/src/processor.rs:825-827 | whatever passes the staleness test sees only records refreshed this epoch |
| Runs.ReserveKeepsMinimum | stake-pool/program/src/processor.rs:2387-2409 | in every run, taking stake from the reserve leaves it its minimum |
| HiddenTransient.HiddenTransientBreaksSolvency | stake-pool/program/src/processor.rs:1007-1038 | a run from creation that ends with a current pool owing more than it holds |
| HiddenTransient.HiddenRemovalBreaksSolvency | stake-pool/program/src/processor.rs:1007-1038 | after every removal that hides a transient account, steps anybody may take lead to a current pool that owes more than it has, by exactly what was hidden |
| HiddenTransient.RemovalSafeExactly | stake-pool/program/src/processor.rs:1007-1038 | no continuation of a removal leaves a current pool owing more than it has, if and only if the record does not hide a transient account |
| ExchangeRate.StepRate | stake-pool/program/src/processor.rs:2140-2149 | short of a pool update that books a loss, only a withdrawal can lower the value of a token, by less than one lamport over the remaining supply |
| ExchangeRate.UpdatePoolKeepsRate | stake-pool/program/src/processor.rs:1820-1864 | a pool update that books no loss does not lower it, whatever fee is minted and whatever holders burnt |
| ExchangeRate.RateOverRuns | stake-pool/program/src/processor.rs:2511-2518 | k withdrawals that go through, in a run that books no loss and whose supply stays at least M, lower the value of a token by at most k/M, and nothing else lowers it |
| ExchangeRate.LossFreeRunsBookNoLoss | stake-pool/program/src/processor.rs:1801-1818 | where no stake account loses stake, no pool update of the run books a loss |
| ExchangeRate.RateFromCreation | stake-pool/program/src/processor.rs:733-778 | from creation on, at one token per lamport, k withdrawals that go through leave a token of such a run worth at least 1 - k/M lamports |
| MergeNeutral.RecordNeutral | stake-pool/program/src/processor.rs:1575-1683 | merging one transient account changes reserve plus record only by its surplus lamports |
| MergeNeutral.MergingIsValueNeutral | stake-pool/program/src/processor.rs:1534-1748 | refreshing active records with and without merging gives pools that differ by exactly that surplus |
| MergeNeutral.MergedTotals | stake-pool/program/src/processor.rs:1801-1818 | and so do the totals the pool updates then write |
| Processors.Processor.FindIndex | stake-pool/program/src/state.rs:576-582 | the byte search finds the first record with the vote address |
| Processors.Processor.HasActive | stake-pool/program/src/processor.rs:2380-2385 | the byte scan finds something if and only if some record has active stake |
| Processors.Processor.HasTransient | stake-pool/program/src/processor.rs:2389-2394 | the byte scan finds something if and only if some record has transient stake |
| Processors.Processor.AddValidator | stake-pool/program/src/processor.rs:786-913 | refines the state function over the byte store; the push it makes always has room |
| Processors.Processor.RemoveValidator | stake-pool/program/src/processor.rs:919-1058 | refines the state function |
| Processors.Processor.DecreaseValidatorStake | stake-pool/program/src/processor.rs:1077-1225 | refines the state function |
| Processors.Processor.CheckedSplit | stake-pool/program/src/processor.rs:1168-1193 | the checks in the program's order report the state function's error |
| Processors.Processor.IncreaseValidatorStake | stake-pool/program/src/processor.rs:1230-1412 | refines the state function |
| Processors.Processor.SetPreferredValidator | stake-pool/program/src/processor.rs:1417-1475 | refines the state function |
| Processors.Processor.RefreshTransient | stake-pool/program/src/processor.rs:1575-1683 | every branch of merging or counting a transient account |
| Processors.Processor.RefreshSlot | stake-pool/program/src/processor.rs:1537-1748 | one turn of the loop rewrites one record and its accounts |
| Processors.Processor.UpdateValidatorList | stake-pool/program/src/processor.rs:1480-1751 | the loop over record and account pairs refines the state function |
| Processors.Processor.TotalLamports | stake-pool/program/src/processor.rs:1801-1818 | the loop over the iterator computes the fresh total or reports why there is none |
| Processors.Processor.PromoteFees | stake-pool/program/src/processor.rs:1844-1860 | pending fees take effect |
| Processors.Processor.UpdateStakePool | stake-pool/program/src/processor.rs:1755-1869 | refines the state function |
| Processors.Processor.CleanupRemoved | stake-pool/program/src/processor.rs:1873-1899 | the in-place sweep refines dropping the records from the sequence |
| Processors.Processor.DepositSol | stake-pool/program/src/processor.rs:2163-2297 | refines the state function |
| Processors.Processor.DepositStake | stake-pool/program/src/processor.rs:1903-2159 | refines the state function |
| Processors.Processor.WithdrawSol | stake-pool/program/src/processor.rs:2542-2677 | refines the state function |
| Processors.Processor.WithdrawFromReserve | stake-pool/program/src/processor.rs:2387-2409 | refines the state function, with both scans over bytes |
| Processors.Processor.WithdrawFromAccount | stake-pool/program/src/processor.rs:2410-2534 | refines the state function |
| Processors.Processor.WithdrawStake | stake-pool/program/src/processor.rs:2302-2537 | refines the state function |
| Processors.Processor.SetFee | stake-pool/program/src/processor.rs:2716-2741 | refines the state function |
| Processors.Processor.Execute | stake-pool/program/src/processor.rs:2802-2920 | one transaction reaches the next state of the run; a failed one restores every byte of the list |
| Processors.Replay | stake-pool/program/src/processor.rs:2802-2920 | any sequence of instructions, epochs, donations and burns over the bytes ends in the state the run of state functions ends in |
| Processors.RoomForAllValidators | stake-pool/program/src/state.rs:629-632 | the number of records the header allows is the largest number that fits the bytes of the list |
| Processors.Initialize | stake-pool/program/src/processor.rs:552-780 | creates a pool in the initial state over an empty list, or reports the state function's error |
| ByteRuns.RunPool | stake-pool/program/src/processor.rs:2802-2920 | a pool created over bytes and run through anything has a well-formed list, bounded and slowly growing fees, a supply not below the mint's, and in the steps a mode admits is solvent with tokens that keep their value |
| BatchRefresh.UpdateStakePoolInstructions | stake-pool/program/src/instruction.rs:835-886 | builds the list updates in chunks of five with each record's own accounts, then a pool update and a cleanup |
| BatchRefresh.PairsLineUp | stake-pool/program/src/instruction.rs:750-773 | looking each vote address up again yields the pair of the record it came from |
| BatchRefresh.BatchCoversOnce | stake-pool/program/src/instruction.rs:854-868 | every index is covered by exactly one instruction and none reaches past the list |
| BatchRefresh.RefreshFromFreshens | stake-pool/program/src/processor.rs:1534-1562 | matching pairs refresh exactly their records |
| BatchRefresh.OrderFreshens | stake-pool/program/src/instruction.rs:835-868 | in any order, what has run has refreshed its records and nothing grows stale |
| BatchRefresh.BatchMakesPoolUpdatable | stake-pool/program/src/instruction.rs:835-886 | once all have run, in any order, the pool update never reports a stale list |
| BatchRefresh.NoMergeBatchSucceeds | stake-pool/program/src/instruction.rs:835-868 | where no stake was lost, a batch without merging always succeeds, in any order |
| BatchRefresh.MergeRefreshesExactly | stake-pool/program/src/processor.rs:1611-1683 | where no stake was lost, a merging refresh succeeds if and only if the balances fit and the transient stake is not being deactivated in this epoch while both stakes are due to be merged |
| BatchRefresh.NoneDeactivatedYet | stake-pool/program/src/processor.rs:1193-1216 | when an epoch begins, no transient stake has been deactivated in it |
| BatchRefresh.BatchSucceeds | stake-pool/program/src/instruction.rs:835-868 | where no stake was lost, none was deactivated in this epoch and all lamports fit 64 bits, a batch always succeeds, merging or not, in any order |
| BatchRefresh.EpochUpdateCompletes | stake-pool/program/src/instruction.rs:835-886 | the whole epoch update is never stopped by a stale record and leaves a current pool with exact books and no validator waiting to be removed |
| WithdrawPlanner.PrepareWithdrawAccounts | stake-pool/cli/src/main.rs:1214-1327 | a plan asks for exactly the tokens requested, draws on distinct accounts within what each offers, uses up the eligible ones before the last and stops as soon as it can; it is refused only if all offer too little, and panics only on a fee above 100% or a listing it comes to and cannot price |
| WithdrawPlanner.GrossUpUndoesFee | stake-pool/cli/src/main.rs:1294-1303 | grossing tokens up undoes the fee exactly: after the fee they are left, and no larger amount leaves as little |
| WithdrawPlanner.AvailableExactly | stake-pool/cli/src/main.rs:1294-1303 | a listing offers exactly the tokens that are worth its lamports after the fee |
| WithdrawPlanner.BurntWithinListing | stake-pool/cli/src/main.rs:1281-1303 | undoing the fee never leaves more tokens to burn than the listed lamports are worth |
| WithdrawPlanner.SettleIsTheProgram | stake-pool/program/src/processor.rs:2359-2374 | the program takes a withdrawal off the books and out of the account as the plan is settled here |
| WithdrawPlanner.RunNoDearer | stake-pool/program/src/processor.rs:2511-2518 | while the program runs a plan, tokens never become dearer |
| WithdrawPlanner.PlanNeverOverdraws | stake-pool/cli/src/main.rs:1288-1317 | when the program runs a plan in order, no withdrawal takes more lamports out of its account than were listed for it |
| WithdrawPlanner.PlanWithinListings | stake-pool/cli/src/main.rs:1288-1317 | over the whole plan no account loses more than was listed for it |
| WithdrawPlanner.PlanLeavesOthers | stake-pool/program/src/processor.rs:2472-2534 | an account the plan does not draw on loses nothing |
| PlanAcceptance.AcceptedExactly | stake-pool/program/src/processor.rs:2376-2470 | a withdrawal within what the client lists is accepted if and only if its turn has come: active stake, preferred first, then transient stake, then the reserve |
| PlanAcceptance.PlanAcceptedExactly | stake-pool/cli/src/main.rs:1288-1317 | the program accepts an entry of a plan if and only if its tokens redeem for something and its source's turn has come |
| PlanOutcome.PaperAgrees | stake-pool/cli/src/main.rs:1288-1317 | as long as its entries are accepted, the program's books and records are those a settlement on paper predicts |
| PlanOutcome.WholePlanExactly | stake-pool/cli/src/main.rs:1288-1317 | told from the starting state and the plan alone: the whole plan goes through if and only if every entry, settled on paper, redeems for something and comes in turn |
| PlanAcceptance.PassedOverBlocks | stake-pool/cli/src/main.rs:1290-1292 | once the planner has passed over a little active stake, every entry on a transient account or the reserve is refused |
| PlanAcceptance.RefusedPlan | stake-pool/cli/src/main.rs:1290-1292 | a pool reachable from creation and a plan made for it that the program refuses |
| LendingCodec.Pack | token-lending/program/src/instruction.rs:457-547 | appending tag and fields builds the encoding |
| LendingCodec.PackedLayout | token-lending/program/src/instruction.rs:457-547 | the wire format byte by byte: tag, field order, lengths and byte order of all 14 instructions |
| LendingCodec.UnpackPacked | token-lending/program/src/instruction.rs:315-402 | decoding an encoded instruction followed by anything gives it back and leaves the rest |
| LendingCodec.PackedUnpack | token-lending/program/src/instruction.rs:315-454 | whatever decodes starts with the encoding of what it decodes to |
| LendingCodec.DecodesExactly | token-lending/program/src/instruction.rs:315-454 | bytes decode if and only if they start with the encoding of some instruction |
| LendingCodec.PrefixFree | token-lending/program/src/instruction.rs:457-547 | no encoding starts with another, so the encoding is injective |

## Left out

- Ownership, signer and address-derivation checks, and the instructions that only assign an authority: one branch each.
- The inside of the stake, token and system programs, including their rules on warm-up and cool-down; where a
  merge would be refused for being too early, the step is one of the failed ones.
- A validator account destaked by a cluster restart: the branch is modelled, the environment never produces such an account.
- The 5-byte header in front of the validator list, rent checks on the pool's own accounts and the lockup fields.
- The unsafe pointer casts of the byte store; records are decoded and encoded instead.
- The account list the planner starts from is any list; its sorting and the RPC calls behind it are not part of this model.
- RemovalSafeExactly: assumes that the rent of a stake account is not zero and that what the pool would book, hidden
  account included, fits 64 bits; where donations are ruled out, also that the reserve is not below its minimum.
- PrepareWithdrawAccounts: an overflowing product in the fee inversion ends the plan; a build without overflow checks would wrap instead.
- UpdateStakePoolInstructions: lists of 2^32 - 5 records or more, whose last index would overflow, are excluded.
- BatchMakesPoolUpdatable: assumes the list updates succeed, which the lemmas beside it establish where no stake was
  lost; no cleanup runs between them.
- The rest of the lending program, the governance program, the token program, the language bindings and the web application.
