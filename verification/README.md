# GrindURUS on Solana: a verified model of the GRAI and GRS programs

This project models the two protocol programs of the repository and proves what they keep over whole runs.
`dafny verify dfyconfig.toml` checks all of it.

**The GRAI fund-share ledger** (`programs/grai`). One state of shares, locks, votes, the lockers' and voters'
registries and, per listed asset, a dividend index, a claim reserve, two vaults, everybody's balance and
everybody's position. `Tokenomics.dfy` and `MintPremium.dfy` hold the price and split calculations, `Ledger.dfy`
what each instruction does as a function of the state, `AssetInvariant.dfy` and `LedgerInvariant.dfy` what each of
them keeps, `LedgerEffects.dfy` who gains and loses what by it, `LedgerRuns.dfy` runs of any instructions by anyone,
and `LedgerTheorems.dfy`, `DividendTheorems.dfy` and `DividendAccuracy.dfy` the promises over runs. `EmptyBook.dfy`
says what becomes of a book that has lost its last share, and `LedgerExamples.dfy` gives literal runs.
`GraiProgram.dfy` is the program in its own, updating form: a class whose methods change its fields step by step and
are proved to take exactly the steps of `Ledger.dfy`.

**The sticky referral forest** (`programs/grai/src/treasury.rs`). `ReferralWalk.dfy` has the two-speed cycle
detection and what its answers mean, `Referrals.dfy` binding, crediting and poaching, `ReferralInvariant.dfy` and
`ReferralRuns.dfy` the forest and the cached aggregates over runs, `ReferralProgram.dfy` the updating form.
`GraiWorld.dfy` runs ledger and books together: deposits and claims write both, a poach pays in GRAI.

**The GRS home and spoke protocol** (`programs/grs`). `SalePricing.dfy` prices partial fills, `RateLimiter.dfy` is
the token bucket, `MsgCodec.dfy` the wire format byte by byte, `GrsChain.dfy`, `GrsInvariant.dfy` and
`GrsEffects.dfy` one chain, `GrsWorld.dfy` a home chain, any number of spokes and the messages between them
(delivered in any order, at most once), `GrsRuns.dfy` and `GrsTheorems.dfy` the promises over runs,
`GrsWindows.dfy` what limiter and lot promise inside those runs, `GrsProgram.dfy` the updating form.

A failed instruction changes nothing, as the runtime rolls it back; each class has an `Execute` method that does so,
and the GRS class also `ExecutePublish`, `ExecuteSend` and `ExecuteReceive` for the instructions that meet messages.
Amounts are unbounded naturals with the `u64` and `u128` limits as error branches. Some values carry history
that no instruction reads: `resizes`, `forfeited`, `issued` and `withdrawn` in the ledger, `missed` and `booked` for
the referral books, `retired` for GRS. The clock, the oracle's price and decimals, whether an affiliate level or
the beneficiar can be paid, and which book accounts are supplied are inputs of the instructions. `Program.Execute`
needs a mint premium rate of at most 100 %, which every valid configuration has. Refusals by the runtime, the token
program or the account framework (an overdrawn balance, an account that does not exist) appear as errors of the
instruction.

## What the code does that its documentation does not say

- Dividends are indexed over all locked GRAI, voted or not (`programs/grai/src/distribute.rs:32`).
- The unlock penalty goes to the Grinders (`programs/grai/src/unlock.rs:87`), and the least unlock size applies to
  full exits too (`programs/grai/src/tokenomics.rs:157-159`).
- A deposit whose referrer chain is not fully supplied is refused; only a chain that leads back makes the locker
  its own referrer (`programs/grai/src/treasury.rs:122-130`).

## What turned out to be limited

- The reserve is booked with one floor over everybody and claims are owed floor by floor. Claims exceed it by at
  most one unit per lock change, and the excess is real: `ReserveCanFallShort` owes four units against three.
- A binding deposit carries up the locker's `l1_value` but not the value it booked itself before, by an earlier
  claim. `l1_value` is the value of the children after a run exactly if no deposit bound such a locker to another
  wallet (`ExactIffBindsClean`); otherwise a seat can become impossible to poach (`PoachDebits` says exactly when).
- If all shares are burned outside the program while the book has value, deposits are refused
  (`BurnAllOrphansTheBook` is such a run). With no liquidation open that is for good: locks, votes and redemptions
  are impossible too, so no liquidation can be opened (`OrphanRun`). With one open, `revive` clears the book and
  deposits start again at par (`ReviveClearsBook`, `BurnDuringLiquidationClears`). `DepositsReturnIff` is the exact
  condition.
- The rate limiter's plain bound, capacity plus refill, needs a clock that does not go back. For any clock the bound
  grows by the refill of what the clock went back (`WindowBound`, `OutboundWindow`), and that is attained
  (`BoundNeedsForwardClock`).
- The price asked per remaining unit of GRS never falls, but rounding can let a later buyer of another amount pay
  less per unit (`PaidPriceCanFall`), by less than one unit of the quote asset in all
  (`PaidPriceFallsOnlyByRounding`); `PaidPriceFallsIff` and `NextPriceFallsIff` say exactly when.

## Model

| member | source | states |
|---|---|---|
| Tokenomics.SplitCutsFavourTreasury | programs/grai/src/tokenomics.rs:135-141 | treasury + dividend = amount, and the floor falls on the dividend: dividend × treasury cut ≤ treasury × dividend cut |
| Tokenomics.UnlockPenalty | programs/grai/src/tokenomics.rs:147-173 | an unlock is accepted iff amount × penalty bps reaches one whole unit (full exits included); then the penalty is the least that is no less than the share, and at most twice it |
| Tokenomics.AskAroundBook | programs/grai/src/tokenomics.rs:368-404 | ask + discount = book + premium exactly; no discount below half quorum, no premium above, and the discount is at most half the book |
| Tokenomics.AskNonIncreasing | programs/grai/src/tokenomics.rs:368-404 | with the book fixed the ask never rises with the vote share, within and across the two regimes |
| Tokenomics.PreviewBribeNonIncreasing | programs/grai/src/tokenomics.rs:341-405 | the same for the whole quote, in the votes cast |
| Tokenomics.VoterCut | programs/grai/src/bribe.rs:160-213 | the voter keeps book plus the larger half of a premium; in a discount regime the fully discounted ask or one unit more; the cut pool never exceeds the ask |
| Tokenomics.ShareBounds | programs/grai/src/tokenomics.rs:414-428 | a redemption share never exceeds the vault, leaves the rest no worse off per share, and is all of it for the whole supply |
| Tokenomics.SplitRedeem | programs/grai/src/tokenomics.rs:414-428 | two redemptions in a row pay at most one joint redemption, and at most one unit less |
| Tokenomics.DepositKeepsPrice | programs/grai/src/tokenomics.rs:255-268 | issuing at most the book shares never lowers book value per share |
| Tokenomics.RedeemKeepsPrice | programs/grai/src/tokenomics.rs:431-439 | redeeming never lowers book value per share, never empties the book while shares remain, and empties it for the whole supply |
| Tokenomics.DepositThenRedeem | programs/grai/src/tokenomics.rs:431-439 | redeeming what a deposit minted never takes out more book value than was deposited |
| MintPremium.ApplyMintPremium | programs/grai/src/tokenomics.rs:272-302 | the yearly loop, proved equal to the compounding function; for every valid rate no u128 step of it overflows |
| MintPremium.Minted | programs/grai/src/tokenomics.rs:272-302 | shares minted under the premium never exceed the book shares |
| MintPremium.MintedNonIncreasing | programs/grai/src/tokenomics.rs:272-302 | a later deposit of the same book amount never mints more |
| MintPremium.PriceNearCompound | programs/grai/src/tokenomics.rs:289-299 | the rounded price is at most exact compounding and short of it by less than the sum of the growth factors |
| AssetInvariant.DistributeFacts | programs/grai/src/dividend.rs:16-63 | the index grows by the floor per locked unit, the reserve by the growth of one floor over everybody, and reserve + dust = amount |
| AssetInvariant.ReservedAtMost | programs/grai/src/dividend.rs:43-63 | the reserve for an accrual never exceeds it, so the saturating subtraction of the dust is exact |
| AssetInvariant.SettleFacts | programs/grai/src/dividend.rs:69-93 | a checkpoint credits exactly the growth since the last one; the position that did not exist starts from an empty lock |
| AssetInvariant.SettleKeeps | programs/grai/src/dividend.rs:69-93 | a checkpoint with a lock change keeps the asset invariant; the gap between reserve and claims moves by at most one unit |
| AssetInvariant.ShareOutKeeps | programs/grai/src/distribute.rs:29-52 | sharing out a pool keeps checkpoints, the bounded gap, treasury cover and the backed reserve |
| AssetInvariant.DistributeKeeps | programs/grai/src/distribute.rs:12-76 | a distribution keeps the asset invariant and leaves vault − reserve unchanged |
| AssetInvariant.PayBribeKeeps | programs/grai/src/bribe.rs:144-213 | a bribe payment keeps the asset invariant and leaves vault − reserve unchanged |
| AssetInvariant.ClaimKeeps | programs/grai/src/claim.rs:26-130 | a claim keeps the asset invariant and leaves vault − reserve, hence every redemption payout, unchanged |
| AssetInvariant.ClaimIsFunded | programs/grai/src/treasury.rs:1039-1051 | whatever part of the reserve is claimed, the treasury holds its gross share |
| AssetInvariant.PayLevelsFacts | programs/grai/src/treasury.rs:1053-1122 | the affiliate walk pays and keeps back at most the shares it passes, out of the treasury and into wallets only |
| AssetInvariant.TreasuryPayoutSucceeds | programs/grai/src/treasury.rs:1124-1145 | none of the payout subtractions underflows when the treasury holds the gross share |
| AssetInvariant.PayShareKeeps | programs/grai/src/redeem.rs:223-254 | a redemption payout takes from the unreserved part only |
| AssetInvariant.SweepKeeps | programs/grai/src/revive.rs:83-99 | the sweep takes the unreserved part only, after which nothing is redeemable |
| LedgerInvariant.RemoveFacts | programs/grai/src/state.rs:136-145 | swap-remove takes out exactly the key and keeps the list free of duplicates |
| LedgerInvariant.ShrinkLockFacts | programs/grai/src/unlock.rs:63-100 | shrinking a lock keeps totals, the vote clamp and both registries exact, even when a row leaves both |
| LedgerInvariant.PerformLockKeeps | programs/grai/src/state.rs:173-250 | locking keeps the ledger invariant |
| LedgerInvariant.VoteKeeps | programs/grai/src/vote.rs:9-77 | voting, with its automatic lock of the shortfall, keeps the ledger invariant |
| LedgerInvariant.UnlockKeeps | programs/grai/src/unlock.rs:14-111 | unlocking keeps the ledger invariant |
| LedgerInvariant.BribeKeeps | programs/grai/src/bribe.rs:52-225 | a bribe keeps the ledger invariant |
| LedgerInvariant.DistributeStepKeeps | programs/grai/src/distribute.rs:12-76 | a distribution keeps the ledger invariant |
| LedgerInvariant.ClaimStepKeeps | programs/grai/src/claim.rs:26-130 | a claim keeps the ledger invariant |
| LedgerInvariant.DepositKeeps | programs/grai/src/deposit.rs:11-150 | a deposit, with or without lock, keeps the ledger invariant; shares always have a book value |
| LedgerInvariant.LiquidateKeeps | programs/grai/src/redeem.rs:45-96 | opening the liquidation keeps the invariant, and the GRAI vault then holds exactly the locked total |
| LedgerInvariant.RedeemKeeps | programs/grai/src/redeem.rs:99-258 | a redemption keeps the ledger invariant |
| LedgerInvariant.ReviveKeeps | programs/grai/src/revive.rs:25-146 | closing the liquidation keeps the invariant and leaves every vault at its reserve |
| LedgerInvariant.SetConfigKeeps | programs/grai/src/config.rs:98-113 | a new configuration cannot change the cuts, so treasury cover survives it |
| LedgerRuns.ExecKeeps | programs/grai/src/lib.rs:1735-1822 | every instruction, accepted or refused, keeps the invariant |
| LedgerRuns.AlwaysInv | programs/grai/src/config.rs:18-61 | from initialize on, in every run: totals are the sums of the escrows, lockers and voters are listed once each, the GRAI vault covers the locks, every reserve is backed and covered by the treasury |
| LedgerRuns.NeverInsolvent | programs/grai/src/deposit.rs:31-42 | no deposit is ever refused for an insolvent book |
| EmptyBook.OrphanRun | programs/grai/src/tokenomics.rs:255-268 | a book with value but without shares keeps both over every run, and every deposit is refused, when no liquidation is open that can be closed |
| EmptyBook.ReviveClearsBook | programs/grai/src/revive.rs:103-106 | closing the liquidation at zero supply clears the book, and a deposit then succeeds iff its value is a u64 and mints a share at par under the premium |
| EmptyBook.DepositsReturnIff | programs/grai/src/revive.rs:25-146 | with value but no share, some run leads to an accepted deposit iff a liquidation is open whose opening time is not zero |
| LedgerExamples.BurnAllOrphansTheBook | programs/grai/src/tokenomics.rs:255-268 | a literal run from initialize, one deposit and one burn, after which the book has value 10, no share and no way back |
| LedgerExamples.BurnDuringLiquidationClears | programs/grai/src/revive.rs:103-106 | a literal run that reaches value without shares while a liquidation is open, from where deposits return |
| LedgerTheorems.PriceNeverFalls | programs/grai/src/deposit.rs:31-42 | over any run in which shares stay outstanding, book value per share never falls |
| LedgerTheorems.ReserveBacked | programs/grai/src/claim.rs:61-64 | every reserve lies in its vault |
| LedgerTheorems.BasketStep | programs/grai/src/redeem.rs:114-133 | while the liquidation is open nothing but revive lowers any basket per share |
| LedgerTheorems.BasketNeverFalls | programs/grai/src/redeem.rs:223-254 | over any such run the basket of every asset per share never falls |
| LedgerTheorems.LaterRedeemPaysNoLess | programs/grai/src/redeem.rs:223-254 | a later redemption pays at least what the same amount was worth at the start |
| LedgerTheorems.LastRedeemLeavesReserve | programs/grai/src/redeem.rs:114-133 | burning the whole supply leaves every vault at exactly its claim reserve and the book at zero |
| LedgerTheorems.ClaimAlwaysPays | programs/grai/src/claim.rs:61-64 | in a reachable state the vault never caps a claim, the treasury always has its share and no payout step fails; only the reserve can cap |
| LedgerEffects.LockDoes | programs/grai/src/lock.rs:6-45 | locking moves exactly the amount from the wallet into the lock; nobody else, and neither supply nor book value, changes |
| LedgerEffects.VoteDoes | programs/grai/src/vote.rs:9-77 | a vote grows by exactly the amount, and the wallet is locked for exactly what the vote exceeds the lock by |
| LedgerEffects.UnlockDoes | programs/grai/src/unlock.rs:14-111 | holder and Grinders, possibly one account, get the quoted split of exactly the amount; lock, vote and vault follow; nobody else changes |
| LedgerEffects.BribeMovesVotes | programs/grai/src/bribe.rs:110-158 | the bought votes leave the voter’s lock for the briber’s wallet; nobody else changes |
| LedgerEffects.BribePays | programs/grai/src/bribe.rs:144-213 | the briber pays the ask, the voter gets it less the cut pool, the pool goes to the two vaults; who bribes itself pays the pool; nobody else changes |
| LedgerEffects.DistributeDoes | programs/grai/src/distribute.rs:12-76 | the custodian’s amount goes to the two vaults; nothing else changes |
| LedgerEffects.ClaimDoes | programs/grai/src/claim.rs:26-130 | what leaves the vault leaves the reserve and is recorded as withdrawn; everybody’s balance changes by exactly what is due: amount less tip, tip, the affiliate walk and the beneficiar’s rest of the gross |
| LedgerEffects.DepositDoes | programs/grai/src/deposit.rs:11-150 | the depositor gives and the Grinders get the asset (nothing moves if they are one account), the depositor gets at most the book shares in wallet or lock, and the book grows by the value |
| LedgerEffects.LiquidateDoes | programs/grai/src/redeem.rs:45-96 | only with quorum and nothing grinding; the caller gets exactly what nobody locked |
| LedgerEffects.RedeemBurns | programs/grai/src/redeem.rs:135-217 | wallet shares burn first, then the lock; supply and book fall by exactly the amount and its floored value |
| LedgerEffects.RedeemPays | programs/grai/src/redeem.rs:223-254 | every vault pays its floored unreserved share to the holder, and no reserve or treasury changes |
| LedgerEffects.ReviveDoes | programs/grai/src/revive.rs:25-146 | the Grinders get everything unreserved; the book is dropped only with no share left |
| DividendTheorems.ReserveNearPending | programs/grai/src/dividend.rs:16-93 | claims owed plus the dust of separate floors exceed the reserve by at most one unit per lock change, and fall short of it by no more than that and what was forfeited when every locker has a position |
| DividendTheorems.ReserveNearPendingAlways | programs/grai/src/dividend.rs:16-93 | the same from initialize on over every run, forfeited growth included in the lower bound |
| LedgerExamples.ReserveCanFallShort | programs/grai/src/claim.rs:61-64 | a literal run from initialize of a deposit, transfers, locks and two distributions owes four lockers one unit each against three reserved, so the reserve cap of a claim is needed |
| DividendTheorems.ExecCarries | programs/grai/src/dividend.rs:69-93 | no instruction by anyone gives or takes dividends of a position except through the index |
| DividendTheorems.CheckpointIndependence | programs/grai/src/dividend.rs:69-93 | while a lock keeps its size, claimed + pending grows by exactly the difference of two floors, whatever happens in between |
| DividendTheorems.ProRata | programs/grai/src/dividend.rs:16-63 | that difference is within one unit and locked/10^18 per dividend of the exact pro-rata part |
| DividendAccuracy.IndexOfRun | programs/grai/src/dividend.rs:16-63 | over any run the index is exactly the composition of the floored dividends of its distributions and bribes over the locks of their moment |
| DividendAccuracy.SteadyLockEarnsProRata | programs/grai/src/dividend.rs:16-93 | over any run a steady lock earns its exact pro-rata part of the dividends indexed in it, to that accuracy |
| GraiProgram.RemoveFromList | programs/grai/src/state.rs:136-145 | linear search and swap-remove compute the specified list |
| GraiProgram.Program.constructor | programs/grai/src/config.rs:18-61 | initialize reaches the initial state of the runs |
| GraiProgram.Program.Settle | programs/grai/src/dividend.rs:69-93 | the checkpoint step; a position that is new settles from an empty lock |
| GraiProgram.Program.SettleAll | programs/grai/src/dividend.rs:212-243 | the loop over all assets settles each of them or fails |
| GraiProgram.Program.DistributeDividend | programs/grai/src/dividend.rs:16-63 | the accrual step and its dust |
| GraiProgram.Program.ShareOut | programs/grai/src/distribute.rs:29-52 | cuts, accrual and treasury transfer |
| GraiProgram.Program.PerformLock | programs/grai/src/state.rs:173-250 | the lock step |
| GraiProgram.Program.Lock | programs/grai/src/lock.rs:6-45 | the lock instruction with its guards |
| GraiProgram.Program.PerformVote | programs/grai/src/state.rs:253-310 | the vote step |
| GraiProgram.Program.Vote | programs/grai/src/vote.rs:9-77 | the vote instruction, locking the shortfall first |
| GraiProgram.Program.ClampVote | programs/grai/src/state.rs:147-166 | votes above the lock are withdrawn and an emptied voter leaves the list |
| GraiProgram.Program.ShrinkLock | programs/grai/src/unlock.rs:63-100 | the lock shrinks, votes are clamped, an emptied locker leaves the list |
| GraiProgram.Program.Unlock | programs/grai/src/unlock.rs:14-111 | the unlock instruction; the penalty goes to the Grinders |
| GraiProgram.Program.RemoveVotes | programs/grai/src/bribe.rs:110-158 | voted GRAI leaves the lock, the totals and, when emptied, the lists |
| GraiProgram.Program.PayBribe | programs/grai/src/bribe.rs:144-213 | payment, cut pool and voter share of a bribe |
| GraiProgram.Program.Bribe | programs/grai/src/bribe.rs:52-225 | the bribe instruction |
| GraiProgram.Program.Distribute | programs/grai/src/distribute.rs:12-76 | the distribute instruction |
| GraiProgram.Program.PayClaim | programs/grai/src/claim.rs:343-389 | holder and tip are paid out of the vault |
| GraiProgram.Program.PayLevels | programs/grai/src/treasury.rs:1053-1122 | the affiliate loop over an arbitrary outcome per level |
| GraiProgram.Program.DistributeClaimTreasury | programs/grai/src/treasury.rs:1039-1145 | the treasury side of a claim |
| GraiProgram.Program.Claim | programs/grai/src/claim.rs:26-130 | the claim instruction |
| GraiProgram.Program.Deposit | programs/grai/src/deposit.rs:11-150 | the deposit instruction on the ledger |
| GraiProgram.Program.Liquidate | programs/grai/src/redeem.rs:45-96 | the liquidate instruction; unlocked GRAI goes to the caller |
| GraiProgram.Program.PayBasket | programs/grai/src/redeem.rs:223-254 | the loop that pays every asset |
| GraiProgram.Program.BurnShares | programs/grai/src/redeem.rs:170-217 | wallet GRAI burns first, then the lock |
| GraiProgram.Program.Redeem | programs/grai/src/redeem.rs:99-258 | the redeem instruction |
| GraiProgram.Program.Revive | programs/grai/src/revive.rs:25-146 | the loop that sweeps every vault, and the reset |
| GraiProgram.Program.SetConfig | programs/grai/src/config.rs:98-113 | the set_config instruction |
| GraiProgram.Program.Execute | programs/grai/src/lib.rs:1735-1822 | one instruction with rollback on failure is exactly one step of the runs |
| ReferralWalk.HasReferralLoop | programs/grai/src/treasury.rs:870-900 | two-speed walk: it terminates on every pool and answers what a walk with a visited set answers |
| ReferralWalk.RoundsAreBounded | programs/grai/src/treasury.rs:880-899 | the walkers meet within as many rounds as there are books |
| ReferralWalk.VisitHalts | programs/grai/src/treasury.rs:845-867 | a walk that halts is answered with its first obstacle: missing book, end, or a way back |
| ReferralWalk.VisitRepeats | programs/grai/src/treasury.rs:845-900 | a walk that enters any cycle is answered Yes |
| ReferralWalk.NoMeansEnds | programs/grai/src/treasury.rs:845-900 | answer No: the chain ends and never meets the locker |
| ReferralWalk.WalkIsExact | programs/grai/src/treasury.rs:845-900 | in a forest with all books supplied the answer is Yes iff the chain runs into the locker, else No |
| ReferralWalk.AllowedEdgeKeepsForest | programs/grai/src/treasury.rs:845-900 | an edge that the walk allows keeps every chain ending |
| ReferralInvariant.BindKeeps | programs/grai/src/treasury.rs:117-156 | binding keeps the forest and both aggregates |
| ReferralInvariant.CreditBooksKeeps | programs/grai/src/treasury.rs:331-401 | crediting keeps them |
| ReferralInvariant.MintReferrerKeeps | programs/grai/src/treasury.rs:88-189 | a deposit, binding and crediting, keeps them |
| ReferralInvariant.ClaimCreditKeeps | programs/grai/src/treasury.rs:1009-1037 | a claim, which may create an unbound book, keeps them |
| ReferralInvariant.PoachKeeps | programs/grai/src/treasury.rs:511-676 | a poach, debiting two books, crediting two and re-hanging the edge, keeps them |
| ReferralRuns.AlwaysForest | programs/grai/src/treasury.rs:117-156 | over every run: each chain ends, l2 = Σ l1 of the children, l1 + what was missed at binding = Σ value of the children |
| ReferralRuns.ExecNothingMissed | programs/grai/src/treasury.rs:134-156 | one instruction leaves nothing missed iff nothing was and it binds no value away |
| ReferralRuns.ExactIffBindsClean | programs/grai/src/treasury.rs:134-156 | l1 = Σ value of the children for every book after a run iff no deposit of the run bound a locker that already had value to another wallet |
| ReferralRuns.PoachDebits | programs/grai/src/treasury.rs:553-600 | the second-level debits of a poach never fail; the first-level one fails iff the seller missed more than its other children hold |
| ReferralRuns.CleanRunsNeverBlockAPoach | programs/grai/src/treasury.rs:553-600 | after a run of clean binds the checked subtractions of a poach never fail |
| ReferralRuns.ClaimBeforeBindBlocksPoach | programs/grai/src/treasury.rs:1009-1037 | a claim before the binding deposit leaves a seat that every poach fails on |
| ReferralRuns.DepositWrites | programs/grai/src/treasury.rs:88-189 | a deposit books its value on the depositor alone; an unbound one gets the referrer asked for, or itself when none was named or the chain leads back; no other link changes |
| ReferralRuns.ClaimWrites | programs/grai/src/treasury.rs:1009-1037 | a claim books its value on the holder alone and links nobody |
| ReferralRuns.BuyWrites | programs/grai/src/treasury.rs:602-676 | a poach books nothing and moves one link, the locker’s, to the poacher |
| ReferralRuns.ReferrerIsSticky | programs/grai/src/treasury.rs:117-133 | over any run a referrer once set is changed by nothing but a poach of that seat |
| ReferralRuns.PoachPays | programs/grai/src/treasury.rs:404-480 | the price is value + l1, the fee is its least ceiling, fee + payment = price ≤ balance, and the edge moves |
| ReferralProgram.ReferralBooks.EnsureReferrerAccount | programs/grai/src/treasury.rs:770-813 | loads a book or opens an unbound one |
| ReferralProgram.ReferralBooks.CreditBooks | programs/grai/src/treasury.rs:331-401 | the loop over the levels |
| ReferralProgram.ReferralBooks.ChooseReferrer | programs/grai/src/treasury.rs:117-131 | the sticky referrer: requested, self-root, or refusal |
| ReferralProgram.ReferralBooks.Bind | programs/grai/src/treasury.rs:132-156 | the link and what it carries up |
| ReferralProgram.ReferralBooks.MintReferrer | programs/grai/src/treasury.rs:88-189 | the deposit path |
| ReferralProgram.ReferralBooks.ClaimCredit | programs/grai/src/treasury.rs:1009-1037 | the claim path |
| ReferralProgram.ReferralBooks.LeaveSeller | programs/grai/src/treasury.rs:524-600 | the seller side of a poach |
| ReferralProgram.ReferralBooks.JoinBuyer | programs/grai/src/treasury.rs:602-676 | the buyer side, self-poach included |
| ReferralProgram.ReferralBooks.Poach | programs/grai/src/treasury.rs:435-687 | the poach instruction with its guards; returns the two payments |
| ReferralProgram.ReferralBooks.Execute | programs/grai/src/treasury.rs:435-687 | one instruction with rollback is exactly one step of the runs |
| GraiWorld.MintRecords | programs/grai/src/treasury.rs:331-401 | a deposit records its value once, whatever is bound or credited up the chain |
| GraiWorld.AlwaysRecorded | programs/grai/src/deposit.rs:91-114 | ledger and books changing together over every run: both invariants hold, and the books record exactly the value of all deposits and claims, never less than the book value |
| GraiWorld.PoachIsAlwaysPaid | programs/grai/src/treasury.rs:473-509 | once guards and books let a poach through, its two GRAI payments succeed |
| SalePricing.QuoteIsFloor | programs/grs/src/state/sale.rs:79-92 | an accepted quote is the floor of the pro-rata price, at least one unit, and the whole price iff the whole remainder is taken |
| SalePricing.QuoteNeverOverflows | programs/grs/src/state/sale.rs:79-92 | on u64 figures a quote is refused exactly for a closed lot, a bad amount, or a price below one unit |
| SalePricing.SellTelescopes | programs/grs/src/instructions/buy.rs:76-106 | over any run of buys: collected + still asked = listed, the price per remaining unit never falls, and a sold-out lot collected exactly its price |
| SalePricing.LaterBuyerPaysNoLess | programs/grs/src/instructions/buy.rs:76-106 | the same amount never costs a later buyer less |
| SalePricing.PaidPriceFallsIff | programs/grs/src/instructions/buy.rs:76-106 | with any fills in between, a later buyer pays less per unit than an earlier one iff the rounding of its own fill outweighs what the price asked gained since |
| SalePricing.NextPriceFallsIff | programs/grs/src/state/sale.rs:79-92 | for two fills in a row: iff the remainder of the later one, scaled, exceeds that of the earlier |
| SalePricing.PaidPriceFallsOnlyByRounding | programs/grs/src/instructions/buy.rs:76-106 | what a later buyer pays per unit falls short of what an earlier one paid by less than one quote unit in all, and not at all when the fill is not rounded |
| SalePricing.PaidPriceCanFall | programs/grs/src/state/sale.rs:79-92 | a concrete lot in which rounding lets a later, smaller fill pay less per unit |
| SalePricing.SplitPurchase | programs/grs/src/state/sale.rs:79-92 | buying in parts costs at most as much as buying at once, and less by at most one unit per extra part |
| RateLimiter.Bucket.Refill | programs/grs/src/state/peer_config.rs:39-51 | saturating refill |
| RateLimiter.Bucket.TryConsume | programs/grs/src/state/peer_config.rs:53-61 | accepts iff the refilled bucket holds the amount |
| RateLimiter.Bucket.SetRate | programs/grs/src/state/peer_config.rs:26-30 | accrues at the old rate first |
| RateLimiter.Bucket.SetCapacity | programs/grs/src/state/peer_config.rs:32-37 | fills the bucket |
| RateLimiter.NeverOverfull | programs/grs/src/state/peer_config.rs:26-61 | the bucket never exceeds its capacity in any run |
| RateLimiter.OutflowIsEarned | programs/grs/src/state/peer_config.rs:39-61 | whatever the clock does, net outflow + tokens left ≤ tokens before + rate × every forward move of the clock |
| RateLimiter.WindowBound | programs/grs/src/state/peer_config.rs:39-61 | net outflow of any window + tokens left ≤ tokens before + rate × (elapsed + what the clock went back); with a clock that does not go back, net outflow ≤ capacity + rate × elapsed |
| GrsWindows.OutboundWindow | programs/grs/src/instructions/send.rs:67-72 | the same over every run of the protocol in which one chain is not reconfigured: what it sent to a peer less what came back is bounded by that peer’s outbound bucket |
| RateLimiter.BoundNeedsForwardClock | programs/grs/src/state/peer_config.rs:39-51 | with a clock that goes back twice the capacity gets out in no time, which attains the bound |
| MsgCodec.EncodeSale | programs/grs/src/msg_codec.rs:44-53 | the appends write the specified sale message |
| MsgCodec.EncodeGrant | programs/grs/src/msg_codec.rs:55-72 | the appends write the specified grant message |
| MsgCodec.Encode | programs/grs/src/msg_codec.rs:110-129 | the appends write the specified transfer |
| MsgCodec.WordRoundTrip | programs/grs/src/msg_codec.rs:22-34 | a u64 survives its 32-byte word |
| MsgCodec.SaleRoundTrip | programs/grs/src/msg_codec.rs:44-91 | a sale arrives as sent less sub-unit dust; id 0 is refused |
| MsgCodec.SaleAccepted | programs/grs/src/msg_codec.rs:74-91 | every accepted sale message is the encoding of what it decodes to |
| MsgCodec.GrantRoundTrip | programs/grs/src/msg_codec.rs:55-108 | a grant arrives as sent less dust iff its bucket is at most 11 |
| MsgCodec.GrantAccepted | programs/grs/src/msg_codec.rs:93-108 | every accepted grant message is the encoding of what it decodes to |
| MsgCodec.TransferRoundTrip | programs/grs/src/msg_codec.rs:110-153 | a plain transfer is 40 bytes, survives, and is never a sale or a grant |
| MsgCodec.FramingCollision | programs/grs/src/msg_codec.rs:36-42 | a transfer reads as a sale or grant iff composed, to the magic key, and of the exact length |
| GrsChain.FeeAndDust | programs/grs/src/instructions/quote_send.rs:121-163 | sent = received + fee, sent ≤ amount, and all three are whole shared units |
| GrsEffects.CreateDoes | programs/grs/src/instructions/set_sale.rs:90-195 | the row is listed under the next id and reserved, the admin adding exactly what the free escrow is short of; no other row or wallet changes |
| GrsEffects.CloseDoes | programs/grs/src/instructions/set_sale.rs:198-232 | what is left is released; asset and recipient stay; no other row and no wallet changes |
| GrsEffects.PublishSaleDoes | programs/grs/src/instructions/publish_sale.rs:60-138 | the offer leaves escrow, reserve and supply together; the message is the row |
| GrsEffects.BuyDoes | programs/grs/src/instructions/buy.rs:74-186 | amount and quoted price leave the row, the GRS reaches the recipient, the price leaves the buyer’s quote balance for the payee, who may be the buyer; nobody else changes |
| GrsEffects.SendDoes | programs/grs/src/instructions/send.rs:53-148 | the sender pays the amount less dust, the configured fee stays, the rest is burned, the buckets move by it |
| GrsEffects.ReceiveSaleDoes | programs/grs/src/instructions/lz_receive.rs:135-204 | a revoked lot is dropped; otherwise the row becomes the message and escrow, reserve and supply move to it together |
| GrsEffects.ReceiveTransferDoes | programs/grs/src/instructions/lz_receive.rs:275-341 | one wallet gets the amount under the cap, the buckets move by it |
| GrsInvariant.SetSaleKeeps | programs/grs/src/instructions/set_sale.rs:64-232 | creating or closing a lot keeps the token accounted for and the book covered; only the next id can open |
| GrsInvariant.PublishSaleKeeps | programs/grs/src/instructions/publish_sale.rs:60-138 | publishing burns exactly what the row offered and closes it |
| GrsInvariant.BuyKeeps | programs/grs/src/instructions/buy.rs:74-186 | a fill moves exactly amount and cost and keeps the book covered |
| GrsInvariant.QuotedFillIsInStock | programs/grs/src/instructions/buy.rs:74-186 | a quoted fill is refused iff the lifetime counter overflows or the buyer cannot pay the price |
| GrsInvariant.SendKeeps | programs/grs/src/instructions/send.rs:53-162 | a transfer burns here exactly what its message carries, between the minimum and the amount |
| GrsInvariant.ReceiveSaleKeeps | programs/grs/src/instructions/lz_receive.rs:135-204 | accepting a sale mints what it carries less what it revokes, keeps the book covered and reopens nothing |
| GrsInvariant.ReceiveTransferKeeps | programs/grs/src/instructions/lz_receive.rs:268-341 | accepting a transfer mints exactly its amount to its account |
| GrsRuns.PublishedMessage | programs/grs/src/instructions/publish_sale.rs:115-134 | a published row arrives exactly as it was on the home book |
| GrsRuns.UnusedIdIsNowhere | programs/grs/src/instructions/set_sale.rs:73-84 | an id the home book has not given out is open nowhere |
| GrsRuns.ExecKeeps | programs/grs/src/instructions/lz_receive.rs:105-204 | every action of any chain, and every delivery in any order, keeps the protocol invariant |
| GrsWindows.RowIsSold | programs/grs/src/instructions/buy.rs:76-106 | through any part of a run that leaves a lot alone but for fills, its row is exactly the lot sold in those portions, and its buyers paid that price |
| GrsWindows.LotTelescopes | programs/grs/src/instructions/buy.rs:76-106 | in every run, interleaved with anything on any chain: collected + still asked = asked at the start, the price per remaining unit never falls, and a sold-out lot collected all of it |
| GrsTheorems.SupplyConserved | programs/grs/src/instructions/mint_genesis.rs:44-81 | over every run: supplies + messages under way + retired = the billion minted at genesis |
| GrsTheorems.EveryBookCovered | programs/grs/src/state/grs.rs:33-40 | on every chain at every moment: supply = all balances, reserve = Σ open rows ≤ escrow, and no open lot is free |
| GrsTheorems.DeliveredIffDeliverable | programs/grs/src/instructions/lz_receive.rs:313-321 | the cap never refuses a genuine message: it is accepted iff the receiving chain is running, knows the sender, and may list the recipient or has bucket room |
| GrsTheorems.GenesisOnce | programs/grs/src/instructions/mint_genesis.rs:44-81 | after any run genesis succeeds iff on the home chain, not yet done, and the mint has nine decimals and the admin as authority |
| GrsTheorems.OpeningMeetsNoOpenLot | programs/grs/src/instructions/lz_receive.rs:185-196 | when an opening is under way its lot is open nowhere else, so the branch that tops up a known lot is never taken |
| GrsTheorems.ClosedForGood | programs/grs/src/instructions/lz_receive.rs:141-153 | a row without GRS, at home or on a spoke, is never open again |
| GrsTheorems.PublishedOnce | programs/grs/src/instructions/publish_sale.rs:77-134 | publishing an id again, whatever happened since, sends a row without GRS and burns nothing |
| GrsTheorems.BurnEqualsMint | programs/grs/src/instructions/send.rs:53-148 | what a transfer burns is exactly what its delivery mints, whenever that is, to the account named |
| GrsProgram.MeterOut | programs/grs/src/instructions/send.rs:67-72 | outbound consumed, inbound refilled |
| GrsProgram.MeterIn | programs/grs/src/instructions/lz_receive.rs:280-286 | inbound consumed, outbound refilled |
| GrsProgram.Program.MintGenesis | programs/grs/src/instructions/mint_genesis.rs:44-81 | the genesis instruction with its checks of the mint |
| GrsProgram.Program.SetSale | programs/grs/src/instructions/set_sale.rs:64-88 | create or close by id |
| GrsProgram.Program.Earmark | programs/grs/src/instructions/set_sale.rs:136-170 | top-up from the admin wallet and reservation |
| GrsProgram.Program.Append | programs/grs/src/instructions/set_sale.rs:90-195 | the create path |
| GrsProgram.Program.Close | programs/grs/src/instructions/set_sale.rs:198-232 | the close path |
| GrsProgram.Program.BurnLot | programs/grs/src/instructions/publish_sale.rs:81-113 | the open publish |
| GrsProgram.Program.PublishSale | programs/grs/src/instructions/publish_sale.rs:60-138 | the publish instruction and its message |
| GrsProgram.Program.Fill | programs/grs/src/instructions/buy.rs:74-125 | the fill of a lot; returns its price |
| GrsProgram.Program.Pay | programs/grs/src/instructions/buy.rs:129-177 | the payment in the quote asset |
| GrsProgram.Program.Buy | programs/grs/src/instructions/buy.rs:74-186 | the buy instruction: fill and payment |
| GrsProgram.Program.Send | programs/grs/src/instructions/send.rs:53-148 | the send instruction and its message |
| GrsProgram.Program.LzReceive | programs/grs/src/instructions/lz_receive.rs:105-321 | the three-way dispatch of a delivered message |
| GrsProgram.Program.AcceptSale | programs/grs/src/instructions/lz_receive.rs:135-204 | write, mint or burn the difference, or drop a revoked lot |
| GrsProgram.Program.CreditSaleEscrow | programs/grs/src/instructions/lz_receive.rs:375-432 | mint into the escrow under the cap |
| GrsProgram.Program.DebitSaleEscrow | programs/grs/src/instructions/lz_receive.rs:434-481 | burn from the escrow |
| GrsProgram.Program.AcceptGrant | programs/grs/src/instructions/lz_receive.rs:207-266 | schedule checks and the mint into the vest escrow |
| GrsProgram.Program.AcceptTransfer | programs/grs/src/instructions/lz_receive.rs:275-341 | limiters and the capped mint |
| GrsProgram.Program.ExecuteSet | programs/grs/src/instructions/set_sale.rs:64-88 | create or close with rollback |
| GrsProgram.Program.ExecuteBuy | programs/grs/src/instructions/buy.rs:74-186 | buy with rollback: a payment that fails undoes the fill |
| GrsProgram.Program.Execute | programs/grs/src/instructions/set_sale.rs:64-88 | one instruction on one chain with rollback is exactly one step of the runs |
| GrsProgram.Program.ExecutePublish | programs/grs/src/instructions/publish_sale.rs:60-138 | publish with rollback: refused, nothing changes and nothing is sent |
| GrsProgram.Program.ExecuteSend | programs/grs/src/instructions/send.rs:53-148 | send with rollback: refused, nothing changes and nothing is sent |
| GrsProgram.Program.ExecuteReceive | programs/grs/src/instructions/lz_receive.rs:105-321 | a delivery with rollback: refused, nothing changes |

## Left out

- Accounts as Solana has them: address derivation, account creation, rent, ownership checks and the layout of
  remaining accounts; a supplied book without data is an uninitialised one, a missing one an error.
- Cashflow NFTs, metadata, royalties and events; who owns an NFT enters as the outcome of an affiliate level.
- Price feeds: a price with its decimals is an input.
- Delisting and relisting assets, toggling an asset's paused and bribeable flags after listing, and changing the
  Grinders, the beneficiar or the affiliate shares: these are fixed when the state or the asset is created.
- `claim_all`, which is one claim per listed asset; `deposit_sol`, which wraps and deposits; the read-only previews.
- Lifetime yield counters (`total_yielded`, `yielded`), which nothing reads, and their overflow errors.
- Cached list positions (`locker_id`, `voter_id`), which are advisory.
- Token-2022 transfer fees and the Adapter form of the OFT: GRS is native with exact transfers.
- The LayerZero endpoint: peers are authenticated, a message is delivered at most once and in any order; nonces,
  options, fees of the endpoint and composed messages after a transfer are not modelled.
- Sending grants, which is not in this repository; vesting schedules and releases; the peer registry.
- A lot priced in GRS itself: the balances in which fills are paid are kept apart from the GRS wallets.
- The mint authority and decimals of GRS after genesis; they enter as what genesis finds.
- Ownership transfer, pausers and withdrawals; the settings of a chain change by one unconstrained step.
- Custodians and swaps (`programs/grinders`).
