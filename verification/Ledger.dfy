/** The state of the GRAI program and what each instruction does to it, as a function of the state. */
module Ledger {
  import opened Prelude
  import opened Arithmetic
  import opened Tokenomics
  import MintPremium

  /** A public key; only compared for equality. */
  type Account = nat

  /** Locked GRAI and the part of it that is committed to the liquidation vote. */
  datatype Escrow = Escrow(amount: nat, voted: nat)

  /** A dividend checkpoint. `withdrawn` is history: all that was ever claimed through it. */
  datatype Position = Position(debt: nat, claimable: nat, withdrawn: nat)

  /**
   * One listed asset: its configuration, its two vaults, everybody's token balance and everybody's position.
   * Three fields are history that no instruction reads: how many times a lock changed size (`resizes`), how
   * much was given up by lockers whose position did not exist yet (`forfeited`), and the token supply (`issued`).
   */
  datatype Asset = Asset(
    decimals: nat,
    paused: bool,
    bribeable: bool,
    accShare: nat,
    totalClaimable: nat,
    vault: nat,
    treasury: nat,
    wallets: map<Account, nat>,
    positions: map<Account, Position>,
    resizes: nat,
    forfeited: nat,
    issued: nat)

  datatype State = State(
    totalValue: nat,
    totalLocked: nat,
    totalVoted: nat,
    liquidation: bool,
    liquidationAt: int,
    mintPremiumAt: int,
    config: Config,
    affiliateShareBps: seq<nat>,
    beneficiar: Account,
    grinders: Account,
    lockers: seq<Account>,
    voters: seq<Account>,
    escrows: map<Account, Escrow>,
    supply: nat,
    graiVault: nat,
    wallets: map<Account, nat>,
    assets: seq<Asset>)

  type Step = Result<State, Error>

  const NO_ESCROW := Escrow(0, 0)
  const NO_POSITION := Position(0, 0, 0)

  function EscrowOf(escrows: map<Account, Escrow>, u: Account): Escrow {
    if u in escrows then escrows[u] else NO_ESCROW
  }

  function LockedBy(escrows: map<Account, Escrow>, u: Account): nat {
    EscrowOf(escrows, u).amount
  }

  function PositionOf(a: Asset, u: Account): Position {
    if u in a.positions then a.positions[u] else NO_POSITION
  }

  // ----- token accounts

  function Balance(wallets: map<Account, nat>, u: Account): nat {
    if u in wallets then wallets[u] else 0
  }

  function Credit(wallets: map<Account, nat>, u: Account, amount: nat): map<Account, nat> {
    wallets[u := Balance(wallets, u) + amount]
  }

  /** The token program refuses to overdraw. */
  function Debit(wallets: map<Account, nat>, u: Account, amount: nat): Result<map<Account, nat>, Error> {
    if Balance(wallets, u) < amount then Err(InsufficientFunds)
    else Ok(wallets[u := Balance(wallets, u) - amount])
  }

  function FromVault(vault: nat, amount: nat): Result<nat, Error> {
    if vault < amount then Err(InsufficientFunds) else Ok(vault - amount)
  }

  // ----- registries

  function IndexOf(list: seq<Account>, key: Account): nat
    requires key in list
  {
    if list[0] == key then 0 else 1 + IndexOf(list[1..], key)
  }

  /** Swap-remove: the last entry takes the place of the first occurrence of `key`. */
  function RemoveFromList(list: seq<Account>, key: Account): seq<Account> {
    if key in list then
      IndexInRange(list, key);
      list[IndexOf(list, key) := list[|list| - 1]][..|list| - 1]
    else list
  }

  lemma IndexInRange(list: seq<Account>, key: Account)
    requires key in list
    ensures IndexOf(list, key) < |list| && list[IndexOf(list, key)] == key
    ensures forall j :: 0 <= j < IndexOf(list, key) ==> list[j] != key
  {
    if list[0] != key {
      IndexInRange(list[1..], key);
    }
  }

  // ----- dividends

  /** MasterChef checkpoint of one position across a change of the lock from `oldLocked` to `newLocked`. */
  function Settle(a: Asset, u: Account, oldLocked: nat, newLocked: nat): Result<Asset, Error> {
    var p := PositionOf(a, u);
    var isNew := u !in a.positions;
    var accumulated :- CheckedFloor128(if isNew then 0 else oldLocked, a.accShare, PRECISION);
    var delta :- Fits64(SaturatingSub(accumulated, p.debt));
    var claimable :- Fits64(p.claimable + delta);
    var debt :- CheckedFloor128(newLocked, a.accShare, PRECISION);
    Ok(a.(positions := a.positions[u := Position(debt, claimable, p.withdrawn)],
          resizes := a.resizes + (if oldLocked != newLocked then 1 else 0),
          forfeited := a.forfeited + (if isNew then Floor(oldLocked, a.accShare, PRECISION) else 0)))
  }

  function Settled(a: Asset, u: Account, oldLocked: nat, newLocked: nat): Asset {
    match Settle(a, u, oldLocked, newLocked)
    case Ok(settled) => settled
    case Err(_) => a
  }

  /** Every listed asset is settled, or the instruction fails. */
  function SettleAll(assets: seq<Asset>, u: Account, oldLocked: nat, newLocked: nat): Result<seq<Asset>, Error> {
    if forall a :: a in assets ==> Settle(a, u, oldLocked, newLocked).Ok? then
      Ok(seq(|assets|, i requires 0 <= i < |assets| => Settled(assets[i], u, oldLocked, newLocked)))
    else Err(MathOverflow)
  }

  /** What an accrual of `amount` over `eligible` locked GRAI does to the index, and what it leaves over. */
  function DistributeDividend(a: Asset, amount: nat, eligible: nat): Result<(Asset, nat), Error> {
    if amount == 0 then Ok((a, 0))
    else
      var increase :- if eligible > 0 then CheckedFloor128(amount, PRECISION, eligible) else Ok(0);
      if increase == 0 then Ok((a, amount))
      else
        var share :- Fits128(a.accShare + increase);
        var newMax :- CheckedFloor128(eligible, share, PRECISION);
        var oldMax :- CheckedFloor128(eligible, a.accShare, PRECISION);
        var reserved :- Fits64(SaturatingSub(newMax, oldMax));
        if reserved == 0 then Ok((a, amount))
        else
          var total :- Fits64(a.totalClaimable + reserved);
          Ok((a.(accShare := share, totalClaimable := total), SaturatingSub(amount, reserved)))
  }

  /** Split `pool`, already in the vault, into the indexed dividend and the treasury's part. */
  function ShareOut(a: Asset, pool: nat, eligible: nat, cfg: Config): Result<Asset, Error> {
    var (treasuryCut, dividendCut) :- SplitCuts(pool, cfg);
    var (indexed, dust) :- if dividendCut > 0 then DistributeDividend(a, dividendCut, eligible) else Ok((a, 0));
    var toTreasury :- Fits64(treasuryCut + dust);
    var vault :- FromVault(indexed.vault, toTreasury);
    Ok(indexed.(vault := vault, treasury := indexed.treasury + toTreasury))
  }

  // ----- lock, vote, unlock

  function PerformLock(s: State, u: Account, add: nat): Step {
    if add == 0 then Err(AmountZero)
    else
      var e := EscrowOf(s.escrows, u);
      var amount :- Fits64(e.amount + add);
      var assets :- SettleAll(s.assets, u, e.amount, amount);
      var totalLocked :- Fits64(s.totalLocked + add);
      var wallets :- Debit(s.wallets, u, add);
      Ok(s.(assets := assets,
            lockers := if e.amount == 0 then s.lockers + [u] else s.lockers,
            totalLocked := totalLocked,
            escrows := s.escrows[u := e.(amount := amount)],
            wallets := wallets,
            graiVault := s.graiVault + add))
  }

  function Lock(s: State, u: Account, amount: nat): Step {
    if s.liquidation then Err(LiquidationOpen)
    else if amount == 0 then Err(AmountZero)
    else if Balance(s.wallets, u) < amount then Err(InsufficientGrai)
    else PerformLock(s, u, amount)
  }

  function PerformVote(s: State, u: Account, add: nat): Step {
    if add == 0 then Err(AmountZero)
    else
      var e := EscrowOf(s.escrows, u);
      var voted :- Fits64(e.voted + add);
      if e.amount < voted then Err(InvalidAmount)
      else
        var assets :- SettleAll(s.assets, u, e.amount, e.amount);
        var totalVoted :- Fits64(s.totalVoted + add);
        Ok(s.(assets := assets,
              voters := if e.voted == 0 then s.voters + [u] else s.voters,
              totalVoted := totalVoted,
              escrows := s.escrows[u := e.(voted := voted)]))
  }

  /** Commit GRAI to the liquidation vote, locking the shortfall from the wallet first. */
  function Vote(s: State, u: Account, amount: nat): Step {
    if amount == 0 then Err(AmountZero)
    else if s.liquidation then Err(LiquidationOpen)
    else
      var e := EscrowOf(s.escrows, u);
      var need :- Fits64(e.voted + amount);
      var locked :-
        if e.amount >= need then Ok(s)
        else if Balance(s.wallets, u) < need - e.amount then Err(InsufficientGrai)
        else PerformLock(s, u, need - e.amount);
      PerformVote(locked, u, amount)
  }

  /** Shrink a lock that the dividends are already settled for; votes above the new lock are withdrawn. */
  function ShrinkLock(s: State, u: Account, amount: nat): Step {
    var e := EscrowOf(s.escrows, u);
    var left :- Minus(e.amount, amount);
    var totalLocked :- Minus(s.totalLocked, amount);
    var voted := Min(e.voted, left);
    var totalVoted :- Minus(s.totalVoted, e.voted - voted);
    Ok(s.(totalLocked := totalLocked,
          totalVoted := totalVoted,
          escrows := s.escrows[u := Escrow(left, voted)],
          voters := if e.voted > voted && voted == 0 then RemoveFromList(s.voters, u) else s.voters,
          lockers := if left == 0 then RemoveFromList(s.lockers, u) else s.lockers))
  }

  function Unlock(s: State, u: Account, amount: nat): Step {
    var e := EscrowOf(s.escrows, u);
    if s.liquidation then Err(LiquidationOpen)
    else if amount == 0 then Err(AmountZero)
    else if amount > e.amount then Err(InvalidAmount)
    else
      var (returned, penalty) :- PreviewUnlock(amount, e.amount, s.config.unlockPenaltyBps);
      var assets :- SettleAll(s.assets, u, e.amount, e.amount - amount);
      var shrunk :- ShrinkLock(s.(assets := assets), u, amount);
      var vault :- FromVault(s.graiVault, returned + penalty);
      Ok(shrunk.(graiVault := vault,
                 wallets := Credit(Credit(s.wallets, u, returned), s.grinders, penalty)))
  }

  // ----- bribe

  function Bribe(s: State, briber: Account, voter: Account, amount: nat, i: nat, price: Price): Step {
    var e := EscrowOf(s.escrows, voter);
    if i >= |s.assets| then Err(AssetUnknown)
    else if !s.assets[i].bribeable then Err(NotBribeable)
    else if s.liquidation then Err(LiquidationOpen)
    else if amount == 0 then Err(AmountZero)
    else if amount > e.voted then Err(InvalidAmount)
    else
      var quote :- PreviewBribe(amount, s.supply, s.totalValue, s.totalVoted, s.config.quorumBps,
                                s.config.bribePremiumBps, s.assets[i].decimals, price);
      var taken :- TakeVotes(s, briber, voter, amount);
      var paid :- PayBribe(taken.assets[i], briber, voter, quote, taken.totalLocked, s.config);
      Ok(taken.(assets := taken.assets[i := paid]))
  }

  /** Voted GRAI leaves a lock: both totals and the escrow shrink, and emptied rows leave the registries. */
  function RemoveVotes(s: State, voter: Account, amount: nat): Step {
    var e := EscrowOf(s.escrows, voter);
    var left :- Minus(e.amount, amount);
    var voted :- Minus(e.voted, amount);
    var totalVoted :- Minus(s.totalVoted, amount);
    var totalLocked :- Minus(s.totalLocked, amount);
    Ok(s.(totalVoted := totalVoted,
          totalLocked := totalLocked,
          escrows := s.escrows[voter := Escrow(left, voted)],
          voters := if voted == 0 then RemoveFromList(s.voters, voter) else s.voters,
          lockers := if left == 0 then RemoveFromList(s.lockers, voter) else s.lockers))
  }

  /** The GRAI side of a bribe: the bought votes leave the voter's lock for the briber's wallet. */
  function TakeVotes(s: State, briber: Account, voter: Account, amount: nat): (r: Step)
    ensures r.Ok? ==> |r.value.assets| == |s.assets| && r.value.config == s.config
  {
    var e := EscrowOf(s.escrows, voter);
    var left :- Minus(e.amount, amount);
    var assets :- SettleAll(s.assets, voter, e.amount, left);
    var removed :- RemoveVotes(s.(assets := assets), voter, amount);
    var graiVault :- FromVault(s.graiVault, amount);
    Ok(removed.(graiVault := graiVault, wallets := Credit(s.wallets, briber, amount)))
  }

  /** The payment side of a bribe: into the vault, the cut pool shared out, the rest to the voter. */
  function PayBribe(a: Asset, briber: Account, voter: Account, quote: Quote, eligible: nat,
                    cfg: Config): Result<Asset, Error> {
    var wallets :- Debit(a.wallets, briber, quote.ask);
    var pool :- CutPool(quote);
    var voterCut :- Minus(quote.ask, pool);
    var shared :- ShareOut(a.(wallets := wallets, vault := a.vault + quote.ask), pool, eligible, cfg);
    var vault :- FromVault(shared.vault, voterCut);
    Ok(shared.(vault := vault, wallets := Credit(shared.wallets, voter, voterCut)))
  }

  // ----- yield and claims

  function Distribute(s: State, custody: Account, i: nat, amount: nat): Step {
    if amount == 0 then Err(AmountZero)
    else if s.liquidation then Err(LiquidationOpen)
    else if i >= |s.assets| then Err(AssetUnknown)
    else
      var a := s.assets[i];
      var wallets :- Debit(a.wallets, custody, amount);
      var shared :- ShareOut(a.(wallets := wallets, vault := a.vault + amount), amount, s.totalLocked, s.config);
      Ok(s.(assets := s.assets[i := shared.(positions := shared.positions[custody := PositionOf(shared, custody)])]))
  }

  function PreviewClaim(amount: nat, pending: nat): nat {
    if amount == U64_MAX || amount >= pending then pending else amount
  }

  /** The `(gross, revenue)` treasury income that goes with `claimed` units of dividend. */
  function ClaimTreasuryShares(claimed: nat, cfg: Config): Result<(nat, nat), Error> {
    if claimed == 0 || cfg.dividendCutBps == 0 then Ok((0, 0))
    else
      var gross :- CheckedFloor(claimed, cfg.treasuryCutBps, cfg.dividendCutBps);
      var revenue :- CheckedFloor(claimed, cfg.revenueShareBps, cfg.dividendCutBps);
      Ok((gross, revenue))
  }

  function PayClaim(a: Asset, holder: Account, payer: Account, claimed: nat, tipBps: nat): Result<Asset, Error> {
    var tip :- BpsOf(claimed, tipBps);
    var toHolder :- Minus(claimed, tip);
    var vault :- FromVault(a.vault, claimed);
    Ok(a.(vault := vault, wallets := Credit(Credit(a.wallets, holder, toHolder), payer, tip)))
  }

  /** What becomes of one affiliate level: paid, tried and not paid, kept in the treasury, or the walk ends. */
  datatype Level = Paid(to: Account) | Unpaid | Retained | Stop

  /** Walk the affiliate levels; returns the asset with the totals paid and retained. */
  function PayLevels(a: Asset, revenue: nat, shares: seq<nat>, levels: seq<Level>, paid: nat, retained: nat):
      Result<(Asset, nat, nat), Error>
    decreases |shares|
  {
    if shares == [] || levels == [] || levels[0].Stop? then Ok((a, paid, retained))
    else
      var share :- BpsOf(revenue, shares[0]);
      if levels[0].Paid? then
        var treasury :- FromVault(a.treasury, share);
        var total :- Fits64(paid + share);
        PayLevels(a.(treasury := treasury, wallets := Credit(a.wallets, levels[0].to, share)),
                  revenue, shares[1..], levels[1..], total, retained)
      else if levels[0].Retained? then
        var total :- Fits64(retained + share);
        PayLevels(a, revenue, shares[1..], levels[1..], paid, total)
      else
        PayLevels(a, revenue, shares[1..], levels[1..], paid, retained)
  }

  /** Claim-time treasury payout; skipped when the treasury does not hold the gross share. */
  function TreasuryPayout(a: Asset, gross: nat, revenue: nat, shares: seq<nat>, levels: seq<Level>,
                          beneficiar: Account, beneficiarPaid: bool): Result<Asset, Error>
  {
    if gross == 0 || a.treasury < gross then Ok(a)
    else
      var (walked, paid, retained) :- if revenue > 0 then PayLevels(a, revenue, shares, levels, 0, 0) else Ok((a, 0, 0));
      var afterPaid :- Minus(gross, paid);
      var net :- Minus(afterPaid, retained);
      if net > 0 && beneficiarPaid then
        var treasury :- FromVault(walked.treasury, net);
        Ok(walked.(treasury := treasury, wallets := Credit(walked.wallets, beneficiar, net)))
      else Ok(walked)
  }

  /** What a claim of `amount` out of `claimable` pays: capped by the vault and by the reserve. */
  function Claimed(a: Asset, amount: nat, claimable: nat): nat {
    Min(Min(PreviewClaim(amount, claimable), a.vault), a.totalClaimable)
  }

  function ClaimAsset(a: Asset, holder: Account, payer: Account, locked: nat, amount: nat, s: State,
                      levels: seq<Level>, beneficiarPaid: bool): Result<Asset, Error>
  {
    var settled :- Settle(a, holder, locked, locked);
    var p := PositionOf(settled, holder);
    var claimed := Claimed(settled, amount, p.claimable);
    if claimed == 0 then Ok(settled)
    else
      var paid :- PayClaim(settled, holder, payer, claimed, s.config.claimTipBps);
      var (gross, revenue) :- ClaimTreasuryShares(claimed, s.config);
      var done :- TreasuryPayout(paid, gross, revenue, s.affiliateShareBps, levels, s.beneficiar, beneficiarPaid);
      var left :- Minus(p.claimable, claimed);
      Ok(done.(positions := done.positions[holder := Position(p.debt, left, p.withdrawn + claimed)],
               totalClaimable := SaturatingSub(done.totalClaimable, claimed)))
  }

  function Claim(s: State, holder: Account, payer: Account, i: nat, amount: nat,
                 levels: seq<Level>, beneficiarPaid: bool): Step
  {
    if i >= |s.assets| then Err(AssetUnknown)
    else
      var a :- ClaimAsset(s.assets[i], holder, payer, LockedBy(s.escrows, holder), amount, s, levels, beneficiarPaid);
      Ok(s.(assets := s.assets[i := a]))
  }

  // ----- deposit

  function Deposit(s: State, u: Account, i: nat, amount: nat, price: Price, lock: bool, now: int): Step {
    if amount == 0 then Err(AmountZero)
    else if s.liquidation then Err(LiquidationOpen)
    else if i >= |s.assets| then Err(AssetUnknown)
    else if s.assets[i].paused then Err(Paused)
    else
      var value :- UsdValue(amount, s.assets[i].decimals, price);
      if value == 0 then Err(AmountZero)
      else if s.totalValue == 0 && s.supply > 0 then Err(InsolventBook)
      else
        var minted :- PreviewDeposit(s, value, now);
        var wallets :- Debit(s.assets[i].wallets, u, amount);
        var supply :- Fits64(s.supply + minted);
        var totalValue :- Fits128(s.totalValue + value);
        var booked := s.(assets := s.assets[i := s.assets[i].(wallets := Credit(wallets, s.grinders, amount))],
                         supply := supply,
                         wallets := Credit(s.wallets, u, minted),
                         totalValue := totalValue);
        if lock then PerformLock(booked, u, minted) else Ok(booked)
  }

  /** Shares for a deposit worth `value`: book shares less the mint premium, never zero. */
  function PreviewDeposit(s: State, value: nat, now: int): Result<nat, Error> {
    var book :- PreviewDepositBook(value, s.supply, s.totalValue);
    var minted := MintPremium.Minted(book, s.config.mintPremiumBpsPerYear, s.mintPremiumAt, now);
    if minted == 0 then Err(AmountZero) else Ok(minted)
  }

  // ----- liquidation

  /** Open the liquidation; GRAI in the vault that nobody locked goes to the caller. */
  function Liquidate(s: State, caller: Account, grinding: bool, now: int): Step {
    if s.liquidation then Err(LiquidationOpen)
    else if !HasQuorum(s.totalVoted, s.supply, s.config.quorumBps) then Err(QuorumNotMet)
    else if grinding then Err(GrindersGrinding)
    else
      var dead := SaturatingSub(s.graiVault, s.totalLocked);
      Ok(s.(graiVault := s.graiVault - dead, wallets := Credit(s.wallets, caller, dead),
            liquidation := true, liquidationAt := now))
  }

  /** The part of a vault that is not reserved for claims. */
  function Redeemable(a: Asset): nat {
    SaturatingSub(a.vault, a.totalClaimable)
  }

  function PayShare(a: Asset, holder: Account, amount: nat, supply: nat): Result<Asset, Error> {
    var share :- PreviewLiquidateShare(Redeemable(a), amount, supply);
    var vault :- FromVault(a.vault, share);
    Ok(a.(vault := vault, wallets := Credit(a.wallets, holder, share)))
  }

  function PayBasket(assets: seq<Asset>, holder: Account, amount: nat, supply: nat): Result<seq<Asset>, Error> {
    if assets == [] then Ok([])
    else
      var first :- PayShare(assets[0], holder, amount, supply);
      var rest :- PayBasket(assets[1..], holder, amount, supply);
      Ok([first] + rest)
  }

  /** Burn GRAI, the wallet's first and then the lock's, for a pro-rata share of every unreserved vault. */
  function Redeem(s: State, holder: Account, amount: nat, now: int): Step {
    var e := EscrowOf(s.escrows, holder);
    var wallet := Balance(s.wallets, holder);
    if !s.liquidation then Err(LiquidationClosed)
    else if now < s.liquidationAt + s.config.liquidationPeriod then Err(LiquidationDelay)
    else if amount == 0 || amount > wallet + e.amount then Err(InvalidAmount)
    else
      var value :- LiquidateValue(amount, s.supply, s.totalValue);
      if value == 0 then Err(AmountZero)
      else
        var burnt :- BurnShares(s, holder, amount);
        var totalValue :- Minus(s.totalValue, value);
        var basket :- PayBasket(burnt.assets, holder, amount, s.supply);
        Ok(burnt.(assets := basket, totalValue := totalValue))
  }

  /** Settle the lock that remains and burn: the wallet's GRAI first, then the lock's. */
  function BurnShares(s: State, holder: Account, amount: nat): Step {
    var e := EscrowOf(s.escrows, holder);
    var wallet := Balance(s.wallets, holder);
    var fromWallet := Min(amount, wallet);
    var fromEscrow := amount - fromWallet;
    var left :- Minus(e.amount, fromEscrow);
    var assets :- SettleAll(s.assets, holder, e.amount, left);
    var shrunk :- if fromEscrow > 0 then ShrinkLock(s, holder, fromEscrow) else Ok(s);
    var graiVault :- FromVault(s.graiVault, fromEscrow);
    var supply :- Minus(s.supply, amount);
    Ok(shrunk.(assets := assets,
               wallets := s.wallets[holder := wallet - fromWallet],
               graiVault := graiVault,
               supply := supply))
  }

  function Sweep(a: Asset, grinders: Account): Asset {
    a.(vault := a.vault - Redeemable(a), wallets := Credit(a.wallets, grinders, Redeemable(a)))
  }

  function Revive(s: State, now: int): Step {
    if !s.liquidation || s.liquidationAt == 0 then Err(LiquidationClosed)
    else if now < s.liquidationAt + s.config.liquidationPeriod + s.config.redeemPeriod then Err(RedeemPeriodActive)
    else
      Ok(s.(assets := seq(|s.assets|, i requires 0 <= i < |s.assets| => Sweep(s.assets[i], s.grinders)),
            totalValue := if s.supply == 0 then 0 else s.totalValue,
            liquidation := false,
            liquidationAt := 0))
  }

  // ----- configuration

  function SetConfig(s: State, cfg: Config): Step {
    if s.liquidation then Err(LiquidationOpen)
    else if cfg.dividendCutBps != s.config.dividendCutBps || cfg.treasuryCutBps != s.config.treasuryCutBps then Err(InvalidCuts)
    else if ValidateConfig(cfg).Fail? then Err(ValidateConfig(cfg).error)
    else Ok(s.(config := cfg))
  }

  /** List a mint for the first time: its index starts at zero and nobody has a position. */
  function ListAsset(s: State, decimals: nat, paused: bool, bribeable: bool): Step {
    Ok(s.(assets := s.assets + [Asset(decimals, paused, bribeable, 0, 0, 0, 0, map[], map[], 0, 0, 0)]))
  }

  // ----- token moves outside the program

  function TransferGrai(s: State, from: Account, to: Account, amount: nat): Step {
    var wallets :- Debit(s.wallets, from, amount);
    Ok(s.(wallets := Credit(wallets, to, amount)))
  }

  function BurnGrai(s: State, u: Account, amount: nat): Step {
    var wallets :- Debit(s.wallets, u, amount);
    var supply :- Minus(s.supply, amount);
    Ok(s.(wallets := wallets, supply := supply))
  }

  /** GRAI sent straight to the vault is locked by nobody. */
  function StrayGrai(s: State, u: Account, amount: nat): Step {
    var wallets :- Debit(s.wallets, u, amount);
    Ok(s.(wallets := wallets, graiVault := s.graiVault + amount))
  }

  function IssueAsset(s: State, i: nat, to: Account, amount: nat): Step {
    if i >= |s.assets| then Err(AssetUnknown)
    else
      var a := s.assets[i];
      Ok(s.(assets := s.assets[i := a.(wallets := Credit(a.wallets, to, amount), issued := a.issued + amount)]))
  }

  function TransferAsset(s: State, i: nat, from: Account, to: Account, amount: nat): Step {
    if i >= |s.assets| then Err(AssetUnknown)
    else
      var wallets :- Debit(s.assets[i].wallets, from, amount);
      Ok(s.(assets := s.assets[i := s.assets[i].(wallets := Credit(wallets, to, amount))]))
  }

  /** Anyone may send tokens to an asset vault; that is also how the liquidation basket is filled. */
  function FillVault(s: State, i: nat, from: Account, amount: nat): Step {
    if i >= |s.assets| then Err(AssetUnknown)
    else
      var a := s.assets[i];
      var wallets :- Debit(a.wallets, from, amount);
      Ok(s.(assets := s.assets[i := a.(wallets := wallets, vault := a.vault + amount)]))
  }
}
