/** Guarantees over whole runs of the GRAI program. */
module LedgerTheorems {
  import opened Prelude
  import opened Arithmetic
  import opened Sums
  import opened Tokenomics
  import L = Ledger
  import opened AssetInvariant
  import opened LedgerInvariant
  import opened LedgerRuns

  // ----- book value per share

  /** Book value per share does not fall: `value' / supply' >= value / supply`, multiplied out. */
  predicate PriceHolds(s: State, s': State) {
    s'.totalValue * s.supply >= s.totalValue * s'.supply
  }

  lemma DepositPrice(s: State, op: Instruction)
    requires op.Deposit? && Apply(s, op).Ok? && s.supply > 0
    ensures PriceHolds(s, Exec(s, op))
  {
    hide Floor, L.SettleAll, L.Debit, L.Credit;
    var value := UsdValue(op.amount, s.assets[op.asset].decimals, op.price).value;
    var minted := L.PreviewDeposit(s, value, op.now).value;
    DepositKeepsPrice(value, s.supply, s.totalValue, minted);
    hide UsdValue, L.PreviewDeposit;
  }

  lemma PriceStep(s: State, op: Instruction)
    requires s.supply > 0
    ensures PriceHolds(s, Exec(s, op))
  {
    hide Floor, L.SettleAll, L.Debit, L.Credit, L.ClaimAsset, L.PayBribe, L.ShareOut, L.PayBasket;
    if Apply(s, op).Ok? {
      if op.Deposit? {
        DepositPrice(s, op);
      } else if op.Redeem? {
        RedeemKeepsPrice(op.amount, s.supply, s.totalValue);
      } else if op.BurnGrai? {
        MulMono(s.supply - op.amount, s.supply, s.totalValue);
      } else {
        hide PreviewUnlock, PreviewBribe, UsdValue;
        assert Exec(s, op).totalValue == s.totalValue && Exec(s, op).supply == s.supply;
      }
    }
  }

  ghost predicate SupplyStaysPositive(s: State, ops: seq<Instruction>)
    decreases |ops|
  {
    s.supply > 0 && (ops == [] || SupplyStaysPositive(Exec(s, ops[0]), ops[1..]))
  }

  /** Over any run in which shares stay outstanding, the book value of a share never falls. */
  lemma {:induction false} PriceNeverFalls(s: State, ops: seq<Instruction>)
    requires SupplyStaysPositive(s, ops)
    ensures PriceHolds(s, Run(s, ops))
    decreases |ops|
  {
    hide Exec;
    if ops != [] {
      var next := Exec(s, ops[0]);
      PriceStep(s, ops[0]);
      PriceNeverFalls(next, ops[1..]);
      var end := Run(next, ops[1..]);
      RatioTransitive(s.totalValue, s.supply, next.totalValue, next.supply, end.totalValue, end.supply);
    }
  }

  // ----- redemption

  /** The claim reserve of every asset is in its vault. */
  lemma ReserveBacked(s: State, i: nat)
    requires Inv(s) && i < |s.assets|
    ensures s.assets[i].totalClaimable <= s.assets[i].vault
  {
    assert AssetInv(s.assets[i], s.escrows, s.totalLocked, s.config);
  }

  /** What an asset's basket holds per outstanding share does not fall, multiplied out. */
  predicate BasketHolds(s: State, s': State, i: nat)
    requires i < |s.assets| <= |s'.assets|
  {
    L.Redeemable(s'.assets[i]) * s.supply >= L.Redeemable(s.assets[i]) * s'.supply
  }

  predicate BasketsHold(s: State, s': State) {
    && |s.assets| <= |s'.assets|
    && (forall i :: 0 <= i < |s.assets| ==> BasketHolds(s, s', i))
    && s'.supply <= s.supply
    && s'.liquidation
  }

  lemma RedeemBasket(s: State, op: Instruction)
    requires op.Redeem? && Apply(s, op).Ok? && Inv(s)
    ensures BasketsHold(s, Exec(s, op))
  {
    hide Sum, Floor, EscrowsInv, LiquidateValue, L.SettleAll, L.PayBasket, L.ShrinkLock, L.Redeemable;
    var s' := Exec(s, op);
    RedeemKeeps(s, op.user, op.amount, op.now);
    var locked := L.LockedBy(s.escrows, op.user);
    var fromEscrow := op.amount - Min(op.amount, L.Balance(s.wallets, op.user));
    if fromEscrow > 0 {
      ShrinkLockFacts(s, op.user, fromEscrow);
    }
    var settled := L.SettleAll(s.assets, op.user, locked, locked - fromEscrow).value;
    SettledLength(s.assets, op.user, locked, locked - fromEscrow);
    SettleAllReserves(s.assets, op.user, locked, locked - fromEscrow);
    BasketRatios(settled, op.user, op.amount, s.supply);
    assert s'.assets == L.PayBasket(settled, op.user, op.amount, s.supply).value;
    forall i | 0 <= i < |s.assets|
      ensures BasketHolds(s, s', i)
    {
      assert L.Redeemable(settled[i]) == L.Redeemable(s.assets[i]);
    }
  }

  lemma SettleAllReserves(assets: seq<Asset>, u: Account, oldLocked: nat, newLocked: nat)
    requires L.SettleAll(assets, u, oldLocked, newLocked).Ok?
    ensures var r := L.SettleAll(assets, u, oldLocked, newLocked).value;
            && |r| == |assets|
            && forall i :: 0 <= i < |r| ==> L.Redeemable(r[i]) == L.Redeemable(assets[i])
  {
  }

  lemma {:induction false} BasketRatios(assets: seq<Asset>, holder: Account, amount: nat, supply: nat)
    requires amount <= supply && L.PayBasket(assets, holder, amount, supply).Ok?
    ensures var r := L.PayBasket(assets, holder, amount, supply).value;
            && |r| == |assets|
            && forall i :: 0 <= i < |r| ==> L.Redeemable(r[i]) * supply >= L.Redeemable(assets[i]) * (supply - amount)
  {
    if assets != [] {
      var a, r := assets[0], L.PayBasket(assets, holder, amount, supply).value;
      ShareBounds(L.Redeemable(a), amount, supply);
      hide Floor, PreviewLiquidateShare;
      assert L.Redeemable(r[0]) == L.Redeemable(a) - PreviewLiquidateShare(L.Redeemable(a), amount, supply).value;
      BasketRatios(assets[1..], holder, amount, supply);
      hide L.Redeemable, L.PayShare;
      forall i | 0 <= i < |r|
        ensures L.Redeemable(r[i]) * supply >= L.Redeemable(assets[i]) * (supply - amount)
      {
        if i > 0 {
          assert r[i] == L.PayBasket(assets[1..], holder, amount, supply).value[i - 1] && assets[i] == assets[1..][i - 1];
        }
      }
    }
  }

  /** While the liquidation is open, nothing but `revive` makes a share's part of any basket smaller. */
  lemma BasketStep(s: State, op: Instruction)
    requires Inv(s) && s.liquidation && !op.Revive?
    ensures BasketsHold(s, Exec(s, op))
  {
    var s' := Exec(s, op);
    hide Sum, Floor, EscrowsInv, AssetInv, L.SettleAll, L.ShareOut, L.ClaimAsset, L.PayBribe;
    if Apply(s, op).Ok? {
      match op
      case Redeem(_, _, _) =>
        RedeemBasket(s, op);
      case Claim(u, payer, i, amount, levels, paid) =>
        LockedAtMostTotal(s.escrows, u);
        ClaimKeeps(s.assets[i], u, payer, amount, s, levels, paid) by {
          assert AssetInv(s.assets[i], s.escrows, s.totalLocked, s.config);
          TotalsAgree(s);
        }
      case BurnGrai(u, amount) =>
        forall i | 0 <= i < |s.assets|
          ensures BasketHolds(s, s', i)
        {
          MulMono(s.supply - amount, s.supply, L.Redeemable(s.assets[i]));
        }
      case FillVault(j, _, amount) =>
        forall i | 0 <= i < |s.assets|
          ensures BasketHolds(s, s', i)
        {
          MulMono(L.Redeemable(s.assets[i]), L.Redeemable(s'.assets[i]), s.supply);
        }
      case _ =>
    }
  }

  lemma TotalsAgree(s: State)
    requires Inv(s)
    ensures s.totalLocked == Sum(s.escrows, AmountOf)
  {
  }

  /**
   * Any run of redemptions, claims and token moves during a liquidation: each asset's basket per share never
   * falls for whoever has not redeemed yet.
   */
  lemma {:induction false} BasketNeverFalls(s: State, ops: seq<Instruction>)
    requires Inv(s) && s.liquidation && (forall op :: op in ops ==> !op.Revive?)
    ensures BasketsHold(s, Run(s, ops))
    decreases |ops|
  {
    hide Exec, Inv, L.Redeemable;
    if ops != [] {
      var next := Exec(s, ops[0]);
      ExecKeeps(s, ops[0]);
      BasketStep(s, ops[0]);
      BasketNeverFalls(next, ops[1..]);
      var end := Run(next, ops[1..]);
      forall i | 0 <= i < |s.assets|
        ensures BasketHolds(s, end, i)
      {
        assert BasketHolds(s, next, i) && BasketHolds(next, end, i);
        if next.supply > 0 {
          RatioTransitive(L.Redeemable(s.assets[i]), s.supply, L.Redeemable(next.assets[i]), next.supply,
                          L.Redeemable(end.assets[i]), end.supply);
        }
      }
    }
  }

  /** Whoever redeems later gets at least what the same amount was worth at the start. */
  lemma LaterRedeemPaysNoLess(s: State, ops: seq<Instruction>, i: nat, amount: nat)
    requires Inv(s) && s.liquidation && (forall op :: op in ops ==> !op.Revive?)
    requires i < |s.assets| && Run(s, ops).supply > 0
    ensures i < |Run(s, ops).assets| && Run(s, ops).supply <= s.supply
    ensures Floor(L.Redeemable(Run(s, ops).assets[i]), amount, Run(s, ops).supply)
         >= Floor(L.Redeemable(s.assets[i]), amount, s.supply)
  {
    BasketNeverFalls(s, ops);
    var end := Run(s, ops);
    assert BasketHolds(s, end, i);
    hide Run, Inv, L.Redeemable;
    FloorRatio(L.Redeemable(s.assets[i]), s.supply, L.Redeemable(end.assets[i]), end.supply, amount);
  }

  /** Burning the whole supply empties every vault down to the claim reserve, and closes the book. */
  lemma LastRedeemLeavesReserve(s: State, op: Instruction, i: nat)
    requires Inv(s) && op.Redeem? && Apply(s, op).Ok? && op.amount == s.supply && i < |s.assets|
    ensures i < |Exec(s, op).assets|
    ensures Exec(s, op).assets[i].vault == Exec(s, op).assets[i].totalClaimable == s.assets[i].totalClaimable
    ensures Exec(s, op).totalValue == 0 && Exec(s, op).supply == 0
  {
    hide Sum, Floor, EscrowsInv, AssetInv, LiquidateValue, L.SettleAll, L.PayBasket, L.ShrinkLock;
    var s' := Exec(s, op);
    RedeemKeepsPrice(op.amount, s.supply, s.totalValue);
    RedeemKeeps(s, op.user, op.amount, op.now);
    RedeemBasket(s, op);
    ReserveBacked(s, i);
    var locked := L.LockedBy(s.escrows, op.user);
    var fromEscrow := op.amount - Min(op.amount, L.Balance(s.wallets, op.user));
    var settled := L.SettleAll(s.assets, op.user, locked, locked - fromEscrow).value;
    SettledReserve(s.assets, op.user, locked, locked - fromEscrow, i);
    LastBasket(settled, op.user, s.supply, i);
  }

  lemma SettledReserve(assets: seq<Asset>, u: Account, oldLocked: nat, newLocked: nat, i: nat)
    requires L.SettleAll(assets, u, oldLocked, newLocked).Ok? && i < |assets|
    ensures var r := L.SettleAll(assets, u, oldLocked, newLocked).value;
            && |r| == |assets| && r[i].totalClaimable == assets[i].totalClaimable && r[i].vault == assets[i].vault
  {
  }

  lemma {:induction false} LastBasket(assets: seq<Asset>, holder: Account, supply: nat, i: nat)
    requires L.PayBasket(assets, holder, supply, supply).Ok? && i < |assets| && supply > 0
    ensures var r := L.PayBasket(assets, holder, supply, supply).value;
            && |r| == |assets| && r[i].totalClaimable == assets[i].totalClaimable
            && r[i].vault == Min(assets[i].vault, assets[i].totalClaimable)
    decreases |assets|
  {
    hide Floor;
    BasketRatios(assets, holder, supply, supply);
    if i == 0 {
      ShareBounds(L.Redeemable(assets[0]), supply, supply);
      hide PreviewLiquidateShare;
    } else {
      LastBasket(assets[1..], holder, supply, i - 1);
      hide L.PayShare;
    }
  }

  // ----- claims

  /**
   * In a reachable state a claim that settles goes through: the vault never caps it, the treasury always holds
   * its share, and no payout subtraction fails, whatever becomes of the affiliate levels.
   */
  lemma ClaimAlwaysPays(s: State, op: Instruction)
    requires Inv(s) && op.Claim? && op.asset < |s.assets|
    requires var a := s.assets[op.asset]; a.totalClaimable <= U64_MAX && a.treasury <= U64_MAX
    requires var locked := L.LockedBy(s.escrows, op.user); L.Settle(s.assets[op.asset], op.user, locked, locked).Ok?
    ensures Apply(s, op).Ok?
    ensures var locked := L.LockedBy(s.escrows, op.user);
            var settled := L.Settle(s.assets[op.asset], op.user, locked, locked).value;
            var pending := L.PositionOf(settled, op.user).claimable;
            L.Claimed(settled, op.amount, pending) == Min(L.PreviewClaim(op.amount, pending), settled.totalClaimable)
  {
    var a, locked := s.assets[op.asset], L.LockedBy(s.escrows, op.user);
    TotalsAgree(s);
    LockedAtMostTotal(s.escrows, op.user);
    AssetAt(s.assets, op.asset, s.escrows, s.totalLocked, s.config);
    SettleFacts(a, op.user, locked, locked);
    var settled := L.Settle(a, op.user, locked, locked).value;
    hide L.Settle, Sum, EscrowsInv, AssetsInv, Overhang;
    assert s.config.claimTipBps <= MAX_CLAIM_TIP_BPS && TotalShares(s.affiliateShareBps) == BPS;
    var claimed := L.Claimed(settled, op.amount, L.PositionOf(settled, op.user).claimable);
    if claimed > 0 {
      ClaimIsFunded(settled, claimed, s.config);
      TipFits(settled, op.user, op.payer, claimed, s.config.claimTipBps);
      hide Floor, ValidConfig, ValidateConfig;
      PayClaimFacts(settled, op.user, op.payer, claimed, s.config.claimTipBps);
      var paid := L.PayClaim(settled, op.user, op.payer, claimed, s.config.claimTipBps).value;
      var (gross, revenue) := L.ClaimTreasuryShares(claimed, s.config).value;
      TreasuryPayoutSucceeds(paid, gross, revenue, s.affiliateShareBps, op.levels, s.beneficiar, op.beneficiarPaid);
      hide L.PayClaim, L.ClaimTreasuryShares, L.TreasuryPayout;
    }
  }

  lemma TipFits(a: Asset, holder: Account, payer: Account, claimed: nat, tipBps: nat)
    requires claimed <= U64_MAX && claimed <= a.vault && tipBps <= MAX_CLAIM_TIP_BPS
    ensures L.PayClaim(a, holder, payer, claimed, tipBps).Ok?
  {
    MulMono(claimed, U64_MAX, tipBps);
    FloorPart(claimed, tipBps, BPS);
  }
}
