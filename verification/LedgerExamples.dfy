/** Literal runs from `initialize` that reach the states in which a promise meets its limit. */
module LedgerExamples {
  import opened Prelude
  import opened Arithmetic
  import opened Tokenomics
  import L = Ledger
  import opened AssetInvariant
  import opened LedgerRuns
  import opened DividendTheorems
  import opened EmptyBook
  import MintPremium

  const OWNER: Account := 100
  const CUSTODY: Account := 9

  const START: State := Initial(OWNER, 1)
  const FRESH: Asset := L.Asset(6, false, true, 0, 0, 0, 0, map[], map[], 0, 0, 0)
  const ONE_DOLLAR: Price := Price(1, 0)

  // ----- a deposit at par

  /** Account 1 is given `amount` of the first asset and deposits it at a dollar a token, in the first second. */
  function FirstBuyer(amount: nat): seq<Instruction> {
    [ListAsset(6, false, true), IssueAsset(0, 1, amount), Deposit(1, 0, amount, ONE_DOLLAR, false, 1)]
  }

  function Bought(amount: nat): State {
    START.(assets := [FRESH.(wallets := map[1 := 0, OWNER := amount], issued := amount)],
           supply := amount, wallets := map[1 := amount], totalValue := amount)
  }

  lemma ParValue(amount: nat)
    requires amount <= 1_000
    ensures UsdValue(amount, 6, ONE_DOLLAR) == Ok(amount)
    ensures MintPremium.Minted(amount, 500, 1, 1) == amount
  {
    assert Pow10(6) == 1_000_000 && Pow10(0) == 1;
    assert MintPremium.PremiumYears(500, 1, 1) == 0 && MintPremium.PriceBps(500, 0) == BPS;
    FloorPart(amount, BPS, BPS);
  }

  lemma FirstBuyerReaches(amount: nat)
    requires 0 < amount <= 1_000
    ensures Run(START, FirstBuyer(amount)) == Bought(amount)
  {
    var ops := FirstBuyer(amount);
    ParValue(amount);
    var listed := START.(assets := [FRESH]);
    var issued := listed.(assets := [FRESH.(wallets := map[1 := amount], issued := amount)]);
    hide UsdValue, MintPremium.Minted, Run;
    assert Exec(START, ops[0]) == listed;
    assert Exec(listed, ops[1]) == issued;
    assert L.PreviewDeposit(issued, amount, 1) == Ok(amount);
    var spent := L.Debit(issued.assets[0].wallets, 1, amount).value;
    assert spent == map[1 := 0];
    assert L.Credit(spent, OWNER, amount) == map[1 := 0, OWNER := amount];
    assert L.Credit(issued.wallets, 1, amount) == map[1 := amount];
    var booked := Exec(issued, ops[2]);
    assert booked.assets == Bought(amount).assets;
    assert booked == Bought(amount);
    RunAlong([START, listed, issued, Bought(amount)], ops);
  }

  // ----- a book without shares

  /** The only holder burns its shares outside the program. */
  function BurnAll(): seq<Instruction> {
    FirstBuyer(10) + [BurnGrai(1, 10)]
  }

  /** That leaves ten units of book value and no share, with no liquidation open: deposits are blocked for good. */
  lemma BurnAllOrphansTheBook()
    ensures var s := Run(Initial(OWNER, 1), BurnAll());
            Orphaned(s) && s.totalValue == 10 && !s.liquidation && !DepositsReturn(s)
  {
    RunConcat(START, FirstBuyer(10), [BurnGrai(1, 10)]);
    FirstBuyerReaches(10);
    var end := Exec(Bought(10), BurnGrai(1, 10));
    RunAlong([Bought(10), end], [BurnGrai(1, 10)]);
    AlwaysInv(OWNER, 1, BurnAll());
    assert end.supply == 0 && end.totalValue == 10 && !end.liquidation;
    hide Run;
    DepositsReturnIff(end);
  }

  lemma SettleAlone(a: Asset, u: Account, oldLocked: nat, newLocked: nat)
    requires L.Settle(a, u, oldLocked, newLocked).Ok?
    ensures L.SettleAll([a], u, oldLocked, newLocked) == Ok([L.Settle(a, u, oldLocked, newLocked).value])
  {
    hide L.Settle;
    assert forall x :: x in [a] ==> x == a;
    assert L.SettleAll([a], u, oldLocked, newLocked).Ok?;
    var all := L.SettleAll([a], u, oldLocked, newLocked).value;
    assert all == [L.Settle(a, u, oldLocked, newLocked).value];
  }

  /** With no dividend yet, a checkpoint writes an empty position. */
  lemma SettleIdle(a: Asset, u: Account, oldLocked: nat, newLocked: nat)
    requires a.accShare == 0 && L.PositionOf(a, u) == L.NO_POSITION
    ensures L.Settle(a, u, oldLocked, newLocked)
         == Ok(a.(positions := a.positions[u := L.NO_POSITION],
                  resizes := a.resizes + (if oldLocked != newLocked then 1 else 0)))
  {
  }

  /** Account 1 votes seven of ten shares into a liquidation and redeems them; account 2 burns the other three. */
  function BurnDuringLiquidation(): seq<Instruction> {
    [TransferGrai(1, 2, 3), Vote(1, 7), Liquidate(1, false, 2), Redeem(1, 7, 100_000), BurnGrai(2, 3)]
  }

  const VOTED: State := Bought(10).(
    assets := [Bought(10).assets[0].(positions := map[1 := L.NO_POSITION], resizes := 1)],
    wallets := map[1 := 0, 2 := 3], graiVault := 7, escrows := map[1 := L.Escrow(7, 7)],
    lockers := [1], voters := [1], totalLocked := 7, totalVoted := 7)

  const REDEEMED: State := VOTED.(
    assets := [VOTED.assets[0].(resizes := 2)], graiVault := 0, escrows := map[1 := L.Escrow(0, 0)],
    lockers := [], voters := [], totalLocked := 0, totalVoted := 0, supply := 3, totalValue := 3,
    liquidation := true, liquidationAt := 2)

  const LOCKED: State := VOTED.(escrows := map[1 := L.Escrow(7, 0)], voters := [], totalVoted := 0)

  lemma LockReaches()
    ensures L.PerformLock(MOVED, 1, 7) == Ok(LOCKED)
  {
    var s := MOVED;
    SettleIdle(s.assets[0], 1, 0, 7);
    SettleAlone(s.assets[0], 1, 0, 7);
    hide L.Settle, L.SettleAll;
    assert L.SettleAll(s.assets, 1, 0, 7) == Ok(LOCKED.assets);
    assert s.wallets[1 := 0] == LOCKED.wallets;
    assert s.escrows[1 := L.Escrow(7, 0)] == LOCKED.escrows;
    assert s.lockers + [1] == LOCKED.lockers;
  }

  lemma CommitReaches()
    ensures L.PerformVote(LOCKED, 1, 7) == Ok(VOTED)
  {
    SettleIdle(LOCKED.assets[0], 1, 7, 7);
    SettleAlone(LOCKED.assets[0], 1, 7, 7);
    assert LOCKED.assets[0].positions[1 := L.NO_POSITION] == LOCKED.assets[0].positions;
    hide L.Settle, L.SettleAll;
    assert L.SettleAll(LOCKED.assets, 1, 7, 7) == Ok(LOCKED.assets);
    assert LOCKED.escrows[1 := L.Escrow(7, 7)] == VOTED.escrows;
    assert LOCKED.voters + [1] == VOTED.voters;
  }

  lemma VoteReaches()
    ensures Exec(MOVED, Vote(1, 7)) == VOTED
  {
    LockReaches();
    CommitReaches();
    hide L.PerformLock, L.PerformVote, LOCKED, VOTED;
  }

  const IN_LIQUIDATION: State := VOTED.(liquidation := true, liquidationAt := 2)

  lemma LiquidateReaches()
    ensures Exec(VOTED, Liquidate(1, false, 2)) == IN_LIQUIDATION
  {
    assert VOTED.wallets[1 := 0] == VOTED.wallets;
  }

  lemma ShrinkReaches()
    ensures L.ShrinkLock(IN_LIQUIDATION, 1, 7)
         == Ok(IN_LIQUIDATION.(escrows := map[1 := L.Escrow(0, 0)], lockers := [], voters := [], totalLocked := 0,
                               totalVoted := 0))
  {
    assert L.RemoveFromList([1], 1) == [];
    assert IN_LIQUIDATION.escrows[1 := L.Escrow(0, 0)] == map[1 := L.Escrow(0, 0)];
  }

  lemma BurnReaches()
    ensures L.BurnShares(IN_LIQUIDATION, 1, 7) == Ok(REDEEMED.(totalValue := 10))
  {
    var a := IN_LIQUIDATION.assets[0];
    SettleIdle(a, 1, 7, 0);
    SettleAlone(a, 1, 7, 0);
    assert a.positions[1 := L.NO_POSITION] == a.positions;
    ShrinkReaches();
    hide L.Settle, L.SettleAll, L.ShrinkLock;
    assert L.SettleAll(IN_LIQUIDATION.assets, 1, 7, 0) == Ok(REDEEMED.assets);
    assert IN_LIQUIDATION.wallets[1 := 0] == IN_LIQUIDATION.wallets;
  }

  /** The vault is empty, so the basket pays nothing. */
  lemma BasketReaches()
    ensures L.PayBasket(REDEEMED.assets, 1, 7, 10) == Ok(REDEEMED.assets)
  {
    var a := REDEEMED.assets[0];
    assert a.wallets[1 := 0] == a.wallets;
    assert L.PayShare(a, 1, 7, 10) == Ok(a);
    hide L.PayShare;
    assert REDEEMED.assets[1..] == [];
    assert [a] + [] == REDEEMED.assets;
  }

  lemma RedeemReaches()
    ensures Exec(IN_LIQUIDATION, Redeem(1, 7, 100_000)) == REDEEMED
  {
    BurnReaches();
    BasketReaches();
    assert LiquidateValue(7, 10, 10) == Ok(7);
    hide L.BurnShares, L.PayBasket, LiquidateValue;
  }

  const MOVED: State := Bought(10).(wallets := map[1 := 7, 2 := 3])
  const BURNT: State := REDEEMED.(supply := 0, wallets := map[1 := 0, 2 := 0])

  lemma MoveReaches()
    ensures Exec(Bought(10), TransferGrai(1, 2, 3)) == MOVED
  {
    assert map[1 := 10 as nat][1 := 7][2 := 3] == MOVED.wallets;
  }

  lemma LastBurnReaches()
    ensures Exec(REDEEMED, BurnGrai(2, 3)) == BURNT
    ensures Orphaned(BURNT) && BURNT.totalValue == 3 && BURNT.liquidation && BURNT.liquidationAt == 2
  {
    assert REDEEMED.wallets[2 := 0] == BURNT.wallets;
  }

  lemma DuringLiquidation()
    ensures BurnDuringLiquidation()
         == [TransferGrai(1, 2, 3), Vote(1, 7), Liquidate(1, false, 2), Redeem(1, 7, 100_000), BurnGrai(2, 3)]
    ensures START == Initial(OWNER, 1)
  {
  }

  /** The book is orphaned too, but closing the liquidation clears it and deposits come back. */
  lemma BurnDuringLiquidationClears()
    ensures var s := Run(Initial(OWNER, 1), FirstBuyer(10) + BurnDuringLiquidation());
            Orphaned(s) && s.totalValue == 3 && s.liquidation && DepositsReturn(s)
  {
    var ops := BurnDuringLiquidation();
    FirstBuyerReaches(10);
    MoveReaches();
    VoteReaches();
    LiquidateReaches();
    RedeemReaches();
    LastBurnReaches();
    DuringLiquidation();
    hide *;
    RunConcat(START, FirstBuyer(10), ops);
    RunAlong([Bought(10), MOVED, VOTED, IN_LIQUIDATION, REDEEMED, BURNT], ops);
    AlwaysInv(OWNER, 1, FirstBuyer(10) + ops);
    DepositsReturnIff(BURNT);
  }

  // ----- a reserve that falls short

  /** Account 1 hands one of its four shares each to 2, 3 and 4, and the custodian gets six tokens. */
  function HandOut(): seq<Instruction> {
    [TransferGrai(1, 2, 1), TransferGrai(1, 3, 1), TransferGrai(1, 4, 1), IssueAsset(0, CUSTODY, 6)]
  }

  function LockBoth(u: Account, v: Account): seq<Instruction> {
    [Lock(u, 1), Lock(v, 1)]
  }

  /** Half of what is distributed is dividend. */
  function Yield(amount: nat): seq<Instruction> {
    [Distribute(CUSTODY, 0, amount)]
  }

  /** Two lock, two units are distributed, the other two lock, and four more units are distributed. */
  function FourLockers(): seq<Instruction> {
    FirstBuyer(4) + HandOut() + LockBoth(1, 2) + Yield(2) + LockBoth(3, 4) + Yield(4)
  }

  const HELD: Asset := FRESH.(wallets := map[1 := 0, OWNER := 4, CUSTODY := 6], issued := 10)

  const SHARED: State := Bought(4).(assets := [HELD], wallets := map[1 := 1, 2 := 1, 3 := 1, 4 := 1])

  lemma TransferReaches(s: State, u: Account, v: Account, amount: nat)
    requires u != v && L.Balance(s.wallets, u) >= amount
    ensures Exec(s, TransferGrai(u, v, amount))
         == s.(wallets := s.wallets[u := L.Balance(s.wallets, u) - amount][v := L.Balance(s.wallets, v) + amount])
  {
  }

  lemma IssueReaches()
    ensures Exec(SHARED.(assets := Bought(4).assets), IssueAsset(0, CUSTODY, 6)) == SHARED
  {
    assert map[1 := 0 as nat, OWNER := 4][CUSTODY := 6] == HELD.wallets;
  }

  lemma HandOutReaches()
    ensures Run(Bought(4), HandOut()) == SHARED
  {
    hide Exec, Run;
    var s0 := Bought(4);
    var s1 := s0.(wallets := map[1 := 3, 2 := 1]);
    var s2 := s0.(wallets := map[1 := 2, 2 := 1, 3 := 1]);
    var s3 := s0.(wallets := map[1 := 1, 2 := 1, 3 := 1, 4 := 1]);
    TransferReaches(s0, 1, 2, 1);
    assert s0.wallets[1 := 3][2 := 1] == s1.wallets;
    TransferReaches(s1, 1, 3, 1);
    assert s1.wallets[1 := 2][3 := 1] == s2.wallets;
    TransferReaches(s2, 1, 4, 1);
    assert s2.wallets[1 := 1][4 := 1] == s3.wallets;
    IssueReaches();
    RunAlong([s0, s1, s2, s3, SHARED], HandOut());
  }

  /** A first lock of one unit while one unit of GRAI has not earned a whole unit yet. */
  lemma LockOne(s: State, a: Asset, u: Account)
    requires s.assets == [a] && !s.liquidation && u !in s.escrows && u !in a.positions
    requires L.Balance(s.wallets, u) == 1 && s.totalLocked < 10
    requires a.accShare < PRECISION
    ensures Exec(s, Lock(u, 1))
         == s.(assets := [a.(positions := a.positions[u := L.NO_POSITION], resizes := a.resizes + 1)],
               lockers := s.lockers + [u], totalLocked := s.totalLocked + 1,
               escrows := s.escrows[u := L.Escrow(1, 0)], wallets := s.wallets[u := 0], graiVault := s.graiVault + 1)
  {
    assert 1 * a.accShare / PRECISION == 0 && 0 * a.accShare / PRECISION == 0;
    assert L.Settle(a, u, 0, 1)
        == Ok(a.(positions := a.positions[u := L.NO_POSITION], resizes := a.resizes + 1));
    SettleAlone(a, u, 0, 1);
    hide L.Settle, L.SettleAll;
  }

  const HALF: nat := PRECISION / 2

  const TWO: Asset := HELD.(positions := map[1 := L.NO_POSITION, 2 := L.NO_POSITION], resizes := 2)

  const TWO_LOCKED: State := SHARED.(
    assets := [TWO], lockers := [1, 2], totalLocked := 2, graiVault := 2,
    escrows := map[1 := L.Escrow(1, 0), 2 := L.Escrow(1, 0)], wallets := map[1 := 0, 2 := 0, 3 := 1, 4 := 1])

  /** The first dividend of one unit: half a unit of index each, and one unit reserved. */
  const ONE_PAID: Asset := TWO.(
    wallets := map[1 := 0, OWNER := 4, CUSTODY := 4], vault := 1, treasury := 1, accShare := HALF, totalClaimable := 1,
    positions := map[1 := L.NO_POSITION, 2 := L.NO_POSITION, CUSTODY := L.NO_POSITION])

  const FOUR: Asset := ONE_PAID.(
    positions := map[1 := L.NO_POSITION, 2 := L.NO_POSITION, CUSTODY := L.NO_POSITION, 3 := L.NO_POSITION,
                     4 := L.NO_POSITION],
    resizes := 4)

  const FOUR_LOCKED: State := SHARED.(
    assets := [FOUR], lockers := [1, 2, 3, 4], totalLocked := 4, graiVault := 4,
    escrows := map[1 := L.Escrow(1, 0), 2 := L.Escrow(1, 0), 3 := L.Escrow(1, 0), 4 := L.Escrow(1, 0)],
    wallets := map[1 := 0, 2 := 0, 3 := 0, 4 := 0])

  /** The second dividend of two units: another half each, and two units reserved. */
  const TWO_PAID: Asset := FOUR.(
    wallets := map[1 := 0, OWNER := 4, CUSTODY := 0], vault := 3, treasury := 3, accShare := PRECISION,
    totalClaimable := 3)

  lemma TwoLocksReach()
    ensures Run(SHARED, LockBoth(1, 2)) == TWO_LOCKED
  {
    LockOne(SHARED, HELD, 1);
    var a1 := HELD.(positions := map[1 := L.NO_POSITION], resizes := 1);
    var s1 := SHARED.(assets := [a1], lockers := [1], totalLocked := 1, graiVault := 1,
                      escrows := map[1 := L.Escrow(1, 0)], wallets := map[1 := 0, 2 := 1, 3 := 1, 4 := 1]);
    assert SHARED.wallets[1 := 0] == s1.wallets && SHARED.lockers + [1] == s1.lockers;
    assert HELD.positions[1 := L.NO_POSITION] == a1.positions;
    assert SHARED.escrows[1 := L.Escrow(1, 0)] == s1.escrows;
    hide Exec, Run;
    assert Exec(SHARED, Lock(1, 1)) == s1;
    LockOne(s1, a1, 2);
    assert s1.wallets[2 := 0] == TWO_LOCKED.wallets && s1.lockers + [2] == TWO_LOCKED.lockers;
    assert a1.positions[2 := L.NO_POSITION] == TWO.positions;
    assert s1.escrows[2 := L.Escrow(1, 0)] == TWO_LOCKED.escrows;
    assert Exec(s1, Lock(2, 1)) == TWO_LOCKED;
    RunAlong([SHARED, s1, TWO_LOCKED], LockBoth(1, 2));
  }

  lemma OnePaidReaches()
    ensures Exec(TWO_LOCKED, Distribute(CUSTODY, 0, 2)) == TWO_LOCKED.(assets := [ONE_PAID])
  {
    var paid := TWO.(wallets := ONE_PAID.wallets, vault := 2);
    assert TWO.wallets[CUSTODY := 4] == ONE_PAID.wallets;
    assert SplitCuts(2, SHARED.config) == Ok((1, 1));
    assert L.DistributeDividend(paid, 1, 2) == Ok((paid.(accShare := HALF, totalClaimable := 1), 0));
    hide L.DistributeDividend, SplitCuts;
    assert L.ShareOut(paid, 2, 2, SHARED.config)
        == Ok(paid.(accShare := HALF, totalClaimable := 1, vault := 1, treasury := 1));
    hide L.ShareOut;
    assert TWO.positions[CUSTODY := L.NO_POSITION] == ONE_PAID.positions;
  }

  lemma FourLocksReach()
    ensures Run(TWO_LOCKED.(assets := [ONE_PAID]), LockBoth(3, 4)) == FOUR_LOCKED
  {
    var s := TWO_LOCKED.(assets := [ONE_PAID]);
    LockOne(s, ONE_PAID, 3);
    var a3 := ONE_PAID.(positions := map[1 := L.NO_POSITION, 2 := L.NO_POSITION, CUSTODY := L.NO_POSITION,
                                         3 := L.NO_POSITION], resizes := 3);
    var s3 := s.(assets := [a3], lockers := [1, 2, 3], totalLocked := 3, graiVault := 3,
                 escrows := map[1 := L.Escrow(1, 0), 2 := L.Escrow(1, 0), 3 := L.Escrow(1, 0)],
                 wallets := map[1 := 0, 2 := 0, 3 := 0, 4 := 1]);
    assert s.wallets[3 := 0] == s3.wallets && s.lockers + [3] == s3.lockers;
    assert ONE_PAID.positions[3 := L.NO_POSITION] == a3.positions;
    assert s.escrows[3 := L.Escrow(1, 0)] == s3.escrows;
    hide Exec, Run;
    assert Exec(s, Lock(3, 1)) == s3;
    LockOne(s3, a3, 4);
    assert s3.wallets[4 := 0] == FOUR_LOCKED.wallets && s3.lockers + [4] == FOUR_LOCKED.lockers;
    assert a3.positions[4 := L.NO_POSITION] == FOUR.positions;
    assert s3.escrows[4 := L.Escrow(1, 0)] == FOUR_LOCKED.escrows;
    assert Exec(s3, Lock(4, 1)) == FOUR_LOCKED;
    RunAlong([s, s3, FOUR_LOCKED], LockBoth(3, 4));
  }

  lemma TwoPaidReaches()
    ensures Exec(FOUR_LOCKED, Distribute(CUSTODY, 0, 4)) == FOUR_LOCKED.(assets := [TWO_PAID])
  {
    var paid := FOUR.(wallets := TWO_PAID.wallets, vault := 5);
    assert FOUR.wallets[CUSTODY := 0] == TWO_PAID.wallets;
    assert SplitCuts(4, SHARED.config) == Ok((2, 2));
    assert L.DistributeDividend(paid, 2, 4) == Ok((paid.(accShare := PRECISION, totalClaimable := 3), 0));
    hide L.DistributeDividend, SplitCuts;
    assert L.ShareOut(paid, 4, 4, SHARED.config)
        == Ok(paid.(accShare := PRECISION, totalClaimable := 3, vault := 3, treasury := 3));
    hide L.ShareOut;
    assert FOUR.positions[CUSTODY := L.NO_POSITION] == TWO_PAID.positions;
  }

  lemma YieldReaches(s: State, s': State, amount: nat)
    requires Exec(s, Distribute(CUSTODY, 0, amount)) == s'
    ensures Run(s, Yield(amount)) == s'
  {
    hide Exec;
    RunAlong([s, s'], Yield(amount));
  }

  const SHORT: State := FOUR_LOCKED.(assets := [TWO_PAID])

  lemma FourLockersReach()
    ensures Run(START, FourLockers()) == SHORT
  {
    FirstBuyerReaches(4);
    HandOutReaches();
    TwoLocksReach();
    OnePaidReaches();
    FourLocksReach();
    TwoPaidReaches();
    YieldReaches(TWO_LOCKED, TWO_LOCKED.(assets := [ONE_PAID]), 2);
    YieldReaches(FOUR_LOCKED, SHORT, 4);
    assert FourLockers() == FirstBuyer(4) + HandOut() + LockBoth(1, 2) + Yield(2) + LockBoth(3, 4) + Yield(4);
    hide *;
    RunConcat(START, FirstBuyer(4), HandOut());
    RunConcat(START, FirstBuyer(4) + HandOut(), LockBoth(1, 2));
    RunConcat(START, FirstBuyer(4) + HandOut() + LockBoth(1, 2), Yield(2));
    RunConcat(START, FirstBuyer(4) + HandOut() + LockBoth(1, 2) + Yield(2), LockBoth(3, 4));
    RunConcat(START, FirstBuyer(4) + HandOut() + LockBoth(1, 2) + Yield(2) + LockBoth(3, 4), Yield(4));
  }

  /** Four units are pending, one for each locker, but only three are reserved: the cap of a claim does bind. */
  lemma ReserveCanFallShort()
    ensures var s := Run(Initial(OWNER, 1), FourLockers());
            && |s.assets| == 1 && s.assets[0].totalClaimable == 3
            && forall u :: 1 <= u <= 4 ==> u in s.assets[0].positions && Pending(s.assets[0], s.escrows, u) == 1
  {
    FourLockersReach();
    hide Run, FourLockers;
  }
}
