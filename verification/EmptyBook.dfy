/** A book that has value left but no share: when deposits come back, and when they are blocked for good. */
module EmptyBook {
  import opened Prelude
  import opened Arithmetic
  import opened Sums
  import opened Tokenomics
  import L = Ledger
  import opened AssetInvariant
  import opened LedgerInvariant
  import opened LedgerRuns
  import MintPremium

  /** Book value that no share stands for. */
  predicate Orphaned(s: State) {
    s.supply == 0 && s.totalValue > 0
  }

  /** Some run of instructions leads to an accepted deposit. */
  ghost predicate DepositsReturn(s: State) {
    exists ops: seq<Instruction>, op: Instruction :: op.Deposit? && Apply(Run(s, ops), op).Ok?
  }

  /** The liquidation can never be closed: it is not open, or it was opened at time zero. */
  predicate CannotRevive(s: State) {
    !s.liquidation || s.liquidationAt == 0
  }

  // ----- blocked for good

  /** Without shares there are no locks and no votes. */
  lemma NoVotes(s: State)
    requires Inv(s) && s.supply == 0
    ensures s.totalVoted == 0 && s.totalLocked == 0 && forall u :: L.Balance(s.wallets, u) == 0
  {
    forall u
      ensures L.Balance(s.wallets, u) == 0
    {
      SumAtLeast<Account, nat>(s.wallets, u, Whole);
    }
    NothingHeld(s);
    forall u
      ensures L.EscrowOf(s.escrows, u).voted == 0
    {
      LockedAtMostTotal(s.escrows, u);
    }
    assert forall u :: u in s.escrows ==> L.EscrowOf(s.escrows, u) == s.escrows[u];
    SumOfZeros<Account, L.Escrow>(s.escrows, VotedOf);
  }

  lemma NothingHeld(s: State)
    requires Inv(s) && s.supply == 0
    ensures s.totalLocked == 0
  {
    if s.wallets == map[] {
      SumOfZeros<Account, nat>(s.wallets, Whole);
    } else {
      var u :| u in s.wallets;
      SumAtLeast<Account, nat>(s.wallets, u, Whole);
    }
  }

  /** Nothing but closing a liquidation changes an orphaned book or opens or closes a liquidation. */
  lemma OrphanStep(s: State, op: Instruction)
    requires Inv(s) && Orphaned(s) && CannotRevive(s)
    ensures var s' := Exec(s, op);
            && s'.supply == 0 && s'.totalValue == s.totalValue
            && s'.liquidation == s.liquidation && s'.liquidationAt == s.liquidationAt
    ensures op.Deposit? ==> Apply(s, op).Err?
  {
    NoVotes(s);
    hide Inv, L.Redeem, L.Deposit, L.Lock, L.Vote, L.Unlock, L.Bribe, L.Distribute, L.Claim;
    match op
    case Deposit(u, i, amount, price, lock, now) =>
      EmptySupplyBlocksDeposits(s, u, i, amount, price, lock, now);
    case Redeem(u, amount, now) => NothingToRedeem(s, u, amount, now);
    case Lock(_, _) => BookUntouched(s, op);
    case Vote(_, _) => BookUntouched(s, op);
    case Unlock(_, _) => BookUntouched(s, op);
    case Bribe(_, _, _, _, _) => BookUntouched(s, op);
    case Distribute(_, _, _) => BookUntouched(s, op);
    case Claim(_, _, _, _, _, _) => BookUntouched(s, op);
    case _ =>
  }

  /** Locks, votes, bribes, yield and claims leave shares, book value and liquidation alone. */
  lemma BookUntouched(s: State, op: Instruction)
    requires op.Lock? || op.Vote? || op.Unlock? || op.Bribe? || op.Distribute? || op.Claim?
    ensures var s' := Exec(s, op);
            && s'.supply == s.supply && s'.totalValue == s.totalValue
            && s'.liquidation == s.liquidation && s'.liquidationAt == s.liquidationAt
  {
    hide L.SettleAll, L.Debit, L.Credit, L.ClaimAsset, L.PayBribe, L.ShareOut, PreviewUnlock, PreviewBribe;
  }

  lemma NothingToRedeem(s: State, u: Account, amount: nat, now: int)
    requires s.supply == 0
    ensures L.Redeem(s, u, amount, now).Err?
  {
  }

  lemma {:induction false} OrphanRun(s: State, ops: seq<Instruction>)
    requires Inv(s) && Orphaned(s) && CannotRevive(s)
    ensures var end := Run(s, ops);
            && Inv(end) && end.supply == 0 && end.totalValue == s.totalValue
            && end.liquidation == s.liquidation && end.liquidationAt == s.liquidationAt
    ensures forall op: Instruction :: op.Deposit? ==> Apply(Run(s, ops), op).Err?
    decreases |ops|
  {
    hide Exec, Apply, Inv;
    if ops != [] {
      OrphanStep(s, ops[0]);
      ExecKeeps(s, ops[0]);
      OrphanRun(Exec(s, ops[0]), ops[1..]);
    } else {
      forall op: Instruction | op.Deposit?
        ensures Apply(s, op).Err?
      {
        OrphanStep(s, op);
      }
    }
  }

  // ----- and when they return

  /** After the liquidation is closed, an empty book starts again at par: one share for each unit of value. */
  lemma ReviveClearsBook(s: State, now: int, value: nat, later: int)
    requires s.supply == 0 && L.Revive(s, now).Ok?
    ensures var s' := L.Revive(s, now).value;
            && s'.totalValue == 0 && s'.supply == 0 && !s'.liquidation && s'.config == s.config
            && (L.PreviewDeposit(s', value, later).Ok? <==>
                  value <= U64_MAX
                  && MintPremium.Minted(value, s.config.mintPremiumBpsPerYear, s.mintPremiumAt, later) > 0)
  {
    hide Floor, MintPremium.PriceBps, MintPremium.PremiumYears;
  }

  /** The time from which an open liquidation can be closed. */
  function ReviveTime(s: State): int {
    s.liquidationAt + s.config.liquidationPeriod + s.config.redeemPeriod
  }

  /** Close the liquidation, turn the mint premium off, list a fresh asset and give somebody one unit of it. */
  function Restart(s: State): seq<Instruction> {
    [Revive(ReviveTime(s)), SetConfig(s.config.(mintPremiumBpsPerYear := 0)), ListAsset(6, false, false),
     IssueAsset(|s.assets|, 1, 1)]
  }

  /** Worth one dollar unit. */
  function FirstDeposit(s: State): Instruction {
    Deposit(1, |s.assets|, 1, Price(1, 0), false, ReviveTime(s))
  }

  lemma RestartReaches(s: State) returns (end: State)
    requires Inv(s) && Orphaned(s) && !CannotRevive(s)
    ensures end == Run(s, Restart(s))
    ensures end.supply == 0 && end.totalValue == 0 && !end.liquidation && end.config.mintPremiumBpsPerYear == 0
    ensures |end.assets| == |s.assets| + 1
    ensures var a := end.assets[|s.assets|];
            a.decimals == 6 && !a.paused && L.Balance(a.wallets, 1) == 1
  {
    var ops := Restart(s);
    hide Inv, L.Sweep, Run;
    var revived := Exec(s, ops[0]);
    assert revived.supply == 0 && revived.totalValue == 0 && !revived.liquidation && revived.config == s.config;
    assert |revived.assets| == |s.assets|;
    assert ConfigInv(s) by {
      InvConfig(s);
    }
    var premiumOff := Exec(revived, ops[1]);
    assert premiumOff == revived.(config := s.config.(mintPremiumBpsPerYear := 0));
    var listed := Exec(premiumOff, ops[2]);
    end := Exec(listed, ops[3]);
    RunAlong([s, revived, premiumOff, listed, end], ops);
  }

  lemma InvConfig(s: State)
    requires Inv(s)
    ensures ConfigInv(s)
  {
  }

  lemma FirstDepositSucceeds(s: State, i: nat, now: int)
    requires s.supply == 0 && s.totalValue == 0 && !s.liquidation && s.config.mintPremiumBpsPerYear == 0
    requires i < |s.assets|
    requires s.assets[i].decimals == 6 && !s.assets[i].paused && L.Balance(s.assets[i].wallets, 1) == 1
    ensures Apply(s, Deposit(1, i, 1, Price(1, 0), false, now)).Ok?
  {
    assert Pow10(6) == 1_000_000 && Pow10(0) == 1;
    assert UsdValue(1, 6, Price(1, 0)) == Ok(1);
    assert MintPremium.PriceBps(0, 0) == BPS;
    FloorPart(1, BPS, BPS);
  }

  /** With an orphaned book, deposits come back exactly if a liquidation is open that can be closed. */
  lemma DepositsReturnIff(s: State)
    requires Inv(s) && Orphaned(s)
    ensures DepositsReturn(s) <==> s.liquidation && s.liquidationAt != 0
  {
    if CannotRevive(s) {
      forall ops: seq<Instruction>, op: Instruction | op.Deposit?
        ensures Apply(Run(s, ops), op).Err?
      {
        OrphanRun(s, ops);
      }
    } else {
      var end := RestartReaches(s);
      hide Run, Inv;
      FirstDepositSucceeds(end, |s.assets|, ReviveTime(s));
      assert Apply(Run(s, Restart(s)), FirstDeposit(s)).Ok?;
    }
  }
}
