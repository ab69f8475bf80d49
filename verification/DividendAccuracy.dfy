/** What a steady lock earns in a run of the ledger, against its exact pro-rata part of the run's dividends. */
module DividendAccuracy {
  import opened Prelude
  import opened Arithmetic
  import opened Tokenomics
  import L = Ledger
  import opened AssetInvariant
  import opened LedgerInvariant
  import opened LedgerRuns
  import opened DividendTheorems

  /** The dividend part of a shared-out pool. */
  function DividendCut(pool: nat, cfg: Config): nat {
    match SplitCuts(pool, cfg)
    case Ok((_, dividend)) => dividend
    case Err(_) => 0
  }

  /** The pool that a bribe shares out. */
  function BribePool(s: State, op: Instruction): nat
    requires op.Bribe?
  {
    if op.asset >= |s.assets| then 0
    else
      match PreviewBribe(op.amount, s.supply, s.totalValue, s.totalVoted, s.config.quorumBps,
                         s.config.bribePremiumBps, s.assets[op.asset].decimals, op.price)
      case Ok(quote) => (match CutPool(quote) case Ok(pool) => pool case Err(_) => 0)
      case Err(_) => 0
  }

  /** The accrual that an instruction indexes on asset `i`, if it moves the index at all. */
  function AccrualOf(s: State, op: Instruction, i: nat): seq<Accrual> {
    var next := Exec(s, op);
    if i >= |s.assets| || i >= |next.assets| || next.assets[i].accShare == s.assets[i].accShare then []
    else if op.Distribute? then [Accrual(DividendCut(op.amount, s.config), s.totalLocked)]
    else if op.Bribe? then [Accrual(DividendCut(BribePool(s, op), s.config), next.totalLocked)]
    else []
  }

  function AccrualsOf(s: State, ops: seq<Instruction>, i: nat): seq<Accrual>
    decreases |ops|
  {
    if ops == [] then [] else AccrualOf(s, ops[0], i) + AccrualsOf(Exec(s, ops[0]), ops[1..], i)
  }

  lemma ShareOutIndex(a: L.Asset, pool: nat, eligible: nat, cfg: Config)
    requires L.ShareOut(a, pool, eligible, cfg).Ok?
    ensures var r := L.ShareOut(a, pool, eligible, cfg).value;
            r.accShare == a.accShare
            || (eligible > 0 && r.accShare == a.accShare + Floor(DividendCut(pool, cfg), PRECISION, eligible))
  {
    var (treasuryCut, dividendCut) := SplitCuts(pool, cfg).value;
    if dividendCut > 0 {
      DistributeFacts(a, dividendCut, eligible);
    }
    hide L.DistributeDividend, Floor, SplitCuts;
  }

  lemma OneAccrual(share: nat, c: Accrual)
    requires c.eligible > 0
    ensures Indexable([c]) && IndexAfter(share, [c]) == share + Floor(c.amount, PRECISION, c.eligible)
  {
    assert [c][1..] == [];
  }

  lemma DistributeIndex(s: State, op: Instruction, i: nat)
    requires op.Distribute? && Apply(s, op).Ok? && i < |s.assets|
    ensures |Exec(s, op).assets| == |s.assets| && Indexable(AccrualOf(s, op, i))
    ensures IndexAfter(s.assets[i].accShare, AccrualOf(s, op, i)) == Exec(s, op).assets[i].accShare
  {
    var a := s.assets[op.asset];
    var paid := a.(wallets := L.Debit(a.wallets, op.user, op.amount).value, vault := a.vault + op.amount);
    ShareOutIndex(paid, op.amount, s.totalLocked, s.config);
    hide L.ShareOut, L.Debit, Floor, DividendCut, IndexAfter;
    if s.totalLocked > 0 {
      OneAccrual(s.assets[i].accShare, Accrual(DividendCut(op.amount, s.config), s.totalLocked));
    }
    NoAccrual(s.assets[i].accShare);
  }

  lemma NoAccrual(share: nat)
    ensures Indexable([]) && IndexAfter(share, []) == share
  {
  }

  lemma SettleAllIndex(assets: seq<L.Asset>, u: Account, oldLocked: nat, newLocked: nat, i: nat)
    requires L.SettleAll(assets, u, oldLocked, newLocked).Ok? && i < |assets|
    ensures var r := L.SettleAll(assets, u, oldLocked, newLocked).value;
            |r| == |assets| && r[i].accShare == assets[i].accShare
  {
    hide Floor;
  }

  lemma PayBribeIndex(a: L.Asset, briber: Account, voter: Account, quote: Quote, eligible: nat, cfg: Config)
    requires L.PayBribe(a, briber, voter, quote, eligible, cfg).Ok?
    ensures CutPool(quote).Ok?
    ensures var r := L.PayBribe(a, briber, voter, quote, eligible, cfg).value;
            r.accShare == a.accShare
            || (eligible > 0
                && r.accShare == a.accShare + Floor(DividendCut(CutPool(quote).value, cfg), PRECISION, eligible))
  {
    var pool := CutPool(quote).value;
    var paid := a.(wallets := L.Debit(a.wallets, briber, quote.ask).value, vault := a.vault + quote.ask);
    ShareOutIndex(paid, pool, eligible, cfg);
    hide L.ShareOut, L.Debit, CutPool, Floor, DividendCut;
  }

  lemma BribeIndex(s: State, op: Instruction, i: nat)
    requires op.Bribe? && Apply(s, op).Ok? && i < |s.assets|
    ensures |Exec(s, op).assets| == |s.assets| && Indexable(AccrualOf(s, op, i))
    ensures IndexAfter(s.assets[i].accShare, AccrualOf(s, op, i)) == Exec(s, op).assets[i].accShare
  {
    hide L.PayBribe, PreviewBribe, L.SettleAll, L.RemoveFromList, DividendCut, IndexAfter, Floor, CutPool;
    var s' := Exec(s, op);
    var e := L.EscrowOf(s.escrows, op.voter);
    SettleAllIndex(s.assets, op.voter, e.amount, e.amount - op.amount, i);
    var settled := L.SettleAll(s.assets, op.voter, e.amount, e.amount - op.amount).value;
    assert s'.assets == settled[op.asset := s'.assets[op.asset]];
    NoAccrual(s.assets[i].accShare);
    if i == op.asset {
      var quote := PreviewBribe(op.amount, s.supply, s.totalValue, s.totalVoted, s.config.quorumBps,
                                s.config.bribePremiumBps, s.assets[i].decimals, op.price).value;
      PayBribeIndex(settled[i], op.user, op.voter, quote, s'.totalLocked, s.config);
      assert BribePool(s, op) == CutPool(quote).value;
      if s'.totalLocked > 0 {
        OneAccrual(s.assets[i].accShare, Accrual(DividendCut(BribePool(s, op), s.config), s'.totalLocked));
      }
    }
  }

  lemma LockIndex(s: State, v: Account, add: nat, i: nat)
    requires L.PerformLock(s, v, add).Ok? && i < |s.assets|
    ensures var r := L.PerformLock(s, v, add).value;
            |r.assets| == |s.assets| && r.assets[i].accShare == s.assets[i].accShare
  {
    var e := L.EscrowOf(s.escrows, v);
    SettleAllIndex(s.assets, v, e.amount, e.amount + add, i);
    hide L.SettleAll;
  }

  lemma VoteIndex(s: State, v: Account, add: nat, i: nat)
    requires L.PerformVote(s, v, add).Ok? && i < |s.assets|
    ensures var r := L.PerformVote(s, v, add).value;
            |r.assets| == |s.assets| && r.assets[i].accShare == s.assets[i].accShare
  {
    var e := L.EscrowOf(s.escrows, v);
    SettleAllIndex(s.assets, v, e.amount, e.amount, i);
    hide L.SettleAll;
  }

  lemma RedeemIndex(s: State, op: Instruction, i: nat)
    requires op.Redeem? && Apply(s, op).Ok? && i < |s.assets|
    ensures |Exec(s, op).assets| == |s.assets| && Exec(s, op).assets[i].accShare == s.assets[i].accShare
  {
    hide L.SettleAll, L.PayBasket, LiquidateValue, L.ShrinkLock;
    var locked := L.LockedBy(s.escrows, op.user);
    var left := locked - (op.amount - Min(op.amount, L.Balance(s.wallets, op.user)));
    SettleAllIndex(s.assets, op.user, locked, left, i);
    BasketPositions(L.SettleAll(s.assets, op.user, locked, left).value, op.user, op.amount, s.supply, i);
  }

  /** Only distributions and bribes move an index. */
  lemma IndexStands(s: State, op: Instruction, i: nat)
    requires Apply(s, op).Ok? && i < |s.assets| && !op.Distribute? && !op.Bribe?
    ensures |s.assets| <= |Exec(s, op).assets| && Exec(s, op).assets[i].accShare == s.assets[i].accShare
  {
    hide L.SettleAll, L.PerformLock, L.PerformVote, L.Redeem, L.ClaimAsset, L.Settle, UsdValue, L.PreviewDeposit;
    hide PreviewUnlock, L.ShrinkLock;
    match op
    case Deposit(v, j, amount, price, lock, now) => DepositIndex(s, op, i);
    case Lock(v, amount) => LockIndex(s, v, amount, i);
    case Vote(v, amount) =>
      var shortfall := VoteInSteps(s, v, amount);
      hide L.Vote;
      if shortfall > 0 {
        LockIndex(s, v, shortfall, i);
        VoteIndex(L.PerformLock(s, v, shortfall).value, v, amount, i);
      } else {
        VoteIndex(s, v, amount, i);
      }
    case Unlock(v, amount) => UnlockIndex(s, op, i);
    case Claim(v, payer, j, amount, levels, paid) =>
      if i == j {
        var locked := L.LockedBy(s.escrows, v);
        ClaimAssetPositions(s.assets[i], v, payer, locked, amount, s, levels, paid);
        SettleIndex(s.assets[i], v, locked, locked);
      }
    case Redeem(_, _, _) => RedeemIndex(s, op, i);
    case _ =>
  }

  lemma SettleIndex(a: L.Asset, u: Account, oldLocked: nat, newLocked: nat)
    requires L.Settle(a, u, oldLocked, newLocked).Ok?
    ensures L.Settle(a, u, oldLocked, newLocked).value.accShare == a.accShare
  {
    hide Floor;
  }

  lemma UnlockIndex(s: State, op: Instruction, i: nat)
    requires op.Unlock? && Apply(s, op).Ok? && i < |s.assets|
    ensures |Exec(s, op).assets| == |s.assets| && Exec(s, op).assets[i].accShare == s.assets[i].accShare
  {
    hide L.SettleAll, PreviewUnlock, L.RemoveFromList;
    var locked := L.LockedBy(s.escrows, op.user);
    SettleAllIndex(s.assets, op.user, locked, locked - op.amount, i);
  }

  lemma DepositIndex(s: State, op: Instruction, i: nat)
    requires op.Deposit? && Apply(s, op).Ok? && i < |s.assets|
    ensures |Exec(s, op).assets| == |s.assets| && Exec(s, op).assets[i].accShare == s.assets[i].accShare
  {
    hide UsdValue, L.PreviewDeposit, L.PerformLock;
    var a := s.assets[op.asset];
    var value := UsdValue(op.amount, a.decimals, op.price).value;
    var minted := L.PreviewDeposit(s, value, op.now).value;
    var a' := a.(wallets := L.Credit(L.Debit(a.wallets, op.user, op.amount).value, s.grinders, op.amount));
    var booked := s.(assets := s.assets[op.asset := a'], supply := s.supply + minted,
                     wallets := L.Credit(s.wallets, op.user, minted), totalValue := s.totalValue + value);
    if op.lock {
      LockIndex(booked, op.user, minted, i);
    }
  }

  lemma IndexStep(s: State, op: Instruction, i: nat)
    requires i < |s.assets|
    ensures |s.assets| <= |Exec(s, op).assets| && Indexable(AccrualOf(s, op, i))
    ensures IndexAfter(s.assets[i].accShare, AccrualOf(s, op, i)) == Exec(s, op).assets[i].accShare
  {
    NoAccrual(s.assets[i].accShare);
    hide Apply, IndexAfter, Indexable;
    if Apply(s, op).Ok? {
      if op.Distribute? {
        DistributeIndex(s, op, i);
      } else if op.Bribe? {
        BribeIndex(s, op, i);
      } else {
        IndexStands(s, op, i);
      }
    }
  }

  lemma {:induction false} IndexConcat(share: nat, first: seq<Accrual>, rest: seq<Accrual>)
    requires Indexable(first) && Indexable(rest)
    ensures Indexable(first + rest) && IndexAfter(share, first + rest) == IndexAfter(IndexAfter(share, first), rest)
    decreases |first|
  {
    hide Floor;
    if first == [] {
      assert first + rest == rest;
    } else {
      assert (first + rest)[1..] == first[1..] + rest;
      IndexConcat(share + Floor(first[0].amount, PRECISION, first[0].eligible), first[1..], rest);
    }
  }

  /** Over any run the index is exactly what the run's dividends, each floored over the locks of its moment, make it. */
  lemma {:induction false} IndexOfRun(s: State, ops: seq<Instruction>, i: nat)
    requires i < |s.assets|
    ensures |s.assets| <= |Run(s, ops).assets| && Indexable(AccrualsOf(s, ops, i))
    ensures IndexAfter(s.assets[i].accShare, AccrualsOf(s, ops, i)) == Run(s, ops).assets[i].accShare
    decreases |ops|
  {
    NoAccrual(s.assets[i].accShare);
    hide Exec, IndexAfter, Indexable, AccrualOf;
    if ops != [] {
      IndexStep(s, ops[0], i);
      IndexOfRun(Exec(s, ops[0]), ops[1..], i);
      IndexConcat(s.assets[i].accShare, AccrualOf(s, ops[0], i), AccrualsOf(Exec(s, ops[0]), ops[1..], i));
    }
  }

  /**
   * A lock that keeps its size through a run earns, claims included, its exact pro-rata part of every dividend
   * indexed in the run, to within one unit and `locked / 10^18` per dividend, whoever does what in between.
   */
  lemma SteadyLockEarnsProRata(s: State, ops: seq<Instruction>, i: nat, u: Account, locked: nat)
    requires Inv(s) && i < |s.assets| && u in s.assets[i].positions && LockSteady(s, ops, u, locked)
    ensures i < |Run(s, ops).assets| && Indexable(AccrualsOf(s, ops, i))
    ensures var earned := Earned(Run(s, ops).assets[i], u, locked) - Earned(s.assets[i], u, locked);
            var exact := ExactShare(locked, AccrualsOf(s, ops, i));
            exact - Units(|AccrualsOf(s, ops, i)|, locked) - 1.0 < earned as real < exact + 1.0
  {
    hide *;
    CheckpointIndependence(s, ops, i, u, locked);
    IndexOfRun(s, ops, i);
    ProRata(s.assets[i].accShare, locked, AccrualsOf(s, ops, i));
  }
}
