/** The GRAI program as it runs: accounts updated in place, instruction by instruction. */
module GraiProgram {
  import opened Prelude
  import opened Arithmetic
  import opened Tokenomics
  import L = Ledger
  import LedgerRuns
  import MintPremium

  type Account = L.Account
  type Asset = L.Asset
  type Done = Result<(), Error>

  const OK: Done := Ok(())

  /** `r` and the state reached are what the step says; after a failure the state is still to be rolled back. */
  predicate Follows(step: L.Step, r: Done, reached: L.State) {
    match step
    case Ok(next) => r.Ok? && reached == next
    case Err(e) => r == Err(e)
  }

  /** Swap-remove by linear search. */
  method RemoveFromList(list: seq<Account>, key: Account) returns (r: seq<Account>)
    ensures r == L.RemoveFromList(list, key)
  {
    var pos := 0;
    while pos < |list| && list[pos] != key
      invariant 0 <= pos <= |list|
      invariant key !in list[..pos]
    {
      pos := pos + 1;
    }
    r := list;
    if pos < |list| {
      L.IndexInRange(list, key);
      var last := |list| - 1;
      if pos != last {
        r := r[pos := r[last]];
      }
      r := r[..last];
    }
  }

  class Program {
    var totalValue: nat
    var totalLocked: nat
    var totalVoted: nat
    var liquidation: bool
    var liquidationAt: int
    const mintPremiumAt: int
    var config: Config
    const affiliateShareBps: seq<nat>
    const beneficiar: Account
    const grinders: Account
    var lockers: seq<Account>
    var voters: seq<Account>
    var escrows: map<Account, L.Escrow>
    var supply: nat
    var graiVault: nat
    var wallets: map<Account, nat>
    var assets: seq<Asset>

    function Snapshot(): L.State
      reads this
    {
      L.State(totalValue, totalLocked, totalVoted, liquidation, liquidationAt, mintPremiumAt, config,
              affiliateShareBps, beneficiar, grinders, lockers, voters, escrows, supply, graiVault, wallets, assets)
    }

    constructor (owner: Account, now: int)
      ensures Snapshot() == LedgerRuns.Initial(owner, now)
    {
      totalValue, totalLocked, totalVoted := 0, 0, 0;
      liquidation, liquidationAt, mintPremiumAt := false, 0, now;
      config := Config(5_000, 5_000, 500, 100, 200, 6_667, 100, 100, 24 * 60 * 60, 7 * 24 * 60 * 60, 500);
      affiliateShareBps := [8_000, 2_000];
      beneficiar, grinders := owner, owner;
      lockers, voters, escrows := [], [], map[];
      supply, graiVault, wallets, assets := 0, 0, map[], [];
    }

    /** The runtime's rollback of a failed instruction. */
    method Restore(s: L.State)
      requires mintPremiumAt == s.mintPremiumAt && affiliateShareBps == s.affiliateShareBps
      requires beneficiar == s.beneficiar && grinders == s.grinders
      modifies this
      ensures Snapshot() == s
    {
      totalValue, totalLocked, totalVoted := s.totalValue, s.totalLocked, s.totalVoted;
      liquidation, liquidationAt, config := s.liquidation, s.liquidationAt, s.config;
      lockers, voters, escrows := s.lockers, s.voters, s.escrows;
      supply, graiVault, wallets, assets := s.supply, s.graiVault, s.wallets, s.assets;
    }

    // ----- dividends

    /** Checkpoint one position: credit what accrued on the old lock, set the debt for the new one. */
    method Settle(i: nat, u: Account, oldLocked: nat, newLocked: nat) returns (r: Done)
      requires i < |assets|
      modifies this`assets
      ensures match L.Settle(old(assets)[i], u, oldLocked, newLocked)
              case Ok(a) => r.Ok? && assets == old(assets)[i := a]
              case Err(e) => r == Err(e)
    {
      var a := assets[i];
      var isNew := u !in a.positions;
      var p := if isNew then L.NO_POSITION else a.positions[u];
      var effectiveOld := if isNew then 0 else oldLocked;
      var accumulated :- CheckedFloor128(effectiveOld, a.accShare, PRECISION);
      var delta := SaturatingSub(accumulated, p.debt);
      :- Require(delta <= U64_MAX, MathOverflow);
      var claimable :- Fits64(p.claimable + delta);
      p := p.(claimable := claimable);
      var debt :- CheckedFloor128(newLocked, a.accShare, PRECISION);
      p := p.(debt := debt);
      a := a.(positions := a.positions[u := p]);
      if oldLocked != newLocked {
        a := a.(resizes := a.resizes + 1);
      }
      if isNew {
        a := a.(forfeited := a.forfeited + Floor(oldLocked, a.accShare, PRECISION));
      }
      assets := assets[i := a];
      return OK;
    }

    /** `settle_all_pairs` and `settle_all_quads` without payment: every listed asset in turn. */
    method SettleAll(u: Account, oldLocked: nat, newLocked: nat) returns (r: Done)
      modifies this`assets
      ensures match L.SettleAll(old(assets), u, oldLocked, newLocked)
              case Ok(settled) => r.Ok? && assets == settled && |assets| == |old(assets)|
              case Err(e) => r == Err(e)
    {
      ghost var before := assets;
      var i := 0;
      while i < |assets|
        invariant 0 <= i <= |assets| == |before|
        invariant forall j :: 0 <= j < i ==> L.Settle(before[j], u, oldLocked, newLocked) == Ok(assets[j])
        invariant forall j :: i <= j < |before| ==> assets[j] == before[j]
      {
        SettleError(before[i], u, oldLocked, newLocked);
        var settled := Settle(i, u, oldLocked, newLocked);
        if settled.Err? {
          assert before[i] in before;
          return settled;
        }
        i := i + 1;
      }
      assert forall a :: a in before ==> L.Settle(a, u, oldLocked, newLocked).Ok?;
      assert assets == L.SettleAll(before, u, oldLocked, newLocked).value;
      return OK;
    }

    /** Accrue a dividend to everybody's lock through the index; returns what could not be indexed. */
    method DistributeDividend(i: nat, amount: nat, eligible: nat) returns (r: Result<nat, Error>)
      requires i < |assets|
      modifies this`assets
      ensures match L.DistributeDividend(old(assets)[i], amount, eligible)
              case Ok((a, dust)) => r == Ok(dust) && assets == old(assets)[i := a]
              case Err(e) => r == Err(e)
    {
      if amount == 0 {
        return Ok(0);
      }
      var increase := 0;
      if eligible > 0 {
        increase :- CheckedFloor128(amount, PRECISION, eligible);
      }
      if increase == 0 {
        return Ok(amount);
      }
      var oldShare := assets[i].accShare;
      var newShare :- Fits128(oldShare + increase);
      var newMax :- CheckedFloor128(eligible, newShare, PRECISION);
      var oldMax :- CheckedFloor128(eligible, oldShare, PRECISION);
      var reserved := SaturatingSub(newMax, oldMax);
      :- Require(reserved <= U64_MAX, MathOverflow);
      if reserved == 0 {
        return Ok(amount);
      }
      var total :- Fits64(assets[i].totalClaimable + reserved);
      assets := assets[i := assets[i].(accShare := newShare, totalClaimable := total)];
      return Ok(SaturatingSub(amount, reserved));
    }

    /** Split a pool that is in the vault: index the dividend, move the rest to the treasury. */
    method ShareOut(i: nat, pool: nat) returns (r: Done)
      requires i < |assets|
      modifies this`assets
      ensures match L.ShareOut(old(assets)[i], pool, totalLocked, config)
              case Ok(a) => r.Ok? && assets == old(assets)[i := a]
              case Err(e) => r == Err(e)
    {
      var cuts :- SplitCuts(pool, config);
      var (treasuryCut, dividendCut) := cuts;
      hide L.DistributeDividend, SplitCuts;
      var dust := 0;
      if dividendCut > 0 {
        dust :- DistributeDividend(i, dividendCut, totalLocked);
      }
      var toTreasury :- Fits64(treasuryCut + dust);
      var vault :- L.FromVault(assets[i].vault, toTreasury);
      assets := assets[i := assets[i].(vault := vault, treasury := assets[i].treasury + toTreasury)];
      return OK;
    }

    // ----- lock, vote, unlock

    method PerformLock(u: Account, add: nat) returns (r: Done)
      modifies this`assets, this`lockers, this`totalLocked, this`escrows, this`wallets, this`graiVault
      ensures Follows(L.PerformLock(old(Snapshot()), u, add), r, Snapshot())
    {
      hide L.SettleAll;
      :- Require(add > 0, AmountZero);
      var e := L.EscrowOf(escrows, u);
      var newAmount :- Fits64(e.amount + add);
      var _ :- SettleAll(u, e.amount, newAmount);
      var total :- Fits64(totalLocked + add);
      var debited :- L.Debit(wallets, u, add);
      if e.amount == 0 {
        lockers := lockers + [u];
      }
      totalLocked := total;
      escrows := escrows[u := e.(amount := newAmount)];
      wallets, graiVault := debited, graiVault + add;
      return OK;
    }

    method Lock(u: Account, amount: nat) returns (r: Done)
      modifies this`assets, this`lockers, this`totalLocked, this`escrows, this`wallets, this`graiVault
      ensures Follows(L.Lock(old(Snapshot()), u, amount), r, Snapshot())
    {
      hide L.PerformLock;
      :- Require(!liquidation, LiquidationOpen);
      :- Require(amount > 0, AmountZero);
      :- Require(L.Balance(wallets, u) >= amount, InsufficientGrai);
      r := PerformLock(u, amount);
    }

    method PerformVote(u: Account, add: nat) returns (r: Done)
      modifies this`assets, this`voters, this`totalVoted, this`escrows
      ensures Follows(L.PerformVote(old(Snapshot()), u, add), r, Snapshot())
    {
      hide L.SettleAll;
      :- Require(add > 0, AmountZero);
      var e := L.EscrowOf(escrows, u);
      var newVoted :- Fits64(e.voted + add);
      :- Require(e.amount >= newVoted, InvalidAmount);
      var _ :- SettleAll(u, e.amount, e.amount);
      if e.voted == 0 {
        voters := voters + [u];
      }
      var total :- Fits64(totalVoted + add);
      totalVoted := total;
      escrows := escrows[u := e.(voted := newVoted)];
      return OK;
    }

    method Vote(u: Account, amount: nat) returns (r: Done)
      modifies this`assets, this`lockers, this`voters, this`totalLocked, this`totalVoted,
               this`escrows, this`wallets, this`graiVault
      ensures Follows(L.Vote(old(Snapshot()), u, amount), r, Snapshot())
    {
      hide L.PerformLock, L.PerformVote;
      :- Require(amount > 0, AmountZero);
      :- Require(!liquidation, LiquidationOpen);
      var e := L.EscrowOf(escrows, u);
      var need :- Fits64(e.voted + amount);
      if e.amount < need {
        var shortfall := need - e.amount;
        :- Require(L.Balance(wallets, u) >= shortfall, InsufficientGrai);
        var _ :- PerformLock(u, shortfall);
      }
      r := PerformVote(u, amount);
    }

    /** Withdraw the votes above what is still locked. */
    method ClampVote(u: Account) returns (r: Done)
      requires u in escrows
      modifies this`totalVoted, this`escrows, this`voters
      ensures var e := old(escrows)[u];
              var excess := if e.voted > e.amount then e.voted - e.amount else 0;
              if excess > old(totalVoted) then r == Err(MathOverflow)
              else
                && r.Ok?
                && totalVoted == old(totalVoted) - excess
                && escrows == old(escrows)[u := e.(voted := Min(e.voted, e.amount))]
                && voters == if excess > 0 && e.amount == 0 then L.RemoveFromList(old(voters), u) else old(voters)
    {
      var e := escrows[u];
      if e.voted == 0 || e.voted <= e.amount {
        return OK;
      }
      var excess := e.voted - e.amount;
      var total :- Minus(totalVoted, excess);
      totalVoted := total;
      escrows := escrows[u := e.(voted := e.amount)];
      if e.amount == 0 {
        voters := RemoveFromList(voters, u);
      }
      return OK;
    }

    method ShrinkLock(u: Account, amount: nat) returns (r: Done)
      modifies this`totalLocked, this`totalVoted, this`escrows, this`voters, this`lockers
      ensures Follows(L.ShrinkLock(old(Snapshot()), u, amount), r, Snapshot())
    {
      hide L.RemoveFromList;
      var e := L.EscrowOf(escrows, u);
      var left :- Minus(e.amount, amount);
      var total :- Minus(totalLocked, amount);
      totalLocked := total;
      escrows := escrows[u := e.(amount := left)];
      var _ :- ClampVote(u);
      if left == 0 {
        lockers := RemoveFromList(lockers, u);
      }
      return OK;
    }

    method Unlock(u: Account, amount: nat) returns (r: Done)
      modifies this`assets, this`totalLocked, this`totalVoted, this`escrows, this`voters,
               this`lockers, this`graiVault, this`wallets
      ensures Follows(L.Unlock(old(Snapshot()), u, amount), r, Snapshot())
    {
      hide L.SettleAll, L.ShrinkLock, PreviewUnlock;
      var e := L.EscrowOf(escrows, u);
      :- Require(!liquidation, LiquidationOpen);
      :- Require(amount > 0, AmountZero);
      :- Require(amount <= e.amount, InvalidAmount);
      var parts :- PreviewUnlock(amount, e.amount, config.unlockPenaltyBps);
      var (returned, penalty) := parts;
      var _ :- SettleAll(u, e.amount, e.amount - amount);
      assert Snapshot() == old(Snapshot()).(assets := assets);
      ShrinkCommutes(old(Snapshot()), assets, wallets, u, amount);
      var _ :- ShrinkLock(u, amount);
      var vault :- L.FromVault(graiVault, returned + penalty);
      graiVault := vault;
      wallets := L.Credit(wallets, u, returned);
      wallets := L.Credit(wallets, grinders, penalty);
      return OK;
    }

    // ----- bribe

    method Bribe(briber: Account, voter: Account, amount: nat, i: nat, price: Price) returns (r: Done)
      modifies this`assets, this`totalLocked, this`totalVoted, this`escrows, this`voters,
               this`lockers, this`graiVault, this`wallets
      ensures Follows(L.Bribe(old(Snapshot()), briber, voter, amount, i, price), r, Snapshot())
    {
      hide L.TakeVotes, PreviewBribe, L.PayBribe;
      var e := L.EscrowOf(escrows, voter);
      :- Require(i < |assets|, AssetUnknown);
      :- Require(assets[i].bribeable, NotBribeable);
      :- Require(!liquidation, LiquidationOpen);
      :- Require(amount > 0, AmountZero);
      :- Require(amount <= e.voted, InvalidAmount);
      var quote :- PreviewBribe(amount, supply, totalValue, totalVoted, config.quorumBps, config.bribePremiumBps,
                                assets[i].decimals, price);
      var _ :- TakeVotes(briber, voter, amount);
      r := PayBribe(i, briber, voter, quote);
    }

    method RemoveVotes(voter: Account, amount: nat) returns (r: Done)
      modifies this`totalLocked, this`totalVoted, this`escrows, this`voters, this`lockers
      ensures Follows(L.RemoveVotes(old(Snapshot()), voter, amount), r, Snapshot())
    {
      hide L.RemoveFromList;
      var e := L.EscrowOf(escrows, voter);
      var left :- Minus(e.amount, amount);
      var remaining :- Minus(e.voted, amount);
      var voted :- Minus(totalVoted, amount);
      var locked :- Minus(totalLocked, amount);
      totalVoted, totalLocked := voted, locked;
      escrows := escrows[voter := L.Escrow(left, remaining)];
      if remaining == 0 {
        voters := RemoveFromList(voters, voter);
      }
      if left == 0 {
        lockers := RemoveFromList(lockers, voter);
      }
      return OK;
    }

    method TakeVotes(briber: Account, voter: Account, amount: nat) returns (r: Done)
      modifies this`assets, this`totalLocked, this`totalVoted, this`escrows, this`voters,
               this`lockers, this`graiVault, this`wallets
      ensures Follows(L.TakeVotes(old(Snapshot()), briber, voter, amount), r, Snapshot())
    {
      hide L.SettleAll, L.RemoveVotes, L.Credit;
      var e := L.EscrowOf(escrows, voter);
      var left :- Minus(e.amount, amount);
      var _ :- SettleAll(voter, e.amount, left);
      assert Snapshot() == old(Snapshot()).(assets := assets);
      RemoveVotesRest(Snapshot(), voter, amount);
      var _ :- RemoveVotes(voter, amount);
      var vault :- L.FromVault(graiVault, amount);
      graiVault, wallets := vault, L.Credit(wallets, briber, amount);
      return OK;
    }

    method PayBribe(i: nat, briber: Account, voter: Account, quote: Quote) returns (r: Done)
      requires i < |assets|
      modifies this`assets
      ensures match L.PayBribe(old(assets)[i], briber, voter, quote, totalLocked, config)
              case Ok(a) => r.Ok? && assets == old(assets)[i := a]
              case Err(e) => r == Err(e)
    {
      hide L.ShareOut, CutPool;
      var debited :- L.Debit(assets[i].wallets, briber, quote.ask);
      assets := assets[i := assets[i].(wallets := debited, vault := assets[i].vault + quote.ask)];
      var pool :- CutPool(quote);
      var voterCut :- Minus(quote.ask, pool);
      var _ :- ShareOut(i, pool);
      var vault :- L.FromVault(assets[i].vault, voterCut);
      assets := assets[i := assets[i].(vault := vault, wallets := L.Credit(assets[i].wallets, voter, voterCut))];
      return OK;
    }

    // ----- yield and claims

    method Distribute(custody: Account, i: nat, amount: nat) returns (r: Done)
      modifies this`assets
      ensures Follows(L.Distribute(old(Snapshot()), custody, i, amount), r, Snapshot())
    {
      hide L.ShareOut;
      :- Require(amount > 0, AmountZero);
      :- Require(!liquidation, LiquidationOpen);
      :- Require(i < |assets|, AssetUnknown);
      var debited :- L.Debit(assets[i].wallets, custody, amount);
      assets := assets[i := assets[i].(wallets := debited, vault := assets[i].vault + amount)];
      var _ :- ShareOut(i, amount);
      assets := assets[i := assets[i].(positions := assets[i].positions[custody := L.PositionOf(assets[i], custody)])];
      return OK;
    }

    method PayClaim(i: nat, holder: Account, payer: Account, claimed: nat) returns (r: Done)
      requires i < |assets|
      modifies this`assets
      ensures match L.PayClaim(old(assets)[i], holder, payer, claimed, config.claimTipBps)
              case Ok(a) => r.Ok? && assets == old(assets)[i := a]
              case Err(e) => r == Err(e)
    {
      var tip :- BpsOf(claimed, config.claimTipBps);
      var toHolder :- Minus(claimed, tip);
      var vault :- L.FromVault(assets[i].vault, claimed);
      var a := assets[i].(vault := vault);
      if holder == payer {
        a := a.(wallets := L.Credit(a.wallets, holder, claimed));
      } else {
        a := a.(wallets := L.Credit(a.wallets, holder, toHolder));
        a := a.(wallets := L.Credit(a.wallets, payer, tip));
      }
      assert a.wallets == L.Credit(L.Credit(assets[i].wallets, holder, toHolder), payer, tip);
      assets := assets[i := a];
      return OK;
    }

    /** The affiliate walk of a claim; returns the totals paid and retained. */
    method PayLevels(i: nat, revenue: nat, levels: seq<L.Level>) returns (r: Result<(nat, nat), Error>)
      requires i < |assets|
      modifies this`assets
      ensures match L.PayLevels(old(assets)[i], revenue, affiliateShareBps, levels, 0, 0)
              case Ok((a, paid, retained)) => r == Ok((paid, retained)) && assets == old(assets)[i := a]
              case Err(e) => r == Err(e)
    {
      ghost var before := assets;
      var paid, retained, k := 0, 0, 0;
      while k < |affiliateShareBps| && k < |levels| && !levels[k].Stop?
        invariant 0 <= k <= |affiliateShareBps| && k <= |levels|
        invariant |assets| == |before| && assets == before[i := assets[i]]
        invariant L.PayLevels(before[i], revenue, affiliateShareBps, levels, 0, 0)
               == L.PayLevels(assets[i], revenue, affiliateShareBps[k..], levels[k..], paid, retained)
      {
        assert affiliateShareBps[k..][1..] == affiliateShareBps[k + 1..] && levels[k..][1..] == levels[k + 1..];
        var share :- BpsOf(revenue, affiliateShareBps[k]);
        if levels[k].Paid? {
          var treasury :- L.FromVault(assets[i].treasury, share);
          var total :- Fits64(paid + share);
          assets := assets[i := assets[i].(treasury := treasury, wallets := L.Credit(assets[i].wallets, levels[k].to, share))];
          paid := total;
        } else if levels[k].Retained? {
          var total :- Fits64(retained + share);
          retained := total;
        }
        k := k + 1;
      }
      return Ok((paid, retained));
    }

    method DistributeClaimTreasury(i: nat, gross: nat, revenue: nat, levels: seq<L.Level>,
                                   beneficiarPaid: bool) returns (r: Done)
      requires i < |assets|
      modifies this`assets
      ensures match L.TreasuryPayout(old(assets)[i], gross, revenue, affiliateShareBps, levels, beneficiar, beneficiarPaid)
              case Ok(a) => r.Ok? && assets == old(assets)[i := a]
              case Err(e) => r == Err(e)
    {
      hide L.PayLevels;
      if gross == 0 || assets[i].treasury < gross {
        return OK;
      }
      var totals := (0, 0);
      if revenue > 0 {
        totals :- PayLevels(i, revenue, levels);
      }
      var (paid, retained) := totals;
      var afterPaid :- Minus(gross, paid);
      var net :- Minus(afterPaid, retained);
      if net > 0 && beneficiarPaid {
        var treasury :- L.FromVault(assets[i].treasury, net);
        assets := assets[i := assets[i].(treasury := treasury, wallets := L.Credit(assets[i].wallets, beneficiar, net))];
      }
      return OK;
    }

    method Claim(holder: Account, payer: Account, i: nat, amount: nat, levels: seq<L.Level>,
                 beneficiarPaid: bool) returns (r: Done)
      modifies this`assets
      ensures Follows(L.Claim(old(Snapshot()), holder, payer, i, amount, levels, beneficiarPaid), r, Snapshot())
    {
      hide L.Settle, L.PayClaim, L.TreasuryPayout, L.ClaimTreasuryShares;
      :- Require(i < |assets|, AssetUnknown);
      var locked := L.LockedBy(escrows, holder);
      var _ :- Settle(i, holder, locked, locked);
      var p := L.PositionOf(assets[i], holder);
      if p.claimable == 0 {
        return OK;
      }
      var claimed := Min(Min(L.PreviewClaim(amount, p.claimable), assets[i].vault), assets[i].totalClaimable);
      if claimed == 0 {
        return OK;
      }
      var _ :- PayClaim(i, holder, payer, claimed);
      var shares :- L.ClaimTreasuryShares(claimed, config);
      var _ :- DistributeClaimTreasury(i, shares.0, shares.1, levels, beneficiarPaid);
      var left :- Minus(p.claimable, claimed);
      var a := assets[i];
      a := a.(positions := a.positions[holder := L.Position(p.debt, left, p.withdrawn + claimed)]);
      a := a.(totalClaimable := SaturatingSub(a.totalClaimable, claimed));
      assets := assets[i := a];
      return OK;
    }

    // ----- deposit

    /** Shares for a deposit worth `value`. */
    method PreviewDeposit(value: nat, now: int) returns (r: Result<nat, Error>)
      requires config.mintPremiumBpsPerYear <= BPS
      ensures r == L.PreviewDeposit(Snapshot(), value, now)
    {
      hide PreviewDepositBook;
      var book :- PreviewDepositBook(value, supply, totalValue);
      BookFits(value, supply, totalValue);
      var premium := MintPremium.ApplyMintPremium(book, config.mintPremiumBpsPerYear, mintPremiumAt, now);
      r := premium;
      var minted := premium.value;
      :- Require(minted > 0, AmountZero);
    }

    method Deposit(u: Account, i: nat, amount: nat, price: Price, lock: bool, now: int) returns (r: Done)
      requires config.mintPremiumBpsPerYear <= BPS
      modifies this`assets, this`supply, this`wallets, this`totalValue, this`lockers,
               this`totalLocked, this`escrows, this`graiVault
      ensures Follows(L.Deposit(old(Snapshot()), u, i, amount, price, lock, now), r, Snapshot())
    {
      hide L.PerformLock, L.PreviewDeposit, UsdValue, L.Debit, L.Credit, Fits64, Fits128;
      :- Require(amount > 0, AmountZero);
      :- Require(!liquidation, LiquidationOpen);
      :- Require(i < |assets|, AssetUnknown);
      :- Require(!assets[i].paused, Paused);
      var value :- UsdValue(amount, assets[i].decimals, price);
      :- Require(value > 0, AmountZero);
      :- Require(totalValue > 0 || supply == 0, InsolventBook);
      var minted :- PreviewDeposit(value, now);
      var debited :- L.Debit(assets[i].wallets, u, amount);
      assets := assets[i := assets[i].(wallets := L.Credit(debited, grinders, amount))];
      var newSupply :- Fits64(supply + minted);
      supply := newSupply;
      wallets := L.Credit(wallets, u, minted);
      var newValue :- Fits128(totalValue + value);
      totalValue := newValue;
      if lock {
        r := PerformLock(u, minted);
      } else {
        r := OK;
      }
    }

    // ----- liquidation

    method Liquidate(caller: Account, grinding: bool, now: int) returns (r: Done)
      modifies this`graiVault, this`wallets, this`liquidation, this`liquidationAt
      ensures Follows(L.Liquidate(old(Snapshot()), caller, grinding, now), r, Snapshot())
    {
      if liquidation {
        return Err(LiquidationOpen);
      }
      :- Require(HasQuorum(totalVoted, supply, config.quorumBps), QuorumNotMet);
      :- Require(!grinding, GrindersGrinding);
      var dead := SaturatingSub(graiVault, totalLocked);
      graiVault := graiVault - dead;
      wallets := L.Credit(wallets, caller, dead);
      liquidation := true;
      liquidationAt := now;
      return OK;
    }

    /** Pay one redeemer's share out of every vault in turn. */
    method PayBasket(holder: Account, amount: nat, oldSupply: nat) returns (r: Done)
      modifies this`assets
      ensures match L.PayBasket(old(assets), holder, amount, oldSupply)
              case Ok(paid) => r.Ok? && assets == paid
              case Err(e) => r == Err(e)
    {
      hide PreviewLiquidateShare;
      ghost var before := assets;
      var i := 0;
      assert assets[..0] == [] && before[0..] == before;
      PrependNothing(L.PayBasket(before, holder, amount, oldSupply));
      while i < |assets|
        invariant 0 <= i <= |assets| == |before| && assets[i..] == before[i..]
        invariant L.PayBasket(before, holder, amount, oldSupply)
               == Prepend(assets[..i], L.PayBasket(before[i..], holder, amount, oldSupply))
      {
        assert before[i..][0] == assets[i] && before[i..][1..] == before[i + 1..];
        var share :- PreviewLiquidateShare(L.Redeemable(assets[i]), amount, oldSupply);
        var vault :- L.FromVault(assets[i].vault, share);
        var paid := assets[i].(vault := vault, wallets := L.Credit(assets[i].wallets, holder, share));
        PrependOne(assets[..i], paid, L.PayBasket(before[i + 1..], holder, amount, oldSupply));
        assets := assets[i := paid];
        i := i + 1;
        assert assets[..i] == assets[..i - 1] + [paid];
      }
      assert assets[..i] == assets;
      return OK;
    }

    method BurnShares(holder: Account, amount: nat) returns (r: Done)
      modifies this`assets, this`totalLocked, this`totalVoted, this`escrows, this`voters,
               this`lockers, this`graiVault, this`wallets, this`supply
      ensures Follows(L.BurnShares(old(Snapshot()), holder, amount), r, Snapshot())
    {
      hide L.SettleAll, L.ShrinkLock, Minus, L.FromVault;
      var e := L.EscrowOf(escrows, holder);
      var wallet := L.Balance(wallets, holder);
      var fromWallet := Min(amount, wallet);
      var fromEscrow := amount - fromWallet;
      var left :- Minus(e.amount, fromEscrow);
      var _ :- SettleAll(holder, e.amount, left);
      assert Snapshot() == old(Snapshot()).(assets := assets);
      wallets := wallets[holder := wallet - fromWallet];
      ShrinkCommutes(old(Snapshot()), assets, wallets, holder, fromEscrow);
      if fromEscrow > 0 {
        var _ :- ShrinkLock(holder, fromEscrow);
      }
      var vault :- L.FromVault(graiVault, fromEscrow);
      graiVault := vault;
      var rest :- Minus(supply, amount);
      supply := rest;
      return OK;
    }

    method Redeem(holder: Account, amount: nat, now: int) returns (r: Done)
      modifies this`assets, this`totalLocked, this`totalVoted, this`escrows, this`voters, this`lockers,
               this`graiVault, this`wallets, this`supply, this`totalValue
      ensures Follows(L.Redeem(old(Snapshot()), holder, amount, now), r, Snapshot())
    {
      hide L.BurnShares, L.PayBasket, LiquidateValue;
      var e := L.EscrowOf(escrows, holder);
      :- Require(liquidation, LiquidationClosed);
      :- Require(now >= liquidationAt + config.liquidationPeriod, LiquidationDelay);
      :- Require(0 < amount <= L.Balance(wallets, holder) + e.amount, InvalidAmount);
      var oldSupply, oldValue := supply, totalValue;
      var value :- LiquidateValue(amount, oldSupply, oldValue);
      :- Require(value > 0, AmountZero);
      var _ :- BurnShares(holder, amount);
      var book :- Minus(oldValue, value);
      totalValue := book;
      var _ :- PayBasket(holder, amount, oldSupply);
      return OK;
    }

    method Revive(now: int) returns (r: Done)
      modifies this`assets, this`totalValue, this`liquidation, this`liquidationAt
      ensures Follows(L.Revive(old(Snapshot()), now), r, Snapshot())
    {
      if !liquidation || liquidationAt == 0 {
        return Err(LiquidationClosed);
      }
      :- Require(now >= liquidationAt + config.liquidationPeriod + config.redeemPeriod, RedeemPeriodActive);
      hide L.Sweep;
      var i := 0;
      while i < |assets|
        modifies this`assets
        invariant 0 <= i <= |assets| == |old(assets)|
        invariant forall j :: 0 <= j < i ==> assets[j] == L.Sweep(old(assets)[j], grinders)
        invariant forall j :: i <= j < |assets| ==> assets[j] == old(assets)[j]
      {
        var a := assets[i];
        var sweepable := L.Redeemable(a);
        SweepParts(a, grinders);
        assets := assets[i := a.(vault := a.vault - sweepable, wallets := L.Credit(a.wallets, grinders, sweepable))];
        i := i + 1;
      }
      assert assets == seq(|old(assets)|, j requires 0 <= j < |old(assets)| => L.Sweep(old(assets)[j], grinders));
      if supply == 0 {
        totalValue := 0;
      }
      liquidation := false;
      liquidationAt := 0;
      return OK;
    }

    method SetConfig(cfg: Config) returns (r: Done)
      modifies this`config
      ensures Follows(L.SetConfig(old(Snapshot()), cfg), r, Snapshot())
    {
      if liquidation {
        return Err(LiquidationOpen);
      }
      :- Require(cfg.dividendCutBps == config.dividendCutBps && cfg.treasuryCutBps == config.treasuryCutBps, InvalidCuts);
      :- ValidateConfig(cfg);
      config := cfg;
      return OK;
    }

    /** One instruction of the program; a failed one leaves every account as it was. */
    method Execute(op: LedgerRuns.Instruction) returns (r: Done)
      requires config.mintPremiumBpsPerYear <= BPS
      requires op.Deposit? || op.Lock? || op.Vote? || op.Unlock? || op.Bribe? || op.Distribute? || op.Claim?
            || op.Liquidate? || op.Redeem? || op.Revive? || op.SetConfig?
      modifies this
      ensures r.Ok? <==> LedgerRuns.Apply(old(Snapshot()), op).Ok?
      ensures r.Err? ==> LedgerRuns.Apply(old(Snapshot()), op) == Err(r.error)
      ensures Snapshot() == LedgerRuns.Exec(old(Snapshot()), op)
    {
      hide L.Deposit, L.Lock, L.Vote, L.Unlock, L.Bribe, L.Distribute, L.Claim, L.Liquidate, L.Redeem, L.Revive, L.SetConfig;
      var before := Snapshot();
      match op {
        case Deposit(u, i, amount, price, lock, now) => r := Deposit(u, i, amount, price, lock, now);
        case Lock(u, amount) => r := Lock(u, amount);
        case Vote(u, amount) => r := Vote(u, amount);
        case Unlock(u, amount) => r := Unlock(u, amount);
        case Bribe(u, voter, amount, i, price) => r := Bribe(u, voter, amount, i, price);
        case Distribute(u, i, amount) => r := Distribute(u, i, amount);
        case Claim(u, payer, i, amount, levels, paid) => r := Claim(u, payer, i, amount, levels, paid);
        case Liquidate(u, grinding, now) => r := Liquidate(u, grinding, now);
        case Redeem(u, amount, now) => r := Redeem(u, amount, now);
        case Revive(now) => r := Revive(now);
        case SetConfig(cfg) => r := SetConfig(cfg);
      }
      assert Follows(LedgerRuns.Apply(before, op), r, Snapshot());
      if r.Err? {
        Restore(before);
      }
    }
  }

  lemma SettleError(a: Asset, u: Account, oldLocked: nat, newLocked: nat)
    ensures L.Settle(a, u, oldLocked, newLocked).Err? ==> L.Settle(a, u, oldLocked, newLocked) == Err(MathOverflow)
  {
  }

  /** Shrinking a lock neither reads nor changes the assets, the balances or the book. */
  lemma ShrinkCommutes(s: L.State, assets: seq<Asset>, wallets: map<Account, nat>, u: Account, amount: nat)
    ensures match L.ShrinkLock(s, u, amount)
            case Ok(r) =>
              && L.ShrinkLock(s.(assets := assets, wallets := wallets), u, amount) == Ok(r.(assets := assets, wallets := wallets))
              && r == s.(escrows := r.escrows, totalLocked := r.totalLocked, totalVoted := r.totalVoted,
                         lockers := r.lockers, voters := r.voters)
            case Err(e) => L.ShrinkLock(s.(assets := assets, wallets := wallets), u, amount) == Err(e)
  {
    hide L.RemoveFromList;
  }

  lemma RemoveVotesRest(s: L.State, voter: Account, amount: nat)
    ensures L.RemoveVotes(s, voter, amount).Ok? ==>
              L.RemoveVotes(s, voter, amount).value.graiVault == s.graiVault
              && L.RemoveVotes(s, voter, amount).value.wallets == s.wallets
  {
  }

  lemma BookFits(value: nat, supply: nat, totalValue: nat)
    requires PreviewDepositBook(value, supply, totalValue).Ok?
    ensures PreviewDepositBook(value, supply, totalValue).value <= U64_MAX
  {
    hide Floor;
  }

  lemma SweepParts(a: Asset, grinders: Account)
    ensures L.Sweep(a, grinders) == a.(vault := a.vault - L.Redeemable(a), wallets := L.Credit(a.wallets, grinders, L.Redeemable(a)))
  {
  }

  ghost function Prepend(front: seq<Asset>, rest: Result<seq<Asset>, Error>): Result<seq<Asset>, Error> {
    match rest
    case Ok(assets) => Ok(front + assets)
    case Err(e) => Err(e)
  }

  lemma PrependNothing(rest: Result<seq<Asset>, Error>)
    ensures Prepend([], rest) == rest
  {
    if rest.Ok? {
      assert [] + rest.value == rest.value;
    }
  }

  lemma PrependOne(front: seq<Asset>, a: Asset, rest: Result<seq<Asset>, Error>)
    ensures Prepend(front, Prepend([a], rest)) == Prepend(front + [a], rest)
  {
    if rest.Ok? {
      assert front + ([a] + rest.value) == front + [a] + rest.value;
    }
  }
}
