/** What every instruction of the GRAI program keeps, over any run. */
module LedgerInvariant {
  import opened Prelude
  import opened Arithmetic
  import opened Sums
  import opened Tokenomics
  import opened Ledger
  import opened AssetInvariant

  function AmountOf(e: Escrow): int {
    e.amount
  }

  function VotedOf(e: Escrow): int {
    e.voted
  }

  predicate NoDuplicates(list: seq<Account>) {
    forall i, j :: 0 <= i < j < |list| ==> list[i] != list[j]
  }

  /** The totals are the sums over the escrows, and the registries list exactly the lockers and the voters, once each. */
  ghost predicate EscrowsInv(escrows: map<Account, Escrow>, totalLocked: nat, totalVoted: nat,
                             lockers: seq<Account>, voters: seq<Account>)
  {
    && totalLocked == Sum(escrows, AmountOf)
    && totalVoted == Sum(escrows, VotedOf)
    && (forall u :: EscrowOf(escrows, u).voted <= EscrowOf(escrows, u).amount)
    && NoDuplicates(lockers) && NoDuplicates(voters)
    && (forall u :: u in lockers <==> EscrowOf(escrows, u).amount > 0)
    && (forall u :: u in voters <==> EscrowOf(escrows, u).voted > 0)
  }

  /** All GRAI is in a wallet or in the vault, and the vault holds every lock. */
  ghost predicate GraiInv(s: State) {
    s.totalLocked <= s.graiVault && s.supply == s.graiVault + Sum(s.wallets, Whole)
  }

  /** Live shares always have a book value. */
  predicate BookInv(s: State) {
    s.supply > 0 ==> s.totalValue > 0
  }

  predicate ConfigInv(s: State) {
    ValidConfig(s.config) && TotalShares(s.affiliateShareBps) == BPS
  }

  ghost predicate AssetsInv(assets: seq<Asset>, escrows: map<Account, Escrow>, totalLocked: nat, cfg: Config) {
    forall i :: 0 <= i < |assets| ==> AssetInv(assets[i], escrows, totalLocked, cfg)
  }

  ghost predicate Inv(s: State) {
    && ConfigInv(s)
    && EscrowsInv(s.escrows, s.totalLocked, s.totalVoted, s.lockers, s.voters)
    && GraiInv(s)
    && BookInv(s)
    && AssetsInv(s.assets, s.escrows, s.totalLocked, s.config)
  }

  // ----- registries

  /** Swap-remove takes out one key and keeps the others, without duplicates; only the order may change. */
  lemma RemoveFacts(list: seq<Account>, key: Account)
    requires NoDuplicates(list)
    ensures NoDuplicates(RemoveFromList(list, key))
    ensures forall u :: u in RemoveFromList(list, key) <==> u in list && u != key
  {
    if key in list {
      IndexInRange(list, key);
      var k, r := IndexOf(list, key), RemoveFromList(list, key);
      forall u | u in list && u != key
        ensures u in r
      {
        var j :| 0 <= j < |list| && list[j] == u;
        assert r[if j == |list| - 1 then k else j] == u;
      }
      forall u | u in r
        ensures u in list && u != key
      {
        var j :| 0 <= j < |r| && r[j] == u;
        assert u == list[if j == k then |list| - 1 else j];
      }
    }
  }

  /** Appending a key that is not listed yet. */
  lemma AppendFacts(list: seq<Account>, key: Account)
    requires NoDuplicates(list) && key !in list
    ensures NoDuplicates(list + [key])
    ensures forall u :: u in list + [key] <==> u in list || u == key
  {
  }

  // ----- escrows

  lemma EscrowSums(escrows: map<Account, Escrow>, u: Account, e: Escrow)
    ensures Sum(escrows[u := e], AmountOf) == Sum(escrows, AmountOf) - EscrowOf(escrows, u).amount + e.amount
    ensures Sum(escrows[u := e], VotedOf) == Sum(escrows, VotedOf) - EscrowOf(escrows, u).voted + e.voted
    ensures forall v :: EscrowOf(escrows[u := e], v) == if v == u then e else EscrowOf(escrows, v)
  {
    SumUpdate(escrows, u, e, AmountOf);
    SumUpdate(escrows, u, e, VotedOf);
  }

  lemma LockedAtMostTotal(escrows: map<Account, Escrow>, u: Account)
    ensures LockedBy(escrows, u) <= Sum(escrows, AmountOf)
  {
    SumAtLeast(escrows, u, AmountOf);
  }

  /** Replacing one escrow, with the totals and the registries following. */
  lemma ReplaceEscrow(s: State, u: Account, e': Escrow, lockers': seq<Account>, voters': seq<Account>,
                      totalLocked': nat, totalVoted': nat)
    requires EscrowsInv(s.escrows, s.totalLocked, s.totalVoted, s.lockers, s.voters)
    requires e'.voted <= e'.amount
    requires totalLocked' == s.totalLocked - EscrowOf(s.escrows, u).amount + e'.amount
    requires totalVoted' == s.totalVoted - EscrowOf(s.escrows, u).voted + e'.voted
    requires NoDuplicates(lockers') && NoDuplicates(voters')
    requires forall v :: v in lockers' <==> if v == u then e'.amount > 0 else v in s.lockers
    requires forall v :: v in voters' <==> if v == u then e'.voted > 0 else v in s.voters
    ensures EscrowsInv(s.escrows[u := e'], totalLocked', totalVoted', lockers', voters')
    ensures LockedBy(s.escrows, u) <= s.totalLocked
    ensures forall v :: LockedBy(s.escrows[u := e'], v) == if v == u then e'.amount else LockedBy(s.escrows, v)
  {
    LockedAtMostTotal(s.escrows, u);
    EscrowSums(s.escrows, u, e');
    hide Sum, NoDuplicates;
    var escrows' := s.escrows[u := e'];
    forall v
      ensures EscrowOf(escrows', v).voted <= EscrowOf(escrows', v).amount
      ensures v in lockers' <==> EscrowOf(escrows', v).amount > 0
      ensures v in voters' <==> EscrowOf(escrows', v).voted > 0
    {
      assert EscrowOf(escrows', v) == if v == u then e' else EscrowOf(s.escrows, v);
      assert EscrowOf(s.escrows, v).voted <= EscrowOf(s.escrows, v).amount;
    }
  }

  lemma PerformLockEscrows(s: State, u: Account, add: nat)
    requires EscrowsInv(s.escrows, s.totalLocked, s.totalVoted, s.lockers, s.voters)
    requires PerformLock(s, u, add).Ok?
    ensures var r := PerformLock(s, u, add).value;
            && EscrowsInv(r.escrows, r.totalLocked, r.totalVoted, r.lockers, r.voters)
            && LockedBy(s.escrows, u) <= s.totalLocked
            && r.totalLocked == s.totalLocked - LockedBy(s.escrows, u) + LockedBy(r.escrows, u)
            && (forall v :: v != u ==> LockedBy(r.escrows, v) == LockedBy(s.escrows, v))
  {
    hide Sum, SettleAll;
    var e := EscrowOf(s.escrows, u);
    var r := PerformLock(s, u, add).value;
    if e.amount == 0 {
      assert u !in s.lockers;
      AppendFacts(s.lockers, u);
    }
    ReplaceEscrow(s, u, e.(amount := e.amount + add), r.lockers, r.voters, r.totalLocked, r.totalVoted);
  }

  lemma PerformVoteEscrows(s: State, u: Account, add: nat)
    requires EscrowsInv(s.escrows, s.totalLocked, s.totalVoted, s.lockers, s.voters)
    requires PerformVote(s, u, add).Ok?
    ensures var r := PerformVote(s, u, add).value;
            && EscrowsInv(r.escrows, r.totalLocked, r.totalVoted, r.lockers, r.voters)
            && (forall v :: LockedBy(r.escrows, v) == LockedBy(s.escrows, v))
  {
    hide Sum, SettleAll;
    var e := EscrowOf(s.escrows, u);
    var r := PerformVote(s, u, add).value;
    if e.voted == 0 {
      assert u !in s.voters;
      AppendFacts(s.voters, u);
    }
    ReplaceEscrow(s, u, e.(voted := e.voted + add), r.lockers, r.voters, r.totalLocked, r.totalVoted);
  }

  /** Replacing one escrow by a smaller one: emptied rows leave the registries. */
  lemma ShrinkEscrows(s: State, u: Account, e': Escrow, lockers': seq<Account>, voters': seq<Account>,
                      totalLocked': nat, totalVoted': nat)
    requires EscrowsInv(s.escrows, s.totalLocked, s.totalVoted, s.lockers, s.voters)
    requires var e := EscrowOf(s.escrows, u);
             && e'.voted <= e'.amount <= e.amount && e'.voted <= e.voted
             && totalLocked' == s.totalLocked - e.amount + e'.amount
             && totalVoted' == s.totalVoted - e.voted + e'.voted
             && lockers' == (if e'.amount == 0 then RemoveFromList(s.lockers, u) else s.lockers)
             && voters' == (if e'.voted == 0 then RemoveFromList(s.voters, u) else s.voters)
    ensures EscrowsInv(s.escrows[u := e'], totalLocked', totalVoted', lockers', voters')
    ensures LockedBy(s.escrows, u) <= s.totalLocked
    ensures forall v :: LockedBy(s.escrows[u := e'], v) == if v == u then e'.amount else LockedBy(s.escrows, v)
  {
    hide Sum;
    RemoveFacts(s.lockers, u);
    RemoveFacts(s.voters, u);
    hide RemoveFromList;
    ReplaceEscrow(s, u, e', lockers', voters', totalLocked', totalVoted');
  }

  /** Removing a key that is not listed changes nothing, so removing it again is harmless. */
  lemma ShrinkLockFacts(s: State, u: Account, amount: nat)
    requires EscrowsInv(s.escrows, s.totalLocked, s.totalVoted, s.lockers, s.voters)
    requires ShrinkLock(s, u, amount).Ok?
    ensures var r := ShrinkLock(s, u, amount).value;
            && EscrowsInv(r.escrows, r.totalLocked, r.totalVoted, r.lockers, r.voters)
            && LockedBy(s.escrows, u) <= s.totalLocked && amount <= LockedBy(s.escrows, u)
            && LockedBy(r.escrows, u) == LockedBy(s.escrows, u) - amount
            && r.totalLocked == s.totalLocked - amount
            && (forall v :: v != u ==> LockedBy(r.escrows, v) == LockedBy(s.escrows, v))
            && r == s.(escrows := r.escrows, totalLocked := r.totalLocked, totalVoted := r.totalVoted,
                       lockers := r.lockers, voters := r.voters)
  {
    var e := EscrowOf(s.escrows, u);
    var r := ShrinkLock(s, u, amount).value;
    var e' := r.escrows[u];
    hide Sum;
    assert e'.voted == 0 && e.voted == 0 ==> RemoveFromList(s.voters, u) == s.voters;
    ShrinkEscrows(s, u, e', r.lockers, r.voters, r.totalLocked, r.totalVoted);
    assert r.escrows == s.escrows[u := e'];
  }

  // ----- assets

  /** Settling everything for one changed lock keeps the invariant of every asset. */
  lemma SettleAllKeeps(assets: seq<Asset>, u: Account, escrows: map<Account, Escrow>, escrows': map<Account, Escrow>,
                       totalLocked: nat, totalLocked': nat, cfg: Config)
    requires AssetsInv(assets, escrows, totalLocked, cfg)
    requires LockedBy(escrows, u) <= totalLocked
    requires totalLocked' == totalLocked - LockedBy(escrows, u) + LockedBy(escrows', u)
    requires forall v :: v != u ==> LockedBy(escrows', v) == LockedBy(escrows, v)
    requires SettleAll(assets, u, LockedBy(escrows, u), LockedBy(escrows', u)).Ok?
    ensures AssetsInv(SettleAll(assets, u, LockedBy(escrows, u), LockedBy(escrows', u)).value, escrows', totalLocked', cfg)
  {
    var r := SettleAll(assets, u, LockedBy(escrows, u), LockedBy(escrows', u)).value;
    hide Settle, AssetInv;
    forall i | 0 <= i < |r|
      ensures AssetInv(r[i], escrows', totalLocked', cfg)
    {
      assert assets[i] in assets;
      assert r[i] == Settle(assets[i], u, LockedBy(escrows, u), LockedBy(escrows', u)).value;
      SettleKeeps(assets[i], u, LockedBy(escrows', u), escrows, escrows', totalLocked, totalLocked', cfg);
    }
  }

  lemma ReplaceAsset(assets: seq<Asset>, i: nat, a: Asset, escrows: map<Account, Escrow>, totalLocked: nat, cfg: Config)
    requires AssetsInv(assets, escrows, totalLocked, cfg) && i < |assets|
    requires AssetInv(a, escrows, totalLocked, cfg)
    ensures AssetsInv(assets[i := a], escrows, totalLocked, cfg)
  {
    hide AssetInv;
  }

  lemma AssetAt(assets: seq<Asset>, i: nat, escrows: map<Account, Escrow>, totalLocked: nat, cfg: Config)
    requires AssetsInv(assets, escrows, totalLocked, cfg) && i < |assets|
    ensures AssetInv(assets[i], escrows, totalLocked, cfg)
  {
  }

  // ----- instructions

  lemma PerformLockKeeps(s: State, u: Account, add: nat)
    requires Inv(s) && PerformLock(s, u, add).Ok?
    ensures Inv(PerformLock(s, u, add).value)
  {
    var r := PerformLock(s, u, add).value;
    PerformLockEscrows(s, u, add);
    DebitSum(s.wallets, u, add);
    hide Sum, EscrowsInv, AssetsInv;
    assert LockedBy(r.escrows, u) == EscrowOf(s.escrows, u).amount + add;
    SettleAllKeeps(s.assets, u, s.escrows, r.escrows, s.totalLocked, r.totalLocked, s.config);
  }

  lemma LockKeeps(s: State, u: Account, amount: nat)
    requires Inv(s) && Lock(s, u, amount).Ok?
    ensures Inv(Lock(s, u, amount).value)
  {
    PerformLockKeeps(s, u, amount);
  }

  lemma PerformVoteKeeps(s: State, u: Account, add: nat)
    requires Inv(s) && PerformVote(s, u, add).Ok?
    ensures Inv(PerformVote(s, u, add).value)
  {
    var r := PerformVote(s, u, add).value;
    PerformVoteEscrows(s, u, add);
    LockedAtMostTotal(s.escrows, u);
    hide Sum, AssetsInv;
    SettleAllKeeps(s.assets, u, s.escrows, r.escrows, s.totalLocked, r.totalLocked, s.config);
  }

  lemma VoteKeeps(s: State, u: Account, amount: nat)
    requires Inv(s) && Vote(s, u, amount).Ok?
    ensures Inv(Vote(s, u, amount).value)
  {
    hide Inv, PerformLock, PerformVote;
    var e := EscrowOf(s.escrows, u);
    if e.amount < e.voted + amount {
      var shortfall := e.voted + amount - e.amount;
      PerformLockKeeps(s, u, shortfall);
      PerformVoteKeeps(PerformLock(s, u, shortfall).value, u, amount);
    } else {
      PerformVoteKeeps(s, u, amount);
    }
  }

  lemma UnlockKeeps(s: State, u: Account, amount: nat)
    requires Inv(s) && Unlock(s, u, amount).Ok?
    ensures Inv(Unlock(s, u, amount).value)
  {
    var r := Unlock(s, u, amount).value;
    var (returned, penalty) := PreviewUnlock(amount, EscrowOf(s.escrows, u).amount, s.config.unlockPenaltyBps).value;
    assert returned + penalty == amount;
    hide PreviewUnlock;
    var assets := SettleAll(s.assets, u, LockedBy(s.escrows, u), LockedBy(s.escrows, u) - amount).value;
    ShrinkLockFacts(s.(assets := assets), u, amount);
    hide ShrinkLock;
    CreditSum(s.wallets, u, returned);
    CreditSum(Credit(s.wallets, u, returned), s.grinders, penalty);
    hide Sum, AssetsInv, EscrowsInv;
    SettleAllKeeps(s.assets, u, s.escrows, r.escrows, s.totalLocked, r.totalLocked, s.config);
  }

  lemma BribeKeeps(s: State, briber: Account, voter: Account, amount: nat, i: nat, price: Price)
    requires Inv(s) && Bribe(s, briber, voter, amount, i, price).Ok?
    ensures Inv(Bribe(s, briber, voter, amount, i, price).value)
  {
    hide Sum, AssetsInv, PayBribe, PreviewBribe, SettleAll;
    var r := Bribe(s, briber, voter, amount, i, price).value;
    var e := EscrowOf(s.escrows, voter);
    var assets := SettleAll(s.assets, voter, e.amount, e.amount - amount).value;
    ShrinkEscrows(s, voter, Escrow(e.amount - amount, e.voted - amount), r.lockers, r.voters, r.totalLocked, r.totalVoted);
    assert LockedBy(r.escrows, voter) == e.amount - amount;
    SettleAllKeeps(s.assets, voter, s.escrows, r.escrows, s.totalLocked, r.totalLocked, s.config);
    CreditSum(s.wallets, briber, amount);
    hide EscrowsInv;
    var quote := PreviewBribe(amount, s.supply, s.totalValue, s.totalVoted, s.config.quorumBps,
                              s.config.bribePremiumBps, s.assets[i].decimals, price).value;
    SettledLength(s.assets, voter, e.amount, e.amount - amount);
    AssetAt(assets, i, r.escrows, r.totalLocked, s.config);
    PayBribeKeeps(assets[i], briber, voter, quote, r.escrows, r.totalLocked, s.config);
    ReplaceAsset(assets, i, PayBribe(assets[i], briber, voter, quote, r.totalLocked, s.config).value, r.escrows,
                 r.totalLocked, s.config);
  }

  lemma SettledLength(assets: seq<Asset>, u: Account, oldLocked: nat, newLocked: nat)
    requires SettleAll(assets, u, oldLocked, newLocked).Ok?
    ensures |SettleAll(assets, u, oldLocked, newLocked).value| == |assets|
  {
  }

  lemma DistributeStepKeeps(s: State, custody: Account, i: nat, amount: nat)
    requires Inv(s) && Distribute(s, custody, i, amount).Ok?
    ensures Inv(Distribute(s, custody, i, amount).value)
  {
    hide Sum, EscrowsInv, ShareOut;
    var r := Distribute(s, custody, i, amount).value;
    DistributeKeeps(s.assets[i], custody, amount, s.escrows, s.totalLocked, s.config);
    hide AssetInv;
    ReplaceAsset(s.assets, i, r.assets[i], s.escrows, s.totalLocked, s.config);
  }

  lemma ClaimStepKeeps(s: State, holder: Account, payer: Account, i: nat, amount: nat, levels: seq<Level>,
                       beneficiarPaid: bool)
    requires Inv(s) && Claim(s, holder, payer, i, amount, levels, beneficiarPaid).Ok?
    ensures Inv(Claim(s, holder, payer, i, amount, levels, beneficiarPaid).value)
  {
    hide ClaimAsset, Sum;
    var r := Claim(s, holder, payer, i, amount, levels, beneficiarPaid).value;
    LockedAtMostTotal(s.escrows, holder);
    ClaimKeeps(s.assets[i], holder, payer, amount, s, levels, beneficiarPaid);
    hide AssetInv, EscrowsInv;
    ReplaceAsset(s.assets, i, r.assets[i], s.escrows, s.totalLocked, s.config);
  }

  lemma DepositKeeps(s: State, u: Account, i: nat, amount: nat, price: Price, lock: bool, now: int)
    requires Inv(s) && Deposit(s, u, i, amount, price, lock, now).Ok?
    ensures Inv(Deposit(s, u, i, amount, price, lock, now).value)
  {
    hide Sum, EscrowsInv, UsdValue, PreviewDeposit, PerformLock;
    var a := s.assets[i];
    var value := UsdValue(amount, a.decimals, price).value;
    var minted := PreviewDeposit(s, value, now).value;
    var wallets := Debit(a.wallets, u, amount).value;
    DebitSum(a.wallets, u, amount);
    CreditSum(wallets, s.grinders, amount);
    CreditSum(s.wallets, u, minted);
    var a' := a.(wallets := Credit(wallets, s.grinders, amount));
    WalletsKeep(a, a', s.escrows, s.totalLocked, s.config);
    hide AssetInv;
    ReplaceAsset(s.assets, i, a', s.escrows, s.totalLocked, s.config);
    var booked := s.(assets := s.assets[i := a'], supply := s.supply + minted,
                     wallets := Credit(s.wallets, u, minted), totalValue := s.totalValue + value);
    assert Inv(booked) by {
      hide AssetsInv;
    }
    if lock {
      PerformLockKeeps(booked, u, minted);
    }
  }

  lemma LiquidateKeeps(s: State, caller: Account, grinding: bool, now: int)
    requires Inv(s) && Liquidate(s, caller, grinding, now).Ok?
    ensures Inv(Liquidate(s, caller, grinding, now).value)
    ensures Liquidate(s, caller, grinding, now).value.graiVault == s.totalLocked
  {
    CreditSum(s.wallets, caller, SaturatingSub(s.graiVault, s.totalLocked));
    hide Sum, AssetsInv, EscrowsInv;
  }

  lemma {:induction false} PayBasketKeeps(assets: seq<Asset>, holder: Account, amount: nat, supply: nat,
                                          escrows: map<Account, Escrow>, totalLocked: nat, cfg: Config)
    requires AssetsInv(assets, escrows, totalLocked, cfg) && amount <= supply
    requires PayBasket(assets, holder, amount, supply).Ok?
    ensures var r := PayBasket(assets, holder, amount, supply).value;
            && |r| == |assets| && AssetsInv(r, escrows, totalLocked, cfg)
            && forall i :: 0 <= i < |assets| ==> PayShare(assets[i], holder, amount, supply) == Ok(r[i])
  {
    hide AssetInv, PayShare;
    if assets != [] {
      var r := PayBasket(assets, holder, amount, supply).value;
      assert AssetInv(assets[0], escrows, totalLocked, cfg);
      PayShareKeeps(assets[0], holder, amount, supply, escrows, totalLocked, cfg);
      PayBasketKeeps(assets[1..], holder, amount, supply, escrows, totalLocked, cfg);
      assert r == [PayShare(assets[0], holder, amount, supply).value] + PayBasket(assets[1..], holder, amount, supply).value;
      forall i | 0 <= i < |assets|
        ensures PayShare(assets[i], holder, amount, supply) == Ok(r[i]) && AssetInv(r[i], escrows, totalLocked, cfg)
      {
        if i > 0 {
          assert assets[i] == assets[1..][i - 1];
        }
      }
    }
  }

  lemma RedeemKeeps(s: State, holder: Account, amount: nat, now: int)
    requires Inv(s) && Redeem(s, holder, amount, now).Ok?
    ensures Inv(Redeem(s, holder, amount, now).value)
  {
    hide Sum, AssetsInv, LiquidateValue, SettleAll, PayBasket, ShrinkLock;
    var r := Redeem(s, holder, amount, now).value;
    var locked := LockedBy(s.escrows, holder);
    var wallet := Balance(s.wallets, holder);
    var fromEscrow := amount - Min(amount, wallet);
    LockedAtMostTotal(s.escrows, holder);
    DebitSum(s.wallets, holder, Min(amount, wallet));
    if fromEscrow > 0 {
      ShrinkLockFacts(s, holder, fromEscrow);
    }
    RedeemKeepsPrice(amount, s.supply, s.totalValue);
    assert EscrowsInv(r.escrows, r.totalLocked, r.totalVoted, r.lockers, r.voters);
    assert LockedBy(r.escrows, holder) == locked - fromEscrow;
    assert GraiInv(r);
    hide EscrowsInv;
    var assets := SettleAll(s.assets, holder, locked, locked - fromEscrow).value;
    SettleAllKeeps(s.assets, holder, s.escrows, r.escrows, s.totalLocked, r.totalLocked, s.config);
    PayBasketKeeps(assets, holder, amount, s.supply, r.escrows, r.totalLocked, s.config);
  }

  lemma ReviveKeeps(s: State, now: int)
    requires Inv(s) && Revive(s, now).Ok?
    ensures Inv(Revive(s, now).value)
  {
    hide Sum, EscrowsInv, AssetInv, Sweep;
    var r := Revive(s, now).value;
    forall i | 0 <= i < |r.assets|
      ensures AssetInv(r.assets[i], r.escrows, r.totalLocked, r.config)
    {
      SweepKeeps(s.assets[i], s.grinders, s.escrows, s.totalLocked, s.config);
    }
  }

  /** The cuts cannot change, so what the treasury covers does not either. */
  lemma SetConfigKeeps(s: State, cfg: Config)
    requires Inv(s) && SetConfig(s, cfg).Ok?
    ensures Inv(SetConfig(s, cfg).value)
  {
    hide Sum, EscrowsInv, Overhang, Floor;
  }

  lemma ListAssetKeeps(s: State, decimals: nat, paused: bool, bribeable: bool)
    requires Inv(s)
    ensures Inv(ListAsset(s, decimals, paused, bribeable).value)
  {
    hide EscrowsInv;
    var r := ListAsset(s, decimals, paused, bribeable).value;
    assert AssetInv(r.assets[|s.assets|], s.escrows, s.totalLocked, s.config);
    hide AssetInv, Sum;
  }
}
