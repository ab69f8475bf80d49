/** What each instruction does for the people involved, and that it does nothing to anybody else. */
module LedgerEffects {
  import opened Prelude
  import opened Arithmetic
  import opened Tokenomics
  import L = Ledger
  import opened AssetInvariant
  import opened LedgerInvariant
  import opened LedgerRuns
  import MintPremium

  function Grai(s: State, u: Account): nat {
    L.Balance(s.wallets, u)
  }

  function Locked(s: State, u: Account): nat {
    L.LockedBy(s.escrows, u)
  }

  function Voted(s: State, u: Account): nat {
    L.EscrowOf(s.escrows, u).voted
  }

  function Tokens(s: State, i: nat, u: Account): nat
    requires i < |s.assets|
  {
    L.Balance(s.assets[i].wallets, u)
  }

  /** Nobody's lock or vote changed but `u`'s. */
  ghost predicate OthersLocksKept(s: State, s': State, u: Account) {
    forall v :: v != u ==> Locked(s', v) == Locked(s, v) && Voted(s', v) == Voted(s, v)
  }

  /** Nobody's GRAI balance changed but those of `us`. */
  ghost predicate OthersGraiKept(s: State, s': State, us: set<Account>) {
    forall v :: v !in us ==> Grai(s', v) == Grai(s, v)
  }

  /** Shares and book value are untouched. */
  predicate BookKept(s: State, s': State) {
    s'.supply == s.supply && s'.totalValue == s.totalValue
  }

  lemma PerformLockDoes(s: State, u: Account, add: nat)
    requires L.PerformLock(s, u, add).Ok?
    ensures var s' := L.PerformLock(s, u, add).value;
            && Locked(s', u) == Locked(s, u) + add && Voted(s', u) == Voted(s, u)
            && Grai(s', u) + add == Grai(s, u) && s'.graiVault == s.graiVault + add
            && OthersLocksKept(s, s', u) && OthersGraiKept(s, s', {u}) && BookKept(s, s')
            && s'.liquidation == s.liquidation
  {
    hide L.SettleAll;
  }

  /** Locking moves GRAI from the wallet into the lock. */
  lemma LockDoes(s: State, u: Account, amount: nat)
    requires L.Lock(s, u, amount).Ok?
    ensures var s' := L.Lock(s, u, amount).value;
            && !s.liquidation && 0 < amount <= Grai(s, u)
            && Locked(s', u) == Locked(s, u) + amount && Voted(s', u) == Voted(s, u)
            && Grai(s', u) + amount == Grai(s, u) && s'.graiVault == s.graiVault + amount
            && OthersLocksKept(s, s', u) && OthersGraiKept(s, s', {u}) && BookKept(s, s')
  {
    hide L.PerformLock;
    PerformLockDoes(s, u, amount);
  }

  lemma PerformVoteDoes(s: State, u: Account, add: nat)
    requires L.PerformVote(s, u, add).Ok?
    ensures var s' := L.PerformVote(s, u, add).value;
            && Locked(s', u) == Locked(s, u) && Voted(s', u) == Voted(s, u) + add <= Locked(s, u)
            && s'.wallets == s.wallets && s'.graiVault == s.graiVault
            && OthersLocksKept(s, s', u) && BookKept(s, s')
  {
    hide L.SettleAll;
  }

  /** Voting adds to the vote, and locks from the wallet exactly what the vote exceeds the lock by. */
  lemma VoteDoes(s: State, u: Account, amount: nat)
    requires L.Vote(s, u, amount).Ok?
    ensures var s' := L.Vote(s, u, amount).value;
            && !s.liquidation && amount > 0 && Voted(s', u) == Voted(s, u) + amount
            && Locked(s', u) == (if Voted(s', u) > Locked(s, u) then Voted(s', u) else Locked(s, u))
            && Grai(s', u) + (Locked(s', u) - Locked(s, u)) == Grai(s, u)
            && s'.graiVault == s.graiVault + (Locked(s', u) - Locked(s, u))
            && OthersLocksKept(s, s', u) && OthersGraiKept(s, s', {u}) && BookKept(s, s')
  {
    hide L.PerformLock, L.PerformVote;
    var e := L.EscrowOf(s.escrows, u);
    if e.amount < e.voted + amount {
      PerformLockDoes(s, u, e.voted + amount - e.amount);
      PerformVoteDoes(L.PerformLock(s, u, e.voted + amount - e.amount).value, u, amount);
    } else {
      PerformVoteDoes(s, u, amount);
    }
  }

  lemma ShrinkLockDoes(s: State, u: Account, amount: nat)
    requires L.ShrinkLock(s, u, amount).Ok?
    ensures var s' := L.ShrinkLock(s, u, amount).value;
            && Locked(s', u) + amount == Locked(s, u) && Voted(s', u) == Min(Voted(s, u), Locked(s', u))
            && OthersLocksKept(s, s', u)
            && s' == s.(totalLocked := s'.totalLocked, totalVoted := s'.totalVoted, escrows := s'.escrows,
                        voters := s'.voters, lockers := s'.lockers)
  {
    hide L.RemoveFromList;
  }

  /** Unlocking returns the amount less the penalty to the holder and the penalty to the Grinders, perhaps the same. */
  lemma UnlockDoes(s: State, u: Account, amount: nat)
    requires L.Unlock(s, u, amount).Ok?
    ensures var s' := L.Unlock(s, u, amount).value;
            && !s.liquidation && 0 < amount <= Locked(s, u)
            && PreviewUnlock(amount, Locked(s, u), s.config.unlockPenaltyBps).Ok?
            && Locked(s', u) + amount == Locked(s, u) && Voted(s', u) == Min(Voted(s, u), Locked(s', u))
            && s'.graiVault + amount == s.graiVault
            && OthersLocksKept(s, s', u) && OthersGraiKept(s, s', {u, s.grinders}) && BookKept(s, s')
            && var (returned, penalty) := PreviewUnlock(amount, Locked(s, u), s.config.unlockPenaltyBps).value;
               && returned + penalty == amount
               && Grai(s', u) == Grai(s, u) + returned + (if u == s.grinders then penalty else 0)
               && Grai(s', s.grinders) == Grai(s, s.grinders) + penalty + (if u == s.grinders then returned else 0)
  {
    var locked := L.LockedBy(s.escrows, u);
    var assets := L.SettleAll(s.assets, u, locked, locked - amount).value;
    ShrinkLockDoes(s.(assets := assets), u, amount);
    PreviewUnlockSplits(amount, locked, s.config.unlockPenaltyBps);
    hide L.SettleAll, L.ShrinkLock, PreviewUnlock;
  }

  lemma PreviewUnlockSplits(amount: nat, escrowed: nat, penaltyBps: nat)
    requires PreviewUnlock(amount, escrowed, penaltyBps).Ok?
    ensures var (returned, penalty) := PreviewUnlock(amount, escrowed, penaltyBps).value;
            returned + penalty == amount
  {
    hide BpsCeil;
  }

  /** The quote of a bribe on the state it finds. */
  function BribeQuote(s: State, op: Instruction): Result<Quote, Error>
    requires op.Bribe? && op.asset < |s.assets|
  {
    PreviewBribe(op.amount, s.supply, s.totalValue, s.totalVoted, s.config.quorumBps, s.config.bribePremiumBps,
                 s.assets[op.asset].decimals, op.price)
  }

  /** A bribe moves voted GRAI from the voter's lock to the briber's wallet. */
  lemma BribeMovesVotes(s: State, op: Instruction)
    requires op.Bribe? && Apply(s, op).Ok?
    ensures var s' := Exec(s, op);
            && 0 < op.amount <= Voted(s, op.voter)
            && Locked(s', op.voter) + op.amount == Locked(s, op.voter)
            && Voted(s', op.voter) + op.amount == Voted(s, op.voter)
            && Grai(s', op.user) == Grai(s, op.user) + op.amount && s'.graiVault + op.amount == s.graiVault
            && OthersLocksKept(s, s', op.voter) && OthersGraiKept(s, s', {op.user}) && BookKept(s, s')
  {
    hide L.SettleAll, L.PayBribe, PreviewBribe, L.RemoveFromList;
  }

  /**
   * The briber pays the ask; the voter keeps it but for the cut pool, which goes to the vaults. Who bribes itself
   * pays just the pool.
   */
  lemma BribePays(s: State, op: Instruction)
    requires op.Bribe? && Apply(s, op).Ok? && ValidConfig(s.config)
    ensures var s' := Exec(s, op);
            var i := op.asset;
            && i < |s.assets| && |s'.assets| == |s.assets| && BribeQuote(s, op).Ok?
            && var ask := BribeQuote(s, op).value.ask;
            && CutPool(BribeQuote(s, op).value).Ok?
            && var pool := CutPool(BribeQuote(s, op).value).value;
            && PaidBribe(s.assets[i].wallets, s'.assets[i].wallets, op.user, op.voter, ask, pool)
            && s'.assets[i].vault + s'.assets[i].treasury == s.assets[i].vault + s.assets[i].treasury + pool
  {
    hide L.PayBribe, PreviewBribe, L.SettleAll, L.RemoveFromList, ValidConfig, CutPool, PaidBribe;
    var i := op.asset;
    var quote := BribeQuote(s, op).value;
    var e := L.EscrowOf(s.escrows, op.voter);
    SettleAllTokens(s.assets, op.voter, e.amount, e.amount - op.amount, i);
    var settled := L.SettleAll(s.assets, op.voter, e.amount, e.amount - op.amount).value;
    PayBribeTokens(settled[i], op.user, op.voter, quote, Exec(s, op).totalLocked, s.config);
  }

  ghost predicate PaidBribe(before: map<Account, nat>, after: map<Account, nat>, briber: Account, voter: Account,
                            ask: nat, pool: nat)
  {
    && L.Balance(after, briber) + ask == L.Balance(before, briber) + (if briber == voter then ask - pool else 0)
    && L.Balance(after, voter) + pool == L.Balance(before, voter) + (if briber == voter then 0 else ask)
    && pool <= ask <= L.Balance(before, briber)
    && forall v :: v != briber && v != voter ==> L.Balance(after, v) == L.Balance(before, v)
  }

  lemma SettleAllTokens(assets: seq<Asset>, u: Account, oldLocked: nat, newLocked: nat, i: nat)
    requires L.SettleAll(assets, u, oldLocked, newLocked).Ok? && i < |assets|
    ensures var r := L.SettleAll(assets, u, oldLocked, newLocked).value;
            && |r| == |assets|
            && r[i] == assets[i].(positions := r[i].positions, resizes := r[i].resizes, forfeited := r[i].forfeited)
  {
    hide Floor;
  }

  lemma PayBribeTokens(a: Asset, briber: Account, voter: Account, quote: Quote, eligible: nat, cfg: Config)
    requires L.PayBribe(a, briber, voter, quote, eligible, cfg).Ok? && ValidConfig(cfg)
    ensures CutPool(quote).Ok?
    ensures var r := L.PayBribe(a, briber, voter, quote, eligible, cfg).value;
            && PaidBribe(a.wallets, r.wallets, briber, voter, quote.ask, CutPool(quote).value)
            && r.vault + r.treasury == a.vault + a.treasury + CutPool(quote).value
  {
    hide *;
    var pool, shared := PayBribeParts(a, briber, voter, quote, eligible, cfg);
    var paid := a.(wallets := L.Debit(a.wallets, briber, quote.ask).value, vault := a.vault + quote.ask);
    ShareOutFacts(paid, pool, eligible, cfg);
    DebitThenCredit(a.wallets, briber, voter, quote.ask, pool);
  }

  lemma DebitThenCredit(wallets: map<Account, nat>, briber: Account, voter: Account, ask: nat, pool: nat)
    requires L.Debit(wallets, briber, ask).Ok? && pool <= ask
    ensures PaidBribe(wallets, L.Credit(L.Debit(wallets, briber, ask).value, voter, ask - pool), briber, voter, ask, pool)
  {
  }

  /** A distribution takes from the custodian and puts all of it into the two vaults. */
  lemma DistributeDoes(s: State, op: Instruction)
    requires op.Distribute? && Apply(s, op).Ok? && ValidConfig(s.config)
    ensures var s' := Exec(s, op);
            var i := op.asset;
            && !s.liquidation && op.amount > 0 && i < |s.assets| && |s'.assets| == |s.assets|
            && Tokens(s', i, op.user) + op.amount == Tokens(s, i, op.user)
            && (forall v :: v != op.user ==> Tokens(s', i, v) == Tokens(s, i, v))
            && s'.assets[i].vault + s'.assets[i].treasury == s.assets[i].vault + s.assets[i].treasury + op.amount
            && s' == s.(assets := s'.assets) && (forall j :: 0 <= j < |s.assets| && j != i ==> s'.assets[j] == s.assets[j])
  {
    var a := s.assets[op.asset];
    var paid := a.(wallets := L.Debit(a.wallets, op.user, op.amount).value, vault := a.vault + op.amount);
    ShareOutFacts(paid, op.amount, s.totalLocked, s.config);
    hide L.ShareOut, Floor, ValidConfig, ValidateConfig;
  }

  /**
   * A deposit pays the Grinders in the asset; the depositor gets shares, in the wallet or in the lock, for no more
   * than the book price, and the book grows by the value. A depositor who is the Grinders keeps the asset.
   */
  lemma DepositDoes(s: State, op: Instruction)
    requires op.Deposit? && Apply(s, op).Ok?
    ensures var s' := Exec(s, op);
            var minted := s'.supply - s.supply;
            var kept := if op.user == s.grinders then op.amount else 0;
            && !s.liquidation && op.amount > 0 && op.asset < |s.assets| && |s'.assets| == |s.assets| && minted > 0
            && op.amount <= Tokens(s, op.asset, op.user)
            && Tokens(s', op.asset, op.user) + op.amount == Tokens(s, op.asset, op.user) + kept
            && Tokens(s', op.asset, s.grinders) + kept == Tokens(s, op.asset, s.grinders) + op.amount
            && (forall v :: v != op.user && v != s.grinders ==> Tokens(s', op.asset, v) == Tokens(s, op.asset, v))
            && s'.totalValue >= s.totalValue
            && Ok(s'.totalValue - s.totalValue) == UsdValue(op.amount, s.assets[op.asset].decimals, op.price)
            && PreviewDepositBook(s'.totalValue - s.totalValue, s.supply, s.totalValue).Ok?
            && minted <= PreviewDepositBook(s'.totalValue - s.totalValue, s.supply, s.totalValue).value
            && Grai(s', op.user) == Grai(s, op.user) + (if op.lock then 0 else minted)
            && Locked(s', op.user) == Locked(s, op.user) + (if op.lock then minted else 0)
            && OthersLocksKept(s, s', op.user) && OthersGraiKept(s, s', {op.user})
  {
    hide UsdValue, L.PerformLock, PreviewDepositBook, MintPremium.PriceBps, MintPremium.PremiumYears, Floor;
    var a := s.assets[op.asset];
    var value := UsdValue(op.amount, a.decimals, op.price).value;
    var minted := L.PreviewDeposit(s, value, op.now).value;
    var a' := a.(wallets := L.Credit(L.Debit(a.wallets, op.user, op.amount).value, s.grinders, op.amount));
    var booked := s.(assets := s.assets[op.asset := a'], supply := s.supply + minted,
                     wallets := L.Credit(s.wallets, op.user, minted), totalValue := s.totalValue + value);
    if op.lock {
      PerformLockDoes(booked, op.user, minted);
      PerformLockAssets(booked, op.user, minted, op.asset);
    }
  }

  lemma PerformLockAssets(s: State, u: Account, add: nat, i: nat)
    requires L.PerformLock(s, u, add).Ok? && i < |s.assets|
    ensures var s' := L.PerformLock(s, u, add).value;
            |s'.assets| == |s.assets| && s'.assets[i].wallets == s.assets[i].wallets
  {
    var locked := L.LockedBy(s.escrows, u);
    SettleAllTokens(s.assets, u, locked, locked + add, i);
    hide L.SettleAll;
  }

  /** Opening the liquidation needs the quorum and gives the caller what nobody locked, and nothing else. */
  lemma LiquidateDoes(s: State, op: Instruction)
    requires op.Liquidate? && Apply(s, op).Ok? && s.totalLocked <= s.graiVault
    ensures var s' := Exec(s, op);
            && !s.liquidation && s'.liquidation && s'.liquidationAt == op.now && !op.grinding
            && s.totalVoted * BPS > s.supply * s.config.quorumBps
            && s'.graiVault == s.totalLocked && Grai(s', op.user) + s'.graiVault == Grai(s, op.user) + s.graiVault
            && OthersGraiKept(s, s', {op.user}) && BookKept(s, s') && s'.escrows == s.escrows && s'.assets == s.assets
  {
  }

  /** A redemption burns the wallet's shares first and then the lock's, and takes the floored share of the book. */
  lemma RedeemBurns(s: State, op: Instruction)
    requires op.Redeem? && Apply(s, op).Ok?
    ensures var s' := Exec(s, op);
            && s.liquidation && op.now >= s.liquidationAt + s.config.liquidationPeriod && op.amount > 0
            && s'.supply + op.amount == s.supply
            && Grai(s', op.user) == SaturatingSub(Grai(s, op.user), op.amount)
            && Locked(s', op.user) + SaturatingSub(op.amount, Grai(s, op.user)) == Locked(s, op.user)
            && s'.graiVault + SaturatingSub(op.amount, Grai(s, op.user)) == s.graiVault
            && s'.totalValue == s.totalValue - Floor(op.amount, s.totalValue, s.supply)
            && OthersLocksKept(s, s', op.user) && OthersGraiKept(s, s', {op.user})
  {
    hide L.SettleAll, L.PayBasket, L.ShrinkLock, Floor;
    var fromEscrow := op.amount - Min(op.amount, L.Balance(s.wallets, op.user));
    if fromEscrow > 0 {
      ShrinkLockDoes(s, op.user, fromEscrow);
    }
  }

  /** It pays the floored share of every unreserved vault, and leaves every reserve alone. */
  lemma RedeemPays(s: State, op: Instruction, i: nat)
    requires op.Redeem? && Apply(s, op).Ok? && i < |s.assets| && s.supply > 0
    ensures var s' := Exec(s, op);
            && |s'.assets| == |s.assets|
            && var a, a' := s.assets[i], s'.assets[i];
               var share := Floor(L.Redeemable(a), op.amount, s.supply);
               && a'.vault + share == a.vault && a'.totalClaimable == a.totalClaimable && a'.treasury == a.treasury
               && Tokens(s', i, op.user) == Tokens(s, i, op.user) + share
               && (forall v :: v != op.user ==> Tokens(s', i, v) == Tokens(s, i, v))
  {
    hide L.SettleAll, L.PayBasket, LiquidateValue, L.ShrinkLock, Floor;
    var locked := L.LockedBy(s.escrows, op.user);
    var left := locked - (op.amount - Min(op.amount, L.Balance(s.wallets, op.user)));
    SettleAllTokens(s.assets, op.user, locked, left, i);
    BasketPays(L.SettleAll(s.assets, op.user, locked, left).value, op.user, op.amount, s.supply, i);
  }

  lemma {:induction false} BasketPays(assets: seq<Asset>, holder: Account, amount: nat, supply: nat, i: nat)
    requires L.PayBasket(assets, holder, amount, supply).Ok? && i < |assets| && supply > 0
    ensures var r := L.PayBasket(assets, holder, amount, supply).value;
            && |r| == |assets|
            && var share := Floor(L.Redeemable(assets[i]), amount, supply);
               && share <= assets[i].vault
               && r[i] == assets[i].(vault := assets[i].vault - share,
                                     wallets := L.Credit(assets[i].wallets, holder, share))
    decreases |assets|
  {
    hide Floor, L.Credit;
    if i > 0 {
      BasketPays(assets[1..], holder, amount, supply, i - 1);
    } else if |assets| > 1 {
      BasketPays(assets[1..], holder, amount, supply, 0);
    } else {
      assert assets[1..] == [];
    }
    PayShareIs(assets[0], holder, amount, supply);
  }

  lemma PayShareIs(a: Asset, holder: Account, amount: nat, supply: nat)
    requires L.PayShare(a, holder, amount, supply).Ok? && supply > 0
    ensures var share := Floor(L.Redeemable(a), amount, supply);
            && share <= a.vault
            && L.PayShare(a, holder, amount, supply).value
               == a.(vault := a.vault - share, wallets := L.Credit(a.wallets, holder, share))
  {
    if L.Redeemable(a) == 0 {
      FloorOfNothing(amount, supply);
    }
  }

  lemma FloorOfNothing(amount: nat, supply: nat)
    requires supply > 0
    ensures Floor(0, amount, supply) == 0
  {
  }

  /** Closing the liquidation gives the Grinders everything unreserved and drops the book only if no share is left. */
  lemma ReviveDoes(s: State, op: Instruction, i: nat)
    requires op.Revive? && Apply(s, op).Ok? && i < |s.assets| && s.assets[i].totalClaimable <= s.assets[i].vault
    ensures var s' := Exec(s, op);
            && s.liquidation && !s'.liquidation && |s'.assets| == |s.assets|
            && op.now >= s.liquidationAt + s.config.liquidationPeriod + s.config.redeemPeriod
            && s'.assets[i].vault == s'.assets[i].totalClaimable == s.assets[i].totalClaimable
            && Tokens(s', i, s.grinders) + s'.assets[i].vault == Tokens(s, i, s.grinders) + s.assets[i].vault
            && (forall v :: v != s.grinders ==> Tokens(s', i, v) == Tokens(s, i, v))
            && s'.supply == s.supply && s'.totalValue == (if s.supply == 0 then 0 else s.totalValue)
            && s'.wallets == s.wallets && s'.escrows == s.escrows
  {
  }

  // ----- who a claim pays, exactly

  /** What the affiliate walk pays `u`: its share of the revenue at each level that reaches it. */
  function AffiliatePay(revenue: nat, shares: seq<nat>, levels: seq<L.Level>, u: Account): nat
    decreases |shares|
  {
    if shares == [] || levels == [] || levels[0].Stop? then 0
    else
      (if levels[0].Paid? && levels[0].to == u then Floor(revenue, shares[0], BPS) else 0)
      + AffiliatePay(revenue, shares[1..], levels[1..], u)
  }

  /** What the walk pays or keeps back in all. */
  function AffiliateTotal(revenue: nat, shares: seq<nat>, levels: seq<L.Level>): nat
    decreases |shares|
  {
    if shares == [] || levels == [] || levels[0].Stop? then 0
    else
      (if levels[0].Unpaid? then 0 else Floor(revenue, shares[0], BPS))
      + AffiliateTotal(revenue, shares[1..], levels[1..])
  }

  /** What the treasury pays `u` for a claim: the affiliate walk, and the beneficiar with what is left of the gross. */
  function TreasuryPay(gross: nat, revenue: nat, shares: seq<nat>, levels: seq<L.Level>, beneficiar: Account,
                       beneficiarPaid: bool, u: Account): int
  {
    if gross == 0 then 0
    else
      AffiliatePay(revenue, shares, levels, u)
      + (if beneficiarPaid && u == beneficiar then gross - AffiliateTotal(revenue, shares, levels) else 0)
  }

  lemma {:induction false} LevelsPay(a: Asset, revenue: nat, shares: seq<nat>, levels: seq<L.Level>, paid: nat,
                                     retained: nat, u: Account)
    requires L.PayLevels(a, revenue, shares, levels, paid, retained).Ok?
    ensures var (r, paid', retained') := L.PayLevels(a, revenue, shares, levels, paid, retained).value;
            && L.Balance(r.wallets, u) == L.Balance(a.wallets, u) + AffiliatePay(revenue, shares, levels, u)
            && paid' + retained' == paid + retained + AffiliateTotal(revenue, shares, levels)
    decreases |shares|
  {
    hide Floor;
    if shares != [] && levels != [] && !levels[0].Stop? {
      var share := BpsOf(revenue, shares[0]).value;
      match levels[0]
      case Paid(to) =>
        var next := a.(treasury := L.FromVault(a.treasury, share).value, wallets := L.Credit(a.wallets, to, share));
        LevelsPay(next, revenue, shares[1..], levels[1..], paid + share, retained, u);
      case Retained => LevelsPay(a, revenue, shares[1..], levels[1..], paid, retained + share, u);
      case Unpaid => LevelsPay(a, revenue, shares[1..], levels[1..], paid, retained, u);
      case Stop =>
    }
  }

  lemma {:induction false} NoRevenue(shares: seq<nat>, levels: seq<L.Level>, u: Account)
    ensures AffiliatePay(0, shares, levels, u) == 0 && AffiliateTotal(0, shares, levels) == 0
    decreases |shares|
  {
    if shares != [] && levels != [] {
      NoRevenue(shares[1..], levels[1..], u);
      assert 0 * shares[0] == 0;
    }
  }

  lemma PayoutPays(a: Asset, gross: nat, revenue: nat, shares: seq<nat>, levels: seq<L.Level>,
                   beneficiar: Account, beneficiarPaid: bool, u: Account)
    requires L.TreasuryPayout(a, gross, revenue, shares, levels, beneficiar, beneficiarPaid).Ok? && gross <= a.treasury
    ensures L.Balance(L.TreasuryPayout(a, gross, revenue, shares, levels, beneficiar, beneficiarPaid).value.wallets, u)
         == L.Balance(a.wallets, u) + TreasuryPay(gross, revenue, shares, levels, beneficiar, beneficiarPaid, u)
  {
    if gross > 0 {
      if revenue > 0 {
        LevelsPay(a, revenue, shares, levels, 0, 0, u);
      } else {
        NoRevenue(shares, levels, u);
      }
    }
    hide L.PayLevels, AffiliatePay, AffiliateTotal;
  }

  /** The treasury's side of a claim of `claimed`, for `u`. */
  function TreasuryDue(s: State, op: Instruction, claimed: nat, u: Account): int
    requires op.Claim?
  {
    match L.ClaimTreasuryShares(claimed, s.config)
    case Ok((gross, revenue)) =>
      TreasuryPay(gross, revenue, s.affiliateShareBps, op.levels, s.beneficiar, op.beneficiarPaid, u)
    case Err(_) => 0
  }

  /** All that a claim of `claimed` brings `u`: the amount less the tip, the tip, and the treasury's side. */
  function ClaimPay(s: State, op: Instruction, claimed: nat, u: Account): int
    requires op.Claim? && BpsOf(claimed, s.config.claimTipBps).Ok?
  {
    var tip := BpsOf(claimed, s.config.claimTipBps).value;
    (if u == op.user then claimed - tip else 0) + (if u == op.payer then tip else 0) + TreasuryDue(s, op, claimed, u)
  }

  /**
   * What left the vault was claimed: it left the reserve with it and was added to what the holder withdrew. The
   * holder has it but for the tip, the payer has the tip, and the treasury pays what is due and nothing else.
   */
  ghost predicate PaidClaim(s: State, op: Instruction, a: Asset, a': Asset)
    requires op.Claim?
  {
    && a'.vault <= a.vault && a'.treasury <= a.treasury
    && var claimed := a.vault - a'.vault;
    && a'.totalClaimable + claimed == a.totalClaimable
    && L.PositionOf(a', op.user).withdrawn == L.PositionOf(a, op.user).withdrawn + claimed
    && BpsOf(claimed, s.config.claimTipBps).Ok?
    && forall u :: L.Balance(a'.wallets, u) == L.Balance(a.wallets, u) + ClaimPay(s, op, claimed, u)
  }

  lemma ClaimAssetDoes(s: State, op: Instruction, a: Asset)
    requires op.Claim? && AssetInv(a, s.escrows, s.totalLocked, s.config) && ValidConfig(s.config)
    requires L.LockedBy(s.escrows, op.user) <= s.totalLocked
    requires L.ClaimAsset(a, op.user, op.payer, L.LockedBy(s.escrows, op.user), op.amount, s, op.levels,
                          op.beneficiarPaid).Ok?
    ensures PaidClaim(s, op, a, L.ClaimAsset(a, op.user, op.payer, L.LockedBy(s.escrows, op.user), op.amount, s,
                                             op.levels, op.beneficiarPaid).value)
  {
    var locked := L.LockedBy(s.escrows, op.user);
    ClaimSteps(a, op.user, op.payer, locked, op.amount, s, op.levels, op.beneficiarPaid);
    SettledForClaim(a, op.user, s);
    SettleTokens(a, op.user, locked, locked);
    var settled := L.Settle(a, op.user, locked, locked).value;
    CoversAndCaps(a, settled, op, s);
    var claimed := L.Claimed(settled, op.amount, L.PositionOf(settled, op.user).claimable);
    hide *;
    var r := L.ClaimAsset(a, op.user, op.payer, locked, op.amount, s, op.levels, op.beneficiarPaid).value;
    if claimed > 0 {
      var done, gross := ClaimParts(settled, op.user, op.payer, claimed, s, op.levels, op.beneficiarPaid);
      forall u
        ensures L.Balance(done.wallets, u) == L.Balance(settled.wallets, u) + ClaimPay(s, op, claimed, u)
      {
        PaidByClaim(s, op, settled, claimed, u);
      }
      TakenOff(s, op, settled, done, r, claimed);
    } else {
      NothingDue(s, op);
      NothingTaken(s, op, settled);
    }
    SameClaim(s, op, a, settled, r);
  }

  lemma CoversAndCaps(a: Asset, settled: Asset, op: Instruction, s: State)
    requires op.Claim? && AssetInv(settled, s.escrows, s.totalLocked, s.config)
    ensures TreasuryCovers(settled, s.config)
    ensures L.Claimed(settled, op.amount, L.PositionOf(settled, op.user).claimable) <= settled.totalClaimable
    ensures L.Claimed(settled, op.amount, L.PositionOf(settled, op.user).claimable) <= settled.vault
  {
  }

  lemma TakenOff(s: State, op: Instruction, settled: Asset, done: Asset, r: Asset, claimed: nat)
    requires op.Claim? && 0 < claimed <= settled.totalClaimable && claimed <= settled.vault
    requires done == settled.(vault := settled.vault - claimed, treasury := done.treasury, wallets := done.wallets)
    requires done.treasury <= settled.treasury && op.user in settled.positions
    requires claimed <= settled.positions[op.user].claimable
    requires var p := settled.positions[op.user];
             r == done.(positions := done.positions[op.user := L.Position(p.debt, p.claimable - claimed,
                                                                         p.withdrawn + claimed)],
                        totalClaimable := SaturatingSub(done.totalClaimable, claimed))
    requires BpsOf(claimed, s.config.claimTipBps).Ok?
    requires forall u :: L.Balance(done.wallets, u) == L.Balance(settled.wallets, u) + ClaimPay(s, op, claimed, u)
    ensures PaidClaim(s, op, settled, r)
  {
    hide ClaimPay, BpsOf;
  }

  lemma NothingTaken(s: State, op: Instruction, a: Asset)
    requires op.Claim? && BpsOf(0, s.config.claimTipBps).Ok? && forall u :: ClaimPay(s, op, 0, u) == 0
    ensures PaidClaim(s, op, a, a)
  {
    hide ClaimPay, BpsOf;
  }

  /** Settling moves no token and withdraws nothing. */
  lemma SameClaim(s: State, op: Instruction, a: Asset, settled: Asset, r: Asset)
    requires op.Claim? && PaidClaim(s, op, settled, r)
    requires settled == a.(positions := settled.positions, resizes := settled.resizes, forfeited := settled.forfeited)
    requires L.PositionOf(settled, op.user).withdrawn == L.PositionOf(a, op.user).withdrawn
    ensures PaidClaim(s, op, a, r)
  {
    hide ClaimPay, BpsOf;
  }

  /** A claim touches one asset, and there it pays what it takes off the reserve. */
  lemma ClaimDoes(s: State, op: Instruction)
    requires Inv(s) && op.Claim? && Apply(s, op).Ok?
    ensures var s' := Exec(s, op);
            && op.asset < |s.assets| && s' == s.(assets := s.assets[op.asset := s'.assets[op.asset]])
            && PaidClaim(s, op, s.assets[op.asset], s'.assets[op.asset])
  {
    AssetAt(s.assets, op.asset, s.escrows, s.totalLocked, s.config);
    TotalIsSum(s);
    assert ValidConfig(s.config);
    hide Inv, AssetInv, L.ClaimAsset, PaidClaim, ValidConfig;
    ClaimAssetDoes(s, op, s.assets[op.asset]);
  }

  lemma TotalIsSum(s: State)
    requires Inv(s)
    ensures forall u :: L.LockedBy(s.escrows, u) <= s.totalLocked
  {
    forall u
      ensures L.LockedBy(s.escrows, u) <= s.totalLocked
    {
      LockedAtMostTotal(s.escrows, u);
    }
  }

  lemma NothingDue(s: State, op: Instruction)
    requires op.Claim?
    ensures BpsOf(0, s.config.claimTipBps) == Ok(0) && forall u :: ClaimPay(s, op, 0, u) == 0
  {
    assert 0 * s.config.claimTipBps == 0;
  }

  lemma SettleTokens(a: Asset, u: Account, oldLocked: nat, newLocked: nat)
    requires L.Settle(a, u, oldLocked, newLocked).Ok?
    ensures var r := L.Settle(a, u, oldLocked, newLocked).value;
            && r == a.(positions := r.positions, resizes := r.resizes, forfeited := r.forfeited)
            && L.PositionOf(r, u).withdrawn == L.PositionOf(a, u).withdrawn
  {
    hide Floor;
  }

  /** Who has what after the payment and the treasury payout. */
  lemma PaidByClaim(s: State, op: Instruction, settled: Asset, claimed: nat, u: Account)
    requires op.Claim? && claimed > 0 && ValidConfig(s.config)
    requires TreasuryCovers(settled, s.config) && claimed <= settled.totalClaimable
    requires L.PayClaim(settled, op.user, op.payer, claimed, s.config.claimTipBps).Ok?
    requires L.ClaimTreasuryShares(claimed, s.config).Ok?
    requires var (gross, revenue) := L.ClaimTreasuryShares(claimed, s.config).value;
             L.TreasuryPayout(L.PayClaim(settled, op.user, op.payer, claimed, s.config.claimTipBps).value, gross, revenue,
                              s.affiliateShareBps, op.levels, s.beneficiar, op.beneficiarPaid).Ok?
    ensures BpsOf(claimed, s.config.claimTipBps).Ok?
    ensures var (gross, revenue) := L.ClaimTreasuryShares(claimed, s.config).value;
            var done := L.TreasuryPayout(L.PayClaim(settled, op.user, op.payer, claimed, s.config.claimTipBps).value,
                                         gross, revenue, s.affiliateShareBps, op.levels, s.beneficiar,
                                         op.beneficiarPaid).value;
            L.Balance(done.wallets, u) == L.Balance(settled.wallets, u) + ClaimPay(s, op, claimed, u)
  {
    PayClaimPays(settled, op.user, op.payer, claimed, s.config.claimTipBps, u);
    GrossIsFunded(settled, claimed, s.config);
    TreasuryDueIs(s, op, claimed, u);
    var (gross, revenue) := L.ClaimTreasuryShares(claimed, s.config).value;
    hide *;
    var paid := L.PayClaim(settled, op.user, op.payer, claimed, s.config.claimTipBps).value;
    PayoutPays(paid, gross, revenue, s.affiliateShareBps, op.levels, s.beneficiar, op.beneficiarPaid, u);
  }

  lemma TreasuryDueIs(s: State, op: Instruction, claimed: nat, u: Account)
    requires op.Claim? && L.ClaimTreasuryShares(claimed, s.config).Ok?
    requires BpsOf(claimed, s.config.claimTipBps).Ok?
    ensures var (gross, revenue) := L.ClaimTreasuryShares(claimed, s.config).value;
            var tip := BpsOf(claimed, s.config.claimTipBps).value;
            ClaimPay(s, op, claimed, u)
            == (if u == op.user then claimed - tip else 0) + (if u == op.payer then tip else 0)
               + TreasuryPay(gross, revenue, s.affiliateShareBps, op.levels, s.beneficiar, op.beneficiarPaid, u)
  {
    hide TreasuryPay, L.ClaimTreasuryShares, BpsOf;
  }

  lemma PayClaimPays(a: Asset, holder: Account, payer: Account, claimed: nat, tipBps: nat, u: Account)
    requires L.PayClaim(a, holder, payer, claimed, tipBps).Ok?
    ensures BpsOf(claimed, tipBps).Ok?
    ensures var tip := BpsOf(claimed, tipBps).value;
            var r := L.PayClaim(a, holder, payer, claimed, tipBps).value;
            && r.treasury == a.treasury
            && L.Balance(r.wallets, u)
               == L.Balance(a.wallets, u) + (if u == holder then claimed - tip else 0) + (if u == payer then tip else 0)
  {
    hide BpsOf;
  }

  lemma GrossIsFunded(a: Asset, claimed: nat, cfg: Config)
    requires ValidConfig(cfg) && TreasuryCovers(a, cfg) && claimed <= a.totalClaimable
    requires L.ClaimTreasuryShares(claimed, cfg).Ok?
    ensures L.ClaimTreasuryShares(claimed, cfg).value.0 <= a.treasury
  {
    GrossBound(claimed, cfg);
    MulMono(claimed, a.totalClaimable, cfg.treasuryCutBps);
    var gross := L.ClaimTreasuryShares(claimed, cfg).value.0;
    assert cfg.dividendCutBps > 0;
    hide L.ClaimTreasuryShares, ValidConfig;
    MulCancel(gross, a.treasury, cfg.dividendCutBps);
  }
}
