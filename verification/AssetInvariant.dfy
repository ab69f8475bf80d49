/** What every instruction keeps about one asset: its index, its reserve, its vaults and its positions. */
module AssetInvariant {
  import opened Prelude
  import opened Arithmetic
  import opened Sums
  import opened Tokenomics
  import opened Ledger

  function Net(p: Position): int {
    p.claimable - p.debt
  }

  /** What `locked` GRAI has accrued since the index started. */
  function Accrued(locked: nat, a: Asset): nat {
    Floor(locked, a.accShare, PRECISION)
  }

  /** No position is ahead of the index on the lock it stands for, so no checkpoint saturates. */
  ghost predicate Checkpointed(a: Asset, escrows: map<Account, Escrow>) {
    forall u :: u in a.positions ==> a.positions[u].debt <= Accrued(LockedBy(escrows, u), a)
  }

  /**
   * How far the reserve, booked with one floor over everybody, is from what the many separate floors owe:
   * dividends owed and forfeited, and the accrual of `totalLocked`, less the reserve.
   */
  ghost function Overhang(a: Asset, totalLocked: nat): int {
    Sum(a.positions, Net) + Accrued(totalLocked, a) + a.forfeited - a.totalClaimable
  }

  ghost predicate Bounded(a: Asset, totalLocked: nat) {
    0 - a.resizes <= Overhang(a, totalLocked) <= a.resizes
  }

  /** The treasury can pay its part of every dividend that is still reserved. */
  predicate TreasuryCovers(a: Asset, cfg: Config) {
    a.totalClaimable * cfg.treasuryCutBps <= a.treasury * cfg.dividendCutBps
  }

  ghost predicate Conserved(a: Asset) {
    a.vault + a.treasury + Sum(a.wallets, Whole) == a.issued
  }

  ghost predicate AssetInv(a: Asset, escrows: map<Account, Escrow>, totalLocked: nat, cfg: Config) {
    && Checkpointed(a, escrows)
    && Bounded(a, totalLocked)
    && a.totalClaimable <= a.vault
    && TreasuryCovers(a, cfg)
    && Conserved(a)
  }

  // ----- wallets

  lemma CreditSum(wallets: map<Account, nat>, u: Account, amount: nat)
    ensures Sum(Credit(wallets, u, amount), Whole) == Sum(wallets, Whole) + amount
  {
    SumUpdate<Account, nat>(wallets, u, Balance(wallets, u) + amount, Whole);
  }

  lemma DebitSum(wallets: map<Account, nat>, u: Account, amount: nat)
    requires Debit(wallets, u, amount).Ok?
    ensures Sum(Debit(wallets, u, amount).value, Whole) == Sum(wallets, Whole) - amount
  {
    SumUpdate<Account, nat>(wallets, u, Balance(wallets, u) - amount, Whole);
  }

  // ----- settling

  /** Only the position of `u` and the history change in a settlement, and a checkpoint loses nothing. */
  lemma SettleFacts(a: Asset, u: Account, oldLocked: nat, newLocked: nat)
    requires Settle(a, u, oldLocked, newLocked).Ok?
    requires PositionOf(a, u).debt <= Accrued(oldLocked, a)
    ensures var r := Settle(a, u, oldLocked, newLocked).value;
            && r == a.(positions := r.positions, resizes := r.resizes, forfeited := r.forfeited)
            && r.positions == a.positions[u := r.positions[u]]
            && r.positions[u].debt == Accrued(newLocked, a)
            && r.positions[u].withdrawn == PositionOf(a, u).withdrawn
            && r.resizes == a.resizes + (if oldLocked == newLocked then 0 else 1)
            && (u in a.positions ==>
                  && r.positions[u].claimable == PositionOf(a, u).claimable + Accrued(oldLocked, a) - PositionOf(a, u).debt
                  && r.forfeited == a.forfeited)
            && (u !in a.positions ==>
                  && r.positions[u].claimable == 0
                  && r.forfeited == a.forfeited + Accrued(oldLocked, a))
  {
    assert Floor(0, a.accShare, PRECISION) == 0;
  }

  /** A lock that changes size moves the floor over everybody and the floor of that lock apart by at most one. */
  lemma ResizeByOne(others: nat, oldLocked: nat, newLocked: nat, a: Asset) returns (moved: int)
    ensures moved == Accrued(oldLocked, a) - Accrued(newLocked, a)
                     + Accrued(others + newLocked, a) - Accrued(others + oldLocked, a)
    ensures -1 <= moved <= 1
    ensures oldLocked == newLocked ==> moved == 0
  {
    FloorSum(others, oldLocked, a.accShare, PRECISION);
    FloorSum(others, newLocked, a.accShare, PRECISION);
    moved := Accrued(oldLocked, a) - Accrued(newLocked, a) + Accrued(others + newLocked, a) - Accrued(others + oldLocked, a);
  }

  lemma SettleKeeps(a: Asset, u: Account, newLocked: nat, escrows: map<Account, Escrow>, escrows': map<Account, Escrow>,
                    totalLocked: nat, totalLocked': nat, cfg: Config)
    requires AssetInv(a, escrows, totalLocked, cfg)
    requires LockedBy(escrows, u) <= totalLocked
    requires totalLocked' == totalLocked - LockedBy(escrows, u) + newLocked
    requires forall v :: v != u ==> LockedBy(escrows', v) == LockedBy(escrows, v)
    requires LockedBy(escrows', u) == newLocked
    requires Settle(a, u, LockedBy(escrows, u), newLocked).Ok?
    ensures AssetInv(Settle(a, u, LockedBy(escrows, u), newLocked).value, escrows', totalLocked', cfg)
  {
    var oldLocked := LockedBy(escrows, u);
    SettleFacts(a, u, oldLocked, newLocked);
    var r := Settle(a, u, oldLocked, newLocked).value;
    hide Settle, Floor;
    SettleCheckpointed(a, r, u, escrows, escrows');
    SettleBounded(a, r, u, oldLocked, newLocked, totalLocked, totalLocked');
  }

  lemma SettleCheckpointed(a: Asset, r: Asset, u: Account, escrows: map<Account, Escrow>,
                           escrows': map<Account, Escrow>)
    requires Checkpointed(a, escrows)
    requires forall v :: v != u ==> LockedBy(escrows', v) == LockedBy(escrows, v)
    requires u in r.positions && r.positions == a.positions[u := r.positions[u]] && r.accShare == a.accShare
    requires r.positions[u].debt == Accrued(LockedBy(escrows', u), a)
    ensures Checkpointed(r, escrows')
  {
    hide Floor;
    forall v | v in r.positions
      ensures r.positions[v].debt <= Accrued(LockedBy(escrows', v), r)
    {
      if v != u {
        assert v in a.positions && r.positions[v] == a.positions[v];
      }
    }
  }

  lemma SettleBounded(a: Asset, r: Asset, u: Account, oldLocked: nat, newLocked: nat, totalLocked: nat,
                      totalLocked': nat)
    requires Bounded(a, totalLocked) && oldLocked <= totalLocked
    requires totalLocked' == totalLocked - oldLocked + newLocked
    requires u in r.positions && r.positions == a.positions[u := r.positions[u]]
    requires r.accShare == a.accShare && r.totalClaimable == a.totalClaimable
    requires r.resizes == a.resizes + (if oldLocked == newLocked then 0 else 1)
    requires r.positions[u].debt == Accrued(newLocked, a)
    requires r.positions[u].claimable + r.forfeited
          == PositionOf(a, u).claimable + Accrued(oldLocked, a) - PositionOf(a, u).debt + a.forfeited
    ensures Bounded(r, totalLocked')
  {
    var moved := ResizeByOne(totalLocked - oldLocked, oldLocked, newLocked, a);
    SumUpdate(a.positions, u, r.positions[u], Net);
    assert Overhang(r, totalLocked') == Overhang(a, totalLocked) + moved by {
      hide Floor, Sum;
      assert Accrued(totalLocked', r) == Accrued(totalLocked', a);
    }
    hide Overhang;
    assert Overhang(r, totalLocked') <= r.resizes;
  }

  // ----- yield

  /** The index grows by the floor of `amount` per locked unit, and no more than `amount` is reserved for it. */
  lemma DistributeFacts(a: Asset, amount: nat, eligible: nat)
    requires DistributeDividend(a, amount, eligible).Ok?
    ensures var (r, dust) := DistributeDividend(a, amount, eligible).value;
            && r == a.(accShare := r.accShare, totalClaimable := r.totalClaimable)
            && (r.accShare == a.accShare || (eligible > 0 && r.accShare == a.accShare + Floor(amount, PRECISION, eligible)))
            && r.totalClaimable + dust == a.totalClaimable + amount
            && r.totalClaimable - a.totalClaimable == Accrued(eligible, r) - Accrued(eligible, a)
            && a.totalClaimable <= r.totalClaimable
  {
    var (r, dust) := DistributeDividend(a, amount, eligible).value;
    if r.accShare != a.accShare {
      var increase := Floor(amount, PRECISION, eligible);
      FloorMonoSecond(eligible, a.accShare, a.accShare + increase, PRECISION);
      ReservedAtMost(amount, eligible, a.accShare, increase);
    }
  }

  /** The reserve booked for an accrual never exceeds the accrual: the program's saturating subtraction is exact. */
  lemma ReservedAtMost(amount: nat, eligible: nat, share: nat, increase: nat)
    requires eligible > 0 && increase == Floor(amount, PRECISION, eligible)
    ensures Floor(eligible, share + increase, PRECISION) <= Floor(eligible, share, PRECISION) + amount
  {
    FloorBounds(amount, PRECISION, eligible);
    FloorBounds(eligible, share, PRECISION);
    assert eligible * (share + increase) == eligible * share + increase * eligible;
    FloorLeast(Floor(eligible, share, PRECISION) + amount, eligible, share + increase, PRECISION);
  }

  lemma ShareOutFacts(a: Asset, pool: nat, eligible: nat, cfg: Config)
    requires ValidConfig(cfg) && ShareOut(a, pool, eligible, cfg).Ok?
    ensures var r := ShareOut(a, pool, eligible, cfg).value;
            && r == a.(accShare := r.accShare, totalClaimable := r.totalClaimable, vault := r.vault, treasury := r.treasury)
            && r.vault + r.treasury == a.vault + a.treasury
            && r.vault - r.totalClaimable == a.vault - a.totalClaimable - pool
            && a.accShare <= r.accShare
            && a.totalClaimable <= r.totalClaimable
            && r.totalClaimable - a.totalClaimable == Accrued(eligible, r) - Accrued(eligible, a)
            && (r.totalClaimable - a.totalClaimable) * cfg.treasuryCutBps <= (r.treasury - a.treasury) * cfg.dividendCutBps
  {
    SplitCutsFavourTreasury(pool, cfg);
    var (treasuryCut, dividendCut) := SplitCuts(pool, cfg).value;
    hide Floor, ValidConfig, ValidateConfig;
    if dividendCut > 0 {
      DistributeFacts(a, dividendCut, eligible);
    }
    var (indexed, dust) := if dividendCut > 0 then DistributeDividend(a, dividendCut, eligible).value else (a, 0);
    hide DistributeDividend;
    var reserved := indexed.totalClaimable - a.totalClaimable;
    MulMono(reserved, dividendCut, cfg.treasuryCutBps);
    MulMono(treasuryCut, treasuryCut + dust, cfg.dividendCutBps);
    var r := ShareOut(a, pool, eligible, cfg).value;
    assert r.treasury - a.treasury == treasuryCut + dust;
    assert r.totalClaimable == indexed.totalClaimable;
  }

  /** Sharing out a pool that was added to the vault keeps the invariant and books nothing on the side. */
  lemma ShareOutKeeps(a: Asset, pool: nat, escrows: map<Account, Escrow>, totalLocked: nat, cfg: Config)
    requires ValidConfig(cfg)
    requires pool <= a.vault && a.totalClaimable <= a.vault - pool
    requires Checkpointed(a, escrows) && Bounded(a, totalLocked) && TreasuryCovers(a, cfg)
    requires ShareOut(a, pool, totalLocked, cfg).Ok?
    ensures var r := ShareOut(a, pool, totalLocked, cfg).value;
            && Checkpointed(r, escrows) && Bounded(r, totalLocked) && TreasuryCovers(r, cfg)
            && r.totalClaimable <= r.vault
  {
    ShareOutFacts(a, pool, totalLocked, cfg);
    var r := ShareOut(a, pool, totalLocked, cfg).value;
    hide ShareOut, ValidConfig, ValidateConfig;
    forall u | u in r.positions
      ensures r.positions[u].debt <= Accrued(LockedBy(escrows, u), r)
    {
      FloorMonoSecond(LockedBy(escrows, u), a.accShare, r.accShare, PRECISION);
    }
    hide Floor;
    TreasuryAdds(a.totalClaimable, r.totalClaimable, a.treasury, r.treasury, cfg.treasuryCutBps, cfg.dividendCutBps);
  }

  lemma TreasuryAdds(owed: nat, owed': nat, held: nat, held': nat, t: nat, d: nat)
    requires owed * t <= held * d
    requires (owed' - owed) * t <= (held' - held) * d
    ensures owed' * t <= held' * d
  {
    assert (owed' - owed) * t == owed' * t - owed * t;
    assert (held' - held) * d == held' * d - held * d;
  }

  /** Income paid into the vault, of which `pool` is shared out: the rest of it is left over in the vault. */
  lemma PoolKeeps(a: Asset, payer: Account, income: nat, pool: nat, escrows: map<Account, Escrow>, totalLocked: nat,
                  cfg: Config)
    requires ValidConfig(cfg) && AssetInv(a, escrows, totalLocked, cfg) && pool <= income
    requires Debit(a.wallets, payer, income).Ok?
    requires ShareOut(a.(wallets := Debit(a.wallets, payer, income).value, vault := a.vault + income),
                      pool, totalLocked, cfg).Ok?
    ensures var shared := ShareOut(a.(wallets := Debit(a.wallets, payer, income).value, vault := a.vault + income),
                                   pool, totalLocked, cfg).value;
            && Checkpointed(shared, escrows) && Bounded(shared, totalLocked) && TreasuryCovers(shared, cfg)
            && shared.vault - shared.totalClaimable == a.vault - a.totalClaimable + income - pool
            && Conserved(shared)
  {
    var paid := a.(wallets := Debit(a.wallets, payer, income).value, vault := a.vault + income);
    DebitSum(a.wallets, payer, income);
    ShareOutFacts(paid, pool, totalLocked, cfg);
    hide Floor, Sum, ValidConfig, ValidateConfig;
    assert Overhang(paid, totalLocked) == Overhang(a, totalLocked);
    ShareOutKeeps(paid, pool, escrows, totalLocked, cfg);
    hide ShareOut, Overhang;
  }

  /** Distributing also opens a position for the custodian; an empty one owes and earns nothing. */
  lemma DistributeKeeps(a: Asset, custody: Account, amount: nat, escrows: map<Account, Escrow>, totalLocked: nat,
                        cfg: Config)
    requires ValidConfig(cfg) && AssetInv(a, escrows, totalLocked, cfg)
    requires Debit(a.wallets, custody, amount).Ok?
    requires ShareOut(a.(wallets := Debit(a.wallets, custody, amount).value, vault := a.vault + amount),
                      amount, totalLocked, cfg).Ok?
    ensures var shared := ShareOut(a.(wallets := Debit(a.wallets, custody, amount).value, vault := a.vault + amount),
                                   amount, totalLocked, cfg).value;
            var r := shared.(positions := shared.positions[custody := PositionOf(shared, custody)]);
            AssetInv(r, escrows, totalLocked, cfg) && Redeemable(r) == Redeemable(a)
  {
    PoolKeeps(a, custody, amount, amount, escrows, totalLocked, cfg);
    hide Floor, Sum, ShareOut, Debit, Checkpointed, Bounded;
    var shared := ShareOut(a.(wallets := Debit(a.wallets, custody, amount).value, vault := a.vault + amount),
                           amount, totalLocked, cfg).value;
    OpenPositionKeeps(shared, custody, escrows, totalLocked);
  }

  lemma OpenPositionKeeps(a: Asset, u: Account, escrows: map<Account, Escrow>, totalLocked: nat)
    requires Checkpointed(a, escrows) && Bounded(a, totalLocked)
    ensures var r := a.(positions := a.positions[u := PositionOf(a, u)]);
            Checkpointed(r, escrows) && Bounded(r, totalLocked)
  {
    SumUpdate(a.positions, u, PositionOf(a, u), Net);
    hide Floor, Sum;
    var r := a.(positions := a.positions[u := PositionOf(a, u)]);
    assert Overhang(r, totalLocked) == Overhang(a, totalLocked);
    hide Overhang;
    forall v | v in r.positions
      ensures r.positions[v].debt <= Accrued(LockedBy(escrows, v), r)
    {
      if v in a.positions {
        assert r.positions[v] == a.positions[v];
      } else {
        assert r.positions[v].debt == 0;
      }
    }
  }

  /** The payment of a bribe is a shared-out pool, and the rest of the ask for the voter. */
  lemma PayBribeParts(a: Asset, briber: Account, voter: Account, quote: Quote, eligible: nat, cfg: Config)
    returns (pool: nat, shared: Asset)
    requires PayBribe(a, briber, voter, quote, eligible, cfg).Ok?
    ensures CutPool(quote) == Ok(pool) && Debit(a.wallets, briber, quote.ask).Ok? && pool <= quote.ask
    ensures ShareOut(a.(wallets := Debit(a.wallets, briber, quote.ask).value, vault := a.vault + quote.ask), pool,
                     eligible, cfg) == Ok(shared)
    ensures quote.ask - pool <= shared.vault
    ensures PayBribe(a, briber, voter, quote, eligible, cfg).value
         == shared.(vault := shared.vault - (quote.ask - pool),
                    wallets := Credit(shared.wallets, voter, quote.ask - pool))
  {
    hide ShareOut, Debit, Credit, CutPool;
    pool := CutPool(quote).value;
    var paid := a.(wallets := Debit(a.wallets, briber, quote.ask).value, vault := a.vault + quote.ask);
    shared := ShareOut(paid, pool, eligible, cfg).value;
  }

  /** A bribe's payment passes through the vault without touching what is redeemable from it. */
  lemma PayBribeKeeps(a: Asset, briber: Account, voter: Account, quote: Quote, escrows: map<Account, Escrow>,
                      totalLocked: nat, cfg: Config)
    requires ValidConfig(cfg) && AssetInv(a, escrows, totalLocked, cfg)
    requires PayBribe(a, briber, voter, quote, totalLocked, cfg).Ok?
    ensures var r := PayBribe(a, briber, voter, quote, totalLocked, cfg).value;
            AssetInv(r, escrows, totalLocked, cfg) && Redeemable(r) == Redeemable(a)
  {
    hide *;
    var pool, shared := PayBribeParts(a, briber, voter, quote, totalLocked, cfg);
    PoolKeeps(a, briber, quote.ask, pool, escrows, totalLocked, cfg);
    PayVoterKeeps(a, shared, voter, quote.ask - pool, escrows, totalLocked, cfg);
  }

  lemma PayVoterKeeps(a: Asset, shared: Asset, voter: Account, cut: nat, escrows: map<Account, Escrow>,
                      totalLocked: nat, cfg: Config)
    requires AssetInv(a, escrows, totalLocked, cfg)
    requires Checkpointed(shared, escrows) && Bounded(shared, totalLocked) && TreasuryCovers(shared, cfg)
    requires Conserved(shared) && shared.vault - shared.totalClaimable == a.vault - a.totalClaimable + cut
    requires cut <= shared.vault
    ensures var r := shared.(vault := shared.vault - cut, wallets := Credit(shared.wallets, voter, cut));
            AssetInv(r, escrows, totalLocked, cfg) && Redeemable(r) == Redeemable(a)
  {
    CreditSum(shared.wallets, voter, cut);
    var r := shared.(vault := shared.vault - cut, wallets := Credit(shared.wallets, voter, cut));
    SameDividends(shared, r, escrows, totalLocked, cfg);
    hide Sum, Checkpointed, Bounded, TreasuryCovers;
  }

  /** Moving tokens between the vault and the wallets changes nothing about the dividends. */
  lemma SameDividends(a: Asset, r: Asset, escrows: map<Account, Escrow>, totalLocked: nat, cfg: Config)
    requires Checkpointed(a, escrows) && Bounded(a, totalLocked) && TreasuryCovers(a, cfg)
    requires r == a.(vault := r.vault, wallets := r.wallets)
    ensures Checkpointed(r, escrows) && Bounded(r, totalLocked) && TreasuryCovers(r, cfg)
  {
    hide Floor, Sum;
    assert Overhang(r, totalLocked) == Overhang(a, totalLocked);
  }

  // ----- claims

  /** The treasury's share of a claim is in the treasury: the underfunded branch is never taken. */
  lemma ClaimIsFunded(a: Asset, claimed: nat, cfg: Config)
    requires ValidConfig(cfg) && TreasuryCovers(a, cfg)
    requires claimed <= a.totalClaimable <= U64_MAX && a.treasury <= U64_MAX
    ensures ClaimTreasuryShares(claimed, cfg).Ok?
    ensures var (gross, revenue) := ClaimTreasuryShares(claimed, cfg).value;
            && revenue <= gross <= a.treasury
            && gross * cfg.dividendCutBps <= claimed * cfg.treasuryCutBps
  {
    var d, t := cfg.dividendCutBps, cfg.treasuryCutBps;
    FloorBounds(claimed, t, d);
    FloorMonoSecond(claimed, cfg.revenueShareBps, t, d);
    MulMono(claimed, a.totalClaimable, t);
    MulCancel(Floor(claimed, t, d), a.treasury, d);
    MulMono(claimed, U64_MAX, t);
    MulMono(claimed, U64_MAX, cfg.revenueShareBps);
  }

  /** Affiliate payouts move exactly what they count from the treasury to the payees. */
  lemma {:induction false} PayLevelsFacts(a: Asset, revenue: nat, shares: seq<nat>, levels: seq<Level>, paid: nat,
                                          retained: nat)
    requires PayLevels(a, revenue, shares, levels, paid, retained).Ok?
    ensures var (r, paid', retained') := PayLevels(a, revenue, shares, levels, paid, retained).value;
            && r == a.(treasury := r.treasury, wallets := r.wallets)
            && paid <= paid' && retained <= retained'
            && r.treasury + (paid' - paid) == a.treasury
            && Sum(r.wallets, Whole) == Sum(a.wallets, Whole) + (paid' - paid)
    decreases |shares|
  {
    hide Sum, Floor;
    if shares != [] && levels != [] && !levels[0].Stop? {
      var share := BpsOf(revenue, shares[0]).value;
      if levels[0].Paid? {
        CreditSum(a.wallets, levels[0].to, share);
        PayLevelsFacts(a.(treasury := a.treasury - share, wallets := Credit(a.wallets, levels[0].to, share)),
                       revenue, shares[1..], levels[1..], paid + share, retained);
      } else if levels[0].Retained? {
        PayLevelsFacts(a, revenue, shares[1..], levels[1..], paid, retained + share);
      } else {
        PayLevelsFacts(a, revenue, shares[1..], levels[1..], paid, retained);
      }
    }
  }

  function TotalShares(shares: seq<nat>): nat {
    if shares == [] then 0 else shares[0] + TotalShares(shares[1..])
  }

  /** The levels together never take more than the revenue, whatever becomes of each: no subtraction fails. */
  lemma {:induction false} PayLevelsFits(a: Asset, revenue: nat, shares: seq<nat>, levels: seq<Level>, paid: nat,
                                         retained: nat)
    requires paid + retained + Floor(revenue, TotalShares(shares), BPS) <= a.treasury + paid <= U64_MAX
    requires revenue <= U64_MAX && TotalShares(shares) <= BPS
    ensures PayLevels(a, revenue, shares, levels, paid, retained).Ok?
    ensures var (_, paid', retained') := PayLevels(a, revenue, shares, levels, paid, retained).value;
            paid' + retained' <= paid + retained + Floor(revenue, TotalShares(shares), BPS)
    decreases |shares|
  {
    if shares != [] && levels != [] && !levels[0].Stop? {
      FirstShare(revenue, shares[0], TotalShares(shares[1..]));
      hide Floor, BpsOf;
      var share := BpsOf(revenue, shares[0]).value;
      if levels[0].Paid? {
        PayLevelsFits(a.(treasury := a.treasury - share, wallets := Credit(a.wallets, levels[0].to, share)),
                      revenue, shares[1..], levels[1..], paid + share, retained);
      } else if levels[0].Retained? {
        PayLevelsFits(a, revenue, shares[1..], levels[1..], paid, retained + share);
      } else {
        PayLevelsFits(a, revenue, shares[1..], levels[1..], paid, retained);
      }
    }
  }

  /** One level's share fits, and leaves room for the shares of the others. */
  lemma FirstShare(revenue: nat, first: nat, rest: nat)
    requires revenue <= U64_MAX && first + rest <= BPS
    ensures BpsOf(revenue, first).Ok?
    ensures BpsOf(revenue, first).value + Floor(revenue, rest, BPS) <= Floor(revenue, first + rest, BPS)
  {
    MulMono(revenue, U64_MAX, first);
    FloorPart(revenue, first, BPS);
    assert first * revenue == revenue * first && rest * revenue == revenue * rest;
    FloorSum(first, rest, revenue, BPS);
    assert (first + rest) * revenue == revenue * (first + rest);
  }

  lemma TreasuryPayoutFacts(a: Asset, gross: nat, revenue: nat, shares: seq<nat>, levels: seq<Level>,
                            beneficiar: Account, beneficiarPaid: bool)
    requires TreasuryPayout(a, gross, revenue, shares, levels, beneficiar, beneficiarPaid).Ok?
    ensures var r := TreasuryPayout(a, gross, revenue, shares, levels, beneficiar, beneficiarPaid).value;
            && r == a.(treasury := r.treasury, wallets := r.wallets)
            && r.treasury <= a.treasury <= r.treasury + gross
            && r.treasury + Sum(r.wallets, Whole) == a.treasury + Sum(a.wallets, Whole)
  {
    hide Sum, Floor;
    if gross > 0 && a.treasury >= gross {
      if revenue > 0 {
        PayLevelsFacts(a, revenue, shares, levels, 0, 0);
      }
      hide PayLevels;
      var (walked, paid, retained) := if revenue > 0 then PayLevels(a, revenue, shares, levels, 0, 0).value else (a, 0, 0);
      if gross - paid - retained > 0 && beneficiarPaid {
        CreditSum(walked.wallets, beneficiar, gross - paid - retained);
      }
    }
  }

  /** With the treasury funded and the shares valid, the payout goes through whatever the levels' outcomes are. */
  lemma TreasuryPayoutSucceeds(a: Asset, gross: nat, revenue: nat, shares: seq<nat>, levels: seq<Level>,
                               beneficiar: Account, beneficiarPaid: bool)
    requires revenue <= gross <= a.treasury <= U64_MAX && TotalShares(shares) == BPS
    ensures TreasuryPayout(a, gross, revenue, shares, levels, beneficiar, beneficiarPaid).Ok?
  {
    if gross > 0 && revenue > 0 {
      FloorPart(revenue, BPS, BPS);
      PayLevelsFits(a, revenue, shares, levels, 0, 0);
      PayLevelsFacts(a, revenue, shares, levels, 0, 0);
    }
  }

  lemma PayClaimFacts(a: Asset, holder: Account, payer: Account, claimed: nat, tipBps: nat)
    requires PayClaim(a, holder, payer, claimed, tipBps).Ok?
    ensures var r := PayClaim(a, holder, payer, claimed, tipBps).value;
            && r == a.(vault := a.vault - claimed, wallets := r.wallets) && claimed <= a.vault
            && Sum(r.wallets, Whole) == Sum(a.wallets, Whole) + claimed
  {
    var tip := BpsOf(claimed, tipBps).value;
    CreditSum(a.wallets, holder, claimed - tip);
    CreditSum(Credit(a.wallets, holder, claimed - tip), payer, tip);
  }

  /** What a settled claim of more than nothing does to the asset: it moves tokens, and then takes the claim off. */
  lemma ClaimParts(settled: Asset, holder: Account, payer: Account, claimed: nat, s: State, levels: seq<Level>,
                   beneficiarPaid: bool) returns (done: Asset, gross: nat)
    requires claimed > 0
    requires PayClaim(settled, holder, payer, claimed, s.config.claimTipBps).Ok?
    requires ClaimTreasuryShares(claimed, s.config).Ok?
    requires var (gross, revenue) := ClaimTreasuryShares(claimed, s.config).value;
             TreasuryPayout(PayClaim(settled, holder, payer, claimed, s.config.claimTipBps).value, gross, revenue,
                            s.affiliateShareBps, levels, s.beneficiar, beneficiarPaid).Ok?
    ensures var (g, revenue) := ClaimTreasuryShares(claimed, s.config).value;
            && gross == g
            && done == TreasuryPayout(PayClaim(settled, holder, payer, claimed, s.config.claimTipBps).value, gross, revenue,
                                      s.affiliateShareBps, levels, s.beneficiar, beneficiarPaid).value
    ensures claimed <= settled.vault
    ensures done == settled.(vault := settled.vault - claimed, treasury := done.treasury, wallets := done.wallets)
    ensures done.treasury <= settled.treasury <= done.treasury + gross
    ensures done.treasury + Sum(done.wallets, Whole) == settled.treasury + Sum(settled.wallets, Whole) + claimed
    ensures gross * s.config.dividendCutBps <= claimed * s.config.treasuryCutBps
  {
    PayClaimFacts(settled, holder, payer, claimed, s.config.claimTipBps);
    var paid := PayClaim(settled, holder, payer, claimed, s.config.claimTipBps).value;
    GrossBound(claimed, s.config);
    hide PayClaim, ClaimTreasuryShares, TreasuryPayout, Sum;
    var (g, revenue) := ClaimTreasuryShares(claimed, s.config).value;
    gross := g;
    TreasuryPayoutFacts(paid, gross, revenue, s.affiliateShareBps, levels, s.beneficiar, beneficiarPaid);
    done := TreasuryPayout(paid, gross, revenue, s.affiliateShareBps, levels, s.beneficiar, beneficiarPaid).value;
  }

  /** A claim pays out of the reserve and out of nothing else. */
  lemma ClaimKeeps(a: Asset, holder: Account, payer: Account, amount: nat, s: State, levels: seq<Level>,
                   beneficiarPaid: bool)
    requires ValidConfig(s.config) && AssetInv(a, s.escrows, s.totalLocked, s.config)
    requires LockedBy(s.escrows, holder) <= s.totalLocked
    requires ClaimAsset(a, holder, payer, LockedBy(s.escrows, holder), amount, s, levels, beneficiarPaid).Ok?
    ensures var r := ClaimAsset(a, holder, payer, LockedBy(s.escrows, holder), amount, s, levels, beneficiarPaid).value;
            AssetInv(r, s.escrows, s.totalLocked, s.config) && Redeemable(r) == Redeemable(a)
  {
    var locked := LockedBy(s.escrows, holder);
    ClaimSteps(a, holder, payer, locked, amount, s, levels, beneficiarPaid);
    hide *;
    var settled := Settle(a, holder, locked, locked).value;
    SettledForClaim(a, holder, s);
    var claimed := Claimed(settled, amount, PositionOf(settled, holder).claimable);
    if claimed > 0 {
      var done, gross := ClaimParts(settled, holder, payer, claimed, s, levels, beneficiarPaid);
      TakeClaim(settled, done, holder, claimed, gross, s.escrows, s.totalLocked, s.config);
    }
  }

  lemma SettledForClaim(a: Asset, holder: Account, s: State)
    requires AssetInv(a, s.escrows, s.totalLocked, s.config) && LockedBy(s.escrows, holder) <= s.totalLocked
    requires Settle(a, holder, LockedBy(s.escrows, holder), LockedBy(s.escrows, holder)).Ok?
    ensures var settled := Settle(a, holder, LockedBy(s.escrows, holder), LockedBy(s.escrows, holder)).value;
            && AssetInv(settled, s.escrows, s.totalLocked, s.config) && Redeemable(settled) == Redeemable(a)
            && holder in settled.positions
            && (forall amount :: Claimed(settled, amount, PositionOf(settled, holder).claimable)
                  <= Min(settled.positions[holder].claimable, settled.totalClaimable))
  {
    var locked := LockedBy(s.escrows, holder);
    SettleKeeps(a, holder, locked, s.escrows, s.escrows, s.totalLocked, s.totalLocked, s.config);
    SettleFacts(a, holder, locked, locked);
    hide Settle, Floor, Sum, AssetInv;
  }

  /** A claim settles, pays if there is something to pay, and takes what it paid off the position and the reserve. */
  lemma ClaimSteps(a: Asset, holder: Account, payer: Account, locked: nat, amount: nat, s: State, levels: seq<Level>,
                   beneficiarPaid: bool)
    requires ClaimAsset(a, holder, payer, locked, amount, s, levels, beneficiarPaid).Ok?
    ensures Settle(a, holder, locked, locked).Ok? && holder in Settle(a, holder, locked, locked).value.positions
    ensures var settled := Settle(a, holder, locked, locked).value;
            var p := settled.positions[holder];
            var claimed := Claimed(settled, amount, PositionOf(settled, holder).claimable);
            var r := ClaimAsset(a, holder, payer, locked, amount, s, levels, beneficiarPaid).value;
            if claimed == 0 then r == settled
            else
              && PayClaim(settled, holder, payer, claimed, s.config.claimTipBps).Ok?
              && ClaimTreasuryShares(claimed, s.config).Ok?
              && var (gross, revenue) := ClaimTreasuryShares(claimed, s.config).value;
                 var payout := TreasuryPayout(PayClaim(settled, holder, payer, claimed, s.config.claimTipBps).value, gross,
                                              revenue, s.affiliateShareBps, levels, s.beneficiar, beneficiarPaid);
                 && payout.Ok? && claimed <= p.claimable
                 && r == payout.value.(
                           positions := payout.value.positions[holder := Position(p.debt, p.claimable - claimed,
                                                                                   p.withdrawn + claimed)],
                           totalClaimable := SaturatingSub(payout.value.totalClaimable, claimed))
  {
    SettleOpens(a, holder, locked, locked);
    hide Settle, PayClaim, ClaimTreasuryShares, TreasuryPayout;
  }

  lemma SettleOpens(a: Asset, u: Account, oldLocked: nat, newLocked: nat)
    requires Settle(a, u, oldLocked, newLocked).Ok?
    ensures u in Settle(a, u, oldLocked, newLocked).value.positions
  {
    hide Floor;
  }

  lemma GrossBound(claimed: nat, cfg: Config)
    requires ClaimTreasuryShares(claimed, cfg).Ok?
    ensures ClaimTreasuryShares(claimed, cfg).value.0 * cfg.dividendCutBps <= claimed * cfg.treasuryCutBps
  {
    if claimed > 0 && cfg.dividendCutBps > 0 {
      FloorBounds(claimed, cfg.treasuryCutBps, cfg.dividendCutBps);
    }
  }

  /** Taking `claimed` off a position and off the reserve together. */
  lemma TakeClaim(a: Asset, done: Asset, holder: Account, claimed: nat, gross: nat,
                  escrows: map<Account, Escrow>, totalLocked: nat, cfg: Config)
    requires AssetInv(a, escrows, totalLocked, cfg) && holder in a.positions
    requires claimed <= a.positions[holder].claimable && claimed <= a.totalClaimable
    requires done == a.(vault := a.vault - claimed, treasury := done.treasury, wallets := done.wallets)
    requires done.treasury <= a.treasury <= done.treasury + gross
    requires done.treasury + Sum(done.wallets, Whole) == a.treasury + Sum(a.wallets, Whole) + claimed
    requires gross * cfg.dividendCutBps <= claimed * cfg.treasuryCutBps
    ensures var p := a.positions[holder];
            var r := done.(positions := done.positions[holder := Position(p.debt, p.claimable - claimed, p.withdrawn + claimed)],
                           totalClaimable := SaturatingSub(done.totalClaimable, claimed));
            AssetInv(r, escrows, totalLocked, cfg) && Redeemable(r) == Redeemable(a)
  {
    var p := a.positions[holder];
    var p' := Position(p.debt, p.claimable - claimed, p.withdrawn + claimed);
    TreasuryTakes(a.totalClaimable, claimed, a.treasury, done.treasury, gross, cfg.treasuryCutBps, cfg.dividendCutBps);
    var r := done.(positions := done.positions[holder := p'], totalClaimable := a.totalClaimable - claimed);
    assert SaturatingSub(done.totalClaimable, claimed) == a.totalClaimable - claimed;
    assert TreasuryCovers(r, cfg);
    TakeClaimBounded(a, r, holder, claimed, totalLocked);
    hide Floor, Sum, Bounded, TreasuryCovers;
    forall v | v in r.positions
      ensures r.positions[v].debt <= Accrued(LockedBy(escrows, v), r)
    {
      assert r.positions[v].debt == a.positions[v].debt;
    }
  }

  lemma TakeClaimBounded(a: Asset, r: Asset, holder: Account, claimed: nat, totalLocked: nat)
    requires Bounded(a, totalLocked) && holder in a.positions
    requires claimed <= a.positions[holder].claimable && claimed <= a.totalClaimable
    requires r.totalClaimable == a.totalClaimable - claimed
    requires r.accShare == a.accShare && r.forfeited == a.forfeited && r.resizes == a.resizes
    requires var p := a.positions[holder];
             r.positions == a.positions[holder := Position(p.debt, p.claimable - claimed, p.withdrawn + claimed)]
    ensures Bounded(r, totalLocked)
  {
    SumUpdate(a.positions, holder, r.positions[holder], Net);
    hide Floor, Sum;
    assert Overhang(r, totalLocked) == Overhang(a, totalLocked);
  }

  lemma TreasuryTakes(owed: nat, claimed: nat, held: nat, held': nat, gross: nat, t: nat, d: nat)
    requires owed * t <= held * d && claimed <= owed && held' <= held <= held' + gross && gross * d <= claimed * t
    ensures (owed - claimed) * t <= held' * d
  {
    MulMono(held, held' + gross, d);
    assert (held' + gross) * d == held' * d + gross * d;
    assert (owed - claimed) * t == owed * t - claimed * t;
  }

  // ----- redemption, sweeping and outside moves

  /** A redeemer takes a share of what is not reserved, and leaves the rest at least their share each. */
  lemma PayShareKeeps(a: Asset, holder: Account, amount: nat, supply: nat, escrows: map<Account, Escrow>,
                      totalLocked: nat, cfg: Config)
    requires AssetInv(a, escrows, totalLocked, cfg) && amount <= supply
    requires PayShare(a, holder, amount, supply).Ok?
    ensures var r := PayShare(a, holder, amount, supply).value;
            && AssetInv(r, escrows, totalLocked, cfg)
            && r.totalClaimable == a.totalClaimable
            && Redeemable(r) * supply >= Redeemable(a) * (supply - amount)
            && (amount == supply && supply > 0 ==> r.vault == r.totalClaimable)
  {
    ShareBounds(Redeemable(a), amount, supply);
    var share := PreviewLiquidateShare(Redeemable(a), amount, supply).value;
    CreditSum(a.wallets, holder, share);
    hide Floor, Sum, PreviewLiquidateShare;
    var r := PayShare(a, holder, amount, supply).value;
    assert Overhang(r, totalLocked) == Overhang(a, totalLocked);
    assert Redeemable(r) == Redeemable(a) - share;
  }

  lemma SweepKeeps(a: Asset, grinders: Account, escrows: map<Account, Escrow>, totalLocked: nat, cfg: Config)
    requires AssetInv(a, escrows, totalLocked, cfg)
    ensures AssetInv(Sweep(a, grinders), escrows, totalLocked, cfg)
    ensures Sweep(a, grinders).vault == a.totalClaimable == Sweep(a, grinders).totalClaimable
  {
    CreditSum(a.wallets, grinders, Redeemable(a));
    hide Floor, Sum;
    assert Overhang(Sweep(a, grinders), totalLocked) == Overhang(a, totalLocked);
  }

  /** Changing wallets and vault without changing what they hold together, and not below the reserve. */
  lemma WalletsKeep(a: Asset, r: Asset, escrows: map<Account, Escrow>, totalLocked: nat, cfg: Config)
    requires AssetInv(a, escrows, totalLocked, cfg)
    requires r == a.(wallets := r.wallets, vault := r.vault, issued := r.issued)
    requires a.vault <= r.vault
    requires r.vault + Sum(r.wallets, Whole) - r.issued == a.vault + Sum(a.wallets, Whole) - a.issued
    ensures AssetInv(r, escrows, totalLocked, cfg)
  {
    hide Floor, Sum;
    assert Overhang(r, totalLocked) == Overhang(a, totalLocked);
  }
}
