/** The pure price and split calculations of the GRAI program (`tokenomics.rs`). */
module Tokenomics {
  import opened Prelude
  import opened Arithmetic

  datatype Error =
    | AmountZero
    | InvalidAmount
    | MathOverflow
    | BpsTooHigh
    | InvalidCuts
    | PeriodZero
    | InvalidPrice
    | Paused
    | AssetUnknown
    | NotBribeable
    | LiquidationOpen
    | LiquidationClosed
    | QuorumNotMet
    | GrindersGrinding
    | LiquidationDelay
    | RedeemPeriodActive
    | InsufficientGrai
    | InsufficientFunds
    | InsolventBook
    | ZeroAddress
    | AlreadyBound
    | ReferralLoop
    | InvalidReferrer
    | InvalidRemainingAccounts

  /** Basis points denominator. */
  const BPS: nat := 10_000

  /** Scale of the dividend index. */
  const PRECISION: nat := 1_000_000_000_000_000_000

  const USD_DECIMALS: nat := 6
  const MAX_CLAIM_TIP_BPS: nat := 500
  const MAX_UNLOCK_PENALTY_BPS: nat := 1_000
  const MAX_POACH_FEE_BPS: nat := 1_000

  datatype Config = Config(
    dividendCutBps: nat,
    treasuryCutBps: nat,
    revenueShareBps: nat,
    claimTipBps: nat,
    bribePremiumBps: nat,
    quorumBps: nat,
    unlockPenaltyBps: nat,
    poachFeeBps: nat,
    liquidationPeriod: nat,
    redeemPeriod: nat,
    mintPremiumBpsPerYear: nat)

  /** An oracle answer: `price / 10^decimals` dollars per whole token. */
  datatype Price = Price(price: int, decimals: nat)

  function ValidateConfig(cfg: Config): Outcome<Error> {
    if cfg.dividendCutBps > BPS || cfg.treasuryCutBps > BPS then Fail(BpsTooHigh)
    else if cfg.revenueShareBps > cfg.treasuryCutBps then Fail(BpsTooHigh)
    else if cfg.claimTipBps > MAX_CLAIM_TIP_BPS then Fail(BpsTooHigh)
    else if !(2 <= cfg.quorumBps < BPS) then Fail(BpsTooHigh)
    else if cfg.dividendCutBps == 0 then Fail(InvalidCuts)
    else if cfg.unlockPenaltyBps > MAX_UNLOCK_PENALTY_BPS then Fail(BpsTooHigh)
    else if cfg.poachFeeBps > MAX_POACH_FEE_BPS then Fail(BpsTooHigh)
    else if 2 * cfg.bribePremiumBps > BPS then Fail(BpsTooHigh)
    else if cfg.dividendCutBps + cfg.treasuryCutBps != BPS then Fail(InvalidCuts)
    else if cfg.liquidationPeriod == 0 || cfg.redeemPeriod == 0 then Fail(PeriodZero)
    else if cfg.mintPremiumBpsPerYear > BPS then Fail(BpsTooHigh)
    else Pass
  }

  predicate ValidConfig(cfg: Config) {
    ValidateConfig(cfg).Pass?
  }

  // ----- checked arithmetic

  function Fits64(x: nat): Result<nat, Error> {
    if x <= U64_MAX then Ok(x) else Err(MathOverflow)
  }

  function Fits128(x: nat): Result<nat, Error> {
    if x <= U128_MAX then Ok(x) else Err(MathOverflow)
  }

  /** `checked_sub`. */
  function Minus(a: nat, b: nat): Result<nat, Error> {
    if b <= a then Ok(a - b) else Err(MathOverflow)
  }

  /** `checked_mul` in u128. */
  function Times128(a: nat, b: nat): Result<nat, Error> {
    Fits128(a * b)
  }

  /** `checked_div`. */
  function DividedBy(a: nat, b: nat): Result<nat, Error> {
    if b == 0 then Err(MathOverflow) else Ok(a / b)
  }

  function CheckedFloor128(a: nat, b: nat, d: nat): Result<nat, Error> {
    if d == 0 || a * b > U128_MAX then Err(MathOverflow) else Ok(Floor(a, b, d))
  }

  function CheckedFloor(a: nat, b: nat, d: nat): Result<nat, Error> {
    var value :- CheckedFloor128(a, b, d);
    Fits64(value)
  }

  function BpsOf(amount: nat, bps: nat): Result<nat, Error> {
    CheckedFloor(amount, bps, BPS)
  }

  function BpsCeil(amount: nat, bps: nat): Result<nat, Error> {
    if bps == 0 || amount == 0 then Ok(0)
    else if amount * bps + (BPS - 1) > U128_MAX then Err(MathOverflow)
    else Fits64((amount * bps + (BPS - 1)) / BPS)
  }

  // ----- cuts

  /** The `(treasury, dividend)` split of a yield or of a bribe's cut pool. */
  function SplitCuts(amount: nat, cfg: Config): Result<(nat, nat), Error> {
    var dividend :- BpsOf(amount, cfg.dividendCutBps);
    var treasury :- Minus(amount, dividend);
    Ok((treasury, dividend))
  }

  /**
   * Nothing is lost in the split, and the floor falls on the dividend side: the treasury holds at least
   * `treasuryCut / dividendCut` for every unit of dividend.
   */
  lemma SplitCutsFavourTreasury(amount: nat, cfg: Config)
    requires ValidConfig(cfg) && SplitCuts(amount, cfg).Ok?
    ensures var (treasury, dividend) := SplitCuts(amount, cfg).value;
            && treasury + dividend == amount
            && dividend * cfg.treasuryCutBps <= treasury * cfg.dividendCutBps
  {
    var d, t := cfg.dividendCutBps, cfg.treasuryCutBps;
    var (treasury, dividend) := SplitCuts(amount, cfg).value;
    FloorBounds(amount, d, BPS);
    assert dividend * t + dividend * d == dividend * BPS by {
      assert dividend * (t + d) == dividend * t + dividend * d;
    }
    assert treasury * d == amount * d - dividend * d;
  }

  // ----- unlock

  /** The `(returned, penalty)` split of an unlock. */
  function PreviewUnlock(amount: nat, escrowed: nat, penaltyBps: nat): Result<(nat, nat), Error> {
    if amount > escrowed then Err(InvalidAmount)
    else if penaltyBps == 0 || amount == 0 then Ok((amount, 0))
    else if amount < (BPS + penaltyBps - 1) / penaltyBps then Err(InvalidAmount)
    else
      var penalty :- BpsCeil(amount, penaltyBps);
      var returned :- Minus(amount, penalty);
      Ok((returned, penalty))
  }

  /**
   * An accepted unlock returns everything but the least penalty that is no less than the configured share;
   * the size floor applies to full exits as well, and it is what keeps the ceiling from taking more than
   * twice the share.
   */
  lemma UnlockPenalty(amount: nat, escrowed: nat, penaltyBps: nat)
    requires 0 < amount <= escrowed <= U64_MAX && penaltyBps <= MAX_UNLOCK_PENALTY_BPS
    ensures var r := PreviewUnlock(amount, escrowed, penaltyBps);
            && (r.Ok? <==> penaltyBps == 0 || amount * penaltyBps >= BPS)
            && (r.Ok? ==>
                  var (returned, penalty) := r.value;
                  && returned + penalty == amount
                  && (penalty - 1) * BPS < amount * penaltyBps <= penalty * BPS
                  && penalty * BPS <= 2 * (amount * penaltyBps))
  {
    if penaltyBps > 0 {
      var least := (BPS + penaltyBps - 1) / penaltyBps;
      FloorBounds(BPS + penaltyBps - 1, 1, penaltyBps);
      assert (BPS + penaltyBps - 1) * 1 == BPS + penaltyBps - 1;
      if amount >= least {
        MulMono(least, amount, penaltyBps);
      } else {
        MulMono(amount, least - 1, penaltyBps);
        assert (least - 1) * penaltyBps == least * penaltyBps - penaltyBps;
      }
      MulMono(penaltyBps, MAX_UNLOCK_PENALTY_BPS, amount);
    }
  }

  // ----- prices

  function Pow10(n: nat): nat {
    if n == 0 then 1 else 10 * Pow10(n - 1)
  }

  /** Dollar value of `amount` base units. */
  function UsdValue(amount: nat, assetDecimals: nat, price: Price): Result<nat, Error> {
    if amount == 0 then Ok(0)
    else if price.price <= 0 then Err(InvalidPrice)
    else
      var scaled :- Times128(amount, price.price);
      var numerator :- Times128(scaled, Pow10(USD_DECIMALS));
      var denominator :- Times128(Pow10(assetDecimals), Pow10(price.decimals));
      DividedBy(numerator, denominator)
  }

  /** Base units of the payment asset worth `usd` dollars. */
  function SettlementAmount(usd: nat, decimals: nat, price: Price): Result<nat, Error> {
    if price.price <= 0 then Err(InvalidPrice)
    else
      var scaled :- Times128(usd, Pow10(decimals));
      var numerator :- Times128(scaled, Pow10(price.decimals));
      var denominator :- Times128(price.price, Pow10(USD_DECIMALS));
      var amount :- DividedBy(numerator, denominator);
      Fits64(amount)
  }

  // ----- bribes

  /** The ask for a vote, and the part of it above or below the book value. */
  datatype Quote = Quote(ask: nat, premium: nat, discount: nat)

  /** The ask for `book` when `voteBps` of the supply has voted. */
  function AskFor(book: nat, voteBps: nat, halfBps: nat, maxAdj: nat): Quote {
    var span := if halfBps > 0 then halfBps else 1;
    if voteBps < halfBps then
      var bribe := Floor(book, BPS + Floor(maxAdj, halfBps - voteBps, span), BPS);
      Quote(bribe, SaturatingSub(bribe, book), 0)
    else
      var discount := SaturatingSub(book, FullAsk(book, Floor(maxAdj, voteBps - halfBps, span))) / 2;
      Quote(SaturatingSub(book, discount), 0, discount)
  }

  /** The book value less the whole gap; the ask concedes only half of that gap. */
  function FullAsk(book: nat, adj: nat): nat {
    if adj >= BPS then 0 else Floor(book, BPS - adj, BPS)
  }

  function PreviewBribe(amount: nat, supply: nat, totalValue: nat, totalVoted: nat,
                        quorumBps: nat, premiumBps: nat, decimals: nat, price: Price): Result<Quote, Error> {
    if amount == 0 then Err(AmountZero)
    else
      var value :- if supply > 0 then CheckedFloor128(amount, totalValue, supply) else Ok(0);
      var book :- SettlementAmount(value, decimals, price);
      var voteBps :- if supply > 0 then CheckedFloor128(totalVoted, BPS, supply) else Ok(0);
      var quote := AskFor(book, voteBps, quorumBps / 2, premiumBps);
      if quote.ask == 0 then Err(AmountZero)
      else if quote.ask > U64_MAX then Err(MathOverflow)
      else Ok(quote)
  }

  /** A premium regime asks no less than book, a discount regime no more, and the parts are exact. */
  lemma AskAroundBook(book: nat, voteBps: nat, halfBps: nat, maxAdj: nat)
    ensures var q := AskFor(book, voteBps, halfBps, maxAdj);
            && q.ask + q.discount == book + q.premium
            && (voteBps < halfBps ==> q.discount == 0)
            && (voteBps >= halfBps ==> q.premium == 0 && 2 * q.discount <= book)
  {
    if voteBps < halfBps {
      var adj := Floor(maxAdj, halfBps - voteBps, halfBps);
      MulMono(BPS, BPS + adj, book);
      FloorGreatest(book, book, BPS + adj, BPS);
    } else {
      var adj := Floor(maxAdj, voteBps - halfBps, if halfBps > 0 then halfBps else 1);
      if adj < BPS {
        FloorPart(book, BPS - adj, BPS);
      }
    }
  }

  /** With the book fixed, the ask never rises as votes come in, within and across the two regimes. */
  lemma AskNonIncreasing(book: nat, voteBps: nat, voteBps': nat, halfBps: nat, maxAdj: nat)
    requires voteBps <= voteBps'
    ensures AskFor(book, voteBps', halfBps, maxAdj).ask <= AskFor(book, voteBps, halfBps, maxAdj).ask
  {
    AskAroundBook(book, voteBps, halfBps, maxAdj);
    AskAroundBook(book, voteBps', halfBps, maxAdj);
    var span := if halfBps > 0 then halfBps else 1;
    if voteBps' < halfBps {
      FloorMonoSecond(maxAdj, halfBps - voteBps', halfBps - voteBps, span);
      FloorMonoSecond(book, BPS + Floor(maxAdj, halfBps - voteBps', span), BPS + Floor(maxAdj, halfBps - voteBps, span), BPS);
    } else if voteBps >= halfBps {
      var adj, adj' := Floor(maxAdj, voteBps - halfBps, span), Floor(maxAdj, voteBps' - halfBps, span);
      FloorMonoSecond(maxAdj, voteBps - halfBps, voteBps' - halfBps, span);
      if adj' < BPS {
        FloorMonoSecond(book, BPS - adj', BPS - adj, BPS);
      }
    }
  }

  lemma PreviewBribeNonIncreasing(amount: nat, supply: nat, totalValue: nat, voted: nat, voted': nat,
                                  quorumBps: nat, premiumBps: nat, decimals: nat, price: Price)
    requires voted <= voted'
    requires PreviewBribe(amount, supply, totalValue, voted, quorumBps, premiumBps, decimals, price).Ok?
    requires PreviewBribe(amount, supply, totalValue, voted', quorumBps, premiumBps, decimals, price).Ok?
    ensures PreviewBribe(amount, supply, totalValue, voted', quorumBps, premiumBps, decimals, price).value.ask
         <= PreviewBribe(amount, supply, totalValue, voted, quorumBps, premiumBps, decimals, price).value.ask
  {
    var value := if supply > 0 then CheckedFloor128(amount, totalValue, supply).value else 0;
    var book := SettlementAmount(value, decimals, price).value;
    if supply > 0 {
      FloorMono(voted, voted', BPS, supply);
      AskNonIncreasing(book, Floor(voted, BPS, supply), Floor(voted', BPS, supply), quorumBps / 2, premiumBps);
    }
  }

  /** The part of the ask that funds the cuts: half of a premium, or the carved half of a discount. */
  function CutPool(quote: Quote): Result<nat, Error> {
    if quote.premium > 0 then
      var body :- Minus(quote.ask, quote.premium);
      var share :- CheckedFloor(quote.ask, body, quote.ask);
      var rest :- Minus(quote.ask, share);
      Ok(rest / 2)
    else
      CheckedFloor(quote.ask, quote.discount, quote.ask)
  }

  /** What the voter keeps: book and the larger half of a premium, or the whole discounted ask. */
  lemma VoterCut(book: nat, voteBps: nat, halfBps: nat, maxAdj: nat)
    requires 0 < AskFor(book, voteBps, halfBps, maxAdj).ask <= U64_MAX
    ensures var q := AskFor(book, voteBps, halfBps, maxAdj);
            && CutPool(q).Ok? && CutPool(q).value <= q.ask
            && var voterCut := q.ask - CutPool(q).value;
            && (q.premium > 0 ==> voterCut == book + (q.premium + 1) / 2)
            && (q.premium == 0 && voteBps < halfBps ==> voterCut == book)
            && (voteBps >= halfBps ==>
                  var full := FullAsk(book, Floor(maxAdj, voteBps - halfBps, if halfBps > 0 then halfBps else 1));
                  full <= voterCut <= full + 1)
  {
    var q := AskFor(book, voteBps, halfBps, maxAdj);
    AskAroundBook(book, voteBps, halfBps, maxAdj);
    var part := if q.premium > 0 then q.ask - q.premium else q.discount;
    assert part <= q.ask;
    MulMono(q.ask, U64_MAX, part);
    assert q.ask * part <= U64_MAX * U64_MAX <= U128_MAX by {
      MulMono(part, U64_MAX, U64_MAX);
    }
    SelfFloor(q.ask, part);
    if voteBps >= halfBps {
      var adj := Floor(maxAdj, voteBps - halfBps, if halfBps > 0 then halfBps else 1);
      if adj < BPS {
        FloorPart(book, BPS - adj, BPS);
      }
    }
  }

  lemma SelfFloor(a: nat, b: nat)
    requires a > 0
    ensures Floor(a, b, a) == b
  {
    FloorGreatest(b, a, b, a);
    FloorLeast(b, a, b, a);
  }

  // ----- quorum, redemption and book value

  predicate HasQuorum(totalVoted: nat, supply: nat, quorumBps: nat) {
    totalVoted * BPS > supply * quorumBps
  }

  /** Pro-rata share of one vault for `amount` of `supply`. */
  function PreviewLiquidateShare(balance: nat, amount: nat, supply: nat): Result<nat, Error> {
    if balance == 0 || supply == 0 then Ok(0) else CheckedFloor(balance, amount, supply)
  }

  /** Book value that leaves with `amount` of `supply`. */
  function LiquidateValue(amount: nat, supply: nat, totalValue: nat): Result<nat, Error> {
    if supply == 0 then Ok(0) else CheckedFloor128(amount, totalValue, supply)
  }

  function PreviewDepositBook(value: nat, supply: nat, totalValue: nat): Result<nat, Error> {
    var minted :- if totalValue > 0 then CheckedFloor128(value, supply, totalValue) else Ok(value);
    Fits64(minted)
  }

  /** A share never exceeds the balance it is taken from, and leaves the rest no worse off per unit. */
  lemma ShareBounds(balance: nat, amount: nat, supply: nat)
    requires amount <= supply && PreviewLiquidateShare(balance, amount, supply).Ok?
    ensures var share := PreviewLiquidateShare(balance, amount, supply).value;
            && share <= balance
            && (balance - share) * supply >= balance * (supply - amount)
            && (amount == supply && supply > 0 ==> share == balance)
  {
    if balance > 0 && supply > 0 {
      RemainderRatio(balance, amount, supply);
      FloorPart(balance, amount, supply);
    }
  }

  /** Two redemptions in a row pay at most one joint redemption, and at most one unit less. */
  lemma SplitRedeem(balance: nat, first: nat, second: nat, supply: nat)
    requires first < supply && first + second <= supply
    requires PreviewLiquidateShare(balance, first + second, supply).Ok?
    ensures var once := PreviewLiquidateShare(balance, first + second, supply).value;
            && PreviewLiquidateShare(balance, first, supply).Ok?
            && var p := PreviewLiquidateShare(balance, first, supply).value;
            && p <= balance
            && PreviewLiquidateShare(balance - p, second, supply - first).Ok?
            && var q := PreviewLiquidateShare(balance - p, second, supply - first).value;
            p + q <= once <= p + q + 1
  {
    if balance > 0 {
      SplitFloor(balance, first, second, supply);
      var p := Floor(balance, first, supply);
      assert balance * first <= balance * (first + second) by {
        MulMono(first, first + second, balance);
      }
      assert (balance - p) * second <= balance * (first + second) by {
        MulMono(balance - p, balance, second);
        MulMono(second, first + second, balance);
      }
      FloorPart(balance - p, second, supply - first);
    }
  }

  /** Book value per share never falls when `minted <= value * supply / totalValue` shares are issued. */
  lemma DepositKeepsPrice(value: nat, supply: nat, totalValue: nat, minted: nat)
    requires totalValue > 0 && PreviewDepositBook(value, supply, totalValue).Ok?
    requires minted <= PreviewDepositBook(value, supply, totalValue).value
    ensures (totalValue + value) * supply >= totalValue * (supply + minted)
  {
    FloorBounds(value, supply, totalValue);
    MulMono(minted, Floor(value, supply, totalValue), totalValue);
    assert (totalValue + value) * supply == totalValue * supply + value * supply;
    assert totalValue * (supply + minted) == totalValue * supply + minted * totalValue;
  }

  lemma RedeemKeepsPrice(amount: nat, supply: nat, totalValue: nat)
    requires 0 < supply && amount <= supply && LiquidateValue(amount, supply, totalValue).Ok?
    ensures var value := LiquidateValue(amount, supply, totalValue).value;
            && value <= totalValue
            && (totalValue - value) * supply >= totalValue * (supply - amount)
            && (amount < supply && totalValue > 0 ==> value < totalValue)
            && (amount == supply ==> value == totalValue)
  {
    var value := Floor(amount, totalValue, supply);
    assert amount * totalValue == totalValue * amount;
    assert value == Floor(totalValue, amount, supply);
    RemainderRatio(totalValue, amount, supply);
    FloorPart(totalValue, amount, supply);
    if amount < supply && totalValue > 0 {
      MulMono(amount, supply - 1, totalValue);
      assert amount * totalValue <= (supply - 1) * totalValue == supply * totalValue - totalValue;
      FloorBounds(amount, totalValue, supply);
      MulCancelLess(value, totalValue, supply);
    }
  }

  /** Redeeming what a deposit minted never returns more book value than was deposited. */
  lemma DepositThenRedeem(value: nat, supply: nat, totalValue: nat, minted: nat)
    requires totalValue > 0 || supply == 0
    requires PreviewDepositBook(value, supply, totalValue).Ok?
    requires 0 < minted <= PreviewDepositBook(value, supply, totalValue).value
    ensures LiquidateValue(minted, supply + minted, totalValue + value).Ok? ==>
              LiquidateValue(minted, supply + minted, totalValue + value).value <= value
  {
    var total := totalValue + value;
    assert minted * total <= value * (supply + minted) by {
      assert minted * total == minted * totalValue + minted * value;
      assert value * (supply + minted) == value * supply + value * minted;
      if totalValue > 0 {
        FloorBounds(value, supply, totalValue);
        MulMono(minted, Floor(value, supply, totalValue), totalValue);
      }
    }
    FloorLeast(value, minted, total, supply + minted);
  }
}
