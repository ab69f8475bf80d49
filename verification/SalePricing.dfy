/** What a partial fill of a sale lot costs, and what any run of fills adds up to. */
module SalePricing {
  import opened Prelude
  import opened Arithmetic
  import opened GrsTypes

  /** What is left of a lot: `grsAmount` for `assetAmount` of the quote asset. */
  datatype Lot = Lot(assetAmount: nat, grsAmount: nat)

  /** The quote for `amount` out of `remaining` listed for `assetAmount`. */
  function QuoteCost(amount: nat, remaining: nat, assetAmount: nat): Result<nat, GrsError> {
    if assetAmount == 0 || remaining == 0 then Err(SaleClosed)
    else if amount == 0 then Err(ZeroAmount)
    else if amount > remaining then Err(SaleExceeded)
    else if amount == remaining then Ok(assetAmount)
    else if amount * assetAmount > U128_MAX then Err(InvalidPayment)
    else
      var cost := amount * assetAmount / remaining;
      if cost == 0 then Err(ZeroAmount)
      else if cost > U64_MAX then Err(InvalidPayment)
      else Ok(cost)
  }

  /** Every accepted quote is the floor of the pro-rata price; taking all of the remainder takes all of the price. */
  lemma QuoteIsFloor(amount: nat, remaining: nat, assetAmount: nat)
    requires QuoteCost(amount, remaining, assetAmount).Ok?
    ensures 0 < amount <= remaining
    ensures QuoteCost(amount, remaining, assetAmount).value == Floor(assetAmount, amount, remaining)
    ensures 0 < QuoteCost(amount, remaining, assetAmount).value <= assetAmount
    ensures QuoteCost(amount, remaining, assetAmount).value == assetAmount <==> amount == remaining
  {
    FloorPart(assetAmount, amount, remaining);
    assert amount * assetAmount == assetAmount * amount;
    if amount < remaining {
      FloorBelowPot(assetAmount, amount, remaining);
    }
  }

  lemma FloorBelowPot(pot: nat, part: nat, whole: nat)
    requires part < whole && pot > 0
    ensures Floor(pot, part, whole) < pot
  {
    FloorBounds(pot, part, whole);
    MulMono(part, whole - 1, pot);
    assert (whole - 1) * pot == pot * whole - pot;
    MulCancelLess(Floor(pot, part, whole), pot, whole);
  }

  lemma ProductFits(a: nat, b: nat)
    requires a <= U64_MAX && b <= U64_MAX
    ensures a * b <= U128_MAX
  {
    MulMono(a, U64_MAX, b);
    MulMono(b, U64_MAX, U64_MAX);
  }

  lemma QuotientIsZero(n: nat, d: nat)
    requires d > 0
    ensures n / d == 0 <==> n < d
  {
    if n / d == 0 {
      assert n == (n / d) * d + n % d;
    }
  }

  /** On 64-bit amounts a quote is refused only for a closed lot, for too much, or when it would be free. */
  lemma QuoteNeverOverflows(amount: nat, remaining: nat, assetAmount: nat)
    requires remaining <= U64_MAX && assetAmount <= U64_MAX
    ensures QuoteCost(amount, remaining, assetAmount) != Err(InvalidPayment)
    ensures QuoteCost(amount, remaining, assetAmount).Ok? <==>
      && 0 < amount <= remaining && assetAmount > 0
      && (amount == remaining || amount * assetAmount >= remaining)
  {
    if assetAmount > 0 && 0 < amount < remaining {
      ProductFits(amount, assetAmount);
      FloorPart(assetAmount, amount, remaining);
      var n := amount * assetAmount;
      assert n == assetAmount * amount;
      QuotientIsZero(n, remaining);
    }
  }

  // ----- runs of buys

  /** The lot after one buy and what was paid; a refused buy changes nothing. */
  function Fill(lot: Lot, amount: nat): (Lot, nat) {
    match QuoteCost(amount, lot.grsAmount, lot.assetAmount)
    case Ok(cost) =>
      QuoteIsFloor(amount, lot.grsAmount, lot.assetAmount);
      (Lot(lot.assetAmount - cost, lot.grsAmount - amount), cost)
    case Err(_) => (lot, 0)
  }

  /** The lot after a run of buys and everything collected. */
  function Sell(lot: Lot, amounts: seq<nat>): (Lot, nat)
    decreases |amounts|
  {
    if amounts == [] then (lot, 0)
    else
      var (left, cost) := Fill(lot, amounts[0]);
      var (end, collected) := Sell(left, amounts[1..]);
      (end, cost + collected)
  }

  /** `a` asks no more per unit than `b`. */
  predicate NoCheaper(a: Lot, b: Lot) {
    a.assetAmount * b.grsAmount <= b.assetAmount * a.grsAmount
  }

  lemma FillFacts(lot: Lot, amount: nat)
    ensures var (left, cost) := Fill(lot, amount);
            && cost + left.assetAmount == lot.assetAmount
            && left.grsAmount <= lot.grsAmount
            && NoCheaper(lot, left)
            && (left != lot ==> (left.grsAmount == 0 <==> left.assetAmount == 0))
  {
    if QuoteCost(amount, lot.grsAmount, lot.assetAmount).Ok? {
      QuoteIsFloor(amount, lot.grsAmount, lot.assetAmount);
      RemainderRatio(lot.assetAmount, amount, lot.grsAmount);
    }
  }

  lemma NoCheaperTransitive(a: Lot, b: Lot, c: Lot)
    requires NoCheaper(a, b) && NoCheaper(b, c)
    requires b.grsAmount == 0 ==> b.assetAmount == 0 && c == b
    ensures NoCheaper(a, c)
  {
    if b.grsAmount > 0 {
      RatioTransitive(a.assetAmount, a.grsAmount, b.assetAmount, b.grsAmount, c.assetAmount, c.grsAmount);
    }
  }

  /**
   * Whatever is bought in whatever portions, what was collected and what is still asked for add up to the listed
   * price; the price asked per remaining unit never falls; and a lot that sells out has collected its whole price.
   */
  lemma {:induction false} SellTelescopes(lot: Lot, amounts: seq<nat>)
    requires lot.grsAmount > 0 && lot.assetAmount > 0
    ensures var (end, collected) := Sell(lot, amounts);
            && collected + end.assetAmount == lot.assetAmount
            && end.grsAmount <= lot.grsAmount
            && NoCheaper(lot, end)
            && (end.grsAmount == 0 <==> end.assetAmount == 0)
            && (end.grsAmount == 0 ==> collected == lot.assetAmount)
    decreases |amounts|
  {
    if amounts != [] {
      var left := Fill(lot, amounts[0]).0;
      FillFacts(lot, amounts[0]);
      if left.grsAmount > 0 {
        SellTelescopes(left, amounts[1..]);
        NoCheaperTransitive(lot, left, Sell(left, amounts[1..]).0);
      } else {
        ClosedStaysClosed(left, amounts[1..]);
      }
    }
  }

  lemma {:induction false} ClosedStaysClosed(lot: Lot, amounts: seq<nat>)
    requires lot.grsAmount == 0
    ensures Sell(lot, amounts) == (lot, 0)
    decreases |amounts|
  {
    if amounts != [] {
      ClosedStaysClosed(lot, amounts[1..]);
    }
  }

  /** The same amount never costs a later buyer less than it would have cost before the run. */
  lemma LaterBuyerPaysNoLess(lot: Lot, amounts: seq<nat>, amount: nat)
    requires lot.grsAmount > 0 && lot.assetAmount > 0
    requires var end := Sell(lot, amounts).0;
             QuoteCost(amount, end.grsAmount, end.assetAmount).Ok?
    requires QuoteCost(amount, lot.grsAmount, lot.assetAmount).Ok?
    ensures var end := Sell(lot, amounts).0;
            QuoteCost(amount, lot.grsAmount, lot.assetAmount).value <= QuoteCost(amount, end.grsAmount, end.assetAmount).value
  {
    var end := Sell(lot, amounts).0;
    SellTelescopes(lot, amounts);
    hide Sell;
    QuoteIsFloor(amount, lot.grsAmount, lot.assetAmount);
    QuoteIsFloor(amount, end.grsAmount, end.assetAmount);
    FloorRatio(lot.assetAmount, lot.grsAmount, end.assetAmount, end.grsAmount, amount);
  }

  /**
   * Whatever was bought in between, a later fill falls short of an earlier one's price per unit by less than one
   * unit of the quote asset in all, and does not fall short of it when it is not rounded.
   */
  lemma PaidPriceFallsOnlyByRounding(lot: Lot, first: nat, between: seq<nat>, later: nat)
    requires QuoteCost(first, lot.grsAmount, lot.assetAmount).Ok?
    requires var end := Sell(Fill(lot, first).0, between).0;
             QuoteCost(later, end.grsAmount, end.assetAmount).Ok?
    ensures var end := Sell(Fill(lot, first).0, between).0;
            var paid := QuoteCost(first, lot.grsAmount, lot.assetAmount).value;
            var paidLater := QuoteCost(later, end.grsAmount, end.assetAmount).value;
            && (paidLater + 1) * first > paid * later
            && (end.assetAmount * later % end.grsAmount == 0 ==> paidLater * first >= paid * later)
  {
    var left := Fill(lot, first).0;
    var end := Sell(left, between).0;
    QuoteIsFloor(first, lot.grsAmount, lot.assetAmount);
    FillFacts(lot, first);
    if left.grsAmount == 0 {
      ClosedStaysClosed(left, between);
    }
    SellTelescopes(left, between);
    NoCheaperTransitive(lot, left, end);
    QuoteIsFloor(later, end.grsAmount, end.assetAmount);
    FloorBounds(lot.assetAmount, first, lot.grsAmount);
    var paid := Floor(lot.assetAmount, first, lot.grsAmount);
    var paidLater := Floor(end.assetAmount, later, end.grsAmount);
    hide *;
    FloorAround(end.assetAmount, later, end.grsAmount);
    RatioTransitive(paid, first, lot.assetAmount, lot.grsAmount, end.assetAmount, end.grsAmount);
    ScaledPrices(paid, first, paidLater + 1, later, end.assetAmount, end.grsAmount);
    ScaledPrices(paid, first, paidLater, later, end.assetAmount, end.grsAmount);
  }

  /** A floor is the exact quotient when nothing is rounded, and one more is above it in any case. */
  lemma FloorAround(pot: nat, part: nat, whole: nat)
    requires whole > 0
    ensures pot * part < (Floor(pot, part, whole) + 1) * whole
    ensures pot * part % whole == 0 ==> pot * part == Floor(pot, part, whole) * whole
  {
    FloorBounds(pot, part, whole);
    var n := pot * part;
    assert n == n / whole * whole + n % whole;
    assert (Floor(pot, part, whole) + 1) * whole == Floor(pot, part, whole) * whole + whole;
  }

  lemma Swap(a: int, b: int, c: int)
    ensures (a * b) * c == (a * c) * b
  {
  }

  /** `bound` stands for the later price of `later` units, rounded up or exact. */
  lemma ScaledPrices(paid: nat, first: nat, bound: nat, later: nat, price: nat, whole: nat)
    requires whole > 0 && first > 0 && paid * whole <= price * first
    ensures price * later < bound * whole ==> paid * later < bound * first
    ensures price * later == bound * whole ==> paid * later <= bound * first
  {
    MulMono(paid * whole, price * first, later);
    Swap(paid, whole, later);
    Swap(price, first, later);
    Swap(bound, whole, first);
    var owed := price * later;
    assert (paid * later) * whole <= owed * first;
    if owed < bound * whole {
      MulMono(owed + 1, bound * whole, first);
      assert (owed + 1) * first == owed * first + first;
      MulCancelLess(paid * later, bound * first, whole);
    } else if owed == bound * whole {
      MulCancel(paid * later, bound * first, whole);
    }
  }

  /**
   * Exactly when a later fill is cheaper per unit than an earlier one: what the later rounding takes off, weighed by
   * the earlier amount, exceeds what the price asked has gained on the price paid, weighed by the later amount.
   */
  lemma PaidPriceFallsIff(lot: Lot, first: nat, between: seq<nat>, later: nat)
    requires QuoteCost(first, lot.grsAmount, lot.assetAmount).Ok?
    requires var end := Sell(Fill(lot, first).0, between).0;
             QuoteCost(later, end.grsAmount, end.assetAmount).Ok?
    ensures var end := Sell(Fill(lot, first).0, between).0;
            var paid := QuoteCost(first, lot.grsAmount, lot.assetAmount).value;
            var paidLater := QuoteCost(later, end.grsAmount, end.assetAmount).value;
            paidLater * first < paid * later <==>
              later * (first * end.assetAmount - paid * end.grsAmount)
                < first * ((later * end.assetAmount) % end.grsAmount)
  {
    var end := Sell(Fill(lot, first).0, between).0;
    var paid := QuoteCost(first, lot.grsAmount, lot.assetAmount).value;
    QuoteIsFloor(later, end.grsAmount, end.assetAmount);
    assert later * end.assetAmount == end.assetAmount * later;
    hide *;
    CheaperIff(paid, first, later, end.assetAmount, end.grsAmount);
  }

  lemma CheaperIff(paid: nat, first: nat, later: nat, price: nat, whole: nat)
    requires whole > 0
    ensures Floor(price, later, whole) * first < paid * later <==>
              later * (first * price - paid * whole) < first * ((later * price) % whole)
  {
    var n := later * price;
    var q, r := n / whole, n % whole;
    assert n == q * whole + r;
    assert price * later == n;
    assert Floor(price, later, whole) == q;
    hide Floor;
    // both sides, times `whole`, differ by the same amount from `first * n`
    assert later * (first * price - paid * whole) == later * (first * price) - later * (paid * whole);
    assert later * (first * price) == first * n;
    assert first * n == first * (q * whole) + first * r;
    assert later * (paid * whole) == (paid * later) * whole;
    assert first * (q * whole) == (q * first) * whole;
    CancelWhole(q * first, paid * later, whole);
  }

  lemma CancelWhole(x: int, y: int, whole: nat)
    requires whole > 0
    ensures x < y <==> x * whole < y * whole
  {
    if x < y {
      MulMono(x + 1, y, whole);
      assert (x + 1) * whole == x * whole + whole;
    } else {
      MulMono(y, x, whole);
    }
  }

  /** For the very next buyer only the two roundings count. */
  lemma NextPriceFallsIff(lot: Lot, first: nat, later: nat)
    requires QuoteCost(first, lot.grsAmount, lot.assetAmount).Ok?
    requires var left := Fill(lot, first).0;
             QuoteCost(later, left.grsAmount, left.assetAmount).Ok?
    ensures var left := Fill(lot, first).0;
            var paid := QuoteCost(first, lot.grsAmount, lot.assetAmount).value;
            var paidLater := QuoteCost(later, left.grsAmount, left.assetAmount).value;
            paidLater * first < paid * later <==>
              later * ((first * lot.assetAmount) % lot.grsAmount)
                < first * ((later * left.assetAmount) % left.grsAmount)
  {
    PaidPriceFallsIff(lot, first, [], later);
    QuoteIsFloor(first, lot.grsAmount, lot.assetAmount);
    assert Sell(Fill(lot, first).0, []).0 == Fill(lot, first).0;
    var left := Fill(lot, first).0;
    var paid := Floor(lot.assetAmount, first, lot.grsAmount);
    hide QuoteCost, Sell, Fill;
    GainIsRounding(lot, first);
  }

  /** What the price asked gains by one fill is what the fill was rounded down by. */
  lemma GainIsRounding(lot: Lot, first: nat)
    requires 0 < first <= lot.grsAmount
    ensures var paid := Floor(lot.assetAmount, first, lot.grsAmount);
            first * (lot.assetAmount - paid) - paid * (lot.grsAmount - first)
            == (first * lot.assetAmount) % lot.grsAmount
  {
    var paid := Floor(lot.assetAmount, first, lot.grsAmount);
    var n := first * lot.assetAmount;
    assert lot.assetAmount * first == n;
    assert n == n / lot.grsAmount * lot.grsAmount + n % lot.grsAmount;
    assert first * (lot.assetAmount - paid) == n - first * paid;
    assert paid * (lot.grsAmount - first) == paid * lot.grsAmount - paid * first;
  }

  /** Two of four units cost three of six; the next unit costs one: less per unit, by rounding. */
  lemma PaidPriceCanFall()
    ensures Fill(Lot(6, 4), 2) == (Lot(3, 2), 3) && Fill(Lot(3, 2), 1) == (Lot(2, 1), 1)
  {
  }

  // ----- splitting a purchase

  function TotalBought(parts: seq<nat>): nat {
    if parts == [] then 0 else parts[0] + TotalBought(parts[1..])
  }

  /** Every part of the purchase is accepted when bought in this order. */
  predicate AllAccepted(lot: Lot, parts: seq<nat>)
    decreases |parts|
  {
    parts == []
    || (QuoteCost(parts[0], lot.grsAmount, lot.assetAmount).Ok? && AllAccepted(Fill(lot, parts[0]).0, parts[1..]))
  }

  lemma {:induction false} AcceptedFits(lot: Lot, parts: seq<nat>)
    requires AllAccepted(lot, parts)
    ensures TotalBought(parts) <= lot.grsAmount
    decreases |parts|
  {
    if parts != [] {
      QuoteIsFloor(parts[0], lot.grsAmount, lot.assetAmount);
      AcceptedFits(Fill(lot, parts[0]).0, parts[1..]);
    }
  }

  /** Buying in parts never costs more than buying at once, and less by at most one unit per extra part. */
  lemma {:induction false} SplitPurchase(lot: Lot, parts: seq<nat>)
    requires parts != [] && AllAccepted(lot, parts)
    ensures 0 < TotalBought(parts) <= lot.grsAmount
    ensures var atOnce := Floor(lot.assetAmount, TotalBought(parts), lot.grsAmount);
            Sell(lot, parts).1 <= atOnce <= Sell(lot, parts).1 + |parts| - 1
    decreases |parts|
  {
    var first := parts[0];
    QuoteIsFloor(first, lot.grsAmount, lot.assetAmount);
    var left := Fill(lot, first).0;
    AcceptedFits(left, parts[1..]);
    if |parts| > 1 {
      QuoteIsFloor(parts[1], left.grsAmount, left.assetAmount);
      SplitPurchase(left, parts[1..]);
      SplitFloor(lot.assetAmount, first, TotalBought(parts[1..]), lot.grsAmount);
    } else {
      assert parts[1..] == [];
    }
  }
}
