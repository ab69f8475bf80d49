/** The compound mint premium on deposits (`apply_mint_premium`). */
module MintPremium {
  import opened Prelude
  import opened Arithmetic
  import opened Tokenomics

  const MAX_MINT_PREMIUM_YEARS: nat := 100
  const MINT_PREMIUM_YEAR_SECONDS: nat := 365 * 24 * 60 * 60

  /** Full years since the clock started, capped; zero while the premium is off. */
  function PremiumYears(rateBps: nat, startedAt: int, now: int): nat {
    if rateBps == 0 || startedAt == 0 || now < startedAt then 0
    else Min((now - startedAt) / MINT_PREMIUM_YEAR_SECONDS, MAX_MINT_PREMIUM_YEARS)
  }

  /** The ask per book share after `years` compounding steps, each rounded down. */
  function PriceBps(rateBps: nat, years: nat): nat {
    if years == 0 then BPS else Floor(PriceBps(rateBps, years - 1), BPS + rateBps, BPS)
  }

  /** Shares minted for `book` book shares. */
  function Minted(book: nat, rateBps: nat, startedAt: int, now: int): (m: nat)
    ensures m <= book
  {
    PriceAtLeastPar(rateBps, PremiumYears(rateBps, startedAt, now));
    var price := PriceBps(rateBps, PremiumYears(rateBps, startedAt, now));
    FloorPart(book, BPS, price);
    Floor(book, BPS, price)
  }

  /**
   * The program's loop. For every rate a valid configuration allows and every book amount, no step of it
   * overflows, so the deposit path never fails here.
   */
  method ApplyMintPremium(book: nat, rateBps: nat, startedAt: int, now: int) returns (r: Result<nat, Error>)
    requires book <= U64_MAX && rateBps <= BPS
    ensures r == Ok(Minted(book, rateBps, startedAt, now))
  {
    var years := PremiumYears(rateBps, startedAt, now);
    if book == 0 || rateBps == 0 || startedAt == 0 || now < startedAt {
      FloorPart(book, BPS, BPS);
      return Ok(book);
    }
    var elapsed := now - startedAt;
    var n: nat := elapsed / MINT_PREMIUM_YEAR_SECONDS;
    if n == 0 {
      FloorPart(book, BPS, BPS);
      return Ok(book);
    }
    if n > MAX_MINT_PREMIUM_YEARS {
      n := MAX_MINT_PREMIUM_YEARS;
    }
    var price := BPS;
    for i := 0 to n
      invariant price == PriceBps(rateBps, i)
    {
      StepFits(rateBps, i);
      if price * (BPS + rateBps) > U128_MAX {
        return Err(MathOverflow);
      }
      price := Floor(price, BPS + rateBps, BPS);
    }
    PriceAtLeastPar(rateBps, n);
    FloorPart(book, BPS, price);
    if book * BPS > U128_MAX {
      return Err(MathOverflow);
    }
    return Ok(Floor(book, BPS, price));
  }

  lemma PriceAtLeastPar(rateBps: nat, years: nat)
    ensures PriceBps(rateBps, years) >= BPS
  {
    if years > 0 {
      var before := PriceBps(rateBps, years - 1);
      PriceAtLeastPar(rateBps, years - 1);
      MulMono(BPS, before, BPS + rateBps);
      FloorGreatest(BPS, before, BPS + rateBps, BPS);
    }
  }

  /** The ask never falls from one year to the next. */
  lemma {:induction false} PriceMono(rateBps: nat, years: nat, years': nat)
    requires years <= years'
    ensures PriceBps(rateBps, years) <= PriceBps(rateBps, years')
    decreases years'
  {
    if years < years' {
      PriceMono(rateBps, years, years' - 1);
      var before := PriceBps(rateBps, years' - 1);
      MulMono(BPS, BPS + rateBps, before);
      FloorGreatest(before, before, BPS + rateBps, BPS);
    }
  }

  /** A later deposit of the same book amount never mints more. */
  lemma MintedNonIncreasing(book: nat, rateBps: nat, startedAt: int, now: int, later: int)
    requires now <= later
    ensures Minted(book, rateBps, startedAt, later) <= Minted(book, rateBps, startedAt, now)
  {
    var years, years' := PremiumYears(rateBps, startedAt, now), PremiumYears(rateBps, startedAt, later);
    YearsMono(rateBps, startedAt, now, later);
    PriceMono(rateBps, years, years');
    PriceAtLeastPar(rateBps, years);
    var price, price' := PriceBps(rateBps, years), PriceBps(rateBps, years');
    FloorBounds(book, BPS, price');
    MulMono(price, price', Floor(book, BPS, price'));
    FloorGreatest(Floor(book, BPS, price'), book, BPS, price);
  }

  lemma YearsMono(rateBps: nat, startedAt: int, now: int, later: int)
    requires now <= later
    ensures PremiumYears(rateBps, startedAt, now) <= PremiumYears(rateBps, startedAt, later)
  {
    if startedAt <= now {
      FloorMono(now - startedAt, later - startedAt, 1, MINT_PREMIUM_YEAR_SECONDS);
    }
  }

  // ----- no overflow

  function Doubling(n: nat): nat {
    if n == 0 then 1 else 2 * Doubling(n - 1)
  }

  lemma {:induction false} DoublingMono(m: nat, n: nat)
    requires m <= n
    ensures Doubling(m) <= Doubling(n)
    decreases n
  {
    if m < n {
      DoublingMono(m, n - 1);
    }
  }

  lemma {:induction false} DoublingSum(m: nat, n: nat)
    ensures Doubling(m + n) == Doubling(m) * Doubling(n)
    decreases n
  {
    if n > 0 {
      DoublingSum(m, n - 1);
      assert Doubling(m + n) == 2 * Doubling(m + (n - 1));
    }
  }

  lemma DoublingHundred()
    ensures Doubling(100) == 0x10_0000_0000_0000_0000_0000_0000
  {
    assert Doubling(5) == 32;
    DoublingSum(5, 5);
    DoublingSum(10, 10);
    DoublingSum(20, 5);
    DoublingSum(25, 25);
    DoublingSum(50, 50);
  }

  /** With a rate of at most 100% a year the ask at most doubles each year. */
  lemma {:induction false} PriceBelowDoubling(rateBps: nat, years: nat)
    requires rateBps <= BPS
    ensures PriceBps(rateBps, years) <= BPS * Doubling(years)
  {
    if years > 0 {
      PriceBelowDoubling(rateBps, years - 1);
      var before := PriceBps(rateBps, years - 1);
      MulMono(BPS + rateBps, 2 * BPS, before);
      FloorLeast(2 * before, before, BPS + rateBps, BPS);
    }
  }

  lemma StepFits(rateBps: nat, years: nat)
    requires rateBps <= BPS && years <= MAX_MINT_PREMIUM_YEARS
    ensures PriceBps(rateBps, years) * (BPS + rateBps) <= U128_MAX
  {
    PriceBelowDoubling(rateBps, years);
    DoublingMono(years, MAX_MINT_PREMIUM_YEARS);
    DoublingHundred();
    var price := PriceBps(rateBps, years);
    assert price <= BPS * 0x10_0000_0000_0000_0000_0000_0000;
    MulMono(BPS + rateBps, 2 * BPS, price);
  }

  // ----- distance from exact compounding

  /** One year's exact growth factor. */
  function Growth(rateBps: nat): real {
    (BPS + rateBps) as real / BPS as real
  }

  function Scale(x: real, q: real): real {
    x * q
  }

  /** Exact compounding: `BPS` grown for `years` years. */
  function ExactBps(q: real, years: nat): real {
    if years == 0 then BPS as real else Scale(ExactBps(q, years - 1), q)
  }

  /** One unit lost each year and compounded from then on: `q^0 + ... + q^(years-1)`. */
  function LostBps(q: real, years: nat): real {
    if years == 0 then 0.0 else Scale(LostBps(q, years - 1), q) + 1.0
  }

  /** At most the exact price, and short of it by less than `lost` (equal to it when nothing was lost). */
  predicate Near(price: real, exact: real, lost: real) {
    0.0 <= lost && price <= exact && (if lost == 0.0 then price == exact else exact - lost < price)
  }

  lemma NextNear(price: nat, rateBps: nat, exact: real, lost: real, q: real)
    requires q == Growth(rateBps) && Near(price as real, exact, lost)
    ensures Near(Floor(price, BPS + rateBps, BPS) as real, Scale(exact, q), Scale(lost, q) + 1.0)
  {
    var next := Floor(price, BPS + rateBps, BPS);
    FloorBounds(price, BPS + rateBps, BPS);
    assert price as real * q == (price * (BPS + rateBps)) as real / BPS as real;
    assert price as real * q - 1.0 < next as real <= price as real * q;
    ScaleBounds(exact - lost, price as real, exact, q);
    assert lost * q >= 0.0;
    assert (exact - lost) * q == exact * q - lost * q;
  }

  lemma ScaleBounds(low: real, x: real, high: real, q: real)
    requires low <= x <= high && q >= 0.0
    ensures low * q <= x * q <= high * q
  {
  }

  /**
   * The rounded loop stays at or below exact compounding and falls short of it by less than the sum of the
   * growth factors, one lost unit per year compounded from then on.
   */
  lemma {:induction false} PriceNearCompound(rateBps: nat, years: nat)
    ensures Near(PriceBps(rateBps, years) as real, ExactBps(Growth(rateBps), years), LostBps(Growth(rateBps), years))
  {
    if years > 0 {
      hide Scale, Growth, Near, Floor;
      var q := Growth(rateBps);
      PriceNearCompound(rateBps, years - 1);
      NextNear(PriceBps(rateBps, years - 1), rateBps, ExactBps(q, years - 1), LostBps(q, years - 1), q);
    }
  }
}
