/** The referral instructions as they run: books loaded, changed and stored one at a time. */
module ReferralProgram {
  import opened Prelude
  import opened Tokenomics
  import W = ReferralWalk
  import R = Referrals
  import ReferralRuns

  type Account = W.Account
  type Done = Result<(), Error>

  const OK: Done := Ok(())

  /** `r` and the books reached are what the step says; a failure is still to be rolled back. */
  predicate Follows(step: R.Step, r: Done, reached: W.Books) {
    match step
    case Ok(after) => r.Ok? && reached == after
    case Err(e) => r == Err(e)
  }

  class ReferralBooks {
    var books: W.Books

    constructor ()
      ensures books == map[]
    {
      books := map[];
    }

    /** Load the book of `key`, creating an unbound one if there is none. */
    method EnsureReferrerAccount(key: Account) returns (book: W.Book)
      modifies this
      ensures books == R.Opened(old(books), key) && book == R.BookOf(old(books), key)
    {
      if key !in books {
        books := books[key := W.NEW_BOOK];
      }
      book := books[key];
    }

    /** Credit the locker and walk up the sticky chain, one level after the other. */
    method CreditBooks(locker: Account, value: nat, supplied: set<Account>) returns (r: Done)
      modifies this
      ensures Follows(R.CreditBooks(old(books), locker, value, supplied), r, books)
    {
      if value == 0 {
        return OK;
      }
      :- Require(locker in books, InvalidRemainingAccounts);
      var book := books[locker];
      var total :- Fits128(book.value + value);
      books := books[locker := book.(value := total)];
      var key := book.referrer;
      ghost var step := R.CreditUp(books, locker, key, value, 0, supplied);
      for level := 0 to R.LEVELS
        invariant step == R.CreditUp(books, locker, key, value, level, supplied)
      {
        if key == W.UNBOUND || key == locker {
          break;
        }
        :- Require(key in supplied && key in books, InvalidRemainingAccounts);
        var up := books[key];
        if level == 0 {
          var l1 :- Fits128(up.l1 + value);
          up := up.(l1 := l1);
        } else {
          var l2 :- Fits128(up.l2 + value);
          up := up.(l2 := l2);
        }
        books := books[key := up];
        if up.referrer == key {
          return OK;
        }
        key := up.referrer;
      }
      return OK;
    }

    /** The referrer a first deposit gets. */
    method ChooseReferrer(locker: Account, referrer: Account, supplied: set<Account>, sinks: set<Account>)
      returns (r: Result<Account, Error>)
      ensures r == R.ChooseReferrer(books, locker, referrer, supplied, sinks)
    {
      if referrer == W.UNBOUND || referrer == locker {
        return Ok(locker);
      }
      :- Require(referrer !in sinks, InvalidReferrer);
      var status := W.HasReferralLoop(W.Pool(supplied, books), locker, referrer);
      match status
      case Incomplete => return Err(InvalidRemainingAccounts);
      case Yes => return Ok(locker);
      case No => return Ok(referrer);
    }

    /** Write the sticky link, and carry the locker's `l1` up to the new referrer's `l2`. */
    method Bind(locker: Account, to: Account, supplied: set<Account>) returns (r: Done)
      requires locker in books
      modifies this
      ensures Follows(R.Bind(old(books), locker, to, supplied), r, books)
    {
      var book := books[locker].(referrer := to);
      if to != locker {
        if to !in supplied {
          return Err(InvalidRemainingAccounts);
        }
        var up := EnsureReferrerAccount(to);
        up := up.(missed := up.missed + book.value);
        if book.l1 > 0 {
          up :- R.CreditL2(up, book.l1);
        }
        books := books[to := up];
      }
      books := books[locker := book];
      return OK;
    }

    /** A deposit: bind the locker once, then credit what it deposited. */
    method MintReferrer(locker: Account, referrer: Account, value: nat, supplied: set<Account>, sinks: set<Account>)
      returns (r: Done)
      modifies this
      ensures Follows(R.MintReferrer(old(books), locker, referrer, value, supplied, sinks), r, books)
    {
      hide R.CreditBooks, R.Bind, R.ChooseReferrer;
      :- Require(locker != W.UNBOUND, ZeroAddress);
      var book := EnsureReferrerAccount(locker);
      if book.referrer == W.UNBOUND {
        var to :- ChooseReferrer(locker, referrer, supplied, sinks);
        var _ :- Bind(locker, to, supplied);
      }
      r := CreditBooks(locker, value, supplied);
    }

    /** A claim: make sure the book exists, unbound if it is new, and credit what was claimed. */
    method ClaimCredit(locker: Account, value: nat, supplied: set<Account>) returns (r: Done)
      modifies this
      ensures Follows(R.ClaimCredit(old(books), locker, value, supplied), r, books)
    {
      if locker == W.UNBOUND {
        return Err(ZeroAddress);
      }
      var _ := EnsureReferrerAccount(locker);
      r := CreditBooks(locker, value, supplied);
    }

    /** Debit the seller's aggregates and those of the book above it. */
    method LeaveSeller(locker: Account, supplied: set<Account>) returns (r: Done)
      requires locker in books
      modifies this
      ensures Follows(R.LeaveSeller(old(books), locker, supplied), r, books)
    {
      var own, direct, seller := books[locker].value, books[locker].l1, books[locker].referrer;
      if seller == locker {
        return OK;
      }
      :- Require(seller in supplied, InvalidRemainingAccounts);
      var book := EnsureReferrerAccount(seller);
      var l1 :- Minus(book.l1, own);
      var l2 :- Minus(book.l2, direct);
      books := books[seller := book.(l1 := l1, l2 := l2)];
      var above := book.referrer;
      if above != W.UNBOUND && above != seller && above != locker {
        if above !in supplied {
          return Err(InvalidRemainingAccounts);
        }
        var aboveBook := EnsureReferrerAccount(above);
        var aboveL2 :- Minus(aboveBook.l2, own);
        books := books[above := aboveBook.(l2 := aboveL2)];
      }
      return OK;
    }

    /** Credit the poacher's aggregates and those of the book above it, and re-hang the locker. */
    method JoinBuyer(locker: Account, poacher: Account, supplied: set<Account>) returns (r: Done)
      requires locker in books
      modifies this
      ensures Follows(R.JoinBuyer(old(books), locker, poacher, supplied), r, books)
    {
      var own, direct := books[locker].value, books[locker].l1;
      if poacher == locker {
        books := books[locker := books[locker].(referrer := poacher)];
        return OK;
      }
      var buyer := EnsureReferrerAccount(poacher);
      var l1 :- Fits128(buyer.l1 + own);
      var l2 :- Fits128(buyer.l2 + direct);
      books := books[poacher := buyer.(l1 := l1, l2 := l2)][locker := books[locker].(referrer := poacher)];
      var above := buyer.referrer;
      if above != W.UNBOUND && above != poacher && above != locker {
        if above !in supplied {
          return Err(InvalidRemainingAccounts);
        }
        var aboveBook := EnsureReferrerAccount(above);
        var credited :- R.CreditL2(aboveBook, own);
        books := books[above := credited];
      }
      return OK;
    }

    /** Buy a locker's referral seat; returns the fee and what the seller is paid. */
    method Poach(locker: Account, poacher: Account, balance: nat, liquidation: bool, feeBps: nat,
                 supplied: set<Account>, sinks: set<Account>)
      returns (r: Result<(nat, nat), Error>)
      modifies this
      ensures match R.Poach(old(books), locker, poacher, balance, liquidation, feeBps, supplied, sinks)
              case Ok((after, fee, toSeller)) => r == Ok((fee, toSeller)) && books == after
              case Err(e) => r == Err(e)
    {
      hide R.LeaveSeller, R.JoinBuyer, W.WalkStatus, BpsCeil;
      :- Require(!liquidation, LiquidationOpen);
      :- Require(locker in books && poacher != W.UNBOUND, ZeroAddress);
      var terms :- R.PreviewPoach(books[locker], poacher);
      var price, seller := terms.0, terms.1;
      if poacher == locker {
        if seller == locker {
          return Err(AlreadyBound);
        }
      }
      :- Require(balance >= price, InvalidAmount);
      if poacher != locker {
        if poacher in sinks {
          return Err(InvalidReferrer);
        }
      }
      var status := W.HasReferralLoop(W.Pool(supplied, books), locker, poacher);
      :- Require(status != W.Yes, ReferralLoop);
      :- Require(status != W.Incomplete, InvalidRemainingAccounts);
      var fee :- BpsCeil(price, feeBps);
      var toSeller :- Minus(price, fee);
      :- Require(poacher in supplied, InvalidRemainingAccounts);
      var _ :- LeaveSeller(locker, supplied);
      var _ :- JoinBuyer(locker, poacher, supplied);
      return Ok((fee, toSeller));
    }

    /** One instruction; what a failed one wrote is rolled back. */
    method Execute(op: ReferralRuns.Instruction)
      modifies this
      ensures books == ReferralRuns.Exec(old(books), op)
    {
      hide R.MintReferrer, R.ClaimCredit, R.Poach;
      var before := books;
      var failed;
      match op {
        case Deposit(locker, referrer, value, supplied, sinks) =>
          var r := MintReferrer(locker, referrer, value, supplied, sinks);
          failed := r.Err?;
        case Claim(locker, value, supplied) =>
          var r := ClaimCredit(locker, value, supplied);
          failed := r.Err?;
        case Buy(locker, poacher, balance, liquidation, feeBps, supplied, sinks) =>
          var r := Poach(locker, poacher, balance, liquidation, feeBps, supplied, sinks);
          failed := r.Err?;
      }
      if failed {
        books := before;
      }
    }
  }
}
