/** The sticky referral books: binding, crediting, poaching, and what their cached aggregates mean. */
module Referrals {
  import opened Prelude
  import opened Sums
  import opened Tokenomics
  import opened ReferralWalk

  type Step = Result<Books, Error>

  /** How far up the chain a credit travels. */
  const LEVELS: nat := 2

  function BookOf(books: Books, k: Account): Book {
    if k in books then books[k] else NEW_BOOK
  }

  /** Create the book of `k` if it does not exist. */
  function Opened(books: Books, k: Account): Books {
    books[k := BookOf(books, k)]
  }

  // ----- binding and crediting

  function CreditL1(book: Book, value: nat): Result<Book, Error> {
    var l1 :- Fits128(book.l1 + value);
    Ok(book.(l1 := l1))
  }

  function CreditL2(book: Book, value: nat): Result<Book, Error> {
    var l2 :- Fits128(book.l2 + value);
    Ok(book.(l2 := l2))
  }

  /** The sticky referrer a first deposit gets: the one asked for, or the locker itself. */
  function ChooseReferrer(books: Books, locker: Account, referrer: Account, supplied: set<Account>,
                          sinks: set<Account>): Result<Account, Error>
  {
    if referrer == UNBOUND || referrer == locker then Ok(locker)
    else if referrer in sinks then Err(InvalidReferrer)
    else
      match WalkStatus(Pool(supplied, books), locker, referrer)
      case Incomplete => Err(InvalidRemainingAccounts)
      case Yes => Ok(locker)
      case No => Ok(referrer)
  }

  /** Binding carries only `l1` up: what the locker had booked itself is missed by the new referrer. */
  function Bind(books: Books, locker: Account, to: Account, supplied: set<Account>): Step
    requires locker in books
  {
    var book := books[locker];
    if to == locker then Ok(books[locker := book.(referrer := locker)])
    else if to !in supplied then Err(InvalidRemainingAccounts)
    else
      var up := BookOf(books, to);
      var carried :- if book.l1 > 0 then CreditL2(up, book.l1) else Ok(up);
      Ok(books[to := carried.(missed := up.missed + book.value)][locker := book.(referrer := to)])
  }

  /** Credit the books at `level` and above on the chain. */
  function CreditUp(books: Books, locker: Account, key: Account, value: nat, level: nat, supplied: set<Account>): Step
    decreases LEVELS - level
  {
    if level >= LEVELS || key == UNBOUND || key == locker then Ok(books)
    else if key !in supplied || key !in books then Err(InvalidRemainingAccounts)
    else
      var up := books[key];
      var grown :- if level == 0 then CreditL1(up, value) else CreditL2(up, value);
      var credited := books[key := grown];
      if up.referrer == key then Ok(credited) else CreditUp(credited, locker, up.referrer, value, level + 1, supplied)
  }

  function CreditBooks(books: Books, locker: Account, value: nat, supplied: set<Account>): Step {
    if value == 0 then Ok(books)
    else if locker !in books then Err(InvalidRemainingAccounts)
    else
      var total :- Fits128(books[locker].value + value);
      CreditUp(books[locker := books[locker].(value := total)], locker, books[locker].referrer, value, 0, supplied)
  }

  /** Deposit: bind once, then credit. */
  function MintReferrer(books: Books, locker: Account, referrer: Account, value: nat, supplied: set<Account>,
                        sinks: set<Account>): Step
  {
    if locker == UNBOUND then Err(ZeroAddress)
    else
      var held := Opened(books, locker);
      var bound :-
        if held[locker].referrer != UNBOUND then Ok(held)
        else
          var to :- ChooseReferrer(held, locker, referrer, supplied, sinks);
          Bind(held, locker, to, supplied);
      CreditBooks(bound, locker, value, supplied)
  }

  /** Claim: credit the claimed value; the book may be new and stays unbound. */
  function ClaimCredit(books: Books, locker: Account, value: nat, supplied: set<Account>): Step {
    if locker == UNBOUND then Err(ZeroAddress)
    else CreditBooks(Opened(books, locker), locker, value, supplied)
  }

  // ----- poaching

  function PreviewPoach(book: Book, poacher: Account): Result<(nat, Account), Error> {
    if book.referrer == UNBOUND then Err(ZeroAddress)
    else if poacher == book.referrer then Err(AlreadyBound)
    else
      var price :- Fits64(book.value + book.l1);
      if price == 0 then Err(InvalidAmount) else Ok((price, book.referrer))
  }

  /** Take the locker's value out of its current referrer's aggregates and of the one above. */
  function LeaveSeller(books: Books, locker: Account, supplied: set<Account>): (r: Step)
    requires locker in books
    ensures r.Ok? ==> locker in r.value
  {
    var own, direct, seller := books[locker].value, books[locker].l1, books[locker].referrer;
    if seller == locker then Ok(books)
    else if seller !in supplied then Err(InvalidRemainingAccounts)
    else
      var book := BookOf(books, seller);
      var l1 :- Minus(book.l1, own);
      var l2 :- Minus(book.l2, direct);
      var debited := books[seller := book.(l1 := l1, l2 := l2)];
      var above := book.referrer;
      if above == UNBOUND || above == seller || above == locker then Ok(debited)
      else if above !in supplied then Err(InvalidRemainingAccounts)
      else
        var aboveBook := BookOf(debited, above);
        var aboveL2 :- Minus(aboveBook.l2, own);
        Ok(debited[above := aboveBook.(l2 := aboveL2)])
  }

  /** Put it into the poacher's aggregates and those of the one above, and re-hang the edge. */
  function JoinBuyer(books: Books, locker: Account, poacher: Account, supplied: set<Account>): Step
    requires locker in books
  {
    var own, direct := books[locker].value, books[locker].l1;
    if poacher == locker then Ok(books[locker := books[locker].(referrer := locker)])
    else
      var buyer := BookOf(books, poacher);
      var l1 :- Fits128(buyer.l1 + own);
      var l2 :- Fits128(buyer.l2 + direct);
      var joined := books[poacher := buyer.(l1 := l1, l2 := l2)][locker := books[locker].(referrer := poacher)];
      var above := buyer.referrer;
      if above == UNBOUND || above == poacher || above == locker then Ok(joined)
      else if above !in supplied then Err(InvalidRemainingAccounts)
      else
        var credited :- CreditL2(BookOf(joined, above), own);
        Ok(joined[above := credited])
  }

  /** What the guards of a poach let through: the price and the current referrer. */
  function PoachTerms(books: Books, locker: Account, poacher: Account, balance: nat, liquidation: bool,
                      supplied: set<Account>, sinks: set<Account>): (r: Result<(nat, Account), Error>)
  {
    if liquidation then Err(LiquidationOpen)
    else if locker !in books || poacher == UNBOUND then Err(ZeroAddress)
    else
      var terms :- PreviewPoach(books[locker], poacher);
      if poacher == locker && terms.1 == locker then Err(AlreadyBound)
      else if balance < terms.0 then Err(InvalidAmount)
      else if poacher != locker && poacher in sinks then Err(InvalidReferrer)
      else
        match WalkStatus(Pool(supplied, books), locker, poacher)
        case Yes => Err(ReferralLoop)
        case Incomplete => Err(InvalidRemainingAccounts)
        case No => Ok(terms)
  }

  /** The books after a poach, the fee to the Grinders and what the seller is paid. */
  function Poach(books: Books, locker: Account, poacher: Account, balance: nat, liquidation: bool, feeBps: nat,
                 supplied: set<Account>, sinks: set<Account>): Result<(Books, nat, nat), Error>
  {
    var (price, seller) :- PoachTerms(books, locker, poacher, balance, liquidation, supplied, sinks);
    var fee :- BpsCeil(price, feeBps);
    var toSeller :- Minus(price, fee);
    if poacher !in supplied then Err(InvalidRemainingAccounts)
    else
      var left :- LeaveSeller(books, locker, supplied);
      var joined :- JoinBuyer(left, locker, poacher, supplied);
      Ok((joined, fee, toSeller))
  }

  // ----- what the aggregates should be

  function ValueUnder(b: Account): Book -> int {
    (v: Book) => if v.referrer == b then v.value else 0
  }

  function L1Under(b: Account): Book -> int {
    (v: Book) => if v.referrer == b then v.l1 else 0
  }

  /** The value of every other book that names `b` as its referrer. */
  ghost function ChildValue(books: Books, b: Account): int {
    Sum(books, ValueUnder(b)) - (if BookOf(books, b).referrer == b then BookOf(books, b).value else 0)
  }

  /** The cached `l1` of every other book that names `b` as its referrer. */
  ghost function ChildL1(books: Books, b: Account): int {
    Sum(books, L1Under(b)) - (if BookOf(books, b).referrer == b then BookOf(books, b).l1 else 0)
  }

  ghost function L1Gap(books: Books, b: Account): int {
    ChildValue(books, b) - BookOf(books, b).l1 - BookOf(books, b).missed
  }

  ghost function L2Gap(books: Books, b: Account): int {
    ChildL1(books, b) - BookOf(books, b).l2
  }

  /** `l1` is what the children hold less what was missed when they bound; `l2` is exactly the children's `l1`. */
  ghost predicate Aggregated(books: Books) {
    forall b :: b != UNBOUND ==> L1Gap(books, b) == 0 && L2Gap(books, b) == 0
  }

  ghost predicate BooksInv(books: Books) {
    Closed(books) && Forest(books) && Aggregated(books)
  }

  // ----- one row at a time

  /** What row `k` puts into the two gaps of `b`. */
  function L1Row(v: Book, k: Account, b: Account): int {
    (if v.referrer == b && k != b then v.value else 0) - (if k == b then v.l1 + v.missed else 0)
  }

  function L2Row(v: Book, k: Account, b: Account): int {
    (if v.referrer == b && k != b then v.l1 else 0) - (if k == b then v.l2 else 0)
  }

  lemma RowUpdate(books: Books, k: Account, v: Book, b: Account)
    requires b != UNBOUND
    ensures L1Gap(books[k := v], b) == L1Gap(books, b) - L1Row(BookOf(books, k), k, b) + L1Row(v, k, b)
    ensures L2Gap(books[k := v], b) == L2Gap(books, b) - L2Row(BookOf(books, k), k, b) + L2Row(v, k, b)
  {
    hide Sum;
    SumUpdate<Account, Book>(books, k, v, ValueUnder(b));
    SumUpdate<Account, Book>(books, k, v, L1Under(b));
  }
}
