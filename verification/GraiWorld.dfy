/** The ledger and the referral books together: deposits and claims write both, and a poach pays in GRAI. */
module GraiWorld {
  import opened Prelude
  import opened Sums
  import opened Tokenomics
  import L = Ledger
  import LedgerInvariant
  import LedgerRuns
  import W = ReferralWalk
  import R = Referrals
  import RI = ReferralInvariant
  import ReferralRuns

  type Account = L.Account

  /** `booked` is history: the dollar value of all deposits and claims so far. */
  datatype World = World(ledger: L.State, books: W.Books, booked: nat)

  /** What deposits and claims are given besides their ledger arguments. */
  datatype Side = Side(referrer: Account, price: Price, supplied: set<Account>, sinks: set<Account>)

  datatype Action =
    | Act(op: LedgerRuns.Instruction, side: Side)
    | Poach(locker: Account, poacher: Account, supplied: set<Account>, sinks: set<Account>)

  /** What a claim pays out. */
  function ClaimedBy(s: L.State, u: Account, i: nat, amount: nat): nat {
    if i >= |s.assets| then 0
    else
      var locked := L.LockedBy(s.escrows, u);
      var settled := L.Settled(s.assets[i], u, locked, locked);
      L.Claimed(settled, amount, L.PositionOf(settled, u).claimable)
  }

  /** The price of the seat, in GRAI: the fee to the Grinders and the rest to the current referrer. */
  function PayPoach(s: L.State, poacher: Account, seller: Account, fee: nat, toSeller: nat): L.Step {
    var paid :- L.TransferGrai(s, poacher, seller, toSeller);
    L.TransferGrai(paid, poacher, s.grinders, fee)
  }

  function Decimals(s: L.State, i: nat): nat {
    if i < |s.assets| then s.assets[i].decimals else 0
  }

  function BookDeposit(w: World, op: LedgerRuns.Instruction, side: Side): Result<(W.Books, nat), Error>
    requires op.Deposit?
  {
    var value :- UsdValue(op.amount, Decimals(w.ledger, op.asset), op.price);
    var books :- R.MintReferrer(w.books, op.user, side.referrer, value, side.supplied, side.sinks);
    Ok((books, value))
  }

  function BookClaim(w: World, op: LedgerRuns.Instruction, side: Side): Result<(W.Books, nat), Error>
    requires op.Claim?
  {
    var claimed := ClaimedBy(w.ledger, op.user, op.asset, op.amount);
    if claimed == 0 then Ok((w.books, 0))
    else
      var value :- UsdValue(claimed, Decimals(w.ledger, op.asset), side.price);
      var books :- R.ClaimCredit(w.books, op.user, value, side.supplied);
      Ok((books, value))
  }

  function Apply(w: World, action: Action): Result<World, Error> {
    match action
    case Act(op, side) =>
      var ledger :- LedgerRuns.Apply(w.ledger, op);
      var (books, value) :-
        if op.Deposit? then BookDeposit(w, op, side)
        else if op.Claim? then BookClaim(w, op, side)
        else Ok((w.books, 0));
      Ok(World(ledger, books, w.booked + value))
    case Poach(locker, poacher, supplied, sinks) =>
      var (books, fee, toSeller) :- R.Poach(w.books, locker, poacher, L.Balance(w.ledger.wallets, poacher),
                                            w.ledger.liquidation, w.ledger.config.poachFeeBps, supplied, sinks);
      var ledger :- PayPoach(w.ledger, poacher, R.BookOf(w.books, locker).referrer, fee, toSeller);
      Ok(w.(ledger := ledger, books := books))
  }

  function Exec(w: World, action: Action): World {
    match Apply(w, action)
    case Ok(w') => w'
    case Err(_) => w
  }

  function Run(w: World, actions: seq<Action>): World
    decreases |actions|
  {
    if actions == [] then w else Run(Exec(w, actions[0]), actions[1..])
  }

  function Initial(owner: Account, now: int): World {
    World(LedgerRuns.Initial(owner, now), map[], 0)
  }

  // ----- what the books have recorded

  function ValueOf(book: W.Book): int {
    book.value
  }

  ghost function Recorded(books: W.Books): int {
    Sum(books, ValueOf)
  }

  ghost predicate WorldInv(w: World) {
    && LedgerInvariant.Inv(w.ledger) && R.BooksInv(w.books)
    && w.ledger.totalValue <= w.booked == Recorded(w.books)
  }

  /** Writing a row that keeps its value records nothing. */
  lemma RowRecords(books: W.Books, k: Account, book: W.Book)
    ensures Recorded(books[k := book]) == Recorded(books) - R.BookOf(books, k).value + book.value
  {
    SumUpdate<Account, W.Book>(books, k, book, ValueOf);
  }

  lemma CreditUpRecords(books: W.Books, locker: Account, key: Account, value: nat, level: nat, supplied: set<Account>)
    requires R.CreditUp(books, locker, key, value, level, supplied).Ok?
    ensures Recorded(R.CreditUp(books, locker, key, value, level, supplied).value) == Recorded(books)
    decreases R.LEVELS - level
  {
    hide Recorded;
    if level < R.LEVELS && key != W.UNBOUND && key != locker {
      var up := books[key];
      var grown := if level == 0 then R.CreditL1(up, value).value else R.CreditL2(up, value).value;
      RowRecords(books, key, grown);
      if up.referrer != key {
        CreditUpRecords(books[key := grown], locker, up.referrer, value, level + 1, supplied);
      }
    }
  }

  lemma CreditRecords(books: W.Books, locker: Account, value: nat, supplied: set<Account>)
    requires R.CreditBooks(books, locker, value, supplied).Ok?
    ensures Recorded(R.CreditBooks(books, locker, value, supplied).value) == Recorded(books) + value
  {
    hide Recorded, R.CreditUp;
    if value > 0 {
      var valued := books[locker].(value := books[locker].value + value);
      RowRecords(books, locker, valued);
      CreditUpRecords(books[locker := valued], locker, books[locker].referrer, value, 0, supplied);
    }
  }

  lemma BindRecords(books: W.Books, locker: Account, to: Account, supplied: set<Account>)
    requires locker in books && R.Bind(books, locker, to, supplied).Ok?
    ensures Recorded(R.Bind(books, locker, to, supplied).value) == Recorded(books)
  {
    hide Recorded;
    var after := R.Bind(books, locker, to, supplied).value;
    if to != locker {
      RowRecords(books, to, after[to]);
      RowRecords(books[to := after[to]], locker, after[locker]);
    } else {
      RowRecords(books, locker, after[locker]);
    }
  }

  /** A deposit's or a claim's value is recorded once, whatever is bound or credited up the chain. */
  lemma MintRecords(books: W.Books, locker: Account, referrer: Account, value: nat, supplied: set<Account>,
                    sinks: set<Account>)
    requires R.MintReferrer(books, locker, referrer, value, supplied, sinks).Ok?
    ensures Recorded(R.MintReferrer(books, locker, referrer, value, supplied, sinks).value) == Recorded(books) + value
  {
    hide Recorded, R.Bind, R.CreditBooks, R.ChooseReferrer;
    RowRecords(books, locker, R.BookOf(books, locker));
    var held := R.Opened(books, locker);
    var bound := held;
    if held[locker].referrer == W.UNBOUND {
      var to := R.ChooseReferrer(held, locker, referrer, supplied, sinks).value;
      BindRecords(held, locker, to, supplied);
      bound := R.Bind(held, locker, to, supplied).value;
    }
    CreditRecords(bound, locker, value, supplied);
  }

  lemma ClaimRecords(books: W.Books, locker: Account, value: nat, supplied: set<Account>)
    requires R.ClaimCredit(books, locker, value, supplied).Ok?
    ensures Recorded(R.ClaimCredit(books, locker, value, supplied).value) == Recorded(books) + value
  {
    hide Recorded, R.CreditBooks;
    RowRecords(books, locker, R.BookOf(books, locker));
    CreditRecords(R.Opened(books, locker), locker, value, supplied);
  }

  lemma LeaveRecords(books: W.Books, locker: Account, supplied: set<Account>)
    requires locker in books && R.LeaveSeller(books, locker, supplied).Ok?
    ensures Recorded(R.LeaveSeller(books, locker, supplied).value) == Recorded(books)
  {
    hide Recorded;
    var seller := books[locker].referrer;
    if seller != locker {
      var book := R.BookOf(books, seller);
      var debited := books[seller := book.(l1 := book.l1 - books[locker].value, l2 := book.l2 - books[locker].l1)];
      RowRecords(books, seller, debited[seller]);
      var above := book.referrer;
      if above != W.UNBOUND && above != seller && above != locker {
        var aboveBook := R.BookOf(debited, above);
        RowRecords(debited, above, aboveBook.(l2 := aboveBook.l2 - books[locker].value));
      }
    }
  }

  lemma JoinRecords(books: W.Books, locker: Account, poacher: Account, supplied: set<Account>)
    requires locker in books && R.JoinBuyer(books, locker, poacher, supplied).Ok?
    ensures Recorded(R.JoinBuyer(books, locker, poacher, supplied).value) == Recorded(books)
  {
    hide Recorded;
    var own, direct := books[locker].value, books[locker].l1;
    if poacher == locker {
      RowRecords(books, locker, books[locker].(referrer := locker));
    } else {
      var buyer := R.BookOf(books, poacher);
      var bought := books[poacher := buyer.(l1 := buyer.l1 + own, l2 := buyer.l2 + direct)];
      RowRecords(books, poacher, bought[poacher]);
      var joined := bought[locker := books[locker].(referrer := poacher)];
      RowRecords(bought, locker, joined[locker]);
      var above := buyer.referrer;
      if above != W.UNBOUND && above != poacher && above != locker {
        RowRecords(joined, above, R.BookOf(joined, above).(l2 := R.BookOf(joined, above).l2 + own));
      }
    }
  }

  // ----- the invariant

  /** Only a deposit adds to the ledger's book value, and it adds what it books. */
  lemma BookValueGrowth(s: L.State, op: LedgerRuns.Instruction)
    requires LedgerRuns.Apply(s, op).Ok?
    ensures op.Deposit? ==> op.asset < |s.assets| && UsdValue(op.amount, s.assets[op.asset].decimals, op.price).Ok?
    ensures LedgerRuns.Apply(s, op).value.totalValue
         <= s.totalValue + (if op.Deposit? then UsdValue(op.amount, s.assets[op.asset].decimals, op.price).value else 0)
  {
    hide L.SettleAll, L.Debit, L.Credit, L.ClaimAsset, L.PayBribe, L.ShareOut, L.PayBasket, L.PreviewDeposit;
    hide PreviewUnlock, PreviewBribe, UsdValue, LiquidateValue;
  }

  lemma ActKeeps(w: World, op: LedgerRuns.Instruction, side: Side)
    requires WorldInv(w) && Apply(w, Act(op, side)).Ok?
    ensures WorldInv(Apply(w, Act(op, side)).value)
  {
    LedgerRuns.ExecKeeps(w.ledger, op);
    BookValueGrowth(w.ledger, op);
    hide LedgerInvariant.Inv, R.BooksInv, LedgerRuns.Apply, R.MintReferrer, R.ClaimCredit, UsdValue, Recorded;
    if op.Deposit? {
      var value := UsdValue(op.amount, w.ledger.assets[op.asset].decimals, op.price).value;
      RI.MintReferrerKeeps(w.books, op.user, side.referrer, value, side.supplied, side.sinks);
      MintRecords(w.books, op.user, side.referrer, value, side.supplied, side.sinks);
    } else if op.Claim? {
      var claimed := ClaimedBy(w.ledger, op.user, op.asset, op.amount);
      if claimed > 0 {
        var value := UsdValue(claimed, Decimals(w.ledger, op.asset), side.price).value;
        RI.ClaimCreditKeeps(w.books, op.user, value, side.supplied);
        ClaimRecords(w.books, op.user, value, side.supplied);
      }
    }
  }

  lemma PayPoachKeeps(s: L.State, poacher: Account, seller: Account, fee: nat, toSeller: nat)
    requires LedgerInvariant.Inv(s) && PayPoach(s, poacher, seller, fee, toSeller).Ok?
    ensures LedgerInvariant.Inv(PayPoach(s, poacher, seller, fee, toSeller).value)
    ensures PayPoach(s, poacher, seller, fee, toSeller).value.totalValue == s.totalValue
  {
    var first := LedgerRuns.TransferGrai(poacher, seller, toSeller);
    LedgerRuns.ExecKeeps(s, first);
    var paid := LedgerRuns.Exec(s, first);
    LedgerRuns.ExecKeeps(paid, LedgerRuns.TransferGrai(poacher, s.grinders, fee));
    hide LedgerInvariant.Inv;
  }

  lemma PoachStepKeeps(w: World, action: Action)
    requires WorldInv(w) && action.Poach? && Apply(w, action).Ok?
    ensures WorldInv(Apply(w, action).value)
  {
    hide LedgerInvariant.Inv, R.BooksInv, R.LeaveSeller, R.JoinBuyer, PayPoach, Recorded, W.WalkStatus, BpsCeil;
    var Poach(locker, poacher, supplied, sinks) := action;
    var left := R.LeaveSeller(w.books, locker, supplied).value;
    RI.PoachKeeps(w.books, locker, poacher, supplied);
    LeaveRecords(w.books, locker, supplied);
    JoinRecords(left, locker, poacher, supplied);
    var (_, fee, toSeller) := R.Poach(w.books, locker, poacher, L.Balance(w.ledger.wallets, poacher),
                                      w.ledger.liquidation, w.ledger.config.poachFeeBps, supplied, sinks).value;
    PayPoachKeeps(w.ledger, poacher, w.books[locker].referrer, fee, toSeller);
  }

  lemma ExecKeeps(w: World, action: Action)
    requires WorldInv(w)
    ensures WorldInv(Exec(w, action))
  {
    hide WorldInv, Apply;
    if Apply(w, action).Ok? {
      match action
      case Act(op, side) => ActKeeps(w, op, side);
      case Poach(_, _, _, _) => PoachStepKeeps(w, action);
    }
  }

  lemma {:induction false} RunKeeps(w: World, actions: seq<Action>)
    requires WorldInv(w)
    ensures WorldInv(Run(w, actions))
    decreases |actions|
  {
    hide WorldInv, Exec;
    if actions != [] {
      ExecKeeps(w, actions[0]);
      RunKeeps(Exec(w, actions[0]), actions[1..]);
    }
  }

  /**
   * From `initialize` on, with the ledger and the books changing together: both keep their invariants, and the
   * books record exactly the dollar value of all deposits and claims, which is never less than the book value.
   */
  lemma AlwaysRecorded(owner: Account, now: int, actions: seq<Action>)
    ensures WorldInv(Run(Initial(owner, now), actions))
  {
    LedgerRuns.InitialInv(owner, now);
    ReferralRuns.EmptyBooks();
    RunKeeps(Initial(owner, now), actions);
  }

  /** Once the guards and the books let a poach through, its payment goes through as well. */
  lemma PoachIsAlwaysPaid(w: World, action: Action)
    requires action.Poach? && action.locker in w.books
    ensures Apply(w, action).Ok? <==>
      R.Poach(w.books, action.locker, action.poacher, L.Balance(w.ledger.wallets, action.poacher), w.ledger.liquidation,
              w.ledger.config.poachFeeBps, action.supplied, action.sinks).Ok?
  {
    hide R.LeaveSeller, R.JoinBuyer, W.WalkStatus, BpsCeil;
  }
}
