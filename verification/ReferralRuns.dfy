/** Runs of deposits, claims and poaches over the referral books. */
module ReferralRuns {
  import opened Prelude
  import opened Sums
  import opened Tokenomics
  import opened ReferralWalk
  import opened Referrals
  import opened ReferralInvariant

  datatype Instruction =
    | Deposit(locker: Account, referrer: Account, value: nat, supplied: set<Account>, sinks: set<Account>)
    | Claim(locker: Account, value: nat, supplied: set<Account>)
    | Buy(locker: Account, poacher: Account, balance: nat, liquidation: bool, feeBps: nat, supplied: set<Account>,
          sinks: set<Account>)

  function Apply(books: Books, op: Instruction): Step {
    match op
    case Deposit(locker, referrer, value, supplied, sinks) =>
      MintReferrer(books, locker, referrer, value, supplied, sinks)
    case Claim(locker, value, supplied) => ClaimCredit(books, locker, value, supplied)
    case Buy(locker, poacher, balance, liquidation, feeBps, supplied, sinks) =>
      var (after, _, _) :- Poach(books, locker, poacher, balance, liquidation, feeBps, supplied, sinks);
      Ok(after)
  }

  /** A failed instruction changes nothing. */
  function Exec(books: Books, op: Instruction): Books {
    match Apply(books, op)
    case Ok(after) => after
    case Err(_) => books
  }

  function Run(books: Books, ops: seq<Instruction>): Books
    decreases |ops|
  {
    if ops == [] then books else Run(Exec(books, ops[0]), ops[1..])
  }

  lemma ExecKeeps(books: Books, op: Instruction)
    requires BooksInv(books)
    ensures BooksInv(Exec(books, op))
  {
    hide BooksInv, MintReferrer, ClaimCredit, LeaveSeller, JoinBuyer, WalkStatus, BpsCeil;
    if Apply(books, op).Ok? {
      match op
      case Deposit(locker, referrer, value, supplied, sinks) =>
        MintReferrerKeeps(books, locker, referrer, value, supplied, sinks);
      case Claim(locker, value, supplied) => ClaimCreditKeeps(books, locker, value, supplied);
      case Buy(locker, poacher, _, _, _, supplied, _) => PoachKeeps(books, locker, poacher, supplied);
    }
  }

  lemma {:induction false} RunKeeps(books: Books, ops: seq<Instruction>)
    requires BooksInv(books)
    ensures BooksInv(Run(books, ops))
    decreases |ops|
  {
    hide BooksInv, Exec;
    if ops != [] {
      ExecKeeps(books, ops[0]);
      RunKeeps(Exec(books, ops[0]), ops[1..]);
    }
  }

  lemma EmptyBooks()
    ensures BooksInv(map[])
  {
    forall b | b != UNBOUND
      ensures L1Gap(map[], b) == 0 && L2Gap(map[], b) == 0
    {
    }
  }

  /**
   * In every reachable state each referrer chain ends, `l2` is exactly what the children cache, and `l1` is what
   * they hold less what was missed at binding.
   */
  lemma AlwaysForest(ops: seq<Instruction>)
    ensures Forest(Run(map[], ops)) && Closed(Run(map[], ops))
    ensures forall b :: b in Run(map[], ops) ==>
              && Run(map[], ops)[b].l2 == ChildL1(Run(map[], ops), b)
              && Run(map[], ops)[b].l1 + Run(map[], ops)[b].missed == ChildValue(Run(map[], ops), b)
  {
    RunKeeps(map[], ops);
    hide Run, ChildL1, ChildValue, Forest;
    var books := Run(map[], ops);
    forall b | b in books
      ensures books[b].l2 == ChildL1(books, b) && books[b].l1 + books[b].missed == ChildValue(books, b)
    {
      assert L1Gap(books, b) == 0 && L2Gap(books, b) == 0;
    }
  }

  // ----- when the first-level aggregate is exact

  /** `l1` of every book is the value of its children. */
  ghost predicate Exact(books: Books) {
    forall b :: b in books ==> books[b].l1 == ChildValue(books, b)
  }

  predicate NothingMissed(books: Books) {
    forall b :: b in books ==> books[b].missed == 0
  }

  /** A deposit that binds the locker to another wallet finds no value booked yet. */
  predicate BindsClean(books: Books, op: Instruction) {
    op.Deposit? && Apply(books, op).Ok? && BookOf(books, op.locker).referrer == UNBOUND
      && ChooseReferrer(Opened(books, op.locker), op.locker, op.referrer, op.supplied, op.sinks) != Ok(op.locker)
    ==> BookOf(books, op.locker).value == 0
  }

  predicate AllBindsClean(books: Books, ops: seq<Instruction>)
    decreases |ops|
  {
    ops == [] || (BindsClean(books, ops[0]) && AllBindsClean(Exec(books, ops[0]), ops[1..]))
  }

  lemma ExactIsNothingMissed(books: Books)
    requires BooksInv(books)
    ensures Exact(books) <==> NothingMissed(books)
  {
    hide Forest, ChildValue, ChildL1;
    forall b | b in books
      ensures books[b].l1 == ChildValue(books, b) <==> books[b].missed == 0
    {
      assert L1Gap(books, b) == 0;
    }
  }

  function Missed(books: Books, b: Account): nat {
    BookOf(books, b).missed
  }

  lemma CreditUpMissed(books: Books, locker: Account, key: Account, value: nat, level: nat, supplied: set<Account>)
    requires CreditUp(books, locker, key, value, level, supplied).Ok?
    ensures forall b :: Missed(CreditUp(books, locker, key, value, level, supplied).value, b) == Missed(books, b)
    decreases LEVELS - level
  {
  }

  lemma CreditBooksMissed(books: Books, locker: Account, value: nat, supplied: set<Account>)
    requires CreditBooks(books, locker, value, supplied).Ok?
    ensures forall b :: Missed(CreditBooks(books, locker, value, supplied).value, b) == Missed(books, b)
  {
    hide CreditUp;
    if value > 0 {
      var valued := books[locker := books[locker].(value := books[locker].value + value)];
      CreditUpMissed(valued, locker, books[locker].referrer, value, 0, supplied);
      assert forall b :: Missed(valued, b) == Missed(books, b);
    }
  }

  lemma PoachMissed(books: Books, locker: Account, poacher: Account, supplied: set<Account>)
    requires locker in books && LeaveSeller(books, locker, supplied).Ok?
    requires JoinBuyer(LeaveSeller(books, locker, supplied).value, locker, poacher, supplied).Ok?
    ensures forall b ::
      Missed(JoinBuyer(LeaveSeller(books, locker, supplied).value, locker, poacher, supplied).value, b) == Missed(books, b)
  {
    var left := LeaveSeller(books, locker, supplied).value;
    assert forall b :: Missed(left, b) == Missed(books, b);
    hide LeaveSeller;
    var joined := JoinBuyer(left, locker, poacher, supplied).value;
    assert forall b :: Missed(joined, b) == Missed(left, b);
  }

  /** What one instruction adds to what `b` has missed. */
  function NewlyMissed(books: Books, op: Instruction, b: Account): nat {
    if BindsClean(books, op) then 0
    else if ChooseReferrer(Opened(books, op.locker), op.locker, op.referrer, op.supplied, op.sinks) == Ok(b)
    then BookOf(books, op.locker).value
    else 0
  }

  lemma DepositMissed(books: Books, op: Instruction, b: Account)
    requires BooksInv(books) && op.Deposit? && Apply(books, op).Ok?
    ensures Missed(Exec(books, op), b) == Missed(books, b) + NewlyMissed(books, op, b)
  {
    hide BooksInv, CreditBooks, WalkStatus;
    var held := Opened(books, op.locker);
    if held[op.locker].referrer == UNBOUND {
      var to := ChooseReferrer(held, op.locker, op.referrer, op.supplied, op.sinks).value;
      var bound := Bind(held, op.locker, to, op.supplied).value;
      CreditBooksMissed(bound, op.locker, op.value, op.supplied);
      assert Missed(Exec(books, op), b) == Missed(bound, b);
    } else {
      CreditBooksMissed(held, op.locker, op.value, op.supplied);
      assert Missed(Exec(books, op), b) == Missed(held, b);
    }
  }

  lemma ExecMissed(books: Books, op: Instruction, b: Account)
    requires BooksInv(books)
    ensures Missed(Exec(books, op), b) == Missed(books, b) + NewlyMissed(books, op, b)
  {
    hide BooksInv, CreditBooks, MintReferrer, LeaveSeller, JoinBuyer, WalkStatus, BpsCeil;
    if Apply(books, op).Ok? {
      match op
      case Deposit(_, _, _, _, _) => DepositMissed(books, op, b);
      case Claim(locker, value, supplied) =>
        CreditBooksMissed(Opened(books, locker), locker, value, supplied);
        assert Missed(Exec(books, op), b) == Missed(Opened(books, locker), b);
      case Buy(locker, poacher, _, _, _, supplied, _) =>
        PoachMissed(books, locker, poacher, supplied);
        assert Missed(Exec(books, op), b) == Missed(books, b);
    }
  }

  lemma MissedByNobody(books: Books)
    ensures NothingMissed(books) <==> forall b :: Missed(books, b) == 0
  {
    assert NothingMissed(books) ==> forall b :: Missed(books, b) == 0;
    forall b | b in books && forall j :: Missed(books, j) == 0
      ensures books[b].missed == 0
    {
      assert Missed(books, b) == 0;
    }
  }

  /** One instruction leaves nothing missed exactly if nothing was and it does not bind value away. */
  lemma ExecNothingMissed(books: Books, op: Instruction)
    requires BooksInv(books)
    ensures NothingMissed(Exec(books, op)) <==> NothingMissed(books) && BindsClean(books, op)
  {
    var after := Exec(books, op);
    MissedByNobody(books);
    MissedByNobody(after);
    forall b
      ensures Missed(after, b) == Missed(books, b) + NewlyMissed(books, op, b)
    {
      ExecMissed(books, op, b);
    }
    hide BooksInv, Exec, NothingMissed, MintReferrer, WalkStatus;
    if !BindsClean(books, op) {
      var to := ChooseReferrer(Opened(books, op.locker), op.locker, op.referrer, op.supplied, op.sinks).value;
      assert NewlyMissed(books, op, to) > 0;
      assert Missed(after, to) > 0;
    } else {
      assert forall b :: NewlyMissed(books, op, b) == 0;
      assert forall b :: Missed(after, b) == Missed(books, b);
    }
  }

  lemma {:induction false} RunNothingMissed(books: Books, ops: seq<Instruction>)
    requires BooksInv(books)
    ensures NothingMissed(Run(books, ops)) <==> NothingMissed(books) && AllBindsClean(books, ops)
    decreases |ops|
  {
    hide BooksInv, Exec, NothingMissed, BindsClean;
    if ops != [] {
      ExecNothingMissed(books, ops[0]);
      ExecKeeps(books, ops[0]);
      RunNothingMissed(Exec(books, ops[0]), ops[1..]);
    }
  }

  /**
   * After any run, every cached `l1` is the value of the book's children if and only if no deposit of the run bound
   * a locker that already had value to another wallet.
   */
  lemma ExactIffBindsClean(ops: seq<Instruction>)
    ensures Exact(Run(map[], ops)) <==> AllBindsClean(map[], ops)
  {
    RunKeeps(map[], ops);
    hide BooksInv, Run, AllBindsClean, Exact;
    ExactIsNothingMissed(Run(map[], ops));
    EmptyBooks();
    RunNothingMissed(map[], ops);
    assert NothingMissed(map[]);
  }

  // ----- what an instruction writes

  function Booked(books: Books, k: Account): nat {
    BookOf(books, k).value
  }

  lemma CreditUpWrites(books: Books, locker: Account, key: Account, value: nat, level: nat, supplied: set<Account>)
    requires CreditUp(books, locker, key, value, level, supplied).Ok?
    ensures var after := CreditUp(books, locker, key, value, level, supplied).value;
            forall k :: Link(after, k) == Link(books, k) && Booked(after, k) == Booked(books, k)
    decreases LEVELS - level
  {
  }

  lemma CreditBooksWrites(books: Books, locker: Account, value: nat, supplied: set<Account>)
    requires CreditBooks(books, locker, value, supplied).Ok?
    ensures var after := CreditBooks(books, locker, value, supplied).value;
            forall k :: Link(after, k) == Link(books, k)
                     && Booked(after, k) == Booked(books, k) + (if k == locker then value else 0)
  {
    hide CreditUp;
    if value > 0 {
      var valued := books[locker := books[locker].(value := books[locker].value + value)];
      CreditUpWrites(valued, locker, books[locker].referrer, value, 0, supplied);
      assert forall k :: Link(valued, k) == Link(books, k);
    }
  }

  /**
   * A deposit books its value on the depositor alone. If the depositor has no referrer yet it gets the one asked
   * for, or itself when none was named or the chain from there leads back; otherwise every link stays.
   */
  lemma DepositWrites(books: Books, op: Instruction)
    requires op.Deposit? && Apply(books, op).Ok?
    ensures var after := Exec(books, op);
            && (forall k :: Booked(after, k) == Booked(books, k) + (if k == op.locker then op.value else 0))
            && (forall k :: k != op.locker || Link(books, k) != UNBOUND ==> Link(after, k) == Link(books, k))
            && (Link(books, op.locker) == UNBOUND ==>
                  var asked := if op.referrer == UNBOUND then op.locker else op.referrer;
                  && (asked == op.locker || asked !in op.sinks)
                  && Link(after, op.locker)
                     == match WalkStatus(Pool(op.supplied, Opened(books, op.locker)), op.locker, asked)
                        case No => asked
                        case _ => op.locker)
  {
    hide CreditBooks, WalkStatus, Visit;
    var held := Opened(books, op.locker);
    assert forall k :: Link(held, k) == Link(books, k) && Booked(held, k) == Booked(books, k);
    if held[op.locker].referrer == UNBOUND {
      WalkToSelf(Pool(op.supplied, held), op.locker);
      var to := ChooseReferrer(held, op.locker, op.referrer, op.supplied, op.sinks).value;
      var bound := Bind(held, op.locker, to, op.supplied).value;
      CreditBooksWrites(bound, op.locker, op.value, op.supplied);
    } else {
      CreditBooksWrites(held, op.locker, op.value, op.supplied);
    }
  }

  lemma WalkToSelf(pool: Pool, locker: Account)
    ensures WalkStatus(pool, locker, locker) == No
  {
  }

  /** A claim books its value on the holder alone and links nobody. */
  lemma ClaimWrites(books: Books, op: Instruction)
    requires op.Claim? && Apply(books, op).Ok?
    ensures var after := Exec(books, op);
            forall k :: Link(after, k) == Link(books, k)
                     && Booked(after, k) == Booked(books, k) + (if k == op.locker then op.value else 0)
  {
    hide CreditBooks;
    CreditBooksWrites(Opened(books, op.locker), op.locker, op.value, op.supplied);
  }

  /** A poach books nothing and moves one link: the locker's, to the poacher. */
  lemma BuyWrites(books: Books, op: Instruction)
    requires op.Buy? && Apply(books, op).Ok?
    ensures var after := Exec(books, op);
            && op.locker in books && op.poacher != UNBOUND
            && forall k :: Link(after, k) == (if k == op.locker then op.poacher else Link(books, k))
                        && Booked(after, k) == Booked(books, k)
  {
    hide WalkStatus, BpsCeil;
    var left := LeaveSeller(books, op.locker, op.supplied).value;
    assert forall k :: Link(left, k) == Link(books, k) && Booked(left, k) == Booked(books, k);
    hide LeaveSeller;
    var after := JoinBuyer(left, op.locker, op.poacher, op.supplied).value;
    assert forall k :: Link(after, k) == (if k == op.locker then op.poacher else Link(left, k))
                    && Booked(after, k) == Booked(left, k);
  }

  /** A referrer, once set, is changed by nothing but a poach of that very seat. */
  lemma {:induction false} ReferrerIsSticky(books: Books, ops: seq<Instruction>, k: Account)
    requires Link(books, k) != UNBOUND
    requires forall op :: op in ops ==> !(op.Buy? && op.locker == k)
    ensures Link(Run(books, ops), k) == Link(books, k)
    decreases |ops|
  {
    if ops != [] {
      var op := ops[0];
      assert op in ops;
      if Apply(books, op).Ok? {
        match op
        case Deposit(_, _, _, _, _) => DepositWrites(books, op);
        case Claim(_, _, _) => ClaimWrites(books, op);
        case Buy(_, _, _, _, _, _, _) => BuyWrites(books, op);
      }
      hide Apply;
      ReferrerIsSticky(Exec(books, op), ops[1..], k);
    }
  }

  // ----- when a poach cannot be paid out of the seller's aggregates

  /** The value of the seller's children other than the locker. */
  ghost function OtherChildren(books: Books, locker: Account): int
    requires locker in books
  {
    ChildValue(books, books[locker].referrer) - books[locker].value
  }

  /** The second-level debits of a poach never fail; the first-level one fails exactly if too much was missed. */
  lemma PoachDebits(books: Books, locker: Account, supplied: set<Account>)
    requires BooksInv(books) && books.Keys <= supplied && locker in books
    requires Link(books, locker) != UNBOUND && Link(books, locker) != locker
    ensures LeaveSeller(books, locker, supplied).Err? <==> books[Link(books, locker)].missed > OtherChildren(books, locker)
    ensures LeaveSeller(books, locker, supplied).Err? ==> LeaveSeller(books, locker, supplied) == Err(MathOverflow)
  {
    var seller := Link(books, locker);
    var above := Link(books, seller);
    hide Forest, Sum;
    assert L1Gap(books, seller) == 0 && L2Gap(books, seller) == 0;
    SumAtLeast<Account, Book>(books, locker, L1Under(seller));
    SumAtLeast<Account, Book>(books - {seller}, locker, L1Under(seller));
    SumTakeOut<Account, Book>(books, seller, L1Under(seller));
    assert books[locker].l1 <= books[seller].l2;
    if above != UNBOUND && above != seller {
      assert L2Gap(books, above) == 0;
      SumTakeOut<Account, Book>(books, above, L1Under(above));
      SumAtLeast<Account, Book>(books - {above}, seller, L1Under(above));
      assert books[seller].l1 <= books[above].l2;
    }
  }

  /** If every bind was clean, no poach is ever stopped by the aggregates of the seller or of the one above. */
  lemma CleanRunsNeverBlockAPoach(ops: seq<Instruction>, locker: Account, supplied: set<Account>)
    requires AllBindsClean(map[], ops)
    requires var books := Run(map[], ops);
             && books.Keys <= supplied && locker in books
             && Link(books, locker) != UNBOUND && Link(books, locker) != locker
    ensures LeaveSeller(Run(map[], ops), locker, supplied).Ok?
  {
    ExactIffBindsClean(ops);
    RunKeeps(map[], ops);
    var books := Run(map[], ops);
    hide Run, AllBindsClean, Forest, Sum, LeaveSeller;
    ExactIsNothingMissed(books);
    var seller := Link(books, locker);
    PoachDebits(books, locker, supplied);
    SumTakeOut<Account, Book>(books, seller, ValueUnder(seller));
    SumAtLeast<Account, Book>(books - {seller}, locker, ValueUnder(seller));
  }

  /** The price of a seat is what its owner booked and what its children booked, and it is paid in full. */
  lemma PoachPays(books: Books, locker: Account, poacher: Account, balance: nat, feeBps: nat, supplied: set<Account>,
                  sinks: set<Account>)
    requires Poach(books, locker, poacher, balance, false, feeBps, supplied, sinks).Ok?
    ensures var (after, fee, toSeller) := Poach(books, locker, poacher, balance, false, feeBps, supplied, sinks).value;
            && locker in books && fee + toSeller == books[locker].value + books[locker].l1 <= balance
            && fee * BPS >= (fee + toSeller) * feeBps && (fee > 0 ==> (fee - 1) * BPS < (fee + toSeller) * feeBps)
            && Link(after, locker) == poacher != Link(books, locker)
  {
    hide WalkStatus, LeaveSeller;
    var price := books[locker].value + books[locker].l1;
  }

  // ----- a run in which a poach is blocked

  const EVERYBODY: set<Account> := {1, 2, 3}

  /** A claim credits a locker before its first deposit binds it to another wallet. */
  function ClaimThenBind(): seq<Instruction> {
    [Claim(1, 7, EVERYBODY), Deposit(1, 2, 5, EVERYBODY, {})]
  }

  /** The seat is worth 12 but the seller was only ever credited 5, so nobody can buy it: every poach fails. */
  lemma ClaimBeforeBindBlocksPoach(poacher: Account, balance: nat, feeBps: nat, supplied: set<Account>,
                                   sinks: set<Account>)
    ensures Run(map[], ClaimThenBind()) == map[1 := Book(2, 12, 0, 0, 0), 2 := Book(UNBOUND, 0, 5, 0, 7)]
    ensures Poach(Run(map[], ClaimThenBind()), 1, poacher, balance, false, feeBps, supplied, sinks).Err?
    ensures Poach(Run(map[], ClaimThenBind()), 1, 3, 12, false, 0, EVERYBODY, {}) == Err(MathOverflow)
  {
    var ops := ClaimThenBind();
    var claimed := Exec(map[], ops[0]);
    assert claimed == map[1 := Book(UNBOUND, 7, 0, 0, 0)];
    var bound := Exec(claimed, ops[1]);
    assert bound == map[1 := Book(2, 12, 0, 0, 0), 2 := Book(UNBOUND, 0, 5, 0, 7)];
    assert ops[1..] == [ops[1]] && ops[1..][1..] == [];
    assert Run(map[], ops) == Run(claimed, ops[1..]) == Run(bound, []) == bound;
  }
}
