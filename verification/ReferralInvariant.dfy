/** Every referral instruction keeps the forest and the aggregates. */
module ReferralInvariant {
  import opened Prelude
  import opened Tokenomics
  import opened ReferralWalk
  import opened Referrals

  // ----- links

  function Link(books: Books, k: Account): Account {
    BookOf(books, k).referrer
  }

  /** No book was lost and only the edge out of `locker` may differ: it now leads to `to`. */
  ghost predicate Relinked(books: Books, after: Books, locker: Account, to: Account) {
    && books.Keys <= after.Keys && UNBOUND !in after
    && forall k :: Link(after, k) == if k == locker then to else Link(books, k)
  }

  lemma {:induction false} SameEnd(a: Books, b: Books, k: Account, n: nat)
    requires forall j :: Link(a, j) == Link(b, j)
    requires Ends(a, k, n)
    ensures Ends(b, k, n)
    decreases n
  {
    assert Link(a, k) == Link(b, k);
    if k in a && a[k].referrer != UNBOUND && a[k].referrer != k {
      SameEnd(a, b, a[k].referrer, n - 1);
    }
  }

  lemma RelinkedCloses(books: Books, after: Books, locker: Account, to: Account)
    requires Closed(books) && Relinked(books, after, locker, to)
    requires to == UNBOUND || to in after
    ensures Closed(after)
  {
    forall k | k in after
      ensures after[k].referrer == UNBOUND || after[k].referrer in after
    {
      assert Link(after, k) == if k == locker then to else Link(books, k);
    }
  }

  /** An edge that the walk allowed, wherever the rest of the books' figures went, keeps the forest. */
  lemma RelinkedKeepsForest(books: Books, after: Books, locker: Account, to: Account, supplied: set<Account>)
    requires Forest(books) && Relinked(books, after, locker, to) && WalkStatus(Pool(supplied, books), locker, to) == No
    ensures Forest(after)
  {
    var hung := books[locker := BookOf(books, locker).(referrer := to)];
    AllowedEdgeKeepsForest(Pool(supplied, books), locker, to, hung[locker]);
    forall k | k in after
      ensures exists n: nat :: Ends(after, k, n)
    {
      if k in hung {
        var n: nat :| Ends(hung, k, n);
        SameEnd(hung, after, k, n);
      } else {
        assert Link(after, k) == UNBOUND;
        assert Ends(after, k, 0);
      }
    }
  }

  /** Books that kept all their links keep the forest. */
  lemma SameLinksKeepForest(books: Books, after: Books, locker: Account)
    requires Forest(books) && Relinked(books, after, locker, Link(books, locker))
    ensures Forest(after)
  {
    forall k | k in after
      ensures exists n: nat :: Ends(after, k, n)
    {
      if k in books {
        var n: nat :| Ends(books, k, n);
        SameEnd(books, after, k, n);
      } else {
        assert Link(after, k) == UNBOUND;
        assert Ends(after, k, 0);
      }
    }
  }

  lemma {:induction false} NoTwoCycle(books: Books, a: Account, b: Account, n: nat)
    requires Ends(books, a, n) && a != b && a != UNBOUND && b != UNBOUND
    ensures !(Link(books, a) == b && Link(books, b) == a)
    decreases n
  {
    if Link(books, a) == b && Link(books, b) == a {
      NoTwoCycle(books, b, a, n - 1);
    }
  }

  lemma ForestHasNoTwoCycle(books: Books, a: Account, b: Account)
    requires Forest(books) && a != b && a != UNBOUND && b != UNBOUND
    ensures !(Link(books, a) == b && Link(books, b) == a)
  {
    if Link(books, a) == b {
      var n: nat :| Ends(books, a, n);
      NoTwoCycle(books, a, b, n);
    }
  }

  // ----- opening, binding and crediting

  lemma OpenedKeeps(books: Books, k: Account)
    requires BooksInv(books) && k != UNBOUND
    ensures BooksInv(Opened(books, k)) && k in Opened(books, k)
  {
    var after := Opened(books, k);
    SameLinksKeepForest(books, after, k);
    forall b | b != UNBOUND
      ensures L1Gap(after, b) == 0 && L2Gap(after, b) == 0
    {
      hide L1Gap, L2Gap;
      RowUpdate(books, k, BookOf(books, k), b);
    }
  }

  lemma BindGaps(books: Books, locker: Account, to: Account, supplied: set<Account>, b: Account)
    requires locker in books && Link(books, locker) == UNBOUND && to != UNBOUND && b != UNBOUND
    requires Bind(books, locker, to, supplied).Ok?
    ensures L1Gap(Bind(books, locker, to, supplied).value, b) == L1Gap(books, b)
    ensures L2Gap(Bind(books, locker, to, supplied).value, b) == L2Gap(books, b)
  {
    var book, up := books[locker], BookOf(books, to);
    hide L1Gap, L2Gap;
    if to != locker {
      var carried := up.(l2 := up.l2 + book.l1, missed := up.missed + book.value);
      RowUpdate(books, to, carried, b);
      RowUpdate(books[to := carried], locker, book.(referrer := to), b);
    } else {
      RowUpdate(books, locker, book.(referrer := locker), b);
    }
  }

  lemma ChosenIsAllowed(books: Books, locker: Account, referrer: Account, supplied: set<Account>, sinks: set<Account>)
    requires ChooseReferrer(books, locker, referrer, supplied, sinks).Ok?
    ensures WalkStatus(Pool(supplied, books), locker,
                       ChooseReferrer(books, locker, referrer, supplied, sinks).value) == No
  {
    hide Visit;
  }

  lemma BindKeeps(books: Books, locker: Account, to: Account, supplied: set<Account>)
    requires BooksInv(books) && locker in books && Link(books, locker) == UNBOUND && to != UNBOUND
    requires WalkStatus(Pool(supplied, books), locker, to) == No
    requires Bind(books, locker, to, supplied).Ok?
    ensures BooksInv(Bind(books, locker, to, supplied).value)
    ensures locker in Bind(books, locker, to, supplied).value
  {
    var after := Bind(books, locker, to, supplied).value;
    hide WalkStatus, L1Gap, L2Gap;
    RelinkedCloses(books, after, locker, to);
    RelinkedKeepsForest(books, after, locker, to, supplied);
    forall b | b != UNBOUND
      ensures L1Gap(after, b) == 0 && L2Gap(after, b) == 0
    {
      BindGaps(books, locker, to, supplied, b);
    }
  }

  /** Crediting the second level pays off the gap that crediting the first level opened. */
  lemma CreditAboveGaps(books: Books, locker: Account, key: Account, value: nat, supplied: set<Account>, b: Account)
    requires CreditUp(books, locker, key, value, 1, supplied).Ok? && key != locker && b != UNBOUND
    ensures var after := CreditUp(books, locker, key, value, 1, supplied).value;
            && L1Gap(after, b) == L1Gap(books, b)
            && L2Gap(after, b) == L2Gap(books, b) - (if b == key then value else 0)
            && after.Keys == books.Keys && forall k :: Link(after, k) == Link(books, k)
  {
    hide L1Gap, L2Gap;
    if key != UNBOUND {
      RowUpdate(books, key, books[key].(l2 := books[key].l2 + value), b);
    }
  }

  lemma CreditUpGaps(books: Books, locker: Account, key: Account, value: nat, supplied: set<Account>, b: Account)
    requires CreditUp(books, locker, key, value, 0, supplied).Ok? && b != UNBOUND && locker != UNBOUND
    requires !(key != locker && Link(books, locker) == key && Link(books, key) == locker)
    requires Link(books, locker) == key
    ensures var after := CreditUp(books, locker, key, value, 0, supplied).value;
            && L1Gap(after, b) == L1Gap(books, b) - (if b == key != locker then value else 0)
            && L2Gap(after, b) == L2Gap(books, b)
            && after.Keys == books.Keys && forall k :: Link(after, k) == Link(books, k)
  {
    hide L1Gap, L2Gap;
    if key != UNBOUND && key != locker {
      var up := books[key];
      var credited := books[key := up.(l1 := up.l1 + value)];
      RowUpdate(books, key, credited[key], b);
      assert forall k :: Link(credited, k) == Link(books, k);
      if up.referrer != key {
        CreditAboveGaps(credited, locker, up.referrer, value, supplied, b);
      }
    }
  }

  lemma CreditBooksGaps(books: Books, locker: Account, value: nat, supplied: set<Account>, b: Account)
    requires Forest(books) && UNBOUND !in books && locker != UNBOUND && b != UNBOUND
    requires CreditBooks(books, locker, value, supplied).Ok?
    ensures var after := CreditBooks(books, locker, value, supplied).value;
            && L1Gap(after, b) == L1Gap(books, b) && L2Gap(after, b) == L2Gap(books, b)
            && after.Keys == books.Keys && forall k :: Link(after, k) == Link(books, k)
  {
    if value > 0 {
      var book := books[locker];
      var key := book.referrer;
      var valued := books[locker := book.(value := book.value + value)];
      if key != UNBOUND && key != locker {
        ForestHasNoTwoCycle(books, locker, key);
      }
      hide Forest, L1Gap, L2Gap, CreditUp;
      RowUpdate(books, locker, valued[locker], b);
      assert forall k :: Link(valued, k) == Link(books, k);
      CreditUpGaps(valued, locker, key, value, supplied, b);
    }
  }

  lemma CreditBooksKeeps(books: Books, locker: Account, value: nat, supplied: set<Account>)
    requires BooksInv(books) && locker != UNBOUND && CreditBooks(books, locker, value, supplied).Ok?
    ensures BooksInv(CreditBooks(books, locker, value, supplied).value)
  {
    var after := CreditBooks(books, locker, value, supplied).value;
    hide Forest, L1Gap, L2Gap, CreditBooks;
    forall b | b != UNBOUND
      ensures L1Gap(after, b) == 0 && L2Gap(after, b) == 0
    {
      CreditBooksGaps(books, locker, value, supplied, b);
    }
    CreditBooksGaps(books, locker, value, supplied, locker);
    RelinkedCloses(books, after, locker, Link(books, locker));
    SameLinksKeepForest(books, after, locker);
  }

  lemma MintReferrerKeeps(books: Books, locker: Account, referrer: Account, value: nat, supplied: set<Account>,
                          sinks: set<Account>)
    requires BooksInv(books) && MintReferrer(books, locker, referrer, value, supplied, sinks).Ok?
    ensures BooksInv(MintReferrer(books, locker, referrer, value, supplied, sinks).value)
  {
    hide BooksInv, WalkStatus, Bind, CreditBooks;
    OpenedKeeps(books, locker);
    var held := Opened(books, locker);
    if held[locker].referrer == UNBOUND {
      var to := ChooseReferrer(held, locker, referrer, supplied, sinks).value;
      ChosenIsAllowed(held, locker, referrer, supplied, sinks);
      BindKeeps(held, locker, to, supplied);
      CreditBooksKeeps(Bind(held, locker, to, supplied).value, locker, value, supplied);
    } else {
      CreditBooksKeeps(held, locker, value, supplied);
    }
  }

  lemma ClaimCreditKeeps(books: Books, locker: Account, value: nat, supplied: set<Account>)
    requires BooksInv(books) && ClaimCredit(books, locker, value, supplied).Ok?
    ensures BooksInv(ClaimCredit(books, locker, value, supplied).value)
  {
    hide BooksInv, CreditBooks, Opened;
    OpenedKeeps(books, locker);
    CreditBooksKeeps(Opened(books, locker), locker, value, supplied);
  }

  // ----- poaching

  /** Debiting the seller's side opens the gaps that only moving the edge can close. */
  lemma LeaveSellerGaps(books: Books, locker: Account, supplied: set<Account>, b: Account)
    requires Closed(books) && locker in books && Link(books, locker) != UNBOUND && b != UNBOUND
    requires Link(books, locker) != locker ==> Link(books, Link(books, locker)) != locker
    requires LeaveSeller(books, locker, supplied).Ok?
    ensures var after := LeaveSeller(books, locker, supplied).value;
            var seller := Link(books, locker);
            && L1Gap(after, b) == L1Gap(books, b) + (if b == seller != locker then books[locker].value else 0)
            && L2Gap(after, b) == L2Gap(books, b) + (if b == seller != locker then books[locker].l1 else 0)
            && after.Keys == books.Keys && after[locker] == books[locker]
            && forall k :: Link(after, k) == Link(books, k)
  {
    hide L1Gap, L2Gap;
    var own, direct, seller := books[locker].value, books[locker].l1, books[locker].referrer;
    if seller != locker {
      var book := books[seller];
      var debited := books[seller := book.(l1 := book.l1 - own, l2 := book.l2 - direct)];
      RowUpdate(books, seller, debited[seller], b);
      var above := book.referrer;
      assert above != UNBOUND ==> above in debited;
      if above != UNBOUND && above != seller {
        RowUpdate(debited, above, debited[above].(l2 := debited[above].l2 - own), b);
      }
    }
  }

  lemma JoinBuyerGaps(books: Books, locker: Account, poacher: Account, supplied: set<Account>, b: Account)
    requires Closed(books) && locker in books && Link(books, locker) != UNBOUND && b != UNBOUND && poacher != UNBOUND
    requires poacher != locker ==> Link(books, poacher) != locker
    requires poacher != Link(books, locker)
    requires JoinBuyer(books, locker, poacher, supplied).Ok?
    ensures var after := JoinBuyer(books, locker, poacher, supplied).value;
            var seller := Link(books, locker);
            && L1Gap(after, b) == L1Gap(books, b) - (if b == seller != locker then books[locker].value else 0)
            && L2Gap(after, b) == L2Gap(books, b) - (if b == seller != locker then books[locker].l1 else 0)
  {
    hide L1Gap, L2Gap;
    var own, direct, seller := books[locker].value, books[locker].l1, books[locker].referrer;
    if poacher == locker {
      RowUpdate(books, locker, books[locker].(referrer := locker), b);
    } else {
      var buyer := BookOf(books, poacher);
      var bought := books[poacher := buyer.(l1 := buyer.l1 + own, l2 := buyer.l2 + direct)];
      RowUpdate(books, poacher, bought[poacher], b);
      var joined := bought[locker := books[locker].(referrer := poacher)];
      RowUpdate(bought, locker, joined[locker], b);
      var above := buyer.referrer;
      if above != UNBOUND && above != poacher {
        RowUpdate(joined, above, BookOf(joined, above).(l2 := BookOf(joined, above).l2 + own), b);
      }
    }
  }

  lemma JoinBuyerLinks(books: Books, locker: Account, poacher: Account, supplied: set<Account>)
    requires Closed(books) && locker in books && poacher != UNBOUND && JoinBuyer(books, locker, poacher, supplied).Ok?
    ensures Relinked(books, JoinBuyer(books, locker, poacher, supplied).value, locker, poacher)
    ensures poacher in JoinBuyer(books, locker, poacher, supplied).value
  {
  }

  lemma {:induction false} AllowedPoacherIsNotBelow(books: Books, locker: Account, poacher: Account,
                                                    supplied: set<Account>)
    requires WalkStatus(Pool(supplied, books), locker, poacher) == No && poacher != locker && locker != UNBOUND
    ensures Link(books, poacher) != locker
  {
    var n := NoMeansEnds(Pool(supplied, books), locker, poacher);
  }

  lemma PoachKeeps(books: Books, locker: Account, poacher: Account, supplied: set<Account>)
    requires BooksInv(books) && locker in books && Link(books, locker) != UNBOUND && poacher != UNBOUND
    requires poacher != Link(books, locker) && WalkStatus(Pool(supplied, books), locker, poacher) == No
    requires LeaveSeller(books, locker, supplied).Ok?
    requires JoinBuyer(LeaveSeller(books, locker, supplied).value, locker, poacher, supplied).Ok?
    ensures BooksInv(JoinBuyer(LeaveSeller(books, locker, supplied).value, locker, poacher, supplied).value)
  {
    hide WalkStatus, Forest, L1Gap, L2Gap, LeaveSeller, JoinBuyer;
    var left := LeaveSeller(books, locker, supplied).value;
    var after := JoinBuyer(left, locker, poacher, supplied).value;
    var seller := Link(books, locker);
    if seller != locker {
      ForestHasNoTwoCycle(books, locker, seller);
    }
    if poacher != locker {
      AllowedPoacherIsNotBelow(books, locker, poacher, supplied);
    }
    LeaveSellerGaps(books, locker, supplied, locker);
    RelinkedCloses(books, left, locker, seller);
    forall b | b != UNBOUND
      ensures L1Gap(after, b) == 0 && L2Gap(after, b) == 0
    {
      LeaveSellerGaps(books, locker, supplied, b);
      JoinBuyerGaps(left, locker, poacher, supplied, b);
    }
    JoinBuyerLinks(left, locker, poacher, supplied);
    assert Relinked(books, after, locker, poacher);
    RelinkedCloses(left, after, locker, poacher);
    RelinkedKeepsForest(books, after, locker, poacher, supplied);
  }
}
