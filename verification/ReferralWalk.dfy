/** Referrer books and the Floyd walk that guards every new edge of the referral graph. */
module ReferralWalk {
  type Account = nat

  /** The default key: a book whose referrer is still unset points here. */
  const UNBOUND: Account := 0

  /**
   * One affiliate book. `missed` is history that no instruction reads: the value that accounts had already
   * booked at the moment they bound to this one.
   */
  datatype Book = Book(referrer: Account, value: nat, l1: nat, l2: nat, missed: nat)

  const NEW_BOOK := Book(UNBOUND, 0, 0, 0, 0)

  type Books = map<Account, Book>

  /** The accounts handed to an instruction; a supplied account without a book is an uninitialised address. */
  datatype Pool = Pool(supplied: set<Account>, books: Books)

  datatype LoopStatus = No | Yes | Incomplete

  datatype Hop = Halt(status: LoopStatus) | Go(next: Account)

  function HopFrom(pool: Pool, cur: Account, locker: Account, to: Account): Hop {
    if cur !in pool.supplied then Halt(Incomplete)
    else if cur !in pool.books then Halt(No)
    else
      var next := pool.books[cur].referrer;
      if next == UNBOUND || next == cur then Halt(No)
      else if next == locker || next == to then Halt(Yes)
      else Go(next)
  }

  /** The reference walk: remember every account seen and stop at the first repetition. */
  function Visit(pool: Pool, locker: Account, to: Account, cur: Account, seen: set<Account>): LoopStatus
    decreases pool.books.Keys - seen
  {
    match HopFrom(pool, cur, locker, to)
    case Halt(status) => status
    case Go(next) => if cur in seen || next in seen + {cur} then Yes else Visit(pool, locker, to, next, seen + {cur})
  }

  /** What making `to` the referrer of `locker` would do to the graph, as far as the pool shows. */
  function WalkStatus(pool: Pool, locker: Account, to: Account): LoopStatus {
    if to == locker then No else Visit(pool, locker, to, to, {})
  }

  /** Where the walk from `to` is after `n` hops. */
  function After(pool: Pool, locker: Account, to: Account, n: nat): Hop {
    if n == 0 then Go(to)
    else
      match After(pool, locker, to, n - 1)
      case Halt(status) => Halt(status)
      case Go(cur) => HopFrom(pool, cur, locker, to)
  }

  lemma {:induction false} GoingBefore(pool: Pool, locker: Account, to: Account, i: nat, n: nat)
    requires i <= n && After(pool, locker, to, n).Go?
    ensures After(pool, locker, to, i).Go?
    decreases n - i
  {
    if i < n {
      GoingBefore(pool, locker, to, i + 1, n);
    }
  }

  lemma {:induction false} HaltedAfter(pool: Pool, locker: Account, to: Account, n: nat, m: nat)
    requires n <= m && After(pool, locker, to, n).Halt?
    ensures After(pool, locker, to, m) == After(pool, locker, to, n)
    decreases m
  {
    if n < m {
      HaltedAfter(pool, locker, to, n, m - 1);
    }
  }

  /** Once the walk is where it was before, it repeats for ever. */
  lemma {:induction false} Periodic(pool: Pool, locker: Account, to: Account, i: nat, j: nat, k: nat)
    requires After(pool, locker, to, i) == After(pool, locker, to, j)
    ensures After(pool, locker, to, i + k) == After(pool, locker, to, j + k)
  {
    if k > 0 {
      Periodic(pool, locker, to, i, j, k - 1);
    }
  }

  lemma {:induction false} PeriodicTimes(pool: Pool, locker: Account, to: Account, i: nat, period: nat, m: nat,
                                         times: nat)
    requires After(pool, locker, to, i) == After(pool, locker, to, i + period)
    requires i <= m
    ensures After(pool, locker, to, m) == After(pool, locker, to, m + times * period)
    decreases times
  {
    hide After;
    if times > 0 {
      var k := m + (times - 1) * period;
      PeriodicTimes(pool, locker, to, i, period, m, times - 1);
      assert m <= k && k + period == m + times * period;
      Periodic(pool, locker, to, i, i + period, k - i);
    }
  }

  /** A walk that comes back to where it was never halts. */
  lemma {:induction false} RepeatNeverHalts(pool: Pool, locker: Account, to: Account, i: nat, j: nat, m: nat)
    requires i < j && After(pool, locker, to, i) == After(pool, locker, to, j) && After(pool, locker, to, j).Go?
    ensures After(pool, locker, to, m).Go?
    decreases m
  {
    if m <= j {
      GoingBefore(pool, locker, to, m, j);
    } else {
      Periodic(pool, locker, to, i, j, m - j);
      RepeatNeverHalts(pool, locker, to, i, j, i + (m - j));
    }
  }

  // ----- the walk is finite

  ghost predicate Distinct(pool: Pool, locker: Account, to: Account, n: nat) {
    forall i, j :: 0 <= i < j <= n ==> After(pool, locker, to, i) != After(pool, locker, to, j)
  }

  /** The accounts hopped from in the first `n` hops. */
  function Seen(pool: Pool, locker: Account, to: Account, n: nat): (seen: set<Account>)
  {
    if n == 0 then {}
    else
      Seen(pool, locker, to, n - 1)
      + (match After(pool, locker, to, n - 1) case Go(cur) => {cur} case Halt(_) => {})
  }

  lemma {:induction false} SeenHas(pool: Pool, locker: Account, to: Account, n: nat, i: nat)
    requires i < n && After(pool, locker, to, i).Go?
    ensures After(pool, locker, to, i).next in Seen(pool, locker, to, n)
  {
    if i < n - 1 {
      SeenHas(pool, locker, to, n - 1, i);
    }
  }

  lemma {:induction false} NotSeenBefore(pool: Pool, locker: Account, to: Account, n: nat, u: Account)
    requires forall i :: 0 <= i < n ==> After(pool, locker, to, i) != Go(u)
    ensures u !in Seen(pool, locker, to, n)
  {
    if n > 0 {
      NotSeenBefore(pool, locker, to, n - 1, u);
      assert After(pool, locker, to, n - 1) != Go(u);
    }
  }

  /** Every account hopped from has a book, and distinct ones are counted once each. */
  lemma {:induction false} SeenCounts(pool: Pool, locker: Account, to: Account, n: nat)
    requires After(pool, locker, to, n).Go? && Distinct(pool, locker, to, n)
    ensures Seen(pool, locker, to, n) <= pool.books.Keys && |Seen(pool, locker, to, n)| == n
  {
    if n > 0 {
      GoingBefore(pool, locker, to, n - 1, n);
      SeenCounts(pool, locker, to, n - 1);
      NotSeenBefore(pool, locker, to, n - 1, After(pool, locker, to, n - 1).next);
    }
  }

  /** No walk makes more distinct hops than there are books. */
  lemma WalkIsFinite(pool: Pool, locker: Account, to: Account, n: nat)
    requires n > |pool.books|
    ensures After(pool, locker, to, n).Halt? || !Distinct(pool, locker, to, n)
  {
    assert |pool.books.Keys| == |pool.books|;
    if After(pool, locker, to, n).Go? && Distinct(pool, locker, to, n) {
      SeenCounts(pool, locker, to, n);
      SubsetIsNoLarger(Seen(pool, locker, to, n), pool.books.Keys);
    }
  }

  lemma {:induction false} SubsetIsNoLarger<T>(a: set<T>, b: set<T>)
    requires a <= b
    ensures |a| <= |b|
  {
    if a != {} {
      var x :| x in a;
      SubsetIsNoLarger(a - {x}, b - {x});
    }
  }

  // ----- the reference walk reads off the hops

  /** As long as the hops are distinct, the reference walk follows them. */
  lemma {:induction false} VisitFollows(pool: Pool, locker: Account, to: Account, n: nat)
    requires After(pool, locker, to, n).Go? && Distinct(pool, locker, to, n)
    ensures Visit(pool, locker, to, to, {})
         == Visit(pool, locker, to, After(pool, locker, to, n).next, Seen(pool, locker, to, n))
  {
    if n > 0 {
      GoingBefore(pool, locker, to, n - 1, n);
      VisitFollows(pool, locker, to, n - 1);
      NotSeenBefore(pool, locker, to, n - 1, After(pool, locker, to, n - 1).next);
      NotSeenBefore(pool, locker, to, n, After(pool, locker, to, n).next);
    }
  }

  lemma {:induction false} GoingIsDistinct(pool: Pool, locker: Account, to: Account, n: nat)
    requires After(pool, locker, to, n).Go? && After(pool, locker, to, n + 1).Halt?
    ensures Distinct(pool, locker, to, n)
  {
    forall i, j | 0 <= i < j <= n
      ensures After(pool, locker, to, i) != After(pool, locker, to, j)
    {
      if After(pool, locker, to, i) == After(pool, locker, to, j) {
        GoingBefore(pool, locker, to, j, n);
        RepeatNeverHalts(pool, locker, to, i, j, n + 1);
      }
    }
  }

  /** If the walk halts, the reference walk says with what. */
  lemma {:induction false} VisitHalts(pool: Pool, locker: Account, to: Account, n: nat)
    requires After(pool, locker, to, n).Halt?
    ensures Visit(pool, locker, to, to, {}) == After(pool, locker, to, n).status
    decreases n
  {
    if After(pool, locker, to, n - 1).Halt? {
      VisitHalts(pool, locker, to, n - 1);
    } else {
      GoingIsDistinct(pool, locker, to, n - 1);
      VisitFollows(pool, locker, to, n - 1);
    }
  }

  /** If the walk comes back to where it was, the reference walk says so. */
  lemma {:induction false} VisitRepeats(pool: Pool, locker: Account, to: Account, i: nat, j: nat)
    requires i < j && After(pool, locker, to, i) == After(pool, locker, to, j) && After(pool, locker, to, j).Go?
    ensures Visit(pool, locker, to, to, {}) == Yes
    decreases j
  {
    GoingBefore(pool, locker, to, j - 1, j);
    if Distinct(pool, locker, to, j - 1) {
      VisitFollows(pool, locker, to, j - 1);
      SeenHas(pool, locker, to, j, i);
    } else {
      var a, b :| 0 <= a < b <= j - 1 && After(pool, locker, to, a) == After(pool, locker, to, b);
      GoingBefore(pool, locker, to, b, j);
      VisitRepeats(pool, locker, to, a, b);
    }
  }

  // ----- Floyd

  /** Two walkers, one twice as fast, meet no later than at the first repetition. */
  lemma WalkersMeet(pool: Pool, locker: Account, to: Account, i: nat, j: nat) returns (t: nat)
    requires i < j && After(pool, locker, to, i) == After(pool, locker, to, j)
    ensures 1 <= t <= j && After(pool, locker, to, t) == After(pool, locker, to, 2 * t)
  {
    var period := j - i;
    var times := i / period + 1;
    t := times * period;
    assert i < t <= j;
    PeriodicTimes(pool, locker, to, i, period, t, times);
  }

  /** The walkers have not met in the first `t` rounds. */
  ghost predicate NotMet(pool: Pool, locker: Account, to: Account, t: nat) {
    forall k :: 1 <= k <= t ==> After(pool, locker, to, k) != After(pool, locker, to, 2 * k)
  }

  lemma RoundsAreBounded(pool: Pool, locker: Account, to: Account, t: nat)
    requires After(pool, locker, to, 2 * t).Go? && NotMet(pool, locker, to, t)
    ensures t <= |pool.books|
  {
    if t > |pool.books| {
      GoingBefore(pool, locker, to, t, 2 * t);
      WalkIsFinite(pool, locker, to, t);
      var i, j :| 0 <= i < j <= t && After(pool, locker, to, i) == After(pool, locker, to, j);
      var k := WalkersMeet(pool, locker, to, i, j);
    }
  }

  /**
   * Floyd's cycle detection with two moving accounts. It terminates on every pool and answers what the walk that
   * remembers everything it saw would answer.
   */
  method HasReferralLoop(pool: Pool, locker: Account, to: Account) returns (status: LoopStatus)
    ensures status == WalkStatus(pool, locker, to)
  {
    if to == locker {
      return No;
    }
    var slow, fast := to, to;
    ghost var t: nat := 0;
    while true
      invariant After(pool, locker, to, t) == Go(slow) && After(pool, locker, to, 2 * t) == Go(fast)
      invariant NotMet(pool, locker, to, t)
      invariant t <= |pool.books|
      decreases |pool.books| - t
    {
      var hop := HopFrom(pool, slow, locker, to);
      if hop.Halt? {
        VisitHalts(pool, locker, to, t + 1);
        return hop.status;
      }
      slow := hop.next;
      for i := 0 to 2
        invariant After(pool, locker, to, 2 * t + i) == Go(fast)
      {
        hop := HopFrom(pool, fast, locker, to);
        if hop.Halt? {
          VisitHalts(pool, locker, to, 2 * t + i + 1);
          return hop.status;
        }
        fast := hop.next;
      }
      t := t + 1;
      if slow == fast {
        VisitRepeats(pool, locker, to, t, 2 * t);
        return Yes;
      }
      RoundsAreBounded(pool, locker, to, t);
    }
  }

  // ----- what the answers mean for the graph

  /** The referrer chain of `k` ends, within `n` links, at a self-root or at a book without referrer. */
  predicate Ends(books: Books, k: Account, n: nat)
    decreases n
  {
    || k !in books
    || books[k].referrer == UNBOUND
    || books[k].referrer == k
    || (n > 0 && Ends(books, books[k].referrer, n - 1))
  }

  /** The same, and the chain does not pass through `locker`. */
  predicate EndsWithout(books: Books, k: Account, locker: Account, n: nat)
    decreases n
  {
    && k != locker
    && (|| k !in books
        || books[k].referrer == UNBOUND
        || books[k].referrer == k
        || (n > 0 && EndsWithout(books, books[k].referrer, locker, n - 1)))
  }

  /** The graph is a forest: every chain ends. */
  ghost predicate Forest(books: Books) {
    forall k :: k in books ==> exists n: nat :: Ends(books, k, n)
  }

  lemma {:induction false} ChainFrom(pool: Pool, locker: Account, to: Account, i: nat, n: nat)
    requires to != locker && i < n
    requires After(pool, locker, to, i).Go? && After(pool, locker, to, n) == Halt(No)
    ensures EndsWithout(pool.books, After(pool, locker, to, i).next, locker, n - i)
    decreases n - i
  {
    var k := After(pool, locker, to, i).next;
    assert k != locker;
    var hop := After(pool, locker, to, i + 1);
    if hop.Go? {
      if i + 1 == n {
        assert false;
      } else {
        ChainFrom(pool, locker, to, i + 1, n);
      }
    } else {
      HaltedAfter(pool, locker, to, i + 1, n);
    }
  }

  /** Answer No: the chain from `to` ends and never meets `locker`. */
  lemma NoMeansEnds(pool: Pool, locker: Account, to: Account) returns (n: nat)
    requires to != locker && WalkStatus(pool, locker, to) == No
    ensures EndsWithout(pool.books, to, locker, n)
  {
    n := |pool.books| + 1;
    WalkIsFinite(pool, locker, to, n);
    if After(pool, locker, to, n).Go? {
      var i, j :| 0 <= i < j <= n && After(pool, locker, to, i) == After(pool, locker, to, j);
      GoingBefore(pool, locker, to, j, n);
      VisitRepeats(pool, locker, to, i, j);
      assert false;
    } else {
      VisitHalts(pool, locker, to, n);
      ChainFrom(pool, locker, to, 0, n);
    }
  }

  lemma {:induction false} EndsWithoutKept(books: Books, k: Account, locker: Account, n: nat, b: Book)
    requires EndsWithout(books, k, locker, n)
    ensures Ends(books[locker := b], k, n)
    decreases n
  {
    if k in books && books[k].referrer != UNBOUND && books[k].referrer != k {
      EndsWithoutKept(books, books[k].referrer, locker, n - 1, b);
    }
  }

  /** Hanging `locker` under an account whose chain ends without it keeps every chain ending. */
  lemma {:induction false} EdgeKeepsEnd(books: Books, locker: Account, to: Account, m: nat, b: Book, k: Account, n: nat)
    requires EndsWithout(books, to, locker, m) && b.referrer == to && Ends(books, k, n)
    ensures Ends(books[locker := b], k, n + m + 1)
    decreases n
  {
    var after := books[locker := b];
    if k == locker {
      EndsWithoutKept(books, to, locker, m, b);
      EndsLonger(after, to, m, n + m);
    } else if k in books && books[k].referrer != UNBOUND && books[k].referrer != k {
      EdgeKeepsEnd(books, locker, to, m, b, books[k].referrer, n - 1);
    }
  }

  lemma {:induction false} EndsLonger(books: Books, k: Account, n: nat, m: nat)
    requires Ends(books, k, n) && n <= m
    ensures Ends(books, k, m)
    decreases n
  {
    if k in books && books[k].referrer != UNBOUND && books[k].referrer != k {
      EndsLonger(books, books[k].referrer, n - 1, m - 1);
    }
  }

  /** A chain cut short at `locker`, which becomes a root, still ends. */
  lemma {:induction false} RootKeepsEnd(books: Books, locker: Account, b: Book, k: Account, n: nat)
    requires (b.referrer == locker || b.referrer == UNBOUND) && Ends(books, k, n)
    ensures Ends(books[locker := b], k, n)
    decreases n
  {
    if k != locker && k in books && books[k].referrer != UNBOUND && books[k].referrer != k {
      RootKeepsEnd(books, locker, b, books[k].referrer, n - 1);
    }
  }

  /** A new edge that the walk allowed keeps the forest. */
  lemma AllowedEdgeKeepsForest(pool: Pool, locker: Account, to: Account, b: Book)
    requires Forest(pool.books) && b.referrer == to && WalkStatus(pool, locker, to) == No
    ensures Forest(pool.books[locker := b])
  {
    var after := pool.books[locker := b];
    forall k | k in after
      ensures exists n: nat :: Ends(after, k, n)
    {
      var n: nat :| Ends(pool.books, k, n);
      if to == locker {
        RootKeepsEnd(pool.books, locker, b, k, n);
      } else {
        var m := NoMeansEnds(pool, locker, to);
        EdgeKeepsEnd(pool.books, locker, to, m, b, k, n);
      }
    }
  }

  /** Following referrers from `k` runs into `locker` within `n` links. */
  predicate Meets(books: Books, k: Account, locker: Account, n: nat)
    decreases n
  {
    k == locker || (n > 0 && k in books && Meets(books, books[k].referrer, locker, n - 1))
  }

  ghost predicate RunsInto(books: Books, k: Account, locker: Account) {
    exists n: nat :: Meets(books, k, locker, n)
  }

  lemma {:induction false} LeastEnd(books: Books, k: Account, n: nat) returns (d: nat)
    requires Ends(books, k, n)
    ensures d <= n && Ends(books, k, d) && (d > 0 ==> !Ends(books, k, d - 1))
  {
    d := n;
    if n > 0 && Ends(books, k, n - 1) {
      d := LeastEnd(books, k, n - 1);
    }
  }

  lemma {:induction false} EndsAlong(pool: Pool, locker: Account, to: Account, d: nat, i: nat)
    requires Ends(pool.books, to, d) && After(pool, locker, to, i).Go?
    ensures i <= d && Ends(pool.books, After(pool, locker, to, i).next, d - i)
  {
    if i > 0 {
      EndsAlong(pool, locker, to, d, i - 1);
    }
  }

  lemma {:induction false} MeetsAhead(pool: Pool, locker: Account, to: Account, d: nat, i: nat, n: nat)
    requires Ends(pool.books, to, d) && (d > 0 ==> !Ends(pool.books, to, d - 1))
    requires i < n && After(pool, locker, to, i).Go? && After(pool, locker, to, n) == Halt(Yes)
    ensures Meets(pool.books, After(pool, locker, to, i).next, locker, n - i)
    decreases n - i
  {
    var cur := After(pool, locker, to, i).next;
    var hop := After(pool, locker, to, i + 1);
    if hop.Go? {
      if i + 1 < n {
        MeetsAhead(pool, locker, to, d, i + 1, n);
      }
    } else {
      HaltedAfter(pool, locker, to, i + 1, n);
      EndsAlong(pool, locker, to, d, i);
      var next := pool.books[cur].referrer;
      if next != locker {
        EndsLonger(pool.books, to, d - i - 1, d - 1);
      }
    }
  }

  /** In a forest the walk answers Yes only when the chain from `to` really runs into `locker`. */
  lemma YesMeansMeets(pool: Pool, locker: Account, to: Account)
    requires Forest(pool.books) && WalkStatus(pool, locker, to) == Yes
    ensures RunsInto(pool.books, to, locker)
  {
    var m: nat :| Ends(pool.books, to, m);
    var d := LeastEnd(pool.books, to, m);
    var n := d + 1;
    if After(pool, locker, to, n).Go? {
      EndsAlong(pool, locker, to, d, n);
    }
    VisitHalts(pool, locker, to, n);
    MeetsAhead(pool, locker, to, d, 0, n);
  }

  lemma {:induction false} WithoutNeverMeets(books: Books, k: Account, locker: Account, n: nat, m: nat)
    requires EndsWithout(books, k, locker, n) && UNBOUND !in books && locker != UNBOUND
    ensures !Meets(books, k, locker, m)
    decreases m
  {
    if m > 0 && k in books {
      if books[k].referrer == UNBOUND {
        assert !Meets(books, UNBOUND, locker, m - 1);
      } else if books[k].referrer == k {
        WithoutNeverMeets(books, k, locker, n, m - 1);
      } else {
        WithoutNeverMeets(books, books[k].referrer, locker, n - 1, m - 1);
      }
    }
  }

  /** Every book's referrer is unset or has a book itself, and nobody has the default key. */
  predicate Closed(books: Books) {
    && UNBOUND !in books
    && forall k :: k in books ==> books[k].referrer == UNBOUND || books[k].referrer in books
  }

  lemma {:induction false} NeverIncomplete(pool: Pool, locker: Account, to: Account, n: nat)
    requires Closed(pool.books) && pool.books.Keys <= pool.supplied && to in pool.supplied
    ensures match After(pool, locker, to, n)
            case Go(k) => k in pool.supplied
            case Halt(status) => status != Incomplete
  {
    if n > 0 {
      NeverIncomplete(pool, locker, to, n - 1);
    }
  }

  /**
   * The guard is exact: with every book at hand, in a forest, the answer is Yes if the chain from `to` runs into
   * `locker` and No if it does not.
   */
  lemma WalkIsExact(pool: Pool, locker: Account, to: Account)
    requires Forest(pool.books) && Closed(pool.books) && pool.books.Keys <= pool.supplied && to in pool.supplied
    requires to != locker && locker != UNBOUND
    ensures WalkStatus(pool, locker, to) == if RunsInto(pool.books, to, locker) then Yes else No
  {
    match WalkStatus(pool, locker, to)
    case Yes =>
      YesMeansMeets(pool, locker, to);
    case No =>
      var m := NoMeansEnds(pool, locker, to);
      forall n: nat
        ensures !Meets(pool.books, to, locker, n)
      {
        WithoutNeverMeets(pool.books, to, locker, m, n);
      }
    case Incomplete =>
      var m: nat :| Ends(pool.books, to, m);
      if After(pool, locker, to, m + 1).Go? {
        EndsAlong(pool, locker, to, m, m + 1);
      }
      VisitHalts(pool, locker, to, m + 1);
      NeverIncomplete(pool, locker, to, m + 1);
  }
}
