/** What lockers are owed: how far the reserve is from it, and what each of them earns over a run. */
module DividendTheorems {
  import opened Prelude
  import opened Arithmetic
  import opened Sums
  import opened Tokenomics
  import L = Ledger
  import opened AssetInvariant
  import opened LedgerInvariant
  import opened LedgerRuns

  type Escrows = map<Account, L.Escrow>

  /** What `u` could claim now: checkpointed dividends and the accrual since; nothing without a position. */
  function Pending(a: Asset, escrows: Escrows, u: Account): int {
    if u in a.positions then
      a.positions[u].claimable + Accrued(L.LockedBy(escrows, u), a) - a.positions[u].debt
    else 0
  }

  function Signed(x: int): int {
    x
  }

  ghost function TotalPending(a: Asset, escrows: Escrows): int {
    Sum(map u | u in a.positions :: Pending(a, escrows, u), Signed)
  }

  /** The sum of the separate floors of the locks of `us`. */
  ghost function SeparateFloors(a: Asset, escrows: Escrows, us: set<Account>): int {
    Sum(map u | u in us :: Accrued(L.LockedBy(escrows, u), a) as int, Signed)
  }

  // ----- sums over the same keys

  lemma {:induction false} SumPlus<K>(p: map<K, int>, q: map<K, int>, r: map<K, int>)
    requires p.Keys == q.Keys == r.Keys
    requires forall k :: k in p ==> p[k] == q[k] + r[k]
    ensures Sum(p, Signed) == Sum(q, Signed) + Sum(r, Signed)
    decreases |p|
  {
    if p != map[] {
      var k :| k in p;
      SumTakeOut(p, k, Signed);
      SumTakeOut(q, k, Signed);
      SumTakeOut(r, k, Signed);
      SumPlus(p - {k}, q - {k}, r - {k});
    } else {
      assert q == map[] && r == map[];
    }
  }

  lemma {:induction false} SumSame<K, V>(p: map<K, V>, q: map<K, int>, f: V -> int)
    requires p.Keys == q.Keys
    requires forall k :: k in p ==> f(p[k]) == q[k]
    ensures Sum(p, f) == Sum(q, Signed)
    decreases |p|
  {
    if p != map[] {
      var k :| k in p;
      SumTakeOut(p, k, f);
      SumTakeOut(q, k, Signed);
      SumSame(p - {k}, q - {k}, f);
    } else {
      assert q == map[];
    }
  }

  lemma {:induction false} SumNonNegative<K>(p: map<K, int>)
    requires forall k :: k in p ==> p[k] >= 0
    ensures Sum(p, Signed) >= 0
    decreases |p|
  {
    if p != map[] {
      var k :| k in p;
      SumTakeOut(p, k, Signed);
      SumNonNegative(p - {k});
    }
  }

  lemma {:induction false} SumUnion<K>(p: map<K, int>, q: map<K, int>)
    requires p.Keys !! q.Keys
    ensures Sum(p + q, Signed) == Sum(p, Signed) + Sum(q, Signed)
    decreases |p|
  {
    hide Sum;
    if p != map[] {
      var k :| k in p;
      var rest, both := p - {k}, p + q;
      TakeOutUnion(p, q, k);
      SumTakeOut(p, k, Signed);
      SumTakeOut(both, k, Signed);
      SumUnion(rest, q);
    } else {
      assert p + q == q;
      SumEmpty(p);
    }
  }

  lemma TakeOutUnion<K>(p: map<K, int>, q: map<K, int>, k: K)
    requires p.Keys !! q.Keys && k in p
    ensures p + q - {k} == (p - {k}) + q && (p - {k}).Keys !! q.Keys && k in p + q && (p + q)[k] == p[k]
  {
  }

  lemma SumEmpty<K>(p: map<K, int>)
    requires p == map[]
    ensures Sum(p, Signed) == 0
  {
  }

  /** Lockers without a lock add nothing; the floors of two disjoint groups add up. */
  lemma FloorsUnion(a: Asset, escrows: Escrows, us: set<Account>, vs: set<Account>)
    requires us !! vs
    ensures SeparateFloors(a, escrows, us + vs) == SeparateFloors(a, escrows, us) + SeparateFloors(a, escrows, vs)
  {
    var p := map u | u in us :: Accrued(L.LockedBy(escrows, u), a) as int;
    var q := map u | u in vs :: Accrued(L.LockedBy(escrows, u), a) as int;
    SumUnion(p, q);
    assert p + q == map u | u in us + vs :: Accrued(L.LockedBy(escrows, u), a) as int;
  }

  lemma FloorsOfNobody(a: Asset, escrows: Escrows, us: set<Account>)
    requires forall u :: u in us ==> L.LockedBy(escrows, u) == 0
    ensures SeparateFloors(a, escrows, us) == 0
    decreases |us|
  {
    var p := map u | u in us :: Accrued(L.LockedBy(escrows, u), a) as int;
    if us != {} {
      var k :| k in us;
      SumTakeOut(p, k, Signed);
      FloorsOfNobody(a, escrows, us - {k});
      assert p - {k} == map u | u in us - {k} :: Accrued(L.LockedBy(escrows, u), a) as int;
    }
  }

  /** One floor over everybody is at least the sum of the separate floors. */
  lemma {:induction false} FloorOverEverybody(a: Asset, escrows: Escrows, rest: Escrows)
    requires forall u :: u in rest ==> u in escrows && rest[u] == escrows[u]
    ensures 0 <= Sum(rest, AmountOf)
    ensures SeparateFloors(a, escrows, rest.Keys) <= Accrued(Sum(rest, AmountOf), a)
    decreases |rest|
  {
    hide Floor;
    var p := map u | u in rest.Keys :: Accrued(L.LockedBy(escrows, u), a) as int;
    if rest != map[] {
      var k :| k in rest;
      SumTakeOut(rest, k, AmountOf);
      SumTakeOut(p, k, Signed);
      FloorOverEverybody(a, escrows, rest - {k});
      assert p - {k} == map u | u in (rest - {k}).Keys :: Accrued(L.LockedBy(escrows, u), a) as int;
      FloorSum(rest[k].amount, Sum(rest - {k}, AmountOf), a.accShare, PRECISION);
    } else {
      assert p == map[];
    }
  }

  /** What lockers without a position have accrued; it is given up when their position opens. */
  ghost function Unopened(s: State, i: nat): int
    requires i < |s.assets|
  {
    SeparateFloors(s.assets[i], s.escrows, s.escrows.Keys - s.assets[i].positions.Keys)
  }

  /** One floor over everybody less the separate floors: at least zero. */
  ghost function Dust(s: State, i: nat): int
    requires i < |s.assets|
  {
    Accrued(s.totalLocked, s.assets[i]) - SeparateFloors(s.assets[i], s.escrows, s.escrows.Keys)
  }

  lemma OwnersParts(a: Asset, escrows: Escrows)
    ensures TotalPending(a, escrows) == Sum(a.positions, Net) + SeparateFloors(a, escrows, a.positions.Keys)
  {
    hide Floor;
    var pending := map u | u in a.positions :: Pending(a, escrows, u);
    var net := map u | u in a.positions :: Net(a.positions[u]);
    var floors := map u | u in a.positions.Keys :: Accrued(L.LockedBy(escrows, u), a) as int;
    SumPlus(pending, net, floors);
    SumSame(a.positions, net, Net);
  }

  lemma PendingParts(s: State, i: nat)
    requires i < |s.assets|
    ensures TotalPending(s.assets[i], s.escrows) + Dust(s, i) + Unopened(s, i) + s.assets[i].forfeited - s.assets[i].totalClaimable
         == Overhang(s.assets[i], s.totalLocked)
  {
    hide Floor;
    var a, escrows := s.assets[i], s.escrows;
    var owners := a.positions.Keys;
    OwnersParts(a, escrows);
    hide TotalPending, SeparateFloors, Sum;
    // owners and unopened lockers together are everybody with an escrow, and owners who never locked
    var outside := owners - escrows.Keys;
    FloorsOfNobody(a, escrows, outside);
    FloorsUnion(a, escrows, owners - outside, outside);
    assert (owners - outside) + outside == owners;
    FloorsUnion(a, escrows, owners - outside, escrows.Keys - owners);
    assert (owners - outside) + (escrows.Keys - owners) == escrows.Keys;
  }

  /**
   * In every reachable state the claims that are owed, with the dust of the separate floors, exceed the reserve
   * by at most one unit for each time a lock changed size; and if every locker has a position they fall short
   * of it by at most that, up to what was forfeited. Without dust the same bounds hold for the claims alone.
   */
  lemma ReserveNearPending(s: State, i: nat)
    requires Inv(s) && i < |s.assets|
    ensures var a := s.assets[i];
            && TotalPending(a, s.escrows) + Dust(s, i) <= a.totalClaimable + a.resizes
            && ((forall u :: L.LockedBy(s.escrows, u) > 0 ==> u in a.positions) ==>
                  TotalPending(a, s.escrows) + Dust(s, i) >= a.totalClaimable - a.resizes - a.forfeited)
            && 0 <= Dust(s, i)
            && TotalPending(a, s.escrows) <= a.totalClaimable + a.resizes
  {
    var a := s.assets[i];
    assert AssetInv(a, s.escrows, s.totalLocked, s.config);
    PendingParts(s, i);
    FloorOverEverybody(a, s.escrows, s.escrows);
    hide Floor;
    var unopened := s.escrows.Keys - a.positions.Keys;
    SumNonNegative(map u | u in unopened :: Accrued(L.LockedBy(s.escrows, u), a) as int);
    if forall u :: L.LockedBy(s.escrows, u) > 0 ==> u in a.positions {
      FloorsOfNobody(a, s.escrows, unopened);
    }
  }

  lemma ReserveNearPendingAlways(owner: Account, now: int, ops: seq<Instruction>, i: nat)
    requires i < |Run(Initial(owner, now), ops).assets|
    ensures var s := Run(Initial(owner, now), ops);
            var a := s.assets[i];
            && TotalPending(a, s.escrows) + Dust(s, i) <= a.totalClaimable + a.resizes
            && ((forall u :: L.LockedBy(s.escrows, u) > 0 ==> u in a.positions) ==>
                  TotalPending(a, s.escrows) + Dust(s, i) >= a.totalClaimable - a.resizes - a.forfeited)
  {
    AlwaysInv(owner, now, ops);
    ReserveNearPending(Run(Initial(owner, now), ops), i);
  }

  // ----- what one locker earns

  /** Everything claimed so far, and everything checkpointed, less the current debt. */
  function Base(a: Asset, u: Account): int {
    L.PositionOf(a, u).withdrawn + L.PositionOf(a, u).claimable - L.PositionOf(a, u).debt
  }

  /** Everything claimed so far and everything pending on a lock of `locked`. */
  function Earned(a: Asset, u: Account, locked: nat): int {
    Base(a, u) + Accrued(locked, a)
  }

  /** From `a` to `b` nothing is gained or lost by the checkpoints themselves: at the old index, earnings are equal. */
  predicate Carries(a: Asset, b: Asset, u: Account, locked: nat, locked': nat) {
    && u in b.positions && a.accShare <= b.accShare
    && Base(b, u) + Accrued(locked', a) == Base(a, u) + Accrued(locked, a)
  }

  lemma SettleCarries(a: Asset, v: Account, oldLocked: nat, newLocked: nat, u: Account, escrows: Escrows)
    requires Checkpointed(a, escrows) && L.LockedBy(escrows, v) == oldLocked
    requires L.Settle(a, v, oldLocked, newLocked).Ok? && u in a.positions
    ensures var r := L.Settle(a, v, oldLocked, newLocked).value;
            Carries(a, r, u, L.LockedBy(escrows, u), if u == v then newLocked else L.LockedBy(escrows, u))
            && r.accShare == a.accShare
  {
    SettleFacts(a, v, oldLocked, newLocked);
    hide L.Settle, Floor;
  }

  predicate CarriesAt(s: State, s': State, i: nat, u: Account) {
    && i < |s.assets| && i < |s'.assets|
    && Carries(s.assets[i], s'.assets[i], u, L.LockedBy(s.escrows, u), L.LockedBy(s'.escrows, u))
  }

  /** The part of the invariant that checkpoints need, and a position to follow. */
  ghost predicate Ready(s: State, i: nat, u: Account) {
    && EscrowsInv(s.escrows, s.totalLocked, s.totalVoted, s.lockers, s.voters)
    && i < |s.assets| && Checkpointed(s.assets[i], s.escrows) && u in s.assets[i].positions
  }

  lemma InvReady(s: State, i: nat, u: Account)
    requires Inv(s) && i < |s.assets| && u in s.assets[i].positions
    ensures Ready(s, i, u)
  {
    assert AssetInv(s.assets[i], s.escrows, s.totalLocked, s.config);
  }

  lemma SettleAllCarries(s: State, v: Account, escrows': Escrows, i: nat, u: Account)
    requires Ready(s, i, u)
    requires forall w :: w != v ==> L.LockedBy(escrows', w) == L.LockedBy(s.escrows, w)
    requires L.SettleAll(s.assets, v, L.LockedBy(s.escrows, v), L.LockedBy(escrows', v)).Ok?
    ensures var r := L.SettleAll(s.assets, v, L.LockedBy(s.escrows, v), L.LockedBy(escrows', v)).value;
            && |r| == |s.assets|
            && r[i].accShare == s.assets[i].accShare
            && Carries(s.assets[i], r[i], u, L.LockedBy(s.escrows, u), L.LockedBy(escrows', u))
  {
    hide L.Settle, Floor, EscrowsInv, Sum;
    assert s.assets[i] in s.assets;
    SettleCarries(s.assets[i], v, L.LockedBy(s.escrows, v), L.LockedBy(escrows', v), u, s.escrows);
  }

  lemma PerformLockCarries(s: State, v: Account, add: nat, i: nat, u: Account)
    requires Ready(s, i, u) && L.PerformLock(s, v, add).Ok?
    ensures var r := L.PerformLock(s, v, add).value;
            CarriesAt(s, r, i, u) && r.assets[i].accShare == s.assets[i].accShare
  {
    PerformLockEscrows(s, v, add);
    hide L.SettleAll, Carries, EscrowsInv;
    SettleAllCarries(s, v, L.PerformLock(s, v, add).value.escrows, i, u);
  }

  lemma PerformVoteCarries(s: State, v: Account, add: nat, i: nat, u: Account)
    requires Ready(s, i, u) && L.PerformVote(s, v, add).Ok?
    ensures CarriesAt(s, L.PerformVote(s, v, add).value, i, u)
  {
    PerformVoteEscrows(s, v, add);
    hide L.SettleAll, Carries, EscrowsInv;
    SettleAllCarries(s, v, L.PerformVote(s, v, add).value.escrows, i, u);
  }

  lemma CarriesTransitive(a: Asset, b: Asset, c: Asset, u: Account, locked: nat, locked': nat, locked'': nat)
    requires Carries(a, b, u, locked, locked') && b.accShare == a.accShare && Carries(b, c, u, locked', locked'')
    ensures Carries(a, c, u, locked, locked'')
  {
    hide Floor, Base;
  }

  lemma CarriesPosition(a: Asset, b: Asset, u: Account, locked: nat, locked': nat)
    requires Carries(a, b, u, locked, locked')
    ensures u in b.positions
  {
  }

  lemma LockThenVoteCarries(s: State, v: Account, shortfall: nat, amount: nat, i: nat, u: Account)
    requires Ready(s, i, u) && L.PerformLock(s, v, shortfall).Ok?
    requires Ready(L.PerformLock(s, v, shortfall).value, i, u)
    requires L.PerformVote(L.PerformLock(s, v, shortfall).value, v, amount).Ok?
    ensures CarriesAt(s, L.PerformVote(L.PerformLock(s, v, shortfall).value, v, amount).value, i, u)
  {
    PerformLockCarries(s, v, shortfall, i, u);
    var locked := L.PerformLock(s, v, shortfall).value;
    PerformVoteCarries(locked, v, amount, i, u);
    var r := L.PerformVote(locked, v, amount).value;
    hide L.PerformLock, L.PerformVote, Carries, Ready;
    CarriesTransitive(s.assets[i], locked.assets[i], r.assets[i], u,
                      L.LockedBy(s.escrows, u), L.LockedBy(locked.escrows, u), L.LockedBy(r.escrows, u));
  }

  /** A successful vote is at most a lock of the shortfall and then the vote itself. */
  lemma VoteInSteps(s: State, v: Account, amount: nat) returns (shortfall: nat)
    requires L.Vote(s, v, amount).Ok?
    ensures shortfall == 0 ==> L.Vote(s, v, amount) == L.PerformVote(s, v, amount)
    ensures shortfall > 0 ==>
      && L.PerformLock(s, v, shortfall).Ok?
      && L.Vote(s, v, amount) == L.PerformVote(L.PerformLock(s, v, shortfall).value, v, amount)
  {
    hide L.PerformVote, L.PerformLock;
    var e := L.EscrowOf(s.escrows, v);
    shortfall := SaturatingSub(e.voted + amount, e.amount);
  }

  lemma VoteCarries(s: State, v: Account, amount: nat, i: nat, u: Account)
    requires Inv(s) && i < |s.assets| && u in s.assets[i].positions && L.Vote(s, v, amount).Ok?
    ensures CarriesAt(s, L.Vote(s, v, amount).value, i, u)
  {
    InvReady(s, i, u);
    var shortfall := VoteInSteps(s, v, amount);
    hide *;
    if shortfall > 0 {
      LockKeepsReady(s, v, shortfall, i, u);
      LockThenVoteCarries(s, v, shortfall, amount, i, u);
    } else {
      PerformVoteCarries(s, v, amount, i, u);
    }
  }

  lemma LockKeepsReady(s: State, v: Account, add: nat, i: nat, u: Account)
    requires Inv(s) && i < |s.assets| && u in s.assets[i].positions && L.PerformLock(s, v, add).Ok?
    ensures Ready(L.PerformLock(s, v, add).value, i, u)
  {
    InvReady(s, i, u);
    PerformLockKeeps(s, v, add);
    PerformLockCarries(s, v, add, i, u);
    hide L.PerformLock, Ready, Inv;
    var locked := L.PerformLock(s, v, add).value;
    CarriesPosition(s.assets[i], locked.assets[i], u, L.LockedBy(s.escrows, u), L.LockedBy(locked.escrows, u));
    InvReady(locked, i, u);
  }

  lemma UnlockCarries(s: State, v: Account, amount: nat, i: nat, u: Account)
    requires Ready(s, i, u) && L.Unlock(s, v, amount).Ok?
    ensures CarriesAt(s, L.Unlock(s, v, amount).value, i, u)
  {
    var r := L.Unlock(s, v, amount).value;
    var assets := L.SettleAll(s.assets, v, L.LockedBy(s.escrows, v), L.LockedBy(s.escrows, v) - amount).value;
    ShrinkLockFacts(s.(assets := assets), v, amount);
    hide L.SettleAll, Carries, EscrowsInv, PreviewUnlock, L.ShrinkLock;
    SettleAllCarries(s, v, r.escrows, i, u);
  }

  lemma RedeemCarries(s: State, v: Account, amount: nat, now: int, i: nat, u: Account)
    requires Ready(s, i, u) && L.Redeem(s, v, amount, now).Ok?
    ensures CarriesAt(s, L.Redeem(s, v, amount, now).value, i, u)
  {
    hide L.SettleAll, Carries, EscrowsInv, LiquidateValue, L.PayBasket, L.ShrinkLock, Floor;
    var r := L.Redeem(s, v, amount, now).value;
    var locked := L.LockedBy(s.escrows, v);
    var fromEscrow := amount - Min(amount, L.Balance(s.wallets, v));
    if fromEscrow > 0 {
      ShrinkLockFacts(s, v, fromEscrow);
    }
    assert L.LockedBy(r.escrows, v) == locked - fromEscrow;
    SettleAllCarries(s, v, r.escrows, i, u);
    var settled := L.SettleAll(s.assets, v, locked, locked - fromEscrow).value;
    BasketPositions(settled, v, amount, s.supply, i);
    SamePositions(s.assets[i], settled[i], r.assets[i], u, L.LockedBy(s.escrows, u), L.LockedBy(r.escrows, u));
  }

  lemma SamePositions(a: Asset, b: Asset, c: Asset, u: Account, locked: nat, locked': nat)
    requires Carries(a, b, u, locked, locked') && c.positions == b.positions && c.accShare >= b.accShare
    ensures Carries(a, c, u, locked, locked')
  {
    hide Floor;
  }

  lemma {:induction false} BasketPositions(assets: seq<Asset>, holder: Account, amount: nat, supply: nat, i: nat)
    requires L.PayBasket(assets, holder, amount, supply).Ok? && i < |assets|
    ensures var r := L.PayBasket(assets, holder, amount, supply).value;
            |r| == |assets| && r[i].positions == assets[i].positions && r[i].accShare == assets[i].accShare
    decreases |assets|
  {
    hide PreviewLiquidateShare;
    if i > 0 {
      BasketPositions(assets[1..], holder, amount, supply, i - 1);
      hide L.PayShare;
    } else {
      BasketLength(assets[1..], holder, amount, supply);
    }
  }

  lemma {:induction false} BasketLength(assets: seq<Asset>, holder: Account, amount: nat, supply: nat)
    requires L.PayBasket(assets, holder, amount, supply).Ok?
    ensures |L.PayBasket(assets, holder, amount, supply).value| == |assets|
  {
    hide L.PayShare;
    if assets != [] {
      BasketLength(assets[1..], holder, amount, supply);
    }
  }

  lemma BribeCarries(s: State, op: Instruction, i: nat, u: Account)
    requires op.Bribe? && Inv(s) && Ready(s, i, u) && Apply(s, op).Ok?
    ensures CarriesAt(s, Exec(s, op), i, u)
  {
    hide Sum, AssetsInv, L.PayBribe, PreviewBribe, L.SettleAll, EscrowsInv, Carries;
    assert i < |s.assets|;
    hide Ready;
    var s' := Exec(s, op);
    var e := L.EscrowOf(s.escrows, op.voter);
    assert L.LockedBy(s'.escrows, op.voter) == e.amount - op.amount;
    SettleAllCarries(s, op.voter, s'.escrows, i, u);
    var settled := L.SettleAll(s.assets, op.voter, e.amount, e.amount - op.amount).value;
    assert |settled| == |s.assets| && s'.assets == settled[op.asset := s'.assets[op.asset]];
    if i != op.asset {
      assert s'.assets[i] == settled[i];
    } else {
      var quote := PreviewBribe(op.amount, s.supply, s.totalValue, s.totalVoted, s.config.quorumBps,
                                s.config.bribePremiumBps, s.assets[i].decimals, op.price).value;
      PayBribePositions(settled[i], op.user, op.voter, quote, s'.totalLocked, s.config);
      SamePositions(s.assets[i], settled[i], s'.assets[i], u, L.LockedBy(s.escrows, u), L.LockedBy(s'.escrows, u));
    }
  }

  lemma PayBribePositions(a: Asset, briber: Account, voter: Account, quote: Quote, eligible: nat, cfg: Config)
    requires ValidConfig(cfg) && L.PayBribe(a, briber, voter, quote, eligible, cfg).Ok?
    ensures var r := L.PayBribe(a, briber, voter, quote, eligible, cfg).value;
            r.positions == a.positions && r.accShare >= a.accShare
  {
    hide *;
    var pool, shared := PayBribeParts(a, briber, voter, quote, eligible, cfg);
    var paid := a.(wallets := L.Debit(a.wallets, briber, quote.ask).value, vault := a.vault + quote.ask);
    ShareOutFacts(paid, pool, eligible, cfg);
  }

  lemma DistributeCarries(s: State, op: Instruction, i: nat, u: Account)
    requires op.Distribute? && ConfigInv(s) && Ready(s, i, u) && Apply(s, op).Ok?
    ensures CarriesAt(s, Exec(s, op), i, u)
  {
    var a := s.assets[op.asset];
    var paid := a.(wallets := L.Debit(a.wallets, op.user, op.amount).value, vault := a.vault + op.amount);
    ShareOutFacts(paid, op.amount, s.totalLocked, s.config);
    hide L.ShareOut, Floor, ValidConfig, ValidateConfig, EscrowsInv, Sum, Checkpointed, L.Debit;
    var s' := Exec(s, op);
    if i != op.asset {
      assert s'.assets[i] == s.assets[i];
    } else {
      var shared := L.ShareOut(paid, op.amount, s.totalLocked, s.config).value;
      assert L.PositionOf(s'.assets[i], u) == L.PositionOf(shared, u);
    }
  }

  /** A claim moves its amount from claimable to withdrawn in the holder's settled position. */
  lemma ClaimAssetPositions(a: Asset, holder: Account, payer: Account, locked: nat, amount: nat, s: State,
                            levels: seq<L.Level>, beneficiarPaid: bool)
    requires L.ClaimAsset(a, holder, payer, locked, amount, s, levels, beneficiarPaid).Ok?
    ensures L.Settle(a, holder, locked, locked).Ok?
    ensures var r := L.ClaimAsset(a, holder, payer, locked, amount, s, levels, beneficiarPaid).value;
            var settled := L.Settle(a, holder, locked, locked).value;
            var p := L.PositionOf(settled, holder);
            var claimed := L.Claimed(settled, amount, p.claimable);
            && r.accShare == settled.accShare && claimed <= p.claimable
            && r.positions == if claimed == 0 then settled.positions
                              else settled.positions[holder := L.Position(p.debt, p.claimable - claimed, p.withdrawn + claimed)]
  {
    hide L.Settle, Floor, Sum;
    var settled := L.Settle(a, holder, locked, locked).value;
    var claimed := L.Claimed(settled, amount, L.PositionOf(settled, holder).claimable);
    if claimed > 0 {
      PayClaimFacts(settled, holder, payer, claimed, s.config.claimTipBps);
      var paid := L.PayClaim(settled, holder, payer, claimed, s.config.claimTipBps).value;
      var (gross, revenue) := L.ClaimTreasuryShares(claimed, s.config).value;
      TreasuryPayoutFacts(paid, gross, revenue, s.affiliateShareBps, levels, s.beneficiar, beneficiarPaid);
      hide L.PayClaim, L.ClaimTreasuryShares, L.TreasuryPayout;
    }
  }

  lemma ClaimCarries(s: State, op: Instruction, i: nat, u: Account)
    requires op.Claim? && Ready(s, i, u) && Apply(s, op).Ok?
    requires op.asset < |s.assets| && Checkpointed(s.assets[op.asset], s.escrows)
    ensures CarriesAt(s, Exec(s, op), i, u)
  {
    hide Floor, EscrowsInv, Sum, L.ClaimAsset, L.Settle;
    if i == op.asset {
      var a, locked := s.assets[i], L.LockedBy(s.escrows, op.user);
      ClaimAssetPositions(a, op.user, op.payer, locked, op.amount, s, op.levels, op.beneficiarPaid);
      SettleCarries(a, op.user, locked, locked, u, s.escrows);
    }
  }

  lemma DepositCarries(s: State, op: Instruction, i: nat, u: Account)
    requires op.Deposit? && Ready(s, i, u) && Apply(s, op).Ok?
    ensures CarriesAt(s, Exec(s, op), i, u)
  {
    hide Sum, EscrowsInv, UsdValue, L.PreviewDeposit, L.PerformLock, Floor;
    var a := s.assets[op.asset];
    var value := UsdValue(op.amount, a.decimals, op.price).value;
    var minted := L.PreviewDeposit(s, value, op.now).value;
    var a' := a.(wallets := L.Credit(L.Debit(a.wallets, op.user, op.amount).value, s.grinders, op.amount));
    var booked := s.(assets := s.assets[op.asset := a'], supply := s.supply + minted,
                     wallets := L.Credit(s.wallets, op.user, minted), totalValue := s.totalValue + value);
    if op.lock {
      assert Ready(booked, i, u);
      PerformLockCarries(booked, op.user, minted, i, u);
    }
  }

  /** Nothing an instruction does, by anyone, gives or takes dividends except through the index. */
  lemma ExecCarries(s: State, op: Instruction, i: nat, u: Account)
    requires Inv(s) && i < |s.assets| && u in s.assets[i].positions
    ensures CarriesAt(s, Exec(s, op), i, u)
  {
    InvReady(s, i, u);
    hide Ready, CarriesAt, EscrowsInv, AssetInv, GraiInv, BookInv;
    if Apply(s, op).Ok? {
      match op
      case Deposit(_, _, _, _, _, _) => DepositCarries(s, op, i, u);
      case Lock(v, amount) => PerformLockCarries(s, v, amount, i, u);
      case Vote(v, amount) => VoteCarries(s, v, amount, i, u);
      case Unlock(v, amount) => UnlockCarries(s, v, amount, i, u);
      case Bribe(_, _, _, _, _) => BribeCarries(s, op, i, u);
      case Distribute(_, _, _) => DistributeCarries(s, op, i, u);
      case Claim(v, _, j, _, _, _) =>
        AssetAt(s.assets, j, s.escrows, s.totalLocked, s.config);
        ClaimCarries(s, op, i, u);
      case Redeem(v, amount, now) => RedeemCarries(s, v, amount, now, i, u);
      case _ => OtherCarries(s, op, i, u);
    }
  }

  lemma OtherCarries(s: State, op: Instruction, i: nat, u: Account)
    requires Ready(s, i, u) && Apply(s, op).Ok?
    requires op.Liquidate? || op.Revive? || op.SetConfig? || op.ListAsset? || op.TransferGrai? || op.BurnGrai?
          || op.StrayGrai? || op.IssueAsset? || op.TransferAsset? || op.FillVault?
    ensures CarriesAt(s, Exec(s, op), i, u)
  {
    hide Floor, EscrowsInv, Checkpointed, Fits64, Fits128;
  }

  /** The lock of `u` has size `locked` before and after every instruction of the run. */
  predicate LockSteady(s: State, ops: seq<Instruction>, u: Account, locked: nat)
    decreases |ops|
  {
    && L.LockedBy(s.escrows, u) == locked
    && (ops == [] || LockSteady(Exec(s, ops[0]), ops[1..], u, locked))
  }

  /**
   * While a lock keeps its size, whoever votes, claims, settles, distributes or redeems in between and however
   * often, what it has earned grows by exactly the floor at the new index less the floor at the old one.
   */
  lemma {:induction false} CheckpointIndependence(s: State, ops: seq<Instruction>, i: nat, u: Account, locked: nat)
    requires Inv(s) && i < |s.assets| && u in s.assets[i].positions
    requires LockSteady(s, ops, u, locked)
    ensures i < |Run(s, ops).assets|
    ensures var a, b := s.assets[i], Run(s, ops).assets[i];
            && a.accShare <= b.accShare
            && Earned(b, u, locked) - Earned(a, u, locked)
               == Floor(locked, b.accShare, PRECISION) - Floor(locked, a.accShare, PRECISION)
    decreases |ops|
  {
    hide Inv, Exec, Floor, Base;
    if ops != [] {
      ExecKeeps(s, ops[0]);
      ExecCarries(s, ops[0], i, u);
      CheckpointIndependence(Exec(s, ops[0]), ops[1..], i, u, locked);
    }
  }

  // ----- accuracy

  /** `amount` indexed over `eligible` locked GRAI. */
  datatype Accrual = Accrual(amount: nat, eligible: nat)

  predicate Indexable(accruals: seq<Accrual>) {
    forall k :: 0 <= k < |accruals| ==> accruals[k].eligible > 0
  }

  /** The index after a series of accruals, each rounded down. */
  function IndexAfter(share: nat, accruals: seq<Accrual>): nat
    requires Indexable(accruals)
    decreases |accruals|
  {
    if accruals == [] then share
    else IndexAfter(share + Floor(accruals[0].amount, PRECISION, accruals[0].eligible), accruals[1..])
  }

  /** The exact pro-rata share of a lock in a series of accruals. */
  function ExactShare(locked: nat, accruals: seq<Accrual>): real
    requires Indexable(accruals)
  {
    if accruals == [] then 0.0
    else ExactPart(locked, accruals[0]) + ExactShare(locked, accruals[1..])
  }

  function ExactPart(locked: nat, c: Accrual): real
    requires c.eligible > 0
  {
    c.amount as real * locked as real / c.eligible as real
  }

  /** One accrual: the locker's part at the index increase is below the exact part by less than `locked` units of index. */
  lemma AccrualError(locked: nat, c: Accrual)
    requires c.eligible > 0
    ensures var increase := Floor(c.amount, PRECISION, c.eligible);
            var exact := ExactPart(locked, c);
            exact - locked as real / PRECISION as real <= (locked * increase) as real / PRECISION as real <= exact
  {
    var increase := Floor(c.amount, PRECISION, c.eligible);
    FloorBounds(c.amount, PRECISION, c.eligible);
    hide Floor;
    var scaled := c.amount as real * PRECISION as real / c.eligible as real;
    QuotientBounds(c.amount, c.eligible, increase, scaled);
    ScaledPart(c.amount as real, locked as real, c.eligible as real, scaled);
    hide ExactPart;
    ScaledBounds(locked as real, increase as real, scaled);
    CastProduct(locked, increase);
  }

  lemma CastProduct(x: nat, y: nat)
    ensures (x * y) as real == x as real * y as real
  {
  }

  lemma ScaledPart(amount: real, locked: real, eligible: real, scaled: real)
    requires eligible > 0.0 && scaled == amount * PRECISION as real / eligible
    ensures amount * locked / eligible == locked * scaled / PRECISION as real
  {
    assert scaled * eligible == amount * PRECISION as real;
    var x := locked * scaled / PRECISION as real;
    assert x * eligible == locked * (scaled * eligible) / PRECISION as real;
    assert x * eligible == locked * amount;
  }

  lemma QuotientBounds(amount: nat, eligible: nat, increase: nat, scaled: real)
    requires eligible > 0 && increase * eligible <= amount * PRECISION < increase * eligible + eligible
    requires scaled == amount as real * PRECISION as real / eligible as real
    ensures scaled - 1.0 < increase as real <= scaled
  {
    assert scaled * eligible as real == (amount * PRECISION) as real;
    assert increase as real * eligible as real == (increase * eligible) as real;
    assert (increase as real + 1.0) * eligible as real == (increase * eligible + eligible) as real;
    RealCancel(increase as real, scaled, eligible as real);
    RealCancelLess(scaled, increase as real + 1.0, eligible as real);
  }

  lemma RealCancel(x: real, y: real, d: real)
    requires d > 0.0 && x * d <= y * d
    ensures x <= y
  {
    assert (y - x) * d == y * d - x * d;
  }

  lemma RealCancelLess(x: real, y: real, d: real)
    requires d > 0.0 && x * d < y * d
    ensures x < y
  {
    assert (y - x) * d == y * d - x * d;
  }

  lemma NonNegative(x: real, y: real)
    requires x >= 0.0 && y >= 0.0
    ensures x * y >= 0.0
  {
  }

  lemma ScaledBounds(locked: real, increase: real, scaled: real)
    requires locked >= 0.0 && scaled - 1.0 <= increase <= scaled
    ensures locked * scaled / PRECISION as real - locked / PRECISION as real
         <= locked * increase / PRECISION as real <= locked * scaled / PRECISION as real
  {
    var low, middle, high := locked * (scaled - 1.0), locked * increase, locked * scaled;
    assert low == high - locked;
    NonNegative(locked, increase - (scaled - 1.0));
    NonNegative(locked, scaled - increase);
    assert middle - low == locked * (increase - (scaled - 1.0));
    assert high - middle == locked * (scaled - increase);
    assert low / PRECISION as real == high / PRECISION as real - locked / PRECISION as real;
  }

  /** What the growth of the index from `start` to `end` is worth to a lock, before rounding. */
  function Grown(locked: nat, start: nat, end: nat): real {
    (locked * end) as real / PRECISION as real - (locked * start) as real / PRECISION as real
  }

  /** `n` index units on a lock. */
  function Units(n: nat, locked: nat): real {
    n as real * (locked as real / PRECISION as real)
  }

  lemma UnitsNext(n: nat, locked: nat)
    ensures Units(n + 1, locked) == Units(n, locked) + locked as real / PRECISION as real
  {
  }

  lemma GrownBy(locked: nat, start: nat, increase: nat)
    ensures Grown(locked, start, start + increase) == (locked * increase) as real / PRECISION as real
  {
    assert locked * (start + increase) == locked * start + locked * increase;
  }

  lemma {:induction false} IndexError(share: nat, locked: nat, accruals: seq<Accrual>)
    requires Indexable(accruals)
    ensures share <= IndexAfter(share, accruals)
    ensures ExactShare(locked, accruals) - Units(|accruals|, locked)
         <= Grown(locked, share, IndexAfter(share, accruals)) <= ExactShare(locked, accruals)
    decreases |accruals|
  {
    if accruals != [] {
      var increase := Floor(accruals[0].amount, PRECISION, accruals[0].eligible);
      AccrualError(locked, accruals[0]);
      GrownBy(locked, share, increase);
      UnitsNext(|accruals[1..]|, locked);
      GrownSplit(locked, share, share + increase, IndexAfter(share, accruals));
      IndexError(share + increase, locked, accruals[1..]);
      hide Floor, Units, Grown, ExactPart;
      assert |accruals| == |accruals[1..]| + 1;
    }
  }

  lemma GrownSplit(locked: nat, start: nat, middle: nat, end: nat)
    ensures Grown(locked, start, end) == Grown(locked, start, middle) + Grown(locked, middle, end)
  {
  }

  /**
   * What a steady lock earns over `n` accruals is less than `1 + n * locked / 10^18` below, and less than one
   * above, its exact pro-rata part of them.
   */
  lemma ProRata(share: nat, locked: nat, accruals: seq<Accrual>)
    requires Indexable(accruals)
    ensures var earned := Floor(locked, IndexAfter(share, accruals), PRECISION) - Floor(locked, share, PRECISION);
            ExactShare(locked, accruals) - Units(|accruals|, locked) - 1.0 < earned as real < ExactShare(locked, accruals) + 1.0
  {
    IndexError(share, locked, accruals);
    RoundedGrowth(locked, share, IndexAfter(share, accruals));
    hide Grown, Units, Floor;
  }

  lemma RoundedGrowth(locked: nat, start: nat, end: nat)
    ensures Grown(locked, start, end) - 1.0
          < (Floor(locked, end, PRECISION) - Floor(locked, start, PRECISION)) as real
          < Grown(locked, start, end) + 1.0
  {
    FloorAsReal(locked, start);
    FloorAsReal(locked, end);
    hide Floor;
  }

  lemma FloorAsReal(locked: nat, share: nat)
    ensures (locked * share) as real / PRECISION as real - 1.0
          < Floor(locked, share, PRECISION) as real <= (locked * share) as real / PRECISION as real
  {
    FloorBounds(locked, share, PRECISION);
  }
}
