/** Runs of the GRAI program: any instructions, by anyone, in any order; a failing instruction changes nothing. */
module LedgerRuns {
  import opened Prelude
  import opened Arithmetic
  import opened Sums
  import opened Tokenomics
  import L = Ledger
  import opened AssetInvariant
  import opened LedgerInvariant

  type Account = L.Account
  type State = L.State
  type Asset = L.Asset

  datatype Instruction =
    | Deposit(user: Account, asset: nat, amount: nat, price: Price, lock: bool, now: int)
    | Lock(user: Account, amount: nat)
    | Vote(user: Account, amount: nat)
    | Unlock(user: Account, amount: nat)
    | Bribe(user: Account, voter: Account, amount: nat, asset: nat, price: Price)
    | Distribute(user: Account, asset: nat, amount: nat)
    | Claim(user: Account, payer: Account, asset: nat, amount: nat, levels: seq<L.Level>, beneficiarPaid: bool)
    | Liquidate(user: Account, grinding: bool, now: int)
    | Redeem(user: Account, amount: nat, now: int)
    | Revive(now: int)
    | SetConfig(config: Config)
    | ListAsset(decimals: nat, paused: bool, bribeable: bool)
    | TransferGrai(user: Account, to: Account, amount: nat)
    | BurnGrai(user: Account, amount: nat)
    | StrayGrai(user: Account, amount: nat)
    | IssueAsset(asset: nat, to: Account, amount: nat)
    | TransferAsset(asset: nat, user: Account, to: Account, amount: nat)
    | FillVault(asset: nat, user: Account, amount: nat)

  function Apply(s: State, op: Instruction): L.Step {
    match op
    case Deposit(u, i, amount, price, lock, now) => L.Deposit(s, u, i, amount, price, lock, now)
    case Lock(u, amount) => L.Lock(s, u, amount)
    case Vote(u, amount) => L.Vote(s, u, amount)
    case Unlock(u, amount) => L.Unlock(s, u, amount)
    case Bribe(u, voter, amount, i, price) => L.Bribe(s, u, voter, amount, i, price)
    case Distribute(u, i, amount) => L.Distribute(s, u, i, amount)
    case Claim(u, payer, i, amount, levels, paid) => L.Claim(s, u, payer, i, amount, levels, paid)
    case Liquidate(u, grinding, now) => L.Liquidate(s, u, grinding, now)
    case Redeem(u, amount, now) => L.Redeem(s, u, amount, now)
    case Revive(now) => L.Revive(s, now)
    case SetConfig(cfg) => L.SetConfig(s, cfg)
    case ListAsset(decimals, paused, bribeable) => L.ListAsset(s, decimals, paused, bribeable)
    case TransferGrai(u, to, amount) => L.TransferGrai(s, u, to, amount)
    case BurnGrai(u, amount) => L.BurnGrai(s, u, amount)
    case StrayGrai(u, amount) => L.StrayGrai(s, u, amount)
    case IssueAsset(i, to, amount) => L.IssueAsset(s, i, to, amount)
    case TransferAsset(i, u, to, amount) => L.TransferAsset(s, i, u, to, amount)
    case FillVault(i, u, amount) => L.FillVault(s, i, u, amount)
  }

  function Exec(s: State, op: Instruction): State {
    match Apply(s, op)
    case Ok(next) => next
    case Err(_) => s
  }

  function Run(s: State, ops: seq<Instruction>): State
    decreases |ops|
  {
    if ops == [] then s else Run(Exec(s, ops[0]), ops[1..])
  }

  /** A run through known states ends in the last of them. */
  lemma {:induction false} RunAlong(trace: seq<State>, ops: seq<Instruction>)
    requires |trace| == |ops| + 1
    requires forall k :: 0 <= k < |ops| ==> Exec(trace[k], ops[k]) == trace[k + 1]
    ensures Run(trace[0], ops) == trace[|ops|]
    decreases |ops|
  {
    hide Exec;
    if ops != [] {
      assert forall k :: 0 <= k < |ops[1..]| ==> trace[1..][k] == trace[k + 1] && ops[1..][k] == ops[k + 1];
      RunAlong(trace[1..], ops[1..]);
    }
  }

  lemma {:induction false} RunConcat(s: State, first: seq<Instruction>, rest: seq<Instruction>)
    ensures Run(s, first + rest) == Run(Run(s, first), rest)
    decreases |first|
  {
    hide Exec;
    if first == [] {
      assert first + rest == rest;
    } else {
      assert (first + rest)[1..] == first[1..] + rest;
      RunConcat(Exec(s, first[0]), first[1..], rest);
    }
  }

  /** The state right after `initialize`. */
  function Initial(owner: Account, now: int): State {
    L.State(0, 0, 0, false, 0, now,
            Config(5_000, 5_000, 500, 100, 200, 6_667, 100, 100, 24 * 60 * 60, 7 * 24 * 60 * 60, 500),
            [8_000, 2_000], owner, owner, [], [], map[], 0, 0, map[], [])
  }

  lemma InitialInv(owner: Account, now: int)
    ensures Inv(Initial(owner, now))
  {
    var s := Initial(owner, now);
    assert TotalShares(s.affiliateShareBps) == 8_000 + (2_000 + TotalShares([])) by {
      assert s.affiliateShareBps[1..] == [2_000] && [2_000 as nat][1..] == [];
    }
  }

  /** Token moves outside the program. */
  lemma MovesKeep(s: State, op: Instruction)
    requires Inv(s) && Apply(s, op).Ok?
    requires op.TransferGrai? || op.BurnGrai? || op.StrayGrai? || op.IssueAsset? || op.TransferAsset? || op.FillVault?
    ensures Inv(Exec(s, op))
  {
    hide Sum, EscrowsInv, AssetsInv, AssetInv;
    match op
    case TransferGrai(u, to, amount) =>
      DebitSum(s.wallets, u, amount);
      CreditSum(L.Debit(s.wallets, u, amount).value, to, amount);
    case BurnGrai(u, amount) =>
      DebitSum(s.wallets, u, amount);
    case StrayGrai(u, amount) =>
      DebitSum(s.wallets, u, amount);
    case IssueAsset(i, to, amount) =>
      var a := s.assets[i];
      CreditSum(a.wallets, to, amount);
      MovedAsset(s, i, a.(wallets := L.Credit(a.wallets, to, amount), issued := a.issued + amount));
    case TransferAsset(i, u, to, amount) =>
      var a := s.assets[i];
      DebitSum(a.wallets, u, amount);
      var wallets := L.Debit(a.wallets, u, amount).value;
      CreditSum(wallets, to, amount);
      MovedAsset(s, i, a.(wallets := L.Credit(wallets, to, amount)));
    case FillVault(i, u, amount) =>
      var a := s.assets[i];
      DebitSum(a.wallets, u, amount);
      MovedAsset(s, i, a.(wallets := L.Debit(a.wallets, u, amount).value, vault := a.vault + amount));
  }

  lemma MovedAsset(s: State, i: nat, r: Asset)
    requires AssetsInv(s.assets, s.escrows, s.totalLocked, s.config) && i < |s.assets|
    requires var a := s.assets[i];
             && r == a.(wallets := r.wallets, vault := r.vault, issued := r.issued)
             && a.vault <= r.vault
             && r.vault + Sum(r.wallets, Whole) - r.issued == a.vault + Sum(a.wallets, Whole) - a.issued
    ensures AssetsInv(s.assets[i := r], s.escrows, s.totalLocked, s.config)
  {
    hide Sum;
    WalletsKeep(s.assets[i], r, s.escrows, s.totalLocked, s.config);
    ReplaceAsset(s.assets, i, r, s.escrows, s.totalLocked, s.config);
  }

  /** Every instruction, successful or not, keeps the invariant. */
  lemma ExecKeeps(s: State, op: Instruction)
    requires Inv(s)
    ensures Inv(Exec(s, op))
  {
    hide Inv;
    if Apply(s, op).Ok? {
      match op
      case Deposit(u, i, amount, price, lock, now) => DepositKeeps(s, u, i, amount, price, lock, now);
      case Lock(u, amount) => LockKeeps(s, u, amount);
      case Vote(u, amount) => VoteKeeps(s, u, amount);
      case Unlock(u, amount) => UnlockKeeps(s, u, amount);
      case Bribe(u, voter, amount, i, price) => BribeKeeps(s, u, voter, amount, i, price);
      case Distribute(u, i, amount) => DistributeStepKeeps(s, u, i, amount);
      case Claim(u, payer, i, amount, levels, paid) => ClaimStepKeeps(s, u, payer, i, amount, levels, paid);
      case Liquidate(u, grinding, now) => LiquidateKeeps(s, u, grinding, now);
      case Redeem(u, amount, now) => RedeemKeeps(s, u, amount, now);
      case Revive(now) => ReviveKeeps(s, now);
      case SetConfig(cfg) => SetConfigKeeps(s, cfg);
      case ListAsset(decimals, paused, bribeable) => ListAssetKeeps(s, decimals, paused, bribeable);
      case _ => MovesKeep(s, op);
    }
  }

  /**
   * From `initialize` on, in every run: totals and registries match the escrows, the GRAI vault holds every
   * lock, shares have a book value, and every asset's reserve is backed, bounded and covered by the treasury.
   */
  lemma {:induction false} RunKeeps(s: State, ops: seq<Instruction>)
    requires Inv(s)
    ensures Inv(Run(s, ops))
    decreases |ops|
  {
    hide Inv, Exec;
    if ops != [] {
      ExecKeeps(s, ops[0]);
      RunKeeps(Exec(s, ops[0]), ops[1..]);
    }
  }

  lemma AlwaysInv(owner: Account, now: int, ops: seq<Instruction>)
    ensures Inv(Run(Initial(owner, now), ops))
  {
    InitialInv(owner, now);
    RunKeeps(Initial(owner, now), ops);
  }

  // ----- book value

  /** No deposit is ever refused for an insolvent book. */
  lemma NeverInsolvent(s: State, u: Account, i: nat, amount: nat, price: Price, lock: bool, now: int)
    requires Inv(s)
    ensures L.Deposit(s, u, i, amount, price, lock, now) != Err(InsolventBook)
  {
    hide AssetsInv, EscrowsInv, Floor;
  }

  /** A book with value and without shares refuses every deposit as long as it stays that way. */
  lemma EmptySupplyBlocksDeposits(s: State, u: Account, i: nat, amount: nat, price: Price, lock: bool, now: int)
    requires s.supply == 0
    ensures s.totalValue > 0 ==> L.Deposit(s, u, i, amount, price, lock, now).Err?
    ensures s.totalValue > 0 && !s.liquidation ==> L.PreviewDeposit(s, amount, now) == Err(AmountZero)
  {
    assert s.totalValue > 0 ==> forall value: nat :: Floor(value, 0, s.totalValue) == 0;
    hide UsdValue, L.PerformLock;
  }
}
