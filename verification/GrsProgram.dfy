/** The GRS program on one chain as it runs: configuration, sale rows and token balances updated in place. */
module GrsProgram {
  import opened Prelude
  import opened GrsTypes
  import opened MsgCodec
  import C = GrsChain
  import SalePricing
  import Limits = RateLimiter
  import GrsWorld

  type Done = Result<(), GrsError>

  const OK: Done := Ok(())

  /** `r` and the chain reached are what the step says; a failure is still to be rolled back. */
  predicate Follows(step: C.Step, r: Done, reached: C.Chain) {
    match step
    case Ok(next) => r.Ok? && reached == next
    case Err(e) => r == Err(e)
  }

  /** What a step leaves behind: a failed one leaves what was there. */
  function After(step: C.Step, before: C.Chain): C.Chain {
    match step
    case Ok(next) => next
    case Err(_) => before
  }

  function AfterSending(step: Result<(C.Chain, Bytes), GrsError>, before: C.Chain): (C.Chain, Option<Bytes>) {
    match step
    case Ok((next, message)) => (next, Some(message))
    case Err(_) => (before, None)
  }

  method MeterOut(peer: C.Peer, amount: nat, now: nat) returns (r: Result<C.Peer, GrsError>)
    ensures r == C.MeterOut(peer, amount, now)
  {
    var metered := peer;
    if peer.outbound.Some? {
      var consumed :- Limits.Consumed(peer.outbound.value, amount, now);
      metered := metered.(outbound := Some(consumed));
    }
    if peer.inbound.Some? {
      metered := metered.(inbound := Some(Limits.Refilled(peer.inbound.value, amount, now)));
    }
    return Ok(metered);
  }

  method MeterIn(peer: C.Peer, amount: nat, now: nat) returns (r: Result<C.Peer, GrsError>)
    ensures r == C.MeterIn(peer, amount, now)
  {
    var metered := peer;
    if peer.inbound.Some? {
      var consumed :- Limits.Consumed(peer.inbound.value, amount, now);
      metered := metered.(inbound := Some(consumed));
    }
    if peer.outbound.Some? {
      metered := metered.(outbound := Some(Limits.Refilled(peer.outbound.value, amount, now)));
    }
    return Ok(metered);
  }

  class Program {
    const home: bool
    const admin: Key
    const sinks: set<Key>
    var paused: bool
    var genesisMinted: bool
    var defaultFeeBps: FeeBps
    var peers: map<C.Eid, C.Peer>
    var supply: nat
    var wallets: map<Key, nat>
    var quotes: map<(Key, Key), nat>
    var saleEscrow: nat
    var feeEscrow: nat
    var vestEscrow: nat
    var rows: map<nat, C.Row>
    var saleCount: nat
    var reserved: nat
    var spent: nat
    var vestingCount: nat

    function Snapshot(): C.Chain
      reads this
    {
      C.Chain(home, paused, genesisMinted, admin, sinks, defaultFeeBps, peers, supply, wallets, quotes, saleEscrow,
              feeEscrow, vestEscrow, rows, saleCount, reserved, spent, vestingCount)
    }

    constructor (home: bool, admin: Key, sinks: set<Key>)
      ensures Snapshot()
           == C.Chain(home, false, false, admin, sinks, 0, map[], 0, map[], map[], 0, 0, 0, map[], 0, 0, 0, 0)
    {
      this.home, this.admin, this.sinks := home, admin, sinks;
      paused, genesisMinted, defaultFeeBps, peers := false, false, 0, map[];
      supply, wallets, quotes, saleEscrow, feeEscrow, vestEscrow := 0, map[], map[], 0, 0, 0;
      rows, saleCount, reserved, spent, vestingCount := map[], 0, 0, 0, 0;
    }

    // ----- tokens

    function BalanceOf(u: Key): nat
      reads this
    {
      if u in wallets then wallets[u] else 0
    }

    /** Mint to a wallet, never past the cap. */
    method MintTo(to: Key, amount: nat) returns (r: Done)
      modifies this`supply, this`wallets
      ensures Follows(C.MintedTo(old(Snapshot()), to, amount), r, Snapshot())
      ensures r.Err? ==> Snapshot() == old(Snapshot())
    {
      if supply + amount > MAX_SUPPLY_LD {
        return Err(CapExceeded);
      }
      supply := supply + amount;
      wallets := wallets[to := BalanceOf(to) + amount];
      return OK;
    }

    method MintGenesis(to: Key, mint: C.Mint) returns (r: Done)
      modifies this`supply, this`wallets, this`genesisMinted
      ensures Follows(C.MintGenesis(old(Snapshot()), to, mint), r, Snapshot())
      ensures r.Err? ==> Snapshot() == old(Snapshot())
    {
      if !home || genesisMinted {
        return Err(GenesisDisabled);
      }
      :- Require(supply == 0, NonZeroSupply);
      :- Require(mint.decimals == LOCAL_DECIMALS, InvalidGrsDecimals);
      :- Require(mint.authority == Some(admin), InvalidMintAuthority);
      r := MintTo(to, MAX_SUPPLY_LD);
      genesisMinted := r.Ok?;
    }

    // ----- the sale book

    /** Create the next lot, or close one that exists. */
    method SetSale(id: U64, row: C.Row) returns (r: Done)
      modifies this`wallets, this`saleEscrow, this`reserved, this`rows, this`saleCount
      ensures Follows(C.SetSale(old(Snapshot()), id, row), r, Snapshot())
    {
      hide C.AppendSale, C.CloseSale;
      :- Require(home, NotHome);
      var next := saleCount + 1;
      :- Require(next <= U64_MAX, InvalidSaleId);
      if id == 0 || id == next {
        r := Append(next, row);
      } else if id <= saleCount {
        r := Close(id);
      } else {
        return Err(InvalidSaleId);
      }
    }

    /** Set `amount` aside for a lot, moving in from the admin's wallet what the free escrow is short of. */
    method Earmark(amount: nat) returns (r: Done)
      modifies this`wallets, this`saleEscrow, this`reserved
      ensures Follows(C.Earmark(old(Snapshot()), amount), r, Snapshot())
    {
      if amount > 0 {
        var free := SaturatingSub(saleEscrow, reserved);
        if free < amount {
          var need := amount - free;
          :- Require(BalanceOf(admin) >= need, InsufficientFunds);
          wallets := wallets[admin := BalanceOf(admin) - need];
          saleEscrow := saleEscrow + need;
        }
        :- Require(reserved + amount <= U64_MAX, InsufficientInventory);
        reserved := reserved + amount;
      }
      return OK;
    }

    method Append(id: U64, row: C.Row) returns (r: Done)
      modifies this`wallets, this`saleEscrow, this`reserved, this`rows, this`saleCount
      ensures Follows(C.AppendSale(old(Snapshot()), id, row), r, Snapshot())
    {
      hide C.Earmark;
      :- Require(row.recipient !in sinks, InvalidRecipient);
      :- Require(!(row.grsAmount > 0 && row.assetAmount == 0), InvalidAssetAmount);
      :- Require(id !in rows, InvalidSaleId);
      var _ :- Earmark(row.grsAmount);
      rows, saleCount := rows[id := row], id;
      return OK;
    }

    method Close(id: nat) returns (r: Done)
      modifies this`reserved, this`rows
      ensures Follows(C.CloseSale(old(Snapshot()), id), r, Snapshot())
    {
      if id !in rows {
        return Err(UnknownSale);
      }
      var row := rows[id];
      if row.grsAmount > 0 {
        if reserved < row.grsAmount {
          return Err(InsufficientInventory);
        }
        reserved := reserved - row.grsAmount;
      }
      rows := rows[id := row.(assetAmount := 0, grsAmount := 0)];
      return OK;
    }

    /** Burn an open lot, or leave a closed one, and write the message that tells the spoke. */
    method PublishSale(dst: C.Eid, id: U64) returns (r: Result<Bytes, GrsError>)
      modifies this`supply, this`saleEscrow, this`rows, this`reserved, this`spent
      ensures match C.PublishSale(old(Snapshot()), dst, id)
              case Ok((next, message)) => r == Ok(message) && Snapshot() == next
              case Err(e) => r == Err(e)
    {
      hide C.BurnLot, SaleBytes;
      :- Require(home, NotHome);
      :- Require(!paused, Paused);
      :- Require(id in rows, UnknownSale);
      :- Require(dst in peers, UnknownPeer);
      var row := rows[id];
      var isClose := row.grsAmount == 0 && row.assetAmount == 0;
      if !isClose {
        var _ :- BurnLot(row);
      }
      var message := EncodeSale(id, row.asset, row.assetAmount, row.grsAmount, row.recipient);
      rows := rows[id := row.(assetAmount := 0, grsAmount := 0)];
      return Ok(message);
    }

    method BurnLot(row: C.Row) returns (r: Done)
      modifies this`supply, this`saleEscrow, this`reserved, this`spent
      ensures Follows(C.BurnLot(old(Snapshot()), row), r, Snapshot())
    {
      if row.grsAmount == 0 || row.assetAmount == 0 {
        return Err(SaleClosed);
      }
      :- Require(row.grsAmount % LD2SD_RATE == 0, InvalidSaleMessage);
      var _ :- Withdraw(row.grsAmount);
      :- Require(supply >= row.grsAmount, InsufficientFunds);
      supply := supply - row.grsAmount;
      return OK;
    }

    method Withdraw(amount: nat) returns (r: Done)
      modifies this`saleEscrow, this`reserved, this`spent
      ensures Follows(C.Withdraw(old(Snapshot()), amount), r, Snapshot())
    {
      if spent + amount > U64_MAX {
        return Err(BucketExceeded);
      }
      :- Require(reserved >= amount, InsufficientInventory);
      :- Require(saleEscrow >= amount, InsufficientFunds);
      spent, reserved, saleEscrow := spent + amount, reserved - amount, saleEscrow - amount;
      return OK;
    }

    /** Release the reserve and hand over the GRS. */
    method Fill(id: nat, to: Key, amount: U64) returns (r: Result<nat, GrsError>)
      requires id in rows
      modifies this`wallets, this`saleEscrow, this`rows, this`reserved, this`spent
      ensures match C.Fill(old(Snapshot()), id, to, amount)
              case Ok((next, cost)) => r == Ok(cost) && Snapshot() == next
              case Err(e) => r == Err(e)
    {
      hide C.Withdraw;
      var row := rows[id];
      var cost :- SalePricing.QuoteCost(amount, row.grsAmount, row.assetAmount);
      SalePricing.QuoteIsFloor(amount, row.grsAmount, row.assetAmount);
      hide SalePricing.QuoteCost;
      var _ :- Withdraw(amount);
      rows := rows[id := row.(assetAmount := row.assetAmount - cost, grsAmount := row.grsAmount - amount)];
      wallets := wallets[to := BalanceOf(to) + amount];
      return Ok(cost);
    }

    method Pay(asset: Key, from: Key, to: Key, amount: nat) returns (r: Done)
      modifies this`quotes
      ensures Follows(C.Pay(old(Snapshot()), asset, from, to, amount), r, Snapshot())
    {
      var held := if (asset, from) in quotes then quotes[(asset, from)] else 0;
      :- Require(held >= amount, if asset == DEFAULT_KEY then PaymentFailed else InsufficientFunds);
      var debited := quotes[(asset, from) := held - amount];
      quotes := debited[(asset, to) := (if (asset, to) in debited then debited[(asset, to)] else 0) + amount];
      return OK;
    }

    /** A fill: the GRS first, then the payment to the row's payee; returns the price. */
    method Buy(id: nat, buyer: Key, to: Key, amount: U64) returns (r: Result<nat, GrsError>)
      modifies this`wallets, this`quotes, this`saleEscrow, this`rows, this`reserved, this`spent
      ensures match C.Buy(old(Snapshot()), id, buyer, to, amount)
              case Ok((next, cost)) => r == Ok(cost) && Snapshot() == next
              case Err(e) => r == Err(e)
    {
      hide C.Fill, C.Pay;
      :- Require(to != DEFAULT_KEY, InvalidRecipient);
      :- Require(id in rows, UnknownSale);
      var row := rows[id];
      var payee := if row.recipient == DEFAULT_KEY then admin else row.recipient;
      var cost :- Fill(id, to, amount);
      var _ :- Pay(row.asset, buyer, payee, cost);
      return Ok(cost);
    }

    // ----- transfers

    /** Take the fee and the dust off, burn the rest, and write the message for the peer. */
    method Send(dst: C.Eid, from: Key, to: Key, amount: U64, min: nat, compose: Option<Bytes>, now: nat)
      returns (r: Result<Bytes, GrsError>)
      modifies this`supply, this`wallets, this`feeEscrow, this`peers
      ensures match C.Send(old(Snapshot()), dst, from, to, amount, min, compose, now)
              case Ok((next, message)) => r == Ok(message) && Snapshot() == next
              case Err(e) => r == Err(e)
    {
      hide C.MeterOut, C.BurnAndCharge, TransferBytes;
      :- Require(!paused, Paused);
      :- Require(dst in peers, UnknownPeer);
      var peer := peers[dst];
      var (_, received, fee) := C.FeeAndDust(amount, defaultFeeBps, peer.feeBps);
      :- Require(received >= min, SlippageExceeded);
      peer :- MeterOut(peer, received, now);
      var _ :- BurnAndCharge(from, received, fee);
      :- Require(compose.None?, ComposeDisabled);
      :- Require(to != SALE_TYPE && to != GRANT_TYPE, InvalidRecipient);
      peers := peers[dst := peer];
      var message := Encode(to, received / LD2SD_RATE, from, compose);
      return Ok(message);
    }

    method BurnAndCharge(from: Key, received: nat, fee: nat) returns (r: Done)
      modifies this`supply, this`wallets, this`feeEscrow
      ensures Follows(C.BurnAndCharge(old(Snapshot()), from, received, fee), r, Snapshot())
    {
      var held := BalanceOf(from);
      :- Require(held >= received + fee && supply >= received, InsufficientFunds);
      wallets := wallets[from := held - (received + fee)];
      supply, feeEscrow := supply - received, feeEscrow + fee;
      return OK;
    }

    // ----- receiving

    method LzReceive(src: C.Eid, message: Bytes, to: Key, now: U64) returns (r: Done)
      modifies this`supply, this`wallets, this`saleEscrow, this`vestEscrow, this`rows, this`saleCount, this`reserved,
               this`vestingCount, this`peers
      ensures Follows(C.Receive(old(Snapshot()), src, message, to, now), r, Snapshot())
    {
      hide C.ReceiveSale, C.ReceiveGrant, C.ReceiveTransfer, DecodeSale, DecodeGrant;
      :- Require(!paused, Paused);
      :- Require(src in peers, UnknownPeer);
      if IsSale(message) {
        if home {
          return Err(NotSpoke);
        }
        var sale :- DecodeSale(message);
        r := AcceptSale(sale);
      } else if IsGrant(message) {
        if home {
          return Err(NotSpoke);
        }
        var grant :- DecodeGrant(message);
        r := AcceptGrant(grant, now);
      } else {
        if |message| < OFT_MSG_LEN {
          return Err(ArithmeticPanic);
        }
        :- Require(to == SendTo(message), InvalidTokenDest);
        var amount := AmountSD(message) * LD2SD_RATE;
        :- Require(amount <= U64_MAX, ArithmeticPanic);
        r := AcceptTransfer(src, amount, to, now);
      }
    }

    /** Write the row and bring the escrow to its new amount; an opening after a close is dropped. */
    method AcceptSale(sale: SaleMsg) returns (r: Done)
      modifies this`supply, this`saleEscrow, this`rows, this`saleCount, this`reserved
      ensures Follows(C.ReceiveSale(old(Snapshot()), sale), r, Snapshot())
    {
      hide C.MintToEscrow, C.BurnFromEscrow;
      :- Require(sale.recipient !in sinks, InvalidRecipient);
      :- Require(sale.id > 0, UnknownSale);
      var known := sale.id in rows;
      var previous := if known then rows[sale.id].grsAmount else 0;
      if known && previous == 0 && sale.grsAmount != 0 {
        return OK;
      }
      ghost var written := C.Written(Snapshot(), sale);
      rows := rows[sale.id := C.Row(sale.asset, sale.assetAmount, sale.grsAmount, sale.recipient)];
      if sale.id > saleCount {
        saleCount := sale.id;
      }
      assert Snapshot() == written;
      if sale.grsAmount >= previous {
        r := CreditSaleEscrow(sale.grsAmount - previous);
      } else {
        r := DebitSaleEscrow(previous - sale.grsAmount);
      }
    }

    method CreditSaleEscrow(amount: nat) returns (r: Done)
      modifies this`supply, this`saleEscrow, this`reserved
      ensures Follows(C.MintToEscrow(old(Snapshot()), amount), r, Snapshot())
    {
      if amount > 0 {
        if supply + amount > MAX_SUPPLY_LD {
          return Err(CapExceeded);
        }
        :- Require(reserved + amount <= U64_MAX, InsufficientInventory);
        supply, saleEscrow, reserved := supply + amount, saleEscrow + amount, reserved + amount;
      }
      return OK;
    }

    method DebitSaleEscrow(amount: nat) returns (r: Done)
      modifies this`supply, this`saleEscrow, this`reserved
      ensures Follows(C.BurnFromEscrow(old(Snapshot()), amount), r, Snapshot())
    {
      if reserved < amount {
        return Err(InsufficientInventory);
      }
      :- Require(saleEscrow >= amount && supply >= amount, InsufficientFunds);
      reserved, saleEscrow, supply := reserved - amount, saleEscrow - amount, supply - amount;
      return OK;
    }

    method AcceptGrant(grant: GrantMsg, now: U64) returns (r: Done)
      modifies this`supply, this`vestEscrow, this`vestingCount
      ensures Follows(C.ReceiveGrant(old(Snapshot()), grant, now), r, Snapshot())
    {
      if grant.to == DEFAULT_KEY || grant.to in sinks {
        return Err(InvalidRecipient);
      }
      :- Require(!(grant.cliff == 0 && grant.duration == 0), InvalidSchedule);
      :- Require(grant.cliff <= C.MAX_CLIFF_SECONDS, InvalidSchedule);
      :- Require(grant.duration <= C.MAX_DURATION_SECONDS, InvalidSchedule);
      :- Require(vestingCount + 1 <= U64_MAX, InvalidVestingId);
      var start := if grant.start == 0 then now else grant.start;
      :- Require(start + grant.cliff + grant.duration <= U64_MAX, InvalidSchedule);
      :- Require(supply + grant.amount <= MAX_SUPPLY_LD, CapExceeded);
      vestingCount := vestingCount + 1;
      supply, vestEscrow := supply + grant.amount, vestEscrow + grant.amount;
      return OK;
    }

    method AcceptTransfer(src: C.Eid, amount: nat, to: Key, now: nat) returns (r: Done)
      requires src in peers
      modifies this`supply, this`wallets, this`peers
      ensures Follows(C.ReceiveTransfer(old(Snapshot()), src, amount, to, now), r, Snapshot())
    {
      hide C.MeterIn;
      var peer :- MeterIn(peers[src], amount, now);
      var _ :- MintTo(to, amount);
      peers := peers[src := peer];
      return OK;
    }

    // ----- token moves outside the program

    method Burn(u: Key, amount: nat) returns (r: Done)
      modifies this`supply, this`wallets
      ensures Follows(C.Burn(old(Snapshot()), u, amount), r, Snapshot())
      ensures r.Err? ==> Snapshot() == old(Snapshot())
    {
      if BalanceOf(u) < amount || supply < amount {
        return Err(InsufficientFunds);
      }
      wallets, supply := wallets[u := BalanceOf(u) - amount], supply - amount;
      return OK;
    }

    method Transfer(from: Key, to: Key, amount: nat) returns (r: Done)
      modifies this`wallets
      ensures Follows(C.Transfer(old(Snapshot()), from, to, amount), r, Snapshot())
      ensures r.Err? ==> Snapshot() == old(Snapshot())
    {
      if BalanceOf(from) < amount {
        return Err(InsufficientFunds);
      }
      var debited := wallets[from := BalanceOf(from) - amount];
      wallets := debited[to := (if to in debited then debited[to] else 0) + amount];
      return OK;
    }

    method Stock(from: Key, amount: nat) returns (r: Done)
      modifies this`wallets, this`saleEscrow
      ensures Follows(C.Stock(old(Snapshot()), from, amount), r, Snapshot())
      ensures r.Err? ==> Snapshot() == old(Snapshot())
    {
      if BalanceOf(from) < amount {
        return Err(InsufficientFunds);
      }
      wallets, saleEscrow := wallets[from := BalanceOf(from) - amount], saleEscrow + amount;
      return OK;
    }

    method FundQuote(asset: Key, owner: Key, amount: nat)
      modifies this`quotes
      ensures C.FundQuote(old(Snapshot()), asset, owner, amount) == Ok(Snapshot())
    {
      var held := if (asset, owner) in quotes then quotes[(asset, owner)] else 0;
      quotes := quotes[(asset, owner) := held + amount];
    }

    // ----- instructions with the runtime's rollback

    /** Create or close a lot, or change nothing. */
    method ExecuteSet(id: U64, row: C.Row)
      modifies this`wallets, this`saleEscrow, this`reserved, this`rows, this`saleCount
      ensures Snapshot() == After(C.SetSale(old(Snapshot()), id, row), old(Snapshot()))
    {
      hide C.SetSale;
      var wallets0, escrow0, reserved0, rows0, count0 := wallets, saleEscrow, reserved, rows, saleCount;
      var r := SetSale(id, row);
      if r.Err? {
        wallets, saleEscrow, reserved, rows, saleCount := wallets0, escrow0, reserved0, rows0, count0;
      }
    }

    /** Fill and pay, or change nothing. */
    method ExecuteBuy(id: nat, buyer: Key, to: Key, amount: U64)
      modifies this`wallets, this`quotes, this`saleEscrow, this`rows, this`reserved, this`spent
      ensures match C.Buy(old(Snapshot()), id, buyer, to, amount)
              case Ok((next, _)) => Snapshot() == next
              case Err(_) => Snapshot() == old(Snapshot())
    {
      hide C.Buy;
      var wallets0, quotes0, escrow0 := wallets, quotes, saleEscrow;
      var rows0, reserved0, spent0 := rows, reserved, spent;
      var r := Buy(id, buyer, to, amount);
      if r.Err? {
        wallets, quotes, saleEscrow := wallets0, quotes0, escrow0;
        rows, reserved, spent := rows0, reserved0, spent0;
      }
    }

    /** One instruction on this chain; a failed one leaves everything as it was. */
    method Execute(op: GrsWorld.ChainOp)
      modifies this
      ensures Snapshot() == After(GrsWorld.ApplyOn(old(Snapshot()), op), old(Snapshot()))
    {
      hide C.MintGenesis, C.SetSale, C.Buy, C.Burn, C.Transfer, C.Stock;
      match op {
        case Genesis(to, mint) =>
          var _ := MintGenesis(to, mint);
        case Set(id, row) =>
          ExecuteSet(id, row);
        case BuyLot(id, buyer, to, amount) =>
          ExecuteBuy(id, buyer, to, amount);
        case Fund(asset, owner, amount) =>
          FundQuote(asset, owner, amount);
        case BurnTokens(u, amount) =>
          var _ := Burn(u, amount);
        case Move(from, to, amount) =>
          var _ := Transfer(from, to, amount);
        case StockEscrow(from, amount) =>
          var _ := Stock(from, amount);
        case Configure(p, fee, peerConfigs) =>
          paused, defaultFeeBps, peers := p, fee, peerConfigs;
      }
    }

    /** Publish, or change nothing and send nothing. */
    method ExecutePublish(dst: C.Eid, id: U64) returns (sent: Option<Bytes>)
      modifies this`supply, this`saleEscrow, this`rows, this`reserved, this`spent
      ensures (Snapshot(), sent) == AfterSending(C.PublishSale(old(Snapshot()), dst, id), old(Snapshot()))
    {
      hide C.PublishSale;
      var supply0, escrow0, rows0, reserved0, spent0 := supply, saleEscrow, rows, reserved, spent;
      var r := PublishSale(dst, id);
      if r.Ok? {
        return Some(r.value);
      }
      supply, saleEscrow, rows, reserved, spent := supply0, escrow0, rows0, reserved0, spent0;
      return None;
    }

    /** Send, or change nothing and send nothing. */
    method ExecuteSend(dst: C.Eid, from: Key, to: Key, amount: U64, min: nat, compose: Option<Bytes>, now: nat)
      returns (sent: Option<Bytes>)
      modifies this`supply, this`wallets, this`feeEscrow, this`peers
      ensures (Snapshot(), sent)
           == AfterSending(C.Send(old(Snapshot()), dst, from, to, amount, min, compose, now), old(Snapshot()))
    {
      hide C.Send;
      var supply0, wallets0, fees0, peers0 := supply, wallets, feeEscrow, peers;
      var r := Send(dst, from, to, amount, min, compose, now);
      if r.Ok? {
        return Some(r.value);
      }
      supply, wallets, feeEscrow, peers := supply0, wallets0, fees0, peers0;
      return None;
    }

    /** Accept a message, or change nothing and leave it under way. */
    method ExecuteReceive(src: C.Eid, message: Bytes, to: Key, now: U64) returns (accepted: bool)
      modifies this`supply, this`wallets, this`saleEscrow, this`vestEscrow, this`rows, this`saleCount, this`reserved,
               this`vestingCount, this`peers
      ensures accepted == C.Receive(old(Snapshot()), src, message, to, now).Ok?
      ensures Snapshot() == After(C.Receive(old(Snapshot()), src, message, to, now), old(Snapshot()))
    {
      hide C.Receive;
      var supply0, wallets0, escrow0, vest0, rows0 := supply, wallets, saleEscrow, vestEscrow, rows;
      var sales0, reserved0, vestings0, peers0 := saleCount, reserved, vestingCount, peers;
      var r := LzReceive(src, message, to, now);
      if r.Ok? {
        return true;
      }
      supply, wallets, saleEscrow, vestEscrow, rows := supply0, wallets0, escrow0, vest0, rows0;
      saleCount, reserved, vestingCount, peers := sales0, reserved0, vestings0, peers0;
      return false;
    }
  }
}
