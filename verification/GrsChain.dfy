/** One chain's GRS program: its token, its sale book and what each instruction does to them. */
module GrsChain {
  import opened Prelude
  import opened GrsTypes
  import opened MsgCodec
  import SalePricing
  import Limits = RateLimiter

  /** A chain's endpoint id. */
  type Eid = nat

  datatype Row = Row(asset: Key, assetAmount: U64, grsAmount: U64, recipient: Key)

  datatype Peer = Peer(feeBps: Option<FeeBps>, outbound: Option<Limits.Limiter>, inbound: Option<Limits.Limiter>)

  /**
   * `sinks` are the keys no sale may pay: the program, the store and the sale escrow. The GRS itself is in
   * `wallets` and in three accounts the program holds. `quotes` are the balances in which lots are priced, by asset
   * and owner.
   */
  datatype Chain = Chain(
    home: bool,
    paused: bool,
    genesisMinted: bool,
    admin: Key,
    sinks: set<Key>,
    defaultFeeBps: FeeBps,
    peers: map<Eid, Peer>,
    supply: nat,
    wallets: map<Key, nat>,
    quotes: map<(Key, Key), nat>,
    saleEscrow: nat,
    feeEscrow: nat,
    vestEscrow: nat,
    rows: map<nat, Row>,
    saleCount: nat,
    reserved: nat,
    spent: nat,
    vestingCount: nat)

  type Step = Result<Chain, GrsError>

  const MAX_CLIFF_SECONDS: nat := 365 * 24 * 60 * 60
  const MAX_DURATION_SECONDS: nat := 4 * 365 * 24 * 60 * 60

  // ----- token accounts

  function Balance(c: Chain, u: Key): nat {
    if u in c.wallets then c.wallets[u] else 0
  }

  function Credit(c: Chain, u: Key, amount: nat): Chain {
    c.(wallets := c.wallets[u := Balance(c, u) + amount])
  }

  /** The token program refuses to overdraw. */
  function Debit(c: Chain, u: Key, amount: nat): Step {
    if Balance(c, u) < amount then Err(InsufficientFunds)
    else Ok(c.(wallets := c.wallets[u := Balance(c, u) - amount]))
  }

  function TakeEscrow(c: Chain, amount: nat): Step {
    if c.saleEscrow < amount then Err(InsufficientFunds) else Ok(c.(saleEscrow := c.saleEscrow - amount))
  }

  /** Burn what was just taken out of an account. */
  function Burnt(c: Chain, amount: nat): Step {
    if c.supply < amount then Err(InsufficientFunds) else Ok(c.(supply := c.supply - amount))
  }

  /** Mint, never past the cap. */
  function Minted(c: Chain, amount: nat): Step {
    if c.supply + amount > MAX_SUPPLY_LD then Err(CapExceeded) else Ok(c.(supply := c.supply + amount))
  }

  function MintedTo(c: Chain, to: Key, amount: nat): Step {
    var minted :- Minted(c, amount);
    Ok(Credit(minted, to, amount))
  }

  function Reserve(c: Chain, amount: nat): Step {
    if c.reserved + amount > U64_MAX then Err(InsufficientInventory) else Ok(c.(reserved := c.reserved + amount))
  }

  function Release(c: Chain, amount: nat): Step {
    if c.reserved < amount then Err(InsufficientInventory) else Ok(c.(reserved := c.reserved - amount))
  }

  function Spend(c: Chain, amount: nat): Step {
    if c.spent + amount > U64_MAX then Err(BucketExceeded) else Ok(c.(spent := c.spent + amount))
  }

  // ----- genesis

  /** How the GRS mint is set up when genesis is called. */
  datatype Mint = Mint(decimals: nat, authority: Option<Key>)

  function MintGenesis(c: Chain, to: Key, mint: Mint): Step {
    if !c.home || c.genesisMinted then Err(GenesisDisabled)
    else if c.supply != 0 then Err(NonZeroSupply)
    else if mint.decimals != LOCAL_DECIMALS then Err(InvalidGrsDecimals)
    else if mint.authority != Some(c.admin) then Err(InvalidMintAuthority)
    else
      var minted :- MintedTo(c, to, MAX_SUPPLY_LD);
      Ok(minted.(genesisMinted := true))
  }

  // ----- the home sale book

  function SetSale(c: Chain, id: U64, row: Row): Step {
    if !c.home then Err(NotHome)
    else if c.saleCount + 1 > U64_MAX then Err(InvalidSaleId)
    else if id == 0 || id == c.saleCount + 1 then AppendSale(c, c.saleCount + 1, row)
    else if id <= c.saleCount then CloseSale(c, id)
    else Err(InvalidSaleId)
  }

  /** Escrow that no open lot has a claim on. */
  function FreeInventory(c: Chain): nat {
    SaturatingSub(c.saleEscrow, c.reserved)
  }

  /** Earmark `amount`, topping the escrow up from the admin's wallet if the free inventory is short. */
  function Earmark(c: Chain, amount: nat): Step {
    if amount == 0 then Ok(c)
    else
      var need := SaturatingSub(amount, FreeInventory(c));
      var debited :- if need > 0 then Debit(c, c.admin, need) else Ok(c);
      Reserve(debited.(saleEscrow := c.saleEscrow + need), amount)
  }

  function AppendSale(c: Chain, id: U64, row: Row): Step {
    if row.recipient in c.sinks then Err(InvalidRecipient)
    else if row.grsAmount > 0 && row.assetAmount == 0 then Err(InvalidAssetAmount)
    else if id in c.rows then Err(InvalidSaleId)
    else
      var earmarked :- Earmark(c, row.grsAmount);
      Ok(earmarked.(rows := c.rows[id := row], saleCount := id))
  }

  function CloseSale(c: Chain, id: nat): Step {
    if id !in c.rows then Err(UnknownSale)
    else
      var released :- Release(c, c.rows[id].grsAmount);
      Ok(released.(rows := c.rows[id := c.rows[id].(assetAmount := 0, grsAmount := 0)]))
  }

  function Message(id: U64, row: Row): Bytes {
    SaleBytes(SaleMsg(id, row.asset, row.assetAmount, row.grsAmount, row.recipient))
  }

  /** Burn an open lot and send it to a spoke, or send a closed row again; the row is closed either way. */
  function PublishSale(c: Chain, dst: Eid, id: U64): Result<(Chain, Bytes), GrsError> {
    if !c.home then Err(NotHome)
    else if c.paused then Err(Paused)
    else if id !in c.rows then Err(UnknownSale)
    else if dst !in c.peers then Err(UnknownPeer)
    else
      var row := c.rows[id];
      var burnt :- if row.grsAmount == 0 && row.assetAmount == 0 then Ok(c) else BurnLot(c, row);
      Ok((burnt.(rows := c.rows[id := row.(assetAmount := 0, grsAmount := 0)]), Message(id, row)))
  }

  function BurnLot(c: Chain, row: Row): Step {
    if row.grsAmount == 0 || row.assetAmount == 0 then Err(SaleClosed)
    else if row.grsAmount % LD2SD_RATE != 0 then Err(InvalidSaleMessage)
    else
      var taken :- Withdraw(c, row.grsAmount);
      Burnt(taken, row.grsAmount)
  }

  /** GRS leaves the sale book: counted as spent, released and out of the escrow. */
  function Withdraw(c: Chain, amount: nat): Step {
    var spent :- Spend(c, amount);
    var released :- Release(spent, amount);
    TakeEscrow(released, amount)
  }

  function QuoteBalance(c: Chain, asset: Key, owner: Key): nat {
    if (asset, owner) in c.quotes then c.quotes[(asset, owner)] else 0
  }

  /** Pay in the quote asset; the native coin fails with an error of its own. */
  function Pay(c: Chain, asset: Key, from: Key, to: Key, amount: nat): Step {
    if QuoteBalance(c, asset, from) < amount then
      Err(if asset == DEFAULT_KEY then PaymentFailed else InsufficientFunds)
    else
      var debited := c.(quotes := c.quotes[(asset, from) := QuoteBalance(c, asset, from) - amount]);
      Ok(debited.(quotes := debited.quotes[(asset, to) := QuoteBalance(debited, asset, to) + amount]))
  }

  /** The lot hands out the GRS and becomes cheaper by the price. */
  function Fill(c: Chain, id: nat, to: Key, amount: U64): Result<(Chain, nat), GrsError>
    requires id in c.rows
  {
    var row := c.rows[id];
    var cost :- SalePricing.QuoteCost(amount, row.grsAmount, row.assetAmount);
    var taken :- Withdraw(c, amount);
    SalePricing.QuoteIsFloor(amount, row.grsAmount, row.assetAmount);
    var left := row.(assetAmount := row.assetAmount - cost, grsAmount := row.grsAmount - amount);
    Ok((Credit(taken, to, amount).(rows := c.rows[id := left]), cost))
  }

  /** Who is paid for a fill of the row. */
  function Payee(c: Chain, row: Row): Key {
    if row.recipient == DEFAULT_KEY then c.admin else row.recipient
  }

  /** A fill and its payment; returns the price as well. */
  function Buy(c: Chain, id: nat, buyer: Key, to: Key, amount: U64): Result<(Chain, nat), GrsError> {
    if to == DEFAULT_KEY then Err(InvalidRecipient)
    else if id !in c.rows then Err(UnknownSale)
    else
      var (filled, cost) :- Fill(c, id, to, amount);
      var paid :- Pay(filled, c.rows[id].asset, buyer, Payee(c, c.rows[id]), cost);
      Ok((paid, cost))
  }

  // ----- token transfers

  function RemoveDust(amount: nat): nat {
    amount - amount % LD2SD_RATE
  }

  function FeeOn(amount: nat, defaultFeeBps: FeeBps, feeBps: Option<FeeBps>): nat {
    amount * (if feeBps.Some? then feeBps.value else defaultFeeBps) / BASIS_POINTS
  }

  /** `(sent, received, fee)` of a transfer of `amount`. */
  function FeeAndDust(amount: U64, defaultFeeBps: FeeBps, feeBps: Option<FeeBps>): (r: (nat, nat, nat))
    ensures r.0 == r.1 + r.2 && r.0 <= amount
    ensures r.0 % LD2SD_RATE == 0 && r.1 % LD2SD_RATE == 0 && r.2 % LD2SD_RATE == 0
  {
    var sent := RemoveDust(amount);
    FeeIsPart(sent, if feeBps.Some? then feeBps.value else defaultFeeBps);
    var fee := RemoveDust(FeeOn(sent, defaultFeeBps, feeBps));
    DustFree(sent, fee);
    (sent, sent - fee, fee)
  }

  lemma FeeIsPart(amount: nat, bps: FeeBps)
    ensures amount * bps / BASIS_POINTS <= amount
  {
    var n := amount * bps;
    assert n <= amount * BASIS_POINTS;
    assert n == n / BASIS_POINTS * BASIS_POINTS + n % BASIS_POINTS;
  }

  lemma DustFree(a: nat, b: nat)
    requires a % LD2SD_RATE == 0 && b % LD2SD_RATE == 0 && b <= a
    ensures (a - b) % LD2SD_RATE == 0
  {
  }

  /** A limiter that is not configured lets everything pass. */
  function PassLimit(l: Option<Limits.Limiter>, amount: nat, now: nat): Result<Option<Limits.Limiter>, GrsError> {
    if l.None? then Ok(None)
    else
      var consumed :- Limits.Consumed(l.value, amount, now);
      Ok(Some(consumed))
  }

  function RefundLimit(l: Option<Limits.Limiter>, amount: nat, now: nat): Option<Limits.Limiter> {
    if l.None? then None else Some(Limits.Refilled(l.value, amount, now))
  }

  /** What goes out uses up the outbound bucket and makes room in the inbound one. */
  function MeterOut(peer: Peer, amount: nat, now: nat): Result<Peer, GrsError> {
    var outbound :- PassLimit(peer.outbound, amount, now);
    Ok(peer.(outbound := outbound, inbound := RefundLimit(peer.inbound, amount, now)))
  }

  function MeterIn(peer: Peer, amount: nat, now: nat): Result<Peer, GrsError> {
    var inbound :- PassLimit(peer.inbound, amount, now);
    Ok(peer.(inbound := inbound, outbound := RefundLimit(peer.outbound, amount, now)))
  }

  /** The sender's tokens: `received` is burned and `fee` goes to the program. */
  function BurnAndCharge(c: Chain, from: Key, received: nat, fee: nat): Step {
    var debited :- Debit(c, from, received + fee);
    var burnt :- Burnt(debited, received);
    Ok(burnt.(feeEscrow := c.feeEscrow + fee))
  }

  /** Burn a transfer here and describe it to the peer. */
  function Send(c: Chain, dst: Eid, from: Key, to: Key, amount: U64, min: nat, compose: Option<Bytes>, now: nat):
      Result<(Chain, Bytes), GrsError>
  {
    if c.paused then Err(Paused)
    else if dst !in c.peers then Err(UnknownPeer)
    else
      var peer := c.peers[dst];
      var (sent, received, fee) := FeeAndDust(amount, c.defaultFeeBps, peer.feeBps);
      if received < min then Err(SlippageExceeded)
      else
        var metered :- MeterOut(peer, received, now);
        var burnt :- BurnAndCharge(c, from, received, fee);
        if compose.Some? then Err(ComposeDisabled)
        else if to == SALE_TYPE || to == GRANT_TYPE then Err(InvalidRecipient)
        else Ok((burnt.(peers := c.peers[dst := metered]),
                 TransferBytes(to, received / LD2SD_RATE, from, None)))
  }

  // ----- receiving

  /** A message from the peer on chain `src`; `to` is the account the executor supplies for a transfer. */
  function Receive(c: Chain, src: Eid, message: Bytes, to: Key, now: U64): Step {
    if c.paused then Err(Paused)
    else if src !in c.peers then Err(UnknownPeer)
    else if IsSale(message) then
      if c.home then Err(NotSpoke)
      else
        var sale :- DecodeSale(message);
        ReceiveSale(c, sale)
    else if IsGrant(message) then
      if c.home then Err(NotSpoke)
      else
        var grant :- DecodeGrant(message);
        ReceiveGrant(c, grant, now)
    else if |message| < OFT_MSG_LEN then Err(ArithmeticPanic)
    else if to != SendTo(message) then Err(InvalidTokenDest)
    else if AmountSD(message) * LD2SD_RATE > U64_MAX then Err(ArithmeticPanic)
    else ReceiveTransfer(c, src, AmountSD(message) * LD2SD_RATE, to, now)
  }

  /**
   * Write the row. A lot that this spoke has already seen closed is dropped; a new one is minted into the escrow;
   * a known one is adjusted to the new amount.
   */
  function ReceiveSale(c: Chain, sale: SaleMsg): Step {
    if sale.recipient in c.sinks then Err(InvalidRecipient)
    else if sale.id == 0 then Err(UnknownSale)
    else
      var known := sale.id in c.rows;
      var previous := if known then c.rows[sale.id].grsAmount else 0;
      if known && previous == 0 && sale.grsAmount != 0 then Ok(c)
      else
        if sale.grsAmount >= previous then MintToEscrow(Written(c, sale), sale.grsAmount - previous)
        else BurnFromEscrow(Written(c, sale), previous - sale.grsAmount)
  }

  /** Create or overwrite the row; the count follows the highest id seen. */
  function Written(c: Chain, sale: SaleMsg): Chain {
    var row := Row(sale.asset, sale.assetAmount, sale.grsAmount, sale.recipient);
    c.(rows := c.rows[sale.id := row], saleCount := if sale.id > c.saleCount then sale.id else c.saleCount)
  }

  function MintToEscrow(c: Chain, amount: nat): Step {
    if amount == 0 then Ok(c)
    else
      var minted :- Minted(c, amount);
      Reserve(minted.(saleEscrow := minted.saleEscrow + amount), amount)
  }

  function BurnFromEscrow(c: Chain, amount: nat): Step {
    var released :- Release(c, amount);
    var taken :- TakeEscrow(released, amount);
    Burnt(taken, amount)
  }

  function ReceiveGrant(c: Chain, grant: GrantMsg, now: U64): Step {
    var start := if grant.start == 0 then now else grant.start;
    if grant.to == DEFAULT_KEY || grant.to in c.sinks then Err(InvalidRecipient)
    else if grant.cliff == 0 && grant.duration == 0 then Err(InvalidSchedule)
    else if grant.cliff > MAX_CLIFF_SECONDS || grant.duration > MAX_DURATION_SECONDS then Err(InvalidSchedule)
    else if c.vestingCount + 1 > U64_MAX then Err(InvalidVestingId)
    else if start + grant.cliff + grant.duration > U64_MAX then Err(InvalidSchedule)
    else
      var minted :- Minted(c, grant.amount);
      Ok(minted.(vestingCount := c.vestingCount + 1, vestEscrow := c.vestEscrow + grant.amount))
  }

  function ReceiveTransfer(c: Chain, src: Eid, amount: nat, to: Key, now: nat): Step
    requires src in c.peers
  {
    var metered :- MeterIn(c.peers[src], amount, now);
    var minted :- MintedTo(c, to, amount);
    Ok(minted.(peers := c.peers[src := metered]))
  }

  // ----- moves outside the program

  function Burn(c: Chain, u: Key, amount: nat): Step {
    var debited :- Debit(c, u, amount);
    Burnt(debited, amount)
  }

  function Transfer(c: Chain, from: Key, to: Key, amount: nat): Step {
    var debited :- Debit(c, from, amount);
    Ok(Credit(debited, to, amount))
  }

  /** Anyone may send GRS to the sale escrow. */
  function Stock(c: Chain, from: Key, amount: nat): Step {
    var debited :- Debit(c, from, amount);
    Ok(debited.(saleEscrow := c.saleEscrow + amount))
  }

  function FundQuote(c: Chain, asset: Key, owner: Key, amount: nat): Step {
    Ok(c.(quotes := c.quotes[(asset, owner) := QuoteBalance(c, asset, owner) + amount]))
  }
}
