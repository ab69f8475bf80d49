/** What every instruction keeps on one chain: its token is fully accounted for and its sale book is covered. */
module GrsInvariant {
  import opened Prelude
  import opened Sums
  import opened GrsTypes
  import opened MsgCodec
  import opened GrsChain
  import SalePricing

  function GrsLeft(row: Row): int {
    row.grsAmount
  }

  /** Every unit of supply is in a wallet or in one of the program's accounts. */
  ghost predicate Backed(c: Chain) {
    c.supply == Sum(c.wallets, Whole) + c.saleEscrow + c.feeEscrow + c.vestEscrow
  }

  /** The reserve is what the open lots still offer, the escrow covers it, and no open lot is free of charge. */
  ghost predicate BookCovered(c: Chain) {
    && c.reserved == Sum(c.rows, GrsLeft) <= c.saleEscrow
    && c.saleCount <= U64_MAX
    && (forall id :: id in c.rows ==> 0 < id <= c.saleCount)
    && (forall id :: id in c.rows && c.rows[id].grsAmount > 0 ==> c.rows[id].assetAmount > 0)
  }

  ghost predicate ChainInv(c: Chain) {
    Backed(c) && BookCovered(c)
  }

  /** Whether `id` is an open lot here, as a count. */
  function Live(c: Chain, id: nat): nat {
    if id in c.rows && c.rows[id].grsAmount > 0 then 1 else 0
  }

  /** Rows are only added, and a row without GRS stays without. */
  ghost predicate RowsAdvance(c: Chain, c': Chain) {
    && c'.home == c.home && c.rows.Keys <= c'.rows.Keys && c.saleCount <= c'.saleCount
    && forall id :: id in c.rows && c.rows[id].grsAmount == 0 ==> c'.rows[id].grsAmount == 0
  }

  /** No lot is opened. */
  ghost predicate NothingOpened(c: Chain, c': Chain) {
    forall id :: Live(c', id) <= Live(c, id)
  }

  // ----- token accounts

  lemma CreditSum(c: Chain, u: Key, amount: nat)
    ensures Sum(Credit(c, u, amount).wallets, Whole) == Sum(c.wallets, Whole) + amount
  {
    hide Sum;
    SumUpdate<Key, nat>(c.wallets, u, Balance(c, u) + amount, Whole);
  }

  lemma DebitSum(c: Chain, u: Key, amount: nat)
    requires Debit(c, u, amount).Ok?
    ensures Sum(Debit(c, u, amount).value.wallets, Whole) == Sum(c.wallets, Whole) - amount
  {
    hide Sum;
    SumUpdate<Key, nat>(c.wallets, u, Balance(c, u) - amount, Whole);
  }

  // ----- one row

  /** Writing a row moves the sum of what the rows offer by the difference. */
  lemma RowSum(c: Chain, id: nat, row: Row)
    ensures Sum(c.rows[id := row], GrsLeft)
         == Sum(c.rows, GrsLeft) - (if id in c.rows then c.rows[id].grsAmount else 0) + row.grsAmount
  {
    hide Sum;
    SumUpdate<nat, Row>(c.rows, id, row, GrsLeft);
  }

  lemma RowAtMost(c: Chain, id: nat)
    requires BookCovered(c) && id in c.rows
    ensures c.rows[id].grsAmount <= c.reserved <= c.saleEscrow
  {
    SumAtLeast<nat, Row>(c.rows, id, GrsLeft);
  }

  // ----- instructions

  lemma MintGenesisKeeps(c: Chain, to: Key, mint: Mint)
    requires ChainInv(c) && MintGenesis(c, to, mint).Ok?
    ensures var c' := MintGenesis(c, to, mint).value;
            ChainInv(c') && RowsAdvance(c, c') && NothingOpened(c, c')
            && c'.supply == c.supply + MAX_SUPPLY_LD && c'.saleCount == c.saleCount
            && c'.genesisMinted && !c.genesisMinted && c.home && c.supply == 0
  {
    hide Sum;
    CreditSum(c, to, MAX_SUPPLY_LD);
  }

  lemma EarmarkKeeps(c: Chain, amount: nat)
    requires Backed(c) && Earmark(c, amount).Ok? && c.reserved <= c.saleEscrow
    ensures var c' := Earmark(c, amount).value;
            && Backed(c') && c'.rows == c.rows && c'.supply == c.supply && c'.saleCount == c.saleCount
            && c'.home == c.home && c'.genesisMinted == c.genesisMinted
            && c'.reserved == c.reserved + amount <= c'.saleEscrow
  {
    hide Sum;
    if amount > 0 && SaturatingSub(amount, FreeInventory(c)) > 0 {
      DebitSum(c, c.admin, SaturatingSub(amount, FreeInventory(c)));
    }
  }

  /** Only the next id of the home book can open a lot. */
  lemma SetSaleKeeps(c: Chain, id: U64, row: Row)
    requires ChainInv(c) && SetSale(c, id, row).Ok?
    ensures var c' := SetSale(c, id, row).value;
            && ChainInv(c') && RowsAdvance(c, c') && c'.supply == c.supply && c'.genesisMinted == c.genesisMinted
            && c.home && c'.saleCount <= c.saleCount + 1
            && forall j :: Live(c', j) <= Live(c, j) + (if c.saleCount < j == c'.saleCount then 1 else 0)
  {
    hide Sum;
    if id == 0 || id == c.saleCount + 1 {
      EarmarkKeeps(c, row.grsAmount);
      RowSum(c, c.saleCount + 1, row);
    } else {
      RowSum(c, id, c.rows[id].(assetAmount := 0, grsAmount := 0));
    }
  }

  /** Publishing burns exactly what the message carries, and the row is closed afterwards. */
  lemma PublishSaleKeeps(c: Chain, dst: Eid, id: U64)
    requires ChainInv(c) && PublishSale(c, dst, id).Ok?
    ensures var c' := PublishSale(c, dst, id).value.0;
            && ChainInv(c') && RowsAdvance(c, c') && NothingOpened(c, c') && c'.genesisMinted == c.genesisMinted
            && c.home && c'.saleCount == c.saleCount
            && id in c.rows && c.rows[id].grsAmount % LD2SD_RATE == 0 && c'.rows[id].grsAmount == 0
            && c'.supply + c.rows[id].grsAmount == c.supply
  {
    hide Sum;
    RowSum(c, id, c.rows[id].(assetAmount := 0, grsAmount := 0));
    RowAtMost(c, id);
  }

  lemma FillKeeps(c: Chain, id: nat, to: Key, amount: U64)
    requires ChainInv(c) && id in c.rows && Fill(c, id, to, amount).Ok?
    ensures var (c', cost) := Fill(c, id, to, amount).value;
            && ChainInv(c') && RowsAdvance(c, c') && NothingOpened(c, c') && c'.genesisMinted == c.genesisMinted
            && c'.supply == c.supply && c'.saleCount == c.saleCount
  {
    hide Sum;
    var row := c.rows[id];
    SalePricing.QuoteIsFloor(amount, row.grsAmount, row.assetAmount);
    var cost := SalePricing.QuoteCost(amount, row.grsAmount, row.assetAmount).value;
    RowSum(c, id, row.(assetAmount := row.assetAmount - cost, grsAmount := row.grsAmount - amount));
    CreditSum(c, to, amount);
  }

  /** Two chains that differ in the quote balances only. */
  predicate QuotesMoved(c: Chain, c': Chain) {
    c' == c.(quotes := c'.quotes)
  }

  lemma QuotesKeep(c: Chain, c': Chain)
    requires ChainInv(c) && QuotesMoved(c, c')
    ensures ChainInv(c')
  {
  }

  lemma PayMovesQuotes(c: Chain, asset: Key, from: Key, to: Key, amount: nat)
    requires Pay(c, asset, from, to, amount).Ok?
    ensures QuotesMoved(c, Pay(c, asset, from, to, amount).value)
  {
  }

  lemma BuyKeeps(c: Chain, id: nat, buyer: Key, to: Key, amount: U64)
    requires ChainInv(c) && Buy(c, id, buyer, to, amount).Ok?
    ensures var (c', cost) := Buy(c, id, buyer, to, amount).value;
            && ChainInv(c') && RowsAdvance(c, c') && NothingOpened(c, c') && c'.genesisMinted == c.genesisMinted
            && c'.supply == c.supply && c'.saleCount == c.saleCount
  {
    hide Sum, Fill, Pay, ChainInv;
    FillKeeps(c, id, to, amount);
    var (filled, cost) := Fill(c, id, to, amount).value;
    PayMovesQuotes(filled, c.rows[id].asset, buyer, Payee(c, c.rows[id]), cost);
    QuotesKeep(filled, Buy(c, id, buyer, to, amount).value.0);
  }

  /** A quoted fill is always in stock: only the lifetime counter and the buyer's purse can refuse it. */
  lemma QuotedFillIsInStock(c: Chain, id: nat, buyer: Key, to: Key, amount: U64)
    requires ChainInv(c) && to != DEFAULT_KEY && id in c.rows
    ensures var quote := SalePricing.QuoteCost(amount, c.rows[id].grsAmount, c.rows[id].assetAmount);
            Buy(c, id, buyer, to, amount).Ok? <==>
              && quote.Ok? && c.spent + amount <= U64_MAX
              && quote.value <= QuoteBalance(c, c.rows[id].asset, buyer)
  {
    hide Sum;
    var row := c.rows[id];
    RowAtMost(c, id);
    if SalePricing.QuoteCost(amount, row.grsAmount, row.assetAmount).Ok? {
      SalePricing.QuoteIsFloor(amount, row.grsAmount, row.assetAmount);
    }
    hide SalePricing.QuoteCost, ChainInv;
  }

  /** A transfer burns here what its message carries; the fee stays. */
  lemma SendKeeps(c: Chain, dst: Eid, from: Key, to: Key, amount: U64, min: nat, compose: Option<Bytes>, now: nat)
    requires ChainInv(c) && Send(c, dst, from, to, amount, min, compose, now).Ok?
    ensures var (c', message) := Send(c, dst, from, to, amount, min, compose, now).value;
            && ChainInv(c') && RowsAdvance(c, c') && NothingOpened(c, c') && c'.genesisMinted == c.genesisMinted
            && c'.saleCount == c.saleCount && c'.supply <= c.supply
            && |message| == OFT_MSG_LEN && !IsSale(message) && !IsGrant(message) && SendTo(message) == to
            && AmountSD(message) * LD2SD_RATE == c.supply - c'.supply
            && min <= c.supply - c'.supply <= amount
  {
    hide Sum;
    var peer := c.peers[dst];
    var (sent, received, fee) := FeeAndDust(amount, c.defaultFeeBps, peer.feeBps);
    DebitSum(c, from, sent);
    TransferRoundTrip(to, received / LD2SD_RATE, from);
  }

  /** What receiving a sale takes out of circulation: a revoked lot, or what a known row offered before. */
  function Revoked(c: Chain, sale: SaleMsg): nat {
    if sale.id !in c.rows then 0
    else if c.rows[sale.id].grsAmount == 0 && sale.grsAmount != 0 then sale.grsAmount
    else c.rows[sale.id].grsAmount
  }

  lemma SinkRefused(c: Chain, sale: SaleMsg)
    requires sale.recipient in c.sinks
    ensures ReceiveSale(c, sale) == Err(InvalidRecipient)
  {
  }

  lemma WrittenFacts(c: Chain, sale: SaleMsg)
    requires BookCovered(c) && sale.id > 0 && (sale.grsAmount > 0 ==> sale.assetAmount > 0)
    requires sale.id in c.rows && c.rows[sale.id].grsAmount == 0 ==> sale.grsAmount == 0
    ensures var w := Written(c, sale);
            && RowsAdvance(c, w) && Sum(w.rows, GrsLeft) + Revoked(c, sale) == c.reserved + sale.grsAmount
            && w.saleCount <= U64_MAX && (forall id :: id in w.rows ==> 0 < id <= w.saleCount)
            && (forall id :: id in w.rows && w.rows[id].grsAmount > 0 ==> w.rows[id].assetAmount > 0)
            && forall j :: Live(w, j) <= Live(c, j) + (if j == sale.id && sale.grsAmount > 0 then 1 else 0)
  {
    hide Sum;
    RowSum(c, sale.id, Row(sale.asset, sale.assetAmount, sale.grsAmount, sale.recipient));
  }

  /** Two states that differ only in how much is minted into the escrow and reserved. */
  predicate EscrowMoved(c: Chain, c': Chain, delta: int) {
    && c'.supply as int == c.supply + delta && c'.saleEscrow as int == c.saleEscrow + delta
    && c'.reserved as int == c.reserved + delta
    && c' == c.(supply := c'.supply, saleEscrow := c'.saleEscrow, reserved := c'.reserved)
  }

  lemma ReceiveSaleMoves(c: Chain, sale: SaleMsg)
    requires ReceiveSale(c, sale).Ok?
    ensures sale.id > 0
    ensures sale.id in c.rows && c.rows[sale.id].grsAmount == 0 && sale.grsAmount > 0 ==> ReceiveSale(c, sale).value == c
    ensures !(sale.id in c.rows && c.rows[sale.id].grsAmount == 0 && sale.grsAmount > 0)
            ==> EscrowMoved(Written(c, sale), ReceiveSale(c, sale).value, sale.grsAmount - Revoked(c, sale))
  {
    hide Written;
  }

  lemma MovedKeeps(c: Chain, w: Chain, c': Chain, sale: SaleMsg)
    requires ChainInv(c) && EscrowMoved(w, c', sale.grsAmount - Revoked(c, sale)) && w == Written(c, sale)
    requires Sum(w.rows, GrsLeft) + Revoked(c, sale) == c.reserved + sale.grsAmount && w.saleCount <= U64_MAX
    requires forall id :: id in w.rows ==> 0 < id <= w.saleCount
    requires forall id :: id in w.rows && w.rows[id].grsAmount > 0 ==> w.rows[id].assetAmount > 0
    ensures ChainInv(c')
  {
    hide Sum, Revoked;
  }

  lemma ReceiveSaleKeeps(c: Chain, sale: SaleMsg)
    requires ChainInv(c) && ReceiveSale(c, sale).Ok? && (sale.grsAmount > 0 ==> sale.assetAmount > 0)
    ensures var c' := ReceiveSale(c, sale).value;
            && ChainInv(c') && RowsAdvance(c, c') && c'.genesisMinted == c.genesisMinted
            && c'.saleCount <= (if sale.id > c.saleCount then sale.id else c.saleCount)
            && c'.supply + Revoked(c, sale) == c.supply + sale.grsAmount
            && forall j :: Live(c', j) <= Live(c, j) + (if j == sale.id && sale.grsAmount > 0 then 1 else 0)
  {
    ReceiveSaleMoves(c, sale);
    hide ReceiveSale, Sum;
    var c' := ReceiveSale(c, sale).value;
    if c' != c {
      var w := Written(c, sale);
      WrittenFacts(c, sale);
      hide ChainInv;
      MovedKeeps(c, w, c', sale);
      assert forall j :: Live(c', j) == Live(w, j);
    }
  }

  lemma ReceiveTransferKeeps(c: Chain, src: Eid, amount: nat, to: Key, now: nat)
    requires ChainInv(c) && src in c.peers && ReceiveTransfer(c, src, amount, to, now).Ok?
    ensures var c' := ReceiveTransfer(c, src, amount, to, now).value;
            && ChainInv(c') && RowsAdvance(c, c') && NothingOpened(c, c') && c'.genesisMinted == c.genesisMinted
            && c'.saleCount == c.saleCount && c'.supply == c.supply + amount
            && Balance(c', to) == Balance(c, to) + amount
  {
    hide Sum;
    CreditSum(c, to, amount);
  }

  lemma BurnKeeps(c: Chain, u: Key, amount: nat)
    requires ChainInv(c) && Burn(c, u, amount).Ok?
    ensures var c' := Burn(c, u, amount).value;
            && ChainInv(c') && RowsAdvance(c, c') && NothingOpened(c, c') && c'.genesisMinted == c.genesisMinted
            && c'.saleCount == c.saleCount && c'.supply + amount == c.supply
  {
    hide Sum;
    DebitSum(c, u, amount);
  }

  lemma TransferKeeps(c: Chain, from: Key, to: Key, amount: nat)
    requires ChainInv(c) && Transfer(c, from, to, amount).Ok?
    ensures var c' := Transfer(c, from, to, amount).value;
            && ChainInv(c') && RowsAdvance(c, c') && NothingOpened(c, c') && c'.genesisMinted == c.genesisMinted
            && c'.saleCount == c.saleCount && c'.supply == c.supply
  {
    hide Sum;
    DebitSum(c, from, amount);
    CreditSum(Debit(c, from, amount).value, to, amount);
  }

  lemma StockKeeps(c: Chain, from: Key, amount: nat)
    requires ChainInv(c) && Stock(c, from, amount).Ok?
    ensures var c' := Stock(c, from, amount).value;
            && ChainInv(c') && RowsAdvance(c, c') && NothingOpened(c, c') && c'.genesisMinted == c.genesisMinted
            && c'.saleCount == c.saleCount && c'.supply == c.supply
  {
    hide Sum;
    DebitSum(c, from, amount);
  }
}
