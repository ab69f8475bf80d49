/** What each instruction of a chain does for the people involved, and that it does nothing to anybody else. */
module GrsEffects {
  import opened Prelude
  import opened GrsTypes
  import opened MsgCodec
  import opened GrsChain
  import opened GrsInvariant
  import SalePricing

  /** Nobody's wallet changed but those of `us`. */
  ghost predicate OthersKept(c: Chain, c': Chain, us: set<Key>) {
    forall v :: v !in us ==> Balance(c', v) == Balance(c, v)
  }

  /** No row changed but `id`. */
  ghost predicate OtherRowsKept(c: Chain, c': Chain, id: nat) {
    forall j :: j != id ==> (j in c'.rows <==> j in c.rows) && (j in c.rows ==> c'.rows[j] == c.rows[j])
  }

  lemma EarmarkDoes(c: Chain, amount: nat)
    requires Earmark(c, amount).Ok? && c.reserved <= c.saleEscrow
    ensures var c' := Earmark(c, amount).value;
            && c' == c.(reserved := c'.reserved, saleEscrow := c'.saleEscrow, wallets := c'.wallets)
            && c'.reserved == c.reserved + amount
            && var added := SaturatingSub(c'.reserved, c.saleEscrow);
               && c'.saleEscrow == c.saleEscrow + added && Balance(c', c.admin) + added == Balance(c, c.admin)
               && OthersKept(c, c', {c.admin})
  {
    var need := SaturatingSub(amount, FreeInventory(c));
    if amount > 0 && need > 0 {
      DebitDoes(c, c.admin, need);
    }
    hide Debit, OthersKept;
    SameBalances(c);
    if amount > 0 {
      var debited := if need > 0 then Debit(c, c.admin, need).value else c;
      SameWallets(debited, Earmark(c, amount).value, c, c.admin);
    }
  }

  lemma DebitDoes(c: Chain, u: Key, amount: nat)
    requires Debit(c, u, amount).Ok?
    ensures var c' := Debit(c, u, amount).value;
            c' == c.(wallets := c'.wallets) && Balance(c', u) + amount == Balance(c, u) && OthersKept(c, c', {u})
  {
  }

  lemma SameBalances(c: Chain)
    ensures OthersKept(c, c, {c.admin})
  {
  }

  lemma SameWallets(c: Chain, c': Chain, before: Chain, u: Key)
    requires c'.wallets == c.wallets && OthersKept(before, c, {u})
    ensures Balance(c', u) == Balance(c, u) && OthersKept(before, c', {u})
  {
    forall v | v !in {u}
      ensures Balance(c', v) == Balance(before, v)
    {
      assert Balance(c, v) == Balance(before, v);
    }
  }

  /**
   * Creating lists the row under the next id and reserves what it offers, the admin adding what the free escrow is
   * short of.
   */
  lemma CreateDoes(c: Chain, id: U64, row: Row)
    requires SetSale(c, id, row).Ok? && c.reserved <= c.saleEscrow && (id == 0 || id == c.saleCount + 1)
    ensures var c' := SetSale(c, id, row).value;
            && c.home && c'.saleCount == c.saleCount + 1 && c'.saleCount !in c.rows && c'.saleCount in c'.rows
            && c'.rows[c'.saleCount] == row && row.recipient !in c.sinks && OtherRowsKept(c, c', c'.saleCount)
            && c'.reserved == c.reserved + row.grsAmount
            && var added := SaturatingSub(c'.reserved, c.saleEscrow);
               && c'.saleEscrow == c.saleEscrow + added && Balance(c', c.admin) + added == Balance(c, c.admin)
               && OthersKept(c, c', {c.admin})
  {
    hide Earmark;
    EarmarkDoes(c, row.grsAmount);
  }

  /** Closing releases what is left; the asset and the recipient of the row stay. */
  lemma CloseDoes(c: Chain, id: U64, row: Row)
    requires SetSale(c, id, row).Ok? && 0 < id <= c.saleCount
    ensures var c' := SetSale(c, id, row).value;
            && c.home && id in c.rows && id in c'.rows && OtherRowsKept(c, c', id) && c'.saleCount == c.saleCount
            && c'.rows[id] == c.rows[id].(assetAmount := 0, grsAmount := 0)
            && c'.reserved + c.rows[id].grsAmount == c.reserved
            && c'.saleEscrow == c.saleEscrow && c'.wallets == c.wallets
  {
    hide AppendSale;
  }

  /** Nobody's quote balance changed but those of `us` in `asset`. */
  ghost predicate OtherQuotesKept(c: Chain, c': Chain, asset: Key, us: set<Key>) {
    forall a, v :: a != asset || v !in us ==> QuoteBalance(c', a, v) == QuoteBalance(c, a, v)
  }

  lemma PayDoes(c: Chain, asset: Key, from: Key, to: Key, amount: nat)
    requires Pay(c, asset, from, to, amount).Ok?
    ensures var c' := Pay(c, asset, from, to, amount).value;
            && c' == c.(quotes := c'.quotes) && amount <= QuoteBalance(c, asset, from)
            && OtherQuotesKept(c, c', asset, {from, to})
            && QuoteBalance(c', asset, from) + amount
               == QuoteBalance(c, asset, from) + (if from == to then amount else 0)
            && QuoteBalance(c', asset, to) + (if from == to then amount else 0) == QuoteBalance(c, asset, to) + amount
  {
  }

  lemma FillDoes(c: Chain, id: nat, to: Key, amount: U64)
    requires id in c.rows && Fill(c, id, to, amount).Ok?
    ensures var (c', cost) := Fill(c, id, to, amount).value;
            && id in c'.rows && OtherRowsKept(c, c', id) && OthersKept(c, c', {to}) && c'.quotes == c.quotes
            && SalePricing.QuoteCost(amount, c.rows[id].grsAmount, c.rows[id].assetAmount) == Ok(cost)
            && c'.rows[id].assetAmount + cost == c.rows[id].assetAmount
            && c'.rows[id].grsAmount + amount == c.rows[id].grsAmount
            && c'.rows[id].asset == c.rows[id].asset && c'.rows[id].recipient == c.rows[id].recipient
            && Balance(c', to) == Balance(c, to) + amount && c'.saleEscrow + amount == c.saleEscrow
            && c'.reserved + amount == c.reserved && c'.spent == c.spent + amount
  {
    hide SalePricing.QuoteCost;
  }

  /**
   * A fill hands the GRS out of the escrow to the recipient, for the floored price, which the buyer pays to the
   * row's payee; who pays itself keeps its balance.
   */
  lemma BuyDoes(c: Chain, id: nat, buyer: Key, to: Key, amount: U64)
    requires Buy(c, id, buyer, to, amount).Ok?
    ensures var (c', cost) := Buy(c, id, buyer, to, amount).value;
            && id in c.rows && id in c'.rows && OtherRowsKept(c, c', id) && OthersKept(c, c', {to})
            && SalePricing.QuoteCost(amount, c.rows[id].grsAmount, c.rows[id].assetAmount) == Ok(cost)
            && c'.rows[id] == c.rows[id].(assetAmount := c'.rows[id].assetAmount, grsAmount := c'.rows[id].grsAmount)
            && c'.rows[id].assetAmount + cost == c.rows[id].assetAmount
            && c'.rows[id].grsAmount + amount == c.rows[id].grsAmount
            && Balance(c', to) == Balance(c, to) + amount && c'.saleEscrow + amount == c.saleEscrow
            && c'.reserved + amount == c.reserved && c'.spent == c.spent + amount
            && var asset, payee := c.rows[id].asset, Payee(c, c.rows[id]);
               var own := if buyer == payee then cost else 0;
               && OtherQuotesKept(c, c', asset, {buyer, payee}) && cost <= QuoteBalance(c, asset, buyer)
               && QuoteBalance(c', asset, buyer) + cost == QuoteBalance(c, asset, buyer) + own
               && QuoteBalance(c', asset, payee) + own == QuoteBalance(c, asset, payee) + cost
  {
    hide SalePricing.QuoteCost, Fill, Pay;
    FillDoes(c, id, to, amount);
    var (filled, cost) := Fill(c, id, to, amount).value;
    PayDoes(filled, c.rows[id].asset, buyer, Payee(c, c.rows[id]), cost);
  }

  /** Publishing takes what the row offers out of the escrow, the reserve and the supply, and touches no wallet. */
  lemma PublishSaleDoes(c: Chain, dst: Eid, id: U64)
    requires PublishSale(c, dst, id).Ok?
    ensures var (c', message) := PublishSale(c, dst, id).value;
            && c.home && !c.paused && dst in c.peers && id in c.rows && id in c'.rows && OtherRowsKept(c, c', id)
            && var row := c.rows[id];
               && (row.grsAmount > 0 <==> row.assetAmount > 0) && row.grsAmount % LD2SD_RATE == 0
               && message == Message(id, row) && c'.rows[id] == row.(assetAmount := 0, grsAmount := 0)
               && c'.saleEscrow + row.grsAmount == c.saleEscrow && c'.reserved + row.grsAmount == c.reserved
               && c'.supply + row.grsAmount == c.supply && c'.spent == c.spent + row.grsAmount
               && c'.wallets == c.wallets
  {
    hide Message;
  }

  /** A transfer costs the sender the amount less its dust: the fee goes to the program, the rest is burned. */
  lemma SendDoes(c: Chain, dst: Eid, from: Key, to: Key, amount: U64, min: nat, compose: Option<Bytes>, now: nat)
    requires Send(c, dst, from, to, amount, min, compose, now).Ok?
    ensures var (c', message) := Send(c, dst, from, to, amount, min, compose, now).value;
            && !c.paused && dst in c.peers && dst in c'.peers && compose.None?
            && to != SALE_TYPE && to != GRANT_TYPE
            && var sent := amount - amount % LD2SD_RATE;
               var fee := c'.feeEscrow - c.feeEscrow;
               && Balance(c', from) + sent == Balance(c, from) && OthersKept(c, c', {from})
               && fee >= 0 && c'.supply + (sent - fee) == c.supply && sent - fee >= min
               && fee == RemoveDust(FeeOn(sent, c.defaultFeeBps, c.peers[dst].feeBps))
               && MeterOut(c.peers[dst], sent - fee, now) == Ok(c'.peers[dst])
               && c'.rows == c.rows && c'.saleEscrow == c.saleEscrow && c'.reserved == c.reserved
  {
    hide MeterOut, TransferBytes, FeeOn;
  }

  /**
   * A sale message either finds its lot closed and is dropped, or becomes the row, and the escrow and the reserve
   * move together to what it offers.
   */
  lemma ReceiveSaleDoes(c: Chain, sale: SaleMsg)
    requires ReceiveSale(c, sale).Ok?
    ensures var c' := ReceiveSale(c, sale).value;
            && sale.recipient !in c.sinks && sale.id > 0
            && if sale.id in c.rows && c.rows[sale.id].grsAmount == 0 && sale.grsAmount > 0 then c' == c
               else
                 && sale.id in c'.rows && OtherRowsKept(c, c', sale.id)
                 && c'.rows[sale.id] == Row(sale.asset, sale.assetAmount, sale.grsAmount, sale.recipient)
                 && var before := if sale.id in c.rows then c.rows[sale.id].grsAmount else 0;
                    && c'.saleEscrow + before == c.saleEscrow + sale.grsAmount
                    && c'.reserved + before == c.reserved + sale.grsAmount
                    && c'.supply + before == c.supply + sale.grsAmount && c'.wallets == c.wallets
  {
    ReceiveSaleMoves(c, sale);
    hide ReceiveSale;
    if sale.recipient in c.sinks {
      SinkRefused(c, sale);
    }
  }

  /** A transfer brings its amount to one wallet, out of the inbound bucket and back into the outbound one. */
  lemma ReceiveTransferDoes(c: Chain, src: Eid, amount: nat, to: Key, now: nat)
    requires src in c.peers && ReceiveTransfer(c, src, amount, to, now).Ok?
    ensures var c' := ReceiveTransfer(c, src, amount, to, now).value;
            && Balance(c', to) == Balance(c, to) + amount && OthersKept(c, c', {to})
            && c'.supply == c.supply + amount <= MAX_SUPPLY_LD && src in c'.peers
            && MeterIn(c.peers[src], amount, now) == Ok(c'.peers[src])
            && c'.rows == c.rows && c'.saleEscrow == c.saleEscrow && c'.reserved == c.reserved
  {
    hide MeterIn;
  }
}
