/** What holds over every run of the home chain, its spokes and the messages between them. */
module GrsRuns {
  import opened Prelude
  import opened Sums
  import opened GrsTypes
  import opened MsgCodec
  import opened GrsChain
  import opened GrsInvariant
  import opened GrsWorld

  // ----- one action at a time

  /** What an instruction on one chain mints less what it burns. */
  function SupplyChange(op: ChainOp): int {
    if op.Genesis? then MAX_SUPPLY_LD else if op.BurnTokens? then -(op.amount as int) else 0
  }

  lemma OnChainKeepsChain(c: Chain, op: ChainOp)
    requires ChainInv(c) && ApplyOn(c, op).Ok?
    ensures var c' := ApplyOn(c, op).value;
            && Steps(c, c') && c'.supply as int == c.supply + SupplyChange(op)
            && c'.genesisMinted == (c.genesisMinted || op.Genesis?) && (op.Genesis? ==> c.home && !c.genesisMinted)
            && c'.saleCount <= c.saleCount + (if c.home then 1 else 0)
            && forall j :: Live(c', j) <= Live(c, j) + (if c.saleCount < j == c'.saleCount then 1 else 0)
  {
    hide Sum, MintGenesis, SetSale, Buy, Burn, Transfer, Stock, ChainInv;
    match op
    case Genesis(to, mint) => MintGenesisKeeps(c, to, mint);
    case Set(id, row) => SetSaleKeeps(c, id, row);
    case BuyLot(id, buyer, to, amount) => BuyKeeps(c, id, buyer, to, amount);
    case Fund(asset, owner, amount) => QuotesKeep(c, FundQuote(c, asset, owner, amount).value);
    case BurnTokens(u, amount) => BurnKeeps(c, u, amount);
    case Move(from, to, amount) => TransferKeeps(c, from, to, amount);
    case StockEscrow(from, amount) => StockKeeps(c, from, amount);
    case Configure(paused, fee, peers) => ConfigureKeeps(c, paused, fee, peers);
  }

  lemma ConfigureKeeps(c: Chain, paused: bool, fee: FeeBps, peers: map<Eid, Peer>)
    requires ChainInv(c)
    ensures ChainInv(c.(paused := paused, defaultFeeBps := fee, peers := peers))
  {
  }

  /** An id that the home book has not given out is open nowhere. */
  lemma UnusedIdIsNowhere(w: World, id: nat)
    requires WorldInv(w) && id > w.chains[w.homeEid].saleCount
    ensures Places(w, id) == 0
  {
    hide Sum, Total, Backed, Places, AllGrs;
    forall e | e in w.chains
      ensures Live(w.chains[e], id) == 0
    {
    }
    SumOfZeros<Eid, Chain>(w.chains, LiveLot(id));
    forall k | 0 <= k < |w.inFlight|
      ensures Opens(w.inFlight[k].message, id) == 0
    {
      assert Genuine(w, w.inFlight[k]);
    }
    TotalOfZeros(w.inFlight, OpensLot(id));
    PlacesIs(w, id);
  }

  lemma PlacesIs(w: World, id: nat)
    ensures Places(w, id) == Sum(w.chains, LiveLot(id)) + Total(w.inFlight, OpensLot(id))
  {
  }

  lemma {:induction false} TotalOfZeros<T>(s: seq<T>, f: T -> int)
    requires forall k :: 0 <= k < |s| ==> f(s[k]) == 0
    ensures Total(s, f) == 0
    decreases |s|
  {
    if s != [] {
      TotalOfZeros(s[1..], f);
    }
  }

  lemma OnChainKeeps(w: World, eid: Eid, op: ChainOp)
    requires WorldInv(w) && Apply(w, OnChain(eid, op)).Ok?
    ensures WorldInv(Apply(w, OnChain(eid, op)).value)
  {
    var w' := Apply(w, OnChain(eid, op)).value;
    var c, c' := w.chains[eid], w'.chains[eid];
    OnChainKeepsChain(c, op);
    hide Sum, Total, ApplyOn, ChainInv, RowsAdvance, Genuine;
    OneChain(w, eid, c', 0);
    forall id
      ensures Places(w', id) <= 1
    {
      OneChain(w, eid, c', id);
      assert Places(w, id) <= 1;
      if c.saleCount < id == c'.saleCount {
        if eid == w.homeEid {
          UnusedIdIsNowhere(w, id);
          PlacesAtLeast(w, eid, id);
        }
      }
    }
    ChainStepKeeps(w, eid, c', w');
  }

  /** A published row arrives exactly as it was on the home book. */
  lemma PublishedMessage(c: Chain, id: U64)
    requires BookCovered(c) && id in c.rows && c.rows[id].grsAmount % LD2SD_RATE == 0
    ensures var row := c.rows[id];
            var m := Message(id, row);
            && DecodeSale(m) == Ok(SaleMsg(id, row.asset, row.assetAmount, row.grsAmount, row.recipient))
            && AmountOf(m) == row.grsAmount && IsSale(m) && !IsGrant(m)
            && forall j :: Opens(m, j) == if j == id then Live(c, id) else 0
  {
    var row := c.rows[id];
    SaleRoundTrip(SaleMsg(id, row.asset, row.assetAmount, row.grsAmount, row.recipient));
    hide SaleBytes, DecodeSale, IsSale, IsGrant, Sum;
  }

  lemma Enqueued(w: World, e: Envelope, id: nat)
    ensures Total(w.inFlight + [e], Carries) == Total(w.inFlight, Carries) + AmountOf(e.message)
    ensures Total(w.inFlight + [e], OpensLot(id)) == Total(w.inFlight, OpensLot(id)) + Opens(e.message, id)
  {
    TotalConcat(w.inFlight, [e], Carries);
    TotalConcat(w.inFlight, [e], OpensLot(id));
    assert Total([e], Carries) == AmountOf(e.message) && Total([e], OpensLot(id)) == Opens(e.message, id);
  }

  lemma Dequeued(w: World, k: nat, id: nat)
    requires k < |w.inFlight|
    ensures Total(w.inFlight[..k] + w.inFlight[k + 1..], Carries)
         == Total(w.inFlight, Carries) - AmountOf(w.inFlight[k].message)
    ensures Total(w.inFlight[..k] + w.inFlight[k + 1..], OpensLot(id))
         == Total(w.inFlight, OpensLot(id)) - Opens(w.inFlight[k].message, id)
  {
    TotalRemove(w.inFlight, k, Carries);
    TotalRemove(w.inFlight, k, OpensLot(id));
  }

  lemma PublishKeeps(w: World, dst: Eid, id: U64)
    requires WorldInv(w) && Apply(w, Publish(dst, id)).Ok?
    ensures WorldInv(Apply(w, Publish(dst, id)).value)
  {
    var w' := Apply(w, Publish(dst, id)).value;
    var home := w.homeEid;
    var c, c' := w.chains[home], w'.chains[home];
    PublishSaleKeeps(c, dst, id);
    PublishedMessage(c, id);
    var e := Envelope(home, dst, Message(id, c.rows[id]));
    assert w'.inFlight == w.inFlight + [e];
    assert Genuine(w', e);
    hide Sum, Total, PublishSale, ChainInv, RowsAdvance, Genuine, Message, AmountOf, Opens;
    OneChain(w, home, c', 0);
    Enqueued(w, e, 0);
    forall j
      ensures Places(w', j) <= 1
    {
      OneChain(w, home, c', j);
      Enqueued(w, e, j);
      assert Places(w, j) <= 1;
      assert Live(c', j) <= Live(c, j);
    }
    ChainStepKeeps(w, home, c', w');
  }

  lemma BridgeKeeps(w: World, action: Action)
    requires WorldInv(w) && action.Bridge? && Apply(w, action).Ok?
    ensures WorldInv(Apply(w, action).value)
  {
    var w' := Apply(w, action).value;
    var Bridge(src, dst, from, to, amount, min, compose, now) := action;
    var c, c' := w.chains[src], w'.chains[src];
    SendKeeps(c, dst, from, to, amount, min, compose, now);
    var message := Send(c, dst, from, to, amount, min, compose, now).value.1;
    var e := Envelope(src, dst, message);
    assert w'.inFlight == w.inFlight + [e];
    assert AmountOf(message) == c.supply - c'.supply;
    assert forall j :: Opens(message, j) == 0;
    hide Sum, Total, Send, ChainInv, RowsAdvance, AmountOf, Opens;
    OneChain(w, src, c', 0);
    Enqueued(w, e, 0);
    forall j
      ensures Places(w', j) <= 1
    {
      OneChain(w, src, c', j);
      Enqueued(w, e, j);
      assert Places(w, j) <= 1;
      assert Live(c', j) <= Live(c, j);
    }
    ChainStepKeeps(w, src, c', w');
  }

  /** What arriving does to the chain: everything the message carries is minted, less what is revoked. */
  lemma ReceiveKeeps(w: World, k: nat, to: Key, now: U64)
    requires WorldInv(w) && k < |w.inFlight| && w.inFlight[k].dst in w.chains
    requires var e := w.inFlight[k];
             Receive(w.chains[e.dst], e.src, e.message, to, now).Ok?
    ensures var e := w.inFlight[k];
            var c := w.chains[e.dst];
            var c' := Receive(c, e.src, e.message, to, now).value;
            && Steps(c, c') && c'.genesisMinted == c.genesisMinted
            && c'.saleCount <= w.chains[w.homeEid].saleCount
            && c'.supply + RevokedBy(c, e.message) == c.supply + AmountOf(e.message)
            && forall j :: Live(c', j) <= Live(c, j) + Opens(e.message, j)
  {
    hide Sum, Total, ReceiveSale, ReceiveTransfer, ReceiveGrant, ChainInv, RowsAdvance, Places, AllGrs, Revoked, Live;
    var e := w.inFlight[k];
    var c := w.chains[e.dst];
    assert Genuine(w, e);
    if IsSale(e.message) {
      ReceiveSaleKeeps(c, DecodeSale(e.message).value);
    } else {
      ReceiveTransferKeeps(c, e.src, AmountSD(e.message) * LD2SD_RATE, to, now);
    }
  }

  lemma DeliverKeeps(w: World, k: nat, to: Key, now: U64)
    requires WorldInv(w) && Apply(w, Deliver(k, to, now)).Ok?
    ensures WorldInv(Apply(w, Deliver(k, to, now)).value)
  {
    var w' := Apply(w, Deliver(k, to, now)).value;
    var e := w.inFlight[k];
    var c, c' := w.chains[e.dst], w'.chains[e.dst];
    ReceiveKeeps(w, k, to, now);
    hide Sum, Total, Receive, ChainInv, RowsAdvance, AmountOf, Opens, RevokedBy, Genuine;
    OneChain(w, e.dst, c', 0);
    Dequeued(w, k, 0);
    forall j
      ensures Places(w', j) <= 1
    {
      OneChain(w, e.dst, c', j);
      Dequeued(w, k, j);
      assert Places(w, j) <= 1;
      assert Live(c', j) <= Live(c, j) + Opens(e.message, j);
    }
    ChainStepKeeps(w, e.dst, c', w');
  }

  lemma ExecKeeps(w: World, action: Action)
    requires WorldInv(w)
    ensures WorldInv(Exec(w, action))
  {
    hide WorldInv, Apply;
    if Apply(w, action).Ok? {
      match action
      case OnChain(eid, op) => OnChainKeeps(w, eid, op);
      case Publish(dst, id) => PublishKeeps(w, dst, id);
      case Bridge(_, _, _, _, _, _, _, _) => BridgeKeeps(w, action);
      case Deliver(k, to, now) => DeliverKeeps(w, k, to, now);
    }
  }

  lemma {:induction false} RunKeeps(w: World, actions: seq<Action>)
    requires WorldInv(w)
    ensures WorldInv(Run(w, actions))
    decreases |actions|
  {
    hide WorldInv, Exec;
    if actions != [] {
      ExecKeeps(w, actions[0]);
      RunKeeps(Exec(w, actions[0]), actions[1..]);
    }
  }
}
