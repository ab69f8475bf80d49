/** The promises of the home and spoke protocol, over every run from initialisation. */
module GrsTheorems {
  import opened Prelude
  import opened Sums
  import opened GrsTypes
  import opened MsgCodec
  import opened GrsChain
  import opened GrsInvariant
  import opened GrsWorld
  import opened GrsRuns
  import Limits = RateLimiter

  /** All GRS: the billion minted at genesis is on chains, under way or retired, and nowhere else. */
  lemma SupplyConserved(w: World, actions: seq<Action>)
    requires Initial(w)
    ensures Run(w, actions).homeEid in Run(w, actions).chains
    ensures AllGrs(Run(w, actions))
         == if Run(w, actions).chains[Run(w, actions).homeEid].genesisMinted then MAX_SUPPLY_LD else 0
    ensures Run(w, actions).retired <= MAX_SUPPLY_LD
  {
    InitialInv(w);
    RunKeeps(w, actions);
    var end := Run(w, actions);
    hide Run, Sum, Total;
    SumNonNegative(end);
    TotalNonNegative(end.inFlight, Carries);
  }

  lemma SumNonNegative(w: World)
    requires w.homeEid in w.chains
    ensures Sum(w.chains, SupplyOf) >= 0
  {
    SumAtLeast<Eid, Chain>(w.chains, w.homeEid, SupplyOf);
  }

  /** On every chain, at every moment, the token is accounted for and the sale book is covered. */
  lemma EveryBookCovered(w: World, actions: seq<Action>, e: Eid)
    requires Initial(w) && e in Run(w, actions).chains
    ensures Backed(Run(w, actions).chains[e]) && BookCovered(Run(w, actions).chains[e])
  {
    InitialInv(w);
    RunKeeps(w, actions);
    hide Run, Sum, Total, Backed, BookCovered, Places, AllGrs, Genuine;
  }

  // ----- the cap

  /** No chain together with one message under way exceeds the billion. */
  lemma FitsUnderTheCap(w: World, e: Eid, k: nat)
    requires WorldInv(w) && e in w.chains && k < |w.inFlight|
    ensures w.chains[e].supply + AmountOf(w.inFlight[k].message) <= MAX_SUPPLY_LD
  {
    hide Sum, Total, ChainInv, Genuine, Places;
    SumAtLeast<Eid, Chain>(w.chains, e, SupplyOf);
    TotalAtLeast(w.inFlight, k, Carries);
  }

  /** What the receiving chain's own settings must allow. */
  predicate Deliverable(c: Chain, src: Eid, message: Bytes, now: U64) {
    && !c.paused && src in c.peers
    && if IsSale(message) then
         !c.home && DecodeSale(message).Ok? && DecodeSale(message).value.recipient !in c.sinks
       else |message| >= OFT_MSG_LEN && PassLimit(c.peers[src].inbound, AmountOf(message), now).Ok?
  }

  lemma BackedCovers(c: Chain)
    requires ChainInv(c)
    ensures c.reserved <= c.saleEscrow <= c.supply
  {
    SumOfWallets(c);
    hide Sum;
  }

  lemma SumOfWallets(c: Chain)
    ensures Sum(c.wallets, Whole) >= 0
  {
    if c.wallets == map[] {
      SumOfZeros<Key, nat>(c.wallets, Whole);
    } else {
      var u :| u in c.wallets;
      SumAtLeast<Key, nat>(c.wallets, u, Whole);
    }
  }

  lemma SaleArrives(c: Chain, sale: SaleMsg)
    requires ChainInv(c) && sale.id > 0 && sale.recipient !in c.sinks && c.supply + sale.grsAmount <= MAX_SUPPLY_LD
    ensures ReceiveSale(c, sale).Ok?
  {
    BackedCovers(c);
    if sale.id in c.rows {
      RowAtMost(c, sale.id);
    }
    hide Sum;
  }

  /** For what the program itself sends, and below the cap, only the receiving chain's settings decide. */
  lemma ReceivedIffDeliverable(c: Chain, src: Eid, message: Bytes, to: Key, now: U64)
    requires ChainInv(c) && c.supply + AmountOf(message) <= MAX_SUPPLY_LD
    requires if IsSale(message) then DecodeSale(message).Ok? else |message| == OFT_MSG_LEN && !IsGrant(message)
    ensures Receive(c, src, message, to, now) != Err(CapExceeded)
    ensures IsSale(message) || to == SendTo(message)
            ==> (Receive(c, src, message, to, now).Ok? <==> Deliverable(c, src, message, now))
  {
    hide ReceiveSale, ReceiveGrant, ReceiveTransfer, ChainInv, PassLimit, Limits.Consumed;
    if IsSale(message) {
      SaleAccepted(message);
      var sale := DecodeSale(message).value;
      if sale.recipient !in c.sinks {
        SaleArrives(c, sale);
      } else {
        SinkRefused(c, sale);
      }
    } else if src in c.peers {
      TransferArrives(c, src, AmountOf(message), to, now);
    }
  }

  lemma TransferArrives(c: Chain, src: Eid, amount: nat, to: Key, now: U64)
    requires src in c.peers && c.supply + amount <= MAX_SUPPLY_LD
    ensures ReceiveTransfer(c, src, amount, to, now).Ok? <==> PassLimit(c.peers[src].inbound, amount, now).Ok?
    ensures ReceiveTransfer(c, src, amount, to, now) != Err(CapExceeded)
  {
  }

  /**
   * The cap never stands in the way: a message under way is accepted exactly if its destination is running, knows
   * the sender, may list the sale's recipient or has room in its inbound bucket.
   */
  lemma DeliveredIffDeliverable(w: World, actions: seq<Action>, k: nat, to: Key, now: U64)
    requires Initial(w)
    requires k < |Run(w, actions).inFlight| && Run(w, actions).inFlight[k].dst in Run(w, actions).chains
    ensures var end := Run(w, actions);
            var e := end.inFlight[k];
            && Apply(end, Deliver(k, to, now)) != Err(CapExceeded)
            && (IsSale(e.message) || (|e.message| == OFT_MSG_LEN && to == SendTo(e.message))
                ==> (Apply(end, Deliver(k, to, now)).Ok? <==> Deliverable(end.chains[e.dst], e.src, e.message, now)))
  {
    InitialInv(w);
    RunKeeps(w, actions);
    var end := Run(w, actions);
    var e := end.inFlight[k];
    var c := end.chains[e.dst];
    FitsUnderTheCap(end, e.dst, k);
    assert ChainInv(c) && Genuine(end, e);
    hide Run, WorldInv, ChainInv, Receive, Deliverable;
    ReceivedIffDeliverable(c, e.src, e.message, to, now);
  }

  /** Genesis happens once, on the home chain, with a mint set up for it; nothing else can stand in its way. */
  lemma GenesisOnce(w: World, actions: seq<Action>, e: Eid, to: Key, mint: Mint)
    requires Initial(w) && e in Run(w, actions).chains
    ensures var end := Run(w, actions);
            Apply(end, OnChain(e, Genesis(to, mint))).Ok? <==>
              && e == end.homeEid && !end.chains[e].genesisMinted
              && mint == Mint(LOCAL_DECIMALS, Some(end.chains[e].admin))
  {
    InitialInv(w);
    RunKeeps(w, actions);
    var end := Run(w, actions);
    hide Run, Sum, Total, ChainInv, Places, Genuine;
    SumAtLeast<Eid, Chain>(end.chains, e, SupplyOf);
    TotalNonNegative(end.inFlight, Carries);
  }

  // ----- open lots

  /** The opening of a lot only ever arrives where that lot is not open, so no lot is topped up or minted twice. */
  lemma OpeningMeetsNoOpenLot(w: World, actions: seq<Action>, k: nat)
    requires Initial(w)
    requires var end := Run(w, actions);
             && k < |end.inFlight| && end.inFlight[k].dst in end.chains && IsSale(end.inFlight[k].message)
             && DecodeSale(end.inFlight[k].message).Ok? && DecodeSale(end.inFlight[k].message).value.grsAmount > 0
    ensures var end := Run(w, actions);
            var id := DecodeSale(end.inFlight[k].message).value.id;
            && (forall e :: e in end.chains ==> Live(end.chains[e], id) == 0)
            && forall j :: 0 <= j < |end.inFlight| && j != k ==> Opens(end.inFlight[j].message, id) == 0
  {
    InitialInv(w);
    RunKeeps(w, actions);
    var end := Run(w, actions);
    var id := DecodeSale(end.inFlight[k].message).value.id;
    assert Places(end, id) <= 1;
    assert Opens(end.inFlight[k].message, id) == 1;
    hide Run, Sum, Total, WorldInv, Live;
    forall e | e in end.chains
      ensures Live(end.chains[e], id) == 0
    {
      PlacesAtLeast(end, e, id);
      assert Live(end.chains[e], id) + Opens(end.inFlight[k].message, id) <= Places(end, id);
    }
    forall j | 0 <= j < |end.inFlight| && j != k
      ensures Opens(end.inFlight[j].message, id) == 0
    {
      TwoMessages(end, j, k, id);
    }
  }

  lemma TwoMessages(w: World, j: nat, k: nat, id: nat)
    requires j < |w.inFlight| && k < |w.inFlight| && j != k && w.homeEid in w.chains
    ensures Opens(w.inFlight[j].message, id) + Opens(w.inFlight[k].message, id) <= Places(w, id)
  {
    var others := w.inFlight[..k] + w.inFlight[k + 1..];
    TotalRemove(w.inFlight, k, OpensLot(id));
    var i := if j < k then j else j - 1;
    assert others[i] == w.inFlight[j];
    TotalAtLeast(others, i, OpensLot(id));
    hide Sum, Total;
    SumAtLeast<Eid, Chain>(w.chains, w.homeEid, LiveLot(id));
  }

  /** Every action lets every chain's rows advance only: none is lost and none is reopened. */
  lemma ExecAdvances(w: World, action: Action, e: Eid)
    requires WorldInv(w) && e in w.chains
    ensures e in Exec(w, action).chains && RowsAdvance(w.chains[e], Exec(w, action).chains[e])
    ensures Exec(w, action).homeEid == w.homeEid
  {
    if Apply(w, action).Ok? {
      match action
      case OnChain(eid, op) =>
        OnChainKeepsChain(w.chains[eid], op);
        hide Sum, Total, ChainInv, ApplyOn, Genuine, RowsAdvance;
        RowsStay(w.chains[e]);
      case Publish(dst, id) =>
        PublishSaleKeeps(w.chains[w.homeEid], dst, id);
        hide Sum, Total, ChainInv, PublishSale, Genuine, RowsAdvance;
        RowsStay(w.chains[e]);
      case Bridge(src, dst, from, to, amount, min, compose, now) =>
        SendKeeps(w.chains[src], dst, from, to, amount, min, compose, now);
        hide Sum, Total, ChainInv, Send, Genuine, RowsAdvance;
        RowsStay(w.chains[e]);
      case Deliver(k, to, now) =>
        ReceiveKeeps(w, k, to, now);
        hide Sum, Total, ChainInv, Receive, Genuine, RowsAdvance;
        RowsStay(w.chains[e]);
    } else {
      RowsStay(w.chains[e]);
    }
  }

  lemma RowsStay(c: Chain)
    ensures RowsAdvance(c, c)
  {
  }

  /** A row without GRS, on the home book or on a spoke, is never open again. */
  lemma {:induction false} ClosedForGood(w: World, actions: seq<Action>, e: Eid, id: nat)
    requires WorldInv(w) && e in w.chains && id in w.chains[e].rows && w.chains[e].rows[id].grsAmount == 0
    ensures e in Run(w, actions).chains && id in Run(w, actions).chains[e].rows
    ensures Run(w, actions).chains[e].rows[id].grsAmount == 0 && Run(w, actions).homeEid == w.homeEid
    decreases |actions|
  {
    if actions != [] {
      ExecAdvances(w, actions[0], e);
      ExecKeeps(w, actions[0]);
      hide WorldInv, Exec;
      ClosedForGood(Exec(w, actions[0]), actions[1..], e, id);
    }
  }

  /**
   * The open lot of an id is published at most once: whatever happens afterwards, publishing that id again sends a
   * row without GRS, and mints nothing anywhere.
   */
  lemma PublishedOnce(w: World, before: seq<Action>, dst: Eid, id: U64, between: seq<Action>, dst': Eid)
    requires Initial(w)
    requires var published := Run(w, before);
             && Apply(published, Publish(dst, id)).Ok?
             && Apply(Run(Exec(published, Publish(dst, id)), between), Publish(dst', id)).Ok?
    ensures var again := Run(Exec(Run(w, before), Publish(dst, id)), between);
            var end := Apply(again, Publish(dst', id)).value;
            && end.inFlight != [] && AmountOf(end.inFlight[|end.inFlight| - 1].message) == 0
            && end.homeEid in end.chains && again.homeEid in again.chains
            && end.chains[end.homeEid].supply == again.chains[again.homeEid].supply
  {
    InitialInv(w);
    RunKeeps(w, before);
    var published := Run(w, before);
    var sent := Exec(published, Publish(dst, id));
    assert Apply(published, Publish(dst, id)).value == sent;
    ExecKeeps(published, Publish(dst, id));
    var again := Run(sent, between);
    hide *;
    PublishCloses(published, dst, id);
    RunKeeps(sent, between);
    ClosedForGood(sent, between, published.homeEid, id);
    RepublishIsEmpty(again, dst', id);
  }

  lemma PublishCloses(w: World, dst: Eid, id: U64)
    requires WorldInv(w) && Apply(w, Publish(dst, id)).Ok?
    ensures var sent := Apply(w, Publish(dst, id)).value;
            && w.homeEid in sent.chains && id in sent.chains[w.homeEid].rows
            && sent.chains[w.homeEid].rows[id].grsAmount == 0
  {
    hide Sum, Total, ChainInv, PublishSale, Genuine;
    PublishSaleKeeps(w.chains[w.homeEid], dst, id);
  }

  lemma RepublishIsEmpty(w: World, dst: Eid, id: U64)
    requires WorldInv(w) && Apply(w, Publish(dst, id)).Ok?
    requires w.homeEid in w.chains && id in w.chains[w.homeEid].rows && w.chains[w.homeEid].rows[id].grsAmount == 0
    ensures var end := Apply(w, Publish(dst, id)).value;
            && end.inFlight != [] && AmountOf(end.inFlight[|end.inFlight| - 1].message) == 0
            && end.homeEid in end.chains && end.chains[end.homeEid].supply == w.chains[w.homeEid].supply
  {
    LastMessage(w, dst, id);
    hide Sum, Total, Backed, PublishSale, Genuine, AmountOf, Message;
    PublishSaleKeeps(w.chains[w.homeEid], dst, id);
    PublishedMessage(w.chains[w.homeEid], id);
  }

  lemma LastMessage(w: World, dst: Eid, id: U64)
    requires Apply(w, Publish(dst, id)).Ok?
    ensures w.homeEid in w.chains && id in w.chains[w.homeEid].rows
    ensures var end := Apply(w, Publish(dst, id)).value;
            && end.homeEid == w.homeEid && end.inFlight != []
            && end.inFlight[|end.inFlight| - 1].message == Message(id, w.chains[w.homeEid].rows[id])
            && w.homeEid in end.chains
            && end.chains[w.homeEid] == PublishSale(w.chains[w.homeEid], dst, id).value.0
  {
  }

  // ----- token transfers

  /** The message of a transfer carries what was burned and names who is to have it. */
  lemma BurnedIsCarried(w: World, send: Action)
    requires WorldInv(w) && send.Bridge? && Apply(w, send).Ok?
    ensures var sent := Apply(w, send).value;
            && send.src in w.chains && send.src in sent.chains && sent.inFlight != []
            && var e := sent.inFlight[|sent.inFlight| - 1];
               && e.dst == send.dst && |e.message| == OFT_MSG_LEN && !IsSale(e.message) && !IsGrant(e.message)
               && SendTo(e.message) == send.to
               && w.chains[send.src].supply == sent.chains[send.src].supply + AmountOf(e.message)
               && send.min <= AmountOf(e.message) <= send.amount
  {
    hide Sum, Total, ChainInv, Send, Genuine;
    SendKeeps(w.chains[send.src], send.dst, send.from, send.to, send.amount, send.min, send.compose, send.now);
  }

  /** Delivering a transfer mints what its message carries. */
  lemma CarriedIsMinted(w: World, k: nat, to: Key, now: U64)
    requires WorldInv(w) && Apply(w, Deliver(k, to, now)).Ok?
    requires var m := w.inFlight[k].message;
             |m| == OFT_MSG_LEN && !IsSale(m) && !IsGrant(m)
    ensures var e := w.inFlight[k];
            var end := Apply(w, Deliver(k, to, now)).value;
            && e.dst in w.chains && e.dst in end.chains && to == SendTo(e.message)
            && end.chains[e.dst].supply == w.chains[e.dst].supply + AmountOf(e.message)
            && Balance(end.chains[e.dst], to) == Balance(w.chains[e.dst], to) + AmountOf(e.message)
  {
    hide Sum, Total, ChainInv, ReceiveTransfer, Genuine;
    var e := w.inFlight[k];
    ReceiveTransferKeeps(w.chains[e.dst], e.src, AmountSD(e.message) * LD2SD_RATE, to, now);
  }

  /** What is burned for a transfer is exactly what its delivery mints, whenever that is, to the account named. */
  lemma BurnEqualsMint(w: World, actions: seq<Action>, send: Action, between: seq<Action>, k: nat, to: Key, now: U64)
    requires Initial(w) && send.Bridge? && Apply(Run(w, actions), send).Ok?
    requires var sent := Apply(Run(w, actions), send).value;
             var later := Run(sent, between);
             && k < |later.inFlight| && sent.inFlight != [] && later.inFlight[k] == sent.inFlight[|sent.inFlight| - 1]
             && Apply(later, Deliver(k, to, now)).Ok?
    ensures var start := Run(w, actions);
            var sent := Apply(start, send).value;
            var later := Run(sent, between);
            var end := Apply(later, Deliver(k, to, now)).value;
            && send.src in start.chains && send.src in sent.chains && send.dst in later.chains && send.dst in end.chains
            && to == send.to
            && var burned := start.chains[send.src].supply - sent.chains[send.src].supply;
               && send.min <= burned <= send.amount
               && end.chains[send.dst].supply == later.chains[send.dst].supply + burned
               && Balance(end.chains[send.dst], to) == Balance(later.chains[send.dst], to) + burned
  {
    InitialInv(w);
    RunKeeps(w, actions);
    var start := Run(w, actions);
    ExecKeeps(start, send);
    var sent := Apply(start, send).value;
    assert Exec(start, send) == sent;
    RunKeeps(sent, between);
    hide *;
    var later := Run(sent, between);
    BurnedIsCarried(start, send);
    CarriedIsMinted(later, k, to, now);
  }
}
