/** The peer limiters and the sale lots inside runs of the whole protocol. */
module GrsWindows {
  import opened Prelude
  import opened GrsTypes
  import opened MsgCodec
  import opened GrsChain
  import opened GrsInvariant
  import opened GrsWorld
  import opened GrsRuns
  import opened GrsEffects
  import Limits = RateLimiter
  import SalePricing

  // ----- what passes a peer's outbound limiter

  function Outbound(w: World, e: Eid, d: Eid): Option<Limits.Limiter> {
    if e in w.chains && d in w.chains[e].peers then w.chains[e].peers[d].outbound else None
  }

  /** The limiter calls that an action makes on the outbound bucket of `e` for the peer `d`. */
  function EventsOf(w: World, action: Action, e: Eid, d: Eid): seq<Limits.Event> {
    match Apply(w, action)
    case Err(_) => []
    case Ok(w') =>
      match action
      case Bridge(src, dst, _, _, _, _, _, now) =>
        if src == e && dst == d && w'.inFlight != [] then
          [Limits.Take(AmountOf(w'.inFlight[|w'.inFlight| - 1].message), now)]
        else []
      case Deliver(k, _, now) =>
        if k < |w.inFlight| && w.inFlight[k].dst == e && w.inFlight[k].src == d
           && !IsSale(w.inFlight[k].message) && !IsGrant(w.inFlight[k].message)
        then [Limits.Give(AmountOf(w.inFlight[k].message), now)] else []
      case _ => []
  }

  function AllEvents(w: World, actions: seq<Action>, e: Eid, d: Eid): seq<Limits.Event>
    decreases |actions|
  {
    if actions == [] then [] else EventsOf(w, actions[0], e, d) + AllEvents(Exec(w, actions[0]), actions[1..], e, d)
  }

  /** What was sent from `e` to `d` less what came back, over a run. */
  function Outflow(w: World, actions: seq<Action>, e: Eid, d: Eid): int {
    Amounts(AllEvents(w, actions, e, d))
  }

  function Amounts(events: seq<Limits.Event>): int {
    if events == [] then 0
    else
      (match events[0] case Take(amount, _) => amount as int case Give(amount, _) => -(amount as int) case _ => 0)
      + Amounts(events[1..])
  }

  /** Nobody reconfigures chain `e`. */
  predicate Unconfigured(actions: seq<Action>, e: Eid) {
    forall a :: a in actions ==> !(a.OnChain? && a.eid == e && a.op.Configure?)
  }

  lemma OnChainKeepsPeers(c: Chain, op: ChainOp)
    requires ApplyOn(c, op).Ok? && !op.Configure?
    ensures ApplyOn(c, op).value.peers == c.peers
  {
    hide SetSale, MintGenesis, Buy;
    match op
    case Genesis(to, mint) => GenesisKeepsPeers(c, to, mint);
    case Set(id, row) => SetSaleKeepsPeers(c, id, row);
    case BuyLot(id, buyer, to, amount) => BuyKeepsPeers(c, id, buyer, to, amount);
    case _ =>
  }

  lemma GenesisKeepsPeers(c: Chain, to: Key, mint: Mint)
    requires MintGenesis(c, to, mint).Ok?
    ensures MintGenesis(c, to, mint).value.peers == c.peers
  {
  }

  lemma SetSaleKeepsPeers(c: Chain, id: U64, row: Row)
    requires SetSale(c, id, row).Ok?
    ensures SetSale(c, id, row).value.peers == c.peers
  {
  }

  lemma BuyKeepsPeers(c: Chain, id: nat, buyer: Key, to: Key, amount: U64)
    requires Buy(c, id, buyer, to, amount).Ok?
    ensures Buy(c, id, buyer, to, amount).value.0.peers == c.peers
  {
    hide SalePricing.QuoteCost;
  }

  lemma ReceiveSaleKeepsPeers(c: Chain, sale: SaleMsg)
    requires ReceiveSale(c, sale).Ok?
    ensures ReceiveSale(c, sale).value.peers == c.peers
  {
    ReceiveSaleMoves(c, sale);
    hide ReceiveSale, Revoked;
  }

  lemma MeterOutTakes(peer: Peer, amount: nat, now: nat, l: Limits.Limiter)
    requires peer.outbound == Some(l) && MeterOut(peer, amount, now).Ok?
    ensures Limits.Consumed(l, amount, now).Ok?
    ensures MeterOut(peer, amount, now).value.outbound == Some(Limits.AfterAll(l, [Limits.Take(amount, now)]))
  {
    OneEvent(l, Limits.Take(amount, now));
    hide Limits.Consumed;
  }

  lemma MeterInGives(peer: Peer, amount: nat, now: nat, l: Limits.Limiter)
    requires peer.outbound == Some(l) && MeterIn(peer, amount, now).Ok?
    ensures MeterIn(peer, amount, now).value.outbound == Some(Limits.AfterAll(l, [Limits.Give(amount, now)]))
  {
    OneEvent(l, Limits.Give(amount, now));
    hide Limits.Consumed, Limits.Refilled;
  }

  lemma OneEvent(l: Limits.Limiter, e: Limits.Event)
    ensures Limits.AfterAll(l, [e]) == Limits.After(l, e) && Limits.Net(l, [e]) == Limits.Moved(l, e)
  {
    assert [e][1..] == [];
  }

  /** Every event of the list was accepted where it stands. */
  predicate AllTaken(l: Limits.Limiter, events: seq<Limits.Event>)
    decreases |events|
  {
    events == []
    || ((events[0].Take? ==> Limits.Consumed(l, events[0].amount, events[0].now).Ok?)
        && AllTaken(Limits.After(l, events[0]), events[1..]))
  }

  lemma OneTaken(l: Limits.Limiter, e: Limits.Event)
    requires e.Take? ==> Limits.Consumed(l, e.amount, e.now).Ok?
    ensures AllTaken(l, [e])
  {
    assert [e][1..] == [];
  }

  lemma BridgeEvents(w: World, action: Action, e: Eid, d: Eid, l: Limits.Limiter)
    requires WorldInv(w) && action.Bridge? && Outbound(w, e, d) == Some(l) && Apply(w, action).Ok?
    ensures var events := EventsOf(w, action, e, d);
            && Limits.SettingsFixed(events) && AllTaken(l, events)
            && Outbound(Exec(w, action), e, d) == Some(Limits.AfterAll(l, events))
  {
    var Bridge(src, dst, from, to, amount, min, compose, now) := action;
    var c := w.chains[src];
    var (c', message) := Send(c, dst, from, to, amount, min, compose, now).value;
    SendPeers(c, dst, from, to, amount, min, compose, now);
    hide Send, WorldInv, MeterOut, Limits.Consumed, Limits.AfterAll, AmountOf;
    if src == e && dst == d {
      CarriedIsBurned(c, dst, from, to, amount, min, compose, now) by {
        assert WorldInv(w);
        ChainOf(w, e);
      }
      SendMeters(c, dst, from, to, amount, min, compose, now);
      MeterOutTakes(c.peers[d], c.supply - c'.supply, now, l);
      OneTaken(l, Limits.Take(c.supply - c'.supply, now));
    } else {
      NoEvents(l);
    }
  }

  lemma ChainOf(w: World, e: Eid)
    requires WorldInv(w) && e in w.chains
    ensures ChainInv(w.chains[e])
  {
  }

  lemma CarriedIsBurned(c: Chain, dst: Eid, from: Key, to: Key, amount: U64, min: nat, compose: Option<Bytes>, now: nat)
    requires ChainInv(c) && Send(c, dst, from, to, amount, min, compose, now).Ok?
    ensures var (c', message) := Send(c, dst, from, to, amount, min, compose, now).value;
            c'.supply <= c.supply && AmountOf(message) == c.supply - c'.supply
  {
    SendKeeps(c, dst, from, to, amount, min, compose, now);
    hide Send, ChainInv;
  }

  lemma SendMeters(c: Chain, dst: Eid, from: Key, to: Key, amount: U64, min: nat, compose: Option<Bytes>, now: nat)
    requires Send(c, dst, from, to, amount, min, compose, now).Ok?
    ensures var (c', message) := Send(c, dst, from, to, amount, min, compose, now).value;
            && dst in c.peers && c'.supply <= c.supply
            && MeterOut(c.peers[dst], c.supply - c'.supply, now).Ok?
            && dst in c'.peers && c'.peers[dst] == MeterOut(c.peers[dst], c.supply - c'.supply, now).value
  {
    SendDoes(c, dst, from, to, amount, min, compose, now);
    hide MeterOut, TransferBytes;
  }

  lemma NoEvents(l: Limits.Limiter)
    ensures Limits.AfterAll(l, []) == l
  {
  }

  lemma SendPeers(c: Chain, dst: Eid, from: Key, to: Key, amount: U64, min: nat, compose: Option<Bytes>, now: nat)
    requires Send(c, dst, from, to, amount, min, compose, now).Ok?
    ensures var (c', _) := Send(c, dst, from, to, amount, min, compose, now).value;
            dst in c'.peers && c'.peers == c.peers[dst := c'.peers[dst]]
  {
    hide MeterOut, TransferBytes, FeeOn;
  }

  lemma DeliverEvents(w: World, action: Action, e: Eid, d: Eid, l: Limits.Limiter)
    requires WorldInv(w) && action.Deliver? && Outbound(w, e, d) == Some(l) && Apply(w, action).Ok?
    ensures var events := EventsOf(w, action, e, d);
            && Limits.SettingsFixed(events) && AllTaken(l, events)
            && Outbound(Exec(w, action), e, d) == Some(Limits.AfterAll(l, events))
  {
    var Deliver(k, to, now) := action;
    var envelope := w.inFlight[k];
    var c := w.chains[envelope.dst];
    var m := envelope.message;
    assert Genuine(w, envelope);
    NoEvents(l);
    hide WorldInv, ReceiveSale, ReceiveGrant, ReceiveTransfer, MeterIn, Limits.Consumed, Limits.AfterAll, Genuine;
    if IsSale(m) {
      ReceiveSaleKeepsPeers(c, DecodeSale(m).value);
    } else {
      var amount := AmountSD(m) * LD2SD_RATE;
      TransferPeers(c, envelope.src, amount, to, now);
      if envelope.dst == e && envelope.src == d {
        MeterInGives(c.peers[d], amount, now, l);
        OneTaken(l, Limits.Give(amount, now));
      }
    }
  }

  lemma TransferPeers(c: Chain, src: Eid, amount: nat, to: Key, now: nat)
    requires src in c.peers && ReceiveTransfer(c, src, amount, to, now).Ok?
    ensures MeterIn(c.peers[src], amount, now).Ok?
    ensures ReceiveTransfer(c, src, amount, to, now).value.peers
         == c.peers[src := MeterIn(c.peers[src], amount, now).value]
  {
    hide MeterIn;
  }

  lemma StepEvents(w: World, action: Action, e: Eid, d: Eid, l: Limits.Limiter)
    requires WorldInv(w) && Outbound(w, e, d) == Some(l)
    requires !(action.OnChain? && action.eid == e && action.op.Configure?)
    ensures var events := EventsOf(w, action, e, d);
            && Limits.SettingsFixed(events) && AllTaken(l, events)
            && Outbound(Exec(w, action), e, d) == Some(Limits.AfterAll(l, events))
  {
    NoEvents(l);
    hide WorldInv, Limits.AfterAll, PublishSale, ApplyOn, Send, Receive;
    if Apply(w, action).Ok? {
      match action
      case OnChain(eid, op) =>
        if eid == e {
          OnChainKeepsPeers(w.chains[e], op);
        }
      case Publish(dst, id) => PublishKeepsPeers(w.chains[w.homeEid], dst, id);
      case Bridge(_, _, _, _, _, _, _, _) => BridgeEvents(w, action, e, d, l);
      case Deliver(_, _, _) => DeliverEvents(w, action, e, d, l);
    }
  }

  lemma PublishKeepsPeers(c: Chain, dst: Eid, id: U64)
    requires PublishSale(c, dst, id).Ok?
    ensures PublishSale(c, dst, id).value.0.peers == c.peers
  {
    hide Message;
  }

  lemma {:induction false} AfterConcat(l: Limits.Limiter, first: seq<Limits.Event>, rest: seq<Limits.Event>)
    ensures Limits.AfterAll(l, first + rest) == Limits.AfterAll(Limits.AfterAll(l, first), rest)
    ensures AllTaken(l, first) && AllTaken(Limits.AfterAll(l, first), rest) ==> AllTaken(l, first + rest)
    decreases |first|
  {
    hide Limits.After, Limits.Consumed;
    if first == [] {
      assert first + rest == rest;
    } else {
      assert (first + rest)[1..] == first[1..] + rest;
      AfterConcat(Limits.After(l, first[0]), first[1..], rest);
    }
  }

  lemma {:induction false} RunEvents(w: World, actions: seq<Action>, e: Eid, d: Eid, l: Limits.Limiter)
    requires WorldInv(w) && Outbound(w, e, d) == Some(l) && Unconfigured(actions, e)
    ensures var events := AllEvents(w, actions, e, d);
            && Limits.SettingsFixed(events) && AllTaken(l, events)
            && Outbound(Run(w, actions), e, d) == Some(Limits.AfterAll(l, events))
    decreases |actions|
  {
    if actions == [] {
      NoEvents(l);
    } else {
      var action, next := actions[0], Exec(w, actions[0]);
      assert action in actions;
      hide WorldInv, Exec, EventsOf, Limits.AfterAll, Outbound;
      StepEvents(w, action, e, d, l);
      ExecKeeps(w, action);
      var events := EventsOf(w, action, e, d);
      RunEvents(next, actions[1..], e, d, Limits.AfterAll(l, events));
      AfterConcat(l, events, AllEvents(next, actions[1..], e, d));
    }
  }

  lemma {:induction false} NetIsAmounts(l: Limits.Limiter, events: seq<Limits.Event>)
    requires AllTaken(l, events)
    ensures Limits.Net(l, events) == Amounts(events)
    decreases |events|
  {
    hide Limits.After, Limits.Consumed;
    if events != [] {
      NetIsAmounts(Limits.After(l, events[0]), events[1..]);
    }
  }

  /**
   * Over any run of the protocol in which chain `e` is not reconfigured, what `e` sends to `d` less what comes back
   * from there is at most what the bucket held and its refill over the time that passed and what the clock went back;
   * with a clock that does not go back, at most the capacity and the refill.
   */
  lemma OutboundWindow(w: World, before: seq<Action>, actions: seq<Action>, e: Eid, d: Eid, l: Limits.Limiter)
    requires Initial(w) && Outbound(Run(w, before), e, d) == Some(l) && Unconfigured(actions, e)
    ensures var start := Run(w, before);
            var events := AllEvents(start, actions, e, d);
            && Outbound(Run(start, actions), e, d).Some?
            && var end := Outbound(Run(start, actions), e, d).value;
               var elapsed := end.lastRefillTime - l.lastRefillTime;
               && Outflow(start, actions, e, d) + end.tokens
                  <= l.tokens + (elapsed + Limits.Setback(l, events)) * l.refillPerSecond
               && (Limits.ClockForward(l, events) && l.tokens <= l.capacity
                   ==> Outflow(start, actions, e, d) <= l.capacity + elapsed * l.refillPerSecond)
  {
    hide *;
    InitialInv(w);
    RunKeeps(w, before);
    var start := Run(w, before);
    RunEvents(start, actions, e, d, l);
    var events := AllEvents(start, actions, e, d);
    OutflowIs(start, actions, e, d);
    NetIsAmounts(l, events);
    Limits.WindowBound(l, events);
  }

  lemma OutflowIs(w: World, actions: seq<Action>, e: Eid, d: Eid)
    ensures Outflow(w, actions, e, d) == Amounts(AllEvents(w, actions, e, d))
  {
  }

  // ----- one lot through a run

  function LotOf(row: Row): SalePricing.Lot {
    SalePricing.Lot(row.assetAmount, row.grsAmount)
  }

  /** The fill of lot `id` on chain `e` that an action makes, if it makes one. */
  function FillOf(w: World, action: Action, e: Eid, id: nat): seq<nat> {
    if action.OnChain? && action.eid == e && action.op.BuyLot? && action.op.id == id && Apply(w, action).Ok?
    then [action.op.amount] else []
  }

  function FillsOf(w: World, actions: seq<Action>, e: Eid, id: nat): seq<nat>
    decreases |actions|
  {
    if actions == [] then [] else FillOf(w, actions[0], e, id) + FillsOf(Exec(w, actions[0]), actions[1..], e, id)
  }

  /** What the buyers of lot `id` on chain `e` paid over a run. */
  function Collected(w: World, actions: seq<Action>, e: Eid, id: nat): int
    decreases |actions|
  {
    if actions == [] then 0
    else
      (if FillOf(w, actions[0], e, id) != [] then PaidBy(w, actions[0]) else 0)
      + Collected(Exec(w, actions[0]), actions[1..], e, id)
  }

  /** The price returned by an accepted fill. */
  function PaidBy(w: World, action: Action): nat {
    if action.OnChain? && action.op.BuyLot? && action.eid in w.chains then
      match Buy(w.chains[action.eid], action.op.id, action.op.buyer, action.op.to, action.op.amount)
      case Ok((_, cost)) => cost
      case Err(_) => 0
    else 0
  }

  /** The action neither closes the lot, nor publishes it, nor delivers a message about it. */
  predicate LeavesLot(w: World, action: Action, e: Eid, id: nat) {
    && !(action.OnChain? && action.eid == e && action.op.Set? && action.op.id == id)
    && !(action.Publish? && w.homeEid == e && action.id == id)
    && !(action.Deliver? && action.k < |w.inFlight| && w.inFlight[action.k].dst == e
         && IsSale(w.inFlight[action.k].message) && DecodeSale(w.inFlight[action.k].message).Ok?
         && DecodeSale(w.inFlight[action.k].message).value.id == id)
  }

  predicate AllLeaveLot(w: World, actions: seq<Action>, e: Eid, id: nat)
    decreases |actions|
  {
    actions == [] || (LeavesLot(w, actions[0], e, id) && AllLeaveLot(Exec(w, actions[0]), actions[1..], e, id))
  }

  lemma OnChainRow(c: Chain, op: ChainOp, id: nat)
    requires ApplyOn(c, op).Ok? && BookCovered(c) && id in c.rows
    requires !(op.Set? && op.id == id) && !(op.BuyLot? && op.id == id)
    ensures id in ApplyOn(c, op).value.rows && ApplyOn(c, op).value.rows[id] == c.rows[id]
  {
    hide SalePricing.QuoteCost;
  }

  lemma RowStep(w: World, action: Action, e: Eid, id: nat)
    requires WorldInv(w) && e in w.chains && id in w.chains[e].rows && LeavesLot(w, action, e, id)
    ensures var w' := Exec(w, action);
            && e in w'.chains && id in w'.chains[e].rows
            && var (lot, paid) := SalePricing.Sell(LotOf(w.chains[e].rows[id]), FillOf(w, action, e, id));
               && LotOf(w'.chains[e].rows[id]) == lot
               && paid == if FillOf(w, action, e, id) != [] then PaidBy(w, action) else 0
  {
    var c := w.chains[e];
    NoFill(LotOf(c.rows[id]));
    if Apply(w, action).Ok? {
      assert ChainInv(c);
      match action
      case OnChain(eid, op) =>
        if eid == e {
          if op.BuyLot? && op.id == id {
            OneFill(c, id, op.buyer, op.to, op.amount);
          } else {
            hide WorldInv, ApplyOn, SalePricing.Sell, ChainInv, BookCovered;
            OnChainRow(c, op, id) by {
              CoveredBook(c);
            }
          }
        }
      case Publish(dst, j) =>
        PublishSaleDoes(w.chains[w.homeEid], dst, j);
        hide WorldInv, PublishSale, SalePricing.Sell, ChainInv;
      case Bridge(src, dst, from, to, amount, min, compose, now) =>
        SendDoes(w.chains[src], dst, from, to, amount, min, compose, now);
        hide WorldInv, Send, SalePricing.Sell, ChainInv;
      case Deliver(k, to, now) => DeliverRow(w, k, to, now, e, id);
    }
  }

  lemma CoveredBook(c: Chain)
    requires ChainInv(c)
    ensures BookCovered(c)
  {
  }

  lemma DeliverRow(w: World, k: nat, to: Key, now: U64, e: Eid, id: nat)
    requires WorldInv(w) && e in w.chains && id in w.chains[e].rows && LeavesLot(w, Deliver(k, to, now), e, id)
    requires Apply(w, Deliver(k, to, now)).Ok?
    ensures var w' := Exec(w, Deliver(k, to, now));
            e in w'.chains && id in w'.chains[e].rows && w'.chains[e].rows[id] == w.chains[e].rows[id]
  {
    var envelope := w.inFlight[k];
    var c := w.chains[envelope.dst];
    assert Genuine(w, envelope);
    hide WorldInv, ReceiveSale, ReceiveTransfer, ReceiveGrant, Genuine;
    if IsSale(envelope.message) {
      ReceiveSaleDoes(c, DecodeSale(envelope.message).value);
    } else {
      ReceiveTransferDoes(c, envelope.src, AmountSD(envelope.message) * LD2SD_RATE, to, now);
    }
  }

  lemma NoFill(lot: SalePricing.Lot)
    ensures SalePricing.Sell(lot, []) == (lot, 0)
  {
  }

  lemma OneFill(c: Chain, id: nat, buyer: Key, to: Key, amount: U64)
    requires Buy(c, id, buyer, to, amount).Ok?
    ensures var (c', cost) := Buy(c, id, buyer, to, amount).value;
            && id in c.rows && id in c'.rows
            && SalePricing.Sell(LotOf(c.rows[id]), [amount]) == (LotOf(c'.rows[id]), cost)
  {
    BuyDoes(c, id, buyer, to, amount);
    hide Buy, SalePricing.QuoteCost;
    assert [amount][1..] == [];
  }

  lemma {:induction false} SellConcat(lot: SalePricing.Lot, first: seq<nat>, rest: seq<nat>)
    ensures var (middle, a) := SalePricing.Sell(lot, first);
            var (end, b) := SalePricing.Sell(middle, rest);
            SalePricing.Sell(lot, first + rest) == (end, a + b)
    decreases |first|
  {
    hide SalePricing.Fill;
    if first == [] {
      assert first + rest == rest;
    } else {
      assert (first + rest)[1..] == first[1..] + rest;
      SellConcat(SalePricing.Fill(lot, first[0]).0, first[1..], rest);
    }
  }

  lemma NothingRun(w: World, e: Eid, id: nat)
    ensures Run(w, []) == w && FillsOf(w, [], e, id) == [] && Collected(w, [], e, id) == 0
  {
  }

  lemma Unfold(w: World, actions: seq<Action>, e: Eid, id: nat)
    requires actions != []
    ensures var next, rest := Exec(w, actions[0]), actions[1..];
            && Run(w, actions) == Run(next, rest)
            && FillsOf(w, actions, e, id) == FillOf(w, actions[0], e, id) + FillsOf(next, rest, e, id)
            && (AllLeaveLot(w, actions, e, id) ==> LeavesLot(w, actions[0], e, id) && AllLeaveLot(next, rest, e, id))
            && Collected(w, actions, e, id)
               == (if FillOf(w, actions[0], e, id) != [] then PaidBy(w, actions[0]) else 0)
                  + Collected(next, rest, e, id)
  {
    hide Exec, FillOf, PaidBy, LeavesLot;
  }

  /** Through a run that leaves the lot alone but for fills, the row is exactly the lot sold in those portions. */
  lemma {:induction false} RowIsSold(w: World, actions: seq<Action>, e: Eid, id: nat)
    requires WorldInv(w) && e in w.chains && id in w.chains[e].rows && AllLeaveLot(w, actions, e, id)
    ensures var end := Run(w, actions);
            && e in end.chains && id in end.chains[e].rows
            && SalePricing.Sell(LotOf(w.chains[e].rows[id]), FillsOf(w, actions, e, id))
               == (LotOf(end.chains[e].rows[id]), Collected(w, actions, e, id))
    decreases |actions|
  {
    hide *;
    var lot := LotOf(w.chains[e].rows[id]);
    if actions == [] {
      NothingRun(w, e, id);
      NoFill(lot);
    } else {
      var next, rest := Exec(w, actions[0]), actions[1..];
      Unfold(w, actions, e, id);
      RowStep(w, actions[0], e, id);
      ExecKeeps(w, actions[0]);
      RowIsSold(next, rest, e, id);
      SellConcat(lot, FillOf(w, actions[0], e, id), FillsOf(next, rest, e, id));
    }
  }

  /**
   * From an open lot on, whatever else happens on any chain: what its buyers paid and what it still asks for add up
   * to what it asked for at the start, the price per remaining unit never falls, and sold out it collected it all.
   */
  lemma LotTelescopes(w: World, before: seq<Action>, actions: seq<Action>, e: Eid, id: nat)
    requires Initial(w)
    requires var start := Run(w, before);
             && e in start.chains && id in start.chains[e].rows && start.chains[e].rows[id].grsAmount > 0
             && AllLeaveLot(start, actions, e, id)
    ensures var start := Run(w, before);
            var end := Run(start, actions);
            && e in end.chains && id in end.chains[e].rows
            && var row, row' := start.chains[e].rows[id], end.chains[e].rows[id];
               && Collected(start, actions, e, id) + row'.assetAmount == row.assetAmount
               && SalePricing.NoCheaper(LotOf(row), LotOf(row'))
               && (row'.grsAmount == 0 <==> row'.assetAmount == 0)
               && (row'.grsAmount == 0 ==> Collected(start, actions, e, id) == row.assetAmount)
  {
    InitialInv(w);
    RunKeeps(w, before);
    var start := Run(w, before);
    var lot := LotOf(start.chains[e].rows[id]);
    OpenLotHasPrice(start, e, id);
    RowIsSold(start, actions, e, id);
    SalePricing.SellTelescopes(lot, FillsOf(start, actions, e, id));
    hide Run, SalePricing.Sell, FillsOf, Collected, WorldInv;
  }

  lemma OpenLotHasPrice(w: World, e: Eid, id: nat)
    requires WorldInv(w) && e in w.chains && id in w.chains[e].rows && w.chains[e].rows[id].grsAmount > 0
    ensures w.chains[e].rows[id].assetAmount > 0
  {
    assert ChainInv(w.chains[e]);
  }
}
