/** The home chain, its spokes and the messages between them. */
module GrsWorld {
  import opened Prelude
  import opened Sums
  import opened GrsTypes
  import opened MsgCodec
  import opened GrsChain
  import opened GrsInvariant

  datatype Envelope = Envelope(src: Eid, dst: Eid, message: Bytes)

  /**
   * Messages are delivered in any order and at most once. `retired` is history: all GRS that holders burned, that a
   * close burned on a spoke, or whose lot was closed before its opening arrived.
   */
  datatype World = World(homeEid: Eid, chains: map<Eid, Chain>, inFlight: seq<Envelope>, retired: nat)

  datatype ChainOp =
    | Genesis(to: Key, mint: Mint)
    | Set(id: U64, row: Row)
    | BuyLot(id: U64, buyer: Key, to: Key, amount: U64)
    | Fund(asset: Key, owner: Key, amount: U64)
    | BurnTokens(u: Key, amount: U64)
    | Move(from: Key, to: Key, amount: U64)
    | StockEscrow(from: Key, amount: U64)
    | Configure(paused: bool, defaultFeeBps: FeeBps, peers: map<Eid, Peer>)

  datatype Action =
    | OnChain(eid: Eid, op: ChainOp)
    | Publish(dst: Eid, id: U64)
    | Bridge(src: Eid, dst: Eid, from: Key, to: Key, amount: U64, min: U64, compose: Option<Bytes>,
             now: U64)
    | Deliver(k: nat, to: Key, now: U64)

  function ApplyOn(c: Chain, op: ChainOp): Step {
    match op
    case Genesis(to, mint) => MintGenesis(c, to, mint)
    case Set(id, row) => SetSale(c, id, row)
    case BuyLot(id, buyer, to, amount) =>
      var (c', _) :- Buy(c, id, buyer, to, amount);
      Ok(c')
    case Fund(asset, owner, amount) => FundQuote(c, asset, owner, amount)
    case BurnTokens(u, amount) => Burn(c, u, amount)
    case Move(from, to, amount) => Transfer(c, from, to, amount)
    case StockEscrow(from, amount) => Stock(c, from, amount)
    case Configure(paused, fee, peers) => Ok(c.(paused := paused, defaultFeeBps := fee, peers := peers))
  }

  /** What delivering a message takes out of circulation. */
  function RevokedBy(c: Chain, message: Bytes): nat {
    if IsSale(message) && DecodeSale(message).Ok? then Revoked(c, DecodeSale(message).value) else 0
  }

  function Apply(w: World, action: Action): Result<World, GrsError> {
    match action
    case OnChain(eid, op) =>
      if eid !in w.chains then Err(UnknownPeer)
      else
        var c :- ApplyOn(w.chains[eid], op);
        Ok(w.(chains := w.chains[eid := c], retired := w.retired + (if op.BurnTokens? then op.amount else 0)))
    case Publish(dst, id) =>
      if w.homeEid !in w.chains then Err(UnknownPeer)
      else
        var (c, message) :- PublishSale(w.chains[w.homeEid], dst, id);
        Ok(w.(chains := w.chains[w.homeEid := c], inFlight := w.inFlight + [Envelope(w.homeEid, dst, message)]))
    case Bridge(src, dst, from, to, amount, min, compose, now) =>
      if src !in w.chains then Err(UnknownPeer)
      else
        var (c, message) :- Send(w.chains[src], dst, from, to, amount, min, compose, now);
        Ok(w.(chains := w.chains[src := c], inFlight := w.inFlight + [Envelope(src, dst, message)]))
    case Deliver(k, to, now) =>
      if k >= |w.inFlight| || w.inFlight[k].dst !in w.chains then Err(UnknownPeer)
      else
        var e := w.inFlight[k];
        var c := w.chains[e.dst];
        var c' :- Receive(c, e.src, e.message, to, now);
        Ok(w.(chains := w.chains[e.dst := c'],
              inFlight := w.inFlight[..k] + w.inFlight[k + 1..],
              retired := w.retired + RevokedBy(c, e.message)))
  }

  /** A failed action changes nothing; a message that was refused stays in flight. */
  function Exec(w: World, action: Action): World {
    match Apply(w, action)
    case Ok(w') => w'
    case Err(_) => w
  }

  function Run(w: World, actions: seq<Action>): World
    decreases |actions|
  {
    if actions == [] then w else Run(Exec(w, actions[0]), actions[1..])
  }

  // ----- the invariant

  /** The GRS a message carries. */
  function AmountOf(message: Bytes): nat {
    if IsSale(message) then (match DecodeSale(message) case Ok(s) => s.grsAmount case Err(_) => 0)
    else if IsGrant(message) then (match DecodeGrant(message) case Ok(g) => g.amount case Err(_) => 0)
    else if |message| >= OFT_MSG_LEN then AmountSD(message) * LD2SD_RATE
    else 0
  }

  function Carries(e: Envelope): int {
    AmountOf(e.message)
  }

  function SupplyOf(c: Chain): int {
    c.supply
  }

  /** Whether the message opens lot `id`, as a count. */
  function Opens(message: Bytes, id: nat): nat {
    if IsSale(message) && DecodeSale(message).Ok? && DecodeSale(message).value.id == id
       && DecodeSale(message).value.grsAmount > 0
    then 1 else 0
  }

  function OpensLot(id: nat): Envelope -> int {
    (e: Envelope) => Opens(e.message, id)
  }

  function LiveLot(id: nat): Chain -> int {
    (c: Chain) => Live(c, id)
  }

  /** In how many places lot `id` is open: on the home book, in a message, or on a spoke. */
  ghost function Places(w: World, id: nat): int {
    Sum(w.chains, LiveLot(id)) + Total(w.inFlight, OpensLot(id))
  }

  /** Everything there is: on chains, under way, and retired. */
  ghost function AllGrs(w: World): int {
    Sum(w.chains, SupplyOf) + Total(w.inFlight, Carries) + w.retired
  }

  /** Messages the program itself sent: a published row of the home book, or a token transfer. */
  predicate Genuine(w: World, e: Envelope)
    requires w.homeEid in w.chains
  {
    if IsSale(e.message) then
      && DecodeSale(e.message).Ok?
      && (var s := DecodeSale(e.message).value;
          s.id <= w.chains[w.homeEid].saleCount && (s.grsAmount > 0 ==> s.assetAmount > 0))
    else |e.message| == OFT_MSG_LEN && !IsGrant(e.message)
  }

  ghost predicate WorldInv(w: World) {
    && w.homeEid in w.chains
    && (forall e :: e in w.chains ==>
          && ChainInv(w.chains[e]) && (w.chains[e].home <==> e == w.homeEid)
          && w.chains[e].saleCount <= w.chains[w.homeEid].saleCount)
    && (forall k :: 0 <= k < |w.inFlight| ==> Genuine(w, w.inFlight[k]))
    && (forall id :: Places(w, id) <= 1)
    && AllGrs(w) == if w.chains[w.homeEid].genesisMinted then MAX_SUPPLY_LD else 0
  }

  /** Chains as they are initialised: no token, no sale and no message yet. */
  predicate Initial(w: World) {
    && w.homeEid in w.chains && w.inFlight == [] && w.retired == 0
    && forall e :: e in w.chains ==>
         var c := w.chains[e];
         && (c.home <==> e == w.homeEid) && !c.genesisMinted
         && c.supply == 0 && c.wallets == map[] && c.saleEscrow == c.feeEscrow == c.vestEscrow == 0
         && c.rows == map[] && c.saleCount == 0 && c.reserved == c.spent == c.vestingCount == 0
  }

  lemma InitialInv(w: World)
    requires Initial(w)
    ensures WorldInv(w)
  {
    SumOfZeros(w.chains, SupplyOf);
    forall id
      ensures Places(w, id) <= 1
    {
      SumOfZeros(w.chains, LiveLot(id));
    }
    forall e | e in w.chains
      ensures ChainInv(w.chains[e])
    {
    }
  }

  // ----- changing one chain

  /** What a step on one chain may do as far as the world is concerned. */
  ghost predicate Steps(c: Chain, c': Chain) {
    ChainInv(c') && RowsAdvance(c, c')
  }

  lemma OneChain(w: World, e: Eid, c': Chain, id: nat)
    requires e in w.chains
    ensures Sum(w.chains[e := c'], SupplyOf) == Sum(w.chains, SupplyOf) - w.chains[e].supply + c'.supply
    ensures Sum(w.chains[e := c'], LiveLot(id)) == Sum(w.chains, LiveLot(id)) - Live(w.chains[e], id) + Live(c', id)
  {
    hide Sum;
    SumUpdate<Eid, Chain>(w.chains, e, c', SupplyOf);
    SumUpdate<Eid, Chain>(w.chains, e, c', LiveLot(id));
  }

  /** The structural half of the invariant survives a step of one chain, whatever happens to the messages. */
  lemma ChainStepKeeps(w: World, e: Eid, c': Chain, w': World)
    requires WorldInv(w) && e in w.chains && Steps(w.chains[e], c')
    requires w'.chains == w.chains[e := c'] && w'.homeEid == w.homeEid
    requires e == w.homeEid || c'.saleCount <= w.chains[w.homeEid].saleCount
    requires forall k :: 0 <= k < |w'.inFlight| ==> w'.inFlight[k] in w.inFlight || Genuine(w', w'.inFlight[k])
    requires forall id :: Places(w', id) <= 1
    requires AllGrs(w') == if w'.chains[w.homeEid].genesisMinted then MAX_SUPPLY_LD else 0
    ensures WorldInv(w')
  {
    hide Sum, Total, ChainInv, Places, AllGrs;
    forall k | 0 <= k < |w'.inFlight|
      ensures Genuine(w', w'.inFlight[k])
    {
      if w'.inFlight[k] in w.inFlight {
        assert Genuine(w, w'.inFlight[k]);
      }
    }
  }

  /** A lot is open in at least as many places as any of them alone shows. */
  lemma PlacesAtLeast(w: World, e: Eid, id: nat)
    requires e in w.chains
    ensures 0 <= Live(w.chains[e], id) <= Places(w, id)
    ensures forall k :: 0 <= k < |w.inFlight| ==> Live(w.chains[e], id) + Opens(w.inFlight[k].message, id) <= Places(w, id)
  {
    hide Sum, Total;
    SumAtLeast<Eid, Chain>(w.chains, e, LiveLot(id));
    TotalNonNegative(w.inFlight, OpensLot(id));
    forall k | 0 <= k < |w.inFlight|
      ensures Live(w.chains[e], id) + Opens(w.inFlight[k].message, id) <= Places(w, id)
    {
      TotalAtLeast(w.inFlight, k, OpensLot(id));
    }
  }
}
