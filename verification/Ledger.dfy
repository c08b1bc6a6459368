// The balance ledger and the risk decisions, as functions of the store.
module Ledger {
  import opened Orders
  import opened QuoteMath
  import Shards

  datatype Key = Key(user: nat, asset: nat)

  datatype Balance = Balance(available: nat, locked: nat)

  // b is a with `locked` more locked funds and `total` more funds in all.
  predicate Shifted(a: Balance, b: Balance, locked: int, total: int) {
    b.locked == a.locked + locked && b.available + b.locked == a.available + a.locked + total
  }

  type Store = map<Key, Balance>

  datatype Error =
    | InsufficientAvailableFunds(available: nat, needed: nat)
    | InsufficientLockedFunds(locked: nat, needed: nat)
    | Overflow
    | InvalidArguments
    | MarketSpecNotFound

  datatype Result = Ok | Err(error: Error)

  // A store operation: the new store and what the caller is told.
  datatype Posting = Posting(store: Store, result: Result)

  function Get(s: Store, k: Key): Balance {
    if k in s then s[k] else Balance(0, 0)
  }

  // Every operation creates a missing entry, also when it fails.
  function LockFunds(s: Store, k: Key, amount: nat): Posting {
    var b := Get(s, k);
    if b.available >= amount then
      Posting(s[k := Balance(b.available - amount, Wrap64(b.locked + amount))], Ok)
    else
      Posting(s[k := b], Err(InsufficientAvailableFunds(b.available, amount)))
  }

  function UnlockFunds(s: Store, k: Key, amount: nat): Posting {
    var b := Get(s, k);
    if b.locked >= amount then
      Posting(s[k := Balance(Wrap64(b.available + amount), b.locked - amount)], Ok)
    else
      Posting(s[k := b], Err(InsufficientLockedFunds(b.locked, amount)))
  }

  function AddFunds(s: Store, k: Key, amount: nat): Posting {
    var b := Get(s, k);
    if b.available + amount <= U64_MAX then
      Posting(s[k := Balance(b.available + amount, b.locked)], Ok)
    else
      Posting(s[k := b], Err(Overflow))
  }

  function SubtractFunds(s: Store, k: Key, amount: nat): Posting {
    var b := Get(s, k);
    if b.available >= amount then
      Posting(s[k := Balance(b.available - amount, b.locked)], Ok)
    else
      Posting(s[k := b], Err(InsufficientAvailableFunds(b.available, amount)))
  }

  function SubtractLockedFunds(s: Store, k: Key, amount: nat): Posting {
    var b := Get(s, k);
    if b.locked >= amount then
      Posting(s[k := Balance(b.available, b.locked - amount)], Ok)
    else
      Posting(s[k := b], Err(InsufficientLockedFunds(b.locked, amount)))
  }

  // --- Specifications -----------------------------------------------------------------

  function FindSpec(specs: seq<Spec>, market: nat): Option<Spec> {
    if specs == [] then None
    else if specs[0].market == market then Some(specs[0])
    else FindSpec(specs[1..], market)
  }

  // --- Reservation ---------------------------------------------------------------------

  // What an order holds: quote currency for a bid, base currency for an ask.
  function Held(spec: Spec, side: Side, price: nat, size: nat): nat {
    if side == Bid then QuoteCost(spec, price, size) else size
  }

  function HeldAsset(market: nat, side: Side): nat {
    if side == Bid then QuoteAsset(market) else BaseAsset(market)
  }

  // The price a bid is reserved at; a market buy pads the best ask.
  function ReservePrice(spec: Spec, price: nat, bestAsk: nat): Option<nat> {
    if price != U64_MAX then Some(price)
    else if bestAsk == U64_MAX then None
    else
      var padded := bestAsk + Wrap64(bestAsk * spec.slippage / 10000);
      if padded > U64_MAX then None else Some(padded)
  }

  datatype Reservation = Reservation(store: Store, cmd: Command, result: Result)

  function Reserve(s: Store, specs: seq<Spec>, c: Command, bestAsk: nat): Reservation {
    match FindSpec(specs, c.marketId)
    case None => Reservation(s, c, Err(MarketSpecNotFound))
    case Some(spec) =>
      match (if c.side == Bid then ReservePrice(spec, c.price, bestAsk) else Some(c.price))
      case None =>
        Reservation(s, c, Err(if bestAsk == U64_MAX then InvalidArguments else Overflow))
      case Some(price) =>
        var priced := c.(price := price);
        var p := LockFunds(s, Key(c.userId, HeldAsset(c.marketId, c.side)), Held(spec, c.side, price, c.size));
        Reservation(p.store, priced, p.result)
  }

  function Posted(c: Command, p: Posting): (Store, Command) {
    (p.store, c.(status := if p.result.Ok? then Processed else Rejected))
  }

  // Deposits and withdrawals carry the asset in the market field.
  function FundsKey(c: Command): Key {
    Key(c.userId, c.marketId % 0x1_0000)
  }

  // The first risk stage on a command of its own user.
  function PreProcess(s: Store, specs: seq<Spec>, c: Command, bestAsk: nat): (Store, Command) {
    match c.kind
    case PlaceOrder =>
      var r := Reserve(s, specs, c, bestAsk);
      (r.store, if r.result.Ok? then r.cmd else r.cmd.(status := Rejected))
    case DepositFunds => Posted(c, AddFunds(s, FundsKey(c), c.size))
    case WithdrawFunds => Posted(c, SubtractFunds(s, FundsKey(c), c.size))
    case CancelOrder => (s, c)
  }

  // --- Settlement -------------------------------------------------------------------------

  // Basis points of a 64-bit product, floored.
  function FeeOn(amount: nat, bps: nat): nat {
    Wrap64(amount * bps) / 10000
  }

  function Net(amount: nat, fee: nat): nat {
    if fee <= amount then amount - fee else Wrap64(amount - fee)
  }

  // What one user gives and gets in one trade.
  datatype Terms = Terms(give: Key, giveAmount: nat, get: Key, gross: nat, fee: nat)

  function TradeTerms(spec: Spec, user: nat, market: nat, side: Side, e: TradeEvent): Terms {
    var bps := if user == e.makerUser then spec.makerFee else spec.takerFee;
    var quote := QuoteCost(spec, e.price, e.size);
    match side
    case Bid =>
      Terms(Key(user, QuoteAsset(market)), quote, Key(user, BaseAsset(market)), e.size, FeeOn(e.size, bps))
    case Ask =>
      Terms(Key(user, BaseAsset(market)), e.size, Key(user, QuoteAsset(market)), quote, FeeOn(quote, bps))
  }

  // Only a buying taker that traded below its limit gets part of its lock back.
  predicate HasRefund(user: nat, side: Side, e: TradeEvent, takerPrice: Option<nat>) {
    user != e.makerUser && takerPrice.Some? && side == Bid && e.price < takerPrice.value
  }

  function Refund(spec: Spec, user: nat, side: Side, e: TradeEvent, takerPrice: Option<nat>): nat {
    if HasRefund(user, side, e, takerPrice) then QuoteCost(spec, takerPrice.value - e.price, e.size) else 0
  }

  function SettleTrade(s: Store, spec: Spec, user: nat, market: nat, side: Side, e: TradeEvent,
                       takerPrice: Option<nat>): Posting
  {
    var refunded :=
      if HasRefund(user, side, e, takerPrice)
      then UnlockFunds(s, Key(user, QuoteAsset(market)), Refund(spec, user, side, e, takerPrice))
      else Posting(s, Ok);
    if refunded.result.Err? then refunded
    else
      var t := TradeTerms(spec, user, market, side, e);
      var paid := SubtractLockedFunds(refunded.store, t.give, t.giveAmount);
      if paid.result.Err? then paid
      else AddFunds(paid.store, t.get, Net(t.gross, t.fee))
  }

  function HandleTradeEvent(s: Store, specs: seq<Spec>, user: nat, market: nat, side: Side, e: TradeEvent,
                            takerPrice: Option<nat>): Posting
  {
    match FindSpec(specs, market)
    case None => Posting(s, Err(MarketSpecNotFound))
    case Some(spec) => SettleTrade(s, spec, user, market, side, e, takerPrice)
  }

  // --- Release ---------------------------------------------------------------------------------

  predicate ReleaseDue(c: Command) {
    c.status == Cancelled || (c.status == PartiallyFilled && c.tif != Gtc)
  }

  function Release(s: Store, specs: seq<Spec>, c: Command): Posting {
    match FindSpec(specs, c.marketId)
    case None => Posting(s, Err(MarketSpecNotFound))
    case Some(spec) =>
      UnlockFunds(s, Key(c.userId, HeldAsset(c.marketId, c.side)), Held(spec, c.side, c.price, c.size))
  }

  // --- The second risk stage -----------------------------------------------------------------------

  // The walk visits the maker and then the taker of every event in turn.
  function LegCount(c: Command): nat { 2 * |c.events| }

  function LegUser(c: Command, leg: nat): nat
    requires leg < LegCount(c)
  {
    if leg % 2 == 0 then c.events[leg / 2].makerUser else c.userId
  }

  function SettleLeg(s: Store, specs: seq<Spec>, c: Command, leg: nat): Posting
    requires leg < LegCount(c)
  {
    var e := c.events[leg / 2];
    if leg % 2 == 0
    then HandleTradeEvent(s, specs, e.makerUser, c.marketId, c.side.Opposite(), e, None)
    else HandleTradeEvent(s, specs, c.userId, c.marketId, c.side, e, Some(c.price))
  }

  predicate Settleable(c: Command) {
    c.status != Rejected && c.status != Processed
  }

  // One shard's whole walk over a matched command, from leg `from` on.
  function Walk(s: Store, specs: seq<Spec>, shards: nat, shard: nat, c: Command, from: nat): Store
    requires shards > 0 && from <= LegCount(c)
    decreases LegCount(c) - from
  {
    if from == LegCount(c) then s
    else
      var next := if Shards.Owns(shards, shard, LegUser(c, from)) then SettleLeg(s, specs, c, from).store else s;
      Walk(next, specs, shards, shard, c, from + 1)
  }

  // One event of the walk: its maker leg and then its taker leg.
  lemma WalkEvent(s: Store, specs: seq<Spec>, shards: nat, shard: nat, c: Command, i: nat)
    requires shards > 0 && i < |c.events|
    ensures var e := c.events[i];
            var made := if Shards.Owns(shards, shard, e.makerUser)
                        then HandleTradeEvent(s, specs, e.makerUser, c.marketId, c.side.Opposite(), e, None).store
                        else s;
            var taken := if Shards.Owns(shards, shard, c.userId)
                         then HandleTradeEvent(made, specs, c.userId, c.marketId, c.side, e, Some(c.price)).store
                         else made;
            Walk(s, specs, shards, shard, c, 2 * i) == Walk(taken, specs, shards, shard, c, 2 * (i + 1))
  {
    assert (2 * i) / 2 == i && (2 * i) % 2 == 0 && (2 * i + 1) / 2 == i && (2 * i + 1) % 2 == 1;
    var made := if Shards.Owns(shards, shard, LegUser(c, 2 * i)) then SettleLeg(s, specs, c, 2 * i).store else s;
    assert Walk(s, specs, shards, shard, c, 2 * i) == Walk(made, specs, shards, shard, c, 2 * i + 1);
  }

  function PostProcess(s: Store, specs: seq<Spec>, shards: nat, shard: nat, c: Command): Store
    requires shards > 0
  {
    if !Settleable(c) then s
    else
      var walked := Walk(s, specs, shards, shard, c, 0);
      if Shards.Owns(shards, shard, c.userId) && ReleaseDue(c) then Release(walked, specs, c).store else walked
  }
}
