// The risk engine of one shard: a balance store updated in place, the two
// pipeline stages that run on it, and the walk over a command's trade events.
module RiskEngines {
  import opened Orders
  import OrderBooks
  import opened QuoteMath
  import opened Ledger
  import Shards
  import RiskLaws

  class BalanceStore {
    var balances: Store

    constructor ()
      ensures balances == map[]
    {
      balances := map[];
    }

    // Finds the entry of a user and asset, creating it when it is missing.
    method Entry(k: Key) returns (b: Balance)
      modifies this
      ensures b == Get(old(balances), k)
      ensures balances == old(balances)[k := b]
    {
      if k !in balances {
        balances := balances[k := Balance(0, 0)];
      }
      b := balances[k];
    }

    method LockFunds(user: nat, asset: nat, amount: nat) returns (r: Result)
      modifies this
      ensures Posting(balances, r) == Ledger.LockFunds(old(balances), Key(user, asset), amount)
    {
      var b := Entry(Key(user, asset));
      if b.available >= amount {
        balances := balances[Key(user, asset) := Balance(b.available - amount, Wrap64(b.locked + amount))];
        r := Ok;
      } else {
        r := Err(InsufficientAvailableFunds(b.available, amount));
      }
    }

    method UnlockFunds(user: nat, asset: nat, amount: nat) returns (r: Result)
      modifies this
      ensures Posting(balances, r) == Ledger.UnlockFunds(old(balances), Key(user, asset), amount)
    {
      var b := Entry(Key(user, asset));
      if b.locked >= amount {
        balances := balances[Key(user, asset) := Balance(Wrap64(b.available + amount), b.locked - amount)];
        r := Ok;
      } else {
        r := Err(InsufficientLockedFunds(b.locked, amount));
      }
    }

    method AddFunds(user: nat, asset: nat, amount: nat) returns (r: Result)
      modifies this
      ensures Posting(balances, r) == Ledger.AddFunds(old(balances), Key(user, asset), amount)
    {
      var b := Entry(Key(user, asset));
      if b.available + amount > U64_MAX {
        return Err(Overflow);
      }
      balances := balances[Key(user, asset) := Balance(b.available + amount, b.locked)];
      r := Ok;
    }

    method SubtractFunds(user: nat, asset: nat, amount: nat) returns (r: Result)
      modifies this
      ensures Posting(balances, r) == Ledger.SubtractFunds(old(balances), Key(user, asset), amount)
    {
      var b := Entry(Key(user, asset));
      if b.available >= amount {
        balances := balances[Key(user, asset) := Balance(b.available - amount, b.locked)];
        r := Ok;
      } else {
        r := Err(InsufficientAvailableFunds(b.available, amount));
      }
    }

    method SubtractLockedFunds(user: nat, asset: nat, amount: nat) returns (r: Result)
      modifies this
      ensures Posting(balances, r) == Ledger.SubtractLockedFunds(old(balances), Key(user, asset), amount)
    {
      var b := Entry(Key(user, asset));
      if b.locked >= amount {
        balances := balances[Key(user, asset) := Balance(b.available, b.locked - amount)];
        r := Ok;
      } else {
        r := Err(InsufficientLockedFunds(b.locked, amount));
      }
    }
  }

  class RiskEngine {
    const store: BalanceStore
    const specs: seq<Spec>
    const shardId: nat
    const shards: nat

    constructor (specs: seq<Spec>, shardId: nat, shards: nat)
      requires Shards.PowerOfTwo(shards) && shardId < shards
      ensures this.specs == specs && this.shardId == shardId && this.shards == shards
      ensures fresh(store) && store.balances == map[]
    {
      this.specs, this.shardId, this.shards := specs, shardId, shards;
      store := new BalanceStore();
    }

    // The test of the handler, which is ownership of the user.
    predicate UserForThisHandler(user: nat): (mine: bool)
      requires shards > 0
      ensures mine <==> Shards.Owns(shards, shardId, user)
    {
      Shards.BitAnd(user, shards - 1) == shardId
    }

    // First stage: validate the command and hold its funds.
    method PreProcessCommand(cmd: OrderBooks.OrderCommand, cache: OrderBooks.PriceCache)
      requires shards > 0
      modifies store, cmd`price, cmd`status
      ensures if Shards.Owns(shards, shardId, old(cmd.userId)) then
                (store.balances, cmd.View())
                  == PreProcess(old(store.balances), specs, old(cmd.View()), cache.BestAsk(cmd.marketId))
              else
                store.balances == old(store.balances) && cmd.View() == old(cmd.View())
    {
      if !UserForThisHandler(cmd.userId) {
        return;
      }
      var r;
      match cmd.kind {
        case PlaceOrder =>
          r := ReserveFundsForOrder(cmd, cache);
          if r.Err? {
            cmd.status := Rejected;
          }
        case DepositFunds =>
          r := store.AddFunds(cmd.userId, cmd.marketId % 0x1_0000, cmd.size);
          cmd.status := if r.Ok? then Processed else Rejected;
        case WithdrawFunds =>
          r := store.SubtractFunds(cmd.userId, cmd.marketId % 0x1_0000, cmd.size);
          cmd.status := if r.Ok? then Processed else Rejected;
        case CancelOrder =>
      }
    }

    method ReserveFundsForOrder(cmd: OrderBooks.OrderCommand, cache: OrderBooks.PriceCache) returns (r: Result)
      modifies store, cmd`price
      ensures Reservation(store.balances, cmd.View(), r)
           == Reserve(old(store.balances), specs, old(cmd.View()), cache.BestAsk(cmd.marketId))
      ensures cmd.side == Bid && old(cmd.price) == 0xFFFF_FFFF_FFFF_FFFF && r == Ok ==>
                forall spec | FindSpec(specs, cmd.marketId) == Some(spec) ::
                  var ask := cache.BestAsk(cmd.marketId);
                  RiskLaws.AdjustmentFits(ask, spec.slippage) ==> RiskLaws.Padded(cmd.price, ask, spec.slippage)
      ensures cmd.side == Ask || old(cmd.price) != 0xFFFF_FFFF_FFFF_FFFF ==> cmd.price == old(cmd.price)
    {
      var found := FindSpec(specs, cmd.marketId);
      if found.None? {
        return Err(MarketSpecNotFound);
      }
      var spec := found.value;
      if cmd.side == Bid {
        if cmd.price == U64_MAX {
          var bestAsk := cache.BestAsk(cmd.marketId);
          if bestAsk == U64_MAX {
            return Err(InvalidArguments);
          }
          var slippageAdjustment := Wrap64(bestAsk * spec.slippage / 10000);
          if bestAsk + slippageAdjustment > U64_MAX {
            return Err(Overflow);
          }
          cmd.price := bestAsk + slippageAdjustment;
          RiskLaws.PaddingIs(bestAsk, spec.slippage);
        }
        r := store.LockFunds(cmd.userId, QuoteAsset(cmd.marketId), QuoteCost(spec, cmd.price, cmd.size));
      } else {
        r := store.LockFunds(cmd.userId, BaseAsset(cmd.marketId), cmd.size);
      }
    }

    method SettleTrade(user: nat, market: nat, side: Side, e: TradeEvent, spec: Spec, takerPrice: Option<nat>)
      returns (r: Result)
      modifies store
      ensures Posting(store.balances, r)
           == Ledger.SettleTrade(old(store.balances), spec, user, market, side, e, takerPrice)
    {
      var isMaker := user == e.makerUser;
      var bps := if isMaker then spec.makerFee else spec.takerFee;
      if !isMaker && takerPrice.Some? && side == Bid {
        if e.price < takerPrice.value {
          var refund := QuoteCost(spec, takerPrice.value - e.price, e.size);
          r := store.UnlockFunds(user, QuoteAsset(market), refund);
          if r.Err? {
            return;
          }
        }
      }
      if side == Bid {
        var quoteSpent := QuoteCost(spec, e.price, e.size);
        var feeInBase := FeeOn(e.size, bps);
        r := store.SubtractLockedFunds(user, QuoteAsset(market), quoteSpent);
        if r.Err? {
          return;
        }
        r := store.AddFunds(user, BaseAsset(market), Net(e.size, feeInBase));
      } else {
        var quoteGross := QuoteCost(spec, e.price, e.size);
        var feeInQuote := FeeOn(quoteGross, bps);
        r := store.SubtractLockedFunds(user, BaseAsset(market), e.size);
        if r.Err? {
          return;
        }
        r := store.AddFunds(user, QuoteAsset(market), Net(quoteGross, feeInQuote));
      }
    }

    method HandleTradeEvent(user: nat, market: nat, side: Side, e: TradeEvent, takerPrice: Option<nat>)
      modifies store
      ensures store.balances
           == Ledger.HandleTradeEvent(old(store.balances), specs, user, market, side, e, takerPrice).store
    {
      var found := FindSpec(specs, market);
      if found.Some? {
        var r := SettleTrade(user, market, side, e, found.value, takerPrice);
      }
    }

    method ReleaseFundsForOrder(user: nat, market: nat, side: Side, price: nat, size: nat)
      modifies store
      ensures store.balances ==
              match FindSpec(specs, market)
              case None => old(store.balances)
              case Some(spec) =>
                Ledger.UnlockFunds(old(store.balances), Key(user, HeldAsset(market, side)),
                                   Held(spec, side, price, size)).store
    {
      var found := FindSpec(specs, market);
      if found.Some? {
        var spec := found.value;
        var r;
        if side == Bid {
          r := store.UnlockFunds(user, QuoteAsset(market), QuoteCost(spec, price, size));
        } else {
          r := store.UnlockFunds(user, BaseAsset(market), size);
        }
      }
    }

    // Second stage: settle this shard's legs of every trade, then release what an
    // unfilled order still holds.
    method PostProcessCommand(cmd: OrderBooks.OrderCommand)
      requires shards > 0
      modifies store
      ensures store.balances == PostProcess(old(store.balances), specs, shards, shardId, cmd.View())
    {
      if cmd.status == Rejected || cmd.status == Processed {
        return;
      }
      ghost var c := cmd.View();
      var isTakerShard := Shards.Owns(shards, shardId, cmd.userId);
      var current := 0;
      while current < |cmd.events|
        invariant 0 <= current <= |cmd.events|
        invariant Walk(old(store.balances), specs, shards, shardId, c, 0)
               == Walk(store.balances, specs, shards, shardId, c, 2 * current)
      {
        var event := cmd.events[current];
        WalkEvent(store.balances, specs, shards, shardId, c, current);
        if Shards.Owns(shards, shardId, event.makerUser) {
          HandleTradeEvent(event.makerUser, cmd.marketId, cmd.side.Opposite(), event, None);
        }
        if isTakerShard {
          HandleTradeEvent(cmd.userId, cmd.marketId, cmd.side, event, Some(cmd.price));
        }
        current := current + 1;
      }
      if isTakerShard {
        if cmd.status == Cancelled || (cmd.status == PartiallyFilled && (cmd.tif == Ioc || cmd.tif == Fok)) {
          ReleaseFundsForOrder(cmd.userId, cmd.marketId, cmd.side, cmd.price, cmd.size);
        }
      }
    }
  }
}
