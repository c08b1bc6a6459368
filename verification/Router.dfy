// One matching shard: the books of the markets it owns, and the dispatch of a
// command to the right one.
module Routers {
  import opened Orders
  import PriceTime
  import BookLaws
  import BookRuns
  import MarketData
  import opened OrderBooks
  import opened Shards

  class MatchingEngineRouter {
    const shardId: nat
    const shards: nat
    var orderBooks: map<nat, OrderBook>

    constructor (shardId: nat, shards: nat)
      requires PowerOfTwo(shards) && shardId < shards
      ensures this.shardId == shardId && this.shards == shards && orderBooks == map[] && Valid(0)
    {
      this.shardId, this.shards := shardId, shards;
      orderBooks := map[];
    }

    // Books are filed under their market, and no two share a tree.
    ghost predicate Separate()
      reads this
    {
      && PowerOfTwo(shards) && shardId < shards
      && (forall m :: m in orderBooks ==> orderBooks[m].marketId == m)
      && (forall m, n :: m in orderBooks && n in orderBooks && m != n ==> Footprint(m) !! Footprint(n))
    }

    // The objects of one market: no command touches those of another.
    ghost function Footprint(market: nat): set<object>
      reads this
    {
      if market in orderBooks then {orderBooks[market], orderBooks[market].bids, orderBooks[market].asks} else {}
    }

    // The book of a market is in order.
    ghost predicate InOrder(market: nat, bound: nat)
      reads this, Footprint(market)
    {
      market in orderBooks ==> orderBooks[market].Valid(bound)
    }

    // All books are in order.
    ghost predicate Valid(bound: nat)
      reads *
    {
      Separate() && forall m :: m in orderBooks.Keys ==> InOrder(m, bound)
    }

    // A market that gets a book; adding it again starts it over.
    method AddMarket(market: nat)
      requires Separate()
      modifies this
      ensures Separate()
      ensures orderBooks.Keys == old(orderBooks.Keys) + {market}
      ensures forall m :: m in old(orderBooks) && m != market ==> orderBooks[m] == old(orderBooks[m])
      ensures var b := orderBooks[market];
              && fresh(b) && fresh(b.bids) && fresh(b.asks)
              && b.marketId == market && b.Valid(0) && b.View() == BookRuns.EMPTY_BOOK
    {
      var b := new OrderBook(market);
      orderBooks := orderBooks[market := b];
    }

    predicate MarketForThisHandler(market: nat)
      requires shards > 0
    {
      shards - 1 == 0 || BitAnd(market, shards - 1) == shardId
    }

    // The check of the handler is ownership, for every power of two.
    lemma HandlerOwns(market: nat)
      requires PowerOfTwo(shards) && shardId < shards
      ensures MarketForThisHandler(market) <==> Owns(shards, shardId, market)
    {
      OneOwner(shards, market);
    }

    // Whether the command goes to a book here.
    predicate Routes(cmd: OrderCommand)
      requires shards > 0
      reads this
    {
      Owns(shards, shardId, cmd.marketId) && cmd.marketId in orderBooks
    }

    method ProcessOrder(cmd: OrderCommand, cache: PriceCache, ghost bound: nat)
      requires Valid(bound) && cache.prices.Keys >= orderBooks.Keys
      requires cmd.kind == PlaceOrder ==> BookLaws.FreshOrder(cmd.View(), bound)
      modifies cmd, cache, Footprint(cmd.marketId)
      ensures Routes(cmd) ==>
                PriceTime.Outcome(orderBooks[cmd.marketId].View(), cmd.View())
                == BookRuns.Process(old(orderBooks[cmd.marketId].View()), old(cmd.View()))
      ensures !Routes(cmd) ==>
                cmd.View() == (if Owns(shards, shardId, cmd.marketId) then old(cmd.View()).(status := Rejected)
                               else old(cmd.View()))
      ensures cache.prices ==
              if Routes(cmd) then PricesAfter(old(cache.prices), old(cmd.View()), orderBooks[cmd.marketId].TopOfBook())
              else old(cache.prices)
      ensures Routes(cmd) && (cmd.kind == PlaceOrder || cmd.kind == CancelOrder)
              && old(cmd.status) != Rejected ==>
                MarketData.TrueTop(cache.prices[cmd.marketId], orderBooks[cmd.marketId].View())
      ensures cache.prices.Keys == old(cache.prices.Keys)
      ensures Valid(Later(cmd, bound))
    {
      AllWiden(bound, Later(cmd, bound));
      Route(cmd, cache, bound);
    }

    // Books in order are in order for later ids too.
    lemma AllWiden(bound: nat, later: nat)
      requires Valid(bound) && bound <= later
      ensures Valid(later)
    {
      forall m | m in orderBooks.Keys
        ensures InOrder(m, later)
      {
        WidenBook(m, bound, later);
      }
    }

    lemma WidenBook(market: nat, bound: nat, later: nat)
      requires bound <= later && InOrder(market, bound)
      ensures InOrder(market, later)
    {
      if market in orderBooks {
        BookLaws.Widen(orderBooks[market].View(), bound, later);
      }
    }

    // The work on the book of the command's market.
    method Route(cmd: OrderCommand, cache: PriceCache, ghost bound: nat)
      requires Separate() && InOrder(cmd.marketId, bound) && cache.prices.Keys >= orderBooks.Keys
      requires cmd.kind == PlaceOrder ==> BookLaws.FreshOrder(cmd.View(), bound)
      modifies cmd, cache, Footprint(cmd.marketId)
      ensures Routes(cmd) ==>
                PriceTime.Outcome(orderBooks[cmd.marketId].View(), cmd.View())
                == BookRuns.Process(old(orderBooks[cmd.marketId].View()), old(cmd.View()))
      ensures !Routes(cmd) ==>
                cmd.View() == (if Owns(shards, shardId, cmd.marketId) then old(cmd.View()).(status := Rejected)
                               else old(cmd.View()))
      ensures cache.prices ==
              if Routes(cmd) then PricesAfter(old(cache.prices), old(cmd.View()), orderBooks[cmd.marketId].TopOfBook())
              else old(cache.prices)
      ensures Routes(cmd) && (cmd.kind == PlaceOrder || cmd.kind == CancelOrder)
              && old(cmd.status) != Rejected ==>
                MarketData.TrueTop(cache.prices[cmd.marketId], orderBooks[cmd.marketId].View())
      ensures cache.prices.Keys == old(cache.prices.Keys)
      ensures InOrder(cmd.marketId, Later(cmd, bound))
    {
      HandlerOwns(cmd.marketId);
      if MarketForThisHandler(cmd.marketId) && cmd.marketId in orderBooks {
        Dispatch(orderBooks[cmd.marketId], cmd, cache, bound);
      } else {
        if MarketForThisHandler(cmd.marketId) {
          cmd.status := Rejected;
        }
        WidenBook(cmd.marketId, bound, Later(cmd, bound));
      }
    }

    static method Dispatch(book: OrderBook, cmd: OrderCommand, cache: PriceCache, ghost bound: nat)
      requires book.Valid(bound) && book.marketId == cmd.marketId && book.marketId in cache.prices
      requires cmd.kind == PlaceOrder ==> BookLaws.FreshOrder(cmd.View(), bound)
      modifies book`orders, book.bids, book.asks, cmd, cache
      ensures book.Valid(Later(cmd, bound))
      ensures PriceTime.Outcome(book.View(), cmd.View()) == BookRuns.Process(old(book.View()), old(cmd.View()))
      ensures cache.prices == PricesAfter(old(cache.prices), old(cmd.View()), book.TopOfBook())
      ensures (cmd.kind == PlaceOrder || cmd.kind == CancelOrder) && old(cmd.status) != Rejected ==>
                MarketData.TrueTop(cache.prices[cmd.marketId], book.View())
    {
      match cmd.kind {
        case PlaceOrder => book.PlaceOrder(cmd, cache, bound);
        case CancelOrder => book.CancelOrder(cmd, cache, bound);
        case _ =>
      }
      if book.Valid(bound) {
        BookLaws.Widen(book.View(), bound, Later(cmd, bound));
      }
    }

    // The cache after a command that reached its book.
    static function PricesAfter(prices: map<nat, (nat, nat)>, c: Command, top: (nat, nat)): map<nat, (nat, nat)> {
      if (c.kind == PlaceOrder || c.kind == CancelOrder) && c.status != Rejected then prices[c.marketId := top]
      else prices
    }

    // The least id an order of the next command may carry.
    static function Later(cmd: OrderCommand, bound: nat): nat {
      if cmd.kind == PlaceOrder && cmd.orderId >= bound then cmd.orderId + 1 else bound
    }
  }
}
