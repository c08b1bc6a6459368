// The order book as the engine runs it: trees of price levels with cached
// volumes and FIFO queues, an id index, in-place matching with deferred
// removals, and a shared price cache. Every operation is proved to compute
// what the reference book says.
module OrderBooks {
  import opened Orders
  import opened PriceTime
  import opened Matching
  import opened BookLaws
  import opened PriceLevels
  import MarketData
  import RequestLaws

  // The command a stage works on; its fields are rewritten in place.
  class OrderCommand {
    const kind: CommandType
    const clientOrderId: nat
    const orderId: nat
    const marketId: nat
    const tif: TimeInForce
    const timestamp: nat
    const routeGatewayId: nat
    var userId: nat
    var price: nat
    var size: nat
    var side: Side
    var status: Status
    var events: seq<TradeEvent>
    var l2Data: Option<L2Data>
    var originalSize: nat

    constructor (c: Command)
      ensures View() == c
    {
      kind, clientOrderId, orderId, marketId := c.kind, c.clientOrderId, c.orderId, c.marketId;
      tif, timestamp, routeGatewayId := c.tif, c.timestamp, c.routeGatewayId;
      userId, price, size, side := c.userId, c.price, c.size, c.side;
      status, events, l2Data, originalSize := c.status, c.events, c.l2Data, c.originalSize;
    }

    function View(): Command
      reads this
    {
      Command(kind, clientOrderId, orderId, userId, marketId, price, size, side, tif, timestamp,
              status, events, l2Data, routeGatewayId, originalSize)
    }

    method AttachEvent(e: TradeEvent)
      modifies this`events
      ensures events == old(events) + [e]
    {
      events := events + [e];
    }
  }

  // Walks a chain of events and adds up what they traded.
  method CalcFilledSize(chain: seq<TradeEvent>) returns (size: nat)
    ensures size == Traded(chain)
  {
    size := 0;
    var i := 0;
    while i < |chain|
      invariant 0 <= i <= |chain|
      invariant size + Traded(chain[i..]) == Traded(chain)
    {
      assert chain[i..][0] == chain[i] && chain[i..][1..] == chain[i + 1..];
      size := size + chain[i].size;
      i := i + 1;
    }
  }

  // Top-of-book prices per market, shared by all stages.
  class PriceCache {
    var prices: map<nat, (nat, nat)>

    constructor (markets: set<nat>)
      ensures prices.Keys == markets
      ensures forall m :: m in markets ==> prices[m] == (0, U64_MAX)
    {
      prices := map m | m in markets :: (0, U64_MAX);
    }

    // The lowest ask of a market, as last stored.
    function BestAsk(market: nat): (ask: nat)
      reads this
      ensures market in prices ==> ask == prices[market].1
      ensures market !in prices ==> ask == 0
    {
      if market in prices then prices[market].1 else 0
    }

    method UpdatePrices(market: nat, bestBid: nat, bestAsk: nat)
      requires market in prices
      modifies this
      ensures prices == old(prices)[market := (bestBid, bestAsk)]
    {
      prices := prices[market := (bestBid, bestAsk)];
    }
  }

  // One side of the book: a tree of levels in matching order.
  class BookSide {
    const side: Side
    var levels: seq<PriceLevel>

    constructor (side: Side)
      ensures this.side == side && levels == []
    {
      this.side := side;
      levels := [];
    }

    ghost predicate Valid()
      reads this
    {
      Shaped(side, levels) && NoneEmpty(levels) && GoodSide(side, Flatten(levels))
    }

    method BestPrice() returns (price: nat)
      requires Valid()
      ensures price == PriceTime.BestPrice(side, Flatten(levels))
    {
      if |levels| > 0 {
        assert levels[0] in levels;
        price := levels[0].price;
      } else {
        price := if side == Ask then U64_MAX else 0;
      }
    }

    // The position of the level for `price`, created empty if need be.
    method GetOrCreateLevel(price: nat) returns (i: nat)
      requires Shaped(side, levels)
      modifies this
      ensures Shaped(side, levels) && i < |levels| && levels[i].price == price
      ensures Flatten(levels) == old(Flatten(levels))
      ensures forall l :: l in levels && l.orders == [] ==> l.price == price || l in old(levels)
    {
      i := Rank(side, levels, price);
      if i == |levels| || levels[i].price != price {
        CreateLevel(side, levels, price);
        levels := levels[..i] + [PriceLevel(price, 0, [])] + levels[i..];
      }
    }

    method AddOrder(i: nat, o: Order)
      requires Shaped(side, levels) && i < |levels| && levels[i].price == o.price && o.side == side
      requires forall l :: l in levels && l.orders == [] ==> l.price == o.price
      modifies this
      ensures Shaped(side, levels) && NoneEmpty(levels)
      ensures Flatten(levels) == Insert(old(Flatten(levels)), o)
    {
      PushIsInsert(side, levels, i, o);
      var before := levels;
      levels := levels[i := levels[i].(totalVolume := Wrap64(levels[i].totalVolume + o.size),
                                            orders := levels[i].orders + [o])];
      forall l | l in levels
        ensures TrueLevel(l) && l.orders != []
      {
        var k :| 0 <= k < |levels| && levels[k] == l;
        if k != i {
          assert before[k] in before && before[i] in before;
          assert k < i ==> Better(side, before[k].price, before[i].price);
          assert i < k ==> Better(side, before[i].price, before[k].price);
        }
      }
    }

    method RemoveLevelIfEmpty(price: nat)
      requires Shaped(side, levels)
      modifies this
      ensures Shaped(side, levels)
      ensures Flatten(levels) == old(Flatten(levels))
      ensures forall l :: l in levels ==> l in old(levels) && (l.orders == [] ==> l.price != price)
    {
      var i := Rank(side, levels, price);
      if i < |levels| && levels[i].price == price && levels[i].orders == [] {
        DeleteLevel(side, levels, i);
        levels := levels[..i] + levels[i + 1..];
      } else {
        forall l | l in levels && l.price == price
          ensures l.orders != []
        {
          var k :| 0 <= k < |levels| && levels[k] == l;
          RankFinds(side, levels, price, k);
        }
      }
    }

    // Clean up the levels a match emptied.
    method RemoveLevels(prices: seq<nat>)
      requires Shaped(side, levels)
      requires forall l :: l in levels && l.orders == [] ==> l.price in prices
      modifies this
      ensures Shaped(side, levels) && NoneEmpty(levels)
      ensures Flatten(levels) == old(Flatten(levels))
    {
      var j := 0;
      while j < |prices|
        invariant 0 <= j <= |prices|
        invariant Shaped(side, levels)
        invariant Flatten(levels) == old(Flatten(levels))
        invariant forall l :: l in levels && l.orders == [] ==> l.price in prices[j..]
      {
        RemoveLevelIfEmpty(prices[j]);
        j := j + 1;
      }
    }
  }

  // --- Facts about one level being matched -------------------------------------------

  lemma CompletedAppend(a: seq<TradeEvent>, b: seq<TradeEvent>)
    ensures CompletedIds(a + b) == CompletedIds(a) + CompletedIds(b)
  {
  }

  lemma DropAppend(m: map<nat, nat>, a: seq<TradeEvent>, b: seq<TradeEvent>)
    ensures (m - CompletedIds(a)) - CompletedIds(b) == m - CompletedIds(a + b)
  {
    CompletedAppend(a, b);
  }

  // The pass over one maker.
  lemma SweepOne(t: Taker, o: Order, remaining: nat)
    ensures Sweep(t, [o], remaining) == Consume(t, o, remaining, Swept([], [], remaining - FillSize(t, o, remaining)))
  {
    assert [o][1..] == [];
  }

  lemma SweepSnoc(t: Taker, orders: seq<Order>, i: nat, remaining: nat)
    requires i < |orders|
    ensures var x := Sweep(t, orders[..i], remaining);
            var o := orders[i];
            var v := FillSize(t, o, x.remaining);
            Sweep(t, orders[..i + 1], remaining) ==
              if v == 0 then x.(orders := x.orders + [o])
              else Swept(x.orders + (if v == o.size then [] else [o.(size := o.size - v)]),
                         x.events + [Trade(o, v, x.remaining)],
                         x.remaining - v)
  {
    var x := Sweep(t, orders[..i], remaining);
    assert orders[..i + 1] == orders[..i] + [orders[i]];
    SweepAppend(t, orders[..i], [orders[i]], remaining);
    SweepOne(t, orders[i], x.remaining);
    var v := FillSize(t, orders[i], x.remaining);
    var kept := if v == orders[i].size then [] else [orders[i].(size := orders[i].size - v)];
    assert kept + [] == kept;
    assert [Trade(orders[i], v, x.remaining)] + [] == [Trade(orders[i], v, x.remaining)];
    assert [orders[i]] + [] == [orders[i]];
    assert x.events + [] == x.events;
  }

  lemma AliveSnoc(queue: seq<Order>, i: nat)
    requires i < |queue|
    ensures Alive(queue[..i + 1]) == Alive(queue[..i]) + if queue[i].size == 0 then [] else [queue[i]]
  {
    assert queue[..i + 1] == queue[..i] + [queue[i]];
    AliveAppend(queue[..i], [queue[i]]);
    assert [queue[i]][1..] == [];
  }

  lemma ZerosSnoc(queue: seq<Order>, i: nat)
    requires i < |queue|
    ensures Zeros(queue[..i + 1]) == Zeros(queue[..i]) + if queue[i].size == 0 then [i] else []
  {
    assert queue[..i + 1][..i] == queue[..i];
  }

  // Only the order at z dies between z and cut.
  lemma AliveBetween(queue: seq<Order>, z: nat, cut: nat)
    requires z < cut <= |queue| && queue[z].size == 0
    requires forall i :: z < i < cut ==> queue[i].size > 0
    ensures Alive(queue[z..]) == queue[z + 1..cut] + Alive(queue[cut..])
  {
    var mid := queue[z + 1..cut];
    forall o | o in mid
      ensures o.size > 0
    {
      var k :| 0 <= k < |mid| && mid[k] == o;
      assert queue[z + 1 + k] == o;
    }
    var back := queue[cut..];
    AliveSized(mid);
    assert queue[z..][0] == queue[z] && queue[z..][1..] == mid + back;
    AliveAppend(mid, back);
  }

  // Removing the last recorded position of queue[..cut] from a queue whose part
  // behind `cut` is already clean.
  lemma RemoveLastZero(queue: seq<Order>, cut: nat, current: seq<Order>)
    returns (z: nat)
    requires cut <= |queue| && Zeros(queue[..cut]) != []
    requires current == queue[..cut] + Alive(queue[cut..])
    ensures z == Zeros(queue[..cut])[|Zeros(queue[..cut])| - 1] && z < cut && z < |current|
    ensures current[..z] + current[z + 1..] == queue[..z] + Alive(queue[z..])
    ensures Zeros(queue[..z]) == Zeros(queue[..cut])[..|Zeros(queue[..cut])| - 1]
  {
    var front := queue[..cut];
    LastZero(front);
    z := Zeros(front)[|Zeros(front)| - 1];
    assert front[..z] == queue[..z];
    assert forall i :: 0 <= i < cut ==> front[i] == queue[i];
    AliveBetween(queue, z, cut);
    assert current[..z] == queue[..z];
    assert current[z + 1..] == queue[z + 1..cut] + Alive(queue[cut..]);
  }

  // The state of the inner loop at position idx: what it has done so far is the
  // pass over the makers in front of idx.
  ghost predicate Working(t: Taker, makers: seq<Order>, size: nat, idx: nat, queue: seq<Order>,
                          volume: nat, toRemove: seq<nat>, left: nat, s: Swept)
  {
    && idx <= |queue| == |makers|
    && (forall k :: idx <= k < |queue| ==> queue[k] == makers[k])
    && s == Sweep(t, makers[..idx], size)
    && Alive(queue[..idx]) == s.orders && toRemove == Zeros(queue[..idx])
    && volume == Wrap64(Volume(queue)) && left == s.remaining
  }

  lemma WorkSkip(t: Taker, makers: seq<Order>, size: nat, idx: nat, queue: seq<Order>,
                 volume: nat, toRemove: seq<nat>, left: nat, s: Swept)
    requires Working(t, makers, size, idx, queue, volume, toRemove, left, s)
    requires Sized(makers) && idx < |makers| && !Eligible(t, makers[idx])
    ensures var next := Sweep(t, makers[..idx + 1], size);
            && Working(t, makers, size, idx + 1, queue, volume, toRemove, left, next)
            && next.events == s.events
  {
    SweepSnoc(t, makers, idx, size);
    AliveSnoc(queue, idx);
    ZerosSnoc(queue, idx);
    assert makers[idx] in makers;
  }

  // A queue in which one order lost v, which left it empty or did not.
  lemma TradedQueue(queue: seq<Order>, idx: nat, v: nat)
    requires idx < |queue| && v <= queue[idx].size
    ensures var o := queue[idx].(size := queue[idx].size - v);
            var q := queue[idx := o];
            && Alive(q[..idx + 1]) == Alive(queue[..idx]) + (if o.size == 0 then [] else [o])
            && Zeros(q[..idx + 1]) == Zeros(queue[..idx]) + (if o.size == 0 then [idx] else [])
            && Wrap64(Volume(q)) == Wrap64(Wrap64(Volume(queue)) - v)
  {
    var q := queue[idx := queue[idx].(size := queue[idx].size - v)];
    VolumeUpdate(queue, idx, q[idx]);
    WrapSum(Volume(queue), v);
    assert q[..idx] == queue[..idx];
    AliveSnoc(q, idx);
    ZerosSnoc(q, idx);
  }

  lemma WorkTrade(t: Taker, makers: seq<Order>, size: nat, idx: nat, queue: seq<Order>,
                  volume: nat, toRemove: seq<nat>, left: nat, s: Swept)
    requires Working(t, makers, size, idx, queue, volume, toRemove, left, s)
    requires Sized(makers) && idx < |makers| && Eligible(t, makers[idx]) && left > 0
    ensures var v := Min(left, makers[idx].size);
            var next := Sweep(t, makers[..idx + 1], size);
            && Working(t, makers, size, idx + 1, queue[idx := queue[idx].(size := queue[idx].size - v)],
                       Wrap64(volume - v), toRemove + (if v == makers[idx].size then [idx] else []), left - v, next)
            && next.events == s.events + [Trade(makers[idx], v, left)]
  {
    assert makers[idx] in makers;
    WorkSweep(t, makers, size, idx, left);
    TradedQueue(queue, idx, Min(left, makers[idx].size));
  }

  // The pass one maker further.
  lemma WorkSweep(t: Taker, makers: seq<Order>, size: nat, idx: nat, left: nat)
    requires idx < |makers| && makers[idx].size > 0 && Eligible(t, makers[idx]) && left > 0
    requires left == Sweep(t, makers[..idx], size).remaining
    ensures var x, next := Sweep(t, makers[..idx], size), Sweep(t, makers[..idx + 1], size);
            var o, v := makers[idx], Min(left, makers[idx].size);
            && next.orders == x.orders + (if v == o.size then [] else [o.(size := o.size - v)])
            && next.events == x.events + [Trade(o, v, left)] && next.remaining == left - v
  {
    SweepSnoc(t, makers, idx, size);
  }

  lemma WorkDone(t: Taker, makers: seq<Order>, size: nat, idx: nat, queue: seq<Order>,
                 volume: nat, toRemove: seq<nat>, left: nat, s: Swept)
    requires Working(t, makers, size, idx, queue, volume, toRemove, left, s)
    requires Sized(makers) && (idx == |makers| || left == 0)
    ensures Sweep(t, makers, size) == Swept(Alive(queue), s.events, left)
    ensures toRemove == Zeros(queue) && volume == Wrap64(Volume(queue))
  {
    SweepTailIdle(t, makers, idx, size);
    AliveTail(queue, makers, idx);
  }

  // The state of the outer loop at level i.
  ghost predicate Walking(t: Taker, before: seq<PriceLevel>, size: nat, i: nat, levels: seq<PriceLevel>,
                          filled: seq<nat>, left: nat, s: Swept)
  {
    && i <= |levels| == |before|
    && levels[i..] == before[i..]
    && s == Sweep(t, Flatten(before[..i]), size)
    && Flatten(levels[..i]) == s.orders && left == s.remaining
    && Shaped(t.side.Opposite(), levels)
    && (forall k :: 0 <= k < i && levels[k].orders == [] ==> levels[k].price in filled)
  }

  lemma WalkStart(t: Taker, before: seq<PriceLevel>, size: nat)
    requires Shaped(t.side.Opposite(), before)
    ensures Walking(t, before, size, 0, before, [], size, Swept([], [], size))
  {
  }

  lemma WalkLevel(t: Taker, before: seq<PriceLevel>, size: nat, i: nat, levels: seq<PriceLevel>,
                  filled: seq<nat>, left: nat, s: Swept, level: PriceLevel)
    requires Walking(t, before, size, i, levels, filled, left, s) && i < |levels|
    requires Sized(before[i].orders)
    requires var x := Sweep(t, before[i].orders, left);
             level == PriceLevel(before[i].price, Wrap64(Volume(x.orders)), x.orders)
    ensures var x := Sweep(t, before[i].orders, left);
            Walking(t, before, size, i + 1, levels[i := level],
                    filled + (if level.orders == [] then [level.price] else []), x.remaining, Chain(s, x))
  {
    var x := Sweep(t, before[i].orders, left);
    var now := levels[i := level];
    assert levels[i] == levels[i..][0] == before[i];
    assert now[i + 1..] == levels[i..][1..] == before[i + 1..];
    ReplaceLevel(t.side.Opposite(), levels, i, level, t, left);
    SweepLevel(t, before, i, size);
    assert now[..i] == levels[..i];
    FlattenSnoc(now, i);
    var more := filled + (if level.orders == [] then [level.price] else []);
    forall k | 0 <= k < i + 1 && now[k].orders == []
      ensures now[k].price in more
    {
      if k < i {
        assert now[k] == levels[k];
      }
    }
  }

  lemma WalkDone(t: Taker, before: seq<PriceLevel>, size: nat, i: nat, levels: seq<PriceLevel>,
                 filled: seq<nat>, left: nat, s: Swept)
    requires Walking(t, before, size, i, levels, filled, left, s)
    requires Shaped(t.side.Opposite(), before) && NoneEmpty(before)
    requires i == |levels| || !Crosses(t, levels[i].price) || left == 0
    ensures Sweep(t, Flatten(before), size) == Swept(Flatten(levels), s.events, left)
    ensures forall l :: l in levels && l.orders == [] ==> l.price in filled
  {
    assert i < |levels| ==> levels[i] == levels[i..][0] == before[i];
    SweepLevelsIdle(t, t.side.Opposite(), before, i, size);
    assert levels == levels[..i] + levels[i..];
    FlattenAppend(levels[..i], levels[i..]);
    EmptiesRemembered(before, i, levels, filled);
  }

  lemma EmptiesRemembered(before: seq<PriceLevel>, i: nat, levels: seq<PriceLevel>, filled: seq<nat>)
    requires i <= |levels| == |before| && levels[i..] == before[i..] && NoneEmpty(before)
    requires forall k :: 0 <= k < i && levels[k].orders == [] ==> levels[k].price in filled
    ensures forall l :: l in levels && l.orders == [] ==> l.price in filled
  {
    forall k | i <= k < |levels|
      ensures levels[k].orders != []
    {
      assert levels[k] == levels[i..][k - i] == before[k];
      assert before[k] in before;
    }
  }

  class OrderBook {
    const bids: BookSide
    const asks: BookSide
    var orders: map<nat, nat>
    const marketId: nat

    constructor (marketId: nat)
      ensures Valid(0) && View() == Book([], [], map[])
      ensures this.marketId == marketId
      ensures fresh(bids) && fresh(asks)
    {
      this.marketId := marketId;
      bids := new BookSide(Bid);
      asks := new BookSide(Ask);
      orders := map[];
    }

    ghost predicate Apart()
      reads this
    {
      bids != asks && bids.side == Bid && asks.side == Ask
    }

    ghost predicate ValidSides()
      reads this, bids, asks
    {
      Apart() && bids.Valid() && asks.Valid()
    }

    // All ids in the book are below `bound`.
    ghost predicate Valid(bound: nat)
      reads this, bids, asks
    {
      ValidSides() && GoodBook(View(), bound)
    }

    function View(): Book
      reads this, bids, asks
    {
      Book(Flatten(bids.levels), Flatten(asks.levels), orders)
    }

    // Attaches the event of one trade, and drops a completed maker from the index.
    method RecordTrade(maker: Order, tradeSize: nat, left: nat, cmd: OrderCommand)
      requires tradeSize <= maker.size && tradeSize <= left
      modifies this`orders, cmd`events
      ensures cmd.events == old(cmd.events) + [Trade(maker, tradeSize, left)]
      ensures orders == old(orders) - CompletedIds([Trade(maker, tradeSize, left)])
    {
      var event := Trade(maker, tradeSize, left);
      cmd.AttachEvent(event);
      assert CompletedIds([event]) == if event.makerCompleted then {maker.id} else {};
      if event.makerCompleted {
        orders := orders - {maker.id};
      }
    }

    // One maker of the queue trades in place.
    method FillMaker(queue: seq<Order>, volume: nat, toRemove: seq<nat>, left: nat, idx: nat, cmd: OrderCommand,
                     ghost makers: seq<Order>, ghost size: nat, ghost s: Swept)
      returns (q: seq<Order>, v: nat, r: seq<nat>, rest: nat)
      requires Working(TakerOf(cmd.View()), makers, size, idx, queue, volume, toRemove, left, s)
      requires Sized(makers) && idx < |queue| && Eligible(TakerOf(cmd.View()), queue[idx]) && left > 0
      modifies this`orders, cmd`events
      ensures var next := Sweep(TakerOf(old(cmd.View())), makers[..idx + 1], size);
              var e := Trade(queue[idx], Min(left, queue[idx].size), left);
              && Working(TakerOf(old(cmd.View())), makers, size, idx + 1, q, v, r, rest, next)
              && next.events == s.events + [e]
              && cmd.events == old(cmd.events) + [e]
              && orders == old(orders) - CompletedIds([e])
    {
      WorkTrade(TakerOf(cmd.View()), makers, size, idx, queue, volume, toRemove, left, s);
      var maker := queue[idx];
      var tradeSize := Min(left, maker.size);
      RecordTrade(maker, tradeSize, left, cmd);
      rest := left - tradeSize;
      q := queue[idx := maker.(size := maker.size - tradeSize)];
      v := Wrap64(volume - tradeSize);
      r := toRemove;
      if q[idx].size == 0 {
        r := r + [idx];
      }
    }

    // The inner loop over one level: makers trade in place, and the positions of
    // those that were filled are remembered.
    method FillMakers(level: PriceLevel, cmd: OrderCommand, remaining: nat)
      returns (queue: seq<Order>, volume: nat, toRemove: seq<nat>, left: nat)
      requires TrueLevel(level) && Sized(level.orders)
      requires Crosses(TakerOf(cmd.View()), level.price)
      modifies this`orders, cmd`events
      ensures var s := Sweep(TakerOf(old(cmd.View())), level.orders, remaining);
              && Alive(queue) == s.orders && toRemove == Zeros(queue) && volume == Wrap64(Volume(queue))
              && left == s.remaining
              && cmd.events == old(cmd.events) + s.events
              && orders == old(orders) - CompletedIds(s.events)
    {
      ghost var t, makers := TakerOf(cmd.View()), level.orders;
      queue, volume, toRemove, left := level.orders, level.totalVolume, [], remaining;
      var idx := 0;
      ghost var s := Sweep(t, makers[..0], remaining);
      assert old(cmd.events) + [] == old(cmd.events);
      assert old(orders) - CompletedIds([]) == old(orders);
      while idx < |queue|
        invariant 0 <= idx
        invariant Working(t, makers, remaining, idx, queue, volume, toRemove, left, s)
        invariant cmd.events == old(cmd.events) + s.events
        invariant orders == old(orders) - CompletedIds(s.events)
      {
        if left == 0 {
          break;
        }
        var maker := queue[idx];
        assert maker in makers;
        if maker.user == cmd.userId {
          WorkSkip(t, makers, remaining, idx, queue, volume, toRemove, left, s);
          idx := idx + 1;
          s := Sweep(t, makers[..idx], remaining);
          continue;
        }
        DropAppend(old(orders), s.events, [Trade(maker, Min(left, maker.size), left)]);
        queue, volume, toRemove, left :=
          FillMaker(queue, volume, toRemove, left, idx, cmd, makers, remaining, s);
        idx := idx + 1;
        s := Sweep(t, makers[..idx], remaining);
      }
      WorkDone(t, makers, remaining, idx, queue, volume, toRemove, left, s);
    }

    // The reverse pass that deletes the filled makers by position.
    static method RemoveFilled(queue: seq<Order>, toRemove: seq<nat>) returns (current: seq<Order>)
      requires toRemove == Zeros(queue)
      ensures current == Alive(queue)
    {
      var k := |toRemove|;
      current := queue;
      ghost var cut := |queue|;
      assert queue == queue[..cut] + Alive(queue[cut..]) && queue[..cut] == queue;
      while k > 0
        invariant 0 <= k <= |toRemove| && 0 <= cut <= |queue|
        invariant toRemove[..k] == Zeros(queue[..cut])
        invariant current == queue[..cut] + Alive(queue[cut..])
      {
        ghost var z := RemoveLastZero(queue, cut, current);
        assert toRemove[k - 1] == toRemove[..k][k - 1] == z;
        assert toRemove[..k][..k - 1] == toRemove[..k - 1];
        k := k - 1;
        current := current[..toRemove[k]] + current[toRemove[k] + 1..];
        cut := z;
      }
      NoZeros(queue[..cut]);
      AliveSized(queue[..cut]);
      AliveAppend(queue[..cut], queue[cut..]);
      assert queue == queue[..cut] + queue[cut..];
    }

    method MatchLevel(level: PriceLevel, cmd: OrderCommand, remaining: nat)
      returns (left: PriceLevel, stillRemaining: nat)
      requires TrueLevel(level) && Sized(level.orders)
      requires Crosses(TakerOf(cmd.View()), level.price)
      modifies this`orders, cmd`events
      ensures var s := Sweep(TakerOf(old(cmd.View())), level.orders, remaining);
              && left == PriceLevel(level.price, Wrap64(Volume(s.orders)), s.orders)
              && stillRemaining == s.remaining
              && cmd.events == old(cmd.events) + s.events
              && orders == old(orders) - CompletedIds(s.events)
    {
      var queue, volume, toRemove;
      queue, volume, toRemove, stillRemaining := FillMakers(level, cmd, remaining);
      AliveVolume(queue);
      queue := RemoveFilled(queue, toRemove);
      left := PriceLevel(level.price, volume, queue);
    }

    // The core matching loop.
    method MatchOrder(cmd: OrderCommand) returns (remaining: nat)
      requires ValidSides()
      modifies this`orders, bids, asks, cmd`events
      ensures ValidSides()
      ensures var (m, s) := Match(old(View()), old(cmd.View()));
              && View() == m && remaining == s.remaining
              && cmd.events == old(cmd.events) + s.events
      ensures forall k :: |old(cmd.events)| <= k < |cmd.events| ==>
                && (cmd.side == Bid ==> cmd.events[k].price <= cmd.price)
                && (cmd.side == Ask ==> cmd.events[k].price >= cmd.price)
                && cmd.events[k].makerUser != cmd.userId
    {
      var makers := if cmd.side == Bid then asks else bids;
      SweepWithin(TakerOf(cmd.View()), Flatten(makers.levels), cmd.size);
      LevelsSized(makers.side, makers.levels);
      SweepGood(TakerOf(cmd.View()), makers.side, Flatten(makers.levels), cmd.size);
      var filledPriceLevels;
      remaining, filledPriceLevels := MatchLevels(makers, cmd);
      makers.RemoveLevels(filledPriceLevels);
    }

    // The outer loop over levels in matching order; it remembers the prices of
    // the levels it emptied.
    method MatchLevels(makers: BookSide, cmd: OrderCommand) returns (remaining: nat, filledPriceLevels: seq<nat>)
      requires makers.side == cmd.side.Opposite()
      requires Shaped(makers.side, makers.levels) && NoneEmpty(makers.levels)
      requires forall l :: l in makers.levels ==> Sized(l.orders)
      modifies this`orders, makers, cmd`events
      ensures var s := Sweep(TakerOf(old(cmd.View())), old(Flatten(makers.levels)), old(cmd.size));
              && Flatten(makers.levels) == s.orders && remaining == s.remaining
              && cmd.events == old(cmd.events) + s.events
              && orders == old(orders) - CompletedIds(s.events)
      ensures Shaped(makers.side, makers.levels)
      ensures forall l :: l in makers.levels && l.orders == [] ==> l.price in filledPriceLevels
    {
      ghost var t, before := TakerOf(cmd.View()), makers.levels;
      remaining, filledPriceLevels := cmd.size, [];
      ghost var s := Swept([], [], cmd.size);
      WalkStart(t, before, cmd.size);
      var i := 0;
      assert old(cmd.events) + [] == old(cmd.events);
      assert old(orders) - CompletedIds([]) == old(orders);
      while i < |makers.levels|
        invariant 0 <= i
        invariant Walking(t, before, cmd.size, i, makers.levels, filledPriceLevels, remaining, s)
        invariant cmd.events == old(cmd.events) + s.events
        invariant orders == old(orders) - CompletedIds(s.events)
      {
        var level := makers.levels[i];
        assert level == makers.levels[i..][0] == before[i];
        assert level in makers.levels;
        if !Crosses(TakerOf(cmd.View()), level.price) || remaining == 0 {
          break;
        }
        assert level in before;
        ghost var x := Sweep(t, level.orders, remaining);
        DropAppend(old(orders), s.events, x.events);
        Assoc(old(cmd.events), s.events, x.events);
        ghost var had := remaining;
        var left;
        left, remaining := MatchLevel(level, cmd, remaining);
        WalkLevel(t, before, cmd.size, i, makers.levels, filledPriceLevels, had, s, left);
        makers.levels := makers.levels[i := left];
        if left.orders == [] {
          filledPriceLevels := filledPriceLevels + [left.price];
        }
        s := Chain(s, x);
        i := i + 1;
      }
      WalkDone(t, before, cmd.size, i, makers.levels, filledPriceLevels, remaining, s);
    }

    method AddToBook(cmd: OrderCommand, remaining: nat)
      requires ValidSides() && IdsBelow(View().Resting(cmd.side), cmd.orderId)
      requires 0 < remaining <= cmd.size && cmd.price <= U64_MAX
      modifies this`orders, bids, asks
      ensures ValidSides()
      ensures View() == Rest(old(View()), cmd.View(), remaining)
    {
      InsertGood(cmd.side, View().Resting(cmd.side), RestingOrder(cmd.View(), remaining));
      var order := Order(cmd.orderId, cmd.userId, cmd.price, remaining, cmd.size, cmd.side, cmd.tif,
                         cmd.status, cmd.timestamp);
      assert order == RestingOrder(cmd.View(), remaining);
      if cmd.side == Bid {
        AddToSide(bids, order);
      } else {
        AddToSide(asks, order);
      }
      orders := orders[cmd.orderId := cmd.price];
    }

    // The order goes to the back of the level at its price, which is made if missing.
    static method AddToSide(side: BookSide, order: Order)
      requires side.Valid() && order.side == side.side && GoodSide(side.side, Insert(Flatten(side.levels), order))
      modifies side
      ensures side.Valid() && Flatten(side.levels) == Insert(old(Flatten(side.levels)), order)
    {
      var level := side.GetOrCreateLevel(order.price);
      side.AddOrder(level, order);
    }

    static predicate IsMarketOrder(price: nat, side: Side) {
      (price == 0 && side == Ask) || (price == U64_MAX && side == Bid)
    }

    method CanFillCompletely(cmd: OrderCommand) returns (ok: bool)
      requires ValidSides() && 0 < cmd.size
      ensures ok <==> CanFill(View(), cmd.View())
      ensures ok ==> Offered(View(), cmd.View()) >= cmd.size
    {
      CountsOffered(View(), cmd.View());
      ok := CountLevels(if cmd.side == Bid then asks else bids, cmd);
    }

    // Level by level, until the size is reached or the prices leave the limit.
    static method CountLevels(makers: BookSide, cmd: OrderCommand) returns (ok: bool)
      requires makers.Valid() && makers.side == cmd.side.Opposite() && 0 < cmd.size
      ensures ok <==> Counted(TakerOf(cmd.View()), Flatten(makers.levels)) >= cmd.size
    {
      ghost var t := TakerOf(cmd.View());
      var side, levels := makers.side, makers.levels;
      LevelsSized(side, levels);
      var remaining := cmd.size;
      var i := 0;
      while i < |levels|
        invariant 0 <= i <= |levels|
        invariant 0 < remaining
        invariant Counted(t, Flatten(levels[..i])) + remaining == cmd.size
      {
        var level := levels[i];
        assert level in levels && level.orders[0] in level.orders;
        if !IsMarketOrder(cmd.price, cmd.side)
           && !(if cmd.side == Bid then level.price <= cmd.price else level.price >= cmd.price) {
          BehindUncrossed(t, side, levels, i);
          break;
        }
        CountedNext(side, t, levels, i);
        var availableVolume := Wrap64(OthersVolume(level.orders, cmd.userId));
        if availableVolume >= remaining {
          CountedPrefix(side, t, levels, i + 1);
          return true;
        }
        remaining := remaining - availableVolume;
        i := i + 1;
      }
      CountedPrefix(side, t, levels, i);
      return false;
    }

    method DepthPrices(side: BookSide) returns (prices: seq<nat>, volumes: seq<nat>)
      requires side.Valid()
      ensures var top := Top(Levels(Flatten(side.levels)));
              prices == Prices(top) && volumes == Volumes(top)
    {
      FlattenLevels(side.side, side.levels);
      ghost var depth := DepthOf(side.levels);
      prices, volumes := [], [];
      var i := 0;
      if |side.levels| > 0 {
        DepthAt(side.levels, 0);
      }
      while i < |side.levels| && i < L2_SIZE
        invariant 0 <= i <= |side.levels| == |depth| && i <= L2_SIZE
        invariant |prices| == |volumes| == i
        invariant forall k :: 0 <= k < i ==> prices[k] == depth[k].price && volumes[k] == Wrap64(depth[k].volume)
      {
        DepthAt(side.levels, i);
        assert side.levels[i] in side.levels;
        prices := prices + [side.levels[i].price];
        volumes := volumes + [side.levels[i].totalVolume];
        i := i + 1;
      }
    }

    method RecordSnapshot(cmd: OrderCommand)
      requires ValidSides()
      modifies cmd`l2Data
      ensures cmd.View() == WithSnapshot(View(), old(cmd.View()))
    {
      var bidPrices, bidVolumes := DepthPrices(bids);
      var askPrices, askVolumes := DepthPrices(asks);
      cmd.l2Data := Some(L2Data(bidPrices, bidVolumes, askPrices, askVolumes));
    }

    // What the cache says about this market after every request.
    function TopOfBook(): (nat, nat)
      reads this, bids, asks
    {
      (PriceTime.BestPrice(Bid, View().bids), PriceTime.BestPrice(Ask, View().asks))
    }

    method UpdatePriceCache(cache: PriceCache)
      requires ValidSides() && marketId in cache.prices
      modifies cache
      ensures cache.prices == old(cache.prices)[marketId := TopOfBook()]
      ensures MarketData.TrueTop(cache.prices[marketId], View())
    {
      MarketData.TopTrue(View());
      var bestBid := bids.BestPrice();
      var bestAsk := asks.BestPrice();
      cache.UpdatePrices(marketId, bestBid, bestAsk);
    }

    method PlaceOrder(cmd: OrderCommand, cache: PriceCache, ghost bound: nat)
      requires Valid(bound) && FreshOrder(cmd.View(), bound) && marketId in cache.prices
      modifies this`orders, bids, asks, cmd, cache
      ensures Valid(if old(cmd.status) == Rejected then bound else cmd.orderId + 1)
      ensures Outcome(View(), cmd.View()) == Place(old(View()), old(cmd.View()))
      ensures old(cmd.status) != Rejected ==>
                forall e :: e in cmd.events ==>
                  && (old(cmd.side) == Bid ==> e.price <= old(cmd.price))
                  && (old(cmd.side) == Ask ==> e.price >= old(cmd.price))
                  && e.makerUser != old(cmd.userId)
      ensures cache.prices ==
              if old(cmd.status) == Rejected then old(cache.prices) else old(cache.prices)[marketId := TopOfBook()]
      ensures old(cmd.status) != Rejected ==> MarketData.TrueTop(cache.prices[marketId], View())
    {
      if cmd.status == Rejected {
        return;
      }
      RequestLaws.TradesWithinLimit(View(), cmd.View());
      PlaceGood(View(), cmd.View(), bound);
      Execute(cmd);
      if cmd.price == 0 && cmd.side == Ask && cmd.events != [] {
        cmd.price := cmd.events[0].price;
      }
      RecordSnapshot(cmd);
      UpdatePriceCache(cache);
    }

    // The dispatch on time in force.
    method Execute(cmd: OrderCommand)
      requires ValidSides() && IdsBelow(View().Resting(cmd.side), cmd.orderId)
      requires 0 < cmd.size && cmd.price <= U64_MAX
      modifies this`orders, bids, asks, cmd
      ensures ValidSides()
      ensures Outcome(View(), cmd.View()) == PriceTime.Execute(old(View()), old(cmd.View()))
    {
      match cmd.tif {
        case Gtc => ExecuteGtc(cmd);
        case Fok => ExecuteFok(cmd);
        case Ioc => ExecuteIoc(cmd);
      }
    }

    method ExecuteGtc(cmd: OrderCommand)
      requires ValidSides() && IdsBelow(View().Resting(cmd.side), cmd.orderId)
      requires 0 < cmd.size && cmd.price <= U64_MAX && cmd.tif == Gtc
      modifies this`orders, bids, asks, cmd
      ensures ValidSides()
      ensures Outcome(View(), cmd.View()) == PriceTime.Execute(old(View()), old(cmd.View()))
    {
      ghost var b, c := View(), cmd.View();
      SweepFills(TakerOf(c), b.Resting(c.side.Opposite()), c.size);
      var remaining := MatchOrder(cmd);
      ghost var (m, s) := Match(b, c);
      assert View() == m && m.Resting(c.side) == b.Resting(c.side);
      assert cmd.View() == c.(events := c.events + s.events);
      RestSame(m, c, cmd.View(), remaining);
      if remaining == cmd.size {
        AddToBook(cmd, remaining);
        cmd.status := Placed;
      } else if remaining > 0 {
        AddToBook(cmd, remaining);
        cmd.status := PartiallyFilled;
      } else {
        cmd.status := Filled;
      }
      cmd.size := remaining;
    }

    method ExecuteFok(cmd: OrderCommand)
      requires ValidSides() && 0 < cmd.size && cmd.tif == Fok
      modifies this`orders, bids, asks, cmd
      ensures ValidSides()
      ensures Outcome(View(), cmd.View()) == PriceTime.Execute(old(View()), old(cmd.View()))
    {
      var ok := CanFillCompletely(cmd);
      if !ok {
        cmd.status := Cancelled;
      } else {
        var remaining := MatchOrder(cmd);
        cmd.status := if remaining == 0 then Filled else Cancelled;
        cmd.size := remaining;
      }
    }

    method ExecuteIoc(cmd: OrderCommand)
      requires ValidSides() && cmd.tif == Ioc
      modifies this`orders, bids, asks, cmd
      ensures ValidSides()
      ensures Outcome(View(), cmd.View()) == PriceTime.Execute(old(View()), old(cmd.View()))
    {
      var remaining := MatchOrder(cmd);
      if remaining == 0 {
        cmd.status := Filled;
      } else if remaining < cmd.size {
        cmd.status := PartiallyFilled;
      } else {
        cmd.status := Cancelled;
      }
      cmd.size := remaining;
    }

    // Binary search of a queue by order id.
    static method BinarySearch(queue: seq<Order>, id: nat) returns (position: Option<nat>)
      requires forall a, b :: 0 <= a < b < |queue| ==> queue[a].id < queue[b].id
      ensures match position
              case Some(k) => k < |queue| && queue[k].id == id
              case None => forall o :: o in queue ==> o.id != id
    {
      var low, high := 0, |queue|;
      while low < high
        invariant 0 <= low <= high <= |queue|
        invariant forall k :: 0 <= k < low ==> queue[k].id < id
        invariant forall k :: high <= k < |queue| ==> id < queue[k].id
      {
        var mid := (low + high) / 2;
        if queue[mid].id < id {
          low := mid + 1;
        } else if id < queue[mid].id {
          high := mid;
        } else {
          return Some(mid);
        }
      }
      return None;
    }

    // Takes the order at one place of a queue out of it, and copies its fields into
    // the command.
    method TakeOrder(side: BookSide, i: nat, at: nat, cmd: OrderCommand)
      requires i < |side.levels| && at < |side.levels[i].orders|
      modifies side, cmd
      ensures side.levels == old(side.levels)[i := LevelWithout(old(side.levels[i]), at)]
      ensures cmd.View() == CancelledBy(old(cmd.View()), old(side.levels[i].orders[at]))
    {
      var level := side.levels[i];
      var removed := level.orders[at];
      side.levels := side.levels[i := LevelWithout(level, at)];
      cmd.price := removed.price;
      cmd.size := removed.size;
      cmd.userId := removed.user;
      cmd.side := removed.side;
      cmd.status := Cancelled;
      cmd.originalSize := removed.originalSize;
    }

    // Removes the named order from the level at position i of one side, or
    // rejects the command when the level does not hold it.
    method RemoveOrder(side: BookSide, i: nat, cmd: OrderCommand)
      requires side.Valid() && i < |side.levels|
      modifies side, cmd
      ensures side.Valid()
      ensures match Lookup(old(Flatten(side.levels)), old(side.levels[i].price), cmd.orderId)
              case None =>
                Flatten(side.levels) == old(Flatten(side.levels)) && cmd.View() == old(cmd.View()).(status := Rejected)
              case Some(o) =>
                && Flatten(side.levels) == Without(old(Flatten(side.levels)), old(side.levels[i].price), cmd.orderId)
                && cmd.View() == CancelledBy(old(cmd.View()), o)
    {
      QueueSorted(side.side, side.levels, i);
      var price := side.levels[i].price;
      var position := BinarySearch(side.levels[i].orders, cmd.orderId);
      match position {
        case Some(at) =>
          Removal(side.side, side.levels, i, at);
          TakeOrder(side, i, at, cmd);
        case None =>
          CancelNotInLevel(side.side, side.levels, i, cmd.orderId);
          cmd.status := Rejected;
      }
      side.RemoveLevels([price]);
    }

    // Looks for the level at `price` on the bid side first, then on the ask side.
    method RemoveAtPrice(price: nat, cmd: OrderCommand) returns (found: bool)
      requires ValidSides()
      modifies bids, asks, cmd
      ensures ValidSides()
      ensures match SearchedSide(old(View()), price)
              case None => !found && View() == old(View()) && cmd.View() == old(cmd.View()).(status := Rejected)
              case Some(side) =>
                found && Outcome(View(), cmd.View()) == RemoveFrom(old(View()), side, price, old(cmd.View()))
    {
      HasPriceLevel(Bid, bids.levels, price);
      HasPriceLevel(Ask, asks.levels, price);
      var b, a := Rank(Bid, bids.levels, price), Rank(Ask, asks.levels, price);
      found := true;
      if b < |bids.levels| && bids.levels[b].price == price {
        RemoveOrder(bids, b, cmd);
      } else if a < |asks.levels| && asks.levels[a].price == price {
        RemoveOrder(asks, a, cmd);
      } else {
        found := false;
        cmd.status := Rejected;
      }
    }

    method CancelOrder(cmd: OrderCommand, cache: PriceCache, ghost bound: nat)
      requires Valid(bound) && marketId in cache.prices
      modifies this`orders, bids, asks, cmd, cache
      ensures Valid(bound)
      ensures Outcome(View(), cmd.View()) == Cancel(old(View()), old(cmd.View()))
      ensures cache.prices ==
              if old(cmd.status) == Rejected then old(cache.prices) else old(cache.prices)[marketId := TopOfBook()]
      ensures old(cmd.status) != Rejected ==> MarketData.TrueTop(cache.prices[marketId], View())
    {
      if cmd.status == Rejected {
        return;
      }
      CancelGood(View(), cmd.View(), bound);
      CancelIndexed(cmd);
      UpdatePriceCache(cache);
    }

    method CancelIndexed(cmd: OrderCommand)
      requires ValidSides() && cmd.status != Rejected
      modifies this`orders, bids, asks, cmd
      ensures ValidSides()
      ensures Outcome(View(), cmd.View()) == Cancel(old(View()), old(cmd.View()))
    {
      if cmd.orderId in orders {
        var price := orders[cmd.orderId];
        orders := orders - {cmd.orderId};
        assert View() == old(View()).(index := orders) && cmd.View() == old(cmd.View());
        var found := RemoveAtPrice(price, cmd);
        if found {
          RecordSnapshot(cmd);
        }
      } else {
        cmd.status := Rejected;
      }
    }
  }

  // The events of a command play no part in how its rest is stored.
  lemma RestSame(b: Book, c: Command, d: Command, remaining: nat)
    requires d == c.(events := d.events)
    ensures Rest(b, d, remaining) == Rest(b, c, remaining)
  {
    assert RestingOrder(d, remaining) == RestingOrder(c, remaining);
  }

  // A level without the order at one place.
  function LevelWithout(level: PriceLevel, at: nat): PriceLevel
    requires at < |level.orders|
  {
    PriceLevel(level.price, Wrap64(level.totalVolume - level.orders[at].size),
               level.orders[..at] + level.orders[at + 1..])
  }

  // Taking an order out of its queue takes it out of the flat list.
  lemma Removal(side: Side, levels: seq<PriceLevel>, i: nat, at: nat)
    requires Shaped(side, levels) && NoneEmpty(levels) && GoodSide(side, Flatten(levels))
    requires i < |levels| && at < |levels[i].orders|
    ensures var o, price := levels[i].orders[at], levels[i].price;
            var now := levels[i := LevelWithout(levels[i], at)];
            && Lookup(Flatten(levels), price, o.id) == Some(o)
            && Flatten(now) == Without(Flatten(levels), price, o.id)
            && Shaped(side, now) && GoodSide(side, Flatten(now))
            && (forall l :: l in now && l.orders == [] ==> l.price in [price])
  {
    CancelInLevel(side, levels, i, at);
    WithoutDrops(side, Flatten(levels), levels[i].price, levels[i].orders[at].id);
    ReplacedNoneEmpty(levels, i, LevelWithout(levels[i], at));
  }

  // Only the replaced level can have become empty.
  lemma ReplacedNoneEmpty(levels: seq<PriceLevel>, i: nat, left: PriceLevel)
    requires NoneEmpty(levels) && i < |levels| && left.price == levels[i].price
    ensures forall l :: l in levels[i := left] && l.orders == [] ==> l.price in [left.price]
  {
    assert forall l :: l in levels[i := left] ==> l == left || l in levels;
  }

  // Once the taker is spent, the rest of the queue is left as it is.
  lemma SweepTailIdle(t: Taker, orders: seq<Order>, i: nat, remaining: nat)
    requires i <= |orders|
    requires i == |orders| || Sweep(t, orders[..i], remaining).remaining == 0
    ensures var x := Sweep(t, orders[..i], remaining);
            Sweep(t, orders, remaining) == x.(orders := x.orders + orders[i..])
  {
    var x := Sweep(t, orders[..i], remaining);
    assert orders == orders[..i] + orders[i..];
    SweepAppend(t, orders[..i], orders[i..], remaining);
    SweepExhausted(t, orders[i..]);
    assert x.events + [] == x.events;
  }

  lemma AliveTail(queue: seq<Order>, original: seq<Order>, i: nat)
    requires i <= |queue| == |original| && Sized(original)
    requires forall k :: i <= k < |queue| ==> queue[k] == original[k]
    ensures queue[i..] == original[i..]
    ensures Alive(queue) == Alive(queue[..i]) + original[i..]
    ensures Zeros(queue) == Zeros(queue[..i])
  {
    var front, back := queue[..i], queue[i..];
    assert back == original[i..] && queue == front + back;
    assert forall o :: o in back ==> o in original;
    AliveAppend(front, back);
    AliveSized(back);
    forall k | i <= k < |queue|
      ensures queue[k].size > 0
    {
      assert original[k] in original;
    }
    ZerosTail(queue, i);
  }

  lemma {:induction false} ZerosTail(queue: seq<Order>, i: nat)
    requires i <= |queue| && forall k :: i <= k < |queue| ==> queue[k].size > 0
    ensures Zeros(queue) == Zeros(queue[..i])
    decreases |queue|
  {
    if i == |queue| {
      assert queue[..i] == queue;
    } else {
      var n := |queue| - 1;
      ZerosTail(queue[..n], i);
      assert queue[..n][..i] == queue[..i];
    }
  }

  // --- Facts about the levels being matched ---------------------------------------------

  lemma LevelsSized(side: Side, levels: seq<PriceLevel>)
    requires GoodSide(side, Flatten(levels))
    ensures forall l :: l in levels ==> Sized(l.orders)
  {
    forall l, o | l in levels && o in l.orders
      ensures 0 < o.size <= o.originalSize && o.price <= U64_MAX
    {
      FlattenMembers(levels, o);
    }
  }

  lemma SweepLevel(t: Taker, levels: seq<PriceLevel>, i: nat, size: nat)
    requires i < |levels|
    ensures var x := Sweep(t, Flatten(levels[..i]), size);
            Sweep(t, Flatten(levels[..i + 1]), size) == Chain(x, Sweep(t, levels[i].orders, x.remaining))
  {
    FlattenSnoc(levels, i);
    SweepAppend(t, Flatten(levels[..i]), levels[i].orders, size);
  }

  lemma ReplaceLevel(side: Side, levels: seq<PriceLevel>, i: nat, left: PriceLevel, t: Taker, n: nat)
    requires Shaped(side, levels) && i < |levels|
    requires left.price == levels[i].price && left.totalVolume == Wrap64(Volume(left.orders))
    requires Sized(levels[i].orders) && left.orders == Sweep(t, levels[i].orders, n).orders
    ensures Shaped(side, levels[i := left])
  {
    SweepLeaves(t, levels[i].orders, n);
    assert levels[i] in levels;
    forall l | l in levels[i := left]
      ensures TrueLevel(l)
    {
      assert l == left || l in levels;
    }
  }

  // Once the price stops crossing or the taker is spent, no later level changes.
  lemma SweepLevelsIdle(t: Taker, side: Side, levels: seq<PriceLevel>, i: nat, size: nat)
    requires Shaped(side, levels) && side == t.side.Opposite() && i <= |levels|
    requires i == |levels| || !Crosses(t, levels[i].price) || Sweep(t, Flatten(levels[..i]), size).remaining == 0
    ensures var x := Sweep(t, Flatten(levels[..i]), size);
            Sweep(t, Flatten(levels), size) == x.(orders := x.orders + Flatten(levels[i..]))
  {
    var left := Sweep(t, Flatten(levels[..i]), size).remaining;
    assert levels == levels[..i] + levels[i..];
    FlattenAppend(levels[..i], levels[i..]);
    if i == |levels| {
      assert Flatten(levels[i..]) == [];
    } else if !Crosses(t, levels[i].price) {
      BehindUncrossed(t, side, levels, i);
      SweepIneligible(t, Flatten(levels[i..]), left);
    } else {
      SweepExhausted(t, Flatten(levels[i..]));
    }
    IdleBehind(t, Flatten(levels[..i]), Flatten(levels[i..]), size);
  }

  // A list of which a pass takes nothing stays behind what it leaves of the front.
  lemma IdleBehind(t: Taker, front: seq<Order>, back: seq<Order>, size: nat)
    requires var left := Sweep(t, front, size).remaining; Sweep(t, back, left) == Swept(back, [], left)
    ensures var x := Sweep(t, front, size);
            Sweep(t, front + back, size) == x.(orders := x.orders + back)
  {
    var x := Sweep(t, front, size);
    SweepAppend(t, front, back, size);
    assert x.events + [] == x.events;
  }

  lemma BehindUncrossed(t: Taker, side: Side, levels: seq<PriceLevel>, i: nat)
    requires Shaped(side, levels) && side == t.side.Opposite()
    requires i < |levels| && !Crosses(t, levels[i].price)
    ensures forall o :: o in Flatten(levels[i..]) ==> !Eligible(t, o)
  {
    forall o | o in Flatten(levels[i..])
      ensures !Eligible(t, o)
    {
      FlattenMembers(levels[i..], o);
      var l :| l in levels[i..] && o in l.orders;
      var k :| i <= k < |levels| && levels[k] == l;
      assert l in levels;
      assert i < k ==> Better(side, levels[i].price, levels[k].price);
    }
  }
}
