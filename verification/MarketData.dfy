// Market data published from the book agrees with brute force over its orders.
module MarketData {
  import opened Orders
  import opened PriceTime
  import opened Matching
  import BookLaws

  // Total size resting at one price, counted order by order.
  function VolumeAt(orders: seq<Order>, price: nat): nat {
    if orders == [] then 0
    else (if orders[0].price == price then orders[0].size else 0) + VolumeAt(orders[1..], price)
  }

  lemma {:induction false} NoVolumeAt(orders: seq<Order>, price: nat)
    requires forall o :: o in orders ==> o.price != price
    ensures VolumeAt(orders, price) == 0
  {
    if orders != [] {
      NoVolumeAt(orders[1..], price);
    }
  }

  predicate HasLevel(levels: seq<Depth>, price: nat) {
    exists l :: l in levels && l.price == price
  }

  ghost predicate SortedLevels(side: Side, levels: seq<Depth>) {
    forall i, j :: 0 <= i < j < |levels| ==> Better(side, levels[i].price, levels[j].price)
  }

  lemma {:induction false} LevelsCover(orders: seq<Order>, price: nat)
    ensures HasLevel(Levels(orders), price) <==> HasPrice(orders, price)
  {
    if orders != [] {
      var o, tail := orders[0], orders[1..];
      LevelsCover(tail, price);
      var rest, levels := Levels(tail), Levels(orders);
      assert o in orders && levels[0] in levels && levels[0].price == o.price;
      if x :| x in tail && x.price == price {
        assert x in orders;
        var l :| l in rest && l.price == price;
        assert l in levels || l == rest[0];
      }
      if l :| l in levels && l.price == price {
        assert l == levels[0] || l in rest;
      }
    }
  }

  lemma {:induction false} LevelsSorted(side: Side, orders: seq<Order>)
    requires GoodSide(side, orders)
    ensures SortedLevels(side, Levels(orders))
  {
    if orders != [] {
      var o, tail := orders[0], orders[1..];
      GoodTail(side, orders);
      LevelsSorted(side, tail);
      var rest := Levels(tail);
      forall l | l in rest
        ensures l.price == o.price || Better(side, o.price, l.price)
      {
        LevelsCover(tail, l.price);
        var x :| x in tail && x.price == l.price;
        assert Before(side, o, x);
      }
      if rest != [] {
        LevelsHead(tail);
        if rest[0].price != o.price {
          assert rest[0] in rest;
          assert forall i :: 0 < i < |rest| ==> Better(side, rest[0].price, rest[i].price);
        }
      }
    }
  }

  lemma {:induction false} LevelsVolume(side: Side, orders: seq<Order>, l: Depth)
    requires GoodSide(side, orders) && l in Levels(orders)
    ensures l.volume == VolumeAt(orders, l.price)
  {
    var o, tail := orders[0], orders[1..];
    GoodTail(side, orders);
    LevelsSorted(side, orders);
    var rest, levels := Levels(tail), Levels(orders);
    if l == levels[0] {
      if rest != [] && rest[0].price == o.price {
        LevelsVolume(side, tail, rest[0]);
      } else {
        LevelsCover(tail, o.price);
        assert forall i :: 0 <= i < |rest| ==> levels[i + 1] == rest[i] && rest[i].price != o.price;
        NoVolumeAt(tail, o.price);
      }
    } else {
      assert l in rest;
      LevelsVolume(side, tail, l);
    }
  }

  // What a level publishes of its volume: the low 64 bits, and so the volume
  // itself exactly when that fits a machine word.
  predicate Published(shown: nat, volume: nat) {
    shown == Wrap64(volume) && (shown == volume <==> volume <= U64_MAX)
  }

  // The price in front is the better one for whoever trades with the side.
  predicate InFront(side: Side, p: nat, q: nat) {
    match side
    case Bid => q < p
    case Ask => p < q
  }

  // A snapshot side: strictly sorted, published volumes, at most ten levels, and any
  // resting price it leaves out is worse than all the ten it shows.
  ghost predicate TrueDepth(side: Side, orders: seq<Order>, prices: seq<nat>, volumes: seq<nat>) {
    && |prices| == |volumes| <= 10
    && (forall i, j :: 0 <= i < j < |prices| ==> InFront(side, prices[i], prices[j]))
    && (forall i :: 0 <= i < |prices| ==>
          Published(volumes[i], VolumeAt(orders, prices[i])) && HasPrice(orders, prices[i]))
    && (forall o :: o in orders && o.price !in prices ==>
          |prices| == 10 && forall i :: 0 <= i < |prices| ==> InFront(side, prices[i], o.price))
  }

  lemma DepthTrue(side: Side, orders: seq<Order>)
    requires GoodSide(side, orders)
    ensures var top := Top(Levels(orders)); TrueDepth(side, orders, Prices(top), Volumes(top))
  {
    LevelsSorted(side, orders);
    var levels := Levels(orders);
    var prices, volumes := Prices(Top(levels)), Volumes(Top(levels));
    assert forall i :: 0 <= i < |prices| ==> prices[i] in prices && prices[i] == levels[i].price;
    forall i | 0 <= i < |prices|
      ensures Published(volumes[i], VolumeAt(orders, prices[i])) && HasPrice(orders, prices[i])
    {
      assert levels[i] in levels;
      LevelsVolume(side, orders, levels[i]);
      LevelsCover(orders, prices[i]);
      WrapShrinks(VolumeAt(orders, prices[i]));
    }
    forall o | o in orders && o.price !in prices
      ensures |prices| == 10 && forall i :: 0 <= i < |prices| ==> InFront(side, prices[i], o.price)
    {
      LevelsCover(orders, o.price);
      var l :| l in levels && l.price == o.price;
      var k :| 0 <= k < |levels| && levels[k] == l;
      assert k >= |prices|;
    }
  }

  lemma SnapshotTrue(b: Book, bound: nat)
    requires BookLaws.GoodBook(b, bound)
    ensures var l2 := Snapshot(b);
            && TrueDepth(Bid, b.bids, l2.bidPrices, l2.bidVolumes)
            && TrueDepth(Ask, b.asks, l2.askPrices, l2.askVolumes)
  {
    DepthTrue(Bid, b.bids);
    DepthTrue(Ask, b.asks);
  }

  // The price a brute-force scan of the whole side would find: the lowest ask, or the
  // highest bid.
  function ScanBest(side: Side, orders: seq<Order>): nat {
    if orders == [] then (if side == Ask then 0xFFFF_FFFF_FFFF_FFFF else 0)
    else if |orders| == 1 then orders[0].price
    else
      var rest := ScanBest(side, orders[1..]);
      if (if side == Ask then rest < orders[0].price else rest > orders[0].price) then rest else orders[0].price
  }

  lemma {:induction false} ScanAttained(side: Side, orders: seq<Order>)
    requires orders != []
    ensures HasPrice(orders, ScanBest(side, orders))
  {
    if |orders| == 1 {
      assert orders[0] in orders;
    } else {
      ScanAttained(side, orders[1..]);
      if o :| o in orders[1..] && o.price == ScanBest(side, orders[1..]) {
        assert o in orders;
      }
      assert orders[0] in orders;
    }
  }

  lemma BestPriceIsBest(side: Side, orders: seq<Order>)
    requires GoodSide(side, orders)
    ensures BestPrice(side, orders) == ScanBest(side, orders)
    ensures forall o :: o in orders ==>
              if side == Ask then BestPrice(side, orders) <= o.price else o.price <= BestPrice(side, orders)
  {
    if |orders| > 1 {
      GoodTail(side, orders);
      ScanAttained(side, orders[1..]);
    }
  }

  // The pair shows the highest bid and the lowest ask, with 0 and the greatest word
  // for a side without orders.
  ghost predicate TrueTop(top: (nat, nat), b: Book) {
    && (forall o :: o in b.bids ==> o.price <= top.0)
    && (if b.bids == [] then top.0 == 0 else exists o :: o in b.bids && o.price == top.0)
    && (forall o :: o in b.asks ==> top.1 <= o.price)
    && (if b.asks == [] then top.1 == 0xFFFF_FFFF_FFFF_FFFF else exists o :: o in b.asks && o.price == top.1)
  }

  lemma TopTrue(b: Book)
    requires GoodSide(Bid, b.bids) && GoodSide(Ask, b.asks)
    ensures TrueTop((BestPrice(Bid, b.bids), BestPrice(Ask, b.asks)), b)
  {
    BestPriceIsBest(Bid, b.bids);
    BestPriceIsBest(Ask, b.asks);
    if b.bids != [] {
      assert b.bids[0] in b.bids;
    }
    if b.asks != [] {
      assert b.asks[0] in b.asks;
    }
  }
}
