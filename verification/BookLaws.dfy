// Invariants of the reference book under place and cancel.
module BookLaws {
  import opened Orders
  import opened PriceTime
  import opened Matching

  ghost predicate IdsBelow(orders: seq<Order>, bound: nat) {
    forall o :: o in orders ==> o.id < bound
  }

  ghost predicate Disjoint(bids: seq<Order>, asks: seq<Order>) {
    forall x, y :: x in bids && y in asks ==> x.id != y.id
  }

  ghost predicate Rests(b: Book, id: nat, price: nat) {
    exists o :: (o in b.bids || o in b.asks) && o.id == id && o.price == price
  }

  // Every index entry names a resting order at the recorded price.
  ghost predicate IndexSound(b: Book) {
    forall id :: id in b.index ==> Rests(b, id, b.index[id])
  }

  // Every resting order is indexed at its own price.
  ghost predicate IndexComplete(b: Book) {
    forall o :: o in b.bids || o in b.asks ==> o.id in b.index && b.index[o.id] == o.price
  }

  ghost predicate GoodBook(b: Book, bound: nat) {
    && GoodSide(Bid, b.bids) && GoodSide(Ask, b.asks)
    && Disjoint(b.bids, b.asks)
    && IdsBelow(b.bids, bound) && IdsBelow(b.asks, bound)
    && IndexSound(b)
  }

  // A bid and an ask that could trade belong to one user.
  ghost predicate NotCrossed(b: Book) {
    forall x, y :: x in b.bids && y in b.asks && x.price >= y.price ==> x.user == y.user
  }

  // What the gateway and the id generator guarantee for a new order.
  predicate FreshOrder(c: Command, bound: nat) {
    c.status != Rejected ==> 0 < c.size && c.price <= U64_MAX && bound <= c.orderId && c.events == []
  }

  // --- Matching step ---------------------------------------------------------

  lemma MatchIndex(b: Book, c: Command, bound: nat)
    requires GoodBook(b, bound)
    ensures IndexSound(Match(b, c).0)
    ensures IndexComplete(b) ==> IndexComplete(Match(b, c).0)
  {
    var (m, s) := Match(b, c);
    var t, makers := TakerOf(c), b.Resting(c.side.Opposite());
    SweepTrades(t, makers, c.size);
    SweepLeaves(t, makers, c.size);
    forall id | id in m.index
      ensures Rests(m, id, m.index[id])
    {
      var y :| (y in b.bids || y in b.asks) && y.id == id && y.price == b.index[id];
      if y in makers {
        SweepKeeps(t, makers, c.size, y);
        assert forall e :: e in s.events && e.makerCompleted ==> e.makerId in CompletedIds(s.events);
        var x :| x in s.orders && LeftOf(x, y);
        assert x in m.bids || x in m.asks;
      } else {
        assert y in m.bids || y in m.asks;
      }
    }
    if IndexComplete(b) {
      forall x | x in m.bids || x in m.asks
        ensures x.id in m.index && m.index[x.id] == x.price
      {
        forall e | e in s.events && e.makerCompleted
          ensures e.makerId != x.id
        {
          var z :| z in makers && TradeOf(t, e, z);
          if x in s.orders {
            SweepCompletes(t, makers, c.size, e);
          }
        }
        if x in s.orders {
          var y :| y in makers && LeftOf(x, y);
        }
      }
    }
  }

  lemma MatchGood(b: Book, c: Command, bound: nat)
    requires GoodBook(b, bound)
    ensures GoodBook(Match(b, c).0, bound)
    ensures NotCrossed(b) ==> NotCrossed(Match(b, c).0)
  {
    var (m, s) := Match(b, c);
    var t, side := TakerOf(c), c.side.Opposite();
    var makers := b.Resting(side);
    SweepGood(t, side, makers, c.size);
    SweepLeaves(t, makers, c.size);
    MatchIndex(b, c, bound);
  }

  // --- Resting step ----------------------------------------------------------

  lemma {:induction false} InsertAdds(orders: seq<Order>, o: Order)
    ensures forall x :: x in Insert(orders, o) <==> x == o || x in orders
  {
    if orders != [] && !Better(o.side, o.price, orders[0].price) {
      InsertAdds(orders[1..], o);
      assert forall x :: x in orders <==> x == orders[0] || x in orders[1..];
    }
  }

  lemma {:induction false} InsertGood(side: Side, orders: seq<Order>, o: Order)
    requires GoodSide(side, orders) && o.side == side && 0 < o.size <= o.originalSize && o.price <= U64_MAX
    requires IdsBelow(orders, o.id)
    ensures GoodSide(side, Insert(orders, o))
  {
    if orders == [] {
    } else if Better(side, o.price, orders[0].price) {
      GoodTail(side, orders);
      GoodCons(side, o, orders);
    } else {
      GoodTail(side, orders);
      InsertGood(side, orders[1..], o);
      InsertAdds(orders[1..], o);
      GoodCons(side, orders[0], Insert(orders[1..], o));
    }
  }

  lemma RestGood(b: Book, c: Command, remaining: nat, bound: nat)
    requires GoodBook(b, bound) && 0 < remaining <= c.size && bound <= c.orderId && c.price <= U64_MAX
    ensures GoodBook(Rest(b, c, remaining), c.orderId + 1)
    ensures IndexComplete(b) ==> IndexComplete(Rest(b, c, remaining))
  {
    var o := RestingOrder(c, remaining);
    var orders := b.Resting(c.side);
    InsertGood(c.side, orders, o);
    InsertAdds(orders, o);
    var r := Rest(b, c, remaining);
    forall id | id in r.index
      ensures Rests(r, id, r.index[id])
    {
      if id != c.orderId {
        var y :| (y in b.bids || y in b.asks) && y.id == id && y.price == b.index[id];
        assert y in r.bids || y in r.asks;
      } else {
        assert o in r.bids || o in r.asks;
      }
    }
  }

  // --- Place -----------------------------------------------------------------

  // The three books a placed order can leave: untouched, matched, or matched
  // with the rest of the order added.
  lemma PlaceBook(b: Book, c: Command)
    requires c.status != Rejected && 0 < c.size
    ensures var (m, s) := Match(b, c);
            Place(b, c).book ==
            if c.tif == Fok && !CanFill(b, c) then b
            else if c.tif == Gtc && s.remaining > 0 then Rest(m, c, s.remaining)
            else m
    ensures Match(b, c).1.remaining <= c.size
  {
    SweepFills(TakerOf(c), b.Resting(c.side.Opposite()), c.size);
  }

  lemma PlaceGood(b: Book, c: Command, bound: nat)
    requires GoodBook(b, bound) && FreshOrder(c, bound)
    ensures GoodBook(Place(b, c).book, if c.status == Rejected then bound else c.orderId + 1)
    ensures IndexComplete(b) ==> IndexComplete(Place(b, c).book)
  {
    if c.status != Rejected {
      var (m, s) := Match(b, c);
      MatchGood(b, c, bound);
      MatchIndex(b, c, bound);
      PlaceBook(b, c);
      if c.tif == Gtc && s.remaining > 0 {
        RestGood(m, c, s.remaining, bound);
      } else {
        Widen(Place(b, c).book, bound, c.orderId + 1);
      }
    }
  }

  lemma Widen(b: Book, bound: nat, wider: nat)
    requires GoodBook(b, bound) && bound <= wider
    ensures GoodBook(b, wider)
  {
  }

  lemma PlaceNotCrossed(b: Book, c: Command, bound: nat)
    requires GoodBook(b, bound) && FreshOrder(c, bound) && NotCrossed(b)
    ensures NotCrossed(Place(b, c).book)
  {
    if c.status != Rejected {
      var (m, s) := Match(b, c);
      MatchGood(b, c, bound);
      PlaceBook(b, c);
      if s.remaining > 0 && c.tif == Gtc {
        SweepExhausts(TakerOf(c), b.Resting(c.side.Opposite()), c.size);
        InsertAdds(m.Resting(c.side), RestingOrder(c, s.remaining));
      }
    }
  }

  // --- Cancel ----------------------------------------------------------------

  lemma {:induction false} LookupFinds(orders: seq<Order>, price: nat, id: nat)
    ensures match Lookup(orders, price, id)
            case Some(o) => o in orders && o.price == price && o.id == id
            case None => forall o :: o in orders ==> o.price != price || o.id != id
  {
    if orders != [] {
      LookupFinds(orders[1..], price, id);
    }
  }

  lemma {:induction false} WithoutDrops(side: Side, orders: seq<Order>, price: nat, id: nat)
    requires GoodSide(side, orders)
    ensures GoodSide(side, Without(orders, price, id))
    ensures forall x :: x in Without(orders, price, id) <==> x in orders && !(x.price == price && x.id == id)
  {
    if orders != [] {
      GoodTail(side, orders);
      assert forall x :: x in orders <==> x == orders[0] || x in orders[1..];
      if !(orders[0].price == price && orders[0].id == id) {
        WithoutDrops(side, orders[1..], price, id);
        GoodCons(side, orders[0], Without(orders[1..], price, id));
      }
    }
  }

  lemma CancelGood(b: Book, c: Command, bound: nat)
    requires GoodBook(b, bound)
    ensures GoodBook(Cancel(b, c).book, bound)
    ensures NotCrossed(b) ==> NotCrossed(Cancel(b, c).book)
  {
    if c.status != Rejected && c.orderId in b.index {
      var price := b.index[c.orderId];
      WithoutDrops(Bid, b.bids, price, c.orderId);
      WithoutDrops(Ask, b.asks, price, c.orderId);
      LookupFinds(b.bids, price, c.orderId);
      LookupFinds(b.asks, price, c.orderId);
      var r := Cancel(b, c).book;
      forall id | id in r.index
        ensures Rests(r, id, r.index[id])
      {
        var y :| (y in b.bids || y in b.asks) && y.id == id && y.price == b.index[id];
        assert y in r.bids || y in r.asks;
      }
    }
  }

  // The one case in which a cancel goes wrong: the order is an ask, and some
  // bid rests at the very same price, so only the bids are searched.
  ghost predicate MissedAsk(b: Book, id: nat) {
    id in b.index && HasPrice(b.bids, b.index[id]) && exists o :: o in b.asks && o.id == id
  }

  // r is b with exactly the order named id gone, from its list and the index.
  ghost predicate RemovedExactly(b: Book, r: Book, id: nat) {
    && (forall o :: o in r.bids <==> o in b.bids && o.id != id)
    && (forall o :: o in r.asks <==> o in b.asks && o.id != id)
    && r.index == b.index - {id}
  }

  lemma CancelFound(b: Book, c: Command, side: Side, o: Order, bound: nat)
    requires GoodBook(b, bound) && c.status != Rejected && c.orderId == o.id
    requires o.id in b.index && b.index[o.id] == o.price
    requires SearchedSide(b, o.price) == Some(side) && o in b.Resting(side)
    ensures var r := Cancel(b, c);
            && RemovedExactly(b, r.book, o.id)
            && r.cmd == CancelledBy(c, o).(l2Data := r.cmd.l2Data)
  {
    LookupIs(b.Resting(side), o);
    WithoutDrops(side, b.Resting(side), o.price, o.id);
    CancelSearches(b, c, side);
    RemovedSide(b, side, o, bound);
  }

  lemma LookupIs(orders: seq<Order>, o: Order)
    requires DistinctIds(orders) && o in orders
    ensures Lookup(orders, o.price, o.id) == Some(o)
  {
    LookupFinds(orders, o.price, o.id);
    var x := Lookup(orders, o.price, o.id).value;
    var i, j :| 0 <= i < |orders| && 0 <= j < |orders| && orders[i] == o && orders[j] == x;
    assert i == j;
  }

  // A cancel of an indexed order is a removal from the side that is searched.
  lemma CancelSearches(b: Book, c: Command, side: Side)
    requires c.status != Rejected && c.orderId in b.index
    requires SearchedSide(b, b.index[c.orderId]) == Some(side)
    ensures var r, removed := Cancel(b, c), RemoveFrom(b.(index := b.index - {c.orderId}), side, b.index[c.orderId], c);
            r.book == removed.book && r.cmd == removed.cmd.(l2Data := r.cmd.l2Data)
  {
  }

  lemma RemovedSide(b: Book, side: Side, o: Order, bound: nat)
    requires GoodBook(b, bound) && o in b.Resting(side)
    requires forall x :: x in Without(b.Resting(side), o.price, o.id) <==> x in b.Resting(side) && x.id != o.id
    ensures var dropped := b.(index := b.index - {o.id});
            RemovedExactly(b, dropped.WithResting(side, Without(b.Resting(side), o.price, o.id)), o.id)
  {
  }

  lemma CancelMissed(b: Book, c: Command, o: Order, bound: nat)
    requires GoodBook(b, bound) && c.status != Rejected && c.orderId == o.id
    requires o.id in b.index && b.index[o.id] == o.price
    requires o in b.asks && HasPrice(b.bids, o.price)
    ensures var r := Cancel(b, c);
            && r.book == b.(index := b.index - {o.id})
            && r.cmd.status == Rejected
  {
    LookupFinds(b.bids, o.price, o.id);
  }

  // The missed ask stays, without its index entry.
  lemma MissedBreaks(b: Book, c: Command, o: Order, bound: nat)
    requires GoodBook(b, bound) && c.status != Rejected && c.orderId == o.id
    requires o.id in b.index && b.index[o.id] == o.price && (o in b.bids || o in b.asks) && MissedAsk(b, o.id)
    ensures var r := Cancel(b, c);
            && r.book == b.(index := b.index - {o.id}) && r.cmd.status == Rejected
            && !IndexComplete(r.book) && !RemovedExactly(b, r.book, o.id)
  {
    var y :| y in b.asks && y.id == o.id;
    assert o in b.asks;
    CancelMissed(b, c, o, bound);
    assert o in Cancel(b, c).book.asks;
  }

  lemma FoundKeeps(b: Book, c: Command, o: Order, bound: nat)
    requires GoodBook(b, bound) && IndexComplete(b) && c.status != Rejected && c.orderId == o.id
    requires o.id in b.index && b.index[o.id] == o.price && (o in b.bids || o in b.asks) && !MissedAsk(b, o.id)
    ensures var r := Cancel(b, c);
            IndexComplete(r.book) && RemovedExactly(b, r.book, o.id) && r.cmd.status == Cancelled
  {
    CancelFound(b, c, if o in b.bids then Bid else Ask, o, bound);
  }

  // A cancel of an indexed order removes exactly that order, keeps the index
  // complete and succeeds, if and only if it is not a missed ask.
  lemma CancelExact(b: Book, c: Command, bound: nat)
    requires GoodBook(b, bound) && IndexComplete(b)
    requires c.status != Rejected && c.orderId in b.index
    ensures var r := Cancel(b, c);
            var ok := !MissedAsk(b, c.orderId);
            && (ok <==> IndexComplete(r.book))
            && (ok <==> RemovedExactly(b, r.book, c.orderId))
            && (ok <==> r.cmd.status == Cancelled)
            && (!ok ==> r.book == b.(index := b.index - {c.orderId}) && r.cmd.status == Rejected)
  {
    var id, price := c.orderId, b.index[c.orderId];
    var o :| (o in b.bids || o in b.asks) && o.id == id && o.price == price;
    if MissedAsk(b, id) {
      MissedBreaks(b, c, o, bound);
    } else {
      FoundKeeps(b, c, o, bound);
    }
  }

  // A successful cancel reports the order it removed.
  lemma CancelReports(b: Book, c: Command, bound: nat, o: Order)
    requires GoodBook(b, bound) && IndexComplete(b)
    requires c.status != Rejected && !MissedAsk(b, o.id) && c.orderId == o.id
    requires o in b.bids || o in b.asks
    ensures var d := Cancel(b, c).cmd;
            && d.status == Cancelled && d.price == o.price && d.size == o.size && d.userId == o.user
            && d.side == o.side && d.originalSize == o.originalSize
  {
    assert o.id in b.index && b.index[o.id] == o.price;
    CancelFound(b, c, if o in b.bids then Bid else Ask, o, bound);
  }

  // --- Fill or kill ----------------------------------------------------------

  function SumOf(levels: seq<Depth>): nat {
    if levels == [] then 0 else levels[0].volume + SumOf(levels[1..])
  }

  // Every level's volume fits a machine word.
  ghost predicate LevelsFit(levels: seq<Depth>) {
    forall l :: l in levels ==> l.volume <= U64_MAX
  }

  lemma {:induction false} EligibleLevels(t: Taker, orders: seq<Order>)
    ensures SumOf(Levels(EligibleOrders(t, orders))) == EligibleVolume(t, orders)
  {
    if orders != [] {
      var o, tail := orders[0], EligibleOrders(t, orders[1..]);
      EligibleLevels(t, orders[1..]);
      if Eligible(t, o) {
        assert EligibleOrders(t, orders)[1..] == tail;
      } else {
        assert EligibleOrders(t, orders) == tail;
      }
    }
  }

  lemma {:induction false} WrappedExact(levels: seq<Depth>)
    ensures WrappedTotal(levels) <= SumOf(levels)
    ensures WrappedTotal(levels) == SumOf(levels) <==> LevelsFit(levels)
  {
    if levels != [] {
      WrapShrinks(levels[0].volume);
      WrappedExact(levels[1..]);
      assert forall l :: l in levels <==> l == levels[0] || l in levels[1..];
    }
  }

  // The count never exceeds the eligible volume, and is that volume exactly when
  // what is eligible at each price fits a machine word.
  lemma CountedExact(t: Taker, orders: seq<Order>)
    ensures Counted(t, orders) <= EligibleVolume(t, orders)
    ensures Counted(t, orders) == EligibleVolume(t, orders) <==> LevelsFit(Levels(EligibleOrders(t, orders)))
  {
    EligibleLevels(t, orders);
    WrappedExact(Levels(EligibleOrders(t, orders)));
  }

  // Either nothing happens to the book or the order trades in full; the
  // fallback that would cancel after matching is never taken.
  lemma FillOrKill(b: Book, c: Command)
    requires c.status != Rejected && c.tif == Fok && c.events == []
    ensures var r := Place(b, c);
            if CanFill(b, c) then
              r.cmd.status == Filled && r.cmd.size == 0 && Traded(r.cmd.events) == c.size
            else
              && r.book == b && r.cmd.status == Cancelled
              && r.cmd.events == [] && r.cmd.size == c.size && r.cmd.price == c.price
  {
    CountedExact(TakerOf(c), b.Resting(c.side.Opposite()));
    SweepFills(TakerOf(c), b.Resting(c.side.Opposite()), c.size);
    var (m, s) := Match(b, c);
    assert c.events + s.events == s.events;
  }

  // What others offer the command within its limit.
  function Offered(b: Book, c: Command): nat {
    Obtainable(c.userId, c.side, c.price, if c.side == Bid then b.asks else b.bids)
  }

  // Fill-or-kill counts nothing that is not offered within its limit.
  lemma CountsOffered(b: Book, c: Command)
    ensures Counted(TakerOf(c), b.Resting(c.side.Opposite())) <= Offered(b, c)
    ensures CanFill(b, c) ==> Offered(b, c) >= c.size
  {
    CountedExact(TakerOf(c), b.Resting(c.side.Opposite()));
    EligibleObtainable(TakerOf(c), b.Resting(c.side.Opposite()));
  }

  // The order is filled exactly when what is offered reaches its size.
  predicate FillsRightly(b: Book, c: Command) {
    Place(b, c).cmd.status == Filled <==> Offered(b, c) >= c.size
  }

  // With what is eligible at each price within a machine word, the order fills
  // exactly when what others offer within its limit reaches its size.
  lemma FillOrKillFills(b: Book, c: Command)
    requires c.status != Rejected && c.tif == Fok && c.events == []
    requires LevelsFit(Levels(EligibleOrders(TakerOf(c), b.Resting(c.side.Opposite()))))
    ensures FillsRightly(b, c)
  {
    CountedExact(TakerOf(c), b.Resting(c.side.Opposite()));
    EligibleObtainable(TakerOf(c), b.Resting(c.side.Opposite()));
    FillOrKill(b, c);
  }

  // Fill-or-kill decides rightly for every size if and only if what is eligible at
  // each price fits a machine word.
  lemma FillOrKillExact(b: Book, c: Command)
    requires c.status != Rejected && c.tif == Fok && c.events == []
    ensures (forall size: nat :: size > 0 ==> FillsRightly(b, c.(size := size)))
       <==> LevelsFit(Levels(EligibleOrders(TakerOf(c), b.Resting(c.side.Opposite()))))
  {
    var t, makers := TakerOf(c), b.Resting(c.side.Opposite());
    CountedExact(t, makers);
    EligibleObtainable(t, makers);
    if LevelsFit(Levels(EligibleOrders(t, makers))) {
      forall size: nat | size > 0
        ensures FillsRightly(b, c.(size := size))
      {
        FillOrKillFills(b, c.(size := size));
      }
    } else {
      var d := c.(size := EligibleVolume(t, makers));
      FillOrKill(b, d);
      assert d.size > 0 && !FillsRightly(b, d);
    }
  }

  lemma ExecuteConserves(b: Book, c: Command)
    requires c.events == [] && 0 < c.size
    ensures var d := Execute(b, c).cmd;
            && Traded(d.events) + d.size == c.size
            && d.status == (if d.size == 0 then Filled
                            else if d.size < c.size then PartiallyFilled
                            else if c.tif == Gtc then Placed
                            else Cancelled)
  {
    CountedExact(TakerOf(c), b.Resting(c.side.Opposite()));
    SweepFills(TakerOf(c), b.Resting(c.side.Opposite()), c.size);
    var (m, s) := Match(b, c);
    assert c.events + s.events == s.events;
    match c.tif {
      case Gtc => GtcReports(b, c);
      case Ioc => IocReports(b, c);
      case Fok => FokReports(b, c);
    }
  }

  // What the command says afterwards, by time in force.
  lemma GtcReports(b: Book, c: Command)
    requires c.tif == Gtc
    ensures var d, s := Execute(b, c).cmd, Match(b, c).1;
            && d.events == c.events + s.events && d.size == s.remaining
            && d.status == if s.remaining == c.size then Placed else if s.remaining > 0 then PartiallyFilled else Filled
  {
  }

  lemma IocReports(b: Book, c: Command)
    requires c.tif == Ioc
    ensures var d, s := Execute(b, c).cmd, Match(b, c).1;
            && d.events == c.events + s.events && d.size == s.remaining
            && d.status == if s.remaining == 0 then Filled
                           else if s.remaining < c.size then PartiallyFilled
                           else Cancelled
  {
  }

  lemma FokReports(b: Book, c: Command)
    requires c.tif == Fok
    ensures var d, s := Execute(b, c).cmd, Match(b, c).1;
            if !CanFill(b, c) then d == c.(status := Cancelled)
            else
              && d.events == c.events + s.events && d.size == s.remaining
              && d.status == if s.remaining == 0 then Filled else Cancelled
  {
  }

  // Whatever the time in force, what came in is what traded plus what is left,
  // and the status says which of the cases it was.
  lemma PlaceConserves(b: Book, c: Command)
    requires c.status != Rejected && c.events == [] && 0 < c.size
    ensures var d := Place(b, c).cmd;
            && Traded(d.events) + d.size == c.size
            && (d.status == Filled <==> d.size == 0)
            && (d.status == PartiallyFilled <==> 0 < d.size < c.size)
            && (d.status == Placed <==> d.size == c.size && c.tif == Gtc)
            && (d.status == Cancelled <==> d.size == c.size && c.tif != Gtc)
  {
    ExecuteConserves(b, c);
  }

  // --- Cancel undoes place ---------------------------------------------------

  lemma {:induction false} WithoutInsert(orders: seq<Order>, o: Order)
    requires IdsBelow(orders, o.id)
    ensures Without(Insert(orders, o), o.price, o.id) == orders
    ensures Lookup(Insert(orders, o), o.price, o.id) == Some(o)
  {
    if orders != [] {
      if Better(o.side, o.price, orders[0].price) {
        assert ([o] + orders)[1..] == orders;
      } else {
        var r := [orders[0]] + Insert(orders[1..], o);
        WithoutInsert(orders[1..], o);
        assert r[1..] == Insert(orders[1..], o);
      }
    }
  }

  lemma QuietPlace(b: Book, c: Command)
    requires Sized(b.bids) && Sized(b.asks) && c.status != Rejected && c.tif == Gtc && 0 < c.size
    requires EligibleVolume(TakerOf(c), b.Resting(c.side.Opposite())) == 0
    ensures Match(b, c) == (b, Swept(b.Resting(c.side.Opposite()), [], c.size))
    ensures Place(b, c).book == Rest(b, c, c.size)
  {
    var t, makers := TakerOf(c), b.Resting(c.side.Opposite());
    NoVolume(t, makers);
    SweepIneligible(t, makers, c.size);
    assert CompletedIds([]) == {} && b.index - {} == b.index;
    PlaceBook(b, c);
  }

  // An order that did not trade, cancelled at once, leaves no trace, if and only
  // if it was a bid or no bid rests at its price.
  lemma CancelUndoesPlace(b: Book, c: Command, k: Command, bound: nat)
    requires GoodBook(b, bound) && FreshOrder(c, bound)
    requires c.status != Rejected && c.tif == Gtc
    requires EligibleVolume(TakerOf(c), b.Resting(c.side.Opposite())) == 0
    requires k.status != Rejected && k.orderId == c.orderId
    ensures var r := Cancel(Place(b, c).book, k);
            && (r.book == b <==> c.side == Bid || !HasPrice(b.bids, c.price))
            && (r.book == b ==> r.cmd.status == Cancelled && r.cmd.userId == c.userId && r.cmd.side == c.side
                                && r.cmd.price == c.price && r.cmd.size == c.size)
  {
    QuietPlace(b, c);
    var o, orders, p := RestingOrder(c, c.size), b.Resting(c.side), Rest(b, c, c.size);
    WithoutInsert(orders, o);
    InsertAdds(orders, o);
    assert o in p.Resting(c.side) && c.orderId !in b.index;
    assert p.index - {c.orderId} == b.index;
    if c.side == Bid || !HasPrice(b.bids, c.price) {
      assert SearchedSide(p, c.price) == Some(c.side);
    } else {
      LookupFinds(b.bids, c.price, c.orderId);
      assert Cancel(p, k).book.asks == p.asks;
    }
  }

  lemma {:induction false} NoVolume(t: Taker, orders: seq<Order>)
    requires EligibleVolume(t, orders) == 0 && Sized(orders)
    ensures forall o :: o in orders ==> !Eligible(t, o)
  {
    if orders != [] {
      NoVolume(t, orders[1..]);
    }
  }
}
