// Requests in plain numbers: at what price an order may trade, in which order the
// book serves, what comes to rest of it, which price is reported, and what a cancel
// of an unknown order does.
module RequestLaws {
  import opened Orders
  import opened PriceTime
  import opened Matching
  import opened BookLaws
  import opened BookRuns

  // --- The command after a place --------------------------------------------------------

  lemma ExecuteCommand(b: Book, c: Command)
    requires c.events == []
    ensures var d := Execute(b, c).cmd;
            && d.price == c.price && d.side == c.side
            && d.events == if c.tif == Fok && !CanFill(b, c) then [] else Match(b, c).1.events
  {
    var (m, s) := Match(b, c);
    assert c.events + s.events == s.events;
    match c.tif {
      case Gtc => ExecuteKept(b, c);
      case Ioc => ExecuteKept(b, c);
      case Fok => FokKept(b, c);
    }
  }

  lemma ExecuteKept(b: Book, c: Command)
    requires c.tif != Fok
    ensures var d := Execute(b, c).cmd;
            d.price == c.price && d.side == c.side && d.events == c.events + Match(b, c).1.events
  {
  }

  lemma FokKept(b: Book, c: Command)
    requires c.tif == Fok
    ensures var d := Execute(b, c).cmd;
            && d.price == c.price && d.side == c.side
            && d.events == if !CanFill(b, c) then c.events else c.events + Match(b, c).1.events
  {
  }

  lemma PlaceCommand(b: Book, c: Command)
    requires c.status != Rejected && c.events == []
    ensures var d := Place(b, c).cmd;
            && d.events == (if c.tif == Fok && !CanFill(b, c) then [] else Match(b, c).1.events)
            && d.price == if c.price == 0 && c.side == Ask && d.events != [] then d.events[0].price else c.price
  {
    ExecuteCommand(b, c);
  }

  // --- Prices -----------------------------------------------------------------------------

  // No order ever trades beyond its limit, nor with an order of its own user.
  lemma TradesWithinLimit(b: Book, c: Command)
    requires c.status != Rejected && c.events == []
    ensures forall e :: e in Place(b, c).cmd.events ==>
              && (c.side == Bid ==> e.price <= c.price)
              && (c.side == Ask ==> e.price >= c.price)
              && e.makerUser != c.userId
  {
    PlaceCommand(b, c);
    SweepWithin(TakerOf(c), b.Resting(c.side.Opposite()), c.size);
  }

  // Bids are served from the highest price down, asks from the lowest up, and
  // orders of one price by age.
  lemma ServedInOrder(b: Book, bound: nat)
    requires GoodBook(b, bound)
    ensures forall i, j :: 0 <= i < j < |b.bids| ==>
              b.bids[i].price > b.bids[j].price
              || (b.bids[i].price == b.bids[j].price && b.bids[i].id < b.bids[j].id)
    ensures forall i, j :: 0 <= i < j < |b.asks| ==>
              b.asks[i].price < b.asks[j].price
              || (b.asks[i].price == b.asks[j].price && b.asks[i].id < b.asks[j].id)
  {
  }

  // o is what is left of the command, resting.
  predicate RestsOf(c: Command, left: nat, o: Order) {
    && o.id == c.orderId && o.user == c.userId && o.side == c.side && o.price == c.price
    && o.size == left && o.originalSize == c.size && o.tif == c.tif && o.timestamp == c.timestamp
    && o.status == c.status
  }

  // What a good-till-cancelled order does not trade rests in the book under its own
  // id, indexed at its price; of any other order nothing rests.
  lemma RestRests(b: Book, c: Command, bound: nat)
    requires GoodBook(b, bound) && FreshOrder(c, bound) && c.status != Rejected
    ensures var r := Place(b, c);
            if c.tif == Gtc && r.cmd.size > 0 then
              && (exists o :: o in (if c.side == Bid then r.book.bids else r.book.asks) && RestsOf(c, r.cmd.size, o))
              && c.orderId in r.book.index && r.book.index[c.orderId] == c.price
            else
              forall o :: o in r.book.bids || o in r.book.asks ==> o.id != c.orderId
  {
    var (m, s) := Match(b, c);
    PlaceBook(b, c);
    MatchGood(b, c, bound);
    PlaceConserves(b, c);
    if c.tif == Gtc && s.remaining > 0 {
      InsertAdds(m.Resting(c.side), RestingOrder(c, s.remaining));
      assert RestsOf(c, s.remaining, RestingOrder(c, s.remaining));
    }
  }

  // p is the best price any other user bids.
  ghost predicate BestBidOfOthers(b: Book, user: nat, p: nat) {
    && (exists o :: o in b.bids && o.user != user && o.price == p)
    && (forall o :: o in b.bids && o.user != user ==> o.price <= p)
  }

  // A market sell that trades reports the best price it found; every other order
  // keeps the price it came with.
  lemma ReportsPrice(b: Book, c: Command, bound: nat)
    requires GoodBook(b, bound) && FreshOrder(c, bound) && c.status != Rejected
    ensures var d := Place(b, c).cmd;
            if c.side == Ask && c.price == 0 && d.events != [] then
              && BestBidOfOthers(b, c.userId, d.price)
              && forall e :: e in d.events ==> e.price <= d.price
            else
              d.price == c.price
  {
    PlaceCommand(b, c);
    if c.side == Ask && c.price == 0 && Place(b, c).cmd.events != [] {
      FirstIsBest(b, TakerOf(c), c.size, bound);
      SweepWithin(TakerOf(c), b.bids, c.size);
    }
  }

  // A sell at any price trades with the best bid of another user first.
  lemma FirstIsBest(b: Book, t: Taker, size: nat, bound: nat)
    requires GoodBook(b, bound) && t.side == Ask && t.price == 0 && Sweep(t, b.bids, size).events != []
    ensures var events := Sweep(t, b.bids, size).events;
            BestBidOfOthers(b, t.user, events[0].price) && forall e :: e in events ==> e.price <= events[0].price
  {
    var i := FirstTrade(t, b.bids, size);
    ServedInOrder(b, bound);
    assert b.bids[i] in b.bids;
    forall o | o in b.bids && o.user != t.user
      ensures o.price <= b.bids[i].price
    {
      var j :| 0 <= j < |b.bids| && b.bids[j] == o;
      assert i <= j;
    }
    SweepTrades(t, b.bids, size);
    forall e | e in Sweep(t, b.bids, size).events
      ensures e.price <= b.bids[i].price
    {
      var y :| y in b.bids && TradeOf(t, e, y);
    }
  }

  // A cancel that names no indexed order is rejected and changes nothing; so does a
  // request that was rejected before.
  lemma UnknownCancel(b: Book, c: Command)
    requires c.status != Rejected && c.orderId !in b.index
    ensures var r := Cancel(b, c); r.book == b && r.cmd == c.(status := Rejected)
  {
  }

  lemma RejectedPasses(b: Book, c: Command)
    requires c.status == Rejected
    ensures Place(b, c) == Outcome(b, c) && Cancel(b, c) == Outcome(b, c)
  {
  }
}
