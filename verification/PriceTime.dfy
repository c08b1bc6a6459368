// The reference order book. Each side is one flat list of orders in
// price-time priority; an incoming order is a single greedy pass over the
// opposite list. There are no levels, cached volumes or deferred removals
// here: the class in OrderBook.dfy has those, and is proved to compute
// exactly what this module says.
module PriceTime {
  import opened Orders

  // A side list holds the best price first, and the oldest order first within
  // a price. `index` maps an order id to the price recorded for it.
  datatype Book = Book(bids: seq<Order>, asks: seq<Order>, index: map<nat, nat>) {
    function Resting(side: Side): seq<Order> {
      if side == Bid then bids else asks
    }

    function WithResting(side: Side, orders: seq<Order>): Book {
      if side == Bid then this.(bids := orders) else this.(asks := orders)
    }
  }

  datatype Taker = Taker(user: nat, side: Side, price: nat)

  // What one pass over a list of makers leaves behind.
  datatype Swept = Swept(orders: seq<Order>, events: seq<TradeEvent>, remaining: nat)

  // The book and the command after one request.
  datatype Outcome = Outcome(book: Book, cmd: Command)

  predicate Better(side: Side, p: nat, q: nat) {
    if side == Ask then p < q else p > q
  }

  predicate Crosses(t: Taker, price: nat) {
    if t.side == Bid then t.price >= price else t.price <= price
  }

  // Makers the taker may trade with: a crossing price and another user.
  predicate Eligible(t: Taker, o: Order) {
    Crosses(t, o.price) && o.user != t.user
  }

  function FillSize(t: Taker, o: Order, remaining: nat): nat {
    if Eligible(t, o) then Min(remaining, o.size) else 0
  }

  function Trade(o: Order, size: nat, remaining: nat): TradeEvent
    requires size <= o.size && size <= remaining
  {
    TradeEvent(remaining == size, o.id, o.user, o.size == size, o.price, size, o.size - size, o.originalSize)
  }

  function Sweep(t: Taker, orders: seq<Order>, remaining: nat): Swept {
    if orders == [] then Swept([], [], remaining)
    else
      var o := orders[0];
      var v := FillSize(t, o, remaining);
      var rest := Sweep(t, orders[1..], remaining - v);
      if v == 0 then rest.(orders := [o] + rest.orders)
      else
        Swept((if v == o.size then [] else [o.(size := o.size - v)]) + rest.orders,
              [Trade(o, v, remaining)] + rest.events,
              rest.remaining)
  }

  // Total size the taker could trade with if it were unlimited.
  function EligibleVolume(t: Taker, orders: seq<Order>): nat {
    if orders == [] then 0
    else (if Eligible(t, orders[0]) then orders[0].size else 0) + EligibleVolume(t, orders[1..])
  }

  function Traded(events: seq<TradeEvent>): nat {
    if events == [] then 0 else events[0].size + Traded(events[1..])
  }

  function CompletedIds(events: seq<TradeEvent>): set<nat> {
    set e | e in events && e.makerCompleted :: e.makerId
  }

  function TakerOf(c: Command): Taker {
    Taker(c.userId, c.side, c.price)
  }

  // A new order goes behind every order whose price is at least as good.
  function Insert(orders: seq<Order>, o: Order): seq<Order> {
    if orders == [] then [o]
    else if Better(o.side, o.price, orders[0].price) then [o] + orders
    else [orders[0]] + Insert(orders[1..], o)
  }

  function RestingOrder(c: Command, remaining: nat): Order {
    Order(c.orderId, c.userId, c.price, remaining, c.size, c.side, c.tif, c.status, c.timestamp)
  }

  function Match(b: Book, c: Command): (Book, Swept) {
    var opposite := c.side.Opposite();
    var s := Sweep(TakerOf(c), b.Resting(opposite), c.size);
    (b.WithResting(opposite, s.orders).(index := b.index - CompletedIds(s.events)), s)
  }

  function Rest(b: Book, c: Command, remaining: nat): Book {
    b.WithResting(c.side, Insert(b.Resting(c.side), RestingOrder(c, remaining)))
     .(index := b.index[c.orderId := c.price])
  }

  function EligibleOrders(t: Taker, orders: seq<Order>): seq<Order> {
    if orders == [] then []
    else (if Eligible(t, orders[0]) then [orders[0]] else []) + EligibleOrders(t, orders[1..])
  }

  function WrappedTotal(levels: seq<Depth>): nat {
    if levels == [] then 0 else Wrap64(levels[0].volume) + WrappedTotal(levels[1..])
  }

  // What fill-or-kill counts: the volume of each level is summed in 64 bits.
  function Counted(t: Taker, orders: seq<Order>): nat {
    WrappedTotal(Levels(EligibleOrders(t, orders)))
  }

  // Fill-or-kill asks this before touching anything.
  predicate CanFill(b: Book, c: Command) {
    Counted(TakerOf(c), b.Resting(c.side.Opposite())) >= c.size
  }

  function Execute(b: Book, c: Command): Outcome {
    var (matched, s) := Match(b, c);
    var done := c.(events := c.events + s.events, size := s.remaining);
    match c.tif
    case Gtc =>
      if s.remaining == c.size then
        Outcome(Rest(matched, c, s.remaining), done.(status := Placed))
      else if s.remaining > 0 then
        Outcome(Rest(matched, c, s.remaining), done.(status := PartiallyFilled))
      else
        Outcome(matched, done.(status := Filled))
    case Fok =>
      if !CanFill(b, c) then Outcome(b, c.(status := Cancelled))
      else Outcome(matched, done.(status := if s.remaining == 0 then Filled else Cancelled))
    case Ioc =>
      Outcome(matched, done.(status :=
                if s.remaining == 0 then Filled
                else if s.remaining < c.size then PartiallyFilled
                else Cancelled))
  }

  // A market sell reports the price of its first trade.
  function ReportPrice(c: Command): Command {
    if c.price == 0 && c.side == Ask && c.events != [] then c.(price := c.events[0].price) else c
  }

  function WithSnapshot(b: Book, c: Command): Command {
    c.(l2Data := Some(Snapshot(b)))
  }

  function Place(b: Book, c: Command): Outcome {
    if c.status == Rejected then Outcome(b, c)
    else
      var r := Execute(b, c);
      Outcome(r.book, WithSnapshot(r.book, ReportPrice(r.cmd)))
  }

  predicate HasPrice(orders: seq<Order>, price: nat) {
    exists o :: o in orders && o.price == price
  }

  function Lookup(orders: seq<Order>, price: nat, id: nat): Option<Order> {
    if orders == [] then None
    else if orders[0].price == price && orders[0].id == id then Some(orders[0])
    else Lookup(orders[1..], price, id)
  }

  function Without(orders: seq<Order>, price: nat, id: nat): seq<Order> {
    if orders == [] then []
    else if orders[0].price == price && orders[0].id == id then orders[1..]
    else [orders[0]] + Without(orders[1..], price, id)
  }

  function CancelledBy(c: Command, o: Order): Command {
    c.(price := o.price, size := o.size, userId := o.user, side := o.side,
       status := Cancelled, originalSize := o.originalSize)
  }

  // The side a cancel searches: bids whenever they have the recorded price.
  function SearchedSide(b: Book, price: nat): Option<Side> {
    if HasPrice(b.bids, price) then Some(Bid)
    else if HasPrice(b.asks, price) then Some(Ask)
    else None
  }

  function RemoveFrom(b: Book, side: Side, price: nat, c: Command): Outcome {
    match Lookup(b.Resting(side), price, c.orderId)
    case None => Outcome(b, c.(status := Rejected))
    case Some(o) =>
      Outcome(b.WithResting(side, Without(b.Resting(side), price, c.orderId)), CancelledBy(c, o))
  }

  function Cancel(b: Book, c: Command): Outcome {
    if c.status == Rejected then Outcome(b, c)
    else if c.orderId !in b.index then Outcome(b, c.(status := Rejected))
    else
      var price := b.index[c.orderId];
      var dropped := b.(index := b.index - {c.orderId});
      match SearchedSide(b, price)
      case None => Outcome(dropped, c.(status := Rejected))
      case Some(side) =>
        var r := RemoveFrom(dropped, side, price, c);
        Outcome(r.book, WithSnapshot(r.book, r.cmd))
  }

  // --- Market data ---------------------------------------------------------

  datatype Depth = Depth(price: nat, volume: nat)

  // One more order in front of a list of price levels.
  function Grouped(o: Order, rest: seq<Depth>): seq<Depth> {
    if rest != [] && rest[0].price == o.price then [Depth(o.price, o.size + rest[0].volume)] + rest[1..]
    else [Depth(o.price, o.size)] + rest
  }

  // Groups a side list into price levels.
  function Levels(orders: seq<Order>): seq<Depth> {
    if orders == [] then [] else Grouped(orders[0], Levels(orders[1..]))
  }

  lemma LevelsHead(orders: seq<Order>)
    requires orders != []
    ensures Levels(orders) != [] && Levels(orders)[0].price == orders[0].price
  {
  }

  function Prices(levels: seq<Depth>): (prices: seq<nat>)
    ensures |prices| == |levels|
    ensures forall i :: 0 <= i < |levels| ==> prices[i] == levels[i].price
  {
    seq(|levels|, i requires 0 <= i < |levels| => levels[i].price)
  }

  // A level keeps its volume in 64 bits.
  function Volumes(levels: seq<Depth>): (volumes: seq<nat>)
    ensures |volumes| == |levels|
    ensures forall i :: 0 <= i < |levels| ==> volumes[i] == Wrap64(levels[i].volume)
  {
    seq(|levels|, i requires 0 <= i < |levels| => Wrap64(levels[i].volume))
  }

  function Top(levels: seq<Depth>): seq<Depth> {
    levels[..Min(|levels|, L2_SIZE)]
  }

  function Snapshot(b: Book): L2Data {
    var bids := Top(Levels(b.bids));
    var asks := Top(Levels(b.asks));
    L2Data(Prices(bids), Volumes(bids), Prices(asks), Volumes(asks))
  }

  // Top of book, with the sentinels the price cache uses for an empty side.
  function BestPrice(side: Side, orders: seq<Order>): nat {
    if orders != [] then orders[0].price
    else if side == Ask then U64_MAX
    else 0
  }
}
