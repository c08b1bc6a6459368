// Whole runs: any sequence of place and cancel requests from the empty book.
module BookRuns {
  import opened Orders
  import opened PriceTime
  import opened Matching
  import opened BookLaws

  // One trade as history remembers it.
  datatype Fill = Fill(taker: nat, maker: nat, size: nat)

  // A book, the least id the next order may carry, and all trades so far.
  datatype Tape = Tape(book: Book, bound: nat, fills: seq<Fill>)

  function Process(b: Book, c: Command): Outcome {
    match c.kind
    case PlaceOrder => Place(b, c)
    case CancelOrder => Cancel(b, c)
    case _ => Outcome(b, c)
  }

  function FillsOf(taker: nat, events: seq<TradeEvent>): seq<Fill> {
    if events == [] then []
    else [Fill(taker, events[0].makerId, events[0].size)] + FillsOf(taker, events[1..])
  }

  function Advance(s: Tape, c: Command): Tape {
    var r := Process(s.book, c);
    if c.kind == PlaceOrder && c.status != Rejected then
      Tape(r.book, c.orderId + 1, s.fills + FillsOf(c.orderId, r.cmd.events))
    else
      s.(book := r.book)
  }

  function Run(s: Tape, cmds: seq<Command>): Tape
    decreases |cmds|
  {
    if cmds == [] then s else Run(Advance(s, cmds[0]), cmds[1..])
  }

  predicate Admissible(s: Tape, c: Command) {
    c.kind == PlaceOrder ==> FreshOrder(c, s.bound)
  }

  predicate AdmissibleRun(s: Tape, cmds: seq<Command>)
    decreases |cmds|
  {
    cmds == [] || (Admissible(s, cmds[0]) && AdmissibleRun(Advance(s, cmds[0]), cmds[1..]))
  }

  const EMPTY_BOOK := Book([], [], map[])
  const BLANK_TAPE := Tape(EMPTY_BOOK, 0, [])

  // Total size order `id` has traded, as taker or maker.
  function Filled(fills: seq<Fill>, id: nat): nat {
    if fills == [] then 0
    else
      (if fills[0].taker == id then fills[0].size else 0)
      + (if fills[0].maker == id then fills[0].size else 0)
      + Filled(fills[1..], id)
  }

  // Size taken from one maker by a list of events.
  function TakenFrom(events: seq<TradeEvent>, id: nat): nat {
    if events == [] then 0
    else (if events[0].makerId == id then events[0].size else 0) + TakenFrom(events[1..], id)
  }

  // What is resting of one order.
  function SizeOf(orders: seq<Order>, id: nat): nat {
    if orders == [] then 0
    else if orders[0].id == id then orders[0].size
    else SizeOf(orders[1..], id)
  }

  // Every resting order is its original size less everything it traded, and no
  // id yet to come has traded.
  ghost predicate Accounted(s: Tape) {
    && (forall o :: o in s.book.bids || o in s.book.asks ==> o.originalSize == o.size + Filled(s.fills, o.id))
    && (forall id :: id >= s.bound ==> Filled(s.fills, id) == 0)
  }

  ghost predicate Invariant(s: Tape) {
    GoodBook(s.book, s.bound) && NotCrossed(s.book) && Accounted(s)
  }

  // --- Arithmetic of histories -------------------------------------------------

  lemma {:induction false} FilledAppend(a: seq<Fill>, b: seq<Fill>, id: nat)
    ensures Filled(a + b, id) == Filled(a, id) + Filled(b, id)
  {
    if a == [] {
      assert a + b == b;
    } else {
      assert (a + b)[1..] == a[1..] + b;
      FilledAppend(a[1..], b, id);
    }
  }

  lemma {:induction false} FilledByEvents(taker: nat, events: seq<TradeEvent>, id: nat)
    ensures Filled(FillsOf(taker, events), id) ==
            (if id == taker then Traded(events) else 0) + TakenFrom(events, id)
  {
    if events != [] {
      FilledByEvents(taker, events[1..], id);
    }
  }

  lemma {:induction false} SizeOfMember(orders: seq<Order>, o: Order)
    requires DistinctIds(orders) && o in orders
    ensures SizeOf(orders, o.id) == o.size
  {
    if o != orders[0] {
      var i :| 0 <= i < |orders| && orders[i] == o;
      assert orders[0].id != orders[i].id;
      SizeOfMember(orders[1..], o);
    }
  }

  lemma {:induction false} SizeOfAbsent(orders: seq<Order>, id: nat)
    requires forall o :: o in orders ==> o.id != id
    ensures SizeOf(orders, id) == 0
  {
    if orders != [] {
      SizeOfAbsent(orders[1..], id);
    }
  }

  // A pass takes from every maker exactly what disappears from the list.
  lemma {:induction false} SweepTakes(t: Taker, orders: seq<Order>, remaining: nat, id: nat)
    requires Sized(orders) && DistinctIds(orders)
    ensures var s := Sweep(t, orders, remaining);
            SizeOf(orders, id) == SizeOf(s.orders, id) + TakenFrom(s.events, id)
  {
    if orders != [] {
      var o, v := orders[0], FillSize(t, orders[0], remaining);
      var s, rest := Sweep(t, orders, remaining), Sweep(t, orders[1..], remaining - v);
      SweepTakes(t, orders[1..], remaining - v, id);
      if id == o.id {
        SizeOfAbsent(orders[1..], id);
      }
      if v == 0 {
        assert s.orders[1..] == rest.orders;
      } else {
        assert s.events[1..] == rest.events;
        if v < o.size {
          assert s.orders[1..] == rest.orders;
        } else {
          assert s.orders == rest.orders;
        }
      }
    }
  }

  // --- One request ---------------------------------------------------------------

  lemma PlaceEvents(b: Book, c: Command)
    requires c.status != Rejected && c.events == [] && 0 < c.size
    ensures Place(b, c).cmd.events ==
            if c.tif == Fok && !CanFill(b, c) then [] else Match(b, c).1.events
  {
    var (m, s) := Match(b, c);
    assert c.events + s.events == s.events;
  }

  // Trading one order of the book: what is left and what history says add up.
  lemma MakerAccounted(s: Tape, c: Command, y: Order, x: Order)
    requires Invariant(s) && FreshOrder(c, s.bound) && c.status != Rejected
    requires var m := Match(s.book, c);
             && y in s.book.Resting(c.side.Opposite())
             && x in m.1.orders && LeftOf(x, y)
    ensures var events := Match(s.book, c).1.events;
            x.originalSize == x.size + Filled(s.fills + FillsOf(c.orderId, events), x.id)
  {
    var t, makers := TakerOf(c), s.book.Resting(c.side.Opposite());
    var swept := Sweep(t, makers, c.size);
    SweepTakes(t, makers, c.size, y.id);
    SweepGood(t, c.side.Opposite(), makers, c.size);
    SizeOfMember(makers, y);
    SizeOfMember(swept.orders, x);
    FilledAppend(s.fills, FillsOf(c.orderId, swept.events), x.id);
    FilledByEvents(c.orderId, swept.events, x.id);
  }

  // Orders that no event names keep their account.
  lemma OthersAccounted(s: Tape, c: Command, id: nat)
    requires Invariant(s) && FreshOrder(c, s.bound) && c.status != Rejected && id != c.orderId
    requires forall y :: y in s.book.Resting(c.side.Opposite()) ==> y.id != id
    ensures Filled(s.fills + FillsOf(c.orderId, Match(s.book, c).1.events), id) == Filled(s.fills, id)
  {
    var t, makers := TakerOf(c), s.book.Resting(c.side.Opposite());
    var swept := Sweep(t, makers, c.size);
    SweepTakes(t, makers, c.size, id);
    SizeOfAbsent(makers, id);
    FilledAppend(s.fills, FillsOf(c.orderId, swept.events), id);
    FilledByEvents(c.orderId, swept.events, id);
  }

  // The taker itself: what came in is what traded plus what is left.
  lemma TakerAccounted(s: Tape, c: Command)
    requires Invariant(s) && FreshOrder(c, s.bound) && c.status != Rejected
    ensures var (m, swept) := Match(s.book, c);
            c.size == swept.remaining + Filled(s.fills + FillsOf(c.orderId, swept.events), c.orderId)
  {
    var t, makers := TakerOf(c), s.book.Resting(c.side.Opposite());
    var swept := Sweep(t, makers, c.size);
    SweepFills(t, makers, c.size);
    SweepTakes(t, makers, c.size, c.orderId);
    SizeOfAbsent(makers, c.orderId);
    FilledAppend(s.fills, FillsOf(c.orderId, swept.events), c.orderId);
    FilledByEvents(c.orderId, swept.events, c.orderId);
  }

  lemma MatchAccounted(s: Tape, c: Command)
    requires Invariant(s) && FreshOrder(c, s.bound) && c.status != Rejected
    ensures var (m, swept) := Match(s.book, c);
            var fills := s.fills + FillsOf(c.orderId, swept.events);
            && (forall x :: x in m.bids || x in m.asks ==> x.originalSize == x.size + Filled(fills, x.id))
            && (forall id :: id > c.orderId ==> Filled(fills, id) == 0)
  {
    var (m, swept) := Match(s.book, c);
    var fills := s.fills + FillsOf(c.orderId, swept.events);
    var makers := s.book.Resting(c.side.Opposite());
    SweepLeaves(TakerOf(c), makers, c.size);
    forall x | x in m.bids || x in m.asks
      ensures x.originalSize == x.size + Filled(fills, x.id)
    {
      if x in swept.orders {
        var y :| y in makers && LeftOf(x, y);
        MakerAccounted(s, c, y, x);
      } else {
        OthersAccounted(s, c, x.id);
      }
    }
    forall id | id > c.orderId
      ensures Filled(fills, id) == 0
    {
      OthersAccounted(s, c, id);
    }
  }

  lemma PlaceAccounted(s: Tape, c: Command)
    requires Invariant(s) && c.kind == PlaceOrder && FreshOrder(c, s.bound) && c.status != Rejected
    ensures Accounted(Advance(s, c))
  {
    var (m, swept) := Match(s.book, c);
    PlaceBook(s.book, c);
    PlaceEvents(s.book, c);
    var r := Advance(s, c);
    if c.tif == Fok && !CanFill(s.book, c) {
      assert r.fills == s.fills + [] == s.fills;
    } else {
      MatchAccounted(s, c);
      if c.tif == Gtc && swept.remaining > 0 {
        TakerAccounted(s, c);
        InsertAdds(m.Resting(c.side), RestingOrder(c, swept.remaining));
      }
    }
  }

  lemma AdvanceInvariant(s: Tape, c: Command)
    requires Invariant(s) && Admissible(s, c)
    ensures Invariant(Advance(s, c))
  {
    if c.kind == PlaceOrder {
      PlaceGood(s.book, c, s.bound);
      PlaceNotCrossed(s.book, c, s.bound);
      if c.status != Rejected {
        PlaceAccounted(s, c);
      }
    } else if c.kind == CancelOrder {
      CancelGood(s.book, c, s.bound);
      CancelKeeps(s.book, c, s.bound);
    }
  }

  lemma CancelKeeps(b: Book, c: Command, bound: nat)
    requires GoodBook(b, bound)
    ensures forall o :: o in Cancel(b, c).book.bids ==> o in b.bids
    ensures forall o :: o in Cancel(b, c).book.asks ==> o in b.asks
  {
    if c.status != Rejected && c.orderId in b.index {
      WithoutDrops(Bid, b.bids, b.index[c.orderId], c.orderId);
      WithoutDrops(Ask, b.asks, b.index[c.orderId], c.orderId);
    }
  }

  // --- Whole runs ----------------------------------------------------------------

  lemma {:induction false} RunInvariant(s: Tape, cmds: seq<Command>)
    requires Invariant(s) && AdmissibleRun(s, cmds)
    ensures Invariant(Run(s, cmds))
    decreases |cmds|
  {
    if cmds != [] {
      AdvanceInvariant(s, cmds[0]);
      RunInvariant(Advance(s, cmds[0]), cmds[1..]);
    }
  }

  // Every state of every run from the empty book.
  lemma ReachableInvariant(cmds: seq<Command>)
    requires AdmissibleRun(BLANK_TAPE, cmds)
    ensures Invariant(Run(BLANK_TAPE, cmds))
  {
    RunInvariant(BLANK_TAPE, cmds);
  }

  // No cancel of the run is a missed ask.
  ghost predicate NoMissedAsk(s: Tape, cmds: seq<Command>)
    decreases |cmds|
  {
    cmds == []
    || ((cmds[0].kind == CancelOrder && cmds[0].status != Rejected ==> !MissedAsk(s.book, cmds[0].orderId))
        && NoMissedAsk(Advance(s, cmds[0]), cmds[1..]))
  }

  // The index is complete after every prefix of the run.
  ghost predicate CompleteThroughout(s: Tape, cmds: seq<Command>) {
    forall n: nat :: n <= |cmds| ==> IndexComplete(Run(s, cmds[..n]).book)
  }

  lemma PrefixSplit(s: Tape, cmds: seq<Command>)
    requires cmds != [] && IndexComplete(s.book)
    ensures CompleteThroughout(s, cmds) <==> CompleteThroughout(Advance(s, cmds[0]), cmds[1..])
  {
    var next, rest := Advance(s, cmds[0]), cmds[1..];
    forall n: nat | n <= |rest|
      ensures Run(s, cmds[..n + 1]) == Run(next, rest[..n])
    {
      assert cmds[..n + 1][1..] == rest[..n];
    }
    if CompleteThroughout(next, rest) {
      forall n: nat | n <= |cmds|
        ensures IndexComplete(Run(s, cmds[..n]).book)
      {
        if n > 0 {
          assert Run(s, cmds[..n - 1 + 1]) == Run(next, rest[..n - 1]);
        }
      }
    }
  }

  // One request keeps the index complete if and only if it is not a missed ask.
  lemma AdvanceComplete(s: Tape, c: Command)
    requires Invariant(s) && Admissible(s, c) && IndexComplete(s.book)
    ensures IndexComplete(Advance(s, c).book)
       <==> (c.kind == CancelOrder && c.status != Rejected ==> !MissedAsk(s.book, c.orderId))
  {
    if c.kind == PlaceOrder {
      PlaceGood(s.book, c, s.bound);
    } else if c.kind == CancelOrder && c.status != Rejected && c.orderId in s.book.index {
      CancelExact(s.book, c, s.bound);
    }
  }

  // Over a whole run: the index is complete throughout if and only if no cancel of
  // the run is a missed ask.
  lemma {:induction false} RunComplete(s: Tape, cmds: seq<Command>)
    requires Invariant(s) && AdmissibleRun(s, cmds) && IndexComplete(s.book)
    ensures CompleteThroughout(s, cmds) <==> NoMissedAsk(s, cmds)
    decreases |cmds|
  {
    if cmds != [] {
      var c, next := cmds[0], Advance(s, cmds[0]);
      AdvanceInvariant(s, c);
      AdvanceComplete(s, c);
      PrefixSplit(s, cmds);
      if IndexComplete(next.book) {
        RunComplete(next, cmds[1..]);
      } else {
        assert Run(next, cmds[1..][..0]) == next;
      }
    }
  }

  // --- Published quantities --------------------------------------------------------

  // The maker figures of every event: what it says was filled before and with
  // this trade is the whole history of that maker.
  lemma PublishedMaker(s: Tape, c: Command, e: TradeEvent)
    requires Invariant(s) && c.kind == PlaceOrder && FreshOrder(c, s.bound) && c.status != Rejected
    requires e in Place(s.book, c).cmd.events
    ensures e.makerOriginal == e.makerRemaining + Filled(Advance(s, c).fills, e.makerId)
    ensures e.makerUser != c.userId
  {
    var t, makers := TakerOf(c), s.book.Resting(c.side.Opposite());
    var swept := Sweep(t, makers, c.size);
    PlaceEvents(s.book, c);
    SweepTrades(t, makers, c.size);
    var y :| y in makers && TradeOf(t, e, y);
    SizeOfMember(makers, y);
    SweepTakes(t, makers, c.size, y.id);
    TakenOnce(t, makers, c.size, e);
    FilledAppend(s.fills, FillsOf(c.orderId, swept.events), y.id);
    FilledByEvents(c.orderId, swept.events, y.id);
  }

  // No maker trades twice in one pass.
  lemma {:induction false} TakenOnce(t: Taker, orders: seq<Order>, remaining: nat, e: TradeEvent)
    requires Sized(orders) && DistinctIds(orders)
    requires e in Sweep(t, orders, remaining).events
    ensures TakenFrom(Sweep(t, orders, remaining).events, e.makerId) == e.size
  {
    var o, v := orders[0], FillSize(t, orders[0], remaining);
    var s, rest := Sweep(t, orders, remaining), Sweep(t, orders[1..], remaining - v);
    assert v > 0 ==> s.events[1..] == rest.events;
    SweepTrades(t, orders[1..], remaining - v);
    if e in rest.events {
      TakenOnce(t, orders[1..], remaining - v, e);
      var y :| y in orders[1..] && TradeOf(t, e, y);
      assert y.id != o.id;
    } else {
      assert e == Trade(o, v, remaining);
      SweepTakes(t, orders[1..], remaining - v, o.id);
      SizeOfAbsent(orders[1..], o.id);
    }
  }

  // The taker figures: filled plus remaining is the order as it came in.
  lemma PublishedTaker(s: Tape, c: Command)
    requires Invariant(s) && c.kind == PlaceOrder && FreshOrder(c, s.bound) && c.status != Rejected
    ensures var d := Place(s.book, c).cmd;
            && Traded(d.events) + d.size == c.size
            && Traded(d.events) == Filled(Advance(s, c).fills, c.orderId)
  {
    PlaceConserves(s.book, c);
    PlaceEvents(s.book, c);
    TakerAccounted(s, c);
    assert s.fills + [] == s.fills;
    SweepFills(TakerOf(c), s.book.Resting(c.side.Opposite()), c.size);
  }

  // The figures of a cancel: the original size less what the order ever traded.
  lemma PublishedCancel(s: Tape, c: Command)
    requires Invariant(s) && c.kind == CancelOrder && c.status == Processing
    requires Cancel(s.book, c).cmd.status == Cancelled
    ensures var d := Cancel(s.book, c).cmd;
            && d.size <= d.originalSize
            && d.originalSize - d.size == Filled(s.fills, c.orderId)
  {
    var price := s.book.index[c.orderId];
    LookupFinds(s.book.bids, price, c.orderId);
    LookupFinds(s.book.asks, price, c.orderId);
  }

  // --- The lost ask ------------------------------------------------------------------

  predicate LimitOrder(c: Command, side: Side) {
    && c.kind == PlaceOrder && c.status == Processing && c.tif == Gtc && c.side == side
    && 0 < c.size && c.price <= U64_MAX && c.events == []
  }

  lemma BidRests(bid: Command)
    requires LimitOrder(bid, Bid)
    ensures Advance(BLANK_TAPE, bid).book
         == Book([RestingOrder(bid, bid.size)], [], map[bid.orderId := bid.price])
  {
    QuietPlace(EMPTY_BOOK, bid);
  }

  lemma OwnAskRests(s: Tape, bid: Command, ask: Command)
    requires LimitOrder(bid, Bid) && LimitOrder(ask, Ask)
    requires bid.userId == ask.userId && bid.orderId != ask.orderId
    requires s.book == Book([RestingOrder(bid, bid.size)], [], map[bid.orderId := bid.price])
    ensures Advance(s, ask).book
         == Book([RestingOrder(bid, bid.size)], [RestingOrder(ask, ask.size)],
                 map[bid.orderId := bid.price, ask.orderId := ask.price])
  {
    var x := RestingOrder(bid, bid.size);
    assert EligibleVolume(TakerOf(ask), [x]) == 0;
    QuietPlace(s.book, ask);
  }

  // A bid and then an ask of one user at one price, and a cancel of the ask:
  // the cancel is rejected, and the ask rests outside the index.
  lemma LostAsk(bid: Command, ask: Command, cancel: Command)
    requires LimitOrder(bid, Bid) && LimitOrder(ask, Ask)
    requires bid.price == ask.price && bid.userId == ask.userId && bid.orderId < ask.orderId
    requires cancel.kind == CancelOrder && cancel.status == Processing && cancel.orderId == ask.orderId
    ensures var first := Advance(BLANK_TAPE, bid);
            var second := Advance(first, ask);
            var last := Advance(second, cancel);
            && Admissible(BLANK_TAPE, bid) && Admissible(first, ask) && Admissible(second, cancel)
            && Cancel(second.book, cancel).cmd.status == Rejected
            && Rests(last.book, ask.orderId, ask.price)
            && ask.orderId !in last.book.index
            && !IndexComplete(last.book)
  {
    BothRest(bid, ask);
    AskLost(Advance(Advance(BLANK_TAPE, bid), ask), cancel, RestingOrder(bid, bid.size), RestingOrder(ask, ask.size));
  }

  lemma FirstRests(bid: Command)
    requires LimitOrder(bid, Bid)
    ensures var first := Advance(BLANK_TAPE, bid);
            && Admissible(BLANK_TAPE, bid) && Invariant(first) && first.bound == bid.orderId + 1
            && first.book == Book([RestingOrder(bid, bid.size)], [], map[bid.orderId := bid.price])
  {
    BidRests(bid);
    AdvanceInvariant(BLANK_TAPE, bid);
  }

  lemma BothRest(bid: Command, ask: Command)
    requires LimitOrder(bid, Bid) && LimitOrder(ask, Ask)
    requires bid.price == ask.price && bid.userId == ask.userId && bid.orderId < ask.orderId
    ensures var first := Advance(BLANK_TAPE, bid);
            var second := Advance(first, ask);
            && Admissible(BLANK_TAPE, bid) && Admissible(first, ask) && Invariant(second)
            && second.book == Book([RestingOrder(bid, bid.size)], [RestingOrder(ask, ask.size)],
                                   map[bid.orderId := bid.price, ask.orderId := ask.price])
  {
    FirstRests(bid);
    var first := Advance(BLANK_TAPE, bid);
    OwnAskRests(first, bid, ask);
    AdvanceInvariant(first, ask);
  }

  lemma AskLost(s: Tape, cancel: Command, x: Order, y: Order)
    requires Invariant(s) && cancel.kind == CancelOrder && cancel.status == Processing
    requires x in s.book.bids && y in s.book.asks && x.price == y.price && cancel.orderId == y.id
    requires y.id in s.book.index && s.book.index[y.id] == y.price
    ensures Cancel(s.book, cancel).cmd.status == Rejected
    ensures var last := Advance(s, cancel).book;
            Rests(last, y.id, y.price) && y.id !in last.index && !IndexComplete(last)
  {
    CancelMissed(s.book, cancel, y, s.bound);
    assert y in Advance(s, cancel).book.asks;
  }

  // --- The wrapped level -----------------------------------------------------------------

  const HALF: nat := 0x8000_0000_0000_0000

  lemma TwoOrders(x: Order, y: Order, t: Taker)
    requires x.price == y.price == 0 && x.size == y.size == HALF
    requires Eligible(t, x) && Eligible(t, y)
    ensures Levels([x, y]) == [Depth(0, TWO_64)]
    ensures EligibleVolume(t, [x, y]) == TWO_64 && Counted(t, [x, y]) == 0
  {
    assert [x, y][1..] == [y] && [y][1..] == [];
    assert Levels([y]) == [Depth(0, HALF)];
    assert EligibleOrders(t, [y]) == [y] && EligibleOrders(t, [x, y]) == [x, y];
    assert EligibleVolume(t, [y]) == HALF;
    assert WrappedTotal([Depth(0, TWO_64)]) == Wrap64(TWO_64) + WrappedTotal([]);
  }

  lemma SecondBidRests(s: Tape, x: Command, y: Command)
    requires LimitOrder(x, Bid) && LimitOrder(y, Bid) && x.price == y.price && x.orderId != y.orderId
    requires s.book == Book([RestingOrder(x, x.size)], [], map[x.orderId := x.price])
    ensures Advance(s, y).book.bids == [RestingOrder(x, x.size), RestingOrder(y, y.size)]
    ensures Advance(s, y).book.asks == []
  {
    var rx, ry := RestingOrder(x, x.size), RestingOrder(y, y.size);
    QuietPlace(s.book, y);
    assert [rx][1..] == [] && Insert([], ry) == [ry];
    assert Insert([rx], ry) == [rx] + [ry];
  }

  // A sell of one unit finds two half-word bids at price 0.
  lemma WrappedBook(b: Book, x: Order, y: Order, ask: Command)
    requires b.bids == [x, y] && b.asks == []
    requires x.price == y.price == 0 && x.size == y.size == HALF && x.user != ask.userId && y.user != ask.userId
    requires ask.kind == PlaceOrder && ask.status == Processing && ask.events == []
    requires ask.tif == Fok && ask.side == Ask && ask.price == 0 && ask.size == 1
    ensures EligibleVolume(TakerOf(ask), b.bids) == TWO_64 && Place(b, ask).cmd.status == Cancelled
    ensures Snapshot(b).bidPrices == [0] && Snapshot(b).bidVolumes == [0]
  {
    TwoOrders(x, y, TakerOf(ask));
    FillOrKill(b, ask);
  }

  lemma RunTwo(s: Tape, x: Command, y: Command)
    requires Admissible(s, x) && Admissible(Advance(s, x), y)
    ensures AdmissibleRun(s, [x, y]) && Run(s, [x, y]) == Advance(Advance(s, x), y)
  {
    assert [x, y][1..] == [y] && [y][1..] == [];
    var first := Advance(s, x);
    var second := Advance(first, y);
    assert AdmissibleRun(second, []) && AdmissibleRun(first, [y]);
    assert Run(first, [y]) == Run(second, []);
  }

  // Two bids at price 0 of half a word each, by two users: a fill-or-kill sell of
  // one unit by a third is cancelled although 2^64 units are eligible, and the
  // snapshot of the level shows volume 0.
  lemma WrappedLevel(x: Command, y: Command, ask: Command)
    requires LimitOrder(x, Bid) && LimitOrder(y, Bid) && x.orderId < y.orderId
    requires x.price == y.price == 0 && x.size == y.size == HALF
    requires ask.kind == PlaceOrder && ask.status == Processing && ask.events == []
    requires ask.tif == Fok && ask.side == Ask && ask.price == 0 && ask.size == 1
    requires ask.userId != x.userId && ask.userId != y.userId
    ensures var book := Run(BLANK_TAPE, [x, y]).book;
            && AdmissibleRun(BLANK_TAPE, [x, y])
            && EligibleVolume(TakerOf(ask), book.bids) == TWO_64
            && Place(book, ask).cmd.status == Cancelled
            && Snapshot(book).bidPrices == [0] && Snapshot(book).bidVolumes == [0]
  {
    BidRests(x);
    SecondBidRests(Advance(BLANK_TAPE, x), x, y);
    RunTwo(BLANK_TAPE, x, y);
    WrappedBook(Advance(Advance(BLANK_TAPE, x), y).book, RestingOrder(x, x.size), RestingOrder(y, y.size), ask);
  }
}
