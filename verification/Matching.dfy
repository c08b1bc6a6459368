// Laws of one greedy pass: what it trades, in which order, and what is left.
module Matching {
  import opened Orders
  import opened PriceTime

  // Priority within a side: better price first, then the older id.
  predicate Before(side: Side, a: Order, b: Order) {
    Better(side, a.price, b.price) || (a.price == b.price && a.id < b.id)
  }

  ghost predicate Sorted(side: Side, orders: seq<Order>) {
    forall i, j :: 0 <= i < j < |orders| ==> Before(side, orders[i], orders[j])
  }

  ghost predicate DistinctIds(orders: seq<Order>) {
    forall i, j :: 0 <= i < j < |orders| ==> orders[i].id != orders[j].id
  }

  // Sizes are positive, and prices are machine words.
  ghost predicate Sized(orders: seq<Order>) {
    forall o :: o in orders ==> 0 < o.size <= o.originalSize && o.price <= U64_MAX
  }

  ghost predicate GoodSide(side: Side, orders: seq<Order>) {
    && Sorted(side, orders)
    && DistinctIds(orders)
    && Sized(orders)
    && forall o :: o in orders ==> o.side == side
  }

  // x is what is left of y after some of it traded.
  predicate LeftOf(x: Order, y: Order) {
    x == y.(size := x.size) && 0 < x.size <= y.size
  }

  // e is a trade against y, and says truthfully what it left of y.
  predicate TradeOf(t: Taker, e: TradeEvent, y: Order) {
    && Eligible(t, y)
    && e.makerId == y.id && e.makerUser == y.user && e.price == y.price
    && e.makerOriginal == y.originalSize
    && 0 < e.size && e.size + e.makerRemaining == y.size
    && (e.makerCompleted <==> e.makerRemaining == 0)
  }

  // The price of a trade is no worse for the taker than its limit.
  predicate NoWorseThan(side: Side, limit: nat, e: TradeEvent) {
    if side == Bid then e.price <= limit else e.price >= limit
  }

  lemma {:induction false} SweepWithin(t: Taker, orders: seq<Order>, remaining: nat)
    ensures forall e :: e in Sweep(t, orders, remaining).events ==>
              NoWorseThan(t.side, t.price, e) && e.makerUser != t.user
  {
    if orders != [] {
      SweepWithin(t, orders[1..], remaining - FillSize(t, orders[0], remaining));
    }
  }

  // What others offer a taker within its limit, counted order by order.
  function Obtainable(user: nat, side: Side, limit: nat, orders: seq<Order>): nat {
    if orders == [] then 0
    else
      (if orders[0].user != user && (if side == Bid then orders[0].price <= limit else orders[0].price >= limit)
       then orders[0].size else 0)
      + Obtainable(user, side, limit, orders[1..])
  }

  lemma {:induction false} EligibleObtainable(t: Taker, orders: seq<Order>)
    ensures EligibleVolume(t, orders) == Obtainable(t.user, t.side, t.price, orders)
  {
    if orders != [] {
      EligibleObtainable(t, orders[1..]);
    }
  }

  // The first trade of a pass is with the first maker the taker may trade with.
  lemma {:induction false} FirstTrade(t: Taker, orders: seq<Order>, remaining: nat) returns (i: nat)
    requires Sweep(t, orders, remaining).events != []
    ensures i < |orders| && Sweep(t, orders, remaining).events[0].price == orders[i].price
    ensures orders[i].user != t.user
    ensures forall j :: 0 <= j < i ==> !Eligible(t, orders[j]) || orders[j].size == 0
  {
    var v := FillSize(t, orders[0], remaining);
    if v > 0 {
      i := 0;
    } else {
      var k := FirstTrade(t, orders[1..], remaining);
      NoneLeft(t, orders[1..], remaining);
      i := k + 1;
    }
  }

  // With nothing left to fill, a pass trades nothing.
  lemma {:induction false} NoneLeft(t: Taker, orders: seq<Order>, remaining: nat)
    ensures remaining == 0 ==> Sweep(t, orders, remaining).events == []
  {
    if orders != [] && remaining == 0 {
      NoneLeft(t, orders[1..], 0);
    }
  }

  lemma GoodTail(side: Side, orders: seq<Order>)
    requires GoodSide(side, orders) && orders != []
    ensures GoodSide(side, orders[1..])
    ensures forall o :: o in orders[1..] ==> Before(side, orders[0], o) && o.id != orders[0].id
  {
  }

  lemma GoodCons(side: Side, o: Order, rest: seq<Order>)
    requires GoodSide(side, rest) && o.side == side && 0 < o.size <= o.originalSize && o.price <= U64_MAX
    requires forall x :: x in rest ==> Before(side, o, x) && x.id != o.id
    ensures GoodSide(side, [o] + rest)
  {
  }

  // Everything left in the list is what remains of an order that was there.
  lemma {:induction false} SweepLeaves(t: Taker, orders: seq<Order>, remaining: nat)
    requires Sized(orders)
    ensures forall x :: x in Sweep(t, orders, remaining).orders ==> exists y :: y in orders && LeftOf(x, y)
  {
    if orders != [] {
      var o, v := orders[0], FillSize(t, orders[0], remaining);
      SweepLeaves(t, orders[1..], remaining - v);
      var s, rest := Sweep(t, orders, remaining).orders, Sweep(t, orders[1..], remaining - v).orders;
      forall x | x in s
        ensures exists y :: y in orders && LeftOf(x, y)
      {
        if x in rest {
          var y :| y in orders[1..] && LeftOf(x, y);
          assert y in orders;
        } else {
          assert LeftOf(x, o) && o in orders;
        }
      }
    }
  }

  // What is left of the orders behind o is still behind o.
  lemma LeftBehind(side: Side, o: Order, tail: seq<Order>, rest: seq<Order>)
    requires forall y :: y in tail ==> Before(side, o, y) && y.id != o.id
    requires forall x :: x in rest ==> exists y :: y in tail && LeftOf(x, y)
    ensures forall x :: x in rest ==> Before(side, o, x) && x.id != o.id
  {
    forall x | x in rest
      ensures Before(side, o, x) && x.id != o.id
    {
      var y :| y in tail && LeftOf(x, y);
    }
  }

  lemma ReducedFirst(side: Side, o: Order, v: nat, rest: seq<Order>)
    requires GoodSide(side, rest) && o.side == side && v < o.size <= o.originalSize && o.price <= U64_MAX
    requires forall x :: x in rest ==> Before(side, o, x) && x.id != o.id
    ensures GoodSide(side, [o.(size := o.size - v)] + rest)
  {
    GoodCons(side, o.(size := o.size - v), rest);
  }

  // The list stays sorted, distinct and positive.
  lemma {:induction false} SweepGood(t: Taker, side: Side, orders: seq<Order>, remaining: nat)
    requires GoodSide(side, orders)
    ensures GoodSide(side, Sweep(t, orders, remaining).orders)
  {
    if orders != [] {
      var rest := Sweep(t, orders[1..], remaining - FillSize(t, orders[0], remaining)).orders;
      GoodTail(side, orders);
      SweepGood(t, side, orders[1..], remaining - FillSize(t, orders[0], remaining));
      SweepLeaves(t, orders[1..], remaining - FillSize(t, orders[0], remaining));
      SweepHead(t, orders, remaining);
      HeadGood(side, orders, rest, FillSize(t, orders[0], remaining), Sweep(t, orders, remaining).orders);
    }
  }

  lemma HeadGood(side: Side, orders: seq<Order>, rest: seq<Order>, v: nat, left: seq<Order>)
    requires GoodSide(side, orders) && orders != [] && GoodSide(side, rest)
    requires forall x :: x in rest ==> exists y :: y in orders[1..] && LeftOf(x, y)
    requires left == if v < orders[0].size then [orders[0].(size := orders[0].size - v)] + rest else rest
    ensures GoodSide(side, left)
  {
    var o := orders[0];
    assert o in orders;
    GoodTail(side, orders);
    LeftBehind(side, o, orders[1..], rest);
    if v < o.size {
      ReducedFirst(side, o, v, rest);
    }
  }

  // What a pass leaves of its first order, in front of what it leaves of the rest.
  lemma SweepHead(t: Taker, orders: seq<Order>, remaining: nat)
    requires orders != [] && orders[0].size > 0
    ensures var o, v := orders[0], FillSize(t, orders[0], remaining);
            var rest := Sweep(t, orders[1..], remaining - v).orders;
            Sweep(t, orders, remaining).orders
            == if v < o.size then [o.(size := o.size - v)] + rest else rest
  {
    var o, v := orders[0], FillSize(t, orders[0], remaining);
    SweepUnfolds(t, orders, remaining);
    if v == 0 {
      assert o.(size := o.size - v) == o;
    } else if v == o.size {
      NothingInFront(Sweep(t, orders[1..], remaining - v).orders);
    }
  }

  lemma SweepUnfolds(t: Taker, orders: seq<Order>, remaining: nat)
    requires orders != []
    ensures var o, v := orders[0], FillSize(t, orders[0], remaining);
            var rest := Sweep(t, orders[1..], remaining - v).orders;
            Sweep(t, orders, remaining).orders
            == (if v == 0 then [o] else if v == o.size then [] else [o.(size := o.size - v)]) + rest
  {
  }

  lemma NothingInFront(s: seq<Order>)
    ensures [] + s == s
  {
  }

  // Every event is a truthful trade with an eligible maker of the list.
  lemma {:induction false} SweepTrades(t: Taker, orders: seq<Order>, remaining: nat)
    requires Sized(orders)
    ensures forall e :: e in Sweep(t, orders, remaining).events ==> exists y :: y in orders && TradeOf(t, e, y)
  {
    if orders != [] {
      var o, v := orders[0], FillSize(t, orders[0], remaining);
      SweepTrades(t, orders[1..], remaining - v);
      var s, rest := Sweep(t, orders, remaining).events, Sweep(t, orders[1..], remaining - v).events;
      forall e | e in s
        ensures exists y :: y in orders && TradeOf(t, e, y)
      {
        if e in rest {
          var y :| y in orders[1..] && TradeOf(t, e, y);
          assert y in orders;
        } else {
          assert TradeOf(t, e, o) && o in orders;
        }
      }
    }
  }

  // An order of the list either stays, possibly reduced, or was traded away.
  lemma {:induction false} SweepKeeps(t: Taker, orders: seq<Order>, remaining: nat, y: Order)
    requires Sized(orders) && y in orders
    ensures (exists x :: x in Sweep(t, orders, remaining).orders && LeftOf(x, y))
         || (exists e :: e in Sweep(t, orders, remaining).events && TradeOf(t, e, y) && e.makerCompleted)
  {
    var o, v := orders[0], FillSize(t, orders[0], remaining);
    var s, rest := Sweep(t, orders, remaining), Sweep(t, orders[1..], remaining - v);
    if y == o {
      if v < o.size {
        assert o.(size := o.size - v) in s.orders;
        assert LeftOf(o.(size := o.size - v), y);
      } else {
        assert Trade(o, v, remaining) in s.events;
        assert TradeOf(t, Trade(o, v, remaining), y);
      }
    } else {
      SweepKeeps(t, orders[1..], remaining - v, y);
      assert forall x :: x in rest.orders ==> x in s.orders;
      assert forall e :: e in rest.events ==> e in s.events;
    }
  }

  // ... and never both.
  lemma {:induction false} SweepCompletes(t: Taker, orders: seq<Order>, remaining: nat, e: TradeEvent)
    requires Sized(orders) && DistinctIds(orders)
    requires e in Sweep(t, orders, remaining).events && e.makerCompleted
    ensures forall x :: x in Sweep(t, orders, remaining).orders ==> x.id != e.makerId
  {
    var o, v := orders[0], FillSize(t, orders[0], remaining);
    var rest := Sweep(t, orders[1..], remaining - v);
    SweepLeaves(t, orders[1..], remaining - v);
    SweepTrades(t, orders[1..], remaining - v);
    assert forall y :: y in orders[1..] ==> y.id != o.id;
    if e in rest.events {
      SweepCompletes(t, orders[1..], remaining - v, e);
    } else {
      assert e == Trade(o, v, remaining);
    }
  }

  // Quantity is conserved, and the fill is all the taker could get.
  lemma {:induction false} SweepFills(t: Taker, orders: seq<Order>, remaining: nat)
    ensures var s := Sweep(t, orders, remaining);
            && Traded(s.events) + s.remaining == remaining
            && Traded(s.events) == Min(remaining, EligibleVolume(t, orders))
  {
    if orders != [] {
      var v := FillSize(t, orders[0], remaining);
      SweepFills(t, orders[1..], remaining - v);
      var s, rest := Sweep(t, orders, remaining), Sweep(t, orders[1..], remaining - v);
      if v > 0 {
        assert s.events[1..] == rest.events;
      }
    }
  }

  // Only the last event completes the taker, and exactly when nothing is left.
  lemma {:induction false} SweepCompletion(t: Taker, orders: seq<Order>, remaining: nat)
    ensures var s := Sweep(t, orders, remaining);
            forall i :: 0 <= i < |s.events| ==>
              (s.events[i].activeCompleted <==> i == |s.events| - 1 && s.remaining == 0)
  {
    if orders != [] {
      var o, v := orders[0], FillSize(t, orders[0], remaining);
      SweepCompletion(t, orders[1..], remaining - v);
      var s, rest := Sweep(t, orders, remaining), Sweep(t, orders[1..], remaining - v);
      if v > 0 {
        assert s.events == [Trade(o, v, remaining)] + rest.events;
        SweepFills(t, orders[1..], remaining - v);
        SweepExhausted(t, orders[1..]);
        assert rest.events == [] ==> rest.remaining == remaining - v;
        forall i | 0 <= i < |s.events|
          ensures s.events[i].activeCompleted <==> i == |s.events| - 1 && s.remaining == 0
        {
          if i > 0 {
            assert s.events[i] == rest.events[i - 1];
          }
        }
      }
    }
  }

  // With nothing left to fill, nothing changes.
  lemma {:induction false} SweepExhausted(t: Taker, orders: seq<Order>)
    ensures Sweep(t, orders, 0) == Swept(orders, [], 0)
  {
    if orders != [] {
      SweepExhausted(t, orders[1..]);
    }
  }

  // Nothing eligible, nothing changes.
  lemma {:induction false} SweepIneligible(t: Taker, orders: seq<Order>, remaining: nat)
    requires forall o :: o in orders ==> !Eligible(t, o)
    ensures Sweep(t, orders, remaining) == Swept(orders, [], remaining)
  {
    if orders != [] {
      SweepIneligible(t, orders[1..], remaining);
    }
  }

  lemma Assoc<T>(a: seq<T>, b: seq<T>, c: seq<T>)
    ensures a + (b + c) == (a + b) + c
  {
  }

  // One step of the pass, as a function of the pass over the rest.
  function Consume(t: Taker, o: Order, remaining: nat, rest: Swept): Swept {
    var v := FillSize(t, o, remaining);
    if v == 0 then rest.(orders := [o] + rest.orders)
    else
      Swept((if v == o.size then [] else [o.(size := o.size - v)]) + rest.orders,
            [Trade(o, v, remaining)] + rest.events,
            rest.remaining)
  }

  function Chain(x: Swept, y: Swept): Swept {
    Swept(x.orders + y.orders, x.events + y.events, y.remaining)
  }

  lemma StepJoin(t: Taker, o: Order, remaining: nat, x: Swept, y: Swept)
    ensures Consume(t, o, remaining, Chain(x, y)) == Chain(Consume(t, o, remaining, x), y)
  {
    var v := FillSize(t, o, remaining);
    if v == 0 {
      Assoc([o], x.orders, y.orders);
    } else {
      Assoc(if v == o.size then [] else [o.(size := o.size - v)], x.orders, y.orders);
      Assoc([Trade(o, v, remaining)], x.events, y.events);
    }
  }

  // A pass over two lists is a pass over the first and then over the second.
  lemma {:induction false} SweepAppend(t: Taker, a: seq<Order>, b: seq<Order>, remaining: nat)
    ensures var x := Sweep(t, a, remaining);
            Sweep(t, a + b, remaining) == Chain(x, Sweep(t, b, x.remaining))
  {
    if a == [] {
      assert a + b == b;
      var y := Sweep(t, b, remaining);
      assert [] + y.orders == y.orders && [] + y.events == y.events;
    } else {
      var rest := remaining - FillSize(t, a[0], remaining);
      assert (a + b)[0] == a[0] && (a + b)[1..] == a[1..] + b;
      SweepAppend(t, a[1..], b, rest);
      var x := Sweep(t, a[1..], rest);
      StepJoin(t, a[0], remaining, x, Sweep(t, b, x.remaining));
    }
  }

  // If anything is left for the taker, no eligible maker is left in the list.
  lemma {:induction false} SweepExhausts(t: Taker, orders: seq<Order>, remaining: nat)
    requires Sized(orders)
    requires Sweep(t, orders, remaining).remaining > 0
    ensures forall x :: x in Sweep(t, orders, remaining).orders ==> !Eligible(t, x)
  {
    if orders != [] {
      var v := FillSize(t, orders[0], remaining);
      SweepExhausts(t, orders[1..], remaining - v);
      if v < orders[0].size && Eligible(t, orders[0]) {
        SweepExhausted(t, orders[1..]);
        assert false;
      }
    }
  }

  // Strict priority: when a maker trades, every eligible maker ahead of it in
  // the list was filled completely by the same pass.
  lemma {:induction false} SweepPriority(t: Taker, orders: seq<Order>, remaining: nat, i: nat, j: nat, e: TradeEvent)
    returns (f: TradeEvent)
    requires Sized(orders) && DistinctIds(orders)
    requires i < j < |orders| && Eligible(t, orders[i])
    requires e in Sweep(t, orders, remaining).events && e.makerId == orders[j].id
    ensures f in Sweep(t, orders, remaining).events
    ensures TradeOf(t, f, orders[i]) && f.makerCompleted && f.size == orders[i].size
  {
    var o, v := orders[0], FillSize(t, orders[0], remaining);
    var rest := Sweep(t, orders[1..], remaining - v);
    assert o.id != orders[j].id;
    assert e in rest.events;
    if i == 0 {
      if v < o.size {
        SweepExhausted(t, orders[1..]);
      }
      f := Trade(o, v, remaining);
    } else {
      f := SweepPriority(t, orders[1..], remaining - v, i - 1, j - 1, e);
    }
  }
}
