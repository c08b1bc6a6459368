// Matching creates no claims: what an order holds and what the book holds pays
// for every leg, release and resting order that matching leaves behind.
module ClaimsMatching {
  import opened Orders
  import opened PriceTime
  import BookLaws
  import BookRuns
  import opened QuoteMath
  import opened AssetTotals
  import opened Ledger
  import Sums

  import PipelineShape
  import opened Claims

  function MakerClaim(spec: Spec, c: Command, e: TradeEvent, scope: Scope): nat {
    var side := c.side.Opposite();
    if In(scope, Key(e.makerUser, HeldAsset(c.marketId, side))) then Held(spec, side, e.price, e.size) else 0
  }

  function TakerDebit(spec: Spec, c: Command, e: TradeEvent): nat {
    Refund(spec, c.userId, c.side, e, Some(c.price)) + Held(spec, c.side, e.price, e.size)
  }

  function TakerClaim(spec: Spec, c: Command, e: TradeEvent, scope: Scope): nat {
    if In(scope, HeldKey(c)) then TakerDebit(spec, c, e) else 0
  }

  function EventClaims(spec: Spec, c: Command, events: seq<TradeEvent>, scope: Scope): nat {
    if events == [] then 0
    else
      MakerClaim(spec, c, events[0], scope) + TakerClaim(spec, c, events[0], scope)
      + EventClaims(spec, c, events[1..], scope)
  }

  function HeldClaim(spec: Spec, c: Command, size: nat, scope: Scope): nat {
    if In(scope, HeldKey(c)) then Held(spec, c.side, c.price, size) else 0
  }

  // --- One maker ------------------------------------------------------------------------

  // A resting order pays for the part of it that trades and for the rest.
  lemma MakerSplits(spec: Spec, c: Command, o: Order, v: nat, remaining: nat, scope: Scope)
    requires v <= o.size && v <= remaining && o.side == c.side.Opposite() && spec.market == c.marketId
    requires o.side == Bid ==> Fits(spec, o.price, o.size)
    ensures OrderClaim(spec, o, scope)
         >= OrderClaim(spec, o.(size := o.size - v), scope)
           + MakerClaim(spec, c, PriceTime.Trade(o, v, remaining), scope)
    ensures v == o.size ==> OrderClaim(spec, o, scope) == MakerClaim(spec, c, PriceTime.Trade(o, v, remaining), scope)
  {
    if o.side == Bid {
      assert v + (o.size - v) == o.size;
      CostSplitSize(spec, o.price, v, o.size - v);
    }
  }

  // A taker pays for the refund and the spend of one trade and for the rest.
  lemma TakerSplits(spec: Spec, c: Command, e: TradeEvent, remaining: nat, scope: Scope)
    requires e.size <= remaining && (c.side == Bid ==> e.price <= c.price && Fits(spec, c.price, remaining))
    ensures HeldClaim(spec, c, remaining, scope)
         >= HeldClaim(spec, c, remaining - e.size, scope) + TakerClaim(spec, c, e, scope)
  {
    if c.side == Bid {
      assert e.size + (remaining - e.size) == remaining;
      CostSplitSize(spec, c.price, e.size, remaining - e.size);
      FitsMono(spec, c.price, e.size, c.price, remaining);
      CostSplitPrice(spec, c.price, e.price, e.size);
    }
  }

  // --- One pass ---------------------------------------------------------------------------

  // The claims left by one pass: those of the first order and those of the rest.
  lemma SweepStep(spec: Spec, c: Command, orders: seq<Order>, remaining: nat, scope: Scope)
    requires orders != []
    ensures var o, v := orders[0], FillSize(TakerOf(c), orders[0], remaining);
            var s, rest := Sweep(TakerOf(c), orders, remaining), Sweep(TakerOf(c), orders[1..], remaining - v);
            var e := PriceTime.Trade(o, v, remaining);
            && s.remaining == rest.remaining
            && ListClaim(spec, s.orders, scope) == ListClaim(spec, rest.orders, scope)
                 + (if v == o.size > 0 then 0 else OrderClaim(spec, o.(size := o.size - v), scope))
            && EventClaims(spec, c, s.events, scope) == EventClaims(spec, c, rest.events, scope)
                 + (if v == 0 then 0 else MakerClaim(spec, c, e, scope) + TakerClaim(spec, c, e, scope))
            && |s.events| == |rest.events| + (if v == 0 then 0 else 1)
  {
    var o, v := orders[0], FillSize(TakerOf(c), orders[0], remaining);
    var s, rest := Sweep(TakerOf(c), orders, remaining), Sweep(TakerOf(c), orders[1..], remaining - v);
    if v == o.size > 0 {
      assert s.orders == rest.orders;
    } else {
      assert s.orders[1..] == rest.orders && s.orders[0] == o.(size := o.size - v);
    }
    if v > 0 {
      assert s.events[1..] == rest.events;
    }
  }

  // What holds a list and a taker against it, and what a pass leaves of that.
  function Owed(spec: Spec, c: Command, orders: seq<Order>, remaining: nat, scope: Scope): nat {
    ListClaim(spec, orders, scope) + HeldClaim(spec, c, remaining, scope)
  }

  function Remains(spec: Spec, c: Command, s: Swept, scope: Scope): nat {
    Owed(spec, c, s.orders, s.remaining, scope) + EventClaims(spec, c, s.events, scope)
  }

  // What a pass leaves: what the rest of it leaves, and what its first order adds.
  lemma RemainsStep(spec: Spec, c: Command, orders: seq<Order>, remaining: nat, scope: Scope)
    requires orders != []
    ensures var o, v := orders[0], FillSize(TakerOf(c), orders[0], remaining);
            var e := PriceTime.Trade(o, v, remaining);
            Remains(spec, c, Sweep(TakerOf(c), orders, remaining), scope)
            == Remains(spec, c, Sweep(TakerOf(c), orders[1..], remaining - v), scope)
               + (if v == o.size > 0 then 0 else OrderClaim(spec, o.(size := o.size - v), scope))
               + (if v == 0 then 0 else MakerClaim(spec, c, e, scope) + TakerClaim(spec, c, e, scope))
  {
    SweepStep(spec, c, orders, remaining, scope);
  }

  // Both sides pay for their part of one trade.
  lemma TradePays(spec: Spec, c: Command, o: Order, v: nat, remaining: nat, scope: Scope)
    requires v <= o.size && v <= remaining && o.side == c.side.Opposite() && spec.market == c.marketId
    requires o.side == Bid ==> Fits(spec, o.price, o.size)
    requires c.side == Bid ==> o.price <= c.price && Fits(spec, c.price, remaining)
    ensures var e := PriceTime.Trade(o, v, remaining);
            OrderClaim(spec, o, scope) + HeldClaim(spec, c, remaining, scope)
            >= OrderClaim(spec, o.(size := o.size - v), scope) + HeldClaim(spec, c, remaining - v, scope)
               + MakerClaim(spec, c, e, scope) + TakerClaim(spec, c, e, scope)
  {
    MakerSplits(spec, c, o, v, remaining, scope);
    TakerSplits(spec, c, PriceTime.Trade(o, v, remaining), remaining, scope);
  }

  // The first order of a pass pays for what the pass does to it.
  lemma OrderPays(spec: Spec, c: Command, orders: seq<Order>, remaining: nat, scope: Scope)
    requires orders != [] && spec.market == c.marketId && (c.side == Bid ==> Fits(spec, c.price, remaining))
    requires var o := orders[0]; o.side == c.side.Opposite() && (o.side == Bid ==> Fits(spec, o.price, o.size))
    ensures var o, v := orders[0], FillSize(TakerOf(c), orders[0], remaining);
            var s, rest := Sweep(TakerOf(c), orders, remaining), Sweep(TakerOf(c), orders[1..], remaining - v);
            OrderClaim(spec, o, scope) + HeldClaim(spec, c, remaining, scope) + Remains(spec, c, rest, scope)
            >= HeldClaim(spec, c, remaining - v, scope) + Remains(spec, c, s, scope)
  {
    var o, v := orders[0], FillSize(TakerOf(c), orders[0], remaining);
    RemainsStep(spec, c, orders, remaining, scope);
    if v > 0 {
      TradePays(spec, c, o, v, remaining, scope);
    } else {
      assert o.(size := o.size - v) == o;
    }
  }

  lemma HeadPays(spec: Spec, c: Command, orders: seq<Order>, remaining: nat, scope: Scope)
    requires orders != [] && spec.market == c.marketId && (c.side == Bid ==> Fits(spec, c.price, remaining))
    requires var o := orders[0]; o.side == c.side.Opposite() && (o.side == Bid ==> Fits(spec, o.price, o.size))
    ensures var v := FillSize(TakerOf(c), orders[0], remaining);
            && Owed(spec, c, orders, remaining, scope)
               + Remains(spec, c, Sweep(TakerOf(c), orders[1..], remaining - v), scope)
               >= Owed(spec, c, orders[1..], remaining - v, scope)
                  + Remains(spec, c, Sweep(TakerOf(c), orders, remaining), scope)
            && (c.side == Bid ==> Fits(spec, c.price, remaining - v))
  {
    OrderPays(spec, c, orders, remaining, scope);
    if c.side == Bid {
      FitsMono(spec, c.price, remaining - FillSize(TakerOf(c), orders[0], remaining), c.price, remaining);
    }
  }

  lemma {:induction false} SweepClaims(spec: Spec, c: Command, orders: seq<Order>, remaining: nat, scope: Scope)
    requires spec.market == c.marketId && (c.side == Bid ==> Fits(spec, c.price, remaining))
    requires forall o :: o in orders ==> o.side == c.side.Opposite() && (o.side == Bid ==> Fits(spec, o.price, o.size))
    ensures Owed(spec, c, orders, remaining, scope) >= Remains(spec, c, Sweep(TakerOf(c), orders, remaining), scope)
  {
    if orders != [] {
      HeadPays(spec, c, orders, remaining, scope);
      SweepClaims(spec, c, orders[1..], remaining - FillSize(TakerOf(c), orders[0], remaining), scope);
    }
  }

  lemma {:induction false} InsertClaim(spec: Spec, orders: seq<Order>, o: Order, scope: Scope)
    ensures ListClaim(spec, Insert(orders, o), scope) == ListClaim(spec, orders, scope) + OrderClaim(spec, o, scope)
  {
    var r := Insert(orders, o);
    if orders == [] || Better(o.side, o.price, orders[0].price) {
      assert r[1..] == orders;
    } else {
      InsertClaim(spec, orders[1..], o, scope);
      assert r[1..] == Insert(orders[1..], o);
    }
  }

  lemma {:induction false} WithoutClaim(spec: Spec, orders: seq<Order>, price: nat, id: nat, scope: Scope)
    requires Lookup(orders, price, id).Some?
    ensures ListClaim(spec, orders, scope)
         == ListClaim(spec, Without(orders, price, id), scope)
           + OrderClaim(spec, Lookup(orders, price, id).value, scope)
  {
    if !(orders[0].price == price && orders[0].id == id) {
      WithoutClaim(spec, orders[1..], price, id, scope);
      assert Without(orders, price, id)[1..] == Without(orders[1..], price, id);
    }
  }

  // --- Parts of the matched command ---------------------------------------------------------

  lemma {:induction false} EventClaimsAppend(spec: Spec, c: Command, events: seq<TradeEvent>, e: TradeEvent,
                                             scope: Scope)
    ensures EventClaims(spec, c, events + [e], scope)
         == EventClaims(spec, c, events, scope) + MakerClaim(spec, c, e, scope) + TakerClaim(spec, c, e, scope)
  {
    if events == [] {
      assert ([] + [e])[1..] == [];
    } else {
      assert (events + [e])[1..] == events[1..] + [e];
      EventClaimsAppend(spec, c, events[1..], e, scope);
    }
  }

  // A market sell only changes the price it reports, which no claim depends on.
  lemma {:induction false} EventClaimsSame(spec: Spec, c: Command, d: Command, events: seq<TradeEvent>, scope: Scope)
    requires d.userId == c.userId && d.marketId == c.marketId && d.side == c.side
    requires c.side == Bid ==> d.price == c.price
    ensures EventClaims(spec, d, events, scope) == EventClaims(spec, c, events, scope)
  {
    if events != [] {
      EventClaimsSame(spec, c, d, events[1..], scope);
    }
  }

  lemma LegClaims(specs: seq<Spec>, spec: Spec, c: Command, i: nat, scope: Scope)
    requires FindSpec(specs, c.marketId) == Some(spec) && i < |c.events|
    ensures AllClaims(specs, c, scope)(2 * i) == MakerClaim(spec, c, c.events[i], scope)
    ensures AllClaims(specs, c, scope)(2 * i + 1) == TakerClaim(spec, c, c.events[i], scope)
  {
    assert (2 * i) / 2 == i && (2 * i) % 2 == 0 && (2 * i + 1) / 2 == i && (2 * i + 1) % 2 == 1;
  }

  // The claims of the legs, summed along the walk, are the claims of the events.
  lemma {:induction false} LegSum(specs: seq<Spec>, spec: Spec, c: Command, i: nat, scope: Scope)
    requires FindSpec(specs, c.marketId) == Some(spec) && i <= |c.events|
    ensures Sums.SumTo(AllClaims(specs, c, scope), 2 * i) == EventClaims(spec, c, c.events[..i], scope)
  {
    if i > 0 {
      var j := i - 1;
      LegSum(specs, spec, c, j, scope);
      LegClaims(specs, spec, c, j, scope);
      EventClaimsAppend(spec, c, c.events[..j], c.events[j], scope);
      assert c.events[..i] == c.events[..j] + [c.events[j]];
      PairSum(AllClaims(specs, c, scope), j, MakerClaim(spec, c, c.events[j], scope),
              TakerClaim(spec, c, c.events[j], scope));
    }
  }

  lemma PairSum(f: nat -> int, j: nat, x: int, y: int)
    requires f(2 * j) == x && f(2 * j + 1) == y
    ensures Sums.SumTo(f, 2 * (j + 1)) == Sums.SumTo(f, 2 * j) + x + y
  {
    Sums.SumTwo(f, 2 * j);
  }

  lemma PartSum(specs: seq<Spec>, spec: Spec, c: Command, scope: Scope)
    requires FindSpec(specs, c.marketId) == Some(spec)
    ensures Sums.SumTo(AllClaims(specs, c, scope), Parts(c))
         == EventClaims(spec, c, c.events, scope) + PartClaim(specs, c, LegCount(c), scope)
  {
    LegSum(specs, spec, c, |c.events|, scope);
    assert c.events[..|c.events|] == c.events;
  }

  // --- One request ----------------------------------------------------------------------------

  // All claims a matched command will make.
  function Settlement(specs: seq<Spec>, c: Command, scope: Scope): int {
    if Settleable(c) then Sums.SumTo(AllClaims(specs, c, scope), Parts(c)) else 0
  }

  lemma MatchClaims(spec: Spec, b: Book, c: Command, bound: nat, scope: Scope)
    requires BookLaws.GoodBook(b, bound) && PipelineShape.FitBook(spec, b) && spec.market == c.marketId
    requires c.side == Bid ==> Fits(spec, c.price, c.size)
    ensures var (m, s) := Match(b, c);
            BookClaim(spec, b, scope) + HeldClaim(spec, c, c.size, scope)
            >= BookClaim(spec, m, scope) + EventClaims(spec, c, s.events, scope)
              + HeldClaim(spec, c, s.remaining, scope)
  {
    SweepClaims(spec, c, b.Resting(c.side.Opposite()), c.size, scope);
  }

  // The size a place does not trade, and whether it comes to rest in the book.
  function Untraded(b: Book, c: Command): nat {
    if c.tif == Fok && !CanFill(b, c) then c.size else Match(b, c).1.remaining
  }

  lemma PlacedBook(spec: Spec, b: Book, c: Command, scope: Scope)
    requires c.status != Rejected && 0 < c.size && spec.market == c.marketId
    ensures BookClaim(spec, Place(b, c).book, scope)
         == (if c.tif == Fok && !CanFill(b, c) then BookClaim(spec, b, scope)
             else BookClaim(spec, Match(b, c).0, scope))
            + (if c.tif == Gtc then HeldClaim(spec, c, Untraded(b, c), scope) else 0)
  {
    BookLaws.PlaceBook(b, c);
    var (m, s) := Match(b, c);
    if c.tif == Gtc && s.remaining > 0 {
      InsertClaim(spec, m.Resting(c.side), RestingOrder(c, s.remaining), scope);
    } else if c.tif == Gtc && c.side == Bid {
      NothingHeld(spec, c.price);
    }
  }

  lemma NothingHeld(spec: Spec, price: nat)
    ensures QuoteCost(spec, price, 0) == 0
  {
    assert Numerator(spec, price, 0) == 0;
  }

  lemma PlacedSettlement(specs: seq<Spec>, spec: Spec, b: Book, c: Command, scope: Scope)
    requires FindSpec(specs, c.marketId) == Some(spec)
    requires c.status == Processing && c.events == [] && 0 < c.size
    ensures var d := Place(b, c).cmd;
            Settlement(specs, d, scope)
            == EventClaims(spec, c, d.events, scope)
               + (if c.tif == Gtc then 0 else HeldClaim(spec, c, Untraded(b, c), scope))
  {
    var d := Place(b, c).cmd;
    PlaceKeeps(b, c);
    BookLaws.PlaceConserves(b, c);
    PartSum(specs, spec, d, scope);
    EventClaimsSame(spec, c, d, d.events, scope);
    if c.side == Bid {
      NothingHeld(spec, c.price);
    }
  }

  // What a place leaves: an order that was not tried frees all it holds; otherwise
  // the legs, and the rest as a resting order or a release.
  lemma PlaceLeaves(specs: seq<Spec>, spec: Spec, b: Book, c: Command, scope: Scope)
    requires spec.market == c.marketId && FindSpec(specs, c.marketId) == Some(spec)
    requires c.status == Processing && c.events == [] && 0 < c.size
    ensures var r := Place(b, c);
            var (m, s) := Match(b, c);
            BookClaim(spec, r.book, scope) + Settlement(specs, r.cmd, scope)
            == if c.tif == Fok && !CanFill(b, c) then BookClaim(spec, b, scope) + HeldClaim(spec, c, c.size, scope)
               else BookClaim(spec, m, scope) + EventClaims(spec, c, s.events, scope)
                    + HeldClaim(spec, c, s.remaining, scope)
  {
    PlacedBook(spec, b, c, scope);
    PlacedSettlement(specs, spec, b, c, scope);
    BookRuns.PlaceEvents(b, c);
  }

  lemma PlaceClaims(specs: seq<Spec>, spec: Spec, b: Book, c: Command, bound: nat, scope: Scope)
    requires BookLaws.GoodBook(b, bound) && PipelineShape.FitBook(spec, b) && spec.market == c.marketId
    requires FindSpec(specs, c.marketId) == Some(spec) && c.status == Processing && c.events == [] && 0 < c.size
    requires c.side == Bid ==> Fits(spec, c.price, c.size)
    ensures var r := Place(b, c);
            BookClaim(spec, b, scope) + HeldClaim(spec, c, c.size, scope)
            >= BookClaim(spec, r.book, scope) + Settlement(specs, r.cmd, scope)
  {
    PlaceLeaves(specs, spec, b, c, scope);
    MatchClaims(spec, b, c, bound, scope);
  }

  lemma PlaceKeeps(b: Book, c: Command)
    requires c.status != Rejected && 0 < c.size
    ensures var d := Place(b, c).cmd;
            && d.userId == c.userId && d.marketId == c.marketId && d.side == c.side && d.tif == c.tif
            && d.kind == c.kind && (c.side == Bid ==> d.price == c.price)
            && d.size == (if c.tif == Fok && !CanFill(b, c) then c.size else Match(b, c).1.remaining)
            && Settleable(d)
  {
    ExecuteKeeps(b, c);
  }

  lemma ExecuteKeeps(b: Book, c: Command)
    ensures var d := Execute(b, c).cmd;
            && d.userId == c.userId && d.marketId == c.marketId && d.side == c.side && d.tif == c.tif
            && d.kind == c.kind && d.price == c.price && Settleable(d)
            && d.size == (if c.tif == Fok && !CanFill(b, c) then c.size else Match(b, c).1.remaining)
  {
    var (m, s) := Match(b, c);
    var done := c.(events := c.events + s.events, size := s.remaining);
    assert done.price == c.price && done.size == s.remaining;
  }

  lemma CancelClaims(specs: seq<Spec>, spec: Spec, b: Book, c: Command, scope: Scope)
    requires FindSpec(specs, c.marketId) == Some(spec) && spec.market == c.marketId
    requires c.status == Processing && c.events == []
    ensures var r := Cancel(b, c);
            BookClaim(spec, b, scope) == BookClaim(spec, r.book, scope) + Settlement(specs, r.cmd, scope)
  {
    var r := Cancel(b, c);
    if r.cmd.status != Rejected {
      var price := b.index[c.orderId];
      var side := SearchedSide(b, price).value;
      WithoutClaim(spec, b.Resting(side), price, c.orderId, scope);
      PartSum(specs, spec, r.cmd, scope);
    }
  }
}
