// How much can stay locked with no claim on it: splitting a reservation of quote
// loses at most one unit per split. A buying maker splits once per trade and a
// buying taker twice; a seller never does, and nobody loses anything where the
// scales of the market divide.
module Dust {
  import opened Orders
  import opened PriceTime
  import opened QuoteMath
  import opened AssetTotals
  import opened Ledger
  import opened Sums
  import opened Pipeline
  import opened PipelineShape
  import opened Claims
  import opened ClaimsMatching
  import opened Coverage
  import Solvency
  import BookLaws
  import BookRuns
  import Shards
  import PipelineSound
  import Imbalance

  // Each unit of base is worth a whole number of quote units at any price, or the
  // market counts no quote at all.
  predicate Divides(s: Spec) {
    s.baseNativeScale * s.quoteScaleK == 0 || s.quoteNativeScale % (s.baseNativeScale * s.quoteScaleK) == 0
  }

  // The most that one split of a reservation loses.
  function Grain(s: Spec): nat {
    if Divides(s) then 0 else 1
  }

  // --- One split ------------------------------------------------------------------------

  lemma Unit(s: Spec)
    returns (unit: nat)
    requires Divides(s) && s.baseNativeScale * s.quoteScaleK > 0
    ensures s.quoteNativeScale == unit * (s.baseNativeScale * s.quoteScaleK)
  {
    unit := s.quoteNativeScale / (s.baseNativeScale * s.quoteScaleK);
  }

  lemma SizeLoss(s: Spec, price: nat, v: nat, w: nat)
    requires Fits(s, price, v + w)
    ensures QuoteCost(s, price, v + w) <= QuoteCost(s, price, v) + QuoteCost(s, price, w) + Grain(s)
  {
    CostSplitSize(s, price, v, w);
    if Divides(s) && Denominator(s) > 0 {
      var unit := Unit(s);
      FitsMono(s, price, v, price, v + w);
      FitsMono(s, price, w, price, v + w);
      CostExact(s, price, v, unit);
      CostExact(s, price, w, unit);
      CostExact(s, price, v + w, unit);
      ExactSplit(price, 0, v, w, unit);
    }
  }

  lemma PriceLoss(s: Spec, price: nat, p: nat, size: nat)
    requires Fits(s, price, size) && p <= price
    ensures QuoteCost(s, price, size) <= QuoteCost(s, price - p, size) + QuoteCost(s, p, size) + Grain(s)
  {
    CostSplitPrice(s, price, p, size);
    if Divides(s) && Denominator(s) > 0 {
      var unit := Unit(s);
      FitsMono(s, price - p, size, price, size);
      FitsMono(s, p, size, price, size);
      CostExact(s, price, size, unit);
      CostExact(s, price - p, size, unit);
      CostExact(s, p, size, unit);
      ExactSplit(price, p, size, 0, unit);
    }
  }

  // --- One trade ------------------------------------------------------------------------

  lemma MakerLoss(spec: Spec, c: Command, o: Order, v: nat, remaining: nat, scope: Scope)
    requires v <= o.size && v <= remaining && o.side == c.side.Opposite() && spec.market == c.marketId
    requires o.side == Bid ==> Fits(spec, o.price, o.size)
    ensures OrderClaim(spec, o, scope)
         <= OrderClaim(spec, o.(size := o.size - v), scope)
            + MakerClaim(spec, c, PriceTime.Trade(o, v, remaining), scope)
            + (if o.side == Bid && In(scope, Key(o.user, QuoteAsset(c.marketId))) then Grain(spec) else 0)
  {
    if o.side == Bid {
      assert v + (o.size - v) == o.size;
      SizeLoss(spec, o.price, v, o.size - v);
    }
  }

  // A buying taker splits twice: the rest from what trades, the refund from the spend.
  lemma TakerLoss(spec: Spec, c: Command, e: TradeEvent, remaining: nat, scope: Scope)
    requires e.size <= remaining && c.userId != e.makerUser
    requires c.side == Bid ==> e.price <= c.price && Fits(spec, c.price, remaining)
    ensures HeldClaim(spec, c, remaining, scope)
         <= HeldClaim(spec, c, remaining - e.size, scope) + TakerClaim(spec, c, e, scope)
            + (if c.side == Bid && In(scope, HeldKey(c)) then 2 * Grain(spec) else 0)
  {
    if c.side == Bid {
      assert e.size + (remaining - e.size) == remaining;
      SizeLoss(spec, c.price, e.size, remaining - e.size);
      FitsMono(spec, c.price, e.size, c.price, remaining);
      PriceLoss(spec, c.price, e.price, e.size);
      if e.price == c.price {
        FreeAtZero(spec, e.size);
      }
    }
  }

  // Who pays quote in a trade.
  function Payer(c: Command, e: TradeEvent): Key {
    Key(if c.side == Bid then c.userId else e.makerUser, QuoteAsset(c.marketId))
  }

  // How often a trade splits a reservation of the scope.
  function Splits(c: Command, e: TradeEvent, scope: Scope): nat {
    if !In(scope, Payer(c, e)) then 0 else if c.side == Bid then 2 else 1
  }

  function SplitsOf(c: Command, events: seq<TradeEvent>, scope: Scope): nat {
    if events == [] then 0 else Splits(c, events[0], scope) + SplitsOf(c, events[1..], scope)
  }

  // What that many splits lose, at most.
  function Loss(spec: Spec, splits: nat): nat {
    if Divides(spec) then 0 else splits
  }

  lemma LossAdds(spec: Spec, m: nat, n: nat)
    ensures Loss(spec, m + n) == Loss(spec, m) + Loss(spec, n)
  {
  }

  // Only one of the two sides buys.
  lemma TradeLoss(spec: Spec, c: Command, o: Order, v: nat, remaining: nat, scope: Scope)
    requires v <= o.size && v <= remaining && o.side == c.side.Opposite() && spec.market == c.marketId
    requires o.side == Bid ==> Fits(spec, o.price, o.size)
    requires c.userId != o.user && (c.side == Bid ==> o.price <= c.price && Fits(spec, c.price, remaining))
    ensures var e := PriceTime.Trade(o, v, remaining);
            OrderClaim(spec, o, scope) + HeldClaim(spec, c, remaining, scope)
            <= OrderClaim(spec, o.(size := o.size - v), scope) + HeldClaim(spec, c, remaining - v, scope)
               + MakerClaim(spec, c, e, scope) + TakerClaim(spec, c, e, scope) + Loss(spec, Splits(c, e, scope))
    ensures v == o.size ==> OrderClaim(spec, o.(size := o.size - v), scope) == 0
  {
    MakerLoss(spec, c, o, v, remaining, scope);
    MakerSplits(spec, c, o, v, remaining, scope);
    TakerLoss(spec, c, PriceTime.Trade(o, v, remaining), remaining, scope);
  }

  // --- One pass -------------------------------------------------------------------------

  // What a pass leaves, with what its splits lose.
  function Left(spec: Spec, c: Command, s: Swept, scope: Scope): nat {
    Remains(spec, c, s, scope) + Loss(spec, SplitsOf(c, s.events, scope))
  }

  lemma SplitsStep(c: Command, orders: seq<Order>, remaining: nat, scope: Scope)
    requires orders != []
    ensures var o, v := orders[0], FillSize(TakerOf(c), orders[0], remaining);
            SplitsOf(c, Sweep(TakerOf(c), orders, remaining).events, scope)
            == (if v == 0 then 0 else Splits(c, PriceTime.Trade(o, v, remaining), scope))
               + SplitsOf(c, Sweep(TakerOf(c), orders[1..], remaining - v).events, scope)
  {
    var o, v := orders[0], FillSize(TakerOf(c), orders[0], remaining);
    var s, rest := Sweep(TakerOf(c), orders, remaining), Sweep(TakerOf(c), orders[1..], remaining - v);
    if v > 0 {
      assert s.events[1..] == rest.events;
    }
  }

  // What a pass leaves: what the rest of it leaves, and what its first order adds.
  lemma LeftStep(spec: Spec, c: Command, orders: seq<Order>, remaining: nat, scope: Scope)
    requires orders != []
    ensures var o, v := orders[0], FillSize(TakerOf(c), orders[0], remaining);
            var e := PriceTime.Trade(o, v, remaining);
            Left(spec, c, Sweep(TakerOf(c), orders, remaining), scope)
            == Left(spec, c, Sweep(TakerOf(c), orders[1..], remaining - v), scope)
               + (if v == o.size > 0 then 0 else OrderClaim(spec, o.(size := o.size - v), scope))
               + (if v == 0 then 0
                  else MakerClaim(spec, c, e, scope) + TakerClaim(spec, c, e, scope) + Loss(spec, Splits(c, e, scope)))
  {
    var o, v := orders[0], FillSize(TakerOf(c), orders[0], remaining);
    RemainsStep(spec, c, orders, remaining, scope);
    SplitsStep(c, orders, remaining, scope);
    LossAdds(spec, Splits(c, PriceTime.Trade(o, v, remaining), scope),
             SplitsOf(c, Sweep(TakerOf(c), orders[1..], remaining - v).events, scope));
  }

  // The first order of a pass against the rest of it.
  lemma OrderLoss(spec: Spec, c: Command, orders: seq<Order>, remaining: nat, scope: Scope)
    requires orders != [] && spec.market == c.marketId && (c.side == Bid ==> Fits(spec, c.price, remaining))
    requires var o := orders[0]; o.side == c.side.Opposite() && (o.side == Bid ==> Fits(spec, o.price, o.size))
    ensures var o, v := orders[0], FillSize(TakerOf(c), orders[0], remaining);
            var s, rest := Sweep(TakerOf(c), orders, remaining), Sweep(TakerOf(c), orders[1..], remaining - v);
            OrderClaim(spec, o, scope) + HeldClaim(spec, c, remaining, scope) + Left(spec, c, rest, scope)
            <= HeldClaim(spec, c, remaining - v, scope) + Left(spec, c, s, scope)
  {
    var o, v := orders[0], FillSize(TakerOf(c), orders[0], remaining);
    LeftStep(spec, c, orders, remaining, scope);
    if v > 0 {
      TradeLoss(spec, c, o, v, remaining, scope);
    } else {
      assert o.(size := o.size - v) == o;
    }
  }

  lemma HeadLoss(spec: Spec, c: Command, orders: seq<Order>, remaining: nat, scope: Scope)
    requires orders != [] && spec.market == c.marketId && (c.side == Bid ==> Fits(spec, c.price, remaining))
    requires var o := orders[0]; o.side == c.side.Opposite() && (o.side == Bid ==> Fits(spec, o.price, o.size))
    ensures var v := FillSize(TakerOf(c), orders[0], remaining);
            && Owed(spec, c, orders, remaining, scope)
               + Left(spec, c, Sweep(TakerOf(c), orders[1..], remaining - v), scope)
               <= Owed(spec, c, orders[1..], remaining - v, scope)
                  + Left(spec, c, Sweep(TakerOf(c), orders, remaining), scope)
            && (c.side == Bid ==> Fits(spec, c.price, remaining - v))
  {
    OrderLoss(spec, c, orders, remaining, scope);
    if c.side == Bid {
      FitsMono(spec, c.price, remaining - FillSize(TakerOf(c), orders[0], remaining), c.price, remaining);
    }
  }

  lemma {:induction false} SweepLoss(spec: Spec, c: Command, orders: seq<Order>, remaining: nat, scope: Scope)
    requires spec.market == c.marketId && (c.side == Bid ==> Fits(spec, c.price, remaining))
    requires forall o :: o in orders ==> o.side == c.side.Opposite() && (o.side == Bid ==> Fits(spec, o.price, o.size))
    ensures Owed(spec, c, orders, remaining, scope) <= Left(spec, c, Sweep(TakerOf(c), orders, remaining), scope)
  {
    if orders != [] {
      HeadLoss(spec, c, orders, remaining, scope);
      SweepLoss(spec, c, orders[1..], remaining - FillSize(TakerOf(c), orders[0], remaining), scope);
    }
  }

  lemma MatchLoss(spec: Spec, b: Book, c: Command, bound: nat, scope: Scope)
    requires BookLaws.GoodBook(b, bound) && FitBook(spec, b) && spec.market == c.marketId
    requires c.side == Bid ==> Fits(spec, c.price, c.size)
    ensures var (m, s) := Match(b, c);
            BookClaim(spec, b, scope) + HeldClaim(spec, c, c.size, scope)
            <= BookClaim(spec, m, scope) + EventClaims(spec, c, s.events, scope)
               + HeldClaim(spec, c, s.remaining, scope) + Loss(spec, SplitsOf(c, s.events, scope))
  {
    SweepLoss(spec, c, b.Resting(c.side.Opposite()), c.size, scope);
  }

  lemma {:induction false} SplitsSame(c: Command, d: Command, events: seq<TradeEvent>, scope: Scope)
    requires d.userId == c.userId && d.marketId == c.marketId && d.side == c.side
    ensures SplitsOf(d, events, scope) == SplitsOf(c, events, scope)
  {
    if events != [] {
      SplitsSame(c, d, events[1..], scope);
    }
  }

  lemma PlaceLoss(specs: seq<Spec>, spec: Spec, b: Book, c: Command, bound: nat, scope: Scope)
    requires BookLaws.GoodBook(b, bound) && FitBook(spec, b) && spec.market == c.marketId
    requires FindSpec(specs, c.marketId) == Some(spec) && c.status == Processing && c.events == [] && 0 < c.size
    requires c.side == Bid ==> Fits(spec, c.price, c.size)
    ensures var r := Place(b, c);
            BookClaim(spec, b, scope) + HeldClaim(spec, c, c.size, scope)
            <= BookClaim(spec, r.book, scope) + Settlement(specs, r.cmd, scope)
               + Loss(spec, SplitsOf(r.cmd, r.cmd.events, scope))
  {
    PlaceLeaves(specs, spec, b, c, scope);
    PlaceKeeps(b, c);
    SplitsSame(c, Place(b, c).cmd, Place(b, c).cmd.events, scope);
    BookRuns.PlaceEvents(b, c);
    MatchLoss(spec, b, c, bound, scope);
  }

  // --- One step -------------------------------------------------------------------------

  // What the trades of a command may have left behind.
  function SlotLoss(specs: seq<Spec>, c: Command, scope: Scope): nat {
    match FindSpec(specs, c.marketId)
    case None => 0
    case Some(spec) => Loss(spec, SplitsOf(c, c.events, scope))
  }

  function SlotLosses(cfg: Config, s: State, scope: Scope): nat -> int {
    (k: nat) => if k < |s.slots| then SlotLoss(cfg.specs, s.slots[k], scope) else 0
  }

  function DustBound(cfg: Config, s: State, scope: Scope): int { SumTo(SlotLosses(cfg, s, scope), |s.slots|) }

  // No funds of the scope are locked beyond its claims and the dust of the trades.
  ghost predicate DustIn(cfg: Config, s: State, scope: Scope)
    requires Laid(cfg, s)
  {
    LockedIn(s.store, scope) <= Outstanding(cfg, s, scope) + DustBound(cfg, s, scope)
  }

  // Journaling and admission leave the trades of a command alone.
  lemma QuietLoss(cfg: Config, s: State, a: Action, scope: Scope)
    requires Sound(cfg, s) && Enabled(cfg, s, a) && !a.Trade?
    ensures DustBound(cfg, Apply(cfg, s, a), scope) == DustBound(cfg, s, scope)
  {
    var t := Apply(cfg, s, a);
    CursorsMove(cfg, s, a);
    forall k: nat | k < |s.slots|
      ensures SlotLosses(cfg, t, scope)(k) == SlotLosses(cfg, s, scope)(k)
    {
      EventsAfter(cfg, s, a, k);
      SplitsSame(s.slots[k], t.slots[k], s.slots[k].events, scope);
    }
    SumSame(SlotLosses(cfg, t, scope), SlotLosses(cfg, s, scope), |s.slots|);
    if a.Publish? {
      var n := |s.slots|;
      assert SlotLosses(cfg, t, scope)(n) == 0;
      var f := SlotLosses(cfg, t, scope);
      assert SumTo(f, n + 1) == SumTo(f, n) + f(n);
    }
  }

  lemma EventsAfter(cfg: Config, s: State, a: Action, k: nat)
    requires Sound(cfg, s) && Enabled(cfg, s, a) && !a.Trade? && k < |s.slots|
    ensures var t := Apply(cfg, s, a);
            && k < |t.slots|
            && t.slots[k].events == s.slots[k].events && t.slots[k].marketId == s.slots[k].marketId
            && t.slots[k].userId == s.slots[k].userId && t.slots[k].side == s.slots[k].side
  {
    if k != Touched(s, a) {
      OthersUntouched(cfg, s, a, k);
    } else if a.Settle? {
      SettleMoves(cfg, s, a.shard);
    }
  }

  lemma TradeLosses(cfg: Config, s: State, j: nat, scope: Scope)
    requires Sound(cfg, s) && Enabled(cfg, s, Trade(j))
    ensures var t, k := Apply(cfg, s, Trade(j)), s.mt[j];
            && k < |t.slots| == |s.slots|
            && DustBound(cfg, t, scope)
               == DustBound(cfg, s, scope) - SlotLoss(cfg.specs, s.slots[k], scope)
                  + SlotLoss(cfg.specs, t.slots[k], scope)
  {
    var t, k := Apply(cfg, s, Trade(j)), s.mt[j];
    TradeMoves(cfg, s, j);
    forall l: nat | l < |s.slots| && l != k
      ensures SlotLosses(cfg, s, scope)(l) == SlotLosses(cfg, t, scope)(l)
    {
      OthersUntouched(cfg, s, Trade(j), l);
    }
    SumChange(SlotLosses(cfg, s, scope), SlotLosses(cfg, t, scope), |s.slots|, k);
  }

  // Handing a command to a book frees no more than the dust of its trades.
  lemma BookLoses(cfg: Config, s: State, j: nat, x: nat, scope: Scope)
    requires Backed(cfg, s) && Enabled(cfg, s, Trade(j))
    requires var c := s.slots[s.mt[j]];
             && ForBook(c) && Shards.Owns(cfg.matchShards, j, c.marketId)
             && MarketIndex(cfg.specs, c.marketId) == Some(x)
    ensures var t, k := Apply(cfg, s, Trade(j)), s.mt[j];
            && x < |cfg.specs| && |t.books| == |s.books| == |cfg.specs|
            && (forall y :: 0 <= y < |s.books| && y != x ==> t.books[y] == s.books[y])
            && s.slots[k].events == []
            && BookClaim(cfg.specs[x], s.books[x], scope) + WaitingClaim(cfg.specs, s.slots[k], scope)
               <= BookClaim(cfg.specs[x], t.books[x], scope) + Settlement(cfg.specs, t.slots[k], scope)
                  + SlotLoss(cfg.specs, t.slots[k], scope)
  {
    var k := s.mt[j];
    var c := s.slots[k];
    PipelineSound.TradeIds(cfg, s, j);
    FindSpecIndex(cfg.specs, c.marketId);
    PipelineSound.TradeReady(cfg, s, j);
    assert BookOk(cfg, s, x);
    if c.kind == PlaceOrder {
      PlaceLoss(cfg.specs, cfg.specs[x], s.books[x], c, s.bound, scope);
    } else {
      CancelClaims(cfg.specs, cfg.specs[x], s.books[x], c, scope);
    }
  }

  lemma BookTradeLoses(cfg: Config, s: State, j: nat, x: nat, scope: Scope)
    requires Backed(cfg, s) && Enabled(cfg, s, Trade(j))
    requires var c := s.slots[s.mt[j]];
             && j == c.marketId % cfg.matchShards && ForBook(c)
             && MarketIndex(cfg.specs, c.marketId) == Some(x)
    ensures var t, k := Apply(cfg, s, Trade(j)), s.mt[j];
            && Laid(cfg, t) && k < |t.slots| && SlotLoss(cfg.specs, s.slots[k], scope) == 0
            && SlotClaim(cfg, s, k, scope) + SumTo(BookClaims(cfg, s, scope), |s.books|)
               <= SlotClaim(cfg, t, k, scope) + SumTo(BookClaims(cfg, t, scope), |t.books|)
                  + SlotLoss(cfg.specs, t.slots[k], scope)
  {
    var t := Apply(cfg, s, Trade(j));
    PipelineSound.TradeReady(cfg, s, j);
    JustMatched(cfg, s, j, scope);
    BookLoses(cfg, s, j, x, scope);
    SumChange(BookClaims(cfg, s, scope), BookClaims(cfg, t, scope), |s.books|, x);
  }

  lemma TradeLoses(cfg: Config, s: State, j: nat, scope: Scope)
    requires Backed(cfg, s) && Enabled(cfg, s, Trade(j))
    ensures var t := Apply(cfg, s, Trade(j));
            && Laid(cfg, t)
            && Outstanding(cfg, s, scope) + DustBound(cfg, s, scope)
               <= Outstanding(cfg, t, scope) + DustBound(cfg, t, scope)
  {
    var c := s.slots[s.mt[j]];
    PipelineSound.TradeReady(cfg, s, j);
    SlotsChange(cfg, s, Trade(j), scope);
    TradeLosses(cfg, s, j, scope);
    if j != c.marketId % cfg.matchShards {
      PassedBy(cfg, s, j, scope);
    } else if ForBook(c) && MarketIndex(cfg.specs, c.marketId).Some? {
      BookTradeLoses(cfg, s, j, MarketIndex(cfg.specs, c.marketId).value, scope);
    } else {
      NoBookTrades(cfg, s, j, scope);
    }
  }

  lemma StepDust(cfg: Config, s: State, a: Action, scope: Scope)
    requires Backed(cfg, s) && DustIn(cfg, s, scope) && Enabled(cfg, s, a) && SupplyFits(cfg, s, a)
    ensures Laid(cfg, Apply(cfg, s, a)) && DustIn(cfg, Apply(cfg, s, a), scope)
  {
    StepCovers(cfg, s, a, scope);
    if a.Trade? {
      TradeMoves(cfg, s, a.router);
      TradeLoses(cfg, s, a.router, scope);
    } else {
      QuietLoss(cfg, s, a, scope);
    }
  }

  // --- Whole runs -----------------------------------------------------------------------

  lemma {:induction false} RunDust(cfg: Config, s: State, actions: seq<Action>, scope: Scope)
    requires Backed(cfg, s) && DustIn(cfg, s, scope) && Possible(cfg, s, actions)
    ensures var t := After(cfg, s, actions);
            Backed(cfg, t) && DustIn(cfg, t, scope)
    decreases |actions|
  {
    if actions != [] {
      Solvency.StepBacked(cfg, s, actions[0]);
      StepDust(cfg, s, actions[0], scope);
      RunDust(cfg, Apply(cfg, s, actions[0]), actions[1..], scope);
    }
  }

  function SlotSplits(s: State, scope: Scope): nat -> int {
    (k: nat) => if k < |s.slots| then SplitsOf(s.slots[k], s.slots[k].events, scope) else 0
  }

  // How often the trades so far have split reservations of the scope.
  function AllSplits(s: State, scope: Scope): int { SumTo(SlotSplits(s, scope), |s.slots|) }

  function EventCounts(s: State): nat -> int {
    (k: nat) => if k < |s.slots| then |s.slots[k].events| else 0
  }

  // All trades so far.
  function Trades(s: State): int { SumTo(EventCounts(s), |s.slots|) }

  lemma {:induction false} SplitsWithin(c: Command, events: seq<TradeEvent>, scope: Scope)
    ensures SplitsOf(c, events, scope) <= 2 * |events|
    ensures (forall e :: e in events ==> !In(scope, Payer(c, e))) ==> SplitsOf(c, events, scope) == 0
  {
    if events != [] {
      SplitsWithin(c, events[1..], scope);
    }
  }

  // No trade so far was paid from the scope.
  ghost predicate NothingPaid(s: State, scope: Scope) {
    forall k, e :: 0 <= k < |s.slots| && e in s.slots[k].events ==> !In(scope, Payer(s.slots[k], e))
  }

  ghost predicate AllDivide(specs: seq<Spec>) {
    forall spec :: spec in specs ==> Divides(spec)
  }

  lemma {:induction false} DustWithin(cfg: Config, s: State, scope: Scope, n: nat)
    ensures SumTo(SlotLosses(cfg, s, scope), n) <= SumTo(SlotSplits(s, scope), n) <= 2 * SumTo(EventCounts(s), n)
    ensures AllDivide(cfg.specs) || NothingPaid(s, scope) ==> SumTo(SlotLosses(cfg, s, scope), n) == 0
  {
    if n > 0 {
      DustWithin(cfg, s, scope, n - 1);
      if n - 1 < |s.slots| {
        var c := s.slots[n - 1];
        Imbalance.FindSpecMember(cfg.specs, c.marketId);
        SplitsWithin(c, c.events, scope);
      }
    }
  }

  // In every reachable state, what is locked of a balance, or of an asset in all, is
  // at least the outstanding claims on it. What is locked beyond them is at most one
  // unit for each time a trade split a reservation of it: two per trade it paid for
  // as a taker, one per trade it paid for as a maker.
  lemma LockedWithin(cfg: Config, actions: seq<Action>, scope: Scope)
    requires GoodConfig(cfg) && Possible(cfg, Initial(cfg), actions)
    ensures var s := After(cfg, Initial(cfg), actions);
            && Laid(cfg, s)
            && Outstanding(cfg, s, scope) <= LockedIn(s.store, scope)
            && LockedIn(s.store, scope) <= Outstanding(cfg, s, scope) + AllSplits(s, scope)
            && AllSplits(s, scope) <= 2 * Trades(s)
  {
    var s := RunLocked(cfg, actions, scope);
  }

  // A balance that paid for nothing, and every balance where all scales divide, has
  // locked exactly what is claimed.
  lemma LockedExactly(cfg: Config, actions: seq<Action>, scope: Scope)
    requires GoodConfig(cfg) && Possible(cfg, Initial(cfg), actions)
    requires AllDivide(cfg.specs) || NothingPaid(After(cfg, Initial(cfg), actions), scope)
    ensures var s := After(cfg, Initial(cfg), actions);
            Laid(cfg, s) && LockedIn(s.store, scope) == Outstanding(cfg, s, scope)
  {
    var s := RunLocked(cfg, actions, scope);
  }

  lemma RunLocked(cfg: Config, actions: seq<Action>, scope: Scope)
    returns (s: State)
    requires GoodConfig(cfg) && Possible(cfg, Initial(cfg), actions)
    ensures s == After(cfg, Initial(cfg), actions) && Laid(cfg, s)
    ensures CoveredIn(cfg, s, scope) && DustIn(cfg, s, scope)
    ensures DustBound(cfg, s, scope) <= AllSplits(s, scope) <= 2 * Trades(s)
    ensures AllDivide(cfg.specs) || NothingPaid(s, scope) ==> DustBound(cfg, s, scope) == 0
  {
    Solvency.InitialBacked(cfg);
    InitialDust(cfg, scope);
    RunDust(cfg, Initial(cfg), actions, scope);
    s := After(cfg, Initial(cfg), actions);
    DustWithin(cfg, s, scope, |s.slots|);
  }

  lemma InitialDust(cfg: Config, scope: Scope)
    requires GoodConfig(cfg)
    ensures Laid(cfg, Initial(cfg)) && DustIn(cfg, Initial(cfg), scope)
  {
    PipelineSound.InitialSound(cfg);
    SumNonNegative(BookClaims(cfg, Initial(cfg), scope), |cfg.specs|);
  }
}
