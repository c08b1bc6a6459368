// The shape invariant is kept by every step, so it holds in every state of
// every interleaving.
module PipelineSound {
  import opened Orders
  import opened PriceTime
  import Matching
  import opened BookLaws
  import opened BookRuns
  import opened QuoteMath
  import Shards
  import opened Pipeline
  import opened PipelineShape

  // --- Commands -------------------------------------------------------------------------

  lemma JournalSlot(cfg: Config, s: State, a: Action)
    requires Sound(cfg, s) && Enabled(cfg, s, a) && a.Journal?
    ensures Laid(cfg, Apply(cfg, s, a)) && SlotOk(cfg, Apply(cfg, s, a), s.journaled)
  {
    var t, k := Apply(cfg, s, a), s.journaled;
    assert SlotOk(cfg, s, k);
    HomeInRange(cfg.matchShards, s.slots[k].marketId);
    HomeInRange(cfg.riskShards, s.slots[k].userId);
    assert !Matched(cfg, s, k) && !Matched(cfg, t, k);
    assert Admitted(cfg, t, k) <==> Admitted(cfg, s, k);
  }

  lemma AdmitSlot(cfg: Config, s: State, i: nat, bestAsk: nat)
    requires Sound(cfg, s) && Enabled(cfg, s, Admit(i, bestAsk)) && SupplyFits(cfg, s, Admit(i, bestAsk))
    ensures var t := Apply(cfg, s, Admit(i, bestAsk));
            Laid(cfg, t) && s.r1[i] < |t.slots| && SlotOk(cfg, t, s.r1[i])
  {
    var t, k := Apply(cfg, s, Admit(i, bestAsk)), s.r1[i];
    AdmitMoves(cfg, s, i, bestAsk);
    var c := s.slots[k];
    assert SlotOk(cfg, s, k);
    HomeInRange(cfg.matchShards, c.marketId);
    HomeInRange(cfg.riskShards, c.userId);
    Shards.OneOwner(cfg.riskShards, c.userId);
    if Shards.Owns(cfg.riskShards, i, c.userId) {
      assert s.mt[c.marketId % cfg.matchShards] <= s.r1[i];
      PreProcessAccepts(cfg, s, c, bestAsk);
    }
  }

  // The command a router is about to take has passed the first risk stage.
  lemma TradeReady(cfg: Config, s: State, j: nat)
    requires Sound(cfg, s) && Enabled(cfg, s, Trade(j))
    ensures Admitted(cfg, s, s.mt[j])
    ensures Shards.Owns(cfg.matchShards, j, s.slots[s.mt[j]].marketId)
       <==> j == s.slots[s.mt[j]].marketId % cfg.matchShards
    ensures j == s.slots[s.mt[j]].marketId % cfg.matchShards ==>
              !Matched(cfg, s, s.mt[j]) && Accepted(cfg, s.slots[s.mt[j]])
  {
    var k := s.mt[j];
    assert SlotOk(cfg, s, k);
    HomeInRange(cfg.riskShards, s.slots[k].userId);
    Shards.OneOwner(cfg.matchShards, s.slots[k].marketId);
  }

  lemma TradeSlot(cfg: Config, s: State, j: nat)
    requires Sound(cfg, s) && Enabled(cfg, s, Trade(j))
    ensures var t := Apply(cfg, s, Trade(j));
            Laid(cfg, t) && s.mt[j] < |t.slots| && SlotOk(cfg, t, s.mt[j])
  {
    var t, k := Apply(cfg, s, Trade(j)), s.mt[j];
    var c := s.slots[k];
    TradeMoves(cfg, s, j);
    TradeReady(cfg, s, j);
    assert SlotOk(cfg, s, k);
    if j == c.marketId % cfg.matchShards && ForBook(c) {
      FindSpecIndex(cfg.specs, c.marketId);
      match MarketIndex(cfg.specs, c.marketId) {
        case None =>
        case Some(x) =>
          assert BookOk(cfg, s, x);
          ProcessExecutes(cfg, s.books[x], c, s.bound);
      }
    }
  }

  lemma TouchedSlot(cfg: Config, s: State, a: Action)
    requires Sound(cfg, s) && Enabled(cfg, s, a) && SupplyFits(cfg, s, a) && !a.Publish?
    ensures var t, k := Apply(cfg, s, a), Touched(s, a);
            Laid(cfg, t) && k < |t.slots| && SlotOk(cfg, t, k)
  {
    match a {
      case Journal(_, _) => JournalSlot(cfg, s, a);
      case Admit(i, bestAsk) => AdmitSlot(cfg, s, i, bestAsk);
      case Trade(j) => TradeSlot(cfg, s, j);
      case Settle(i) =>
        SettleMoves(cfg, s, i);
        assert SlotOk(cfg, s, s.r2[i]);
    }
  }

  lemma SlotsKept(cfg: Config, s: State, a: Action)
    requires Sound(cfg, s) && Enabled(cfg, s, a) && SupplyFits(cfg, s, a)
    ensures Laid(cfg, Apply(cfg, s, a)) && SlotsOk(cfg, Apply(cfg, s, a))
  {
    var t := Apply(cfg, s, a);
    CursorsMove(cfg, s, a);
    forall k | 0 <= k < |t.slots|
      ensures SlotOk(cfg, t, k)
    {
      if k == Touched(s, a) {
        if a.Publish? {
          PublishedSlot(cfg, s, a);
        } else {
          TouchedSlot(cfg, s, a);
        }
      } else {
        assert SlotOk(cfg, s, k);
        StagesElsewhere(cfg, s, a, k);
      }
    }
  }

  lemma PublishedSlot(cfg: Config, s: State, a: Action)
    requires Sound(cfg, s) && Enabled(cfg, s, a) && a.Publish?
    ensures Laid(cfg, Apply(cfg, s, a)) && SlotOk(cfg, Apply(cfg, s, a), |s.slots|)
  {
    var t := Apply(cfg, s, a);
    HomeInRange(cfg.matchShards, a.cmd.marketId);
    HomeInRange(cfg.riskShards, a.cmd.userId);
    assert !Matched(cfg, t, |s.slots|) && !Admitted(cfg, t, |s.slots|);
  }

  // --- Ids ----------------------------------------------------------------------------------

  // Only journaling assigns an id, and nothing changes the kind of a command.
  lemma IdsAfter(cfg: Config, s: State, a: Action, k: nat)
    requires Sound(cfg, s) && Enabled(cfg, s, a) && k < |s.slots|
    ensures var t := Apply(cfg, s, a);
            && k < |t.slots| && t.slots[k].kind == s.slots[k].kind && t.slots[k].marketId == s.slots[k].marketId
            && (a.Journal? && k == s.journaled && s.slots[k].kind != CancelOrder ==> t.slots[k].orderId == a.id)
            && (!(a.Journal? && k == s.journaled) ==> t.slots[k].orderId == s.slots[k].orderId)
            && (s.slots[k].kind == CancelOrder ==> t.slots[k].orderId == s.slots[k].orderId)
  {
    if k != Touched(s, a) {
      OthersUntouched(cfg, s, a, k);
    } else {
      match a {
        case Publish(_) =>
        case Journal(_, _) =>
        case Admit(i, bestAsk) => AdmitIds(cfg, s, i, bestAsk);
        case Trade(j) => TradeIds(cfg, s, j);
        case Settle(i) => SettleMoves(cfg, s, i);
      }
    }
  }

  lemma AdmitIds(cfg: Config, s: State, i: nat, bestAsk: nat)
    requires Laid(cfg, s) && i < cfg.riskShards && s.r1[i] < |s.slots|
    ensures var c, d := s.slots[s.r1[i]], ApplyAdmit(cfg, s, i, bestAsk).slots[s.r1[i]];
            d.kind == c.kind && d.marketId == c.marketId && d.orderId == c.orderId
  {
  }

  lemma TradeIds(cfg: Config, s: State, j: nat)
    requires Sound(cfg, s) && Enabled(cfg, s, Trade(j))
    ensures var c, d := s.slots[s.mt[j]], ApplyTrade(cfg, s, j).slots[s.mt[j]];
            d.kind == c.kind && d.marketId == c.marketId && d.orderId == c.orderId
  {
    var k := s.mt[j];
    TradeReady(cfg, s, j);
    FindSpecIndex(cfg.specs, s.slots[k].marketId);
    match MarketIndex(cfg.specs, s.slots[k].marketId) {
      case None =>
      case Some(x) =>
        assert BookOk(cfg, s, x);
        if j == s.slots[k].marketId % cfg.matchShards {
          ProcessExecutes(cfg, s.books[x], s.slots[k], s.bound);
        }
    }
  }

  lemma IdsKept(cfg: Config, s: State, a: Action)
    requires Sound(cfg, s) && Enabled(cfg, s, a)
    ensures IdsOk(Apply(cfg, s, a))
  {
    var t := Apply(cfg, s, a);
    CursorsMove(cfg, s, a);
    BoundGrows(cfg, s, a);
    forall k | 0 <= k < |t.slots| && k < t.journaled && t.slots[k].kind == PlaceOrder
      ensures t.slots[k].orderId < t.bound
    {
      IdsAfter(cfg, s, a, k);
    }
    forall k, l | 0 <= k < l < |t.slots| && l < t.journaled
                  && t.slots[k].kind == PlaceOrder && t.slots[l].kind == PlaceOrder
      ensures t.slots[k].orderId < t.slots[l].orderId
    {
      IdsAfter(cfg, s, a, k);
      IdsAfter(cfg, s, a, l);
    }
  }

  lemma BoundGrows(cfg: Config, s: State, a: Action)
    requires Sound(cfg, s) && Enabled(cfg, s, a)
    ensures var t := Apply(cfg, s, a);
            && s.bound <= t.bound
            && (a.Journal? && s.slots[s.journaled].kind != CancelOrder ==> t.bound == a.id + 1)
            && (!a.Journal? ==> t.bound == s.bound)
  {
    match a {
      case Publish(_) =>
      case Journal(_, _) =>
      case Admit(i, bestAsk) => AdmitMoves(cfg, s, i, bestAsk);
      case Trade(j) => TradeMoves(cfg, s, j);
      case Settle(i) => SettleMoves(cfg, s, i);
    }
  }

  // --- Books ------------------------------------------------------------------------------------

  // A book that did not change stays good: fewer or later orders are pending.
  lemma BookUntouched(cfg: Config, s: State, a: Action, x: nat)
    requires Sound(cfg, s) && Enabled(cfg, s, a) && x < |cfg.specs|
    requires Barriers(cfg, Apply(cfg, s, a)) && Apply(cfg, s, a).books[x] == s.books[x]
    ensures BookOk(cfg, Apply(cfg, s, a), x)
  {
    var t := Apply(cfg, s, a);
    assert BookOk(cfg, s, x);
    BoundGrows(cfg, s, a);
    CursorsMove(cfg, s, a);
    Widen(s.books[x], s.bound, t.bound);
    forall k: nat | Pending(cfg, t, x, k)
      ensures IdsBelow(t.books[x].bids, t.slots[k].orderId) && IdsBelow(t.books[x].asks, t.slots[k].orderId)
    {
      PendingBefore(cfg, s, a, x, k);
    }
  }

  // What is pending after a step was pending before it, or was just journaled.
  lemma PendingBefore(cfg: Config, s: State, a: Action, x: nat, k: nat)
    requires Sound(cfg, s) && Enabled(cfg, s, a) && x < |cfg.specs|
    requires Barriers(cfg, Apply(cfg, s, a)) && Pending(cfg, Apply(cfg, s, a), x, k)
    ensures var t := Apply(cfg, s, a);
            if a.Journal? && k == s.journaled then t.slots[k].orderId >= s.bound
            else Pending(cfg, s, x, k) && t.slots[k].orderId == s.slots[k].orderId
  {
    CursorsMove(cfg, s, a);
    IdsAfter(cfg, s, a, k);
    HomeInRange(cfg.matchShards, s.slots[k].marketId);
  }

  lemma FitMatch(spec: Spec, b: Book, c: Command, bound: nat)
    requires GoodBook(b, bound) && FitBook(spec, b)
    ensures FitBook(spec, Match(b, c).0)
  {
    Matching.SweepLeaves(TakerOf(c), b.Resting(c.side.Opposite()), c.size);
    var (m, swept) := Match(b, c);
    forall o | o in m.bids
      ensures Fits(spec, o.price, o.size)
    {
      if o !in b.bids {
        var y :| y in b.bids && Matching.LeftOf(o, y);
        FitsMono(spec, o.price, o.size, y.price, y.size);
      }
    }
  }

  lemma FitProcess(spec: Spec, b: Book, c: Command, bound: nat)
    requires GoodBook(b, bound) && FitBook(spec, b)
    requires c.kind == PlaceOrder && c.status != Rejected ==>
               0 < c.size && (c.side == Bid ==> Fits(spec, c.price, c.size))
    ensures FitBook(spec, Process(b, c).book)
  {
    if c.kind == PlaceOrder && c.status != Rejected {
      PlaceBook(b, c);
      FitMatch(spec, b, c, bound);
      var (m, swept) := Match(b, c);
      if c.tif == Gtc && swept.remaining > 0 {
        var o := RestingOrder(c, swept.remaining);
        InsertAdds(m.Resting(c.side), o);
        if c.side == Bid {
          FitsMono(spec, c.price, swept.remaining, c.price, c.size);
        }
      }
    } else if c.kind == CancelOrder {
      CancelKeeps(b, c, bound);
    }
  }

  lemma GoodBelow(b: Book, bound: nat, id: nat)
    requires GoodBook(b, bound) && IdsBelow(b.bids, id) && IdsBelow(b.asks, id)
    ensures GoodBook(b, id)
  {
  }

  // One request at a good book: good afterwards, and every id in it is below any
  // id that is above the request's.
  lemma ProcessGood(spec: Spec, b: Book, c: Command, bound: nat)
    requires GoodBook(b, bound) && NotCrossed(b) && FitBook(spec, b) && c.status != Rejected
    requires c.kind == PlaceOrder || c.kind == CancelOrder
    requires c.kind == PlaceOrder ==>
               && FreshOrder(c, c.orderId) && c.orderId < bound
               && IdsBelow(b.bids, c.orderId) && IdsBelow(b.asks, c.orderId)
               && (c.side == Bid ==> Fits(spec, c.price, c.size))
    ensures var r := Process(b, c).book;
            && GoodBook(r, bound) && NotCrossed(r) && FitBook(spec, r)
            && (c.kind == PlaceOrder ==> IdsBelow(r.bids, c.orderId + 1) && IdsBelow(r.asks, c.orderId + 1))
            && (c.kind == CancelOrder ==>
                  (forall o :: o in r.bids ==> o in b.bids) && (forall o :: o in r.asks ==> o in b.asks))
  {
    FitProcess(spec, b, c, bound);
    if c.kind == PlaceOrder {
      GoodBelow(b, bound, c.orderId);
      PlaceGood(b, c, c.orderId);
      PlaceNotCrossed(b, c, c.orderId);
      Widen(Process(b, c).book, c.orderId + 1, bound);
    } else {
      CancelGood(b, c, bound);
      CancelKeeps(b, c, bound);
    }
  }

  lemma TradedBook(cfg: Config, s: State, j: nat, x: nat)
    requires Sound(cfg, s) && Enabled(cfg, s, Trade(j)) && Barriers(cfg, Apply(cfg, s, Trade(j)))
    requires var c := s.slots[s.mt[j]];
             ForBook(c) && Shards.Owns(cfg.matchShards, j, c.marketId) && MarketIndex(cfg.specs, c.marketId) == Some(x)
    ensures x < |cfg.specs| && BookOk(cfg, Apply(cfg, s, Trade(j)), x)
  {
    var k := s.mt[j];
    var t, c := Apply(cfg, s, Trade(j)), s.slots[k];
    FindSpecIndex(cfg.specs, c.marketId);
    TradeReady(cfg, s, j);
    assert BookOk(cfg, s, x);
    if c.kind == PlaceOrder {
      assert Pending(cfg, s, x, k);
    }
    var b := s.books[x];
    ProcessGood(cfg.specs[x], b, c, s.bound);
    assert t.books[x] == Process(b, c).book;
    forall l: nat | Pending(cfg, t, x, l)
      ensures IdsBelow(t.books[x].bids, t.slots[l].orderId) && IdsBelow(t.books[x].asks, t.slots[l].orderId)
    {
      PendingBefore(cfg, s, Trade(j), x, l);
      if c.kind == PlaceOrder {
        assert l != k && l > k;
        assert s.slots[k].orderId < s.slots[l].orderId;
      }
    }
  }

  lemma BooksKept(cfg: Config, s: State, a: Action)
    requires Sound(cfg, s) && Enabled(cfg, s, a) && Barriers(cfg, Apply(cfg, s, a))
    ensures BooksOk(cfg, Apply(cfg, s, a))
  {
    var t := Apply(cfg, s, a);
    forall x | 0 <= x < |cfg.specs|
      ensures BookOk(cfg, t, x)
    {
      if t.books[x] == s.books[x] {
        BookUntouched(cfg, s, a, x);
      } else {
        BookTouched(cfg, s, a, x);
      }
    }
  }

  lemma BookTouched(cfg: Config, s: State, a: Action, x: nat)
    requires Sound(cfg, s) && Enabled(cfg, s, a) && Barriers(cfg, Apply(cfg, s, a)) && x < |cfg.specs|
    requires Apply(cfg, s, a).books[x] != s.books[x]
    ensures BookOk(cfg, Apply(cfg, s, a), x)
  {
    match a {
      case Publish(_) =>
      case Journal(_, _) =>
      case Admit(i, bestAsk) => AdmitMoves(cfg, s, i, bestAsk);
      case Trade(j) => TradedBook(cfg, s, j, x);
      case Settle(i) => SettleMoves(cfg, s, i);
    }
  }

  // --- Every interleaving ------------------------------------------------------------------------

  lemma StepSound(cfg: Config, s: State, a: Action)
    requires Sound(cfg, s) && Enabled(cfg, s, a) && SupplyFits(cfg, s, a)
    ensures Sound(cfg, Apply(cfg, s, a))
  {
    LegsKept(cfg, s, a);
    SlotsKept(cfg, s, a);
    IdsKept(cfg, s, a);
    BooksKept(cfg, s, a);
  }

  lemma InitialSound(cfg: Config)
    requires GoodConfig(cfg)
    ensures Laid(cfg, Initial(cfg)) && Sound(cfg, Initial(cfg))
  {
    var s := Initial(cfg);
    forall x | 0 <= x < |cfg.specs|
      ensures BookOk(cfg, s, x)
    {
      assert s.books[x] == EMPTY_BOOK;
    }
  }
}
