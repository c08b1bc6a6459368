// Every step keeps the balance equation: trading moves funds, fees leave, and only
// deposits and withdrawals change the rest.
module Conservation {
  import opened Orders
  import QuoteMath
  import opened AssetTotals
  import opened Ledger
  import Shards
  import opened Sums
  import opened Pipeline
  import opened PipelineShape
  import opened Claims
  import opened Coverage
  import opened Imbalance

  // --- Steps that move no leg --------------------------------------------------------------

  lemma SlotNetSame(cfg: Config, s: State, t: State, k: nat, asset: nat)
    requires Laid(cfg, s) && Laid(cfg, t) && k < |s.slots| && k < |t.slots| && t.slots[k] == s.slots[k]
    requires Matched(cfg, t, k) <==> Matched(cfg, s, k)
    requires forall part: nat :: PartOpen(cfg, t, k, part) <==> PartOpen(cfg, s, k, part)
    ensures SlotNet(cfg, t, k, asset) == SlotNet(cfg, s, k, asset)
  {
    SumSame(BookedNets(cfg, t, k, asset), BookedNets(cfg, s, k, asset), Parts(s.slots[k]));
  }

  // A slot no settlement shard has reached has nothing booked.
  lemma UntouchedSlot(cfg: Config, s: State, k: nat, asset: nat)
    requires Laid(cfg, s) && k < |s.slots|
    requires forall part: nat :: PartOpen(cfg, s, k, part)
    ensures SlotNet(cfg, s, k, asset) == 0
  {
    SumZero(BookedNets(cfg, s, k, asset), Parts(s.slots[k]));
  }

  // No settlement shard is past the slot that another stage is working on.
  lemma NotReached(cfg: Config, s: State, a: Action, i: nat)
    requires Sound(cfg, s) && Enabled(cfg, s, a) && !a.Settle? && i < cfg.riskShards
    ensures s.r2[i] < Touched(s, a) || (s.r2[i] == Touched(s, a) && s.leg[i] == 0)
  {
    var j := if a.Trade? then a.router else 0;
    assert s.r2[i] <= s.mt[j] <= s.journaled;
    if a.Admit? {
      assert s.mt[j] <= s.r1[a.shard];
    }
  }

  // So before and after the step every part of it is open.
  lemma AheadOpen(cfg: Config, s: State, t: State, a: Action, k: nat, part: nat)
    requires Sound(cfg, s) && Enabled(cfg, s, a) && !a.Settle? && t == Apply(cfg, s, a)
    requires Laid(cfg, t) && k == Touched(s, a) && k < |t.slots|
    ensures PartOpen(cfg, t, k, part)
    ensures k < |s.slots| ==> PartOpen(cfg, s, k, part)
  {
    CursorsMove(cfg, s, a);
    HomeInRange(cfg.riskShards, PartUser(t.slots[k], part));
    NotReached(cfg, s, a, PartUser(t.slots[k], part) % cfg.riskShards);
    if k < |s.slots| {
      HomeInRange(cfg.riskShards, PartUser(s.slots[k], part));
      NotReached(cfg, s, a, PartUser(s.slots[k], part) % cfg.riskShards);
    }
  }

  lemma QuietNets(cfg: Config, s: State, a: Action, asset: nat)
    requires Sound(cfg, s) && Enabled(cfg, s, a) && !a.Settle?
    ensures var t := Apply(cfg, s, a);
            && Laid(cfg, t)
            && SumTo(SlotNets(cfg, t, asset), |t.slots|) == SumTo(SlotNets(cfg, s, asset), |s.slots|)
  {
    var t := Apply(cfg, s, a);
    CursorsMove(cfg, s, a);
    BarriersKept(cfg, s, a);
    forall k: nat | k < |s.slots|
      ensures SlotNets(cfg, t, asset)(k) == SlotNets(cfg, s, asset)(k)
    {
      QuietNet(cfg, s, a, k, asset);
    }
    SumSame(SlotNets(cfg, t, asset), SlotNets(cfg, s, asset), |s.slots|);
    if a.Publish? {
      var n := |s.slots|;
      forall part: nat
        ensures PartOpen(cfg, t, n, part)
      {
        AheadOpen(cfg, s, t, a, n, part);
      }
      UntouchedSlot(cfg, t, n, asset);
      assert SumTo(SlotNets(cfg, t, asset), n + 1) == SumTo(SlotNets(cfg, t, asset), n) + SlotNets(cfg, t, asset)(n);
    }
  }

  lemma QuietNet(cfg: Config, s: State, a: Action, k: nat, asset: nat)
    requires Sound(cfg, s) && Enabled(cfg, s, a) && !a.Settle? && k < |s.slots|
    ensures var t := Apply(cfg, s, a);
            Laid(cfg, t) && SlotNet(cfg, t, k, asset) == SlotNet(cfg, s, k, asset)
  {
    var t := Apply(cfg, s, a);
    CursorsMove(cfg, s, a);
    if k != Touched(s, a) {
      StagesElsewhere(cfg, s, a, k);
      SlotNetSame(cfg, s, t, k, asset);
    } else {
      BarriersKept(cfg, s, a);
      forall part: nat
        ensures PartOpen(cfg, t, k, part) && PartOpen(cfg, s, k, part)
      {
        AheadOpen(cfg, s, t, a, k, part);
      }
      UntouchedSlot(cfg, s, k, asset);
      UntouchedSlot(cfg, t, k, asset);
    }
  }

  // --- Admission ----------------------------------------------------------------------------

  // Only a processed deposit or withdrawal changes the holdings.
  lemma PreProcessHoldings(s: Store, specs: seq<QuoteMath.Spec>, c: Command, bestAsk: nat, asset: nat)
    requires ReservationLocks(specs, s, c, bestAsk) && c.status == Processing
    ensures var (t, d) := PreProcess(s, specs, c, bestAsk);
            Holdings(t, asset) == Holdings(s, asset) + Of(FundsKey(d), asset, FundsIn(d, FundsKey(d)))
  {
    var (t, d) := PreProcess(s, specs, c, bestAsk);
    var key, amount := FundsKey(d), FundsIn(d, FundsKey(d));
    assert Moves(Both, s, t, key, amount, key, 0) by {
      forall x
        ensures Amount(Both, Get(t, x)) == Amount(Both, Get(s, x)) + Point(key, amount)(x) + Point(key, 0)(x)
      {
        PreProcessLocks(s, specs, c, bestAsk, x);
        FundsInElsewhere(d, x);
      }
    }
    TotalMoves(Both, s, t, key, amount, key, 0, asset);
  }

  lemma FundsInElsewhere(c: Command, key: Key)
    ensures key != FundsKey(c) ==> FundsIn(c, key) == 0
  {
  }

  lemma NetAfterAdds(net: map<nat, int>, c: Command, asset: nat)
    ensures At(NetAfter(net, c), asset) == At(net, asset) + Of(FundsKey(c), asset, FundsIn(c, FundsKey(c)))
  {
  }

  lemma AdmitConserves(cfg: Config, s: State, i: nat, bestAsk: nat, asset: nat)
    requires Backed(cfg, s) && Enabled(cfg, s, Admit(i, bestAsk)) && SupplyFits(cfg, s, Admit(i, bestAsk))
    ensures var t := Apply(cfg, s, Admit(i, bestAsk));
            && t.fees == s.fees
            && Holdings(t.store, asset) - At(t.net, asset) == Holdings(s.store, asset) - At(s.net, asset)
  {
    var k := s.r1[i];
    var c := s.slots[k];
    if Shards.Owns(cfg.riskShards, i, c.userId) {
      UnadmittedWaits(cfg, s, i);
      PreProcessHoldings(s.store, cfg.specs, c, bestAsk, asset);
      NetAfterAdds(s.net, PreProcess(s.store, cfg.specs, c, bestAsk).1, asset);
    }
  }

  // --- Settlement ---------------------------------------------------------------------------

  lemma OtherNetsSettle(cfg: Config, s: State, i: nat, k: nat, asset: nat)
    requires Sound(cfg, s) && Enabled(cfg, s, Settle(i)) && k < |s.slots| && k != s.r2[i]
    ensures Laid(cfg, Apply(cfg, s, Settle(i)))
    ensures SlotNet(cfg, Apply(cfg, s, Settle(i)), k, asset) == SlotNet(cfg, s, k, asset)
  {
    StagesAfterSettle(cfg, s, i, k);
    forall part: nat
      ensures PartOpen(cfg, Apply(cfg, s, Settle(i)), k, part) <==> PartOpen(cfg, s, k, part)
    {
      OpenAfter(cfg, s, i, k, part);
    }
    SlotNetSame(cfg, s, Apply(cfg, s, Settle(i)), k, asset);
  }

  // The leg that the step books, if it books one.
  function BookedNet(cfg: Config, s: State, i: nat, asset: nat): int
    requires Laid(cfg, s) && i < cfg.riskShards && s.r2[i] < |s.slots|
  {
    var k, l := s.r2[i], s.leg[i];
    if Settleable(s.slots[k]) && Passes(cfg, s, i, k, l) then LegNet(cfg.specs, s.slots[k], l, asset) else 0
  }

  lemma SlotNetSettles(cfg: Config, s: State, i: nat, asset: nat)
    requires Sound(cfg, s) && Enabled(cfg, s, Settle(i))
    ensures Laid(cfg, Apply(cfg, s, Settle(i)))
    ensures SlotNet(cfg, Apply(cfg, s, Settle(i)), s.r2[i], asset)
         == SlotNet(cfg, s, s.r2[i], asset) + BookedNet(cfg, s, i, asset)
  {
    var t, k, l := Apply(cfg, s, Settle(i)), s.r2[i], s.leg[i];
    StagesAfterSettle(cfg, s, i, k);
    if Settleable(s.slots[k]) {
      var f, g := BookedNets(cfg, s, k, asset), BookedNets(cfg, t, k, asset);
      forall part: nat | part < Parts(s.slots[k])
        ensures g(part) == if part == l then f(l) + BookedNet(cfg, s, i, asset) else f(part)
      {
        OpenAfter(cfg, s, i, k, part);
      }
      SumChange(f, g, Parts(s.slots[k]), l);
    }
  }

  lemma SettleNets(cfg: Config, s: State, i: nat, asset: nat)
    requires Sound(cfg, s) && Enabled(cfg, s, Settle(i))
    ensures var t := Apply(cfg, s, Settle(i));
            && Laid(cfg, t)
            && SumTo(SlotNets(cfg, t, asset), |t.slots|)
               == SumTo(SlotNets(cfg, s, asset), |s.slots|) + BookedNet(cfg, s, i, asset)
  {
    var t, k := Apply(cfg, s, Settle(i)), s.r2[i];
    SettleMoves(cfg, s, i);
    SlotNetSettles(cfg, s, i, asset);
    forall l: nat | l < |s.slots| && l != k
      ensures SlotNets(cfg, s, asset)(l) == SlotNets(cfg, t, asset)(l)
    {
      OtherNetsSettle(cfg, s, i, l, asset);
    }
    SumChange(SlotNets(cfg, s, asset), SlotNets(cfg, t, asset), |s.slots|, k);
  }

  // What a booked leg does to the holdings.
  lemma BookedHoldings(spec: QuoteMath.Spec, c: Command, leg: nat, before: Store, after: Store, asset: nat)
    requires leg < LegCount(c) && LegBooked(spec, c, leg, before, after)
    ensures var t := LegTerms(spec, c, leg);
            Holdings(after, asset)
            == Holdings(before, asset) + Of(t.get, asset, Net(t.gross, t.fee)) - Of(t.give, asset, t.giveAmount)
  {
    var t := LegTerms(spec, c, leg);
    var net, given := Net(t.gross, t.fee), 0 - t.giveAmount as int;
    assert Moves(Both, before, after, t.get, net, t.give, given) by {
      forall x
        ensures Amount(Both, Get(after, x))
             == Amount(Both, Get(before, x)) + Point(t.get, net)(x) + Point(t.give, given)(x)
      {
        assert BookedAt(spec, c, leg, before, after, x);
      }
    }
    TotalMoves(Both, before, after, t.get, net, t.give, given, asset);
  }

  // One booked leg: the fee is what the holdings and the gross amounts differ by.
  lemma LegConserves(cfg: Config, s: State, i: nat, asset: nat)
    requires Backed(cfg, s) && Enabled(cfg, s, Settle(i))
    requires var k, l := s.r2[i], s.leg[i];
             && Settleable(s.slots[k]) && l < LegCount(s.slots[k])
             && Shards.Owns(cfg.riskShards, i, LegUser(s.slots[k], l))
    ensures var t, c, l := Apply(cfg, s, Settle(i)), s.slots[s.r2[i]], s.leg[i];
            && t.net == s.net && At(t.fees, asset) >= At(s.fees, asset)
            && Holdings(t.store, asset) + At(t.fees, asset)
               == Holdings(s.store, asset) + At(s.fees, asset) + LegNet(cfg.specs, c, l, asset)
  {
    var c, l := s.slots[s.r2[i]], s.leg[i];
    var spec := SettleSucceeds(cfg, s, i);
    LegFee(cfg, c, l, spec);
    BookedHoldings(spec, c, l, s.store, SettleLeg(s.store, cfg.specs, c, l).store, asset);
  }

  lemma ReleaseConserves(cfg: Config, s: State, i: nat, asset: nat)
    requires Backed(cfg, s) && Enabled(cfg, s, Settle(i))
    requires var k := s.r2[i];
             && Settleable(s.slots[k]) && s.leg[i] >= LegCount(s.slots[k])
             && Shards.Owns(cfg.riskShards, i, s.slots[k].userId) && ReleaseDue(s.slots[k])
    ensures Holdings(Release(s.store, cfg.specs, s.slots[s.r2[i]]).store, asset) == Holdings(s.store, asset)
  {
    var c := s.slots[s.r2[i]];
    var spec := SettleSucceeds(cfg, s, i);
    var after := Release(s.store, cfg.specs, c).store;
    assert Moves(Both, s.store, after, HeldKey(c), 0, HeldKey(c), 0) by {
      forall x
        ensures Amount(Both, Get(after, x))
             == Amount(Both, Get(s.store, x)) + Point(HeldKey(c), 0)(x) + Point(HeldKey(c), 0)(x)
      {
        assert FreedAt(spec, c, s.store, after, x);
      }
    }
    TotalMoves(Both, s.store, after, HeldKey(c), 0, HeldKey(c), 0, asset);
  }

  lemma SettleConserves(cfg: Config, s: State, i: nat, asset: nat)
    requires Backed(cfg, s) && Enabled(cfg, s, Settle(i))
    ensures var t := Apply(cfg, s, Settle(i));
            && t.net == s.net && At(t.fees, asset) >= At(s.fees, asset)
            && Holdings(t.store, asset) + At(t.fees, asset)
               == Holdings(s.store, asset) + At(s.fees, asset) + BookedNet(cfg, s, i, asset)
  {
    var k, l := s.r2[i], s.leg[i];
    var c := s.slots[k];
    Shards.OneOwner(cfg.riskShards, PartUser(c, l));
    if Settleable(c) && Shards.Owns(cfg.riskShards, i, PartUser(c, l)) {
      if l < LegCount(c) {
        LegConserves(cfg, s, i, asset);
      } else if ReleaseDue(c) {
        ReleaseConserves(cfg, s, i, asset);
      }
    }
  }

  // --- All steps --------------------------------------------------------------------------------

  lemma StepConserves(cfg: Config, s: State, a: Action, asset: nat)
    requires Backed(cfg, s) && Enabled(cfg, s, a) && SupplyFits(cfg, s, a)
    ensures var t := Apply(cfg, s, a);
            Laid(cfg, t) && ConservedIn(cfg, t, asset) && At(t.fees, asset) >= At(s.fees, asset)
  {
    CursorsMove(cfg, s, a);
    BarriersKept(cfg, s, a);
    assert ConservedIn(cfg, s, asset);
    if a.Settle? {
      SettleNets(cfg, s, a.shard, asset);
      SettleConserves(cfg, s, a.shard, asset);
    } else {
      QuietNets(cfg, s, a, asset);
      if a.Admit? {
        AdmitConserves(cfg, s, a.shard, a.bestAsk, asset);
      } else if a.Trade? {
        TradeMoves(cfg, s, a.router);
      }
    }
  }

  // The roles of a settlement: no event pairs a user with themselves, so the maker
  // leg is charged the maker fee and the taker leg the taker fee, and the fee of a
  // booked leg is what its credit falls short of the gross amount.
  lemma RolesCharged(cfg: Config, s: State, k: nat, leg: nat, spec: QuoteMath.Spec)
    requires Sound(cfg, s) && k < |s.slots| && Matched(cfg, s, k)
    requires leg < LegCount(s.slots[k]) && FindSpec(cfg.specs, s.slots[k].marketId) == Some(spec)
    ensures var t := LegTerms(spec, s.slots[k], leg);
            && t.fee == FeeOn(t.gross, if leg % 2 == 0 then spec.makerFee else spec.takerFee)
            && 0 <= t.fee <= t.gross && Net(t.gross, t.fee) == t.gross - t.fee
  {
    assert SlotOk(cfg, s, k);
    var c, t := s.slots[k], LegTerms(spec, s.slots[k], leg);
    assert c.events[leg / 2] in c.events;
    FindSpecMember(cfg.specs, c.marketId);
    FeeWithin(t.gross, if leg % 2 == 0 then spec.makerFee else spec.takerFee);
  }
}
