// The ledger over whole runs, in every interleaving: claims are covered, nothing
// that comes up for settlement fails, and funds are conserved.
module Solvency {
  import BookRuns
  import opened AssetTotals
  import opened Ledger
  import Shards
  import Sums
  import opened Pipeline
  import PipelineShape
  import PipelineSound
  import opened Claims
  import opened Coverage
  import opened Imbalance
  import Conservation

  lemma StepBacked(cfg: Config, s: State, a: Action)
    requires Backed(cfg, s) && Enabled(cfg, s, a) && SupplyFits(cfg, s, a)
    ensures Backed(cfg, Apply(cfg, s, a))
  {
    PipelineSound.StepSound(cfg, s, a);
    var t := Apply(cfg, s, a);
    forall scope
      ensures CoveredIn(cfg, t, scope)
    {
      assert CoveredIn(cfg, s, scope);
      StepCovers(cfg, s, a, scope);
    }
    forall asset
      ensures ConservedIn(cfg, t, asset) && At(t.fees, asset) >= 0
    {
      assert At(s.fees, asset) >= 0;
      Conservation.StepConserves(cfg, s, a, asset);
    }
  }

  lemma InitialBacked(cfg: Config)
    requires GoodConfig(cfg)
    ensures Laid(cfg, Initial(cfg)) && Backed(cfg, Initial(cfg))
  {
    PipelineSound.InitialSound(cfg);
    var s := Initial(cfg);
    forall scope
      ensures CoveredIn(cfg, s, scope)
    {
      forall x: nat | x < |s.books|
        ensures BookClaims(cfg, s, scope)(x) == 0
      {
        assert s.books[x] == BookRuns.EMPTY_BOOK;
      }
      Sums.SumZero(BookClaims(cfg, s, scope), |s.books|);
    }
  }

  lemma {:induction false} RunBacked(cfg: Config, s: State, actions: seq<Action>)
    requires Backed(cfg, s) && Possible(cfg, s, actions)
    ensures Backed(cfg, After(cfg, s, actions))
    decreases |actions|
  {
    if actions != [] {
      StepBacked(cfg, s, actions[0]);
      RunBacked(cfg, Apply(cfg, s, actions[0]), actions[1..]);
    }
  }

  // In every reachable state of every interleaving, each user's locked amount in
  // each asset is at least the sum of all outstanding claims on it.
  lemma ReachableBacked(cfg: Config, actions: seq<Action>)
    requires GoodConfig(cfg) && Possible(cfg, Initial(cfg), actions)
    ensures var s := After(cfg, Initial(cfg), actions);
            Backed(cfg, s) && forall key :: Get(s.store, key).locked >= Outstanding(cfg, s, One(key))
  {
    InitialBacked(cfg);
    RunBacked(cfg, Initial(cfg), actions);
    var s := After(cfg, Initial(cfg), actions);
    forall key
      ensures Get(s.store, key).locked >= Outstanding(cfg, s, One(key))
    {
      assert CoveredIn(cfg, s, One(key));
    }
  }

  // So no leg and no release of any run fails: neither for want of locked funds,
  // nor by overflow of what is available.
  lemma NoSettlementFails(cfg: Config, actions: seq<Action>, i: nat)
    requires GoodConfig(cfg) && Possible(cfg, Initial(cfg), actions)
    requires var s := After(cfg, Initial(cfg), actions);
             Enabled(cfg, s, Settle(i)) && Settleable(s.slots[s.r2[i]])
    ensures var s := After(cfg, Initial(cfg), actions);
            var c, l := s.slots[s.r2[i]], s.leg[i];
            && (l < LegCount(c) && Shards.Owns(cfg.riskShards, i, LegUser(c, l)) ==>
                  SettleLeg(s.store, cfg.specs, c, l).result == Ok)
            && (l == LegCount(c) && Shards.Owns(cfg.riskShards, i, c.userId) && ReleaseDue(c) ==>
                  Release(s.store, cfg.specs, c).result == Ok)
  {
    ReachableBacked(cfg, actions);
    var s := After(cfg, Initial(cfg), actions);
    var c, l := s.slots[s.r2[i]], s.leg[i];
    if Shards.Owns(cfg.riskShards, i, PartUser(c, l)) {
      var spec := SettleSucceeds(cfg, s, i);
    }
  }

  // What any user has available of an asset never exceeds its net deposits.
  lemma AvailableBounded(cfg: Config, actions: seq<Action>, key: Key)
    requires GoodConfig(cfg) && Possible(cfg, Initial(cfg), actions)
    ensures var s := After(cfg, Initial(cfg), actions);
            Get(s.store, key).available <= At(s.net, key.asset)
  {
    ReachableBacked(cfg, actions);
    var s := After(cfg, Initial(cfg), actions);
    assert CoveredIn(cfg, s, All(key.asset)) && ConservedIn(cfg, s, key.asset);
    HoldingsSplit(s.store, key.asset);
    AvailableWithin(s.store, key);
    ClaimsExceedNets(cfg, s, key.asset);
  }

  // Whenever no command is half settled, in whatever order the stages ran,
  // balances and fees add up to deposits less withdrawals, for every asset.
  lemma FundsConserved(cfg: Config, actions: seq<Action>, asset: nat)
    requires GoodConfig(cfg) && Possible(cfg, Initial(cfg), actions)
    requires var s := After(cfg, Initial(cfg), actions);
             Laid(cfg, s) && forall k: nat :: k < |s.slots| ==> Whole(cfg, s, k)
    ensures var s := After(cfg, Initial(cfg), actions);
            Holdings(s.store, asset) + At(s.fees, asset) == At(s.net, asset)
  {
    ReachableBacked(cfg, actions);
    WholeConserves(cfg, After(cfg, Initial(cfg), actions), asset);
  }

  lemma WholeConserves(cfg: Config, s: State, asset: nat)
    requires Backed(cfg, s) && forall k: nat :: k < |s.slots| ==> Whole(cfg, s, k)
    ensures Holdings(s.store, asset) + At(s.fees, asset) == At(s.net, asset)
  {
    assert ConservedIn(cfg, s, asset);
    forall k: nat | k < |s.slots|
      ensures SlotNets(cfg, s, asset)(k) == 0
    {
      WholeSlot(cfg, s, k, asset);
    }
    Sums.SumZero(SlotNets(cfg, s, asset), |s.slots|);
  }

  // In particular when all settlement shards stand in front of one command, every
  // earlier command is wholly settled and every later one untouched.
  lemma BoundaryWhole(cfg: Config, s: State, n: nat, k: nat)
    requires Laid(cfg, s) && k < |s.slots|
    requires forall i :: 0 <= i < cfg.riskShards ==> s.r2[i] == n && s.leg[i] == 0
    ensures Whole(cfg, s, k)
  {
    forall part: nat
      ensures PartOpen(cfg, s, k, part) <==> n <= k
    {
      PipelineShape.HomeInRange(cfg.riskShards, PartUser(s.slots[k], part));
    }
  }
}
