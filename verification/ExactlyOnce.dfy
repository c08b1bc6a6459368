// Every leg and every release is booked exactly once across the settlement
// shards, and every accepted order is matched exactly once, by the shard that
// owns its market.
module ExactlyOnce {
  import opened Orders
  import Ledger
  import Shards
  import opened Pipeline
  import opened PipelineShape
  import PipelineSound
  import Claims
  import ClaimsMatching
  import Coverage
  import Conservation

  // A part that books something: any leg, or a release that is due.
  predicate Bookable(c: Command, part: nat) {
    Ledger.Settleable(c) && (part < Ledger.LegCount(c) || (part == Ledger.LegCount(c) && Ledger.ReleaseDue(c)))
  }

  predicate Booked(cfg: Config, s: State, k: nat, part: nat)
    requires Laid(cfg, s)
  {
    k < |s.slots| && Matched(cfg, s, k) && Bookable(s.slots[k], part) && !Claims.PartOpen(cfg, s, k, part)
  }

  ghost predicate SettledOnce(cfg: Config, s: State)
    requires Laid(cfg, s)
  {
    forall k: nat, part: nat :: s.settled[(k, part)] == if Booked(cfg, s, k, part) then 1 else 0
  }

  function Home(cfg: Config, c: Command): nat
    requires cfg.matchShards > 0
  {
    c.marketId % cfg.matchShards
  }

  // How often a shard has handed a slot to a book.
  ghost predicate MatchedOk(cfg: Config, s: State, k: nat, j: nat)
    requires Laid(cfg, s)
  {
    var times := s.matched[(k, j)];
    && times <= 1
    && (times == 1 ==> Matched(cfg, s, k) && j == Home(cfg, s.slots[k]))
    && (Matched(cfg, s, k) && j == Home(cfg, s.slots[k]) ==>
          && (Ledger.Settleable(s.slots[k]) ==> times == 1)
          && (s.slots[k].kind == PlaceOrder ==> times == if s.slots[k].status == Rejected then 0 else 1))
  }

  ghost predicate MatchedOnce(cfg: Config, s: State)
    requires Laid(cfg, s)
  {
    forall k: nat, j: nat :: MatchedOk(cfg, s, k, j)
  }

  ghost predicate Once(cfg: Config, s: State) {
    Laid(cfg, s) && SettledOnce(cfg, s) && MatchedOnce(cfg, s)
  }

  // --- Settlement steps -------------------------------------------------------------------

  lemma SettleBooks(cfg: Config, s: State, i: nat, k: nat, part: nat)
    requires Sound(cfg, s) && Once(cfg, s) && Enabled(cfg, s, Settle(i))
    ensures var t := Apply(cfg, s, Settle(i));
            Laid(cfg, t) && t.settled[(k, part)] == if Booked(cfg, t, k, part) then 1 else 0
  {
    var t, l := Apply(cfg, s, Settle(i)), s.leg[i];
    SettleMoves(cfg, s, i);
    Coverage.StagesAfterSettle(cfg, s, i, s.r2[i]);
    var c := s.slots[s.r2[i]];
    Shards.OneOwner(cfg.riskShards, Claims.PartUser(c, l));
    SettleRecords(cfg, s, i);
    assert s.settled[(k, part)] == if Booked(cfg, s, k, part) then 1 else 0;
    if k < |s.slots| && Bookable(s.slots[k], part) {
      Coverage.StagesAfterSettle(cfg, s, i, k);
      Coverage.OpenAfter(cfg, s, i, k, part);
    }
  }

  // The history after a settlement step.
  lemma SettleRecords(cfg: Config, s: State, i: nat)
    requires Sound(cfg, s) && Enabled(cfg, s, Settle(i))
    ensures var t, c, l := Apply(cfg, s, Settle(i)), s.slots[s.r2[i]], s.leg[i];
            && t.matched == s.matched
            && t.settled == if Bookable(c, l) && Shards.Owns(cfg.riskShards, i, Claims.PartUser(c, l))
                            then s.settled + multiset{(s.r2[i], l)} else s.settled
  {
  }

  // --- The other steps -----------------------------------------------------------------------

  lemma QuietSettled(cfg: Config, s: State, a: Action)
    requires Enabled(cfg, s, a) && !a.Settle?
    ensures Apply(cfg, s, a).settled == s.settled
  {
  }

  // They neither book a part nor unbook one.
  lemma QuietBooked(cfg: Config, s: State, a: Action, k: nat, part: nat)
    requires Sound(cfg, s) && Enabled(cfg, s, a) && !a.Settle?
    ensures var t := Apply(cfg, s, a);
            Laid(cfg, t) && (Booked(cfg, t, k, part) <==> Booked(cfg, s, k, part))
  {
    var t := Apply(cfg, s, a);
    CursorsMove(cfg, s, a);
    BarriersKept(cfg, s, a);
    if k == Touched(s, a) && k < |t.slots| {
      Conservation.AheadOpen(cfg, s, t, a, k, part);
    } else if k < |s.slots| {
      StagesElsewhere(cfg, s, a, k);
    }
  }

  lemma QuietBooks(cfg: Config, s: State, a: Action, k: nat, part: nat)
    requires Sound(cfg, s) && Once(cfg, s) && Enabled(cfg, s, a) && !a.Settle?
    ensures var t := Apply(cfg, s, a);
            Laid(cfg, t) && t.settled[(k, part)] == if Booked(cfg, t, k, part) then 1 else 0
  {
    QuietSettled(cfg, s, a);
    QuietBooked(cfg, s, a, k, part);
  }

  // --- Matching steps --------------------------------------------------------------------------

  // The command after its own shard has taken it.
  lemma TradeRecords(cfg: Config, s: State, j: nat)
    requires Sound(cfg, s) && Enabled(cfg, s, Trade(j))
    ensures var t, k := Apply(cfg, s, Trade(j)), s.mt[j];
            var c := s.slots[k];
            && k < |t.slots| && t.slots[k].marketId == c.marketId && t.slots[k].kind == c.kind
            && (if j == Home(cfg, c) && ForBook(c) && MarketIndex(cfg.specs, c.marketId).Some? then
                  && t.matched == s.matched + multiset{(k, j)}
                  && (c.kind == PlaceOrder ==> t.slots[k].status != Rejected)
                else
                  && t.matched == s.matched
                  && (j == Home(cfg, c) ==>
                        !Ledger.Settleable(t.slots[k]) && (c.kind == PlaceOrder ==> t.slots[k].status == Rejected)))
  {
    var k := s.mt[j];
    var c := s.slots[k];
    TradeMoves(cfg, s, j);
    PipelineSound.TradeReady(cfg, s, j);
    PipelineSound.TradeIds(cfg, s, j);
    FindSpecIndex(cfg.specs, c.marketId);
    if j == Home(cfg, c) && c.kind == PlaceOrder && ForBook(c) && MarketIndex(cfg.specs, c.marketId).Some? {
      ClaimsMatching.PlaceKeeps(s.books[MarketIndex(cfg.specs, c.marketId).value], c);
    }
  }

  lemma TradeMatches(cfg: Config, s: State, r: nat, k: nat, j: nat)
    requires Sound(cfg, s) && Once(cfg, s) && Enabled(cfg, s, Trade(r))
    ensures Laid(cfg, Apply(cfg, s, Trade(r))) && MatchedOk(cfg, Apply(cfg, s, Trade(r)), k, j)
  {
    var t := Apply(cfg, s, Trade(r));
    assert MatchedOk(cfg, s, k, j);
    TradeMoves(cfg, s, r);
    TradeRecords(cfg, s, r);
    PipelineSound.TradeReady(cfg, s, r);
    if k != s.mt[r] {
      if k < |s.slots| {
        StagesElsewhere(cfg, s, Trade(r), k);
      }
    } else {
      HomeInRange(cfg.matchShards, s.slots[k].marketId);
    }
  }

  lemma QuietMatches(cfg: Config, s: State, a: Action, k: nat, j: nat)
    requires Sound(cfg, s) && Once(cfg, s) && Enabled(cfg, s, a) && !a.Trade?
    ensures Laid(cfg, Apply(cfg, s, a)) && MatchedOk(cfg, Apply(cfg, s, a), k, j)
  {
    var t := Apply(cfg, s, a);
    assert MatchedOk(cfg, s, k, j);
    CursorsMove(cfg, s, a);
    BarriersKept(cfg, s, a);
    if k < |s.slots| {
      if a.Settle? {
        Coverage.StagesAfterSettle(cfg, s, a.shard, k);
        SettleRecords(cfg, s, a.shard);
      } else if k != Touched(s, a) {
        StagesElsewhere(cfg, s, a, k);
      } else {
        StillUnmatched(cfg, s, a);
      }
    } else if a.Publish? {
      StillUnmatched(cfg, s, a);
    } else if a.Settle? {
      SettleRecords(cfg, s, a.shard);
    }
  }

  // Publishing, journaling and an admission by the user's shard find the slot
  // unmatched and leave it so; any other admission changes nothing.
  lemma StillUnmatched(cfg: Config, s: State, a: Action)
    requires Sound(cfg, s) && Enabled(cfg, s, a) && !a.Trade? && !a.Settle?
    ensures var t, k := Apply(cfg, s, a), Touched(s, a);
            && Laid(cfg, t) && k < |t.slots| && t.matched == s.matched
            && !Matched(cfg, t, k) && !Matched(cfg, s, k)
  {
    var t, k := Apply(cfg, s, a), Touched(s, a);
    CursorsMove(cfg, s, a);
    HomeInRange(cfg.matchShards, t.slots[k].marketId);
    if k < |s.slots| {
      HomeInRange(cfg.matchShards, s.slots[k].marketId);
    }
    forall j | 0 <= j < cfg.matchShards
      ensures s.mt[j] <= k
    {
      if a.Admit? {
        assert s.mt[j] <= s.r1[a.shard];
      }
    }
  }

  // --- Every interleaving ------------------------------------------------------------------------

  lemma StepOnce(cfg: Config, s: State, a: Action)
    requires Sound(cfg, s) && Once(cfg, s) && Enabled(cfg, s, a)
    ensures Once(cfg, Apply(cfg, s, a))
  {
    var t := Apply(cfg, s, a);
    BarriersKept(cfg, s, a);
    forall k: nat, part: nat
      ensures t.settled[(k, part)] == if Booked(cfg, t, k, part) then 1 else 0
    {
      if a.Settle? {
        SettleBooks(cfg, s, a.shard, k, part);
      } else {
        QuietBooks(cfg, s, a, k, part);
      }
    }
    forall k: nat, j: nat
      ensures MatchedOk(cfg, t, k, j)
    {
      if a.Trade? {
        TradeMatches(cfg, s, a.router, k, j);
      } else {
        QuietMatches(cfg, s, a, k, j);
      }
    }
  }

  lemma {:induction false} RunOnce(cfg: Config, s: State, actions: seq<Action>)
    requires Sound(cfg, s) && Once(cfg, s) && Possible(cfg, s, actions)
    ensures Sound(cfg, After(cfg, s, actions)) && Once(cfg, After(cfg, s, actions))
    decreases |actions|
  {
    if actions != [] {
      PipelineSound.StepSound(cfg, s, actions[0]);
      StepOnce(cfg, s, actions[0]);
      RunOnce(cfg, Apply(cfg, s, actions[0]), actions[1..]);
    }
  }

  // Once every settlement shard has passed a command, every part of it that books
  // something is booked.
  lemma PassedBooked(cfg: Config, s: State, k: nat, part: nat)
    requires Sound(cfg, s) && k < |s.slots| && Bookable(s.slots[k], part)
    requires forall i :: 0 <= i < cfg.riskShards ==> s.r2[i] > k
    ensures Booked(cfg, s, k, part)
  {
    HomeInRange(cfg.riskShards, Claims.PartUser(s.slots[k], part));
    HomeInRange(cfg.matchShards, s.slots[k].marketId);
    assert s.r2[0] <= s.mt[s.slots[k].marketId % cfg.matchShards];
  }

  ghost predicate AllPassed(cfg: Config, s: State, k: nat)
    requires Laid(cfg, s)
  {
    k < |s.slots| && forall i :: 0 <= i < cfg.riskShards ==> s.r2[i] > k
  }

  // In every reachable state, for any power-of-two shard counts: a leg, or a
  // release that is due, has been booked once if the shard that owns its user has
  // passed it, and not at all otherwise.
  lemma BookedExactlyOnce(cfg: Config, actions: seq<Action>, k: nat, part: nat)
    requires GoodConfig(cfg) && Possible(cfg, Initial(cfg), actions)
    ensures var s := After(cfg, Initial(cfg), actions);
            && Laid(cfg, s)
            && s.settled[(k, part)] == (if Booked(cfg, s, k, part) then 1 else 0)
            && (AllPassed(cfg, s, k) && Bookable(s.slots[k], part) ==> s.settled[(k, part)] == 1)
  {
    PipelineSound.InitialSound(cfg);
    RunOnce(cfg, Initial(cfg), actions);
    var s := After(cfg, Initial(cfg), actions);
    if AllPassed(cfg, s, k) && Bookable(s.slots[k], part) {
      PassedBooked(cfg, s, k, part);
    }
  }

  // ... and once the matching stage has passed a place command, the shard that
  // owns its market has matched it once unless the first stage rejected it, and no
  // other shard has matched it.
  lemma MatchedExactlyOnce(cfg: Config, actions: seq<Action>, k: nat, j: nat)
    requires GoodConfig(cfg) && Possible(cfg, Initial(cfg), actions)
    requires var s := After(cfg, Initial(cfg), actions);
             && k < |s.slots| && s.slots[k].kind == PlaceOrder
             && Laid(cfg, s) && forall i :: 0 <= i < cfg.matchShards ==> s.mt[i] > k
    ensures var s := After(cfg, Initial(cfg), actions);
            s.matched[(k, j)] ==
            if s.slots[k].status != Rejected && Shards.Owns(cfg.matchShards, j, s.slots[k].marketId) then 1 else 0
  {
    PipelineSound.InitialSound(cfg);
    RunOnce(cfg, Initial(cfg), actions);
    var s := After(cfg, Initial(cfg), actions);
    assert MatchedOk(cfg, s, k, j);
    HomeInRange(cfg.matchShards, s.slots[k].marketId);
    Shards.OneOwner(cfg.matchShards, s.slots[k].marketId);
  }
}
