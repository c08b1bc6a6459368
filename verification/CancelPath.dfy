// A cancel on its way through the pipeline: it keeps the id it names, and takes out
// the very order that has it.
module CancelPath {
  import opened Orders
  import opened BookLaws
  import PriceTime
  import Shards
  import opened Pipeline
  import opened PipelineShape
  import opened PipelineSound

  // Nothing that happens before it is matched changes what a cancel names.
  lemma {:induction false} CancelKeepsId(cfg: Config, s: State, actions: seq<Action>, k: nat)
    requires Sound(cfg, s) && Possible(cfg, s, actions) && k < |s.slots| && s.slots[k].kind == CancelOrder
    ensures var t := After(cfg, s, actions);
            && Sound(cfg, t) && k < |t.slots| && t.slots[k].kind == CancelOrder
            && t.slots[k].orderId == s.slots[k].orderId && t.slots[k].marketId == s.slots[k].marketId
    decreases |actions|
  {
    if actions != [] {
      StepSound(cfg, s, actions[0]);
      IdsAfter(cfg, s, actions[0], k);
      CancelKeepsId(cfg, Apply(cfg, s, actions[0]), actions[1..], k);
    }
  }

  // One cancel handed to the book of its market.
  lemma TradeCancels(cfg: Config, s: State, j: nat, x: nat)
    requires Sound(cfg, s) && Enabled(cfg, s, Trade(j))
    requires var c := s.slots[s.mt[j]];
             && c.kind == CancelOrder && Shards.Owns(cfg.matchShards, j, c.marketId)
             && MarketIndex(cfg.specs, c.marketId) == Some(x) && x < |s.books|
             && IndexComplete(s.books[x]) && c.orderId in s.books[x].index && !MissedAsk(s.books[x], c.orderId)
    ensures var t, k := Apply(cfg, s, Trade(j)), s.mt[j];
            && k < |t.slots| && t.slots[k].status == Cancelled && |t.books| == |s.books|
            && RemovedExactly(s.books[x], t.books[x], s.slots[k].orderId)
            && forall y :: 0 <= y < |s.books| && y != x ==> t.books[y] == s.books[y]
  {
    var k := s.mt[j];
    TradeReady(cfg, s, j);
    FindSpecIndex(cfg.specs, s.slots[k].marketId);
    assert BookOk(cfg, s, x);
    BookTakes(cfg, s, j, x);
    CancelExact(s.books[x], s.slots[k], s.bound);
  }

  lemma BookTakes(cfg: Config, s: State, j: nat, x: nat)
    requires Laid(cfg, s) && j < cfg.matchShards && s.mt[j] < |s.slots| && x < |s.books|
    requires var c := s.slots[s.mt[j]];
             && c.kind == CancelOrder && c.status != Rejected && Shards.Owns(cfg.matchShards, j, c.marketId)
             && MarketIndex(cfg.specs, c.marketId) == Some(x)
    ensures var t, k := ApplyTrade(cfg, s, j), s.mt[j];
            var r := PriceTime.Cancel(s.books[x], s.slots[k]);
            t.slots == s.slots[k := r.cmd] && t.books == s.books[x := r.book]
  {
  }

  // A published cancel, whatever happens until its market's shard takes it: if the
  // order it names is indexed then, and is no ask whose price is also on the bid
  // side, exactly that order leaves the book.
  lemma CancelTakesOut(cfg: Config, before: seq<Action>, c: Command, later: seq<Action>, j: nat, x: nat)
    requires GoodConfig(cfg) && Possible(cfg, Initial(cfg), before)
    requires c.kind == CancelOrder
    requires Possible(cfg, After(cfg, Initial(cfg), before), [Publish(c)] + later)
    requires var s0 := After(cfg, Initial(cfg), before);
             var s := After(cfg, s0, [Publish(c)] + later);
             && Enabled(cfg, s, Trade(j)) && s.mt[j] == |s0.slots|
             && Shards.Owns(cfg.matchShards, j, c.marketId)
             && MarketIndex(cfg.specs, c.marketId) == Some(x) && x < |s.books|
             && IndexComplete(s.books[x]) && c.orderId in s.books[x].index && !MissedAsk(s.books[x], c.orderId)
    ensures var s := After(cfg, After(cfg, Initial(cfg), before), [Publish(c)] + later);
            var t := Apply(cfg, s, Trade(j));
            && x < |t.books| && RemovedExactly(s.books[x], t.books[x], c.orderId)
            && forall y :: 0 <= y < |s.books| && y != x ==> y < |t.books| && t.books[y] == s.books[y]
  {
    PublishedKeepsId(cfg, before, c, later);
    TradeCancels(cfg, After(cfg, After(cfg, Initial(cfg), before), [Publish(c)] + later), j, x);
  }

  lemma PublishedKeepsId(cfg: Config, before: seq<Action>, c: Command, later: seq<Action>)
    requires GoodConfig(cfg) && Possible(cfg, Initial(cfg), before) && c.kind == CancelOrder
    requires Possible(cfg, After(cfg, Initial(cfg), before), [Publish(c)] + later)
    ensures var s0 := After(cfg, Initial(cfg), before);
            var s, k := After(cfg, s0, [Publish(c)] + later), |s0.slots|;
            && Sound(cfg, s) && k < |s.slots|
            && s.slots[k].kind == CancelOrder && s.slots[k].orderId == c.orderId && s.slots[k].marketId == c.marketId
  {
    InitialSound(cfg);
    RunSound(cfg, Initial(cfg), before);
    var s0, a := After(cfg, Initial(cfg), before), [Publish(c)] + later;
    assert a[0] == Publish(c) && a[1..] == later;
    StepSound(cfg, s0, Publish(c));
    CancelKeepsId(cfg, Apply(cfg, s0, Publish(c)), later, |s0.slots|);
  }

  lemma {:induction false} RunSound(cfg: Config, s: State, actions: seq<Action>)
    requires Sound(cfg, s) && Possible(cfg, s, actions)
    ensures Sound(cfg, After(cfg, s, actions))
    decreases |actions|
  {
    if actions != [] {
      StepSound(cfg, s, actions[0]);
      RunSound(cfg, Apply(cfg, s, actions[0]), actions[1..]);
    }
  }
}
